// backend/vault.py: the life of the wrapped data key. Sealing is an ideal
// authenticated cipher (section 2 of RFC 5116) and the derivation an injective
// function (section 6 of RFC 7914): a sealed key opens under its own key only,
// and different inputs derive different keys.

module VaultKeys {
  import opened Text

  datatype Params = Params(n: nat, r: nat, p: nat)

  datatype Key = Data(id: nat) | Derived(secret: string, salt: nat, params: Params)

  datatype Sealed = Sealed(under: Key, content: Key)

  function Unseal(k: Key, s: Sealed): Option<Key> {
    if s.under == k then Some(s.content) else None
  }

  /** `_derive`: an empty secret is refused. */
  function Derive(secret: string, salt: nat, params: Params): Option<Key> {
    if secret == "" then None else Some(Derived(secret, salt, params))
  }

  function WithoutSeparators(s: string): string {
    if s == "" then ""
    else (if IsSpace(s[0]) || s[0] == '-' then "" else [s[0]]) + WithoutSeparators(s[1..])
  }

  function Upper(s: string): (r: string)
    ensures |r| == |s| && forall i :: 0 <= i < |s| && !('a' <= s[i] <= 'z') ==> r[i] == s[i]
  {
    seq(|s|, i requires 0 <= i < |s| => if 'a' <= s[i] <= 'z' then s[i] - 'a' + 'A' else s[i])
  }

  /** However the owner retypes it: spaces, dashes, any case. */
  function NormalCode(code: string): string {
    Upper(WithoutSeparators(code))
  }

  lemma {:induction false} WithoutConcat(a: string, b: string)
    ensures WithoutSeparators(a + b) == WithoutSeparators(a) + WithoutSeparators(b)
  {
    if a == "" {
      assert a + b == b;
    } else {
      assert (a + b)[1..] == a[1..] + b;
      WithoutConcat(a[1..], b);
    }
  }

  /** A code is read piece by piece. */
  lemma NormalConcat(a: string, b: string)
    ensures NormalCode(a + b) == NormalCode(a) + NormalCode(b)
  {
    hide WithoutSeparators;
    WithoutConcat(a, b);
  }

  /** Capitals and digits, what a code is minted from. */
  predicate PlainCode(s: string) {
    forall i :: 0 <= i < |s| ==> 'A' <= s[i] <= 'Z' || '0' <= s[i] <= '9'
  }

  /** Retyped as it was minted, a code is its own normal form. */
  lemma {:induction false} PlainCodeIsNormal(s: string)
    requires PlainCode(s)
    ensures NormalCode(s) == s
  {
    PlainHasNoSeparators(s);
    assert forall i :: 0 <= i < |s| ==> Upper(s)[i] == s[i];
  }

  lemma {:induction false} PlainHasNoSeparators(s: string)
    requires PlainCode(s)
    ensures WithoutSeparators(s) == s
  {
    if s != "" {
      PlainHasNoSeparators(s[1..]);
      assert s == [s[0]] + s[1..];
    }
  }

  lemma OneSeparator(c: char)
    requires c == ' ' || c == '-'
    ensures NormalCode([c]) == ""
  {
    assert WithoutSeparators([c]) == "" + WithoutSeparators([c][1..]);
  }

  /** A space or a dash anywhere makes no difference. */
  lemma SeparatorsIgnored(a: string, c: char, b: string)
    requires c == ' ' || c == '-'
    ensures NormalCode(a + [c] + b) == NormalCode(a + b)
  {
    hide NormalCode;
    OneSeparator(c);
    NormalConcat(a + [c], b);
    NormalConcat(a, [c]);
    NormalConcat(a, b);
  }

  lemma OneLetter(c: char)
    requires 'a' <= c <= 'z'
    ensures NormalCode([c]) == [c - 'a' + 'A'] == NormalCode([c - 'a' + 'A'])
  {
    assert WithoutSeparators([c]) == [c] + WithoutSeparators([c][1..]);
    PlainCodeIsNormal([c - 'a' + 'A']);
  }

  /** Nor does a letter made small. */
  lemma CaseIgnored(a: string, c: char, b: string)
    requires 'a' <= c <= 'z'
    ensures NormalCode(a + [c] + b) == NormalCode(a + [c - 'a' + 'A'] + b)
  {
    hide NormalCode;
    OneLetter(c);
    var d := c - 'a' + 'A';
    NormalConcat(a + [c], b);
    NormalConcat(a, [c]);
    NormalConcat(a + [d], b);
    NormalConcat(a, [d]);
  }

  predicate PlainGroups(groups: seq<string>) {
    forall i :: 0 <= i < |groups| ==> PlainCode(groups[i])
  }

  /** A code in groups is read without its dashes. */
  lemma {:induction false} GroupsAreJoined(groups: seq<string>)
    requires PlainGroups(groups)
    ensures NormalCode(Join(groups, "-")) == Join(groups, "")
  {
    hide NormalCode;
    if groups == [] {
      PlainCodeIsNormal("");
    } else if |groups| == 1 {
      PlainCodeIsNormal(groups[0]);
    } else {
      GroupsAreJoined(groups[1..]);
      PlainCodeIsNormal(groups[0]);
      OneSeparator('-');
      NormalConcat(groups[0] + "-", Join(groups[1..], "-"));
      NormalConcat(groups[0], "-");
    }
  }

  /** A minted code has something in it. */
  type Code = c: string | NormalCode(c) != "" witness MintedExample()

  function MintedExample(): (c: string)
    ensures NormalCode(c) != ""
  {
    assert WithoutSeparators("A") == ['A'] + WithoutSeparators("A"[1..]);
    "A"
  }

  const MIN_PASSPHRASE := 12

  /** `vault_meta`: one set of stored parameters for both wraps. */
  datatype Meta = Meta(salt: nat, passWrap: Sealed, params: Params, recovery: Option<(nat, Sealed)>)

  /** The stored meta, and the data keys held open by sessions of this process. */
  datatype State = State(meta: Option<Meta>, held: set<Key>)

  /** What is asked of the vault. Random choices and the code's own parameters are part of the request. */
  datatype Op =
    | Init(pass: string, id: nat, salt: nat, params: Params, minted: Option<Code>, rsalt: nat)
    | Unlock(pass: string)
    | Recover(typed: string)
    | ChangePassphrase(key: Key, pass: string, salt: nat, params: Params)
    | Regenerate(key: Key, code: Code, rsalt: nat, params: Params)
    | Restart

  /** Whether it was granted, and the data key it opened. */
  datatype Outcome = Refused | Done | Opened(key: Key)

  function WrapFor(secret: string, salt: nat, params: Params, key: Key): Sealed {
    Sealed(Derived(secret, salt, params), key)
  }

  function UnlockWith(m: Meta, pass: string): Option<Key> {
    var k := Derive(pass, m.salt, m.params);
    if k.None? then None else Unseal(k.value, m.passWrap)
  }

  function UnwrapRecovery(m: Meta, typed: string): Option<Key> {
    if m.recovery.None? then None
    else
      var k := Derive(NormalCode(typed), m.recovery.value.0, m.params);
      if k.None? then None else Unseal(k.value, m.recovery.value.1)
  }

  /** A key that opens goes to the session that asked. */
  function Open(s: State, k: Option<Key>): (State, Outcome) {
    if k.None? then (s, Refused) else (s.(held := s.held + {k.value}), Opened(k.value))
  }

  function Apply(s: State, op: Op): (State, Outcome) {
    match op
    case Init(pass, id, salt, params, code, rsalt) =>
      if |pass| < MIN_PASSPHRASE || s.meta.Some? then (s, Refused)
      else
        (s.(meta := Some(Meta(salt, WrapFor(pass, salt, params, Data(id)), params,
            if code.Some? then Some((rsalt, WrapFor(NormalCode(code.value), rsalt, params, Data(id)))) else None))),
                Done)
    case Unlock(pass) => Open(s, if s.meta.None? then None else UnlockWith(s.meta.value, pass))
    case Recover(typed) => Open(s, if s.meta.None? then None else UnwrapRecovery(s.meta.value, typed))
    case ChangePassphrase(k, pass, salt, params) =>
      if k !in s.held || |pass| < MIN_PASSPHRASE || s.meta.None? then (s, Refused)
      else (s.(meta := Some(s.meta.value.(salt := salt, passWrap := WrapFor(pass, salt, params, k),
          params := params))), Done)
    case Regenerate(k, code, rsalt, params) =>
      if k !in s.held || s.meta.None? then (s, Refused)
      else (s.(meta := Some(s.meta.value.(recovery := Some((rsalt, WrapFor(NormalCode(code), rsalt, params, k)))))),
          Done)
    case Restart => (s.(held := {}), Done)
  }

  // ------------------------------------------------------------ the reference

  /** A vault without cryptography: who may open it, and with what. */
  datatype Ledger =
    | Unset
    | Set(key: Key, pass: string, passParams: Params, code: Option<Code>, codeParams: Params, open: bool)

  function Refer(l: Ledger, op: Op): (Ledger, Outcome) {
    match op
    case Init(pass, id, _, params, code, _) =>
      if |pass| < 12 || l.Set? then (l, Refused)
          else (Set(Data(id), pass, params, code, params, false), Done)
    case Unlock(pass) => if l.Set? && pass == l.pass then (l.(open := true), Opened(l.key)) else (l, Refused)
    case Recover(typed) =>
      if l.Set? && l.code.Some? && NormalCode(typed) == NormalCode(l.code.value) && l.codeParams == l.passParams
      then (l.(open := true), Opened(l.key)) else (l, Refused)
    case ChangePassphrase(k, pass, _, params) =>
      if l.Set? && l.open && k == l.key && |pass| >= 12 then (l.(pass := pass, passParams := params), Done)
      else (l, Refused)
    case Regenerate(k, code, _, params) =>
      if l.Set? && l.open && k == l.key then (l.(code := Some(code), codeParams := params), Done) else (l, Refused)
    case Restart => (if l.Set? then l.(open := false) else l, Done)
  }

  /** How the two stand to each other. */
  predicate Refines(s: State, l: Ledger) {
    match l
    case Unset => s.meta.None? && s.held == {}
    case Set(key, pass, passParams, code, codeParams, open) =>
      && s.held == (if open then {key} else {})
      && |pass| >= MIN_PASSPHRASE
      && s.meta.Some? && s.meta.value.params == passParams
      && s.meta.value.passWrap == WrapFor(pass, s.meta.value.salt, passParams, key)
      && (code.Some? <==> s.meta.value.recovery.Some?)
      && (code.Some? ==> s.meta.value.recovery.value.1 ==
                         WrapFor(NormalCode(code.value), s.meta.value.recovery.value.0, codeParams, key))
  }

  lemma StepRefines(s: State, l: Ledger, op: Op)
    requires Refines(s, l)
    ensures Refines(Apply(s, op).0, Refer(l, op).0) && Apply(s, op).1 == Refer(l, op).1
  {
    hide NormalCode;
    match op
    case Recover(typed) =>
      if l.Set? && l.code.Some? {
        MintedCode(l.code.value);
      }
    case _ =>
  }

  lemma MintedCode(c: Code)
    ensures NormalCode(c) != ""
  {
  }

  // -------------------------------------------------------------- whole traces

  const FRESH := State(None, {})

  function After(ops: seq<Op>): State {
    if ops == [] then FRESH else Apply(After(ops[..|ops| - 1]), ops[|ops| - 1]).0
  }

  function LedgerAfter(ops: seq<Op>): Ledger {
    if ops == [] then Unset else Refer(LedgerAfter(ops[..|ops| - 1]), ops[|ops| - 1]).0
  }

  /** What the vault answers to the request at `i`, after those before it. */
  function Answer(ops: seq<Op>, i: nat): Outcome
    requires i < |ops|
  {
    Apply(After(ops[..i]), ops[i]).1
  }

  lemma {:induction false} TraceRefines(ops: seq<Op>)
    ensures Refines(After(ops), LedgerAfter(ops))
  {
    hide Refines, Apply, Refer;
    if ops == [] {
      FreshRefines();
    } else {
      TraceRefines(ops[..|ops| - 1]);
      StepRefines(After(ops[..|ops| - 1]), LedgerAfter(ops[..|ops| - 1]), ops[|ops| - 1]);
    }
  }

  lemma FreshRefines()
    ensures Refines(FRESH, Unset)
  {
  }

  /** Every answer of the real vault is the answer of the reference that knows no cryptography. */
  lemma AnswersAgree(ops: seq<Op>, i: nat)
    requires i < |ops|
    ensures Answer(ops, i) == Refer(LedgerAfter(ops[..i]), ops[i]).1
  {
    hide Refines, Apply, Refer;
    TraceRefines(ops[..i]);
    StepRefines(After(ops[..i]), LedgerAfter(ops[..i]), ops[i]);
  }

  lemma {:induction false} KeyNeverChanges(ops: seq<Op>, i: nat)
    requires i <= |ops| && LedgerAfter(ops[..i]).Set?
    ensures LedgerAfter(ops).Set? && LedgerAfter(ops).key == LedgerAfter(ops[..i]).key
    decreases |ops|
  {
    if i == |ops| {
      assert ops[..i] == ops;
    } else {
      var n := |ops| - 1;
      assert ops[..n][..i] == ops[..i];
      KeyNeverChanges(ops[..n], i);
    }
  }

  /** Whatever opens it, and however often wraps are renewed, the data key is one and the same. */
  lemma OneDataKey(ops: seq<Op>, i: nat, j: nat)
    requires i < j < |ops| && Answer(ops, i).Opened? && Answer(ops, j).Opened?
    ensures Answer(ops, i).key == Answer(ops, j).key
  {
    AnswersAgree(ops, i);
    AnswersAgree(ops, j);
    assert ops[..j][..i] == ops[..i];
    KeyNeverChanges(ops[..j], i);
  }

  /** Exactly the current passphrase unlocks. */
  lemma PassphraseExact(ops: seq<Op>, pass: string)
    requires After(ops).meta.Some?
    ensures LedgerAfter(ops).Set?
    ensures UnlockWith(After(ops).meta.value, pass).Some? <==> pass == LedgerAfter(ops).pass
  {
    TraceRefines(ops);
  }

  /**
   * A typed code opens exactly when it is the latest one and the stored parameters are still those
   * it was wrapped with.
   */
  lemma RecoveryExact(ops: seq<Op>, typed: string)
    requires After(ops).meta.Some?
    ensures LedgerAfter(ops).Set?
    ensures var l := LedgerAfter(ops);
            UnwrapRecovery(After(ops).meta.value, typed).Some? <==>
            l.code.Some? && NormalCode(typed) == NormalCode(l.code.value)
                && After(ops).meta.value.params == l.codeParams
  {
    hide NormalCode;
    TraceRefines(ops);
    if LedgerAfter(ops).code.Some? {
      MintedCode(LedgerAfter(ops).code.value);
    }
  }

  /** The scrypt constants are the same at every request that derives with them. */
  predicate FixedParams(ops: seq<Op>, params: Params) {
    forall i :: 0 <= i < |ops| && (ops[i].Init? || ops[i].ChangePassphrase? || ops[i].Regenerate?) ==>
      ops[i].params == params
  }

  lemma {:induction false} LedgerParams(ops: seq<Op>, params: Params)
    requires FixedParams(ops, params)
    ensures var l := LedgerAfter(ops); l.Set? ==> l.passParams == params && l.codeParams == params
  {
    hide NormalCode;
    if ops != [] {
      var n := |ops| - 1;
      forall i | 0 <= i < n && (ops[i].Init? || ops[i].ChangePassphrase? || ops[i].Regenerate?)
        ensures ops[..n][i].params == params
      {
      }
      LedgerParams(ops[..n], params);
    }
  }

  /** With the constants fixed, exactly the latest recovery code opens the vault. */
  lemma LatestCodeOpens(ops: seq<Op>, params: Params, typed: string)
    requires FixedParams(ops, params) && After(ops).meta.Some?
    ensures LedgerAfter(ops).Set?
    ensures UnwrapRecovery(After(ops).meta.value, typed).Some? <==>
            LedgerAfter(ops).code.Some? && NormalCode(typed) == NormalCode(LedgerAfter(ops).code.value)
  {
    hide FixedParams, NormalCode, UnwrapRecovery;
    RecoveryExact(ops, typed);
    LedgerParams(ops, params);
    ParamsAreLedgers(ops);
  }

  /** Typed in capitals and digits, in whatever groups, a code opens exactly when it is the minted one. */
  lemma MintedCodeOpens(ops: seq<Op>, params: Params, minted: seq<string>, typed: seq<string>)
    requires FixedParams(ops, params) && After(ops).meta.Some? && LedgerAfter(ops).Set?
    requires LedgerAfter(ops).code.Some? && LedgerAfter(ops).code.value == Join(minted, "-")
    requires PlainGroups(minted) && PlainGroups(typed)
    ensures UnwrapRecovery(After(ops).meta.value, Join(typed, "-")).Some? <==> Join(typed, "") == Join(minted, "")
  {
    hide FixedParams, NormalCode, UnwrapRecovery, PlainGroups, Join;
    LatestCodeOpens(ops, params, Join(typed, "-"));
    GroupsAreJoined(minted);
    GroupsAreJoined(typed);
  }

  lemma ParamsAreLedgers(ops: seq<Op>)
    requires LedgerAfter(ops).Set?
    ensures After(ops).meta.Some? && After(ops).meta.value.params == LedgerAfter(ops).passParams
  {
    hide NormalCode;
    TraceRefines(ops);
  }

  /** Raising the constants and then changing the passphrase strands the recovery code. */
  lemma RaisedConstantsStrandTheCode(pass: string, code: Code, first: Params, later: Params)
    requires |pass| >= MIN_PASSPHRASE && first != later
    ensures var ops := [Init(pass, 0, 0, first, Some(code), 1), Unlock(pass),
        ChangePassphrase(Data(0), pass, 2, later)];
            After(ops).meta.Some? && UnwrapRecovery(After(ops).meta.value, code).None?
  {
    hide NormalCode, UnwrapRecovery, UnlockWith;
    var ops := [Init(pass, 0, 0, first, Some(code), 1), Unlock(pass), ChangePassphrase(Data(0), pass, 2, later)];
    assert ops[..2] == [ops[0], ops[1]] && ops[..2][..1] == [ops[0]] && ops[..1][..0] == [];
    var l := Set(Data(0), pass, first, Some(code), first, false);
    assert LedgerAfter([ops[0]]) == l;
    assert LedgerAfter([ops[0], ops[1]]) == l.(open := true) by {
      assert [ops[0], ops[1]][..1] == [ops[0]];
    }
    assert LedgerAfter(ops) == l.(open := true, passParams := later);
    ParamsAreLedgers(ops);
    RecoveryExact(ops, code);
  }

  // --------------------------------------------------------------- the program

  class Vault {
    var meta: Option<Meta>
    var held: set<Key>

    constructor ()
      ensures Now() == FRESH
    {
      meta, held := None, {};
    }

    ghost function Now(): State
      reads this
    {
      State(meta, held)
    }

    /** `init_vault`; a second call is refused, for it would orphan every sealed row. */
    method InitVault(pass: string, id: nat, salt: nat, params: Params, minted: Option<Code>, rsalt: nat)
      returns (out: Outcome)
      modifies this
      ensures (Now(), out) == Apply(old(Now()), Init(pass, id, salt, params, minted, rsalt))
    {
      hide NormalCode;
      if |pass| < MIN_PASSPHRASE || meta.Some? {
        return Refused;
      }
      var fields := Meta(salt, WrapFor(pass, salt, params, Data(id)), params, None);
      if minted.Some? {
        fields := fields.(recovery := Some((rsalt, WrapFor(NormalCode(minted.value), rsalt, params, Data(id)))));
      }
      meta := Some(fields);
      out := Done;
    }

    /** `unlock`: the passphrase wrap alone. */
    method UnlockVault(pass: string) returns (out: Outcome)
      modifies this
      ensures (Now(), out) == Apply(old(Now()), Unlock(pass))
    {
      if meta.None? {
        return Refused;
      }
      var passKey := Derive(pass, meta.value.salt, meta.value.params);
      if passKey.None? {
        return Refused;
      }
      out := Admit(Unseal(passKey.value, meta.value.passWrap));
    }

    /** `unwrap_recovery`: the recovery wrap, under the stored parameters. */
    method RecoverVault(typed: string) returns (out: Outcome)
      modifies this
      ensures (Now(), out) == Apply(old(Now()), Recover(typed))
    {
      hide NormalCode;
      if meta.None? || meta.value.recovery.None? {
        return Refused;
      }
      var (rsalt, wrap) := meta.value.recovery.value;
      var codeKey := Derive(NormalCode(typed), rsalt, meta.value.params);
      if codeKey.None? {
        return Refused;
      }
      out := Admit(Unseal(codeKey.value, wrap));
    }

    method Admit(k: Option<Key>) returns (out: Outcome)
      modifies this`held
      ensures (Now(), out) == Open(old(Now()), k)
    {
      if k.None? {
        return Refused;
      }
      held := held + {k.value};
      out := Opened(k.value);
    }

    /** `set_passphrase`: a new salt and wrap, and the constants of now for both wraps. */
    method SetPassphrase(k: Key, pass: string, salt: nat, params: Params) returns (out: Outcome)
      modifies this
      ensures (Now(), out) == Apply(old(Now()), ChangePassphrase(k, pass, salt, params))
    {
      if k !in held || |pass| < MIN_PASSPHRASE || meta.None? {
        return Refused;
      }
      meta := Some(meta.value.(salt := salt, passWrap := WrapFor(pass, salt, params, k), params := params));
      out := Done;
    }

    /** `regenerate_recovery_code`: a new salt and wrap; the stored parameters stay as they are. */
    method RegenerateCode(k: Key, code: Code, rsalt: nat, params: Params) returns (out: Outcome)
      modifies this
      ensures (Now(), out) == Apply(old(Now()), Regenerate(k, code, rsalt, params))
    {
      hide NormalCode;
      if k !in held || meta.None? {
        return Refused;
      }
      meta := Some(meta.value.(recovery := Some((rsalt, WrapFor(NormalCode(code), rsalt, params, k)))));
      out := Done;
    }
  }
}
