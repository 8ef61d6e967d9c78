// backend/vault.py: unlocked data keys in process memory, with an idle limit.

module VaultSession {
  import opened Text

  /** An unlocked key: when it was last used, and when it was put. */
  datatype Row = Row(key: nat, lastUsed: int, unlockedAt: int)

  type Keys = map<string, Row>

  /** A call with the clock readings it makes; `get` reads the clock once to judge and once to refresh. */
  datatype Event =
    | Put(token: string, key: nat, now: int)
    | Get(token: string, now: int, again: int)
    | Peek(token: string, now: int)
    | Drop(token: string)
    | Clear

  function PutKey(keys: Keys, token: string, key: nat, now: int): Keys {
    if token == "" then keys else keys[token := Row(key, now, now)]
  }

  predicate Fresh(keys: Keys, token: string, now: int, idle: int) {
    token in keys && now - keys[token].lastUsed <= idle
  }

  function Apply(keys: Keys, e: Event, idle: int): (Keys, Option<nat>) {
    match e
    case Put(token, key, now) => (PutKey(keys, token, key, now), None)
    case Get(token, now, again) =>
      if Fresh(keys, token, now, idle)
      then (keys[token := keys[token].(lastUsed := again)], Some(keys[token].key)) else (keys - {token}, None)
    case Peek(token, now) => (if Fresh(keys, token, now, idle) then keys else keys - {token}, None)
    case Drop(token) => (keys - {token}, None)
    case Clear => (map[], None)
  }

  class KeyStore {
    var keys: Keys
    const idle: int

    constructor (idleSeconds: int)
      ensures keys == map[] && idle == idleSeconds
    {
      keys, idle := map[], idleSeconds;
    }

    /** False for no session at all. */
    method PutKeyFor(token: string, key: nat, now: int) returns (ok: bool)
      modifies this
      ensures ok <==> token != ""
      ensures keys == Apply(old(keys), Put(token, key, now), idle).0
    {
      ok := token != "";
      if ok {
        keys := keys[token := Row(key, now, now)];
      }
    }

    method GetKey(token: string, now: int, again: int) returns (key: Option<nat>)
      modifies this
      ensures (keys, key) == Apply(old(keys), Get(token, now, again), idle)
    {
      if token !in keys {
        assert keys - {token} == keys;
        return None;
      }
      if now - keys[token].lastUsed > idle {
        keys := keys - {token};
        return None;
      }
      keys := keys[token := keys[token].(lastUsed := again)];
      key := Some(keys[token].key);
    }

    method PeekKey(token: string, now: int) returns (unlocked: bool)
      modifies this
      ensures unlocked <==> Fresh(old(keys), token, now, idle)
      ensures keys == Apply(old(keys), Peek(token, now), idle).0
    {
      if token !in keys {
        assert keys - {token} == keys;
        return false;
      }
      if now - keys[token].lastUsed > idle {
        keys := keys - {token};
        return false;
      }
      unlocked := true;
    }

    method DropKey(token: string)
      modifies this
      ensures keys == Apply(old(keys), Drop(token), idle).0
    {
      keys := keys - {token};
    }

    method ClearKeys()
      modifies this
      ensures keys == Apply(old(keys), Clear, idle).0
    {
      keys := map[];
    }
  }

  // -------------------------------------------------------------------- traces

  function After(events: seq<Event>, idle: int): Keys {
    if events == [] then map[] else Apply(After(events[..|events| - 1], idle), events[|events| - 1], idle).0
  }

  /** What the last event of a trace returns. */
  function Returns(events: seq<Event>, idle: int): Option<nat>
    requires events != []
  {
    Apply(After(events[..|events| - 1], idle), events[|events| - 1], idle).1
  }

  /** The readings one call makes, first and last. */
  function FirstReading(e: Event, clock: int): int {
    match e
    case Put(_, _, now) => now
    case Get(_, now, _) => now
    case Peek(_, now) => now
    case Drop(_) => clock
    case Clear => clock
  }

  function LastReading(e: Event, clock: int): int {
    match e
    case Put(_, _, now) => now
    case Get(_, _, again) => again
    case Peek(_, now) => now
    case Drop(_) => clock
    case Clear => clock
  }

  /** The clock after a trace that began at `clock`. */
  function Clock(events: seq<Event>, clock: int): int {
    if events == [] then clock
    else LastReading(events[|events| - 1], Clock(events[..|events| - 1], clock))
  }

  /** Time does not run backwards. */
  predicate Monotone(events: seq<Event>, clock: int) {
    events == [] ||
    var before, e := events[..|events| - 1], events[|events| - 1];
    && Monotone(before, clock)
    && Clock(before, clock) <= FirstReading(e, Clock(before, clock)) <= LastReading(e, Clock(before, clock))
  }

  function WithoutPeeks(events: seq<Event>): seq<Event> {
    if events == [] then []
    else
      var before, e := WithoutPeeks(events[..|events| - 1]), events[|events| - 1];
      if e.Peek? then before else before + [e]
  }

  /** With the peeks, a key is missing only if it had been idle too long by `clock` anyway. */
  predicate Polled(a: Keys, b: Keys, clock: int, idle: int) {
    && (forall t :: t in a ==> t in b && a[t] == b[t])
    && (forall t :: t in b && t !in a ==> clock - b[t].lastUsed > idle)
  }

  lemma StepPolled(a: Keys, b: Keys, e: Event, clock: int, idle: int)
    requires Polled(a, b, clock, idle) && clock <= FirstReading(e, clock) <= LastReading(e, clock)
    ensures Polled(Apply(a, e, idle).0, if e.Peek? then b else Apply(b, e, idle).0, LastReading(e, clock), idle)
    ensures !e.Peek? ==> Apply(a, e, idle).1 == Apply(b, e, idle).1
  {
  }

  lemma {:induction false} PollingLeavesKeys(events: seq<Event>, clock: int, idle: int)
    requires Monotone(events, clock)
    ensures Polled(After(events, idle), After(WithoutPeeks(events), idle), Clock(events, clock), idle)
  {
    hide Polled, Apply, FirstReading, LastReading;
    if events == [] {
      NothingPolled(clock, idle);
    } else {
      var before, e := events[..|events| - 1], events[|events| - 1];
      PollingLeavesKeys(before, clock, idle);
      StepPolled(After(before, idle), After(WithoutPeeks(before), idle), e, Clock(before, clock), idle);
      if !e.Peek? {
        assert WithoutPeeks(events)[..|WithoutPeeks(events)| - 1] == WithoutPeeks(before);
      }
    }
  }

  lemma NothingPolled(clock: int, idle: int)
    ensures Polled(map[], map[], clock, idle)
  {
  }

  /** Polling is invisible: taking every peek out of a trace leaves what `get` returns as it was. */
  lemma PeeksAreInvisible(events: seq<Event>, clock: int, idle: int)
    requires events != [] && Monotone(events, clock) && events[|events| - 1].Get?
    ensures WithoutPeeks(events) != []
    ensures Returns(events, idle) == Returns(WithoutPeeks(events), idle)
  {
    hide Polled, Apply, FirstReading, LastReading;
    var before, e := events[..|events| - 1], events[|events| - 1];
    PollingLeavesKeys(before, clock, idle);
    StepPolled(After(before, idle), After(WithoutPeeks(before), idle), e, Clock(before, clock), idle);
    assert WithoutPeeks(events)[..|WithoutPeeks(events)| - 1] == WithoutPeeks(before);
  }

  // -------------------------------------------------------------- how it was used

  /** The key last put for a session and not dropped since, and when it was asked for since. */
  datatype Uses = Never | Since(key: nat, times: seq<(int, int)>)

  function Used(before: Uses, e: Event, token: string): Uses {
    match e
    case Put(t, key, now) => if t == token && token != "" then Since(key, [(now, now)]) else before
    case Get(t, now, again) =>
      if t == token && before.Since? then before.(times := before.times + [(now, again)]) else before
    case Peek(_, _) => before
    case Drop(t) => if t == token then Never else before
    case Clear => Never
  }

  function UsesOf(events: seq<Event>, token: string): Uses {
    if events == [] then Never else Used(UsesOf(events[..|events| - 1], token), events[|events| - 1], token)
  }

  lemma PeekIsNoUse(before: Uses, e: Event, token: string)
    requires e.Peek?
    ensures Used(before, e, token) == before
  {
  }

  /** No pause between successive uses was longer than the limit. */
  predicate NeverIdle(times: seq<(int, int)>, idle: int) {
    forall i :: 0 < i < |times| ==> times[i].0 - times[i - 1].1 <= idle
  }

  predicate HoldsAsUsed(keys: Keys, u: Uses, token: string, idle: int) {
    && (u.Since? ==> u.times != [])
    && (token in keys <==> u.Since? && NeverIdle(u.times, idle))
    && (token in keys ==> keys[token].key == u.key && keys[token].lastUsed == u.times[|u.times| - 1].1)
  }

  lemma NeverIdleNext(times: seq<(int, int)>, now: int, again: int, idle: int)
    requires times != []
    ensures NeverIdle(times + [(now, again)], idle) <==> NeverIdle(times, idle) && now - times[|times| - 1].1 <= idle
  {
    var more := times + [(now, again)];
    assert more[|times|] == (now, again) && more[|times| - 1] == times[|times| - 1];
    assert forall i :: 0 <= i < |times| ==> more[i] == times[i];
    if NeverIdle(more, idle) {
      forall i | 0 < i < |times| ensures times[i].0 - times[i - 1].1 <= idle {
        assert more[i].0 - more[i - 1].1 <= idle;
      }
      assert more[|times|].0 - more[|times| - 1].1 <= idle;
    }
  }

  lemma StepAsUsed(events: seq<Event>, token: string, idle: int)
    requires events != [] && !events[|events| - 1].Peek?
    requires HoldsAsUsed(After(events[..|events| - 1], idle), UsesOf(events[..|events| - 1], token), token, idle)
    ensures HoldsAsUsed(After(events, idle), UsesOf(events, token), token, idle)
  {
    var before, e := UsesOf(events[..|events| - 1], token), events[|events| - 1];
    if e.Get? && before.Since? {
      NeverIdleNext(before.times, e.now, e.again, idle);
    }
    hide NeverIdle;
    assert e.Put? ==> NeverIdle([(e.now, e.now)], idle) by { OneUse(if e.Put? then e.now else 0, idle); }
  }

  lemma OneUse(now: int, idle: int)
    ensures NeverIdle([(now, now)], idle)
  {
  }

  lemma {:induction false} TraceAsUsed(events: seq<Event>, token: string, idle: int)
    requires forall i :: 0 <= i < |events| ==> !events[i].Peek?
    ensures HoldsAsUsed(After(events, idle), UsesOf(events, token), token, idle)
  {
    hide HoldsAsUsed, Apply;
    if events == [] {
      NotHeld(token, idle);
    } else {
      TraceAsUsed(events[..|events| - 1], token, idle);
      StepAsUsed(events, token, idle);
    }
  }

  lemma NotHeld(token: string, idle: int)
    ensures HoldsAsUsed(map[], Never, token, idle)
  {
  }

  lemma {:induction false} UsesWithoutPeeks(events: seq<Event>, token: string)
    ensures UsesOf(WithoutPeeks(events), token) == UsesOf(events, token)
    ensures forall i :: 0 <= i < |WithoutPeeks(events)| ==> !WithoutPeeks(events)[i].Peek?
  {
    hide Used;
    if events != [] {
      var before, e := events[..|events| - 1], events[|events| - 1];
      UsesWithoutPeeks(before, token);
      if e.Peek? {
        PeekIsNoUse(UsesOf(before, token), e, token);
      } else {
        assert WithoutPeeks(events)[..|WithoutPeeks(events)| - 1] == WithoutPeeks(before);
      }
    }
  }

  /** `get` returns the key exactly when it was put, not dropped since, and never left idle longer than the limit. */
  lemma GetExact(events: seq<Event>, clock: int, idle: int, token: string)
    requires events != [] && Monotone(events, clock)
    requires events[|events| - 1].Get? && events[|events| - 1].token == token
    ensures var u := UsesOf(events, token);
            Returns(events, idle) == if u.Since? && NeverIdle(u.times, idle) then Some(u.key) else None
  {
    hide NeverIdle, Monotone;
    PeeksAreInvisible(events, clock, idle);
    UsesWithoutPeeks(events, token);
    var calls := WithoutPeeks(events);
    TraceAsUsed(calls, token, idle);
    GetHolds(calls, idle, token);
    LastIsGet(events);
  }

  lemma LastIsGet(events: seq<Event>)
    requires events != [] && !events[|events| - 1].Peek?
    ensures var calls := WithoutPeeks(events); calls != [] && calls[|calls| - 1] == events[|events| - 1]
  {
  }

  /** A `get` leaves the key in place exactly when it returns it. */
  lemma GetHolds(calls: seq<Event>, idle: int, token: string)
    requires calls != [] && calls[|calls| - 1].Get? && calls[|calls| - 1].token == token
    ensures var after := After(calls, idle);
            Returns(calls, idle) == if token in after then Some(after[token].key) else None
  {
  }
}
