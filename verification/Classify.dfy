// backend/notes_import.py: the pre-pass of the dump importer. Every unit gets
// one decision; duplicates are resolved by an explicit keeper rank.

module Classify {
  import opened Text
  import opened NoteLibrary

  datatype Decision = Quarantine | Empty | Duplicate | AutoArchive | Librarian

  /**
   * One importable thing as it was read. `hits` names the secret patterns found
   * in the body; `attached` is the sorted list of attachment names; `topics` are
   * the tags its folders stand for; `mirrors` is its `source:` field.
   */
  datatype Rec = Rec(
    source: string, ident: string, title: string, body: string, sourceId: string,
    kind: string, mirrors: string, domain: string, status: string,
    attached: seq<string>, hits: seq<string>, topics: seq<string>)
  {
    function Sha(): Digest {
      Digest(sourceId, Normalize(title), Normalize(body), attached)
    }

    predicate Held() {
      hits != []
    }

    predicate IsEmpty() {
      Normalize(body) == "" && attached == []
    }

    /** Not dropped for what it holds: a candidate for keeping. */
    predicate Candidate() {
      !Held() && !IsEmpty()
    }
  }

  // ------------------------------------------------------------------- ranks

  predicate StringLess(a: string, b: string) {
    if a == "" || b == "" then a == "" && b != ""
    else a[0] < b[0] || (a[0] == b[0] && StringLess(a[1..], b[1..]))
  }

  lemma {:induction false} StringLessTotal(a: string, b: string)
    ensures StringLess(a, b) || a == b || StringLess(b, a)
    ensures StringLess(a, b) ==> a != b && !StringLess(b, a)
  {
    if a != "" && b != "" {
      StringLessTotal(a[1..], b[1..]);
      assert a == [a[0]] + a[1..] && b == [b[0]] + b[1..];
    }
  }

  lemma {:induction false} StringLessTransitive(a: string, b: string, c: string)
    requires StringLess(a, b) && StringLess(b, c)
    ensures StringLess(a, c)
  {
    if a != "" && b != "" && c != "" && a[0] == b[0] && b[0] == c[0] {
      StringLessTransitive(a[1..], b[1..], c[1..]);
    }
  }

  function CountSlashes(s: string): nat {
    if s == "" then 0 else (if s[0] == '/' then 1 else 0) + CountSlashes(s[1..])
  }

  function DigitsLength(s: string): (n: nat)
    ensures n <= |s|
  {
    if s != "" && IsDigit(s[0]) then 1 + DigitsLength(s[1..]) else 0
  }

  /** `obsidian/Archive/` or `obsidian/Archive <n>/` at the start of the ident. */
  predicate IsArchivePath(r: Rec) {
    r.source == "obsidian" && StartsWith(r.ident, "obsidian/Archive") && OpensArchive(r.ident[16..])
  }

  /** A slash, or a number and a slash. */
  predicate OpensArchive(rest: string) {
    || StartsWith(rest, "/")
    || (StartsWith(rest, " ") &&
        var n := DigitsLength(rest[1..]);
        n > 0 && StartsWith(rest[1 + n..], "/"))
  }

  /** The keeper rank: live before archived, shallow before deep, then by name. */
  predicate RankLess(a: Rec, b: Rec) {
    var x, y := if IsArchivePath(a) then 1 else 0, if IsArchivePath(b) then 1 else 0;
    var m, n := CountSlashes(a.ident), CountSlashes(b.ident);
    x < y || (x == y && (m < n || (m == n && StringLess(a.ident, b.ident))))
  }

  lemma RankTransitive(a: Rec, b: Rec, c: Rec)
    requires RankLess(a, b) && RankLess(b, c)
    ensures RankLess(a, c)
  {
    if StringLess(a.ident, b.ident) && StringLess(b.ident, c.ident) {
      StringLessTransitive(a.ident, b.ident, c.ident);
    }
  }

  /** Of two units with one digest, `j` is kept rather than `i`; a tie goes to the earlier. */
  predicate Beats(rs: seq<Rec>, j: int, i: int)
    requires 0 <= j < |rs| && 0 <= i < |rs|
  {
    RankLess(rs[j], rs[i]) || (!RankLess(rs[i], rs[j]) && j < i)
  }

  lemma BeatsTotal(rs: seq<Rec>, i: int, j: int)
    requires 0 <= i < |rs| && 0 <= j < |rs| && i != j
    ensures Beats(rs, i, j) <==> !Beats(rs, j, i)
  {
    RankAsymmetric(rs[i], rs[j]);
  }

  lemma RankAsymmetric(a: Rec, b: Rec)
    ensures RankLess(a, b) ==> !RankLess(b, a)
  {
    StringLessTotal(a.ident, b.ident);
  }

  /** Two units neither of which outranks the other share rank and name. */
  lemma RankTie(a: Rec, b: Rec)
    requires !RankLess(a, b) && !RankLess(b, a)
    ensures a.ident == b.ident && IsArchivePath(a) == IsArchivePath(b)
  {
    StringLessTotal(a.ident, b.ident);
  }

  lemma BeatsTransitive(rs: seq<Rec>, i: int, j: int, k: int)
    requires 0 <= i < |rs| && 0 <= j < |rs| && 0 <= k < |rs|
    requires Beats(rs, i, j) && Beats(rs, j, k)
    ensures Beats(rs, i, k)
  {
    var a, b, c := rs[i], rs[j], rs[k];
    RankAsymmetric(a, b);
    RankAsymmetric(b, c);
    RankAsymmetric(a, c);
    if RankLess(a, b) && RankLess(b, c) {
      RankTransitive(a, b, c);
    } else if RankLess(a, b) {
      RankTie(b, c);
    } else if RankLess(b, c) {
      RankTie(a, b);
    } else {
      RankTie(a, b);
      RankTie(b, c);
      StringLessTotal(a.ident, c.ident);
    }
  }

  // --------------------------------------------------------------- decisions

  /** `i` is the kept one among the candidates that share its digest. */
  predicate Survivor(rs: seq<Rec>, i: int)
    requires 0 <= i < |rs|
  {
    rs[i].Candidate() &&
    forall j :: 0 <= j < |rs| && j != i && rs[j].Candidate() && rs[j].Sha() == rs[i].Sha() ==> Beats(rs, i, j)
  }

  predicate HasSlash(s: string) {
    exists i :: 0 <= i < |s| && s[i] == '/'
  }

  /** The part after the last `/`. */
  function Basename(s: string): string {
    if HasSlash(s) then Basename(s[1..]) else s
  }

  /** A live obsidian file that is kept. */
  predicate Live(rs: seq<Rec>, i: int)
    requires 0 <= i < |rs|
  {
    rs[i].source == "obsidian" && !IsArchivePath(rs[i]) && Survivor(rs, i)
  }

  /** An archived file with the name of a live one: a superseded draft. */
  predicate Superseded(rs: seq<Rec>, i: int)
    requires 0 <= i < |rs|
  {
    IsArchivePath(rs[i]) &&
    exists j :: 0 <= j < |rs| && Live(rs, j) && Basename(rs[j].ident) == Basename(rs[i].ident)
  }

  const KEEP_AUTO_ARCHIVE_CHARS := 40

  function DropNonSpace(s: string): string {
    if s != "" && !IsSpace(s[0]) then DropNonSpace(s[1..]) else s
  }

  /** A line that is one bare link. */
  predicate IsUrlLine(l: string) {
    var rest :=
      if StartsWith(l, "http://") then l[7..]
      else if StartsWith(l, "https://") then l[8..]
      else if StartsWith(l, "www.") then l[4..] else "";
    rest != "" && DropNonSpace(rest) == ""
  }

  predicate AllUrlLines(lines: seq<string>) {
    forall i :: 0 <= i < |lines| ==> Strip(lines[i], Spaces) == "" || IsUrlLine(Strip(lines[i], Spaces))
  }

  /** A Keep fragment too short or too bare to need a reader. */
  predicate KeepAutoArchives(r: Rec) {
    r.source == "keep" &&
    (|Normalize(r.body)| <= KEEP_AUTO_ARCHIVE_CHARS ||
     (Strip(r.body, Spaces) != "" && AllUrlLines(SplitLines(Strip(r.body, Spaces)))))
  }

  function DecisionOf(rs: seq<Rec>, i: int): Decision
    requires 0 <= i < |rs|
  {
    if rs[i].Held() then Quarantine
    else if rs[i].IsEmpty() then Empty
    else if !Survivor(rs, i) then Duplicate
    else if Superseded(rs, i) || KeepAutoArchives(rs[i]) then AutoArchive
    else Librarian
  }

  predicate IsKept(d: Decision) {
    d == AutoArchive || d == Librarian
  }

  lemma KeptIffSurvivor(rs: seq<Rec>, i: int)
    requires 0 <= i < |rs|
    ensures IsKept(DecisionOf(rs, i)) <==> Survivor(rs, i)
  {
  }

  /** No two kept units share a digest. */
  lemma KeptDistinct(rs: seq<Rec>, i: int, j: int)
    requires 0 <= i < |rs| && 0 <= j < |rs| && i != j
    requires IsKept(DecisionOf(rs, i)) && IsKept(DecisionOf(rs, j))
    ensures rs[i].Sha() != rs[j].Sha()
  {
    BeatsTotal(rs, i, j);
  }

  /** The best candidate among the first `n` units with digest `d`, or -1. */
  function BestBelow(rs: seq<Rec>, d: Digest, n: nat): (r: int)
    requires n <= |rs|
    ensures -1 <= r < n
    ensures r >= 0 ==> rs[r].Candidate() && rs[r].Sha() == d
    ensures r == -1 ==> forall j :: 0 <= j < n ==> !(rs[j].Candidate() && rs[j].Sha() == d)
  {
    if n == 0 then -1
    else
      var b := BestBelow(rs, d, n - 1);
      if !(rs[n - 1].Candidate() && rs[n - 1].Sha() == d) then b
      else if b == -1 || Beats(rs, n - 1, b) then n - 1 else b
  }

  lemma {:induction false} BestBeats(rs: seq<Rec>, d: Digest, n: nat)
    requires n <= |rs|
    ensures var b := BestBelow(rs, d, n);
            forall j :: 0 <= j < n && j != b && rs[j].Candidate() && rs[j].Sha() == d ==> b >= 0 && Beats(rs, b, j)
  {
    if n > 0 {
      BestBeats(rs, d, n - 1);
      var b, c := BestBelow(rs, d, n - 1), BestBelow(rs, d, n);
      forall j | 0 <= j < n && j != c && rs[j].Candidate() && rs[j].Sha() == d ensures c >= 0 && Beats(rs, c, j) {
        if c == n - 1 && b >= 0 && j != b {
          BeatsTransitive(rs, c, b, j);
        } else if c == b && j == n - 1 {
          BeatsTotal(rs, b, j);
        }
      }
    }
  }

  /** Every candidate has exactly one keeper, itself or a unit of equal digest. */
  lemma KeeperExists(rs: seq<Rec>, i: int) returns (k: int)
    requires 0 <= i < |rs| && rs[i].Candidate()
    ensures 0 <= k < |rs| && Survivor(rs, k) && rs[k].Sha() == rs[i].Sha()
    ensures k == i <==> Survivor(rs, i)
  {
    k := BestBelow(rs, rs[i].Sha(), |rs|);
    BestBeats(rs, rs[i].Sha(), |rs|);
    if Survivor(rs, i) && k != i {
      BeatsTotal(rs, i, k);
    }
  }

  // ---------------------------------------------------------- order freedom

  predicate DistinctIdents(rs: seq<Rec>) {
    forall i, j :: 0 <= i < j < |rs| ==> rs[i].ident != rs[j].ident
  }

  function RecSet(rs: seq<Rec>): set<Rec> {
    set r | r in rs
  }

  /** The kept record of its digest, told from the set of records alone. */
  predicate SurvivorIn(all: set<Rec>, r: Rec) {
    r.Candidate() && forall q :: q in all && q != r && q.Candidate() && q.Sha() == r.Sha() ==> RankLess(r, q)
  }

  lemma SurvivorBySet(rs: seq<Rec>, i: int)
    requires DistinctIdents(rs) && 0 <= i < |rs|
    ensures Survivor(rs, i) <==> SurvivorIn(RecSet(rs), rs[i])
  {
    hide Rec.Candidate, Rec.Sha;
    forall j | 0 <= j < |rs| && j != i ensures rs[j] != rs[i] && (Beats(rs, i, j) <==> RankLess(rs[i], rs[j])) {
      assert rs[i].ident != rs[j].ident;
      BeatsByRank(rs, i, j);
    }
    hide Beats, RankLess;
    if Survivor(rs, i) {
      forall q | q in RecSet(rs) && q != rs[i] && q.Candidate() && q.Sha() == rs[i].Sha() ensures RankLess(rs[i], q) {
        var j :| 0 <= j < |rs| && rs[j] == q;
      }
    }
    if SurvivorIn(RecSet(rs), rs[i]) {
      forall j | 0 <= j < |rs| && j != i && rs[j].Candidate() && rs[j].Sha() == rs[i].Sha() ensures Beats(rs, i, j) {
        assert rs[j] in RecSet(rs);
      }
    }
  }

  lemma BeatsByRank(rs: seq<Rec>, i: int, j: int)
    requires 0 <= i < |rs| && 0 <= j < |rs| && rs[i].ident != rs[j].ident
    ensures Beats(rs, i, j) <==> RankLess(rs[i], rs[j])
  {
    StringLessTotal(rs[i].ident, rs[j].ident);
  }

  lemma SupersededTransfers(rs: seq<Rec>, ss: seq<Rec>, i: int, k: int)
    requires DistinctIdents(rs) && DistinctIdents(ss) && RecSet(rs) == RecSet(ss)
    requires 0 <= i < |rs| && 0 <= k < |ss| && rs[i] == ss[k]
    ensures Superseded(rs, i) ==> Superseded(ss, k)
  {
    if Superseded(rs, i) {
      var j :| 0 <= j < |rs| && Live(rs, j) && Basename(rs[j].ident) == Basename(rs[i].ident);
      assert rs[j] in RecSet(ss);
      var m :| 0 <= m < |ss| && ss[m] == rs[j];
      SurvivorBySet(rs, j);
      SurvivorBySet(ss, m);
      assert Live(ss, m);
    }
  }

  /** With distinct idents a unit's decision does not depend on the order it was read in. */
  lemma DecisionOrderFree(rs: seq<Rec>, ss: seq<Rec>, i: int, k: int)
    requires DistinctIdents(rs) && DistinctIdents(ss) && RecSet(rs) == RecSet(ss)
    requires 0 <= i < |rs| && 0 <= k < |ss| && rs[i] == ss[k]
    ensures DecisionOf(rs, i) == DecisionOf(ss, k)
  {
    SurvivorBySet(rs, i);
    SurvivorBySet(ss, k);
    SupersededTransfers(rs, ss, i, k);
    SupersededTransfers(ss, rs, k, i);
  }

  // ------------------------------------------------------------ the pre-pass

  /** A unit as the importer holds it: what was read, and the decision written onto it. */
  class Unit {
    const rec: Rec
    var decision: Option<Decision>
    var ref: string

    constructor (r: Rec)
      ensures rec == r && decision == None && ref == ""
    {
      rec := r;
      decision := None;
      ref := "";
    }
  }

  function Recs(units: seq<Unit>): (r: seq<Rec>)
    ensures |r| == |units| && forall i :: 0 <= i < |units| ==> r[i] == units[i].rec
  {
    seq(|units|, i requires 0 <= i < |units| => units[i].rec)
  }

  predicate NoAlias(units: seq<Unit>) {
    forall i, j :: 0 <= i < j < |units| ==> units[i] != units[j]
  }

  /** `ref` names the kept unit with the digest of unit `i`. */
  predicate NamesKeeper(rs: seq<Rec>, i: int, ref: string)
    requires 0 <= i < |rs|
  {
    exists k :: 0 <= k < |rs| && Survivor(rs, k) && rs[k].Sha() == rs[i].Sha() && ref == rs[k].ident
  }

  /** The decision of unit `i` has been written, with its keeper when it is a duplicate. */
  predicate Decided(rs: seq<Rec>, u: Unit, i: int)
    requires 0 <= i < |rs|
    reads u
  {
    && u.decision == Some(DecisionOf(rs, i))
    && (DecisionOf(rs, i) == Duplicate ==> NamesKeeper(rs, i, u.ref))
  }

  predicate InRange(rs: seq<Rec>, ix: seq<nat>) {
    forall k :: 0 <= k < |ix| ==> ix[k] < |rs|
  }

  /** Stable sorting by rank, as far as the loop uses it: the keeper comes first. */
  function KeeperOf(rs: seq<Rec>, group: seq<nat>): (k: nat)
    requires group != [] && InRange(rs, group)
    ensures k in group
  {
    if |group| == 1 then group[0]
    else
      var n := |group| - 1;
      var k := KeeperOf(rs, group[..n]);
      if Beats(rs, group[n], k) then group[n] else k
  }

  lemma {:induction false} KeeperBeats(rs: seq<Rec>, group: seq<nat>)
    requires group != [] && InRange(rs, group)
    ensures var k := KeeperOf(rs, group);
            forall g :: g in group && g != k ==> Beats(rs, k, g)
  {
    if |group| > 1 {
      var n := |group| - 1;
      KeeperBeats(rs, group[..n]);
      var b, k := KeeperOf(rs, group[..n]), KeeperOf(rs, group);
      forall g | g in group && g != k ensures Beats(rs, k, g) {
        if g in group[..n] {
          if k != b && g != b {
            BeatsTransitive(rs, k, b, g);
          }
        } else {
          BeatsTotal(rs, k, g);
        }
      }
    }
  }

  lemma DroppedAs(rs: seq<Rec>, i: int)
    requires 0 <= i < |rs|
    ensures rs[i].Held() ==> DecisionOf(rs, i) == Quarantine
    ensures !rs[i].Held() && rs[i].IsEmpty() ==> DecisionOf(rs, i) == Empty
    ensures rs[i].Candidate() <==> !rs[i].Held() && !rs[i].IsEmpty()
  {
    hide Rec.Held, Rec.IsEmpty, Survivor, Superseded, KeepAutoArchives;
  }

  lemma FiledAs(rs: seq<Rec>, i: int)
    requires 0 <= i < |rs| && Survivor(rs, i)
    ensures DecisionOf(rs, i) == if Superseded(rs, i) || KeepAutoArchives(rs[i]) then AutoArchive else Librarian
  {
    KeptIffSurvivor(rs, i);
    hide Rec.Held, Rec.IsEmpty, Survivor, Superseded, KeepAutoArchives;
  }

  /** Steps 1 and 2: hold what carries a secret, drop what holds nothing. */
  method DropHeldAndEmpty(units: seq<Unit>) returns (rest: seq<nat>)
    requires NoAlias(units)
    modifies units
    ensures InRange(Recs(units), rest)
    ensures forall i :: 0 <= i < |units| ==> (i in rest <==> units[i].rec.Candidate())
    ensures forall i :: 0 <= i < |units| && !units[i].rec.Candidate() ==> Decided(Recs(units), units[i], i)
  {
    hide Rec.Held, Rec.IsEmpty, Rec.Candidate, DecisionOf, NamesKeeper;
    var rs := Recs(units);
    forall i | 0 <= i < |rs|
      ensures rs[i].Held() ==> DecisionOf(rs, i) == Quarantine
      ensures !rs[i].Held() && rs[i].IsEmpty() ==> DecisionOf(rs, i) == Empty
      ensures rs[i].Candidate() <==> !rs[i].Held() && !rs[i].IsEmpty()
    {
      DroppedAs(rs, i);
    }
    var remaining: seq<nat> := [];
    for i := 0 to |units|
      invariant InRange(rs, remaining)
      invariant forall k :: 0 <= k < i ==> (k in remaining <==> !rs[k].Held())
      invariant forall k :: k in remaining ==> k < i
      invariant forall k :: 0 <= k < i && rs[k].Held() ==> Decided(rs, units[k], k)
    {
      if units[i].rec.Held() {
        units[i].decision := Some(Quarantine);
      } else {
        remaining := remaining + [i];
      }
    }
    rest := [];
    for n := 0 to |remaining|
      invariant InRange(rs, rest)
      invariant forall k :: k in rest <==> k in remaining[..n] && rs[k].Candidate()
      invariant forall k :: 0 <= k < |units| && rs[k].Held() ==> Decided(rs, units[k], k)
      invariant forall k :: k in remaining[..n] && rs[k].IsEmpty() ==> Decided(rs, units[k], k)
    {
      var i := remaining[n];
      assert !rs[i].Held();
      assert remaining[..n + 1] == remaining[..n] + [i];
      if rs[i].IsEmpty() {
        units[i].decision := Some(Empty);
      } else {
        rest := rest + [i];
      }
    }
    assert remaining[..|remaining|] == remaining;
  }

  /** The groups of equal digest, each in reading order. */
  method GroupByDigest(rs: seq<Rec>, rest: seq<nat>) returns (groups: map<Digest, seq<nat>>)
    requires InRange(rs, rest)
    ensures forall d :: d in groups ==> groups[d] != [] && InRange(rs, groups[d])
    ensures forall d, i :: d in groups ==> (i in groups[d] <==> i in rest && rs[i].Sha() == d)
    ensures forall i :: i in rest ==> rs[i].Sha() in groups
  {
    groups := map[];
    for n := 0 to |rest|
      invariant forall d :: d in groups ==> groups[d] != [] && InRange(rs, groups[d])
      invariant forall d, i :: d in groups ==> (i in groups[d] <==> i in rest[..n] && rs[i].Sha() == d)
      invariant forall i :: i in rest[..n] ==> rs[i].Sha() in groups
    {
      var i, d := rest[n], rs[rest[n]].Sha();
      assert rest[..n + 1] == rest[..n] + [i];
      groups := groups[d := (if d in groups then groups[d] else []) + [i]];
    }
    assert rest[..|rest|] == rest;
  }

  predicate IsGroupOf(rs: seq<Rec>, group: seq<nat>, d: Digest) {
    && group != [] && InRange(rs, group)
    && forall k: nat :: k < |rs| ==> (k in group <==> rs[k].Candidate() && rs[k].Sha() == d)
  }

  /** The keeper of a group of candidates is the survivor; the others name it. */
  lemma GroupDecided(rs: seq<Rec>, group: seq<nat>, d: Digest, i: nat)
    requires IsGroupOf(rs, group, d) && i in group
    ensures group != [] && InRange(rs, group)
    ensures var k := KeeperOf(rs, group);
            && Survivor(rs, k)
            && (i == k <==> Survivor(rs, i))
            && (i != k ==> DecisionOf(rs, i) == Duplicate && NamesKeeper(rs, i, rs[k].ident))
  {
    var k := KeeperOf(rs, group);
    KeeperBeats(rs, group);
    hide Rec.Candidate, Rec.Sha, Beats;
    assert rs[k].Candidate() && rs[k].Sha() == d && rs[i].Candidate() && rs[i].Sha() == d;
    if i != k {
      BeatsTotal(rs, i, k);
    }
  }

  lemma GroupRange(rs: seq<Rec>, group: seq<nat>, d: Digest)
    requires IsGroupOf(rs, group, d)
    ensures group != [] && InRange(rs, group)
  {
    hide Rec.Candidate, Rec.Sha;
  }

  /** Step 3 for one group: everyone but the keeper becomes its duplicate. */
  method MarkGroup(units: seq<Unit>, group: seq<nat>, d: Digest) returns (keeper: nat)
    requires NoAlias(units) && IsGroupOf(Recs(units), group, d)
    modifies units
    ensures keeper in group && Survivor(Recs(units), keeper)
    ensures forall i :: i in group && i != keeper ==>
              !Survivor(Recs(units), i) && Decided(Recs(units), units[i], i)
    ensures forall i :: 0 <= i < |units| && i !in group ==> unchanged(units[i])
  {
    hide Survivor, NamesKeeper, DecisionOf, IsGroupOf, KeeperOf;
    var rs := Recs(units);
    GroupRange(rs, group, d);
    keeper := KeeperOf(rs, group);
    GroupDecided(rs, group, d, keeper);
    for n := 0 to |group|
      invariant forall i :: i in group[..n] && i != keeper ==> !Survivor(rs, i) && Decided(rs, units[i], i)
      invariant forall i :: 0 <= i < |units| && i !in group[..n] ==> unchanged(units[i])
    {
      var i := group[n];
      assert group[..n + 1] == group[..n] + [i];
      if i != keeper {
        GroupDecided(rs, group, d, i);
        units[i].decision, units[i].ref := Some(Duplicate), rs[keeper].ident;
      }
    }
    assert group[..|group|] == group;
  }

  /** Step 3: every group in turn; the survivors are the keepers. */
  method MarkDuplicates(units: seq<Unit>, groups: map<Digest, seq<nat>>) returns (survivors: set<nat>)
    requires NoAlias(units)
    requires forall d :: d in groups ==> IsGroupOf(Recs(units), groups[d], d)
    requires forall i :: 0 <= i < |units| && units[i].rec.Candidate() ==> units[i].rec.Sha() in groups
    modifies units
    ensures forall i: nat :: i < |units| ==> (i in survivors <==> Survivor(Recs(units), i))
    ensures forall i :: i in survivors ==> i < |units|
    ensures forall i :: 0 <= i < |units| && units[i].rec.Candidate() && i !in survivors ==>
              Decided(Recs(units), units[i], i)
    ensures forall i :: 0 <= i < |units| && !units[i].rec.Candidate() ==> unchanged(units[i])
  {
    var rs := Recs(units);
    survivors := {};
    var todo := groups.Keys;
    while todo != {}
      invariant todo <= groups.Keys
      invariant forall i :: i in survivors ==> i < |units| && Survivor(rs, i) && rs[i].Sha() !in todo
      invariant forall i :: 0 <= i < |units| && rs[i].Candidate() && rs[i].Sha() !in todo && i !in survivors ==>
                  !Survivor(rs, i) && Decided(rs, units[i], i)
      invariant forall i :: 0 <= i < |units| && !rs[i].Candidate() ==> unchanged(units[i])
      decreases |todo|
    {
      var d :| d in todo;
      var group := groups[d];
      label Before:
      var keeper := MarkGroup(units, group, d);
      hide Survivor, DecisionOf, NamesKeeper, Rec.Candidate, Rec.Sha;
      survivors, todo := survivors + {keeper}, todo - {d};
      forall i | 0 <= i < |units| && rs[i].Candidate() && rs[i].Sha() !in todo && i !in survivors
        ensures !Survivor(rs, i) && Decided(rs, units[i], i)
      {
        if rs[i].Sha() == d {
          assert i in group;
        } else {
          assert i !in group;
        }
      }
    }
  }

  /** Step 4: file the survivors. */
  method DecideSurvivors(units: seq<Unit>, survivors: set<nat>)
    requires NoAlias(units)
    requires forall i: nat :: i < |units| ==> (i in survivors <==> Survivor(Recs(units), i))
    requires forall i :: i in survivors ==> i < |units|
    modifies units
    ensures forall i :: 0 <= i < |units| && i in survivors ==> Decided(Recs(units), units[i], i)
    ensures forall i :: 0 <= i < |units| && i !in survivors ==> unchanged(units[i])
  {
    hide Survivor, Superseded, KeepAutoArchives, IsArchivePath, DecisionOf, NamesKeeper, Basename;
    var rs := Recs(units);
    var liveNames := set i | i in survivors && rs[i].source == "obsidian" && !IsArchivePath(rs[i])
                       :: Basename(rs[i].ident);
    forall i | 0 <= i < |units|
      ensures Superseded(rs, i) <==> IsArchivePath(rs[i]) && Basename(rs[i].ident) in liveNames
    {
      LiveNamesExact(rs, survivors, i);
    }
    var todo := survivors;
    while todo != {}
      invariant todo <= survivors
      invariant forall i :: 0 <= i < |units| && i in survivors && i !in todo ==> Decided(rs, units[i], i)
      invariant forall i :: 0 <= i < |units| && i !in survivors ==> unchanged(units[i])
      decreases |todo|
    {
      var i :| i in todo;
      todo := todo - {i};
      FiledAs(rs, i);
      if IsArchivePath(rs[i]) && Basename(rs[i].ident) in liveNames {
        units[i].decision := Some(AutoArchive);
      } else if KeepAutoArchives(rs[i]) {
        units[i].decision := Some(AutoArchive);
      } else {
        units[i].decision := Some(Librarian);
      }
      assert Decided(rs, units[i], i);
    }
  }

  lemma LiveNamesExact(rs: seq<Rec>, survivors: set<nat>, i: nat)
    requires i < |rs|
    requires forall k: nat :: k < |rs| ==> (k in survivors <==> Survivor(rs, k))
    requires forall k :: k in survivors ==> k < |rs|
    ensures var liveNames := set k | k in survivors && rs[k].source == "obsidian" && !IsArchivePath(rs[k])
                               :: Basename(rs[k].ident);
            Superseded(rs, i) <==> IsArchivePath(rs[i]) && Basename(rs[i].ident) in liveNames
  {
    hide Survivor, IsArchivePath, Basename;
  }

  /** The whole pre-pass: every unit ends with exactly the decision the rules give it. */
  method ClassifyUnits(units: seq<Unit>)
    requires NoAlias(units)
    modifies units
    ensures forall i :: 0 <= i < |units| ==> Decided(Recs(units), units[i], i)
  {
    var rest := DropHeldAndEmpty(units);
    var groups := GroupByDigest(Recs(units), rest);
    hide Rec.Candidate, Rec.Sha, Survivor, DecisionOf, NamesKeeper;
    var survivors := MarkDuplicates(units, groups);
    DecideSurvivors(units, survivors);
  }
}
