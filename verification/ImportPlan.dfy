// backend/notes_import.py: what each classified unit of a dump becomes, and
// which task units are mirrors of a note of the same dump.

module ImportPlan {
  import opened Text
  import opened NoteLibrary
  import opened Classify

  /** Where a note of its own is filed. */
  datatype Filing = Filing(status: string, area: Option<nat>)

  datatype Action =
    | Skip
    | Hold
    | Create(filing: Filing)
    | Append(target: Rec, own: Filing)

  /** `own` of an Append is how the unit is filed if its target has no note. */
  datatype Plan = Plan(rec: Rec, action: Action)

  // ------------------------------------------------------------------ mirrors

  predicate IsNote(r: Rec) {
    Fold(r.kind) == "note"
  }

  /** A task that says it was made from something. */
  predicate IsMirror(r: Rec) {
    Fold(r.kind) == "task" && !Blank(r.mirrors)
  }

  function PairKey(title: string): string {
    Lower(Normalize(title))
  }

  /** A note `r` may mirror: same dump, same title up to case and spacing. */
  predicate Claims(c: Rec, r: Rec) {
    IsNote(c) && c.source == r.source && PairKey(c.title) == PairKey(r.title)
  }

  predicate SameDomain(c: Rec, r: Rec) {
    Fold(c.domain) == Fold(r.domain)
  }

  /** `a` is a better target than `b` for `r`: its own domain first, then the lesser ident. */
  predicate Prefers(r: Rec, a: Rec, b: Rec) {
    if SameDomain(a, r) != SameDomain(b, r) then SameDomain(a, r) else StringLess(a.ident, b.ident)
  }

  /** The first best note among the first `n` units that `r` may mirror, or -1. */
  function TargetBelow(rs: seq<Rec>, r: Rec, n: nat): (t: int)
    requires n <= |rs|
    ensures -1 <= t < n
  {
    if n == 0 then -1
    else
      var t := TargetBelow(rs, r, n - 1);
      if !Claims(rs[n - 1], r) then t
      else if t == -1 || Prefers(r, rs[n - 1], rs[t]) then n - 1 else t
  }

  lemma PrefersTransitive(r: Rec, a: Rec, b: Rec, c: Rec)
    requires !Prefers(r, a, b) && !Prefers(r, b, c)
    ensures !Prefers(r, a, c)
  {
    hide SameDomain;
    StringLessTotal(a.ident, b.ident);
    StringLessTotal(b.ident, c.ident);
    hide StringLess;
    if StringLess(b.ident, a.ident) && StringLess(a.ident, c.ident) {
      StringLessTransitive(b.ident, a.ident, c.ident);
    }
  }

  lemma PrefersAsymmetric(r: Rec, a: Rec, b: Rec)
    requires Prefers(r, a, b)
    ensures !Prefers(r, b, a)
  {
    hide Fold;
    StringLessTotal(a.ident, b.ident);
  }

  lemma {:induction false} TargetClaims(rs: seq<Rec>, r: Rec, n: nat)
    requires n <= |rs| && TargetBelow(rs, r, n) >= 0
    ensures Claims(rs[TargetBelow(rs, r, n)], r)
  {
    hide Claims, Prefers;
    if TargetBelow(rs, r, n) != n - 1 {
      TargetClaims(rs, r, n - 1);
    }
  }

  /** A unit some note claims has a target, and no claiming note is better than it. */
  lemma {:induction false} TargetIsBest(rs: seq<Rec>, r: Rec, n: nat, j: nat)
    requires j < n <= |rs| && Claims(rs[j], r)
    ensures TargetBelow(rs, r, n) >= 0 && !Prefers(r, rs[j], rs[TargetBelow(rs, r, n)])
  {
    hide Claims, Prefers;
    var t := TargetBelow(rs, r, n - 1);
    if j == n - 1 {
      if t >= 0 && Prefers(r, rs[j], rs[t]) {
        PrefersAsymmetric(r, rs[j], rs[t]);
      }
      PrefersIrreflexive(r, rs[j]);
    } else {
      TargetIsBest(rs, r, n - 1, j);
      if Claims(rs[n - 1], r) && Prefers(r, rs[n - 1], rs[t]) {
        PrefersAsymmetric(r, rs[n - 1], rs[t]);
        PrefersTransitive(r, rs[j], rs[t], rs[n - 1]);
      }
    }
  }

  lemma PrefersIrreflexive(r: Rec, a: Rec)
    ensures !Prefers(r, a, a)
  {
    StringLessTotal(a.ident, a.ident);
  }

  /** `find_mirror_pairs`: ident of each mirror to the note it mirrors; a repeated ident keeps the later. */
  function Pairs(rs: seq<Rec>, n: nat): map<string, Rec>
    requires n <= |rs|
  {
    if n == 0 then map[]
    else
      var before, t := Pairs(rs, n - 1), TargetBelow(rs, rs[n - 1], |rs|);
      if IsMirror(rs[n - 1]) && t >= 0 then before[rs[n - 1].ident := rs[t]] else before
  }

  /** With distinct idents a unit is paired exactly when it is a mirror and some note claims its title. */
  lemma {:induction false} PairsExact(rs: seq<Rec>, n: nat, i: nat)
    requires DistinctIdents(rs) && n <= |rs| && i < |rs|
    ensures rs[i].ident in Pairs(rs, n) <==> i < n && IsMirror(rs[i]) && TargetBelow(rs, rs[i], |rs|) >= 0
    ensures rs[i].ident in Pairs(rs, n) ==> Pairs(rs, n)[rs[i].ident] == rs[TargetBelow(rs, rs[i], |rs|)]
  {
    hide IsMirror, TargetBelow;
    if n > 0 {
      PairsExact(rs, n - 1, i);
    }
  }

  method FindMirrorPairs(rs: seq<Rec>) returns (pairs: map<string, Rec>)
    ensures pairs == Pairs(rs, |rs|)
  {
    hide Claims, Prefers, IsMirror;
    pairs := map[];
    for i := 0 to |rs|
      invariant pairs == Pairs(rs, i)
    {
      if IsMirror(rs[i]) {
        var target := -1;
        for j := 0 to |rs|
          invariant target == TargetBelow(rs, rs[i], j)
        {
          if Claims(rs[j], rs[i]) && (target == -1 || Prefers(rs[i], rs[j], rs[target])) {
            target := j;
          }
        }
        if target >= 0 {
          pairs := pairs[rs[i].ident := rs[target]];
        }
      }
    }
  }

  // ------------------------------------------------------------------ planning

  /** How a unit that becomes a note of its own is filed. */
  function OwnFiling(r: Rec, d: Decision, areas: map<string, nat>): Filing {
    var area := if Fold(r.domain) in areas then Some(areas[Fold(r.domain)]) else None;
    if d == AutoArchive then Filing("archived", None)
    else if r.source == "focus" && Fold(r.status) == "done" then Filing("archived", area)
    else if r.source == "focus" && area.Some? then Filing("active", area)
    else Filing("inbox", area)
  }

  function PlanUnit(r: Rec, d: Decision, areas: map<string, nat>, target: Option<Rec>): Plan {
    if d == Quarantine then Plan(r, Hold)
    else if d == Empty || d == Duplicate then Plan(r, Skip)
    else if target.Some? then Plan(r, Append(target.value, OwnFiling(r, d, areas)))
    else Plan(r, Create(OwnFiling(r, d, areas)))
  }

  function PlanAt(rs: seq<Rec>, areas: map<string, nat>, pairs: map<string, Rec>, i: nat): (p: Plan)
    requires i < |rs|
    ensures p.rec == rs[i]
  {
    PlanUnit(rs[i], DecisionOf(rs, i), areas, if rs[i].ident in pairs then Some(pairs[rs[i].ident]) else None)
  }

  function PlanAll(rs: seq<Rec>, areas: map<string, nat>): (ps: seq<Plan>)
    ensures |ps| == |rs| && forall i :: 0 <= i < |rs| ==> ps[i].rec == rs[i]
  {
    var pairs := Pairs(rs, |rs|);
    seq(|rs|, i requires 0 <= i < |rs| => PlanAt(rs, areas, pairs, i))
  }

  /** `plans[:limit]`, a negative limit counting from the end. */
  function Limited(ps: seq<Plan>, limit: Option<int>): (r: seq<Plan>)
    ensures r <= ps && (limit.None? ==> r == ps)
    ensures limit.Some? && limit.value >= 0 ==> |r| <= limit.value && (|r| == limit.value || r == ps)
    ensures limit.Some? && limit.value < 0 ==> |ps| + limit.value == |r| || (|ps| + limit.value < 0 && r == [])
  {
    if limit.None? then ps
    else if limit.value >= |ps| then ps
    else if limit.value >= 0 then ps[..limit.value]
    else if limit.value >= -|ps| then ps[..|ps| + limit.value]
    else []
  }

  /** The row a unit becomes when it is a note of its own. */
  function RowOf(r: Rec, f: Filing): Row {
    Row(CleanTitle(r.title, r.body, r.source), r.body, "note", f.status, f.area, None, r.topics, "import",
        Some(r.Sha()), [])
  }

  lemma ActionExact(r: Rec, d: Decision, areas: map<string, nat>, target: Option<Rec>)
    ensures var p := PlanUnit(r, d, areas, target);
            && p.rec == r
            && (p.action.Hold? <==> d == Quarantine)
            && (p.action.Create? || p.action.Append? <==> IsKept(d))
            && (p.action.Append? <==> IsKept(d) && target.Some?)
            && (p.action.Append? ==> p.action.target == target.value)
  {
    hide OwnFiling;
  }

  lemma DecisionExact(rs: seq<Rec>, i: nat)
    requires i < |rs|
    ensures DecisionOf(rs, i) == Quarantine <==> rs[i].Held()
    ensures IsKept(DecisionOf(rs, i)) <==> Survivor(rs, i)
  {
    KeptIffSurvivor(rs, i);
    hide Survivor, Superseded, KeepAutoArchives, Rec.Held, Rec.IsEmpty;
  }

  /** The target paired with unit `i`, if any. */
  function TargetOf(rs: seq<Rec>, i: nat): Option<Rec>
    requires i < |rs|
  {
    if IsMirror(rs[i]) && TargetBelow(rs, rs[i], |rs|) >= 0 then Some(rs[TargetBelow(rs, rs[i], |rs|)]) else None
  }

  lemma PlanAllAt(rs: seq<Rec>, areas: map<string, nat>, i: nat)
    requires DistinctIdents(rs) && i < |rs|
    ensures PlanAll(rs, areas)[i] == PlanUnit(rs[i], DecisionOf(rs, i), areas, TargetOf(rs, i))
  {
    PairsExact(rs, |rs|, i);
    hide IsMirror, TargetBelow, OwnFiling, DecisionOf, Pairs;
  }

  /** Held units are held, survivors become a note or a Thought on the note they mirror, the rest are skipped. */
  lemma PlanExact(rs: seq<Rec>, areas: map<string, nat>, i: nat)
    requires DistinctIdents(rs) && i < |rs|
    ensures var p := PlanAll(rs, areas)[i];
            && p.rec == rs[i]
            && (p.action.Hold? <==> rs[i].Held())
            && (p.action.Create? || p.action.Append? <==> Survivor(rs, i))
            && (p.action.Append? <==> Survivor(rs, i) && TargetOf(rs, i).Some?)
            && (p.action.Append? ==> p.action.target == TargetOf(rs, i).value)
  {
    hide *;
    PlanAllAt(rs, areas, i);
    DecisionExact(rs, i);
    ActionExact(rs[i], DecisionOf(rs, i), areas, TargetOf(rs, i));
  }
}
