// When a dry run of the importer tells the truth: exactly the conditions under
// which its report is the report of the real run.

module DryRun {
  import opened Text
  import opened NoteLibrary
  import opened Classify
  import opened ImportPlan
  import opened Importer
  import opened ImportTwice

  // ------------------------------------------------- what may make them differ

  predicate Known(notes: seq<Row>, r: Rec) {
    NoteOf(notes, r) > 0
  }

  /** The first `n` plans create a note for the unit so named. */
  predicate CreatesIdent(ps: seq<Plan>, n: nat, ident: string)
    requires n <= |ps|
  {
    exists c :: 0 <= c < n && ps[c].action.Create? && ps[c].rec.ident == ident
  }

  predicate CreatesDigest(ps: seq<Plan>, n: nat, d: Digest)
    requires n <= |ps|
  {
    exists c :: 0 <= c < n && ps[c].action.Create? && ps[c].rec.Sha() == d
  }

  /** Neither the library nor a planned note offers the mirror a target, as a dry run sees it. */
  predicate Falls(notes: seq<Row>, ps: seq<Plan>, i: nat)
    requires i < |ps|
  {
    && ps[i].action.Append? && !Known(notes, ps[i].rec)
    && !CreatesIdent(ps, |ps|, ps[i].action.target.ident) && !Known(notes, ps[i].action.target)
  }

  predicate Lands(notes: seq<Row>, ps: seq<Plan>, i: nat)
    requires i < |ps|
  {
    ps[i].action.Append? && !Known(notes, ps[i].rec) && !Falls(notes, ps, i)
  }

  /** A note with digest `d` is new by the time mirror `k` is reached. */
  predicate MadeBefore(notes: seq<Row>, ps: seq<Plan>, k: nat, d: Digest)
    requires k <= |ps|
  {
    CreatesDigest(ps, |ps|, d) || exists j :: 0 <= j < k && Falls(notes, ps, j) && ps[j].rec.Sha() == d
  }

  /** The real run finds by digest, among the notes it made, the target the dry run misses. */
  predicate TrapAt(notes: seq<Row>, ps: seq<Plan>, k: nat)
    requires k < |ps|
  {
    Falls(notes, ps, k) && MadeBefore(notes, ps, k, ps[k].action.target.Sha())
  }

  function Said(ps: seq<Plan>, i: nat): string
    requires i < |ps|
  {
    Normalize(ps[i].rec.body)
  }

  function Base(notes: seq<Row>, t: Rec): set<string> {
    Bodies(notes, NoteOf(notes, t))
  }

  /** One of the first `k` mirrors lands on the unit so named. */
  predicate Sighted(notes: seq<Row>, ps: seq<Plan>, k: nat, t: Rec)
    requires k <= |ps|
  {
    k > 0 && (Sighted(notes, ps, k - 1, t) || (Lands(notes, ps, k - 1) && ps[k - 1].action.target.ident == t.ident))
  }

  /** What the first `k` mirrors put on `t` under its own name. */
  function Mine(notes: seq<Row>, ps: seq<Plan>, k: nat, t: Rec): set<string>
    requires k <= |ps|
  {
    if k == 0 then {}
    else Mine(notes, ps, k - 1, t) +
         (if Lands(notes, ps, k - 1) && ps[k - 1].action.target.ident == t.ident then {Said(ps, k - 1)} else {})
  }

  /** What they put on the note of `t` under another name before `t` was first looked at. */
  function Early(notes: seq<Row>, ps: seq<Plan>, k: nat, t: Rec): set<string>
    requires k <= |ps|
  {
    if k == 0 then {}
    else Early(notes, ps, k - 1, t) +
         (if Lands(notes, ps, k - 1) && ps[k - 1].action.target.ident != t.ident &&
             ps[k - 1].action.target.Sha() == t.Sha() && !Sighted(notes, ps, k - 1, t)
          then {Said(ps, k - 1)} else {})
  }

  /** Two names share one note, and the same text reaches it under both. */
  predicate SharedAt(notes: seq<Row>, ps: seq<Plan>, k: nat)
    requires k < |ps|
  {
    Lands(notes, ps, k) &&
    var t := ps[k].action.target;
    && Said(ps, k) in Early(notes, ps, k, t)
    && Said(ps, k) !in Base(notes, t) + Mine(notes, ps, k, t)
  }

  predicate Diverges(notes: seq<Row>, ps: seq<Plan>, k: nat)
    requires k < |ps|
  {
    TrapAt(notes, ps, k) || SharedAt(notes, ps, k)
  }

  // ----------------------------------------------------------- what is assumed

  predicate Kept(p: Plan) {
    p.action.Create? || p.action.Append?
  }

  /** The store accepts every write the plan may ask for. */
  predicate Accepted(p: Plan) {
    match p.action
    case Skip => true
    case Hold => true
    case Create(f) => Creatable(RowOf(p.rec, f))
    case Append(_, own) => Creatable(RowOf(p.rec, own)) && !Blank(p.rec.body)
  }

  /** What planning distinct units guarantees: names and kept digests are distinct, targets are no mirrors. */
  predicate Regular(ps: seq<Plan>, all: set<Rec>) {
    && Named(all) && AllWithin(ps, all)
    && (forall i, j :: 0 <= i < j < |ps| ==> ps[i].rec.ident != ps[j].rec.ident)
    && (forall i, j :: 0 <= i < j < |ps| && Kept(ps[i]) && Kept(ps[j]) ==> ps[i].rec.Sha() != ps[j].rec.Sha())
    && (forall i, j :: 0 <= i < |ps| && 0 <= j < |ps| && ps[i].action.Append? && ps[j].action.Append? ==>
          ps[i].rec.ident != ps[j].action.target.ident)
  }

  predicate AllAccepted(ps: seq<Plan>) {
    forall i :: 0 <= i < |ps| ==> Accepted(ps[i])
  }

  // ------------------------------------------------------------ finding a note

  lemma FindAfter(notes: seq<Row>, row: Row, sha: Digest, d: Digest)
    requires row.hash == Some(sha) && FindHash(notes, sha) == 0
    ensures FindHash(notes + [row], d) == if d == sha then |notes| + 1 else FindHash(notes, d)
  {
    var more := notes + [row];
    assert forall i :: 0 <= i < |notes| ==> more[i] == notes[i];
    assert more[|notes|] == row;
  }

  lemma FindSameHashes(a: seq<Row>, b: seq<Row>, d: Digest)
    requires |a| == |b| && forall i :: 0 <= i < |a| ==> a[i].hash == b[i].hash
    ensures FindHash(a, d) == FindHash(b, d)
  {
  }

  /** A new note without entries changes the entries of no unit's note. */
  lemma BodiesAfter(notes: seq<Row>, row: Row, sha: Digest, d: Digest)
    requires row.hash == Some(sha) && row.entries == [] && FindHash(notes, sha) == 0
    ensures Bodies(notes + [row], FindHash(notes + [row], d)) == Bodies(notes, FindHash(notes, d))
  {
    FindAfter(notes, row, sha, d);
    hide FindHash, Normalize;
  }

  // ---------------------------------------------------------- the first pass

  function DrySlot(notes: seq<Row>, r: Rec): Slot {
    if Known(notes, r) then Real(NoteOf(notes, r)) else Planned
  }

  predicate FirstDry(d: Work, notes: seq<Row>, ps: seq<Plan>, n: nat)
    requires n <= |ps|
  {
    && d.notes == notes && d.seen == map[]
    && (forall x :: x in d.ids ==> CreatesIdent(ps, n, x))
    && (forall c :: 0 <= c < n && ps[c].action.Create? ==>
          ps[c].rec.ident in d.ids && d.ids[ps[c].rec.ident] == DrySlot(notes, ps[c].rec))
  }

  /** `now` holds the notes of `notes` and those the first `n` plans create, without new entries. */
  ghost predicate Made(now: seq<Row>, notes: seq<Row>, ps: seq<Plan>, n: nat)
    requires n <= |ps|
  {
    && (forall d :: FindHash(now, d) > 0 <==> FindHash(notes, d) > 0 || CreatesDigest(ps, n, d))
    && (forall d :: Bodies(now, FindHash(now, d)) == Bodies(notes, FindHash(notes, d)))
  }

  ghost predicate FirstReal(r: Work, notes: seq<Row>, ps: seq<Plan>, n: nat, all: set<Rec>)
    requires n <= |ps|
  {
    && Sound(r, all) && r.seen == map[]
    && (forall x :: x in r.ids ==> CreatesIdent(ps, n, x))
    && Made(r.notes, notes, ps, n)
  }

  lemma CreatesIdentNext(ps: seq<Plan>, n: nat, x: string)
    requires n < |ps|
    ensures CreatesIdent(ps, n + 1, x) <==> CreatesIdent(ps, n, x) || (ps[n].action.Create? && ps[n].rec.ident == x)
  {
  }

  lemma CreatesDigestNext(ps: seq<Plan>, n: nat, d: Digest)
    requires n < |ps|
    ensures CreatesDigest(ps, n + 1, d) <==> CreatesDigest(ps, n, d) || (ps[n].action.Create? && ps[n].rec.Sha() == d)
  {
    hide Rec.Sha;
  }

  lemma EarlierNames(ps: seq<Plan>, n: nat, all: set<Rec>)
    requires Regular(ps, all) && n < |ps|
    ensures forall c :: 0 <= c < n ==> ps[c].rec.ident != ps[n].rec.ident
  {
    hide Named, AllWithin, Kept, Rec.Sha;
  }

  lemma DryCreates(d: Work, r: Rec, f: Filing)
    ensures var v := CreateStep(d, r, f, true);
            v.notes == d.notes && v.seen == d.seen && v.ids == d.ids[r.ident := DrySlot(d.notes, r)]
  {
    hide Rec.Sha, FindHash;
  }

  lemma FirstDryStep(d: Work, notes: seq<Row>, ps: seq<Plan>, n: nat, all: set<Rec>)
    requires Regular(ps, all) && n < |ps| && FirstDry(d, notes, ps, n)
    ensures FirstDry(FirstStep(d, ps[n], true), notes, ps, n + 1)
  {
    hide Regular, CreatesIdent, DrySlot, CreateStep;
    EarlierNames(ps, n, all);
    var v := FirstStep(d, ps[n], true);
    if ps[n].action.Create? {
      DryCreates(d, ps[n].rec, ps[n].action.filing);
    }
    forall x | x in v.ids ensures CreatesIdent(ps, n + 1, x) {
      CreatesIdentNext(ps, n, x);
    }
  }

  lemma NotYetMade(ps: seq<Plan>, n: nat, all: set<Rec>)
    requires Regular(ps, all) && n < |ps| && Kept(ps[n])
    ensures !CreatesDigest(ps, n, ps[n].rec.Sha())
  {
    hide Rec.Sha;
  }

  /** One more row, with a digest not there before and no entries. */
  ghost predicate OneMore(a: seq<Row>, b: seq<Row>, sha: Digest) {
    && (forall d :: FindHash(b, d) == if d == sha then |a| + 1 else FindHash(a, d))
    && (forall d :: Bodies(b, FindHash(b, d)) == Bodies(a, FindHash(a, d)))
  }

  lemma OneMoreRow(notes: seq<Row>, row: Row, sha: Digest)
    requires row.hash == Some(sha) && row.entries == [] && FindHash(notes, sha) == 0
    ensures OneMore(notes, notes + [row], sha)
  {
    hide FindHash, Bodies;
    var more := notes + [row];
    forall d ensures FindHash(more, d) == if d == sha then |notes| + 1 else FindHash(notes, d) {
      FindAfter(notes, row, sha, d);
    }
    forall d ensures Bodies(more, FindHash(more, d)) == Bodies(notes, FindHash(notes, d)) {
      BodiesAfter(notes, row, sha, d);
    }
  }

  lemma CreateNewIs(w: Work, r: Rec, f: Filing) returns (row: Row)
    requires Creatable(RowOf(r, f))
    ensures row.hash == Some(r.Sha()) && row.entries == []
    ensures CreateNew(w, r, f) == Work(w.notes + [row], w.res.(created := w.res.created + [(r.ident, f.status)]),
                                       w.ids[r.ident := Real(|w.notes| + 1)], w.seen)
  {
    row := Stored(RowOf(r, f));
    hide Creatable, CleanTitle, Rec.Sha;
  }

  lemma CreateNewAdds(w: Work, r: Rec, f: Filing)
    requires NoteOf(w.notes, r) == 0 && Creatable(RowOf(r, f))
    ensures OneMore(w.notes, CreateNew(w, r, f).notes, r.Sha())
  {
    hide FindHash, Rec.Sha, RowOf, Creatable, CreateNew, OneMore;
    var row := CreateNewIs(w, r, f);
    OneMoreRow(w.notes, row, r.Sha());
  }

  /** Creating plan `n` extends what is made by exactly its digest. */
  lemma OneMoreMade(a: seq<Row>, b: seq<Row>, notes: seq<Row>, ps: seq<Plan>, n: nat)
    requires n < |ps| && ps[n].action.Create? && OneMore(a, b, ps[n].rec.Sha())
    requires Made(a, notes, ps, n)
    ensures Made(b, notes, ps, n + 1)
  {
    hide FindHash, Bodies, Rec.Sha, CreatesDigest;
    forall d ensures FindHash(b, d) > 0 <==> FindHash(notes, d) > 0 || CreatesDigest(ps, n + 1, d) {
      CreatesDigestNext(ps, n, d);
    }
  }

  lemma FirstRealCreate(r: Work, notes: seq<Row>, ps: seq<Plan>, n: nat, all: set<Rec>)
    requires Regular(ps, all) && n < |ps| && FirstReal(r, notes, ps, n, all)
    requires ps[n].action.Create? && Accepted(ps[n]) && NoteOf(r.notes, ps[n].rec) == 0
    ensures FirstReal(CreateNew(r, ps[n].rec, ps[n].action.filing), notes, ps, n + 1, all)
  {
    hide Made, OneMore, CreatesIdent, Sound, NoteOf, Rec.Sha, Creatable, RowOf, CreateNew, Grows;
    var p := ps[n];
    var row := CreateNewIs(r, p.rec, p.action.filing);
    CreateNewAdds(r, p.rec, p.action.filing);
    CreateNewGood(r, p.rec, p.action.filing, all);
    hide Regular;
    OneMoreMade(r.notes, r.notes + [row], notes, ps, n);
    var v := CreateNew(r, p.rec, p.action.filing);
    forall x | x in v.ids ensures CreatesIdent(ps, n + 1, x) {
      CreatesIdentNext(ps, n, x);
    }
  }

  /** A plan that creates nothing new leaves what is made as it is. */
  lemma NothingMade(now: seq<Row>, notes: seq<Row>, ps: seq<Plan>, n: nat)
    requires n < |ps| && Made(now, notes, ps, n)
    requires !ps[n].action.Create? || FindHash(notes, ps[n].rec.Sha()) > 0
    ensures Made(now, notes, ps, n + 1)
  {
    hide FindHash, Bodies, Rec.Sha, CreatesDigest;
    forall d ensures FindHash(now, d) > 0 <==> FindHash(notes, d) > 0 || CreatesDigest(ps, n + 1, d) {
      CreatesDigestNext(ps, n, d);
    }
  }

  /** The first time a planned unit is looked up, it is found exactly when the library knew it. */
  lemma FoundIffKnown(r: Work, notes: seq<Row>, ps: seq<Plan>, n: nat, all: set<Rec>)
    requires Regular(ps, all) && n < |ps| && FirstReal(r, notes, ps, n, all) && Kept(ps[n])
    ensures NoteOf(r.notes, ps[n].rec) > 0 <==> Known(notes, ps[n].rec)
  {
    hide Regular, Rec.Sha, FindHash, Bodies, CreatesDigest, Kept;
    NotYetMade(ps, n, all);
  }

  lemma FirstRealAlready(r: Work, notes: seq<Row>, ps: seq<Plan>, n: nat, all: set<Rec>)
    requires Regular(ps, all) && n < |ps| && FirstReal(r, notes, ps, n, all)
    requires ps[n].action.Create? && Known(notes, ps[n].rec) && NoteOf(r.notes, ps[n].rec) > 0
    ensures FirstReal(AlreadyThere(r, ps[n].rec.ident, NoteOf(r.notes, ps[n].rec)), notes, ps, n + 1, all)
  {
    hide Sound, Made, Rec.Sha, FindHash, CreatesIdent, AllWithin, Named;
    var p, id := ps[n], NoteOf(r.notes, ps[n].rec);
    var v := AlreadyThere(r, p.rec.ident, id);
    NothingMade(r.notes, notes, ps, n);
    WithinAt(ps, n, all);
    SoundAlready(r, p.rec, all);
    forall x | x in v.ids ensures CreatesIdent(ps, n + 1, x) {
      CreatesIdentNext(ps, n, x);
    }
  }

  lemma WithinAt(ps: seq<Plan>, n: nat, all: set<Rec>)
    requires AllWithin(ps, all) && n < |ps|
    ensures Within(ps[n], all)
  {
  }

  lemma SoundAlready(w: Work, r: Rec, all: set<Rec>)
    requires Sound(w, all) && Named(all) && r in all && NoteOf(w.notes, r) > 0
    ensures Sound(AlreadyThere(w, r.ident, NoteOf(w.notes, r)), all)
  {
    hide Sound, NoteOf, Named, Grows;
    var id := NoteOf(w.notes, r);
    SoundNamed(w, r, id, all);
    GrowsItself(w.notes);
    SoundGrows(w.(ids := w.ids[r.ident := Real(id)]), AlreadyThere(w, r.ident, id), all);
  }

  lemma FirstRealOther(r: Work, notes: seq<Row>, ps: seq<Plan>, n: nat, all: set<Rec>)
    requires n < |ps| && FirstReal(r, notes, ps, n, all) && !ps[n].action.Create?
    ensures FirstReal(FirstStep(r, ps[n], false), notes, ps, n + 1, all)
  {
    hide Sound, Made, CreatesIdent, Grows, CreateStep;
    var v := FirstStep(r, ps[n], false);
    NothingMade(r.notes, notes, ps, n);
    GrowsItself(r.notes);
    SoundGrows(r, v, all);
    forall x | x in v.ids ensures CreatesIdent(ps, n + 1, x) {
      CreatesIdentNext(ps, n, x);
    }
  }

  /** How the two kinds of run stand to each other in the first pass. */
  ghost predicate FirstSim(d: Work, r: Work, notes: seq<Row>, ps: seq<Plan>, n: nat, all: set<Rec>)
    requires n <= |ps|
  {
    FirstDry(d, notes, ps, n) && FirstReal(r, notes, ps, n, all) && d.res == r.res
  }

  lemma CreateNewReport(w: Work, r: Rec, f: Filing)
    requires Creatable(RowOf(r, f))
    ensures CreateNew(w, r, f).res == w.res.(created := w.res.created + [(r.ident, f.status)])
  {
    hide Creatable, RowOf;
  }

  lemma FirstSimCreate(d: Work, r: Work, notes: seq<Row>, ps: seq<Plan>, n: nat, all: set<Rec>)
    requires Regular(ps, all) && n < |ps| && FirstSim(d, r, notes, ps, n, all) && Accepted(ps[n])
        && ps[n].action.Create?
    ensures FirstSim(FirstStep(d, ps[n], true), FirstStep(r, ps[n], false), notes, ps, n + 1, all)
  {
    hide Regular, FirstDry, FirstReal, Rec.Sha, FindHash, CreateNew, Creatable, RowOf;
    FirstDryStep(d, notes, ps, n, all);
    FoundIffKnown(r, notes, ps, n, all);
    NotesOfFirstDry(d, notes, ps, n);
    if Known(notes, ps[n].rec) {
      FirstRealAlready(r, notes, ps, n, all);
    } else {
      FirstRealCreate(r, notes, ps, n, all);
      CreateNewReport(r, ps[n].rec, ps[n].action.filing);
    }
  }

  lemma NotesOfFirstDry(d: Work, notes: seq<Row>, ps: seq<Plan>, n: nat)
    requires n <= |ps| && FirstDry(d, notes, ps, n)
    ensures d.notes == notes
  {
  }

  lemma FirstSimOther(d: Work, r: Work, notes: seq<Row>, ps: seq<Plan>, n: nat, all: set<Rec>)
    requires Regular(ps, all) && n < |ps| && FirstSim(d, r, notes, ps, n, all) && !ps[n].action.Create?
    ensures FirstSim(FirstStep(d, ps[n], true), FirstStep(r, ps[n], false), notes, ps, n + 1, all)
  {
    hide Regular, FirstDry, FirstReal, CreateStep;
    FirstDryStep(d, notes, ps, n, all);
    FirstRealOther(r, notes, ps, n, all);
  }

  lemma {:induction false} FirstPassSim(notes: seq<Row>, ps: seq<Plan>, n: nat, all: set<Rec>)
    requires Regular(ps, all) && AllAccepted(ps) && n <= |ps|
    ensures FirstSim(FirstPass(Start(notes), ps, n, true), FirstPass(Start(notes), ps, n, false), notes, ps, n, all)
  {
    if n == 0 {
      StartSound(notes, all);
    } else {
      FirstPassSim(notes, ps, n - 1, all);
      FirstPassSimStep(notes, ps, n - 1, all);
    }
  }

  lemma FirstPassSimStep(notes: seq<Row>, ps: seq<Plan>, n: nat, all: set<Rec>)
    requires Regular(ps, all) && AllAccepted(ps) && n < |ps|
    requires FirstSim(FirstPass(Start(notes), ps, n, true), FirstPass(Start(notes), ps, n, false), notes, ps, n, all)
    ensures FirstSim(FirstPass(Start(notes), ps, n + 1, true), FirstPass(Start(notes), ps, n + 1, false), notes, ps,
        n + 1, all)
  {
    hide Regular, FirstSim, Accepted, FirstStep;
    var d, r := FirstPass(Start(notes), ps, n, true), FirstPass(Start(notes), ps, n, false);
    if ps[n].action.Create? {
      FirstSimCreate(d, r, notes, ps, n, all);
    } else {
      FirstSimOther(d, r, notes, ps, n, all);
    }
  }

  // ---------------------------------------------------------- the second pass

  ghost predicate IsTarget(ps: seq<Plan>, t: Rec) {
    exists j :: 0 <= j < |ps| && ps[j].action.Append? && ps[j].action.target == t
  }

  /** What a dry run knows of target `t` before mirror `k`. */
  predicate DryView(d: Work, notes: seq<Row>, ps: seq<Plan>, k: nat, t: Rec)
    requires k <= |ps|
  {
    && (t.ident in d.ids <==> CreatesIdent(ps, |ps|, t.ident))
    && (t.ident in d.ids ==> d.ids[t.ident] == DrySlot(notes, t))
    && (t.ident in d.seen <==> Sighted(notes, ps, k, t))
    && (t.ident in d.seen ==> d.seen[t.ident] == Base(notes, t) + Mine(notes, ps, k, t))
  }

  ghost predicate DryAt(d: Work, notes: seq<Row>, ps: seq<Plan>, k: nat)
    requires k <= |ps|
  {
    d.notes == notes && forall t :: IsTarget(ps, t) ==> DryView(d, notes, ps, k, t)
  }

  /** What a real run knows of target `t` before mirror `k`. */
  predicate RealView(r: Work, notes: seq<Row>, ps: seq<Plan>, k: nat, t: Rec)
    requires k <= |ps|
  {
    && (t.ident in r.seen <==> Sighted(notes, ps, k, t))
    && (t.ident in r.seen ==> r.seen[t.ident] == Base(notes, t) + Mine(notes, ps, k, t) + Early(notes, ps, k, t))
    && (t.ident !in r.seen ==> Bodies(r.notes, NoteOf(r.notes, t)) == Base(notes, t) + Early(notes, ps, k, t))
  }

  ghost predicate NowMade(now: seq<Row>, notes: seq<Row>, ps: seq<Plan>, k: nat)
    requires k <= |ps|
  {
    forall d :: FindHash(now, d) > 0 <==> FindHash(notes, d) > 0 || MadeBefore(notes, ps, k, d)
  }

  ghost predicate RealAt(r: Work, notes: seq<Row>, ps: seq<Plan>, k: nat, all: set<Rec>)
    requires k <= |ps|
  {
    Sound(r, all) && NowMade(r.notes, notes, ps, k) && forall t :: IsTarget(ps, t) ==> RealView(r, notes, ps, k, t)
  }

  lemma {:induction false} NothingMine(notes: seq<Row>, ps: seq<Plan>, k: nat, t: Rec)
    requires k <= |ps| && !Sighted(notes, ps, k, t)
    ensures Mine(notes, ps, k, t) == {}
  {
    hide Lands;
    if k > 0 {
      NothingMine(notes, ps, k - 1, t);
    }
  }

  lemma TargetWithin(ps: seq<Plan>, t: Rec, all: set<Rec>)
    requires AllWithin(ps, all) && IsTarget(ps, t)
    ensures t in all
  {
    var j :| 0 <= j < |ps| && ps[j].action.Append? && ps[j].action.target == t;
    WithinAt(ps, j, all);
  }

  /** A target that the plans create is the unit they create. */
  lemma CreatedTarget(ps: seq<Plan>, t: Rec, all: set<Rec>)
    requires Named(all) && AllWithin(ps, all) && t in all && CreatesIdent(ps, |ps|, t.ident)
    ensures CreatesDigest(ps, |ps|, t.Sha())
    ensures exists c :: 0 <= c < |ps| && ps[c].action.Create? && ps[c].rec == t
  {
    hide Rec.Sha, AllWithin, Within;
    var c :| 0 <= c < |ps| && ps[c].action.Create? && ps[c].rec.ident == t.ident;
    WithinAt(ps, c, all);
    RecWithin(ps[c], all);
    assert ps[c].rec == t;
  }

  lemma RecWithin(p: Plan, all: set<Rec>)
    requires Within(p, all)
    ensures p.rec in all && (p.action.Append? ==> p.action.target in all)
  {
  }

  /** The name of a mirror is no target's name. */
  lemma MirrorIsNoTarget(ps: seq<Plan>, k: nat, t: Rec, all: set<Rec>)
    requires Regular(ps, all) && k < |ps| && ps[k].action.Append? && IsTarget(ps, t)
    ensures ps[k].rec.ident != t.ident
  {
    hide Named, AllWithin, Kept, Rec.Sha;
  }

  lemma SameName(ps: seq<Plan>, t: Rec, u: Rec, all: set<Rec>)
    requires Regular(ps, all) && IsTarget(ps, t) && IsTarget(ps, u) && t.ident == u.ident
    ensures t == u
  {
    hide IsTarget, AllWithin, Kept, Rec.Sha;
    TargetWithin(ps, t, all);
    TargetWithin(ps, u, all);
  }

  // ------------------------------------------------------------- dry, one step

  lemma DryLookup(d: Work, notes: seq<Row>, ps: seq<Plan>, k: nat, t: Rec)
    requires k <= |ps| && d.notes == notes && DryView(d, notes, ps, k, t)
    ensures TargetSlot(d, t) == (if CreatesIdent(ps, |ps|, t.ident) then Some(DrySlot(notes, t))
                                 else if Known(notes, t) then Some(Real(NoteOf(notes, t))) else None)
    ensures ViewOf(d, t) == Base(notes, t) + Mine(notes, ps, k, t)
  {
    hide CreatesIdent, FindHash, Rec.Sha, Sighted, Mine;
    if t.ident !in d.seen {
      NothingMine(notes, ps, k, t);
      NoBodies(notes);
    }
  }

  /** What mirror `k` does in a dry run. */
  predicate DryEffect(d: Work, v: Work, notes: seq<Row>, ps: seq<Plan>, k: nat)
    requires k < |ps| && ps[k].action.Append?
  {
    var p, t, n := ps[k], ps[k].action.target, Said(ps, k);
    if Known(notes, p.rec) then v == AlreadyThere(d, p.rec.ident, NoteOf(notes, p.rec))
    else if Falls(notes, ps, k) then
      v == d.(res := d.res.(fallback := d.res.fallback + [p.rec.ident],
                            created := d.res.created + [(p.rec.ident, p.action.own.status)]))
    else
      && v.notes == d.notes && v.ids == d.ids
      && v.seen == d.seen[t.ident := Base(notes, t) + Mine(notes, ps, k, t) + {n}]
      && v.res == if n in Base(notes, t) + Mine(notes, ps, k, t)
                  then d.res.(appendedAlready := d.res.appendedAlready + 1)
                  else d.res.(appended := d.res.appended + [(p.rec.ident, t.ident)])
  }

  lemma DryLand(d: Work, r: Rec, t: Rec, slot: Slot)
    ensures var v, view, n := Land(d, r, t, slot, true), ViewOf(d, t), Normalize(r.body);
            && v.notes == d.notes && v.ids == d.ids && v.seen == d.seen[t.ident := view + {n}]
            && v.res == if n in view then d.res.(appendedAlready := d.res.appendedAlready + 1)
                        else d.res.(appended := d.res.appended + [(r.ident, t.ident)])
  {
    hide ViewOf, Normalize;
    var view, n := ViewOf(d, t), Normalize(r.body);
    if n in view {
      assert view + {n} == view;
    }
  }

  lemma DryStepDoes(d: Work, notes: seq<Row>, ps: seq<Plan>, k: nat)
    requires k < |ps| && ps[k].action.Append? && DryAt(d, notes, ps, k)
    ensures DryEffect(d, SecondStep(d, ps[k], true), notes, ps, k)
  {
    hide CreatesIdent, FindHash, Rec.Sha, DryView, Land, TargetSlot, ViewOf, Normalize, Base, Mine;
    var p, t := ps[k], ps[k].action.target;
    assert IsTarget(ps, t);
    DryLookup(d, notes, ps, k, t);
    if !Known(notes, p.rec) && !Falls(notes, ps, k) {
      DryLand(d, p.rec, t, TargetSlot(d, t).value);
    }
  }

  lemma DryViewNext(d: Work, v: Work, notes: seq<Row>, ps: seq<Plan>, k: nat, t: Rec, all: set<Rec>)
    requires Regular(ps, all) && k < |ps| && ps[k].action.Append? && DryEffect(d, v, notes, ps, k)
    requires IsTarget(ps, t) && DryView(d, notes, ps, k, t)
    ensures DryView(v, notes, ps, k + 1, t)
  {
    hide Regular, IsTarget, CreatesIdent, Known, DrySlot, Base, Normalize;
    MirrorIsNoTarget(ps, k, t, all);
    assert IsTarget(ps, ps[k].action.target) by { TargetAt(ps, k); }
    if t.ident == ps[k].action.target.ident {
      SameName(ps, t, ps[k].action.target, all);
    }
  }

  lemma TargetAt(ps: seq<Plan>, k: nat)
    requires k < |ps| && ps[k].action.Append?
    ensures IsTarget(ps, ps[k].action.target)
  {
  }

  lemma DryNext(d: Work, notes: seq<Row>, ps: seq<Plan>, k: nat, all: set<Rec>)
    requires Regular(ps, all) && k < |ps| && DryAt(d, notes, ps, k)
    ensures DryAt(SecondStep(d, ps[k], true), notes, ps, k + 1)
  {
    hide Regular, IsTarget, DryView, AppendStep, DryEffect;
    var v := SecondStep(d, ps[k], true);
    if ps[k].action.Append? {
      DryStepDoes(d, notes, ps, k);
      assert v.notes == notes by { DryNotes(d, v, notes, ps, k); }
      forall t | IsTarget(ps, t) ensures DryView(v, notes, ps, k + 1, t) {
        DryViewNext(d, v, notes, ps, k, t, all);
      }
    } else {
      forall t | IsTarget(ps, t) ensures DryView(v, notes, ps, k + 1, t) {
        DryViewSkip(d, notes, ps, k, t);
      }
    }
  }

  lemma DryNotes(d: Work, v: Work, notes: seq<Row>, ps: seq<Plan>, k: nat)
    requires k < |ps| && ps[k].action.Append? && DryEffect(d, v, notes, ps, k)
    ensures v.notes == d.notes
  {
    hide Known, Falls, Base, Mine, Normalize;
  }

  lemma DryViewSkip(d: Work, notes: seq<Row>, ps: seq<Plan>, k: nat, t: Rec)
    requires k < |ps| && !ps[k].action.Append? && DryView(d, notes, ps, k, t)
    ensures DryView(d, notes, ps, k + 1, t)
  {
    hide CreatesIdent, Known, DrySlot, Base;
  }

  // ------------------------------------------------------------ real, one step

  lemma OwnNotMade(notes: seq<Row>, ps: seq<Plan>, k: nat, all: set<Rec>)
    requires Regular(ps, all) && k < |ps| && ps[k].action.Append?
    ensures !MadeBefore(notes, ps, k, ps[k].rec.Sha())
  {
    hide Named, AllWithin, Rec.Sha, Known, CreatesIdent;
  }

  lemma LandsOnMade(notes: seq<Row>, ps: seq<Plan>, k: nat, all: set<Rec>)
    requires Regular(ps, all) && k < |ps| && Lands(notes, ps, k)
    ensures Known(notes, ps[k].action.target) || MadeBefore(notes, ps, k, ps[k].action.target.Sha())
  {
    hide CreatesIdent, CreatesDigest, Known, Rec.Sha, IsTarget, Kept;
    var t := ps[k].action.target;
    if CreatesIdent(ps, |ps|, t.ident) {
      TargetAt(ps, k);
      TargetWithin(ps, t, all);
      CreatedTarget(ps, t, all);
    }
  }

  lemma FallsMeans(notes: seq<Row>, ps: seq<Plan>, k: nat)
    requires k < |ps| && Falls(notes, ps, k)
    ensures ps[k].action.Append? && !Known(notes, ps[k].rec) && !Known(notes, ps[k].action.target)
  {
    hide Known;
  }

  /** Before a mirror that does not fall into the trap, a real run finds what the dry run expects. */
  lemma RealFinds(r: Work, notes: seq<Row>, ps: seq<Plan>, k: nat, all: set<Rec>)
    requires Regular(ps, all) && k < |ps| && ps[k].action.Append? && RealAt(r, notes, ps, k, all)
    requires !TrapAt(notes, ps, k)
    ensures NoteOf(r.notes, ps[k].rec) > 0 <==> Known(notes, ps[k].rec)
    ensures Falls(notes, ps, k) ==> NoteOf(r.notes, ps[k].action.target) == 0
    ensures Lands(notes, ps, k) ==> NoteOf(r.notes, ps[k].action.target) > 0
  {
    hide Regular, FindHash, Rec.Sha, Falls, MadeBefore, RealView, Sound;
    OwnNotMade(notes, ps, k, all);
    if Lands(notes, ps, k) {
      LandsOnMade(notes, ps, k, all);
    } else if Falls(notes, ps, k) {
      FallsMeans(notes, ps, k);
    }
  }

  lemma RealViewIs(r: Work, notes: seq<Row>, ps: seq<Plan>, k: nat, t: Rec, all: set<Rec>)
    requires k <= |ps| && Sound(r, all) && t in all && RealView(r, notes, ps, k, t)
    ensures ViewOf(r, t) == Base(notes, t) + Mine(notes, ps, k, t) + Early(notes, ps, k, t)
    ensures TargetSlot(r, t) == if NoteOf(r.notes, t) > 0 then Some(Real(NoteOf(r.notes, t))) else None
    ensures ViewOf(r, t) <= Bodies(r.notes, NoteOf(r.notes, t))
  {
    hide Sound, TargetSlot, Bodies, NoteOf, Sighted, Mine, Early;
    SoundSlot(r, t, all);
    NoBodies(r.notes);
    if t.ident !in r.seen {
      NothingMine(notes, ps, k, t);
    } else {
      SeenIsThere(r, t, all);
    }
  }

  lemma SeenIsThere(w: Work, t: Rec, all: set<Rec>)
    requires Sound(w, all) && t in all && t.ident in w.seen
    ensures w.seen[t.ident] <= Bodies(w.notes, NoteOf(w.notes, t))
  {
    hide NoteOf, Bodies;
  }

  /** What mirror `k` does in a real run that does not fall into the trap. */
  ghost predicate RealEffect(r: Work, v: Work, notes: seq<Row>, ps: seq<Plan>, k: nat)
    requires k < |ps| && ps[k].action.Append?
  {
    var p, t, n := ps[k], ps[k].action.target, Said(ps, k);
    if Known(notes, p.rec) then v == AlreadyThere(r, p.rec.ident, NoteOf(r.notes, p.rec))
    else if Falls(notes, ps, k) then
      && OneMore(r.notes, v.notes, p.rec.Sha()) && v.seen == r.seen
      && v.res == r.res.(fallback := r.res.fallback + [p.rec.ident],
                         created := r.res.created + [(p.rec.ident, p.action.own.status)])
    else
      var view := Base(notes, t) + Mine(notes, ps, k, t) + Early(notes, ps, k, t);
      && NoteOf(r.notes, t) > 0 && view <= Bodies(r.notes, NoteOf(r.notes, t))
      && v.seen == r.seen[t.ident := view + {n}]
      && (if n in view then v.notes == r.notes && v.res == r.res.(appendedAlready := r.res.appendedAlready + 1)
          else && v.notes == AddEntry(r.notes, NoteOf(r.notes, t), p.rec.body)
               && v.res == r.res.(appended := r.res.appended + [(p.rec.ident, t.ident)]))
  }

  lemma RealLand(r: Work, u: Rec, t: Rec, id: nat)
    requires 1 <= id <= |r.notes| && !Blank(u.body)
    ensures var v, view, n := Land(r, u, t, Real(id), false), ViewOf(r, t), Normalize(u.body);
            && v.seen == r.seen[t.ident := view + {n}]
            && (if n in view then v.notes == r.notes && v.res == r.res.(appendedAlready := r.res.appendedAlready + 1)
                else && v.notes == AddEntry(r.notes, id, u.body)
                     && v.res == r.res.(appended := r.res.appended + [(u.ident, t.ident)]))
  {
    hide ViewOf, Normalize, AddEntry, Blank;
    var view, n := ViewOf(r, t), Normalize(u.body);
    if n in view {
      assert view + {n} == view;
    }
  }

  lemma FallBackDoes(w: Work, r: Rec, own: Filing)
    requires NoteOf(w.notes, r) == 0 && Creatable(RowOf(r, own))
    ensures var v := FallBack(w, r, own, false);
            && OneMore(w.notes, v.notes, r.Sha()) && v.seen == w.seen
            && v.res == w.res.(fallback := w.res.fallback + [r.ident],
                               created := w.res.created + [(r.ident, own.status)])
  {
    hide NoteOf, Creatable, RowOf, Rec.Sha, OneMore, CreateNew;
    var said := w.(res := w.res.(fallback := w.res.fallback + [r.ident]));
    CreateNewAdds(said, r, own);
    var row := CreateNewIs(said, r, own);
  }

  lemma RealStepDoes(r: Work, notes: seq<Row>, ps: seq<Plan>, k: nat, all: set<Rec>)
    requires Regular(ps, all) && k < |ps| && ps[k].action.Append? && RealAt(r, notes, ps, k, all)
    requires Accepted(ps[k]) && !TrapAt(notes, ps, k)
    ensures RealEffect(r, SecondStep(r, ps[k], false), notes, ps, k)
  {
    hide Regular, FindHash, Rec.Sha, Falls, RealView, Land, FallBack, TargetSlot, ViewOf, Normalize, Base, Mine, Early,
         Bodies, Sound, NowMade, IsTarget, TrapAt, Creatable, RowOf, Blank, AddEntry, OneMore;
    var p, t := ps[k], ps[k].action.target;
    RealFinds(r, notes, ps, k, all);
    TargetAt(ps, k);
    TargetsWithin(ps, t, all);
    RealViewIs(r, notes, ps, k, t, all);
    if Falls(notes, ps, k) {
      FallsMeans(notes, ps, k);
      FallBackDoes(r, p.rec, p.action.own);
    } else if !Known(notes, p.rec) {
      RealLand(r, p.rec, t, NoteOf(r.notes, t));
    }
  }

  lemma TargetsWithin(ps: seq<Plan>, t: Rec, all: set<Rec>)
    requires Regular(ps, all) && IsTarget(ps, t)
    ensures t in all
  {
    hide IsTarget, Kept, Named, AllWithin, Rec.Sha;
    TargetWithin(ps, t, all);
  }

  // ----------------------------------------------- real, what is known after it

  lemma MadeNext(notes: seq<Row>, ps: seq<Plan>, k: nat, d: Digest)
    requires k < |ps|
    ensures MadeBefore(notes, ps, k + 1, d) <==>
        MadeBefore(notes, ps, k, d) || (Falls(notes, ps, k) && ps[k].rec.Sha() == d)
  {
    hide Falls, CreatesDigest, Rec.Sha;
  }

  lemma AddEntryKeepsHashes(notes: seq<Row>, id: nat, text: string, d: Digest)
    requires 1 <= id <= |notes|
    ensures FindHash(AddEntry(notes, id, text), d) == FindHash(notes, d)
  {
    hide FindHash, Strip;
    FindSameHashes(notes, AddEntry(notes, id, text), d);
  }

  lemma NowMadeNext(r: Work, v: Work, notes: seq<Row>, ps: seq<Plan>, k: nat)
    requires k < |ps| && ps[k].action.Append? && NowMade(r.notes, notes, ps, k) && RealEffect(r, v, notes, ps, k)
    ensures NowMade(v.notes, notes, ps, k + 1)
  {
    hide FindHash, Rec.Sha, MadeBefore, Bodies, Base, Mine, Early, Normalize, AddEntry;
    forall d ensures FindHash(v.notes, d) > 0 <==> FindHash(notes, d) > 0 || MadeBefore(notes, ps, k + 1, d) {
      MadeNext(notes, ps, k, d);
      if Lands(notes, ps, k) {
        AddEntryKeepsHashes(r.notes, NoteOf(r.notes, ps[k].action.target), ps[k].rec.body, d);
      }
    }
  }

  /** Two targets with a note each share it exactly when they share their digest. */
  lemma SameNote(notes: seq<Row>, t: Rec, u: Rec)
    requires NoteOf(notes, t) > 0
    ensures NoteOf(notes, u) == NoteOf(notes, t) <==> u.Sha() == t.Sha()
  {
    hide Rec.Sha;
  }

  lemma AddEntryKeepsNote(notes: seq<Row>, id: nat, text: string, t: Rec)
    requires 1 <= id <= |notes|
    ensures NoteOf(AddEntry(notes, id, text), t) == NoteOf(notes, t)
  {
    hide FindHash, Rec.Sha, AddEntry;
    AddEntryKeepsHashes(notes, id, text, t.Sha());
  }

  lemma RealViewSkip(r: Work, v: Work, notes: seq<Row>, ps: seq<Plan>, k: nat, t: Rec)
    requires k < |ps| && !Lands(notes, ps, k) && RealView(r, notes, ps, k, t) && v.seen == r.seen
    requires Bodies(v.notes, NoteOf(v.notes, t)) == Bodies(r.notes, NoteOf(r.notes, t))
    ensures RealView(v, notes, ps, k + 1, t)
  {
    hide Lands, Bodies, NoteOf, Rec.Sha, Base;
  }

  /** The target mirror `k` lands on. */
  lemma RealViewLanded(r: Work, v: Work, notes: seq<Row>, ps: seq<Plan>, k: nat)
    requires k < |ps| && Lands(notes, ps, k) && RealEffect(r, v, notes, ps, k)
    requires RealView(r, notes, ps, k, ps[k].action.target)
    ensures RealView(v, notes, ps, k + 1, ps[k].action.target)
  {
    hide Lands, Bodies, NoteOf, Rec.Sha, Base, AddEntry, Normalize, OneMore;
    LandsNotFalls(notes, ps, k);
  }

  lemma LandsNotFalls(notes: seq<Row>, ps: seq<Plan>, k: nat)
    requires k < |ps| && Lands(notes, ps, k)
    ensures ps[k].action.Append? && !Known(notes, ps[k].rec) && !Falls(notes, ps, k)
  {
    hide Known, Falls;
  }

  /** A target of another name: it sees the new text only if it shares the note and is not yet cached. */
  lemma RealViewOther(r: Work, v: Work, notes: seq<Row>, ps: seq<Plan>, k: nat, t: Rec)
    requires k < |ps| && Lands(notes, ps, k) && RealEffect(r, v, notes, ps, k)
    requires t.ident != ps[k].action.target.ident && RealView(r, notes, ps, k, t)
    ensures RealView(v, notes, ps, k + 1, t)
  {
    hide Lands, Bodies, NoteOf, Rec.Sha, Base, AddEntry, OneMore;
    LandsNotFalls(notes, ps, k);
    var p, u := ps[k], ps[k].action.target;
    var id, view := NoteOf(r.notes, u), Base(notes, u) + Mine(notes, ps, k, u) + Early(notes, ps, k, u);
    SameNote(r.notes, u, t);
    if Said(ps, k) !in view {
      AddEntryKeepsNote(r.notes, id, p.rec.body, t);
      AddEntryGood(r.notes, id, p.rec.body);
    }
  }

  lemma RealViewNext(r: Work, v: Work, notes: seq<Row>, ps: seq<Plan>, k: nat, t: Rec, all: set<Rec>)
    requires Regular(ps, all) && k < |ps| && ps[k].action.Append? && RealEffect(r, v, notes, ps, k)
    requires IsTarget(ps, t) && RealView(r, notes, ps, k, t)
    ensures RealView(v, notes, ps, k + 1, t)
  {
    hide Regular, IsTarget, RealView, Falls, Known, Base, Mine, Early, Normalize, Bodies, FindHash, Rec.Sha, AddEntry;
    if Lands(notes, ps, k) {
      if t.ident == ps[k].action.target.ident {
        TargetAt(ps, k);
        SameName(ps, t, ps[k].action.target, all);
        RealViewLanded(r, v, notes, ps, k);
      } else {
        RealViewOther(r, v, notes, ps, k, t);
      }
    } else {
      RealViewSkip(r, v, notes, ps, k, t);
    }
  }

  lemma SoundNext(r: Work, notes: seq<Row>, ps: seq<Plan>, k: nat, all: set<Rec>)
    requires Regular(ps, all) && k < |ps| && ps[k].action.Append? && Sound(r, all)
    requires RealEffect(r, SecondStep(r, ps[k], false), notes, ps, k)
    ensures Sound(SecondStep(r, ps[k], false), all)
  {
    hide Sound, AppendStep, NoteOf, Bodies, Base, Mine, Early, Normalize, AddEntry, OneMore, Falls, Known, Named,
        AllWithin,
         Rec.Sha, Grows, Settled;
    WithinAt(ps, k, all);
    AppendStepGood(r, ps[k], all);
  }

  lemma RealNext(r: Work, notes: seq<Row>, ps: seq<Plan>, k: nat, all: set<Rec>)
    requires Regular(ps, all) && k < |ps| && RealAt(r, notes, ps, k, all)
    requires Accepted(ps[k]) && !TrapAt(notes, ps, k)
    ensures RealAt(SecondStep(r, ps[k], false), notes, ps, k + 1, all)
  {
    hide Regular, IsTarget, RealView, AppendStep, RealEffect, Sound, NowMade, Accepted, TrapAt;
    var v := SecondStep(r, ps[k], false);
    if ps[k].action.Append? {
      RealStepDoes(r, notes, ps, k, all);
      SoundNext(r, notes, ps, k, all);
      NowMadeNext(r, v, notes, ps, k);
      forall t | IsTarget(ps, t) ensures RealView(v, notes, ps, k + 1, t) {
        RealViewNext(r, v, notes, ps, k, t, all);
      }
    } else {
      NowMadeSkip(r.notes, notes, ps, k);
      forall t | IsTarget(ps, t) ensures RealView(v, notes, ps, k + 1, t) {
        NotLanding(notes, ps, k);
        RealViewSkip(r, v, notes, ps, k, t);
      }
    }
  }

  lemma NotLanding(notes: seq<Row>, ps: seq<Plan>, k: nat)
    requires k < |ps| && !ps[k].action.Append?
    ensures !Lands(notes, ps, k) && !Falls(notes, ps, k)
  {
    hide Known, CreatesIdent;
  }

  lemma NowMadeSkip(now: seq<Row>, notes: seq<Row>, ps: seq<Plan>, k: nat)
    requires k < |ps| && !ps[k].action.Append? && NowMade(now, notes, ps, k)
    ensures NowMade(now, notes, ps, k + 1)
  {
    hide FindHash, Rec.Sha, MadeBefore, Falls;
    NotLanding(notes, ps, k);
    forall d ensures FindHash(now, d) > 0 <==> FindHash(notes, d) > 0 || MadeBefore(notes, ps, k + 1, d) {
      MadeNext(notes, ps, k, d);
    }
  }

  // ------------------------------------------------------------- both together

  ghost predicate Sim(d: Work, r: Work, notes: seq<Row>, ps: seq<Plan>, k: nat, all: set<Rec>)
    requires k <= |ps|
  {
    DryAt(d, notes, ps, k) && RealAt(r, notes, ps, k, all) && d.res == r.res
  }

  /** Where the two kinds of run do not part, they report alike. */
  lemma SameReport(d: Work, r: Work, notes: seq<Row>, ps: seq<Plan>, k: nat, all: set<Rec>)
    requires Regular(ps, all) && k < |ps| && Sim(d, r, notes, ps, k, all) && Accepted(ps[k])
    requires !Diverges(notes, ps, k)
    ensures SecondStep(d, ps[k], true).res == SecondStep(r, ps[k], false).res
  {
    hide Regular, DryAt, RealAt, Accepted, TrapAt, AppendStep, Falls, Known, Base, Mine, Early, OneMore, NoteOf, Bodies,
         Normalize, AddEntry, Rec.Sha;
    if ps[k].action.Append? {
      DryStepDoes(d, notes, ps, k);
      RealStepDoes(r, notes, ps, k, all);
    }
  }

  lemma SimNext(d: Work, r: Work, notes: seq<Row>, ps: seq<Plan>, k: nat, all: set<Rec>)
    requires Regular(ps, all) && k < |ps| && Sim(d, r, notes, ps, k, all) && Accepted(ps[k])
    requires !Diverges(notes, ps, k)
    ensures Sim(SecondStep(d, ps[k], true), SecondStep(r, ps[k], false), notes, ps, k + 1, all)
  {
    hide Regular, DryAt, RealAt, Accepted, TrapAt, SharedAt, SecondStep;
    SameReport(d, r, notes, ps, k, all);
    DryNext(d, notes, ps, k, all);
    RealNext(r, notes, ps, k, all);
  }

  lemma DryStart(d: Work, notes: seq<Row>, ps: seq<Plan>, t: Rec, all: set<Rec>)
    requires Regular(ps, all) && FirstDry(d, notes, ps, |ps|) && IsTarget(ps, t)
    ensures DryView(d, notes, ps, 0, t)
  {
    hide IsTarget, Kept, AllWithin, DrySlot, Rec.Sha, Base;
    TargetWithin(ps, t, all);
    if CreatesIdent(ps, |ps|, t.ident) {
      CreatedTarget(ps, t, all);
    }
  }

  lemma RealStart(r: Work, notes: seq<Row>, ps: seq<Plan>, t: Rec, all: set<Rec>)
    requires FirstReal(r, notes, ps, |ps|, all)
    ensures RealView(r, notes, ps, 0, t)
  {
    hide Sound, Rec.Sha, FindHash, Bodies;
  }

  lemma MadeStart(now: seq<Row>, notes: seq<Row>, ps: seq<Plan>)
    requires Made(now, notes, ps, |ps|)
    ensures NowMade(now, notes, ps, 0)
  {
    hide FindHash, Bodies, CreatesDigest;
  }

  lemma SimStart(notes: seq<Row>, ps: seq<Plan>, all: set<Rec>)
    requires Regular(ps, all) && AllAccepted(ps)
    ensures Sim(Half(notes, ps, true), Half(notes, ps, false), notes, ps, 0, all)
  {
    hide Regular, FirstPass, DryView, RealView, Made, NowMade, Sound, CreatesIdent, DrySlot, IsTarget;
    var d, r := Half(notes, ps, true), Half(notes, ps, false);
    FirstPassSim(notes, ps, |ps|, all);
    MadeStart(r.notes, notes, ps);
    forall t | IsTarget(ps, t) ensures DryView(d, notes, ps, 0, t) && RealView(r, notes, ps, 0, t) {
      DryStart(d, notes, ps, t, all);
      RealStart(r, notes, ps, t, all);
    }
  }

  /** As long as no mirror makes them part, the two runs stay in step. */
  lemma {:induction false} SimUpTo(notes: seq<Row>, ps: seq<Plan>, k: nat, all: set<Rec>)
    requires Regular(ps, all) && AllAccepted(ps) && k <= |ps|
    requires forall j :: 0 <= j < k ==> !Diverges(notes, ps, j)
    ensures Sim(SecondPass(Half(notes, ps, true), ps, k, true), SecondPass(Half(notes, ps, false), ps, k, false),
                notes, ps, k, all)
  {
    hide Regular, Diverges, Accepted, Sim, Half, SecondStep;
    if k == 0 {
      SimStart(notes, ps, all);
    } else {
      SimUpTo(notes, ps, k - 1, all);
      SimNext(SecondPass(Half(notes, ps, true), ps, k - 1, true), SecondPass(Half(notes, ps, false), ps, k - 1, false),
              notes, ps, k - 1, all);
    }
  }

  // ------------------------------------------------------- reports that differ

  predicate Fell(res: Report, x: string) {
    x in res.fallback
  }

  predicate Landed(res: Report, x: string) {
    exists y :: y in res.appended && y.0 == x
  }

  /** A step speaks of its own unit only. */
  lemma SpeaksOfItself(w: Work, p: Plan, dry: bool, x: string)
    requires x != p.rec.ident
    ensures Fell(SecondStep(w, p, dry).res, x) <==> Fell(w.res, x)
    ensures Landed(SecondStep(w, p, dry).res, x) <==> Landed(w.res, x)
  {
    hide FindHash, Rec.Sha, TargetSlot, ViewOf, RowOf, Creatable, Stored, Normalize, Blank, AddEntry, Landed;
    LandedOther(w.res.appended, (p.rec.ident, if p.action.Append? then p.action.target.ident else ""), x);
    var v := SecondStep(w, p, dry);
    assert v.res.appended == w.res.appended ||
           v.res.appended == w.res.appended + [(p.rec.ident, if p.action.Append? then p.action.target.ident else "")];
    LandedBy(w.res, v.res, x);
  }

  lemma LandedOther(a: seq<(string, string)>, y: (string, string), x: string)
    requires y.0 != x
    ensures (exists z :: z in a + [y] && z.0 == x) <==> (exists z :: z in a && z.0 == x)
  {
    if z :| z in a && z.0 == x {
      assert z in a + [y];
    }
  }

  lemma LandedBy(a: Report, b: Report, x: string)
    ensures Landed(a, x) <==> exists z :: z in a.appended && z.0 == x
    ensures Landed(b, x) <==> exists z :: z in b.appended && z.0 == x
  {
  }

  lemma {:induction false} PassSpeaksOfItself(w: Work, ps: seq<Plan>, a: nat, b: nat, dry: bool, x: string)
    requires a <= b <= |ps| && forall j :: a <= j < b ==> ps[j].rec.ident != x
    ensures Fell(SecondPass(w, ps, b, dry).res, x) <==> Fell(SecondPass(w, ps, a, dry).res, x)
    ensures Landed(SecondPass(w, ps, b, dry).res, x) <==> Landed(SecondPass(w, ps, a, dry).res, x)
    decreases b - a
  {
    hide Fell, Landed, SecondStep;
    if a < b {
      PassSpeaksOfItself(w, ps, a, b - 1, dry, x);
      SpeaksOfItself(SecondPass(w, ps, b - 1, dry), ps[b - 1], dry, x);
    }
  }

  lemma FirstStepIsSilent(w: Work, p: Plan, dry: bool)
    ensures FirstStep(w, p, dry).res.fallback == w.res.fallback && FirstStep(w, p, dry).res.appended == w.res.appended
  {
    hide FindHash, Rec.Sha, RowOf, Creatable, Stored;
  }

  lemma {:induction false} FirstPassIsSilent(w: Work, ps: seq<Plan>, n: nat, dry: bool)
    requires n <= |ps|
    ensures FirstPass(w, ps, n, dry).res.fallback == w.res.fallback
    ensures FirstPass(w, ps, n, dry).res.appended == w.res.appended
  {
    hide FirstStep;
    if n > 0 {
      FirstPassIsSilent(w, ps, n - 1, dry);
      FirstStepIsSilent(FirstPass(w, ps, n - 1, dry), ps[n - 1], dry);
    }
  }

  /** Before its turn a mirror is in neither list. */
  lemma UnmarkedBefore(notes: seq<Row>, ps: seq<Plan>, k: nat, dry: bool, all: set<Rec>)
    requires Regular(ps, all) && k < |ps|
    ensures var w := SecondPass(Half(notes, ps, dry), ps, k, dry);
            !Fell(w.res, ps[k].rec.ident) && !Landed(w.res, ps[k].rec.ident)
  {
    hide Regular, FirstStep, SecondStep;
    EarlierNames(ps, k, all);
    FirstPassIsSilent(Start(notes), ps, |ps|, dry);
    PassSpeaksOfItself(Half(notes, ps, dry), ps, 0, k, dry, ps[k].rec.ident);
  }

  lemma LaterNames(ps: seq<Plan>, k: nat, all: set<Rec>)
    requires Regular(ps, all) && k < |ps|
    ensures forall j :: k < j < |ps| ==> ps[j].rec.ident != ps[k].rec.ident
  {
    hide Named, AllWithin, Kept, Rec.Sha;
  }

  /** What is said of a mirror in its turn is what the report says in the end. */
  lemma MarkedFromThen(notes: seq<Row>, ps: seq<Plan>, k: nat, dry: bool, all: set<Rec>)
    requires Regular(ps, all) && k < |ps|
    ensures var w, x := SecondPass(Half(notes, ps, dry), ps, k + 1, dry), ps[k].rec.ident;
            && (Fell(Run(notes, ps, dry).res, x) <==> Fell(w.res, x))
            && (Landed(Run(notes, ps, dry).res, x) <==> Landed(w.res, x))
  {
    hide Regular, FirstPass, SecondPass, Fell, Landed;
    LaterNames(ps, k, all);
    PassSpeaksOfItself(Half(notes, ps, dry), ps, k + 1, |ps|, dry, ps[k].rec.ident);
  }

  /** In the trap a real run finds a target after all. */
  lemma TrappedReal(r: Work, notes: seq<Row>, ps: seq<Plan>, k: nat, all: set<Rec>)
    requires Regular(ps, all) && k < |ps| && RealAt(r, notes, ps, k, all) && TrapAt(notes, ps, k)
    ensures SecondStep(r, ps[k], false).res.fallback == r.res.fallback
  {
    hide Regular, FindHash, Rec.Sha, Falls, RealView, Sound, MadeBefore, Land, TargetSlot, IsTarget, FallBack;
    FallsMeans(notes, ps, k);
    OwnNotMade(notes, ps, k, all);
    TargetAt(ps, k);
    TargetsWithin(ps, ps[k].action.target, all);
    SoundSlot(r, ps[k].action.target, all);
    LandKeepsFallback(r, ps[k].rec, ps[k].action.target, Real(NoteOf(r.notes, ps[k].action.target)), false);
  }

  lemma LandKeepsFallback(w: Work, r: Rec, t: Rec, slot: Slot, dry: bool)
    ensures Land(w, r, t, slot, dry).res.fallback == w.res.fallback
  {
    hide ViewOf, Normalize, AddEntry, Blank;
  }

  lemma FellNow(a: Report, b: Report, x: string)
    requires b.fallback == a.fallback + [x]
    ensures Fell(b, x)
  {
    assert b.fallback[|a.fallback|] == x;
  }

  lemma LandedNow(a: Report, b: Report, x: string, t: string)
    requires b.appended == a.appended + [(x, t)]
    ensures Landed(b, x)
  {
    assert b.appended[|a.appended|] == (x, t);
    assert (x, t) in b.appended;
  }

  /** At a mirror that makes them part, one run says something the other does not. */
  lemma PartNow(d: Work, r: Work, notes: seq<Row>, ps: seq<Plan>, k: nat, all: set<Rec>)
    requires Regular(ps, all) && k < |ps| && Sim(d, r, notes, ps, k, all) && Accepted(ps[k]) && Diverges(notes, ps, k)
    requires !Fell(r.res, ps[k].rec.ident) && !Landed(r.res, ps[k].rec.ident)
    ensures var a, b, x := SecondStep(d, ps[k], true).res, SecondStep(r, ps[k], false).res, ps[k].rec.ident;
            (Fell(a, x) && !Fell(b, x)) || (Landed(a, x) && !Landed(b, x))
  {
    hide Regular, RealAt, DryAt, Falls, Known, Accepted, SecondStep, Base, Mine, Early, Normalize, NoteOf, Bodies,
        OneMore,
         AddEntry, Rec.Sha, MadeBefore, Landed, Fell;
    var x := ps[k].rec.ident;
    var a, b := SecondStep(d, ps[k], true), SecondStep(r, ps[k], false);
    if TrapAt(notes, ps, k) {
      FallsMeans(notes, ps, k);
      DryStepDoes(d, notes, ps, k);
      FellNow(d.res, a.res, x);
      TrappedReal(r, notes, ps, k, all);
      FellSame(r.res, b.res, x);
    } else {
      LandsNotFalls(notes, ps, k);
      DryStepDoes(d, notes, ps, k);
      LandedNow(d.res, a.res, x, ps[k].action.target.ident);
      RealStepDoes(r, notes, ps, k, all);
      LandedSame(r.res, b.res, x);
    }
  }

  lemma FellSame(a: Report, b: Report, x: string)
    requires a.fallback == b.fallback
    ensures Fell(a, x) <==> Fell(b, x)
  {
  }

  lemma LandedSame(a: Report, b: Report, x: string)
    requires a.appended == b.appended
    ensures Landed(a, x) <==> Landed(b, x)
  {
  }

  lemma DivergenceShows(notes: seq<Row>, ps: seq<Plan>, k: nat, all: set<Rec>)
    requires Regular(ps, all) && AllAccepted(ps) && k < |ps| && Diverges(notes, ps, k)
    requires forall j :: 0 <= j < k ==> !Diverges(notes, ps, j)
    ensures Run(notes, ps, true).res != Run(notes, ps, false).res
  {
    hide Regular, Diverges, Accepted, Sim, Half, SecondStep, Run, Fell, Landed;
    var d, r := SecondPass(Half(notes, ps, true), ps, k, true), SecondPass(Half(notes, ps, false), ps, k, false);
    SimUpTo(notes, ps, k, all);
    UnmarkedBefore(notes, ps, k, false, all);
    PartNow(d, r, notes, ps, k, all);
    MarkedFromThen(notes, ps, k, true, all);
    MarkedFromThen(notes, ps, k, false, all);
  }

  lemma {:induction false} FirstDivergence(notes: seq<Row>, ps: seq<Plan>, k: nat) returns (m: nat)
    requires k < |ps| && Diverges(notes, ps, k)
    ensures m <= k && Diverges(notes, ps, m) && forall j :: 0 <= j < m ==> !Diverges(notes, ps, j)
  {
    hide Diverges;
    if j: nat :| j < k && Diverges(notes, ps, j) {
      m := FirstDivergence(notes, ps, j);
    } else {
      m := k;
    }
  }

  /**
   * The dry run reports what the real run reports exactly when no mirror falls into the trap or
   * shares a note under two names.
   */
  lemma PlansAgree(notes: seq<Row>, ps: seq<Plan>, all: set<Rec>)
    requires Regular(ps, all) && AllAccepted(ps)
    ensures Run(notes, ps, true).res == Run(notes, ps, false).res <==>
            forall k :: 0 <= k < |ps| ==> !Diverges(notes, ps, k)
  {
    hide Regular, Diverges, AllAccepted, Half, SecondPass, DryAt, RealAt;
    if k :| 0 <= k < |ps| && Diverges(notes, ps, k) {
      var m := FirstDivergence(notes, ps, k);
      DivergenceShows(notes, ps, m, all);
    } else {
      SimUpTo(notes, ps, |ps|, all);
    }
  }

  // ---------------------------------------------------------------- whole dumps

  lemma MirrorIsNoNote(r: Rec)
    requires IsMirror(r)
    ensures !IsNote(r)
  {
    hide Fold, Blank;
  }

  lemma TargetIsNote(rs: seq<Rec>, i: nat)
    requires i < |rs| && TargetOf(rs, i).Some?
    ensures IsNote(TargetOf(rs, i).value) && IsMirror(rs[i])
  {
    hide IsNote, IsMirror, PairKey;
    TargetClaims(rs, rs[i], |rs|);
  }

  lemma SurvivorsDiffer(rs: seq<Rec>, i: nat, j: nat)
    requires i < j < |rs| && Survivor(rs, i) && Survivor(rs, j)
    ensures rs[i].Sha() != rs[j].Sha()
  {
    KeptIffSurvivor(rs, i);
    KeptIffSurvivor(rs, j);
    KeptDistinct(rs, i, j);
  }

  /** Planning distinct units gives a regular plan. */
  lemma PlansRegular(rs: seq<Rec>, areas: map<string, nat>, limit: Option<int>)
    requires DistinctIdents(rs)
    ensures Regular(Limited(PlanAll(rs, areas), limit), RecSet(rs))
  {
    hide PlanAll, Limited, TargetOf, IsMirror, IsNote, Survivor, Rec.Sha, RecSet, Named, AllWithin;
    var ps, full := Limited(PlanAll(rs, areas), limit), PlanAll(rs, areas);
    PlansWithin(rs, areas, limit);
    forall i, j | 0 <= i < j < |ps| ensures ps[i].rec.ident != ps[j].rec.ident {
      assert ps[i] == full[i] && ps[j] == full[j];
      assert rs[i].ident != rs[j].ident;
    }
    forall i, j | 0 <= i < j < |ps| && Kept(ps[i]) && Kept(ps[j]) ensures ps[i].rec.Sha() != ps[j].rec.Sha() {
      assert ps[i] == full[i] && ps[j] == full[j];
      PlanExact(rs, areas, i);
      PlanExact(rs, areas, j);
      SurvivorsDiffer(rs, i, j);
    }
    forall i, j | 0 <= i < |ps| && 0 <= j < |ps| && ps[i].action.Append? && ps[j].action.Append?
      ensures ps[i].rec.ident != ps[j].action.target.ident
    {
      assert ps[i] == full[i] && ps[j] == full[j];
      MirrorNeverTarget(rs, areas, i, j);
    }
  }

  lemma MirrorNeverTarget(rs: seq<Rec>, areas: map<string, nat>, i: nat, j: nat)
    requires DistinctIdents(rs) && i < |rs| && j < |rs|
    requires PlanAll(rs, areas)[i].action.Append? && PlanAll(rs, areas)[j].action.Append?
    ensures rs[i].ident != PlanAll(rs, areas)[j].action.target.ident
  {
    hide PlanAll, TargetOf, IsMirror, IsNote, Survivor, Named, AllWithin;
    PlanExact(rs, areas, i);
    PlanExact(rs, areas, j);
    TargetIsNote(rs, i);
    TargetIsNote(rs, j);
    MirrorIsNoNote(rs[i]);
    TargetIsUnit(rs, j);
    PlansWithin(rs, areas, None);
    DifferentNames(rs, rs[i], TargetOf(rs, j).value);
  }

  lemma DifferentNames(rs: seq<Rec>, a: Rec, b: Rec)
    requires Named(RecSet(rs)) && a in rs && b in RecSet(rs) && a != b
    ensures a.ident != b.ident
  {
  }

  /** The dry-run law of the importer, for every library, dump and limit. */
  lemma DryRunAgrees(notes: seq<Row>, rs: seq<Rec>, areas: map<string, nat>, limit: Option<int>)
    requires DistinctIdents(rs) && AllAccepted(Limited(PlanAll(rs, areas), limit))
    ensures var ps := Limited(PlanAll(rs, areas), limit);
            ImportOf(notes, rs, areas, true, limit).res == ImportOf(notes, rs, areas, false, limit).res <==>
            forall k :: 0 <= k < |ps| ==> !Diverges(notes, ps, k)
  {
    hide PlanAll, Limited, Run, Regular, Diverges, AllAccepted, RecSet;
    PlansRegular(rs, areas, limit);
    PlansAgree(notes, Limited(PlanAll(rs, areas), limit), RecSet(rs));
  }

  /** Every mirror to be landed names a note that is itself kept. */
  ghost predicate TargetsKept(rs: seq<Rec>) {
    forall i :: 0 <= i < |rs| && TargetOf(rs, i).Some? ==>
      exists j :: 0 <= j < |rs| && Survivor(rs, j) && rs[j] == TargetOf(rs, i).value
  }

  lemma {:induction false} EarlyFrom(notes: seq<Row>, ps: seq<Plan>, k: nat, t: Rec, n: string) returns (j: nat)
    requires k <= |ps| && n in Early(notes, ps, k, t)
    ensures j < k && Lands(notes, ps, j) && ps[j].action.target.ident != t.ident
    ensures ps[j].action.target.Sha() == t.Sha()
  {
    hide Lands, Sighted, Normalize, Rec.Sha;
    if n in Early(notes, ps, k - 1, t) {
      j := EarlyFrom(notes, ps, k - 1, t, n);
    } else {
      j := k - 1;
    }
  }

  lemma SurvivorsSame(rs: seq<Rec>, i: nat, j: nat)
    requires i < |rs| && j < |rs| && Survivor(rs, i) && Survivor(rs, j) && rs[i].Sha() == rs[j].Sha()
    ensures i == j
  {
    hide Survivor, Rec.Sha;
    if i < j {
      SurvivorsDiffer(rs, i, j);
    } else if j < i {
      SurvivorsDiffer(rs, j, i);
    }
  }

  /** Where the target of a landing mirror stands among the kept units. */
  lemma KeptTarget(rs: seq<Rec>, areas: map<string, nat>, i: nat) returns (j: nat)
    requires DistinctIdents(rs) && TargetsKept(rs) && i < |rs| && PlanAll(rs, areas)[i].action.Append?
    ensures j < |rs| && Survivor(rs, j) && rs[j] == PlanAll(rs, areas)[i].action.target
    ensures PlanAll(rs, areas)[j].action.Create?
  {
    hide PlanAll, TargetOf, Survivor, IsMirror, IsNote;
    PlanExact(rs, areas, i);
    TargetIsNote(rs, i);
    j :| 0 <= j < |rs| && Survivor(rs, j) && rs[j] == TargetOf(rs, i).value;
    PlanExact(rs, areas, j);
    if TargetOf(rs, j).Some? {
      TargetIsNote(rs, j);
      MirrorIsNoNote(rs[j]);
    }
  }

  lemma KeptTargetsNoTrap(notes: seq<Row>, rs: seq<Rec>, areas: map<string, nat>, ps: seq<Plan>, k: nat)
    requires DistinctIdents(rs) && TargetsKept(rs) && ps <= PlanAll(rs, areas) && k < |ps|
    ensures !TrapAt(notes, ps, k)
  {
    hide PlanAll, Survivor, TargetsKept, Rec.Sha, Falls, CreatesIdent, CreatesDigest, Known;
    if Falls(notes, ps, k) {
      FallsMeans(notes, ps, k);
      FallsUncreated(notes, ps, k);
      var j := KeptTarget(rs, areas, k);
      if MadeBefore(notes, ps, k, ps[k].action.target.Sha()) {
        var c := MadeBy(notes, ps, k, ps[k].action.target.Sha());
        PlanExact(rs, areas, c);
        SurvivorsSame(rs, c, j);
        CreatedHere(ps, c);
      }
    }
  }

  lemma FallsUncreated(notes: seq<Row>, ps: seq<Plan>, k: nat)
    requires k < |ps| && Falls(notes, ps, k)
    ensures !CreatesIdent(ps, |ps|, ps[k].action.target.ident)
  {
    hide Known, CreatesIdent;
  }

  lemma CreatedHere(ps: seq<Plan>, c: nat)
    requires c < |ps| && ps[c].action.Create?
    ensures CreatesIdent(ps, |ps|, ps[c].rec.ident)
  {
  }

  lemma MadeBy(notes: seq<Row>, ps: seq<Plan>, k: nat, d: Digest) returns (c: nat)
    requires k <= |ps| && MadeBefore(notes, ps, k, d)
    ensures c < |ps| && Kept(ps[c]) && ps[c].rec.Sha() == d
  {
    hide Rec.Sha, Known, CreatesIdent;
    if CreatesDigest(ps, |ps|, d) {
      c :| 0 <= c < |ps| && ps[c].action.Create? && ps[c].rec.Sha() == d;
    } else {
      c :| 0 <= c < k && Falls(notes, ps, c) && ps[c].rec.Sha() == d;
    }
  }

  lemma KeptTargetsNotShared(notes: seq<Row>, rs: seq<Rec>, areas: map<string, nat>, ps: seq<Plan>, k: nat)
    requires DistinctIdents(rs) && TargetsKept(rs) && ps <= PlanAll(rs, areas) && k < |ps|
    ensures !SharedAt(notes, ps, k)
  {
    hide PlanAll, Survivor, TargetsKept, Rec.Sha, Falls, Known, Early, Base, Mine, Normalize;
    if SharedAt(notes, ps, k) {
      var j := EarlyFrom(notes, ps, k, ps[k].action.target, Said(ps, k));
      var a := KeptTarget(rs, areas, k);
      var b := KeptTarget(rs, areas, j);
      SurvivorsSame(rs, a, b);
    }
  }

  /** When every mirror names a kept note, a dry run of any slice of the dump over any library tells the truth. */
  lemma DryRunAgreesWhenTargetsKept(notes: seq<Row>, rs: seq<Rec>, areas: map<string, nat>, limit: Option<int>)
    requires DistinctIdents(rs) && TargetsKept(rs) && AllAccepted(Limited(PlanAll(rs, areas), limit))
    ensures ImportOf(notes, rs, areas, true, limit).res == ImportOf(notes, rs, areas, false, limit).res
  {
    hide PlanAll, Limited, ImportOf, AllAccepted, TargetsKept, TrapAt, SharedAt;
    var ps := Limited(PlanAll(rs, areas), limit);
    forall k | 0 <= k < |ps| ensures !Diverges(notes, ps, k) {
      KeptTargetsNoTrap(notes, rs, areas, ps, k);
      KeptTargetsNotShared(notes, rs, areas, ps, k);
    }
    DryRunAgrees(notes, rs, areas, limit);
  }
}
