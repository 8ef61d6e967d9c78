// What a real import run leaves behind: nothing is lost, and running it again
// changes nothing.

module ImportTwice {
  import opened Text
  import opened NoteLibrary
  import opened Classify
  import opened ImportPlan
  import opened Importer
  import opened ImportTexts

  /** Every unit a plan speaks of is in `all`. */
  predicate Within(p: Plan, all: set<Rec>) {
    p.rec in all && (p.action.Append? ==> p.action.target in all)
  }

  predicate AllWithin(ps: seq<Plan>, all: set<Rec>) {
    forall i :: 0 <= i < |ps| ==> Within(ps[i], all)
  }

  /** An ident names one unit. */
  predicate Named(all: set<Rec>) {
    forall a, b :: a in all && b in all && a.ident == b.ident ==> a == b
  }

  function NoteOf(notes: seq<Row>, r: Rec): (id: nat)
    ensures id <= |notes|
  {
    FindHash(notes, r.Sha())
  }

  /** What a run keeps: a unit's note is the one with its digest, and cached entries are really there. */
  predicate Sound(w: Work, all: set<Rec>) {
    && (forall r :: r in all && r.ident in w.ids ==>
          NoteOf(w.notes, r) > 0 && w.ids[r.ident] == Real(NoteOf(w.notes, r)))
    && (forall r :: r in all && r.ident in w.seen ==> w.seen[r.ident] <= Bodies(w.notes, NoteOf(w.notes, r)))
  }

  /** Notes stay where they are and as they are, and only gain entries. */
  predicate Grows(a: seq<Row>, b: seq<Row>) {
    |a| <= |b| && forall i :: 0 <= i < |a| ==> Gained(a[i], b[i])
  }

  predicate Gained(was: Row, now: Row) {
    now == was.(entries := now.entries) && was.entries <= now.entries
  }

  lemma GrowsFind(a: seq<Row>, b: seq<Row>, r: Rec)
    requires Grows(a, b) && NoteOf(a, r) > 0
    ensures NoteOf(b, r) == NoteOf(a, r)
  {
    hide Rec.Sha;
    var x, y := NoteOf(a, r), NoteOf(b, r);
    assert forall i :: 0 <= i < x ==> Gained(a[i], b[i]);
  }

  lemma GrowsBodies(a: seq<Row>, b: seq<Row>, id: nat)
    requires Grows(a, b)
    ensures Bodies(a, id) <= Bodies(b, id)
  {
    hide Normalize;
    if 1 <= id <= |a| {
      assert Gained(a[id - 1], b[id - 1]);
    }
  }

  /** The plan's unit has its note, or its text is on the note of its target. */
  predicate Settled(notes: seq<Row>, p: Plan) {
    match p.action
    case Skip => true
    case Hold => true
    case Create(_) => NoteOf(notes, p.rec) > 0
    case Append(t, _) => NoteOf(notes, p.rec) > 0 ||
                         (NoteOf(notes, t) > 0 && Normalize(p.rec.body) in Bodies(notes, NoteOf(notes, t)))
  }

  lemma GrowsSettled(a: seq<Row>, b: seq<Row>, p: Plan)
    requires Grows(a, b) && Settled(a, p)
    ensures Settled(b, p)
  {
    hide NoteOf, Bodies, Normalize, Grows;
    if NoteOf(a, p.rec) > 0 {
      GrowsFind(a, b, p.rec);
    }
    if p.action.Append? && NoteOf(a, p.action.target) > 0 {
      GrowsFind(a, b, p.action.target);
      GrowsBodies(a, b, NoteOf(a, p.action.target));
    }
  }

  lemma SoundGrows(w: Work, v: Work, all: set<Rec>)
    requires Sound(w, all) && Grows(w.notes, v.notes) && v.ids == w.ids && v.seen == w.seen
    ensures Sound(v, all)
  {
    hide NoteOf, Bodies, Grows;
    forall r | r in all && NoteOf(w.notes, r) > 0
      ensures NoteOf(v.notes, r) == NoteOf(w.notes, r)
          && Bodies(w.notes, NoteOf(w.notes, r)) <= Bodies(v.notes, NoteOf(v.notes, r))
    {
      GrowsFind(w.notes, v.notes, r);
      GrowsBodies(w.notes, v.notes, NoteOf(w.notes, r));
    }
    forall r | r in all && r.ident in v.seen ensures v.seen[r.ident] <= Bodies(v.notes, NoteOf(v.notes, r)) {
      if NoteOf(w.notes, r) == 0 {
        NoBodies(w.notes);
      }
    }
  }

  lemma NoBodies(notes: seq<Row>)
    ensures Bodies(notes, 0) == {}
  {
  }

  /** Naming a unit's own note keeps a run sound. */
  lemma SoundNamed(w: Work, r: Rec, id: nat, all: set<Rec>)
    requires Sound(w, all) && Named(all) && r in all && id == NoteOf(w.notes, r) > 0
    ensures Sound(w.(ids := w.ids[r.ident := Real(id)]), all)
  {
    hide NoteOf, Bodies;
  }

  lemma AppendedRow(notes: seq<Row>, row: Row, r: Rec)
    requires row.hash == Some(r.Sha()) && NoteOf(notes, r) == 0
    ensures NoteOf(notes + [row], r) == |notes| + 1
  {
    hide Rec.Sha;
    assert (notes + [row])[|notes|].hash == Some(r.Sha());
    assert forall i :: 0 <= i < |notes| ==> (notes + [row])[i] == notes[i];
  }

  /** A step of a real run that records no error is sound, only adds, and settles its plan. */
  predicate GoodStep(w: Work, v: Work, p: Plan, all: set<Rec>) {
    v.res.errors == w.res.errors ==> Sound(v, all) && Grows(w.notes, v.notes) && Settled(v.notes, p)
  }

  lemma GrowsRow(notes: seq<Row>, row: Row)
    ensures Grows(notes, notes + [row])
  {
    assert forall i :: 0 <= i < |notes| ==> (notes + [row])[i] == notes[i];
  }

  /** Filing a unit as a note of its own. */
  lemma CreateNewGood(w: Work, r: Rec, f: Filing, all: set<Rec>)
    requires Sound(w, all) && Named(all) && r in all && NoteOf(w.notes, r) == 0
    ensures var v := CreateNew(w, r, f);
            && Sound(v, all) && Grows(w.notes, v.notes) && w.res.errors <= v.res.errors
            && (v.res.errors == w.res.errors ==> NoteOf(v.notes, r) > 0)
  {
    var v := CreateNew(w, r, f);
    if Creatable(RowOf(r, f)) {
      var row := Stored(RowOf(r, f));
      assert row.hash == Some(r.Sha());
      hide Creatable, Stored, RowOf, Rec.Sha, NoteOf;
      AppendedRow(w.notes, row, r);
      GrowsRow(w.notes, row);
      hide Grows, Sound;
      var u := Work(v.notes, v.res, w.ids, w.seen);
      SoundGrows(w, u, all);
      SoundNamed(u, r, |w.notes| + 1, all);
    } else {
      hide Creatable, RowOf, Rec.Sha, NoteOf;
      SoundGrows(w, v, all);
    }
  }

  lemma FirstStepGood(w: Work, p: Plan, all: set<Rec>)
    requires Sound(w, all) && Named(all) && Within(p, all) && !p.action.Append?
    ensures GoodStep(w, FirstStep(w, p, false), p, all)
  {
    hide Sound, CreateNew, Rec.Sha;
    var v := FirstStep(w, p, false);
    if p.action.Create? {
      if NoteOf(w.notes, p.rec) > 0 {
        SoundNamed(w, p.rec, NoteOf(w.notes, p.rec), all);
        SoundGrows(w.(ids := v.ids), v, all);
      } else {
        CreateNewGood(w, p.rec, p.action.filing, all);
      }
    } else {
      SoundGrows(w, v, all);
    }
  }

  /** In a real run the slot of a target is its note, found by digest. */
  lemma SoundSlot(w: Work, t: Rec, all: set<Rec>)
    requires Sound(w, all) && t in all
    ensures TargetSlot(w, t) == if NoteOf(w.notes, t) > 0 then Some(Real(NoteOf(w.notes, t))) else None
    ensures NoteOf(w.notes, t) > 0 ==> ViewOf(w, t) <= Bodies(w.notes, NoteOf(w.notes, t))
  {
    hide FindHash, Rec.Sha, Bodies;
  }

  lemma AddEntryGood(notes: seq<Row>, id: nat, text: string)
    requires 1 <= id <= |notes|
    ensures var after := AddEntry(notes, id, text);
            && Grows(notes, after) && |after| == |notes|
            && (forall i :: i != id ==> Bodies(after, i) == Bodies(notes, i))
            && Bodies(after, id) == Bodies(notes, id) + {Normalize(text)}
  {
    NormalizeOfStripped(text);
    hide Normalize, Strip;
    var after, was, now := AddEntry(notes, id, text), notes[id - 1].entries, AddEntry(notes, id, text)[id - 1].entries;
    assert now == was + [StoredEntry(None, Strip(text, Spaces))];
    forall n ensures n in Bodies(after, id) <==> n in Bodies(notes, id) || n == Normalize(text) {
      if n in Bodies(notes, id) {
        var e :| e in was && Normalize(e.text) == n;
        assert e in now;
      }
      assert now[|was|] in now;
    }
  }

  /** Caching what is really on the target keeps a run sound. */
  lemma SoundSeen(w: Work, t: Rec, view: set<string>, all: set<Rec>)
    requires Sound(w, all) && Named(all) && t in all && view <= Bodies(w.notes, NoteOf(w.notes, t))
    ensures Sound(w.(seen := w.seen[t.ident := view]), all)
  {
    hide NoteOf, Bodies;
  }

  lemma LandGood(w: Work, p: Plan, all: set<Rec>)
    requires Sound(w, all) && Named(all) && Within(p, all) && p.action.Append?
    requires NoteOf(w.notes, p.action.target) > 0
    ensures GoodStep(w, Land(w, p.rec, p.action.target, Real(NoteOf(w.notes, p.action.target)), false), p, all)
  {
    hide Sound, NoteOf, Bodies, Normalize, Rec.Sha, ViewOf, Blank, Named, TargetSlot, Grows, AddEntry;
    var r, t := p.rec, p.action.target;
    var id, n := NoteOf(w.notes, t), Normalize(r.body);
    var v := Land(w, r, t, Real(id), false);
    SoundSlot(w, t, all);
    var view := ViewOf(w, t);
    GrowsItself(v.notes);
    if n in view {
      SoundSeen(w, t, view, all);
      SoundGrows(w.(seen := v.seen), v, all);
    } else if !Blank(r.body) {
      AddEntryGood(w.notes, id, r.body);
      var u := w.(notes := v.notes);
      SoundGrows(w, u, all);
      GrowsFind(w.notes, v.notes, t);
      SoundSeen(u, t, view + {n}, all);
      SoundGrows(u.(seen := v.seen), v, all);
    }
  }

  lemma AppendStepGood(w: Work, p: Plan, all: set<Rec>)
    requires Sound(w, all) && Named(all) && Within(p, all) && p.action.Append?
    ensures GoodStep(w, SecondStep(w, p, false), p, all)
  {
    var r, t := p.rec, p.action.target;
    SoundSlot(w, t, all);
    hide Sound, CreateNew, Land, TargetSlot, Rec.Sha;
    var v := SecondStep(w, p, false);
    if NoteOf(w.notes, r) > 0 {
      SoundNamed(w, r, NoteOf(w.notes, r), all);
      SoundGrows(w.(ids := v.ids), v, all);
    } else if NoteOf(w.notes, t) > 0 {
      LandGood(w, p, all);
    } else {
      var said := w.(res := w.res.(fallback := w.res.fallback + [r.ident]));
      SoundGrows(w, said, all);
      CreateNewGood(said, r, p.action.own, all);
    }
  }

  lemma GrowsTransitive(a: seq<Row>, b: seq<Row>, c: seq<Row>)
    requires Grows(a, b) && Grows(b, c)
    ensures Grows(a, c)
  {
    forall i | 0 <= i < |a| ensures Gained(a[i], c[i]) {
      assert Gained(a[i], b[i]) && Gained(b[i], c[i]);
    }
  }

  lemma ErrorsGrow(w: Work, p: Plan, dry: bool)
    ensures w.res.errors <= FirstStep(w, p, dry).res.errors
    ensures w.res.errors <= SecondStep(w, p, dry).res.errors
  {
    hide FindHash, Rec.Sha, TargetSlot, ViewOf, RowOf, Creatable, Stored, Normalize, Blank, AddEntry;
  }

  /** Settled plans stay settled, and one more joins them. */
  lemma SettledSoFar(a: seq<Row>, b: seq<Row>, ps: seq<Plan>, n: nat)
    requires Grows(a, b) && n <= |ps|
    ensures forall i :: 0 <= i < n && Settled(a, ps[i]) ==> Settled(b, ps[i])
  {
    hide Settled, Grows;
    forall i | 0 <= i < n && Settled(a, ps[i]) ensures Settled(b, ps[i]) {
      GrowsSettled(a, b, ps[i]);
    }
  }

  lemma GrowsItself(a: seq<Row>)
    ensures Grows(a, a)
  {
  }

  /** An error-free first pass settles every unit that is not a mirror. */
  lemma {:induction false} FirstPassGood(w: Work, ps: seq<Plan>, n: nat, all: set<Rec>)
    requires Sound(w, all) && Named(all) && AllWithin(ps, all) && n <= |ps|
    ensures var v := FirstPass(w, ps, n, false);
            && w.res.errors <= v.res.errors
            && (v.res.errors == w.res.errors ==>
                  && Sound(v, all) && Grows(w.notes, v.notes)
                  && forall i :: 0 <= i < n && !ps[i].action.Append? ==> Settled(v.notes, ps[i]))
  {
    hide Sound, Settled, Grows, Within, FirstStep;
    if n == 0 {
      GrowsItself(w.notes);
    } else {
      FirstPassGood(w, ps, n - 1, all);
      var u, p := FirstPass(w, ps, n - 1, false), ps[n - 1];
      var v := FirstStep(u, p, false);
      ErrorsGrow(u, p, false);
      if v.res.errors == w.res.errors {
        FirstStepStep(u, p, all);
        GrowsTransitive(w.notes, u.notes, v.notes);
        SettledSoFar(u.notes, v.notes, ps, n - 1);
      }
    }
  }

  lemma FirstStepStep(w: Work, p: Plan, all: set<Rec>)
    requires Sound(w, all) && Named(all) && Within(p, all) && FirstStep(w, p, false).res.errors == w.res.errors
    ensures var v := FirstStep(w, p, false);
            Sound(v, all) && Grows(w.notes, v.notes) && (!p.action.Append? ==> Settled(v.notes, p))
  {
    hide Sound, Settled, Grows, Within;
    if p.action.Append? {
      GrowsItself(w.notes);
    } else {
      FirstStepGood(w, p, all);
    }
  }

  lemma SecondStepStep(w: Work, p: Plan, all: set<Rec>)
    requires Sound(w, all) && Named(all) && Within(p, all) && SecondStep(w, p, false).res.errors == w.res.errors
    ensures var v := SecondStep(w, p, false);
            Sound(v, all) && Grows(w.notes, v.notes) && (p.action.Append? ==> Settled(v.notes, p))
  {
    hide Sound, Settled, Grows, Within;
    if p.action.Append? {
      AppendStepGood(w, p, all);
    } else {
      GrowsItself(w.notes);
    }
  }

  lemma {:induction false} SecondPassGood(w: Work, ps: seq<Plan>, n: nat, all: set<Rec>)
    requires Sound(w, all) && Named(all) && AllWithin(ps, all) && n <= |ps|
    ensures var v := SecondPass(w, ps, n, false);
            && w.res.errors <= v.res.errors
            && (v.res.errors == w.res.errors ==>
                  && Sound(v, all) && Grows(w.notes, v.notes)
                  && forall i :: 0 <= i < n && ps[i].action.Append? ==> Settled(v.notes, ps[i]))
  {
    hide Sound, Settled, Grows, Within, SecondStep;
    if n == 0 {
      GrowsItself(w.notes);
    } else {
      SecondPassGood(w, ps, n - 1, all);
      var u, p := SecondPass(w, ps, n - 1, false), ps[n - 1];
      var v := SecondStep(u, p, false);
      ErrorsGrow(u, p, false);
      if v.res.errors == w.res.errors {
        SecondStepStep(u, p, all);
        GrowsTransitive(w.notes, u.notes, v.notes);
        SettledSoFar(u.notes, v.notes, ps, n - 1);
      }
    }
  }

  predicate AllSettled(notes: seq<Row>, ps: seq<Plan>) {
    forall i :: 0 <= i < |ps| ==> Settled(notes, ps[i])
  }

  lemma StartSound(notes: seq<Row>, all: set<Rec>)
    ensures Sound(Start(notes), all)
  {
  }

  /** After a real run that reports no error every plan is settled, and no note was lost. */
  lemma RunSettles(notes: seq<Row>, ps: seq<Plan>, all: set<Rec>)
    requires Named(all) && AllWithin(ps, all) && Run(notes, ps, false).res.errors == []
    ensures AllSettled(Run(notes, ps, false).notes, ps) && Grows(notes, Run(notes, ps, false).notes)
  {
    var w := Half(notes, ps, false);
    StartSound(notes, all);
    FirstPassGood(Start(notes), ps, |ps|, all);
    NoErrorsHalfway(notes, ps);
    hide Sound, Settled, Grows, Within, FirstPass, SecondPass, AllWithin;
    SecondPassGood(w, ps, |ps|, all);
    SettledSoFar(w.notes, Run(notes, ps, false).notes, ps, |ps|);
    GrowsTransitive(notes, w.notes, Run(notes, ps, false).notes);
  }

  lemma {:induction false} SecondPassErrors(w: Work, ps: seq<Plan>, n: nat, dry: bool)
    requires n <= |ps|
    ensures w.res.errors <= SecondPass(w, ps, n, dry).res.errors
  {
    hide SecondStep;
    if n > 0 {
      SecondPassErrors(w, ps, n - 1, dry);
      ErrorsGrow(SecondPass(w, ps, n - 1, dry), ps[n - 1], dry);
    }
  }

  lemma NoErrorsHalfway(notes: seq<Row>, ps: seq<Plan>)
    requires Run(notes, ps, false).res.errors == []
    ensures Half(notes, ps, false).res.errors == []
  {
    hide SecondPass, FirstPass;
    SecondPassErrors(Half(notes, ps, false), ps, |ps|, false);
  }

  // -------------------------------------------------------------- a second run

  /** Nothing has been written, and the cached entries are exactly those on the notes. */
  predicate Quiet(w: Work, notes: seq<Row>, all: set<Rec>) {
    && w.notes == notes
    && w.res.created == [] && w.res.appended == [] && w.res.fallback == [] && w.res.errors == []
    && Sound(w, all)
    && forall r :: r in all && r.ident in w.seen ==> w.seen[r.ident] == Bodies(notes, NoteOf(notes, r))
  }

  lemma QuietNamed(w: Work, r: Rec, notes: seq<Row>, all: set<Rec>)
    requires Quiet(w, notes, all) && Named(all) && r in all && NoteOf(notes, r) > 0
    ensures Quiet(AlreadyThere(w, r.ident, NoteOf(notes, r)), notes, all)
  {
    SoundNamed(w, r, NoteOf(notes, r), all);
    hide Sound, NoteOf, Bodies;
    var u := w.(ids := w.ids[r.ident := Real(NoteOf(notes, r))]);
    var v := AlreadyThere(w, r.ident, NoteOf(notes, r));
    GrowsItself(notes);
    SoundGrows(u, v, all);
  }

  lemma QuietFirst(w: Work, p: Plan, dry: bool, notes: seq<Row>, all: set<Rec>)
    requires Quiet(w, notes, all) && Named(all) && Within(p, all) && Settled(notes, p)
    ensures Quiet(FirstStep(w, p, dry), notes, all)
  {
    hide CreateNew, Rec.Sha, Bodies;
    if p.action.Create? {
      QuietNamed(w, p.rec, notes, all);
    } else if p.action.Hold? {
      GrowsItself(notes);
      SoundGrows(w, FirstStep(w, p, dry), all);
    }
  }

  lemma QuietView(w: Work, t: Rec, notes: seq<Row>, all: set<Rec>)
    requires Quiet(w, notes, all) && t in all && NoteOf(notes, t) > 0
    ensures TargetSlot(w, t) == Some(Real(NoteOf(notes, t)))
    ensures ViewOf(w, t) == Bodies(notes, NoteOf(notes, t))
  {
    SoundSlot(w, t, all);
    hide Bodies, Rec.Sha, NoteOf, TargetSlot;
  }

  lemma QuietLand(w: Work, r: Rec, t: Rec, dry: bool, notes: seq<Row>, all: set<Rec>)
    requires Quiet(w, notes, all) && Named(all) && t in all && NoteOf(notes, t) > 0
    requires Normalize(r.body) in Bodies(notes, NoteOf(notes, t))
    ensures Quiet(Land(w, r, t, Real(NoteOf(notes, t)), dry), notes, all)
  {
    QuietView(w, t, notes, all);
    var view := ViewOf(w, t);
    var v := Land(w, r, t, Real(NoteOf(notes, t)), dry);
    SoundSeen(w, t, view, all);
    hide Sound, NoteOf, Bodies, Normalize, ViewOf;
    GrowsItself(notes);
    SoundGrows(w.(seen := w.seen[t.ident := view]), v, all);
  }

  lemma QuietSecond(w: Work, p: Plan, dry: bool, notes: seq<Row>, all: set<Rec>)
    requires Quiet(w, notes, all) && Named(all) && Within(p, all) && Settled(notes, p)
    ensures Quiet(SecondStep(w, p, dry), notes, all)
  {
    hide Quiet, Bodies, Normalize, Land, FallBack, Rec.Sha, TargetSlot;
    if p.action.Append? {
      assert w.notes == notes by { NotesOfQuiet(w, notes, all); }
      if NoteOf(notes, p.rec) > 0 {
        QuietNamed(w, p.rec, notes, all);
      } else {
        QuietView(w, p.action.target, notes, all);
        QuietLand(w, p.rec, p.action.target, dry, notes, all);
      }
    }
  }

  lemma NotesOfQuiet(w: Work, notes: seq<Row>, all: set<Rec>)
    requires Quiet(w, notes, all)
    ensures w.notes == notes
  {
  }

  lemma {:induction false} QuietFirstPass(w: Work, ps: seq<Plan>, n: nat, dry: bool, notes: seq<Row>, all: set<Rec>)
    requires Quiet(w, notes, all) && Named(all) && AllWithin(ps, all) && AllSettled(notes, ps) && n <= |ps|
    ensures Quiet(FirstPass(w, ps, n, dry), notes, all)
  {
    hide Quiet, Settled, Within, FirstStep;
    if n > 0 {
      QuietFirstPass(w, ps, n - 1, dry, notes, all);
      QuietFirst(FirstPass(w, ps, n - 1, dry), ps[n - 1], dry, notes, all);
    }
  }

  lemma {:induction false} QuietSecondPass(w: Work, ps: seq<Plan>, n: nat, dry: bool, notes: seq<Row>, all: set<Rec>)
    requires Quiet(w, notes, all) && Named(all) && AllWithin(ps, all) && AllSettled(notes, ps) && n <= |ps|
    ensures Quiet(SecondPass(w, ps, n, dry), notes, all)
  {
    hide Quiet, Settled, Within, SecondStep;
    if n > 0 {
      QuietSecondPass(w, ps, n - 1, dry, notes, all);
      QuietSecond(SecondPass(w, ps, n - 1, dry), ps[n - 1], dry, notes, all);
    }
  }

  /** A run over settled plans, real or dry, writes nothing and reports nothing new. */
  lemma SettledRunIsQuiet(notes: seq<Row>, ps: seq<Plan>, dry: bool, all: set<Rec>)
    requires Named(all) && AllWithin(ps, all) && AllSettled(notes, ps)
    ensures Quiet(Run(notes, ps, dry), notes, all)
  {
    StartSound(notes, all);
    assert Quiet(Start(notes), notes, all);
    hide Quiet, Settled, Within, FirstPass, SecondPass;
    QuietFirstPass(Start(notes), ps, |ps|, dry, notes, all);
    QuietSecondPass(Half(notes, ps, dry), ps, |ps|, dry, notes, all);
  }

  // --------------------------------------------------------------- whole dumps

  lemma TargetIsUnit(rs: seq<Rec>, i: nat)
    requires i < |rs| && TargetOf(rs, i).Some?
    ensures TargetOf(rs, i).value in RecSet(rs)
  {
    hide IsMirror;
  }

  lemma PlansWithin(rs: seq<Rec>, areas: map<string, nat>, limit: Option<int>)
    requires DistinctIdents(rs)
    ensures Named(RecSet(rs)) && AllWithin(Limited(PlanAll(rs, areas), limit), RecSet(rs))
  {
    hide PlanAll, TargetOf, Limited;
    var all, ps := RecSet(rs), PlanAll(rs, areas);
    forall a, b | a in all && b in all && a.ident == b.ident ensures a == b {
      var i :| 0 <= i < |rs| && rs[i] == a;
      var j :| 0 <= j < |rs| && rs[j] == b;
      if i < j {
        assert rs[i].ident != rs[j].ident;
      } else if j < i {
        assert rs[j].ident != rs[i].ident;
      }
    }
    forall i | 0 <= i < |ps| ensures Within(ps[i], all) {
      PlanExact(rs, areas, i);
      assert rs[i] in all;
      if TargetOf(rs, i).Some? {
        TargetIsUnit(rs, i);
      }
    }
  }

  // ------------------------------------------------------------- the new notes

  /** The row holds what the unit holds, whatever Thoughts it has gained. */
  ghost predicate HoldsUnit(row: Row, r: Rec) {
    && row.hash == Some(r.Sha()) && row.body == r.body && row.noteType == "note" && row.author == "import"
    && row.project == None
    && (Trimmed(r.title, Spaces) && Telling(r.title) && |r.title| <= 300 ==> row.title == r.title)
    && Distinct(row.tags) && forall t :: t in row.tags <==> exists u :: u in r.topics && t == Strip(u, Spaces)
  }

  /** It was made of the plan's unit, and filed as the plan, or its fallback, says. */
  ghost predicate MadeFrom(row: Row, p: Plan) {
    && HoldsUnit(row, p.rec)
    && match p.action
       case Create(f) => row.status == f.status && row.area == f.area
       case Append(_, own) => row.status == own.status && row.area == own.area
       case _ => false
  }

  ghost predicate MadeFromSome(row: Row, ps: seq<Plan>) {
    exists i :: 0 <= i < |ps| && MadeFrom(row, ps[i])
  }

  /** Every row past the first `n` was made of some plan. */
  ghost predicate AllMade(notes: seq<Row>, n: nat, ps: seq<Plan>) {
    forall j :: n <= j < |notes| ==> MadeFromSome(notes[j], ps)
  }

  lemma {:induction false} TagsStripped(tags: seq<string>)
    ensures forall t :: t in EncodeTags(tags) <==> exists u :: u in tags && t == Strip(u, Spaces)
    ensures Distinct(EncodeTags(tags))
  {
    hide Strip;
    if tags != [] {
      var n := |tags| - 1;
      TagsStripped(tags[..n]);
      assert tags == tags[..n] + [tags[n]];
    }
  }

  lemma GoodTitleKept(title: string, body: string, source: string)
    requires Trimmed(title, Spaces) && Telling(title) && |title| <= 300
    ensures Strip(CleanTitle(title, body, source), Spaces) == title
  {
    hide TitleFrom, SplitLines;
    StripOfTrimmed(title, Spaces);
  }

  /** What the store keeps of a unit that becomes a note. */
  lemma StoredHoldsUnit(r: Rec, f: Filing)
    ensures var row := Stored(RowOf(r, f)); HoldsUnit(row, r) && row.status == f.status && row.area == f.area
  {
    TagsStripped(r.topics);
    hide Strip, EncodeTags, CleanTitle, Telling, Rec.Sha;
    if Trimmed(r.title, Spaces) && Telling(r.title) && |r.title| <= 300 {
      GoodTitleKept(r.title, r.body, r.source);
    }
  }

  lemma GainedMade(was: Row, now: Row, p: Plan)
    requires Gained(was, now) && MadeFrom(was, p)
    ensures MadeFrom(now, p)
  {
    hide Strip, Telling, Rec.Sha;
  }

  /** A step adds at most one row, made of its plan, and Thoughts. */
  predicate Step(a: seq<Row>, b: seq<Row>, row: Row) {
    Grows(a, b) && (|b| == |a| || (|b| == |a| + 1 && b[|a|] == row))
  }

  lemma MadeStep(a: seq<Row>, b: seq<Row>, row: Row, n: nat, ps: seq<Plan>, i: nat)
    requires AllMade(a, n, ps) && n <= |a| && i < |ps| && Step(a, b, row)
    requires |b| > |a| ==> MadeFrom(row, ps[i])
    ensures AllMade(b, n, ps) && n <= |b|
  {
    hide MadeFrom;
    forall j | n <= j < |b| ensures MadeFromSome(b[j], ps) {
      if j < |a| {
        var k :| 0 <= k < |ps| && MadeFrom(a[j], ps[k]);
        assert Gained(a[j], b[j]);
        GainedMade(a[j], b[j], ps[k]);
      } else {
        assert b[j] == row;
      }
    }
  }

  lemma CreateNewSteps(w: Work, r: Rec, f: Filing)
    ensures Step(w.notes, CreateNew(w, r, f).notes, Stored(RowOf(r, f)))
  {
    hide Creatable, Stored, RowOf;
    GrowsRow(w.notes, Stored(RowOf(r, f)));
    GrowsItself(w.notes);
  }

  lemma FirstStepMade(w: Work, ps: seq<Plan>, i: nat, dry: bool, n: nat)
    requires i < |ps| && n <= |w.notes| && AllMade(w.notes, n, ps)
    ensures n <= |FirstStep(w, ps[i], dry).notes| && AllMade(FirstStep(w, ps[i], dry).notes, n, ps)
  {
    hide AllMade, HoldsUnit, CreateNew, Stored, RowOf, Rec.Sha, FindHash, Grows;
    var p := ps[i];
    if p.action.Create? {
      CreateNewSteps(w, p.rec, p.action.filing);
      StoredHoldsUnit(p.rec, p.action.filing);
      GrowsItself(w.notes);
      MadeStep(w.notes, FirstStep(w, p, dry).notes, Stored(RowOf(p.rec, p.action.filing)), n, ps, i);
    }
  }

  lemma SecondStepMade(w: Work, ps: seq<Plan>, i: nat, dry: bool, n: nat)
    requires i < |ps| && n <= |w.notes| && AllMade(w.notes, n, ps)
    ensures n <= |SecondStep(w, ps[i], dry).notes| && AllMade(SecondStep(w, ps[i], dry).notes, n, ps)
  {
    hide AllMade, HoldsUnit, CreateNew, Stored, RowOf, Rec.Sha, FindHash, Grows, TargetSlot, ViewOf, AddEntry;
    hide Normalize, Blank;
    var p := ps[i];
    if p.action.Append? {
      var said := w.(res := w.res.(fallback := w.res.fallback + [p.rec.ident]));
      CreateNewSteps(said, p.rec, p.action.own);
      StoredHoldsUnit(p.rec, p.action.own);
      GrowsItself(w.notes);
      LandSteps(w, p.rec, p.action.target, dry, Stored(RowOf(p.rec, p.action.own)));
      MadeStep(w.notes, SecondStep(w, p, dry).notes, Stored(RowOf(p.rec, p.action.own)), n, ps, i);
    }
  }

  lemma LandSteps(w: Work, r: Rec, t: Rec, dry: bool, row: Row)
    ensures TargetSlot(w, t).Some? ==> Step(w.notes, Land(w, r, t, TargetSlot(w, t).value, dry).notes, row)
  {
    hide Normalize, ViewOf, Bodies, Grows, Blank, TargetSlot, AddEntry;
    GrowsItself(w.notes);
    var slot := TargetSlot(w, t);
    if slot.Some? && slot.value.Real? && 1 <= slot.value.id <= |w.notes| {
      AddEntryGood(w.notes, slot.value.id, r.body);
    }
  }

  lemma {:induction false} FirstPassMade(w: Work, ps: seq<Plan>, k: nat, dry: bool, n: nat)
    requires k <= |ps| && n <= |w.notes| && AllMade(w.notes, n, ps)
    ensures n <= |FirstPass(w, ps, k, dry).notes| && AllMade(FirstPass(w, ps, k, dry).notes, n, ps)
  {
    hide AllMade, FirstStep;
    if k > 0 {
      FirstPassMade(w, ps, k - 1, dry, n);
      FirstStepMade(FirstPass(w, ps, k - 1, dry), ps, k - 1, dry, n);
    }
  }

  lemma {:induction false} SecondPassMade(w: Work, ps: seq<Plan>, k: nat, dry: bool, n: nat)
    requires k <= |ps| && n <= |w.notes| && AllMade(w.notes, n, ps)
    ensures n <= |SecondPass(w, ps, k, dry).notes| && AllMade(SecondPass(w, ps, k, dry).notes, n, ps)
  {
    hide AllMade, SecondStep;
    if k > 0 {
      SecondPassMade(w, ps, k - 1, dry, n);
      SecondStepMade(SecondPass(w, ps, k - 1, dry), ps, k - 1, dry, n);
    }
  }

  lemma MadeOfMore(notes: seq<Row>, n: nat, ps: seq<Plan>, all: seq<Plan>)
    requires AllMade(notes, n, ps) && ps <= all
    ensures AllMade(notes, n, all)
  {
    hide MadeFrom;
    forall j | n <= j < |notes| ensures MadeFromSome(notes[j], all) {
      var i :| 0 <= i < |ps| && MadeFrom(notes[j], ps[i]);
      assert all[i] == ps[i];
    }
  }

  lemma RunMade(notes: seq<Row>, ps: seq<Plan>, dry: bool)
    ensures AllMade(Run(notes, ps, dry).notes, |notes|, ps)
  {
    hide FirstPass, SecondPass, MadeFrom;
    FirstPassMade(Start(notes), ps, |ps|, dry, |notes|);
    SecondPassMade(Half(notes, ps, dry), ps, |ps|, dry, |notes|);
  }

  /**
   * Every note an import makes, with errors or without, is that of a unit of the dump: its text,
   * its title, its tags, filed as its plan says, or as its fallback does.
   */
  lemma NewNotesHoldTheirUnits(notes: seq<Row>, rs: seq<Rec>, areas: map<string, nat>, dry: bool, limit: Option<int>)
    ensures AllMade(ImportOf(notes, rs, areas, dry, limit).notes, |notes|, PlanAll(rs, areas))
  {
    hide PlanAll, Run, AllMade;
    var ps := Limited(PlanAll(rs, areas), limit);
    RunMade(notes, ps, dry);
    MadeOfMore(Run(notes, ps, dry).notes, |notes|, ps, PlanAll(rs, areas));
  }

  /** A second import of the same dump, after one without errors, creates and appends nothing. */
  lemma ImportTwiceIsQuiet(
      notes: seq<Row>, rs: seq<Rec>, areas: map<string, nat>, limit: Option<int>, dry: bool)
    requires DistinctIdents(rs)
    requires ImportOf(notes, rs, areas, false, limit).res.errors == []
    ensures var first := ImportOf(notes, rs, areas, false, limit);
            var second := ImportOf(first.notes, rs, areas, dry, limit);
            && second.notes == first.notes
            && second.res.created == [] && second.res.appended == []
            && second.res.fallback == [] && second.res.errors == []
  {
    var all, ps := RecSet(rs), Limited(PlanAll(rs, areas), limit);
    PlansWithin(rs, areas, limit);
    hide PlanAll, Limited, Run, RecSet, Sound, Bodies, AllWithin, AllSettled, Grows, Named;
    RunSettles(notes, ps, all);
    SettledRunIsQuiet(Run(notes, ps, false).notes, ps, dry, all);
  }

  lemma {:induction false} HeldReported(w: Work, ps: seq<Plan>, n: nat, dry: bool, i: nat)
    requires i < n <= |ps| && ps[i].action.Hold?
    ensures ps[i].rec.ident in FirstPass(w, ps, n, dry).res.quarantined
  {
    hide CreateStep;
    var u, p := FirstPass(w, ps, n - 1, dry), ps[n - 1];
    if i < n - 1 {
      HeldReported(w, ps, n - 1, dry, i);
    }
    FirstKeepsQuarantined(u, p, dry);
  }

  lemma FirstKeepsQuarantined(w: Work, p: Plan, dry: bool)
    ensures w.res.quarantined <= FirstStep(w, p, dry).res.quarantined
    ensures w.res.quarantined <= SecondStep(w, p, dry).res.quarantined
  {
    hide FindHash, Rec.Sha, TargetSlot, ViewOf, RowOf, Creatable, Stored, Normalize, Blank, AddEntry;
  }

  lemma {:induction false} SecondKeepsQuarantined(w: Work, ps: seq<Plan>, n: nat, dry: bool)
    requires n <= |ps|
    ensures w.res.quarantined <= SecondPass(w, ps, n, dry).res.quarantined
  {
    hide SecondStep;
    if n > 0 {
      SecondKeepsQuarantined(w, ps, n - 1, dry);
      FirstKeepsQuarantined(SecondPass(w, ps, n - 1, dry), ps[n - 1], dry);
    }
  }

  /** There is a note of the unit's digest; one made since there were `was` notes has its text. */
  predicate HasNoteOf(was: nat, notes: seq<Row>, r: Rec) {
    && NoteOf(notes, r) > 0
    && (NoteOf(notes, r) > was ==> Normalize(notes[NoteOf(notes, r) - 1].body) == Normalize(r.body))
  }

  /**
   * The text of `r` is in the library: its own note, or a Thought on the note that mirror `k` of
   * equal digest names.
   */
  predicate Carried(was: nat, notes: seq<Row>, rs: seq<Rec>, r: Rec, k: int)
    requires 0 <= k < |rs|
  {
    && rs[k].Sha() == r.Sha()
    && (HasNoteOf(was, notes, r) ||
        (TargetOf(rs, k).Some? && NoteOf(notes, TargetOf(rs, k).value) > 0 &&
         Normalize(r.body) in Bodies(notes, NoteOf(notes, TargetOf(rs, k).value))))
  }

  /** After an error-free unlimited real run every unit is held and reported, provably empty, or carried. */
  lemma NothingLost(notes: seq<Row>, rs: seq<Rec>, areas: map<string, nat>, i: nat)
    requires DistinctIdents(rs) && i < |rs|
    requires ImportOf(notes, rs, areas, false, None).res.errors == []
    ensures var w := ImportOf(notes, rs, areas, false, None);
            || (rs[i].Held() && rs[i].ident in w.res.quarantined)
            || rs[i].IsEmpty()
            || exists k :: 0 <= k < |rs| && Survivor(rs, k) && Carried(|notes|, w.notes, rs, rs[i], k)
  {
    var all, ps := RecSet(rs), PlanAll(rs, areas);
    var w := Run(notes, ps, false);
    PlansWithin(rs, areas, None);
    if rs[i].Held() {
      PlanExact(rs, areas, i);
      HeldReported(Start(notes), ps, |ps|, false, i);
      SecondKeepsQuarantined(Half(notes, ps, false), ps, |ps|, false);
    } else if !rs[i].IsEmpty() {
      var k := KeeperExists(rs, i);
      hide PlanAll, Run, RecSet, AllWithin, Survivor, Named;
      RunSettles(notes, ps, all);
      NewNotesHoldTheirUnits(notes, rs, areas, false, None);
      SettledCarries(rs, areas, i, k, |notes|, w.notes, notes);
    }
  }

  /** The digest of a new note tells its text. */
  lemma NewNoteHasText(notes: seq<Row>, now: seq<Row>, ps: seq<Plan>, r: Rec)
    requires AllMade(now, |notes|, ps) && NoteOf(now, r) > 0
    ensures HasNoteOf(|notes|, now, r)
  {
    hide Normalize;
    var j := NoteOf(now, r) - 1;
    if j >= |notes| {
      var i :| 0 <= i < |ps| && MadeFrom(now[j], ps[i]);
      assert ps[i].rec.Sha() == r.Sha();
    }
  }

  lemma SettledCarries(
      rs: seq<Rec>, areas: map<string, nat>, i: nat, k: nat, was: nat, notes: seq<Row>, before: seq<Row>)
    requires was == |before| && AllMade(notes, was, PlanAll(rs, areas))
    requires DistinctIdents(rs) && i < |rs| && k < |rs| && Survivor(rs, k) && rs[k].Sha() == rs[i].Sha()
    requires Settled(notes, PlanAll(rs, areas)[k])
    ensures Carried(was, notes, rs, rs[i], k)
  {
    PlanExact(rs, areas, k);
    assert Normalize(rs[k].body) == Normalize(rs[i].body);
    if NoteOf(notes, rs[i]) > 0 {
      NewNoteHasText(before, notes, PlanAll(rs, areas), rs[i]);
    }
    hide PlanAll, Survivor, TargetOf, Rec.Sha, Bodies, Normalize;
  }
}
