// backend/notes_import.py: carrying out the plans of one dump, in two passes
// over the note library, for real or as a dry run that writes nothing.

module Importer {
  import opened Text
  import opened NoteLibrary
  import opened Classify
  import opened ImportPlan

  /** The note a unit became: a row, or the row a dry run would have made. */
  datatype Slot = Real(id: nat) | Planned

  /** Units are named by their idents; `created` also tells the status, `appended` the target. */
  datatype Report = Report(
    created: seq<(string, string)>, quarantined: seq<string>, already: nat,
    appended: seq<(string, string)>, appendedAlready: nat, fallback: seq<string>, errors: seq<string>)

  const BLANK_REPORT := Report([], [], 0, [], 0, [], [])

  /** The library's notes, the report so far, unit to note, and target to the entries known on it. */
  datatype Work = Work(notes: seq<Row>, res: Report, ids: map<string, Slot>, seen: map<string, set<string>>)

  function Start(notes: seq<Row>): Work {
    Work(notes, BLANK_REPORT, map[], map[])
  }

  /** The normalised Thoughts of a note. */
  function Bodies(notes: seq<Row>, id: nat): set<string> {
    if 1 <= id <= |notes| then set e | e in notes[id - 1].entries :: Normalize(e.text) else {}
  }

  function CreateNew(w: Work, r: Rec, f: Filing): Work {
    if !Creatable(RowOf(r, f)) then w.(res := w.res.(errors := w.res.errors + [r.ident]))
    else Work(w.notes + [Stored(RowOf(r, f))],
              w.res.(created := w.res.created + [(r.ident, f.status)]),
              w.ids[r.ident := Real(|w.notes| + 1)], w.seen)
  }

  function AlreadyThere(w: Work, ident: string, id: nat): Work {
    w.(res := w.res.(already := w.res.already + 1), ids := w.ids[ident := Real(id)])
  }

  function CreateStep(w: Work, r: Rec, f: Filing, dry: bool): Work {
    var found := FindHash(w.notes, r.Sha());
    if found > 0 then AlreadyThere(w, r.ident, found)
    else if dry then w.(res := w.res.(created := w.res.created + [(r.ident, f.status)]),
                        ids := w.ids[r.ident := Planned])
    else CreateNew(w, r, f)
  }

  /** The first pass: holds and creates. */
  function FirstStep(w: Work, p: Plan, dry: bool): Work {
    match p.action
    case Skip => w
    case Append(_, _) => w
    case Hold => w.(res := w.res.(quarantined := w.res.quarantined + [p.rec.ident]))
    case Create(f) => CreateStep(w, p.rec, f, dry)
  }

  /** The note a mirror belongs on: from this run, or from an earlier one. */
  function TargetSlot(w: Work, target: Rec): Option<Slot> {
    if target.ident in w.ids then Some(w.ids[target.ident])
    else if FindHash(w.notes, target.Sha()) > 0 then Some(Real(FindHash(w.notes, target.Sha())))
    else None
  }

  /** The entries known on a mirror's target: read once per target, then kept up to date. */
  function ViewOf(w: Work, target: Rec): set<string> {
    if target.ident in w.seen then w.seen[target.ident]
    else
      var slot := TargetSlot(w, target);
      if slot.Some? && slot.value.Real? then Bodies(w.notes, slot.value.id) else {}
  }

  /** A mirror whose target has no note is filed as a note of its own. */
  function FallBack(w: Work, r: Rec, own: Filing, dry: bool): Work {
    var said := w.(res := w.res.(fallback := w.res.fallback + [r.ident]));
    if dry then said.(res := said.res.(created := said.res.created + [(r.ident, own.status)]))
    else CreateNew(said, r, own)
  }

  function AddEntry(notes: seq<Row>, id: nat, text: string): seq<Row>
    requires 1 <= id <= |notes|
  {
    notes[id - 1 := WithEntry(notes[id - 1], None, text)]
  }

  /** Add the mirror's text to its target unless it is known to be there. */
  function Land(w: Work, r: Rec, target: Rec, slot: Slot, dry: bool): Work {
    var view, n := ViewOf(w, target), Normalize(r.body);
    if n in view then
      w.(res := w.res.(appendedAlready := w.res.appendedAlready + 1), seen := w.seen[target.ident := view])
    else
      var noted := w.(seen := w.seen[target.ident := view + {n}]);
      var done := noted.(res := noted.res.(appended := noted.res.appended + [(r.ident, target.ident)]));
      if dry then done
      else if slot.Real? && 1 <= slot.id <= |w.notes| && !Blank(r.body)
      then done.(notes := AddEntry(w.notes, slot.id, r.body))
      else noted.(res := noted.res.(errors := noted.res.errors + [r.ident]))
  }

  function AppendStep(w: Work, r: Rec, target: Rec, own: Filing, dry: bool): Work {
    var found, slot := FindHash(w.notes, r.Sha()), TargetSlot(w, target);
    if found > 0 then AlreadyThere(w, r.ident, found)
    else if slot.None? then FallBack(w, r, own, dry)
    else Land(w, r, target, slot.value, dry)
  }

  /** The second pass: mirrors only. */
  function SecondStep(w: Work, p: Plan, dry: bool): Work {
    if p.action.Append? then AppendStep(w, p.rec, p.action.target, p.action.own, dry) else w
  }

  function FirstPass(w: Work, ps: seq<Plan>, n: nat, dry: bool): Work
    requires n <= |ps|
  {
    if n == 0 then w else FirstStep(FirstPass(w, ps, n - 1, dry), ps[n - 1], dry)
  }

  function SecondPass(w: Work, ps: seq<Plan>, n: nat, dry: bool): Work
    requires n <= |ps|
  {
    if n == 0 then w else SecondStep(SecondPass(w, ps, n - 1, dry), ps[n - 1], dry)
  }

  /** After the first pass. */
  function Half(notes: seq<Row>, ps: seq<Plan>, dry: bool): Work {
    FirstPass(Start(notes), ps, |ps|, dry)
  }

  function Run(notes: seq<Row>, ps: seq<Plan>, dry: bool): Work {
    SecondPass(Half(notes, ps, dry), ps, |ps|, dry)
  }

  /** `import_source` as a function of the library it finds. */
  function ImportOf(notes: seq<Row>, rs: seq<Rec>, areas: map<string, nat>, dry: bool, limit: Option<int>): Work {
    Run(notes, Limited(PlanAll(rs, areas), limit), dry)
  }

  // -------------------------------------------------------------- the program

  method Create(store: Store, w: Work, r: Rec, f: Filing) returns (v: Work)
    requires store.lib.notes == w.notes
    modifies store
    ensures v == CreateNew(w, r, f) && store.lib == old(store.lib).(notes := v.notes)
  {
    hide Creatable, Stored, RowOf;
    var id := store.CreateNote(RowOf(r, f));
    if id == 0 {
      v := w.(res := w.res.(errors := w.res.errors + [r.ident]));
    } else {
      v := Work(store.lib.notes, w.res.(created := w.res.created + [(r.ident, f.status)]),
                w.ids[r.ident := Real(id)], w.seen);
    }
  }

  method FirstPassStep(store: Store, w: Work, p: Plan, dry: bool) returns (v: Work)
    requires store.lib.notes == w.notes
    modifies store
    ensures v == FirstStep(w, p, dry) && store.lib == old(store.lib).(notes := v.notes)
  {
    hide FindHash, Rec.Sha, CreateNew;
    v := w;
    if p.action.Hold? {
      v := v.(res := v.res.(quarantined := v.res.quarantined + [p.rec.ident]));
    } else if p.action.Create? {
      var u, f := p.rec, p.action.filing;
      var existing := store.NoteByContentHash(u.Sha());
      assert existing == FindHash(w.notes, u.Sha());
      if existing > 0 {
        v := v.(res := v.res.(already := v.res.already + 1), ids := v.ids[u.ident := Real(existing)]);
      } else if dry {
        v := v.(res := v.res.(created := v.res.created + [(u.ident, f.status)]), ids := v.ids[u.ident := Planned]);
      } else {
        v := Create(store, v, u, f);
      }
    }
  }

  method TargetNoteId(store: Store, w: Work, target: Rec) returns (slot: Option<Slot>)
    requires store.lib.notes == w.notes
    ensures slot == TargetSlot(w, target)
  {
    hide FindHash, Rec.Sha;
    if target.ident in w.ids {
      return Some(w.ids[target.ident]);
    }
    var found := store.NoteByContentHash(target.Sha());
    slot := if found > 0 then Some(Real(found)) else None;
  }

  /** Put the mirror's text on the note `slot` stands for. */
  method LandOn(store: Store, w: Work, r: Rec, target: Rec, slot: Slot, dry: bool) returns (v: Work)
    requires store.lib.notes == w.notes
    modifies store
    ensures v == Land(w, r, target, slot, dry) && store.lib == old(store.lib).(notes := v.notes)
  {
    hide FindHash, Rec.Sha, Normalize, ViewOf, WithEntry, Blank;
    var bodies := ViewOf(w, target);
    var n := Normalize(r.body);
    if n in bodies {
      return w.(res := w.res.(appendedAlready := w.res.appendedAlready + 1), seen := w.seen[target.ident := bodies]);
    }
    v := w.(seen := w.seen[target.ident := bodies + {n}]);
    if !dry {
      var ok := false;
      if slot.Real? {
        ok := store.AddNoteEntry(slot.id, None, r.body);
      }
      if !ok {
        return v.(res := v.res.(errors := v.res.errors + [r.ident]));
      }
      v := v.(notes := store.lib.notes);
    }
    v := v.(res := v.res.(appended := v.res.appended + [(r.ident, target.ident)]));
  }

  method AppendMirror(store: Store, w: Work, p: Plan, dry: bool) returns (v: Work)
    requires store.lib.notes == w.notes
    modifies store
    ensures v == SecondStep(w, p, dry) && store.lib == old(store.lib).(notes := v.notes)
  {
    hide FindHash, Rec.Sha, CreateNew, TargetSlot, Land;
    v := w;
    if p.action.Append? {
      var u, target := p.rec, p.action.target;
      var own := store.NoteByContentHash(u.Sha());
      assert own == FindHash(w.notes, u.Sha());
      if own > 0 {
        return v.(res := v.res.(already := v.res.already + 1), ids := v.ids[u.ident := Real(own)]);
      }
      var slot := TargetNoteId(store, w, target);
      if slot.None? {
        v := v.(res := v.res.(fallback := v.res.fallback + [u.ident]));
        if dry {
          v := v.(res := v.res.(created := v.res.created + [(u.ident, p.action.own.status)]));
        } else {
          v := Create(store, v, u, p.action.own);
        }
      } else {
        v := LandOn(store, w, u, target, slot.value, dry);
      }
    }
  }

  /** `plan_all` over classified units. */
  method PlanUnits(units: seq<Unit>, areas: map<string, nat>) returns (ps: seq<Plan>)
    requires forall i :: 0 <= i < |units| ==> units[i].decision == Some(DecisionOf(Recs(units), i))
    ensures ps == PlanAll(Recs(units), areas)
  {
    hide PlanUnit, Pairs, DecisionOf;
    var rs := Recs(units);
    var pairs := FindMirrorPairs(rs);
    ps := [];
    for i := 0 to |units|
      invariant ps == PlanAll(rs, areas)[..i]
    {
      var u := units[i].rec;
      ps := ps + [PlanUnit(u, units[i].decision.value, areas, if u.ident in pairs then Some(pairs[u.ident]) else None)];
    }
  }

  /** `import_source`: the units of one dump in, the report out, the library changed only by a real run. */
  method ImportSource(store: Store, units: seq<Unit>, areas: map<string, nat>, dry: bool, limit: Option<int>)
    returns (res: Report)
    requires NoAlias(units)
    modifies store, units
    ensures var w := ImportOf(old(store.lib.notes), Recs(units), areas, dry, limit);
            res == w.res && store.lib == old(store.lib).(notes := w.notes)
  {
    hide PlanAll, Limited, FirstStep, SecondStep, DecisionOf;
    ClassifyUnits(units);
    var plans := PlanUnits(units, areas);
    var ps := Limited(plans, limit);
    var w := Start(store.lib.notes);
    for i := 0 to |ps|
      invariant w == FirstPass(Start(old(store.lib.notes)), ps, i, dry)
      invariant store.lib == old(store.lib).(notes := w.notes)
    {
      w := FirstPassStep(store, w, ps[i], dry);
    }
    for i := 0 to |ps|
      invariant w == SecondPass(Half(old(store.lib.notes), ps, dry), ps, i, dry)
      invariant store.lib == old(store.lib).(notes := w.notes)
    {
      w := AppendMirror(store, w, ps[i], dry);
    }
    res := w.res;
  }
}
