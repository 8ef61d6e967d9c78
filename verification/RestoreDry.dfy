// Whether a dry restore tells what the restore itself will do.

module RestoreDry {
  import opened Text
  import opened NotesExport
  import opened NoteReader
  import opened NoteLibrary
  import opened Restore
  import opened RestoreProps

  /** Plan `i` is not in the library, and the store refuses it or an earlier plan has its digest. */
  predicate Diverges(lib: Library, plans: seq<Plan>, i: nat)
    requires i < |plans|
  {
    FindHash(lib.notes, plans[i].digest) == 0 &&
    (!Creatable(plans[i].row) || exists j :: 0 <= j < i && plans[j].digest == plans[i].digest)
  }

  predicate NoneDiverges(lib: Library, plans: seq<Plan>) {
    forall i :: 0 <= i < |plans| ==> !Diverges(lib, plans, i)
  }

  /** Some plan has the digest. */
  predicate Carries(plans: seq<Plan>, d: Digest) {
    exists i :: 0 <= i < |plans| && plans[i].digest == d
  }

  /** The real run after `plans`: what it found is in the library or among them. */
  ghost predicate Holds(st: State, lib: Library, plans: seq<Plan>) {
    forall d :: FindHash(st.lib.notes, d) > 0 <==> FindHash(lib.notes, d) > 0 || Carries(plans, d)
  }

  ghost predicate Grown(st: State, lib: Library) {
    forall d :: FindHash(lib.notes, d) > 0 ==> FindHash(st.lib.notes, d) > 0
  }

  /** The same rows but for their Thoughts. */
  predicate SameHashes(a: seq<Row>, b: seq<Row>) {
    |a| == |b| && forall i :: 0 <= i < |a| ==> a[i].hash == b[i].hash
  }

  lemma SameHashesFound(a: seq<Row>, b: seq<Row>, d: Digest)
    requires SameHashes(a, b)
    ensures FindHash(a, d) == FindHash(b, d)
  {
  }

  lemma ThoughtKeeps(st: State, id: nat, t: Thought)
    requires st.lib.HasNote(id)
    ensures var r := AddThought(st, id, t);
            SameHashes(r.lib.notes, st.lib.notes) && r.res.created == st.res.created && r.res.already == st.res.already
  {
    hide Blank, Strip;
  }

  lemma {:induction false} ThoughtsKeep(st: State, id: nat, ts: seq<Thought>)
    requires st.lib.HasNote(id)
    ensures var r := AddThoughts(st, id, ts);
            SameHashes(r.lib.notes, st.lib.notes) && r.res.created == st.res.created && r.res.already == st.res.already
    decreases |ts|
  {
    hide AddThought;
    if ts != [] {
      var n := |ts| - 1;
      ThoughtsKeep(st, id, ts[..n]);
      ThoughtKeeps(AddThoughts(st, id, ts[..n]), id, ts[n]);
    }
  }

  lemma RowFound(notes: seq<Row>, row: Row, d: Digest)
    ensures FindHash(notes + [row], d) > 0 <==> FindHash(notes, d) > 0 || row.hash == Some(d)
  {
    var all := notes + [row];
    assert all[|notes|] == row && forall i :: 0 <= i < |notes| ==> all[i] == notes[i];
    if FindHash(notes, d) > 0 {
      assert all[FindHash(notes, d) - 1].hash == Some(d);
    }
  }

  /** The real run makes a note of the plan. */
  predicate Makes(st: State, p: Plan) {
    FindHash(st.lib.notes, p.digest) == 0 && Creatable(p.row)
  }

  /** One note of the real run: counted, made or refused; only a made one can be found afterwards. */
  predicate Stepped(st: State, r: State, p: Plan, d: Digest) {
    && r.res.created == st.res.created + (if Makes(st, p) then [p.name] else [])
    && r.res.already == st.res.already + (if FindHash(st.lib.notes, p.digest) > 0 then 1 else 0)
    && (FindHash(r.lib.notes, d) > 0 <==> FindHash(st.lib.notes, d) > 0 || (Makes(st, p) && p.digest == d))
  }

  lemma NoteStep(st: State, p: Plan, d: Digest)
    requires p.row.hash == Some(p.digest)
    ensures Stepped(st, RestoreNote(st, p), p, d)
  {
    hide FindHash, Creatable, AddThoughts, EncodeTags;
    if Makes(st, p) {
      var mid := Created(st, p);
      ThoughtsKeep(mid, |st.lib.notes| + 1, p.thoughts);
      SameHashesFound(RestoreNote(st, p).lib.notes, mid.lib.notes, d);
      RowFound(st.lib.notes, Stored(p.row), d);
    }
  }

  lemma CarriesNext(plans: seq<Plan>, n: nat, d: Digest)
    requires n < |plans|
    ensures Carries(plans[..n + 1], d) <==> Carries(plans[..n], d) || plans[n].digest == d
  {
    if plans[n].digest == d {
      assert plans[..n + 1][n].digest == d;
    }
    if Carries(plans[..n], d) {
      var i :| 0 <= i < n && plans[..n][i].digest == d;
      assert plans[..n + 1][i].digest == d;
    }
  }

  lemma DivergesCarries(lib: Library, plans: seq<Plan>, n: nat)
    requires n < |plans|
    ensures Diverges(lib, plans, n) <==>
            FindHash(lib.notes, plans[n].digest) == 0
                && (!Creatable(plans[n].row) || Carries(plans[..n], plans[n].digest))
  {
    hide FindHash, Creatable;
    assert forall j :: 0 <= j < n ==> plans[..n][j] == plans[j];
  }

  lemma NoneDivergesInit(lib: Library, plans: seq<Plan>)
    requires plans != []
    ensures var n := |plans| - 1; NoneDiverges(lib, plans) <==>
        NoneDiverges(lib, plans[..n]) && !Diverges(lib, plans, n)
  {
    var n := |plans| - 1;
    forall i | 0 <= i < n ensures Diverges(lib, plans[..n], i) <==> Diverges(lib, plans, i) {
      DivergesCarries(lib, plans, i);
      DivergesCarries(lib, plans[..n], i);
      assert plans[..n][..i] == plans[..i];
    }
  }

  /** One note later, what can be found is again in the library or among the plans, unless the plan diverged. */
  lemma HoldsStep(lib: Library, mid: State, r: State, plans: seq<Plan>, n: nat)
    requires n < |plans| && Grown(mid, lib) && forall d :: Stepped(mid, r, plans[n], d)
    ensures Grown(r, lib)
    ensures Holds(mid, lib, plans[..n]) && !Diverges(lib, plans, n) ==> Holds(r, lib, plans[..n + 1])
  {
    hide FindHash, Creatable, Carries;
    DivergesCarries(lib, plans, n);
    forall d
      ensures FindHash(mid.lib.notes, d) > 0 ==> FindHash(r.lib.notes, d) > 0
      ensures FindHash(r.lib.notes, d) > 0 <==>
                FindHash(mid.lib.notes, d) > 0 || (Makes(mid, plans[n]) && plans[n].digest == d)
      ensures Carries(plans[..n + 1], d) <==> Carries(plans[..n], d) || plans[n].digest == d
    {
      assert Stepped(mid, r, plans[n], d);
      CarriesNext(plans, n, d);
    }
  }

  /** The plan is counted alike by both kinds of run exactly when it does not diverge. */
  lemma MakesStep(lib: Library, mid: State, plans: seq<Plan>, n: nat)
    requires n < |plans| && Grown(mid, lib)
    ensures Makes(mid, plans[n]) ==> FindHash(lib.notes, plans[n].digest) == 0
    ensures Holds(mid, lib, plans[..n]) ==>
              (Diverges(lib, plans, n) <==> FindHash(lib.notes, plans[n].digest) == 0 && !Makes(mid, plans[n]))
    ensures Holds(mid, lib, plans[..n]) && FindHash(lib.notes, plans[n].digest) > 0 ==>
              FindHash(mid.lib.notes, plans[n].digest) > 0
  {
    hide FindHash, Creatable, Carries;
    DivergesCarries(lib, plans, n);
  }

  /** Step by step: equal reports as long as no plan diverges, fewer created notes ever after. */
  lemma {:induction false} DryStep(lib: Library, plans: seq<Plan>)
    requires AllHashed(plans)
    ensures var st, dry := RestoreNotes(State(lib, NOTHING), plans), DryNotes(lib, plans);
            && Grown(st, lib)
            && (if NoneDiverges(lib, plans)
                then Holds(st, lib, plans) && st.res.created == dry.created && st.res.already == dry.already
                else |st.res.created| < |dry.created|)
  {
    hide FindHash, Creatable, RestoreNote, Diverges, NoneDiverges, Holds, Grown, Makes;
    if plans == [] {
      NothingYet(lib);
    } else {
      var n := |plans| - 1;
      var mid, p := RestoreNotes(State(lib, NOTHING), plans[..n]), plans[n];
      DryStep(lib, plans[..n]);
      NoneDivergesInit(lib, plans);
      assert plans[..n + 1] == plans;
      forall d ensures Stepped(mid, RestoreNote(mid, p), p, d) {
        NoteStep(mid, p, d);
      }
      assert Stepped(mid, RestoreNote(mid, p), p, p.digest);
      HoldsStep(lib, mid, RestoreNote(mid, p), plans, n);
      MakesStep(lib, mid, plans, n);
      MakesNew(mid, p);
    }
  }

  lemma MakesNew(st: State, p: Plan)
    ensures Makes(st, p) ==> FindHash(st.lib.notes, p.digest) == 0
  {
  }

  lemma NothingYet(lib: Library)
    ensures NoneDiverges(lib, []) && Holds(State(lib, NOTHING), lib, []) && Grown(State(lib, NOTHING), lib)
  {
  }

  /**
   * A dry restore names the notes the restore itself creates, for every library and
   * export, if and only if each note not yet in the library can be created and no
   * earlier one is the same to the store.
   */
  lemma DryRestoreExact(lib: Library, plans: seq<Plan>, limit: Option<int>)
    requires AllHashed(plans) && !Refuses(lib, plans)
    ensures var some := Limited(plans, limit);
            var done, dry := ImportSome(lib, plans, limit, false).res, ImportSome(lib, plans, limit, true).res;
            done.created == dry.created && done.already == dry.already <==> NoneDiverges(lib, some)
  {
    hide Refuses, NoneDiverges, RestoreNotes, RestoreLinks, DryNotes;
    var some := Limited(plans, limit);
    DryStep(lib, some);
    LinksKeepMap(RestoreNotes(State(lib, NOTHING), some), some);
    LinksKeepAlready(RestoreNotes(State(lib, NOTHING), some), some);
  }

  // ------------------------------------------------------- where it misleads

  /** Into an empty library a plan that diverges is announced and not created. */
  lemma DivergingMisleads(plans: seq<Plan>, i: nat)
    requires AllHashed(plans) && i < |plans| && Diverges(EMPTY, plans, i)
    ensures |ImportSome(EMPTY, plans, None, false).res.created| < |ImportSome(EMPTY, plans, None, true).res.created|
  {
    hide RestoreNotes, RestoreLinks, DryNotes, FindHash, Diverges, Creatable, Known;
    assert !NoneDiverges(EMPTY, plans);
    DryStep(EMPTY, plans);
    LinksKeepMap(RestoreNotes(State(EMPTY, NOTHING), plans), plans);
  }

  /** A note file that lies in the export under two names is one note, but a dry run counts two. */
  lemma CopyMisleads(u: Unit, a: string, b: string, attached: seq<string>, homes: Homes)
    requires "title" in u.meta && u.meta["title"].Str? && u.meta["title"].s != ""
    ensures var plans := Plans([File(u, a, attached), File(u, b, attached)], homes);
            |ImportSome(EMPTY, plans, None, false).res.created| < |ImportSome(EMPTY, plans, None, true).res.created|
  {
    hide DigestOf, PlannedRow, ImportSome, FindHash, Creatable;
    var plans := Plans([File(u, a, attached), File(u, b, attached)], homes);
    SameDigest(u, a, b, attached);
    NotInEmpty(plans[1].digest);
    assert plans[0].digest == plans[1].digest;
    DivergingMisleads(plans, 1);
  }

  lemma SameDigest(u: Unit, a: string, b: string, attached: seq<string>)
    requires "title" in u.meta && u.meta["title"].Str? && u.meta["title"].s != ""
    ensures DigestOf(File(u, a, attached)) == DigestOf(File(u, b, attached))
  {
    hide SourceId, Normalize;
  }

  lemma NotInEmpty(d: Digest)
    ensures FindHash(EMPTY.notes, d) == 0
  {
  }

  /** A note the store refuses, for a tag that is too long, is announced all the same. */
  lemma RefusedNoteMisleads(f: File, tag: string, homes: Homes)
    requires ListOf(f.unit.meta, "tags") == [tag] && |tag| > TAG_MAX && !Blank(tag)
    ensures var plans := Plans([f], homes);
            |ImportSome(EMPTY, plans, None, false).res.created| < |ImportSome(EMPTY, plans, None, true).res.created|
  {
    hide DigestOf, PlannedRow, ImportSome, FindHash, Creatable, ListOf, Blank;
    var plans := Plans([f], homes);
    TooLong(f, tag, homes);
    NotInEmpty(plans[0].digest);
    DivergingMisleads(plans, 0);
  }

  lemma TooLong(f: File, tag: string, homes: Homes)
    requires ListOf(f.unit.meta, "tags") == [tag] && |tag| > TAG_MAX && !Blank(tag)
    ensures !Creatable(PlannedRow(f, homes))
  {
    hide ListOf, TextOf, CleanTitle, Fold, Home, Title, Blank;
    assert NonBlank([tag]) == [tag] + NonBlank([tag][1..]);
    assert NonBlank([tag])[0] == tag;
  }

  /** Two exports on which a dry restore promises a note too many. */
  lemma DryRestoreMisleads(homes: Homes)
    ensures var u := Unit(map["title" := Str("Groceries")], "milk", []);
            var plans := Plans([File(u, "Groceries", []), File(u, "Groceries copy", [])], homes);
            |ImportSome(EMPTY, plans, None, false).res.created| < |ImportSome(EMPTY, plans, None, true).res.created|
    ensures var u := Unit(map["tags" := List([Str(seq(61, _ => 'x'))])], "milk", []);
            var plans := Plans([File(u, "Groceries", [])], homes);
            |ImportSome(EMPTY, plans, None, false).res.created| < |ImportSome(EMPTY, plans, None, true).res.created|
  {
    hide ImportSome, Plans;
    CopyMisleads(Unit(map["title" := Str("Groceries")], "milk", []), "Groceries", "Groceries copy", [], homes);
    var tag := seq(61, _ => 'x');
    assert tag[0] == 'x' && !Blank(tag);
    var u := Unit(map["tags" := List([Str(tag)])], "milk", []);
    assert StringsOf([Str(tag)]) == [tag] + StringsOf([Str(tag)][1..]) == [tag];
    RefusedNoteMisleads(File(u, "Groceries", []), tag, homes);
  }
}
