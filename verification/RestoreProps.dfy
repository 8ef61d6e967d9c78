// What a restore guarantees: the id map, the contents, the link graph, and
// that restoring again changes nothing.

module RestoreProps {
  import opened Text
  import opened NotesExport
  import opened NoteReader
  import opened NoteLibrary
  import opened Restore

  predicate DistinctIds(plans: seq<Plan>) {
    forall i, j :: 0 <= i < j < |plans| ==> plans[i].was != plans[j].was
  }

  predicate AllNonBlank(ts: seq<Thought>) {
    forall i :: 0 <= i < |ts| ==> !Blank(ts[i].1)
  }

  /** A plan the store takes whole. */
  predicate Accepted(p: Plan) {
    Creatable(p.row) && AllNonBlank(p.thoughts) && p.row.hash == Some(p.digest)
  }

  predicate AllAccepted(plans: seq<Plan>) {
    forall i :: 0 <= i < |plans| ==> Accepted(plans[i])
  }

  // -------------------------------------------------------------- one note

  function StoredThoughts(ts: seq<Thought>): (r: seq<StoredEntry>)
    ensures |r| == |ts|
    ensures forall i :: 0 <= i < |ts| ==> r[i] == StoredEntry(ts[i].0, Strip(ts[i].1, Spaces))
  {
    seq(|ts|, i requires 0 <= i < |ts| => StoredEntry(ts[i].0, Strip(ts[i].1, Spaces)))
  }

  function AppendEntries(notes: seq<Row>, id: nat, es: seq<StoredEntry>): seq<Row>
    requires 1 <= id <= |notes|
  {
    notes[id - 1 := notes[id - 1].(entries := notes[id - 1].entries + es)]
  }

  lemma AppendEntriesTwice(notes: seq<Row>, id: nat, a: seq<StoredEntry>, b: seq<StoredEntry>)
    requires 1 <= id <= |notes|
    ensures AppendEntries(AppendEntries(notes, id, a), id, b) == AppendEntries(notes, id, a + b)
    ensures AppendEntries(notes, id, []) == notes
  {
    var es := notes[id - 1].entries;
    assert es + a + b == es + (a + b) && es + [] == es;
  }

  lemma StoredThoughtsSnoc(ts: seq<Thought>, n: nat)
    requires n < |ts|
    ensures StoredThoughts(ts[..n + 1]) == StoredThoughts(ts[..n]) + [StoredEntry(ts[n].0, Strip(ts[n].1, Spaces))]
  {
  }

  /** Accepted Thoughts land on their note in order, and nowhere else. */
  lemma NoThoughtsStored()
    ensures StoredThoughts([]) == []
  {
  }

  lemma {:induction false} ThoughtsLand(st: State, id: nat, ts: seq<Thought>)
    requires st.lib.HasNote(id) && AllNonBlank(ts)
    ensures var r := AddThoughts(st, id, ts);
            && r.lib == st.lib.(notes := AppendEntries(st.lib.notes, id, StoredThoughts(ts)))
            && r.res == st.res.(entries := st.res.entries + |ts|)
    decreases |ts|
  {
    hide Strip, Blank, StoredThoughts;
    if ts == [] {
      NoThoughtsStored();
      AppendEntriesTwice(st.lib.notes, id, [], []);
    } else {
      var n := |ts| - 1;
      ThoughtsLand(st, id, ts[..n]);
      var last := [StoredEntry(ts[n].0, Strip(ts[n].1, Spaces))];
      assert !Blank(ts[n].1) && ts[..n + 1] == ts;
      StoredThoughtsSnoc(ts, n);
      AppendEntriesTwice(st.lib.notes, id, StoredThoughts(ts[..n]), last);
    }
  }

  /** The row an accepted plan becomes. */
  function FinalRow(p: Plan): (r: Row)
    ensures r.hash == p.row.hash && r.body == p.row.body && r.status == p.row.status
    ensures r.title == Strip(p.row.title, Spaces) && r.entries == StoredThoughts(p.thoughts)
  {
    Stored(p.row).(entries := StoredThoughts(p.thoughts))
  }

  lemma AppendToLast(notes: seq<Row>, row: Row, es: seq<StoredEntry>)
    requires row.entries == []
    ensures AppendEntries(notes + [row], |notes| + 1, es) == notes + [row.(entries := es)]
  {
    assert row.entries + es == es;
  }

  lemma CreatedRow(st: State, p: Plan)
    requires FindHash(st.lib.notes, p.digest) == 0 && Accepted(p)
    ensures var r := RestoreNote(st, p);
            && r.lib == st.lib.(notes := st.lib.notes + [FinalRow(p)])
            && r.res == st.res.(created := st.res.created + [p.name], entries := st.res.entries + |p.thoughts|,
                                idMap := st.res.idMap[p.was := |st.lib.notes| + 1])
  {
    hide Creatable, EncodeTags, FindHash;
    ThoughtsLand(Created(st, p), |st.lib.notes| + 1, p.thoughts);
    AppendToLast(st.lib.notes, Stored(p.row), StoredThoughts(p.thoughts));
  }

  // ------------------------------------------------------------- the id map

  predicate MapsTo(st: State, p: Plan) {
    p.was in st.res.idMap && st.res.idMap[p.was] == FindHash(st.lib.notes, p.digest) > 0
  }

  /** Every plan so far maps to the note that carries its digest. */
  predicate AllMapped(st: State, plans: seq<Plan>) {
    forall i :: 0 <= i < |plans| ==> MapsTo(st, plans[i])
  }

  lemma AppendedHash(notes: seq<Row>, row: Row, d: Digest)
    requires FindHash(notes, d) == 0 && row.hash == Some(d)
    ensures FindHash(notes + [row], d) == |notes| + 1
  {
    assert forall i :: 0 <= i < |notes| ==> (notes + [row])[i] == notes[i];
    assert (notes + [row])[|notes|] == row;
  }

  lemma MapsStep(st: State, p: Plan)
    requires Accepted(p)
    ensures MapsTo(RestoreNote(st, p), p)
    ensures forall q: Plan :: q.was != p.was && MapsTo(st, q) ==> MapsTo(RestoreNote(st, p), q)
  {
    hide Creatable, FindHash, Stored, AddThoughts;
    if FindHash(st.lib.notes, p.digest) == 0 {
      CreatedRow(st, p);
      AppendedHash(st.lib.notes, FinalRow(p), p.digest);
      forall q: Plan | q.was != p.was && MapsTo(st, q) ensures MapsTo(RestoreNote(st, p), q) {
        FindHashAppend(st.lib.notes, [FinalRow(p)], q.digest);
      }
    }
  }

  lemma {:induction false} AllMapTo(st: State, plans: seq<Plan>)
    requires DistinctIds(plans) && AllAccepted(plans)
    ensures AllMapped(RestoreNotes(st, plans), plans)
  {
    hide Accepted, RestoreNote, MapsTo;
    if plans != [] {
      var n := |plans| - 1;
      assert Accepted(plans[n]);
      AllMapTo(st, plans[..n]);
      var mid := RestoreNotes(st, plans[..n]);
      MapsStep(mid, plans[n]);
      forall i | 0 <= i < n ensures MapsTo(RestoreNote(mid, plans[n]), plans[i]) {
        assert MapsTo(mid, plans[..n][i]);
      }
    }
  }

  /**
   * Two restored notes get the same new id exactly when their digests agree:
   * the id map is injective if and only if the digests are pairwise distinct.
   */
  lemma IdMapExact(lib: Library, plans: seq<Plan>, i: nat, j: nat)
    requires DistinctIds(plans) && AllAccepted(plans) && i < |plans| && j < |plans|
    ensures var m := RestoreNotes(State(lib, NOTHING), plans).res.idMap;
            && plans[i].was in m && plans[j].was in m
            && (m[plans[i].was] == m[plans[j].was] <==> plans[i].digest == plans[j].digest)
  {
    hide RestoreNotes, Accepted, FindHash;
    AllMapTo(State(lib, NOTHING), plans);
    var st := RestoreNotes(State(lib, NOTHING), plans);
    assert MapsTo(st, plans[i]) && MapsTo(st, plans[j]);
  }

  // -------------------------------------------------------------- contents

  predicate DistinctDigests(plans: seq<Plan>) {
    forall i, j :: 0 <= i < j < |plans| ==> plans[i].digest != plans[j].digest
  }

  function FinalRows(plans: seq<Plan>): (r: seq<Row>)
    ensures |r| == |plans| && forall i :: 0 <= i < |plans| ==> r[i] == FinalRow(plans[i])
  {
    seq(|plans|, i requires 0 <= i < |plans| => FinalRow(plans[i]))
  }

  predicate AllHashed(plans: seq<Plan>) {
    forall i :: 0 <= i < |plans| ==> plans[i].row.hash == Some(plans[i].digest)
  }

  lemma NoSuchHash(plans: seq<Plan>, d: Digest)
    requires AllHashed(plans) && forall i :: 0 <= i < |plans| ==> plans[i].digest != d
    ensures FindHash(FinalRows(plans), d) == 0
  {
  }

  lemma FinalRowsSnoc(plans: seq<Plan>, p: Plan)
    ensures FinalRows(plans + [p]) == FinalRows(plans) + [FinalRow(p)]
  {
    hide FinalRow;
  }

  /** One row a plan, in order; nothing lost, nothing refused. */
  predicate AllIn(st: State, plans: seq<Plan>) {
    && st.lib == EMPTY.(notes := FinalRows(plans))
    && st.res.errors == 0 && st.res.already == 0 && |st.res.created| == |plans|
  }

  lemma RowsStep(st: State, plans: seq<Plan>, p: Plan)
    requires AllIn(st, plans) && AllHashed(plans) && Accepted(p)
    requires forall i :: 0 <= i < |plans| ==> plans[i].digest != p.digest
    ensures AllIn(RestoreNote(st, p), plans + [p])
  {
    NoSuchHash(plans, p.digest);
    CreatedRow(st, p);
    FinalRowsSnoc(plans, p);
  }

  lemma InitAccepted(plans: seq<Plan>, n: nat)
    requires n + 1 == |plans| && AllAccepted(plans) && DistinctDigests(plans)
    ensures AllAccepted(plans[..n]) && DistinctDigests(plans[..n]) && AllHashed(plans[..n]) && Accepted(plans[n])
    ensures forall i :: 0 <= i < n ==> plans[..n][i].digest != plans[n].digest
    ensures plans[..n] + [plans[n]] == plans
  {
    assert forall i :: 0 <= i < n ==> Accepted(plans[i]) && plans[..n][i] == plans[i];
  }

  /** Into an empty library every accepted plan becomes its row, in order. */
  lemma {:induction false} RestoredRows(plans: seq<Plan>)
    requires AllAccepted(plans) && DistinctDigests(plans)
    ensures AllIn(RestoreNotes(State(EMPTY, NOTHING), plans), plans)
  {
    if plans != [] {
      var n := |plans| - 1;
      InitAccepted(plans, n);
      RestoredRows(plans[..n]);
      hide AllIn, RestoreNote, Accepted;
      RowsStep(RestoreNotes(State(EMPTY, NOTHING), plans[..n]), plans[..n], plans[n]);
    }
  }

  // ----------------------------------------------------------------- links

  predicate AsksBySpec(src: nat, spec: string, m: map<Option<int>, nat>, lib: Library, l: LinkRow) {
    && ParseLink(spec).Some?
    && Mapped(src, ParseLink(spec).value, m) == Some(l)
    && Linkable(lib, l)
  }

  /** The link rows a plan asks for, once the map is known. */
  predicate Asks(p: Plan, m: map<Option<int>, nat>, lib: Library, l: LinkRow) {
    p.was in m && exists k :: 0 <= k < |p.links| && AsksBySpec(m[p.was], p.links[k], m, lib, l)
  }

  lemma AsksSame(src: nat, spec: string, a: State, b: State, l: LinkRow)
    requires a.lib.notes == b.lib.notes && a.lib.others == b.lib.others && a.res.idMap == b.res.idMap
    ensures AsksBySpec(src, spec, a.res.idMap, a.lib, l) <==> AsksBySpec(src, spec, b.res.idMap, b.lib, l)
  {
  }

  lemma LinkStep(st: State, src: nat, spec: string, l: LinkRow)
    ensures l in RestoreLink(st, src, spec).lib.links <==>
            l in st.lib.links || AsksBySpec(src, spec, st.res.idMap, st.lib, l)
  {
    hide Linkable, ParseLink;
  }

  lemma {:induction false} LinksOfExact(st: State, src: nat, specs: seq<string>, l: LinkRow)
    ensures l in RestoreLinksOf(st, src, specs).lib.links <==>
            l in st.lib.links || exists k :: 0 <= k < |specs| && AsksBySpec(src, specs[k], st.res.idMap, st.lib, l)
    decreases |specs|
  {
    if specs != [] {
      var n := |specs| - 1;
      var init := specs[..n];
      var mid := RestoreLinksOf(st, src, init);
      LinksOfExact(st, src, init, l);
      LinksOfKeep(st, src, init);
      hide AsksBySpec, RestoreLink;
      assert forall k :: 0 <= k < n ==> init[k] == specs[k];
      LinkStep(mid, src, specs[n], l);
      AsksSame(src, specs[n], st, mid, l);
    }
  }

  lemma PlanStep(st: State, mid: State, p: Plan, l: LinkRow)
    requires mid.lib.notes == st.lib.notes && mid.lib.others == st.lib.others && mid.res.idMap == st.res.idMap
    requires p.was in st.res.idMap
    ensures l in RestoreLinksOf(mid, st.res.idMap[p.was], p.links).lib.links <==>
            l in mid.lib.links || Asks(p, st.res.idMap, st.lib, l)
  {
    var src := st.res.idMap[p.was];
    hide AsksBySpec, RestoreLinksOf;
    LinksOfExact(mid, src, p.links, l);
    forall k | 0 <= k < |p.links|
      ensures AsksBySpec(src, p.links[k], mid.res.idMap, mid.lib, l) <==>
              AsksBySpec(src, p.links[k], st.res.idMap, st.lib, l)
    {
      AsksSame(src, p.links[k], mid, st, l);
    }
  }

  /** After the second pass the links are the old ones and exactly those some plan asks for. */
  lemma {:induction false} LinksExact(st: State, plans: seq<Plan>, l: LinkRow)
    ensures l in RestoreLinks(st, plans).lib.links <==>
            l in st.lib.links || exists i :: 0 <= i < |plans| && Asks(plans[i], st.res.idMap, st.lib, l)
    decreases |plans|
  {
    if plans != [] {
      var n := |plans| - 1;
      var init, p := plans[..n], plans[n];
      LinksExact(st, init, l);
      LinksKeepMap(st, init);
      assert p.was !in st.res.idMap ==> !Asks(p, st.res.idMap, st.lib, l);
      assert forall i :: 0 <= i < n ==> init[i] == plans[i];
      hide Asks, RestoreLinksOf;
      if p.was in st.res.idMap {
        PlanStep(st, RestoreLinks(st, init), p, l);
      }
    }
  }

  // ------------------------------------------------------------ restoring again

  /** Every key of the map is some plan's, and every row carries some plan's digest. */
  predicate FromPlans(st: State, plans: seq<Plan>) {
    && (forall k :: k in st.res.idMap ==> exists i :: 0 <= i < |plans| && plans[i].was == k)
    && (forall i :: 0 <= i < |st.lib.notes| ==> Known(st.lib.notes[i].hash, plans))
  }

  lemma KnownMore(hash: Option<Digest>, plans: seq<Plan>, p: Plan)
    ensures Known(hash, plans) ==> Known(hash, plans + [p])
    ensures hash == Some(p.digest) ==> Known(hash, plans + [p])
  {
    assert forall i :: 0 <= i < |plans| ==> (plans + [p])[i] == plans[i];
    assert (plans + [p])[|plans|] == p;
  }

  lemma FromPlansStep(st: State, plans: seq<Plan>, p: Plan)
    requires FromPlans(st, plans) && Accepted(p)
    ensures FromPlans(RestoreNote(st, p), plans + [p])
  {
    hide Known, FindHash, Accepted, Creatable, Created, AddThoughts;
    if FindHash(st.lib.notes, p.digest) > 0 {
      FromPlansNext(st, plans, p, RestoreNote(st, p), []);
    } else {
      CreatedRow(st, p);
      AcceptedHash(p);
      FromPlansNext(st, plans, p, RestoreNote(st, p), [FinalRow(p)]);
    }
  }

  lemma AcceptedHash(p: Plan)
    requires Accepted(p)
    ensures p.row.hash == Some(p.digest)
  {
    hide Creatable;
  }

  lemma FromPlansNext(st: State, plans: seq<Plan>, p: Plan, r: State, rows: seq<Row>)
    requires FromPlans(st, plans) && r.lib.notes == st.lib.notes + rows
    requires forall i :: 0 <= i < |rows| ==> rows[i].hash == Some(p.digest)
    requires forall k :: k in r.res.idMap ==> k in st.res.idMap || k == p.was
    ensures FromPlans(r, plans + [p])
  {
    hide Known;
    var more := plans + [p];
    assert more[|plans|] == p;
    forall k | k in r.res.idMap ensures exists i :: 0 <= i < |more| && more[i].was == k {
      if k in st.res.idMap {
        var i :| 0 <= i < |plans| && plans[i].was == k;
        assert more[i].was == k;
      }
    }
    forall i | 0 <= i < |r.lib.notes| ensures Known(r.lib.notes[i].hash, more) {
      KnownMore(r.lib.notes[i].hash, plans, p);
    }
  }

  lemma NoPlans(others: set<(string, nat)>)
    ensures FromPlans(State(Library([], {}, others), NOTHING), [])
  {
  }

  lemma {:induction false} AllFromPlans(others: set<(string, nat)>, plans: seq<Plan>)
    requires AllAccepted(plans)
    ensures FromPlans(RestoreNotes(State(Library([], {}, others), NOTHING), plans), plans)
  {
    hide FromPlans, RestoreNote, Accepted;
    if plans == [] {
      NoPlans(others);
    } else {
      var n := |plans| - 1;
      assert Accepted(plans[n]) && forall i :: 0 <= i < n ==> Accepted(plans[i]);
      AllFromPlans(others, plans[..n]);
      FromPlansStep(RestoreNotes(State(Library([], {}, others), NOTHING), plans[..n]), plans[..n], plans[n]);
      assert plans[..n] + [plans[n]] == plans;
    }
  }

  predicate Present(notes: seq<Row>, plans: seq<Plan>) {
    forall i :: 0 <= i < |plans| ==> FindHash(notes, plans[i].digest) > 0
  }

  /** The map holds the plans seen so far and no one else. */
  predicate MapOf(st: State, plans: seq<Plan>) {
    && AllMapped(st, plans)
    && forall k :: k in st.res.idMap ==> exists i :: 0 <= i < |plans| && plans[i].was == k
  }

  lemma MapOfStep(st: State, plans: seq<Plan>, p: Plan)
    requires MapOf(st, plans) && FindHash(st.lib.notes, p.digest) > 0
    requires forall i :: 0 <= i < |plans| ==> plans[i].was != p.was
    ensures MapOf(RestoreNote(st, p), plans + [p])
  {
    var r, more := RestoreNote(st, p), plans + [p];
    assert r == Already(st, p.was, FindHash(st.lib.notes, p.digest));
    hide RestoreNote, FindHash;
    assert more[|plans|] == p;
    forall i | 0 <= i < |more| ensures MapsTo(r, more[i]) {
      assert i < |plans| ==> more[i] == plans[i] && MapsTo(st, plans[i]);
    }
    forall k | k in r.res.idMap ensures exists i :: 0 <= i < |more| && more[i].was == k {
      if k != p.was {
        var i :| 0 <= i < |plans| && plans[i].was == k;
        assert more[i].was == k;
      }
    }
  }

  /** A pass over notes that are all there creates nothing and only rebuilds the map. */
  lemma {:induction false} SecondPass(lib: Library, plans: seq<Plan>)
    requires Present(lib.notes, plans) && DistinctIds(plans)
    ensures var r := RestoreNotes(State(lib, NOTHING), plans);
            && r.lib == lib && r.res.created == [] && r.res.already == |plans| && r.res.errors == 0
            && MapOf(r, plans)
  {
    hide MapOf, FindHash, AddThoughts, Created, Creatable;
    if plans == [] {
      NothingMapped(lib);
    } else {
      var n := |plans| - 1;
      SecondPass(lib, plans[..n]);
      assert plans[..n] + [plans[n]] == plans;
      assert FindHash(lib.notes, plans[n].digest) > 0;
      MapOfStep(RestoreNotes(State(lib, NOTHING), plans[..n]), plans[..n], plans[n]);
    }
  }

  lemma NothingMapped(lib: Library)
    ensures MapOf(State(lib, NOTHING), [])
  {
  }

  lemma SameMap(a: State, b: State, plans: seq<Plan>)
    requires MapOf(a, plans) && MapOf(b, plans) && a.lib.notes == b.lib.notes
    ensures a.res.idMap == b.res.idMap
  {
    forall k | k in a.res.idMap || k in b.res.idMap
      ensures k in a.res.idMap && k in b.res.idMap && a.res.idMap[k] == b.res.idMap[k]
    {
      var i :| 0 <= i < |plans| && plans[i].was == k;
      assert MapsTo(a, plans[i]) && MapsTo(b, plans[i]);
    }
  }

  lemma AsksIgnoresLinks(p: Plan, m: map<Option<int>, nat>, a: Library, b: Library, l: LinkRow)
    requires a.notes == b.notes && a.others == b.others
    ensures Asks(p, m, a, l) <==> Asks(p, m, b, l)
  {
  }

  lemma NewLinkAsked(st: State, plans: seq<Plan>, l: LinkRow) returns (i: nat)
    requires l in RestoreLinks(st, plans).lib.links && l !in st.lib.links
    ensures i < |plans| && Asks(plans[i], st.res.idMap, st.lib, l)
  {
    LinksExact(st, plans, l);
    i :| 0 <= i < |plans| && Asks(plans[i], st.res.idMap, st.lib, l);
  }

  lemma AskedIsLinked(st: State, plans: seq<Plan>, i: nat, l: LinkRow)
    requires i < |plans| && Asks(plans[i], st.res.idMap, st.lib, l)
    ensures l in RestoreLinks(st, plans).lib.links
  {
    LinksExact(st, plans, l);
  }

  /** Replaying the link pass over its own result adds nothing. */
  lemma LinksAgain(st: State, again: State, plans: seq<Plan>)
    requires again.lib == RestoreLinks(st, plans).lib && again.res.idMap == st.res.idMap
    ensures RestoreLinks(again, plans).lib == again.lib
  {
    hide RestoreLinks;
    LinksKeepMap(st, plans);
    LinksKeepMap(again, plans);
    forall l | l in RestoreLinks(again, plans).lib.links ensures l in again.lib.links {
      if l !in again.lib.links {
        var i := NewLinkAsked(again, plans, l);
        AsksIgnoresLinks(plans[i], st.res.idMap, again.lib, st.lib, l);
        AskedIsLinked(st, plans, i, l);
      }
    }
  }

  lemma AllPresent(st: State, plans: seq<Plan>)
    requires AllMapped(st, plans)
    ensures Present(st.lib.notes, plans)
  {
    forall i | 0 <= i < |plans| ensures FindHash(st.lib.notes, plans[i].digest) > 0 {
      assert MapsTo(st, plans[i]);
    }
  }

  /** A second restore of the same export creates no note and leaves the library as it was. */
  lemma RestoreTwice(others: set<(string, nat)>, plans: seq<Plan>)
    requires AllAccepted(plans) && DistinctIds(plans)
    ensures var once := ImportPlans(Library([], {}, others), plans).lib;
            var again := ImportPlans(once, plans);
            again.lib == once && again.res.created == [] && again.res.errors == 0 && again.res.already == |plans|
  {
    var first := RestoreNotes(State(Library([], {}, others), NOTHING), plans);
    AllMapTo(State(Library([], {}, others), NOTHING), plans);
    AllFromPlans(others, plans);
    LinksKeepMap(first, plans);
    var once := RestoreLinks(first, plans).lib;
    assert !HoldsStranger(once.notes, plans) && !HoldsStranger([], plans);
    hide FindHash, RestoreNote, Accepted;
    AllPresent(first, plans);
    SecondPass(once, plans);
    var second := RestoreNotes(State(once, NOTHING), plans);
    SameMap(first, second, plans);
    LinksAgain(first, second, plans);
    LinksKeepMap(second, plans);
    LinksKeepAlready(second, plans);
  }

  lemma {:induction false} LinksOfKeepAlready(st: State, src: nat, specs: seq<string>)
    ensures RestoreLinksOf(st, src, specs).res.already == st.res.already
    decreases |specs|
  {
    if specs != [] {
      LinksOfKeepAlready(st, src, specs[..|specs| - 1]);
    }
  }

  lemma {:induction false} LinksKeepAlready(st: State, plans: seq<Plan>)
    ensures RestoreLinks(st, plans).res.already == st.res.already
    decreases |plans|
  {
    if plans != [] {
      var before, p := plans[..|plans| - 1], plans[|plans| - 1];
      LinksKeepAlready(st, before);
      if p.was in st.res.idMap {
        LinksOfKeepAlready(RestoreLinks(st, before), st.res.idMap[p.was], p.links);
      }
    }
  }
}
