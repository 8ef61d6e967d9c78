// backend/notes_import.py: restoring an unzipped export. Every note file read
// back is planned from its own frontmatter, created, and then the links are
// remapped through the old-id to new-id map.

module Restore {
  import opened Text
  import opened NotesExport
  import opened NoteReader
  import opened NoteLibrary

  /** One exported file as the restore sees it: what it parsed to, and what lies beside it. */
  datatype File = File(unit: Unit, name: string, attached: seq<string>)

  /** Where the areas and projects of this library live, by folded name. */
  datatype Homes = Homes(areas: map<string, nat>, projects: map<string, nat>)

  /** `meta.get(key) or otherwise`, for a string field. */
  function TextOf(meta: map<string, Value>, key: string, otherwise: string): string {
    if key in meta && meta[key].Str? && meta[key].s != "" then meta[key].s else otherwise
  }

  function StringsOf(vals: seq<Value>): seq<string> {
    if vals == [] then []
    else (if vals[0].Str? then [vals[0].s] else []) + StringsOf(vals[1..])
  }

  /** The string items of a list field. */
  function ListOf(meta: map<string, Value>, key: string): seq<string> {
    if key in meta && meta[key].List? then StringsOf(meta[key].items) else []
  }

  function NonBlank(vals: seq<string>): seq<string> {
    if vals == [] then []
    else (if Blank(vals[0]) then [] else [vals[0]]) + NonBlank(vals[1..])
  }

  function OldId(u: Unit): Option<int> {
    if "id" in u.meta && u.meta["id"].Int? then Some(u.meta["id"].n) else None
  }

  function IdText(id: Option<int>): string {
    if id.None? then "None"
    else if id.value < 0 then "-" + Decimal(-id.value) else Decimal(id.value)
  }

  /** The identity a restore gives a note: its original digest text, else one made from its id. */
  function SourceId(u: Unit): string {
    Strip(TextOf(u.meta, "content_hash", "export-note-" + IdText(OldId(u))), Spaces)
  }

  function Title(f: File): string {
    TextOf(f.unit.meta, "title", f.name)
  }

  function DigestOf(f: File): Digest {
    Digest(SourceId(f.unit), Normalize(Title(f)), Normalize(f.unit.body), f.attached)
  }

  function Home(homes: map<string, nat>, name: string): Option<nat> {
    if Fold(name) in homes then Some(homes[Fold(name)]) else None
  }

  /** Filed by its own frontmatter, in the inbox when an active note's home is gone. */
  function RowFrom(title: string, body: string, noteType: string, status: string, area: Option<nat>,
                   project: Option<nat>, tags: seq<string>, author: string, digest: Digest): Row {
    Row(CleanTitle(title, body, "export"), body, noteType,
        if status == "active" && area.None? && project.None? then "inbox" else status,
        area, project, NonBlank(tags), author, Some(digest), [])
  }

  function PlannedRow(f: File, homes: Homes): Row {
    var meta := f.unit.meta;
    RowFrom(Title(f), f.unit.body, TextOf(meta, "type", "note"), Fold(TextOf(meta, "status", "inbox")),
            Home(homes.areas, TextOf(meta, "area", "")), Home(homes.projects, TextOf(meta, "project", "")),
            ListOf(meta, "tags"), TextOf(meta, "authored_by", "import"), DigestOf(f))
  }

  /** `kind:target` of one link spec, when the target is a number. */
  function ParseLink(spec: string): Option<(string, nat)> {
    var colon := Find(spec, ":");
    if colon == -1 then None
    else
      var target := spec[colon + 1..];
      if target != "" && AllDigits(target) then Some((spec[..colon], ParseDigits(target))) else None
  }

  // ----------------------------------------------------------- the two passes

  /** One note to restore: who it was, its digest, the row to create, its Thoughts and its links. */
  datatype Plan = Plan(
    was: Option<int>, name: string, digest: Digest, row: Row, thoughts: seq<Thought>, links: seq<string>)

  function PlanOf(f: File, homes: Homes): (p: Plan)
    ensures p.row.hash == Some(p.digest)
  {
    Plan(OldId(f.unit), f.name, DigestOf(f), PlannedRow(f, homes), f.unit.thoughts, ListOf(f.unit.meta, "links"))
  }

  function Plans(files: seq<File>, homes: Homes): (r: seq<Plan>)
    ensures |r| == |files| && forall i :: 0 <= i < |files| ==> r[i] == PlanOf(files[i], homes)
  {
    seq(|files|, i requires 0 <= i < |files| => PlanOf(files[i], homes))
  }

  /** What a restore reports, and the map it links through. */
  datatype Result = Result(
    idMap: map<Option<int>, nat>, created: seq<string>, already: nat, entries: nat,
    errors: nat, linked: nat, dropped: nat)

  const NOTHING := Result(map[], [], 0, 0, 0, 0, 0)

  datatype State = State(lib: Library, res: Result)

  function AddThought(st: State, id: nat, t: Thought): (r: State)
    requires st.lib.HasNote(id)
    ensures r.lib.HasNote(id)
  {
    if Blank(t.1) then st.(res := st.res.(errors := st.res.errors + 1))
    else State(st.lib.(notes := st.lib.notes[id - 1 := WithEntry(st.lib.notes[id - 1], t.0, t.1)]),
               st.res.(entries := st.res.entries + 1))
  }

  function AddThoughts(st: State, id: nat, thoughts: seq<Thought>): (r: State)
    requires st.lib.HasNote(id)
    ensures r.lib.HasNote(id)
    decreases |thoughts|
  {
    if thoughts == [] then st
    else var n := |thoughts| - 1; AddThought(AddThoughts(st, id, thoughts[..n]), id, thoughts[n])
  }

  function Refused(st: State): State {
    st.(res := st.res.(errors := st.res.errors + 1))
  }

  function Already(st: State, was: Option<int>, found: nat): State {
    st.(res := st.res.(already := st.res.already + 1, idMap := st.res.idMap[was := found]))
  }

  /** The state with the new row in it, before its Thoughts. */
  function Created(st: State, p: Plan): State {
    State(st.lib.(notes := st.lib.notes + [Stored(p.row)]),
          st.res.(created := st.res.created + [p.name], idMap := st.res.idMap[p.was := |st.lib.notes| + 1]))
  }

  function RestoreNote(st: State, p: Plan): State {
    if FindHash(st.lib.notes, p.digest) > 0 then Already(st, p.was, FindHash(st.lib.notes, p.digest))
    else if !Creatable(p.row) then Refused(st)
    else AddThoughts(Created(st, p), |st.lib.notes| + 1, p.thoughts)
  }

  function RestoreNotes(st: State, plans: seq<Plan>): State
    decreases |plans|
  {
    if plans == [] then st
    else RestoreNote(RestoreNotes(st, plans[..|plans| - 1]), plans[|plans| - 1])
  }

  /** The row one spec stands for under the map, or None for one that is dropped or skipped. */
  function Mapped(src: nat, link: (string, nat), idMap: map<Option<int>, nat>): Option<LinkRow> {
    var (kind, target) := link;
    if kind != "note" then Some(LinkRow(src, kind, target))
    else if Some(target) in idMap then Some(LinkRow(src, kind, idMap[Some(target)]))
    else None
  }

  function RestoreLink(st: State, src: nat, spec: string): State {
    var link := ParseLink(spec);
    if link.None? then st
    else
      var l := Mapped(src, link.value, st.res.idMap);
      if l.Some? && Linkable(st.lib, l.value)
      then State(st.lib.(links := st.lib.links + {l.value}), st.res.(linked := st.res.linked + 1))
      else st.(res := st.res.(dropped := st.res.dropped + 1))
  }

  function RestoreLinksOf(st: State, src: nat, specs: seq<string>): State
    decreases |specs|
  {
    if specs == [] then st
    else RestoreLink(RestoreLinksOf(st, src, specs[..|specs| - 1]), src, specs[|specs| - 1])
  }

  function RestoreLinks(st: State, plans: seq<Plan>): State
    decreases |plans|
  {
    if plans == [] then st
    else
      var before, p := RestoreLinks(st, plans[..|plans| - 1]), plans[|plans| - 1];
      if p.was in st.res.idMap then RestoreLinksOf(before, st.res.idMap[p.was], p.links) else before
  }

  /** Some plan of the export has this digest. */
  predicate Known(hash: Option<Digest>, plans: seq<Plan>) {
    exists k :: 0 <= k < |plans| && hash == Some(plans[k].digest)
  }

  /** The library holds a note the export does not account for. */
  predicate HoldsStranger(notes: seq<Row>, plans: seq<Plan>) {
    exists i :: 0 <= i < |notes| && !Known(notes[i].hash, plans)
  }

  /** An export without notes is left at that; otherwise a library with a stranger is refused. */
  predicate Refuses(lib: Library, plans: seq<Plan>) {
    plans != [] && HoldsStranger(lib.notes, plans)
  }

  function ImportPlans(lib: Library, plans: seq<Plan>): State {
    if Refuses(lib, plans) then State(lib, NOTHING.(errors := 1))
    else RestoreLinks(RestoreNotes(State(lib, NOTHING), plans), plans)
  }

  /** `plans[:limit]`: a negative limit leaves that many off the end. */
  function Limited(plans: seq<Plan>, limit: Option<int>): (r: seq<Plan>)
    ensures r <= plans && (limit.None? ==> r == plans)
    ensures limit.Some? && limit.value >= 0 ==> |r| <= limit.value && (|r| == limit.value || r == plans)
    ensures limit.Some? && limit.value < 0 ==> |plans| + limit.value == |r| || (|plans| + limit.value < 0 && r == [])
  {
    if limit.None? || limit.value >= |plans| then plans
    else if limit.value >= 0 then plans[..limit.value]
    else if |plans| + limit.value >= 0 then plans[..|plans| + limit.value]
    else []
  }

  /** What a dry run says of one note: found by its digest, or to be created. */
  function DryNote(lib: Library, res: Result, p: Plan): Result {
    var found := FindHash(lib.notes, p.digest);
    if found > 0 then res.(already := res.already + 1, idMap := res.idMap[p.was := found])
    else res.(created := res.created + [p.name])
  }

  function DryNotes(lib: Library, plans: seq<Plan>): Result
    decreases |plans|
  {
    if plans == [] then NOTHING else DryNote(lib, DryNotes(lib, plans[..|plans| - 1]), plans[|plans| - 1])
  }

  /** `import_export` with its options; the library is judged by the whole export. */
  function ImportSome(lib: Library, plans: seq<Plan>, limit: Option<int>, dry: bool): State {
    var some := Limited(plans, limit);
    if Refuses(lib, plans) then State(lib, NOTHING.(errors := 1))
    else if dry then State(lib, DryNotes(lib, some))
    else RestoreLinks(RestoreNotes(State(lib, NOTHING), some), some)
  }

  function ImportExport(lib: Library, files: seq<File>, homes: Homes): State {
    ImportPlans(lib, Plans(files, homes))
  }

  method AddThoughtsLoop(store: Store, res0: Result, id: nat, thoughts: seq<Thought>) returns (res: Result)
    requires store.lib.HasNote(id)
    modifies store
    ensures State(store.lib, res) == AddThoughts(State(old(store.lib), res0), id, thoughts)
  {
    res := res0;
    for i := 0 to |thoughts|
      invariant State(store.lib, res) == AddThoughts(State(old(store.lib), res0), id, thoughts[..i])
    {
      assert thoughts[..i + 1][..i] == thoughts[..i];
      var ok := store.AddNoteEntry(id, thoughts[i].0, thoughts[i].1);
      if ok {
        res := res.(entries := res.entries + 1);
      } else {
        res := res.(errors := res.errors + 1);
      }
    }
    assert thoughts[..|thoughts|] == thoughts;
  }

  method RestoreNoteStep(store: Store, res0: Result, p: Plan) returns (res: Result)
    modifies store
    ensures State(store.lib, res) == RestoreNote(State(old(store.lib), res0), p)
  {
    hide Creatable, Stored, FindHash, AddThoughts;
    res := res0;
    var found := store.NoteByContentHash(p.digest);
    if found > 0 {
      res := res.(already := res.already + 1, idMap := res.idMap[p.was := found]);
      return;
    }
    var id := store.CreateNote(p.row);
    if id == 0 {
      res := res.(errors := res.errors + 1);
      return;
    }
    res := res.(created := res.created + [p.name], idMap := res.idMap[p.was := id]);
    res := AddThoughtsLoop(store, res, id, p.thoughts);
  }

  method RestoreLinkStep(store: Store, res0: Result, src: nat, spec: string) returns (res: Result)
    modifies store
    ensures State(store.lib, res) == RestoreLink(State(old(store.lib), res0), src, spec)
  {
    res := res0;
    var link := ParseLink(spec);
    if link.None? {
      return;
    }
    var l := Mapped(src, link.value, res.idMap);
    var ok := false;
    if l.Some? {
      ok := store.LinkNote(l.value);
    }
    res := if ok then res.(linked := res.linked + 1) else res.(dropped := res.dropped + 1);
  }

  method RestoreLinksLoop(store: Store, res0: Result, plans: seq<Plan>) returns (res: Result)
    modifies store
    ensures State(store.lib, res) == RestoreLinks(State(old(store.lib), res0), plans)
  {
    res := res0;
    for i := 0 to |plans|
      invariant State(store.lib, res) == RestoreLinks(State(old(store.lib), res0), plans[..i])
    {
      assert plans[..i + 1][..i] == plans[..i];
      LinksKeepMap(State(old(store.lib), res0), plans[..i]);
      var p := plans[i];
      if p.was in res0.idMap {
        ghost var before := State(store.lib, res);
        for k := 0 to |p.links|
          invariant State(store.lib, res) == RestoreLinksOf(before, res0.idMap[p.was], p.links[..k])
        {
          assert p.links[..k + 1][..k] == p.links[..k];
          res := RestoreLinkStep(store, res, res0.idMap[p.was], p.links[k]);
        }
        assert p.links[..|p.links|] == p.links;
      }
    }
    assert plans[..|plans|] == plans;
  }

  method FindStranger(notes: seq<Row>, plans: seq<Plan>) returns (found: bool)
    ensures found == HoldsStranger(notes, plans)
  {
    for i := 0 to |notes|
      invariant forall j :: 0 <= j < i ==> Known(notes[j].hash, plans)
    {
      if !Known(notes[i].hash, plans) {
        return true;
      }
    }
    found := false;
  }

  method RestoreNotesLoop(store: Store, plans: seq<Plan>) returns (res: Result)
    modifies store
    ensures State(store.lib, res) == RestoreNotes(State(old(store.lib), NOTHING), plans)
  {
    hide RestoreNote;
    res := NOTHING;
    for i := 0 to |plans|
      invariant State(store.lib, res) == RestoreNotes(State(old(store.lib), NOTHING), plans[..i])
    {
      assert plans[..i + 1][..i] == plans[..i];
      res := RestoreNoteStep(store, res, plans[i]);
    }
    assert plans[..|plans|] == plans;
  }

  method DryNotesLoop(store: Store, plans: seq<Plan>) returns (res: Result)
    ensures res == DryNotes(store.lib, plans)
  {
    res := NOTHING;
    for i := 0 to |plans|
      invariant res == DryNotes(store.lib, plans[..i])
    {
      assert plans[..i + 1][..i] == plans[..i];
      var found := store.NoteByContentHash(plans[i].digest);
      if found > 0 {
        res := res.(already := res.already + 1, idMap := res.idMap[plans[i].was := found]);
      } else {
        res := res.(created := res.created + [plans[i].name]);
      }
    }
    assert plans[..|plans|] == plans;
  }

  /** The whole restore: plan, refuse a stranger's library, create, then link. A dry run only looks. */
  method Import(store: Store, files: seq<File>, homes: Homes, dry: bool, limit: Option<int>) returns (res: Result)
    modifies store
    ensures State(store.lib, res) == ImportSome(old(store.lib), Plans(files, homes), limit, dry)
    ensures dry ==> store.lib == old(store.lib)
    ensures !dry && limit.None? ==> State(store.lib, res) == ImportExport(old(store.lib), files, homes)
  {
    hide Plans, HoldsStranger, RestoreNotes, RestoreLinks, DryNotes;
    if files == [] {
      NoFiles(store.lib, homes, limit, dry);
      return NOTHING;
    }
    var plans := Plans(files, homes);
    var stranger := FindStranger(store.lib.notes, plans);
    if stranger {
      return NOTHING.(errors := 1);
    }
    var some := Limited(plans, limit);
    if dry {
      res := DryNotesLoop(store, some);
      return;
    }
    res := RestoreNotesLoop(store, some);
    res := RestoreLinksLoop(store, res, some);
  }

  lemma NoFiles(lib: Library, homes: Homes, limit: Option<int>, dry: bool)
    ensures ImportSome(lib, Plans([], homes), limit, dry) == State(lib, NOTHING) == ImportExport(lib, [], homes)
  {
    assert Plans([], homes) == [];
  }

  lemma {:induction false} LinksOfKeep(st: State, src: nat, specs: seq<string>)
    ensures var r := RestoreLinksOf(st, src, specs);
            && r.res.idMap == st.res.idMap && r.res.created == st.res.created
            && r.lib.notes == st.lib.notes && r.lib.others == st.lib.others
            && st.lib.links <= r.lib.links && r.res.errors == st.res.errors
    decreases |specs|
  {
    if specs != [] {
      LinksOfKeep(st, src, specs[..|specs| - 1]);
    }
  }

  /** The second pass touches links only. */
  lemma {:induction false} LinksKeepMap(st: State, plans: seq<Plan>)
    ensures var r := RestoreLinks(st, plans);
            && r.res.idMap == st.res.idMap && r.res.created == st.res.created
            && r.lib.notes == st.lib.notes && r.lib.others == st.lib.others
            && st.lib.links <= r.lib.links && r.res.errors == st.res.errors
    decreases |plans|
  {
    if plans != [] {
      var before, p := plans[..|plans| - 1], plans[|plans| - 1];
      LinksKeepMap(st, before);
      if p.was in st.res.idMap {
        LinksOfKeep(RestoreLinks(st, before), st.res.idMap[p.was], p.links);
      }
    }
  }
}
