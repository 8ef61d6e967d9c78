// End to end: print a whole library, read the files back, restore them into a
// fresh box. The notes come back, and so does the graph of links between them.

module ExportRestore {
  import opened Text
  import opened NotesExport
  import opened NoteReader
  import opened NoteLibrary
  import opened Restore
  import opened RestoreProps
  import opened RestoreRules
  import opened FrontmatterRoundTrip
  import opened NoteRoundTrip
  import opened NoteExact

  /** One library note with what the export prints beside it. */
  datatype Exported = Exported(
    note: Note, area: Option<string>, project: Option<string>,
    name: string, embeds: seq<string>, attached: seq<string>)

  function Document(x: Exported): string {
    NoteDocument(x.note, x.area, x.project, x.embeds)
  }

  predicate HasLinkKinds(note: Note) {
    forall i :: 0 <= i < |note.links| ==> note.links[i].kind in LINK_KINDS
  }

  /** The strings of the frontmatter keep to their lines; nothing is asked of the body or the Thoughts. */
  predicate Exportable(x: Exported) {
    PrintableNote(x.note, x.area, x.project) && HasLinkKinds(x.note)
  }

  predicate AllExportable(xs: seq<Exported>) {
    forall i :: 0 <= i < |xs| ==> Exportable(xs[i])
  }

  function FileOf(x: Exported): File
    requires Exportable(x)
  {
    ReadPrinted(x.note, x.area, x.project, x.embeds);
    File(ReadNote(Document(x)).value, x.name, x.attached)
  }

  function FilesOf(xs: seq<Exported>): (r: seq<File>)
    requires AllExportable(xs)
    ensures |r| == |xs| && forall i :: 0 <= i < |xs| ==> r[i] == FileOf(xs[i])
  {
    seq(|xs|, i requires 0 <= i < |xs| => FileOf(xs[i]))
  }

  // ------------------------------------------------------ one file, read back

  lemma {:induction false} StringsBack(vals: seq<string>)
    ensures StringsOf(Strings(vals)) == vals
  {
    if vals != [] {
      StringsCons(vals);
      StringsBack(vals[1..]);
      assert ([Str(vals[0])] + Strings(vals[1..]))[1..] == Strings(vals[1..]);
    }
  }

  lemma FileMeta(x: Exported)
    requires Exportable(x)
    ensures IsMeta(FileOf(x).unit.meta, x.note, x.area, x.project)
    ensures forall i :: 0 <= i < |FileOf(x).unit.thoughts| ==> !Blank(FileOf(x).unit.thoughts[i].1)
  {
    hide ReadNote, IsMeta, Thoughts, BodyEnd;
    ReadPrinted(x.note, x.area, x.project, x.embeds);
    FrontmatterComesBack(x.note, x.area, x.project);
    ThoughtsGood(UniversalNewlines(x.note.body + Blocks(x.note.entries, x.embeds)), false);
  }

  lemma ListText(meta: map<string, Value>, key: string, vals: seq<string>)
    requires Has(meta, key, List(Strings(vals)))
    ensures ListOf(meta, key) == vals
  {
    hide StringsOf, Strings;
    StringsBack(vals);
  }

  lemma TitleText(meta: map<string, Value>, title: string, name: string)
    requires Has(meta, "title", Str(title))
    ensures TextOf(meta, "title", name) == OrElse(title, name)
  {
  }

  lemma IdNumber(u: Unit, id: nat)
    requires Has(u.meta, "id", Int(id))
    ensures OldId(u) == Some(id as int)
  {
  }

  lemma FileFacts(x: Exported)
    requires Exportable(x)
    ensures var f := FileOf(x);
            && OldId(f.unit) == Some(x.note.id as int)
            && Title(f) == OrElse(x.note.title, x.name)
            && ListOf(f.unit.meta, "links") == LinkSpecs(x.note.links)
            && ListOf(f.unit.meta, "tags") == x.note.tags
  {
    hide Has, Strings, Exportable, LinkSpecs, FileOf, TextOf, ListOf, OldId, OrElse, Keys;
    FileMeta(x);
    var f := FileOf(x);
    IdNumber(f.unit, x.note.id);
    TitleText(f.unit.meta, x.note.title, f.name);
    ListText(f.unit.meta, "links", LinkSpecs(x.note.links));
    ListText(f.unit.meta, "tags", x.note.tags);
    FileName(x);
  }

  lemma FileName(x: Exported)
    requires Exportable(x)
    ensures FileOf(x).name == x.name
  {
  }

  lemma KindsHaveNoColon(kind: string)
    requires kind in LINK_KINDS
    ensures forall i :: 0 <= i < |kind| ==> kind[i] != ':'
  {
  }

  /** A printed link spec is parsed back to its kind and target. */
  lemma LinkSpecParses(l: Link)
    requires l.kind in LINK_KINDS
    ensures ParseLink(LinkSpec(l)) == Some((l.kind, l.target))
  {
    var s, d := LinkSpec(l), Decimal(l.target);
    KindsHaveNoColon(l.kind);
    ColonAt(l.kind, d);
    ParseDecimal(l.target);
    assert s[..|l.kind|] == l.kind && s[|l.kind| + 1..] == d;
  }

  lemma ColonAt(kind: string, d: string)
    requires forall i :: 0 <= i < |kind| ==> kind[i] != ':'
    ensures Find(kind + ":" + d, ":") == |kind|
  {
    var s := kind + ":" + d;
    assert s[|kind|..|kind| + 1] == ":";
    assert OccursAt(s, ":", |kind|);
    forall i | 0 <= i < |kind| ensures !OccursAt(s, ":", i) {
      OccursCharwise(s, ":", i);
      assert s[i + 0] == kind[i];
    }
  }

  // ------------------------------------------------------- the row it becomes

  /** The title a note is given that has none to speak of. */
  function FirstWords(body: string): string {
    Strip(Cut(TitleFrom(SplitLines(body), "export import"), 300), Spaces)
  }

  /** A title that is restored as it is: neither cut nor, unless the body says the same, replaced. */
  predicate KeepsTitle(title: string, body: string) {
    && title != "" && Trimmed(title, Spaces) && |title| <= 300
    && (AllFiller(title) ==> FirstWords(body) == title)
  }

  predicate StoredTags(tags: seq<string>) {
    && TagsOk(tags)
    && (forall i :: 0 <= i < |tags| ==> Trimmed(tags[i], Spaces))
    && (forall i, j :: 0 <= i < j < |tags| ==> tags[i] != tags[j])
  }

  /** What the note tables themselves guarantee of a stored note. */
  predicate StoreValid(note: Note) {
    && StoredTags(note.tags)
    && OrElse(note.noteType, "note") in NOTE_TYPES
    && OrElse(note.status, "inbox") in NOTE_STATUSES
    && OrElse(note.authoredBy, "owner") in NOTE_AUTHORS
  }

  function NameOf(name: Option<string>): string {
    if name.None? then "" else name.value
  }

  /** The status a note comes back with: its own, unless it was active in a home unknown here. */
  function StatusOf(x: Exported, homes: Homes): string {
    var status := OrElse(x.note.status, "inbox");
    if status == "active" && Fold(NameOf(x.area)) !in homes.areas && Fold(NameOf(x.project)) !in homes.projects
    then "inbox" else status
  }

  lemma StoredTagsInit(tags: seq<string>, n: nat)
    requires StoredTags(tags) && n + 1 == |tags|
    ensures StoredTags(tags[..n]) && tags[n] !in tags[..n] && Strip(tags[n], Spaces) == tags[n]
    ensures tags[..n] + [tags[n]] == tags
  {
    StripOfTrimmed(tags[n], Spaces);
    hide Strip, Blank;
    assert forall i :: 0 <= i < n ==> tags[..n][i] == tags[i];
  }

  lemma {:induction false} TagsKept(tags: seq<string>)
    requires StoredTags(tags)
    ensures EncodeTags(tags) == tags
  {
    hide Strip, StoredTags;
    if tags != [] {
      StoredTagsInit(tags, |tags| - 1);
      TagsKept(tags[..|tags| - 1]);
    }
  }

  lemma {:induction false} NonBlankKept(tags: seq<string>)
    requires TagsOk(tags)
    ensures NonBlank(tags) == tags
  {
    if tags != [] {
      NonBlankKept(tags[1..]);
    }
  }

  lemma StatusFolds(status: string)
    requires status in NOTE_STATUSES
    ensures Fold(status) == status
  {
    assert status[0] in "ia" && status[|status| - 1] in "xed";
    StripOfTrimmed(status, Spaces);
    assert forall i :: 0 <= i < |status| ==> !('A' <= status[i] <= 'Z');
    assert Lower(status) == status;
  }

  /** The text begins with something to see. */
  predicate Visible(s: string) {
    s != "" && !IsSpace(s[0])
  }

  lemma StripVisible(s: string)
    ensures Strip(s, Spaces) == "" || Visible(Strip(s, Spaces))
  {
  }

  lemma {:induction false} TitleFromWords(lines: seq<string>, otherwise: string)
    requires Visible(otherwise)
    ensures Visible(TitleFrom(lines, otherwise))
  {
    hide IsSpace, Strip, StripHashes;
    if lines != [] {
      StripVisible(StripHashes(Strip(lines[0], Spaces)));
      TitleFromWords(lines[1..], otherwise);
    }
  }

  lemma CutVisible(s: string, n: nat)
    requires Visible(s) && n > 0
    ensures Visible(Cut(s, n))
  {
  }

  lemma CleanTitleVisible(title: string, body: string, source: string)
    requires Visible(source + " import")
    ensures Visible(CleanTitle(title, body, source))
  {
    hide Visible, Strip, TitleFrom, SplitLines, IsFiller, Cut;
    TitleFromWords(SplitLines(body), source + " import");
    CutVisible(TitleFrom(SplitLines(body), source + " import"), 300);
    StripVisible(title);
    if Strip(title, Spaces) != "" {
      CutVisible(Strip(title, Spaces), 300);
    }
  }

  lemma VisibleNotBlank(s: string)
    requires Visible(s)
    ensures !Blank(s)
  {
  }

  lemma SourceVisible()
    ensures Visible("export" + " import")
  {
    assert ("export" + " import")[0] == 'e';
  }

  /** Whatever a note was called, it is restored under a real title. */
  lemma CleanTitleIsReal(title: string, body: string)
    ensures !Blank(CleanTitle(title, body, "export"))
  {
    hide *;
    SourceVisible();
    CleanTitleVisible(title, body, "export");
    VisibleNotBlank(CleanTitle(title, body, "export"));
  }

  lemma StripIsTrimmed(s: string)
    ensures Trimmed(Strip(s, Spaces), Spaces)
    ensures Trimmed(s, Spaces) ==> Strip(s, Spaces) == s
  {
    if Trimmed(s, Spaces) {
      StripOfTrimmed(s, Spaces);
    }
  }

  /** Which titles come back. */
  lemma TitleExact(title: string, body: string)
    requires title != ""
    ensures Strip(CleanTitle(title, body, "export"), Spaces) == title <==> KeepsTitle(title, body)
  {
    hide TitleFrom, SplitLines, AllFiller, Strip, Strippable.Has;
    assert "export" + " import" == "export import";
    StripIsTrimmed(title);
    var t := Strip(title, Spaces);
    StripIsTrimmed(Cut(t, 300));
    if AllFiller(t) {
      StripIsTrimmed(Cut(TitleFrom(SplitLines(body), "export import"), 300));
    }
  }

  lemma FirstLineIsTitle(line: string)
    requires line != "" && line[0] != '#' && |line| <= 300 && Trimmed(line, Spaces) && NoLineBreak(line)
    ensures FirstWords(line) == line
  {
    SplitLinesLast(line);
    StripOfTrimmed(line, Spaces);
  }

  /** A title of dots is dropped for the first line of the body. */
  lemma FillerIsReplaced(title: string, line: string)
    requires title != "" && AllFiller(title) && Trimmed(title, Spaces) && title != line
    requires line != "" && line[0] != '#' && |line| <= 300 && Trimmed(line, Spaces) && NoLineBreak(line)
    ensures Strip(CleanTitle(title, line, "export"), Spaces) == line && !KeepsTitle(title, line)
  {
    hide TitleFrom, SplitLines, Strip, AllFiller, Trimmed;
    FirstLineIsTitle(line);
    StripIsTrimmed(title);
    assert "export" + " import" == "export import";
  }

  /** Two titles the note table takes: one of dots, and one that is too long. */
  lemma TitlesLost(long: string, body: string)
    requires |long| > 300
    ensures !KeepsTitle("...", "milk") && Strip(CleanTitle("...", "milk", "export"), Spaces) == "milk"
    ensures !KeepsTitle(long, body)
  {
    hide FirstWords, CleanTitle, Strip;
    FillerIsReplaced("...", "milk");
  }

  lemma TextOfString(meta: map<string, Value>, key: string, s: string, otherwise: string)
    requires Has(meta, key, Str(s)) && s != ""
    ensures TextOf(meta, key, otherwise) == s
  {
  }

  lemma TextOfOption(meta: map<string, Value>, key: string, o: Option<string>)
    requires Has(meta, key, OptionValue(o))
    ensures TextOf(meta, key, "") == NameOf(o)
  {
  }

  /** The words of the frontmatter, as the restore picks them out. */
  lemma MetaTexts(meta: map<string, Value>, x: Exported)
    requires IsMeta(meta, x.note, x.area, x.project)
    ensures TextOf(meta, "type", "note") == OrElse(x.note.noteType, "note")
    ensures TextOf(meta, "status", "inbox") == OrElse(x.note.status, "inbox")
    ensures TextOf(meta, "authored_by", "import") == OrElse(x.note.authoredBy, "owner")
    ensures TextOf(meta, "area", "") == NameOf(x.area)
    ensures TextOf(meta, "project", "") == NameOf(x.project)
  {
    assert OrElse(x.note.noteType, "note") != "" && OrElse(x.note.status, "inbox") != "";
    assert OrElse(x.note.authoredBy, "owner") != "";
    hide Strings, LinkSpecs, Keys, TextOf, OrElse;
    TextOfString(meta, "type", OrElse(x.note.noteType, "note"), "note");
    TextOfString(meta, "status", OrElse(x.note.status, "inbox"), "inbox");
    TextOfString(meta, "authored_by", OrElse(x.note.authoredBy, "owner"), "import");
    TextOfOption(meta, "area", x.area);
    TextOfOption(meta, "project", x.project);
  }

  /** Everything the frontmatter says of the note but its title. */
  predicate IsRowOf(row: Row, x: Exported, homes: Homes) {
    && row.tags == x.note.tags
    && row.noteType == OrElse(x.note.noteType, "note")
    && row.author == OrElse(x.note.authoredBy, "owner")
    && row.status == StatusOf(x, homes)
    && FiledUnder(row.area, homes.areas, NameOf(x.area))
    && FiledUnder(row.project, homes.projects, NameOf(x.project))
  }

  lemma RowFromIs(x: Exported, homes: Homes, title: string, body: string, d: Digest)
    requires StoreValid(x.note)
    ensures IsRowOf(RowFrom(title, body, OrElse(x.note.noteType, "note"), OrElse(x.note.status, "inbox"),
                            Home(homes.areas, NameOf(x.area)), Home(homes.projects, NameOf(x.project)),
                            x.note.tags, OrElse(x.note.authoredBy, "owner"), d), x, homes)
  {
    assert TagsOk(x.note.tags);
    hide CleanTitle, TagsOk, NonBlank, Fold, OrElse;
    NonBlankKept(x.note.tags);
  }

  lemma PlannedRowIs(x: Exported, homes: Homes)
    requires Exportable(x) && StoreValid(x.note)
    ensures var row := PlannedRow(FileOf(x), homes);
            && IsRowOf(row, x, homes) && row.body == FileOf(x).unit.body
            && row.title == CleanTitle(OrElse(x.note.title, x.name), row.body, "export")
  {
    StatusFolds(OrElse(x.note.status, "inbox"));
    hide IsMeta, StoreValid, Title, ListOf, TextOf, DigestOf, Exportable, Fold, IsRowOf, OrElse, CleanTitle, FileOf;
    FileMeta(x);
    FileFacts(x);
    MetaTexts(FileOf(x).unit.meta, x);
    RowFromIs(x, homes, Title(FileOf(x)), FileOf(x).unit.body, DigestOf(FileOf(x)));
  }

  lemma RowCreatable(row: Row, x: Exported, homes: Homes)
    requires IsRowOf(row, x, homes) && StoreValid(x.note) && !Blank(row.title)
    ensures Creatable(row)
  {
  }

  lemma PlanAccepted(x: Exported, homes: Homes)
    requires Exportable(x) && StoreValid(x.note)
    ensures Accepted(PlanOf(FileOf(x), homes))
  {
    hide Exportable, StoreValid, IsRowOf, Creatable, FileOf, PlannedRow, CleanTitle;
    FileMeta(x);
    PlannedRowIs(x, homes);
    var row := PlannedRow(FileOf(x), homes);
    CleanTitleIsReal(OrElse(x.note.title, x.name), row.body);
    RowCreatable(row, x, homes);
  }

  /** The Thoughts as stored: the printed stamp and the text as it was. */
  predicate KeepsEntries(row: Row, note: Note) {
    && |row.entries| == |note.entries|
    && forall i :: 0 <= i < |note.entries| ==>
         row.entries[i] == StoredEntry(Some(Stamp(note.entries[i])), note.entries[i].text)
  }

  /** The format carries the note, and the Thoughts are as the tables keep them. */
  predicate Intact(x: Exported) {
    && PlainNames(x.embeds) && StampsOk(x.note.entries) && Carried(x.note)
    && forall i :: 0 <= i < |x.note.entries| ==> Trimmed(x.note.entries[i].text, Spaces)
  }

  lemma RestoredTitle(x: Exported, homes: Homes)
    requires Exportable(x) && StoreValid(x.note) && x.note.title != ""
    ensures var row := FinalRow(PlanOf(FileOf(x), homes));
            row.title == x.note.title <==> KeepsTitle(x.note.title, row.body)
  {
    hide Exportable, StoreValid, IsRowOf, FileOf, PlannedRow, CleanTitle, KeepsTitle;
    PlannedRowIs(x, homes);
    TitleExact(x.note.title, PlannedRow(FileOf(x), homes).body);
  }

  lemma RestoredFields(x: Exported, homes: Homes)
    requires Exportable(x) && StoreValid(x.note)
    ensures var row := FinalRow(PlanOf(FileOf(x), homes));
            IsRowOf(row, x, homes) && row.body == FileOf(x).unit.body
  {
    hide Exportable, FileOf, PlannedRow, CleanTitle, OrElse, Home;
    PlannedRowIs(x, homes);
    TagsKept(x.note.tags);
  }

  lemma RestoredContent(x: Exported, homes: Homes)
    requires Exportable(x) && Intact(x)
    ensures var row := FinalRow(PlanOf(FileOf(x), homes));
            row.body == x.note.body && KeepsEntries(row, x.note)
  {
    hide PrintableNote, Carried, IsMeta, PlainNames, StampsOk, ReadNote, CleanTitle, Read;
    NoteRoundTripExact(x.note, x.area, x.project, x.embeds);
    EntriesKept(x.note.entries);
  }

  lemma EntriesKept(entries: seq<Entry>)
    requires forall i :: 0 <= i < |entries| ==> Trimmed(entries[i].text, Spaces)
    ensures forall i :: 0 <= i < |entries| ==>
              StoredThoughts(Read(entries))[i] == StoredEntry(Some(Stamp(entries[i])), entries[i].text)
  {
    forall i | 0 <= i < |entries|
      ensures StoredThoughts(Read(entries))[i] == StoredEntry(Some(Stamp(entries[i])), entries[i].text)
    {
      StripOfTrimmed(entries[i].text, Spaces);
    }
  }

  // ------------------------------------------------------ the whole library

  function PlansOf(xs: seq<Exported>, homes: Homes): (r: seq<Plan>)
    requires AllExportable(xs)
    ensures |r| == |xs| && forall i :: 0 <= i < |xs| ==> r[i] == PlanOf(FileOf(xs[i]), homes)
  {
    Plans(FilesOf(xs), homes)
  }

  /** A library the tables could hold, no two of its notes the same to a restore. */
  predicate LibraryOf(xs: seq<Exported>, homes: Homes) {
    && AllExportable(xs) && (forall i :: 0 <= i < |xs| ==> StoreValid(xs[i].note))
    && (forall i, j :: 0 <= i < j < |xs| ==> xs[i].note.id != xs[j].note.id)
    && DistinctDigests(PlansOf(xs, homes))
  }

  /** Who a note is to a restore: its content hash, or its old id when it has none. */
  function Identity(note: Note): string {
    Strip(OrElse(NameOf(note.contentHash), "export-note-" + Decimal(note.id)), Spaces)
  }

  lemma HashText(meta: map<string, Value>, o: Option<string>, otherwise: string)
    requires Has(meta, "content_hash", OptionValue(o))
    ensures TextOf(meta, "content_hash", otherwise) == OrElse(NameOf(o), otherwise)
  {
  }

  lemma IdentityIsSource(x: Exported)
    requires Exportable(x)
    ensures SourceId(FileOf(x).unit) == Identity(x.note)
  {
    hide Has, Strings, Exportable, LinkSpecs, FileOf, TextOf, OldId, Keys, Strip, OrElse, NameOf;
    FileMeta(x);
    var u := FileOf(x).unit;
    IdNumber(u, x.note.id);
    HashText(u.meta, x.note.contentHash, "export-note-" + IdText(OldId(u)));
  }

  /** Notes of different identities are different to a restore, whatever happened to their texts. */
  lemma IdentitiesSuffice(xs: seq<Exported>, homes: Homes)
    requires AllExportable(xs)
    requires forall i, j :: 0 <= i < j < |xs| ==> Identity(xs[i].note) != Identity(xs[j].note)
    ensures DistinctDigests(PlansOf(xs, homes))
  {
    hide Exportable, FileOf, Identity, SourceId, PlannedRow;
    forall i, j | 0 <= i < j < |xs|
      ensures PlansOf(xs, homes)[i].digest != PlansOf(xs, homes)[j].digest
    {
      IdentityIsSource(xs[i]);
      IdentityIsSource(xs[j]);
    }
  }

  lemma PlanWas(x: Exported, homes: Homes)
    requires Exportable(x)
    ensures PlanOf(FileOf(x), homes).was == Some(x.note.id as int)
    ensures PlanOf(FileOf(x), homes).links == LinkSpecs(x.note.links)
  {
    FileFacts(x);
  }

  lemma PlansSound(xs: seq<Exported>, homes: Homes)
    requires LibraryOf(xs, homes)
    ensures AllAccepted(PlansOf(xs, homes)) && DistinctIds(PlansOf(xs, homes))
  {
    var plans := PlansOf(xs, homes);
    hide PlanOf, Accepted, Exportable;
    forall i | 0 <= i < |plans| ensures Accepted(plans[i]) {
      PlanAccepted(xs[i], homes);
    }
    forall i, j | 0 <= i < j < |plans| ensures plans[i].was != plans[j].was {
      PlanWas(xs[i], homes);
      PlanWas(xs[j], homes);
    }
  }

  lemma FoundAt(plans: seq<Plan>, i: nat)
    requires i < |plans| && AllHashed(plans) && DistinctDigests(plans)
    ensures FindHash(FinalRows(plans), plans[i].digest) == i + 1
  {
    var rows := FinalRows(plans);
    assert rows[i].hash == Some(plans[i].digest);
    var r := FindHash(rows, plans[i].digest);
    assert r > 0 && rows[r - 1].hash == Some(plans[r - 1].digest);
  }

  /** Everything the first pass leaves behind, in one place. */
  lemma FirstPass(xs: seq<Exported>, homes: Homes)
    requires LibraryOf(xs, homes)
    ensures var plans := PlansOf(xs, homes);
            var st := RestoreNotes(State(EMPTY, NOTHING), plans);
            && AllIn(st, plans) && MapOf(st, plans)
            && forall i :: 0 <= i < |xs| ==> plans[i].was in st.res.idMap && st.res.idMap[plans[i].was] == i + 1
  {
    var plans := PlansOf(xs, homes);
    PlansSound(xs, homes);
    RestoredRows(plans);
    AllMapTo(State(EMPTY, NOTHING), plans);
    AllFromPlans({}, plans);
    var st := RestoreNotes(State(EMPTY, NOTHING), plans);
    assert AllHashed(plans) by {
      forall i | 0 <= i < |plans| ensures plans[i].row.hash == Some(plans[i].digest) {
        assert Accepted(plans[i]);
      }
    }
    hide RestoreNotes, PlanOf, FinalRow, FindHash, Accepted, Exportable, AllHashed, Known;
    forall i | 0 <= i < |xs| ensures plans[i].was in st.res.idMap && st.res.idMap[plans[i].was] == i + 1 {
      assert MapsTo(st, plans[i]);
      FoundAt(plans, i);
    }
  }

  lemma NotRefused(plans: seq<Plan>)
    ensures ImportPlans(EMPTY, plans) == RestoreLinks(RestoreNotes(State(EMPTY, NOTHING), plans), plans)
  {
  }

  /** How one note comes back. */
  predicate ComesBack(row: Row, x: Exported, homes: Homes) {
    && IsRowOf(row, x, homes)
    && (x.note.title != "" ==> (row.title == x.note.title <==> KeepsTitle(x.note.title, row.body)))
    && (Intact(x) ==> row.body == x.note.body && KeepsEntries(row, x.note))
  }

  lemma FinalRowComesBack(x: Exported, homes: Homes)
    requires Exportable(x) && StoreValid(x.note)
    ensures ComesBack(FinalRow(PlanOf(FileOf(x), homes)), x, homes)
  {
    hide Exportable, StoreValid, IsRowOf, KeepsTitle, KeepsEntries, Intact, FinalRow, PlanOf, FileOf;
    RestoredFields(x, homes);
    if x.note.title != "" {
      RestoredTitle(x, homes);
    }
    if Intact(x) {
      RestoredContent(x, homes);
    }
  }

  /**
   * Every note comes back under a new id of its own, without an error, with all its
   * frontmatter; its title when it needs no cut, its body and Thoughts when the
   * format carries them.
   */
  lemma ContentsRestored(xs: seq<Exported>, homes: Homes)
    requires LibraryOf(xs, homes)
    ensures var r := ImportExport(EMPTY, FilesOf(xs), homes);
            && |r.lib.notes| == |xs| && r.res.errors == 0 && |r.res.created| == |xs|
            && forall i :: 0 <= i < |xs| ==>
                 && Some(xs[i].note.id as int) in r.res.idMap && r.res.idMap[Some(xs[i].note.id as int)] == i + 1
                 && ComesBack(r.lib.notes[i], xs[i], homes)
  {
    var plans := PlansOf(xs, homes);
    FirstPass(xs, homes);
    NotRefused(plans);
    var st := RestoreNotes(State(EMPTY, NOTHING), plans);
    LinksKeepMap(st, plans);
    hide RestoreNotes, RestoreLinks, PlanOf, FinalRow, Exportable, ComesBack, MapOf, ImportPlans;
    forall i | 0 <= i < |xs|
      ensures Some(xs[i].note.id as int) in st.res.idMap && st.res.idMap[Some(xs[i].note.id as int)] == i + 1
      ensures ComesBack(st.lib.notes[i], xs[i], homes)
    {
      PlanWas(xs[i], homes);
      FinalRowComesBack(xs[i], homes);
    }
  }

  // -------------------------------------------------------------- the graph

  /** The map sends the `i`-th old id to `i + 1`, and knows no other id. */
  predicate NewIds(ids: seq<nat>, m: map<Option<int>, nat>) {
    && (forall i :: 0 <= i < |ids| ==> Some(ids[i] as int) in m && m[Some(ids[i] as int)] == i + 1)
    && (forall k :: k in m ==> exists i :: 0 <= i < |ids| && k == Some(ids[i] as int))
  }

  predicate Fresh(lib: NoteLibrary.Library, n: nat) {
    |lib.notes| == n && lib.others == {}
  }

  predicate TargetIs(ids: seq<nat>, target: nat, j: int) {
    0 <= j < |ids| && ids[j] == target
  }

  lemma MapFinds(ids: seq<nat>, m: map<Option<int>, nat>, target: nat, j: nat)
    requires NewIds(ids, m)
    ensures TargetIs(ids, target, j) ==> Some(target as int) in m && m[Some(target as int)] == j + 1
  {
  }

  lemma MapFound(ids: seq<nat>, m: map<Option<int>, nat>, target: nat) returns (j: nat)
    requires NewIds(ids, m) && Some(target as int) in m
    ensures TargetIs(ids, target, j) && m[Some(target as int)] == j + 1
  {
    var i :| 0 <= i < |ids| && Some(target as int) == Some(ids[i] as int);
    j := i;
  }

  lemma OtherKindsRefused(src: nat, link: Link, m: map<Option<int>, nat>, lib: NoteLibrary.Library, l: LinkRow)
    requires lib.others == {} && link.kind in LINK_KINDS && link.kind != "note"
    ensures !AsksBySpec(src, LinkSpec(link), m, lib, l)
  {
    LinkSpecParses(link);
    hide ParseLink, LinkSpec;
  }

  lemma NoteLinkAsks(src: nat, link: Link, m: map<Option<int>, nat>, lib: NoteLibrary.Library, l: LinkRow)
    requires link.kind == "note" && lib.HasNote(src)
    ensures AsksBySpec(src, LinkSpec(link), m, lib, l) <==>
            Some(link.target as int) in m && l == LinkRow(src, "note", m[Some(link.target as int)])
                && lib.HasNote(l.target)
  {
    LinkSpecParses(link);
    hide ParseLink, LinkSpec;
  }

  /** What one printed link turns into in a fresh box. */
  lemma SpecAsks(ids: seq<nat>, m: map<Option<int>, nat>, lib: NoteLibrary.Library, src: nat, link: Link, l: LinkRow)
    requires NewIds(ids, m) && Fresh(lib, |ids|) && 1 <= src <= |ids| && link.kind in LINK_KINDS
    ensures AsksBySpec(src, LinkSpec(link), m, lib, l) ==>
              link.kind == "note" && l.source == src && l.kind == "note" && TargetIs(ids, link.target, l.target - 1)
    ensures link.kind == "note" && l.source == src && l.kind == "note" && TargetIs(ids, link.target, l.target - 1) ==>
              AsksBySpec(src, LinkSpec(link), m, lib, l)
  {
    hide AsksBySpec, NewIds, LinkSpec;
    if link.kind == "note" {
      NoteLinkAsks(src, link, m, lib, l);
      if Some(link.target as int) in m {
        var j := MapFound(ids, m, link.target);
      }
      if TargetIs(ids, link.target, l.target - 1) {
        MapFinds(ids, m, link.target, l.target - 1);
      }
    } else {
      OtherKindsRefused(src, link, m, lib, l);
    }
  }

  /** A link row that is the image of one of `links`. */
  predicate ImageOf(links: seq<Link>, ids: seq<nat>, src: nat, l: LinkRow) {
    && l.source == src && l.kind == "note" && 1 <= l.target <= |ids|
    && Link("note", ids[l.target - 1]) in links
  }

  lemma PlanAsks(p: Plan, links: seq<Link>, ids: seq<nat>, m: map<Option<int>, nat>, lib: NoteLibrary.Library,
      src: nat, l: LinkRow)
    requires NewIds(ids, m) && Fresh(lib, |ids|) && 1 <= src <= |ids|
    requires p.was in m && m[p.was] == src && p.links == LinkSpecs(links)
    requires forall k :: 0 <= k < |links| ==> links[k].kind in LINK_KINDS
    ensures Asks(p, m, lib, l) <==> ImageOf(links, ids, src, l)
  {
    hide AsksBySpec, LinkSpec, NewIds;
    if Asks(p, m, lib, l) {
      var k :| 0 <= k < |links| && AsksBySpec(src, p.links[k], m, lib, l);
      SpecAsks(ids, m, lib, src, links[k], l);
      assert links[k] == Link("note", ids[l.target - 1]);
    }
    if ImageOf(links, ids, src, l) {
      var k :| 0 <= k < |links| && links[k] == Link("note", ids[l.target - 1]);
      SpecAsks(ids, m, lib, src, links[k], l);
      assert AsksBySpec(src, p.links[k], m, lib, l);
    }
  }

  predicate Numbered(plans: seq<Plan>, ids: seq<nat>) {
    |plans| == |ids| && forall i :: 0 <= i < |ids| ==> plans[i].was == Some(ids[i] as int)
  }

  /** The plan asks for printed links of known kinds. */
  predicate AsksFor(p: Plan, links: seq<Link>) {
    p.links == LinkSpecs(links) && forall k :: 0 <= k < |links| ==> links[k].kind in LINK_KINDS
  }

  lemma NumberedMap(plans: seq<Plan>, ids: seq<nat>, st: State)
    requires MapOf(st, plans) && Numbered(plans, ids)
    requires forall i :: 0 <= i < |plans| ==> plans[i].was in st.res.idMap && st.res.idMap[plans[i].was] == i + 1
    ensures NewIds(ids, st.res.idMap)
  {
    hide AllMapped;
    forall i | 0 <= i < |ids|
      ensures Some(ids[i] as int) in st.res.idMap && st.res.idMap[Some(ids[i] as int)] == i + 1
    {
      assert plans[i].was == Some(ids[i] as int);
    }
    forall k | k in st.res.idMap ensures exists i :: 0 <= i < |ids| && k == Some(ids[i] as int) {
      var i :| 0 <= i < |plans| && plans[i].was == k;
      assert k == Some(ids[i] as int);
    }
  }

  /** Plans numbered by old ids, each asking for its printed links, before the second pass. */
  predicate Ready(plans: seq<Plan>, links: seq<seq<Link>>, ids: seq<nat>, st: State) {
    && Numbered(plans, ids) && |links| == |ids| && NewIds(ids, st.res.idMap)
    && Fresh(st.lib, |ids|) && st.lib.links == {}
    && forall i :: 0 <= i < |plans| ==> AsksFor(plans[i], links[i])
  }

  lemma ReadyAt(plans: seq<Plan>, links: seq<seq<Link>>, ids: seq<nat>, st: State, i: nat, l: LinkRow)
    requires Ready(plans, links, ids, st) && i < |plans|
    ensures i < |ids| == |links| && (Asks(plans[i], st.res.idMap, st.lib, l) <==> ImageOf(links[i], ids, i + 1, l))
  {
    hide Asks, ImageOf, LinkSpecs;
    assert AsksFor(plans[i], links[i]) && Some(ids[i] as int) in st.res.idMap;
    PlanAsks(plans[i], links[i], ids, st.res.idMap, st.lib, i + 1, l);
  }

  lemma ReadyMeans(plans: seq<Plan>, links: seq<seq<Link>>, ids: seq<nat>, st: State)
    requires Ready(plans, links, ids, st)
    ensures |plans| == |ids| == |links| && st.lib.links == {}
  {
  }

  lemma LinkedIsImage(plans: seq<Plan>, links: seq<seq<Link>>, ids: seq<nat>, st: State, l: LinkRow)
    requires Ready(plans, links, ids, st) && l in RestoreLinks(st, plans).lib.links
    ensures 1 <= l.source <= |ids| == |links| && ImageOf(links[l.source - 1], ids, l.source, l)
  {
    hide RestoreLinks, Asks, ImageOf, Ready;
    ReadyMeans(plans, links, ids, st);
    var i := NewLinkAsked(st, plans, l);
    ReadyAt(plans, links, ids, st, i, l);
    ImageSource(links[i], ids, i + 1, l);
  }

  lemma ImageIsLinked(plans: seq<Plan>, links: seq<seq<Link>>, ids: seq<nat>, st: State, l: LinkRow)
    requires Ready(plans, links, ids, st) && 1 <= l.source <= |ids| == |links|
    requires ImageOf(links[l.source - 1], ids, l.source, l)
    ensures l in RestoreLinks(st, plans).lib.links
  {
    hide RestoreLinks, Asks, ImageOf, Ready;
    ReadyMeans(plans, links, ids, st);
    ReadyAt(plans, links, ids, st, l.source - 1, l);
    AskedIsLinked(st, plans, l.source - 1, l);
  }

  lemma LinkPass(plans: seq<Plan>, links: seq<seq<Link>>, ids: seq<nat>, st: State, l: LinkRow)
    requires Ready(plans, links, ids, st)
    ensures |links| == |ids|
    ensures l in RestoreLinks(st, plans).lib.links <==>
            1 <= l.source <= |ids| && ImageOf(links[l.source - 1], ids, l.source, l)
  {
    hide *;
    ReadyMeans(plans, links, ids, st);
    if l in RestoreLinks(st, plans).lib.links {
      LinkedIsImage(plans, links, ids, st, l);
    } else if 1 <= l.source <= |ids| && ImageOf(links[l.source - 1], ids, l.source, l) {
      ImageIsLinked(plans, links, ids, st, l);
    }
  }

  lemma ImageSource(links: seq<Link>, ids: seq<nat>, src: nat, l: LinkRow)
    requires ImageOf(links, ids, src, l)
    ensures l.source == src
  {
  }

  function Ids(xs: seq<Exported>): (r: seq<nat>)
    ensures |r| == |xs| && forall i :: 0 <= i < |xs| ==> r[i] == xs[i].note.id
  {
    seq(|xs|, i requires 0 <= i < |xs| => xs[i].note.id)
  }

  function Links(xs: seq<Exported>): (r: seq<seq<Link>>)
    ensures |r| == |xs| && forall i :: 0 <= i < |xs| ==> r[i] == xs[i].note.links
  {
    seq(|xs|, i requires 0 <= i < |xs| => xs[i].note.links)
  }

  lemma PlansAskFor(xs: seq<Exported>, homes: Homes)
    requires AllExportable(xs)
    ensures Numbered(PlansOf(xs, homes), Ids(xs))
    ensures forall i :: 0 <= i < |xs| ==> AsksFor(PlansOf(xs, homes)[i], Links(xs)[i])
  {
    var plans := PlansOf(xs, homes);
    hide PlanOf, FileOf;
    forall i | 0 <= i < |xs| ensures plans[i].was == Some(Ids(xs)[i] as int) && AsksFor(plans[i], Links(xs)[i]) {
      assert Exportable(xs[i]) && HasLinkKinds(xs[i].note);
      PlanWas(xs[i], homes);
    }
  }

  /** The row is the image, under the id map, of a link of some exported note to another. */
  predicate IsImage(xs: seq<Exported>, l: LinkRow) {
    1 <= l.source <= |xs| && ImageOf(xs[l.source - 1].note.links, Ids(xs), l.source, l)
  }

  lemma ImportIs(xs: seq<Exported>, homes: Homes)
    requires AllExportable(xs)
    ensures var plans := PlansOf(xs, homes);
            ImportExport(EMPTY, FilesOf(xs), homes) == RestoreLinks(RestoreNotes(State(EMPTY, NOTHING), plans), plans)
  {
    NotRefused(PlansOf(xs, homes));
  }

  lemma FirstPassIds(xs: seq<Exported>, homes: Homes)
    requires LibraryOf(xs, homes)
    ensures var st := RestoreNotes(State(EMPTY, NOTHING), PlansOf(xs, homes));
            NewIds(Ids(xs), st.res.idMap) && Fresh(st.lib, |xs|) && st.lib.links == {}
  {
    var plans := PlansOf(xs, homes);
    FirstPass(xs, homes);
    PlansAskFor(xs, homes);
    var st := RestoreNotes(State(EMPTY, NOTHING), plans);
    assert AllIn(st, plans);
    hide RestoreNotes, MapOf, LibraryOf, Numbered, NewIds, FinalRow, PlansOf, PlanOf, FileOf;
    NumberedMap(plans, Ids(xs), st);
  }

  lemma ReadyForLinks(xs: seq<Exported>, homes: Homes)
    requires LibraryOf(xs, homes) && AllExportable(xs)
    ensures Ready(PlansOf(xs, homes), Links(xs), Ids(xs), RestoreNotes(State(EMPTY, NOTHING), PlansOf(xs, homes)))
  {
    hide Exportable, RestoreNotes, PlansOf, Numbered, NewIds, AsksFor, Fresh, LibraryOf;
    FirstPassIds(xs, homes);
    PlansAskFor(xs, homes);
    NumberedLength(PlansOf(xs, homes), Ids(xs));
  }

  lemma NumberedLength(plans: seq<Plan>, ids: seq<nat>)
    requires Numbered(plans, ids)
    ensures |plans| == |ids|
  {
  }

  lemma ImageIs(xs: seq<Exported>, l: LinkRow)
    ensures IsImage(xs, l) <==> 1 <= l.source <= |Ids(xs)| && ImageOf(Links(xs)[l.source - 1], Ids(xs), l.source, l)
  {
    hide ImageOf;
  }

  lemma LibraryExportable(xs: seq<Exported>, homes: Homes)
    requires LibraryOf(xs, homes)
    ensures AllExportable(xs)
  {
    hide AllExportable, DistinctDigests, PlansOf;
  }

  /**
   * The restored link graph is the exported one under the id map, and nothing
   * else: a row is there exactly when it is the image of a link between two
   * exported notes.
   */
  lemma GraphRestored(xs: seq<Exported>, homes: Homes, l: LinkRow)
    requires LibraryOf(xs, homes)
    ensures l in ImportExport(EMPTY, FilesOf(xs), homes).lib.links <==> IsImage(xs, l)
  {
    hide *;
    ImageIs(xs, l);
    LibraryExportable(xs, homes);
    ReadyForLinks(xs, homes);
    ImportIs(xs, homes);
    LinkPass(PlansOf(xs, homes), Links(xs), Ids(xs), RestoreNotes(State(EMPTY, NOTHING), PlansOf(xs, homes)), l);
  }

  /** Restoring the same export again changes nothing at all. */
  lemma ExportRestoredTwice(xs: seq<Exported>, homes: Homes)
    requires LibraryOf(xs, homes)
    ensures var once := ImportExport(EMPTY, FilesOf(xs), homes).lib;
            var again := ImportExport(once, FilesOf(xs), homes);
            again.lib == once && again.res.created == [] && again.res.already == |xs|
  {
    PlansSound(xs, homes);
    RestoreTwice({}, PlansOf(xs, homes));
  }
}
