// The note tables the importer and the restore write to, as far as their call
// sites rely on them: lookup by content hash, create, append a Thought, link.

module NoteLibrary {
  import opened Text

  /** An ideal, injective content digest: the four things it is taken over. */
  datatype Digest = Digest(sourceId: string, title: string, norm: string, attached: seq<string>)

  /** A Thought as stored: when it was written, if known, and its text. */
  datatype StoredEntry = StoredEntry(stamp: Option<string>, text: string)

  datatype Row = Row(
    title: string, body: string, noteType: string, status: string,
    area: Option<nat>, project: Option<nat>, tags: seq<string>, author: string,
    hash: Option<Digest>, entries: seq<StoredEntry>)

  datatype LinkRow = LinkRow(source: nat, kind: string, target: nat)

  /** Note ids are positions from 1; `others` are the tasks and schedules that exist. */
  datatype Library = Library(notes: seq<Row>, links: set<LinkRow>, others: set<(string, nat)>) {
    predicate HasNote(id: nat) {
      1 <= id <= |notes|
    }
  }

  const EMPTY := Library([], {}, {})

  /** `note_by_content_hash`: the lowest id carrying the digest, or 0. */
  function FindHash(notes: seq<Row>, d: Digest): (r: nat)
    ensures r <= |notes|
    ensures r > 0 ==> notes[r - 1].hash == Some(d)
    ensures forall i :: 0 <= i < (if r == 0 then |notes| else r - 1) ==> notes[i].hash != Some(d)
  {
    if notes == [] then 0
    else
      var n := |notes| - 1;
      var r := FindHash(notes[..n], d);
      if r > 0 then r else if notes[n].hash == Some(d) then |notes| else 0
  }

  lemma FindHashAppend(notes: seq<Row>, more: seq<Row>, d: Digest)
    requires FindHash(notes, d) > 0
    ensures FindHash(notes + more, d) == FindHash(notes, d)
  {
    assert forall i :: 0 <= i < |notes| ==> (notes + more)[i] == notes[i];
  }

  const NOTE_TYPES := {"note", "playbook", "wiki"}
  const NOTE_STATUSES := {"inbox", "active", "archived"}
  const NOTE_AUTHORS := {"owner", "librarian", "import"}
  const LINK_KINDS := {"task", "schedule", "note"}
  const TAG_MAX := 60

  predicate TagsOk(tags: seq<string>) {
    forall i :: 0 <= i < |tags| ==> !Blank(tags[i]) && |tags[i]| <= TAG_MAX
  }

  /** What `create_note` insists on; anything else is a ValueError and no row. */
  predicate Creatable(r: Row) {
    && !Blank(r.title)
    && r.noteType in NOTE_TYPES && r.status in NOTE_STATUSES && r.author in NOTE_AUTHORS
    && (r.status == "active" ==> r.area.Some? || r.project.Some?)
    && TagsOk(r.tags)
  }

  predicate KnownKinds(r: Row) {
    && (r.noteType == "note" || r.noteType == "playbook" || r.noteType == "wiki")
    && (r.status == "inbox" || r.status == "active" || r.status == "archived")
    && (r.author == "owner" || r.author == "librarian" || r.author == "import")
  }

  /** An active note is filed somewhere. */
  predicate HasHome(r: Row) {
    r.status != "active" || r.area != None || r.project != None
  }

  predicate ShortTags(tags: seq<string>) {
    forall t :: t in tags ==> !Blank(t) && |t| <= 60
  }

  lemma CreatableExact(r: Row)
    ensures Creatable(r) <==> !Blank(r.title) && KnownKinds(r) && HasHome(r) && ShortTags(r.tags)
  {
    hide Blank;
    assert TagsOk(r.tags) <==> ShortTags(r.tags);
  }

  /** Tags are stored stripped, each once, first occurrence first. */
  function EncodeTags(tags: seq<string>): seq<string> {
    if tags == [] then []
    else
      var n := |tags| - 1;
      var before, t := EncodeTags(tags[..n]), Strip(tags[n], Spaces);
      if t in before then before else before + [t]
  }

  function Stored(r: Row): Row {
    r.(title := Strip(r.title, Spaces), tags := EncodeTags(r.tags), entries := [])
  }

  function WithEntry(r: Row, stamp: Option<string>, text: string): Row {
    r.(entries := r.entries + [StoredEntry(stamp, Strip(text, Spaces))])
  }

  /** What `link_note` insists on: a known kind, and both ends present. */
  predicate Linkable(lib: Library, l: LinkRow) {
    && l.kind in LINK_KINDS && lib.HasNote(l.source)
    && (if l.kind == "note" then lib.HasNote(l.target) else (l.kind, l.target) in lib.others)
  }

  class Store {
    var lib: Library

    constructor (initial: Library)
      ensures lib == initial
    {
      lib := initial;
    }

    /**
     * The new id, or 0 for a note refused: without a title, of an unknown type, status or author,
     * active with no home, or with a blank or an overlong tag.
     */
    method CreateNote(r: Row) returns (id: nat)
      modifies this
      ensures id > 0 <==> !Blank(r.title) && KnownKinds(r) && HasHome(r) && ShortTags(r.tags)
      ensures Creatable(r) ==> id == |lib.notes| && lib == old(lib).(notes := old(lib).notes + [Stored(r)])
      ensures !Creatable(r) ==> id == 0 && lib == old(lib)
    {
      CreatableExact(r);
      hide Creatable, KnownKinds, Stored;
      if !Creatable(r) {
        return 0;
      }
      lib := lib.(notes := lib.notes + [Stored(r)]);
      id := |lib.notes|;
    }

    method NoteByContentHash(d: Digest) returns (id: nat)
      ensures id == FindHash(lib.notes, d)
    {
      for i := 0 to |lib.notes|
        invariant forall j :: 0 <= j < i ==> lib.notes[j].hash != Some(d)
      {
        if lib.notes[i].hash == Some(d) {
          return i + 1;
        }
      }
      id := 0;
    }

    /** False for a refused entry: a blank text, or no such note. */
    method AddNoteEntry(id: nat, stamp: Option<string>, text: string) returns (ok: bool)
      modifies this
      ensures ok <==> !Blank(text) && old(lib).HasNote(id)
      ensures ok ==> lib == old(lib).(notes := old(lib).notes[id - 1 := WithEntry(old(lib).notes[id - 1], stamp, text)])
      ensures ok ==> lib.notes[id - 1].entries ==
                     old(lib).notes[id - 1].entries + [StoredEntry(stamp, Strip(text, Spaces))]
      ensures !ok ==> lib == old(lib)
    {
      ok := !Blank(text) && lib.HasNote(id);
      if ok {
        lib := lib.(notes := lib.notes[id - 1 := WithEntry(lib.notes[id - 1], stamp, text)]);
      }
    }

    method LinkNote(l: LinkRow) returns (ok: bool)
      modifies this
      ensures ok == Linkable(old(lib), l)
      ensures ok <==> 1 <= l.source <= |old(lib).notes| &&
                      ((l.kind == "note" && 1 <= l.target <= |old(lib).notes|) ||
                       ((l.kind == "task" || l.kind == "schedule") && (l.kind, l.target) in old(lib).others))
      ensures lib == if ok then old(lib).(links := old(lib).links + {l}) else old(lib)
    {
      ok := Linkable(lib, l);
      if ok {
        lib := lib.(links := lib.links + {l});
      }
    }
  }

  // ------------------------------------------------------------ normalising

  const BYTE_ORDER_MARK := '\U{feff}'

  /** The words of a text: its maximal runs of non-space characters, byte-order marks dropped. */
  function Words(s: string, word: string): seq<string> {
    if s == "" then (if word == "" then [] else [word])
    else if s[0] == BYTE_ORDER_MARK then Words(s[1..], word)
    else if IsSpace(s[0]) then (if word == "" then [] else [word]) + Words(s[1..], "")
    else Words(s[1..], word + [s[0]])
  }

  /** `normalize`: every run of white space becomes one blank, none at the ends. */
  function Normalize(s: string): string {
    Join(Words(s, ""), " ")
  }

  lemma {:induction false} WordsLeadingSpaces(s: string)
    ensures Words(StripLeft(s, Spaces), "") == Words(s, "")
  {
    if s != "" && IsSpace(s[0]) {
      WordsLeadingSpaces(s[1..]);
    }
  }

  lemma {:induction false} WordsTrailingSpace(s: string, c: char, word: string)
    requires IsSpace(c)
    ensures Words(s + [c], word) == Words(s, word)
    decreases |s|
  {
    if s == "" {
      assert (s + [c])[1..] == "";
    } else {
      assert (s + [c])[1..] == s[1..] + [c];
      WordsTrailingSpace(s[1..], c,
        if s[0] == BYTE_ORDER_MARK then word else if IsSpace(s[0]) then "" else word + [s[0]]);
    }
  }

  lemma {:induction false} WordsTrailingSpaces(s: string)
    ensures Words(StripRight(s, Spaces), "") == Words(s, "")
  {
    if s != "" && IsSpace(s[|s| - 1]) {
      var n := |s| - 1;
      assert s == s[..n] + [s[n]];
      WordsTrailingSpace(s[..n], s[n], "");
      WordsTrailingSpaces(s[..n]);
    }
  }

  /** A Thought is stored stripped, which its normalised text does not see. */
  lemma NormalizeOfStripped(s: string)
    ensures Normalize(Strip(s, Spaces)) == Normalize(s)
  {
    WordsLeadingSpaces(s);
    WordsTrailingSpaces(StripLeft(s, Spaces));
  }

  // ----------------------------------------------------------------- titles

  /** Characters a title may not consist of alone. */
  predicate IsFiller(c: char) {
    c in ". \t-_" || c == '\U{2014}' || c == '\U{2013}'
  }

  predicate AllFiller(s: string) {
    forall i :: 0 <= i < |s| ==> IsFiller(s[i])
  }

  function Cut(s: string, n: nat): string {
    if |s| <= n then s else s[..n]
  }

  function StripHashes(s: string): string {
    if s != "" && s[0] == '#' then StripHashes(s[1..]) else s
  }

  /** The first line with words in it, heading marks dropped. */
  function TitleFrom(lines: seq<string>, otherwise: string): string {
    if lines == [] then otherwise
    else
      var l := Strip(StripHashes(Strip(lines[0], Spaces)), Spaces);
      if l != "" then Cut(l, 300) else TitleFrom(lines[1..], otherwise)
  }

  /** The title a note is created under: its own, or its first line when that says nothing. */
  function CleanTitle(title: string, body: string, source: string): string {
    var t := Strip(title, Spaces);
    if AllFiller(t) then Cut(TitleFrom(SplitLines(body), source + " import"), 300) else Cut(t, 300)
  }
}
