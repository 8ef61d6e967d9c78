// backend/notes_export.py: the text of one exported note. Frontmatter that a
// restore reads, the body verbatim, then Thoughts and attachments, each below a
// delimiter comment.

module NotesExport {
  import opened Text

  const THOUGHTS_MARK := "<!-- hermes-hq:thoughts -->"
  const ATTACH_MARK := "<!-- hermes-hq:attachments -->"

  /** The frontmatter values both ends of the format know. */
  datatype Value = Null | Bool(b: bool) | Int(n: int) | Str(s: string) | List(items: seq<Value>)

  datatype Link = Link(kind: string, target: nat)

  /** A Thought: its printed timestamp and its text. */
  datatype Entry = Entry(stamp: string, text: string)

  /** A library note as the export snapshot holds it; timestamps are already printed. */
  datatype Note = Note(
    id: nat, title: string, body: string, noteType: string, status: string,
    tags: seq<string>, authoredBy: string, contentHash: Option<string>,
    created: string, updated: string, pinned: bool, disputed: bool,
    links: seq<Link>, entries: seq<Entry>)

  /** `s.replace(c, with)` for a one-character pattern. */
  function ReplaceChar(s: string, c: char, with: string): string {
    if s == "" then "" else (if s[0] == c then with else [s[0]]) + ReplaceChar(s[1..], c, with)
  }

  function Escape(s: string): string {
    ReplaceChar(ReplaceChar(s, '\\', "\\\\"), '"', "\\\"")
  }

  function Quote(s: string): string {
    "\"" + Escape(s) + "\""
  }

  function Scalar(v: Value): string
    requires !v.List?
  {
    match v
    case Null => "null"
    case Bool(b) => if b then "true" else "false"
    case Int(n) => if n < 0 then "-" + Decimal(-n) else Decimal(n)
    case Str(s) => Quote(s)
  }

  function QuoteAll(vals: seq<string>): (r: seq<string>)
    ensures |r| == |vals| && forall i :: 0 <= i < |r| ==> r[i] == Quote(vals[i])
  {
    seq(|vals|, i requires 0 <= i < |vals| => Quote(vals[i]))
  }

  function Flow(vals: seq<string>): string {
    "[" + Join(QuoteAll(vals), ", ") + "]"
  }

  function OrElse(s: string, otherwise: string): string {
    if s == "" then otherwise else s
  }

  function OptionValue(s: Option<string>): Value {
    if s.None? then Null else Str(s.value)
  }

  function LinkSpec(l: Link): string {
    l.kind + ":" + Decimal(l.target)
  }

  function LinkSpecs(links: seq<Link>): (r: seq<string>)
    ensures |r| == |links| && forall i :: 0 <= i < |r| ==> r[i] == LinkSpec(links[i])
  {
    seq(|links|, i requires 0 <= i < |links| => LinkSpec(links[i]))
  }

  /** One frontmatter line, by the way its value is printed. */
  datatype Field =
    | Number(key: string, n: nat)
    | Quoted(key: string, s: string)
    | Word(key: string, w: string, otherwise: string)
    | Optional(key: string, o: Option<string>)
    | Flag(key: string, b: bool)
    | Many(key: string, vals: seq<string>)
  {
    function Text(): string {
      match this
      case Number(_, n) => Decimal(n)
      case Quoted(_, s) => Quote(s)
      case Word(_, w, d) => OrElse(w, d)
      case Optional(_, o) => Scalar(OptionValue(o))
      case Flag(_, b) => Scalar(Bool(b))
      case Many(_, vals) => Flow(vals)
    }
  }

  function Fields(note: Note, area: Option<string>, project: Option<string>): seq<Field> {
    [ Number("id", note.id),
      Quoted("title", note.title),
      Word("type", note.noteType, "note"),
      Word("status", note.status, "inbox"),
      Optional("area", area),
      Optional("project", project),
      Many("tags", note.tags),
      Word("authored_by", note.authoredBy, "owner"),
      Optional("content_hash", note.contentHash),
      Quoted("created", note.created),
      Quoted("updated", note.updated),
      Flag("pinned", note.pinned),
      Flag("disputed", note.disputed),
      Many("links", LinkSpecs(note.links)) ]
  }

  function FieldLine(f: Field): string {
    f.key + ": " + f.Text()
  }

  function FieldLines(fs: seq<Field>): (r: seq<string>)
    ensures |r| == |fs| && forall i :: 0 <= i < |r| ==> r[i] == FieldLine(fs[i])
  {
    seq(|fs|, i requires 0 <= i < |fs| => FieldLine(fs[i]))
  }

  function FrontmatterText(note: Note, area: Option<string>, project: Option<string>): string {
    Join(FieldLines(Fields(note, area, project)), "\n")
  }

  function Frontmatter(note: Note, area: Option<string>, project: Option<string>): string {
    "---\n" + FrontmatterText(note, area, project) + "\n---\n"
  }

  function ThoughtParts(entries: seq<Entry>): seq<string> {
    if entries == [] then []
    else ["### " + OrElse(entries[0].stamp, "unknown"), entries[0].text] + ThoughtParts(entries[1..])
  }

  function ThoughtsBlock(entries: seq<Entry>): string {
    if entries == [] then ""
    else "\n" + Join([THOUGHTS_MARK] + ThoughtParts(entries), "\n\n") + "\n"
  }

  function Embeds(files: seq<string>): (r: seq<string>)
    ensures |r| == |files| && forall i :: 0 <= i < |r| ==> r[i] == "![[" + files[i] + "]]"
  {
    seq(|files|, i requires 0 <= i < |files| => "![[" + files[i] + "]]")
  }

  function AttachmentsBlock(files: seq<string>): string {
    if files == [] then ""
    else "\n" + Join([ATTACH_MARK] + Embeds(files), "\n") + "\n"
  }

  function Blocks(entries: seq<Entry>, files: seq<string>): string {
    ThoughtsBlock(entries) + AttachmentsBlock(files)
  }

  function NoteDocument(note: Note, area: Option<string>, project: Option<string>,
                        files: seq<string>): string {
    Frontmatter(note, area, project) + note.body + Blocks(note.entries, files)
  }
}
