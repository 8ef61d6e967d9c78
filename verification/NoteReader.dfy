// backend/notes_import.py: reading one exported note back, body first.

module NoteReader {
  import opened Text
  import opened NotesExport
  import YamlLite

  /** A Thought read back: its heading's stamp, if it followed one, and its text. */
  type Thought = (Option<string>, string)

  /** The stamp of a Thought heading `### <stamp>`; trailing blanks are allowed. */
  function HeadStamp(line: string): Option<string> {
    if !StartsWith(line, "### ") then None
    else
      var stamp := StripRight(line[4..], Spaces);
      if stamp != "" && forall i :: 0 <= i < |stamp| ==> !IsSpace(stamp[i]) then Some(stamp) else None
  }

  datatype Scan = Scan(stamp: Option<string>, lines: seq<string>, done: seq<Thought>) {
    function Flush(): seq<Thought> {
      if stamp.Some? || lines != [] then done + [(stamp, Strip(Join(lines, "\n"), Newlines))] else done
    }

    function Next(line: string): Scan {
      var head := HeadStamp(line);
      if head.Some? then Scan(head, [], Flush()) else this.(lines := lines + [line])
    }

    function All(more: seq<string>): Scan
      decreases |more|
    {
      if more == [] then this else Next(more[0]).All(more[1..])
    }
  }

  function DropBlank(ts: seq<Thought>): seq<Thought> {
    if ts == [] then []
    else (if Strip(ts[0].1, Spaces) == "" then [] else [ts[0]]) + DropBlank(ts[1..])
  }

  /** Where the body ends: the first of the two delimiters, or the end. */
  function BodyEnd(text: string): (r: nat)
    ensures r <= |text|
  {
    var t, a := Find(text, "\n" + THOUGHTS_MARK), Find(text, "\n" + ATTACH_MARK);
    var cut := if t != -1 then t else |text|;
    if a != -1 && a < cut then a else cut
  }

  /** `s` up to the first match of `q`. */
  function UpTo(s: string, q: string): string {
    var i := Find(s, q);
    if i != -1 then s[..i] else s
  }

  /** The Thoughts section, up to the attachments section. */
  function ThoughtsText(text: string): Option<string> {
    var t := Find(text, "\n" + THOUGHTS_MARK);
    if t == -1 then None
    else Some(UpTo(text[t + |THOUGHTS_MARK| + 1..], "\n" + ATTACH_MARK))
  }

  function Thoughts(text: string): seq<Thought> {
    match ThoughtsText(text)
    case None => []
    case Some(rest) => DropBlank(Scan(None, [], []).All(SplitLines(rest)).Flush())
  }

  lemma {:induction false} ScanSnoc(st: Scan, lines: seq<string>, line: string)
    ensures st.All(lines + [line]) == st.All(lines).Next(line)
    decreases |lines|
  {
    if lines == [] {
      assert (lines + [line])[1..] == [];
    } else {
      assert (lines + [line])[1..] == lines[1..] + [line];
      ScanSnoc(st.Next(lines[0]), lines[1..], line);
    }
  }

  method SplitDocument(text: string) returns (body: string, thoughts: seq<Thought>)
    ensures body == text[..BodyEnd(text)]
    ensures thoughts == Thoughts(text)
  {
    var cut := |text|;
    var i := Find(text, "\n" + THOUGHTS_MARK);
    if i != -1 && i < cut {
      cut := i;
    }
    i := Find(text, "\n" + ATTACH_MARK);
    if i != -1 && i < cut {
      cut := i;
    }
    body := text[..cut];
    thoughts := [];
    var rest := ThoughtsText(text);
    if rest.None? {
      return;
    }
    var lines := SplitLines(rest.value);
    var stamp: Option<string>, cur: seq<string> := None, [];
    for n := 0 to |lines|
      invariant Scan(stamp, cur, thoughts) == Scan(None, [], []).All(lines[..n])
    {
      ScanSnoc(Scan(None, [], []), lines[..n], lines[n]);
      assert lines[..n + 1] == lines[..n] + [lines[n]];
      var head := HeadStamp(lines[n]);
      if head.Some? {
        if stamp.Some? || cur != [] {
          thoughts := thoughts + [(stamp, Strip(Join(cur, "\n"), Newlines))];
        }
        stamp, cur := head, [];
        continue;
      }
      cur := cur + [lines[n]];
    }
    assert lines[..|lines|] == lines;
    if stamp.Some? || cur != [] {
      thoughts := thoughts + [(stamp, Strip(Join(cur, "\n"), Newlines))];
    }
    thoughts := DropBlank(thoughts);
  }

  /** The frontmatter block of a file and what follows it, or None for a file that is not a note. */
  function MatchFrontmatter(raw: string): Option<(string, string)> {
    if !StartsWith(raw, "---\n") then None
    else
      var i := Find(raw, "\n---", 4);
      if i == -1 then None
      else
        var after := i + 4;
        Some((raw[4..i], raw[if after < |raw| && raw[after] == '\n' then after + 1 else after..]))
  }

  datatype Unit = Unit(meta: map<string, Value>, body: string, thoughts: seq<Thought>)

  /** One exported file read back: opened in text mode, then split. */
  function ReadNote(doc: string): Option<Unit> {
    match MatchFrontmatter(UniversalNewlines(doc))
    case None => None
    case Some(parts) =>
      Some(Unit(YamlLite.Parse(parts.0), parts.1[..BodyEnd(parts.1)], Thoughts(parts.1)))
  }
}
