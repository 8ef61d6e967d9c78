// Which notes survive an export and a restore: a condition on the note alone,
// equivalent to getting back its frontmatter, its body and its Thoughts.

module NoteExact {
  import opened Text
  import opened NotesExport
  import opened NoteReader
  import opened NoteRoundTrip
  import opened FrontmatterRoundTrip
  import YamlLite

  // ------------------------------------------- what the scanner can return

  /** A line the scanner collects; with `marks`, also not an attachments delimiter. */
  predicate GoodLine(l: string, marks: bool) {
    NoLineBreak(l) && HeadStamp(l).None? && (marks ==> !StartsWith(l, ATTACH_MARK))
  }

  predicate GoodLines(ls: seq<string>, marks: bool) {
    forall k :: 0 <= k < |ls| ==> GoodLine(ls[k], marks)
  }

  predicate GoodText(s: string, marks: bool) {
    GoodLines(SplitNewline(s), marks)
  }

  lemma EmptyLineGood(marks: bool)
    ensures GoodLine("", marks)
  {
  }

  predicate BreakFree(ls: seq<string>) {
    forall k :: 0 <= k < |ls| ==> NoLineBreak(ls[k])
  }

  lemma {:induction false} BreakFreeIsPlain(s: string)
    requires BreakFree(SplitNewline(s))
    ensures PlainLines(s)
  {
    if s != "" {
      var ls, t := SplitNewline(s), SplitNewline(s[1..]);
      if s[0] == '\n' {
        assert forall k :: 0 <= k < |t| ==> t[k] == ls[k + 1];
      } else {
        assert ls[0] == [s[0]] + t[0] && NoLineBreak(ls[0]);
        assert ls[0][0] == s[0];
        assert forall c :: 0 <= c < |t[0]| ==> t[0][c] == ls[0][c + 1];
        assert forall k :: 1 <= k < |t| ==> t[k] == ls[k];
      }
      BreakFreeIsPlain(s[1..]);
      assert forall i :: 1 <= i < |s| ==> s[i] == s[1..][i - 1];
    }
  }

  lemma {:induction false} SplitJoin(lines: seq<string>)
    requires lines != [] && forall k :: 0 <= k < |lines| ==> NoNewline(lines[k])
    ensures SplitNewline(Join(lines, "\n")) == lines
  {
    if |lines| == 1 {
      SplitNewlineSingle(lines[0]);
    } else {
      SplitJoin(lines[1..]);
      SplitNewlineConcat(lines[0], Join(lines[1..], "\n"));
      SplitNewlineSingle(lines[0]);
    }
  }

  lemma {:induction false} GoodStripLeft(s: string, marks: bool)
    requires GoodText(s, marks)
    ensures GoodText(StripLeft(s, Newlines), marks)
  {
    if s != "" && s[0] == '\n' {
      var ls, t := SplitNewline(s), SplitNewline(s[1..]);
      assert forall k :: 0 <= k < |t| ==> t[k] == ls[k + 1];
      GoodStripLeft(s[1..], marks);
    }
  }

  lemma {:induction false} GoodStripRight(s: string, marks: bool)
    requires GoodText(s, marks)
    ensures GoodText(StripRight(s, Newlines), marks)
  {
    if s != "" && s[|s| - 1] == '\n' {
      var t := s[..|s| - 1];
      assert s == t + "\n" + "";
      SplitNewlineConcat(t, "");
      var ls := SplitNewline(t);
      assert forall k :: 0 <= k < |ls| ==> ls[k] == SplitNewline(s)[k];
      GoodStripRight(t, marks);
    }
  }

  /** Collected lines, joined and stripped, make a text of collected lines. */
  lemma CollectedGood(lines: seq<string>, marks: bool)
    requires GoodLines(lines, marks)
    ensures GoodText(Strip(Join(lines, "\n"), Newlines), marks)
  {
    EmptyLineGood(marks);
    if lines != [] {
      forall k | 0 <= k < |lines| ensures NoNewline(lines[k]) {
        assert GoodLine(lines[k], marks);
      }
      SplitJoin(lines);
    }
    GoodStripLeft(Join(lines, "\n"), marks);
    GoodStripRight(StripLeft(Join(lines, "\n"), Newlines), marks);
  }

  predicate GoodThought(t: Thought, marks: bool) {
    GoodText(t.1, marks) && Trimmed(t.1, Newlines)
  }

  predicate GoodThoughts(ts: seq<Thought>, marks: bool) {
    forall i :: 0 <= i < |ts| ==> GoodThought(ts[i], marks)
  }

  lemma FlushGood(st: Scan, marks: bool)
    requires GoodLines(st.lines, marks) && GoodThoughts(st.done, marks)
    ensures GoodThoughts(st.Flush(), marks)
  {
    CollectedGood(st.lines, marks);
  }

  /** A line as `splitlines` gives it, not an attachments delimiter when `marks`. */
  predicate Scannable(ls: seq<string>, marks: bool) {
    forall k :: 0 <= k < |ls| ==> NoLineBreak(ls[k]) && (marks ==> !StartsWith(ls[k], ATTACH_MARK))
  }

  predicate GoodScan(st: Scan, marks: bool) {
    GoodLines(st.lines, marks) && GoodThoughts(st.done, marks)
  }

  lemma NextGood(st: Scan, line: string, marks: bool)
    requires GoodScan(st, marks) && NoLineBreak(line) && (marks ==> !StartsWith(line, ATTACH_MARK))
    ensures GoodScan(st.Next(line), marks)
  {
    hide HeadStamp, GoodThoughts;
    FlushGood(st, marks);
    assert HeadStamp(line).None? ==> GoodLine(line, marks);
  }

  lemma {:induction false} ScanGood(st: Scan, lines: seq<string>, marks: bool)
    requires GoodScan(st, marks) && Scannable(lines, marks)
    ensures GoodScan(st.All(lines), marks)
    decreases |lines|
  {
    hide GoodScan, Scan.Next;
    if lines != [] {
      NextGood(st, lines[0], marks);
      ScanGood(st.Next(lines[0]), lines[1..], marks);
    }
  }

  lemma {:induction false} DropBlankFrom(ts: seq<Thought>)
    ensures forall t :: t in DropBlank(ts) ==> t in ts && Strip(t.1, Spaces) != ""
  {
    if ts != [] {
      DropBlankFrom(ts[1..]);
    }
  }

  lemma DropBlankGood(ts: seq<Thought>, marks: bool)
    requires GoodThoughts(ts, marks)
    ensures GoodThoughts(DropBlank(ts), marks)
    ensures forall i :: 0 <= i < |DropBlank(ts)| ==> !Blank(DropBlank(ts)[i].1)
  {
    DropBlankFrom(ts);
    var kept := DropBlank(ts);
    forall i | 0 <= i < |kept| ensures GoodThought(kept[i], marks) && !Blank(kept[i].1) {
      assert kept[i] in kept;
      var j :| 0 <= j < |ts| && ts[j] == kept[i];
      assert GoodThought(ts[j], marks);
      StripEmptyIffBlank(kept[i].1);
    }
  }

  /** Whatever the document, each Thought read back is one the format can carry. */
  lemma ThoughtsGood(text: string, marks: bool)
    requires marks && ThoughtsText(text).Some? ==>
               Scannable(SplitLines(ThoughtsText(text).value), true)
    ensures GoodThoughts(Thoughts(text), marks)
    ensures forall i :: 0 <= i < |Thoughts(text)| ==> !Blank(Thoughts(text)[i].1)
  {
    if ThoughtsText(text).Some? {
      var ls := SplitLines(ThoughtsText(text).value);
      SplitLinesAreLines(ThoughtsText(text).value);
      ScanGood(Scan(None, [], []), ls, marks);
      FlushGood(Scan(None, [], []).All(ls), marks);
      DropBlankGood(Scan(None, [], []).All(ls).Flush(), marks);
    }
  }

  lemma {:induction false} PlainSplit(s: string)
    requires PlainLines(s)
    ensures |SplitLines(s)| <= |SplitNewline(s)|
    ensures forall k :: 0 <= k < |SplitLines(s)| ==> SplitLines(s)[k] == SplitNewline(s)[k]
    ensures SplitLines(s) == [] ==> SplitNewline(s) == [""]
  {
    if s != "" {
      PlainSplit(s[1..]);
    }
  }

  lemma SectionScannable(section: string)
    requires PlainLines(section) && MarkFree(section, ATTACH_MARK)
    requires section == "" || section[0] == '\n'
    ensures Scannable(SplitLines(section), true)
  {
    PlainSplit(section);
    SplitLinesAreLines(section);
    var ls, ns := SplitLines(section), SplitNewline(section);
    forall k | 0 <= k < |ls| ensures !StartsWith(ls[k], ATTACH_MARK) {
      if k > 0 {
        assert ns[1..][k - 1] == ns[k];
      }
    }
  }

  lemma {:induction false} ChunksPlain(entries: seq<Entry>)
    requires StampsOk(entries) && PlainTexts(entries)
    ensures PlainLines(Chunks(entries))
  {
    if entries != [] {
      assert StampOk(entries[0]) && PlainLines(entries[0].text);
      StampWord(entries[0]);
      ChunksPlain(entries[1..]);
    }
  }

  lemma ReadTexts(entries: seq<Entry>, marks: bool)
    requires GoodThoughts(Read(entries), marks)
    ensures forall i :: 0 <= i < |entries| ==>
              GoodText(entries[i].text, marks) && Trimmed(entries[i].text, Newlines)
  {
    forall i | 0 <= i < |entries|
      ensures GoodText(entries[i].text, marks) && Trimmed(entries[i].text, Newlines)
    {
      assert GoodThought(Read(entries)[i], marks);
    }
  }

  lemma GoodEntry(e: Entry)
    requires GoodText(e.text, true) && Trimmed(e.text, Newlines) && !Blank(e.text)
    ensures EntryOk(e)
  {
    var ls := SplitNewline(e.text);
    forall k | 0 <= k < |ls|
      ensures NoLineBreak(ls[k]) && HeadStamp(ls[k]).None? && !StartsWith(ls[k], ATTACH_MARK)
    {
      assert GoodLine(ls[k], true);
    }
    BreakFreeIsPlain(e.text);
  }

  lemma PlainEntries(entries: seq<Entry>)
    requires forall i :: 0 <= i < |entries| ==> GoodText(entries[i].text, false)
    ensures PlainTexts(entries)
  {
    forall i | 0 <= i < |entries| ensures PlainLines(entries[i].text) {
      var ls := SplitNewline(entries[i].text);
      forall k | 0 <= k < |ls| ensures NoLineBreak(ls[k]) {
        assert GoodLine(ls[k], false);
      }
      BreakFreeIsPlain(entries[i].text);
    }
  }

  /** The parsed section itself keeps to the rules once the texts are plain. */
  lemma SectionGood(body: string, entries: seq<Entry>, files: seq<string>)
    requires FileNames(files) && BodyOk(body) && StampsOk(entries) && entries != []
    requires PlainTexts(entries)
    ensures var section := ThoughtsText(body + Blocks(entries, files));
            section.Some? && Scannable(SplitLines(section.value), true)
  {
    SectionIs(body, entries, files);
    ChunksPlain(entries);
    SectionScannable(ThoughtsText(body + Blocks(entries, files)).value);
  }

  lemma ThoughtsBackAreGood(body: string, entries: seq<Entry>, files: seq<string>)
    requires FileNames(files) && BodyOk(body) && StampsOk(entries) && entries != []
    requires Thoughts(body + Blocks(entries, files)) == Read(entries)
    ensures EntriesOk(entries)
  {
    var text := body + Blocks(entries, files);
    assert PlainTexts(entries) by {
      ThoughtsGood(text, false);
      ReadTexts(entries, false);
      PlainEntries(entries);
    }
    SectionGood(body, entries, files);
    ThoughtsGood(text, true);
    ReadTexts(entries, true);
    forall i | 0 <= i < |entries| ensures EntryOk(entries[i]) {
      assert !Blank(Read(entries)[i].1);
      GoodEntry(entries[i]);
    }
  }

  /** Thoughts come back exactly when each of them is one the format can carry. */
  lemma ThoughtsExact(body: string, entries: seq<Entry>, files: seq<string>)
    requires FileNames(files) && BodyOk(body) && StampsOk(entries)
    ensures Thoughts(body + Blocks(entries, files)) == Read(entries) <==> EntriesOk(entries)
  {
    if EntriesOk(entries) {
      ThoughtsRoundTrip(body, entries, files);
    }
    if Thoughts(body + Blocks(entries, files)) == Read(entries) && entries != [] {
      ThoughtsBackAreGood(body, entries, files);
    }
  }

  // --------------------------------------------------------- the whole note

  lemma {:induction false} UniversalNewlinesAfter(a: string, b: string)
    requires NoCarriageReturn(a)
    ensures UniversalNewlines(a + b) == a + UniversalNewlines(b)
  {
    if a == "" {
      assert a + b == b;
    } else {
      assert (a + b)[1..] == a[1..] + b;
      UniversalNewlinesAfter(a[1..], b);
      assert [a[0]] + a[1..] == a;
    }
  }

  lemma {:induction false} JoinNoReturn(lines: seq<string>)
    requires forall k :: 0 <= k < |lines| ==> NoLineBreak(lines[k])
    ensures NoCarriageReturn(Join(lines, "\n"))
  {
    if lines != [] {
      assert NoLineBreak(lines[0]);
      if |lines| > 1 {
        JoinNoReturn(lines[1..]);
      }
    }
  }

  /** The printed frontmatter is one line a field, none of them a `---` line. */
  lemma FrontmatterLines(note: Note, area: Option<string>, project: Option<string>)
    requires PrintableNote(note, area, project)
    ensures NoCarriageReturn(FrontmatterText(note, area, project))
    ensures MarkFree(FrontmatterText(note, area, project), "---")
  {
    var fs := Fields(note, area, project);
    var lines := FieldLines(fs);
    forall i | 0 <= i < |lines| ensures NoLineBreak(lines[i]) && NoNewline(lines[i]) && !StartsWith(lines[i], "---") {
      FieldKey(note, area, project, i);
      KeyWellFormed(i);
      PrintableLine(fs[i]);
      KeyNotDash(i);
      assert lines[i][0] == Keys()[i][0];
      if |lines[i]| >= 3 {
        assert lines[i][..3][0] != "---"[0];
      }
    }
    JoinNoReturn(lines);
    SplitJoin(lines);
    assert forall k :: 0 <= k < |lines[1..]| ==> lines[1..][k] == lines[k + 1];
  }

  lemma KeyNotDash(i: nat)
    requires i < 14
    ensures Keys()[i] != "" && Keys()[i][0] != '-'
  {
  }

  lemma OccursBeyond(a: string, b: string, q: string)
    ensures forall j :: |a| <= j ==> (OccursAt(a + b, q, j) <==> OccursAt(b, q, j - |a|))
  {
    forall j | |a| <= j ensures OccursAt(a + b, q, j) <==> OccursAt(b, q, j - |a|) {
      OccursInSuffix(a, b, q, j - |a|);
    }
  }

  /** `find` from where the first part ends looks at the second part alone. */
  lemma FindFrom(a: string, b: string, q: string)
    requires Find(b, q) != -1
    ensures Find(a + b, q, |a|) == |a| + Find(b, q)
  {
    OccursBeyond(a, b, q);
    hide *;
    var f, g := Find(a + b, q, |a|), Find(b, q);
    assert OccursAt(a + b, q, |a| + g);
    assert OccursAt(b, q, f - |a|);
  }

  /** The frontmatter pattern takes exactly the printed block. */
  lemma FrontmatterMatched(text: string, rest: string)
    requires MarkFree(text, "---")
    ensures MatchFrontmatter("---\n" + text + "\n---\n" + rest) == Some((text, rest))
  {
    var tail := "\n---\n" + rest;
    var raw := "---\n" + (text + tail);
    assert raw == "---\n" + text + "\n---\n" + rest;
    FenceFound(text, rest);
    var i := 4 + |text|;
    assert raw[..4] == "---\n" && raw[4..i] == text;
    assert raw[i + 4] == '\n' && raw[i + 5..] == rest;
  }

  lemma FenceFirst(rest: string)
    ensures Find("\n---\n" + rest, "\n---") == 0
  {
    var tail := "\n---\n" + rest;
    assert tail[0..4] == "\n---";
    assert OccursAt(tail, "\n---", 0);
  }

  lemma FenceAfter(text: string, tail: string)
    requires MarkFree(text, "---") && StartsLine(tail) && Find(tail, "\n---") == 0
    ensures Find(text + tail, "\n---") == |text|
  {
    assert "\n" + "---" == "\n---";
    FindMark(text, tail, "---");
  }

  lemma FenceFound(text: string, rest: string)
    requires MarkFree(text, "---")
    ensures Find("---\n" + (text + ("\n---\n" + rest)), "\n---", 4) == 4 + |text|
  {
    var tail := "\n---\n" + rest;
    assert StartsLine(tail) && |"---\n"| == 4;
    hide *;
    FenceFirst(rest);
    FenceAfter(text, tail);
    FindFrom("---\n", text + tail, "\n---");
  }

  /** A note the format carries: nothing it holds reads as a delimiter. */
  predicate Carried(note: Note) {
    BodyOk(note.body) && NoCarriageReturn(note.body) && EntriesOk(note.entries)
  }

  lemma {:induction false} ThoughtsBlockNoReturn(entries: seq<Entry>)
    requires StampsOk(entries) && PlainTexts(entries)
    ensures NoCarriageReturn(Chunks(entries))
  {
    ChunksPlain(entries);
  }

  lemma EmbedsNoReturn(files: seq<string>)
    requires forall i :: 0 <= i < |files| ==> NoLineBreak(files[i])
    ensures NoCarriageReturn(AttachmentsBlock(files))
  {
    var parts := [ATTACH_MARK] + Embeds(files);
    MarksNoReturn();
    forall k | 0 <= k < |parts| ensures NoLineBreak(parts[k]) {
      if k > 0 {
        assert parts[k] == Embeds(files)[k - 1];
      }
    }
    JoinNoReturn(parts);
  }

  lemma BlocksNoReturn(entries: seq<Entry>, files: seq<string>)
    requires StampsOk(entries) && PlainTexts(entries)
    requires forall i :: 0 <= i < |files| ==> NoLineBreak(files[i])
    ensures NoCarriageReturn(Blocks(entries, files))
  {
    hide ThoughtsBlock, AttachmentsBlock, Chunks, StampsOk, PlainTexts, NoCarriageReturn;
    EmbedsNoReturn(files);
    if entries == [] {
      NoThoughts();
    } else {
      ThoughtsBlockIs(entries);
      ThoughtsBlockNoReturn(entries);
      MarkedNoReturn(Chunks(entries));
    }
    NoReturnConcat(ThoughtsBlock(entries), AttachmentsBlock(files));
  }

  lemma NoThoughts()
    ensures NoCarriageReturn(ThoughtsBlock([]))
  {
  }

  lemma NoReturnConcat(a: string, b: string)
    requires NoCarriageReturn(a) && NoCarriageReturn(b)
    ensures NoCarriageReturn(a + b)
  {
  }

  lemma MarkedNoReturn(s: string)
    requires NoCarriageReturn(s)
    ensures NoCarriageReturn("\n" + THOUGHTS_MARK + ("\n" + s))
  {
    MarksNoReturn();
    hide THOUGHTS_MARK;
    NoReturnConcat("\n", THOUGHTS_MARK);
    NoReturnConcat("\n", s);
    NoReturnConcat("\n" + THOUGHTS_MARK, "\n" + s);
  }

  lemma MarksNoReturn()
    ensures NoLineBreak(THOUGHTS_MARK) && NoLineBreak(ATTACH_MARK)
  {
  }

  predicate PlainNames(files: seq<string>) {
    forall i :: 0 <= i < |files| ==> NoLineBreak(files[i])
  }

  lemma DocumentText(fm: string, rest: string)
    requires NoCarriageReturn(fm) && MarkFree(fm, "---")
    ensures MatchFrontmatter(UniversalNewlines("---\n" + fm + "\n---\n" + rest)) ==
            Some((fm, UniversalNewlines(rest)))
  {
    UniversalNewlinesAfter("---\n" + fm + "\n---\n", rest);
    FrontmatterMatched(fm, UniversalNewlines(rest));
  }

  lemma DocumentParts(note: Note, area: Option<string>, project: Option<string>, files: seq<string>)
    ensures NoteDocument(note, area, project, files) ==
            "---\n" + FrontmatterText(note, area, project) + "\n---\n" + (note.body + Blocks(note.entries, files))
  {
    hide FrontmatterText, Blocks;
    assert Frontmatter(note, area, project) == "---\n" + FrontmatterText(note, area, project) + "\n---\n";
  }

  /** Reading a printed note back: the frontmatter, then whatever text mode made of the rest. */
  lemma ReadPrinted(note: Note, area: Option<string>, project: Option<string>, files: seq<string>)
    requires PrintableNote(note, area, project)
    ensures var text := UniversalNewlines(note.body + Blocks(note.entries, files));
            ReadNote(NoteDocument(note, area, project, files)) ==
            Some(Unit(YamlLite.Parse(FrontmatterText(note, area, project)), text[..BodyEnd(text)], Thoughts(text)))
  {
    hide *;
    var fm := FrontmatterText(note, area, project);
    var rest := note.body + Blocks(note.entries, files);
    DocumentParts(note, area, project, files);
    FrontmatterLines(note, area, project);
    DocumentText(fm, rest);
    ReadMatched(NoteDocument(note, area, project, files), fm, UniversalNewlines(rest));
  }

  lemma ReadMatched(doc: string, fm: string, text: string)
    requires MatchFrontmatter(UniversalNewlines(doc)) == Some((fm, text))
    ensures ReadNote(doc) == Some(Unit(YamlLite.Parse(fm), text[..BodyEnd(text)], Thoughts(text)))
  {
  }

  /** A Thought with a `\r` in it never comes back as it was. */
  lemma ThoughtsPlain(text: string, entries: seq<Entry>)
    requires Thoughts(text) == Read(entries)
    ensures PlainTexts(entries)
  {
    ThoughtsGood(text, false);
    ReadTexts(entries, false);
    PlainEntries(entries);
  }

  predicate SameContent(u: Unit, note: Note) {
    u.body == note.body && u.thoughts == Read(note.entries)
  }

  lemma CarriedComesBack(note: Note, files: seq<string>)
    requires PlainNames(files) && StampsOk(note.entries) && Carried(note)
    ensures var text := note.body + Blocks(note.entries, files);
            && UniversalNewlines(text) == text
            && text[..BodyEnd(text)] == note.body
            && Thoughts(text) == Read(note.entries)
  {
    var text := note.body + Blocks(note.entries, files);
    assert PlainTexts(note.entries) by {
      assert forall i :: 0 <= i < |note.entries| ==> EntryOk(note.entries[i]);
    }
    BlocksNoReturn(note.entries, files);
    UniversalNewlinesIdentity(text);
    BodyEndExact(note.body, note.entries, files);
    ThoughtsRoundTrip(note.body, note.entries, files);
  }

  lemma ComesBackIsCarried(note: Note, files: seq<string>)
    requires PlainNames(files) && StampsOk(note.entries)
    requires var text := UniversalNewlines(note.body + Blocks(note.entries, files));
             text[..BodyEnd(text)] == note.body && Thoughts(text) == Read(note.entries)
    ensures Carried(note)
  {
    hide Blocks, BodyEnd, Thoughts, EntriesOk, BodyOk, StampsOk, PlainTexts, Read;
    var plain := note.body + Blocks(note.entries, files);
    var text := UniversalNewlines(plain);
    assert NoCarriageReturn(note.body) by {
      assert forall i :: 0 <= i < |note.body| ==> note.body[i] == text[i];
    }
    ThoughtsPlain(text, note.entries);
    BlocksNoReturn(note.entries, files);
    UniversalNewlinesIdentity(plain);
    BodyEndExact(note.body, note.entries, files);
    ThoughtsExact(note.body, note.entries, files);
  }

  /**
   * Export then restore, for every note with one-line strings: the frontmatter
   * always comes back whole, and the body and Thoughts come back unchanged
   * exactly when the note is one the format carries.
   */
  lemma NoteRoundTripExact(note: Note, area: Option<string>, project: Option<string>, files: seq<string>)
    requires PrintableNote(note, area, project) && PlainNames(files) && StampsOk(note.entries)
    ensures var u := ReadNote(NoteDocument(note, area, project, files));
            && u.Some?
            && IsMeta(u.value.meta, note, area, project)
            && (SameContent(u.value, note) <==> Carried(note))
  {
    ReadPrinted(note, area, project, files);
    FrontmatterComesBack(note, area, project);
    if Carried(note) {
      CarriedComesBack(note, files);
    }
    if SameContent(ReadNote(NoteDocument(note, area, project, files)).value, note) {
      ComesBackIsCarried(note, files);
    }
  }

  lemma PrefixNoReturn(text: string, n: nat)
    requires NoCarriageReturn(text) && n <= |text|
    ensures NoCarriageReturn(text[..n])
  {
  }

  /** The body alone: text mode and the two delimiters are all that can change it. */
  lemma BodyRoundTripExact(note: Note, area: Option<string>, project: Option<string>, files: seq<string>)
    requires PrintableNote(note, area, project) && PlainNames(files) && StampsOk(note.entries)
    requires PlainTexts(note.entries)
    ensures var u := ReadNote(NoteDocument(note, area, project, files));
            u.Some? && (u.value.body == note.body <==> BodyOk(note.body) && NoCarriageReturn(note.body))
  {
    ReadPrinted(note, area, project, files);
    var plain := note.body + Blocks(note.entries, files);
    var text := UniversalNewlines(plain);
    PrefixNoReturn(text, BodyEnd(text));
    if NoCarriageReturn(note.body) {
      BlocksNoReturn(note.entries, files);
      UniversalNewlinesIdentity(plain);
      BodyEndExact(note.body, note.entries, files);
    }
  }

  /** A line that starts with the first delimiter. */
  const MARKED := "a\n" + THOUGHTS_MARK

  lemma MarkedBody()
    ensures !BodyOk(MARKED)
  {
    hide THOUGHTS_MARK;
    assert MARKED == "a" + "\n" + THOUGHTS_MARK;
    MarksNoReturn();
    SplitNewlineConcat("a", THOUGHTS_MARK);
    SplitNewlineSingle("a");
    SplitNewlineSingle(THOUGHTS_MARK);
    assert SplitNewline(MARKED)[1] == THOUGHTS_MARK;
    assert SplitNewline(MARKED)[1..][0] == THOUGHTS_MARK;
  }

  /** Two bodies that do not come back: one with a carriage return, one with a delimiter on a line of its own. */
  lemma BodyIsChanged(note: Note, area: Option<string>, project: Option<string>, files: seq<string>)
    requires PrintableNote(note, area, project) && PlainNames(files)
    requires StampsOk(note.entries) && PlainTexts(note.entries)
    requires note.body == "a\rb" || note.body == MARKED
    ensures var u := ReadNote(NoteDocument(note, area, project, files));
            u.Some? && u.value.body != note.body
  {
    hide PrintableNote, ReadNote, BodyOk, NoteDocument;
    BodyRoundTripExact(note, area, project, files);
    if note.body == MARKED {
      MarkedBody();
    } else {
      assert note.body[1] == '\r';
    }
  }
}
