// Splitting a printed note gives back its body and its Thoughts, exactly when
// no line of theirs can be taken for one of the document's own delimiters.

module NoteRoundTrip {
  import opened Text
  import opened NotesExport
  import opened NoteReader

  // ------------------------------------------------------- marks and lines

  predicate NoLineStarts(lines: seq<string>, mark: string) {
    forall k :: 0 <= k < |lines| ==> !StartsWith(lines[k], mark)
  }

  /** No line after the first starts with `mark`. */
  predicate MarkFree(s: string, mark: string) {
    NoLineStarts(SplitNewline(s)[1..], mark)
  }

  lemma {:induction false} SplitNewlineConcat(a: string, b: string)
    ensures SplitNewline(a + "\n" + b) == SplitNewline(a) + SplitNewline(b)
  {
    var w := a + "\n" + b;
    if a == "" {
      assert w[1..] == b;
    } else {
      assert w[1..] == a[1..] + "\n" + b && w[0] == a[0];
      SplitNewlineConcat(a[1..], b);
    }
  }

  lemma {:induction false} SplitNewlineSingle(s: string)
    requires NoNewline(s)
    ensures SplitNewline(s) == [s]
  {
    if s != "" {
      SplitNewlineSingle(s[1..]);
      assert [s[0]] + s[1..] == s;
    }
  }

  /** The first line holds everything up to the first newline. */
  lemma {:induction false} FirstLine(s: string)
    ensures var l := SplitNewline(s)[0];
            |l| <= |s| && l == s[..|l|] && (|l| < |s| ==> s[|l|] == '\n')
  {
    if s != "" && s[0] != '\n' {
      FirstLine(s[1..]);
    }
  }

  lemma FirstLineStarts(s: string, p: string)
    requires NoNewline(p)
    ensures StartsWith(SplitNewline(s)[0], p) <==> StartsWith(s, p)
  {
    FirstLine(s);
    var l := SplitNewline(s)[0];
    if |p| <= |l| {
      assert s[..|p|] == l[..|p|];
    } else if |p| <= |s| {
      assert s[..|p|][|l|] == s[|l|] == '\n';
      assert p[|l|] != '\n';
    }
  }

  /** A delimiter match after a newline is a line that starts with the delimiter. */
  lemma {:induction false} OccurrenceIsLine(s: string, p: string, i: nat)
    requires NoNewline(p)
    requires OccursAt(s, "\n" + p, i)
    ensures !MarkFree(s, p)
  {
    OccursCharwise(s, "\n" + p, i);
    assert s[i + 0] == ("\n" + p)[0];
    var a, b := s[..i], s[i + 1..];
    assert s == a + "\n" + b;
    SplitNewlineConcat(a, b);
    forall k | 0 <= k < |p| ensures b[k] == p[k] {
      assert s[i + (k + 1)] == ("\n" + p)[k + 1];
    }
    assert b[..|p|] == p;
    FirstLineStarts(b, p);
    var ls, n := SplitNewline(s), |SplitNewline(a)|;
    assert ls[n] == SplitNewline(b)[0] && ls[1..][n - 1] == ls[n];
  }

  lemma OccursOneLater(s: string, q: string, i: int)
    requires s != "" && OccursAt(s[1..], q, i)
    ensures OccursAt(s, q, i + 1)
  {
    var t := s[1..];
    assert s[i + 1..i + 1 + |q|] == t[i..i + |q|];
  }

  /** And the other way round. */
  lemma {:induction false} LineIsOccurrence(s: string, p: string)
    requires NoNewline(p) && !MarkFree(s, p)
    ensures Contains(s, "\n" + p)
    decreases |s|
  {
    if s != "" {
      var t := s[1..];
      assert s[0] == '\n' ==> SplitNewline(s)[1..] == SplitNewline(t);
      assert s[0] != '\n' ==> SplitNewline(s)[1..] == SplitNewline(t)[1..];
      FirstLineStarts(t, p);
      if s[0] == '\n' && StartsWith(t, p) {
        assert s[0..0 + |"\n" + p|] == "\n" + p;
        assert OccursAt(s, "\n" + p, 0);
      } else {
        LineIsOccurrence(t, p);
        var i :| 0 <= i <= |t| && OccursAt(t, "\n" + p, i);
        OccursOneLater(s, "\n" + p, i);
      }
    }
  }

  lemma MarkFreeIffAbsent(s: string, p: string)
    requires NoNewline(p)
    ensures MarkFree(s, p) <==> Find(s, "\n" + p) == -1
  {
    var f := Find(s, "\n" + p);
    if f != -1 {
      OccurrenceIsLine(s, p, f);
    } else if !MarkFree(s, p) {
      LineIsOccurrence(s, p);
    }
  }

  lemma MarksAreLines()
    ensures NoNewline(THOUGHTS_MARK) && NoNewline(ATTACH_MARK)
    ensures !StartsWith(THOUGHTS_MARK, ATTACH_MARK) && !StartsWith(ATTACH_MARK, THOUGHTS_MARK)
  {
    assert |THOUGHTS_MARK| == 27 && |ATTACH_MARK| == 30;
    assert THOUGHTS_MARK[15] == 't' && ATTACH_MARK[15] == 'a';
    assert ATTACH_MARK[..27][15] == 'a';
  }

  lemma OccursInSuffix(a: string, b: string, q: string, i: nat)
    ensures OccursAt(a + b, q, |a| + i) <==> OccursAt(b, q, i)
  {
    if i + |q| <= |b| {
      assert (a + b)[|a| + i..|a| + i + |q|] == b[i..i + |q|];
    }
  }

  /** What `find` returns is characterised by a match with none before it. */
  lemma FindIs(s: string, q: string, i: nat)
    requires OccursAt(s, q, i) && forall j :: 0 <= j < i ==> !OccursAt(s, q, j)
    ensures Find(s, q) == i
  {
  }

  /** A newline followed by text without one: the shape of every delimiter. */
  predicate Delimiter(q: string) {
    q != "" && q[0] == '\n' && NoNewline(q[1..])
  }

  predicate StartsLine(b: string) {
    b == "" || b[0] == '\n'
  }

  lemma DelimiterOf(p: string)
    requires NoNewline(p)
    ensures Delimiter("\n" + p)
  {
    assert ("\n" + p)[1..] == p;
  }

  /** A match inside `a` is found there, whatever follows. */
  lemma FindInPrefix(a: string, b: string, q: string)
    requires Delimiter(q) && StartsLine(b) && Find(a, q) != -1
    ensures Find(a + b, q) == Find(a, q) && Find(a, q) < |a|
  {
    var i := Find(a, q);
    forall j | 0 <= j <= i ensures OccursAt(a + b, q, j) <==> OccursAt(a, q, j) {
      OccursInPrefix(a, b, q, j);
    }
    FindIs(a + b, q, i);
  }

  lemma NoneInPrefix(a: string, b: string, q: string)
    requires Delimiter(q) && StartsLine(b) && Find(a, q) == -1
    ensures forall j :: 0 <= j < |a| ==> !OccursAt(a + b, q, j)
  {
    forall j | 0 <= j < |a| ensures !OccursAt(a + b, q, j) {
      OccursInPrefix(a, b, q, j);
    }
  }

  /** With no match in `a` and none in the rest, there is none. */
  lemma FindNowhere(a: string, b: string, q: string)
    requires Delimiter(q) && StartsLine(b) && Find(a, q) == -1 && Find(b, q) == -1
    ensures Find(a + b, q) == -1
  {
    NoneInPrefix(a, b, q);
    var f := Find(a + b, q);
    if f != -1 {
      OccursInSuffix(a, b, q, f - |a|);
    }
  }

  lemma NoneBefore(a: string, b: string, q: string, i: nat, j: nat)
    requires Delimiter(q) && StartsLine(b) && j < |a| + i
    requires Find(a, q) == -1 && Find(b, q) == i
    ensures !OccursAt(a + b, q, j)
  {
    if j < |a| {
      NoneInPrefix(a, b, q);
    } else {
      OccursInSuffix(a, b, q, j - |a|);
    }
  }

  lemma FirstInSuffix(a: string, b: string, q: string, i: nat)
    requires Delimiter(q) && StartsLine(b) && Find(a, q) == -1 && Find(b, q) == i
    ensures OccursAt(a + b, q, |a| + i)
    ensures forall j :: 0 <= j < |a| + i ==> !OccursAt(a + b, q, j)
  {
    forall j | 0 <= j < |a| + i ensures !OccursAt(a + b, q, j) {
      NoneBefore(a, b, q, i, j);
    }
    OccursInSuffix(a, b, q, i);
  }

  /** With no match in `a`, the first one is where the rest puts it. */
  lemma FindInSuffix(a: string, b: string, q: string, i: nat)
    requires Delimiter(q) && StartsLine(b) && Find(a, q) == -1 && Find(b, q) == i
    ensures Find(a + b, q) == |a| + i
  {
    hide *;
    FirstInSuffix(a, b, q, i);
    FindIs(a + b, q, |a| + i);
  }

  // ------------------------------------------------------------------- body

  lemma FindMark(s: string, b: string, mark: string)
    requires NoNewline(mark) && StartsLine(b)
    ensures MarkFree(s, mark) && Find(b, "\n" + mark) == -1 ==> Find(s + b, "\n" + mark) == -1
    ensures MarkFree(s, mark) && Find(b, "\n" + mark) != -1 ==>
              Find(s + b, "\n" + mark) == |s| + Find(b, "\n" + mark)
    ensures !MarkFree(s, mark) ==> 0 <= Find(s + b, "\n" + mark) < |s|
  {
    var q := "\n" + mark;
    DelimiterOf(mark);
    MarkFreeIffAbsent(s, mark);
    if !MarkFree(s, mark) {
      FindInPrefix(s, b, q);
    } else if Find(b, q) == -1 {
      FindNowhere(s, b, q);
    } else {
      FindInSuffix(s, b, q, Find(b, q));
    }
  }

  predicate FileNames(files: seq<string>) {
    forall i :: 0 <= i < |files| ==> NoNewline(files[i])
  }

  lemma {:induction false} EmbedLines(embeds: seq<string>, first: string)
    requires NoNewline(first) && forall i :: 0 <= i < |embeds| ==> NoNewline(embeds[i])
    ensures SplitNewline(Join([first] + embeds, "\n")) == [first] + embeds
  {
    var parts := [first] + embeds;
    assert parts[1..] == embeds;
    if embeds == [] {
      SplitNewlineSingle(first);
    } else {
      assert embeds == [embeds[0]] + embeds[1..];
      EmbedLines(embeds[1..], embeds[0]);
      SplitNewlineConcat(first, Join(embeds, "\n"));
      SplitNewlineSingle(first);
    }
  }

  lemma AttachmentText(files: seq<string>)
    requires files != []
    ensures AttachmentsBlock(files) == "" + "\n" + (Join([ATTACH_MARK] + Embeds(files), "\n") + "\n")
    ensures Join([ATTACH_MARK] + Embeds(files), "\n") + "\n" + "" == Join([ATTACH_MARK] + Embeds(files), "\n") + "\n"
  {
    hide Join, Embeds;
  }

  lemma AttachmentLines(files: seq<string>)
    requires FileNames(files) && files != []
    ensures SplitNewline(AttachmentsBlock(files)) == ["", ATTACH_MARK] + Embeds(files) + [""]
  {
    hide SplitNewline, AttachmentsBlock, Join;
    MarksAreLines();
    SplitNewlineSingle("");
    AttachmentText(files);
    EmbedLines(Embeds(files), ATTACH_MARK);
    var t := Join([ATTACH_MARK] + Embeds(files), "\n");
    SplitNewlineConcat("", t + "\n");
    SplitNewlineConcat(t, "");
  }

  lemma FindInNothing(p: string)
    requires p != ""
    ensures Find("", p) == -1
  {
  }

  /** An attachments block has no Thoughts delimiter and starts with its own. */
  lemma AttachmentMarks(files: seq<string>)
    requires FileNames(files)
    ensures StartsLine(AttachmentsBlock(files))
    ensures Find(AttachmentsBlock(files), "\n" + THOUGHTS_MARK) == -1
    ensures Find(AttachmentsBlock(files), "\n" + ATTACH_MARK) == (if files == [] then -1 else 0)
  {
    hide SplitNewline, Find;
    var b := AttachmentsBlock(files);
    MarksAreLines();
    if files == [] {
      FindInNothing("\n" + THOUGHTS_MARK);
      FindInNothing("\n" + ATTACH_MARK);
    } else {
      AttachmentLines(files);
      forall k | 0 <= k < |SplitNewline(b)| - 1 ensures !StartsWith(SplitNewline(b)[1..][k], THOUGHTS_MARK) {
        if 1 <= k <= |files| {
          EmbedIsNoMark(files[k - 1]);
        }
      }
      MarkFreeIffAbsent(b, THOUGHTS_MARK);
      var parts := [ATTACH_MARK] + Embeds(files);
      assert parts[1..] == Embeds(files);
      assert b[0..0 + |"\n" + ATTACH_MARK|] == "\n" + ATTACH_MARK;
      assert OccursAt(b, "\n" + ATTACH_MARK, 0);
    }
  }

  lemma FirstDiffers(s: string, p: string)
    requires s != "" && p != "" && s[0] != p[0]
    ensures !StartsWith(s, p)
  {
    assert |p| <= |s| ==> s[..|p|][0] == s[0];
  }

  lemma EmbedIsNoMark(file: string)
    ensures !StartsWith("![[" + file + "]]", THOUGHTS_MARK)
  {
    hide StartsWith;
    assert ("![[" + file + "]]")[0] == '!' && THOUGHTS_MARK[0] == '<';
    FirstDiffers("![[" + file + "]]", THOUGHTS_MARK);
  }

  lemma MarksDiffer()
    ensures |THOUGHTS_MARK| > 15 && |ATTACH_MARK| > 15 && THOUGHTS_MARK[15] == 't' && ATTACH_MARK[15] == 'a'
  {
  }

  lemma MarkedBlock(rest: string)
    ensures var b := "\n" + THOUGHTS_MARK + rest;
            StartsLine(b) && Find(b, "\n" + THOUGHTS_MARK) == 0 && Find(b, "\n" + ATTACH_MARK) != 0
  {
    hide THOUGHTS_MARK, ATTACH_MARK, Find;
    MarksDiffer();
    var b, t, a := "\n" + THOUGHTS_MARK + rest, "\n" + THOUGHTS_MARK, "\n" + ATTACH_MARK;
    assert b[0..0 + |t|] == t;
    assert OccursAt(b, t, 0);
    OccursCharwise(b, a, 0);
    assert a[16] == 'a' && b[0 + 16] == 't';
  }

  lemma ThoughtsMarkFirst(entries: seq<Entry>)
    requires entries != []
    ensures StartsLine(ThoughtsBlock(entries))
    ensures Find(ThoughtsBlock(entries), "\n" + THOUGHTS_MARK) == 0
    ensures Find(ThoughtsBlock(entries), "\n" + ATTACH_MARK) != 0
  {
    hide ThoughtsBlock, Find, Chunks, StartsLine;
    ThoughtsBlockIs(entries);
    MarkedBlock("\n" + Chunks(entries));
  }

  predicate BodyOk(body: string) {
    MarkFree(body, THOUGHTS_MARK) && MarkFree(body, ATTACH_MARK)
  }

  lemma BlockMarks(entries: seq<Entry>, files: seq<string>)
    requires FileNames(files)
    ensures var b := Blocks(entries, files);
            var t, a := Find(b, "\n" + THOUGHTS_MARK), Find(b, "\n" + ATTACH_MARK);
            && StartsLine(b)
            && t == (if entries == [] then -1 else 0)
            && (entries == [] ==> a == if files == [] then -1 else 0)
            && (a >= -1 && (entries != [] ==> a != 0))
  {
    AttachmentMarks(files);
    if entries == [] {
      assert Blocks(entries, files) == AttachmentsBlock(files);
    } else {
      ThoughtsMarkFirst(entries);
      MarksAreLines();
      DelimiterOf(THOUGHTS_MARK);
      DelimiterOf(ATTACH_MARK);
      FindInPrefix(ThoughtsBlock(entries), AttachmentsBlock(files), "\n" + THOUGHTS_MARK);
      if Find(ThoughtsBlock(entries), "\n" + ATTACH_MARK) != -1 {
        FindInPrefix(ThoughtsBlock(entries), AttachmentsBlock(files), "\n" + ATTACH_MARK);
      } else if files != [] {
        FindInSuffix(ThoughtsBlock(entries), AttachmentsBlock(files), "\n" + ATTACH_MARK, 0);
      } else {
        FindNowhere(ThoughtsBlock(entries), AttachmentsBlock(files), "\n" + ATTACH_MARK);
      }
    }
  }

  /** The printed body ends where the parser says exactly when no line of it is a delimiter. */
  lemma BodyEndExact(body: string, entries: seq<Entry>, files: seq<string>)
    requires FileNames(files)
    ensures BodyEnd(body + Blocks(entries, files)) == |body| <==> BodyOk(body)
    ensures BodyEnd(body + Blocks(entries, files)) <= |body|
  {
    var b := Blocks(entries, files);
    BlockMarks(entries, files);
    MarksAreLines();
    FindMark(body, b, THOUGHTS_MARK);
    FindMark(body, b, ATTACH_MARK);
    if entries == [] && files == [] {
      assert b == "";
    }
  }

  // --------------------------------------------------------------- Thoughts

  function Stamp(e: Entry): string {
    OrElse(e.stamp, "unknown")
  }

  function Heading(e: Entry): string {
    "### " + Stamp(e)
  }

  function ChunkOf(heading: string, text: string): string {
    "\n" + heading + "\n" + "\n" + text + "\n"
  }

  function Chunks(entries: seq<Entry>): string {
    if entries == [] then ""
    else ChunkOf(Heading(entries[0]), entries[0].text) + Chunks(entries[1..])
  }

  lemma ChunkPieces(h: string, t: string, more: string)
    ensures "\n" + (h + "\n\n" + (t + "\n\n" + more)) + "\n" == ChunkOf(h, t) + ("\n" + more + "\n")
    ensures "\n" + (h + "\n\n" + t) + "\n" == ChunkOf(h, t)
  {
    assert "\n\n" == "\n" + "\n";
  }

  lemma JoinCons(first: string, rest: seq<string>, sep: string)
    requires rest != []
    ensures Join([first] + rest, sep) == first + sep + Join(rest, sep)
  {
    assert ([first] + rest)[1..] == rest;
  }

  lemma PartsCons(e: Entry, rest: seq<Entry>)
    ensures ThoughtParts([e] + rest) == [Heading(e)] + ([e.text] + ThoughtParts(rest))
  {
    assert ([e] + rest)[1..] == rest;
  }

  lemma {:induction false} PartsAreChunks(entries: seq<Entry>)
    requires entries != []
    ensures "\n" + Join(ThoughtParts(entries), "\n\n") + "\n" == Chunks(entries)
  {
    var e, rest := entries[0], entries[1..];
    assert entries == [e] + rest;
    PartsCons(e, rest);
    JoinCons(Heading(e), [e.text] + ThoughtParts(rest), "\n\n");
    ChunkPieces(Heading(e), e.text, Join(ThoughtParts(rest), "\n\n"));
    if rest == [] {
      assert [e.text] + ThoughtParts(rest) == [e.text];
    } else {
      PartsAreChunks(rest);
      JoinCons(e.text, ThoughtParts(rest), "\n\n");
    }
  }

  lemma ThoughtsBlockIs(entries: seq<Entry>)
    requires entries != []
    ensures ThoughtsBlock(entries) == "\n" + THOUGHTS_MARK + ("\n" + Chunks(entries))
  {
    PartsAreChunks(entries);
    var parts := [THOUGHTS_MARK] + ThoughtParts(entries);
    assert parts[1..] == ThoughtParts(entries);
    assert "\n\n" == "\n" + "\n";
    var j := Join(ThoughtParts(entries), "\n\n");
    assert "\n" + (THOUGHTS_MARK + "\n\n" + j) + "\n" ==
           "\n" + THOUGHTS_MARK + ("\n" + ("\n" + j + "\n"));
  }

  predicate NoHeading(lines: seq<string>) {
    forall k :: 0 <= k < |lines| ==> HeadStamp(lines[k]).None?
  }

  /** A Thought the document can carry: nothing in it reads as a delimiter. */
  predicate EntryOk(e: Entry) {
    && PlainLines(e.text) && Trimmed(e.text, Newlines) && !Blank(e.text)
    && NoHeading(SplitNewline(e.text))
    && NoLineStarts(SplitNewline(e.text), ATTACH_MARK)
  }

  /** A printed timestamp is one word. */
  predicate StampOk(e: Entry) {
    Trimmed(e.stamp, Spaces) && forall i :: 0 <= i < |e.stamp| ==> !IsSpace(e.stamp[i])
  }

  predicate StampsOk(entries: seq<Entry>) {
    forall i :: 0 <= i < |entries| ==> StampOk(entries[i])
  }

  predicate EntriesOk(entries: seq<Entry>) {
    forall i :: 0 <= i < |entries| ==> EntryOk(entries[i])
  }

  function ChunkLines(e: Entry): seq<string> {
    [""] + [Heading(e)] + [""] + SplitNewline(e.text)
  }

  function AllLines(entries: seq<Entry>): seq<string> {
    if entries == [] then [] else ChunkLines(entries[0]) + AllLines(entries[1..])
  }

  lemma StampWord(e: Entry)
    requires StampOk(e)
    ensures NoLineBreak(Heading(e)) && HeadStamp(Heading(e)) == Some(Stamp(e))
  {
    var s, l := Stamp(e), Heading(e);
    assert forall i :: 0 <= i < |s| ==> !IsSpace(s[i]);
    forall i | 0 <= i < |l| ensures !IsLineBreak(l[i]) {
      assert i >= 4 ==> l[i] == s[i - 4];
    }
    assert l[4..] == s;
    assert !IsSpace(s[|s| - 1]);
    StripOfTrimmed(s, Spaces);
    assert l[..4] == "### ";
  }

  lemma ChunkNested(h: string, text: string, more: string)
    ensures ChunkOf(h, text) + more == "" + "\n" + (h + "\n" + ("" + "\n" + (text + "\n" + more)))
  {
  }

  lemma FourPieces(a: seq<string>, b: seq<string>, c: seq<string>, d: seq<string>, e: seq<string>)
    ensures a + (b + (c + (d + e))) == a + b + c + d + e
  {
  }

  lemma ChunkSplit(h: string, text: string, more: string)
    requires NoLineBreak(h) && PlainLines(text)
    ensures SplitLines(ChunkOf(h, text) + more) == [""] + [h] + [""] + SplitNewline(text) + SplitLines(more)
  {
    var t1 := text + "\n" + more;
    var t2 := "" + "\n" + t1;
    SplitLinesPlain(text, more);
    SplitLinesCons("", t1);
    SplitLinesCons(h, t2);
    SplitLinesCons("", h + "\n" + t2);
    ChunkNested(h, text, more);
    FourPieces([""], [h], [""], SplitNewline(text), SplitLines(more));
  }

  predicate PlainTexts(entries: seq<Entry>) {
    forall i :: 0 <= i < |entries| ==> PlainLines(entries[i].text)
  }

  lemma {:induction false} ChunksLines(entries: seq<Entry>)
    requires StampsOk(entries) && PlainTexts(entries)
    ensures SplitLines(Chunks(entries)) == AllLines(entries)
  {
    if entries != [] {
      assert StampOk(entries[0]) && PlainLines(entries[0].text);
      ChunksLines(entries[1..]);
      StampWord(entries[0]);
      ChunkSplit(Heading(entries[0]), entries[0].text, Chunks(entries[1..]));
    }
  }

  lemma {:induction false} ScanConcat(st: Scan, a: seq<string>, b: seq<string>)
    ensures st.All(a + b) == st.All(a).All(b)
    decreases |a|
  {
    if a == [] {
      assert a + b == b;
    } else {
      assert (a + b)[1..] == a[1..] + b;
      ScanConcat(st.Next(a[0]), a[1..], b);
    }
  }

  lemma {:induction false} ScanPlain(st: Scan, lines: seq<string>)
    requires NoHeading(lines)
    ensures st.All(lines) == st.(lines := st.lines + lines)
    decreases |lines|
  {
    if lines == [] {
      assert st.lines + lines == st.lines;
    } else {
      assert HeadStamp(lines[0]).None?;
      ScanPlain(st.Next(lines[0]), lines[1..]);
      assert st.lines + [lines[0]] + lines[1..] == st.lines + lines;
    }
  }

  lemma {:induction false} JoinLast(lines: seq<string>, last: string, sep: string)
    requires lines != []
    ensures Join(lines + [last], sep) == Join(lines, sep) + sep + last
  {
    if |lines| > 1 {
      assert (lines + [last])[1..] == lines[1..] + [last];
      JoinLast(lines[1..], last, sep);
    } else {
      assert (lines + [last])[1..] == [last];
    }
  }

  /** The blank lines around a Thought are stripped; its own lines come back joined. */
  lemma ThoughtText(text: string)
    requires text != "" && Trimmed(text, Newlines)
    ensures Strip(Join([""] + SplitNewline(text), "\n"), Newlines) == text
    ensures Strip(Join([""] + SplitNewline(text) + [""], "\n"), Newlines) == text
  {
    var ls := SplitNewline(text);
    JoinSplitNewline(text);
    assert ([""] + ls)[1..] == ls;
    assert Join([""] + ls, "\n") == "\n" + text + "";
    JoinLast([""] + ls, "", "\n");
    assert Join([""] + ls + [""], "\n") == "\n" + text + "\n";
    StripPadding("\n", text, "", Newlines);
    StripPadding("\n", text, "\n", Newlines);
  }

  function Read(entries: seq<Entry>): (r: seq<Thought>)
    ensures |r| == |entries| && forall i :: 0 <= i < |r| ==> r[i] == (Some(Stamp(entries[i])), entries[i].text)
  {
    seq(|entries|, i requires 0 <= i < |entries| => (Some(Stamp(entries[i])), entries[i].text))
  }

  lemma ReadCons(entries: seq<Entry>)
    requires entries != []
    ensures Read(entries) == [(Some(Stamp(entries[0])), entries[0].text)] + Read(entries[1..])
  {
  }

  function WithBlank(st: Scan): Scan {
    st.(lines := st.lines + [""])
  }

  function Opened(e: Entry, before: seq<Thought>): Scan {
    Scan(Some(Stamp(e)), [""] + SplitNewline(e.text), before)
  }

  lemma ScanOne(st: Scan, line: string)
    ensures st.All([line]) == st.Next(line)
  {
    assert [line][1..] == [];
    assert st.Next(line).All([]) == st.Next(line);
  }

  lemma ScanHeading(st: Scan, e: Entry)
    requires StampOk(e)
    ensures st.All([""]).All([Heading(e)]) == Scan(Some(Stamp(e)), [], WithBlank(st).Flush())
  {
    hide HeadStamp, Scan.Flush, Scan.All, StampOk, Heading, Stamp;
    ScanOne(st, "");
    ScanOne(WithBlank(st), Heading(e));
    StampWord(e);
    EmptyIsNoHeading();
  }

  lemma EmptyIsNoHeading()
    ensures HeadStamp("").None?
  {
  }

  lemma ScanBody(e: Entry, before: seq<Thought>)
    requires EntryOk(e)
    ensures Scan(Some(Stamp(e)), [], before).All([""] + SplitNewline(e.text)) == Opened(e, before)
  {
    EmptyIsNoHeading();
    ScanPlain(Scan(Some(Stamp(e)), [], before), [""] + SplitNewline(e.text));
    assert [] + ([""] + SplitNewline(e.text)) == [""] + SplitNewline(e.text);
  }

  lemma ScanChunk(st: Scan, e: Entry)
    requires EntryOk(e) && StampOk(e)
    ensures st.All(ChunkLines(e)) == Opened(e, WithBlank(st).Flush())
  {
    hide HeadStamp, Scan.Flush, Scan.All, Scan.Next, EntryOk, StampOk, Heading, Stamp, SplitNewline;
    var tail := [""] + SplitNewline(e.text);
    assert ChunkLines(e) == [""] + ([Heading(e)] + tail);
    ScanConcat(st, [""], [Heading(e)] + tail);
    ScanConcat(st.All([""]), [Heading(e)], tail);
    ScanHeading(st, e);
    ScanBody(e, WithBlank(st).Flush());
  }

  lemma OpenedFlush(e: Entry, before: seq<Thought>)
    requires EntryOk(e)
    ensures Opened(e, before).Flush() == before + [(Some(Stamp(e)), e.text)]
    ensures WithBlank(Opened(e, before)).Flush() == before + [(Some(Stamp(e)), e.text)]
  {
    ThoughtText(e.text);
  }

  lemma ReadAppend(before: seq<Thought>, entries: seq<Entry>)
    requires entries != []
    ensures before + [(Some(Stamp(entries[0])), entries[0].text)] + Read(entries[1..]) == before + Read(entries)
  {
    ReadCons(entries);
  }

  lemma ScanFirst(st: Scan, entries: seq<Entry>)
    requires entries != [] && EntryOk(entries[0]) && StampOk(entries[0])
    ensures st.All(AllLines(entries)) == Opened(entries[0], WithBlank(st).Flush()).All(AllLines(entries[1..]))
  {
    ScanConcat(st, ChunkLines(entries[0]), AllLines(entries[1..]));
    ScanChunk(st, entries[0]);
  }

  lemma ScanStep(st: Scan, entries: seq<Entry>, mid: Scan)
    requires entries != [] && EntryOk(entries[0]) && StampOk(entries[0])
    requires mid == Opened(entries[0], WithBlank(st).Flush())
    ensures st.All(AllLines(entries)) == mid.All(AllLines(entries[1..]))
    ensures WithBlank(mid).Flush() + Read(entries[1..]) == WithBlank(st).Flush() + Read(entries)
  {
    hide *;
    ScanFirst(st, entries);
    OpenedFlush(entries[0], WithBlank(st).Flush());
    ReadAppend(WithBlank(st).Flush(), entries);
  }

  lemma ScanLast(st: Scan, entries: seq<Entry>)
    requires |entries| == 1 && EntryOk(entries[0]) && StampOk(entries[0])
    ensures st.All(AllLines(entries)).Flush() == WithBlank(st).Flush() + Read(entries)
  {
    assert AllLines(entries[1..]) == [] && Read(entries[1..]) == [];
    var mid := Opened(entries[0], WithBlank(st).Flush());
    assert mid.All([]) == mid;
    ScanStep(st, entries, mid);
    hide *;
    OpenedFlush(entries[0], WithBlank(st).Flush());
  }

  lemma EntriesTail(entries: seq<Entry>)
    requires entries != [] && EntriesOk(entries) && StampsOk(entries)
    ensures EntryOk(entries[0]) && StampOk(entries[0])
    ensures EntriesOk(entries[1..]) && StampsOk(entries[1..])
  {
  }

  lemma {:induction false} ScanEntries(st: Scan, entries: seq<Entry>)
    requires entries != [] && EntriesOk(entries) && StampsOk(entries)
    ensures st.All(AllLines(entries)).Flush() == WithBlank(st).Flush() + Read(entries)
    decreases |entries|
  {
    hide *;
    EntriesTail(entries);
    if |entries| == 1 {
      ScanLast(st, entries);
    } else {
      var mid := Opened(entries[0], WithBlank(st).Flush());
      ScanStep(st, entries, mid);
      ScanEntries(mid, entries[1..]);
    }
  }

  lemma {:induction false} DropBlankKeeps(entries: seq<Entry>)
    requires EntriesOk(entries)
    ensures DropBlank(Read(entries)) == Read(entries)
  {
    if entries != [] {
      assert EntryOk(entries[0]);
      StripEmptyIffBlank(entries[0].text);
      ReadCons(entries);
      assert Read(entries)[1..] == Read(entries[1..]);
      DropBlankKeeps(entries[1..]);
    }
  }

  lemma {:induction false} ChunksNewlines(entries: seq<Entry>)
    requires StampsOk(entries)
    ensures SplitNewline(Chunks(entries)) == AllLines(entries) + [""]
  {
    if entries != [] {
      assert StampOk(entries[0]);
      ChunksNewlines(entries[1..]);
      StampWord(entries[0]);
      ChunkNewlines(Heading(entries[0]), entries[0].text, Chunks(entries[1..]));
      Reassociate(ChunkLines(entries[0]), AllLines(entries[1..]), [""]);
    }
  }

  lemma Reassociate(a: seq<string>, b: seq<string>, c: seq<string>)
    ensures a + (b + c) == a + b + c
  {
  }

  lemma ChunkNewlines(h: string, text: string, more: string)
    requires NoLineBreak(h)
    ensures SplitNewline(ChunkOf(h, text) + more) == [""] + [h] + [""] + SplitNewline(text) + SplitNewline(more)
  {
    var t1 := text + "\n" + more;
    var t2 := "" + "\n" + t1;
    ChunkNested(h, text, more);
    SplitNewlineConcat(text, more);
    SplitNewlineConcat("", t1);
    SplitNewlineConcat(h, t2);
    SplitNewlineSingle(h);
    SplitNewlineConcat("", h + "\n" + t2);
    FourPieces([""], [h], [""], SplitNewline(text), SplitNewline(more));
  }

  predicate TextsFree(entries: seq<Entry>, mark: string) {
    forall i :: 0 <= i < |entries| ==> NoLineStarts(SplitNewline(entries[i].text), mark)
  }

  lemma NoLineStartsConcat(a: seq<string>, b: seq<string>, mark: string)
    ensures NoLineStarts(a + b, mark) <==> NoLineStarts(a, mark) && NoLineStarts(b, mark)
  {
    assert forall k :: 0 <= k < |a| ==> (a + b)[k] == a[k];
    assert forall k :: 0 <= k < |b| ==> (a + b)[|a| + k] == b[k];
  }

  lemma ChunkLinesFree(e: Entry)
    ensures NoLineStarts(ChunkLines(e), ATTACH_MARK) <==> NoLineStarts(SplitNewline(e.text), ATTACH_MARK)
  {
    var front := [""] + [Heading(e)] + [""];
    NoLineStartsConcat(front, SplitNewline(e.text), ATTACH_MARK);
    assert |ATTACH_MARK| == 30 && ATTACH_MARK[0] == '<' && Heading(e)[0] == '#';
    assert NoLineStarts(front, ATTACH_MARK) by {
      if |Heading(e)| >= 30 {
        assert Heading(e)[..30][0] == '#';
      }
    }
  }

  lemma {:induction false} AllLinesFree(entries: seq<Entry>)
    ensures NoLineStarts(AllLines(entries), ATTACH_MARK) <==> TextsFree(entries, ATTACH_MARK)
  {
    if entries != [] {
      AllLinesFree(entries[1..]);
      NoLineStartsConcat(ChunkLines(entries[0]), AllLines(entries[1..]), ATTACH_MARK);
      ChunkLinesFree(entries[0]);
      assert forall i :: 1 <= i < |entries| ==> entries[i] == entries[1..][i - 1];
      assert forall i :: 0 <= i < |entries| - 1 ==> entries[1..][i] == entries[i + 1];
    }
  }

  /** The Thoughts text holds the attachments delimiter exactly when some Thought has it as a line. */
  lemma SectionMarkFree(entries: seq<Entry>)
    requires StampsOk(entries)
    ensures MarkFree("\n" + Chunks(entries), ATTACH_MARK) <==> TextsFree(entries, ATTACH_MARK)
  {
    ChunksNewlines(entries);
    AllLinesFree(entries);
    SplitNewlineConcat("", Chunks(entries));
    assert "" + "\n" + Chunks(entries) == "\n" + Chunks(entries);
    NoLineStartsConcat(AllLines(entries), [""], ATTACH_MARK);
    assert !StartsWith("", ATTACH_MARK);
    assert ([""] + (AllLines(entries) + [""]))[1..] == AllLines(entries) + [""];
  }

  /** Text before the first match has no match. */
  lemma CutIsFree(s: string, mark: string)
    requires NoNewline(mark) && Find(s, "\n" + mark) != -1
    ensures MarkFree(s[..Find(s, "\n" + mark)], mark)
  {
    var i := Find(s, "\n" + mark);
    DelimiterOf(mark);
    OccursCharwise(s, "\n" + mark, i);
    assert s[i + 0] == '\n';
    assert s == s[..i] + s[i..];
    if !MarkFree(s[..i], mark) {
      MarkFreeIffAbsent(s[..i], mark);
      FindInPrefix(s[..i], s[i..], "\n" + mark);
    }
  }

  lemma AfterMark(body: string, mark: string, rest: string)
    ensures (body + ("\n" + mark) + rest)[|body| + |mark| + 1..] == rest
  {
  }

  lemma SectionStart(body: string, entries: seq<Entry>, files: seq<string>)
    requires FileNames(files) && BodyOk(body) && entries != []
    ensures Find(body + Blocks(entries, files), "\n" + THOUGHTS_MARK) == |body|
  {
    MarksAreLines();
    BlockMarks(entries, files);
    FindMark(body, Blocks(entries, files), THOUGHTS_MARK);
  }

  lemma Nest(a: string, b: string, c: string, d: string)
    ensures a + (b + c + d) == a + b + (c + d)
  {
  }

  lemma TextIs(body: string, entries: seq<Entry>, files: seq<string>)
    requires entries != []
    ensures body + Blocks(entries, files) ==
            body + ("\n" + THOUGHTS_MARK) + ("\n" + Chunks(entries) + AttachmentsBlock(files))
  {
    ThoughtsBlockIs(entries);
    var mark, t, b := "\n" + THOUGHTS_MARK, "\n" + Chunks(entries), AttachmentsBlock(files);
    assert Blocks(entries, files) == mark + t + b;
    hide *;
    Nest(body, mark, t, b);
  }

  lemma SectionCut(t: string, block: string, mark: string)
    requires NoNewline(mark) && StartsLine(block)
    requires block == "" || Find(block, "\n" + mark) == 0
    ensures UpTo(t + block, "\n" + mark) <= t
    ensures UpTo(t + block, "\n" + mark) == t <==> MarkFree(t, mark)
    ensures MarkFree(UpTo(t + block, "\n" + mark), mark)
  {
    FindMark(t, block, mark);
    DelimiterOf(mark);
    if !MarkFree(t, mark) {
      CutIsFree(t + block, mark);
    } else if block == "" {
      assert !OccursAt("", "\n" + mark, 0);
      assert t + block == t;
    }
  }

  /** What the parser takes for the Thoughts section of a printed document. */
  lemma SectionIs(body: string, entries: seq<Entry>, files: seq<string>)
    requires FileNames(files) && BodyOk(body) && entries != [] && StampsOk(entries)
    ensures var section := ThoughtsText(body + Blocks(entries, files));
            && section.Some?
            && section.value <= "\n" + Chunks(entries)
            && (section.value == "\n" + Chunks(entries) <==> TextsFree(entries, ATTACH_MARK))
            && MarkFree(section.value, ATTACH_MARK)
  {
    SectionStart(body, entries, files);
    TextIs(body, entries, files);
    AfterMark(body, THOUGHTS_MARK, "\n" + Chunks(entries) + AttachmentsBlock(files));
    MarksAreLines();
    AttachmentMarks(files);
    SectionMarkFree(entries);
    SectionCut("\n" + Chunks(entries), AttachmentsBlock(files), ATTACH_MARK);
  }

  lemma SectionLines(entries: seq<Entry>)
    requires StampsOk(entries) && PlainTexts(entries)
    ensures SplitLines("\n" + Chunks(entries)) == [""] + AllLines(entries)
  {
    ChunksLines(entries);
    SplitLinesCons("", Chunks(entries));
    assert "" + "\n" + Chunks(entries) == "\n" + Chunks(entries);
  }

  lemma LeadingDropped(ts: seq<Thought>)
    ensures DropBlank([(None, "")] + ts) == DropBlank(ts)
  {
    assert ([(None, "")] + ts)[1..] == ts;
    assert Strip("", Spaces) == "";
  }

  /** The Thoughts of a printed document come back in order, each with its timestamp. */
  lemma ThoughtsRoundTrip(body: string, entries: seq<Entry>, files: seq<string>)
    requires FileNames(files) && BodyOk(body) && EntriesOk(entries) && StampsOk(entries)
    ensures Thoughts(body + Blocks(entries, files)) == Read(entries)
  {
    if entries == [] {
      MarksAreLines();
      BlockMarks(entries, files);
      FindMark(body, Blocks(entries, files), THOUGHTS_MARK);
    } else {
      assert forall i :: 0 <= i < |entries| ==> EntryOk(entries[i]);
      SectionIs(body, entries, files);
      SectionLines(entries);
      var st := Scan(None, [], []);
      ScanConcat(st, [""], AllLines(entries));
      ScanOne(st, "");
      assert HeadStamp("").None?;
      ScanEntries(WithBlank(st), entries);
      BlankHead();
      LeadingDropped(Read(entries));
      DropBlankKeeps(entries);
    }
  }

  lemma BlankHead()
    ensures WithBlank(WithBlank(Scan(None, [], []))).Flush() == [(None, "")]
  {
    assert [] + [""] + [""] == ["", ""];
    assert Join(["", ""], "\n") == "\n" by {
      assert ["", ""][1..] == [""];
    }
    assert Strip("\n", Newlines) == "" by {
      assert "\n"[1..] == "";
    }
  }
}
