// backend/questions.py: noticing, on every tick, the questions running runs
// ask in their transcripts.

module Questions {
  import opened Text

  /** One row of a transcript; `active` is false for messages taken out of it. */
  datatype Message = Message(id: nat, active: bool, assistant: bool, text: string)

  /** `source_key`: a fenced question is its message's, a guessed one its run's. */
  datatype Source = OfMessage(run: nat, id: nat) | OfRun(run: nat)

  const MAX_MSGS_PER_SCAN := 200
  const FENCE := "```hq-options"

  // ------------------------------------------------------------ what a question is

  /** White space up to and past a line end. */
  predicate EndsLine(s: string) {
    s != "" && (s[0] == '\n' || (IsSpace(s[0]) && EndsLine(s[1..])))
  }

  /** The fence opens somewhere; it need not be closed. */
  predicate Fenced(text: string) {
    exists i :: 0 <= i < |text| && OccursAt(text, FENCE, i) && EndsLine(text[i + |FENCE|..])
  }

  /** The last line with anything on it ends in a question mark. */
  predicate LastAsks(lines: seq<string>) {
    lines != [] &&
    var last := Strip(lines[|lines| - 1], Spaces);
    if last == "" then LastAsks(lines[..|lines| - 1]) else last[|last| - 1] == '?'
  }

  lemma {:induction false} EndsLineExact(s: string)
    ensures EndsLine(s) <==> exists i :: 0 <= i < |s| && s[i] == '\n' && forall j :: 0 <= j < i ==> IsSpace(s[j])
  {
    hide IsSpace;
    if s != "" && s[0] != '\n' {
      var t := s[1..];
      EndsLineExact(t);
      if EndsLine(s) {
        var i :| 0 <= i < |t| && t[i] == '\n' && forall j :: 0 <= j < i ==> IsSpace(t[j]);
        assert s[i + 1] == '\n' && forall j :: 0 <= j < i + 1 ==> IsSpace(s[j]) by {
          assert forall j :: 0 < j < i + 1 ==> s[j] == t[j - 1];
        }
      }
      if i :| 0 <= i < |s| && s[i] == '\n' && forall j :: 0 <= j < i ==> IsSpace(s[j]) {
        assert t[i - 1] == '\n' && forall j :: 0 <= j < i - 1 ==> t[j] == s[j + 1];
      }
    }
  }

  /** The words ```hq-options, with nothing but white space after them on their line. */
  predicate FenceAt(text: string, i: nat) {
    && i + 13 <= |text| && text[i..i + 13] == "```hq-options"
    && exists j :: i + 13 <= j < |text| && text[j] == '\n' && forall k :: i + 13 <= k < j ==> IsSpace(text[k])
  }

  /** A message has a fence when one stands anywhere in it, closed or not. */
  lemma FencedExact(text: string)
    ensures Fenced(text) <==> exists i :: 0 <= i < |text| && FenceAt(text, i)
  {
    hide EndsLine, IsSpace;
    forall i | 0 <= i < |text|
      ensures OccursAt(text, FENCE, i) && EndsLine(text[i + |FENCE|..]) <==> FenceAt(text, i)
    {
      if OccursAt(text, FENCE, i) {
        TailEndsLine(text, i + 13);
      }
    }
  }

  lemma TailEndsLine(text: string, n: nat)
    requires n <= |text|
    ensures EndsLine(text[n..]) <==>
            exists j :: n <= j < |text| && text[j] == '\n' && forall k :: n <= k < j ==> IsSpace(text[k])
  {
    hide EndsLine, IsSpace;
    var t := text[n..];
    EndsLineExact(t);
    if i :| 0 <= i < |t| && t[i] == '\n' && forall j :: 0 <= j < i ==> IsSpace(t[j]) {
      assert text[n + i] == '\n' && forall k :: n <= k < n + i ==> text[k] == t[k - n];
    }
    if j :| n <= j < |text| && text[j] == '\n' && forall k :: n <= k < j ==> IsSpace(text[k]) {
      assert t[j - n] == '\n' && forall k :: 0 <= k < j - n ==> t[k] == text[k + n];
    }
  }

  /** The line ends in a question mark, white space apart. */
  predicate EndsAsking(line: string) {
    exists i :: 0 <= i < |line| && line[i] == '?' && forall j :: i < j < |line| ==> IsSpace(line[j])
  }

  lemma StripLastChar(line: string)
    ensures Strip(line, Spaces) == "" <==> Blank(line)
    ensures var t := Strip(line, Spaces); t != "" ==> (t[|t| - 1] == '?' <==> EndsAsking(line))
  {
    StripEmptyIffBlank(line);
    if Strip(line, Spaces) != "" {
      StripEnd(line);
    }
  }

  lemma StripEnd(line: string)
    requires Strip(line, Spaces) != ""
    ensures var t := Strip(line, Spaces); t[|t| - 1] == '?' <==> EndsAsking(line)
  {
    hide Strip, EndsAsking, Blank;
    var a, c := Padded(line);
    StripEndsInText(line);
    LastOf(a + Strip(line, Spaces), c);
  }

  lemma LastOf(text: string, c: string)
    requires text != "" && !IsSpace(text[|text| - 1]) && Blank(c)
    ensures EndsAsking(text + c) <==> text[|text| - 1] == '?'
  {
    BlankAt(c);
    hide IsSpace, EndsAsking, Blank;
    LastVisible(text + c, |text| - 1);
  }

  lemma BlankAt(s: string)
    requires Blank(s)
    ensures forall i :: 0 <= i < |s| ==> IsSpace(s[i])
  {
  }

  lemma StripEndsInText(line: string)
    requires Strip(line, Spaces) != ""
    ensures var t := Strip(line, Spaces); !IsSpace(t[|t| - 1])
  {
    hide StripLeft, StripRight, IsSpace;
    assert !Spaces.Has(Strip(line, Spaces)[|Strip(line, Spaces)| - 1]);
  }

  lemma LastVisible(line: string, p: nat)
    requires p < |line| && !IsSpace(line[p]) && forall j :: p < j < |line| ==> IsSpace(line[j])
    ensures EndsAsking(line) <==> line[p] == '?'
  {
    assert !IsSpace('?');
    if i :| 0 <= i < |line| && line[i] == '?' && forall j :: i < j < |line| ==> IsSpace(line[j]) {
      assert i == p;
    }
  }

  /** A text is a guess when its last line with anything on it ends in a question mark. */
  lemma {:induction false} LastAsksExact(lines: seq<string>)
    ensures LastAsks(lines) <==>
            exists i :: 0 <= i < |lines| && EndsAsking(lines[i]) && forall j :: i < j < |lines| ==> Blank(lines[j])
  {
    hide Strip, EndsAsking, Blank;
    if lines != [] {
      var n := |lines| - 1;
      LastAsksExact(lines[..n]);
      StripLastChar(lines[n]);
      AskingIsNotBlank(lines[n]);
    }
  }

  lemma AskingIsNotBlank(line: string)
    ensures EndsAsking(line) ==> !Blank(line)
  {
  }

  /** An active message of the assistant with a fence in it. */
  predicate AsksByFence(m: Message) {
    m.active && m.assistant && Fenced(m.text)
  }

  /** One without a fence whose text ends in a question. */
  predicate AsksInPassing(m: Message) {
    m.active && m.assistant && !Fenced(m.text) && LastAsks(SplitLines(m.text))
  }

  /** What a message is to be announced as, if anything. */
  function SourceOf(run: nat, m: Message): Option<Source> {
    if !m.active || !m.assistant then None
    else if Fenced(m.text) then Some(OfMessage(run, m.id))
    else if LastAsks(SplitLines(m.text)) then Some(OfRun(run))
    else None
  }

  // ------------------------------------------------------------------- one scan

  /** `add_notification`: a repeated source is a no-op. */
  function Announce(notes: seq<Source>, s: Option<Source>): seq<Source> {
    if s.None? || s.value in notes then notes else notes + [s.value]
  }

  function AnnounceAll(notes: seq<Source>, run: nat, ms: seq<Message>): seq<Source> {
    if ms == [] then notes
    else Announce(AnnounceAll(notes, run, ms[..|ms| - 1]), SourceOf(run, ms[|ms| - 1]))
  }

  /** The active rows past the watermark, in order. */
  function Unseen(ms: seq<Message>, mark: nat): (r: seq<Message>)
    ensures |r| <= |ms|
  {
    if ms == [] then []
    else
      var before, m := Unseen(ms[..|ms| - 1], mark), ms[|ms| - 1];
      if m.active && m.id > mark then before + [m] else before
  }

  /** At most 200 of them at a time, the first ones first. */
  function Batch(ms: seq<Message>, mark: nat): (r: seq<Message>)
    ensures r <= Unseen(ms, mark) && |r| <= 200 && (r != Unseen(ms, mark) ==> |r| == 200)
  {
    var u := Unseen(ms, mark);
    if |u| <= MAX_MSGS_PER_SCAN then u else u[..MAX_MSGS_PER_SCAN]
  }

  function Highest(ms: seq<Message>, mark: nat): (r: nat)
    ensures r >= mark
  {
    if ms == [] then mark
    else
      var before, id := Highest(ms[..|ms| - 1], mark), ms[|ms| - 1].id;
      if id > before then id else before
  }

  /** How a run's scan goes: to the end, or failing after so many rows. */
  datatype Course = Completes | FailsAfter(rows: nat)

  function Marked(marks: map<nat, nat>, run: nat): nat {
    if run in marks then marks[run] else 0
  }

  function Seen(rows: seq<Message>, course: Course): (r: seq<Message>)
    ensures r <= rows && (course.Completes? ==> r == rows)
    ensures course.FailsAfter? ==> |r| <= course.rows && (|r| == course.rows || r == rows)
  {
    if course.Completes? || course.rows >= |rows| then rows else rows[..course.rows]
  }

  /** A failing scan keeps what it announced, and its old watermark. */
  function ScanOne(notes: seq<Source>, run: nat, ms: seq<Message>, mark: nat, course: Course): (seq<Source>, nat) {
    var rows := Batch(ms, mark);
    (AnnounceAll(notes, run, Seen(rows, course)), if course.Completes? then Highest(rows, mark) else mark)
  }

  /** What was announced, the stored watermarks, and the transcripts. */
  datatype State = State(notes: seq<Source>, marks: map<nat, nat>, transcripts: map<nat, seq<Message>>)

  function Transcript(s: State, run: nat): seq<Message> {
    if run in s.transcripts then s.transcripts[run] else []
  }

  /** The running runs in turn: what is announced, and the new watermarks, theirs alone. */
  function ScanRuns(s: State, runs: seq<(nat, Course)>): (seq<Source>, map<nat, nat>) {
    if runs == [] then (s.notes, map[])
    else
      var (notes, marks) := ScanRuns(s, runs[..|runs| - 1]);
      var (run, course) := runs[|runs| - 1];
      var (more, last) := ScanOne(notes, run, Transcript(s, run), Marked(s.marks, run), course);
      (more, marks[run := last])
  }

  /** Messages are written with rising ids; a scan visits the running runs and may fail to save its watermarks. */
  datatype Event =
    | Says(run: nat, m: Message)
    | Scan(runs: seq<(nat, Course)>, saved: bool)

  function Apply(s: State, e: Event): State {
    match e
    case Says(run, m) => s.(transcripts := s.transcripts[run := Transcript(s, run) + [m]])
    case Scan(runs, saved) =>
      var (notes, marks) := ScanRuns(s, runs);
      s.(notes := notes, marks := if saved then marks else s.marks)
  }

  predicate Rising(ms: seq<Message>) {
    forall i, j :: 0 <= i < j < |ms| ==> ms[i].id < ms[j].id
  }

  /** A message is new: its id is above every earlier one of its run, and positive. */
  predicate Possible(s: State, e: Event) {
    e.Says? ==> e.m.id > 0 && forall i :: 0 <= i < |Transcript(s, e.run)| ==> Transcript(s, e.run)[i].id < e.m.id
  }

  // ------------------------------------------------------------------ invariants

  predicate Handled(notes: seq<Source>, run: nat, m: Message) {
    SourceOf(run, m).Some? ==> SourceOf(run, m).value in notes
  }

  predicate Justified(s: State, n: Source) {
    exists i :: 0 <= i < |Transcript(s, n.run)| && SourceOf(n.run, Transcript(s, n.run)[i]) == Some(n)
  }

  /**
   * Up to the watermark everything of a run has been announced, and there is no message below 1 or
   * past the transcript.
   */
  predicate MarkOk(s: State, notes: seq<Source>, run: nat, mark: nat) {
    && (forall i :: 0 <= i < |Transcript(s, run)| && Transcript(s, run)[i].id <= mark ==>
        Handled(notes, run, Transcript(s, run)[i]))
    && (mark == 0 || exists i :: 0 <= i < |Transcript(s, run)| && mark <= Transcript(s, run)[i].id)
  }

  predicate TranscriptOk(ms: seq<Message>) {
    Rising(ms) && forall i :: 0 <= i < |ms| ==> ms[i].id > 0
  }

  ghost predicate Valid(s: State) {
    && Distinct(s.notes)
    && (forall n :: n in s.notes ==> Justified(s, n))
    && (forall run :: TranscriptOk(Transcript(s, run)))
    && (forall run :: run in s.marks ==> MarkOk(s, s.notes, run, s.marks[run]))
  }

  lemma AnnounceKeeps(notes: seq<Source>, s: Option<Source>)
    ensures notes <= Announce(notes, s) && (Distinct(notes) ==> Distinct(Announce(notes, s)))
    ensures s.Some? ==> s.value in Announce(notes, s)
    ensures forall n :: n in Announce(notes, s) ==> n in notes || s == Some(n)
  {
  }

  lemma {:induction false} AnnounceAllKeeps(notes: seq<Source>, run: nat, ms: seq<Message>)
    ensures var more := AnnounceAll(notes, run, ms);
            && notes <= more && (Distinct(notes) ==> Distinct(more))
            && (forall i :: 0 <= i < |ms| ==> Handled(more, run, ms[i]))
            && (forall n :: n in more ==> n in notes || exists i :: 0 <= i < |ms| && SourceOf(run, ms[i]) == Some(n))
  {
    hide SourceOf, Announce, Distinct;
    if ms != [] {
      var before, m := ms[..|ms| - 1], ms[|ms| - 1];
      AnnounceAllKeeps(notes, run, before);
      var some := AnnounceAll(notes, run, before);
      AnnounceKeeps(some, SourceOf(run, m));
      var more := Announce(some, SourceOf(run, m));
      forall i | 0 <= i < |ms| ensures Handled(more, run, ms[i]) {
        if i < |before| {
          assert Handled(some, run, before[i]);
        }
      }
      forall n | n in more && n !in notes ensures exists i :: 0 <= i < |ms| && SourceOf(run, ms[i]) == Some(n) {
        if n in some {
          var i :| 0 <= i < |before| && SourceOf(run, before[i]) == Some(n);
          assert ms[i] == before[i];
        } else {
          assert ms[|ms| - 1] == m;
        }
      }
    }
  }

  /** The unseen rows are exactly the active ones past the watermark, in order. */
  lemma {:induction false} UnseenExact(ms: seq<Message>, mark: nat)
    requires Rising(ms)
    ensures var u := Unseen(ms, mark);
            && Rising(u)
            && (forall m :: m in u <==> m in ms && m.active && m.id > mark)
  {
    if ms != [] {
      var before, m := ms[..|ms| - 1], ms[|ms| - 1];
      UnseenExact(before, mark);
      assert ms == before + [m];
      var u := Unseen(before, mark);
      forall i | 0 <= i < |u| ensures u[i].id < m.id {
        assert u[i] in before;
      }
    }
  }

  lemma {:induction false} HighestIsLast(ms: seq<Message>, mark: nat)
    requires Rising(ms) && forall i :: 0 <= i < |ms| ==> ms[i].id > mark
    ensures Highest(ms, mark) == if ms == [] then mark else ms[|ms| - 1].id
  {
    if ms != [] {
      HighestIsLast(ms[..|ms| - 1], mark);
    }
  }

  lemma BatchExact(ms: seq<Message>, mark: nat)
    requires Rising(ms)
    ensures var rows := Batch(ms, mark);
            && Rising(rows) && (forall i :: 0 <= i < |rows| ==> rows[i] in ms && rows[i].id > mark)
            && rows <= Unseen(ms, mark)
  {
    UnseenExact(ms, mark);
    hide Unseen;
    var rows := Batch(ms, mark);
    forall i | 0 <= i < |rows| ensures rows[i] in ms && rows[i].id > mark {
      assert rows[i] in Unseen(ms, mark);
    }
  }

  lemma RisingOrder(ms: seq<Message>, i: nat, j: nat)
    requires Rising(ms) && i < |ms| && j < |ms| && ms[i].id <= ms[j].id
    ensures i <= j
  {
  }

  /** An active message past the old mark and up to the new one was in the batch. */
  lemma InBatch(ms: seq<Message>, mark: nat, m: Message)
    requires Rising(ms) && m in ms && m.active && mark < m.id <= Highest(Batch(ms, mark), mark)
    ensures m in Batch(ms, mark)
  {
    BatchExact(ms, mark);
    UnseenExact(ms, mark);
    var rows, u := Batch(ms, mark), Unseen(ms, mark);
    HighestIsLast(rows, mark);
    hide Unseen, Batch, Highest;
    var j :| 0 <= j < |u| && u[j] == m;
    assert rows != [] && rows[|rows| - 1] == u[|rows| - 1];
    RisingOrder(u, j, |rows| - 1);
    assert rows[j] == m;
  }

  /** The new watermark of a completed scan. */
  lemma MarkAdvances(s: State, notes: seq<Source>, more: seq<Source>, run: nat, mark: nat)
    requires TranscriptOk(Transcript(s, run)) && MarkOk(s, notes, run, mark) && notes <= more
    requires forall m :: m in Batch(Transcript(s, run), mark) ==> Handled(more, run, m)
    ensures MarkOk(s, more, run, Highest(Batch(Transcript(s, run), mark), mark))
  {
    hide SourceOf, Unseen, Batch, Highest, Transcript;
    var ms, rows := Transcript(s, run), Batch(Transcript(s, run), mark);
    BatchExact(ms, mark);
    HighestIsLast(rows, mark);
    var last := Highest(rows, mark);
    forall i | 0 <= i < |ms| && ms[i].id <= last ensures Handled(more, run, ms[i]) {
      if ms[i].id <= mark {
        assert Handled(notes, run, ms[i]);
      } else if ms[i].active {
        InBatch(ms, mark, ms[i]);
      } else {
        InactiveHandled(more, run, ms[i]);
      }
    }
    if rows != [] {
      assert rows[|rows| - 1] in ms;
    }
  }

  lemma InactiveHandled(notes: seq<Source>, run: nat, m: Message)
    requires !m.active
    ensures Handled(notes, run, m)
  {
    hide Fenced, LastAsks;
  }

  lemma MarkStays(s: State, notes: seq<Source>, more: seq<Source>, run: nat, mark: nat)
    requires MarkOk(s, notes, run, mark) && notes <= more
    ensures MarkOk(s, more, run, mark)
  {
    hide SourceOf, Transcript;
    forall i | 0 <= i < |Transcript(s, run)| && Transcript(s, run)[i].id <= mark
      ensures Handled(more, run, Transcript(s, run)[i])
    {
      assert Handled(notes, run, Transcript(s, run)[i]);
    }
  }

  /** One run's scan, to the end or not, skips nothing and repeats nothing. */
  lemma ScanOneOk(s: State, notes: seq<Source>, run: nat, mark: nat, course: Course)
    requires TranscriptOk(Transcript(s, run)) && MarkOk(s, notes, run, mark) && Distinct(notes)
    ensures var (more, last) := ScanOne(notes, run, Transcript(s, run), mark, course);
            && notes <= more && Distinct(more) && MarkOk(s, more, run, last)
            && (forall n :: n in more ==> n in notes || (n.run == run && Justified(s, n)))
  {
    hide SourceOf, Unseen, Batch, Highest, Transcript, Distinct, MarkOk, AnnounceAll;
    var ms := Transcript(s, run);
    var rows := Batch(ms, mark);
    var seen := Seen(rows, course);
    var more := AnnounceAll(notes, run, seen);
    AnnounceAllKeeps(notes, run, seen);
    BatchExact(ms, mark);
    MarkStays(s, notes, more, run, mark);
    if course.Completes? {
      MarkAdvances(s, notes, more, run, mark);
    }
    forall n | n in more && n !in notes ensures n.run == run && Justified(s, n) {
      var i :| 0 <= i < |seen| && SourceOf(run, seen[i]) == Some(n);
      assert seen[i] == rows[i] && rows[i] in ms;
      SourceNamesRun(run, seen[i]);
    }
  }

  lemma SourceNamesRun(run: nat, m: Message)
    ensures SourceOf(run, m).Some? ==> SourceOf(run, m).value.run == run
  {
    hide Fenced, LastAsks;
  }

  /** What a pass over the running runs has done so far. */
  ghost predicate PassOk(s: State, notes: seq<Source>, marks: map<nat, nat>) {
    && s.notes <= notes && Distinct(notes)
    && (forall n :: n in notes ==> Justified(s, n))
    && (forall run :: run in marks ==> MarkOk(s, notes, run, marks[run]))
  }

  lemma PassNext(s: State, notes: seq<Source>, marks: map<nat, nat>, run: nat, course: Course)
    requires Valid(s) && PassOk(s, notes, marks)
    ensures var (more, last) := ScanOne(notes, run, Transcript(s, run), Marked(s.marks, run), course);
            PassOk(s, more, marks[run := last])
  {
    hide Distinct, Justified, MarkOk, TranscriptOk, Transcript, ScanOne;
    var mark := Marked(s.marks, run);
    assert TranscriptOk(Transcript(s, run));
    if run in s.marks {
      MarkStays(s, s.notes, notes, run, mark);
    } else {
      NothingMarked(s, notes, run);
    }
    ScanOneOk(s, notes, run, mark, course);
    var (more, last) := ScanOne(notes, run, Transcript(s, run), mark, course);
    forall r | r in marks ensures MarkOk(s, more, r, marks[r]) {
      MarkStays(s, notes, more, r, marks[r]);
    }
  }

  lemma NothingMarked(s: State, notes: seq<Source>, run: nat)
    requires TranscriptOk(Transcript(s, run))
    ensures MarkOk(s, notes, run, 0)
  {
    hide SourceOf;
  }

  lemma {:induction false} ScanRunsOk(s: State, runs: seq<(nat, Course)>)
    requires Valid(s)
    ensures PassOk(s, ScanRuns(s, runs).0, ScanRuns(s, runs).1)
  {
    hide Valid, PassOk, ScanOne, Transcript, Marked;
    if runs == [] {
      PassStart(s);
    } else {
      ScanRunsOk(s, runs[..|runs| - 1]);
      var (notes, marks) := ScanRuns(s, runs[..|runs| - 1]);
      PassNext(s, notes, marks, runs[|runs| - 1].0, runs[|runs| - 1].1);
    }
  }

  lemma PassStart(s: State)
    requires Valid(s)
    ensures PassOk(s, s.notes, map[])
  {
    hide Distinct, Justified, MarkOk, TranscriptOk;
  }

  lemma SaysKeeps(s: State, run: nat, m: Message)
    requires Valid(s) && Possible(s, Says(run, m))
    ensures Valid(Apply(s, Says(run, m)))
  {
    hide SourceOf, Distinct, Handled;
    var t := Apply(s, Says(run, m));
    forall r ensures TranscriptOk(Transcript(t, r)) {
      assert TranscriptOk(Transcript(s, r));
    }
    forall n | n in t.notes ensures Justified(t, n) {
      assert Justified(s, n);
      var i :| 0 <= i < |Transcript(s, n.run)| && SourceOf(n.run, Transcript(s, n.run)[i]) == Some(n);
      assert Transcript(t, n.run)[i] == Transcript(s, n.run)[i];
    }
    forall r | r in t.marks ensures MarkOk(t, t.notes, r, t.marks[r]) {
      assert MarkOk(s, s.notes, r, s.marks[r]);
      SaysKeepsMark(s, run, m, r, s.marks[r]);
    }
  }

  lemma SaysKeepsMark(s: State, run: nat, m: Message, r: nat, mark: nat)
    requires Possible(s, Says(run, m)) && MarkOk(s, s.notes, r, mark)
    ensures MarkOk(Apply(s, Says(run, m)), s.notes, r, mark)
  {
    hide SourceOf, Handled;
    var t := Apply(s, Says(run, m));
    var ms := Transcript(s, r);
    assert forall i :: 0 <= i < |ms| ==> Transcript(t, r)[i] == ms[i];
    if mark > 0 {
      var i :| 0 <= i < |ms| && mark <= ms[i].id;
      assert mark <= Transcript(t, r)[i].id;
    }
  }

  lemma ScanKeeps(s: State, runs: seq<(nat, Course)>, saved: bool)
    requires Valid(s)
    ensures Valid(Apply(s, Scan(runs, saved)))
  {
    hide Distinct, MarkOk, TranscriptOk, SourceOf, ScanRuns, Justified;
    ScanRunsOk(s, runs);
    var t := Apply(s, Scan(runs, saved));
    forall r ensures Transcript(t, r) == Transcript(s, r) {
    }
    forall n | n in t.notes ensures Justified(t, n) {
      JustifiedStays(s, t, n);
    }
    forall r | r in t.marks ensures MarkOk(t, t.notes, r, t.marks[r]) {
      if !saved {
        MarkStays(s, s.notes, t.notes, r, s.marks[r]);
      }
      MarkOkStays(s, t, t.notes, r, t.marks[r]);
    }
  }

  lemma JustifiedStays(s: State, t: State, n: Source)
    requires Justified(s, n) && t.transcripts == s.transcripts
    ensures Justified(t, n)
  {
    hide SourceOf;
    assert Transcript(t, n.run) == Transcript(s, n.run);
  }

  lemma MarkOkStays(s: State, t: State, notes: seq<Source>, r: nat, mark: nat)
    requires MarkOk(s, notes, r, mark) && t.transcripts == s.transcripts
    ensures MarkOk(t, notes, r, mark)
  {
    hide SourceOf;
    assert Transcript(t, r) == Transcript(s, r);
  }

  lemma StepKeeps(s: State, e: Event)
    requires Valid(s) && Possible(s, e)
    ensures Valid(Apply(s, e))
  {
    hide Valid, Apply;
    match e
    case Says(run, m) => SaysKeeps(s, run, m);
    case Scan(runs, saved) => ScanKeeps(s, runs, saved);
  }

  // -------------------------------------------------------------- whole histories

  const EMPTY := State([], map[], map[])

  function After(events: seq<Event>): State {
    if events == [] then EMPTY else Apply(After(events[..|events| - 1]), events[|events| - 1])
  }

  predicate AllPossible(events: seq<Event>) {
    forall i :: 0 <= i < |events| ==> Possible(After(events[..i]), events[i])
  }

  lemma {:induction false} HistoryValid(events: seq<Event>)
    requires AllPossible(events)
    ensures Valid(After(events))
  {
    hide Valid, Apply, Possible;
    if events == [] {
      EmptyValid();
    } else {
      var n := |events| - 1;
      forall i | 0 <= i < n ensures Possible(After(events[..n][..i]), events[..n][i]) {
        assert events[..n][..i] == events[..i];
      }
      HistoryValid(events[..n]);
      StepKeeps(After(events[..n]), events[n]);
    }
  }

  lemma EmptyValid()
    ensures Valid(EMPTY)
  {
  }

  /** No source is announced twice, so a run is guessed about at most once. */
  lemma AnnouncedOnce(events: seq<Event>, i: nat, j: nat)
    requires AllPossible(events) && i < j < |After(events).notes|
    ensures After(events).notes[i] != After(events).notes[j]
  {
    hide Apply, After;
    HistoryValid(events);
  }

  /** A fenced question is announced as its message's own, a guessed one as its run's. */
  predicate Announced(notes: seq<Source>, run: nat, m: Message) {
    (AsksByFence(m) ==> OfMessage(run, m.id) in notes) && (AsksInPassing(m) ==> OfRun(run) in notes)
  }

  /** There is a message that asks so. */
  predicate Grounded(s: State, n: Source) {
    match n
    case OfMessage(run, id) =>
      exists i :: 0 <= i < |Transcript(s, run)| && Transcript(s, run)[i].id == id && AsksByFence(Transcript(s, run)[i])
    case OfRun(run) => exists i :: 0 <= i < |Transcript(s, run)| && AsksInPassing(Transcript(s, run)[i])
  }

  lemma HandledMeans(notes: seq<Source>, run: nat, m: Message)
    requires Handled(notes, run, m)
    ensures Announced(notes, run, m)
  {
    hide Fenced, LastAsks;
  }

  lemma JustifiedMeans(s: State, n: Source)
    requires Justified(s, n)
    ensures Grounded(s, n)
  {
    hide Fenced, LastAsks, Transcript;
    var i :| 0 <= i < |Transcript(s, n.run)| && SourceOf(n.run, Transcript(s, n.run)[i]) == Some(n);
  }

  /** The messages a run has said, in order. */
  function Said(events: seq<Event>, run: nat): seq<Message> {
    if events == [] then []
    else
      var before, e := Said(events[..|events| - 1], run), events[|events| - 1];
      if e.Says? && e.run == run then before + [e.m] else before
  }

  /** A scan changes no transcript. */
  lemma {:induction false} TranscriptIsSaid(events: seq<Event>, run: nat)
    ensures Transcript(After(events), run) == Said(events, run)
  {
    hide ScanRuns;
    if events != [] {
      TranscriptIsSaid(events[..|events| - 1], run);
    }
  }

  /** Only real questions are announced, and up to a stored watermark none was skipped. */
  lemma NoneSkipped(events: seq<Event>, run: nat, i: nat)
    requires AllPossible(events)
    requires i < |Said(events, run)| && run in After(events).marks
    requires Said(events, run)[i].id <= After(events).marks[run]
    ensures Announced(After(events).notes, run, Said(events, run)[i])
    ensures forall n :: n in After(events).notes ==> Grounded(After(events), n)
  {
    hide Apply, After, SourceOf, Announced, Grounded, Said;
    HistoryValid(events);
    TranscriptIsSaid(events, run);
    var s := After(events);
    forall n | n in s.notes ensures Grounded(s, n) {
      JustifiedMeans(s, n);
    }
    assert TranscriptOk(Transcript(s, run));
    if run in s.marks {
      assert MarkOk(s, s.notes, run, s.marks[run]);
      assert Handled(s.notes, run, Transcript(s, run)[i]);
      HandledMeans(s.notes, run, Transcript(s, run)[i]);
    }
  }

  // --------------------------------------------------------------------- progress

  /** The run is visited once. */
  predicate Visits(runs: seq<(nat, Course)>, run: nat, i: nat) {
    i < |runs| && runs[i].0 == run && forall j :: 0 <= j < |runs| && j != i ==> runs[j].0 != run
  }

  lemma {:induction false} VisitedMark(s: State, runs: seq<(nat, Course)>, run: nat, i: nat)
    requires Visits(runs, run, i)
    ensures var marks := ScanRuns(s, runs).1;
            run in marks &&
            marks[run] == if runs[i].1.Completes?
                then Highest(Batch(Transcript(s, run), Marked(s.marks, run)), Marked(s.marks, run))
                          else Marked(s.marks, run)
  {
    hide AnnounceAll, Highest, Batch, Transcript, Marked;
    var n := |runs| - 1;
    if i < n {
      assert Visits(runs[..n], run, i);
      VisitedMark(s, runs[..n], run, i);
      assert runs[n].0 != run;
    }
  }

  /** The first `k` messages of a transcript still past the mark. */
  function Waiting(ms: seq<Message>, k: nat, mark: nat): nat
    requires k <= |ms|
  {
    |Unseen(ms[..k], mark)|
  }

  lemma {:induction false} UnseenPrefix(ms: seq<Message>, k: nat, mark: nat)
    requires k <= |ms|
    ensures Unseen(ms[..k], mark) <= Unseen(ms, mark)
  {
    if k < |ms| {
      var n := |ms| - 1;
      assert ms[..n][..k] == ms[..k];
      UnseenPrefix(ms[..n], k, mark);
    } else {
      assert ms[..k] == ms;
    }
  }

  /** Raising the mark to the id of the unseen message at `j` leaves those after it. */
  lemma {:induction false} UnseenAfter(ms: seq<Message>, mark: nat, j: nat)
    requires Rising(ms) && j < |Unseen(ms, mark)|
    ensures Unseen(ms, Unseen(ms, mark)[j].id) == Unseen(ms, mark)[j + 1..]
  {
    UnseenExact(ms, mark);
    var u := Unseen(ms, mark);
    var last := u[j].id;
    var before, m := ms[..|ms| - 1], ms[|ms| - 1];
    var v := Unseen(before, mark);
    if j < |v| {
      UnseenAfter(before, mark, j);
      if m.active && m.id > mark {
        assert u == v + [m];
        assert u[j].id < u[|v|].id;
      } else {
        assert u == v;
        UnseenExact(before, mark);
        assert m.active ==> m.id <= mark;
      }
    } else {
      assert u == v + [m] && j == |v|;
      NothingPast(before, m.id);
    }
  }

  lemma {:induction false} NothingPast(ms: seq<Message>, mark: nat)
    requires forall i :: 0 <= i < |ms| && ms[i].active ==> ms[i].id <= mark
    ensures Unseen(ms, mark) == []
  {
    if ms != [] {
      NothingPast(ms[..|ms| - 1], mark);
    }
  }

  lemma WaitingDone(ms: seq<Message>, mark: nat, last: nat)
    requires Rising(ms) && mark <= last && forall i :: 0 <= i < |Unseen(ms, mark)| ==> Unseen(ms, mark)[i].id <= last
    ensures Unseen(ms, last) == []
  {
    UnseenExact(ms, mark);
    hide Unseen;
    forall i | 0 <= i < |ms| && ms[i].active ensures ms[i].id <= last {
      if ms[i].id > mark {
        assert ms[i] in Unseen(ms, mark);
      }
    }
    NothingPast(ms, last);
  }

  /** A completed scan of a run takes the next 200 off what waits. */
  lemma ScanAdvances(ms: seq<Message>, k: nat, mark: nat)
    requires Rising(ms) && k <= |ms|
    ensures var last := Highest(Batch(ms, mark), mark);
            Waiting(ms, k, last) <= if Waiting(ms, k, mark) <= 200 then 0 else Waiting(ms, k, mark) - 200
  {
    var all, some, rows := Unseen(ms, mark), Unseen(ms[..k], mark), Batch(ms, mark);
    UnseenPrefix(ms, k, mark);
    BatchExact(ms, mark);
    HighestIsLast(rows, mark);
    hide Unseen, Batch, Highest;
    if rows != [] {
      var j := |rows| - 1;
      if j < |some| {
        assert rows[j] == some[j];
        UnseenAfter(ms[..k], mark, j);
      } else {
        WaitingDone(ms[..k], mark, rows[j].id);
      }
    }
  }

  /** The run is visited in every scan of the history from `n` on. */
  predicate KeepsRunning(events: seq<Event>, n: nat, run: nat) {
    forall e :: n <= e < |events| && events[e].Scan? ==>
      exists i :: 0 <= i < |events[e].runs| && Visits(events[e].runs, run, i)
  }

  /** It is scanned to the end and the watermarks are saved. */
  predicate GoodScan(e: Event, run: nat) {
    e.Scan? && e.saved && exists i :: 0 <= i < |e.runs| && Visits(e.runs, run, i) && e.runs[i].1.Completes?
  }

  function GoodScans(events: seq<Event>, n: nat, run: nat): nat
    requires n <= |events|
    decreases |events|
  {
    if |events| == n then 0
    else GoodScans(events[..|events| - 1], n, run) + (if GoodScan(events[|events| - 1], run) then 1 else 0)
  }

  function Min0(a: int): nat {
    if a < 0 then 0 else a
  }

  /** What waits of the first `k` messages of the run. */
  function Left(s: State, run: nat, k: nat): nat
    requires k <= |Transcript(s, run)|
  {
    Waiting(Transcript(s, run), k, Marked(s.marks, run))
  }

  lemma TranscriptGrows(s: State, e: Event, run: nat)
    ensures Transcript(s, run) <= Transcript(Apply(s, e), run)
  {
    hide ScanRuns;
  }

  /** One event of a history in which the run stays running. */
  lemma WaitingStep(s: State, e: Event, run: nat, k: nat)
    requires Valid(s) && Possible(s, e) && k <= |Transcript(s, run)|
    requires e.Scan? ==> exists i :: 0 <= i < |e.runs| && Visits(e.runs, run, i)
    ensures k <= |Transcript(Apply(s, e), run)|
    ensures Left(Apply(s, e), run, k) <=
            if GoodScan(e, run) then Min0(Left(s, run, k) - MAX_MSGS_PER_SCAN) else Left(s, run, k)
  {
    hide Transcript, Highest, Batch, Unseen, ScanRuns, Distinct, Justified, MarkOk, Rising;
    var t := Apply(s, e);
    TranscriptGrows(s, e, run);
    assert Transcript(t, run)[..k] == Transcript(s, run)[..k];
    if e.Scan? {
      var i :| 0 <= i < |e.runs| && Visits(e.runs, run, i);
      VisitedMark(s, e.runs, run, i);
      TranscriptSame(s, e, run);
      assert TranscriptOk(Transcript(s, run));
      ScanAdvances(Transcript(s, run), k, Marked(s.marks, run));
      if GoodScan(e, run) {
        OneVisit(e.runs, run, i);
      }
    }
  }

  lemma TranscriptSame(s: State, e: Event, run: nat)
    requires e.Scan?
    ensures Transcript(Apply(s, e), run) == Transcript(s, run)
  {
    hide ScanRuns;
  }

  lemma OneVisit(runs: seq<(nat, Course)>, run: nat, i: nat)
    requires Visits(runs, run, i)
    ensures forall j :: 0 <= j < |runs| && Visits(runs, run, j) ==> j == i
  {
  }

  /** Whatever else happens, so many good scans have taken 200 messages each off what waited. */
  lemma {:induction false} WaitingFalls(events: seq<Event>, n: nat, run: nat, k: nat)
    requires AllPossible(events) && n <= |events| && KeepsRunning(events, n, run)
    requires k <= |Transcript(After(events[..n]), run)|
    ensures var a, z := After(events[..n]), After(events);
            && k <= |Transcript(z, run)| && Transcript(a, run) <= Transcript(z, run)
            && Left(z, run, k) <= Min0(Left(a, run, k) - MAX_MSGS_PER_SCAN * GoodScans(events, n, run))
    decreases |events|
  {
    hide Apply, Transcript, Left, Valid, Possible, GoodScan, Min0, AllPossible, KeepsRunning;
    if |events| == n {
      assert events[..n] == events;
      FallsBy(Left(After(events), run, k), 0, false, 0, 0);
    } else {
      var m := |events| - 1;
      var before, e := events[..m], events[m];
      assert before[..n] == events[..n];
      AllPossibleBefore(events);
      KeepsRunningBefore(events, n, run);
      WaitingFalls(before, n, run, k);
      HistoryValid(before);
      WaitingStep(After(before), e, run, k);
      TranscriptGrows(After(before), e, run);
      FallsBy(Left(After(events[..n]), run, k), GoodScans(before, n, run), GoodScan(e, run),
              Left(After(before), run, k), Left(After(events), run, k));
    }
  }

  lemma KeepsRunningBefore(events: seq<Event>, n: nat, run: nat)
    requires KeepsRunning(events, n, run) && n < |events|
    ensures var m := |events| - 1;
            && KeepsRunning(events[..m], n, run)
            && (events[m].Scan? ==> exists i :: 0 <= i < |events[m].runs| && Visits(events[m].runs, run, i))
  {
    hide Visits;
    var m := |events| - 1;
    assert forall i :: 0 <= i < m ==> events[..m][i] == events[i];
  }

  lemma FallsBy(a: nat, g: nat, good: bool, b: nat, c: nat)
    ensures Min0(a - MAX_MSGS_PER_SCAN * 0) == a
    ensures b <= Min0(a - MAX_MSGS_PER_SCAN * g) && c <= (if good then Min0(b - MAX_MSGS_PER_SCAN) else b) ==>
              c <= Min0(a - MAX_MSGS_PER_SCAN * (g + (if good then 1 else 0)))
  {
  }

  lemma AllPossibleBefore(events: seq<Event>)
    requires AllPossible(events) && events != []
    ensures var m := |events| - 1; AllPossible(events[..m]) && Possible(After(events[..m]), events[m])
  {
    hide Possible, After;
    var m := |events| - 1;
    forall i | 0 <= i < m ensures Possible(After(events[..m][..i]), events[..m][i]) {
      assert events[..m][..i] == events[..i];
    }
  }

  /**
   * A run that stays running has every question of its transcript announced after
   * as many good scans as it takes to read what waited, 200 messages at a time.
   */
  lemma EveryQuestionIsAnnounced(events: seq<Event>, n: nat, run: nat, i: nat)
    requires AllPossible(events) && n <= |events| && KeepsRunning(events, n, run)
    requires i < |Transcript(After(events[..n]), run)|
    requires var a := After(events[..n]);
             |Unseen(Transcript(a, run), Marked(a.marks, run))| <= MAX_MSGS_PER_SCAN * GoodScans(events, n, run)
    ensures Announced(After(events).notes, run, Transcript(After(events[..n]), run)[i])
  {
    hide Apply, Transcript, Marked, KeepsRunning, GoodScans, After, SourceOf, Unseen, Announced, Handled;
    var a, z := After(events[..n]), After(events);
    var k := |Transcript(a, run)|;
    assert Transcript(a, run)[..k] == Transcript(a, run);
    WaitingFalls(events, n, run, k);
    HistoryValid(events);
    AllReadHandled(z, run, k, i);
    HandledMeans(z.notes, run, Transcript(z, run)[i]);
  }

  lemma AllReadHandled(s: State, run: nat, k: nat, i: nat)
    requires Valid(s) && i < k <= |Transcript(s, run)| && Left(s, run, k) == 0
    ensures Handled(s.notes, run, Transcript(s, run)[i])
  {
    hide SourceOf, Distinct, Justified;
    var ms := Transcript(s, run);
    assert TranscriptOk(ms);
    UnseenExact(ms[..k], Marked(s.marks, run));
    hide Unseen;
    assert ms[..k][i] == ms[i] && ms[i] in ms[..k];
    if ms[i].active {
      assert ms[i].id <= Marked(s.marks, run);
      if run in s.marks {
        assert MarkOk(s, s.notes, run, s.marks[run]);
      }
    } else {
      InactiveHandled(s.notes, run, ms[i]);
    }
  }

  // --------------------------------------------------------------- the program

  class Scanner {
    var notes: seq<Source>
    var marks: map<nat, nat>
    var transcripts: map<nat, seq<Message>>

    constructor (s: State)
      ensures Now() == s
    {
      notes, marks, transcripts := s.notes, s.marks, s.transcripts;
    }

    ghost function Now(): State
      reads this
    {
      State(notes, marks, transcripts)
    }

    /** True for a new row. */
    method AddNotification(s: Source) returns (isNew: bool)
      modifies this`notes
      ensures notes == Announce(old(notes), Some(s)) && (isNew <==> s !in old(notes))
    {
      isNew := s !in notes;
      if isNew {
        notes := notes + [s];
      }
    }

    /** The batch of one run, row by row; a failure part-way leaves what was announced. */
    method ScanRun(run: nat, mark: nat, course: Course) returns (last: nat, failed: bool)
      modifies this`notes
      ensures (notes, if failed then mark else last) == ScanOne(old(notes), run, Transcript(Now(), run), mark, course)
    {
      hide SourceOf, Unseen;
      var rows := Batch(if run in transcripts then transcripts[run] else [], mark);
      var todo := Seen(rows, course);
      last, failed := mark, false;
      for i := 0 to |todo|
        invariant notes == AnnounceAll(old(notes), run, todo[..i])
        invariant last == Highest(todo[..i], mark)
      {
        assert todo[..i + 1][..i] == todo[..i];
        var m := todo[i];
        if m.id > last {
          last := m.id;
        }
        var source := SourceOf(run, m);
        if source.Some? {
          var _ := AddNotification(source.value);
        }
      }
      assert todo[..|todo|] == todo;
      failed := course.FailsAfter?;
    }

    /** `scan_running_runs`: every running run in turn, then the watermarks of exactly those. */
    method ScanRunningRuns(runs: seq<(nat, Course)>, saved: bool)
      modifies this
      ensures Now() == Apply(old(Now()), Scan(runs, saved))
    {
      hide ScanOne;
      var newMarks := map[];
      for i := 0 to |runs|
        invariant (notes, newMarks) == ScanRuns(old(Now()), runs[..i])
        invariant marks == old(marks) && transcripts == old(transcripts)
      {
        assert runs[..i + 1][..i] == runs[..i];
        var (run, course) := runs[i];
        var mark := if run in marks then marks[run] else 0;
        var last, failed := ScanRun(run, mark, course);
        newMarks := newMarks[run := if failed then mark else last];
      }
      assert runs[..|runs|] == runs;
      if saved {
        marks := newMarks;
      }
    }
  }
}
