// Python string operations that the export printer and the restore parser are
// built from, stated on `seq<char>`.

module Text {

  datatype Option<+T> = None | Some(value: T)

  /** A line boundary of `str.splitlines`. */
  predicate IsLineBreak(c: char) {
    var n := c as int;
    0x0a <= n <= 0x0d || 0x1c <= n <= 0x1e || n == 0x85 || n == 0x2028 || n == 0x2029
  }

  /** White space as `str.strip` and the pattern class `\s` see it. */
  predicate IsSpace(c: char) {
    var n := c as int;
    || 0x09 <= n <= 0x0d || 0x1c <= n <= 0x20 || n == 0x85 || n == 0xa0 || n == 0x1680
    || 0x2000 <= n <= 0x200a || n == 0x2028 || n == 0x2029 || n == 0x202f || n == 0x205f
    || n == 0x3000
  }

  predicate NoLineBreak(s: string) {
    forall i :: 0 <= i < |s| ==> !IsLineBreak(s[i])
  }

  /** The only line boundary in `s` is `\n`. */
  predicate PlainLines(s: string) {
    forall i :: 0 <= i < |s| ==> IsLineBreak(s[i]) ==> s[i] == '\n'
  }

  predicate NoNewline(s: string) {
    forall i :: 0 <= i < |s| ==> s[i] != '\n'
  }

  predicate NoCarriageReturn(s: string) {
    forall i :: 0 <= i < |s| ==> s[i] != '\r'
  }

  predicate Distinct<T(==)>(s: seq<T>) {
    forall i, j :: 0 <= i < j < |s| ==> s[i] != s[j]
  }

  // ------------------------------------------------------------- stripping

  /** What a call to `strip` removes: white space, or newlines only. */
  datatype Strippable = Spaces | Newlines {
    predicate Has(c: char) {
      match this
      case Spaces => IsSpace(c)
      case Newlines => c == '\n'
    }
  }

  function StripLeft(s: string, k: Strippable): (r: string)
    ensures |r| <= |s| && r == s[|s| - |r|..]
    ensures r == "" || !k.Has(r[0])
    ensures forall i :: 0 <= i < |s| - |r| ==> k.Has(s[i])
  {
    hide Strippable.Has;
    if s != "" && k.Has(s[0]) then StripLeft(s[1..], k) else s
  }

  function StripRight(s: string, k: Strippable): (r: string)
    ensures |r| <= |s| && r == s[..|r|]
    ensures r == "" || !k.Has(r[|r| - 1])
    ensures forall i :: |r| <= i < |s| ==> k.Has(s[i])
  {
    hide Strippable.Has;
    if s != "" && k.Has(s[|s| - 1]) then StripRight(s[..|s| - 1], k) else s
  }

  function Strip(s: string, k: Strippable): (r: string)
    ensures |r| <= |s|
    ensures r == "" || (!k.Has(r[0]) && !k.Has(r[|r| - 1]))
  {
    StripRight(StripLeft(s, k), k)
  }

  predicate Blank(s: string) {
    forall i :: 0 <= i < |s| ==> IsSpace(s[i])
  }

  predicate Trimmed(s: string, k: Strippable) {
    s == "" || (!k.Has(s[0]) && !k.Has(s[|s| - 1]))
  }

  lemma StripOfTrimmed(s: string, k: Strippable)
    requires Trimmed(s, k)
    ensures Strip(s, k) == s && StripLeft(s, k) == s && StripRight(s, k) == s
  {
  }

  lemma {:induction false} StripLeftPadding(l: string, s: string, k: Strippable)
    requires forall i :: 0 <= i < |l| ==> k.Has(l[i])
    ensures StripLeft(l + s, k) == StripLeft(s, k)
  {
    hide Strippable.Has;
    if l == "" {
      assert l + s == s;
    } else {
      assert (l + s)[0] == l[0] && (l + s)[1..] == l[1..] + s;
      StripLeftPadding(l[1..], s, k);
    }
  }

  lemma {:induction false} StripRightPadding(s: string, r: string, k: Strippable)
    requires forall i :: 0 <= i < |r| ==> k.Has(r[i])
    ensures StripRight(s + r, k) == StripRight(s, k)
  {
    var w, n := s + r, |r| - 1;
    if r == "" {
      assert w == s;
    } else {
      assert w[|w| - 1] == r[n] && w[..|w| - 1] == s + r[..n];
      StripRightPadding(s, r[..n], k);
    }
  }

  /** Padding on either side is what `strip` removes, and nothing else. */
  lemma StripPadding(l: string, s: string, r: string, k: Strippable)
    requires forall i :: 0 <= i < |l| ==> k.Has(l[i])
    requires forall i :: 0 <= i < |r| ==> k.Has(r[i])
    requires s != "" && Trimmed(s, k)
    ensures Strip(l + s + r, k) == s
  {
    assert l + s + r == l + (s + r);
    StripLeftPadding(l, s + r, k);
    assert (s + r)[0] == s[0];
    StripRightPadding(s, r, k);
  }

  lemma {:induction false} StripLeftEmptyIffBlank(s: string)
    ensures StripLeft(s, Spaces) == "" <==> Blank(s)
  {
    if s != "" && IsSpace(s[0]) {
      StripLeftEmptyIffBlank(s[1..]);
      assert forall i :: 1 <= i < |s| ==> s[i] == s[1..][i - 1];
    }
  }

  /** `not b.strip()` holds exactly of the blank strings. */
  lemma StripEmptyIffBlank(s: string)
    ensures Strip(s, Spaces) == "" <==> Blank(s)
  {
    StripLeftEmptyIffBlank(s);
    var t := StripLeft(s, Spaces);
    assert t == "" || !Spaces.Has(t[0]);
  }

  /** What `lstrip` and `rstrip` take away is white space. */
  lemma PaddedLeft(s: string) returns (a: string)
    ensures Blank(a) && s == a + StripLeft(s, Spaces)
  {
    var t := StripLeft(s, Spaces);
    a := s[..|s| - |t|];
    hide IsSpace;
    forall i | 0 <= i < |a| ensures IsSpace(a[i]) {
      assert Spaces.Has(s[i]);
    }
  }

  lemma PaddedRight(s: string) returns (c: string)
    ensures Blank(c) && s == StripRight(s, Spaces) + c
  {
    var t := StripRight(s, Spaces);
    c := s[|t|..];
    hide IsSpace;
    forall i | 0 <= i < |c| ensures IsSpace(c[i]) {
      assert Spaces.Has(s[|t| + i]);
    }
  }

  /** What `strip` takes away is white space on either side. */
  lemma Padded(s: string) returns (a: string, c: string)
    ensures Blank(a) && Blank(c) && s == a + Strip(s, Spaces) + c
  {
    hide StripLeft, StripRight, Blank;
    a := PaddedLeft(s);
    c := PaddedRight(StripLeft(s, Spaces));
    assert a + (Strip(s, Spaces) + c) == a + Strip(s, Spaces) + c;
  }

  // ------------------------------------------------------------- searching

  predicate OccursAt(s: string, p: string, i: int) {
    0 <= i && i + |p| <= |s| && s[i..i + |p|] == p
  }

  predicate StartsWith(s: string, p: string) {
    |p| <= |s| && s[..|p|] == p
  }

  /** `s.find(p, from)`: the least match, or -1. */
  function Find(s: string, p: string, from: nat := 0): (r: int)
    ensures r == -1 || (from <= r && OccursAt(s, p, r))
    ensures r != -1 ==> forall j :: from <= j < r ==> !OccursAt(s, p, j)
    ensures r == -1 ==> forall j :: from <= j ==> !OccursAt(s, p, j)
    decreases |s| + 1 - from
  {
    if from > |s| then -1
    else if OccursAt(s, p, from) then from
    else Find(s, p, from + 1)
  }

  predicate Contains(s: string, p: string) {
    exists i | 0 <= i <= |s| :: OccursAt(s, p, i)
  }

  lemma OccursCharwise(s: string, p: string, i: int)
    ensures OccursAt(s, p, i) <==>
            0 <= i && i + |p| <= |s| && forall k :: 0 <= k < |p| ==> s[i + k] == p[k]
  {
    if 0 <= i && i + |p| <= |s| {
      var w := s[i..i + |p|];
      assert forall k :: 0 <= k < |w| ==> w[k] == s[i + k];
    }
  }

  /** A match cannot straddle a boundary that is followed by a newline. */
  lemma OccursInPrefix(a: string, b: string, p: string, i: int)
    requires |p| >= 1 && NoNewline(p[1..])
    requires b == "" || b[0] == '\n'
    requires 0 <= i < |a|
    ensures OccursAt(a + b, p, i) <==> OccursAt(a, p, i)
  {
    OccursCharwise(a + b, p, i);
    OccursCharwise(a, p, i);
    assert forall k :: 1 <= k < |p| ==> p[k] == p[1..][k - 1];
    if i + |p| > |a| && b != "" {
      assert (a + b)[i + (|a| - i)] == b[0];
    }
  }

  // ----------------------------------------------------------------- lines

  function Join(parts: seq<string>, sep: string): string {
    if parts == [] then ""
    else if |parts| == 1 then parts[0]
    else parts[0] + sep + Join(parts[1..], sep)
  }

  /** `s.split("\n")`: always at least one part. */
  function SplitNewline(s: string): (r: seq<string>)
    ensures |r| >= 1
  {
    if s == "" then [""]
    else if s[0] == '\n' then [""] + SplitNewline(s[1..])
    else var t := SplitNewline(s[1..]); [[s[0]] + t[0]] + t[1..]
  }

  /** `s.splitlines()`; `\r\n` is one boundary and a final boundary ends no extra line. */
  function SplitLines(s: string): seq<string> {
    if s == "" then []
    else if s[0] == '\r' && |s| > 1 && s[1] == '\n' then [""] + SplitLines(s[2..])
    else if IsLineBreak(s[0]) then [""] + SplitLines(s[1..])
    else
      var t := SplitLines(s[1..]);
      if t == [] then [[s[0]]] else [[s[0]] + t[0]] + t[1..]
  }

  lemma {:induction false} JoinSplitNewline(s: string)
    ensures Join(SplitNewline(s), "\n") == s
  {
    if s != "" {
      JoinSplitNewline(s[1..]);
      var t := SplitNewline(s[1..]);
      if s[0] == '\n' {
        assert ([""] + t)[1..] == t;
        assert Join([""] + t, "\n") == "" + "\n" + Join(t, "\n");
      } else {
        var u := [[s[0]] + t[0]] + t[1..];
        assert u[1..] == t[1..];
        if |t| > 1 {
          assert Join(t, "\n") == t[0] + "\n" + Join(t[1..], "\n");
          assert Join(u, "\n") == [s[0]] + t[0] + "\n" + Join(t[1..], "\n");
        }
        assert Join(u, "\n") == [s[0]] + Join(t, "\n");
      }
    }
  }

  lemma {:induction false} JoinedHasNoNewline(s: string)
    ensures forall k :: 0 <= k < |SplitNewline(s)| ==> NoNewline(SplitNewline(s)[k])
  {
    if s != "" {
      JoinedHasNoNewline(s[1..]);
    }
  }

  /** A complete line in front of `rest` becomes the first line. */
  lemma {:induction false} SplitLinesCons(line: string, rest: string)
    requires NoLineBreak(line)
    ensures SplitLines(line + "\n" + rest) == [line] + SplitLines(rest)
  {
    var s := line + "\n" + rest;
    if line == "" {
      assert s[1..] == rest;
    } else {
      assert s[1..] == line[1..] + "\n" + rest;
      SplitLinesCons(line[1..], rest);
      assert s[0] == line[0] && !IsLineBreak(s[0]);
      assert [line[0]] + line[1..] == line;
    }
  }

  lemma {:induction false} SplitLinesLast(line: string)
    requires NoLineBreak(line)
    ensures SplitLines(line) == if line == "" then [] else [line]
  {
    if line != "" {
      SplitLinesLast(line[1..]);
      assert [line[0]] + line[1..] == line && SplitLines(line) != [];
      assert |line| == 1 ==> [line[0]] == line;
    }
  }

  /** Text whose only boundary is `\n` contributes exactly its `split("\n")`. */
  lemma {:induction false} SplitLinesPlain(s: string, rest: string)
    requires PlainLines(s)
    ensures SplitLines(s + "\n" + rest) == SplitNewline(s) + SplitLines(rest)
  {
    var w := s + "\n" + rest;
    if s == "" {
      assert w[1..] == rest;
    } else {
      assert w[1..] == s[1..] + "\n" + rest;
      SplitLinesPlain(s[1..], rest);
      assert w[0] == s[0];
    }
  }

  lemma {:induction false} JoinLinesRoundTrip(lines: seq<string>)
    requires forall k :: 0 <= k < |lines| ==> NoLineBreak(lines[k]) && lines[k] != ""
    ensures SplitLines(Join(lines, "\n")) == lines
  {
    if |lines| == 1 {
      SplitLinesLast(lines[0]);
    } else if |lines| > 1 {
      JoinLinesRoundTrip(lines[1..]);
      SplitLinesCons(lines[0], Join(lines[1..], "\n"));
    }
  }

  /** Every line `splitlines` returns is free of boundaries. */
  lemma {:induction false} SplitLinesAreLines(s: string)
    ensures forall k :: 0 <= k < |SplitLines(s)| ==> NoLineBreak(SplitLines(s)[k])
    decreases |s|
  {
    if s == "" {
    } else if s[0] == '\r' && |s| > 1 && s[1] == '\n' {
      SplitLinesAreLines(s[2..]);
    } else {
      SplitLinesAreLines(s[1..]);
    }
  }

  // -------------------------------------------------------------- newlines

  /** What reading a file in text mode does to its line ends. */
  function UniversalNewlines(s: string): (r: string)
    ensures NoCarriageReturn(r)
  {
    if s == "" then ""
    else if s[0] == '\r' then
      "\n" + UniversalNewlines(if |s| > 1 && s[1] == '\n' then s[2..] else s[1..])
    else [s[0]] + UniversalNewlines(s[1..])
  }

  lemma {:induction false} UniversalNewlinesIdentity(s: string)
    requires NoCarriageReturn(s)
    ensures UniversalNewlines(s) == s
  {
    if s != "" {
      UniversalNewlinesIdentity(s[1..]);
    }
  }

  // --------------------------------------------------------------- numbers

  predicate IsDigit(c: char) {
    '0' <= c <= '9'
  }

  predicate AllDigits(s: string) {
    forall i :: 0 <= i < |s| ==> IsDigit(s[i])
  }

  /** `"%d"` of a natural number. */
  function Decimal(n: nat): (r: string)
    ensures r != "" && AllDigits(r)
    ensures n > 0 ==> r[0] != '0'
  {
    (if n < 10 then "" else Decimal(n / 10)) + ['0' + (n % 10) as char]
  }

  /** `int` of a digit string. */
  function ParseDigits(s: string): nat
    requires AllDigits(s)
  {
    if s == "" then 0 else 10 * ParseDigits(s[..|s| - 1]) + (s[|s| - 1] as int - '0' as int)
  }

  lemma {:induction false} ParseDecimal(n: nat)
    ensures ParseDigits(Decimal(n)) == n
  {
    var s := Decimal(n);
    if n >= 10 {
      ParseDecimal(n / 10);
      assert s[..|s| - 1] == Decimal(n / 10);
    } else {
      assert s[..|s| - 1] == "";
    }
  }

  // ------------------------------------------------------------------- case

  function Lower(s: string): (r: string)
    ensures |r| == |s|
    ensures forall i :: 0 <= i < |s| ==>
              !('A' <= r[i] <= 'Z') && (r[i] == s[i] || ('A' <= s[i] <= 'Z' && r[i] as int == s[i] as int + 32))
  {
    seq(|s|, i requires 0 <= i < |s| => if 'A' <= s[i] <= 'Z' then s[i] - 'A' + 'a' else s[i])
  }

  function Fold(s: string): string {
    Lower(Strip(s, Spaces))
  }
}
