// backend/notes_import.py: what the frontmatter scanner makes of a value or a
// line, in whichever of its forms somebody wrote it.

module YamlRules {
  import opened Text
  import opened NotesExport
  import opened YamlLite
  import opened FrontmatterRoundTrip

  predicate Framed(v: string, open: char, close: char) {
    |v| >= 2 && v[0] == open && v[|v| - 1] == close
  }

  /** In quotes of either kind stands a string, in brackets a list. */
  lemma FramedValue(s: string)
    ensures YamlValue("'" + s + "'") == Str(s) && YamlValue("\"" + s + "\"") == Str(Unescape(s))
    ensures YamlValue("[" + s + "]").List?
  {
    hide UnescapeFrom, SplitFlowFrom, YamlValues;
    var a, b, c := "'" + s + "'", "\"" + s + "\"", "[" + s + "]";
    assert a[0] == '\'' && a[|a| - 1] == '\'' && Inner(a) == s;
    assert b[0] == '"' && b[|b| - 1] == '"' && Inner(b) == s;
    assert c[0] == '[' && c[|c| - 1] == ']';
  }

  lemma Digits(d: string)
    requires d != "" && AllDigits(d)
    ensures IsInteger(d) && IsInteger("-" + d)
    ensures d[0] != '-' && d != "null" && d != "~" && d != "true" && d != "false"
  {
    assert IsDigit(d[0]);
    assert ("-" + d)[1..] == d;
  }

  lemma NegativeIsNoWord(d: string)
    ensures "-" + d != "null" && "-" + d != "~" && "-" + d != "true" && "-" + d != "false"
  {
    assert ("-" + d)[0] == '-';
  }

  lemma NumberValue(d: string)
    requires d != "" && AllDigits(d)
    ensures YamlValue(d) == Int(ParseDigits(d)) && YamlValue("-" + d) == Int(-(ParseDigits(d) as int))
  {
    DigitsValue(d);
    Digits(d);
    NegativeIsNoWord(d);
    hide ParseDigits, SplitFlowFrom, UnescapeFrom, IsInteger;
    var v := "-" + d;
    assert v[0] == '-' && v[1..] == d;
  }

  lemma WordValue()
    ensures YamlValue("null") == YamlValue("~") == YamlValue("") == Null
    ensures YamlValue("true") == Bool(true) && YamlValue("false") == Bool(false)
  {
    hide SplitFlowFrom, UnescapeFrom, ParseDigits, IsInteger;
  }

  /** What has none of these forms is a bare string. */
  lemma BareValue(v: string)
    requires !Framed(v, '[', ']') && !Framed(v, '"', '"') && !Framed(v, '\'', '\'')
    requires v != "" && v != "null" && v != "~" && v != "true" && v != "false"
    requires forall d :: d != "" && AllDigits(d) ==> v != d && v != "-" + d
    ensures YamlValue(v) == Str(v)
  {
    hide SplitFlowFrom, UnescapeFrom, ParseDigits;
    var d := if v[0] == '-' then v[1..] else v;
    assert v == d || v == "-" + d;
  }

  /** Every scalar comes back as it was printed. */
  lemma ScalarComesBack(v: Value)
    requires !v.List?
    ensures YamlValue(Scalar(v)) == v
  {
    match v
    case Null => WordValue();
    case Bool(_) => WordValue();
    case Int(n) => IntComesBack(n);
    case Str(s) => QuotedValue(s);
  }

  lemma IntComesBack(n: int)
    ensures YamlValue(Scalar(Int(n))) == Int(n)
  {
    var m := if n < 0 then -n else n;
    ParseDecimal(m);
    NumberValue(Decimal(m));
    hide YamlValue, Decimal, ParseDigits;
  }

  /** A comment: white space, a hash, anything. */
  predicate Comment(line: string, pad: string, rest: string) {
    line == pad + "#" + rest && Blank(pad)
  }

  /** Blank lines, comments and lines without a colon are passed over, all others are read. */
  lemma LineMeans(raw: string)
    ensures ParseLine(raw).None? <==> Blank(raw) || (exists pad, rest :: Comment(raw, pad, rest)) || ':' !in raw
  {
    var line := StripRight(raw, Spaces);
    StrippedIs(raw);
    var head := StripLeft(line, Spaces);
    HasColon(line);
    assert ':' in raw <==> ':' in line by {
      ColonStays(raw);
    }
    if line != "" && head != "" && head[0] == '#' {
      CommentFound(raw, line, head);
    }
    forall pad, rest | Comment(raw, pad, rest) && line != "" ensures head != "" && head[0] == '#' {
      CommentStays(raw, pad, rest);
    }
    hide StripLeft, StripRight, Blank, KeyValue, Comment, Find;
  }

  lemma StrippedIs(raw: string)
    ensures StripRight(raw, Spaces) == "" <==> Blank(raw)
  {
    var line := StripRight(raw, Spaces);
    hide IsSpace;
    if line == "" {
      forall i | 0 <= i < |raw| ensures IsSpace(raw[i]) {
        assert Spaces.Has(raw[i]);
      }
    } else {
      assert !Spaces.Has(raw[|line| - 1]);
    }
  }

  lemma HasColon(line: string)
    ensures Find(line, ":") == -1 <==> ':' !in line
  {
    var at := Find(line, ":");
    if at != -1 {
      assert line[at] == line[at..at + 1][0];
    }
    if i :| 0 <= i < |line| && line[i] == ':' {
      assert OccursAt(line, ":", i);
    }
  }

  lemma ColonStays(raw: string)
    ensures ':' in raw <==> ':' in StripRight(raw, Spaces)
  {
    var line := StripRight(raw, Spaces);
    assert !Spaces.Has(':');
    if i :| 0 <= i < |raw| && raw[i] == ':' {
      assert i < |line|;
      assert line[i] == ':';
    }
  }

  lemma CommentFound(raw: string, line: string, head: string)
    requires line == StripRight(raw, Spaces) && head == StripLeft(line, Spaces) && head != "" && head[0] == '#'
    ensures exists pad, rest :: Comment(raw, pad, rest)
  {
    hide StripLeft, StripRight, Blank;
    var pad := PaddedLeft(line);
    var end := PaddedRight(raw);
    assert head == "#" + head[1..];
    assert raw == pad + "#" + (head[1..] + end);
    assert Comment(raw, pad, head[1..] + end);
  }

  lemma CommentStays(raw: string, pad: string, rest: string)
    requires Comment(raw, pad, rest)
    ensures var head := StripLeft(StripRight(raw, Spaces), Spaces); head != "" && head[0] == '#'
  {
    var line := StripRight(raw, Spaces);
    assert raw[|pad|] == '#' && !Spaces.Has('#');
    assert |pad| < |line|;
    var more := line[|pad|..];
    assert line == pad + more && more[0] == '#';
    StripLeftPadding(pad, more, Spaces);
  }
}
