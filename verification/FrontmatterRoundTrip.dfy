// Parsing the printed frontmatter gives back every field, and exactly the
// notes whose strings are free of line boundaries come back.

module FrontmatterRoundTrip {
  import opened Text
  import opened NotesExport
  import opened YamlLite

  // --------------------------------------------------------------- escaping

  /** The escape as one pass over the text. */
  function EscapeOnce(s: string): string {
    if s == "" then ""
    else (if s[0] == '\\' then "\\\\" else if s[0] == '"' then "\\\"" else [s[0]]) + EscapeOnce(s[1..])
  }

  lemma {:induction false} ReplaceCharConcat(a: string, b: string, c: char, with: string)
    ensures ReplaceChar(a + b, c, with) == ReplaceChar(a, c, with) + ReplaceChar(b, c, with)
  {
    if a == "" {
      assert a + b == b;
    } else {
      assert (a + b)[1..] == a[1..] + b;
      ReplaceCharConcat(a[1..], b, c, with);
    }
  }

  /** The two chained replaces are one pass: the second never sees the first's output as new. */
  lemma {:induction false} EscapeIsOnePass(s: string)
    ensures Escape(s) == EscapeOnce(s)
  {
    if s != "" {
      var head := if s[0] == '\\' then "\\\\" else [s[0]];
      EscapeIsOnePass(s[1..]);
      ReplaceCharConcat(head, ReplaceChar(s[1..], '\\', "\\\\"), '"', "\\\"");
      assert ReplaceChar("\\\\", '"', "\\\"") == "\\\\" by {
        assert "\\\\"[1..] == "\\" && "\\"[1..] == "";
      }
      assert ReplaceChar([s[0]], '"', "\\\"") == (if s[0] == '"' then "\\\"" else [s[0]]) by {
        assert [s[0]][1..] == "";
      }
    }
  }

  lemma {:induction false} UnescapeInvertsEscape(s: string)
    ensures Unescape(Escape(s)) == s
  {
    EscapeIsOnePass(s);
    if s != "" {
      UnescapeInvertsEscape(s[1..]);
      EscapeIsOnePass(s[1..]);
      var e, tail := EscapeOnce(s), EscapeOnce(s[1..]);
      assert [s[0]] + s[1..] == s;
      if s[0] == '\\' || s[0] == '"' {
        assert e == ['\\', s[0]] + tail;
        assert e[1..] == [s[0]] + tail && e[1..][1..] == tail;
        assert UnescapeFrom(e[1..], true) == [s[0]] + UnescapeFrom(tail, false);
      } else {
        assert e == [s[0]] + tail && e[1..] == tail;
      }
    }
  }

  // ---------------------------------------------------------- flow sequences

  lemma SplitEscaped(c: char, tail: string, buf: string)
    ensures SplitFlowFrom(['\\', c] + tail, buf, true, false) == SplitFlowFrom(tail, buf + ['\\', c], true, false)
  {
    var t := ['\\', c] + tail;
    assert t[1..] == [c] + tail && t[1..][1..] == tail;
    assert buf + ['\\'] + [c] == buf + ['\\', c];
  }

  lemma SplitPlain(c: char, tail: string, buf: string)
    requires c != '\\' && c != '"'
    ensures SplitFlowFrom([c] + tail, buf, true, false) == SplitFlowFrom(tail, buf + [c], true, false)
  {
    assert ([c] + tail)[1..] == tail;
  }

  lemma SplitQuote(rest: string, buf: string)
    ensures SplitFlowFrom("\"" + rest, buf, true, false) == SplitFlowFrom(rest, buf + "\"", false, false)
  {
    assert ("\"" + rest)[1..] == rest;
  }

  function Piece(c: char): string {
    if c == '\\' || c == '"' then ['\\', c] else [c]
  }

  lemma EscapeCons(s: string)
    requires s != ""
    ensures EscapeOnce(s) == Piece(s[0]) + EscapeOnce(s[1..])
  {
  }

  lemma SplitPiece(c: char, tail: string, buf: string)
    ensures SplitFlowFrom(Piece(c) + tail, buf, true, false) == SplitFlowFrom(tail, buf + Piece(c), true, false)
  {
    hide SplitFlowFrom;
    if c == '\\' || c == '"' {
      SplitEscaped(c, tail, buf);
    } else {
      SplitPlain(c, tail, buf);
    }
  }

  lemma Regroup(a: string, b: string, c: string)
    ensures a + b + c == a + (b + c)
  {
  }

  lemma {:induction false} SplitFlowInsideQuotes(s: string, rest: string, buf: string)
    ensures SplitFlowFrom(EscapeOnce(s) + "\"" + rest, buf, true, false)
         == SplitFlowFrom(rest, buf + EscapeOnce(s) + "\"", false, false)
  {
    hide SplitFlowFrom, Piece;
    if s == "" {
      SplitQuote(rest, buf);
      assert EscapeOnce(s) + "\"" + rest == "\"" + rest && buf + EscapeOnce(s) == buf;
    } else {
      hide EscapeOnce;
      var piece, more := Piece(s[0]), EscapeOnce(s[1..]);
      EscapeCons(s);
      Regroup(piece, more, "\"" + rest);
      Regroup(piece + more, "\"", rest);
      Regroup(more, "\"", rest);
      SplitPiece(s[0], more + "\"" + rest, buf);
      SplitFlowInsideQuotes(s[1..], rest, buf + piece);
      Regroup(buf, piece, more);
    }
  }

  /** A quoted element passes through the splitter whole, whatever it holds. */
  lemma SplitFlowKeepsQuoted(s: string, rest: string, buf: string)
    ensures SplitFlowFrom(Quote(s) + rest, buf, false, false)
         == SplitFlowFrom(rest, buf + Quote(s), false, false)
  {
    EscapeIsOnePass(s);
    var t := Quote(s) + rest;
    assert t[0] == '"' && t[1..] == EscapeOnce(s) + "\"" + rest;
    SplitFlowInsideQuotes(s, rest, buf + ['"']);
    assert buf + ['"'] + EscapeOnce(s) + "\"" == buf + Quote(s);
  }

  function Pieces(vals: seq<string>, pad: string): seq<string>
    requires vals != []
  {
    [pad + Quote(vals[0])] + if |vals| == 1 then [] else Pieces(vals[1..], " ")
  }

  lemma {:induction false} SplitFlowOfQuoted(vals: seq<string>, pad: string)
    requires vals != []
    ensures SplitFlowFrom(Join(QuoteAll(vals), ", "), pad, false, false) == Pieces(vals, pad)
  {
    var qs := QuoteAll(vals);
    if |vals| == 1 {
      SplitFlowKeepsQuoted(vals[0], "", pad);
      assert Quote(vals[0]) + "" == Join(qs, ", ");
    } else {
      assert qs[1..] == QuoteAll(vals[1..]);
      var rest := Join(QuoteAll(vals[1..]), ", ");
      SplitFlowKeepsQuoted(vals[0], ", " + rest, pad);
      assert Join(qs, ", ") == Quote(vals[0]) + (", " + rest);
      assert (", " + rest)[1..] == " " + rest && (" " + rest)[1..] == rest;
      assert "" + [' '] == " ";
      SplitFlowOfQuoted(vals[1..], " ");
    }
  }

  function Strings(vals: seq<string>): (r: seq<Value>)
    ensures |r| == |vals| && forall i :: 0 <= i < |r| ==> r[i] == Str(vals[i])
  {
    seq(|vals|, i requires 0 <= i < |vals| => Str(vals[i]))
  }

  lemma StringsCons(vals: seq<string>)
    requires vals != []
    ensures Strings(vals) == [Str(vals[0])] + Strings(vals[1..])
  {
  }

  lemma QuotedValue(s: string)
    ensures YamlValue(Quote(s)) == Str(s)
    ensures Trimmed(Quote(s), Spaces) && Quote(s) != ""
  {
    UnescapeInvertsEscape(s);
    assert Inner(Quote(s)) == Escape(s);
  }

  lemma QuotedPiece(s: string, pad: string)
    requires pad == "" || pad == " "
    ensures Strip(pad + Quote(s), Spaces) == Quote(s)
  {
    assert pad + Quote(s) + "" == pad + Quote(s);
    StripPadding(pad, Quote(s), "", Spaces);
  }

  lemma YamlValuesCons(p: string, rest: seq<string>, bound: nat, v: Value)
    requires bound > |p| && forall i :: 0 <= i < |rest| ==> |rest[i]| < bound
    requires Strip(p, Spaces) != "" && YamlValue(Strip(p, Spaces)) == v
    ensures YamlValues([p] + rest, bound) == [v] + YamlValues(rest, bound)
  {
    assert ([p] + rest)[1..] == rest;
  }

  lemma NoValues(bound: nat)
    requires bound > 0
    ensures YamlValues([], bound) == []
  {
  }

  lemma {:induction false} QuotedPieces(vals: seq<string>, pad: string, bound: nat)
    requires vals != [] && (pad == "" || pad == " ")
    requires forall i :: 0 <= i < |Pieces(vals, pad)| ==> |Pieces(vals, pad)[i]| < bound
    requires bound > 0
    ensures YamlValues(Pieces(vals, pad), bound) == Strings(vals)
  {
    hide YamlValue, YamlValues, Quote, Strip;
    NoValues(bound);
    var ps, first := Pieces(vals, pad), pad + Quote(vals[0]);
    var rest := if |vals| == 1 then [] else Pieces(vals[1..], " ");
    assert ps == [first] + rest && ps[0] == first && ps[1..] == rest;
    QuotedPiece(vals[0], pad);
    QuotedValue(vals[0]);
    var tail := YamlValues(rest, bound);
    YamlValuesCons(first, rest, bound, Str(vals[0]));
    assert tail == Strings(vals[1..]) by {
      if |vals| > 1 {
        QuotedPieces(vals[1..], " ", bound);
      } else {
        assert vals[1..] == [];
      }
    }
    StringsCons(vals);
  }

  lemma NoPieces(bound: nat)
    requires bound > 0
    ensures SplitFlow("") == [""] && YamlValues([""], bound) == []
  {
    assert Strip("", Spaces) == "";
    assert [""][1..] == [];
  }

  lemma FlowParts(vals: seq<string>)
    ensures var v := Flow(vals);
            && |v| >= 2 && v[0] == '[' && v[|v| - 1] == ']' && Inner(v) == Join(QuoteAll(vals), ", ")
  {
  }

  lemma BracketsTrimmed(v: string)
    requires |v| >= 2 && v[0] == '[' && v[|v| - 1] == ']'
    ensures Trimmed(v, Spaces)
  {
  }

  /** A printed list of strings parses back to that list. */
  lemma FlowValue(vals: seq<string>)
    ensures YamlValue(Flow(vals)) == List(Strings(vals))
    ensures Trimmed(Flow(vals), Spaces)
  {
    hide SplitFlowFrom, YamlValues, Flow, QuoteAll, Quote, Inner, Trimmed;
    var v := Flow(vals);
    FlowParts(vals);
    BracketsTrimmed(v);
    if vals == [] {
      NoPieces(|v|);
    } else {
      SplitFlowOfQuoted(vals, "");
      QuotedPieces(vals, "", |v|);
    }
  }

  // -------------------------------------------------------------- field lines

  /** A frontmatter key as the printer writes it. */
  predicate IsKey(k: string) {
    && k != "" && k[0] != '#'
    && (forall i :: 0 <= i < |k| ==> !IsSpace(k[i]) && k[i] != ':')
  }

  function Line(key: string, text: string): string {
    key + ": " + text
  }

  lemma LineColon(key: string, text: string)
    requires IsKey(key)
    ensures Find(Line(key, text), ":") == |key|
  {
    var line := Line(key, text);
    assert forall i :: 0 <= i < |key| ==> line[i] == key[i];
    OccursCharwise(line, ":", |key|);
    forall i | 0 <= i < |key| ensures !OccursAt(line, ":", i) {
      OccursCharwise(line, ":", i);
      assert line[i + 0] != ':';
    }
  }

  lemma LineStripped(key: string, text: string)
    requires IsKey(key) && text != "" && Trimmed(text, Spaces)
    ensures var line := Line(key, text);
            line != "" && line[0] != '#' && StripRight(line, Spaces) == line == StripLeft(line, Spaces)
  {
    var line := Line(key, text);
    assert line[0] == key[0] && line[|line| - 1] == text[|text| - 1];
    StripOfTrimmed(line, Spaces);
  }

  lemma LineParts(key: string, text: string)
    requires IsKey(key) && text != "" && Trimmed(text, Spaces)
    ensures Strip(Line(key, text)[..|key|], Spaces) == key
    ensures Strip(Line(key, text)[|key| + 1..], Spaces) == text
  {
    var line := Line(key, text);
    assert line[..|key|] == key;
    StripOfTrimmed(key, Spaces);
    assert line[|key| + 1..] == " " + text + "";
    StripPadding(" ", text, "", Spaces);
  }

  lemma LineKeyValue(key: string, text: string, v: Value)
    requires IsKey(key) && text != "" && Trimmed(text, Spaces) && YamlValue(text) == v
    ensures KeyValue(Line(key, text), |key|) == (key, v)
  {
    LineParts(key, text);
  }

  lemma LineParses(key: string, text: string, v: Value)
    requires IsKey(key) && text != "" && Trimmed(text, Spaces) && YamlValue(text) == v
    ensures ParseLine(Line(key, text)) == Some((key, v))
  {
    LineStripped(key, text);
    LineColon(key, text);
    LineKeyValue(key, text, v);
  }

  function Assoc(keys: seq<string>, vals: seq<Value>): map<string, Value>
    requires |keys| == |vals|
  {
    if keys == [] then map[]
    else var n := |keys| - 1; Assoc(keys[..n], vals[..n])[keys[n] := vals[n]]
  }

  lemma {:induction false} LinesParse(lines: seq<string>, keys: seq<string>, vals: seq<Value>)
    requires |lines| == |keys| == |vals|
    requires forall i :: 0 <= i < |lines| ==> ParseLine(lines[i]) == Some((keys[i], vals[i]))
    ensures YamlLines(lines) == Assoc(keys, vals)
  {
    hide ParseLine;
    if lines != [] {
      var n := |lines| - 1;
      assert ParseLine(lines[n]) == Some((keys[n], vals[n]));
      LinesParse(lines[..n], keys[..n], vals[..n]);
      assert lines[..n + 1] == lines;
      YamlLinesSnoc(lines, n);
    }
  }

  /** With distinct keys every pair is found, and nothing else is. */
  lemma {:induction false} AssocHolds(keys: seq<string>, vals: seq<Value>)
    requires |keys| == |vals| && Distinct(keys)
    ensures forall i :: 0 <= i < |keys| ==> keys[i] in Assoc(keys, vals) && Assoc(keys, vals)[keys[i]] == vals[i]
    ensures forall k :: k in Assoc(keys, vals) ==> k in keys
  {
    if keys != [] {
      var n := |keys| - 1;
      AssocHolds(keys[..n], vals[..n]);
      forall i | 0 <= i < |keys|
        ensures keys[i] in Assoc(keys, vals) && Assoc(keys, vals)[keys[i]] == vals[i]
      {
        if i < n {
          assert keys[..n][i] == keys[i] && vals[..n][i] == vals[i];
        }
      }
    }
  }

  // ------------------------------------------------------------ the whole note

  /** A word the printer may leave unquoted: never a reserved scalar, never a number. */
  predicate BareWord(s: string) {
    && (forall i :: 0 <= i < |s| ==> 'a' <= s[i] <= 'z' || s[i] == '_')
    && s != "null" && s != "true" && s != "false"
  }

  /** The value a restore must find for a printed field. */
  function Meaning(f: Field): Value {
    match f
    case Number(_, n) => Int(n)
    case Quoted(_, s) => Str(s)
    case Word(_, w, d) => Str(OrElse(w, d))
    case Optional(_, o) => OptionValue(o)
    case Flag(_, b) => Bool(b)
    case Many(_, vals) => List(Strings(vals))
  }

  /** The strings of the field stay on one line, and a bare word is one. */
  predicate Printable(f: Field) {
    match f
    case Number(_, _) => true
    case Quoted(_, s) => NoLineBreak(s)
    case Word(_, w, d) => BareWord(w) && BareWord(d) && d != ""
    case Optional(_, o) => o.Some? ==> NoLineBreak(o.value)
    case Flag(_, _) => true
    case Many(_, vals) => forall i :: 0 <= i < |vals| ==> NoLineBreak(vals[i])
  }

  predicate PrintableNote(note: Note, area: Option<string>, project: Option<string>) {
    var fs := Fields(note, area, project);
    forall i :: 0 <= i < |fs| ==> Printable(fs[i])
  }

  /** A frontmatter text that stands for a value and keeps to its line. */
  predicate Denotes(text: string, v: Value) {
    text != "" && Trimmed(text, Spaces) && NoLineBreak(text) && YamlValue(text) == v
  }

  lemma {:induction false} EscapeNoLineBreak(s: string)
    requires NoLineBreak(s)
    ensures NoLineBreak(EscapeOnce(s))
  {
    if s != "" {
      EscapeNoLineBreak(s[1..]);
    }
  }

  lemma StringDenoted(s: string)
    requires NoLineBreak(s)
    ensures Denotes(Quote(s), Str(s))
  {
    EscapeIsOnePass(s);
    EscapeNoLineBreak(s);
    QuotedValue(s);
  }

  lemma DigitsValue(d: string)
    requires d != "" && AllDigits(d)
    ensures YamlValue(d) == Int(ParseDigits(d)) && Trimmed(d, Spaces)
  {
    assert IsDigit(d[0]) && IsDigit(d[|d| - 1]);
    assert d[0] != "null"[0] && d[0] != "~"[0] && d[0] != "true"[0] && d[0] != "false"[0];
  }

  lemma DecimalDenoted(n: nat)
    ensures Denotes(Decimal(n), Int(n))
  {
    hide Decimal, ParseDigits, YamlValue;
    ParseDecimal(n);
    DigitsValue(Decimal(n));
    forall i | 0 <= i < |Decimal(n)| ensures !IsLineBreak(Decimal(n)[i]) {
      assert IsDigit(Decimal(n)[i]);
    }
  }

  lemma {:induction false} JoinNoLineBreak(parts: seq<string>, sep: string)
    requires NoLineBreak(sep) && forall i :: 0 <= i < |parts| ==> NoLineBreak(parts[i])
    ensures NoLineBreak(Join(parts, sep))
  {
    if |parts| > 1 {
      JoinNoLineBreak(parts[1..], sep);
    }
  }

  lemma ListDenoted(vals: seq<string>)
    requires forall i :: 0 <= i < |vals| ==> NoLineBreak(vals[i])
    ensures Denotes(Flow(vals), List(Strings(vals)))
  {
    forall i | 0 <= i < |vals| ensures NoLineBreak(QuoteAll(vals)[i]) {
      StringDenoted(vals[i]);
    }
    JoinNoLineBreak(QuoteAll(vals), ", ");
    FlowValue(vals);
  }

  lemma WordDenoted(s: string, otherwise: string)
    requires BareWord(s) && BareWord(otherwise) && otherwise != ""
    ensures Denotes(OrElse(s, otherwise), Str(OrElse(s, otherwise)))
  {
    var w := OrElse(s, otherwise);
    assert 'a' <= w[0] <= 'z' || w[0] == '_';
  }

  lemma FieldDenotes(f: Field)
    requires Printable(f)
    ensures Denotes(f.Text(), Meaning(f))
  {
    match f
    case Number(_, n) => DecimalDenoted(n);
    case Quoted(_, s) => StringDenoted(s);
    case Word(_, w, d) => WordDenoted(w, d);
    case Optional(_, o) => if o.Some? { StringDenoted(o.value); }
    case Flag(_, b) =>
    case Many(_, vals) => ListDenoted(vals);
  }

  function Keys(): seq<string> {
    [ "id", "title", "type", "status", "area", "project", "tags", "authored_by",
      "content_hash", "created", "updated", "pinned", "disputed", "links" ]
  }

  lemma FieldKey(note: Note, area: Option<string>, project: Option<string>, i: nat)
    requires i < 14
    ensures Fields(note, area, project)[i].key == Keys()[i]
  {
  }

  /** Tells the keys apart: length and first two letters. */
  function Signature(k: string): int {
    if |k| < 2 then 0 else |k| * 1000000 + (k[0] as int) * 1000 + k[1] as int
  }

  lemma KeySignature(i: nat)
    requires i < 14
    ensures Signature(Keys()[i]) ==
            [ 2105100, 5116105, 4116121, 6115116, 4097114, 7112114, 4116097, 11097117,
              12099111, 7099114, 7117112, 6112105, 8100105, 5108105 ][i]
  {
  }

  lemma KeysDistinct(i: nat, j: nat)
    requires i < j < 14
    ensures Keys()[i] != Keys()[j]
  {
    KeySignature(i);
    KeySignature(j);
  }

  lemma KeyWellFormed(i: nat)
    requires i < 14
    ensures IsKey(Keys()[i])
  {
    var k := Keys()[i];
    assert k != "" && forall c :: 0 <= c < |k| ==> 'a' <= k[c] <= 'z' || k[c] == '_';
  }

  lemma LineOneLine(key: string, text: string)
    requires IsKey(key) && NoLineBreak(text)
    ensures NoLineBreak(Line(key, text)) && Line(key, text) != ""
  {
    forall c | 0 <= c < |key| ensures !IsLineBreak(key[c]) {
      assert !IsSpace(key[c]);
    }
  }

  function Meanings(fs: seq<Field>): (r: seq<Value>)
    ensures |r| == |fs| && forall i :: 0 <= i < |r| ==> r[i] == Meaning(fs[i])
  {
    seq(|fs|, i requires 0 <= i < |fs| => Meaning(fs[i]))
  }

  lemma KeysAreDistinct()
    ensures Distinct(Keys())
  {
    forall i, j | 0 <= i < j < |Keys()| ensures Keys()[i] != Keys()[j] {
      KeysDistinct(i, j);
    }
  }

  lemma PrintableLine(f: Field)
    requires Printable(f) && IsKey(f.key)
    ensures ParseLine(FieldLine(f)) == Some((f.key, Meaning(f)))
    ensures NoLineBreak(FieldLine(f)) && FieldLine(f) != ""
  {
    FieldDenotes(f);
    LineParses(f.key, f.Text(), Meaning(f));
    LineOneLine(f.key, f.Text());
  }

  lemma FieldsReadBack(note: Note, area: Option<string>, project: Option<string>)
    requires PrintableNote(note, area, project)
    ensures Parse(FrontmatterText(note, area, project)) == Assoc(Keys(), Meanings(Fields(note, area, project)))
  {
    var fs := Fields(note, area, project);
    var lines := FieldLines(fs);
    forall i | 0 <= i < |lines|
      ensures ParseLine(lines[i]) == Some((Keys()[i], Meanings(fs)[i]))
      ensures NoLineBreak(lines[i]) && lines[i] != ""
    {
      FieldKey(note, area, project, i);
      KeyWellFormed(i);
      PrintableLine(fs[i]);
    }
    JoinLinesRoundTrip(lines);
    LinesParse(lines, Keys(), Meanings(fs));
  }

  predicate Has(meta: map<string, Value>, key: string, v: Value) {
    key in meta && meta[key] == v
  }

  /** The note's frontmatter, key by key, and no other key. */
  predicate IsMeta(meta: map<string, Value>, note: Note, area: Option<string>, project: Option<string>) {
    && Has(meta, "id", Int(note.id))
    && Has(meta, "title", Str(note.title))
    && Has(meta, "type", Str(OrElse(note.noteType, "note")))
    && Has(meta, "status", Str(OrElse(note.status, "inbox")))
    && Has(meta, "area", OptionValue(area))
    && Has(meta, "project", OptionValue(project))
    && Has(meta, "tags", List(Strings(note.tags)))
    && Has(meta, "authored_by", Str(OrElse(note.authoredBy, "owner")))
    && Has(meta, "content_hash", OptionValue(note.contentHash))
    && Has(meta, "created", Str(note.created))
    && Has(meta, "updated", Str(note.updated))
    && Has(meta, "pinned", Bool(note.pinned))
    && Has(meta, "disputed", Bool(note.disputed))
    && Has(meta, "links", List(Strings(LinkSpecs(note.links))))
    && forall k :: k in meta ==> k in Keys()
  }

  lemma MetaAt(note: Note, area: Option<string>, project: Option<string>, i: nat)
    requires i < 14
    ensures Has(Assoc(Keys(), Meanings(Fields(note, area, project))), Keys()[i],
                Meaning(Fields(note, area, project)[i]))
  {
    KeysAreDistinct();
    AssocHolds(Keys(), Meanings(Fields(note, area, project)));
  }

  lemma FirstHalf(note: Note, area: Option<string>, project: Option<string>)
    ensures var meta := Assoc(Keys(), Meanings(Fields(note, area, project)));
            && Has(meta, "id", Int(note.id)) && Has(meta, "title", Str(note.title))
            && Has(meta, "type", Str(OrElse(note.noteType, "note")))
                && Has(meta, "status", Str(OrElse(note.status, "inbox")))
            && Has(meta, "area", OptionValue(area)) && Has(meta, "project", OptionValue(project))
            && Has(meta, "tags", List(Strings(note.tags)))
  {
    hide Has, Assoc, Meanings;
    MetaAt(note, area, project, 0);
    MetaAt(note, area, project, 1);
    MetaAt(note, area, project, 2);
    MetaAt(note, area, project, 3);
    MetaAt(note, area, project, 4);
    MetaAt(note, area, project, 5);
    MetaAt(note, area, project, 6);
  }

  lemma SecondHalf(note: Note, area: Option<string>, project: Option<string>)
    ensures var meta := Assoc(Keys(), Meanings(Fields(note, area, project)));
            && Has(meta, "authored_by", Str(OrElse(note.authoredBy, "owner")))
            && Has(meta, "content_hash", OptionValue(note.contentHash))
            && Has(meta, "created", Str(note.created)) && Has(meta, "updated", Str(note.updated))
            && Has(meta, "pinned", Bool(note.pinned)) && Has(meta, "disputed", Bool(note.disputed))
            && Has(meta, "links", List(Strings(LinkSpecs(note.links))))
  {
    hide Has, Assoc, Meanings;
    MetaAt(note, area, project, 7);
    MetaAt(note, area, project, 8);
    MetaAt(note, area, project, 9);
    MetaAt(note, area, project, 10);
    MetaAt(note, area, project, 11);
    MetaAt(note, area, project, 12);
    MetaAt(note, area, project, 13);
  }

  /** Every field of the printed frontmatter is parsed back, and no other key appears. */
  lemma FrontmatterComesBack(note: Note, area: Option<string>, project: Option<string>)
    requires PrintableNote(note, area, project)
    ensures IsMeta(Parse(FrontmatterText(note, area, project)), note, area, project)
  {
    hide PrintableNote, Parse, FrontmatterText, Has, Keys, Assoc, Meanings, Fields;
    FieldsReadBack(note, area, project);
    FirstHalf(note, area, project);
    SecondHalf(note, area, project);
    OnlyItsKeys(note, area, project);
  }

  lemma OnlyItsKeys(note: Note, area: Option<string>, project: Option<string>)
    ensures forall k :: k in Assoc(Keys(), Meanings(Fields(note, area, project))) ==> k in Keys()
  {
    KeysAreDistinct();
    AssocHolds(Keys(), Meanings(Fields(note, area, project)));
  }
}
