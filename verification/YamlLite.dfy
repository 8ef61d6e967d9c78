// backend/notes_import.py: the hand-written frontmatter scanner of a restore.
// Each loop is a method, specified by the function beside it.

module YamlLite {
  import opened Text
  import opened NotesExport

  /** The rest of a flow sequence, given the scanner's buffer and two flags. */
  function SplitFlowFrom(s: string, buf: string, inQuotes: bool, escaped: bool): (r: seq<string>)
    ensures |r| >= 1
    ensures forall i :: 0 <= i < |r| ==> |r[i]| <= |buf| + |s|
    decreases |s|
  {
    if s == "" then [buf]
    else if escaped then SplitFlowFrom(s[1..], buf + [s[0]], inQuotes, false)
    else if s[0] == '\\' && inQuotes then SplitFlowFrom(s[1..], buf + [s[0]], inQuotes, true)
    else if s[0] == '"' then SplitFlowFrom(s[1..], buf + [s[0]], !inQuotes, false)
    else if s[0] == ',' && !inQuotes then [buf] + SplitFlowFrom(s[1..], "", false, false)
    else SplitFlowFrom(s[1..], buf + [s[0]], inQuotes, false)
  }

  function SplitFlow(s: string): seq<string> {
    SplitFlowFrom(s, "", false, false)
  }

  method SplitFlowLoop(s: string) returns (parts: seq<string>)
    ensures parts == SplitFlow(s)
  {
    parts := [];
    var buf, inQuotes, escaped := "", false, false;
    for i := 0 to |s|
      invariant SplitFlow(s) == parts + SplitFlowFrom(s[i..], buf, inQuotes, escaped)
    {
      var ch := s[i];
      ghost var rest := s[i..];
      assert rest[0] == ch && rest[1..] == s[i + 1..];
      if escaped {
        buf, escaped := buf + [ch], false;
      } else if ch == '\\' && inQuotes {
        buf, escaped := buf + [ch], true;
      } else if ch == '"' {
        inQuotes, buf := !inQuotes, buf + [ch];
      } else if ch == ',' && !inQuotes {
        parts, buf := parts + [buf], "";
      } else {
        buf := buf + [ch];
      }
    }
    parts := parts + [buf];
  }

  function UnescapeFrom(s: string, escaped: bool): (r: string)
    ensures |r| <= |s|
  {
    if s == "" then ""
    else if escaped || s[0] != '\\' then [s[0]] + UnescapeFrom(s[1..], false)
    else UnescapeFrom(s[1..], true)
  }

  function Unescape(s: string): string {
    UnescapeFrom(s, false)
  }

  method UnescapeLoop(s: string) returns (out: string)
    ensures out == Unescape(s)
  {
    out := "";
    var escaped := false;
    for i := 0 to |s|
      invariant Unescape(s) == out + UnescapeFrom(s[i..], escaped)
    {
      assert s[i..][0] == s[i] && s[i..][1..] == s[i + 1..];
      if escaped {
        out, escaped := out + [s[i]], false;
      } else if s[i] == '\\' {
        escaped := true;
      } else {
        out := out + [s[i]];
      }
    }
  }

  predicate Enclosed(v: string, open: char, close: char) {
    |v| >= 2 && v[0] == open && v[|v| - 1] == close
  }

  function Inner(v: string): (r: string)
    requires |v| >= 2
    ensures |r| == |v| - 2
  {
    v[1..|v| - 1]
  }

  predicate IsInteger(v: string) {
    var digits := if v != "" && v[0] == '-' then v[1..] else v;
    digits != "" && AllDigits(digits)
  }

  function YamlValue(v: string): Value
    decreases |v|, 0
  {
    if Enclosed(v, '[', ']') then List(YamlValues(SplitFlow(Inner(v)), |v|))
    else if Enclosed(v, '"', '"') then Str(Unescape(Inner(v)))
    else if Enclosed(v, '\'', '\'') then Str(Inner(v))
    else if v == "null" || v == "~" || v == "" then Null
    else if v == "true" then Bool(true)
    else if v == "false" then Bool(false)
    else if IsInteger(v) then
      Int(if v[0] == '-' then -(ParseDigits(v[1..]) as int) else ParseDigits(v))
    else Str(v)
  }

  function YamlValues(parts: seq<string>, bound: nat): seq<Value>
    requires bound > 0 && forall i :: 0 <= i < |parts| ==> |parts[i]| < bound
    decreases bound, 0, |parts|
  {
    if parts == [] then []
    else
      var p := Strip(parts[0], Spaces);
      (if p == "" then [] else [YamlValue(p)]) + YamlValues(parts[1..], bound)
  }

  function KeyValue(line: string, colon: nat): (string, Value)
    requires colon < |line|
  {
    (Strip(line[..colon], Spaces), YamlValue(Strip(line[colon + 1..], Spaces)))
  }

  predicate Skipped(line: string) {
    var head := StripLeft(line, Spaces);
    line == "" || (head != "" && head[0] == '#') || Find(line, ":") == -1
  }

  /** One frontmatter line, or None for a line the scanner skips. */
  function ParseLine(raw: string): Option<(string, Value)> {
    var line := StripRight(raw, Spaces);
    if Skipped(line) then None else Some(KeyValue(line, Find(line, ":")))
  }

  function Assign(out: map<string, Value>, kv: Option<(string, Value)>): map<string, Value> {
    if kv.None? then out else out[kv.value.0 := kv.value.1]
  }

  function YamlLines(lines: seq<string>): map<string, Value> {
    if lines == [] then map[]
    else Assign(YamlLines(lines[..|lines| - 1]), ParseLine(lines[|lines| - 1]))
  }

  function Parse(text: string): map<string, Value> {
    YamlLines(SplitLines(text))
  }

  lemma YamlLinesSnoc(lines: seq<string>, i: nat)
    requires i < |lines|
    ensures YamlLines(lines[..i + 1]) == Assign(YamlLines(lines[..i]), ParseLine(lines[i]))
  {
    assert lines[..i + 1][..i] == lines[..i];
  }

  method ParseLoop(text: string) returns (out: map<string, Value>)
    ensures out == Parse(text)
  {
    var lines := SplitLines(text);
    out := map[];
    for i := 0 to |lines|
      invariant out == YamlLines(lines[..i])
    {
      YamlLinesSnoc(lines, i);
      var parsed := ParseLine(lines[i]);
      if parsed.Some? {
        out := out[parsed.value.0 := parsed.value.1];
      }
    }
    assert lines[..|lines|] == lines;
  }
}
