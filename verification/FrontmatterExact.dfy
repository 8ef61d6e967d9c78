// The one-line condition on frontmatter strings is necessary as well: whatever
// file is parsed, no value with a line boundary in it can come out.

module FrontmatterExact {
  import opened Text
  import opened NotesExport
  import opened YamlLite
  import opened FrontmatterRoundTrip
  import opened NoteReader

  predicate OneLine(v: Value) {
    match v
    case Str(s) => NoLineBreak(s)
    case List(items) => forall i :: 0 <= i < |items| ==> OneLine(items[i])
    case _ => true
  }

  lemma {:induction false} UnescapeOneLine(s: string, escaped: bool)
    requires NoLineBreak(s)
    ensures NoLineBreak(UnescapeFrom(s, escaped))
  {
    if s != "" {
      UnescapeOneLine(s[1..], false);
      UnescapeOneLine(s[1..], true);
    }
  }

  predicate AllOneLine(parts: seq<string>) {
    forall i :: 0 <= i < |parts| ==> NoLineBreak(parts[i])
  }

  lemma {:induction false} SplitFlowOneLine(s: string, buf: string, inQuotes: bool, escaped: bool)
    requires NoLineBreak(s) && NoLineBreak(buf)
    ensures AllOneLine(SplitFlowFrom(s, buf, inQuotes, escaped))
    decreases |s|
  {
    if s != "" {
      var t := s[1..];
      if escaped {
        SplitFlowOneLine(t, buf + [s[0]], inQuotes, false);
      } else if s[0] == '\\' && inQuotes {
        SplitFlowOneLine(t, buf + [s[0]], inQuotes, true);
      } else if s[0] == '"' {
        SplitFlowOneLine(t, buf + [s[0]], !inQuotes, false);
      } else if s[0] == ',' && !inQuotes {
        SplitFlowOneLine(t, "", false, false);
      } else {
        SplitFlowOneLine(t, buf + [s[0]], inQuotes, false);
      }
    }
  }

  lemma {:induction false} StripLeftOneLine(s: string, k: Strippable)
    requires NoLineBreak(s)
    ensures NoLineBreak(StripLeft(s, k))
  {
    if s != "" && k.Has(s[0]) {
      StripLeftOneLine(s[1..], k);
    }
  }

  lemma {:induction false} StripRightOneLine(s: string, k: Strippable)
    requires NoLineBreak(s)
    ensures NoLineBreak(StripRight(s, k))
  {
    if s != "" && k.Has(s[|s| - 1]) {
      StripRightOneLine(s[..|s| - 1], k);
    }
  }

  lemma StripOneLine(s: string, k: Strippable)
    requires NoLineBreak(s)
    ensures NoLineBreak(Strip(s, k))
  {
    StripLeftOneLine(s, k);
    StripRightOneLine(StripLeft(s, k), k);
  }

  lemma {:induction false} YamlValueOneLine(v: string)
    requires NoLineBreak(v)
    ensures OneLine(YamlValue(v))
    decreases |v|, 0
  {
    if Enclosed(v, '[', ']') {
      SplitFlowOneLine(Inner(v), "", false, false);
      YamlValuesOneLine(SplitFlow(Inner(v)), |v|);
    } else if Enclosed(v, '"', '"') {
      UnescapeOneLine(Inner(v), false);
    }
  }

  lemma {:induction false} YamlValuesOneLine(parts: seq<string>, bound: nat)
    requires bound > 0 && AllOneLine(parts) && forall i :: 0 <= i < |parts| ==> |parts[i]| < bound
    ensures forall i :: 0 <= i < |YamlValues(parts, bound)| ==> OneLine(YamlValues(parts, bound)[i])
    decreases bound, 0, |parts|
  {
    if parts != [] {
      assert NoLineBreak(parts[0]);
      StripOneLine(parts[0], Spaces);
      YamlValueOneLine(Strip(parts[0], Spaces));
      YamlValuesOneLine(parts[1..], bound);
    }
  }

  lemma ParseLineOneLine(raw: string)
    requires NoLineBreak(raw)
    ensures ParseLine(raw).Some? ==> OneLine(ParseLine(raw).value.1)
  {
    StripRightOneLine(raw, Spaces);
    var line := StripRight(raw, Spaces);
    if !Skipped(line) {
      var v := line[Find(line, ":") + 1..];
      StripOneLine(v, Spaces);
      YamlValueOneLine(Strip(v, Spaces));
    }
  }

  lemma {:induction false} YamlLinesOneLine(lines: seq<string>)
    requires AllOneLine(lines)
    ensures forall k :: k in YamlLines(lines) ==> OneLine(YamlLines(lines)[k])
  {
    if lines != [] {
      YamlLinesOneLine(lines[..|lines| - 1]);
      assert NoLineBreak(lines[|lines| - 1]);
      ParseLineOneLine(lines[|lines| - 1]);
    }
  }

  lemma ParseOneLine(text: string)
    ensures forall k :: k in Parse(text) ==> OneLine(Parse(text)[k])
  {
    SplitLinesAreLines(text);
    YamlLinesOneLine(SplitLines(text));
  }

  /** The unquoted words are ones the printer may leave bare. */
  predicate BareWords(note: Note) {
    BareWord(note.noteType) && BareWord(note.status) && BareWord(note.authoredBy)
  }

  predicate OptionOneLine(o: Option<string>) {
    o.Some? ==> NoLineBreak(o.value)
  }

  lemma HasOneLine(meta: map<string, Value>, key: string, v: Value)
    requires Has(meta, key, v) && forall k :: k in meta ==> OneLine(meta[k])
    ensures OneLine(v)
  {
  }

  lemma MetaStrings(meta: map<string, Value>, note: Note, area: Option<string>, project: Option<string>)
    requires IsMeta(meta, note, area, project)
    requires forall k :: k in meta ==> OneLine(meta[k])
    ensures NoLineBreak(note.title) && NoLineBreak(note.created) && NoLineBreak(note.updated)
    ensures OptionOneLine(area) && OptionOneLine(project) && OptionOneLine(note.contentHash)
  {
    HasOneLine(meta, "title", Str(note.title));
    HasOneLine(meta, "created", Str(note.created));
    HasOneLine(meta, "updated", Str(note.updated));
    HasOneLine(meta, "area", OptionValue(area));
    HasOneLine(meta, "project", OptionValue(project));
    HasOneLine(meta, "content_hash", OptionValue(note.contentHash));
  }

  lemma MetaLists(meta: map<string, Value>, note: Note, area: Option<string>, project: Option<string>)
    requires IsMeta(meta, note, area, project)
    requires forall k :: k in meta ==> OneLine(meta[k])
    ensures AllOneLine(note.tags) && AllOneLine(LinkSpecs(note.links))
  {
    ListOneLine(meta, "tags", note.tags);
    ListOneLine(meta, "links", LinkSpecs(note.links));
  }

  lemma StringsPrintable(note: Note, area: Option<string>, project: Option<string>)
    requires BareWords(note) && AllOneLine(note.tags) && AllOneLine(LinkSpecs(note.links))
    requires NoLineBreak(note.title) && NoLineBreak(note.created) && NoLineBreak(note.updated)
    requires OptionOneLine(area) && OptionOneLine(project) && OptionOneLine(note.contentHash)
    ensures PrintableNote(note, area, project)
  {
    WordDefaults();
  }

  lemma ListOneLine(meta: map<string, Value>, key: string, vals: seq<string>)
    requires Has(meta, key, List(Strings(vals))) && OneLine(meta[key])
    ensures AllOneLine(vals)
  {
    forall i | 0 <= i < |vals| ensures NoLineBreak(vals[i]) {
      assert OneLine(Strings(vals)[i]);
    }
  }

  lemma WordDefaults()
    ensures BareWord("note") && BareWord("inbox") && BareWord("owner")
  {
  }

  /** No file at all reads back as the frontmatter of a note with a line boundary in a string. */
  lemma FrontmatterNeedsOneLine(doc: string, note: Note, area: Option<string>, project: Option<string>)
    requires BareWords(note) && ReadNote(doc).Some?
    requires IsMeta(ReadNote(doc).value.meta, note, area, project)
    ensures PrintableNote(note, area, project)
  {
    var raw := UniversalNewlines(doc);
    ParseOneLine(MatchFrontmatter(raw).value.0);
    var meta := ReadNote(doc).value.meta;
    MetaStrings(meta, note, area, project);
    MetaLists(meta, note, area, project);
    StringsPrintable(note, area, project);
  }
}
