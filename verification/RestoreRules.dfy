// backend/notes_import.py: what a restore makes of the frontmatter of a file and
// of its links, whether the export wrote them or somebody else did.

module RestoreRules {
  import opened Text
  import opened NotesExport
  import opened NoteReader
  import opened NoteLibrary
  import opened Restore
  import opened RestoreProps

  // -------------------------------------------------------------- frontmatter

  /** The field says `v`, and says something. */
  predicate Field(meta: map<string, Value>, key: string, v: string) {
    v != "" && key in meta && meta[key] == Str(v)
  }

  /** The field says `v`, or it says nothing and `v` is what is taken then. */
  predicate FieldOr(meta: map<string, Value>, key: string, otherwise: string, v: string) {
    Field(meta, key, v) || (v == otherwise && !(key in meta && meta[key].Str? && meta[key].s != ""))
  }

  /** The home of that name, whatever its case and outer spacing, or none where there is none. */
  predicate FiledUnder(home: Option<nat>, homes: map<string, nat>, name: string) {
    if Fold(name) in homes then home == Some(homes[Fold(name)]) else home == None
  }

  predicate ListHas(meta: map<string, Value>, key: string, v: string) {
    key in meta && meta[key].List? && Str(v) in meta[key].items
  }

  lemma FieldExact(meta: map<string, Value>, key: string, otherwise: string)
    ensures FieldOr(meta, key, otherwise, TextOf(meta, key, otherwise))
    ensures forall v :: FieldOr(meta, key, otherwise, v) ==> v == TextOf(meta, key, otherwise)
  {
  }

  lemma {:induction false} StringsExact(vals: seq<Value>, v: string)
    ensures v in StringsOf(vals) <==> Str(v) in vals
  {
    if vals != [] {
      StringsExact(vals[1..], v);
      assert vals == [vals[0]] + vals[1..];
    }
  }

  lemma {:induction false} NonBlankExact(vals: seq<string>, v: string)
    ensures v in NonBlank(vals) <==> v in vals && !Blank(v)
  {
    hide Blank;
    if vals != [] {
      NonBlankExact(vals[1..], v);
      assert vals == [vals[0]] + vals[1..];
    }
  }

  /** How the frontmatter files a note: an active one without a home in this library goes to the inbox. */
  ghost predicate FiledBy(row: Row, meta: map<string, Value>, homes: Homes) {
    && FieldOr(meta, "type", "note", row.noteType) && FieldOr(meta, "authored_by", "import", row.author)
    && (exists a :: FieldOr(meta, "area", "", a) && FiledUnder(row.area, homes.areas, a))
    && (exists p :: FieldOr(meta, "project", "", p) && FiledUnder(row.project, homes.projects, p))
    && (exists s :: FieldOr(meta, "status", "inbox", s) && HasStatus(row, Fold(s)))
    && forall t :: t in row.tags <==> ListHas(meta, "tags", t) && !Blank(t)
  }

  predicate HasStatus(row: Row, status: string) {
    row.status == if status == "active" && row.area == None && row.project == None then "inbox" else status
  }

  lemma TagsExact(meta: map<string, Value>, t: string)
    ensures t in NonBlank(ListOf(meta, "tags")) <==> ListHas(meta, "tags", t) && !Blank(t)
  {
    NonBlankExact(ListOf(meta, "tags"), t);
    hide Blank, NonBlank;
    if "tags" in meta && meta["tags"].List? {
      StringsExact(meta["tags"].items, t);
    }
  }

  /** What a note file is restored as, field by field, with what is taken for a field that is not there. */
  lemma RowMeans(f: File, homes: Homes)
    ensures var row := PlannedRow(f, homes);
            && row.body == f.unit.body && FiledBy(row, f.unit.meta, homes)
            && exists t :: FieldOr(f.unit.meta, "title", f.name, t) && row.title == CleanTitle(t, row.body, "export")
  {
    var meta := f.unit.meta;
    hide TextOf, FieldOr, Fold, NonBlank, ListOf, ListHas, CleanTitle, DigestOf, Blank;
    FieldExact(meta, "type", "note");
    FieldExact(meta, "authored_by", "import");
    FieldExact(meta, "status", "inbox");
    FieldExact(meta, "area", "");
    FieldExact(meta, "project", "");
    FieldExact(meta, "title", f.name);
    forall t ensures t in NonBlank(ListOf(meta, "tags")) <==> ListHas(meta, "tags", t) && !Blank(t) {
      TagsExact(meta, t);
    }
  }

  // ----------------------------------------------------------------- identity

  /** The identity of a file: its content hash, else a name made of its id. */
  predicate IdentifiedBy(u: Unit, s: string) {
    if "content_hash" in u.meta && u.meta["content_hash"].Str? && u.meta["content_hash"].s != ""
    then s == Strip(u.meta["content_hash"].s, Spaces)
    else if "id" in u.meta && u.meta["id"].Int?
    then s == "export-note-" + (if u.meta["id"].n >= 0 then Decimal(u.meta["id"].n) else "-" + Decimal(-u.meta["id"].n))
    else s == "export-note-" + "None"
  }

  lemma Unpadded(s: string)
    requires s != "" && !IsSpace(s[|s| - 1])
    ensures Strip("export-note-" + s, Spaces) == "export-note-" + s
  {
    StripOfTrimmed("export-note-" + s, Spaces);
  }

  lemma IdTextEnds(id: Option<int>)
    ensures IdText(id) != "" && !IsSpace(IdText(id)[|IdText(id)| - 1])
  {
    if id.Some? {
      var d := Decimal(if id.value < 0 then -id.value else id.value);
      assert IsDigit(d[|d| - 1]);
    }
  }

  lemma IdentityExact(u: Unit)
    ensures IdentifiedBy(u, SourceId(u))
  {
    IdTextEnds(OldId(u));
    hide Strip, IsSpace;
    Unpadded(IdText(OldId(u)));
  }

  /** Two files are one note exactly when identity, words of title and body, and attachments agree. */
  lemma SameNoteExact(f: File, g: File, titleF: string, titleG: string, s: string)
    requires IdentifiedBy(f.unit, s)
    requires FieldOr(f.unit.meta, "title", f.name, titleF) && FieldOr(g.unit.meta, "title", g.name, titleG)
    ensures DigestOf(f) == DigestOf(g) <==>
            && IdentifiedBy(g.unit, s) && Normalize(titleF) == Normalize(titleG)
            && Normalize(f.unit.body) == Normalize(g.unit.body) && f.attached == g.attached
  {
    IdentityExact(f.unit);
    IdentityExact(g.unit);
    OneIdentity(f.unit, s);
    if IdentifiedBy(g.unit, s) {
      OneIdentity(g.unit, s);
    }
    hide IdentifiedBy, TextOf, FieldOr, SourceId, Normalize;
    FieldExact(f.unit.meta, "title", f.name);
    FieldExact(g.unit.meta, "title", g.name);
  }

  lemma OneIdentity(u: Unit, s: string)
    requires IdentifiedBy(u, s)
    ensures s == SourceId(u)
  {
    IdentityExact(u);
  }

  // -------------------------------------------------------------------- links

  /** `kind:number`. */
  predicate Spells(spec: string, kind: string, digits: string) {
    spec == kind + ":" + digits && ':' !in kind && digits != "" && AllDigits(digits)
  }

  lemma SpecExact(spec: string, kind: string, target: nat)
    ensures ParseLink(spec) == Some((kind, target)) <==>
            exists d :: Spells(spec, kind, d) && ParseDigits(d) == target
  {
    hide ParseDigits;
    var colon := Find(spec, ":");
    if ParseLink(spec) == Some((kind, target)) {
      var d := spec[colon + 1..];
      assert spec == spec[..colon] + ":" + d;
      forall c | c in spec[..colon] ensures c != ':' {
        var i :| 0 <= i < colon && spec[i] == c;
        assert !OccursAt(spec, ":", i);
      }
      assert Spells(spec, kind, d);
    }
    forall d | Spells(spec, kind, d) ensures ParseLink(spec) == Some((kind, ParseDigits(d))) {
      SpelledLink(spec, kind, d);
    }
  }

  lemma SpelledLink(spec: string, kind: string, d: string)
    requires Spells(spec, kind, d)
    ensures ParseLink(spec) == Some((kind, ParseDigits(d)))
  {
    hide ParseDigits, Find;
    FirstColon(kind, d);
    assert spec[..|kind|] == kind && spec[|kind| + 1..] == d;
  }

  lemma FirstColon(kind: string, d: string)
    requires ':' !in kind
    ensures Find(kind + ":" + d, ":") == |kind|
  {
    var spec := kind + ":" + d;
    assert spec[|kind|..|kind| + 1] == ":" && OccursAt(spec, ":", |kind|);
    forall j | 0 <= j < |kind| ensures !OccursAt(spec, ":", j) {
      assert kind[j] in kind && spec[j..j + 1][0] == kind[j];
    }
  }

  /** The link a spec asks for: a note by its new id, a task or a schedule by its own, both ends there. */
  ghost predicate AskedBy(src: nat, spec: string, m: map<Option<int>, nat>, lib: Library, l: LinkRow) {
    && l.source == src && 1 <= src <= |lib.notes|
    && exists d :: Spells(spec, l.kind, d) && LeadsTo(ParseDigits(d), m, lib, l)
  }

  predicate LeadsTo(target: nat, m: map<Option<int>, nat>, lib: Library, l: LinkRow) {
    || (l.kind == "note" && Some(target) in m && l.target == m[Some(target)] && 1 <= l.target <= |lib.notes|)
    || ((l.kind == "task" || l.kind == "schedule") && l.target == target && (l.kind, target) in lib.others)
  }

  lemma AskedExact(src: nat, spec: string, m: map<Option<int>, nat>, lib: Library, l: LinkRow)
    ensures AsksBySpec(src, spec, m, lib, l) <==> AskedBy(src, spec, m, lib, l)
  {
    hide ParseLink, AllDigits, ParseDigits;
    if ParseLink(spec).Some? {
      SpecExact(spec, ParseLink(spec).value.0, ParseLink(spec).value.1);
    }
    forall d | Spells(spec, l.kind, d) ensures ParseLink(spec) == Some((l.kind, ParseDigits(d))) {
      SpelledLink(spec, l.kind, d);
    }
    KindsAre(l);
    hide LINK_KINDS;
  }

  lemma KindsAre(l: LinkRow)
    ensures l.kind in LINK_KINDS <==> l.kind == "note" || l.kind == "task" || l.kind == "schedule"
  {
  }

  // ------------------------------------------------------------ the note file

  /** A file opens with a rule, its frontmatter ends at the next one, and `tail` follows. */
  predicate Splits(raw: string, front: string, tail: string) {
    && raw == "---\n" + front + "\n---" + tail
    && forall j :: 0 <= j < |front| ==> !OccursAt(front + "\n---" + tail, "\n---", j)
  }

  predicate Follows(tail: string, rest: string) {
    if tail != "" && tail[0] == '\n' then tail == "\n" + rest else rest == tail
  }

  /** A file is a note exactly when it splits so; a line end after the rule is no part of what follows. */
  lemma FrontmatterIs(raw: string, front: string, rest: string)
    ensures MatchFrontmatter(raw) == Some((front, rest)) <==>
            exists tail :: Splits(raw, front, tail) && Follows(tail, rest)
  {
    if MatchFrontmatter(raw) == Some((front, rest)) {
      MatchSplits(raw);
    }
    forall tail | Splits(raw, front, tail) && Follows(tail, rest)
      ensures MatchFrontmatter(raw) == Some((front, rest))
    {
      SplitMatches(raw, front, tail, rest);
    }
  }

  lemma OccursLater(a: string, s: string, p: string, j: int)
    requires j >= 0
    ensures OccursAt(a + s, p, |a| + j) <==> OccursAt(s, p, j)
  {
    if j + |p| <= |s| {
      assert (a + s)[|a| + j..|a| + j + |p|] == s[j..j + |p|];
    }
  }

  lemma MatchSplits(raw: string)
    requires MatchFrontmatter(raw).Some?
    ensures var (front, rest) := MatchFrontmatter(raw).value;
            exists tail :: Splits(raw, front, tail) && Follows(tail, rest)
  {
    hide OccursAt;
    var (front, rest) := MatchFrontmatter(raw).value;
    var i := Find(raw, "\n---", 4);
    RuleAt(raw, i);
    var s, tail := raw[4..], raw[i + 4..];
    assert raw == "---\n" + s;
    assert s == front + "\n---" + tail;
    forall j | 0 <= j < |front| ensures !OccursAt(s, "\n---", j) {
      OccursLater("---\n", s, "\n---", j);
    }
    assert Splits(raw, front, tail);
  }

  lemma RuleAt(raw: string, i: int)
    requires i >= 4 && OccursAt(raw, "\n---", i)
    ensures i + 4 <= |raw| && raw == raw[..4] + raw[4..i] + "\n---" + raw[i + 4..]
  {
  }

  lemma SplitMatches(raw: string, front: string, tail: string, rest: string)
    requires Splits(raw, front, tail) && Follows(tail, rest)
    ensures MatchFrontmatter(raw) == Some((front, rest))
  {
    hide Find;
    RuleFound(raw, front, tail);
    var i := 4 + |front|;
    assert raw[..4] == "---\n" && raw[4..i] == front && raw[i + 4..] == tail;
    assert raw[if i + 4 < |raw| && raw[i + 4] == '\n' then i + 5 else i + 4..] == rest;
  }

  lemma RuleFound(raw: string, front: string, tail: string)
    requires Splits(raw, front, tail)
    ensures Find(raw, "\n---", 4) == 4 + |front|
  {
    var s := front + "\n---" + tail;
    assert raw == "---\n" + s;
    assert s[|front|..|front| + 4] == "\n---";
    var i := Find(raw, "\n---", 4);
    OccursLater("---\n", s, "\n---", |front|);
    if 4 <= i < 4 + |front| {
      OccursLater("---\n", s, "\n---", i - 4);
    }
  }

  /** A heading of a Thought is `### `, its stamp, which has no white space in it, and white space. */
  predicate Heads(line: string, stamp: string, pad: string) {
    && line == "### " + stamp + pad && stamp != ""
    && (forall i :: 0 <= i < |stamp| ==> !IsSpace(stamp[i])) && Blank(pad)
  }

  lemma HeadingExact(line: string, stamp: string)
    ensures HeadStamp(line) == Some(stamp) <==> exists pad :: Heads(line, stamp, pad)
  {
    hide IsSpace;
    if HeadStamp(line) == Some(stamp) {
      var rest := line[4..];
      var pad := rest[|stamp|..];
      assert forall i :: |stamp| <= i < |rest| ==> Spaces.Has(rest[i]);
      assert line == "### " + rest && rest == stamp + pad;
      assert Heads(line, stamp, pad);
    }
    forall pad | Heads(line, stamp, pad) ensures HeadStamp(line) == Some(stamp) {
      assert line == "### " + (stamp + pad);
      assert line[..4] == "### " && line[4..] == stamp + pad;
      assert forall i :: 0 <= i < |pad| ==> Spaces.Has(pad[i]);
      StripRightPadding(stamp, pad, Spaces);
      assert StripRight(stamp, Spaces) == stamp;
    }
  }
}
