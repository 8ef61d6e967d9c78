// backend/notes_import.py: what the importer's rules say of a unit in terms of
// its text, its path and the units beside it.

module ImportRules {
  import opened Text
  import opened NoteLibrary
  import opened Classify
  import opened ImportPlan
  import opened Importer
  import opened ImportTwice

  // --------------------------------------------------------------- path order

  /** Up to `k` the strings agree; there `a` ends first or has the lesser character. */
  predicate LessAt(a: string, b: string, k: int) {
    && 0 <= k <= |a| && k < |b| && a[..k] == b[..k]
    && (k == |a| || a[k] < b[k])
  }

  lemma {:induction false} StringLessExact(a: string, b: string)
    ensures StringLess(a, b) <==> exists k :: LessAt(a, b, k)
  {
    if a == "" || b == "" {
      assert b != "" ==> LessAt(a, b, 0);
    } else if a[0] != b[0] {
      assert a[0] < b[0] ==> LessAt(a, b, 0);
      forall k | LessAt(a, b, k) ensures k == 0 {
        if k > 0 { FirstsAgree(a, b, k); }
      }
    } else {
      StringLessExact(a[1..], b[1..]);
      if k :| LessAt(a, b, k) {
        LessAtNext(a, b, k - 1);
      }
      if k :| LessAt(a[1..], b[1..], k) {
        LessAtNext(a, b, k);
      }
    }
  }

  lemma FirstsAgree(a: string, b: string, k: int)
    requires LessAt(a, b, k) && k > 0
    ensures a[0] == b[0]
  {
    assert a[0] == a[..k][0] && b[0] == b[..k][0];
  }

  lemma LessAtNext(a: string, b: string, k: int)
    requires a != "" && b != "" && a[0] == b[0] && k >= -1
    ensures LessAt(a[1..], b[1..], k) <==> k >= 0 && LessAt(a, b, k + 1)
    ensures k == -1 ==> !LessAt(a, b, k + 1)
  {
    if k >= 0 && k + 1 <= |a| && k + 1 <= |b| {
      assert a[..k + 1] == [a[0]] + a[1..][..k] && b[..k + 1] == [b[0]] + b[1..][..k];
      assert a[..k + 1] == b[..k + 1] ==> a[1..][..k] == a[..k + 1][1..];
    }
  }

  function Slashes(s: string): set<nat> {
    set i: nat | i < |s| && s[i] == '/'
  }

  lemma {:induction false} SlashesExact(s: string)
    ensures CountSlashes(s) == |Slashes(s)|
  {
    if s == "" {
      assert Slashes(s) == {};
    } else {
      SlashesExact(s[1..]);
      var shifted := set i | i in Slashes(s[1..]) :: i + 1;
      ShiftedSize(Slashes(s[1..]), shifted);
      forall i | i in Slashes(s) && i > 0 ensures i in shifted {
        assert i - 1 in Slashes(s[1..]);
      }
      assert Slashes(s) == (if s[0] == '/' then {0} else {}) + shifted;
    }
  }

  lemma {:induction false} ShiftedSize(a: set<nat>, b: set<nat>)
    requires b == set i | i in a :: i + 1
    ensures |a| == |b|
  {
    if a != {} {
      var x :| x in a;
      var c := a - {x};
      var d := set i | i in c :: i + 1;
      ShiftedSize(c, d);
      forall y | y in b && y != x + 1 ensures y in d {
        assert y - 1 in c;
      }
      assert b == d + {x + 1};
    } else {
      assert b == {};
    }
  }

  /** Within `obsidian/Archive/`, or `obsidian/Archive <number>/`. */
  ghost predicate InArchive(r: Rec) {
    r.source == "obsidian" && exists rest :: r.ident == "obsidian/Archive" + rest && Opens(rest)
  }

  ghost predicate Opens(rest: string) {
    (exists t :: rest == "/" + t) || exists d, t :: d != "" && AllDigits(d) && rest == " " + d + "/" + t
  }

  lemma {:induction false} DigitsLengthOf(d: string, rest: string)
    requires AllDigits(d)
    ensures DigitsLength(d + "/" + rest) == |d|
  {
    var s := d + "/" + rest;
    if d != "" {
      assert s[1..] == d[1..] + "/" + rest;
      DigitsLengthOf(d[1..], rest);
    }
  }

  lemma {:induction false} DigitsAre(s: string)
    ensures AllDigits(s[..DigitsLength(s)])
  {
    if s != "" && IsDigit(s[0]) {
      DigitsAre(s[1..]);
      assert s[..DigitsLength(s)] == [s[0]] + s[1..][..DigitsLength(s[1..])];
    }
  }

  lemma NumberOpens(d: string, t: string)
    requires d != "" && AllDigits(d)
    ensures OpensArchive(" " + d + "/" + t)
  {
    hide DigitsLength;
    var rest, tail := " " + d + "/" + t, d + "/" + t;
    assert rest[1..] == tail;
    DigitsLengthOf(d, t);
    assert rest[1 + |d|..] == "/" + t;
  }

  lemma OpensExact(rest: string)
    ensures OpensArchive(rest) <==> Opens(rest)
  {
    if OpensArchive(rest) {
      if StartsWith(rest, "/") {
        assert rest == "/" + rest[1..];
      } else {
        var n := DigitsLength(rest[1..]);
        DigitsAre(rest[1..]);
        assert rest == " " + rest[1..][..n] + "/" + rest[1 + n..][1..];
      }
    }
    hide DigitsLength;
    forall d, t | d != "" && AllDigits(d) && rest == " " + d + "/" + t ensures OpensArchive(rest) {
      NumberOpens(d, t);
    }
  }

  lemma ArchiveExact(r: Rec)
    ensures IsArchivePath(r) <==> InArchive(r)
  {
    hide OpensArchive, Opens;
    var root := "obsidian/Archive";
    if StartsWith(r.ident, root) {
      assert r.ident == root + r.ident[16..];
      OpensExact(r.ident[16..]);
    }
    forall rest | r.ident == root + rest ensures StartsWith(r.ident, root) && r.ident[16..] == rest {
    }
  }

  /** Live before archived, shallow before deep, then in the order of the paths. */
  ghost predicate Precedes(a: Rec, b: Rec) {
    if InArchive(a) != InArchive(b) then InArchive(b)
    else if |Slashes(a.ident)| != |Slashes(b.ident)| then |Slashes(a.ident)| < |Slashes(b.ident)|
    else exists k :: LessAt(a.ident, b.ident, k)
  }

  lemma RankExact(a: Rec, b: Rec)
    ensures RankLess(a, b) <==> Precedes(a, b)
  {
    hide IsArchivePath, InArchive, CountSlashes, Slashes, StringLess, LessAt;
    ArchiveExact(a);
    ArchiveExact(b);
    SlashesExact(a.ident);
    SlashesExact(b.ident);
    StringLessExact(a.ident, b.ident);
  }

  // ---------------------------------------------------------------- decisions

  /** Nothing but white space and byte-order marks. */
  predicate Wordless(s: string) {
    forall i :: 0 <= i < |s| ==> IsSpace(s[i]) || s[i] == '\U{feff}'
  }

  lemma {:induction false} WordsExact(s: string, word: string)
    ensures Words(s, word) == [] <==> Wordless(s) && word == ""
    ensures forall k :: 0 <= k < |Words(s, word)| ==> Words(s, word)[k] != ""
  {
    if s != "" {
      WordsExact(s[1..], if s[0] == BYTE_ORDER_MARK then word else if IsSpace(s[0]) then "" else word + [s[0]]);
      assert Wordless(s) ==> Wordless(s[1..]);
      assert forall i :: 1 <= i < |s| ==> s[i] == s[1..][i - 1];
    }
  }

  lemma EmptyExact(s: string)
    ensures Normalize(s) == "" <==> Wordless(s)
  {
    WordsExact(s, "");
    hide Words, Wordless;
    assert Words(s, "") != [] ==> Words(s, "")[0] != "";
  }

  /** No secret in it, and something to keep. */
  predicate CanKeep(r: Rec) {
    r.hits == [] && (!Wordless(r.body) || r.attached != [])
  }

  /** One record of one source: its id, and the words of its title and body, and its attachments. */
  predicate SameThing(a: Rec, b: Rec) {
    && a.sourceId == b.sourceId && a.attached == b.attached
    && Normalize(a.title) == Normalize(b.title) && Normalize(a.body) == Normalize(b.body)
  }

  /** The same thing is kept from a better place, or was read earlier from one as good. */
  ghost predicate OutdoneBy(rs: seq<Rec>, i: int, j: int)
    requires 0 <= i < |rs| && 0 <= j < |rs|
  {
    && CanKeep(rs[j]) && SameThing(rs[i], rs[j])
    && (Precedes(rs[j], rs[i]) || (!Precedes(rs[i], rs[j]) && j < i))
  }

  /** To be kept, and nothing outdoes it. */
  ghost predicate Stays(rs: seq<Rec>, i: int)
    requires 0 <= i < |rs|
  {
    CanKeep(rs[i]) && forall j :: 0 <= j < |rs| && j != i ==> !OutdoneBy(rs, i, j)
  }

  lemma CandidateExact(r: Rec)
    ensures r.Candidate() <==> CanKeep(r)
    ensures r.Held() <==> r.hits != []
    ensures r.IsEmpty() <==> Wordless(r.body) && r.attached == []
  {
    hide Normalize, Wordless;
    EmptyExact(r.body);
  }

  lemma OutdoneExact(rs: seq<Rec>, i: int, j: int)
    requires 0 <= i < |rs| && 0 <= j < |rs| && i != j
    ensures OutdoneBy(rs, i, j) <==> rs[j].Candidate() && rs[j].Sha() == rs[i].Sha() && !Beats(rs, i, j)
  {
    hide RankLess, Precedes, CanKeep, Normalize, Rec.Candidate;
    CandidateExact(rs[j]);
    RankExact(rs[i], rs[j]);
    RankExact(rs[j], rs[i]);
    RankAsymmetric(rs[i], rs[j]);
  }

  lemma StaysExact(rs: seq<Rec>, i: int)
    requires 0 <= i < |rs|
    ensures Survivor(rs, i) <==> Stays(rs, i)
  {
    hide Rec.Candidate, Rec.Sha, CanKeep, OutdoneBy, Beats;
    CandidateExact(rs[i]);
    forall j | 0 <= j < |rs| && j != i
      ensures OutdoneBy(rs, i, j) <==> rs[j].Candidate() && rs[j].Sha() == rs[i].Sha() && !Beats(rs, i, j)
    {
      OutdoneExact(rs, i, j);
    }
  }

  /** What stands after the last slash of the path. */
  predicate NameIn(path: string, name: string) {
    && |name| <= |path| && path[|path| - |name|..] == name
    && (forall i :: 0 <= i < |name| ==> name[i] != '/')
    && (|name| == |path| || path[|path| - |name| - 1] == '/')
  }

  lemma NameInRest(s: string, t: string)
    requires HasSlash(s)
    ensures NameIn(s, t) <==> NameIn(s[1..], t)
  {
    var i :| 0 <= i < |s| && s[i] == '/';
    hide HasSlash;
    var rest := s[1..];
    assert i > 0 ==> rest[i - 1] == '/';
    if |t| < |s| {
      assert s[|s| - |t|..] == rest[|rest| - |t|..];
    } else {
      assert s[0..] == s;
      assert t == s ==> t[i] == '/';
    }
  }

  lemma {:induction false} BasenameExact(s: string)
    ensures NameIn(s, Basename(s)) && forall t :: NameIn(s, t) ==> t == Basename(s)
  {
    if HasSlash(s) {
      BasenameExact(s[1..]);
      hide NameIn;
      forall t ensures NameIn(s, t) <==> NameIn(s[1..], t) {
        NameInRest(s, t);
      }
    } else {
      assert s[|s| - |s|..] == s;
    }
  }

  /** An archived file whose name a live file that stays has as well. */
  ghost predicate Draft(rs: seq<Rec>, i: int)
    requires 0 <= i < |rs|
  {
    InArchive(rs[i]) && exists j, name :: 0 <= j < |rs| && Stays(rs, j) && NamesLive(rs[j], rs[i], name)
  }

  ghost predicate NamesLive(live: Rec, draft: Rec, name: string) {
    live.source == "obsidian" && !InArchive(live) && NameIn(live.ident, name) && NameIn(draft.ident, name)
  }

  lemma DraftExact(rs: seq<Rec>, i: int)
    requires 0 <= i < |rs|
    ensures Superseded(rs, i) <==> Draft(rs, i)
  {
    hide IsArchivePath, InArchive, Survivor, Stays, Basename, NameIn;
    ArchiveExact(rs[i]);
    BasenameExact(rs[i].ident);
    forall j | 0 <= j < |rs|
      ensures Live(rs, j) <==> rs[j].source == "obsidian" && !InArchive(rs[j]) && Stays(rs, j)
    {
      ArchiveExact(rs[j]);
      StaysExact(rs, j);
    }
    hide Live;
    forall j | 0 <= j < |rs| && Live(rs, j)
      ensures Basename(rs[j].ident) == Basename(rs[i].ident) <==> exists name :: NamesLive(rs[j], rs[i], name)
    {
      BasenameExact(rs[j].ident);
      if Basename(rs[j].ident) == Basename(rs[i].ident) {
        assert NamesLive(rs[j], rs[i], Basename(rs[j].ident));
      }
    }
  }

  /** One link and no white space in it. */
  predicate BareLink(l: string) {
    && (forall i :: 0 <= i < |l| ==> !IsSpace(l[i]))
    && ((|l| > 7 && l[..7] == "http://") || (|l| > 8 && l[..8] == "https://") || (|l| > 4 && l[..4] == "www."))
  }

  lemma {:induction false} DropNonSpaceExact(s: string)
    ensures DropNonSpace(s) == "" <==> forall i :: 0 <= i < |s| ==> !IsSpace(s[i])
  {
    if s != "" && !IsSpace(s[0]) {
      DropNonSpaceExact(s[1..]);
      assert forall i :: 1 <= i < |s| ==> s[i] == s[1..][i - 1];
    }
  }

  lemma LinkExact(l: string)
    ensures IsUrlLine(l) <==> BareLink(l)
  {
    SchemesDiffer(l);
    hide DropNonSpace;
    if StartsWith(l, "http://") {
      SchemeExact(l, "http://");
    } else if StartsWith(l, "https://") {
      SchemeExact(l, "https://");
    } else if StartsWith(l, "www.") {
      SchemeExact(l, "www.");
    }
  }

  lemma SchemesDiffer(l: string)
    ensures !(StartsWith(l, "http://") && StartsWith(l, "https://"))
    ensures !(StartsWith(l, "http://") && StartsWith(l, "www."))
    ensures !(StartsWith(l, "https://") && StartsWith(l, "www."))
  {
    if StartsWith(l, "http://") {
      assert l[..7][4] == ':' && l[..7][0] == 'h';
    }
    if StartsWith(l, "https://") {
      assert l[..8][4] == 's' && l[..8][0] == 'h';
    }
    if StartsWith(l, "www.") {
      assert l[..4][0] == 'w';
    }
  }

  predicate NoSpace(s: string) {
    forall i :: 0 <= i < |s| ==> !IsSpace(s[i])
  }

  lemma SchemeExact(l: string, p: string)
    requires NoSpace(p) && |p| <= |l| && l[..|p|] == p
    ensures (l[|p|..] != "" && DropNonSpace(l[|p|..]) == "") <==> |l| > |p| && NoSpace(l)
  {
    DropNonSpaceExact(l[|p|..]);
    assert l == p + l[|p|..];
  }

  /** A Keep fragment of at most forty characters, or of bare links only. */
  predicate TooBare(r: Rec) {
    && r.source == "keep"
    && (|Normalize(r.body)| <= 40 || (!Blank(r.body) && OnlyLinks(SplitLines(Strip(r.body, Spaces)))))
  }

  predicate OnlyLinks(lines: seq<string>) {
    forall i :: 0 <= i < |lines| ==> Blank(lines[i]) || BareLink(Strip(lines[i], Spaces))
  }

  lemma TooBareExact(r: Rec)
    ensures KeepAutoArchives(r) <==> TooBare(r)
  {
    hide Normalize, SplitLines, IsUrlLine, BareLink, Strip, Blank;
    StripEmptyIffBlank(r.body);
    var lines := SplitLines(Strip(r.body, Spaces));
    forall i | 0 <= i < |lines|
      ensures Strip(lines[i], Spaces) == "" <==> Blank(lines[i])
      ensures IsUrlLine(Strip(lines[i], Spaces)) <==> BareLink(Strip(lines[i], Spaces))
    {
      StripEmptyIffBlank(lines[i]);
      LinkExact(Strip(lines[i], Spaces));
    }
  }

  /** Every decision, told from the texts and paths of the units alone. */
  lemma DecisionMeans(rs: seq<Rec>, i: int)
    requires 0 <= i < |rs|
    ensures DecisionOf(rs, i) == Quarantine <==> rs[i].hits != []
    ensures DecisionOf(rs, i) == Empty <==> rs[i].hits == [] && Wordless(rs[i].body) && rs[i].attached == []
    ensures DecisionOf(rs, i) == Duplicate <==>
            CanKeep(rs[i]) && exists j :: 0 <= j < |rs| && j != i && OutdoneBy(rs, i, j)
    ensures DecisionOf(rs, i) == AutoArchive <==> Stays(rs, i) && (Draft(rs, i) || TooBare(rs[i]))
    ensures DecisionOf(rs, i) == Librarian <==> Stays(rs, i) && !Draft(rs, i) && !TooBare(rs[i])
  {
    hide Survivor, Superseded, Draft, KeepAutoArchives, TooBare, Wordless, OutdoneBy;
    CandidateExact(rs[i]);
    StaysExact(rs, i);
    DraftExact(rs, i);
    TooBareExact(rs[i]);
    hide Rec.Held, Rec.IsEmpty;
    SurvivorKeeps(rs, i);
  }

  lemma SurvivorKeeps(rs: seq<Rec>, i: int)
    requires 0 <= i < |rs|
    ensures Survivor(rs, i) ==> !rs[i].Held() && !rs[i].IsEmpty()
  {
    hide Beats, Rec.Held, Rec.IsEmpty, Rec.Sha;
  }

  /** A copy in the archive gives way to the live one, a deep copy to a shallow one beside it. */
  lemma BetterPlaceIsKept(rs: seq<Rec>, i: int, j: int)
    requires 0 <= i < |rs| && 0 <= j < |rs| && CanKeep(rs[i]) && CanKeep(rs[j]) && SameThing(rs[i], rs[j])
    requires || (InArchive(rs[i]) && !InArchive(rs[j]))
             || (InArchive(rs[i]) == InArchive(rs[j]) && |Slashes(rs[j].ident)| < |Slashes(rs[i].ident)|)
    ensures DecisionOf(rs, i) == Duplicate
  {
    hide CanKeep, SameThing, InArchive, DecisionOf, Draft, TooBare, Stays;
    assert OutdoneBy(rs, i, j);
    DecisionMeans(rs, i);
  }

  // ------------------------------------------------------------------- filing

  /** Filed as the rules say: what needs no reader is archived; focus knows what is done and where it goes. */
  predicate Filed(status: string, area: Option<nat>, r: Rec, bare: bool, areas: map<string, nat>) {
    var place := Fold(r.domain);
    if bare then status == "archived" && area == None
    else
      && (if place in areas then area == Some(areas[place]) else area == None)
      && (if r.source != "focus" then status == "inbox"
          else if Fold(r.status) == "done" then status == "archived"
          else if place in areas then status == "active" else status == "inbox")
  }

  lemma FilingMeans(r: Rec, d: Decision, areas: map<string, nat>)
    ensures var f := OwnFiling(r, d, areas); Filed(f.status, f.area, r, d == AutoArchive, areas)
  {
    hide Fold;
  }

  /** A note of the same dump and the same title, whatever its case and spacing. */
  predicate SameTitle(c: Rec, r: Rec) {
    && Fold(c.kind) == "note" && c.source == r.source
    && Lower(Normalize(c.title)) == Lower(Normalize(r.title))
  }

  /** The note of that title a mirror goes to: of its own domain if there is one, and the first by path. */
  ghost predicate Fits(rs: seq<Rec>, r: Rec, t: Rec) {
    t in rs && SameTitle(t, r) && forall c :: c in rs && SameTitle(c, r) ==> AsGood(r, t, c)
  }

  ghost predicate AsGood(r: Rec, t: Rec, c: Rec) {
    if Fold(t.domain) == Fold(r.domain) && Fold(c.domain) != Fold(r.domain) then true
    else (Fold(c.domain) == Fold(r.domain) ==> Fold(t.domain) == Fold(r.domain)) &&
         !exists k :: LessAt(c.ident, t.ident, k)
  }

  lemma AsGoodExact(r: Rec, t: Rec, c: Rec)
    ensures AsGood(r, t, c) <==> !Prefers(r, c, t)
  {
    hide Fold, StringLess, LessAt;
    StringLessExact(c.ident, t.ident);
  }

  /** A task made from something goes to the note of its title that fits; nothing else has a target. */
  lemma TargetMeans(rs: seq<Rec>, i: nat)
    requires i < |rs|
    ensures TargetOf(rs, i).Some? <==>
            Fold(rs[i].kind) == "task" && !Blank(rs[i].mirrors) && exists c :: c in rs && SameTitle(c, rs[i])
    ensures TargetOf(rs, i).Some? ==> Fits(rs, rs[i], TargetOf(rs, i).value)
  {
    hide Fold, Lower, Normalize, Prefers, LessAt, Blank;
    var r, t := rs[i], TargetBelow(rs, rs[i], |rs|);
    forall j: nat | j < |rs| ensures Claims(rs[j], r) <==> SameTitle(rs[j], r) {
      ClaimsExact(rs[j], r);
    }
    hide Claims, SameTitle, TargetBelow, AsGood;
    if t >= 0 {
      TargetClaims(rs, r, |rs|);
    }
    forall j: nat | j < |rs| && Claims(rs[j], r) ensures t >= 0 && !Prefers(r, rs[j], rs[t]) {
      TargetIsBest(rs, r, |rs|, j);
    }
    if t >= 0 {
      forall c | c in rs && SameTitle(c, r) ensures AsGood(r, rs[t], c) {
        AsGoodExact(r, rs[t], c);
      }
    }
  }

  lemma ClaimsExact(c: Rec, r: Rec)
    ensures Claims(c, r) <==> SameTitle(c, r)
  {
    hide Fold, Lower, Normalize;
  }

  /** The note of a unit that stays, holding what the unit holds and filed as the rules say. */
  ghost predicate NoteOfUnit(row: Row, rs: seq<Rec>, i: int, areas: map<string, nat>)
    requires 0 <= i < |rs|
  {
    && Stays(rs, i) && HoldsUnit(row, rs[i])
    && Filed(row.status, row.area, rs[i], Draft(rs, i) || TooBare(rs[i]), areas)
  }

  /** Whatever goes wrong, every note an import makes is that of a unit that stays, filed by the rules. */
  lemma NewNotesAreRight(
      notes: seq<Row>, rs: seq<Rec>, areas: map<string, nat>, dry: bool, limit: Option<int>, j: nat)
    requires DistinctIdents(rs) && |notes| <= j < |ImportOf(notes, rs, areas, dry, limit).notes|
    ensures exists i :: 0 <= i < |rs| && NoteOfUnit(ImportOf(notes, rs, areas, dry, limit).notes[j], rs, i, areas)
  {
    hide ImportOf, HoldsUnit, DecisionOf, Stays, Draft, TooBare, Filed, PlanAll;
    var row, ps := ImportOf(notes, rs, areas, dry, limit).notes[j], PlanAll(rs, areas);
    NewNotesHoldTheirUnits(notes, rs, areas, dry, limit);
    assert MadeFromSome(row, ps);
    var i :| 0 <= i < |ps| && MadeFrom(row, ps[i]);
    PlanAllAt(rs, areas, i);
    FilingMeans(rs[i], DecisionOf(rs, i), areas);
    DecisionMeans(rs, i);
    hide OwnFiling, TargetOf;
    assert NoteOfUnit(row, rs, i, areas);
  }
}
