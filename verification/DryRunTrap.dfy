// A dump on which the dry run of the importer and the real run part.

module DryRunTrap {
  import opened Text
  import opened NoteLibrary
  import opened Classify
  import opened ImportPlan
  import opened Importer
  import opened ImportTwice
  import opened DryRun

  const KEEPER := Rec("focus", "a", "T", "b", "", "note", "", "x", "", [], [], [])
  /** Identical to the keeper but for its name and domain, so a duplicate of it. */
  const COPY := Rec("focus", "ab", "T", "b", "", "note", "", "y", "", [], [], [])
  /** Filed in the domain of the copy, so it mirrors the copy. */
  const MIRROR := Rec("focus", "m", "T", "c", "", "task", "s", "y", "", [], [], [])
  const TRAP := [KEEPER, COPY, MIRROR]

  lemma OneLetter(c: char)
    requires 'a' <= c <= 'z'
    ensures Normalize([c]) == [c]
  {
    assert [c][1..] == "";
    assert c != BYTE_ORDER_MARK && !IsSpace(c);
    assert "" + [c] == [c];
    assert Words([c], "") == Words("", [c]);
  }

  lemma Digests()
    ensures KEEPER.Sha() == COPY.Sha() && KEEPER.Sha() != MIRROR.Sha()
  {
    OneLetter('b');
    OneLetter('c');
    hide Normalize;
  }

  lemma Candidates()
    ensures KEEPER.Candidate() && COPY.Candidate() && MIRROR.Candidate()
  {
    OneLetter('b');
    OneLetter('c');
    hide Normalize;
  }

  /** Folding changes nothing about a text of small letters. */
  lemma FoldSmall(s: string)
    requires forall i :: 0 <= i < |s| ==> 'a' <= s[i] <= 'z'
    ensures Fold(s) == s
  {
    StripOfTrimmed(s, Spaces);
  }

  lemma Kinds()
    ensures IsNote(KEEPER) && IsNote(COPY) && IsMirror(MIRROR) && !IsMirror(KEEPER) && !IsMirror(COPY)
        && !IsNote(MIRROR)
  {
    hide Fold;
    FoldSmall("note");
    FoldSmall("task");
    assert "s"[0] == 's';
  }

  lemma Domains()
    ensures !SameDomain(KEEPER, MIRROR) && SameDomain(COPY, MIRROR)
  {
    hide Fold;
    FoldSmall("x");
    FoldSmall("y");
  }

  lemma Target()
    ensures TargetOf(TRAP, 2) == Some(COPY) && TargetOf(TRAP, 0) == None && TargetOf(TRAP, 1) == None
  {
    hide SameDomain, IsNote, IsMirror, PairKey;
    Kinds();
    Domains();
    assert TargetBelow(TRAP, MIRROR, 0) == -1;
    assert TargetBelow(TRAP, MIRROR, 1) == 0;
    assert TargetBelow(TRAP, MIRROR, 2) == 1;
    assert TargetBelow(TRAP, MIRROR, 3) == 1;
  }

  lemma Decisions()
    ensures Survivor(TRAP, 0) && !Survivor(TRAP, 1) && Survivor(TRAP, 2)
  {
    Digests();
    Candidates();
    hide Rec.Sha, Rec.Candidate, IsArchivePath;
    assert CountSlashes("a") == 0 && CountSlashes("ab") == 0;
    assert StringLess("a", "ab");
    assert RankLess(KEEPER, COPY) by { NotArchived(); }
    assert Beats(TRAP, 0, 1);
    BeatsTotal(TRAP, 0, 1);
  }

  lemma NotArchived()
    ensures !IsArchivePath(KEEPER) && !IsArchivePath(COPY)
  {
  }

  lemma Names()
    ensures DistinctIdents(TRAP)
  {
    assert |"a"| == 1 && |"ab"| == 2 && "a"[0] == 'a' && "m"[0] == 'm';
  }

  lemma FiledInInbox(r: Rec)
    requires r.status == ""
    ensures OwnFiling(r, Librarian, map[]) == Filing("inbox", None)
  {
    hide Fold;
    FoldSmall("");
    assert |""| == 0 && |"done"| == 4;
  }

  lemma NoFiller(t: string)
    requires t == "T"
    ensures !AllFiller(t)
  {
    assert !IsFiller(t[0]);
  }

  lemma Uncut(t: string)
    requires |t| <= 300
    ensures Cut(t, 300) == t
  {
  }

  lemma TitleOk(body: string, source: string)
    ensures CleanTitle("T", body, source) == "T"
  {
    hide Strip, TitleFrom, SplitLines, Cut, AllFiller;
    StripOfTrimmed("T", Spaces);
    NoFiller("T");
    Uncut("T");
  }

  /** A unit of this dump is accepted when it is filed in the inbox. */
  lemma RowAccepted(r: Rec)
    requires r.title == "T" && r.topics == []
    ensures Creatable(RowOf(r, Filing("inbox", None)))
  {
    hide CleanTitle, Rec.Sha;
    TitleOk(r.body, r.source);
    assert !IsSpace("T"[0]);
    assert |"inbox"| == 5 && |"active"| == 6;
  }

  lemma Librarians()
    ensures DecisionOf(TRAP, 0) == Librarian && DecisionOf(TRAP, 2) == Librarian
    ensures DecisionOf(TRAP, 1) == Duplicate
  {
    hide Survivor, Normalize;
    Decisions();
    Candidates();
    assert |"focus"| == 5 && |"keep"| == 4 && |"obsidian"| == 8;
  }

  /** The keeper is created, the copy skipped, the mirror appended to the copy. */
  lemma PlansAre()
    ensures var ps, inbox := PlanAll(TRAP, map[]), Filing("inbox", None);
            ps == [Plan(KEEPER, Create(inbox)), Plan(COPY, Skip), Plan(MIRROR, Append(COPY, inbox))]
  {
    hide PlanAll, TargetOf, DecisionOf, OwnFiling, DistinctIdents;
    Names();
    Librarians();
    Target();
    FiledInInbox(KEEPER);
    FiledInInbox(MIRROR);
    PlanAllAt(TRAP, map[], 0);
    PlanAllAt(TRAP, map[], 1);
    PlanAllAt(TRAP, map[], 2);
  }

  lemma TrapIsSet(ps: seq<Plan>)
    requires ps == [Plan(KEEPER, Create(Filing("inbox", None))), Plan(COPY, Skip),
                    Plan(MIRROR, Append(COPY, Filing("inbox", None)))]
    ensures Diverges([], ps, 2)
  {
    hide Rec.Sha, SharedAt;
    Digests();
    Names();
    assert ps[0].action.Create? && ps[0].rec.Sha() == COPY.Sha();
  }

  lemma TrapAccepted(ps: seq<Plan>)
    requires ps == [Plan(KEEPER, Create(Filing("inbox", None))), Plan(COPY, Skip),
                    Plan(MIRROR, Append(COPY, Filing("inbox", None)))]
    ensures AllAccepted(ps)
  {
    hide Creatable, RowOf;
    RowAccepted(KEEPER);
    RowAccepted(MIRROR);
    assert !IsSpace("c"[0]);
  }

  /** Importing this dump into an empty library, the preview files the mirror as a note and the real run does not. */
  lemma DryRunMisleads()
    ensures ImportOf([], TRAP, map[], true, None).res != ImportOf([], TRAP, map[], false, None).res
  {
    hide PlanAll, ImportOf, AllAccepted, Diverges, DistinctIdents;
    PlansAre();
    var ps := PlanAll(TRAP, map[]);
    Names();
    TrapIsSet(ps);
    TrapAccepted(ps);
    DryRunAgrees([], TRAP, map[], None);
  }
}
