// core/worktree_gc.py: the sweep itself: archive, repoint, remove.

module ReaperSweep {
  import opened Text
  import opened Classify
  import opened Reaper

  // ------------------------------------------------------------------ the archive

  /** A path git prints as it is; any other is printed in quotes. */
  predicate Plain(path: string) {
    forall i :: 0 <= i < |path| ==> '!' <= path[i] <= '~' && path[i] != '\"' && path[i] != '\\'
  }

  /** How `git status` prints an untracked path (escapes inside the quotes apart). */
  function Printed(path: string): string {
    if Plain(path) then path else "\"" + path + "\""
  }

  function PrintAll(paths: seq<string>): (r: seq<string>)
    ensures |r| == |paths| && forall i :: 0 <= i < |paths| ==> r[i] == Printed(paths[i])
  {
    seq(|paths|, i requires 0 <= i < |paths| => Printed(paths[i]))
  }

  /** The untracked paths of a tree, as read from what git prints; none when git fails. */
  function Reported(t: Tree): seq<string> {
    if t.readable then PrintAll(t.untracked) else []
  }

  function PairUp(t: Tree, rels: seq<string>): (r: seq<(Tree, string)>)
    ensures |r| == |rels| && forall i :: 0 <= i < |rels| ==> r[i] == (t, rels[i])
  {
    seq(|rels|, i requires 0 <= i < |rels| => (t, rels[i]))
  }

  /** Every reported path of every row. */
  function Listed(rows: seq<Tree>): seq<(Tree, string)> {
    if rows == [] then []
    else Listed(rows[..|rows| - 1]) + PairUp(rows[|rows| - 1], Reported(rows[|rows| - 1]))
  }

  lemma {:induction false} ListedExact(rows: seq<Tree>, t: Tree, rel: string)
    ensures (t, rel) in Listed(rows) <==> t in rows && rel in Reported(t)
  {
    hide Reported;
    if rows != [] {
      var n := |rows| - 1;
      ListedExact(rows[..n], t, rel);
      assert rows == rows[..n] + [rows[n]];
      if t == rows[n] && rel in Reported(t) {
        var i :| 0 <= i < |Reported(t)| && Reported(t)[i] == rel;
        assert PairUp(t, Reported(t))[i] == (t, rel);
      }
    }
  }

  datatype Item = Item(name: string, content: string)

  predicate Archived(archive: seq<Item>, content: string) {
    exists i :: 0 <= i < |archive| && archive[i].content == content
  }

  /** One listed path: a regular file whose content is not in the archive yet is added. */
  function AddFile(archive: seq<Item>, file: (Tree, string)): seq<Item> {
    var (t, rel) := file;
    if rel in t.files && !Archived(archive, t.files[rel]) then archive + [Item(t.name + "/" + rel, t.files[rel])]
        else archive
  }

  function ArchiveOf(files: seq<(Tree, string)>): seq<Item> {
    if files == [] then [] else AddFile(ArchiveOf(files[..|files| - 1]), files[|files| - 1])
  }

  /** The archive holds exactly the contents of the listed regular files, each once. */
  lemma {:induction false} ArchiveExact(files: seq<(Tree, string)>, c: string)
    ensures Archived(ArchiveOf(files), c) <==> exists f :: f in files && f.1 in f.0.files && f.0.files[f.1] == c
    ensures forall i, j :: 0 <= i < j < |ArchiveOf(files)| ==>
        ArchiveOf(files)[i].content != ArchiveOf(files)[j].content
  {
    if files != [] {
      var n := |files| - 1;
      var before, f := ArchiveOf(files[..n]), files[n];
      ArchiveExact(files[..n], c);
      assert files == files[..n] + [f];
      hide ArchiveOf;
      HoldsNext(before, f, c);
    }
  }

  lemma HoldsNext(archive: seq<Item>, f: (Tree, string), c: string)
    ensures Archived(AddFile(archive, f), c) <==> Archived(archive, c) || (f.1 in f.0.files && f.0.files[f.1] == c)
  {
    var after := AddFile(archive, f);
    if Archived(archive, c) {
      var i :| 0 <= i < |archive| && archive[i].content == c;
      assert after[i].content == c;
    }
    if |after| > |archive| {
      assert after[|archive|].content == f.0.files[f.1];
    }
  }

  method ListFiles(rows: seq<Tree>) returns (files: seq<(Tree, string)>)
    ensures files == Listed(rows)
  {
    hide Reported;
    files := [];
    for n := 0 to |rows|
      invariant files == Listed(rows[..n])
    {
      assert rows[..n + 1][..n] == rows[..n];
      files := files + PairUp(rows[n], Reported(rows[n]));
    }
    assert rows[..|rows|] == rows;
  }

  /** `parachute`: every distinct content of the listed files, before anything is removed. */
  method Parachute(rows: seq<Tree>) returns (archive: seq<Item>)
    ensures archive == ArchiveOf(Listed(rows))
  {
    hide Listed, Archived;
    var files := ListFiles(rows);
    archive := [];
    var seen: set<string> := {};
    NothingHeld();
    for n := 0 to |files|
      invariant archive == ArchiveOf(files[..n])
      invariant forall c :: c in seen <==> Archived(archive, c)
    {
      assert files[..n + 1][..n] == files[..n];
      var (t, rel) := files[n];
      ghost var before := archive;
      if rel in t.files && t.files[rel] !in seen {
        seen := seen + {t.files[rel]};
        archive := archive + [Item(t.name + "/" + rel, t.files[rel])];
      }
      forall c ensures c in seen <==> Archived(archive, c) {
        HoldsNext(before, files[n], c);
      }
    }
    assert files[..|files|] == files;
  }

  lemma NothingHeld()
    ensures forall c :: !Archived([], c)
  {
  }

  /** A regular file with content `c` stands where git prints the path of an untracked file. */
  ghost predicate FoundAsPrinted(rows: seq<Tree>, c: string) {
    exists u, p :: u in rows && u.readable && p in u.untracked && Printed(p) in u.files && u.files[Printed(p)] == c
  }

  /** What is archived of any rows, exactly. */
  lemma SavedExact(rows: seq<Tree>, c: string)
    ensures Archived(ArchiveOf(Listed(rows)), c) <==> FoundAsPrinted(rows, c)
  {
    hide Plain, ArchiveOf, Listed, Archived, Printed;
    ArchiveExact(Listed(rows), c);
    if Archived(ArchiveOf(Listed(rows)), c) {
      var f :| f in Listed(rows) && f.1 in f.0.files && f.0.files[f.1] == c;
      ListedExact(rows, f.0, f.1);
      var i :| 0 <= i < |Reported(f.0)| && Reported(f.0)[i] == f.1;
      assert f.0.untracked[i] in f.0.untracked && Printed(f.0.untracked[i]) == f.1;
    }
    if FoundAsPrinted(rows, c) {
      var u, p :| u in rows && u.readable && p in u.untracked && Printed(p) in u.files && u.files[Printed(p)] == c;
      var i :| 0 <= i < |u.untracked| && u.untracked[i] == p;
      assert Reported(u)[i] == Printed(p);
      ListedExact(rows, u, Printed(p));
      assert (u, Printed(p)).1 in u.files;
    }
  }

  /** An untracked regular file of `t`. */
  predicate Loose(t: Tree, path: string) {
    path in t.untracked && path in t.files
  }

  /** Git does not tell of the tree, or prints the path in quotes. */
  predicate Misread(t: Tree, path: string) {
    !t.readable || exists c :: c in path && (c <= ' ' || c > '~' || c == '"' || c == '\\')
  }

  lemma PlainIsRead(t: Tree, path: string)
    ensures Misread(t, path) <==> !t.readable || !Plain(path)
  {
    if !Plain(path) {
      var i :| 0 <= i < |path| && !('!' <= path[i] <= '~' && path[i] != '\"' && path[i] != '\\');
      assert path[i] in path;
    }
  }

  /** The promise made before an unclean worktree is removed. */
  ghost predicate AllSaved(rows: seq<Tree>, archive: seq<Item>) {
    forall t, path :: t in rows && Loose(t, path) ==> Archived(archive, t.files[path])
  }

  /** A file that is not misread is always saved. */
  lemma PlainIsSaved(rows: seq<Tree>, t: Tree, path: string)
    requires t in rows && Loose(t, path) && !Misread(t, path)
    ensures Archived(ArchiveOf(Listed(rows)), t.files[path])
  {
    SavedExact(rows, t.files[path]);
    PlainIsRead(t, path);
    hide Plain, ArchiveOf, Listed, Archived, Misread;
    assert Printed(path) == path;
  }

  /**
   * Of `gone`, which are among the archived rows, every untracked file is saved exactly when each
   * misread one has its content under some path that is read right.
   */
  lemma AllSavedExact(rows: seq<Tree>, gone: seq<Tree>)
    requires forall t :: t in gone ==> t in rows
    ensures AllSaved(gone, ArchiveOf(Listed(rows))) <==>
            forall t, path :: t in gone && Loose(t, path) && Misread(t, path) ==> FoundAsPrinted(rows, t.files[path])
  {
    hide ArchiveOf, Listed, Archived, FoundAsPrinted, Misread;
    forall t, path | t in gone && Loose(t, path)
      ensures Archived(ArchiveOf(Listed(rows)), t.files[path]) <==> FoundAsPrinted(rows, t.files[path])
      ensures !Misread(t, path) ==> Archived(ArchiveOf(Listed(rows)), t.files[path])
    {
      SavedExact(rows, t.files[path]);
      if !Misread(t, path) {
        PlainIsSaved(rows, t, path);
      }
    }
  }

  /** No two files have one content, and no name begins with a quote. */
  ghost predicate NoTwins(rows: seq<Tree>) {
    && (forall t, u, p, q :: t in rows && u in rows && p in t.files && q in u.files && t.files[p] == u.files[q] ==>
        t == u && p == q)
    && forall t, p :: t in rows && p in t.files ==> !StartsWith(p, "\"")
  }

  /** Where no file stands in for another, that is: exactly when no untracked file of theirs is misread. */
  lemma AllSavedIffNoneMisread(rows: seq<Tree>, gone: seq<Tree>)
    requires NoTwins(rows) && forall t :: t in gone ==> t in rows
    ensures AllSaved(gone, ArchiveOf(Listed(rows))) <==>
            forall t, path :: t in gone && Loose(t, path) ==> !Misread(t, path)
  {
    hide ArchiveOf, Listed, Archived, AllSaved, Plain, Misread;
    AllSavedExact(rows, gone);
    forall t, path | t in gone && Loose(t, path) && FoundAsPrinted(rows, t.files[path]) ensures !Misread(t, path) {
      var u, p :|
        u in rows && u.readable && p in u.untracked && Printed(p) in u.files && u.files[Printed(p)] == t.files[path];
      assert u == t && Printed(p) == path;
      assert !Plain(p) ==> StartsWith(path, "\"");
      PlainIsRead(t, path);
    }
  }

  // -------------------------------------------------------------------- the links

  const MARK := "/runs/worktrees/run-"

  /** A worktree path begins at `i`: its name is a number, and something may follow. */
  predicate WorktreeAt(p: string, i: nat)
    requires i <= |p|
  {
    OccursAt(p, MARK, i) &&
    var rest := p[i + |MARK|..];
    DigitsLength(rest) > 0 && DigitsLength(rest) < |rest| && rest[DigitsLength(rest)] == '/'
  }

  /** The last place below `n` where a worktree path begins, or -1. */
  function LastWorktree(p: string, n: nat): (r: int)
    requires n <= |p|
    ensures -1 <= r < n
    ensures r >= 0 ==> WorktreeAt(p, r)
  {
    if n == 0 then -1 else if WorktreeAt(p, n - 1) then n - 1 else LastWorktree(p, n - 1)
  }

  /** A line end that closes the path is no part of it. */
  function Unended(p: string): (r: string)
    ensures p == r || p == r + "\n"
    ensures p != "" && p[|p| - 1] == '\n' ==> p == r + "\n"
  {
    if p != "" && p[|p| - 1] == '\n' then p[..|p| - 1] else p
  }

  /** The worktree a result path lies in, and where in it. */
  function ParsePath(path: string): Option<(string, string)> {
    var p := Unended(path);
    var at := LastWorktree(p, |p|);
    if at == -1 || '\n' in p then None
    else
      var rest := p[at + |MARK|..];
      var n := DigitsLength(rest);
      Some(("run-" + rest[..n], rest[n + 1..]))
  }

  /** At `i` stands the directory of worktrees, and in it `run-` and a number of `n` digits. */
  predicate RunDirectory(p: string, i: int, n: int) {
    && 0 <= i && 0 < n && i + 20 + n < |p|
    && p[i..i + 20] == "/runs/worktrees/run-"
    && (forall k :: i + 20 <= k < i + 20 + n ==> '0' <= p[k] <= '9')
    && p[i + 20 + n] == '/'
  }

  /** The path has one line, and the last run directory in it is `name`, with `rel` below it. */
  ghost predicate LiesIn(path: string, name: string, rel: string) {
    exists p, i, n :: InLast(path, p, i, n, name, rel)
  }

  ghost predicate InLast(path: string, p: string, i: int, n: int, name: string, rel: string) {
    && (path == p || path == p + "\n") && '\n' !in p && RunDirectory(p, i, n)
    && name == "run-" + p[i + 20..i + 20 + n] && rel == p[i + 20 + n + 1..]
    && forall j, m :: j > i ==> !RunDirectory(p, j, m)
  }

  lemma {:induction false} DigitsCounted(s: string, n: nat)
    requires n < |s| && s[n] == '/' && forall k :: 0 <= k < n ==> '0' <= s[k] <= '9'
    ensures DigitsLength(s) == n
  {
    if n > 0 {
      assert s[1..][n - 1] == '/';
      DigitsCounted(s[1..], n - 1);
    }
  }

  lemma {:induction false} DigitsAllowed(s: string)
    ensures forall k :: 0 <= k < DigitsLength(s) ==> '0' <= s[k] <= '9'
  {
    if s != "" && IsDigit(s[0]) {
      DigitsAllowed(s[1..]);
      assert forall k :: 0 < k < |s| ==> s[k] == s[1..][k - 1];
    }
  }

  /** The scanner finds a worktree where a run directory stands, and reads its number to the end. */
  lemma WorktreeExact(p: string, i: nat, n: int)
    requires i <= |p|
    ensures RunDirectory(p, i, n) <==> WorktreeAt(p, i) && n == DigitsLength(p[i + |MARK|..])
  {
    if OccursAt(p, MARK, i) {
      var rest := p[i + |MARK|..];
      DigitsAllowed(rest);
      assert forall k :: 0 <= k < |rest| ==> rest[k] == p[i + 20 + k];
      if 0 < n < |rest| && RunDirectory(p, i, n) {
        DigitsCounted(rest, n);
      }
    }
  }

  lemma {:induction false} LastExact(p: string, n: nat, i: nat)
    requires n <= |p| && i < n && WorktreeAt(p, i)
    ensures LastWorktree(p, n) >= i
  {
    hide WorktreeAt;
    if !WorktreeAt(p, n - 1) {
      LastExact(p, n - 1, i);
    }
  }

  lemma NoLater(p: string, j: int, m: int)
    requires RunDirectory(p, j, m)
    ensures 0 <= j < |p| && LastWorktree(p, |p|) >= j
  {
    hide LastWorktree;
    WorktreeExact(p, j, m);
    LastExact(p, |p|, j);
  }

  /** A path is read as what it lies in, and only then. */
  lemma ParseExact(path: string, name: string, rel: string)
    ensures ParsePath(path) == Some((name, rel)) <==> LiesIn(path, name, rel)
  {
    hide WorktreeAt, RunDirectory, LastWorktree, DigitsLength, Unended;
    var p := Unended(path);
    var at := LastWorktree(p, |p|);
    if at >= 0 && '\n' !in p {
      ParsedLies(path, p);
    }
    if LiesIn(path, name, rel) {
      var q, i, n :| InLast(path, q, i, n, name, rel);
      OneLine(path, q);
      NoLater(q, i, n);
      var m := LastIsDirectory(q);
      WorktreeExact(q, i, n);
      RunDirectoryFits(q, i, n);
      ParsedAt(path, q, i, n);
    }
  }

  lemma LastIsDirectory(p: string) returns (n: int)
    requires LastWorktree(p, |p|) >= 0
    ensures var at := LastWorktree(p, |p|);
            && RunDirectory(p, at, n) && at + 20 <= |p| && n == DigitsLength(p[at + 20..])
  {
    hide LastWorktree;
    var at := LastWorktree(p, |p|);
    n := DigitsLength(p[at + |MARK|..]);
    WorktreeExact(p, at, n);
  }

  lemma ParsedAt(path: string, p: string, at: nat, n: nat)
    requires p == Unended(path) && '\n' !in p && at == LastWorktree(p, |p|)
    requires at + 20 + n < |p| && n == DigitsLength(p[at + 20..])
    ensures ParsePath(path) == Some(("run-" + p[at + 20..at + 20 + n], p[at + 20 + n + 1..]))
  {
    hide LastWorktree, DigitsLength, WorktreeAt, Unended;
    var rest := p[at + |MARK|..];
    assert rest[..n] == p[at + 20..at + 20 + n] && rest[n + 1..] == p[at + 20 + n + 1..];
  }

  lemma LiesAt(path: string, p: string, i: int, n: int)
    requires (path == p || path == p + "\n") && '\n' !in p && RunDirectory(p, i, n)
    requires 0 <= i && 0 < n && i + 20 + n < |p|
    requires forall j, m :: j > i ==> !RunDirectory(p, j, m)
    ensures LiesIn(path, "run-" + p[i + 20..i + 20 + n], p[i + 20 + n + 1..])
  {
    hide RunDirectory;
    assert InLast(path, p, i, n, "run-" + p[i + 20..i + 20 + n], p[i + 20 + n + 1..]);
  }

  lemma ParsedLies(path: string, p: string)
    requires p == Unended(path) && '\n' !in p && LastWorktree(p, |p|) >= 0
    ensures ParsePath(path).Some? && LiesIn(path, ParsePath(path).value.0, ParsePath(path).value.1)
  {
    hide ParsePath, RunDirectory, LastWorktree, DigitsLength, WorktreeAt, LiesIn, Unended;
    var at := LastWorktree(p, |p|);
    var n := LastIsDirectory(p);
    RunDirectoryFits(p, at, n);
    ParsedAt(path, p, at, n);
    NothingLater(p);
    LiesAt(path, p, at, n);
  }

  lemma NothingLater(p: string)
    ensures forall j, m :: j > LastWorktree(p, |p|) ==> !RunDirectory(p, j, m)
  {
    hide RunDirectory, LastWorktree;
    forall j, m | RunDirectory(p, j, m) ensures j <= LastWorktree(p, |p|) {
      NoLater(p, j, m);
    }
  }

  lemma RunDirectoryFits(p: string, i: int, n: int)
    requires RunDirectory(p, i, n)
    ensures 0 <= i && 0 < n && i + 20 + n < |p|
  {
  }

  lemma OneLine(path: string, q: string)
    requires (path == q || path == q + "\n") && '\n' !in q
    ensures q == Unended(path)
  {
    if path == q && q != "" {
      assert q[|q| - 1] in q;
    }
  }

  /** `os.path.join`: an absolute second part stands alone. */
  function JoinPath(base: string, rel: string): string {
    if StartsWith(rel, "/") then rel
    else if base == "" || base[|base| - 1] == '/' then base + rel else base + "/" + rel
  }

  /** The first repository that has the file. */
  function FirstHit(repos: seq<string>, rel: string, existing: set<string>): Option<string> {
    if repos == [] then None
    else if JoinPath(repos[0], rel) in existing then Some(JoinPath(repos[0], rel))
    else FirstHit(repos[1..], rel, existing)
  }

  /** One entry of `result_paths`; None is an entry that is no string. */
  function Repoint(p: Option<string>, names: set<string>, repos: seq<string>, existing: set<string>): Option<string> {
    if p.None? || ParsePath(p.value).None? || ParsePath(p.value).value.0 !in names then p
    else
      var hit := FirstHit(repos, ParsePath(p.value).value.1, existing);
      if hit.Some? then hit else p
  }

  function RepointAll(ps: seq<Option<string>>, names: set<string>, repos: seq<string>,
      existing: set<string>): (r: seq<Option<string>>)
    ensures |r| == |ps| && forall i :: 0 <= i < |ps| ==> r[i] == Repoint(ps[i], names, repos, existing)
  {
    seq(|ps|, i requires 0 <= i < |ps| => Repoint(ps[i], names, repos, existing))
  }

  /** A task's stored result paths; None when they cannot be read as a list. */
  type Links = Option<seq<Option<string>>>

  function RepointTask(l: Links, names: set<string>, repos: seq<string>, existing: set<string>): Links {
    if l.None? then None else Some(RepointAll(l.value, names, repos, existing))
  }

  /** Where `rel` is when it is looked for from `base`. */
  predicate JoinsTo(base: string, rel: string, path: string) {
    if rel != "" && rel[0] == '/' then path == rel
    else path == base + (if base != "" && base[|base| - 1] != '/' then "/" else "") + rel
  }

  lemma JoinExact(base: string, rel: string, path: string)
    ensures JoinsTo(base, rel, path) <==> path == JoinPath(base, rel)
  {
    if rel != "" && rel[0] == '/' {
      assert StartsWith(rel, "/");
    } else {
      assert !StartsWith(rel, "/");
      assert base + "" + rel == base + rel;
    }
  }

  predicate Lacks(base: string, rel: string, existing: set<string>) {
    forall path :: path in existing ==> !JoinsTo(base, rel, path)
  }

  /** `repos[i]` is the first repository that has the file, at `path`. */
  predicate FirstAt(repos: seq<string>, rel: string, existing: set<string>, i: nat, path: string) {
    && i < |repos| && path in existing && JoinsTo(repos[i], rel, path)
    && forall j :: 0 <= j < i ==> Lacks(repos[j], rel, existing)
  }

  predicate Nowhere(repos: seq<string>, rel: string, existing: set<string>) {
    forall i :: 0 <= i < |repos| ==> Lacks(repos[i], rel, existing)
  }

  lemma LacksExact(base: string, rel: string, existing: set<string>)
    ensures Lacks(base, rel, existing) <==> JoinPath(base, rel) !in existing
  {
    hide JoinsTo, JoinPath;
    forall path ensures JoinsTo(base, rel, path) <==> path == JoinPath(base, rel) {
      JoinExact(base, rel, path);
    }
  }

  lemma {:induction false} FirstHitExact(repos: seq<string>, rel: string, existing: set<string>)
    ensures FirstHit(repos, rel, existing).None? <==> Nowhere(repos, rel, existing)
    ensures forall i: nat, path :: FirstAt(repos, rel, existing, i, path) ==>
              FirstHit(repos, rel, existing) == Some(path)
  {
    hide JoinPath, JoinsTo, Lacks;
    if repos != [] {
      FirstHitExact(repos[1..], rel, existing);
      LacksExact(repos[0], rel, existing);
      assert forall i :: 0 < i < |repos| ==> repos[i] == repos[1..][i - 1];
      forall i: nat, path | FirstAt(repos, rel, existing, i, path)
        ensures FirstHit(repos, rel, existing) == Some(path)
      {
        JoinExact(repos[i], rel, path);
        if i > 0 {
          assert forall j :: 0 <= j < i - 1 ==> repos[1..][j] == repos[j + 1];
          assert FirstAt(repos[1..], rel, existing, i - 1, path);
        }
      }
    }
  }

  /** The entry lies in a reaped worktree, at `rel`. */
  ghost predicate InReaped(p: Option<string>, names: set<string>, rel: string) {
    p.Some? && exists name :: name in names && LiesIn(p.value, name, rel)
  }

  /**
   * An entry leads to the first owning repository that has its file, if it lay in a reaped
   * worktree; any other stays.
   */
  lemma RepointExact(p: Option<string>, names: set<string>, repos: seq<string>, existing: set<string>)
    ensures forall rel, i: nat, path :: InReaped(p, names, rel) && FirstAt(repos, rel, existing, i, path) ==>
              Repoint(p, names, repos, existing) == Some(path)
    ensures (forall rel :: InReaped(p, names, rel) ==> Nowhere(repos, rel, existing)) ==>
              Repoint(p, names, repos, existing) == p
  {
    hide ParsePath, FirstHit, FirstAt, Nowhere, LiesIn;
    if p.Some? {
      forall name, rel ensures ParsePath(p.value) == Some((name, rel)) <==> LiesIn(p.value, name, rel) {
        ParseExact(p.value, name, rel);
      }
      if ParsePath(p.value).Some? {
        FirstHitExact(repos, ParsePath(p.value).value.1, existing);
        assert ParsePath(p.value).value.0 in names ==> InReaped(p, names, ParsePath(p.value).value.1);
      }
    }
  }

  /** `rescue_links` for one task; `moved` counts the entries that were repointed. */
  method RescueTask(l: seq<Option<string>>, names: set<string>, repos: seq<string>, existing: set<string>)
    returns (after: seq<Option<string>>, moved: nat)
    ensures after == RepointAll(l, names, repos, existing) && |after| == |l|
    ensures moved == 0 ==> after == l
  {
    hide ParsePath, FirstHit;
    after, moved := [], 0;
    for i := 0 to |l|
      invariant after == RepointAll(l, names, repos, existing)[..i]
      invariant moved == 0 ==> after == l[..i]
    {
      var p := l[i];
      if p.None? || ParsePath(p.value).None? || ParsePath(p.value).value.0 !in names {
        after := after + [p];
      } else {
        var hit := FirstHit(repos, ParsePath(p.value).value.1, existing);
        after := after + [if hit.Some? then hit else p];
        if hit.Some? {
          moved := moved + 1;
        }
      }
    }
  }

  // -------------------------------------------------------------------- the sweep

  function UncleanOf(keep: seq<(Tree, Why)>): seq<Tree> {
    if keep == [] then []
    else
      var before, k := UncleanOf(keep[..|keep| - 1]), keep[|keep| - 1];
      if k.1 == Why.Unclean then before + [k.0] else before
  }

  lemma {:induction false} UncleanMember(keep: seq<(Tree, Why)>, t: Tree)
    ensures t in UncleanOf(keep) <==> (t, Why.Unclean) in keep
  {
    if keep != [] {
      UncleanMember(keep[..|keep| - 1], t);
      assert keep == keep[..|keep| - 1] + [keep[|keep| - 1]];
    }
  }

  /** What a sweep goes for: what is safe to reap, and with `dirty` the trees kept only because they are not clean. */
  function Targets(ts: seq<Tree>, root: string, held: Option<set<nat>>, dirty: bool): seq<Tree> {
    Reaped(ts, root, held) + (if dirty then UncleanOf(Kept(ts, root, held)) else [])
  }

  /** In order, each once. */
  function Insert(repos: seq<string>, r: string): seq<string> {
    if repos == [] then [r]
    else if repos[0] == r then repos
    else if StringLess(r, repos[0]) then [r] + repos
    else [repos[0]] + Insert(repos[1..], r)
  }

  /** The owning repositories of the targets. */
  function Owners(rows: seq<Tree>): seq<string> {
    if rows == [] then []
    else
      var before, repo := Owners(rows[..|rows| - 1]), OwningRepo(rows[|rows| - 1].gitFile);
      if repo.Some? then Insert(before, repo.value) else before
  }

  predicate InOrder(repos: seq<string>) {
    forall i, j :: 0 <= i < j < |repos| ==> StringLess(repos[i], repos[j])
  }

  lemma {:induction false} InsertExact(repos: seq<string>, r: string)
    requires InOrder(repos)
    ensures InOrder(Insert(repos, r)) && forall q :: q in Insert(repos, r) <==> q == r || q in repos
  {
    if repos != [] {
      StringLessTotal(r, repos[0]);
      var rest := repos[1..];
      assert repos == [repos[0]] + rest;
      if StringLess(r, repos[0]) {
        forall j | 0 < j < |repos| ensures StringLess(r, repos[j]) {
          StringLessTransitive(r, repos[0], repos[j]);
        }
      } else if r != repos[0] {
        InsertExact(rest, r);
        var more := Insert(rest, r);
        assert forall j :: 0 <= j < |more| ==> more[j] in more;
      }
    }
  }

  /** The repositories that own a row, each once, in order. */
  lemma {:induction false} OwnersExact(rows: seq<Tree>)
    ensures InOrder(Owners(rows))
    ensures forall r :: r in Owners(rows) <==> exists i :: 0 <= i < |rows| && OwningRepo(rows[i].gitFile) == Some(r)
  {
    hide OwningRepo, Insert, InOrder;
    if rows == [] {
      NoneInOrder();
    } else {
      var n := |rows| - 1;
      OwnersExact(rows[..n]);
      if OwningRepo(rows[n].gitFile).Some? {
        InsertExact(Owners(rows[..n]), OwningRepo(rows[n].gitFile).value);
      }
      assert forall i :: 0 <= i < n ==> rows[..n][i] == rows[i];
    }
  }

  lemma NoneInOrder()
    ensures InOrder([])
  {
  }

  function Names(rows: seq<Tree>): set<string> {
    set t | t in rows :: t.name
  }

  function RepointMap(links: map<nat, Links>, rows: seq<Tree>, existing: set<string>): map<nat, Links> {
    map id | id in links :: RepointTask(links[id], Names(rows), Owners(rows), existing)
  }

  /**
   * A link into the tree of a target leads to the first owning repository that has its file; a link
   * that leads into none of them stays, and so does one whose file is nowhere.
   */
  lemma LinksFollow(links: map<nat, Links>, rows: seq<Tree>, existing: set<string>, id: nat, k: nat)
    requires id in links && links[id].Some? && k < |links[id].value| && links[id].value[k].Some?
    ensures var after, p := RepointMap(links, rows, existing)[id], links[id].value[k].value;
            && after.Some? && |after.value| == |links[id].value|
            && (forall t, rel, i: nat, path ::
                  t in rows && LiesIn(p, t.name, rel) && FirstAt(Owners(rows), rel, existing, i, path) ==>
                  after.value[k] == Some(path))
            && ((forall t, rel :: t in rows && LiesIn(p, t.name, rel) ==> Nowhere(Owners(rows), rel, existing)) ==>
                after.value[k] == Some(p))
  {
    hide LiesIn, FirstAt, Nowhere, Owners, ParsePath, FirstHit, Repoint;
    var p := links[id].value[k];
    RepointExact(p, Names(rows), Owners(rows), existing);
    forall t, rel | t in rows && LiesIn(p.value, t.name, rel) ensures InReaped(p, Names(rows), rel) {
      assert t.name in Names(rows);
    }
    forall rel | InReaped(p, Names(rows), rel) ensures exists t :: t in rows && LiesIn(p.value, t.name, rel) {
      var name :| name in Names(rows) && LiesIn(p.value, name, rel);
    }
  }

  /** `aborted`: a target without an owning repository, or an archive that stays empty, ends the sweep. */
  datatype Report = Report(targets: seq<Tree>, removed: seq<Tree>, archive: seq<Item>, aborted: bool)

  /** What goes when nothing but an owner can be missing: up to the first ownerless row, all that git lets go. */
  function Removable(rows: seq<Tree>, stuck: set<string>): seq<Tree> {
    if rows == [] || OwningRepo(rows[0].gitFile).None? then []
    else (if rows[0].name in stuck then [] else [rows[0]]) + Removable(rows[1..], stuck)
  }

  lemma {:induction false} RemovableExact(rows: seq<Tree>, stuck: set<string>, t: Tree)
    ensures t in Removable(rows, stuck) <==>
            exists i :: 0 <= i < |rows| && rows[i] == t && t.name !in stuck
                        && forall j :: 0 <= j <= i ==> OwningRepo(rows[j].gitFile).Some?
  {
    hide OwningRepo;
    if rows != [] {
      RemovableExact(rows[1..], stuck, t);
      assert forall i :: 0 < i < |rows| ==> rows[i] == rows[1..][i - 1];
    }
  }

  predicate Ownerless(rows: seq<Tree>) {
    exists i :: 0 <= i < |rows| && OwningRepo(rows[i].gitFile).None?
  }

  /** Untracked files were reported, but nothing could be archived: the sweep then removes nothing. */
  predicate NothingArchived(rows: seq<Tree>) {
    ArchiveOf(Listed(rows)) == [] && Listed(rows) != []
  }

  lemma RepointNone(links: map<nat, Links>, existing: set<string>)
    ensures RepointMap(links, [], existing) == links
  {
    hide ParsePath, FirstHit;
    forall id | id in links && links[id].Some? ensures RepointTask(links[id], {}, [], existing) == links[id] {
      assert RepointAll(links[id].value, {}, [], existing) == links[id].value;
    }
    assert Names([]) == {};
  }

  lemma NothingListed()
    ensures ArchiveOf(Listed([])) == [] && Listed([]) == []
  {
  }

  class Sweeper {
    /** The entries under the root, and the stored result paths of each task. */
    var trees: seq<Tree>
    var links: map<nat, Links>

    constructor (ts: seq<Tree>, ls: map<nat, Links>)
      ensures trees == ts && links == ls
    {
      trees, links := ts, ls;
    }

    /** `rescue_links`: every task in turn. */
    method RescueLinks(rows: seq<Tree>, existing: set<string>)
      modifies this`links
      ensures links == RepointMap(old(links), rows, existing)
    {
      hide RepointTask, Owners, Names;
      var todo := links.Keys;
      while todo != {}
        invariant todo <= old(links).Keys && links.Keys == old(links).Keys
        invariant forall id :: id in todo ==> links[id] == old(links)[id]
        invariant forall id :: id in old(links) && id !in todo ==>
                    links[id] == RepointTask(old(links)[id], Names(rows), Owners(rows), existing)
      {
        var id :| id in todo;
        todo := todo - {id};
        var after := Rescue(links[id], Names(rows), Owners(rows), existing);
        links := links[id := after];
      }
    }

    method Rescue(l: Links, names: set<string>, repos: seq<string>, existing: set<string>) returns (after: Links)
      ensures after == RepointTask(l, names, repos, existing)
    {
      after := l;
      if l.Some? {
        var paths, moved := RescueTask(l.value, names, repos, existing);
        if moved > 0 {
          after := Some(paths);
        }
      }
    }

    /** `git worktree remove` for each target; `stuck` are those git will not remove. */
    method RemoveAll(rows: seq<Tree>, stuck: set<string>) returns (removed: seq<Tree>, aborted: bool)
      modifies this`trees
      ensures removed == Removable(rows, stuck) && (aborted <==> Ownerless(rows))
      ensures forall t :: t in trees <==> t in old(trees) && t !in removed
    {
      hide OwningRepo;
      removed, aborted := [], false;
      for n := 0 to |rows|
        invariant removed + Removable(rows[n..], stuck) == Removable(rows, stuck)
        invariant forall i :: 0 <= i < n ==> OwningRepo(rows[i].gitFile).Some?
        invariant forall t :: t in trees <==> t in old(trees) && t !in removed
      {
        assert rows[n..][1..] == rows[n + 1..];
        if OwningRepo(rows[n].gitFile).None? {
          return removed, true;
        }
        if rows[n].name !in stuck {
          trees := Without(trees, rows[n]);
          removed := removed + [rows[n]];
        }
      }
    }

    /** Archive first when asked for unclean trees, then repoint, then remove. */
    method Sweep(root: string, held: Option<set<nat>>, dry: bool, dirty: bool, stuck: set<string>,
        existing: set<string>)
      returns (out: Option<Report>)
      modifies this
      ensures out.Some? <==> Nameable(old(trees))
      ensures dry || out.None? ==> trees == old(trees) && links == old(links)
      ensures out.Some? ==> out.value.targets == Targets(old(trees), root, held, dirty)
      ensures out.Some? ==> forall t :: t in trees <==> t in old(trees) && t !in out.value.removed
      ensures out.Some? && (dry || (dirty && NothingArchived(out.value.targets))) ==>
                out.value.removed == [] && trees == old(trees) && links == old(links) && (out.value.aborted <==> !dry)
      ensures out.Some? && !dry && !(dirty && NothingArchived(out.value.targets)) ==>
                && out.value.removed == Removable(out.value.targets, stuck)
                && (out.value.aborted <==> Ownerless(out.value.targets))
                && links == RepointMap(old(links), out.value.targets, existing)
                && (dirty ==> out.value.archive == ArchiveOf(Listed(out.value.targets)))
    {
      hide Reaped, Kept, UncleanOf, RepointTask, ArchiveOf, Nameable;
      var plan := PlanSweep(trees, root, held);
      if plan.None? {
        return None;
      }
      var rows := plan.value.reap + (if dirty then UncleanOf(plan.value.keep) else []);
      if dry || rows == [] {
        if rows == [] {
          RepointNone(links, existing);
          NothingListed();
        }
        return Some(Report(rows, [], [], false));
      }
      var archive := [];
      if dirty {
        archive := Parachute(rows);
        if archive == [] && Listed(rows) != [] {
          return Some(Report(rows, [], [], true));
        }
      }
      RescueLinks(rows, existing);
      var removed, aborted := RemoveAll(rows, stuck);
      out := Some(Report(rows, removed, archive, aborted));
    }
  }

  function Without(ts: seq<Tree>, t: Tree): (r: seq<Tree>)
    ensures forall u :: u in r <==> u in ts && u != t
  {
    if ts == [] then []
    else
      assert ts == ts[..|ts| - 1] + [ts[|ts| - 1]];
      Without(ts[..|ts| - 1], t) + (if ts[|ts| - 1] == t then [] else [ts[|ts| - 1]])
  }

  /** What a sweep on its own removes of a known run had nothing to lose. */
  lemma SweptIsSafe(ts: seq<Tree>, root: string, db: Db, alive: set<nat>, now: nat, held: set<nat>, t: Tree, i: nat)
    requires forall id :: id in held <==> Busy(db, id, alive, now)
    requires t in Targets(ts, root, Some(held), false) && i < |db.runs| && NamesRun(t.name, db.runs[i].id)
    ensures Harmless(t, root) && Spent(db, db.runs[i], alive, now)
  {
    hide Reaped, Kept, Busy, Harmless, Spent, NamesRun;
    ReapedIsSafe(ts, root, db, alive, now, held, t, i);
  }

  /** With the unclean ones too: every confined tree of a run not held, unless it is clean and without an owner. */
  lemma DirtyTargets(ts: seq<Tree>, root: string, held: set<nat>, t: Tree)
    ensures t in Targets(ts, root, Some(held), true) <==>
            && t in ts && t.isDir && (exists rest :: t.resolved == root + "/" + rest)
            && (exists id: nat :: NamesRun(t.name, id) && id !in held)
            && (!t.readable || t.untracked != [] || t.others > 0 || OwningRepo(t.gitFile).Some?)
  {
    ReapedMember(ts, root, Some(held), t);
    UncleanMember(Kept(ts, root, Some(held)), t);
    KeptExact(ts, root, Some(held), t);
    ConfinedExact(root, t.resolved);
    hide Reaped, Kept, UncleanOf, Confined, OwningRepo, RunIdOf, NamesRun;
    forall id: nat ensures RunIdOf(t.name) == Run(id) <==> NamesRun(t.name, id) {
      RunIdExact(t.name, id);
    }
  }

  /** When the tables cannot be read, no sweep goes for anything. */
  lemma NothingWithoutTables(ts: seq<Tree>, root: string, dirty: bool)
    ensures forall t :: t !in Targets(ts, root, None, dirty)
  {
    hide Reaped, Kept, UncleanOf, Confined;
    forall t ensures t !in Reaped(ts, root, None) && t !in UncleanOf(Kept(ts, root, None)) {
      ReapedMember(ts, root, None, t);
      UncleanMember(Kept(ts, root, None), t);
      KeptExact(ts, root, None, t);
    }
  }

  // ------------------------------------------------- where the promise is broken

  const ROOT := "/w"

  /** An unclean tree that nothing but the flag protects. */
  predicate Forced(t: Tree, root: string, held: set<nat>) {
    t.isDir && WhyKept(t, root, Some(held)) == Some(Why.Unclean) && OwningRepo(t.gitFile).Some?
  }

  /** It goes when unclean trees are asked for. */
  lemma ForcedGoes(t: Tree, root: string, held: set<nat>)
    requires Forced(t, root, held)
    ensures Targets([t], root, Some(held), true) == [t] && Removable([t], {}) == [t]
  {
    hide WhyKept, OwningRepo;
    assert [t][..0] == [] && [(t, Why.Unclean)][..0] == [];
    assert Reaped([t], root, Some(held)) == Reaped([], root, Some(held));
    assert Kept([t], root, Some(held)) == Kept([], root, Some(held)) + [(t, Why.Unclean)];
    assert UncleanOf([(t, Why.Unclean)]) == UncleanOf([]) + [t];
    assert Removable([t], {}) == [t] + Removable([t][1..], {});
  }

  /** A file printed in quotes is gone, though another one was archived and the sweep went on. */
  lemma QuotedIsLost(t: Tree, root: string, held: set<nat>, a: string, b: string)
    requires Forced(t, root, held) && t.readable && t.untracked == [a, b] && Plain(a) && !Plain(b)
    requires Loose(t, a) && Loose(t, b) && t.files[a] != t.files[b] && Printed(b) !in t.files
    ensures var rows := Targets([t], root, Some(held), true);
            && t in Removable(rows, {}) && !NothingArchived(rows)
            && Archived(ArchiveOf(Listed(rows)), t.files[a]) && !Archived(ArchiveOf(Listed(rows)), t.files[b])
  {
    hide Forced, Plain, ArchiveOf, Listed, Targets, Removable;
    ForcedGoes(t, root, held);
    PlainIsRead(t, a);
    PlainIsSaved([t], t, a);
    assert Printed(a) == a;
    SavedExact([t], t.files[b]);
  }

  /** Nothing of a tree git cannot read is archived, and it goes as well. */
  lemma UnreadableIsLost(t: Tree, root: string, held: set<nat>)
    requires Forced(t, root, held) && !t.readable
    ensures var rows := Targets([t], root, Some(held), true);
            t in Removable(rows, {}) && !NothingArchived(rows) && ArchiveOf(Listed(rows)) == []
  {
    hide Forced, Targets, Removable;
    ForcedGoes(t, root, held);
    assert Listed([t]) == Listed([t][..0]) + PairUp(t, []);
  }

  /** The worktree of run 7 under `/w`, with work in `a` and in `b c`. */
  function Leftover(readable: bool): Tree {
    Tree("run-" + "7", true, "/w/" + "run-7", Some(GITDIR + ("/r" + WORKTREES + "run-7")),
         readable, ["a", "b c"], 0, map["a" := "one", "b c" := "two"])
  }

  /** The part before a mark that stands in the middle and not at the very front. */
  lemma BeforeMiddle(a: string, mark: string, b: string)
    requires !OccursAt(a + mark + b, mark, 0)
    ensures Before(a + mark + b, mark).Some?
  {
    assert (a + mark + b)[|a|..|a| + |mark|] == mark;
    assert OccursAt(a + mark + b, mark, |a|);
  }

  lemma NotInFront(s: string, p: string)
    requires |s| >= 2 && |p| >= 2 && s[1] != p[1]
    ensures !OccursAt(s, p, 0)
  {
    OccursCharwise(s, p, 0);
  }

  lemma AfterPrefix(p: string, s: string)
    ensures StartsWith(p + s, p) && (p + s)[|p|..] == s
  {
  }

  lemma OwnedFrom(line: string, at: string)
    requires line == GITDIR + at && at != "" && !IsSpace(at[0]) && !IsSpace(at[|at| - 1])
    ensures OwningRepo(Some(line)) == Before(at, WORKTREES)
  {
    hide Before, Strip;
    AfterPrefix(GITDIR, at);
    assert line[0] == 'g' && line[|line| - 1] == at[|at| - 1];
    StripOfTrimmed(line, Spaces);
    StripOfTrimmed(at, Spaces);
  }

  lemma LeftoverOwned(readable: bool)
    ensures OwningRepo(Leftover(readable).gitFile).Some?
  {
    hide Before;
    var at := "/r" + WORKTREES + "run-7";
    assert at[0] == '/' && at[1] == 'r' && at[|at| - 1] == '7';
    NotInFront(at, WORKTREES);
    BeforeMiddle("/r", WORKTREES, "run-7");
    OwnedFrom(GITDIR + at, at);
  }

  /** A concrete tree of both kinds. */
  lemma LeftoverForced(readable: bool)
    ensures Forced(Leftover(readable), ROOT, {})
  {
    hide OwningRepo;
    LeftoverOwned(readable);
    AfterPrefix("run-", "7");
    AfterPrefix("/w/", "run-7");
  }

  /** The work in `b c` is lost, though `a` was archived; when git fails both are. */
  lemma WorkIsLost()
    ensures var rows := Targets([Leftover(true)], ROOT, Some({}), true);
            && Leftover(true) in Removable(rows, {})
            && Archived(ArchiveOf(Listed(rows)), "one") && !Archived(ArchiveOf(Listed(rows)), "two")
    ensures var rows := Targets([Leftover(false)], ROOT, Some({}), true);
            Leftover(false) in Removable(rows, {}) && ArchiveOf(Listed(rows)) == []
  {
    hide Forced, Targets, Removable, Archived, ArchiveOf, Listed, NothingArchived;
    LeftoverForced(true);
    LeftoverForced(false);
    UnreadableIsLost(Leftover(false), ROOT, {});
    assert "b c"[1] == ' ' && !Plain("b c") && |Printed("b c")| == 5;
    assert "one"[0] == 'o' && "two"[0] == 't';
    QuotedIsLost(Leftover(true), ROOT, {}, "a", "b c");
  }
}
