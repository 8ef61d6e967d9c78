// core/worktree_gc.py: which run worktrees may be removed, what is saved
// before they are, and where links into them lead afterwards.

module Reaper {
  import opened Text

  // ------------------------------------------------------------------- the tables

  datatype RunRow = RunRow(id: nat, task: nat, status: string, pid: nat)

  /** `since` is when a task reached a status. */
  datatype Transition = Transition(task: nat, status: string, since: nat)

  datatype Db = Db(runs: seq<RunRow>, tasks: map<nat, string>, transitions: seq<Transition>)

  const GRACE := 86400

  predicate Terminal(status: string) {
    status in {"done", "failed", "cancelled"}
  }

  /** `pid` 0 is none. */
  predicate Alive(pid: nat, alive: set<nat>) {
    pid != 0 && pid in alive
  }

  /** When a task last ended, 0 for never. */
  function LastEnd(ts: seq<Transition>, task: nat): (r: nat)
    ensures forall i :: 0 <= i < |ts| && ts[i].task == task && Terminal(ts[i].status) ==> ts[i].since <= r
    ensures r > 0 ==> exists i :: 0 <= i < |ts| && ts[i].task == task && Terminal(ts[i].status) && ts[i].since == r
  {
    if ts == [] then 0
    else
      var before, t := LastEnd(ts[..|ts| - 1], task), ts[|ts| - 1];
      if t.task == task && Terminal(t.status) && t.since > before then t.since else before
  }

  /** Task `task` ended less than a day ago. */
  predicate EndedLately(db: Db, task: nat, now: nat) {
    exists k :: 0 <= k < |db.transitions| && db.transitions[k].task == task && db.transitions[k].since > 0
                && db.transitions[k].status in {"done", "failed", "cancelled"}
                && now - db.transitions[k].since < 24 * 3600
  }

  lemma LatelyExact(db: Db, task: nat, now: nat)
    ensures EndedLately(db, task, now) <==>
            LastEnd(db.transitions, task) > 0 && now - LastEnd(db.transitions, task) < GRACE
  {
  }

  /** A run nothing can come of any more: it and its task are over for a day, and its process is gone. */
  predicate Spent(db: Db, r: RunRow, alive: set<nat>, now: nat) {
    && r.status in {"done", "failed", "cancelled"} && (r.pid == 0 || r.pid !in alive)
    && (r.task in db.tasks ==> db.tasks[r.task] in {"done", "failed", "cancelled"})
    && !EndedLately(db, r.task, now)
  }

  predicate Busy(db: Db, id: nat, alive: set<nat>, now: nat) {
    exists i :: 0 <= i < |db.runs| && db.runs[i].id == id && !Spent(db, db.runs[i], alive, now)
  }

  lemma SpentExact(db: Db, r: RunRow, alive: set<nat>, now: nat)
    ensures !Spent(db, r, alive, now) <==>
            || !Terminal(r.status) || Alive(r.pid, alive)
            || (r.task in db.tasks && !Terminal(db.tasks[r.task]))
            || (LastEnd(db.transitions, r.task) > 0 && now - LastEnd(db.transitions, r.task) < GRACE)
  {
    hide EndedLately, LastEnd;
    LatelyExact(db, r.task, now);
  }

  /** `holds`: three passes over the tables. */
  method Holds(db: Db, alive: set<nat>, now: nat) returns (held: set<nat>)
    ensures forall id :: id in held <==> Busy(db, id, alive, now)
  {
    hide Terminal, LastEnd, Alive, Spent;
    held := {};
    var rs := db.runs;
    for n := 0 to |rs|
      invariant forall id :: id in held <==>
                  exists i :: 0 <= i < n && rs[i].id == id && (!Terminal(rs[i].status) || Alive(rs[i].pid, alive))
    {
      if !Terminal(rs[n].status) || Alive(rs[n].pid, alive) {
        held := held + {rs[n].id};
      }
    }
    ghost var first := held;
    for n := 0 to |rs|
      invariant forall id :: id in held <==>
                  id in first ||
                  exists i :: 0 <= i < n && rs[i].id == id && rs[i].task in db.tasks && !Terminal(db.tasks[rs[i].task])
    {
      if rs[n].task in db.tasks && !Terminal(db.tasks[rs[n].task]) {
        held := held + {rs[n].id};
      }
    }
    ghost var second := held;
    for n := 0 to |rs|
      invariant forall id :: id in held <==>
          id in second ||
          exists i :: 0 <= i < n && rs[i].id == id && LastEnd(db.transitions, rs[i].task) > 0
                      && now - LastEnd(db.transitions, rs[i].task) < GRACE
    {
      var ended := LastEnd(db.transitions, rs[n].task);
      if ended > 0 && now - ended < GRACE {
        held := held + {rs[n].id};
      }
    }
    forall i | 0 <= i < |rs|
      ensures !Spent(db, rs[i], alive, now) <==>
              || !Terminal(rs[i].status) || Alive(rs[i].pid, alive)
              || (rs[i].task in db.tasks && !Terminal(db.tasks[rs[i].task]))
              || (LastEnd(db.transitions, rs[i].task) > 0 && now - LastEnd(db.transitions, rs[i].task) < GRACE)
    {
      SpentExact(db, rs[i], alive, now);
    }
  }

  // ---------------------------------------------------------------- the worktrees

  /**
   * One entry under the root. `resolved` is its resolved path, `untracked` are the
   * paths git reports as untracked, which leaves out what it ignores and what lies in a
   * nested repository, `others` counts every other change, `files` are its regular
   * files; git tells of the changes only when the tree is `readable`.
   */
  datatype Tree = Tree(
    name: string, isDir: bool, resolved: string, gitFile: Option<string>,
    readable: bool, untracked: seq<string>, others: nat, files: map<string, string>)

  /** Strictly under the root, after links are resolved. */
  predicate Confined(root: string, path: string) {
    path != root && StartsWith(path, root + "/")
  }

  const GITDIR := "gitdir:"
  const WORKTREES := "/.git/worktrees/"

  /** What stands before the first `p`, if anything does. */
  function Before(s: string, p: string): Option<string> {
    var at := Find(s, p);
    if at <= 0 then None else Some(s[..at])
  }

  function OwningRepo(gitFile: Option<string>): Option<string> {
    if gitFile.None? then None
    else
      var line := Strip(gitFile.value, Spaces);
      if StartsWith(line, GITDIR) then Before(Strip(line[|GITDIR|..], Spaces), WORKTREES) else None
  }

  /** The `.git` file git writes into a worktree names the repository it is of. */
  lemma OwnerReadBack(repo: string, name: string)
    requires repo != "" && !IsSpace(repo[0]) && name != "" && !IsSpace(name[|name| - 1])
    requires forall i :: 0 <= i < |repo| ==> !OccursAt(repo + WORKTREES + name, WORKTREES, i)
    ensures OwningRepo(Some("gitdir: " + (repo + WORKTREES + name) + "\n")) == Some(repo)
  {
    hide IsSpace, Find, Strip;
    var at := repo + WORKTREES + name;
    assert at[0] == repo[0] && at[|at| - 1] == name[|name| - 1];
    GitLine(at);
    assert at[|repo|..|repo| + |WORKTREES|] == WORKTREES;
    assert OccursAt(at, WORKTREES, |repo|);
    assert at[..|repo|] == repo;
  }

  lemma PadRight(s: string)
    requires s != "" && Trimmed(s, Spaces)
    ensures Strip(s + "\n", Spaces) == s
  {
    hide Strip, Trimmed;
    assert Spaces.Has('\n');
    StripPadding("", s, "\n", Spaces);
    assert "" + s + "\n" == s + "\n";
  }

  lemma PadLeft(s: string)
    requires s != "" && Trimmed(s, Spaces)
    ensures Strip(" " + s, Spaces) == s
  {
    hide Strip, Trimmed;
    assert Spaces.Has(' ');
    StripPadding(" ", s, "", Spaces);
    assert " " + s + "" == " " + s;
  }

  lemma GitLine(at: string)
    requires at != "" && !IsSpace(at[0]) && !IsSpace(at[|at| - 1])
    ensures OwningRepo(Some("gitdir: " + at + "\n")) == Before(at, WORKTREES)
  {
    var line := "gitdir: " + at;
    assert !IsSpace('g') && line[0] == 'g' && line[|line| - 1] == at[|at| - 1];
    hide IsSpace, Before, Strip;
    assert line[..7] == GITDIR && line[7..] == " " + at;
    PadRight(line);
    PadLeft(at);
  }

  /** A file that says anything else names none. */
  lemma NoOwner(line: string)
    requires Trimmed(line, Spaces) && !StartsWith(line, "gitdir:")
    ensures OwningRepo(Some(line)) == None
  {
    hide Strip;
    StripOfTrimmed(line, Spaces);
  }

  /** The number a directory name stands for; Malformed raises in the source. */
  datatype RunId = NotARun | Malformed | Run(id: nat)

  function RunIdOf(name: string): RunId {
    if !StartsWith(name, "run-") then NotARun
    else if name[4..] == "" || !AllDigits(name[4..]) then Malformed
    else Run(ParseDigits(name[4..]))
  }

  /** The name of the worktree of run `id`. */
  ghost predicate NamesRun(name: string, id: nat) {
    exists d :: d != "" && AllDigits(d) && ParseDigits(d) == id && name == "run-" + d
  }

  lemma NameOf(d: string)
    ensures ("run-" + d)[4..] == d && StartsWith("run-" + d, "run-")
  {
  }

  /** A name is read as the number that follows `run-`. */
  lemma RunIdExact(name: string, id: nat)
    ensures RunIdOf(name) == Run(id) <==> NamesRun(name, id)
  {
    hide StartsWith, AllDigits, ParseDigits;
    if NamesRun(name, id) {
      var d :| d != "" && AllDigits(d) && ParseDigits(d) == id && name == "run-" + d;
      NameOf(d);
    }
    if RunIdOf(name) == Run(id) {
      PrefixSplits("run-", name);
      assert name == "run-" + name[4..];
    }
  }

  lemma PrefixSplits(p: string, s: string)
    requires StartsWith(s, p)
    ensures s == p + s[|p|..]
  {
  }

  /** The name the dispatcher gives a worktree is read back as its run. */
  lemma RunNameReadBack(id: nat)
    ensures RunIdOf("run-" + Decimal(id)) == Run(id)
  {
    hide Decimal, RunIdOf, NamesRun;
    ParseDecimal(id);
    RunIdExact("run-" + Decimal(id), id);
    NamedBy(Decimal(id), id);
  }

  lemma NamedBy(d: string, id: nat)
    requires d != "" && AllDigits(d) && ParseDigits(d) == id
    ensures NamesRun("run-" + d, id)
  {
    hide AllDigits, ParseDigits;
  }

  lemma {:induction false} LeadingZero(s: string)
    requires AllDigits(s)
    ensures AllDigits("0" + s) && ParseDigits("0" + s) == ParseDigits(s)
  {
    var t := "0" + s;
    if s == "" {
      assert t[..0] == "";
    } else {
      var n := |s| - 1;
      LeadingZero(s[..n]);
      assert t[..|t| - 1] == "0" + s[..n] && t[|t| - 1] == s[n];
    }
  }

  predicate Clean(t: Tree) {
    t.readable && t.untracked == [] && t.others == 0
  }

  datatype Why = Unconfined | NoDatabase | NameUnknown | InUse | Unclean | NoRepo

  /** `held` is None when the tables could not be read. */
  function WhyKept(t: Tree, root: string, held: Option<set<nat>>): Option<Why> {
    if !Confined(root, t.resolved) then Some(Unconfined)
    else if held.None? then Some(NoDatabase)
    else if !RunIdOf(t.name).Run? then Some(NameUnknown)
    else if RunIdOf(t.name).id in held.value then Some(InUse)
    else if !Clean(t) then Some(Unclean)
    else if OwningRepo(t.gitFile).None? then Some(NoRepo)
    else None
  }

  datatype Plan = Plan(reap: seq<Tree>, keep: seq<(Tree, Why)>)

  function Reaped(ts: seq<Tree>, root: string, held: Option<set<nat>>): seq<Tree> {
    if ts == [] then []
    else
      var before, t := Reaped(ts[..|ts| - 1], root, held), ts[|ts| - 1];
      if t.isDir && WhyKept(t, root, held).None? then before + [t] else before
  }

  lemma {:induction false} ReapedMember(ts: seq<Tree>, root: string, held: Option<set<nat>>, t: Tree)
    ensures t in Reaped(ts, root, held) <==> t in ts && t.isDir && WhyKept(t, root, held).None?
  {
    hide WhyKept;
    if ts != [] {
      ReapedMember(ts[..|ts| - 1], root, held, t);
      assert ts == ts[..|ts| - 1] + [ts[|ts| - 1]];
    }
  }

  function Kept(ts: seq<Tree>, root: string, held: Option<set<nat>>): seq<(Tree, Why)> {
    if ts == [] then []
    else
      var before, t := Kept(ts[..|ts| - 1], root, held), ts[|ts| - 1];
      if t.isDir && WhyKept(t, root, held).Some? then before + [(t, WhyKept(t, root, held).value)] else before
  }

  predicate Nameable(ts: seq<Tree>) {
    forall i :: 0 <= i < |ts| && ts[i].isDir ==> RunIdOf(ts[i].name) != Malformed
  }

  /** `plan_sweep`: every directory is reaped or kept; one name that is no number ends the whole plan. */
  method PlanSweep(ts: seq<Tree>, root: string, held: Option<set<nat>>) returns (plan: Option<Plan>)
    ensures plan.Some? <==> Nameable(ts)
    ensures plan.Some? ==> plan.value == Plan(Reaped(ts, root, held), Kept(ts, root, held))
  {
    hide WhyKept, RunIdOf;
    var reap, keep := [], [];
    for n := 0 to |ts|
      invariant forall i :: 0 <= i < n && ts[i].isDir ==> RunIdOf(ts[i].name) != Malformed
      invariant reap == Reaped(ts[..n], root, held) && keep == Kept(ts[..n], root, held)
    {
      assert ts[..n + 1][..n] == ts[..n];
      if ts[n].isDir {
        if RunIdOf(ts[n].name) == Malformed {
          return None;
        }
        var why := WhyKept(ts[n], root, held);
        if why.None? {
          reap := reap + [ts[n]];
        } else {
          keep := keep + [(ts[n], why.value)];
        }
      }
    }
    assert ts[..|ts|] == ts;
    plan := Some(Plan(reap, keep));
  }

  /** A worktree under the root that git finds unchanged, of a repository that can be told. */
  ghost predicate Harmless(t: Tree, root: string) {
    && (exists rest :: t.resolved == root + "/" + rest)
    && t.readable && t.untracked == [] && t.others == 0 && OwningRepo(t.gitFile).Some?
  }

  lemma ConfinedExact(root: string, path: string)
    ensures Confined(root, path) <==> exists rest :: path == root + "/" + rest
  {
    if Confined(root, path) {
      PrefixSplits(root + "/", path);
    }
    forall rest | path == root + "/" + rest ensures Confined(root, path) {
      assert path[..|root + "/"|] == root + "/" && |path| > |root|;
    }
  }

  lemma HarmlessExact(t: Tree, root: string)
    ensures Harmless(t, root) <==> Confined(root, t.resolved) && Clean(t) && OwningRepo(t.gitFile).Some?
  {
    hide Confined, OwningRepo;
    ConfinedExact(root, t.resolved);
  }

  /**
   * A directory is planned for removal exactly when it is confined, clean, owned, named for a run,
   * and no row of that run holds it.
   */
  lemma ReapedExact(ts: seq<Tree>, root: string, db: Db, alive: set<nat>, now: nat, held: set<nat>, t: Tree)
    requires forall id :: id in held <==> Busy(db, id, alive, now)
    ensures t in Reaped(ts, root, Some(held)) <==>
            && t in ts && t.isDir && Harmless(t, root)
            && exists id: nat :: NamesRun(t.name, id) && !Busy(db, id, alive, now)
  {
    hide Confined, Clean, OwningRepo, RunIdOf, Busy, NamesRun, Harmless;
    ReapedMember(ts, root, Some(held), t);
    HarmlessExact(t, root);
    forall id: nat ensures RunIdOf(t.name) == Run(id) <==> NamesRun(t.name, id) {
      RunIdExact(t.name, id);
    }
  }

  /** A sweep on its own removes a known run's worktree only when there is nothing to lose. */
  lemma ReapedIsSafe(ts: seq<Tree>, root: string, db: Db, alive: set<nat>, now: nat, held: set<nat>, t: Tree, i: nat)
    requires forall id :: id in held <==> Busy(db, id, alive, now)
    requires t in Reaped(ts, root, Some(held))
    requires i < |db.runs| && NamesRun(t.name, db.runs[i].id)
    ensures Harmless(t, root) && Spent(db, db.runs[i], alive, now)
  {
    hide RunIdOf, NamesRun, Harmless, Spent;
    ReapedExact(ts, root, db, alive, now, held, t);
    var id: nat :| NamesRun(t.name, id) && !Busy(db, id, alive, now);
    RunIdExact(t.name, id);
    RunIdExact(t.name, db.runs[i].id);
  }

  /** The worktree of a run that is going on is kept. */
  lemma LiveRunIsKept(ts: seq<Tree>, root: string, db: Db, alive: set<nat>, now: nat, held: set<nat>, t: Tree, i: nat)
    requires forall id :: id in held <==> Busy(db, id, alive, now)
    requires i < |db.runs| && t.name == "run-" + Decimal(db.runs[i].id)
    requires db.runs[i].status == "running" || (db.runs[i].pid != 0 && db.runs[i].pid in alive)
    ensures t !in Reaped(ts, root, Some(held))
  {
    hide Decimal, NamesRun, Harmless, EndedLately;
    ParseDecimal(db.runs[i].id);
    NamedBy(Decimal(db.runs[i].id), db.runs[i].id);
    RunningIsNoEnd();
    if t in Reaped(ts, root, Some(held)) {
      ReapedIsSafe(ts, root, db, alive, now, held, t, i);
    }
  }

  lemma RunningIsNoEnd()
    ensures "running" !in {"done", "failed", "cancelled"}
  {
    assert "running"[0] == 'r' && "done"[0] == 'd' && "failed"[0] == 'f' && "cancelled"[0] == 'c';
  }

  /** Each directory is reaped or kept, never both. */
  lemma {:induction false} EachOnce(ts: seq<Tree>, root: string, held: Option<set<nat>>, t: Tree)
    ensures t in ts && t.isDir <==> t in Reaped(ts, root, held) || exists w :: (t, w) in Kept(ts, root, held)
    ensures !(t in Reaped(ts, root, held) && exists w :: (t, w) in Kept(ts, root, held))
  {
    ReapedMember(ts, root, held, t);
    KeptExact(ts, root, held, t);
    hide WhyKept;
    if t in ts && t.isDir && WhyKept(t, root, held).Some? {
      assert (t, WhyKept(t, root, held).value) in Kept(ts, root, held);
    }
  }

  lemma {:induction false} KeptExact(ts: seq<Tree>, root: string, held: Option<set<nat>>, t: Tree)
    ensures forall w :: (t, w) in Kept(ts, root, held) <==> t in ts && t.isDir && WhyKept(t, root, held) == Some(w)
  {
    hide WhyKept;
    if ts != [] {
      KeptExact(ts[..|ts| - 1], root, held, t);
      assert ts == ts[..|ts| - 1] + [ts[|ts| - 1]];
    }
  }
}
