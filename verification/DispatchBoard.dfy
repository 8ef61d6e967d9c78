// core/wm_store.py, as far as the dispatcher relies on it: tasks, runs and
// reviews, and everything that may happen to them between two of its steps.

module DispatchBoard {
  import opened Text

  datatype TaskStatus = Waiting | Ready | Rework | Claimed | Asking | Ended(how: string)

  /** `held`: approval owned or assigned to the owner, so never dispatched; `age` orders the queue. */
  datatype Task = Task(status: TaskStatus, held: bool, released: bool, age: int) {
    predicate Claimable() {
      (status == Ready || status == Rework) && !held
    }
  }

  datatype RunStatus = Running | Blocked | Over(why: string)

  /** `pid` 0 is no wrapper process. */
  datatype Run = Run(task: nat, status: RunStatus, review: Option<nat>, pid: nat) {
    predicate Live() {
      status == Running
    }
  }

  datatype ReviewStatus = Pending | UnderReview | Closed(verdict: string)

  datatype Review = Review(task: nat, status: ReviewStatus)

  /**
   * The tables, the processes alive among those ever started, and two histories:
   * the blocked runs reopened by an answer, and the runs whose wrapper was started again.
   */
  datatype Board = Board(
    tasks: seq<Task>, runs: seq<Run>, reviews: seq<Review>, alive: set<nat>, lastPid: nat,
    resumed: seq<nat>, relaunched: seq<nat>)

  /** `running_run_count`: work and review runs together. */
  function Live(runs: seq<Run>): nat {
    if runs == [] then 0
    else Live(runs[..|runs| - 1]) + (if runs[|runs| - 1].Live() then 1 else 0)
  }

  lemma OneMoreLive(runs: seq<Run>, n: nat)
    requires |runs| == n + 1
    ensures |set i | 0 <= i < |runs| && runs[i].status == Running| ==
            |set i | 0 <= i < n && runs[..n][i].status == Running| + if runs[n].status == Running then 1 else 0
  {
    var before := set i | 0 <= i < n && runs[..n][i].status == Running;
    var all := set i | 0 <= i < |runs| && runs[i].status == Running;
    forall i ensures i in all <==> i in before || (i == n && runs[n].status == Running) {
    }
    assert all == if runs[n].status == Running then before + {n} else before;
  }

  /** `Live` counts the rows whose status is running. */
  lemma {:induction false} LiveCounts(runs: seq<Run>)
    ensures Live(runs) == |set i | 0 <= i < |runs| && runs[i].status == Running|
  {
    if runs != [] {
      var n := |runs| - 1;
      LiveCounts(runs[..n]);
      OneMoreLive(runs, n);
    }
  }

  function One(runs: seq<Run>, k: nat): nat {
    if k < |runs| && runs[k].Live() then 1 else 0
  }

  lemma {:induction false} LiveUpdate(runs: seq<Run>, i: nat, r: Run)
    requires i < |runs|
    ensures Live(runs[i := r]) == Live(runs) - One(runs, i) + (if r.Live() then 1 else 0)
    ensures One(runs, i) <= Live(runs)
  {
    var n := |runs| - 1;
    if i < n {
      assert runs[i := r][..n] == runs[..n][i := r];
      LiveUpdate(runs[..n], i, r);
    } else {
      assert runs[i := r][..n] == runs[..n];
    }
  }

  /** Slots in use that no answer reopened. */
  function Load(b: Board): int {
    Live(b.runs) - |b.resumed|
  }

  /** The same without run `k`. */
  function LoadBut(b: Board, k: nat): int {
    Load(b) - One(b.runs, k)
  }

  /** References are valid and a review has at most one run, none while it is pending. */
  predicate Ok(b: Board) {
    && (forall i :: 0 <= i < |b.runs| ==> b.runs[i].task < |b.tasks|)
    && (forall i :: 0 <= i < |b.reviews| ==> b.reviews[i].task < |b.tasks|)
    && (forall i :: 0 <= i < |b.runs| && b.runs[i].review.Some? ==>
          b.runs[i].review.value < |b.reviews| && b.reviews[b.runs[i].review.value].status != Pending)
    && (forall i, j :: 0 <= i < j < |b.runs| && b.runs[i].review.Some? ==> b.runs[i].review != b.runs[j].review)
    && (forall i :: 0 <= i < |b.runs| ==> b.runs[i].pid <= b.lastPid)
    && (forall p :: p in b.alive ==> 1 <= p <= b.lastPid)
  }

  // ------------------------------------------------------ what happens elsewhere

  datatype Step =
    | Exit(run: nat, blocked: bool, reviewed: bool)   // the wrapper finalises its run
    | Die(pid: nat)                                   // a process ends without doing so
    | Stop(run: nat)                                  // the owner stops a run
    | Answer(run: nat)                                // the owner answers a blocked run
    | Relaunch(run: nat)                              // its wrapper starts again
    | RelaunchFails(run: nat)
    | Edit(task: nat, status: TaskStatus)             // the owner moves a task
    | Add(added: Task)
    | Verdict(review: nat, verdict: string)

  /** `finish_run`: only a run that is still running is finalised. */
  function Finish(b: Board, run: nat, to: RunStatus): Board
    requires run < |b.runs| && to != Running
  {
    if b.runs[run].Live() then b.(runs := b.runs[run := b.runs[run].(status := to)]) else b
  }

  /** A wrapper is spawned for `run`, under a new process id; no other process ends by it. */
  function SetPid(b: Board, run: nat): (c: Board)
    requires run < |b.runs|
    ensures |c.runs| == |b.runs| && c.alive == b.alive + {c.runs[run].pid}
  {
    var pid := b.lastPid + 1;
    b.(runs := b.runs[run := b.runs[run].(pid := pid)], alive := b.alive + {pid}, lastPid := pid)
  }

  function SetTask(b: Board, t: nat, s: TaskStatus): Board
    requires t < |b.tasks|
  {
    b.(tasks := b.tasks[t := b.tasks[t].(status := s)])
  }

  /** `mark_stalled`. */
  function MarkStalled(b: Board, run: nat): Board
    requires Ok(b) && run < |b.runs|
  {
    var c, t := Finish(b, run, Over("failed")), b.runs[run].task;
    if b.tasks[t].status == Claimed then SetTask(c, t, Ended("stalled")) else c
  }

  predicate IsLatest(b: Board, run: nat) {
    forall i :: run < i < |b.runs| && run < |b.runs| ==> b.runs[i].task != b.runs[run].task
  }

  /** `resume_blocked_run`: the latest run of a task, blocked with it, is running again. */
  predicate Answerable(b: Board, run: nat) {
    && run < |b.runs| && b.runs[run].status == Blocked && b.runs[run].task < |b.tasks|
    && b.tasks[b.runs[run].task].status == Asking && IsLatest(b, run)
  }

  function Reopen(b: Board, run: nat): Board
    requires Answerable(b, run)
  {
    SetTask(b.(runs := b.runs[run := b.runs[run].(status := Running)], resumed := b.resumed + [run]),
            b.runs[run].task, Claimed)
  }

  function ExitRun(b: Board, run: nat, blocked: bool, reviewed: bool): Board
    requires Ok(b) && run < |b.runs|
  {
    if !b.runs[run].Live() then b
    else
      var c := Finish(b, run, if blocked then Blocked else Over("done"));
      var t := b.runs[run].task;
      var d := SetTask(c, t, if blocked then Asking else Ended("done"));
      if reviewed && !blocked then d.(reviews := d.reviews + [Review(t, Pending)]) else d
  }

  function Happen(b: Board, s: Step): Board
    requires Ok(b)
  {
    match s
    case Exit(run, blocked, reviewed) => if run < |b.runs| then ExitRun(b, run, blocked, reviewed) else b
    case Die(pid) => b.(alive := b.alive - {pid})
    case Stop(run) => if run < |b.runs| then MarkStalled(b, run) else b
    case Answer(run) => if Answerable(b, run) then Reopen(b, run) else b
    case Relaunch(run) => if run < |b.runs| then SetPid(b.(relaunched := b.relaunched + [run]), run) else b
    case RelaunchFails(run) =>
      if run < |b.runs| then SetTask(Finish(b, run, Over("failed")), b.runs[run].task, Ended("failed")) else b
    case Edit(task, status) => if task < |b.tasks| then SetTask(b, task, status) else b
    case Add(added) => b.(tasks := b.tasks + [added])
    case Verdict(review, verdict) =>
      if review < |b.reviews| then b.(reviews := b.reviews[review := b.reviews[review].(status := Closed(verdict))])
          else b
  }

  // ---------------------------------------------------- what never goes backwards

  function Since<T>(a: seq<T>, b: seq<T>): seq<T>
    requires a <= b
  {
    b[|a|..]
  }

  /**
   * Run `i` is for what it was for, and running only if it was or an answer reopened it; its
   * process is the same unless it was relaunched.
   */
  predicate RunKept(b: Board, c: Board, i: nat)
    requires b.resumed <= c.resumed && b.relaunched <= c.relaunched && i < |b.runs| && i < |c.runs|
  {
    && c.runs[i].task == b.runs[i].task
    && c.runs[i].review == b.runs[i].review
    && (c.runs[i].Live() ==> b.runs[i].Live() || i in Since(b.resumed, c.resumed))
    && (c.runs[i].pid != b.runs[i].pid ==> i in Since(b.relaunched, c.relaunched))
  }

  /** From `b` on, whoever acted. */
  predicate Later(b: Board, c: Board) {
    && |b.runs| <= |c.runs| && |b.tasks| <= |c.tasks| && |b.reviews| <= |c.reviews|
    && b.resumed <= c.resumed && b.relaunched <= c.relaunched
    && b.lastPid <= c.lastPid && (forall p :: p <= b.lastPid && p in c.alive ==> p in b.alive)
    && (forall i :: 0 <= i < |b.runs| ==> RunKept(b, c, i))
    && (forall v :: 0 <= v < |b.reviews| && b.reviews[v].status != Pending ==> c.reviews[v].status != Pending)
  }

  /** What others do starts no run and takes no slot that an answer does not account for. */
  ghost predicate Elsewhere(b: Board, c: Board) {
    && Ok(c) && Later(b, c) && |c.runs| == |b.runs|
    && Load(c) <= Load(b) && (forall k: nat :: LoadBut(c, k) <= LoadBut(b, k))
  }

  lemma SinceTransitive<T>(a: seq<T>, b: seq<T>, c: seq<T>)
    requires a <= b <= c
    ensures a <= c && Since(a, c) == Since(a, b) + Since(b, c)
  {
  }

  lemma LaterTransitive(a: Board, b: Board, c: Board)
    requires Later(a, b) && Later(b, c)
    ensures Later(a, c)
  {
    hide Since, RunKept;
    SinceTransitive(a.resumed, b.resumed, c.resumed);
    SinceTransitive(a.relaunched, b.relaunched, c.relaunched);
    forall i | 0 <= i < |a.runs| ensures RunKept(a, c, i) {
      assert RunKept(a, b, i) && RunKept(b, c, i);
      RunKeptTransitive(a, b, c, i);
    }
  }

  lemma RunKeptTransitive(a: Board, b: Board, c: Board, i: nat)
    requires a.resumed <= b.resumed <= c.resumed && a.relaunched <= b.relaunched <= c.relaunched
    requires i < |a.runs| && i < |b.runs| && i < |c.runs| && RunKept(a, b, i) && RunKept(b, c, i)
    ensures RunKept(a, c, i)
  {
    hide Since;
    SinceTransitive(a.resumed, b.resumed, c.resumed);
    SinceTransitive(a.relaunched, b.relaunched, c.relaunched);
  }

  lemma ElsewhereTransitive(a: Board, b: Board, c: Board)
    requires Elsewhere(a, b) && Elsewhere(b, c)
    ensures Elsewhere(a, c)
  {
    hide Ok, Later, LoadBut;
    LaterTransitive(a, b, c);
    LaterLengths(a, b);
    forall k: nat ensures LoadBut(c, k) <= LoadBut(a, k) {
      assert LoadBut(b, k) <= LoadBut(a, k);
    }
  }

  lemma LaterLengths(a: Board, b: Board)
    requires Later(a, b)
    ensures |a.runs| <= |b.runs|
  {
  }

  // ------------------------------------------------------------ each step alone

  /** Only run `run` changes, and it is not running afterwards unless it was. */
  lemma RunChanged(b: Board, c: Board, run: nat, r: Run)
    requires Ok(b) && run < |b.runs| && c == b.(runs := b.runs[run := r])
    requires r.task == b.runs[run].task && r.review == b.runs[run].review && r.pid == b.runs[run].pid
    requires r.Live() ==> b.runs[run].Live()
    ensures Elsewhere(b, c)
  {
    LiveUpdate(b.runs, run, r);
    hide Live;
    assert Since(b.resumed, c.resumed) == [] && Since(b.relaunched, c.relaunched) == [];
  }

  lemma FinishElsewhere(b: Board, run: nat, to: RunStatus)
    requires Ok(b) && run < |b.runs| && to != Running
    ensures Elsewhere(b, Finish(b, run, to))
  {
    hide Ok, Elsewhere, Live;
    if b.runs[run].Live() {
      RunChanged(b, Finish(b, run, to), run, b.runs[run].(status := to));
    } else {
      Unchanged(b);
    }
  }

  lemma Unchanged(b: Board)
    requires Ok(b)
    ensures Elsewhere(b, b)
  {
    hide Ok, Live;
    assert Since(b.resumed, b.resumed) == [] && Since(b.relaunched, b.relaunched) == [];
  }

  /** Steps that leave runs, answers and processes alone. */
  lemma RunsAlone(b: Board, c: Board)
    requires Ok(b) && Ok(c) && c.runs == b.runs && c.resumed == b.resumed && c.relaunched == b.relaunched
    requires c.alive <= b.alive && c.lastPid == b.lastPid
    requires |b.tasks| <= |c.tasks| && |b.reviews| <= |c.reviews|
    requires forall v :: 0 <= v < |b.reviews| && b.reviews[v].status != Pending ==> c.reviews[v].status != Pending
    ensures Elsewhere(b, c)
  {
    hide Ok, Live;
    assert Since(b.resumed, c.resumed) == [] && Since(b.relaunched, c.relaunched) == [];
  }

  lemma SetTaskElsewhere(b: Board, t: nat, s: TaskStatus)
    requires Ok(b) && t < |b.tasks|
    ensures Elsewhere(b, SetTask(b, t, s))
  {
    hide Elsewhere, Live;
    RunsAlone(b, SetTask(b, t, s));
  }

  lemma AddReviewElsewhere(b: Board, t: nat)
    requires Ok(b) && t < |b.tasks|
    ensures Elsewhere(b, b.(reviews := b.reviews + [Review(t, Pending)]))
  {
    hide Elsewhere, Live;
    RunsAlone(b, b.(reviews := b.reviews + [Review(t, Pending)]));
  }

  lemma SetReviewElsewhere(b: Board, v: nat, s: ReviewStatus)
    requires Ok(b) && v < |b.reviews| && s != Pending
    ensures Elsewhere(b, b.(reviews := b.reviews[v := b.reviews[v].(status := s)]))
  {
    hide Elsewhere, Live;
    RunsAlone(b, b.(reviews := b.reviews[v := b.reviews[v].(status := s)]));
  }

  lemma ReopenElsewhere(b: Board, run: nat)
    requires Ok(b) && Answerable(b, run)
    ensures Elsewhere(b, Reopen(b, run))
  {
    var c := Reopen(b, run);
    LiveUpdate(b.runs, run, b.runs[run].(status := Running));
    hide Live, IsLatest;
    assert Since(b.resumed, c.resumed) == [run] && Since(b.relaunched, c.relaunched) == [];
  }

  lemma SetPidOk(b: Board, run: nat)
    requires Ok(b) && run < |b.runs|
    ensures Ok(SetPid(b, run))
  {
  }

  lemma RelaunchLater(b: Board, run: nat)
    requires Ok(b) && run < |b.runs|
    ensures Later(b, SetPid(b.(relaunched := b.relaunched + [run]), run))
  {
    var c := SetPid(b.(relaunched := b.relaunched + [run]), run);
    assert Since(b.resumed, c.resumed) == [] && Since(b.relaunched, c.relaunched) == [run];
  }

  lemma RelaunchElsewhere(b: Board, run: nat)
    requires Ok(b) && run < |b.runs|
    ensures Elsewhere(b, SetPid(b.(relaunched := b.relaunched + [run]), run))
  {
    hide Ok, Later, Live;
    LiveUpdate(b.runs, run, b.runs[run].(pid := b.lastPid + 1));
    RelaunchedOk(b, run);
    SetPidOk(b.(relaunched := b.relaunched + [run]), run);
    RelaunchLater(b, run);
  }

  lemma RelaunchedOk(b: Board, run: nat)
    requires Ok(b)
    ensures Ok(b.(relaunched := b.relaunched + [run]))
  {
  }

  lemma MarkStalledElsewhere(b: Board, run: nat)
    requires Ok(b) && run < |b.runs|
    ensures Elsewhere(b, MarkStalled(b, run))
  {
    hide Ok, Elsewhere, Finish, SetTask;
    var c, t := Finish(b, run, Over("failed")), b.runs[run].task;
    FinishElsewhere(b, run, Over("failed"));
    FinishKeepsTasks(b, run, Over("failed"));
    TaskOfRun(b, run);
    if b.tasks[t].status == Claimed {
      ElsewhereOk(b, c);
      SetTaskElsewhere(c, t, Ended("stalled"));
      ElsewhereTransitive(b, c, MarkStalled(b, run));
    }
  }

  lemma FinishKeepsTasks(b: Board, run: nat, to: RunStatus)
    requires run < |b.runs| && to != Running
    ensures Finish(b, run, to).tasks == b.tasks && Finish(b, run, to).reviews == b.reviews
  {
  }

  lemma TaskOfRun(b: Board, run: nat)
    requires Ok(b) && run < |b.runs|
    ensures b.runs[run].task < |b.tasks|
  {
  }

  lemma ElsewhereOk(b: Board, c: Board)
    requires Elsewhere(b, c)
    ensures Ok(c)
  {
    hide Ok, Later, Load;
  }

  lemma EndRunElsewhere(b: Board, run: nat, to: RunStatus, s: TaskStatus)
    requires Ok(b) && run < |b.runs| && to != Running
    ensures b.runs[run].task < |Finish(b, run, to).tasks|
    ensures Elsewhere(b, SetTask(Finish(b, run, to), b.runs[run].task, s))
  {
    hide Ok, Elsewhere, Finish, SetTask;
    var c, t := Finish(b, run, to), b.runs[run].task;
    FinishElsewhere(b, run, to);
    FinishKeepsTasks(b, run, to);
    TaskOfRun(b, run);
    ElsewhereOk(b, c);
    SetTaskElsewhere(c, t, s);
    ElsewhereTransitive(b, c, SetTask(c, t, s));
  }

  lemma ExitElsewhere(b: Board, run: nat, blocked: bool, reviewed: bool)
    requires Ok(b) && run < |b.runs|
    ensures Elsewhere(b, ExitRun(b, run, blocked, reviewed))
  {
    hide Ok, Elsewhere, Finish;
    if !b.runs[run].Live() {
      Unchanged(b);
    } else {
      var to, t := if blocked then Blocked else Over("done"), b.runs[run].task;
      var s := if blocked then Asking else Ended("done");
      EndRunElsewhere(b, run, to, s);
      var d := SetTask(Finish(b, run, to), t, s);
      if reviewed && !blocked {
        ElsewhereOk(b, d);
        AddReviewElsewhere(d, t);
        ElsewhereTransitive(b, d, ExitRun(b, run, blocked, reviewed));
      }
    }
  }

  lemma AddElsewhere(b: Board, added: Task)
    requires Ok(b)
    ensures Elsewhere(b, b.(tasks := b.tasks + [added]))
  {
    hide Elsewhere, Live;
    RunsAlone(b, b.(tasks := b.tasks + [added]));
  }

  lemma DieElsewhere(b: Board, pid: nat)
    requires Ok(b)
    ensures Elsewhere(b, b.(alive := b.alive - {pid}))
  {
    hide Elsewhere, Live;
    RunsAlone(b, b.(alive := b.alive - {pid}));
  }

  /** Whatever happens elsewhere starts no run, frees or keeps slots, and never touches a decided review. */
  lemma StepElsewhere(b: Board, s: Step)
    requires Ok(b)
    ensures Elsewhere(b, Happen(b, s))
  {
    hide Ok, Elsewhere, Answerable, Finish, SetTask, SetPid, Reopen, ExitRun, MarkStalled;
    Unchanged(b);
    match s
    case Exit(run, blocked, reviewed) => if run < |b.runs| { ExitElsewhere(b, run, blocked, reviewed); }
    case Die(pid) => DieElsewhere(b, pid);
    case Stop(run) => if run < |b.runs| { MarkStalledElsewhere(b, run); }
    case Answer(run) => if Answerable(b, run) { ReopenElsewhere(b, run); }
    case Relaunch(run) => if run < |b.runs| { RelaunchElsewhere(b, run); }
    case RelaunchFails(run) => if run < |b.runs| { EndRunElsewhere(b, run, Over("failed"), Ended("failed")); }
    case Edit(task, status) => if task < |b.tasks| { SetTaskElsewhere(b, task, status); }
    case Add(added) => AddElsewhere(b, added);
    case Verdict(review, verdict) => if review < |b.reviews| { SetReviewElsewhere(b, review, Closed(verdict)); }
  }

  /** The run is running again and its task claimed, if it was the last for a task that asks; else nothing. */
  predicate Answered(b: Board, c: Board, run: nat) {
    if run < |b.runs| && b.runs[run].status == Blocked && b.runs[run].task < |b.tasks|
       && b.tasks[b.runs[run].task].status == Asking
       && !exists j :: run < j < |b.runs| && b.runs[j].task == b.runs[run].task
    then
      var t := b.runs[run].task;
      && c.runs == b.runs[run := b.runs[run].(status := Running)]
      && c.tasks == b.tasks[t := b.tasks[t].(status := Claimed)] && c.resumed == b.resumed + [run]
      && c.reviews == b.reviews && c.alive == b.alive
    else c == b
  }

  /** A wrapper ends its run and the run's task with it, once; a finished one may ask for a review. */
  predicate Exited(b: Board, c: Board, run: nat, blocked: bool, reviewed: bool)
    requires Ok(b)
  {
    if run < |b.runs| && b.runs[run].status == Running then
      var t := b.runs[run].task;
      && c.runs == b.runs[run := b.runs[run].(status := if blocked then Blocked else Over("done"))]
      && c.tasks == b.tasks[t := b.tasks[t].(status := if blocked then Asking else Ended("done"))]
      && c.reviews == b.reviews + (if reviewed && !blocked then [Review(t, Pending)] else [])
      && c.alive == b.alive && c.resumed == b.resumed
    else c == b
  }

  /** The owner stops a run: it fails if it was running, and a task still claimed stalls. */
  predicate Stopped(b: Board, c: Board, run: nat)
    requires Ok(b)
  {
    if run < |b.runs| then
      var r, t := b.runs[run], b.runs[run].task;
      && c.runs == b.runs[run := if r.status == Running then r.(status := Over("failed")) else r]
      && c.tasks == b.tasks[t := if b.tasks[t].status == Claimed then b.tasks[t].(status := Ended("stalled"))
                                 else b.tasks[t]]
      && c.reviews == b.reviews && c.alive == b.alive && c.resumed == b.resumed
    else c == b
  }

  /** What the steps of others come to. */
  lemma StepEffect(b: Board, s: Step)
    requires Ok(b)
    ensures var c := Happen(b, s);
            match s
            case Exit(run, blocked, reviewed) => Exited(b, c, run, blocked, reviewed)
            case Die(pid) => c == b.(alive := b.alive - {pid})
            case Stop(run) => Stopped(b, c, run)
            case Answer(run) => Answered(b, c, run)
            case Relaunch(run) =>
              run < |b.runs| ==> |c.runs| == |b.runs| && c.runs[run].pid in c.alive && b.alive <= c.alive
            case RelaunchFails(run) =>
              run < |b.runs| ==>
                && |c.runs| == |b.runs| && c.runs[run].status != Running
                && |c.tasks| == |b.tasks| && c.tasks[b.runs[run].task].status == Ended("failed")
            case Edit(task, status) =>
              task < |b.tasks| ==> c == b.(tasks := b.tasks[task := b.tasks[task].(status := status)])
            case Add(added) => c == b.(tasks := b.tasks + [added])
            case Verdict(review, verdict) =>
              review < |b.reviews| ==>
                c == b.(reviews := b.reviews[review := Review(b.reviews[review].task, Closed(verdict))])
  {
  }

  function HappenAll(b: Board, steps: seq<Step>): (c: Board)
    requires Ok(b)
    ensures Elsewhere(b, c)
  {
    if steps == [] then Unchanged(b); b
    else
      var c := HappenAll(b, steps[..|steps| - 1]);
      StepElsewhere(c, steps[|steps| - 1]);
      ElsewhereTransitive(b, c, Happen(c, steps[|steps| - 1]));
      Happen(c, steps[|steps| - 1])
  }
}
