// core/wm_dispatch.py: one tick of the dispatcher, with anything the wrappers
// and the owner may do happening between any two of its steps.

module Dispatch {
  import opened Text
  import opened DispatchBoard
  import opened DispatchTrace

  datatype Summary = Summary(
    skipped: bool, paused: bool, running: nat, ready: nat,
    dispatched: seq<nat>, reviewed: seq<nat>, stalled: seq<nat>)

  const NOTHING := Summary(false, false, 0, 0, [], [], [])

  function Max(a: int, b: int): int {
    if a < b then b else a
  }

  /** Every run started since `b` that is running has been reported or was reopened by an answer. */
  predicate NewShown(b: Board, c: Board, shown: seq<nat>)
    requires b.resumed <= c.resumed
  {
    forall i :: |b.runs| <= i < |c.runs| && c.runs[i].Live() ==> i in shown || i in Since(b.resumed, c.resumed)
  }

  /** Where a tick that began at `b` stands. */
  predicate Ticking(b: Board, c: Board, shown: seq<nat>) {
    Ok(c) && Later(b, c) && NewShown(b, c, shown)
  }

  lemma NewShownElsewhere(b: Board, c: Board, d: Board, shown: seq<nat>)
    requires Later(b, c) && Later(c, d) && |c.runs| == |d.runs| && NewShown(b, c, shown)
    ensures b.resumed <= d.resumed && NewShown(b, d, shown)
  {
    hide Since;
    SinceTransitive(b.resumed, c.resumed, d.resumed);
    forall i | |b.runs| <= i < |d.runs| && d.runs[i].Live() ensures i in shown || i in Since(b.resumed, d.resumed) {
      assert RunKept(c, d, i);
    }
  }

  lemma TickingElsewhere(b: Board, c: Board, d: Board, shown: seq<nat>)
    requires Ticking(b, c, shown) && Elsewhere(c, d)
    ensures Ticking(b, d, shown)
  {
    hide Ok, Later, NewShown, Load, LoadBut;
    LaterTransitive(b, c, d);
    NewShownElsewhere(b, c, d, shown);
  }

  /** Two stretches of a tick make one. */
  lemma TickingCompose(from: Board, b: Board, c: Board, shown: seq<nat>, more: seq<nat>)
    requires Ticking(from, b, shown) && Ticking(b, c, more)
    ensures Ticking(from, c, shown + more)
  {
    hide Ok, Since;
    LaterTransitive(from, b, c);
    SinceTransitive(from.resumed, b.resumed, c.resumed);
    forall i | |from.runs| <= i < |c.runs| && c.runs[i].Live()
      ensures i in shown + more || i in Since(from.resumed, c.resumed)
    {
      if i < |b.runs| {
        assert RunKept(b, c, i);
      }
    }
  }

  /** The runs are for different tasks. */
  predicate OneTaskEach(c: Board, runs: seq<nat>) {
    && (forall i :: 0 <= i < |runs| ==> runs[i] < |c.runs|)
    && (forall i, j :: 0 <= i < j < |runs| ==> c.runs[runs[i]].task != c.runs[runs[j]].task)
  }

  /** The runs are for different tasks of the queue. */
  predicate FromQueue(c: Board, runs: seq<nat>, queue: seq<nat>) {
    OneTaskEach(c, runs) && forall i :: 0 <= i < |runs| ==> c.runs[runs[i]].task in queue
  }

  lemma FromQueueLater(b: Board, c: Board, runs: seq<nat>, queue: seq<nat>)
    requires FromQueue(b, runs, queue) && Later(b, c)
    ensures FromQueue(c, runs, queue)
  {
    hide Since;
    forall i | 0 <= i < |runs| ensures runs[i] < |b.runs| && RunKept(b, c, runs[i]) {
      assert runs[i] < |b.runs|;
    }
  }

  lemma FromQueueNext(b: Board, c: Board, runs: seq<nat>, queue: seq<nat>, n: nat, run: nat)
    requires n < |queue| && Distinct(queue) && FromQueue(b, runs, queue[..n]) && Later(b, c)
    requires run < |c.runs| && c.runs[run].task == queue[n]
    ensures FromQueue(c, runs + [run], queue[..n + 1])
  {
    FromQueueLater(b, c, runs, queue[..n]);
    hide Later;
    assert queue[..n + 1] == queue[..n] + [queue[n]];
  }

  lemma NoneYet(c: Board, queue: seq<nat>)
    ensures FromQueue(c, [], queue[..0]) && ForTasks(c, queue, []) && ForReviews(c, queue, [])
  {
  }

  lemma FromQueueMore(c: Board, runs: seq<nat>, queue: seq<nat>, n: nat)
    requires n < |queue| && FromQueue(c, runs, queue[..n])
    ensures FromQueue(c, runs, queue[..n + 1])
  {
    assert queue[..n + 1] == queue[..n] + [queue[n]];
  }

  lemma FromQueueAll(c: Board, runs: seq<nat>, queue: seq<nat>, n: nat)
    requires n <= |queue| && FromQueue(c, runs, queue[..n])
    ensures FromQueue(c, runs, queue)
  {
    assert queue == queue[..n] + queue[n..];
  }

  lemma OneTaskEachLater(b: Board, c: Board, runs: seq<nat>, more: seq<nat>)
    requires OneTaskEach(b, runs + more) && Later(b, c)
    ensures OneTaskEach(c, runs)
  {
    hide Since;
    assert forall i :: 0 <= i < |runs| ==> (runs + more)[i] == runs[i];
    forall i | 0 <= i < |runs| ensures runs[i] < |b.runs| && RunKept(b, c, runs[i]) {
      assert (runs + more)[i] < |b.runs|;
    }
  }

  /** The run has no process, unless someone relaunched it since. */
  predicate WithoutProcess(from: Board, c: Board, run: nat) {
    && from.relaunched <= c.relaunched && run < |c.runs|
    && (c.runs[run].pid == 0 || run in Since(from.relaunched, c.relaunched))
  }

  lemma JustStarted(from: Board, b: Board, t: nat, shown: seq<nat>)
    requires Ticking(from, b, shown)
    ensures WithoutProcess(from, Start(b, t), |b.runs|)
  {
    hide Ok, RunKept, NewShown, Since;
  }

  lemma NoProcess(from: Board, b: Board, c: Board, run: nat)
    requires WithoutProcess(from, b, run) && Elsewhere(b, c)
    ensures WithoutProcess(from, c, run)
  {
    hide Ok, Load, LoadBut, Since;
    SinceTransitive(from.relaunched, b.relaunched, c.relaunched);
    assert RunKept(b, c, run);
  }

  lemma WithoutProcessSince(from: Board, b: Board, c: Board, run: nat)
    requires Later(from, b) && WithoutProcess(b, c, run)
    ensures WithoutProcess(from, c, run)
  {
    hide Since, RunKept;
    SinceTransitive(from.relaunched, b.relaunched, c.relaunched);
  }

  lemma {:induction false} LiveAppend(runs: seq<Run>, r: Run)
    ensures Live(runs + [r]) == Live(runs) + (if r.Live() then 1 else 0)
  {
    assert (runs + [r])[..|runs|] == runs;
  }

  /** Acting on runs started since `from` only. */
  lemma LaterSame(from: Board, b: Board, c: Board)
    requires Later(from, b) && |from.runs| <= |c.runs|
    requires forall i :: 0 <= i < |from.runs| ==> c.runs[i] == b.runs[i]
    requires c.resumed == b.resumed && c.relaunched == b.relaunched && c.tasks == b.tasks && c.reviews == b.reviews
    requires b.lastPid <= c.lastPid && forall p :: p <= b.lastPid && p in c.alive ==> p in b.alive
    ensures Later(from, c)
  {
    hide Since;
    forall i | 0 <= i < |from.runs| ensures RunKept(from, c, i) {
      assert RunKept(from, b, i);
    }
  }

  /** Starting a run takes one slot. */
  lemma StartTicks(from: Board, b: Board, t: nat, shown: seq<nat>)
    requires Ticking(from, b, shown) && t < |b.tasks|
    ensures var c := Start(b, t);
            && Ticking(from, c, shown + [|b.runs|]) && Load(c) == Load(b) + 1 && LoadBut(c, |b.runs|) == Load(b)
  {
    hide Ok, Live;
    StartOk(b, t);
    LaterSame(from, b, Start(b, t));
    LiveAppend(b.runs, Run(t, Running, None, 0));
  }

  lemma SetPidTicks(from: Board, b: Board, run: nat, shown: seq<nat>)
    requires Ticking(from, b, shown) && |from.runs| <= run < |b.runs|
    ensures var c := SetPid(b, run);
            Ticking(from, c, shown) && LoadBut(c, run) == LoadBut(b, run) && Load(c) == Load(b)
  {
    hide Live, Since;
    SetPidOk(b, run);
    LaterSame(from, b, SetPid(b, run));
    LiveUpdate(b.runs, run, b.runs[run].(pid := b.lastPid + 1));
  }

  /** Taking back a run that never got its wrapper: its slot is free again. */
  lemma GiveUpTicks(from: Board, b: Board, run: nat, shown: seq<nat>)
    requires Ticking(from, b, shown + [run]) && |from.runs| <= run < |b.runs|
    ensures var c := Finish(b, run, Over("failed"));
            Ticking(from, c, shown) && !c.runs[run].Live() && Load(c) == LoadBut(b, run)
  {
    hide Ok, Live, Later, Elsewhere;
    FinishElsewhere(b, run, Over("failed"));
    var c := Finish(b, run, Over("failed"));
    LiveUpdate(b.runs, run, b.runs[run].(status := Over("failed")));
    TickingElsewhere(from, b, c, shown + [run]);
    Dropped(from, c, shown, run);
  }

  lemma Dropped(from: Board, c: Board, shown: seq<nat>, run: nat)
    requires Ticking(from, c, shown + [run]) && run < |c.runs| && !c.runs[run].Live()
    ensures Ticking(from, c, shown)
  {
    hide Ok, Later, Since;
    LaterResumed(from, c);
  }

  lemma LaterResumed(b: Board, c: Board)
    requires Later(b, c)
    ensures b.resumed <= c.resumed
  {
  }

  lemma SetRunReviewTicks(from: Board, b: Board, run: nat, v: nat, shown: seq<nat>)
    requires Ticking(from, b, shown) && |from.runs| <= run < |b.runs|
    requires v < |b.reviews| && b.reviews[v].status != Pending && Unreviewed(b, v)
    ensures var c := SetRunReview(b, run, v);
            Ticking(from, c, shown) && LoadBut(c, run) == LoadBut(b, run) && Load(c) == Load(b)
  {
    hide Live, Since;
    LiveUpdate(b.runs, run, b.runs[run].(review := Some(v)));
    SetRunReviewOk(b, run, v);
    LaterSame(from, b, SetRunReview(b, run, v));
  }

  lemma TickingMeans(from: Board, b: Board, shown: seq<nat>)
    requires Ticking(from, b, shown)
    ensures Ok(b) && Later(from, b) && |from.runs| <= |b.runs| && from.resumed <= b.resumed
  {
    hide Ok, RunKept, NewShown;
  }

  /** Running, with a process already dead. */
  predicate Orphan(b: Board, i: nat)
    requires i < |b.runs|
  {
    b.runs[i].Live() && b.runs[i].pid !in b.alive
  }

  /** A run is no longer running, unless it was reopened or relaunched since. */
  predicate Freed(b: Board, c: Board, i: nat)
    requires i < |b.runs| && i < |c.runs| && b.resumed <= c.resumed && b.relaunched <= c.relaunched
  {
    c.runs[i].Live() ==> i in Since(b.resumed, c.resumed) || i in Since(b.relaunched, c.relaunched)
  }

  // ------------------------------------------------------------------ the queue

  /** `t` waits its turn outside `r`. */
  predicate Waits(tasks: seq<Task>, r: seq<nat>, t: nat) {
    t < |tasks| && tasks[t].Claimable() && t !in r
  }

  ghost predicate Queue(tasks: seq<Task>, r: seq<nat>) {
    && (forall i :: 0 <= i < |r| ==> r[i] < |tasks| && tasks[r[i]].Claimable())
    && (forall i, j :: 0 <= i < j < |r| ==> r[i] != r[j] && tasks[r[i]].age <= tasks[r[j]].age)
    && (forall i, t: nat :: 0 <= i < |r| && Waits(tasks, r, t) ==> tasks[r[i]].age <= tasks[t].age)
  }

  /** The oldest task that waits outside `r`, if any does. */
  method OldestWaiting(tasks: seq<Task>, r: seq<nat>) returns (best: Option<nat>)
    ensures best.None? ==> forall t: nat :: !Waits(tasks, r, t)
    ensures best.Some? ==> Waits(tasks, r, best.value) &&
                           forall t: nat :: Waits(tasks, r, t) ==> tasks[best.value].age <= tasks[t].age
  {
    best := None;
    for t := 0 to |tasks|
      invariant best.None? ==> forall u :: 0 <= u < t ==> !Waits(tasks, r, u)
      invariant best.Some? ==> Waits(tasks, r, best.value) &&
                               forall u :: 0 <= u < t && Waits(tasks, r, u) ==> tasks[best.value].age <= tasks[u].age
    {
      if tasks[t].Claimable() && t !in r && (best.None? || tasks[t].age < tasks[best.value].age) {
        best := Some(t);
      }
    }
  }

  /** `next_ready_tasks`: the oldest claimable tasks, at most `limit`, and all of them when fewer. */
  method NextReady(tasks: seq<Task>, limit: nat) returns (r: seq<nat>)
    ensures Queue(tasks, r) && |r| <= limit
    ensures |r| < limit ==> forall t: nat :: !Waits(tasks, r, t)
  {
    r := [];
    while |r| < limit
      invariant Queue(tasks, r) && |r| <= limit
      decreases limit - |r|
    {
      var best := OldestWaiting(tasks, r);
      if best.None? {
        return;
      }
      QueueGrows(tasks, r, best.value);
      r := r + [best.value];
    }
  }

  lemma QueueGrows(tasks: seq<Task>, r: seq<nat>, t: nat)
    requires Queue(tasks, r) && Waits(tasks, r, t)
    requires forall u: nat :: Waits(tasks, r, u) ==> tasks[t].age <= tasks[u].age
    ensures Queue(tasks, r + [t])
  {
    hide Task.Claimable;
    var q := r + [t];
    forall u: nat | Waits(tasks, q, u) ensures Waits(tasks, r, u) {
    }
  }

  method PendingReviews(reviews: seq<Review>) returns (r: seq<nat>)
    ensures forall i :: 0 <= i < |r| ==> r[i] < |reviews|
    ensures forall v: nat :: v in r <==> v < |reviews| && reviews[v].status == Pending
  {
    r := [];
    for v := 0 to |reviews|
      invariant forall i :: 0 <= i < |r| ==> r[i] < v
      invariant forall u: nat :: u in r <==> u < v && reviews[u].status == Pending
    {
      if reviews[v].status == Pending {
        r := r + [v];
      }
    }
  }

  method RunningRuns(runs: seq<Run>) returns (r: seq<nat>)
    ensures forall i :: 0 <= i < |r| ==> r[i] < |runs|
    ensures forall i: nat :: i in r <==> i < |runs| && runs[i].Live()
  {
    r := [];
    for k := 0 to |runs|
      invariant forall i :: 0 <= i < |r| ==> r[i] < k
      invariant forall i: nat :: i in r <==> i < k && runs[i].Live()
    {
      if runs[k].Live() {
        r := r + [k];
      }
    }
  }

  /** The oldest claimable tasks, `n` of them if there are so many. */
  ghost predicate IsQueue(tasks: seq<Task>, queue: seq<nat>, n: nat) {
    Queue(tasks, queue) && |queue| <= n && (|queue| < n ==> forall t: nat :: !Waits(tasks, queue, t))
  }

  ghost predicate IsPending(reviews: seq<Review>, pending: seq<nat>) {
    && (forall i :: 0 <= i < |pending| ==> pending[i] < |reviews|)
    && (forall v: nat :: v in pending <==> v < |reviews| && reviews[v].status == Pending)
  }

  /** Each run is for the candidate that was picked for it. */
  predicate ForTasks(c: Board, queue: seq<nat>, picks: seq<Pick>) {
    forall i :: 0 <= i < |picks| ==>
      picks[i].turn < |queue| && picks[i].run < |c.runs| && c.runs[picks[i].run].task == queue[picks[i].turn]
  }

  predicate ForReviews(c: Board, pending: seq<nat>, picks: seq<Pick>) {
    forall i :: 0 <= i < |picks| ==>
      && picks[i].turn < |pending| && picks[i].run < |c.runs|
      && c.runs[picks[i].run].review == Some(pending[picks[i].turn])
  }

  lemma PicksLater(b: Board, c: Board, candidates: seq<nat>, picks: seq<Pick>)
    requires Later(b, c)
    ensures ForTasks(b, candidates, picks) ==> ForTasks(c, candidates, picks)
    ensures ForReviews(b, candidates, picks) ==> ForReviews(c, candidates, picks)
  {
    hide Ok, Since;
    forall i | 0 <= i < |picks| && picks[i].run < |b.runs| ensures RunKept(b, c, picks[i].run) {
    }
  }

  lemma PicksNext(c: Board, candidates: seq<nat>, picks: seq<Pick>, pick: Pick)
    requires pick.turn < |candidates| && pick.run < |c.runs|
    ensures ForTasks(c, candidates, picks) && c.runs[pick.run].task == candidates[pick.turn] ==>
              ForTasks(c, candidates, picks + [pick])
    ensures ForReviews(c, candidates, picks) && c.runs[pick.run].review == Some(candidates[pick.turn]) ==>
              ForReviews(c, candidates, picks + [pick])
  {
  }

  /**
   * Steps 3 and 4 from `p`: the slots are counted when the next step is taken, the queue is read
   * at the one after, and then each candidate is claimed in turn, on the board of that moment.
   */
  ghost predicate WorkDone(p: Point, cap: int, running: nat, queue: seq<nat>, dispatched: seq<nat>,
                           lost: Option<nat>, c: Board)
    requires Ok(p.board)
  {
    var count := Next(p);
    var read := Next(count);
    && running == Live(count.board.runs)
    && IsQueue(read.board.tasks, queue, Max(0, cap - running)) && InTasks(read.board, queue)
    && var work := Work(read, queue);
       && dispatched == RunsOf(work.up) && lost == work.LostRun()
       && ForTasks(c, queue, work.Picks()) && forall k :: k in work.Picks() ==> ClaimedRightly(read, queue, k)
  }

  /** Step 4b from `p`: the slots are counted again, the reviews are read, and each is claimed in turn. */
  ghost predicate ReviewsDone(p: Point, cap: int, pending: seq<nat>, reviewed: seq<nat>, lost: Option<nat>, c: Board)
    requires Ok(p.board)
  {
    var count := Next(p);
    var read := Next(count);
    var free := Max(0, cap - Live(count.board.runs));
    && IsPending(read.board.reviews, pending) && InReviews(read.board, pending)
    && var r := Reviews(read, pending, free);
       && reviewed == RunsOf(r.up) && lost == r.LostRun()
       && ForReviews(c, pending, r.Picks()) && forall k :: k in r.Picks() ==> TakenRightly(read, pending, free, k)
  }

  lemma WorkDoneLater(p: Point, cap: int, running: nat, queue: seq<nat>, dispatched: seq<nat>, lost: Option<nat>,
                      b: Board, c: Board)
    requires Ok(p.board) && WorkDone(p, cap, running, queue, dispatched, lost, b) && Later(b, c)
    ensures WorkDone(p, cap, running, queue, dispatched, lost, c)
  {
    hide Ok, Next, Work, IsQueue, InTasks, Later, ForTasks, ClaimedRightly, Live;
    var read := Next(Next(p));
    PicksLater(b, c, queue, Work(read, queue).Picks());
  }

  lemma ReviewsDoneLater(p: Point, cap: int, pending: seq<nat>, reviewed: seq<nat>,
                         lost: Option<nat>, b: Board, c: Board)
    requires Ok(p.board) && ReviewsDone(p, cap, pending, reviewed, lost, b) && Later(b, c)
    ensures ReviewsDone(p, cap, pending, reviewed, lost, c)
  {
    hide Ok, Next, Reviews, IsPending, InReviews, Later, ForReviews, TakenRightly, Live;
    var read := Next(Next(p));
    PicksLater(b, c, pending, Reviews(read, pending, Max(0, cap - Live(Next(p).board.runs))).Picks());
  }

  /** Where the work that started from `p` ended. */
  function WorkEnd(p: Point, queue: seq<nat>): (q: Point)
    requires Ok(p.board) && InTasks(Next(Next(p)).board, queue)
    ensures Ok(q.board)
  {
    hide Ok, Next, Work;
    Work(Next(Next(p)), queue).at
  }

  /**
   * Steps 2 to 4b of a tick that began at `p`: an error among the work ends them, otherwise the
   * reviews follow from where the work ended.
   */
  ghost predicate TickDone(p: Point, cap: int, queue: seq<nat>, pending: seq<nat>, s: Summary,
                           lost: Option<nat>, c: Board)
    requires Ok(p.board)
  {
    var q := Promoted(p);
    && s.ready == |queue|
    && (|| (lost.Some? && s.reviewed == [] && WorkDone(q, cap, s.running, queue, s.dispatched, lost, c))
        || (&& WorkDone(q, cap, s.running, queue, s.dispatched, None, c)
            && ReviewsDone(WorkEnd(q, queue), cap, pending, s.reviewed, lost, c)))
  }

  lemma WorkDoneRange(p: Point, cap: int, running: nat, queue: seq<nat>, dispatched: seq<nat>,
                      lost: Option<nat>, c: Board)
    requires Ok(p.board) && WorkDone(p, cap, running, queue, dispatched, lost, c)
    ensures InTasks(Next(Next(p)).board, queue)
  {
    hide Ok, Next, Work, IsQueue, InTasks, ForTasks, ClaimedRightly, Live;
  }

  lemma TickDoneLater(p: Point, cap: int, queue: seq<nat>, pending: seq<nat>, s: Summary, stalled: seq<nat>,
                      lost: Option<nat>, b: Board, c: Board)
    requires Ok(p.board) && TickDone(p, cap, queue, pending, s, lost, b) && Later(b, c)
    ensures TickDone(p, cap, queue, pending, s.(stalled := stalled), lost, c)
  {
    hide Ok, Next, Promoted, WorkDone, ReviewsDone, WorkEnd, InTasks, Later;
    var q := Promoted(p);
    if lost.Some? && s.reviewed == [] && WorkDone(q, cap, s.running, queue, s.dispatched, lost, b) {
      WorkDoneLater(q, cap, s.running, queue, s.dispatched, lost, b, c);
    } else {
      WorkDoneRange(q, cap, s.running, queue, s.dispatched, None, b);
      WorkDoneLater(q, cap, s.running, queue, s.dispatched, None, b, c);
      ReviewsDoneLater(WorkEnd(q, queue), cap, pending, s.reviewed, lost, b, c);
    }
  }

  lemma WorkDoneQueue(p: Point, cap: int, running: nat, queue: seq<nat>, dispatched: seq<nat>,
                      lost: Option<nat>, c: Board)
    requires Ok(p.board) && WorkDone(p, cap, running, queue, dispatched, lost, c)
    ensures var read := Next(Next(p));
            && InTasks(read.board, queue) && Distinct(queue)
            && (forall i :: 0 <= i < |queue| ==> read.board.tasks[queue[i]].Claimable())
            && dispatched == RunsOf(Work(read, queue).up)
  {
    hide Ok, Next, Work, ForTasks, ClaimedRightly, Live, Waits;
  }

  /** `queue` are the oldest of the tasks that may be run, `free` of them if there are so many. */
  ghost predicate OldestEligible(tasks: seq<Task>, queue: seq<nat>, free: int) {
    && (forall i :: 0 <= i < |queue| ==> queue[i] < |tasks| && Eligible(tasks[queue[i]]))
    && (forall i, j :: 0 <= i < j < |queue| ==> queue[i] != queue[j] && tasks[queue[i]].age <= tasks[queue[j]].age)
    && (forall i, t: nat :: 0 <= i < |queue| && t < |tasks| && Eligible(tasks[t]) && t !in queue ==>
          tasks[queue[i]].age <= tasks[t].age)
    && |queue| <= (if free > 0 then free else 0)
    && (|queue| < free ==> forall t: nat :: t < |tasks| && Eligible(tasks[t]) ==> t in queue)
  }

  lemma QueueIsOldest(b: Board, c: Board, queue: seq<nat>, free: int)
    requires |c.tasks| == |b.tasks| && IsQueue(c.tasks, queue, Max(0, free))
    requires forall t :: 0 <= t < |b.tasks| ==>
               c.tasks[t].age == b.tasks[t].age && (c.tasks[t].Claimable() <==> Eligible(b.tasks[t]))
    ensures OldestEligible(b.tasks, queue, free)
  {
    hide Task.Claimable, Eligible;
    forall t: nat | t < |b.tasks| && Eligible(b.tasks[t]) && t !in queue ensures Waits(c.tasks, queue, t) {
    }
  }

  /**
   * When nobody interferes, a tick that finds `free` slots starts a run for each of that many
   * oldest tasks that may be run, and for no other.
   */
  lemma QuietTickServesAll(p: Point, cap: int, queue: seq<nat>, pending: seq<nat>, s: Summary,
                           lost: Option<nat>, c: Board)
    requires Ok(p.board) && TickDone(p, cap, queue, pending, s, lost, c) && Quiet(p.feed)
    ensures OldestEligible(p.board.tasks, queue, cap - Live(p.board.runs))
    ensures |s.dispatched| == |queue|
    ensures forall i :: 0 <= i < |queue| ==> s.dispatched[i] < |c.runs| && c.runs[s.dispatched[i]].task == queue[i]
  {
    hide Ok, Next, PromoteAll, Promoted, ReviewsDone, WorkEnd, Quiet, Work, IsQueue, Live, OldestEligible;
    hide Served, Eligible, Task.Claimable, ClaimedRightly;
    PromotedExact(p);
    var q := Promoted(p);
    QuietNext(q);
    QuietNext(Next(q));
    var out := if WorkDone(q, cap, s.running, queue, s.dispatched, None, c) then None else lost;
    WorkDoneQueue(q, cap, s.running, queue, s.dispatched, out, c);
    QueueIsOldest(p.board, q.board, queue, cap - Live(p.board.runs));
    var read := Next(Next(q));
    QuietWorkServesAll(read, queue);
    ServedMeans(read, queue, Work(read, queue));
    ServedTurns(read, queue, Work(read, queue));
  }

  lemma ServedTurns(p: Point, queue: seq<nat>, r: Progress)
    requires Served(p, queue, r)
    ensures r.lost.None? && |r.up| == |queue| && forall i :: 0 <= i < |queue| ==> r.up[i].turn == i
  {
  }

  lemma WorkDoneRuns(p: Point, cap: int, running: nat, queue: seq<nat>, dispatched: seq<nat>,
                     lost: Option<nat>, c: Board)
    requires Ok(p.board) && WorkDone(p, cap, running, queue, dispatched, lost, c)
    ensures forall i :: 0 <= i < |dispatched| ==> dispatched[i] < |c.runs| && c.runs[dispatched[i]].task in queue
  {
    hide Ok, Next, Work, IsQueue, ClaimedRightly, Live;
    var work := Work(Next(Next(p)), queue);
    forall i | 0 <= i < |dispatched| ensures dispatched[i] < |c.runs| && c.runs[dispatched[i]].task in queue {
      assert work.Picks()[i] == work.up[i];
    }
  }

  predicate NoneFor(c: Board, runs: seq<nat>, t: nat) {
    forall r :: r in runs ==> r < |c.runs| && c.runs[r].task != t
  }

  /** A task that waits for its approval is given no run, whatever happens, unless someone moves it. */
  lemma WaitingIsNotStarted(p: Point, cap: int, queue: seq<nat>, pending: seq<nat>, s: Summary,
                            lost: Option<nat>, c: Board, t: nat)
    requires Ok(p.board) && TickDone(p, cap, queue, pending, s, lost, c) && Untouched(p.feed, t)
    requires t < |p.board.tasks| && p.board.tasks[t].status == Waiting && !p.board.tasks[t].released
    ensures t !in queue && NoneFor(c, s.dispatched, t)
  {
    hide Ok, Next, ReviewsDone, WorkEnd, Untouched, Work, Live, ClaimedRightly, WorkDone;
    var q := Promoted(p);
    assert Parked(q.board, t);
    NextKeepsParked(q, t);
    NextKeepsParked(Next(q), t);
    var out := if WorkDone(q, cap, s.running, queue, s.dispatched, None, c) then None else lost;
    WorkDoneQueue(q, cap, s.running, queue, s.dispatched, out, c);
    WorkDoneRuns(q, cap, s.running, queue, s.dispatched, out, c);
  }

  class Engine {
    var board: Board
    var feed: seq<Turn>
    /** The highest load since the present tick began. */
    ghost var peak: int

    constructor (b: Board, turns: seq<Turn>)
      ensures board == b && feed == turns && peak == Load(b)
    {
      board, feed, peak := b, turns, Load(b);
    }

    function Here(): Point
      reads this
    {
      Point(board, feed)
    }

    /** Let others act, and learn how the next step turns out. */
    method Pass() returns (yes: bool)
      requires Ok(board)
      modifies this`board, this`feed
      ensures Here() == Next(old(Here())) && yes == Yes(old(feed))
      ensures Elsewhere(old(board), board)
    {
      hide Ok, Elsewhere, Happen;
      if feed == [] {
        return true;
      }
      var turn := feed[0];
      feed := feed[1..];
      board := HappenAll(board, turn.steps);
      yes := turn.yes;
    }

    /**
     * `_launch` for a run just started: its wrapper runs, or the run is finalised as failed, or
     * something raises before and the run is left without a process.
     */
    method Launch(run: nat, ghost from: Board, ghost shown: seq<nat>) returns (out: Outcome)
      requires Ticking(from, board, shown + [run]) && Ok(board) && |from.runs| <= run < |board.runs|
      modifies this`board, this`feed
      ensures (Here(), out) == LaunchStep(old(Here()), run) && Covers(old(board), board)
      ensures out == if Raises(old(feed)) then Lost else if Yes(old(feed)) then Up else Down
      ensures Ticking(from, board, shown + Runs(run, out))
      ensures Load(board) <= LoadBut(old(board), run) + |Runs(run, out)|
      ensures out.Up? ==> board.runs[run].pid in board.alive
      ensures out.Down? ==> !board.runs[run].Live()
      ensures out.Lost? ==> Elsewhere(old(board), board)
      ensures board.runs[run].review == old(board).runs[run].review
      ensures board.runs[run].task == old(board).runs[run].task
    {
      hide Ok, Ticking, Load, LoadBut, Elsewhere, Finish, SetPid, Next;
      assert shown + [] == shown;
      var raised := Raises(feed);
      var ok := Pass();
      ElsewhereBounds(old(board), board);
      TickingElsewhere(from, old(board), board, shown + [run]);
      ElsewhereReviews(old(board), board, run);
      ghost var b := board;
      if raised {
        LoadButBound(board, run);
        return Lost;
      }
      if ok {
        SetPidTicks(from, board, run, shown + [run]);
        board := SetPid(board, run);
        SetPidSizes(b, run);
        LoadButBound(board, run);
        return Up;
      }
      GiveUpTicks(from, board, run, shown);
      FinishSizes(b, run, Over("failed"));
      board := Finish(board, run, Over("failed"));
      return Down;
    }

    /** Move a task, whatever it was. */
    method SetTaskTo(t: nat, s: TaskStatus)
      requires Ok(board) && t < |board.tasks|
      modifies this`board, this`feed
      ensures Here() == WithTask(Next(old(Here())), t, s)
      ensures Elsewhere(old(board), board) && board.tasks[t].status == s
    {
      hide Ok, Elsewhere, SetTask, Next;
      var _ := Pass();
      ElsewhereBounds(old(board), board);
      ghost var b := board;
      SetTaskElsewhere(b, t, s);
      SetTaskDoes(b, t, s);
      board := SetTask(board, t, s);
      ElsewhereTransitive(old(board), b, board);
    }

    /**
     * `claim_task`: won exactly when the task is claimable at that moment, and then it is claimed;
     * otherwise nothing changes.
     */
    method ClaimTask(t: nat) returns (won: bool)
      requires Ok(board) && t < |board.tasks|
      modifies this`board, this`feed
      ensures Elsewhere(old(board), board)
      ensures won <==> Next(old(Here())).board.tasks[t].Claimable()
      ensures Here() == if won then WithTask(Next(old(Here())), t, Claimed) else Next(old(Here()))
    {
      hide Ok, Elsewhere, SetTask, Next;
      var _ := Pass();
      ElsewhereBounds(old(board), board);
      won := board.tasks[t].Claimable();
      if won {
        ghost var b := board;
        SetTaskElsewhere(b, t, Claimed);
        board := SetTask(board, t, Claimed);
        ElsewhereTransitive(old(board), b, board);
      }
    }

    method SetReviewTo(v: nat, how: string)
      requires Ok(board) && v < |board.reviews|
      modifies this`board, this`feed
      ensures Here() == ReviewClosed(old(Here()), v, how)
      ensures Elsewhere(old(board), board) && board.reviews[v].status == Closed(how)
    {
      hide Ok, Elsewhere, Next;
      var _ := Pass();
      ElsewhereBounds(old(board), board);
      ghost var b := board;
      SetReviewElsewhere(b, v, Closed(how));
      board := SetReview(board, v, Closed(how));
      ElsewhereTransitive(old(board), b, board);
    }

    /**
     * `claim_review`: won exactly while the review is pending, when nobody has run it; otherwise
     * nothing changes.
     */
    method ClaimReview(v: nat) returns (won: bool)
      requires Ok(board) && v < |board.reviews|
      modifies this`board, this`feed
      ensures Elsewhere(old(board), board)
      ensures won <==> Next(old(Here())).board.reviews[v].status == Pending
      ensures Here() == if won then TakeReview(Next(old(Here())), v) else Next(old(Here()))
    {
      hide Ok, Elsewhere, Next;
      var _ := Pass();
      ElsewhereBounds(old(board), board);
      won := board.reviews[v].status == Pending;
      if won {
        ghost var b := board;
        SetReviewElsewhere(b, v, UnderReview);
        board := SetReview(board, v, UnderReview);
        ElsewhereTransitive(old(board), b, board);
      }
    }

    /** `start_run`. */
    method StartRun(t: nat, ghost from: Board, ghost shown: seq<nat>) returns (run: nat)
      requires Ticking(from, board, shown) && Ok(board) && t < |board.tasks|
      modifies this`board, this`peak
      ensures run == |old(board).runs| && Here() == Begun(old(Here()), t)
      ensures board == Start(old(board), t)
      ensures Ticking(from, board, shown + [run]) && LoadBut(board, run) == Load(old(board))
      ensures peak == Max(old(peak), Load(old(board)) + 1)
    {
      hide Ok, Ticking, Load, LoadBut;
      StartTicks(from, board, t, shown);
      run := |board.runs|;
      board := Start(board, t);
      peak := Max(peak, Load(board));
    }

    /**
     * One task of the queue: claim, check its project, start and launch. It is passed over exactly
     * when it can no longer be claimed; a claimed one that takes no slot ends as failed.
     */
    method DispatchTask(t: nat) returns (run: nat, out: Outcome)
      requires Ok(board) && t < |board.tasks|
      modifies this
      ensures (Here(), out) == TaskStep(old(Here()), t) && (out.Takes() ==> run == |old(board).runs|)
      ensures Ticking(old(board), board, Runs(run, out)) && |board.tasks| >= |old(board).tasks|
      ensures |board.reviews| >= |old(board).reviews|
      ensures Load(board) <= Load(old(board)) + |Runs(run, out)|
      ensures old(peak) <= peak <= Max(old(peak), Load(old(board)) + 1)
      ensures out.Skipped? <==> !Next(old(Here())).board.tasks[t].Claimable()
      ensures out.Down? ==> board.tasks[t].status == Ended("failed")
      ensures out.Takes() ==> run < |board.runs| && board.runs[run].task == t && board.runs[run].review == None
      ensures out.Up? ==> board.runs[run].pid in board.alive
      ensures out.Lost? ==> WithoutProcess(old(board), board, run)
    {
      hide Ticking, Load, LoadBut, Elsewhere, Ok, Next, WithTask, Begun, LaunchStep, WithoutProcess;
      ghost var from := board;
      TickStart(board);
      run, out := 0, Skipped;
      var won := ClaimTask(t);
      Follow(from, from, board, []);
      if !won {
        return;
      }
      out := Down;
      ghost var b := board;
      var placed := Pass();
      Follow(from, b, board, []);
      if !placed {
        b := board;
        SetTaskTo(t, Ended("failed"));
        Follow(from, b, board, []);
        return;
      }
      JustStarted(from, board, t, []);
      run := StartRun(t, from, []);
      b := board;
      TickingMeans(from, b, [] + [run]);
      StartedRun(from, from, b, run, [] + [run]);
      out := Launch(run, from, []);
      assert [] + Runs(run, out) == Runs(run, out);
      if out.Lost? {
        NoProcess(from, b, board, run);
      }
      if out.Down? {
        b := board;
        TickingMeans(from, board, []);
        SetTaskTo(t, Ended("failed"));
        Follow(from, b, board, []);
      }
    }

    /**
     * One pending review: claim, check its project, start, link and launch; it is passed over
     * exactly when it is pending no more.
     */
    method DispatchReview(v: nat) returns (run: nat, out: Outcome)
      requires Ok(board) && v < |board.reviews|
      modifies this
      ensures (Here(), out) == ReviewStep(old(Here()), v) && (out.Takes() ==> run == |old(board).runs|)
      ensures Ticking(old(board), board, Runs(run, out)) && |board.reviews| >= |old(board).reviews|
      ensures Load(board) <= Load(old(board)) + |Runs(run, out)|
      ensures old(peak) <= peak <= Max(old(peak), Load(old(board)) + 1)
      ensures out.Skipped? <==> Next(old(Here())).board.reviews[v].status != Pending
      ensures out.Down? ==> board.reviews[v].status in {Closed("blocked"), Closed("failed")}
      ensures out.Takes() ==> run < |board.runs| && board.runs[run].review == Some(v)
      ensures out.Up? ==> board.runs[run].pid in board.alive
      ensures out.Lost? ==> WithoutProcess(old(board), board, run)
    {
      hide Ticking, Load, LoadBut, Elsewhere, Ok, Next, TakeReview, ReviewBegun, ReviewClosed, LaunchStep, Unreviewed,
           WithoutProcess;
      ghost var from := board;
      TickStart(board);
      run, out := 0, Skipped;
      var won := ClaimReview(v);
      Follow(from, from, board, []);
      if !won {
        return;
      }
      out := Down;
      ghost var b := board;
      var placed := Pass();
      Follow(from, b, board, []);
      UnreviewedElsewhere(b, board, v);
      if !placed {
        b := board;
        SetReviewTo(v, "blocked");
        Follow(from, b, board, []);
        return;
      }
      run := StartReviewRun(v, from, []);
      b := board;
      TickingMeans(from, b, [] + [run]);
      StartedRun(from, from, b, run, [] + [run]);
      out := Launch(run, from, []);
      assert [] + Runs(run, out) == Runs(run, out);
      if out.Lost? {
        NoProcess(from, b, board, run);
      }
      if out.Down? {
        b := board;
        TickingMeans(from, board, []);
        SetReviewTo(v, "failed");
        Follow(from, b, board, []);
      }
    }

    /** `start_run` and `set_run_review` for the origin of the review. */
    method StartReviewRun(v: nat, ghost from: Board, ghost shown: seq<nat>) returns (run: nat)
      requires Ticking(from, board, shown) && Ok(board) && Taken(board, v)
      modifies this`board, this`feed, this`peak
      ensures Here() == ReviewBegun(old(Here()), v)
      ensures run == |old(board).runs| && |board.runs| == run + 1 && |board.tasks| >= |old(board).tasks|
      ensures |board.reviews| >= |old(board).reviews|
      ensures Ticking(from, board, shown + [run]) && LoadBut(board, run) <= Load(old(board))
      ensures peak == Max(old(peak), Load(old(board)) + 1)
      ensures board.runs[run].review == Some(v) && WithoutProcess(from, board, run)
    {
      hide Ticking, Load, LoadBut, Elsewhere, Ok, Next, Since;
      TickingMeans(from, board, shown);
      ReviewTask(board, v);
      JustStarted(from, board, board.reviews[v].task, shown);
      run := StartRun(board.reviews[v].task, from, shown);
      ghost var b := board;
      TickingMeans(from, b, shown + [run]);
      var _ := Pass();
      Follow(from, b, board, shown + [run]);
      ElsewhereBounds(b, board);
      NoProcess(from, b, board, run);
      UnreviewedElsewhere(b, board, v);
      SetRunReviewTicks(from, board, run, v, shown + [run]);
      board := SetRunReview(board, run, v);
    }

    /** One run of the scan: dead, or too long idle, it is marked stalled, and its review is closed as failed. */
    method ScanRun(run: nat, pid: nat) returns (stalled: bool)
      requires Ok(board) && run < |board.runs|
      modifies this`board, this`feed
      ensures Elsewhere(old(board), board)
      ensures var mid := Next(old(Here()));
              && (stalled <==> pid !in mid.board.alive || Yes(old(feed)))
              && Here() == if stalled then Stall(mid, run) else mid
      ensures pid !in old(board).alive && pid <= old(board).lastPid ==> stalled
      ensures stalled ==> !board.runs[run].Live() || run in board.resumed[|old(board).resumed|..]
    {
      hide Ok, Elsewhere, MarkStalled, Next;
      var idle := Pass();
      ElsewhereBounds(old(board), board);
      stalled := pid !in board.alive || idle;
      if stalled {
        ghost var b := board;
        MarkStalledElsewhere(b, run);
        StalledIsOver(b, run);
        board := MarkStalled(board, run);
        ElsewhereTransitive(old(board), b, board);
        ElsewhereBounds(old(board), board);
        if board.runs[run].review.Some? {
          b := board;
          ReviewOfRun(b, run);
          SetReviewTo(board.runs[run].review.value, "failed");
          StaysOver(b, board, run);
          ElsewhereBounds(b, board);
          SinceSuffix(old(board).resumed, b.resumed, board.resumed);
          ElsewhereTransitive(old(board), b, board);
        }
      }
    }

    /** Step 4: work runs, at most one for each free slot, for different tasks of the queue. */
    method DispatchWork(ready: seq<nat>) returns (dispatched: seq<nat>, lost: Option<nat>)
      requires Ok(board) && Distinct(ready) && InTasks(board, ready)
      modifies this
      ensures var work := Work(old(Here()), ready);
              && Here() == work.at && dispatched == RunsOf(work.up) && lost == work.LostRun()
              && ForTasks(board, ready, work.Picks())
      ensures Ticking(old(board), board, dispatched + OneOrNone(lost))
      ensures |dispatched + OneOrNone(lost)| <= |ready| && |board.reviews| >= |old(board).reviews|
      ensures Load(board) <= Load(old(board)) + |dispatched + OneOrNone(lost)|
      ensures old(peak) <= peak <= Max(old(peak), Load(old(board)) + |ready|)
      ensures FromQueue(board, dispatched + OneOrNone(lost), ready)
      ensures lost.Some? ==> WithoutProcess(old(board), board, lost.value)
    {
      hide Ticking, Load, LoadBut, Elsewhere, Ok, Next, TaskStep, FromQueue, Later, ForTasks, WithoutProcess, Work;
      dispatched, lost := [], None;
      ghost var p, picks: seq<Pick> := Here(), [];
      TickStart(board);
      NoneYet(board, ready);
      NoWorkDone(p);
      for i := 0 to |ready|
        invariant Progress(Here(), picks, None) == Work(p, ready[..i]) && dispatched == RunsOf(picks)
        invariant ForTasks(board, ready, picks)
        invariant Ticking(old(board), board, dispatched) && |dispatched| <= i
        invariant Load(board) <= Load(old(board)) + |dispatched|
        invariant old(peak) <= peak <= Max(old(peak), Load(old(board)) + i)
        invariant |board.tasks| >= |old(board).tasks| && |board.reviews| >= |old(board).reviews|
        invariant FromQueue(board, dispatched, ready[..i])
      {
        ghost var b := board;
        WorkNext(p, ready, i);
        TickingMeans(old(board), b, dispatched);
        var run, out := DispatchTask(ready[i]);
        TickingMeans(b, board, Runs(run, out));
        TickingCompose(old(board), b, board, dispatched, Runs(run, out));
        PicksLater(b, board, ready, picks);
        if out.Takes() {
          FromQueueNext(b, board, dispatched, ready, i, run);
          PicksNext(board, ready, picks, Pick(run, i));
        } else {
          assert dispatched + [] == dispatched;
          FromQueueLater(b, board, dispatched, ready[..i]);
          FromQueueMore(board, dispatched, ready, i);
        }
        if out.Up? {
          dispatched, picks := dispatched + [run], picks + [Pick(run, i)];
        } else if out.Lost? {
          FromQueueAll(board, dispatched + [run], ready, i + 1);
          WithoutProcessSince(old(board), b, board, run);
          WorkStops(p, ready, i + 1);
          return dispatched, Some(run);
        }
      }
      assert ready[..|ready|] == ready && dispatched + [] == dispatched;
      FromQueueAll(board, dispatched, ready, |ready|);
    }

    /** Step 4b: reviews that were pending when claimed, while a slot is left. */
    method DispatchReviews(pending: seq<nat>, free: nat) returns (reviewed: seq<nat>, lost: Option<nat>)
      requires Ok(board) && InReviews(board, pending)
      modifies this
      ensures var r := Reviews(old(Here()), pending, free);
              && Here() == r.at && reviewed == RunsOf(r.up) && lost == r.LostRun()
              && ForReviews(board, pending, r.Picks())
      ensures Ticking(old(board), board, reviewed + OneOrNone(lost)) && |reviewed + OneOrNone(lost)| <= free
      ensures Load(board) <= Load(old(board)) + |reviewed + OneOrNone(lost)|
      ensures old(peak) <= peak <= Max(old(peak), Load(old(board)) + free)
      ensures lost.Some? ==> WithoutProcess(old(board), board, lost.value)
    {
      hide Ticking, Load, LoadBut, Elsewhere, Ok, Next, ReviewStep, Later, ForReviews, WithoutProcess, Reviews;
      reviewed, lost := [], None;
      var remaining := free;
      ghost var p, picks: seq<Pick> := Here(), [];
      TickStart(board);
      NoneYet(board, pending);
      NoReviewsDone(p, free);
      for i := 0 to |pending|
        invariant Progress(Here(), picks, None) == Reviews(p, pending[..i], free) && reviewed == RunsOf(picks)
        invariant ForReviews(board, pending, picks)
        invariant Ticking(old(board), board, reviewed) && |reviewed| + remaining == free
        invariant Load(board) <= Load(old(board)) + |reviewed|
        invariant old(peak) <= peak <= Max(old(peak), Load(old(board)) + free)
        invariant |board.reviews| >= |old(board).reviews|
      {
        assert reviewed + [] == reviewed;
        if remaining == 0 {
          ReviewsStop(p, pending, free, i);
          return;
        }
        ghost var b := board;
        ReviewsNext(p, pending, free, i);
        TickingMeans(old(board), b, reviewed);
        var run, out := DispatchReview(pending[i]);
        TickingMeans(b, board, Runs(run, out));
        TickingCompose(old(board), b, board, reviewed, Runs(run, out));
        PicksLater(b, board, pending, picks);
        if out.Takes() {
          PicksNext(board, pending, picks, Pick(run, i));
        }
        if out.Up? {
          reviewed, picks := reviewed + [run], picks + [Pick(run, i)];
          remaining := remaining - 1;
        } else if out.Lost? {
          WithoutProcessSince(old(board), b, board, run);
          ReviewsStop(p, pending, free, i + 1);
          return reviewed, Some(run);
        }
      }
      assert pending[..|pending|] == pending && reviewed + [] == reviewed;
    }

    /** Step 5: every run found running is judged once; one whose process is dead is finalised. */
    method Scan() returns (stalled: seq<nat>)
      requires Ok(board)
      modifies this`board, this`feed
      ensures Elsewhere(old(board), board)
      ensures forall i :: 0 <= i < |old(board).runs| && Orphan(old(board), i) ==> i in stalled
      ensures forall i :: 0 <= i < |old(board).runs| && i in stalled ==>
                i < |board.runs| && |old(board).resumed| <= |board.resumed| &&
                (board.runs[i].Live() ==> i in board.resumed[|old(board).resumed|..])
    {
      hide Ok, Elsewhere;
      var rows := board.runs;
      var found := RunningRuns(rows);
      stalled := [];
      Unchanged(board);
      for n := 0 to |found|
        invariant Elsewhere(old(board), board)
        invariant forall i :: i in stalled ==>
                    i < |board.runs| && |old(board).resumed| <= |board.resumed| &&
                    (board.runs[i].Live() ==> i in board.resumed[|old(board).resumed|..])
        invariant forall k :: 0 <= k < n && Orphan(old(board), found[k]) ==> found[k] in stalled
      {
        ghost var b := board;
        ElsewhereBounds(old(board), b);
        var dead := ScanRun(found[n], rows[found[n]].pid);
        DeadIsFound(old(board), b, found[n]);
        ElsewhereTransitive(old(board), b, board);
        ElsewhereBounds(b, board);
        OverStaysOver(old(board), b, board, stalled);
        SinceSuffixes(old(board), b, board);
        if dead {
          stalled := stalled + [found[n]];
        }
      }
    }

    /** Steps 3 and 4: count the free slots, then start that many of the oldest tasks. */
    method FillWork(cap: int, ghost from: Board)
      returns (running: nat, queue: seq<nat>, dispatched: seq<nat>, lost: Option<nat>)
      requires Ok(board) && Later(from, board) && Load(board) <= Most(from, cap)
      modifies this
      ensures Ok(board) && WorkDone(old(Here()), cap, running, queue, dispatched, lost, board)
      ensures Here() == WorkEnd(old(Here()), queue)
      ensures Ticking(old(board), board, dispatched + OneOrNone(lost)) && Load(board) <= Most(from, cap)
      ensures peak <= Max(old(peak), Most(from, cap)) && |dispatched + OneOrNone(lost)| <= Max(0, cap - running)
      ensures OneTaskEach(board, dispatched + OneOrNone(lost))
      ensures lost.Some? ==> WithoutProcess(old(board), board, lost.value)
    {
      hide Ok, Later, Ticking, Load, Elsewhere, Live, Most, Queue, Next, Work, ForTasks, ClaimedRightly, WithoutProcess;
      TickStart(board);
      var _ := Pass();
      Follow(old(board), old(board), board, []);
      running := Live(board.runs);
      LaterTransitive(from, old(board), board);
      ResumedGrows(from, board);
      LoadAtMost(from, board, cap, Max(0, cap - running));
      ghost var b := board;
      var _ := Pass();
      Follow(old(board), b, board, []);
      queue := NextReady(board.tasks, Max(0, cap - running));
      QueueRange(board.tasks, queue);
      WorkClaimsRightly(Here(), queue);
      b := board;
      dispatched, lost := DispatchWork(queue);
      TickingMeans(b, board, dispatched + OneOrNone(lost));
      TickingCompose(old(board), b, board, [], dispatched + OneOrNone(lost));
      assert [] + (dispatched + OneOrNone(lost)) == dispatched + OneOrNone(lost);
      if lost.Some? {
        WithoutProcessSince(old(board), b, board, lost.value);
      }
    }

    /** Step 4b: count again, then start reviews in what is left. */
    method FillReviews(cap: int, ghost from: Board)
      returns (ghost pending: seq<nat>, reviewed: seq<nat>, lost: Option<nat>)
      requires Ok(board) && Later(from, board) && Load(board) <= Most(from, cap)
      modifies this
      ensures ReviewsDone(old(Here()), cap, pending, reviewed, lost, board)
      ensures Ticking(old(board), board, reviewed + OneOrNone(lost)) && Load(board) <= Most(from, cap)
      ensures peak <= Max(old(peak), Most(from, cap))
      ensures lost.Some? ==> WithoutProcess(old(board), board, lost.value)
    {
      hide Ok, Later, Ticking, Load, Elsewhere, Live, Most, Next, Reviews, ForReviews, TakenRightly, WithoutProcess;
      TickStart(board);
      var _ := Pass();
      Follow(old(board), old(board), board, []);
      LaterTransitive(from, old(board), board);
      var remaining := Max(0, cap - Live(board.runs));
      ResumedGrows(from, board);
      LoadAtMost(from, board, cap, remaining);
      ghost var b := board;
      var _ := Pass();
      Follow(old(board), b, board, []);
      var found := PendingReviews(board.reviews);
      pending := found;
      ReviewsTakeRightly(Here(), pending, remaining);
      b := board;
      reviewed, lost := DispatchReviews(found, remaining);
      TickingCompose(old(board), b, board, [], reviewed + OneOrNone(lost));
      assert [] + (reviewed + OneOrNone(lost)) == reviewed + OneOrNone(lost);
      if lost.Some? {
        WithoutProcessSince(old(board), b, board, lost.value);
      }
    }

    /** Steps 2 to 4b: promote, then fill the free slots with work, then with reviews. */
    method Fill(cap: int)
      returns (s: Summary, lost: Option<nat>, ghost queue: seq<nat>, ghost pending: seq<nat>)
      requires Ok(board)
      modifies this
      ensures TickDone(old(Here()), cap, queue, pending, s, lost, board)
      ensures Ticking(old(board), board, Started(s, lost))
      ensures Load(board) <= Most(old(board), cap)
      ensures peak <= Max(old(peak), Most(old(board), cap))
      ensures |s.dispatched| <= Max(0, cap - s.running) && s.stalled == [] && !s.skipped && !s.paused
      ensures OneTaskEach(board, s.dispatched)
      ensures lost.Some? ==> WithoutProcess(old(board), board, lost.value)
    {
      hide Ok, Elsewhere, Ticking, Later, Live, Load, WorkDone, ReviewsDone, WorkEnd, OneTaskEach, WithoutProcess,
           PromoteAll;
      TickStart(board);
      MostAtStart(board, cap);
      PromoteElsewhere(board);
      pending := [];
      board := PromoteAll(board);
      Follow(old(board), old(board), board, []);
      hide Most;
      ghost var b := board;
      var running, tasks, dispatched, lostWork := FillWork(cap, old(board));
      queue := tasks;
      s := NOTHING.(running := running, ready := |tasks|, dispatched := dispatched);
      lost := lostWork;
      TickingCompose(old(board), b, board, [], dispatched + OneOrNone(lost));
      assert [] + (dispatched + OneOrNone(lost)) == dispatched + OneOrNone(lost) == dispatched + [] + OneOrNone(lost);
      TickingMeans(old(board), board, dispatched + OneOrNone(lost));
      if lost.Some? {
        WithoutProcessSince(old(board), b, board, lost.value);
        TickStart(board);
        OneTaskEachLater(board, board, dispatched, OneOrNone(lost));
        return;
      }
      ghost var c := board;
      assert dispatched + OneOrNone(None) == dispatched;
      var reviewed, lostReview;
      pending, reviewed, lostReview := FillReviews(cap, old(board));
      s, lost := s.(reviewed := reviewed), lostReview;
      ghost var rest := reviewed + OneOrNone(lost);
      TickingMeans(c, board, rest);
      TickingCompose(old(board), c, board, dispatched, rest);
      WorkDoneLater(Promoted(old(Here())), cap, running, queue, dispatched, None, c, board);
      OneTaskEachLater(c, board, dispatched, []);
      assert dispatched + rest == Started(s, lost);
      if lost.Some? {
        WithoutProcessSince(old(board), c, board, lost.value);
      }
    }

    /**
     * One tick. Work and review runs share `cap` slots: at every moment no more
     * are taken than the larger of the cap and what was running before, plus the
     * blocked runs answered meanwhile. The runs it starts are those of its loops
     * over `queue`, the oldest tasks claimable when the queue was read, and over
     * `pending`, the reviews pending when they were read: each was claimable, or
     * pending, on the board of the moment it was claimed, and no two work runs are
     * for one task. A slot held by a dead process is free afterwards, unless
     * launching run `lost` raised and ended the tick; that run is left without a
     * process, for the next tick to free.
     */
    method Tick(lockFree: bool, paused: bool, cap: int)
      returns (s: Summary, lost: Option<nat>, ghost queue: seq<nat>, ghost pending: seq<nat>)
      requires Ok(board)
      modifies this
      ensures !lockFree ==> s == NOTHING.(skipped := true) && lost.None? && board == old(board)
      ensures lockFree && paused ==> s == NOTHING.(paused := true) && lost.None? && Elsewhere(old(board), board)
      ensures lockFree && !paused ==> TickDone(old(Here()), cap, queue, pending, s, lost, board)
      ensures Ticking(old(board), board, Started(s, lost))
      ensures Live(board.runs) <= Max(cap, Live(old(board).runs)) + (|board.resumed| - |old(board).resumed|)
      ensures lockFree ==> peak <= Max(cap, Live(old(board).runs)) - |old(board).resumed|
      ensures |s.dispatched| <= Max(0, cap - s.running)
      ensures OneTaskEach(board, s.dispatched)
      ensures lockFree && !paused && lost.None? ==>
                forall i :: 0 <= i < |old(board).runs| && Orphan(old(board), i) ==> Freed(old(board), board, i)
      ensures lost.Some? ==> WithoutProcess(old(board), board, lost.value)
    {
      hide Ok, Elsewhere, Later, NewShown, Live, Orphan, Freed, TickDone, OneTaskEach, WithoutProcess, Next;
      TickStart(board);
      NoneStarted(board);
      lost, queue, pending := None, [], [];
      if !lockFree {
        s := NOTHING.(skipped := true);
        return;
      }
      peak := Load(board);
      if paused {
        var _ := Pass();
        Follow(old(board), old(board), board, []);
        NoneStarted(board);
        s := NOTHING.(paused := true);
        return;
      }
      s, lost, queue, pending := Fill(cap);
      TickingMeans(old(board), board, Started(s, lost));
      if lost.Some? {
        return;
      }
      ghost var e, f := board, s;
      var stalled := Scan();
      Follow(old(board), e, board, Started(s, lost));
      ElsewhereBounds(e, board);
      assert s.dispatched + [] == s.dispatched;
      OneTaskEachLater(e, board, s.dispatched, []);
      ScanFrees(old(board), e, board, stalled);
      s := s.(stalled := stalled);
      TickDoneLater(old(Here()), cap, queue, pending, f, stalled, lost, e, board);
    }

    /** Ticks one after another, anyone acting in between: the cap is overrun only by what was there and by answers. */
    method Service(ticks: seq<(bool, bool)>, cap: int)
      requires Ok(board)
      modifies this
      ensures Ok(board) && old(board).resumed <= board.resumed
      ensures Live(board.runs) <= Max(cap, Live(old(board).runs)) + |Since(old(board).resumed, board.resumed)|
    {
      hide Ok, Elsewhere, Live, Since, Later, NewShown, TickDone;
      for i := 0 to |ticks|
        invariant Ok(board) && old(board).resumed <= board.resumed
        invariant Load(board) <= Max(cap, Live(old(board).runs)) - |old(board).resumed|
      {
        ghost var b := board;
        var _ := Pass();
        ElsewhereBounds(b, board);
        LaterResumed(b, board);
        b := board;
        ghost var queue, pending;
        var s, lost;
        s, lost, queue, pending := Tick(ticks[i].0, ticks[i].1, cap);
        TickingMeans(b, board, Started(s, lost));
      }
      SinceLength(old(board).resumed, board.resumed);
    }
  }

  /** Every run a tick started and did not take back. */
  function Started(s: Summary, lost: Option<nat>): seq<nat> {
    s.dispatched + s.reviewed + OneOrNone(lost)
  }

  lemma NoneStarted(c: Board)
    ensures Started(NOTHING, None) == [] && OneTaskEach(c, [])
  {
  }

  /** A run lost by a raising tick is one the next tick frees. */
  lemma LostIsOrphan(from: Board, c: Board, run: nat)
    requires Ok(c) && WithoutProcess(from, c, run) && c.runs[run].Live()
    ensures Orphan(c, run) || run in Since(from.relaunched, c.relaunched)
  {
  }

  lemma SinceLength(a: seq<nat>, b: seq<nat>)
    requires a <= b
    ensures |Since(a, b)| == |b| - |a|
  {
  }

  lemma DeadIsFound(a: Board, b: Board, i: nat)
    requires Ok(a) && Elsewhere(a, b) && i < |a.runs|
    ensures Orphan(a, i) ==> a.runs[i].pid !in b.alive && a.runs[i].pid <= b.lastPid
  {
    hide RunKept, Load, LoadBut;
  }

  lemma OverStaysOver(a: Board, b: Board, c: Board, stalled: seq<nat>)
    requires Later(a, b) && Elsewhere(b, c)
    requires forall i :: i in stalled ==>
               i < |b.runs| && (b.runs[i].Live() ==> i in b.resumed[|a.resumed|..])
    ensures |a.resumed| <= |c.resumed|
    ensures forall i :: i in stalled ==>
              i < |c.runs| && (c.runs[i].Live() ==> i in c.resumed[|a.resumed|..])
  {
    hide Ok, Load, LoadBut;
    SinceTransitive(a.resumed, b.resumed, c.resumed);
    forall i | i in stalled && i < |b.runs| ensures RunKept(b, c, i) {
    }
  }

  lemma SinceSuffixes(a: Board, b: Board, c: Board)
    requires Later(a, b) && Elsewhere(b, c)
    ensures a.resumed <= b.resumed <= c.resumed
    ensures forall x :: x in c.resumed[|b.resumed|..] ==> x in c.resumed[|a.resumed|..]
  {
    hide Ok, Load, LoadBut, RunKept;
    SinceSuffix(a.resumed, b.resumed, c.resumed);
  }

  lemma TickStart(b: Board)
    requires Ok(b)
    ensures Ticking(b, b, []) && Later(b, b)
  {
    hide Ok;
    assert Since(b.resumed, b.resumed) == [];
  }

  /** The load a tick that began at `from` may reach. */
  function Most(from: Board, cap: int): int {
    Max(cap, Live(from.runs)) - |from.resumed|
  }

  lemma MostAtStart(b: Board, cap: int)
    ensures Load(b) <= Most(b, cap)
  {
    hide Live;
  }

  lemma QueueRange(tasks: seq<Task>, r: seq<nat>)
    requires Queue(tasks, r)
    ensures forall i :: 0 <= i < |r| ==> r[i] < |tasks|
  {
  }

  /** Filling `n` of the slots left keeps within the bound. */
  lemma LoadAtMost(from: Board, b: Board, cap: int, n: nat)
    requires |from.resumed| <= |b.resumed| && n <= Max(0, cap - Live(b.runs)) && Load(b) <= Most(from, cap)
    ensures Load(b) + n <= Most(from, cap)
  {
    hide Live;
  }

  lemma ResumedGrows(b: Board, c: Board)
    requires Later(b, c)
    ensures |b.resumed| <= |c.resumed|
  {
    hide RunKept;
  }

  /** After a scan an orphan of the tick's beginning holds no slot, unless it was reopened or relaunched. */
  lemma ScanFrees(b: Board, e: Board, c: Board, stalled: seq<nat>)
    requires Ok(b) && Later(b, e) && Elsewhere(e, c) && |e.runs| == |c.runs|
    requires forall i :: 0 <= i < |e.runs| && Orphan(e, i) ==> i in stalled
    requires forall i :: 0 <= i < |e.runs| && i in stalled ==>
               |e.resumed| <= |c.resumed| && (c.runs[i].Live() ==> i in c.resumed[|e.resumed|..])
    ensures |b.runs| <= |c.runs| && b.resumed <= c.resumed && b.relaunched <= c.relaunched
    ensures forall i :: 0 <= i < |b.runs| && Orphan(b, i) ==> Freed(b, c, i)
  {
    hide Ok, Load, LoadBut, RunKept, Orphan, Freed;
    forall i | 0 <= i < |b.runs| && Orphan(b, i) ensures Freed(b, c, i) {
      assert RunKept(b, e, i) && RunKept(e, c, i);
      OrphanFreed(b, e, c, i);
    }
  }

  lemma OrphanFreed(b: Board, e: Board, c: Board, i: nat)
    requires Ok(b) && Later(b, e) && Later(e, c) && i < |b.runs| && Orphan(b, i)
    requires RunKept(b, e, i) && RunKept(e, c, i)
    requires Orphan(e, i) ==> (c.runs[i].Live() ==> i in Since(e.resumed, c.resumed))
    ensures b.resumed <= c.resumed && b.relaunched <= c.relaunched && Freed(b, c, i)
  {
    hide Since;
    SinceTransitive(b.resumed, e.resumed, c.resumed);
    SinceTransitive(b.relaunched, e.relaunched, c.relaunched);
  }

  lemma StalledIsOver(b: Board, run: nat)
    requires Ok(b) && run < |b.runs|
    ensures |MarkStalled(b, run).runs| == |b.runs| && !MarkStalled(b, run).runs[run].Live()
    ensures MarkStalled(b, run).runs[run].review == b.runs[run].review
  {
    hide Ok;
  }

  lemma StaysOver(b: Board, c: Board, run: nat)
    requires Elsewhere(b, c) && run < |b.runs| && !b.runs[run].Live()
    ensures run < |c.runs| && b.resumed <= c.resumed && (c.runs[run].Live() ==> run in Since(b.resumed, c.resumed))
  {
    hide Ok, Load, LoadBut, Since;
    assert RunKept(b, c, run);
  }

  lemma SinceSuffix(a: seq<nat>, b: seq<nat>, c: seq<nat>)
    requires a <= b <= c
    ensures forall x :: x in Since(b, c) ==> x in Since(a, c)
  {
    SinceTransitive(a, b, c);
  }

  lemma StartedRun(from: Board, a: Board, b: Board, run: nat, shown: seq<nat>)
    requires Later(from, a) && |a.runs| <= run && Ticking(from, b, shown) && run < |b.runs|
    ensures |from.runs| <= run
  {
    hide Ok, RunKept, NewShown;
  }

  lemma SetTaskDoes(b: Board, t: nat, s: TaskStatus)
    requires t < |b.tasks|
    ensures SetTask(b, t, s).tasks[t].status == s
  {
  }

  lemma ElsewhereReviews(b: Board, c: Board, run: nat)
    requires Elsewhere(b, c) && run < |b.runs|
    ensures c.runs[run].review == b.runs[run].review && c.runs[run].task == b.runs[run].task
  {
    hide Ok, Load, LoadBut, Since;
    assert RunKept(b, c, run);
  }

  /** After something happened elsewhere the tick stands where it stood, with no more load. */
  lemma Follow(from: Board, b: Board, c: Board, shown: seq<nat>)
    requires Ticking(from, b, shown) && Elsewhere(b, c)
    ensures Ticking(from, c, shown) && Ok(c) && Later(from, c) && Load(c) <= Load(b)
    ensures |c.runs| == |b.runs| && |b.tasks| <= |c.tasks| && |b.reviews| <= |c.reviews|
  {
    hide Ticking, Elsewhere, Load, LoadBut, Ok;
    TickingElsewhere(from, b, c, shown);
    ElsewhereBounds(b, c);
    TickingMeans(from, c, shown);
  }

  lemma LoadButBound(b: Board, run: nat)
    ensures Load(b) <= LoadBut(b, run) + 1
  {
  }
}
