// What a tick does, step by step, as a function of the board it finds and of what
// happens elsewhere in between: which candidates get a run, and on which board each
// of them was claimed.

module DispatchTrace {
  import opened Text
  import opened DispatchBoard

  /** What happens elsewhere before the dispatcher's next step, and how that step turns out. */
  datatype Turn = Turn(steps: seq<Step>, yes: bool, raises: bool)

  /** Where the dispatcher stands: the board, and what is still to happen. */
  datatype Point = Point(board: Board, feed: seq<Turn>)

  predicate Yes(feed: seq<Turn>) {
    feed == [] || feed[0].yes
  }

  predicate Raises(feed: seq<Turn>) {
    feed != [] && feed[0].raises
  }

  /** The same runs, and no fewer tasks and reviews. */
  predicate Covers(b: Board, c: Board) {
    |c.runs| == |b.runs| && |c.tasks| >= |b.tasks| && |c.reviews| >= |b.reviews|
  }

  lemma ElsewhereBounds(b: Board, c: Board)
    requires Elsewhere(b, c)
    ensures Ok(c) && Covers(b, c) && Later(b, c)
    ensures Load(c) <= Load(b) && forall k: nat :: LoadBut(c, k) <= LoadBut(b, k)
  {
    hide Ok, RunKept, Load, LoadBut;
  }

  /** When the next step is taken: others have acted. */
  function Next(p: Point): (q: Point)
    requires Ok(p.board)
    ensures Ok(q.board) && Elsewhere(p.board, q.board) && Covers(p.board, q.board)
  {
    Unchanged(p.board);
    var b := if p.feed == [] then p.board else HappenAll(p.board, p.feed[0].steps);
    ElsewhereBounds(p.board, b);
    Point(b, if p.feed == [] then [] else p.feed[1..])
  }

  // ------------------------------------------------------------- single steps

  function Promote(t: Task): Task {
    if t.status == Waiting && t.released then t.(status := Ready) else t
  }

  function PromoteAll(b: Board): Board {
    b.(tasks := seq(|b.tasks|, i requires 0 <= i < |b.tasks| => Promote(b.tasks[i])))
  }

  lemma PromoteElsewhere(b: Board)
    requires Ok(b)
    ensures Elsewhere(b, PromoteAll(b))
  {
    hide Elsewhere, Live;
    RunsAlone(b, PromoteAll(b));
  }

  /** `promote_waiting_approval_ready`. */
  function Promoted(p: Point): (q: Point)
    requires Ok(p.board)
    ensures Ok(q.board) && Covers(p.board, q.board)
  {
    PromoteElsewhere(p.board);
    ElsewhereBounds(p.board, PromoteAll(p.board));
    p.(board := PromoteAll(p.board))
  }

  function WithTask(p: Point, t: nat, s: TaskStatus): (q: Point)
    requires Ok(p.board) && t < |p.board.tasks|
    ensures Ok(q.board) && Covers(p.board, q.board) && q.feed == p.feed
  {
    SetTaskElsewhere(p.board, t, s);
    ElsewhereBounds(p.board, SetTask(p.board, t, s));
    p.(board := SetTask(p.board, t, s))
  }

  function SetReview(b: Board, v: nat, s: ReviewStatus): Board
    requires v < |b.reviews|
  {
    b.(reviews := b.reviews[v := b.reviews[v].(status := s)])
  }

  function WithReview(p: Point, v: nat, s: ReviewStatus): (q: Point)
    requires Ok(p.board) && v < |p.board.reviews| && s != Pending
    ensures Ok(q.board) && Covers(p.board, q.board) && q.feed == p.feed
  {
    SetReviewElsewhere(p.board, v, s);
    ElsewhereBounds(p.board, SetReview(p.board, v, s));
    p.(board := SetReview(p.board, v, s))
  }

  function Start(b: Board, t: nat): Board {
    b.(runs := b.runs + [Run(t, Running, None, 0)])
  }

  lemma StartOk(b: Board, t: nat)
    requires Ok(b) && t < |b.tasks|
    ensures Ok(Start(b, t))
  {
  }

  /** `start_run`. */
  function Begun(p: Point, t: nat): (q: Point)
    requires Ok(p.board) && t < |p.board.tasks|
    ensures Ok(q.board) && |q.board.runs| == |p.board.runs| + 1 && q.feed == p.feed
    ensures q.board.tasks == p.board.tasks && q.board.reviews == p.board.reviews
  {
    StartOk(p.board, t);
    p.(board := Start(p.board, t))
  }

  lemma FinishSizes(b: Board, run: nat, to: RunStatus)
    requires run < |b.runs| && to != Running
    ensures var c := Finish(b, run, to);
            && |c.runs| == |b.runs| && c.tasks == b.tasks && c.reviews == b.reviews
            && c.runs[run].task == b.runs[run].task && c.runs[run].review == b.runs[run].review
  {
  }

  lemma SetPidSizes(b: Board, run: nat)
    requires run < |b.runs|
    ensures var c := SetPid(b, run);
            && |c.runs| == |b.runs| && c.tasks == b.tasks && c.reviews == b.reviews && c.runs[run].pid in c.alive
            && c.runs[run].task == b.runs[run].task && c.runs[run].review == b.runs[run].review
  {
  }

  /**
   * What becomes of a candidate: its claim is lost, it is claimed but closed as failed, its
   * wrapper runs, or an error after its run was started ends the whole tick.
   */
  datatype Outcome = Skipped | Down | Up | Lost {
    predicate Takes() {
      Up? || Lost?
    }
  }

  function Runs(run: nat, out: Outcome): seq<nat> {
    if out.Takes() then [run] else []
  }

  function OneOrNone(lost: Option<nat>): seq<nat> {
    if lost.None? then [] else [lost.value]
  }

  function Spawned(p: Point, run: nat): (q: Point)
    requires Ok(p.board) && run < |p.board.runs|
    ensures Ok(q.board) && Covers(p.board, q.board) && q.feed == p.feed
  {
    SetPidOk(p.board, run);
    SetPidSizes(p.board, run);
    p.(board := SetPid(p.board, run))
  }

  function GivenUp(p: Point, run: nat): (q: Point)
    requires Ok(p.board) && run < |p.board.runs|
    ensures Ok(q.board) && Covers(p.board, q.board) && q.feed == p.feed
  {
    FinishElsewhere(p.board, run, Over("failed"));
    ElsewhereBounds(p.board, Finish(p.board, run, Over("failed")));
    p.(board := Finish(p.board, run, Over("failed")))
  }

  /** `_launch`. */
  function LaunchStep(p: Point, run: nat): (r: (Point, Outcome))
    requires Ok(p.board) && run < |p.board.runs|
    ensures Ok(r.0.board) && Covers(p.board, r.0.board) && !r.1.Skipped?
  {
    var q := Next(p);
    if Raises(p.feed) then (q, Lost)
    else if Yes(p.feed) then (Spawned(q, run), Up) else (GivenUp(q, run), Down)
  }

  // ----------------------------------------------------------- one candidate

  function TaskFailed(p: Point, t: nat): (q: Point)
    requires Ok(p.board) && t < |p.board.tasks|
    ensures Ok(q.board) && Covers(p.board, q.board)
  {
    WithTask(Next(p), t, Ended("failed"))
  }

  function ReviewClosed(p: Point, v: nat, how: string): (q: Point)
    requires Ok(p.board) && v < |p.board.reviews|
    ensures Ok(q.board) && Covers(p.board, q.board)
  {
    WithReview(Next(p), v, Closed(how))
  }

  /** The body of the loop over the queue; a run it starts is numbered `|p.board.runs|`. */
  function TaskStep(p: Point, t: nat): (r: (Point, Outcome))
    requires Ok(p.board) && t < |p.board.tasks|
    ensures Ok(r.0.board) && |r.0.board.tasks| >= |p.board.tasks|
    ensures r.1.Skipped? <==> !Next(p).board.tasks[t].Claimable()
  {
    hide Ok, Elsewhere, Next, WithTask, Begun, LaunchStep, TaskFailed;
    var m := Next(p);
    if !m.board.tasks[t].Claimable() then (m, Skipped)
    else
      var c := WithTask(m, t, Claimed);
      var d := Next(c);
      if !Yes(c.feed) then (TaskFailed(d, t), Down)
      else
        var l := LaunchStep(Begun(d, t), |p.board.runs|);
        if l.1.Down? then (TaskFailed(l.0, t), Down) else l
  }

  /** No run has the review. */
  predicate Unreviewed(b: Board, v: nat) {
    forall i :: 0 <= i < |b.runs| ==> b.runs[i].review != Some(v)
  }

  lemma UnreviewedElsewhere(b: Board, c: Board, v: nat)
    requires Elsewhere(b, c) && Unreviewed(b, v) && v < |b.reviews| && b.reviews[v].status != Pending
    ensures Unreviewed(c, v) && v < |c.reviews| && c.reviews[v].status != Pending
  {
    hide Ok, Load, Since;
    forall i | 0 <= i < |c.runs| ensures c.runs[i].review != Some(v) {
      assert RunKept(b, c, i);
    }
  }

  lemma PendingUnreviewed(b: Board, v: nat)
    requires Ok(b) && v < |b.reviews| && b.reviews[v].status == Pending
    ensures Unreviewed(b, v)
  {
  }

  lemma ReviewTask(b: Board, v: nat)
    requires Ok(b) && v < |b.reviews|
    ensures b.reviews[v].task < |b.tasks|
  {
  }

  lemma ReviewOfRun(b: Board, run: nat)
    requires Ok(b) && run < |b.runs| && b.runs[run].review.Some?
    ensures b.runs[run].review.value < |b.reviews|
  {
  }

  function SetRunReview(b: Board, run: nat, v: nat): Board
    requires run < |b.runs|
  {
    b.(runs := b.runs[run := b.runs[run].(review := Some(v))])
  }

  lemma SetRunReviewOk(b: Board, run: nat, v: nat)
    requires Ok(b) && run < |b.runs| && v < |b.reviews| && b.reviews[v].status != Pending && Unreviewed(b, v)
    ensures Ok(SetRunReview(b, run, v))
  {
    hide Live;
  }

  /** A claimed review nobody has run yet. */
  predicate Taken(b: Board, v: nat) {
    v < |b.reviews| && b.reviews[v].status != Pending && Unreviewed(b, v)
  }

  /** `claim_review` of a pending one. */
  function TakeReview(p: Point, v: nat): (q: Point)
    requires Ok(p.board) && v < |p.board.reviews| && p.board.reviews[v].status == Pending
    ensures Ok(q.board) && Covers(p.board, q.board) && q.feed == p.feed && Taken(q.board, v)
  {
    hide Ok;
    PendingUnreviewed(p.board, v);
    WithReview(p, v, UnderReview)
  }

  /** `start_run` and `set_run_review` for the origin of the review. */
  function ReviewBegun(p: Point, v: nat): (q: Point)
    requires Ok(p.board) && Taken(p.board, v)
    ensures Ok(q.board) && |q.board.runs| == |p.board.runs| + 1
    ensures |q.board.tasks| >= |p.board.tasks| && |q.board.reviews| >= |p.board.reviews|
  {
    hide Ok, Elsewhere, Next;
    ReviewTask(p.board, v);
    var e := Begun(p, p.board.reviews[v].task);
    var f := Next(e);
    UnreviewedElsewhere(e.board, f.board, v);
    SetRunReviewOk(f.board, |p.board.runs|, v);
    f.(board := SetRunReview(f.board, |p.board.runs|, v))
  }

  /** The body of the loop over the reviews. */
  function ReviewStep(p: Point, v: nat): (r: (Point, Outcome))
    requires Ok(p.board) && v < |p.board.reviews|
    ensures Ok(r.0.board) && |r.0.board.reviews| >= |p.board.reviews|
    ensures r.1.Skipped? <==> Next(p).board.reviews[v].status != Pending
  {
    hide Ok, Elsewhere, Next, TakeReview, ReviewBegun, LaunchStep, ReviewClosed, Unreviewed;
    var m := Next(p);
    if m.board.reviews[v].status != Pending then (m, Skipped)
    else
      var c := TakeReview(m, v);
      var d := Next(c);
      UnreviewedElsewhere(c.board, d.board, v);
      if !Yes(c.feed) then (ReviewClosed(d, v, "blocked"), Down)
      else
        var l := LaunchStep(ReviewBegun(d, v), |p.board.runs|);
        if l.1.Down? then (ReviewClosed(l.0, v, "failed"), Down) else l
  }

  lemma StalledIsOk(b: Board, run: nat)
    requires Ok(b) && run < |b.runs|
    ensures Ok(MarkStalled(b, run))
    ensures b.runs[run].review.Some? ==> b.runs[run].review.value < |MarkStalled(b, run).reviews|
  {
    hide Ok, MarkStalled, Live, Load, LoadBut, RunKept;
    MarkStalledElsewhere(b, run);
    if b.runs[run].review.Some? {
      ReviewOfRun(b, run);
    }
  }

  /** A run found stalled is finalised with its task, and then its review is closed as failed. */
  function Stall(p: Point, run: nat): Point
    requires Ok(p.board) && run < |p.board.runs|
  {
    StalledIsOk(p.board, run);
    var q, review := p.(board := MarkStalled(p.board, run)), p.board.runs[run].review;
    if review.None? then q else ReviewClosed(q, review.value, "failed")
  }

  // -------------------------------------------------------------- whole queues

  /** Candidate number `turn` was given run `run`. */
  datatype Pick = Pick(run: nat, turn: nat)

  function RunsOf(picks: seq<Pick>): (r: seq<nat>)
    ensures |r| == |picks| && forall i :: 0 <= i < |r| ==> r[i] == picks[i].run
  {
    seq(|picks|, i requires 0 <= i < |picks| => picks[i].run)
  }

  /** How far a loop over candidates has come: the launched ones, and the one whose launch raised. */
  datatype Progress = Progress(at: Point, up: seq<Pick>, lost: Option<Pick>) {
    function Picks(): seq<Pick> {
      if lost.None? then up else up + [lost.value]
    }

    function LostRun(): Option<nat> {
      if lost.None? then None else Some(lost.value.run)
    }

    /** One more candidate. */
    function And(step: (Point, Outcome), turn: nat): Progress {
      var pick := Pick(|at.board.runs|, turn);
      match step.1
      case Up => Progress(step.0, up + [pick], lost)
      case Lost => Progress(step.0, up, Some(pick))
      case _ => Progress(step.0, up, lost)
    }
  }

  predicate InTasks(b: Board, queue: seq<nat>) {
    forall i :: 0 <= i < |queue| ==> queue[i] < |b.tasks|
  }

  predicate InReviews(b: Board, pending: seq<nat>) {
    forall i :: 0 <= i < |pending| ==> pending[i] < |b.reviews|
  }

  /** Step 4: the loop over the queue, which an error ends. */
  function Work(p: Point, queue: seq<nat>): (r: Progress)
    requires Ok(p.board) && InTasks(p.board, queue)
    ensures Ok(r.at.board) && |r.at.board.tasks| >= |p.board.tasks|
  {
    hide Ok, TaskStep;
    if queue == [] then Progress(p, [], None)
    else
      var n := |queue| - 1;
      var before := Work(p, queue[..n]);
      if before.lost.Some? then before else before.And(TaskStep(before.at, queue[n]), n)
  }

  /** The board on which candidate `i` of the queue is claimed or passed over. */
  function WhenClaimed(p: Point, queue: seq<nat>, i: nat): (b: Board)
    requires Ok(p.board) && InTasks(p.board, queue) && i < |queue|
    ensures |b.tasks| >= |p.board.tasks|
  {
    hide Ok, Work, Next;
    Next(Work(p, queue[..i]).at).board
  }

  /** Step 4b: the loop over the reviews, which ends when the slots are used up. */
  function Reviews(p: Point, pending: seq<nat>, free: nat): (r: Progress)
    requires Ok(p.board) && InReviews(p.board, pending)
    ensures Ok(r.at.board) && |r.at.board.reviews| >= |p.board.reviews| && |r.up| <= free
  {
    hide Ok, ReviewStep;
    if pending == [] then Progress(p, [], None)
    else
      var n := |pending| - 1;
      var before := Reviews(p, pending[..n], free);
      if before.lost.Some? || |before.up| == free then before
      else before.And(ReviewStep(before.at, pending[n]), n)
  }

  /** The board on which review `i` is claimed or passed over. */
  function WhenTaken(p: Point, pending: seq<nat>, free: nat, i: nat): (b: Board)
    requires Ok(p.board) && InReviews(p.board, pending) && i < |pending|
    ensures |b.reviews| >= |p.board.reviews|
  {
    hide Ok, Reviews, Next;
    Next(Reviews(p, pending[..i], free).at).board
  }

  /** The pick is of a task that could be claimed when its turn came; its run is new then. */
  predicate ClaimedRightly(p: Point, queue: seq<nat>, pick: Pick)
    requires Ok(p.board) && InTasks(p.board, queue)
  {
    && pick.turn < |queue|
    && WhenClaimed(p, queue, pick.turn).tasks[queue[pick.turn]].Claimable()
    && pick.run == |WhenClaimed(p, queue, pick.turn).runs|
  }

  /** The pick is of a review that was pending when its turn came. */
  predicate TakenRightly(p: Point, pending: seq<nat>, free: nat, pick: Pick)
    requires Ok(p.board) && InReviews(p.board, pending)
  {
    && pick.turn < |pending|
    && WhenTaken(p, pending, free, pick.turn).reviews[pending[pick.turn]].status == Pending
    && pick.run == |WhenTaken(p, pending, free, pick.turn).runs|
  }

  lemma NoWorkDone(p: Point)
    requires Ok(p.board)
    ensures Work(p, []) == Progress(p, [], None)
  {
    hide Ok;
  }

  lemma NoReviewsDone(p: Point, free: nat)
    requires Ok(p.board)
    ensures Reviews(p, [], free) == Progress(p, [], None)
  {
    hide Ok;
  }

  lemma WorkNext(p: Point, queue: seq<nat>, n: nat)
    requires Ok(p.board) && InTasks(p.board, queue) && n < |queue|
    ensures var before := Work(p, queue[..n]);
            before.lost.None? ==> Work(p, queue[..n + 1]) == before.And(TaskStep(before.at, queue[n]), n)
  {
    hide Ok, TaskStep;
    assert queue[..n + 1][..n] == queue[..n];
  }

  lemma ReviewsNext(p: Point, pending: seq<nat>, free: nat, n: nat)
    requires Ok(p.board) && InReviews(p.board, pending) && n < |pending|
    ensures var before := Reviews(p, pending[..n], free);
            before.lost.None? && |before.up| < free ==>
              Reviews(p, pending[..n + 1], free) == before.And(ReviewStep(before.at, pending[n]), n)
  {
    hide Ok, ReviewStep;
    assert pending[..n + 1][..n] == pending[..n];
  }

  /** The loop stands still once it was ended. */
  lemma {:induction false} WorkStops(p: Point, queue: seq<nat>, n: nat)
    requires Ok(p.board) && InTasks(p.board, queue) && n <= |queue| && Work(p, queue[..n]).lost.Some?
    ensures Work(p, queue) == Work(p, queue[..n])
  {
    hide Ok, TaskStep;
    if n == |queue| {
      assert queue[..n] == queue;
    } else {
      assert queue[..|queue| - 1][..n] == queue[..n];
      WorkStops(p, queue[..|queue| - 1], n);
    }
  }

  lemma {:induction false} ReviewsStop(p: Point, pending: seq<nat>, free: nat, n: nat)
    requires Ok(p.board) && InReviews(p.board, pending) && n <= |pending|
    requires var r := Reviews(p, pending[..n], free); r.lost.Some? || |r.up| == free
    ensures Reviews(p, pending, free) == Reviews(p, pending[..n], free)
  {
    hide Ok, ReviewStep;
    if n == |pending| {
      assert pending[..n] == pending;
    } else {
      assert pending[..|pending| - 1][..n] == pending[..n];
      ReviewsStop(p, pending[..|pending| - 1], free, n);
    }
  }

  lemma ClaimedInit(p: Point, queue: seq<nat>, n: nat, pick: Pick)
    requires Ok(p.board) && InTasks(p.board, queue) && n <= |queue| && ClaimedRightly(p, queue[..n], pick)
    ensures ClaimedRightly(p, queue, pick)
  {
    hide Ok, Work, Next;
    assert queue[..n][..pick.turn] == queue[..pick.turn];
  }

  lemma TakenInit(p: Point, pending: seq<nat>, free: nat, n: nat, pick: Pick)
    requires Ok(p.board) && InReviews(p.board, pending) && n <= |pending| && TakenRightly(p, pending[..n], free, pick)
    ensures TakenRightly(p, pending, free, pick)
  {
    hide Ok, Reviews, Next;
    assert pending[..n][..pick.turn] == pending[..pick.turn];
  }

  /** Every candidate that was given a run could be claimed when its turn came. */
  lemma {:induction false} WorkClaimsRightly(p: Point, queue: seq<nat>)
    requires Ok(p.board) && InTasks(p.board, queue)
    ensures forall k :: k in Work(p, queue).Picks() ==> ClaimedRightly(p, queue, k)
  {
    hide Ok, Next, TaskStep, ClaimedRightly;
    if queue != [] {
      var n := |queue| - 1;
      var before := Work(p, queue[..n]);
      WorkClaimsRightly(p, queue[..n]);
      forall k | k in Work(p, queue).Picks() ensures ClaimedRightly(p, queue, k) {
        if k in before.Picks() {
          ClaimedInit(p, queue, n, k);
        } else {
          ClaimedLast(p, queue);
        }
      }
    }
  }

  lemma ClaimedLast(p: Point, queue: seq<nat>)
    requires Ok(p.board) && InTasks(p.board, queue) && queue != []
    ensures var n := |queue| - 1;
            var before := Work(p, queue[..n]);
            var pick := Pick(|before.at.board.runs|, n);
            !TaskStep(before.at, queue[n]).1.Skipped? ==> ClaimedRightly(p, queue, pick)
  {
    hide Ok, Work, Next, TaskStep;
  }

  /** Every review that was given a run was pending when its turn came. */
  lemma {:induction false} ReviewsTakeRightly(p: Point, pending: seq<nat>, free: nat)
    requires Ok(p.board) && InReviews(p.board, pending)
    ensures forall k :: k in Reviews(p, pending, free).Picks() ==> TakenRightly(p, pending, free, k)
  {
    hide Ok, Next, ReviewStep, TakenRightly;
    if pending != [] {
      var n := |pending| - 1;
      var before := Reviews(p, pending[..n], free);
      ReviewsTakeRightly(p, pending[..n], free);
      forall k | k in Reviews(p, pending, free).Picks() ensures TakenRightly(p, pending, free, k) {
        if k in before.Picks() {
          TakenInit(p, pending, free, n, k);
        } else {
          TakenLast(p, pending, free);
        }
      }
    }
  }

  lemma TakenLast(p: Point, pending: seq<nat>, free: nat)
    requires Ok(p.board) && InReviews(p.board, pending) && pending != []
    ensures var n := |pending| - 1;
            var before := Reviews(p, pending[..n], free);
            var pick := Pick(|before.at.board.runs|, n);
            !ReviewStep(before.at, pending[n]).1.Skipped? ==> TakenRightly(p, pending, free, pick)
  {
    hide Ok, Reviews, Next, ReviewStep;
  }

  // ------------------------------------------------------- when nobody interferes

  /** Nobody else acts, every project is there and every wrapper can be spawned. */
  predicate Quiet(feed: seq<Turn>) {
    forall i :: 0 <= i < |feed| ==> feed[i].steps == [] && feed[i].yes && !feed[i].raises
  }

  lemma QuietNext(p: Point)
    requires Ok(p.board) && Quiet(p.feed)
    ensures Next(p).board == p.board && Quiet(Next(p).feed) && Yes(p.feed) && !Raises(p.feed)
  {
    hide Ok, Elsewhere, Happen;
  }

  lemma QuietLaunch(p: Point, run: nat)
    requires Ok(p.board) && Quiet(p.feed) && run < |p.board.runs|
    ensures var (q, out) := LaunchStep(p, run); out.Up? && q.board.tasks == p.board.tasks && Quiet(q.feed)
  {
    hide Ok, Next;
    QuietNext(p);
    SetPidSizes(p.board, run);
  }

  lemma QuietTask(p: Point, t: nat)
    requires Ok(p.board) && Quiet(p.feed) && t < |p.board.tasks| && p.board.tasks[t].Claimable()
    ensures var (q, out) := TaskStep(p, t);
            && out.Up? && Quiet(q.feed)
            && q.board.tasks == p.board.tasks[t := p.board.tasks[t].(status := Claimed)]
  {
    hide Ok, Elsewhere, Next, LaunchStep, TaskFailed, Quiet;
    QuietNext(p);
    var c := WithTask(Next(p), t, Claimed);
    QuietNext(c);
    QuietLaunch(Begun(Next(c), t), |p.board.runs|);
  }

  /** Each candidate has its run, and nothing else about the tasks has changed. */
  predicate Served(p: Point, queue: seq<nat>, r: Progress) {
    && r.lost.None? && |r.up| == |queue| && Quiet(r.at.feed) && |r.at.board.tasks| >= |p.board.tasks|
    && (forall i :: 0 <= i < |queue| ==> r.up[i].turn == i)
    && forall t :: 0 <= t < |p.board.tasks| && t !in queue ==> r.at.board.tasks[t] == p.board.tasks[t]
  }

  lemma ServedNext(p: Point, queue: seq<nat>, before: Progress, t: nat)
    requires Ok(before.at.board) && Served(p, queue, before) && t !in queue
    requires t < |p.board.tasks| && p.board.tasks[t].Claimable()
    ensures t < |before.at.board.tasks| && Served(p, queue + [t], before.And(TaskStep(before.at, t), |queue|))
  {
    hide Ok, TaskStep, Quiet, Task.Claimable;
    QuietTask(before.at, t);
  }

  /** Then every task of a queue of claimable ones is given a run, in order. */
  lemma {:induction false} QuietWorkServesAll(p: Point, queue: seq<nat>)
    requires Ok(p.board) && InTasks(p.board, queue) && Quiet(p.feed) && Distinct(queue)
    requires forall i :: 0 <= i < |queue| ==> p.board.tasks[queue[i]].Claimable()
    ensures Served(p, queue, Work(p, queue))
  {
    if queue == [] {
      hide Ok, Quiet;
    } else {
      hide Ok, TaskStep, Quiet, Served, Task.Claimable;
      var n := |queue| - 1;
      QuietWorkServesAll(p, queue[..n]);
      ServedMeans(p, queue[..n], Work(p, queue[..n]));
      ServedNext(p, queue[..n], Work(p, queue[..n]), queue[n]);
      assert queue == queue[..n] + [queue[n]];
    }
  }

  lemma ServedMeans(p: Point, queue: seq<nat>, r: Progress)
    requires Served(p, queue, r)
    ensures r.lost.None? && |r.up| == |queue|
  {
  }

  // ----------------------------------------------------- what a tick may start

  /** May be run: not kept for the owner, and ready, sent back, or waiting with its approval given. */
  predicate Eligible(t: Task) {
    !t.held && (t.status == Ready || t.status == Rework || (t.status == Waiting && t.released))
  }

  /** Promotion is for approved tasks only, and changes nothing but the status. */
  lemma PromotedExact(p: Point)
    requires Ok(p.board)
    ensures var q := Promoted(p);
            && q.feed == p.feed && q.board.runs == p.board.runs && q.board.reviews == p.board.reviews
            && |q.board.tasks| == |p.board.tasks|
            && forall t :: 0 <= t < |p.board.tasks| ==>
                 && q.board.tasks[t].age == p.board.tasks[t].age
                 && (q.board.tasks[t].Claimable() <==> Eligible(p.board.tasks[t]))
  {
    hide Ok, Elsewhere;
  }

  /** Nobody moves the task: what else may happen to a task makes it neither ready nor sent back. */
  predicate Untouched(feed: seq<Turn>, t: nat) {
    forall i, j :: 0 <= i < |feed| && 0 <= j < |feed[i].steps| && feed[i].steps[j].Edit? ==> feed[i].steps[j].task != t
  }

  /** The task cannot be claimed. */
  predicate Parked(b: Board, t: nat) {
    t < |b.tasks| && b.tasks[t].status != Ready && b.tasks[t].status != Rework
  }

  lemma StepKeepsParked(b: Board, s: Step, t: nat)
    requires Ok(b) && Parked(b, t) && (s.Edit? ==> s.task != t)
    ensures Parked(Happen(b, s), t)
  {
    hide Live;
  }

  lemma {:induction false} StepsKeepParked(b: Board, steps: seq<Step>, t: nat)
    requires Ok(b) && Parked(b, t) && forall j :: 0 <= j < |steps| && steps[j].Edit? ==> steps[j].task != t
    ensures Parked(HappenAll(b, steps), t)
  {
    hide Ok, Elsewhere, Happen, Parked;
    if steps != [] {
      var n := |steps| - 1;
      StepsKeepParked(b, steps[..n], t);
      ElsewhereOk(b, HappenAll(b, steps[..n]));
      StepKeepsParked(HappenAll(b, steps[..n]), steps[n], t);
    }
  }

  lemma NextKeepsParked(p: Point, t: nat)
    requires Ok(p.board) && Parked(p.board, t) && Untouched(p.feed, t)
    ensures Parked(Next(p).board, t) && Untouched(Next(p).feed, t)
  {
    hide Ok, Elsewhere, HappenAll, Parked;
    if p.feed != [] {
      StepsKeepParked(p.board, p.feed[0].steps, t);
      assert forall i :: 0 <= i < |p.feed[1..]| ==> p.feed[1..][i] == p.feed[i + 1];
    }
  }
}
