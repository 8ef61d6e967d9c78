// backend/memory.py: the generation-checked cache of Hermes bridge reads, with
// reads and invalidations of several threads overlapping.

module ReadCache {
  import opened Text

  /** What was asked, and for which home. */
  datatype Key = Key(kind: string, home: string)

  datatype Value = Value(text: string, isError: bool)

  /** `begun` and `kept` are moments of the history: when its computation began, and when it was stored. */
  datatype Entry = Entry(stamp: int, value: Value, begun: nat, kept: nat)

  /** A read under way: the generation it saw, and when. */
  datatype Call = Call(key: Key, stamp: int, gen: nat, begun: nat)

  /**
   * `moment` counts steps. `swept` and `bumped` tell when each home's entries
   * were last thrown out and its generation last raised; `halfDone` counts the
   * invalidations of a home between the two.
   */
  datatype State = State(
    moment: nat, cache: map<Key, Entry>, gen: map<string, nat>, calls: map<nat, Call>,
    swept: map<string, nat>, bumped: map<string, nat>, halfDone: map<string, nat>)

  const EMPTY := State(1, map[], map[], map[], map[], map[], map[])

  datatype Step =
    | Begin(call: nat, key: Key, stamp: int)
    | Finish(call: nat, value: Value)
    | Sweep(home: string)
    | Bump(home: string)

  function At(m: map<string, nat>, h: string): nat {
    if h in m then m[h] else 0
  }

  function BeginCall(s: State, call: nat, key: Key, stamp: int): State {
    s.(moment := s.moment + 1, calls := s.calls[call := Call(key, stamp, At(s.gen, key.home), s.moment)])
  }

  /** Checking the generation and storing are one step. */
  function FinishCall(s: State, call: nat, value: Value): State
    requires call in s.calls
  {
    var c := s.calls[call];
    s.(moment := s.moment + 1, calls := s.calls - {call},
       cache := if At(s.gen, c.key.home) == c.gen && !value.isError
                then s.cache[c.key := Entry(c.stamp, value, c.begun, s.moment)] else s.cache)
  }

  function SweepHome(s: State, h: string): State {
    s.(moment := s.moment + 1, cache := map k | k in s.cache && k.home != h :: s.cache[k],
       swept := s.swept[h := s.moment], halfDone := s.halfDone[h := At(s.halfDone, h) + 1])
  }

  function BumpHome(s: State, h: string): State
    requires At(s.halfDone, h) > 0
  {
    s.(moment := s.moment + 1, gen := s.gen[h := At(s.gen, h) + 1], bumped := s.bumped[h := s.moment],
       halfDone := s.halfDone[h := At(s.halfDone, h) - 1])
  }

  function Apply(s: State, step: Step): State {
    match step
    case Begin(call, key, stamp) => BeginCall(s, call, key, stamp)
    case Finish(call, value) => if call in s.calls then FinishCall(s, call, value) else s
    case Sweep(h) => SweepHome(s, h)
    case Bump(h) => if At(s.halfDone, h) > 0 then BumpHome(s, h) else s
  }

  function Run(s: State, steps: seq<Step>): State {
    if steps == [] then s else Apply(Run(s, steps[..|steps| - 1]), steps[|steps| - 1])
  }

  /** A value whose computation began before its home was last swept. */
  predicate Stale(s: State, k: Key)
    requires k in s.cache
  {
    s.cache[k].begun < At(s.swept, k.home)
  }

  /** It was stored between the two halves of an invalidation. */
  predicate SlippedIn(s: State, k: Key)
    requires k in s.cache
  {
    At(s.swept, k.home) < s.cache[k].kept && (s.cache[k].kept < At(s.bumped, k.home) || At(s.halfDone, k.home) > 0)
  }

  /**
   * No generation was raised between a value's beginning and its being stored, and sweeps leave
   * nothing older behind.
   */
  predicate EntryOk(s: State, k: Key)
    requires k in s.cache
  {
    var e, h := s.cache[k], k.home;
    && !e.value.isError && e.begun < e.kept < s.moment && At(s.swept, h) < e.kept
    && (At(s.bumped, h) < e.begun || e.kept < At(s.bumped, h))
  }

  /** A call whose generation is still the home's began after its last raising. */
  predicate CallOk(s: State, c: Call) {
    && c.begun < s.moment && c.gen <= At(s.gen, c.key.home)
    && (c.gen == At(s.gen, c.key.home) ==> At(s.bumped, c.key.home) < c.begun)
  }

  /** While no invalidation is half done, the last raising came after the last sweep. */
  predicate HomeOk(s: State, h: string) {
    && At(s.swept, h) < s.moment && At(s.bumped, h) < s.moment
    && (At(s.halfDone, h) == 0 ==> At(s.swept, h) <= At(s.bumped, h))
  }

  ghost predicate Valid(s: State) {
    && s.moment > 0
    && (forall k :: k in s.cache ==> EntryOk(s, k))
    && (forall i :: i in s.calls ==> CallOk(s, s.calls[i]))
    && (forall h :: HomeOk(s, h))
  }

  lemma BeginKeeps(s: State, call: nat, key: Key, stamp: int)
    requires Valid(s)
    ensures Valid(BeginCall(s, call, key, stamp))
  {
    var t := BeginCall(s, call, key, stamp);
    assert HomeOk(s, key.home);
    forall h ensures HomeOk(t, h) {
      assert HomeOk(s, h);
    }
    forall i | i in t.calls && i != call ensures CallOk(t, t.calls[i]) {
      assert CallOk(s, s.calls[i]);
    }
    forall k | k in t.cache ensures EntryOk(t, k) {
      assert EntryOk(s, k);
    }
  }

  lemma FinishKeeps(s: State, call: nat, value: Value)
    requires Valid(s) && call in s.calls
    ensures Valid(FinishCall(s, call, value))
  {
    var t := FinishCall(s, call, value);
    assert CallOk(s, s.calls[call]) && HomeOk(s, s.calls[call].key.home);
    forall h ensures HomeOk(t, h) {
      assert HomeOk(s, h);
    }
    forall i | i in t.calls ensures CallOk(t, t.calls[i]) {
      assert CallOk(s, s.calls[i]);
    }
    forall k | k in t.cache && k in s.cache ensures EntryOk(t, k) {
      assert EntryOk(s, k);
    }
  }

  lemma SweepKeeps(s: State, h: string)
    requires Valid(s)
    ensures Valid(SweepHome(s, h))
  {
    var t := SweepHome(s, h);
    forall g ensures HomeOk(t, g) {
      assert HomeOk(s, g);
    }
    forall i | i in t.calls ensures CallOk(t, t.calls[i]) {
      assert CallOk(s, s.calls[i]);
    }
    forall k | k in t.cache ensures EntryOk(t, k) {
      assert EntryOk(s, k);
    }
  }

  lemma BumpKeeps(s: State, h: string)
    requires Valid(s) && At(s.halfDone, h) > 0
    ensures Valid(BumpHome(s, h))
  {
    var t := BumpHome(s, h);
    forall g ensures HomeOk(t, g) {
      assert HomeOk(s, g);
    }
    forall i | i in t.calls ensures CallOk(t, t.calls[i]) {
      assert CallOk(s, s.calls[i]);
    }
    forall k | k in t.cache ensures EntryOk(t, k) {
      assert EntryOk(s, k);
    }
  }

  lemma StepKeeps(s: State, step: Step)
    requires Valid(s)
    ensures Valid(Apply(s, step))
  {
    hide Valid, BeginCall, FinishCall, SweepHome, BumpHome;
    match step
    case Begin(call, key, stamp) => BeginKeeps(s, call, key, stamp);
    case Finish(call, value) => if call in s.calls { FinishKeeps(s, call, value); }
    case Sweep(h) => SweepKeeps(s, h);
    case Bump(h) => if At(s.halfDone, h) > 0 { BumpKeeps(s, h); }
  }

  lemma {:induction false} RunKeeps(s: State, steps: seq<Step>)
    requires Valid(s)
    ensures Valid(Run(s, steps))
  {
    hide Valid, Apply;
    if steps != [] {
      RunKeeps(s, steps[..|steps| - 1]);
      StepKeeps(Run(s, steps[..|steps| - 1]), steps[|steps| - 1]);
    }
  }

  lemma EmptyValid()
    ensures Valid(EMPTY)
  {
  }

  /**
   * In every reachable state no error is cached, and a stale value is one that slipped in between
   * sweep and raising.
   */
  lemma OnlySlippedInIsStale(steps: seq<Step>, k: Key)
    requires k in Run(EMPTY, steps).cache
    ensures !Run(EMPTY, steps).cache[k].value.isError
    ensures Stale(Run(EMPTY, steps), k) ==> SlippedIn(Run(EMPTY, steps), k)
  {
    hide Run;
    EmptyValid();
    RunKeeps(EMPTY, steps);
    assert EntryOk(Run(EMPTY, steps), k) && HomeOk(Run(EMPTY, steps), k.home);
  }

  /** The step returns a value that is kept for `k`: its generation is current and it is no error. */
  predicate Keeps(s: State, step: Step, k: Key) {
    && step.Finish? && step.call in s.calls && s.calls[step.call].key == k
    && At(s.gen, k.home) == s.calls[step.call].gen && !step.value.isError
  }

  /** It does, though the home was swept since the read began. */
  predicate KeepsStale(s: State, step: Step, k: Key) {
    Keeps(s, step, k) && s.calls[step.call].begun < At(s.swept, k.home)
  }

  /** What is cached for `k` does not outlive the step. */
  predicate Renews(s: State, step: Step, k: Key) {
    Keeps(s, step, k) || step == Sweep(k.home)
  }

  predicate StaleAt(s: State, k: Key) {
    k in s.cache && Stale(s, k)
  }

  /** A stale value can only be kept while an invalidation of its home is half done. */
  lemma KeptHalfWay(s: State, step: Step, k: Key)
    requires Valid(s) && KeepsStale(s, step, k)
    ensures At(s.halfDone, k.home) > 0
  {
    assert CallOk(s, s.calls[step.call]) && HomeOk(s, k.home);
  }

  lemma StaleStep(s: State, step: Step, k: Key)
    ensures StaleAt(Apply(s, step), k) <==> KeepsStale(s, step, k) || (!Renews(s, step, k) && StaleAt(s, k))
  {
  }

  /** Step `i` of a history keeps a stale value that nothing later renews; an invalidation was half done then. */
  predicate LeavesStale(steps: seq<Step>, k: Key, i: nat)
    requires i < |steps|
  {
    && KeepsStale(Run(EMPTY, steps[..i]), steps[i], k) && At(Run(EMPTY, steps[..i]).halfDone, k.home) > 0
    && forall j :: i < j < |steps| ==> !Renews(Run(EMPTY, steps[..j]), steps[j], k)
  }

  lemma LeavesStaleInit(steps: seq<Step>, k: Key, i: nat)
    requires steps != [] && i < |steps| - 1
    ensures LeavesStale(steps, k, i) <==>
            var n := |steps| - 1; LeavesStale(steps[..n], k, i) && !Renews(Run(EMPTY, steps[..n]), steps[n], k)
  {
    hide KeepsStale, Renews, Run;
    var n := |steps| - 1;
    assert forall j :: 0 <= j <= n ==> steps[..n][..j] == steps[..j];
    assert forall j :: 0 <= j < n ==> steps[..n][j] == steps[j];
  }

  /**
   * When exactly the cache serves a stale value: some read was kept in the middle of an
   * invalidation and not renewed since.
   */
  lemma {:induction false} StaleExact(steps: seq<Step>, k: Key)
    ensures StaleAt(Run(EMPTY, steps), k) <==> exists i :: 0 <= i < |steps| && LeavesStale(steps, k, i)
  {
    if steps != [] {
      var n := |steps| - 1;
      var s := Run(EMPTY, steps[..n]);
      StaleExact(steps[..n], k);
      StaleStep(s, steps[n], k);
      EmptyValid();
      RunKeeps(EMPTY, steps[..n]);
      hide Valid, KeepsStale, Renews, StaleAt, Apply;
      forall i | 0 <= i < n
        ensures LeavesStale(steps, k, i) <==> LeavesStale(steps[..n], k, i) && !Renews(s, steps[n], k)
      {
        LeavesStaleInit(steps, k, i);
      }
      if KeepsStale(s, steps[n], k) {
        KeptHalfWay(s, steps[n], k);
        assert LeavesStale(steps, k, n);
      }
    }
  }

  // ------------------------------------------------------ what a hit returns

  predicate Concerns(step: Step, call: nat) {
    (step.Begin? || step.Finish?) && step.call == call
  }

  /** Step `i` begins the read `call` of `k`, and nothing more is heard of that read before step `n`. */
  predicate Opens(steps: seq<Step>, i: int, n: int, call: nat, k: Key, stamp: int) {
    && 0 <= i < n <= |steps| && steps[i] == Begin(call, k, stamp)
    && forall m :: i < m < n ==> !Concerns(steps[m], call)
  }

  /** Step `m` raises the generation of the home. */
  predicate Raises(steps: seq<Step>, m: nat, h: string)
    requires m < |steps|
  {
    steps[m] == Bump(h) && At(Run(EMPTY, steps[..m]).halfDone, h) > 0
  }

  predicate Unraised(steps: seq<Step>, i: int, n: int, h: string)
    requires 0 <= i <= n <= |steps|
  {
    forall m :: i <= m < n ==> !Raises(steps, m, h)
  }

  /** The read begun at `i` returns `v`, no error, at `j`, and its home's generation was not raised between. */
  predicate Stores(steps: seq<Step>, i: int, j: int, k: Key, v: Value, stamp: int) {
    && 0 <= i < j < |steps| && steps[j].Finish? && steps[j].value == v && !v.isError
    && Opens(steps, i, j, steps[j].call, k, stamp) && Unraised(steps, i, j, k.home)
  }

  /** Step `j` leaves something of its own cached for `k`, or throws out what there was. */
  ghost predicate Replaces(steps: seq<Step>, j: nat, k: Key)
    requires j < |steps|
  {
    steps[j] == Sweep(k.home) || exists i, v, stamp :: Stores(steps, i, j, k, v, stamp)
  }

  /** The last value stored for `k` is `v`, and nothing replaced it since. */
  ghost predicate Holds(steps: seq<Step>, i: int, j: int, k: Key, v: Value, stamp: int) {
    Stores(steps, i, j, k, v, stamp) && forall m :: j < m < |steps| ==> !Replaces(steps, m, k)
  }

  ghost predicate CachedAs(s: State, k: Key, v: Value, stamp: int) {
    k in s.cache && s.cache[k].value == v && s.cache[k].stamp == stamp
  }

  lemma GenStep(s: State, step: Step, h: string)
    ensures At(Apply(s, step).gen, h) ==
            At(s.gen, h) + if step == Bump(h) && At(s.halfDone, h) > 0 then 1 else 0
  {
  }

  /** Generations only rise, and by nothing else. */
  lemma {:induction false} GenExact(steps: seq<Step>, i: nat, n: nat, h: string)
    requires i <= n <= |steps|
    ensures At(Run(EMPTY, steps[..i]).gen, h) <= At(Run(EMPTY, steps[..n]).gen, h)
    ensures At(Run(EMPTY, steps[..i]).gen, h) == At(Run(EMPTY, steps[..n]).gen, h) <==> Unraised(steps, i, n, h)
  {
    hide Apply, At;
    if i < n {
      GenExact(steps, i, n - 1, h);
      assert steps[..n][..n - 1] == steps[..n - 1];
      GenStep(Run(EMPTY, steps[..n - 1]), steps[n - 1], h);
      hide Run;
      assert Unraised(steps, i, n, h) <==> Unraised(steps, i, n - 1, h) && !Raises(steps, n - 1, h);
    }
  }

  /** A read under way was begun and not heard of since; it knows its key, its time and generation. */
  lemma {:induction false} CallExact(steps: seq<Step>, n: nat, call: nat) returns (i: int)
    requires n <= |steps| && call in Run(EMPTY, steps[..n]).calls
    ensures var c := Run(EMPTY, steps[..n]).calls[call];
            Opens(steps, i, n, call, c.key, c.stamp) && c.gen == At(Run(EMPTY, steps[..i]).gen, c.key.home)
  {
    assert steps[..n][..n - 1] == steps[..n - 1];
    if Concerns(steps[n - 1], call) {
      i := n - 1;
    } else {
      i := CallExact(steps, n - 1, call);
    }
  }

  lemma {:induction false} OpenCall(steps: seq<Step>, i: int, n: nat, call: nat, k: Key, stamp: int)
    requires Opens(steps, i, n, call, k, stamp)
    ensures var s := Run(EMPTY, steps[..n]);
            && call in s.calls && s.calls[call].key == k && s.calls[call].stamp == stamp
            && s.calls[call].gen == At(Run(EMPTY, steps[..i]).gen, k.home)
  {
    hide Apply, At, Concerns;
    assert steps[..n][..n - 1] == steps[..n - 1] && steps[..n][n - 1] == steps[n - 1];
    var before := Run(EMPTY, steps[..n - 1]);
    if i < n - 1 {
      OpenCall(steps, i, n - 1, call, k, stamp);
      assert !Concerns(steps[n - 1], call);
      CallStays(before, steps[n - 1], call);
    } else {
      CallBegins(before, call, k, stamp);
    }
  }

  lemma CallStays(s: State, step: Step, call: nat)
    requires call in s.calls && !Concerns(step, call)
    ensures call in Apply(s, step).calls && Apply(s, step).calls[call] == s.calls[call]
  {
  }

  lemma CallBegins(s: State, call: nat, k: Key, stamp: int)
    ensures var t := Apply(s, Begin(call, k, stamp));
            && call in t.calls && t.calls[call].key == k && t.calls[call].stamp == stamp
            && t.calls[call].gen == At(s.gen, k.home)
  {
  }

  /** What the last step stores is what it finds computed. */
  lemma StoresExact(steps: seq<Step>, j: nat, k: Key, v: Value, stamp: int)
    requires j < |steps|
    ensures (exists i :: Stores(steps, i, j, k, v, stamp)) <==>
            var s := Run(EMPTY, steps[..j]);
            Keeps(s, steps[j], k) && steps[j].value == v && s.calls[steps[j].call].stamp == stamp
  {
    hide Run;
    var s := Run(EMPTY, steps[..j]);
    forall i | Stores(steps, i, j, k, v, stamp)
      ensures Keeps(s, steps[j], k) && s.calls[steps[j].call].stamp == stamp
    {
      OpenCall(steps, i, j, steps[j].call, k, stamp);
      GenExact(steps, i, j, k.home);
    }
    if Keeps(s, steps[j], k) && steps[j].value == v && s.calls[steps[j].call].stamp == stamp {
      var i := CallExact(steps, j, steps[j].call);
      GenExact(steps, i, j, k.home);
      assert Stores(steps, i, j, k, v, stamp);
    }
  }

  lemma ReplacesExact(steps: seq<Step>, j: nat, k: Key)
    requires j < |steps|
    ensures Replaces(steps, j, k) <==> Renews(Run(EMPTY, steps[..j]), steps[j], k)
  {
    hide Run, Stores;
    var s := Run(EMPTY, steps[..j]);
    if Keeps(s, steps[j], k) {
      StoresExact(steps, j, k, steps[j].value, s.calls[steps[j].call].stamp);
    }
    forall i, v, stamp | Stores(steps, i, j, k, v, stamp) ensures Keeps(s, steps[j], k) {
      StoresExact(steps, j, k, v, stamp);
    }
  }

  lemma CachedStep(s: State, step: Step, k: Key, v: Value, stamp: int)
    ensures CachedAs(Apply(s, step), k, v, stamp) <==>
            || (Keeps(s, step, k) && step.value == v && s.calls[step.call].stamp == stamp)
            || (!Renews(s, step, k) && CachedAs(s, k, v, stamp))
  {
  }

  lemma HoldsInit(steps: seq<Step>, n: nat, i: int, j: int, k: Key, v: Value, stamp: int)
    requires n < |steps| && j < n
    ensures Holds(steps[..n + 1], i, j, k, v, stamp) <==>
            Holds(steps[..n], i, j, k, v, stamp) && !Replaces(steps[..n + 1], n, k)
  {
    var a, b := steps[..n], steps[..n + 1];
    assert forall m :: 0 <= m <= n ==> a[..m] == b[..m];
    assert forall m :: 0 <= m < n ==> a[m] == b[m];
    hide Run;
    forall m, x, w, t | m < n ensures Stores(a, x, m, k, w, t) <==> Stores(b, x, m, k, w, t) {
      StoresInit(a, b, x, m, k, w, t);
    }
    hide Stores;
    assert forall m :: 0 <= m < n ==> (Replaces(a, m, k) <==> Replaces(b, m, k));
  }

  lemma StoresInit(a: seq<Step>, b: seq<Step>, i: int, j: int, k: Key, v: Value, stamp: int)
    requires |a| <= |b| && j < |a| && a == b[..|a|]
    ensures Stores(a, i, j, k, v, stamp) <==> Stores(b, i, j, k, v, stamp)
  {
    hide Run;
    if 0 <= i < j {
      forall m: nat | m < |a| ensures a[m] == b[m] && (Raises(a, m, k.home) <==> Raises(b, m, k.home)) {
        assert a[..m] == b[..m];
      }
      if Unraised(b, i, j, k.home) {
        assert forall m :: i <= m < j ==> (Raises(a, m, k.home) ==> Raises(b, m, k.home));
      }
    }
  }

  lemma HoldsSplit(steps: seq<Step>, n: nat, k: Key, v: Value, stamp: int)
    requires |steps| == n + 1
    ensures (exists i, j :: Holds(steps, i, j, k, v, stamp)) <==>
            || (exists i :: Stores(steps, i, n, k, v, stamp))
            || (!Replaces(steps, n, k) && exists i, j :: Holds(steps[..n], i, j, k, v, stamp))
  {
    assert steps[..n + 1] == steps;
    forall i, j | j < n
      ensures Holds(steps, i, j, k, v, stamp) <==> Holds(steps[..n], i, j, k, v, stamp) && !Replaces(steps, n, k)
    {
      HoldsInit(steps, n, i, j, k, v, stamp);
    }
    forall i, j | Holds(steps, i, j, k, v, stamp) || Holds(steps[..n], i, j, k, v, stamp)
      ensures j < |steps| && (j == n || Holds(steps[..n], i, j, k, v, stamp) || !Holds(steps, i, j, k, v, stamp))
      ensures Holds(steps[..n], i, j, k, v, stamp) ==> j < n
    {
    }
    hide Stores, Replaces;
    forall i ensures Holds(steps, i, n, k, v, stamp) <==> Stores(steps, i, n, k, v, stamp) {
    }
  }

  /**
   * A value is cached for `k` exactly when some read of `k` returned it, its home's generation not
   * raised while it was computed, and nothing stored or thrown out for `k` since.
   */
  lemma {:induction false} CachedExact(steps: seq<Step>, k: Key, v: Value, stamp: int)
    ensures CachedAs(Run(EMPTY, steps), k, v, stamp) <==> exists i, j :: Holds(steps, i, j, k, v, stamp)
  {
    if steps != [] {
      var n := |steps| - 1;
      var s := Run(EMPTY, steps[..n]);
      assert steps[..n + 1] == steps;
      CachedExact(steps[..n], k, v, stamp);
      CachedStep(s, steps[n], k, v, stamp);
      StoresExact(steps, n, k, v, stamp);
      ReplacesExact(steps, n, k);
      hide Run, Apply, Stores, Keeps, Renews, Replaces, CachedAs, Holds;
      HoldsSplit(steps, n, k, v, stamp);
    }
  }

  // ------------------------------------------------ invalidations as one step

  datatype Event =
    | Reads(call: nat, key: Key, stamp: int)
    | Returns(call: nat, value: Value)
    | Invalidates(home: string)

  function Happen(s: State, e: Event): State {
    match e
    case Reads(call, key, stamp) => Apply(s, Begin(call, key, stamp))
    case Returns(call, value) => Apply(s, Finish(call, value))
    case Invalidates(h) => Apply(Apply(s, Sweep(h)), Bump(h))
  }

  function After(events: seq<Event>): State {
    if events == [] then EMPTY else Happen(After(events[..|events| - 1]), events[|events| - 1])
  }

  /** No invalidation is half done, and neither a cached value nor a read that may still be stored is stale. */
  ghost predicate Clean(s: State) {
    && Valid(s)
    && (forall h :: At(s.halfDone, h) == 0 && At(s.swept, h) <= At(s.bumped, h))
    && (forall k :: k in s.cache ==> !Stale(s, k))
  }

  lemma ReadsClean(s: State, call: nat, key: Key, stamp: int)
    requires Clean(s)
    ensures Clean(BeginCall(s, call, key, stamp))
  {
    hide Valid;
    BeginKeeps(s, call, key, stamp);
  }

  lemma CurrentCall(s: State, call: nat)
    requires Valid(s) && call in s.calls
    ensures CallOk(s, s.calls[call])
  {
    hide CallOk;
  }

  lemma ReturnsClean(s: State, call: nat, value: Value)
    requires Clean(s) && call in s.calls
    ensures Clean(FinishCall(s, call, value))
  {
    hide Valid;
    FinishKeeps(s, call, value);
    CurrentCall(s, call);
    var h := s.calls[call].key.home;
    assert At(s.halfDone, h) == 0 && At(s.swept, h) <= At(s.bumped, h);
  }

  lemma InvalidatesClean(s: State, h: string)
    requires Clean(s)
    ensures At(SweepHome(s, h).halfDone, h) > 0 && Clean(BumpHome(SweepHome(s, h), h))
  {
    hide Valid;
    SweepKeeps(s, h);
    var m := SweepHome(s, h);
    BumpKeeps(m, h);
    var t := BumpHome(m, h);
    assert At(s.halfDone, h) == 0;
    forall g ensures At(t.halfDone, g) == 0 && At(t.swept, g) <= At(t.bumped, g) {
      assert At(s.halfDone, g) == 0;
    }
    forall k | k in t.cache ensures !Stale(t, k) {
      assert !Stale(s, k);
    }
  }

  lemma HappenKeeps(s: State, e: Event)
    requires Clean(s)
    ensures Clean(Happen(s, e))
  {
    hide Clean, BeginCall, FinishCall, SweepHome, BumpHome;
    match e
    case Reads(call, key, stamp) => ReadsClean(s, call, key, stamp);
    case Returns(call, value) => if call in s.calls { ReturnsClean(s, call, value); }
    case Invalidates(h) => InvalidatesClean(s, h);
  }

  /** When an invalidation is one step, no value is served that was begun before its home's latest invalidation. */
  lemma {:induction false} NothingStale(events: seq<Event>)
    ensures Clean(After(events))
  {
    hide Clean, Happen;
    if events == [] {
      EmptyClean();
    } else {
      NothingStale(events[..|events| - 1]);
      HappenKeeps(After(events[..|events| - 1]), events[|events| - 1]);
    }
  }

  lemma EmptyClean()
    ensures Clean(EMPTY)
  {
    EmptyValid();
  }

  /** A read that began before an invalidation and returned between its two halves stays cached. */
  lemma SlippingInHappens(k: Key, v: Value)
    requires !v.isError
    ensures var s := Run(EMPTY, [Begin(0, k, 0), Sweep(k.home), Finish(0, v), Bump(k.home)]);
            k in s.cache && Stale(s, k) && At(s.halfDone, k.home) == 0
  {
    var steps := [Begin(0, k, 0), Sweep(k.home), Finish(0, v), Bump(k.home)];
    assert steps[..3] == [steps[0], steps[1], steps[2]] && steps[..3][..2] == [steps[0], steps[1]];
    assert steps[..3][..2][..1] == [steps[0]] && [steps[0]][..0] == [];
    var a := BeginCall(EMPTY, 0, k, 0);
    assert Run(EMPTY, [steps[0]]) == a;
    var b := SweepHome(a, k.home);
    assert Run(EMPTY, [steps[0], steps[1]]) == b by {
      assert [steps[0], steps[1]][..1] == [steps[0]];
    }
    var c := FinishCall(b, 0, v);
    assert Run(EMPTY, [steps[0], steps[1], steps[2]]) == c by {
      assert [steps[0], steps[1], steps[2]][..2] == [steps[0], steps[1]];
    }
    assert Run(EMPTY, steps) == BumpHome(c, k.home);
  }

  // --------------------------------------------------------------- the program

  lemma {:induction false} OthersLeaveCall(s: State, steps: seq<Step>, call: nat)
    requires call in s.calls && forall i :: 0 <= i < |steps| ==> !Concerns(steps[i], call)
    ensures call in Run(s, steps).calls && Run(s, steps).calls[call] == s.calls[call]
  {
    if steps != [] {
      var n := |steps| - 1;
      OthersLeaveCall(s, steps[..n], call);
      assert !Concerns(steps[n], call);
    }
  }

  lemma {:induction false} RunConcat(s: State, a: seq<Step>, b: seq<Step>)
    ensures Run(s, a + b) == Run(Run(s, a), b)
  {
    hide Apply;
    if b == [] {
      assert a + b == a;
    } else {
      assert (a + b)[..|a + b| - 1] == a + b[..|b| - 1];
      RunConcat(s, a, b[..|b| - 1]);
    }
  }

  lemma RunOne(s: State, step: Step)
    ensures Run(s, [step]) == Apply(s, step)
  {
    hide Apply;
    assert [step][..0] == [];
  }

  /** The module's dictionaries, with other threads stepping in while a bridge call computes. */
  class Memory {
    var s: State

    constructor ()
      ensures s == EMPTY
    {
      s := EMPTY;
    }

    /**
     * `_cached`: a fresh hit is served; otherwise compute, and keep the value if nothing
     * invalidated its home meanwhile.
     */
    method Cached(key: Key, ttl: int, now: int, call: nat, during: seq<Step>, computed: Value) returns (v: Value)
      requires call !in s.calls && forall i :: 0 <= i < |during| ==> !Concerns(during[i], call)
      modifies this
      ensures key in old(s).cache && now - old(s).cache[key].stamp < ttl ==> v == old(s).cache[key].value && s == old(s)
      ensures !(key in old(s).cache && now - old(s).cache[key].stamp < ttl) ==>
                v == computed && s == Run(old(s), [Begin(call, key, now)] + during + [Finish(call, computed)])
    {
      hide Run;
      if key in s.cache && now - s.cache[key].stamp < ttl {
        return s.cache[key].value;
      }
      var gen, begun := At(s.gen, key.home), s.moment;
      s := BeginCall(s, call, key, now);
      OthersLeaveCall(s, during, call);
      s := Run(s, during);
      v := computed;
      RunOne(old(s), Begin(call, key, now));
      RunConcat(old(s), [Begin(call, key, now)], during);
      RunConcat(old(s), [Begin(call, key, now)] + during, [Finish(call, computed)]);
      RunOne(s, Finish(call, computed));
      var cache := s.cache;
      if At(s.gen, key.home) == gen && !v.isError {
        cache := cache[key := Entry(now, v, begun, s.moment)];
      }
      s := s.(moment := s.moment + 1, calls := s.calls - {call}, cache := cache);
    }

    /** `invalidate` for one home: throw its entries out, then raise its generation; others finish only their own. */
    method Invalidate(home: string, during: seq<Step>)
      requires At(Run(s, [Sweep(home)] + during).halfDone, home) > 0
      modifies this
      ensures s == Run(old(s), [Sweep(home)] + during + [Bump(home)])
    {
      hide Run;
      s := SweepHome(s, home);
      RunOne(old(s), Sweep(home));
      RunConcat(old(s), [Sweep(home)], during);
      RunConcat(old(s), [Sweep(home)] + during, [Bump(home)]);
      s := Run(s, during);
      RunOne(s, Bump(home));
      s := BumpHome(s, home);
    }
  }
}
