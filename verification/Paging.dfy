// backend/overview.py: one timeline of two tables, newest first, a page at a time.

module Paging {
  import opened Text

  datatype Kind = Activity | Transition

  datatype Event = Event(kind: Kind, id: nat, ts: int, project: string, agent: string, task: nat)

  /** Empty strings and 0 ask for nothing in particular. */
  datatype Filter = Filter(project: string, agent: string, task: nat)

  /** Transitions carry no agent, so asking for one leaves them out. */
  predicate Matches(e: Event, f: Filter) {
    && (f.project != "" ==> e.project == f.project)
    && (f.agent != "" ==> e.kind == Activity && e.agent == f.agent)
    && (f.task != 0 ==> e.task == f.task)
  }

  /** `before` 0 is no cursor. */
  predicate Wanted(e: Event, f: Filter, before: int) {
    Matches(e, f) && (before != 0 ==> e.ts < before)
  }

  /** The order of the timeline; ids decide among equal times, and activity goes before transitions. */
  predicate Newer(a: Event, b: Event) {
    a.ts > b.ts || (a.ts == b.ts && (a.id > b.id || (a.id == b.id && a.kind == Activity && b.kind == Transition)))
  }

  predicate SameKey(a: Event, b: Event) {
    a.kind == b.kind && a.id == b.id
  }

  predicate DistinctKeys(s: seq<Event>) {
    forall i, j :: 0 <= i < j < |s| ==> !SameKey(s[i], s[j])
  }

  /** Strictly newest first. */
  predicate Sorted(s: seq<Event>) {
    forall i, j :: 0 <= i < j < |s| ==> Newer(s[i], s[j])
  }

  function Select(s: seq<Event>, f: Filter, before: int): seq<Event> {
    if s == [] then []
    else
      var rest, e := Select(s[..|s| - 1], f, before), s[|s| - 1];
      if Wanted(e, f, before) then rest + [e] else rest
  }

  function Insert(s: seq<Event>, e: Event): (r: seq<Event>)
    ensures |r| == |s| + 1
  {
    if s == [] || Newer(e, s[0]) then [e] + s else [s[0]] + Insert(s[1..], e)
  }

  function Sort(s: seq<Event>): (r: seq<Event>)
    ensures |r| == |s|
  {
    if s == [] then [] else Insert(Sort(s[..|s| - 1]), s[|s| - 1])
  }

  function Take(s: seq<Event>, k: nat): (r: seq<Event>)
    ensures r <= s && |r| == if |s| <= k then |s| else k
  {
    if |s| <= k then s else s[..k]
  }

  /** One of the two limited queries. */
  function Query(table: seq<Event>, f: Filter, before: int, limit: nat): seq<Event> {
    Take(Sort(Select(table, f, before)), limit)
  }

  function Page(a: seq<Event>, t: seq<Event>, f: Filter, before: int, limit: nat): seq<Event> {
    Take(Sort(Query(a, f, before, limit) + Query(t, f, before, limit)), limit)
  }

  /** What there is to see, newest first. */
  function Timeline(a: seq<Event>, t: seq<Event>, f: Filter, before: int): seq<Event> {
    Sort(Select(a + t, f, before))
  }

  // ----------------------------------------------------------------- the order

  lemma NewerTotal(a: Event, b: Event)
    requires !SameKey(a, b)
    ensures Newer(a, b) <==> !Newer(b, a)
  {
  }

  lemma NewerTransitive(a: Event, b: Event, c: Event)
    requires Newer(a, b) && Newer(b, c)
    ensures Newer(a, c)
  {
  }

  lemma {:induction false} InsertExact(s: seq<Event>, e: Event)
    ensures forall x :: x in Insert(s, e) <==> x in s || x == e
  {
    hide Newer;
    if s != [] && !Newer(e, s[0]) {
      InsertExact(s[1..], e);
      assert s == [s[0]] + s[1..];
    }
  }

  lemma {:induction false} InsertSorted(s: seq<Event>, e: Event)
    requires Sorted(s) && forall i :: 0 <= i < |s| ==> !SameKey(s[i], e)
    ensures Sorted(Insert(s, e))
  {
    hide Newer, SameKey;
    if s != [] && !Newer(e, s[0]) {
      InsertSorted(s[1..], e);
      InsertExact(s[1..], e);
      NewerTotal(s[0], e);
      var r := Insert(s[1..], e);
      forall i | 0 <= i < |r| ensures Newer(s[0], r[i]) {
        assert r[i] in r;
        if r[i] != e {
          var j :| 0 <= j < |s[1..]| && s[1..][j] == r[i];
          assert s[j + 1] == r[i];
        }
      }
    } else if s != [] {
      forall i | 0 <= i < |s| ensures Newer(e, s[i]) {
        if i > 0 {
          NewerTransitive(e, s[0], s[i]);
        }
      }
    }
  }

  lemma {:induction false} SortExact(s: seq<Event>)
    ensures forall x :: x in Sort(s) <==> x in s
  {
    if s != [] {
      var n := |s| - 1;
      SortExact(s[..n]);
      InsertExact(Sort(s[..n]), s[n]);
      assert s == s[..n] + [s[n]];
    }
  }

  lemma {:induction false} SortSorts(s: seq<Event>)
    requires DistinctKeys(s)
    ensures Sorted(Sort(s))
  {
    hide Newer, SameKey;
    if s != [] {
      var n := |s| - 1;
      SortSorts(s[..n]);
      SortExact(s[..n]);
      forall i | 0 <= i < |Sort(s[..n])| ensures !SameKey(Sort(s[..n])[i], s[n]) {
        assert Sort(s[..n])[i] in s[..n];
      }
      InsertSorted(Sort(s[..n]), s[n]);
    }
  }

  /** In two sorted lists an event of both stands no later in the one with less in it. */
  lemma {:induction false} IndexLe(a: seq<Event>, s: seq<Event>, i: nat, j: nat)
    requires Sorted(a) && Sorted(s) && (forall x :: x in a ==> x in s)
    requires i < |a| && j < |s| && a[i] == s[j]
    ensures i <= j
  {
    hide Newer;
    if i > 0 {
      assert a[i - 1] in a;
      var k :| 0 <= k < |s| && s[k] == a[i - 1];
      assert Newer(a[i - 1], a[i]);
      SortedOrder(s, k, j);
      IndexLe(a, s, i - 1, k);
    }
  }

  lemma SortedOrder(s: seq<Event>, k: nat, j: nat)
    requires Sorted(s) && k < |s| && j < |s| && Newer(s[k], s[j])
    ensures k < j
  {
    if j < k {
      NewerIrreflexive(s[j], s[k]);
    } else if j == k {
      NewerIrreflexive(s[j], s[j]);
    }
  }

  lemma NewerIrreflexive(a: Event, b: Event)
    ensures !(Newer(a, b) && Newer(b, a))
  {
  }

  lemma SortedNoLonger(a: seq<Event>, b: seq<Event>)
    requires Sorted(a) && Sorted(b) && forall x :: x in a ==> x in b
    ensures |a| <= |b|
  {
    hide Newer;
    if a != [] {
      var i := |a| - 1;
      assert a[i] in b;
      var j :| 0 <= j < |b| && b[j] == a[i];
      IndexLe(a, b, i, j);
    }
  }

  /** Two sorted lists of the same events are one list. */
  lemma SortedUnique(a: seq<Event>, b: seq<Event>)
    requires Sorted(a) && Sorted(b) && forall x :: x in a <==> x in b
    ensures a == b
  {
    hide Newer;
    SortedNoLonger(a, b);
    SortedNoLonger(b, a);
    forall i | 0 <= i < |a| ensures a[i] == b[i] {
      assert a[i] in b;
      var j :| 0 <= j < |b| && b[j] == a[i];
      IndexLe(a, b, i, j);
      IndexLe(b, a, j, i);
    }
  }

  // ------------------------------------------------------------------ one page

  lemma TakeSorted(s: seq<Event>, k: nat)
    requires Sorted(s)
    ensures Sorted(Take(s, k)) && forall x :: x in Take(s, k) ==> x in s
  {
    hide Newer;
  }

  /** Where an event of the first `k` stands in a sorted part that holds it. */
  lemma TakeOfPart(part: seq<Event>, s: seq<Event>, k: nat, x: Event)
    requires Sorted(part) && Sorted(s) && (forall y :: y in part ==> y in s)
    requires x in Take(s, k) && x in part
    ensures x in Take(part, k)
  {
    hide Newer;
    var j :| 0 <= j < |Take(s, k)| && Take(s, k)[j] == x;
    var i :| 0 <= i < |part| && part[i] == x;
    IndexLe(part, s, i, j);
    assert Take(part, k)[i] == x;
  }

  /** The first `k` of the first `k` of two parts are the first `k` of the whole. */
  lemma MergedTop(a: seq<Event>, b: seq<Event>, s: seq<Event>, m: seq<Event>, k: nat)
    requires Sorted(a) && Sorted(b) && Sorted(s) && Sorted(m)
    requires forall x :: x in s <==> x in a || x in b
    requires forall x :: x in m <==> x in Take(a, k) || x in Take(b, k)
    ensures Take(m, k) == Take(s, k)
  {
    hide Newer, Sorted, Take;
    TakeSorted(a, k);
    TakeSorted(b, k);
    TakeSorted(s, k);
    TakeSorted(m, k);
    forall x | x in Take(s, k) ensures x in m {
      if x in a {
        TakeOfPart(a, s, k, x);
      } else {
        TakeOfPart(b, s, k, x);
      }
    }
    forall x | x in Take(s, k) ensures x in Take(m, k) {
      TakeOfPart(m, s, k, x);
    }
    forall x | x in Take(m, k) ensures x in Take(s, k) {
      TopIsTop(m, s, k, x);
    }
    SortedUnique(Take(m, k), Take(s, k));
  }

  /** If the first `k` of the whole are all in a part, the part's first `k` are among them. */
  lemma TopIsTop(m: seq<Event>, s: seq<Event>, k: nat, x: Event)
    requires Sorted(m) && Sorted(s) && (forall y :: y in m ==> y in s)
    requires (forall y :: y in Take(s, k) ==> y in m) && x in Take(m, k)
    ensures x in Take(s, k)
  {
    hide Newer;
    var i :| 0 <= i < |Take(m, k)| && Take(m, k)[i] == x;
    assert x in m;
    var j :| 0 <= j < |s| && s[j] == x;
    if j >= k {
      var upTo := s[..k] + [s[j]];
      forall y | y in upTo ensures y in m {
        if y != x {
          assert y in s[..k] && Take(s, k) == s[..k];
        }
      }
      forall p, q | 0 <= p < q < |upTo| ensures Newer(upTo[p], upTo[q]) {
      }
      assert upTo[k] == m[i];
      IndexLe(upTo, m, k, i);
    } else {
      assert Take(s, k)[j] == x;
    }
  }

  lemma {:induction false} SelectExact(s: seq<Event>, f: Filter, before: int)
    ensures forall x :: x in Select(s, f, before) <==> x in s && Wanted(x, f, before)
  {
    hide Wanted;
    if s != [] {
      SelectExact(s[..|s| - 1], f, before);
      assert s == s[..|s| - 1] + [s[|s| - 1]];
    }
  }

  lemma {:induction false} SelectDistinct(s: seq<Event>, f: Filter, before: int)
    requires DistinctKeys(s)
    ensures DistinctKeys(Select(s, f, before))
  {
    hide Wanted, SameKey;
    if s != [] {
      var n := |s| - 1;
      SelectDistinct(s[..n], f, before);
      SelectExact(s[..n], f, before);
      var rest := Select(s[..n], f, before);
      forall i | 0 <= i < |rest| ensures !SameKey(rest[i], s[n]) {
        assert rest[i] in s[..n];
      }
    }
  }

  lemma {:induction false} SelectConcat(a: seq<Event>, t: seq<Event>, f: Filter, before: int)
    ensures Select(a + t, f, before) == Select(a, f, before) + Select(t, f, before)
  {
    hide Wanted;
    if t == [] {
      assert a + t == a;
    } else {
      assert (a + t)[..|a + t| - 1] == a + t[..|t| - 1];
      SelectConcat(a, t[..|t| - 1], f, before);
    }
  }

  lemma ConcatDistinct(a: seq<Event>, b: seq<Event>)
    requires DistinctKeys(a + b)
    ensures DistinctKeys(a) && DistinctKeys(b)
    ensures forall x, y :: x in a && y in b ==> !SameKey(x, y)
  {
    hide SameKey;
    forall i, j | 0 <= i < j < |a| ensures !SameKey(a[i], a[j]) {
      assert (a + b)[i] == a[i] && (a + b)[j] == a[j];
    }
    forall i, j | 0 <= i < j < |b| ensures !SameKey(b[i], b[j]) {
      assert (a + b)[|a| + i] == b[i] && (a + b)[|a| + j] == b[j];
    }
    forall x, y | x in a && y in b ensures !SameKey(x, y) {
      var i :| 0 <= i < |a| && a[i] == x;
      var j :| 0 <= j < |b| && b[j] == y;
      assert (a + b)[i] == x && (a + b)[|a| + j] == y;
    }
  }

  lemma DistinctConcat(a: seq<Event>, b: seq<Event>)
    requires DistinctKeys(a) && DistinctKeys(b) && forall x, y :: x in a && y in b ==> !SameKey(x, y)
    ensures DistinctKeys(a + b)
  {
    hide SameKey;
  }

  lemma KeyIsEvent(table: seq<Event>, x: Event, y: Event)
    requires DistinctKeys(table) && x in table && y in table && SameKey(x, y)
    ensures x == y
  {
    var i :| 0 <= i < |table| && table[i] == x;
    var j :| 0 <= j < |table| && table[j] == y;
  }

  lemma SortedDistinct(s: seq<Event>, table: seq<Event>)
    requires Sorted(s) && DistinctKeys(table) && forall x :: x in s ==> x in table
    ensures DistinctKeys(s)
  {
    hide Newer, SameKey, DistinctKeys;
    forall i, j | 0 <= i < j < |s| ensures !SameKey(s[i], s[j]) {
      NewerIrreflexive(s[i], s[j]);
      assert s[i] in table && s[j] in table;
      if SameKey(s[i], s[j]) {
        KeyIsEvent(table, s[i], s[j]);
      }
    }
    KeysDistinct(s);
  }

  lemma KeysDistinct(s: seq<Event>)
    requires forall i, j :: 0 <= i < j < |s| ==> !SameKey(s[i], s[j])
    ensures DistinctKeys(s)
  {
  }

  lemma QueryOk(table: seq<Event>, f: Filter, before: int, limit: nat)
    requires DistinctKeys(table)
    ensures Sorted(Sort(Select(table, f, before))) && Sorted(Query(table, f, before, limit))
    ensures DistinctKeys(Query(table, f, before, limit))
    ensures forall x :: x in Query(table, f, before, limit) ==> x in table
    ensures forall x :: x in Sort(Select(table, f, before)) <==> x in table && Wanted(x, f, before)
  {
    hide Newer, SameKey, Sorted, DistinctKeys, Take, Select, Sort, Wanted;
    SelectDistinct(table, f, before);
    SelectExact(table, f, before);
    SortSorts(Select(table, f, before));
    SortExact(Select(table, f, before));
    TakeSorted(Sort(Select(table, f, before)), limit);
    SortedDistinct(Query(table, f, before, limit), table);
  }

  lemma TimelineOk(a: seq<Event>, t: seq<Event>, f: Filter, before: int)
    requires DistinctKeys(a + t)
    ensures Sorted(Timeline(a, t, f, before))
    ensures forall x :: x in Timeline(a, t, f, before) <==> (x in a || x in t) && Wanted(x, f, before)
  {
    hide Newer, SameKey, Sorted, DistinctKeys, Take, Select, Sort, Wanted;
    QueryOk(a + t, f, before, 0);
  }

  /** A page is the newest `limit` of everything wanted, though each query is cut on its own. */
  lemma PageIsTop(a: seq<Event>, t: seq<Event>, f: Filter, before: int, limit: nat)
    requires DistinctKeys(a + t)
    ensures Page(a, t, f, before, limit) == Take(Timeline(a, t, f, before), limit)
  {
    hide Newer, SameKey, Sorted, DistinctKeys, Take, Select, Sort, Wanted;
    ConcatDistinct(a, t);
    QueryOk(a, f, before, limit);
    QueryOk(t, f, before, limit);
    TimelineOk(a, t, f, before);
    var qa, qt := Query(a, f, before, limit), Query(t, f, before, limit);
    DistinctConcat(qa, qt);
    SortSorts(qa + qt);
    SortExact(qa + qt);
    MergedTop(Sort(Select(a, f, before)), Sort(Select(t, f, before)), Timeline(a, t, f, before), Sort(qa + qt), limit);
  }

  // -------------------------------------------------------------- page after page

  /** Rows have distinct ids in their tables, and positive times. */
  predicate Tables(a: seq<Event>, t: seq<Event>) {
    && DistinctKeys(a + t)
    && (forall x :: x in a ==> x.ts > 0) && (forall x :: x in t ==> x.ts > 0)
  }

  /**
   * What the next cursor leaves to see: only events past the page, and all of them unless the page
   * ends between equal times.
   */
  lemma NextTimeline(a: seq<Event>, t: seq<Event>, f: Filter, before: int, limit: nat)
    requires Tables(a, t) && 1 <= limit <= |Timeline(a, t, f, before)|
    ensures var s := Timeline(a, t, f, before);
            var rest := Timeline(a, t, f, s[limit - 1].ts);
            && (forall x :: x in rest ==> x in s[limit..])
            && Sorted(rest) && Sorted(s[limit..]) && |rest| <= |s| - limit
            && (forall x :: x in rest <==> x in s[limit..] && x.ts < s[limit - 1].ts)
  {
    hide Timeline, DistinctKeys, Matches;
    var s := Timeline(a, t, f, before);
    var last := s[limit - 1];
    var rest := Timeline(a, t, f, last.ts);
    TimelineOk(a, t, f, before);
    TimelineOk(a, t, f, last.ts);
    assert last in s;
    forall x | x in rest ensures x in s[limit..] {
      assert x in s;
      var j :| 0 <= j < |s| && s[j] == x;
      SortedOrder(s, limit - 1, j);
      assert s[limit..][j - limit] == x;
    }
    forall x | x in s[limit..] ensures x in s {
    }
    SortedNoLonger(rest, s[limit..]);
  }

  /** Following `next_before` from a cursor until there is none. */
  function Walk(a: seq<Event>, t: seq<Event>, f: Filter, before: int, limit: nat): seq<Event>
    requires Tables(a, t) && limit >= 1
    decreases |Timeline(a, t, f, before)|
  {
    var page := Page(a, t, f, before, limit);
    PageIsTop(a, t, f, before, limit);
    if |page| < limit then page
    else
      NextTimeline(a, t, f, before, limit);
      page + Walk(a, t, f, page[limit - 1].ts, limit)
  }

  lemma {:induction false} WalkNoLonger(a: seq<Event>, t: seq<Event>, f: Filter, before: int, limit: nat)
    requires Tables(a, t) && limit >= 1
    ensures |Walk(a, t, f, before, limit)| <= |Timeline(a, t, f, before)|
    decreases |Timeline(a, t, f, before)|
  {
    hide Tables, Timeline, Page, Sorted;
    var s := Timeline(a, t, f, before);
    PageTop(a, t, f, before, limit);
    if |s| >= limit {
      NextTimeline(a, t, f, before, limit);
      WalkNoLonger(a, t, f, s[limit - 1].ts, limit);
    }
  }

  lemma PageTop(a: seq<Event>, t: seq<Event>, f: Filter, before: int, limit: nat)
    requires Tables(a, t)
    ensures Page(a, t, f, before, limit) == Take(Timeline(a, t, f, before), limit)
  {
    hide DistinctKeys, Timeline, Page, Take;
    PageIsTop(a, t, f, before, limit);
  }

  /** No page ends between two events of one time. */
  predicate NoTornPage(s: seq<Event>, limit: nat)
    requires limit >= 1
    decreases |s|
  {
    |s| <= limit || (s[limit - 1].ts != s[limit].ts && NoTornPage(s[limit..], limit))
  }

  lemma SortedTimes(s: seq<Event>, i: nat, j: nat)
    requires Sorted(s) && i <= j < |s|
    ensures s[i].ts >= s[j].ts
  {
    if i < j {
      assert Newer(s[i], s[j]);
    }
  }

  /** A cleanly ended page leaves exactly the rest. */
  lemma CleanPage(a: seq<Event>, t: seq<Event>, f: Filter, before: int, limit: nat)
    requires Tables(a, t) && 1 <= limit < |Timeline(a, t, f, before)|
    requires var s := Timeline(a, t, f, before); s[limit - 1].ts != s[limit].ts
    ensures var s := Timeline(a, t, f, before); Timeline(a, t, f, s[limit - 1].ts) == s[limit..]
  {
    hide Tables, Timeline, Newer;
    var s := Timeline(a, t, f, before);
    NextTimeline(a, t, f, before, limit);
    TimelineSorted(a, t, f, before);
    hide Sorted;
    SortedTimes(s, limit - 1, limit);
    forall x | x in s[limit..] ensures x.ts < s[limit - 1].ts {
      var j :| 0 <= j < |s[limit..]| && s[limit..][j] == x;
      SortedTimes(s, limit, limit + j);
    }
    SortedUnique(Timeline(a, t, f, s[limit - 1].ts), s[limit..]);
  }

  lemma TimelineSorted(a: seq<Event>, t: seq<Event>, f: Filter, before: int)
    requires Tables(a, t)
    ensures Sorted(Timeline(a, t, f, before))
  {
    hide DistinctKeys, Timeline, Sorted, Wanted;
    TimelineOk(a, t, f, before);
  }

  /** A torn page loses the event it ends before. */
  lemma TornPage(a: seq<Event>, t: seq<Event>, f: Filter, before: int, limit: nat)
    requires Tables(a, t) && 1 <= limit < |Timeline(a, t, f, before)|
    requires var s := Timeline(a, t, f, before); s[limit - 1].ts == s[limit].ts
    ensures var s := Timeline(a, t, f, before); |Timeline(a, t, f, s[limit - 1].ts)| < |s| - limit
  {
    hide Tables, Timeline, Newer;
    var s := Timeline(a, t, f, before);
    var rest := Timeline(a, t, f, s[limit - 1].ts);
    NextTimeline(a, t, f, before, limit);
    assert s[limit..][0] == s[limit];
    forall x | x in rest ensures x in s[limit + 1..] {
      var j :| 0 <= j < |s[limit..]| && s[limit..][j] == x;
      assert s[limit + 1..][j - 1] == x;
    }
    assert s[limit + 1..] == s[limit..][1..];
    SortedNoLonger(rest, s[limit + 1..]);
  }

  /**
   * Page after page shows everything wanted exactly once, newest first, exactly
   * when no page ends between two events of one time.
   */
  lemma {:induction false} WalkExact(a: seq<Event>, t: seq<Event>, f: Filter, before: int, limit: nat)
    requires Tables(a, t) && limit >= 1
    ensures Walk(a, t, f, before, limit) == Timeline(a, t, f, before) <==> NoTornPage(Timeline(a, t, f, before), limit)
    decreases |Timeline(a, t, f, before)|
  {
    hide Tables, Timeline, Page, Sorted;
    var s := Timeline(a, t, f, before);
    PageTop(a, t, f, before, limit);
    if |s| >= limit {
      NextTimeline(a, t, f, before, limit);
      var walked := Walk(a, t, f, s[limit - 1].ts, limit);
      assert Walk(a, t, f, before, limit) == s[..limit] + walked;
      assert s == s[..limit] + s[limit..];
      WalkNoLonger(a, t, f, s[limit - 1].ts, limit);
      if |s| > limit {
        if s[limit - 1].ts == s[limit].ts {
          TornPage(a, t, f, before, limit);
        } else {
          CleanPage(a, t, f, before, limit);
          WalkExact(a, t, f, s[limit - 1].ts, limit);
          SamePrefix(s[..limit], walked, s[limit..]);
        }
      }
    }
  }

  lemma SamePrefix(p: seq<Event>, a: seq<Event>, b: seq<Event>)
    ensures p + a == p + b <==> a == b
  {
    assert (p + a)[|p|..] == a && (p + b)[|p|..] == b;
  }

  predicate DistinctTimes(s: seq<Event>) {
    forall i, j :: 0 <= i < j < |s| ==> s[i].ts != s[j].ts
  }

  lemma {:induction false} DistinctTimesNoTear(s: seq<Event>, limit: nat)
    requires limit >= 1 && DistinctTimes(s)
    ensures NoTornPage(s, limit)
    decreases |s|
  {
    if |s| > limit {
      DistinctTimesNoTear(s[limit..], limit);
    }
  }

  /** With distinct times the walk from the first page is the whole timeline. */
  lemma WalkShowsAll(a: seq<Event>, t: seq<Event>, f: Filter, limit: nat)
    requires Tables(a, t) && limit >= 1 && DistinctTimes(Timeline(a, t, f, 0))
    ensures var w := Walk(a, t, f, 0, limit);
            && Sorted(w)
            && (forall x :: x in w <==> (x in a || x in t) && Matches(x, f))
  {
    hide Tables, Timeline, Walk, NoTornPage, Newer;
    WalkExact(a, t, f, 0, limit);
    DistinctTimesNoTear(Timeline(a, t, f, 0), limit);
    TimelineAll(a, t, f);
  }

  lemma TimelineAll(a: seq<Event>, t: seq<Event>, f: Filter)
    requires Tables(a, t)
    ensures Sorted(Timeline(a, t, f, 0))
    ensures forall x :: x in Timeline(a, t, f, 0) <==> (x in a || x in t) && Matches(x, f)
  {
    hide DistinctKeys, Timeline, Sorted, Matches;
    TimelineOk(a, t, f, 0);
  }

  /** A torn first page makes the walk miss something. */
  lemma TornPageSkips(a: seq<Event>, t: seq<Event>, f: Filter, before: int, limit: nat)
    requires Tables(a, t) && 1 <= limit < |Timeline(a, t, f, before)|
    requires var s := Timeline(a, t, f, before); s[limit - 1].ts == s[limit].ts
    ensures |Walk(a, t, f, before, limit)| < |Timeline(a, t, f, before)|
  {
    hide Tables, Timeline, Page, Sorted;
    var s := Timeline(a, t, f, before);
    PageTop(a, t, f, before, limit);
    TornPage(a, t, f, before, limit);
    NextTimeline(a, t, f, before, limit);
    WalkNoLonger(a, t, f, s[limit - 1].ts, limit);
  }

  /** An activity and a transition of one time, a page of one: one of them is never shown. */
  lemma OneOfTwoIsSkipped(x: Event, y: Event)
    requires x.kind == Activity && y.kind == Transition && x.ts == y.ts > 0
    ensures Tables([x], [y])
    ensures var f := Filter("", "", 0); |Walk([x], [y], f, 0, 1)| < |Timeline([x], [y], f, 0)|
  {
    hide Timeline, Walk, Sorted, Matches, Newer;
    var f := Filter("", "", 0);
    assert Tables([x], [y]) by { TwoTables(x, y); }
    TimelineAll([x], [y], f);
    hide Tables;
    var s := Timeline([x], [y], f, 0);
    NoFilter(x);
    NoFilter(y);
    assert x in [x] && y in [y] && x in s && y in s;
    BothTimes(s, x, y);
    TornPageSkips([x], [y], f, 0, 1);
  }

  lemma TwoTables(x: Event, y: Event)
    requires x.kind == Activity && y.kind == Transition && x.ts == y.ts > 0
    ensures Tables([x], [y])
  {
    assert [x] + [y] == [x, y];
  }

  lemma NoFilter(x: Event)
    ensures Matches(x, Filter("", "", 0))
  {
  }

  lemma BothTimes(s: seq<Event>, x: Event, y: Event)
    requires x != y && x.ts == y.ts && x in s && y in s && forall z :: z in s ==> z == x || z == y
    ensures |s| > 1 && s[0].ts == s[1].ts
  {
    assert s[0] in s;
    var i :| 0 <= i < |s| && s[i] == x;
    var j :| 0 <= j < |s| && s[j] == y;
    assert s[1] in s;
  }

  // --------------------------------------------------------------- the program

  /** `limit`, 100 when not asked for, between 1 and 500. */
  function PageSize(asked: int): (n: nat)
    ensures 1 <= n <= 500 && (asked == 0 ==> n == 100) && (asked < 0 ==> n == 1)
    ensures (1 <= asked <= 500 ==> n == asked) && (asked > 500 ==> n == 500)
  {
    var n := if asked == 0 then 100 else asked;
    if n < 1 then 1 else if n > 500 then 500 else n
  }

  method QueryRows(table: seq<Event>, f: Filter, before: int, limit: nat) returns (rows: seq<Event>)
    ensures rows == Query(table, f, before, limit)
  {
    hide Newer, Wanted, Insert;
    rows := [];
    for i := 0 to |table|
      invariant rows == Sort(Select(table[..i], f, before))
    {
      assert table[..i + 1][..i] == table[..i];
      var e := table[i];
      if Wanted(e, f, before) {
        var chosen := Select(table[..i], f, before);
        assert (chosen + [e])[..|chosen|] == chosen;
        rows := Insert(rows, e);
      }
    }
    assert table[..|table|] == table;
    rows := Take(rows, limit);
  }

  method SortRows(rows: seq<Event>) returns (sorted: seq<Event>)
    ensures sorted == Sort(rows)
  {
    hide Newer, Insert;
    sorted := [];
    for i := 0 to |rows|
      invariant sorted == Sort(rows[..i])
    {
      assert rows[..i + 1][..i] == rows[..i];
      sorted := Insert(sorted, rows[i]);
    }
    assert rows[..|rows|] == rows;
  }

  /** Nothing was asked for that the event is not; only an activity has an agent. */
  predicate Asked(e: Event, f: Filter, before: int) {
    && f.project in {"", e.project} && f.task in {0, e.task}
    && (f.agent == "" || (e.kind != Transition && f.agent == e.agent))
    && (before == 0 || e.ts < before)
  }

  lemma AskedExact(e: Event, f: Filter, before: int)
    ensures Asked(e, f, before) <==> Wanted(e, f, before)
  {
  }

  /** What the page leaves out is no newer than anything on it, and it leaves out nothing unless it is full. */
  lemma TopIsAsked(a: seq<Event>, t: seq<Event>, f: Filter, before: int, limit: nat)
    requires Tables(a, t)
    ensures var page := Take(Timeline(a, t, f, before), limit);
            && (forall e :: e in page ==> (e in a || e in t) && Asked(e, f, before))
            && (forall e :: (e in a || e in t) && Asked(e, f, before) && e !in page ==>
                  |page| == limit && forall x :: x in page ==> x.ts >= e.ts)
  {
    hide Timeline, DistinctKeys, Asked, Wanted;
    var s := Timeline(a, t, f, before);
    TimelineOk(a, t, f, before);
    forall e ensures Asked(e, f, before) <==> Wanted(e, f, before) {
      AskedExact(e, f, before);
    }
    forall e | (e in a || e in t) && Asked(e, f, before) && e !in Take(s, limit)
      ensures |Take(s, limit)| == limit && forall x :: x in Take(s, limit) ==> x.ts >= e.ts
    {
      assert e in s;
    }
  }

  /** `activity`: one page, and where the next begins; the page is the newest of everything wanted. */
  method ActivityPage(a: seq<Event>, t: seq<Event>, f: Filter, before: int, asked: int)
    returns (events: seq<Event>, nextBefore: Option<int>)
    requires Tables(a, t)
    ensures events == Take(Timeline(a, t, f, before), PageSize(asked))
    ensures nextBefore == if |events| == PageSize(asked) then Some(events[|events| - 1].ts) else None
    ensures forall e :: e in events ==> (e in a || e in t) && Asked(e, f, before)
    ensures forall e :: (e in a || e in t) && Asked(e, f, before) && e !in events ==>
              |events| == PageSize(asked) && forall x :: x in events ==> x.ts >= e.ts
  {
    hide Tables, Timeline, Sort, Select;
    var limit := PageSize(asked);
    var rows := QueryRows(a, f, before, limit);
    var more := QueryRows(t, f, before, limit);
    var sorted := SortRows(rows + more);
    events := Take(sorted, limit);
    PageTop(a, t, f, before, limit);
    nextBefore := if |events| == limit then Some(events[|events| - 1].ts) else None;
    TopIsAsked(a, t, f, before, limit);
  }
}
