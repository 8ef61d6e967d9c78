// backend/terminal.py: the bounded buffers of a terminal session, against the
// full histories of what went through them.

module Terminal {
  import opened Text

  newtype byte = b: int | 0 <= b < 256

  const RING_BYTES := 1048576
  const INPUT_MAX_PENDING := 65536
  const QUEUE_MAX := 512
  const WRITE_CHUNK := 4096

  /** What a client is sent: terminal output, or a control message. */
  datatype Item = Data(bytes: seq<byte>) | Message(text: string)

  function Last<T>(s: seq<T>, n: nat): (r: seq<T>)
    ensures |r| == if |s| <= n then |s| else n
    ensures r == s[|s| - |r|..]
  {
    if |s| <= n then s else s[|s| - n..]
  }

  /** Cutting early loses nothing that would be kept. */
  lemma LastAgain<T>(s: seq<T>, t: seq<T>, n: nat)
    ensures Last(Last(s, n) + t, n) == Last(s + t, n)
  {
    var a := Last(s, n);
    assert s == s[..|s| - |a|] + a;
    assert s + t == s[..|s| - |a|] + (a + t);
  }

  /** Pending input is the last typed, and with what was taken all of it unless some was lost. */
  predicate InputKept(pending: seq<byte>, typed: seq<byte>, accepted: seq<byte>, lost: bool) {
    && |pending| <= INPUT_MAX_PENDING && |pending| <= |typed|
    && pending == typed[|typed| - |pending|..]
    && (!lost ==> accepted + pending == typed)
  }

  lemma InputTaken(pending: seq<byte>, typed: seq<byte>, accepted: seq<byte>, lost: bool, m: nat)
    requires InputKept(pending, typed, accepted, lost) && m <= |pending|
    ensures InputKept(pending[m..], typed, accepted + pending[..m], lost)
  {
    assert accepted + pending[..m] + pending[m..] == accepted + pending;
  }

  lemma Moved(a: seq<byte>, b: seq<byte>, m: nat)
    requires m <= |b|
    ensures (a + b[..m]) + b[m..] == a + b && a <= a + b[..m] && |a + b[..m]| == |a| + m
  {
  }

  lemma InputHeld(pending: seq<byte>, typed: seq<byte>, accepted: seq<byte>, lost: bool, data: seq<byte>)
    requires InputKept(pending, typed, accepted, lost)
    ensures var all := pending + data;
            InputKept(Last(all, INPUT_MAX_PENDING), typed + data, accepted, lost || |all| > INPUT_MAX_PENDING)
  {
    var all, kept := pending + data, Last(pending + data, INPUT_MAX_PENDING);
    assert typed + data == typed[..|typed| - |pending|] + all;
    assert all == all[..|all| - |kept|] + kept;
    assert accepted + pending + data == accepted + all;
  }

  lemma InputThrown(typed: seq<byte>, accepted: seq<byte>)
    ensures InputKept([], typed, accepted, true)
  {
  }

  /** What a session keeps of its histories: the last of the output, and the input not taken yet. */
  predicate Kept(ring: seq<byte>, pushed: seq<byte>, pending: seq<byte>, typed: seq<byte>,
                 accepted: seq<byte>, lost: bool) {
    ring == Last(pushed, RING_BYTES) && InputKept(pending, typed, accepted, lost)
  }

  lemma NothingYet()
    ensures Kept([], [], [], [], [], false)
  {
  }

  /** The output bytes of a run of items. */
  function BytesOf(items: seq<Item>): seq<byte> {
    if items == [] then []
    else
      var before, last := BytesOf(items[..|items| - 1]), items[|items| - 1];
      if last.Data? then before + last.bytes else before
  }

  lemma BytesOfNext(items: seq<Item>, i: Item)
    ensures BytesOf(items + [i]) == BytesOf(items) + (if i.Data? then i.bytes else [])
  {
    assert (items + [i])[..|items|] == items;
  }

  lemma {:induction false} BytesOfConcat(a: seq<Item>, b: seq<Item>)
    ensures BytesOf(a + b) == BytesOf(a) + BytesOf(b)
  {
    if b == [] {
      assert a + b == a;
    } else {
      assert (a + b)[..|a + b| - 1] == a + b[..|b| - 1];
      BytesOfConcat(a, b[..|b| - 1]);
    }
  }

  // ----------------------------------------------------------- a client's queue

  /** What is left of `items` without those at the positions in `gone`, in order. */
  ghost function Surviving(items: seq<Item>, gone: set<nat>): seq<Item> {
    if items == [] then []
    else Surviving(items[..|items| - 1], gone) + (if |items| - 1 in gone then [] else [items[|items| - 1]])
  }

  lemma SurvivingNext(items: seq<Item>, gone: set<nat>, k: nat)
    requires k < |items|
    ensures Surviving(items[..k + 1], gone) == Surviving(items[..k], gone) + (if k in gone then [] else [items[k]])
  {
    assert items[..k + 1][..k] == items[..k];
  }

  lemma {:induction false} SurvivingSame(items: seq<Item>, gone: set<nat>, k: nat)
    requires |items| <= k
    ensures Surviving(items, gone + {k}) == Surviving(items, gone)
  {
    if items != [] {
      SurvivingSame(items[..|items| - 1], gone, k);
    }
  }

  /** Beyond the last position that is gone everything is left. */
  lemma {:induction false} SurvivingRest(items: seq<Item>, gone: set<nat>, k: nat)
    requires k <= |items| && forall p :: p in gone ==> p < k
    ensures Surviving(items, gone) == Surviving(items[..k], gone) + items[k..]
  {
    if k == |items| {
      assert items[..k] == items;
    } else {
      var n := |items| - 1;
      SurvivingRest(items[..n], gone, k);
      assert items[..n][..k] == items[..k] && items[k..] == items[..n][k..] + [items[n]];
    }
  }

  class Client {
    var items: seq<Item>
    /** Everything offered, everything taken, and the positions of the items that were pushed out. */
    ghost var offered: seq<Item>
    ghost var taken: seq<Item>
    ghost var dropped: set<nat>

    constructor ()
      ensures Valid() && items == [] && offered == [] && taken == [] && dropped == {}
    {
      items, offered, taken, dropped := [], [], [], {};
    }

    /**
     * The queue is the end of what was offered; of what came before, all that was not pushed out
     * was taken, in order.
     */
    ghost predicate Valid()
      reads this
    {
      && |items| <= QUEUE_MAX && |items| <= |offered|
      && items == offered[|offered| - |items|..]
      && (forall p :: p in dropped ==> p < |offered| - |items|)
      && taken == Surviving(offered[..|offered| - |items|], dropped)
    }

    /** Taken and queued make all that was offered but what was pushed out. */
    lemma NothingElseMissing()
      requires Valid()
      ensures taken + items == Surviving(offered, dropped)
      ensures dropped == {} ==> taken + items == offered
    {
      SurvivingRest(offered, dropped, |offered| - |items|);
      if dropped == {} {
        SurvivingRest(offered, {}, 0);
      }
    }

    /** `_offer`: a full queue loses its oldest item. */
    method Offer(i: Item)
      requires Valid()
      modifies this
      ensures Valid() && offered == old(offered) + [i] && taken == old(taken)
      ensures items == Last(old(items) + [i], QUEUE_MAX)
      ensures dropped == old(dropped) + if |old(items)| == QUEUE_MAX then {|old(offered)| - QUEUE_MAX} else {}
    {
      ghost var k := |offered| - |items|;
      if |items| >= QUEUE_MAX {
        SurvivingSame(offered[..k], dropped, k);
        SurvivingNext(offered, dropped + {k}, k);
        items := items[1..];
        dropped := dropped + {k};
        k := k + 1;
      }
      assert (offered + [i])[..k] == offered[..k];
      items := items + [i];
      offered := offered + [i];
    }

    method Take() returns (i: Item)
      requires Valid() && items != []
      modifies this
      ensures Valid() && offered == old(offered) && dropped == old(dropped)
      ensures old(items) == [i] + items && taken == old(taken) + [i]
    {
      SurvivingNext(offered, dropped, |offered| - |items|);
      i := items[0];
      items := items[1..];
      taken := taken + [i];
    }
  }

  // ---------------------------------------------------------------- the session

  /** How the kernel answers a write to the terminal. */
  datatype Answer = Takes(n: nat) | Busy | Broken

  /** The bytes the answers say were taken. */
  function Granted(used: seq<Answer>): nat {
    if used == [] then 0
    else Granted(used[..|used| - 1]) + if used[|used| - 1].Takes? then used[|used| - 1].n else 0
  }

  /** As a kernel answers: at least one byte, and no more than one write offers. */
  predicate Plausible(used: seq<Answer>) {
    forall i :: 0 <= i < |used| && used[i].Takes? ==> 1 <= used[i].n <= WRITE_CHUNK
  }

  predicate AllTake(used: seq<Answer>) {
    forall i :: 0 <= i < |used| ==> used[i].Takes?
  }

  /**
   * Of `before` pending bytes `taken` were given away for the answers `used`, and `left` remain:
   * each write took what its answer says, and only an empty buffer, a busy answer, a broken one
   * or the end of the answers made it stop.
   */
  predicate Drained(before: nat, taken: nat, left: nat, used: seq<Answer>, rest: seq<Answer>) {
    && (if used == [] || used[|used| - 1].Takes? then AllTake(used) && taken >= |used| && (left == 0 || rest == [])
        else AllTake(used[..|used| - 1]) && taken >= |used| - 1 && (left == 0 <==> used[|used| - 1].Broken?))
    && (Plausible(used) && Granted(used) <= before ==> taken == Granted(used))
  }

  lemma NothingTaken(before: nat)
    ensures Taking(before, 0, [])
  {
  }

  predicate Taking(before: nat, taken: nat, used: seq<Answer>) {
    AllTake(used) && taken >= |used| && (Plausible(used) && Granted(used) <= before ==> taken == Granted(used))
  }

  lemma TakingMore(before: nat, taken: nat, used: seq<Answer>, n: nat, m: nat)
    requires Taking(before, taken, used) && 1 <= m && (1 <= n <= WRITE_CHUNK && taken + n <= before ==> m == n)
    ensures Taking(before, taken + m, used + [Takes(n)])
  {
    UsedMore(used, Takes(n));
  }

  lemma UsedMore(used: seq<Answer>, a: Answer)
    ensures Plausible(used + [a]) ==> Plausible(used) && (a.Takes? ==> 1 <= a.n <= WRITE_CHUNK)
    ensures Granted(used + [a]) == Granted(used) + if a.Takes? then a.n else 0
    ensures AllTake(used) && a.Takes? ==> AllTake(used + [a])
    ensures (used + [a])[..|used|] == used && (used + [a])[|used|] == a
  {
    var more := used + [a];
    assert more[..|used|] == used && more[|used|] == a;
    assert forall i :: 0 <= i < |used| ==> used[i] == more[i];
  }

  /** A flush that used the answers in front of `rest`. */
  predicate Flushed(before: nat, taken: int, left: nat, all: seq<Answer>, rest: seq<Answer>) {
    && |rest| <= |all| && all[|all| - |rest|..] == rest
    && taken >= 0 && Drained(before, taken, left, all[..|all| - |rest|], rest)
  }

  lemma FlushedAll(before: nat, taken: nat, left: nat, all: seq<Answer>, used: seq<Answer>, rest: seq<Answer>)
    requires Taking(before, taken, used) && (left == 0 || rest == []) && all == used + rest
    ensures Flushed(before, taken, left, all, rest)
  {
    hide Plausible, Granted;
    assert all[..|all| - |rest|] == used;
  }

  lemma FlushedUntil(before: nat, taken: nat, left: nat, all: seq<Answer>, used: seq<Answer>, rest: seq<Answer>)
    requires Taking(before, taken, used) && all == used + rest && rest != []
    requires !rest[0].Takes? && (left == 0 <==> rest[0].Broken?)
    ensures Flushed(before, taken, left, all, rest[1..])
  {
    UsedMore(used, rest[0]);
    hide Plausible, Granted;
    assert all[..|all| - |rest[1..]|] == used + [rest[0]];
  }

  class Session {
    var ring: seq<byte>
    var pending: seq<byte>
    var listeners: set<Client>
    var exited: bool
    var writerInstalled: bool
    /** What the terminal will answer to the next writes; when it runs out, it is busy. */
    var answers: seq<Answer>
    /** All output, all input typed while the shell ran, and the input the terminal took. */
    ghost var pushed: seq<byte>
    ghost var typed: seq<byte>
    ghost var accepted: seq<byte>
    /** Input was cut or thrown away. */
    ghost var lost: bool
    /** How much output there was when each client attached. */
    ghost var since: map<Client, nat>

    constructor (kernel: seq<Answer>)
      ensures Valid() && listeners == {} && pushed == [] && typed == [] && accepted == [] && !exited && !lost
      ensures answers == kernel
    {
      hide Kept;
      NothingYet();
      ring, pending, listeners, exited, writerInstalled := [], [], {}, false, false;
      answers := kernel;
      pushed, typed, accepted, lost, since := [], [], [], false, map[];
    }

    /**
     * The ring is the last of all output; pending input is the last typed, and with what was taken
     * all of it unless some was lost.
     */
    ghost predicate Valid()
      reads this
    {
      Kept(ring, pushed, pending, typed, accepted, lost)
    }

    /** A waiting writer is exactly how pending input is remembered. */
    ghost predicate Armed()
      reads this
    {
      writerInstalled <==> pending != []
    }

    /** Every attached client was offered exactly the output since it attached. */
    ghost predicate Fed()
      reads this, listeners
    {
      forall q :: q in listeners ==>
        q.Valid() && q in since && since[q] <= |pushed| && BytesOf(q.offered) == pushed[since[q]..]
    }

    method OfferAll(i: Item)
      requires forall q :: q in listeners ==> q.Valid()
      modifies listeners
      ensures forall q :: q in listeners ==> q.Valid() && q.offered == old(q.offered) + [i] && q.taken == old(q.taken)
    {
      hide Surviving, Last;
      var todo := listeners;
      while todo != {}
        invariant todo <= listeners
        invariant forall q :: q in listeners ==> q.Valid() && q.taken == old(q.taken)
        invariant forall q :: q in todo ==> q.offered == old(q.offered)
        invariant forall q :: q in listeners - todo ==> q.offered == old(q.offered) + [i]
      {
        var q :| q in todo;
        q.Offer(i);
        todo := todo - {q};
      }
    }

    method Push(data: seq<byte>)
      requires Valid() && Fed()
      modifies this, listeners
      ensures Valid() && Fed() && listeners == old(listeners) && since == old(since)
      ensures pushed == old(pushed) + data && ring == Last(pushed, RING_BYTES)
      ensures pending == old(pending) && typed == old(typed) && accepted == old(accepted) && lost == old(lost)
      ensures writerInstalled == old(writerInstalled)
      ensures forall q :: q in listeners ==> q.taken == old(q.taken)
    {
      hide Last, BytesOf;
      KeepRing(data);
      OfferAll(Data(data));
      pushed := pushed + data;
      forall q | q in listeners ensures BytesOf(q.offered) == pushed[since[q]..] {
        BytesOfNext(old(q.offered), Data(data));
      }
    }

    /** Append to the ring and cut it at the front. */
    method KeepRing(data: seq<byte>)
      requires ring == Last(pushed, RING_BYTES)
      modifies this`ring
      ensures ring == Last(pushed + data, RING_BYTES)
    {
      LastAgain(pushed, data, RING_BYTES);
      ring := ring + data;
      if |ring| > RING_BYTES {
        ring := ring[|ring| - RING_BYTES..];
      }
    }

    /** `notify`: a control message; the output histories do not change. */
    method Notify(text: string)
      requires Valid() && Fed()
      modifies listeners
      ensures Valid() && Fed()
      ensures forall q :: q in listeners ==> q.offered == old(q.offered) + [Message(text)] && q.taken == old(q.taken)
    {
      OfferAll(Message(text));
      forall q | q in listeners ensures BytesOf(q.offered) == pushed[since[q]..] {
        BytesOfNext(old(q.offered), Message(text));
      }
    }

    method Attach() returns (q: Client)
      requires Valid() && Fed()
      modifies this
      ensures Valid() && Fed() && fresh(q) && listeners == old(listeners) + {q}
      ensures pushed == old(pushed) && since == old(since)[q := |pushed|] && q.offered == []
    {
      q := new Client();
      listeners := listeners + {q};
      since := since[q := |pushed|];
    }

    method Detach(q: Client)
      requires Valid() && Fed()
      modifies this
      ensures Valid() && Fed() && listeners == old(listeners) - {q} && pushed == old(pushed)
    {
      listeners := listeners - {q};
    }

    /** The pump takes the oldest item of a client. */
    method TakeFor(q: Client) returns (i: Item)
      requires Valid() && Fed() && q in listeners && q.items != []
      modifies q
      ensures Valid() && Fed() && q.offered == old(q.offered) && q.dropped == old(q.dropped)
      ensures old(q.items) == [i] + q.items && q.taken == old(q.taken) + [i]
    {
      hide BytesOf, Surviving, Kept;
      i := q.Take();
    }

    /** Keyboard input; nothing is taken once the shell has exited. */
    method Write(data: seq<byte>)
      requires Valid()
      modifies this`pending, this`answers, this`typed, this`accepted, this`lost, this`writerInstalled
      ensures Valid() && old(accepted) <= accepted
      ensures exited ==>
                typed == old(typed) && pending == old(pending) && accepted == old(accepted) && lost == old(lost)
      ensures !exited ==> Armed() && typed == old(typed) + data
      ensures lost ==> old(lost) || |old(pending) + data| > INPUT_MAX_PENDING || Broken in old(answers)
      ensures exited ==> answers == old(answers)
      ensures !exited ==>
                Flushed(|Last(old(pending) + data, INPUT_MAX_PENDING)|, |accepted| - |old(accepted)|, |pending|,
                        old(answers), answers)
    {
      if exited {
        return;
      }
      hide Kept, Last, Flushed;
      Hold(data);
      Flush();
    }

    /** Add to what is pending and cut it at the front. */
    method Hold(data: seq<byte>)
      requires Valid()
      modifies this`pending, this`typed, this`lost
      ensures Valid() && typed == old(typed) + data
      ensures lost == (old(lost) || |old(pending) + data| > INPUT_MAX_PENDING)
      ensures pending == Last(old(pending) + data, INPUT_MAX_PENDING)
    {
      hide InputKept;
      InputHeld(pending, typed, accepted, lost, data);
      typed := typed + data;
      pending := pending + data;
      if |pending| > INPUT_MAX_PENDING {
        pending := pending[|pending| - INPUT_MAX_PENDING..];
        lost := true;
      }
    }

    /** One write that the terminal answers with `n`. */
    method GiveChunk(n: nat)
      requires Valid() && pending != []
      modifies this`pending, this`accepted
      ensures Valid() && old(accepted) <= accepted && |pending| < |old(pending)|
      ensures accepted + pending == old(accepted) + old(pending)
      ensures 1 <= n <= WRITE_CHUNK && n <= |old(pending)| ==> |pending| == |old(pending)| - n
    {
      hide InputKept, Last;
      var chunk := pending[..if |pending| <= WRITE_CHUNK then |pending| else WRITE_CHUNK];
      var m := if n == 0 then 1 else if n <= |chunk| then n else |chunk|;
      InputTaken(pending, typed, accepted, lost, m);
      Moved(accepted, pending, m);
      accepted := accepted + pending[..m];
      pending := pending[m..];
    }

    /** A broken terminal: what is pending is thrown away. */
    method ThrowAway()
      requires Valid()
      modifies this`pending, this`lost
      ensures Valid() && pending == [] && lost
    {
      hide InputKept, Last;
      InputThrown(typed, accepted);
      pending, lost := [], true;
    }

    /** Give the terminal what it takes now; a busy one is waited for, a broken one ends the input. */
    method Flush()
      requires Valid()
      modifies this`pending, this`answers, this`accepted, this`lost, this`writerInstalled
      ensures Valid() && Armed() && old(accepted) <= accepted
      ensures lost ==> old(lost) || Broken in old(answers)
      ensures Flushed(|old(pending)|, |accepted| - |old(accepted)|, |pending|, old(answers), answers)
    {
      hide Kept, Taking, Flushed;
      ghost var before, used := |pending|, [];
      NothingTaken(before);
      while pending != []
        invariant Valid() && |old(accepted)| <= |accepted| && old(accepted) <= accepted
        invariant lost ==> old(lost) || Broken in old(answers)
        invariant old(answers) == used + answers
        invariant |accepted| - |old(accepted)| + |pending| == before
        invariant Taking(before, |accepted| - |old(accepted)|, used)
        decreases |pending|
      {
        ghost var taken := |accepted| - |old(accepted)|;
        if answers == [] {
          FlushedAll(before, taken, |pending|, old(answers), used, answers);
          writerInstalled := true;
          return;
        }
        match answers[0]
        case Busy =>
          FlushedUntil(before, taken, |pending|, old(answers), used, answers);
          answers := answers[1..];
          writerInstalled := true;
          return;
        case Broken =>
          FlushedUntil(before, taken, 0, old(answers), used, answers);
          answers := answers[1..];
          ThrowAway();
          writerInstalled := false;
          return;
        case Takes(n) =>
          GiveChunk(n);
          TakingMore(before, taken, used, n, |accepted| - |old(accepted)| - taken);
          used := used + [answers[0]];
          answers := answers[1..];
      }
      FlushedAll(before, |accepted| - |old(accepted)|, 0, old(answers), used, answers);
      writerInstalled := false;
    }
  }

  // ------------------------------------------------------------------- the pump

  /** What a reader of frames or items sees: single bytes and whole messages, in order. */
  datatype Atom = Byte(b: byte) | Control(text: string)

  function Bytes(data: seq<byte>): (r: seq<Atom>)
    ensures |r| == |data|
  {
    seq(|data|, i requires 0 <= i < |data| => Byte(data[i]))
  }

  function AtomsOf(i: Item): seq<Atom> {
    if i.Data? then Bytes(i.bytes) else [Control(i.text)]
  }

  /** A binary frame carries data, a text frame a message. */
  function Flatten(items: seq<Item>): seq<Atom> {
    if items == [] then [] else Flatten(items[..|items| - 1]) + AtomsOf(items[|items| - 1])
  }

  lemma FlattenNext(items: seq<Item>, i: Item)
    ensures Flatten(items + [i]) == Flatten(items) + AtomsOf(i)
  {
    assert (items + [i])[..|items|] == items;
  }

  lemma {:induction false} FlattenConcat(a: seq<Item>, b: seq<Item>)
    ensures Flatten(a + b) == Flatten(a) + Flatten(b)
  {
    hide AtomsOf;
    if b == [] {
      assert a + b == a;
    } else {
      assert (a + b)[..|a + b| - 1] == a + b[..|b| - 1];
      FlattenConcat(a, b[..|b| - 1]);
    }
  }

  lemma BytesConcat(a: seq<byte>, b: seq<byte>)
    ensures Bytes(a + b) == Bytes(a) + Bytes(b)
  {
  }

  /** Sending gives the session the chance to push output and messages meanwhile. */
  method Send(s: Session, q: Client, arrivals: seq<seq<Item>>) returns (rest: seq<seq<Item>>)
    requires s.Valid() && s.Fed() && q in s.listeners
    modifies s, s.listeners
    ensures s.Valid() && s.Fed() && s.listeners == old(s.listeners) && s.since == old(s.since)
    ensures q.taken == old(q.taken)
    ensures if arrivals == [] then rest == [] && q.items == old(q.items) else |rest| < |arrivals|
  {
    hide BytesOf, Surviving, Kept;
    if arrivals == [] {
      return [];
    }
    rest := arrivals[1..];
    for i := 0 to |arrivals[0]|
      invariant s.Valid() && s.Fed() && s.listeners == old(s.listeners) && s.since == old(s.since)
      invariant q.taken == old(q.taken)
    {
      match arrivals[0][i]
      case Data(bytes) => s.Push(bytes);
      case Message(text) => s.Notify(text);
    }
  }

  /** One wake of the pump: a burst of data leaves as one frame, and nothing changes place. */
  method Wake(s: Session, q: Client, arrivals: seq<seq<Item>>) returns (frames: seq<Item>, rest: seq<seq<Item>>)
    requires s.Valid() && s.Fed() && q in s.listeners && q.items != []
    modifies s, s.listeners
    ensures s.Valid() && s.Fed() && s.listeners == old(s.listeners) && s.since == old(s.since)
    ensures |q.taken| > |old(q.taken)| && old(q.taken) <= q.taken
    ensures Flatten(frames) == Flatten(q.taken[|old(q.taken)|..])
    ensures |rest| < |arrivals| || (rest == arrivals && |q.items| < |old(q.items)|)
  {
    hide Flatten, AtomsOf, Bytes, BytesOf, Surviving, Kept;
    var item := s.TakeFor(q);
    FlattenOne(item);
    assert q.taken[|old(q.taken)|..] == [item];
    if item.Message? {
      frames := [item];
      rest := Send(s, q, arrivals);
      return;
    }
    var buf := item.bytes;
    frames, rest := [], arrivals;
    FlattenNone();
    while q.items != []
      invariant s.Valid() && s.Fed() && s.listeners == old(s.listeners) && s.since == old(s.since)
      invariant |q.taken| > |old(q.taken)| && old(q.taken) <= q.taken
      invariant Flatten(frames) + Bytes(buf) == Flatten(q.taken[|old(q.taken)|..])
      invariant |rest| < |arrivals| || (rest == arrivals && |q.items| < |old(q.items)|)
      decreases |rest|, |q.items|
    {
      ghost var was := q.taken;
      var next := s.TakeFor(q);
      assert q.taken[|old(q.taken)|..] == was[|old(q.taken)|..] + [next];
      FlattenNext(was[|old(q.taken)|..], next);
      if next.Data? {
        BytesConcat(buf, next.bytes);
        AtomsOfData(next.bytes);
        buf := buf + next.bytes;
      } else {
        rest := Send(s, q, rest);
        FlattenNext(frames, Data(buf));
        AtomsOfData(buf);
        FlattenNext(frames + [Data(buf)], next);
        frames, buf := frames + [Data(buf)] + [next], [];
        BytesNone();
        rest := Send(s, q, rest);
      }
    }
    if buf != [] {
      FlattenNext(frames, Data(buf));
      AtomsOfData(buf);
      frames := frames + [Data(buf)];
      rest := Send(s, q, rest);
    } else {
      BytesNone();
    }
  }

  lemma FlattenOne(i: Item)
    ensures Flatten([i]) == AtomsOf(i) && (i.Data? ==> AtomsOf(i) == Bytes(i.bytes))
  {
    assert [i][..0] == [];
  }

  lemma FlattenNone()
    ensures Flatten([]) == []
  {
  }

  lemma BytesNone()
    ensures Bytes([]) == []
  {
  }

  lemma AtomsOfData(data: seq<byte>)
    ensures AtomsOf(Data(data)) == Bytes(data)
  {
  }

  /**
   * The pump until it waits again: with what it took before, the client has been sent all that it
   * was offered but what was pushed out, in order.
   */
  method Relay(s: Session, q: Client, arrivals: seq<seq<Item>>) returns (frames: seq<Item>)
    requires s.Valid() && s.Fed() && q in s.listeners
    modifies s, s.listeners
    ensures s.Valid() && s.Fed() && s.listeners == old(s.listeners) && s.since == old(s.since)
    ensures q.items == [] && old(q.taken) <= q.taken
    ensures Flatten(frames) == Flatten(q.taken[|old(q.taken)|..])
    ensures Flatten(old(q.taken)) + Flatten(frames) == Flatten(Surviving(q.offered, q.dropped))
  {
    hide Flatten, Surviving, BytesOf, Kept;
    frames := [];
    var rest := arrivals;
    assert q.taken[|old(q.taken)|..] == [];
    while q.items != []
      invariant s.Valid() && s.Fed() && s.listeners == old(s.listeners) && s.since == old(s.since)
      invariant old(q.taken) <= q.taken
      invariant Flatten(frames) == Flatten(q.taken[|old(q.taken)|..])
      decreases |rest|, |q.items|
    {
      ghost var was := q.taken;
      var sent;
      sent, rest := Wake(s, q, rest);
      FlattenConcat(frames, sent);
      FlattenConcat(was[|old(q.taken)|..], q.taken[|was|..]);
      assert q.taken[|old(q.taken)|..] == was[|old(q.taken)|..] + q.taken[|was|..];
      frames := frames + sent;
    }
    q.NothingElseMissing();
    FlattenConcat(old(q.taken), q.taken[|old(q.taken)|..]);
    assert q.taken + [] == q.taken && old(q.taken) + q.taken[|old(q.taken)|..] == q.taken;
  }

  /** The bytes among what a reader sees. */
  function OnlyBytes(atoms: seq<Atom>): seq<byte> {
    if atoms == [] then []
    else OnlyBytes(atoms[..|atoms| - 1]) + (if atoms[|atoms| - 1].Byte? then [atoms[|atoms| - 1].b] else [])
  }

  lemma {:induction false} OnlyBytesConcat(a: seq<Atom>, b: seq<Atom>)
    ensures OnlyBytes(a + b) == OnlyBytes(a) + OnlyBytes(b)
  {
    if b == [] {
      assert a + b == a;
    } else {
      assert (a + b)[..|a + b| - 1] == a + b[..|b| - 1];
      OnlyBytesConcat(a, b[..|b| - 1]);
    }
  }

  lemma {:induction false} OnlyBytesOf(data: seq<byte>)
    ensures OnlyBytes(Bytes(data)) == data
  {
    if data != [] {
      var n := |data| - 1;
      OnlyBytesOf(data[..n]);
      assert Bytes(data)[..n] == Bytes(data[..n]);
    }
  }

  /** Framing does not matter to the bytes of the output. */
  lemma {:induction false} BytesOfFlatten(items: seq<Item>)
    ensures BytesOf(items) == OnlyBytes(Flatten(items))
  {
    hide OnlyBytes, Bytes;
    if items == [] {
      NoBytes();
    } else {
      var n := |items| - 1;
      BytesOfFlatten(items[..n]);
      OnlyBytesConcat(Flatten(items[..n]), AtomsOf(items[n]));
      if items[n].Data? {
        OnlyBytesOf(items[n].bytes);
      } else {
        NoByte(items[n].text);
      }
    }
  }

  lemma NoBytes()
    ensures OnlyBytes([]) == []
  {
  }

  lemma NoByte(text: string)
    ensures OnlyBytes([Control(text)]) == []
  {
    assert [Control(text)][..0] == [];
  }

  /**
   * A client that lost nothing has been sent exactly the output since it attached, up to the moment
   * the pump waits again, whatever the session pushed while it was sending.
   */
  method Serve(s: Session, q: Client, arrivals: seq<seq<Item>>) returns (frames: seq<Item>)
    requires s.Valid() && s.Fed() && q in s.listeners
    modifies s, s.listeners
    ensures s.Valid() && s.Fed() && s.listeners == old(s.listeners) && s.since == old(s.since) && q.items == []
    ensures Flatten(old(q.taken)) + Flatten(frames) == Flatten(Surviving(q.offered, q.dropped))
    ensures q.dropped == {} ==> BytesOf(old(q.taken)) + BytesOf(frames) == s.pushed[s.since[q]..]
  {
    hide Flatten, Surviving, BytesOf, OnlyBytes, Kept;
    frames := Relay(s, q, arrivals);
    if q.dropped == {} {
      q.NothingElseMissing();
      assert q.taken + [] == q.taken;
      BytesOfFlatten(old(q.taken));
      BytesOfFlatten(frames);
      OnlyBytesConcat(Flatten(old(q.taken)), Flatten(frames));
      BytesOfFlatten(q.offered);
    }
  }
}
