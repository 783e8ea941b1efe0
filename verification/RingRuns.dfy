/**
  Whole runs of the event ring.  Elements are the clock values the events were stamped with, so
  a push takes the next value and any other stamp in the process skips one.
*/
module RingRuns {
  import opened Rings
  import opened RingTheorems
  import opened RingScans

  datatype Op =
    | StampElsewhere
    | Store(bytes: int)
    | Resize(seqNo: int, newBytes: int)
    | ReleaseAll(gone: set<int>)
    | ClearAll
    | CompactAll(done: set<int>, bytes: int)

  datatype State = State(account: Account<int>, weight: map<int, int>, next: int, stored: nat, released: nat, cleared: nat)

  function Start(capacity: nat): State {
    State(Account(Empty(capacity), 0, []), map[], 1, 0, 0, 0)
  }

  function StoreStep(s: State, bytes: int, maxBytes: int): State
    requires Inv(s.account.ring)
  {
    s.(account := Push(s.account, s.weight, s.next, bytes, maxBytes), weight := s.weight[s.next := bytes],
       next := s.next + 1, stored := s.stored + 1)
  }

  function ResizeStep(s: State, x: int, newBytes: int, maxBytes: int): State
    requires Inv(s.account.ring)
  {
    var w := s.weight[x := newBytes];
    var resized := s.account.(bytes := s.account.bytes + newBytes - Weight(s.weight, x));
    s.(account := Enforce(resized, w, 0, maxBytes), weight := w)
  }

  ghost function ReleaseStep(s: State, gone: set<int>): State
    requires |s.account.ring.cells| > 0
  {
    var r := s.account.ring;
    var kept := FilterOut(Live(r), gone);
    s.(account := Account(Release(r, gone, r.readHead, r.writeHead),
                          s.account.bytes - Sum(s.weight, Live(r)) + Sum(s.weight, kept), s.account.evicted),
       released := s.released + (|Live(r)| - |kept|))
  }

  function ClearStep(s: State): State
    requires |s.account.ring.cells| > 0
  {
    s.(account := Account(Clear(s.account.ring), 0, s.account.evicted), cleared := s.cleared + |Live(s.account.ring)|)
  }

  /** What a compacted element weighs from now on; the others keep their weight. */
  function Compacted(w: map<int, int>, live: seq<int>, done: set<int>, bytes: int): map<int, int> {
    map x | x in w.Keys :: if x in done && x in live then bytes else w[x]
  }

  function CompactStep(s: State, done: set<int>, bytes: int): State
    requires |s.account.ring.cells| > 0
  {
    var live := Live(s.account.ring);
    var w := Compacted(s.weight, live, done, bytes);
    s.(account := s.account.(bytes := s.account.bytes - Sum(s.weight, live) + Sum(w, live)), weight := w)
  }

  ghost function Step(s: State, op: Op, maxBytes: int): State
    requires Inv(s.account.ring)
  {
    match op
    case StampElsewhere => s.(next := s.next + 1)
    case Store(bytes) => StoreStep(s, bytes, maxBytes)
    case Resize(x, newBytes) => if x in Live(s.account.ring) then ResizeStep(s, x, newBytes, maxBytes) else s
    case ReleaseAll(gone) => ReleaseStep(s, gone)
    case ClearAll => ClearStep(s)
    case CompactAll(done, bytes) => CompactStep(s, done, bytes)
  }

  ghost predicate Increasing(s: seq<int>) {
    forall i, j :: 0 <= i < j < |s| ==> s[i] < s[j]
  }

  ghost predicate Below(s: seq<int>, bound: int) {
    forall i :: 0 <= i < |s| ==> s[i] < bound
  }

  /** Byte balance, conservation of stored events, and push order, on top of the ring invariant. */
  ghost predicate Good(s: State) {
    && Inv(s.account.ring)
    && Increasing(Live(s.account.ring))
    && Below(Live(s.account.ring), s.next)
    && Drift(s.account, s.weight) == 0
    && s.stored == s.account.ring.count + |s.account.evicted| + s.released + s.cleared
  }

  lemma {:induction false} FilterOutIncreasing(s: seq<int>, gone: set<int>, bound: int)
    requires Increasing(s) && Below(s, bound)
    ensures Increasing(FilterOut(s, gone)) && Below(FilterOut(s, gone), bound)
  {
    if s != [] {
      FilterOutIncreasing(s[..|s| - 1], gone, s[|s| - 1]);
    }
  }

  lemma {:induction false} SumUpdate(w: map<int, int>, s: seq<int>, x: int, bytes: int)
    requires Increasing(s)
    ensures Sum(w[x := bytes], s) == Sum(w, s) + if x in s then bytes - Weight(w, x) else 0
  {
    if s != [] {
      var front, last := s[..|s| - 1], s[|s| - 1];
      SumUpdate(w, front, x, bytes);
      assert x in s <==> x in front || x == last;
    }
  }

  lemma AppendIncreasing(s: seq<int>, x: int)
    requires Increasing(s) && Below(s, x)
    ensures Increasing(s + [x]) && Below(s + [x], x + 1)
  {
  }

  /** b stands for any account that relates to s as PushEveryRun says. */
  lemma StoredGood(s: State, b: Account<int>, bytes: int, v: seq<int>)
    requires Good(s) && Inv(b.ring)
    requires b.evicted == s.account.evicted + v
    requires Live(b.ring) == FilterOut(Live(s.account.ring), Elems(v)) + [s.next]
    requires |Live(s.account.ring)| + 1 == |Live(b.ring)| + |v|
    requires Drift(b, s.weight[s.next := bytes]) == Drift(s.account, s.weight)
    ensures Good(s.(account := b, weight := s.weight[s.next := bytes], next := s.next + 1, stored := s.stored + 1))
  {
    FilterOutIncreasing(Live(s.account.ring), Elems(v), s.next);
    AppendIncreasing(FilterOut(Live(s.account.ring), Elems(v)), s.next);
  }

  /** b stands for any account that relates to a, a variant of s's account, by eviction. */
  lemma EvictedGood(s: State, a: Account<int>, b: Account<int>, w: map<int, int>, v: seq<int>)
    requires Good(s) && a.ring == s.account.ring && a.evicted == s.account.evicted
    requires Inv(b.ring) && Drift(a, w) == 0 && Evicted(a, b, w, v)
    ensures Good(s.(account := b, weight := w))
  {
    hide Sum;
    FilterOutIncreasing(Live(a.ring), Elems(v), s.next);
  }

  lemma StoreGood(s: State, bytes: int, maxBytes: int)
    requires Good(s)
    ensures Good(StoreStep(s, bytes, maxBytes))
  {
    hide Push;
    var b := Push(s.account, s.weight, s.next, bytes, maxBytes);
    var t := s.(account := b, weight := s.weight[s.next := bytes], next := s.next + 1, stored := s.stored + 1);
    assert Good(t) by {
      IncreasingIsDistinct(Live(s.account.ring), s.next);
      var v := PushEveryRun(s.account, s.weight, s.next, bytes, maxBytes);
      StoredGood(s, b, bytes, v);
    }
  }

  /** After a store the budget holds unless the new event stands alone. */
  lemma StoreBudget(s: State, bytes: int, maxBytes: int)
    requires Good(s)
    ensures var a := StoreStep(s, bytes, maxBytes).account;
            |a.ring.cells| > 0 && (a.bytes <= maxBytes || Live(a.ring) == [s.next])
  {
    hide Push;
    IncreasingIsDistinct(Live(s.account.ring), s.next);
    var v := PushEveryRun(s.account, s.weight, s.next, bytes, maxBytes);
  }

  lemma IncreasingIsDistinct(s: seq<int>, bound: int)
    requires Increasing(s) && Below(s, bound)
    ensures Distinct(s) && bound !in s
  {
  }

  /** After a resize of a live event the budget holds outright. */
  lemma ResizeGood(s: State, x: int, newBytes: int, maxBytes: int)
    requires Good(s) && x in Live(s.account.ring) && maxBytes >= 0
    ensures Good(ResizeStep(s, x, newBytes, maxBytes))
    ensures ResizeStep(s, x, newBytes, maxBytes).account.bytes <= maxBytes
  {
    hide Collect, Enforce;
    var w := s.weight[x := newBytes];
    var a := s.account.(bytes := s.account.bytes + newBytes - Weight(s.weight, x));
    SumUpdate(s.weight, Live(s.account.ring), x, newBytes);
    IncreasingIsDistinct(Live(a.ring), s.next);
    var v := EnforceEvicts(a, w, 0, maxBytes);
    EvictedGood(s, a, Enforce(a, w, 0, maxBytes), w, v);
  }

  lemma ReleaseGood(s: State, gone: set<int>)
    requires Good(s)
    ensures Good(ReleaseStep(s, gone))
  {
    hide FilterOut, Collect, Release;
    IncreasingIsDistinct(Live(s.account.ring), s.next);
    ReleaseRemoves(s.account.ring, gone);
    FilterOutIncreasing(Live(s.account.ring), gone, s.next);
  }

  lemma ClearGood(s: State)
    requires Good(s)
    ensures Good(ClearStep(s)) && Live(ClearStep(s).account.ring) == []
  {
    var r := Clear(s.account.ring);
    CollectHoles(r.cells, WindowStart(r), r.writeHead);
  }

  lemma StartGood(capacity: nat)
    requires capacity > 0
    ensures Good(Start(capacity)) && Contiguous(Start(capacity).account.ring)
  {
  }

  lemma StepGood(s: State, op: Op, maxBytes: int)
    requires Good(s) && maxBytes >= 0
    ensures Good(Step(s, op, maxBytes))
  {
    hide FilterOut, Sum;
    match op
    case StampElsewhere =>
    case Store(bytes) => StoreGood(s, bytes, maxBytes);
    case Resize(x, newBytes) => if x in Live(s.account.ring) { ResizeGood(s, x, newBytes, maxBytes); }
    case ReleaseAll(gone) => ReleaseGood(s, gone);
    case ClearAll => ClearGood(s);
    case CompactAll(done, bytes) =>
  }

  /** Every state of every run, interior releases included, is Good. */
  ghost function Run(capacity: nat, ops: seq<Op>, maxBytes: int): (s: State)
    requires capacity > 0 && maxBytes >= 0
    ensures Good(s)
  {
    if ops == [] then
      StartGood(capacity);
      Start(capacity)
    else
      var before := Run(capacity, ops[..|ops| - 1], maxBytes);
      StepGood(before, ops[|ops| - 1], maxBytes);
      Step(before, ops[|ops| - 1], maxBytes)
  }

  // ---------------------------------------------------------------- FIFO runs

  datatype Queue = Queue(items: seq<int>, bytes: int, weight: map<int, int>, next: int, dropped: seq<int>)

  function QueueStep(q: Queue, op: Op, capacity: nat, maxBytes: int): Queue
    requires !op.ReleaseAll?
  {
    match op
    case StampElsewhere => q.(next := q.next + 1)
    case Store(bytes) =>
      var (items, dropped) := QueuePush(q.items, q.bytes, q.weight, q.next, bytes, capacity, maxBytes);
      var w := q.weight[q.next := bytes];
      Queue(items, Sum(w, items), w, q.next + 1, q.dropped + dropped)
    case Resize(x, newBytes) =>
      if x in q.items then
        var w := q.weight[x := newBytes];
        var k := Overdue(w, q.items, Sum(w, q.items), 0, maxBytes);
        Queue(q.items[k..], Sum(w, q.items[k..]), w, q.next, q.dropped + q.items[..k])
      else q
    case ClearAll => q.(items := [], bytes := 0)
    case CompactAll(done, bytes) =>
      var w := Compacted(q.weight, q.items, done, bytes);
      q.(bytes := q.bytes - Sum(q.weight, q.items) + Sum(w, q.items), weight := w)
  }

  function QueueRun(ops: seq<Op>, capacity: nat, maxBytes: int): Queue
    requires forall i :: 0 <= i < |ops| ==> !ops[i].ReleaseAll?
  {
    if ops == [] then Queue([], 0, map[], 1, [])
    else QueueStep(QueueRun(ops[..|ops| - 1], capacity, maxBytes), ops[|ops| - 1], capacity, maxBytes)
  }

  ghost predicate Implements(s: State, q: Queue) {
    && Contiguous(s.account.ring)
    && Live(s.account.ring) == q.items
    && s.account.bytes == q.bytes
    && s.weight == q.weight
    && s.next == q.next
    && s.account.evicted == q.dropped
  }

  lemma ImplementsStore(s: State, q: Queue, bytes: int, maxBytes: int)
    requires Good(s) && Implements(s, q)
    ensures Implements(StoreStep(s, bytes, maxBytes), QueueStep(q, Store(bytes), |s.account.ring.cells|, maxBytes))
  {
    hide Push, QueuePush, Collect, Sum;
    PushFifo(s.account, s.weight, s.next, bytes, maxBytes);
    assert Drift(StoreStep(s, bytes, maxBytes).account, s.weight[s.next := bytes]) == 0 by { StoreGood(s, bytes, maxBytes); }
  }

  lemma ImplementsResize(s: State, q: Queue, x: int, newBytes: int, maxBytes: int)
    requires Good(s) && Implements(s, q) && x in q.items && maxBytes >= 0
    ensures Implements(ResizeStep(s, x, newBytes, maxBytes), QueueStep(q, Resize(x, newBytes), |s.account.ring.cells|, maxBytes))
  {
    hide FilterOut, Sum, Collect, Enforce;
    var w := s.weight[x := newBytes];
    var a := s.account.(bytes := s.account.bytes + newBytes - Weight(s.weight, x));
    var k := Overdue(w, q.items, a.bytes, 0, maxBytes);
    assert a.bytes == Sum(w, q.items) by { SumUpdate(s.weight, q.items, x, newBytes); }
    var b := Enforce(a, w, 0, maxBytes);
    assert Contiguous(b.ring) && Live(b.ring) == q.items[k..] && b.evicted == a.evicted + q.items[..k] by {
      EnforceFifo(a, w, 0, maxBytes);
    }
    assert b.bytes == Sum(w, Live(b.ring)) by { ResizeGood(s, x, newBytes, maxBytes); }
  }

  lemma ImplementsStep(s: State, q: Queue, op: Op, maxBytes: int)
    requires Good(s) && Implements(s, q) && !op.ReleaseAll? && maxBytes >= 0
    ensures Implements(Step(s, op, maxBytes), QueueStep(q, op, |s.account.ring.cells|, maxBytes))
  {
    match op
    case StampElsewhere =>
    case Store(bytes) => ImplementsStore(s, q, bytes, maxBytes);
    case Resize(x, newBytes) => if x in q.items { ImplementsResize(s, q, x, newBytes, maxBytes); }
    case ClearAll => ClearGood(s);
    case CompactAll(done, bytes) =>
  }

  /** Without interior releases the ring is the queue, through any run. */
  lemma {:induction false} RingRefinesQueue(capacity: nat, ops: seq<Op>, maxBytes: int)
    requires capacity > 0 && maxBytes >= 0 && forall i :: 0 <= i < |ops| ==> !ops[i].ReleaseAll?
    ensures Implements(Run(capacity, ops, maxBytes), QueueRun(ops, capacity, maxBytes))
    ensures |Run(capacity, ops, maxBytes).account.ring.cells| == capacity
    ensures Scan(Run(capacity, ops, maxBytes).account.ring) == QueueRun(ops, capacity, maxBytes).items
  {
    if ops == [] {
      StartGood(capacity);
    } else {
      var front, last := ops[..|ops| - 1], ops[|ops| - 1];
      RingRefinesQueue(capacity, front, maxBytes);
      var s := Run(capacity, front, maxBytes);
      ImplementsStep(s, QueueRun(front, capacity, maxBytes), last, maxBytes);
      StepKeepsCapacity(s, last, maxBytes);
    }
    DrainExactIff(Run(capacity, ops, maxBytes).account.ring);
  }

  lemma StepKeepsCapacity(s: State, op: Op, maxBytes: int)
    requires Good(s) && !op.ReleaseAll?
    ensures |Step(s, op, maxBytes).account.ring.cells| == |s.account.ring.cells|
  {
  }

  // ---------------------------------------------------------------- sequence gaps

  /** The clock values strictly inside the range of s that no element of s carries. */
  ghost function Missing(s: seq<int>): set<int>
    requires s != []
  {
    set v | s[0] <= v <= s[|s| - 1] && v !in s
  }

  /** seqGaps, last - first + 1 - length, counts exactly the missing clock values. */
  lemma {:induction false} SeqGapsCountsMissing(s: seq<int>)
    requires s != [] && Increasing(s)
    ensures s[|s| - 1] - s[0] + 1 - |s| == |Missing(s)|
  {
    if |s| == 1 {
      assert Missing(s) == {};
    } else {
      var front, last := s[..|s| - 1], s[|s| - 1];
      SeqGapsCountsMissing(front);
      var between := Between(front[|front| - 1], last);
      assert front[0] == s[0] && s == front + [last];
      assert Missing(s) == Missing(front) + between;
    }
  }

  ghost function Between(lo: int, hi: int): (r: set<int>)
    requires lo < hi
    ensures forall v :: v in r <==> lo < v < hi
    ensures |r| == hi - lo - 1
    decreases hi - lo
  {
    if lo + 1 == hi then {} else Between(lo, hi - 1) + {hi - 1}
  }

  /** What getRecentWithContext reports as gaps. */
  function SeqGaps(events: seq<int>): int {
    if events == [] then 0 else events[|events| - 1] - events[0] + 1 - |events|
  }

  lemma LastOfIncreasing(s: seq<int>, n: int)
    requires Increasing(s)
    ensures Increasing(LastOf(s, n))
  {
  }

  /** e is the last min(n, |live|) of the live events, and its gaps are the clock values missing from it. */
  ghost predicate RecentOf(e: seq<int>, live: seq<int>, n: int) {
    && |e| == (if n < 0 then 0 else if n < |live| then n else |live|)
    && e == live[|live| - |e|..]
    && Increasing(e)
    && SeqGaps(e) == if e == [] then 0 else |Missing(e)|
  }

  lemma LastOfIsRecent(live: seq<int>, n: int)
    requires Increasing(live)
    ensures RecentOf(LastOf(live, n), live, n)
  {
    LastOfIncreasing(live, n);
    var e := LastOf(live, n);
    hide Increasing, Missing;
    if e != [] {
      SeqGapsCountsMissing(e);
    }
  }

  /**
    getRecent and getRecentWithContext in every run: the newest live events, and the gaps counted,
    for every n up to the live count, and for every n at all when no occupied position is older
    than one lap.
  */
  lemma RecentInEveryRun(capacity: nat, ops: seq<Op>, maxBytes: int, n: int)
    requires capacity > 0 && maxBytes >= 0
    requires var r := Run(capacity, ops, maxBytes).account.ring; |r.cells| > 0 && (n <= r.count || OneLap(r))
    ensures var r := Run(capacity, ops, maxBytes).account.ring; RecentOf(LastOf(Scan(r), n), Live(r), n)
  {
    hide Run, Collect, OneLap;
    var r := Run(capacity, ops, maxBytes).account.ring;
    RecentExactIff(r, n);
    LastOfIsRecent(Live(r), n);
  }

  /** Without interior releases they are the newest of the queue, for every n. */
  lemma RecentOfQueue(capacity: nat, ops: seq<Op>, maxBytes: int, n: int)
    requires capacity > 0 && maxBytes >= 0 && forall i :: 0 <= i < |ops| ==> !ops[i].ReleaseAll?
    ensures var r := Run(capacity, ops, maxBytes).account.ring;
            |r.cells| > 0 && RecentOf(LastOf(Scan(r), n), QueueRun(ops, capacity, maxBytes).items, n)
  {
    hide Run, QueueRun, Collect;
    RingRefinesQueue(capacity, ops, maxBytes);
    LastOfIsRecent(Live(Run(capacity, ops, maxBytes).account.ring), n);
  }
}
