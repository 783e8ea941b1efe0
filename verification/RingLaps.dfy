/**
  The run that shows why the first-in first-out order needs runs without interior releases.  Fill
  the ring, release the second event, store two more: the hole lets the write head lap the read
  head, and the newest event is scanned twice, first as if it were the oldest.
*/
module RingLaps {
  import opened Wrappers
  import opened Rings
  import opened RingTheorems
  import opened RingScans
  import opened RingRuns

  /** push when the byte budget does not bind. */
  function RoomyPush(r: Ring<int>, x: int): Ring<int>
    requires |r.cells| > 0
  {
    var index := r.writeHead % |r.cells|;
    Place(if r.cells[index].Some? then EvictIndex(r, index) else r, x)
  }

  lemma RoomyPushIsPush(a: Account<int>, w: map<int, int>, x: int, bytes: int, maxBytes: int)
    requires Inv(a.ring) && MakeRoom(a, w).bytes + bytes <= maxBytes
    ensures Push(a, w, x, bytes, maxBytes).ring == RoomyPush(a.ring, x)
  {
  }

  /** n stores of one size. */
  function Stores(n: nat, bytes: int): seq<Op> {
    seq(n, _ => Store(bytes))
  }

  function Lapping(capacity: nat, bytes: int): seq<Op> {
    Stores(capacity, bytes) + [ReleaseAll({2})] + [Store(bytes)] + [Store(bytes)]
  }

  /** The cells after n stores. */
  function Stored(capacity: nat, n: nat): (cells: seq<Option<int>>)
    ensures |cells| == capacity
  {
    seq(capacity, i requires 0 <= i < capacity => if i < n then Some(i + 1) else None)
  }

  function Full(capacity: nat): Ring<int> {
    Ring(Stored(capacity, capacity), 0, capacity, capacity)
  }

  function Holed(capacity: nat): Ring<int>
    requires capacity >= 3
  {
    Ring(Stored(capacity, capacity)[1 := None], 0, capacity, capacity - 1)
  }

  function Wrapped(capacity: nat): Ring<int>
    requires capacity >= 3
  {
    Ring(Stored(capacity, capacity)[1 := None][0 := Some(capacity + 1)], 1, capacity + 1, capacity - 1)
  }

  function Lapped(capacity: nat): Ring<int>
    requires capacity >= 3
  {
    Ring(Stored(capacity, capacity)[1 := None][0 := Some(capacity + 1)][1 := Some(capacity + 2)], 1, capacity + 2, capacity)
  }

  /** The numbers from a up to, not including, b. */
  function Range(a: int, b: int): seq<int>
    requires a <= b
  {
    seq(b - a, i requires 0 <= i < b - a => a + i)
  }

  // ---------------------------------------------------------------- no byte budget in the way

  /** Every weight is at most bytes, so that no eviction is for the byte budget. */
  ghost predicate Light(w: map<int, int>, bytes: int) {
    forall x :: 0 <= Weight(w, x) <= bytes
  }

  lemma {:induction false} LightSum(w: map<int, int>, s: seq<int>, bytes: int)
    requires Light(w, bytes)
    ensures 0 <= Sum(w, s) <= |s| * bytes
  {
    if s != [] {
      LightSum(w, s[..|s| - 1], bytes);
      assert 0 <= Weight(w, s[|s| - 1]) <= bytes;
      OneMore(|s| - 1, bytes);
    }
  }

  /** One store of the run, in a ring of at most `capacity` events. */
  lemma LightStore(s: State, capacity: nat, bytes: int, maxBytes: int)
    requires Good(s) && Light(s.weight, bytes) && s.account.ring.count <= capacity && (capacity + 1) * bytes <= maxBytes
    ensures var t := Step(s, Store(bytes), maxBytes);
            && |s.account.ring.cells| > 0 && t.account.ring == RoomyPush(s.account.ring, s.next)
            && t.next == s.next + 1 && Light(t.weight, bytes)
  {
    hide Collect, Push;
    LightSum(s.weight, Live(s.account.ring), bytes);
    MulGrows(s.account.ring.count, capacity, bytes);
    OneMore(capacity, bytes);
    var index := s.account.ring.writeHead % |s.account.ring.cells|;
    assert s.account.ring.cells[index].Some? ==> 0 <= Weight(s.weight, s.account.ring.cells[index].value);
    assert 0 <= Weight(s.weight, s.next) <= bytes;
    RoomyPushIsPush(s.account, s.weight, s.next, bytes, maxBytes);
    var w := s.weight[s.next := bytes];
    forall x ensures 0 <= Weight(w, x) <= bytes {
      assert 0 <= Weight(s.weight, x) <= bytes;
    }
  }

  lemma OneMore(a: int, c: int)
    ensures (a + 1) * c == a * c + c
  {
  }

  lemma {:induction false} MulGrows(a: nat, b: nat, c: int)
    requires a <= b && c >= 0
    ensures a * c <= b * c
    decreases b
  {
    if a < b {
      MulGrows(a, b - 1, c);
      OneMore(b - 1, c);
    }
  }

  // ---------------------------------------------------------------- the four stages

  lemma RunSnoc(capacity: nat, ops: seq<Op>, op: Op, maxBytes: int)
    requires capacity > 0 && maxBytes >= 0
    ensures Run(capacity, ops + [op], maxBytes) == Step(Run(capacity, ops, maxBytes), op, maxBytes)
  {
    hide Step;
    assert (ops + [op])[..|ops|] == ops;
  }

  lemma StoresFill(capacity: nat, n: nat)
    requires n < capacity
    ensures RoomyPush(Ring(Stored(capacity, n), 0, n, n), n + 1) == Ring(Stored(capacity, n + 1), 0, n + 1, n + 1)
  {
    assert n % capacity == n by { ModOfProduct(0, capacity, n); }
  }

  lemma {:induction false} Fill(capacity: nat, n: nat, bytes: int, maxBytes: int)
    requires 0 < capacity && n <= capacity && bytes >= 0 && (capacity + 1) * bytes <= maxBytes && maxBytes >= 0
    ensures var s := Run(capacity, Stores(n, bytes), maxBytes);
            s.account.ring == Ring(Stored(capacity, n), 0, n, n) && s.next == n + 1 && Light(s.weight, bytes)
  {
    hide Run, Step, RoomyPush, Collect, Light;
    if n == 0 {
      FillStarts(capacity, bytes, maxBytes);
    } else {
      var before := Run(capacity, Stores(n - 1, bytes), maxBytes);
      Fill(capacity, n - 1, bytes, maxBytes);
      assert Stores(n, bytes) == Stores(n - 1, bytes) + [Store(bytes)];
      RunSnoc(capacity, Stores(n - 1, bytes), Store(bytes), maxBytes);
      LightStore(before, capacity, bytes, maxBytes);
      StoresFill(capacity, n - 1);
    }
  }

  lemma FillStarts(capacity: nat, bytes: int, maxBytes: int)
    requires capacity > 0 && bytes >= 0 && maxBytes >= 0
    ensures var s := Run(capacity, Stores(0, bytes), maxBytes);
            s.account.ring == Ring(Stored(capacity, 0), 0, 0, 0) && s.next == 1 && Light(s.weight, bytes)
  {
    assert Stored(capacity, 0) == Empty<int>(capacity).cells;
  }

  /** Nothing more to release. */
  lemma {:induction false} ReleaseIdle(r: Ring<int>, gone: set<int>, cursor: int, hi: int)
    requires |r.cells| > 0 && cursor <= hi
    requires forall p {:trigger r.cells[p % |r.cells|]} :: cursor <= p < hi ==>
               r.cells[p % |r.cells|].None? || r.cells[p % |r.cells|].value !in gone
    ensures Release(r, gone, cursor, hi) == r
    decreases hi - cursor
  {
    if cursor < hi {
      assert r.cells[cursor % |r.cells|].None? || r.cells[cursor % |r.cells|].value !in gone;
      ReleaseIdle(r, gone, cursor + 1, hi);
    }
  }

  lemma SmallMod(p: int, n: int)
    requires 0 <= p < n
    ensures p % n == p
  {
    ModOfProduct(0, n, p);
  }

  lemma ReleaseSecond(capacity: nat)
    requires capacity >= 3
    ensures Release(Full(capacity), {2}, 0, capacity) == Holed(capacity)
  {
    var r, t := Full(capacity), Holed(capacity);
    SmallMod(0, capacity);
    SmallMod(1, capacity);
    assert ReleaseAt(r, {2}, 0) == r && ReleaseAt(r, {2}, 1) == t;
    forall p {:trigger t.cells[p % |t.cells|]} | 2 <= p < capacity ensures t.cells[p % |t.cells|] == Some(p + 1) {
      SmallMod(p, capacity);
    }
    ReleaseIdle(t, {2}, 2, capacity);
    hide ReleaseAt;
    ReleaseTurn(r, {2}, 1, capacity);
    ReleaseTurn(r, {2}, 0, capacity);
  }

  lemma TwoMore(capacity: nat)
    requires capacity >= 3
    ensures RoomyPush(Holed(capacity), capacity + 1) == Wrapped(capacity)
    ensures RoomyPush(Wrapped(capacity), capacity + 2) == Lapped(capacity)
  {
    SmallMod(0, capacity);
    SmallMod(1, capacity);
    ModShift(0, capacity);
    ModShift(1, capacity);
  }

  /** The ring after the whole run. */
  lemma LappingRun(capacity: nat, bytes: int, maxBytes: int)
    requires capacity >= 3 && bytes >= 0 && (capacity + 1) * bytes <= maxBytes && maxBytes >= 0
    ensures Run(capacity, Lapping(capacity, bytes), maxBytes).account.ring == Lapped(capacity)
  {
    hide Run, RoomyPush, Push, Release, Live;
    var full := Stores(capacity, bytes);
    Fill(capacity, capacity, bytes, maxBytes);
    RunSnoc(capacity, full, ReleaseAll({2}), maxBytes);
    ReleaseSecond(capacity);
    var holed := Run(capacity, full + [ReleaseAll({2})], maxBytes);
    TwoMore(capacity);
    LightStore(holed, capacity, bytes, maxBytes);
    RunSnoc(capacity, full + [ReleaseAll({2})], Store(bytes), maxBytes);
    var wrapped := Run(capacity, full + [ReleaseAll({2})] + [Store(bytes)], maxBytes);
    LightStore(wrapped, capacity, bytes, maxBytes);
    RunSnoc(capacity, full + [ReleaseAll({2})] + [Store(bytes)], Store(bytes), maxBytes);
  }

  // ---------------------------------------------------------------- what the scans then see

  /** Scanning the lapped ring from its second position to just before hi. */
  lemma {:induction false} LappedScan(capacity: nat, hi: int)
    requires capacity >= 3 && 2 <= hi <= capacity + 2
    ensures Collect(Lapped(capacity).cells, 2, hi) == Range(3, hi + 1)
    decreases hi
  {
    var cells := Lapped(capacity).cells;
    if hi == 2 {
      assert Collect(cells, 2, 2) == [];
    } else {
      LappedScan(capacity, hi - 1);
      if hi - 1 < capacity { SmallMod(hi - 1, capacity); } else { SmallMod(hi - 1 - capacity, capacity); ModShift(hi - 1, capacity); }
      assert cells[(hi - 1) % capacity] == Some(hi);
      CollectSnoc(cells, 2, hi - 1);
      assert Range(3, hi + 1) == Range(3, hi) + [hi];
    }
  }

  /**
    The newest event is scanned twice, once before all others, it is the one the byte budget takes
    for the oldest, seqGaps over the drained events is minus the capacity, and getRecent is wrong
    from one more than the live count on.
  */
  ghost predicate NewestTwice(r: Ring<int>, capacity: int) {
    && |r.cells| == capacity > 0 && r.readHead <= r.writeHead
    && Live(r) == Range(3, capacity + 3)
    && Scan(r) == [capacity + 2] + Live(r)
    && Oldest(r) == Some(capacity + 2)
    && SeqGaps(Scan(r)) == -capacity
    && forall n :: LastOf(Scan(r), n) == LastOf(Live(r), n) <==> n <= capacity
  }

  lemma LappedLive(capacity: nat)
    requires capacity >= 3
    ensures Live(Lapped(capacity)) == Range(3, capacity + 3)
    ensures Scan(Lapped(capacity)) == [capacity + 2] + Live(Lapped(capacity))
  {
    hide Range;
    var r := Lapped(capacity);
    LappedScan(capacity, capacity + 2);
    SmallMod(1, capacity);
    CollectSplit(r.cells, 1, 2, capacity + 2);
    assert Collect(r.cells, 1, 1) == [] && Collect(r.cells, 1, 2) == [capacity + 2];
  }

  lemma LappedTwice(capacity: nat)
    requires capacity >= 3
    ensures NewestTwice(Lapped(capacity), capacity)
  {
    hide Collect, Live, Scan;
    var r := Lapped(capacity);
    LappedLive(capacity);
    SmallMod(1, capacity);
    assert Oldest(r) == Some(capacity + 2);
    hide Lapped, Oldest;
    forall n ensures LastOf(Scan(r), n) == LastOf(Live(r), n) <==> n <= capacity {
      LastOfOneMore(capacity + 2, Live(r), n);
    }
  }

  /**
    For every capacity that has a middle and every byte budget that does not bind, the run that
    stores as many events as there is room for, releases the second and stores two more.
  */
  lemma InteriorReleaseBreaksScan(capacity: nat, bytes: int, maxBytes: int)
    requires capacity >= 3 && bytes >= 0 && (capacity + 1) * bytes <= maxBytes && maxBytes >= 0
    ensures NewestTwice(Run(capacity, Lapping(capacity, bytes), maxBytes).account.ring, capacity)
  {
    hide Run, NewestTwice, Lapped;
    LappingRun(capacity, bytes, maxBytes);
    LappedTwice(capacity);
  }

  lemma LastOfOneMore(x: int, s: seq<int>, n: int)
    ensures LastOf([x] + s, n) == LastOf(s, n) <==> n <= |s|
  {
    if n > |s| {
      assert |LastOf([x] + s, n)| == |s| + 1;
    }
  }
}
