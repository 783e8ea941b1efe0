/**
  The slot ring of IOEventBuffer as a value: cells indexed by logical position modulo the
  capacity, a read head, a write head and a live count.  The functions are the exact effect of
  the buffer's private loops; the lemmas say what those effects mean for the sequence of live
  elements in push order.
*/
module Rings {
  import opened Wrappers

  datatype Ring<T> = Ring(cells: seq<Option<T>>, readHead: int, writeHead: int, count: int)

  /** A ring with its byte account and the elements evicted so far, oldest eviction first. */
  datatype Account<T> = Account(ring: Ring<T>, bytes: int, evicted: seq<T>)

  // ---------------------------------------------------------------- scanning

  function Max(a: int, b: int): int {
    if a >= b then a else b
  }

  /** The chronological scan over positions lo..hi, skipping holes. */
  function Collect<T>(cells: seq<Option<T>>, lo: int, hi: int): seq<T>
    requires |cells| > 0
    decreases hi - lo
  {
    if hi <= lo then []
    else
      var cell := cells[(hi - 1) % |cells|];
      Collect(cells, lo, hi - 1) + if cell.Some? then [cell.value] else []
  }

  /** What drain returns: everything from the read head to the write head. */
  function Scan<T>(r: Ring<T>): seq<T>
    requires |r.cells| > 0
  {
    Collect(r.cells, r.readHead, r.writeHead)
  }

  /** First position whose last write has not been overwritten. */
  function WindowStart<T>(r: Ring<T>): int {
    Max(r.readHead, r.writeHead - |r.cells|)
  }

  /** The live elements, each exactly once, in push order. */
  function Live<T>(r: Ring<T>): seq<T>
    requires |r.cells| > 0
  {
    Collect(r.cells, WindowStart(r), r.writeHead)
  }

  predicate Distinct<T(==)>(s: seq<T>) {
    forall i, j :: 0 <= i < j < |s| ==> s[i] != s[j]
  }

  // ---------------------------------------------------------------- invariants

  /** Holds in every run, interior releases included. */
  ghost predicate Inv<T>(r: Ring<T>) {
    && |r.cells| > 0
    && 0 <= r.readHead <= r.writeHead
    && (forall p {:trigger r.cells[p % |r.cells|]} :: r.writeHead - |r.cells| <= p < r.readHead ==> r.cells[p % |r.cells|].None?)
    && r.count == |Live(r)|
    && (r.count == 0 ==> r.readHead == r.writeHead)
  }

  /** Holds in runs without interior releases: no hole between the heads. */
  ghost predicate Contiguous<T>(r: Ring<T>) {
    && Inv(r)
    && r.writeHead - r.readHead <= |r.cells|
    && forall p {:trigger r.cells[p % |r.cells|]} :: r.readHead <= p < r.writeHead ==> r.cells[p % |r.cells|].Some?
  }

  // ---------------------------------------------------------------- operations

  function Empty<T>(capacity: nat): Ring<T> {
    Ring(seq(capacity, _ => None), 0, 0, 0)
  }

  /** evictIndex on a non-null slot. */
  function EvictIndex<T>(r: Ring<T>, index: int): (r': Ring<T>)
    requires 0 <= index < |r.cells|
  {
    var cells := r.cells[index := None];
    if r.count - 1 == 0 then
      Ring(cells, r.writeHead, r.writeHead, 0)
    else
      Ring(cells, if index == r.readHead % |r.cells| then r.readHead + 1 else r.readHead, r.writeHead, r.count - 1)
  }

  /** The first position from lo on that holds an element, or hi. */
  function FirstLive<T>(cells: seq<Option<T>>, lo: int, hi: int): (p: int)
    requires |cells| > 0 && lo <= hi
    ensures lo <= p <= hi
    ensures forall q {:trigger cells[q % |cells|]} :: lo <= q < p ==> cells[q % |cells|].None?
    ensures p < hi ==> cells[p % |cells|].Some?
    decreases hi - lo
  {
    if lo == hi || cells[lo % |cells|].Some? then lo else FirstLive(cells, lo + 1, hi)
  }

  /** evictOldest: skip holes at the read head, then evict what stands there. */
  function EvictOldest<T>(r: Ring<T>): Ring<T>
    requires |r.cells| > 0 && r.readHead <= r.writeHead
  {
    var p := FirstLive(r.cells, r.readHead, r.writeHead);
    if p == r.writeHead then r.(readHead := p) else EvictIndex(r.(readHead := p), p % |r.cells|)
  }

  /** The element evictOldest takes. */
  function Oldest<T>(r: Ring<T>): Option<T>
    requires |r.cells| > 0 && r.readHead <= r.writeHead
  {
    var p := FirstLive(r.cells, r.readHead, r.writeHead);
    if p == r.writeHead then None else r.cells[p % |r.cells|]
  }

  function Weight<T>(w: map<T, int>, x: T): int {
    if x in w then w[x] else 0
  }

  function Sum<T>(w: map<T, int>, s: seq<T>): int {
    if s == [] then 0 else Sum(w, s[..|s| - 1]) + Weight(w, s[|s| - 1])
  }

  // ---------------------------------------------------------------- scan lemmas

  lemma MulAtLeast(d: int, n: int)
    requires d >= 1 && n > 0
    ensures d * n >= n
  {
  }

  /** A quotient and a remainder in range are the ones Dafny computes. */
  lemma ModOfProduct(k: int, n: int, r: int)
    requires 0 <= r < n
    ensures (k * n + r) % n == r && (k * n + r) / n == k
  {
    var x := k * n + r;
    var q := x / n;
    var d := q - k;
    assert d * n == q * n - k * n;
    assert x == q * n + x % n;
    if d >= 1 {
      MulAtLeast(d, n);
    } else if d <= -1 {
      MulAtLeast(-d, n);
    }
  }

  lemma ModUnique(base: int, n: int, p: int, q: int)
    requires n > 0 && base <= p < base + n && base <= q < base + n && p % n == q % n
    ensures p == q
  {
    var a, b := p / n, q / n;
    assert p == a * n + p % n && q == b * n + q % n;
    assert (a - b) * n == a * n - b * n;
    if a - b >= 1 {
      MulAtLeast(a - b, n);
    } else if b - a >= 1 {
      MulAtLeast(b - a, n);
    }
  }

  lemma ModShift(p: int, n: int)
    requires n > 0
    ensures (p - n) % n == p % n && (p + n) % n == p % n
  {
    var k := p / n;
    assert p == k * n + p % n;
    assert (k - 1) * n == k * n - n && (k + 1) * n == k * n + n;
    ModOfProduct(k - 1, n, p % n);
    ModOfProduct(k + 1, n, p % n);
  }

  lemma {:induction false} CollectFrame<T>(a: seq<Option<T>>, b: seq<Option<T>>, lo: int, hi: int)
    requires |a| == |b| > 0
    requires forall p {:trigger a[p % |a|]} {:trigger b[p % |a|]} :: lo <= p < hi ==> a[p % |a|] == b[p % |a|]
    ensures Collect(a, lo, hi) == Collect(b, lo, hi)
    decreases hi - lo
  {
    if lo < hi {
      CollectFrame(a, b, lo, hi - 1);
    }
  }

  lemma {:induction false} CollectSplit<T>(cells: seq<Option<T>>, lo: int, mid: int, hi: int)
    requires |cells| > 0 && lo <= mid <= hi
    ensures Collect(cells, lo, hi) == Collect(cells, lo, mid) + Collect(cells, mid, hi)
    decreases hi - mid
  {
    if mid < hi {
      CollectSplit(cells, lo, mid, hi - 1);
    }
  }

  lemma {:induction false} CollectHoles<T>(cells: seq<Option<T>>, lo: int, hi: int)
    requires |cells| > 0
    ensures Collect(cells, lo, hi) == [] <==> forall p {:trigger cells[p % |cells|]} :: lo <= p < hi ==> cells[p % |cells|].None?
    decreases hi - lo
  {
    if lo < hi {
      CollectHoles(cells, lo, hi - 1);
      if cells[(hi - 1) % |cells|].None? && Collect(cells, lo, hi - 1) == [] {
        forall p | lo <= p < hi ensures cells[p % |cells|].None? {
        }
      }
    }
  }

  lemma CollectSnoc<T>(cells: seq<Option<T>>, lo: int, hi: int)
    requires |cells| > 0 && lo <= hi
    ensures var cell := cells[hi % |cells|];
            Collect(cells, lo, hi + 1) == if cell.Some? then Collect(cells, lo, hi) + [cell.value] else Collect(cells, lo, hi)
  {
  }

  /** The one position of the current window that a cell index stands for. */
  function PositionOf(capacity: int, writeHead: int, index: int): (p: int)
    requires 0 <= index < capacity
    ensures writeHead - capacity <= p < writeHead && p % capacity == index
  {
    var k := (writeHead - 1 - index) / capacity;
    ModOfProduct(k, capacity, index);
    k * capacity + index
  }

  /** Emptying a cell takes its element out of the window's scan and touches nothing else there. */
  lemma EmptyCell<T>(r: Ring<T>, index: int)
    requires Inv(r) && 0 <= index < |r.cells| && r.cells[index].Some?
    ensures var p := PositionOf(|r.cells|, r.writeHead, index);
            var cells := r.cells[index := None];
            && WindowStart(r) <= p
            && Live(r) == Collect(r.cells, WindowStart(r), p) + [r.cells[index].value] + Collect(r.cells, p + 1, r.writeHead)
            && Collect(cells, WindowStart(r), r.writeHead) == Collect(r.cells, WindowStart(r), p) + Collect(r.cells, p + 1, r.writeHead)
  {
    var n, w := |r.cells|, r.writeHead;
    var p := PositionOf(n, w, index);
    var lo, cells := WindowStart(r), r.cells[index := None];
    assert r.cells[p % n].Some?;
    CollectSplit(r.cells, lo, p, w);
    CollectSplit(r.cells, p, p + 1, w);
    assert Collect(r.cells, p, p) == [] && Collect(cells, p, p) == [];
    CollectSplit(cells, lo, p, w);
    CollectSplit(cells, p, p + 1, w);
    forall q | w - n <= q < w && q != p ensures q % n != index {
      if q % n == index { ModUnique(w - n, n, p, q); }
    }
    CollectFrame(r.cells, cells, lo, p);
    CollectFrame(r.cells, cells, p + 1, w);
  }

  lemma EvictIndexLive<T>(r: Ring<T>, index: int)
    requires Inv(r) && 0 <= index < |r.cells| && r.cells[index].Some?
    ensures var p := PositionOf(|r.cells|, r.writeHead, index);
            var r' := EvictIndex(r, index);
            && WindowStart(r) <= p
            && Inv(r')
            && Live(r) == Collect(r.cells, WindowStart(r), p) + [r.cells[index].value] + Collect(r.cells, p + 1, r.writeHead)
            && Live(r') == Collect(r.cells, WindowStart(r), p) + Collect(r.cells, p + 1, r.writeHead)
  {
    hide Collect;
    var n, w := |r.cells|, r.writeHead;
    var p := PositionOf(n, w, index);
    var r', cells := EvictIndex(r, index), r.cells[index := None];
    EmptyCell(r, index);
    CollectHoles(cells, w, w);
    CollectHoles(cells, WindowStart(r), w);
    if r.count > 1 && index == r.readHead % n {
      if r.readHead >= w - n {
        ModUnique(w - n, n, p, r.readHead);
        CollectHoles(r.cells, p, p);
        CollectHoles(cells, p, p + 1);
        CollectSplit(cells, p, p + 1, w);
      }
    }
    forall q {:trigger cells[q % n]} | w - n <= q < r'.readHead ensures cells[q % n].None? {
      if q < r.readHead { assert r.cells[q % n].None?; }
    }
  }

  /** s with its element at index i taken out. */
  function Without<T>(s: seq<T>, i: int): seq<T>
    requires 0 <= i < |s|
  {
    s[..i] + s[i + 1..]
  }

  /** Moving the read head over holes changes nothing that lives. */
  lemma SkipHoles<T>(r: Ring<T>, p: int)
    requires Inv(r) && r.readHead <= p < r.writeHead
    requires forall q {:trigger r.cells[q % |r.cells|]} :: r.readHead <= q < p ==> r.cells[q % |r.cells|].None?
    ensures Inv(r.(readHead := p)) && Live(r.(readHead := p)) == Live(r)
  {
    var lo, lo' := WindowStart(r), WindowStart(r.(readHead := p));
    CollectSplit(r.cells, lo, lo', r.writeHead);
    CollectHoles(r.cells, lo, lo');
  }

  lemma EvictOldestLive<T>(r: Ring<T>) returns (i: int)
    requires Inv(r) && r.count > 0
    ensures Inv(EvictOldest(r)) && EvictOldest(r).count == r.count - 1
    ensures Oldest(r).Some? && 0 <= i < |Live(r)| && Live(r)[i] == Oldest(r).value
    ensures Live(EvictOldest(r)) == Without(Live(r), i)
    ensures EvictOldest(r).writeHead == r.writeHead && |EvictOldest(r).cells| == |r.cells|
    ensures forall k :: 0 <= k < |r.cells| && r.cells[k].None? ==> EvictOldest(r).cells[k].None?
  {
    var n := |r.cells|;
    var p := FirstLive(r.cells, r.readHead, r.writeHead);
    if p == r.writeHead {
      CollectHoles(r.cells, WindowStart(r), r.writeHead);
      assert false;
    }
    SkipHoles(r, p);
    var s := r.(readHead := p);
    EvictIndexLive(s, p % n);
    var q := PositionOf(n, r.writeHead, p % n);
    i := |Collect(s.cells, WindowStart(s), q)|;
  }

  lemma EvictOldestInv<T>(r: Ring<T>)
    requires Inv(r) && r.count > 0
    ensures Inv(EvictOldest(r)) && EvictOldest(r).count == r.count - 1 && Oldest(r).Some?
    ensures EvictOldest(r).writeHead == r.writeHead && |EvictOldest(r).cells| == |r.cells|
    ensures forall k :: 0 <= k < |r.cells| && r.cells[k].None? ==> EvictOldest(r).cells[k].None?
  {
    var _ := EvictOldestLive(r);
  }

  // ---------------------------------------------------------------- byte budget

  /** enforceByteBudget: evict the oldest until the budget holds or nothing is left. */
  function Enforce<T>(a: Account<T>, w: map<T, int>, incoming: int, maxBytes: int): (b: Account<T>)
    requires Inv(a.ring)
    ensures Inv(b.ring)
    ensures b.bytes + incoming <= maxBytes || Live(b.ring) == []
    ensures b.ring.writeHead == a.ring.writeHead && |b.ring.cells| == |a.ring.cells|
    ensures forall k :: 0 <= k < |a.ring.cells| && a.ring.cells[k].None? ==> b.ring.cells[k].None?
    decreases a.ring.count
  {
    if a.bytes + incoming > maxBytes && a.ring.count > 0 then
      EvictOldestInv(a.ring);
      var x := Oldest(a.ring).value;
      Enforce(Account(EvictOldest(a.ring), a.bytes - Weight(w, x), a.evicted + [x]), w, incoming, maxBytes)
    else a
  }

  /** Writing x at the write head, whose cell is empty. */
  function Place<T>(r: Ring<T>, x: T): Ring<T>
    requires |r.cells| > 0
  {
    Ring(r.cells[r.writeHead % |r.cells| := Some(x)], r.readHead, r.writeHead + 1, r.count + 1)
  }

  /** The eviction that makes room at the write head. */
  function MakeRoom<T>(a: Account<T>, w: map<T, int>): (b: Account<T>)
    requires Inv(a.ring)
    ensures Inv(b.ring) && |b.ring.cells| == |a.ring.cells| && b.ring.writeHead == a.ring.writeHead
    ensures b.ring.cells[a.ring.writeHead % |a.ring.cells|].None?
  {
    var index := a.ring.writeHead % |a.ring.cells|;
    if a.ring.cells[index].None? then a
    else
      EvictIndexLive(a.ring, index);
      var x := a.ring.cells[index].value;
      Account(EvictIndex(a.ring, index), a.bytes - Weight(w, x), a.evicted + [x])
  }

  function Push<T>(a: Account<T>, w: map<T, int>, x: T, bytes: int, maxBytes: int): Account<T>
    requires Inv(a.ring)
  {
    var room := MakeRoom(a, w);
    var fit := Enforce(room, w, bytes, maxBytes);
    Account(Place(fit.ring, x), fit.bytes + bytes, fit.evicted)
  }

  /** A write at the head touches no other position of the new window. */
  lemma OtherCells<T>(r: Ring<T>, x: T)
    requires |r.cells| > 0
    ensures forall q {:trigger r.cells[q % |r.cells|]} {:trigger Place(r, x).cells[q % |r.cells|]} ::
              r.writeHead - |r.cells| < q < r.writeHead ==> Place(r, x).cells[q % |r.cells|] == r.cells[q % |r.cells|]
  {
    var n, w := |r.cells|, r.writeHead;
    forall q | w - n < q < w ensures q % n != w % n {
      if q % n == w % n { ModUnique(w - n + 1, n, q, w); }
    }
  }

  /** The position that leaves the window is a hole when the head's cell is empty. */
  lemma WindowMoves<T>(r: Ring<T>, x: T)
    requires Inv(r) && r.cells[r.writeHead % |r.cells|].None?
    ensures WindowStart(r) <= WindowStart(Place(r, x)) <= r.writeHead
    ensures Collect(r.cells, WindowStart(r), WindowStart(Place(r, x))) == []
  {
    var lo, lo' := WindowStart(r), WindowStart(Place(r, x));
    ModShift(r.writeHead, |r.cells|);
    CollectHoles(r.cells, lo, lo');
  }

  lemma PlaceLive<T>(r: Ring<T>, x: T)
    requires Inv(r) && r.cells[r.writeHead % |r.cells|].None?
    ensures Inv(Place(r, x)) && Live(Place(r, x)) == Live(r) + [x]
  {
    hide Collect;
    var n, w, r' := |r.cells|, r.writeHead, Place(r, x);
    var lo, lo' := WindowStart(r), WindowStart(r');
    OtherCells(r, x);
    WindowMoves(r, x);
    CollectFrame(r.cells, r'.cells, lo', w);
    CollectSplit(r.cells, lo, lo', w);
    CollectSnoc(r'.cells, lo', w);
    forall q {:trigger r'.cells[q % n]} | w + 1 - n <= q < r'.readHead ensures r'.cells[q % n].None? {
      assert r.cells[q % n].None?;
    }
  }

  // ---------------------------------------------------------------- clear and release

  function Clear<T>(r: Ring<T>): Ring<T> {
    Ring(seq(|r.cells|, _ => None), r.writeHead, r.writeHead, 0)
  }

  /** releaseCompletedRequest's loop over the positions cursor..hi, dropping the members of gone. */
  ghost function Release<T>(r: Ring<T>, gone: set<T>, cursor: int, hi: int): Ring<T>
    requires |r.cells| > 0
    decreases hi - cursor
  {
    if hi <= cursor then r
    else Release(ReleaseAt(r, gone, cursor), gone, cursor + 1, hi)
  }

  ghost function ReleaseAt<T>(r: Ring<T>, gone: set<T>, cursor: int): Ring<T>
    requires |r.cells| > 0
  {
    var cell := r.cells[cursor % |r.cells|];
    if cell.Some? && cell.value in gone then EvictIndex(r, cursor % |r.cells|) else r
  }
}
