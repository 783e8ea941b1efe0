/**
  What the scans return.  The forward scan of drain, the backward scan of getRecent and the walk to
  the oldest event all start from the read head or the write head; the laws say exactly when what
  they find is what lives.
*/
module RingScans {
  import opened Wrappers
  import opened Rings
  import opened RingTheorems

  // ---------------------------------------------------------------- scans

  function Reversed<T>(s: seq<T>): (r: seq<T>)
    ensures |r| == |s|
  {
    if s == [] then [] else [s[|s| - 1]] + Reversed(s[..|s| - 1])
  }

  lemma ReversedNone<T>()
    ensures Reversed<T>([]) == []
  {
  }

  lemma ReversedSnoc<T>(s: seq<T>, x: T)
    ensures Reversed(s + [x]) == [x] + Reversed(s)
  {
    assert (s + [x])[..|s|] == s;
  }

  lemma {:induction false} ReversedCons<T>(x: T, s: seq<T>)
    ensures Reversed([x] + s) == Reversed(s) + [x]
  {
    hide Reversed;
    if s == [] {
      ReversedNone<T>();
      ReversedSnoc([], x);
      assert [] + [x] == [x] + s;
    } else {
      var front, last := s[..|s| - 1], s[|s| - 1];
      assert s == front + [last] && [x] + s == ([x] + front) + [last];
      ReversedSnoc([x] + front, last);
      ReversedSnoc(front, last);
      ReversedCons(x, front);
    }
  }

  lemma {:induction false} ReversedTwice<T>(s: seq<T>)
    ensures Reversed(Reversed(s)) == s
  {
    hide Reversed;
    if s == [] {
      ReversedNone<T>();
    } else {
      var front, last := s[..|s| - 1], s[|s| - 1];
      assert s == front + [last];
      ReversedSnoc(front, last);
      ReversedCons(last, Reversed(front));
      ReversedTwice(front);
    }
  }

  function LastOf<T>(s: seq<T>, n: int): seq<T> {
    if n <= 0 then [] else if n >= |s| then s else s[|s| - n..]
  }

  ghost function CountIn<T>(s: seq<T>, chosen: set<T>): nat {
    if s == [] then 0 else CountIn(s[..|s| - 1], chosen) + if s[|s| - 1] in chosen then 1 else 0
  }

  lemma CountInSnoc<T>(s: seq<T>, x: T, chosen: set<T>)
    ensures CountIn(s + [x], chosen) == CountIn(s, chosen) + if x in chosen then 1 else 0
  {
    assert (s + [x])[..|s|] == s;
  }

  lemma LastOfNone<T>(s: seq<T>, n: int)
    requires n <= 0 || s == []
    ensures LastOf(s, n) == []
  {
  }

  /** One more step of the backward scan. */
  lemma BackwardStep<T>(cells: seq<Option<T>>, lo: int, hi: int, recent: seq<T>)
    requires |cells| > 0 && lo < hi && Reversed(recent) == Collect(cells, lo + 1, hi)
    ensures var cell := cells[lo % |cells|];
            Reversed(if cell.Some? then recent + [cell.value] else recent) == Collect(cells, lo, hi)
  {
    CollectSplit(cells, lo, lo + 1, hi);
    assert Collect(cells, lo, lo) == [];
    var cell := cells[lo % |cells|];
    if cell.Some? {
      assert (recent + [cell.value])[..|recent|] == recent;
    }
  }

  /** A backward scan that stopped at enough elements, or at the read head, has the newest ones. */
  lemma BackwardScan<T>(r: Ring<T>, lo: int, n: int, recent: seq<T>)
    requires |r.cells| > 0 && r.readHead <= lo <= r.writeHead && n > 0
    requires Reversed(recent) == Collect(r.cells, lo, r.writeHead)
    requires |recent| == n || (|recent| < n && lo == r.readHead)
    ensures Reversed(recent) == LastOf(Scan(r), n)
  {
    CollectSplit(r.cells, r.readHead, lo, r.writeHead);
  }

  // ---------------------------------------------------------------- exactly the live elements

  /** No occupied position is older than one lap. */
  ghost predicate OneLap<T>(r: Ring<T>)
    requires |r.cells| > 0
  {
    forall p {:trigger r.cells[p % |r.cells|]} :: r.readHead <= p < r.writeHead - |r.cells| ==> r.cells[p % |r.cells|].None?
  }

  /** The scan is what it sees before the current lap and then what lives. */
  lemma ScanSplits<T>(r: Ring<T>)
    requires Inv(r)
    ensures Scan(r) == Collect(r.cells, r.readHead, WindowStart(r)) + Live(r)
    ensures Collect(r.cells, r.readHead, WindowStart(r)) == [] <==> OneLap(r)
  {
    CollectSplit(r.cells, r.readHead, WindowStart(r), r.writeHead);
    CollectHoles(r.cells, r.readHead, WindowStart(r));
  }

  /** drain is exact precisely when the positions older than one lap are holes. */
  lemma DrainExactIff<T>(r: Ring<T>)
    requires Inv(r)
    ensures Scan(r) == Live(r) <==> OneLap(r)
  {
    hide Collect, OneLap;
    ScanSplits(r);
    if Scan(r) == Live(r) {
      assert |Collect(r.cells, r.readHead, WindowStart(r))| == 0;
    }
  }

  /** The last n of the scan are the last n that live precisely when so many live or drain is exact. */
  lemma RecentExactIff<T>(r: Ring<T>, n: int)
    requires Inv(r)
    ensures LastOf(Scan(r), n) == LastOf(Live(r), n) <==> n <= r.count || OneLap(r)
  {
    hide Collect, OneLap;
    ScanSplits(r);
    var older := Collect(r.cells, r.readHead, WindowStart(r));
    if n > r.count && older != [] {
      assert |LastOf(Live(r), n)| == r.count < |LastOf(Scan(r), n)|;
    }
  }

  // ---------------------------------------------------------------- exactly the oldest element

  /** Different cells hold different elements. */
  lemma CellsDiffer<T>(r: Ring<T>, i: int, j: int)
    requires Inv(r) && Distinct(Live(r)) && 0 <= i < |r.cells| && 0 <= j < |r.cells| && i != j
    requires r.cells[i].Some? && r.cells[j].Some?
    ensures r.cells[i] != r.cells[j]
  {
    hide Collect, Distinct;
    var k := EvictIndexWithout(r, i);
    CellIsLive(EvictIndex(r, i), j);
  }

  /** The position of the oldest element that lives. */
  function FirstPosition<T>(r: Ring<T>): int
    requires |r.cells| > 0 && WindowStart(r) <= r.writeHead
  {
    FirstLive(r.cells, WindowStart(r), r.writeHead)
  }

  lemma FirstPositionHoldsFirst<T>(r: Ring<T>)
    requires Inv(r) && r.count > 0
    ensures var q := FirstPosition(r); q < r.writeHead && r.cells[q % |r.cells|] == Some(Live(r)[0])
  {
    var q := FirstPosition(r);
    CollectHoles(r.cells, WindowStart(r), q);
    CollectSplit(r.cells, WindowStart(r), q, r.writeHead);
    if q < r.writeHead {
      CollectSplit(r.cells, q, q + 1, r.writeHead);
      assert Collect(r.cells, q, q) == [];
    }
  }

  /** How many cells the walk from the read head passes before it comes to the oldest element's cell. */
  function Ahead<T>(r: Ring<T>): int
    requires |r.cells| > 0 && WindowStart(r) <= r.writeHead
  {
    (FirstPosition(r) - r.readHead) % |r.cells|
  }

  /** The cells passed are holes. */
  ghost predicate ClearAhead<T>(r: Ring<T>)
    requires |r.cells| > 0 && WindowStart(r) <= r.writeHead
  {
    forall p {:trigger r.cells[p % |r.cells|]} :: r.readHead <= p < r.readHead + Ahead(r) ==> r.cells[p % |r.cells|].None?
  }

  lemma ModAhead(lo: int, q: int, n: int)
    requires n > 0 && lo <= q
    ensures (lo + (q - lo) % n) % n == q % n && lo + (q - lo) % n <= q
  {
    var k, d := (q - lo) / n, (q - lo) % n;
    assert q == k * n + (lo + d);
    assert lo + d == ((lo + d) / n) * n + (lo + d) % n;
    assert q == (k + (lo + d) / n) * n + (lo + d) % n;
    ModOfProduct(k + (lo + d) / n, n, (lo + d) % n);
    assert k >= 0 && k * n >= 0;
  }

  /**
    The eviction for the byte budget takes the oldest live element, and leaves the others in order,
    precisely when the walk from the read head meets no other element before it.
  */
  lemma OldestExactIff<T>(r: Ring<T>)
    requires Inv(r) && Distinct(Live(r)) && r.count > 0
    ensures Oldest(r) == Some(Live(r)[0]) <==> ClearAhead(r)
    ensures Live(EvictOldest(r)) == Live(r)[1..] <==> ClearAhead(r)
  {
    hide Collect, EvictOldest;
    var n, q, p := |r.cells|, FirstPosition(r), FirstLive(r.cells, r.readHead, r.writeHead);
    var near := r.readHead + Ahead(r);
    FirstPositionHoldsFirst(r);
    ModAhead(r.readHead, q, n);
    assert r.cells[near % n].Some?;
    assert p <= near;
    var i := EvictOldestLive(r);
    WithoutFirstIff(Live(r), i);
    if Oldest(r) == Some(Live(r)[0]) {
      if p % n != q % n {
        CellsDiffer(r, p % n, q % n);
      }
      ModUnique(r.readHead, n, p, near);
    }
  }

  lemma WithoutFirstIff<T>(s: seq<T>, i: int)
    requires Distinct(s) && 0 <= i < |s|
    ensures Without(s, i) == s[1..] <==> i == 0
    ensures s[i] == s[0] <==> i == 0
  {
    if i > 0 {
      assert Without(s, i)[0] == s[0] && s[1..][0] == s[1];
    }
  }
}
