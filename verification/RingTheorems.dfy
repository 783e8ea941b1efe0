/**
  What the ring operations mean.  First the facts of every run; then the FIFO refinement, which
  needs the runs without interior releases.
*/
module RingTheorems {
  import opened Wrappers
  import opened Rings

  // ---------------------------------------------------------------- sequences

  ghost function Elems<T>(s: seq<T>): set<T> {
    set x | x in s
  }

  /** s without the members of gone, order kept. */
  ghost function FilterOut<T>(s: seq<T>, gone: set<T>): (t: seq<T>)
    ensures |t| <= |s|
  {
    if s == [] then []
    else
      FilterOut(s[..|s| - 1], gone) + if s[|s| - 1] in gone then [] else [s[|s| - 1]]
  }

  lemma {:induction false} FilterOutMembers<T>(s: seq<T>, gone: set<T>)
    ensures forall x :: x in FilterOut(s, gone) <==> x in s && x !in gone
  {
    if s != [] {
      FilterOutMembers(s[..|s| - 1], gone);
    }
  }

  lemma {:induction false} FilterOutMember<T>(s: seq<T>, gone: set<T>, x: T)
    ensures x in FilterOut(s, gone) <==> x in s && x !in gone
  {
    if s != [] {
      FilterOutMember(s[..|s| - 1], gone, x);
    }
  }

  lemma {:induction false} FilterOutConcat<T>(s: seq<T>, t: seq<T>, gone: set<T>)
    ensures FilterOut(s + t, gone) == FilterOut(s, gone) + FilterOut(t, gone)
  {
    if t == [] {
      assert s + t == s;
    } else {
      assert (s + t)[..|s + t| - 1] == s + t[..|t| - 1];
      FilterOutConcat(s, t[..|t| - 1], gone);
    }
  }

  lemma {:induction false} FilterOutNone<T>(s: seq<T>, gone: set<T>)
    requires forall x :: x in s ==> x !in gone
    ensures FilterOut(s, gone) == s
  {
    if s != [] {
      FilterOutNone(s[..|s| - 1], gone);
    }
  }

  lemma {:induction false} FilterOutTwice<T>(s: seq<T>, a: set<T>, b: set<T>)
    ensures FilterOut(FilterOut(s, a), b) == FilterOut(s, a + b)
  {
    if s != [] {
      var last := s[|s| - 1];
      FilterOutTwice(s[..|s| - 1], a, b);
      FilterOutConcat(FilterOut(s[..|s| - 1], a), if last in a then [] else [last], b);
    }
  }

  lemma {:induction false} FilterOutDistinct<T>(s: seq<T>, gone: set<T>)
    requires Distinct(s)
    ensures Distinct(FilterOut(s, gone))
  {
    if s != [] {
      FilterOutDistinct(s[..|s| - 1], gone);
      FilterOutMembers(s[..|s| - 1], gone);
    }
  }

  lemma WithoutIsFilterOut<T>(s: seq<T>, i: int)
    requires Distinct(s) && 0 <= i < |s|
    ensures Without(s, i) == FilterOut(s, {s[i]})
  {
    hide FilterOut;
    var x := s[i];
    assert s == (s[..i] + [x]) + s[i + 1..];
    OthersBefore(s, i);
    OthersAfter(s, i);
    hide Distinct;
    FilterOutMiddle(s[..i], x, s[i + 1..], {x});
  }

  lemma OthersBefore<T>(s: seq<T>, i: int)
    requires Distinct(s) && 0 <= i < |s|
    ensures s[i] !in s[..i]
  {
  }

  lemma OthersAfter<T>(s: seq<T>, i: int)
    requires Distinct(s) && 0 <= i < |s|
    ensures s[i] !in s[i + 1..]
  {
    var after := s[i + 1..];
    forall k | 0 <= k < |after| ensures after[k] != s[i] {
      assert after[k] == s[i + 1 + k];
    }
  }

  lemma FilterOutMiddle<T>(before: seq<T>, x: T, after: seq<T>, gone: set<T>)
    requires x in gone
    requires forall y :: y in before ==> y !in gone
    requires forall y :: y in after ==> y !in gone
    ensures FilterOut((before + [x]) + after, gone) == before + after
  {
    FilterOutConcat(before + [x], after, gone);
    assert FilterOut(before + [x], gone) == before by {
      FilterOutConcat(before, [x], gone);
      FilterOutNone(before, gone);
      assert [x][..0] == [];
    }
    FilterOutNone(after, gone);
  }

  lemma DistinctConcat<T>(u: seq<T>, v: seq<T>)
    requires Distinct(u) && Distinct(v) && forall x :: x in v ==> x !in u
    ensures Distinct(u + v)
  {
    forall i, j | 0 <= i < j < |u + v| ensures (u + v)[i] != (u + v)[j] {
      if i < |u| <= j {
        assert v[j - |u|] in v && u[i] in u;
      }
    }
  }

  lemma {:induction false} SumConcat<T>(w: map<T, int>, s: seq<T>, t: seq<T>)
    ensures Sum(w, s + t) == Sum(w, s) + Sum(w, t)
  {
    if t == [] {
      assert s + t == s;
    } else {
      assert (s + t)[..|s + t| - 1] == s + t[..|t| - 1];
      SumConcat(w, s, t[..|t| - 1]);
    }
  }

  lemma SumWithout<T>(w: map<T, int>, s: seq<T>, i: int)
    requires 0 <= i < |s|
    ensures Sum(w, s) == Sum(w, Without(s, i)) + Weight(w, s[i])
  {
    assert s == s[..i] + ([s[i]] + s[i + 1..]);
    SumConcat(w, s[..i], [s[i]] + s[i + 1..]);
    SumConcat(w, [s[i]], s[i + 1..]);
    SumConcat(w, s[..i], s[i + 1..]);
    assert [s[i]][..0] == [];
    assert Sum(w, [s[i]]) == Weight(w, s[i]);
  }

  /** Evicting a cell takes one element out of the live sequence and leaves it distinct. */
  lemma EvictIndexWithout<T>(r: Ring<T>, index: int) returns (i: int)
    requires Inv(r) && Distinct(Live(r)) && 0 <= index < |r.cells| && r.cells[index].Some?
    ensures 0 <= i < |Live(r)| && Live(r)[i] == r.cells[index].value
    ensures Inv(EvictIndex(r, index)) && Live(EvictIndex(r, index)) == Without(Live(r), i)
    ensures Distinct(Live(EvictIndex(r, index)))
    ensures forall x :: x in Live(EvictIndex(r, index)) <==> x in Live(r) && x != Live(r)[i]
  {
    hide FilterOut, Collect;
    EvictIndexLive(r, index);
    i := |Collect(r.cells, WindowStart(r), PositionOf(|r.cells|, r.writeHead, index))|;
    WithoutIsFilterOut(Live(r), i);
    FilterOutDistinct(Live(r), {Live(r)[i]});
    FilterOutMembers(Live(r), {Live(r)[i]});
  }

  /** Changing the weight of one element changes the sum by the difference. */
  lemma {:induction false} SumOneChanged<T>(w: map<T, int>, u: map<T, int>, s: seq<T>, x: T)
    requires Distinct(s) && x in s
    requires forall y :: y in s && y != x ==> Weight(w, y) == Weight(u, y)
    ensures Sum(u, s) == Sum(w, s) + Weight(u, x) - Weight(w, x)
  {
    var front, last := s[..|s| - 1], s[|s| - 1];
    if x == last {
      forall y | y in front ensures Weight(w, y) == Weight(u, y) {
        var i :| 0 <= i < |front| && front[i] == y;
        assert s[i] != last;
      }
      SumAgrees(w, u, front);
    } else {
      SumOneChanged(w, u, front, x);
    }
  }

  /** What stands in a cell is live. */
  lemma CellIsLive<T>(r: Ring<T>, index: int)
    requires Inv(r) && 0 <= index < |r.cells| && r.cells[index].Some?
    ensures r.cells[index].value in Live(r)
  {
    EmptyCell(r, index);
  }

  // ---------------------------------------------------------------- every run

  /** How far the byte counter is from the bytes that live. */
  ghost function Drift<T>(a: Account<T>, w: map<T, int>): int
    requires |a.ring.cells| > 0
  {
    a.bytes - Sum(w, Live(a.ring))
  }

  /** b is a after evicting exactly the elements v, each once, order of the rest kept. */
  ghost predicate Evicted<T>(a: Account<T>, b: Account<T>, w: map<T, int>, v: seq<T>)
    requires |a.ring.cells| > 0 && |b.ring.cells| > 0
  {
    && b.evicted == a.evicted + v
    && Distinct(v)
    && (forall x :: x in v ==> x in Live(a.ring))
    && Live(b.ring) == FilterOut(Live(a.ring), Elems(v))
    && |Live(a.ring)| == |Live(b.ring)| + |v|
    && Drift(b, w) == Drift(a, w)
  }

  lemma EvictedNothing<T>(a: Account<T>, w: map<T, int>)
    requires |a.ring.cells| > 0
    ensures Evicted(a, a, w, [])
  {
    FilterOutNone(Live(a.ring), Elems<T>([]));
  }

  lemma EvictedOne<T>(a: Account<T>, b: Account<T>, w: map<T, int>, i: int)
    requires |a.ring.cells| > 0 && |b.ring.cells| > 0
    requires Distinct(Live(a.ring)) && 0 <= i < |Live(a.ring)|
    requires Live(b.ring) == Without(Live(a.ring), i)
    requires b.bytes == a.bytes - Weight(w, Live(a.ring)[i]) && b.evicted == a.evicted + [Live(a.ring)[i]]
    ensures Evicted(a, b, w, [Live(a.ring)[i]])
  {
    WithoutIsFilterOut(Live(a.ring), i);
    SumWithout(w, Live(a.ring), i);
    assert Elems([Live(a.ring)[i]]) == {Live(a.ring)[i]};
  }

  lemma EvictedThen<T>(a: Account<T>, b: Account<T>, c: Account<T>, w: map<T, int>, u: seq<T>, v: seq<T>)
    requires |a.ring.cells| > 0 && |b.ring.cells| > 0 && |c.ring.cells| > 0
    requires Evicted(a, b, w, u) && Evicted(b, c, w, v)
    ensures Evicted(a, c, w, u + v)
  {
    hide FilterOut, Sum, Collect;
    FilterOutTwice(Live(a.ring), Elems(u), Elems(v));
    FilterOutMembers(Live(a.ring), Elems(u));
    forall x | x in v ensures x !in u && x in Live(a.ring) {
      assert x in Live(b.ring);
    }
    DistinctConcat(u, v);
    assert Elems(u + v) == Elems(u) + Elems(v);
    assert a.evicted + (u + v) == (a.evicted + u) + v;
  }

  /** One turn of the byte-budget loop. */
  lemma EnforceStep<T>(a: Account<T>, w: map<T, int>, incoming: int, maxBytes: int)
    requires Inv(a.ring) && a.bytes + incoming > maxBytes && a.ring.count > 0
    ensures Oldest(a.ring).Some? && Oldest(a.ring).value in Live(a.ring) && Inv(EvictOldest(a.ring))
    ensures var x := Oldest(a.ring).value;
            Enforce(a, w, incoming, maxBytes)
            == Enforce(Account(EvictOldest(a.ring), a.bytes - Weight(w, x), a.evicted + [x]), w, incoming, maxBytes)
    ensures forall y :: y in Live(EvictOldest(a.ring)) ==> y in Live(a.ring)
  {
    hide FilterOut, Collect, EvictOldest;
    var i := EvictOldestLive(a.ring);
  }

  lemma EnforceIdle<T>(a: Account<T>, w: map<T, int>, incoming: int, maxBytes: int)
    requires Inv(a.ring) && (a.bytes + incoming <= maxBytes || a.ring.count == 0)
    ensures Enforce(a, w, incoming, maxBytes) == a
  {
  }

  lemma {:induction false} EnforceEvicts<T>(a: Account<T>, w: map<T, int>, incoming: int, maxBytes: int) returns (v: seq<T>)
    requires Inv(a.ring) && Distinct(Live(a.ring))
    ensures Evicted(a, Enforce(a, w, incoming, maxBytes), w, v)
    decreases a.ring.count
  {
    hide Enforce, EvictOldest, Collect, FilterOut, Sum;
    if a.bytes + incoming > maxBytes && a.ring.count > 0 {
      EnforceStep(a, w, incoming, maxBytes);
      var i := EvictOldestLive(a.ring);
      var x := Live(a.ring)[i];
      var b := Account(EvictOldest(a.ring), a.bytes - Weight(w, x), a.evicted + [x]);
      EvictedOne(a, b, w, i);
      EvictedWithin(a, b, w, [x]);
      var u := EnforceEvicts(b, w, incoming, maxBytes);
      EvictedThen(a, b, Enforce(b, w, incoming, maxBytes), w, [x], u);
      v := [x] + u;
    } else {
      EnforceIdle(a, w, incoming, maxBytes);
      EvictedNothing(a, w);
      v := [];
    }
  }

  lemma MakeRoomEvicts<T>(a: Account<T>, w: map<T, int>) returns (v: seq<T>)
    requires Inv(a.ring) && Distinct(Live(a.ring))
    ensures var b := MakeRoom(a, w);
            && Inv(b.ring) && |b.ring.cells| == |a.ring.cells| && b.ring.writeHead == a.ring.writeHead
            && b.ring.cells[a.ring.writeHead % |a.ring.cells|].None?
            && Evicted(a, b, w, v) && |v| <= 1
            && (v != [] ==> Live(a.ring)[0] == v[0])
  {
    hide FilterOut;
    var n, head := |a.ring.cells|, a.ring.writeHead;
    var index := head % n;
    if a.ring.cells[index].Some? {
      EvictIndexLive(a.ring, index);
      var p := PositionOf(n, head, index);
      ModShift(head, n);
      ModUnique(head - n, n, p, head - n);
      EvictedOne(a, MakeRoom(a, w), w, 0);
      v := [a.ring.cells[index].value];
    } else {
      EvictedNothing(a, w);
      v := [];
    }
  }

  /** push up to the store: what was evicted, and that the cell at the write head is free. */
  lemma FitEvicts<T>(a: Account<T>, w: map<T, int>, bytes: int, maxBytes: int) returns (v: seq<T>)
    requires Inv(a.ring) && Distinct(Live(a.ring))
    ensures var fit := Enforce(MakeRoom(a, w), w, bytes, maxBytes);
            Evicted(a, fit, w, v) && fit.ring.cells[fit.ring.writeHead % |fit.ring.cells|].None?
  {
    hide Enforce;
    var u := MakeRoomEvicts(a, w);
    var room := MakeRoom(a, w);
    FilterOutDistinct(Live(a.ring), Elems(u));
    var t := EnforceEvicts(room, w, bytes, maxBytes);
    EvictedThen(a, room, Enforce(room, w, bytes, maxBytes), w, u, t);
    v := u + t;
  }

  lemma EvictedWithin<T>(a: Account<T>, b: Account<T>, w: map<T, int>, v: seq<T>)
    requires |a.ring.cells| > 0 && |b.ring.cells| > 0 && Distinct(Live(a.ring)) && Evicted(a, b, w, v)
    ensures Distinct(Live(b.ring)) && forall y :: y in Live(b.ring) ==> y in Live(a.ring)
  {
    hide Collect;
    FilterOutDistinct(Live(a.ring), Elems(v));
    forall y | y in Live(b.ring) ensures y in Live(a.ring) {
      FilterOutMember(Live(a.ring), Elems(v), y);
    }
  }

  lemma {:induction false} SumAgrees<T>(w: map<T, int>, u: map<T, int>, s: seq<T>)
    requires forall y :: y in s ==> Weight(w, y) == Weight(u, y)
    ensures Sum(w, s) == Sum(u, s)
  {
    if s != [] {
      SumAgrees(w, u, s[..|s| - 1]);
    }
  }

  lemma PlaceDrift<T>(a: Account<T>, w: map<T, int>, x: T, bytes: int)
    requires Inv(a.ring) && a.ring.cells[a.ring.writeHead % |a.ring.cells|].None?
    requires Distinct(Live(a.ring)) && x !in Live(a.ring)
    ensures var b := Account(Place(a.ring, x), a.bytes + bytes, a.evicted);
            && Inv(b.ring) && Live(b.ring) == Live(a.ring) + [x] && Distinct(Live(b.ring))
            && Drift(b, w[x := bytes]) == Drift(a, w)
  {
    hide FilterOut, Collect;
    var w' := w[x := bytes];
    PlaceLive(a.ring, x);
    SumConcat(w', Live(a.ring), [x]);
    SumAgrees(w, w', Live(a.ring));
    assert [x][..0] == [];
    assert Sum(w', [x]) == Weight(w', x);
    DistinctConcat(Live(a.ring), [x]);
  }

  /**
    push, in every run: the stored event is last, what it evicted is gone and nothing else is,
    the byte counter keeps its distance from the live bytes, and the budget holds unless the
    new event stands alone.
  */
  lemma PushEveryRun<T>(a: Account<T>, w: map<T, int>, x: T, bytes: int, maxBytes: int) returns (v: seq<T>)
    requires Inv(a.ring) && Distinct(Live(a.ring)) && x !in Live(a.ring)
    ensures var b := Push(a, w, x, bytes, maxBytes);
            && Inv(b.ring) && Distinct(Live(b.ring))
            && b.evicted == a.evicted + v && Distinct(v) && (forall y :: y in v ==> y in Live(a.ring))
            && Live(b.ring) == FilterOut(Live(a.ring), Elems(v)) + [x]
            && |Live(a.ring)| + 1 == |Live(b.ring)| + |v|
            && Drift(b, w[x := bytes]) == Drift(a, w)
            && (b.bytes <= maxBytes || Live(b.ring) == [x])
  {
    hide FilterOut, Collect, Enforce;
    v := FitEvicts(a, w, bytes, maxBytes);
    var fit := Enforce(MakeRoom(a, w), w, bytes, maxBytes);
    EvictedWithin(a, fit, w, v);
    PlaceDrift(fit, w, x, bytes);
  }

  lemma {:induction false} CollectMember<T>(cells: seq<Option<T>>, lo: int, hi: int, i: int) returns (p: int)
    requires |cells| > 0 && 0 <= i < |Collect(cells, lo, hi)|
    ensures lo <= p < hi && cells[p % |cells|] == Some(Collect(cells, lo, hi)[i])
    decreases hi - lo
  {
    if i < |Collect(cells, lo, hi - 1)| {
      p := CollectMember(cells, lo, hi - 1, i);
    } else {
      p := hi - 1;
    }
  }

  lemma ReleaseTurn<T>(r: Ring<T>, gone: set<T>, cursor: int, hi: int)
    requires |r.cells| > 0
    ensures cursor < hi ==> Release(r, gone, cursor, hi) == Release(ReleaseAt(r, gone, cursor), gone, cursor + 1, hi)
    ensures cursor >= hi ==> Release(r, gone, cursor, hi) == r
  {
  }

  lemma {:induction false} ReleaseSteps<T>(r: Ring<T>, gone: set<T>, start: int, cursor: int, hi: int)
    requires Inv(r) && Distinct(Live(r)) && start <= cursor <= hi
    requires forall p {:trigger r.cells[p % |r.cells|]} :: start <= p < cursor && r.cells[p % |r.cells|].Some? ==>
               r.cells[p % |r.cells|].value !in gone
    ensures var r' := Release(r, gone, cursor, hi);
            && Inv(r') && |r'.cells| == |r.cells| && r'.writeHead == r.writeHead && r.readHead <= r'.readHead
            && FilterOut(Live(r'), gone) == FilterOut(Live(r), gone)
            && forall p {:trigger r'.cells[p % |r.cells|]} :: start <= p < hi && r'.cells[p % |r.cells|].Some? ==>
                 r'.cells[p % |r.cells|].value !in gone
    decreases hi - cursor
  {
    hide FilterOut, Collect;
    if cursor < hi {
      var n := |r.cells|;
      var index := cursor % n;
      var s := ReleaseAt(r, gone, cursor);
      if r.cells[index].Some? && r.cells[index].value in gone {
        EvictIndexLive(r, index);
        var x := r.cells[index].value;
        var i := |Collect(r.cells, WindowStart(r), PositionOf(n, r.writeHead, index))|;
        assert Live(r)[i] == x && Live(s) == Without(Live(r), i);
        WithoutIsFilterOut(Live(r), i);
        FilterOutDistinct(Live(r), {x});
        FilterOutTwice(Live(r), {x}, gone);
        assert {x} + gone == gone;
      }
      ReleaseSteps(s, gone, start, cursor + 1, hi);
    }
  }

  /** Releasing takes exactly the released events out of the live sequence, wherever they stand. */
  lemma ReleaseRemoves<T>(r: Ring<T>, gone: set<T>)
    requires Inv(r) && Distinct(Live(r))
    ensures var r' := Release(r, gone, r.readHead, r.writeHead);
            Inv(r') && Live(r') == FilterOut(Live(r), gone) && Distinct(Live(r'))
  {
    hide FilterOut, Collect, Release;
    var r' := Release(r, gone, r.readHead, r.writeHead);
    ReleaseSteps(r, gone, r.readHead, r.readHead, r.writeHead);
    forall x | x in Live(r') ensures x !in gone {
      var i :| 0 <= i < |Live(r')| && Live(r')[i] == x;
      var p := CollectMember(r'.cells, WindowStart(r'), r'.writeHead, i);
    }
    FilterOutNone(Live(r'), gone);
    FilterOutDistinct(Live(r), gone);
  }

  // ---------------------------------------------------------------- FIFO

  lemma {:induction false} CollectFull<T>(cells: seq<Option<T>>, lo: int, hi: int)
    requires |cells| > 0 && lo <= hi
    requires forall p {:trigger cells[p % |cells|]} :: lo <= p < hi ==> cells[p % |cells|].Some?
    ensures |Collect(cells, lo, hi)| == hi - lo
    ensures forall k :: 0 <= k < hi - lo ==> Some(Collect(cells, lo, hi)[k]) == cells[(lo + k) % |cells|]
    decreases hi - lo
  {
    if lo < hi {
      CollectFull(cells, lo, hi - 1);
      assert cells[(hi - 1) % |cells|].Some?;
    }
  }

  lemma EvictOldestFifo<T>(r: Ring<T>)
    requires Contiguous(r) && r.count > 0
    ensures Contiguous(EvictOldest(r)) && Oldest(r) == Some(Live(r)[0]) && Live(EvictOldest(r)) == Live(r)[1..]
  {
    var n, head, w := |r.cells|, r.readHead, r.writeHead;
    CollectHoles(r.cells, head, w);
    assert head < w && r.cells[head % n].Some?;
    EvictIndexLive(r, head % n);
    ModUnique(w - n, n, head, PositionOf(n, w, head % n));
    assert Collect(r.cells, head, head) == [];
    var r' := EvictOldest(r);
    forall p {:trigger r'.cells[p % n]} | r'.readHead <= p < w ensures r'.cells[p % n].Some? {
      assert r.cells[p % n].Some?;
      if p % n == head % n { ModUnique(w - n, n, head, p); }
    }
  }

  /** How many of the oldest elements the byte budget costs. */
  function Overdue<T>(w: map<T, int>, q: seq<T>, bytes: int, incoming: int, maxBytes: int): (k: nat)
    ensures k <= |q|
  {
    if bytes + incoming <= maxBytes || q == [] then 0
    else 1 + Overdue(w, q[1..], bytes - Weight(w, q[0]), incoming, maxBytes)
  }

  /** The drop count is the least one that meets the budget, or everything. */
  lemma {:induction false} OverdueIsLeast<T>(w: map<T, int>, q: seq<T>, bytes: int, incoming: int, maxBytes: int)
    ensures var k := Overdue(w, q, bytes, incoming, maxBytes);
            && (k == |q| || bytes - Sum(w, q[..k]) + incoming <= maxBytes)
            && forall j :: 0 <= j < k ==> bytes - Sum(w, q[..j]) + incoming > maxBytes
  {
    if bytes + incoming > maxBytes && q != [] {
      OverdueIsLeast(w, q[1..], bytes - Weight(w, q[0]), incoming, maxBytes);
      var k := Overdue(w, q[1..], bytes - Weight(w, q[0]), incoming, maxBytes);
      assert [q[0]][..0] == [];
      forall j | 1 <= j <= k + 1 ensures Sum(w, q[..j]) == Weight(w, q[0]) + Sum(w, q[1..][..j - 1]) {
        assert q[..j] == [q[0]] + q[1..][..j - 1];
        SumConcat(w, [q[0]], q[1..][..j - 1]);
      }
    }
  }

  /** The first-in first-out queue the ring is meant to be. */
  function QueuePush<T>(q: seq<T>, bytes: int, w: map<T, int>, x: T, incoming: int, capacity: nat, maxBytes: int): (seq<T>, seq<T>) {
    var full := if |q| == capacity && q != [] then 1 else 0;
    var left := bytes - if full == 1 then Weight(w, q[0]) else 0;
    var k := full + Overdue(w, q[full..], left, incoming, maxBytes);
    (q[k..] + [x], q[..k])
  }

  lemma DropMore<T>(q: seq<T>, log: seq<T>, j: nat, k: nat)
    requires j + k <= |q|
    ensures q[j..][k..] == q[j + k..]
    ensures (log + q[..j]) + q[j..][..k] == log + q[..j + k]
  {
    assert q[..j] + q[j..][..k] == q[..j + k];
  }

  lemma PlaceContiguous<T>(r: Ring<T>, x: T)
    requires Contiguous(r) && r.cells[r.writeHead % |r.cells|].None?
    ensures Contiguous(Place(r, x)) && Live(Place(r, x)) == Live(r) + [x]
  {
    var n, r' := |r.cells|, Place(r, x);
    PlaceLive(r, x);
    ModShift(r.writeHead, n);
    assert r.writeHead - r.readHead != n;
    forall p {:trigger r'.cells[p % n]} | r'.readHead <= p < r'.writeHead ensures r'.cells[p % n].Some? {
      if p < r.writeHead { assert r.cells[p % n].Some?; }
    }
  }

  lemma {:induction false} EnforceFifo<T>(a: Account<T>, w: map<T, int>, incoming: int, maxBytes: int)
    requires Contiguous(a.ring)
    ensures var b := Enforce(a, w, incoming, maxBytes);
            var k := Overdue(w, Live(a.ring), a.bytes, incoming, maxBytes);
            Contiguous(b.ring) && Live(b.ring) == Live(a.ring)[k..] && b.evicted == a.evicted + Live(a.ring)[..k]
    decreases a.ring.count
  {
    hide Enforce, EvictOldest, Collect, FilterOut, Overdue;
    var q := Live(a.ring);
    if a.bytes + incoming > maxBytes && a.ring.count > 0 {
      EnforceStep(a, w, incoming, maxBytes);
      EvictOldestInv(a.ring);
      EvictOldestFifo(a.ring);
      var b := Account(EvictOldest(a.ring), a.bytes - Weight(w, q[0]), a.evicted + [q[0]]);
      EnforceFifo(b, w, incoming, maxBytes);
      OverdueStep(w, q, a.bytes, incoming, maxBytes);
      DropMore(q, a.evicted, 1, Overdue(w, q[1..], b.bytes, incoming, maxBytes));
      assert q[..1] == [q[0]];
    } else {
      EnforceIdle(a, w, incoming, maxBytes);
      OverdueIdle(w, q, a.bytes, incoming, maxBytes);
    }
  }

  lemma OverdueIdle<T>(w: map<T, int>, q: seq<T>, bytes: int, incoming: int, maxBytes: int)
    requires bytes + incoming <= maxBytes || q == []
    ensures Overdue(w, q, bytes, incoming, maxBytes) == 0
  {
  }

  lemma OverdueStep<T>(w: map<T, int>, q: seq<T>, bytes: int, incoming: int, maxBytes: int)
    requires bytes + incoming > maxBytes && q != []
    ensures Overdue(w, q, bytes, incoming, maxBytes) == 1 + Overdue(w, q[1..], bytes - Weight(w, q[0]), incoming, maxBytes)
  {
  }

  lemma MakeRoomFifo<T>(a: Account<T>, w: map<T, int>)
    requires Contiguous(a.ring)
    ensures var b, q := MakeRoom(a, w), Live(a.ring);
            var k := if |q| == |a.ring.cells| then 1 else 0;
            && Contiguous(b.ring) && Live(b.ring) == q[k..] && b.evicted == a.evicted + q[..k]
            && b.bytes == a.bytes - (if k == 1 then Weight(w, q[0]) else 0)
            && b.ring.cells[a.ring.writeHead % |a.ring.cells|].None?
            && |b.ring.cells| == |a.ring.cells| && b.ring.writeHead == a.ring.writeHead
  {
    hide Collect;
    var r, n := a.ring, |a.ring.cells|;
    CollectFull(r.cells, r.readHead, r.writeHead);
    ModShift(r.writeHead, n);
    if r.writeHead - r.readHead == n {
      assert r.cells[r.readHead % n].Some?;
      EvictOldestFifo(r);
      assert EvictOldest(r) == EvictIndex(r, r.readHead % n);
    } else {
      assert r.cells[(r.writeHead - n) % n].None?;
    }
  }

  lemma FitFifo<T>(a: Account<T>, w: map<T, int>, bytes: int, maxBytes: int) returns (full: int, k: int)
    requires Contiguous(a.ring)
    ensures var q, fit := Live(a.ring), Enforce(MakeRoom(a, w), w, bytes, maxBytes);
            && full == (if |q| == |a.ring.cells| then 1 else 0)
            && full <= |q| && k == Overdue(w, q[full..], a.bytes - (if full == 1 then Weight(w, q[0]) else 0), bytes, maxBytes)
            && Contiguous(fit.ring) && Live(fit.ring) == q[full + k..] && fit.evicted == a.evicted + q[..full + k]
            && fit.ring.cells[fit.ring.writeHead % |fit.ring.cells|].None?
  {
    hide Collect, Enforce, Overdue;
    var q, room := Live(a.ring), MakeRoom(a, w);
    MakeRoomFifo(a, w);
    full := if |q| == |a.ring.cells| then 1 else 0;
    k := Overdue(w, q[full..], room.bytes, bytes, maxBytes);
    EnforceFifo(room, w, bytes, maxBytes);
    DropMore(q, a.evicted, full, k);
  }

  /** Without interior releases push is the queue's push, evictions included. */
  lemma PushFifo<T>(a: Account<T>, w: map<T, int>, x: T, bytes: int, maxBytes: int)
    requires Contiguous(a.ring)
    ensures var b := Push(a, w, x, bytes, maxBytes);
            var (items, dropped) := QueuePush(Live(a.ring), a.bytes, w, x, bytes, |a.ring.cells|, maxBytes);
            Contiguous(b.ring) && Live(b.ring) == items && b.evicted == a.evicted + dropped
  {
    hide FilterOut, Enforce, Overdue;
    var b, fit := Push(a, w, x, bytes, maxBytes), Enforce(MakeRoom(a, w), w, bytes, maxBytes);
    assert b.ring == Place(fit.ring, x) && b.evicted == fit.evicted;
    var full, k := FitFifo(a, w, bytes, maxBytes);
    assert QueuePush(Live(a.ring), a.bytes, w, x, bytes, |a.ring.cells|, maxBytes) == (Live(fit.ring) + [x], Live(a.ring)[..full + k]);
    assert Contiguous(b.ring) && Live(b.ring) == Live(fit.ring) + [x] by { PlaceContiguous(fit.ring, x); }
  }
}
