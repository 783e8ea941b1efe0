/** What cloneAndLimit guarantees for every heap: how much it does, what it calls circular, and what it keeps. */
module CloneTheorems {
  import opened Clones

  // ---------------------------------------------------------------- the amount of work

  /** How many loop turns a budget can still pay for: each charges at least 4 and needs a positive balance. */
  function Turns(budget: int): (n: nat) {
    if budget <= 0 then 0 else (budget + 3) / 4
  }

  lemma TurnPaid(budget: int, overhead: int)
    requires budget > 0 && overhead >= ENTRY_OVERHEAD
    ensures Turns(budget - overhead) + 1 <= Turns(budget)
  {
  }

  lemma TurnsMonotone(a: int, b: int)
    requires a <= b
    ensures Turns(a) <= Turns(b)
  {
  }

  lemma LeafCost(v: Value, lim: Limits, budget: int)
    requires !v.Object?
    ensures Leaf(v, lim, budget).1 >= 0
  {
  }

  /** A call makes at most two calls below it for every loop turn its budget paid for, plus itself. */
  lemma {:induction false} CallsBounded(h: Heap, v: Value, lim: Limits, depth: nat, path: seq<Ref>, budget: int)
    ensures var c := Clone(h, v, lim, depth, path, budget);
            c.left <= budget && |c.trace| <= 1 + 2 * (Turns(budget) - Turns(c.left))
    decreases Levels(lim, depth), 1
  {
    hide Assemble, Summary, Leaf, Turns;
    if budget > 0 && depth <= lim.maxDepth {
      if !v.Object? {
        LeafCost(v, lim, budget);
        assert CloneBody(h, v, lim, depth, path, budget).left == budget - Leaf(v, lim, budget).1;
        TurnsMonotone(budget - Leaf(v, lim, budget).1, budget);
      } else if IsContainer(NodeAt(h, v.ref)) && v.ref !in path {
        SlotCallsBounded(h, Slots(NodeAt(h, v.ref), lim), lim, depth + 1, path + [v.ref], budget);
      }
    }
  }

  lemma {:induction false} SlotCallsBounded(h: Heap, slots: seq<Slot>, lim: Limits, depth: nat, path: seq<Ref>, budget: int)
    requires forall i :: 0 <= i < |slots| ==> slots[i].overhead >= ENTRY_OVERHEAD
    ensures var c := CloneSlots(h, slots, lim, depth, path, budget);
            c.left <= budget && |c.trace| <= 2 * (Turns(budget) - Turns(c.left))
    decreases Levels(lim, depth), 3, |slots|
  {
    hide Clone, Turns;
    if slots != [] && budget > 0 {
      var s := slots[0];
      var paid := budget - s.overhead;
      TurnPaid(budget, s.overhead);
      var first := CloneSlot(h, s, lim, depth, path, paid);
      if s.One? {
        CallsBounded(h, s.value, lim, depth, path, paid);
        TurnsMonotone(first.left, paid);
      } else {
        var key := Clone(h, s.key, lim, depth, path, paid);
        CallsBounded(h, s.key, lim, depth, path, paid);
        CallsBounded(h, s.value, lim, depth, path, key.left);
      }
      SlotCallsBounded(h, slots[1..], lim, depth, path, first.left);
    }
  }

  /** Whatever the heap, cloneAndLimit makes at most 1 + 2 * ceil(maxPayloadSize / 4) recursive calls. */
  lemma WorkIsBounded(h: Heap, v: Value, lim: Limits)
    ensures |CloneAndLimit(h, v, lim).trace| <= 1 + 2 * ((lim.maxPayloadSize + 3) / 4)
  {
    hide Clone;
    CallsBounded(h, v, lim, 0, [], lim.maxPayloadSize);
  }

  // ---------------------------------------------------------------- what each call saw

  /** n holds v as an element, entry key, entry value or property value. */
  predicate Holds(n: Node, v: Value) {
    match n
    case Mapping(entries) => exists i :: 0 <= i < |entries| && (entries[i].0 == v || entries[i].1 == v)
    case Collection(values) => v in values
    case List(items) => v in items
    case Record(props) => exists i :: 0 <= i < |props| && props[i].1 == v
    case _ => false
  }

  /** The element of path + [v] at position i. */
  function Step(path: seq<Ref>, v: Value, i: nat): Value
    requires i <= |path|
  {
    if i < |path| then Object(path[i]) else v
  }

  /** From position `from` on, each container of the path holds the next one, and the last holds v. */
  ghost predicate Linked(h: Heap, path: seq<Ref>, v: Value, from: nat) {
    forall i :: from <= i < |path| ==> Holds(NodeAt(h, path[i]), Step(path, v, i + 1))
  }

  /** A visit below a call at this depth and path: nested properly, and reporting its own call's result. */
  ghost predicate Explained(h: Heap, lim: Limits, depth: nat, path: seq<Ref>, w: Visit) {
    && path <= w.path
    && w.depth == depth + (|w.path| - |path|)
    && Linked(h, w.path, w.value, |path|)
    && w.out == Clone(h, w.value, lim, w.depth, w.path, w.budget).out
  }

  lemma SlotHeld(n: Node, lim: Limits, i: nat)
    requires IsContainer(n) && i < |Slots(n, lim)|
    ensures Holds(n, Slots(n, lim)[i].value)
    ensures Slots(n, lim)[i].Two? ==> Holds(n, Slots(n, lim)[i].key)
  {
    match n
    case Mapping(entries) => assert Slots(n, lim)[i] == Two(ENTRY_OVERHEAD, entries[i].0, entries[i].1);
    case Collection(values) => assert Slots(n, lim)[i] == One(ENTRY_OVERHEAD, values[i]);
    case List(items) => assert Slots(n, lim)[i] == One(ENTRY_OVERHEAD, items[i]);
    case Record(props) => assert Slots(n, lim)[i] == One(ENTRY_OVERHEAD + |props[i].0|, props[i].1);
  }

  predicate InSlots(slots: seq<Slot>, v: Value) {
    exists i :: 0 <= i < |slots| && (slots[i].value == v || (slots[i].Two? && slots[i].key == v))
  }

  lemma SlotsHeld(n: Node, lim: Limits, v: Value)
    requires IsContainer(n) && InSlots(Slots(n, lim), v)
    ensures Holds(n, v)
  {
    hide Slots, Holds;
    var slots := Slots(n, lim);
    var i :| 0 <= i < |slots| && (slots[i].value == v || (slots[i].Two? && slots[i].key == v));
    SlotHeld(n, lim, i);
  }

  lemma {:induction false} VisitExplained(h: Heap, v: Value, lim: Limits, depth: nat, path: seq<Ref>, budget: int, w: Visit)
    requires w in Clone(h, v, lim, depth, path, budget).trace
    ensures |path| <= |w.path|
    ensures Explained(h, lim, depth, path, w) && Step(w.path, w.value, |path|) == v
    ensures w.depth <= depth || w.depth <= lim.maxDepth + 1
    decreases Levels(lim, depth), 1
  {
    hide CloneSlots, Assemble, Summary, Leaf, Slots, Explained, Holds, InSlots;
    var body := CloneBody(h, v, lim, depth, path, budget);
    var own := Visit(v, depth, path, budget, body.out);
    if w == own {
      OwnVisit(h, v, lim, depth, path, budget);
    } else {
      assert w in body.trace;
      var slots := Slots(NodeAt(h, v.ref), lim);
      SlotVisitExplained(h, slots, lim, depth + 1, path + [v.ref], budget, w);
      SlotsHeld(NodeAt(h, v.ref), lim, Step(w.path, w.value, |path| + 1));
      StepInto(h, v.ref, lim, depth, path, w);
    }
  }

  lemma OwnVisit(h: Heap, v: Value, lim: Limits, depth: nat, path: seq<Ref>, budget: int)
    ensures var w := Visit(v, depth, path, budget, CloneBody(h, v, lim, depth, path, budget).out);
            Explained(h, lim, depth, path, w) && Step(w.path, w.value, |path|) == v
  {
    hide CloneBody;
  }

  lemma StepInto(h: Heap, r: Ref, lim: Limits, depth: nat, path: seq<Ref>, w: Visit)
    requires Explained(h, lim, depth + 1, path + [r], w) && Holds(NodeAt(h, r), Step(w.path, w.value, |path| + 1))
    ensures Explained(h, lim, depth, path, w) && Step(w.path, w.value, |path|) == Object(r)
  {
    hide Clone, Holds;
    var below := path + [r];
    assert below <= w.path && below[|path|] == r && below[..|path|] == path;
  }

  lemma {:induction false} SlotVisitExplained(h: Heap, slots: seq<Slot>, lim: Limits, depth: nat, path: seq<Ref>, budget: int, w: Visit)
    requires w in CloneSlots(h, slots, lim, depth, path, budget).trace
    ensures |path| <= |w.path|
    ensures Explained(h, lim, depth, path, w) && InSlots(slots, Step(w.path, w.value, |path|))
    ensures w.depth <= depth || w.depth <= lim.maxDepth + 1
    decreases Levels(lim, depth), 3, |slots|
  {
    hide Clone, Explained, Step;
    var s := slots[0];
    var paid := budget - s.overhead;
    var first := CloneSlot(h, s, lim, depth, path, paid);
    if w in first.trace {
      if s.One? || w in Clone(h, s.key, lim, depth, path, paid).trace {
        VisitExplained(h, if s.One? then s.value else s.key, lim, depth, path, paid, w);
      } else {
        VisitExplained(h, s.value, lim, depth, path, Clone(h, s.key, lim, depth, path, paid).left, w);
      }
      assert InSlots(slots, Step(w.path, w.value, |path|));
    } else {
      SlotVisitExplained(h, slots[1..], lim, depth, path, first.left, w);
      var x := Step(w.path, w.value, |path|);
      var i :| 0 <= i < |slots[1..]| && (slots[1..][i].value == x || (slots[1..][i].Two? && slots[1..][i].key == x));
      assert slots[i + 1] == slots[1..][i];
    }
  }

  /** No call is ever nested deeper than maxDepth + 1, and each was reached along real edges from the root value. */
  lemma NestingIsBounded(h: Heap, v: Value, lim: Limits, w: Visit)
    requires w in CloneAndLimit(h, v, lim).trace
    ensures w.depth <= lim.maxDepth + 1 && w.depth == |w.path|
    ensures Step(w.path, w.value, 0) == v && Linked(h, w.path, w.value, 0)
  {
    hide Clone;
    VisitExplained(h, v, lim, 0, [], lim.maxPayloadSize, w);
  }

  // ---------------------------------------------------------------- circularity

  /** A call that got past the budget and depth checks with a container in hand. */
  predicate Looked(h: Heap, lim: Limits, w: Visit) {
    w.budget > 0 && w.depth <= lim.maxDepth && w.value.Object? && IsContainer(NodeAt(h, w.value.ref))
  }

  /**
    '[Circular]' is emitted for exactly those containers that are on the path from the root to
    themselves; then the heap has a cycle of edges through that container, the tail of the path.
  */
  lemma CircularExactly(h: Heap, v: Value, lim: Limits, w: Visit)
    requires w in CloneAndLimit(h, v, lim).trace && Looked(h, lim, w)
    ensures w.out == OText("[Circular]") <==> w.value.ref in w.path
    ensures w.out == OText("[Circular]") ==>
              exists k :: 0 <= k < |w.path| && w.path[k] == w.value.ref && Linked(h, w.path, w.value, k)
  {
    hide CloneSlots, Linked;
    VisitExplained(h, v, lim, 0, [], lim.maxPayloadSize, w);
    assert w.out == CloneBody(h, w.value, lim, w.depth, w.path, w.budget).out;
    if w.value.ref in w.path {
      var k :| 0 <= k < |w.path| && w.path[k] == w.value.ref;
      LinkedLater(h, w.path, w.value, k);
    }
  }

  lemma LinkedLater(h: Heap, path: seq<Ref>, v: Value, k: nat)
    requires Linked(h, path, v, 0)
    ensures Linked(h, path, v, k)
  {
  }

  /** An acyclic heap: some rank falls along every edge. */
  ghost predicate Ranked(h: Heap, rank: Ref -> nat) {
    forall r, c: Ref :: r in h && Holds(h[r], Object(c)) ==> rank(c) < rank(r)
  }

  lemma {:induction false} RankFalls(h: Heap, rank: Ref -> nat, path: seq<Ref>, v: Value, k: nat)
    requires Ranked(h, rank) && Linked(h, path, v, 0) && v.Object? && k < |path|
    ensures rank(v.ref) < rank(path[k])
    decreases |path| - k
  {
    assert Holds(NodeAt(h, path[k]), Step(path, v, k + 1));
    if k + 1 < |path| {
      RankFalls(h, rank, path, v, k + 1);
    }
  }

  /** Without cycles nothing is ever called circular, however much is shared. */
  lemma SharedIsNotCircular(h: Heap, rank: Ref -> nat, v: Value, lim: Limits, w: Visit)
    requires Ranked(h, rank) && w in CloneAndLimit(h, v, lim).trace && Looked(h, lim, w)
    ensures w.out != OText("[Circular]")
  {
    hide Clone, Linked;
    CircularExactly(h, v, lim, w);
    NestingIsBounded(h, v, lim, w);
    if w.value.ref in w.path {
      var k :| 0 <= k < |w.path| && w.path[k] == w.value.ref;
      RankFalls(h, rank, w.path, w.value, k);
    }
  }

  // ---------------------------------------------------------------- honest truncation

  /**
    A turn is taken if and only if the turns before it were and left some budget; it then copies the
    slot at its own place with exactly what they left, less its own charge.
  */
  lemma {:induction false} CopiesAlign(h: Heap, slots: seq<Slot>, lim: Limits, depth: nat, path: seq<Ref>, budget: int, i: nat)
    requires i < |slots|
    ensures var outs := CloneSlots(h, slots, lim, depth, path, budget).outs;
            var before := CloneSlots(h, slots[..i], lim, depth, path, budget);
            && (i < |outs| <==> !before.stopped && before.left > 0)
            && (i < |outs| ==> outs[i] == CloneSlot(h, slots[i], lim, depth, path, before.left - slots[i].overhead).out)
    decreases |slots|
  {
    hide CloneSlot;
    if i > 0 && budget > 0 {
      var first := CloneSlot(h, slots[0], lim, depth, path, budget - slots[0].overhead);
      CopiesAlign(h, slots[1..], lim, depth, path, first.left, i - 1);
      assert slots[..i][1..] == slots[1..][..i - 1];
    }
  }

  /**
    An array comes back as a plain array if and only if every item was copied; otherwise the
    record says how long it was and holds fewer items.
  */
  lemma ArrayVerdict(h: Heap, v: Value, lim: Limits, depth: nat, path: seq<Ref>, budget: int)
    requires budget > 0 && depth <= lim.maxDepth && v.Object? && v.ref !in path && NodeAt(h, v.ref).List?
    ensures var items := NodeAt(h, v.ref).items;
            var outs := CloneSlots(h, Slots(NodeAt(h, v.ref), lim), lim, depth + 1, path + [v.ref], budget).outs;
            && |outs| <= |items|
            && Clone(h, v, lim, depth, path, budget).out ==
                 if |outs| == |items| then OList(outs)
                 else ORecord([("_items", OList(outs)), ("_truncated", OBool(true)), ("_originalLength", Count(|items|))])
  {
    hide CloneSlots;
  }

  // ---------------------------------------------------------------- JSON trees

  predicate DistinctKeys(props: seq<(string, Out)>) {
    forall i, j :: 0 <= i < j < |props| ==> props[i].0 != props[j].0
  }

  /** v, read in the heap, is the JSON tree t; subtrees may be shared. */
  ghost predicate Represents(h: Heap, v: Value, t: Out)
    decreases t
  {
    match t
    case ONull => v.Null?
    case OBool(b) => v == Bool(b)
    case ONum(n) => n.Finite? && v == Number(n)
    case OText(s) => v == Text(s)
    case OList(items) =>
      && v.Object? && NodeAt(h, v.ref).List?
      && var node := NodeAt(h, v.ref).items;
      && |node| == |items| && forall i :: 0 <= i < |items| ==> Represents(h, node[i], items[i])
    case ORecord(props) =>
      && v.Object? && NodeAt(h, v.ref).Record?
      && var node := NodeAt(h, v.ref).props;
      && |node| == |props| && DistinctKeys(props)
      && forall i :: 0 <= i < |props| ==> node[i].0 == props[i].0 && Represents(h, node[i].1, props[i].1)
  }

  /** t, placed at this depth, exceeds no depth, width or string limit. */
  predicate Fits(t: Out, lim: Limits, depth: nat)
    decreases t
  {
    && depth <= lim.maxDepth
    && match t
       case OText(s) => |s| <= lim.maxStringLength
       case OList(items) => |items| <= lim.maxArrayItems && forall i :: 0 <= i < |items| ==> Fits(items[i], lim, depth + 1)
       case ORecord(props) => |props| <= lim.maxObjectKeys && forall i :: 0 <= i < |props| ==> Fits(props[i].1, lim, depth + 1)
       case _ => true
  }

  function Sum(costs: seq<nat>): nat {
    if costs == [] then 0 else costs[0] + Sum(costs[1..])
  }

  /** 8 for a primitive, a string's length, 4 for an entry plus its key. */
  function Cost(t: Out): nat {
    match t
    case OText(s) => |s|
    case OList(items) => Sum(seq(|items|, i requires 0 <= i < |items| => 4 + Cost(items[i])))
    case ORecord(props) => Sum(seq(|props|, i requires 0 <= i < |props| => 4 + |props[i].0| + Cost(props[i].1)))
    case _ => 8
  }

  function WithoutProto(props: seq<(string, Out)>): seq<(string, Out)> {
    if props == [] then []
    else
      var n := |props| - 1;
      WithoutProto(props[..n]) + if props[n].0 == PROTO then [] else [props[n]]
  }

  /** t without any property named __proto__. */
  function Stored(t: Out): Out {
    match t
    case OList(items) => OList(seq(|items|, i requires 0 <= i < |items| => Stored(items[i])))
    case ORecord(props) => ORecord(WithoutProto(seq(|props|, i requires 0 <= i < |props| => (props[i].0, Stored(props[i].1)))))
    case _ => t
  }

  predicate HasProto(t: Out) {
    match t
    case OList(items) => exists i :: 0 <= i < |items| && HasProto(items[i])
    case ORecord(props) => exists i :: 0 <= i < |props| && (props[i].0 == PROTO || HasProto(props[i].1))
    case _ => false
  }

  lemma {:induction false} RepresentsOne(h: Heap, v: Value, s: Out, t: Out)
    requires Represents(h, v, s) && Represents(h, v, t)
    ensures s == t
    decreases t
  {
    match t
    case OList(items) =>
      forall i | 0 <= i < |items| ensures s.items[i] == items[i] {
        RepresentsOne(h, NodeAt(h, v.ref).items[i], s.items[i], items[i]);
      }
      assert s.items == items;
    case ORecord(props) =>
      forall i | 0 <= i < |props| ensures s.props[i] == props[i] {
        RepresentsOne(h, NodeAt(h, v.ref).props[i].1, s.props[i].1, props[i].1);
      }
      assert s.props == props;
    case _ =>
  }

  lemma {:induction false} SumHolds(costs: seq<nat>, i: nat)
    requires i < |costs|
    ensures costs[i] <= Sum(costs)
  {
    if i > 0 {
      SumHolds(costs[1..], i - 1);
    }
  }

  /** The containers on the path, as trees, are all strictly costlier than t. */
  ghost predicate Above(h: Heap, path: seq<Ref>, trees: seq<Out>, cost: nat) {
    && |trees| == |path|
    && forall i :: 0 <= i < |path| ==> Represents(h, Object(path[i]), trees[i]) && Cost(trees[i]) > cost
  }

  lemma NotOnPath(h: Heap, v: Value, t: Out, path: seq<Ref>, trees: seq<Out>)
    requires Represents(h, v, t) && v.Object? && Above(h, path, trees, Cost(t))
    ensures v.ref !in path
  {
    hide Represents, Cost;
    if v.ref in path {
      var i :| 0 <= i < |path| && path[i] == v.ref;
      assert Object(path[i]) == v;
      RepresentsOne(h, v, trees[i], t);
    }
  }

  /** The subtrees of a tree's container, slot by slot. */
  ghost predicate Subtrees(h: Heap, slots: seq<Slot>, ts: seq<Out>, costs: seq<nat>, lim: Limits, depth: nat) {
    && |slots| == |ts| == |costs|
    && forall i :: 0 <= i < |slots| ==>
         slots[i].One? && Represents(h, slots[i].value, ts[i]) && Fits(ts[i], lim, depth)
         && costs[i] == slots[i].overhead + Cost(ts[i])
  }

  lemma {:induction false} TreeCopied(h: Heap, v: Value, t: Out, lim: Limits, depth: nat, path: seq<Ref>, trees: seq<Out>, budget: int)
    requires Represents(h, v, t) && Fits(t, lim, depth) && Above(h, path, trees, Cost(t)) && Cost(t) < budget
    ensures var c := Clone(h, v, lim, depth, path, budget); c.out == Stored(t) && c.left == budget - Cost(t)
    decreases Levels(lim, depth), 1
  {
    hide Above, CloneSlots, Sum, AssignAll, WithoutProto, Subtrees;
    match t
    case OList(items) => ListCopied(h, v, t, lim, depth, path, trees, budget);
    case ORecord(props) => RecordCopied(h, v, t, lim, depth, path, trees, budget);
    case _ =>
  }

  lemma {:induction false} ListCopied(h: Heap, v: Value, t: Out, lim: Limits, depth: nat, path: seq<Ref>, trees: seq<Out>, budget: int)
    requires t.OList?
    requires Represents(h, v, t) && Fits(t, lim, depth) && Above(h, path, trees, Cost(t)) && Cost(t) < budget
    ensures var c := Clone(h, v, lim, depth, path, budget); c.out == Stored(t) && c.left == budget - Cost(t)
    decreases Levels(lim, depth), 0
  {
    hide CloneSlots, Sum;
    NotOnPath(h, v, t, path, trees);
    var n := NodeAt(h, v.ref);
    var slots, items := Slots(n, lim), t.items;
    var costs: seq<nat> := seq(|items|, i requires 0 <= i < |items| => 4 + Cost(items[i]));
    assert Subtrees(h, slots, items, costs, lim, depth + 1);
    SubtreesCopied(h, v, t, slots, items, costs, lim, depth, path, trees, budget);
    var c := CloneSlots(h, slots, lim, depth + 1, path + [v.ref], budget);
    assert c.outs == Stored(t).items;
  }

  lemma {:induction false} RecordCopied(h: Heap, v: Value, t: Out, lim: Limits, depth: nat, path: seq<Ref>, trees: seq<Out>, budget: int)
    requires t.ORecord?
    requires Represents(h, v, t) && Fits(t, lim, depth) && Above(h, path, trees, Cost(t)) && Cost(t) < budget
    ensures var c := Clone(h, v, lim, depth, path, budget); c.out == Stored(t) && c.left == budget - Cost(t)
    decreases Levels(lim, depth), 0
  {
    hide CloneSlots, Sum, AssignAll, WithoutProto;
    NotOnPath(h, v, t, path, trees);
    var n := NodeAt(h, v.ref);
    var slots, props := Slots(n, lim), t.props;
    var ts := seq(|props|, i requires 0 <= i < |props| => props[i].1);
    var costs: seq<nat> := seq(|props|, i requires 0 <= i < |props| => 4 + |props[i].0| + Cost(props[i].1));
    assert Subtrees(h, slots, ts, costs, lim, depth + 1);
    SubtreesCopied(h, v, t, slots, ts, costs, lim, depth, path, trees, budget);
    var c := CloneSlots(h, slots, lim, depth + 1, path + [v.ref], budget);
    var stored := seq(|props|, i requires 0 <= i < |props| => (props[i].0, Stored(props[i].1)));
    AssignedOnce(n.props, c.outs, stored);
  }

  /** The children of t are copied in place, for exactly t's cost. */
  lemma {:induction false} SubtreesCopied(h: Heap, v: Value, t: Out, slots: seq<Slot>, ts: seq<Out>, costs: seq<nat>,
                                          lim: Limits, depth: nat, path: seq<Ref>, trees: seq<Out>, budget: int)
    requires v.Object? && Represents(h, v, t) && Above(h, path, trees, Cost(t)) && Cost(t) == Sum(costs) < budget
    requires depth <= lim.maxDepth && Subtrees(h, slots, ts, costs, lim, depth + 1)
    requires forall i :: 0 <= i < |slots| ==> slots[i].overhead >= ENTRY_OVERHEAD
    ensures var c := CloneSlots(h, slots, lim, depth + 1, path + [v.ref], budget);
            && !c.stopped && c.left == budget - Cost(t) && |c.outs| == |ts|
            && forall i :: 0 <= i < |ts| ==> c.outs[i] == Stored(ts[i])
    decreases Levels(lim, depth), 0, 0
  {
    hide CloneSlots, Sum, Represents, Fits, Cost, Stored;
    var below, more := path + [v.ref], trees + [t];
    forall i | 0 <= i < |ts| ensures Above(h, below, more, Cost(ts[i])) {
      SumHolds(costs, i);
      forall k | 0 <= k < |below|
        ensures Represents(h, Object(below[k]), more[k]) && Cost(more[k]) > Cost(ts[i])
      {
        if k < |path| { assert below[k] == path[k] && more[k] == trees[k]; }
      }
    }
    SlotsCopied(h, slots, ts, costs, lim, depth + 1, below, more, budget);
  }

  lemma {:induction false} SlotsCopied(h: Heap, slots: seq<Slot>, ts: seq<Out>, costs: seq<nat>,
                                       lim: Limits, depth: nat, path: seq<Ref>, trees: seq<Out>, budget: int)
    requires Subtrees(h, slots, ts, costs, lim, depth) && Sum(costs) < budget
    requires forall i :: 0 <= i < |ts| ==> Above(h, path, trees, Cost(ts[i]))
    ensures var c := CloneSlots(h, slots, lim, depth, path, budget);
            && !c.stopped && c.left == budget - Sum(costs) && |c.outs| == |ts|
            && forall i :: 0 <= i < |ts| ==> c.outs[i] == Stored(ts[i])
    decreases Levels(lim, depth), 3, |slots|
  {
    hide Above, Represents, Fits, Cost, Stored, Clone;
    if slots != [] {
      var s := slots[0];
      SumHolds(costs, 0);
      TreeCopied(h, s.value, ts[0], lim, depth, path, trees, budget - s.overhead);
      var first := CloneSlot(h, s, lim, depth, path, budget - s.overhead);
      assert Subtrees(h, slots[1..], ts[1..], costs[1..], lim, depth);
      SlotsCopied(h, slots[1..], ts[1..], costs[1..], lim, depth, path, trees, first.left);
    }
  }

  predicate SameKeys(props: seq<(string, Value)>, outs: seq<Out>, stored: seq<(string, Out)>) {
    && |props| == |outs| == |stored|
    && forall i :: 0 <= i < |props| ==> stored[i] == (props[i].0, outs[i])
  }

  lemma {:induction false} KeyIsNew(props: seq<(string, Out)>, key: string)
    requires forall i :: 0 <= i < |props| ==> props[i].0 != key
    ensures forall k :: 0 <= k < |WithoutProto(props)| ==> WithoutProto(props)[k].0 != key
    decreases |props|
  {
    if props != [] {
      KeyIsNew(props[..|props| - 1], key);
    }
  }

  /** Assigning distinct keys one by one lists them in order, all but __proto__. */
  lemma {:induction false} AssignedOnce(props: seq<(string, Value)>, outs: seq<Out>, stored: seq<(string, Out)>)
    requires SameKeys(props, outs, stored) && DistinctKeys(stored)
    ensures AssignAll(props, outs) == WithoutProto(stored)
    decreases |outs|
  {
    if outs != [] {
      var n := |outs| - 1;
      AssignedOnce(props[..n], outs[..n], stored[..n]);
      AssignPrefix(props, outs[..n]);
      KeyIsNew(stored[..n], props[n].0);
    }
  }

  lemma {:induction false} AssignPrefix(props: seq<(string, Value)>, outs: seq<Out>)
    requires |outs| <= |props|
    ensures AssignAll(props[..|outs|], outs) == AssignAll(props, outs)
    decreases |outs|
  {
    if outs != [] {
      var n := |outs| - 1;
      AssignPrefix(props, outs[..n]);
      AssignPrefix(props[..|outs|], outs[..n]);
      assert props[..|outs|][..n] == props[..n];
    }
  }

  lemma {:induction false} WithoutProtoSame(props: seq<(string, Out)>)
    ensures |WithoutProto(props)| <= |props|
    ensures (forall i :: 0 <= i < |props| ==> props[i].0 != PROTO) ==> WithoutProto(props) == props
    ensures (exists i :: 0 <= i < |props| && props[i].0 == PROTO) ==> |WithoutProto(props)| < |props|
  {
    if props != [] {
      var n := |props| - 1;
      WithoutProtoSame(props[..n]);
      if forall i :: 0 <= i < |props| ==> props[i].0 != PROTO {
        assert forall i :: 0 <= i < n ==> props[..n][i].0 != PROTO;
        assert props[..n] + [props[n]] == props;
      } else if props[n].0 != PROTO {
        var i :| 0 <= i < |props| && props[i].0 == PROTO;
        assert props[..n][i].0 == PROTO;
      }
    }
  }

  /** Dropping __proto__ properties changes nothing exactly when there are none. */
  lemma {:induction false} StoredIsSame(t: Out)
    ensures Stored(t) == t <==> !HasProto(t)
  {
    match t
    case OList(items) =>
      forall i | 0 <= i < |items| ensures Stored(items[i]) == items[i] <==> !HasProto(items[i]) {
        StoredIsSame(items[i]);
      }
      var copied := Stored(t).items;
      if !HasProto(t) { assert copied == items; }
      else {
        var i :| 0 <= i < |items| && HasProto(items[i]);
        assert copied[i] != items[i];
      }
    case ORecord(props) => RecordIsSame(props);
    case _ =>
  }

  lemma {:induction false} RecordIsSame(props: seq<(string, Out)>)
    ensures Stored(ORecord(props)) == ORecord(props) <==> !HasProto(ORecord(props))
    decreases ORecord(props), 0
  {
    hide WithoutProto;
    var copied := seq(|props|, i requires 0 <= i < |props| => (props[i].0, Stored(props[i].1)));
    forall i | 0 <= i < |props| ensures copied[i] == props[i] <==> !HasProto(props[i].1) {
      StoredIsSame(props[i].1);
    }
    WithoutProtoSame(copied);
    if exists i :: 0 <= i < |props| && props[i].0 == PROTO {
      var i :| 0 <= i < |props| && props[i].0 == PROTO;
      assert copied[i].0 == PROTO;
    } else {
      assert forall i :: 0 <= i < |copied| ==> copied[i].0 != PROTO;
      if HasProto(ORecord(props)) {
        var i :| 0 <= i < |props| && HasProto(props[i].1);
        assert copied[i] != props[i];
      } else {
        assert copied == props;
      }
    }
  }

  /**
    A JSON tree within the depth, width and string limits, and cheaper than the budget, is copied
    without its __proto__ properties: to an equal tree exactly when it has none.
  */
  lemma JsonRoundTrip(h: Heap, v: Value, t: Out, lim: Limits)
    requires Represents(h, v, t) && Fits(t, lim, 0) && Cost(t) < lim.maxPayloadSize
    ensures CloneAndLimit(h, v, lim).out == Stored(t)
    ensures CloneAndLimit(h, v, lim).out == t <==> !HasProto(t)
  {
    hide Represents, Fits, Cost, Stored, HasProto, Clone;
    TreeCopied(h, v, t, lim, 0, [], [], lim.maxPayloadSize);
    StoredIsSame(t);
  }
}
