/**
  The code's own form: one budget object and one visited set, both mutated through the recursion,
  with a loop for each kind of container.  Every method returns what the function Clone returns,
  leaves Clone's balance in the budget, and hands the visited set back as it found it.
*/
module CloneAndLimits {
  import opened Clones

  class CloneBudget {
    var remaining: int

    constructor (size: int)
      ensures remaining == size
    {
      remaining := size;
    }
  }

  /** A JavaScript Set of objects. */
  class VisitedSet {
    var refs: set<Ref>

    constructor ()
      ensures refs == {}
    {
      refs := {};
    }
  }

  /** The path's containers, as the visited set holds them. */
  function Elements(path: seq<Ref>): set<Ref> {
    set r | r in path
  }

  /** The rest of a loop, given what its first turns did. */
  function Prepend(outs: seq<Out>, trace: seq<Visit>, rest: Copies): Copies {
    Copies(outs + rest.outs, rest.left, trace + rest.trace, rest.stopped)
  }

  /** A loop that has done outs so far, with balance b before slot i, ends as the whole loop does. */
  ghost predicate SoFar(h: Heap, slots: seq<Slot>, lim: Limits, depth: nat, path: seq<Ref>, budget: int,
                        i: nat, outs: seq<Out>, trace: seq<Visit>, b: int) {
    && i <= |slots| && |outs| == i
    && CloneSlots(h, slots, lim, depth, path, budget) == Prepend(outs, trace, CloneSlots(h, slots[i..], lim, depth, path, b))
  }

  lemma SoFarStarts(h: Heap, slots: seq<Slot>, lim: Limits, depth: nat, path: seq<Ref>, budget: int)
    ensures SoFar(h, slots, lim, depth, path, budget, 0, [], [], budget)
  {
    hide CloneSlots;
    assert slots[0..] == slots;
    var c := CloneSlots(h, slots, lim, depth, path, budget);
    assert Prepend([], [], c) == c;
  }

  lemma SoFarTurns(h: Heap, slots: seq<Slot>, lim: Limits, depth: nat, path: seq<Ref>, budget: int,
                   i: nat, outs: seq<Out>, trace: seq<Visit>, b: int)
    requires SoFar(h, slots, lim, depth, path, budget, i, outs, trace, b) && i < |slots| && b > 0
    ensures var first := CloneSlot(h, slots[i], lim, depth, path, b - slots[i].overhead);
            SoFar(h, slots, lim, depth, path, budget, i + 1, outs + [first.out], trace + first.trace, first.left)
  {
    hide CloneSlot;
    var first := CloneSlot(h, slots[i], lim, depth, path, b - slots[i].overhead);
    assert slots[i..][0] == slots[i] && slots[i..][1..] == slots[i + 1..];
    var rest := CloneSlots(h, slots[i + 1..], lim, depth, path, first.left);
    assert outs + ([first.out] + rest.outs) == outs + [first.out] + rest.outs;
    assert trace + (first.trace + rest.trace) == trace + first.trace + rest.trace;
  }

  lemma SoFarEnds(h: Heap, slots: seq<Slot>, lim: Limits, depth: nat, path: seq<Ref>, budget: int,
                  i: nat, outs: seq<Out>, trace: seq<Visit>, b: int)
    requires SoFar(h, slots, lim, depth, path, budget, i, outs, trace, b) && (i == |slots| || b <= 0)
    ensures CloneSlots(h, slots, lim, depth, path, budget) == Copies(outs, b, trace, i < |slots|)
  {
    assert outs + [] == outs && trace + [] == trace;
  }

  /** cloneAndLimitInternal. */
  method CloneAndLimitInternal(h: Heap, v: Value, lim: Limits, depth: nat, visited: VisitedSet, budget: CloneBudget,
                               ghost path: seq<Ref>)
    returns (out: Out, ghost trace: seq<Visit>)
    requires visited.refs == Elements(path)
    modifies visited, budget
    ensures Copy(out, budget.remaining, trace) == Clone(h, v, lim, depth, path, old(budget.remaining))
    ensures visited.refs == old(visited.refs)
    decreases Levels(lim, depth), 2
  {
    hide CloneSlots, Assemble, Leaf, Summary;
    ghost var start := budget.remaining;
    if budget.remaining <= 0 {
      out, trace := OText("[Payload size limit]"), [];
    } else if depth > lim.maxDepth {
      out, trace := OText("[Depth limit]"), [];
    } else if !v.Object? {
      var leaf := Leaf(v, lim, budget.remaining);
      budget.remaining := budget.remaining - leaf.1;
      out, trace := leaf.0, [];
    } else if !IsContainer(NodeAt(h, v.ref)) {
      out, trace := Summary(NodeAt(h, v.ref), lim), [];
    } else if v.ref in visited.refs {
      out, trace := OText("[Circular]"), [];
    } else {
      visited.refs := visited.refs + {v.ref};
      assert visited.refs == Elements(path + [v.ref]);
      out, trace := CloneContainer(h, NodeAt(h, v.ref), lim, depth, visited, budget, path + [v.ref]);
      visited.refs := visited.refs - {v.ref};
    }
    assert Copy(out, budget.remaining, trace) == CloneBody(h, v, lim, depth, path, start);
    trace := [Visit(v, depth, path, start, out)] + trace;
  }

  /** The dispatch on the four kinds of container, with the container already in the visited set. */
  method CloneContainer(h: Heap, n: Node, lim: Limits, depth: nat, visited: VisitedSet, budget: CloneBudget,
                        ghost path: seq<Ref>)
    returns (out: Out, ghost trace: seq<Visit>)
    requires IsContainer(n) && depth <= lim.maxDepth && visited.refs == Elements(path)
    modifies visited, budget
    ensures visited.refs == old(visited.refs)
    ensures var c := CloneSlots(h, Slots(n, lim), lim, depth + 1, path, old(budget.remaining));
            out == Assemble(n, lim, c) && budget.remaining == c.left && trace == c.trace
    decreases Levels(lim, depth), 1
  {
    hide CloneSlots, Assemble, Slots;
    match n
    case Mapping(entries) => out, trace := CloneMap(h, entries, lim, depth, visited, budget, path);
    case Collection(values) => out, trace := CloneSet(h, values, lim, depth, visited, budget, path);
    case List(items) => out, trace := CloneArray(h, items, lim, depth, visited, budget, path);
    case Record(props) => out, trace := CloneObject(h, props, lim, depth, visited, budget, path);
  }

  method CloneMap(h: Heap, entries: seq<(Value, Value)>, lim: Limits, depth: nat, visited: VisitedSet, budget: CloneBudget,
                  ghost path: seq<Ref>)
    returns (out: Out, ghost trace: seq<Visit>)
    requires depth <= lim.maxDepth && visited.refs == Elements(path)
    modifies visited, budget
    ensures visited.refs == old(visited.refs)
    ensures var c := CloneSlots(h, Slots(Mapping(entries), lim), lim, depth + 1, path, old(budget.remaining));
            out == Assemble(Mapping(entries), lim, c) && budget.remaining == c.left && trace == c.trace
    decreases Levels(lim, depth), 0
  {
    hide CloneSlots, Clone, SoFar, Elements;
    var cloned: seq<Out>, index, budgetTruncated := [], 0, false;
    ghost var slots := Slots(Mapping(entries), lim);
    trace := [];
    SoFarStarts(h, slots, lim, depth + 1, path, budget.remaining);
    while index < |entries|
      invariant 0 <= index <= |slots| && |cloned| == index && !budgetTruncated
      invariant visited.refs == old(visited.refs)
      invariant SoFar(h, slots, lim, depth + 1, path, old(budget.remaining), index, cloned, trace, budget.remaining)
    {
      if index >= lim.maxArrayItems {
        break;
      }
      if budget.remaining <= 0 {
        budgetTruncated := true;
        break;
      }
      SoFarTurns(h, slots, lim, depth + 1, path, old(budget.remaining), index, cloned, trace, budget.remaining);
      budget.remaining := budget.remaining - ENTRY_OVERHEAD;
      var key, keyTrace := CloneAndLimitInternal(h, entries[index].0, lim, depth + 1, visited, budget, path);
      var value, valueTrace := CloneAndLimitInternal(h, entries[index].1, lim, depth + 1, visited, budget, path);
      cloned := cloned + [OList([key, value])];
      trace := trace + (keyTrace + valueTrace);
      index := index + 1;
    }
    SoFarEnds(h, slots, lim, depth + 1, path, old(budget.remaining), index, cloned, trace, budget.remaining);
    var props := [("_type", OText("Map")), ("size", Count(|entries|)), ("entries", OList(cloned))];
    if budgetTruncated || |entries| > |cloned| {
      props := props + [("_truncated", OBool(true))];
    }
    out := ORecord(props);
  }

  method CloneSet(h: Heap, values: seq<Value>, lim: Limits, depth: nat, visited: VisitedSet, budget: CloneBudget,
                  ghost path: seq<Ref>)
    returns (out: Out, ghost trace: seq<Visit>)
    requires depth <= lim.maxDepth && visited.refs == Elements(path)
    modifies visited, budget
    ensures visited.refs == old(visited.refs)
    ensures var c := CloneSlots(h, Slots(Collection(values), lim), lim, depth + 1, path, old(budget.remaining));
            out == Assemble(Collection(values), lim, c) && budget.remaining == c.left && trace == c.trace
    decreases Levels(lim, depth), 0
  {
    hide CloneSlots, Clone, SoFar, Elements;
    var cloned: seq<Out>, index, budgetTruncated := [], 0, false;
    ghost var slots := Slots(Collection(values), lim);
    trace := [];
    SoFarStarts(h, slots, lim, depth + 1, path, budget.remaining);
    while index < |values|
      invariant 0 <= index <= |slots| && |cloned| == index && !budgetTruncated
      invariant visited.refs == old(visited.refs)
      invariant SoFar(h, slots, lim, depth + 1, path, old(budget.remaining), index, cloned, trace, budget.remaining)
    {
      if index >= lim.maxArrayItems {
        break;
      }
      if budget.remaining <= 0 {
        budgetTruncated := true;
        break;
      }
      SoFarTurns(h, slots, lim, depth + 1, path, old(budget.remaining), index, cloned, trace, budget.remaining);
      budget.remaining := budget.remaining - ENTRY_OVERHEAD;
      var copy, copyTrace := CloneAndLimitInternal(h, values[index], lim, depth + 1, visited, budget, path);
      cloned := cloned + [copy];
      trace := trace + copyTrace;
      index := index + 1;
    }
    SoFarEnds(h, slots, lim, depth + 1, path, old(budget.remaining), index, cloned, trace, budget.remaining);
    var props := [("_type", OText("Set")), ("size", Count(|values|)), ("values", OList(cloned))];
    if budgetTruncated || |values| > |cloned| {
      props := props + [("_truncated", OBool(true))];
    }
    out := ORecord(props);
  }

  method CloneArray(h: Heap, items: seq<Value>, lim: Limits, depth: nat, visited: VisitedSet, budget: CloneBudget,
                    ghost path: seq<Ref>)
    returns (out: Out, ghost trace: seq<Visit>)
    requires depth <= lim.maxDepth && visited.refs == Elements(path)
    modifies visited, budget
    ensures visited.refs == old(visited.refs)
    ensures var c := CloneSlots(h, Slots(List(items), lim), lim, depth + 1, path, old(budget.remaining));
            out == Assemble(List(items), lim, c) && budget.remaining == c.left && trace == c.trace
    decreases Levels(lim, depth), 0
  {
    hide CloneSlots, Clone, SoFar, Elements;
    var itemCount := Min(|items|, lim.maxArrayItems);
    var clonedItems: seq<Out>, index, budgetTruncated := [], 0, false;
    ghost var slots := Slots(List(items), lim);
    trace := [];
    SoFarStarts(h, slots, lim, depth + 1, path, budget.remaining);
    while index < itemCount
      invariant 0 <= index <= itemCount && |clonedItems| == index && !budgetTruncated
      invariant visited.refs == old(visited.refs)
      invariant SoFar(h, slots, lim, depth + 1, path, old(budget.remaining), index, clonedItems, trace, budget.remaining)
    {
      if budget.remaining <= 0 {
        budgetTruncated := true;
        break;
      }
      SoFarTurns(h, slots, lim, depth + 1, path, old(budget.remaining), index, clonedItems, trace, budget.remaining);
      budget.remaining := budget.remaining - ENTRY_OVERHEAD;
      var copy, copyTrace := CloneAndLimitInternal(h, items[index], lim, depth + 1, visited, budget, path);
      clonedItems := clonedItems + [copy];
      trace := trace + copyTrace;
      index := index + 1;
    }
    SoFarEnds(h, slots, lim, depth + 1, path, old(budget.remaining), index, clonedItems, trace, budget.remaining);
    if |items| <= lim.maxArrayItems && !budgetTruncated {
      return OList(clonedItems), trace;
    }
    out := ORecord([("_items", OList(clonedItems)), ("_truncated", OBool(true)), ("_originalLength", Count(|items|))]);
  }

  lemma AssignAllGrows(props: seq<(string, Value)>, outs: seq<Out>, last: Out)
    requires |outs| < |props|
    ensures AssignAll(props, outs + [last]) == Assign(AssignAll(props, outs), props[|outs|].0, last)
  {
    hide Assign;
    assert (outs + [last])[..|outs|] == outs;
  }

  method CloneObject(h: Heap, props: seq<(string, Value)>, lim: Limits, depth: nat, visited: VisitedSet, budget: CloneBudget,
                     ghost path: seq<Ref>)
    returns (out: Out, ghost trace: seq<Visit>)
    requires depth <= lim.maxDepth && visited.refs == Elements(path)
    modifies visited, budget
    ensures visited.refs == old(visited.refs)
    ensures var c := CloneSlots(h, Slots(Record(props), lim), lim, depth + 1, path, old(budget.remaining));
            out == Assemble(Record(props), lim, c) && budget.remaining == c.left && trace == c.trace
    decreases Levels(lim, depth), 0
  {
    hide CloneSlots, Clone, SoFar, Elements, Assign, AssignAll;
    var keyCount := Min(|props|, lim.maxObjectKeys);
    var cloned, index := [], 0;
    ghost var slots := Slots(Record(props), lim);
    ghost var outs: seq<Out> := [];
    ghost var stopped := false;
    trace := [];
    SoFarStarts(h, slots, lim, depth + 1, path, budget.remaining);
    AssignNone(props);
    while index < keyCount
      invariant 0 <= index <= keyCount && |outs| == index && !stopped
      invariant visited.refs == old(visited.refs)
      invariant cloned == AssignAll(props, outs)
      invariant SoFar(h, slots, lim, depth + 1, path, old(budget.remaining), index, outs, trace, budget.remaining)
    {
      if budget.remaining <= 0 {
        cloned := Assign(cloned, "_truncated", OBool(true));
        cloned := Assign(cloned, "_originalKeyCount", Count(|props|));
        stopped := true;
        break;
      }
      SoFarTurns(h, slots, lim, depth + 1, path, old(budget.remaining), index, outs, trace, budget.remaining);
      budget.remaining := budget.remaining - (ENTRY_OVERHEAD + |props[index].0|);
      var copy, copyTrace := CloneAndLimitInternal(h, props[index].1, lim, depth + 1, visited, budget, path);
      AssignAllGrows(props, outs, copy);
      cloned := Assign(cloned, props[index].0, copy);
      outs := outs + [copy];
      trace := trace + copyTrace;
      index := index + 1;
    }
    SoFarEnds(h, slots, lim, depth + 1, path, old(budget.remaining), index, outs, trace, budget.remaining);
    if |props| > lim.maxObjectKeys {
      cloned := Assign(cloned, "_truncated", OBool(true));
      cloned := Assign(cloned, "_originalKeyCount", Count(|props|));
    }
    out := ORecord(cloned);
  }

  lemma AssignNone(props: seq<(string, Value)>)
    ensures AssignAll(props, []) == []
  {
  }

  /** cloneAndLimit, as every caller uses it: from depth 0 with nothing visited. */
  method CloneAndLimit(h: Heap, v: Value, lim: Limits) returns (out: Out, ghost trace: seq<Visit>)
    ensures out == Clones.CloneAndLimit(h, v, lim).out && trace == Clones.CloneAndLimit(h, v, lim).trace
  {
    hide Clone;
    var budget := new CloneBudget(lim.maxPayloadSize);
    var visited := new VisitedSet();
    assert Elements([]) == {};
    out, trace := CloneAndLimitInternal(h, v, lim, 0, visited, budget, []);
  }
}
