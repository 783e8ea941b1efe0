/**
  What cloneAndLimit leaves of a value that is over a limit: cut strings and their total, the
  markers, and containers that say how much they lost.
*/
module CloneTruncation {
  import opened Wrappers
  import opened Strings
  import opened Clones
  import opened CloneTheorems

  // ---------------------------------------------------------------- strings

  function Note(length: nat): string {
    "...[truncated, " + Decimal(length) + " chars]"
  }

  /** The string if it fits, else its first cap characters and a note of its length. */
  predicate CutTo(copy: string, s: string, cap: nat) {
    if |s| <= cap then copy == s
    else |copy| == cap + |Note(|s|)| && copy[..cap] == s[..cap] && copy[cap..] == Note(|s|)
  }

  lemma TruncateCuts(s: string, max: nat)
    ensures CutTo(TruncateString(s, max), s, max)
  {
    hide Decimal;
    if |s| > max {
      assert TruncateString(s, max) == s[..max] + Note(|s|);
    }
  }

  /** The value of a property, the last one assigned. */
  function Lookup(props: seq<(string, Out)>, key: string): Option<Out> {
    var i := IndexOfKey(props, key);
    if i < |props| then Some(props[i].1) else None
  }

  predicate HoldsText(props: seq<(string, Out)>, key: string) {
    Lookup(props, key).Some? && Lookup(props, key).value.OText?
  }

  function TextAt(props: seq<(string, Out)>, key: string): string
    requires HoldsText(props, key)
  {
    Lookup(props, key).value.text
  }

  /** What a call with budget left and depth to spare makes of anything that is not a container. */
  predicate LeafCopied(h: Heap, lim: Limits, budget: int, v: Value, out: Out) {
    match v
    case Undefined => out == ONull
    case Null => out == ONull
    case Bool(b) => out == OBool(b)
    case Number(n) => out == if n.Finite? then ONum(n) else ONull
    case Text(s) => out.OText? && CutTo(out.text, s, if lim.maxStringLength <= budget then lim.maxStringLength else Max(budget, 0))
    case BigInt(digits) => out.ORecord? && Lookup(out.props, "value") == Some(OText(digits))
    case Symbol(description) => out == OText("[Symbol: " + (if description == None then "" else description.value) + "]")
    case Function(name) => out == OText("[Function: " + (if name == "" then "anonymous" else name) + "]")
    case Object(r) =>
      match NodeAt(h, r)
      case Buffer(base64, length) =>
        && out.ORecord? && Lookup(out.props, "length") == Some(Count(length))
        && HoldsText(out.props, "data") && CutTo(TextAt(out.props, "data"), base64, lim.maxStringLength)
      case Error(name, message, _) =>
        out.ORecord? && Lookup(out.props, "name") == Some(OText(name)) && Lookup(out.props, "message") == Some(OText(message))
      case RegExp(source, flags) =>
        out.ORecord? && Lookup(out.props, "source") == Some(OText(source)) && Lookup(out.props, "flags") == Some(OText(flags))
      case TypedArray(_, elements) =>
        && out.ORecord? && Lookup(out.props, "length") == Some(Count(|elements|))
        && HoldsSample(out.props, elements, if |elements| <= lim.maxArrayItems then |elements| else lim.maxArrayItems)
      case ArrayBuffer(length) => out.ORecord? && Lookup(out.props, "byteLength") == Some(Count(length))
      case Date(iso) => out.OText? && (iso.Some? ==> out.text == iso.value)
      case _ => true
  }

  /** The first k numbers, in order. */
  predicate HoldsSample(props: seq<(string, Out)>, elements: seq<Num>, k: nat)
    requires k <= |elements|
  {
    && Lookup(props, "sample").Some? && Lookup(props, "sample").value.OList?
    && var sample := Lookup(props, "sample").value.items;
       |sample| == k && forall i :: 0 <= i < k ==> sample[i] == ONum(elements[i])
  }

  function Max(a: int, b: int): int {
    if a >= b then a else b
  }

  lemma SmallSummary(n: Node, lim: Limits)
    requires n.RegExp? || n.TypedArray? || n.ArrayBuffer?
    ensures LeafCopied(map[0 := n], lim, 1, Object(0), Summary(n, lim))
  {
    hide IndexOfKey;
    var props := Summary(n, lim).props;
    match n
    case RegExp(_, _) =>
      FirstAt(props, "source", 1);
      FirstAt(props, "flags", 2);
    case TypedArray(_, _) =>
      FirstAt(props, "length", 1);
      FirstAt(props, "sample", 2);
    case ArrayBuffer(_) => FirstAt(props, "byteLength", 1);
  }

  lemma LeafIsCopied(h: Heap, lim: Limits, budget: int, v: Value)
    requires v.Object? ==> !IsContainer(NodeAt(h, v.ref))
    ensures LeafCopied(h, lim, budget, v, if v.Object? then Summary(NodeAt(h, v.ref), lim) else Leaf(v, lim, budget).0)
  {
    hide TruncateString, CutTo;
    if v.Text? {
      TruncateCuts(v.text, StringCap(lim, budget));
    } else if v.Object? && NodeAt(h, v.ref).Buffer? {
      TruncateCuts(NodeAt(h, v.ref).base64, lim.maxStringLength);
      var props := Summary(NodeAt(h, v.ref), lim).props;
      KeysAt(props, "_type", "encoding", "data", "length");
    } else if v.Object? && NodeAt(h, v.ref).Error? {
      KeysAt(Summary(NodeAt(h, v.ref), lim).props, "_type", "name", "message", "stack");
    } else if v.BigInt? {
      FirstAt(Leaf(v, lim, budget).0.props, "value", 1);
    } else if v.Object? && (NodeAt(h, v.ref).RegExp? || NodeAt(h, v.ref).TypedArray? || NodeAt(h, v.ref).ArrayBuffer?) {
      SmallSummary(NodeAt(h, v.ref), lim);
    }
  }

  lemma KeysAt(props: seq<(string, Out)>, a: string, b: string, c: string, d: string)
    requires |props| == 4 && props[0].0 == a && props[1].0 == b && props[2].0 == c && props[3].0 == d
    requires a != b && a != c && a != d && b != c && b != d && c != d
    ensures Lookup(props, b) == Some(props[1].1) && Lookup(props, c) == Some(props[2].1) && Lookup(props, d) == Some(props[3].1)
  {
    hide IndexOfKey;
    FirstAt(props, b, 1);
    FirstAt(props, c, 2);
    FirstAt(props, d, 3);
  }

  /**
    Every visit of every run: past the budget or the depth only a marker comes back, and otherwise a
    value that is not a container is copied, a string or a buffer's text up to its limit.
  */
  lemma VisitVerdict(h: Heap, v: Value, lim: Limits, w: Visit)
    requires w in CloneAndLimit(h, v, lim).trace
    ensures w.budget <= 0 ==> w.out == OText("[Payload size limit]")
    ensures w.budget > 0 && w.depth > lim.maxDepth ==> w.out == OText("[Depth limit]")
    ensures w.budget > 0 && w.depth <= lim.maxDepth && (w.value.Object? ==> !IsContainer(NodeAt(h, w.value.ref))) ==>
              LeafCopied(h, lim, w.budget, w.value, w.out)
  {
    hide LeafCopied, CloneSlots, Summary, Leaf;
    VisitExplained(h, v, lim, 0, [], lim.maxPayloadSize, w);
    assert w.out == CloneBody(h, w.value, lim, w.depth, w.path, w.budget).out;
    if w.budget > 0 && w.depth <= lim.maxDepth && (w.value.Object? ==> !IsContainer(NodeAt(h, w.value.ref))) {
      assert w.out == if w.value.Object? then Summary(NodeAt(h, w.value.ref), lim) else Leaf(w.value, lim, w.budget).0;
      LeafIsCopied(h, lim, w.budget, w.value);
    }
  }

  /** What a value that is not a container costs: 8 for a primitive, a string its copy's length, a BigInt its digits and 20, the rest nothing. */
  lemma LeafCharge(h: Heap, v: Value, lim: Limits, depth: nat, path: seq<Ref>, budget: int)
    requires budget > 0 && depth <= lim.maxDepth && (v.Object? ==> !IsContainer(NodeAt(h, v.ref)))
    ensures var c := Clone(h, v, lim, depth, path, budget);
            budget - c.left ==
              match v
              case Undefined => 8
              case Null => 8
              case Bool(_) => 8
              case Number(_) => 8
              case BigInt(digits) => |digits| + 20
              case Text(_) => if c.out.OText? then |c.out.text| else 0
              case _ => 0
  {
    hide TruncateString, Summary;
  }

  /** No text copied from a string or a buffer is longer than the string limit and the note. */
  lemma TextsAreCut(h: Heap, v: Value, lim: Limits, w: Visit)
    requires w in CloneAndLimit(h, v, lim).trace && w.budget > 0 && w.depth <= lim.maxDepth
    ensures w.value.Text? ==> w.out.OText? && |w.out.text| <= lim.maxStringLength + |Note(|w.value.text|)|
    ensures w.value.Object? && NodeAt(h, w.value.ref).Buffer? ==>
              w.out.ORecord? && HoldsText(w.out.props, "data")
              && |TextAt(w.out.props, "data")| <= lim.maxStringLength + |Note(|NodeAt(h, w.value.ref).base64|)|
  {
    hide Clone, Note;
    VisitVerdict(h, v, lim, w);
  }

  // ---------------------------------------------------------------- all strings together

  /** The text of the strings copied in these visits. */
  function TextTotal(trace: seq<Visit>): nat {
    if trace == [] then 0
    else TextTotal(trace[..|trace| - 1]) + TextOf(trace[|trace| - 1])
  }

  /** What a visit copied from a string; a marker is no copy. */
  function TextOf(w: Visit): nat {
    if w.value.Text? && w.out.OText? && w.budget > 0 && w.out != OText("[Depth limit]") then |w.out.text| else 0
  }

  lemma {:induction false} TextTotalConcat(a: seq<Visit>, b: seq<Visit>)
    ensures TextTotal(a + b) == TextTotal(a) + TextTotal(b)
  {
    hide TextOf;
    if b == [] {
      assert a + b == a;
    } else {
      assert (a + b)[..|a + b| - 1] == a + b[..|b| - 1];
      TextTotalConcat(a, b[..|b| - 1]);
    }
  }

  /** Longer than any note on a string whose length is a safe integer. */
  const LONGEST_NOTE: nat := 38

  const MAX_LENGTH: nat := 9007199254740991

  lemma NoteIsShort(length: nat)
    requires length <= MAX_LENGTH
    ensures |Note(length)| <= LONGEST_NOTE
  {
    assert Pow10(4) == 10000 && Pow10(8) == 10000 * Pow10(4) && Pow10(12) == 10000 * Pow10(8) && Pow10(16) == 10000 * Pow10(12);
    DecimalLength(length, 16);
  }

  predicate StringsShort(trace: seq<Visit>) {
    forall w :: w in trace && w.value.Text? ==> |w.value.text| <= MAX_LENGTH
  }

  /** What a total may be when a call started with this budget and left that much. */
  predicate Paid(total: nat, budget: int, left: int) {
    total <= budget - left && total <= (if budget <= 0 then 0 else budget + LONGEST_NOTE)
  }

  lemma PaidThen(a: nat, b: nat, budget: int, mid: int, left: int)
    requires Paid(a, budget, mid) && Paid(b, mid, left)
    ensures Paid(a + b, budget, left)
  {
  }

  lemma OneVisit(w: Visit)
    ensures TextTotal([w]) == TextOf(w)
  {
    assert [w][..0] == [];
  }

  lemma LeafPaid(v: Value, lim: Limits, depth: nat, path: seq<Ref>, budget: int)
    requires !v.Object? && budget > 0 && (v.Text? ==> |v.text| <= MAX_LENGTH)
    ensures Paid(TextOf(Visit(v, depth, path, budget, Leaf(v, lim, budget).0)), budget, budget - Leaf(v, lim, budget).1)
  {
    hide Note, TruncateString;
    if v.Text? {
      TruncateCuts(v.text, StringCap(lim, budget));
      NoteIsShort(|v.text|);
    } else {
      LeafCost(v, lim, budget);
    }
  }

  lemma {:induction false} CallPaid(h: Heap, v: Value, lim: Limits, depth: nat, path: seq<Ref>, budget: int)
    requires StringsShort(Clone(h, v, lim, depth, path, budget).trace)
    ensures var c := Clone(h, v, lim, depth, path, budget); Paid(TextTotal(c.trace), budget, c.left)
    decreases Levels(lim, depth), 1
  {
    hide Assemble, Summary, Leaf, TextTotal, TextOf, CloneSlots;
    var body := CloneBody(h, v, lim, depth, path, budget);
    var own := Visit(v, depth, path, budget, body.out);
    assert own in Clone(h, v, lim, depth, path, budget).trace;
    TextTotalConcat([own], body.trace);
    OneVisit(own);
    NoText(own);
    EmptyTotal();
    if budget > 0 && depth <= lim.maxDepth {
      if !v.Object? {
        LeafPaid(v, lim, depth, path, budget);
      } else if IsContainer(NodeAt(h, v.ref)) && v.ref !in path {
        SlotsPaid(h, Slots(NodeAt(h, v.ref), lim), lim, depth + 1, path + [v.ref], budget);
      }
    }
  }

  lemma EmptyTotal()
    ensures TextTotal([]) == 0
  {
  }

  lemma NoText(w: Visit)
    ensures !w.value.Text? || w.budget <= 0 || w.out == OText("[Depth limit]") ==> TextOf(w) == 0
  {
  }

  lemma {:induction false} SlotsPaid(h: Heap, slots: seq<Slot>, lim: Limits, depth: nat, path: seq<Ref>, budget: int)
    requires forall i :: 0 <= i < |slots| ==> slots[i].overhead >= ENTRY_OVERHEAD
    requires StringsShort(CloneSlots(h, slots, lim, depth, path, budget).trace)
    ensures var c := CloneSlots(h, slots, lim, depth, path, budget); Paid(TextTotal(c.trace), budget, c.left)
    decreases Levels(lim, depth), 3, |slots|
  {
    hide Clone, TextTotal;
    EmptyTotal();
    if slots != [] && budget > 0 {
      var paid := budget - slots[0].overhead;
      var first := CloneSlot(h, slots[0], lim, depth, path, paid);
      var rest := CloneSlots(h, slots[1..], lim, depth, path, first.left);
      TextTotalConcat(first.trace, rest.trace);
      SlotPaid(h, slots[0], lim, depth, path, paid);
      SlotsPaid(h, slots[1..], lim, depth, path, first.left);
      PaidThen(TextTotal(first.trace), TextTotal(rest.trace), paid, first.left, rest.left);
    }
  }

  lemma {:induction false} SlotPaid(h: Heap, s: Slot, lim: Limits, depth: nat, path: seq<Ref>, budget: int)
    requires StringsShort(CloneSlot(h, s, lim, depth, path, budget).trace)
    ensures var c := CloneSlot(h, s, lim, depth, path, budget); Paid(TextTotal(c.trace), budget, c.left)
    decreases Levels(lim, depth), 2
  {
    hide Clone, TextTotal;
    if s.One? {
      CallPaid(h, s.value, lim, depth, path, budget);
    } else {
      var key := Clone(h, s.key, lim, depth, path, budget);
      var value := Clone(h, s.value, lim, depth, path, key.left);
      CallPaid(h, s.key, lim, depth, path, budget);
      CallPaid(h, s.value, lim, depth, path, key.left);
      TextTotalConcat(key.trace, value.trace);
      PaidThen(TextTotal(key.trace), TextTotal(value.trace), budget, key.left, value.left);
    }
  }

  /** On any heap, the strings copied come to at most maxPayloadSize characters and one truncation note. */
  lemma AllTextIsBounded(h: Heap, v: Value, lim: Limits)
    requires StringsShort(CloneAndLimit(h, v, lim).trace)
    ensures TextTotal(CloneAndLimit(h, v, lim).trace) <= lim.maxPayloadSize + LONGEST_NOTE
  {
    hide Clone, TextTotal;
    CallPaid(h, v, lim, 0, [], lim.maxPayloadSize);
  }

  // ---------------------------------------------------------------- containers

  /** A call that opens this container: budget and depth to spare, and not on its own path. */
  predicate Opens(h: Heap, v: Value, lim: Limits, depth: nat, path: seq<Ref>, budget: int) {
    budget > 0 && depth <= lim.maxDepth && v.Object? && v.ref !in path && IsContainer(NodeAt(h, v.ref))
  }

  function CopiesIn(h: Heap, v: Value, lim: Limits, depth: nat, path: seq<Ref>, budget: int): seq<Out>
    requires Opens(h, v, lim, depth, path, budget)
  {
    CloneSlots(h, Slots(NodeAt(h, v.ref), lim), lim, depth + 1, path + [v.ref], budget).outs
  }

  /** A Map or a Set says its size and holds the copies made, and is marked if and only if they are not all. */
  lemma CollectionVerdict(h: Heap, v: Value, lim: Limits, depth: nat, path: seq<Ref>, budget: int)
    requires Opens(h, v, lim, depth, path, budget) && (NodeAt(h, v.ref).Mapping? || NodeAt(h, v.ref).Collection?)
    ensures var n, outs := NodeAt(h, v.ref), CopiesIn(h, v, lim, depth, path, budget);
            var size := if n.Mapping? then |n.entries| else |n.values|;
            var out := Clone(h, v, lim, depth, path, budget).out;
            && out.ORecord? && |outs| <= size
            && Lookup(out.props, "_type") == Some(OText(if n.Mapping? then "Map" else "Set"))
            && Lookup(out.props, "size") == Some(Count(size))
            && Lookup(out.props, if n.Mapping? then "entries" else "values") == Some(OList(outs))
            && Lookup(out.props, "_truncated") == if |outs| < size then Some(OBool(true)) else None
  {
    hide CloneSlots, Tagged, Lookup;
    var n, outs := NodeAt(h, v.ref), CopiesIn(h, v, lim, depth, path, budget);
    if n.Mapping? {
      TaggedHolds("Map", |n.entries|, "entries", outs);
    } else {
      TaggedHolds("Set", |n.values|, "values", outs);
    }
  }

  lemma TaggedHolds(tag: string, size: nat, field: string, outs: seq<Out>)
    requires field == "entries" || field == "values"
    ensures var out := Tagged(tag, size, field, outs);
            && out.ORecord?
            && Lookup(out.props, "_type") == Some(OText(tag)) && Lookup(out.props, "size") == Some(Count(size))
            && Lookup(out.props, field) == Some(OList(outs))
            && Lookup(out.props, "_truncated") == if |outs| < size then Some(OBool(true)) else None
  {
    hide IndexOfKey;
    var props := Tagged(tag, size, field, outs).props;
    assert props[0].0 == "_type" && props[1].0 == "size" && props[2].0 == field;
    assert "_type"[0] == '_' && "_truncated"[1] == 't' && "size"[0] == 's' && |"_type"| != |"_truncated"|;
    assert field[0] != '_' && |field| != |"size"|;
    FirstAt(props, "_type", 0);
    FirstAt(props, "size", 1);
    FirstAt(props, field, 2);
    FirstAt(props, "_truncated", 3);
  }

  lemma {:induction false} FirstAt(props: seq<(string, Out)>, key: string, i: nat)
    requires i <= |props| && (forall k :: 0 <= k < i ==> props[k].0 != key) && (i < |props| ==> props[i].0 == key)
    ensures IndexOfKey(props, key) == i
  {
    if i > 0 {
      FirstAt(props[1..], key, i - 1);
    }
  }

  lemma LookupAssign(props: seq<(string, Out)>, key: string, out: Out, asked: string)
    ensures Lookup(Assign(props, key, out), asked) == if asked == key && key != PROTO then Some(out) else Lookup(props, asked)
  {
    hide IndexOfKey;
    var t, i, j := Assign(props, key, out), IndexOfKey(props, key), IndexOfKey(props, asked);
    if key != PROTO {
      if asked == key {
        FirstAt(t, asked, i);
      } else if j < |props| {
        FirstAt(t, asked, j);
      } else {
        FirstAt(t, asked, |t|);
      }
    }
  }

  /** The copy of a property of an object with distinct keys, if it was made. */
  function CopyOf(props: seq<(string, Value)>, outs: seq<Out>, key: string): Option<Out>
    requires |outs| <= |props|
    decreases |outs|
  {
    if outs == [] then None
    else
      var n := |outs| - 1;
      if props[n].0 == key then Some(outs[n]) else CopyOf(props, outs[..n], key)
  }

  lemma {:induction false} LookupAssignAll(props: seq<(string, Value)>, outs: seq<Out>, key: string)
    requires |outs| <= |props|
    ensures Lookup(AssignAll(props, outs), key) == if key == PROTO then None else CopyOf(props, outs, key)
    decreases |outs|
  {
    hide Lookup, Assign;
    if outs == [] {
      LookupNothing(key);
    } else {
      var n := |outs| - 1;
      LookupAssignAll(props, outs[..n], key);
      LookupAssign(AssignAll(props, outs[..n]), props[n].0, outs[n], key);
    }
  }

  lemma LookupNothing(key: string)
    ensures Lookup([], key) == None
  {
  }

  lemma {:induction false} CopyOfAt(props: seq<(string, Value)>, outs: seq<Out>, key: string)
    requires |outs| <= |props| && forall i, j :: 0 <= i < j < |props| ==> props[i].0 != props[j].0
    ensures forall i :: 0 <= i < |outs| && props[i].0 == key ==> CopyOf(props, outs, key) == Some(outs[i])
    ensures (forall i :: 0 <= i < |outs| ==> props[i].0 != key) ==> CopyOf(props, outs, key) == None
    decreases |outs|
  {
    if outs != [] {
      CopyOfAt(props, outs[..|outs| - 1], key);
    }
  }

  lemma {:induction false} LookupMarked(props: seq<(string, Out)>, keys: nat, key: string)
    ensures Lookup(MarkTruncated(props, keys), key) ==
              if key == "_truncated" then Some(OBool(true))
              else if key == "_originalKeyCount" then Some(Count(keys))
              else Lookup(props, key)
  {
    hide Lookup, Assign;
    LookupAssign(props, "_truncated", OBool(true), key);
    LookupAssign(Assign(props, "_truncated", OBool(true)), "_originalKeyCount", Count(keys), key);
  }

  /**
    An object comes back with the copies made under their own keys, __proto__ aside, and with the two
    marks if and only if they are not all.
  */
  lemma ObjectVerdict(h: Heap, v: Value, lim: Limits, depth: nat, path: seq<Ref>, budget: int, key: string)
    requires Opens(h, v, lim, depth, path, budget) && NodeAt(h, v.ref).Record?
    requires var props := NodeAt(h, v.ref).props; forall i, j :: 0 <= i < j < |props| ==> props[i].0 != props[j].0
    ensures var props, outs := NodeAt(h, v.ref).props, CopiesIn(h, v, lim, depth, path, budget);
            var out := Clone(h, v, lim, depth, path, budget).out;
            && out.ORecord? && |outs| <= |props|
            && (|outs| < |props| ==>
                  && Lookup(out.props, "_truncated") == Some(OBool(true))
                  && Lookup(out.props, "_originalKeyCount") == Some(Count(|props|)))
            && (key == PROTO ==> Lookup(out.props, key) == None)
            && (key != PROTO && (|outs| == |props| || (key != "_truncated" && key != "_originalKeyCount")) ==>
                  && (forall i :: 0 <= i < |outs| && props[i].0 == key ==> Lookup(out.props, key) == Some(outs[i]))
                  && ((forall i :: 0 <= i < |outs| ==> props[i].0 != key) ==> Lookup(out.props, key) == None))
  {
    hide CloneSlots, AssignAll, Lookup, CopyOf, MarkTruncated;
    var props, outs := NodeAt(h, v.ref).props, CopiesIn(h, v, lim, depth, path, budget);
    LookupAssignAll(props, outs, key);
    CopyOfAt(props, outs, key);
    var copied := AssignAll(props, outs);
    var once := MarkTruncated(copied, |props|);
    LookupMarked(copied, |props|, key);
    LookupMarked(once, |props|, key);
    LookupMarked(copied, |props|, "_truncated");
    LookupMarked(copied, |props|, "_originalKeyCount");
    LookupMarked(once, |props|, "_truncated");
    LookupMarked(once, |props|, "_originalKeyCount");
  }
}
