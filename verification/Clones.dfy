/**
  cloneAndLimit as a function: the copy of a value in an arbitrary heap, shared or cyclic, under
  depth and width caps and one budget that every recursive call draws on.  The set of containers
  being visited is here the path from the root; CloneAndLimits has the code's mutable set and
  budget and is proved to compute this function.
*/
module Clones {
  import opened Wrappers
  import opened Strings

  type Ref = nat

  datatype Num = Finite(value: real) | NotFinite

  datatype Value =
    | Undefined
    | Null
    | Bool(flag: bool)
    | Number(num: Num)
    | BigInt(digits: string)
    | Text(text: string)
    | Symbol(description: Option<string>)
    | Function(name: string)
    | Object(ref: Ref)

  /** What a reference points to.  A Date has no ISO text when its time value is NaN. */
  datatype Node =
    | Date(iso: Option<string>)
    | RegExp(source: string, flags: string)
    | Error(name: string, message: string, stack: Option<string>)
    | Buffer(base64: string, length: nat)
    | Mapping(entries: seq<(Value, Value)>)
    | Collection(values: seq<Value>)
    | TypedArray(typeName: string, elements: seq<Num>)
    | ArrayBuffer(byteLength: nat)
    | List(items: seq<Value>)
    | Record(props: seq<(string, Value)>)

  type Heap = map<Ref, Node>

  /** The copy: the JSON-like data that cloneAndLimit builds. */
  datatype Out =
    | ONull
    | OBool(flag: bool)
    | ONum(num: Num)
    | OText(text: string)
    | OList(items: seq<Out>)
    | ORecord(props: seq<(string, Out)>)

  datatype Limits = Limits(maxDepth: nat, maxArrayItems: nat, maxObjectKeys: nat, maxStringLength: nat, maxPayloadSize: nat)

  /** One call of cloneAndLimitInternal: its arguments and what it returned. */
  datatype Visit = Visit(value: Value, depth: nat, path: seq<Ref>, budget: int, out: Out)

  datatype Copy = Copy(out: Out, left: int, trace: seq<Visit>)

  /** What a container's loop did: the copies it made and whether the budget stopped it. */
  datatype Copies = Copies(outs: seq<Out>, left: int, trace: seq<Visit>, stopped: bool)

  /** One turn of a container's loop: what it charges up front and the one or two values it copies. */
  datatype Slot = One(overhead: int, value: Value) | Two(overhead: int, key: Value, value: Value)

  const PRIMITIVE_COST: int := 8
  const ENTRY_OVERHEAD: int := 4
  const PROTO: string := "__proto__"

  // ---------------------------------------------------------------- leaves

  /** A reference the map does not list is an empty object. */
  function NodeAt(h: Heap, r: Ref): Node {
    if r in h then h[r] else Record([])
  }

  predicate IsContainer(n: Node) {
    n.Mapping? || n.Collection? || n.List? || n.Record?
  }

  function Count(n: nat): Out {
    ONum(Finite(n as real))
  }

  function TruncateString(s: string, max: nat): string {
    if |s| <= max then s else s[..max] + "...[truncated, " + Decimal(|s|) + " chars]"
  }

  function Min(a: int, b: int): int {
    if a <= b then a else b
  }

  /** A string may use what is left of the budget and no more, before its truncation note. */
  function StringCap(lim: Limits, budget: int): nat {
    Min(lim.maxStringLength, if budget > 0 then budget else 0)
  }

  /** Everything that is not a heap reference, with its cost. */
  function Leaf(v: Value, lim: Limits, budget: int): (Out, int)
    requires !v.Object?
  {
    match v
    case Undefined => (ONull, PRIMITIVE_COST)
    case Null => (ONull, PRIMITIVE_COST)
    case Bool(b) => (OBool(b), PRIMITIVE_COST)
    case Number(n) => (if n.Finite? then ONum(n) else ONull, PRIMITIVE_COST)
    case BigInt(d) => (ORecord([("_type", OText("BigInt")), ("value", OText(d))]), |d| + 20)
    case Text(s) => var t := TruncateString(s, StringCap(lim, budget)); (OText(t), |t|)
    case Symbol(d) => (OText("[Symbol: " + (if d.Some? then d.value else "") + "]"), 0)
    case Function(name) => (OText("[Function: " + (if name != "" then name else "anonymous") + "]"), 0)
  }

  function Sample(elements: seq<Num>): seq<Out> {
    seq(|elements|, i requires 0 <= i < |elements| => ONum(elements[i]))
  }

  /** Objects that are summarised without looking inside; none of them costs anything. */
  function Summary(n: Node, lim: Limits): Out
    requires !IsContainer(n)
  {
    match n
    case Date(iso) => if iso.Some? then OText(iso.value) else OText("[Serialization error: Invalid time value]")
    case RegExp(source, flags) => ORecord([("_type", OText("RegExp")), ("source", OText(source)), ("flags", OText(flags))])
    case Error(name, message, stack) =>
      ORecord([("_type", OText("Error")), ("name", OText(name)), ("message", OText(message)),
               ("stack", OText(if stack.Some? then stack.value else ""))])
    case Buffer(base64, length) =>
      ORecord([("_type", OText("Buffer")), ("encoding", OText("base64")),
               ("data", OText(TruncateString(base64, lim.maxStringLength))), ("length", Count(length))])
    case TypedArray(name, elements) =>
      ORecord([("_type", OText(name)), ("length", Count(|elements|)),
               ("sample", OList(Sample(elements[..Min(|elements|, lim.maxArrayItems)])))])
    case ArrayBuffer(length) => ORecord([("_type", OText("ArrayBuffer")), ("byteLength", Count(length))])
  }

  // ---------------------------------------------------------------- containers

  /** The loop turns a container would take if the budget never ran out. */
  function Slots(n: Node, lim: Limits): (s: seq<Slot>)
    requires IsContainer(n)
    ensures forall i :: 0 <= i < |s| ==> s[i].overhead >= ENTRY_OVERHEAD
  {
    match n
    case Mapping(entries) =>
      seq(Min(|entries|, lim.maxArrayItems), i requires 0 <= i < |entries| => Two(ENTRY_OVERHEAD, entries[i].0, entries[i].1))
    case Collection(values) =>
      seq(Min(|values|, lim.maxArrayItems), i requires 0 <= i < |values| => One(ENTRY_OVERHEAD, values[i]))
    case List(items) =>
      seq(Min(|items|, lim.maxArrayItems), i requires 0 <= i < |items| => One(ENTRY_OVERHEAD, items[i]))
    case Record(props) =>
      seq(Min(|props|, lim.maxObjectKeys), i requires 0 <= i < |props| => One(ENTRY_OVERHEAD + |props[i].0|, props[i].1))
  }

  function IndexOfKey(props: seq<(string, Out)>, key: string): (i: nat)
    ensures i <= |props|
    ensures i < |props| ==> props[i].0 == key
    ensures forall k :: 0 <= k < i ==> props[k].0 != key
  {
    if props == [] || props[0].0 == key then 0 else 1 + IndexOfKey(props[1..], key)
  }

  /**
    Assignment to a property of a plain object: an existing key keeps its place, a new one goes
    last, and __proto__ reaches the inherited setter, so no property is stored.
  */
  function Assign(props: seq<(string, Out)>, key: string, out: Out): seq<(string, Out)> {
    var i := IndexOfKey(props, key);
    if key == PROTO then props
    else if i < |props| then props[i := (key, out)]
    else props + [(key, out)]
  }

  function AssignAll(props: seq<(string, Value)>, outs: seq<Out>): seq<(string, Out)>
    requires |outs| <= |props|
    decreases |outs|
  {
    if outs == [] then []
    else
      var n := |outs| - 1;
      Assign(AssignAll(props, outs[..n]), props[n].0, outs[n])
  }

  function MarkTruncated(props: seq<(string, Out)>, keys: nat): seq<(string, Out)> {
    Assign(Assign(props, "_truncated", OBool(true)), "_originalKeyCount", Count(keys))
  }

  function Tagged(tag: string, size: nat, field: string, outs: seq<Out>): Out {
    ORecord([("_type", OText(tag)), ("size", Count(size)), (field, OList(outs))] +
            if size > |outs| then [("_truncated", OBool(true))] else [])
  }

  /** The container built from the copies its loop made. */
  function Assemble(n: Node, lim: Limits, c: Copies): Out
    requires IsContainer(n) && |c.outs| <= |Slots(n, lim)|
  {
    match n
    case Mapping(entries) => Tagged("Map", |entries|, "entries", c.outs)
    case Collection(values) => Tagged("Set", |values|, "values", c.outs)
    case List(items) =>
      if |items| <= lim.maxArrayItems && !c.stopped then OList(c.outs)
      else ORecord([("_items", OList(c.outs)), ("_truncated", OBool(true)), ("_originalLength", Count(|items|))])
    case Record(props) =>
      var copied := AssignAll(props, c.outs);
      var stopped := if c.stopped then MarkTruncated(copied, |props|) else copied;
      ORecord(if |props| > lim.maxObjectKeys then MarkTruncated(stopped, |props|) else stopped)
  }

  // ---------------------------------------------------------------- the copy

  /** Levels still open below a call at this depth. */
  function Levels(lim: Limits, depth: nat): nat {
    if depth > lim.maxDepth then 0 else lim.maxDepth - depth + 1
  }

  /** One call of cloneAndLimitInternal; its own visit comes first in the trace. */
  function Clone(h: Heap, v: Value, lim: Limits, depth: nat, path: seq<Ref>, budget: int): (c: Copy)
    decreases Levels(lim, depth), 1
  {
    var body := CloneBody(h, v, lim, depth, path, budget);
    Copy(body.out, body.left, [Visit(v, depth, path, budget, body.out)] + body.trace)
  }

  function CloneBody(h: Heap, v: Value, lim: Limits, depth: nat, path: seq<Ref>, budget: int): (c: Copy)
    decreases Levels(lim, depth), 0
  {
    if budget <= 0 then Copy(OText("[Payload size limit]"), budget, [])
    else if depth > lim.maxDepth then Copy(OText("[Depth limit]"), budget, [])
    else if !v.Object? then
      var leaf := Leaf(v, lim, budget);
      Copy(leaf.0, budget - leaf.1, [])
    else
      var n := NodeAt(h, v.ref);
      if !IsContainer(n) then Copy(Summary(n, lim), budget, [])
      else if v.ref in path then Copy(OText("[Circular]"), budget, [])
      else
        var c := CloneSlots(h, Slots(n, lim), lim, depth + 1, path + [v.ref], budget);
        Copy(Assemble(n, lim, c), c.left, c.trace)
  }

  /** One loop turn after its charge. */
  function CloneSlot(h: Heap, s: Slot, lim: Limits, depth: nat, path: seq<Ref>, budget: int): (c: Copy)
    decreases Levels(lim, depth), 2
  {
    if s.One? then Clone(h, s.value, lim, depth, path, budget)
    else
      var key := Clone(h, s.key, lim, depth, path, budget);
      var value := Clone(h, s.value, lim, depth, path, key.left);
      Copy(OList([key.out, value.out]), value.left, key.trace + value.trace)
  }

  function CloneSlots(h: Heap, slots: seq<Slot>, lim: Limits, depth: nat, path: seq<Ref>, budget: int): (c: Copies)
    ensures |c.outs| <= |slots|
    ensures c.stopped <==> |c.outs| < |slots|
    decreases Levels(lim, depth), 3, |slots|
  {
    if slots == [] then Copies([], budget, [], false)
    else if budget <= 0 then Copies([], budget, [], true)
    else
      var first := CloneSlot(h, slots[0], lim, depth, path, budget - slots[0].overhead);
      var rest := CloneSlots(h, slots[1..], lim, depth, path, first.left);
      Copies([first.out] + rest.outs, rest.left, first.trace + rest.trace, rest.stopped)
  }

  /** The exported function: a fresh budget and nothing visited yet. */
  function CloneAndLimit(h: Heap, v: Value, lim: Limits): Copy {
    Clone(h, v, lim, 0, [], lim.maxPayloadSize)
  }
}
