/** The process-wide Lamport counter and its ceiling. */
module EventClocks {
  const MAX_SAFE_INTEGER: int := 9007199254740991

  /** What a caller may hand to merge: an integral number, or anything else. */
  datatype Received = Integral(n: int) | NotAnInteger

  function TickOf(value: int): int {
    if value >= MAX_SAFE_INTEGER then MAX_SAFE_INTEGER else value + 1
  }

  function MergeOf(value: int, received: Received): int {
    if received.Integral? && -MAX_SAFE_INTEGER <= received.n <= MAX_SAFE_INTEGER && received.n > 0 && received.n > value
    then TickOf(received.n)
    else TickOf(value)
  }

  class EventClock {
    var value: int

    ghost predicate Valid()
      reads this
    {
      0 <= value <= MAX_SAFE_INTEGER
    }

    constructor ()
      ensures Valid() && value == 0
    {
      value := 0;
    }

    method Tick() returns (r: int)
      requires Valid()
      modifies this
      ensures Valid() && r == value == TickOf(old(value))
    {
      if value >= MAX_SAFE_INTEGER {
        value := MAX_SAFE_INTEGER;
        return value;
      }
      value := value + 1;
      return value;
    }

    method Merge(received: Received) returns (r: int)
      requires Valid()
      modifies this
      ensures Valid() && r == value == MergeOf(old(value), received)
    {
      if received.Integral? && -MAX_SAFE_INTEGER <= received.n <= MAX_SAFE_INTEGER && received.n > 0 && received.n > value {
        value := received.n;
      }
      r := Tick();
    }
  }

  /** Every stamp is new, and later than all before it, exactly below the ceiling. */
  lemma TickIncreasesIff(value: int)
    requires 0 <= value <= MAX_SAFE_INTEGER
    ensures TickOf(value) > value <==> value < MAX_SAFE_INTEGER
  {
  }

  /** The Lamport rule max(value, received) + 1, capped; no value can lower or overrun the clock. */
  lemma MergeIsLamportRule(value: int, n: int)
    requires 0 <= value <= MAX_SAFE_INTEGER
    ensures var top := if 0 < n <= MAX_SAFE_INTEGER && n > value then n else value;
            MergeOf(value, Integral(n)) == if top == MAX_SAFE_INTEGER then top else top + 1
    ensures value <= MergeOf(value, Integral(n)) <= MAX_SAFE_INTEGER
  {
  }
}
