/** The sliding-window rate limiter: how many captures any window can hold, and what its drop counts add up to. */
module RateLimiters {
  import opened Wrappers

  const MAX_SAFE_INTEGER: int := 9007199254740991

  datatype Limits = Limits(maxCaptures: nat, windowMs: int)

  datatype Limiter = Limiter(timestamps: seq<int>, droppedCount: int, droppedSinceLastAcquire: int,
                             firstDrop: Option<int>, lastDrop: Option<int>)

  datatype Summary = Summary(droppedCount: int, firstDropMs: int, lastDropMs: int)

  // ---------------------------------------------------------------- operations

  /** The timestamps strictly after the cutoff, in order. */
  function After(timestamps: seq<int>, cutoff: int): (r: seq<int>)
    ensures |r| <= |timestamps|
  {
    if timestamps == [] then []
    else (if timestamps[0] > cutoff then [timestamps[0]] else []) + After(timestamps[1..], cutoff)
  }

  function Increment(n: int): int {
    if n < MAX_SAFE_INTEGER then n + 1 else n
  }

  /** Whether tryAcquire grants at this time. */
  predicate Grants(l: Limiter, now: int, limits: Limits) {
    |After(l.timestamps, now - limits.windowMs)| < limits.maxCaptures
  }

  function Acquired(l: Limiter, now: int, limits: Limits): Limiter {
    var kept := After(l.timestamps, now - limits.windowMs);
    if Grants(l, now, limits) then l.(timestamps := kept + [now])
    else Limiter(kept, Increment(l.droppedCount), Increment(l.droppedSinceLastAcquire),
                 if l.firstDrop.None? then Some(now) else l.firstDrop, Some(now))
  }

  function DropSummary(l: Limiter): Option<Summary>
    requires l.droppedSinceLastAcquire != 0 ==> l.firstDrop.Some? && l.lastDrop.Some?
  {
    if l.droppedSinceLastAcquire == 0 then None
    else Some(Summary(l.droppedSinceLastAcquire, l.firstDrop.value, l.lastDrop.value))
  }

  function ResetDrops(l: Limiter): Limiter {
    if l.droppedSinceLastAcquire == 0 then l
    else l.(droppedSinceLastAcquire := 0, firstDrop := None, lastDrop := None)
  }

  const EMPTY: Limiter := Limiter([], 0, 0, None, None)

  // ---------------------------------------------------------------- runs

  datatype Op = Acquire(now: int) | TakeSummary

  /** grants and drops are the times of all grants and drops so far, waiting the drops not yet summarised. */
  datatype Run = Run(limiter: Limiter, now: int, grants: seq<int>, drops: seq<int>, waiting: seq<int>, reported: int)

  predicate Allowed(r: Run, op: Op) {
    op.Acquire? ==> op.now >= r.now
  }

  function Next(r: Run, op: Op, limits: Limits): Run {
    match op
    case Acquire(now) =>
      var l := Acquired(r.limiter, now, limits);
      if Grants(r.limiter, now, limits) then r.(limiter := l, now := now, grants := r.grants + [now])
      else r.(limiter := l, now := now, drops := r.drops + [now], waiting := r.waiting + [now])
    case TakeSummary =>
      r.(limiter := ResetDrops(r.limiter), waiting := if r.limiter.droppedSinceLastAcquire == 0 then r.waiting else [],
         reported := r.reported + r.limiter.droppedSinceLastAcquire)
  }

  function RunOf(ops: seq<Op>, start: int, limits: Limits): Run {
    if ops == [] then Run(EMPTY, start, [], [], [], 0)
    else Next(RunOf(ops[..|ops| - 1], start, limits), ops[|ops| - 1], limits)
  }

  /** The clock never goes back. */
  predicate Clocked(ops: seq<Op>, start: int, limits: Limits) {
    ops == [] || (Clocked(ops[..|ops| - 1], start, limits) && Allowed(RunOf(ops[..|ops| - 1], start, limits), ops[|ops| - 1]))
  }

  // ---------------------------------------------------------------- invariants

  predicate Sorted(s: seq<int>) {
    forall i, j :: 0 <= i < j < |s| ==> s[i] <= s[j]
  }

  /** Any maxCaptures + 1 grants in a row span at least a window. */
  predicate Spaced(grants: seq<int>, limits: Limits) {
    forall i :: 0 <= i && i + limits.maxCaptures < |grants| ==> grants[i + limits.maxCaptures] - grants[i] >= limits.windowMs
  }

  /** The limiter remembers the latest grants, and all it forgot are a window old. */
  predicate Remembers(timestamps: seq<int>, grants: seq<int>, cutoff: int) {
    && |timestamps| <= |grants|
    && grants[|grants| - |timestamps|..] == timestamps
    && forall i :: 0 <= i < |grants| - |timestamps| ==> grants[i] <= cutoff
  }

  predicate Window(r: Run, limits: Limits) {
    && Sorted(r.grants) && Spaced(r.grants, limits)
    && (forall i :: 0 <= i < |r.grants| ==> r.grants[i] <= r.now)
    && Remembers(r.limiter.timestamps, r.grants, r.now - limits.windowMs)
  }

  function FirstAfter(times: seq<int>, from: int): (k: nat)
    ensures k <= |times| && (k < |times| ==> times[k] > from) && forall i :: 0 <= i < k ==> times[i] <= from
  {
    if times == [] || times[0] > from then 0 else 1 + FirstAfter(times[1..], from)
  }

  /** On sorted times the filter drops a prefix. */
  lemma {:induction false} AfterIsSuffix(timestamps: seq<int>, cutoff: int)
    requires Sorted(timestamps)
    ensures After(timestamps, cutoff) == timestamps[FirstAfter(timestamps, cutoff)..]
  {
    if timestamps != [] {
      if timestamps[0] > cutoff {
        AllAfter(timestamps, cutoff);
      } else {
        AfterIsSuffix(timestamps[1..], cutoff);
      }
    }
  }

  lemma {:induction false} AllAfter(timestamps: seq<int>, cutoff: int)
    requires forall i :: 0 <= i < |timestamps| ==> timestamps[i] > cutoff
    ensures After(timestamps, cutoff) == timestamps
  {
    if timestamps != [] {
      AllAfter(timestamps[1..], cutoff);
    }
  }

  /** What was remembered and is still in the window is what is remembered next. */
  lemma ForgetMore(timestamps: seq<int>, grants: seq<int>, cutoff: int, later: int)
    requires Sorted(grants) && Remembers(timestamps, grants, cutoff) && cutoff <= later
    ensures Remembers(After(timestamps, later), grants, later)
  {
    hide After;
    var n := |grants| - |timestamps|;
    assert forall i :: 0 <= i < |timestamps| ==> timestamps[i] == grants[n + i];
    AfterIsSuffix(timestamps, later);
    var k := FirstAfter(timestamps, later);
    assert grants[n + k..] == timestamps[k..];
    forall i | 0 <= i < n + k ensures grants[i] <= later {
      if i >= n { assert timestamps[i - n] == grants[i]; }
    }
  }

  /** A grant comes at least a window after the one maxCaptures before it. */
  lemma GrantSpaced(grants: seq<int>, kept: seq<int>, now: int, limits: Limits)
    requires Spaced(grants, limits) && Remembers(kept, grants, now - limits.windowMs) && |kept| < limits.maxCaptures
    ensures Spaced(grants + [now], limits)
  {
    forall i | 0 <= i && i + limits.maxCaptures < |grants| + 1
      ensures (grants + [now])[i + limits.maxCaptures] - (grants + [now])[i] >= limits.windowMs
    {
      if i + limits.maxCaptures < |grants| {
        assert grants[i + limits.maxCaptures] - grants[i] >= limits.windowMs;
      }
    }
  }

  lemma AcquireWindow(r: Run, now: int, limits: Limits)
    requires Window(r, limits) && now >= r.now
    ensures Window(Next(r, Acquire(now), limits), limits)
  {
    hide After, Spaced;
    ForgetMore(r.limiter.timestamps, r.grants, r.now - limits.windowMs, now - limits.windowMs);
    var kept := After(r.limiter.timestamps, now - limits.windowMs);
    if Grants(r.limiter, now, limits) {
      GrantSpaced(r.grants, kept, now, limits);
      assert (r.grants + [now])[|r.grants| - |kept|..] == kept + [now];
    }
  }

  lemma {:induction false} RunWindow(ops: seq<Op>, start: int, limits: Limits)
    requires Clocked(ops, start, limits)
    ensures Window(RunOf(ops, start, limits), limits)
    decreases |ops|
  {
    hide Window, Next;
    if ops == [] {
      StartWindow(start, limits);
    } else {
      var n := |ops| - 1;
      RunWindow(ops[..n], start, limits);
      var p := RunOf(ops[..n], start, limits);
      if ops[n].Acquire? { AcquireWindow(p, ops[n].now, limits); } else { SummaryWindow(p, limits); }
    }
  }

  lemma StartWindow(start: int, limits: Limits)
    ensures Window(Run(EMPTY, start, [], [], [], 0), limits)
  {
  }

  lemma SummaryWindow(r: Run, limits: Limits)
    requires Window(r, limits)
    ensures Window(Next(r, TakeSummary, limits), limits)
  {
  }

  // ---------------------------------------------------------------- windows

  /** How many of the times lie in the half-open window (from, to]. */
  function CountIn(times: seq<int>, from: int, to: int): nat {
    if times == [] then 0
    else
      var n := |times| - 1;
      CountIn(times[..n], from, to) + if from < times[n] <= to then 1 else 0
  }

  lemma {:induction false} CountUpTo(times: seq<int>, from: int, to: int, first: nat, most: nat)
    requires forall i :: 0 <= i < |times| && from < times[i] <= to ==> first <= i < first + most
    ensures CountIn(times, from, to) <= most
    ensures |times| >= first ==> CountIn(times, from, to) <= |times| - first
    ensures |times| <= first ==> CountIn(times, from, to) == 0
  {
    if times != [] {
      var n := |times| - 1;
      CountUpTo(times[..n], from, to, first, most);
    }
  }

  /** Times more than maxCaptures past the first in the window are outside it. */
  lemma SpacedWindow(grants: seq<int>, limits: Limits, from: int, i: nat)
    requires Sorted(grants) && Spaced(grants, limits) && i < |grants|
    requires from < grants[i] <= from + limits.windowMs
    ensures FirstAfter(grants, from) <= i < FirstAfter(grants, from) + limits.maxCaptures
  {
    hide FirstAfter;
    var first := FirstAfter(grants, from);
    if first + limits.maxCaptures < |grants| {
      assert grants[first + limits.maxCaptures] - grants[first] >= limits.windowMs;
    }
  }

  /** With a clock that never goes back, no window of windowMs ever holds more than maxCaptures grants. */
  lemma NoWindowOverfull(ops: seq<Op>, start: int, limits: Limits, from: int)
    requires Clocked(ops, start, limits)
    ensures CountIn(RunOf(ops, start, limits).grants, from, from + limits.windowMs) <= limits.maxCaptures
  {
    hide RunOf, Clocked, CountIn, FirstAfter;
    RunWindow(ops, start, limits);
    var grants := RunOf(ops, start, limits).grants;
    var first := FirstAfter(grants, from);
    forall i | 0 <= i < |grants| && from < grants[i] <= from + limits.windowMs
      ensures first <= i < first + limits.maxCaptures
    {
      SpacedWindow(grants, limits, from, i);
    }
    CountUpTo(grants, from, from + limits.windowMs, first, limits.maxCaptures);
  }

  /** A request is granted exactly when the window that ends with it is not yet full. */
  lemma GrantedIffRoom(ops: seq<Op>, start: int, limits: Limits, now: int)
    requires Clocked(ops, start, limits) && now >= RunOf(ops, start, limits).now
    ensures var r := RunOf(ops, start, limits);
            Grants(r.limiter, now, limits) <==> CountIn(r.grants, now - limits.windowMs, now) < limits.maxCaptures
  {
    hide RunOf, Clocked, CountIn, After, Spaced;
    RunWindow(ops, start, limits);
    var r := RunOf(ops, start, limits);
    var cutoff := now - limits.windowMs;
    ForgetMore(r.limiter.timestamps, r.grants, r.now - limits.windowMs, cutoff);
    var kept := After(r.limiter.timestamps, cutoff);
    KeptAreAfter(r.limiter.timestamps, cutoff);
    var first := |r.grants| - |kept|;
    assert forall i :: first <= i < |r.grants| ==> r.grants[i] == kept[i - first];
    CountSuffix(r.grants, cutoff, now, first);
  }

  lemma {:induction false} KeptAreAfter(timestamps: seq<int>, cutoff: int)
    ensures forall i :: 0 <= i < |After(timestamps, cutoff)| ==> After(timestamps, cutoff)[i] > cutoff
  {
    if timestamps != [] {
      KeptAreAfter(timestamps[1..], cutoff);
    }
  }

  lemma {:induction false} CountSuffix(times: seq<int>, from: int, to: int, first: nat)
    requires forall i :: 0 <= i < |times| ==> (from < times[i] <= to <==> i >= first)
    ensures CountIn(times, from, to) == if |times| <= first then 0 else |times| - first
  {
    if times != [] {
      CountSuffix(times[..|times| - 1], from, to, first);
    }
  }

  // ---------------------------------------------------------------- drops

  function Saturated(n: int): int {
    if n <= MAX_SAFE_INTEGER then n else MAX_SAFE_INTEGER
  }

  predicate Drops(r: Run) {
    && r.limiter.droppedCount == Saturated(|r.drops|)
    && r.limiter.droppedSinceLastAcquire == Saturated(|r.waiting|)
    && r.limiter.firstDrop == (if r.waiting == [] then None else Some(r.waiting[0]))
    && r.limiter.lastDrop == (if r.waiting == [] then None else Some(r.waiting[|r.waiting| - 1]))
    && 0 <= r.reported && r.reported + |r.waiting| <= |r.drops|
    && (|r.drops| <= MAX_SAFE_INTEGER ==> r.reported + |r.waiting| == |r.drops|)
  }

  lemma DropsNext(r: Run, op: Op, limits: Limits)
    requires Drops(r)
    ensures Drops(Next(r, op, limits))
  {
    hide After;
  }

  /**
    Below saturation the reported summaries and the drops still waiting add up to all drops, and
    the waiting ones are dated by their first and last.
  */
  lemma {:induction false} DropsAreConserved(ops: seq<Op>, start: int, limits: Limits)
    ensures var r := RunOf(ops, start, limits);
            && Drops(r)
            && (|r.drops| <= MAX_SAFE_INTEGER ==>
                  r.reported + r.limiter.droppedSinceLastAcquire == r.limiter.droppedCount == |r.drops|)
    decreases |ops|
  {
    hide Next;
    if ops != [] {
      var n := |ops| - 1;
      DropsAreConserved(ops[..n], start, limits);
      DropsNext(RunOf(ops[..n], start, limits), ops[n], limits);
    }
  }

  // ---------------------------------------------------------------- the class

  class RateLimiter {
    const maxCaptures: nat
    const windowMs: int
    var timestamps: seq<int>
    var droppedCount: int
    var droppedSinceLastAcquire: int
    var firstDropTimestamp: Option<int>
    var lastDropTimestamp: Option<int>

    ghost function View(): Limiter
      reads this
    {
      Limiter(timestamps, droppedCount, droppedSinceLastAcquire, firstDropTimestamp, lastDropTimestamp)
    }

    /** Drops that wait to be summarised are dated. */
    ghost predicate Valid()
      reads this
    {
      droppedSinceLastAcquire != 0 ==> firstDropTimestamp.Some? && lastDropTimestamp.Some?
    }

    constructor (maxCaptures: Option<nat>, windowMs: Option<int>)
      ensures Valid() && View() == EMPTY
      ensures this.maxCaptures == (if maxCaptures.Some? then maxCaptures.value else 10)
      ensures this.windowMs == (if windowMs.Some? then windowMs.value else 60000)
    {
      this.maxCaptures := if maxCaptures.Some? then maxCaptures.value else 10;
      this.windowMs := if windowMs.Some? then windowMs.value else 60000;
      timestamps, droppedCount, droppedSinceLastAcquire := [], 0, 0;
      firstDropTimestamp, lastDropTimestamp := None, None;
    }

    method TryAcquire(now: int) returns (granted: bool)
      requires Valid()
      modifies this
      ensures Valid()
      ensures View() == Acquired(old(View()), now, Limits(maxCaptures, windowMs))
      ensures granted == Grants(old(View()), now, Limits(maxCaptures, windowMs))
    {
      var cutoff := now - windowMs;
      timestamps := After(timestamps, cutoff);
      if |timestamps| < maxCaptures {
        timestamps := timestamps + [now];
        return true;
      }
      if droppedCount < MAX_SAFE_INTEGER {
        droppedCount := droppedCount + 1;
      }
      if droppedSinceLastAcquire < MAX_SAFE_INTEGER {
        droppedSinceLastAcquire := droppedSinceLastAcquire + 1;
      }
      if firstDropTimestamp.None? {
        firstDropTimestamp := Some(now);
      }
      lastDropTimestamp := Some(now);
      return false;
    }

    method GetAndResetDropSummary() returns (summary: Option<Summary>)
      requires Valid()
      modifies `droppedSinceLastAcquire, `firstDropTimestamp, `lastDropTimestamp
      ensures Valid() && View() == ResetDrops(old(View())) && summary == DropSummary(old(View()))
    {
      if droppedSinceLastAcquire == 0 {
        return None;
      }
      summary := Some(Summary(droppedSinceLastAcquire, firstDropTimestamp.value, lastDropTimestamp.value));
      droppedSinceLastAcquire := 0;
      firstDropTimestamp := None;
      lastDropTimestamp := None;
    }

    method Reset()
      modifies this
      ensures Valid() && View() == EMPTY
    {
      timestamps, droppedCount, droppedSinceLastAcquire := [], 0, 0;
      firstDropTimestamp, lastDropTimestamp := None, None;
    }
  }
}
