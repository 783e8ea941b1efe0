/**
  The adaptive guard that disarms the debugger under pause load, as a state machine over seconds
  ticking, pauses, mode switches, idle time-outs and shutdown.
*/
module InspectorGuards {
  import opened Wrappers

  const RECOVERY_MS: int := 300000
  const WINDOW_MS: int := 60000
  const SUSTAINED_SECONDS: nat := 10

  datatype Limits = Limits(enabled: bool, maxPausesPerSecond: nat, maxPauseMsPerMinute: real)

  /** armed is pause-on-exceptions; opens, in the operations below, is whether an inspector session can be had. */
  datatype Guard = Guard(limits: Limits, pauses: nat, overSeconds: nat, wallMs: real, windowStart: int,
                         trippedAt: Option<int>, session: bool, initialized: bool, armed: bool,
                         capturing: bool, available: bool)

  datatype Op =
    | PauseSeen
    | PauseDone(elapsed: real, at: int)
    | Tick(at: int)
    | Ensure(opens: bool)
    | IdleTimeout
    | ApplyMode(capture: bool, limits: Limits, at: int, opens: bool)
    | Rearm(at: int, opens: bool)
    | Shutdown

  // ---------------------------------------------------------------- operations

  function Trip(g: Guard, at: int): Guard {
    if g.trippedAt.Some? then g
    else g.(trippedAt := Some(at), armed := g.armed && !g.session)
  }

  /** ensureDebuggerActive, opening the session on first use. */
  function EnsureActive(g: Guard, opens: bool): Guard {
    if g.trippedAt.Some? || !g.available then g
    else if !g.initialized && !opens then g.(initialized := true, available := false)
    else
      var h := if g.initialized then g else g.(initialized := true, session := true);
      if h.session then h.(armed := true) else h
  }

  function Reset(g: Guard, at: int): Guard {
    g.(trippedAt := None, overSeconds := 0, pauses := 0, wallMs := 0.0, windowStart := at)
  }

  function RearmGuard(g: Guard, at: int, opens: bool): Guard {
    var h := Reset(g, at);
    if h.capturing then EnsureActive(h.(available := true), opens) else h
  }

  /** The guard's opinion of the second that just ended. */
  predicate Overloaded(g: Guard) {
    || g.pauses > g.limits.maxPausesPerSecond
    || (g.trippedAt.Some? && g.wallMs > g.limits.maxPauseMsPerMinute)
  }

  function Recover(g: Guard, at: int, opens: bool): Guard {
    if g.trippedAt.None? then g.(pauses := 0)
    else if Overloaded(g) then g.(trippedAt := Some(at), pauses := 0, wallMs := 0.0, windowStart := at)
    else if at - g.trippedAt.value >= RECOVERY_MS then RearmGuard(g, at, opens)
    else g.(pauses := 0)
  }

  /** evaluatePauseRateGuard.  Ticking needs a session, so recovery never has to open one. */
  function TickGuard(g: Guard, at: int): Guard {
    if !g.limits.enabled then g.(pauses := 0)
    else if g.trippedAt.Some? then Recover(g, at, false)
    else
      var h := g.(overSeconds := if Overloaded(g) then g.overSeconds + 1 else 0, pauses := 0);
      if h.overSeconds >= SUSTAINED_SECONDS then Trip(h, at) else h
  }

  function WallTime(g: Guard, elapsed: real, at: int): Guard {
    if !g.limits.enabled || g.trippedAt.Some? then g
    else
      var h := if at - g.windowStart > WINDOW_MS then g.(windowStart := at, wallMs := 0.0) else g;
      var k := h.(wallMs := h.wallMs + elapsed);
      if k.wallMs > k.limits.maxPauseMsPerMinute then Trip(k, at) else k
  }

  /** applyModeState; capture is captureLocalVariables with a local-variables mode other than none. */
  function ApplyModeState(g: Guard, capture: bool, limits: Limits, at: int, opens: bool): Guard {
    var h := g.(capturing := capture, limits := limits);
    if !capture then h.(armed := false, available := false)
    else
      var k := h.(available := true);
      if !limits.enabled && k.trippedAt.Some? then RearmGuard(k, at, opens) else k
  }

  function Apply(g: Guard, op: Op): Guard {
    match op
    case PauseSeen => g.(pauses := g.pauses + 1)
    case PauseDone(elapsed, at) => WallTime(g, elapsed, at)
    case Tick(at) => TickGuard(g, at)
    case Ensure(opens) => EnsureActive(g, opens)
    case IdleTimeout => if g.armed && g.session then g.(armed := false) else g
    case ApplyMode(capture, limits, at, opens) => ApplyModeState(g, capture, limits, at, opens)
    case Rearm(at, opens) => RearmGuard(g, at, opens)
    case Shutdown => g.(session := false, armed := false, available := false)
  }

  // ---------------------------------------------------------------- runs

  /** What the ticks that evaluated the guard concluded, oldest first. */
  datatype Verdict = Verdict(at: int, overloaded: bool)

  /**
    since is how many conclusions there were when the guard last started over, seen the pauses since
    the last second evaluated, and window the pause times counted since the window opened.
  */
  datatype Run = Run(guard: Guard, now: int, verdicts: seq<Verdict>, since: nat, seen: nat, window: seq<real>, windowAt: int)

  /** The guard starts over: re-armed by hand, or a trip lifted. */
  predicate StartsOver(g: Guard, op: Op) {
    op.Rearm? || (g.trippedAt.Some? && Apply(g, op).trippedAt.None?)
  }

  function TimeOf(op: Op, now: int): int {
    match op
    case PauseDone(_, at) => at
    case Tick(at) => at
    case ApplyMode(_, _, at, _) => at
    case Rearm(at, _) => at
    case _ => now
  }

  /** A tick happens only while the guard's one-second timer runs, that is, with a session. */
  predicate Allowed(r: Run, op: Op) {
    TimeOf(op, r.now) >= r.now && (op.Tick? ==> r.guard.session && r.guard.initialized)
  }

  function Next(r: Run, op: Op): Run {
    var verdicts := if op.Tick? && r.guard.limits.enabled then r.verdicts + [Verdict(op.at, Overloaded(r.guard))] else r.verdicts;
    Run(Apply(r.guard, op), TimeOf(op, r.now), verdicts, if StartsOver(r.guard, op) then |verdicts| else r.since,
        if op.Tick? || StartsOver(r.guard, op) then 0 else if op.PauseSeen? then r.seen + 1 else r.seen,
        if Reopens(r.guard, op) then [] else if Counts(r, op) then (if op.at - r.windowAt > 60000 then [] else r.window) + [op.elapsed] else r.window,
        if Reopens(r.guard, op) || (Counts(r, op) && op.at - r.windowAt > 60000) then TimeOf(op, r.now) else r.windowAt)
  }

  /** A pause is timed while the guard is on and not tripped. */
  predicate Counts(r: Run, op: Op) {
    op.PauseDone? && r.guard.limits.enabled && r.guard.trippedAt.None?
  }

  /** A new window opens when the guard starts over, and when an overloaded second prolongs a trip. */
  predicate Reopens(g: Guard, op: Op) {
    StartsOver(g, op) || (op.Tick? && g.limits.enabled && g.trippedAt.Some? && Overloaded(g))
  }

  ghost predicate IsRun(start: Run, ops: seq<Op>)
    decreases |ops|
  {
    ops == [] || (IsRun(start, ops[..|ops| - 1]) && Allowed(After(start, ops[..|ops| - 1]), ops[|ops| - 1]))
  }

  function After(start: Run, ops: seq<Op>): Run {
    if ops == [] then start else Next(After(start, ops[..|ops| - 1]), ops[|ops| - 1])
  }

  /** As constructed: nothing opened, armed or counted. */
  function Start(limits: Limits, capture: bool, now: int): Run {
    Run(Guard(limits, 0, 0, 0.0, 0, None, false, false, false, capture, capture), now, [], 0, 0, [], 0)
  }

  ghost predicate LastOverloaded(verdicts: seq<Verdict>, k: nat) {
    k <= |verdicts| && forall i :: |verdicts| - k <= i < |verdicts| ==> verdicts[i].overloaded
  }

  /** Armed only with a session, with locals available and wanted, and with the guard not tripped. */
  predicate Armable(g: Guard) {
    && (g.armed ==> g.session && g.initialized && g.available && g.trippedAt.None?)
    && (g.available ==> g.capturing)
  }

  ghost predicate Good(r: Run) {
    && Armable(r.guard)
    && (r.guard.trippedAt.None? ==> LastOverloaded(r.verdicts, r.guard.overSeconds))
    && (forall i :: 0 <= i < |r.verdicts| ==> r.verdicts[i].at <= r.now)
    && (r.guard.trippedAt.Some? ==>
          r.guard.trippedAt.value <= r.now
          && forall i :: 0 <= i < |r.verdicts| && r.verdicts[i].overloaded ==> r.verdicts[i].at <= r.guard.trippedAt.value)
  }

  lemma EnsureArmable(g: Guard, opens: bool)
    requires Armable(g)
    ensures Armable(EnsureActive(g, opens))
  {
  }

  lemma RearmArmable(g: Guard, at: int, opens: bool)
    requires Armable(g)
    ensures Armable(RearmGuard(g, at, opens))
  {
    hide EnsureActive;
    var h := Reset(g, at);
    if h.capturing {
      EnsureArmable(h.(available := true), opens);
    }
  }

  lemma WallArmable(g: Guard, elapsed: real, at: int)
    requires Armable(g)
    ensures Armable(WallTime(g, elapsed, at))
  {
  }

  lemma TickArmable(g: Guard, at: int)
    requires Armable(g)
    ensures Armable(TickGuard(g, at))
  {
    hide RearmGuard;
    RearmArmable(g, at, false);
  }

  lemma ArmableKept(g: Guard, op: Op)
    requires Armable(g)
    ensures Armable(Apply(g, op))
  {
    hide EnsureActive, RearmGuard, WallTime, TickGuard;
    match op
    case PauseDone(elapsed, at) => WallArmable(g, elapsed, at);
    case Tick(at) => TickArmable(g, at);
    case Ensure(opens) => EnsureArmable(g, opens);
    case ApplyMode(capture, limits, at, opens) =>
      if capture { RearmArmable(g.(capturing := capture, limits := limits, available := true), at, opens); }
    case Rearm(at, opens) => RearmArmable(g, at, opens);
    case _ =>
  }

  lemma EnsureCounts(g: Guard, opens: bool)
    ensures EnsureActive(g, opens).overSeconds == g.overSeconds && EnsureActive(g, opens).trippedAt == g.trippedAt
  {
  }

  lemma RearmCounts(g: Guard, at: int, opens: bool)
    ensures RearmGuard(g, at, opens).overSeconds == 0 && RearmGuard(g, at, opens).trippedAt.None?
  {
    hide EnsureActive;
    EnsureCounts(Reset(g, at).(available := true), opens);
  }

  lemma WallCounts(g: Guard, elapsed: real, at: int)
    ensures WallTime(g, elapsed, at).overSeconds == g.overSeconds
    ensures WallTime(g, elapsed, at).trippedAt == g.trippedAt
            || (g.trippedAt.None? && WallTime(g, elapsed, at).trippedAt == Some(at))
  {
  }

  /** What an operation other than a tick does to the two fields that count and date overload. */
  lemma OverloadKept(g: Guard, op: Op, now: int)
    requires !op.Tick?
    ensures var h := Apply(g, op);
            && (h.trippedAt.None? ==> h.overSeconds == 0 || (g.trippedAt.None? && h.overSeconds == g.overSeconds))
            && (h.trippedAt.Some? ==> h.trippedAt == g.trippedAt || h.trippedAt == Some(TimeOf(op, now)))
  {
    hide EnsureActive, RearmGuard, WallTime;
    match op
    case PauseDone(elapsed, at) => WallCounts(g, elapsed, at);
    case Ensure(opens) => EnsureCounts(g, opens);
    case ApplyMode(capture, limits, at, opens) =>
      RearmCounts(g.(capturing := capture, limits := limits, available := true), at, opens);
    case Rearm(at, opens) => RearmCounts(g, at, opens);
    case _ =>
  }

  lemma TickCounts(g: Guard, at: int)
    ensures var h := TickGuard(g, at);
            && (!g.limits.enabled ==> h == g.(pauses := 0))
            && (g.limits.enabled && h.trippedAt.None? ==>
                  h.overSeconds == 0 || (g.trippedAt.None? && Overloaded(g) && h.overSeconds == g.overSeconds + 1))
            && (g.limits.enabled && h.trippedAt.Some? ==> h.trippedAt == Some(at) || (h.trippedAt == g.trippedAt && !Overloaded(g)))
  {
  }

  lemma NextKeeps(r: Run, op: Op)
    requires Good(r) && Allowed(r, op)
    ensures Good(Next(r, op))
  {
    hide Apply, Armable, Overloaded;
    ArmableKept(r.guard, op);
    if op.Tick? {
      TickCounts(r.guard, op.at);
      ApplyTick(r.guard, op.at);
      var before, after := r.verdicts, Next(r, op).verdicts;
      assert forall i :: 0 <= i < |before| ==> after[i] == before[i];
    } else {
      OverloadKept(r.guard, op, r.now);
    }
  }

  lemma ApplyTick(g: Guard, at: int)
    ensures Apply(g, Tick(at)) == TickGuard(g, at)
  {
  }

  lemma StartGood(limits: Limits, capture: bool, now: int)
    ensures Good(Start(limits, capture, now))
  {
  }

  lemma {:induction false} RunKeeps(start: Run, ops: seq<Op>)
    requires Good(start) && IsRun(start, ops)
    ensures Good(After(start, ops))
    decreases |ops|
  {
    hide Good, Apply;
    if ops != [] {
      RunKeeps(start, ops[..|ops| - 1]);
      NextKeeps(After(start, ops[..|ops| - 1]), ops[|ops| - 1]);
    }
  }

  /** In every run the debugger is armed only with a session, locals available and the guard not tripped. */
  lemma ArmedOnlyWhenAllowed(limits: Limits, capture: bool, now: int, ops: seq<Op>)
    requires IsRun(Start(limits, capture, now), ops)
    ensures var g := After(Start(limits, capture, now), ops).guard;
            g.armed ==> g.session && g.available && g.capturing && g.trippedAt.None?
  {
    StartGood(limits, capture, now);
    RunKeeps(Start(limits, capture, now), ops);
  }

  /** A second trips the guard only as the last of ten evaluated seconds in a row that were all over the limit. */
  lemma TripNeedsSustainedLoad(limits: Limits, capture: bool, now: int, ops: seq<Op>, at: int)
    requires IsRun(Start(limits, capture, now), ops + [Tick(at)])
    requires After(Start(limits, capture, now), ops).guard.trippedAt.None?
    requires After(Start(limits, capture, now), ops + [Tick(at)]).guard.trippedAt.Some?
    ensures LastOverloaded(After(Start(limits, capture, now), ops + [Tick(at)]).verdicts, SUSTAINED_SECONDS)
  {
    hide Good, Apply;
    var start := Start(limits, capture, now);
    assert (ops + [Tick(at)])[..|ops|] == ops;
    StartGood(limits, capture, now);
    RunKeeps(start, ops);
    TrippingTick(After(start, ops), at);
  }

  lemma TrippingTick(r: Run, at: int)
    requires Good(r) && Allowed(r, Tick(at)) && r.guard.trippedAt.None? && Next(r, Tick(at)).guard.trippedAt.Some?
    ensures LastOverloaded(Next(r, Tick(at)).verdicts, SUSTAINED_SECONDS)
  {
    var before, after := r.verdicts, Next(r, Tick(at)).verdicts;
    assert r.guard.overSeconds + 1 >= SUSTAINED_SECONDS;
    assert forall i :: 0 <= i < |before| ==> after[i] == before[i];
  }

  /** A tripped guard is lifted by a tick exactly when that second and the last five minutes, the trip included, were quiet. */
  lemma RecoveryNeedsQuiet(limits: Limits, capture: bool, now: int, ops: seq<Op>, at: int)
    requires IsRun(Start(limits, capture, now), ops + [Tick(at)])
    requires After(Start(limits, capture, now), ops).guard.trippedAt.Some?
    ensures var before, after := After(Start(limits, capture, now), ops), After(Start(limits, capture, now), ops + [Tick(at)]);
            after.guard.trippedAt.None? <==>
              before.guard.limits.enabled && !Overloaded(before.guard) && before.guard.trippedAt.value + RECOVERY_MS <= at
    ensures var after := After(Start(limits, capture, now), ops + [Tick(at)]);
            after.guard.trippedAt.None? ==>
              forall i :: 0 <= i < |after.verdicts| && after.verdicts[i].overloaded ==> after.verdicts[i].at + RECOVERY_MS <= at
  {
    hide Good, Apply;
    var start := Start(limits, capture, now);
    assert (ops + [Tick(at)])[..|ops|] == ops;
    StartGood(limits, capture, now);
    RunKeeps(start, ops);
    RecoveringTick(After(start, ops), at);
  }

  lemma RecoveringTick(r: Run, at: int)
    requires Good(r) && Allowed(r, Tick(at)) && r.guard.trippedAt.Some?
    ensures var after := Next(r, Tick(at));
            && (after.guard.trippedAt.None? <==>
                  r.guard.limits.enabled && !Overloaded(r.guard) && r.guard.trippedAt.value + RECOVERY_MS <= at)
            && (after.guard.trippedAt.None? ==>
                  forall i :: 0 <= i < |after.verdicts| && after.verdicts[i].overloaded ==> after.verdicts[i].at + RECOVERY_MS <= at)
  {
  }

  /**
    A trip for pause time is never lifted before five minutes after the first second evaluated
    since: that second still sees the pause time over its limit and restarts the clock.
  */
  lemma PauseTimeTripRestartsClock(g: Guard, elapsed: real, tripped: int, at: int)
    requires g.trippedAt.None? && WallTime(g, elapsed, tripped).trippedAt.Some?
    ensures TickGuard(WallTime(g, elapsed, tripped), at).trippedAt == Some(at)
  {
  }

  // ---------------------------------------------------------------- exactly when it trips

  /** How many conclusions at the end say overloaded. */
  function Trailing(verdicts: seq<Verdict>): nat {
    if verdicts == [] || !verdicts[|verdicts| - 1].overloaded then 0 else 1 + Trailing(verdicts[..|verdicts| - 1])
  }

  /** While not tripped, the count is that of the overloaded seconds in a row since the guard last started over. */
  ghost predicate Counting(r: Run) {
    && r.since <= |r.verdicts|
    && (r.guard.trippedAt.None? ==> r.guard.overSeconds == Trailing(r.verdicts[r.since..]) && r.guard.overSeconds < SUSTAINED_SECONDS)
  }

  lemma TrailingSnoc(verdicts: seq<Verdict>, v: Verdict)
    ensures Trailing(verdicts + [v]) == if v.overloaded then 1 + Trailing(verdicts) else 0
  {
    assert (verdicts + [v])[..|verdicts|] == verdicts;
  }

  /** A tick, exactly. */
  lemma TickExactly(g: Guard, at: int)
    ensures var h := TickGuard(g, at);
            && (g.trippedAt.None? && g.limits.enabled && Overloaded(g) ==>
                  h.overSeconds == g.overSeconds + 1 && (h.trippedAt.Some? <==> g.overSeconds + 1 >= SUSTAINED_SECONDS))
            && (g.trippedAt.None? && g.limits.enabled && !Overloaded(g) ==> h.overSeconds == 0 && h.trippedAt.None?)
            && (!g.limits.enabled ==> h.overSeconds == g.overSeconds && h.trippedAt == g.trippedAt)
            && (g.trippedAt.Some? && h.trippedAt.None? ==> h.overSeconds == 0)
  {
    hide RearmGuard, Overloaded;
    RearmCounts(g, at, false);
  }

  /** What the other operations do to the count. */
  lemma OthersExactly(g: Guard, op: Op)
    requires !op.Tick?
    ensures var h := Apply(g, op);
            && (StartsOver(g, op) ==> h.overSeconds == 0 && h.trippedAt.None?)
            && (!StartsOver(g, op) && h.trippedAt.None? ==> g.trippedAt.None? && h.overSeconds == g.overSeconds)
  {
    hide EnsureActive, RearmGuard, WallTime;
    match op
    case PauseDone(elapsed, at) => WallCounts(g, elapsed, at);
    case Ensure(opens) => EnsureCounts(g, opens);
    case ApplyMode(capture, limits, at, opens) =>
      RearmCounts(g.(capturing := capture, limits := limits, available := true), at, opens);
    case Rearm(at, opens) => RearmCounts(g, at, opens);
    case _ =>
  }

  lemma CountingNext(r: Run, op: Op)
    requires Counting(r) && Allowed(r, op)
    ensures Counting(Next(r, op))
  {
    hide Apply, Overloaded;
    var t := Next(r, op);
    if op.Tick? {
      ApplyTick(r.guard, op.at);
      TickExactly(r.guard, op.at);
      if r.guard.limits.enabled {
        TrailingSnoc(r.verdicts[r.since..], Verdict(op.at, Overloaded(r.guard)));
        assert t.verdicts[r.since..] == r.verdicts[r.since..] + [Verdict(op.at, Overloaded(r.guard))];
      }
    } else {
      OthersExactly(r.guard, op);
    }
    assert t.verdicts[|t.verdicts|..] == [];
  }

  lemma {:induction false} RunCounting(start: Run, ops: seq<Op>)
    requires Counting(start) && IsRun(start, ops)
    ensures Counting(After(start, ops))
    decreases |ops|
  {
    hide Counting, Next;
    if ops != [] {
      RunCounting(start, ops[..|ops| - 1]);
      CountingNext(After(start, ops[..|ops| - 1]), ops[|ops| - 1]);
    }
  }

  lemma StartCounting(limits: Limits, capture: bool, now: int)
    ensures Counting(Start(limits, capture, now))
  {
  }

  /**
    The exact law of the trip for pause rate: a second trips the guard if and only if the guard is
    enabled and that second is at least the tenth overloaded one in a row since it last started over.
  */
  lemma TripIff(limits: Limits, capture: bool, now: int, ops: seq<Op>, at: int)
    requires IsRun(Start(limits, capture, now), ops + [Tick(at)])
    requires After(Start(limits, capture, now), ops).guard.trippedAt.None?
    ensures var before, after := After(Start(limits, capture, now), ops), After(Start(limits, capture, now), ops + [Tick(at)]);
            && before.since <= |before.verdicts|
            && (after.guard.trippedAt.Some? <==>
                  before.guard.limits.enabled && Overloaded(before.guard)
                  && Trailing(before.verdicts[before.since..]) + 1 >= SUSTAINED_SECONDS)
  {
    hide Counting, Next;
    var start := Start(limits, capture, now);
    assert (ops + [Tick(at)])[..|ops|] == ops;
    StartCounting(limits, capture, now);
    RunCounting(start, ops);
    CountedTick(After(start, ops), at);
  }

  lemma CountedTick(r: Run, at: int)
    requires Counting(r) && r.guard.trippedAt.None?
    ensures r.since <= |r.verdicts|
    ensures Next(r, Tick(at)).guard.trippedAt.Some? <==>
              r.guard.limits.enabled && Overloaded(r.guard) && Trailing(r.verdicts[r.since..]) + 1 >= SUSTAINED_SECONDS
  {
    hide Apply, Overloaded;
    ApplyTick(r.guard, at);
    TickExactly(r.guard, at);
  }

  // ---------------------------------------------------------------- exactly when it is armed

  /** A session is there, or can be had. */
  predicate HasSession(g: Guard, opens: bool) {
    if g.initialized then g.session else opens
  }

  /** Asked to, the guard arms the debugger if and only if it is allowed to: not tripped, locals available, a session to be had. */
  lemma EnsureArmsIff(limits: Limits, capture: bool, now: int, ops: seq<Op>, opens: bool)
    requires IsRun(Start(limits, capture, now), ops + [Ensure(opens)])
    ensures var before, after := After(Start(limits, capture, now), ops).guard, After(Start(limits, capture, now), ops + [Ensure(opens)]).guard;
            after.armed <==> before.trippedAt.None? && before.available && HasSession(before, opens)
  {
    hide Good, Apply, EnsureActive;
    var start := Start(limits, capture, now);
    assert (ops + [Ensure(opens)])[..|ops|] == ops;
    StartGood(limits, capture, now);
    RunKeeps(start, ops);
    ArmsIff(After(start, ops), opens);
  }

  lemma ArmsIff(r: Run, opens: bool)
    requires Good(r)
    ensures Next(r, Ensure(opens)).guard.armed <==> r.guard.trippedAt.None? && r.guard.available && HasSession(r.guard, opens)
  {
  }

  /** A trip that a quiet second lifts leaves the debugger armed again if and only if locals are wanted. */
  lemma RecoveryArmsIff(limits: Limits, capture: bool, now: int, ops: seq<Op>, at: int)
    requires IsRun(Start(limits, capture, now), ops + [Tick(at)])
    requires After(Start(limits, capture, now), ops).guard.trippedAt.Some?
    requires After(Start(limits, capture, now), ops + [Tick(at)]).guard.trippedAt.None?
    ensures var before, after := After(Start(limits, capture, now), ops).guard, After(Start(limits, capture, now), ops + [Tick(at)]).guard;
            after.armed <==> before.capturing
  {
    hide Good, Apply, EnsureActive;
    var start := Start(limits, capture, now);
    assert (ops + [Tick(at)])[..|ops|] == ops;
    StartGood(limits, capture, now);
    RunKeeps(start, ops);
    LiftedArms(After(start, ops), at);
  }

  lemma LiftedArms(r: Run, at: int)
    requires Good(r) && Allowed(r, Tick(at)) && r.guard.trippedAt.Some? && Next(r, Tick(at)).guard.trippedAt.None?
    ensures Next(r, Tick(at)).guard.armed <==> r.guard.capturing
  {
  }

  // ---------------------------------------------------------------- what the guard counts

  function Total(times: seq<real>): real {
    if times == [] then 0.0 else Total(times[..|times| - 1]) + times[|times| - 1]
  }

  /** The guard's two measures are of the pauses that came. */
  predicate Measured(r: Run) {
    r.guard.pauses == r.seen && r.guard.wallMs == Total(r.window) && r.guard.windowStart == r.windowAt
  }

  lemma TotalSnoc(times: seq<real>, t: real)
    ensures Total(times + [t]) == Total(times) + t
  {
    assert (times + [t])[..|times|] == times;
  }

  lemma EnsureMeasures(g: Guard, opens: bool)
    ensures var h := EnsureActive(g, opens); h.pauses == g.pauses && h.wallMs == g.wallMs && h.windowStart == g.windowStart
  {
  }

  lemma RearmMeasures(g: Guard, at: int, opens: bool)
    ensures var h := RearmGuard(g, at, opens); h.pauses == 0 && h.wallMs == 0.0 && h.windowStart == at
  {
    hide EnsureActive;
    EnsureMeasures(Reset(g, at).(available := true), opens);
  }

  lemma TickMeasures(g: Guard, at: int)
    ensures var h := TickGuard(g, at);
            && h.pauses == 0
            && (if Reopens(g, Tick(at)) then h.wallMs == 0.0 && h.windowStart == at else h.wallMs == g.wallMs && h.windowStart == g.windowStart)
  {
    hide RearmGuard;
    RearmMeasures(g, at, false);
    RearmCounts(g, at, false);
    ApplyTick(g, at);
  }

  lemma MeasuredNext(r: Run, op: Op)
    requires Measured(r)
    ensures Measured(Next(r, op))
  {
    hide Apply, Overloaded, Total;
    if op.Tick? {
      ApplyTick(r.guard, op.at);
      TickMeasures(r.guard, op.at);
      NoTime();
    } else {
      OthersMeasure(r, op);
    }
  }

  lemma NoTime()
    ensures Total([]) == 0.0
  {
  }

  lemma OthersMeasure(r: Run, op: Op)
    requires Measured(r) && !op.Tick?
    ensures Measured(Next(r, op))
  {
    hide EnsureActive, RearmGuard, Total, Overloaded;
    NoTime();
    match op
    case PauseDone(elapsed, at) =>
      TotalSnoc([], elapsed);
      TotalSnoc(r.window, elapsed);
    case Ensure(opens) => EnsureMeasures(r.guard, opens); EnsureCounts(r.guard, opens);
    case ApplyMode(capture, limits, at, opens) =>
      RearmMeasures(r.guard.(capturing := capture, limits := limits, available := true), at, opens);
      RearmCounts(r.guard.(capturing := capture, limits := limits, available := true), at, opens);
    case Rearm(at, opens) => RearmMeasures(r.guard, at, opens);
    case _ =>
  }

  lemma {:induction false} RunMeasured(limits: Limits, capture: bool, now: int, ops: seq<Op>)
    requires IsRun(Start(limits, capture, now), ops)
    ensures Measured(After(Start(limits, capture, now), ops))
    decreases |ops|
  {
    hide Next;
    if ops != [] {
      RunMeasured(limits, capture, now, ops[..|ops| - 1]);
      MeasuredNext(After(Start(limits, capture, now), ops[..|ops| - 1]), ops[|ops| - 1]);
    }
  }

  /** A second is overloaded if and only if more pauses came in it than allowed, or it is the first of a trip with its pause time still over. */
  lemma OverloadedIff(limits: Limits, capture: bool, now: int, ops: seq<Op>)
    requires IsRun(Start(limits, capture, now), ops)
    ensures var r := After(Start(limits, capture, now), ops);
            Overloaded(r.guard) <==>
              r.seen > r.guard.limits.maxPausesPerSecond
              || (r.guard.trippedAt.Some? && Total(r.window) > r.guard.limits.maxPauseMsPerMinute)
  {
    hide After, IsRun;
    RunMeasured(limits, capture, now, ops);
  }

  /** A pause trips the guard, at once, if and only if the pauses of its window then exceed a minute's allowance. */
  lemma PauseTripsIff(limits: Limits, capture: bool, now: int, ops: seq<Op>, elapsed: real, at: int)
    requires IsRun(Start(limits, capture, now), ops + [PauseDone(elapsed, at)])
    requires After(Start(limits, capture, now), ops).guard.trippedAt.None?
    ensures var before, after := After(Start(limits, capture, now), ops), After(Start(limits, capture, now), ops + [PauseDone(elapsed, at)]);
            && (after.guard.trippedAt.Some? <==>
                  before.guard.limits.enabled && Total(after.window) > before.guard.limits.maxPauseMsPerMinute)
            && (after.guard.trippedAt.Some? ==> after.guard.trippedAt == Some(at) && !after.guard.armed)
  {
    hide Good, Measured, Next;
    var start := Start(limits, capture, now);
    assert (ops + [PauseDone(elapsed, at)])[..|ops|] == ops;
    RunMeasured(limits, capture, now, ops);
    StartGood(limits, capture, now);
    RunKeeps(start, ops);
    PauseTrips(After(start, ops), elapsed, at);
  }

  lemma PauseTrips(r: Run, elapsed: real, at: int)
    requires Measured(r) && Good(r) && r.guard.trippedAt.None?
    ensures var after := Next(r, PauseDone(elapsed, at));
            && (after.guard.trippedAt.Some? <==> r.guard.limits.enabled && Total(after.window) > r.guard.limits.maxPauseMsPerMinute)
            && (after.guard.trippedAt.Some? ==> after.guard.trippedAt == Some(at) && !after.guard.armed)
  {
    hide Total;
    NoTime();
    TotalSnoc([], elapsed);
    TotalSnoc(r.window, elapsed);
  }

  // ---------------------------------------------------------------- disarming

  /** Idle time and a trip disarm, and nothing of the guard's counts changes with the first. */
  lemma IdleDisarms(limits: Limits, capture: bool, now: int, ops: seq<Op>)
    requires IsRun(Start(limits, capture, now), ops + [IdleTimeout])
    ensures var before, after := After(Start(limits, capture, now), ops).guard, After(Start(limits, capture, now), ops + [IdleTimeout]).guard;
            after == before.(armed := false)
  {
    hide Next;
    var start := Start(limits, capture, now);
    assert (ops + [IdleTimeout])[..|ops|] == ops;
    StartGood(limits, capture, now);
    RunKeeps(start, ops);
    IdleStep(After(start, ops));
  }

  lemma IdleStep(r: Run)
    requires Good(r)
    ensures Next(r, IdleTimeout).guard == r.guard.(armed := false)
  {
  }

  /** Neither a mode nor a manual re-arming. */
  predicate KeepsOff(op: Op) {
    !op.ApplyMode? && !op.Rearm?
  }

  /** After shutdown the debugger stays off, whoever asks, until a mode or a manual re-arming comes. */
  lemma {:induction false} ShutdownIsOff(r: Run, ops: seq<Op>)
    requires IsRun(Next(r, Shutdown), ops) && forall i :: 0 <= i < |ops| ==> KeepsOff(ops[i])
    ensures var g := After(Next(r, Shutdown), ops).guard; !g.armed && !g.available && !g.session
    decreases |ops|
  {
    if ops != [] {
      hide Apply;
      var n := |ops| - 1;
      ShutdownIsOff(r, ops[..n]);
      OffStays(After(Next(r, Shutdown), ops[..n]), ops[n]);
    }
  }

  lemma OffStays(r: Run, op: Op)
    requires !r.guard.armed && !r.guard.available && !r.guard.session && KeepsOff(op) && Allowed(r, op)
    ensures var g := Next(r, op).guard; !g.armed && !g.available && !g.session
  {
  }

  /** A mode sets what is wanted and the limits; without locals it disarms, and with the guard off it lifts a trip. */
  lemma ModeAppliedIff(limits: Limits, capture: bool, now: int, ops: seq<Op>, want: bool, next: Limits, at: int, opens: bool)
    requires IsRun(Start(limits, capture, now), ops + [ApplyMode(want, next, at, opens)])
    ensures var before, after := After(Start(limits, capture, now), ops).guard,
                                 After(Start(limits, capture, now), ops + [ApplyMode(want, next, at, opens)]).guard;
            && after.capturing == want && after.limits == next
            && (!want ==> !after.armed && !after.available)
            && after.trippedAt == (if want && !next.enabled then None else before.trippedAt)
            && (want ==> (after.available <==> before.initialized || opens || next.enabled || before.trippedAt.None?))
  {
    hide Good, Apply;
    var start := Start(limits, capture, now);
    assert (ops + [ApplyMode(want, next, at, opens)])[..|ops|] == ops;
    ModeApplied(After(start, ops), want, next, at, opens);
  }

  lemma ModeApplied(r: Run, want: bool, next: Limits, at: int, opens: bool)
    ensures var before, after := r.guard, Next(r, ApplyMode(want, next, at, opens)).guard;
            && after.capturing == want && after.limits == next
            && (!want ==> !after.armed && !after.available)
            && after.trippedAt == (if want && !next.enabled then None else before.trippedAt)
            && (want ==> (after.available <==> before.initialized || opens || next.enabled || before.trippedAt.None?))
  {
  }
}
