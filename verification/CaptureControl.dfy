/**
  The capture-mode controller as a step system.  A step is a piece of code that runs without an
  await: a caller's call, a queued microtask, a timer evaluation, or one segment of the one task
  that the promise queue is running.  Between any two segments every other step may happen.
*/
module CaptureControl {
  import opened Wrappers
  import opened CaptureModes

  const HOUR_MS: int := 3600000

  datatype Phase = Inactive | Base | Escalated | Pinned | Manual

  datatype Lifecycle = Created | Active | ShuttingDown | ShutDown

  datatype Adaptive = Adaptive(enabled: bool, base: CaptureMode, escalated: CaptureMode,
                               deescalateAfterMs: int, minDwellMs: int, maxSwitchesPerHour: int)

  /** What never changes: the user's configuration, the config object as built, the adaptive settings. */
  datatype Config = Config(user: UserConfig, origin: BaseConfig, adaptive: Adaptive)

  /** Which runtime resources are on.  fetch carries whether response bodies are captured. */
  datatype Resources = Resources(httpServer: bool, channels: Channels, fetch: Option<bool>, netDns: bool,
                                 database: bool, processHandlers: bool, lagMonitor: bool)

  datatype Channels = Channels(httpServer: bool, httpClient: bool, undici: bool, netDns: bool)

  /** requestedAt is the number of the step that asked for the switch. */
  datatype Task =
    | ManualTask(target: CaptureMode)
    | AdaptiveTask(target: CaptureMode, generation: int, requestedAt: nat)

  /** Where the running task awaits. */
  datatype Await =
    | FlushFirst(previous: ModeState, next: ModeState)
    | Runtime(previous: ModeState, next: ModeState, wasActive: bool)
    | FlushAgain
    | Applied
    | Returned(changed: bool)

  /** previousPhase is used by manual tasks, startedAt by adaptive ones. */
  datatype Running = Idle | Run(task: Task, previousPhase: Phase, startedAt: int, at: Await)

  /** A capture's microtask, not yet run. */
  datatype Micro = Micro(generation: int, requestedAt: nat)

  /** What an observer of the controller would write down. */
  datatype Note =
    | Accepted(step: nat)
    | Switched(target: CaptureMode, requestedAt: nat, begunAt: nat, time: int, limited: bool)
    | ManualDone(time: int, target: CaptureMode)

  datatype State = State(
    lifecycle: Lifecycle, modeState: ModeState, base: BaseConfig, resources: Resources, flushTimer: Option<int>,
    queue: seq<Task>, running: Running, micro: seq<Micro>, timerOn: bool,
    phase: Phase, lastEscalationAt: Option<int>, lastCaptureAt: Option<int>, timestamps: seq<int>,
    escalationGeneration: Option<int>, generation: int, switchCount: int, rearms: nat,
    now: int, steps: nat, filteredAt: int, log: seq<Note>)

  datatype Step =
    | TimePasses(now: int)
    | SetCaptureMode(mode: CaptureMode)
    | AdmittedCapture(modeAtCapture: CaptureMode)
    | RunMicrotask
    | TimerTick
    | StartTask
    | ResumeTask
    | RequestStart
    | Activate
    | BeginShutdown
    | FinishShutdown

  // ---------------------------------------------------------------- resources

  function NoResources(): Resources {
    Resources(false, Channels(false, false, false, false), None, false, false, false, false)
  }

  function ChannelsOf(r: Recorders): Channels {
    Channels(r.httpServer, r.httpClient, r.undici, r.netDns)
  }

  /** ensureFetchWrapperInstalled: afterwards the live wrapper captures bodies as the mode says. */
  function FetchOf(m: ModeState): Option<bool> {
    if m.recorders.fetch then Some(m.captureResponseBodies) else None
  }

  /** What activate() leaves on when it starts from nothing. */
  function Fresh(m: ModeState, serverless: bool): Resources {
    Resources(m.recorders.httpServer, ChannelsOf(m.recorders), FetchOf(m), m.recorders.netDns, m.recorders.database,
              m.recorders.processHandlers, !serverless && m.capabilities.eventLoopLagMonitor)
  }

  /** activate(): each resource is switched on if the mode wants it and otherwise left alone. */
  function SwitchOn(r: Resources, m: ModeState, serverless: bool): Resources {
    var rec := m.recorders;
    Resources(
      rec.httpServer || r.httpServer,
      if rec.httpServer || rec.httpClient || rec.undici || rec.netDns then ChannelsOf(rec) else r.channels,
      if rec.fetch then FetchOf(m) else r.fetch,
      rec.netDns || r.netDns, rec.database || r.database, rec.processHandlers || r.processHandlers,
      (!serverless && m.capabilities.eventLoopLagMonitor) || r.lagMonitor)
  }

  /** The incremental part of applyModeState: only what differs between the modes is touched. */
  function Toggle(r: Resources, p: ModeState, n: ModeState, serverless: bool): Resources {
    Resources(
      if p.recorders.httpServer != n.recorders.httpServer then n.recorders.httpServer else r.httpServer,
      ChannelsOf(n.recorders),
      if p.recorders.fetch != n.recorders.fetch || (n.recorders.fetch && p.captureResponseBodies != n.captureResponseBodies)
        then FetchOf(n) else r.fetch,
      if p.recorders.netDns != n.recorders.netDns then n.recorders.netDns else r.netDns,
      if p.recorders.database != n.recorders.database then n.recorders.database else r.database,
      if p.recorders.processHandlers != n.recorders.processHandlers then n.recorders.processHandlers else r.processHandlers,
      if !serverless && p.capabilities.eventLoopLagMonitor != n.capabilities.eventLoopLagMonitor
        then n.capabilities.eventLoopLagMonitor else r.lagMonitor)
  }

  function TimerOf(m: ModeState): Option<int> {
    if m.recorders.transport && m.flushIntervalMs > 0 then Some(m.flushIntervalMs) else None
  }

  // ---------------------------------------------------------------- calls

  predicate CanSwitch(l: Lifecycle) {
    l.Created? || l.Active?
  }

  function Noted(s: State, n: Note): State {
    s.(log := s.log + [n])
  }

  /** setCaptureMode; in the last two lifecycle states the call is rejected. */
  function DoSet(s: State, mode: CaptureMode, cfg: Config): State {
    if !CanSwitch(s.lifecycle) then s
    else
      var t := if cfg.adaptive.enabled then s.(generation := s.generation + 1, escalationGeneration := None) else s;
      Noted(t.(queue := t.queue + [ManualTask(mode)]), Accepted(s.steps))
  }

  /** handleAdmittedCapture. */
  function DoCapture(s: State, modeAtCapture: CaptureMode, cfg: Config): State {
    if !cfg.adaptive.enabled then s
    else
      var t := s.(lastCaptureAt := Some(s.now));
      if s.phase == Base && modeAtCapture == cfg.adaptive.base && s.escalationGeneration == None then
        t.(escalationGeneration := Some(s.generation), micro := s.micro + [Micro(s.generation, s.steps)])
      else t
  }

  /** switchAdaptiveMode up to its await. */
  function Enqueue(s: State, target: CaptureMode, generation: int, requestedAt: nat): State {
    if s.lifecycle == Active then s.(queue := s.queue + [AdaptiveTask(target, generation, requestedAt)]) else s
  }

  function DoMicrotask(s: State, cfg: Config): State
    requires s.micro != []
  {
    var m := s.micro[0];
    var t := s.(micro := s.micro[1..],
                escalationGeneration := if s.escalationGeneration == Some(m.generation) then None else s.escalationGeneration);
    Enqueue(t, cfg.adaptive.escalated, m.generation, m.requestedAt)
  }

  /** Quiet and dwell times are measured here and not again when the task runs. */
  predicate QuietLongEnough(s: State, cfg: Config) {
    && cfg.adaptive.enabled && s.phase == Escalated && s.lastEscalationAt.Some? && s.lastCaptureAt.Some?
    && s.now - s.lastCaptureAt.value >= cfg.adaptive.deescalateAfterMs
    && s.now - s.lastEscalationAt.value >= cfg.adaptive.minDwellMs
  }

  function DoTick(s: State, cfg: Config): State {
    if QuietLongEnough(s, cfg) then Enqueue(s, cfg.adaptive.base, s.generation, s.steps) else s
  }

  // ---------------------------------------------------------------- the running task

  /** applyModeState from its first flush, or its start, up to the await of the runtime resources. */
  function SwitchOver(s: State, p: ModeState, n: ModeState, wasActive: bool, cfg: Config): State
    requires s.running.Run?
  {
    s.(resources := if wasActive then Toggle(s.resources, p, n, cfg.origin.serverless) else s.resources,
       modeState := n, base := Overwrite(s.base, n), running := s.running.(at := Runtime(p, n, wasActive)))
  }

  /** applyCaptureMode from its start to its first await; a throw ends the task. */
  function BeginApply(s: State, mode: CaptureMode, cfg: Config): State
    requires s.running.Run?
  {
    var next := Resolve(cfg.user, s.base, mode);
    if !CanSwitch(s.lifecycle) || next.None? then s.(running := Idle)
    else
      var p, n, wasActive := s.modeState, next.value, s.lifecycle == Active;
      if Diff(p, n) == [] then s.(running := s.running.(at := Returned(false)))
      else if wasActive && p.flushIntervalMs > 0 && n.flushIntervalMs == 0 then s.(running := s.running.(at := FlushFirst(p, n)))
      else SwitchOver(s, p, n, wasActive, cfg)
  }

  /** Whether a mode can be applied when the lifecycle allows it. */
  predicate Applies(s: State, mode: CaptureMode, cfg: Config) {
    CanSwitch(s.lifecycle) && Resolve(cfg.user, s.base, mode).Some?
  }

  function Recent(timestamps: seq<int>, now: int): seq<int> {
    if timestamps == [] then []
    else
      var last := timestamps[|timestamps| - 1];
      Recent(timestamps[..|timestamps| - 1], now) + if now - last < HOUR_MS then [last] else []
  }

  /** isCurrentAdaptiveTransition. */
  predicate IsCurrent(s: State, target: CaptureMode, cfg: Config) {
    if target == cfg.adaptive.escalated then s.phase == Base && s.modeState.captureMode == cfg.adaptive.base
    else target == cfg.adaptive.base && s.phase == Escalated && s.modeState.captureMode == cfg.adaptive.escalated
  }

  predicate Admits(s: State, task: Task, cfg: Config)
    requires task.AdaptiveTask?
  {
    task.generation == s.generation && s.lifecycle == Active && IsCurrent(s, task.target, cfg)
  }

  /** applyAdaptiveCaptureMode up to its await. */
  function BeginAdaptive(s: State, task: Task, cfg: Config): State
    requires task.AdaptiveTask?
  {
    if !Admits(s, task, cfg) then s.(running := Idle)
    else
      var recent := Recent(s.timestamps, s.now);
      var limited := |recent| >= cfg.adaptive.maxSwitchesPerHour;
      var t := s.(timestamps := recent, filteredAt := s.now, phase := if limited then Pinned else s.phase,
                  running := Run(task, s.phase, s.now, Applied));
      if limited && task.target != cfg.adaptive.escalated then t.(running := Idle)
      else
        var u := if Applies(t, task.target, cfg) then Noted(t, Switched(task.target, task.requestedAt, s.steps, s.now, limited)) else t;
        BeginApply(u, task.target, cfg)
  }

  function DoStart(s: State, cfg: Config): State
    requires s.running.Idle? && s.queue != []
  {
    var task := s.queue[0];
    var t := s.(queue := s.queue[1..]);
    if task.ManualTask? then BeginApply(t.(running := Run(task, s.phase, s.now, Applied)), task.target, cfg)
    else BeginAdaptive(t, task, cfg)
  }

  /** reconcileManualAdaptiveState; rearms counts the calls that re-arm the locals guard. */
  function Reconcile(s: State, target: CaptureMode, previousPhase: Phase, cfg: Config): State {
    if !cfg.adaptive.enabled then s
    else if target == cfg.adaptive.base then s.(phase := Base)
    else if target == cfg.adaptive.escalated then
      s.(phase := Escalated, lastEscalationAt := Some(s.now), lastCaptureAt := Some(s.now),
         rearms := if previousPhase != Escalated && s.lifecycle == Active then s.rearms + 1 else s.rearms)
    else s.(phase := Manual)
  }

  /** The end of applyAdaptiveCaptureMode. */
  function FinishAdaptive(s: State, target: CaptureMode, startedAt: int, changed: bool, cfg: Config): State {
    if !changed then s
    else
      var t := s.(timestamps := s.timestamps + [startedAt]);
      if target == cfg.adaptive.escalated then
        t.(phase := if s.phase == Pinned then Pinned else Escalated, lastEscalationAt := Some(startedAt), rearms := s.rearms + 1)
      else t.(phase := Base)
  }

  function RestartTimer(s: State): State
    requires s.running.Run?
  {
    s.(flushTimer := TimerOf(s.modeState), running := s.running.(at := Applied))
  }

  predicate FlushesBeforeRestart(p: ModeState, n: ModeState) {
    (p.flushIntervalMs == 0 && n.flushIntervalMs != 0) || (p.captureMode.Fast? != n.captureMode.Fast?)
  }

  /** The last segment of a task. */
  function Finish(s: State, changed: bool, cfg: Config): State
    requires s.running.Run?
  {
    var t := s.(running := Idle);
    if s.running.task.ManualTask? then Noted(Reconcile(t, s.running.task.target, s.running.previousPhase, cfg), ManualDone(s.now, s.running.task.target))
    else FinishAdaptive(t, s.running.task.target, s.running.startedAt, changed, cfg)
  }

  function DoResume(s: State, cfg: Config): State
    requires s.running.Run?
  {
    match s.running.at
    case FlushFirst(p, n) => SwitchOver(s, p, n, true, cfg)
    case Runtime(p, n, wasActive) =>
      if !wasActive then s.(running := s.running.(at := Applied))
      else if FlushesBeforeRestart(p, n) then s.(running := s.running.(at := FlushAgain))
      else RestartTimer(s)
    case FlushAgain => RestartTimer(s)
    case Applied => s.(switchCount := s.switchCount + 1, running := s.running.(at := Returned(true)))
    case Returned(changed) => Finish(s, changed, cfg)
  }

  // ---------------------------------------------------------------- lifecycle

  function DoActivate(s: State, cfg: Config): State {
    if s.lifecycle != Created then s
    else
      s.(resources := SwitchOn(s.resources, s.modeState, cfg.origin.serverless), flushTimer := TimerOf(s.modeState),
         lifecycle := Active, timerOn := cfg.adaptive.enabled || s.timerOn)
  }

  /** A request entry re-checks the fetch wrapper; middleware calls it only while active. */
  function DoRequestStart(s: State): State {
    if s.modeState.recorders.fetch then s.(resources := s.resources.(fetch := FetchOf(s.modeState))) else s
  }

  predicate Enabled(s: State, step: Step) {
    match step
    case TimePasses(now) => now >= s.now
    case SetCaptureMode(_) => true
    case AdmittedCapture(_) => true
    case RunMicrotask => s.micro != []
    case TimerTick => s.timerOn && s.micro == []  // timers fire with no microtask pending
    case StartTask => s.running.Idle? && s.queue != []
    case ResumeTask => s.running.Run?
    case RequestStart => s.lifecycle == Active
    case Activate => true
    case BeginShutdown => CanSwitch(s.lifecycle)
    case FinishShutdown => s.lifecycle == ShuttingDown && s.running.Idle? && s.queue == []  // the queue's tail has settled
  }

  function Act(s: State, step: Step, cfg: Config): State
    requires Enabled(s, step)
  {
    match step
    case TimePasses(now) => s.(now := now)
    case SetCaptureMode(mode) => DoSet(s, mode, cfg)
    case AdmittedCapture(mode) => DoCapture(s, mode, cfg)
    case RunMicrotask => DoMicrotask(s, cfg)
    case TimerTick => DoTick(s, cfg)
    case StartTask => DoStart(s, cfg)
    case ResumeTask => DoResume(s, cfg)
    case RequestStart => DoRequestStart(s)
    case Activate => DoActivate(s, cfg)
    case BeginShutdown => s.(lifecycle := ShuttingDown, timerOn := false)
    case FinishShutdown => s.(lifecycle := ShutDown, resources := NoResources(), flushTimer := None)
  }

  /** One step of a run; steps are counted. */
  function Next(s: State, step: Step, cfg: Config): State
    requires Enabled(s, step)
  {
    var t := Act(s, step, cfg);
    t.(steps := s.steps + 1)
  }

  /** Settings that init accepts. */
  ghost predicate ValidConfig(cfg: Config, mode: CaptureMode) {
    && Resolve(cfg.user, cfg.origin, mode).Some?
    && cfg.adaptive.maxSwitchesPerHour > 0
    && (cfg.adaptive.enabled ==> cfg.adaptive.base != cfg.adaptive.escalated && mode == cfg.adaptive.base)
  }

  function Init(cfg: Config, mode: CaptureMode, now: int): State
    requires Resolve(cfg.user, cfg.origin, mode).Some?
  {
    var m := Resolve(cfg.user, cfg.origin, mode).value;
    State(Created, m, Overwrite(cfg.origin, m), NoResources(), None, [], Idle, [], false,
          if cfg.adaptive.enabled then Base else Inactive, None, None, [], None, 0, 0, 0, now, 0, now, [])
  }
}
