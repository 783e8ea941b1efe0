/**
  The controller and the part of the SDK instance it drives, as the objects they are.  Each method
  is one segment of the source, and is proved to take the controller's view one step of
  CaptureControl further, so the theorems of CaptureRuns speak of these objects.
*/
module CaptureControllers {
  import opened Wrappers
  import opened CaptureModes
  import opened CaptureControl

  /** SDKInstance: lifecycle, resources and the config object that mode switches overwrite. */
  class SdkInstance {
    const serverless: bool
    var lifecycle: Lifecycle
    var base: BaseConfig
    var httpServer: bool
    var channels: Channels
    var fetch: Option<bool>
    var netDns: bool
    var database: bool
    var processHandlers: bool
    var lagMonitor: bool
    var flushTimer: Option<int>

    ghost function ResourcesOn(): Resources
      reads `httpServer, `channels, `fetch, `netDns, `database, `processHandlers, `lagMonitor
    {
      Resources(httpServer, channels, fetch, netDns, database, processHandlers, lagMonitor)
    }

    constructor (serverless: bool, base: BaseConfig)
      ensures this.serverless == serverless && lifecycle == Created && this.base == base
      ensures ResourcesOn() == NoResources() && flushTimer == None
    {
      this.serverless, lifecycle, this.base := serverless, Created, base;
      httpServer, channels, fetch := false, Channels(false, false, false, false), None;
      netDns, database, processHandlers, lagMonitor, flushTimer := false, false, false, false, None;
    }

    method UpdateChannelSubscriptions(recorders: Recorders)
      modifies `channels
      ensures channels == ChannelsOf(recorders)
    {
      channels := Channels(recorders.httpServer, recorders.httpClient, recorders.undici, recorders.netDns);
    }

    method SetFetchRecorderEnabled(enabled: bool, m: ModeState)
      modifies `fetch
      ensures fetch == if enabled then Some(m.captureResponseBodies) else None
    {
      if enabled {
        fetch := Some(m.captureResponseBodies);
      } else if fetch.Some? {
        fetch := None;
      }
    }

    method ApplyModeStateToConfig(next: ModeState)
      modifies `base
      ensures base == Overwrite(old(base), next)
    {
      base := base.(payloadSpool := next.payloadSpool);
      base := base.(maxLocalsCollectionsPerSecond := next.maxLocalsCollectionsPerSecond);
      base := base.(maxCachedLocals := next.maxCachedLocals);
    }

    method RestartFlushTimer(m: ModeState)
      modifies `flushTimer
      ensures flushTimer == TimerOf(m)
    {
      if flushTimer.Some? {
        flushTimer := None;
      }
      if !m.recorders.transport || m.flushIntervalMs <= 0 {
        return;
      }
      flushTimer := Some(m.flushIntervalMs);
    }

    /** activate() for the recorders that listen to HTTP traffic. */
    method SwitchOnHttp(m: ModeState)
      modifies `httpServer, `channels, `fetch
      ensures httpServer == (m.recorders.httpServer || old(httpServer))
      ensures channels == if m.recorders.httpServer || m.recorders.httpClient || m.recorders.undici || m.recorders.netDns
                          then ChannelsOf(m.recorders) else old(channels)
      ensures fetch == if m.recorders.fetch then FetchOf(m) else old(fetch)
    {
      var r := m.recorders;
      if r.httpServer {
        httpServer := true;
      }
      if r.httpServer || r.httpClient || r.undici || r.netDns {
        UpdateChannelSubscriptions(r);
      }
      if r.fetch {
        SetFetchRecorderEnabled(true, m);
      }
    }

    /** activate() for the rest. */
    method SwitchOnOthers(m: ModeState)
      modifies `netDns, `database, `processHandlers, `lagMonitor
      ensures netDns == (m.recorders.netDns || old(netDns)) && database == (m.recorders.database || old(database))
      ensures processHandlers == (m.recorders.processHandlers || old(processHandlers))
      ensures lagMonitor == ((!serverless && m.capabilities.eventLoopLagMonitor) || old(lagMonitor))
    {
      if m.recorders.netDns {
        netDns := true;
      }
      if m.recorders.database {
        database := true;
      }
      if m.recorders.processHandlers {
        processHandlers := true;
      }
      if !serverless && m.capabilities.eventLoopLagMonitor {
        lagMonitor := true;
      }
    }

    /** activate(): nothing unless created; otherwise switch on what the mode wants. */
    method Activate(m: ModeState) returns (activated: bool)
      modifies this
      ensures activated == (old(lifecycle) == Created) && base == old(base)
      ensures !activated ==> unchanged(this)
      ensures activated ==> lifecycle == Active && flushTimer == TimerOf(m) && ResourcesOn() == SwitchOn(old(ResourcesOn()), m, serverless)
    {
      hide TimerOf, ChannelsOf, FetchOf;
      if lifecycle != Created {
        return false;
      }
      SwitchOnHttp(m);
      SwitchOnOthers(m);
      RestartFlushTimer(m);
      lifecycle := Active;
      activated := true;
    }

    /** The resource block of applyModeState, HTTP part. */
    method ToggleHttp(previous: ModeState, next: ModeState)
      modifies `httpServer, `channels, `fetch
      ensures httpServer == if previous.recorders.httpServer != next.recorders.httpServer then next.recorders.httpServer else old(httpServer)
      ensures channels == ChannelsOf(next.recorders)
      ensures fetch == if previous.recorders.fetch != next.recorders.fetch
                          || (next.recorders.fetch && previous.captureResponseBodies != next.captureResponseBodies)
                       then FetchOf(next) else old(fetch)
    {
      if previous.recorders.httpServer != next.recorders.httpServer {
        httpServer := next.recorders.httpServer;
      }
      UpdateChannelSubscriptions(next.recorders);
      if previous.recorders.fetch != next.recorders.fetch
         || (next.recorders.fetch && previous.captureResponseBodies != next.captureResponseBodies) {
        SetFetchRecorderEnabled(next.recorders.fetch, next);
      }
    }

    /** The resource block of applyModeState, patched modules, and below what watches the process. */
    method ToggleModules(previous: ModeState, next: ModeState)
      modifies `netDns, `database
      ensures netDns == if previous.recorders.netDns != next.recorders.netDns then next.recorders.netDns else old(netDns)
      ensures database == if previous.recorders.database != next.recorders.database then next.recorders.database else old(database)
    {
      if previous.recorders.netDns != next.recorders.netDns {
        netDns := next.recorders.netDns;
      }
      if previous.recorders.database != next.recorders.database {
        database := next.recorders.database;
      }
    }

    method ToggleProcess(previous: ModeState, next: ModeState)
      modifies `processHandlers, `lagMonitor
      ensures processHandlers == if previous.recorders.processHandlers != next.recorders.processHandlers
                                 then next.recorders.processHandlers else old(processHandlers)
      ensures lagMonitor == if !serverless && previous.capabilities.eventLoopLagMonitor != next.capabilities.eventLoopLagMonitor
                            then next.capabilities.eventLoopLagMonitor else old(lagMonitor)
    {
      if previous.recorders.processHandlers != next.recorders.processHandlers {
        processHandlers := next.recorders.processHandlers;
      }
      if !serverless && previous.capabilities.eventLoopLagMonitor != next.capabilities.eventLoopLagMonitor {
        lagMonitor := next.capabilities.eventLoopLagMonitor;
      }
    }

    method ToggleRecorders(previous: ModeState, next: ModeState)
      modifies `httpServer, `channels, `fetch, `netDns, `database, `processHandlers, `lagMonitor
      ensures ResourcesOn() == Toggle(old(ResourcesOn()), previous, next, serverless)
    {
      ToggleHttp(previous, next);
      ToggleModules(previous, next);
      ToggleProcess(previous, next);
    }
  }

  // What a step of the system is, one at a time.

  lemma SetIs(s: State, mode: CaptureMode, cfg: Config)
    ensures Enabled(s, Step.SetCaptureMode(mode))
    ensures Next(s, Step.SetCaptureMode(mode), cfg) == DoSet(s, mode, cfg).(steps := s.steps + 1)
  {
  }

  lemma CaptureIs(s: State, mode: CaptureMode, cfg: Config)
    ensures Enabled(s, AdmittedCapture(mode))
    ensures Next(s, AdmittedCapture(mode), cfg) == DoCapture(s, mode, cfg).(steps := s.steps + 1)
  {
  }

  lemma MicrotaskIs(s: State, cfg: Config)
    requires s.micro != []
    ensures Enabled(s, Step.RunMicrotask)
    ensures Next(s, Step.RunMicrotask, cfg) == DoMicrotask(s, cfg).(steps := s.steps + 1)
  {
  }

  lemma TickIs(s: State, cfg: Config)
    requires s.timerOn && s.micro == []
    ensures Enabled(s, TimerTick)
    ensures Next(s, TimerTick, cfg) == DoTick(s, cfg).(steps := s.steps + 1)
  {
  }

  lemma StartIs(s: State, cfg: Config)
    requires s.running.Idle? && s.queue != []
    ensures Enabled(s, Step.StartTask)
    ensures Next(s, Step.StartTask, cfg) == DoStart(s, cfg).(steps := s.steps + 1)
  {
  }

  lemma DoStartIs(s: State, cfg: Config)
    requires s.running.Idle? && s.queue != []
    ensures var task := s.queue[0]; var t := s.(queue := s.queue[1..]);
            DoStart(s, cfg) == if task.ManualTask? then BeginApply(t.(running := Run(task, s.phase, s.now, Applied)), task.target, cfg)
                               else BeginAdaptive(t, task, cfg)
  {
    hide BeginApply, BeginAdaptive;
  }

  /** What an adaptive task does before it looks at the budget. */
  function Filtered(s: State, task: Task, cfg: Config): State {
    var recent := Recent(s.timestamps, s.now);
    s.(timestamps := recent, filteredAt := s.now,
       phase := if |recent| >= cfg.adaptive.maxSwitchesPerHour then Pinned else s.phase,
       running := Run(task, s.phase, s.now, Applied))
  }

  function Logged(t: State, task: Task, limited: bool, cfg: Config): State
    requires task.AdaptiveTask?
  {
    if Applies(t, task.target, cfg) then Noted(t, Switched(task.target, task.requestedAt, t.steps, t.now, limited)) else t
  }

  lemma BeginAdaptiveIs(s: State, task: Task, cfg: Config)
    requires task.AdaptiveTask?
    ensures Filtered(s, task, cfg).running.Run? && forall limited :: Logged(Filtered(s, task, cfg), task, limited, cfg).running.Run?
    ensures BeginAdaptive(s, task, cfg) ==
              if !Admits(s, task, cfg) then s.(running := Idle)
              else
                var limited := |Recent(s.timestamps, s.now)| >= cfg.adaptive.maxSwitchesPerHour;
                if limited && task.target != cfg.adaptive.escalated then Filtered(s, task, cfg).(running := Idle)
                else BeginApply(Logged(Filtered(s, task, cfg), task, limited, cfg), task.target, cfg)
  {
    hide BeginApply, Admits, Recent;
  }

  lemma ResumeIs(s: State, cfg: Config)
    requires s.running.Run?
    ensures Enabled(s, Step.ResumeTask)
    ensures Next(s, Step.ResumeTask, cfg) == DoResume(s, cfg).(steps := s.steps + 1)
  {
  }

  lemma ResumeKeepsSteps(s: State, cfg: Config)
    requires s.running.Run?
    ensures DoResume(s, cfg).steps == s.steps
  {
  }

  lemma ActivateIs(s: State, cfg: Config)
    ensures Enabled(s, Step.Activate)
    ensures Next(s, Step.Activate, cfg) == DoActivate(s, cfg).(steps := s.steps + 1)
  {
  }

  lemma ShutdownIs(s: State, cfg: Config)
    requires CanSwitch(s.lifecycle)
    ensures Enabled(s, Step.BeginShutdown)
    ensures Next(s, Step.BeginShutdown, cfg) == s.(lifecycle := ShuttingDown, timerOn := false).(steps := s.steps + 1)
  {
  }

  class CaptureModeController {
    const cfg: Config
    const sdk: SdkInstance
    var modeState: ModeState
    var queue: seq<Task>
    var running: Running
    var micro: seq<Micro>
    var timerOn: bool
    var phase: Phase
    var lastEscalationAt: Option<int>
    var lastCaptureAt: Option<int>
    var timestamps: seq<int>
    var escalationGeneration: Option<int>
    var generation: int
    var switchCount: int
    var rearms: nat
    var now: int
    var steps: nat
    ghost var filteredAt: int
    ghost var log: seq<Note>

    ghost function View(): State
      reads this, sdk
    {
      State(sdk.lifecycle, modeState, sdk.base, sdk.ResourcesOn(), sdk.flushTimer, queue, running, micro, timerOn,
            phase, lastEscalationAt, lastCaptureAt, timestamps, escalationGeneration, generation, switchCount, rearms,
            now, steps, filteredAt, log)
    }

    ghost predicate Valid()
      reads this
    {
      sdk.serverless == cfg.origin.serverless
    }

    /** The view at the start of a call made at time t. */
    ghost function At(t: int): State
      reads this, sdk
    {
      View().(now := t)
    }

    constructor (cfg: Config, sdk: SdkInstance, mode: CaptureMode, now: int)
      requires ValidConfig(cfg, mode) && sdk.serverless == cfg.origin.serverless && sdk.lifecycle == Created
      requires sdk.ResourcesOn() == NoResources() && sdk.flushTimer == None
      requires sdk.base == Overwrite(cfg.origin, Resolve(cfg.user, cfg.origin, mode).value)
      ensures Valid() && this.cfg == cfg && this.sdk == sdk && View() == Init(cfg, mode, now)
    {
      this.cfg, this.sdk := cfg, sdk;
      modeState := Resolve(cfg.user, cfg.origin, mode).value;
      queue, running, micro, timerOn := [], Idle, [], false;
      phase := if cfg.adaptive.enabled then Base else Inactive;
      lastEscalationAt, lastCaptureAt, timestamps, escalationGeneration := None, None, [], None;
      generation, switchCount, rearms, this.now, steps, filteredAt, log := 0, 0, 0, now, 0, now, [];
    }

    /** What the view shows of the fields a call looks at first. */
    lemma Shown()
      ensures View().lifecycle == sdk.lifecycle && View().queue == queue && View().running == running && View().phase == phase
      ensures View().micro == micro && View().timerOn == timerOn && View().now == now && View().steps == steps
    {
    }

    /** A call is made at time t. */
    method ReadClock(t: int)
      modifies `now
      ensures now == t && View() == old(At(t))
    {
      now := t;
    }

    method CountStep()
      modifies `steps
      ensures View() == old(View()).(steps := old(steps) + 1)
    {
      steps := steps + 1;
    }

    method SetCaptureMode(t: int, mode: CaptureMode) returns (accepted: bool)
      requires Valid() && t >= now
      modifies this
      ensures Valid() && accepted == CanSwitch(sdk.lifecycle)
      ensures View() == Next(old(At(t)), Step.SetCaptureMode(mode), cfg)
    {
      hide Next, Enabled, DoSet, View;
      Shown();
      SetIs(At(t), mode, cfg);
      ReadClock(t);
      accepted := RequestMode(mode);
      CountStep();
    }

    method RequestMode(mode: CaptureMode) returns (accepted: bool)
      modifies `generation, `escalationGeneration, `queue, `log
      ensures accepted == CanSwitch(sdk.lifecycle) && View() == DoSet(old(View()), mode, cfg)
    {
      hide View;
      Shown();
      if !(sdk.lifecycle == Created || sdk.lifecycle == Active) {
        return false;
      }
      if cfg.adaptive.enabled {
        OutdateIntents();
      }
      QueueManual(mode);
      accepted := true;
    }

    /** An accepted manual choice outdates every adaptive intent. */
    method OutdateIntents()
      modifies `generation, `escalationGeneration
      ensures View() == old(View()).(generation := old(View()).generation + 1, escalationGeneration := None)
    {
      generation := generation + 1;
      escalationGeneration := None;
    }

    method QueueManual(mode: CaptureMode)
      modifies `queue, `log
      ensures View() == var s := old(View()); s.(queue := s.queue + [ManualTask(mode)], log := s.log + [Accepted(s.steps)])
    {
      queue := queue + [ManualTask(mode)];
      log := log + [Accepted(steps)];
    }

    method HandleAdmittedCapture(t: int, modeAtCapture: CaptureMode)
      requires Valid() && t >= now
      modifies this
      ensures Valid() && View() == Next(old(At(t)), AdmittedCapture(modeAtCapture), cfg)
    {
      hide Next, Enabled, DoCapture, View;
      Shown();
      CaptureIs(At(t), modeAtCapture, cfg);
      ReadClock(t);
      NoteCapture(t, modeAtCapture);
      CountStep();
    }

    /** A capture's time, and in the base phase at most one pending escalation. */
    method NoteCapture(t: int, modeAtCapture: CaptureMode)
      requires t == now
      modifies `lastCaptureAt, `escalationGeneration, `micro
      ensures View() == DoCapture(old(View()), modeAtCapture, cfg)
    {
      hide SdkInstance.ResourcesOn;
      if !cfg.adaptive.enabled {
        return;
      }
      lastCaptureAt := Some(t);
      if phase == Base && modeAtCapture == cfg.adaptive.base && escalationGeneration == None {
        escalationGeneration := Some(generation);
        micro := micro + [Micro(generation, steps)];
      }
    }

    /** The microtask a capture queued. */
    method RunMicrotask(t: int)
      requires Valid() && t >= now && micro != []
      modifies this
      ensures Valid() && View() == Next(old(At(t)), Step.RunMicrotask, cfg)
    {
      hide Next, Enabled, DoMicrotask, View;
      Shown();
      MicrotaskIs(At(t), cfg);
      ReadClock(t);
      TakeMicrotask();
      CountStep();
    }

    method TakeMicrotask()
      requires micro != []
      modifies `micro, `escalationGeneration, `queue
      ensures old(View()).micro != [] && View() == DoMicrotask(old(View()), cfg)
    {
      hide SdkInstance.ResourcesOn;
      var m := micro[0];
      micro := micro[1..];
      if escalationGeneration == Some(m.generation) {
        escalationGeneration := None;
      }
      SwitchAdaptiveMode(cfg.adaptive.escalated, m.generation, m.requestedAt);
    }

    method SwitchAdaptiveMode(target: CaptureMode, generation: int, requestedAt: nat)
      modifies `queue
      ensures View() == Enqueue(old(View()), target, generation, requestedAt)
    {
      if sdk.lifecycle != Active {
        return;
      }
      queue := queue + [AdaptiveTask(target, generation, requestedAt)];
    }

    method EvaluateAdaptiveDeescalation(t: int)
      requires Valid() && t >= now && timerOn && micro == []
      modifies this
      ensures Valid() && View() == Next(old(At(t)), TimerTick, cfg)
    {
      hide Next, Enabled, DoTick, View;
      Shown();
      TickIs(At(t), cfg);
      ReadClock(t);
      Evaluate(t);
      CountStep();
    }

    method Evaluate(t: int)
      requires t == now
      modifies `queue
      ensures View() == DoTick(old(View()), cfg)
    {
      if !cfg.adaptive.enabled || phase != Escalated || lastEscalationAt.None? || lastCaptureAt.None? {
        return;
      }
      var quietMs := t - lastCaptureAt.value;
      var dwellMs := t - lastEscalationAt.value;
      if quietMs >= cfg.adaptive.deescalateAfterMs && dwellMs >= cfg.adaptive.minDwellMs {
        SwitchAdaptiveMode(cfg.adaptive.base, generation, steps);
      }
    }

    /** applyModeState, second segment: from the toggles to the await of the runtime resources. */
    method SwitchOver(previous: ModeState, next: ModeState, wasActive: bool)
      requires Valid() && running.Run?
      modifies `modeState, `running, sdk`base
      modifies sdk`httpServer, sdk`channels, sdk`fetch, sdk`netDns, sdk`database, sdk`processHandlers, sdk`lagMonitor
      ensures View() == CaptureControl.SwitchOver(old(View()), previous, next, wasActive, cfg)
    {
      hide Toggle;
      if wasActive {
        sdk.ToggleRecorders(previous, next);
      }
      modeState := next;
      sdk.ApplyModeStateToConfig(next);
      running := running.(at := Runtime(previous, next, wasActive));
    }

    /** applyCaptureMode and applyModeState, first segment. */
    method BeginApply(mode: CaptureMode)
      requires Valid() && running.Run?
      modifies `modeState, `running, sdk`base
      modifies sdk`httpServer, sdk`channels, sdk`fetch, sdk`netDns, sdk`database, sdk`processHandlers, sdk`lagMonitor
      ensures View() == CaptureControl.BeginApply(old(View()), mode, cfg)
    {
      hide Toggle, Resolve, Diff;
      if !CanSwitch(sdk.lifecycle) {
        running := Idle;
        return;
      }
      var next := Resolve(cfg.user, sdk.base, mode);
      if next.None? {
        running := Idle;
        return;
      }
      var changed := Diff(modeState, next.value);
      if |changed| == 0 {
        running := running.(at := Returned(false));
        return;
      }
      var wasActive := sdk.lifecycle == Active;
      if wasActive && modeState.flushIntervalMs > 0 && next.value.flushIntervalMs == 0 {
        running := running.(at := FlushFirst(modeState, next.value));
        return;
      }
      SwitchOver(modeState, next.value, wasActive);
    }

    method FilterRecent(t: int) returns (kept: seq<int>)
      ensures kept == Recent(timestamps, t)
    {
      kept := [];
      for i := 0 to |timestamps|
        invariant kept == Recent(timestamps[..i], t)
      {
        assert timestamps[..i + 1][..i] == timestamps[..i];
        if t - timestamps[i] < HOUR_MS {
          kept := kept + [timestamps[i]];
        }
      }
      assert timestamps[..|timestamps|] == timestamps;
    }

    method ApplyAdaptiveCaptureMode(t: int, task: Task)
      requires Valid() && task.AdaptiveTask? && t == now
      modifies `modeState, `running, `timestamps, `filteredAt, `phase, `log, sdk`base
      modifies sdk`httpServer, sdk`channels, sdk`fetch, sdk`netDns, sdk`database, sdk`processHandlers, sdk`lagMonitor
      ensures Valid() && View() == BeginAdaptive(old(View()), task, cfg)
    {
      hide BeginAdaptive, CaptureControl.BeginApply, Admits, Filtered, Logged, Recent, View;
      BeginAdaptiveIs(View(), task, cfg);
      var current := IsCurrentTask(task);
      if !current {
        Stop();
        return;
      }
      var limited := FilterTimestamps(t, task);
      if limited && task.target != cfg.adaptive.escalated {
        Stop();
        return;
      }
      NoteSwitch(t, task, limited);
      BeginApply(task.target);
    }

    method Stop()
      modifies `running
      ensures running == Idle && View() == old(View()).(running := Idle)
    {
      running := Idle;
    }

    method IsCurrentTask(task: Task) returns (current: bool)
      requires task.AdaptiveTask?
      ensures current == Admits(View(), task, cfg)
    {
      current := task.generation == generation && sdk.lifecycle == Active && IsCurrentAdaptiveTransition(task.target);
    }

    /** Forgets switches an hour old, and pins the phase when the hour's budget is spent. */
    method FilterTimestamps(t: int, task: Task) returns (limited: bool)
      requires t == now
      modifies `running, `timestamps, `filteredAt, `phase
      ensures running.Run? && View() == Filtered(old(View()), task, cfg)
      ensures limited == (|Recent(old(View()).timestamps, old(View()).now)| >= cfg.adaptive.maxSwitchesPerHour)
    {
      hide Recent, View;
      Shown();
      Mark(t, task);
      ForgetOld(t);
      limited := |timestamps| >= cfg.adaptive.maxSwitchesPerHour;
      if limited {
        SetPhase(Pinned);
      }
    }

    method ForgetOld(t: int)
      modifies `timestamps, `filteredAt
      ensures timestamps == Recent(old(View()).timestamps, t) && View() == old(View()).(timestamps := timestamps, filteredAt := t)
    {
      hide Recent;
      var recent := FilterRecent(t);
      timestamps, filteredAt := recent, t;
    }

    method NoteSwitch(t: int, task: Task, limited: bool)
      requires task.AdaptiveTask? && t == now
      modifies `log
      ensures View() == Logged(old(View()), task, limited, cfg)
    {
      if Applies(View(), task.target, cfg) {
        log := log + [Switched(task.target, task.requestedAt, steps, t, limited)];
      }
    }

    predicate IsCurrentAdaptiveTransition(target: CaptureMode)
      reads this
    {
      if target == cfg.adaptive.escalated then phase == Base && modeState.captureMode == cfg.adaptive.base
      else if target == cfg.adaptive.base then phase == Escalated && modeState.captureMode == cfg.adaptive.escalated
      else false
    }

    /** The queue's head starts when its predecessor has settled. */
    method StartTask(t: int)
      requires Valid() && t >= now && running.Idle? && queue != []
      modifies this, sdk
      ensures Valid() && View() == Next(old(At(t)), Step.StartTask, cfg)
    {
      hide Next, Enabled, DoStart, View;
      Shown();
      StartIs(At(t), cfg);
      ReadClock(t);
      RunHead(t);
      CountStep();
    }

    method RunHead(t: int)
      requires Valid() && t == now && running.Idle? && queue != []
      modifies `queue, `modeState, `running, `timestamps, `filteredAt, `phase, `log, sdk`base
      modifies sdk`httpServer, sdk`channels, sdk`fetch, sdk`netDns, sdk`database, sdk`processHandlers, sdk`lagMonitor
      ensures Valid() && old(View()).running.Idle? && old(View()).queue != [] && View() == DoStart(old(View()), cfg)
    {
      hide BeginAdaptive, CaptureControl.BeginApply, DoStart, View;
      Shown();
      DoStartIs(View(), cfg);
      var task := Shift();
      if task.ManualTask? {
        Mark(t, task);
        BeginApply(task.target);
      } else {
        ApplyAdaptiveCaptureMode(t, task);
      }
    }

    method Shift() returns (task: Task)
      requires queue != []
      modifies `queue
      ensures task == old(queue)[0] && View() == old(View()).(queue := old(queue)[1..])
    {
      task := queue[0];
      queue := queue[1..];
    }

    method Mark(t: int, task: Task)
      requires t == now
      modifies `running
      ensures running.Run? && View() == old(View()).(running := Run(task, old(View()).phase, old(View()).now, Applied))
    {
      running := Run(task, phase, t, Applied);
    }

    method ReconcileManualAdaptiveState(t: int, target: CaptureMode, previousPhase: Phase)
      requires t == now
      modifies `phase, `lastEscalationAt, `lastCaptureAt, `rearms
      ensures View() == Reconcile(old(View()), target, previousPhase, cfg)
    {
      hide View;
      Shown();
      if !cfg.adaptive.enabled {
        return;
      }
      if target == cfg.adaptive.base {
        SetPhase(Base);
        return;
      }
      if target == cfg.adaptive.escalated {
        SetPhase(Escalated);
        Rearm(t, previousPhase);
        return;
      }
      SetPhase(Manual);
    }

    method SetPhase(next: Phase)
      modifies `phase
      ensures View() == old(View()).(phase := next)
    {
      phase := next;
    }

    /** A manual choice of the escalated mode counts as an escalation made now. */
    method Rearm(t: int, previousPhase: Phase)
      modifies `lastEscalationAt, `lastCaptureAt, `rearms
      ensures View() == var s := old(View());
                        s.(lastEscalationAt := Some(t), lastCaptureAt := Some(t),
                           rearms := if previousPhase != Escalated && s.lifecycle == Active then s.rearms + 1 else s.rearms)
    {
      hide SdkInstance.ResourcesOn;
      lastEscalationAt := Some(t);
      lastCaptureAt := Some(t);
      if previousPhase != Escalated && sdk.lifecycle == Active {
        rearms := rearms + 1;
      }
    }

    /** The end of applyAdaptiveCaptureMode, after a switch that changed something. */
    method RecordAdaptiveSwitch(target: CaptureMode, startedAt: int)
      modifies `phase, `lastEscalationAt, `rearms, `timestamps
      ensures View() == FinishAdaptive(old(View()), target, startedAt, true, cfg)
    {
      hide View;
      Shown();
      KeepTimestamp(startedAt);
      if target == cfg.adaptive.escalated {
        SetPhase(if phase == Pinned then Pinned else Escalated);
        NoteEscalation(startedAt);
      } else {
        SetPhase(Base);
      }
    }

    method KeepTimestamp(startedAt: int)
      modifies `timestamps
      ensures View() == old(View()).(timestamps := old(View()).timestamps + [startedAt])
    {
      timestamps := timestamps + [startedAt];
    }

    method NoteEscalation(startedAt: int)
      modifies `lastEscalationAt, `rearms
      ensures View() == old(View()).(lastEscalationAt := Some(startedAt), rearms := old(View()).rearms + 1)
    {
      lastEscalationAt := Some(startedAt);
      rearms := rearms + 1;
    }

    method NoteDone(t: int, target: CaptureMode)
      modifies `log
      ensures View() == Noted(old(View()), ManualDone(t, target))
    {
      log := log + [ManualDone(t, target)];
    }

    /** The last segment of a task. */
    method FinishTask(t: int)
      requires running.Run? && running.at.Returned? && t == now
      modifies `running, `phase, `lastEscalationAt, `lastCaptureAt, `rearms, `timestamps, `log
      ensures old(View()).running.Run? && View() == Finish(old(View()), old(running.at.changed), cfg)
    {
      hide Reconcile, Noted, View;
      Shown();
      var task, previousPhase, startedAt, changed := running.task, running.previousPhase, running.startedAt, running.at.changed;
      Stop();
      if task.ManualTask? {
        ReconcileManualAdaptiveState(t, task.target, previousPhase);
        NoteDone(t, task.target);
      } else if changed {
        RecordAdaptiveSwitch(task.target, startedAt);
      }
    }

    /** The running task's next segment, after the await it stopped at. */
    method ResumeTask(t: int)
      requires Valid() && t >= now && running.Run?
      modifies this, sdk
      ensures Valid() && View() == Next(old(At(t)), Step.ResumeTask, cfg)
    {
      hide DoResume, Next, Enabled, View;
      Shown();
      ResumeIs(At(t), cfg);
      ResumeKeepsSteps(At(t), cfg);
      ReadClock(t);
      Continue(t);
      Shown();
      CountStep();
    }

    method Continue(t: int)
      requires Valid() && t == now && running.Run?
      modifies this, sdk
      ensures Valid() && old(View()).running.Run? && View() == DoResume(old(View()), cfg)
    {
      hide Finish, CaptureControl.SwitchOver, TimerOf;
      match running.at {
        case FlushFirst(previous, next) => SwitchOver(previous, next, true);
        case Runtime(previous, next, wasActive) =>
          if wasActive && FlushesBeforeRestart(previous, next) {
            running := running.(at := FlushAgain);
          } else {
            if wasActive { sdk.RestartFlushTimer(modeState); }
            running := running.(at := Applied);
          }
        case FlushAgain =>
          sdk.RestartFlushTimer(modeState);
          running := running.(at := Applied);
        case Applied =>
          switchCount := switchCount + 1;
          running := running.(at := Returned(true));
        case Returned(_) => FinishTask(t);
      }
    }

    method Activate(t: int)
      requires Valid() && t >= now
      modifies this, sdk
      ensures Valid() && View() == Next(old(At(t)), Step.Activate, cfg)
    {
      hide SwitchOn, TimerOf, Next, Enabled;
      ActivateIs(At(t), cfg);
      now, steps := t, steps + 1;
      var activated := sdk.Activate(modeState);
      if activated && cfg.adaptive.enabled && !timerOn {
        timerOn := true;
      }
    }

    method BeginShutdown(t: int)
      requires Valid() && t >= now && CanSwitch(sdk.lifecycle)
      modifies this, sdk`lifecycle
      ensures Valid() && View() == Next(old(At(t)), Step.BeginShutdown, cfg)
    {
      hide Next;
      ShutdownIs(At(t), cfg);
      now, steps := t, steps + 1;
      sdk.lifecycle := ShuttingDown;
      if timerOn {
        timerOn := false;
      }
    }
  }
}
