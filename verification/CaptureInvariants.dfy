/** What every interleaving of the capture-mode controller keeps. */
module CaptureInvariants {
  import opened Wrappers
  import opened CaptureModes
  import opened CaptureControl

  // ---------------------------------------------------------------- resolution

  /** The live mode state, and the target of a switch under way, are what a fresh config resolves to. */
  ghost predicate ModeInv(s: State, cfg: Config) {
    && SameResolution(cfg.user, cfg.origin, s.base)
    && Resolve(cfg.user, cfg.origin, s.modeState.captureMode) == Some(s.modeState)
    && (s.running.Run? ==>
          match s.running.at
          case FlushFirst(p, n) => p == s.modeState && p != n && Resolve(cfg.user, cfg.origin, s.running.task.target) == Some(n)
          case Runtime(_, n, _) => n == s.modeState && s.modeState.captureMode == s.running.task.target
          case _ => s.modeState.captureMode == s.running.task.target)
  }

  /** The four ways applyCaptureMode can go. */
  lemma ApplyShape(s: State, mode: CaptureMode, cfg: Config)
    requires s.running.Run? && SameResolution(cfg.user, cfg.origin, s.base)
    requires Resolve(cfg.user, cfg.origin, s.modeState.captureMode) == Some(s.modeState)
    ensures var t := BeginApply(s, mode, cfg);
            var next := Resolve(cfg.user, cfg.origin, mode);
            if !Applies(s, mode, cfg) then t == s.(running := Idle)
            else if mode == s.modeState.captureMode then t == s.(running := s.running.(at := Returned(false)))
            else
              next.Some? && next.value != s.modeState && next.value.captureMode == mode &&
              if s.lifecycle == Active && s.modeState.flushIntervalMs > 0 && next.value.flushIntervalMs == 0
              then t == s.(running := s.running.(at := FlushFirst(s.modeState, next.value)))
              else t == SwitchOver(s, s.modeState, next.value, s.lifecycle == Active, cfg)
    ensures Applies(s, mode, cfg) <==> CanSwitch(s.lifecycle) && Resolve(cfg.user, cfg.origin, mode).Some?
  {
    hide Resolve, SwitchOver, Diff;
    assert Resolve(cfg.user, cfg.origin, mode) == Resolve(cfg.user, s.base, mode);
    if Applies(s, mode, cfg) {
      SwitchIsNoOpIff(cfg.user, cfg.origin, s.base, s.modeState.captureMode, mode);
      ResolveMode(cfg.user, cfg.origin, mode);
    }
  }

  lemma SwitchOverModeInv(s: State, p: ModeState, n: ModeState, wasActive: bool, cfg: Config)
    requires s.running.Run? && SameResolution(cfg.user, cfg.origin, s.base)
    requires Resolve(cfg.user, cfg.origin, s.running.task.target) == Some(n) && n.captureMode == s.running.task.target
    ensures ModeInv(SwitchOver(s, p, n, wasActive, cfg), cfg)
  {
    hide Toggle, Resolve;
    assert Resolve(cfg.user, s.base, s.running.task.target) == Resolve(cfg.user, cfg.origin, s.running.task.target);
    OverwriteKeepsResolution(cfg.user, cfg.origin, s.base, s.running.task.target);
  }

  lemma ResolveMode(user: UserConfig, base: BaseConfig, mode: CaptureMode)
    ensures Resolve(user, base, mode).Some? ==> Resolve(user, base, mode).value.captureMode == mode
  {
  }

  lemma BeginApplyModeInv(s: State, cfg: Config)
    requires s.running.Run? && SameResolution(cfg.user, cfg.origin, s.base)
    requires Resolve(cfg.user, cfg.origin, s.modeState.captureMode) == Some(s.modeState)
    ensures ModeInv(BeginApply(s, s.running.task.target, cfg), cfg)
  {
    hide BeginApply, Resolve, SameResolution;
    var mode := s.running.task.target;
    ApplyShape(s, mode, cfg);
    if Applies(s, mode, cfg) && mode != s.modeState.captureMode {
      var n := Resolve(cfg.user, cfg.origin, mode).value;
      SwitchOverModeInv(s, s.modeState, n, s.lifecycle == Active, cfg);
    }
  }

  /** An admitted adaptive task just before it applies its mode; Idle when the budget turns it away. */
  function AdaptiveReady(s: State, task: Task, cfg: Config): (u: State)
    requires task.AdaptiveTask? && Admits(s, task, cfg)
    ensures BeginAdaptive(s, task, cfg) == if u.running.Idle? then u else BeginApply(u, task.target, cfg)
    ensures u.running.Run? ==> u.running == Run(task, s.phase, s.now, Applied)
  {
    var recent := Recent(s.timestamps, s.now);
    var limited := |recent| >= cfg.adaptive.maxSwitchesPerHour;
    var t := s.(timestamps := recent, filteredAt := s.now, phase := if limited then Pinned else s.phase,
                running := Run(task, s.phase, s.now, Applied));
    if limited && task.target != cfg.adaptive.escalated then t.(running := Idle)
    else if Applies(t, task.target, cfg) then Noted(t, Switched(task.target, task.requestedAt, s.steps, s.now, limited)) else t
  }

  lemma ModeInvStart(s: State, cfg: Config)
    requires ModeInv(s, cfg) && s.running.Idle? && s.queue != []
    ensures ModeInv(DoStart(s, cfg), cfg)
  {
    hide Resolve, SameResolution, BeginApply, BeginAdaptive;
    var task, t := s.queue[0], s.(queue := s.queue[1..]);
    if task.ManualTask? {
      BeginApplyModeInv(t.(running := Run(task, s.phase, s.now, Applied)), cfg);
    } else if Admits(t, task, cfg) {
      var u := AdaptiveReady(t, task, cfg);
      if u.running.Run? { BeginApplyModeInv(u, cfg); }
    } else {
      NotAdmitted(t, task, cfg);
    }
  }

  lemma NotAdmitted(s: State, task: Task, cfg: Config)
    requires task.AdaptiveTask? && !Admits(s, task, cfg)
    ensures BeginAdaptive(s, task, cfg) == s.(running := Idle)
  {
  }

  lemma ModeInvResume(s: State, cfg: Config)
    requires ModeInv(s, cfg) && s.running.Run?
    ensures ModeInv(DoResume(s, cfg), cfg)
  {
    hide Resolve, SameResolution, TimerOf, SwitchOver;
    if s.running.at.FlushFirst? {
      ResolveMode(cfg.user, cfg.origin, s.running.task.target);
      SwitchOverModeInv(s, s.running.at.previous, s.running.at.next, true, cfg);
    }
  }

  lemma ModeInvNext(s: State, step: Step, cfg: Config)
    requires ModeInv(s, cfg) && Enabled(s, step)
    ensures ModeInv(Next(s, step, cfg), cfg)
  {
    hide Resolve, SameResolution, SwitchOn, TimerOf, DoStart, DoResume;
    match step
    case StartTask => ModeInvStart(s, cfg);
    case ResumeTask => ModeInvResume(s, cfg);
    case _ =>
  }

  // ---------------------------------------------------------------- resources

  /**
    While active, at every await point, what the incremental switches left on is exactly what a
    fresh activate() would switch on; before activation nothing is on.
  */
  ghost predicate ResourceInv(s: State, cfg: Config) {
    && (s.lifecycle == Created ==> s.resources == NoResources())
    && (s.lifecycle == Active ==> s.resources == Fresh(s.modeState, cfg.origin.serverless))
    && (s.lifecycle == Active && !TimerSuspended(s) ==> s.flushTimer == TimerOf(s.modeState))
    && (s.running.Run? && s.running.at.FlushFirst? ==> s.lifecycle != Created)
    && (TimerSuspended(s) ==> s.lifecycle != Created)
  }

  /** A switch under way has not restarted the flush timer yet. */
  predicate TimerSuspended(s: State) {
    s.running.Run? && ((s.running.at.Runtime? && s.running.at.wasActive) || s.running.at.FlushAgain?)
  }

  /** Touching only what differs ends where starting from nothing would. */
  lemma ToggleReachesFresh(p: ModeState, n: ModeState, serverless: bool)
    ensures Toggle(Fresh(p, serverless), p, n, serverless) == Fresh(n, serverless)
  {
  }

  lemma SwitchOnReachesFresh(m: ModeState, serverless: bool)
    ensures SwitchOn(NoResources(), m, serverless) == Fresh(m, serverless)
  {
  }

  lemma SwitchOverResources(s: State, p: ModeState, n: ModeState, wasActive: bool, cfg: Config)
    requires s.running.Run? && p == s.modeState && (wasActive ==> s.lifecycle != Created)
    requires s.lifecycle == Active ==> wasActive && s.resources == Fresh(p, cfg.origin.serverless)
    requires s.lifecycle == Created ==> s.resources == NoResources()
    ensures ResourceInv(SwitchOver(s, p, n, wasActive, cfg), cfg)
  {
    ToggleReachesFresh(p, n, cfg.origin.serverless);
  }

  lemma BeginApplyResources(s: State, cfg: Config)
    requires ResourceInv(s, cfg) && s.running.Run? && s.running.at == Applied && SameResolution(cfg.user, cfg.origin, s.base)
    requires Resolve(cfg.user, cfg.origin, s.modeState.captureMode) == Some(s.modeState)
    ensures ResourceInv(BeginApply(s, s.running.task.target, cfg), cfg)
  {
    hide BeginApply, Resolve, SameResolution, SwitchOver, Fresh;
    var mode := s.running.task.target;
    ApplyShape(s, mode, cfg);
    if Applies(s, mode, cfg) && mode != s.modeState.captureMode {
      SwitchOverResources(s, s.modeState, Resolve(cfg.user, cfg.origin, mode).value, s.lifecycle == Active, cfg);
    }
  }

  lemma ResourceInvStart(s: State, cfg: Config)
    requires ModeInv(s, cfg) && ResourceInv(s, cfg) && s.running.Idle? && s.queue != []
    ensures ResourceInv(DoStart(s, cfg), cfg)
  {
    hide Resolve, SameResolution, BeginApply, BeginAdaptive, Fresh, TimerOf;
    var task, t := s.queue[0], s.(queue := s.queue[1..]);
    if task.ManualTask? {
      BeginApplyResources(t.(running := Run(task, s.phase, s.now, Applied)), cfg);
    } else if Admits(t, task, cfg) {
      var u := AdaptiveReady(t, task, cfg);
      if u.running.Run? { BeginApplyResources(u, cfg); }
    } else {
      NotAdmitted(t, task, cfg);
    }
  }

  lemma ResourceInvResume(s: State, cfg: Config)
    requires ModeInv(s, cfg) && ResourceInv(s, cfg) && s.running.Run?
    ensures ResourceInv(DoResume(s, cfg), cfg)
  {
    hide Resolve, SameResolution, TimerOf, SwitchOver, Fresh;
    if s.running.at.FlushFirst? {
      SwitchOverResources(s, s.running.at.previous, s.running.at.next, true, cfg);
    }
  }

  lemma ResourceInvLifecycle(s: State, step: Step, cfg: Config)
    requires ResourceInv(s, cfg) && Enabled(s, step)
    requires step.Activate? || step.RequestStart? || step.BeginShutdown? || step.FinishShutdown?
    ensures ResourceInv(Act(s, step, cfg), cfg)
  {
    hide TimerOf, SwitchOn;
    if step.Activate? && s.lifecycle == Created { SwitchOnReachesFresh(s.modeState, cfg.origin.serverless); }
  }

  /** The steps that only enqueue, count or pass time. */
  predicate IsCall(step: Step) {
    step.TimePasses? || step.SetCaptureMode? || step.AdmittedCapture? || step.RunMicrotask? || step.TimerTick?
  }

  /** A call leaves alone everything the running task works on. */
  lemma CallFrame(s: State, step: Step, cfg: Config)
    requires IsCall(step) && Enabled(s, step)
    ensures var t := Act(s, step, cfg);
            && t.lifecycle == s.lifecycle && t.modeState == s.modeState && t.base == s.base && t.resources == s.resources
            && t.flushTimer == s.flushTimer && t.running == s.running && t.timerOn == s.timerOn && t.phase == s.phase
            && t.lastEscalationAt == s.lastEscalationAt && t.timestamps == s.timestamps && t.switchCount == s.switchCount
            && t.rearms == s.rearms && t.steps == s.steps && t.filteredAt == s.filteredAt && t.now >= s.now
            && (s.lastCaptureAt.Some? ==> t.lastCaptureAt.Some?)
  {
  }

  lemma ResourceInvNext(s: State, step: Step, cfg: Config)
    requires ModeInv(s, cfg) && ResourceInv(s, cfg) && Enabled(s, step)
    ensures ResourceInv(Next(s, step, cfg), cfg)
  {
    hide Resolve, SameResolution, Act, Fresh, TimerOf;
    if IsCall(step) {
      CallFrame(s, step, cfg);
    } else if step.StartTask? {
      ActTask(s, step, cfg);
      ResourceInvStart(s, cfg);
    } else if step.ResumeTask? {
      ActTask(s, step, cfg);
      ResourceInvResume(s, cfg);
    } else {
      ResourceInvLifecycle(s, step, cfg);
    }
  }

  lemma ActTask(s: State, step: Step, cfg: Config)
    requires Enabled(s, step)
    ensures step.StartTask? ==> Act(s, step, cfg) == DoStart(s, cfg)
    ensures step.ResumeTask? ==> Act(s, step, cfg) == DoResume(s, cfg)
  {
  }
}
