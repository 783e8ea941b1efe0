/** The adaptive phase and the mode agree at every boundary between queued tasks. */
module CapturePhases {
  import opened CaptureModes
  import opened CaptureControl
  import opened CaptureInvariants

  /** What health reporting and users may conclude from the phase. */
  predicate PhaseMatchesMode(phase: Phase, mode: CaptureMode, a: Adaptive) {
    match phase
    case Base => mode == a.base
    case Escalated => mode == a.escalated
    case Pinned => mode == a.escalated
    case Manual => mode != a.base && mode != a.escalated
    case Inactive => false
  }

  predicate Stamped(s: State) {
    s.phase == Escalated ==> s.lastEscalationAt.Some? && s.lastCaptureAt.Some?
  }

  predicate AdaptiveOk(task: Task, cfg: Config) {
    task.AdaptiveTask? ==> cfg.adaptive.enabled && (task.target == cfg.adaptive.base || task.target == cfg.adaptive.escalated)
  }

  /** The phase while a task runs: the old one until the task's last segment. */
  predicate PhaseWhileRunning(s: State, cfg: Config)
    requires s.running.Run?
  {
    if s.running.task.ManualTask? then
      s.phase != Inactive && (s.running.at.FlushFirst? ==> PhaseMatchesMode(s.phase, s.modeState.captureMode, cfg.adaptive))
    else
      && s.running.at != Returned(false)
      && if s.running.task.target == cfg.adaptive.escalated then s.phase == Base || s.phase == Pinned else s.phase == Escalated
  }

  ghost predicate PhaseInv(s: State, cfg: Config) {
    && (cfg.adaptive.enabled ==> cfg.adaptive.base != cfg.adaptive.escalated)
    && cfg.adaptive.maxSwitchesPerHour > 0
    && (forall k :: 0 <= k < |s.queue| ==> AdaptiveOk(s.queue[k], cfg))
    && (forall k :: 0 <= k < |s.queue| && s.queue[k].AdaptiveTask? ==> s.lastCaptureAt.Some?)
    && (s.micro != [] ==> cfg.adaptive.enabled && s.lastCaptureAt.Some?)
    && (s.running.Run? ==> AdaptiveOk(s.running.task, cfg) && (s.running.task.AdaptiveTask? ==> s.lastCaptureAt.Some?))
    && (s.timestamps != [] || (s.running.Run? && s.running.task.AdaptiveTask?) ==>
          Resolve(cfg.user, cfg.origin, cfg.adaptive.escalated).Some?)
    && Stamped(s)
    && (!cfg.adaptive.enabled ==> s.phase == Inactive)
    && (cfg.adaptive.enabled ==>
          if s.running.Idle? then PhaseMatchesMode(s.phase, s.modeState.captureMode, cfg.adaptive) else PhaseWhileRunning(s, cfg))
  }

  lemma PhaseInvCall(s: State, step: Step, cfg: Config)
    requires PhaseInv(s, cfg) && IsCall(step) && Enabled(s, step)
    ensures PhaseInv(Act(s, step, cfg), cfg)
  {
    hide Resolve, Act;
    CallFrame(s, step, cfg);
    QueueFrame(s, step, cfg);
  }

  /** What a call may add to the queues. */
  lemma QueueFrame(s: State, step: Step, cfg: Config)
    requires PhaseInv(s, cfg) && IsCall(step) && Enabled(s, step)
    ensures var t := Act(s, step, cfg);
            && (t.micro != [] ==> cfg.adaptive.enabled && t.lastCaptureAt.Some?)
            && |t.queue| >= |s.queue|
            && (forall k :: 0 <= k < |t.queue| ==> AdaptiveOk(t.queue[k], cfg))
            && (forall k :: 0 <= k < |t.queue| && t.queue[k].AdaptiveTask? ==> t.lastCaptureAt.Some?)
  {
    hide Resolve;
  }

  lemma {:induction false} RecentNonempty(timestamps: seq<int>, now: int)
    ensures Recent(timestamps, now) != [] ==> timestamps != []
  {
  }

  lemma PhaseInvStart(s: State, cfg: Config)
    requires ModeInv(s, cfg) && PhaseInv(s, cfg) && s.running.Idle? && s.queue != []
    ensures PhaseInv(DoStart(s, cfg), cfg)
  {
    hide Resolve, SameResolution, BeginApply, BeginAdaptive, Recent, Toggle;
    var task, t := s.queue[0], s.(queue := s.queue[1..]);
    assert AdaptiveOk(s.queue[0], cfg);
    if task.ManualTask? {
      ApplyShape(t.(running := Run(task, s.phase, s.now, Applied)), task.target, cfg);
    } else if Admits(t, task, cfg) {
      var u := AdaptiveReady(t, task, cfg);
      RecentNonempty(s.timestamps, s.now);
      if u.running.Run? { ApplyShape(u, task.target, cfg); }
    } else {
      NotAdmitted(t, task, cfg);
    }
  }

  lemma PhaseInvFinish(s: State, cfg: Config)
    requires ModeInv(s, cfg) && PhaseInv(s, cfg) && s.running.Run? && s.running.at.Returned?
    ensures PhaseInv(Finish(s, s.running.at.changed, cfg), cfg)
  {
    hide Resolve, SameResolution, Toggle, TimerOf;
    var t := Finish(s, s.running.at.changed, cfg);
    assert t.queue == s.queue && t.micro == s.micro;
    assert t.lastCaptureAt.Some? || t.lastCaptureAt == s.lastCaptureAt;
  }

  /** The segments before the last one leave the phase and the queues alone. */
  lemma SegmentFrame(s: State, cfg: Config)
    requires s.running.Run? && !s.running.at.Returned?
    ensures var t := DoResume(s, cfg);
            && t.running.Run? && t.running.task == s.running.task && !t.running.at.FlushFirst? && t.running.at != Returned(false)
            && t.running.startedAt == s.running.startedAt && t.running.previousPhase == s.running.previousPhase
            && t.queue == s.queue && t.micro == s.micro && t.phase == s.phase && t.timestamps == s.timestamps
            && t.lastCaptureAt == s.lastCaptureAt && t.lastEscalationAt == s.lastEscalationAt && t.log == s.log
            && t.filteredAt == s.filteredAt && t.generation == s.generation && t.now == s.now && t.lifecycle == s.lifecycle
  {
    hide Toggle, TimerOf, Overwrite;
  }

  lemma PhaseInvResume(s: State, cfg: Config)
    requires ModeInv(s, cfg) && PhaseInv(s, cfg) && s.running.Run?
    ensures PhaseInv(DoResume(s, cfg), cfg)
  {
    hide Resolve, SameResolution, DoResume;
    if s.running.at.Returned? {
      PhaseInvFinish(s, cfg);
      ResumeFinishes(s, cfg);
    } else {
      SegmentFrame(s, cfg);
    }
  }

  lemma ResumeFinishes(s: State, cfg: Config)
    requires s.running.Run? && s.running.at.Returned?
    ensures DoResume(s, cfg) == Finish(s, s.running.at.changed, cfg)
  {
  }

  lemma PhaseInvSteps(s: State, n: nat, cfg: Config)
    requires PhaseInv(s, cfg)
    ensures PhaseInv(s.(steps := n), cfg)
  {
    hide Resolve;
  }

  /** Time, lifecycle changes and request entries. */
  lemma PhaseInvOther(s: State, step: Step, cfg: Config)
    requires PhaseInv(s, cfg) && Enabled(s, step) && !IsCall(step) && !step.StartTask? && !step.ResumeTask?
    ensures PhaseInv(Act(s, step, cfg), cfg)
  {
    hide Resolve, DoStart, DoResume, DoSet, DoCapture, DoMicrotask, DoTick, SwitchOn, TimerOf;
  }

  lemma PhaseInvNext(s: State, step: Step, cfg: Config)
    requires ModeInv(s, cfg) && PhaseInv(s, cfg) && Enabled(s, step)
    ensures PhaseInv(Next(s, step, cfg), cfg)
  {
    hide Resolve, SameResolution, DoStart, DoResume, DoSet, DoCapture, DoMicrotask, DoTick, DoActivate, DoRequestStart, PhaseInv, ModeInv;
    if IsCall(step) {
      PhaseInvCall(s, step, cfg);
    } else if step.StartTask? {
      PhaseInvStart(s, cfg);
    } else if step.ResumeTask? {
      PhaseInvResume(s, cfg);
    } else {
      PhaseInvOther(s, step, cfg);
    }
    PhaseInvSteps(Act(s, step, cfg), s.steps + 1, cfg);
  }
}
