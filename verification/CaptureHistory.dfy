/** What the controller's history shows: fresh intents, alternation, and the rolling-hour budget. */
module CaptureHistory {
  import opened CaptureModes
  import opened CaptureControl
  import opened CaptureInvariants
  import opened CapturePhases

  // ---------------------------------------------------------------- what one step writes

  /** A call writes at most the acceptance of a manual choice, which outdates every adaptive intent. */
  lemma CallLog(s: State, step: Step, cfg: Config)
    requires IsCall(step) && Enabled(s, step)
    ensures var t := Act(s, step, cfg);
            || (t.log == s.log && t.generation == s.generation)
            || (t.log == s.log + [Accepted(s.steps)] && t.generation == (if cfg.adaptive.enabled then s.generation + 1 else s.generation)
                && t.micro == s.micro && step.SetCaptureMode? && t.queue == s.queue + [ManualTask(step.mode)])
  {
  }

  /** What starting a task writes: nothing, or the switch it begins. */
  lemma StartLog(s: State, cfg: Config)
    requires ModeInv(s, cfg) && s.running.Idle? && s.queue != []
    ensures var t := DoStart(s, cfg);
            var task := s.queue[0];
            var recent := Recent(s.timestamps, s.now);
            var limited := |recent| >= cfg.adaptive.maxSwitchesPerHour;
            && t.queue == s.queue[1..] && t.micro == s.micro && t.generation == s.generation && t.now == s.now && t.lifecycle == s.lifecycle
            && t.lastCaptureAt == s.lastCaptureAt && t.lastEscalationAt == s.lastEscalationAt
            && (t.running.Run? ==> t.running.task == task)
            && (t.log == s.log
                || t.log == s.log + [Switched(if task.AdaptiveTask? then task.target else Safe,
                                              if task.AdaptiveTask? then task.requestedAt else 0, s.steps, s.now, limited)])
            && (t.log != s.log ==>
                  && task.AdaptiveTask? && Admits(s, task, cfg) && t.running.Run? && t.running.startedAt == s.now
                  && t.timestamps == recent && t.filteredAt == s.now && t.phase == (if limited then Pinned else s.phase)
                  && (limited ==> task.target == cfg.adaptive.escalated))
            && (t.log == s.log ==>
                  && (t.running.Run? ==> task.ManualTask?)
                  && ((t.timestamps == s.timestamps && t.filteredAt == s.filteredAt) || (t.timestamps == recent && t.filteredAt == s.now))
                  && (s.phase == Pinned ==> t.phase == Pinned)
                  && (t.running.Idle? ==> t.modeState == s.modeState))
  {
    hide Resolve, SameResolution, BeginApply, BeginAdaptive, Recent, Toggle;
    var task, t := s.queue[0], s.(queue := s.queue[1..]);
    if task.ManualTask? {
      ApplyShape(t.(running := Run(task, s.phase, s.now, Applied)), task.target, cfg);
    } else if Admits(t, task, cfg) {
      var u := AdaptiveReady(t, task, cfg);
      if u.running.Run? { ApplyShape(u, task.target, cfg); }
    } else {
      NotAdmitted(t, task, cfg);
    }
  }

  /** What the last segment of a task writes. */
  lemma FinishLog(s: State, cfg: Config)
    requires s.running.Run? && s.running.at.Returned?
    ensures var t := Finish(s, s.running.at.changed, cfg);
            && t.running.Idle? && t.queue == s.queue && t.micro == s.micro && t.generation == s.generation && t.now == s.now
            && t.filteredAt == s.filteredAt && t.modeState == s.modeState
            && (s.running.task.ManualTask? ==> t.log == s.log + [ManualDone(s.now, s.running.task.target)] && t.timestamps == s.timestamps)
            && (s.running.task.AdaptiveTask? ==> t.log == s.log)
            && (s.running.task.AdaptiveTask? && s.running.at.changed ==> t.timestamps == s.timestamps + [s.running.startedAt])
            && ((s.running.task.AdaptiveTask? && s.phase == Pinned
                 && (s.running.at.changed ==> s.running.task.target == cfg.adaptive.escalated))
                ==> t.phase == Pinned)
  {
  }

  /** A lifecycle step writes nothing. */
  lemma LifecycleLog(s: State, step: Step, cfg: Config)
    requires Enabled(s, step) && !IsCall(step) && !step.StartTask? && !step.ResumeTask?
    ensures var t := Act(s, step, cfg);
            && t.log == s.log && t.queue == s.queue && t.micro == s.micro && t.generation == s.generation && t.now == s.now
            && t.running == s.running && t.timestamps == s.timestamps && t.filteredAt == s.filteredAt && t.phase == s.phase
            && t.modeState == s.modeState && t.steps == s.steps
  {
    hide SwitchOn, TimerOf;
  }

  // ---------------------------------------------------------------- fresh intents

  ghost predicate AfterAll(log: seq<Note>, requestedAt: nat) {
    forall i :: 0 <= i < |log| && log[i].Accepted? ==> log[i].step < requestedAt
  }

  /** An intent of the current generation was asked for after every accepted manual choice. */
  ghost predicate FreshIntent(s: State, generation: int, requestedAt: nat) {
    generation <= s.generation && (generation == s.generation ==> AfterAll(s.log, requestedAt))
  }

  ghost predicate FreshInv(s: State) {
    && (forall i :: 0 <= i < |s.log| && s.log[i].Accepted? ==> s.log[i].step < s.steps)
    && (forall k :: 0 <= k < |s.queue| && s.queue[k].AdaptiveTask? ==> FreshIntent(s, s.queue[k].generation, s.queue[k].requestedAt))
    && (forall k :: 0 <= k < |s.micro| ==> FreshIntent(s, s.micro[k].generation, s.micro[k].requestedAt))
    && SwitchesFresh(s.log)
  }

  /** Every adaptive switch was asked for after all manual choices accepted before it began. */
  ghost predicate SwitchesFresh(log: seq<Note>) {
    forall i, k :: 0 <= i < k < |log| && log[i].Accepted? && log[k].Switched? ==> log[i].step < log[k].requestedAt
  }

  lemma FreshInvSet(s: State, mode: CaptureMode, cfg: Config)
    requires FreshInv(s) && PhaseInv(s, cfg)
    ensures FreshInv(Next(s, SetCaptureMode(mode), cfg))
  {
    hide PhaseInv;
    if !cfg.adaptive.enabled { Disabled(s, cfg); }
  }

  lemma FreshInvCall(s: State, step: Step, cfg: Config)
    requires FreshInv(s) && IsCall(step) && !step.SetCaptureMode? && Enabled(s, step)
    ensures FreshInv(Next(s, step, cfg))
  {
  }

  predicate NoIntents(s: State) {
    s.micro == [] && forall k :: 0 <= k < |s.queue| ==> !s.queue[k].AdaptiveTask?
  }

  lemma Disabled(s: State, cfg: Config)
    requires PhaseInv(s, cfg) && !cfg.adaptive.enabled
    ensures NoIntents(s)
  {
    forall k | 0 <= k < |s.queue| ensures !s.queue[k].AdaptiveTask? { assert AdaptiveOk(s.queue[k], cfg); }
  }

  lemma FreshInvNext(s: State, step: Step, cfg: Config)
    requires FreshInv(s) && ModeInv(s, cfg) && PhaseInv(s, cfg) && Enabled(s, step)
    ensures FreshInv(Next(s, step, cfg))
  {
    hide PhaseInv, ModeInv, DoStart, DoResume, Finish, DoSet, DoCapture, DoMicrotask, DoTick, SwitchOn;
    if step.SetCaptureMode? {
      FreshInvSet(s, step.mode, cfg);
    } else if IsCall(step) {
      FreshInvCall(s, step, cfg);
    } else if step.StartTask? {
      StartLog(s, cfg);
    } else if step.ResumeTask? {
      if s.running.at.Returned? { ResumeFinishes(s, cfg); FinishLog(s, cfg); } else { SegmentFrame(s, cfg); }
    } else {
      LifecycleLog(s, step, cfg);
    }
  }

  // ---------------------------------------------------------------- alternation

  predicate IsMark(n: Note) {
    n.Switched? || n.ManualDone?
  }

  /** Index of the last switch or completed manual choice, or -1. */
  function LastMark(log: seq<Note>): (m: int)
    ensures -1 <= m < |log| && (m >= 0 ==> IsMark(log[m]))
    ensures forall j :: m < j < |log| ==> !IsMark(log[j])
  {
    if log == [] then -1 else if IsMark(log[|log| - 1]) then |log| - 1 else LastMark(log[..|log| - 1])
  }

  lemma LastMarkSnoc(log: seq<Note>, n: Note)
    ensures LastMark(log + [n]) == if IsMark(n) then |log| else LastMark(log)
  {
    assert (log + [n])[..|log|] == log;
  }

  /** Between two switches to the same mode something else happened to the mode. */
  ghost predicate Alternates(log: seq<Note>) {
    forall i, k :: 0 <= i < k < |log| && log[i].Switched? && log[k].Switched? && log[i].target == log[k].target ==>
      exists j :: i < j < k && IsMark(log[j]) && (log[j].Switched? ==> log[j].target != log[i].target)
  }

  /** The last switch in the log tells the mode, until a manual task is at work. */
  ghost predicate AlternationInv(s: State) {
    && Alternates(s.log)
    && var m := LastMark(s.log);
       && (m >= 0 && s.log[m].Switched? && s.running.Idle? ==> s.modeState.captureMode == s.log[m].target)
       && (s.running.Run? && s.running.task.AdaptiveTask? ==> m >= 0 && s.log[m].Switched? && s.log[m].target == s.running.task.target)
  }

  lemma AlternatesSnoc(log: seq<Note>, n: Note)
    requires Alternates(log)
    requires n.Switched? && LastMark(log) >= 0 && log[LastMark(log)].Switched? ==> log[LastMark(log)].target != n.target
    ensures Alternates(log + [n])
  {
    var t, m := log + [n], LastMark(log);
    forall i, k | 0 <= i < k < |t| && t[i].Switched? && t[k].Switched? && t[i].target == t[k].target
      ensures exists j :: i < j < k && IsMark(t[j]) && (t[j].Switched? ==> t[j].target != t[i].target) {
      if k < |log| {
        var j :| i < j < k && IsMark(log[j]) && (log[j].Switched? ==> log[j].target != log[i].target);
        assert t[j] == log[j];
      } else {
        assert i < m && t[m] == log[m];
      }
    }
  }

  lemma AlternationInvNext(s: State, step: Step, cfg: Config)
    requires AlternationInv(s) && ModeInv(s, cfg) && PhaseInv(s, cfg) && Enabled(s, step)
    ensures AlternationInv(Next(s, step, cfg))
  {
    hide PhaseInv, DoStart, DoResume, Finish, DoSet, DoCapture, DoMicrotask, DoTick, SwitchOn, Alternates, Resolve, SameResolution, LastMark;
    if IsCall(step) {
      CallFrame(s, step, cfg);
      CallLog(s, step, cfg);
      AlternatesSnoc(s.log, Accepted(s.steps));
      LastMarkSnoc(s.log, Accepted(s.steps));
    } else if step.StartTask? {
      AlternationInvStart(s, cfg);
    } else if step.ResumeTask? {
      if s.running.at.Returned? {
        ResumeFinishes(s, cfg);
        FinishLog(s, cfg);
        AlternatesSnoc(s.log, ManualDone(s.now, s.running.task.target));
        LastMarkSnoc(s.log, ManualDone(s.now, s.running.task.target));
      } else {
        SegmentFrame(s, cfg);
      }
    } else {
      LifecycleLog(s, step, cfg);
    }
  }

  lemma AlternationInvStart(s: State, cfg: Config)
    requires AlternationInv(s) && ModeInv(s, cfg) && PhaseInv(s, cfg) && s.running.Idle? && s.queue != []
    ensures AlternationInv(DoStart(s, cfg))
  {
    hide DoStart, Alternates, Resolve, SameResolution, LastMark, Recent;
    StartLog(s, cfg);
    var t := DoStart(s, cfg);
    if t.log != s.log {
      var n := t.log[|t.log| - 1];
      assert t.log == s.log + [n];
      AlternatesSnoc(s.log, n);
      LastMarkSnoc(s.log, n);
    }
  }
}
