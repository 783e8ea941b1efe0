/**
  When a return to base is asked for, said of the steps and the log alone: which captures came and
  when, which switches began and which manual choices were completed.  And when an escalation is.
*/
module CaptureQuiet {
  import opened Wrappers
  import opened CaptureModes
  import opened CaptureControl
  import opened CaptureInvariants
  import opened CapturePhases
  import opened CaptureHistory
  import opened CaptureBudget
  import opened CaptureIntents
  import opened CaptureRuns

  // ---------------------------------------------------------------- the two times

  /** A switch to the escalated mode began, or a manual choice of it was completed. */
  predicate Escalates(n: Note, cfg: Config) {
    (n.Switched? || n.ManualDone?) && n.target == cfg.adaptive.escalated
  }

  predicate ManualEscalation(n: Note, cfg: Config) {
    n.ManualDone? && n.target == cfg.adaptive.escalated
  }

  /** An adaptive escalation is under way. */
  predicate Pending(s: State, cfg: Config) {
    s.running.Run? && s.running.task.AdaptiveTask? && s.running.task.target == cfg.adaptive.escalated
  }

  predicate ManualFinishes(s: State, step: Step, cfg: Config) {
    && cfg.adaptive.enabled && step.ResumeTask? && s.running.Run? && s.running.at.Returned? && s.running.task.ManualTask?
    && s.running.task.target == cfg.adaptive.escalated
  }

  predicate AdaptiveFinishes(s: State, step: Step, cfg: Config) {
    step.ResumeTask? && Pending(s, cfg) && s.running.at == Returned(true)
  }

  /** What a step does to the times of the last capture and the last escalation. */
  ghost predicate TimesStep(s: State, step: Step, t: State, cfg: Config) {
    && t.lastCaptureAt == (if cfg.adaptive.enabled && (step.AdmittedCapture? || ManualFinishes(s, step, cfg)) then Some(s.now)
                           else s.lastCaptureAt)
    && t.lastEscalationAt == (if ManualFinishes(s, step, cfg) then Some(s.now)
                              else if AdaptiveFinishes(s, step, cfg) then Some(s.running.startedAt)
                              else s.lastEscalationAt)
    && (if step.TimePasses? then t.now >= s.now else t.now == s.now)
  }

  lemma StepTimes(s: State, step: Step, cfg: Config)
    requires Inv(s, cfg) && Enabled(s, step)
    ensures TimesStep(s, step, Next(s, step, cfg), cfg)
  {
    hide Act, ModeInv, ResourceInv, FreshInv, AlternationInv, BudgetInv, IntentInv, PhaseInv;
    ActTask(s, step, cfg);
    if step.StartTask? {
      StartLog(s, cfg);
    } else if step.ResumeTask? {
      if s.running.at.Returned? {
        ResumeFinishes(s, cfg);
        FinishTimes(s, cfg);
      } else {
        SegmentFrame(s, cfg);
      }
    } else {
      OtherTimes(s, step, cfg);
    }
  }

  lemma FinishTimes(s: State, cfg: Config)
    requires PhaseInv(s, cfg) && s.running.Run? && s.running.at.Returned?
    ensures TimesStep(s, ResumeTask, Finish(s, s.running.at.changed, cfg), cfg)
  {
    hide Resolve;
  }

  lemma OtherTimes(s: State, step: Step, cfg: Config)
    requires Enabled(s, step) && !step.StartTask? && !step.ResumeTask?
    ensures TimesStep(s, step, Act(s, step, cfg), cfg)
  {
    hide TimerOf, SwitchOn;
  }

  // ---------------------------------------------------------------- kept by every step

  predicate Timed(n: Note) {
    n.Switched? || n.ManualDone?
  }

  /** Every escalation in the log is no later than the last one, or is the one under way. */
  ghost predicate EscalationsBefore(s: State, cfg: Config) {
    forall i :: 0 <= i < |s.log| && Escalates(s.log[i], cfg) ==>
      (s.lastEscalationAt.Some? && s.log[i].time <= s.lastEscalationAt.value) || (Pending(s, cfg) && s.log[i].time <= s.running.startedAt)
  }

  ghost predicate EscalationAt(s: State, cfg: Config, time: int) {
    exists i :: 0 <= i < |s.log| && Escalates(s.log[i], cfg) && s.log[i].time == time
  }

  ghost predicate TimesInv(s: State, cfg: Config) {
    && (forall i :: 0 <= i < |s.log| && Timed(s.log[i]) ==> s.log[i].time <= s.now)
    && (cfg.adaptive.enabled ==>
          && EscalationsBefore(s, cfg)
          && (s.lastEscalationAt.Some? ==> s.lastEscalationAt.value <= s.now && EscalationAt(s, cfg, s.lastEscalationAt.value))
          && (Pending(s, cfg) ==>
                && s.running.startedAt <= s.now && EscalationAt(s, cfg, s.running.startedAt)
                && (s.lastEscalationAt.Some? ==> s.lastEscalationAt.value <= s.running.startedAt))
          && (s.lastCaptureAt.Some? ==> s.lastCaptureAt.value <= s.now)
          && (forall i :: 0 <= i < |s.log| && ManualEscalation(s.log[i], cfg) ==>
                s.lastCaptureAt.Some? && s.log[i].time <= s.lastCaptureAt.value))
  }

  /** What a step writes, and what it does to the task that runs. */
  ghost predicate WritesStep(s: State, step: Step, t: State, cfg: Config) {
    && (t.log == s.log || (|t.log| == |s.log| + 1 && t.log[..|s.log|] == s.log))
    && (t.log != s.log ==>
          var n := t.log[|s.log|];
          && (Timed(n) ==> n.time == s.now && t.now == s.now)
          && (ManualEscalation(n, cfg) && cfg.adaptive.enabled ==> ManualFinishes(s, step, cfg))
          && (n.Switched? && n.target == cfg.adaptive.escalated ==> Pending(t, cfg) && t.running.startedAt == s.now))
    && (ManualFinishes(s, step, cfg) ==> t.log != s.log && ManualEscalation(t.log[|s.log|], cfg) && !Pending(t, cfg))
    && (Pending(t, cfg) ==>
          if Pending(s, cfg) then t.running.startedAt == s.running.startedAt && !AdaptiveFinishes(s, step, cfg)
          else t.running.startedAt == s.now == t.now && t.log != s.log && Escalates(t.log[|s.log|], cfg))
    && (Pending(s, cfg) && !Pending(t, cfg) ==> AdaptiveFinishes(s, step, cfg))
  }

  lemma StepWrites(s: State, step: Step, cfg: Config)
    requires Inv(s, cfg) && Enabled(s, step)
    ensures WritesStep(s, step, Next(s, step, cfg), cfg)
  {
    hide Act, ModeInv, ResourceInv, FreshInv, AlternationInv, BudgetInv, IntentInv, PhaseInv, WritesStep;
    ActTask(s, step, cfg);
    var u := Act(s, step, cfg);
    if IsCall(step) {
      CallWrites(s, step, cfg);
    } else if step.StartTask? {
      StartWrites(s, cfg);
    } else if step.ResumeTask? {
      ResumeWrites(s, cfg);
    } else {
      OtherWrites(s, step, cfg);
    }
    CountedWrites(s, step, u, cfg);
  }

  lemma CountedWrites(s: State, step: Step, u: State, cfg: Config)
    requires WritesStep(s, step, u, cfg)
    ensures WritesStep(s, step, u.(steps := s.steps + 1), cfg)
  {
  }

  lemma CallWrites(s: State, step: Step, cfg: Config)
    requires IsCall(step) && Enabled(s, step)
    ensures WritesStep(s, step, Act(s, step, cfg), cfg)
  {
    hide Act;
    CallFrame(s, step, cfg);
    CallLog(s, step, cfg);
    CallNow(s, step, cfg);
  }

  lemma StartWrites(s: State, cfg: Config)
    requires ModeInv(s, cfg) && s.running.Idle? && s.queue != []
    ensures WritesStep(s, StartTask, DoStart(s, cfg), cfg)
  {
    hide DoStart, ModeInv, Recent;
    StartLog(s, cfg);
  }

  lemma ResumeWrites(s: State, cfg: Config)
    requires PhaseInv(s, cfg) && s.running.Run?
    ensures WritesStep(s, ResumeTask, DoResume(s, cfg), cfg)
  {
    hide DoResume, PhaseInv, Finish;
    if s.running.at.Returned? {
      ResumeFinishes(s, cfg);
      FinishLog(s, cfg);
      FinishesChanged(s, cfg);
    } else {
      SegmentFrame(s, cfg);
    }
  }

  lemma OtherWrites(s: State, step: Step, cfg: Config)
    requires Enabled(s, step) && !IsCall(step) && !step.StartTask? && !step.ResumeTask?
    ensures WritesStep(s, step, Act(s, step, cfg), cfg)
  {
    hide Act;
    LifecycleLog(s, step, cfg);
  }

  lemma CallNow(s: State, step: Step, cfg: Config)
    requires IsCall(step) && Enabled(s, step)
    ensures !step.TimePasses? ==> Act(s, step, cfg).now == s.now
    ensures step.TimePasses? ==> Act(s, step, cfg).log == s.log
  {
  }

  lemma FinishesChanged(s: State, cfg: Config)
    requires PhaseInv(s, cfg) && s.running.Run? && s.running.at.Returned?
    ensures Pending(s, cfg) && cfg.adaptive.enabled ==> s.running.at == Returned(true)
    ensures Pending(s, cfg) ==> cfg.adaptive.enabled
  {
    hide Resolve;
  }

  lemma TimesInvNext(s: State, step: Step, cfg: Config)
    requires Inv(s, cfg) && TimesInv(s, cfg) && Enabled(s, step)
    ensures TimesInv(Next(s, step, cfg), cfg)
  {
    hide Inv, Next, Enabled;
    StepTimes(s, step, cfg);
    StepWrites(s, step, cfg);
    TimesKept(s, step, Next(s, step, cfg), cfg);
  }

  /** From the facts of one step alone. */
  lemma TimesKept(s: State, step: Step, t: State, cfg: Config)
    requires TimesInv(s, cfg) && TimesStep(s, step, t, cfg) && WritesStep(s, step, t, cfg)
    ensures TimesInv(t, cfg)
  {
    forall i | 0 <= i < |s.log| ensures t.log[i] == s.log[i] {
      if t.log != s.log { assert t.log[..|s.log|][i] == s.log[i]; }
    }
    forall i | 0 <= i < |t.log| && Timed(t.log[i]) ensures t.log[i].time <= t.now {
      if i < |s.log| { assert s.log[i].time <= s.now; }
    }
    if cfg.adaptive.enabled {
      EscalationKept(s, step, t, cfg);
    }
  }

  lemma EscalationKept(s: State, step: Step, t: State, cfg: Config)
    requires TimesInv(s, cfg) && TimesStep(s, step, t, cfg) && WritesStep(s, step, t, cfg) && cfg.adaptive.enabled
    requires forall i :: 0 <= i < |s.log| ==> t.log[i] == s.log[i]
    ensures EscalationsBefore(t, cfg)
    ensures t.lastEscalationAt.Some? ==> t.lastEscalationAt.value <= t.now && EscalationAt(t, cfg, t.lastEscalationAt.value)
    ensures Pending(t, cfg) ==>
              && t.running.startedAt <= t.now && EscalationAt(t, cfg, t.running.startedAt)
              && (t.lastEscalationAt.Some? ==> t.lastEscalationAt.value <= t.running.startedAt)
    ensures t.lastCaptureAt.Some? ==> t.lastCaptureAt.value <= t.now
    ensures forall i :: 0 <= i < |t.log| && ManualEscalation(t.log[i], cfg) ==>
              t.lastCaptureAt.Some? && t.log[i].time <= t.lastCaptureAt.value
  {
    assert forall time :: EscalationAt(s, cfg, time) ==> EscalationAt(t, cfg, time);
    forall i | 0 <= i < |t.log| && Escalates(t.log[i], cfg)
      ensures (t.lastEscalationAt.Some? && t.log[i].time <= t.lastEscalationAt.value)
              || (Pending(t, cfg) && t.log[i].time <= t.running.startedAt)
    {
      if i < |s.log| { assert Escalates(s.log[i], cfg); }
    }
  }

  // ---------------------------------------------------------------- over runs

  lemma {:induction false} RunTimes(states: seq<State>, steps: seq<Step>, cfg: Config, mode: CaptureMode, now: int, k: nat)
    requires IsRun(states, steps, cfg, mode, now) && k < |states|
    ensures TimesInv(states[k], cfg)
  {
    hide Next, Inv, Enabled, Init, TimesInv;
    if k == 0 {
      InitTimes(cfg, mode, now);
    } else {
      RunTimes(states, steps, cfg, mode, now, k - 1);
      RunKeeps(states, steps, cfg, mode, now, k - 1);
      assert Follows(states[k - 1], steps[k - 1], states[k], cfg);
      TimesInvNext(states[k - 1], steps[k - 1], cfg);
    }
  }

  lemma InitTimes(cfg: Config, mode: CaptureMode, now: int)
    requires ValidConfig(cfg, mode)
    ensures TimesInv(Init(cfg, mode, now), cfg)
  {
    hide Resolve;
  }

  /** Every capture so far is no later than the last one noted. */
  ghost predicate CapturesNoted(states: seq<State>, steps: seq<Step>, k: nat)
    requires k < |states| && k <= |steps|
  {
    forall j :: 0 <= j < k && steps[j].AdmittedCapture? ==>
      states[k].lastCaptureAt.Some? && states[j].now <= states[k].lastCaptureAt.value
  }

  ghost predicate CaptureAt(states: seq<State>, steps: seq<Step>, k: nat, time: int)
    requires k < |states| && k <= |steps|
  {
    exists j :: 0 <= j < k && steps[j].AdmittedCapture? && states[j].now == time
  }

  ghost predicate ManualAt(s: State, cfg: Config, time: int) {
    exists i :: 0 <= i < |s.log| && ManualEscalation(s.log[i], cfg) && s.log[i].time == time
  }

  /** The last capture noted is a capture that came, or a manual choice of the escalated mode. */
  lemma {:induction false} RunCaptures(states: seq<State>, steps: seq<Step>, cfg: Config, mode: CaptureMode, now: int, k: nat)
    requires IsRun(states, steps, cfg, mode, now) && k < |states| && cfg.adaptive.enabled
    ensures CapturesNoted(states, steps, k)
    ensures states[k].lastCaptureAt.Some? ==>
              CaptureAt(states, steps, k, states[k].lastCaptureAt.value) || ManualAt(states[k], cfg, states[k].lastCaptureAt.value)
  {
    hide Next, Inv, Enabled, Init, TimesInv;
    if k == 0 {
      InitCaptures(cfg, mode, now);
    } else {
      var s, step, t := states[k - 1], steps[k - 1], states[k];
      RunCaptures(states, steps, cfg, mode, now, k - 1);
      RunKeeps(states, steps, cfg, mode, now, k - 1);
      RunTimes(states, steps, cfg, mode, now, k - 1);
      assert Follows(s, step, t, cfg);
      StepTimes(s, step, cfg);
      StepWrites(s, step, cfg);
      CaptureNotLater(s, cfg);
      CapturesStep(states, steps, cfg, k);
    }
  }

  lemma CaptureNotLater(s: State, cfg: Config)
    requires TimesInv(s, cfg) && cfg.adaptive.enabled
    ensures s.lastCaptureAt.Some? ==> s.lastCaptureAt.value <= s.now
  {
  }

  lemma InitCaptures(cfg: Config, mode: CaptureMode, now: int)
    requires ValidConfig(cfg, mode)
    ensures Init(cfg, mode, now).lastCaptureAt.None?
  {
    hide Resolve;
  }

  lemma CapturesStep(states: seq<State>, steps: seq<Step>, cfg: Config, k: nat)
    requires 0 < k < |states| && k <= |steps| && cfg.adaptive.enabled
    requires CapturesNoted(states, steps, k - 1)
    requires var s := states[k - 1];
             s.lastCaptureAt.Some? ==>
               s.lastCaptureAt.value <= s.now
               && (CaptureAt(states, steps, k - 1, s.lastCaptureAt.value) || ManualAt(s, cfg, s.lastCaptureAt.value))
    requires TimesStep(states[k - 1], steps[k - 1], states[k], cfg) && WritesStep(states[k - 1], steps[k - 1], states[k], cfg)
    ensures CapturesNoted(states, steps, k)
    ensures states[k].lastCaptureAt.Some? ==>
              CaptureAt(states, steps, k, states[k].lastCaptureAt.value) || ManualAt(states[k], cfg, states[k].lastCaptureAt.value)
  {
    var s, step, t := states[k - 1], steps[k - 1], states[k];
    forall i | 0 <= i < |s.log| ensures t.log[i] == s.log[i] {
      if t.log != s.log { assert t.log[..|s.log|][i] == s.log[i]; }
    }
    forall j | 0 <= j < k && steps[j].AdmittedCapture? ensures t.lastCaptureAt.Some? && states[j].now <= t.lastCaptureAt.value {
      if j < k - 1 { assert s.lastCaptureAt.Some? && states[j].now <= s.lastCaptureAt.value; }
    }
    if t.lastCaptureAt.Some? {
      var time := t.lastCaptureAt.value;
      if step.AdmittedCapture? {
        assert CaptureAt(states, steps, k, time);
      } else if ManualFinishes(s, step, cfg) {
        assert ManualEscalation(t.log[|s.log|], cfg) && t.log[|s.log|].time == time;
      } else if CaptureAt(states, steps, k - 1, time) {
        assert CaptureAt(states, steps, k, time);
      }
    }
  }

  // ---------------------------------------------------------------- the law

  /** At step r no capture, and no manual choice of the escalated mode, is younger than the quiet time. */
  ghost predicate LongQuiet(states: seq<State>, steps: seq<Step>, cfg: Config, r: nat)
    requires r < |states| && r <= |steps|
  {
    && (forall j :: 0 <= j < r && steps[j].AdmittedCapture? ==> states[r].now - states[j].now >= cfg.adaptive.deescalateAfterMs)
    && forall i :: 0 <= i < |states[r].log| && ManualEscalation(states[r].log[i], cfg) ==>
         states[r].now - states[r].log[i].time >= cfg.adaptive.deescalateAfterMs
  }

  /** No escalation, adaptive or by a manual choice, is younger than the dwell time. */
  ghost predicate LongEscalated(s: State, cfg: Config) {
    forall i :: 0 <= i < |s.log| && Escalates(s.log[i], cfg) ==> s.now - s.log[i].time >= cfg.adaptive.minDwellMs
  }

  /** In the escalated phase, what the timer compares is what came and what was done. */
  lemma QuietIff(states: seq<State>, steps: seq<Step>, cfg: Config, mode: CaptureMode, now: int, r: nat)
    requires IsRun(states, steps, cfg, mode, now) && r < |states| && cfg.adaptive.enabled && states[r].phase == Escalated
    ensures QuietLongEnough(states[r], cfg) <==> LongQuiet(states, steps, cfg, r) && LongEscalated(states[r], cfg)
  {
    hide Inv, Init, Follows, QuietLongEnough, LongQuiet, LongEscalated;
    RunKeeps(states, steps, cfg, mode, now, r);
    RunTimes(states, steps, cfg, mode, now, r);
    RunCaptures(states, steps, cfg, mode, now, r);
    EscalatedIsDone(states[r], cfg);
    CompareTimes(states, steps, cfg, r);
  }

  lemma EscalatedIsDone(s: State, cfg: Config)
    requires Inv(s, cfg) && cfg.adaptive.enabled && s.phase == Escalated
    ensures !Pending(s, cfg) && s.lastEscalationAt.Some? && s.lastCaptureAt.Some?
  {
    hide ModeInv, ResourceInv, FreshInv, AlternationInv, BudgetInv, IntentInv, Resolve;
  }

  lemma CompareTimes(states: seq<State>, steps: seq<Step>, cfg: Config, r: nat)
    requires r < |states| && r <= |steps| && cfg.adaptive.enabled && states[r].phase == Escalated
    requires TimesInv(states[r], cfg) && CapturesNoted(states, steps, r)
    requires !Pending(states[r], cfg) && states[r].lastEscalationAt.Some? && states[r].lastCaptureAt.Some?
    requires CaptureAt(states, steps, r, states[r].lastCaptureAt.value) || ManualAt(states[r], cfg, states[r].lastCaptureAt.value)
    ensures QuietLongEnough(states[r], cfg) <==> LongQuiet(states, steps, cfg, r) && LongEscalated(states[r], cfg)
  {
  }

  /**
    The exact law of the return to base, over steps and log: a timer evaluation asks for it if and
    only if the phase is escalated while the instance is active, every capture ever admitted is at
    least the quiet time old, and every escalation at least the dwell time.
  */
  lemma TickAsksIff(states: seq<State>, steps: seq<Step>, cfg: Config, mode: CaptureMode, now: int, r: nat)
    requires IsRun(states, steps, cfg, mode, now) && r < |steps| && steps[r].TimerTick?
    ensures var s := states[r];
            states[r + 1].queue ==
              if cfg.adaptive.enabled && s.phase == Escalated && s.lifecycle == Active
                 && LongQuiet(states, steps, cfg, r) && LongEscalated(s, cfg)
              then s.queue + [AdaptiveTask(cfg.adaptive.base, s.generation, r)] else s.queue
  {
    hide QuietLongEnough, LongQuiet, LongEscalated, Init;
    assert Follows(states[r], steps[r], states[r + 1], cfg);
    StepsCounted(states, steps, cfg, mode, now, r);
    if cfg.adaptive.enabled && states[r].phase == Escalated {
      QuietIff(states, steps, cfg, mode, now, r);
    } else {
      NotQuiet(states[r], cfg);
    }
  }

  lemma NotQuiet(s: State, cfg: Config)
    requires !cfg.adaptive.enabled || s.phase != Escalated
    ensures !QuietLongEnough(s, cfg)
  {
  }

  /** So every return to base that ever begins was asked for after that long a quiet. */
  lemma ReturnsAreQuiet(states: seq<State>, steps: seq<Step>, cfg: Config, mode: CaptureMode, now: int, k: nat, i: nat)
    requires IsRun(states, steps, cfg, mode, now) && k < |states| && i < |states[k].log|
    requires states[k].log[i].Switched? && states[k].log[i].target == cfg.adaptive.base
    ensures var r := states[k].log[i].requestedAt;
            && r < |steps| && steps[r].TimerTick? && states[r].phase == Escalated
            && LongQuiet(states, steps, cfg, r) && LongEscalated(states[r], cfg)
  {
    hide LongQuiet, LongEscalated, IsRun;
    SwitchesWereAskedFor(states, steps, cfg, mode, now, k);
    assert AskedAt(states, steps, cfg, states[k].log[i].target, states[k].log[i].requestedAt);
    QuietIff(states, steps, cfg, mode, now, states[k].log[i].requestedAt);
  }

  // ---------------------------------------------------------------- asking to escalate

  /** A capture's request of the current generation still waits to be queued. */
  ghost predicate Asking(s: State) {
    exists i :: 0 <= i < |s.micro| && s.micro[i].generation == s.generation
  }

  /** At most one such request waits, and the mark tells whether one does. */
  ghost predicate AskingInv(s: State) {
    && (forall i :: 0 <= i < |s.micro| ==> s.micro[i].generation <= s.generation)
    && (forall i, j :: 0 <= i < j < |s.micro| ==> s.micro[i].generation != s.generation || s.micro[j].generation != s.generation)
    && (s.escalationGeneration.Some? ==> s.escalationGeneration.value == s.generation && Asking(s))
    && (s.escalationGeneration.None? ==> !Asking(s))
  }

  lemma AskingInvNext(s: State, step: Step, cfg: Config)
    requires Inv(s, cfg) && AskingInv(s) && Enabled(s, step)
    ensures AskingInv(Next(s, step, cfg))
  {
    hide Inv, Act, DoStart, DoResume, Enqueue;
    if step.StartTask? || step.ResumeTask? {
      TaskMarks(s, step, cfg);
    } else if step.SetCaptureMode? {
      DisabledAsksNothing(s, cfg);
      SetMarks(s, step.mode, cfg);
    } else if step.AdmittedCapture? {
      CaptureMarks(s, step.modeAtCapture, cfg);
    } else if step.RunMicrotask? {
      MicrotaskMarks(s, cfg);
    } else {
      OtherMarks(s, step, cfg);
    }
  }

  predicate SameMarks(s: State, t: State) {
    t.micro == s.micro && t.generation == s.generation && t.escalationGeneration == s.escalationGeneration
  }

  lemma TaskMarks(s: State, step: Step, cfg: Config)
    requires Inv(s, cfg) && Enabled(s, step) && (step.StartTask? || step.ResumeTask?)
    ensures SameMarks(s, Act(s, step, cfg))
  {
    hide Inv, Resolve, Toggle, Overwrite, TimerOf, Recent, Diff;
  }

  lemma DisabledAsksNothing(s: State, cfg: Config)
    requires Inv(s, cfg)
    ensures !cfg.adaptive.enabled ==> s.micro == []
  {
    hide ModeInv, ResourceInv, FreshInv, AlternationInv, BudgetInv, IntentInv, Resolve;
  }

  lemma SetMarks(s: State, mode: CaptureMode, cfg: Config)
    requires AskingInv(s) && (!cfg.adaptive.enabled ==> s.micro == [])
    ensures AskingInv(Next(s, SetCaptureMode(mode), cfg))
  {
  }

  lemma CaptureMarks(s: State, mode: CaptureMode, cfg: Config)
    requires AskingInv(s)
    ensures AskingInv(Next(s, AdmittedCapture(mode), cfg))
  {
    var t := Next(s, AdmittedCapture(mode), cfg);
    if t.micro != s.micro {
      assert t.micro[|s.micro|].generation == t.generation;
    } else {
      assert Asking(t) == Asking(s);
    }
  }

  lemma MicrotaskMarks(s: State, cfg: Config)
    requires AskingInv(s) && s.micro != []
    ensures AskingInv(Next(s, RunMicrotask, cfg))
  {
    var t := Next(s, RunMicrotask, cfg);
    assert t.micro == s.micro[1..];
    if Asking(s) && s.micro[0].generation != s.generation {
      var i :| 0 <= i < |s.micro| && s.micro[i].generation == s.generation;
      assert t.micro[i - 1] == s.micro[i];
    }
    forall i | 0 <= i < |t.micro| ensures t.micro[i] == s.micro[i + 1] {
    }
  }

  lemma OtherMarks(s: State, step: Step, cfg: Config)
    requires AskingInv(s) && Enabled(s, step)
    requires step.TimePasses? || step.TimerTick? || step.RequestStart? || step.Activate? || step.BeginShutdown? || step.FinishShutdown?
    ensures AskingInv(Next(s, step, cfg))
  {
    hide SwitchOn, TimerOf, QuietLongEnough;
    var t := Next(s, step, cfg);
    assert SameMarks(s, t);
    assert Asking(t) == Asking(s);
  }

  lemma {:induction false} RunAsking(states: seq<State>, steps: seq<Step>, cfg: Config, mode: CaptureMode, now: int, k: nat)
    requires IsRun(states, steps, cfg, mode, now) && k < |states|
    ensures AskingInv(states[k])
  {
    hide Next, Inv, Enabled, Init, AskingInv;
    if k == 0 {
      InitAsking(cfg, mode, now);
    } else {
      RunAsking(states, steps, cfg, mode, now, k - 1);
      RunKeeps(states, steps, cfg, mode, now, k - 1);
      assert Follows(states[k - 1], steps[k - 1], states[k], cfg);
      AskingInvNext(states[k - 1], steps[k - 1], cfg);
    }
  }

  lemma InitAsking(cfg: Config, mode: CaptureMode, now: int)
    requires ValidConfig(cfg, mode)
    ensures AskingInv(Init(cfg, mode, now))
  {
    hide Resolve;
  }

  /**
    The exact law of the request to escalate: an admitted capture makes one if and only if it was
    taken in the base mode while the phase is base, and none of the current generation waits.
  */
  lemma CaptureAsksIff(states: seq<State>, steps: seq<Step>, cfg: Config, mode: CaptureMode, now: int, k: nat)
    requires IsRun(states, steps, cfg, mode, now) && k < |steps| && steps[k].AdmittedCapture?
    ensures var s := states[k];
            && states[k + 1].micro ==
                 (if cfg.adaptive.enabled && s.phase == Base && steps[k].modeAtCapture == cfg.adaptive.base && !Asking(s)
                  then s.micro + [Micro(s.generation, k)] else s.micro)
            && states[k + 1].queue == s.queue
  {
    hide Init, Asking;
    assert Follows(states[k], steps[k], states[k + 1], cfg);
    StepsCounted(states, steps, cfg, mode, now, k);
    RunAsking(states, steps, cfg, mode, now, k);
  }

  /** The request is queued at the next microtask if and only if the instance is active. */
  lemma RequestQueuedIff(states: seq<State>, steps: seq<Step>, cfg: Config, mode: CaptureMode, now: int, k: nat)
    requires IsRun(states, steps, cfg, mode, now) && k < |steps| && steps[k].RunMicrotask?
    ensures var s := states[k];
            && s.micro != [] && states[k + 1].micro == s.micro[1..]
            && states[k + 1].queue == if s.lifecycle == Active
                                      then s.queue + [AdaptiveTask(cfg.adaptive.escalated, s.micro[0].generation, s.micro[0].requestedAt)]
                                      else s.queue
  {
    hide Init;
    assert Follows(states[k], steps[k], states[k + 1], cfg);
  }

  // ---------------------------------------------------------------- re-arming the locals guard

  /** A manual task remembers the phase it started in, and the phase stays that until the task ends. */
  predicate RemembersPhase(s: State) {
    s.running.Run? && s.running.task.ManualTask? ==> s.running.previousPhase == s.phase
  }

  lemma RemembersNext(s: State, step: Step, cfg: Config)
    requires Inv(s, cfg) && RemembersPhase(s) && Enabled(s, step)
    ensures RemembersPhase(Next(s, step, cfg))
  {
    hide Act, ModeInv, ResourceInv, FreshInv, AlternationInv, BudgetInv, IntentInv, PhaseInv;
    ActTask(s, step, cfg);
    if IsCall(step) {
      CallFrame(s, step, cfg);
    } else if step.StartTask? {
      StartRemembers(s, cfg);
    } else if step.ResumeTask? {
      if s.running.at.Returned? { ResumeFinishes(s, cfg); FinishLog(s, cfg); } else { SegmentFrame(s, cfg); }
    } else {
      LifecycleLog(s, step, cfg);
    }
  }

  lemma StartRemembers(s: State, cfg: Config)
    requires ModeInv(s, cfg) && s.running.Idle? && s.queue != []
    ensures RemembersPhase(DoStart(s, cfg))
  {
    hide Resolve, SameResolution, BeginApply, BeginAdaptive, Recent, Toggle;
    var task, t := s.queue[0], s.(queue := s.queue[1..]);
    if task.ManualTask? {
      ApplyShape(t.(running := Run(task, s.phase, s.now, Applied)), task.target, cfg);
    } else if Admits(t, task, cfg) {
      var u := AdaptiveReady(t, task, cfg);
      if u.running.Run? { ApplyShape(u, task.target, cfg); }
    } else {
      NotAdmitted(t, task, cfg);
    }
  }

  lemma {:induction false} RunRemembers(states: seq<State>, steps: seq<Step>, cfg: Config, mode: CaptureMode, now: int, k: nat)
    requires IsRun(states, steps, cfg, mode, now) && k < |states|
    ensures RemembersPhase(states[k])
  {
    hide Next, Inv, Enabled, Init, RemembersPhase;
    if k == 0 {
      InitRemembers(cfg, mode, now);
    } else {
      RunRemembers(states, steps, cfg, mode, now, k - 1);
      RunKeeps(states, steps, cfg, mode, now, k - 1);
      assert Follows(states[k - 1], steps[k - 1], states[k], cfg);
      RemembersNext(states[k - 1], steps[k - 1], cfg);
    }
  }

  lemma InitRemembers(cfg: Config, mode: CaptureMode, now: int)
    requires ValidConfig(cfg, mode)
    ensures RemembersPhase(Init(cfg, mode, now))
  {
    hide Resolve;
  }

  /**
    The locals guard is re-armed when an adaptive escalation ends, and when a manual choice of the
    escalated mode does while the instance is active and was not in the escalated phase; never else.
  */
  lemma RearmsIff(states: seq<State>, steps: seq<Step>, cfg: Config, mode: CaptureMode, now: int, k: nat)
    requires IsRun(states, steps, cfg, mode, now) && k < |steps|
    ensures var s := states[k];
            states[k + 1].rearms ==
              s.rearms + (if AdaptiveFinishes(s, steps[k], cfg)
                             || (ManualFinishes(s, steps[k], cfg) && s.lifecycle == Active && s.phase != Escalated)
                          then 1 else 0)
  {
    hide Init, Inv, Next;
    assert Follows(states[k], steps[k], states[k + 1], cfg);
    RunKeeps(states, steps, cfg, mode, now, k);
    RunRemembers(states, steps, cfg, mode, now, k);
    StepRearms(states[k], steps[k], cfg);
  }

  lemma StepRearms(s: State, step: Step, cfg: Config)
    requires Inv(s, cfg) && RemembersPhase(s) && Enabled(s, step)
    ensures Next(s, step, cfg).rearms ==
              s.rearms + (if AdaptiveFinishes(s, step, cfg) || (ManualFinishes(s, step, cfg) && s.lifecycle == Active && s.phase != Escalated)
                          then 1 else 0)
  {
    hide Act, ModeInv, ResourceInv, FreshInv, AlternationInv, BudgetInv, IntentInv, PhaseInv;
    ActTask(s, step, cfg);
    if IsCall(step) {
      CallFrame(s, step, cfg);
    } else if step.StartTask? {
      StartKeepsRearms(s, cfg);
    } else if step.ResumeTask? {
      if s.running.at.Returned? {
        ResumeFinishes(s, cfg);
        FinishRearms(s, cfg);
      } else {
        SegmentKeepsRearms(s, cfg);
      }
    } else {
      OtherKeepsRearms(s, step, cfg);
    }
  }

  lemma StartKeepsRearms(s: State, cfg: Config)
    requires ModeInv(s, cfg) && s.running.Idle? && s.queue != []
    ensures DoStart(s, cfg).rearms == s.rearms
  {
    hide Resolve, SameResolution, BeginApply, BeginAdaptive, Recent, Toggle;
    var task, t := s.queue[0], s.(queue := s.queue[1..]);
    if task.ManualTask? {
      ApplyShape(t.(running := Run(task, s.phase, s.now, Applied)), task.target, cfg);
    } else if Admits(t, task, cfg) {
      var u := AdaptiveReady(t, task, cfg);
      if u.running.Run? { ApplyShape(u, task.target, cfg); }
    } else {
      NotAdmitted(t, task, cfg);
    }
  }

  lemma SegmentKeepsRearms(s: State, cfg: Config)
    requires s.running.Run? && !s.running.at.Returned?
    ensures DoResume(s, cfg).rearms == s.rearms
  {
    hide Toggle, TimerOf, Overwrite;
  }

  lemma FinishRearms(s: State, cfg: Config)
    requires PhaseInv(s, cfg) && RemembersPhase(s) && s.running.Run? && s.running.at.Returned?
    ensures Finish(s, s.running.at.changed, cfg).rearms ==
              s.rearms + (if AdaptiveFinishes(s, ResumeTask, cfg)
                             || (ManualFinishes(s, ResumeTask, cfg) && s.lifecycle == Active && s.phase != Escalated)
                          then 1 else 0)
  {
    hide Resolve;
  }

  lemma OtherKeepsRearms(s: State, step: Step, cfg: Config)
    requires Enabled(s, step) && !IsCall(step) && !step.StartTask? && !step.ResumeTask?
    ensures Act(s, step, cfg).rearms == s.rearms
  {
    hide TimerOf, SwitchOn;
  }

  // ---------------------------------------------------------------- counting and flushing switches

  /** The switch count grows by one exactly as a task finds its change applied. */
  lemma SwitchCountedIff(states: seq<State>, steps: seq<Step>, cfg: Config, mode: CaptureMode, now: int, k: nat)
    requires IsRun(states, steps, cfg, mode, now) && k < |steps|
    ensures var s, t := states[k], states[k + 1];
            var applied := steps[k].ResumeTask? && s.running.Run? && s.running.at.Applied?;
            t.switchCount == s.switchCount + (if applied then 1 else 0) && (applied ==> t.running == s.running.(at := Returned(true)))
  {
    hide Init, Inv, Next;
    assert Follows(states[k], steps[k], states[k + 1], cfg);
    RunKeeps(states, steps, cfg, mode, now, k);
    StepCounts(states[k], steps[k], cfg);
  }

  lemma StepCounts(s: State, step: Step, cfg: Config)
    requires Inv(s, cfg) && Enabled(s, step)
    ensures var t := Next(s, step, cfg);
            var applied := step.ResumeTask? && s.running.Run? && s.running.at.Applied?;
            t.switchCount == s.switchCount + (if applied then 1 else 0) && (applied ==> t.running == s.running.(at := Returned(true)))
  {
    hide Act, ModeInv, ResourceInv, FreshInv, AlternationInv, BudgetInv, IntentInv, PhaseInv;
    ActTask(s, step, cfg);
    if IsCall(step) {
      CallFrame(s, step, cfg);
    } else if step.StartTask? {
      StartKeepsCount(s, cfg);
    } else if step.ResumeTask? {
      ResumeCounts(s, cfg);
    } else {
      OtherKeepsCount(s, step, cfg);
    }
  }

  lemma StartKeepsCount(s: State, cfg: Config)
    requires ModeInv(s, cfg) && s.running.Idle? && s.queue != []
    ensures DoStart(s, cfg).switchCount == s.switchCount
  {
    hide Resolve, SameResolution, BeginApply, BeginAdaptive, Recent, Toggle;
    var task, t := s.queue[0], s.(queue := s.queue[1..]);
    if task.ManualTask? {
      ApplyShape(t.(running := Run(task, s.phase, s.now, Applied)), task.target, cfg);
    } else if Admits(t, task, cfg) {
      var u := AdaptiveReady(t, task, cfg);
      if u.running.Run? { ApplyShape(u, task.target, cfg); }
    } else {
      NotAdmitted(t, task, cfg);
    }
  }

  lemma ResumeCounts(s: State, cfg: Config)
    requires s.running.Run?
    ensures var t := DoResume(s, cfg);
            t.switchCount == s.switchCount + (if s.running.at.Applied? then 1 else 0)
            && (s.running.at.Applied? ==> t.running == s.running.(at := Returned(true)))
  {
    hide Toggle, TimerOf, Overwrite;
  }

  lemma OtherKeepsCount(s: State, step: Step, cfg: Config)
    requires Enabled(s, step) && !IsCall(step) && !step.StartTask? && !step.ResumeTask?
    ensures Act(s, step, cfg).switchCount == s.switchCount
  {
    hide TimerOf, SwitchOn;
  }

  /**
    Before the flush timer restarts, the buffer is flushed exactly when the timer was off and comes
    on, or when the switch is into or out of the fast mode; and only while the instance is active.
  */
  lemma FlushesAgainIff(states: seq<State>, steps: seq<Step>, cfg: Config, mode: CaptureMode, now: int, k: nat)
    requires IsRun(states, steps, cfg, mode, now) && k < |steps| && steps[k].ResumeTask?
    requires states[k].running.Run? && states[k].running.at.Runtime?
    ensures var at, t := states[k].running.at, states[k + 1];
            && t.running.Run?
            && (t.running.at == FlushAgain <==>
                  at.wasActive && ((at.previous.flushIntervalMs == 0 && at.next.flushIntervalMs != 0)
                                   || (at.previous.captureMode == Fast && at.next.captureMode != Fast)
                                   || (at.previous.captureMode != Fast && at.next.captureMode == Fast)))
            && (at.wasActive && t.running.at != FlushAgain ==> t.flushTimer == TimerOf(t.modeState))
  {
    hide Init, Toggle, Overwrite, TimerOf;
    assert Follows(states[k], steps[k], states[k + 1], cfg);
  }

  // ---------------------------------------------------------------- after shutdown

  /** Once shutdown began no timer evaluates, and once it ended nothing is on and nothing is left to do. */
  ghost predicate Off(s: State) {
    && (s.lifecycle == ShuttingDown || s.lifecycle == ShutDown ==> !s.timerOn)
    && (s.lifecycle == ShutDown ==> s.resources == NoResources() && s.flushTimer.None? && s.running.Idle?)
  }

  lemma OffNext(s: State, step: Step, cfg: Config)
    requires Inv(s, cfg) && Off(s) && Enabled(s, step)
    ensures Off(Next(s, step, cfg))
  {
    hide Act, ModeInv, ResourceInv, FreshInv, AlternationInv, BudgetInv, IntentInv, PhaseInv;
    ActTask(s, step, cfg);
    if IsCall(step) {
      CallFrame(s, step, cfg);
    } else if step.StartTask? {
      StartOff(s, cfg);
    } else if step.ResumeTask? {
      ResumeOff(s, cfg);
    } else {
      OtherOff(s, step, cfg);
    }
  }

  lemma StartOff(s: State, cfg: Config)
    requires ModeInv(s, cfg) && s.running.Idle? && s.queue != []
    ensures var t := DoStart(s, cfg);
            && t.lifecycle == s.lifecycle && t.timerOn == s.timerOn
            && (!CanSwitch(s.lifecycle) ==> t.resources == s.resources && t.flushTimer == s.flushTimer && t.running.Idle?)
  {
    hide Resolve, SameResolution, BeginApply, BeginAdaptive, Recent, Toggle;
    var task, t := s.queue[0], s.(queue := s.queue[1..]);
    if task.ManualTask? {
      ApplyShape(t.(running := Run(task, s.phase, s.now, Applied)), task.target, cfg);
    } else if Admits(t, task, cfg) {
      var u := AdaptiveReady(t, task, cfg);
      if u.running.Run? { ApplyShape(u, task.target, cfg); }
    } else {
      NotAdmitted(t, task, cfg);
    }
  }

  lemma ResumeOff(s: State, cfg: Config)
    requires s.running.Run?
    ensures var t := DoResume(s, cfg); t.lifecycle == s.lifecycle && t.timerOn == s.timerOn
  {
    hide Toggle, TimerOf, Overwrite;
  }

  lemma OtherOff(s: State, step: Step, cfg: Config)
    requires Off(s) && Enabled(s, step) && !IsCall(step) && !step.StartTask? && !step.ResumeTask?
    ensures Off(Next(s, step, cfg))
  {
    hide TimerOf, SwitchOn, DoStart, DoResume, DoSet, DoCapture, DoMicrotask, DoTick;
  }

  /** In every run. */
  lemma {:induction false} ShutdownTurnsOff(states: seq<State>, steps: seq<Step>, cfg: Config, mode: CaptureMode, now: int, k: nat)
    requires IsRun(states, steps, cfg, mode, now) && k < |states|
    ensures Off(states[k])
  {
    hide Next, Inv, Enabled, Init, Off;
    if k == 0 {
      InitOff(cfg, mode, now);
    } else {
      ShutdownTurnsOff(states, steps, cfg, mode, now, k - 1);
      RunKeeps(states, steps, cfg, mode, now, k - 1);
      assert Follows(states[k - 1], steps[k - 1], states[k], cfg);
      OffNext(states[k - 1], steps[k - 1], cfg);
    }
  }

  lemma InitOff(cfg: Config, mode: CaptureMode, now: int)
    requires ValidConfig(cfg, mode)
    ensures Off(Init(cfg, mode, now))
  {
    hide Resolve;
  }
}
