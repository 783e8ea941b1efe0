/** The controller's guarantees over whole runs: any number of steps, in any interleaving. */
module CaptureRuns {
  import opened Wrappers
  import opened CaptureModes
  import opened CaptureControl
  import opened CaptureInvariants
  import opened CapturePhases
  import opened CaptureHistory
  import opened CaptureBudget
  import opened CaptureIntents

  ghost predicate IsRun(states: seq<State>, steps: seq<Step>, cfg: Config, mode: CaptureMode, now: int) {
    && ValidConfig(cfg, mode)
    && |states| == |steps| + 1
    && states[0] == Init(cfg, mode, now)
    && forall k :: 0 <= k < |steps| ==> Follows(states[k], steps[k], states[k + 1], cfg)
  }

  ghost predicate Follows(s: State, step: Step, t: State, cfg: Config) {
    Enabled(s, step) && t == Next(s, step, cfg)
  }

  ghost predicate Inv(s: State, cfg: Config) {
    ModeInv(s, cfg) && ResourceInv(s, cfg) && PhaseInv(s, cfg) && FreshInv(s) && AlternationInv(s) && BudgetInv(s, cfg)
    && IntentInv(s, cfg)
  }

  lemma InitInv(cfg: Config, mode: CaptureMode, now: int)
    requires ValidConfig(cfg, mode)
    ensures Inv(Init(cfg, mode, now), cfg)
  {
    hide Resolve, ModeInv, ResourceInv, PhaseInv, FreshInv, AlternationInv, BudgetInv, IntentInv, Init;
    InitModes(cfg, mode, now);
    InitHistory(cfg, mode, now);
  }

  lemma InitModes(cfg: Config, mode: CaptureMode, now: int)
    requires ValidConfig(cfg, mode)
    ensures var s := Init(cfg, mode, now); ModeInv(s, cfg) && ResourceInv(s, cfg) && PhaseInv(s, cfg)
  {
    hide Resolve;
    ResolveMode(cfg.user, cfg.origin, mode);
    OverwriteKeepsResolution(cfg.user, cfg.origin, cfg.origin, mode);
  }

  lemma InitHistory(cfg: Config, mode: CaptureMode, now: int)
    requires ValidConfig(cfg, mode)
    ensures var s := Init(cfg, mode, now); FreshInv(s) && AlternationInv(s) && BudgetInv(s, cfg) && IntentInv(s, cfg)
  {
    hide Resolve, BudgetInv, IntentInv;
    InitBudget(cfg, mode, now);
    InitIntents(cfg, mode, now);
  }

  lemma InitBudget(cfg: Config, mode: CaptureMode, now: int)
    requires ValidConfig(cfg, mode)
    ensures BudgetInv(Init(cfg, mode, now), cfg)
  {
    hide Resolve;
  }

  lemma InitIntents(cfg: Config, mode: CaptureMode, now: int)
    requires ValidConfig(cfg, mode)
    ensures IntentInv(Init(cfg, mode, now), cfg)
  {
    hide Resolve;
  }

  lemma InvNext(s: State, step: Step, cfg: Config)
    requires Inv(s, cfg) && Enabled(s, step)
    ensures Inv(Next(s, step, cfg), cfg)
  {
    hide Next, ModeInv, ResourceInv, PhaseInv, FreshInv, AlternationInv, BudgetInv, IntentInv;
    ModeInvNext(s, step, cfg);
    ResourceInvNext(s, step, cfg);
    PhaseInvNext(s, step, cfg);
    FreshInvNext(s, step, cfg);
    AlternationInvNext(s, step, cfg);
    BudgetInvNext(s, step, cfg);
    IntentInvNext(s, step, cfg);
  }

  lemma {:induction false} RunKeeps(states: seq<State>, steps: seq<Step>, cfg: Config, mode: CaptureMode, now: int, k: nat)
    requires IsRun(states, steps, cfg, mode, now) && k < |states|
    ensures Inv(states[k], cfg)
  {
    hide Next, Inv, Enabled, Init;
    if k == 0 {
      InitInv(cfg, mode, now);
    } else {
      RunKeeps(states, steps, cfg, mode, now, k - 1);
      assert Follows(states[k - 1], steps[k - 1], states[k], cfg);
      InvNext(states[k - 1], steps[k - 1], cfg);
    }
  }

  /** At every boundary between queued tasks the phase tells the mode, and an escalated phase has its stamps. */
  lemma PhaseTellsMode(states: seq<State>, steps: seq<Step>, cfg: Config, mode: CaptureMode, now: int, k: nat)
    requires IsRun(states, steps, cfg, mode, now) && k < |states| && states[k].running.Idle? && cfg.adaptive.enabled
    ensures PhaseMatchesMode(states[k].phase, states[k].modeState.captureMode, cfg.adaptive)
    ensures states[k].phase == Escalated ==> states[k].lastEscalationAt.Some? && states[k].lastCaptureAt.Some?
  {
    hide IsRun;
    RunKeeps(states, steps, cfg, mode, now, k);
  }

  /**
    At every await point while active the resources are those of a fresh activate() in the current
    mode, and between tasks the flush timer is too; the mode's state is what it was at init.
  */
  lemma ResourcesFollowMode(states: seq<State>, steps: seq<Step>, cfg: Config, mode: CaptureMode, now: int, k: nat)
    requires IsRun(states, steps, cfg, mode, now) && k < |states|
    ensures var s := states[k];
            && (s.lifecycle == Active ==> s.resources == Fresh(s.modeState, cfg.origin.serverless))
            && (s.lifecycle == Active && s.running.Idle? ==> s.flushTimer == TimerOf(s.modeState))
            && Resolve(cfg.user, cfg.origin, s.modeState.captureMode) == Some(s.modeState)
  {
    hide IsRun, Resolve, Fresh, TimerOf;
    RunKeeps(states, steps, cfg, mode, now, k);
  }

  /**
    Every adaptive switch that ever begins was asked for after every manual choice accepted before
    it.  Switches begin in the order of their requests, so no request switches twice, and two
    switches to one mode are never back to back.
  */
  lemma SwitchesAreFreshAndOrdered(states: seq<State>, steps: seq<Step>, cfg: Config, mode: CaptureMode, now: int, k: nat)
    requires IsRun(states, steps, cfg, mode, now) && k < |states|
    ensures SwitchesFresh(states[k].log) && ServedInOrder(states[k].log) && Alternates(states[k].log)
  {
    hide IsRun;
    RunKeeps(states, steps, cfg, mode, now, k);
  }

  /**
    A switch asked for no later than an earlier switch to the same mode began is a duplicate.  It
    happens only after a switch back that was itself asked for before the duplicate.
  */
  lemma DuplicatesSwitchOnlyAfterReturn(states: seq<State>, steps: seq<Step>, cfg: Config, mode: CaptureMode, now: int, k: nat)
    requires IsRun(states, steps, cfg, mode, now) && k < |states|
    ensures DuplicatesNeedReturn(states[k].log)
  {
    hide IsRun;
    RunKeeps(states, steps, cfg, mode, now, k);
    ReturnBetween(states[k].log, states[k].steps);
  }

  // ---------------------------------------------------------------- where switches come from

  lemma {:induction false} StepsCounted(states: seq<State>, steps: seq<Step>, cfg: Config, mode: CaptureMode, now: int, k: nat)
    requires IsRun(states, steps, cfg, mode, now) && k < |states|
    ensures states[k].steps == k
  {
    if k == 0 {
      InitSteps(cfg, mode, now);
    } else {
      hide Act, Init;
      StepsCounted(states, steps, cfg, mode, now, k - 1);
      assert Follows(states[k - 1], steps[k - 1], states[k], cfg);
    }
  }

  lemma InitSteps(cfg: Config, mode: CaptureMode, now: int)
    requires ValidConfig(cfg, mode)
    ensures Init(cfg, mode, now).steps == 0 && Init(cfg, mode, now).log == [] && Intents(Init(cfg, mode, now), cfg) == []
  {
    hide Resolve;
  }

  /** The step that asked for a switch to this mode: a timer finding quiet and dwell times passed, or a capture in the base phase. */
  ghost predicate AskedAt(states: seq<State>, steps: seq<Step>, cfg: Config, target: CaptureMode, r: nat) {
    && r < |steps| && r < |states|
    && (target == cfg.adaptive.base || target == cfg.adaptive.escalated)
    && (target == cfg.adaptive.base ==> steps[r].TimerTick? && QuietLongEnough(states[r], cfg))
    && (target == cfg.adaptive.escalated ==>
          steps[r].AdmittedCapture? && steps[r].modeAtCapture == cfg.adaptive.base && states[r].phase == Base)
  }

  /** Every adaptive return to base was asked for when quiet and dwell times had passed, every escalation by a capture in the base phase. */
  lemma {:induction false} SwitchesWereAskedFor(states: seq<State>, steps: seq<Step>, cfg: Config, mode: CaptureMode, now: int, k: nat)
    requires IsRun(states, steps, cfg, mode, now) && k < |states|
    ensures forall i :: 0 <= i < |states[k].log| && states[k].log[i].Switched? ==>
              AskedAt(states, steps, cfg, states[k].log[i].target, states[k].log[i].requestedAt)
    ensures forall i :: 0 <= i < |Intents(states[k], cfg)| ==>
              AskedAt(states, steps, cfg, Intents(states[k], cfg)[i].target, Intents(states[k], cfg)[i].requestedAt)
  {
    hide Next, Enabled, Init, AskedAt, Intents, Inv;
    if k == 0 {
      InitSteps(cfg, mode, now);
    } else {
      SwitchesWereAskedFor(states, steps, cfg, mode, now, k - 1);
      RunKeeps(states, steps, cfg, mode, now, k - 1);
      StepsCounted(states, steps, cfg, mode, now, k - 1);
      var s, step, t := states[k - 1], steps[k - 1], states[k];
      assert Follows(s, step, t, cfg);
      AskedInStep(s, step, cfg);
      forall i | 0 <= i < |Intents(t, cfg)|
        ensures AskedAt(states, steps, cfg, Intents(t, cfg)[i].target, Intents(t, cfg)[i].requestedAt)
      {
        var x := Intents(t, cfg)[i];
        if x !in Intents(s, cfg) {
          NewIntentAsked(states, steps, cfg, k - 1, x);
        }
      }
      forall i | 0 <= i < |t.log| && t.log[i].Switched? ensures AskedAt(states, steps, cfg, t.log[i].target, t.log[i].requestedAt) {
        if i < |s.log| { assert t.log[i] == s.log[i]; }
      }
    }
  }

  /** An intent the step asked for. */
  predicate AskedBy(s: State, step: Step, x: Task, cfg: Config) {
    && x.AdaptiveTask? && x.requestedAt == s.steps && cfg.adaptive.enabled
    && ((x.target == cfg.adaptive.escalated && step.AdmittedCapture? && step.modeAtCapture == cfg.adaptive.base && s.phase == Base)
        || (x.target == cfg.adaptive.base && step.TimerTick? && QuietLongEnough(s, cfg)))
  }

  /** In one step, an intent is old or asked for by the step, and a switch logged comes from an intent. */
  lemma AskedInStep(s: State, step: Step, cfg: Config)
    requires Inv(s, cfg) && Enabled(s, step)
    ensures var t := Next(s, step, cfg);
            && (forall i :: 0 <= i < |Intents(t, cfg)| ==>
                  Intents(t, cfg)[i] in Intents(s, cfg) || AskedBy(s, step, Intents(t, cfg)[i], cfg))
            && s.log <= t.log && s.generation <= t.generation
            && (forall i :: |s.log| <= i < |t.log| && t.log[i].Switched? ==>
                  exists x :: x in Intents(s, cfg) && x.AdaptiveTask? && x.generation == s.generation
                              && x.target == t.log[i].target && x.requestedAt == t.log[i].requestedAt)
  {
    hide Act, Intents, QuietLongEnough, ModeInv, ResourceInv, PhaseInv, FreshInv, AlternationInv, BudgetInv, IntentInv;
    var u, t := Act(s, step, cfg), Next(s, step, cfg);
    SameIntents(u, t, cfg);
    ActTask(s, step, cfg);
    if IsCall(step) {
      CallIntents(s, step, cfg);
      CallLog(s, step, cfg);
      if s.micro != [] { DropKeepsMembers(s, cfg); }
      EnabledByQuiet(s, cfg);
    } else if step.StartTask? {
      StartLog(s, cfg);
      StartIntents(s, u, cfg);
      if t.log != s.log { assert s.queue[0] in Intents(s, cfg); }
    } else if step.ResumeTask? {
      if s.running.at.Returned? { ResumeFinishes(s, cfg); FinishLog(s, cfg); } else { SegmentFrame(s, cfg); }
      SameIntents(s, u, cfg);
    } else {
      LifecycleLog(s, step, cfg);
      SameIntents(s, u, cfg);
    }
  }

  lemma EnabledByQuiet(s: State, cfg: Config)
    ensures QuietLongEnough(s, cfg) ==> cfg.adaptive.enabled
  {
  }

  lemma DropKeepsMembers(s: State, cfg: Config)
    requires s.micro != []
    ensures forall x :: x in Adaptives(s.queue) + TasksOf(s.micro, cfg)[1..] ==> x in Intents(s, cfg)
  {
    hide Adaptives;
  }

  lemma NewIntentAsked(states: seq<State>, steps: seq<Step>, cfg: Config, r: nat, x: Task)
    requires r < |steps| && r < |states| && states[r].steps == r && AskedBy(states[r], steps[r], x, cfg)
    requires Inv(states[r], cfg)
    ensures AskedAt(states, steps, cfg, x.target, x.requestedAt)
  {
  }

  /**
    In any hour, adaptive switches number at most maxSwitchesPerHour + 1 + the manual choices that
    completed in that hour.  The setting alone is not the bound: the switch that finds the budget
    spent still happens when it escalates.
  */
  lemma RollingHourBound(states: seq<State>, steps: seq<Step>, cfg: Config, mode: CaptureMode, now: int, k: nat, from: int)
    requires IsRun(states, steps, cfg, mode, now) && k < |states|
    ensures SwitchesIn(states[k].log, from) <= cfg.adaptive.maxSwitchesPerHour + 1 + ManualsIn(states[k].log, from)
  {
    hide IsRun, SwitchesIn, ManualsIn;
    RunKeeps(states, steps, cfg, mode, now, k);
    HourBound(states[k].log, from, states[k].now, cfg.adaptive.maxSwitchesPerHour);
  }

  /**
    The exact law of the budget: a switch makes the hour that ends with it hold more than
    maxSwitchesPerHour switches if and only if it is limited, that is, it began when the hour
    before it already held that many; and then it is an escalation.
  */
  lemma OverLimitIff(states: seq<State>, steps: seq<Step>, cfg: Config, mode: CaptureMode, now: int, k: nat, i: nat)
    requires IsRun(states, steps, cfg, mode, now) && k < |states| && i < |states[k].log| && states[k].log[i].Switched?
    ensures var log := states[k].log;
            && (|Recent(Times(log[..i + 1]), log[i].time)| > cfg.adaptive.maxSwitchesPerHour <==> log[i].limited)
            && (log[i].limited ==> log[i].target == cfg.adaptive.escalated)
  {
    hide IsRun, Recent, Times, ModeInv, ResourceInv, PhaseInv, FreshInv, AlternationInv, IntentInv, PinnedHolds, OverBudget, InOrder;
    RunKeeps(states, steps, cfg, mode, now, k);
    var log := states[k].log;
    assert log[..i + 1] == log[..i] + [log[i]];
    TimesSnoc(log[..i], log[i]);
    RecentSnoc(Times(log[..i]), log[i].time, log[i].time);
  }

  // ---------------------------------------------------------------- shutdown

  predicate Closing(s: State) {
    (s.lifecycle == ShuttingDown || s.lifecycle == ShutDown) && s.running.Idle?
  }

  /** What a switch could change. */
  predicate SameModeAs(s: State, t: State) {
    t.modeState == s.modeState && t.base == s.base && t.phase == s.phase && t.switchCount == s.switchCount
    && t.timestamps == s.timestamps && t.log == s.log && t.generation == s.generation && t.rearms == s.rearms
  }

  lemma ClosingNext(s: State, step: Step, cfg: Config)
    requires Closing(s) && Enabled(s, step)
    ensures Closing(Next(s, step, cfg)) && SameModeAs(s, Next(s, step, cfg))
  {
    hide Resolve;
  }

  /** Once shutdown has begun and no task is running, nothing applies any more, whatever still happens. */
  lemma {:induction false} NothingAppliesAfterShutdown(states: seq<State>, steps: seq<Step>, cfg: Config, mode: CaptureMode, now: int, j: nat, k: nat)
    requires IsRun(states, steps, cfg, mode, now) && j <= k < |states| && Closing(states[j])
    ensures Closing(states[k]) && SameModeAs(states[j], states[k])
    decreases k - j
  {
    if j < k {
      hide Next, Init, Enabled;
      assert Follows(states[j], steps[j], states[j + 1], cfg);
      ClosingNext(states[j], steps[j], cfg);
      NothingAppliesAfterShutdown(states, steps, cfg, mode, now, j + 1, k);
    }
  }
}
