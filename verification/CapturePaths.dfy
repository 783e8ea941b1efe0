/** Putting runs of the controller together: paths, and the few stretches every scenario is made of. */
module CapturePaths {
  import opened Wrappers
  import opened CaptureModes
  import opened CaptureControl
  import opened CaptureInvariants
  import opened CapturePhases
  import opened CaptureHistory
  import opened CaptureBudget
  import opened CaptureIntents
  import opened CaptureRuns

  datatype Path = Path(states: seq<State>, steps: seq<Step>)

  ghost predicate IsPath(p: Path, cfg: Config) {
    && |p.states| == |p.steps| + 1
    && forall k :: 0 <= k < |p.steps| ==> Follows(p.states[k], p.steps[k], p.states[k + 1], cfg)
  }

  /** A path between two states. */
  ghost predicate Leads(p: Path, s: State, t: State, cfg: Config) {
    IsPath(p, cfg) && p.states[0] == s && p.states[|p.steps|] == t
  }

  ghost predicate Reaches(s: State, t: State, cfg: Config) {
    exists p :: Leads(p, s, t, cfg)
  }

  lemma Stays(s: State, cfg: Config)
    ensures Reaches(s, s, cfg)
  {
    assert Leads(Path([s], []), s, s, cfg);
  }

  lemma Takes(s: State, step: Step, cfg: Config)
    requires Enabled(s, step)
    ensures Reaches(s, Next(s, step, cfg), cfg)
  {
    hide Next, Enabled;
    assert Follows(s, step, Next(s, step, cfg), cfg);
    assert Leads(Path([s, Next(s, step, cfg)], [step]), s, Next(s, step, cfg), cfg);
  }

  lemma Joins(s: State, t: State, u: State, cfg: Config)
    requires Reaches(s, t, cfg) && Reaches(t, u, cfg)
    ensures Reaches(s, u, cfg)
  {
    hide Follows;
    var p :| Leads(p, s, t, cfg);
    var q :| Leads(q, t, u, cfg);
    var r := Path(p.states + q.states[1..], p.steps + q.steps);
    forall k | 0 <= k < |r.steps| ensures Follows(r.states[k], r.steps[k], r.states[k + 1], cfg) {
      if k < |p.steps| {
        assert Follows(p.states[k], p.steps[k], p.states[k + 1], cfg);
      } else {
        var m := k - |p.steps|;
        assert Follows(q.states[m], q.steps[m], q.states[m + 1], cfg);
        assert r.states[k] == q.states[m] && r.states[k + 1] == q.states[m + 1];
      }
    }
    assert Leads(r, s, u, cfg);
  }

  /** A path from the start is a run. */
  lemma PathIsRun(t: State, cfg: Config, mode: CaptureMode, now: int) returns (states: seq<State>, steps: seq<Step>)
    requires ValidConfig(cfg, mode) && Reaches(Init(cfg, mode, now), t, cfg)
    ensures IsRun(states, steps, cfg, mode, now) && states[|steps|] == t
  {
    hide Follows, Init;
    var p :| Leads(p, Init(cfg, mode, now), t, cfg);
    states, steps := p.states, p.steps;
  }

  lemma {:induction false} PathKeeps(p: Path, k: nat, cfg: Config)
    requires IsPath(p, cfg) && k < |p.states| && Inv(p.states[0], cfg)
    ensures Inv(p.states[k], cfg)
  {
    hide Inv, Next, Enabled;
    if k > 0 {
      PathKeeps(p, k - 1, cfg);
      assert Follows(p.states[k - 1], p.steps[k - 1], p.states[k], cfg);
      InvNext(p.states[k - 1], p.steps[k - 1], cfg);
    }
  }

  lemma ReachesInv(s: State, t: State, cfg: Config)
    requires Reaches(s, t, cfg) && Inv(s, cfg)
    ensures Inv(t, cfg)
  {
    hide Inv, Follows;
    var p :| Leads(p, s, t, cfg);
    PathKeeps(p, |p.steps|, cfg);
  }

  // ---------------------------------------------------------------- finishing a task

  /** What the awaits of a task leave alone. */
  predicate SameAround(s: State, t: State) {
    && t.queue == s.queue && t.micro == s.micro && t.generation == s.generation && t.lifecycle == s.lifecycle && t.now == s.now
    && t.timerOn == s.timerOn && t.escalationGeneration == s.escalationGeneration
  }

  /** How many more segments until the task returns. */
  function Awaits(at: Await): nat {
    match at
    case FlushFirst(_, _) => 4
    case Runtime(_, _, _) => 3
    case FlushAgain => 2
    case Applied => 1
    case Returned(_) => 0
  }

  lemma SegmentAround(s: State, cfg: Config)
    requires s.running.Run? && !s.running.at.Returned?
    ensures var t := DoResume(s, cfg);
            SameAround(s, t) && t.running.Run? && Awaits(t.running.at) < Awaits(s.running.at) && t.running == s.running.(at := t.running.at)
  {
    hide Toggle, TimerOf, Overwrite;
  }

  /** What a finished task leaves. */
  ghost predicate Settled(s: State, t: State, cfg: Config) {
    && SameAround(s, t) && t.running.Idle? && s.running.Run?
    && if s.running.task.AdaptiveTask? then
         && t.log == s.log && t.timestamps == s.timestamps + [s.running.startedAt] && t.lastCaptureAt == s.lastCaptureAt
         && if s.running.task.target == cfg.adaptive.escalated
            then t.phase == (if s.phase == Pinned then Pinned else Escalated) && t.lastEscalationAt == Some(s.running.startedAt)
            else t.phase == Base && t.lastEscalationAt == s.lastEscalationAt
       else
         && t.log == s.log + [ManualDone(s.now, s.running.task.target)] && t.timestamps == s.timestamps
         && (cfg.adaptive.enabled && s.running.task.target == cfg.adaptive.base ==>
               t.phase == Base && t.lastCaptureAt == s.lastCaptureAt)
         && (cfg.adaptive.enabled && s.running.task.target == cfg.adaptive.escalated && cfg.adaptive.base != cfg.adaptive.escalated ==>
               t.phase == Escalated && t.lastCaptureAt == Some(s.now) && t.lastEscalationAt == Some(s.now))
  }

  lemma LastSegment(s: State, cfg: Config)
    requires s.running.Run? && s.running.at.Returned? && (s.running.task.AdaptiveTask? ==> s.running.at.changed)
    ensures Settled(s, DoResume(s, cfg), cfg)
  {
  }

  lemma SettledThrough(s: State, u: State, t: State, cfg: Config)
    requires s.running.Run? && u.running.Run? && u.running.task == s.running.task && u.running.startedAt == s.running.startedAt
    requires SameAround(s, u) && u.log == s.log && u.timestamps == s.timestamps && u.phase == s.phase
    requires u.lastCaptureAt == s.lastCaptureAt && u.lastEscalationAt == s.lastEscalationAt
    requires Settled(u, t, cfg)
    ensures Settled(s, t, cfg)
  {
  }

  /** Steps only count: what follows a step's effect is the same with the count raised. */
  lemma SettledSteps(s: State, t: State, n: nat, cfg: Config)
    requires Settled(s, t, cfg)
    ensures Settled(s, t.(steps := n), cfg)
  {
  }

  lemma NextResume(s: State, cfg: Config)
    requires s.running.Run?
    ensures Enabled(s, ResumeTask) && Next(s, ResumeTask, cfg) == DoResume(s, cfg).(steps := s.steps + 1)
  {
    hide DoResume;
  }

  /** A running task can always run to its end. */
  lemma {:induction false} Settle(s: State, cfg: Config) returns (t: State)
    requires Inv(s, cfg) && s.running.Run?
    ensures Reaches(s, t, cfg) && Settled(s, t, cfg)
    decreases Awaits(s.running.at)
  {
    hide Inv, Next, Enabled, DoResume, Settled, SameAround, Awaits, Reaches;
    NextResume(s, cfg);
    Takes(s, ResumeTask, cfg);
    var u := Next(s, ResumeTask, cfg);
    if s.running.at.Returned? {
      ChangedIfAdaptive(s, cfg);
      LastSegment(s, cfg);
      SettledSteps(s, DoResume(s, cfg), s.steps + 1, cfg);
      t := u;
    } else {
      SegmentAround(s, cfg);
      SegmentFrame(s, cfg);
      InvNext(s, ResumeTask, cfg);
      t := Settle(u, cfg);
      Joins(s, u, t, cfg);
      SameAroundSteps(s, DoResume(s, cfg), s.steps + 1);
      SettledThrough(s, u, t, cfg);
    }
  }

  lemma SameAroundSteps(s: State, t: State, n: nat)
    requires SameAround(s, t)
    ensures SameAround(s, t.(steps := n))
  {
  }

  lemma ChangedIfAdaptive(s: State, cfg: Config)
    requires Inv(s, cfg) && s.running.Run? && s.running.at.Returned?
    ensures s.running.task.AdaptiveTask? ==> s.running.at.changed
  {
    hide ModeInv, ResourceInv, FreshInv, AlternationInv, BudgetInv, IntentInv, Resolve;
    if s.running.task.AdaptiveTask? {
      assert AdaptiveOk(s.running.task, cfg);
    }
  }

  // ---------------------------------------------------------------- starting a task

  /** What a start or a call leaves alone, besides the log, the queue and the running task. */
  predicate SameClocks(s: State, t: State) {
    && t.micro == s.micro && t.generation == s.generation && t.lifecycle == s.lifecycle && t.now == s.now && t.timerOn == s.timerOn
    && t.escalationGeneration == s.escalationGeneration && t.lastCaptureAt == s.lastCaptureAt
    && t.lastEscalationAt == s.lastEscalationAt && t.steps == s.steps + 1
  }

  /** The task the phase calls for. */
  predicate Current(s: State, task: Task, cfg: Config) {
    && task.AdaptiveTask? && task.generation == s.generation
    && ((s.phase == Base && task.target == cfg.adaptive.escalated) || (s.phase == Escalated && task.target == cfg.adaptive.base))
  }

  lemma NextStart(s: State, cfg: Config)
    requires s.running.Idle? && s.queue != []
    ensures Enabled(s, StartTask) && Next(s, StartTask, cfg) == DoStart(s, cfg).(steps := s.steps + 1)
  {
    hide DoStart;
  }

  /** applyModeState's first segment touches only what it is about. */
  lemma BeginAround(s: State, mode: CaptureMode, cfg: Config)
    requires s.running.Run? && SameResolution(cfg.user, cfg.origin, s.base) && CanSwitch(s.lifecycle)
    requires Resolve(cfg.user, cfg.origin, s.modeState.captureMode) == Some(s.modeState) && Resolve(cfg.user, cfg.origin, mode).Some?
    ensures var t := BeginApply(s, mode, cfg);
            && t.running.Run? && t.running == s.running.(at := t.running.at) && Applies(s, mode, cfg)
            && t.queue == s.queue && t.micro == s.micro && t.generation == s.generation && t.lifecycle == s.lifecycle
            && t.now == s.now && t.timerOn == s.timerOn && t.escalationGeneration == s.escalationGeneration
            && t.lastCaptureAt == s.lastCaptureAt && t.lastEscalationAt == s.lastEscalationAt && t.steps == s.steps
            && t.timestamps == s.timestamps && t.phase == s.phase && t.log == s.log
  {
    hide Resolve, SameResolution, BeginApply, Toggle, Overwrite, Applies;
    ApplyShape(s, mode, cfg);
  }

  /** A current adaptive task at the head of the queue begins its switch. */
  lemma Begins(s: State, cfg: Config)
    requires Inv(s, cfg) && cfg.adaptive.enabled && s.running.Idle? && s.queue != [] && s.lifecycle == Active
    requires Current(s, s.queue[0], cfg) && Resolve(cfg.user, cfg.origin, s.queue[0].target).Some?
    requires |Recent(s.timestamps, s.now)| < cfg.adaptive.maxSwitchesPerHour || s.queue[0].target == cfg.adaptive.escalated
    ensures Enabled(s, StartTask)
    ensures var t, task := Next(s, StartTask, cfg), s.queue[0];
            var limited := |Recent(s.timestamps, s.now)| >= cfg.adaptive.maxSwitchesPerHour;
            && SameClocks(s, t) && t.queue == s.queue[1..]
            && t.running.Run? && t.running.task == task && t.running.startedAt == s.now
            && t.timestamps == Recent(s.timestamps, s.now) && t.phase == (if limited then Pinned else s.phase)
            && t.log == s.log + [Switched(task.target, task.requestedAt, s.steps, s.now, limited)]
  {
    hide ResourceInv, FreshInv, AlternationInv, BudgetInv, IntentInv, Resolve, SameResolution, Recent, BeginApply, BeginAdaptive, Next, Applies;
    NextStart(s, cfg);
    var task, t := s.queue[0], s.(queue := s.queue[1..]);
    assert Admits(t, task, cfg);
    var u := AdaptiveReady(t, task, cfg);
    BeginAround(t.(running := Run(task, s.phase, s.now, Applied)), task.target, cfg);
    AppliesSame(t.(running := Run(task, s.phase, s.now, Applied)), t, task.target, cfg);
    ReadyShape(t, task, cfg);
    BeginAround(u, task.target, cfg);
  }

  lemma AppliesSame(s: State, t: State, mode: CaptureMode, cfg: Config)
    requires t.lifecycle == s.lifecycle && t.base == s.base
    ensures Applies(s, mode, cfg) == Applies(t, mode, cfg)
  {
    hide Resolve;
  }

  lemma ReadyShape(s: State, task: Task, cfg: Config)
    requires task.AdaptiveTask? && Admits(s, task, cfg) && Applies(s, task.target, cfg)
    requires |Recent(s.timestamps, s.now)| < cfg.adaptive.maxSwitchesPerHour || task.target == cfg.adaptive.escalated
    ensures var limited := |Recent(s.timestamps, s.now)| >= cfg.adaptive.maxSwitchesPerHour;
            AdaptiveReady(s, task, cfg) ==
              s.(timestamps := Recent(s.timestamps, s.now), filteredAt := s.now, phase := if limited then Pinned else s.phase,
                 running := Run(task, s.phase, s.now, Applied),
                 log := s.log + [Switched(task.target, task.requestedAt, s.steps, s.now, limited)])
  {
    hide Resolve, BeginApply, Recent;
  }

  /** Any other adaptive task at the head of the queue is dropped. */
  lemma Drops(s: State, cfg: Config)
    requires Inv(s, cfg) && cfg.adaptive.enabled && s.running.Idle? && s.queue != []
    requires s.queue[0].AdaptiveTask? && !Current(s, s.queue[0], cfg)
    ensures Enabled(s, StartTask) && Next(s, StartTask, cfg) == s.(queue := s.queue[1..], steps := s.steps + 1)
  {
    hide ResourceInv, FreshInv, AlternationInv, BudgetInv, IntentInv, ModeInv, Resolve, Recent, BeginApply, BeginAdaptive, Next;
    NextStart(s, cfg);
    var t := s.(queue := s.queue[1..]);
    assert AdaptiveOk(s.queue[0], cfg);
    NotAdmitted(t, s.queue[0], cfg);
  }

  /** A manual task at the head of the queue starts. */
  lemma StartsManual(s: State, cfg: Config)
    requires Inv(s, cfg) && s.running.Idle? && s.queue != [] && s.queue[0].ManualTask? && CanSwitch(s.lifecycle)
    requires Resolve(cfg.user, cfg.origin, s.queue[0].target).Some?
    ensures Enabled(s, StartTask)
    ensures var t := Next(s, StartTask, cfg);
            && SameClocks(s, t) && t.queue == s.queue[1..] && t.running.Run? && t.running.task == s.queue[0]
            && t.timestamps == s.timestamps && t.phase == s.phase && t.log == s.log
  {
    hide ResourceInv, FreshInv, AlternationInv, BudgetInv, IntentInv, PhaseInv, Resolve, SameResolution, BeginApply, Next, Applies;
    NextStart(s, cfg);
    var t := s.(queue := s.queue[1..]);
    BeginAround(t.(running := Run(s.queue[0], s.phase, s.now, Applied)), s.queue[0].target, cfg);
  }

  /** Tasks the phase does not call for are dropped one after the other. */
  lemma {:induction false} DropsAll(s: State, n: nat, cfg: Config)
    requires Inv(s, cfg) && cfg.adaptive.enabled && s.running.Idle? && n <= |s.queue|
    requires forall k :: 0 <= k < n ==> s.queue[k].AdaptiveTask? && !Current(s, s.queue[k], cfg)
    ensures Reaches(s, s.(queue := s.queue[n..], steps := s.steps + n), cfg)
    decreases n
  {
    hide Inv, Next, Enabled, Reaches;
    var t := s.(queue := s.queue[n..], steps := s.steps + n);
    if n == 0 {
      Stays(s, cfg);
      assert t == s;
    } else {
      Drops(s, cfg);
      Takes(s, StartTask, cfg);
      InvNext(s, StartTask, cfg);
      var u := s.(queue := s.queue[1..], steps := s.steps + 1);
      assert forall k :: 0 <= k < n - 1 ==> u.queue[k] == s.queue[k + 1] && Current(u, u.queue[k], cfg) == Current(s, u.queue[k], cfg);
      DropsAll(u, n - 1, cfg);
      assert t == u.(queue := u.queue[n - 1..], steps := u.steps + (n - 1));
      Joins(s, u, t, cfg);
    }
  }

  // ---------------------------------------------------------------- calls

  lemma Waits(s: State, later: int, cfg: Config)
    requires later >= s.now
    ensures Reaches(s, s.(now := later, steps := s.steps + 1), cfg)
  {
    hide Reaches;
    Takes(s, TimePasses(later), cfg);
  }

  /** A capture in the base phase asks for an escalation, and its microtask queues it. */
  lemma AsksToEscalate(s: State, cfg: Config)
    requires cfg.adaptive.enabled && s.lifecycle == Active && s.phase == Base && s.escalationGeneration == None && s.micro == []
    ensures Reaches(s, s.(lastCaptureAt := Some(s.now), steps := s.steps + 2,
                          queue := s.queue + [AdaptiveTask(cfg.adaptive.escalated, s.generation, s.steps)]), cfg)
  {
    hide Reaches;
    var m := Micro(s.generation, s.steps);
    var t := s.(lastCaptureAt := Some(s.now), escalationGeneration := Some(s.generation), micro := [m], steps := s.steps + 1);
    Takes(s, AdmittedCapture(cfg.adaptive.base), cfg);
    assert Next(s, AdmittedCapture(cfg.adaptive.base), cfg) == t;
    Takes(t, RunMicrotask, cfg);
    var u := Next(t, RunMicrotask, cfg);
    assert t.micro[1..] == [];
    Joins(s, t, u, cfg);
  }

  /** The timer asks for the return to base. */
  lemma AsksToReturn(s: State, cfg: Config)
    requires s.lifecycle == Active && s.timerOn && s.micro == [] && QuietLongEnough(s, cfg)
    ensures Reaches(s, s.(steps := s.steps + 1, queue := s.queue + [AdaptiveTask(cfg.adaptive.base, s.generation, s.steps)]), cfg)
  {
    hide Reaches;
    Takes(s, TimerTick, cfg);
  }

  lemma Chooses(s: State, mode: CaptureMode, cfg: Config)
    requires cfg.adaptive.enabled && CanSwitch(s.lifecycle)
    ensures Reaches(s, s.(generation := s.generation + 1, escalationGeneration := None, queue := s.queue + [ManualTask(mode)],
                          log := s.log + [Accepted(s.steps)], steps := s.steps + 1), cfg)
  {
    hide Reaches;
    Takes(s, SetCaptureMode(mode), cfg);
  }

  /** Pending microtasks queue their intents. */
  lemma {:induction false} RunsMicrotasks(s: State, cfg: Config) returns (t: State)
    requires s.lifecycle == Active
    ensures Reaches(s, t, cfg) && t.micro == [] && t.queue == s.queue + TasksOf(s.micro, cfg)
    ensures t == s.(micro := [], queue := t.queue, escalationGeneration := t.escalationGeneration, steps := t.steps)
    decreases |s.micro|
  {
    hide Reaches;
    if s.micro == [] {
      Stays(s, cfg);
      t := s;
      assert s.queue + [] == s.queue;
    } else {
      Takes(s, RunMicrotask, cfg);
      var u := Next(s, RunMicrotask, cfg);
      t := RunsMicrotasks(u, cfg);
      Joins(s, u, t, cfg);
      assert TasksOf(s.micro, cfg) == [TaskOf(s.micro[0], cfg)] + TasksOf(s.micro[1..], cfg);
    }
  }

  // ---------------------------------------------------------------- scenarios

  /** Between tasks, with the timer running and no capture pending. */
  ghost predicate Calm(s: State, cfg: Config) {
    && Inv(s, cfg) && cfg.adaptive.enabled && s.running.Idle? && s.lifecycle == Active && s.timerOn
    && s.micro == [] && s.escalationGeneration == None
  }

  lemma CalmParts(s: State, cfg: Config)
    ensures Calm(s, cfg) <==> (Inv(s, cfg) && cfg.adaptive.enabled && s.running.Idle? && s.lifecycle == Active && s.timerOn
                               && s.micro == [] && s.escalationGeneration == None)
  {
    hide Inv;
  }

  lemma Opens(cfg: Config, now: int) returns (s: State)
    requires ValidConfig(cfg, cfg.adaptive.base) && cfg.adaptive.enabled
    ensures Reaches(Init(cfg, cfg.adaptive.base, now), s, cfg) && Calm(s, cfg)
    ensures s.phase == Base && s.queue == [] && s.timestamps == [] && s.log == [] && s.now == now
  {
    hide Inv, Reaches, Resolve, SwitchOn, TimerOf, Overwrite;
    var i := Init(cfg, cfg.adaptive.base, now);
    InitInv(cfg, cfg.adaptive.base, now);
    Takes(i, Activate, cfg);
    s := Next(i, Activate, cfg);
    ReachesInv(i, s, cfg);
  }

  /** A capture in the base phase, whatever else is going on. */
  lemma CaptureAsks(s: State, cfg: Config) returns (t: State)
    requires Inv(s, cfg) && cfg.adaptive.enabled && s.lifecycle == Active && s.phase == Base && s.escalationGeneration == None && s.micro == []
    ensures Reaches(s, t, cfg) && Inv(t, cfg)
    ensures t == s.(lastCaptureAt := Some(s.now), steps := s.steps + 2,
                    queue := s.queue + [AdaptiveTask(cfg.adaptive.escalated, s.generation, s.steps)])
  {
    hide Inv, Reaches;
    AsksToEscalate(s, cfg);
    t := s.(lastCaptureAt := Some(s.now), steps := s.steps + 2,
            queue := s.queue + [AdaptiveTask(cfg.adaptive.escalated, s.generation, s.steps)]);
    ReachesInv(s, t, cfg);
  }

  function Longer(cfg: Config): (w: nat)
    ensures w >= cfg.adaptive.deescalateAfterMs && w >= cfg.adaptive.minDwellMs
  {
    var m := if cfg.adaptive.deescalateAfterMs >= cfg.adaptive.minDwellMs then cfg.adaptive.deescalateAfterMs else cfg.adaptive.minDwellMs;
    if m >= 0 then m else 0
  }
}
