/**
  When a duplicate of an adaptive switch can still switch: exactly when, as the switch begins, an
  intent to go back waits ahead of it.
*/
module CaptureDuplicates {
  import opened Wrappers
  import opened CaptureModes
  import opened CaptureControl
  import opened CaptureInvariants
  import opened CapturePhases
  import opened CaptureHistory
  import opened CaptureBudget
  import opened CaptureIntents
  import opened CaptureRuns
  import opened CapturePaths

  /** The step before was the start of an adaptive switch, within the hour's budget. */
  ghost predicate JustBegan(s: State, cfg: Config) {
    && cfg.adaptive.enabled && s.lifecycle == Active && s.phase != Pinned
    && s.running.Run? && s.running.task.AdaptiveTask?
    && s.log != [] && s.log[|s.log| - 1].Switched? && s.log[|s.log| - 1].begunAt + 1 == s.steps
  }

  /** An intent to go back waits, and behind it one to do again what has just begun; both of the current generation. */
  ghost predicate ReturnWaits(s: State, cfg: Config)
    requires s.running.Run?
  {
    var a, target := Intents(s, cfg), s.running.task.target;
    exists p, q :: 0 <= p < q < |a| && a[p].generation == a[q].generation == s.generation && a[p].target != target && a[q].target == target
  }

  /** t has begun a later switch to the same mode that had already been asked for at s. */
  ghost predicate DuplicateSwitched(s: State, t: State)
    requires s.running.Run?
  {
    exists k :: |s.log| <= k < |t.log| && t.log[k].Switched? && t.log[k].target == s.running.task.target && t.log[k].requestedAt < s.steps
  }

  // ---------------------------------------------------------------- only if

  lemma IntentGenerations(s: State, cfg: Config)
    requires FreshInv(s)
    ensures forall x :: x in Intents(s, cfg) ==> x.AdaptiveTask? && x.generation <= s.generation
  {
    hide Adaptives;
    forall x | x in Intents(s, cfg) ensures x.AdaptiveTask? && x.generation <= s.generation {
      AdaptiveIn(s.queue, x);
    }
  }

  /** Along a path, what was asked for before it waits at its start, and switches only if of the current generation. */
  ghost predicate CameFrom(s: State, t: State, cfg: Config) {
    && s.log <= t.log && s.steps <= t.steps && s.generation <= t.generation
    && (forall x :: x in Intents(t, cfg) && x.AdaptiveTask? && x.requestedAt < s.steps ==> x in Intents(s, cfg))
    && (forall k :: |s.log| <= k < |t.log| && t.log[k].Switched? && t.log[k].requestedAt < s.steps ==>
          AdaptiveTask(t.log[k].target, s.generation, t.log[k].requestedAt) in Intents(s, cfg))
  }

  lemma CameFromStep(s: State, t: State, step: Step, cfg: Config)
    requires CameFrom(s, t, cfg) && Inv(s, cfg) && Inv(t, cfg) && Enabled(t, step)
    ensures CameFrom(s, Next(t, step, cfg), cfg)
  {
    hide Inv, Next, Enabled, Intents;
    var u := Next(t, step, cfg);
    AskedInStep(t, step, cfg);
    FreshOf(s, cfg);
    IntentGenerations(s, cfg);
    StepCounts(t, step, cfg);
    forall x | x in Intents(u, cfg) && x.AdaptiveTask? && x.requestedAt < s.steps ensures x in Intents(s, cfg) {
      var i :| 0 <= i < |Intents(u, cfg)| && Intents(u, cfg)[i] == x;
    }
    forall k | |s.log| <= k < |u.log| && u.log[k].Switched? && u.log[k].requestedAt < s.steps
      ensures AdaptiveTask(u.log[k].target, s.generation, u.log[k].requestedAt) in Intents(s, cfg)
    {
      if k < |t.log| {
        assert u.log[k] == t.log[k];
      } else {
        var x :| x in Intents(t, cfg) && x.AdaptiveTask? && x.generation == t.generation
                 && x.target == u.log[k].target && x.requestedAt == u.log[k].requestedAt;
        assert x in Intents(s, cfg);
        assert x == AdaptiveTask(x.target, s.generation, x.requestedAt);
      }
    }
  }

  lemma FreshOf(s: State, cfg: Config)
    requires Inv(s, cfg)
    ensures FreshInv(s)
  {
    hide ModeInv, ResourceInv, PhaseInv, FreshInv, AlternationInv, BudgetInv, IntentInv;
  }

  lemma StepCounts(s: State, step: Step, cfg: Config)
    requires Enabled(s, step)
    ensures Next(s, step, cfg).steps == s.steps + 1
  {
    hide Act;
  }

  lemma {:induction false} PathCameFrom(p: Path, k: nat, cfg: Config)
    requires IsPath(p, cfg) && k < |p.states| && Inv(p.states[0], cfg)
    ensures CameFrom(p.states[0], p.states[k], cfg)
  {
    hide Inv, Next, Enabled, Intents, CameFrom;
    if k > 0 {
      PathCameFrom(p, k - 1, cfg);
      PathKeeps(p, k - 1, cfg);
      assert Follows(p.states[k - 1], p.steps[k - 1], p.states[k], cfg);
      CameFromStep(p.states[0], p.states[k - 1], p.steps[k - 1], cfg);
    } else {
      CameFromSelf(p.states[0], cfg);
    }
  }

  lemma CameFromSelf(s: State, cfg: Config)
    ensures CameFrom(s, s, cfg)
  {
    hide Intents;
  }

  lemma ReachesCameFrom(s: State, t: State, cfg: Config)
    requires Reaches(s, t, cfg) && Inv(s, cfg)
    ensures CameFrom(s, t, cfg) && Inv(t, cfg)
  {
    hide Inv, Follows, CameFrom;
    var p :| Leads(p, s, t, cfg);
    PathCameFrom(p, |p.steps|, cfg);
    PathKeeps(p, |p.steps|, cfg);
  }

  lemma LawOf(s: State, cfg: Config)
    requires Inv(s, cfg)
    ensures DuplicatesNeedReturn(s.log) && Ordered(Intents(s, cfg))
  {
    hide ModeInv, ResourceInv, PhaseInv, BudgetInv, Intents, DuplicatesNeedReturn, SwitchesFresh, Alternates, ServedInOrder,
         WrittenInOrder, DoneAfterAccepted, OutdatedAhead;
    ReturnBetween(s.log, s.steps);
  }

  /** The switch just begun is the one under way. */
  lemma LastSwitch(s: State, cfg: Config)
    requires Inv(s, cfg) && JustBegan(s, cfg)
    ensures s.log[|s.log| - 1].target == s.running.task.target
  {
    hide ModeInv, ResourceInv, PhaseInv, FreshInv, BudgetInv, IntentInv, Alternates;
    assert IsMark(s.log[|s.log| - 1]);
  }

  lemma LawGives(log: seq<Note>, i: nat, k: nat) returns (j: nat)
    requires DuplicatesNeedReturn(log) && i < k < |log| && log[i].Switched? && log[k].Switched?
    requires log[i].target == log[k].target && log[k].requestedAt <= log[i].begunAt
    ensures i < j < k && log[j].Switched? && log[j].target != log[i].target && log[j].requestedAt < log[k].requestedAt
  {
    j :| i < j < k && log[j].Switched? && log[j].target != log[i].target && log[j].requestedAt < log[k].requestedAt;
  }

  lemma WaitedAt(s: State, t: State, k: nat, cfg: Config)
    requires CameFrom(s, t, cfg) && |s.log| <= k < |t.log| && t.log[k].Switched? && t.log[k].requestedAt < s.steps
    ensures AdaptiveTask(t.log[k].target, s.generation, t.log[k].requestedAt) in Intents(s, cfg)
  {
    hide Intents;
  }

  lemma Places(a: seq<Task>, x: Task, y: Task) returns (p: nat, q: nat)
    requires AllAdaptive(a) && Ordered(a) && x in a && y in a && x.AdaptiveTask? && y.AdaptiveTask? && x.requestedAt < y.requestedAt
    ensures p < q < |a| && a[p] == x && a[q] == y
  {
    p :| 0 <= p < |a| && a[p] == x;
    q :| 0 <= q < |a| && a[q] == y;
  }

  lemma LogKept(s: State, t: State, cfg: Config)
    requires CameFrom(s, t, cfg)
    ensures s.log <= t.log
  {
    hide Intents;
  }

  lemma DuplicateNeedsReturn(s: State, t: State, cfg: Config)
    requires Inv(s, cfg) && JustBegan(s, cfg) && Reaches(s, t, cfg) && DuplicateSwitched(s, t)
    ensures ReturnWaits(s, cfg)
  {
    hide Inv, Intents, Reaches, CameFrom, Ordered, DuplicatesNeedReturn;
    ReachesCameFrom(s, t, cfg);
    LawOf(t, cfg);
    LawOf(s, cfg);
    LastSwitch(s, cfg);
    LogKept(s, t, cfg);
    var i := |s.log| - 1;
    assert t.log[i] == s.log[i];
    var k :| |s.log| <= k < |t.log| && t.log[k].Switched? && t.log[k].target == s.running.task.target && t.log[k].requestedAt < s.steps;
    var j := LawGives(t.log, i, k);
    WaitedAt(s, t, j, cfg);
    WaitedAt(s, t, k, cfg);
    var p, q := Places(Intents(s, cfg), AdaptiveTask(t.log[j].target, s.generation, t.log[j].requestedAt),
                       AdaptiveTask(t.log[k].target, s.generation, t.log[k].requestedAt));
  }

  // ---------------------------------------------------------------- if

  lemma {:induction false} RecentOld(t: seq<int>, now: int)
    requires forall k :: 0 <= k < |t| ==> t[k] + HOUR_MS <= now
    ensures Recent(t, now) == []
  {
    if t != [] {
      RecentOld(t[..|t| - 1], now);
    }
  }

  lemma {:induction false} RecentFrom(t: seq<int>, f: int, x: int)
    requires x in Recent(t, f)
    ensures x in t
  {
    if t != [] && x in Recent(t[..|t| - 1], f) {
      RecentFrom(t[..|t| - 1], f, x);
    }
  }

  lemma {:induction false} TimesPast(log: seq<Note>, now: int, x: int)
    requires InOrder(log, now) && x in Times(log)
    ensures x <= now
  {
    if log != [] {
      var n := |log| - 1;
      if x in Times(log[..n]) { TimesPast(log[..n], now, x); }
    }
  }

  lemma TimestampsPast(s: State, cfg: Config)
    requires Inv(s, cfg)
    ensures forall k :: 0 <= k < |s.timestamps| ==> s.timestamps[k] <= s.now
  {
    hide ModeInv, ResourceInv, PhaseInv, FreshInv, AlternationInv, IntentInv, Recent, Times, InOrder, WithinBudget, PinnedHolds, OverBudget;
    forall k | 0 <= k < |s.timestamps| ensures s.timestamps[k] <= s.now {
      assert Counted(s)[k] == s.timestamps[k];
      RecentFrom(Times(s.log), s.filteredAt, s.timestamps[k]);
      TimesPast(s.log, s.now, s.timestamps[k]);
    }
  }

  lemma BothResolve(s: State, cfg: Config)
    requires Inv(s, cfg) && ValidConfig(cfg, cfg.adaptive.base) && s.running.Run? && s.running.task.AdaptiveTask?
    ensures Resolve(cfg.user, cfg.origin, cfg.adaptive.base).Some? && Resolve(cfg.user, cfg.origin, cfg.adaptive.escalated).Some?
    ensures s.running.task.target == cfg.adaptive.base || s.running.task.target == cfg.adaptive.escalated
    ensures s.running.task.target == cfg.adaptive.base ==> s.phase == Escalated
    ensures s.running.task.target == cfg.adaptive.escalated ==> s.phase == Base || s.phase == Pinned
    ensures cfg.adaptive.base != cfg.adaptive.escalated
  {
    hide ModeInv, ResourceInv, FreshInv, AlternationInv, BudgetInv, IntentInv, Resolve;
  }

  /** t has logged one more note than s, the unlimited switch of this task, and has just begun it. */
  ghost predicate LogsSwitch(s: State, t: State, task: Task)
    requires task.AdaptiveTask?
  {
    && |t.log| == |s.log| + 1 && s.log <= t.log
    && var n := t.log[|s.log|];
       n.Switched? && n.target == task.target && n.requestedAt == task.requestedAt && n.begunAt + 1 == t.steps && !n.limited
  }

  /** An hour later the first task the phase calls for begins, within the budget. */
  lemma ServesFirst(s: State, n: nat, cfg: Config) returns (t: State)
    requires Inv(s, cfg) && cfg.adaptive.enabled && cfg.adaptive.maxSwitchesPerHour > 0
    requires s.running.Idle? && s.lifecycle == Active && n < |s.queue|
    requires forall k :: 0 <= k < n ==> s.queue[k].AdaptiveTask? && !Current(s, s.queue[k], cfg)
    requires Current(s, s.queue[n], cfg) && Resolve(cfg.user, cfg.origin, s.queue[n].target).Some?
    ensures Reaches(s, t, cfg) && Inv(t, cfg)
    ensures t.running.Run? && t.running.task == s.queue[n] && t.queue == s.queue[n + 1..] && t.phase == s.phase
    ensures t.micro == s.micro && t.generation == s.generation && t.lifecycle == s.lifecycle && t.timerOn == s.timerOn
    ensures t.escalationGeneration == s.escalationGeneration
    ensures LogsSwitch(s, t, s.queue[n])
  {
    hide Inv, Next, Enabled, Reaches, Recent, Resolve;
    DropsAll(s, n, cfg);
    var u := s.(queue := s.queue[n..], steps := s.steps + n);
    ReachesInv(s, u, cfg);
    var v := u.(now := u.now + HOUR_MS, steps := u.steps + 1);
    Waits(u, u.now + HOUR_MS, cfg);
    ReachesInv(u, v, cfg);
    Joins(s, u, v, cfg);
    TimestampsPast(u, cfg);
    RecentOld(v.timestamps, v.now);
    Begins(v, cfg);
    t := Next(v, StartTask, cfg);
    Takes(v, StartTask, cfg);
    InvNext(v, StartTask, cfg);
    Joins(s, v, t, cfg);
  }

  function FirstLive(a: seq<Task>, generation: int, target: CaptureMode): (n: nat)
    requires AllAdaptive(a)
    ensures n <= |a| && forall k :: 0 <= k < n ==> a[k].generation != generation || a[k].target != target
    ensures n < |a| ==> a[n].generation == generation && a[n].target == target
  {
    if a == [] || (a[0].generation == generation && a[0].target == target) then 0
    else 1 + FirstLive(a[1..], generation, target)
  }

  lemma {:induction false} AllQueued(queue: seq<Task>)
    requires AllAdaptive(queue)
    ensures Adaptives(queue) == queue
  {
    if queue != [] {
      AllQueued(queue[..|queue| - 1]);
      assert queue == queue[..|queue| - 1] + [queue[|queue| - 1]];
    }
  }

  /** As an adaptive switch begins, no manual choice is queued. */
  lemma NoManualQueued(s: State, cfg: Config)
    requires Inv(s, cfg) && JustBegan(s, cfg)
    ensures AllAdaptive(s.queue)
  {
    hide ModeInv, ResourceInv, PhaseInv, FreshInv, AlternationInv, BudgetInv, Behind, ServedInOrder, WrittenInOrder, DoneAfterAccepted;
    assert !AcceptedLast(s.log);
  }

  /** The switch under way ends, and the first intent to go back is served. */
  lemma GoesBack(s: State, p: nat, cfg: Config) returns (t: State, m: nat)
    requires Inv(s, cfg) && ValidConfig(cfg, cfg.adaptive.base) && JustBegan(s, cfg)
    requires p < |Intents(s, cfg)| && Intents(s, cfg)[p].generation == s.generation && Intents(s, cfg)[p].target != s.running.task.target
    ensures m <= p && Reaches(s, t, cfg) && Inv(t, cfg) && t.running.Idle? && t.queue == Intents(s, cfg)[m + 1..]
    ensures t.generation == s.generation && t.lifecycle == Active && s.log <= t.log
    ensures t.phase == if s.running.task.target == cfg.adaptive.base then Escalated else Base
  {
    hide Inv, Next, Enabled, Reaches, Resolve, Behind, Adaptives, TasksOf;
    BothResolve(s, cfg);
    NoManualQueued(s, cfg);
    AllQueued(s.queue);
    TargetsOf(s, cfg);
    var a, target := Intents(s, cfg), s.running.task.target;
    var back := if target == cfg.adaptive.base then cfg.adaptive.escalated else cfg.adaptive.base;
    var u := RunsMicrotasks(s, cfg);
    ReachesInv(s, u, cfg);
    var v := Settle(u, cfg);
    ReachesInv(u, v, cfg);
    Joins(s, u, v, cfg);
    assert v.queue == a;
    m := FirstLive(a, s.generation, back);
    var w := ServesFirst(v, m, cfg);
    Joins(s, v, w, cfg);
    t := Settle(w, cfg);
    ReachesInv(w, t, cfg);
    Joins(s, w, t, cfg);
  }

  /** Served in turn, first the intent to go back and then the duplicate switch. */
  lemma ReturnThenDuplicate(s: State, cfg: Config) returns (t: State)
    requires Inv(s, cfg) && ValidConfig(cfg, cfg.adaptive.base) && JustBegan(s, cfg) && ReturnWaits(s, cfg)
    ensures Reaches(s, t, cfg) && DuplicateSwitched(s, t)
  {
    hide Inv, Reaches, Resolve, Intents;
    BothResolve(s, cfg);
    BehindIn(s, cfg);
    var a, target := Intents(s, cfg), s.running.task.target;
    var p, q :| 0 <= p < q < |a| && a[p].generation == a[q].generation == s.generation && a[p].target != target && a[q].target == target;
    var x, m := GoesBack(s, p, cfg);
    assert x.queue[q - m - 1] == a[q];
    var n := FirstLive(x.queue, s.generation, target);
    assert n <= q - m - 1;
    assert x.queue[n] == a[m + 1 + n];
    t := ServesFirst(x, n, cfg);
    Joins(s, x, t, cfg);
    assert t.log[|x.log|].requestedAt == a[m + 1 + n].requestedAt;
  }

  lemma BehindIn(s: State, cfg: Config)
    requires Inv(s, cfg)
    ensures forall k :: 0 <= k < |Intents(s, cfg)| ==> Intents(s, cfg)[k].requestedAt < s.steps
  {
    hide ModeInv, ResourceInv, PhaseInv, FreshInv, AlternationInv, BudgetInv, ServedInOrder, WrittenInOrder, DoneAfterAccepted, Intents;
  }

  lemma TargetsOf(s: State, cfg: Config)
    requires Inv(s, cfg) && cfg.adaptive.enabled
    ensures forall k :: 0 <= k < |Intents(s, cfg)| ==>
              Intents(s, cfg)[k].target == cfg.adaptive.base || Intents(s, cfg)[k].target == cfg.adaptive.escalated
  {
    hide ModeInv, ResourceInv, FreshInv, AlternationInv, BudgetInv, IntentInv, Adaptives, Resolve;
    forall k | 0 <= k < |Intents(s, cfg)|
      ensures Intents(s, cfg)[k].target == cfg.adaptive.base || Intents(s, cfg)[k].target == cfg.adaptive.escalated
    {
      var x := Intents(s, cfg)[k];
      if k < |Adaptives(s.queue)| {
        assert x == Adaptives(s.queue)[k];
        AdaptiveIn(s.queue, x);
        var i :| 0 <= i < |s.queue| && s.queue[i] == x;
        assert AdaptiveOk(s.queue[i], cfg);
      }
    }
  }

  /**
    The exact law.  As an adaptive switch begins, an intent that already waits can switch to the
    same mode later, in some continuation, if and only if an intent of the current generation to
    go back waits ahead of one to do the same again.
  */
  lemma DuplicateCanSwitchIff(states: seq<State>, steps: seq<Step>, cfg: Config, mode: CaptureMode, now: int, k: nat)
    requires IsRun(states, steps, cfg, mode, now) && k < |states| && JustBegan(states[k], cfg)
    ensures (exists t :: Reaches(states[k], t, cfg) && DuplicateSwitched(states[k], t)) <==> ReturnWaits(states[k], cfg)
  {
    hide Inv, Reaches, DuplicateSwitched, ReturnWaits, Init, Next, Enabled;
    RunKeeps(states, steps, cfg, mode, now, k);
    if ReturnWaits(states[k], cfg) {
      var t := ReturnThenDuplicate(states[k], cfg);
    }
    if exists t :: Reaches(states[k], t, cfg) && DuplicateSwitched(states[k], t) {
      var t :| Reaches(states[k], t, cfg) && DuplicateSwitched(states[k], t);
      DuplicateNeedsReturn(states[k], t, cfg);
    }
  }

  // ---------------------------------------------------------------- it happens

  /** The same while a manual choice is being applied. */
  ghost predicate Choosing(s: State, cfg: Config) {
    && Inv(s, cfg) && cfg.adaptive.enabled && s.running.Run? && s.running.task.ManualTask? && s.lifecycle == Active && s.timerOn
    && s.micro == [] && s.escalationGeneration == None
  }

  lemma ChoosesCalm(s: State, mode: CaptureMode, cfg: Config) returns (t: State)
    requires Calm(s, cfg)
    ensures Reaches(s, t, cfg) && Calm(t, cfg) && t.queue == s.queue + [ManualTask(mode)]
    ensures t.phase == s.phase && t.timestamps == s.timestamps && t.now == s.now
  {
    hide Inv, Reaches;
    Chooses(s, mode, cfg);
    t := s.(generation := s.generation + 1, escalationGeneration := None, queue := s.queue + [ManualTask(mode)],
            log := s.log + [Accepted(s.steps)], steps := s.steps + 1);
    ReachesInv(s, t, cfg);
  }

  lemma ChoiceStarts(s: State, cfg: Config) returns (t: State)
    requires Calm(s, cfg) && s.queue != [] && s.queue[0].ManualTask? && Resolve(cfg.user, cfg.origin, s.queue[0].target).Some?
    ensures Reaches(s, t, cfg) && Choosing(t, cfg) && t.running.task == s.queue[0] && t.queue == s.queue[1..]
    ensures t.phase == s.phase && t.timestamps == s.timestamps && t.generation == s.generation && t.now == s.now
    ensures t.lastCaptureAt == s.lastCaptureAt && t.lastEscalationAt == s.lastEscalationAt && t.steps == s.steps + 1
  {
    hide Inv, Reaches, Resolve, Next, Enabled;
    StartsManual(s, cfg);
    Takes(s, StartTask, cfg);
    t := Next(s, StartTask, cfg);
    ReachesInv(s, t, cfg);
  }

  lemma ChoiceEnds(s: State, cfg: Config) returns (t: State)
    requires Choosing(s, cfg) && cfg.adaptive.base != cfg.adaptive.escalated
    requires s.running.task.target == cfg.adaptive.base || s.running.task.target == cfg.adaptive.escalated
    ensures Reaches(s, t, cfg) && Calm(t, cfg) && t.queue == s.queue && t.timestamps == s.timestamps && t.generation == s.generation
    ensures t.now == s.now && t.phase == if s.running.task.target == cfg.adaptive.base then Base else Escalated
    ensures t.phase == Escalated ==> t.lastCaptureAt == t.lastEscalationAt == Some(t.now)
  {
    hide Inv, Reaches;
    t := Settle(s, cfg);
    ReachesInv(s, t, cfg);
  }

  /** While a choice takes long to apply, the timer still sees the escalated phase and asks to go back. */
  lemma TimerWhileChoosing(s: State, cfg: Config) returns (t: State)
    requires Choosing(s, cfg) && s.phase == Escalated && s.lastCaptureAt == s.lastEscalationAt == Some(s.now)
    ensures Reaches(s, t, cfg) && Choosing(t, cfg) && t.running == s.running && t.generation == s.generation
    ensures t.queue == s.queue + [AdaptiveTask(cfg.adaptive.base, s.generation, s.steps + 1)]
    ensures t.phase == s.phase && t.timestamps == s.timestamps && t.steps == s.steps + 2
  {
    hide Inv, Reaches;
    var u := s.(now := s.now + Longer(cfg), steps := s.steps + 1);
    Waits(s, s.now + Longer(cfg), cfg);
    ReachesInv(s, u, cfg);
    AsksToReturn(u, cfg);
    t := u.(steps := u.steps + 1, queue := u.queue + [AdaptiveTask(cfg.adaptive.base, u.generation, u.steps)]);
    ReachesInv(u, t, cfg);
    Joins(s, u, t, cfg);
  }

  lemma ChoosingParts(s: State, cfg: Config)
    ensures Choosing(s, cfg) <==> (Inv(s, cfg) && cfg.adaptive.enabled && s.running.Run? && s.running.task.ManualTask?
                                   && s.lifecycle == Active && s.timerOn && s.micro == [] && s.escalationGeneration == None)
  {
    hide Inv;
  }

  /** Two choices later a first request to escalate and one to go back wait together. */
  lemma TwoChoices(s: State, cfg: Config) returns (t: State)
    requires Calm(s, cfg) && s.phase == Base && cfg.adaptive.base != cfg.adaptive.escalated
    requires Resolve(cfg.user, cfg.origin, cfg.adaptive.base).Some? && Resolve(cfg.user, cfg.origin, cfg.adaptive.escalated).Some?
    requires |s.queue| >= 2 && s.queue[0] == ManualTask(cfg.adaptive.escalated) && s.queue[1] == ManualTask(cfg.adaptive.base)
    ensures Reaches(s, t, cfg) && Calm(t, cfg) && t.phase == Base && t.timestamps == s.timestamps && t.generation == s.generation
    ensures exists r :: t.queue == s.queue[2..] + [AdaptiveTask(cfg.adaptive.base, s.generation, r)]
  {
    hide Calm, Choosing, Reaches, Resolve;
    var a := ChoiceStarts(s, cfg);
    var b := ChoiceEnds(a, cfg);
    Joins(s, a, b, cfg);
    var c := ChoiceStarts(b, cfg);
    Joins(s, b, c, cfg);
    var d := TimerWhileChoosing(c, cfg);
    Joins(s, c, d, cfg);
    t := ChoiceEnds(d, cfg);
    Joins(s, d, t, cfg);
    assert t.queue == s.queue[2..] + [AdaptiveTask(cfg.adaptive.base, s.generation, c.steps + 1)];
  }

  /** Four manual choices in a row, a capture before and one during, and the timer: escalate, return, escalate all wait at once. */
  lemma ThreeWait(cfg: Config, now: int) returns (s: State)
    requires ValidConfig(cfg, cfg.adaptive.base) && cfg.adaptive.enabled && Resolve(cfg.user, cfg.origin, cfg.adaptive.escalated).Some?
    ensures Reaches(Init(cfg, cfg.adaptive.base, now), s, cfg) && Calm(s, cfg) && s.phase == Base && s.timestamps == []
    ensures exists r1, r2, r3 :: s.queue == [AdaptiveTask(cfg.adaptive.escalated, s.generation, r1),
                                             AdaptiveTask(cfg.adaptive.base, s.generation, r2),
                                             AdaptiveTask(cfg.adaptive.escalated, s.generation, r3)]
  {
    hide Calm, Choosing, Reaches, Resolve, Inv, Init;
    var i := Init(cfg, cfg.adaptive.base, now);
    var s0 := Opens(cfg, now);
    var s1 := ChoosesCalm(s0, cfg.adaptive.escalated, cfg);
    Joins(i, s0, s1, cfg);
    var s2 := ChoosesCalm(s1, cfg.adaptive.base, cfg);
    Joins(i, s1, s2, cfg);
    var s3 := ChoosesCalm(s2, cfg.adaptive.escalated, cfg);
    Joins(i, s2, s3, cfg);
    var s4 := ChoosesCalm(s3, cfg.adaptive.base, cfg);
    Joins(i, s3, s4, cfg);
    CalmParts(s4, cfg);
    var s5 := CaptureAsks(s4, cfg);
    Joins(i, s4, s5, cfg);
    CalmParts(s5, cfg);
    var s6 := TwoChoices(s5, cfg);
    Joins(i, s5, s6, cfg);
    var r2 :| s6.queue == s5.queue[2..] + [AdaptiveTask(cfg.adaptive.base, s5.generation, r2)];
    var s7 := ChoiceStarts(s6, cfg);
    Joins(i, s6, s7, cfg);
    ChoosingParts(s7, cfg);
    var s8 := CaptureAsks(s7, cfg);
    Joins(i, s7, s8, cfg);
    ChoosingParts(s8, cfg);
    var s9 := ChoiceEnds(s8, cfg);
    Joins(i, s8, s9, cfg);
    var s10 := ChoiceStarts(s9, cfg);
    Joins(i, s9, s10, cfg);
    s := ChoiceEnds(s10, cfg);
    Joins(i, s10, s, cfg);
    var first, second := AdaptiveTask(cfg.adaptive.escalated, s4.generation, s4.steps), AdaptiveTask(cfg.adaptive.base, s4.generation, r2);
    assert s5.queue == [ManualTask(cfg.adaptive.escalated), ManualTask(cfg.adaptive.base), ManualTask(cfg.adaptive.escalated),
                        ManualTask(cfg.adaptive.base), first];
    assert s.queue == [first, second, AdaptiveTask(cfg.adaptive.escalated, s4.generation, s7.steps)];
  }

  lemma SwitchedNow(s: State, t: State, cfg: Config)
    requires Calm(s, cfg) && s.phase == Base && t.phase == s.phase && t.lifecycle == s.lifecycle && t.running.Run?
    requires t.running.task.AdaptiveTask? && LogsSwitch(s, t, t.running.task)
    ensures JustBegan(t, cfg)
  {
    hide Inv;
  }

  /**
    Under every configuration with adaptive capture there is a run in which a duplicate does
    switch: both escalations wait as the first begins, and both switch.
  */
  lemma DuplicateDoesSwitch(cfg: Config, now: int) returns (states: seq<State>, steps: seq<Step>)
    requires ValidConfig(cfg, cfg.adaptive.base) && cfg.adaptive.enabled && Resolve(cfg.user, cfg.origin, cfg.adaptive.escalated).Some?
    ensures IsRun(states, steps, cfg, cfg.adaptive.base, now)
    ensures var log := states[|steps|].log;
            exists i, k :: 0 <= i < k < |log| && log[i].Switched? && log[k].Switched? && log[i].target == log[k].target
                           && log[k].requestedAt <= log[i].begunAt
  {
    hide Reaches, Resolve, Inv, Init, Calm;
    var i := Init(cfg, cfg.adaptive.base, now);
    var s := ThreeWait(cfg, now);
    CalmParts(s, cfg);
    var t := ServesFirst(s, 0, cfg);
    Joins(i, s, t, cfg);
    SwitchedNow(s, t, cfg);
    AllQueued(t.queue);
    assert Intents(t, cfg) == t.queue;
    var a := Intents(t, cfg);
    assert a[0].target != cfg.adaptive.escalated && a[1].target == cfg.adaptive.escalated && a[0].generation == a[1].generation == t.generation;
    var u := ReturnThenDuplicate(t, cfg);
    Joins(i, t, u, cfg);
    states, steps := PathIsRun(u, cfg, cfg.adaptive.base, now);
    var k :| |t.log| <= k < |u.log| && u.log[k].Switched? && u.log[k].target == t.running.task.target && u.log[k].requestedAt < t.steps;
    ReachesCameFrom(t, u, cfg);
    assert u.log[|s.log|] == t.log[|s.log|];
  }
}
