/** The switch budget of a rolling hour, and pinning. */
module CaptureBudget {
  import opened CaptureModes
  import opened CaptureControl
  import opened CaptureInvariants
  import opened CapturePhases
  import opened CaptureHistory

  // ---------------------------------------------------------------- logs

  function TimeOf(n: Note): int {
    match n
    case Switched(_, _, _, time, _) => time
    case ManualDone(time, _) => time
    case Accepted(_) => 0
  }

  /** The start times of the switches, in order. */
  function Times(log: seq<Note>): seq<int> {
    if log == [] then []
    else Times(log[..|log| - 1]) + if log[|log| - 1].Switched? then [log[|log| - 1].time] else []
  }

  lemma TimesSnoc(log: seq<Note>, n: Note)
    ensures Times(log + [n]) == if n.Switched? then Times(log) + [n.time] else Times(log)
  {
    assert (log + [n])[..|log|] == log;
  }

  /** Notes are written in time order, none later than now. */
  ghost predicate InOrder(log: seq<Note>, now: int) {
    && (forall k :: 0 <= k < |log| && IsMark(log[k]) ==> TimeOf(log[k]) <= now)
    && forall i, k :: 0 <= i < k < |log| && IsMark(log[i]) && IsMark(log[k]) ==> TimeOf(log[i]) <= TimeOf(log[k])
  }

  /** The last switch exceeded the budget and no manual choice has completed since. */
  predicate OverBudget(log: seq<Note>) {
    var m := LastMark(log);
    m >= 0 && log[m].Switched? && log[m].limited
  }

  /** A switch is limited exactly when the hour before it already holds maxSwitches. */
  ghost predicate WithinBudget(log: seq<Note>, maxSwitches: int) {
    forall k :: 0 <= k < |log| && log[k].Switched? ==>
      (log[k].limited <==> |Recent(Times(log[..k]), log[k].time)| >= maxSwitches)
  }

  /** Only escalations go over the budget. */
  ghost predicate LimitedEscalate(log: seq<Note>, escalated: CaptureMode) {
    forall k :: 0 <= k < |log| && log[k].Switched? && log[k].limited ==> log[k].target == escalated
  }

  /** No switch begins while over budget. */
  ghost predicate PinnedHolds(log: seq<Note>) {
    forall k :: 0 <= k < |log| && log[k].Switched? ==> !OverBudget(log[..k])
  }

  // ---------------------------------------------------------------- recency

  lemma RecentSnoc(t: seq<int>, x: int, now: int)
    ensures Recent(t + [x], now) == Recent(t, now) + if now - x < HOUR_MS then [x] else []
  {
    assert (t + [x])[..|t|] == t;
  }

  /** Filtering again later forgets nothing that a single later filter would keep. */
  lemma {:induction false} RecentTwice(t: seq<int>, f: int, now: int)
    requires f <= now
    ensures Recent(Recent(t, f), now) == Recent(t, now)
  {
    if t != [] {
      var front, last := t[..|t| - 1], t[|t| - 1];
      RecentTwice(front, f, now);
      RecentSnoc(Recent(front, f), last, now);
      assert Recent(front, f) + [] == Recent(front, f);
    }
  }

  // ---------------------------------------------------------------- the invariant

  /** Start times that count: those kept, and that of the switch under way. */
  function Counted(s: State): seq<int> {
    s.timestamps + if s.running.Run? && s.running.task.AdaptiveTask? then [s.running.startedAt] else []
  }

  ghost predicate BudgetInv(s: State, cfg: Config) {
    && s.filteredAt <= s.now
    && Counted(s) == Recent(Times(s.log), s.filteredAt)
    && InOrder(s.log, s.now)
    && WithinBudget(s.log, cfg.adaptive.maxSwitchesPerHour)
    && PinnedHolds(s.log)
    && LimitedEscalate(s.log, cfg.adaptive.escalated)
    && (OverBudget(s.log) ==> s.phase == Pinned)
    && (s.running.Run? && s.running.task.AdaptiveTask? && s.phase == Pinned ==> s.running.task.target == cfg.adaptive.escalated)
  }

  lemma LogSnoc(log: seq<Note>, n: Note, now: int, maxSwitches: int)
    requires InOrder(log, now) && WithinBudget(log, maxSwitches) && PinnedHolds(log)
    requires IsMark(n) ==> TimeOf(n) == now
    requires n.Switched? ==> !OverBudget(log) && (n.limited <==> |Recent(Times(log), now)| >= maxSwitches)
    ensures InOrder(log + [n], now) && WithinBudget(log + [n], maxSwitches) && PinnedHolds(log + [n])
    ensures OverBudget(log + [n]) == if n.Switched? then n.limited else if n.ManualDone? then false else OverBudget(log)
    ensures Times(log + [n]) == if n.Switched? then Times(log) + [n.time] else Times(log)
  {
    hide Recent, Times, LastMark;
    var t := log + [n];
    TimesSnoc(log, n);
    LastMarkSnoc(log, n);
    forall k | 0 <= k < |t| && t[k].Switched? ensures t[k].limited <==> |Recent(Times(t[..k]), t[k].time)| >= maxSwitches {
      if k < |log| { assert t[..k] == log[..k]; } else { assert t[..k] == log; }
    }
    forall k | 0 <= k < |t| && t[k].Switched? ensures !OverBudget(t[..k]) {
      if k < |log| { assert t[..k] == log[..k]; } else { assert t[..k] == log; }
    }
  }

  lemma LimitedSnoc(log: seq<Note>, n: Note, escalated: CaptureMode)
    requires LimitedEscalate(log, escalated) && (n.Switched? && n.limited ==> n.target == escalated)
    ensures LimitedEscalate(log + [n], escalated)
  {
  }

  lemma BudgetInvStart(s: State, cfg: Config)
    requires BudgetInv(s, cfg) && ModeInv(s, cfg) && PhaseInv(s, cfg) && s.running.Idle? && s.queue != []
    ensures BudgetInv(DoStart(s, cfg), cfg)
  {
    hide DoStart, Recent, Times, OverBudget, InOrder, WithinBudget, PinnedHolds, LimitedEscalate, PhaseInv, ModeInv;
    StartLog(s, cfg);
    RecentTwice(Times(s.log), s.filteredAt, s.now);
    var t := DoStart(s, cfg);
    assert s.timestamps == Counted(s);
    if t.log != s.log {
      var n := t.log[|t.log| - 1];
      assert t.log == s.log + [n];
      LogSnoc(s.log, n, s.now, cfg.adaptive.maxSwitchesPerHour);
      LimitedSnoc(s.log, n, cfg.adaptive.escalated);
      RecentSnoc(Times(s.log), s.now, s.now);
    } else {
      assert Counted(t) == t.timestamps;
    }
  }

  lemma BudgetInvFinish(s: State, cfg: Config)
    requires BudgetInv(s, cfg) && ModeInv(s, cfg) && PhaseInv(s, cfg) && s.running.Run? && s.running.at.Returned?
    ensures BudgetInv(Finish(s, s.running.at.changed, cfg), cfg)
  {
    hide Finish, Recent, Times, OverBudget, InOrder, WithinBudget, PinnedHolds, LimitedEscalate;
    FinishLog(s, cfg);
    var t := Finish(s, s.running.at.changed, cfg);
    assert Counted(t) == t.timestamps;
    if s.running.task.ManualTask? {
      assert Counted(s) == s.timestamps;
      LogSnoc(s.log, ManualDone(s.now, s.running.task.target), s.now, cfg.adaptive.maxSwitchesPerHour);
      LimitedSnoc(s.log, ManualDone(s.now, s.running.task.target), cfg.adaptive.escalated);
    }
  }

  lemma BudgetInvNext(s: State, step: Step, cfg: Config)
    requires BudgetInv(s, cfg) && ModeInv(s, cfg) && PhaseInv(s, cfg) && Enabled(s, step)
    ensures BudgetInv(Next(s, step, cfg), cfg)
  {
    hide DoStart, DoResume, Finish, Act, Recent, Times, OverBudget, WithinBudget, PinnedHolds, LimitedEscalate, PhaseInv, ModeInv;
    ActTask(s, step, cfg);
    if IsCall(step) {
      CallFrame(s, step, cfg);
      CallLog(s, step, cfg);
      LogSnoc(s.log, Accepted(s.steps), s.now, cfg.adaptive.maxSwitchesPerHour);
      LimitedSnoc(s.log, Accepted(s.steps), cfg.adaptive.escalated);
    } else if step.StartTask? {
      BudgetInvStart(s, cfg);
    } else if step.ResumeTask? {
      if s.running.at.Returned? {
        ResumeFinishes(s, cfg);
        BudgetInvFinish(s, cfg);
      } else {
        SegmentFrame(s, cfg);
      }
    } else {
      LifecycleLog(s, step, cfg);
    }
  }

  // ---------------------------------------------------------------- the bound

  function SwitchesIn(log: seq<Note>, from: int): nat {
    if log == [] then 0
    else
      var n := log[|log| - 1];
      SwitchesIn(log[..|log| - 1], from) + if n.Switched? && from <= n.time < from + HOUR_MS then 1 else 0
  }

  function ManualsIn(log: seq<Note>, from: int): nat {
    if log == [] then 0
    else
      var n := log[|log| - 1];
      ManualsIn(log[..|log| - 1], from) + if n.ManualDone? && from <= n.time < from + HOUR_MS then 1 else 0
  }

  /** Everything the hour from `from` contains is recent for any later moment of that hour. */
  lemma {:induction false} HourIsRecent(log: seq<Note>, from: int, now: int)
    requires now < from + HOUR_MS
    ensures SwitchesIn(log, from) <= |Recent(Times(log), now)|
  {
    if log != [] {
      HourIsRecent(log[..|log| - 1], from, now);
      assert log == log[..|log| - 1] + [log[|log| - 1]];
      TimesSnoc(log[..|log| - 1], log[|log| - 1]);
      if log[|log| - 1].Switched? { RecentSnoc(Times(log[..|log| - 1]), log[|log| - 1].time, now); }
    }
  }

  lemma {:induction false} BeforeTheHour(log: seq<Note>, from: int)
    requires forall k :: 0 <= k < |log| && IsMark(log[k]) ==> TimeOf(log[k]) < from
    ensures SwitchesIn(log, from) == 0 && ManualsIn(log, from) == 0
  {
    if log != [] {
      BeforeTheHour(log[..|log| - 1], from);
    }
  }

  lemma OverBudgetSnoc(log: seq<Note>, n: Note)
    ensures OverBudget(log + [n]) == if n.Switched? then n.limited else if n.ManualDone? then false else OverBudget(log)
  {
    LastMarkSnoc(log, n);
  }

  lemma PrefixKeeps(log: seq<Note>, n: Note, now: int, maxSwitches: int)
    requires InOrder(log + [n], now) && WithinBudget(log + [n], maxSwitches) && PinnedHolds(log + [n])
    ensures InOrder(log, now) && WithinBudget(log, maxSwitches) && PinnedHolds(log)
    ensures IsMark(n) ==> forall k :: 0 <= k < |log| && IsMark(log[k]) ==> TimeOf(log[k]) <= TimeOf(n)
    ensures n.Switched? ==> !OverBudget(log) && (n.limited <==> |Recent(Times(log), n.time)| >= maxSwitches)
  {
    hide Recent, Times, OverBudget;
    var t := log + [n];
    assert t[..|log|] == log;
    assert forall k :: 0 <= k < |log| ==> t[k] == log[k] && t[..k] == log[..k];
    assert t[|log|] == n;
  }

  /** Inside the hour the count has one to spare unless the log is over budget. */
  lemma {:induction false} HourBound(log: seq<Note>, from: int, now: int, maxSwitches: int)
    requires maxSwitches > 0 && InOrder(log, now) && WithinBudget(log, maxSwitches) && PinnedHolds(log)
    ensures SwitchesIn(log, from) <= maxSwitches + 1 + ManualsIn(log, from)
    ensures (forall k :: 0 <= k < |log| && IsMark(log[k]) ==> TimeOf(log[k]) < from + HOUR_MS) ==>
              SwitchesIn(log, from) <= maxSwitches + ManualsIn(log, from) + if OverBudget(log) then 1 else 0
  {
    if log != [] {
      hide Recent, Times, OverBudget, InOrder, WithinBudget, PinnedHolds;
      var front, n := log[..|log| - 1], log[|log| - 1];
      assert log == front + [n];
      PrefixKeeps(front, n, now, maxSwitches);
      OverBudgetSnoc(front, n);
      HourBound(front, from, now, maxSwitches);
      assert SwitchesIn(log, from) == SwitchesIn(front, from) + if n.Switched? && from <= n.time < from + HOUR_MS then 1 else 0;
      assert ManualsIn(log, from) == ManualsIn(front, from) + if n.ManualDone? && from <= n.time < from + HOUR_MS then 1 else 0;
      if IsMark(n) {
        if TimeOf(n) < from {
          BeforeTheHour(front, from);
        } else if TimeOf(n) < from + HOUR_MS && n.Switched? && !n.limited {
          HourIsRecent(front, from, n.time);
        }
      }
    } else {
      EmptyLog(from);
    }
  }

  lemma EmptyLog(from: int)
    ensures SwitchesIn([], from) == 0 && ManualsIn([], from) == 0
  {
  }

  /** Once pinned, the phase stays pinned and nothing switches until a manual task finishes. */
  lemma PinnedIsAbsorbing(s: State, step: Step, cfg: Config)
    requires ModeInv(s, cfg) && PhaseInv(s, cfg) && BudgetInv(s, cfg) && Enabled(s, step) && s.phase == Pinned
    requires !(step.ResumeTask? && s.running.task.ManualTask? && s.running.at.Returned?)
    ensures var t := Next(s, step, cfg);
            t.phase == Pinned && s.log <= t.log && forall k :: |s.log| <= k < |t.log| ==> !t.log[k].Switched?
  {
    hide DoStart, DoResume, Finish, Act, Recent, Times, OverBudget, WithinBudget, PinnedHolds, LimitedEscalate, InOrder;
    ActTask(s, step, cfg);
    if IsCall(step) {
      CallFrame(s, step, cfg);
      CallLog(s, step, cfg);
    } else if step.StartTask? {
      StartLog(s, cfg);
    } else if step.ResumeTask? {
      if s.running.at.Returned? { ResumeFinishes(s, cfg); FinishLog(s, cfg); } else { SegmentFrame(s, cfg); }
    } else {
      LifecycleLog(s, step, cfg);
    }
  }
}
