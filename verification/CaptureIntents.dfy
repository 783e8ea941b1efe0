/**
  Adaptive intents from request to switch.  They are served strictly in the order they were asked
  for, so no request switches twice; when a later duplicate still switches is settled here too.
*/
module CaptureIntents {
  import opened CaptureModes
  import opened CaptureControl
  import opened CaptureInvariants
  import opened CapturePhases
  import opened CaptureHistory

  // ---------------------------------------------------------------- what is waiting

  predicate AllAdaptive(a: seq<Task>) {
    forall k :: 0 <= k < |a| ==> a[k].AdaptiveTask?
  }

  function Adaptives(queue: seq<Task>): (a: seq<Task>)
    ensures AllAdaptive(a)
  {
    if queue == [] then []
    else
      var n := |queue| - 1;
      Adaptives(queue[..n]) + if queue[n].AdaptiveTask? then [queue[n]] else []
  }

  /** The task a capture's microtask will queue. */
  function TaskOf(m: Micro, cfg: Config): Task {
    AdaptiveTask(cfg.adaptive.escalated, m.generation, m.requestedAt)
  }

  function TasksOf(micro: seq<Micro>, cfg: Config): (a: seq<Task>)
    ensures |a| == |micro| && AllAdaptive(a)
  {
    seq(|micro|, i requires 0 <= i < |micro| => TaskOf(micro[i], cfg))
  }

  /** Every adaptive intent that has not begun, in the order it will be looked at. */
  function Intents(s: State, cfg: Config): (a: seq<Task>)
    ensures AllAdaptive(a)
  {
    Adaptives(s.queue) + TasksOf(s.micro, cfg)
  }

  lemma AdaptivesSnoc(queue: seq<Task>, task: Task)
    ensures Adaptives(queue + [task]) == Adaptives(queue) + if task.AdaptiveTask? then [task] else []
  {
    assert (queue + [task])[..|queue|] == queue;
  }

  lemma {:induction false} AdaptivesTail(queue: seq<Task>)
    requires queue != []
    ensures Adaptives(queue) == (if queue[0].AdaptiveTask? then [queue[0]] else []) + Adaptives(queue[1..])
  {
    var n := |queue| - 1;
    if n > 0 {
      AdaptivesTail(queue[..n]);
      assert queue[1..] == queue[..n][1..] + [queue[n]];
      AdaptivesSnoc(queue[..n][1..], queue[n]);
    } else {
      assert queue[..0] == [] && queue[1..] == [];
    }
  }

  lemma {:induction false} AdaptiveIn(queue: seq<Task>, task: Task)
    ensures task in Adaptives(queue) <==> task in queue && task.AdaptiveTask?
  {
    if queue != [] {
      var n := |queue| - 1;
      AdaptiveIn(queue[..n], task);
      assert queue == queue[..n] + [queue[n]];
    }
  }

  // ---------------------------------------------------------------- what a step does to them

  lemma SetIntents(s: State, mode: CaptureMode, cfg: Config)
    ensures Intents(DoSet(s, mode, cfg), cfg) == Intents(s, cfg)
  {
    AdaptivesSnoc(s.queue, ManualTask(mode));
  }

  lemma CaptureIntentsGrow(s: State, mode: CaptureMode, cfg: Config)
    ensures var a := Intents(DoCapture(s, mode, cfg), cfg);
            a == Intents(s, cfg)
            || (a == Intents(s, cfg) + [AdaptiveTask(cfg.adaptive.escalated, s.generation, s.steps)]
                && mode == cfg.adaptive.base && s.phase == Base && cfg.adaptive.enabled)
  {
    hide Adaptives;
    var t := DoCapture(s, mode, cfg);
    if t.micro != s.micro {
      var m := Micro(s.generation, s.steps);
      assert TasksOf(t.micro, cfg) == TasksOf(s.micro, cfg) + [TaskOf(m, cfg)];
      assert Intents(t, cfg) == Intents(s, cfg) + [TaskOf(m, cfg)];
    }
  }

  lemma MicrotaskIntents(s: State, cfg: Config)
    requires s.micro != []
    ensures s.lifecycle == Active ==> Intents(DoMicrotask(s, cfg), cfg) == Intents(s, cfg)
    ensures s.lifecycle != Active ==> Intents(DoMicrotask(s, cfg), cfg) == Adaptives(s.queue) + TasksOf(s.micro, cfg)[1..]
  {
    hide Adaptives;
    var t, first := DoMicrotask(s, cfg), TaskOf(s.micro[0], cfg);
    assert TasksOf(s.micro, cfg) == [first] + TasksOf(s.micro[1..], cfg);
    if s.lifecycle == Active {
      AdaptivesSnoc(s.queue, first);
      assert Intents(t, cfg) == (Adaptives(s.queue) + [first]) + TasksOf(s.micro[1..], cfg);
    }
  }

  lemma TickIntents(s: State, cfg: Config)
    requires s.micro == []
    ensures var a := Intents(DoTick(s, cfg), cfg);
            a == Intents(s, cfg)
            || (a == Intents(s, cfg) + [AdaptiveTask(cfg.adaptive.base, s.generation, s.steps)] && QuietLongEnough(s, cfg))
  {
    hide Adaptives;
    AdaptivesSnoc(s.queue, AdaptiveTask(cfg.adaptive.base, s.generation, s.steps));
  }

  /** How an intent may be new, and that the others keep their order. */
  lemma CallIntents(s: State, step: Step, cfg: Config)
    requires IsCall(step) && Enabled(s, step)
    ensures var a, b := Intents(s, cfg), Intents(Act(s, step, cfg), cfg);
            || b == a
            || (b == a + [AdaptiveTask(cfg.adaptive.escalated, s.generation, s.steps)]
                && step.AdmittedCapture? && step.modeAtCapture == cfg.adaptive.base && s.phase == Base && cfg.adaptive.enabled)
            || (b == a + [AdaptiveTask(cfg.adaptive.base, s.generation, s.steps)] && step.TimerTick? && QuietLongEnough(s, cfg))
            || (s.lifecycle != Active && |s.micro| > 0 && b == Adaptives(s.queue) + TasksOf(s.micro, cfg)[1..])
  {
    hide Intents, DoSet, DoCapture, DoMicrotask, DoTick, QuietLongEnough;
    match step
    case SetCaptureMode(mode) => SetIntents(s, mode, cfg);
    case AdmittedCapture(mode) => CaptureIntentsGrow(s, mode, cfg);
    case RunMicrotask => MicrotaskIntents(s, cfg);
    case TimerTick => TickIntents(s, cfg);
    case TimePasses(now) => SameIntents(s, s.(now := now), cfg);
  }

  lemma SameIntents(s: State, t: State, cfg: Config)
    requires t.queue == s.queue && t.micro == s.micro
    ensures Intents(t, cfg) == Intents(s, cfg)
  {
  }

  lemma StartIntents(s: State, t: State, cfg: Config)
    requires s.queue != [] && t.queue == s.queue[1..] && t.micro == s.micro
    ensures Intents(s, cfg) == (if s.queue[0].AdaptiveTask? then [s.queue[0]] else []) + Intents(t, cfg)
  {
    hide Adaptives;
    AdaptivesTail(s.queue);
  }

  // ---------------------------------------------------------------- order

  ghost predicate Ordered(a: seq<Task>)
    requires AllAdaptive(a)
  {
    forall i, k :: 0 <= i < k < |a| ==> a[i].requestedAt < a[k].requestedAt
  }

  /** Switches begin in the order they were asked for, each once. */
  ghost predicate ServedInOrder(log: seq<Note>) {
    forall i, k :: 0 <= i < k < |log| && log[i].Switched? && log[k].Switched? ==> log[i].requestedAt < log[k].requestedAt
  }

  predicate HasStep(n: Note) {
    n.Accepted? || n.Switched?
  }

  /** The step that wrote the note. */
  function WrittenAt(n: Note): nat
    requires HasStep(n)
  {
    if n.Accepted? then n.step else n.begunAt
  }

  ghost predicate WrittenInOrder(log: seq<Note>, steps: nat) {
    && (forall k :: 0 <= k < |log| && HasStep(log[k]) ==> WrittenAt(log[k]) < steps)
    && (forall i, k :: 0 <= i < k < |log| && HasStep(log[i]) && HasStep(log[k]) ==> WrittenAt(log[i]) < WrittenAt(log[k]))
  }

  /** A manual choice was accepted after the last switch began. */
  ghost predicate AcceptedLast(log: seq<Note>) {
    exists a :: 0 <= a < |log| && log[a].Accepted? && forall i :: a < i < |log| ==> !log[i].Switched?
  }

  /** A manual choice that completes after a switch began was accepted after it began. */
  ghost predicate DoneAfterAccepted(log: seq<Note>) {
    forall i, m :: 0 <= i < m < |log| && log[i].Switched? && log[m].ManualDone? ==> exists a :: i < a < m && log[a].Accepted?
  }

  predicate ManualPending(s: State) {
    (s.running.Run? && s.running.task.ManualTask?) || exists k :: 0 <= k < |s.queue| && s.queue[k].ManualTask?
  }

  /** Intents ahead of a queued manual choice are outdated. */
  ghost predicate OutdatedAhead(s: State) {
    forall p, q :: 0 <= p < q < |s.queue| && s.queue[p].AdaptiveTask? && s.queue[q].ManualTask? ==>
      s.queue[p].generation < s.generation
  }

  /** Intents wait in the order of their requests, all of them later than the requests of past switches. */
  ghost predicate Behind(a: seq<Task>, log: seq<Note>, steps: nat)
    requires AllAdaptive(a)
  {
    && Ordered(a)
    && (forall k :: 0 <= k < |a| ==> a[k].requestedAt < steps)
    && (forall i, k :: 0 <= i < |log| && log[i].Switched? && 0 <= k < |a| ==> log[i].requestedAt < a[k].requestedAt)
    && (forall i :: 0 <= i < |log| && log[i].Switched? ==> log[i].requestedAt < steps)
  }

  ghost predicate IntentInv(s: State, cfg: Config) {
    && Behind(Intents(s, cfg), s.log, s.steps)
    && ServedInOrder(s.log)
    && WrittenInOrder(s.log, s.steps)
    && DoneAfterAccepted(s.log)
    && (ManualPending(s) ==> AcceptedLast(s.log))
    && OutdatedAhead(s)
  }

  // ---------------------------------------------------------------- each part is kept

  lemma BehindLater(a: seq<Task>, log: seq<Note>, n: Note, steps: nat)
    requires AllAdaptive(a) && Behind(a, log, steps)
    ensures Behind(a, log, steps + 1) && (!n.Switched? ==> Behind(a, log + [n], steps + 1))
  {
  }

  lemma BehindAppend(a: seq<Task>, x: Task, log: seq<Note>, steps: nat)
    requires AllAdaptive(a) && Behind(a, log, steps)
    requires x.AdaptiveTask? && x.requestedAt == steps
    ensures Behind(a + [x], log, steps + 1)
  {
  }

  lemma BehindWithout(a: seq<Task>, p: nat, log: seq<Note>, steps: nat)
    requires AllAdaptive(a) && Behind(a, log, steps) && p < |a|
    ensures AllAdaptive(a[..p] + a[p + 1..]) && Behind(a[..p] + a[p + 1..], log, steps)
  {
    var b := a[..p] + a[p + 1..];
    assert forall k :: 0 <= k < |b| ==> b[k] == a[if k < p then k else k + 1];
  }

  lemma BehindSwitch(a: seq<Task>, n: Note, log: seq<Note>, steps: nat)
    requires AllAdaptive(a) && Behind(a, log, steps)
    requires a != [] && n.Switched? && n.requestedAt == a[0].requestedAt && ServedInOrder(log)
    ensures Behind(a[1..], log + [n], steps + 1) && ServedInOrder(log + [n])
  {
  }

  lemma ServedSame(log: seq<Note>, n: Note)
    requires ServedInOrder(log) && !n.Switched?
    ensures ServedInOrder(log + [n])
  {
  }

  lemma WrittenLater(log: seq<Note>, n: Note, steps: nat)
    requires WrittenInOrder(log, steps)
    ensures WrittenInOrder(log, steps + 1)
    ensures (HasStep(n) ==> WrittenAt(n) == steps) ==> WrittenInOrder(log + [n], steps + 1)
  {
    var t := log + [n];
    assert forall k :: 0 <= k < |log| ==> t[k] == log[k];
  }

  lemma DoneSnoc(log: seq<Note>, n: Note)
    requires DoneAfterAccepted(log) && (n.ManualDone? ==> AcceptedLast(log))
    ensures DoneAfterAccepted(log + [n])
  {
    var t := log + [n];
    forall i, m | 0 <= i < m < |t| && t[i].Switched? && t[m].ManualDone? ensures exists a :: i < a < m && t[a].Accepted? {
      if m < |log| {
        var a :| i < a < m && log[a].Accepted?;
        assert t[a].Accepted?;
      } else {
        var a :| 0 <= a < |log| && log[a].Accepted? && forall i :: a < i < |log| ==> !log[i].Switched?;
        assert t[a].Accepted?;
      }
    }
  }

  lemma AcceptedSnoc(log: seq<Note>, n: Note)
    requires n.Accepted? || (AcceptedLast(log) && !n.Switched?)
    ensures AcceptedLast(log + [n])
  {
    var t := log + [n];
    if n.Accepted? {
      assert t[|log|].Accepted?;
    } else {
      var a :| 0 <= a < |log| && log[a].Accepted? && forall i :: a < i < |log| ==> !log[i].Switched?;
      assert t[a].Accepted? && forall i :: a < i < |t| ==> !t[i].Switched?;
    }
  }

  /** The head of the queue is current, so no manual choice is queued behind it. */
  lemma NoManualBehind(s: State, cfg: Config)
    requires OutdatedAhead(s) && s.queue != [] && s.queue[0].AdaptiveTask? && s.queue[0].generation == s.generation
    ensures forall q :: 0 <= q < |s.queue| ==> s.queue[q].AdaptiveTask?
  {
  }

  // ---------------------------------------------------------------- steps

  lemma SetKeeps(s: State, mode: CaptureMode, cfg: Config)
    requires IntentInv(s, cfg) && FreshInv(s) && PhaseInv(s, cfg)
    ensures IntentInv(Next(s, SetCaptureMode(mode), cfg), cfg)
  {
    hide PhaseInv, Intents, Behind, ServedInOrder, WrittenInOrder, DoneAfterAccepted, AcceptedLast;
    var n, t := Accepted(s.steps), Next(s, SetCaptureMode(mode), cfg);
    SetIntents(s, mode, cfg);
    SameIntents(DoSet(s, mode, cfg), t, cfg);
    BehindLater(Intents(s, cfg), s.log, n, s.steps);
    WrittenLater(s.log, n, s.steps);
    ServedSame(s.log, n);
    DoneSnoc(s.log, n);
    AcceptedSnoc(s.log, n);
    if !cfg.adaptive.enabled { Disabled(s, cfg); }
  }

  /** Steps that write nothing and change neither the queue's manual choices nor the generation. */
  lemma QuietKeeps(s: State, t: State, cfg: Config)
    requires IntentInv(s, cfg) && t.log == s.log && t.steps == s.steps + 1 && t.generation == s.generation
    requires t.running == s.running && Behind(Intents(t, cfg), t.log, t.steps)
    requires t.queue == s.queue || (|t.queue| == |s.queue| + 1 && t.queue[..|s.queue|] == s.queue && t.queue[|s.queue|].AdaptiveTask?)
    ensures IntentInv(t, cfg)
  {
    hide Intents, Behind, ServedInOrder, DoneAfterAccepted, AcceptedLast;
    assert forall k :: 0 <= k < |s.queue| ==> t.queue[k] == s.queue[k];
  }

  lemma CallKeeps(s: State, step: Step, cfg: Config)
    requires IntentInv(s, cfg) && IsCall(step) && !step.SetCaptureMode? && Enabled(s, step)
    ensures IntentInv(Next(s, step, cfg), cfg)
  {
    hide Intents, Behind, Act, QuietLongEnough, IntentInv;
    var u, t := Act(s, step, cfg), Next(s, step, cfg);
    var a := Intents(s, cfg);
    SameIntents(u, t, cfg);
    BehindOf(s, cfg);
    BehindLater(a, s.log, Accepted(0), s.steps);
    CallFrame(s, step, cfg);
    CallQueue(s, step, cfg);
    CallIntents(s, step, cfg);
    if s.micro != [] { DropIsWithout(s, cfg); }
    if |Intents(u, cfg)| == |a| + 1 {
      BehindAppend(a, Intents(u, cfg)[|a|], s.log, s.steps);
    } else if Intents(u, cfg) != a {
      BehindWithout(a, |Adaptives(s.queue)|, s.log, s.steps + 1);
    }
    QuietKeeps(s, t, cfg);
  }

  lemma BehindOf(s: State, cfg: Config)
    requires IntentInv(s, cfg)
    ensures Behind(Intents(s, cfg), s.log, s.steps)
  {
  }

  lemma DropIsWithout(s: State, cfg: Config)
    requires s.micro != []
    ensures var a, p := Intents(s, cfg), |Adaptives(s.queue)|;
            p < |a| && Adaptives(s.queue) + TasksOf(s.micro, cfg)[1..] == a[..p] + a[p + 1..]
  {
    hide Adaptives;
  }

  lemma CallQueue(s: State, step: Step, cfg: Config)
    requires IsCall(step) && !step.SetCaptureMode? && Enabled(s, step)
    ensures var t := Act(s, step, cfg);
            && t.log == s.log && t.generation == s.generation
            && (t.queue == s.queue
                || (|t.queue| == |s.queue| + 1 && t.queue[..|s.queue|] == s.queue && t.queue[|s.queue|].AdaptiveTask?))
  {
  }

  lemma StartKeeps(s: State, cfg: Config)
    requires IntentInv(s, cfg) && ModeInv(s, cfg) && s.running.Idle? && s.queue != []
    ensures IntentInv(DoStart(s, cfg).(steps := s.steps + 1), cfg)
  {
    hide DoStart, Intents, Behind, ServedInOrder, WrittenInOrder, DoneAfterAccepted, AcceptedLast, ModeInv, Recent;
    StartLog(s, cfg);
    var t := DoStart(s, cfg).(steps := s.steps + 1);
    var a, task := Intents(s, cfg), s.queue[0];
    StartIntents(s, t, cfg);
    BehindLater(a, s.log, Accepted(0), s.steps);
    WrittenLater(s.log, Accepted(0), s.steps);
    assert forall k :: 0 <= k < |t.queue| ==> t.queue[k] == s.queue[k + 1];
    if task.AdaptiveTask? {
      assert a == [task] + Intents(t, cfg);
      BehindWithout(a, 0, s.log, s.steps + 1);
      assert a[..0] + a[1..] == Intents(t, cfg);
    } else {
      assert [] + Intents(t, cfg) == Intents(t, cfg);
    }
    if t.log != s.log {
      NoManualBehind(s, cfg);
      var n := t.log[|s.log|];
      assert t.log == s.log + [n];
      assert a[1..] == Intents(t, cfg);
      BehindSwitch(a, n, s.log, s.steps);
      WrittenLater(s.log, n, s.steps);
      DoneSnoc(s.log, n);
    }
  }

  lemma ResumeKeeps(s: State, cfg: Config)
    requires IntentInv(s, cfg) && s.running.Run?
    ensures IntentInv(DoResume(s, cfg).(steps := s.steps + 1), cfg)
  {
    hide DoResume, Finish, Intents, Behind, ServedInOrder, WrittenInOrder, DoneAfterAccepted, AcceptedLast;
    var t := DoResume(s, cfg).(steps := s.steps + 1);
    if s.running.at.Returned? {
      ResumeFinishes(s, cfg);
      FinishLog(s, cfg);
    } else {
      SegmentFrame(s, cfg);
    }
    SameIntents(s, t, cfg);
    var n := ManualDone(s.now, s.running.task.target);
    BehindLater(Intents(s, cfg), s.log, n, s.steps);
    WrittenLater(s.log, n, s.steps);
    ServedSame(s.log, n);
    if s.running.task.ManualTask? {
      DoneSnoc(s.log, n);
      AcceptedSnoc(s.log, n);
    }
  }

  lemma OtherKeeps(s: State, step: Step, cfg: Config)
    requires IntentInv(s, cfg) && Enabled(s, step) && !IsCall(step) && !step.StartTask? && !step.ResumeTask?
    ensures IntentInv(Next(s, step, cfg), cfg)
  {
    hide Act, Intents, Behind, IntentInv;
    LifecycleLog(s, step, cfg);
    var t := Next(s, step, cfg);
    SameIntents(s, t, cfg);
    BehindOf(s, cfg);
    BehindLater(Intents(s, cfg), s.log, Accepted(0), s.steps);
    QuietKeeps(s, t, cfg);
  }

  lemma IntentInvNext(s: State, step: Step, cfg: Config)
    requires IntentInv(s, cfg) && FreshInv(s) && ModeInv(s, cfg) && PhaseInv(s, cfg) && Enabled(s, step)
    ensures IntentInv(Next(s, step, cfg), cfg)
  {
    hide IntentInv, FreshInv, ModeInv, PhaseInv, DoStart, DoResume, DoSet, DoCapture, DoMicrotask, DoTick, DoActivate, DoRequestStart;
    if step.SetCaptureMode? {
      SetKeeps(s, step.mode, cfg);
    } else if IsCall(step) {
      CallKeeps(s, step, cfg);
    } else if step.StartTask? {
      StartKeeps(s, cfg);
    } else if step.ResumeTask? {
      ResumeKeeps(s, cfg);
    } else {
      OtherKeeps(s, step, cfg);
    }
  }

  // ---------------------------------------------------------------- the law of duplicates

  /**
    Of two switches to one mode, the later was either asked for after the earlier began, or between
    them came a switch to another mode that was asked for before it.
  */
  ghost predicate DuplicatesNeedReturn(log: seq<Note>) {
    forall i, k :: 0 <= i < k < |log| && log[i].Switched? && log[k].Switched? && log[i].target == log[k].target
                   && log[k].requestedAt <= log[i].begunAt ==>
      exists j :: i < j < k && log[j].Switched? && log[j].target != log[i].target && log[j].requestedAt < log[k].requestedAt
  }

  lemma ManualBetween(log: seq<Note>, steps: nat, i: nat, j: nat, k: nat)
    requires WrittenInOrder(log, steps) && DoneAfterAccepted(log) && SwitchesFresh(log)
    requires i < j < k < |log| && log[i].Switched? && log[j].ManualDone? && log[k].Switched?
    ensures log[i].begunAt < log[k].requestedAt
  {
    var a :| i < a < j && log[a].Accepted?;
    assert WrittenAt(log[i]) < WrittenAt(log[a]);
  }

  lemma ReturnBetween(log: seq<Note>, steps: nat)
    requires ServedInOrder(log) && WrittenInOrder(log, steps) && DoneAfterAccepted(log) && SwitchesFresh(log) && Alternates(log)
    ensures DuplicatesNeedReturn(log)
  {
    forall i, k | 0 <= i < k < |log| && log[i].Switched? && log[k].Switched? && log[i].target == log[k].target
                  && log[k].requestedAt <= log[i].begunAt
      ensures exists j :: i < j < k && log[j].Switched? && log[j].target != log[i].target && log[j].requestedAt < log[k].requestedAt
    {
      var j :| i < j < k && IsMark(log[j]) && (log[j].Switched? ==> log[j].target != log[i].target);
      if log[j].ManualDone? { ManualBetween(log, steps, i, j, k); }
    }
  }
}
