/** What every call of the assembly protocol comes to, as long as messages reach their own promises. */
module DispatchVerdicts {
  import opened Dispatch
  import opened DispatchIds
  import opened DispatchInvariants
  import opened DispatchRuns

  /** What the worker owes a call, given the configuration it has by then. */
  function Due(call: Call, env: Env): How {
    match call.kind
    case Stop => Resolved(Acknowledged)
    case Update(next) => if env.resolves(next) then Resolved(Acknowledged) else ErrorReply
    case Assemble(parts) => if env.builds(parts, call.config) then Resolved(Built(parts, call.config)) else ErrorReply
  }

  /** Every reply, read by its own call, says what is due. */
  ghost predicate RepliesDue(s: State, env: Env) {
    forall i :: 0 <= i < |s.outbox| ==> s.outbox[i].call < |s.calls| && SaysDue(s.outbox[i], s.calls[s.outbox[i].call], env)
  }

  predicate SaysDue(r: Reply, call: Call, env: Env) {
    Outcome(r.body, call.kind.Assemble?) == Due(call, env)
  }

  /** Every settled promise timed out, lost its worker, or got what is due. */
  ghost predicate SettledDue(s: State, env: Env) {
    forall i :: 0 <= i < |s.settled| ==> s.settled[i].call < |s.calls| && Fair(s.settled[i], s.calls, env)
  }

  predicate Fair(x: Settlement, calls: seq<Call>, env: Env)
    requires x.call < |calls|
  {
    x.how == TimedOut || x.how == WorkerFailed || x.how == Due(calls[x.call], env)
  }

  ghost predicate AllDue(s: State, env: Env) {
    RepliesDue(s, env) && SettledDue(s, env)
  }

  lemma PostDue(s: State, kind: Kind, env: Env, max: nat)
    requires AllDue(s, env)
    ensures AllDue(Post(s, kind, env, max), env)
  {
    hide NextRequestId, Accepted, Due, Outcome;
    var t := Post(s, kind, env, max);
    assert forall c :: 0 <= c < |s.calls| ==> t.calls[c] == s.calls[c];
  }

  lemma AnswerIsDue(m: Request, call: Call, config: Config, env: Env)
    requires call == Call(m.kind, config)
    ensures Outcome(Answer(m, config, env), call.kind.Assemble?) == Due(call, env)
  {
  }

  lemma HandleDue(s: State, env: Env)
    requires AllDue(s, env) && Queued(s, env) && s.inbox != []
    ensures AllDue(Handle(s, env), env)
  {
    hide Accepted, Answer, Due, Outcome;
    var t, m := Handle(s, env), s.inbox[0];
    ConfigFirst(s.config, s.inbox, env);
    AnswerIsDue(m, s.calls[m.call], s.config, env);
    assert forall i :: 0 <= i < |s.outbox| ==> t.outbox[i] == s.outbox[i];
  }

  lemma SettleDue(s: State, id: nat, how: How, env: Env)
    requires AllDue(s, env)
    requires var i := IndexOfId(s.pending, id);
             i < |s.pending| ==> s.pending[i].call < |s.calls| && Fair(Settlement(s.pending[i].call, how), s.calls, env)
    ensures AllDue(Settle(s, id, how), env)
  {
    hide IndexOfId, Fair;
    var t := Settle(s, id, how);
    assert forall i :: 0 <= i < |s.settled| ==> t.settled[i] == s.settled[i];
  }

  lemma GoneDue(s: State, max: nat, env: Env)
    requires AllDue(s, env) && Promises(s, max)
    ensures AllDue(WorkerGone(s), env)
  {
    hide Due;
    CallsInRange(s);
    var t := WorkerGone(s);
    assert forall i :: 0 <= i < |s.settled| ==> t.settled[i] == s.settled[i];
    assert forall i :: |s.settled| <= i < |t.settled| ==> t.settled[i] == Settlement(s.pending[i - |s.settled|].call, WorkerFailed);
  }

  lemma DueFrame(s: State, t: State, env: Env)
    requires AllDue(s, env) && t.calls == s.calls && t.settled == s.settled
    requires t.outbox == s.outbox || (s.outbox != [] && t.outbox == s.outbox[1..])
    ensures AllDue(t, env)
  {
    hide Due, Outcome;
    if t.outbox != s.outbox {
      assert forall i :: 0 <= i < |t.outbox| ==> t.outbox[i] == s.outbox[i + 1];
    }
  }

  /** A reply whose id is pending belongs to that promise, and gives it what is due. */
  lemma ReplyFits(s: State, env: Env, max: nat)
    requires AllDue(s, env) && Promises(s, max) && Matched(s) && s.outbox != []
    ensures var r := s.outbox[0]; var i := IndexOfId(s.pending, r.id);
            i < |s.pending| ==>
              && s.pending[i].call == r.call < |s.calls|
              && Outcome(r.body, s.pending[i].expectsResult) == Due(s.calls[r.call], env)
  {
    hide Accounted, IdsOk, IndexOfId, Outcome, Due;
    CallsInRange(s);
  }

  lemma DeliverDue(s: State, env: Env, max: nat)
    requires AllDue(s, env) && Promises(s, max) && Matched(s) && s.outbox != []
    ensures AllDue(OnMessage(s.(outbox := s.outbox[1..]), s.outbox[0]), env)
  {
    hide AllDue, Promises, Matched, Outcome, Due, Settle;
    var t, r := s.(outbox := s.outbox[1..]), s.outbox[0];
    ReplyFits(s, env, max);
    DueFrame(s, t, env);
    var i := IndexOfId(s.pending, r.id);
    if i < |s.pending| {
      SettleDue(t, r.id, Outcome(r.body, s.pending[i].expectsResult), env);
    }
  }

  lemma DueNext(s: State, step: Step, env: Env, max: nat)
    requires AllDue(s, env) && Promises(s, max) && Queued(s, env) && Matched(s) && Enabled(s, step)
    ensures AllDue(Next(s, step, env, max), env)
  {
    hide AllDue, Promises, Queued, Matched, Post, Settle, Handle, OnMessage, WorkerGone, Due;
    match step
    case CallAssemble(parts) => PostDue(s, Assemble(parts), env, max);
    case CallUpdate(config) => PostDue(s, Update(config), env, max);
    case CallShutdown =>
      DueFrame(s, s.(shuttingDown := true), env);
      PostDue(s.(shuttingDown := true), Stop, env, max);
    case TimeOut(id) =>
      PendingCalls(s, max);
      SettleDue(s, id, TimedOut, env);
    case WorkerHandles => HandleDue(s, env);
    case Deliver => DeliverDue(s, env, max);
    case WorkerCrash => GoneDue(s, max, env); DueFrame(WorkerGone(s), WorkerGone(s).(open := false), env);
    case WorkerExit => GoneDue(s, max, env); DueFrame(WorkerGone(s), WorkerGone(s).(open := false), env);
    case ShutdownReturns => DueFrame(s, s.(available := false, hasWorker := false), env);
  }

  lemma PendingCalls(s: State, max: nat)
    requires Promises(s, max)
    ensures forall i :: 0 <= i < |s.pending| ==> s.pending[i].call < |s.calls|
  {
  }

  lemma {:induction false} RunDue(states: seq<State>, steps: seq<Step>, config: Config, env: Env, max: nat, k: nat)
    requires IsRun(states, steps, config, env, max) && max >= 1 && k < |states| && AllFresh(states, steps, max, k)
    ensures AllDue(states[k], env)
  {
    hide Promises, Queued, Answered, StopIsLast, Dates, Windowed, Matched, AllDue, FreshId, Next, Enabled, Start;
    if k == 0 {
      StartDue(config, env);
    } else {
      RunDue(states, steps, config, env, max, k - 1);
      RunKeeps(states, steps, config, env, max, k - 1);
      MatchedIffFresh(states, steps, config, env, max, k - 1);
      assert Follows(states[k - 1], steps[k - 1], states[k], env, max);
      DueNext(states[k - 1], steps[k - 1], env, max);
    }
  }

  lemma StartDue(config: Config, env: Env)
    ensures AllDue(Start(config), env)
  {
  }

  /**
    As long as no id is taken while a message under way carries it, every promise that settled timed
    out, lost its worker, or got exactly what was due: an assembly its build or an error, an update
    and a stop their acknowledgement or, for a configuration that does not resolve, an error.
  */
  lemma EachGetsWhatIsDue(states: seq<State>, steps: seq<Step>, config: Config, env: Env, max: nat, k: nat, i: nat)
    requires IsRun(states, steps, config, env, max) && max >= 1 && k < |states| && AllFresh(states, steps, max, k)
    requires i < |states[k].settled|
    ensures var s := states[k]; var x := s.settled[i];
            x.call < |s.calls| && (x.how == TimedOut || x.how == WorkerFailed || x.how == Due(s.calls[x.call], env))
  {
    hide IsRun, AllFresh;
    RunDue(states, steps, config, env, max, k);
  }

  ghost predicate Waiting(s: State, call: nat) {
    exists i :: 0 <= i < |s.pending| && s.pending[i].call == call
  }

  lemma WaitingHasId(s: State, max: nat)
    requires Promises(s, max) && Matched(s) && s.outbox != []
    ensures var r := s.outbox[0]; IndexOfId(s.pending, r.id) < |s.pending| ==> Waiting(s, r.call)
  {
    hide Accounted, IdsOk;
  }

  /** Whoever waits for a reply in the port still has its id, unless it stopped waiting. */
  ghost predicate Held(s: State) {
    && (forall i, k :: 0 <= i < |s.inbox| && 0 <= k < |s.pending| && s.pending[k].call == s.inbox[i].call ==>
          s.pending[k].id == s.inbox[i].id)
    && (forall i, k :: 0 <= i < |s.outbox| && 0 <= k < |s.pending| && s.pending[k].call == s.outbox[i].call ==>
          s.pending[k].id == s.outbox[i].id)
  }

  lemma PostHeld(s: State, kind: Kind, env: Env, max: nat)
    requires Held(s) && Promises(s, max) && Posted(s)
    ensures Held(Post(s, kind, env, max))
  {
    hide NextRequestId, Accepted, IdsOk;
    CallsInRange(s);
    var t := Post(s, kind, env, max);
    if NextRequestId(s.requestId, s.pending, max).found {
      assert forall i :: 0 <= i < |s.inbox| ==> t.inbox[i] == s.inbox[i];
      assert forall k :: 0 <= k < |s.pending| ==> t.pending[k] == s.pending[k];
    }
  }

  lemma HandleHeld(s: State, env: Env)
    requires Held(s) && s.inbox != []
    ensures Held(Handle(s, env))
  {
    hide Accepted, Answer;
    var t := Handle(s, env);
    assert forall i :: 0 <= i < |t.inbox| ==> t.inbox[i] == s.inbox[i + 1];
    assert forall i :: 0 <= i < |s.outbox| ==> t.outbox[i] == s.outbox[i];
    assert t.outbox[|s.outbox|].id == s.inbox[0].id && t.outbox[|s.outbox|].call == s.inbox[0].call;
  }

  lemma HeldFrame(s: State, t: State)
    requires Held(s) && t.inbox == s.inbox
    requires t.pending == s.pending || t.pending == []
    requires t.outbox == s.outbox || (s.outbox != [] && t.outbox == s.outbox[1..])
    ensures Held(t)
  {
    if t.outbox != s.outbox {
      assert forall i :: 0 <= i < |t.outbox| ==> t.outbox[i] == s.outbox[i + 1];
    }
  }

  lemma SettleHeld(s: State, id: nat, how: How)
    requires Held(s)
    ensures Held(Settle(s, id, how))
  {
    var i := IndexOfId(s.pending, id);
    var t := Settle(s, id, how);
    if i < |s.pending| {
      assert forall k :: 0 <= k < |t.pending| ==> t.pending[k] == s.pending[if k < i then k else k + 1];
    }
  }

  lemma HeldNext(s: State, step: Step, env: Env, max: nat)
    requires Held(s) && Promises(s, max) && Posted(s) && Enabled(s, step)
    ensures Held(Next(s, step, env, max))
  {
    hide Held, Promises, Posted, Post, Settle, Handle, Outcome;
    match step
    case CallAssemble(parts) => PostHeld(s, Assemble(parts), env, max);
    case CallUpdate(config) => PostHeld(s, Update(config), env, max);
    case CallShutdown =>
      var t := s.(shuttingDown := true);
      HeldFrame(s, t);
      PromisesFrame(s, t, max);
      ShuttingDownSame(s, max);
      PostHeld(t, Stop, env, max);
    case TimeOut(id) => SettleHeld(s, id, TimedOut);
    case WorkerHandles => HandleHeld(s, env);
    case Deliver =>
      var t := s.(outbox := s.outbox[1..]);
      HeldFrame(s, t);
      var i := IndexOfId(t.pending, s.outbox[0].id);
      if i < |t.pending| { SettleHeld(t, s.outbox[0].id, Outcome(s.outbox[0].body, t.pending[i].expectsResult)); }
    case _ => HeldFrame(s, Next(s, step, env, max));
  }

  lemma {:induction false} RunHeld(states: seq<State>, steps: seq<Step>, config: Config, env: Env, max: nat, k: nat)
    requires IsRun(states, steps, config, env, max) && max >= 1 && k < |states|
    ensures Held(states[k])
  {
    hide Promises, Queued, Answered, StopIsLast, Dates, Windowed, Held, Next, Enabled, Posted;
    if k > 0 {
      RunHeld(states, steps, config, env, max, k - 1);
      RunKeeps(states, steps, config, env, max, k - 1);
      PostedOf(states[k - 1], env);
      assert Follows(states[k - 1], steps[k - 1], states[k], env, max);
      HeldNext(states[k - 1], steps[k - 1], env, max);
    } else {
      StartHeld(config);
    }
  }

  lemma StartHeld(config: Config)
    ensures Held(Start(config))
  {
  }

  /**
    And a reply that arrives settles its caller if and only if that caller still waits: with what is
    due, once, and nobody else.
  */
  lemma ReplySettlesIff(states: seq<State>, steps: seq<Step>, config: Config, env: Env, max: nat, k: nat)
    requires IsRun(states, steps, config, env, max) && max >= 1 && k < |steps| && AllFresh(states, steps, max, k)
    requires steps[k].Deliver?
    ensures var s, t := states[k], states[k + 1];
            && s.outbox != [] && s.outbox[0].call < |s.calls| && t.outbox == s.outbox[1..]
            && t.settled == s.settled + (if Waiting(s, s.outbox[0].call)
                                         then [Settlement(s.outbox[0].call, Due(s.calls[s.outbox[0].call], env))] else [])
            && !Waiting(t, s.outbox[0].call)
            && forall c :: c != s.outbox[0].call ==> (Waiting(t, c) <==> Waiting(s, c))
  {
    hide AllFresh, Inv, Due, Start, FreshId;
    RunKeeps(states, steps, config, env, max, k);
    RunHeld(states, steps, config, env, max, k);
    RunDue(states, steps, config, env, max, k);
    MatchedIffFresh(states, steps, config, env, max, k);
    assert Follows(states[k], steps[k], states[k + 1], env, max);
    PromisesOf(states[k], env, max);
    OneReply(states[k], env, max);
  }

  lemma PromisesOf(s: State, env: Env, max: nat)
    requires Inv(s, env, max)
    ensures Promises(s, max)
  {
  }

  lemma OneReply(s: State, env: Env, max: nat)
    requires Promises(s, max) && AllDue(s, env) && Matched(s) && Held(s) && s.outbox != []
    ensures var r := s.outbox[0]; var t := OnMessage(s.(outbox := s.outbox[1..]), r);
            && r.call < |s.calls| && t.outbox == s.outbox[1..]
            && t.settled == s.settled + (if Waiting(s, r.call) then [Settlement(r.call, Due(s.calls[r.call], env))] else [])
            && !Waiting(t, r.call)
            && forall c :: c != r.call ==> (Waiting(t, c) <==> Waiting(s, c))
  {
    hide Outcome, Due, Waiting, Matched, Held, Settle, Promises, SaysDue, Fair;
    var r, u := s.outbox[0], s.(outbox := s.outbox[1..]);
    var i := IndexOfId(s.pending, r.id);
    ReplyFits(s, env, max);
    WaitingIsFound(s, max);
    if i < |s.pending| {
      SettleEndsWait(u, r.id, Outcome(r.body, s.pending[i].expectsResult), max);
      SameWaiting(s, u);
    } else {
      SameWaiting(s, u);
    }
  }

  lemma SameWaiting(s: State, u: State)
    requires u.pending == s.pending
    ensures forall c :: Waiting(u, c) <==> Waiting(s, c)
  {
  }

  /** The caller of the first reply waits if and only if the reply's id is pending. */
  lemma WaitingIsFound(s: State, max: nat)
    requires Promises(s, max) && Matched(s) && Held(s) && s.outbox != []
    ensures var r := s.outbox[0]; Waiting(s, r.call) <==> IndexOfId(s.pending, r.id) < |s.pending|
    ensures Promises(s.(outbox := s.outbox[1..]), max)
  {
    hide Accounted, IdsOk;
    WaitingHasId(s, max);
    var r := s.outbox[0];
    if Waiting(s, r.call) {
      var k :| 0 <= k < |s.pending| && s.pending[k].call == r.call;
      assert s.pending[k].id == r.id;
    }
    hide Promises;
    PromisesFrame(s, s.(outbox := s.outbox[1..]), max);
  }

  /** Settling a pending id ends one caller's wait and no other's. */
  lemma SettleEndsWait(s: State, id: nat, how: How, max: nat)
    requires Promises(s, max) && IndexOfId(s.pending, id) < |s.pending|
    ensures var t, call := Settle(s, id, how), s.pending[IndexOfId(s.pending, id)].call;
            && t.settled == s.settled + [Settlement(call, how)] && t.outbox == s.outbox && !Waiting(t, call)
            && forall c :: c != call ==> (Waiting(t, c) <==> Waiting(s, c))
  {
    hide IdsOk, IndexOfId;
    var i := IndexOfId(s.pending, id);
    var t := Settle(s, id, how);
    RemovedAt(s.pending, i);
    forall c | c != s.pending[i].call ensures Waiting(t, c) <==> Waiting(s, c) {
      if Waiting(s, c) {
        var k :| 0 <= k < |s.pending| && s.pending[k].call == c;
        assert t.pending[if k < i then k else k - 1].call == c;
      }
      if Waiting(t, c) {
        var k :| 0 <= k < |t.pending| && t.pending[k].call == c;
        assert s.pending[if k < i then k else k + 1].call == c;
      }
    }
  }
}
