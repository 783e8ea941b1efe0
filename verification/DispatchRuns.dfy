/** The assembly protocol over whole runs. */
module DispatchRuns {
  import opened Dispatch
  import opened DispatchIds
  import opened DispatchInvariants

  // ---------------------------------------------------------------- every run

  ghost predicate Dates(s: State) {
    && (forall i :: 0 <= i < |s.inbox| ==> 1 <= s.inbox[i].ticket)
    && (forall i :: 0 <= i < |s.outbox| ==> 1 <= s.outbox[i].ticket)
  }

  ghost predicate Inv(s: State, env: Env, max: nat) {
    Promises(s, max) && Queued(s, env) && Answered(s) && StopIsLast(s) && Dates(s) && Windowed(s, max)
  }

  lemma PostDates(s: State, kind: Kind, env: Env, max: nat)
    requires Promises(s, max) && max >= 1 && Dates(s)
    ensures Dates(Post(s, kind, env, max)) && s.ticket <= Post(s, kind, env, max).ticket
  {
    hide NextRequestId, Accounted, Accepted;
    IdFoundIff(s.requestId, s.pending, max);
    var t := Post(s, kind, env, max);
    if NextRequestId(s.requestId, s.pending, max).found {
      assert forall i :: 0 <= i < |s.inbox| ==> t.inbox[i] == s.inbox[i];
    }
  }

  lemma HandleDates(s: State, env: Env)
    requires Dates(s) && s.inbox != []
    ensures Dates(Handle(s, env)) && Handle(s, env).ticket == s.ticket
  {
    hide Accepted, Answer;
  }

  lemma DatesNext(s: State, step: Step, env: Env, max: nat)
    requires Promises(s, max) && max >= 1 && Dates(s) && Enabled(s, step)
    ensures Dates(Next(s, step, env, max)) && s.ticket <= Next(s, step, env, max).ticket
  {
    hide Promises, Post, Handle, Settle, OnMessage, WorkerGone;
    match step
    case CallAssemble(parts) => PostDates(s, Assemble(parts), env, max);
    case CallUpdate(config) => PostDates(s, Update(config), env, max);
    case CallShutdown =>
      PromisesFrame(s, s.(shuttingDown := true), max);
      PostDates(s.(shuttingDown := true), Stop, env, max);
    case WorkerHandles => HandleDates(s, env);
    case TimeOut(id) => SettleFrame(s, id, TimedOut);
    case Deliver => MessageFrame(s.(outbox := s.outbox[1..]), s.outbox[0]);
    case WorkerCrash => GoneFrame(s);
    case WorkerExit => GoneFrame(s);
    case ShutdownReturns =>
  }

  lemma SettleFrame(s: State, id: nat, how: How)
    ensures var t := Settle(s, id, how); t.inbox == s.inbox && t.outbox == s.outbox && t.ticket == s.ticket
  {
  }

  lemma MessageFrame(s: State, r: Reply)
    ensures var t := OnMessage(s, r); t.inbox == s.inbox && t.outbox == s.outbox && t.ticket == s.ticket
  {
  }

  lemma GoneFrame(s: State)
    ensures var t := WorkerGone(s); t.inbox == s.inbox && t.outbox == s.outbox && t.ticket == s.ticket
  {
  }

  lemma PostedOf(s: State, env: Env)
    requires Queued(s, env) && Answered(s)
    ensures Posted(s)
  {
    hide ConfigAfter, Truthful;
  }

  lemma InvNext(s: State, step: Step, env: Env, max: nat)
    requires Inv(s, env, max) && max >= 1 && Enabled(s, step)
    ensures Inv(Next(s, step, env, max), env, max) && s.ticket <= Next(s, step, env, max).ticket
  {
    hide Promises, Queued, Answered, StopIsLast, Dates, Windowed, Matched, Timely, FreshId, Posted, Next;
    PromisesNext(s, step, env, max);
    PostedOf(s, env);
    MatchedNextIff(s, step, env, max);
    QueuedNext(s, step, env, max);
    StopNext(s, step, env, max);
    DatesNext(s, step, env, max);
  }

  lemma StartInv(config: Config, env: Env, max: nat)
    ensures Inv(Start(config), env, max)
    ensures Matched(Start(config)) && Windowed(Start(config), max) && Faithful(Start(config))
  {
  }

  lemma {:induction false} RunKeeps(states: seq<State>, steps: seq<Step>, config: Config, env: Env, max: nat, k: nat)
    requires IsRun(states, steps, config, env, max) && max >= 1 && k < |states|
    ensures Inv(states[k], env, max)
    ensures k > 0 ==> states[k - 1].ticket <= states[k].ticket
  {
    hide Inv, Next, Enabled, Start;
    if k == 0 {
      StartInv(config, env, max);
    } else {
      RunKeeps(states, steps, config, env, max, k - 1);
      assert Follows(states[k - 1], steps[k - 1], states[k], env, max);
      InvNext(states[k - 1], steps[k - 1], env, max);
    }
  }

  /** In every run, whatever the ids: no promise is settled twice, and each one is pending or settled. */
  lemma SettledAtMostOnce(states: seq<State>, steps: seq<Step>, config: Config, env: Env, max: nat, k: nat)
    requires IsRun(states, steps, config, env, max) && max >= 1 && k < |states|
    ensures var s := states[k];
            && (forall i, j :: 0 <= i < j < |s.settled| ==> s.settled[i].call != s.settled[j].call)
            && (forall i, j :: 0 <= i < |s.pending| && 0 <= j < |s.settled| ==> s.pending[i].call != s.settled[j].call)
            && |s.calls| == |s.pending| + |s.settled|
  {
    RunKeeps(states, steps, config, env, max, k);
  }

  /** In every run a request finds an id if and only if fewer than max are pending, and the id is then nobody else's. */
  lemma IdAvailableIff(states: seq<State>, steps: seq<Step>, config: Config, env: Env, max: nat, k: nat)
    requires IsRun(states, steps, config, env, max) && max >= 1 && k < |states|
    ensures var s := states[k]; var p := NextRequestId(s.requestId, s.pending, max);
            && (p.found <==> |s.pending| < max)
            && (p.found ==> 1 <= p.counter <= max && !IsPending(s.pending, p.counter))
  {
    hide IsRun, NextRequestId, Accounted;
    RunKeeps(states, steps, config, env, max, k);
    IdFoundIff(states[k].requestId, states[k].pending, max);
  }

  /** When the worker fails or exits, no promise is left hanging. */
  lemma FailureSettlesAll(states: seq<State>, steps: seq<Step>, config: Config, env: Env, max: nat, k: nat)
    requires IsRun(states, steps, config, env, max) && max >= 1 && k < |steps|
    requires steps[k].WorkerCrash? || steps[k].WorkerExit?
    ensures |states[k + 1].settled| == |states[k + 1].calls| && !states[k + 1].hasWorker
  {
    hide Inv, Post, Handle;
    RunKeeps(states, steps, config, env, max, k + 1);
    assert Follows(states[k], steps[k], states[k + 1], env, max);
    Balanced(states[k + 1], env, max);
  }

  /** Without a worker no promise is made any more. */
  lemma {:induction false} NoneAfterWorker(states: seq<State>, steps: seq<Step>, config: Config, env: Env, max: nat, j: nat, k: nat)
    requires IsRun(states, steps, config, env, max) && j <= k < |states| && !states[j].hasWorker
    ensures states[k].calls == states[j].calls && !states[k].hasWorker
    decreases k
  {
    hide Next, Enabled, Start;
    if j < k {
      NoneAfterWorker(states, steps, config, env, max, j, k - 1);
      assert Follows(states[k - 1], steps[k - 1], states[k], env, max);
      StepWithoutWorker(states[k - 1], steps[k - 1], env, max);
    }
  }

  lemma StepWithoutWorker(s: State, step: Step, env: Env, max: nat)
    requires !s.hasWorker && Enabled(s, step)
    ensures var t := Next(s, step, env, max); t.calls == s.calls && !t.hasWorker
  {
    hide Post, Accepted, Answer;
  }

  lemma Balanced(s: State, env: Env, max: nat)
    requires Inv(s, env, max)
    ensures |s.calls| == |s.pending| + |s.settled|
  {
    hide Queued, Answered, StopIsLast, Dates, Windowed, IdsOk;
  }

  // ---------------------------------------------------------------- within one id cycle

  /** A resolved promise got what its own request deserved, and was asked before any shutdown. */
  predicate Deserved(x: Settlement, calls: seq<Call>) {
    && x.call < |calls|
    && (x.how.Resolved? ==>
          && Truthful(x.how.body, calls[x.call]) && !x.how.body.Failed?
          && forall k :: 0 <= k < x.call ==> !calls[k].kind.Stop?)
  }

  ghost predicate Faithful(s: State) {
    forall i :: 0 <= i < |s.settled| ==> Deserved(s.settled[i], s.calls)
  }

  lemma FaithfulGrows(s: State, t: State)
    requires Faithful(s) && t.settled == s.settled && s.calls <= t.calls
    ensures Faithful(t)
  {
    hide Truthful;
    forall i | 0 <= i < |t.settled| ensures Deserved(t.settled[i], t.calls) {
      assert Deserved(s.settled[i], s.calls);
    }
  }

  lemma PostGrows(s: State, kind: Kind, env: Env, max: nat)
    ensures s.calls <= Post(s, kind, env, max).calls && Post(s, kind, env, max).settled == s.settled
  {
    hide NextRequestId, Accepted;
  }

  lemma SettleFaithful(s: State, id: nat, how: How, max: nat)
    requires Faithful(s) && Promises(s, max)
    requires var i := IndexOfId(s.pending, id); i < |s.pending| ==> Deserved(Settlement(s.pending[i].call, how), s.calls)
    ensures Faithful(Settle(s, id, how))
  {
    hide Deserved;
  }

  lemma GoneFaithful(s: State, max: nat)
    requires Faithful(s) && Promises(s, max)
    ensures Faithful(WorkerGone(s))
  {
    var t := WorkerGone(s);
    var n := |s.settled|;
    forall k | 0 <= k < |t.settled| ensures Deserved(t.settled[k], t.calls) {
      if k < n { assert t.settled[k] == s.settled[k]; }
      else { assert t.settled[k] == Settlement(s.pending[k - n].call, WorkerFailed); }
    }
  }

  lemma TimeOutFaithful(s: State, id: nat, max: nat)
    requires Faithful(s) && Promises(s, max)
    ensures Faithful(Settle(s, id, TimedOut))
  {
    hide Faithful, Settle;
    SettleFaithful(s, id, TimedOut, max);
  }

  /** A reply settles its own promise: the id is pending for the call the reply answers. */
  lemma DeliverFaithful(s: State, max: nat)
    requires Faithful(s) && Promises(s, max) && Matched(s) && Answered(s) && StopIsLast(s) && s.outbox != []
    ensures Faithful(OnMessage(s.(outbox := s.outbox[1..]), s.outbox[0]))
  {
    hide Faithful, Settle, IdsOk, Accounted, Truthful;
    var t, r := s.(outbox := s.outbox[1..]), s.outbox[0];
    var i := IndexOfId(s.pending, r.id);
    SameSettled(s, t, max);
    if i < |s.pending| {
      assert s.pending[i].call == r.call;
      var how := Outcome(r.body, s.pending[i].expectsResult);
      assert Deserved(Settlement(r.call, how), s.calls) by {
        assert r.call < |s.calls| && Truthful(r.body, s.calls[r.call]);
      }
      SettleFaithful(t, r.id, how, max);
    }
  }

  lemma SameSettled(s: State, t: State, max: nat)
    requires Faithful(s) && Promises(s, max) && t.settled == s.settled && t.calls == s.calls
    requires t.pending == s.pending && t.requestId == s.requestId
    ensures Faithful(t) && Promises(t, max)
  {
    hide Promises;
    PromisesFrame(s, t, max);
  }

  lemma FaithfulNext(s: State, step: Step, env: Env, max: nat)
    requires Inv(s, env, max) && Matched(s) && Faithful(s) && Enabled(s, step)
    ensures Faithful(Next(s, step, env, max))
  {
    hide Promises, Queued, Answered, StopIsLast, Dates, Matched, Faithful, Post, Settle, OnMessage, WorkerGone, Handle;
    match step
    case CallAssemble(parts) => PostFaithful(s, Assemble(parts), env, max);
    case CallUpdate(config) => PostFaithful(s, Update(config), env, max);
    case CallShutdown =>
      FaithfulGrows(s, s.(shuttingDown := true));
      PostFaithful(s.(shuttingDown := true), Stop, env, max);
    case TimeOut(id) => TimeOutFaithful(s, id, max);
    case WorkerHandles => HandleFaithful(s, env);
    case Deliver => DeliverFaithful(s, max);
    case WorkerCrash => GoneFaithful(s, max); FaithfulGrows(WorkerGone(s), WorkerGone(s).(open := false));
    case WorkerExit => GoneFaithful(s, max); FaithfulGrows(WorkerGone(s), WorkerGone(s).(open := false));
    case ShutdownReturns => FaithfulGrows(s, s.(available := false, hasWorker := false));
  }

  lemma PostFaithful(s: State, kind: Kind, env: Env, max: nat)
    requires Faithful(s)
    ensures Faithful(Post(s, kind, env, max))
  {
    hide Faithful, Post;
    PostGrows(s, kind, env, max);
    FaithfulGrows(s, Post(s, kind, env, max));
  }

  lemma HandleFaithful(s: State, env: Env)
    requires Faithful(s) && s.inbox != []
    ensures Faithful(Handle(s, env))
  {
    hide Faithful, Accepted, Answer;
    FaithfulGrows(s, Handle(s, env));
  }

  /** Up to state k every message posted took an id that no other message under way carried. */
  ghost predicate AllFresh(states: seq<State>, steps: seq<Step>, max: nat, k: nat) {
    forall j :: 0 <= j < k && j < |steps| && j < |states| ==> FreshId(states[j], steps[j], max)
  }

  lemma StepMatched(s: State, step: Step, env: Env, max: nat)
    requires Inv(s, env, max) && max >= 1 && Enabled(s, step)
    ensures Matched(s) ==> (Matched(Next(s, step, env, max)) <==> FreshId(s, step, max))
    ensures Timely(Next(s, step, env, max), max) ==> FreshId(s, step, max)
  {
    hide Promises, Queued, Answered, StopIsLast, Dates, Windowed, Matched, Timely, FreshId, Posted, Next;
    PostedOf(s, env);
    MatchedNextIff(s, step, env, max);
  }

  /** The exact guard over runs: messages and promises match at every state if and only if every id taken was free. */
  lemma {:induction false} MatchedIffFresh(states: seq<State>, steps: seq<Step>, config: Config, env: Env, max: nat, k: nat)
    requires IsRun(states, steps, config, env, max) && max >= 1 && k < |states|
    ensures (forall j :: 0 <= j <= k ==> Matched(states[j])) <==> AllFresh(states, steps, max, k)
  {
    hide Inv, Matched, FreshId, Timely, Next, Enabled, Start;
    if k == 0 {
      StartInv(config, env, max);
    } else {
      MatchedIffFresh(states, steps, config, env, max, k - 1);
      RunKeeps(states, steps, config, env, max, k - 1);
      assert Follows(states[k - 1], steps[k - 1], states[k], env, max);
      StepMatched(states[k - 1], steps[k - 1], env, max);
    }
  }

  lemma {:induction false} FreshRunKeeps(states: seq<State>, steps: seq<Step>, config: Config, env: Env, max: nat, k: nat)
    requires IsRun(states, steps, config, env, max) && max >= 1 && k < |states| && AllFresh(states, steps, max, k)
    ensures Faithful(states[k])
  {
    hide Inv, Matched, Faithful, FreshId, Next, Enabled, Start;
    if k == 0 {
      StartInv(config, env, max);
    } else {
      FreshRunKeeps(states, steps, config, env, max, k - 1);
      RunKeeps(states, steps, config, env, max, k - 1);
      MatchedIffFresh(states, steps, config, env, max, k - 1);
      assert Follows(states[k - 1], steps[k - 1], states[k], env, max);
      FaithfulNext(states[k - 1], steps[k - 1], env, max);
    }
  }

  /**
    As long as no message takes an id that another one under way still carries, every resolved
    assembly is the build of its own parts under the last configuration posted before it that the
    worker could resolve, and was asked for before any shutdown.
  */
  lemma EachGetsItsOwn(states: seq<State>, steps: seq<Step>, config: Config, env: Env, max: nat, k: nat, i: nat)
    requires IsRun(states, steps, config, env, max) && max >= 1 && k < |states| && AllFresh(states, steps, max, k)
    requires i < |states[k].settled| && states[k].settled[i].how.Resolved?
    ensures var s := states[k]; var x := s.settled[i];
            && x.call < |s.calls|
            && (s.calls[x.call].kind.Assemble? ==> x.how.body == Built(s.calls[x.call].kind.parts, s.calls[x.call].config))
            && forall c :: 0 <= c < x.call ==> !s.calls[c].kind.Stop?
  {
    hide IsRun, AllFresh;
    FreshRunKeeps(states, steps, config, env, max, k);
    assert Deserved(states[k].settled[i], states[k].calls);
  }

  /** A sufficient condition on time: no message is still under way when the ids have gone once round since it was posted. */
  lemma TimelyIsFresh(states: seq<State>, steps: seq<Step>, config: Config, env: Env, max: nat, k: nat)
    requires IsRun(states, steps, config, env, max) && max >= 1 && k < |states|
    requires forall j :: 0 <= j <= k ==> Timely(states[j], max)
    ensures AllFresh(states, steps, max, k)
  {
    hide Inv, Matched, FreshId, Timely, Next, Enabled, Start;
    forall j | 0 <= j < k && j < |steps| ensures FreshId(states[j], steps[j], max) {
      RunKeeps(states, steps, config, env, max, j);
      assert Follows(states[j], steps[j], states[j + 1], env, max);
      StepMatched(states[j], steps[j], env, max);
    }
  }

  lemma {:induction false} TicketsGrow(states: seq<State>, steps: seq<Step>, config: Config, env: Env, max: nat, j: nat, k: nat)
    requires IsRun(states, steps, config, env, max) && max >= 1 && j <= k < |states|
    ensures states[j].ticket <= states[k].ticket
    decreases k
  {
    hide IsRun, Inv;
    if j < k {
      TicketsGrow(states, steps, config, env, max, j, k - 1);
      RunKeeps(states, steps, config, env, max, k);
    }
  }

  /** Until max ids have been tried, whatever the worker's delays, that condition holds. */
  lemma OneCycleIsTimely(states: seq<State>, steps: seq<Step>, config: Config, env: Env, max: nat, k: nat)
    requires IsRun(states, steps, config, env, max) && max >= 1 && k < |states| && states[k].ticket <= max
    ensures forall j :: 0 <= j <= k ==> Timely(states[j], max)
  {
    hide IsRun, Promises, Queued, Answered, StopIsLast;
    forall j | 0 <= j <= k ensures Timely(states[j], max) {
      TicketsGrow(states, steps, config, env, max, j, k);
      RunKeeps(states, steps, config, env, max, j);
    }
  }

  /** The configuration recorded for a call is the last one posted before it that resolves, or the initial one. */
  function LastResolving(calls: seq<Call>, n: nat, config: Config, env: Env): Config
    requires n <= |calls|
  {
    if n == 0 then config
    else
      var before := LastResolving(calls, n - 1, config, env);
      if calls[n - 1].kind.Update? && env.resolves(calls[n - 1].kind.config) then calls[n - 1].kind.config else before
  }

  ghost predicate Recorded(s: State, config: Config, env: Env) {
    && s.posted == LastResolving(s.calls, |s.calls|, config, env)
    && forall c :: 0 <= c < |s.calls| ==> s.calls[c].config == LastResolving(s.calls, c, config, env)
  }

  lemma {:induction false} LastResolvingPrefix(calls: seq<Call>, more: seq<Call>, n: nat, config: Config, env: Env)
    requires n <= |calls|
    ensures LastResolving(calls + more, n, config, env) == LastResolving(calls, n, config, env)
  {
    if n > 0 {
      LastResolvingPrefix(calls, more, n - 1, config, env);
    }
  }

  lemma PostRecorded(s: State, kind: Kind, env: Env, max: nat, config: Config)
    requires Recorded(s, config, env)
    ensures Recorded(Post(s, kind, env, max), config, env)
  {
    hide NextRequestId, LastResolving;
    var t := Post(s, kind, env, max);
    if NextRequestId(s.requestId, s.pending, max).found {
      var call := t.calls[|s.calls|];
      assert t.calls == s.calls + [call];
      forall c | 0 <= c <= |s.calls| ensures LastResolving(t.calls, c, config, env) == LastResolving(s.calls, c, config, env) {
        LastResolvingPrefix(s.calls, [call], c, config, env);
      }
      LastResolvingStep(t.calls, config, env);
    }
  }

  lemma LastResolvingStep(calls: seq<Call>, config: Config, env: Env)
    requires calls != []
    ensures var n := |calls| - 1; var before := LastResolving(calls, n, config, env);
            LastResolving(calls, |calls|, config, env) ==
              if calls[n].kind.Update? then Accepted(env, before, calls[n].kind.config) else before
  {
  }

  lemma RecordedNext(s: State, step: Step, env: Env, max: nat, config: Config)
    requires Recorded(s, config, env) && Enabled(s, step)
    ensures Recorded(Next(s, step, env, max), config, env)
  {
    hide LastResolving, Post, Handle, Outcome;
    match step
    case CallAssemble(parts) => PostRecorded(s, Assemble(parts), env, max, config);
    case CallUpdate(next) => PostRecorded(s, Update(next), env, max, config);
    case CallShutdown => PostRecorded(s.(shuttingDown := true), Stop, env, max, config);
    case WorkerHandles => HandleKeepsRecord(s, env);
    case _ =>
  }

  lemma HandleKeepsRecord(s: State, env: Env)
    requires s.inbox != []
    ensures Handle(s, env).calls == s.calls && Handle(s, env).posted == s.posted
  {
  }

  lemma {:induction false} ConfigsAreRecorded(states: seq<State>, steps: seq<Step>, config: Config, env: Env, max: nat, k: nat)
    requires IsRun(states, steps, config, env, max) && k < |states|
    ensures Recorded(states[k], config, env)
  {
    hide Next, Enabled, LastResolving, Recorded;
    if k == 0 {
      StartRecorded(config, env);
    } else {
      ConfigsAreRecorded(states, steps, config, env, max, k - 1);
      assert Follows(states[k - 1], steps[k - 1], states[k], env, max);
      RecordedNext(states[k - 1], steps[k - 1], env, max, config);
    }
  }

  lemma StartRecorded(config: Config, env: Env)
    ensures Recorded(Start(config), config, env)
  {
  }

  /**
    Within one cycle of ids, whatever the delays, time-outs and failures: a resolved assembly is
    the build of its own parts under the last resolvable configuration posted before it.
  */
  lemma OneCycleEachGetsItsOwn(states: seq<State>, steps: seq<Step>, config: Config, env: Env, max: nat, k: nat, i: nat)
    requires IsRun(states, steps, config, env, max) && max >= 1 && k < |states| && states[k].ticket <= max
    requires i < |states[k].settled| && states[k].settled[i].how.Resolved?
    ensures var s := states[k]; var x := s.settled[i];
            && x.call < |s.calls|
            && (s.calls[x.call].kind.Assemble? ==>
                  x.how.body == Built(s.calls[x.call].kind.parts, LastResolving(s.calls, x.call, config, env)))
  {
    hide IsRun, Timely, LastResolving;
    OneCycleIsTimely(states, steps, config, env, max, k);
    TimelyIsFresh(states, steps, config, env, max, k);
    EachGetsItsOwn(states, steps, config, env, max, k, i);
    ConfigsAreRecorded(states, steps, config, env, max, k);
  }

  // ---------------------------------------------------------------- beyond one cycle

  /** j requests of parts 7, each timed out before the busy worker looked at it. */
  function Late(j: nat): seq<Request> {
    seq(j, i requires 0 <= i < j => Request(i + 1, i + 1, i, Assemble(7)))
  }

  function AskedLate(c: Config, j: nat): seq<Call> {
    seq(j, i requires 0 <= i < j => Call(Assemble(7), c))
  }

  function GivenUp(j: nat): seq<Settlement> {
    seq(j, i requires 0 <= i < j => Settlement(i, TimedOut))
  }

  /** After j rounds of asking and timing out. */
  function Round(c: Config, j: nat): State {
    State(true, true, false, j, [], Late(j), [], true, c, j, c, AskedLate(c, j), GivenUp(j))
  }

  /** In the middle of the next one. */
  function Waiting(c: Config, j: nat): State {
    State(true, true, false, j + 1, [Pending(j + 1, j, true)], Late(j + 1), [], true, c, j + 1, c, AskedLate(c, j + 1), GivenUp(j))
  }

  /** All ids are used up; the next request, for parts 8, gets id 1 again. */
  function Reused(c: Config, max: nat): State {
    State(true, true, false, 1, [Pending(1, max, true)], Late(max) + [Request(1, max + 1, max, Assemble(8))], [], true, c,
          max + 1, c, AskedLate(c, max) + [Call(Assemble(8), c)], GivenUp(max))
  }

  /** The worker has answered the very first request, and the answer has arrived. */
  function Mistaken(c: Config, max: nat): State
    requires max >= 1
  {
    Reused(c, max).(inbox := Reused(c, max).inbox[1..], pending := [],
                    settled := GivenUp(max) + [Settlement(max, Resolved(Built(7, c)))])
  }

  function StaleState(c: Config, max: nat, n: nat): State
    requires max >= 1
  {
    if n <= 2 * max then (if n % 2 == 0 then Round(c, n / 2) else Waiting(c, n / 2))
    else if n == 2 * max + 1 then Reused(c, max)
    else if n == 2 * max + 2 then Reused(c, max).(inbox := Reused(c, max).inbox[1..], outbox := [Reply(1, 1, 0, Built(7, c))])
    else Mistaken(c, max)
  }

  function StaleStep(max: nat, n: nat): Step {
    if n < 2 * max then (if n % 2 == 0 then CallAssemble(7) else TimeOut(n / 2 + 1))
    else if n == 2 * max then CallAssemble(8)
    else if n == 2 * max + 1 then WorkerHandles
    else Deliver
  }

  lemma NextFree(counter: nat, max: nat)
    ensures NextRequestId(counter, [], max) == Probed(NextCounter(counter, max), 1, true)
  {
  }

  lemma Asks(c: Config, env: Env, max: nat, j: nat)
    requires j < max
    ensures Follows(Round(c, j), CallAssemble(7), Waiting(c, j), env, max)
  {
    hide NextRequestId, Accepted;
    NextFree(j, max);
    assert Late(j + 1) == Late(j) + [Request(j + 1, j + 1, j, Assemble(7))];
    assert AskedLate(c, j + 1) == AskedLate(c, j) + [Call(Assemble(7), c)];
  }

  lemma GivesUp(c: Config, env: Env, max: nat, j: nat)
    ensures Follows(Waiting(c, j), TimeOut(j + 1), Round(c, j + 1), env, max)
  {
    var s := Waiting(c, j);
    assert s.pending[0].id == j + 1;
    assert IndexOfId(s.pending, j + 1) == 0;
    assert GivenUp(j + 1) == GivenUp(j) + [Settlement(j, TimedOut)];
  }

  lemma WrapsRound(c: Config, env: Env, max: nat)
    requires max >= 1
    ensures Follows(Round(c, max), CallAssemble(8), Reused(c, max), env, max)
  {
    hide NextRequestId, Accepted;
    NextFree(max, max);
  }

  lemma AnswersLate(c: Config, env: Env, max: nat)
    requires max >= 1 && env.builds(7, c)
    ensures Follows(Reused(c, max), WorkerHandles, StaleState(c, max, 2 * max + 2), env, max)
    ensures Follows(StaleState(c, max, 2 * max + 2), Deliver, Mistaken(c, max), env, max)
  {
    assert Reused(c, max).inbox[0] == Request(1, 1, 0, Assemble(7));
    assert IndexOfId([Pending(1, max, true)], 1) == 0;
  }

  /**
    The condition is needed, for every largest id, that of the code included: max requests time
    out while the worker is busy, the next one gets the first one's id again, and the answer to the
    first settles it with the wrong package.
  */
  lemma StaleReplyBeyondCycle(c: Config, env: Env, max: nat) returns (states: seq<State>, steps: seq<Step>)
    requires max >= 1 && env.builds(7, c)
    ensures IsRun(states, steps, c, env, max)
    ensures var last := states[|steps|];
            && |last.calls| == max + 1 && last.calls[max].kind == Assemble(8)
            && |last.settled| == max + 1 && last.settled[max] == Settlement(max, Resolved(Built(7, c)))
  {
    hide Next, Enabled, Round, Waiting, Reused, Mistaken;
    states := seq(2 * max + 4, n requires 0 <= n => StaleState(c, max, n));
    steps := seq(2 * max + 3, n requires 0 <= n => StaleStep(max, n));
    assert states[0] == Start(c) by { StartsAtRound(c); }
    forall n | 0 <= n < |steps| ensures Follows(states[n], steps[n], states[n + 1], env, max) {
      StaleFollows(c, env, max, n);
    }
    Ends(c, max);
  }

  lemma StartsAtRound(c: Config)
    ensures Round(c, 0) == Start(c)
  {
  }

  lemma Ends(c: Config, max: nat)
    requires max >= 1
    ensures var last := Mistaken(c, max);
            && |last.calls| == max + 1 && last.calls[max].kind == Assemble(8)
            && |last.settled| == max + 1 && last.settled[max] == Settlement(max, Resolved(Built(7, c)))
  {
  }

  lemma StaleFollows(c: Config, env: Env, max: nat, n: nat)
    requires max >= 1 && env.builds(7, c) && n < 2 * max + 3
    ensures Follows(StaleState(c, max, n), StaleStep(max, n), StaleState(c, max, n + 1), env, max)
  {
    hide Next, Enabled, Round, Waiting, Reused, Mistaken;
    if n < 2 * max {
      if n % 2 == 0 { Asks(c, env, max, n / 2); } else { GivesUp(c, env, max, n / 2); }
    } else if n == 2 * max {
      WrapsRound(c, env, max);
    } else {
      AnswersLate(c, env, max);
    }
  }
}
