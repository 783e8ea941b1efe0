/** What every step of the assembly protocol keeps. */
module DispatchInvariants {
  import opened Dispatch
  import opened DispatchIds

  // ---------------------------------------------------------------- promises

  /** Every call's promise is pending or settled, and never twice. */
  ghost predicate Accounted(s: State) {
    && (forall i :: 0 <= i < |s.pending| ==> s.pending[i].call < |s.calls|)
    && (forall i, j :: 0 <= i < j < |s.pending| ==> s.pending[i].call != s.pending[j].call)
    && (forall i :: 0 <= i < |s.settled| ==> s.settled[i].call < |s.calls|)
    && (forall i, j :: 0 <= i < j < |s.settled| ==> s.settled[i].call != s.settled[j].call)
    && (forall i, j :: 0 <= i < |s.pending| && 0 <= j < |s.settled| ==> s.pending[i].call != s.settled[j].call)
    && |s.calls| == |s.pending| + |s.settled|
  }

  ghost predicate Promises(s: State, max: nat) {
    && s.requestId <= max
    && IdsOk(s.pending, max)
    && Accounted(s)
    && (forall i :: 0 <= i < |s.pending| ==> s.pending[i].expectsResult == s.calls[s.pending[i].call].kind.Assemble?)
  }

  lemma PostAccounted(s: State, kind: Kind, env: Env, max: nat)
    requires Accounted(s)
    ensures Accounted(Post(s, kind, env, max))
  {
    hide NextRequestId, Accepted;
    var t := Post(s, kind, env, max);
    if NextRequestId(s.requestId, s.pending, max).found {
      assert forall i :: 0 <= i < |s.pending| ==> t.pending[i] == s.pending[i];
    }
  }

  lemma AppendedIds(pending: seq<Pending>, p: Pending, max: nat)
    requires IdsOk(pending, max) && 1 <= p.id <= max && !IsPending(pending, p.id)
    ensures IdsOk(pending + [p], max)
  {
    assert forall i :: 0 <= i < |pending| ==> (pending + [p])[i] == pending[i] && pending[i].id != p.id;
  }

  lemma PostPromises(s: State, kind: Kind, env: Env, max: nat)
    requires Promises(s, max) && max >= 1
    ensures Promises(Post(s, kind, env, max), max)
  {
    hide NextRequestId, Accounted, IdsOk, IsPending, Accepted;
    IdFoundIff(s.requestId, s.pending, max);
    PostAccounted(s, kind, env, max);
    var p := NextRequestId(s.requestId, s.pending, max);
    if p.found {
      var t := Post(s, kind, env, max);
      CallsInRange(s);
      AppendedIds(s.pending, t.pending[|s.pending|], max);
      assert forall i :: 0 <= i < |s.pending| ==> t.pending[i] == s.pending[i];
      assert forall c :: 0 <= c < |s.calls| ==> t.calls[c] == s.calls[c];
    }
  }

  lemma RemovedAt(pending: seq<Pending>, i: nat)
    requires i < |pending|
    ensures var rest := pending[..i] + pending[i + 1..];
            |rest| == |pending| - 1 && forall k :: 0 <= k < |rest| ==> rest[k] == pending[if k < i then k else k + 1]
  {
  }

  lemma SettleAccounted(s: State, id: nat, how: How)
    requires Accounted(s) && IndexOfId(s.pending, id) < |s.pending|
    ensures Accounted(Settle(s, id, how))
  {
    hide IndexOfId;
    var i := IndexOfId(s.pending, id);
    var t := Settle(s, id, how);
    RemovedAt(s.pending, i);
    forall k | 0 <= k < |t.pending| ensures t.pending[k].call < |s.calls| && t.pending[k].call != s.pending[i].call
                                            && forall j :: 0 <= j < |s.settled| ==> t.pending[k].call != s.settled[j].call {
      assert t.pending[k] == s.pending[if k < i then k else k + 1];
    }
    forall j | 0 <= j < |s.settled| ensures t.settled[j] == s.settled[j] && s.settled[j].call != s.pending[i].call {
    }
  }

  lemma IdsRemoved(pending: seq<Pending>, i: nat, max: nat)
    requires i < |pending| && IdsOk(pending, max)
    ensures IdsOk(pending[..i] + pending[i + 1..], max)
  {
  }

  lemma SettlePromises(s: State, id: nat, how: How, max: nat)
    requires Promises(s, max)
    ensures Promises(Settle(s, id, how), max)
  {
    hide Accounted, IdsOk, IndexOfId;
    var i := IndexOfId(s.pending, id);
    if i < |s.pending| {
      SettleAccounted(s, id, how);
      IdsRemoved(s.pending, i, max);
      RemovedAt(s.pending, i);
      CallsInRange(s);
    }
  }

  lemma CallsInRange(s: State)
    requires Accounted(s)
    ensures forall i :: 0 <= i < |s.pending| ==> s.pending[i].call < |s.calls|
  {
  }

  lemma GonePromises(s: State, max: nat)
    requires Promises(s, max)
    ensures Promises(WorkerGone(s), max)
  {
    var t := WorkerGone(s);
    var n := |s.settled|;
    assert forall k :: 0 <= k < n ==> t.settled[k] == s.settled[k];
    assert forall k :: 0 <= k < |s.pending| ==> t.settled[n + k] == Settlement(s.pending[k].call, WorkerFailed);
    assert forall k :: n <= k < |t.settled| ==> t.settled[k] == Settlement(s.pending[k - n].call, WorkerFailed);
  }

  lemma PromisesFrame(s: State, t: State, max: nat)
    requires Promises(s, max)
    requires t.requestId == s.requestId && t.pending == s.pending && t.calls == s.calls && t.settled == s.settled
    ensures Promises(t, max)
  {
  }

  lemma PromisesNext(s: State, step: Step, env: Env, max: nat)
    requires Promises(s, max) && Enabled(s, step) && max >= 1
    ensures Promises(Next(s, step, env, max), max)
  {
    hide Promises, Post, Settle, Handle, WorkerGone, Outcome;
    match step
    case CallAssemble(parts) => PostPromises(s, Assemble(parts), env, max);
    case CallUpdate(config) => PostPromises(s, Update(config), env, max);
    case CallShutdown =>
      PromisesFrame(s, s.(shuttingDown := true), max);
      PostPromises(s.(shuttingDown := true), Stop, env, max);
    case TimeOut(id) => SettlePromises(s, id, TimedOut, max);
    case WorkerHandles => HandlePromises(s, env, max);
    case Deliver => DeliverPromises(s, max);
    case WorkerCrash => GonePromises(s, max); PromisesFrame(WorkerGone(s), WorkerGone(s).(open := false), max);
    case WorkerExit => GonePromises(s, max); PromisesFrame(WorkerGone(s), WorkerGone(s).(open := false), max);
    case ShutdownReturns => PromisesFrame(s, s.(available := false, hasWorker := false), max);
  }

  lemma HandlePromises(s: State, env: Env, max: nat)
    requires Promises(s, max) && s.inbox != []
    ensures Promises(Handle(s, env), max)
  {
    hide Promises;
    PromisesFrame(s, Handle(s, env), max);
  }

  lemma DeliverPromises(s: State, max: nat)
    requires Promises(s, max) && s.outbox != []
    ensures Promises(OnMessage(s.(outbox := s.outbox[1..]), s.outbox[0]), max)
  {
    hide Promises, Settle, Outcome;
    var t := s.(outbox := s.outbox[1..]);
    PromisesFrame(s, t, max);
    var i := IndexOfId(t.pending, s.outbox[0].id);
    if i < |t.pending| {
      SettlePromises(t, s.outbox[0].id, Outcome(s.outbox[0].body, t.pending[i].expectsResult), max);
    }
  }

  // ---------------------------------------------------------------- messages

  /** The worker's configuration once it has handled the first n messages. */
  function ConfigAfter(config: Config, inbox: seq<Request>, n: nat, env: Env): Config
    requires n <= |inbox|
  {
    if n == 0 then config
    else
      var before := ConfigAfter(config, inbox, n - 1, env);
      if inbox[n - 1].kind.Update? then Accepted(env, before, inbox[n - 1].kind.config) else before
  }

  /** Messages carry what was asked, in the order asked, and each finds the configuration posted before it. */
  ghost predicate Queued(s: State, env: Env) {
    && (forall i :: 0 <= i < |s.inbox| ==>
          s.inbox[i].call < |s.calls|
          && s.calls[s.inbox[i].call] == Call(s.inbox[i].kind, ConfigAfter(s.config, s.inbox, i, env)))
    && (forall i, j :: 0 <= i < j < |s.inbox| ==> s.inbox[i].call < s.inbox[j].call)
    && ConfigAfter(s.config, s.inbox, |s.inbox|, env) == s.posted
  }

  /** What a reply may say about the call it answers. */
  predicate Truthful(body: Body, call: Call) {
    match body
    case Built(parts, config) => call == Call(Assemble(parts), config)
    case Acknowledged => !call.kind.Assemble?
    case Failed => true
  }

  ghost predicate Answered(s: State) {
    forall i :: 0 <= i < |s.outbox| ==> s.outbox[i].call < |s.calls| && Truthful(s.outbox[i].body, s.calls[s.outbox[i].call])
  }

  lemma {:induction false} ConfigPrefix(config: Config, inbox: seq<Request>, more: seq<Request>, n: nat, env: Env)
    requires n <= |inbox|
    ensures ConfigAfter(config, inbox + more, n, env) == ConfigAfter(config, inbox, n, env)
  {
    if n > 0 {
      ConfigPrefix(config, inbox, more, n - 1, env);
    }
  }

  /** Handling the first message moves it from the queue into the configuration. */
  lemma {:induction false} ConfigTail(config: Config, inbox: seq<Request>, n: nat, env: Env)
    requires n < |inbox|
    ensures ConfigAfter(ConfigAfter(config, inbox, 1, env), inbox[1..], n, env) == ConfigAfter(config, inbox, n + 1, env)
  {
    if n > 0 {
      ConfigTail(config, inbox, n - 1, env);
    } else {
      assert ConfigAfter(ConfigAfter(config, inbox, 1, env), inbox[1..], 0, env) == ConfigAfter(config, inbox, 1, env);
    }
  }

  lemma PostQueued(s: State, kind: Kind, env: Env, max: nat)
    requires Queued(s, env) && Answered(s)
    ensures Queued(Post(s, kind, env, max), env) && Answered(Post(s, kind, env, max))
  {
    hide NextRequestId, ConfigAfter, Truthful;
    var t := Post(s, kind, env, max);
    if NextRequestId(s.requestId, s.pending, max).found {
      var m := t.inbox[|s.inbox|];
      assert t.inbox == s.inbox + [m];
      forall i | 0 <= i <= |s.inbox| ensures ConfigAfter(t.config, t.inbox, i, env) == ConfigAfter(s.config, s.inbox, i, env) {
        ConfigPrefix(s.config, s.inbox, [m], i, env);
      }
      ConfigLast(t.config, t.inbox, env);
      assert forall c :: 0 <= c < |s.calls| ==> t.calls[c] == s.calls[c];
    }
  }

  lemma ConfigLast(config: Config, inbox: seq<Request>, env: Env)
    requires inbox != []
    ensures var n := |inbox| - 1;
            ConfigAfter(config, inbox, |inbox|, env) ==
              if inbox[n].kind.Update? then Accepted(env, ConfigAfter(config, inbox, n, env), inbox[n].kind.config)
              else ConfigAfter(config, inbox, n, env)
  {
  }

  lemma ConfigFirst(config: Config, inbox: seq<Request>, env: Env)
    requires inbox != []
    ensures ConfigAfter(config, inbox, 0, env) == config
    ensures ConfigAfter(config, inbox, 1, env) ==
              if inbox[0].kind.Update? then Accepted(env, config, inbox[0].kind.config) else config
  {
    assert ConfigAfter(config, inbox, 0, env) == config;
  }

  lemma HandleQueued(s: State, env: Env)
    requires Queued(s, env) && Answered(s) && s.inbox != []
    ensures Queued(Handle(s, env), env) && Answered(Handle(s, env))
  {
    hide ConfigAfter, Accepted;
    var t := Handle(s, env);
    ConfigFirst(s.config, s.inbox, env);
    forall i | 0 <= i < |s.inbox| ensures ConfigAfter(t.config, t.inbox, i, env) == ConfigAfter(s.config, s.inbox, i + 1, env) {
      ConfigTail(s.config, s.inbox, i, env);
    }
    assert forall i :: 0 <= i < |t.inbox| ==> t.inbox[i] == s.inbox[i + 1];
  }

  lemma QueuedFrame(s: State, t: State, env: Env)
    requires Queued(s, env) && Answered(s)
    requires t.config == s.config && t.posted == s.posted && t.inbox == s.inbox && t.calls == s.calls
    requires t.outbox == s.outbox || (s.outbox != [] && t.outbox == s.outbox[1..])
    ensures Queued(t, env) && Answered(t)
  {
    hide ConfigAfter, Truthful;
    if t.outbox != s.outbox {
      assert forall i :: 0 <= i < |t.outbox| ==> t.outbox[i] == s.outbox[i + 1];
    }
  }

  lemma QueuedNext(s: State, step: Step, env: Env, max: nat)
    requires Queued(s, env) && Answered(s) && Enabled(s, step)
    ensures Queued(Next(s, step, env, max), env) && Answered(Next(s, step, env, max))
  {
    hide Queued, Answered, Post, Handle, Outcome;
    match step
    case CallAssemble(parts) => PostQueued(s, Assemble(parts), env, max);
    case CallUpdate(config) => PostQueued(s, Update(config), env, max);
    case CallShutdown =>
      QueuedFrame(s, s.(shuttingDown := true), env);
      PostQueued(s.(shuttingDown := true), Stop, env, max);
    case WorkerHandles => HandleQueued(s, env);
    case _ => QueuedFrame(s, Next(s, step, env, max), env);
  }

  // ---------------------------------------------------------------- the stop message

  ghost predicate InQueue(inbox: seq<Request>, call: nat) {
    exists i :: 0 <= i < |inbox| && inbox[i].call == call
  }

  lemma HeadIsOldest(inbox: seq<Request>, call: nat)
    requires inbox != [] && forall i, j :: 0 <= i < j < |inbox| ==> inbox[i].call < inbox[j].call
    ensures InQueue(inbox, call) ==> inbox[0].call <= call
    ensures InQueue(inbox, call) && call != inbox[0].call ==> InQueue(inbox[1..], call)
  {
    if InQueue(inbox, call) && call != inbox[0].call {
      var i :| 0 <= i < |inbox| && inbox[i].call == call;
      assert inbox[1..][i - 1].call == call;
    }
  }

  lemma QueueGrows(inbox: seq<Request>, m: Request, call: nat)
    ensures InQueue(inbox + [m], m.call)
    ensures InQueue(inbox, call) ==> InQueue(inbox + [m], call)
  {
    assert (inbox + [m])[|inbox|] == m;
    if InQueue(inbox, call) {
      var i :| 0 <= i < |inbox| && inbox[i].call == call;
      assert (inbox + [m])[i].call == call;
    }
  }

  /** Replies, and the queue while the port is open, never get past the first stop message. */
  ghost predicate StopIsLast(s: State) {
    && (s.open ==> forall k :: 0 <= k < |s.calls| && s.calls[k].kind.Stop? ==> InQueue(s.inbox, k))
    && (forall i, k :: 0 <= i < |s.outbox| && 0 <= k < s.outbox[i].call && k < |s.calls| ==> !s.calls[k].kind.Stop?)
  }

  lemma PostStop(s: State, kind: Kind, env: Env, max: nat)
    requires StopIsLast(s) && Answered(s)
    ensures StopIsLast(Post(s, kind, env, max))
  {
    hide NextRequestId, Truthful, Accepted, InQueue;
    var t := Post(s, kind, env, max);
    if NextRequestId(s.requestId, s.pending, max).found {
      assert forall c :: 0 <= c < |s.calls| ==> t.calls[c] == s.calls[c];
      forall k | 0 <= k < |t.calls| && t.calls[k].kind.Stop? && t.open ensures InQueue(t.inbox, k) {
        QueueGrows(s.inbox, t.inbox[|s.inbox|], k);
      }
    }
  }

  lemma HandleStop(s: State, env: Env)
    requires StopIsLast(s) && Queued(s, env) && s.inbox != [] && s.open
    ensures StopIsLast(Handle(s, env))
  {
    hide ConfigAfter, Accepted, Answer, InQueue;
    var t, m := Handle(s, env), s.inbox[0];
    forall k | 0 <= k < |s.calls| && s.calls[k].kind.Stop?
      ensures m.call <= k && (k != m.call ==> InQueue(t.inbox, k))
    {
      HeadIsOldest(s.inbox, k);
    }
  }

  lemma StopFrame(s: State, t: State)
    requires StopIsLast(s)
    requires (t.open ==> s.open) && t.inbox == s.inbox && t.calls == s.calls
    requires t.outbox == s.outbox || (s.outbox != [] && t.outbox == s.outbox[1..])
    ensures StopIsLast(t)
  {
    if t.outbox != s.outbox {
      assert forall i :: 0 <= i < |t.outbox| ==> t.outbox[i] == s.outbox[i + 1];
    }
  }

  lemma StopNext(s: State, step: Step, env: Env, max: nat)
    requires StopIsLast(s) && Queued(s, env) && Answered(s) && Enabled(s, step)
    ensures StopIsLast(Next(s, step, env, max))
  {
    hide StopIsLast, Queued, Answered, Post, Handle, Outcome;
    match step
    case CallAssemble(parts) => PostStop(s, Assemble(parts), env, max);
    case CallUpdate(config) => PostStop(s, Update(config), env, max);
    case CallShutdown =>
      StopFrame(s, s.(shuttingDown := true));
      QueuedFrame(s, s.(shuttingDown := true), env);
      PostStop(s.(shuttingDown := true), Stop, env, max);
    case WorkerHandles => HandleStop(s, env);
    case _ => StopFrame(s, Next(s, step, env, max));
  }

  // ---------------------------------------------------------------- ids in one cycle

  /** A message under way whose id is pending belongs to that very promise. */
  ghost predicate Matched(s: State) {
    && (forall i, k :: 0 <= i < |s.inbox| && 0 <= k < |s.pending| && s.pending[k].id == s.inbox[i].id ==>
          s.pending[k].call == s.inbox[i].call)
    && (forall i, k :: 0 <= i < |s.outbox| && 0 <= k < |s.pending| && s.pending[k].id == s.outbox[i].id ==>
          s.pending[k].call == s.outbox[i].call)
  }

  lemma PostWindow(s: State, kind: Kind, env: Env, max: nat)
    requires Promises(s, max) && max >= 1 && Windowed(s, max)
    ensures Windowed(Post(s, kind, env, max), max)
  {
    hide NextRequestId, Accounted, Dated, Accepted;
    IdFoundIff(s.requestId, s.pending, max);
    var p := NextRequestId(s.requestId, s.pending, max);
    var t := Post(s, kind, env, max);
    forall i | 0 <= i < |s.inbox| ensures Dated(s.inbox[i].id, s.inbox[i].ticket, t, max) {
      DatedMoves(s.inbox[i].id, s.inbox[i].ticket, s, t, p.looked, max);
    }
    forall i | 0 <= i < |s.outbox| ensures Dated(s.outbox[i].id, s.outbox[i].ticket, t, max) {
      DatedMoves(s.outbox[i].id, s.outbox[i].ticket, s, t, p.looked, max);
    }
    if p.found {
      assert forall i :: 0 <= i < |s.inbox| ==> t.inbox[i] == s.inbox[i];
      DatedNow(t, max);
    }
  }

  lemma DatedNow(t: State, max: nat)
    requires t.requestId >= 1
    ensures Dated(t.requestId, t.ticket, t, max)
  {
  }

  /** A message with this id is in one of the queues. */
  ghost predicate UnderWay(s: State, id: nat) {
    || (exists i :: 0 <= i < |s.inbox| && s.inbox[i].id == id)
    || (exists i :: 0 <= i < |s.outbox| && s.outbox[i].id == id)
  }

  /** Only messages of posted calls are under way. */
  ghost predicate Posted(s: State) {
    && (forall i :: 0 <= i < |s.inbox| ==> s.inbox[i].call < |s.calls|)
    && (forall i :: 0 <= i < |s.outbox| ==> s.outbox[i].call < |s.calls|)
  }

  /** The exact guard: posting keeps messages and promises matched if and only if no message under way carries the id chosen. */
  lemma PostMatchedIff(s: State, kind: Kind, env: Env, max: nat)
    requires Promises(s, max) && max >= 1 && Posted(s) && Matched(s) && NextRequestId(s.requestId, s.pending, max).found
    ensures Matched(Post(s, kind, env, max)) <==> !UnderWay(s, NextRequestId(s.requestId, s.pending, max).counter)
  {
    hide NextRequestId, Accounted, Accepted;
    IdFoundIff(s.requestId, s.pending, max);
    var p := NextRequestId(s.requestId, s.pending, max);
    var t := Post(s, kind, env, max);
    assert forall i :: 0 <= i < |s.inbox| ==> t.inbox[i] == s.inbox[i];
    assert forall k :: 0 <= k < |s.pending| ==> t.pending[k] == s.pending[k] && s.pending[k].id != p.counter;
    assert t.pending[|s.pending|].id == p.counter && t.pending[|s.pending|].call == |s.calls|;
    if Matched(t) {
      forall i | 0 <= i < |s.inbox| ensures s.inbox[i].id != p.counter { assert t.inbox[i].call < |s.calls|; }
      forall i | 0 <= i < |s.outbox| ensures s.outbox[i].id != p.counter { assert t.outbox[i].call < |s.calls|; }
    }
  }

  /** Within one round of the ids the guard holds of itself. */
  lemma PostTimely(s: State, kind: Kind, env: Env, max: nat)
    requires Promises(s, max) && max >= 1 && Windowed(s, max) && NextRequestId(s.requestId, s.pending, max).found
    requires Timely(Post(s, kind, env, max), max)
    ensures !UnderWay(s, NextRequestId(s.requestId, s.pending, max).counter)
  {
    hide NextRequestId, Accounted, Dated, Accepted;
    IdFoundIff(s.requestId, s.pending, max);
    var p := NextRequestId(s.requestId, s.pending, max);
    var t := Post(s, kind, env, max);
    assert forall i :: 0 <= i < |s.inbox| ==> t.inbox[i] == s.inbox[i];
    forall i | 0 <= i < |s.inbox| ensures s.inbox[i].id != p.counter {
      assert t.ticket - t.inbox[i].ticket < max;
      DatedMoves(s.inbox[i].id, s.inbox[i].ticket, s, t, p.looked, max);
    }
    forall i | 0 <= i < |s.outbox| ensures s.outbox[i].id != p.counter {
      DatedMoves(s.outbox[i].id, s.outbox[i].ticket, s, t, p.looked, max);
    }
  }

  lemma HandleMatched(s: State, env: Env, max: nat)
    requires Windowed(s, max) && s.inbox != []
    ensures (Matched(s) ==> Matched(Handle(s, env))) && Windowed(Handle(s, env), max)
  {
    hide Accepted, Answer, Dated;
    var t := Handle(s, env);
    DatedSame(s, t, max);
    assert forall i :: 0 <= i < |t.inbox| ==> t.inbox[i] == s.inbox[i + 1];
    assert forall i :: 0 <= i < |s.outbox| ==> t.outbox[i] == s.outbox[i];
    assert t.outbox[|s.outbox|].id == s.inbox[0].id && t.outbox[|s.outbox|].ticket == s.inbox[0].ticket;
  }

  lemma DatedSame(s: State, t: State, max: nat)
    requires t.ticket == s.ticket && t.requestId == s.requestId
    ensures forall id, ticket :: Dated(id, ticket, s, max) <==> Dated(id, ticket, t, max)
  {
  }

  lemma SettleMatched(s: State, id: nat, how: How, max: nat)
    requires Windowed(s, max)
    ensures (Matched(s) ==> Matched(Settle(s, id, how))) && Windowed(Settle(s, id, how), max)
  {
    hide Dated;
    var i := IndexOfId(s.pending, id);
    var t := Settle(s, id, how);
    DatedSame(s, t, max);
    if i < |s.pending| {
      assert forall k :: 0 <= k < |t.pending| ==> t.pending[k] == s.pending[if k < i then k else k + 1];
    }
  }

  lemma MatchedFrame(s: State, t: State, max: nat)
    requires Windowed(s, max)
    requires t.ticket == s.ticket && t.requestId == s.requestId && t.inbox == s.inbox
    requires t.pending == s.pending || t.pending == []
    requires t.outbox == s.outbox || (s.outbox != [] && t.outbox == s.outbox[1..])
    ensures (Matched(s) ==> Matched(t)) && Windowed(t, max)
  {
    hide Dated;
    DatedSame(s, t, max);
    if t.outbox != s.outbox {
      assert forall i :: 0 <= i < |t.outbox| ==> t.outbox[i] == s.outbox[i + 1];
    }
  }

  /** The step posts a message. */
  predicate Posts(s: State, step: Step) {
    match step
    case CallAssemble(_) => s.hasWorker && s.available
    case CallUpdate(_) => s.hasWorker && s.available && !s.shuttingDown
    case CallShutdown => s.hasWorker
    case _ => false
  }

  /** If the step posts a message, no other message under way carries the id it takes. */
  ghost predicate FreshId(s: State, step: Step, max: nat) {
    var p := NextRequestId(s.requestId, s.pending, max);
    Posts(s, step) && p.found ==> !UnderWay(s, p.counter)
  }

  lemma PostNotFound(s: State, kind: Kind, env: Env, max: nat)
    requires !NextRequestId(s.requestId, s.pending, max).found
    ensures Matched(s) ==> Matched(Post(s, kind, env, max))
  {
    hide NextRequestId;
  }

  lemma PostCase(s: State, kind: Kind, env: Env, max: nat)
    requires Promises(s, max) && max >= 1 && Windowed(s, max) && Posted(s)
    ensures var p := NextRequestId(s.requestId, s.pending, max); var t := Post(s, kind, env, max);
            && Windowed(t, max)
            && (Matched(s) ==> (Matched(t) <==> (p.found ==> !UnderWay(s, p.counter))))
            && (Timely(t, max) ==> (p.found ==> !UnderWay(s, p.counter)))
  {
    hide Promises, Matched, Windowed, Timely, UnderWay, Posted, NextRequestId, Post;
    PostWindow(s, kind, env, max);
    var p := NextRequestId(s.requestId, s.pending, max);
    if p.found {
      if Matched(s) { PostMatchedIff(s, kind, env, max); }
      if Timely(Post(s, kind, env, max), max) { PostTimely(s, kind, env, max); }
    } else {
      PostNotFound(s, kind, env, max);
    }
  }

  lemma ShuttingDownSame(s: State, max: nat)
    ensures var t := s.(shuttingDown := true);
            && (Posted(t) <==> Posted(s)) && (Matched(t) <==> Matched(s))
            && (forall id :: UnderWay(t, id) <==> UnderWay(s, id))
  {
  }

  /** In every step: the ids keep their window, and messages stay matched if and only if the step takes a fresh id. */
  lemma MatchedNextIff(s: State, step: Step, env: Env, max: nat)
    requires Promises(s, max) && max >= 1 && Windowed(s, max) && Posted(s) && Enabled(s, step)
    ensures var t := Next(s, step, env, max);
            && Windowed(t, max)
            && (Matched(s) ==> (Matched(t) <==> FreshId(s, step, max)))
            && (Timely(t, max) ==> FreshId(s, step, max))
  {
    hide Promises, Matched, Windowed, Timely, UnderWay, Posted, Post, Settle, Handle, Outcome, NextRequestId;
    match step
    case CallAssemble(parts) => PostCase(s, Assemble(parts), env, max);
    case CallUpdate(config) => PostCase(s, Update(config), env, max);
    case CallShutdown =>
      var t := s.(shuttingDown := true);
      MatchedFrame(s, t, max);
      PromisesFrame(s, t, max);
      ShuttingDownSame(s, max);
      PostCase(t, Stop, env, max);
    case TimeOut(id) => SettleMatched(s, id, TimedOut, max);
    case WorkerHandles => HandleMatched(s, env, max);
    case Deliver =>
      var t := s.(outbox := s.outbox[1..]);
      MatchedFrame(s, t, max);
      var i := IndexOfId(t.pending, s.outbox[0].id);
      if i < |t.pending| { SettleMatched(t, s.outbox[0].id, Outcome(s.outbox[0].body, t.pending[i].expectsResult), max); }
    case _ => MatchedFrame(s, Next(s, step, env, max), max);
  }
}
