/**
  PackageAssemblyDispatcher and the worker's message loop as the objects they are, sharing a port.
  Each method is one step of the protocol.
*/
module AssemblyDispatchers {
  import opened Wrappers
  import opened Dispatch

  /** The two directions of the message port. */
  class Port {
    var toWorker: seq<Request>
    var toParent: seq<Reply>

    constructor ()
      ensures toWorker == [] && toParent == []
    {
      toWorker, toParent := [], [];
    }
  }

  class PackageAssemblyWorker {
    const port: Port
    var config: Config
    var open: bool

    constructor (port: Port, config: Config)
      ensures this.port == port && this.config == config && open
    {
      this.port := port;
      this.config := config;
      open := true;
    }

    /** The message handler: answer, and on shutdown close the port. */
    method OnMessage(env: Env, ghost d: PackageAssemblyDispatcher)
      requires d.port == port && open && port.toWorker != []
      modifies this, port
      ensures d.View(this) == Handle(old(d.View(this)), env)
    {
      var message := port.toWorker[0];
      port.toWorker := port.toWorker[1..];
      var id, ticket, call := message.id, message.ticket, message.call;
      match message.kind
      case Stop =>
        port.toParent := port.toParent + [Reply(id, ticket, call, Acknowledged)];
        open := false;
      case Update(next) =>
        if env.resolves(next) {
          config := next;
          port.toParent := port.toParent + [Reply(id, ticket, call, Acknowledged)];
        } else {
          port.toParent := port.toParent + [Reply(id, ticket, call, Failed)];
        }
      case Assemble(parts) =>
        if env.builds(parts, config) {
          port.toParent := port.toParent + [Reply(id, ticket, call, Built(parts, config))];
        } else {
          port.toParent := port.toParent + [Reply(id, ticket, call, Failed)];
        }
    }
  }

  /** What a caller gets back at once. */
  datatype Started = Unavailable | Done | TooManyInFlight | Promised(call: nat)

  class PackageAssemblyDispatcher {
    const port: Port
    var worker: bool
    var available: bool
    var shuttingDown: bool
    var requestId: nat
    var pending: seq<Pending>
    var workerDataConfig: Config
    /** What an observer notes: ids tried, the configuration posted, promises made and settled. */
    var ticket: nat
    var posted: Config
    var calls: seq<Call>
    var settled: seq<Settlement>

    ghost function View(w: PackageAssemblyWorker): State
      reads this, port, w
    {
      State(worker, available, shuttingDown, requestId, pending, port.toWorker, port.toParent, w.open, w.config,
            ticket, posted, calls, settled)
    }

    /** A worker that could not be created leaves the dispatcher unavailable. */
    constructor (port: Port, config: Config, created: bool)
      ensures this.port == port && worker == created && available == created && !shuttingDown
      ensures requestId == 0 && pending == [] && workerDataConfig == config && settled == []
      ensures ticket == 0 && posted == config && calls == []
    {
      this.port := port;
      worker, available, shuttingDown := created, created, false;
      requestId, pending, workerDataConfig, settled := 0, [], config, [];
      ticket, posted, calls := 0, config, [];
    }

    /** Tries one candidate more than there are pending requests. */
    method NextRequestId() returns (id: Option<nat>)
      modifies `requestId, `ticket
      ensures var p := Dispatch.NextRequestId(old(requestId), pending, REQUEST_ID_MAX);
              && requestId == p.counter && ticket == old(ticket) + p.looked
              && id == if p.found then Some(p.counter) else None
    {
      var probe := 0;
      while probe <= |pending|
        invariant probe <= |pending| + 1 && ticket == old(ticket) + probe
        invariant var rest := Probe(requestId, pending, |pending| + 1 - probe, REQUEST_ID_MAX);
                  Dispatch.NextRequestId(old(requestId), pending, REQUEST_ID_MAX) == rest.(looked := rest.looked + probe)
      {
        requestId := requestId + 1;
        ticket := ticket + 1;
        if requestId > REQUEST_ID_MAX {
          requestId := 1;
        }
        var taken := exists i :: 0 <= i < |pending| && pending[i].id == requestId;
        if !taken {
          return Some(requestId);
        }
        probe := probe + 1;
      }
      return None;
    }

    /** The promise's executor: remember the promise under its id, then post the message. */
    method Register(id: nat, kind: Kind, env: Env) returns (call: nat)
      modifies `pending, `calls, `posted, port`toWorker
      ensures call == |old(calls)| && calls == old(calls) + [Call(kind, old(posted))]
      ensures pending == old(pending) + [Pending(id, call, kind.Assemble?)]
      ensures port.toWorker == old(port.toWorker) + [Request(id, ticket, call, kind)]
      ensures posted == if kind.Update? then Accepted(env, old(posted), kind.config) else old(posted)
    {
      call := |calls|;
      pending := pending + [Pending(id, call, kind.Assemble?)];
      port.toWorker := port.toWorker + [Request(id, ticket, call, kind)];
      calls := calls + [Call(kind, posted)];
      if kind.Update? {
        posted := Accepted(env, posted, kind.config);
      }
    }

    method Assemble(parts: Parts, env: Env, ghost w: PackageAssemblyWorker) returns (r: Started)
      requires w.port == port
      modifies `requestId, `ticket, `pending, `calls, `posted, port`toWorker
      ensures View(w) == Next(old(View(w)), CallAssemble(parts), env, REQUEST_ID_MAX)
      ensures r.Promised? <==> |calls| == |old(calls)| + 1
    {
      hide Dispatch.NextRequestId, Accepted;
      if !worker || !available {
        return Unavailable;
      }
      var id := NextRequestId();
      if id.None? {
        return TooManyInFlight;
      }
      var call := Register(id.value, Kind.Assemble(parts), env);
      return Promised(call);
    }

    method UpdateConfig(config: Config, env: Env, ghost w: PackageAssemblyWorker) returns (r: Started)
      requires w.port == port
      modifies `workerDataConfig, `requestId, `ticket, `pending, `calls, `posted, port`toWorker
      ensures View(w) == Next(old(View(w)), CallUpdate(config), env, REQUEST_ID_MAX) && workerDataConfig == config
      ensures r.Promised? <==> |calls| == |old(calls)| + 1
    {
      hide Dispatch.NextRequestId, Accepted;
      workerDataConfig := config;
      if !worker || !available || shuttingDown {
        return Done;
      }
      var id := NextRequestId();
      if id.None? {
        return TooManyInFlight;
      }
      var call := Register(id.value, Update(config), env);
      return Promised(call);
    }

    /** shutdown up to its await. */
    method Shutdown(env: Env, ghost w: PackageAssemblyWorker) returns (r: Started)
      requires w.port == port
      modifies `shuttingDown, `requestId, `ticket, `pending, `calls, `posted, port`toWorker
      ensures View(w) == Next(old(View(w)), CallShutdown, env, REQUEST_ID_MAX)
      ensures r.Promised? <==> |calls| == |old(calls)| + 1
    {
      hide Dispatch.NextRequestId, Accepted;
      shuttingDown := true;
      if !worker {
        return Done;
      }
      var id := NextRequestId();
      if id.None? {
        return TooManyInFlight;
      }
      var call := Register(id.value, Stop, env);
      return Promised(call);
    }

    /** The rest of shutdown, once the stop message is answered or given up on. */
    method ShutdownReturns(env: Env, ghost w: PackageAssemblyWorker)
      requires w.port == port && shuttingDown
      modifies `available, `worker
      ensures View(w) == Next(old(View(w)), Step.ShutdownReturns, env, REQUEST_ID_MAX)
    {
      available := false;
      worker := false;
    }

    /** pending.delete and the promise's resolve or reject. */
    method SettleAt(i: nat, how: How)
      requires i < |pending|
      modifies `pending, `settled
      ensures pending == old(pending)[..i] + old(pending)[i + 1..]
      ensures settled == old(settled) + [Settlement(old(pending)[i].call, how)]
    {
      var call := pending[i].call;
      pending := pending[..i] + pending[i + 1..];
      settled := settled + [Settlement(call, how)];
    }

    /** A request's timer fires; settling a promise any other way clears its timer. */
    method OnTimeout(id: nat, env: Env, ghost w: PackageAssemblyWorker)
      requires w.port == port && IsPending(pending, id)
      modifies `pending, `settled
      ensures View(w) == Next(old(View(w)), TimeOut(id), env, REQUEST_ID_MAX)
    {
      var i := IndexOfId(pending, id);
      SettleAt(i, TimedOut);
    }

    method OnMessage(env: Env, ghost w: PackageAssemblyWorker)
      requires w.port == port && port.toParent != []
      modifies `pending, `settled, port`toParent
      ensures View(w) == Next(old(View(w)), Deliver, env, REQUEST_ID_MAX)
    {
      hide IndexOfId;
      var message := port.toParent[0];
      port.toParent := port.toParent[1..];
      var i := IndexOfId(pending, message.id);
      if i == |pending| {
        return;
      }
      var expectsResult := pending[i].expectsResult;
      if message.body.Failed? {
        SettleAt(i, ErrorReply);
        return;
      }
      if expectsResult && !message.body.Built? {
        SettleAt(i, NoResult);
        return;
      }
      SettleAt(i, Resolved(message.body));
    }

    /** Rejects every pending promise, oldest first. */
    method FailPending()
      modifies `pending, `settled
      ensures pending == [] && settled == old(settled) + Failures(old(pending))
    {
      ghost var n := 0;
      while |pending| > 0
        invariant n <= |old(pending)| && pending == old(pending)[n..]
        invariant settled == old(settled) + Failures(old(pending))[..n]
        decreases |pending|
      {
        settled := settled + [Settlement(pending[0].call, WorkerFailed)];
        pending := pending[1..];
        n := n + 1;
      }
      assert Failures(old(pending))[..n] == Failures(old(pending));
    }

    method OnError(env: Env, w: PackageAssemblyWorker)
      requires w.port == port
      modifies `pending, `settled, `available, `worker, w`open
      ensures View(w) == Next(old(View(w)), WorkerCrash, env, REQUEST_ID_MAX)
    {
      FailPending();
      available := false;
      worker := false;
      w.open := false;
    }

    method OnExit(env: Env, w: PackageAssemblyWorker)
      requires w.port == port
      modifies `pending, `settled, `available, `worker, w`open
      ensures View(w) == Next(old(View(w)), WorkerExit, env, REQUEST_ID_MAX)
    {
      if |pending| > 0 {
        FailPending();
      }
      available := false;
      worker := false;
      w.open := false;
    }
  }
}
