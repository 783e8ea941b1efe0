/**
  Package assembly across a worker port as a step system: callers, two FIFO queues, the worker's
  message loop, timers, worker failure and shutdown.  max is the largest request id, 2^31 - 1 in
  the code; the properties hold for any.
*/
module Dispatch {
  const REQUEST_ID_MAX: nat := 0x7fffffff

  type Parts = nat
  type Config = nat

  datatype Kind = Assemble(parts: Parts) | Update(config: Config) | Stop

  /** call numbers a caller's promise and ticket the probe that found the id; the code sends only id and kind. */
  datatype Request = Request(id: nat, ticket: nat, call: nat, kind: Kind)

  datatype Body = Acknowledged | Built(parts: Parts, config: Config) | Failed

  datatype Reply = Reply(id: nat, ticket: nat, call: nat, body: Body)

  /** An entry of the pending map, which keeps insertion order. */
  datatype Pending = Pending(id: nat, call: nat, expectsResult: bool)

  datatype How = Resolved(body: Body) | TimedOut | ErrorReply | NoResult | WorkerFailed

  datatype Settlement = Settlement(call: nat, how: How)

  /** What was asked, and the configuration the worker should have when it gets there. */
  datatype Call = Call(kind: Kind, config: Config)

  /** Which configurations the worker can resolve, and which packages it can build. */
  datatype Env = Env(resolves: Config -> bool, builds: (Parts, Config) -> bool)

  datatype State = State(
    hasWorker: bool, available: bool, shuttingDown: bool, requestId: nat, pending: seq<Pending>,
    inbox: seq<Request>, outbox: seq<Reply>, open: bool, config: Config,
    ticket: nat, posted: Config, calls: seq<Call>, settled: seq<Settlement>)

  datatype Step =
    | CallAssemble(parts: Parts)
    | CallUpdate(config: Config)
    | CallShutdown
    | TimeOut(id: nat)
    | WorkerHandles
    | Deliver
    | WorkerCrash
    | WorkerExit
    | ShutdownReturns

  // ---------------------------------------------------------------- request ids

  predicate IsPending(pending: seq<Pending>, id: nat) {
    exists i :: 0 <= i < |pending| && pending[i].id == id
  }

  function NextCounter(counter: nat, max: nat): nat {
    if counter + 1 > max then 1 else counter + 1
  }

  /** Where the probing ended: the counter, how many ids it looked at, and whether the last was free. */
  datatype Probed = Probed(counter: nat, looked: nat, found: bool)

  function Probe(counter: nat, pending: seq<Pending>, tries: nat, max: nat): Probed
    decreases tries
  {
    if tries == 0 then Probed(counter, 0, false)
    else
      var next := NextCounter(counter, max);
      if !IsPending(pending, next) then Probed(next, 1, true)
      else var rest := Probe(next, pending, tries - 1, max); rest.(looked := rest.looked + 1)
  }

  function NextRequestId(counter: nat, pending: seq<Pending>, max: nat): Probed {
    Probe(counter, pending, |pending| + 1, max)
  }

  // ---------------------------------------------------------------- the dispatcher

  /** The configuration the worker ends up with when it is sent this one. */
  function Accepted(env: Env, config: Config, next: Config): Config {
    if env.resolves(next) then next else config
  }

  /** Takes an id, remembers the promise and posts the message; too many in flight throws instead. */
  function Post(s: State, kind: Kind, env: Env, max: nat): State {
    var p := NextRequestId(s.requestId, s.pending, max);
    var t := s.(requestId := p.counter, ticket := s.ticket + p.looked);
    if !p.found then t
    else
      var call := |s.calls|;
      t.(pending := s.pending + [Pending(p.counter, call, kind.Assemble?)],
         inbox := s.inbox + [Request(p.counter, t.ticket, call, kind)],
         posted := if kind.Update? then Accepted(env, s.posted, kind.config) else s.posted,
         calls := s.calls + [Call(kind, s.posted)])
  }

  function IndexOfId(pending: seq<Pending>, id: nat): (i: nat)
    ensures i <= |pending|
    ensures i < |pending| ==> pending[i].id == id
    ensures forall k :: 0 <= k < i ==> pending[k].id != id
  {
    if pending == [] || pending[0].id == id then 0 else 1 + IndexOfId(pending[1..], id)
  }

  /** Removes the pending entry with this id, if any, and settles its promise. */
  function Settle(s: State, id: nat, how: How): State {
    var i := IndexOfId(s.pending, id);
    if i == |s.pending| then s
    else s.(pending := s.pending[..i] + s.pending[i + 1..], settled := s.settled + [Settlement(s.pending[i].call, how)])
  }

  /** How the message handler settles a promise. */
  function Outcome(body: Body, expectsResult: bool): How {
    if body.Failed? then ErrorReply
    else if expectsResult && !body.Built? then NoResult
    else Resolved(body)
  }

  function OnMessage(s: State, r: Reply): State {
    var i := IndexOfId(s.pending, r.id);
    if i == |s.pending| then s else Settle(s, r.id, Outcome(r.body, s.pending[i].expectsResult))
  }

  function Failures(pending: seq<Pending>): (s: seq<Settlement>)
    ensures |s| == |pending|
  {
    seq(|pending|, i requires 0 <= i < |pending| => Settlement(pending[i].call, WorkerFailed))
  }

  /** The error and exit events: every pending promise is rejected and the worker is forgotten. */
  function WorkerGone(s: State): State {
    s.(settled := s.settled + Failures(s.pending), pending := [], available := false, hasWorker := false)
  }

  // ---------------------------------------------------------------- the worker

  function Answer(m: Request, config: Config, env: Env): Body {
    match m.kind
    case Stop => Acknowledged
    case Update(next) => if env.resolves(next) then Acknowledged else Failed
    case Assemble(parts) => if env.builds(parts, config) then Built(parts, config) else Failed
  }

  /** One turn of the worker's loop; a stop message closes the port. */
  function Handle(s: State, env: Env): State
    requires s.inbox != []
  {
    var m := s.inbox[0];
    s.(inbox := s.inbox[1..],
       outbox := s.outbox + [Reply(m.id, m.ticket, m.call, Answer(m, s.config, env))],
       config := if m.kind.Update? then Accepted(env, s.config, m.kind.config) else s.config,
       open := s.open && !m.kind.Stop?)
  }

  // ---------------------------------------------------------------- steps

  predicate Enabled(s: State, step: Step) {
    match step
    case TimeOut(id) => IsPending(s.pending, id)
    case WorkerHandles => s.open && s.inbox != []
    case Deliver => s.outbox != []
    case ShutdownReturns => s.shuttingDown
    case _ => true
  }

  function Next(s: State, step: Step, env: Env, max: nat): State
    requires Enabled(s, step)
  {
    match step
    case CallAssemble(parts) => if !s.hasWorker || !s.available then s else Post(s, Assemble(parts), env, max)
    case CallUpdate(config) => if !s.hasWorker || !s.available || s.shuttingDown then s else Post(s, Update(config), env, max)
    case CallShutdown =>
      var t := s.(shuttingDown := true);
      if !s.hasWorker then t else Post(t, Stop, env, max)
    case TimeOut(id) => Settle(s, id, TimedOut)
    case WorkerHandles => Handle(s, env)
    case Deliver => OnMessage(s.(outbox := s.outbox[1..]), s.outbox[0])
    case WorkerCrash => WorkerGone(s).(open := false)
    case WorkerExit => WorkerGone(s).(open := false)
    case ShutdownReturns => s.(available := false, hasWorker := false)
  }

  function Start(config: Config): State {
    State(true, true, false, 0, [], [], [], true, config, 0, config, [], [])
  }

  ghost predicate Follows(s: State, step: Step, t: State, env: Env, max: nat) {
    Enabled(s, step) && t == Next(s, step, env, max)
  }

  ghost predicate IsRun(states: seq<State>, steps: seq<Step>, config: Config, env: Env, max: nat) {
    && |states| == |steps| + 1 && states[0] == Start(config)
    && forall i :: 0 <= i < |steps| ==> Follows(states[i], steps[i], states[i + 1], env, max)
  }
}
