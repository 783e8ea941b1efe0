/**
  Runs of many services that stamp events, exchange headers and merge clocks.  The headers are
  the very strings that format prints and parse reads; a delivery may be late, repeated or spoilt
  by a bad traceparent.  The one theorem is Lamport's: what happens before carries the smaller
  stamp.
*/
module LamportRuns {
  import opened Wrappers
  import opened EventClocks
  import opened RequestContexts
  import Tracestates
  import Traceparents

  datatype Event = Event(svc: nat, seqNo: int)

  /** A header written by svc when its clock read value and the log had length before. */
  datatype Message = Message(svc: nat, text: string, value: int, before: nat, slotted: bool)

  /** A request context; from names the message whose header it got, since its materialization. */
  datatype Context = Context(svc: nat, traceparent: Option<string>, tracestate: Option<string>,
                             from: Option<nat>, since: Option<nat>, inherited: seq<string>)

  datatype System = System(clocks: seq<int>, log: seq<Event>, sent: seq<Message>, contexts: seq<Context>)

  datatype Step =
    | Stamp(svc: nat)
    | Accept(svc: nat, from: Option<nat>, traceparent: Option<string>, tracestate: Option<string>)
    | Materialize(ctx: nat)
    | Outbound(ctx: nat, slotted: bool)

  function Init(services: nat): System {
    System(seq(services, _ => 0), [], [], [])
  }

  predicate Enabled(s: System, step: Step) {
    match step
    case Stamp(svc) => svc < |s.clocks|
    case Accept(svc, from, _, tracestate) =>
      svc < |s.clocks| && (from.Some? ==> from.value < |s.sent| && tracestate == Some(s.sent[from.value].text))
    case Materialize(ctx) => ctx < |s.contexts| && s.contexts[ctx].svc < |s.clocks|
    case Outbound(ctx, _) => ctx < |s.contexts| && s.contexts[ctx].svc < |s.clocks|
  }

  function DoStamp(s: System, svc: nat): System
    requires svc < |s.clocks|
  {
    var n := TickOf(s.clocks[svc]);
    s.(clocks := s.clocks[svc := n], log := s.log + [Event(svc, n)])
  }

  function DoMaterialize(s: System, ctx: nat, vendorKey: string): System
    requires Enabled(s, Materialize(ctx))
  {
    var c := s.contexts[ctx];
    if c.since.Some? then s
    else
      var inherited := Tracestates.Parse(Accepted(c.traceparent, c.tracestate), vendorKey).inheritedEntries;
      s.(clocks := s.clocks[c.svc := ClockAfter(s.clocks[c.svc], c.traceparent, c.tracestate, vendorKey)],
         contexts := s.contexts[ctx := c.(since := Some(|s.log|), inherited := inherited)])
  }

  /** The header is written and, for a recorded request, the outbound slot stamped at once. */
  function DoSend(s: System, ctx: nat, slotted: bool, vendorKey: string): System
    requires Enabled(s, Materialize(ctx)) && 0 <= s.clocks[s.contexts[ctx].svc]
  {
    var c := s.contexts[ctx];
    var value := s.clocks[c.svc];
    var text := Tracestates.Format(value, c.inherited, vendorKey);
    var written := s.(sent := s.sent + [Message(c.svc, text, value, |s.log|, slotted)]);
    if slotted then DoStamp(written, c.svc) else written
  }

  /** The facts every run keeps; vk is the vendor key all services share. */
  ghost predicate Inv(s: System, vk: string) {
    && (forall v :: 0 <= v < |s.clocks| ==> 0 <= s.clocks[v] <= MAX_SAFE_INTEGER)
    && (forall i :: 0 <= i < |s.log| ==> EventOk(s, i))
    && (forall i, j :: 0 <= i < j < |s.log| && s.log[i].svc == s.log[j].svc ==> Later(s.log[i].seqNo, s.log[j].seqNo))
    && (forall m :: 0 <= m < |s.sent| ==> MessageOk(s, m, vk))
    && (forall c :: 0 <= c < |s.contexts| ==> ContextOk(s, c, vk))
  }

  /** b is after a, or the clock that gave b was pinned at its ceiling. */
  predicate Later(a: int, b: int) {
    a < b || b == MAX_SAFE_INTEGER
  }

  ghost predicate EventOk(s: System, i: nat)
    requires i < |s.log|
  {
    s.log[i].svc < |s.clocks| && 1 <= s.log[i].seqNo <= s.clocks[s.log[i].svc]
  }

  ghost predicate MessageOk(s: System, m: nat, vk: string)
    requires m < |s.sent|
  {
    var msg := s.sent[m];
    && msg.svc < |s.clocks| && 0 <= msg.value <= s.clocks[msg.svc] && msg.before <= |s.log|
    && (forall i :: 0 <= i < msg.before && s.log[i].svc == msg.svc ==> s.log[i].seqNo <= msg.value)
    && (msg.slotted ==> msg.before < |s.log| && s.log[msg.before] == Event(msg.svc, TickOf(msg.value)))
    && Tracestates.Parse(Some(msg.text), vk).receivedSeq == if msg.value >= 1 then Some(msg.value) else None
  }

  ghost predicate ContextOk(s: System, c: nat, vk: string)
    requires c < |s.contexts|
  {
    var ctx := s.contexts[c];
    && ctx.svc < |s.clocks|
    && (forall k :: 0 <= k < |ctx.inherited| ==> Tracestates.IsInherited(ctx.inherited[k], vk))
    && (ctx.from.Some? ==> ctx.from.value < |s.sent| && ctx.tracestate == Some(s.sent[ctx.from.value].text))
    && (ctx.since.Some? ==> ctx.since.value <= |s.log|)
    && (ctx.since.Some? && ctx.from.Some? && Traceparents.Parse(ctx.traceparent).Some? && s.sent[ctx.from.value].value >= 1 ==>
          var bound := TickOf(s.sent[ctx.from.value].value);
          && bound <= s.clocks[ctx.svc]
          && forall j :: ctx.since.value <= j < |s.log| && s.log[j].svc == ctx.svc ==> Later(bound, s.log[j].seqNo))
  }

  ghost predicate Next(s: System, step: Step, t: System, vk: string) {
    && Enabled(s, step)
    && match step
       case Stamp(svc) => t == DoStamp(s, svc)
       case Accept(svc, from, traceparent, tracestate) =>
         t == s.(contexts := s.contexts + [Context(svc, traceparent, tracestate, from, None, [])])
       case Materialize(ctx) => t == DoMaterialize(s, ctx, vk)
       case Outbound(ctx, slotted) =>
         var u := DoMaterialize(s, ctx, vk);
         Enabled(u, Materialize(ctx)) && 0 <= u.clocks[u.contexts[ctx].svc] && t == DoSend(u, ctx, slotted, vk)
  }

  // ---------------------------------------------------------------- every step keeps the facts

  lemma InitInv(services: nat, vk: string)
    ensures Inv(Init(services), vk)
  {
  }

  lemma StampInv(s: System, svc: nat, vk: string)
    requires Inv(s, vk) && svc < |s.clocks|
    ensures Inv(DoStamp(s, svc), vk)
  {
    var t := DoStamp(s, svc);
    forall i | 0 <= i < |t.log| ensures EventOk(t, i) {
      if i < |s.log| { assert EventOk(s, i); }
    }
    forall i, j | 0 <= i < j < |t.log| && t.log[i].svc == t.log[j].svc ensures Later(t.log[i].seqNo, t.log[j].seqNo) {
      assert EventOk(s, i);
    }
    forall m | 0 <= m < |t.sent| ensures MessageOk(t, m, vk) {
      assert MessageOk(s, m, vk);
    }
    forall c | 0 <= c < |t.contexts| ensures ContextOk(t, c, vk) {
      assert ContextOk(s, c, vk);
    }
  }

  /** Raising one clock disturbs nothing. */
  lemma RaiseInv(s: System, svc: nat, value: int, vk: string)
    requires Inv(s, vk) && svc < |s.clocks| && s.clocks[svc] <= value <= MAX_SAFE_INTEGER
    ensures Inv(s.(clocks := s.clocks[svc := value]), vk)
  {
    var t := s.(clocks := s.clocks[svc := value]);
    forall i | 0 <= i < |t.log| ensures EventOk(t, i) {
      assert EventOk(s, i);
    }
    forall m | 0 <= m < |t.sent| ensures MessageOk(t, m, vk) {
      assert MessageOk(s, m, vk);
    }
    forall c | 0 <= c < |t.contexts| ensures ContextOk(t, c, vk) {
      assert ContextOk(s, c, vk);
    }
  }

  /** Replacing or adding one context disturbs nothing else. */
  lemma ContextInv(s: System, contexts: seq<Context>, vk: string)
    requires Inv(s, vk)
    requires var t := s.(contexts := contexts);
             forall c :: 0 <= c < |contexts| ==> (c < |s.contexts| && contexts[c] == s.contexts[c]) || ContextOk(t, c, vk)
    ensures Inv(s.(contexts := contexts), vk)
  {
    var t := s.(contexts := contexts);
    forall i | 0 <= i < |t.log| ensures EventOk(t, i) {
      assert EventOk(s, i);
    }
    forall m | 0 <= m < |t.sent| ensures MessageOk(t, m, vk) {
      assert MessageOk(s, m, vk);
    }
    forall c | 0 <= c < |t.contexts| ensures ContextOk(t, c, vk) {
      if c < |s.contexts| && contexts[c] == s.contexts[c] { assert ContextOk(s, c, vk); }
    }
  }

  lemma MaterializeInv(s: System, ctx: nat, vk: string)
    requires Inv(s, vk) && Enabled(s, Materialize(ctx))
    ensures Inv(DoMaterialize(s, ctx, vk), vk) && Enabled(DoMaterialize(s, ctx, vk), Materialize(ctx))
  {
    var c := s.contexts[ctx];
    assert ContextOk(s, ctx, vk);
    if c.since.None? {
      var clock := ClockAfter(s.clocks[c.svc], c.traceparent, c.tracestate, vk);
      var accepted := Accepted(c.traceparent, c.tracestate);
      Tracestates.ParseYields(accepted, vk);
      if c.from.Some? { assert MessageOk(s, c.from.value, vk); }
      var t := s.(clocks := s.clocks[c.svc := clock]);
      RaiseInv(s, c.svc, clock, vk);
      var c' := c.(since := Some(|s.log|), inherited := Tracestates.Parse(accepted, vk).inheritedEntries);
      assert ContextOk(t.(contexts := t.contexts[ctx := c']), ctx, vk);
      ContextInv(t, t.contexts[ctx := c'], vk);
    }
  }

  lemma WriteInv(s: System, ctx: nat, slotted: bool, vk: string)
    requires Inv(s, vk) && Enabled(s, Materialize(ctx)) && Tracestates.LegalKey(vk)
    ensures 0 <= s.clocks[s.contexts[ctx].svc] && Inv(DoSend(s, ctx, slotted, vk), vk)
  {
    var c := s.contexts[ctx];
    var value := s.clocks[c.svc];
    var text := Tracestates.Format(value, c.inherited, vk);
    assert ContextOk(s, ctx, vk);
    Tracestates.FormatThenParse(value, c.inherited, vk);
    // The unslotted form of the message satisfies the facts; the stamp then completes a slotted one.
    var plain := s.(sent := s.sent + [Message(c.svc, text, value, |s.log|, false)]);
    forall m | 0 <= m < |plain.sent| ensures MessageOk(plain, m, vk) {
      if m < |s.sent| {
        assert MessageOk(s, m, vk);
      } else {
        forall i | 0 <= i < |s.log| && s.log[i].svc == c.svc ensures s.log[i].seqNo <= value { assert EventOk(s, i); }
      }
    }
    forall i | 0 <= i < |plain.log| ensures EventOk(plain, i) {
      assert EventOk(s, i);
    }
    forall k | 0 <= k < |plain.contexts| ensures ContextOk(plain, k, vk) {
      assert ContextOk(s, k, vk);
    }
    if slotted {
      StampInv(plain, c.svc, vk);
      SlottedInv(DoStamp(plain, c.svc), DoSend(s, ctx, slotted, vk), vk);
    }
  }

  /** t is s with its last message marked as slotted, the slot being the last event. */
  lemma SlottedInv(s: System, t: System, vk: string)
    requires Inv(s, vk) && |s.sent| > 0 && |s.log| > 0
    requires var msg := s.sent[|s.sent| - 1];
             && t == s.(sent := s.sent[|s.sent| - 1 := msg.(slotted := true)])
             && msg.before == |s.log| - 1 && s.log[|s.log| - 1] == Event(msg.svc, TickOf(msg.value))
    ensures Inv(t, vk)
  {
    forall i | 0 <= i < |t.log| ensures EventOk(t, i) {
      assert EventOk(s, i);
    }
    forall m | 0 <= m < |t.sent| ensures MessageOk(t, m, vk) {
      assert MessageOk(s, m, vk);
    }
    forall c | 0 <= c < |t.contexts| ensures ContextOk(t, c, vk) {
      assert ContextOk(s, c, vk);
    }
  }

  lemma NextInv(s: System, step: Step, t: System, vk: string)
    requires Inv(s, vk) && Tracestates.LegalKey(vk) && Next(s, step, t, vk)
    ensures Inv(t, vk)
  {
    match step
    case Stamp(svc) => StampInv(s, svc, vk);
    case Accept(svc, from, traceparent, tracestate) =>
      var c := Context(svc, traceparent, tracestate, from, None, []);
      assert ContextOk(t, |s.contexts|, vk);
      ContextInv(s, s.contexts + [c], vk);
    case Materialize(ctx) => MaterializeInv(s, ctx, vk);
    case Outbound(ctx, slotted) =>
      MaterializeInv(s, ctx, vk);
      WriteInv(DoMaterialize(s, ctx, vk), ctx, slotted, vk);
  }

  /** States joined by steps. */
  ghost predicate Joined(states: seq<System>, steps: seq<Step>, vk: string) {
    && |states| == |steps| + 1
    && forall k :: 0 <= k < |steps| ==> Next(states[k], steps[k], states[k + 1], vk)
  }

  function Last(states: seq<System>): System
    requires states != []
  {
    states[|states| - 1]
  }

  /** A run: states joined by steps, from all clocks at zero. */
  ghost predicate IsRun(states: seq<System>, steps: seq<Step>, services: nat, vk: string) {
    Joined(states, steps, vk) && states[0] == Init(services)
  }

  lemma {:induction false} RunInv(states: seq<System>, steps: seq<Step>, services: nat, vk: string, k: nat)
    requires Tracestates.LegalKey(vk) && IsRun(states, steps, services, vk) && k < |states|
    ensures Inv(states[k], vk)
  {
    if k == 0 {
      InitInv(services, vk);
    } else {
      RunInv(states, steps, services, vk, k - 1);
      NextInv(states[k - 1], steps[k - 1], states[k], vk);
    }
  }

  // ---------------------------------------------------------------- happens before

  /**
    i directly precedes j: same service and earlier, or i was stamped at a sender before it wrote a
    header (or is the slot stamped right after, if the clock written was at least 1) and j at a
    receiver after it took that header in beside a valid traceparent.
  */
  ghost predicate Precedes(s: System, i: nat, j: nat) {
    i < |s.log| && j < |s.log| &&
    ((s.log[i].svc == s.log[j].svc && i < j) || exists c :: 0 <= c < |s.contexts| && Carries(s, c, i, j))
  }

  ghost predicate Carries(s: System, c: nat, i: nat, j: nat)
    requires c < |s.contexts| && i < |s.log| && j < |s.log|
  {
    var ctx := s.contexts[c];
    && ctx.from.Some? && ctx.from.value < |s.sent| && ctx.since.Some? && Traceparents.Parse(ctx.traceparent).Some?
    && s.log[j].svc == ctx.svc && ctx.since.value <= j
    && var msg := s.sent[ctx.from.value];
       && s.log[i].svc == msg.svc
       && (i < msg.before || (i == msg.before && msg.slotted && msg.value >= 1))
  }

  ghost predicate IsPath(s: System, path: seq<nat>) {
    |path| >= 2 && forall k :: 0 <= k < |path| - 1 ==> Precedes(s, path[k], path[k + 1])
  }

  lemma PrecedesOrders(s: System, i: nat, j: nat, vk: string)
    requires Inv(s, vk) && Precedes(s, i, j)
    ensures Later(s.log[i].seqNo, s.log[j].seqNo)
  {
    if !(s.log[i].svc == s.log[j].svc && i < j) {
      var c :| 0 <= c < |s.contexts| && Carries(s, c, i, j);
      assert ContextOk(s, c, vk);
      assert MessageOk(s, s.contexts[c].from.value, vk);
      assert EventOk(s, i);
    }
  }

  lemma {:induction false} PathOrders(s: System, path: seq<nat>, vk: string)
    requires Inv(s, vk) && IsPath(s, path)
    ensures path[0] < |s.log| && path[|path| - 1] < |s.log|
    ensures Later(s.log[path[0]].seqNo, s.log[path[|path| - 1]].seqNo)
  {
    var last := |path| - 1;
    assert Precedes(s, path[last - 1], path[last]);
    PrecedesOrders(s, path[last - 1], path[last], vk);
    if |path| > 2 {
      var front := path[..last];
      assert forall k :: 0 <= k < |front| - 1 ==> Precedes(s, front[k], front[k + 1]);
      PathOrders(s, front, vk);
      assert EventOk(s, path[last - 1]) && EventOk(s, path[last]);
    }
  }

  /**
    Lamport's condition, over all runs of any number of services: along every chain of program
    order and delivered headers the stamps increase, as long as the last one is below the ceiling.
  */
  lemma LamportCondition(states: seq<System>, steps: seq<Step>, services: nat, vk: string, path: seq<nat>)
    requires Tracestates.LegalKey(vk) && IsRun(states, steps, services, vk)
    requires var s := Last(states);
             IsPath(s, path) && path[|path| - 1] < |s.log| && s.log[path[|path| - 1]].seqNo < MAX_SAFE_INTEGER
    ensures var s := Last(states);
            path[0] < |s.log| && s.log[path[0]].seqNo < s.log[path[|path| - 1]].seqNo
  {
    RunInv(states, steps, services, vk, |states| - 1);
    PathOrders(Last(states), path, vk);
  }

  // ---------------------------------------------------------------- the outbound slot

  /** t comes after s: clocks do not fall, the log grows, and what is stamped anew is above the clock. */
  ghost predicate Grown(s: System, t: System) {
    && |t.clocks| == |s.clocks| && |s.log| <= |t.log| && t.log[..|s.log|] == s.log
    && (forall v :: 0 <= v < |s.clocks| ==> 0 <= s.clocks[v] <= t.clocks[v] <= MAX_SAFE_INTEGER)
    && forall j :: |s.log| <= j < |t.log| ==> t.log[j].svc < |s.clocks| && Later(s.clocks[t.log[j].svc], t.log[j].seqNo)
  }

  lemma MaterializeGrows(s: System, ctx: nat, vk: string)
    requires Inv(s, vk) && Enabled(s, Materialize(ctx))
    ensures Grown(s, DoMaterialize(s, ctx, vk))
  {
    var c := s.contexts[ctx];
    Tracestates.ParseYields(Accepted(c.traceparent, c.tracestate), vk);
  }

  lemma StampGrows(s: System, svc: nat, vk: string)
    requires Inv(s, vk) && svc < |s.clocks|
    ensures Grown(s, DoStamp(s, svc))
  {
  }

  lemma GrownTransitive(s: System, t: System, u: System)
    requires Grown(s, t) && Grown(t, u)
    ensures Grown(s, u)
  {
    assert forall j :: 0 <= j < |t.log| ==> u.log[j] == u.log[..|t.log|][j] == t.log[j];
    assert u.log[..|s.log|] == t.log[..|s.log|];
  }

  lemma NextGrows(s: System, step: Step, t: System, vk: string)
    requires Inv(s, vk) && Next(s, step, t, vk)
    ensures Grown(s, t)
  {
    match step
    case Stamp(svc) => StampGrows(s, svc, vk);
    case Accept(_, _, _, _) =>
    case Materialize(ctx) => MaterializeGrows(s, ctx, vk);
    case Outbound(ctx, slotted) =>
      var u := DoMaterialize(s, ctx, vk);
      MaterializeGrows(s, ctx, vk);
      MaterializeInv(s, ctx, vk);
      StampGrows(u, u.contexts[ctx].svc, vk);
      assert Grown(u, t);
      GrownTransitive(s, u, t);
  }

  lemma {:induction false} RunGrows(states: seq<System>, steps: seq<Step>, vk: string)
    requires Tracestates.LegalKey(vk) && Joined(states, steps, vk) && Inv(states[0], vk)
    ensures Inv(Last(states), vk) && Grown(states[0], Last(states))
  {
    hide Inv, Next, Grown;
    var n := |steps|;
    if n == 0 {
      StaysGrown(states[0], vk);
    } else {
      RunGrows(states[..n], steps[..n - 1], vk);
      NextInv(states[n - 1], steps[n - 1], states[n], vk);
      NextGrows(states[n - 1], steps[n - 1], states[n], vk);
      GrownTransitive(states[0], states[n - 1], states[n]);
    }
  }

  lemma StaysGrown(s: System, vk: string)
    requires Inv(s, vk)
    ensures Grown(s, s)
  {
  }

  /** Event i carries a smaller stamp than whatever the service stamps from now on below the ceiling. */
  ghost predicate AlwaysBefore(s: System, i: nat, svc: nat, vk: string)
    requires i < |s.log|
  {
    forall states: seq<System>, steps, j: nat :: Joined(states, steps, vk) && states[0] == s && OrderedAt(Last(states), |s.log|, j, svc) ==>
      s.log[i].seqNo < Last(states).log[j].seqNo
  }

  /** j is one of the service's events from index lo on, and below the ceiling. */
  predicate OrderedAt(t: System, lo: nat, j: nat, svc: nat) {
    lo <= j < |t.log| && t.log[j].svc == svc && t.log[j].seqNo < MAX_SAFE_INTEGER
  }

  /** What is not above the clock stays before all that is stamped later. */
  lemma UnderClockIsBefore(s: System, i: nat, svc: nat, vk: string)
    requires Tracestates.LegalKey(vk) && Inv(s, vk) && i < |s.log| && svc < |s.clocks| && s.log[i].seqNo <= s.clocks[svc]
    ensures AlwaysBefore(s, i, svc, vk)
  {
    hide Inv;
    forall states: seq<System>, steps, j: nat | Joined(states, steps, vk) && states[0] == s && OrderedAt(Last(states), |s.log|, j, svc)
      ensures s.log[i].seqNo < Last(states).log[j].seqNo
    {
      RunGrows(states, steps, vk);
    }
  }

  /** A stamp above the clock is met again by the next one. */
  lemma AboveClockIsNotBefore(s: System, i: nat, svc: nat, vk: string)
    requires i < |s.log| && svc < |s.clocks| && s.clocks[svc] + 1 == s.log[i].seqNo < MAX_SAFE_INTEGER
    ensures !AlwaysBefore(s, i, svc, vk)
  {
    var t := DoStamp(s, svc);
    assert Next(s, Stamp(svc), t, vk);
    var states, steps := [s, t], [Stamp(svc)];
    assert Joined(states, steps, vk);
    assert OrderedAt(Last(states), |s.log|, |s.log|, svc);
  }

  /**
    When a service takes in a header beside a valid traceparent, the slot its sender stamped right
    after writing it is ordered before everything the service stamps from then on, in every
    continuation, if and only if the sender's clock or the service's own clock was at least 1.
  */
  lemma SlotOrderedIff(states: seq<System>, steps: seq<Step>, services: nat, vk: string, ctx: nat)
    requires Tracestates.LegalKey(vk) && IsRun(states, steps, services, vk)
    requires var s := Last(states);
             && Enabled(s, Materialize(ctx)) && s.contexts[ctx].since.None? && Traceparents.Parse(s.contexts[ctx].traceparent).Some?
             && s.contexts[ctx].from.Some? && s.contexts[ctx].from.value < |s.sent| && s.sent[s.contexts[ctx].from.value].slotted
    ensures var s := Last(states); var c := s.contexts[ctx]; var msg := s.sent[c.from.value];
            var t := DoMaterialize(s, ctx, vk);
            && msg.before < |t.log| && t.log[msg.before].svc == msg.svc
            && (AlwaysBefore(t, msg.before, c.svc, vk) <==> msg.value >= 1 || s.clocks[c.svc] >= 1)
  {
    var s := Last(states);
    RunInv(states, steps, services, vk, |states| - 1);
    TakenIn(s, ctx, vk);
    hide Inv, DoMaterialize, AlwaysBefore;
    MaterializeInv(s, ctx, vk);
    var c := s.contexts[ctx];
    var msg, t := s.sent[c.from.value], DoMaterialize(s, ctx, vk);
    if msg.value >= 1 || s.clocks[c.svc] >= 1 {
      UnderClockIsBefore(t, msg.before, c.svc, vk);
    } else {
      AboveClockIsNotBefore(t, msg.before, c.svc, vk);
    }
  }

  lemma TakenIn(s: System, ctx: nat, vk: string)
    requires Inv(s, vk) && Enabled(s, Materialize(ctx))
    requires s.contexts[ctx].since.None? && Traceparents.Parse(s.contexts[ctx].traceparent).Some?
    requires s.contexts[ctx].from.Some? && s.contexts[ctx].from.value < |s.sent| && s.sent[s.contexts[ctx].from.value].slotted
    ensures var c := s.contexts[ctx]; var msg, t := s.sent[c.from.value], DoMaterialize(s, ctx, vk);
            && 0 <= msg.value && 0 <= s.clocks[c.svc] && |t.clocks| == |s.clocks| && t.log == s.log && msg.before < |s.log|
            && s.log[msg.before] == Event(msg.svc, TickOf(msg.value))
            && (msg.value >= 1 ==> TickOf(msg.value) <= t.clocks[c.svc])
            && (msg.value == 0 ==> t.clocks[c.svc] == s.clocks[c.svc])
  {
    assert ContextOk(s, ctx, vk);
    assert MessageOk(s, s.contexts[ctx].from.value, vk);
  }

  lemma NoHeaders(vk: string)
    ensures Traceparents.Parse(None) == None && Tracestates.Parse(None, vk) == Tracestates.ParsedTracestate(None, [])
  {
  }

  /** The first service's context, since its first request. */
  const FIRST: Context := Context(0, None, None, None, Some(0), [])

  /** A fresh service's first recorded request, and its header arriving at the second service. */
  function ZeroSent(vk: string, traceparent: string): System {
    var text := Tracestates.Format(0, [], vk);
    System([1, 0], [Event(0, 1)], [Message(0, text, 0, 0, true)],
           [FIRST, Context(1, Some(traceparent), Some(text), Some(0), None, [])])
  }

  lemma ZeroSends(vk: string)
    ensures var s := System([0, 0], [], [], [FIRST.(since := None)]);
            && Enabled(s, Materialize(0)) && DoMaterialize(s, 0, vk) == s.(contexts := [FIRST])
            && DoSend(s.(contexts := [FIRST]), 0, true, vk)
               == System([1, 0], [Event(0, 1)], [Message(0, Tracestates.Format(0, [], vk), 0, 0, true)], [FIRST])
  {
    hide Tracestates.Parse, Tracestates.Format, Traceparents.Parse;
    NoHeaders(vk);
  }

  lemma ZeroArrives(vk: string, traceparent: string)
    requires Tracestates.LegalKey(vk) && Traceparents.Parse(Some(traceparent)).Some?
    ensures var s := ZeroSent(vk, traceparent);
            && Enabled(s, Materialize(1)) && DoMaterialize(s, 1, vk).clocks == [1, 0] && DoMaterialize(s, 1, vk).log == s.log
            && DoMaterialize(s, 1, vk).sent == s.sent
            && DoMaterialize(s, 1, vk).contexts == [FIRST, s.contexts[1].(since := Some(1), inherited := DoMaterialize(s, 1, vk).contexts[1].inherited)]
  {
    hide Tracestates.Parse, Tracestates.Format, Traceparents.Parse, Tracestates.Kept;
    Tracestates.FormatThenParse(0, [], vk);
  }

  /**
    Why the outbound slot needs a sender clock of at least 1: a fresh service's first request
    carries clk:0, which parse drops, so its slot and the receiver's first event are both stamped 1.
  */
  lemma ZeroClockSlotNotCovered(vk: string, traceparent: string) returns (states: seq<System>, steps: seq<Step>)
    requires Tracestates.LegalKey(vk) && Traceparents.Parse(Some(traceparent)).Some?
    ensures IsRun(states, steps, 2, vk)
    ensures var s := Last(states);
            && |s.sent| == 1 && s.sent[0].slotted && s.sent[0].value == 0 && |s.contexts| == 2
            && s.contexts[1].from == Some(0) && s.contexts[1].since == Some(1) && s.contexts[1].traceparent == Some(traceparent)
            && s.log == [Event(0, 1), Event(1, 1)]
  {
    hide Tracestates.Parse, Tracestates.Format, Traceparents.Parse, DoMaterialize, DoSend;
    ZeroSends(vk);
    ZeroArrives(vk, traceparent);
    var s0, s3 := Init(2), ZeroSent(vk, traceparent);
    assert s0.clocks == [0, 0];
    var s1 := s0.(contexts := [FIRST.(since := None)]);
    var s2 := s3.(contexts := [FIRST]);
    var s4 := DoMaterialize(s3, 1, vk);
    var s5 := DoStamp(s4, 1);
    states := [s0, s1, s2, s3, s4, s5];
    steps := [Accept(0, None, None, None), Outbound(0, true), Accept(1, Some(0), Some(traceparent), s3.contexts[1].tracestate),
              Materialize(1), Stamp(1)];
    assert Next(s0, steps[0], s1, vk);
    assert Next(s1, steps[1], s2, vk);
    assert Next(s2, steps[2], s3, vk);
    assert Next(s3, steps[3], s4, vk) && Next(s4, steps[4], s5, vk);
  }
}
