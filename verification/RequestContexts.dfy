/** The lazy request context: trace headers are parsed, and the clock merged, once and on demand. */
module RequestContexts {
  import opened Wrappers
  import opened EventClocks
  import Tracestates
  import Traceparents

  datatype MaterializedTrace = MaterializedTrace(
    traceId: string, spanId: string, parentSpanId: Option<string>, traceFlags: int,
    inboundTracestate: Option<string>, inheritedTracestate: seq<string>, isEntrySpan: bool)

  /** tracestate counts only beside a valid traceparent. */
  function Accepted(traceparent: Option<string>, tracestate: Option<string>): Option<string> {
    if Traceparents.Parse(traceparent).Some? then tracestate else None
  }

  /** The clock after the headers have been taken in. */
  function ClockAfter(clock: int, traceparent: Option<string>, tracestate: Option<string>, vendorKey: string): int {
    var received := Tracestates.Parse(Accepted(traceparent, tracestate), vendorKey).receivedSeq;
    if received.Some? then MergeOf(clock, Integral(received.value)) else clock
  }

  function TraceOf(traceparent: Option<string>, tracestate: Option<string>, vendorKey: string,
                   newTraceId: string, newSpanId: string): MaterializedTrace {
    var parsed := Traceparents.Parse(traceparent);
    var accepted := Accepted(traceparent, tracestate);
    MaterializedTrace(
      if parsed.Some? then parsed.value.traceId else newTraceId, newSpanId,
      if parsed.Some? then Some(parsed.value.parentSpanId) else None,
      if parsed.Some? then parsed.value.traceFlags else 1,
      accepted, Tracestates.Parse(accepted, vendorKey).inheritedEntries, parsed.None?)
  }

  // ---------------------------------------------------------------- what a trace is made of

  /** The trace of a request that came in with this header. */
  predicate Continues(m: MaterializedTrace, t: Traceparents.Traceparent, tracestate: Option<string>, spanId: string, vendorKey: string) {
    && m.traceId == t.traceId && m.parentSpanId == Some(t.parentSpanId) && m.traceFlags == t.traceFlags
    && m.spanId == spanId && m.inboundTracestate == tracestate && !m.isEntrySpan
    && m.inheritedTracestate == Tracestates.Parse(tracestate, vendorKey).inheritedEntries
  }

  /** The trace of a request that came in without one that is valid. */
  predicate Originates(m: MaterializedTrace, traceId: string, spanId: string) {
    && m.traceId == traceId && m.spanId == spanId && m.parentSpanId == None && m.traceFlags == 1
    && m.inboundTracestate == None && m.inheritedTracestate == [] && m.isEntrySpan
  }

  predicate ValidIds(t: Traceparents.Traceparent) {
    Traceparents.ValidId(t.traceId, 32) && Traceparents.ValidId(t.parentSpanId, 16)
  }

  /** Whatever version wrote it: the header is accepted, and these are the ids and flags in it. */
  ghost predicate Carries(header: Option<string>, t: Traceparents.Traceparent) {
    header.Some? && ValidIds(t) && exists version, rest :: Traceparents.IsRendering(header.value, version, t, rest)
  }

  /** A request continues the trace its header carries, or starts one when it carries none. */
  lemma TraceContinuesIff(traceparent: Option<string>, tracestate: Option<string>, vendorKey: string, newTraceId: string, newSpanId: string)
    ensures var m := TraceOf(traceparent, tracestate, vendorKey, newTraceId, newSpanId);
            && (forall t :: Carries(traceparent, t) ==> Continues(m, t, tracestate, newSpanId, vendorKey))
            && ((forall t :: !Carries(traceparent, t)) ==> Originates(m, newTraceId, newSpanId))
  {
    hide Traceparents.Parse, Tracestates.Parse, Traceparents.IsRendering;
    forall t | Carries(traceparent, t)
      ensures Continues(TraceOf(traceparent, tracestate, vendorKey, newTraceId, newSpanId), t, tracestate, newSpanId, vendorKey)
    {
      var version, rest :| Traceparents.IsRendering(traceparent.value, version, t, rest);
      Traceparents.RenderingParses(traceparent.value, version, t, rest);
    }
    if Traceparents.Parse(traceparent).Some? {
      var t, version, rest := Traceparents.ParsedIsRendering(traceparent);
      assert Carries(traceparent, t);
    } else {
      Tracestates.ParseNothing(vendorKey);
    }
  }

  lemma CarriedFlags(header: Option<string>, t: Traceparents.Traceparent)
    requires Carries(header, t)
    ensures 0 <= t.traceFlags < 256
  {
  }

  /** The header a service sends on after taking one in. */
  function Relayed(traceparent: Option<string>, tracestate: Option<string>, vendorKey: string, newTraceId: string, newSpanId: string): string {
    var m := TraceOf(traceparent, tracestate, vendorKey, newTraceId, newSpanId);
    Traceparents.Format(Traceparents.Traceparent(m.traceId, m.spanId, m.traceFlags))
  }

  /** One service on a request's way: what it would use for a new trace, its span, and the tracestate it got. */
  datatype Hop = Hop(newTraceId: string, spanId: string, tracestate: Option<string>)

  /** The header after a chain of services. */
  function Chain(traceparent: Option<string>, hops: seq<Hop>, vendorKey: string): Option<string> {
    if hops == [] then traceparent
    else
      var n := |hops| - 1;
      Some(Relayed(Chain(traceparent, hops[..n], vendorKey), hops[n].tracestate, vendorKey, hops[n].newTraceId, hops[n].spanId))
  }

  /**
    End to end, through any number of services: the trace id and the flags that came in first go
    out last, and each service names its own span as the parent of the next.
  */
  lemma {:induction false} ChainKeepsTrace(traceparent: Option<string>, t: Traceparents.Traceparent, hops: seq<Hop>, vendorKey: string)
    requires Carries(traceparent, t) && forall i :: 0 <= i < |hops| ==> Traceparents.ValidId(hops[i].spanId, 16)
    ensures var last := if hops == [] then t.parentSpanId else hops[|hops| - 1].spanId;
            Traceparents.Parse(Chain(traceparent, hops, vendorKey)) == Some(Traceparents.Traceparent(t.traceId, last, t.traceFlags))
  {
    hide Traceparents.Parse, Tracestates.Parse, Traceparents.IsRendering, Traceparents.Format, Traceparents.ValidId;
    if hops == [] {
      var version, rest :| Traceparents.IsRendering(traceparent.value, version, t, rest);
      Traceparents.RenderingParses(traceparent.value, version, t, rest);
    } else {
      var n := |hops| - 1;
      CarriedFlags(traceparent, t);
      ChainKeepsTrace(traceparent, t, hops[..n], vendorKey);
      Traceparents.FormatThenParse(Traceparents.Traceparent(t.traceId, hops[n].spanId, t.traceFlags));
    }
  }

  /** A trace that starts here leaves with the id made here, which the chain then keeps. */
  lemma NewTraceIsCarried(traceparent: Option<string>, hop: Hop, vendorKey: string)
    requires (forall t :: !Carries(traceparent, t)) && Traceparents.ValidId(hop.newTraceId, 32) && Traceparents.ValidId(hop.spanId, 16)
    ensures Carries(Chain(traceparent, [hop], vendorKey), Traceparents.Traceparent(hop.newTraceId, hop.spanId, 1))
  {
    hide Traceparents.Parse, TraceOf, Traceparents.ValidId, Traceparents.Format, Traceparents.IsRendering;
    TraceContinuesIff(traceparent, hop.tracestate, vendorKey, hop.newTraceId, hop.spanId);
    assert [hop][..0] == [];
    Traceparents.FormatIsRendering(Traceparents.Traceparent(hop.newTraceId, hop.spanId, 1));
  }

  class LazyRequestContext {
    const rawTraceparent: Option<string>
    const rawTracestate: Option<string>
    const vendorKey: string
    const eventClock: EventClock
    var materializedTrace: Option<MaterializedTrace>

    constructor (traceparent: Option<string>, tracestate: Option<string>, vendorKey: string, eventClock: EventClock)
      ensures rawTraceparent == traceparent && rawTracestate == tracestate
      ensures this.vendorKey == vendorKey && this.eventClock == eventClock && materializedTrace == None
    {
      rawTraceparent, rawTracestate := traceparent, tracestate;
      this.vendorKey, this.eventClock, materializedTrace := vendorKey, eventClock, None;
    }

    /** The first call merges the inbound clock; every later call changes nothing. */
    method EnsureTraceMaterialized(newTraceId: string, newSpanId: string)
      requires eventClock.Valid()
      modifies this, eventClock
      ensures eventClock.Valid() && materializedTrace.Some?
      ensures old(materializedTrace).Some? ==> materializedTrace == old(materializedTrace) && eventClock.value == old(eventClock.value)
      ensures old(materializedTrace).None? ==>
                && materializedTrace == Some(TraceOf(rawTraceparent, rawTracestate, vendorKey, newTraceId, newSpanId))
                && (forall t :: Carries(rawTraceparent, t) ==> Continues(materializedTrace.value, t, rawTracestate, newSpanId, vendorKey))
                && ((forall t :: !Carries(rawTraceparent, t)) ==> Originates(materializedTrace.value, newTraceId, newSpanId))
                && eventClock.value == ClockAfter(old(eventClock.value), rawTraceparent, rawTracestate, vendorKey)
    {
      if materializedTrace.Some? {
        return;
      }
      hide Carries, Continues, Originates;
      TraceContinuesIff(rawTraceparent, rawTracestate, vendorKey, newTraceId, newSpanId);
      var parsed := Traceparents.Parse(rawTraceparent);
      var accepted := if parsed.Some? then rawTracestate else None;
      var parsedState := Tracestates.ParseTracestate(accepted, vendorKey);
      if parsedState.receivedSeq.Some? {
        var _ := eventClock.Merge(Integral(parsedState.receivedSeq.value));
      }
      materializedTrace := Some(MaterializedTrace(
        if parsed.Some? then parsed.value.traceId else newTraceId, newSpanId,
        if parsed.Some? then Some(parsed.value.parentSpanId) else None,
        if parsed.Some? then parsed.value.traceFlags else 1,
        accepted, parsedState.inheritedEntries, parsed.None?));
    }

    /** getTraceHeaders: both outbound headers, from the clock as it stands after materialization. */
    method GetTraceHeaders(newTraceId: string, newSpanId: string) returns (traceparent: string, tracestate: string)
      requires eventClock.Valid()
      modifies this, eventClock
      ensures eventClock.Valid() && materializedTrace.Some?
      ensures materializedTrace == if old(materializedTrace).Some? then old(materializedTrace)
                                   else Some(TraceOf(rawTraceparent, rawTracestate, vendorKey, newTraceId, newSpanId))
      ensures eventClock.value == if old(materializedTrace).Some? then old(eventClock.value)
                                  else ClockAfter(old(eventClock.value), rawTraceparent, rawTracestate, vendorKey)
      ensures var t := materializedTrace.value;
              && traceparent == Traceparents.Format(Traceparents.Traceparent(t.traceId, t.spanId, t.traceFlags))
              && (Traceparents.ValidId(t.traceId, 32) && Traceparents.ValidId(t.spanId, 16) ==>
                    Traceparents.Parse(Some(traceparent)) == Some(Traceparents.Traceparent(t.traceId, t.spanId, t.traceFlags % 256)))
              && tracestate == Tracestates.Format(eventClock.value, t.inheritedTracestate, vendorKey)
    {
      EnsureTraceMaterialized(newTraceId, newSpanId);
      var t := materializedTrace.value;
      if Traceparents.ValidId(t.traceId, 32) && Traceparents.ValidId(t.spanId, 16) {
        Traceparents.FormatThenParse(Traceparents.Traceparent(t.traceId, t.spanId, t.traceFlags));
      }
      traceparent := Traceparents.Format(Traceparents.Traceparent(t.traceId, t.spanId, t.traceFlags));
      tracestate := Tracestates.FormatTracestate(eventClock.value,
        if t.inheritedTracestate == [] then None else Some(t.inheritedTracestate), vendorKey);
    }
  }
}
