/**
  InspectorManager: the guard's fields, the cache of locals, and the lookup that ties them
  together.  The inspector session itself is a flag; whether one can be opened is a parameter.
*/
module InspectorManagers {
  import opened Wrappers
  import opened LocalsCaches
  import opened LocalsLookups
  import opened LocalsRingBuffers
  import G = InspectorGuards

  /** What was thrown: a primitive, or an object with an optional capture tag and its identity. */
  datatype Thrown = Primitive(typeName: string) | ErrorObject(tag: Option<string>, query: Query)

  datatype MissReason =
    | NotCapturing
    | DisabledAdaptiveGuard
    | NotAvailable
    | NotAvailableInWorker
    | PrimitiveThrow(typeName: string)
    | NotInitialized
    | Refused(outcome: Outcome)

  datatype Layer = Tag | IdentityTuple

  datatype LocalsResult =
    | Hit(frames: FrameArray, layer: Layer, grade: Label)
    | Miss(reason: MissReason)

  class InspectorManager {
    var limits: G.Limits
    var pausesThisSecond: nat
    var overLimitSeconds: nat
    var pauseWallTimeMsWindow: real
    var pauseWindowStartedAtMs: int
    var guardTripped: bool
    var guardTrippedAtMs: Option<int>
    var session: bool
    var initialized: bool
    var pauseOnExceptionsActive: bool
    var captureLocalVariables: bool
    var available: bool
    const ringBuffer: LocalsRingBuffer

    /** A tripped guard always knows since when. */
    ghost predicate Valid()
      reads `guardTripped, `guardTrippedAtMs
    {
      guardTripped <==> guardTrippedAtMs.Some?
    }

    ghost function View(): G.Guard
      reads this
    {
      G.Guard(limits, pausesThisSecond, overLimitSeconds, pauseWallTimeMsWindow, pauseWindowStartedAtMs, guardTrippedAtMs,
              session, initialized, pauseOnExceptionsActive, captureLocalVariables, available)
    }

    constructor (limits: G.Limits, capture: bool, maxCachedLocals: nat)
      ensures Valid() && View() == G.Start(limits, capture, 0).guard
      ensures fresh(ringBuffer) && ringBuffer.entries == [] && ringBuffer.capacity == maxCachedLocals
      ensures ringBuffer.ttlMs == LOCALS_CACHE_TTL_MS
    {
      this.limits := limits;
      pausesThisSecond, overLimitSeconds, pauseWallTimeMsWindow, pauseWindowStartedAtMs := 0, 0, 0.0, 0;
      guardTripped, guardTrippedAtMs := false, None;
      session, initialized, pauseOnExceptionsActive := false, false, false;
      captureLocalVariables, available := capture, capture;
      ringBuffer := new LocalsRingBuffer(maxCachedLocals);
    }

    // -------------------------------------------------------------- guard

    method InitSession(opens: bool) returns (ok: bool)
      requires Valid()
      modifies `initialized, `available, `session
      ensures Valid()
      ensures old(initialized) ==> View() == old(View()) && ok == session
      ensures !old(initialized) ==>
                ok == opens && View() == (if opens then old(View()).(initialized := true, session := true)
                                          else old(View()).(initialized := true, available := false))
    {
      if initialized {
        return session;
      }
      initialized := true;
      if !opens {
        available := false;
        return false;
      }
      session := true;
      return true;
    }

    method EnsureDebuggerActive(opens: bool)
      requires Valid()
      modifies `initialized, `available, `session, `pauseOnExceptionsActive
      ensures Valid() && View() == G.EnsureActive(old(View()), opens)
    {
      if guardTripped {
        return;
      }
      if !available {
        return;
      }
      if !initialized {
        var ok := InitSession(opens);
        if !ok {
          return;
        }
      }
      if !session {
        return;
      }
      if !pauseOnExceptionsActive {
        pauseOnExceptionsActive := true;
      }
    }

    method DisarmDebugger()
      requires Valid()
      modifies `pauseOnExceptionsActive
      ensures Valid() && View() == old(View()).(armed := false)
    {
      pauseOnExceptionsActive := false;
    }

    method TripGuard(now: int)
      requires Valid()
      modifies `guardTripped, `guardTrippedAtMs, `pauseOnExceptionsActive
      ensures Valid() && View() == G.Trip(old(View()), now)
    {
      if guardTripped {
        return;
      }
      guardTripped := true;
      guardTrippedAtMs := Some(now);
      if session && pauseOnExceptionsActive {
        pauseOnExceptionsActive := false;
      }
    }

    method ResetGuardTrip(now: int)
      requires Valid()
      modifies `guardTripped, `guardTrippedAtMs, `overLimitSeconds, `pausesThisSecond, `pauseWallTimeMsWindow, `pauseWindowStartedAtMs
      ensures Valid() && View() == G.Reset(old(View()), now)
    {
      guardTripped := false;
      guardTrippedAtMs := None;
      overLimitSeconds := 0;
      pausesThisSecond := 0;
      pauseWallTimeMsWindow := 0.0;
      pauseWindowStartedAtMs := now;
    }

    method RearmAfterAdaptiveGuard(now: int, opens: bool)
      requires Valid()
      modifies this
      ensures Valid() && View() == G.RearmGuard(old(View()), now, opens)
    {
      ResetGuardTrip(now);
      if captureLocalVariables {
        available := true;
        EnsureDebuggerActive(opens);
      }
    }

    method EvaluateGuardRecovery(now: int, opens: bool)
      requires Valid()
      modifies this
      ensures Valid() && View() == G.Recover(old(View()), now, opens)
    {
      if !guardTripped || guardTrippedAtMs.None? {
        pausesThisSecond := 0;
        return;
      }
      if pausesThisSecond > limits.maxPausesPerSecond || pauseWallTimeMsWindow > limits.maxPauseMsPerMinute {
        guardTrippedAtMs := Some(now);
        pausesThisSecond := 0;
        pauseWallTimeMsWindow := 0.0;
        pauseWindowStartedAtMs := now;
        return;
      }
      ghost var start := View();
      pausesThisSecond := 0;
      if now - guardTrippedAtMs.value >= G.RECOVERY_MS {
        ResetGuardTrip(now);
        assert View() == G.Reset(start, now);
        if captureLocalVariables {
          available := true;
          EnsureDebuggerActive(opens);
        }
      }
    }

    method EvaluatePauseRateGuard(now: int)
      requires Valid()
      modifies this
      ensures Valid() && View() == G.TickGuard(old(View()), now)
    {
      if !limits.enabled {
        pausesThisSecond := 0;
        return;
      }
      if guardTripped {
        EvaluateGuardRecovery(now, false);
        return;
      }
      if pausesThisSecond > limits.maxPausesPerSecond {
        overLimitSeconds := overLimitSeconds + 1;
      } else {
        overLimitSeconds := 0;
      }
      pausesThisSecond := 0;
      if overLimitSeconds >= 10 {
        TripGuard(now);
      }
    }

    method RecordPauseWallTime(elapsedMs: real, now: int)
      requires Valid()
      modifies this
      ensures Valid() && View() == G.WallTime(old(View()), elapsedMs, now)
    {
      if !limits.enabled || guardTripped {
        return;
      }
      if now - pauseWindowStartedAtMs > 60000 {
        pauseWindowStartedAtMs := now;
        pauseWallTimeMsWindow := 0.0;
      }
      pauseWallTimeMsWindow := pauseWallTimeMsWindow + elapsedMs;
      if pauseWallTimeMsWindow > limits.maxPauseMsPerMinute {
        TripGuard(now);
      }
    }

    method ApplyModeState(capture: bool, next: G.Limits, maxCachedLocals: nat, now: int, opens: bool)
      requires Valid()
      modifies this, ringBuffer`capacity, ringBuffer`entries
      ensures Valid() && View() == G.ApplyModeState(old(View()), capture, next, now, opens)
      ensures ringBuffer.capacity == maxCachedLocals && ringBuffer.entries == NewestOnly(old(ringBuffer.entries), maxCachedLocals)
    {
      captureLocalVariables := capture;
      ringBuffer.Resize(maxCachedLocals);
      limits := next;
      if !captureLocalVariables {
        DisarmDebugger();
        available := false;
        return;
      }
      available := true;
      if !limits.enabled && guardTripped {
        RearmAfterAdaptiveGuard(now, opens);
      }
    }

    // -------------------------------------------------------------- lookup

    /** A step within the request; None passes the lookup on. */
    static method SelectOwn(matches: seq<Entry>, grade: Label, t0: int, t1: int) returns (r: Option<Outcome>)
      ensures r == OwnStep(matches, grade, t0, t1)
    {
      hide Recent, AllSame;
      if |matches| == 1 {
        return Some(Found(matches[0], grade));
      }
      var equivalent := NewestEquivalent(matches, t0);
      if equivalent.Some? {
        return Some(Found(equivalent.value, grade));
      }
      var recent := NewestRecent(matches, t1);
      if recent.Some? {
        return Some(Found(recent.value, grade));
      }
      if |matches| > 1 {
        return Some(AmbiguousCorrelation);
      }
      return None;
    }

    /** _layer2Lookup. */
    method Layer2Lookup(q: Query, now: nat -> int, normalize: string -> string) returns (r: Outcome)
      ensures r == Layer2(ringBuffer.entries, q, now, normalize)
    {
      hide Select, Matches, OwnStep, ForeignStep, Diagnosis, NewestEquivalent, Newest, StepAt;
      ghost var entries := ringBuffer.entries;
      if q.requestId.Some? {
        CascadeUnfolds(entries, q, now, normalize);
        var exact := ringBuffer.FindByIdentity(q);
        if exact.Some? {
          return Found(exact.value, Exact);
        }
        var degraded := ringBuffer.FindByDegradedKey(q);
        var own := SelectOwn(degraded, DroppedHash, now(0), now(1));
        if own.Some? {
          return own.value;
        }
        own := SelectOwn(Select(ringBuffer.entries, q, Loose), DroppedCount, now(2), now(3));
        if own.Some? {
          return own.value;
        }
        var foreign := ForeignStep(Select(ringBuffer.entries, q, Foreign), now(4), now(5));
        if foreign.Some? {
          return foreign.value;
        }
        foreign := ForeignStep(Select(ringBuffer.entries, q, ForeignDegraded), now(6), now(7));
        if foreign.Some? {
          return foreign.value;
        }
        foreign := ForeignStep(Select(ringBuffer.entries, q, ForeignLoose), now(8), now(9));
        if foreign.Some? {
          return foreign.value;
        }
        var similar := Select(ringBuffer.entries, q, Similar(now(10), normalize));
        if |similar| == 1 {
          return Found(similar[0], DroppedRequest);
        }
        var equivalent := NewestEquivalent(similar, now(11));
        if equivalent.Some? {
          return Found(equivalent.value, DroppedRequest);
        }
        if |similar| > 1 {
          return AmbiguousCorrelation;
        }
      } else {
        var background := Select(ringBuffer.entries, q, Background);
        if |background| == 1 {
          return Found(background[0], BackgroundMatch);
        }
        if |background| > 1 {
          return AmbiguousContextLess;
        }
      }
      var reason := ringBuffer.DiagnoseIdentityMiss(q);
      return CacheMiss(reason);
    }

    /** The gates before a lookup, in the order they are tried. */
    static function Gate(g: G.Guard, mainThread: bool, thrown: Thrown, opens: bool): Option<MissReason> {
      if !g.capturing then Some(NotCapturing)
      else if g.trippedAt.Some? then Some(DisabledAdaptiveGuard)
      else if !g.available then Some(NotAvailable)
      else if !mainThread then Some(NotAvailableInWorker)
      else if thrown.Primitive? then Some(PrimitiveThrow(thrown.typeName))
      else None
    }

    /**
      getLocalsWithDiagnostics.  Past the gates the result is what the pruned cache hands out for
      the error, and exactly that entry leaves the cache; at a gate the cache is at most pruned.
    */
    method GetLocalsWithDiagnostics(thrown: Thrown, at: int, mainThread: bool, opens: bool, now: nat -> int, normalize: string -> string)
      returns (r: LocalsResult)
      requires Valid()
      modifies this, ringBuffer`entries
      ensures Valid()
      ensures var gate := Gate(old(View()), mainThread, thrown, opens);
              && View() == (if gate.None? then G.EnsureActive(old(View()), opens) else old(View()))
              && (gate.Some? ==>
                    && r == Miss(gate.value)
                    && ringBuffer.entries == if old(captureLocalVariables) then Prune(old(ringBuffer.entries), at, ringBuffer.ttlMs)
                                             else old(ringBuffer.entries))
              && (gate.None? ==>
                    var pruned := Prune(old(ringBuffer.entries), at, ringBuffer.ttlMs);
                    var out := LocalsRuns.HandOut(pruned, thrown.tag, thrown.query, now, normalize);
                    && (out.Some? <==> r.Hit?)
                    && (out.Some? ==> r.frames == out.value.frames && ringBuffer.entries == Consume(pruned, out.value.frames.ref))
                    && (out.None? ==> r == Miss(Refused(Layer2(pruned, thrown.query, now, normalize))) && ringBuffer.entries == pruned))
    {
      hide Prune, Consume, ById, Layer2, G.EnsureActive;
      if !captureLocalVariables {
        return Miss(NotCapturing);
      }
      var removed := ringBuffer.PruneExpired(at);
      if guardTripped {
        return Miss(DisabledAdaptiveGuard);
      }
      if !available {
        return Miss(NotAvailable);
      }
      if !mainThread {
        return Miss(NotAvailableInWorker);
      }
      if thrown.Primitive? {
        return Miss(PrimitiveThrow(thrown.typeName));
      }
      EnsureDebuggerActive(opens);
      EnsureInitializes(old(View()), opens);
      if !initialized {
        return Miss(NotInitialized);
      }
      if thrown.tag.Some? {
        var entry := ringBuffer.GetById(thrown.tag.value);
        if entry.Some? {
          var found := ringBuffer.ConsumeFrames(entry.value.frames);
          return Hit(entry.value.frames, Tag, Exact);
        }
      }
      var outcome := Layer2Lookup(thrown.query, now, normalize);
      if outcome.Found? {
        var found := ringBuffer.ConsumeFrames(outcome.entry.frames);
        return Hit(outcome.entry.frames, IdentityTuple, outcome.grade);
      }
      return Miss(Refused(outcome));
    }
  }

  /** Past the gates the session has always been tried, so the lookup is never refused as uninitialized. */
  lemma EnsureInitializes(g: G.Guard, opens: bool)
    requires g.trippedAt.None? && g.available
    ensures G.EnsureActive(g, opens).initialized
  {
  }

  lemma CascadeUnfolds(entries: seq<Entry>, q: Query, now: nat -> int, normalize: string -> string)
    ensures Cascade(0, entries, q, now, normalize) ==
              OrElse(ExactStep(entries, q),
              OrElse(OwnStep(Select(entries, q, Degraded), DroppedHash, now(0), now(1)),
              OrElse(OwnStep(Select(entries, q, Loose), DroppedCount, now(2), now(3)),
              OrElse(ForeignStep(Select(entries, q, Foreign), now(4), now(5)),
              OrElse(ForeignStep(Select(entries, q, ForeignDegraded), now(6), now(7)),
              OrElse(ForeignStep(Select(entries, q, ForeignLoose), now(8), now(9)),
                     StepAt(6, entries, q, now, normalize)))))))
    ensures var similar := Select(entries, q, Similar(now(10), normalize));
            StepAt(6, entries, q, now, normalize) ==
              if |similar| == 1 then Some(Found(similar[0], DroppedRequest))
              else if NewestEquivalent(similar, now(11)).Some? then Some(Found(NewestEquivalent(similar, now(11)).value, DroppedRequest))
              else if |similar| > 1 then Some(AmbiguousCorrelation)
              else None
  {
    hide Select, ExactStep, OwnStep, ForeignStep, NewestEquivalent, OrElse;
    CascadeLast(entries, q, now, normalize);
    assert Cascade(5, entries, q, now, normalize) == OrElse(StepAt(5, entries, q, now, normalize), Cascade(6, entries, q, now, normalize));
    assert Cascade(3, entries, q, now, normalize) == OrElse(StepAt(3, entries, q, now, normalize), Cascade(4, entries, q, now, normalize));
    assert Cascade(1, entries, q, now, normalize) == OrElse(StepAt(1, entries, q, now, normalize), Cascade(2, entries, q, now, normalize));
  }

  lemma CascadeLast(entries: seq<Entry>, q: Query, now: nat -> int, normalize: string -> string)
    ensures Cascade(6, entries, q, now, normalize) == StepAt(6, entries, q, now, normalize)
  {
    hide StepAt;
    assert Cascade(7, entries, q, now, normalize).None?;
  }
}
