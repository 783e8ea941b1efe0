/** What the gate promises about rates and reports, over all its runs: the limiter's laws, said of captures. */
module AdmissionRuns {
  import opened Wrappers
  import opened Admissions
  import RateLimiters

  // ---------------------------------------------------------------- verdicts

  /** What became of the capture that follows these. */
  function VerdictOf(captures: seq<Capture>, c: Capture, limits: RateLimiters.Limits, most: nat): Verdict {
    RunGood(captures, limits, most);
    Judge(RunOf(captures, limits, most).state, c.key, c.ns, c.now, limits)
  }

  /** The times of the captures refused by the limiter since the last admission. */
  function LimitedSince(captures: seq<Capture>, limits: RateLimiters.Limits, most: nat): seq<int> {
    if captures == [] then []
    else
      var n := |captures| - 1;
      match VerdictOf(captures[..n], captures[n], limits, most)
      case RateLimited => LimitedSince(captures[..n], limits, most) + [captures[n].now]
      case Admitted(_) => []
      case Deduplicated => LimitedSince(captures[..n], limits, most)
  }

  function AdmittedTimes(captures: seq<Capture>, limits: RateLimiters.Limits, most: nat): seq<int> {
    if captures == [] then []
    else
      var n := |captures| - 1;
      AdmittedTimes(captures[..n], limits, most)
      + if VerdictOf(captures[..n], captures[n], limits, most).Admitted? then [captures[n].now] else []
  }

  /** What the limiter is asked to do for these captures. */
  function OpsOf(captures: seq<Capture>, limits: RateLimiters.Limits, most: nat): seq<RateLimiters.Op> {
    if captures == [] then []
    else
      var n := |captures| - 1;
      OpsOf(captures[..n], limits, most) +
      match VerdictOf(captures[..n], captures[n], limits, most)
      case RateLimited => [RateLimiters.Acquire(captures[n].now)]
      case Admitted(_) => [RateLimiters.Acquire(captures[n].now), RateLimiters.TakeSummary]
      case Deduplicated => []
  }

  /** What the limiter has yet to report is what was refused since the last admission. */
  predicate Unreported(l: RateLimiters.Limiter, limited: seq<int>) {
    && l.droppedSinceLastAcquire == RateLimiters.Saturated(|limited|)
    && l.firstDrop == (if limited == [] then None else Some(limited[0]))
    && l.lastDrop == (if limited == [] then None else Some(limited[|limited| - 1]))
  }

  lemma OneUnreported(l: RateLimiters.Limiter, limited: seq<int>, now: int, limits: RateLimiters.Limits)
    requires Unreported(l, limited)
    ensures var t := RateLimiters.Acquired(l, now, limits);
            if RateLimiters.Grants(l, now, limits) then Unreported(t, limited) && Unreported(RateLimiters.ResetDrops(t), [])
            else Unreported(t, limited + [now])
  {
    hide RateLimiters.After;
  }

  lemma {:induction false} RunUnreported(captures: seq<Capture>, limits: RateLimiters.Limits, most: nat)
    ensures Unreported(RunOf(captures, limits, most).state.limiter, LimitedSince(captures, limits, most))
    decreases |captures|
  {
    hide Unreported, RateLimiters.Grants, RateLimiters.Acquired, RateLimiters.ResetDrops, IsDuplicate, Remember;
    if captures == [] {
      StartUnreported();
    } else {
      var n := |captures| - 1;
      RunUnreported(captures[..n], limits, most);
      OneUnreported(RunOf(captures[..n], limits, most).state.limiter, LimitedSince(captures[..n], limits, most), captures[n].now, limits);
    }
  }

  lemma StartUnreported()
    ensures Unreported(RateLimiters.EMPTY, [])
  {
  }

  /** Every admission reports exactly the captures the limiter refused since the admission before it: how many, the first and the last. */
  lemma AdmissionReports(captures: seq<Capture>, c: Capture, limits: RateLimiters.Limits, most: nat)
    requires VerdictOf(captures, c, limits, most).Admitted?
    ensures var limited := LimitedSince(captures, limits, most);
            VerdictOf(captures, c, limits, most).drops ==
              if limited == [] then None
              else Some(RateLimiters.Summary(RateLimiters.Saturated(|limited|), limited[0], limited[|limited| - 1]))
  {
    hide RunOf, LimitedSince, RateLimiters.After;
    RunUnreported(captures, limits, most);
    RunGood(captures, limits, most);
  }

  // ---------------------------------------------------------------- the limiter's run

  lemma RunSnocOps(ops: seq<RateLimiters.Op>, op: RateLimiters.Op, start: int, limits: RateLimiters.Limits)
    ensures RateLimiters.RunOf(ops + [op], start, limits) == RateLimiters.Next(RateLimiters.RunOf(ops, start, limits), op, limits)
  {
    hide RateLimiters.Next;
    assert (ops + [op])[..|ops|] == ops;
  }

  /** The captures come at times that do not go back. */
  predicate Clocked(captures: seq<Capture>, start: int) {
    && (forall i :: 0 <= i < |captures| ==> captures[i].now >= start)
    && forall i, j :: 0 <= i < j < |captures| ==> captures[i].now <= captures[j].now
  }

  /** The gate drives its limiter through such a run, and admits what that run grants. */
  lemma {:induction false} GateDrivesLimiter(captures: seq<Capture>, start: int, limits: RateLimiters.Limits, most: nat)
    requires Clocked(captures, start)
    ensures var ops := OpsOf(captures, limits, most); var r := RateLimiters.RunOf(ops, start, limits);
            && RateLimiters.Clocked(ops, start, limits)
            && r.limiter == RunOf(captures, limits, most).state.limiter
            && r.grants == AdmittedTimes(captures, limits, most)
            && r.now <= if captures == [] then start else captures[|captures| - 1].now
    decreases |captures|
  {
    hide RateLimiters.Grants, RateLimiters.Acquired, RateLimiters.ResetDrops, IsDuplicate, Remember;
    if captures != [] {
      var n := |captures| - 1;
      var front, c := captures[..n], captures[n];
      GateDrivesLimiter(front, start, limits, most);
      var ops := OpsOf(front, limits, most);
      assert n > 0 ==> front[n - 1] == captures[n - 1];
      match VerdictOf(front, c, limits, most)
      case RateLimited => Extends(ops, RateLimiters.Acquire(c.now), start, limits);
      case Admitted(_) =>
        Extends(ops, RateLimiters.Acquire(c.now), start, limits);
        Extends(ops + [RateLimiters.Acquire(c.now)], RateLimiters.TakeSummary, start, limits);
        assert ops + [RateLimiters.Acquire(c.now), RateLimiters.TakeSummary]
            == (ops + [RateLimiters.Acquire(c.now)]) + [RateLimiters.TakeSummary];
      case Deduplicated => assert ops + [] == ops;
    }
  }

  lemma Extends(ops: seq<RateLimiters.Op>, op: RateLimiters.Op, start: int, limits: RateLimiters.Limits)
    requires RateLimiters.Clocked(ops, start, limits) && RateLimiters.Allowed(RateLimiters.RunOf(ops, start, limits), op)
    ensures RateLimiters.Clocked(ops + [op], start, limits)
    ensures RateLimiters.RunOf(ops + [op], start, limits) == RateLimiters.Next(RateLimiters.RunOf(ops, start, limits), op, limits)
  {
    hide RateLimiters.Next;
    assert (ops + [op])[..|ops|] == ops;
    RunSnocOps(ops, op, start, limits);
  }

  /** With a clock that does not go back, no window of windowMs holds more than maxCaptures admitted captures. */
  lemma AdmittedWindow(captures: seq<Capture>, start: int, limits: RateLimiters.Limits, most: nat, from: int)
    requires Clocked(captures, start)
    ensures RateLimiters.CountIn(AdmittedTimes(captures, limits, most), from, from + limits.windowMs) <= limits.maxCaptures
  {
    GateDrivesLimiter(captures, start, limits, most);
    RateLimiters.NoWindowOverfull(OpsOf(captures, limits, most), start, limits, from);
  }

  /**
    The whole verdict, from what happened before: a duplicate of a key whose last admission is under
    ten seconds old and which is still held; else admitted if and only if the window that ends now
    holds fewer than maxCaptures admissions.
  */
  lemma VerdictIff(captures: seq<Capture>, start: int, c: Capture, limits: RateLimiters.Limits, most: nat)
    requires Clocked(captures + [c], start)
    ensures var r, verdict := RunOf(captures, limits, most), VerdictOf(captures, c, limits, most);
            && (verdict.Deduplicated? <==>
                  c.key.Some? && LastAdmitted(r.admitted, c.key.value).Some?
                  && c.ns - LastAdmitted(r.admitted, c.key.value).value < DEDUP_WINDOW_NS
                  && Since(Insertions(r.admitted, most), c.key.value) < most)
            && (!verdict.Deduplicated? ==>
                  (verdict.Admitted? <==>
                     RateLimiters.CountIn(AdmittedTimes(captures, limits, most), c.now - limits.windowMs, c.now) < limits.maxCaptures))
  {
    hide RunOf, Insertions, Since, LastAdmitted, RateLimiters.CountIn, RateLimiters.Grants, IsDuplicate, Clocked, OpsOf, AdmittedTimes;
    ClockedFront(captures, c, start);
    GateDrivesLimiter(captures, start, limits, most);
    RateLimiters.GrantedIffRoom(OpsOf(captures, limits, most), start, limits, c.now);
    var recent := RunOf(captures, limits, most).state.recent;
    if c.key.Some? {
      SuppressedIff(captures, limits, most, c.key.value, c.ns);
    } else {
      NoKeyNoDuplicate(recent, c.ns);
    }
  }

  lemma NoKeyNoDuplicate(recent: seq<Anchor>, ns: int)
    ensures !IsDuplicate(recent, None, ns)
  {
  }

  lemma ClockedFront(captures: seq<Capture>, c: Capture, start: int)
    requires Clocked(captures + [c], start)
    ensures Clocked(captures, start) && c.now >= start && (captures != [] ==> captures[|captures| - 1].now <= c.now)
  {
    var all := captures + [c];
    assert forall i :: 0 <= i < |captures| ==> all[i] == captures[i];
    assert all[|captures|] == c;
  }
}
