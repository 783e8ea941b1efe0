/** What a mode and the user's settings come to: what is on, what a setting decides, and which settings are refused. */
module CaptureModeLaws {
  import opened Wrappers
  import opened CaptureModes

  /** A setting decides when it is given; otherwise the mode does.  The fast mode turns everything off. */
  predicate Decided(on: bool, given: Option<bool>, mode: CaptureMode, byDefault: bool) {
    on <==> !mode.Fast? && (given == Some(true) || (given.None? && byDefault))
  }

  /** Bodies: a control for either direction sets captureBody aside for both. */
  predicate BodyDecided(on: bool, given: Option<bool>, other: Option<bool>, both: Option<bool>, mode: CaptureMode) {
    on <==> !mode.Fast? && (given == Some(true)
                            || (given.None? && other.None? && both == Some(true))
                            || (given.None? && (other.Some? || both.None?) && mode.Forensic?))
  }

  predicate SpoolLimitsKept(m: ModeState, base: BaseConfig) {
    m.payloadSpool.limits == base.payloadSpool.limits
  }

  /** Exactly what is captured: who decides each switch, and what each mode decides when the user does not. */
  lemma CapturedIff(user: UserConfig, base: BaseConfig, mode: CaptureMode)
    requires Resolve(user, base, mode).Some?
    ensures var m := Resolve(user, base, mode).value;
            && Decided(m.captureLocalVariables, user.captureLocalVariables, mode, true)
            && Decided(m.captureDbBindParams, user.captureDbBindParams, mode, mode.Forensic?)
            && Decided(m.captureBodyDigest, user.captureBodyDigest, mode, mode.Forensic?)
            && Decided(m.resolveSourceMaps, user.resolveSourceMaps, mode, true)
            && Decided(m.payloadSpool.enabled, user.payloadSpoolEnabled, mode, mode.Balanced? || mode.Forensic?)
            && Decided(m.useWorkerAssembly, user.useWorkerAssembly, mode, !base.serverless && (mode.Balanced? || mode.Forensic?))
            && m.captureMode == mode && SpoolLimitsKept(m, base)
  {
    hide GuardOf, DeriveCapabilities, FlushInterval, ValidUserConfig;
  }

  lemma BodiesIff(user: UserConfig, base: BaseConfig, mode: CaptureMode)
    requires Resolve(user, base, mode).Some?
    ensures var m := Resolve(user, base, mode).value;
            && BodyDecided(m.captureRequestBodies, user.captureRequestBodies, user.captureResponseBodies, user.captureBody, mode)
            && BodyDecided(m.captureResponseBodies, user.captureResponseBodies, user.captureRequestBodies, user.captureBody, mode)
            && (m.captureBody <==> m.captureRequestBodies && m.captureResponseBodies)
  {
    hide GuardOf, DeriveCapabilities, FlushInterval, ValidUserConfig;
  }

  /** What the capabilities follow from. */
  lemma CapabilitiesIff(user: UserConfig, base: BaseConfig, mode: CaptureMode)
    requires Resolve(user, base, mode).Some?
    ensures var m := Resolve(user, base, mode).value;
            && (m.capabilities.materializeBodies <==> m.captureRequestBodies || m.captureResponseBodies || m.captureBodyDigest)
            && (m.capabilities.deferredDelivery <==> (mode.Fast? || mode.Safe?) && !m.useWorkerAssembly)
            && (m.capabilities.syntheticInboundFallback <==> mode.Fast? || mode.Safe?)
            && (m.capabilities.eventLoopLagMonitor <==> !mode.Fast?)
  {
    hide GuardOf, FlushInterval, ValidUserConfig;
  }

  /** The guard and the locals: off without locals, the user's limits or the defaults, deep only in the forensic mode. */
  lemma LocalsSettings(user: UserConfig, base: BaseConfig, mode: CaptureMode)
    requires Resolve(user, base, mode).Some?
    ensures var m := Resolve(user, base, mode).value;
            && (m.localsGuard.enabled <==> m.captureLocalVariables && user.localsGuard != Some(GuardOff))
            && m.localsGuard.maxPausesPerSecond > 0 && m.localsGuard.maxPauseMsPerMinute > 0
            && (user.localsGuard.None? ==> m.localsGuard.maxPausesPerSecond == 50 && m.localsGuard.maxPauseMsPerMinute == 250)
            && (m.localVariablesMode.NoLocals? <==> !m.captureLocalVariables)
            && (m.localVariablesMode.Deep? <==> m.captureLocalVariables && mode.Forensic?)
            && (user.maxLocalsFrames.Some? ==> m.maxLocalsFrames == user.maxLocalsFrames.value)
            && (user.maxLocalsFrames.None? ==> m.maxLocalsFrames == if mode.Forensic? then 10 else 5)
            && m.maxLocalsObjectProperties == if mode.Forensic? then 20 else 8
  {
    hide DeriveCapabilities, FlushInterval;
  }

  /** Resolution fails exactly on a limit that is not positive, or, outside the fast mode, on a flush interval between 0 and a second. */
  lemma ResolvesIff(user: UserConfig, base: BaseConfig, mode: CaptureMode)
    ensures Resolve(user, base, mode).Some? <==>
              && (forall limit :: limit in Given(user) ==> limit > 0)
              && (!mode.Fast? && user.flushIntervalMs.Some? ==> user.flushIntervalMs.value == 0 || user.flushIntervalMs.value >= 1000)
  {
    GivenPositive(user);
  }

  /** The limits the user gave. */
  function Given(user: UserConfig): set<int> {
    One(user.maxLocalsCollectionsPerSecond) + One(user.maxCachedLocals) + One(user.maxLocalsFrames)
    + match user.localsGuard
      case Some(GuardLimits(pauses, time)) => One(pauses) + One(time)
      case _ => {}
  }

  function One(given: Option<int>): set<int> {
    if given.Some? then {given.value} else {}
  }

  lemma GivenPositive(user: UserConfig)
    ensures ValidUserConfig(user) <==> forall limit :: limit in Given(user) ==> limit > 0
  {
    var given := Given(user);
    assert user.maxLocalsCollectionsPerSecond.Some? ==> user.maxLocalsCollectionsPerSecond.value in given;
    assert user.maxCachedLocals.Some? ==> user.maxCachedLocals.value in given;
    assert user.maxLocalsFrames.Some? ==> user.maxLocalsFrames.value in given;
    if user.localsGuard.Some? && user.localsGuard.value.GuardLimits? {
      var g := user.localsGuard.value;
      assert g.maxPausesPerSecond.Some? ==> g.maxPausesPerSecond.value in given;
      assert g.maxPauseMsPerMinute.Some? ==> g.maxPauseMsPerMinute.value in given;
    }
  }

  // ---------------------------------------------------------------- the order of the modes

  function Rank(mode: CaptureMode): nat {
    match mode
    case Fast => 0
    case Safe => 1
    case Balanced => 2
    case Forensic => 3
  }

  predicate RecordsNoMore(a: Recorders, b: Recorders) {
    && (a.httpServer ==> b.httpServer) && (a.httpClient ==> b.httpClient) && (a.undici ==> b.undici) && (a.fetch ==> b.fetch)
    && (a.netDns ==> b.netDns) && (a.database ==> b.database) && (a.processHandlers ==> b.processHandlers)
    && (a.transport ==> b.transport)
  }

  predicate CapturesNoMore(a: ModeState, b: ModeState) {
    && RecordsNoMore(a.recorders, b.recorders)
    && (a.captureLocalVariables ==> b.captureLocalVariables) && (a.captureDbBindParams ==> b.captureDbBindParams)
    && (a.captureRequestBodies ==> b.captureRequestBodies) && (a.captureResponseBodies ==> b.captureResponseBodies)
    && (a.captureBody ==> b.captureBody) && (a.captureBodyDigest ==> b.captureBodyDigest)
    && (a.resolveSourceMaps ==> b.resolveSourceMaps) && (a.payloadSpool.enabled ==> b.payloadSpool.enabled)
    && (a.capabilities.eventLoopLagMonitor ==> b.capabilities.eventLoopLagMonitor)
    && (a.capabilities.materializeBodies ==> b.capabilities.materializeBodies)
    && a.maxLocalsFrames <= b.maxLocalsFrames && a.maxLocalsObjectProperties <= b.maxLocalsObjectProperties
  }

  /** Escalating never loses data: with the same settings a higher mode captures all that a lower one does. */
  lemma HigherCapturesMore(user: UserConfig, base: BaseConfig, low: CaptureMode, high: CaptureMode)
    requires Rank(low) <= Rank(high) && Resolve(user, base, low).Some? && Resolve(user, base, high).Some?
    ensures CapturesNoMore(Resolve(user, base, low).value, Resolve(user, base, high).value)
  {
    hide Resolve, Decided, BodyDecided;
    CapturedIff(user, base, low);
    CapturedIff(user, base, high);
    BodiesIff(user, base, low);
    BodiesIff(user, base, high);
    CapabilitiesIff(user, base, low);
    CapabilitiesIff(user, base, high);
    LocalsSettings(user, base, low);
    LocalsSettings(user, base, high);
    RecordersOf(user, base, low);
    RecordersOf(user, base, high);
    DecidedGrows(low, high);
    BodyDecidedGrows(low, high);
  }

  lemma DecidedGrows(low: CaptureMode, high: CaptureMode)
    requires Rank(low) <= Rank(high)
    ensures forall a, b, given, d, e :: Decided(a, given, low, d) && Decided(b, given, high, e) && (d ==> e) && a ==> b
  {
  }

  lemma BodyDecidedGrows(low: CaptureMode, high: CaptureMode)
    requires Rank(low) <= Rank(high)
    ensures forall a, b, given, other, both ::
              BodyDecided(a, given, other, both, low) && BodyDecided(b, given, other, both, high) && a ==> b
  {
  }

  /** Which recorders each mode has: all from balanced up, the process handlers in safe, and the transport always. */
  lemma RecordersOf(user: UserConfig, base: BaseConfig, mode: CaptureMode)
    requires Resolve(user, base, mode).Some?
    ensures var r := Resolve(user, base, mode).value.recorders;
            && (r.httpServer <==> Rank(mode) >= 2) && (r.httpClient <==> Rank(mode) >= 2) && (r.undici <==> Rank(mode) >= 2)
            && (r.fetch <==> Rank(mode) >= 2) && (r.netDns <==> Rank(mode) >= 2) && (r.database <==> Rank(mode) >= 2)
            && (r.processHandlers <==> Rank(mode) >= 1) && r.transport
    ensures var flush := Resolve(user, base, mode).value.flushIntervalMs;
            flush == if mode.Fast? then 0 else if user.flushIntervalMs.Some? then user.flushIntervalMs.value
                     else if base.serverless then 0 else 5000
  {
  }
}
