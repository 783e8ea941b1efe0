/** Capture modes: the default table, the resolution of a mode against the user's configuration, and the diff. */
module CaptureModes {
  import opened Wrappers

  datatype CaptureMode = Safe | Balanced | Forensic | Fast

  datatype Recorders = Recorders(httpServer: bool, httpClient: bool, undici: bool, fetch: bool,
                                 netDns: bool, database: bool, processHandlers: bool, transport: bool)

  datatype ModeDefaults = ModeDefaults(
    captureLocalVariables: bool, captureDbBindParams: bool, captureRequestBodies: bool, captureResponseBodies: bool,
    captureBodyDigest: bool, resolveSourceMaps: bool, payloadSpoolEnabled: bool, useWorkerAssembly: bool,
    flushIntervalMs: int, recorders: Recorders)

  const ALL_RECORDERS: Recorders := Recorders(true, true, true, true, true, true, true, true)

  function Defaults(mode: CaptureMode): ModeDefaults {
    match mode
    case Safe => ModeDefaults(true, false, false, false, false, true, false, false, 5000,
                              Recorders(false, false, false, false, false, false, true, true))
    case Balanced => ModeDefaults(true, false, false, false, false, true, true, true, 5000, ALL_RECORDERS)
    case Forensic => ModeDefaults(true, true, true, true, true, true, true, true, 5000, ALL_RECORDERS)
    case Fast => ModeDefaults(false, false, false, false, false, false, false, false, 0,
                              Recorders(false, false, false, false, false, false, false, true))
  }

  datatype GuardInput = GuardOff | GuardLimits(maxPausesPerSecond: Option<int>, maxPauseMsPerMinute: Option<int>)

  /** The mode-relevant part of what the user passed to init; None is undefined. */
  datatype UserConfig = UserConfig(
    captureLocalVariables: Option<bool>, captureDbBindParams: Option<bool>, captureRequestBodies: Option<bool>,
    captureResponseBodies: Option<bool>, captureBody: Option<bool>, captureBodyDigest: Option<bool>,
    payloadSpoolEnabled: Option<bool>, useWorkerAssembly: Option<bool>, flushIntervalMs: Option<int>,
    resolveSourceMaps: Option<bool>, maxLocalsCollectionsPerSecond: Option<int>, maxCachedLocals: Option<int>,
    maxLocalsFrames: Option<int>, localsGuard: Option<GuardInput>)

  datatype SpoolLimits = SpoolLimits(globalMaxBytes: int, perRequestMaxBytes: int, perBlobMaxBytes: int, previewBytes: int, completedTtlMs: int)

  datatype PayloadSpool = PayloadSpool(enabled: bool, limits: SpoolLimits)

  /** What resolution reads from the resolved config object, which mode switches overwrite. */
  datatype BaseConfig = BaseConfig(serverless: bool, payloadSpool: PayloadSpool, maxLocalsCollectionsPerSecond: int, maxCachedLocals: int)

  datatype LocalVariablesMode = NoLocals | Shallow | Deep

  datatype LocalsGuard = LocalsGuard(enabled: bool, maxPausesPerSecond: int, maxPauseMsPerMinute: int)

  datatype Capabilities = Capabilities(deferredDelivery: bool, materializeBodies: bool, syntheticInboundFallback: bool, eventLoopLagMonitor: bool)

  datatype ModeState = ModeState(
    captureMode: CaptureMode, localVariablesMode: LocalVariablesMode, capabilities: Capabilities, recorders: Recorders,
    captureLocalVariables: bool, localsGuard: LocalsGuard, captureDbBindParams: bool, captureRequestBodies: bool,
    captureResponseBodies: bool, captureBody: bool, captureBodyDigest: bool, payloadSpool: PayloadSpool,
    useWorkerAssembly: bool, flushIntervalMs: int, resolveSourceMaps: bool, maxLocalsCollectionsPerSecond: int,
    maxCachedLocals: int, maxLocalsFrames: int, maxLocalsObjectProperties: int)

  function Or<T>(given: Option<T>, default: T): T {
    if given.Some? then given.value else default
  }

  predicate Positive(given: Option<int>) {
    given.Some? ==> given.value > 0
  }

  /** validateModeUserConfig accepts. */
  predicate ValidUserConfig(user: UserConfig) {
    && Positive(user.maxLocalsCollectionsPerSecond) && Positive(user.maxCachedLocals) && Positive(user.maxLocalsFrames)
    && (user.localsGuard.Some? && user.localsGuard.value.GuardLimits? ==>
          Positive(user.localsGuard.value.maxPausesPerSecond) && Positive(user.localsGuard.value.maxPauseMsPerMinute))
  }

  function DeriveCapabilities(mode: CaptureMode, useWorkerAssembly: bool, requestBodies: bool, responseBodies: bool, digest: bool): Capabilities {
    var lowOverhead := mode.Fast? || mode.Safe?;
    Capabilities(lowOverhead && !useWorkerAssembly, requestBodies || responseBodies || digest, lowOverhead, !mode.Fast?)
  }

  /** flushIntervalMs for a mode; fast ignores the user's value, and so never validates it. */
  function FlushInterval(user: UserConfig, base: BaseConfig, mode: CaptureMode): int {
    if mode.Fast? then 0 else Or(user.flushIntervalMs, if base.serverless then 0 else Defaults(mode).flushIntervalMs)
  }

  function GuardOf(user: UserConfig, captureLocalVariables: bool): LocalsGuard {
    var limits := if user.localsGuard.Some? && user.localsGuard.value.GuardLimits? then user.localsGuard.value else GuardLimits(None, None);
    LocalsGuard(captureLocalVariables && user.localsGuard != Some(GuardOff), Or(limits.maxPausesPerSecond, 50), Or(limits.maxPauseMsPerMinute, 250))
  }

  /** resolveModeState; None when it throws. */
  function Resolve(user: UserConfig, base: BaseConfig, mode: CaptureMode): Option<ModeState> {
    var d := Defaults(mode);
    var on := !mode.Fast?;
    var flush := FlushInterval(user, base, mode);
    if !ValidUserConfig(user) || (flush != 0 && flush < 1000) then None
    else
      var explicit := user.captureRequestBodies.Some? || user.captureResponseBodies.Some?;
      var worker := on && Or(user.useWorkerAssembly, !base.serverless && d.useWorkerAssembly);
      var requestBodies := on && Or(if explicit then user.captureRequestBodies else user.captureBody, d.captureRequestBodies);
      var responseBodies := on && Or(if explicit then user.captureResponseBodies else user.captureBody, d.captureResponseBodies);
      var locals := on && Or(user.captureLocalVariables, d.captureLocalVariables);
      var digest := on && Or(user.captureBodyDigest, d.captureBodyDigest);
      Some(ModeState(
        mode, if !locals then NoLocals else if mode.Forensic? then Deep else Shallow,
        DeriveCapabilities(mode, worker, requestBodies, responseBodies, digest), d.recorders,
        locals, GuardOf(user, locals), on && Or(user.captureDbBindParams, d.captureDbBindParams),
        requestBodies, responseBodies, requestBodies && responseBodies, digest,
        base.payloadSpool.(enabled := on && Or(user.payloadSpoolEnabled, d.payloadSpoolEnabled)),
        worker, flush, on && Or(user.resolveSourceMaps, d.resolveSourceMaps),
        Or(user.maxLocalsCollectionsPerSecond, base.maxLocalsCollectionsPerSecond),
        Or(user.maxCachedLocals, base.maxCachedLocals),
        Or(user.maxLocalsFrames, if mode.Forensic? then 10 else 5), if mode.Forensic? then 20 else 8))
  }

  /** applyModeStateToConfig, as far as a later resolution can see it. */
  function Overwrite(base: BaseConfig, next: ModeState): BaseConfig {
    base.(payloadSpool := next.payloadSpool, maxLocalsCollectionsPerSecond := next.maxLocalsCollectionsPerSecond,
          maxCachedLocals := next.maxCachedLocals)
  }

  /** Two config objects from which every mode resolves to the same state. */
  ghost predicate SameResolution(user: UserConfig, a: BaseConfig, b: BaseConfig) {
    forall mode :: Resolve(user, a, mode) == Resolve(user, b, mode)
  }

  /** A mode switch overwrites the very config that resolution reads, and resolution does not notice. */
  lemma OverwriteKeepsResolution(user: UserConfig, origin: BaseConfig, base: BaseConfig, mode: CaptureMode)
    requires SameResolution(user, origin, base) && Resolve(user, base, mode).Some?
    ensures SameResolution(user, origin, Overwrite(base, Resolve(user, base, mode).value))
  {
    var next := Resolve(user, base, mode).value;
    forall m ensures Resolve(user, Overwrite(base, next), m) == Resolve(user, base, m) {
    }
    forall m ensures Resolve(user, origin, m) == Resolve(user, Overwrite(base, next), m) {
      assert Resolve(user, origin, m) == Resolve(user, base, m);
    }
  }

  /** The state a whole history of switches leaves for each mode is the one a fresh config gives. */
  function AfterSwitches(user: UserConfig, base: BaseConfig, modes: seq<CaptureMode>): BaseConfig {
    if modes == [] then base
    else
      var before := AfterSwitches(user, base, modes[..|modes| - 1]);
      var next := Resolve(user, before, modes[|modes| - 1]);
      if next.Some? then Overwrite(before, next.value) else before
  }

  lemma {:induction false} ResolutionForgetsHistory(user: UserConfig, base: BaseConfig, modes: seq<CaptureMode>)
    ensures SameResolution(user, base, AfterSwitches(user, base, modes))
  {
    if modes != [] {
      ResolutionForgetsHistory(user, base, modes[..|modes| - 1]);
      var before, last := AfterSwitches(user, base, modes[..|modes| - 1]), modes[|modes| - 1];
      if Resolve(user, before, last).Some? {
        OverwriteKeepsResolution(user, base, before, last);
      }
    }
  }

  // ---------------------------------------------------------------- diff

  function Key(differs: bool, name: string): seq<string> {
    if differs then [name] else []
  }

  function DiffScalars(p: ModeState, n: ModeState): seq<string> {
    Key(p.captureMode != n.captureMode, "captureMode")
    + Key(p.localVariablesMode != n.localVariablesMode, "localVariablesMode")
    + Key(p.captureLocalVariables != n.captureLocalVariables, "captureLocalVariables")
    + Key(p.captureDbBindParams != n.captureDbBindParams, "captureDbBindParams")
    + Key(p.captureRequestBodies != n.captureRequestBodies, "captureRequestBodies")
    + Key(p.captureResponseBodies != n.captureResponseBodies, "captureResponseBodies")
    + Key(p.captureBody != n.captureBody, "captureBody")
    + Key(p.captureBodyDigest != n.captureBodyDigest, "captureBodyDigest")
    + Key(p.useWorkerAssembly != n.useWorkerAssembly, "useWorkerAssembly")
    + Key(p.flushIntervalMs != n.flushIntervalMs, "flushIntervalMs")
    + Key(p.resolveSourceMaps != n.resolveSourceMaps, "resolveSourceMaps")
    + Key(p.maxLocalsCollectionsPerSecond != n.maxLocalsCollectionsPerSecond, "maxLocalsCollectionsPerSecond")
    + Key(p.maxCachedLocals != n.maxCachedLocals, "maxCachedLocals")
    + Key(p.maxLocalsFrames != n.maxLocalsFrames, "maxLocalsFrames")
    + Key(p.maxLocalsObjectProperties != n.maxLocalsObjectProperties, "maxLocalsObjectProperties")
  }

  function DiffRecorders(p: Recorders, n: Recorders): seq<string> {
    Key(p.httpServer != n.httpServer, "recorders.httpServer") + Key(p.httpClient != n.httpClient, "recorders.httpClient")
    + Key(p.undici != n.undici, "recorders.undici") + Key(p.fetch != n.fetch, "recorders.fetch")
    + Key(p.netDns != n.netDns, "recorders.netDns") + Key(p.database != n.database, "recorders.database")
    + Key(p.processHandlers != n.processHandlers, "recorders.processHandlers") + Key(p.transport != n.transport, "recorders.transport")
  }

  function DiffCapabilities(p: Capabilities, n: Capabilities): seq<string> {
    Key(p.deferredDelivery != n.deferredDelivery, "capabilities.deferredDelivery")
    + Key(p.materializeBodies != n.materializeBodies, "capabilities.materializeBodies")
    + Key(p.syntheticInboundFallback != n.syntheticInboundFallback, "capabilities.syntheticInboundFallback")
    + Key(p.eventLoopLagMonitor != n.eventLoopLagMonitor, "capabilities.eventLoopLagMonitor")
  }

  function DiffSpool(p: PayloadSpool, n: PayloadSpool): seq<string> {
    Key(p.limits.globalMaxBytes != n.limits.globalMaxBytes, "payloadSpool.globalMaxBytes")
    + Key(p.limits.perRequestMaxBytes != n.limits.perRequestMaxBytes, "payloadSpool.perRequestMaxBytes")
    + Key(p.limits.perBlobMaxBytes != n.limits.perBlobMaxBytes, "payloadSpool.perBlobMaxBytes")
    + Key(p.limits.previewBytes != n.limits.previewBytes, "payloadSpool.previewBytes")
    + Key(p.limits.completedTtlMs != n.limits.completedTtlMs, "payloadSpool.completedTtlMs")
    + Key(p.enabled != n.enabled, "payloadSpool.enabled")
  }

  /** diffModeStates: the names of the keys that differ. */
  function Diff(p: ModeState, n: ModeState): seq<string> {
    DiffScalars(p, n) + DiffRecorders(p.recorders, n.recorders) + DiffCapabilities(p.capabilities, n.capabilities)
    + DiffSpool(p.payloadSpool, n.payloadSpool) + Key(p.localsGuard != n.localsGuard, "localsGuard")
  }

  /** No key escapes the diff. */
  lemma DiffEmptyIff(p: ModeState, n: ModeState)
    ensures Diff(p, n) == [] <==> p == n
  {
  }

  /** Between resolved states the diff is empty exactly when the mode is the same. */
  lemma SwitchIsNoOpIff(user: UserConfig, origin: BaseConfig, base: BaseConfig, from: CaptureMode, to: CaptureMode)
    requires SameResolution(user, origin, base) && Resolve(user, origin, from).Some? && Resolve(user, base, to).Some?
    ensures Diff(Resolve(user, origin, from).value, Resolve(user, base, to).value) == [] <==> from == to
  {
    DiffEmptyIff(Resolve(user, origin, from).value, Resolve(user, base, to).value);
  }
}
