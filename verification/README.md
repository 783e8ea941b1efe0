# Verified model of the errorcore SDK's stateful core

A Dafny model of the parts of errorcore that hold real state, interleavings or arithmetic, with
proofs about every run. Code that mutates objects is modelled as classes whose methods are proved
to compute a specification function; the theorems are about those functions, over all inputs and
all runs. `dafny verify dfyconfig.toml` checks everything.

| component | files |
|---|---|
| I/O event buffer: a ring with holes, a byte budget and an eviction log | Rings, RingTheorems, RingScans, RingRuns, RingLaps, EventBuffers |
| Lamport clock carried over W3C Trace Context headers | Strings, EventClocks, Tracestates, Traceparents, RequestContexts, LamportRuns |
| Capture-mode controller: one promise queue, adaptive phases, a switch budget | CaptureModes, CaptureModeLaws, CaptureControl, CaptureInvariants, CapturePhases, CaptureHistory, CaptureIntents, CaptureBudget, CaptureRuns, CaptureQuiet, CapturePaths, CaptureDuplicates, CaptureExcess, CaptureControllers |
| Bounded copy of arbitrary heaps | Clones, CloneTheorems, CloneTruncation, CloneAndLimits |
| Locals cache, lookup cascade, debugger guard | LocalsCaches, LocalsLookups, LocalsVerdicts, LocalsRuns, LocalsRingBuffers, InspectorGuards, InspectorManagers |
| Package assembly across a worker port | Dispatch, DispatchIds, DispatchInvariants, DispatchRuns, DispatchVerdicts, AssemblyDispatchers |
| Rate limiter, duplicate suppression, check digits | RateLimiters, Admissions, AdmissionRuns, Luhn |

## How to read it

Concurrency is a step system. A step is code that runs without an await: a caller's call, a
microtask, a timer, one segment of a queued task, one message. Between any two steps every other
enabled step may happen, and the theorems hold at every state of every run. Clocks are parameters
that do not go back where the code relies on that; random ids, hashes and the regular expression
that strips an error-name prefix are parameters too. Logs of what happened (evictions, switches,
settled promises, handed-out frames) are what an observer would write down; no decision reads them.

## Where the code does not do what is promised

The model follows the code. The lemmas and contracts named here say how a promise fails and, for all
inputs, when it holds.

- spec/03-io-event-buffer.md says drain and getRecent return the live events in order and the byte budget evicts the oldest. After
  releasing a slot in the middle of a full ring they need not (`InteriorReleaseBreaksScan`). Exactly when they do:
  `DrainExactIff` for drain, `RecentExactIff` for getRecent, the contract of `FilterByRequestId` for
  filterByRequestId, `OldestExactIff` for the eviction. `RingRefinesQueue` and `RecentOfQueue` have the
  runs on which they always do.
- spec/03-io-event-buffer.md says updatePayloadBytes only adjusts a counter. The code also enforces the byte budget.
- clear() keeps the set of stored slots, so a backfill on a cleared slot still moves the byte
  counter, and compactDetachedSlot on a slot that is still stored leaves the counter too high, which
  src/sdk.ts:670-679 does before releasing. The class contracts state the drift exactly.
- A clock of 0 is written as clk:0 and not read back (`FormatThenParse`). The outbound slot stamped
  after the header is therefore ordered before what the receiver stamps if and only if the sender's or
  the receiver's clock was at least 1 (`SlotOrderedIff`, `ZeroClockSlotNotCovered`).
- Duplicate adaptive intents that queue up while manual choices are being applied belong to the current
  generation, and more than one can be applied. No single request is applied twice
  (`SwitchesAreFreshAndOrdered`); a duplicate is applied only after a switch back requested before it
  (`DuplicatesSwitchOnlyAfterReturn`), and `DuplicateCanSwitchIff` says exactly when that can happen.
- maxSwitchesPerHour is not the bound on adaptive switches in an hour: the escalation that finds the
  budget spent still happens. `RollingHourBound` has the bound, `OverLimitIff` exactly when the limit is
  passed, `LimitIsExceeded` the runs that pass it.
- A property named __proto__ does not survive cloneAndLimit (`JsonRoundTrip`).
- The locals of another request are meant to be refused when recent matches differ in their frames. The
  code compares frames as one text, so frames that differ can read the same and the newer entry is handed
  out (`ConfusedIsHandedOut`), which needs a | in a function or file name (`ConfusableIff`);
  `ClosestTierVerdict` has the rule for all other entries.
- A late reply can settle another caller's promise once the ids have wrapped
  (`StaleReplyBeyondCycle`); it cannot as long as no id is taken while a message under way carries it
  (`EachGetsItsOwn`), and that guard is exact (`MatchedIffFresh`).
- Refreshing a key of the duplicate map keeps its place, so it can be evicted while others are older
  (`RefreshedKeyEvictedFirst`); `SuppressedIff` says exactly which captures are suppressed.
- The README of errorcore says a tripped locals guard re-arms after five quiet minutes. After a trip
  for pause time the five minutes start only at the next second evaluated
  (`PauseTimeTripRestartsClock`).
- The miss reason not_initialized cannot occur (`EnsureInitializes`).

## Model

| member | source | states |
|---|---|---|
| `RingRuns.Run` | src/buffer/io-event-buffer.ts:84-128 | Every state of every run of stores, resizes, compactions, releases, clears and foreign stamps satisfies the all-run invariant: each live slot at one logical position in the current lap, count and bytes exact, push order kept, and stored = live + overflowed + released + cleared |
| `RingTheorems.PushEveryRun` | src/buffer/io-event-buffer.ts:84-115 | push in every run: the new event is last, exactly the evicted events are gone and logged, the byte counter keeps its distance from the live bytes, and the budget holds unless the new event stands alone |
| `RingRuns.StoreBudget` | src/buffer/io-event-buffer.ts:84-115 | After a push from any reachable state the bytes are within maxBytes or the new event is the only one |
| `RingRuns.ResizeGood` | src/buffer/io-event-buffer.ts:117-128 | After a body backfill on a live slot the bytes are within maxBytes outright and the invariant holds; the backfilled event itself may be evicted |
| `RingTheorems.EnforceEvicts` | src/buffer/io-event-buffer.ts:380-384 | The budget loop terminates in every state and evicts live events only, each once, and nothing else changes |
| `RingTheorems.ReleaseRemoves` | src/buffer/io-event-buffer.ts:311-340 | Releasing a completed request takes exactly its events out of the live sequence, wherever they stand |
| `RingTheorems.PushFifo` | src/buffer/io-event-buffer.ts:84-115 | Without interior releases one push is a queue push: the same events dropped from the front, in order |
| `RingTheorems.OverdueIsLeast` | src/buffer/io-event-buffer.ts:369-384 | The number of events dropped for the budget is the least that suffices, or all |
| `RingRuns.RingRefinesQueue` | src/buffer/io-event-buffer.ts:84-128 | Any run without interior releases refines a bounded FIFO queue with a byte budget, and drain returns the whole queue in order |
| `RingScans.DrainExactIff` | src/buffer/io-event-buffer.ts:355-367 | The chronological scan returns the live events if and only if every position more than one lap old is a hole |
| `RingScans.BackwardScan` | src/buffer/io-event-buffer.ts:152-172 | Scanning backwards until n events or the read head finds the last n of the chronological scan |
| `RingScans.RecentExactIff` | src/buffer/io-event-buffer.ts:152-172 | getRecent(n) is the last min(n, live) live events if and only if n is at most the live count or no position more than one lap old is occupied |
| `RingScans.OldestExactIff` | src/buffer/io-event-buffer.ts:369-384 | The eviction for the byte budget takes the oldest live event, leaving the others in order, if and only if the walk from the read head meets no other event before its cell |
| `RingLaps.InteriorReleaseBreaksScan` | src/buffer/io-event-buffer.ts:386-424 | The documented order fails after an interior release, for every capacity of at least 3 (the configuration asks for 10) and every budget that does not bind: in the run that fills the ring, releases the second event and stores two more, drain returns the newest event twice and first, the byte budget would evict it as the oldest, seqGaps is minus the capacity, and getRecent(n) is wrong for exactly the n above the live count |
| `RingLaps.RoomyPushIsPush` | src/buffer/io-event-buffer.ts:84-115 | A push without the budget loop is the real push whenever the byte budget is not reached |
| `RingRuns.RecentInEveryRun` | src/buffer/io-event-buffer.ts:152-230 | In every run, releases included, getRecent(n) is the last min(n, live) live events in increasing order and seqGaps the number of clock values missing from them, for n up to the live count, and for every n when no position more than one lap old is occupied |
| `RingRuns.RecentOfQueue` | src/buffer/io-event-buffer.ts:152-230 | Without interior releases, for every n: getRecent(n) is the last min(n, count) items of the queue, and seqGaps the number of clock values missing between them |
| `RingRuns.SeqGapsCountsMissing` | src/buffer/io-event-buffer.ts:210-218 | For increasing stamps, last - first + 1 - length is the number of clock values missing between them |
| `EventBuffers.IOEventBuffer.Push` | src/buffer/io-event-buffer.ts:84-115 | The class method: stamps the clock, gives back a slot that holds every field of the event as pushed, so that an event still under way is in no completed set, stores unless context events are excluded, refines the ring push, keeps the byte balance, logs overflows, drops the request index, and keeps the live stamps increasing below the clock ceiling |
| `EventBuffers.IOEventBuffer.ActiveIsNotCompleted` | src/buffer/io-event-buffer.ts:283-340 | An event that is not finished is never among the completed slots that compaction and release take |
| `EventBuffers.EventWeight` | src/buffer/io-event-buffer.ts:29-38 | An event weighs 256 and the length of each of its bodies |
| `EventBuffers.DbMetaKept` | src/buffer/io-event-buffer.ts:465-492 | Compaction keeps the row count and the collection of a query, and nothing when it has neither |
| `EventBuffers.IOEventBuffer.UpdatePayloadBytes` | src/buffer/io-event-buffer.ts:117-128 | Refines the ring resize for an accepted slot and does nothing otherwise; the byte counter moves away from the live bytes by exactly the difference the caller failed to put in the slot |
| `EventBuffers.IOEventBuffer.EnforceByteBudget` | src/buffer/io-event-buffer.ts:380-384 | The loop evicts what the ring function evicts |
| `EventBuffers.IOEventBuffer.EvictIndex` | src/buffer/io-event-buffer.ts:386-424 | Empties one cell, adjusts count and bytes, records an overflow when asked, and advances the read head by at most one |
| `EventBuffers.IOEventBuffer.Drain` | src/buffer/io-event-buffer.ts:249-251 | Returns the chronological scan, which is the live events if and only if no position more than one lap old is occupied |
| `EventBuffers.IOEventBuffer.EvictOldest` | src/buffer/io-event-buffer.ts:369-378 | Takes out the element the ring function takes, and the live events lose exactly their first if and only if the walk to its cell meets no other |
| `EventBuffers.IOEventBuffer.FilterByRequestId` | src/buffer/io-event-buffer.ts:130-150 | The same subsequence of the scan whether the index was cached or is rebuilt; it is the live events of the request if and only if no slot of the request stands at a position more than one lap old |
| `EventBuffers.IOEventBuffer.GetRecent` | src/buffer/io-event-buffer.ts:152-172 | The last min(n, length) events of the scan, with the ids of exactly those requests; they are the last of the live events if and only if n is at most the live count or no position more than one lap old is occupied |
| `EventBuffers.IOEventBuffer.GetRecentWithContext` | src/buffer/io-event-buffer.ts:174-230 | The same events with counts, sequence range and the request ids in the order met from the newest back; seqGaps is the number of missing clock values whenever the stamps returned increase, which they do when the live stamps do (kept by every method from the empty buffer, below the clock ceiling) and n is at most the live count or no position more than one lap old is occupied |
| `EventBuffers.IOEventBuffer.GetEvictionLog` | src/buffer/io-event-buffer.ts:232-247 | The last min(100, overflowCount) overflow evictions, oldest first |
| `EventBuffers.IOEventBuffer.Clear` | src/buffer/io-event-buffer.ts:253-267 | Empties the ring and the byte counter but not the set of slots updatePayloadBytes still accepts |
| `EventBuffers.IOEventBuffer.CompactCompletedRequest` | src/buffer/io-event-buffer.ts:283-309 | Strips exactly the live completed events of the request, of their bodies and details and of nothing else, leaves every other live event as it was, and keeps the byte balance |
| `EventBuffers.IOEventBuffer.ReleaseCompletedRequest` | src/buffer/io-event-buffer.ts:311-340 | Refines the ring release with the completed events of the request, which leave stripped; every other event stays live and as it was, and overflow records are untouched |
| `EventBuffers.IOEventBuffer.CompactDetachedSlot` | src/buffer/io-event-buffer.ts:342-353 | Strips a finished slot; on a slot that is still stored the byte counter is left too high by exactly the bytes stripped |
| `EventClocks.EventClock.Tick` | src/context/event-clock.ts:14-24 | tick moves the clock on by one and stops at its ceiling |
| `EventClocks.EventClock.Merge` | src/context/event-clock.ts:26-36 | merge applies the Lamport rule to a usable received value and ignores anything else |
| `EventClocks.TickIncreasesIff` | src/context/event-clock.ts:14-24 | A tick is strictly larger if and only if the clock is below its ceiling |
| `EventClocks.MergeIsLamportRule` | src/context/event-clock.ts:26-36 | For a positive safe integer, merge is min(max(value, n) + 1, ceiling) |
| `Tracestates.ParseTracestate` | src/context/tracestate.ts:27-62 | The parse loop computes the first usable clock of our entries and the well-formed foreign entries in order |
| `Tracestates.FormatTracestate` | src/context/tracestate.ts:70-88 | The popping loop computes the header with the most inherited entries that fit |
| `Tracestates.ParseYields` | src/context/tracestate.ts:27-62 | Whatever the header, entries come out trimmed, well formed and foreign, and the clock positive and safe |
| `Tracestates.ParseExactly` | src/context/tracestate.ts:27-62 | Part by part: parse keeps every well-formed member under another key, trimmed and in order, and reads the first usable clock under ours; what a member is is said without the parser |
| `Tracestates.FormatWithinCaps` | src/context/tracestate.ts:70-88 | For any legal vendor key the header starts with our entry, has at most 32 members and 512 characters, and no longer prefix of the inherited entries would fit (section 3.3 of W3C Trace Context) |
| `Tracestates.FormatThenParse` | src/context/tracestate.ts:27-88 | Parsing a formatted header gives the clock back if and only if it is at least 1, and exactly the kept prefix of the inherited entries |
| `Traceparents.FormatThenParse` | src/context/als-manager.ts:42-80 | Parsing a rendered traceparent gives the ids and the low byte of the flags back (section 3.2 of W3C Trace Context) |
| `Traceparents.RenderingParses` | src/context/als-manager.ts:42-80 | Whatever version below ff wrote it, a header with valid ids is read as its fields, and only a version after 00 may say more |
| `Traceparents.ParsedIsRendering` | src/context/als-manager.ts:42-80 | No other header is accepted |
| `Traceparents.Version00Exact` | src/context/als-manager.ts:42-80 | A version 00 header is accepted if and only if it is the rendering of non-zero lower-case ids and one flag byte |
| `RequestContexts.LazyRequestContext.EnsureTraceMaterialized` | src/context/als-manager.ts:316-347 | Once only: merges the inbound clock before any stamp; with a valid traceparent takes its trace id, its parent id as parent span, its flags and the raw tracestate and is no entry span, else starts a trace under the new ids with flags 1, no parent and an entry span |
| `RequestContexts.LazyRequestContext.GetTraceHeaders` | src/context/als-manager.ts:484-539 | Both outbound headers, from the materialized trace and the current clock; the traceparent, parsed, names the trace and this span |
| `RequestContexts.TraceContinuesIff` | src/context/als-manager.ts:316-347 | A request continues exactly the trace its header carries and originates one when it carries none |
| `RequestContexts.ChainKeepsTrace` | src/context/als-manager.ts:517-526 | End to end through any number of services the trace id and flags that came in go out, with the last service's span as parent |
| `RequestContexts.NewTraceIsCarried` | src/context/als-manager.ts:336-347 | A trace started by a service leaves in its outbound header and so is kept by the chain after it |
| `LamportRuns.LamportCondition` | src/context/als-manager.ts:316-347 | Over all runs of any number of services, stamps increase along every chain of program order and delivered headers while the last one is below the ceiling; the outbound slot stamped after the header is covered when the sender clock was at least 1 |
| `LamportRuns.SlotOrderedIff` | src/recording/http-client.ts:256-285 | In every run, when a service takes in a header beside a valid traceparent, the slot its sender stamped after writing it is ordered before everything the service stamps from then on, in every continuation, if and only if the sender clock or the service's own clock was at least 1 |
| `LamportRuns.ZeroClockSlotNotCovered` | src/recording/http-client.ts:256-285 | The other case happens: a fresh service sends clk:0, which is not carried, and its outbound slot and a fresh receiver's first event are both stamped 1 |
| `CaptureModes.OverwriteKeepsResolution` | src/capture-mode.ts:326-428 | Overwriting the config with a resolved mode changes no later resolution |
| `CaptureModes.ResolutionForgetsHistory` | src/sdk.ts:531-552 | After any sequence of switches every mode resolves as it did at init |
| `CaptureModeLaws.CapturedIff` | src/capture-mode.ts:326-428 | Exactly what a mode captures: a setting decides when given, the mode decides otherwise, and the fast mode turns everything off |
| `CaptureModeLaws.BodiesIff` | src/capture-mode.ts:358-370 | Bodies likewise, where a control for either direction sets captureBody aside for both |
| `CaptureModeLaws.CapabilitiesIff` | src/capture-mode.ts:309-324 | What each capability follows from |
| `CaptureModeLaws.LocalsSettings` | src/capture-mode.ts:386-427 | The locals guard and limits: off without locals or when set off, the user's limits or 50 and 250, deep only in the forensic mode |
| `CaptureModeLaws.ResolvesIff` | src/capture-mode.ts:285-357 | Resolution fails exactly on a limit that is not positive or, outside the fast mode, a flush interval other than 0 below one second |
| `CaptureModeLaws.HigherCapturesMore` | src/capture-mode.ts:43-120 | With the same settings a higher mode captures all that a lower one does, so escalating never loses data |
| `CaptureModeLaws.RecordersOf` | src/capture-mode.ts:43-120 | Which recorders each mode has, and its flush interval |
| `CaptureModes.DiffEmptyIff` | src/capture-mode-controller.ts:55-83 | The diff of two mode states is empty if and only if they are equal |
| `CaptureModes.SwitchIsNoOpIff` | src/capture-mode-controller.ts:222-246 | A switch between resolved states is a no-op if and only if the mode is the same |
| `CaptureInvariants.ToggleReachesFresh` | src/capture-mode-controller.ts:248-312 | Toggling only the resources that differ ends where a fresh activation in the new mode would |
| `CaptureInvariants.SwitchOnReachesFresh` | src/sdk.ts:222-303 | activate from nothing turns on exactly what the mode wants |
| `CaptureRuns.PhaseTellsMode` | src/capture-mode-controller.ts:173-442 | On every interleaving, between queued tasks, base implies the base mode, escalated and pinned the escalated mode, manual neither; escalated implies both timestamps are set |
| `CaptureRuns.ResourcesFollowMode` | src/capture-mode-controller.ts:248-312 | At every await point while active the resources are those of a fresh activate() in the current mode, also for a switch begun before activation, and the mode state is what the mode resolves to at init |
| `CaptureRuns.SwitchesAreFreshAndOrdered` | src/capture-mode-controller.ts:195-213 | Every adaptive switch that begins was asked for after every manual choice accepted before it began; switches begin in the order of their requests, so no request is applied twice; and two switches to one mode have a switch back or a manual choice between them |
| `CaptureRuns.DuplicatesSwitchOnlyAfterReturn` | src/capture-mode-controller.ts:338-408 | A queued duplicate, asked for no later than an earlier switch to its mode began, is applied only after a switch back that was itself asked for before the duplicate |
| `CaptureDuplicates.DuplicateCanSwitchIff` | src/capture-mode-controller.ts:173-213 | The exact law of duplicates: as a switch begins, an intent already waiting can still be applied to the same mode in some continuation if and only if an intent of the current generation to go back waits ahead of one to do the same again |
| `CaptureDuplicates.DuplicateDoesSwitch` | src/capture-mode-controller.ts:314-408 | And it happens: under every configuration with adaptive capture there is a run in which a duplicate queued behind manual choices is applied |
| `CaptureRuns.SwitchesWereAskedFor` | src/capture-mode-controller.ts:314-336 | Every adaptive return to base was asked for by a timer evaluation, every escalation by a capture admitted in the base mode and phase |
| `CaptureQuiet.TickAsksIff` | src/capture-mode-controller.ts:314-336 | The exact law of the return to base, over steps and log: a timer evaluation queues it if and only if the phase is escalated, the instance active, every capture ever admitted and every manual choice of the escalated mode at least the quiet time old, and every escalation, adaptive or manual, at least the dwell time |
| `CaptureQuiet.ReturnsAreQuiet` | src/capture-mode-controller.ts:314-336 | So every return to base that begins was asked for after that long without a capture and that long after the last escalation |
| `CaptureQuiet.CaptureAsksIff` | src/capture-mode-controller.ts:173-193 | An admitted capture asks to escalate if and only if it was taken in the base mode, the phase is base and no request of the current generation waits |
| `CaptureQuiet.RequestQueuedIff` | src/capture-mode-controller.ts:338-351 | The request is queued at its microtask if and only if the instance is active |
| `CaptureQuiet.SwitchCountedIff` | src/capture-mode-controller.ts:248-312 | The switch count grows by one exactly as a task finds its change applied |
| `CaptureQuiet.FlushesAgainIff` | src/capture-mode-controller.ts:294-306 | Before the flush timer restarts the buffer is flushed exactly when the timer comes on or the switch is into or out of the fast mode, while active |
| `CaptureQuiet.ShutdownTurnsOff` | src/capture-mode-controller.ts:147-154 | In every run no timer evaluates once shutdown began, and once it ended nothing is on and no task runs |
| `CaptureQuiet.RearmsIff` | src/capture-mode-controller.ts:376-436 | The locals guard is re-armed exactly when an adaptive escalation ends, or a manual choice of the escalated mode while active and not escalated |
| `CaptureRuns.RollingHourBound` | src/capture-mode-controller.ts:353-390 | In any rolling hour adaptive switches number at most maxSwitchesPerHour + 1 + the manual choices completed in it |
| `CaptureRuns.OverLimitIff` | src/capture-mode-controller.ts:353-390 | The exact law of the hour limit: a switch makes the hour ending with it hold more than maxSwitchesPerHour switches if and only if it is an escalation that began when the hour already held that many |
| `CaptureExcess.LimitIsExceeded` | src/capture-mode-controller.ts:353-390 | For every setting for which half as many quiet and dwell times fit in an hour there is a run without manual choices with maxSwitchesPerHour + 1 adaptive switches in one hour |
| `CaptureBudget.HourBound` | src/capture-mode-controller.ts:353-390 | The same bound for any log in time order, and without the extra one when no switch found the budget spent |
| `CaptureBudget.PinnedIsAbsorbing` | src/capture-mode-controller.ts:353-442 | Once pinned, no step but a finishing manual choice leaves the phase or begins a switch |
| `CaptureRuns.NothingAppliesAfterShutdown` | src/capture-mode-controller.ts:147-154 | Once shutdown has begun and no task runs, the mode never changes again |
| `CaptureControllers.SdkInstance.Activate` | src/sdk.ts:222-303 | Only from created: turns on what the mode wants, starts the flush timer, becomes active |
| `CaptureControllers.SdkInstance.ToggleRecorders` | src/capture-mode-controller.ts:248-312 | Computes the incremental toggle |
| `CaptureControllers.SdkInstance.RestartFlushTimer` | src/sdk.ts:426-446 | The timer runs with the mode's interval exactly when the mode ships over a transport and the interval is positive |
| `CaptureControllers.SdkInstance.ApplyModeStateToConfig` | src/sdk.ts:531-552 | Overwrites the fields of the shared config that resolution reads |
| `CaptureControllers.CaptureModeController.SetCaptureMode` | src/capture-mode-controller.ts:195-213 | The class method takes the controller's view one step of the protocol further: accepted in the first two lifecycle states: outdates adaptive intents and queues the manual task |
| `CaptureControllers.CaptureModeController.HandleAdmittedCapture` | src/capture-mode-controller.ts:173-193 | The class method takes the controller's view one step of the protocol further: notes the capture and queues at most one escalation microtask |
| `CaptureControllers.CaptureModeController.RunMicrotask` | src/capture-mode-controller.ts:184-191 | The class method takes the controller's view one step of the protocol further: the microtask queues an adaptive task if still active |
| `CaptureControllers.CaptureModeController.EvaluateAdaptiveDeescalation` | src/capture-mode-controller.ts:314-336 | The class method takes the controller's view one step of the protocol further: the timer checks quiet and dwell times |
| `CaptureControllers.CaptureModeController.StartTask` | src/capture-mode-controller.ts:353-390 | The class method takes the controller's view one step of the protocol further: the head of the queue runs to its first await |
| `CaptureControllers.CaptureModeController.ApplyAdaptiveCaptureMode` | src/capture-mode-controller.ts:353-390 | The class method takes the controller's view one step of the protocol further: generation and phase checks, the rolling-hour filter, pinning |
| `CaptureControllers.CaptureModeController.BeginApply` | src/capture-mode-controller.ts:222-246 | The class method takes the controller's view one step of the protocol further: resolve, diff, and the first await of applyModeState |
| `CaptureControllers.CaptureModeController.ResumeTask` | src/capture-mode-controller.ts:248-312 | The class method takes the controller's view one step of the protocol further: the segment after each await |
| `CaptureControllers.CaptureModeController.FinishTask` | src/capture-mode-controller.ts:410-442 | The class method takes the controller's view one step of the protocol further: the phase a finished task leaves |
| `CaptureControllers.CaptureModeController.FilterRecent` | src/capture-mode-controller.ts:366-368 | The class method takes the controller's view one step of the protocol further: the switches less than an hour old, in order |
| `CaptureControllers.CaptureModeController.Activate` | src/capture-mode-controller.ts:132-145 | The class method takes the controller's view one step of the protocol further: starts resources and, with adaptive capture, the timer |
| `CaptureControllers.CaptureModeController.BeginShutdown` | src/capture-mode-controller.ts:147-154 | The class method takes the controller's view one step of the protocol further: stops the timer and closes the lifecycle to new switches |
| `CloneAndLimits.CloneAndLimit` | src/serialization/clone-and-limit.ts:224-232 | With one mutable budget and one mutable visited set, computes the path-based copy on any heap, cyclic or shared, and terminates |
| `CloneAndLimits.CloneAndLimitInternal` | src/serialization/clone-and-limit.ts:234-397 | One call equals the copy function, leaves its balance in the budget, and hands the visited set back unchanged |
| `CloneAndLimits.CloneMap` | src/serialization/clone-and-limit.ts:45-82 | The Map loop stops at the width cap or when the budget is spent |
| `CloneAndLimits.CloneSet` | src/serialization/clone-and-limit.ts:84-118 | The Set loop, likewise |
| `CloneAndLimits.CloneArray` | src/serialization/clone-and-limit.ts:141-176 | The array loop, and the bare array or the truncation record |
| `CloneAndLimits.CloneObject` | src/serialization/clone-and-limit.ts:178-218 | The object loop, assigning copies one key at a time |
| `CloneTheorems.WorkIsBounded` | src/serialization/clone-and-limit.ts:224-397 | On any heap at most 1 + 2 * ceil(maxPayloadSize / 4) recursive calls are made |
| `CloneTheorems.CallsBounded` | src/serialization/clone-and-limit.ts:234-397 | Every call makes at most two calls below it for each four units of budget it used |
| `CloneTheorems.NestingIsBounded` | src/serialization/clone-and-limit.ts:246-248 | No call is nested deeper than maxDepth + 1, and each is reached from the root value along real heap edges, one per level |
| `CloneTheorems.CircularExactly` | src/serialization/clone-and-limit.ts:319-391 | Past the budget and depth checks a container is reported circular if and only if it is on its own root path, and then the heap has a cycle through it |
| `CloneTheorems.SharedIsNotCircular` | src/serialization/clone-and-limit.ts:319-391 | On an acyclic heap nothing is ever reported circular, however shared |
| `CloneTheorems.CopiesAlign` | src/serialization/clone-and-limit.ts:141-218 | A loop turn is taken if and only if the turns before it were and left some budget; it then copies the element at its own place with exactly what they left, less its charge |
| `CloneTruncation.VisitVerdict` | src/serialization/clone-and-limit.ts:234-397 | Every call with no budget or too deep returns its marker; otherwise every value that is not a container is copied, a string or a buffer's text as itself when it fits and else as its first characters up to the limit, the smaller of maxStringLength and the budget left for a string, and a note of its length |
| `CloneTruncation.LeafCharge` | src/serialization/clone-and-limit.ts:246-285 | What a value that is not a container costs the budget: 8 for a primitive, its copy's length for a string, its digits and 20 for a BigInt, nothing for the rest |
| `CloneTruncation.TextsAreCut` | src/serialization/clone-and-limit.ts:37-43 | On any heap no text copied from a string or a buffer is longer than maxStringLength and the note |
| `CloneTruncation.AllTextIsBounded` | src/serialization/clone-and-limit.ts:274-279 | On any heap all strings copied together come to at most maxPayloadSize characters and one note |
| `CloneTruncation.CollectionVerdict` | src/serialization/clone-and-limit.ts:45-118 | A Map or Set says its size, holds the copies made, and is marked truncated if and only if they are not all |
| `CloneTruncation.ObjectVerdict` | src/serialization/clone-and-limit.ts:178-218 | An object comes back with each copy under its own key, __proto__ aside, and with the truncation marks if and only if not every property was copied |
| `CloneTheorems.ArrayVerdict` | src/serialization/clone-and-limit.ts:167-175 | A plain array comes back if and only if every item was copied; otherwise the record holds the original length |
| `CloneTheorems.JsonRoundTrip` | src/serialization/clone-and-limit.ts:141-287 | A JSON tree within the depth, width and string limits and cheaper than the budget is copied, and the copy equals it if and only if it has no __proto__ property, which assignment drops |
| `LocalsRingBuffers.LocalsRingBuffer.AllocateId` | src/capture/inspector-manager.ts:45-47 | The next decimal number, never given before |
| `LocalsRingBuffers.LocalsRingBuffer.Push` | src/capture/inspector-manager.ts:49-53 | Prune, append, drop the oldest beyond the capacity |
| `LocalsRingBuffers.LocalsRingBuffer.Resize` | src/capture/inspector-manager.ts:55-58 | Keeps the newest entries that fit |
| `LocalsRingBuffers.LocalsRingBuffer.PruneExpired` | src/capture/inspector-manager.ts:60-69 | The backward splice loop keeps exactly the entries whose age is in range, in order |
| `LocalsRingBuffers.LocalsRingBuffer.ConsumeFrames` | src/capture/inspector-manager.ts:71-76 | Removes the first entry with these frames and says whether there was one |
| `LocalsRingBuffers.LocalsRingBuffer.GetById` | src/capture/inspector-manager.ts:82-87 | The newest entry with the id |
| `LocalsRingBuffers.LocalsRingBuffer.FindByIdentity` | src/capture/inspector-manager.ts:89-109 | The newest entry that matches on all five fields |
| `LocalsRingBuffers.LocalsRingBuffer.FindByDegradedKey` | src/capture/inspector-manager.ts:152-168 | The entries that match on all fields but the hash, in order |
| `LocalsRingBuffers.LocalsRingBuffer.DiagnoseIdentityMiss` | src/capture/inspector-manager.ts:117-150 | The scoring loop names the field at which the entry that agrees deepest first disagrees |
| `LocalsCaches.ScoreIsLexicographic` | src/capture/inspector-manager.ts:130-136 | The 16/8/4/2/1 score orders agreements lexicographically |
| `LocalsCaches.BestScoreIsDeepest` | src/capture/inspector-manager.ts:117-150 | An entry of maximal score agrees on the longest run of leading fields |
| `LocalsLookups.ClosestTierWins` | src/capture/inspector-manager.ts:713-937 | In a request an entry comes only from the closest tier with any match and, among several, only if exact or at most a second old; ambiguity needs several matches there; a miss means no tier has any |
| `LocalsVerdicts.ClosestTierVerdict` | src/capture/inspector-manager.ts:713-937 | The answer from the closest tier, said of entries, ages and frame fields: across requests the only match, the only recent one, or the newest of recent ones whose frames agree in function, file, line and column, else ambiguous; inside the request the only match or the newest recent one, else ambiguous; as long as no two entries with different frames read the same |
| `LocalsVerdicts.OwnNewest` | src/capture/inspector-manager.ts:500-509 | Inside the request, among several matches in capture order, the newest is handed out if any is recent |
| `LocalsVerdicts.SignatureIff` | src/capture/inspector-manager.ts:469-475 | Frames without | in a name read the same if and only if they agree in every field |
| `LocalsVerdicts.ConfusableIff` | src/capture/inspector-manager.ts:469-475 | Frames read the same as other frames, as many of them, if and only if a name contains | |
| `LocalsVerdicts.ConfusedIsHandedOut` | src/capture/inspector-manager.ts:477-498 | Then two recent entries that differ are not refused: the newer is handed out |
| `LocalsLookups.LabelsAreSound` | src/capture/inspector-manager.ts:704-971 | Each degradation label says exactly which fields match, and that the dropped one does not |
| `LocalsLookups.ExactIff` | src/capture/inspector-manager.ts:713-729 | The exact label is given if and only if some entry matches on all five fields, and then to the newest |
| `LocalsLookups.MissMeansUnknownError` | src/capture/inspector-manager.ts:713-971 | In a request the answer is cache_miss if and only if no entry has the name and message and none is recent and similar; so its reason is never frame_count_mismatch or hash_mismatch |
| `LocalsLookups.BackgroundIff` | src/capture/inspector-manager.ts:938-957 | Outside a request one full match is handed out, several are refused, none is a miss |
| `LocalsRuns.HandedOutAtMostOnce` | src/capture/inspector-manager.ts:634-689 | In every run no frames are handed out twice, nothing handed out is still cached, the capacity holds, and stored = live + handed out + dropped |
| `LocalsRuns.LookupIsFresh` | src/capture/inspector-manager.ts:668-689 | What is handed out is at most 30 s old, and by tag it is the very capture with that id |
| `LocalsRuns.ConsumeExact` | src/capture/inspector-manager.ts:71-76 | Consuming an entry's frames removes that entry and no other |
| `InspectorManagers.InspectorManager.Layer2Lookup` | src/capture/inspector-manager.ts:704-971 | The cascade of tests computes the tiered lookup |
| `InspectorManagers.InspectorManager.GetLocalsWithDiagnostics` | src/capture/inspector-manager.ts:634-689 | Gate by gate, then prune, tag, cascade; exactly the entry handed out leaves the cache |
| `InspectorManagers.InspectorManager.EnsureDebuggerActive` | src/capture/inspector-manager.ts:986-1013 | Arms the debugger unless tripped, unavailable or without a session |
| `InspectorManagers.InspectorManager.EvaluatePauseRateGuard` | src/capture/inspector-manager.ts:1119-1139 | One second of the guard |
| `InspectorManagers.InspectorManager.EvaluateGuardRecovery` | src/capture/inspector-manager.ts:1182-1207 | One second of a tripped guard |
| `InspectorManagers.InspectorManager.RecordPauseWallTime` | src/capture/inspector-manager.ts:1141-1154 | Pause time within a minute's window |
| `InspectorManagers.InspectorManager.ApplyModeState` | src/capture/inspector-manager.ts:1030-1062 | Takes over a mode's settings and disarms or re-arms |
| `InspectorManagers.EnsureInitializes` | src/capture/inspector-manager.ts:662-666 | After the gates initialization has always been tried, so the reason not_initialized is never given |
| `InspectorGuards.ArmedOnlyWhenAllowed` | src/capture/inspector-manager.ts:986-1062 | In every run the debugger is armed only with a session, with locals wanted and available, and never while the guard is tripped |
| `InspectorGuards.TripNeedsSustainedLoad` | src/capture/inspector-manager.ts:1119-1139 | A second trips the guard only as the last of ten evaluated seconds in a row over the limit |
| `InspectorGuards.TripIff` | src/capture/inspector-manager.ts:1119-1139 | The exact law: a second trips the guard if and only if the guard is enabled and that second is at least the tenth overloaded one in a row since the guard last started over |
| `InspectorGuards.OverloadedIff` | src/capture/inspector-manager.ts:1119-1139 | In every run a second is overloaded if and only if more pauses came in it than allowed, or, tripped, the pauses of the window still exceed their allowance |
| `InspectorGuards.PauseTripsIff` | src/capture/inspector-manager.ts:1141-1154 | In every run a pause trips the guard, and disarms, if and only if the pauses of its window then exceed a minute's allowance |
| `InspectorGuards.ModeAppliedIff` | src/capture/inspector-manager.ts:1030-1062 | A mode sets what is wanted and the limits; without locals it disarms, with the guard off it lifts a trip, and else leaves it |
| `InspectorGuards.IdleDisarms` | src/capture/inspector-manager.ts:2039-2062 | The idle time-out disarms and changes nothing else |
| `InspectorGuards.ShutdownIsOff` | src/capture/inspector-manager.ts:1072-1109 | After shutdown the debugger stays off until a mode or a manual re-arming comes |
| `InspectorGuards.EnsureArmsIff` | src/capture/inspector-manager.ts:986-1013 | Asked to, the debugger is armed if and only if the guard is not tripped, locals are available and there is or can be had a session |
| `InspectorGuards.RecoveryArmsIff` | src/capture/inspector-manager.ts:1182-1207 | A lifted trip leaves the debugger armed again if and only if locals are wanted |
| `InspectorGuards.RecoveryNeedsQuiet` | src/capture/inspector-manager.ts:1182-1207 | A tick lifts a trip if and only if that second is quiet and five minutes have passed since the trip and since every overloaded second |
| `InspectorGuards.PauseTimeTripRestartsClock` | src/capture/inspector-manager.ts:1182-1197 | A trip for pause time restarts its five minutes at the first second evaluated after it |
| `DispatchIds.IdFoundIff` | src/capture/package-assembly-dispatcher.ts:79-93 | nextRequestId finds an id if and only if fewer than max are pending; it is in [1, max], not pending, and the next free one |
| `DispatchRuns.IdAvailableIff` | src/capture/package-assembly-dispatcher.ts:79-93 | The same at every reachable state of the protocol |
| `DispatchRuns.SettledAtMostOnce` | src/capture/package-assembly-dispatcher.ts:118-186 | In every run, whatever the ids, no promise settles twice and each is pending or settled |
| `DispatchRuns.OneCycleEachGetsItsOwn` | src/capture/package-assembly-worker.ts:24-62 | Within one cycle of ids, through time-outs, failures and shutdown, a resolved assembly is the build of its own parts under the last resolvable config posted before it |
| `DispatchRuns.EachGetsItsOwn` | src/capture/package-assembly-dispatcher.ts:246-277 | The same for any run in which no id is taken while a message under way carries it, and only for requests posted before a shutdown |
| `DispatchRuns.MatchedIffFresh` | src/capture/package-assembly-dispatcher.ts:79-93 | That guard is exact: messages and pending promises match at every state of a run if and only if no id was taken while a message under way carried it |
| `DispatchInvariants.PostMatchedIff` | src/capture/package-assembly-dispatcher.ts:118-143 | At one posting: messages and promises stay matched if and only if no message in either direction carries the id just chosen |
| `DispatchVerdicts.EachGetsWhatIsDue` | src/capture/package-assembly-dispatcher.ts:246-277 | Under that guard every settled promise timed out, lost its worker, or got exactly what was due: an assembly its build or an error, an update or a stop its acknowledgement, an update that does not resolve an error |
| `DispatchVerdicts.ReplySettlesIff` | src/capture/package-assembly-dispatcher.ts:246-277 | And a reply that arrives settles its caller, with what is due, if and only if that caller still waits, and nobody else |
| `DispatchRuns.TimelyIsFresh` | src/capture/package-assembly-dispatcher.ts:73-93 | The guard holds when no message outlives a round of ids |
| `DispatchRuns.OneCycleIsTimely` | src/capture/package-assembly-dispatcher.ts:73-93 | None does until max ids have been tried, whatever the delays |
| `DispatchRuns.StaleReplyBeyondCycle` | src/capture/package-assembly-dispatcher.ts:246-277 | Beyond a cycle it fails, for every largest id, that of the code included: max requests time out while the worker is busy, and the late reply to the first settles the next caller, who has its id, with the wrong package |
| `DispatchRuns.FailureSettlesAll` | src/capture/package-assembly-dispatcher.ts:279-311 | When the worker fails or exits every promise made so far is settled and the dispatcher has no worker |
| `DispatchRuns.NoneAfterWorker` | src/capture/package-assembly-dispatcher.ts:118-143 | Without a worker no promise is made at any later state |
| `DispatchInvariants.QueuedNext` | src/capture/package-assembly-dispatcher.ts:145-186 | Every queued message will find the config posted last before it |
| `AssemblyDispatchers.PackageAssemblyDispatcher.NextRequestId` | src/capture/package-assembly-dispatcher.ts:79-93 | The probe loop computes the bounded search, counting the ids it looked at |
| `AssemblyDispatchers.PackageAssemblyDispatcher.Assemble` | src/capture/package-assembly-dispatcher.ts:118-143 | The method is one step of the protocol |
| `AssemblyDispatchers.PackageAssemblyDispatcher.UpdateConfig` | src/capture/package-assembly-dispatcher.ts:150-186 | The method is one step of the protocol |
| `AssemblyDispatchers.PackageAssemblyDispatcher.Shutdown` | src/capture/package-assembly-dispatcher.ts:188-212 | The method is one step of the protocol |
| `AssemblyDispatchers.PackageAssemblyDispatcher.OnTimeout` | src/capture/package-assembly-dispatcher.ts:130-134 | The method is one step of the protocol |
| `AssemblyDispatchers.PackageAssemblyDispatcher.OnMessage` | src/capture/package-assembly-dispatcher.ts:246-277 | The method is one step of the protocol |
| `AssemblyDispatchers.PackageAssemblyDispatcher.FailPending` | src/capture/package-assembly-dispatcher.ts:305-311 | Rejects every pending promise, oldest first |
| `AssemblyDispatchers.PackageAssemblyDispatcher.OnError` | src/capture/package-assembly-dispatcher.ts:279-283 | The method is one step of the protocol |
| `AssemblyDispatchers.PackageAssemblyDispatcher.OnExit` | src/capture/package-assembly-dispatcher.ts:285-296 | The method is one step of the protocol |
| `AssemblyDispatchers.PackageAssemblyWorker.OnMessage` | src/capture/package-assembly-worker.ts:24-62 | One turn of the worker loop: build, take a config over, or acknowledge and close |
| `RateLimiters.RateLimiter.TryAcquire` | src/security/rate-limiter.ts:29-54 | Grants or drops as the window says and keeps the drop counters |
| `RateLimiters.RateLimiter.GetAndResetDropSummary` | src/security/rate-limiter.ts:56-72 | Reports the drops since the last report and starts over |
| `RateLimiters.NoWindowOverfull` | src/security/rate-limiter.ts:29-54 | With a clock that never goes back no window (a, a + windowMs] holds more than maxCaptures grants |
| `RateLimiters.GrantedIffRoom` | src/security/rate-limiter.ts:29-54 | A request is granted if and only if the window ending with it holds fewer than maxCaptures grants |
| `RateLimiters.DropsAreConserved` | src/security/rate-limiter.ts:40-72 | Below saturation, reported drops plus waiting drops are all drops, dated by the first and last that wait |
| `Admissions.AdmissionGate.AdmitCapture` | src/capture/error-capturer.ts:549-603 | Duplicate check, then limiter, then remembering: verdict, state and counters |
| `Admissions.SuppressedHasRecentOriginal` | src/capture/error-capturer.ts:556-577 | A suppressed capture takes no token and changes nothing, the last admitted capture with its key is less than 10 s old, and the map stays within its bound |
| `Admissions.SuppressedIff` | src/capture/error-capturer.ts:556-603 | The exact law of duplicate suppression, in every run through the gate: a capture is suppressed if and only if its key was last admitted less than 10 s earlier and fewer keys than the map holds were inserted since that key was; a refresh does not count as an insertion |
| `AdmissionRuns.VerdictIff` | src/capture/error-capturer.ts:549-603 | The whole verdict from what happened before: suppressed by that law, else admitted if and only if the window that ends now holds fewer than maxCaptures admissions |
| `AdmissionRuns.AdmittedWindow` | src/capture/error-capturer.ts:579-590 | With a clock that does not go back no window holds more than maxCaptures admitted captures |
| `AdmissionRuns.AdmissionReports` | src/capture/error-capturer.ts:579-590 | Every admission reports exactly the captures refused since the admission before it: how many, the first and the last |
| `Admissions.CompleteWhileFewKeys` | src/capture/error-capturer.ts:592-603 | So while no more keys were admitted than the map holds, a capture is suppressed if and only if its key was last admitted less than 10 s earlier |
| `Admissions.RefreshedKeyEvictedFirst` | src/capture/error-capturer.ts:596-602 | The second half of the law is needed: for every map bound, that of the code included, and every rate limit that a capture each five seconds does not reach, a run of captures through the gate after which an error admitted less than 10 s before is admitted again, because its refreshed key was evicted first |
| `Luhn.IsValidLuhn` | src/pii/patterns.ts:99-115 | The loop equals the Luhn sum definition on 13 to 19 digits (Annex B of ISO/IEC 7812-1) |
| `Luhn.SingleErrorCaught` | src/pii/patterns.ts:99-115 | Changing any one digit of a valid number makes it invalid |
| `Luhn.AdjacentSwapCaughtIff` | src/pii/patterns.ts:99-115 | Swapping two different adjacent digits keeps a number valid if and only if they are 0 and 9 |
| `Luhn.CheckDigitIsUnique` | src/pii/patterns.ts:99-115 | Every payload of 12 to 18 digits has exactly one valid check digit |

## Left out

- EventBuffers.IOEventBuffer.CompactDetachedSlot: does not require the slot to be detached, as the code does not; it states the drift instead.
- EventBuffers.IOEventBuffer.GetRecentWithContext: says what seqGaps counts only when the events returned are increasing, because after an interior release the scan may not be.
- CaptureRuns.RollingHourBound: counts manual choices by when they complete, which is when the code forgets or keeps the phase; the extra one is the code's.
- DispatchRuns.EachGetsItsOwn: requires that no id is taken while a message under way carries it; without that it is false.
- Eviction timestamps, hrtime stamps, the slot fields method, url, statusCode, fd, endTime and durationMs, and the body-release callbacks of the buffer.
- Headers, bodies, the materialization hook and request counters of LazyRequestContext; random id generation is a parameter.
- CaptureModeController: the results returned to callers, warnings, and errors thrown by resource callbacks. A flush interval under 1000 ms is refused only when a mode other than fast is resolved, so a switch can fail; that path is modelled.
- SDKInstance: prepareForRequestStart and performShutdown are steps of the protocol but have no method here; the dead-letter drain, transports and listeners are left out.
- A timer of the controller fires only when no microtask is pending, as in Node.js.
- Exceptions from user getters, proxies and iterators in cloneAndLimit, BigInt typed arrays, and the parameters currentDepth and visited, which no caller passes.
- A reference the heap map does not list is an empty object; strings are sequences of characters, so a surrogate pair counts once.
- Inspector session calls, stack-text parsing, frame selection and source maps; SHA-1 is a parameter through the structural hash.
- The rate limit on collections per second and the log of missed collections in the inspector.
- postMessage errors (values that cannot be cloned) and malformed messages in the dispatcher; the terminate() calls of shutdown appear as the worker's exit.
- Clock readings that are not integers.
- The building of error packages, scrubbing, encryption, the spool, transports, recorders, middleware, the CLI and the dashboard.
