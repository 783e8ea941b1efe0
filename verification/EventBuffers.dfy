/**
  IOEventBuffer: slot objects shared with the recorders, held in a ring of references that is
  updated in place.  Each operation is proved to do to the ring what its function in Rings says.
*/
module EventBuffers {
  import opened Wrappers
  import opened EventClocks
  import opened Rings
  import opened RingTheorems
  import opened RingScans
  import opened RingRuns

  const METADATA_OVERHEAD: int := 256
  const EVICTION_LOG_CAPACITY: int := 100

  datatype Phase = Active | Done

  /** Fields a slot never changes once stamped. */
  datatype EventKind = EventKind(eventType: string, direction: string, target: string, startTime: int)

  datatype DbMeta = DbMeta(query: Option<string>, params: Option<string>, rowCount: Option<int>, collection: Option<string>)

  /** Everything about the payload apart from the two bodies. */
  datatype PayloadDetail = PayloadDetail(
    requestHeaders: Option<map<string, string>>, responseHeaders: Option<map<string, string>>,
    requestBodyDigest: Option<string>, responseBodyDigest: Option<string>,
    requestPayloadRef: Option<int>, responsePayloadRef: Option<int>,
    requestBodyTruncated: bool, responseBodyTruncated: bool,
    requestBodyOriginalSize: Option<int>, responseBodyOriginalSize: Option<int>,
    dbMeta: Option<DbMeta>)

  datatype PushableEvent = PushableEvent(
    kind: EventKind, phase: Phase, requestId: Option<string>, contextLost: bool,
    failed: bool, aborted: bool, requestBody: Option<string>, responseBody: Option<string>, detail: PayloadDetail)

  datatype EvictionRecord = EvictionRecord(seqNo: int, kind: EventKind, requestId: Option<string>)

  datatype AmbientContext = AmbientContext(
    totalBufferEvents: int, seqRange: Option<(int, int)>, seqGaps: int, distinctRequestIds: seq<string>, retrievedCount: int)

  function BodyLength(body: Option<string>): nat {
    if body.Some? then |body.value| else 0
  }

  function EstimateBytes(requestBody: Option<string>, responseBody: Option<string>): int {
    METADATA_OVERHEAD + BodyLength(requestBody) + BodyLength(responseBody)
  }

  /** dbMeta keeps its row count and collection, or disappears when it has neither. */
  function CompactDbMeta(meta: Option<DbMeta>): Option<DbMeta> {
    if meta.None? || (meta.value.rowCount.None? && meta.value.collection.None?) then None
    else Some(DbMeta(None, None, meta.value.rowCount, meta.value.collection))
  }

  /** An event weighs its overhead and both bodies. */
  lemma EventWeight(request: string, response: string)
    ensures EstimateBytes(None, None) == 256 && EstimateBytes(Some(request), None) == 256 + |request|
    ensures EstimateBytes(None, Some(response)) == 256 + |response|
    ensures EstimateBytes(Some(request), Some(response)) == 256 + |request| + |response|
  {
  }

  /** Compaction keeps a row count and a collection, and nothing when there is neither. */
  lemma DbMetaKept(meta: DbMeta)
    ensures CompactDbMeta(Some(meta)).None? <==> meta.rowCount.None? && meta.collection.None?
    ensures CompactDbMeta(Some(meta)).Some? ==>
              var kept := CompactDbMeta(Some(meta)).value;
              kept.rowCount == meta.rowCount && kept.collection == meta.collection && kept.query == None && kept.params == None
  {
  }

  /** All that a slot holds. */
  datatype Snapshot = Snapshot(seqNo: int, event: PushableEvent, estimatedBytes: int)

  /** What compaction leaves: the bodies and their details are gone, all else stays. */
  function Stripped(s: Snapshot): Snapshot {
    Snapshot(s.seqNo,
             s.event.(requestBody := None, responseBody := None,
                      detail := PayloadDetail(None, None, None, None, None, None, false, false, None, None,
                                              CompactDbMeta(s.event.detail.dbMeta))),
             METADATA_OVERHEAD)
  }

  lemma StrippedKeeps(s: Snapshot)
    ensures Stripped(Stripped(s)) == Stripped(s) && Stripped(s).event.requestId == s.event.requestId
    ensures Successful(Stripped(s).event) == Successful(s.event) && Stripped(s).seqNo == s.seqNo
  {
  }

  /** A finished event that neither failed nor was aborted. */
  predicate Successful(e: PushableEvent) {
    e.phase == Done && !e.failed && !e.aborted
  }

  class IOEventSlot {
    var seqNo: int
    var kind: EventKind
    var phase: Phase
    var requestId: Option<string>
    var contextLost: bool
    var failed: bool
    var aborted: bool
    var requestBody: Option<string>
    var responseBody: Option<string>
    var detail: PayloadDetail
    var estimatedBytes: int

    constructor (event: PushableEvent, seqNo: int, estimatedBytes: int)
      ensures Contents() == Snapshot(seqNo, event, estimatedBytes)
    {
      this.seqNo, this.estimatedBytes := seqNo, estimatedBytes;
      kind, phase, requestId, contextLost := event.kind, event.phase, event.requestId, event.contextLost;
      failed, aborted := event.failed, event.aborted;
      requestBody, responseBody, detail := event.requestBody, event.responseBody, event.detail;
    }

    ghost function Contents(): Snapshot
      reads this
    {
      Snapshot(seqNo, PushableEvent(kind, phase, requestId, contextLost, failed, aborted, requestBody, responseBody, detail),
               estimatedBytes)
    }

    /** What the contents show of the fields the request-wide calls test. */
    lemma Shown()
      ensures Successful(Contents().event) <==> phase == Done && !failed && !aborted
      ensures Contents().event.phase == phase && Contents().event.requestId == requestId && Contents().seqNo == seqNo
      ensures Contents().event.failed == failed && Contents().event.aborted == aborted && Contents().estimatedBytes == estimatedBytes
    {
    }

    method CompactSuccessful()
      modifies this
      ensures Contents() == Stripped(old(Contents()))
    {
      requestBody, responseBody := None, None;
      var meta := detail.dbMeta;
      if meta.Some? {
        var compacted := DbMeta(None, None, None, None);
        if meta.value.rowCount.Some? {
          compacted := compacted.(rowCount := meta.value.rowCount);
        }
        if meta.value.collection.Some? {
          compacted := compacted.(collection := meta.value.collection);
        }
        meta := if compacted == DbMeta(None, None, None, None) then None else Some(compacted);
      }
      detail := PayloadDetail(None, None, None, None, None, None, false, false, None, None, meta);
      estimatedBytes := EstimateBytes(requestBody, responseBody);
    }
  }

  ghost function RecordOf(slot: IOEventSlot): EvictionRecord
    reads slot
  {
    EvictionRecord(slot.seqNo, slot.kind, slot.requestId)
  }

  ghost function RecordsOf(s: seq<IOEventSlot>): (r: seq<EvictionRecord>)
    reads s
    ensures |r| == |s|
  {
    if s == [] then [] else RecordsOf(s[..|s| - 1]) + [RecordOf(s[|s| - 1])]
  }

  lemma RecordsSnoc(s: seq<IOEventSlot>, x: IOEventSlot)
    ensures RecordsOf(s + [x]) == RecordsOf(s) + [RecordOf(x)]
  {
    assert (s + [x])[..|s|] == s;
  }

  lemma RecordsNone()
    ensures RecordsOf([]) == []
  {
  }

  /** The current weight of every slot in s. */
  ghost function Weights(s: seq<IOEventSlot>): map<IOEventSlot, int>
    reads s
  {
    map x | x in s :: x.estimatedBytes
  }

  ghost function SeqNos(s: seq<IOEventSlot>): (r: seq<int>)
    reads s
    ensures |r| == |s| && forall i :: 0 <= i < |s| ==> r[i] == s[i].seqNo
  {
    seq(|s|, i requires 0 <= i < |s| reads s => s[i].seqNo)
  }

  /** Slots whose contents keep their stamps have the stamps kept there. */
  lemma StampsIn(s: seq<IOEventSlot>, contents: map<IOEventSlot, Snapshot>)
    requires forall x :: x in s ==> x in contents && x.Contents().seqNo == contents[x].seqNo
    ensures SeqNos(s) == seq(|s|, i requires 0 <= i < |s| => if s[i] in contents then contents[s[i]].seqNo else 0)
  {
  }

  /** The subsequence of s that belongs to a request. */
  ghost function WithRequestId(s: seq<IOEventSlot>, id: string): seq<IOEventSlot>
    reads s
  {
    if s == [] then []
    else
      var last := s[|s| - 1];
      WithRequestId(s[..|s| - 1], id) + if last.requestId == Some(id) then [last] else []
  }

  ghost predicate BelongsTo(s: seq<IOEventSlot>, id: string)
    reads s
  {
    exists i :: 0 <= i < |s| && s[i].requestId == Some(id)
  }

  /** The request ids of these events, each where it is first met. */
  ghost function IdsMet(s: seq<IOEventSlot>): seq<string>
    reads s
  {
    if s == [] then []
    else
      var before, last := IdsMet(s[..|s| - 1]), s[|s| - 1];
      if last.requestId.Some? && last.requestId.value !in before then before + [last.requestId.value] else before
  }

  lemma IdsMetSnoc(s: seq<IOEventSlot>, x: IOEventSlot)
    ensures IdsMet(s + [x]) ==
              if x.requestId.Some? && x.requestId.value !in IdsMet(s) then IdsMet(s) + [x.requestId.value] else IdsMet(s)
  {
    assert (s + [x])[..|s|] == s;
  }

  lemma IdsMetNone()
    ensures IdsMet([]) == []
  {
  }

  /** They are the ids of these events, each once. */
  lemma {:induction false} IdsMetAre(s: seq<IOEventSlot>)
    ensures Distinct(IdsMet(s)) && forall id :: id in IdsMet(s) <==> BelongsTo(s, id)
  {
    if s != [] {
      var front, last := s[..|s| - 1], s[|s| - 1];
      IdsMetAre(front);
      forall id ensures id in IdsMet(s) <==> BelongsTo(s, id) {
        BelongsSnoc(front, last, id);
        assert s == front + [last];
      }
    }
  }

  lemma BelongsSnoc(s: seq<IOEventSlot>, x: IOEventSlot, id: string)
    ensures BelongsTo(s + [x], id) <==> BelongsTo(s, id) || x.requestId == Some(id)
  {
    var t := s + [x];
    assert t[|s|] == x;
    if BelongsTo(s, id) {
      var i :| 0 <= i < |s| && s[i].requestId == Some(id);
      assert t[i].requestId == Some(id);
    }
    if BelongsTo(t, id) && x.requestId != Some(id) {
      var i :| 0 <= i < |t| && t[i].requestId == Some(id);
      assert s[i].requestId == Some(id);
    }
  }

  lemma {:induction false} ReversedBelongs(s: seq<IOEventSlot>, id: string)
    ensures BelongsTo(Reversed(s), id) <==> BelongsTo(s, id)
  {
    if s != [] {
      var front, last := s[..|s| - 1], s[|s| - 1];
      ReversedBelongs(front, id);
      assert Reversed(s) == [last] + Reversed(front);
      if BelongsTo(front, id) {
        var i :| 0 <= i < |Reversed(front)| && Reversed(front)[i].requestId == Some(id);
        assert Reversed(s)[i + 1].requestId == Some(id);
      }
      if last.requestId == Some(id) {
        assert Reversed(s)[0].requestId == Some(id) && s[|s| - 1].requestId == Some(id);
      }
      if BelongsTo(Reversed(s), id) && last.requestId != Some(id) {
        var i :| 0 <= i < |Reversed(s)| && Reversed(s)[i].requestId == Some(id);
        assert Reversed(front)[i - 1].requestId == Some(id);
      }
    }
  }

  lemma WithRequestIdNone()
    ensures forall id :: WithRequestId([], id) == []
  {
  }

  lemma WithRequestIdSnoc(s: seq<IOEventSlot>, x: IOEventSlot, id: string)
    ensures WithRequestId(s + [x], id) == if x.requestId == Some(id) then WithRequestId(s, id) + [x] else WithRequestId(s, id)
  {
    assert (s + [x])[..|s|] == s;
  }

  lemma {:induction false} WithRequestIdConcat(s: seq<IOEventSlot>, t: seq<IOEventSlot>, id: string)
    ensures WithRequestId(s + t, id) == WithRequestId(s, id) + WithRequestId(t, id)
  {
    if t == [] {
      assert s + t == s;
    } else {
      assert (s + t)[..|s + t| - 1] == s + t[..|t| - 1];
      WithRequestIdConcat(s, t[..|t| - 1], id);
    }
  }

  lemma {:induction false} WithRequestIdEmptyIff(s: seq<IOEventSlot>, id: string)
    ensures WithRequestId(s, id) == [] <==> !BelongsTo(s, id)
  {
    if s != [] {
      var front, last := s[..|s| - 1], s[|s| - 1];
      WithRequestIdEmptyIff(front, id);
      if BelongsTo(s, id) && last.requestId != Some(id) {
        var i :| 0 <= i < |s| && s[i].requestId == Some(id);
        assert front[i].requestId == Some(id);
      }
      if last.requestId == Some(id) {
        assert s[|s| - 1].requestId == Some(id);
      }
      if BelongsTo(front, id) {
        var i :| 0 <= i < |front| && front[i].requestId == Some(id);
        assert s[i].requestId == Some(id);
      }
    }
  }

  /** Increasing, up to the given clock value. */
  ghost predicate InOrder(stamps: seq<int>, clock: int) {
    Increasing(stamps) && Below(stamps, clock + 1)
  }

  lemma {:induction false} FilterOutInOrder(s: seq<IOEventSlot>, gone: set<IOEventSlot>, clock: int)
    requires InOrder(SeqNos(s), clock)
    ensures InOrder(SeqNos(FilterOut(s, gone)), clock)
  {
    if s != [] {
      FilterOutInOrder(s[..|s| - 1], gone, s[|s| - 1].seqNo - 1);
    }
  }

  lemma LastOfInOrder(s: seq<IOEventSlot>, n: int, clock: int)
    requires InOrder(SeqNos(s), clock)
    ensures Increasing(SeqNos(LastOf(s, n)))
  {
  }

  function Lookup(index: map<string, seq<IOEventSlot>>, id: string): seq<IOEventSlot> {
    if id in index then index[id] else []
  }

  class IOEventBuffer {
    const slots: array<Option<IOEventSlot>>
    const capacity: int
    const maxBytes: int
    const eventClock: EventClock
    const storeContextEvents: bool
    var writeHead: int
    var readHead: int
    var slotCount: int
    var payloadBytes: int
    var overflowCount: int
    var storedSlots: set<IOEventSlot>
    var requestIdIndex: Option<map<string, seq<IOEventSlot>>>
    const evictionSlots: array<Option<EvictionRecord>>
    var evictionWriteHead: int
    var evictionCount: int

    ghost var overflowLog: seq<EvictionRecord>
    ghost var storedPushes: int
    ghost var releasedTotal: int
    ghost var clearedTotal: int

    ghost function RingView(): Ring<IOEventSlot>
      reads `readHead, `writeHead, `slotCount, slots
    {
      Ring(slots[..], readHead, writeHead, slotCount)
    }

    ghost function LiveSlots(): seq<IOEventSlot>
      requires slots.Length > 0
      reads `readHead, `writeHead, `slotCount, slots
    {
      Live(RingView())
    }

    /** The last EVICTION_LOG_CAPACITY overflow records stand at their index modulo that capacity. */
    ghost predicate LogHeld()
      reads `evictionCount, `evictionWriteHead, `overflowLog, evictionSlots
    {
      && evictionSlots.Length == EVICTION_LOG_CAPACITY && evictionSlots as object != slots
      && evictionCount == evictionWriteHead == |overflowLog|
      && forall k {:trigger overflowLog[k]} :: 0 <= k < |overflowLog| && |overflowLog| - EVICTION_LOG_CAPACITY <= k ==>
           evictionSlots[k % EVICTION_LOG_CAPACITY] == Some(overflowLog[k])
    }

    /** Everything that does not depend on the contents of the slots. */
    ghost predicate Structure()
      reads `readHead, `writeHead, `slotCount, slots, `storedSlots, `overflowCount
      reads `evictionCount, `evictionWriteHead, `overflowLog, evictionSlots, `storedPushes, `releasedTotal, `clearedTotal
    {
      && capacity == slots.Length > 0
      && Inv(RingView())
      && Distinct(LiveSlots())
      && (forall x :: x in LiveSlots() ==> x in storedSlots)
      && LogHeld()
      && overflowCount == |overflowLog|
      && storedPushes == slotCount + overflowCount + releasedTotal + clearedTotal
    }

    /** A cached request index lists, per request id, exactly what a fresh scan would. */
    ghost predicate IndexFresh()
      requires slots.Length > 0
      reads this, slots, Scan(RingView())
    {
      requestIdIndex.Some? ==>
        forall id: string :: Lookup(requestIdIndex.value, id) == WithRequestId(Scan(RingView()), id)
    }

    /** The live slots carry increasing clock values, none beyond the clock. */
    ghost predicate Stamped()
      requires slots.Length > 0
      reads `readHead, `writeHead, `slotCount, slots, LiveSlots(), eventClock
    {
      InOrder(SeqNos(LiveSlots()), eventClock.value)
    }

    /** How far the byte counter is from the bytes of the live slots. */
    ghost function ByteDrift(): int
      requires slots.Length > 0
      reads `readHead, `writeHead, `slotCount, slots, `payloadBytes, LiveSlots()
    {
      payloadBytes - Sum(Weights(LiveSlots()), LiveSlots())
    }

    constructor (capacity: int, maxBytes: int, eventClock: EventClock, storeContextEvents: bool)
      requires capacity > 0
      ensures Structure() && RingView() == Empty(capacity) && ByteDrift() == 0 && IndexFresh() && Stamped()
      ensures this.capacity == capacity && this.maxBytes == maxBytes
      ensures this.eventClock == eventClock && this.storeContextEvents == storeContextEvents
      ensures overflowLog == [] && storedSlots == {} && fresh(slots) && fresh(evictionSlots)
    {
      this.capacity, this.maxBytes := capacity, maxBytes;
      this.eventClock, this.storeContextEvents := eventClock, storeContextEvents;
      slots := new Option<IOEventSlot>[capacity](_ => None);
      evictionSlots := new Option<EvictionRecord>[EVICTION_LOG_CAPACITY](_ => None);
      writeHead, readHead, slotCount, payloadBytes, overflowCount := 0, 0, 0, 0, 0;
      storedSlots, requestIdIndex := {}, None;
      evictionWriteHead, evictionCount := 0, 0;
      overflowLog, storedPushes, releasedTotal, clearedTotal := [], 0, 0, 0;
      new;
      assert slots[..] == seq(capacity, _ => None);
    }

    method RecordOverflow(slot: IOEventSlot)
      requires LogHeld()
      modifies `evictionWriteHead, `evictionCount, `overflowLog, evictionSlots
      ensures LogHeld() && overflowLog == old(overflowLog) + [RecordOf(slot)]
    {
      var logIndex := evictionWriteHead % EVICTION_LOG_CAPACITY;
      evictionSlots[logIndex] := Some(EvictionRecord(slot.seqNo, slot.kind, slot.requestId));
      evictionWriteHead := evictionWriteHead + 1;
      evictionCount := evictionCount + 1;
      overflowLog := overflowLog + [RecordOf(slot)];
    }

    /** The part of evictIndex that takes the slot out of the ring. */
    method TakeOut(index: int)
      requires capacity == slots.Length > 0 && 0 <= index < slots.Length && slots[index].Some?
      modifies `readHead, `slotCount, `payloadBytes, `storedSlots, slots
      ensures RingView() == Rings.EvictIndex(old(RingView()), index)
      ensures payloadBytes == old(payloadBytes) - old(slots[index].value.estimatedBytes)
      ensures storedSlots == old(storedSlots) - {old(slots[index].value)}
    {
      var slot := slots[index].value;
      slots[index] := None;
      storedSlots := storedSlots - {slot};
      payloadBytes := payloadBytes - slot.estimatedBytes;
      slotCount := slotCount - 1;
      if slotCount == 0 {
        readHead := writeHead;
        return;
      }
      if index == readHead % capacity {
        readHead := readHead + 1;
      }
    }

    method EvictIndex(index: int, countOverflow: bool)
      requires Structure() && 0 <= index < slots.Length && slots[index].Some?
      modifies this, slots, evictionSlots
      ensures Structure() && unchanged(`requestIdIndex)
      ensures RingView() == Rings.EvictIndex(old(RingView()), index)
      ensures payloadBytes == old(payloadBytes) - old(slots[index].value.estimatedBytes)
      ensures storedSlots == old(storedSlots) - {old(slots[index].value)}
      ensures overflowLog == old(overflowLog) + if countOverflow then [old(RecordOf(slots[index].value))] else []
      ensures releasedTotal == old(releasedTotal) + if countOverflow then 0 else 1
      ensures clearedTotal == old(clearedTotal) && storedPushes == old(storedPushes)
    {
      hide Collect, Sum, FilterOut, Rings.EvictIndex;
      var _ := EvictIndexWithout(RingView(), index);
      var slot := slots[index].value;
      if countOverflow {
        RecordOverflow(slot);
        overflowCount := overflowCount + 1;
      } else {
        releasedTotal := releasedTotal + 1;
      }
      TakeOut(index);
    }

    method EvictOldest()
      requires Structure()
      modifies this, slots, evictionSlots
      ensures Structure() && unchanged(`requestIdIndex)
      ensures RingView() == Rings.EvictOldest(old(RingView()))
      ensures clearedTotal == old(clearedTotal) && storedPushes == old(storedPushes) && releasedTotal == old(releasedTotal)
      ensures old(slotCount) > 0 ==>
                && old(Oldest(RingView())).Some?
                && old(Oldest(RingView()).value in LiveSlots())
                && payloadBytes == old(payloadBytes) - old(Oldest(RingView()).value.estimatedBytes)
                && storedSlots == old(storedSlots) - {old(Oldest(RingView()).value)}
                && overflowLog == old(overflowLog) + [old(RecordOf(Oldest(RingView()).value))]
                && (LiveSlots() == old(LiveSlots())[1..] <==> ClearAhead(old(RingView())))
    {
      hide Collect, Sum, FilterOut, Rings.EvictIndex, ClearAhead;
      ghost var before := RingView();
      ghost var p := FirstLive(before.cells, before.readHead, before.writeHead);
      if slotCount > 0 {
        var _ := EvictOldestLive(before);
        OldestExactIff(before);
      }
      while readHead < writeHead
        invariant before.readHead <= readHead <= p
        invariant RingView() == before.(readHead := readHead)
        invariant Structure() && unchanged(`requestIdIndex) && unchanged(`payloadBytes) && unchanged(`storedSlots)
        invariant unchanged(`overflowLog) && unchanged(`releasedTotal) && unchanged(`clearedTotal) && unchanged(`storedPushes)
        decreases writeHead - readHead
      {
        var index := readHead % capacity;
        if slots[index].Some? {
          EvictIndex(index, true);
          return;
        }
        SkipHoles(RingView(), readHead + 1);
        readHead := readHead + 1;
      }
    }

    /** Ring and byte counter, with no eviction seen yet. */
    ghost function Balance(): Account<IOEventSlot>
      reads `readHead, `writeHead, `slotCount, slots, `payloadBytes
    {
      Account(RingView(), payloadBytes, [])
    }

    /** One turn of the byte-budget loop; w holds the weights of the live slots. */
    method EvictForBudget(incomingBytes: int, ghost w: map<IOEventSlot, int>, ghost evicted: seq<IOEventSlot>)
      returns (ghost evicted': seq<IOEventSlot>)
      requires Structure() && payloadBytes + incomingBytes > maxBytes && slotCount > 0
      requires Weighed(w)
      modifies this, slots, evictionSlots
      ensures Structure() && unchanged(`requestIdIndex) && slotCount < old(slotCount)
      ensures clearedTotal == old(clearedTotal) && storedPushes == old(storedPushes) && releasedTotal == old(releasedTotal)
      ensures Weighed(w)
      ensures Enforce(Account(RingView(), payloadBytes, evicted'), w, incomingBytes, maxBytes)
              == Enforce(old(Account(RingView(), payloadBytes, evicted)), w, incomingBytes, maxBytes)
      ensures |evicted'| == |evicted| + 1 && evicted'[..|evicted|] == evicted
      ensures overflowLog == old(overflowLog) + [RecordOf(evicted'[|evicted|])]
    {
      hide Collect, Sum, FilterOut, Enforce, RecordsOf, Rings.EvictOldest;
      ghost var a := Account(RingView(), payloadBytes, evicted);
      EnforceStep(a, w, incomingBytes, maxBytes);
      EvictOldestInv(a.ring);
      evicted' := evicted + [Oldest(a.ring).value];
      EvictOldest();
      assert Account(RingView(), payloadBytes, evicted')
          == Account(Rings.EvictOldest(a.ring), a.bytes - Weight(w, Oldest(a.ring).value), evicted');
    }

    /** w holds the weights of the live slots; it may hold more. */
    ghost predicate Weighed(w: map<IOEventSlot, int>)
      requires slots.Length > 0
      reads `readHead, `writeHead, `slotCount, slots, LiveSlots()
    {
      forall x :: x in LiveSlots() ==> x in w && w[x] == x.estimatedBytes
    }

    lemma DriftByWeights(w: map<IOEventSlot, int>)
      requires slots.Length > 0 && Weighed(w)
      ensures ByteDrift() == Drift(Balance(), w)
    {
      SumAgrees(w, Weights(LiveSlots()), LiveSlots());
    }

    /** enforceByteBudget; the ghost inputs carry the evictions made before it in the same call. */
    method EnforceByteBudget(incomingBytes: int, ghost w: map<IOEventSlot, int>,
                             ghost log: seq<EvictionRecord>, ghost before: seq<IOEventSlot>)
      returns (ghost evicted: seq<IOEventSlot>)
      requires Structure() && Weighed(w) && overflowLog == log + RecordsOf(before)
      modifies this, slots, evictionSlots
      ensures Structure() && Weighed(w) && unchanged(`requestIdIndex)
      ensures clearedTotal == old(clearedTotal) && storedPushes == old(storedPushes) && releasedTotal == old(releasedTotal)
      ensures Account(RingView(), payloadBytes, evicted) == Enforce(Account(old(RingView()), old(payloadBytes), before), w, incomingBytes, maxBytes)
      ensures overflowLog == log + RecordsOf(evicted)
    {
      hide Collect, Sum, FilterOut, Enforce, RecordsOf, Rings.EvictOldest;
      evicted := before;
      while payloadBytes + incomingBytes > maxBytes && slotCount > 0
        invariant Structure() && Weighed(w) && unchanged(`requestIdIndex)
        invariant unchanged(`clearedTotal) && unchanged(`storedPushes) && unchanged(`releasedTotal)
        invariant Enforce(Account(RingView(), payloadBytes, evicted), w, incomingBytes, maxBytes)
                  == Enforce(Account(old(RingView()), old(payloadBytes), before), w, incomingBytes, maxBytes)
        invariant overflowLog == log + RecordsOf(evicted)
        decreases slotCount
      {
        ghost var e := evicted;
        evicted := EvictForBudget(incomingBytes, w, evicted);
        assert evicted == e + [evicted[|e|]];
        RecordsSnoc(e, evicted[|e|]);
      }
      EnforceIdle(Account(RingView(), payloadBytes, evicted), w, incomingBytes, maxBytes);
    }

    /** The slot accounting of an operation that evicted and neither released nor cleared. */
    twostate predicate OnlyEvicted()
      reads this
    {
      clearedTotal == old(clearedTotal) && releasedTotal == old(releasedTotal) && storedPushes == old(storedPushes)
    }

    /** push's evictions: whatever stands at the write head, then the byte budget. */
    method MakeRoomFor(incomingBytes: int, ghost w: map<IOEventSlot, int>) returns (ghost evicted: seq<IOEventSlot>)
      requires Structure() && Weighed(w)
      modifies this, slots, evictionSlots
      ensures Structure() && Weighed(w) && unchanged(`requestIdIndex) && OnlyEvicted()
      ensures Account(RingView(), payloadBytes, evicted) == Enforce(MakeRoom(old(Balance()), w), w, incomingBytes, maxBytes)
      ensures overflowLog == old(overflowLog) + RecordsOf(evicted)
    {
      hide Collect, Sum, FilterOut, Enforce, RecordsOf, Distinct;
      var index := writeHead % capacity;
      ghost var first: seq<IOEventSlot> := [];
      RecordsNone();
      if slots[index].Some? {
        first := [slots[index].value];
        var _ := EvictIndexWithout(RingView(), index);
        EvictIndex(index, true);
        RecordsSnoc([], first[0]);
      }
      assert Account(RingView(), payloadBytes, first) == MakeRoom(old(Balance()), w);
      evicted := EnforceByteBudget(incomingBytes, w, old(overflowLog), first);
    }

    /** Whether push keeps the event: with storeContextEvents off, request-scoped events are not kept. */
    predicate Stores(event: PushableEvent) {
      storeContextEvents || event.requestId.None? || event.contextLost
    }

    method Place(slot: IOEventSlot)
      requires Structure() && slots[writeHead % slots.Length].None? && slot !in LiveSlots()
      modifies `writeHead, `slotCount, `payloadBytes, `storedSlots, `storedPushes, slots
      ensures Structure() && RingView() == Rings.Place(old(RingView()), slot)
      ensures payloadBytes == old(payloadBytes) + slot.estimatedBytes
      ensures storedSlots == old(storedSlots) + {slot} && storedPushes == old(storedPushes) + 1
    {
      PlaceLive(RingView(), slot);
      DistinctConcat(LiveSlots(), [slot]);
      slots[writeHead % capacity] := Some(slot);
      storedSlots := storedSlots + {slot};
      payloadBytes := payloadBytes + slot.estimatedBytes;
      slotCount := slotCount + 1;
      writeHead := writeHead + 1;
      storedPushes := storedPushes + 1;
    }

    /** What push does to the bytes, from the state it left behind. */
    lemma PushBalance(a: Account<IOEventSlot>, w: map<IOEventSlot, int>, slot: IOEventSlot)
      requires slots.Length > 0 && Inv(a.ring) && Distinct(Live(a.ring)) && slot !in Live(a.ring)
      requires forall x :: x in Live(a.ring) ==> x in w && w[x] == x.estimatedBytes
      requires var b := Rings.Push(a, w, slot, slot.estimatedBytes, maxBytes); RingView() == b.ring && payloadBytes == b.bytes
      ensures ByteDrift() == Drift(a, w)
      ensures payloadBytes <= maxBytes || LiveSlots() == [slot]
    {
      var v := PushEveryRun(a, w, slot, slot.estimatedBytes, maxBytes);
      var w' := w[slot := slot.estimatedBytes];
      forall x | x in LiveSlots() ensures x in w' && w'[x] == x.estimatedBytes {
        FilterOutMember(Live(a.ring), Elems(v), x);
      }
      DriftByWeights(w');
    }

    /** The storing half of push. */
    method Store(slot: IOEventSlot)
      requires Structure() && slot !in LiveSlots()
      modifies this, slots, evictionSlots
      ensures Structure() && unchanged(`requestIdIndex) && slot in storedSlots
      ensures releasedTotal == old(releasedTotal) && clearedTotal == old(clearedTotal) && storedPushes == old(storedPushes) + 1
      ensures var b := Rings.Push(old(Balance()), old(Weights(LiveSlots())), slot, slot.estimatedBytes, maxBytes);
              RingView() == b.ring && payloadBytes == b.bytes && overflowLog == old(overflowLog) + RecordsOf(b.evicted)
    {
      hide Collect, Sum, FilterOut, Enforce, RecordsOf, MakeRoom;
      ghost var w := Weights(LiveSlots());
      ghost var a := Balance();
      ghost var evicted := MakeRoomFor(slot.estimatedBytes, w);
      ghost var v := FitEvicts(a, w, slot.estimatedBytes, maxBytes);
      EvictedWithin(a, Account(RingView(), payloadBytes, evicted), w, v);
      Place(slot);
    }

    method StoreBalanced(slot: IOEventSlot)
      requires Structure() && slot !in LiveSlots()
      modifies this, slots, evictionSlots
      ensures Structure() && unchanged(`requestIdIndex) && slot in storedSlots
      ensures releasedTotal == old(releasedTotal) && clearedTotal == old(clearedTotal) && storedPushes == old(storedPushes) + 1
      ensures var b := Rings.Push(old(Balance()), old(Weights(LiveSlots())), slot, slot.estimatedBytes, maxBytes);
              RingView() == b.ring && payloadBytes == b.bytes && overflowLog == old(overflowLog) + RecordsOf(b.evicted)
      ensures ByteDrift() == old(ByteDrift()) && (payloadBytes <= maxBytes || LiveSlots() == [slot])
    {
      hide Collect, Sum, FilterOut, Enforce, RecordsOf, MakeRoom, Rings.Push;
      ghost var w := Weights(LiveSlots());
      ghost var a := Balance();
      Store(slot);
      PushBalance(a, w, slot);
    }

    /** The stamping half of push: one clock tick and a new slot, the buffer untouched. */
    method Stamp(event: PushableEvent) returns (slot: IOEventSlot, seqNo: int)
      requires Structure() && eventClock.Valid()
      modifies eventClock
      ensures eventClock.Valid() && fresh(slot) && slot !in LiveSlots()
      ensures seqNo == slot.seqNo == eventClock.value == TickOf(old(eventClock.value))
      ensures slot.Contents() == Snapshot(seqNo, event, EstimateBytes(event.requestBody, event.responseBody))
      ensures Structure() && Weights(LiveSlots()) == old(Weights(LiveSlots())) && ByteDrift() == old(ByteDrift())
    {
      seqNo := eventClock.Tick();
      var estimatedBytes := EstimateBytes(event.requestBody, event.responseBody);
      slot := new IOEventSlot(event, seqNo, estimatedBytes);
    }

    /** The new stamp is above all others, and evictions keep the order. */
    lemma PushStamped(a: Account<IOEventSlot>, w: map<IOEventSlot, int>, slot: IOEventSlot, clock: int)
      requires slots.Length > 0 && Inv(a.ring) && Distinct(Live(a.ring)) && slot !in Live(a.ring)
      requires RingView() == Rings.Push(a, w, slot, slot.estimatedBytes, maxBytes).ring
      requires InOrder(SeqNos(Live(a.ring)), clock) && clock < slot.seqNo == eventClock.value
      ensures Stamped()
    {
      hide Collect, Sum, FilterOut, Rings.Push;
      var v := PushEveryRun(a, w, slot, slot.estimatedBytes, maxBytes);
      FilterOutInOrder(Live(a.ring), Elems(v), clock);
    }

    method Push(event: PushableEvent) returns (slot: IOEventSlot, seqNo: int)
      requires Structure() && eventClock.Valid()
      modifies this, slots, evictionSlots, eventClock
      ensures Structure() && eventClock.Valid() && requestIdIndex == None && fresh(slot)
      ensures seqNo == slot.seqNo == eventClock.value == TickOf(old(eventClock.value))
      ensures slot.Contents() == Snapshot(seqNo, event, EstimateBytes(event.requestBody, event.responseBody))
      ensures event.phase == Active ==> forall id :: slot !in CompletedSlots(id)
      ensures releasedTotal == old(releasedTotal) && clearedTotal == old(clearedTotal)
      ensures storedPushes == old(storedPushes) + if Stores(event) then 1 else 0
      ensures !Stores(event) ==> Balance() == old(Balance()) && unchanged(`storedSlots) && unchanged(`overflowLog)
      ensures Stores(event) ==>
                var b := Rings.Push(old(Balance()), old(Weights(LiveSlots())), slot, slot.estimatedBytes, maxBytes);
                RingView() == b.ring && payloadBytes == b.bytes && overflowLog == old(overflowLog) + RecordsOf(b.evicted)
                && slot in storedSlots && (payloadBytes <= maxBytes || LiveSlots() == [slot])
      ensures ByteDrift() == old(ByteDrift())
      ensures old(Stamped()) && old(eventClock.value) < MAX_SAFE_INTEGER ==> Stamped()
    {
      hide Collect, Sum, FilterOut, Enforce, RecordsOf, MakeRoom, Rings.Push, LogHeld, IOEventSlot.Contents;
      ghost var a, w, clock := Balance(), Weights(LiveSlots()), eventClock.value;
      requestIdIndex := None;
      slot, seqNo := Stamp(event);
      slot.Shown();
      if !storeContextEvents && event.requestId != None && event.contextLost == false {
        return;
      }
      StoreBalanced(slot);
      if old(Stamped()) && clock < MAX_SAFE_INTEGER {
        PushStamped(a, w, slot, clock);
      }
    }

    /** Whether a payload update counts: no slot given, or a slot still marked stored. */
    predicate Accepts(slot: Option<IOEventSlot>)
      reads `storedSlots
    {
      slot.None? || slot.value in storedSlots
    }

    /**
      The caller has already put the new size into the slot.  For a live slot that shifts the drift
      by oldBytes - newBytes, which this call undoes; for a slot that clear left marked as stored
      it does not, and the drift stays.
    */
    method UpdatePayloadBytes(oldBytes: int, newBytes: int, slot: Option<IOEventSlot>)
      requires Structure()
      modifies this, slots, evictionSlots
      ensures Structure() && OnlyEvicted()
      ensures !old(Accepts(slot)) ==> unchanged(this) && unchanged(slots)
      ensures old(Accepts(slot)) ==>
                var b := Enforce(old(Balance()).(bytes := old(payloadBytes) + newBytes - oldBytes), old(Weights(LiveSlots())), 0, maxBytes);
                && RingView() == b.ring && payloadBytes == b.bytes && requestIdIndex == None
                && overflowLog == old(overflowLog) + RecordsOf(b.evicted)
                && (payloadBytes <= maxBytes || LiveSlots() == [])
      ensures ByteDrift() == old(ByteDrift()) + if old(Accepts(slot)) then newBytes - oldBytes else 0
      ensures old(Stamped()) ==> Stamped()
    {
      hide Collect, Sum, FilterOut, Enforce, RecordsOf, InOrder, SeqNos;
      if slot.Some? && slot.value !in storedSlots {
        return;
      }
      requestIdIndex := None;
      payloadBytes := payloadBytes + (newBytes - oldBytes);
      ghost var w, a := Weights(LiveSlots()), Balance();
      RecordsNone();
      ghost var v := EnforceEvicts(a, w, 0, maxBytes);
      DriftByWeights(w);
      ghost var evicted := EnforceByteBudget(0, w, overflowLog, []);
      DriftByWeights(w);
      if old(Stamped()) {
        FilterOutInOrder(Live(a.ring), Elems(v), eventClock.value);
      }
    }

    method Drain() returns (liveSlots: seq<IOEventSlot>)
      requires Structure()
      ensures liveSlots == Scan(RingView())
      ensures liveSlots == LiveSlots() <==> OneLap(RingView())
    {
      hide OneLap;
      DrainExactIff(RingView());
      liveSlots := [];
      for cursor := readHead to writeHead
        invariant liveSlots == Collect(slots[..], readHead, cursor)
      {
        var slot := slots[cursor % capacity];
        if slot.Some? {
          liveSlots := liveSlots + [slot.value];
        }
      }
    }

    /** The index a fresh scan builds. */
    method BuildIndex() returns (index: map<string, seq<IOEventSlot>>)
      requires Structure()
      ensures forall id: string :: Lookup(index, id) == WithRequestId(Scan(RingView()), id)
    {
      hide Collect, WithRequestId;
      index := map[];
      CollectHoles(slots[..], readHead, readHead);
      WithRequestIdNone();
      for cursor := readHead to writeHead
        invariant forall id: string :: Lookup(index, id) == WithRequestId(Collect(slots[..], readHead, cursor), id)
      {
        var slot := slots[cursor % capacity];
        ghost var before := Collect(slots[..], readHead, cursor);
        CollectSnoc(slots[..], readHead, cursor);
        if slot.Some? {
          ghost var prior := index;
          if slot.value.requestId.Some? {
            var id := slot.value.requestId.value;
            if id !in index {
              index := index[id := [slot.value]];
            } else {
              index := index[id := index[id] + [slot.value]];
            }
          }
          forall id ensures Lookup(index, id) == WithRequestId(before + [slot.value], id) {
            WithRequestIdSnoc(before, slot.value, id);
            assert Lookup(prior, id) == WithRequestId(before, id);
          }
        }
      }
    }

    /** No slot of the request is at a position older than one lap. */
    ghost predicate NoneOlder(requestId: string)
      requires capacity == slots.Length > 0 && Inv(RingView())
      reads `readHead, `writeHead, `slotCount, slots, Collect(slots[..], readHead, WindowStart(RingView()))
    {
      !BelongsTo(Collect(slots[..], readHead, WindowStart(RingView())), requestId)
    }

    lemma FilterExactIff(requestId: string)
      requires Structure()
      ensures WithRequestId(Scan(RingView()), requestId) == WithRequestId(LiveSlots(), requestId) <==> NoneOlder(requestId)
    {
      hide Collect, WithRequestId, Inv;
      ScanSplits(RingView());
      var older := Collect(slots[..], readHead, WindowStart(RingView()));
      WithRequestIdConcat(older, LiveSlots(), requestId);
      WithRequestIdEmptyIff(older, requestId);
      if WithRequestId(Scan(RingView()), requestId) == WithRequestId(LiveSlots(), requestId) {
        assert |WithRequestId(older, requestId)| == 0;
      }
    }

    method FilterByRequestId(requestId: string) returns (found: seq<IOEventSlot>)
      requires Structure() && IndexFresh()
      modifies `requestIdIndex
      ensures IndexFresh() && requestIdIndex.Some?
      ensures found == WithRequestId(Scan(RingView()), requestId)
      ensures found == WithRequestId(LiveSlots(), requestId) <==> NoneOlder(requestId)
    {
      hide Collect, WithRequestId, NoneOlder;
      if requestIdIndex.None? {
        var index := BuildIndex();
        requestIdIndex := Some(index);
      }
      FilterExactIff(requestId);
      found := Lookup(requestIdIndex.value, requestId);
    }

    method EmptyCells()
      requires Structure()
      modifies slots
      ensures slots[..] == seq(slots.Length, _ => None)
    {
      hide Collect;
      for cursor := readHead to writeHead
        invariant forall k :: 0 <= k < slots.Length ==> slots[k] == None || slots[k] == old(slots[k])
        invariant forall p {:trigger slots[p % capacity]} :: readHead <= p < cursor ==> slots[p % capacity] == None
      {
        var index := cursor % capacity;
        if slots[index].Some? {
          slots[index] := None;
        }
      }
      forall k | 0 <= k < slots.Length ensures slots[k] == None {
        var p := PositionOf(capacity, writeHead, k);
        if p < readHead { assert old(slots[..])[p % capacity] == None; }
      }
    }

    method Clear()
      requires Structure()
      modifies this, slots
      ensures Structure() && RingView() == Rings.Clear(old(RingView()))
      ensures LiveSlots() == [] && ByteDrift() == 0 && requestIdIndex == None && Stamped()
      ensures storedSlots == old(storedSlots) && overflowLog == old(overflowLog)
      ensures clearedTotal == old(clearedTotal) + old(slotCount) && releasedTotal == old(releasedTotal) && storedPushes == old(storedPushes)
    {
      hide Collect;
      requestIdIndex := None;
      EmptyCells();
      payloadBytes := 0;
      clearedTotal := clearedTotal + slotCount;
      slotCount := 0;
      readHead := writeHead;
      CollectHoles(slots[..], WindowStart(RingView()), writeHead);
    }

    /** getRecent, with the request ids met on the way back, newest first. */
    method GetRecent(n: int) returns (events: seq<IOEventSlot>, ids: seq<string>)
      requires Structure()
      ensures events == LastOf(Scan(RingView()), n)
      ensures events == LastOf(LiveSlots(), n) <==> n <= slotCount || OneLap(RingView())
      ensures Distinct(ids) && ids == IdsMet(Reversed(events))
      ensures forall id :: id in ids <==> BelongsTo(events, id)
    {
      hide Collect, LastOf, OneLap, IdsMet, Reversed, Distinct, BelongsTo, LogHeld;
      IdsMetNone();
      ReversedNone<IOEventSlot>();
      CollectHoles(slots[..], writeHead, writeHead);
      RecentExactIff(RingView(), n);
      if n <= 0 || slotCount == 0 {
        LastOfNone(Scan(RingView()), n);
        IdsMetAre([]);
        return [], [];
      }
      var recent: seq<IOEventSlot> := [];
      ids := [];
      var cursor := writeHead - 1;
      while cursor >= readHead
        invariant readHead - 1 <= cursor < writeHead
        invariant Reversed(recent) == Collect(slots[..], cursor + 1, writeHead) && |recent| < n
        invariant ids == IdsMet(recent)
      {
        BackwardStep(slots[..], cursor, writeHead, recent);
        var slot := slots[cursor % capacity];
        if slot.Some? {
          IdsMetSnoc(recent, slot.value);
          recent := recent + [slot.value];
          if slot.value.requestId.Some? && slot.value.requestId.value !in ids {
            ids := ids + [slot.value.requestId.value];
          }
        }
        cursor := cursor - 1;
        if |recent| >= n {
          break;
        }
      }
      BackwardScan(RingView(), cursor + 1, n, recent);
      events := Reversed(recent);
      ReversedTwice(recent);
      IdsMetAre(recent);
      forall id ensures BelongsTo(events, id) <==> BelongsTo(recent, id) {
        ReversedBelongs(recent, id);
      }
    }

    method GetRecentWithContext(n: int) returns (events: seq<IOEventSlot>, context: AmbientContext)
      requires Structure()
      ensures events == LastOf(Scan(RingView()), n)
      ensures context.totalBufferEvents == slotCount && context.retrievedCount == |events|
      ensures events == [] ==> context.seqRange == None && context.seqGaps == 0
      ensures events != [] ==> context.seqRange == Some((events[0].seqNo, events[|events| - 1].seqNo))
      ensures events != [] && Increasing(SeqNos(events)) ==> context.seqGaps == |Missing(SeqNos(events))|
      ensures Stamped() && (n <= slotCount || OneLap(RingView())) ==> Increasing(SeqNos(events))
      ensures Distinct(context.distinctRequestIds) && context.distinctRequestIds == IdsMet(Reversed(events))
      ensures forall id :: id in context.distinctRequestIds <==> BelongsTo(events, id)
    {
      hide Collect, LastOf, OneLap;
      var ids;
      events, ids := GetRecent(n);
      if Stamped() { LastOfInOrder(LiveSlots(), n, eventClock.value); }
      var seqRange: Option<(int, int)>, seqGaps := None, 0;
      if |events| > 0 {
        var minSeq, maxSeq := events[0].seqNo, events[|events| - 1].seqNo;
        seqRange := Some((minSeq, maxSeq));
        seqGaps := maxSeq - minSeq + 1 - |events|;
        if Increasing(SeqNos(events)) { SeqGapsCountsMissing(SeqNos(events)); }
      }
      context := AmbientContext(slotCount, seqRange, seqGaps, ids, |events|);
    }

    /** The last min(100, overflowCount) overflow evictions, oldest first. */
    method GetEvictionLog() returns (records: seq<EvictionRecord>)
      requires Structure()
      ensures records == LastOf(overflowLog, EVICTION_LOG_CAPACITY)
    {
      records := [];
      var count := if evictionCount <= EVICTION_LOG_CAPACITY then evictionCount else EVICTION_LOG_CAPACITY;
      var start := if evictionCount <= EVICTION_LOG_CAPACITY then 0 else evictionWriteHead;
      for i := 0 to count
        invariant records == overflowLog[evictionCount - count..][..i]
      {
        ghost var k := evictionCount - count + i;
        if evictionCount > EVICTION_LOG_CAPACITY { ModShift(start + i, EVICTION_LOG_CAPACITY); }
        assert overflowLog[evictionCount - count..][..i + 1] == overflowLog[evictionCount - count..][..i] + [overflowLog[k]];
        var entry := evictionSlots[(start + i) % EVICTION_LOG_CAPACITY];
        if entry.Some? {
          records := records + [entry.value];
        }
      }
    }

    /** compactDetachedSlot.  On a slot that is still live the byte counter is not told. */
    method CompactDetachedSlot(slot: IOEventSlot) returns (done: bool)
      requires Structure()
      modifies slot
      ensures done == Successful(old(slot.Contents()).event) && (!done ==> unchanged(slot))
      ensures done ==> slot.Contents() == Stripped(old(slot.Contents()))
      ensures Structure() && RingView() == old(RingView())
      ensures ByteDrift() == old(ByteDrift()) + if slot in LiveSlots() then old(slot.estimatedBytes) - slot.estimatedBytes else 0
      ensures Stamped() == old(Stamped())
    {
      hide Collect, Sum, InOrder;
      ghost var w := Weights(LiveSlots());
      if slot.phase != Done || slot.failed || slot.aborted {
        return false;
      }
      slot.CompactSuccessful();
      if slot in LiveSlots() {
        SumOneChanged(w, Weights(LiveSlots()), LiveSlots(), slot);
      } else {
        SumAgrees(w, Weights(LiveSlots()), LiveSlots());
      }
      assert SeqNos(LiveSlots()) == old(SeqNos(LiveSlots()));
      done := true;
    }

    /** Compacting a live slot with the byte counter told, as the two request-wide calls do. */
    method CompactLive(slot: IOEventSlot)
      requires Structure() && slot in LiveSlots()
      modifies `payloadBytes, slot
      ensures Structure() && RingView() == old(RingView()) && ByteDrift() == old(ByteDrift())
      ensures slot.Contents() == Stripped(old(slot.Contents()))
      ensures SeqNos(LiveSlots()) == old(SeqNos(LiveSlots()))
    {
      hide Collect, Sum, InOrder;
      ghost var w := Weights(LiveSlots());
      var oldBytes := slot.estimatedBytes;
      slot.CompactSuccessful();
      payloadBytes := payloadBytes + (slot.estimatedBytes - oldBytes);
      SumOneChanged(w, Weights(LiveSlots()), LiveSlots(), slot);
    }

    /** A live slot of the request that finished well; its record is not needed any more. */
    ghost predicate Completed(x: IOEventSlot, requestId: string)
      reads x
    {
      x.Contents().event.requestId == Some(requestId) && Successful(x.Contents().event)
    }

    /** An event still under way is never taken for a completed one. */
    lemma ActiveIsNotCompleted(slot: IOEventSlot, requestId: string)
      requires slots.Length > 0 && slot.phase == Active
      ensures slot !in CompletedSlots(requestId)
    {
    }

    ghost function CompletedSlots(requestId: string): set<IOEventSlot>
      requires slots.Length > 0
      reads `readHead, `writeHead, `slotCount, slots, LiveSlots()
    {
      set x | x in LiveSlots() && Completed(x, requestId)
    }

    ghost function LiveContents(): map<IOEventSlot, Snapshot>
      requires slots.Length > 0
      reads `readHead, `writeHead, `slotCount, slots, LiveSlots()
    {
      map x | x in LiveSlots() :: x.Contents()
    }

    /** The completed slots met before the cursor are compacted, the other live slots as they were. */
    ghost predicate CompactedTo(cursor: int, requestId: string, done: set<IOEventSlot>,
                                before: map<IOEventSlot, Snapshot>)
      requires slots.Length > 0
      reads `readHead, `writeHead, `slotCount, slots, LiveSlots()
    {
      && (forall x :: x in LiveSlots() ==> x in before && (x in done <==> Completed(x, requestId)))
      && forall x :: x in LiveSlots() ==>
           LiveContents()[x] == if x in done && x in Collect(slots[..], readHead, cursor) then Stripped(before[x]) else before[x]
    }

    /** Compacts every completed slot of the request in place; the count is of scan positions visited. */
    method CompactCompletedRequest(requestId: string) returns (compacted: int)
      requires Structure()
      modifies `payloadBytes, LiveSlots()
      ensures Structure() && RingView() == old(RingView()) && ByteDrift() == old(ByteDrift())
      ensures CompletedSlots(requestId) == old(CompletedSlots(requestId))
      ensures forall x :: x in LiveSlots() ==>
                LiveContents()[x] == if x in CompletedSlots(requestId) then Stripped(old(LiveContents())[x]) else old(LiveContents())[x]
      ensures compacted == CountIn(Scan(RingView()), CompletedSlots(requestId))
      ensures Stamped() == old(Stamped())
    {
      hide Collect, Sum, Distinct, InOrder, IOEventSlot.Contents, Stripped, Successful, LogHeld, SeqNos, CountIn;
      CollectHoles(slots[..], readHead, readHead);
      compacted := CompactAll(requestId, CompletedSlots(requestId), LiveContents());
      CollectSplit(slots[..], readHead, WindowStart(RingView()), writeHead);
    }

    /** The compaction loop. */
    method CompactAll(requestId: string, ghost done: set<IOEventSlot>,
                      ghost before: map<IOEventSlot, Snapshot>)
      returns (compacted: int)
      requires Structure() && CompactedTo(readHead, requestId, done, before)
      modifies `payloadBytes, LiveSlots()
      ensures Structure() && RingView() == old(RingView()) && ByteDrift() == old(ByteDrift())
      ensures CompactedTo(writeHead, requestId, done, before)
      ensures compacted == CountIn(Scan(RingView()), done)
      ensures SeqNos(LiveSlots()) == old(SeqNos(LiveSlots()))
    {
      hide Collect, Sum, Distinct, CompactedTo, LogHeld, SeqNos;
      compacted := 0;
      CollectHoles(slots[..], readHead, readHead);
      for cursor := readHead to writeHead
        invariant Structure() && RingView() == old(RingView()) && ByteDrift() == old(ByteDrift())
        invariant CompactedTo(cursor, requestId, done, before)
        invariant compacted == CountIn(Collect(slots[..], readHead, cursor), done)
        invariant SeqNos(LiveSlots()) == old(SeqNos(LiveSlots()))
      {
        compacted := CompactAt(cursor, requestId, done, before, compacted);
      }
    }

    /** A position without a completed slot of the request is passed over. */
    lemma PassesOver(cursor: int, requestId: string, done: set<IOEventSlot>, before: map<IOEventSlot, Snapshot>)
      requires Structure() && readHead <= cursor < writeHead && CompactedTo(cursor, requestId, done, before)
      requires var cell := slots[cursor % capacity]; cell.Some? ==> !Completed(cell.value, requestId)
      ensures CompactedTo(cursor + 1, requestId, done, before)
      ensures CountIn(Collect(slots[..], readHead, cursor + 1), done) == CountIn(Collect(slots[..], readHead, cursor), done)
    {
      hide Collect, Distinct, LogHeld, Stripped, Successful, IOEventSlot.Contents;
      CollectSnoc(slots[..], readHead, cursor);
      var cell := slots[cursor % capacity];
      if cell.Some? {
        CellIsLive(RingView(), cursor % capacity);
        CountInSnoc(Collect(slots[..], readHead, cursor), cell.value, done);
      }
    }

    method CompactHere(cursor: int, slot: IOEventSlot, requestId: string, ghost done: set<IOEventSlot>,
                       ghost before: map<IOEventSlot, Snapshot>)
      requires Structure() && readHead <= cursor < writeHead && CompactedTo(cursor, requestId, done, before)
      requires slots[cursor % capacity] == Some(slot) && slot in LiveSlots() && Completed(slot, requestId)
      modifies `payloadBytes, slot
      ensures Structure() && RingView() == old(RingView()) && ByteDrift() == old(ByteDrift())
      ensures CompactedTo(cursor + 1, requestId, done, before)
      ensures CountIn(Collect(slots[..], readHead, cursor + 1), done) == CountIn(Collect(slots[..], readHead, cursor), done) + 1
      ensures SeqNos(LiveSlots()) == old(SeqNos(LiveSlots()))
    {
      hide Collect, Sum, Distinct, Stamped, LogHeld, Stripped, Successful, SeqNos, IOEventSlot.Contents, CountIn, Weights;
      CollectSnoc(slots[..], readHead, cursor);
      CountInSnoc(Collect(slots[..], readHead, cursor), slot, done);
      StrippedKeeps(slot.Contents());
      StrippedKeeps(before[slot]);
      CompactLive(slot);
    }

    /** One turn of the compaction loop. */
    method CompactAt(cursor: int, requestId: string, ghost done: set<IOEventSlot>,
                     ghost before: map<IOEventSlot, Snapshot>, compacted: int)
      returns (compacted': int)
      requires Structure() && readHead <= cursor < writeHead && CompactedTo(cursor, requestId, done, before)
      requires compacted == CountIn(Collect(slots[..], readHead, cursor), done)
      modifies `payloadBytes, LiveSlots()
      ensures Structure() && RingView() == old(RingView()) && ByteDrift() == old(ByteDrift())
      ensures CompactedTo(cursor + 1, requestId, done, before)
      ensures compacted' == CountIn(Collect(slots[..], readHead, cursor + 1), done)
      ensures SeqNos(LiveSlots()) == old(SeqNos(LiveSlots()))
    {
      hide Collect, Sum, Distinct, Stamped, LogHeld, CompactedTo, CountIn, SeqNos, Successful, IOEventSlot.Contents;
      compacted' := compacted;
      var slot := slots[cursor % capacity];
      if slot.Some? {
        CellIsLive(RingView(), cursor % capacity);
        slot.value.Shown();
        if slot.value.requestId == Some(requestId) && slot.value.phase == Done && !slot.value.failed && !slot.value.aborted {
          CompactHere(cursor, slot.value, requestId, done, before);
          return compacted + 1;
        }
      }
      PassesOver(cursor, requestId, done, before);
    }

    /** One release: compact the slot, then take it out without counting an overflow. */
    method ReleaseSlot(index: int, slot: IOEventSlot)
      requires Structure() && 0 <= index < slots.Length && slots[index] == Some(slot)
      modifies this, slots, evictionSlots, slot
      ensures Structure() && unchanged(`requestIdIndex)
      ensures RingView() == Rings.EvictIndex(old(RingView()), index)
      ensures forall x :: x in LiveSlots() ==> x in old(LiveSlots()) && x != slot
      ensures slot.Contents() == Stripped(old(slot.Contents()))
      ensures writeHead == old(writeHead) && storedSlots == old(storedSlots) - {slot} && overflowLog == old(overflowLog)
      ensures releasedTotal == old(releasedTotal) + 1 && clearedTotal == old(clearedTotal) && storedPushes == old(storedPushes)
      ensures ByteDrift() == old(ByteDrift())
    {
      hide Collect, Sum, FilterOut, Distinct, LogHeld, InOrder;
      CellIsLive(RingView(), index);
      CompactLive(slot);
      ghost var w, a := Weights(LiveSlots()), Balance();
      ghost var i := EvictIndexWithout(RingView(), index);
      SumWithout(w, LiveSlots(), i);
      EvictIndex(index, false);
      DriftByWeights(w);
    }

    /** The completed slots met so far are compacted and out of the ring, all others as they were. */
    ghost predicate ReleasedTo(requestId: string, gone: set<IOEventSlot>, before: map<IOEventSlot, Snapshot>)
      requires slots.Length > 0
      reads `readHead, `writeHead, `slotCount, slots, LiveSlots(), before.Keys
    {
      && (forall x :: x in LiveSlots() ==> x in before && (x in gone <==> Completed(x, requestId)))
      && forall x :: x in before.Keys ==> x.Contents() == if x in gone && x !in LiveSlots() then Stripped(before[x]) else before[x]
    }

    /** One turn of the release loop. */
    method ReleaseAtCursor(cursor: int, requestId: string, ghost gone: set<IOEventSlot>, ghost before: map<IOEventSlot, Snapshot>)
      returns (released: int)
      requires Structure() && cursor < writeHead && ReleasedTo(requestId, gone, before)
      modifies this, slots, evictionSlots, before.Keys
      ensures Structure() && ReleasedTo(requestId, gone, before) && unchanged(`requestIdIndex)
      ensures RingView() == ReleaseAt(old(RingView()), gone, cursor)
      ensures forall x :: x in LiveSlots() ==> x in old(LiveSlots())
      ensures released == old(slotCount) - slotCount
      ensures writeHead == old(writeHead) && overflowLog == old(overflowLog)
      ensures releasedTotal == old(releasedTotal) + released && clearedTotal == old(clearedTotal) && storedPushes == old(storedPushes)
      ensures ByteDrift() == old(ByteDrift())
    {
      hide Collect, Sum, FilterOut, Distinct, LogHeld, Stamped, IOEventSlot.Contents, Rings.EvictIndex;
      released := 0;
      var index := cursor % capacity;
      var slot := slots[index];
      if slot.Some? {
        slot.value.Shown();
        CellIsLive(RingView(), index);
        if slot.value.requestId == Some(requestId) && slot.value.phase == Done && !slot.value.failed && !slot.value.aborted {
          ghost var i := EvictIndexWithout(RingView(), index);
          ReleaseSlot(index, slot.value);
          released := 1;
        }
      }
    }

    /** The release loop. */
    method ReleaseLoop(requestId: string, ghost gone: set<IOEventSlot>, ghost before: map<IOEventSlot, Snapshot>)
      returns (released: int)
      requires Structure() && ReleasedTo(requestId, gone, before)
      modifies this, slots, evictionSlots, before.Keys
      ensures Structure() && ReleasedTo(requestId, gone, before) && unchanged(`requestIdIndex)
      ensures RingView() == Release(old(RingView()), gone, old(readHead), old(writeHead))
      ensures released == old(slotCount) - slotCount && overflowLog == old(overflowLog)
      ensures releasedTotal == old(releasedTotal) + released && clearedTotal == old(clearedTotal) && storedPushes == old(storedPushes)
      ensures ByteDrift() == old(ByteDrift())
    {
      hide Collect, Sum, Distinct, FilterOut, Release, ReleaseAt, Rings.EvictIndex, LogHeld, ReleasedTo;
      released := 0;
      ghost var start, end, live := readHead, writeHead, LiveSlots();
      for cursor := readHead to writeHead
        invariant Structure() && writeHead == end && unchanged(`requestIdIndex) && overflowLog == old(overflowLog)
        invariant Release(RingView(), gone, cursor, end) == Release(old(RingView()), gone, start, end)
        invariant ReleasedTo(requestId, gone, before) && forall x :: x in LiveSlots() ==> x in live
        invariant released == old(slotCount) - slotCount && releasedTotal == old(releasedTotal) + released
        invariant clearedTotal == old(clearedTotal) && storedPushes == old(storedPushes)
        invariant ByteDrift() == old(ByteDrift())
      {
        ReleaseTurn(RingView(), gone, cursor, end);
        var n := ReleaseAtCursor(cursor, requestId, gone, before);
        released := released + n;
      }
      ReleaseTurn(RingView(), gone, end, end);
    }

    /**
      releaseCompletedRequest: exactly the completed slots of the request leave, wherever in the
      ring they stand, and the bytes stay balanced.
    */
    method ReleaseCompletedRequest(requestId: string) returns (released: int)
      requires Structure()
      modifies this, slots, evictionSlots, LiveSlots()
      ensures Structure() && requestIdIndex == None && overflowLog == old(overflowLog)
      ensures RingView() == Release(old(RingView()), old(CompletedSlots(requestId)), old(readHead), old(writeHead))
      ensures LiveSlots() == FilterOut(old(LiveSlots()), old(CompletedSlots(requestId)))
      ensures forall x :: x in old(LiveSlots()) ==>
                x.Contents() == if x in old(CompletedSlots(requestId)) then Stripped(old(x.Contents())) else old(x.Contents())
      ensures released == old(slotCount) - slotCount
      ensures old(Stamped()) ==> Stamped()
      ensures releasedTotal == old(releasedTotal) + released && clearedTotal == old(clearedTotal) && storedPushes == old(storedPushes)
      ensures ByteDrift() == old(ByteDrift())
    {
      hide Collect, Sum, Distinct, FilterOut, Release, Rings.EvictIndex, LogHeld, InOrder, IOEventSlot.Contents, Stripped;
      requestIdIndex := None;
      ghost var gone, live, before := CompletedSlots(requestId), LiveSlots(), LiveContents();
      StampsIn(live, before);
      released := ReleaseLoop(requestId, gone, before);
      ReleaseRemoves(old(RingView()), gone);
      forall x | x in live ensures x.Contents().seqNo == before[x].seqNo && (x in LiveSlots() <==> x !in gone) {
        FilterOutMember(live, gone, x);
        StrippedKeeps(before[x]);
      }
      StampsIn(live, before);
      if old(Stamped()) {
        FilterOutInOrder(live, gone, eventClock.value);
      }
    }
  }
}
