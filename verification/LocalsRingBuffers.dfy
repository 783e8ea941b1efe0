/** LocalsRingBuffer, with its loops over the entries. */
module LocalsRingBuffers {
  import opened Wrappers
  import opened LocalsCaches
  import LocalsRuns
  import Strings

  class LocalsRingBuffer {
    var capacity: nat
    const ttlMs: int
    var entries: seq<Entry>
    var nextId: nat

    constructor (capacity: nat)
      ensures this.capacity == capacity && ttlMs == LOCALS_CACHE_TTL_MS && entries == [] && nextId == 0
    {
      this.capacity := capacity;
      ttlMs := LOCALS_CACHE_TTL_MS;
      entries := [];
      nextId := 0;
    }

    method AllocateId() returns (id: string)
      modifies `nextId
      ensures nextId == old(nextId) + 1 && id == Strings.Decimal(nextId)
    {
      nextId := nextId + 1;
      id := Strings.Decimal(nextId);
    }

    /** Drops the oldest entries one at a time until the rest fit. */
    method ShiftToCapacity()
      modifies `entries
      ensures entries == NewestOnly(old(entries), capacity)
    {
      while |entries| > capacity
        invariant NewestOnly(entries, capacity) == NewestOnly(old(entries), capacity)
        decreases |entries|
      {
        entries := entries[1..];
      }
    }

    method Push(entry: Entry)
      modifies `entries
      ensures entries == LocalsRuns.PushTo(old(entries), entry, capacity, ttlMs)
    {
      hide Prune, NewestOnly;
      var removed := PruneExpired(entry.createdAt);
      entries := entries + [entry];
      ShiftToCapacity();
    }

    method Resize(capacity: nat)
      modifies `capacity, `entries
      ensures this.capacity == capacity && entries == NewestOnly(old(entries), capacity)
    {
      this.capacity := capacity;
      ShiftToCapacity();
    }

    /** Walks backwards, so that a splice does not move the entries still to be looked at. */
    method PruneExpired(now: int) returns (removed: nat)
      modifies `entries
      ensures entries == Prune(old(entries), now, ttlMs) && removed == |old(entries)| - |entries|
    {
      ghost var start := entries;
      var before, index := |entries|, |entries| - 1;
      assert start == start[..|start|] + Prune(start[|start|..], now, ttlMs);
      while index >= 0
        invariant -1 <= index < |start|
        invariant entries == start[..index + 1] + Prune(start[index + 1..], now, ttlMs)
      {
        var ageMs := now - entries[index].createdAt;
        PruneStep(start, index, now, ttlMs);
        if ageMs < 0 || ageMs > ttlMs {
          entries := entries[..index] + entries[index + 1..];
        }
        index := index - 1;
      }
      assert entries == Prune(start, now, ttlMs) by { assert start[0..] == start; }
      removed := before - |entries|;
    }

    method ConsumeFrames(frames: FrameArray) returns (found: bool)
      modifies `entries
      ensures entries == Consume(old(entries), frames.ref)
      ensures found <==> exists i :: 0 <= i < |old(entries)| && old(entries)[i].frames.ref == frames.ref
    {
      var index := IndexOfFrames(entries, frames.ref);
      if index == |entries| {
        return false;
      }
      entries := entries[..index] + entries[index + 1..];
      return true;
    }

    method GetById(id: string) returns (r: Option<Entry>)
      ensures r == ById(entries, id)
    {
      var i := |entries| - 1;
      assert entries[..|entries|] == entries;
      while i >= 0
        invariant -1 <= i < |entries| && ById(entries, id) == ById(entries[..i + 1], id)
      {
        if entries[i].id == id {
          return Some(entries[i]);
        }
        assert entries[..i + 1][..i] == entries[..i];
        i := i - 1;
      }
      return None;
    }

    method FindByIdentity(q: Query) returns (r: Option<Entry>)
      ensures r == Newest(entries, q)
    {
      hide Matches, Select;
      var i := |entries| - 1;
      while i >= 0
        invariant -1 <= i < |entries|
        invariant forall k :: i < k < |entries| ==> !Matches(entries[k], q, Identity)
      {
        var e := entries[i];
        IdentityFields(e, q);
        if e.requestId == q.requestId && e.errorName == q.errorName && e.errorMessage == q.errorMessage
           && e.frameCount == q.frameCount && e.structuralHash == q.structuralHash {
          NewestIs(entries, q, i);
          return Some(e);
        }
        i := i - 1;
      }
      SelectNone(entries, q, Identity);
      return None;
    }

    method FindByDegradedKey(q: Query) returns (out: seq<Entry>)
      ensures out == Select(entries, q, Degraded)
    {
      out := [];
      for i := 0 to |entries|
        invariant out == Select(entries[..i], q, Degraded)
      {
        var e := entries[i];
        assert entries[..i + 1][..i] == entries[..i];
        if e.requestId == q.requestId && e.errorName == q.errorName && e.errorMessage == q.errorMessage
           && e.frameCount == q.frameCount {
          out := out + [e];
        }
      }
      assert entries[..|entries|] == entries;
    }

    /** Scores every entry, newest first, and reports where the best one first disagrees. */
    method DiagnoseIdentityMiss(q: Query) returns (reason: Reason)
      ensures reason == Diagnosis(entries, q)
    {
      hide Deepest, Depth, Score, Agreement, ReasonAt;
      if |entries| == 0 {
        return CacheEmpty;
      }
      var best, bestScore := None, 0;
      ghost var at := 0;
      var i := |entries| - 1;
      while i >= 0
        invariant -1 <= i < |entries|
        invariant i < |entries| - 1 ==> best.Some?
        invariant best.Some? ==> i < at < |entries| && best == Some(entries[at]) && bestScore == Score(entries[at], q)
        invariant forall k :: i < k < |entries| ==> Score(entries[k], q) <= bestScore
      {
        var e := entries[i];
        var score := AgreementScore(e, q);
        if best.None? || score > bestScore {
          best, bestScore, at := Some(e), score, i;
          if score == 31 {
            break;
          }
        }
        i := i - 1;
      }
      forall k | 0 <= k < |entries| ensures Score(entries[k], q) <= Score(entries[at], q) {
        ScoreBound(entries[k], q);
      }
      BestScoreIsDeepest(entries, q, at);
      var e := best.value;
      reason := FirstDisagreement(e, q);
    }
  }

  method AgreementScore(e: Entry, q: Query) returns (score: nat)
    ensures score == Score(e, q) <= 31
  {
    score := 0;
    if e.requestId == q.requestId { score := score + 16; }
    if e.errorName == q.errorName { score := score + 8; }
    if e.errorMessage == q.errorMessage { score := score + 4; }
    if e.frameCount == q.frameCount { score := score + 2; }
    if e.structuralHash == q.structuralHash { score := score + 1; }
  }

  /** The chain of comparisons that names the first disagreement. */
  method FirstDisagreement(e: Entry, q: Query) returns (reason: Reason)
    ensures reason == ReasonAt(Depth(Agreement(e, q)))
  {
    var v := Agreement(e, q);
    if e.requestId != q.requestId {
      return RequestIdMismatch;
    }
    if e.errorName != q.errorName {
      assert v[0] && !v[1];
      return NameMismatch;
    }
    if e.errorMessage != q.errorMessage {
      assert v[0] && v[1] && !v[2];
      return MessageMismatch;
    }
    if e.frameCount != q.frameCount {
      assert v[0] && v[1] && v[2] && !v[3];
      return FrameCountMismatch;
    }
    assert v[0] && v[1] && v[2] && v[3];
    return HashMismatch;
  }

  lemma ScoreBound(e: Entry, q: Query)
    ensures Score(e, q) <= 31
  {
  }

  lemma PruneStep(s: seq<Entry>, index: nat, now: int, ttl: int)
    requires index < |s|
    ensures Prune(s[index..], now, ttl) ==
              (if Fresh(s[index], now, ttl) then [s[index]] else []) + Prune(s[index + 1..], now, ttl)
  {
    assert s[index..][1..] == s[index + 1..];
  }

  lemma IdentityFields(e: Entry, q: Query)
    ensures Matches(e, q, Identity) <==>
              e.requestId == q.requestId && e.errorName == q.errorName && e.errorMessage == q.errorMessage
              && e.frameCount == q.frameCount && e.structuralHash == q.structuralHash
  {
  }

  lemma {:induction false} NewestIs(entries: seq<Entry>, q: Query, i: nat)
    requires i < |entries| && Matches(entries[i], q, Identity)
    requires forall k :: i < k < |entries| ==> !Matches(entries[k], q, Identity)
    ensures Newest(entries, q) == Some(entries[i])
  {
    hide Matches;
    var n := |entries| - 1;
    if i < n {
      NewestIs(entries[..n], q, i);
    }
  }
}
