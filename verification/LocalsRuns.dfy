/**
  Whole runs of the locals cache: debugger pauses allocate an id and store later, in any order;
  lookups prune, try the tag, then the cascade, and remove what they hand out.
*/
module LocalsRuns {
  import opened Wrappers
  import opened LocalsCaches
  import opened LocalsLookups
  import opened Strings

  /** A pause whose frames are still being collected. */
  datatype Pending = Pending(id: string, requestId: Option<string>, errorName: string, errorMessage: string,
                             frameCount: nat, structuralHash: string)

  datatype Op =
    | Pause(requestId: Option<string>, errorName: string, errorMessage: string, frameCount: nat, structuralHash: string, at: int)
    | Store(index: nat, list: seq<Frame>, at: int)
    | Resize(capacity: nat)
    | PruneAt(at: int)
    | Lookup(tag: Option<string>, query: Query, at: int, now: nat -> int)

  /** stored and handed are what an observer would write down: everything ever stored and handed out, in order. */
  datatype State = State(entries: seq<Entry>, capacity: nat, nextId: nat, pending: seq<Pending>,
                         stored: seq<Entry>, handed: seq<Entry>, dropped: nat)

  // ---------------------------------------------------------------- operations

  /** push: drop the expired, append, then drop the oldest beyond the capacity. */
  function PushTo(entries: seq<Entry>, e: Entry, capacity: nat, ttl: int): seq<Entry> {
    NewestOnly(Prune(entries, e.createdAt, ttl) + [e], capacity)
  }

  /** getLocalsWithDiagnostics once its gates are passed: the entry handed out, if any. */
  function HandOut(entries: seq<Entry>, tag: Option<string>, q: Query, now: nat -> int, normalize: string -> string): Option<Entry> {
    var tagged := if tag.Some? then ById(entries, tag.value) else None;
    if tagged.Some? then tagged
    else
      var r := Layer2(entries, q, now, normalize);
      if r.Found? then Some(r.entry) else None
  }

  function Apply(s: State, op: Op, normalize: string -> string): State {
    match op
    case Pause(requestId, name, message, count, hash, at) =>
      var pruned := Prune(s.entries, at, LOCALS_CACHE_TTL_MS);
      s.(entries := pruned, nextId := s.nextId + 1, dropped := s.dropped + (|s.entries| - |pruned|),
         pending := s.pending + [Pending(Decimal(s.nextId + 1), requestId, name, message, count, hash)])
    case Store(k, list, at) =>
      if k >= |s.pending| then s
      else
        var p := s.pending[k];
        var e := Entry(p.id, p.requestId, p.errorName, p.errorMessage, p.frameCount, p.structuralHash,
                       FrameArray(|s.stored|, list), at);
        var pushed := PushTo(s.entries, e, s.capacity, LOCALS_CACHE_TTL_MS);
        s.(entries := pushed, stored := s.stored + [e], pending := s.pending[..k] + s.pending[k + 1..],
           dropped := Dropped(s.dropped, |s.entries| + 1, |pushed|))
    case Resize(capacity) =>
      var kept := NewestOnly(s.entries, capacity);
      s.(entries := kept, capacity := capacity, dropped := Dropped(s.dropped, |s.entries|, |kept|))
    case PruneAt(at) =>
      var pruned := Prune(s.entries, at, LOCALS_CACHE_TTL_MS);
      s.(entries := pruned, dropped := s.dropped + (|s.entries| - |pruned|))
    case Lookup(tag, q, at, now) =>
      var pruned := Prune(s.entries, at, LOCALS_CACHE_TTL_MS);
      var dropped := s.dropped + (|s.entries| - |pruned|);
      var out := HandOut(pruned, tag, q, now, normalize);
      if out.None? then s.(entries := pruned, dropped := dropped)
      else s.(entries := Consume(pruned, out.value.frames.ref), handed := s.handed + [out.value], dropped := dropped)
  }

  function Dropped(dropped: nat, before: nat, after: nat): nat {
    if before > after then dropped + (before - after) else dropped
  }

  function Run(s: State, ops: seq<Op>, normalize: string -> string): State {
    if ops == [] then s else Apply(Run(s, ops[..|ops| - 1], normalize), ops[|ops| - 1], normalize)
  }

  function Start(capacity: nat): State {
    State([], capacity, 0, [], [], [], 0)
  }

  // ---------------------------------------------------------------- the invariant

  /** Entries are in the order stored, each the very entry stored under its frames' number. */
  ghost predicate Filed(entries: seq<Entry>, stored: seq<Entry>) {
    && (forall i :: 0 <= i < |entries| ==> entries[i].frames.ref < |stored| && stored[entries[i].frames.ref] == entries[i])
    && (forall i, j :: 0 <= i < j < |entries| ==> entries[i].frames.ref < entries[j].frames.ref)
  }

  ghost predicate HandedOnce(entries: seq<Entry>, stored: seq<Entry>, handed: seq<Entry>) {
    && (forall i :: 0 <= i < |handed| ==> handed[i].frames.ref < |stored| && stored[handed[i].frames.ref] == handed[i])
    && (forall i, j :: 0 <= i < j < |handed| ==> handed[i].frames.ref != handed[j].frames.ref)
    && (forall i, j :: 0 <= i < |handed| && 0 <= j < |entries| ==> handed[i].frames.ref != entries[j].frames.ref)
  }

  ghost predicate IsNumber(id: string, bound: nat) {
    exists n: nat :: 1 <= n <= bound && id == Decimal(n)
  }

  /** Ids are the decimals of distinct numbers up to nextId. */
  ghost predicate Numbered(s: State) {
    && (forall i :: 0 <= i < |s.stored| ==> IsNumber(s.stored[i].id, s.nextId))
    && (forall i :: 0 <= i < |s.pending| ==> IsNumber(s.pending[i].id, s.nextId))
    && (forall i, j :: 0 <= i < j < |s.stored| ==> s.stored[i].id != s.stored[j].id)
    && (forall i, j :: 0 <= i < j < |s.pending| ==> s.pending[i].id != s.pending[j].id)
    && (forall i, j :: 0 <= i < |s.stored| && 0 <= j < |s.pending| ==> s.stored[i].id != s.pending[j].id)
  }

  ghost predicate Good(s: State) {
    && |s.entries| <= s.capacity
    && Filed(s.entries, s.stored)
    && HandedOnce(s.entries, s.stored, s.handed)
    && |s.stored| == |s.entries| + |s.handed| + s.dropped
  }

  // ---------------------------------------------------------------- each operation keeps it

  lemma FirstIsOldest(entries: seq<Entry>, stored: seq<Entry>, e: Entry)
    requires entries != [] && Filed(entries, stored) && e in entries[1..]
    ensures entries[0].frames.ref < e.frames.ref
  {
    var i :| 0 <= i < |entries[1..]| && entries[1..][i] == e;
    assert entries[i + 1] == e;
  }

  lemma FiledParts(entries: seq<Entry>, stored: seq<Entry>)
    requires entries != [] && Filed(entries, stored)
    ensures Filed(entries[1..], stored) && Filed([entries[0]], stored)
  {
  }

  lemma FiledCons(e: Entry, rest: seq<Entry>, stored: seq<Entry>)
    requires Filed([e], stored) && Filed(rest, stored) && forall x :: x in rest ==> e.frames.ref < x.frames.ref
    ensures Filed([e] + rest, stored)
  {
    assert [e][0] == e;
  }

  lemma {:induction false} PruneFiled(entries: seq<Entry>, stored: seq<Entry>, now: int, ttl: int)
    requires Filed(entries, stored)
    ensures Filed(Prune(entries, now, ttl), stored)
  {
    hide Filed;
    if entries != [] {
      FiledParts(entries, stored);
      PruneFiled(entries[1..], stored, now, ttl);
      var rest := Prune(entries[1..], now, ttl);
      forall x | x in rest ensures entries[0].frames.ref < x.frames.ref {
        FirstIsOldest(entries, stored, x);
      }
      FiledCons(entries[0], rest, stored);
      assert [] + rest == rest;
    }
  }

  lemma SubsetHanded(kept: seq<Entry>, entries: seq<Entry>, stored: seq<Entry>, handed: seq<Entry>)
    requires HandedOnce(entries, stored, handed) && forall e :: e in kept ==> e in entries
    ensures HandedOnce(kept, stored, handed)
  {
    forall i, j | 0 <= i < |handed| && 0 <= j < |kept| ensures handed[i].frames.ref != kept[j].frames.ref {
      assert kept[j] in entries;
    }
  }

  lemma TrimFiled(entries: seq<Entry>, stored: seq<Entry>, capacity: nat)
    requires Filed(entries, stored)
    ensures Filed(NewestOnly(entries, capacity), stored)
  {
  }

  lemma AppendFiled(entries: seq<Entry>, stored: seq<Entry>, handed: seq<Entry>, e: Entry)
    requires Filed(entries, stored) && HandedOnce(entries, stored, handed) && e.frames.ref == |stored|
    ensures Filed(entries + [e], stored + [e]) && HandedOnce(entries + [e], stored + [e], handed)
  {
  }

  function Without(entries: seq<Entry>, i: nat): seq<Entry>
    requires i < |entries|
  {
    entries[..i] + entries[i + 1..]
  }

  lemma WithoutAt(entries: seq<Entry>, i: nat, j: nat)
    requires i < |entries| && j < |entries| - 1
    ensures Without(entries, i)[j] == entries[if j < i then j else j + 1]
  {
  }

  lemma WithoutFiled(entries: seq<Entry>, stored: seq<Entry>, i: nat)
    requires i < |entries| && Filed(entries, stored)
    ensures Filed(Without(entries, i), stored)
  {
    hide Without;
    WithoutLength(entries, i);
    forall j | 0 <= j < |entries| - 1 ensures Without(entries, i)[j] == entries[if j < i then j else j + 1] {
      WithoutAt(entries, i, j);
    }
  }

  lemma WithoutLength(entries: seq<Entry>, i: nat)
    requires i < |entries|
    ensures |Without(entries, i)| == |entries| - 1
  {
  }

  lemma WithoutMember(entries: seq<Entry>, stored: seq<Entry>, i: nat, x: Entry)
    requires i < |entries| && Filed(entries, stored)
    ensures x in Without(entries, i) <==> x in entries && x != entries[i]
  {
    if x in entries && x != entries[i] {
      var j :| 0 <= j < |entries| && entries[j] == x;
      assert Without(entries, i)[if j < i then j else j - 1] == x;
    }
  }

  /** consumeFrames removes exactly the entry whose frames are given. */
  lemma ConsumeExact(entries: seq<Entry>, stored: seq<Entry>, e: Entry)
    requires Filed(entries, stored) && e in entries
    ensures var rest := Consume(entries, e.frames.ref);
            |rest| == |entries| - 1 && Filed(rest, stored) && forall x :: x in rest <==> x in entries && x != e
  {
    hide IndexOfFrames;
    var i := IndexOfFrames(entries, e.frames.ref);
    var k :| 0 <= k < |entries| && entries[k] == e;
    assert i == k;
    assert Consume(entries, e.frames.ref) == Without(entries, i);
    WithoutFiled(entries, stored, i);
    forall x: Entry ensures x in Without(entries, i) <==> x in entries && x != e {
      WithoutMember(entries, stored, i, x);
    }
  }

  lemma ConsumeHanded(rest: seq<Entry>, entries: seq<Entry>, stored: seq<Entry>, handed: seq<Entry>, e: Entry)
    requires Filed(entries, stored) && HandedOnce(entries, stored, handed) && e in entries
    requires forall x :: x in rest <==> x in entries && x != e
    ensures HandedOnce(rest, stored, handed + [e])
  {
    var k :| 0 <= k < |entries| && entries[k] == e;
    forall j | 0 <= j < |rest| ensures rest[j] in entries && rest[j].frames.ref != e.frames.ref {
      assert rest[j] in rest;
      var m :| 0 <= m < |entries| && entries[m] == rest[j];
    }
    SubsetHanded(rest, entries, stored, handed);
  }

  lemma HandOutLive(entries: seq<Entry>, tag: Option<string>, q: Query, now: nat -> int, normalize: string -> string)
    ensures var out := HandOut(entries, tag, q, now, normalize); out.Some? ==> out.value in entries
  {
    hide Layer2;
    if tag.Some? {
      ByIdFound(entries, tag.value);
    }
    LabelsAreSound(entries, q, now, normalize);
  }

  lemma ApplyKeeps(s: State, op: Op, normalize: string -> string)
    requires Good(s)
    ensures Good(Apply(s, op, normalize))
  {
    hide Prune, NewestOnly, Consume, HandOut, Filed, HandedOnce;
    match op
    case Pause(_, _, _, _, _, at) =>
      PruneFiled(s.entries, s.stored, at, LOCALS_CACHE_TTL_MS);
      SubsetHanded(Prune(s.entries, at, LOCALS_CACHE_TTL_MS), s.entries, s.stored, s.handed);
    case Store(k, list, at) =>
      if k < |s.pending| { StoreKeeps(s, k, list, at, normalize); }
    case Resize(capacity) =>
      TrimFiled(s.entries, s.stored, capacity);
      TrimShorter(s.entries, capacity);
      SubsetHanded(NewestOnly(s.entries, capacity), s.entries, s.stored, s.handed);
    case PruneAt(at) =>
      PruneFiled(s.entries, s.stored, at, LOCALS_CACHE_TTL_MS);
      SubsetHanded(Prune(s.entries, at, LOCALS_CACHE_TTL_MS), s.entries, s.stored, s.handed);
    case Lookup(tag, q, at, now) =>
      var pruned := Prune(s.entries, at, LOCALS_CACHE_TTL_MS);
      PruneFiled(s.entries, s.stored, at, LOCALS_CACHE_TTL_MS);
      SubsetHanded(pruned, s.entries, s.stored, s.handed);
      HandOutLive(pruned, tag, q, now, normalize);
      var out := HandOut(pruned, tag, q, now, normalize);
      if out.Some? {
        ConsumeExact(pruned, s.stored, out.value);
        ConsumeHanded(Consume(pruned, out.value.frames.ref), pruned, s.stored, s.handed, out.value);
      }
  }

  lemma TrimShorter(entries: seq<Entry>, capacity: nat)
    ensures |NewestOnly(entries, capacity)| <= |entries|
  {
  }

  lemma StoreKeeps(s: State, k: nat, list: seq<Frame>, at: int, normalize: string -> string)
    requires Good(s) && k < |s.pending|
    ensures Good(Apply(s, Store(k, list, at), normalize))
  {
    hide Prune, NewestOnly, Filed, HandedOnce;
    var p := s.pending[k];
    var e := Entry(p.id, p.requestId, p.errorName, p.errorMessage, p.frameCount, p.structuralHash, FrameArray(|s.stored|, list), at);
    var pruned := Prune(s.entries, at, LOCALS_CACHE_TTL_MS);
    PruneFiled(s.entries, s.stored, at, LOCALS_CACHE_TTL_MS);
    SubsetHanded(pruned, s.entries, s.stored, s.handed);
    AppendFiled(pruned, s.stored, s.handed, e);
    TrimFiled(pruned + [e], s.stored + [e], s.capacity);
    TrimShorter(pruned + [e], s.capacity);
    SubsetHanded(NewestOnly(pruned + [e], s.capacity), pruned + [e], s.stored + [e], s.handed);
  }

  // ---------------------------------------------------------------- ids

  lemma DecimalInjective(m: nat, n: nat)
    requires Decimal(m) == Decimal(n)
    ensures m == n
  {
    DecimalRoundTrip(m);
    DecimalRoundTrip(n);
  }

  lemma NumberIsNew(id: string, bound: nat)
    requires IsNumber(id, bound)
    ensures id != Decimal(bound + 1) && IsNumber(id, bound + 1)
  {
    hide Decimal;
    var n: nat :| 1 <= n <= bound && id == Decimal(n);
    if id == Decimal(bound + 1) { DecimalInjective(n, bound + 1); }
  }

  lemma NextIsNumber(n: nat)
    ensures IsNumber(Decimal(n + 1), n + 1)
  {
    hide Decimal;
  }

  lemma PauseNumbers(s: State, op: Op, normalize: string -> string)
    requires Numbered(s) && op.Pause?
    ensures Numbered(Apply(s, op, normalize))
  {
    hide Decimal, IsNumber, Prune;
    NextIsNumber(s.nextId);
    forall i | 0 <= i < |s.stored|
      ensures s.stored[i].id != Decimal(s.nextId + 1) && IsNumber(s.stored[i].id, s.nextId + 1)
    {
      NumberIsNew(s.stored[i].id, s.nextId);
    }
    forall i | 0 <= i < |s.pending|
      ensures s.pending[i].id != Decimal(s.nextId + 1) && IsNumber(s.pending[i].id, s.nextId + 1)
    {
      NumberIsNew(s.pending[i].id, s.nextId);
    }
  }

  lemma StoreNumbers(s: State, k: nat, list: seq<Frame>, at: int, normalize: string -> string)
    requires Numbered(s) && k < |s.pending|
    ensures Numbered(Apply(s, Store(k, list, at), normalize))
  {
    hide Decimal, IsNumber, Prune, NewestOnly;
    var t := Apply(s, Store(k, list, at), normalize);
    assert forall i :: 0 <= i < |t.pending| ==> t.pending[i] == s.pending[if i < k then i else i + 1];
    assert t.stored[|s.stored|].id == s.pending[k].id;
  }

  lemma SameNumbers(s: State, t: State)
    requires Numbered(s) && t.stored == s.stored && t.pending == s.pending && t.nextId == s.nextId
    ensures Numbered(t)
  {
  }

  lemma NumbersKept(s: State, op: Op, normalize: string -> string)
    requires Numbered(s)
    ensures Numbered(Apply(s, op, normalize))
  {
    hide Decimal, Numbered, Prune, NewestOnly, HandOut, Consume;
    if op.Pause? {
      PauseNumbers(s, op, normalize);
    } else if op.Store? && op.index < |s.pending| {
      StoreNumbers(s, op.index, op.list, op.at, normalize);
    } else {
      SameNumbers(s, Apply(s, op, normalize));
    }
  }

  // ---------------------------------------------------------------- whole runs

  lemma {:induction false} RunKeeps(capacity: nat, ops: seq<Op>, normalize: string -> string)
    ensures Good(Run(Start(capacity), ops, normalize)) && Numbered(Run(Start(capacity), ops, normalize))
  {
    hide Good, Numbered, Apply;
    if ops == [] {
      StartIsGood(capacity);
    } else {
      var before := ops[..|ops| - 1];
      RunKeeps(capacity, before, normalize);
      ApplyKeeps(Run(Start(capacity), before, normalize), ops[|ops| - 1], normalize);
      NumbersKept(Run(Start(capacity), before, normalize), ops[|ops| - 1], normalize);
    }
  }

  lemma StartIsGood(capacity: nat)
    ensures Good(Start(capacity)) && Numbered(Start(capacity))
  {
  }

  /**
    In every run no frames are handed out twice, nothing handed out is still buffered, the cache
    never exceeds its capacity, and every stored entry is live, handed out or dropped.
  */
  lemma HandedOutAtMostOnce(capacity: nat, ops: seq<Op>, normalize: string -> string)
    ensures var s := Run(Start(capacity), ops, normalize);
            && (forall i, j :: 0 <= i < j < |s.handed| ==> s.handed[i].frames.ref != s.handed[j].frames.ref)
            && (forall i, j :: 0 <= i < |s.handed| && 0 <= j < |s.entries| ==> s.handed[i].frames.ref != s.entries[j].frames.ref)
            && (forall i :: 0 <= i < |s.handed| ==> s.handed[i].frames.ref < |s.stored| && s.stored[s.handed[i].frames.ref] == s.handed[i])
            && |s.entries| <= s.capacity
            && |s.stored| == |s.entries| + |s.handed| + s.dropped
  {
    hide Run;
    RunKeeps(capacity, ops, normalize);
  }

  /** A lookup hands out an entry no older than the time to live, and by its tag exactly the capture with that id. */
  lemma LookupIsFresh(capacity: nat, ops: seq<Op>, normalize: string -> string, tag: Option<string>, q: Query, at: int,
                      now: nat -> int, e: Entry)
    requires var s := Run(Start(capacity), ops, normalize);
             HandOut(Prune(s.entries, at, LOCALS_CACHE_TTL_MS), tag, q, now, normalize) == Some(e)
    ensures Fresh(e, at, LOCALS_CACHE_TTL_MS)
    ensures var s := Run(Start(capacity), ops, normalize);
            tag.Some? ==>
              forall i :: 0 <= i < |s.entries| && s.entries[i].id == tag.value && Fresh(s.entries[i], at, LOCALS_CACHE_TTL_MS)
                          ==> e == s.entries[i]
  {
    hide Run, Layer2, Numbered, Good;
    var s := Run(Start(capacity), ops, normalize);
    var pruned := Prune(s.entries, at, LOCALS_CACHE_TTL_MS);
    HandOutLive(pruned, tag, q, now, normalize);
    if tag.Some? {
      RunKeeps(capacity, ops, normalize);
      ByIdFound(pruned, tag.value);
      forall i | 0 <= i < |s.entries| && s.entries[i].id == tag.value && Fresh(s.entries[i], at, LOCALS_CACHE_TTL_MS)
        ensures e == s.entries[i]
      {
        PruneKeepsFresh(s.entries, at, LOCALS_CACHE_TTL_MS, i);
        var j :| 0 <= j < |pruned| && pruned[j] == s.entries[i];
        assert e in pruned && e.id == tag.value;
        var m :| 0 <= m < |s.entries| && s.entries[m] == e;
        SameIdSameEntry(s, i, m);
      }
    }
  }

  lemma SameIdSameEntry(s: State, i: nat, j: nat)
    requires Good(s) && Numbered(s) && i < |s.entries| && j < |s.entries| && s.entries[i].id == s.entries[j].id
    ensures s.entries[i] == s.entries[j]
  {
    hide Decimal;
    var a, b := s.entries[i].frames.ref, s.entries[j].frames.ref;
    assert s.stored[a] == s.entries[i] && s.stored[b] == s.entries[j];
  }

  lemma {:induction false} PruneKeepsFresh(entries: seq<Entry>, now: int, ttl: int, i: nat)
    requires i < |entries| && Fresh(entries[i], now, ttl)
    ensures entries[i] in Prune(entries, now, ttl)
  {
    if i > 0 {
      PruneKeepsFresh(entries[1..], now, ttl, i - 1);
    }
  }
}
