/**
  The cache of captured locals as a value: entries oldest first, the ways an entry can match an
  error, and the score that explains a miss.
*/
module LocalsCaches {
  import opened Wrappers

  const LOCALS_CACHE_TTL_MS: int := 30000
  const RECENT_MATCH_MS: int := 1000

  datatype Frame = Frame(functionName: string, filePath: string, lineNumber: nat, columnNumber: nat)

  /** A JavaScript array of frames: compared by identity, which is its ref. */
  datatype FrameArray = FrameArray(ref: nat, list: seq<Frame>)

  datatype Entry = Entry(id: string, requestId: Option<string>, errorName: string, errorMessage: string,
                         frameCount: nat, structuralHash: string, frames: FrameArray, createdAt: int)

  /** What is known of an error being looked up; topFunction is "" when its stack has no frame. */
  datatype Query = Query(requestId: Option<string>, errorName: string, errorMessage: string,
                         frameCount: nat, structuralHash: string, topFunction: string)

  // ---------------------------------------------------------------- matching

  /** The keys entries are searched by, and the one search by recency. */
  datatype Tier =
    | Identity
    | Degraded
    | Loose
    | Foreign
    | ForeignDegraded
    | ForeignLoose
    | Similar(now: int, normalize: string -> string)
    | Background

  predicate IsRecent(e: Entry, now: int) {
    0 <= now - e.createdAt <= RECENT_MATCH_MS
  }

  predicate SameError(e: Entry, q: Query) {
    e.errorName == q.errorName && e.errorMessage == q.errorMessage
  }

  predicate LooksSimilar(e: Entry, q: Query, normalize: string -> string) {
    || normalize(e.errorMessage) == normalize(q.errorMessage)
    || (e.errorName == "NonErrorThrown" && q.topFunction != ""
        && e.frames.list != [] && e.frames.list[0].functionName == q.topFunction)
  }

  predicate Matches(e: Entry, q: Query, t: Tier) {
    match t
    case Identity =>
      e.requestId == q.requestId && SameError(e, q) && e.frameCount == q.frameCount && e.structuralHash == q.structuralHash
    case Degraded => e.requestId == q.requestId && SameError(e, q) && e.frameCount == q.frameCount
    case Loose => e.requestId == q.requestId && SameError(e, q)
    case Foreign =>
      e.requestId != q.requestId && SameError(e, q) && e.frameCount == q.frameCount && e.structuralHash == q.structuralHash
    case ForeignDegraded => e.requestId != q.requestId && SameError(e, q) && e.frameCount == q.frameCount
    case ForeignLoose => e.requestId != q.requestId && SameError(e, q)
    case Similar(now, normalize) => IsRecent(e, now) && e.requestId != q.requestId && LooksSimilar(e, q, normalize)
    case Background =>
      e.requestId.None? && SameError(e, q) && e.frameCount == q.frameCount && e.structuralHash == q.structuralHash
  }

  /** The matching entries, oldest first. */
  function Select(entries: seq<Entry>, q: Query, t: Tier): (s: seq<Entry>)
    ensures |s| <= |entries|
  {
    if entries == [] then []
    else
      var n := |entries| - 1;
      Select(entries[..n], q, t) + if Matches(entries[n], q, t) then [entries[n]] else []
  }

  lemma {:induction false} SelectMember(entries: seq<Entry>, q: Query, t: Tier, e: Entry)
    ensures e in Select(entries, q, t) <==> e in entries && Matches(e, q, t)
  {
    if entries != [] {
      var n := |entries| - 1;
      SelectMember(entries[..n], q, t, e);
      assert entries == entries[..n] + [entries[n]];
    }
  }

  /** Nothing selected means nothing matches. */
  lemma {:induction false} SelectNone(entries: seq<Entry>, q: Query, t: Tier)
    ensures Select(entries, q, t) == [] <==> forall i :: 0 <= i < |entries| ==> !Matches(entries[i], q, t)
  {
    if entries != [] {
      var n := |entries| - 1;
      SelectNone(entries[..n], q, t);
      assert forall i :: 0 <= i < n ==> entries[..n][i] == entries[i];
    }
  }

  // ---------------------------------------------------------------- contents

  predicate Fresh(e: Entry, now: int, ttl: int) {
    0 <= now - e.createdAt <= ttl
  }

  function Prune(entries: seq<Entry>, now: int, ttl: int): (s: seq<Entry>)
    ensures |s| <= |entries|
    ensures forall e :: e in s ==> e in entries && Fresh(e, now, ttl)
  {
    if entries == [] then []
    else (if Fresh(entries[0], now, ttl) then [entries[0]] else []) + Prune(entries[1..], now, ttl)
  }

  /** The newest `capacity` entries. */
  function NewestOnly(entries: seq<Entry>, capacity: nat): (s: seq<Entry>)
    ensures |s| <= capacity
    ensures forall e :: e in s ==> e in entries
  {
    if |entries| <= capacity then entries else entries[|entries| - capacity..]
  }

  function IndexOfFrames(entries: seq<Entry>, ref: nat): (i: nat)
    ensures i <= |entries|
    ensures i < |entries| ==> entries[i].frames.ref == ref
    ensures forall k :: 0 <= k < i ==> entries[k].frames.ref != ref
  {
    if entries == [] || entries[0].frames.ref == ref then 0 else 1 + IndexOfFrames(entries[1..], ref)
  }

  function Consume(entries: seq<Entry>, ref: nat): seq<Entry> {
    var i := IndexOfFrames(entries, ref);
    if i < |entries| then entries[..i] + entries[i + 1..] else entries
  }

  function Newest(entries: seq<Entry>, q: Query): Option<Entry> {
    var s := Select(entries, q, Identity);
    if s == [] then None else Some(s[|s| - 1])
  }

  function ById(entries: seq<Entry>, id: string): Option<Entry> {
    if entries == [] then None
    else
      var n := |entries| - 1;
      if entries[n].id == id then Some(entries[n]) else ById(entries[..n], id)
  }

  lemma {:induction false} ByIdFound(entries: seq<Entry>, id: string)
    ensures match ById(entries, id)
            case Some(e) => e in entries && e.id == id
            case None => forall i :: 0 <= i < |entries| ==> entries[i].id != id
  {
    if entries != [] {
      var n := |entries| - 1;
      ByIdFound(entries[..n], id);
      assert forall i :: 0 <= i < n ==> entries[..n][i] == entries[i];
    }
  }

  // ---------------------------------------------------------------- explaining a miss

  datatype Reason = CacheEmpty | RequestIdMismatch | NameMismatch | MessageMismatch | FrameCountMismatch | HashMismatch

  function Bit(b: bool): nat {
    if b then 1 else 0
  }

  /** Which fields agree, most telling first. */
  function Agreement(e: Entry, q: Query): (v: seq<bool>)
    ensures |v| == 5
  {
    [e.requestId == q.requestId, e.errorName == q.errorName, e.errorMessage == q.errorMessage,
     e.frameCount == q.frameCount, e.structuralHash == q.structuralHash]
  }

  function Score(e: Entry, q: Query): nat {
    var v := Agreement(e, q);
    16 * Bit(v[0]) + 8 * Bit(v[1]) + 4 * Bit(v[2]) + 2 * Bit(v[3]) + Bit(v[4])
  }

  /** Lexicographic order, agreement above disagreement. */
  predicate LexLess(a: seq<bool>, b: seq<bool>)
    requires |a| == |b|
  {
    a != [] && ((!a[0] && b[0]) || (a[0] == b[0] && LexLess(a[1..], b[1..])))
  }

  /** How many leading fields agree. */
  function Depth(v: seq<bool>): (d: nat)
    ensures d <= |v| && (d < |v| ==> !v[d]) && forall k :: 0 <= k < d ==> v[k]
  {
    if v == [] || !v[0] then 0 else 1 + Depth(v[1..])
  }

  lemma LexUnfold(a: seq<bool>, b: seq<bool>, k: nat)
    requires |a| == |b| == 5 && k < 5
    ensures LexLess(a[k..], b[k..]) <==> (!a[k] && b[k]) || (a[k] == b[k] && LexLess(a[k + 1..], b[k + 1..]))
  {
    assert a[k..][1..] == a[k + 1..] && b[k..][1..] == b[k + 1..];
  }

  lemma LexFive(a: seq<bool>, b: seq<bool>)
    requires |a| == |b| == 5
    ensures LexLess(a, b) <==>
              (!a[0] && b[0]) || (a[0] == b[0] && ((!a[1] && b[1]) || (a[1] == b[1] && ((!a[2] && b[2])
              || (a[2] == b[2] && ((!a[3] && b[3]) || (a[3] == b[3] && !a[4] && b[4])))))))
  {
    hide LexLess;
    LexUnfold(a, b, 0);
    LexUnfold(a, b, 1);
    LexUnfold(a, b, 2);
    LexUnfold(a, b, 3);
    LexUnfold(a, b, 4);
    LexEmpty(a[5..], b[5..]);
    assert a[0..] == a && b[0..] == b;
  }

  /** The 16/8/4/2/1 weights make the score order the lexicographic order of the agreements. */
  lemma ScoreIsLexicographic(d: Entry, e: Entry, q: Query)
    ensures Score(d, q) < Score(e, q) <==> LexLess(Agreement(d, q), Agreement(e, q))
  {
    hide LexLess, Agreement;
    LexFive(Agreement(d, q), Agreement(e, q));
  }

  lemma LexEmpty(a: seq<bool>, b: seq<bool>)
    requires a == b == []
    ensures !LexLess(a, b)
  {
  }

  /** A larger agreement reaches at least as deep. */
  lemma {:induction false} DeeperIsLarger(a: seq<bool>, b: seq<bool>)
    requires |a| == |b| && !LexLess(a, b)
    ensures Depth(a) >= Depth(b)
  {
    if a != [] && b[0] {
      DeeperIsLarger(a[1..], b[1..]);
    }
  }

  /** The deepest any entry agrees with the query before its first disagreement. */
  function Deepest(entries: seq<Entry>, q: Query): (d: nat)
    ensures forall i :: 0 <= i < |entries| ==> Depth(Agreement(entries[i], q)) <= d
    ensures entries != [] ==> exists i :: 0 <= i < |entries| && Depth(Agreement(entries[i], q)) == d
  {
    if entries == [] then 0
    else
      var rest := Deepest(entries[1..], q);
      var first := Depth(Agreement(entries[0], q));
      assert forall i :: 0 < i < |entries| ==> entries[i] == entries[1..][i - 1];
      assert |entries| > 1 ==> exists i :: 0 <= i < |entries[1..]| && Depth(Agreement(entries[1..][i], q)) == rest
                                           && entries[1..][i] == entries[i + 1];
      if |entries| > 1 && rest > first then rest else first
  }

  function ReasonAt(depth: nat): Reason {
    match depth
    case 0 => RequestIdMismatch
    case 1 => NameMismatch
    case 2 => MessageMismatch
    case 3 => FrameCountMismatch
    case _ => HashMismatch
  }

  /** The field at which the entry that agrees deepest first disagrees. */
  function Diagnosis(entries: seq<Entry>, q: Query): Reason {
    if entries == [] then CacheEmpty else ReasonAt(Deepest(entries, q))
  }

  /** An entry of maximal score is one that agrees deepest. */
  lemma BestScoreIsDeepest(entries: seq<Entry>, q: Query, best: nat)
    requires best < |entries| && forall i :: 0 <= i < |entries| ==> Score(entries[i], q) <= Score(entries[best], q)
    ensures Depth(Agreement(entries[best], q)) == Deepest(entries, q)
  {
    hide Depth, Agreement, LexLess, Score;
    var i :| 0 <= i < |entries| && Depth(Agreement(entries[i], q)) == Deepest(entries, q);
    ScoreIsLexicographic(entries[best], entries[i], q);
    DeeperIsLarger(Agreement(entries[best], q), Agreement(entries[i], q));
  }
}
