/**
  The gate at the front of capture(): suppress a recent duplicate, else ask the rate limiter, else
  admit and remember.  The map of recent captures keeps insertion order, and refreshing a key
  keeps its place.
*/
module Admissions {
  import opened Wrappers
  import opened RateLimiters

  const DEDUP_WINDOW_NS: int := 10000000000
  const DEDUP_MAX_ENTRIES: nat := 64

  /** A key and the time, in nanoseconds, of the admitted capture that set it. */
  datatype Anchor = Anchor(key: string, at: int)

  datatype Verdict = Deduplicated | RateLimited | Admitted(drops: Option<Summary>)

  datatype State = State(limiter: Limiter, recent: seq<Anchor>)

  // ---------------------------------------------------------------- the map

  function Find(recent: seq<Anchor>, key: string): (i: nat)
    ensures i <= |recent|
    ensures i < |recent| ==> recent[i].key == key
    ensures forall k :: 0 <= k < i ==> recent[k].key != key
  {
    if recent == [] || recent[0].key == key then 0 else 1 + Find(recent[1..], key)
  }

  function Get(recent: seq<Anchor>, key: string): Option<int> {
    var i := Find(recent, key);
    if i < |recent| then Some(recent[i].at) else None
  }

  function Set(recent: seq<Anchor>, key: string, at: int): seq<Anchor> {
    var i := Find(recent, key);
    if i < |recent| then recent[i := Anchor(key, at)] else recent + [Anchor(key, at)]
  }

  /** set, then drop the first key if there are now too many. */
  function Remember(recent: seq<Anchor>, key: string, at: int, most: nat): seq<Anchor> {
    var s := Set(recent, key, at);
    if |s| > most && s != [] then s[1..] else s
  }

  // ---------------------------------------------------------------- the gate

  predicate IsDuplicate(recent: seq<Anchor>, key: Option<string>, ns: int) {
    key.Some? && Get(recent, key.value).Some? && ns - Get(recent, key.value).value < DEDUP_WINDOW_NS
  }

  predicate DropsDated(l: Limiter) {
    l.droppedSinceLastAcquire != 0 ==> l.firstDrop.Some? && l.lastDrop.Some?
  }

  function Judge(s: State, key: Option<string>, ns: int, now: int, limits: Limits): Verdict
    requires DropsDated(s.limiter)
  {
    if IsDuplicate(s.recent, key, ns) then Deduplicated
    else if !Grants(s.limiter, now, limits) then RateLimited
    else Admitted(DropSummary(Acquired(s.limiter, now, limits)))
  }

  /** The state after a capture with this key (none when the error has no fingerprint) at these readings of the two clocks. */
  function Admit(s: State, key: Option<string>, ns: int, now: int, limits: Limits, most: nat): State {
    if IsDuplicate(s.recent, key, ns) then s
    else
      var l := Acquired(s.limiter, now, limits);
      if !Grants(s.limiter, now, limits) then s.(limiter := l)
      else State(ResetDrops(l), if key.Some? then Remember(s.recent, key.value, ns, most) else s.recent)
  }

  // ---------------------------------------------------------------- runs

  datatype Capture = Capture(key: Option<string>, ns: int, now: int)

  /** The anchors of all captures admitted so far, oldest first. */
  datatype History = History(state: State, admitted: seq<Anchor>)

  function Next(r: History, c: Capture, limits: Limits, most: nat): History {
    var passes := !IsDuplicate(r.state.recent, c.key, c.ns) && Grants(r.state.limiter, c.now, limits);
    History(Admit(r.state, c.key, c.ns, c.now, limits, most),
        if passes && c.key.Some? then r.admitted + [Anchor(c.key.value, c.ns)] else r.admitted)
  }

  function RunOf(captures: seq<Capture>, limits: Limits, most: nat): History {
    if captures == [] then History(State(EMPTY, []), [])
    else Next(RunOf(captures[..|captures| - 1], limits, most), captures[|captures| - 1], limits, most)
  }

  /** When a capture with this key was last admitted. */
  function LastAdmitted(admitted: seq<Anchor>, key: string): Option<int> {
    if admitted == [] then None
    else
      var n := |admitted| - 1;
      if admitted[n].key == key then Some(admitted[n].at) else LastAdmitted(admitted[..n], key)
  }

  function Keys(anchors: seq<Anchor>): set<string> {
    if anchors == [] then {} else Keys(anchors[..|anchors| - 1]) + {anchors[|anchors| - 1].key}
  }

  /** The last `most` of a list. */
  function Kept(inserted: seq<string>, most: nat): seq<string> {
    if |inserted| <= most then inserted else inserted[|inserted| - most..]
  }

  /** The admissions that inserted their key, because it was not among the last `most` keys inserted. */
  function Insertions(admitted: seq<Anchor>, most: nat): seq<string> {
    if admitted == [] then []
    else
      var before, key := Insertions(admitted[..|admitted| - 1], most), admitted[|admitted| - 1].key;
      if key in Kept(before, most) then before else before + [key]
  }

  /** How many insertions followed a key's last one. */
  function Since(inserted: seq<string>, key: string): nat {
    if inserted == [] || inserted[|inserted| - 1] == key then 0 else 1 + Since(inserted[..|inserted| - 1], key)
  }

  function KeysOf(recent: seq<Anchor>): (k: seq<string>)
    ensures |k| == |recent|
  {
    seq(|recent|, i requires 0 <= i < |recent| => recent[i].key)
  }

  predicate DistinctKeys(recent: seq<Anchor>) {
    forall i, j :: 0 <= i < j < |recent| ==> recent[i].key != recent[j].key
  }

  /** The map holds the latest admission of each key it has, and of every key while there are few. */
  ghost predicate Good(r: History, most: nat) {
    && DropsDated(r.state.limiter)
    && DistinctKeys(r.state.recent) && |r.state.recent| <= most
    && (forall i :: 0 <= i < |r.state.recent| ==> LastAdmitted(r.admitted, r.state.recent[i].key) == Some(r.state.recent[i].at))
    && KeysOf(r.state.recent) == Kept(Insertions(r.admitted, most), most)
    && (|Keys(r.admitted)| <= most ==> forall key :: key in Keys(r.admitted) ==> Get(r.state.recent, key).Some?)
  }

  // ---------------------------------------------------------------- proofs

  lemma LastAdmittedSnoc(admitted: seq<Anchor>, a: Anchor, key: string)
    ensures LastAdmitted(admitted + [a], key) == if a.key == key then Some(a.at) else LastAdmitted(admitted, key)
    ensures Keys(admitted + [a]) == Keys(admitted) + {a.key}
  {
    assert (admitted + [a])[..|admitted|] == admitted;
  }

  lemma SetLooks(recent: seq<Anchor>, key: string, at: int)
    requires DistinctKeys(recent)
    ensures DistinctKeys(Set(recent, key, at))
    ensures forall i :: 0 <= i < |Set(recent, key, at)| ==>
              Set(recent, key, at)[i] == Anchor(key, at)
              || (Set(recent, key, at)[i].key != key && i < |recent| && recent[i] == Set(recent, key, at)[i])
  {
    hide Find;
  }

  lemma SetFinds(recent: seq<Anchor>, key: string, at: int, other: string)
    requires key == other || Get(recent, other).Some?
    ensures Get(Set(recent, key, at), other).Some?
  {
    hide Find;
    var s := Set(recent, key, at);
    var i := if key == other then (if Find(recent, key) < |recent| then Find(recent, key) else |recent|) else Find(recent, other);
    assert s[i].key == other;
  }

  lemma {:induction false} KeysOfAdmitted(admitted: seq<Anchor>, key: string)
    ensures LastAdmitted(admitted, key).Some? <==> key in Keys(admitted)
  {
    if admitted != [] {
      KeysOfAdmitted(admitted[..|admitted| - 1], key);
    }
  }

  /** Distinct keys that were all admitted are no more than the keys admitted. */
  lemma {:induction false} FewEntries(recent: seq<Anchor>, keys: set<string>)
    requires DistinctKeys(recent) && forall i :: 0 <= i < |recent| ==> recent[i].key in keys
    ensures |recent| <= |keys|
  {
    if recent != [] {
      var n := |recent| - 1;
      FewEntries(recent[..n], keys - {recent[n].key});
    }
  }

  /** A refresh moves no key; a new key goes last and drops the first one when the map is full. */
  lemma RememberKeys(recent: seq<Anchor>, key: string, at: int, most: nat)
    requires |recent| <= most
    ensures KeysOf(Remember(recent, key, at, most)) ==
              if key in KeysOf(recent) then KeysOf(recent)
              else if |recent| < most then KeysOf(recent) + [key]
              else (KeysOf(recent) + [key])[1..]
  {
    hide Find;
    var i := Find(recent, key);
    if i < |recent| {
      assert KeysOf(recent)[i] == key;
    } else {
      assert forall k :: 0 <= k < |recent| ==> KeysOf(recent)[k] == recent[k].key != key;
    }
  }

  lemma InsertionsSnoc(admitted: seq<Anchor>, a: Anchor, most: nat)
    ensures var before := Insertions(admitted, most);
            Insertions(admitted + [a], most) == if a.key in Kept(before, most) then before else before + [a.key]
  {
    assert (admitted + [a])[..|admitted|] == admitted;
  }

  lemma KeptGrows(inserted: seq<string>, key: string, most: nat)
    ensures Kept(inserted + [key], most) ==
              if |Kept(inserted, most)| < most then Kept(inserted, most) + [key] else (Kept(inserted, most) + [key])[1..]
    ensures |Kept(inserted, most)| <= most
  {
  }

  /** Remembering an admitted capture keeps the map good. */
  lemma RememberGood(r: History, key: string, at: int, most: nat, limiter: Limiter)
    requires Good(r, most) && DropsDated(limiter)
    ensures Good(History(State(limiter, Remember(r.state.recent, key, at, most)), r.admitted + [Anchor(key, at)]), most)
  {
    hide Find, Get, LastAdmitted, Keys, Set, Insertions, Kept, KeysOf;
    var s := Set(r.state.recent, key, at);
    var admitted := r.admitted + [Anchor(key, at)];
    SetLooks(r.state.recent, key, at);
    SetLength(r.state.recent, key, at);
    forall i | 0 <= i < |s| ensures LastAdmitted(admitted, s[i].key) == Some(s[i].at) {
      LastAdmittedSnoc(r.admitted, Anchor(key, at), s[i].key);
    }
    LastAdmittedSnoc(r.admitted, Anchor(key, at), key);
    RememberKeys(r.state.recent, key, at, most);
    InsertionsSnoc(r.admitted, Anchor(key, at), most);
    KeptGrows(Insertions(r.admitted, most), key, most);
    if |Keys(admitted)| <= most {
      SmallerSet(Keys(r.admitted), key);
      forall i | 0 <= i < |s| ensures s[i].key in Keys(admitted) {
        KeysOfAdmitted(admitted, s[i].key);
      }
      FewEntries(s, Keys(admitted));
      forall other | other in Keys(admitted) ensures Get(s, other).Some? {
        SetFinds(r.state.recent, key, at, other);
      }
    }
  }

  lemma SmallerSet(keys: set<string>, key: string)
    ensures |keys| <= |keys + {key}|
  {
    if key in keys { assert keys + {key} == keys; }
  }

  lemma SetLength(recent: seq<Anchor>, key: string, at: int)
    ensures |recent| <= |Set(recent, key, at)| <= |recent| + 1 && Set(recent, key, at) != []
  {
  }

  lemma LimiterDated(l: Limiter, now: int, limits: Limits)
    requires DropsDated(l)
    ensures DropsDated(Acquired(l, now, limits)) && DropsDated(ResetDrops(Acquired(l, now, limits)))
  {
    hide After;
  }

  lemma NextGood(r: History, c: Capture, limits: Limits, most: nat)
    requires Good(r, most)
    ensures Good(Next(r, c, limits, most), most)
  {
    hide Good, IsDuplicate, Grants, Remember, Acquired, ResetDrops;
    DatedIn(r, most);
    LimiterDated(r.state.limiter, c.now, limits);
    var l := Acquired(r.state.limiter, c.now, limits);
    if !IsDuplicate(r.state.recent, c.key, c.ns) {
      if !Grants(r.state.limiter, c.now, limits) {
        NewLimiter(r, l, most);
      } else if c.key.None? {
        NewLimiter(r, ResetDrops(l), most);
      } else {
        RememberGood(r, c.key.value, c.ns, most, ResetDrops(l));
      }
    }
  }

  lemma DatedIn(r: History, most: nat)
    requires Good(r, most)
    ensures DropsDated(r.state.limiter)
  {
  }

  lemma NewLimiter(r: History, l: Limiter, most: nat)
    requires Good(r, most) && DropsDated(l)
    ensures Good(History(State(l, r.state.recent), r.admitted), most)
  {
  }

  lemma {:induction false} RunGood(captures: seq<Capture>, limits: Limits, most: nat)
    ensures Good(RunOf(captures, limits, most), most)
    decreases |captures|
  {
    hide Next, Good;
    if captures == [] {
      StartGood(most);
    } else {
      var n := |captures| - 1;
      RunGood(captures[..n], limits, most);
      NextGood(RunOf(captures[..n], limits, most), captures[n], limits, most);
    }
  }

  lemma StartGood(most: nat)
    ensures Good(History(State(EMPTY, []), []), most)
  {
  }

  // ---------------------------------------------------------------- what the gate promises

  /**
    In every run a capture suppressed as a duplicate changes nothing, so it takes no token, and the
    last admitted capture with its key is less than 10 s old.  The map never exceeds its bound.
  */
  lemma SuppressedHasRecentOriginal(captures: seq<Capture>, limits: Limits, most: nat, c: Capture)
    requires IsDuplicate(RunOf(captures, limits, most).state.recent, c.key, c.ns)
    ensures var r := RunOf(captures, limits, most);
            && Next(r, c, limits, most) == r
            && c.key.Some? && LastAdmitted(r.admitted, c.key.value).Some?
            && c.ns - LastAdmitted(r.admitted, c.key.value).value < DEDUP_WINDOW_NS
            && |r.state.recent| <= most
  {
    hide RunOf, Find, Grants;
    RunGood(captures, limits, most);
    var r := RunOf(captures, limits, most);
    var i := Find(r.state.recent, c.key.value);
    assert r.state.recent[i].key == c.key.value;
  }

  /** As long as no more keys were admitted than the map can hold, every such duplicate is suppressed too. */
  lemma CompleteWhileFewKeys(captures: seq<Capture>, limits: Limits, most: nat, c: Capture)
    requires |Keys(RunOf(captures, limits, most).admitted)| <= most && c.key.Some?
    ensures var r := RunOf(captures, limits, most); var last := LastAdmitted(r.admitted, c.key.value);
            IsDuplicate(r.state.recent, c.key, c.ns) <==> last.Some? && c.ns - last.value < DEDUP_WINDOW_NS
  {
    hide RunOf, Find, LastAdmitted, Keys;
    RunGood(captures, limits, most);
    var r := RunOf(captures, limits, most);
    KeysOfAdmitted(r.admitted, c.key.value);
    var i := Find(r.state.recent, c.key.value);
    if i < |r.state.recent| {
      assert r.state.recent[i].key == c.key.value;
    }
  }

  lemma {:induction false} KeptIff(inserted: seq<string>, key: string, most: nat)
    ensures key in Kept(inserted, most) <==> key in inserted && Since(inserted, key) < most
  {
    if inserted != [] && most > 0 {
      var n := |inserted| - 1;
      KeptIff(inserted[..n], key, most - 1);
      assert inserted == inserted[..n] + [inserted[n]];
      assert Kept(inserted, most) == Kept(inserted[..n], most - 1) + [inserted[n]];
    }
  }

  lemma {:induction false} InsertedIffAdmitted(admitted: seq<Anchor>, key: string, most: nat)
    ensures key in Insertions(admitted, most) <==> LastAdmitted(admitted, key).Some?
  {
    if admitted != [] {
      var before := Insertions(admitted[..|admitted| - 1], most);
      InsertedIffAdmitted(admitted[..|admitted| - 1], key, most);
      KeptIff(before, admitted[|admitted| - 1].key, most);
    }
  }

  lemma GetIff(recent: seq<Anchor>, key: string)
    ensures Get(recent, key).Some? <==> key in KeysOf(recent)
  {
    var i := Find(recent, key);
    if i < |recent| {
      assert KeysOf(recent)[i] == key;
    } else {
      assert forall k :: 0 <= k < |recent| ==> KeysOf(recent)[k] == recent[k].key;
    }
  }

  /**
    The exact law of the gate, in every run: a capture is suppressed if and only if its key was last
    admitted less than 10 s earlier and fewer than `most` other keys were inserted since it was.
    What counts is the insertion, which a refresh does not renew.
  */
  lemma SuppressedIff(captures: seq<Capture>, limits: Limits, most: nat, key: string, ns: int)
    ensures var r := RunOf(captures, limits, most); var last := LastAdmitted(r.admitted, key);
            IsDuplicate(r.state.recent, Some(key), ns)
            <==> last.Some? && ns - last.value < DEDUP_WINDOW_NS && Since(Insertions(r.admitted, most), key) < most
  {
    hide RunOf, Find, LastAdmitted, Keys, Insertions, Kept, Since, KeysOf;
    RunGood(captures, limits, most);
    var r := RunOf(captures, limits, most);
    GetIff(r.state.recent, key);
    KeptIff(Insertions(r.admitted, most), key, most);
    InsertedIffAdmitted(r.admitted, key, most);
    var i := Find(r.state.recent, key);
    if i < |r.state.recent| {
      assert r.state.recent[i].key == key;
    }
  }

  // ---------------------------------------------------------------- a forgotten refresh

  const TURN_MS: int := 4999

  /** Keys told apart by their length. */
  function Name(i: nat): (s: string)
    ensures |s| == i + 1
  {
    seq(i + 1, _ => 'k')
  }

  function CaptureAt(key: string, turn: nat): Capture {
    Capture(Some(key), turn * TURN_MS * 1000000, turn * TURN_MS)
  }

  /** n different errors, one every five seconds. */
  function Different(n: nat): seq<Capture> {
    seq(n, i requires 0 <= i < n => CaptureAt(Name(i), i))
  }

  /** Then the first one again, and a new one. */
  function Forgetting(most: nat): seq<Capture> {
    Different(most) + [CaptureAt(Name(0), most + 2)] + [CaptureAt(Name(most), most + 3)]
  }

  function AnchorAt(key: string, turn: nat): Anchor {
    Anchor(key, turn * TURN_MS * 1000000)
  }

  function AnchorsOf(n: nat): seq<Anchor> {
    seq(n, i requires 0 <= i < n => AnchorAt(Name(i), i))
  }

  /** A limit that a capture every five seconds does not reach. */
  predicate Ample(limits: Limits) {
    limits.maxCaptures >= 1 && limits.maxCaptures * TURN_MS >= limits.windowMs
  }

  /** Grants at least a turn apart, the last before this turn. */
  predicate Paced(l: Limiter, turn: nat) {
    && (forall i, j :: 0 <= i < j < |l.timestamps| ==> l.timestamps[j] - l.timestamps[i] >= (j - i) * TURN_MS)
    && (forall i :: 0 <= i < |l.timestamps| ==> l.timestamps[i] <= (turn - 1) * TURN_MS)
    && l.droppedSinceLastAcquire == 0
  }

  lemma PacedGrants(l: Limiter, turn: nat, later: nat, limits: Limits)
    requires Ample(limits) && Paced(l, turn) && turn <= later
    ensures Grants(l, later * TURN_MS, limits) && Paced(Acquired(l, later * TURN_MS, limits), later + 1)
  {
    hide After, FirstAfter;
    var now := later * TURN_MS;
    var cutoff := now - limits.windowMs;
    AfterIsSuffix(l.timestamps, cutoff);
    var k, n := FirstAfter(l.timestamps, cutoff), |l.timestamps|;
    var kept := After(l.timestamps, cutoff);
    assert forall i :: 0 <= i < |kept| ==> kept[i] == l.timestamps[k + i];
    if k < n {
      assert l.timestamps[n - 1] - l.timestamps[k] >= (n - 1 - k) * TURN_MS;
    }
  }

  /** One admitted capture of the scenario. */
  lemma PacedAdmits(r: History, key: string, turn: nat, later: nat, limits: Limits, most: nat)
    requires Ample(limits) && Paced(r.state.limiter, turn) && turn <= later
    requires !IsDuplicate(r.state.recent, Some(key), later * TURN_MS * 1000000)
    ensures var t := Next(r, CaptureAt(key, later), limits, most);
            && Paced(t.state.limiter, later + 1) && t.admitted == r.admitted + [AnchorAt(key, later)]
            && t.state.recent == Remember(r.state.recent, key, later * TURN_MS * 1000000, most)
  {
    hide Remember, IsDuplicate, Grants;
    PacedGrants(r.state.limiter, turn, later, limits);
  }

  lemma {:induction false} FindNew(recent: seq<Anchor>, key: string)
    requires forall i :: 0 <= i < |recent| ==> recent[i].key != key
    ensures Find(recent, key) == |recent|
  {
    if recent != [] {
      FindNew(recent[1..], key);
    }
  }

  lemma RunSnoc(captures: seq<Capture>, c: Capture, limits: Limits, most: nat)
    ensures RunOf(captures + [c], limits, most) == Next(RunOf(captures, limits, most), c, limits, most)
  {
    hide Next;
    assert (captures + [c])[..|captures|] == captures;
  }

  /** A new key in a map with room. */
  lemma RememberNew(recent: seq<Anchor>, key: string, at: int, most: nat)
    requires |recent| < most && forall i :: 0 <= i < |recent| ==> recent[i].key != key
    ensures Remember(recent, key, at, most) == recent + [Anchor(key, at)]
    ensures forall ns :: !IsDuplicate(recent, Some(key), ns)
  {
    FindNew(recent, key);
  }

  lemma {:induction false} Fills(n: nat, limits: Limits, most: nat)
    requires Ample(limits) && n <= most
    ensures var r := RunOf(Different(n), limits, most);
            r.state.recent == AnchorsOf(n) && r.admitted == AnchorsOf(n) && Paced(r.state.limiter, n)
  {
    hide Next, Paced, Remember, IsDuplicate, Ample;
    if n == 0 {
      StartPaced();
    } else {
      hide RunOf;
      var m := n - 1;
      Fills(m, limits, most);
      var r := RunOf(Different(m), limits, most);
      assert Different(n) == Different(m) + [CaptureAt(Name(m), m)];
      RunSnoc(Different(m), CaptureAt(Name(m), m), limits, most);
      assert forall i :: 0 <= i < m ==> r.state.recent[i].key == Name(i);
      RememberNew(r.state.recent, Name(m), m * TURN_MS * 1000000, most);
      PacedAdmits(r, Name(m), m, m, limits, most);
      assert AnchorsOf(n) == AnchorsOf(m) + [AnchorAt(Name(m), m)];
    }
  }

  lemma StartPaced()
    ensures Paced(EMPTY, 0)
  {
  }

  /**
    For every bound of the map, that of the code included, and every limit a capture each five
    seconds does not reach: an error admitted ten seconds before is admitted again, because its
    refreshed key kept its first place and the next new key pushed it out.
  */
  lemma RefreshedKeyEvictedFirst(limits: Limits, most: nat)
    requires Ample(limits) && most >= 1
    ensures var r, c := RunOf(Forgetting(most), limits, most), CaptureAt(Name(0), most + 4);
            && LastAdmitted(r.admitted, Name(0)).Some? && c.ns - LastAdmitted(r.admitted, Name(0)).value < DEDUP_WINDOW_NS
            && !IsDuplicate(r.state.recent, c.key, c.ns) && Grants(r.state.limiter, c.now, limits)
            && |r.state.recent| == most
  {
    hide RunOf, Next, Paced, Grants, LastAdmitted;
    var first, again, novel := Different(most), CaptureAt(Name(0), most + 2), CaptureAt(Name(most), most + 3);
    var r := RunOf(first, limits, most);
    Fills(most, limits, most);
    assert r.state.recent[0] == AnchorAt(Name(0), 0);
    assert Find(r.state.recent, Name(0)) == 0;
    RunSnoc(first, again, limits, most);
    LaterTurn(r.state.limiter, most, most + 2);
    PacedAdmits(r, Name(0), most + 2, most + 2, limits, most);
    var s := RunOf(first + [again], limits, most);
    assert s.state.recent == r.state.recent[0 := AnchorAt(Name(0), most + 2)];
    FindNew(s.state.recent, Name(most));
    RunSnoc(first + [again], novel, limits, most);
    PacedAdmits(s, Name(most), most + 3, most + 3, limits, most);
    var t := RunOf(Forgetting(most), limits, most);
    assert t.state.recent == s.state.recent[1..] + [AnchorAt(Name(most), most + 3)];
    FindNew(t.state.recent, Name(0));
    PacedGrants(t.state.limiter, most + 4, most + 4, limits);
    LastAdmittedSnoc(s.admitted, AnchorAt(Name(most), most + 3), Name(0));
    LastAdmittedSnoc(r.admitted, AnchorAt(Name(0), most + 2), Name(0));
  }

  lemma LaterTurn(l: Limiter, turn: nat, later: nat)
    requires Paced(l, turn) && turn <= later
    ensures Paced(l, later)
  {
  }

  // ---------------------------------------------------------------- the class

  /** The admission part of ErrorCapturer. */
  class AdmissionGate {
    const rateLimiter: RateLimiter
    var recentCaptures: seq<Anchor>
    var droppedDeduplicated: nat
    var droppedRateLimited: nat

    ghost function View(): State
      reads this, rateLimiter
    {
      State(rateLimiter.View(), recentCaptures)
    }

    ghost predicate Valid()
      reads this, rateLimiter
    {
      rateLimiter.Valid()
    }

    constructor (rateLimiter: RateLimiter)
      ensures this.rateLimiter == rateLimiter && recentCaptures == [] && droppedDeduplicated == 0 && droppedRateLimited == 0
    {
      this.rateLimiter := rateLimiter;
      recentCaptures, droppedDeduplicated, droppedRateLimited := [], 0, 0;
    }

    /** The part of capture() up to the decision to build a package; now is what the limiter reads as the time. */
    method AdmitCapture(dedupKey: Option<string>, errorEventHrtimeNs: int, now: int) returns (verdict: Verdict)
      requires Valid()
      modifies this, rateLimiter
      ensures Valid()
      ensures verdict == Judge(old(View()), dedupKey, errorEventHrtimeNs, now, Limits(rateLimiter.maxCaptures, rateLimiter.windowMs))
      ensures View() == Admit(old(View()), dedupKey, errorEventHrtimeNs, now,
                              Limits(rateLimiter.maxCaptures, rateLimiter.windowMs), DEDUP_MAX_ENTRIES)
      ensures droppedDeduplicated == old(droppedDeduplicated) + (if verdict.Deduplicated? then 1 else 0)
      ensures droppedRateLimited == old(droppedRateLimited) + (if verdict.RateLimited? then 1 else 0)
    {
      hide After, Find;
      if dedupKey.Some? {
        var previous := Get(recentCaptures, dedupKey.value);
        if previous.Some? && errorEventHrtimeNs - previous.value < DEDUP_WINDOW_NS {
          droppedDeduplicated := droppedDeduplicated + 1;
          return Deduplicated;
        }
      }
      var granted := rateLimiter.TryAcquire(now);
      if !granted {
        droppedRateLimited := droppedRateLimited + 1;
        return RateLimited;
      }
      var drops := rateLimiter.GetAndResetDropSummary();
      if dedupKey.Some? {
        recentCaptures := Set(recentCaptures, dedupKey.value, errorEventHrtimeNs);
        if |recentCaptures| > DEDUP_MAX_ENTRIES {
          recentCaptures := recentCaptures[1..];
        }
      }
      return Admitted(drops);
    }
  }
}
