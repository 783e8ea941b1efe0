/**
  The tracestate header (section 3.3 of W3C Trace Context) as carrier of the clock: parse and
  format, and the law that makes the carrier sound.
*/
module Tracestates {
  import opened Wrappers
  import opened Strings
  import EventClocks

  const W3C_MAX_ENTRIES: int := 32
  const W3C_MAX_TOTAL_LENGTH: int := 512

  datatype ParsedTracestate = ParsedTracestate(receivedSeq: Option<int>, inheritedEntries: seq<string>)

  // ---------------------------------------------------------------- one entry

  datatype Entry = Skipped | Ours(value: string) | Foreign(text: string)

  /** One list member, after the trims: dropped, under our key, or somebody else's. */
  function Classify(raw: string, vendorKey: string): Entry {
    var trimmed := Trim(raw);
    var eq := IndexOf(trimmed, '=');
    if trimmed == [] || eq == |trimmed| || eq == 0 then Skipped
    else
      var key := Trim(trimmed[..eq]);
      if key == [] then Skipped
      else if key == vendorKey then Ours(Trim(trimmed[eq + 1..]))
      else Foreign(trimmed)
  }

  /**
    The clock a value clk:<1 to 16 digits> carries, if it is a positive safe integer.  Sixteen
    digits may exceed the safe range, where Number() rounds but the guard rejects either way.
  */
  function ClockValue(value: string): Option<int> {
    if |value| >= 5 && value[..4] == "clk:" && |value| - 4 <= 16 && AllDigits(value[4..]) then
      var n := ParseDecimal(value[4..]);
      if 0 < n <= EventClocks.MAX_SAFE_INTEGER then Some(n) else None
    else None
  }

  function EntryClock(e: Entry): Option<int> {
    if e.Ours? then ClockValue(e.value) else None
  }

  /** The first clock the entries carry. */
  function FirstClock(entries: seq<string>, vendorKey: string): Option<int> {
    if entries == [] then None
    else
      var earlier := FirstClock(entries[..|entries| - 1], vendorKey);
      if earlier.Some? then earlier else EntryClock(Classify(entries[|entries| - 1], vendorKey))
  }

  /** The foreign entries, trimmed, in order. */
  function ForeignEntries(entries: seq<string>, vendorKey: string): seq<string> {
    if entries == [] then []
    else
      var e := Classify(entries[|entries| - 1], vendorKey);
      ForeignEntries(entries[..|entries| - 1], vendorKey) + if e.Foreign? then [e.text] else []
  }

  function Parse(header: Option<string>, vendorKey: string): ParsedTracestate {
    if header.None? || header.value == [] then ParsedTracestate(None, [])
    else
      var entries := Split(header.value, ',');
      ParsedTracestate(FirstClock(entries, vendorKey), ForeignEntries(entries, vendorKey))
  }

  lemma ParseNothing(vendorKey: string)
    ensures Parse(None, vendorKey) == ParsedTracestate(None, [])
  {
  }

  lemma NoEntries(vendorKey: string)
    ensures FirstClock([], vendorKey) == None && ForeignEntries([], vendorKey) == []
  {
  }

  lemma NextEntry(entries: seq<string>, i: nat, vendorKey: string)
    requires i < |entries|
    ensures var e := Classify(entries[i], vendorKey);
            var earlier := FirstClock(entries[..i], vendorKey);
            && FirstClock(entries[..i + 1], vendorKey) == (if earlier.Some? then earlier else EntryClock(e))
            && ForeignEntries(entries[..i + 1], vendorKey) == ForeignEntries(entries[..i], vendorKey) + if e.Foreign? then [e.text] else []
  {
    assert entries[..i + 1][..i] == entries[..i];
  }

  method ParseTracestate(header: Option<string>, vendorKey: string) returns (result: ParsedTracestate)
    ensures result == Parse(header, vendorKey)
  {
    hide FirstClock, ForeignEntries, ClockValue, Trim, Split, IndexOf;
    result := ParsedTracestate(None, []);
    NoEntries(vendorKey);
    if header.None? || |header.value| == 0 {
      return;
    }
    var entries := Split(header.value, ',');
    for i := 0 to |entries|
      invariant result == ParsedTracestate(FirstClock(entries[..i], vendorKey), ForeignEntries(entries[..i], vendorKey))
    {
      NextEntry(entries, i, vendorKey);
      var trimmed := Trim(entries[i]);
      if |trimmed| == 0 {
        continue;
      }
      var eq := IndexOf(trimmed, '=');
      if eq == |trimmed| || eq <= 0 {
        continue;
      }
      var key, value := Trim(trimmed[..eq]), Trim(trimmed[eq + 1..]);
      if |key| == 0 {
        continue;
      }
      if key == vendorKey {
        var clock := ClockValue(value);
        if clock.Some? && result.receivedSeq.None? {
          result := result.(receivedSeq := clock);
        }
        continue;
      }
      result := result.(inheritedEntries := result.inheritedEntries + [trimmed]);
    }
    assert entries[..|entries|] == entries;
  }

  // ---------------------------------------------------------------- format

  function OurEntry(clock: nat, vendorKey: string): string {
    vendorKey + "=clk:" + Decimal(clock)
  }

  function Listed(ours: string, inherited: seq<string>, k: nat): string
    requires k <= |inherited|
  {
    Join([ours] + inherited[..k], ',')
  }

  /** Both caps of section 3.3.1.5 and the member limit of 3.3.1.1 hold with k inherited entries. */
  predicate Fits(ours: string, inherited: seq<string>, k: nat)
    requires k <= |inherited|
  {
    1 + k <= W3C_MAX_ENTRIES && |Listed(ours, inherited, k)| <= W3C_MAX_TOTAL_LENGTH
  }

  /** The largest count up to k that fits, or 0. */
  function Kept(ours: string, inherited: seq<string>, k: nat): (r: nat)
    requires k <= |inherited|
    ensures r <= k
    ensures r == 0 || Fits(ours, inherited, r)
    ensures forall j :: r < j <= k ==> !Fits(ours, inherited, j)
  {
    if k == 0 || Fits(ours, inherited, k) then k else Kept(ours, inherited, k - 1)
  }

  function Format(clock: nat, inherited: seq<string>, vendorKey: string): string {
    var ours := OurEntry(clock, vendorKey);
    Listed(ours, inherited, Kept(ours, inherited, |inherited|))
  }

  lemma {:induction false} KeptWithin(ours: string, inherited: seq<string>, k: nat, m: nat)
    requires k <= m <= |inherited|
    requires forall j :: k < j <= m ==> !Fits(ours, inherited, j)
    ensures Kept(ours, inherited, m) == Kept(ours, inherited, k)
  {
    if k < m {
      KeptWithin(ours, inherited, k, m - 1);
    }
  }

  method FormatTracestate(currentSeq: nat, inherited: Option<seq<string>>, vendorKey: string) returns (joined: string)
    ensures joined == Format(currentSeq, if inherited.Some? then inherited.value else [], vendorKey)
  {
    var ours := OurEntry(currentSeq, vendorKey);
    var rest := if inherited.Some? then inherited.value else [];
    var list := [ours] + rest;
    ghost var k := |rest|;
    assert rest[..k] == rest;
    while |list| > W3C_MAX_ENTRIES
      invariant 0 <= k <= |rest| && list == [ours] + rest[..k]
      invariant forall j :: k < j <= |rest| ==> !Fits(ours, rest, j)
    {
      list := list[..|list| - 1];
      k := k - 1;
    }
    joined := Join(list, ',');
    while |joined| > W3C_MAX_TOTAL_LENGTH && |list| > 1
      invariant 0 <= k <= |rest| && list == [ours] + rest[..k] && joined == Listed(ours, rest, k)
      invariant |list| <= W3C_MAX_ENTRIES
      invariant forall j :: k < j <= |rest| ==> !Fits(ours, rest, j)
      decreases |list|
    {
      list := list[..|list| - 1];
      k := k - 1;
      joined := Join(list, ',');
    }
    KeptWithin(ours, rest, k, |rest|);
  }

  // ---------------------------------------------------------------- the caps

  /** The vendor-key grammar the configuration enforces. */
  predicate LegalKey(vendorKey: string) {
    1 <= |vendorKey| <= 256 && forall k :: 0 <= k < |vendorKey| ==> KeyChar(vendorKey[k])
  }

  predicate KeyChar(c: char) {
    'a' <= c <= 'z' || IsDigit(c) || c == '_' || c == '-' || c == '*' || c == '/'
  }

  lemma ListedGrows(ours: string, inherited: seq<string>, k: nat)
    requires k < |inherited|
    ensures |Listed(ours, inherited, k)| < |Listed(ours, inherited, k + 1)|
    ensures ours <= Listed(ours, inherited, k)
  {
    assert [ours] + inherited[..k + 1] == ([ours] + inherited[..k]) + [inherited[k]];
    JoinSnoc([ours] + inherited[..k], inherited[k], ',');
    JoinHead(ours, inherited[..k]);
  }

  lemma JoinHead(ours: string, rest: seq<string>)
    ensures ours <= Join([ours] + rest, ',')
  {
    if rest != [] {
      assert ([ours] + rest)[1..] == rest;
      assert Join([ours] + rest, ',') == ours + ([','] + Join(rest, ','));
    }
  }

  /** Fitting is downward closed, so the kept count is the one longest prefix that fits. */
  lemma {:induction false} FitsDownward(ours: string, inherited: seq<string>, j: nat, k: nat)
    requires j <= k <= |inherited| && Fits(ours, inherited, k)
    ensures Fits(ours, inherited, j)
    decreases k - j
  {
    if j < k {
      ListedGrows(ours, inherited, k - 1);
      FitsDownward(ours, inherited, j, k - 1);
    }
  }

  lemma OurEntryShort(clock: nat, vendorKey: string)
    requires LegalKey(vendorKey) && clock <= EventClocks.MAX_SAFE_INTEGER
    ensures |OurEntry(clock, vendorKey)| <= 277
  {
    SixteenDigits(clock);
  }

  /** For any legal key the header stays within 32 members and 512 characters, our entry first. */
  lemma FormatWithinCaps(clock: nat, inherited: seq<string>, vendorKey: string)
    requires LegalKey(vendorKey) && clock <= EventClocks.MAX_SAFE_INTEGER
    ensures var ours := OurEntry(clock, vendorKey);
            var k := Kept(ours, inherited, |inherited|);
            && |Format(clock, inherited, vendorKey)| <= W3C_MAX_TOTAL_LENGTH && 1 + k <= W3C_MAX_ENTRIES
            && ours <= Format(clock, inherited, vendorKey)
            && forall j :: 0 <= j <= |inherited| ==> (Fits(ours, inherited, j) <==> j <= k)
  {
    var ours := OurEntry(clock, vendorKey);
    var k := Kept(ours, inherited, |inherited|);
    OurEntryShort(clock, vendorKey);
    assert Listed(ours, inherited, 0) == ours;
    JoinHead(ours, inherited[..k]);
    forall j | 0 <= j <= k ensures Fits(ours, inherited, j) {
      FitsDownward(ours, inherited, j, k);
    }
  }

  // ---------------------------------------------------------------- the round trip

  /** An inherited entry as parse yields it. */
  predicate IsInherited(entry: string, vendorKey: string) {
    ',' !in entry && Classify(entry, vendorKey) == Foreign(entry)
  }

  lemma {:induction false} ForeignAreInherited(entries: seq<string>, vendorKey: string)
    requires forall k :: 0 <= k < |entries| ==> ',' !in entries[k]
    ensures forall k :: 0 <= k < |ForeignEntries(entries, vendorKey)| ==> IsInherited(ForeignEntries(entries, vendorKey)[k], vendorKey)
  {
    if entries != [] {
      var last := entries[|entries| - 1];
      ForeignAreInherited(entries[..|entries| - 1], vendorKey);
      TrimShape(last);
      TrimTrimmed(Trim(last));
    }
  }

  /** Whatever the header, parse yields only well-formed foreign entries and only usable clocks. */
  lemma ParseYields(header: Option<string>, vendorKey: string)
    ensures var p := Parse(header, vendorKey);
            && (forall k :: 0 <= k < |p.inheritedEntries| ==> IsInherited(p.inheritedEntries[k], vendorKey))
            && (p.receivedSeq.Some? ==> 0 < p.receivedSeq.value <= EventClocks.MAX_SAFE_INTEGER)
  {
    if header.Some? && header.value != [] {
      SplitParts(header.value, ',');
      ForeignAreInherited(Split(header.value, ','), vendorKey);
      FirstClockUsable(Split(header.value, ','), vendorKey);
    }
  }

  lemma {:induction false} FirstClockUsable(entries: seq<string>, vendorKey: string)
    ensures FirstClock(entries, vendorKey).Some? ==> 0 < FirstClock(entries, vendorKey).value <= EventClocks.MAX_SAFE_INTEGER
  {
    if entries != [] {
      FirstClockUsable(entries[..|entries| - 1], vendorKey);
    }
  }

  lemma KeyPlain(vendorKey: string)
    requires LegalKey(vendorKey)
    ensures '=' !in vendorKey && ',' !in vendorKey && IsTrimmed(vendorKey)
  {
  }

  lemma DigitsPlain(s: string)
    requires AllDigits(s)
    ensures ',' !in s && IsTrimmed(s)
  {
  }

  lemma ClockReadBack(clock: nat)
    requires clock <= EventClocks.MAX_SAFE_INTEGER
    ensures ClockValue("clk:" + Decimal(clock)) == if clock >= 1 then Some(clock) else None
  {
    var digits := Decimal(clock);
    var value := "clk:" + digits;
    assert value[..4] == "clk:" && value[4..] == digits;
    DecimalRoundTrip(clock);
    SixteenDigits(clock);
  }

  lemma SixteenDigits(clock: nat)
    requires clock <= EventClocks.MAX_SAFE_INTEGER
    ensures |Decimal(clock)| <= 16
  {
    assert Pow10(4) == 10000 && Pow10(8) == 10000 * Pow10(4) && Pow10(12) == 10000 * Pow10(8) && Pow10(16) == 10000 * Pow10(12);
    DecimalLength(clock, 16);
  }

  /** Our own entry is read back as our own entry, with its clock unless that is 0. */
  lemma OursReadBack(clock: nat, vendorKey: string)
    requires LegalKey(vendorKey) && clock <= EventClocks.MAX_SAFE_INTEGER
    ensures ',' !in OurEntry(clock, vendorKey)
    ensures Classify(OurEntry(clock, vendorKey), vendorKey) == Ours("clk:" + Decimal(clock))
  {
    hide Trim, Decimal;
    var digits := Decimal(clock);
    var ours, value := OurEntry(clock, vendorKey), "clk:" + digits;
    KeyPlain(vendorKey);
    DigitsPlain(digits);
    assert ours == vendorKey + ['='] + value;
    assert ours[0] == vendorKey[0] && ours[|ours| - 1] == digits[|digits| - 1];
    TrimTrimmed(ours);
    forall k | 0 <= k < |vendorKey| ensures ours[k] != '=' { assert ours[k] == vendorKey[k]; }
    IndexOfFirst(ours, '=', |vendorKey|);
    assert ours[..|vendorKey|] == vendorKey && ours[|vendorKey| + 1..] == value;
    TrimTrimmed(vendorKey);
    TrimTrimmed(value);
  }

  lemma {:induction false} InheritedReadBack(ours: string, inherited: seq<string>, vendorKey: string)
    requires Classify(ours, vendorKey).Ours?
    requires forall k :: 0 <= k < |inherited| ==> IsInherited(inherited[k], vendorKey)
    ensures FirstClock([ours] + inherited, vendorKey) == EntryClock(Classify(ours, vendorKey))
    ensures ForeignEntries([ours] + inherited, vendorKey) == inherited
  {
    hide Classify, ClockValue, FirstClock, ForeignEntries;
    var list, n := [ours] + inherited, |inherited|;
    NoEntries(vendorKey);
    NextEntry(list, n, vendorKey);
    assert list[..n + 1] == list;
    if n == 0 {
      assert list[..0] == [];
    } else {
      var front := inherited[..n - 1];
      InheritedReadBack(ours, front, vendorKey);
      assert list[..n] == [ours] + front && inherited == front + [inherited[n - 1]];
    }
  }

  /**
    What one service formats the next one parses: the clock, when it is at least 1, and the
    longest prefix of the inherited entries that fits the caps.  A clock of 0 is not carried.
  */
  lemma FormatThenParse(clock: nat, inherited: seq<string>, vendorKey: string)
    requires LegalKey(vendorKey) && clock <= EventClocks.MAX_SAFE_INTEGER
    requires forall k :: 0 <= k < |inherited| ==> IsInherited(inherited[k], vendorKey)
    ensures Parse(Some(Format(clock, inherited, vendorKey)), vendorKey)
            == ParsedTracestate(if clock >= 1 then Some(clock) else None,
                                inherited[..Kept(OurEntry(clock, vendorKey), inherited, |inherited|)])
  {
    var ours := OurEntry(clock, vendorKey);
    hide Classify, ClockValue, FirstClock, ForeignEntries, Split, Decimal, Join;
    var kept := inherited[..Kept(ours, inherited, |inherited|)];
    var header := Format(clock, inherited, vendorKey);
    OursReadBack(clock, vendorKey);
    ClockReadBack(clock);
    JoinHead(ours, kept);
    SplitJoin([ours] + kept, ',');
    InheritedReadBack(ours, kept, vendorKey);
  }

  // ---------------------------------------------------------------- exactly the members

  /** The list member key=value, white space around it and around its = aside. */
  ghost predicate IsMember(part: string, key: string, value: string) {
    key != "" && exists k, v :: IsPair(Trim(part), k, v) && Trim(k) == key && Trim(v) == value
  }

  predicate IsPair(text: string, k: string, v: string) {
    text == k + ['='] + v && '=' !in k
  }

  lemma PairIs(text: string, k: string, v: string)
    requires IsPair(text, k, v)
    ensures IndexOf(text, '=') == |k| < |text| && text[..|k|] == k && text[|k| + 1..] == v
  {
    IndexOfFirst(text, '=', |k|);
  }

  /** A part counts if and only if it is a member, and then for what its key says. */
  lemma ClassifyIff(part: string, vendorKey: string)
    ensures Classify(part, vendorKey).Skipped? <==> forall key, value :: !IsMember(part, key, value)
    ensures forall key, value :: IsMember(part, key, value) ==>
              Classify(part, vendorKey) == if key == vendorKey then Ours(value) else Foreign(Trim(part))
  {
    hide Trim, IndexOf;
    forall key, value | IsMember(part, key, value)
      ensures Classify(part, vendorKey) == if key == vendorKey then Ours(value) else Foreign(Trim(part))
    {
      var k, v :| IsPair(Trim(part), k, v) && Trim(k) == key && Trim(v) == value;
      PairIs(Trim(part), k, v);
      if k == "" { TrimTrimmed(k); }
    }
    if !Classify(part, vendorKey).Skipped? {
      var text := Trim(part);
      var eq := IndexOf(text, '=');
      assert text == text[..eq] + ['='] + text[eq + 1..];
      assert IsPair(text, text[..eq], text[eq + 1..]);
      assert IsMember(part, Trim(text[..eq]), Trim(text[eq + 1..]));
    }
  }

  /** The members under other keys, trimmed, in order. */
  ghost function OtherMembers(parts: seq<string>, vendorKey: string): seq<string> {
    if parts == [] then []
    else
      var last := parts[|parts| - 1];
      OtherMembers(parts[..|parts| - 1], vendorKey)
      + if exists key, value :: IsMember(last, key, value) && key != vendorKey then [Trim(last)] else []
  }

  /** A member under our key that reads clk: and up to sixteen digits of a positive safe integer. */
  ghost predicate CarriesClock(part: string, vendorKey: string, n: int) {
    exists digits :: IsMember(part, vendorKey, "clk:" + digits) && IsClock(digits, n)
  }

  predicate IsClock(digits: string, n: int) {
    1 <= |digits| <= 16 && AllDigits(digits) && ParseDecimal(digits) == n && 1 <= n <= EventClocks.MAX_SAFE_INTEGER
  }

  ghost predicate NoClock(part: string, vendorKey: string) {
    forall n :: !CarriesClock(part, vendorKey, n)
  }

  lemma EntryClockIff(part: string, vendorKey: string, n: int)
    ensures EntryClock(Classify(part, vendorKey)) == Some(n) <==> CarriesClock(part, vendorKey, n)
  {
    hide Classify;
    ClassifyIff(part, vendorKey);
    if CarriesClock(part, vendorKey, n) {
      var digits :| IsMember(part, vendorKey, "clk:" + digits) && IsClock(digits, n);
      assert ("clk:" + digits)[..4] == "clk:" && ("clk:" + digits)[4..] == digits;
    }
    var e := Classify(part, vendorKey);
    if EntryClock(e) == Some(n) {
      var key, value :| IsMember(part, key, value);
      assert key == vendorKey && e == Ours(value);
      assert value == "clk:" + value[4..] && IsClock(value[4..], n);
    }
  }

  lemma {:induction false} ForeignAreOthers(parts: seq<string>, vendorKey: string)
    ensures ForeignEntries(parts, vendorKey) == OtherMembers(parts, vendorKey)
  {
    hide Classify, IsMember, Trim;
    if parts != [] {
      ForeignAreOthers(parts[..|parts| - 1], vendorKey);
      ClassifyIff(parts[|parts| - 1], vendorKey);
    }
  }

  lemma {:induction false} FirstClockIff(parts: seq<string>, vendorKey: string, n: int)
    ensures FirstClock(parts, vendorKey) == Some(n) <==>
            exists i :: 0 <= i < |parts| && CarriesClock(parts[i], vendorKey, n) && forall j :: 0 <= j < i ==> NoClock(parts[j], vendorKey)
    ensures FirstClock(parts, vendorKey) == None <==> forall j :: 0 <= j < |parts| ==> NoClock(parts[j], vendorKey)
  {
    hide Classify, EntryClock, CarriesClock;
    if parts != [] {
      var front, last := parts[..|parts| - 1], parts[|parts| - 1];
      FirstClockIff(front, vendorKey, n);
      forall m ensures EntryClock(Classify(last, vendorKey)) == Some(m) <==> CarriesClock(last, vendorKey, m) {
        EntryClockIff(last, vendorKey, m);
      }
      assert parts == front + [last];
      FirstOf(front, last, vendorKey, n);
    }
  }

  /** Where the first clock stands when a part is added. */
  lemma FirstOf(front: seq<string>, last: string, vendorKey: string, n: int)
    requires FirstClock(front, vendorKey) == Some(n) <==>
             exists i :: 0 <= i < |front| && CarriesClock(front[i], vendorKey, n) && forall j :: 0 <= j < i ==> NoClock(front[j], vendorKey)
    requires FirstClock(front, vendorKey) == None <==> forall j :: 0 <= j < |front| ==> NoClock(front[j], vendorKey)
    requires forall m :: EntryClock(Classify(last, vendorKey)) == Some(m) <==> CarriesClock(last, vendorKey, m)
    ensures var parts := front + [last];
            && (FirstClock(parts, vendorKey) == Some(n) <==>
                  exists i :: 0 <= i < |parts| && CarriesClock(parts[i], vendorKey, n) && forall j :: 0 <= j < i ==> NoClock(parts[j], vendorKey))
            && (FirstClock(parts, vendorKey) == None <==> forall j :: 0 <= j < |parts| ==> NoClock(parts[j], vendorKey))
  {
    hide Classify, EntryClock, CarriesClock;
    var parts := front + [last];
    assert parts[..|front|] == front;
    assert forall j :: 0 <= j < |front| ==> parts[j] == front[j];
    var e := EntryClock(Classify(last, vendorKey));
    if e.Some? {
      assert CarriesClock(last, vendorKey, e.value);
    }
    assert NoClock(last, vendorKey) <==> e == None;
    if FirstClock(parts, vendorKey) == Some(n) {
      if FirstClock(front, vendorKey).None? {
        assert CarriesClock(parts[|front|], vendorKey, n);
      } else {
        var i :| 0 <= i < |front| && CarriesClock(front[i], vendorKey, n) && forall j :: 0 <= j < i ==> NoClock(front[j], vendorKey);
        assert CarriesClock(parts[i], vendorKey, n);
      }
    }
  }

  /** What parse makes of a header, part by part: no foreign member is lost, and the first clock of ours is read. */
  lemma ParseExactly(parts: seq<string>, vendorKey: string, n: int)
    requires parts != [] && Join(parts, ',') != "" && forall k :: 0 <= k < |parts| ==> ',' !in parts[k]
    ensures var p := Parse(Some(Join(parts, ',')), vendorKey);
            && p.inheritedEntries == OtherMembers(parts, vendorKey)
            && (p.receivedSeq == Some(n) <==>
                  exists i :: 0 <= i < |parts| && CarriesClock(parts[i], vendorKey, n) && forall j :: 0 <= j < i ==> NoClock(parts[j], vendorKey))
            && (p.receivedSeq == None <==> forall j :: 0 <= j < |parts| ==> NoClock(parts[j], vendorKey))
  {
    hide FirstClock, ForeignEntries, OtherMembers, CarriesClock, NoClock, Split, Join;
    SplitJoin(parts, ',');
    ForeignAreOthers(parts, vendorKey);
    FirstClockIff(parts, vendorKey, n);
  }
}
