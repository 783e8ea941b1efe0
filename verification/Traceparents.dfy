/** The traceparent header (section 3.2 of W3C Trace Context). */
module Traceparents {
  import opened Wrappers
  import opened Strings

  datatype Traceparent = Traceparent(traceId: string, parentSpanId: string, traceFlags: int)

  predicate IsHex(c: char) {
    IsDigit(c) || 'a' <= c <= 'f'
  }

  predicate IsHexString(s: string, length: nat) {
    |s| == length && forall k :: 0 <= k < |s| ==> IsHex(s[k])
  }

  predicate AllZero(s: string) {
    forall k :: 0 <= k < |s| ==> s[k] == '0'
  }

  /** A usable id: lowercase hex of the right length, not the all-zero sentinel. */
  predicate ValidId(s: string, length: nat) {
    IsHexString(s, length) && !AllZero(s)
  }

  function HexValue(c: char): int
    requires IsHex(c)
  {
    if IsDigit(c) then c as int - '0' as int else c as int - 'a' as int + 10
  }

  function HexChar(d: int): char
    requires 0 <= d < 16
  {
    if d < 10 then ('0' as int + d) as char else ('a' as int + d - 10) as char
  }

  function HexByte(n: int): string
    requires 0 <= n < 256
  {
    [HexChar(n / 16), HexChar(n % 16)]
  }

  function ParseHexByte(s: string): int
    requires IsHexString(s, 2)
  {
    16 * HexValue(s[0]) + HexValue(s[1])
  }

  function Parse(header: Option<string>): Option<Traceparent> {
    if header.None? || header.value == [] then None
    else
      var parts := Split(header.value, '-');
      if |parts| < 4 then None
      else if !IsHexString(parts[0], 2) || parts[0] == "ff" then None
      else if parts[0] == "00" && |parts| != 4 then None
      else if !IsHexString(parts[1], 32) || AllZero(parts[1]) then None
      else if !IsHexString(parts[2], 16) || AllZero(parts[2]) then None
      else if !IsHexString(parts[3], 2) then None
      else Some(Traceparent(parts[1], parts[2], ParseHexByte(parts[3])))
  }

  function Format(t: Traceparent): string {
    "00" + ['-'] + (t.traceId + ['-'] + (t.parentSpanId + ['-'] + HexByte(t.traceFlags % 256)))
  }

  lemma FormatIsJoin(a: string, b: string, c: string, d: string)
    ensures Join([a, b, c, d], '-') == a + ['-'] + (b + ['-'] + (c + ['-'] + d))
  {
    assert [a, b, c, d][1..] == [b, c, d] && [b, c, d][1..] == [c, d] && [c, d][1..] == [d];
    assert Join([d], '-') == d;
    assert Join([c, d], '-') == c + ['-'] + d;
    assert Join([b, c, d], '-') == b + ['-'] + (c + ['-'] + d);
  }

  lemma HexNoDash(s: string, length: nat)
    requires IsHexString(s, length)
    ensures '-' !in s
  {
  }

  lemma HexByteRoundTrip(n: int)
    requires 0 <= n < 256
    ensures IsHexString(HexByte(n), 2) && ParseHexByte(HexByte(n)) == n
  {
  }

  lemma ParseHexByteRoundTrip(s: string)
    requires IsHexString(s, 2)
    ensures 0 <= ParseHexByte(s) < 256 && HexByte(ParseHexByte(s)) == s
  {
    var hi, lo := HexValue(s[0]), HexValue(s[1]);
    assert 0 <= hi < 16 && 0 <= lo < 16;
    assert (16 * hi + lo) / 16 == hi && (16 * hi + lo) % 16 == lo;
  }

  /** What is sent is what is received: the ids, and the low byte of the flags. */
  lemma FormatThenParse(t: Traceparent)
    requires ValidId(t.traceId, 32) && ValidId(t.parentSpanId, 16)
    ensures Parse(Some(Format(t))) == Some(t.(traceFlags := t.traceFlags % 256))
  {
    var flags := HexByte(t.traceFlags % 256);
    HexByteRoundTrip(t.traceFlags % 256);
    FormatIsJoin("00", t.traceId, t.parentSpanId, flags);
    HexNoDash(t.traceId, 32);
    HexNoDash(t.parentSpanId, 16);
    HexNoDash(flags, 2);
    var parts := ["00", t.traceId, t.parentSpanId, flags];
    SplitJoin(parts, '-');
  }

  /** A version 00 header is accepted exactly when it is the rendering of valid ids and a flag byte. */
  lemma Version00Exact(header: string)
    requires |header| >= 2 && header[..2] == "00"
    ensures Parse(Some(header)).Some?
            <==> exists t: Traceparent :: ValidId(t.traceId, 32) && ValidId(t.parentSpanId, 16) && header == Format(t)
    ensures Parse(Some(header)).Some? ==>
              var t := Parse(Some(header)).value;
              ValidId(t.traceId, 32) && ValidId(t.parentSpanId, 16) && 0 <= t.traceFlags < 256 && header == Format(t)
  {
    if Parse(Some(header)).Some? {
      AcceptedIsRendered(header);
    }
    forall t: Traceparent | ValidId(t.traceId, 32) && ValidId(t.parentSpanId, 16) && header == Format(t)
      ensures Parse(Some(header)).Some?
    {
      FormatThenParse(t);
    }
  }

  lemma AcceptedIsRendered(header: string)
    requires |header| >= 2 && header[..2] == "00" && Parse(Some(header)).Some?
    ensures var t := Parse(Some(header)).value;
            ValidId(t.traceId, 32) && ValidId(t.parentSpanId, 16) && 0 <= t.traceFlags < 256 && header == Format(t)
  {
    hide Split, Join, HexByte, ParseHexByte, AllZero, IsHex;
    var parts := Split(header, '-');
    JoinSplit(header, '-');
    JoinCons(parts[0], parts[1..], '-');
    assert parts == [parts[0]] + parts[1..];
    assert header[..2] == parts[0];
    assert parts == ["00", parts[1], parts[2], parts[3]];
    FormatIsJoin("00", parts[1], parts[2], parts[3]);
    ParseHexByteRoundTrip(parts[3]);
  }

  // ---------------------------------------------------------------- any version

  /** The header is these fields after a version; only a later version may have more to say. */
  predicate IsRendering(header: string, version: string, t: Traceparent, rest: string) {
    && IsHexString(version, 2) && version != "ff" && 0 <= t.traceFlags < 256
    && (rest == "" || (version != "00" && rest[0] == '-'))
    && header == version + ['-'] + (t.traceId + ['-'] + (t.parentSpanId + ['-'] + (HexByte(t.traceFlags) + rest)))
  }

  lemma FormatIsRendering(t: Traceparent)
    requires 0 <= t.traceFlags < 256
    ensures IsRendering(Format(t), "00", t, "")
  {
    hide HexByte;
    var flags := HexByte(t.traceFlags);
    assert flags + "" == flags;
    assert IsHexString("00", 2) && "00"[0] != "ff"[0];
  }

  /** Every such header with valid ids is accepted, and read as those fields. */
  lemma RenderingParses(header: string, version: string, t: Traceparent, rest: string)
    requires ValidId(t.traceId, 32) && ValidId(t.parentSpanId, 16) && IsRendering(header, version, t, rest)
    ensures Parse(Some(header)) == Some(t) && 0 <= t.traceFlags < 256
  {
    hide Split, HexByte, ParseHexByte, IsHex;
    var flags := HexByte(t.traceFlags);
    HexByteRoundTrip(t.traceFlags);
    HexNoDash(version, 2);
    HexNoDash(t.traceId, 32);
    HexNoDash(t.parentSpanId, 16);
    HexNoDash(flags, 2);
    SplitAfter(version, t.traceId + ['-'] + (t.parentSpanId + ['-'] + (flags + rest)), '-');
    SplitAfter(t.traceId, t.parentSpanId + ['-'] + (flags + rest), '-');
    SplitAfter(t.parentSpanId, flags + rest, '-');
    if rest == "" {
      assert flags + rest == flags;
      SplitNone(flags, '-');
    } else {
      assert flags + rest == flags + ['-'] + rest[1..];
      SplitAfter(flags, rest[1..], '-');
    }
    var parts := Split(header, '-');
    assert parts == [version] + ([t.traceId] + ([t.parentSpanId] + Split(flags + rest, '-')));
    assert parts[0] == version && parts[1] == t.traceId && parts[2] == t.parentSpanId && parts[3] == flags;
  }

  /** Nothing else is. */
  lemma ParsedIsRendering(header: Option<string>) returns (t: Traceparent, version: string, rest: string)
    requires Parse(header).Some?
    ensures header.Some? && Parse(header) == Some(t) && ValidId(t.traceId, 32) && ValidId(t.parentSpanId, 16)
    ensures IsRendering(header.value, version, t, rest)
  {
    hide Split, HexByte, ParseHexByte, AllZero, IsHex, Join;
    var parts := Split(header.value, '-');
    t, version := Parse(header).value, parts[0];
    ParseHexByteRoundTrip(parts[3]);
    JoinSplit(header.value, '-');
    assert parts == [parts[0]] + ([parts[1]] + ([parts[2]] + parts[3..]));
    JoinCons(parts[0], [parts[1]] + ([parts[2]] + parts[3..]), '-');
    JoinCons(parts[1], [parts[2]] + parts[3..], '-');
    JoinCons(parts[2], parts[3..], '-');
    if |parts| == 4 {
      rest := "";
      assert parts[3..] == [parts[3]];
      JoinOne(parts[3], '-');
      assert parts[3] + rest == parts[3];
    } else {
      rest := ['-'] + Join(parts[4..], '-');
      assert parts[3..] == [parts[3]] + parts[4..];
      JoinCons(parts[3], parts[4..], '-');
      assert parts[3] + ['-'] + Join(parts[4..], '-') == parts[3] + rest;
    }
  }
}
