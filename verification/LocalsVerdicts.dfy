/**
  Which of several matching entries is handed out, said of the entries, their ages and their
  frames.  Frames are compared as one text with | between fields; the laws say when that is the
  same as comparing the fields.
*/
module LocalsVerdicts {
  import opened Wrappers
  import opened LocalsCaches
  import opened LocalsLookups
  import Strings

  // ---------------------------------------------------------------- frames as text

  /** Two entries with the same frames, field by field. */
  predicate SameFrames(a: Entry, b: Entry) {
    && |a.frames.list| == |b.frames.list|
    && forall i :: 0 <= i < |a.frames.list| ==> SameFrame(a.frames.list[i], b.frames.list[i])
  }

  predicate SameFrame(f: Frame, g: Frame) {
    f.functionName == g.functionName && f.filePath == g.filePath && f.lineNumber == g.lineNumber && f.columnNumber == g.columnNumber
  }

  /** No name in these frames contains the separator. */
  predicate BarFree(frames: seq<Frame>) {
    forall i :: 0 <= i < |frames| ==> '|' !in frames[i].functionName && '|' !in frames[i].filePath
  }

  lemma CutAt(u: string, x: string, v: string, y: string, sep: char)
    requires u + [sep] + x == v + [sep] + y && sep !in u && sep !in v
    ensures u == v && x == y
  {
    var s, t := u + [sep] + x, v + [sep] + y;
    Strings.IndexOfFirst(s, sep, |u|);
    Strings.IndexOfFirst(t, sep, |v|);
    assert s[..|u|] == u && t[..|v|] == v && s[|u| + 1..] == x && t[|v| + 1..] == y;
  }

  lemma DigitsOnly(n: nat, c: char)
    requires c == '|' || c == '\n'
    ensures c !in Strings.Decimal(n)
  {
    hide Strings.Decimal;
  }

  lemma SameDecimal(m: nat, n: nat)
    requires Strings.Decimal(m) == Strings.Decimal(n)
    ensures m == n
  {
    Strings.DecimalRoundTrip(m);
    Strings.DecimalRoundTrip(n);
  }

  /** The text after the first frame's column. */
  function Rest(frames: seq<Frame>): string
    requires frames != []
  {
    if |frames| == 1 then "" else "\n" + ListText(frames[1..])
  }

  lemma ListTextStarts(frames: seq<Frame>)
    requires frames != []
    ensures var f := frames[0];
            ListText(frames) == f.functionName + ['|'] + (f.filePath + ['|'] +
                                  (Strings.Decimal(f.lineNumber) + ['|'] + (Strings.Decimal(f.columnNumber) + Rest(frames))))
  {
    hide Strings.Decimal;
    var texts := seq(|frames|, i requires 0 <= i < |frames| => FrameText(frames[i]));
    var more := frames[1..];
    var moreTexts := seq(|more|, i requires 0 <= i < |more| => FrameText(more[i]));
    assert texts == [FrameText(frames[0])] + moreTexts;
    if |frames| == 1 {
      assert texts == [FrameText(frames[0])];
      Strings.JoinOne(FrameText(frames[0]), '\n');
    } else {
      Strings.JoinCons(FrameText(frames[0]), moreTexts, '\n');
    }
  }

  /** Texts of frames without the separator in their names tell the frames apart. */
  lemma {:induction false} TextTellsFrames(a: seq<Frame>, b: seq<Frame>)
    requires BarFree(a) && BarFree(b) && ListText(a) == ListText(b)
    ensures a == b
    decreases |a|
  {
    hide Strings.Decimal, ListText;
    if a == [] || b == [] {
      if a != [] { ListTextStarts(a); }
      if b != [] { ListTextStarts(b); }
      EmptyText();
    } else {
      ListTextStarts(a);
      ListTextStarts(b);
      var f, g := a[0], b[0];
      HeadsEqual(f, Rest(a), g, Rest(b));
      if Rest(a) != [] {
        assert Rest(a)[1..] == ListText(a[1..]) && Rest(b)[1..] == ListText(b[1..]);
        TextTellsFrames(a[1..], b[1..]);
      }
      assert a == [a[0]] + a[1..] && b == [b[0]] + b[1..];
    }
  }

  lemma EmptyText()
    ensures ListText([]) == ""
  {
  }

  lemma HeadsEqual(f: Frame, restF: string, g: Frame, restG: string)
    requires '|' !in f.functionName && '|' !in f.filePath && '|' !in g.functionName && '|' !in g.filePath
    requires restF == [] || restF[0] == '\n'
    requires restG == [] || restG[0] == '\n'
    requires f.functionName + ['|'] + (f.filePath + ['|'] + (Strings.Decimal(f.lineNumber) + ['|'] + (Strings.Decimal(f.columnNumber) + restF)))
             == g.functionName + ['|'] + (g.filePath + ['|'] + (Strings.Decimal(g.lineNumber) + ['|'] + (Strings.Decimal(g.columnNumber) + restG)))
    ensures f == g && restF == restG
  {
    hide Strings.Decimal;
    var fl, fc, gl, gc := Strings.Decimal(f.lineNumber), Strings.Decimal(f.columnNumber), Strings.Decimal(g.lineNumber), Strings.Decimal(g.columnNumber);
    CutAt(f.functionName, f.filePath + ['|'] + (fl + ['|'] + (fc + restF)), g.functionName, g.filePath + ['|'] + (gl + ['|'] + (gc + restG)), '|');
    CutAt(f.filePath, fl + ['|'] + (fc + restF), g.filePath, gl + ['|'] + (gc + restG), '|');
    DigitsOnly(f.lineNumber, '|');
    DigitsOnly(g.lineNumber, '|');
    CutAt(fl, fc + restF, gl, gc + restG, '|');
    SameDecimal(f.lineNumber, g.lineNumber);
    DigitsOnly(f.columnNumber, '\n');
    DigitsOnly(g.columnNumber, '\n');
    ColumnEnds(fc, restF, gc, restG);
    SameDecimal(f.columnNumber, g.columnNumber);
  }

  lemma ColumnEnds(c: string, rest: string, d: string, more: string)
    requires '\n' !in c && '\n' !in d && (rest == [] || rest[0] == '\n') && (more == [] || more[0] == '\n')
    requires c + rest == d + more
    ensures c == d && rest == more
  {
    Strings.IndexOfFirst(c + rest, '\n', |c|);
    Strings.IndexOfFirst(d + more, '\n', |d|);
    assert (c + rest)[..|c|] == c && (d + more)[..|d|] == d;
    assert (c + rest)[|c|..] == rest && (d + more)[|d|..] == more;
  }

  /** The code's comparison is that of the frames when no name contains the separator. */
  lemma SignatureIff(a: Entry, b: Entry)
    ensures SameFrames(a, b) ==> Signature(a) == Signature(b)
    ensures BarFree(a.frames.list) && BarFree(b.frames.list) ==> (Signature(a) == Signature(b) <==> SameFrames(a, b))
  {
    hide ListText;
    if SameFrames(a, b) {
      assert a.frames.list == b.frames.list;
    }
    if BarFree(a.frames.list) && BarFree(b.frames.list) && Signature(a) == Signature(b) {
      TextTellsFrames(a.frames.list, b.frames.list);
    }
  }

  /** Different frames that read the same. */
  predicate Mistaken(a: Entry, b: Entry) {
    Signature(a) == Signature(b) && !SameFrames(a, b)
  }

  predicate NoneMistaken(entries: seq<Entry>) {
    forall i, j :: 0 <= i < |entries| && 0 <= j < |entries| ==> !Mistaken(entries[i], entries[j])
  }

  lemma BarFreeNotMistaken(entries: seq<Entry>)
    requires forall i :: 0 <= i < |entries| ==> BarFree(entries[i].frames.list)
    ensures NoneMistaken(entries)
  {
    hide BarFree, Signature, SameFrames;
    forall i, j | 0 <= i < |entries| && 0 <= j < |entries| ensures !Mistaken(entries[i], entries[j]) {
      SignatureIff(entries[i], entries[j]);
    }
  }

  // ---------------------------------------------------------------- choosing by age

  ghost predicate OnlyRecentAt(matches: seq<Entry>, i: nat, now: int) {
    i < |matches| && IsRecent(matches[i], now) && forall k :: 0 <= k < |matches| && k != i ==> !IsRecent(matches[k], now)
  }

  ghost predicate NewestRecentAt(matches: seq<Entry>, i: nat, now: int) {
    i < |matches| && IsRecent(matches[i], now) && forall k :: i < k < |matches| ==> !IsRecent(matches[k], now)
  }

  ghost predicate SomeRecent(matches: seq<Entry>, now: int) {
    exists i :: 0 <= i < |matches| && IsRecent(matches[i], now)
  }

  /** The recent matches have the same frames, each pair of them. */
  ghost predicate RecentAgree(matches: seq<Entry>, now: int) {
    forall i, j :: 0 <= i < |matches| && 0 <= j < |matches| && IsRecent(matches[i], now) && IsRecent(matches[j], now) ==>
      SameFrames(matches[i], matches[j])
  }

  lemma {:induction false} RecentNoneIff(matches: seq<Entry>, now: int)
    ensures Recent(matches, now) == [] <==> !SomeRecent(matches, now)
  {
    if matches != [] {
      var n := |matches| - 1;
      RecentNoneIff(matches[..n], now);
      if SomeRecent(matches, now) && !IsRecent(matches[n], now) {
        var i :| 0 <= i < |matches| && IsRecent(matches[i], now);
        assert matches[..n][i] == matches[i];
      }
      if SomeRecent(matches[..n], now) {
        var i :| 0 <= i < n && IsRecent(matches[..n][i], now);
        assert IsRecent(matches[i], now);
      }
    }
  }

  lemma {:induction false} RecentLast(matches: seq<Entry>, now: int) returns (i: nat)
    requires Recent(matches, now) != []
    ensures NewestRecentAt(matches, i, now) && Last(Recent(matches, now)) == Some(matches[i])
  {
    var n := |matches| - 1;
    if IsRecent(matches[n], now) {
      i := n;
    } else {
      i := RecentLast(matches[..n], now);
      assert forall k :: i < k < n ==> matches[k] == matches[..n][k];
    }
  }

  lemma {:induction false} OneRecent(matches: seq<Entry>, now: int) returns (i: nat)
    requires |Recent(matches, now)| == 1
    ensures OnlyRecentAt(matches, i, now)
  {
    var n := |matches| - 1;
    var front := matches[..n];
    RecentNoneIff(front, now);
    if IsRecent(matches[n], now) {
      i := n;
      forall k | 0 <= k < n ensures !IsRecent(matches[k], now) { assert front[k] == matches[k]; }
    } else {
      i := OneRecent(front, now);
      forall k | 0 <= k < n && k != i ensures !IsRecent(matches[k], now) { assert front[k] == matches[k]; }
    }
  }

  lemma {:induction false} OnlyOneRecent(matches: seq<Entry>, i: nat, now: int)
    requires OnlyRecentAt(matches, i, now)
    ensures Recent(matches, now) == [matches[i]]
  {
    hide IsRecent;
    var n := |matches| - 1;
    var front := matches[..n];
    RecentSnoc(matches, now);
    forall k | 0 <= k < n && k != i ensures !IsRecent(front[k], now) { assert front[k] == matches[k]; }
    hide Recent;
    if i < n {
      OnlyOneRecent(front, i, now);
      assert !IsRecent(matches[n], now);
    } else {
      RecentNoneIff(front, now);
    }
  }

  lemma RecentSnoc(matches: seq<Entry>, now: int)
    requires matches != []
    ensures var n := |matches| - 1;
            Recent(matches, now) == Recent(matches[..n], now) + if IsRecent(matches[n], now) then [matches[n]] else []
  {
  }

  lemma RecentOneIff(matches: seq<Entry>, now: int)
    ensures |Recent(matches, now)| == 1 <==> exists i: nat :: OnlyRecentAt(matches, i, now)
    ensures forall i: nat :: OnlyRecentAt(matches, i, now) ==> Recent(matches, now) == [matches[i]]
  {
    hide Recent, OnlyRecentAt;
    if |Recent(matches, now)| == 1 {
      var i := OneRecent(matches, now);
    }
    forall i: nat | OnlyRecentAt(matches, i, now) ensures i < |matches| && Recent(matches, now) == [matches[i]] {
      IndexIn(matches, i, now);
      OnlyOneRecent(matches, i, now);
    }
  }

  lemma IndexIn(matches: seq<Entry>, i: nat, now: int)
    requires OnlyRecentAt(matches, i, now)
    ensures i < |matches|
  {
  }

  lemma RecentSameIff(matches: seq<Entry>, now: int)
    requires NoneMistaken(matches)
    ensures AllSame(Recent(matches, now)) <==> RecentAgree(matches, now)
  {
    hide Recent, Signature, SameFrames;
    var s := Recent(matches, now);
    forall e ensures e in s <==> e in matches && IsRecent(e, now) {
      RecentMember(matches, now, e);
    }
    forall a, b | a in matches && b in matches ensures Signature(a) == Signature(b) <==> SameFrames(a, b) {
      SignatureIff(a, b);
      var i :| 0 <= i < |matches| && matches[i] == a;
      var j :| 0 <= j < |matches| && matches[j] == b;
      assert !Mistaken(matches[i], matches[j]);
    }
    if AllSame(s) {
      forall i, j | 0 <= i < |matches| && 0 <= j < |matches| && IsRecent(matches[i], now) && IsRecent(matches[j], now)
        ensures SameFrames(matches[i], matches[j])
      {
        var k :| 0 <= k < |s| && s[k] == matches[i];
        var m :| 0 <= m < |s| && s[m] == matches[j];
      }
    }
    if RecentAgree(matches, now) {
      forall i | 0 <= i < |s| ensures Signature(s[i]) == Signature(s[0]) {
        assert s[i] in s && s[0] in s;
        var k :| 0 <= k < |matches| && matches[k] == s[i];
        var m :| 0 <= m < |matches| && matches[m] == s[0];
      }
    }
  }

  // ---------------------------------------------------------------- the verdicts

  /** r hands out the newest of the matches recent at this time. */
  ghost predicate GivesNewest(r: Outcome, matches: seq<Entry>, grade: Label, now: int) {
    exists i: nat :: NewestRecentAt(matches, i, now) && r == Found(matches[i], grade)
  }

  ghost predicate GivesOnlyRecent(r: Outcome, matches: seq<Entry>, grade: Label, now: int) {
    exists i: nat :: OnlyRecentAt(matches, i, now) && r == Found(matches[i], grade)
  }

  ghost predicate HasOnlyRecent(matches: seq<Entry>, now: int) {
    exists i: nat :: OnlyRecentAt(matches, i, now)
  }

  /** The newest of recent matches that agree, else a refusal. */
  ghost predicate GivesIfAgreed(r: Outcome, matches: seq<Entry>, grade: Label, now: int) {
    if SomeRecent(matches, now) && RecentAgree(matches, now) then GivesNewest(r, matches, grade, now) else r == AmbiguousCorrelation
  }

  /** Across requests: the only match, the only recent one, the newest of recent ones that agree; else a refusal. */
  ghost predicate ForeignVerdict(r: Outcome, matches: seq<Entry>, t0: int, t1: int) {
    if |matches| == 1 then r == Found(matches[0], DroppedRequest)
    else if HasOnlyRecent(matches, t0) then GivesOnlyRecent(r, matches, DroppedRequest, t0)
    else GivesIfAgreed(r, matches, DroppedRequest, t1)
  }

  /** Inside the request: the only match, the newest recent one; else a refusal. */
  ghost predicate OwnVerdict(r: Outcome, matches: seq<Entry>, grade: Label, t0: int, t1: int) {
    if |matches| == 1 then r == Found(matches[0], grade)
    else if SomeRecent(matches, t0) && RecentAgree(matches, t0) then GivesNewest(r, matches, grade, t0)
    else if SomeRecent(matches, t1) then GivesNewest(r, matches, grade, t1)
    else r == AmbiguousCorrelation
  }

  /** Among the recent entries of other requests that look similar: the only one, the newest of those that agree; else a refusal. */
  ghost predicate SimilarVerdict(r: Outcome, matches: seq<Entry>, now: int) {
    if |matches| == 1 then r == Found(matches[0], DroppedRequest) else GivesIfAgreed(r, matches, DroppedRequest, now)
  }

  lemma NewestEquivalentIs(matches: seq<Entry>, now: int)
    requires NoneMistaken(matches)
    ensures NewestEquivalent(matches, now).Some? <==> SomeRecent(matches, now) && RecentAgree(matches, now)
    ensures NewestEquivalent(matches, now).Some? ==>
              exists i: nat :: NewestRecentAt(matches, i, now) && NewestEquivalent(matches, now) == Some(matches[i])
  {
    hide Recent, RecentAgree, SomeRecent, AllSame;
    RecentNoneIff(matches, now);
    RecentSameIff(matches, now);
    if Recent(matches, now) != [] {
      var i := RecentLast(matches, now);
    }
  }

  lemma NewestRecentIs(matches: seq<Entry>, now: int)
    ensures NewestRecent(matches, now).Some? <==> SomeRecent(matches, now)
    ensures NewestRecent(matches, now).Some? ==>
              exists i: nat :: NewestRecentAt(matches, i, now) && NewestRecent(matches, now) == Some(matches[i])
  {
    hide Recent, SomeRecent;
    RecentNoneIff(matches, now);
    if Recent(matches, now) != [] {
      var i := RecentLast(matches, now);
    }
  }

  lemma SingleRecentIs(matches: seq<Entry>, now: int)
    requires |matches| != 1
    ensures SingleRecent(matches, now).Some? <==> HasOnlyRecent(matches, now)
    ensures forall i: nat :: OnlyRecentAt(matches, i, now) ==> SingleRecent(matches, now) == Some(matches[i])
  {
    hide Recent;
    RecentOneIff(matches, now);
  }

  lemma ForeignDecides(matches: seq<Entry>, t0: int, t1: int)
    requires matches != [] && NoneMistaken(matches)
    ensures ForeignStep(matches, t0, t1).Some? && ForeignVerdict(ForeignStep(matches, t0, t1).value, matches, t0, t1)
  {
    hide NewestEquivalent, RecentAgree, SomeRecent;
    if |matches| > 1 {
      SingleRecentIs(matches, t0);
      NewestEquivalentIs(matches, t1);
    }
  }

  lemma OwnDecides(matches: seq<Entry>, grade: Label, t0: int, t1: int)
    requires matches != [] && NoneMistaken(matches)
    ensures OwnStep(matches, grade, t0, t1).Some? && OwnVerdict(OwnStep(matches, grade, t0, t1).value, matches, grade, t0, t1)
  {
    hide NewestEquivalent, NewestRecent, RecentAgree, SomeRecent;
    NewestEquivalentIs(matches, t0);
    NewestRecentIs(matches, t1);
  }

  /** What the closest tier with a match answers is the answer. */
  lemma {:induction false} ClosestAnswers(j: nat, k: nat, entries: seq<Entry>, q: Query, now: nat -> int, normalize: string -> string)
    requires j <= k < 7 && NothingBefore(k, entries, q, now, normalize) && StepAt(k, entries, q, now, normalize).Some?
    ensures Cascade(j, entries, q, now, normalize) == StepAt(k, entries, q, now, normalize)
    decreases k - j
  {
    hide Select, StepAt, TierAt;
    if j < k {
      StepAnswers(j, entries, q, now, normalize);
      NothingSelected(j, k, entries, q, now, normalize);
      ClosestAnswers(j + 1, k, entries, q, now, normalize);
    }
  }

  lemma NothingSelected(j: nat, k: nat, entries: seq<Entry>, q: Query, now: nat -> int, normalize: string -> string)
    requires j < k < 7 && NothingBefore(k, entries, q, now, normalize)
    ensures StepAt(j, entries, q, now, normalize).None?
  {
    hide Select, Matches, AllSame;
    assert Select(entries, q, TierAt(j, now, normalize)) == [];
    NoMatchesNoAnswer(now(0), now(1));
  }

  lemma NoMatchesNoAnswer(t0: int, t1: int)
    ensures forall t :: Recent([], t) == []
  {
  }

  /**
    The answer of a lookup inside a request, from the matches of the closest tier that has any: said
    of the entries, their ages and their frames.  No two entries with different frames read the same.
  */
  lemma ClosestTierVerdict(k: nat, entries: seq<Entry>, q: Query, now: nat -> int, normalize: string -> string)
    requires q.requestId.Some? && 0 < k < 7 && NothingBefore(k, entries, q, now, normalize)
    requires Select(entries, q, TierAt(k, now, normalize)) != []
    requires NoneMistaken(entries)
    ensures var r, matches := Layer2(entries, q, now, normalize), Select(entries, q, TierAt(k, now, normalize));
            && (k == 1 ==> OwnVerdict(r, matches, DroppedHash, now(0), now(1)))
            && (k == 2 ==> OwnVerdict(r, matches, DroppedCount, now(2), now(3)))
            && (3 <= k <= 5 ==> ForeignVerdict(r, matches, now(2 * k - 2), now(2 * k - 1)))
            && (k == 6 ==> SimilarVerdict(r, matches, now(11)))
  {
    hide Select, TierAt, OwnStep, ForeignStep, OwnVerdict, ForeignVerdict, Cascade, Matches, Mistaken, NewestEquivalent, Diagnosis;
    var matches := Select(entries, q, TierAt(k, now, normalize));
    forall i, j | 0 <= i < |matches| && 0 <= j < |matches| ensures !Mistaken(matches[i], matches[j]) {
      SelectMember(entries, q, TierAt(k, now, normalize), matches[i]);
      SelectMember(entries, q, TierAt(k, now, normalize), matches[j]);
    }
    match k {
      case 1 => OwnDecides(matches, DroppedHash, now(0), now(1));
      case 2 => OwnDecides(matches, DroppedCount, now(2), now(3));
      case 3 => ForeignDecides(matches, now(4), now(5));
      case 4 => ForeignDecides(matches, now(6), now(7));
      case 5 => ForeignDecides(matches, now(8), now(9));
      case _ => NewestEquivalentIs(matches, now(11));
    }
    ClosestAnswers(0, k, entries, q, now, normalize);
  }

  /**
    Inside the request, with entries in the order they were captured and a clock that does not go
    back: among several matches the newest is handed out if any is recent.
  */
  lemma OwnNewest(matches: seq<Entry>, grade: Label, t0: int, t1: int)
    requires |matches| > 1 && t0 <= t1 && SomeRecent(matches, t1)
    requires forall i :: 0 <= i < |matches| ==> matches[i].createdAt <= t0
    requires forall i, j :: 0 <= i < j < |matches| ==> matches[i].createdAt <= matches[j].createdAt
    ensures OwnStep(matches, grade, t0, t1) == Some(Found(matches[|matches| - 1], grade))
  {
    hide Recent, AllSame;
    var n := |matches| - 1;
    var i :| 0 <= i < |matches| && IsRecent(matches[i], t1);
    assert IsRecent(matches[n], t1) && IsRecent(matches[n], t0);
    RecentNoneIff(matches, t0);
    RecentNoneIff(matches, t1);
    var a := RecentLast(matches, t0);
    var b := RecentLast(matches, t1);
    assert a == n && b == n;
  }

  // ---------------------------------------------------------------- when text does not tell

  function Bars(s: string): nat {
    if s == "" then 0 else Bars(s[..|s| - 1]) + if s[|s| - 1] == '|' then 1 else 0
  }

  lemma {:induction false} BarsConcat(s: string, t: string)
    ensures Bars(s + t) == Bars(s) + Bars(t)
  {
    if t == "" {
      assert s + t == s;
    } else {
      assert (s + t)[..|s + t| - 1] == s + t[..|t| - 1];
      BarsConcat(s, t[..|t| - 1]);
    }
  }

  lemma {:induction false} NoBars(s: string)
    ensures Bars(s) == 0 <==> '|' !in s
  {
    if s != "" {
      NoBars(s[..|s| - 1]);
      assert s == s[..|s| - 1] + [s[|s| - 1]];
    }
  }

  /** The separators in the names of the frames. */
  function NameBars(frames: seq<Frame>): nat {
    if frames == [] then 0 else Bars(frames[0].functionName) + Bars(frames[0].filePath) + NameBars(frames[1..])
  }

  lemma {:induction false} NameBarsNone(frames: seq<Frame>)
    ensures NameBars(frames) == 0 <==> BarFree(frames)
  {
    if frames != [] {
      NoBars(frames[0].functionName);
      NoBars(frames[0].filePath);
      NameBarsNone(frames[1..]);
      assert frames == [frames[0]] + frames[1..];
      if BarFree(frames[1..]) && NameBars(frames) == 0 {
        assert BarFree([frames[0]] + frames[1..]);
      }
    }
  }

  /** The text of n frames has three separators for each and those in the names. */
  lemma {:induction false} TextBars(frames: seq<Frame>)
    ensures Bars(ListText(frames)) == 3 * |frames| + NameBars(frames)
    decreases |frames|
  {
    hide Strings.Decimal, ListText, Bars;
    if frames == [] {
      EmptyText();
      NoBars("");
    } else {
      var f := frames[0];
      var line, column := Strings.Decimal(f.lineNumber), Strings.Decimal(f.columnNumber);
      ListTextStarts(frames);
      DigitsOnly(f.lineNumber, '|');
      DigitsOnly(f.columnNumber, '|');
      NoBars(line);
      NoBars(column);
      OneBar();
      BarsConcat(column, Rest(frames));
      BarsConcat(['|'], column + Rest(frames));
      ThreeParts(line, column + Rest(frames));
      ThreeParts(f.filePath, line + ['|'] + (column + Rest(frames)));
      ThreeParts(f.functionName, f.filePath + ['|'] + (line + ['|'] + (column + Rest(frames))));
      if |frames| == 1 {
        NoBars("");
      } else {
        TextBars(frames[1..]);
        BarsConcat("\n", ListText(frames[1..]));
        NoBars("\n");
      }
    }
  }

  lemma OneBar()
    ensures Bars(['|']) == 1
  {
    assert ['|'][..0] == "";
  }

  lemma ThreeParts(s: string, t: string)
    ensures Bars(s + ['|'] + t) == Bars(s) + 1 + Bars(t)
  {
    hide Bars;
    OneBar();
    BarsConcat(s + ['|'], t);
    BarsConcat(s, ['|']);
  }

  /** A frame with the separator in a name, and another of the same text. */
  lemma Shifted(f: Frame) returns (g: Frame)
    requires '|' in f.functionName || '|' in f.filePath
    ensures g != f && FrameText(g) == FrameText(f)
  {
    hide Strings.Decimal;
    if '|' in f.functionName {
      var i :| 0 <= i < |f.functionName| && f.functionName[i] == '|';
      g := f.(functionName := f.functionName[..i], filePath := f.functionName[i + 1..] + "|" + f.filePath);
      assert f.functionName == f.functionName[..i] + "|" + f.functionName[i + 1..];
      assert f.functionName + "|" + f.filePath == g.functionName + "|" + g.filePath;
      assert |g.functionName| < |f.functionName|;
    } else {
      var i :| 0 <= i < |f.filePath| && f.filePath[i] == '|';
      g := f.(functionName := f.functionName + "|" + f.filePath[..i], filePath := f.filePath[i + 1..]);
      assert f.filePath == f.filePath[..i] + "|" + f.filePath[i + 1..];
      assert f.functionName + "|" + f.filePath == g.functionName + "|" + g.filePath;
      assert |g.filePath| < |f.filePath|;
    }
  }

  ghost predicate Confused(frames: seq<Frame>, other: seq<Frame>) {
    |other| == |frames| && other != frames && ListText(other) == ListText(frames)
  }

  /** The text of these frames is also that of other frames, as many of them, if and only if a name contains the separator. */
  lemma ConfusableIff(frames: seq<Frame>)
    ensures (exists other :: Confused(frames, other)) <==> !BarFree(frames)
  {
    hide ListText, BarFree;
    NameBarsNone(frames);
    TextBars(frames);
    forall other | Confused(frames, other) ensures !BarFree(frames) {
      NameBarsNone(other);
      TextBars(other);
      if BarFree(frames) {
        TextTellsFrames(frames, other);
      }
    }
    if !BarFree(frames) {
      var other := AnotherOfSameText(frames);
      assert Confused(frames, other);
    }
  }

  lemma AnotherOfSameText(frames: seq<Frame>) returns (other: seq<Frame>)
    requires !BarFree(frames)
    ensures Confused(frames, other)
  {
    hide FrameText;
    var i :| 0 <= i < |frames| && ('|' in frames[i].functionName || '|' in frames[i].filePath);
    var g := Shifted(frames[i]);
    other := frames[i := g];
    var a := seq(|frames|, k requires 0 <= k < |frames| => FrameText(frames[k]));
    var b := seq(|other|, k requires 0 <= k < |other| => FrameText(other[k]));
    assert forall k :: 0 <= k < |frames| ==> a[k] == b[k];
    assert a == b;
  }

  /**
    So two recent entries of other requests whose frames differ, but read the same, are not refused
    as the code means to: the newer one is handed out.
  */
  lemma ConfusedIsHandedOut(a: Entry, b: Entry, t0: int, t1: int)
    requires Mistaken(a, b)
    requires IsRecent(a, t0) && IsRecent(b, t0) && IsRecent(a, t1) && IsRecent(b, t1)
    ensures ForeignStep([a, b], t0, t1) == Some(Found(b, DroppedRequest))
    ensures !ForeignVerdict(Found(b, DroppedRequest), [a, b], t0, t1)
  {
    hide ListText, SameFrames;
    RecentBoth(a, b, t0);
    RecentBoth(a, b, t1);
    TwoRecent(a, b, t0);
    TwoDisagree(a, b, t1);
  }

  lemma TwoRecent(a: Entry, b: Entry, t: int)
    requires IsRecent(a, t) && IsRecent(b, t)
    ensures !HasOnlyRecent([a, b], t)
  {
    var s := [a, b];
    assert s[0] == a && s[1] == b;
    forall i: nat ensures !OnlyRecentAt(s, i, t) {
      var other := if i == 0 then 1 else 0;
      assert IsRecent(s[other], t);
    }
  }

  lemma TwoDisagree(a: Entry, b: Entry, t: int)
    requires IsRecent(a, t) && IsRecent(b, t) && !SameFrames(a, b)
    ensures !RecentAgree([a, b], t)
  {
    var s := [a, b];
    assert !SameFrames(s[0], s[1]);
  }

  lemma RecentBoth(a: Entry, b: Entry, t: int)
    requires IsRecent(a, t) && IsRecent(b, t)
    ensures Recent([a, b], t) == [a, b]
  {
    assert [a, b][..1] == [a];
    assert [a][..0] == [];
  }
}
