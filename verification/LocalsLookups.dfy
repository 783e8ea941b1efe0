/**
  Looking up an error's locals: the three ways to choose among several matches, the cascade of
  ever looser keys, and what each answer guarantees.  now(k) is the k-th reading of the wall clock
  during the lookup; normalize strips an "XyzError: " prefix from a message.
*/
module LocalsLookups {
  import opened Wrappers
  import opened LocalsCaches
  import Strings

  datatype Label = Exact | DroppedHash | DroppedCount | DroppedRequest | BackgroundMatch

  datatype Outcome =
    | Found(entry: Entry, grade: Label)
    | AmbiguousCorrelation
    | AmbiguousContextLess
    | CacheMiss(reason: Reason)

  // ---------------------------------------------------------------- choosing

  function Recent(matches: seq<Entry>, now: int): (s: seq<Entry>)
    ensures |s| <= |matches|
    ensures forall e :: e in s ==> e in matches && IsRecent(e, now)
  {
    if matches == [] then []
    else
      var n := |matches| - 1;
      Recent(matches[..n], now) + if IsRecent(matches[n], now) then [matches[n]] else []
  }

  lemma {:induction false} RecentMember(matches: seq<Entry>, now: int, e: Entry)
    ensures e in Recent(matches, now) <==> e in matches && IsRecent(e, now)
  {
    if matches != [] {
      var n := |matches| - 1;
      RecentMember(matches[..n], now, e);
      assert matches == matches[..n] + [matches[n]];
    }
  }

  function FrameText(f: Frame): string {
    f.functionName + "|" + f.filePath + "|" + Strings.Decimal(f.lineNumber) + "|" + Strings.Decimal(f.columnNumber)
  }

  function ListText(frames: seq<Frame>): string {
    Strings.Join(seq(|frames|, i requires 0 <= i < |frames| => FrameText(frames[i])), '\n')
  }

  function Signature(e: Entry): string {
    ListText(e.frames.list)
  }

  predicate AllSame(entries: seq<Entry>) {
    forall i :: 0 <= i < |entries| ==> Signature(entries[i]) == Signature(entries[0])
  }

  function Last(entries: seq<Entry>): Option<Entry> {
    if entries == [] then None else Some(entries[|entries| - 1])
  }

  function SingleRecent(matches: seq<Entry>, now: int): Option<Entry> {
    if |matches| == 1 then Some(matches[0])
    else if |Recent(matches, now)| == 1 then Some(Recent(matches, now)[0])
    else None
  }

  function NewestEquivalent(matches: seq<Entry>, now: int): Option<Entry> {
    var recent := Recent(matches, now);
    if AllSame(recent) then Last(recent) else None
  }

  function NewestRecent(matches: seq<Entry>, now: int): Option<Entry> {
    Last(Recent(matches, now))
  }

  // ---------------------------------------------------------------- the cascade

  /** A step within the request: a single match, else the newest recent one. */
  function OwnStep(matches: seq<Entry>, grade: Label, t0: int, t1: int): Option<Outcome> {
    if |matches| == 1 then Some(Found(matches[0], grade))
    else if NewestEquivalent(matches, t0).Some? then Some(Found(NewestEquivalent(matches, t0).value, grade))
    else if NewestRecent(matches, t1).Some? then Some(Found(NewestRecent(matches, t1).value, grade))
    else if |matches| > 1 then Some(AmbiguousCorrelation)
    else None
  }

  /** A step across requests: a single match or a single recent one, else the newest of equivalent recent ones. */
  function ForeignStep(matches: seq<Entry>, t0: int, t1: int): Option<Outcome> {
    if SingleRecent(matches, t0).Some? then Some(Found(SingleRecent(matches, t0).value, DroppedRequest))
    else if NewestEquivalent(matches, t1).Some? then Some(Found(NewestEquivalent(matches, t1).value, DroppedRequest))
    else if |matches| > 1 then Some(AmbiguousCorrelation)
    else None
  }

  function OrElse(first: Option<Outcome>, second: Option<Outcome>): Option<Outcome> {
    if first.Some? then first else second
  }

  function ExactStep(entries: seq<Entry>, q: Query): Option<Outcome> {
    var e := Newest(entries, q);
    if e.Some? then Some(Found(e.value, Exact)) else None
  }

  function BackgroundStep(entries: seq<Entry>, q: Query): Option<Outcome> {
    var matches := Select(entries, q, Background);
    if |matches| == 1 then Some(Found(matches[0], BackgroundMatch))
    else if |matches| > 1 then Some(AmbiguousContextLess)
    else None
  }

  /** The tiers of a lookup inside a request, closest first. */
  function TierAt(k: nat, now: nat -> int, normalize: string -> string): Tier
    requires k < 7
  {
    match k
    case 0 => Identity
    case 1 => Degraded
    case 2 => Loose
    case 3 => Foreign
    case 4 => ForeignDegraded
    case 5 => ForeignLoose
    case _ => Similar(now(10), normalize)
  }

  function LabelAt(k: nat): Label {
    match k
    case 0 => Exact
    case 1 => DroppedHash
    case 2 => DroppedCount
    case _ => DroppedRequest
  }

  /** What tier k answers on its own; None passes the lookup on. */
  function StepAt(k: nat, entries: seq<Entry>, q: Query, now: nat -> int, normalize: string -> string): Option<Outcome>
    requires k < 7
  {
    var matches := Select(entries, q, TierAt(k, now, normalize));
    match k
    case 0 => ExactStep(entries, q)
    case 1 => OwnStep(matches, DroppedHash, now(0), now(1))
    case 2 => OwnStep(matches, DroppedCount, now(2), now(3))
    case 3 => ForeignStep(matches, now(4), now(5))
    case 4 => ForeignStep(matches, now(6), now(7))
    case 5 => ForeignStep(matches, now(8), now(9))
    case _ =>
      // The recent entries are already filtered, so a single one is taken outright.
      if |matches| == 1 then Some(Found(matches[0], DroppedRequest))
      else if NewestEquivalent(matches, now(11)).Some? then Some(Found(NewestEquivalent(matches, now(11)).value, DroppedRequest))
      else if |matches| > 1 then Some(AmbiguousCorrelation)
      else None
  }

  /** The first tier from k on that answers. */
  function Cascade(k: nat, entries: seq<Entry>, q: Query, now: nat -> int, normalize: string -> string): Option<Outcome>
    requires k <= 7
    decreases 7 - k
  {
    if k == 7 then None
    else OrElse(StepAt(k, entries, q, now, normalize), Cascade(k + 1, entries, q, now, normalize))
  }

  /** _layer2Lookup. */
  function Layer2(entries: seq<Entry>, q: Query, now: nat -> int, normalize: string -> string): Outcome {
    var answer := if q.requestId.Some? then Cascade(0, entries, q, now, normalize) else BackgroundStep(entries, q);
    if answer.Some? then answer.value else CacheMiss(Diagnosis(entries, q))
  }

  // ---------------------------------------------------------------- what an answer means

  /** Among several matches only an exact one, or one at most a second old, is ever chosen. */
  ghost predicate Picked(k: nat, e: Entry, matches: seq<Entry>, now: nat -> int) {
    e in matches && (k == 0 || |matches| == 1 || exists t :: 0 <= t < 12 && IsRecent(e, now(t)))
  }

  predicate ChosenFrom(matches: seq<Entry>, e: Entry, t0: int, t1: int) {
    e in matches && (|matches| == 1 || IsRecent(e, t0) || IsRecent(e, t1))
  }

  lemma OwnAnswers(matches: seq<Entry>, grade: Label, t0: int, t1: int)
    ensures var r := OwnStep(matches, grade, t0, t1);
            && (r.None? ==> matches == [])
            && (r.Some? ==> r.value.Found? || r.value.AmbiguousCorrelation?)
            && (r.Some? && r.value.Found? ==> ChosenFrom(matches, r.value.entry, t0, t1) && r.value.grade == grade)
            && (r.Some? && r.value.AmbiguousCorrelation? ==> |matches| > 1 && Recent(matches, t1) == [])
  {
    hide Recent, AllSame;
  }

  lemma ForeignAnswers(matches: seq<Entry>, t0: int, t1: int)
    ensures var r := ForeignStep(matches, t0, t1);
            && (r.None? ==> matches == [])
            && (r.Some? ==> r.value.Found? || r.value.AmbiguousCorrelation?)
            && (r.Some? && r.value.Found? ==> ChosenFrom(matches, r.value.entry, t0, t1) && r.value.grade == DroppedRequest)
            && (r.Some? && r.value.AmbiguousCorrelation? ==> |matches| > 1)
  {
    hide Recent, AllSame;
  }

  lemma StepAnswers(k: nat, entries: seq<Entry>, q: Query, now: nat -> int, normalize: string -> string)
    requires k < 7
    ensures var matches := Select(entries, q, TierAt(k, now, normalize));
            match StepAt(k, entries, q, now, normalize)
            case None => matches == []
            case Some(Found(e, grade)) => Picked(k, e, matches, now) && grade == LabelAt(k)
            case Some(AmbiguousCorrelation) => |matches| > 1 && k > 0 && (k <= 2 ==> Recent(matches, now(2 * k - 1)) == [])
            case Some(_) => false
  {
    hide Select, OwnStep, ForeignStep, Recent, AllSame;
    var matches := Select(entries, q, TierAt(k, now, normalize));
    match k
    case 0 =>
    case 1 => OwnAnswers(matches, DroppedHash, now(0), now(1));
    case 2 => OwnAnswers(matches, DroppedCount, now(2), now(3));
    case 3 => ForeignAnswers(matches, now(4), now(5));
    case 4 => ForeignAnswers(matches, now(6), now(7));
    case 5 => ForeignAnswers(matches, now(8), now(9));
    case _ =>
  }

  /** No entry matches at tier k or any closer one. */
  ghost predicate NothingBefore(k: nat, entries: seq<Entry>, q: Query, now: nat -> int, normalize: string -> string)
    requires k <= 7
  {
    forall j :: 0 <= j < k ==> Select(entries, q, TierAt(j, now, normalize)) == []
  }

  lemma {:induction false} CascadeAnswers(k: nat, entries: seq<Entry>, q: Query, now: nat -> int, normalize: string -> string)
    requires k <= 7 && NothingBefore(k, entries, q, now, normalize)
    ensures match Cascade(k, entries, q, now, normalize)
            case None => NothingBefore(7, entries, q, now, normalize)
            case Some(Found(e, grade)) =>
              exists j :: k <= j < 7 && NothingBefore(j, entries, q, now, normalize)
                          && Picked(j, e, Select(entries, q, TierAt(j, now, normalize)), now) && grade == LabelAt(j)
            case Some(AmbiguousCorrelation) =>
              exists j :: 0 < j < 7 && NothingBefore(j, entries, q, now, normalize)
                          && |Select(entries, q, TierAt(j, now, normalize))| > 1
            case Some(_) => false
    decreases 7 - k
  {
    hide Select, StepAt, TierAt;
    if k < 7 {
      StepAnswers(k, entries, q, now, normalize);
      if StepAt(k, entries, q, now, normalize).None? {
        CascadeAnswers(k + 1, entries, q, now, normalize);
      }
    }
  }

  /**
    Inside a request an entry is handed out only from the closest tier that has any match; the
    lookup gives up as ambiguous only if that tier has several; and it misses only if no tier has one.
  */
  lemma ClosestTierWins(entries: seq<Entry>, q: Query, now: nat -> int, normalize: string -> string)
    requires q.requestId.Some?
    ensures match Layer2(entries, q, now, normalize)
            case Found(e, grade) =>
              exists j :: 0 <= j < 7 && NothingBefore(j, entries, q, now, normalize)
                          && Picked(j, e, Select(entries, q, TierAt(j, now, normalize)), now) && grade == LabelAt(j)
            case AmbiguousCorrelation =>
              exists j :: 0 < j < 7 && NothingBefore(j, entries, q, now, normalize)
                          && |Select(entries, q, TierAt(j, now, normalize))| > 1
            case AmbiguousContextLess => false
            case CacheMiss(reason) => NothingBefore(7, entries, q, now, normalize) && reason == Diagnosis(entries, q)
  {
    hide Select, Cascade, TierAt, Diagnosis;
    CascadeAnswers(0, entries, q, now, normalize);
  }

  /** Exactly which fields the entry and the error agree on, label by label. */
  predicate LabelMeans(e: Entry, q: Query, grade: Label, now: int, normalize: string -> string) {
    match grade
    case Exact =>
      e.requestId == q.requestId && SameError(e, q) && e.frameCount == q.frameCount && e.structuralHash == q.structuralHash
    case DroppedHash =>
      e.requestId == q.requestId && SameError(e, q) && e.frameCount == q.frameCount && e.structuralHash != q.structuralHash
    case DroppedCount => e.requestId == q.requestId && SameError(e, q) && e.frameCount != q.frameCount
    case DroppedRequest =>
      e.requestId != q.requestId
      && (SameError(e, q)
          || (0 <= now - e.createdAt <= 1000
              && (normalize(e.errorMessage) == normalize(q.errorMessage)
                  || (e.errorName == "NonErrorThrown" && q.topFunction != ""
                      && e.frames.list != [] && e.frames.list[0].functionName == q.topFunction))))
    case BackgroundMatch =>
      e.requestId.None? && q.requestId.None? && SameError(e, q) && e.frameCount == q.frameCount
      && e.structuralHash == q.structuralHash
  }

  lemma NotBefore(j: nat, k: nat, entries: seq<Entry>, q: Query, now: nat -> int, normalize: string -> string, e: Entry)
    requires j < k <= 7 && NothingBefore(k, entries, q, now, normalize) && e in entries
    ensures !Matches(e, q, TierAt(j, now, normalize))
  {
    hide Select, Matches, TierAt;
    SelectMember(entries, q, TierAt(j, now, normalize), e);
  }

  /** Sound: a label says exactly which fields matched, and the dropped one did not. */
  lemma LabelsAreSound(entries: seq<Entry>, q: Query, now: nat -> int, normalize: string -> string)
    ensures var r := Layer2(entries, q, now, normalize);
            r.Found? ==> r.entry in entries && LabelMeans(r.entry, q, r.grade, now(10), normalize)
  {
    hide Select, Cascade, NothingBefore, Diagnosis;
    var r := Layer2(entries, q, now, normalize);
    if r.Found? && q.requestId.Some? {
      ClosestTierWins(entries, q, now, normalize);
      var j :| 0 <= j < 7 && NothingBefore(j, entries, q, now, normalize)
               && Picked(j, r.entry, Select(entries, q, TierAt(j, now, normalize)), now) && r.grade == LabelAt(j);
      SelectMember(entries, q, TierAt(j, now, normalize), r.entry);
      if j > 0 {
        NotBefore(j - 1, j, entries, q, now, normalize, r.entry);
      }
    } else if r.Found? {
      SelectMember(entries, q, Background, r.entry);
    }
  }

  /** Complete: in a request the exact label is given if and only if some entry matches on all five fields, and to the newest. */
  lemma ExactIff(entries: seq<Entry>, q: Query, now: nat -> int, normalize: string -> string)
    requires q.requestId.Some?
    ensures var r := Layer2(entries, q, now, normalize);
            && ((r.Found? && r.grade == Exact) <==> exists i :: 0 <= i < |entries| && Matches(entries[i], q, Identity))
            && (r.Found? && r.grade == Exact ==>
                  exists i :: 0 <= i < |entries| && entries[i] == r.entry && Matches(entries[i], q, Identity)
                              && forall k :: i < k < |entries| ==> !Matches(entries[k], q, Identity))
  {
    hide Select, Matches, StepAt, Diagnosis;
    SelectNone(entries, q, Identity);
    LastSelected(entries, q, Identity);
    StepAnswers(0, entries, q, now, normalize);
    ClosestTierWins(entries, q, now, normalize);
    assert StepAt(0, entries, q, now, normalize) == ExactStep(entries, q) by { StepZero(entries, q, now, normalize); }
    assert Cascade(0, entries, q, now, normalize) == OrElse(ExactStep(entries, q), Cascade(1, entries, q, now, normalize));
    if Select(entries, q, Identity) == [] {
      var r := Layer2(entries, q, now, normalize);
      if r.Found? {
        var j :| 0 <= j < 7 && NothingBefore(j, entries, q, now, normalize)
                 && Picked(j, r.entry, Select(entries, q, TierAt(j, now, normalize)), now) && r.grade == LabelAt(j);
        assert j != 0;
      }
    }
  }

  lemma StepZero(entries: seq<Entry>, q: Query, now: nat -> int, normalize: string -> string)
    ensures StepAt(0, entries, q, now, normalize) == ExactStep(entries, q)
  {
  }

  lemma LastSelected(entries: seq<Entry>, q: Query, t: Tier)
    ensures var s := Select(entries, q, t);
            s != [] ==>
              exists i :: 0 <= i < |entries| && entries[i] == s[|s| - 1] && Matches(entries[i], q, t)
                          && forall k :: i < k < |entries| ==> !Matches(entries[k], q, t)
  {
    hide Matches, Select;
    if Select(entries, q, t) != [] {
      var i := LastSelectedAt(entries, q, t);
    }
  }

  lemma {:induction false} LastSelectedAt(entries: seq<Entry>, q: Query, t: Tier) returns (i: nat)
    requires Select(entries, q, t) != []
    ensures i < |entries| && entries[i] == Select(entries, q, t)[|Select(entries, q, t)| - 1] && Matches(entries[i], q, t)
    ensures forall k :: i < k < |entries| ==> !Matches(entries[k], q, t)
  {
    hide Matches;
    var n := |entries| - 1;
    if Matches(entries[n], q, t) {
      i := n;
    } else {
      i := LastSelectedAt(entries[..n], q, t);
      forall k | i < k < n ensures !Matches(entries[k], q, t) { assert entries[k] == entries[..n][k]; }
    }
  }

  /** An entry that some tier of the cascade could still hand out. */
  predicate Candidate(e: Entry, q: Query, now: nat -> int, normalize: string -> string) {
    || SameError(e, q)
    || (e.requestId != q.requestId && 0 <= now(10) - e.createdAt <= 1000
        && (normalize(e.errorMessage) == normalize(q.errorMessage)
            || (e.errorName == "NonErrorThrown" && q.topFunction != ""
                && e.frames.list != [] && e.frames.list[0].functionName == q.topFunction)))
  }

  lemma TierIsCandidate(k: nat, e: Entry, q: Query, now: nat -> int, normalize: string -> string)
    requires k < 7 && Matches(e, q, TierAt(k, now, normalize))
    ensures Candidate(e, q, now, normalize)
  {
  }

  lemma TierHasCandidate(k: nat, entries: seq<Entry>, q: Query, now: nat -> int, normalize: string -> string)
    requires k < 7 && Select(entries, q, TierAt(k, now, normalize)) != []
    ensures exists i :: 0 <= i < |entries| && Candidate(entries[i], q, now, normalize)
  {
    hide Select, TierAt, Matches, Candidate;
    var e := Select(entries, q, TierAt(k, now, normalize))[0];
    SelectMember(entries, q, TierAt(k, now, normalize), e);
    TierIsCandidate(k, e, q, now, normalize);
  }

  /**
    A lookup inside a request misses if and only if no buffered entry has the error's name and
    message and none is both recent and similar; so the reason given is never the frame count or
    the hash.
  */
  lemma MissMeansUnknownError(entries: seq<Entry>, q: Query, now: nat -> int, normalize: string -> string)
    requires q.requestId.Some?
    ensures var r := Layer2(entries, q, now, normalize);
            && (r.CacheMiss? <==> forall i :: 0 <= i < |entries| ==> !Candidate(entries[i], q, now, normalize))
            && (r.CacheMiss? ==> r.reason != FrameCountMismatch && r.reason != HashMismatch)
  {
    hide Select, Layer2, NothingBefore, Deepest, TierAt;
    ClosestTierWins(entries, q, now, normalize);
    var r := Layer2(entries, q, now, normalize);
    if r.CacheMiss? {
      forall i | 0 <= i < |entries| ensures !Candidate(entries[i], q, now, normalize) {
        MissedEntry(entries, q, now, normalize, entries[i]);
      }
      if entries != [] {
        DeepAgreement(entries, q);
      }
    } else {
      var k :| 0 <= k < 7 && Select(entries, q, TierAt(k, now, normalize)) != [];
      TierHasCandidate(k, entries, q, now, normalize);
    }
  }

  lemma MissedEntry(entries: seq<Entry>, q: Query, now: nat -> int, normalize: string -> string, e: Entry)
    requires NothingBefore(7, entries, q, now, normalize) && e in entries
    ensures !Candidate(e, q, now, normalize)
  {
    hide Select, NothingBefore;
    NotBefore(2, 7, entries, q, now, normalize, e);
    NotBefore(5, 7, entries, q, now, normalize, e);
    NotBefore(6, 7, entries, q, now, normalize, e);
  }

  /** A diagnosis of the frame count or the hash needs an entry with the same request, name and message. */
  lemma DeepAgreement(entries: seq<Entry>, q: Query)
    requires entries != [] && forall i :: 0 <= i < |entries| ==> !SameError(entries[i], q)
    ensures Diagnosis(entries, q) == RequestIdMismatch || Diagnosis(entries, q) == NameMismatch
            || Diagnosis(entries, q) == MessageMismatch
  {
    var i :| 0 <= i < |entries| && Depth(Agreement(entries[i], q)) == Deepest(entries, q);
    var v := Agreement(entries[i], q);
    assert !v[1] || !v[2];
  }

  /** Outside a request a single full match is handed out, several are refused, and none is a miss. */
  lemma BackgroundIff(entries: seq<Entry>, q: Query, now: nat -> int, normalize: string -> string)
    requires q.requestId.None?
    ensures var r, matches := Layer2(entries, q, now, normalize), Select(entries, q, Background);
            && (|matches| == 1 <==> r.Found?) && (r.Found? ==> r.entry == matches[0] && r.grade == BackgroundMatch)
            && (|matches| > 1 <==> r == AmbiguousContextLess)
            && (matches == [] <==> r.CacheMiss?)
  {
    hide Select, Diagnosis;
  }
}
