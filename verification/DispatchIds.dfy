/** Request ids: when one is found, and how far an id can be from being used again. */
module DispatchIds {
  import opened Dispatch

  // ---------------------------------------------------------------- finding an id

  /** The j-th id after start, for j up to max. */
  function Ahead(start: nat, j: nat, max: nat): nat
    requires start <= max && j <= max
  {
    if start + j <= max then start + j else start + j - max
  }

  /** Ids are distinct and between 1 and max. */
  ghost predicate IdsOk(pending: seq<Pending>, max: nat) {
    && (forall i :: 0 <= i < |pending| ==> 1 <= pending[i].id <= max)
    && (forall i, j :: 0 <= i < j < |pending| ==> pending[i].id != pending[j].id)
  }

  lemma {:induction false} ProbeWalks(start: nat, k: nat, pending: seq<Pending>, tries: nat, max: nat)
    requires start <= max && k + tries <= max && max >= 1
    ensures var p := Probe(Ahead(start, k, max), pending, tries, max);
            && p.looked <= tries && p.counter == Ahead(start, k + p.looked, max)
            && (p.found ==> p.looked >= 1 && !IsPending(pending, p.counter))
            && (!p.found ==> p.looked == tries && forall j :: k < j <= k + tries ==> IsPending(pending, Ahead(start, j, max)))
    decreases tries
  {
    hide IsPending;
    if tries > 0 {
      assert NextCounter(Ahead(start, k, max), max) == Ahead(start, k + 1, max);
      ProbeWalks(start, k + 1, pending, tries - 1, max);
    }
  }

  function Ids(pending: seq<Pending>): (s: set<nat>)
    ensures forall id :: id in s <==> IsPending(pending, id)
    ensures |s| <= |pending|
  {
    if pending == [] then {}
    else
      var n := |pending| - 1;
      var rest := Ids(pending[..n]);
      assert forall id :: IsPending(pending, id) <==> IsPending(pending[..n], id) || id == pending[n].id by {
        forall id ensures IsPending(pending, id) <==> IsPending(pending[..n], id) || id == pending[n].id {
          PendingSnoc(pending, id);
        }
      }
      rest + {pending[n].id}
  }

  lemma PendingSnoc(pending: seq<Pending>, id: nat)
    requires pending != []
    ensures IsPending(pending, id) <==> IsPending(pending[..|pending| - 1], id) || id == pending[|pending| - 1].id
  {
    var n := |pending| - 1;
    if IsPending(pending[..n], id) {
      var i :| 0 <= i < n && pending[..n][i].id == id;
      assert pending[i].id == id;
    }
    if IsPending(pending, id) {
      var i :| 0 <= i < |pending| && pending[i].id == id;
      if i < n { assert pending[..n][i].id == id; }
    }
  }

  lemma {:induction false} IdsSize(pending: seq<Pending>, max: nat)
    requires IdsOk(pending, max)
    ensures |Ids(pending)| == |pending|
  {
    hide IsPending;
    if pending != [] {
      var n := |pending| - 1;
      IdsSize(pending[..n], max);
      assert pending[n].id !in Ids(pending[..n]) by { NotBefore(pending, max); }
    }
  }

  lemma NotBefore(pending: seq<Pending>, max: nat)
    requires pending != [] && IdsOk(pending, max)
    ensures !IsPending(pending[..|pending| - 1], pending[|pending| - 1].id)
  {
  }

  lemma {:induction false} SubsetSize(a: set<nat>, b: set<nat>)
    requires a <= b
    ensures |a| <= |b|
  {
    if a != {} {
      var x :| x in a;
      SubsetSize(a - {x}, b - {x});
    }
  }

  /** The next n ids, all different as long as n <= max. */
  function Candidates(start: nat, n: nat, max: nat): (s: set<nat>)
    requires start <= max && n <= max
    ensures forall c :: c in s ==> exists j :: 1 <= j <= n && c == Ahead(start, j, max)
    ensures |s| == n
  {
    if n == 0 then {}
    else
      var rest := Candidates(start, n - 1, max);
      assert Ahead(start, n, max) !in rest;
      rest + {Ahead(start, n, max)}
  }

  function Range(max: nat): (s: set<nat>)
    ensures forall id :: id in s <==> 1 <= id <= max
    ensures |s| == max
  {
    if max == 0 then {} else Range(max - 1) + {max}
  }

  /** Pigeonhole: with max ids pending, every id is. */
  lemma AllTaken(pending: seq<Pending>, max: nat, id: nat)
    requires IdsOk(pending, max) && |pending| >= max && 1 <= id <= max
    ensures IsPending(pending, id)
  {
    IdsSize(pending, max);
    if !IsPending(pending, id) {
      forall x | x in Ids(pending) ensures x in Range(max) - {id} {
        var i :| 0 <= i < |pending| && pending[i].id == x;
      }
      SubsetSize(Ids(pending), Range(max) - {id});
    }
  }

  lemma {:induction false} NoneFree(counter: nat, pending: seq<Pending>, tries: nat, max: nat)
    requires counter <= max && max >= 1 && forall id :: 1 <= id <= max ==> IsPending(pending, id)
    ensures var p := Probe(counter, pending, tries, max); !p.found && p.looked == tries && p.counter <= max && (tries > 0 ==> p.counter >= 1)
    decreases tries
  {
    hide IsPending;
    if tries > 0 {
      NoneFree(NextCounter(counter, max), pending, tries - 1, max);
    }
  }

  /**
    nextRequestId returns an id exactly when fewer than max requests are pending; the id is in
    [1, max], not pending, and the next free one after the counter.
  */
  lemma IdFoundIff(counter: nat, pending: seq<Pending>, max: nat)
    requires counter <= max && max >= 1 && IdsOk(pending, max)
    ensures var p := NextRequestId(counter, pending, max);
            && (p.found <==> |pending| < max)
            && 1 <= p.counter <= max && p.looked >= 1
            && (p.found ==> p.looked <= max && p.counter == Ahead(counter, p.looked, max)
                            && !IsPending(pending, p.counter))
            && (!p.found ==> p.looked > max)
  {
    hide IsPending, Probe;
    if |pending| < max {
      var tries := |pending| + 1;
      ProbeWalks(counter, 0, pending, tries, max);
      if !NextRequestId(counter, pending, max).found {
        forall c | c in Candidates(counter, tries, max) ensures c in Ids(pending) {
          var j :| 1 <= j <= tries && c == Ahead(counter, j, max);
        }
        SubsetSize(Candidates(counter, tries, max), Ids(pending));
        assert false;
      }
    } else {
      forall id | 1 <= id <= max ensures IsPending(pending, id) {
        AllTaken(pending, max, id);
      }
      NoneFree(counter, pending, |pending| + 1, max);
    }
  }

  // ---------------------------------------------------------------- one id cycle

  /** The id handed out d probes ago, for d < max. */
  function Behind(counter: nat, d: nat, max: nat): int {
    if counter > d then counter - d else counter + max - d
  }

  /** A message's id, as long as the counter has not gone once round since. */
  predicate Dated(id: nat, ticket: nat, s: State, max: nat) {
    ticket <= s.ticket && (s.ticket - ticket < max ==> id == Behind(s.requestId, s.ticket - ticket, max))
  }

  ghost predicate Windowed(s: State, max: nat) {
    && (forall i :: 0 <= i < |s.inbox| ==> Dated(s.inbox[i].id, s.inbox[i].ticket, s, max))
    && (forall i :: 0 <= i < |s.outbox| ==> Dated(s.outbox[i].id, s.outbox[i].ticket, s, max))
    && (s.requestId == 0 ==> s.inbox == [] && s.outbox == [])
  }

  /** No message is still under way when the counter has gone once round since it was posted. */
  ghost predicate Timely(s: State, max: nat) {
    && (forall i :: 0 <= i < |s.inbox| ==> s.ticket - s.inbox[i].ticket < max)
    && (forall i :: 0 <= i < |s.outbox| ==> s.ticket - s.outbox[i].ticket < max)
  }

  /** Posting moves the window along and leaves old ids where they were. */
  lemma DatedMoves(id: nat, ticket: nat, s: State, t: State, looked: nat, max: nat)
    requires Dated(id, ticket, s, max) && 1 <= s.requestId <= max
    requires t.ticket == s.ticket + looked
    requires 1 <= looked <= max ==> t.requestId == Ahead(s.requestId, looked, max)
    requires looked >= 1
    ensures Dated(id, ticket, t, max)
    ensures t.ticket - ticket < max ==> id != t.requestId
  {
  }
}
