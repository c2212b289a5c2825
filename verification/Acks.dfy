/**
 * How the coordinator stamps Welcomes and join requests so that an
 * acknowledgement names one record, whatever the clock does.
 */
module Acks {
  import opened Base
  import opened Storage
  import opened StorageLaws

  // ---------------------------------------------------------------------
  // Welcomes
  // ---------------------------------------------------------------------

  predicate SameDelivery(a: Welcome, b: Welcome) {
    a.target == b.target && a.ref == b.ref && a.after == b.after && a.bytes == b.bytes
  }

  function FirstDuplicate(rows: seq<Welcome>, w: Welcome): Option<Welcome> {
    if rows == [] then None
    else if SameDelivery(rows[0], w) then Some(rows[0])
    else FirstDuplicate(rows[1..], w)
  }

  /** The clock, pushed past the stamps of all records with the same reference. */
  function WelcomeStamp(rows: seq<Welcome>, target: Id, ref: Id, now: int): int {
    if rows == [] then now
    else
      var stamp := WelcomeStamp(rows[1..], target, ref, now);
      if rows[0].target == target && rows[0].ref == ref then Max(stamp, rows[0].at + 1) else stamp
  }

  /** Store a Welcome, or answer with the pending one that says the same. `w.at` is the clock. */
  function AddWelcome(rows: seq<Welcome>, w: Welcome): (seq<Welcome>, Welcome) {
    match FirstDuplicate(rows, w)
    case Some(known) => (rows, known)
    case None =>
      var stamped := w.(at := WelcomeStamp(rows, w.target, w.ref, w.at));
      (rows + [stamped], stamped)
  }

  // ---------------------------------------------------------------------
  // Join requests
  // ---------------------------------------------------------------------

  function RequestStamp(rows: seq<JoinRequest>, group: Id, requester: Id, now: int): int {
    if rows == [] then now
    else
      var stamp := RequestStamp(rows[1..], group, requester, now);
      if rows[0].group == group && rows[0].requester == requester then Max(stamp, rows[0].at + 1) else stamp
  }

  /** Store or refresh a request. `r.at` is the clock. */
  function AddRequest(rows: seq<JoinRequest>, r: JoinRequest): Result<seq<JoinRequest>, StorageError> {
    StoreRequest(rows, r.(at := RequestStamp(rows, r.group, r.requester, r.at)))
  }

  /** The coordinator's two queues. */
  class Inbox {
    var welcomes: seq<Welcome>
    var requests: seq<JoinRequest>

    constructor ()
      ensures welcomes == [] && requests == []
    {
      welcomes, requests := [], [];
    }

    method StoreWelcome(target: Id, ref: Id, bytes: nat, after: Option<nat>, now: int) returns (w: Welcome)
      modifies this`welcomes
      ensures (welcomes, w) == AddWelcome(old(welcomes), Welcome(target, ref, bytes, now, after))
    {
      w := Welcome(target, ref, bytes, now, after);
      var pending := WelcomesFor(welcomes, target);
      DuplicateIsPending(welcomes, w);
      StampFromPending(welcomes, target, ref, now);
      AllOfTarget(welcomes, target);
      var known := FindDuplicate(pending, w);
      if known.Some? {
        return known.value;
      }
      var at := StampPast(pending, target, ref, now);
      w := w.(at := at);
      welcomes := welcomes + [w];
    }

    method StoreJoinRequest(group: Id, requester: Id, ref: Id, now: int) returns (stored: Result<JoinRequest, StorageError>)
      modifies this`requests
      ensures var added := AddRequest(old(requests), JoinRequest(group, requester, ref, now));
              && requests == (if added.Ok? then added.value else old(requests))
              && stored == (if added.Ok?
                            then Ok(JoinRequest(group, requester, ref, RequestStamp(old(requests), group, requester, now)))
                            else Err(added.error))
    {
      var at := now;
      var i := |requests|;
      while i > 0
        invariant 0 <= i <= |requests|
        invariant at == RequestStamp(requests[i..], group, requester, now)
      {
        i := i - 1;
        assert requests[i..][0] == requests[i] && requests[i..][1..] == requests[i + 1..];
        if requests[i].group == group && requests[i].requester == requester {
          at := Max(at, requests[i].at + 1);
        }
      }
      var r := JoinRequest(group, requester, ref, at);
      var added := StoreRequest(requests, r);
      if added.Err? {
        return Err(added.error);
      }
      requests := added.value;
      return Ok(r);
    }
  }

  method FindDuplicate(pending: seq<Welcome>, w: Welcome) returns (known: Option<Welcome>)
    requires forall x | x in pending :: x.target == w.target
    ensures known == FirstDuplicate(pending, w)
  {
    var i := 0;
    while i < |pending|
      invariant 0 <= i <= |pending|
      invariant FirstDuplicate(pending, w) == FirstDuplicate(pending[i..], w)
    {
      assert pending[i..][0] == pending[i] && pending[i..][1..] == pending[i + 1..];
      if pending[i].ref == w.ref && pending[i].after == w.after && pending[i].bytes == w.bytes {
        return Some(pending[i]);
      }
      i := i + 1;
    }
    return None;
  }

  method StampPast(pending: seq<Welcome>, ghost target: Id, ref: Id, now: int) returns (at: int)
    requires forall x | x in pending :: x.target == target
    ensures at == WelcomeStamp(pending, target, ref, now)
  {
    at := now;
    var i := |pending|;
    while i > 0
      invariant 0 <= i <= |pending|
      invariant at == WelcomeStamp(pending[i..], target, ref, now)
    {
      i := i - 1;
      assert pending[i..][0] == pending[i] && pending[i..][1..] == pending[i + 1..];
      if pending[i].ref == ref {
        at := Max(at, pending[i].at + 1);
      }
    }
  }

  lemma AllOfTarget(rows: seq<Welcome>, target: Id)
    ensures forall w | w in WelcomesFor(rows, target) :: w.target == target
  {
    forall w | w in WelcomesFor(rows, target)
      ensures w.target == target
    {
      PendingOfTarget(rows, target, w);
    }
  }

  lemma PendingOfTarget(rows: seq<Welcome>, target: Id, w: Welcome)
    ensures w in WelcomesFor(rows, target) <==> w in rows && w.target == target
  {
    FilterIn(rows, (x: Welcome) => x.target == target, w);
  }

  lemma WelcomesHead(rows: seq<Welcome>, target: Id)
    requires rows != []
    ensures var list, tail := WelcomesFor(rows, target), WelcomesFor(rows[1..], target);
            if rows[0].target == target then list != [] && list[0] == rows[0] && list[1..] == tail else list == tail
  {
  }

  lemma {:induction false} DuplicateIsPending(rows: seq<Welcome>, w: Welcome)
    ensures FirstDuplicate(rows, w) == FirstDuplicate(WelcomesFor(rows, w.target), w)
  {
    if rows != [] {
      DuplicateIsPending(rows[1..], w);
      WelcomesHead(rows, w.target);
    }
  }

  lemma {:induction false} StampFromPending(rows: seq<Welcome>, target: Id, ref: Id, now: int)
    ensures WelcomeStamp(rows, target, ref, now) == WelcomeStamp(WelcomesFor(rows, target), target, ref, now)
  {
    if rows != [] {
      StampFromPending(rows[1..], target, ref, now);
      WelcomesHead(rows, target);
    }
  }

  // ---------------------------------------------------------------------
  // Acknowledgements name one record
  // ---------------------------------------------------------------------

  predicate SameAck(a: Welcome, b: Welcome) { a.target == b.target && a.ref == b.ref && a.at == b.at }

  /** No two pending Welcomes share an acknowledgement, and no two say the same. */
  ghost predicate Told(rows: seq<Welcome>) {
    forall i, j :: 0 <= i < j < |rows| ==> !SameAck(rows[i], rows[j]) && !SameDelivery(rows[i], rows[j])
  }

  lemma {:induction false} StampIsNew(rows: seq<Welcome>, target: Id, ref: Id, now: int)
    ensures now <= WelcomeStamp(rows, target, ref, now)
    ensures forall w | w in rows && w.target == target && w.ref == ref :: w.at < WelcomeStamp(rows, target, ref, now)
  {
    if rows != [] {
      StampIsNew(rows[1..], target, ref, now);
    }
  }

  lemma {:induction false} DuplicateSaysTheSame(rows: seq<Welcome>, w: Welcome)
    ensures match FirstDuplicate(rows, w)
            case Some(known) => known in rows && SameDelivery(known, w)
            case None => forall x | x in rows :: !SameDelivery(x, w)
  {
    if rows != [] {
      DuplicateSaysTheSame(rows[1..], w);
    }
  }

  lemma AddWelcomeKeepsTold(rows: seq<Welcome>, w: Welcome)
    requires Told(rows)
    ensures Told(AddWelcome(rows, w).0)
    ensures SameDelivery(AddWelcome(rows, w).1, w) && AddWelcome(rows, w).1 in AddWelcome(rows, w).0
  {
    DuplicateSaysTheSame(rows, w);
    StampIsNew(rows, w.target, w.ref, w.at);
    assert forall i :: 0 <= i < |rows| ==> rows[i] in rows;
  }

  lemma FilterKeepsTold(rows: seq<Welcome>, keep: Welcome -> bool)
    requires Told(rows)
    ensures Told(Filter(rows, keep))
  {
    FilterKeepsPairs(rows, keep, (a: Welcome, b: Welcome) => !SameAck(a, b) && !SameDelivery(a, b));
  }

  lemma {:induction false} RequestStampIsNew(rows: seq<JoinRequest>, group: Id, requester: Id, now: int)
    ensures now <= RequestStamp(rows, group, requester, now)
    ensures forall r | r in rows && r.group == group && r.requester == requester ::
              r.at < RequestStamp(rows, group, requester, now)
    ensures (forall r | r in rows :: !(r.group == group && r.requester == requester)) ==>
              RequestStamp(rows, group, requester, now) == now
  {
    if rows != [] {
      RequestStampIsNew(rows[1..], group, requester, now);
    }
  }

  // ---------------------------------------------------------------------
  // What is stored, field by field
  // ---------------------------------------------------------------------

  /** A pending Welcome says exactly this. */
  predicate Says(w: Welcome, target: Id, ref: Id, bytes: nat, after: Option<nat>) {
    w.target == target && w.ref == ref && w.bytes == bytes && w.after == after
  }

  lemma {:induction false} StampIsClockOrNext(rows: seq<Welcome>, target: Id, ref: Id, now: int)
    ensures var at := WelcomeStamp(rows, target, ref, now);
            at == now || exists x :: x in rows && x.target == target && x.ref == ref && at == x.at + 1
  {
    if rows != [] {
      StampIsClockOrNext(rows[1..], target, ref, now);
    }
  }

  /**
   * What is answered says what was asked to be delivered, and is pending. Nothing
   * is added exactly when a pending Welcome says the same; otherwise one is, with
   * the least stamp that the clock has reached and that no Welcome of that
   * reference has.
   */
  lemma Inviting(rows: seq<Welcome>, target: Id, ref: Id, bytes: nat, after: Option<nat>, now: int)
    ensures var (left, w) := AddWelcome(rows, Welcome(target, ref, bytes, now, after));
            && Says(w, target, ref, bytes, after) && w in left
            && (left == rows <==> exists x :: x in rows && Says(x, target, ref, bytes, after))
            && (left != rows ==>
                  && left == rows + [w] && now <= w.at
                  && (forall x | x in rows && x.target == target && x.ref == ref :: x.at < w.at)
                  && (w.at == now || exists x :: x in rows && x.target == target && x.ref == ref && w.at == x.at + 1))
  {
    var w := Welcome(target, ref, bytes, now, after);
    DuplicateSaysTheSame(rows, w);
    StampIsNew(rows, target, ref, now);
    StampIsClockOrNext(rows, target, ref, now);
    assert |rows + [w]| == |rows| + 1;
  }

  lemma {:induction false} RequestStampIsClockOrNext(rows: seq<JoinRequest>, group: Id, requester: Id, clock: int)
    ensures var at := RequestStamp(rows, group, requester, clock);
            at == clock || exists x :: x in rows && x.group == group && x.requester == requester && at == x.at + 1
  {
    if rows != [] {
      RequestStampIsClockOrNext(rows[1..], group, requester, clock);
    }
  }

  /**
   * A request is stored with the least stamp that the clock has reached and that
   * the requester's pending one has not; it takes that one's place, or goes last,
   * and only a new one for a group that holds a hundred is refused.
   */
  lemma Asking(rows: seq<JoinRequest>, group: Id, requester: Id, wanted: Id, clock: int)
    ensures exists at: int ::
              && clock <= at && (forall x | x in rows && x.group == group && x.requester == requester :: x.at < at)
              && (at == clock || exists x :: x in rows && x.group == group && x.requester == requester && at == x.at + 1)
              && StoredAs(rows, JoinRequest(group, requester, wanted, at), AddRequest(rows, JoinRequest(group, requester, wanted, clock)))
  {
    var at := RequestStamp(rows, group, requester, clock);
    RequestStampIsNew(rows, group, requester, clock);
    RequestStampIsClockOrNext(rows, group, requester, clock);
    var r := JoinRequest(group, requester, wanted, at);
    AskingToJoin(Rows([], [], rows, []), r);
    StoreRequestIs(Rows([], [], rows, []), r);
    hide Exactly, Perform, AskedBefore, StoreRequest;
    assert StoredAs(rows, r, AddRequest(rows, JoinRequest(group, requester, wanted, clock)));
  }

  ghost predicate StoredAs(rows: seq<JoinRequest>, r: JoinRequest, added: Result<seq<JoinRequest>, StorageError>) {
    if AskedBefore(rows, r.group, r.requester) then
      && added.Ok? && |added.value| == |rows|
      && forall i :: 0 <= i < |rows| ==>
           added.value[i] == if rows[i].group == r.group && rows[i].requester == r.requester then r else rows[i]
    else if |Filter(rows, (x: JoinRequest) => x.group == r.group)| >= 100 then added == Err(TooManyRequests)
    else added == Ok(rows + [r])
  }

  // ---------------------------------------------------------------------
  // Whole runs, under any clock
  // ---------------------------------------------------------------------

  datatype Queues = Queues(welcomes: seq<Welcome>, requests: seq<JoinRequest>)

  /** `now` is whatever the clock shows: it may stall or go back. */
  datatype Step =
    | Invite(target: Id, ref: Id, bytes: nat, after: Option<nat>, now: int)
    | Request(group: Id, requester: Id, wanted: Id, clock: int)
    | PickUpWelcomes(who: Id, read: seq<ConsumedWelcome>)
    | PickUpRequests(where: Id, handled: seq<ConsumedRequest>)
    | Expire(threshold: int)

  function Take(q: Queues, s: Step): Queues {
    match s
    case Invite(target, ref, bytes, after, now) =>
      q.(welcomes := AddWelcome(q.welcomes, Welcome(target, ref, bytes, now, after)).0)
    case Request(group, requester, wanted, clock) =>
      var added := AddRequest(q.requests, JoinRequest(group, requester, wanted, clock));
      if added.Ok? then q.(requests := added.value) else q
    case PickUpWelcomes(who, read) => q.(welcomes := RetireWelcomes(q.welcomes, who, read))
    case PickUpRequests(where, handled) => q.(requests := RetireRequests(q.requests, where, handled))
    case Expire(threshold) =>
      if threshold <= 0 then q
      else Queues(FreshWelcomes(q.welcomes, threshold), FreshRequests(q.requests, threshold))
  }

  /** Picking up and expiring are the storage's operations on these two queues. */
  lemma StepsAreOperations(q: Queues, s: Step)
    ensures var rows := Rows([], q.welcomes, q.requests, []);
            match s
            case PickUpWelcomes(who, read) => Take(q, s).welcomes == Perform(rows, FetchWelcomes(who, read)).0.welcomes
            case PickUpRequests(where, handled) => Take(q, s).requests == Perform(rows, FetchRequests(where, handled)).0.requests
            case Expire(threshold) =>
              Take(q, s) == Queues(Perform(rows, ExpireWelcomes(threshold)).0.welcomes, Perform(rows, ExpireRequests(threshold)).0.requests)
            case _ => true
  {
  }

  function TakeAll(q: Queues, steps: seq<Step>): Queues {
    if steps == [] then q else Take(TakeAll(q, steps[..|steps| - 1]), steps[|steps| - 1])
  }

  ghost predicate Orderly(q: Queues) { Told(q.welcomes) && OnePerRequester(q.requests) && Bounded(q.requests) }

  lemma TakeKeeps(q: Queues, s: Step)
    requires Orderly(q)
    ensures Orderly(Take(q, s))
  {
    hide Told, OnePerRequester, Bounded;
    match s {
      case Invite(target, ref, bytes, after, now) =>
        AddWelcomeKeepsTold(q.welcomes, Welcome(target, ref, bytes, now, after));
      case Request(group, requester, wanted, clock) =>
        var r := JoinRequest(group, requester, wanted, RequestStamp(q.requests, group, requester, clock));
        if StoreRequest(q.requests, r).Ok? {
          StoreRequestKeeps(q.requests, r);
        }
      case PickUpWelcomes(who, read) =>
        FilterKeepsTold(q.welcomes, (w: Welcome) => !(w.target == who && RetiredWelcome(w, read)));
      case PickUpRequests(where, handled) =>
        FilterKeepsRequests(q.requests, (r: JoinRequest) => !(r.group == where && RetiredRequest(r, handled)));
      case Expire(threshold) =>
        FilterKeepsTold(q.welcomes, (w: Welcome) => w.at >= threshold);
        FilterKeepsRequests(q.requests, (r: JoinRequest) => r.at >= threshold);
    }
  }

  /**
   * For any clock: pending Welcomes of a target never share an acknowledgement
   * nor say the same twice, a group holds at most one request per requester and
   * at most a hundred.
   */
  lemma {:induction false} AcksNameOneRecord(steps: seq<Step>)
    ensures Orderly(TakeAll(Queues([], []), steps))
  {
    if steps != [] {
      AcksNameOneRecord(steps[..|steps| - 1]);
      TakeKeeps(TakeAll(Queues([], []), steps[..|steps| - 1]), steps[|steps| - 1]);
    } else {
      assert forall g: Id :: RequestsFor([], g) == [];
    }
  }

  // ---------------------------------------------------------------------
  // Re-requests against earlier acknowledgements
  // ---------------------------------------------------------------------

  /** The pending request of a requester in a group, if there is one. */
  function PendingAsk(rows: seq<JoinRequest>, group: Id, requester: Id): Option<JoinRequest> {
    if rows == [] then None
    else if rows[0].group == group && rows[0].requester == requester then Some(rows[0])
    else PendingAsk(rows[1..], group, requester)
  }

  lemma {:induction false} PendingAskFinds(rows: seq<JoinRequest>, group: Id, requester: Id)
    ensures match PendingAsk(rows, group, requester)
            case Some(r) => r in rows && r.group == group && r.requester == requester
            case None => forall r | r in rows :: !(r.group == group && r.requester == requester)
  {
    if rows != [] {
      PendingAskFinds(rows[1..], group, requester);
    }
  }

  lemma {:induction false} RefreshedAsk(rows: seq<JoinRequest>, r: JoinRequest, group: Id, requester: Id)
    ensures var now := PendingAsk(Refreshed(rows, r), group, requester);
            if r.group == group && r.requester == requester
            then now == if Asked(rows, r) then Some(r) else None
            else now == PendingAsk(rows, group, requester)
  {
    if rows != [] {
      RefreshedAsk(rows[1..], r, group, requester);
      assert Refreshed(rows, r)[1..] == Refreshed(rows[1..], r);
      assert Asked(rows, r) <==> SameAsk(rows[0], r) || Asked(rows[1..], r) by {
        if Asked(rows, r) {
          var i :| 0 <= i < |rows| && SameAsk(rows[i], r);
          assert i > 0 ==> rows[1..][i - 1] == rows[i];
        }
        if Asked(rows[1..], r) {
          var i :| 0 <= i < |rows| - 1 && SameAsk(rows[1..][i], r);
          assert rows[i + 1] == rows[1..][i];
        }
      }
    }
  }

  lemma {:induction false} AppendedAsk(rows: seq<JoinRequest>, r: JoinRequest, group: Id, requester: Id)
    ensures PendingAsk(rows + [r], group, requester)
         == if PendingAsk(rows, group, requester).Some? then PendingAsk(rows, group, requester)
            else if r.group == group && r.requester == requester then Some(r) else None
  {
    if rows != [] {
      assert (rows + [r])[1..] == rows[1..] + [r];
      AppendedAsk(rows[1..], r, group, requester);
    }
  }

  /** Asking again while a request is pending replaces it, under any clock, by one with a strictly greater stamp. */
  lemma AskingAgainRaisesStamp(rows: seq<JoinRequest>, group: Id, requester: Id, wanted: Id, clock: int)
    requires PendingAsk(rows, group, requester).Some?
    ensures var added := AddRequest(rows, JoinRequest(group, requester, wanted, clock));
            && added.Ok?
            && PendingAsk(added.value, group, requester).Some?
            && PendingAsk(added.value, group, requester).value.ref == wanted
            && PendingAsk(added.value, group, requester).value.at > PendingAsk(rows, group, requester).value.at
  {
    var stamp := RequestStamp(rows, group, requester, clock);
    var r := JoinRequest(group, requester, wanted, stamp);
    PendingAskFinds(rows, group, requester);
    RequestStampIsNew(rows, group, requester, clock);
    var was := PendingAsk(rows, group, requester).value;
    var i :| 0 <= i < |rows| && rows[i] == was;
    assert SameAsk(rows[i], r);
    RefreshedAsk(rows, r, group, requester);
  }

  /** The row of a requester stays pending throughout a run. */
  ghost predicate StaysPending(q: Queues, steps: seq<Step>, group: Id, requester: Id) {
    forall i :: 0 <= i <= |steps| ==> PendingAsk(TakeAll(q, steps[..i]).requests, group, requester).Some?
  }

  lemma {:induction false} FilteredAsk(rows: seq<JoinRequest>, keep: JoinRequest -> bool, group: Id, requester: Id)
    requires OnePerRequester(rows)
    ensures var was := PendingAsk(rows, group, requester);
            PendingAsk(Filter(rows, keep), group, requester) == if was.Some? && keep(was.value) then was else None
  {
    if rows != [] {
      assert forall i, j :: 0 <= i < j < |rows| - 1 ==> rows[1..][i] == rows[i + 1] && rows[1..][j] == rows[j + 1];
      FilteredAsk(rows[1..], keep, group, requester);
      PendingAskFinds(rows[1..], group, requester);
      if rows[0].group == group && rows[0].requester == requester {
        forall k | 0 <= k < |rows| - 1
          ensures !(rows[1..][k].group == group && rows[1..][k].requester == requester)
        {
          assert !SameAsk(rows[0], rows[k + 1]);
        }
      }
      var tail := Filter(rows[1..], keep);
      assert Filter(rows, keep) == if keep(rows[0]) then [rows[0]] + tail else tail;
      assert ([rows[0]] + tail)[1..] == tail;
    }
  }

  lemma StampNeverFalls(q: Queues, s: Step, group: Id, requester: Id)
    requires Orderly(q) && PendingAsk(q.requests, group, requester).Some?
    requires PendingAsk(Take(q, s).requests, group, requester).Some?
    ensures PendingAsk(Take(q, s).requests, group, requester).value.at >= PendingAsk(q.requests, group, requester).value.at
  {
    match s {
      case Request(g, p, wanted, clock) =>
        if g == group && p == requester {
          AskingAgainRaisesStamp(q.requests, group, requester, wanted, clock);
        } else {
          var r := JoinRequest(g, p, wanted, RequestStamp(q.requests, g, p, clock));
          RefreshedAsk(q.requests, r, group, requester);
          AppendedAsk(q.requests, r, group, requester);
        }
      case PickUpRequests(where, handled) =>
        FilteredAsk(q.requests, (r: JoinRequest) => !(r.group == where && RetiredRequest(r, handled)), group, requester);
      case Expire(threshold) =>
        FilteredAsk(q.requests, (r: JoinRequest) => r.at >= threshold, group, requester);
      case _ =>
    }
  }

  lemma {:induction false} StampsRise(q: Queues, steps: seq<Step>, group: Id, requester: Id)
    requires Orderly(q) && StaysPending(q, steps, group, requester)
    ensures Orderly(TakeAll(q, steps))
    ensures PendingAsk(q.requests, group, requester).Some? && PendingAsk(TakeAll(q, steps).requests, group, requester).Some?
    ensures PendingAsk(TakeAll(q, steps).requests, group, requester).value.at >= PendingAsk(q.requests, group, requester).value.at
  {
    assert steps[..0] == [] && steps[..|steps|] == steps;
    if steps != [] {
      var front := steps[..|steps| - 1];
      forall i | 0 <= i <= |front|
        ensures front[..i] == steps[..i]
      {
      }
      StampsRise(q, front, group, requester);
      assert PendingAsk(TakeAll(q, steps[..|front|]).requests, group, requester).Some?;
      TakeKeeps(TakeAll(q, front), steps[|front|]);
      StampNeverFalls(TakeAll(q, front), steps[|front|], group, requester);
    }
  }

  /**
   * While a requester's row stays pending, an acknowledgement from any earlier
   * fetch does not retire the row that a later re-request leaves, whatever the
   * clock showed in between.
   */
  lemma EarlierAckSparesRefreshed(q: Queues, steps: seq<Step>, group: Id, requester: Id, wanted: Id, clock: int)
    requires Orderly(q) && StaysPending(q, steps, group, requester)
    ensures PendingAsk(q.requests, group, requester).Some?
    ensures var fetched := PendingAsk(q.requests, group, requester);
            var after := Take(TakeAll(q, steps), Request(group, requester, wanted, clock));
            var acked := Take(after, PickUpRequests(group, [ConsumedRequest(requester, fetched.value.at)]));
            && PendingAsk(acked.requests, group, requester) == PendingAsk(after.requests, group, requester)
            && PendingAsk(acked.requests, group, requester).Some?
            && PendingAsk(acked.requests, group, requester).value.ref == wanted
  {
    StampsRise(q, steps, group, requester);
    var before := TakeAll(q, steps);
    var fetched := PendingAsk(q.requests, group, requester).value;
    AskingAgainRaisesStamp(before.requests, group, requester, wanted, clock);
    TakeKeeps(before, Request(group, requester, wanted, clock));
    var after := Take(before, Request(group, requester, wanted, clock));
    var consumed := [ConsumedRequest(requester, fetched.at)];
    FilteredAsk(after.requests, (r: JoinRequest) => !(r.group == group && RetiredRequest(r, consumed)), group, requester);
    PendingAskFinds(after.requests, group, requester);
  }

  /**
   * Once the row has been retired, the next request is stamped with the bare
   * clock: an old acknowledgement sent again retires it if and only if the clock
   * shows exactly the old stamp.
   */
  lemma OldAckHitsNewRowIff(q: Queues, group: Id, requester: Id, wanted: Id, clock: int, earlier: int)
    requires Orderly(q) && PendingAsk(q.requests, group, requester).None?
    requires |RequestsFor(q.requests, group)| < MAX_PENDING_REQUESTS
    ensures var after := Take(q, Request(group, requester, wanted, clock));
            var acked := Take(after, PickUpRequests(group, [ConsumedRequest(requester, earlier)]));
            && PendingAsk(after.requests, group, requester) == Some(JoinRequest(group, requester, wanted, clock))
            && (PendingAsk(acked.requests, group, requester).None? <==> clock == earlier)
  {
    PendingAskFinds(q.requests, group, requester);
    RequestStampIsNew(q.requests, group, requester, clock);
    var r := JoinRequest(group, requester, wanted, clock);
    assert !Asked(q.requests, r);
    AppendedAsk(q.requests, r, group, requester);
    TakeKeeps(q, Request(group, requester, wanted, clock));
    var consumed := [ConsumedRequest(requester, earlier)];
    FilteredAsk(q.requests + [r], (x: JoinRequest) => !(x.group == group && RetiredRequest(x, consumed)), group, requester);
  }
}
