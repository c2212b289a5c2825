/**
 * What the coordinator's storage means, whichever backend keeps it: four tables
 * whose rows stand in the order they were inserted, and what every operation
 * does to them and answers.
 */
module Storage {
  import opened Base

  /** Public keys, key package references and group ids are all strings. */
  type Id = nat

  datatype KeyPackage = KeyPackage(owner: Id, ref: Id, lastResort: bool, at: int, blob: nat)

  datatype Welcome = Welcome(target: Id, ref: Id, bytes: nat, at: int, after: Option<nat>)

  datatype JoinRequest = JoinRequest(group: Id, requester: Id, ref: Id, at: int)

  datatype GroupMessage = GroupMessage(cursor: nat, group: Id, payload: nat, at: int)

  datatype ConsumedWelcome = ConsumedWelcome(ref: Id, at: int)

  datatype ConsumedRequest = ConsumedRequest(requester: Id, at: int)

  datatype Rows = Rows(
    keyPackages: seq<KeyPackage>, welcomes: seq<Welcome>, requests: seq<JoinRequest>, messages: seq<GroupMessage>)

  const MAX_PENDING_REQUESTS := 100

  const MAX_SAFE_INTEGER := 9007199254740991

  // ---------------------------------------------------------------------
  // Key packages
  // ---------------------------------------------------------------------

  function OwnedBy(rows: seq<KeyPackage>, owner: Id): seq<KeyPackage> { Filter(rows, (k: KeyPackage) => k.owner == owner) }

  function Regulars(rows: seq<KeyPackage>): seq<KeyPackage> { Filter(rows, (k: KeyPackage) => !k.lastResort) }

  function LastResorts(rows: seq<KeyPackage>): seq<KeyPackage> { Filter(rows, (k: KeyPackage) => k.lastResort) }

  function Without(rows: seq<KeyPackage>, ref: Id): seq<KeyPackage> { Filter(rows, (k: KeyPackage) => k.ref != ref) }

  function ByRef(rows: seq<KeyPackage>, ref: Id): Option<KeyPackage> {
    if rows == [] then None
    else if rows[0].ref == ref then Some(rows[0])
    else ByRef(rows[1..], ref)
  }

  predicate UniqueRefs(rows: seq<KeyPackage>) {
    forall i, j :: 0 <= i < j < |rows| ==> rows[i].ref != rows[j].ref
  }

  /** Regular key packages go first, oldest first; without one, the newest last-resort package. */
  function Preferred(owned: seq<KeyPackage>): Option<KeyPackage> {
    if Regulars(owned) != [] then Some(Regulars(owned)[0])
    else if owned != [] then Some(owned[|owned| - 1])
    else None
  }

  /** Hand out a key package; a regular one is gone afterwards, a last-resort one stays. */
  function Spend(rows: seq<KeyPackage>, k: Option<KeyPackage>): (seq<KeyPackage>, Option<KeyPackage>) {
    (if k.Some? && !k.value.lastResort then Without(rows, k.value.ref) else rows, k)
  }

  /** The identifier is tried as a reference first, then as an identity. */
  function Consume(rows: seq<KeyPackage>, identifier: Id): (seq<KeyPackage>, Option<KeyPackage>) {
    var direct := ByRef(rows, identifier);
    Spend(rows, if direct.Some? then direct else Preferred(OwnedBy(rows, identifier)))
  }

  // ---------------------------------------------------------------------
  // Welcomes and join requests
  // ---------------------------------------------------------------------

  function WelcomesFor(rows: seq<Welcome>, target: Id): seq<Welcome> { Filter(rows, (w: Welcome) => w.target == target) }

  predicate RetiredWelcome(w: Welcome, consumed: seq<ConsumedWelcome>) { ConsumedWelcome(w.ref, w.at) in consumed }

  function RetireWelcomes(rows: seq<Welcome>, target: Id, consumed: seq<ConsumedWelcome>): seq<Welcome> {
    Filter(rows, (w: Welcome) => !(w.target == target && RetiredWelcome(w, consumed)))
  }

  function FreshWelcomes(rows: seq<Welcome>, threshold: int): seq<Welcome> { Filter(rows, (w: Welcome) => w.at >= threshold) }

  function RequestsFor(rows: seq<JoinRequest>, group: Id): seq<JoinRequest> {
    Filter(rows, (r: JoinRequest) => r.group == group)
  }

  predicate SameAsk(a: JoinRequest, b: JoinRequest) { a.group == b.group && a.requester == b.requester }

  predicate RetiredRequest(r: JoinRequest, consumed: seq<ConsumedRequest>) { ConsumedRequest(r.requester, r.at) in consumed }

  function RetireRequests(rows: seq<JoinRequest>, group: Id, consumed: seq<ConsumedRequest>): seq<JoinRequest> {
    Filter(rows, (r: JoinRequest) => !(r.group == group && RetiredRequest(r, consumed)))
  }

  function FreshRequests(rows: seq<JoinRequest>, threshold: int): seq<JoinRequest> {
    Filter(rows, (r: JoinRequest) => r.at >= threshold)
  }

  predicate Asked(rows: seq<JoinRequest>, r: JoinRequest) { exists i :: 0 <= i < |rows| && SameAsk(rows[i], r) }

  /** A repeated request takes the place of the earlier one. */
  function Refreshed(rows: seq<JoinRequest>, r: JoinRequest): seq<JoinRequest> {
    if rows == [] then [] else [if SameAsk(rows[0], r) then r else rows[0]] + Refreshed(rows[1..], r)
  }

  datatype StorageError = TooManyRequests | DuplicateRef | NoCursorLeft

  function StoreRequest(rows: seq<JoinRequest>, r: JoinRequest): Result<seq<JoinRequest>, StorageError> {
    if Asked(rows, r) then Ok(Refreshed(rows, r))
    else if |RequestsFor(rows, r.group)| >= MAX_PENDING_REQUESTS then Err(TooManyRequests)
    else Ok(rows + [r])
  }

  // ---------------------------------------------------------------------
  // Messages
  // ---------------------------------------------------------------------

  function MessagesOf(rows: seq<GroupMessage>, group: Id): seq<GroupMessage> {
    Filter(rows, (m: GroupMessage) => m.group == group)
  }

  function NextMessage(rows: seq<GroupMessage>, group: Id, payload: nat, at: int): GroupMessage {
    GroupMessage(|MessagesOf(rows, group)| + 1, group, payload, at)
  }

  datatype Ask = Ask(group: Id, after: Option<nat>)

  predicate Wanted(m: GroupMessage, ask: Ask) { m.group == ask.group && (ask.after.Some? ==> m.cursor > ask.after.value) }

  function FetchMessages(rows: seq<GroupMessage>, ask: Ask): seq<GroupMessage> {
    Filter(rows, (m: GroupMessage) => Wanted(m, ask))
  }

  function FetchMany(rows: seq<GroupMessage>, asks: seq<Ask>): seq<GroupMessage> {
    if asks == [] then [] else FetchMessages(rows, asks[0]) + FetchMany(rows, asks[1..])
  }

  /** The last cursor of a group, if it has one. */
  function Routing(rows: seq<GroupMessage>, group: Id): Option<nat> {
    if MessagesOf(rows, group) == [] then None else Some(|MessagesOf(rows, group)|)
  }

  /** Every group counts its messages 1, 2, 3, ... in the order they were stored. */
  ghost predicate Dense(rows: seq<GroupMessage>) {
    forall g: Id, i | 0 <= i < |MessagesOf(rows, g)| :: MessagesOf(rows, g)[i].cursor == i + 1
  }

  // ---------------------------------------------------------------------
  // Several groups' join requests at once
  // ---------------------------------------------------------------------

  datatype ConsumedInGroup = ConsumedInGroup(group: Id, consumed: ConsumedRequest)

  function ConsumedOf(all: seq<ConsumedInGroup>, group: Id): seq<ConsumedRequest> {
    if all == [] then []
    else (if all[0].group == group then [all[0].consumed] else []) + ConsumedOf(all[1..], group)
  }

  function RetireMany(rows: seq<JoinRequest>, groups: seq<Id>, all: seq<ConsumedInGroup>): seq<JoinRequest>
    decreases groups
  {
    if groups == [] then rows else RetireMany(RetireRequests(rows, groups[0], ConsumedOf(all, groups[0])), groups[1..], all)
  }

  function RequestsOfMany(rows: seq<JoinRequest>, groups: seq<Id>): seq<JoinRequest> {
    if groups == [] then [] else RequestsFor(rows, groups[0]) + RequestsOfMany(rows, groups[1..])
  }

  // ---------------------------------------------------------------------
  // Operations
  // ---------------------------------------------------------------------

  datatype Op =
    | PublishKeyPackage(keyPackage: KeyPackage)
    | ListKeyPackages(owner: Id)
    | ListAll
    | GetKeyPackage(ref: Id)
    | RemoveKeyPackage(ref: Id)
    | ConsumeKeyPackage(identifier: Id)
    | StoreWelcome(welcome: Welcome)
    | FetchWelcomes(target: Id, consumed: seq<ConsumedWelcome>)
    | ExpireWelcomes(threshold: int)
    | StoreJoinRequest(request: JoinRequest)
    | FetchRequests(group: Id, handled: seq<ConsumedRequest>)
    | FetchManyRequests(groups: seq<Id>, all: seq<ConsumedInGroup>)
    | ExpireRequests(threshold: int)
    | AppendMessage(group: Id, payload: nat, at: int)
    | FetchGroupMessages(ask: Ask)
    | FetchManyMessages(asks: seq<Ask>)
    | GetRouting(group: Id)

  datatype Answer =
    | Stored
    | KeyPackages(list: seq<KeyPackage>)
    | AllKeyPackages(contents: multiset<KeyPackage>)
    | Found(keyPackage: Option<KeyPackage>)
    | Welcomes(welcomes: seq<Welcome>)
    | Requests(requests: seq<JoinRequest>)
    | Deleted(count: nat)
    | Messages(messages: seq<GroupMessage>)
    | Routed(last: Option<nat>)
    | Failed(error: StorageError)

  function Perform(rows: Rows, op: Op): (Rows, Answer) {
    match op
    case PublishKeyPackage(k) => (rows.(keyPackages := rows.keyPackages + [k]), Stored)
    case ListKeyPackages(owner) => (rows, KeyPackages(OwnedBy(rows.keyPackages, owner)))
    case ListAll => (rows, AllKeyPackages(multiset(rows.keyPackages)))
    case GetKeyPackage(ref) => (rows, Found(ByRef(rows.keyPackages, ref)))
    case RemoveKeyPackage(ref) => (rows.(keyPackages := Without(rows.keyPackages, ref)), Found(ByRef(rows.keyPackages, ref)))
    case ConsumeKeyPackage(id) =>
      var (left, k) := Consume(rows.keyPackages, id);
      (rows.(keyPackages := left), Found(k))
    case StoreWelcome(w) => (rows.(welcomes := rows.welcomes + [w]), Stored)
    case FetchWelcomes(target, consumed) =>
      var left := RetireWelcomes(rows.welcomes, target, consumed);
      (rows.(welcomes := left), Welcomes(WelcomesFor(left, target)))
    case ExpireWelcomes(threshold) =>
      if threshold <= 0 then (rows, Deleted(0))
      else
        var left := FreshWelcomes(rows.welcomes, threshold);
        FilterShorter(rows.welcomes, (w: Welcome) => w.at >= threshold);
        (rows.(welcomes := left), Deleted(|rows.welcomes| - |left|))
    case StoreJoinRequest(r) =>
      var stored := StoreRequest(rows.requests, r);
      if stored.Err? then (rows, Failed(stored.error)) else (rows.(requests := stored.value), Requests([r]))
    case FetchRequests(group, handled) =>
      var left := RetireRequests(rows.requests, group, handled);
      (rows.(requests := left), Requests(RequestsFor(left, group)))
    case FetchManyRequests(groups, all) =>
      var left := RetireMany(rows.requests, groups, all);
      (rows.(requests := left), Requests(RequestsOfMany(left, groups)))
    case ExpireRequests(threshold) =>
      if threshold <= 0 then (rows, Deleted(0))
      else
        var left := FreshRequests(rows.requests, threshold);
        FilterShorter(rows.requests, (r: JoinRequest) => r.at >= threshold);
        (rows.(requests := left), Deleted(|rows.requests| - |left|))
    case AppendMessage(group, payload, at) =>
      var m := NextMessage(rows.messages, group, payload, at);
      (rows.(messages := rows.messages + [m]), Messages([m]))
    case FetchGroupMessages(ask) => (rows, Messages(FetchMessages(rows.messages, ask)))
    case FetchManyMessages(asks) => (rows, Messages(FetchMany(rows.messages, asks)))
    case GetRouting(group) => (rows, Routed(Routing(rows.messages, group)))
  }

  // What single operations do, for proofs that keep `Perform` folded.

  lemma PublishIs(rows: Rows, k: KeyPackage)
    ensures Perform(rows, PublishKeyPackage(k)) == (rows.(keyPackages := rows.keyPackages + [k]), Stored)
  {
  }

  lemma RemoveIs(rows: Rows, ref: Id)
    ensures Perform(rows, RemoveKeyPackage(ref))
         == (rows.(keyPackages := Without(rows.keyPackages, ref)), Found(ByRef(rows.keyPackages, ref)))
  {
  }

  lemma StoreRequestIs(rows: Rows, r: JoinRequest)
    ensures var stored := StoreRequest(rows.requests, r);
            Perform(rows, StoreJoinRequest(r))
              == if stored.Err? then (rows, Failed(stored.error)) else (rows.(requests := stored.value), Requests([r]))
  {
  }

  lemma FetchManyIs(rows: Rows, groups: seq<Id>, all: seq<ConsumedInGroup>)
    ensures var left := RetireMany(rows.requests, groups, all);
            Perform(rows, FetchManyRequests(groups, all)) == (rows.(requests := left), Requests(RequestsOfMany(left, groups)))
  {
  }

  lemma FetchWelcomesIs(rows: Rows, target: Id, consumed: seq<ConsumedWelcome>)
    ensures var left := RetireWelcomes(rows.welcomes, target, consumed);
            Perform(rows, FetchWelcomes(target, consumed)) == (rows.(welcomes := left), Welcomes(WelcomesFor(left, target)))
  {
  }

  lemma FetchRequestsIs(rows: Rows, group: Id, handled: seq<ConsumedRequest>)
    ensures var left := RetireRequests(rows.requests, group, handled);
            Perform(rows, FetchRequests(group, handled)) == (rows.(requests := left), Requests(RequestsFor(left, group)))
  {
  }

  lemma ExpireWelcomesIs(rows: Rows, threshold: int)
    requires threshold > 0
    ensures var left := FreshWelcomes(rows.welcomes, threshold);
            |left| <= |rows.welcomes|
            && Perform(rows, ExpireWelcomes(threshold)) == (rows.(welcomes := left), Deleted(|rows.welcomes| - |left|))
  {
    FilterShorter(rows.welcomes, (w: Welcome) => w.at >= threshold);
  }

  lemma AppendMessageIs(rows: Rows, group: Id, payload: nat, at: int)
    ensures var m := NextMessage(rows.messages, group, payload, at);
            Perform(rows, AppendMessage(group, payload, at)) == (rows.(messages := rows.messages + [m]), Messages([m]))
  {
  }

  lemma ExpireRequestsIs(rows: Rows, threshold: int)
    requires threshold > 0
    ensures var left := FreshRequests(rows.requests, threshold);
            |left| <= |rows.requests|
            && Perform(rows, ExpireRequests(threshold))
                 == (rows.(requests := left), Deleted(|rows.requests| - |left|))
  {
    FilterShorter(rows.requests, (r: JoinRequest) => r.at >= threshold);
  }

  const EMPTY := Rows([], [], [], [])

  function RowsAfter(ops: seq<Op>): Rows {
    if ops == [] then EMPTY else Perform(RowsAfter(ops[..|ops| - 1]), ops[|ops| - 1]).0
  }

  /** A key package is published only while none with its reference is stored. */
  predicate FreshRef(rows: Rows, op: Op) {
    op.PublishKeyPackage? ==> ByRef(rows.keyPackages, op.keyPackage.ref).None?
  }

  ghost predicate FreshRefs(ops: seq<Op>) {
    forall i :: 0 <= i < |ops| ==> FreshRef(RowsAfter(ops[..i]), ops[i])
  }

  // ---------------------------------------------------------------------
  // What every operation keeps
  // ---------------------------------------------------------------------

  ghost predicate OnePerRequester(rows: seq<JoinRequest>) {
    forall i, j :: 0 <= i < j < |rows| ==> !SameAsk(rows[i], rows[j])
  }

  ghost predicate Bounded(rows: seq<JoinRequest>) { forall g: Id :: |RequestsFor(rows, g)| <= MAX_PENDING_REQUESTS }

  ghost predicate Kept(rows: Rows) {
    UniqueRefs(rows.keyPackages) && OnePerRequester(rows.requests) && Bounded(rows.requests) && Dense(rows.messages)
  }

  lemma {:induction false} ByRefFinds(rows: seq<KeyPackage>, ref: Id)
    ensures match ByRef(rows, ref)
            case None => forall k | k in rows :: k.ref != ref
            case Some(k) => k in rows && k.ref == ref
  {
    if rows != [] {
      ByRefFinds(rows[1..], ref);
    }
  }

  /** With unique references the order in which the rows are searched does not matter. */
  lemma ByRefUnique(rows: seq<KeyPackage>, k: KeyPackage)
    requires UniqueRefs(rows) && k in rows
    ensures ByRef(rows, k.ref) == Some(k)
  {
    ByRefFinds(rows, k.ref);
    var found := ByRef(rows, k.ref).value;
    var i :| 0 <= i < |rows| && rows[i] == k;
    var j :| 0 <= j < |rows| && rows[j] == found;
  }

  /** Whatever holds of every pair of rows still holds after rows are dropped. */
  lemma {:induction false} FilterKeepsPairs<T>(s: seq<T>, keep: T -> bool, rel: (T, T) -> bool)
    requires forall i, j :: 0 <= i < j < |s| ==> rel(s[i], s[j])
    ensures forall i, j :: 0 <= i < j < |Filter(s, keep)| ==> rel(Filter(s, keep)[i], Filter(s, keep)[j])
  {
    if s != [] {
      var tail := s[1..];
      assert forall i, j :: 0 <= i < j < |tail| ==> tail[i] == s[i + 1] && tail[j] == s[j + 1];
      FilterKeepsPairs(tail, keep, rel);
      forall j | 0 <= j < |Filter(tail, keep)|
        ensures rel(s[0], Filter(tail, keep)[j])
      {
        FilterIn(tail, keep, Filter(tail, keep)[j]);
        var k :| 0 <= k < |tail| && tail[k] == Filter(tail, keep)[j];
      }
    }
  }

  /** Deleting one row by id is dropping its reference, since references are unique. */
  lemma {:induction false} DropRow(rows: seq<KeyPackage>, i: nat)
    requires UniqueRefs(rows) && i < |rows|
    ensures Without(rows, rows[i].ref) == rows[..i] + rows[i + 1..]
  {
    if i == 0 {
      FilterAll(rows[1..], (k: KeyPackage) => k.ref != rows[0].ref);
    } else {
      assert rows[0].ref != rows[i].ref && rows[1..][i - 1] == rows[i];
      DropRow(rows[1..], i - 1);
      assert rows[..i] + rows[i + 1..] == [rows[0]] + (rows[1..][..i - 1] + rows[1..][i..]);
    }
  }

  lemma FilterKeepsUnique(rows: seq<KeyPackage>, keep: KeyPackage -> bool)
    requires UniqueRefs(rows)
    ensures UniqueRefs(Filter(rows, keep))
  {
    FilterKeepsPairs(rows, keep, (a: KeyPackage, b: KeyPackage) => a.ref != b.ref);
  }

  /** Dropping requests keeps one per requester and never fills a group. */
  lemma FilterKeepsRequests(rows: seq<JoinRequest>, keep: JoinRequest -> bool)
    requires OnePerRequester(rows) && Bounded(rows)
    ensures OnePerRequester(Filter(rows, keep)) && Bounded(Filter(rows, keep))
  {
    FilterKeepsPairs(rows, keep, (a: JoinRequest, b: JoinRequest) => !SameAsk(a, b));
    forall g: Id
      ensures |RequestsFor(Filter(rows, keep), g)| <= MAX_PENDING_REQUESTS
    {
      FilterCommutes(rows, keep, (r: JoinRequest) => r.group == g);
      FilterShorter(RequestsFor(rows, g), keep);
      assert |RequestsFor(rows, g)| <= MAX_PENDING_REQUESTS;
    }
  }

  lemma {:induction false} RetireManyKeeps(rows: seq<JoinRequest>, groups: seq<Id>, all: seq<ConsumedInGroup>)
    requires OnePerRequester(rows) && Bounded(rows)
    ensures OnePerRequester(RetireMany(rows, groups, all)) && Bounded(RetireMany(rows, groups, all))
    decreases groups
  {
    if groups != [] {
      var consumed := ConsumedOf(all, groups[0]);
      FilterKeepsRequests(rows, (r: JoinRequest) => !(r.group == groups[0] && RetiredRequest(r, consumed)));
      RetireManyKeeps(RetireRequests(rows, groups[0], consumed), groups[1..], all);
    }
  }

  lemma {:induction false} RefreshedShape(rows: seq<JoinRequest>, r: JoinRequest)
    ensures |Refreshed(rows, r)| == |rows|
    ensures forall i :: 0 <= i < |rows| ==> Refreshed(rows, r)[i] == if SameAsk(rows[i], r) then r else rows[i]
  {
    if rows != [] {
      RefreshedShape(rows[1..], r);
    }
  }

  lemma {:induction false} RefreshedKeepsCounts(rows: seq<JoinRequest>, r: JoinRequest, g: Id)
    ensures |RequestsFor(Refreshed(rows, r), g)| == |RequestsFor(rows, g)|
  {
    if rows != [] {
      RefreshedKeepsCounts(rows[1..], r, g);
      assert Refreshed(rows, r)[1..] == Refreshed(rows[1..], r);
    }
  }

  lemma StoreRequestKeeps(rows: seq<JoinRequest>, r: JoinRequest)
    requires OnePerRequester(rows) && Bounded(rows) && StoreRequest(rows, r).Ok?
    ensures OnePerRequester(StoreRequest(rows, r).value) && Bounded(StoreRequest(rows, r).value)
  {
    var after := StoreRequest(rows, r).value;
    if Asked(rows, r) {
      RefreshedShape(rows, r);
      hide RequestsFor;
      forall i, j | 0 <= i < j < |after|
        ensures !SameAsk(after[i], after[j])
      {
        assert !SameAsk(rows[i], rows[j]);
      }
      forall g: Id
        ensures |RequestsFor(after, g)| <= MAX_PENDING_REQUESTS
      {
        RefreshedKeepsCounts(rows, r, g);
        assert |RequestsFor(rows, g)| <= MAX_PENDING_REQUESTS;
      }
    } else {
      forall g: Id
        ensures |RequestsFor(after, g)| <= MAX_PENDING_REQUESTS
      {
        FilterAppend(rows, [r], (x: JoinRequest) => x.group == g);
        assert |RequestsFor(rows, g)| <= MAX_PENDING_REQUESTS;
      }
    }
  }

  lemma AppendKeepsDense(rows: seq<GroupMessage>, group: Id, payload: nat, at: int)
    requires Dense(rows)
    ensures Dense(rows + [NextMessage(rows, group, payload, at)])
  {
    var m := NextMessage(rows, group, payload, at);
    forall g: Id, i | 0 <= i < |MessagesOf(rows + [m], g)|
      ensures MessagesOf(rows + [m], g)[i].cursor == i + 1
    {
      FilterAppend(rows, [m], (x: GroupMessage) => x.group == g);
      if i < |MessagesOf(rows, g)| {
        assert MessagesOf(rows, g)[i].cursor == i + 1;
      }
    }
  }

  /** Every operation keeps references unique, one request per requester and at most a hundred per group, and dense cursors. */
  lemma PerformKeeps(rows: Rows, op: Op)
    requires Kept(rows) && FreshRef(rows, op)
    ensures Kept(Perform(rows, op).0)
  {
    hide UniqueRefs, OnePerRequester, Bounded, Dense;
    match op {
      case PublishKeyPackage(k) =>
        PublishKeepsUnique(rows.keyPackages, k);
      case RemoveKeyPackage(ref) =>
        FilterKeepsUnique(rows.keyPackages, (k: KeyPackage) => k.ref != ref);
      case ConsumeKeyPackage(id) =>
        var k := Consume(rows.keyPackages, id).1;
        if k.Some? {
          FilterKeepsUnique(rows.keyPackages, (x: KeyPackage) => x.ref != k.value.ref);
        }
      case StoreJoinRequest(r) =>
        if StoreRequest(rows.requests, r).Ok? {
          StoreRequestKeeps(rows.requests, r);
        }
      case FetchRequests(group, handled) =>
        FilterKeepsRequests(rows.requests, (r: JoinRequest) => !(r.group == group && RetiredRequest(r, handled)));
      case FetchManyRequests(groups, all) =>
        RetireManyKeeps(rows.requests, groups, all);
      case ExpireRequests(threshold) =>
        FilterKeepsRequests(rows.requests, (r: JoinRequest) => r.at >= threshold);
      case AppendMessage(group, payload, at) =>
        AppendKeepsDense(rows.messages, group, payload, at);
      case _ =>
    }
  }

  lemma PublishKeepsUnique(rows: seq<KeyPackage>, k: KeyPackage)
    requires UniqueRefs(rows) && ByRef(rows, k.ref).None?
    ensures UniqueRefs(rows + [k])
  {
    ByRefFinds(rows, k.ref);
    assert forall i :: 0 <= i < |rows| ==> rows[i] in rows;
  }

  lemma {:induction false} RunKeeps(ops: seq<Op>)
    requires FreshRefs(ops)
    ensures Kept(RowsAfter(ops))
  {
    if ops != [] {
      var n := |ops| - 1;
      forall i | 0 <= i < n
        ensures FreshRef(RowsAfter(ops[..n][..i]), ops[..n][i])
      {
        assert ops[..n][..i] == ops[..i];
      }
      RunKeeps(ops[..n]);
      PerformKeeps(RowsAfter(ops[..n]), ops[n]);
    }
  }

  // ---------------------------------------------------------------------
  // Which key package is handed out
  // ---------------------------------------------------------------------

  /**
   * Asked for an identity, the storage hands out one of its regular packages
   * whenever it has one, never removes a last-resort package, and leaves every
   * other package alone.
   */
  lemma ConsumeSpendsRegularsFirst(rows: seq<KeyPackage>, identity: Id)
    requires UniqueRefs(rows) && ByRef(rows, identity).None?
    ensures var (left, got) := Consume(rows, identity);
            && (got.None? <==> forall k | k in rows :: k.owner != identity)
            && (got.Some? ==> got.value in rows && got.value.owner == identity)
            && (got.Some? && got.value.lastResort <==>
                  (exists k :: k in rows && k.owner == identity) && forall k | k in rows && k.owner == identity :: k.lastResort)
            && forall k :: k in left <==> k in rows && !(got == Some(k) && !k.lastResort)
  {
    var owned := OwnedBy(rows, identity);
    var got := Consume(rows, identity).1;
    forall k: KeyPackage
      ensures k in owned <==> k in rows && k.owner == identity
      ensures k in Regulars(owned) <==> k in owned && !k.lastResort
      ensures got.Some? ==> (k in Without(rows, got.value.ref) <==> k in rows && k.ref != got.value.ref)
    {
      FilterIn(rows, (x: KeyPackage) => x.owner == identity, k);
      FilterIn(owned, (x: KeyPackage) => !x.lastResort, k);
      if got.Some? {
        FilterIn(rows, (x: KeyPackage) => x.ref != got.value.ref, k);
      }
    }
    if got.Some? {
      forall k | k in rows && k.ref == got.value.ref
        ensures k == got.value
      {
        ByRefUnique(rows, k);
        ByRefUnique(rows, got.value);
      }
    }
  }

  // ---------------------------------------------------------------------
  // Group logs
  // ---------------------------------------------------------------------

  /** A group's log is its messages past a cursor, and nothing of another group, in cursor order. */
  lemma FetchIsSuffix(rows: seq<GroupMessage>, group: Id, after: nat)
    requires Dense(rows)
    ensures FetchMessages(rows, Ask(group, None)) == MessagesOf(rows, group)
    ensures FetchMessages(rows, Ask(group, Some(after)))
         == if after <= |MessagesOf(rows, group)| then MessagesOf(rows, group)[after..] else []
  {
    var mine := MessagesOf(rows, group);
    var own, later := (m: GroupMessage) => m.group == group, (m: GroupMessage) => m.cursor > after;
    FilterSame(rows, (m: GroupMessage) => Wanted(m, Ask(group, None)), own);
    FilterBoth(rows, own, later, (m: GroupMessage) => Wanted(m, Ask(group, Some(after))));
    CutAt(mine, after);
  }

  lemma {:induction false} CutAt(mine: seq<GroupMessage>, after: nat)
    requires forall i :: 0 <= i < |mine| ==> mine[i].cursor == i + 1
    ensures Filter(mine, (m: GroupMessage) => m.cursor > after) == if after <= |mine| then mine[after..] else []
  {
    if mine != [] {
      var n := |mine| - 1;
      CutAt(mine[..n], after);
      FilterAppend(mine[..n], [mine[n]], (m: GroupMessage) => m.cursor > after);
      assert mine == mine[..n] + [mine[n]];
    }
  }
}
