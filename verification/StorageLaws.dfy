/**
 * The storage's operations told row by row: which rows survive an operation and
 * which are answered, in what order, with every condition written out on the
 * fields of the rows.
 */
module StorageLaws {
  import opened Base
  import opened Storage

  // ---------------------------------------------------------------------
  // Picking rows
  // ---------------------------------------------------------------------

  /** `part` is what is left of `whole` after dropping elements: the order stays. */
  predicate InOrder<T(==)>(part: seq<T>, whole: seq<T>)
    decreases whole
  {
    if part == [] then true
    else if whole == [] then false
    else if part[0] == whole[0] then InOrder(part[1..], whole[1..])
    else InOrder(part, whole[1..])
  }

  /** `part` has exactly those elements of `whole` that satisfy `keep`, as often and in the same order. */
  ghost predicate Exactly<T(!new)>(part: seq<T>, whole: seq<T>, keep: T -> bool) {
    InOrder(part, whole) && forall x :: multiset(part)[x] == if keep(x) then multiset(whole)[x] else 0
  }

  lemma {:induction false} FilterInOrder<T>(s: seq<T>, p: T -> bool)
    ensures InOrder(Filter(s, p), s)
  {
    if s != [] {
      FilterInOrder(s[1..], p);
      var rest := Filter(s[1..], p);
      if p(s[0]) {
        assert Filter(s, p)[0] == s[0] && Filter(s, p)[1..] == rest;
      } else {
        assert Filter(s, p) == rest;
        if rest != [] {
          FilterIn(s[1..], p, rest[0]);
          assert rest[0] != s[0];
        }
      }
    }
  }

  lemma {:induction false} FilterMultiplicity<T>(s: seq<T>, p: T -> bool, x: T)
    ensures multiset(Filter(s, p))[x] == if p(x) then multiset(s)[x] else 0
  {
    if s != [] {
      FilterMultiplicity(s[1..], p, x);
      assert s == [s[0]] + s[1..];
    }
  }

  lemma FilterIsExact<T(!new)>(s: seq<T>, p: T -> bool, keep: T -> bool)
    requires forall x | x in s :: p(x) == keep(x)
    ensures Exactly(Filter(s, p), s, keep)
  {
    FilterInOrder(s, p);
    forall x
      ensures multiset(Filter(s, p))[x] == if keep(x) then multiset(s)[x] else 0
    {
      FilterMultiplicity(s, p, x);
      assert x in s <==> multiset(s)[x] > 0;
    }
  }

  lemma FilterTwice<T(!new)>(s: seq<T>, p: T -> bool, q: T -> bool, keep: T -> bool)
    requires forall x | x in s :: keep(x) == (p(x) && q(x))
    ensures Exactly(Filter(Filter(s, p), q), s, keep)
  {
    FilterBoth(s, p, q, keep);
    FilterIsExact(s, keep, keep);
  }

  // ---------------------------------------------------------------------
  // Welcomes and join requests
  // ---------------------------------------------------------------------

  /** Some acknowledgement names this Welcome: its key package reference and its stamp, both. */
  predicate AckedWelcome(w: Welcome, acks: seq<ConsumedWelcome>) {
    exists c :: c in acks && c.ref == w.ref && c.at == w.at
  }

  predicate AckedRequest(r: JoinRequest, acks: seq<ConsumedRequest>) {
    exists c :: c in acks && c.requester == r.requester && c.at == r.at
  }

  /**
   * A fetch with acknowledgements deletes the target's Welcomes whose reference
   * and stamp are acknowledged, answers with the target's others in the order
   * they were stored, and touches nothing else.
   */
  lemma FetchingWelcomes(rows: Rows, target: Id, acks: seq<ConsumedWelcome>)
    ensures var (after, answer) := Perform(rows, FetchWelcomes(target, acks));
            && Exactly(after.welcomes, rows.welcomes, (w: Welcome) => !(w.target == target && AckedWelcome(w, acks)))
            && answer.Welcomes?
            && Exactly(answer.welcomes, rows.welcomes, (w: Welcome) => w.target == target && !AckedWelcome(w, acks))
            && after == rows.(welcomes := after.welcomes)
  {
    FetchWelcomesIs(rows, target, acks);
    forall w: Welcome
      ensures RetiredWelcome(w, acks) <==> AckedWelcome(w, acks)
    {
      assert RetiredWelcome(w, acks) ==> ConsumedWelcome(w.ref, w.at) in acks;
    }
    hide Perform, RetiredWelcome, AckedWelcome;
    FilterIsExact(rows.welcomes, (w: Welcome) => !(w.target == target && RetiredWelcome(w, acks)),
                  (w: Welcome) => !(w.target == target && AckedWelcome(w, acks)));
    FilterTwice(rows.welcomes, (w: Welcome) => !(w.target == target && RetiredWelcome(w, acks)), (w: Welcome) => w.target == target,
                (w: Welcome) => w.target == target && !AckedWelcome(w, acks));
  }

  lemma FetchingRequests(rows: Rows, group: Id, acks: seq<ConsumedRequest>)
    ensures var (after, answer) := Perform(rows, FetchRequests(group, acks));
            && Exactly(after.requests, rows.requests, (r: JoinRequest) => !(r.group == group && AckedRequest(r, acks)))
            && answer.Requests?
            && Exactly(answer.requests, rows.requests, (r: JoinRequest) => r.group == group && !AckedRequest(r, acks))
            && after == rows.(requests := after.requests)
  {
    FetchRequestsIs(rows, group, acks);
    forall r: JoinRequest
      ensures RetiredRequest(r, acks) <==> AckedRequest(r, acks)
    {
      assert RetiredRequest(r, acks) ==> ConsumedRequest(r.requester, r.at) in acks;
    }
    hide Perform, RetiredRequest, AckedRequest;
    FilterIsExact(rows.requests, (r: JoinRequest) => !(r.group == group && RetiredRequest(r, acks)),
                  (r: JoinRequest) => !(r.group == group && AckedRequest(r, acks)));
    FilterTwice(rows.requests, (r: JoinRequest) => !(r.group == group && RetiredRequest(r, acks)), (r: JoinRequest) => r.group == group,
                (r: JoinRequest) => r.group == group && !AckedRequest(r, acks));
  }

  /** One of the acknowledgements is for this request in its own group, and that group is among those asked for. */
  predicate AckedInGroup(r: JoinRequest, groups: seq<Id>, all: seq<ConsumedInGroup>) {
    r.group in groups && exists c :: c in all && c.group == r.group && c.consumed.requester == r.requester && c.consumed.at == r.at
  }

  lemma {:induction false} ConsumedOfIs(all: seq<ConsumedInGroup>, group: Id, c: ConsumedRequest)
    ensures c in ConsumedOf(all, group) <==> ConsumedInGroup(group, c) in all
  {
    if all != [] {
      ConsumedOfIs(all[1..], group, c);
    }
  }

  lemma {:induction false} RetiringMany(rows: seq<JoinRequest>, groups: seq<Id>, all: seq<ConsumedInGroup>)
    ensures Exactly(RetireMany(rows, groups, all), rows, (r: JoinRequest) => !AckedInGroup(r, groups, all))
    ensures RetireMany(rows, groups, all) == Filter(rows, (r: JoinRequest) => !AckedInGroup(r, groups, all))
    decreases groups
  {
    if groups == [] {
      FilterAll(rows, (r: JoinRequest) => !AckedInGroup(r, groups, all));
    } else {
      var consumed := ConsumedOf(all, groups[0]);
      var first := (r: JoinRequest) => !(r.group == groups[0] && RetiredRequest(r, consumed));
      var rest := (r: JoinRequest) => !AckedInGroup(r, groups[1..], all);
      RetiringMany(RetireRequests(rows, groups[0], consumed), groups[1..], all);
      forall r: JoinRequest
        ensures !AckedInGroup(r, groups, all) == (first(r) && rest(r))
      {
        ConsumedOfIs(all, groups[0], ConsumedRequest(r.requester, r.at));
        AckedHead(r, groups, all);
      }
      FilterBoth(rows, first, rest, (r: JoinRequest) => !AckedInGroup(r, groups, all));
    }
    FilterIsExact(rows, (r: JoinRequest) => !AckedInGroup(r, groups, all), (r: JoinRequest) => !AckedInGroup(r, groups, all));
  }

  lemma AckedHead(r: JoinRequest, groups: seq<Id>, all: seq<ConsumedInGroup>)
    requires groups != []
    ensures AckedInGroup(r, groups, all)
            <==> AckedInGroup(r, groups[1..], all)
                 || (r.group == groups[0] && ConsumedInGroup(groups[0], ConsumedRequest(r.requester, r.at)) in all)
  {
    if r.group == groups[0] && ConsumedInGroup(groups[0], ConsumedRequest(r.requester, r.at)) in all {
      assert AckedInGroup(r, groups, all);
    }
    if AckedInGroup(r, groups, all) {
      var c :| c in all && c.group == r.group && c.consumed.requester == r.requester && c.consumed.at == r.at;
      assert c == ConsumedInGroup(r.group, ConsumedRequest(r.requester, r.at));
    }
  }

  lemma {:induction false} RequestsBlock(rows: seq<JoinRequest>, groups: seq<Id>, more: seq<Id>)
    ensures RequestsOfMany(rows, groups + more) == RequestsOfMany(rows, groups) + RequestsOfMany(rows, more)
  {
    if groups == [] {
      assert groups + more == more;
    } else {
      assert (groups + more)[0] == groups[0] && (groups + more)[1..] == groups[1..] + more;
      RequestsBlock(rows, groups[1..], more);
      var head := RequestsFor(rows, groups[0]);
      assert head + (RequestsOfMany(rows, groups[1..]) + RequestsOfMany(rows, more))
          == (head + RequestsOfMany(rows, groups[1..])) + RequestsOfMany(rows, more);
    }
  }

  /**
   * A fetch for several groups deletes exactly the requests acknowledged in their
   * own group, and answers group by group in the order asked: the block of the
   * `i`-th group has the requests left in it, in the order they were stored.
   */
  lemma FetchingManyRequests(rows: Rows, groups: seq<Id>, all: seq<ConsumedInGroup>, i: nat)
    requires i < |groups|
    ensures var (after, answer) := Perform(rows, FetchManyRequests(groups, all));
            && Exactly(after.requests, rows.requests, (r: JoinRequest) => !AckedInGroup(r, groups, all))
            && after == rows.(requests := after.requests)
            && var left := after.requests;
               && answer == Requests(RequestsOfMany(left, groups[..i]) + RequestsFor(left, groups[i])
                                     + RequestsOfMany(left, groups[i + 1..]))
               && Exactly(RequestsFor(left, groups[i]), left, (r: JoinRequest) => r.group == groups[i])
  {
    FetchManyIs(rows, groups, all);
    RetiringMany(rows.requests, groups, all);
    var left := RetireMany(rows.requests, groups, all);
    OneBlock(left, groups, i);
    FilterIsExact(left, (r: JoinRequest) => r.group == groups[i], (r: JoinRequest) => r.group == groups[i]);
    hide *;
  }

  lemma OneBlock(left: seq<JoinRequest>, groups: seq<Id>, i: nat)
    requires i < |groups|
    ensures RequestsOfMany(left, groups)
         == RequestsOfMany(left, groups[..i]) + RequestsFor(left, groups[i]) + RequestsOfMany(left, groups[i + 1..])
  {
    hide RequestsFor;
    assert groups == groups[..i] + groups[i..] && groups[i..] == [groups[i]] + groups[i + 1..];
    RequestsBlock(left, groups[..i], groups[i..]);
  }

  predicate Outlived(at: int, threshold: int) { threshold > 0 && at < threshold }

  /** Expiry deletes the rows stamped before the threshold, and says how many; a threshold that is not positive deletes none. */
  lemma ExpiringWelcomes(rows: Rows, threshold: int)
    ensures var (after, answer) := Perform(rows, ExpireWelcomes(threshold));
            && Exactly(after.welcomes, rows.welcomes, (w: Welcome) => !Outlived(w.at, threshold))
            && |after.welcomes| <= |rows.welcomes| && answer == Deleted(|rows.welcomes| - |after.welcomes|)
            && after == rows.(welcomes := after.welcomes)
  {
    if threshold > 0 {
      ExpireWelcomesIs(rows, threshold);
      hide Perform, Exactly;
      FilterIsExact(rows.welcomes, (w: Welcome) => w.at >= threshold, (w: Welcome) => !Outlived(w.at, threshold));
    } else {
      FilterAll(rows.welcomes, (w: Welcome) => !Outlived(w.at, threshold));
      FilterIsExact(rows.welcomes, (w: Welcome) => !Outlived(w.at, threshold), (w: Welcome) => !Outlived(w.at, threshold));
      hide Exactly;
    }
  }

  lemma ExpiringRequests(rows: Rows, threshold: int)
    ensures var (after, answer) := Perform(rows, ExpireRequests(threshold));
            && Exactly(after.requests, rows.requests, (r: JoinRequest) => !Outlived(r.at, threshold))
            && |after.requests| <= |rows.requests| && answer == Deleted(|rows.requests| - |after.requests|)
            && after == rows.(requests := after.requests)
  {
    if threshold > 0 {
      ExpireRequestsIs(rows, threshold);
      hide Perform, Exactly;
      FilterIsExact(rows.requests, (r: JoinRequest) => r.at >= threshold, (r: JoinRequest) => !Outlived(r.at, threshold));
    } else {
      FilterAll(rows.requests, (r: JoinRequest) => !Outlived(r.at, threshold));
      FilterIsExact(rows.requests, (r: JoinRequest) => !Outlived(r.at, threshold), (r: JoinRequest) => !Outlived(r.at, threshold));
      hide Exactly;
    }
  }

  /** The requester has a request pending in the group. */
  predicate AskedBefore(rows: seq<JoinRequest>, group: Id, requester: Id) {
    exists x :: x in rows && x.group == group && x.requester == requester
  }

  /**
   * A join request takes the place of the requester's earlier one, whatever the
   * group holds; a new one is refused, without any effect, exactly when the group
   * holds a hundred, and goes last otherwise.
   */
  lemma AskingToJoin(rows: Rows, r: JoinRequest)
    ensures var (after, answer) := Perform(rows, StoreJoinRequest(r));
            && after == rows.(requests := after.requests)
            && (AskedBefore(rows.requests, r.group, r.requester) ==>
                  && answer == Requests([r]) && |after.requests| == |rows.requests|
                  && forall i :: 0 <= i < |rows.requests| ==>
                       after.requests[i] == if rows.requests[i].group == r.group && rows.requests[i].requester == r.requester
                                            then r else rows.requests[i])
            && (!AskedBefore(rows.requests, r.group, r.requester) ==>
                  if |Filter(rows.requests, (x: JoinRequest) => x.group == r.group)| >= 100
                  then after == rows && answer == Failed(TooManyRequests)
                  else after.requests == rows.requests + [r] && answer == Requests([r]))
  {
    StoreRequestIs(rows, r);
    RefreshedShape(rows.requests, r);
    AskedIs(rows.requests, r);
    hide Perform, Refreshed, Asked, AskedBefore;
    FilterSame(rows.requests, (x: JoinRequest) => x.group == r.group, (x: JoinRequest) => x.group == r.group);
  }

  lemma AskedIs(rows: seq<JoinRequest>, r: JoinRequest)
    ensures Asked(rows, r) <==> AskedBefore(rows, r.group, r.requester)
  {
    if Asked(rows, r) {
      var i :| 0 <= i < |rows| && SameAsk(rows[i], r);
      assert rows[i] in rows;
    }
    if AskedBefore(rows, r.group, r.requester) {
      var x :| x in rows && x.group == r.group && x.requester == r.requester;
      var i :| 0 <= i < |rows| && rows[i] == x;
      assert SameAsk(rows[i], r);
    }
  }

  // ---------------------------------------------------------------------
  // Key packages
  // ---------------------------------------------------------------------

  /** The first row of the identity that is no last resort. */
  predicate OldestRegular(rows: seq<KeyPackage>, owner: Id, i: nat) {
    && i < |rows| && rows[i].owner == owner && !rows[i].lastResort
    && forall j :: 0 <= j < i ==> !(rows[j].owner == owner && !rows[j].lastResort)
  }

  /** The last row of the identity. */
  predicate Newest(rows: seq<KeyPackage>, owner: Id, i: nat) {
    i < |rows| && rows[i].owner == owner && forall j :: i < j < |rows| ==> rows[j].owner != owner
  }

  lemma {:induction false} FirstRegularIs(rows: seq<KeyPackage>, owner: Id, i: nat)
    requires OldestRegular(rows, owner, i)
    ensures Regulars(OwnedBy(rows, owner)) != [] && Regulars(OwnedBy(rows, owner))[0] == rows[i]
  {
    if i > 0 {
      assert !(rows[0].owner == owner && !rows[0].lastResort);
      assert forall j :: 0 <= j < i ==> rows[1..][j] == rows[j + 1];
      FirstRegularIs(rows[1..], owner, i - 1);
      var owned, tail := OwnedBy(rows, owner), OwnedBy(rows[1..], owner);
      if rows[0].owner == owner {
        assert owned[0] == rows[0] && owned[1..] == tail;
        assert Regulars(owned) == Regulars(tail);
      } else {
        assert owned == tail;
      }
    } else {
      assert OwnedBy(rows, owner)[0] == rows[0];
    }
  }

  lemma {:induction false} LastOwnedIs(rows: seq<KeyPackage>, owner: Id, i: nat)
    requires Newest(rows, owner, i)
    ensures OwnedBy(rows, owner) != [] && OwnedBy(rows, owner)[|OwnedBy(rows, owner)| - 1] == rows[i]
  {
    var n := |rows| - 1;
    assert rows == rows[..n] + [rows[n]];
    FilterAppend(rows[..n], [rows[n]], (k: KeyPackage) => k.owner == owner);
    if i < n {
      assert rows[n].owner != owner;
      LastOwnedIs(rows[..n], owner, i);
    }
  }

  /**
   * Asked for a reference, the storage hands out that package; asked for an
   * identity, its oldest regular package, or - when it has none - its newest one,
   * which then is a last resort. A regular package handed out is gone, a last
   * resort stays, and no other row is touched.
   */
  lemma HandingOut(rows: Rows, identifier: Id, i: nat)
    requires UniqueRefs(rows.keyPackages) && i < |rows.keyPackages|
    requires var all := rows.keyPackages;
             || all[i].ref == identifier
             || ((forall k | k in all :: k.ref != identifier)
                 && (OldestRegular(all, identifier, i)
                     || ((forall k | k in all && k.owner == identifier :: k.lastResort) && Newest(all, identifier, i))))
    ensures var (after, answer) := Perform(rows, ConsumeKeyPackage(identifier));
            var all := rows.keyPackages;
            && answer == Found(Some(all[i]))
            && after == rows.(keyPackages := if all[i].lastResort then all else all[..i] + all[i + 1..])
  {
    var all := rows.keyPackages;
    ByRefFinds(all, identifier);
    if all[i].ref == identifier {
      ByRefUnique(all, all[i]);
    } else {
      if OldestRegular(all, identifier, i) {
        FirstRegularIs(all, identifier, i);
      } else {
        LastOwnedIs(all, identifier, i);
        NoRegulars(all, identifier);
      }
    }
    DropRow(all, i);
    hide UniqueRefs, OldestRegular, Newest, OwnedBy, Regulars, Without, ByRef;
  }

  lemma NoRegulars(rows: seq<KeyPackage>, owner: Id)
    requires forall k | k in rows && k.owner == owner :: k.lastResort
    ensures Regulars(OwnedBy(rows, owner)) == []
  {
    forall k | k in OwnedBy(rows, owner)
      ensures k.lastResort
    {
      FilterIn(rows, (x: KeyPackage) => x.owner == owner, k);
    }
    FilterNone(OwnedBy(rows, owner), (x: KeyPackage) => !x.lastResort);
  }

  /** An identifier that is no reference and owns no package gets nothing, and nothing changes. */
  lemma HandingOutNothing(rows: Rows, identifier: Id)
    requires forall k | k in rows.keyPackages :: k.ref != identifier && k.owner != identifier
    ensures Perform(rows, ConsumeKeyPackage(identifier)) == (rows, Found(None))
  {
    ByRefFinds(rows.keyPackages, identifier);
    FilterNone(rows.keyPackages, (k: KeyPackage) => k.owner == identifier);
  }

  /** Publishing, listing, looking up and removing key packages, row by row. */
  lemma KeepingKeyPackages(rows: Rows, k: KeyPackage, owner: Id, ref: Id)
    requires UniqueRefs(rows.keyPackages)
    ensures Perform(rows, PublishKeyPackage(k)).0 == rows.(keyPackages := rows.keyPackages + [k])
    ensures var (after, answer) := Perform(rows, ListKeyPackages(owner));
            after == rows && answer.KeyPackages? && Exactly(answer.list, rows.keyPackages, (x: KeyPackage) => x.owner == owner)
    ensures var (after, answer) := Perform(rows, ListAll);
            after == rows && answer == AllKeyPackages(multiset(rows.keyPackages))
    ensures var (after, answer) := Perform(rows, GetKeyPackage(ref));
            && after == rows && answer.Found?
            && (answer.keyPackage.None? <==> forall x | x in rows.keyPackages :: x.ref != ref)
            && (answer.keyPackage.Some? ==> answer.keyPackage.value in rows.keyPackages && answer.keyPackage.value.ref == ref)
    ensures var (after, answer) := Perform(rows, RemoveKeyPackage(ref));
            && answer == Perform(rows, GetKeyPackage(ref)).1
            && Exactly(after.keyPackages, rows.keyPackages, (x: KeyPackage) => x.ref != ref)
            && after == rows.(keyPackages := after.keyPackages)
  {
    ByRefFinds(rows.keyPackages, ref);
    FilterIsExact(rows.keyPackages, (x: KeyPackage) => x.owner == owner, (x: KeyPackage) => x.owner == owner);
    FilterIsExact(rows.keyPackages, (x: KeyPackage) => x.ref != ref, (x: KeyPackage) => x.ref != ref);
    hide Exactly;
  }

  // ---------------------------------------------------------------------
  // Messages
  // ---------------------------------------------------------------------

  lemma {:induction false} MessagesBlock(rows: seq<GroupMessage>, asks: seq<Ask>, more: seq<Ask>)
    ensures FetchMany(rows, asks + more) == FetchMany(rows, asks) + FetchMany(rows, more)
  {
    if asks == [] {
      assert asks + more == more;
    } else {
      assert (asks + more)[0] == asks[0] && (asks + more)[1..] == asks[1..] + more;
      MessagesBlock(rows, asks[1..], more);
      var head := FetchMessages(rows, asks[0]);
      assert head + (FetchMany(rows, asks[1..]) + FetchMany(rows, more))
          == (head + FetchMany(rows, asks[1..])) + FetchMany(rows, more);
    }
  }

  /** What is past a cursor in a list of messages; everything when no cursor is given. */
  function Past(mine: seq<GroupMessage>, after: Option<nat>): seq<GroupMessage> {
    if after.None? then mine else if after.value <= |mine| then mine[after.value..] else []
  }

  /** A fetch answers with the group's messages past the cursor, in the order they were stored. */
  lemma FetchingMessages(rows: Rows, ask: Ask)
    requires Dense(rows.messages)
    ensures Perform(rows, FetchGroupMessages(ask)) == (rows, Messages(Past(MessagesOf(rows.messages, ask.group), ask.after)))
    ensures Exactly(MessagesOf(rows.messages, ask.group), rows.messages, (m: GroupMessage) => m.group == ask.group)
  {
    hide Dense, Exactly, MessagesOf, FetchMessages;
    FetchIsSuffix(rows.messages, ask.group, if ask.after.Some? then ask.after.value else 0);
    assert ask == Ask(ask.group, ask.after);
    OfGroupIsExact(rows.messages, ask.group);
  }

  lemma OfGroupIsExact(rows: seq<GroupMessage>, group: Id)
    ensures Exactly(MessagesOf(rows, group), rows, (m: GroupMessage) => m.group == group)
  {
    FilterIsExact(rows, (m: GroupMessage) => m.group == group, (m: GroupMessage) => m.group == group);
  }

  /**
   * A fetch for several groups answers group by group in the order asked: the
   * block of the `i`-th is that group's messages past its cursor, in cursor order.
   */
  lemma FetchingManyMessages(rows: Rows, asks: seq<Ask>, i: nat)
    requires Dense(rows.messages) && i < |asks|
    ensures var (after, answer) := Perform(rows, FetchManyMessages(asks));
            && after == rows && answer.Messages?
            && exists rest ::
                 answer.messages == FetchMany(rows.messages, asks[..i])
                                    + Past(MessagesOf(rows.messages, asks[i].group), asks[i].after) + rest
  {
    FetchIsSuffix(rows.messages, asks[i].group, if asks[i].after.Some? then asks[i].after.value else 0);
    OneMessageBlock(rows.messages, asks, i);
    hide Dense, FetchMessages, MessagesOf, FetchMany;
    assert asks[i] == Ask(asks[i].group, asks[i].after);
    assert FetchMessages(rows.messages, asks[i]) == Past(MessagesOf(rows.messages, asks[i].group), asks[i].after);
  }

  lemma OneMessageBlock(rows: seq<GroupMessage>, asks: seq<Ask>, i: nat)
    requires i < |asks|
    ensures FetchMany(rows, asks) == FetchMany(rows, asks[..i]) + FetchMessages(rows, asks[i]) + FetchMany(rows, asks[i + 1..])
  {
    hide FetchMessages;
    assert asks == asks[..i] + asks[i..] && asks[i..] == [asks[i]] + asks[i + 1..];
    MessagesBlock(rows, asks[..i], asks[i..]);
  }

  /** A new message gets the next cursor of its group, and the group's routing is the cursor of its last message. */
  lemma Numbering(rows: Rows, group: Id, payload: nat, at: int)
    requires Dense(rows.messages)
    ensures var (after, answer) := Perform(rows, AppendMessage(group, payload, at));
            var mine := MessagesOf(rows.messages, group);
            var m := GroupMessage(if mine == [] then 1 else mine[|mine| - 1].cursor + 1, group, payload, at);
            && after == rows.(messages := rows.messages + [m]) && answer == Messages([m])
            && Perform(after, GetRouting(group)) == (after, Routed(Some(m.cursor)))
    ensures Perform(rows, GetRouting(group)) == (rows, Routed(None)) <==> MessagesOf(rows.messages, group) == []
  {
    var mine := MessagesOf(rows.messages, group);
    var m := NextMessage(rows.messages, group, payload, at);
    FilterAppend(rows.messages, [m], (x: GroupMessage) => x.group == group);
    assert mine != [] ==> mine[|mine| - 1].cursor == |mine|;
  }
}
