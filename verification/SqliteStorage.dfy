/**
 * The SQLite backend: each table is a sequence of rows ordered by id, each
 * statement an operation on such a sequence, each transaction one step.
 */
module SqliteStorage {
  import opened Base
  import opened Storage

  /** The row order of the identity query: regular packages by rising id, then last-resort ones by falling id. */
  predicate OrdersBefore(rows: seq<KeyPackage>, i: nat, j: nat)
    requires i < |rows| && j < |rows|
  {
    if rows[i].lastResort != rows[j].lastResort then !rows[i].lastResort
    else if rows[i].lastResort then i > j
    else i < j
  }

  class SqliteStorage {
    var keyPackages: seq<KeyPackage>
    var welcomes: seq<Welcome>
    var joinRequests: seq<JoinRequest>
    var groupMessages: seq<GroupMessage>
    var groupRouting: map<Id, nat>

    ghost function View(): Rows
      reads this
    {
      Rows(keyPackages, welcomes, joinRequests, groupMessages)
    }

    /** References are unique by constraint, and the routing table holds every group's last cursor. */
    ghost predicate Valid()
      reads this
    {
      && UniqueRefs(keyPackages)
      && forall g: Id :: (if g in groupRouting then Some(groupRouting[g]) else None) == Routing(groupMessages, g)
    }

    constructor ()
      ensures Valid() && View() == EMPTY
    {
      keyPackages, welcomes, joinRequests, groupMessages, groupRouting := [], [], [], [], map[];
    }

    /** The first row with a reference. */
    method RowByRef(ref: Id) returns (row: Option<nat>)
      ensures row.None? <==> ByRef(keyPackages, ref).None?
      ensures row.Some? ==> row.value < |keyPackages| && ByRef(keyPackages, ref) == Some(keyPackages[row.value])
    {
      var i := 0;
      while i < |keyPackages|
        invariant 0 <= i <= |keyPackages|
        invariant ByRef(keyPackages, ref) == ByRef(keyPackages[i..], ref)
      {
        assert keyPackages[i..][1..] == keyPackages[i + 1..];
        if keyPackages[i].ref == ref {
          return Some(i);
        }
        i := i + 1;
      }
      return None;
    }

    method DeleteRow(i: nat)
      requires Valid() && i < |keyPackages|
      modifies this`keyPackages
      ensures Valid() && keyPackages == Without(old(keyPackages), old(keyPackages)[i].ref)
    {
      var ref := keyPackages[i].ref;
      DropRow(keyPackages, i);
      FilterKeepsUnique(keyPackages, (k: KeyPackage) => k.ref != ref);
      keyPackages := keyPackages[..i] + keyPackages[i + 1..];
    }

    method PublishKeyPackage(k: KeyPackage) returns (r: Result<KeyPackage, StorageError>)
      requires Valid()
      modifies this`keyPackages
      ensures Valid()
      ensures r == if FreshRef(old(View()), Op.PublishKeyPackage(k)) then Ok(k) else Err(DuplicateRef)
      ensures View() == if r.Ok? then Perform(old(View()), Op.PublishKeyPackage(k)).0 else old(View())
    {
      var taken := RowByRef(k.ref);
      if taken.Some? {
        return Err(DuplicateRef);
      }
      PublishKeepsUnique(keyPackages, k);
      keyPackages := keyPackages + [k];
      return Ok(k);
    }

    method GetKeyPackage(ref: Id) returns (r: Option<KeyPackage>)
      ensures (View(), Found(r)) == Perform(View(), Op.GetKeyPackage(ref))
    {
      var row := RowByRef(ref);
      return if row.Some? then Some(keyPackages[row.value]) else None;
    }

    method ListKeyPackagesForIdentity(owner: Id) returns (list: seq<KeyPackage>)
      ensures (View(), KeyPackages(list)) == Perform(View(), ListKeyPackages(owner))
    {
      return Filter(keyPackages, (k: KeyPackage) => k.owner == owner);
    }

    /** Every row, in id order. */
    method ListAllKeyPackages() returns (list: seq<KeyPackage>)
      ensures list == View().keyPackages
      ensures (View(), AllKeyPackages(multiset(list))) == Perform(View(), ListAll)
    {
      return keyPackages;
    }

    method RemoveKeyPackage(ref: Id) returns (r: Option<KeyPackage>)
      requires Valid()
      modifies this`keyPackages
      ensures Valid() && (View(), Found(r)) == Perform(old(View()), Op.RemoveKeyPackage(ref))
    {
      var row := RowByRef(ref);
      ByRefFinds(keyPackages, ref);
      if row.None? {
        FilterAll(keyPackages, (k: KeyPackage) => k.ref != ref);
        return None;
      }
      r := Some(keyPackages[row.value]);
      DeleteRow(row.value);
    }

    /** The first row of an identity in the query's order. */
    method RowByIdentity(owner: Id) returns (best: Option<nat>)
      ensures best.Some? ==> best.value < |keyPackages|
      ensures Preferred(OwnedBy(keyPackages, owner)) == if best.Some? then Some(keyPackages[best.value]) else None
    {
      hide Preferred;
      best := None;
      PreferredOfNone();
      var i := 0;
      while i < |keyPackages|
        invariant 0 <= i <= |keyPackages|
        invariant best.Some? ==> best.value < i
        invariant Preferred(OwnedBy(keyPackages[..i], owner)) == if best.Some? then Some(keyPackages[best.value]) else None
      {
        PreferredGrows(keyPackages[..i], keyPackages[i], owner);
        assert keyPackages[..i + 1] == keyPackages[..i] + [keyPackages[i]];
        if keyPackages[i].owner == owner && (best.None? || OrdersBefore(keyPackages, i, best.value)) {
          best := Some(i);
        }
        i := i + 1;
      }
      assert keyPackages[..i] == keyPackages;
    }

    method ConsumeKeyPackage(identifier: Id) returns (r: Option<KeyPackage>)
      requires Valid()
      modifies this`keyPackages
      ensures Valid() && (View(), Found(r)) == Perform(old(View()), Op.ConsumeKeyPackage(identifier))
    {
      hide Preferred;
      var row := RowByRef(identifier);
      if row.None? {
        row := RowByIdentity(identifier);
      }
      if row.None? {
        return None;
      }
      r := Some(keyPackages[row.value]);
      if !r.value.lastResort {
        DeleteRow(row.value);
      }
    }

    method StoreWelcome(w: Welcome)
      requires Valid()
      modifies this`welcomes
      ensures Valid() && View() == Perform(old(View()), Op.StoreWelcome(w)).0
    {
      welcomes := welcomes + [w];
    }

    method FetchPendingWelcomes(target: Id, consumed: seq<ConsumedWelcome>) returns (r: seq<Welcome>)
      requires Valid()
      modifies this`welcomes
      ensures Valid() && (View(), Welcomes(r)) == Perform(old(View()), FetchWelcomes(target, consumed))
    {
      FetchWelcomesIs(View(), target, consumed);
      hide Perform;
      var i := 0;
      FilterAll(welcomes, (w: Welcome) => !(w.target == target && RetiredWelcome(w, [])));
      assert consumed[..0] == [];
      while i < |consumed|
        invariant 0 <= i <= |consumed|
        invariant welcomes == RetireWelcomes(old(welcomes), target, consumed[..i])
      {
        var item := consumed[i];
        assert consumed[..i + 1] == consumed[..i] + [item];
        FilterBoth(old(welcomes), (w: Welcome) => !(w.target == target && RetiredWelcome(w, consumed[..i])),
                   (w: Welcome) => !(w.target == target && w.ref == item.ref && w.at == item.at),
                   (w: Welcome) => !(w.target == target && RetiredWelcome(w, consumed[..i + 1])));
        welcomes := Filter(welcomes, (w: Welcome) => !(w.target == target && w.ref == item.ref && w.at == item.at));
        i := i + 1;
      }
      assert consumed[..i] == consumed;
      return WelcomesFor(welcomes, target);
    }

    method DeleteExpiredWelcomes(threshold: int) returns (deleted: nat)
      requires Valid()
      modifies this`welcomes
      ensures Valid() && (View(), Deleted(deleted)) == Perform(old(View()), ExpireWelcomes(threshold))
    {
      if threshold <= 0 {
        return 0;
      }
      FilterShorter(welcomes, (w: Welcome) => w.at >= threshold);
      deleted := |welcomes| - |FreshWelcomes(welcomes, threshold)|;
      welcomes := FreshWelcomes(welcomes, threshold);
    }

    /** Insert a request, or refresh every row of the same requester in the group. */
    method StoreJoinRequest(r: JoinRequest) returns (stored: Result<JoinRequest, StorageError>)
      requires Valid()
      modifies this`joinRequests
      ensures Valid()
      ensures (View(), if stored.Ok? then Requests([stored.value]) else Failed(stored.error))
           == Perform(old(View()), Op.StoreJoinRequest(r))
    {
      if exists i :: 0 <= i < |joinRequests| && SameAsk(joinRequests[i], r) {
        RefreshedShape(joinRequests, r);
        var i := 0;
        while i < |joinRequests|
          invariant 0 <= i <= |joinRequests| == |old(joinRequests)|
          invariant forall j :: 0 <= j < i ==> joinRequests[j] == Refreshed(old(joinRequests), r)[j]
          invariant forall j :: i <= j < |joinRequests| ==> joinRequests[j] == old(joinRequests)[j]
        {
          if joinRequests[i].group == r.group && joinRequests[i].requester == r.requester {
            joinRequests := joinRequests[i := joinRequests[i].(ref := r.ref, at := r.at)];
          }
          i := i + 1;
        }
        assert joinRequests == Refreshed(old(joinRequests), r);
        return Ok(r);
      }
      if |RequestsFor(joinRequests, r.group)| >= MAX_PENDING_REQUESTS {
        return Err(TooManyRequests);
      }
      joinRequests := joinRequests + [r];
      return Ok(r);
    }

    /** Delete the rows the acknowledgements name, one statement per acknowledgement. */
    method DeleteConsumed(group: Id, consumed: seq<ConsumedRequest>)
      modifies this`joinRequests
      ensures joinRequests == RetireRequests(old(joinRequests), group, consumed)
    {
      var i := 0;
      FilterAll(joinRequests, (r: JoinRequest) => !(r.group == group && RetiredRequest(r, [])));
      assert consumed[..0] == [];
      while i < |consumed|
        invariant 0 <= i <= |consumed|
        invariant joinRequests == RetireRequests(old(joinRequests), group, consumed[..i])
      {
        var item := consumed[i];
        assert consumed[..i + 1] == consumed[..i] + [item];
        FilterBoth(old(joinRequests), (r: JoinRequest) => !(r.group == group && RetiredRequest(r, consumed[..i])),
                   (r: JoinRequest) => !(r.group == group && r.requester == item.requester && r.at == item.at),
                   (r: JoinRequest) => !(r.group == group && RetiredRequest(r, consumed[..i + 1])));
        joinRequests := Filter(joinRequests,
                               (r: JoinRequest) => !(r.group == group && r.requester == item.requester && r.at == item.at));
        i := i + 1;
      }
      assert consumed[..i] == consumed;
    }

    method FetchPendingJoinRequests(group: Id, consumed: seq<ConsumedRequest>) returns (r: seq<JoinRequest>)
      requires Valid()
      modifies this`joinRequests
      ensures Valid() && (View(), Requests(r)) == Perform(old(View()), FetchRequests(group, consumed))
    {
      DeleteConsumed(group, consumed);
      return RequestsFor(joinRequests, group);
    }

    /** All groups' acknowledgements are applied before anything is read. */
    method FetchManyPendingJoinRequests(groups: seq<Id>, all: seq<ConsumedInGroup>) returns (r: seq<JoinRequest>)
      requires Valid()
      modifies this`joinRequests
      ensures Valid() && (View(), Requests(r)) == Perform(old(View()), FetchManyRequests(groups, all))
    {
      var todo := groups;
      while todo != []
        invariant RetireMany(joinRequests, todo, all) == RetireMany(old(joinRequests), groups, all)
        decreases |todo|
      {
        DeleteConsumed(todo[0], ConsumedOf(all, todo[0]));
        todo := todo[1..];
      }
      return RequestsOfMany(joinRequests, groups);
    }

    method DeleteExpiredJoinRequests(threshold: int) returns (deleted: nat)
      requires Valid()
      modifies this`joinRequests
      ensures Valid() && (View(), Deleted(deleted)) == Perform(old(View()), ExpireRequests(threshold))
    {
      if threshold <= 0 {
        return 0;
      }
      FilterShorter(joinRequests, (r: JoinRequest) => r.at >= threshold);
      deleted := |joinRequests| - |FreshRequests(joinRequests, threshold)|;
      joinRequests := FreshRequests(joinRequests, threshold);
    }

    /** Allocate the group's next cursor, as long as a safe integer is left. */
    method AppendGroupMessage(group: Id, payload: nat, at: int) returns (r: Result<GroupMessage, StorageError>)
      requires Valid()
      modifies this`groupMessages, this`groupRouting
      ensures Valid()
      ensures r.Err? <==> |MessagesOf(old(groupMessages), group)| + 1 > MAX_SAFE_INTEGER
      ensures r.Err? ==> r.error == NoCursorLeft && View() == old(View())
      ensures r.Ok? ==> (View(), Messages([r.value])) == Perform(old(View()), AppendMessage(group, payload, at))
    {
      hide Perform, UniqueRefs, Dense;
      var last := if group in groupRouting then groupRouting[group] else 0;
      assert Routing(groupMessages, group) == if group in groupRouting then Some(groupRouting[group]) else None;
      var cursor := last + 1;
      if cursor > MAX_SAFE_INTEGER {
        return Err(NoCursorLeft);
      }
      var m := GroupMessage(cursor, group, payload, at);
      MessageAdded(groupMessages, m);
      AppendMessageIs(View(), group, payload, at);
      hide MessagesOf;
      groupMessages := groupMessages + [m];
      groupRouting := groupRouting[group := cursor];
      return Ok(m);
    }

    method FetchGroupMessages(ask: Ask) returns (r: seq<GroupMessage>)
      ensures (View(), Messages(r)) == Perform(View(), Op.FetchGroupMessages(ask))
    {
      if ask.after.None? {
        FilterSame(groupMessages, (m: GroupMessage) => m.group == ask.group, (m: GroupMessage) => Wanted(m, ask));
        return Filter(groupMessages, (m: GroupMessage) => m.group == ask.group);
      }
      FilterSame(groupMessages, (m: GroupMessage) => m.group == ask.group && m.cursor > ask.after.value,
                 (m: GroupMessage) => Wanted(m, ask));
      return Filter(groupMessages, (m: GroupMessage) => m.group == ask.group && m.cursor > ask.after.value);
    }

    /** One query over all groups, an absent cursor read as 0. */
    method FetchManyGroupMessages(asks: seq<Ask>) returns (r: seq<GroupMessage>)
      requires Dense(groupMessages)
      ensures (View(), Messages(r)) == Perform(View(), FetchManyMessages(asks))
    {
      r := [];
      var i := |asks|;
      while i > 0
        invariant 0 <= i <= |asks|
        invariant r == FetchMany(groupMessages, asks[i..])
      {
        i := i - 1;
        assert asks[i..][1..] == asks[i + 1..];
        var group, after := asks[i].group, if asks[i].after.Some? then asks[i].after.value else 0;
        CursorsPositive(groupMessages);
        FilterSame(groupMessages, (m: GroupMessage) => m.group == group && m.cursor > after,
                   (m: GroupMessage) => Wanted(m, asks[i]));
        r := Filter(groupMessages, (m: GroupMessage) => m.group == group && m.cursor > after) + r;
      }
    }

    method GetGroupRouting(group: Id) returns (last: Option<nat>)
      requires Valid()
      ensures (View(), Routed(last)) == Perform(View(), GetRouting(group))
    {
      return if group in groupRouting then Some(groupRouting[group]) else None;
    }
  }

  lemma MessageAdded(rows: seq<GroupMessage>, m: GroupMessage)
    ensures forall g: Id ::
              MessagesOf(rows + [m], g) == if g == m.group then MessagesOf(rows, g) + [m] else MessagesOf(rows, g)
  {
    forall g: Id
      ensures MessagesOf(rows + [m], g) == if g == m.group then MessagesOf(rows, g) + [m] else MessagesOf(rows, g)
    {
      FilterAppend(rows, [m], (x: GroupMessage) => x.group == g);
    }
  }

  lemma CursorsPositive(rows: seq<GroupMessage>)
    requires Dense(rows)
    ensures forall m | m in rows :: m.cursor > 0
  {
    forall m | m in rows
      ensures m.cursor > 0
    {
      FilterIn(rows, (x: GroupMessage) => x.group == m.group, m);
      var i :| 0 <= i < |MessagesOf(rows, m.group)| && MessagesOf(rows, m.group)[i] == m;
    }
  }

  lemma PreferredOfNone()
    ensures Preferred([]) == None
  {
  }

  /** What one more row does to the preference of an identity. */
  lemma PreferredGrows(rows: seq<KeyPackage>, k: KeyPackage, owner: Id)
    ensures var was := Preferred(OwnedBy(rows, owner));
            Preferred(OwnedBy(rows + [k], owner))
              == if k.owner != owner || (was.Some? && !was.value.lastResort) then was else Some(k)
  {
    FilterAppend(rows, [k], (x: KeyPackage) => x.owner == owner);
    hide Preferred;
    assert OwnedBy(rows + [k], owner) == if k.owner == owner then OwnedBy(rows, owner) + [k] else OwnedBy(rows, owner);
    if k.owner == owner {
      PreferredOfMore(OwnedBy(rows, owner), k);
    }
  }

  lemma PreferredOfMore(owned: seq<KeyPackage>, k: KeyPackage)
    ensures var was := Preferred(owned);
            Preferred(owned + [k]) == if was.Some? && !was.value.lastResort then was else Some(k)
  {
    FilterAppend(owned, [k], (x: KeyPackage) => !x.lastResort);
    if owned != [] {
      var x := if Regulars(owned) != [] then Regulars(owned)[0] else owned[|owned| - 1];
      FilterIn(owned, (x: KeyPackage) => !x.lastResort, x);
    }
  }
}
