/**
 * The in-memory backend: a map per table, the key packages of an identity in an
 * array of its own that is changed in place and handed out as it is.
 */
module InMemoryStorage {
  import opened Base
  import opened Storage

  /** An array as the host language has it: shared by reference, grown and spliced in place. */
  class SharedArray<T> {
    var items: seq<T>

    constructor ()
      ensures items == []
    {
      items := [];
    }

    method Push(x: T)
      modifies this
      ensures items == old(items) + [x]
    {
      items := items + [x];
    }

    method SpliceOne(i: nat) returns (removed: T)
      requires i < |items|
      modifies this
      ensures items == old(items)[..i] + old(items)[i + 1..] && removed == old(items)[i]
    {
      removed := items[i];
      items := items[..i] + items[i + 1..];
    }
  }

  datatype GroupLog = GroupLog(nextCursor: nat, lastMessageCursor: nat, messages: seq<GroupMessage>)

  // ---------------------------------------------------------------------
  // Tables split by key
  // ---------------------------------------------------------------------

  function Entries<T>(table: map<Id, seq<T>>, key: Id): seq<T> { if key in table then table[key] else [] }

  /** An empty list is not kept under its key. */
  function Put<T>(table: map<Id, seq<T>>, key: Id, list: seq<T>): map<Id, seq<T>> {
    if |list| == 0 then table - {key} else table[key := list]
  }

  lemma PutEntries<T>(table: map<Id, seq<T>>, key: Id, list: seq<T>)
    ensures forall k: Id :: Entries(Put(table, key, list), k) == if k == key then list else Entries(table, k)
  {
  }

  /** The rows of one key. */
  ghost function Part<T>(rows: seq<T>, key: T -> Id, k: Id): seq<T> { Filter(rows, (x: T) => key(x) == k) }

  /** Under every key the table holds exactly what `rows` holds for it. */
  ghost predicate Splits<T>(table: map<Id, seq<T>>, rows: seq<T>, key: T -> Id) {
    forall k: Id :: Entries(table, k) == Part(rows, key, k)
  }

  lemma PartIs<T>(rows: seq<T>, key: T -> Id, k: Id, own: T -> bool)
    requires forall x | x in rows :: own(x) == (key(x) == k)
    ensures Part(rows, key, k) == Filter(rows, own)
  {
    FilterSame(rows, (x: T) => key(x) == k, own);
  }

  function TargetOf(w: Welcome): Id { w.target }

  function GroupOf(r: JoinRequest): Id { r.group }

  lemma SplitsAt<T>(table: map<Id, seq<T>>, rows: seq<T>, key: T -> Id, k: Id, own: T -> bool)
    requires Splits(table, rows, key) && forall x :: own(x) <==> key(x) == k
    ensures Entries(table, k) == Filter(rows, own)
  {
    PartIs(rows, key, k, own);
  }

  lemma AppendSplits<T>(table: map<Id, seq<T>>, rows: seq<T>, key: T -> Id, x: T)
    requires Splits(table, rows, key)
    ensures Splits(table[key(x) := Entries(table, key(x)) + [x]], rows + [x], key)
  {
    var after := table[key(x) := Entries(table, key(x)) + [x]];
    forall k: Id
      ensures Entries(after, k) == Part(rows + [x], key, k)
    {
      var own := (y: T) => key(y) == k;
      PartIs(rows, key, k, own);
      PartIs(rows + [x], key, k, own);
      FilterAppend(rows, [x], own);
      assert Entries(table, k) == Filter(rows, own);
      if key(x) == k {
        assert Filter([x], own) == [x];
        assert Entries(after, k) == Entries(table, k) + [x];
      } else {
        assert Filter([x], own) == [];
        assert Entries(after, k) == Entries(table, k);
      }
      assert Entries(after, k) == Filter(rows + [x], own);
    }
  }

  /** Filtering list by list is filtering the rows. */
  lemma FilterSplits<T>(table: map<Id, seq<T>>, after: map<Id, seq<T>>, rows: seq<T>, key: T -> Id, keep: T -> bool)
    requires Splits(table, rows, key)
    requires forall k: Id :: Entries(after, k) == Filter(Entries(table, k), keep)
    ensures Splits(after, Filter(rows, keep), key)
  {
    forall k: Id
      ensures Entries(after, k) == Part(Filter(rows, keep), key, k)
    {
      var own := (x: T) => key(x) == k;
      PartIs(rows, key, k, own);
      PartIs(Filter(rows, keep), key, k, own);
      FilterCommutes(rows, own, keep);
    }
  }

  /** Dropping stale entries of one key drops as many rows as that key's list loses. */
  lemma {:induction false} DropCounts<T>(rows: seq<T>, own: T -> bool, keep: T -> bool, both: T -> bool)
    requires forall x | x in rows :: both(x) == (!own(x) || keep(x))
    ensures |rows| - |Filter(rows, both)| == |Filter(rows, own)| - |Filter(Filter(rows, own), keep)|
  {
    if rows != [] {
      DropCounts(rows[1..], own, keep, both);
      FilterAppend(if own(rows[0]) then [rows[0]] else [], Filter(rows[1..], own), keep);
    }
  }

  /** The rows once the lists of the keys in `done` have been filtered. */
  ghost function Purged<T>(rows: seq<T>, key: T -> Id, keep: T -> bool, done: set<Id>): seq<T> {
    Filter(rows, (x: T) => key(x) in done ==> keep(x))
  }

  lemma NothingPurged<T>(rows: seq<T>, key: T -> Id, keep: T -> bool)
    ensures Purged(rows, key, keep, {}) == rows
  {
    var none: set<Id> := {};
    FilterAll(rows, (x: T) => key(x) in none ==> keep(x));
  }

  /** Drop what fails `keep` from every list of a table, one key after the other, and count what was dropped. */
  method Expire<T>(table: map<Id, seq<T>>, ghost rows: seq<T>, ghost key: T -> Id, keep: T -> bool)
    returns (after: map<Id, seq<T>>, deleted: nat)
    requires Splits(table, rows, key)
    ensures Splits(after, Filter(rows, keep), key) && deleted == |rows| - |Filter(rows, keep)|
  {
    hide Purged, Splits, Entries, Put, Filter;
    after, deleted := table, 0;
    var todo := table.Keys;
    ghost var done: set<Id> := {};
    NothingPurged(rows, key, keep);
    while todo != {}
      invariant todo <= table.Keys && done == table.Keys - todo
      invariant forall k: Id :: Entries(after, k) == if k in done then Filter(Entries(table, k), keep) else Entries(table, k)
      invariant deleted == |rows| - |Purged(rows, key, keep, done)|
      decreases |todo|
    {
      var k :| k in todo;
      var kept := Filter(table[k], keep);
      PurgeStep(table, rows, key, keep, done, k);
      FilterShorter(table[k], keep);
      deleted := deleted + (|table[k]| - |kept|);
      PutEntries(after, k, kept);
      after := Put(after, k, kept);
      todo := todo - {k};
      done := done + {k};
    }
    OutsideKeys(table, keep, done);
    FilterSplits(table, after, rows, key, keep);
    AllKeysDone(table, rows, key, keep, done);
  }

  lemma OutsideKeys<T>(table: map<Id, seq<T>>, keep: T -> bool, done: set<Id>)
    requires done == table.Keys
    ensures forall k: Id | k !in done :: Entries(table, k) == Filter(Entries(table, k), keep)
  {
  }

  lemma PurgeStep<T>(table: map<Id, seq<T>>, rows: seq<T>, key: T -> Id, keep: T -> bool, done: set<Id>, k: Id)
    requires Splits(table, rows, key) && k in table && k !in done
    ensures |Purged(rows, key, keep, done)| - |Purged(rows, key, keep, done + {k})| == |table[k]| - |Filter(table[k], keep)|
    ensures Entries(table, k) == table[k]
  {
    SplitsAt(table, rows, key, k, (x: T) => key(x) == k);
    var before, after := (x: T) => key(x) in done ==> keep(x), (x: T) => key(x) in done + {k} ==> keep(x);
    var own, drop := (x: T) => key(x) == k, (x: T) => key(x) == k ==> keep(x);
    FilterBoth(rows, before, drop, after);
    DropCounts(Filter(rows, before), own, keep, drop);
    FilterCommutes(rows, before, own);
    forall x | x in Filter(rows, own)
      ensures before(x)
    {
      FilterIn(rows, own, x);
    }
    FilterAll(Filter(rows, own), before);
  }

  lemma AllKeysDone<T>(table: map<Id, seq<T>>, rows: seq<T>, key: T -> Id, keep: T -> bool, done: set<Id>)
    requires Splits(table, rows, key) && done == table.Keys
    ensures Purged(rows, key, keep, done) == Filter(rows, keep)
  {
    forall x | x in rows
      ensures key(x) in done
    {
      FilterIn(rows, (y: T) => key(y) == key(x), x);
      SplitsAt(table, rows, key, key(x), (y: T) => key(y) == key(x));
      assert Entries(table, key(x)) != [];
    }
    FilterSame(rows, (x: T) => key(x) in done ==> keep(x), keep);
  }

  // ---------------------------------------------------------------------
  // Join requests
  // ---------------------------------------------------------------------

  /** Refreshing a request touches only its own group's list. */
  lemma {:induction false} RefreshedSplits(rows: seq<JoinRequest>, r: JoinRequest, k: Id)
    ensures RequestsFor(Refreshed(rows, r), k)
         == if k == r.group then Refreshed(RequestsFor(rows, k), r) else RequestsFor(rows, k)
  {
    if rows != [] {
      RefreshedSplits(rows[1..], r, k);
      var x, y, tail := rows[0], Refreshed(rows, r)[0], RequestsFor(rows[1..], k);
      assert Refreshed(rows, r)[1..] == Refreshed(rows[1..], r);
      assert RequestsFor(Refreshed(rows, r), k) == (if y.group == k then [y] else []) + RequestsFor(Refreshed(rows[1..], r), k);
      if x.group == k {
        assert RequestsFor(rows, k) == [x] + tail;
        assert ([x] + tail)[0] == x && ([x] + tail)[1..] == tail;
      } else {
        assert RequestsFor(rows, k) == tail;
      }
    }
  }

  /** With one request per requester, refreshing the first match refreshes them all. */
  lemma RefreshOne(list: seq<JoinRequest>, r: JoinRequest, i: nat)
    requires OnePerRequester(list) && i < |list| && SameAsk(list[i], r)
    ensures Refreshed(list, r) == list[i := r]
  {
    RefreshedShape(list, r);
    forall j | 0 <= j < |list| && j != i
      ensures !SameAsk(list[j], r)
    {
      assert if j < i then !SameAsk(list[j], list[i]) else !SameAsk(list[i], list[j]);
    }
  }

  lemma AskedInGroup(rows: seq<JoinRequest>, r: JoinRequest)
    ensures Asked(rows, r) <==> Asked(RequestsFor(rows, r.group), r)
  {
    var list := RequestsFor(rows, r.group);
    var own := (x: JoinRequest) => x.group == r.group;
    if Asked(rows, r) {
      var i :| 0 <= i < |rows| && SameAsk(rows[i], r);
      FilterIn(rows, own, rows[i]);
      var j :| 0 <= j < |list| && list[j] == rows[i];
    }
    if Asked(list, r) {
      var j :| 0 <= j < |list| && SameAsk(list[j], r);
      FilterIn(rows, own, list[j]);
      var i :| 0 <= i < |rows| && rows[i] == list[j];
    }
  }

  /** Nothing of the group is named by its acknowledgements any more. */
  ghost predicate Cleared(rows: seq<JoinRequest>, all: seq<ConsumedInGroup>, group: Id) {
    forall r | r in rows && r.group == group :: !RetiredRequest(r, ConsumedOf(all, group))
  }

  /** Retiring one group's requests leaves the others' lists alone, and repeating it changes nothing. */
  lemma RetireLeaves(rows: seq<JoinRequest>, all: seq<ConsumedInGroup>, group: Id, other: Id)
    ensures Cleared(RetireRequests(rows, group, ConsumedOf(all, group)), all, group)
    ensures Cleared(rows, all, other) ==>
              var after := RetireRequests(rows, group, ConsumedOf(all, group));
              Cleared(after, all, other) && RequestsFor(after, other) == RequestsFor(rows, other)
  {
    var consumed := ConsumedOf(all, group);
    var keep := (r: JoinRequest) => !(r.group == group && RetiredRequest(r, consumed));
    var own := (r: JoinRequest) => r.group == other;
    forall r
      ensures r in Filter(rows, keep) <==> r in rows && keep(r)
    {
      FilterIn(rows, keep, r);
    }
    if Cleared(rows, all, other) {
      FilterCommutes(rows, keep, own);
      forall r | r in Filter(rows, own)
        ensures keep(r)
      {
        FilterIn(rows, own, r);
      }
      FilterAll(Filter(rows, own), keep);
    }
  }

  lemma {:induction false} RetireManyLeaves(rows: seq<JoinRequest>, groups: seq<Id>, all: seq<ConsumedInGroup>, group: Id)
    requires Cleared(rows, all, group)
    ensures RequestsFor(RetireMany(rows, groups, all), group) == RequestsFor(rows, group)
    decreases groups
  {
    if groups != [] {
      RetireLeaves(rows, all, groups[0], group);
      RetireManyLeaves(RetireRequests(rows, groups[0], ConsumedOf(all, groups[0])), groups[1..], all, group);
    }
  }

  /** Reading group by group while retiring gives what reading after all retirements gives. */
  lemma ReadEarlyIsReadLate(rows: seq<JoinRequest>, groups: seq<Id>, all: seq<ConsumedInGroup>)
    requires groups != []
    ensures var first := RetireRequests(rows, groups[0], ConsumedOf(all, groups[0]));
            RequestsOfMany(RetireMany(rows, groups, all), groups)
              == RequestsFor(first, groups[0]) + RequestsOfMany(RetireMany(first, groups[1..], all), groups[1..])
  {
    RetireLeaves(rows, all, groups[0], groups[0]);
    RetireManyLeaves(RetireRequests(rows, groups[0], ConsumedOf(all, groups[0])), groups[1..], all, groups[0]);
  }

  // ---------------------------------------------------------------------
  // The backend
  // ---------------------------------------------------------------------

  function LogEntries(groups: map<Id, GroupLog>, group: Id): seq<GroupMessage> {
    if group in groups then groups[group].messages else []
  }

  /** Every group's log is what the rows hold of it, and its counters say how long it is. */
  ghost predicate LogsHold(groups: map<Id, GroupLog>, rows: seq<GroupMessage>) {
    && (forall g: Id :: LogEntries(groups, g) == MessagesOf(rows, g))
    && (forall g: Id | g in groups ::
          && groups[g].messages != []
          && groups[g].nextCursor == |groups[g].messages| + 1
          && groups[g].lastMessageCursor == |groups[g].messages|)
  }

  /** Identities keep the array they had, as long as they keep one. */
  predicate SameArrays(was: map<Id, SharedArray<KeyPackage>>, now: map<Id, SharedArray<KeyPackage>>) {
    forall o: Id | o in now :: o in was && now[o] == was[o]
  }

  class InMemoryStorage {
    var keyPackagesByIdentity: map<Id, SharedArray<KeyPackage>>
    var welcomesByIdentity: map<Id, seq<Welcome>>
    var joinRequestsByGroup: map<Id, seq<JoinRequest>>
    var groups: map<Id, GroupLog>
    ghost var rows: Rows

    ghost predicate KeyPackagesHold(kps: seq<KeyPackage>)
      reads this`keyPackagesByIdentity, keyPackagesByIdentity.Values
    {
      && (forall a, b | a in keyPackagesByIdentity && b in keyPackagesByIdentity && a != b ::
            keyPackagesByIdentity[a] != keyPackagesByIdentity[b])
      && (forall o: Id | o !in keyPackagesByIdentity :: OwnedBy(kps, o) == [])
      && (forall o: Id | o in keyPackagesByIdentity ::
            keyPackagesByIdentity[o].items == OwnedBy(kps, o) && OwnedBy(kps, o) != [])
    }

    /** The maps hold what the rows say. */
    ghost predicate Valid()
      reads this, keyPackagesByIdentity.Values
    {
      && KeyPackagesHold(rows.keyPackages)
      && Splits(welcomesByIdentity, rows.welcomes, TargetOf)
      && Splits(joinRequestsByGroup, rows.requests, GroupOf)
      && LogsHold(groups, rows.messages)
      && Kept(rows)
    }

    constructor ()
      ensures Valid() && rows == EMPTY && keyPackagesByIdentity == map[]
    {
      keyPackagesByIdentity, welcomesByIdentity, joinRequestsByGroup, groups := map[], map[], map[], map[];
      rows := EMPTY;
    }

    // -------------------------------------------------------------------
    // Key packages
    // -------------------------------------------------------------------

    method PushRecord(k: KeyPackage, ghost kps: seq<KeyPackage>)
      requires KeyPackagesHold(kps)
      modifies this`keyPackagesByIdentity, keyPackagesByIdentity.Values
      ensures KeyPackagesHold(kps + [k])
      ensures fresh(keyPackagesByIdentity.Values - old(keyPackagesByIdentity.Values))
    {
      OwnedByAppend(kps, k);
      hide OwnedBy;
      if k.owner in keyPackagesByIdentity {
        keyPackagesByIdentity[k.owner].Push(k);
      } else {
        var records := new SharedArray();
        records.Push(k);
        keyPackagesByIdentity := keyPackagesByIdentity[k.owner := records];
      }
    }

    method PublishKeyPackage(k: KeyPackage)
      requires Valid() && FreshRef(rows, Op.PublishKeyPackage(k))
      modifies this, keyPackagesByIdentity.Values
      ensures Valid() && rows == Perform(old(rows), Op.PublishKeyPackage(k)).0
      ensures fresh(keyPackagesByIdentity.Values - old(keyPackagesByIdentity.Values))
    {
      PerformKeeps(rows, Op.PublishKeyPackage(k));
      PublishIs(rows, k);
      hide Splits, LogsHold, Kept, KeyPackagesHold, Perform;
      PushRecord(k, rows.keyPackages);
      rows := rows.(keyPackages := rows.keyPackages + [k]);
    }

    /** The identity's own array, as it is; a new empty one when there is none. */
    method ListKeyPackagesForIdentity(owner: Id) returns (list: SharedArray<KeyPackage>)
      requires Valid()
      ensures (rows, KeyPackages(list.items)) == Perform(rows, ListKeyPackages(owner))
      ensures if owner in keyPackagesByIdentity then list == keyPackagesByIdentity[owner] else fresh(list)
    {
      if owner in keyPackagesByIdentity {
        return keyPackagesByIdentity[owner];
      }
      list := new SharedArray();
    }

    /** The records of one identity after the other, each identity's in their order. */
    method ListAllKeyPackages() returns (list: seq<KeyPackage>)
      requires Valid()
      ensures forall o: Id :: OwnedBy(list, o) == OwnedBy(rows.keyPackages, o)
      ensures (rows, AllKeyPackages(multiset(list))) == Perform(rows, ListAll)
    {
      hide OwnedBy, Splits, LogsHold, Kept;
      list := [];
      var todo := keyPackagesByIdentity.Keys;
      NothingOwned();
      while todo != {}
        invariant todo <= keyPackagesByIdentity.Keys
        invariant forall o: Id :: OwnedBy(list, o)
                    == if o in keyPackagesByIdentity && o !in todo then keyPackagesByIdentity[o].items else []
        decreases |todo|
      {
        var owner :| owner in todo;
        var keyPackages := keyPackagesByIdentity[owner];
        ghost var before := list;
        for index := 0 to |keyPackages.items|
          invariant list == before + keyPackages.items[..index]
        {
          list := list + [keyPackages.items[index]];
        }
        assert keyPackages.items[..|keyPackages.items|] == keyPackages.items;
        OneOwnersRecords(before, rows.keyPackages, owner);
        todo := todo - {owner};
      }
      SameOwnersSameRows(list, rows.keyPackages);
    }

    /** Where a reference is stored. */
    method FindKeyPackage(ref: Id) returns (at: Option<(Id, nat)>)
      requires Valid()
      ensures at.None? ==> ByRef(rows.keyPackages, ref) == None
      ensures at.Some? ==>
                && at.value.0 in keyPackagesByIdentity
                && at.value.1 < |keyPackagesByIdentity[at.value.0].items|
                && ByRef(rows.keyPackages, ref) == Some(keyPackagesByIdentity[at.value.0].items[at.value.1])
    {
      var todo := keyPackagesByIdentity.Keys;
      while todo != {}
        invariant todo <= keyPackagesByIdentity.Keys
        invariant forall o: Id | o in keyPackagesByIdentity && o !in todo ::
                    forall k | k in keyPackagesByIdentity[o].items :: k.ref != ref
        decreases |todo|
      {
        var owner :| owner in todo;
        var records := keyPackagesByIdentity[owner].items;
        var i := 0;
        while i < |records|
          invariant 0 <= i <= |records|
          invariant forall j :: 0 <= j < i ==> records[j].ref != ref
        {
          if records[i].ref == ref {
            FoundIsStored(rows.keyPackages, owner, records[i]);
            return Some((owner, i));
          }
          i := i + 1;
        }
        todo := todo - {owner};
      }
      NotStored(rows.keyPackages, ref);
      return None;
    }

    method GetKeyPackage(ref: Id) returns (r: Option<KeyPackage>)
      requires Valid()
      ensures (rows, Found(r)) == Perform(rows, Op.GetKeyPackage(ref))
    {
      var at := FindKeyPackage(ref);
      return if at.None? then None else Some(keyPackagesByIdentity[at.value.0].items[at.value.1]);
    }

    /** Splice a record out of its identity's array, and drop the array when it is empty. */
    method SpliceRecord(owner: Id, i: nat, ghost kps: seq<KeyPackage>) returns (removed: KeyPackage)
      requires KeyPackagesHold(kps) && UniqueRefs(kps)
      requires owner in keyPackagesByIdentity && i < |keyPackagesByIdentity[owner].items|
      modifies this`keyPackagesByIdentity, keyPackagesByIdentity.Values
      ensures removed == old(keyPackagesByIdentity[owner].items)[i]
      ensures KeyPackagesHold(Without(kps, removed.ref))
      ensures keyPackagesByIdentity.Values <= old(keyPackagesByIdentity.Values)
      ensures SameArrays(old(keyPackagesByIdentity), keyPackagesByIdentity)
      ensures forall o: Id | o in old(keyPackagesByIdentity) ::
                old(keyPackagesByIdentity)[o].items == OwnedBy(Without(kps, removed.ref), o)
    {
      OwnedWithout(kps, owner, i);
      hide OwnedBy, Without, UniqueRefs;
      removed := keyPackagesByIdentity[owner].SpliceOne(i);
      if |keyPackagesByIdentity[owner].items| == 0 {
        keyPackagesByIdentity := keyPackagesByIdentity - {owner};
      }
    }

    method RemoveAt(owner: Id, i: nat) returns (removed: KeyPackage)
      requires Valid() && owner in keyPackagesByIdentity && i < |keyPackagesByIdentity[owner].items|
      modifies this, keyPackagesByIdentity.Values
      ensures removed == old(keyPackagesByIdentity[owner].items)[i]
      ensures Valid() && rows == Perform(old(rows), Op.RemoveKeyPackage(removed.ref)).0
      ensures keyPackagesByIdentity.Values <= old(keyPackagesByIdentity.Values)
      ensures SameArrays(old(keyPackagesByIdentity), keyPackagesByIdentity)
      ensures forall o: Id | o in old(keyPackagesByIdentity) ::
                old(keyPackagesByIdentity)[o].items == OwnedBy(rows.keyPackages, o)
    {
      hide Splits, LogsHold, OwnedBy, Without, Kept, Perform, KeyPackagesHold, SameArrays, UniqueRefs;
      ghost var ref := keyPackagesByIdentity[owner].items[i].ref;
      PerformKeeps(rows, Op.RemoveKeyPackage(ref));
      RemoveIs(rows, ref);
      KeptIsUnique(rows);
      removed := SpliceRecord(owner, i, rows.keyPackages);
      rows := rows.(keyPackages := Without(rows.keyPackages, removed.ref));
    }

    /** Remove a record; whoever holds its identity's array sees that array shrink. */
    method RemoveKeyPackage(ref: Id) returns (r: Option<KeyPackage>)
      requires Valid()
      modifies this, keyPackagesByIdentity.Values
      ensures Valid() && (rows, Found(r)) == Perform(old(rows), Op.RemoveKeyPackage(ref))
      ensures keyPackagesByIdentity.Values <= old(keyPackagesByIdentity.Values)
      ensures SameArrays(old(keyPackagesByIdentity), keyPackagesByIdentity)
      ensures forall o: Id | o in old(keyPackagesByIdentity) ::
                old(keyPackagesByIdentity)[o].items == OwnedBy(rows.keyPackages, o)
    {
      RemoveIs(rows, ref);
      FoundHasRef(rows.keyPackages, ref);
      ArraysHold(rows.keyPackages);
      hide Valid, OwnedBy, Without, ByRef, Perform;
      var at := FindKeyPackage(ref);
      if at.Some? {
        var removed := RemoveAt(at.value.0, at.value.1);
        return Some(removed);
      }
      return None;
    }

    lemma ArraysHold(kps: seq<KeyPackage>)
      requires KeyPackagesHold(kps)
      ensures forall o: Id | o in keyPackagesByIdentity :: keyPackagesByIdentity[o].items == OwnedBy(kps, o)
    {
    }

    method ConsumeKeyPackage(identifier: Id) returns (r: Option<KeyPackage>)
      requires Valid()
      modifies this, keyPackagesByIdentity.Values
      ensures Valid() && (rows, Found(r)) == Perform(old(rows), Op.ConsumeKeyPackage(identifier))
      ensures keyPackagesByIdentity.Values <= old(keyPackagesByIdentity.Values)
    {
      hide Splits, LogsHold, Kept;
      var direct := GetKeyPackage(identifier);
      if direct.Some? {
        ByRefFinds(rows.keyPackages, identifier);
        if direct.value.lastResort {
          return direct;
        }
        r := RemoveKeyPackage(identifier);
        return;
      }
      r := ConsumeByIdentity(identifier);
    }

    method ConsumeByIdentity(owner: Id) returns (r: Option<KeyPackage>)
      requires Valid()
      modifies this, keyPackagesByIdentity.Values
      ensures Valid()
      ensures (rows.keyPackages, r) == Spend(old(rows).keyPackages, Preferred(OwnedBy(old(rows).keyPackages, owner)))
      ensures rows == old(rows).(keyPackages := rows.keyPackages)
      ensures keyPackagesByIdentity.Values <= old(keyPackagesByIdentity.Values)
    {
      hide Splits, LogsHold, OnePerRequester, Bounded, Dense;
      if owner !in keyPackagesByIdentity {
        return None;
      }
      var records := keyPackagesByIdentity[owner].items;
      assert records == OwnedBy(rows.keyPackages, owner) != [];
      var i := 0;
      while i < |records| && records[i].lastResort
        invariant 0 <= i <= |records|
        invariant forall j :: 0 <= j < i ==> records[j].lastResort
      {
        i := i + 1;
      }
      PreferredAt(records, i);
      if i < |records| {
        FoundIsStored(rows.keyPackages, owner, records[i]);
        RemoveIs(rows, records[i].ref);
        hide Kept, KeyPackagesHold, OwnedBy, Preferred, Perform, Without, ByRef;
        r := RemoveKeyPackage(records[i].ref);
        return;
      }
      return Some(records[|records| - 1]);
    }

    // -------------------------------------------------------------------
    // Welcomes
    // -------------------------------------------------------------------

    method StoreWelcome(w: Welcome)
      requires Valid()
      modifies this`welcomesByIdentity, this`rows
      ensures Valid() && rows == Perform(old(rows), Op.StoreWelcome(w)).0
    {
      AppendSplits(welcomesByIdentity, rows.welcomes, TargetOf, w);
      hide Splits, LogsHold, KeyPackagesHold;
      welcomesByIdentity := welcomesByIdentity[w.target := Entries(welcomesByIdentity, w.target) + [w]];
      rows := rows.(welcomes := rows.welcomes + [w]);
    }

    method FetchPendingWelcomes(target: Id, consumed: seq<ConsumedWelcome>) returns (r: seq<Welcome>)
      requires Valid()
      modifies this`welcomesByIdentity, this`rows
      ensures Valid() && (rows, Welcomes(r)) == Perform(old(rows), FetchWelcomes(target, consumed))
    {
      FetchWelcomesIs(rows, target, consumed);
      hide LogsHold, UniqueRefs, OnePerRequester, Bounded, Dense, KeyPackagesHold, Perform, OwnedBy;
      r := Entries(welcomesByIdentity, target);
      WelcomesRetired(welcomesByIdentity, rows.welcomes, target, consumed);
      if consumed == [] {
        FilterAll(rows.welcomes, (w: Welcome) => !(w.target == target && RetiredWelcome(w, consumed)));
      } else {
        r := Filter(r, (w: Welcome) => !RetiredWelcome(w, consumed));
        welcomesByIdentity := Put(welcomesByIdentity, target, r);
      }
      rows := rows.(welcomes := RetireWelcomes(rows.welcomes, target, consumed));
      SplitsAt(welcomesByIdentity, rows.welcomes, TargetOf, target, (w: Welcome) => w.target == target);
      hide Splits;
      PutEntries(old(welcomesByIdentity), target, r);
    }

    method DeleteExpiredWelcomes(threshold: int) returns (deleted: nat)
      requires Valid()
      modifies this`welcomesByIdentity, this`rows
      ensures Valid() && (rows, Deleted(deleted)) == Perform(old(rows), ExpireWelcomes(threshold))
    {
      if threshold <= 0 {
        return 0;
      }
      PerformKeeps(rows, ExpireWelcomes(threshold));
      ExpireWelcomesIs(rows, threshold);
      hide Splits, LogsHold, Kept, Perform, KeyPackagesHold;
      var after: map<Id, seq<Welcome>>;
      after, deleted := Expire(welcomesByIdentity, rows.welcomes, TargetOf, (w: Welcome) => w.at >= threshold);
      welcomesByIdentity := after;
      rows := rows.(welcomes := FreshWelcomes(rows.welcomes, threshold));
    }

    // -------------------------------------------------------------------
    // Join requests
    // -------------------------------------------------------------------

    /** Put another table of requests in place. */
    method SetRequests(table: map<Id, seq<JoinRequest>>, ghost requests: seq<JoinRequest>)
      requires Valid() && Splits(table, requests, GroupOf) && Kept(rows.(requests := requests))
      modifies this`joinRequestsByGroup, this`rows
      ensures Valid() && joinRequestsByGroup == table && rows == old(rows).(requests := requests)
    {
      hide Splits, LogsHold, Kept, KeyPackagesHold;
      joinRequestsByGroup := table;
      rows := rows.(requests := requests);
    }

    /** Where the same requester has asked before, or the length of the list. */
    static method IndexOfAsk(list: seq<JoinRequest>, r: JoinRequest) returns (i: nat)
      ensures i <= |list| && (i < |list| ==> SameAsk(list[i], r))
      ensures forall j :: 0 <= j < i ==> !SameAsk(list[j], r)
    {
      i := 0;
      while i < |list| && !SameAsk(list[i], r)
        invariant 0 <= i <= |list|
        invariant forall j :: 0 <= j < i ==> !SameAsk(list[j], r)
      {
        i := i + 1;
      }
    }

    method StoreJoinRequest(r: JoinRequest) returns (stored: Result<JoinRequest, StorageError>)
      requires Valid()
      modifies this`joinRequestsByGroup, this`rows
      ensures Valid()
      ensures (rows, if stored.Ok? then Requests([stored.value]) else Failed(stored.error))
           == Perform(old(rows), Op.StoreJoinRequest(r))
    {
      PerformKeeps(rows, Op.StoreJoinRequest(r));
      StoreRequestIs(rows, r);
      SplitsAt(joinRequestsByGroup, rows.requests, GroupOf, r.group, (x: JoinRequest) => x.group == r.group);
      AskedInGroup(rows.requests, r);
      RequestPairs(rows.requests, r.group);
      hide Perform, KeyPackagesHold, LogsHold, RequestsFor;
      var existing := Entries(joinRequestsByGroup, r.group);
      var i := IndexOfAsk(existing, r);
      if i < |existing| {
        RefreshOne(existing, r, i);
        RefreshSplits(joinRequestsByGroup, rows.requests, r);
        hide Splits, Kept, Refreshed;
        var duplicate := existing[i].(ref := r.ref, at := r.at);
        SetRequests(joinRequestsByGroup[r.group := existing[i := duplicate]], Refreshed(rows.requests, r));
        return Ok(duplicate);
      }
      if |existing| >= MAX_PENDING_REQUESTS {
        return Err(TooManyRequests);
      }
      AppendSplits(joinRequestsByGroup, rows.requests, GroupOf, r);
      hide Splits, Kept;
      SetRequests(joinRequestsByGroup[r.group := existing + [r]], rows.requests + [r]);
      return Ok(r);
    }

    method FetchPendingJoinRequests(group: Id, consumed: seq<ConsumedRequest>) returns (r: seq<JoinRequest>)
      requires Valid()
      modifies this`joinRequestsByGroup, this`rows
      ensures Valid() && (rows, Requests(r)) == Perform(old(rows), FetchRequests(group, consumed))
    {
      PerformKeeps(rows, FetchRequests(group, consumed));
      FetchRequestsIs(rows, group, consumed);
      r := Entries(joinRequestsByGroup, group);
      RequestsRetired(joinRequestsByGroup, rows.requests, group, consumed);
      hide LogsHold, Kept, KeyPackagesHold, Perform, OwnedBy;
      var table := joinRequestsByGroup;
      if consumed == [] {
        FilterAll(rows.requests, (x: JoinRequest) => !(x.group == group && RetiredRequest(x, consumed)));
      } else {
        r := Filter(r, (x: JoinRequest) => !RetiredRequest(x, consumed));
        table := Put(table, group, r);
      }
      SplitsAt(table, RetireRequests(rows.requests, group, consumed), GroupOf, group, (x: JoinRequest) => x.group == group);
      PutEntries(joinRequestsByGroup, group, r);
      hide Splits, RetireRequests;
      SetRequests(table, RetireRequests(rows.requests, group, consumed));
    }

    /** Group by group, each retired and read in turn. */
    method FetchManyPendingJoinRequests(asked: seq<Id>, all: seq<ConsumedInGroup>) returns (r: seq<JoinRequest>)
      requires Valid()
      modifies this`joinRequestsByGroup, this`rows
      ensures Valid() && (rows, Requests(r)) == Perform(old(rows), FetchManyRequests(asked, all))
    {
      FetchManyIs(rows, asked, all);
      hide Perform, Splits, LogsHold, Kept, KeyPackagesHold;
      r := [];
      var todo := asked;
      ghost var final := RetireMany(rows.requests, asked, all);
      assert r + RequestsOfMany(final, todo) == RequestsOfMany(final, asked);
      while todo != []
        invariant Valid() && rows == old(rows).(requests := rows.requests)
        invariant RetireMany(rows.requests, todo, all) == final
        invariant r + RequestsOfMany(final, todo) == RequestsOfMany(final, asked)
        decreases |todo|
      {
        ReadEarlyIsReadLate(rows.requests, todo, all);
        FetchRequestsIs(rows, todo[0], ConsumedOf(all, todo[0]));
        var list := FetchPendingJoinRequests(todo[0], ConsumedOf(all, todo[0]));
        assert (r + list) + RequestsOfMany(final, todo[1..]) == r + (list + RequestsOfMany(final, todo[1..]));
        r := r + list;
        todo := todo[1..];
      }
      assert r + RequestsOfMany(final, []) == r;
    }

    method DeleteExpiredJoinRequests(threshold: int) returns (deleted: nat)
      requires Valid()
      modifies this`joinRequestsByGroup, this`rows
      ensures Valid() && (rows, Deleted(deleted)) == Perform(old(rows), ExpireRequests(threshold))
    {
      if threshold <= 0 {
        return 0;
      }
      PerformKeeps(rows, ExpireRequests(threshold));
      ExpireRequestsIs(rows, threshold);
      hide Splits, LogsHold, Kept, Perform, KeyPackagesHold;
      var after: map<Id, seq<JoinRequest>>;
      after, deleted := Expire(joinRequestsByGroup, rows.requests, GroupOf, (x: JoinRequest) => x.at >= threshold);
      SetRequests(after, FreshRequests(rows.requests, threshold));
    }

    // -------------------------------------------------------------------
    // Messages
    // -------------------------------------------------------------------

    method AppendGroupMessage(group: Id, payload: nat, at: int) returns (m: GroupMessage)
      requires Valid()
      modifies this`groups, this`rows
      ensures Valid() && (rows, Messages([m])) == Perform(old(rows), AppendMessage(group, payload, at))
    {
      hide Splits, Kept, KeyPackagesHold, Perform;
      PerformKeeps(rows, AppendMessage(group, payload, at));
      AppendMessageIs(rows, group, payload, at);
      var log := if group in groups then groups[group] else GroupLog(1, 0, []);
      assert LogEntries(groups, group) == MessagesOf(rows.messages, group);
      m := GroupMessage(log.nextCursor, group, payload, at);
      LogGrows(groups, rows.messages, m);
      hide LogsHold;
      groups := groups[group := GroupLog(log.nextCursor + 1, m.cursor, log.messages + [m])];
      rows := rows.(messages := rows.messages + [m]);
    }

    method FetchGroupMessages(ask: Ask) returns (r: seq<GroupMessage>)
      requires Valid()
      ensures (rows, Messages(r)) == Perform(rows, Op.FetchGroupMessages(ask))
    {
      var messages := if ask.group in groups then groups[ask.group].messages else [];
      assert LogEntries(groups, ask.group) == MessagesOf(rows.messages, ask.group);
      if ask.after.None? {
        FilterSame(rows.messages, (m: GroupMessage) => m.group == ask.group, (m: GroupMessage) => Wanted(m, ask));
        return messages;
      }
      FilterBoth(rows.messages, (m: GroupMessage) => m.group == ask.group,
                 (m: GroupMessage) => m.cursor > ask.after.value, (m: GroupMessage) => Wanted(m, ask));
      return Filter(messages, (m: GroupMessage) => m.cursor > ask.after.value);
    }

    method FetchManyGroupMessages(asks: seq<Ask>) returns (r: seq<GroupMessage>)
      requires Valid()
      ensures (rows, Messages(r)) == Perform(rows, FetchManyMessages(asks))
    {
      r := [];
      var todo := asks;
      assert r + FetchMany(rows.messages, todo) == FetchMany(rows.messages, asks);
      while todo != []
        invariant r + FetchMany(rows.messages, todo) == FetchMany(rows.messages, asks)
        decreases |todo|
      {
        var list := FetchGroupMessages(todo[0]);
        assert (r + list) + FetchMany(rows.messages, todo[1..]) == r + (list + FetchMany(rows.messages, todo[1..]));
        r := r + list;
        todo := todo[1..];
      }
      assert r + FetchMany(rows.messages, []) == r;
    }

    method GetGroupRouting(group: Id) returns (last: Option<nat>)
      requires Valid()
      ensures (rows, Routed(last)) == Perform(rows, GetRouting(group))
    {
      assert LogEntries(groups, group) == MessagesOf(rows.messages, group);
      return if group in groups then Some(groups[group].lastMessageCursor) else None;
    }
  }

  lemma OwnedByAppend(rows: seq<KeyPackage>, k: KeyPackage)
    ensures forall o: Id :: OwnedBy(rows + [k], o) == if o == k.owner then OwnedBy(rows, o) + [k] else OwnedBy(rows, o)
  {
    forall o: Id
      ensures OwnedBy(rows + [k], o) == if o == k.owner then OwnedBy(rows, o) + [k] else OwnedBy(rows, o)
    {
      FilterAppend(rows, [k], (x: KeyPackage) => x.owner == o);
    }
  }

  lemma FoundIsStored(rows: seq<KeyPackage>, owner: Id, k: KeyPackage)
    requires UniqueRefs(rows) && k in OwnedBy(rows, owner)
    ensures ByRef(rows, k.ref) == Some(k) && k.owner == owner
  {
    FilterIn(rows, (x: KeyPackage) => x.owner == owner, k);
    ByRefUnique(rows, k);
  }

  lemma NotStored(rows: seq<KeyPackage>, ref: Id)
    requires forall o: Id :: forall k | k in OwnedBy(rows, o) :: k.ref != ref
    ensures ByRef(rows, ref).None?
  {
    ByRefFinds(rows, ref);
    forall k | k in rows
      ensures k.ref != ref
    {
      FilterIn(rows, (x: KeyPackage) => x.owner == k.owner, k);
      assert k in OwnedBy(rows, k.owner);
    }
  }

  /** The first regular record of a list is the one preferred, and without one it is the last. */
  lemma {:induction false} PreferredAt(owned: seq<KeyPackage>, i: nat)
    requires i <= |owned| && owned != [] && forall j :: 0 <= j < i ==> owned[j].lastResort
    requires i < |owned| ==> !owned[i].lastResort
    ensures Preferred(owned) == Some(if i < |owned| then owned[i] else owned[|owned| - 1])
  {
    RegularsFrom(owned, i);
  }

  lemma {:induction false} RegularsFrom(owned: seq<KeyPackage>, i: nat)
    requires i <= |owned| && forall j :: 0 <= j < i ==> owned[j].lastResort
    requires i < |owned| ==> !owned[i].lastResort
    ensures if i < |owned| then Regulars(owned) != [] && Regulars(owned)[0] == owned[i] else Regulars(owned) == []
  {
    if i > 0 {
      RegularsFrom(owned[1..], i - 1);
    }
  }

  lemma FoundHasRef(rows: seq<KeyPackage>, ref: Id)
    ensures ByRef(rows, ref).Some? ==> ByRef(rows, ref).value.ref == ref
    ensures ByRef(rows, ref).None? ==> Without(rows, ref) == rows
  {
    ByRefFinds(rows, ref);
    if ByRef(rows, ref).None? {
      FilterAll(rows, (k: KeyPackage) => k.ref != ref);
    }
  }

  lemma KeptIsUnique(rows: Rows)
    requires Kept(rows)
    ensures UniqueRefs(rows.keyPackages)
  {
  }

  /** Within one group, too, no two requests are of one requester. */
  lemma RequestPairs(rows: seq<JoinRequest>, group: Id)
    requires OnePerRequester(rows)
    ensures OnePerRequester(RequestsFor(rows, group))
  {
    FilterKeepsPairs(rows, (x: JoinRequest) => x.group == group, (a: JoinRequest, b: JoinRequest) => !SameAsk(a, b));
  }

  lemma NothingOwned()
    ensures forall o: Id :: OwnedBy([], o) == []
  {
  }

  /** Records all of one owner, put behind others, are that owner's alone. */
  lemma OneOwnersRecords(before: seq<KeyPackage>, rows: seq<KeyPackage>, owner: Id)
    ensures forall o: Id :: OwnedBy(before + OwnedBy(rows, owner), o)
              == OwnedBy(before, o) + if o == owner then OwnedBy(rows, owner) else []
  {
    forall o: Id
      ensures OwnedBy(before + OwnedBy(rows, owner), o) == OwnedBy(before, o) + if o == owner then OwnedBy(rows, owner) else []
    {
      var own, other := (k: KeyPackage) => k.owner == owner, (k: KeyPackage) => k.owner == o;
      FilterAppend(before, OwnedBy(rows, owner), other);
      forall k | k in OwnedBy(rows, owner)
        ensures k.owner == owner
      {
        FilterIn(rows, own, k);
      }
      if o == owner {
        FilterAll(OwnedBy(rows, owner), other);
      } else {
        FilterNone(OwnedBy(rows, owner), other);
      }
    }
  }

  lemma {:induction false} OwnCount(rows: seq<KeyPackage>, k: KeyPackage)
    ensures multiset(OwnedBy(rows, k.owner))[k] == multiset(rows)[k]
  {
    if rows != [] {
      OwnCount(rows[1..], k);
      assert rows == [rows[0]] + rows[1..];
      var head := if rows[0].owner == k.owner then [rows[0]] else [];
      assert OwnedBy(rows, k.owner) == head + OwnedBy(rows[1..], k.owner);
    }
  }

  lemma SameOwnersSameRows(a: seq<KeyPackage>, b: seq<KeyPackage>)
    requires forall o: Id :: OwnedBy(a, o) == OwnedBy(b, o)
    ensures multiset(a) == multiset(b)
  {
    forall k: KeyPackage
      ensures multiset(a)[k] == multiset(b)[k]
    {
      OwnCount(a, k);
      OwnCount(b, k);
    }
  }

  /** Dropping a reference splices one identity's list and leaves the others. */
  lemma OwnedWithout(rows: seq<KeyPackage>, owner: Id, i: nat)
    requires UniqueRefs(rows) && i < |OwnedBy(rows, owner)|
    ensures var ref := OwnedBy(rows, owner)[i].ref;
            && OwnedBy(Without(rows, ref), owner) == OwnedBy(rows, owner)[..i] + OwnedBy(rows, owner)[i + 1..]
            && forall o: Id | o != owner :: OwnedBy(Without(rows, ref), o) == OwnedBy(rows, o)
  {
    var k := OwnedBy(rows, owner)[i];
    FoundIsStored(rows, owner, k);
    var keep := (x: KeyPackage) => x.ref != k.ref;
    FilterKeepsUnique(rows, (x: KeyPackage) => x.owner == owner);
    DropRow(OwnedBy(rows, owner), i);
    FilterCommutes(rows, keep, (x: KeyPackage) => x.owner == owner);
    forall o: Id | o != owner
      ensures OwnedBy(Without(rows, k.ref), o) == OwnedBy(rows, o)
    {
      FilterCommutes(rows, keep, (x: KeyPackage) => x.owner == o);
      forall x | x in OwnedBy(rows, o)
        ensures keep(x)
      {
        FoundIsStored(rows, o, x);
      }
      FilterAll(OwnedBy(rows, o), keep);
    }
  }

  lemma WelcomesRetired(table: map<Id, seq<Welcome>>, rows: seq<Welcome>, target: Id, consumed: seq<ConsumedWelcome>)
    requires Splits(table, rows, TargetOf)
    ensures Splits(Put(table, target, Filter(Entries(table, target), (w: Welcome) => !RetiredWelcome(w, consumed))),
                   RetireWelcomes(rows, target, consumed), TargetOf)
  {
    var keep := (w: Welcome) => !(w.target == target && RetiredWelcome(w, consumed));
    var after := Put(table, target, Filter(Entries(table, target), (w: Welcome) => !RetiredWelcome(w, consumed)));
    forall k: Id
      ensures Entries(after, k) == Filter(Entries(table, k), keep)
    {
      forall w | w in Entries(table, k)
        ensures w.target == k
      {
        SplitsAt(table, rows, TargetOf, k, (x: Welcome) => x.target == k);
        FilterIn(rows, (x: Welcome) => x.target == k, w);
      }
      FilterSame(Entries(table, k), (w: Welcome) => !RetiredWelcome(w, consumed), if k == target then keep else w => !RetiredWelcome(w, consumed));
      if k != target {
        FilterAll(Entries(table, k), keep);
      }
    }
    FilterSplits(table, after, rows, TargetOf, keep);
  }

  lemma RequestsRetired(table: map<Id, seq<JoinRequest>>, rows: seq<JoinRequest>, group: Id, consumed: seq<ConsumedRequest>)
    requires Splits(table, rows, GroupOf)
    ensures Splits(Put(table, group, Filter(Entries(table, group), (r: JoinRequest) => !RetiredRequest(r, consumed))),
                   RetireRequests(rows, group, consumed), GroupOf)
  {
    var keep := (r: JoinRequest) => !(r.group == group && RetiredRequest(r, consumed));
    var after := Put(table, group, Filter(Entries(table, group), (r: JoinRequest) => !RetiredRequest(r, consumed)));
    forall k: Id
      ensures Entries(after, k) == Filter(Entries(table, k), keep)
    {
      forall r | r in Entries(table, k)
        ensures r.group == k
      {
        SplitsAt(table, rows, GroupOf, k, (x: JoinRequest) => x.group == k);
        FilterIn(rows, (x: JoinRequest) => x.group == k, r);
      }
      FilterSame(Entries(table, k), (r: JoinRequest) => !RetiredRequest(r, consumed), if k == group then keep else r => !RetiredRequest(r, consumed));
      if k != group {
        FilterAll(Entries(table, k), keep);
      }
    }
    FilterSplits(table, after, rows, GroupOf, keep);
  }

  lemma RefreshSplits(table: map<Id, seq<JoinRequest>>, rows: seq<JoinRequest>, r: JoinRequest)
    requires Splits(table, rows, GroupOf)
    ensures Splits(table[r.group := Refreshed(Entries(table, r.group), r)], Refreshed(rows, r), GroupOf)
  {
    var after := table[r.group := Refreshed(Entries(table, r.group), r)];
    forall k: Id
      ensures Entries(after, k) == Part(Refreshed(rows, r), GroupOf, k)
    {
      RefreshedSplits(rows, r, k);
      SplitsAt(table, rows, GroupOf, k, (x: JoinRequest) => x.group == k);
      SplitsAt(table, rows, GroupOf, r.group, (x: JoinRequest) => x.group == r.group);
      PartIs(Refreshed(rows, r), GroupOf, k, (x: JoinRequest) => x.group == k);
    }
  }

  lemma LogGrows(groups: map<Id, GroupLog>, rows: seq<GroupMessage>, m: GroupMessage)
    requires LogsHold(groups, rows) && m.cursor == |LogEntries(groups, m.group)| + 1
    ensures LogsHold(groups[m.group := GroupLog(m.cursor + 1, m.cursor, LogEntries(groups, m.group) + [m])], rows + [m])
  {
    forall g: Id
      ensures MessagesOf(rows + [m], g) == if g == m.group then MessagesOf(rows, g) + [m] else MessagesOf(rows, g)
    {
      FilterAppend(rows, [m], (x: GroupMessage) => x.group == g);
    }
  }
}
