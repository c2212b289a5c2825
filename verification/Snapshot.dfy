/**
 * Saving a session and bringing it back: everything a snapshot lists, and the
 * exact condition under which restoring gives back what was saved.
 */
module Snapshot {
  import opened Base
  import opened GroupMerge
  import opened MergedHistory
  import opened SessionStore

  // ---------------------------------------------------------------------
  // Pending operations
  // ---------------------------------------------------------------------

  datatype Op = Op(alias: Key, commit: nat, body: nat)

  type Pending = Table<seq<Op>>

  function CommitOf(op: Op): nat { op.commit }

  function OpsOf(p: Pending, alias: Key): seq<Op> {
    var found := Get(p, alias);
    if found.Some? then found.value else []
  }

  /** An operation whose Commit is already waiting under its alias is left out. */
  function Enqueue(p: Pending, op: Op): Pending {
    if op.commit in Keys(OpsOf(p, op.alias), CommitOf) then p
    else Put(p, op.alias, OpsOf(p, op.alias) + [op])
  }

  function EnqueueAll(p: Pending, ops: seq<Op>): Pending {
    if ops == [] then p else Enqueue(EnqueueAll(p, ops[..|ops| - 1]), ops[|ops| - 1])
  }

  function Survivor(canonical: Table<Key>, alias: Key): Key {
    var found: Option<Key> := Get<Key>(canonical, alias);
    if found.Some? then found.value else alias
  }

  function Moved(ops: seq<Op>, alias: Key): seq<Op> {
    if ops == [] then [] else Moved(ops[..|ops| - 1], alias) + [ops[|ops| - 1].(alias := alias)]
  }

  /** Every saved operation, in order, under the alias that survived. */
  function AllMoved(canonical: Table<Key>, saved: Pending): seq<Op> {
    if saved == [] then []
    else
      var last := saved[|saved| - 1];
      AllMoved(canonical, saved[..|saved| - 1]) + Moved(last.1, Survivor(canonical, last.0))
  }

  function RestorePending(canonical: Table<Key>, saved: Pending): Pending { EnqueueAll([], AllMoved(canonical, saved)) }

  function Under(alias: Key): Op -> bool { (op: Op) => op.alias == alias }

  lemma NothingWaits(alias: Key)
    ensures OpsOf(EnqueueAll([], []), alias) == Dedupe(Filter([], Under(alias)), CommitOf) && Get(EnqueueAll([], []), alias).None?
  {
  }

  lemma EnqueuedLast(rest: seq<Op>, op: Op)
    ensures EnqueueAll([], rest + [op]) == Enqueue(EnqueueAll([], rest), op)
  {
    assert (rest + [op])[..|rest|] == rest;
    hide Enqueue;
  }

  lemma OneMoreUnder(rest: seq<Op>, op: Op, alias: Key)
    ensures Filter(rest + [op], Under(alias))
         == if op.alias == alias then Filter(rest, Under(alias)) + [op] else Filter(rest, Under(alias))
  {
    FilterAppend(rest, [op], Under(alias));
    assert [op][1..] == [] && Filter([], Under(alias)) == [];
    assert Filter(rest, Under(alias)) + [] == Filter(rest, Under(alias));
  }

  /** What waits under an alias is exactly what was moved there, each Commit once, first come first. */
  lemma {:induction false} EachCommitOnce(ops: seq<Op>, alias: Key)
    ensures OpsOf(EnqueueAll([], ops), alias) == Dedupe(Filter(ops, Under(alias)), CommitOf)
    ensures Get(EnqueueAll([], ops), alias).Some? ==> OpsOf(EnqueueAll([], ops), alias) != []
  {
    hide EnqueueAll, Enqueue, OpsOf, Filter, Dedupe, Get, Under, CommitOf;
    if ops == [] {
      NothingWaits(alias);
    } else {
      var rest, op := ops[..|ops| - 1], ops[|ops| - 1];
      assert ops == rest + [op];
      EachCommitOnce(rest, alias);
      OneMoreUnder(rest, op, alias);
      EnqueuedLast(rest, op);
      OneMoreOp(EnqueueAll([], rest), Filter(rest, Under(alias)), op, alias);
    }
  }

  lemma OneMoreOp(p: Pending, mine: seq<Op>, op: Op, alias: Key)
    requires OpsOf(p, alias) == Dedupe(mine, CommitOf) && (Get(p, alias).Some? ==> OpsOf(p, alias) != [])
    ensures OpsOf(Enqueue(p, op), alias) == Dedupe(if op.alias == alias then mine + [op] else mine, CommitOf)
    ensures Get(Enqueue(p, op), alias).Some? ==> OpsOf(Enqueue(p, op), alias) != []
  {
    PutThenGet(p, op.alias, OpsOf(p, op.alias) + [op], alias);
    DedupeStep(mine, op, CommitOf);
    DedupeIs(mine, CommitOf);
    hide Dedupe, Keys, Put, Get;
  }

  // ---------------------------------------------------------------------
  // The whole image
  // ---------------------------------------------------------------------

  datatype Image = Image(
    keyPackages: Table<nat>, groups: seq<Group>, welcomes: Table<Welcome>, pending: Pending, accepted: seq<Key>,
    consumedWelcomes: Acks, fetchedRequests: Acks, consumedRequests: Acks)

  function QueueBucket(acks: Acks, owner: Key, refs: Table<nat>): Acks {
    if refs == [] then acks
    else
      var last := refs[|refs| - 1];
      QueueAck(QueueBucket(acks, owner, refs[..|refs| - 1]), owner, last.0, last.1)
  }

  function RestoreAcks(saved: Acks): Acks {
    if saved == [] then []
    else
      var last := saved[|saved| - 1];
      QueueBucket(RestoreAcks(saved[..|saved| - 1]), last.0, last.1)
  }

  function RestoreFetched(saved: Acks): Acks {
    if saved == [] then []
    else
      var last := saved[|saved| - 1];
      Put(RestoreFetched(saved[..|saved| - 1]), last.0, PutAll([], last.1))
  }

  function AddKeyPackages(saved: Table<nat>): Option<Table<nat>> {
    if saved == [] then Some([])
    else
      var last := saved[|saved| - 1];
      match AddKeyPackages(saved[..|saved| - 1])
      case None => None
      case Some(t) => if Has(t, last.0) then None else Some(Put(t, last.0, last.1))
  }

  function RestoreWelcomes(accepted: seq<Key>, saved: Table<Welcome>): Table<Welcome> {
    if saved == [] then []
    else
      var last := saved[|saved| - 1];
      var rest := RestoreWelcomes(accepted, saved[..|saved| - 1]);
      if last.0 in accepted then rest else Put(rest, last.0, last.1)
  }

  function Restore(s: Image): Result<Image, Failure> {
    var accepted := AddAllCapped([], s.accepted, MAX_ACCEPTED);
    match AddKeyPackages(s.keyPackages)
    case None => Err(DuplicateKeyPackageAlias)
    case Some(keyPackages) =>
      match PlaceGroups(s.groups)
      case Err(e) => Err(e)
      case Ok(r) =>
        Ok(Image(keyPackages, r.groups, RestoreWelcomes(accepted, s.welcomes), RestorePending(r.canonical, s.pending),
                 accepted, RestoreAcks(s.consumedWelcomes), RestoreFetched(s.fetchedRequests), RestoreAcks(s.consumedRequests)))
  }

  function ReceivedAt(entry: (Key, Welcome)): nat { entry.1.at }

  /** A snapshot lists what the store holds, its Welcomes by time of receipt. */
  function Export(s: Image): Image { s.(welcomes := SortBy(s.welcomes, ReceivedAt)) }

  // ---------------------------------------------------------------------
  // A settled image
  // ---------------------------------------------------------------------

  ghost predicate KeptAcks(acks: Acks) {
    DistinctKeys(acks) && forall b | b in acks :: b.1 != [] && DistinctKeys(b.1)
  }

  ghost predicate KeptFetched(acks: Acks) { DistinctKeys(acks) && forall b | b in acks :: DistinctKeys(b.1) }

  ghost predicate KeptPending(p: Pending) {
    DistinctKeys(p) && forall b | b in p :: b.1 != [] && OneEach(b.1, CommitOf) && forall op | op in b.1 :: op.alias == b.0
  }

  ghost predicate KeptWelcomes(accepted: seq<Key>, welcomes: Table<Welcome>) {
    DistinctKeys(welcomes) && forall k: Key | k in accepted :: !Has(welcomes, k)
  }

  /** One alias per group id, one copy of everything, nothing both accepted and waiting. */
  ghost predicate Settled(s: Image) {
    && DistinctKeys(s.keyPackages) && DistinctGroups(s.groups)
    && Distinct(s.accepted) && |s.accepted| <= MAX_ACCEPTED && KeptWelcomes(s.accepted, s.welcomes)
    && KeptPending(s.pending)
    && KeptAcks(s.consumedWelcomes) && KeptAcks(s.consumedRequests) && KeptFetched(s.fetchedRequests)
  }

  // --- Tables grown at the end

  lemma {:induction false} DistinctAppend<V>(t: Table<V>, e: (Key, V))
    ensures DistinctKeys(t + [e]) <==> DistinctKeys(t) && !Has(t, e.0)
  {
    if t == [] {
      assert t + [e] == [e] && [e][1..] == [];
    } else {
      assert (t + [e])[0] == t[0] && (t + [e])[1..] == t[1..] + [e];
      DistinctAppend(t[1..], e);
      AppendKeys(t[1..], [e], t[0].0);
      HasCons([e], t[0].0);
      HasCons(t, e.0);
    }
  }

  lemma {:induction false} PutIn<V>(t: Table<V>, k: Key, v: V, b: (Key, V))
    requires b in Put(t, k, v)
    ensures b == (k, v) || b in t
  {
    if t != [] && t[0].0 != k && b != t[0] {
      PutIn(t[1..], k, v, b);
    }
  }

  lemma {:induction false} PutLast<V>(t: Table<V>, k: Key, v: V, w: V)
    requires !Has(t, k)
    ensures Put(t + [(k, v)], k, w) == t + [(k, w)]
    ensures Get(t + [(k, v)], k) == Some(v)
  {
    if t == [] {
      assert t + [(k, v)] == [(k, v)];
      assert [(k, v)][1..] == [];
    } else {
      HasCons(t, k);
      PutLast(t[1..], k, v, w);
      assert (t + [(k, v)])[0] == t[0] && (t + [(k, v)])[1..] == t[1..] + [(k, v)];
      assert [t[0]] + (t[1..] + [(k, w)]) == t + [(k, w)];
    }
  }

  lemma {:induction false} GetIn<V>(t: Table<V>, k: Key)
    requires Get(t, k).Some?
    ensures (k, Get(t, k).value) in t
  {
    if t[0].0 != k {
      GetIn(t[1..], k);
    } else {
      assert t[0] == (k, Get(t, k).value);
    }
  }

  // --- Key packages

  lemma {:induction false} KeyPackagesComeBack(saved: Table<nat>)
    ensures AddKeyPackages(saved) == if DistinctKeys(saved) then Some(saved) else None
  {
    if saved != [] {
      var rest, last := saved[..|saved| - 1], saved[|saved| - 1];
      KeyPackagesComeBack(rest);
      assert saved == rest + [last];
      DistinctAppend(rest, last);
      if !Has(rest, last.0) {
        PutNewAppends(rest, last.0, last.1);
      }
    }
  }

  // --- Acknowledgements

  lemma BucketOfKept(acks: Acks, owner: Key)
    requires KeptFetched(acks)
    ensures DistinctKeys(BucketOf(acks, owner))
  {
    if Get(acks, owner).Some? {
      GetIn(acks, owner);
      assert DistinctKeys((owner, Get(acks, owner).value).1);
    }
  }

  lemma QueueAckKeeps(acks: Acks, owner: Key, ack: Key, body: nat)
    requires KeptAcks(acks)
    ensures KeptAcks(QueueAck(acks, owner, ack, body))
  {
    var bucket := Put(BucketOf(acks, owner), ack, body);
    BucketOfKept(acks, owner);
    PutKeepsDistinct(BucketOf(acks, owner), ack, body);
    PutKeepsDistinct(acks, owner, bucket);
    assert bucket != [];
    forall b | b in Put(acks, owner, bucket)
      ensures b.1 != [] && DistinctKeys(b.1)
    {
      PutIn(acks, owner, bucket, b);
    }
  }

  lemma {:induction false} QueueBucketKeeps(acks: Acks, owner: Key, refs: Table<nat>)
    requires KeptAcks(acks)
    ensures KeptAcks(QueueBucket(acks, owner, refs))
  {
    if refs != [] {
      var last := refs[|refs| - 1];
      QueueBucketKeeps(acks, owner, refs[..|refs| - 1]);
      QueueAckKeeps(QueueBucket(acks, owner, refs[..|refs| - 1]), owner, last.0, last.1);
    }
  }

  lemma {:induction false} RestoredAcksKept(saved: Acks)
    ensures KeptAcks(RestoreAcks(saved))
  {
    if saved != [] {
      var last := saved[|saved| - 1];
      RestoredAcksKept(saved[..|saved| - 1]);
      QueueBucketKeeps(RestoreAcks(saved[..|saved| - 1]), last.0, last.1);
    }
  }

  lemma GetNothing<V>(t: Table<V>, k: Key)
    requires !Has(t, k)
    ensures Get(t, k) == None
  {
    GetFinds(t, k);
  }

  lemma {:induction false} FreshBucket(acks: Acks, owner: Key, refs: Table<nat>)
    requires !Has(acks, owner) && DistinctKeys(refs) && refs != []
    ensures QueueBucket(acks, owner, refs) == acks + [(owner, refs)]
  {
    var rest, last := refs[..|refs| - 1], refs[|refs| - 1];
    assert refs == rest + [last];
    DistinctAppend(rest, last);
    PutNewAppends(rest, last.0, last.1);
    hide DistinctKeys, Has;
    if rest == [] {
      GetNothing(acks, owner);
      PutNewAppends(acks, owner, refs);
      assert QueueBucket(acks, owner, rest) == acks;
      assert BucketOf(acks, owner) == [] && Put([], last.0, last.1) == refs;
    } else {
      FreshBucket(acks, owner, rest);
      PutLast(acks, owner, rest, refs);
      assert BucketOf(acks + [(owner, rest)], owner) == rest;
    }
  }

  lemma {:induction false} KeptAcksComeBack(saved: Acks)
    requires KeptAcks(saved)
    ensures RestoreAcks(saved) == saved
  {
    if saved != [] {
      var rest, last := saved[..|saved| - 1], saved[|saved| - 1];
      assert saved == rest + [last];
      DistinctAppend(rest, last);
      KeptAcksComeBack(rest);
      FreshBucket(rest, last.0, last.1);
    }
  }

  // --- Fetched join requests

  lemma {:induction false} PutAllKeepsDistinct<V>(t: Table<V>, entries: Table<V>)
    requires DistinctKeys(t)
    ensures DistinctKeys(PutAll(t, entries))
    decreases entries
  {
    if entries != [] {
      PutKeepsDistinct(t, entries[0].0, entries[0].1);
      PutAllKeepsDistinct(Put(t, entries[0].0, entries[0].1), entries[1..]);
    }
  }

  lemma {:induction false} RestoredFetchedKept(saved: Acks)
    ensures KeptFetched(RestoreFetched(saved))
  {
    if saved != [] {
      var last := saved[|saved| - 1];
      var rest, bucket := RestoreFetched(saved[..|saved| - 1]), PutAll([], last.1);
      RestoredFetchedKept(saved[..|saved| - 1]);
      PutAllKeepsDistinct([], last.1);
      PutKeepsDistinct(rest, last.0, bucket);
      forall b | b in Put(rest, last.0, bucket)
        ensures DistinctKeys(b.1)
      {
        PutIn(rest, last.0, bucket, b);
      }
    }
  }

  lemma {:induction false} KeptFetchedComeBack(saved: Acks)
    requires KeptFetched(saved)
    ensures RestoreFetched(saved) == saved
  {
    if saved != [] {
      var rest, last := saved[..|saved| - 1], saved[|saved| - 1];
      assert saved == rest + [last];
      DistinctAppend(rest, last);
      KeptFetchedComeBack(rest);
      PutAllFresh([], last.1);
      assert [] + last.1 == last.1;
      PutNewAppends(rest, last.0, last.1);
    }
  }

  // --- Accepted Welcomes and those that wait

  lemma {:induction false} AddAllKeeps(order: seq<Key>, keys: seq<Key>, max: nat)
    requires max > 0 && Distinct(order) && |order| <= max
    ensures Distinct(AddAllCapped(order, keys, max)) && |AddAllCapped(order, keys, max)| <= max
    decreases keys
  {
    if keys != [] {
      AddCappedKeeps(order, keys[0], max);
      AddAllKeeps(AddCapped(order, keys[0], max), keys[1..], max);
    }
  }

  lemma {:induction false} DistinctComeBack(order: seq<Key>, keys: seq<Key>, max: nat)
    requires Distinct(order + keys) && |order + keys| <= max
    ensures AddAllCapped(order, keys, max) == order + keys
    decreases keys
  {
    if keys == [] {
      assert order + keys == order;
    } else {
      assert (order + keys)[|order|] == keys[0];
      assert forall i | 0 <= i < |order| :: (order + keys)[i] == order[i];
      assert (order + [keys[0]]) + keys[1..] == order + keys;
      DistinctComeBack(order + [keys[0]], keys[1..], max);
    }
  }

  lemma {:induction false} RestoredWelcomesKept(accepted: seq<Key>, saved: Table<Welcome>)
    ensures KeptWelcomes(accepted, RestoreWelcomes(accepted, saved))
  {
    if saved != [] {
      var last := saved[|saved| - 1];
      RestoredWelcomesKept(accepted, saved[..|saved| - 1]);
      PutKeeps(RestoreWelcomes(accepted, saved[..|saved| - 1]), last.0, last.1);
    }
  }

  lemma {:induction false} KeptWelcomesComeBack(accepted: seq<Key>, saved: Table<Welcome>)
    requires KeptWelcomes(accepted, saved)
    ensures RestoreWelcomes(accepted, saved) == saved
  {
    if saved != [] {
      var rest, last := saved[..|saved| - 1], saved[|saved| - 1];
      assert saved == rest + [last];
      DistinctAppend(rest, last);
      forall k: Key
        ensures Has(saved, k) <==> Has(rest, k) || k == last.0
      {
        AppendKeys(rest, [last], k);
        HasCons([last], k);
      }
      KeptWelcomesComeBack(accepted, rest);
      PutNewAppends(rest, last.0, last.1);
    }
  }

  // --- Pending operations

  lemma EnqueueKeeps(p: Pending, op: Op)
    requires KeptPending(p)
    ensures KeptPending(Enqueue(p, op))
  {
    var mine := OpsOf(p, op.alias);
    if Get(p, op.alias).Some? {
      GetIn(p, op.alias);
      assert forall x | x in (op.alias, mine).1 :: x.alias == op.alias;
    }
    if op.commit !in Keys(mine, CommitOf) {
      assert OneEach(mine, CommitOf);
      NewKeyStaysOneEach(mine, op);
      PutKeepsDistinct(p, op.alias, mine + [op]);
      forall b | b in Put(p, op.alias, mine + [op])
        ensures b.1 != [] && OneEach(b.1, CommitOf) && forall x | x in b.1 :: x.alias == b.0
      {
        PutIn(p, op.alias, mine + [op], b);
      }
    }
  }

  lemma NewKeyStaysOneEach(mine: seq<Op>, op: Op)
    requires OneEach(mine, CommitOf) && op.commit !in Keys(mine, CommitOf)
    ensures OneEach(mine + [op], CommitOf)
  {
    forall i | 0 <= i < |mine|
      ensures CommitOf(mine[i]) != CommitOf(op)
    {
      assert CommitOf(mine[i]) in Keys(mine, CommitOf);
    }
  }

  lemma {:induction false} EnqueueAllKeeps(p: Pending, ops: seq<Op>)
    requires KeptPending(p)
    ensures KeptPending(EnqueueAll(p, ops))
  {
    if ops != [] {
      EnqueueAllKeeps(p, ops[..|ops| - 1]);
      EnqueueKeeps(EnqueueAll(p, ops[..|ops| - 1]), ops[|ops| - 1]);
    }
  }

  lemma {:induction false} EnqueueInTwo(p: Pending, a: seq<Op>, b: seq<Op>)
    ensures EnqueueAll(p, a + b) == EnqueueAll(EnqueueAll(p, a), b)
    decreases b
  {
    if b == [] {
      assert a + b == a;
    } else {
      assert (a + b)[..|a + b| - 1] == a + b[..|b| - 1];
      EnqueueInTwo(p, a, b[..|b| - 1]);
    }
  }

  lemma {:induction false} FreshQueue(p: Pending, alias: Key, ops: seq<Op>)
    requires !Has(p, alias) && ops != [] && OneEach(ops, CommitOf) && forall op | op in ops :: op.alias == alias
    ensures EnqueueAll(p, ops) == p + [(alias, ops)]
  {
    var rest, op := ops[..|ops| - 1], ops[|ops| - 1];
    assert ops == rest + [op];
    assert forall i | 0 <= i < |rest| :: rest[i] == ops[i];
    forall i | 0 <= i < |rest|
      ensures CommitOf(rest[i]) != op.commit
    {
      assert CommitOf(ops[i]) != CommitOf(ops[|ops| - 1]);
    }
    assert op.commit !in Keys(rest, CommitOf);
    hide OneEach, Has, Keys;
    if rest == [] {
      GetNothing(p, alias);
      PutNewAppends(p, alias, ops);
      assert EnqueueAll(p, rest) == p && OpsOf(p, alias) == rest;
    } else {
      OneEachPrefix(ops);
      FreshQueue(p, alias, rest);
      PutLast(p, alias, rest, ops);
      assert OpsOf(p + [(alias, rest)], alias) == rest;
    }
  }

  lemma OneEachPrefix(ops: seq<Op>)
    requires ops != [] && OneEach(ops, CommitOf)
    ensures OneEach(ops[..|ops| - 1], CommitOf)
  {
  }

  lemma {:induction false} MovedToOwn(ops: seq<Op>, alias: Key)
    requires forall op | op in ops :: op.alias == alias
    ensures Moved(ops, alias) == ops
  {
    if ops != [] {
      MovedToOwn(ops[..|ops| - 1], alias);
      assert ops[|ops| - 1] in ops;
    }
  }

  lemma {:induction false} KeptPendingComesBack(canonical: Table<Key>, saved: Pending)
    requires KeptPending(saved) && forall b | b in saved :: Survivor(canonical, b.0) == b.0
    ensures RestorePending(canonical, saved) == saved
  {
    if saved != [] {
      var rest, last := saved[..|saved| - 1], saved[|saved| - 1];
      assert saved == rest + [last];
      DistinctAppend(rest, last);
      KeptPendingComesBack(canonical, rest);
      MovedToOwn(last.1, last.0);
      EnqueueInTwo([], AllMoved(canonical, rest), last.1);
      FreshQueue(rest, last.0, last.1);
    }
  }

  // ---------------------------------------------------------------------
  // Saving and bringing back
  // ---------------------------------------------------------------------

  /** Whatever the snapshot held, what comes back is settled. */
  lemma RestoreSettles(s: Image)
    requires Restore(s).Ok?
    ensures Settled(Restore(s).value)
  {
    var accepted := AddAllCapped([], s.accepted, MAX_ACCEPTED);
    KeyPackagesComeBack(s.keyPackages);
    GroupsAreDistinct(s.groups);
    AddAllKeeps([], s.accepted, MAX_ACCEPTED);
    RestoredWelcomesKept(accepted, s.welcomes);
    EnqueueAllKeeps([], AllMoved(PlaceGroups(s.groups).value.canonical, s.pending));
    RestoredAcksKept(s.consumedWelcomes);
    RestoredAcksKept(s.consumedRequests);
    RestoredFetchedKept(s.fetchedRequests);
    hide PlaceGroups, AddKeyPackages, RestoreAcks, RestoreFetched, RestoreWelcomes, EnqueueAll, AllMoved, AddAllCapped,
         KeptAcks, KeptFetched, KeptPending, KeptWelcomes, DistinctKeys, DistinctGroups, Distinct;
  }

  lemma SettledComesBack(s: Image)
    requires Settled(s)
    ensures Restore(s) == Ok(s)
  {
    KeyPackagesComeBack(s.keyPackages);
    DistinctGroupsComeBack(s.groups);
    var canonical := PlaceGroups(s.groups).value.canonical;
    forall b | b in s.pending
      ensures Survivor(canonical, b.0) == b.0
    {
      assert Get(canonical, b.0) in {None, Some(b.0)};
    }
    assert [] + s.accepted == s.accepted;
    DistinctComeBack([], s.accepted, MAX_ACCEPTED);
    KeptWelcomesComeBack(s.accepted, s.welcomes);
    KeptPendingComesBack(canonical, s.pending);
    KeptAcksComeBack(s.consumedWelcomes);
    KeptAcksComeBack(s.consumedRequests);
    KeptFetchedComeBack(s.fetchedRequests);
    hide PlaceGroups, AddKeyPackages, RestoreAcks, RestoreFetched, RestoreWelcomes, EnqueueAll, RestorePending, AddAllCapped,
         KeptAcks, KeptFetched, KeptPending, KeptWelcomes, DistinctKeys, DistinctGroups, Distinct;
  }

  /** A snapshot comes back as it was exactly when it was settled. */
  lemma ComesBackIff(s: Image)
    ensures Restore(s) == Ok(s) <==> Settled(s)
  {
    if Restore(s) == Ok(s) {
      RestoreSettles(s);
    }
    if Settled(s) {
      SettledComesBack(s);
    }
  }

  /** Saving lists the Welcomes by the time they were received, earlier ones of the same time first, and the rest as it is. */
  lemma ExportOrdersWelcomes(s: Image)
    ensures var saved := Export(s);
            && multiset(saved.welcomes) == multiset(s.welcomes) && saved == s.(welcomes := saved.welcomes)
            && (forall i, j :: 0 <= i < j < |saved.welcomes| ==> saved.welcomes[i].1.at <= saved.welcomes[j].1.at)
            && forall n: nat :: Filter(saved.welcomes, OnesAt(ReceivedAt, n)) == Filter(s.welcomes, OnesAt(ReceivedAt, n))
  {
    SortIs(s.welcomes, ReceivedAt);
    var w := Export(s).welcomes;
    forall i, j | 0 <= i < j < |w|
      ensures w[i].1.at <= w[j].1.at
    {
      assert ReceivedAt(w[i]) <= ReceivedAt(w[j]);
    }
  }

  /** Listing the Welcomes in order leaves a settled image settled. */
  lemma ExportIsSettled(s: Image)
    requires Settled(s)
    ensures Settled(Export(s)) && Export(Export(s)) == Export(s)
  {
    var sorted := SortBy(s.welcomes, ReceivedAt);
    SortIs(s.welcomes, ReceivedAt);
    SortOfSorted(sorted, ReceivedAt);
    DistinctKeysIff(s.welcomes);
    DistinctKeysIff(sorted);
    SortKeepsOneEach(s.welcomes, ReceivedAt, KeyOf);
    forall k: Key
      ensures Has(sorted, k) <==> Has(s.welcomes, k)
    {
      HasIff(sorted, k);
      HasIff(s.welcomes, k);
      KeysReordered(sorted, s.welcomes, KeyOf);
    }
  }

  function KeyOf(entry: (Key, Welcome)): Key { entry.0 }

  lemma HasIff(t: Table<Welcome>, k: Key)
    ensures Has(t, k) <==> k in Keys(t, KeyOf)
  {
    if Has(t, k) {
      var i :| 0 <= i < |t| && t[i].0 == k;
      assert KeyOf(t[i]) in Keys(t, KeyOf);
    }
  }

  lemma {:induction false} DistinctKeysIff(t: Table<Welcome>)
    ensures DistinctKeys(t) <==> OneEach(t, KeyOf)
  {
    if t != [] {
      DistinctKeysIff(t[1..]);
      if OneEach(t, KeyOf) {
        forall i | 0 <= i < |t| - 1
          ensures t[1..][i].0 != t[0].0
        {
          assert KeyOf(t[0]) != KeyOf(t[i + 1]);
        }
      }
      if DistinctKeys(t) {
        forall i, j | 0 <= i < j < |t|
          ensures KeyOf(t[i]) != KeyOf(t[j])
        {
          if i == 0 {
            assert t[1..][j - 1] == t[j];
          } else {
            assert KeyOf(t[1..][i - 1]) != KeyOf(t[1..][j - 1]);
          }
        }
      }
    }
  }

  /** Saving a settled session, restoring it and saving again gives the same snapshot. */
  lemma ExportRestoreExport(s: Image)
    requires Settled(s)
    ensures Restore(Export(s)).Ok? && Export(Restore(Export(s)).value) == Export(s)
  {
    ExportIsSettled(s);
    SettledComesBack(Export(s));
  }

  /** A restore puts everything right at once: whatever was restored, saved and restored again stays as it is. */
  lemma SecondRestoreIsExact(s: Image)
    requires Restore(s).Ok?
    ensures Restore(Restore(s).value) == Restore(s)
    ensures Restore(Export(Restore(s).value)) == Ok(Export(Restore(s).value))
  {
    RestoreSettles(s);
    SettledComesBack(Restore(s).value);
    ExportIsSettled(Restore(s).value);
    SettledComesBack(Export(Restore(s).value));
  }

  /** A snapshot is refused exactly for two key packages under one alias or two groups first saved under one alias. */
  lemma RestoresIff(s: Image)
    ensures Restore(s).Ok? <==> DistinctKeys(s.keyPackages) && FirstsDiffer(s.groups)
  {
    KeyPackagesComeBack(s.keyPackages);
    GroupsRestoreIff(s.groups);
    hide PlaceGroups, AddKeyPackages, FirstsDiffer, DistinctKeys;
  }

  lemma {:induction false} MovedHolds(canonical: Table<Key>, saved: Pending, b: (Key, seq<Op>), op: Op)
    requires b in saved && op in b.1
    ensures op.(alias := Survivor(canonical, b.0)) in AllMoved(canonical, saved)
  {
    var rest, last := saved[..|saved| - 1], saved[|saved| - 1];
    assert saved == rest + [last];
    if b in rest {
      MovedHolds(canonical, rest, b, op);
    } else {
      EachMoved(last.1, Survivor(canonical, last.0), op);
    }
  }

  lemma {:induction false} EachMoved(ops: seq<Op>, alias: Key, op: Op)
    requires op in ops
    ensures op.(alias := alias) in Moved(ops, alias)
  {
    var rest := ops[..|ops| - 1];
    assert ops == rest + [ops[|ops| - 1]];
    if op in rest {
      EachMoved(rest, alias, op);
    }
  }

  /** Each saved operation waits exactly once, under the alias its group was first saved under. */
  lemma OperationsFollowTheirGroup(s: Image, i: nat, b: (Key, seq<Op>), op: Op)
    requires Restore(s).Ok? && b in s.pending && op in b.1
    requires i < |s.groups| && s.groups[i].alias == b.0 && forall j :: i < j < |s.groups| ==> s.groups[j].alias != b.0
    ensures var copies := Filter(s.groups, OfGroup(s.groups[i].gid));
            copies != [] && (var mine := OpsOf(Restore(s).value.pending, copies[0].alias);
            op.commit in Keys(mine, CommitOf) && OneEach(mine, CommitOf))
  {
    var canonical := PlaceGroups(s.groups).value.canonical;
    var moved := AllMoved(canonical, s.pending);
    CanonicalIs(s.groups, i);
    var home := Survivor(canonical, b.0);
    MovedHolds(canonical, s.pending, b, op);
    EachCommitOnce(moved, home);
    FilterIn(moved, Under(home), op.(alias := home));
    DedupeIs(Filter(moved, Under(home)), CommitOf);
    assert CommitOf(op.(alias := home)) in Keys(Filter(moved, Under(home)), CommitOf);
    hide PlaceGroups, AllMoved, EnqueueAll, Dedupe, Filter, AddKeyPackages;
  }
}
