/**
 * The client's store of delivery state: which Welcomes wait, which were
 * accepted, and which acknowledgements the coordinator has still to be told.
 * Tables keep the order in which their keys were first set.
 */
module SessionStore {
  import opened Base

  // ---------------------------------------------------------------------
  // Insertion-ordered tables
  // ---------------------------------------------------------------------

  type Key = nat

  type Table<V> = seq<(Key, V)>

  predicate Has<V>(t: Table<V>, k: Key) { exists i :: 0 <= i < |t| && t[i].0 == k }

  function Get<V>(t: Table<V>, k: Key): Option<V> {
    if t == [] then None else if t[0].0 == k then Some(t[0].1) else Get(t[1..], k)
  }

  /** A key that is there keeps its place, a new one goes last. */
  function Put<V>(t: Table<V>, k: Key, v: V): Table<V> {
    if t == [] then [(k, v)]
    else if t[0].0 == k then [(k, v)] + t[1..]
    else [t[0]] + Put(t[1..], k, v)
  }

  function Delete<V>(t: Table<V>, k: Key): Table<V> {
    if t == [] then []
    else (if t[0].0 == k then [] else [t[0]]) + Delete(t[1..], k)
  }

  function PutAll<V>(t: Table<V>, entries: Table<V>): Table<V>
    decreases entries
  {
    if entries == [] then t else PutAll(Put(t, entries[0].0, entries[0].1), entries[1..])
  }

  predicate DistinctKeys<V>(t: Table<V>) {
    t == [] || (!Has(t[1..], t[0].0) && DistinctKeys(t[1..]))
  }

  lemma {:induction false} GetFinds<V>(t: Table<V>, k: Key)
    ensures Has(t, k) <==> Get(t, k).Some?
  {
    if t != [] {
      GetFinds(t[1..], k);
      HasCons(t, k);
    }
  }

  lemma HasCons<V>(t: Table<V>, k: Key)
    requires t != []
    ensures Has(t, k) <==> t[0].0 == k || Has(t[1..], k)
  {
    if Has(t, k) && t[0].0 != k {
      var i :| 0 <= i < |t| && t[i].0 == k;
      assert t[1..][i - 1] == t[i];
    }
    if Has(t[1..], k) {
      var i :| 0 <= i < |t| - 1 && t[1..][i].0 == k;
      assert t[i + 1].0 == k;
    }
  }

  lemma {:induction false} PutThenGet<V>(t: Table<V>, k: Key, v: V, other: Key)
    ensures Get(Put(t, k, v), other) == if other == k then Some(v) else Get(t, other)
  {
    if t != [] && t[0].0 != k {
      PutThenGet(t[1..], k, v, other);
      assert Put(t, k, v)[1..] == Put(t[1..], k, v);
    }
  }

  lemma {:induction false} PutThenHas<V>(t: Table<V>, k: Key, v: V, other: Key)
    ensures Has(Put(t, k, v), other) <==> other == k || Has(t, other)
  {
    GetFinds(Put(t, k, v), other);
    GetFinds(t, other);
    PutThenGet(t, k, v, other);
  }

  lemma {:induction false} PutKeepsDistinct<V>(t: Table<V>, k: Key, v: V)
    requires DistinctKeys(t)
    ensures DistinctKeys(Put(t, k, v))
  {
    if t != [] && t[0].0 != k {
      PutKeepsDistinct(t[1..], k, v);
      PutThenHas(t[1..], k, v, t[0].0);
      assert Put(t, k, v)[1..] == Put(t[1..], k, v);
    } else {
      assert Put(t, k, v)[1..] == if t == [] then [] else t[1..];
    }
  }

  lemma {:induction false} PutNewAppends<V>(t: Table<V>, k: Key, v: V)
    requires !Has(t, k)
    ensures Put(t, k, v) == t + [(k, v)]
  {
    if t != [] {
      HasCons(t, k);
      PutNewAppends(t[1..], k, v);
      assert [t[0]] + (t[1..] + [(k, v)]) == t + [(k, v)];
    }
  }

  lemma {:induction false} DeleteThenGet<V>(t: Table<V>, k: Key, other: Key)
    ensures Get(Delete(t, k), other) == if other == k then None else Get(t, other)
  {
    if t != [] {
      DeleteThenGet(t[1..], k, other);
      if t[0].0 != k {
        assert Delete(t, k)[1..] == Delete(t[1..], k);
      } else {
        assert Delete(t, k) == Delete(t[1..], k);
      }
    }
  }

  lemma DeleteThenHas<V>(t: Table<V>, k: Key, other: Key)
    ensures Has(Delete(t, k), other) <==> other != k && Has(t, other)
  {
    GetFinds(Delete(t, k), other);
    GetFinds(t, other);
    DeleteThenGet(t, k, other);
  }

  lemma {:induction false} DeleteKeepsDistinct<V>(t: Table<V>, k: Key)
    requires DistinctKeys(t)
    ensures DistinctKeys(Delete(t, k))
  {
    if t != [] {
      DeleteKeepsDistinct(t[1..], k);
      DeleteThenHas(t[1..], k, t[0].0);
      if t[0].0 != k {
        assert Delete(t, k)[1..] == Delete(t[1..], k);
      } else {
        assert Delete(t, k) == Delete(t[1..], k);
      }
    }
  }

  lemma {:induction false} AppendKeys<V>(a: Table<V>, b: Table<V>, k: Key)
    ensures Has(a + b, k) <==> Has(a, k) || Has(b, k)
  {
    if a == [] {
      assert a + b == b;
    } else {
      assert (a + b)[0] == a[0] && (a + b)[1..] == a[1..] + b;
      AppendKeys(a[1..], b, k);
      HasCons(a, k);
      HasCons(a + b, k);
    }
  }

  /** Setting entries with keys of their own appends them as they are. */
  lemma {:induction false} PutAllFresh<V>(t: Table<V>, entries: Table<V>)
    requires DistinctKeys(entries) && forall k: Key | Has(entries, k) :: !Has(t, k)
    ensures PutAll(t, entries) == t + entries
    decreases entries
  {
    if entries == [] {
      assert t + entries == t;
    } else {
      var k, v := entries[0].0, entries[0].1;
      HasCons(entries, k);
      PutNewAppends(t, k, v);
      forall j: Key | Has(entries[1..], j)
        ensures !Has(Put(t, k, v), j)
      {
        HasCons(entries, j);
        PutThenHas(t, k, v, j);
      }
      PutAllFresh(Put(t, k, v), entries[1..]);
      assert (t + [(k, v)]) + entries[1..] == t + entries;
    }
  }

  // ---------------------------------------------------------------------
  // A set that forgets its oldest member
  // ---------------------------------------------------------------------

  function AddCapped(order: seq<Key>, k: Key, max: nat): seq<Key> {
    if k in order then order
    else (if |order| >= max && order != [] then order[1..] else order) + [k]
  }

  function AddAllCapped(order: seq<Key>, keys: seq<Key>, max: nat): seq<Key>
    decreases keys
  {
    if keys == [] then order else AddAllCapped(AddCapped(order, keys[0], max), keys[1..], max)
  }

  predicate Distinct(keys: seq<Key>) { forall i, j :: 0 <= i < j < |keys| ==> keys[i] != keys[j] }

  /** The order names every member of the set once. */
  ghost predicate Lists(order: seq<Key>, refs: set<Key>) {
    Distinct(order) && |refs| == |order| && forall k :: k in refs <==> k in order
  }

  lemma DropOldest(refs: set<Key>, order: seq<Key>)
    requires Lists(order, refs) && order != []
    ensures Lists(order[1..], refs - {order[0]})
  {
    forall k
      ensures k in refs - {order[0]} <==> k in order[1..]
    {
      if k in refs && k != order[0] {
        var i :| 0 <= i < |order| && order[i] == k;
        assert order[1..][i - 1] == k;
      }
    }
  }

  lemma AppendNewest(refs: set<Key>, order: seq<Key>, k: Key)
    requires Lists(order, refs) && k !in order
    ensures Lists(order + [k], refs + {k})
  {
  }

  class CappedRefSet {
    var refs: set<Key>
    var insertionOrder: seq<Key>
    const maxSize: nat

    ghost predicate Valid()
      reads this
    {
      maxSize > 0 && |insertionOrder| <= maxSize && Lists(insertionOrder, refs)
    }

    constructor (maxSize: nat)
      requires maxSize > 0
      ensures Valid() && insertionOrder == [] && this.maxSize == maxSize
    {
      refs, insertionOrder, this.maxSize := {}, [], maxSize;
    }

    method Contains(k: Key) returns (found: bool)
      requires Valid()
      ensures found == (k in insertionOrder)
    {
      return k in refs;
    }

    /** Add a key, first forgetting the oldest until there is room. */
    method Add(k: Key)
      requires Valid()
      modifies this
      ensures Valid() && insertionOrder == AddCapped(old(insertionOrder), k, maxSize)
    {
      if k in refs {
        return;
      }
      while |refs| >= maxSize
        invariant Valid() && k !in insertionOrder
        invariant insertionOrder == old(insertionOrder)
                  || (|old(insertionOrder)| == maxSize && insertionOrder == old(insertionOrder)[1..])
        decreases |refs|
      {
        var oldest := insertionOrder[0];
        DropOldest(refs, insertionOrder);
        insertionOrder := insertionOrder[1..];
        refs := refs - {oldest};
      }
      AppendNewest(refs, insertionOrder, k);
      refs := refs + {k};
      insertionOrder := insertionOrder + [k];
    }
  }

  lemma AddCappedKeeps(order: seq<Key>, k: Key, max: nat)
    requires max > 0 && Distinct(order) && |order| <= max
    ensures Distinct(AddCapped(order, k, max)) && |AddCapped(order, k, max)| <= max && k in AddCapped(order, k, max)
  {
  }

  /** A member with `newer` members after it survives as many additions as leave it among the newest `max`. */
  lemma {:induction false} RemembersNewest(order: seq<Key>, keys: seq<Key>, max: nat, i: nat)
    requires max > 0 && Distinct(order) && |order| <= max && i < |order|
    requires |order| - 1 - i + |keys| < max
    ensures order[i] in AddAllCapped(order, keys, max)
    decreases keys
  {
    if keys != [] {
      var next := AddCapped(order, keys[0], max);
      AddCappedKeeps(order, keys[0], max);
      if next == order {
        RemembersNewest(order, keys[1..], max, i);
      } else if |order| >= max {
        assert next[i - 1] == order[i];
        RemembersNewest(next, keys[1..], max, i - 1);
      } else {
        assert next[i] == order[i];
        RemembersNewest(next, keys[1..], max, i);
      }
    }
  }

  /** New keys push out the oldest ones: what is left is exactly the newest `max` of all, in the order they came. */
  lemma {:induction false} NewestRemain(order: seq<Key>, keys: seq<Key>, max: nat)
    requires max > 0 && |order| <= max && Distinct(order + keys)
    ensures var all := order + keys; AddAllCapped(order, keys, max) == if |all| <= max then all else all[|all| - max..]
    decreases keys
  {
    if keys == [] {
      assert order + keys == order;
    } else {
      var all, next := order + keys, AddCapped(order, keys[0], max);
      assert keys[0] !in order by {
        assert all[|order|] == keys[0] && forall i :: 0 <= i < |order| ==> all[i] == order[i];
      }
      if |order| >= max {
        assert next + keys[1..] == all[1..];
        assert forall i :: 0 <= i < |all| - 1 ==> all[1..][i] == all[i + 1];
      } else {
        assert next + keys[1..] == all;
      }
      NewestRemain(next, keys[1..], max);
    }
  }

  // ---------------------------------------------------------------------
  // Welcomes and acknowledgements
  // ---------------------------------------------------------------------

  datatype Welcome = Welcome(at: nat, body: nat)

  /** One queue of acknowledgements per coordinator or group, keyed by what each one names. */
  type Acks = Table<Table<nat>>

  function BucketOf(acks: Acks, owner: Key): Table<nat> {
    var b := Get(acks, owner);
    if b.Some? then b.value else []
  }

  function QueueAck(acks: Acks, owner: Key, ack: Key, body: nat): Acks {
    Put(acks, owner, Put(BucketOf(acks, owner), ack, body))
  }

  function DeleteAll<V>(t: Table<V>, keys: seq<Key>): Table<V>
    decreases keys
  {
    if keys == [] then t else DeleteAll(Delete(t, keys[0]), keys[1..])
  }

  /** Acknowledged keys leave the queue; an empty queue is not kept. */
  function ClearAcks(acks: Acks, owner: Key, keys: seq<Key>): Acks {
    match Get(acks, owner)
    case None => acks
    case Some(bucket) =>
      var left := DeleteAll(bucket, keys);
      if |left| == 0 then Delete(acks, owner) else Put(acks, owner, left)
  }

  const MAX_ACCEPTED := 1000

  /** An accepted Welcome is remembered, and so refused, until a thousand others have been accepted after it. */
  lemma AcceptedIsRememberedIff(order: seq<Key>, k: Key, later: seq<Key>)
    requires |order| <= MAX_ACCEPTED && Distinct(order + ([k] + later))
    ensures k in AddAllCapped(order, [k] + later, MAX_ACCEPTED) <==> |later| < 1000
  {
    var all := order + ([k] + later);
    NewestRemain(order, [k] + later, MAX_ACCEPTED);
    assert all[|order|] == k;
    hide Distinct, AddAllCapped;
    InSuffixIff(all, |order|, if |all| <= MAX_ACCEPTED then 0 else |all| - MAX_ACCEPTED);
  }

  lemma InSuffixIff(all: seq<Key>, i: nat, from: nat)
    requires Distinct(all) && i < |all| && from <= |all|
    ensures all[i] in all[from..] <==> from <= i
  {
    if from <= i {
      assert all[from..][i - from] == all[i];
    }
  }

  class DeliveryStore {
    var welcomes: Table<Welcome>
    const accepted: CappedRefSet
    var consumedWelcomes: Acks

    /** A Welcome is either waiting or accepted, never both. */
    ghost predicate Valid()
      reads this, accepted
    {
      && accepted.Valid() && accepted.maxSize == MAX_ACCEPTED && DistinctKeys(welcomes)
      && forall k | k in accepted.insertionOrder :: !Has(welcomes, k)
    }

    constructor ()
      ensures Valid() && welcomes == [] && accepted.insertionOrder == [] && consumedWelcomes == [] && fresh(accepted)
    {
      welcomes, consumedWelcomes := [], [];
      accepted := new CappedRefSet(MAX_ACCEPTED);
    }

    /** An accepted Welcome is not put back. */
    method PutWelcome(k: Key, w: Welcome)
      requires Valid()
      modifies this`welcomes
      ensures Valid()
      ensures welcomes == if k in accepted.insertionOrder then old(welcomes) else Put(old(welcomes), k, w)
    {
      var known := accepted.Contains(k);
      if known {
        return;
      }
      PutKeeps(welcomes, k, w);
      welcomes := Put(welcomes, k, w);
    }

    /** Queue the acknowledgement, take the Welcome away and remember that it was accepted. */
    method RetireWelcome(k: Key, coordinator: Key, ack: Key, body: nat)
      requires Valid()
      modifies this`welcomes, this`consumedWelcomes, accepted
      ensures Valid() && !Has(welcomes, k) && k in accepted.insertionOrder
      ensures welcomes == Delete(old(welcomes), k)
      ensures consumedWelcomes == QueueAck(old(consumedWelcomes), coordinator, ack, body)
      ensures accepted.insertionOrder == AddCapped(old(accepted.insertionOrder), k, MAX_ACCEPTED)
    {
      consumedWelcomes := QueueAck(consumedWelcomes, coordinator, ack, body);
      DeleteKeeps(welcomes, k);
      welcomes := Delete(welcomes, k);
      accepted.Add(k);
    }

    method PeekConsumedWelcomes(coordinator: Key) returns (refs: Table<nat>)
      ensures refs == BucketOf(consumedWelcomes, coordinator)
    {
      return BucketOf(consumedWelcomes, coordinator);
    }

    method ClearConsumedWelcomes(coordinator: Key, keys: seq<Key>)
      modifies this`consumedWelcomes
      ensures consumedWelcomes == ClearAcks(old(consumedWelcomes), coordinator, keys)
    {
      var bucket := Get(consumedWelcomes, coordinator);
      if bucket.None? {
        return;
      }
      var left, todo := bucket.value, keys;
      while todo != []
        invariant DeleteAll(left, todo) == DeleteAll(bucket.value, keys)
        decreases |todo|
      {
        left := Delete(left, todo[0]);
        todo := todo[1..];
      }
      consumedWelcomes := if |left| == 0 then Delete(consumedWelcomes, coordinator) else Put(consumedWelcomes, coordinator, left);
    }
  }

  lemma PutKeeps<V>(t: Table<V>, k: Key, v: V)
    ensures DistinctKeys(t) ==> DistinctKeys(Put(t, k, v))
    ensures forall other: Key :: Has(Put(t, k, v), other) <==> other == k || Has(t, other)
  {
    if DistinctKeys(t) {
      PutKeepsDistinct(t, k, v);
    }
    forall other: Key
      ensures Has(Put(t, k, v), other) <==> other == k || Has(t, other)
    {
      PutThenHas(t, k, v, other);
    }
  }

  lemma DeleteKeeps<V>(t: Table<V>, k: Key)
    ensures DistinctKeys(t) ==> DistinctKeys(Delete(t, k))
    ensures forall other: Key :: Has(Delete(t, k), other) <==> other != k && Has(t, other)
  {
    if DistinctKeys(t) {
      DeleteKeepsDistinct(t, k);
    }
    forall other: Key
      ensures Has(Delete(t, k), other) <==> other != k && Has(t, other)
    {
      DeleteThenHas(t, k, other);
    }
  }

  // ---------------------------------------------------------------------
  // No acknowledgement is lost
  // ---------------------------------------------------------------------

  /** A fetch under way: whose queue it carries, which acknowledgements those were, and whether it got there. */
  datatype Fetch = Fetch(owner: Key, carried: seq<Key>, arrived: bool)

  /** The queues, every acknowledgement ever queued, those a coordinator was told, and the fetches under way. */
  datatype AckWorld = AckWorld(acks: Acks, queued: set<(Key, Key)>, told: set<(Key, Key)>, underWay: map<nat, Fetch>)

  /**
   * A fetch peeks at one queue, may arrive, and if its answer comes back clears
   * what it carried. Others may be under way and acknowledgements may be queued
   * in between; a fetch that fails is one that is never answered.
   */
  datatype AckEvent = Queue(owner: Key, ack: Key, body: nat) | Peek(id: nat, owner: Key) | Arrive(id: nat) | Answered(id: nat)

  const START := AckWorld([], {}, {}, map[])

  function KeysOf<V>(t: Table<V>): seq<Key> { if t == [] then [] else [t[0].0] + KeysOf(t[1..]) }

  function StepAck(w: AckWorld, e: AckEvent): AckWorld {
    match e
    case Queue(owner, ack, body) => w.(acks := QueueAck(w.acks, owner, ack, body), queued := w.queued + {(owner, ack)})
    case Peek(id, owner) =>
      if id in w.underWay then w
      else w.(underWay := w.underWay[id := Fetch(owner, KeysOf(BucketOf(w.acks, owner)), false)])
    case Arrive(id) =>
      if id !in w.underWay then w
      else
        var f := w.underWay[id];
        w.(told := w.told + (set k | k in f.carried :: (f.owner, k)), underWay := w.underWay[id := f.(arrived := true)])
    case Answered(id) =>
      if id !in w.underWay || !w.underWay[id].arrived then w
      else
        var f := w.underWay[id];
        w.(acks := ClearAcks(w.acks, f.owner, f.carried), underWay := w.underWay - {id})
  }

  function StepAcks(w: AckWorld, events: seq<AckEvent>): AckWorld {
    if events == [] then w else StepAck(StepAcks(w, events[..|events| - 1]), events[|events| - 1])
  }

  lemma {:induction false} KeysAreHad<V>(t: Table<V>, k: Key)
    ensures k in KeysOf(t) <==> Has(t, k)
  {
    if t != [] {
      KeysAreHad(t[1..], k);
      HasCons(t, k);
    }
  }

  lemma {:induction false} DeleteAllDrops<V>(t: Table<V>, keys: seq<Key>, k: Key)
    ensures Has(DeleteAll(t, keys), k) <==> Has(t, k) && k !in keys
    decreases keys
  {
    if keys != [] {
      DeleteThenHas(t, keys[0], k);
      DeleteAllDrops(Delete(t, keys[0]), keys[1..], k);
    }
  }

  /** An answered fetch takes away exactly what it carried, not what was queued behind its back. */
  lemma ClearsExactlyCarried(acks: Acks, owner: Key, keys: seq<Key>, other: Key, k: Key)
    ensures Has(BucketOf(ClearAcks(acks, owner, keys), other), k)
       <==> Has(BucketOf(acks, other), k) && !(other == owner && k in keys)
  {
    var bucket := Get(acks, owner);
    if bucket.Some? {
      var left := DeleteAll(bucket.value, keys);
      DeleteAllDrops(bucket.value, keys, k);
      PutThenGet(acks, owner, left, other);
      DeleteThenGet(acks, owner, other);
    }
  }

  /** No queue is kept empty. */
  predicate NoneEmpty(acks: Acks) { forall b :: b in acks ==> b.1 != [] }

  /** An answered fetch that empties its queue leaves no queue behind. */
  lemma ClearingLeavesNoneEmpty(acks: Acks, owner: Key, keys: seq<Key>)
    requires NoneEmpty(acks)
    ensures NoneEmpty(ClearAcks(acks, owner, keys))
  {
    var bucket := Get(acks, owner);
    if bucket.Some? {
      var left := DeleteAll(bucket.value, keys);
      if |left| == 0 {
        DeletedIn(acks, owner);
      } else {
        PutIn(acks, owner, left);
      }
    }
  }

  lemma {:induction false} DeletedIn<V>(t: Table<V>, k: Key)
    ensures forall e | e in Delete(t, k) :: e in t
  {
    if t != [] {
      DeletedIn(t[1..], k);
    }
  }

  lemma {:induction false} PutIn<V>(t: Table<V>, k: Key, v: V)
    ensures forall e | e in Put(t, k, v) :: e in t || e == (k, v)
  {
    if t != [] {
      PutIn(t[1..], k, v);
    }
  }

  lemma QueuedIsQueued(acks: Acks, owner: Key, ack: Key, body: nat, other: Key, k: Key)
    ensures Has(BucketOf(QueueAck(acks, owner, ack, body), other), k)
       <==> Has(BucketOf(acks, other), k) || (other, k) == (owner, ack)
  {
    var bucket := BucketOf(acks, owner);
    PutThenGet(acks, owner, Put(bucket, ack, body), other);
    PutThenHas(bucket, ack, body, k);
  }

  ghost predicate Accounted(w: AckWorld) {
    && (forall owner, k | (owner, k) in w.queued :: Has(BucketOf(w.acks, owner), k) || (owner, k) in w.told)
    && (forall id, k | id in w.underWay && w.underWay[id].arrived && k in w.underWay[id].carried ::
          (w.underWay[id].owner, k) in w.told)
  }

  lemma StepAccounts(w: AckWorld, e: AckEvent)
    requires Accounted(w)
    ensures Accounted(StepAck(w, e))
  {
    var next := StepAck(w, e);
    forall owner, k | (owner, k) in next.queued
      ensures Has(BucketOf(next.acks, owner), k) || (owner, k) in next.told
    {
      match e
      case Queue(of, ack, body) => QueuedIsQueued(w.acks, of, ack, body, owner, k);
      case Peek(_, _) =>
      case Arrive(_) =>
      case Answered(id) =>
        if id in w.underWay {
          ClearsExactlyCarried(w.acks, w.underWay[id].owner, w.underWay[id].carried, owner, k);
        }
    }
  }

  /**
   * Over any run of overlapping, failing, unanswered and answered fetches, an
   * acknowledgement that was queued at any moment is still queued or its
   * coordinator has been told: a lost answer only makes it be told again.
   */
  lemma {:induction false} NoAckIsLost(events: seq<AckEvent>, owner: Key, k: Key)
    ensures Accounted(StepAcks(START, events))
    ensures var w := StepAcks(START, events);
            (owner, k) in w.queued ==> Has(BucketOf(w.acks, owner), k) || (owner, k) in w.told
  {
    if events != [] {
      NoAckIsLost(events[..|events| - 1], owner, k);
      StepAccounts(StepAcks(START, events[..|events| - 1]), events[|events| - 1]);
    }
  }

  /**
   * An acknowledgement queued after a fetch peeked is still queued when that
   * fetch is answered; clearing the whole queue then would lose it.
   */
  lemma ClearingAllLoses(w: AckWorld, id: nat, k: Key)
    requires id in w.underWay && w.underWay[id].arrived
    requires var f := w.underWay[id]; Has(BucketOf(w.acks, f.owner), k) && k !in f.carried
    ensures var f := w.underWay[id];
            && Has(BucketOf(StepAck(w, Answered(id)).acks, f.owner), k)
            && ((f.owner, k) in w.queued && (f.owner, k) !in w.told ==> !Accounted(w.(acks := Delete(w.acks, f.owner))))
  {
    var f := w.underWay[id];
    ClearsExactlyCarried(w.acks, f.owner, f.carried, f.owner, k);
    DeleteThenGet(w.acks, f.owner, f.owner);
  }
}
