/**
 * The coordinator's subscription side as objects: subscribers with their own
 * queues, the groups they are registered for, and the count of distinct ones.
 */
module Coordinator {
  import opened Base
  import opened Delivery
  import MessageQueue

  // ---------------------------------------------------------------------
  // Who is registered where, and how often
  // ---------------------------------------------------------------------

  datatype Registry<S> = Registry(groups: map<Gid, set<S>>, refcounts: map<S, nat>)

  function Registrants<S(==)>(r: Registry<S>, gid: Gid): set<S> { if gid in r.groups then r.groups[gid] else {} }

  function GroupsOf<S(==)>(r: Registry<S>, s: S): set<Gid> { set g | g in r.groups && s in r.groups[g] }

  /** One group more for a subscriber. Its count goes up even if it was registered there already. */
  function Add<S(==)>(r: Registry<S>, gid: Gid, s: S): Registry<S> {
    Registry(r.groups[gid := Registrants(r, gid) + {s}],
             r.refcounts[s := (if s in r.refcounts then r.refcounts[s] else 0) + 1])
  }

  function Remove<S(==)>(r: Registry<S>, gid: Gid, s: S): Registry<S> {
    if s !in Registrants(r, gid) then r
    else
      var left := r.groups[gid] - {s};
      var count := if s in r.refcounts then r.refcounts[s] else 0;
      Registry(if left == {} then r.groups - {gid} else r.groups[gid := left],
               if count <= 1 then r.refcounts - {s} else r.refcounts[s := count - 1])
  }

  function AddAll<S(==)>(r: Registry<S>, gids: seq<Gid>, s: S): Registry<S> {
    if gids == [] then r else Add(AddAll(r, gids[..|gids| - 1], s), gids[|gids| - 1], s)
  }

  function RemoveAll<S(==)>(r: Registry<S>, gids: seq<Gid>, s: S): Registry<S> {
    if gids == [] then r else Remove(RemoveAll(r, gids[..|gids| - 1], s), gids[|gids| - 1], s)
  }

  /** The counts are right: a subscriber is counted once for every group it is registered in. */
  ghost predicate Counted<S>(r: Registry<S>) {
    && (forall g | g in r.groups :: r.groups[g] != {})
    && (forall g, s | g in r.groups && s in r.groups[g] :: s in r.refcounts)
    && (forall s | s in r.refcounts :: CountIs(r, s, r.refcounts[s]))
  }

  ghost predicate CountIs<S>(r: Registry<S>, s: S, n: nat) { GroupsOf(r, s) != {} && n == |GroupsOf(r, s)| }

  ghost function Subscribers<S>(r: Registry<S>): set<S> { set g, s | g in r.groups && s in r.groups[g] :: s }

  lemma CountedWhenRegistered<S>(r: Registry<S>, s: S)
    requires Counted(r)
    ensures s in r.refcounts <==> s in Subscribers(r)
    ensures s in r.refcounts <==> GroupsOf(r, s) != {}
  {
    if GroupsOf(r, s) != {} {
      var g :| g in GroupsOf(r, s);
      assert s in r.groups[g];
    }
  }

  /** The size of the count table is the number of distinct subscribers registered in some group. */
  lemma SizeIsDistinctSubscribers<S>(r: Registry<S>)
    requires Counted(r)
    ensures r.refcounts.Keys == Subscribers(r) && |r.refcounts| == |Subscribers(r)|
  {
    forall s
      ensures s in r.refcounts.Keys <==> s in Subscribers(r)
    {
      CountedWhenRegistered(r, s);
    }
    hide Counted, Subscribers;
    assert r.refcounts.Keys == Subscribers(r);
  }

  lemma GroupsAfterAdd<S>(r: Registry<S>, gid: Gid, s: S, t: S)
    ensures GroupsOf(Add(r, gid, s), t) == if t == s then GroupsOf(r, t) + {gid} else GroupsOf(r, t)
  {
  }

  lemma RegisteredHere<S>(r: Registry<S>, gid: Gid, s: S)
    ensures s in Registrants(r, gid) <==> gid in GroupsOf(r, s)
  {
  }

  lemma AddNewKeepsCount<S>(r: Registry<S>, gid: Gid, s: S)
    requires Counted(r) && s !in Registrants(r, gid)
    ensures Counted(Add(r, gid, s))
  {
    var u := Add(r, gid, s);
    RegisteredHere(r, gid, s);
    CountedWhenRegistered(r, s);
    forall t | t in u.refcounts
      ensures CountIs(u, t, u.refcounts[t])
    {
      hide Add;
      AddCounts(r, gid, s, t);
    }
    hide CountIs, GroupsOf;
  }

  lemma AddCounts<S>(r: Registry<S>, gid: Gid, s: S, t: S)
    requires gid !in GroupsOf(r, s) && (s !in r.refcounts ==> GroupsOf(r, s) == {})
    requires t in Add(r, gid, s).refcounts && forall x | x in r.refcounts :: CountIs(r, x, r.refcounts[x])
    ensures CountIs(Add(r, gid, s), t, Add(r, gid, s).refcounts[t])
  {
    GroupsAfterAdd(r, gid, s, t);
    hide GroupsOf;
    assert t in r.refcounts ==> CountIs(r, t, r.refcounts[t]);
  }

  lemma AddAgainBreaksCount<S>(r: Registry<S>, gid: Gid, s: S)
    requires Counted(r) && s in Registrants(r, gid)
    ensures !Counted(Add(r, gid, s))
  {
    var u := Add(r, gid, s);
    RegisteredHere(r, gid, s);
    GroupsAfterAdd(r, gid, s, s);
    assert CountIs(r, s, r.refcounts[s]);
    hide GroupsOf;
    assert GroupsOf(r, s) + {gid} == GroupsOf(r, s);
    assert !CountIs(u, s, u.refcounts[s]);
  }

  /** Registering keeps the counts right exactly when the subscriber was not registered for that group. */
  lemma AddKeepsCountExactlyWhenNew<S>(r: Registry<S>, gid: Gid, s: S)
    requires Counted(r)
    ensures Counted(Add(r, gid, s)) <==> s !in Registrants(r, gid)
  {
    hide Counted, Add;
    if s in Registrants(r, gid) {
      AddAgainBreaksCount(r, gid, s);
    } else {
      AddNewKeepsCount(r, gid, s);
    }
  }

  lemma GroupsAfterRemove<S>(r: Registry<S>, gid: Gid, s: S, t: S)
    requires s in Registrants(r, gid)
    ensures GroupsOf(Remove(r, gid, s), t) == if t == s then GroupsOf(r, t) - {gid} else GroupsOf(r, t)
  {
    var left := r.groups[gid] - {s};
    assert t != s ==> (t in r.groups[gid] <==> t in left);
  }

  lemma RemoveKeepsCount<S>(r: Registry<S>, gid: Gid, s: S)
    requires Counted(r)
    ensures Counted(Remove(r, gid, s))
  {
    if s in Registrants(r, gid) {
      var u := Remove(r, gid, s);
      RegisteredHere(r, gid, s);
      CountedWhenRegistered(r, s);
      GroupsAfterRemove(r, gid, s, s);
      assert CountIs(r, s, r.refcounts[s]);
      forall t | t in u.refcounts
        ensures CountIs(u, t, u.refcounts[t])
      {
        hide GroupsOf;
        GroupsAfterRemove(r, gid, s, t);
        assert CountIs(r, t, r.refcounts[t]);
        assert |GroupsOf(r, s) - {gid}| == |GroupsOf(r, s)| - 1;
        assert t == s ==> |GroupsOf(u, s)| == u.refcounts[s] >= 1;
      }
      forall g, t | g in u.groups && t in u.groups[g]
        ensures t in u.refcounts
      {
        assert t in r.groups[g];
        RegisteredHere(u, g, t);
      }
    }
  }

  predicate DistinctGids(gids: seq<Gid>) { forall i, j :: 0 <= i < j < |gids| ==> gids[i] != gids[j] }

  lemma {:induction false} AddAllKeepsCount<S>(r: Registry<S>, gids: seq<Gid>, s: S)
    requires Counted(r) && DistinctGids(gids) && forall g | g in gids :: s !in Registrants(r, g)
    ensures Counted(AddAll(r, gids, s))
    ensures forall g :: s in Registrants(AddAll(r, gids, s), g) <==> s in Registrants(r, g) || g in gids
  {
    if gids != [] {
      var n := |gids| - 1;
      assert forall g :: g in gids <==> g in gids[..n] || g == gids[n];
      AddAllKeepsCount(r, gids[..n], s);
      assert gids[n] !in gids[..n];
      AddKeepsCountExactlyWhenNew(AddAll(r, gids[..n], s), gids[n], s);
    }
  }

  lemma {:induction false} RemoveAllKeepsCount<S>(r: Registry<S>, gids: seq<Gid>, s: S)
    requires Counted(r)
    ensures Counted(RemoveAll(r, gids, s))
  {
    if gids != [] {
      RemoveAllKeepsCount(r, gids[..|gids| - 1], s);
      RemoveKeepsCount(RemoveAll(r, gids[..|gids| - 1], s), gids[|gids| - 1], s);
    }
  }

  /** After a registration the subscriber is in each of its groups, and nothing else has changed about who is where. */
  lemma {:induction false} WhoIsThereAfterAdding<S>(r: Registry<S>, gids: seq<Gid>, s: S, gid: Gid, t: S)
    ensures t in Registrants(AddAll(r, gids, s), gid) <==> t in Registrants(r, gid) || (t == s && gid in gids)
  {
    if gids != [] {
      var n := |gids| - 1;
      WhoIsThereAfterAdding(r, gids[..n], s, gid, t);
      assert gid in gids <==> gid in gids[..n] || gid == gids[n];
    }
  }

  /** After a cancellation it is in none of them, and nothing else has changed. */
  lemma {:induction false} WhoIsThereAfterRemoving<S>(r: Registry<S>, gids: seq<Gid>, s: S, gid: Gid, t: S)
    ensures t in Registrants(RemoveAll(r, gids, s), gid) <==> t in Registrants(r, gid) && !(t == s && gid in gids)
  {
    if gids != [] {
      var n := |gids| - 1;
      var before := RemoveAll(r, gids[..n], s);
      WhoIsThereAfterRemoving(r, gids[..n], s, gid, t);
      assert gid in gids <==> gid in gids[..n] || gid == gids[n];
      if s in Registrants(before, gids[n]) && gid == gids[n] && t != s && t in before.groups[gid] {
        assert t in before.groups[gid] - {s};
      }
    }
  }

  /** A subscription joins with a subscriber of its own, for distinct groups; it may be cancelled any number of times. */
  datatype Change = Join(s: nat, gids: seq<Gid>) | Leave(s: nat, gids: seq<Gid>)

  function Apply(r: Registry<nat>, c: Change): Registry<nat> {
    match c
    case Join(s, gids) => AddAll(r, gids, s)
    case Leave(s, gids) => RemoveAll(r, gids, s)
  }

  predicate Proper(r: Registry<nat>, c: Change) {
    c.Join? ==> c.s !in r.refcounts && DistinctGids(c.gids)
  }

  predicate AllProper(r: Registry<nat>, changes: seq<Change>)
    decreases changes
  {
    changes == [] || (Proper(r, changes[0]) && AllProper(Apply(r, changes[0]), changes[1..]))
  }

  function ApplyAll(r: Registry<nat>, changes: seq<Change>): Registry<nat>
    decreases changes
  {
    if changes == [] then r else ApplyAll(Apply(r, changes[0]), changes[1..])
  }

  /** Over any run of subscriptions and cancellations the live count is the number of distinct registered subscribers. */
  lemma {:induction false} LiveCountIsRight(r: Registry<nat>, changes: seq<Change>)
    requires Counted(r) && AllProper(r, changes)
    ensures Counted(ApplyAll(r, changes))
    ensures |ApplyAll(r, changes).refcounts| == |Subscribers(ApplyAll(r, changes))|
    decreases changes
  {
    if changes == [] {
      SizeIsDistinctSubscribers(r);
    } else {
      match changes[0] {
        case Join(s, gids) =>
          forall g | g in gids
            ensures s !in Registrants(r, g)
          {
          }
          AddAllKeepsCount(r, gids, s);
        case Leave(s, gids) =>
          RemoveAllKeepsCount(r, gids, s);
      }
      LiveCountIsRight(Apply(r, changes[0]), changes[1..]);
    }
  }

  // ---------------------------------------------------------------------
  // The objects
  // ---------------------------------------------------------------------

  function PushAll(c: MessageQueue.Channel<Rec>, records: seq<Rec>): MessageQueue.Channel<Rec> {
    if records == [] then c
    else MessageQueue.PushTo(PushAll(c, records[..|records| - 1]), records[|records| - 1])
  }

  lemma {:induction false} PushAllAppend(c: MessageQueue.Channel<Rec>, a: seq<Rec>, b: seq<Rec>)
    ensures PushAll(c, a + b) == PushAll(PushAll(c, a), b)
  {
    if b == [] {
      assert a + b == a;
    } else {
      assert (a + b)[..|a + b| - 1] == a + b[..|b| - 1];
      PushAllAppend(c, a, b[..|b| - 1]);
    }
  }

  lemma PushedMore(c: MessageQueue.Channel<Rec>, n: nat, was: seq<Rec>, now: seq<Rec>)
    requires n <= |was| && was <= now
    ensures PushAll(PushAll(c, was[n..]), now[|was|..]) == PushAll(c, now[n..])
  {
    PushAllAppend(c, was[n..], now[|was|..]);
    assert now[n..] == was[n..] + now[|was|..];
  }

  /** Whether a live record goes straight on to the subscriber's reader. */
  predicate PassesOn(s: Subscriber, r: Rec) { !s.replaying && r.cursor > LastEmitted(s, r.gid) }

  /** The reader's queue after a live record was pushed to its subscriber. */
  function Delivered(s: Subscriber, queue: MessageQueue.Channel<Rec>, r: Rec): MessageQueue.Channel<Rec> {
    if PassesOn(s, r) then MessageQueue.PushTo(queue, r) else queue
  }

  /** The reader's queue is handed exactly what its subscriber emits, and nothing while the backlog is replayed. */
  lemma DeliveredIsEmitted(s: Subscriber, queue: MessageQueue.Channel<Rec>, r: Rec)
    ensures var after := PushLive(s, r).emitted;
            && s.emitted <= after && Delivered(s, queue, r) == PushAll(queue, after[|s.emitted|..])
            && (s.replaying ==> after == s.emitted)
  {
    var after := PushLive(s, r).emitted;
    assert after == s.emitted || after == s.emitted + [r];
    assert (s.emitted + [r])[|s.emitted|..] == [r] && s.emitted[|s.emitted|..] == [];
    assert PushAll(queue, [r]) == MessageQueue.PushTo(PushAll(queue, []), r) by {
      assert [r][..0] == [];
    }
  }

  /** The subscriber of a subscription to several groups, with the queue its reader drains. */
  class BacklogSubscriber {
    const queue: MessageQueue.AsyncMessageQueue<Rec>
    var cursorsByGroup: map<Gid, nat>
    var liveBuffer: seq<Rec>
    var replayingBacklog: bool
    ghost var emitted: seq<Rec>

    ghost function View(): Subscriber
      reads this
    {
      Subscriber(cursorsByGroup, liveBuffer, replayingBacklog, emitted)
    }

    constructor (wanted: seq<Wanted>)
      ensures fresh(queue) && queue.Valid()
      ensures queue.View() == MessageQueue.Channel([], [], false, MessageQueue.Falsy, 0, [])
      ensures View() == Subscriber(InitialCursors(wanted), [], true, [])
    {
      queue := new MessageQueue.AsyncMessageQueue();
      liveBuffer, replayingBacklog, emitted := [], true, [];
      cursorsByGroup := map[];
      new;
      var i := 0;
      while i < |wanted|
        invariant 0 <= i <= |wanted|
        invariant fresh(queue) && queue.Valid()
        invariant queue.View() == MessageQueue.Channel([], [], false, MessageQueue.Falsy, 0, [])
        invariant View() == Subscriber(InitialCursors(wanted[..i]), [], true, [])
      {
        assert wanted[..i + 1][..i] == wanted[..i];
        cursorsByGroup := cursorsByGroup[wanted[i].gid := wanted[i].after];
        i := i + 1;
      }
      assert wanted[..i] == wanted;
    }

    /** What reached the queue since `was`. */
    ghost function New(was: seq<Rec>): seq<Rec>
      requires |was| <= |emitted|
      reads this
    {
      emitted[|was|..]
    }

    method EmitNew(r: Rec)
      requires queue.Valid()
      modifies this, queue
      ensures queue.Valid() && View() == EmitIfNew(old(View()), r)
      ensures old(emitted) <= emitted && queue.View() == PushAll(old(queue.View()), New(old(emitted)))
    {
      var lastEmitted := if r.gid in cursorsByGroup then cursorsByGroup[r.gid] else 0;
      if r.cursor <= lastEmitted {
        return;
      }
      cursorsByGroup := cursorsByGroup[r.gid := r.cursor];
      emitted := emitted + [r];
      queue.Enqueue(r);
      assert New(old(emitted)) == [r] && [r][..0] == [];
    }

    method Push(r: Rec)
      requires queue.Valid()
      modifies this, queue
      ensures queue.Valid() && View() == PushLive(old(View()), r)
      ensures queue.View() == Delivered(old(View()), old(queue.View()), r)
    {
      if replayingBacklog {
        liveBuffer := liveBuffer + [r];
        return;
      }
      EmitNew(r);
      assert PassesOn(old(View()), r) ==> New(old(emitted)) == [r] && [r][..0] == [];
    }

    method Replay(records: seq<Rec>)
      requires queue.Valid()
      modifies this, queue
      ensures queue.Valid() && View() == EmitAll(old(View()), records)
      ensures old(emitted) <= emitted && queue.View() == PushAll(old(queue.View()), New(old(emitted)))
    {
      hide MessageQueue.PushTo;
      var i := 0;
      assert records[0..] == records;
      while i < |records|
        invariant 0 <= i <= |records|
        invariant queue.Valid() && EmitAll(View(), records[i..]) == EmitAll(old(View()), records)
        invariant old(emitted) <= emitted && queue.View() == PushAll(old(queue.View()), New(old(emitted)))
      {
        ghost var was := emitted;
        assert records[i..][0] == records[i] && records[i..][1..] == records[i + 1..];
        EmitNew(records[i]);
        PushedMore(old(queue.View()), |old(emitted)|, was, emitted);
        i := i + 1;
      }
    }

    /** End the replay and let the held live records through. */
    method GoLive()
      requires queue.Valid()
      modifies this, queue
      ensures queue.Valid() && View() == Flush(old(View()))
      ensures old(emitted) <= emitted && queue.View() == PushAll(old(queue.View()), New(old(emitted)))
    {
      replayingBacklog := false;
      var held := liveBuffer;
      liveBuffer := [];
      Replay(held);
    }

    /** Replay the backlog, then go live. */
    method CatchUp(backlog: seq<Rec>)
      requires queue.Valid()
      modifies this, queue
      ensures queue.Valid() && View() == Flush(EmitAll(old(View()), backlog))
      ensures old(emitted) <= emitted && queue.View() == PushAll(old(queue.View()), New(old(emitted)))
    {
      hide EmitAll, Flush, PushAll;
      Replay(backlog);
      ghost var replayed := emitted;
      GoLive();
      PushedMore(old(queue.View()), |old(emitted)|, replayed, emitted);
    }
  }

  function GidsOf(wanted: seq<Wanted>): seq<Gid> { seq(|wanted|, i requires 0 <= i < |wanted| => wanted[i].gid) }

  /** The coordinator: the logs it stores and the subscribers it fans out to. */
  class MessageCoordinator {
    var logs: Logs
    var registry: Registry<BacklogSubscriber>

    constructor (logs: Logs)
      ensures this.logs == logs && registry == Registry(map[], map[]) && Valid()
    {
      this.logs, registry := logs, Registry(map[], map[]);
    }

    ghost function Queues(subs: set<BacklogSubscriber>): set<object> { set s | s in subs :: s.queue }

    ghost predicate Sound(subs: set<BacklogSubscriber>)
      reads Queues(subs)
    {
      && (forall s | s in subs :: s.queue.Valid())
      && (forall s, t | s in subs && t in subs && s != t :: s.queue != t.queue)
    }

    /** Every counted subscriber has a queue of its own. */
    ghost predicate Valid()
      reads this, Queues(registry.refcounts.Keys)
    {
      Counted(registry) && Sound(registry.refcounts.Keys)
    }

    /** Hand a live record to each of `subs`. */
    method FanOut(subs: set<BacklogSubscriber>, r: Rec, ghost members: set<BacklogSubscriber>)
      requires subs <= members && Sound(members)
      modifies subs, Queues(subs)
      ensures Sound(members) && forall s | s in subs :: s.View() == PushLive(old(s.View()), r)
      ensures forall s | s in subs :: s.queue.View() == Delivered(old(s.View()), old(s.queue.View()), r)
    {
      hide PushLive, Delivered, BacklogSubscriber.View, MessageQueue.AsyncMessageQueue.View, MessageQueue.AsyncMessageQueue.Valid;
      var todo := subs;
      while todo != {}
        invariant todo <= subs && Sound(members)
        invariant forall s | s in subs :: s.View() == if s in todo then old(s.View()) else PushLive(old(s.View()), r)
        invariant forall s | s in subs ::
          s.queue.View() == if s in todo then old(s.queue.View()) else Delivered(old(s.View()), old(s.queue.View()), r)
        decreases |todo|
      {
        var s :| s in todo;
        todo := todo - {s};
        s.Push(r);
      }
    }

    /** Store a message and hand it to everyone registered for its group. */
    method PostGroupMessage(gid: Gid, payload: nat) returns (r: Rec)
      requires Valid()
      modifies this`logs, Registrants(registry, gid), Queues(Registrants(registry, gid))
      ensures Valid()
      ensures r == NextRecord(old(logs), gid, payload) && logs == AppendTo(old(logs), gid, payload)
      ensures forall s | s in Registrants(registry, gid) :: s.View() == PushLive(old(s.View()), r)
      ensures forall s | s in Registrants(registry, gid) ::
                s.queue.View() == Delivered(old(s.View()), old(s.queue.View()), r)
    {
      hide PushLive, Delivered;
      r := NextRecord(logs, gid, payload);
      logs := AppendTo(logs, gid, payload);
      RegistrantsAreCounted(registry, gid);
      hide Counted, Registrants;
      FanOut(Registrants(registry, gid), r, registry.refcounts.Keys);
    }

    /** Register one subscriber for several groups. */
    method RegisterAll(gids: seq<Gid>, s: BacklogSubscriber)
      modifies this`registry
      ensures registry == AddAll(old(registry), gids, s)
    {
      var i := 0;
      assert gids[..0] == [];
      while i < |gids|
        invariant 0 <= i <= |gids|
        invariant registry == AddAll(old(registry), gids[..i], s)
      {
        assert gids[..i + 1][..i] == gids[..i];
        registry := Add(registry, gids[i], s);
        i := i + 1;
      }
      assert gids[..i] == gids;
    }

    /** Subscribe to several groups: register, replay the backlog, let held records through. */
    method SubscribeMany(wanted: seq<Wanted>) returns (s: BacklogSubscriber)
      requires Valid() && DistinctGids(GidsOf(wanted))
      modifies this`registry
      ensures Valid() && fresh(s) && fresh(s.queue) && s.queue.Valid()
      ensures registry == AddAll(old(registry), GidsOf(wanted), s)
      ensures s.View() == Flush(EmitAll(Subscriber(InitialCursors(wanted), [], true, []), Backlog(logs, wanted)))
      ensures s.queue.View() == PushAll(MessageQueue.Channel([], [], false, MessageQueue.Falsy, 0, []), s.emitted)
    {
      hide EmitAll, Flush, Backlog, PushAll, AddAll;
      var gids := GidsOf(wanted);
      s := new BacklogSubscriber(wanted);
      NobodyYet(registry, gids, s);
      RegisterAll(gids, s);
      AddAllKeepsCount(old(registry), gids, s);
      AddAllCountsOnlyNew(old(registry), gids, s);
      hide Counted, GidsOf, DistinctGids;
      s.CatchUp(Backlog(logs, wanted));
      assert s.emitted[0..] == s.emitted;
    }

    /** Cancel a subscription: its queue ends and it leaves its groups. */
    method Unsubscribe(s: BacklogSubscriber, gids: seq<Gid>)
      requires Valid() && s.queue.Valid()
      requires forall t | t in registry.refcounts && t != s :: t.queue != s.queue
      modifies this`registry, s.queue
      ensures Valid() && s.queue.Valid()
      ensures registry == RemoveAll(old(registry), gids, s)
      ensures s.queue.View() == MessageQueue.CloseOnce(old(s.queue.View()))
    {
      s.queue.Shut();
      assert Sound(registry.refcounts.Keys);
      var i := 0;
      while i < |gids|
        invariant 0 <= i <= |gids|
        invariant registry == RemoveAll(old(registry), gids[..i], s)
        invariant s.queue.Valid() && s.queue.View() == MessageQueue.CloseOnce(old(s.queue.View()))
        invariant Sound(old(registry).refcounts.Keys)
      {
        assert gids[..i + 1][..i] == gids[..i];
        registry := Remove(registry, gids[i], s);
        i := i + 1;
      }
      assert gids[..i] == gids;
      RemoveAllKeepsCount(old(registry), gids, s);
      RemoveAllCountsFewer(old(registry), gids, s);
    }

    /** How many subscriptions are live. */
    method ActiveSubscriptionCount() returns (n: nat)
      requires Valid()
      ensures n == |Subscribers(registry)|
    {
      SizeIsDistinctSubscribers(registry);
      return |registry.refcounts|;
    }
  }

  lemma NobodyYet<S>(r: Registry<S>, gids: seq<Gid>, s: S)
    requires Counted(r) && s !in r.refcounts
    ensures forall g | g in gids :: s !in Registrants(r, g)
  {
  }

  lemma RegistrantsAreCounted<S>(r: Registry<S>, gid: Gid)
    requires Counted(r)
    ensures Registrants(r, gid) <= r.refcounts.Keys
  {
  }

  lemma {:induction false} AddAllCountsOnlyNew<S>(r: Registry<S>, gids: seq<Gid>, s: S)
    ensures forall t | t in AddAll(r, gids, s).refcounts :: t == s || t in r.refcounts
  {
    if gids != [] {
      AddAllCountsOnlyNew(r, gids[..|gids| - 1], s);
    }
  }

  lemma {:induction false} RemoveAllCountsFewer<S>(r: Registry<S>, gids: seq<Gid>, s: S)
    ensures RemoveAll(r, gids, s).refcounts.Keys <= r.refcounts.Keys
  {
    if gids != [] {
      RemoveAllCountsFewer(r, gids[..|gids| - 1], s);
    }
  }

  // ---------------------------------------------------------------------
  // The object against the interleaved run
  // ---------------------------------------------------------------------

  function Steps(n: nat): seq<Event> { seq(n, _ => Proceed) }

  lemma {:induction false} RegisterSteps(wanted: seq<Wanted>, c: Scene, n: nat, more: seq<Event>)
    requires c.stage.Registering? && c.stage.count + n == |wanted|
    ensures HappenAll(wanted, c, Steps(n) + more) == HappenAll(wanted, c.(stage := Registering(|wanted|)), more)
    decreases n
  {
    if n == 0 {
      assert Steps(0) + more == more;
    } else {
      assert (Steps(n) + more)[1..] == Steps(n - 1) + more;
      RegisterSteps(wanted, Happen(wanted, c, Proceed), n - 1, more);
    }
  }

  lemma {:induction false} ReplaySteps(wanted: seq<Wanted>, c: Scene, rest: seq<Rec>, more: seq<Event>)
    requires c.stage == Replaying(rest)
    ensures HappenAll(wanted, c, Steps(|rest|) + more)
         == HappenAll(wanted, Scene(c.logs, EmitAll(c.sub, rest), Replaying([])), more)
    decreases rest
  {
    if rest == [] {
      assert Steps(0) + more == more;
    } else {
      assert (Steps(|rest|) + more)[1..] == Steps(|rest| - 1) + more;
      ReplaySteps(wanted, Happen(wanted, c, Proceed), rest[1..], more);
    }
  }

  /** What `SubscribeMany` leaves is the run in which nothing is posted between its steps. */
  lemma SubscribeIsUninterruptedRun(logs: Logs, wanted: seq<Wanted>)
    ensures var backlog := Backlog(logs, wanted);
            var events := Steps(|wanted|) + ([Proceed] + (Steps(|backlog|) + [Proceed]));
            var end := Flush(EmitAll(Subscriber(InitialCursors(wanted), [], true, []), backlog));
            HappenAll(wanted, Opening(logs, wanted), events) == Scene(logs, end, Live)
  {
    var backlog := Backlog(logs, wanted);
    var tail := Steps(|backlog|) + [Proceed];
    var start := Opening(logs, wanted);
    RegisterSteps(wanted, start, |wanted|, [Proceed] + tail);
    var registered := start.(stage := Registering(|wanted|));
    assert ([Proceed] + tail)[0] == Proceed && ([Proceed] + tail)[1..] == tail;
    var reading := start.(stage := Replaying(backlog));
    assert HappenAll(wanted, registered, [Proceed] + tail) == HappenAll(wanted, reading, tail);
    ReplaySteps(wanted, reading, backlog, [Proceed]);
    var done := Scene(logs, EmitAll(start.sub, backlog), Replaying([]));
    assert HappenAll(wanted, done, [Proceed]) == HappenAll(wanted, Happen(wanted, done, Proceed), []);
  }
}
