/** The store a session keeps, filled from a snapshot one record at a time. */
module SnapshotRestore {
  import opened Base
  import opened GroupMerge
  import opened MergedHistory
  import opened SessionStore
  import opened Snapshot

  lemma {:induction false} FailureStays(entries: seq<Group>, i: nat)
    requires i <= |entries| && PlaceGroups(entries[..i]).Err?
    ensures PlaceGroups(entries) == PlaceGroups(entries[..i])
  {
    if i < |entries| {
      assert entries[..|entries| - 1][..i] == entries[..i];
      FailureStays(entries[..|entries| - 1], i);
    } else {
      assert entries[..i] == entries;
    }
  }

  lemma {:induction false} RefusalStays(entries: Table<nat>, i: nat)
    requires i <= |entries| && AddKeyPackages(entries[..i]).None?
    ensures AddKeyPackages(entries).None?
  {
    if i < |entries| {
      assert entries[..|entries| - 1][..i] == entries[..i];
      RefusalStays(entries[..|entries| - 1], i);
    } else {
      assert entries[..i] == entries;
    }
  }

  class ClientStore {
    var keyPackages: Table<nat>
    var groups: seq<Group>
    var welcomes: Table<Welcome>
    var pending: Pending
    var consumedWelcomes: Acks
    var fetchedRequests: Acks
    var consumedRequests: Acks
    const accepted: CappedRefSet

    ghost function View(): Image
      reads this, accepted
    {
      Image(keyPackages, groups, welcomes, pending, accepted.insertionOrder, consumedWelcomes, fetchedRequests, consumedRequests)
    }

    constructor ()
      ensures View() == Image([], [], [], [], [], [], [], [])
      ensures fresh(accepted) && accepted.Valid() && accepted.maxSize == MAX_ACCEPTED
    {
      keyPackages, groups, welcomes, pending := [], [], [], [];
      consumedWelcomes, fetchedRequests, consumedRequests := [], [], [];
      accepted := new CappedRefSet(MAX_ACCEPTED);
    }

    method RestoreAccepted(ids: seq<Key>)
      requires accepted.Valid()
      modifies accepted
      ensures accepted.Valid()
      ensures accepted.insertionOrder == AddAllCapped(old(accepted.insertionOrder), ids, accepted.maxSize)
    {
      var todo := ids;
      while todo != []
        invariant accepted.Valid()
        invariant AddAllCapped(accepted.insertionOrder, todo, accepted.maxSize)
                  == AddAllCapped(old(accepted.insertionOrder), ids, accepted.maxSize)
        decreases |todo|
      {
        accepted.Add(todo[0]);
        todo := todo[1..];
      }
    }

    static method RestoredAcks(saved: Acks) returns (acks: Acks)
      ensures acks == RestoreAcks(saved)
    {
      acks := [];
      for i := 0 to |saved|
        invariant acks == RestoreAcks(saved[..i])
      {
        var (owner, refs) := saved[i];
        ghost var start := acks;
        for j := 0 to |refs|
          invariant acks == QueueBucket(start, owner, refs[..j])
        {
          acks := QueueAck(acks, owner, refs[j].0, refs[j].1);
          assert refs[..j + 1][..j] == refs[..j];
        }
        assert refs[..|refs|] == refs;
        assert saved[..i + 1][..i] == saved[..i];
      }
      assert saved[..|saved|] == saved;
    }

    static method RestoredFetched(saved: Acks) returns (fetched: Acks)
      ensures fetched == RestoreFetched(saved)
    {
      fetched := [];
      for i := 0 to |saved|
        invariant fetched == RestoreFetched(saved[..i])
      {
        fetched := Put(fetched, saved[i].0, PutAll([], saved[i].1));
        assert saved[..i + 1][..i] == saved[..i];
      }
      assert saved[..|saved|] == saved;
    }

    method RestoreKeyPackages(saved: Table<nat>) returns (ok: bool)
      requires keyPackages == []
      modifies this`keyPackages
      ensures ok == AddKeyPackages(saved).Some?
      ensures ok ==> AddKeyPackages(saved) == Some(keyPackages)
    {
      for i := 0 to |saved|
        invariant AddKeyPackages(saved[..i]) == Some(keyPackages)
      {
        assert saved[..i + 1][..i] == saved[..i];
        if Has(keyPackages, saved[i].0) {
          RefusalStays(saved, i + 1);
          return false;
        }
        keyPackages := Put(keyPackages, saved[i].0, saved[i].1);
      }
      assert saved[..|saved|] == saved;
      return true;
    }

    static method MergedItems(held: seq<Item>, more: seq<Item>) returns (items: seq<Item>)
      ensures items == Tidy(held + more)
    {
      items := DedupeBy(held + more, NameOf);
      items := SortBy(items, CursorOf);
    }

    /** Fold a saved copy into the group already held at an index. */
    method MergeInto(at: nat, g: Group)
      requires at < |groups|
      modifies this`groups
      ensures groups == old(groups)[at := Merge(old(groups)[at], g)]
    {
      var held := groups[at];
      if g.standing.epoch > held.standing.epoch {
        held := held.(standing := g.standing);
      }
      if g.lastCursor > held.lastCursor {
        held := held.(lastCursor := g.lastCursor);
      }
      if g.fetchCursor > held.fetchCursor {
        held := held.(fetchCursor := g.fetchCursor);
      }
      var messages := MergedItems(held.messages, g.messages);
      var issues := MergedItems(held.issues, g.issues);
      groups := groups[at := held.(messages := messages, issues := issues)];
    }

    method RestoreGroups(saved: seq<Group>) returns (ok: bool, canonical: Table<Key>)
      requires groups == []
      modifies this`groups
      ensures ok ==> PlaceGroups(saved) == Ok(Restored(groups, canonical))
      ensures !ok ==> PlaceGroups(saved) == Err(DuplicateGroupAlias)
    {
      canonical := [];
      for i := 0 to |saved|
        invariant PlaceGroups(saved[..i]) == Ok(Restored(groups, canonical))
      {
        assert saved[..i + 1][..i] == saved[..i];
        var g := saved[i];
        ghost var before := Restored(groups, canonical);
        assert PlaceGroups(saved[..i + 1]) == PlaceGroup(before, g);
        hide PlaceGroups, Merge, Put;
        var at := IndexOf(groups, g.gid);
        if at == |groups| {
          if AliasTaken(groups, g.alias) {
            FailureStays(saved, i + 1);
            return false, canonical;
          }
          canonical := Put(canonical, g.alias, g.alias);
          groups := groups + [g];
        } else {
          canonical := Put(canonical, g.alias, groups[at].alias);
          MergeInto(at, g);
        }
      }
      assert saved[..|saved|] == saved;
      return true, canonical;
    }

    method RestorePendingOperations(canonical: Table<Key>, saved: Pending)
      requires pending == []
      modifies this`pending
      ensures pending == RestorePending(canonical, saved)
    {
      for i := 0 to |saved|
        invariant pending == EnqueueAll([], AllMoved(canonical, saved[..i]))
      {
        var (alias, ops) := saved[i];
        var home := Survivor(canonical, alias);
        ghost var start := pending;
        for j := 0 to |ops|
          invariant pending == EnqueueAll(start, Moved(ops[..j], home))
        {
          var op := ops[j].(alias := home);
          assert ops[..j + 1][..j] == ops[..j];
          assert (Moved(ops[..j], home) + [op])[..|Moved(ops[..j], home)|] == Moved(ops[..j], home);
          if op.commit !in Keys(OpsOf(pending, home), CommitOf) {
            pending := Put(pending, home, OpsOf(pending, home) + [op]);
          }
        }
        assert ops[..|ops|] == ops;
        assert saved[..i + 1][..i] == saved[..i];
        EnqueueInTwo([], AllMoved(canonical, saved[..i]), Moved(ops, home));
      }
      assert saved[..|saved|] == saved;
    }

    method RestoreWaitingWelcomes(saved: Table<Welcome>)
      requires welcomes == [] && accepted.Valid()
      modifies this`welcomes
      ensures welcomes == RestoreWelcomes(accepted.insertionOrder, saved)
    {
      for i := 0 to |saved|
        invariant welcomes == RestoreWelcomes(accepted.insertionOrder, saved[..i])
      {
        var known := accepted.Contains(saved[i].0);
        if !known {
          welcomes := Put(welcomes, saved[i].0, saved[i].1);
        }
        assert saved[..i + 1][..i] == saved[..i];
      }
      assert saved[..|saved|] == saved;
    }

    /** Fill an empty store from a snapshot. Acknowledgement state goes first, so that no accepted Welcome waits again. */
    method RestoreSnapshot(s: Image) returns (failure: Option<Failure>)
      requires View() == Image([], [], [], [], [], [], [], [])
      requires accepted.Valid() && accepted.maxSize == MAX_ACCEPTED
      modifies this, accepted
      ensures failure.None? ==> Restore(s) == Ok(View())
      ensures failure.Some? ==> Restore(s) == Err(failure.value)
    {
      hide AddKeyPackages, PlaceGroups, RestorePending, RestoreAcks, RestoreFetched, RestoreWelcomes, AddAllCapped;
      RestoreAccepted(s.accepted);
      consumedWelcomes := RestoredAcks(s.consumedWelcomes);
      fetchedRequests := RestoredFetched(s.fetchedRequests);
      consumedRequests := RestoredAcks(s.consumedRequests);
      var unique := RestoreKeyPackages(s.keyPackages);
      if !unique {
        return Some(DuplicateKeyPackageAlias);
      }
      var placed, canonical := RestoreGroups(s.groups);
      if !placed {
        return Some(DuplicateGroupAlias);
      }
      RestorePendingOperations(canonical, s.pending);
      RestoreWaitingWelcomes(s.welcomes);
      return None;
    }
  }
}
