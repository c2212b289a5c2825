/**
 * The two storage backends run side by side: every operation sequence gets the
 * same answers from both.
 */
module StorageParity {
  import opened Base
  import opened Storage
  import M = InMemoryStorage
  import S = SqliteStorage

  /** The answers the tables' meaning gives to a sequence of operations. */
  function Answers(ops: seq<Op>): seq<Answer> {
    if ops == [] then []
    else Answers(ops[..|ops| - 1]) + [Perform(RowsAfter(ops[..|ops| - 1]), ops[|ops| - 1]).1]
  }

  method StepMemory(m: M.InMemoryStorage, op: Op) returns (answer: Answer)
    requires m.Valid() && FreshRef(m.rows, op)
    modifies m, m.keyPackagesByIdentity.Values
    ensures m.Valid() && (m.rows, answer) == Perform(old(m.rows), op)
    ensures fresh(m.keyPackagesByIdentity.Values - old(m.keyPackagesByIdentity.Values))
  {
    hide m.Valid;
    match op {
      case PublishKeyPackage(k) =>
        m.PublishKeyPackage(k);
        answer := Stored;
      case ListKeyPackages(owner) =>
        var list := m.ListKeyPackagesForIdentity(owner);
        answer := KeyPackages(list.items);
      case ListAll =>
        var list := m.ListAllKeyPackages();
        answer := AllKeyPackages(multiset(list));
      case GetKeyPackage(ref) =>
        var k := m.GetKeyPackage(ref);
        answer := Found(k);
      case RemoveKeyPackage(ref) =>
        var k := m.RemoveKeyPackage(ref);
        answer := Found(k);
      case ConsumeKeyPackage(id) =>
        var k := m.ConsumeKeyPackage(id);
        answer := Found(k);
      case StoreWelcome(w) =>
        m.StoreWelcome(w);
        answer := Stored;
      case FetchWelcomes(target, consumed) =>
        var list := m.FetchPendingWelcomes(target, consumed);
        answer := Welcomes(list);
      case ExpireWelcomes(threshold) =>
        var n := m.DeleteExpiredWelcomes(threshold);
        answer := Deleted(n);
      case StoreJoinRequest(r) =>
        var stored := m.StoreJoinRequest(r);
        answer := if stored.Ok? then Requests([stored.value]) else Failed(stored.error);
      case FetchRequests(group, handled) =>
        var list := m.FetchPendingJoinRequests(group, handled);
        answer := Requests(list);
      case FetchManyRequests(groups, all) =>
        var list := m.FetchManyPendingJoinRequests(groups, all);
        answer := Requests(list);
      case ExpireRequests(threshold) =>
        var n := m.DeleteExpiredJoinRequests(threshold);
        answer := Deleted(n);
      case AppendMessage(group, payload, at) =>
        var message := m.AppendGroupMessage(group, payload, at);
        answer := Messages([message]);
      case FetchGroupMessages(ask) =>
        var list := m.FetchGroupMessages(ask);
        answer := Messages(list);
      case FetchManyMessages(asks) =>
        var list := m.FetchManyGroupMessages(asks);
        answer := Messages(list);
      case GetRouting(group) =>
        var last := m.GetGroupRouting(group);
        answer := Routed(last);
    }
  }

  /** A cursor is left to allocate, if the operation needs one. */
  predicate CursorLeft(rows: Rows, op: Op) {
    op.AppendMessage? ==> |MessagesOf(rows.messages, op.group)| < MAX_SAFE_INTEGER
  }

  /** Only two things set the rows apart from their plain meaning: a stored reference published again, and no cursor left. */
  method StepSqlite(s: S.SqliteStorage, op: Op) returns (answer: Answer)
    requires s.Valid() && Kept(s.View())
    modifies s
    ensures s.Valid()
    ensures FreshRef(old(s.View()), op) && CursorLeft(old(s.View()), op) ==> (s.View(), answer) == Perform(old(s.View()), op)
    ensures !FreshRef(old(s.View()), op) ==> s.View() == old(s.View()) && answer == Failed(DuplicateRef)
    ensures !CursorLeft(old(s.View()), op) ==> s.View() == old(s.View()) && answer == Failed(NoCursorLeft)
  {
    hide s.Valid;
    match op {
      case PublishKeyPackage(k) =>
        var stored := s.PublishKeyPackage(k);
        answer := if stored.Ok? then Stored else Failed(stored.error);
      case ListKeyPackages(owner) =>
        var list := s.ListKeyPackagesForIdentity(owner);
        answer := KeyPackages(list);
      case ListAll =>
        var list := s.ListAllKeyPackages();
        answer := AllKeyPackages(multiset(list));
      case GetKeyPackage(ref) =>
        var k := s.GetKeyPackage(ref);
        answer := Found(k);
      case RemoveKeyPackage(ref) =>
        var k := s.RemoveKeyPackage(ref);
        answer := Found(k);
      case ConsumeKeyPackage(id) =>
        var k := s.ConsumeKeyPackage(id);
        answer := Found(k);
      case StoreWelcome(w) =>
        s.StoreWelcome(w);
        answer := Stored;
      case FetchWelcomes(target, consumed) =>
        var list := s.FetchPendingWelcomes(target, consumed);
        answer := Welcomes(list);
      case ExpireWelcomes(threshold) =>
        var n := s.DeleteExpiredWelcomes(threshold);
        answer := Deleted(n);
      case StoreJoinRequest(r) =>
        var stored := s.StoreJoinRequest(r);
        answer := if stored.Ok? then Requests([stored.value]) else Failed(stored.error);
      case FetchRequests(group, handled) =>
        var list := s.FetchPendingJoinRequests(group, handled);
        answer := Requests(list);
      case FetchManyRequests(groups, all) =>
        var list := s.FetchManyPendingJoinRequests(groups, all);
        answer := Requests(list);
      case ExpireRequests(threshold) =>
        var n := s.DeleteExpiredJoinRequests(threshold);
        answer := Deleted(n);
      case AppendMessage(group, payload, at) =>
        var message := s.AppendGroupMessage(group, payload, at);
        answer := if message.Ok? then Messages([message.value]) else Failed(message.error);
      case FetchGroupMessages(ask) =>
        var list := s.FetchGroupMessages(ask);
        answer := Messages(list);
      case FetchManyMessages(asks) =>
        var list := s.FetchManyGroupMessages(asks);
        answer := Messages(list);
      case GetRouting(group) =>
        var last := s.GetGroupRouting(group);
        answer := Routed(last);
    }
  }

  lemma {:induction false} OneMessagePerOp(ops: seq<Op>)
    ensures |RowsAfter(ops).messages| <= |ops|
  {
    if ops != [] {
      OneMessagePerOp(ops[..|ops| - 1]);
    }
  }

  lemma RoomForOneMore(ops: seq<Op>, group: Id)
    requires |ops| < MAX_SAFE_INTEGER
    ensures |MessagesOf(RowsAfter(ops).messages, group)| < MAX_SAFE_INTEGER
  {
    OneMessagePerOp(ops);
    FilterShorter(RowsAfter(ops).messages, (m: GroupMessage) => m.group == group);
  }

  lemma FreshSoFar(ops: seq<Op>, i: nat)
    requires FreshRefs(ops) && i <= |ops|
    ensures FreshRefs(ops[..i]) && (i < |ops| ==> FreshRef(RowsAfter(ops[..i]), ops[i]))
  {
    forall j | 0 <= j < i
      ensures ops[..i][..j] == ops[..j] && ops[..i][j] == ops[j]
    {
    }
  }

  /**
   * Parity: for every operation sequence in which no stored reference is
   * published again, and as long as a group's cursors are safe integers, the
   * in-memory maps and the ordered rows give the same answers, operation by
   * operation, and both are those of the tables' one meaning. What listing all
   * key packages gives is compared without its order, in which the two differ.
   */
  method RunBoth(ops: seq<Op>) returns (memory: seq<Answer>, sqlite: seq<Answer>)
    requires FreshRefs(ops) && |ops| < MAX_SAFE_INTEGER
    ensures memory == sqlite == Answers(ops)
  {
    var m := new M.InMemoryStorage();
    var s := new S.SqliteStorage();
    hide m.Valid, s.Valid, FreshRefs, Kept, Perform;
    memory, sqlite := [], [];
    var i := 0;
    assert ops[..0] == [];
    while i < |ops|
      invariant 0 <= i <= |ops|
      invariant fresh(m) && fresh(s) && fresh(m.keyPackagesByIdentity.Values) && m.Valid() && s.Valid()
      invariant m.rows == s.View() == RowsAfter(ops[..i])
      invariant memory == sqlite == Answers(ops[..i])
    {
      FreshSoFar(ops, i);
      RunKeeps(ops[..i]);
      if ops[i].AppendMessage? {
        RoomForOneMore(ops[..i], ops[i].group);
      }
      assert ops[..i + 1][..i] == ops[..i];
      var a := StepMemory(m, ops[i]);
      var b := StepSqlite(s, ops[i]);
      memory := memory + [a];
      sqlite := sqlite + [b];
      i := i + 1;
    }
    assert ops[..i] == ops;
  }
}
