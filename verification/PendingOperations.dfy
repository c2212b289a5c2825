/**
 * Own Commits awaiting their echo: queued per group, confirmed when the echo
 * comes back, finalized one by one - for an added member by storing a Welcome
 * with the coordinator - or rejected or dropped.
 */
module PendingOperations {
  import opened Base
  import opened Storage
  import opened Acks

  type Alias = nat

  datatype Kind =
    | AddMember(target: Id, ref: Id, bytes: nat, joinAfter: Option<nat>)
    | RemoveMember(target: Id)
    | UpdateMetadata

  datatype Status = Awaiting | Confirmed | Rejected

  datatype Operation = Operation(id: nat, commit: nat, kind: Kind, status: Status)

  /** A store call that is answered, or one whose answer is lost, whether or not the Welcome was stored. */
  datatype Delivery = Answered(now: int) | Unanswered(stored: bool, now: int)

  function WelcomeOf(op: Operation, now: int): Welcome
    requires op.kind.AddMember?
  {
    Welcome(op.kind.target, op.kind.ref, op.kind.bytes, now, op.kind.joinAfter)
  }

  function Mark(queue: seq<Operation>, commits: set<nat>, status: Status): seq<Operation> {
    if queue == [] then []
    else [if queue[0].commit in commits then queue[0].(status := status) else queue[0]] + Mark(queue[1..], commits, status)
  }

  /** What finalizing leaves: the queue, the coordinator's Welcomes, the operations finalized, and whether it got through. */
  datatype Progress = Progress(queue: seq<Operation>, inbox: seq<Welcome>, done: seq<Operation>, ok: bool)

  function Finalize(queue: seq<Operation>, inbox: seq<Welcome>, deliveries: seq<Delivery>): Progress
    decreases queue
  {
    if queue == [] then Progress([], inbox, [], true)
    else if !queue[0].status.Confirmed? then
      var rest := Finalize(queue[1..], inbox, deliveries);
      rest.(queue := [queue[0]] + rest.queue)
    else if !queue[0].kind.AddMember? then
      var rest := Finalize(queue[1..], inbox, deliveries);
      rest.(done := [queue[0]] + rest.done)
    else if deliveries == [] then Progress(queue, inbox, [], false)
    else
      match deliveries[0]
      case Answered(now) =>
        var rest := Finalize(queue[1..], AddWelcome(inbox, WelcomeOf(queue[0], now)).0, deliveries[1..]);
        rest.(done := [queue[0]] + rest.done)
      case Unanswered(stored, now) =>
        Progress(queue, if stored then AddWelcome(inbox, WelcomeOf(queue[0], now)).0 else inbox, [], false)
  }

  function Keep(queue: seq<Operation>, gone: Operation -> bool): seq<Operation> { Filter(queue, op => !gone(op)) }

  predicate AddsMember(op: Operation, target: Id) { op.kind.AddMember? && op.kind.target == target }

  // ---------------------------------------------------------------------
  // One finalizing pass
  // ---------------------------------------------------------------------

  /** How many of `ops` have this id. */
  function Count(ops: seq<Operation>, id: nat): nat {
    if ops == [] then 0 else (if ops[0].id == id then 1 else 0) + Count(ops[1..], id)
  }

  lemma {:induction false} CountAppend(a: seq<Operation>, b: seq<Operation>, id: nat)
    ensures Count(a + b, id) == Count(a, id) + Count(b, id)
  {
    if a == [] {
      assert a + b == b;
    } else {
      assert (a + b)[0] == a[0] && (a + b)[1..] == a[1..] + b;
      CountAppend(a[1..], b, id);
    }
  }

  /** A finalizing pass loses nothing: each operation is afterwards still queued or finalized. */
  lemma {:induction false} FinalizeCounts(queue: seq<Operation>, inbox: seq<Welcome>, deliveries: seq<Delivery>, id: nat)
    ensures var p := Finalize(queue, inbox, deliveries); Count(queue, id) == Count(p.queue, id) + Count(p.done, id)
    decreases queue
  {
    hide AddWelcome;
    if queue != [] {
      var head, tail := queue[0], queue[1..];
      FinalizeCounts(tail, inbox, deliveries, id);
      CountAppend([head], Finalize(tail, inbox, deliveries).queue, id);
      CountAppend([head], Finalize(tail, inbox, deliveries).done, id);
      if head.kind.AddMember? && deliveries != [] {
        var after := AddWelcome(inbox, WelcomeOf(head, deliveries[0].now)).0;
        FinalizeCounts(tail, after, deliveries[1..], id);
        CountAppend([head], Finalize(tail, after, deliveries[1..]).done, id);
      }
    }
  }

  /**
   * Only confirmed operations are finalized. A pass that fails leaves the
   * operation it failed on queued and confirmed; one that gets through leaves no
   * confirmed operation behind.
   */
  lemma {:induction false} FinalizeOnlyConfirmed(queue: seq<Operation>, inbox: seq<Welcome>, deliveries: seq<Delivery>)
    ensures var p := Finalize(queue, inbox, deliveries);
            && (forall op | op in p.done :: op in queue && op.status.Confirmed?)
            && (forall op | op in p.queue :: op in queue)
            && (p.ok <==> forall op | op in p.queue :: !op.status.Confirmed?)
    decreases queue
  {
    hide AddWelcome;
    if queue != [] {
      var head, tail := queue[0], queue[1..];
      assert queue == [head] + tail;
      if head.status.Confirmed? && head.kind.AddMember? {
        if deliveries != [] && deliveries[0].Answered? {
          FinalizeOnlyConfirmed(tail, AddWelcome(inbox, WelcomeOf(head, deliveries[0].now)).0, deliveries[1..]);
        }
      } else {
        FinalizeOnlyConfirmed(tail, inbox, deliveries);
      }
    }
  }

  /** This Welcome invites the added member, under the key package it was added with, with its bytes and its start. */
  predicate Invites(w: Welcome, op: Operation)
    requires op.kind.AddMember?
  {
    match op.kind
    case AddMember(target, ref, bytes, joinAfter) =>
      w.target == target && w.ref == ref && w.bytes == bytes && w.after == joinAfter
  }

  /** The pending Welcomes hold the operation's invitation. */
  ghost predicate Delivered(inbox: seq<Welcome>, op: Operation)
    requires op.kind.AddMember?
  {
    exists w | w in inbox :: Invites(w, op)
  }

  lemma InvitesIsSame(w: Welcome, op: Operation, now: int)
    requires op.kind.AddMember?
    ensures Invites(w, op) <==> SameDelivery(w, WelcomeOf(op, now))
  {
  }

  lemma AddWelcomeDelivers(inbox: seq<Welcome>, op: Operation, now: int, other: Operation)
    requires Told(inbox) && op.kind.AddMember? && other.kind.AddMember?
    ensures var after := AddWelcome(inbox, WelcomeOf(op, now)).0;
            Told(after) && Delivered(after, op) && (Delivered(inbox, other) ==> Delivered(after, other))
  {
    AddWelcomeKeepsTold(inbox, WelcomeOf(op, now));
    InvitesIsSame(AddWelcome(inbox, WelcomeOf(op, now)).1, op, now);
  }

  /** A pass never leaves two pending Welcomes that say the same, and takes none away. */
  lemma {:induction false} FinalizeStaysTold(queue: seq<Operation>, inbox: seq<Welcome>, deliveries: seq<Delivery>, other: Operation)
    requires Told(inbox) && other.kind.AddMember?
    ensures var p := Finalize(queue, inbox, deliveries);
            Told(p.inbox) && (Delivered(inbox, other) ==> Delivered(p.inbox, other))
    decreases queue
  {
    hide Told, Delivered, AddWelcome;
    if queue != [] {
      var head, tail := queue[0], queue[1..];
      if head.status.Confirmed? && head.kind.AddMember? {
        if deliveries != [] {
          AddWelcomeDelivers(inbox, head, deliveries[0].now, other);
          FinalizeStaysTold(tail, AddWelcome(inbox, WelcomeOf(head, deliveries[0].now)).0, deliveries[1..], other);
        }
      } else {
        FinalizeStaysTold(tail, inbox, deliveries, other);
      }
    }
  }

  /** Every added member that is finalized has its Welcome pending afterwards. */
  lemma {:induction false} FinalizeDelivers(queue: seq<Operation>, inbox: seq<Welcome>, deliveries: seq<Delivery>, op: Operation)
    requires Told(inbox) && op in Finalize(queue, inbox, deliveries).done && op.kind.AddMember?
    ensures Delivered(Finalize(queue, inbox, deliveries).inbox, op)
    decreases queue
  {
    hide Told, Delivered, AddWelcome;
    var head, tail := queue[0], queue[1..];
    if head.status.Confirmed? && head.kind.AddMember? {
      var after := AddWelcome(inbox, WelcomeOf(head, deliveries[0].now)).0;
      AddWelcomeDelivers(inbox, head, deliveries[0].now, op);
      if op in Finalize(tail, after, deliveries[1..]).done {
        FinalizeDelivers(tail, after, deliveries[1..], op);
      } else {
        assert op == head;
        FinalizeStaysTold(tail, after, deliveries[1..], op);
      }
    } else {
      FinalizeDelivers(tail, inbox, deliveries, op);
    }
  }

  /** A pass stores nothing but the Welcomes of confirmed operations. */
  lemma {:induction false} FinalizeSendsOnlyConfirmed(
    queue: seq<Operation>, inbox: seq<Welcome>, deliveries: seq<Delivery>, w: Welcome)
    requires w in Finalize(queue, inbox, deliveries).inbox && w !in inbox
    ensures exists op | op in queue :: op.status.Confirmed? && op.kind.AddMember? && Invites(w, op)
    decreases queue
  {
    var head, tail := queue[0], queue[1..];
    assert queue == [head] + tail;
    if head.status.Confirmed? && head.kind.AddMember? {
      var after := AddWelcome(inbox, WelcomeOf(head, deliveries[0].now)).0;
      if w in after {
        assert head in queue;
      } else {
        FinalizeSendsOnlyConfirmed(tail, after, deliveries[1..], w);
      }
    } else {
      FinalizeSendsOnlyConfirmed(tail, inbox, deliveries, w);
    }
  }

  /** A member whose addition was finalized finds the invitation, fetching right after the pass. */
  lemma FinalizedIsFetched(queue: seq<Operation>, inbox: seq<Welcome>, deliveries: seq<Delivery>, op: Operation, rows: Rows)
    requires Told(inbox) && op in Finalize(queue, inbox, deliveries).done && op.kind.AddMember?
    requires rows.welcomes == Finalize(queue, inbox, deliveries).inbox
    ensures var fetched := Perform(rows, FetchWelcomes(op.kind.target, [])).1;
            fetched.Welcomes? && exists w | w in fetched.welcomes :: Invites(w, op)
  {
    FinalizeDelivers(queue, inbox, deliveries, op);
    var w :| w in rows.welcomes && Invites(w, op);
    FetchWelcomesIs(rows, op.kind.target, []);
    var left := RetireWelcomes(rows.welcomes, op.kind.target, []);
    FilterIn(rows.welcomes, (x: Welcome) => !(x.target == op.kind.target && RetiredWelcome(x, [])), w);
    FilterIn(left, (x: Welcome) => x.target == op.kind.target, w);
    hide Finalize;
  }

  // ---------------------------------------------------------------------
  // What a pass takes out, and when it gets through
  // ---------------------------------------------------------------------

  function ConfirmedOf(queue: seq<Operation>): seq<Operation> { Filter(queue, (op: Operation) => op.status.Confirmed?) }

  /** The queue without its first `n` confirmed operations. */
  function TakeOut(queue: seq<Operation>, n: nat): seq<Operation> {
    if queue == [] then []
    else if queue[0].status.Confirmed? && n > 0 then TakeOut(queue[1..], n - 1)
    else [queue[0]] + TakeOut(queue[1..], n)
  }

  lemma {:induction false} TakeOutNone(queue: seq<Operation>)
    ensures TakeOut(queue, 0) == queue
  {
    if queue != [] {
      TakeOutNone(queue[1..]);
    }
  }

  /** A pass finalizes confirmed operations from the front, and leaves all others where they stand. */
  lemma {:induction false} FinalizesFromTheFront(queue: seq<Operation>, inbox: seq<Welcome>, deliveries: seq<Delivery>)
    ensures var p := Finalize(queue, inbox, deliveries);
            && p.done <= ConfirmedOf(queue) && p.queue == TakeOut(queue, |p.done|)
            && (p.ok ==> p.done == ConfirmedOf(queue))
    decreases queue
  {
    hide AddWelcome;
    TakeOutNone(queue);
    if queue != [] {
      var head, tail := queue[0], queue[1..];
      if head.status.Confirmed? && head.kind.AddMember? {
        if deliveries != [] && deliveries[0].Answered? {
          FinalizesFromTheFront(tail, AddWelcome(inbox, WelcomeOf(head, deliveries[0].now)).0, deliveries[1..]);
        }
      } else {
        FinalizesFromTheFront(tail, inbox, deliveries);
      }
    }
  }

  /** How many store calls a pass over this queue makes if all are answered. */
  function Invitations(queue: seq<Operation>): nat {
    if queue == [] then 0
    else (if queue[0].status.Confirmed? && queue[0].kind.AddMember? then 1 else 0) + Invitations(queue[1..])
  }

  /** A pass gets through exactly when every confirmed addition has an answered call. */
  lemma {:induction false} GetsThroughIff(queue: seq<Operation>, inbox: seq<Welcome>, deliveries: seq<Delivery>)
    ensures Finalize(queue, inbox, deliveries).ok <==>
              Invitations(queue) <= |deliveries| && forall i | 0 <= i < Invitations(queue) :: deliveries[i].Answered?
    decreases queue
  {
    hide AddWelcome;
    if queue != [] {
      var head, tail := queue[0], queue[1..];
      if head.status.Confirmed? && head.kind.AddMember? {
        if deliveries != [] && deliveries[0].Answered? {
          GetsThroughIff(tail, AddWelcome(inbox, WelcomeOf(head, deliveries[0].now)).0, deliveries[1..]);
          assert forall i | 0 < i < |deliveries| :: deliveries[i] == deliveries[1..][i - 1];
        }
      } else {
        GetsThroughIff(tail, inbox, deliveries);
      }
    }
  }

  lemma {:induction false} MarkedConfirmed(queue: seq<Operation>, commits: set<nat>)
    ensures Filter(Mark(queue, commits, Confirmed), (op: Operation) => !op.status.Confirmed?)
         == Filter(queue, (op: Operation) => op.commit !in commits && !op.status.Confirmed?)
  {
    if queue != [] {
      MarkedConfirmed(queue[1..], commits);
    }
  }

  lemma {:induction false} AllTakenOut(queue: seq<Operation>)
    ensures TakeOut(queue, |ConfirmedOf(queue)|) == Filter(queue, (op: Operation) => !op.status.Confirmed?)
  {
    if queue != [] {
      AllTakenOut(queue[1..]);
    }
  }

  /**
   * When the pass of an echo gets through, exactly the operations without their
   * echo stay queued, in order and as they were, and one operation is finalized
   * for every other.
   */
  lemma EchoesFinalize(w: World, commits: set<nat>, deliveries: seq<Delivery>)
    requires Finalize(Mark(w.queue, commits, Confirmed), w.inbox, deliveries).ok
    ensures var after := Happen(w, Confirm(commits, deliveries));
            && after.queue == Filter(w.queue, (op: Operation) => op.commit !in commits && !op.status.Confirmed?)
            && after.finalized == w.finalized + ConfirmedOf(Mark(w.queue, commits, Confirmed))
            && |after.finalized| - |w.finalized| == |w.queue| - |after.queue|
  {
    var marked := Mark(w.queue, commits, Confirmed);
    FinalizesFromTheFront(marked, w.inbox, deliveries);
    AllTakenOut(marked);
    MarkedConfirmed(w.queue, commits);
    MarkShape(w.queue, commits, Confirmed);
    SplitLength(marked);
    hide Finalize, Mark;
  }

  lemma {:induction false} SplitLength(queue: seq<Operation>)
    ensures |queue| == |ConfirmedOf(queue)| + |Filter(queue, (op: Operation) => !op.status.Confirmed?)|
  {
    if queue != [] {
      SplitLength(queue[1..]);
    }
  }

  /** A rejection takes exactly the operations with a named Commit, a removal exactly the additions of that member. */
  lemma TakesExactlyTheNamed(w: World, refused: set<nat>, target: Id)
    ensures var after := Happen(w, Reject(refused));
            && after.queue == Filter(w.queue, (op: Operation) => op.commit !in refused)
            && after.rejected == w.rejected + Filter(w.queue, (op: Operation) => op.commit in refused)
    ensures var after := Happen(w, DropFor(target));
            && after.queue == Filter(w.queue, (op: Operation) => !(op.kind.AddMember? && op.kind.target == target))
            && after.dropped == w.dropped + Filter(w.queue, (op: Operation) => op.kind.AddMember? && op.kind.target == target)
  {
    var gone: Operation -> bool := op => Refused(op, refused);
    var adds: Operation -> bool := op => AddsMember(op, target);
    FilterSame(w.queue, op => !gone(op), (op: Operation) => op.commit !in refused);
    FilterSame(w.queue, gone, (op: Operation) => op.commit in refused);
    FilterSame(w.queue, op => !adds(op), (op: Operation) => !(op.kind.AddMember? && op.kind.target == target));
    FilterSame(w.queue, adds, (op: Operation) => op.kind.AddMember? && op.kind.target == target);
  }

  lemma {:induction false} MarkShape(queue: seq<Operation>, commits: set<nat>, status: Status)
    ensures |Mark(queue, commits, status)| == |queue|
    ensures forall i :: 0 <= i < |queue| ==>
              Mark(queue, commits, status)[i] == if queue[i].commit in commits then queue[i].(status := status) else queue[i]
  {
    if queue != [] {
      MarkShape(queue[1..], commits, status);
    }
  }

  lemma {:induction false} MarkCounts(queue: seq<Operation>, commits: set<nat>, status: Status, id: nat)
    ensures Count(Mark(queue, commits, status), id) == Count(queue, id)
  {
    if queue != [] {
      MarkCounts(queue[1..], commits, status, id);
      CountAppend([Mark(queue, commits, status)[0]], Mark(queue[1..], commits, status), id);
    }
  }

  lemma {:induction false} SplitCounts(queue: seq<Operation>, gone: Operation -> bool, id: nat)
    ensures Count(queue, id) == Count(Keep(queue, gone), id) + Count(Filter(queue, gone), id)
  {
    if queue != [] {
      var head, tail := queue[0], queue[1..];
      SplitCounts(tail, gone, id);
      CountAppend(if gone(head) then [] else [head], Keep(tail, gone), id);
      CountAppend(if gone(head) then [head] else [], Filter(tail, gone), id);
    }
  }

  // ---------------------------------------------------------------------
  // Whole runs
  // ---------------------------------------------------------------------

  /** The queue of one group, where every other operation went, the coordinator's Welcomes, and the echoes seen. */
  datatype World = World(
    queue: seq<Operation>, finalized: seq<Operation>, rejected: seq<Operation>, dropped: seq<Operation>,
    inbox: seq<Welcome>, echoed: set<nat>)

  datatype Event =
    | Enqueue(op: Operation)
    | Confirm(commits: set<nat>, deliveries: seq<Delivery>)
    | Reject(refused: set<nat>)
    | DropFor(target: Id)
    | DropAll
    | Inbox(step: Step)

  predicate Refused(op: Operation, refused: set<nat>) { op.commit in refused }

  function Happen(w: World, e: Event): World {
    match e
    case Enqueue(op) => w.(queue := w.queue + [op.(status := Awaiting)])
    case Confirm(commits, deliveries) =>
      var p := Finalize(Mark(w.queue, commits, Confirmed), w.inbox, deliveries);
      w.(queue := p.queue, finalized := w.finalized + p.done, inbox := p.inbox, echoed := w.echoed + commits)
    case Reject(refused) =>
      w.(queue := Keep(w.queue, op => Refused(op, refused)),
         rejected := w.rejected + Filter(w.queue, op => Refused(op, refused)))
    case DropFor(target) =>
      w.(queue := Keep(w.queue, op => AddsMember(op, target)),
         dropped := w.dropped + Filter(w.queue, op => AddsMember(op, target)))
    case DropAll => w.(queue := [], dropped := w.dropped + w.queue)
    case Inbox(step) => w.(inbox := Take(Queues(w.inbox, []), step).welcomes)
  }

  function HappenAll(w: World, events: seq<Event>): World {
    if events == [] then w else Happen(HappenAll(w, events[..|events| - 1]), events[|events| - 1])
  }

  function Enqueued(events: seq<Event>, id: nat): nat {
    if events == [] then 0
    else
      var last := events[|events| - 1];
      Enqueued(events[..|events| - 1], id) + (if last.Enqueue? && last.op.id == id then 1 else 0)
  }

  /** How often an operation is found, over all the places it can be in. */
  function Places(w: World, id: nat): nat {
    Count(w.queue, id) + Count(w.finalized, id) + Count(w.rejected, id) + Count(w.dropped, id)
  }

  lemma EventPlaces(w: World, e: Event, id: nat)
    ensures Places(Happen(w, e), id) == Places(w, id) + (if e.Enqueue? && e.op.id == id then 1 else 0)
  {
    hide Finalize, Mark, Count, Take;
    match e {
      case Enqueue(op) =>
        CountAppend(w.queue, [op.(status := Awaiting)], id);
        CountOne(op.(status := Awaiting), id);
      case Confirm(commits, deliveries) =>
        var marked := Mark(w.queue, commits, Confirmed);
        MarkCounts(w.queue, commits, Confirmed, id);
        FinalizeCounts(marked, w.inbox, deliveries, id);
        CountAppend(w.finalized, Finalize(marked, w.inbox, deliveries).done, id);
      case Reject(refused) =>
        SplitCounts(w.queue, op => Refused(op, refused), id);
        CountAppend(w.rejected, Filter(w.queue, op => Refused(op, refused)), id);
      case DropFor(target) =>
        SplitCounts(w.queue, op => AddsMember(op, target), id);
        CountAppend(w.dropped, Filter(w.queue, op => AddsMember(op, target)), id);
      case DropAll =>
        CountAppend(w.dropped, w.queue, id);
        CountNone(id);
      case Inbox(_) =>
    }
  }

  lemma CountOne(op: Operation, id: nat)
    ensures Count([op], id) == if op.id == id then 1 else 0
  {
  }

  lemma CountNone(id: nat)
    ensures Count([], id) == 0
  {
  }

  /** None is confirmed or finalized without its echo, and no two pending Welcomes say the same. */
  ghost predicate Careful(w: World) {
    && (forall op | op in w.queue && op.status.Confirmed? :: op.commit in w.echoed)
    && (forall op | op in w.finalized :: op.commit in w.echoed)
    && Told(w.inbox)
  }

  lemma ConfirmIsCareful(w: World, commits: set<nat>, deliveries: seq<Delivery>)
    requires Careful(w)
    ensures Careful(Happen(w, Confirm(commits, deliveries)))
  {
    var marked := Mark(w.queue, commits, Confirmed);
    MarkShape(w.queue, commits, Confirmed);
    forall op | op in marked && op.status.Confirmed?
      ensures op.commit in w.echoed + commits
    {
      var i :| 0 <= i < |marked| && marked[i] == op;
      assert w.queue[i] in w.queue;
    }
    hide Finalize, Mark, Told;
    FinalizeOnlyConfirmed(marked, w.inbox, deliveries);
    FinalizeStaysTold(marked, w.inbox, deliveries, Operation(0, 0, AddMember(0, 0, 0, None), Awaiting));
  }

  lemma KeptAreQueued(queue: seq<Operation>, gone: Operation -> bool)
    ensures forall op | op in Keep(queue, gone) :: op in queue
  {
    forall op | op in Keep(queue, gone)
      ensures op in queue
    {
      FilterIn(queue, x => !gone(x), op);
    }
  }

  lemma EventIsCareful(w: World, e: Event)
    requires Careful(w)
    ensures Careful(Happen(w, e))
  {
    hide Finalize, Mark, Told, Take, Keep;
    match e {
      case Enqueue(op) =>
      case Confirm(commits, deliveries) => ConfirmIsCareful(w, commits, deliveries);
      case Reject(refused) => KeptAreQueued(w.queue, op => Refused(op, refused));
      case DropFor(target) => KeptAreQueued(w.queue, op => AddsMember(op, target));
      case DropAll =>
      case Inbox(step) => InboxStaysTold(w.inbox, step);
    }
  }

  lemma InboxStaysTold(inbox: seq<Welcome>, step: Step)
    requires Told(inbox)
    ensures Told(Take(Queues(inbox, []), step).welcomes)
  {
    assert forall g: Id :: RequestsFor([], g) == [];
    TakeKeeps(Queues(inbox, []), step);
  }

  /**
   * Over any run, with any failures and retries: every enqueued operation is in
   * exactly one of queued, finalized, rejected and dropped (ids count how often
   * they were enqueued); none is finalized, so no Welcome goes out, before its
   * echo was seen; and however often a delivery is retried, with its answers
   * lost or not, the coordinator never has two pending Welcomes that say the same.
   */
  lemma {:induction false} OneWelcomePerConfirmedAdd(events: seq<Event>, id: nat)
    ensures var w := HappenAll(World([], [], [], [], [], {}), events);
            Places(w, id) == Enqueued(events, id) && Careful(w)
  {
    if events != [] {
      var front := events[..|events| - 1];
      hide Happen, Careful, Places;
      OneWelcomePerConfirmedAdd(front, id);
      EventPlaces(HappenAll(World([], [], [], [], [], {}), front), events[|events| - 1], id);
      EventIsCareful(HappenAll(World([], [], [], [], [], {}), front), events[|events| - 1]);
    }
  }

  /** After a delivery whose answer was lost the retry finds its Welcome pending: two attempts leave the one Welcome. */
  lemma RetryDeliversOnce(queue: seq<Operation>, inbox: seq<Welcome>, first: Delivery, now: int)
    requires Told(inbox) && |queue| == 1 && queue[0].status.Confirmed? && queue[0].kind.AddMember? && first.Unanswered?
    ensures var failed := Finalize(queue, inbox, [first]);
            var retried := Finalize(failed.queue, failed.inbox, [Answered(now)]);
            && !failed.ok && failed.queue == queue && retried.ok && retried.queue == [] && retried.done == queue
            && Told(retried.inbox) && Delivered(retried.inbox, queue[0])
            && (first.stored ==> retried.inbox == failed.inbox)
  {
    var w := WelcomeOf(queue[0], first.now);
    AddWelcomeKeepsTold(inbox, w);
    var failed := Finalize(queue, inbox, [first]);
    AddWelcomeKeepsTold(failed.inbox, WelcomeOf(queue[0], now));
    DuplicateSaysTheSame(failed.inbox, WelcomeOf(queue[0], now));
    assert queue[1..] == [];
  }

  // ---------------------------------------------------------------------
  // The objects
  // ---------------------------------------------------------------------

  class PendingOperation {
    const id: nat
    const commit: nat
    var kind: Kind
    var status: Status

    constructor (id: nat, commit: nat, kind: Kind)
      ensures View() == Operation(id, commit, kind, Awaiting)
    {
      this.id, this.commit, this.kind, status := id, commit, kind, Awaiting;
    }

    function View(): Operation
      reads this
    {
      Operation(id, commit, kind, status)
    }
  }

  function Views(list: seq<PendingOperation>): seq<Operation>
    reads list
  {
    if list == [] then [] else [list[0].View()] + Views(list[1..])
  }

  ghost predicate Distinct(list: seq<PendingOperation>) {
    list == [] || (list[0] !in list[1..] && Distinct(list[1..]))
  }

  function Others(list: seq<PendingOperation>, operation: PendingOperation): seq<PendingOperation> {
    if list == [] then []
    else (if list[0] == operation then [] else [list[0]]) + Others(list[1..], operation)
  }

  lemma {:induction false} DistinctAt(list: seq<PendingOperation>)
    requires Distinct(list)
    ensures forall i, j :: 0 <= i < j < |list| ==> list[i] != list[j]
  {
    if list != [] {
      DistinctAt(list[1..]);
      assert forall i :: 0 < i < |list| ==> list[i] == list[1..][i - 1];
    }
  }

  lemma {:induction false} DistinctAppend(list: seq<PendingOperation>, operation: PendingOperation)
    requires Distinct(list) && operation !in list
    ensures Distinct(list + [operation])
  {
    if list != [] {
      DistinctAppend(list[1..], operation);
      assert (list + [operation])[1..] == list[1..] + [operation];
    }
  }

  lemma {:induction false} ViewsAt(list: seq<PendingOperation>)
    ensures |Views(list)| == |list| && forall i :: 0 <= i < |list| ==> Views(list)[i] == list[i].View()
  {
    if list != [] {
      ViewsAt(list[1..]);
    }
  }

  lemma ViewsAre(list: seq<PendingOperation>, ops: seq<Operation>)
    requires |list| == |ops| && forall i :: 0 <= i < |list| ==> list[i].View() == ops[i]
    ensures Views(list) == ops
  {
    ViewsAt(list);
  }

  /** The whole pass ends as `rest` does, after `kept` was left queued and `done` finalized. */
  ghost predicate EndsAs(whole: Progress, kept: seq<Operation>, done: seq<Operation>, rest: Progress) {
    whole == Progress(kept + rest.queue, rest.inbox, done + rest.done, rest.ok)
  }

  lemma EndsAsStep(whole: Progress, kept: seq<Operation>, done: seq<Operation>, op: Operation, rest: Progress)
    ensures EndsAs(whole, kept, done, rest.(queue := [op] + rest.queue)) ==> EndsAs(whole, kept + [op], done, rest)
    ensures EndsAs(whole, kept, done, rest.(done := [op] + rest.done)) ==> EndsAs(whole, kept, done + [op], rest)
  {
    assert kept + ([op] + rest.queue) == (kept + [op]) + rest.queue;
    assert done + ([op] + rest.done) == (done + [op]) + rest.done;
  }

  lemma EndsAsItself(whole: Progress)
    ensures EndsAs(whole, [], [], whole)
  {
    assert [] + whole.queue == whole.queue && [] + whole.done == whole.done;
  }

  lemma EndsHere(whole: Progress, kept: seq<Operation>, done: seq<Operation>, queue: seq<Operation>, inbox: seq<Welcome>)
    requires EndsAs(whole, kept, done, Progress(queue, inbox, [], false))
    ensures whole == Progress(kept + queue, inbox, done, false)
  {
  }

  lemma NothingLeft(inbox: seq<Welcome>, calls: seq<Delivery>)
    ensures Finalize([], inbox, calls) == Progress([], inbox, [], true)
  {
  }

  lemma EndsDone(whole: Progress, kept: seq<Operation>, done: seq<Operation>, inbox: seq<Welcome>)
    requires EndsAs(whole, kept, done, Progress([], inbox, [], true))
    ensures whole == Progress(kept, inbox, done, true)
  {
  }

  /** What a pass does with one operation: leave it, finalize it, or fail on it. */
  datatype Turn = Skip | Finish | Fail

  function TurnOf(op: Operation, calls: seq<Delivery>): Turn {
    if !op.status.Confirmed? then Skip
    else if !op.kind.AddMember? || (calls != [] && calls[0].Answered?) then Finish
    else Fail
  }

  predicate Calls(op: Operation, calls: seq<Delivery>) { op.status.Confirmed? && op.kind.AddMember? && calls != [] }

  function InboxAfter(op: Operation, inbox: seq<Welcome>, calls: seq<Delivery>): seq<Welcome> {
    if Calls(op, calls) && (calls[0].Answered? || calls[0].stored)
    then AddWelcome(inbox, WelcomeOf(op, calls[0].now)).0 else inbox
  }

  function CallsAfter(op: Operation, calls: seq<Delivery>): seq<Delivery> {
    if Calls(op, calls) then calls[1..] else calls
  }

  /** A pass over one operation, and what is left of it. */
  lemma FinalizeHead(head: Operation, rest: seq<Operation>, inbox: seq<Welcome>, calls: seq<Delivery>)
    ensures var p := Finalize([head] + rest, inbox, calls);
            var r := Finalize(rest, InboxAfter(head, inbox, calls), CallsAfter(head, calls));
            p == match TurnOf(head, calls)
                 case Skip => r.(queue := [head] + r.queue)
                 case Finish => r.(done := [head] + r.done)
                 case Fail => Progress([head] + rest, InboxAfter(head, inbox, calls), [], false)
  {
    assert ([head] + rest)[1..] == rest;
  }

  class PendingTable {
    var byAlias: map<Alias, seq<PendingOperation>>

    constructor ()
      ensures byAlias == map[]
    {
      byAlias := map[];
    }

    function Queue(alias: Alias): seq<PendingOperation>
      reads this
    {
      if alias in byAlias then byAlias[alias] else []
    }

    /** The table with another queue for one alias; an empty one is not kept. */
    method SetQueue(alias: Alias, list: seq<PendingOperation>)
      modifies this
      ensures Queue(alias) == list
      ensures forall other | other != alias :: Queue(other) == old(Queue(other))
    {
      byAlias := if |list| == 0 then byAlias - {alias} else byAlias[alias := list];
    }

    method Enqueue(alias: Alias, operation: PendingOperation)
      requires Distinct(Queue(alias)) && operation !in Queue(alias)
      modifies this
      ensures Queue(alias) == old(Queue(alias)) + [operation] && Distinct(Queue(alias))
      ensures forall other | other != alias :: Queue(other) == old(Queue(other))
    {
      DistinctAppend(Queue(alias), operation);
      byAlias := byAlias[alias := Queue(alias) + [operation]];
    }

    method Get(alias: Alias, commit: nat) returns (found: Option<PendingOperation>)
      ensures found.None? <==> forall operation | operation in Queue(alias) :: operation.commit != commit
      ensures found.Some? ==> exists i :: 0 <= i < |Queue(alias)| && Queue(alias)[i] == found.value
                                          && found.value.commit == commit
                                          && forall j :: 0 <= j < i ==> Queue(alias)[j].commit != commit
    {
      var list := Queue(alias);
      var i := 0;
      while i < |list|
        invariant 0 <= i <= |list|
        invariant forall j :: 0 <= j < i ==> list[j].commit != commit
      {
        if list[i].commit == commit {
          return Some(list[i]);
        }
        i := i + 1;
      }
      return None;
    }

    /** Set the status of every operation whose Commit is named. */
    method MarkAll(list: seq<PendingOperation>, commits: set<nat>, status: Status)
      requires Distinct(list)
      modifies list
      ensures Views(list) == Mark(old(Views(list)), commits, status)
    {
      DistinctAt(list);
      ViewsAt(list);
      MarkShape(Views(list), commits, status);
      hide Distinct, Views, Mark;
      var i := 0;
      while i < |list|
        invariant 0 <= i <= |list|
        invariant forall j :: 0 <= j < i ==> list[j].View() == Mark(old(Views(list)), commits, status)[j]
        invariant forall j :: i <= j < |list| ==> list[j].View() == old(list[j].View())
      {
        if list[i].commit in commits {
          list[i].status := status;
        }
        i := i + 1;
      }
      ViewsAre(list, Mark(old(Views(list)), commits, status));
    }

    /** Confirm the operations whose echo came, then finalize confirmed ones in order until a store call fails. */
    method ConfirmOperations(alias: Alias, commits: set<nat>, inbox: Acks.Inbox, deliveries: seq<Delivery>)
      returns (finalized: nat, ok: bool)
      requires Distinct(Queue(alias))
      modifies this, Queue(alias), inbox`welcomes
      ensures Distinct(Queue(alias))
      ensures var p := Finalize(Mark(old(Views(Queue(alias))), commits, Confirmed), old(inbox.welcomes), deliveries);
              Views(Queue(alias)) == p.queue && inbox.welcomes == p.inbox && ok == p.ok && finalized == |p.done|
      ensures forall other | other != alias :: Queue(other) == old(Queue(other))
    {
      var pending := Queue(alias);
      MarkAll(pending, commits, Confirmed);
      finalized, ok := FinalizeConfirmed(alias, inbox, deliveries);
    }

    /** Take one finalized operation out of the queue. */
    method Unqueue(alias: Alias, operation: PendingOperation, ghost kept: seq<PendingOperation>, ghost rest: seq<PendingOperation>)
      requires Queue(alias) == kept + ([operation] + rest) && Distinct(Queue(alias))
      modifies this
      ensures Queue(alias) == kept + rest && Distinct(Queue(alias))
      ensures forall other | other != alias :: Queue(other) == old(Queue(other))
    {
      RemoveOne(kept, operation, rest);
      hide Distinct;
      SetQueue(alias, Others(Queue(alias), operation));
    }

    /** The queue in the middle of a pass: the operations left queued so far, then those still ahead. */
    ghost predicate Midway(
      alias: Alias, kept: seq<PendingOperation>, left: seq<Operation>, rest: seq<PendingOperation>, ahead: seq<Operation>)
      reads this, kept, rest
    {
      Queue(alias) == kept + rest && Distinct(Queue(alias)) && Views(kept) == left && Views(rest) == ahead
    }

    /** One operation of a pass: a confirmed added member's Welcome is stored, a finalized operation leaves the queue. */
    method TakeTurn(
      alias: Alias, operation: PendingOperation, ghost kept: seq<PendingOperation>, ghost left: seq<Operation>,
      ghost rest: seq<PendingOperation>, ghost ahead: seq<Operation>, inbox: Acks.Inbox, calls: seq<Delivery>)
      returns (turn: Turn, later: seq<Delivery>)
      requires Midway(alias, kept, left, [operation] + rest, ahead) && ahead != []
      modifies this, inbox`welcomes
      ensures turn == TurnOf(ahead[0], calls) && later == CallsAfter(ahead[0], calls)
      ensures inbox.welcomes == InboxAfter(ahead[0], old(inbox.welcomes), calls)
      ensures turn.Skip? ==> Midway(alias, kept + [operation], left + [ahead[0]], rest, ahead[1..])
      ensures turn.Finish? ==> Midway(alias, kept, left, rest, ahead[1..])
      ensures turn.Fail? ==> Midway(alias, kept, left, [operation] + rest, ahead)
      ensures forall other | other != alias :: Queue(other) == old(Queue(other))
    {
      ViewsCons(operation, rest);
      hide Distinct;
      if operation.status != Confirmed {
        ViewsGrow(kept, operation);
        assert kept + ([operation] + rest) == (kept + [operation]) + rest;
        return Skip, calls;
      }
      hide Views;
      later := calls;
      if operation.kind.AddMember? {
        if calls == [] {
          return Fail, [];
        }
        later := calls[1..];
        if calls[0].Answered? || calls[0].stored {
          var _ := inbox.StoreWelcome(operation.kind.target, operation.kind.ref, operation.kind.bytes,
                                      operation.kind.joinAfter, calls[0].now);
        }
        if calls[0].Unanswered? {
          return Fail, later;
        }
      }
      Unqueue(alias, operation, kept, rest);
      turn := Finish;
    }

    lemma PassBegins(alias: Alias)
      requires Distinct(Queue(alias))
      ensures Midway(alias, [], [], Queue(alias), Views(Queue(alias)))
    {
      assert [] + Queue(alias) == Queue(alias);
    }

    lemma PassStops(
      alias: Alias, kept: seq<PendingOperation>, left: seq<Operation>, rest: seq<PendingOperation>, ahead: seq<Operation>)
      requires Midway(alias, kept, left, rest, ahead)
      ensures Distinct(Queue(alias)) && Views(Queue(alias)) == left + ahead
    {
      ViewsAppend(kept, rest);
    }

    method FinalizeConfirmed(alias: Alias, inbox: Acks.Inbox, deliveries: seq<Delivery>) returns (finalized: nat, ok: bool)
      requires Distinct(Queue(alias))
      modifies this, inbox`welcomes
      ensures Distinct(Queue(alias))
      ensures var p := Finalize(old(Views(Queue(alias))), old(inbox.welcomes), deliveries);
              Views(Queue(alias)) == p.queue && inbox.welcomes == p.inbox && ok == p.ok && finalized == |p.done|
      ensures forall other | other != alias :: Queue(other) == old(Queue(other))
    {
      var copy, calls := Queue(alias), deliveries;
      ViewsAt(copy);
      hide Distinct, Finalize, InboxAfter, CallsAfter, TurnOf, Views, EndsAs, Midway;
      ghost var kept: seq<PendingOperation>, left: seq<Operation>, done: seq<Operation> := [], [], [];
      ghost var ahead := Views(copy);
      ghost var whole := Finalize(ahead, inbox.welcomes, deliveries);
      finalized := 0;
      EndsAsItself(whole);
      PassBegins(alias);
      while copy != []
        invariant |copy| == |ahead| && Midway(alias, kept, left, copy, ahead)
        invariant EndsAs(whole, left, done, Finalize(ahead, inbox.welcomes, calls))
        invariant finalized == |done|
        invariant forall other | other != alias :: Queue(other) == old(Queue(other))
        decreases |copy|
      {
        assert copy == [copy[0]] + copy[1..] && ahead == [ahead[0]] + ahead[1..];
        FinalizeHead(ahead[0], ahead[1..], inbox.welcomes, calls);
        var turn, later := TakeTurn(alias, copy[0], kept, left, copy[1..], ahead, inbox, calls);
        if turn.Fail? {
          EndsHere(whole, left, done, ahead, inbox.welcomes);
          PassStops(alias, kept, left, copy, ahead);
          return finalized, false;
        }
        calls := later;
        EndsAsStep(whole, left, done, ahead[0], Finalize(ahead[1..], inbox.welcomes, calls));
        if turn.Finish? {
          done := done + [ahead[0]];
          finalized := finalized + 1;
        } else {
          kept, left := kept + [copy[0]], left + [ahead[0]];
        }
        copy, ahead := copy[1..], ahead[1..];
      }
      PassStops(alias, kept, left, copy, ahead);
      NothingLeft(inbox.welcomes, calls);
      EndsDone(whole, left, done, inbox.welcomes);
      assert left + ahead == left;
      return finalized, true;
    }

    /** Take the operations whose Commit was rejected out of the queue. */
    method RejectOperations(alias: Alias, commits: set<nat>)
      modifies this, Queue(alias)
      ensures Views(Queue(alias)) == Keep(old(Views(Queue(alias))), op => Refused(op, commits))
      ensures forall other | other != alias :: Queue(other) == old(Queue(other))
      ensures forall operation | operation in old(Queue(alias)) && operation.commit in commits :: operation.status == Rejected
    {
      var pending := Queue(alias);
      ghost var views := Views(pending);
      ViewsAt(pending);
      hide Views;
      var remaining, left := KeepOthers(pending, views, commits);
      MarkRejected(pending, commits);
      ViewsAre(remaining, left);
      SetQueue(alias, remaining);
    }

    method KeepOthers(pending: seq<PendingOperation>, ghost views: seq<Operation>, commits: set<nat>)
      returns (remaining: seq<PendingOperation>, ghost left: seq<Operation>)
      requires |pending| == |views| && forall j :: 0 <= j < |pending| ==> pending[j].View() == views[j]
      ensures left == Keep(views, op => Refused(op, commits)) && |remaining| == |left|
      ensures forall j :: 0 <= j < |remaining| ==>
                remaining[j].View() == left[j] && remaining[j] in pending && remaining[j].commit !in commits
    {
      remaining, left := [], [];
      ghost var gone := op => Refused(op, commits);
      var i := 0;
      assert views[0..] == views && left + Keep(views, gone) == Keep(views, gone);
      while i < |pending|
        invariant 0 <= i <= |pending| && |remaining| == |left|
        invariant Keep(views, gone) == left + Keep(views[i..], gone)
        invariant forall j :: 0 <= j < |remaining| ==>
                    remaining[j].View() == left[j] && remaining[j] in pending && remaining[j].commit !in commits
      {
        KeepHead(views[i], views[i + 1..], gone, left);
        assert views[i..] == [views[i]] + views[i + 1..];
        if pending[i].commit !in commits {
          remaining := remaining + [pending[i]];
          left := left + [views[i]];
        }
        i := i + 1;
      }
    }

    /** Set the status of the operations whose Commit was rejected. */
    method MarkRejected(pending: seq<PendingOperation>, commits: set<nat>)
      modifies pending
      ensures forall operation | operation in pending :: operation.kind == old(operation.kind)
      ensures forall operation | operation in pending ::
                operation.status == if operation.commit in commits then Rejected else old(operation.status)
    {
      var i := 0;
      while i < |pending|
        invariant 0 <= i <= |pending|
        invariant forall operation | operation in pending :: operation.kind == old(operation.kind)
        invariant forall operation | operation in pending :: operation.status == old(operation.status)
                    || (operation.commit in commits && operation.status == Rejected)
        invariant forall j :: 0 <= j < i && pending[j].commit in commits ==> pending[j].status == Rejected
      {
        if pending[i].commit in commits {
          pending[i].status := Rejected;
        }
        i := i + 1;
      }
    }

    /** A member who is removed again before the echo came must not get the Welcome. */
    method DropPendingAddMemberForTarget(alias: Alias, target: Id)
      modifies this
      ensures Views(Queue(alias)) == Keep(old(Views(Queue(alias))), op => AddsMember(op, target))
      ensures forall other | other != alias :: Queue(other) == old(Queue(other))
    {
      var pending := Queue(alias);
      ghost var views := Views(pending);
      ViewsAt(pending);
      hide Views;
      var remaining: seq<PendingOperation> := [];
      ghost var left: seq<Operation> := [];
      ghost var gone := op => AddsMember(op, target);
      var i := 0;
      assert views[0..] == views && left + Keep(views, gone) == Keep(views, gone);
      while i < |pending|
        invariant 0 <= i <= |pending| && |remaining| == |left|
        invariant forall other :: Queue(other) == old(Queue(other))
        invariant Keep(views, gone) == left + Keep(views[i..], gone)
        invariant forall j :: 0 <= j < |remaining| ==> remaining[j].View() == left[j]
      {
        KeepHead(views[i], views[i + 1..], gone, left);
        assert views[i..] == [views[i]] + views[i + 1..];
        if !(pending[i].kind.AddMember? && pending[i].kind.target == target) {
          remaining := remaining + [pending[i]];
          left := left + [views[i]];
        }
        i := i + 1;
      }
      ViewsAre(remaining, left);
      SetQueue(alias, remaining);
    }
  }

  lemma KeepHead(head: Operation, rest: seq<Operation>, gone: Operation -> bool, before: seq<Operation>)
    ensures before + Keep([head] + rest, gone) == (if gone(head) then before else before + [head]) + Keep(rest, gone)
  {
    assert ([head] + rest)[1..] == rest;
  }

  lemma {:induction false} RemoveOne(kept: seq<PendingOperation>, operation: PendingOperation, rest: seq<PendingOperation>)
    requires Distinct(kept + ([operation] + rest))
    ensures Others(kept + ([operation] + rest), operation) == kept + rest && Distinct(kept + rest)
  {
    var all := kept + ([operation] + rest);
    if kept == [] {
      assert all == [operation] + rest && all[1..] == rest && kept + rest == rest;
      NoneToRemove(rest, operation);
    } else {
      assert all[0] == kept[0] && all[1..] == kept[1..] + ([operation] + rest);
      RemoveOne(kept[1..], operation, rest);
      assert operation in all[1..];
      assert forall x | x in kept[1..] + rest :: x in all[1..];
      assert kept + rest == [kept[0]] + (kept[1..] + rest);
      assert (kept + rest)[1..] == kept[1..] + rest;
    }
  }

  lemma {:induction false} NoneToRemove(list: seq<PendingOperation>, operation: PendingOperation)
    requires operation !in list
    ensures Others(list, operation) == list
  {
    if list != [] {
      NoneToRemove(list[1..], operation);
    }
  }

  lemma ViewsCons(operation: PendingOperation, rest: seq<PendingOperation>)
    ensures Views([operation] + rest) == [operation.View()] + Views(rest)
  {
    assert ([operation] + rest)[1..] == rest;
  }

  lemma {:induction false} ViewsAppend(a: seq<PendingOperation>, b: seq<PendingOperation>)
    ensures Views(a + b) == Views(a) + Views(b)
  {
    if a == [] {
      assert a + b == b;
    } else {
      assert (a + b)[0] == a[0] && (a + b)[1..] == a[1..] + b;
      ViewsAppend(a[1..], b);
    }
  }

  lemma ViewsGrow(kept: seq<PendingOperation>, operation: PendingOperation)
    ensures Views(kept + [operation]) == Views(kept) + [operation.View()]
  {
    ViewsAppend(kept, [operation]);
  }
}
