/**
 * The own Commits a group waits for, as message ingestion sees them, are the
 * pending operations seen without what they will deliver: settling a batch does
 * the same to both.
 */
module PendingLink {
  import opened Base
  import Acks
  import GroupSync
  import opened PendingOperations
  import Storage

  /** The same Commits in the same order, the same of them confirmed. */
  ghost predicate SameQueue(queue: seq<Operation>, pending: seq<GroupSync.PendingCommit>) {
    && |queue| == |pending|
    && forall i | 0 <= i < |queue| ::
         queue[i].commit == pending[i].commit && (queue[i].status.Confirmed? <==> pending[i].confirmed)
  }

  lemma SameTail(queue: seq<Operation>, pending: seq<GroupSync.PendingCommit>)
    requires SameQueue(queue, pending) && queue != []
    ensures SameQueue([queue[0]], [pending[0]]) && SameQueue(queue[1..], pending[1..])
  {
  }

  lemma SameJoined(a: seq<Operation>, b: seq<Operation>, p: seq<GroupSync.PendingCommit>, q: seq<GroupSync.PendingCommit>)
    requires SameQueue(a, p) && SameQueue(b, q)
    ensures SameQueue(a + b, p + q)
  {
  }

  lemma {:induction false} MarkingIsSame(queue: seq<Operation>, pending: seq<GroupSync.PendingCommit>, commits: set<nat>)
    requires SameQueue(queue, pending)
    ensures SameQueue(Mark(queue, commits, Confirmed), GroupSync.MarkConfirmed(pending, commits))
  {
    if queue != [] {
      SameTail(queue, pending);
      MarkingIsSame(queue[1..], pending[1..], commits);
      SameJoined([Mark(queue, commits, Confirmed)[0]], Mark(queue[1..], commits, Confirmed),
                 [GroupSync.MarkConfirmed(pending, commits)[0]], GroupSync.MarkConfirmed(pending[1..], commits));
    }
  }

  /** A pass that finalizes some operations is ingestion's pass with that many successes. */
  lemma {:induction false} FinalizingIsSame(
    queue: seq<Operation>, pending: seq<GroupSync.PendingCommit>, inbox: seq<Storage.Welcome>, deliveries: seq<Delivery>)
    requires SameQueue(queue, pending)
    ensures var p := Finalize(queue, inbox, deliveries);
            var (left, ok) := GroupSync.FinalizeConfirmed(pending, |p.done|);
            ok == p.ok && SameQueue(p.queue, left)
    decreases queue
  {
    if queue != [] {
      SameTail(queue, pending);
      var head, tail := queue[0], queue[1..];
      hide SameQueue, Acks.AddWelcome;
      assert head.status.Confirmed? <==> pending[0].confirmed;
      if !head.status.Confirmed? {
        FinalizingIsSame(tail, pending[1..], inbox, deliveries);
        var p := Finalize(tail, inbox, deliveries);
        SameJoined([head], p.queue, [pending[0]], GroupSync.FinalizeConfirmed(pending[1..], |p.done|).0);
      } else if !head.kind.AddMember? {
        FinalizingIsSame(tail, pending[1..], inbox, deliveries);
      } else if deliveries != [] && deliveries[0].Answered? {
        var after := Acks.AddWelcome(inbox, WelcomeOf(head, deliveries[0].now)).0;
        FinalizingIsSame(tail, pending[1..], after, deliveries[1..]);
      }
    }
  }

  lemma {:induction false} FilteringIsSame(
    queue: seq<Operation>, pending: seq<GroupSync.PendingCommit>, refused: set<nat>, keep: Operation -> bool)
    requires SameQueue(queue, pending) && forall op :: keep(op) <==> op.commit !in refused
    ensures SameQueue(Filter(queue, keep), GroupSync.DropRejected(pending, refused))
  {
    if queue != [] {
      SameTail(queue, pending);
      FilteringIsSame(queue[1..], pending[1..], refused, keep);
      if keep(queue[0]) {
        SameJoined([queue[0]], Filter(queue[1..], keep), [pending[0]], GroupSync.DropRejected(pending[1..], refused));
      }
    }
  }

  /**
   * The end of a batch: marking, finalizing and, if that got through, dropping
   * the refused leaves the same Commits waiting in both, for every outcome of
   * the Welcome deliveries.
   */
  lemma SettlingIsSame(
    queue: seq<Operation>, b: GroupSync.Batch, inbox: seq<Storage.Welcome>, deliveries: seq<Delivery>)
    requires b.completed && SameQueue(queue, b.group.pending)
    ensures var p := Finalize(Mark(queue, GroupSync.AllConfirms(b.handled), Confirmed), inbox, deliveries);
            var (g, ok) := GroupSync.Settle(b, |p.done|);
            && ok == p.ok
            && SameQueue(if p.ok then Keep(p.queue, op => Refused(op, GroupSync.AllRejects(b.handled))) else p.queue, g.pending)
  {
    var confirms, refused := GroupSync.AllConfirms(b.handled), GroupSync.AllRejects(b.handled);
    var marked, waiting := Mark(queue, confirms, Confirmed), GroupSync.MarkConfirmed(b.group.pending, confirms);
    MarkingIsSame(queue, b.group.pending, confirms);
    FinalizingIsSame(marked, waiting, inbox, deliveries);
    var p := Finalize(marked, inbox, deliveries);
    var gone: Operation -> bool := op => Refused(op, refused);
    FilteringIsSame(p.queue, GroupSync.FinalizeConfirmed(waiting, |p.done|).0, refused, op => !gone(op));
    hide SameQueue, Mark, Finalize, GroupSync.MarkConfirmed, GroupSync.FinalizeConfirmed, GroupSync.DropRejected;
  }
}
