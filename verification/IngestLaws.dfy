/**
 * Ingestion read field by field: when an entry takes this member out of the
 * group, what joins its history, what is complained about, which own Commits
 * are confirmed or rejected - over whole batches, and what a group that has been
 * taken out still does.
 */
module IngestLaws {
  import opened Base
  import opened Mls
  import opened GroupSync
  import opened Documents
  import opened Forks
  import opened ClientRuns

  // ---------------------------------------------------------------------
  // What an entry says
  // ---------------------------------------------------------------------

  /** The MLS message an entry stands for: the own Commit that was posted as it, or what its seal opens to. */
  function MessageIn(mls: Mls, g: Group, r: Record): Option<Opaque> {
    var posted := FindPosted(g.pending, r.wire);
    if posted.Some? then posted else mls.open(g.state, r.wire)
  }

  predicate Queued(g: Group, o: Opaque) { exists p :: p in g.pending && p.commit == o }

  /** The first queued Commit with these bytes is already part of the local state. */
  predicate InState(g: Group, o: Opaque) {
    exists i :: 0 <= i < |g.pending| && g.pending[i].commit == o && g.pending[i].applied
      && forall j :: 0 <= j < i ==> g.pending[j].commit != o
  }

  /** What processing the entry gives, if it is processed: own echoes and own messages are not. */
  function Heard(mls: Mls, g: Group, r: Record): Option<Outcome> {
    var o := MessageIn(mls, g, r);
    if o.None? || InState(g, o.value) || OutboundAt(g.messages, r.cursor) then None
    else Some(mls.process(g.state, o.value))
  }

  predicate HearsQueued(mls: Mls, g: Group, r: Record) {
    MessageIn(mls, g, r).Some? && Queued(g, MessageIn(mls, g, r).value)
  }

  /** The Commit of a device that shares this member's leaf. */
  predicate FromOwnLeaf(g: Group, leaf: Option<nat>) { leaf.Some? && leaf == g.state.ownLeaf }

  /**
   * The entry takes this member out: it leaves a state that is removed, or - for
   * a state change - one that has lost the own leaf, or it is a removal-like
   * error that is neither an own Commit nor from the own leaf.
   */
  predicate TakesOut(mls: Mls, g: Group, r: Record) {
    match Heard(mls, g, r)
    case Some(NewState(t)) => t.removed || t.ownLeaf.None?
    case Some(Application(t, _, _)) => t.removed
    case Some(RemovedLike(leaf)) => !HearsQueued(mls, g, r) && !FromOwnLeaf(g, leaf)
    case _ => false
  }

  /** What the entry adds to the history: a readable event whose author is its authenticated sender. */
  function Delivers(mls: Mls, g: Group, r: Record): seq<Message> {
    match Heard(mls, g, r)
    case Some(Application(t, Some(sender), Some(event))) =>
      if !t.removed && event.author == sender then [Message(r.cursor, r.at, false, sender, event.id)] else []
    case _ => []
  }

  /** What the entry adds to the complaints. An own Commit that met a later epoch or a removal was accepted. */
  function Complains(mls: Mls, g: Group, r: Record): seq<Issue> {
    match Heard(mls, g, r)
    case Some(FormerEpoch) => if HearsQueued(mls, g, r) then [] else [Issue(r.cursor, FormerEpochDetail)]
    case Some(StaleGeneration) => [Issue(r.cursor, StaleGenerationDetail)]
    case Some(UndecryptableStale) => [Issue(r.cursor, UndecryptableDetail)]
    case Some(RejectedByPolicy) => [Issue(r.cursor, UnauthorizedDetail)]
    case _ => []
  }

  predicate PassesSibling(mls: Mls, g: Group, r: Record) {
    match Heard(mls, g, r)
    case Some(RemovedLike(leaf)) => !HearsQueued(mls, g, r) && FromOwnLeaf(g, leaf)
    case _ => false
  }

  /** The entry is a queued own Commit that takes effect here. */
  predicate TakesEffect(mls: Mls, g: Group, r: Record) {
    HearsQueued(mls, g, r) &&
    match Heard(mls, g, r)
    case Some(NewState(_)) => true
    case Some(FormerEpoch) => true
    case Some(RemovedLike(_)) => true
    case _ => false
  }

  /** The own Commits an entry confirms: one that is in the local state already, or takes effect now. */
  function Confirmed(mls: Mls, g: Group, r: Record): set<Opaque> {
    var o := MessageIn(mls, g, r);
    if o.Some? && (InState(g, o.value) || TakesEffect(mls, g, r)) then {o.value} else {}
  }

  /** The own Commits an entry rejects: refused by policy, or no longer decryptable. */
  function Rejected(mls: Mls, g: Group, r: Record): set<Opaque> {
    if !HearsQueued(mls, g, r) then {}
    else
      match Heard(mls, g, r)
      case Some(StaleGeneration) => {MessageIn(mls, g, r).value}
      case Some(UndecryptableStale) => {MessageIn(mls, g, r).value}
      case Some(RejectedByPolicy) => {MessageIn(mls, g, r).value}
      case _ => {}
  }

  function StateAfter(mls: Mls, g: Group, r: Record): ClientState {
    match Heard(mls, g, r)
    case Some(NewState(t)) => t
    case Some(Application(t, _, _)) => t
    case _ => g.state
  }

  /** The queue after the entry: the first Commit with these bytes becomes part of the state, the rest stays. */
  ghost predicate QueueAfter(mls: Mls, g: Group, r: Record, after: seq<PendingCommit>) {
    && |after| == |g.pending|
    && forall i :: 0 <= i < |after| ==>
         after[i] == if TakesEffect(mls, g, r) && g.pending[i].commit == MessageIn(mls, g, r).value
                        && (forall j :: 0 <= j < i ==> g.pending[j].commit != g.pending[i].commit)
                     then g.pending[i].(applied := true) else g.pending[i]
  }

  // ---------------------------------------------------------------------
  // One entry
  // ---------------------------------------------------------------------

  /** The group after one entry, field by field. */
  ghost predicate EntryTold(mls: Mls, g: Group, r: Record, after: Group) {
    && after.state == StateAfter(mls, g, r)
    && (after.removed <==> g.removed || TakesOut(mls, g, r))
    && after.removedAt == (if TakesOut(mls, g, r) then Some(r.cursor) else g.removedAt)
    && after.messages == g.messages + Delivers(mls, g, r)
    && after.issues == g.issues + Complains(mls, g, r)
    && after.skippedSibling == (if PassesSibling(mls, g, r) then Some(SkippedSibling(g.state.epoch, r.cursor)) else g.skippedSibling)
    && QueueAfter(mls, g, r, after.pending)
    && after.appliedDocument == g.appliedDocument && after.held == g.held && after.branch == g.branch
    && after.commitPoint == g.commitPoint && after.decision == g.decision
  }

  lemma InStateIsFirst(g: Group, o: Opaque)
    ensures var p := FindPending(g.pending, o);
            && (Queued(g, o) <==> p.Some?)
            && (InState(g, o) <==> p.Some? && p.value < |g.pending| && g.pending[p.value].applied)
            && (p.Some? ==> p.value < |g.pending| && g.pending[p.value].commit == o
                            && forall j :: 0 <= j < p.value ==> g.pending[j].commit != o)
  {
    FindPendingFinds(g.pending, o);
  }

  lemma HeardIsNew(mls: Mls, g: Group, r: Record)
    requires Heard(mls, g, r).Some?
    ensures MessageIn(mls, g, r).Some? && !InState(g, MessageIn(mls, g, r).value) && !OutboundAt(g.messages, r.cursor)
  {
  }

  lemma AppliedQueue(mls: Mls, g: Group, r: Record)
    requires TakesEffect(mls, g, r)
    ensures var o := MessageIn(mls, g, r).value;
            QueueAfter(mls, g, r, MarkApplied(g, FindPending(g.pending, o)).pending)
  {
    InStateIsFirst(g, MessageIn(mls, g, r).value);
    hide Heard, MessageIn;
  }

  /** What one entry must have done, as a step. */
  ghost predicate StepTold(mls: Mls, g: Group, r: Record, s: Step) {
    s.did.Some? ==>
      && EntryTold(mls, g, r, s.group)
      && Confirms(s.did.value) == Confirmed(mls, g, r) && Rejects(s.did.value) == Rejected(mls, g, r)
      && (s.did.value.StoredInbound? <==> Delivers(mls, g, r) != [])
      && (s.did.value.StoredInbound? ==> Delivers(mls, g, r) == [s.did.value.message])
  }

  lemma UnheardIsTold(mls: Mls, g: Group, r: Record)
    requires Heard(mls, g, r).None?
    ensures StepTold(mls, g, r, ReceiveOne(mls, g, r))
  {
    var o := MessageIn(mls, g, r);
    hide Absorb, IngestApplication;
    if o.Some? {
      InStateIsFirst(g, o.value);
    }
    hide InState, Queued;
  }

  lemma FormerIsTold(mls: Mls, g: Group, r: Record, o: Opaque)
    requires MessageIn(mls, g, r) == Some(o) && Heard(mls, g, r) == Some(FormerEpoch)
    ensures StepTold(mls, g, r, Absorb(g, r.cursor, FindPending(g.pending, o), o, FormerEpochDetail, None))
  {
    hide InState, Queued, Heard, MessageIn, QueueAfter, TakesEffect;
    InStateIsFirst(g, o);
    HeardIsNew(mls, g, r);
    QueueIsTold(mls, g, r, Passed(g, r.cursor));
    TakesEffectIff(mls, g, r);
  }

  lemma RemovedLikeIsTold(mls: Mls, g: Group, r: Record, o: Opaque, leaf: Option<nat>)
    requires MessageIn(mls, g, r) == Some(o) && Heard(mls, g, r) == Some(RemovedLike(leaf))
    ensures StepTold(mls, g, r, Absorb(g, r.cursor, FindPending(g.pending, o), o, RemovedLikeDetail, leaf))
  {
    hide InState, Queued, Heard, MessageIn, QueueAfter, TakesEffect;
    InStateIsFirst(g, o);
    HeardIsNew(mls, g, r);
    QueueIsTold(mls, g, r, Passed(g, r.cursor));
    TakesEffectIff(mls, g, r);
  }

  lemma UnreadIsTold(mls: Mls, g: Group, r: Record, o: Opaque, stale: bool)
    requires MessageIn(mls, g, r) == Some(o) && Heard(mls, g, r) == Some(if stale then StaleGeneration else UndecryptableStale)
    ensures StepTold(mls, g, r, Absorb(g, r.cursor, FindPending(g.pending, o), o,
                                       if stale then StaleGenerationDetail else UndecryptableDetail, None))
  {
    hide InState, Queued, Heard, MessageIn, QueueAfter, TakesEffect;
    InStateIsFirst(g, o);
    HeardIsNew(mls, g, r);
    QueueIsTold(mls, g, r, Passed(g, r.cursor));
    TakesEffectIff(mls, g, r);
  }

  lemma TakesEffectIff(mls: Mls, g: Group, r: Record)
    ensures TakesEffect(mls, g, r) <==>
              && HearsQueued(mls, g, r) && Heard(mls, g, r).Some?
              && var out := Heard(mls, g, r).value; out.NewState? || out.FormerEpoch? || out.RemovedLike?
  {
    hide Heard, HearsQueued;
  }

  lemma QueueIsTold(mls: Mls, g: Group, r: Record, moved: Group)
    requires moved.pending == g.pending && MessageIn(mls, g, r).Some?
    ensures TakesEffect(mls, g, r) ==>
              QueueAfter(mls, g, r, MarkApplied(moved, FindPending(g.pending, MessageIn(mls, g, r).value)).pending)
    ensures !TakesEffect(mls, g, r) ==> QueueAfter(mls, g, r, moved.pending)
  {
    if TakesEffect(mls, g, r) {
      AppliedQueue(mls, g, r);
      hide QueueAfter, TakesEffect, MessageIn;
    } else {
      hide TakesEffect, MessageIn;
    }
  }

  lemma NewStateSteps(mls: Mls, g: Group, r: Record, o: Opaque, t: ClientState)
    requires MessageIn(mls, g, r) == Some(o) && Heard(mls, g, r) == Some(NewState(t))
    ensures var p := FindPending(g.pending, o);
            var queue := MarkApplied(Passed(g, r.cursor), p).pending;
            var confirms := if p.Some? then Some(o) else None;
            var out := t.removed || t.ownLeaf.None?;
            ReceiveOne(mls, g, r)
            == Step(g.(state := t, fetchCursor := r.cursor, lastCursor := Max(g.lastCursor, r.cursor), pending := queue,
                       removed := g.removed || out, removedAt := if out then Some(r.cursor) else g.removedAt),
                    Some(if out then Removal(confirms) else StateChange(confirms)))
  {
    InStateIsFirst(g, o);
    hide InState, Queued;
  }

  lemma NewStateIsTold(mls: Mls, g: Group, r: Record, o: Opaque, t: ClientState)
    requires MessageIn(mls, g, r) == Some(o) && Heard(mls, g, r) == Some(NewState(t))
    ensures StepTold(mls, g, r, ReceiveOne(mls, g, r))
  {
    hide InState, Queued, Heard, MessageIn, ReceiveOne, QueueAfter, TakesEffect;
    NewStateSteps(mls, g, r, o, t);
    InStateIsFirst(g, o);
    HeardIsNew(mls, g, r);
    QueueIsTold(mls, g, r, Passed(g, r.cursor));
    TakesEffectIff(mls, g, r);
  }

  lemma ApplicationIsTold(mls: Mls, g: Group, r: Record, t: ClientState, sender: Option<Pubkey>, event: Option<Event>)
    requires Heard(mls, g, r) == Some(Application(t, sender, event))
    ensures StepTold(mls, g, r, IngestApplication(g, r.cursor, r.at, t, sender, event))
  {
    HeardIsNew(mls, g, r);
    hide InState, Queued, Heard, MessageIn;
  }

  lemma HeardSteps(mls: Mls, g: Group, r: Record)
    requires Heard(mls, g, r).Some?
    ensures MessageIn(mls, g, r).Some?
    ensures var o := MessageIn(mls, g, r).value;
            var p := FindPending(g.pending, o);
            var s := ReceiveOne(mls, g, r);
            match Heard(mls, g, r).value
            case FormerEpoch => s == Absorb(g, r.cursor, p, o, FormerEpochDetail, None)
            case StaleGeneration => s == Absorb(g, r.cursor, p, o, StaleGenerationDetail, None)
            case UndecryptableStale => s == Absorb(g, r.cursor, p, o, UndecryptableDetail, None)
            case RemovedLike(leaf) => s == Absorb(g, r.cursor, p, o, RemovedLikeDetail, leaf)
            case Application(t, sender, event) => s == IngestApplication(g, r.cursor, r.at, t, sender, event)
            case _ => true
  {
    InStateIsFirst(g, MessageIn(mls, g, r).value);
    hide Absorb, IngestApplication, InState, Queued;
  }

  /** Reading one entry does to every field of the group what the entry says. */
  lemma EntryIsTold(mls: Mls, g: Group, r: Record)
    ensures StepTold(mls, g, r, ReceiveOne(mls, g, r))
  {
    if Heard(mls, g, r).None? {
      UnheardIsTold(mls, g, r);
    } else {
      HeardSteps(mls, g, r);
      var o := MessageIn(mls, g, r).value;
      match Heard(mls, g, r).value
      case FormerEpoch => FormerIsTold(mls, g, r, o);
      case StaleGeneration => UnreadIsTold(mls, g, r, o, true);
      case UndecryptableStale => UnreadIsTold(mls, g, r, o, false);
      case RemovedLike(leaf) => RemovedLikeIsTold(mls, g, r, o, leaf);
      case Application(t, sender, event) => ApplicationIsTold(mls, g, r, t, sender, event);
      case NewState(t) => NewStateIsTold(mls, g, r, o, t);
      case _ => QuietIsTold(mls, g, r);
    }
    hide *;
  }

  lemma QuietIsTold(mls: Mls, g: Group, r: Record)
    requires Heard(mls, g, r) == Some(RejectedByPolicy) || Heard(mls, g, r) == Some(Other) || Heard(mls, g, r) == Some(Fatal)
    ensures StepTold(mls, g, r, ReceiveOne(mls, g, r))
  {
    InStateIsFirst(g, MessageIn(mls, g, r).value);
    hide Absorb, IngestApplication, InState, Queued;
  }

  // ---------------------------------------------------------------------
  // Batches
  // ---------------------------------------------------------------------

  lemma {:induction false} GroupAtNext(mls: Mls, g: Group, records: seq<Record>, i: nat)
    requires i < |records|
    ensures GroupAt(mls, g, records, i + 1) == ReceiveOne(mls, GroupAt(mls, g, records, i), records[i]).group
    decreases i
  {
    hide ReceiveOne;
    var next := ReceiveOne(mls, g, records[0]).group;
    if i == 0 {
      assert GroupAt(mls, next, records[1..], 0) == next;
    } else {
      GroupAtNext(mls, next, records[1..], i - 1);
      assert records[1..][i - 1] == records[i];
    }
  }

  /** A step at which ingestion throws changes nothing but the state, and takes nobody out. */
  lemma ThrowChangesState(mls: Mls, g: Group, r: Record)
    requires ReceiveOne(mls, g, r).did.None?
    ensures ReceiveOne(mls, g, r).group == g.(state := StateAfter(mls, g, r)) && !TakesOut(mls, g, r)
    ensures StateAfter(mls, g, r).removed ==> g.state.removed
  {
    if MessageIn(mls, g, r).Some? {
      InStateIsFirst(g, MessageIn(mls, g, r).value);
    }
    hide InState, Queued;
  }

  /** Up to which entry a batch got, and that it got there one entry after the other. */
  lemma {:induction false} BatchReaches(mls: Mls, g: Group, records: seq<Record>)
    ensures var b := ReceiveAll(mls, g, records);
            && |b.handled| <= |records| && (b.completed <==> |b.handled| == |records|)
            && (forall i :: 0 <= i < |b.handled| ==>
                  var step := ReceiveOne(mls, GroupAt(mls, g, records, i), records[i]);
                  step.did.Some? && b.handled[i] == Handled(records[i].cursor, step.did.value))
            && (b.completed ==> b.group == GroupAt(mls, g, records, |records|))
            && (!b.completed ==>
                  var step := ReceiveOne(mls, GroupAt(mls, g, records, |b.handled|), records[|b.handled|]);
                  step.did.None? && b.group == step.group)
    decreases records
  {
    hide ReceiveOne;
    if records != [] {
      var step := ReceiveOne(mls, g, records[0]);
      if step.did.Some? {
        BatchReaches(mls, step.group, records[1..]);
        var b, rest := ReceiveAll(mls, g, records), ReceiveAll(mls, step.group, records[1..]);
        forall i: nat | i < |records|
          ensures GroupAt(mls, g, records, i + 1) == GroupAt(mls, step.group, records[1..], i)
        {
        }
        forall i | 0 <= i < |b.handled|
          ensures var step := ReceiveOne(mls, GroupAt(mls, g, records, i), records[i]);
                  step.did.Some? && b.handled[i] == Handled(records[i].cursor, step.did.value)
        {
          if i > 0 {
            assert b.handled[i] == rest.handled[i - 1] && records[i] == records[1..][i - 1];
            assert GroupAt(mls, g, records, i - 1 + 1) == GroupAt(mls, step.group, records[1..], i - 1);
          }
        }
        if b.completed {
          assert GroupAt(mls, g, records, |records| - 1 + 1) == GroupAt(mls, step.group, records[1..], |records| - 1);
        } else {
          assert GroupAt(mls, g, records, |rest.handled| + 1) == GroupAt(mls, step.group, records[1..], |rest.handled|);
          assert records[|b.handled|] == records[1..][|rest.handled|];
        }
      }
    }
  }

  /** How many entries of the batch were handled. */
  function Reached(mls: Mls, g: Group, records: seq<Record>): nat { |ReceiveAll(mls, g, records).handled| }

  /** The entry met by the group as it then was takes this member out. */
  predicate TakesOutAt(mls: Mls, g: Group, records: seq<Record>, i: nat)
    requires i < |records|
  {
    TakesOut(mls, GroupAt(mls, g, records, i), records[i])
  }

  /** What the first `n` entries add to the history, and to the complaints. */
  function DeliveredBy(mls: Mls, g: Group, records: seq<Record>, n: nat): seq<Message>
    requires n <= |records|
  {
    if n == 0 then []
    else DeliveredBy(mls, g, records, n - 1) + Delivers(mls, GroupAt(mls, g, records, n - 1), records[n - 1])
  }

  function ComplaintsOf(mls: Mls, g: Group, records: seq<Record>, n: nat): seq<Issue>
    requires n <= |records|
  {
    if n == 0 then []
    else ComplaintsOf(mls, g, records, n - 1) + Complains(mls, GroupAt(mls, g, records, n - 1), records[n - 1])
  }

  ghost predicate AllTold(mls: Mls, g: Group, records: seq<Record>, n: nat)
    requires n <= |records|
  {
    forall i :: 0 <= i < n ==> EntryTold(mls, GroupAt(mls, g, records, i), records[i], GroupAt(mls, g, records, i + 1))
  }

  /** Every handled entry of a batch does to the group what it says. */
  lemma BatchIsTold(mls: Mls, g: Group, records: seq<Record>)
    ensures Reached(mls, g, records) <= |records| && AllTold(mls, g, records, Reached(mls, g, records))
  {
    BatchReaches(mls, g, records);
    hide ReceiveOne, ReceiveAll, EntryTold;
    forall i: nat | i < Reached(mls, g, records)
      ensures EntryTold(mls, GroupAt(mls, g, records, i), records[i], GroupAt(mls, g, records, i + 1))
    {
      GroupAtNext(mls, g, records, i);
      EntryIsTold(mls, GroupAt(mls, g, records, i), records[i]);
    }
  }

  /** The group when a batch ends is the one its last handled entry left; only the state may have moved on before a throw. */
  lemma BatchEnds(mls: Mls, g: Group, records: seq<Record>)
    ensures Reached(mls, g, records) <= |records|
    ensures var b := ReceiveAll(mls, g, records);
            var last := GroupAt(mls, g, records, Reached(mls, g, records));
            && b.group == last.(state := b.group.state)
            && (b.group.state.removed ==> last.state.removed)
  {
    BatchReaches(mls, g, records);
    var b := ReceiveAll(mls, g, records);
    if !b.completed {
      ThrowChangesState(mls, GroupAt(mls, g, records, |b.handled|), records[|b.handled|]);
    }
    hide ReceiveOne, ReceiveAll;
  }

  /** Some of the first `n` entries takes this member out. */
  predicate SomeOut(mls: Mls, g: Group, records: seq<Record>, n: nat)
    requires n <= |records|
  {
    exists i :: 0 <= i < n && TakesOutAt(mls, g, records, i)
  }

  /** Entry `i` is the last of the first `n` that does. */
  predicate LastOut(mls: Mls, g: Group, records: seq<Record>, n: nat, i: nat)
    requires n <= |records|
  {
    i < n && TakesOutAt(mls, g, records, i) && forall j :: i < j < n ==> !TakesOutAt(mls, g, records, j)
  }

  /** The removal fields when `n` entries have been handled. */
  ghost predicate OutTold(mls: Mls, g: Group, records: seq<Record>, n: nat, after: Group)
    requires n <= |records|
  {
    && (after.removed <==> g.removed || SomeOut(mls, g, records, n))
    && (after.state.removed ==> g.state.removed || SomeOut(mls, g, records, n))
    && (forall i: nat :: LastOut(mls, g, records, n, i) ==> after.removedAt == Some(records[i].cursor))
    && (!SomeOut(mls, g, records, n) ==> after.removedAt == g.removedAt)
  }

  lemma {:induction false} OutAfter(mls: Mls, g: Group, records: seq<Record>, n: nat)
    requires n <= |records| && AllTold(mls, g, records, n)
    ensures OutTold(mls, g, records, n, GroupAt(mls, g, records, n))
  {
    hide GroupAt, TakesOutAt, AllTold, OutTold;
    if n > 0 {
      AllTold1(mls, g, records, n);
      OutAfter(mls, g, records, n - 1);
      OutStep(mls, g, records, n - 1);
      OneMoreOut(mls, g, records, n - 1, GroupAt(mls, g, records, n - 1), GroupAt(mls, g, records, n));
    } else {
      GroupAtStart(mls, g, records);
      NoneOut(mls, g, records);
    }
  }

  lemma AllTold1(mls: Mls, g: Group, records: seq<Record>, n: nat)
    requires 0 < n <= |records| && AllTold(mls, g, records, n)
    ensures AllTold(mls, g, records, n - 1)
  {
    hide EntryTold, GroupAt;
  }

  lemma NoneOut(mls: Mls, g: Group, records: seq<Record>)
    ensures OutTold(mls, g, records, 0, g)
  {
    hide TakesOutAt;
  }

  lemma OneMoreOut(mls: Mls, g: Group, records: seq<Record>, n: nat, before: Group, after: Group)
    requires n < |records| && OutTold(mls, g, records, n, before)
    requires after.removed <==> before.removed || TakesOutAt(mls, g, records, n)
    requires after.removedAt == (if TakesOutAt(mls, g, records, n) then Some(records[n].cursor) else before.removedAt)
    requires after.state.removed ==> before.state.removed || TakesOutAt(mls, g, records, n)
    ensures OutTold(mls, g, records, n + 1, after)
  {
    hide TakesOutAt;
    assert SomeOut(mls, g, records, n + 1) <==> SomeOut(mls, g, records, n) || TakesOutAt(mls, g, records, n);
    forall i: nat | LastOut(mls, g, records, n + 1, i)
      ensures after.removedAt == Some(records[i].cursor)
    {
      if i < n {
        assert LastOut(mls, g, records, n, i);
      }
    }
  }

  lemma GroupAtStart(mls: Mls, g: Group, records: seq<Record>)
    ensures GroupAt(mls, g, records, 0) == g
  {
  }

  lemma OutStep(mls: Mls, g: Group, records: seq<Record>, n: nat)
    requires n < |records| && AllTold(mls, g, records, n + 1)
    ensures var before, after := GroupAt(mls, g, records, n), GroupAt(mls, g, records, n + 1);
            && (after.removed <==> before.removed || TakesOutAt(mls, g, records, n))
            && after.removedAt == (if TakesOutAt(mls, g, records, n) then Some(records[n].cursor) else before.removedAt)
            && (after.state.removed ==> before.state.removed || TakesOutAt(mls, g, records, n))
  {
    hide GroupAt, Heard, HearsQueued, QueueAfter, Delivers, Complains, PassesSibling;
    assert EntryTold(mls, GroupAt(mls, g, records, n), records[n], GroupAt(mls, g, records, n + 1));
  }

  /**
   * After a batch the group is removed if and only if it was before, or some
   * handled entry takes this member out; `removedAt` is the cursor of the last
   * such entry.
   */
  lemma RemovedIffTakenOut(mls: Mls, g: Group, records: seq<Record>)
    ensures Reached(mls, g, records) <= |records|
    ensures var n, b := Reached(mls, g, records), ReceiveAll(mls, g, records);
            && (b.group.removed <==> g.removed || SomeOut(mls, g, records, n))
            && (forall i: nat :: LastOut(mls, g, records, n, i) ==> b.group.removedAt == Some(records[i].cursor))
            && (!SomeOut(mls, g, records, n) ==> b.group.removedAt == g.removedAt)
            && (Active(g) ==> (Active(b.group) <==> !SomeOut(mls, g, records, n)))
  {
    BatchIsTold(mls, g, records);
    BatchEnds(mls, g, records);
    OutAfter(mls, g, records, Reached(mls, g, records));
    hide GroupAt, SomeOut, LastOut, AllTold, ReceiveAll;
  }

  lemma {:induction false} HistoryAfter(mls: Mls, g: Group, records: seq<Record>, n: nat)
    requires n <= |records| && AllTold(mls, g, records, n)
    ensures var last := GroupAt(mls, g, records, n);
            && last.messages == g.messages + DeliveredBy(mls, g, records, n)
            && last.issues == g.issues + ComplaintsOf(mls, g, records, n)
  {
    hide GroupAt, TakesOut, Delivers, Complains, PassesSibling, QueueAfter, StateAfter;
    if n > 0 {
      HistoryAfter(mls, g, records, n - 1);
      assert EntryTold(mls, GroupAt(mls, g, records, n - 1), records[n - 1], GroupAt(mls, g, records, n));
    } else {
      GroupAtStart(mls, g, records);
    }
  }

  /**
   * A batch adds to the history exactly the readable events of its handled
   * entries, and to the complaints exactly what those entries complain of, in order.
   */
  lemma BatchTellsAll(mls: Mls, g: Group, records: seq<Record>)
    ensures Reached(mls, g, records) <= |records|
    ensures var n, b := Reached(mls, g, records), ReceiveAll(mls, g, records);
            && b.group.messages == g.messages + DeliveredBy(mls, g, records, n)
            && b.group.issues == g.issues + ComplaintsOf(mls, g, records, n)
  {
    BatchIsTold(mls, g, records);
    BatchEnds(mls, g, records);
    HistoryAfter(mls, g, records, Reached(mls, g, records));
    hide GroupAt, DeliveredBy, ComplaintsOf, AllTold, ReceiveAll;
  }

  lemma {:induction false} AllConfirmsIn(handled: seq<Handled>, c: Opaque)
    ensures c in AllConfirms(handled) <==> exists i :: 0 <= i < |handled| && c in Confirms(handled[i].did)
    ensures c in AllRejects(handled) <==> exists i :: 0 <= i < |handled| && c in Rejects(handled[i].did)
  {
    if handled != [] {
      AllConfirmsIn(handled[1..], c);
      if exists i :: 0 <= i < |handled[1..]| && c in Confirms(handled[1..][i].did) {
        var i :| 0 <= i < |handled[1..]| && c in Confirms(handled[1..][i].did);
        assert c in Confirms(handled[i + 1].did);
      }
      if exists i :: 0 <= i < |handled[1..]| && c in Rejects(handled[1..][i].did) {
        var i :| 0 <= i < |handled[1..]| && c in Rejects(handled[1..][i].did);
        assert c in Rejects(handled[i + 1].did);
      }
      if exists i :: 0 < i < |handled| && c in Confirms(handled[i].did) {
        var i :| 0 < i < |handled| && c in Confirms(handled[i].did);
        assert c in Confirms(handled[1..][i - 1].did);
      }
      if exists i :: 0 < i < |handled| && c in Rejects(handled[i].did) {
        var i :| 0 < i < |handled| && c in Rejects(handled[i].did);
        assert c in Rejects(handled[1..][i - 1].did);
      }
    }
  }

  /**
   * A batch confirms exactly the own Commits that some handled entry brings back
   * or puts into effect, and rejects exactly those that some handled entry shows
   * to be refused or unreadable.
   */
  lemma BatchSettles(mls: Mls, g: Group, records: seq<Record>, c: Opaque)
    ensures Reached(mls, g, records) <= |records|
    ensures var n, b := Reached(mls, g, records), ReceiveAll(mls, g, records);
            && (c in AllConfirms(b.handled) <==>
                  exists i :: 0 <= i < n && c in Confirmed(mls, GroupAt(mls, g, records, i), records[i]))
            && (c in AllRejects(b.handled) <==>
                  exists i :: 0 <= i < n && c in Rejected(mls, GroupAt(mls, g, records, i), records[i]))
  {
    BatchReaches(mls, g, records);
    var b := ReceiveAll(mls, g, records);
    AllConfirmsIn(b.handled, c);
    hide ReceiveOne, ReceiveAll, GroupAt, EntryTold, Confirmed, Rejected, Confirms, Rejects, AllConfirms, AllRejects;
    forall i: nat | i < |b.handled|
      ensures Confirms(b.handled[i].did) == Confirmed(mls, GroupAt(mls, g, records, i), records[i])
      ensures Rejects(b.handled[i].did) == Rejected(mls, GroupAt(mls, g, records, i), records[i])
    {
      EntryIsTold(mls, GroupAt(mls, g, records, i), records[i]);
    }
  }

  // ---------------------------------------------------------------------
  // What a group that has been taken out still does
  // ---------------------------------------------------------------------

  /** A catch-up lets its operation go on. */
  ghost predicate GoesOn(mls: Mls, w: World, line: Line, budget: nat) {
    && Active(w.group)
    && !line.Unreachable?
    && (line.Reachable? ==>
          var due := FetchAfter(w.log, w.group.fetchCursor);
          && Settle(ReceiveAll(mls, w.group, due), budget).1
          && !SomeOut(mls, w.group, due, |due|))
  }

  lemma GoesOnIff(mls: Mls, w: World, line: Line, budget: nat)
    ensures CatchUp(mls, w, line, budget).1 <==> GoesOn(mls, w, line, budget)
    ensures CatchUp(mls, w, line, budget).0.log == w.log
  {
    var due := FetchAfter(w.log, w.group.fetchCursor);
    RemovedIffTakenOut(mls, w.group, due);
    BatchReaches(mls, w.group, due);
    hide ReceiveAll, ReceiveOne, SomeOut, LastOut, FetchAfter, GroupAt;
  }

  /**
   * A send or a Commit puts its record into the log - right after what others
   * posted meanwhile - if and only if the group is active, its catch-up completes
   * and settles, and no entry of that catch-up takes this member out. Otherwise
   * the log stays as it was.
   */
  lemma PostsIffStillIn(mls: Mls, me: Pubkey, w: World, op: Op)
    requires op.Send? || op.Commit?
    ensures Perform(mls, me, w, op).log
         == if !GoesOn(mls, w, op.line, op.budget) then w.log
            else
              var landed := Landed(w.log, op.meanwhile);
              if op.post.NotStored? then landed else landed + [Record(|landed| + 1, op.at, op.wire)]
  {
    GoesOnIff(mls, w, op.line, op.budget);
    hide CatchUp, GoesOn, Landed, AdoptOwnCommit;
  }

  /** The log when nobody but others posts. */
  function OthersOnly(log: seq<Record>, ops: seq<Op>): seq<Record>
    decreases ops
  {
    if ops == [] then log
    else OthersOnly(if ops[0].OtherPosts? then log + [Record(|log| + 1, ops[0].at, ops[0].wire)] else log, ops[1..])
  }

  /** The operation asks whether the group is active: all do but a post by others and the sync of a watched group. */
  predicate Looks(op: Op) { !op.OtherPosts? && !(op.Sync? && op.line.Watching?) }

  /**
   * A group that is out stays out over every run, and no operation of the run
   * adds to the log; the first one that looks marks the group, and nothing else of it changes.
   */
  lemma {:induction false} OutForGood(mls: Mls, me: Pubkey, w: World, ops: seq<Op>)
    requires !Active(w.group)
    ensures var end := PerformAll(mls, me, w, ops);
            && !Active(end.group) && end.log == OthersOnly(w.log, ops) && end.trace == w.trace
            && end.group == if exists op :: op in ops && Looks(op) then w.group.(removed := true) else w.group
    decreases ops
  {
    if ops != [] {
      var next := Perform(mls, me, w, ops[0]);
      OutLooks(mls, me, w, ops[0]);
      hide Perform, Looks;
      OutForGood(mls, me, next, ops[1..]);
      assert forall op :: op in ops <==> op == ops[0] || op in ops[1..];
      assert (exists op :: op in ops && Looks(op)) <==> Looks(ops[0]) || exists op :: op in ops[1..] && Looks(op);
    }
  }

  lemma OutLooks(mls: Mls, me: Pubkey, w: World, op: Op)
    requires !Active(w.group)
    ensures Perform(mls, me, w, op)
         == if Looks(op) then w.(group := w.group.(removed := true))
            else if op.OtherPosts? then w.(log := w.log + [Record(|w.log| + 1, op.at, op.wire)]) else w
  {
    hide TakeIn, SendTail, CommitTail;
  }

  /** Once an entry has taken this member out, no send and no Commit of any continuation reaches the log. */
  lemma TakenOutPostsNoMore(mls: Mls, me: Pubkey, w: World, records: seq<Record>, budget: nat, i: nat, ops: seq<Op>)
    requires Active(w.group) && i < Reached(mls, w.group, records) && i < |records| && TakesOutAt(mls, w.group, records, i)
    ensures var out := TakeIn(mls, w, records, budget).0; PerformAll(mls, me, out, ops).log == OthersOnly(out.log, ops)
  {
    RemovedIffTakenOut(mls, w.group, records);
    hide ReceiveAll, TakesOutAt, PerformAll, OthersOnly;
    OutForGood(mls, me, TakeIn(mls, w, records, budget).0, ops);
  }

  // ---------------------------------------------------------------------
  // What a sync or a stream takes in
  // ---------------------------------------------------------------------

  /** What the client has not passed yet; a stream hands over at most `count` of it. */
  function Due(w: World, op: Op): seq<Record> {
    var unread := if w.group.fetchCursor <= |w.log| then w.log[w.group.fetchCursor..] else [];
    if op.Stream? && op.count < |unread| then unread[..op.count] else unread
  }

  /**
   * An active group's sync with a reachable coordinator takes in everything it has
   * not passed, and a stream the next entries; the frontier gets past all of it
   * if and only if no entry offends under the state it meets.
   */
  lemma TakesInWhatIsDue(mls: Mls, me: Pubkey, start: Group, w: World, op: Op)
    requires NeverGoesBack(mls) && Accounted(start, w) && Active(w.group)
    requires op.Stream? || (op.Sync? && op.line.Reachable?)
    ensures var next, due := Perform(mls, me, w, op), Due(w, op);
            && next.log == w.log && next.trace == w.trace + ReceiveAll(mls, w.group, due).handled
            && (next.group.fetchCursor == w.group.fetchCursor + |due| <==>
                  forall i: nat :: i < |due| ==> !Offends(mls, GroupAt(mls, w.group, due, i), due[i]))
  {
    var due := Due(w, op);
    FetchIsContiguous(w.log, w.group.fetchCursor, if op.Stream? then op.count else 0);
    TakenIsDue(mls, me, w, op);
    hide Perform, TakeIn, FetchAfter, Streamed;
    BatchHandlesOnce(mls, w.group, due, |w.log|);
    CompletesIffNoneOffends(mls, w.group, due);
    hide ReceiveAll, Offends, GroupAt, Accounted;
  }

  lemma TakenIsDue(mls: Mls, me: Pubkey, w: World, op: Op)
    requires Active(w.group) && (op.Stream? || (op.Sync? && op.line.Reachable?))
    ensures Due(w, op) == if op.Stream? then Streamed(w.log, w.group.fetchCursor, op.count) else FetchAfter(w.log, w.group.fetchCursor)
    ensures var next, b := Perform(mls, me, w, op), ReceiveAll(mls, w.group, Due(w, op));
            next.log == w.log && next.trace == w.trace + b.handled && next.group.fetchCursor == b.group.fetchCursor
  {
    hide ReceiveAll;
  }

  // ---------------------------------------------------------------------
  // Own posts coming back
  // ---------------------------------------------------------------------

  lemma {:induction false} BatchKeepsOutbound(mls: Mls, g: Group, records: seq<Record>, cursor: nat)
    requires OutboundAt(g.messages, cursor)
    ensures OutboundAt(ReceiveAll(mls, g, records).group.messages, cursor)
    ensures forall i: nat :: i < |records| ==> OutboundAt(GroupAt(mls, g, records, i).messages, cursor)
    decreases records
  {
    if records != [] {
      var step := ReceiveOne(mls, g, records[0]);
      StepKeepsOutbound(mls, g, records[0], cursor);
      hide ReceiveOne, OutboundAt;
      BatchKeepsOutbound(mls, step.group, records[1..], cursor);
      forall i: nat | i < |records|
        ensures OutboundAt(GroupAt(mls, g, records, i).messages, cursor)
      {
        if i > 0 {
          assert GroupAt(mls, g, records, i) == GroupAt(mls, step.group, records[1..], i - 1);
        }
      }
    }
  }

  lemma StepKeepsOutbound(mls: Mls, g: Group, r: Record, cursor: nat)
    requires OutboundAt(g.messages, cursor)
    ensures OutboundAt(ReceiveOne(mls, g, r).group.messages, cursor)
  {
    var step := ReceiveOne(mls, g, r);
    if step.did.Some? {
      EntryIsTold(mls, g, r);
    } else {
      ThrowChangesState(mls, g, r);
    }
    hide ReceiveOne, StateAfter, TakesOut, Delivers, QueueAfter, Complains, PassesSibling;
  }

  lemma TakeInKeepsOutbound(mls: Mls, w: World, records: seq<Record>, budget: nat, cursor: nat)
    requires OutboundAt(w.group.messages, cursor)
    ensures OutboundAt(TakeIn(mls, w, records, budget).0.group.messages, cursor)
  {
    BatchKeepsOutbound(mls, w.group, records, cursor);
    hide OutboundAt, ReceiveAll;
  }

  lemma MoreMessages(messages: seq<Message>, more: seq<Message>, cursor: nat)
    requires OutboundAt(messages, cursor)
    ensures OutboundAt(messages + more, cursor)
  {
    var m :| m in messages && m.outbound && m.cursor == cursor;
    assert m in messages + more;
  }

  lemma OpKeepsOutbound(mls: Mls, me: Pubkey, w: World, op: Op, cursor: nat)
    requires OutboundAt(w.group.messages, cursor)
    ensures OutboundAt(Perform(mls, me, w, op).group.messages, cursor)
  {
    if op.Sync? || op.Send? || op.Commit? {
      TakeInKeepsOutbound(mls, w, FetchAfter(w.log, w.group.fetchCursor), op.budget, cursor);
    } else if op.Stream? {
      TakeInKeepsOutbound(mls, w, Streamed(w.log, w.group.fetchCursor, op.count), op.budget, cursor);
    }
    if op.Send? {
      var caught := CatchUp(mls, w, op.line, op.budget).0;
      assert OutboundAt(caught.group.messages, cursor);
      MoreMessages(caught.group.messages, [Message(|Landed(caught.log, op.meanwhile)| + 1, op.at, true, me, op.id)], cursor);
    } else if op.Commit? {
      var caught := CatchUp(mls, w, op.line, op.budget).0;
      CommitTailKeeps(mls, caught.(log := Landed(caught.log, op.meanwhile)), op);
    }
    hide TakeIn, OutboundAt, CommitTail, FetchAfter, Streamed, Landed;
  }

  lemma {:induction false} RunKeepsOutbound(mls: Mls, me: Pubkey, w: World, ops: seq<Op>, cursor: nat)
    requires OutboundAt(w.group.messages, cursor)
    ensures OutboundAt(PerformAll(mls, me, w, ops).group.messages, cursor)
    decreases ops
  {
    if ops != [] {
      hide OutboundAt, Perform;
      OpKeepsOutbound(mls, me, w, ops[0], cursor);
      RunKeepsOutbound(mls, me, Perform(mls, me, w, ops[0]), ops[1..], cursor);
    }
  }

  /**
   * An answered send is in the history, at the cursor its record has in the log,
   * and that record is never processed: whatever run follows and whatever batch
   * brings it, the state it was sealed from does not meet it again.
   */
  lemma OwnMessageIsNeverProcessed(mls: Mls, me: Pubkey, w: World, op: Op, ops: seq<Op>, records: seq<Record>, i: nat)
    requires op.Send? && op.post.Stored? && GoesOn(mls, w, op.line, op.budget)
    requires i < |records| && records[i].cursor == |Landed(w.log, op.meanwhile)| + 1
    ensures var caught, sent := CatchUp(mls, w, op.line, op.budget).0, Perform(mls, me, w, op);
            var own := Message(records[i].cursor, op.at, true, me, op.id);
            && sent.group.messages == caught.group.messages + [own] && sent.group.state == op.next
            && sent.group.lastCursor == Max(caught.group.lastCursor, own.cursor)
            && sent.log[|sent.log| - 1] == Record(own.cursor, op.at, op.wire)
            && Heard(mls, GroupAt(mls, PerformAll(mls, me, sent, ops).group, records, i), records[i]).None?
  {
    GoesOnIff(mls, w, op.line, op.budget);
    var caught, sent := CatchUp(mls, w, op.line, op.budget).0, Perform(mls, me, w, op);
    var own := Message(records[i].cursor, op.at, true, me, op.id);
    hide CatchUp, GoesOn, Landed, PerformAll, ReceiveAll, GroupAt;
    assert sent.group.messages == caught.group.messages + [own];
    assert own in sent.group.messages;
    assert OutboundAt(sent.group.messages, own.cursor);
    hide Perform, OutboundAt;
    RunKeepsOutbound(mls, me, sent, ops, own.cursor);
    BatchKeepsOutbound(mls, PerformAll(mls, me, sent, ops).group, records, own.cursor);
  }

  /**
   * An answered Commit is in the state and in the queue, and its own record, when
   * it comes back, is not processed either but confirms the Commit.
   */
  lemma OwnCommitComesBack(mls: Mls, me: Pubkey, w: World, op: Op, echo: Record)
    requires op.Commit? && op.post.Stored? && GoesOn(mls, w, op.line, op.budget) && echo.wire == op.wire
    requires forall p | p in CatchUp(mls, w, op.line, op.budget).0.group.pending :: p.commit != op.commit && p.posted != Some(op.wire)
    ensures var after := Perform(mls, me, w, op).group;
            && after.state == op.next
            && after.pending == CatchUp(mls, w, op.line, op.budget).0.group.pending + [PendingCommit(op.commit, Some(op.wire), true, false)]
            && Heard(mls, after, echo).None? && Confirmed(mls, after, echo) == {op.commit}
  {
    GoesOnIff(mls, w, op.line, op.budget);
    var before, after := CatchUp(mls, w, op.line, op.budget).0.group.pending, Perform(mls, me, w, op).group;
    hide CatchUp, GoesOn, Landed, Note, RaceLost;
    var q := PendingCommit(op.commit, Some(op.wire), true, false);
    assert after.pending == before + [q];
    hide Perform;
    LastPostedIsFound(before, q, op.wire);
    assert after.pending[|before|] == q;
    assert InState(after, op.commit);
  }

  lemma {:induction false} LastPostedIsFound(before: seq<PendingCommit>, q: PendingCommit, wire: Wire)
    requires q.posted == Some(wire) && forall p | p in before :: p.posted != Some(wire)
    ensures FindPosted(before + [q], wire) == Some(q.commit)
  {
    if before == [] {
      assert before + [q] == [q];
    } else {
      assert (before + [q])[0] == before[0] && (before + [q])[1..] == before[1..] + [q];
      LastPostedIsFound(before[1..], q, wire);
    }
  }
}
