/**
 * Ingestion of the coordinator's message log into one group: what every log
 * entry does to the group, and what a batch of entries does.
 */
module GroupSync {
  import opened Base
  import opened Mls

  type Address = nat

  datatype Message = Message(cursor: nat, at: nat, outbound: bool, sender: Pubkey, id: nat)

  datatype Detail = FormerEpochDetail | StaleGenerationDetail | UndecryptableDetail | RemovedLikeDetail
                  | UnauthorizedDetail | ForkDetail(forkEpoch: nat, adopted: bool, basis: Evidence)

  datatype Issue = Issue(cursor: nat, detail: Detail)

  /** A Commit this device posted. `applied` is false while the post is unresolved. */
  datatype PendingCommit = PendingCommit(commit: Opaque, posted: Option<Wire>, applied: bool, confirmed: bool)

  datatype AppliedDocument = AppliedDocument(address: Address, cursor: nat, fingerprint: Fingerprint)

  datatype Branch = Branch(dead: bool, sinceEpoch: nat)

  datatype SkippedSibling = SkippedSibling(epoch: nat, cursor: nat)

  datatype CommitPoint = CommitPoint(epoch: nat, cursor: nat, state: ClientState, published: bool)

  datatype Evidence = CoordinatorOrder | ThirdParty | Rank

  datatype Decision = Decision(epoch: nat, fingerprint: Fingerprint, basis: Evidence)

  /** One group as the session holds it. */
  datatype Group = Group(
    state: ClientState,
    removed: bool,
    removedAt: Option<nat>,
    lastCursor: nat,
    fetchCursor: nat,
    messages: seq<Message>,
    issues: seq<Issue>,
    pending: seq<PendingCommit>,
    skippedSibling: Option<SkippedSibling>,
    appliedDocument: Option<AppliedDocument>,
    held: map<nat, Fingerprint>,
    branch: Option<Branch>,
    commitPoint: Option<CommitPoint>,
    decision: Option<Decision>)

  /** One record of the group's log, as fetched. */
  datatype Record = Record(cursor: nat, at: nat, wire: Wire)

  /** What became of one log entry. */
  datatype Disposition =
    | OwnEcho(commit: Opaque)
    | OwnOutbound
    | StoredInbound(message: Message)
    | StateChange(confirms: Option<Opaque>)
    | IssueRecorded(rejects: Option<Opaque>)
    | SkippedSiblingCommit
    | Removal(confirms: Option<Opaque>)
    | Ignored
    | Unreadable

  /** The group after one entry; no disposition means that ingestion threw. */
  datatype Step = Step(group: Group, did: Option<Disposition>)

  function FindPending(pending: seq<PendingCommit>, opaqueMessage: Opaque): Option<nat> {
    if pending == [] then None
    else if pending[0].commit == opaqueMessage then Some(0)
    else match FindPending(pending[1..], opaqueMessage)
      case None => None
      case Some(i) => Some(i + 1)
  }

  lemma {:induction false} FindPendingFinds(pending: seq<PendingCommit>, opaqueMessage: Opaque)
    ensures match FindPending(pending, opaqueMessage)
            case None => forall p | p in pending :: p.commit != opaqueMessage
            case Some(i) => (
              && i < |pending| && pending[i].commit == opaqueMessage
              && forall j :: 0 <= j < i ==> pending[j].commit != opaqueMessage)
  {
    if pending != [] && pending[0].commit != opaqueMessage {
      FindPendingFinds(pending[1..], opaqueMessage);
    }
  }

  function FindPosted(pending: seq<PendingCommit>, wire: Wire): Option<Opaque> {
    if pending == [] then None
    else if pending[0].posted == Some(wire) then Some(pending[0].commit)
    else FindPosted(pending[1..], wire)
  }

  predicate OutboundAt(messages: seq<Message>, cursor: nat) {
    exists m :: m in messages && m.outbound && m.cursor == cursor
  }

  /** The cursor bookkeeping every handled entry gets. */
  function Passed(g: Group, cursor: nat): Group {
    g.(fetchCursor := cursor, lastCursor := Max(g.lastCursor, cursor))
  }

  function MarkApplied(g: Group, i: Option<nat>): Group {
    match i
    case Some(k) => if k < |g.pending| then g.(pending := g.pending[k := g.pending[k].(applied := true)]) else g
    case None => g
  }

  function Removed(g: Group, cursor: nat): Group { g.(removed := true, removedAt := Some(cursor)) }

  function Complain(g: Group, cursor: nat, detail: Detail): Group {
    g.(issues := g.issues + [Issue(cursor, detail)])
  }

  /** An error the client absorbs. `p` is the unresolved own Commit with these bytes, if any. */
  function Absorb(g: Group, cursor: nat, p: Option<nat>, opaqueMessage: Opaque, detail: Detail, senderLeaf: Option<nat>): Step {
    var passed := Passed(g, cursor);
    if p.Some? && (detail.RemovedLikeDetail? || detail.FormerEpochDetail?) then
      Step(MarkApplied(passed, p), Some(OwnEcho(opaqueMessage)))
    else if detail.RemovedLikeDetail? && p.None? then
      if senderLeaf.Some? && senderLeaf == g.state.ownLeaf then
        Step(passed.(skippedSibling := Some(SkippedSibling(g.state.epoch, cursor))), Some(SkippedSiblingCommit))
      else
        Step(Removed(passed, cursor), Some(Removal(None)))
    else
      Step(Complain(passed, cursor, detail),
           Some(IssueRecorded(if p.Some? then Some(opaqueMessage) else None)))
  }

  function IngestApplication(g: Group, cursor: nat, at: nat, next: ClientState, sender: Option<Pubkey>, event: Option<Event>): Step {
    var moved := g.(state := next);
    if next.removed then Step(Passed(Removed(moved, cursor), cursor), Some(Removal(None)))
    else if sender.None? || event.None? || event.value.author != sender.value then Step(moved, None)
    else
      var stored := Message(cursor, at, false, sender.value, event.value.id);
      Step(Passed(moved.(messages := moved.messages + [stored]), cursor), Some(StoredInbound(stored)))
  }

  /** One opened entry, branch by branch. */
  function IngestOne(mls: Mls, g: Group, cursor: nat, at: nat, opaqueMessage: Opaque): Step {
    var p := FindPending(g.pending, opaqueMessage);
    if p.Some? && p.value < |g.pending| && g.pending[p.value].applied then
      Step(Passed(g, cursor), Some(OwnEcho(opaqueMessage)))
    else if OutboundAt(g.messages, cursor) then
      Step(Passed(g, cursor), Some(OwnOutbound))
    else
      match mls.process(g.state, opaqueMessage)
      case FormerEpoch => Absorb(g, cursor, p, opaqueMessage, FormerEpochDetail, None)
      case StaleGeneration => Absorb(g, cursor, p, opaqueMessage, StaleGenerationDetail, None)
      case UndecryptableStale => Absorb(g, cursor, p, opaqueMessage, UndecryptableDetail, None)
      case RemovedLike(leaf) => Absorb(g, cursor, p, opaqueMessage, RemovedLikeDetail, leaf)
      case Fatal => Step(g, None)
      case RejectedByPolicy =>
        Step(Complain(Passed(g, cursor), cursor, UnauthorizedDetail),
             Some(IssueRecorded(if p.Some? then Some(opaqueMessage) else None)))
      case Application(next, sender, event) => IngestApplication(g, cursor, at, next, sender, event)
      case Other => Step(Passed(g, cursor), Some(Ignored))
      case NewState(next) =>
        var confirms := if p.Some? then Some(opaqueMessage) else None;
        var moved := MarkApplied(Passed(g, cursor).(state := next), p);
        if next.removed || next.ownLeaf.None? then Step(Removed(moved, cursor), Some(Removal(confirms)))
        else Step(moved, Some(StateChange(confirms)))
  }

  /** One sealed log entry: an own Commit is recognised by its wrapper, anything else has to open. */
  function ReceiveOne(mls: Mls, g: Group, r: Record): Step {
    match FindPosted(g.pending, r.wire)
    case Some(commit) => IngestOne(mls, g, r.cursor, r.at, commit)
    case None =>
      match mls.open(g.state, r.wire)
      case None =>
        Step(g.(fetchCursor := Max(g.fetchCursor, r.cursor), lastCursor := Max(g.lastCursor, r.cursor)), Some(Unreadable))
      case Some(opaqueMessage) => IngestOne(mls, g, r.cursor, r.at, opaqueMessage)
  }

  datatype Handled = Handled(cursor: nat, did: Disposition)

  /** A batch: the group afterwards, what became of the entries reached, and whether it ran to its end. */
  datatype Batch = Batch(group: Group, handled: seq<Handled>, completed: bool)

  function ReceiveAll(mls: Mls, g: Group, records: seq<Record>): Batch
    decreases records
  {
    if records == [] then Batch(g, [], true)
    else
      var step := ReceiveOne(mls, g, records[0]);
      if step.did.None? then Batch(step.group, [], false)
      else
        var rest := ReceiveAll(mls, step.group, records[1..]);
        Batch(rest.group, [Handled(records[0].cursor, step.did.value)] + rest.handled, rest.completed)
  }

  function Confirms(did: Disposition): set<Opaque> {
    match did
    case OwnEcho(c) => {c}
    case StateChange(Some(c)) => {c}
    case Removal(Some(c)) => {c}
    case _ => {}
  }

  function Rejects(did: Disposition): set<Opaque> {
    match did
    case IssueRecorded(Some(c)) => {c}
    case _ => {}
  }

  function AllConfirms(handled: seq<Handled>): set<Opaque> {
    if handled == [] then {} else Confirms(handled[0].did) + AllConfirms(handled[1..])
  }

  function AllRejects(handled: seq<Handled>): set<Opaque> {
    if handled == [] then {} else Rejects(handled[0].did) + AllRejects(handled[1..])
  }

  // ---------------------------------------------------------------------
  // Settling own Commits at the end of a batch
  // ---------------------------------------------------------------------

  function MarkConfirmed(pending: seq<PendingCommit>, confirms: set<Opaque>): seq<PendingCommit> {
    if pending == [] then []
    else
      var p := if pending[0].commit in confirms then pending[0].(confirmed := true) else pending[0];
      [p] + MarkConfirmed(pending[1..], confirms)
  }

  /** Finalize confirmed Commits in order; `budget` of them succeed, then one fails and stops the loop. */
  function FinalizeConfirmed(pending: seq<PendingCommit>, budget: nat): (seq<PendingCommit>, bool) {
    if pending == [] then ([], true)
    else if !pending[0].confirmed then
      var (rest, ok) := FinalizeConfirmed(pending[1..], budget);
      ([pending[0]] + rest, ok)
    else if budget == 0 then (pending, false)
    else FinalizeConfirmed(pending[1..], budget - 1)
  }

  function DropRejected(pending: seq<PendingCommit>, rejects: set<Opaque>): seq<PendingCommit> {
    if pending == [] then []
    else (if pending[0].commit in rejects then [] else [pending[0]]) + DropRejected(pending[1..], rejects)
  }

  /** The end of a batch. A batch that threw settles nothing; a failing finalizer leaves the rejections unsettled. */
  function Settle(b: Batch, budget: nat): (Group, bool) {
    if !b.completed then (b.group, false)
    else
      var (left, ok) := FinalizeConfirmed(MarkConfirmed(b.group.pending, AllConfirms(b.handled)), budget);
      if ok then (b.group.(pending := DropRejected(left, AllRejects(b.handled))), true)
      else (b.group.(pending := left), false)
  }

  function ReceivedOf(handled: seq<Handled>): seq<Message> {
    if handled == [] then []
    else (if handled[0].did.StoredInbound? then [handled[0].did.message] else []) + ReceivedOf(handled[1..])
  }

  // ---------------------------------------------------------------------
  // What every entry keeps
  // ---------------------------------------------------------------------

  /**
   * An entry is either passed, its cursor becoming the frontier, or ingestion
   * throws and the frontier stays; the epoch never falls, and history only
   * grows, by the stored message.
   */
  ghost predicate Keeps(g: Group, s: Step, cursor: nat) {
    && s.group.state.epoch >= g.state.epoch
    && s.group.lastCursor == (if s.did.Some? then Max(g.lastCursor, cursor) else g.lastCursor)
    && s.group.fetchCursor == (if s.did.Some? then cursor else g.fetchCursor)
    && (s.did.Some? && s.did.value.StoredInbound? ==>
          && s.group.messages == g.messages + [s.did.value.message]
          && s.did.value.message.cursor == cursor
          && !s.did.value.message.outbound
          && !OutboundAt(g.messages, cursor))
    && (!(s.did.Some? && s.did.value.StoredInbound?) ==> s.group.messages == g.messages)
    && (g.removed ==> s.group.removed)
  }

  lemma AbsorbKeeps(g: Group, cursor: nat, p: Option<nat>, o: Opaque, detail: Detail, leaf: Option<nat>)
    ensures Keeps(g, Absorb(g, cursor, p, o, detail, leaf), cursor)
  {
  }

  lemma IngestApplicationKeeps(g: Group, cursor: nat, at: nat, next: ClientState, sender: Option<Pubkey>, event: Option<Event>)
    requires next.epoch >= g.state.epoch && !OutboundAt(g.messages, cursor)
    ensures Keeps(g, IngestApplication(g, cursor, at, next, sender, event), cursor)
  {
  }

  lemma IngestOneKeeps(mls: Mls, g: Group, cursor: nat, at: nat, o: Opaque)
    requires NeverGoesBack(mls)
    ensures Keeps(g, IngestOne(mls, g, cursor, at, o), cursor)
  {
    var p := FindPending(g.pending, o);
    if !(p.Some? && p.value < |g.pending| && g.pending[p.value].applied) && !OutboundAt(g.messages, cursor) {
      match mls.process(g.state, o)
      case FormerEpoch => AbsorbKeeps(g, cursor, p, o, FormerEpochDetail, None);
      case StaleGeneration => AbsorbKeeps(g, cursor, p, o, StaleGenerationDetail, None);
      case UndecryptableStale => AbsorbKeeps(g, cursor, p, o, UndecryptableDetail, None);
      case RemovedLike(leaf) => AbsorbKeeps(g, cursor, p, o, RemovedLikeDetail, leaf);
      case Application(next, sender, event) => IngestApplicationKeeps(g, cursor, at, next, sender, event);
      case _ =>
    }
  }

  lemma ReceiveOneKeeps(mls: Mls, g: Group, r: Record)
    requires NeverGoesBack(mls) && r.cursor > g.fetchCursor
    ensures Keeps(g, ReceiveOne(mls, g, r), r.cursor)
  {
    match FindPosted(g.pending, r.wire)
    case Some(c) => IngestOneKeeps(mls, g, r.cursor, r.at, c);
    case None =>
      match mls.open(g.state, r.wire)
      case Some(o) => IngestOneKeeps(mls, g, r.cursor, r.at, o);
      case None =>
  }

  // ---------------------------------------------------------------------
  // Queued Commits keep their identity
  // ---------------------------------------------------------------------

  lemma {:induction false} FindPostedFinds(pending: seq<PendingCommit>, wire: Wire)
    ensures match FindPosted(pending, wire)
            case None => forall p | p in pending :: p.posted != Some(wire)
            case Some(c) => exists p | p in pending :: p.posted == Some(wire) && p.commit == c
  {
    if pending != [] && pending[0].posted != Some(wire) {
      FindPostedFinds(pending[1..], wire);
    }
  }

  /** Every entry of `after` is one of `before`, at most confirmed since. */
  ghost predicate From(after: seq<PendingCommit>, before: seq<PendingCommit>) {
    forall q | q in after :: exists p | p in before :: p.commit == q.commit && p.posted == q.posted && p.applied == q.applied
  }

  lemma {:induction false} MarkConfirmedFrom(pending: seq<PendingCommit>, confirms: set<Opaque>)
    ensures From(MarkConfirmed(pending, confirms), pending)
  {
    if pending != [] {
      MarkConfirmedFrom(pending[1..], confirms);
      assert pending[0] in pending && forall p | p in pending[1..] :: p in pending;
    }
  }

  lemma {:induction false} FinalizedIn(pending: seq<PendingCommit>, budget: nat)
    ensures forall q | q in FinalizeConfirmed(pending, budget).0 :: q in pending
  {
    if pending != [] {
      FinalizedIn(pending[1..], budget);
      if budget > 0 {
        FinalizedIn(pending[1..], budget - 1);
      }
    }
  }

  lemma {:induction false} KeptIn(pending: seq<PendingCommit>, rejects: set<Opaque>)
    ensures forall q | q in DropRejected(pending, rejects) :: q in pending
  {
    if pending != [] {
      KeptIn(pending[1..], rejects);
    }
  }

  lemma SettledFrom(b: Batch, budget: nat)
    ensures From(Settle(b, budget).0.pending, b.group.pending)
  {
    if b.completed {
      var marked := MarkConfirmed(b.group.pending, AllConfirms(b.handled));
      MarkConfirmedFrom(b.group.pending, AllConfirms(b.handled));
      FinalizedIn(marked, budget);
      KeptIn(FinalizeConfirmed(marked, budget).0, AllRejects(b.handled));
      hide MarkConfirmed, FinalizeConfirmed, DropRejected, AllConfirms, AllRejects;
    }
  }
}
