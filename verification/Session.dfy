/**
 * The group session as the client keeps it: an object whose fields are
 * assigned step by step. Every method is tied to the function that says what
 * it does to the group as a whole.
 */
module Session {
  import opened Base
  import opened Mls
  import opened GroupSync
  import opened Documents
  import opened Forks
  import opened ChainCatchUp
  import opened ClientRuns

  class GroupSession {
    var state: ClientState
    var removed: bool
    var removedAt: Option<nat>
    var lastCursor: nat
    var fetchCursor: nat
    var messages: seq<Message>
    var issues: seq<Issue>
    var pending: seq<PendingCommit>
    var skippedSibling: Option<SkippedSibling>
    var appliedDocument: Option<AppliedDocument>
    var held: map<nat, Fingerprint>
    var branch: Option<Branch>
    var commitPoint: Option<CommitPoint>
    var decision: Option<Decision>

    ghost function View(): Group
      reads this
    {
      Group(state, removed, removedAt, lastCursor, fetchCursor, messages, issues, pending, skippedSibling,
            appliedDocument, held, branch, commitPoint, decision)
    }

    /** A group seen for the first time. */
    constructor Fresh(state: ClientState, cursor: nat)
      ensures View() == FreshGroup(state, cursor)
    {
      this.state, removed, removedAt, lastCursor, fetchCursor := state, false, None, cursor, cursor;
      messages, issues, pending, skippedSibling := [], [], [], None;
      appliedDocument, held, branch, commitPoint, decision := None, map[], None, None, None;
    }

    /** A throwaway copy of `g` holding `state`. */
    constructor ProbeOf(g: GroupSession, state: ClientState)
      ensures View() == Probe(g.View(), state)
    {
      this.state, removed, removedAt, lastCursor, fetchCursor := state, g.removed, g.removedAt, g.lastCursor, g.fetchCursor;
      messages, issues, pending, skippedSibling := g.messages, [], [], None;
      appliedDocument, held, branch, commitPoint, decision := g.appliedDocument, g.held, g.branch, g.commitPoint, g.decision;
    }

    // -------------------------------------------------------------------
    // Ingestion
    // -------------------------------------------------------------------

    method PendingIndex(o: Opaque) returns (i: Option<nat>)
      ensures i == FindPending(pending, o)
    {
      var k := 0;
      while k < |pending|
        invariant 0 <= k <= |pending|
        invariant FindPending(pending, o) == match FindPending(pending[k..], o)
                                              case None => None
                                              case Some(j) => Some(j + k)
      {
        if pending[k].commit == o {
          return Some(k);
        }
        assert pending[k..][1..] == pending[k + 1..];
        k := k + 1;
      }
      return None;
    }

    method PostedBy(wire: Wire) returns (c: Option<Opaque>)
      ensures c == FindPosted(pending, wire)
    {
      var k := 0;
      while k < |pending|
        invariant 0 <= k <= |pending|
        invariant FindPosted(pending, wire) == FindPosted(pending[k..], wire)
      {
        if pending[k].posted == Some(wire) {
          return Some(pending[k].commit);
        }
        assert pending[k..][1..] == pending[k + 1..];
        k := k + 1;
      }
      return None;
    }

    method SentAt(cursor: nat) returns (found: bool)
      ensures found == OutboundAt(messages, cursor)
    {
      var k := 0;
      while k < |messages|
        invariant 0 <= k <= |messages|
        invariant forall j :: 0 <= j < k ==> !(messages[j].outbound && messages[j].cursor == cursor)
      {
        if messages[k].outbound && messages[k].cursor == cursor {
          assert messages[k] in messages;
          return true;
        }
        k := k + 1;
      }
      return false;
    }

    method Pass(cursor: nat)
      modifies this`fetchCursor, this`lastCursor
      ensures View() == Passed(old(View()), cursor)
    {
      fetchCursor := cursor;
      lastCursor := Max(lastCursor, cursor);
    }

    method Remove(cursor: nat)
      modifies this`removed, this`removedAt
      ensures View() == Removed(old(View()), cursor)
    {
      removed := true;
      removedAt := Some(cursor);
    }

    method Complaint(cursor: nat, detail: Detail)
      modifies this`issues
      ensures View() == Complain(old(View()), cursor, detail)
    {
      issues := issues + [Issue(cursor, detail)];
    }

    method SetApplied(i: nat)
      requires i < |pending|
      modifies this`pending
      ensures View() == MarkApplied(old(View()), Some(i))
    {
      pending := pending[i := pending[i].(applied := true)];
    }

    /** An error the client absorbs while processing an entry. */
    method AbsorbError(cursor: nat, p: Option<nat>, o: Opaque, detail: Detail, leaf: Option<nat>) returns (did: Disposition)
      requires p.Some? ==> p.value < |pending|
      modifies this
      ensures Step(View(), Some(did)) == Absorb(old(View()), cursor, p, o, detail, leaf)
    {
      Pass(cursor);
      if p.Some? && (detail.RemovedLikeDetail? || detail.FormerEpochDetail?) {
        SetApplied(p.value);
        return OwnEcho(o);
      } else if detail.RemovedLikeDetail? && p.None? {
        if leaf.Some? && leaf == state.ownLeaf {
          skippedSibling := Some(SkippedSibling(state.epoch, cursor));
          return SkippedSiblingCommit;
        }
        Remove(cursor);
        return Removal(None);
      }
      Complaint(cursor, detail);
      return IssueRecorded(if p.Some? then Some(o) else None);
    }

    /** One opened entry; nothing is returned when ingestion throws. */
    method Ingest(mls: Mls, cursor: nat, at: nat, o: Opaque) returns (did: Option<Disposition>)
      modifies this
      ensures Step(View(), did) == IngestOne(mls, old(View()), cursor, at, o)
    {
      hide Absorb;
      var p := PendingIndex(o);
      FindPendingFinds(pending, o);
      if p.Some? && pending[p.value].applied {
        Pass(cursor);
        return Some(OwnEcho(o));
      }
      var sent := SentAt(cursor);
      if sent {
        Pass(cursor);
        return Some(OwnOutbound);
      }
      match mls.process(state, o) {
        case FormerEpoch =>
          var d := AbsorbError(cursor, p, o, FormerEpochDetail, None);
          return Some(d);
        case StaleGeneration =>
          var d := AbsorbError(cursor, p, o, StaleGenerationDetail, None);
          return Some(d);
        case UndecryptableStale =>
          var d := AbsorbError(cursor, p, o, UndecryptableDetail, None);
          return Some(d);
        case RemovedLike(leaf) =>
          var d := AbsorbError(cursor, p, o, RemovedLikeDetail, leaf);
          return Some(d);
        case Fatal =>
          return None;
        case RejectedByPolicy =>
          Pass(cursor);
          Complaint(cursor, UnauthorizedDetail);
          return Some(IssueRecorded(if p.Some? then Some(o) else None));
        case Application(next, sender, event) =>
          did := IngestApplicationMessage(cursor, at, next, sender, event);
        case Other =>
          Pass(cursor);
          return Some(Ignored);
        case NewState(next) =>
          Pass(cursor);
          state := next;
          if p.Some? {
            SetApplied(p.value);
          }
          var confirms := if p.Some? then Some(o) else None;
          if next.removed || next.ownLeaf.None? {
            Remove(cursor);
            return Some(Removal(confirms));
          }
          return Some(StateChange(confirms));
      }
    }

    method IngestApplicationMessage(cursor: nat, at: nat, next: ClientState, sender: Option<Pubkey>, event: Option<Event>)
      returns (did: Option<Disposition>)
      modifies this
      ensures Step(View(), did) == IngestApplication(old(View()), cursor, at, next, sender, event)
    {
      state := next;
      if next.removed {
        Remove(cursor);
        Pass(cursor);
        return Some(Removal(None));
      }
      if sender.None? || event.None? || event.value.author != sender.value {
        return None;
      }
      var stored := Message(cursor, at, false, sender.value, event.value.id);
      messages := messages + [stored];
      Pass(cursor);
      return Some(StoredInbound(stored));
    }

    /** One sealed log entry. */
    method Receive(mls: Mls, r: Record) returns (did: Option<Disposition>)
      modifies this
      ensures Step(View(), did) == ReceiveOne(mls, old(View()), r)
    {
      hide IngestOne;
      var commit := PostedBy(r.wire);
      if commit.Some? {
        did := Ingest(mls, r.cursor, r.at, commit.value);
        return;
      }
      match mls.open(state, r.wire) {
        case None =>
          fetchCursor := Max(fetchCursor, r.cursor);
          lastCursor := Max(lastCursor, r.cursor);
          return Some(Unreadable);
        case Some(o) =>
          did := Ingest(mls, r.cursor, r.at, o);
      }
    }

    /** Confirm the own Commits in `applied` and finalize confirmed ones in order; `budget` finalizers succeed. */
    method ConfirmPending(applied: set<Opaque>, budget: nat) returns (ok: bool)
      modifies this`pending
      ensures (pending, ok) == FinalizeConfirmed(MarkConfirmed(old(pending), applied), budget)
    {
      MarkedOneByOne(pending, applied);
      var k := 0;
      while k < |pending|
        invariant 0 <= k <= |pending| == |old(pending)|
        invariant forall j :: 0 <= j < k ==> pending[j] == MarkConfirmed(old(pending), applied)[j]
        invariant forall j :: k <= j < |pending| ==> pending[j] == old(pending)[j]
      {
        if pending[k].commit in applied {
          pending := pending[k := pending[k].(confirmed := true)];
        }
        k := k + 1;
      }
      assert pending == MarkConfirmed(old(pending), applied);
      ok := Finalize(budget);
    }

    method Finalize(budget: nat) returns (ok: bool)
      modifies this`pending
      ensures (pending, ok) == FinalizeConfirmed(old(pending), budget)
    {
      var left: nat := budget;
      var kept, todo := [], pending;
      assert kept + FinalizeConfirmed(todo, left).0 == FinalizeConfirmed(todo, left).0;
      while todo != []
        invariant pending == kept + todo
        invariant FinalizeConfirmed(old(pending), budget).0 == kept + FinalizeConfirmed(todo, left).0
        invariant FinalizeConfirmed(old(pending), budget).1 == FinalizeConfirmed(todo, left).1
        decreases |todo|
      {
        var operation := todo[0];
        if !operation.confirmed {
          assert kept + ([operation] + FinalizeConfirmed(todo[1..], left).0)
              == (kept + [operation]) + FinalizeConfirmed(todo[1..], left).0;
          kept := kept + [operation];
        } else if left == 0 {
          return false;
        } else {
          left := left - 1;
          pending := kept + todo[1..];
        }
        todo := todo[1..];
      }
      return true;
    }

    method RejectPending(rejected: set<Opaque>)
      modifies this`pending
      ensures pending == DropRejected(old(pending), rejected)
    {
      var queue := pending;
      var remaining, todo := [], queue;
      assert remaining + DropRejected(todo, rejected) == DropRejected(todo, rejected);
      while todo != []
        invariant DropRejected(queue, rejected) == remaining + DropRejected(todo, rejected)
        decreases |todo|
      {
        if todo[0].commit !in rejected {
          assert remaining + ([todo[0]] + DropRejected(todo[1..], rejected))
              == (remaining + [todo[0]]) + DropRejected(todo[1..], rejected);
          remaining := remaining + [todo[0]];
        } else {
          assert [] + DropRejected(todo[1..], rejected) == DropRejected(todo[1..], rejected);
        }
        todo := todo[1..];
      }
      pending := remaining;
    }

    /** Unseal and ingest a fetched batch, then settle the own Commits it confirmed or rejected. */
    method ApplyIncoming(mls: Mls, records: seq<Record>, budget: nat) returns (ok: bool, received: seq<Message>)
      modifies this
      ensures (View(), ok) == Settle(ReceiveAll(mls, old(View()), records), budget)
      ensures ok ==> received == ReceivedOf(ReceiveAll(mls, old(View()), records).handled)
    {
      hide ReceiveOne, FinalizeConfirmed, DropRejected, MarkConfirmed;
      var confirms: set<Opaque>, rejects: set<Opaque> := {}, {};
      received := [];
      ghost var handled: seq<Handled> := [];
      ghost var whole := ReceiveAll(mls, View(), records);
      var i := 0;
      assert records[0..] == records;
      while i < |records|
        invariant 0 <= i <= |records|
        invariant confirms == AllConfirms(handled) && rejects == AllRejects(handled) && received == ReceivedOf(handled)
        invariant whole == After(handled, ReceiveAll(mls, View(), records[i..]))
      {
        ghost var before := View();
        var did := Receive(mls, records[i]);
        assert records[i..][0] == records[i] && records[i..][1..] == records[i + 1..];
        if did.None? {
          assert whole == After(handled, Batch(View(), [], false));
          return false, received;
        }
        HandleOneMore(handled, Handled(records[i].cursor, did.value), ReceiveAll(mls, View(), records[i + 1..]));
        handled := handled + [Handled(records[i].cursor, did.value)];
        confirms := confirms + Confirms(did.value);
        rejects := rejects + Rejects(did.value);
        if did.value.StoredInbound? {
          received := received + [did.value.message];
        }
        i := i + 1;
      }
      assert whole == Batch(View(), handled, true);
      ok := ConfirmPending(confirms, budget);
      if ok {
        RejectPending(rejects);
      }
    }

    // -------------------------------------------------------------------
    // Own Commits
    // -------------------------------------------------------------------

    method NoteFingerprint() returns (f: Fingerprint)
      modifies this`held
      ensures View() == NoteGroup(old(View())) && f == FingerprintOf(state)
    {
      f := FingerprintOf(state);
      held := TrimFingerprints(held[state.epoch := f]);
    }

    /** One entry on a probe: what cannot be opened is passed over, a throw is swallowed. */
    method ProbeReceive(mls: Mls, r: Record) returns (did: Option<Disposition>)
      modifies this
      ensures Step(View(), did) == ProbeOne(mls, old(View()), r)
    {
      match mls.open(state, r.wire) {
        case None =>
          return None;
        case Some(o) =>
          hide IngestOne;
          did := Ingest(mls, r.cursor, r.at, o);
      }
    }

    /** Whether the own Commit at `cursor` lost its race; nothing when the fetch failed. */
    method CommitLost(mls: Mls, cursor: nat, wire: Wire, fetched: Option<seq<Record>>) returns (lost: Option<bool>)
      ensures lost == RaceLost(mls, View(), cursor, wire, fetched)
    {
      if skippedSibling.Some? && skippedSibling.value.epoch == state.epoch {
        return Some(true);
      }
      if fetched.None? {
        return None;
      }
      var earlier := EarlierThan(fetched.value, cursor, wire);
      if earlier == [] {
        return Some(false);
      }
      var probe := new GroupSession.ProbeOf(this, state);
      probe.ProbeBatch(mls, earlier);
      return Some(probe.state.epoch != state.epoch || probe.skippedSibling.Some?);
    }

    method ProbeBatch(mls: Mls, records: seq<Record>)
      modifies this
      ensures View() == ProbeAll(mls, old(View()), records)
    {
      hide ProbeOne;
      var i := 0;
      assert records[0..] == records;
      while i < |records|
        invariant 0 <= i <= |records|
        invariant ProbeAll(mls, old(View()), records) == ProbeAll(mls, View(), records[i..])
      {
        assert records[i..][1..] == records[i + 1..];
        var _ := ProbeReceive(mls, records[i]);
        i := i + 1;
      }
    }

    method RecordRace(mls: Mls, cursor: nat, wire: Wire, fetched: Option<seq<Record>>)
      modifies this
      ensures View() == RecordCommitRace(mls, old(View()), cursor, wire, fetched)
    {
      hide RaceLost;
      var baseEpoch := state.epoch;
      var _ := NoteFingerprint();
      var lost := CommitLost(mls, cursor, wire, fetched);
      if lost.None? {
        return;
      }
      if lost.value {
        branch := Some(Branch(true, baseEpoch + 1));
      } else if branch.None? || !branch.value.dead {
        branch := Some(Branch(false, baseEpoch + 1));
      }
    }

    /** Adopt the state of the own Commit posted at `cursor`, after gathering the race evidence. */
    method AdoptCommit(mls: Mls, next: ClientState, cursor: nat, wire: Wire, fetched: Option<seq<Record>>)
      modifies this
      ensures View() == AdoptOwnCommit(mls, old(View()), next, cursor, wire, fetched)
    {
      hide RaceLost;
      RecordRace(mls, cursor, wire, fetched);
      state := next;
      var _ := NoteFingerprint();
      commitPoint := Some(CommitPoint(next.epoch, cursor, next, false));
    }

    // -------------------------------------------------------------------
    // Forks
    // -------------------------------------------------------------------

    /** How one entry reads under the branch this probe holds. */
    method ReadSignal(mls: Mls, me: Pubkey, r: Record) returns (signal: Signal)
      modifies this
      ensures Signalled(View(), signal) == SignalOn(mls, me, old(View()), r)
    {
      hide IngestOne;
      if mls.open(state, r.wire).None? {
        return Closed;
      }
      var before := state.epoch;
      var did := ProbeReceive(mls, r);
      if (did.Some? && did.value.StoredInbound? && did.value.message.sender != me) || state.epoch != before {
        return Signal;
      }
      return Opens;
    }

    /** Which branch do third parties follow? `true` is theirs. */
    method AskThirdParties(mls: Mls, me: Pubkey, theirs: ClientState, fetched: Option<seq<Record>>)
      returns (verdict: Option<bool>)
      ensures verdict == ThirdPartyVerdict(mls, me, View(), theirs, fetched)
    {
      if fetched.None? {
        return None;
      }
      hide SignalOn;
      var records := fetched.value;
      var ours := new GroupSession.ProbeOf(this, state);
      var other := new GroupSession.ProbeOf(this, theirs);
      var i := 0;
      assert records[0..] == records;
      while i < |records|
        invariant 0 <= i <= |records|
        invariant fresh(ours) && fresh(other) && ours != other
        invariant Verdict(mls, me, Probe(View(), state), Probe(View(), theirs), messages, records)
               == Verdict(mls, me, ours.View(), other.View(), messages, records[i..])
      {
        assert records[i..][0] == records[i] && records[i..][1..] == records[i + 1..];
        var sent := SentAt(records[i].cursor);
        if !sent {
          var onOurs := ours.ReadSignal(mls, me, records[i]);
          var onTheirs := other.ReadSignal(mls, me, records[i]);
          if onTheirs.Signal? && onOurs.Closed? {
            return Some(true);
          }
          if onOurs.Signal? && onTheirs.Closed? {
            return Some(false);
          }
        }
        i := i + 1;
      }
      return None;
    }

    /** The document rank; `true` when their branch comes first. */
    method Outranked(forkEpoch: nat, entry: Document, address: Address, access: Option<Store>) returns (theirs: bool)
      requires entry.GroupDocument?
      ensures theirs == RankBranches(View(), forkEpoch, entry, address, access)
    {
      hide LowestAt, WalkFrom;
      if access.Some? && address != NO_ADDRESS {
        var placed := LowestDocumentAtEpoch(access.value, Some(entry), address, forkEpoch);
        var ours: Option<Placed> := None;
        if appliedDocument.Some? {
          ours := LowestDocumentAtEpoch(access.value, None, appliedDocument.value.address, forkEpoch);
        }
        if commitPoint.Some? && commitPoint.value.epoch == forkEpoch
           && (ours.None? || commitPoint.value.cursor < ours.value.cursor) {
          ours := Some(Placed(commitPoint.value.cursor, NO_ADDRESS));
        }
        if placed.Some? && ours.Some? {
          return placed.value.cursor < ours.value.cursor
              || (placed.value.cursor == ours.value.cursor && placed.value.address > ours.value.address);
        }
      }
      return appliedDocument.None? || address == NO_ADDRESS || entry.cursor > appliedDocument.value.cursor
          || (entry.cursor == appliedDocument.value.cursor && address > appliedDocument.value.address);
    }

    /** Resolve a fork against `theirs`; the answer says whether to adopt them. */
    method ResolveFork(
      mls: Mls, me: Pubkey, theirs: ClientState, forkEpoch: nat,
      entry: Document, address: Address, access: Option<Store>, fetched: Option<seq<Record>>) returns (adopt: bool)
      requires entry.GroupDocument?
      modifies this`decision, this`issues
      ensures var ruling := Rule(mls, me, old(View()), theirs, forkEpoch, entry, address, access, fetched);
              adopt == ruling.adopt && View() == Resolve(old(View()), theirs, forkEpoch, ruling)
    {
      hide ThirdPartyVerdict, RankBranches;
      var basis := Rank;
      if branch.Some? {
        adopt := branch.value.dead;
        basis := CoordinatorOrder;
      } else {
        var verdict := AskThirdParties(mls, me, theirs, fetched);
        if verdict.Some? {
          adopt := verdict.value;
          basis := ThirdParty;
        } else if decision.Some? && decision.value.epoch == forkEpoch {
          adopt := decision.value.fingerprint == FingerprintOf(theirs);
          basis := decision.value.basis;
        } else {
          adopt := Outranked(forkEpoch, entry, address, access);
        }
      }
      decision := Some(Decision(forkEpoch, if adopt then FingerprintOf(theirs) else FingerprintOf(state), basis));
      Complaint(fetchCursor, ForkDetail(forkEpoch, adopt, basis));
    }

    method MoveTo(theirs: ClientState, cursor: nat)
      modifies this
      ensures View() == NoteGroup(old(View()).(
                state := theirs, fetchCursor := Max(old(fetchCursor), cursor), lastCursor := Max(old(lastCursor), cursor)))
    {
      hide Note;
      state := theirs;
      fetchCursor := Max(fetchCursor, cursor);
      lastCursor := Max(lastCursor, cursor);
      var _ := NoteFingerprint();
    }

    method RecordDocument(address: Address, cursor: nat)
      modifies this`appliedDocument
      ensures View() == WithDocument(old(View()), address, cursor)
    {
      if address != NO_ADDRESS {
        appliedDocument := Some(AppliedDocument(address, cursor, FingerprintOf(state)));
      }
    }

    /** Take over the state of a document, and forget what was known about the own Commit's race. */
    method TakeOver(theirs: ClientState, address: Address, cursor: nat)
      modifies this
      ensures View() == Adopt(old(View()), theirs, address, cursor)
    {
      hide NoteGroup, WithDocument;
      MoveTo(theirs, cursor);
      RecordDocument(address, cursor);
      branch := None;
      skippedSibling := None;
      commitPoint := None;
      pending := [];
    }

    /** Keep or adopt a branch that forked from ours. */
    method Reconcile(
      mls: Mls, me: Pubkey, theirs: ClientState, forkEpoch: nat,
      entry: Document, address: Address, access: Option<Store>, fetched: Option<seq<Record>>) returns (outcome: Applied)
      requires entry.GroupDocument?
      modifies this
      ensures Reconciled(Some(View()), outcome)
           == ResolveAndAdopt(mls, me, old(View()), theirs, forkEpoch, entry, address, access, fetched)
    {
      hide Rule, Resolve, Adopt;
      var adopt := ResolveFork(mls, me, theirs, forkEpoch, entry, address, access, fetched);
      if !adopt {
        return Skipped;
      }
      TakeOver(theirs, address, entry.cursor);
      return ForkResolved;
    }

    /** Apply one document of this group. */
    method ApplyEntry(
      mls: Mls, me: Pubkey, entry: Document, address: Address, access: Option<Store>, fetched: Option<seq<Record>>)
      returns (outcome: Applied)
      requires entry.GroupDocument?
      modifies this
      ensures Reconciled(Some(View()), outcome)
           == ApplyDocument(mls, me, Some(old(View())), entry, address, access, fetched)
    {
      hide Rule, Resolve, Adopt, Note, Walk, Meet, ResolveAndAdopt;
      if entry.state.None? {
        return Skipped;
      }
      var theirs := entry.state.value;
      var fingerprint := NoteFingerprint();
      if theirs.epoch < state.epoch {
        return Skipped;
      }
      if theirs.epoch == state.epoch {
        if FingerprintOf(theirs) == fingerprint {
          if address != NO_ADDRESS && (appliedDocument.None? || entry.cursor > appliedDocument.value.cursor) {
            appliedDocument := Some(AppliedDocument(address, entry.cursor, fingerprint));
          }
          return Skipped;
        }
        outcome := Reconcile(mls, me, theirs, state.epoch, entry, address, access, fetched);
        return;
      }
      if access.Some? {
        var meets := ChainMeetsLocal(access.value, entry.prev, entry.gid, state.epoch, held);
        if meets.ForkedAt? {
          outcome := Reconcile(mls, me, theirs, meets.epoch + 1, entry, address, access, fetched);
          return;
        }
      }
      TakeOver(theirs, address, entry.cursor);
      return FastForwarded;
    }

    // -------------------------------------------------------------------
    // Group operations
    // -------------------------------------------------------------------

    /** The local state, then the states of the steps up to the first that does not decode. */
    method StatesFrom(steps: seq<ChainStep>) returns (states: seq<ClientState>)
      ensures |states| == |Usable(steps)| + 1
      ensures forall k :: 0 <= k < |states| ==> states[k] == StateFor(View(), steps, k)
    {
      states := [state];
      while |states| <= |steps| && steps[|states| - 1].state.Some?
        invariant 1 <= |states| <= |Usable(steps)| + 1
        invariant forall k :: 0 <= k < |states| ==> states[k] == StateFor(View(), steps, k)
        decreases |steps| - |states|
      {
        UsableReaches(steps, |states| - 1);
        states := states + [steps[|states| - 1].state.value];
      }
      UsableStops(steps, |states| - 1);
    }

    /** Replay the fetched gap range by range, each under the state of its chain step. */
    method ReplayChain(mls: Mls, budget: nat -> nat, steps: seq<ChainStep>, gap: seq<Record>) returns (ok: bool)
      modifies this
      ensures var b := CatchUpFromChain(mls, budget, old(View()), steps, gap); View() == b.group && ok == b.completed
    {
      hide ReceiveAll, Settle, CatchUpFrom, StateFor, Usable;
      if steps == [] {
        return true;
      }
      ghost var start := View();
      var localCursor := fetchCursor;
      var states := StatesFrom(steps);
      ghost var before: seq<Handled> := [];
      ghost var whole := CatchUpFromChain(mls, budget, start, steps, gap);
      assert before + whole.handled == whole.handled;
      var i := 0;
      while i < |states|
        invariant 0 <= i <= |states| == |Usable(steps)| + 1
        invariant AfterRanges(whole, before, CatchUpFrom(mls, budget, start, View(), steps, gap, i))
      {
        CatchUpUnfolds(mls, budget, start, View(), steps, gap, i);
        var lo, hi := Boundary(localCursor, steps, i).value, Boundary(localCursor, steps, i + 1);
        var range := Filter(gap, (r: Record) => Within(r, lo, hi));
        if range != [] {
          state := states[i];
          ghost var first := ReceiveAll(mls, View(), range);
          var fine, _ := ApplyIncoming(mls, range, budget(i));
          if !fine {
            return false;
          }
          RangesGoOn(before, first.handled, CatchUpFrom(mls, budget, start, View(), steps, gap, i + 1));
          before := before + first.handled;
        }
        i := i + 1;
      }
      CatchUpEnds(mls, budget, start, View(), steps, gap);
      return true;
    }

    predicate IsActive()
      reads this
      ensures IsActive() == Active(View())
    {
      !removed && !state.removed
    }

    /** An own application message was posted and answered. */
    method RecordSent(me: Pubkey, cursor: nat, at: nat, id: nat)
      modifies this`messages, this`lastCursor
      ensures View() == old(View()).(
                messages := old(messages) + [Message(cursor, at, true, me, id)], lastCursor := Max(old(lastCursor), cursor))
    {
      messages := messages + [Message(cursor, at, true, me, id)];
      lastCursor := Max(lastCursor, cursor);
    }

    /** Fetch past the local cursor and ingest, unless the group is watched; false when the operation ends here. */
    method CatchUpIfActive(mls: Mls, log: seq<Record>, line: Line, budget: nat) returns (go: bool)
      modifies this
      ensures var (w, on) := CatchUp(mls, World(log, old(View()), []), line, budget);
              View() == w.group && go == on && w.log == log
    {
      hide ReceiveAll, Settle;
      if !IsActive() {
        removed := true;
        return false;
      }
      if line.Watching? {
        return true;
      }
      if line.Unreachable? {
        return false;
      }
      var ok, _ := ApplyIncoming(mls, FetchAfter(log, fetchCursor), budget);
      if !ok {
        return false;
      }
      if !IsActive() {
        removed := true;
        return false;
      }
      return true;
    }

    /** What the stream of a watched group hands over, ingested in the lane. */
    method TakeStreamed(mls: Mls, me: Pubkey, log: seq<Record>, count: nat, budget: nat)
      modifies this
      ensures View() == Perform(mls, me, World(log, old(View()), []), Stream(count, budget)).group
    {
      hide ReceiveAll, Settle;
      if !IsActive() {
        removed := true;
        return;
      }
      var _, _ := ApplyIncoming(mls, Streamed(log, fetchCursor, count), budget);
    }

    /**
     * Send an application message; `log` is the coordinator's log when the
     * operation starts, `grown` the log after, with what others posted meanwhile.
     */
    method SendMessage(mls: Mls, me: Pubkey, log: seq<Record>, op: Op) returns (grown: seq<Record>)
      requires op.Send?
      modifies this
      ensures var w := Perform(mls, me, World(log, old(View()), []), op); View() == w.group && grown == w.log
    {
      hide CatchUp, Landed;
      grown := log;
      var go := CatchUpIfActive(mls, log, op.line, op.budget);
      if !go {
        return;
      }
      state := op.next;
      var landed := Landed(log, op.meanwhile);
      grown := landed;
      if op.post.NotStored? {
        return;
      }
      grown := Append(landed, op.at, op.wire);
      if op.post.Stored? {
        RecordSent(me, |landed| + 1, op.at, op.id);
      }
    }

    /** Post an own Commit and adopt its state once the post is answered. */
    method PostCommit(mls: Mls, me: Pubkey, log: seq<Record>, op: Op) returns (grown: seq<Record>)
      requires op.Commit?
      modifies this
      ensures var w := Perform(mls, me, World(log, old(View()), []), op); View() == w.group && grown == w.log
    {
      hide CatchUp, RaceLost, Note, Landed;
      grown := log;
      var go := CatchUpIfActive(mls, log, op.line, op.budget);
      if !go {
        return;
      }
      ghost var before := View();
      var queue := pending;
      pending := queue + [PendingCommit(op.commit, None, false, false)];
      var landed := Landed(log, op.meanwhile);
      grown := landed;
      if op.post.NotStored? {
        return;
      }
      grown := Append(landed, op.at, op.wire);
      if op.post.StoredUnanswered? {
        return;
      }
      var fetched := if op.raceVisible then Some(FetchAfter(grown, fetchCursor)) else None;
      AdoptCommit(mls, op.next, |landed| + 1, op.wire, fetched);
      pending := queue + [PendingCommit(op.commit, Some(op.wire), true, false)];
    }

    method Renew(joined: ClientState, after: nat)
      modifies this
      ensures View() == Renewed(old(View()), joined, after)
      ensures state == joined && !removed
    {
      state := joined;
      removed := false;
      removedAt := None;
      pending := [];
      if after > 0 {
        fetchCursor := Max(fetchCursor, after);
        lastCursor := Max(lastCursor, after);
      }
    }

    /** A Welcome for a group already held. */
    method AcceptNewer(mls: Mls, joined: ClientState, after: nat, backlog: seq<Record>, budget: nat)
      modifies this
      ensures View() == AcceptWelcome(mls, old(View()), joined, after, backlog, budget)
    {
      hide ReceiveAll, Settle, Renewed;
      if state.epoch >= joined.epoch {
        return;
      }
      Renew(joined, after);
      if !IsActive() {
        removed := true;
        return;
      }
      var _, _ := ApplyIncoming(mls, backlog, budget);
    }
  }

  /** One device: the groups it tracks, by group id. */
  class DeviceSession {
    const me: Pubkey
    var groups: map<nat, GroupSession>

    constructor (me: Pubkey)
      ensures this.me == me && groups == map[] && Valid()
    {
      this.me, groups := me, map[];
    }

    /** Different groups are different objects. */
    ghost predicate Valid()
      reads this
    {
      forall a, b | a in groups && b in groups && a != b :: groups[a] != groups[b]
    }

    ghost function Look(gid: nat): Option<Group>
      reads this, groups.Values
    {
      if gid in groups then Some(groups[gid].View()) else None
    }

    /** Apply one document: seed the group, or reconcile it; no other group is touched. */
    method ApplyDocumentEntry(
      mls: Mls, entry: Document, address: Address, access: Option<Store>, fetched: Option<seq<Record>>)
      returns (outcome: Applied)
      requires Valid() && entry.GroupDocument?
      modifies this, if entry.gid in groups then {groups[entry.gid]} else {}
      ensures Valid()
      ensures ApplyDocument(mls, me, old(Look(entry.gid)), entry, address, access, fetched)
           == Reconciled(Look(entry.gid), outcome)
      ensures forall gid | gid != entry.gid :: gid in groups <==> gid in old(groups)
      ensures forall gid | gid in groups && gid != entry.gid ::
                groups[gid] == old(groups)[gid] && groups[gid].View() == old(groups[gid].View())
    {
      hide Note;
      if entry.gid in groups {
        outcome := groups[entry.gid].ApplyEntry(mls, me, entry, address, access, fetched);
        return;
      }
      if entry.state.None? {
        return Failed;
      }
      var seeded := new GroupSession.Fresh(entry.state.value, entry.cursor);
      var _ := seeded.NoteFingerprint();
      seeded.RecordDocument(address, entry.cursor);
      groups := groups[entry.gid := seeded];
      return Seeded;
    }
  }

  lemma {:induction false} UsableReaches(steps: seq<ChainStep>, n: nat)
    requires n < |steps| && n <= |Usable(steps)| && steps[n].state.Some?
    ensures n < |Usable(steps)| && Usable(steps)[n] == steps[n]
  {
    if n > 0 {
      UsableReaches(steps[1..], n - 1);
    }
  }

  lemma UsableStops(steps: seq<ChainStep>, n: nat)
    requires n <= |Usable(steps)| && (n < |steps| ==> steps[n].state.None?)
    ensures n == |Usable(steps)|
  {
    assert forall k :: 0 <= k < |Usable(steps)| ==> steps[k] == Usable(steps)[k] && steps[k] in Usable(steps);
  }

  /** The whole catch-up ends as `rest` does. */
  ghost predicate AfterRanges(whole: Batch, before: seq<Handled>, rest: Batch) {
    whole == Batch(rest.group, before + rest.handled, rest.completed)
  }

  /** The batch `rest`, after `handled` came before it. */
  ghost function After(handled: seq<Handled>, rest: Batch): Batch {
    Batch(rest.group, handled + rest.handled, rest.completed)
  }

  lemma RangesGoOn(before: seq<Handled>, first: seq<Handled>, rest: Batch)
    ensures AfterRanges(Batch(rest.group, before + (first + rest.handled), rest.completed), before + first, rest)
  {
    assert before + (first + rest.handled) == (before + first) + rest.handled;
  }

  lemma HandleOneMore(handled: seq<Handled>, h: Handled, rest: Batch)
    ensures After(handled, Batch(rest.group, [h] + rest.handled, rest.completed)) == After(handled + [h], rest)
    ensures AllConfirms(handled + [h]) == AllConfirms(handled) + Confirms(h.did)
    ensures AllRejects(handled + [h]) == AllRejects(handled) + Rejects(h.did)
    ensures ReceivedOf(handled + [h]) == ReceivedOf(handled) + (if h.did.StoredInbound? then [h.did.message] else [])
  {
    assert handled + ([h] + rest.handled) == (handled + [h]) + rest.handled;
    ConfirmsAppend(handled, h);
    RejectsAppend(handled, h);
    ReceivedAppend(handled, [h]);
  }

  lemma {:induction false} ConfirmsAppend(handled: seq<Handled>, h: Handled)
    ensures AllConfirms(handled + [h]) == AllConfirms(handled) + Confirms(h.did)
  {
    hide Confirms;
    if handled == [] {
      assert handled + [h] == [h] && [h][1..] == [];
    } else {
      assert (handled + [h])[0] == handled[0] && (handled + [h])[1..] == handled[1..] + [h];
      ConfirmsAppend(handled[1..], h);
    }
  }

  lemma {:induction false} RejectsAppend(handled: seq<Handled>, h: Handled)
    ensures AllRejects(handled + [h]) == AllRejects(handled) + Rejects(h.did)
  {
    hide Rejects;
    if handled == [] {
      assert handled + [h] == [h] && [h][1..] == [];
    } else {
      assert (handled + [h])[0] == handled[0] && (handled + [h])[1..] == handled[1..] + [h];
      RejectsAppend(handled[1..], h);
    }
  }

  method EarlierThan(records: seq<Record>, cursor: nat, wire: Wire) returns (earlier: seq<Record>)
    ensures earlier == Earlier(records, cursor, wire)
  {
    earlier := [];
    var i := |records|;
    while i > 0
      invariant 0 <= i <= |records|
      invariant earlier == Earlier(records[i..], cursor, wire)
    {
      i := i - 1;
      assert records[i..][0] == records[i] && records[i..][1..] == records[i + 1..];
      if records[i].cursor < cursor && records[i].wire != wire {
        earlier := [records[i]] + earlier;
      }
    }
  }

  lemma {:induction false} MarkedOneByOne(pending: seq<PendingCommit>, confirms: set<Opaque>)
    ensures |MarkConfirmed(pending, confirms)| == |pending|
    ensures forall i :: 0 <= i < |pending| ==>
              MarkConfirmed(pending, confirms)[i]
                == if pending[i].commit in confirms then pending[i].(confirmed := true) else pending[i]
  {
    if pending != [] {
      MarkedOneByOne(pending[1..], confirms);
    }
  }
}
