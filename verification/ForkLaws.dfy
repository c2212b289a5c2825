/**
 * What applying one document does to a device: when a fork is seen and at which
 * epoch its branches are compared, which evidence decides it, and what the group
 * looks like afterwards. The laws speak of agreement between the chain and the
 * states the device has held, not of the walk that finds it.
 */
module ForkLaws {
  import opened Base
  import opened Mls
  import opened GroupSync
  import opened Documents
  import opened Forks
  import opened IngestLaws

  // ---------------------------------------------------------------------
  // Where the branches part
  // ---------------------------------------------------------------------

  /** The chain below a document, as far as it can be read as documents of the same group. */
  function Below(store: Store, entry: Document): seq<Link>
    requires entry.GroupDocument?
  {
    Readable(Walk(store, entry.prev, MAX_HOPS), entry.gid)
  }

  /** The fingerprints a device compares with: what it held, and what it holds now. */
  ghost function Known(g: Group): map<nat, Fingerprint> { Note(g.held, FingerprintOf(g.state)) }

  /** Chain and device agree on the state of this epoch. */
  ghost predicate AgreeOn(store: Store, g: Group, entry: Document, e: nat)
    requires entry.GroupDocument?
  {
    && e <= g.state.epoch && e in Known(g)
    && exists l :: l in Below(store, entry) && EpochOf(l) == e && FingerprintOf(l.doc.state.value) == Known(g)[e]
  }

  /** They agree at this earlier epoch, and at no later one. */
  ghost predicate PartAfter(store: Store, g: Group, entry: Document, e: nat)
    requires entry.GroupDocument?
  {
    && e < g.state.epoch && AgreeOn(store, g, entry, e)
    && forall f: nat :: e < f ==> !AgreeOn(store, g, entry, f)
  }

  lemma AgreeIsAgree(store: Store, g: Group, entry: Document, e: nat)
    requires entry.GroupDocument?
    ensures AgreeOn(store, g, entry, e)
            <==> AgreeAt(Walk(store, entry.prev, MAX_HOPS), entry.gid, g.state.epoch, Known(g), e)
  {
    hide Walk, Note;
  }

  lemma PartIsForked(store: Store, g: Group, entry: Document, e: nat)
    requires entry.GroupDocument? && EpochsFall(Below(store, entry))
    ensures PartAfter(store, g, entry, e)
            <==> Meet(Walk(store, entry.prev, MAX_HOPS), entry.gid, g.state.epoch, Known(g)) == ForkedAt(e)
  {
    forall f: nat
      ensures AgreeOn(store, g, entry, f)
              <==> AgreeAt(Walk(store, entry.prev, MAX_HOPS), entry.gid, g.state.epoch, Known(g), f)
    {
      AgreeIsAgree(store, g, entry, f);
    }
    hide Walk, Note, AgreeAt, AgreeOn;
    MeetingIsGreatestAgreement(Walk(store, entry.prev, MAX_HOPS), entry.gid, g.state.epoch, Known(g), e);
  }

  /**
   * The two branches are compared at epoch `c`: the document is of the local
   * epoch with another state, or it is newer and the last agreement is right
   * before `c`.
   */
  ghost predicate ComparedAt(store: Store, g: Group, entry: Document, c: nat)
    requires entry.GroupDocument? && entry.state.Some?
  {
    var theirs := entry.state.value;
    || (theirs.epoch == g.state.epoch == c && FingerprintOf(theirs) != FingerprintOf(g.state))
    || (theirs.epoch > g.state.epoch && c > 0 && PartAfter(store, g, entry, c - 1))
  }

  // ---------------------------------------------------------------------
  // The group afterwards
  // ---------------------------------------------------------------------

  /** The device moved to the document's state: cursors rise, what was unfinished on the old branch is dropped. */
  ghost predicate MovedTo(g: Group, after: Group, theirs: ClientState, cursor: nat, address: Address) {
    && after.state == theirs
    && after.fetchCursor == Max(g.fetchCursor, cursor) && after.lastCursor == Max(g.lastCursor, cursor)
    && after.pending == [] && after.branch.None? && after.skippedSibling.None? && after.commitPoint.None?
    && after.held == Note(Known(g), FingerprintOf(theirs))
    && after.appliedDocument == (if address == NO_ADDRESS then g.appliedDocument
                                 else Some(AppliedDocument(address, cursor, FingerprintOf(theirs))))
    && after.messages == g.messages && after.removed == g.removed && after.removedAt == g.removedAt
  }

  /** The device stays where it is: only the fork's record may be new. */
  ghost predicate StayedAt(g: Group, after: Group) {
    after == g.(held := Known(g), decision := after.decision, issues := after.issues)
  }

  /** The fork is on record: the decision names the branch kept or taken, and the complaint says the same. */
  ghost predicate OnRecord(g: Group, after: Group, theirs: ClientState, c: nat, adopted: bool, basis: Evidence) {
    && after.decision == Some(Decision(c, if adopted then FingerprintOf(theirs) else FingerprintOf(g.state), basis))
    && after.issues == g.issues + [Issue(g.fetchCursor, ForkDetail(c, adopted, basis))]
  }

  /**
   * A document of the local epoch or a newer one whose chain parts from what the
   * device has held is never fast-forwarded: the branches are compared at the
   * epoch after the last agreement, and the outcome is on record.
   */
  lemma ForkIsCompared(
    mls: Mls, me: Pubkey, g: Group, entry: Document, address: Address, store: Store, fetched: Option<seq<Record>>, c: nat)
    requires entry.GroupDocument? && entry.state.Some? && EpochsFall(Below(store, entry))
    requires ComparedAt(store, g, entry, c)
    ensures var r := ApplyDocument(mls, me, Some(g), entry, address, Some(store), fetched);
            && r.group.Some? && r.group.value.decision.Some?
            && (r.outcome.ForkResolved? || r.outcome.Skipped?)
            && OnRecord(g, r.group.value, entry.state.value, c, r.outcome.ForkResolved?, r.group.value.decision.value.basis)
            && (r.outcome.ForkResolved? ==> MovedTo(g, r.group.value, entry.state.value, entry.cursor, address))
            && (r.outcome.Skipped? ==> StayedAt(g, r.group.value))
  {
    ComparedResolves(mls, me, g, entry, address, store, fetched, c);
    hide ApplyDocument, ComparedAt, Note, Rule;
  }

  lemma ComparedResolves(
    mls: Mls, me: Pubkey, g: Group, entry: Document, address: Address, store: Store, fetched: Option<seq<Record>>, c: nat)
    requires entry.GroupDocument? && entry.state.Some? && EpochsFall(Below(store, entry))
    requires ComparedAt(store, g, entry, c)
    ensures ApplyDocument(mls, me, Some(g), entry, address, Some(store), fetched)
         == ResolveAndAdopt(mls, me, NoteGroup(g), entry.state.value, c, entry, address, Some(store), fetched)
  {
    if entry.state.value.epoch > g.state.epoch {
      PartIsForked(store, g, entry, c - 1);
    }
    hide PartAfter, Meet, Walk, Note, ResolveAndAdopt;
  }

  /**
   * A newer document is taken over without a comparison if and only if its chain
   * does not part from what the device has held: it agrees at the local epoch, or
   * nowhere at all.
   */
  lemma FastForwardedIff(
    mls: Mls, me: Pubkey, g: Group, entry: Document, address: Address, store: Store, fetched: Option<seq<Record>>)
    requires entry.GroupDocument? && entry.state.Some? && EpochsFall(Below(store, entry))
    requires entry.state.value.epoch > g.state.epoch
    ensures var r := ApplyDocument(mls, me, Some(g), entry, address, Some(store), fetched);
            && (r.outcome.FastForwarded? <==> forall e: nat :: !PartAfter(store, g, entry, e))
            && (r.outcome.FastForwarded? <==> AgreeOn(store, g, entry, g.state.epoch) || forall e: nat :: !AgreeOn(store, g, entry, e))
            && (r.outcome.FastForwarded? ==>
                  && r.group.Some? && MovedTo(g, r.group.value, entry.state.value, entry.cursor, address)
                  && r.group.value.decision == g.decision && r.group.value.issues == g.issues)
  {
    forall e: nat
      ensures PartAfter(store, g, entry, e)
              <==> Meet(Walk(store, entry.prev, MAX_HOPS), entry.gid, g.state.epoch, Known(g)) == ForkedAt(e)
      ensures AgreeOn(store, g, entry, e)
              <==> AgreeAt(Walk(store, entry.prev, MAX_HOPS), entry.gid, g.state.epoch, Known(g), e)
    {
      PartIsForked(store, g, entry, e);
      AgreeIsAgree(store, g, entry, e);
    }
    hide PartAfter, Walk, Note, AgreeAt, AgreeOn, Meet, EpochsFall, Below;
    NewerMeets(mls, me, g, entry, address, store, fetched);
    MeetingIsGreatestAgreement(Walk(store, entry.prev, MAX_HOPS), entry.gid, g.state.epoch, Known(g), 0);
    FirstAgreementIsGreatest(Walk(store, entry.prev, MAX_HOPS), entry.gid, g.state.epoch, Known(g));
    hide ApplyDocument;
  }

  lemma NewerMeets(
    mls: Mls, me: Pubkey, g: Group, entry: Document, address: Address, store: Store, fetched: Option<seq<Record>>)
    requires entry.GroupDocument? && entry.state.Some? && entry.state.value.epoch > g.state.epoch
    ensures var r := ApplyDocument(mls, me, Some(g), entry, address, Some(store), fetched);
            var met := Meet(Walk(store, entry.prev, MAX_HOPS), entry.gid, g.state.epoch, Known(g));
            && (r.outcome.FastForwarded? <==> !met.ForkedAt?)
            && (r.outcome.FastForwarded? ==>
                  && r.group.Some? && MovedTo(g, r.group.value, entry.state.value, entry.cursor, address)
                  && r.group.value.decision == g.decision && r.group.value.issues == g.issues)
  {
    hide Walk, Note, Meet, Rule;
  }

  /** Without access to the chain there is nothing to compare with: every newer document is taken over. */
  lemma UnreadableChainIsTakenOver(mls: Mls, me: Pubkey, g: Group, entry: Document, address: Address, fetched: Option<seq<Record>>)
    requires entry.GroupDocument? && entry.state.Some? && entry.state.value.epoch > g.state.epoch
    ensures var r := ApplyDocument(mls, me, Some(g), entry, address, None, fetched);
            && r.outcome.FastForwarded? && r.group.Some? && MovedTo(g, r.group.value, entry.state.value, entry.cursor, address)
            && r.group.value.decision == g.decision && r.group.value.issues == g.issues
  {
    hide Note;
  }

  /**
   * What does not compare or move a device: an older document, one that does not
   * decode, and the very state the device holds - of which only the later
   * document is remembered.
   */
  lemma QuietDocuments(
    mls: Mls, me: Pubkey, g: Group, entry: Document, address: Address, access: Option<Store>, fetched: Option<seq<Record>>)
    requires entry.GroupDocument?
    ensures var r := ApplyDocument(mls, me, Some(g), entry, address, access, fetched);
            && (entry.state.None? ==> r == Reconciled(Some(g), Skipped))
            && (entry.state.Some? && entry.state.value.epoch < g.state.epoch ==>
                  r == Reconciled(Some(g.(held := Known(g))), Skipped))
            && (entry.state.Some? && FingerprintOf(entry.state.value) == FingerprintOf(g.state) ==>
                  && r.outcome.Skipped? && r.group.Some?
                  && var after := r.group.value;
                     && after == g.(held := Known(g), appliedDocument := after.appliedDocument)
                     && after.appliedDocument
                        == if address != NO_ADDRESS && (g.appliedDocument.None? || g.appliedDocument.value.cursor < entry.cursor)
                           then Some(AppliedDocument(address, entry.cursor, FingerprintOf(g.state))) else g.appliedDocument)
  {
    hide Note, Meet, Walk, Rule;
  }

  /** A device without the group is seeded from a document that decodes, and from no other. */
  lemma SeededIff(
    mls: Mls, me: Pubkey, entry: Document, address: Address, access: Option<Store>, fetched: Option<seq<Record>>)
    requires entry.GroupDocument?
    ensures var r := ApplyDocument(mls, me, None, entry, address, access, fetched);
            && (r.outcome.Seeded? <==> entry.state.Some?) && (r.group.Some? <==> entry.state.Some?)
            && (entry.state.None? ==> r.outcome.Failed?)
            && (r.group.Some? ==>
                  && r.group.value.state == entry.state.value && !r.group.value.removed
                  && r.group.value.fetchCursor == entry.cursor && r.group.value.lastCursor == entry.cursor
                  && r.group.value.messages == [] && r.group.value.issues == [] && r.group.value.pending == []
                  && r.group.value.branch.None? && r.group.value.decision.None? && r.group.value.commitPoint.None?
                  && r.group.value.appliedDocument
                     == if address == NO_ADDRESS then None
                        else Some(AppliedDocument(address, entry.cursor, FingerprintOf(entry.state.value))))
  {
    hide Note;
  }

  // ---------------------------------------------------------------------
  // Which evidence decides
  // ---------------------------------------------------------------------

  /** What the probes say before entry `i` of a fetch; the own messages are passed over. */
  function ProbeAt(mls: Mls, probe: Group, outbound: seq<Message>, records: seq<Record>, i: nat): Group
    requires i <= |records|
    decreases i
  {
    if i == 0 then probe
    else
      var before := ProbeAt(mls, probe, outbound, records, i - 1);
      if OutboundAt(outbound, records[i - 1].cursor) || mls.open(before.state, records[i - 1].wire).None? then before
      else ReceiveOne(mls, before, records[i - 1]).group
  }

  /** The entry opens under the probe's state and cannot come from this identity: a message of another, or a new epoch. */
  predicate Speaks(mls: Mls, me: Pubkey, probe: Group, r: Record) {
    && mls.open(probe.state, r.wire).Some?
    && match Heard(mls, probe, r)
       case Some(Application(t, Some(sender), Some(event))) =>
         t.epoch != probe.state.epoch || (!t.removed && event.author == sender && sender != me)
       case Some(Application(t, _, _)) => t.epoch != probe.state.epoch
       case Some(NewState(t)) => t.epoch != probe.state.epoch
       case _ => false
  }

  /** Somebody else sealed the entry for this branch: it speaks here, and does not even open on the other. */
  predicate OneSided(mls: Mls, me: Pubkey, here: Group, there: Group, r: Record) {
    Speaks(mls, me, here, r) && mls.open(there.state, r.wire).None?
  }

  lemma SignalIsSpeech(mls: Mls, me: Pubkey, probe: Group, r: Record)
    requires probe.pending == []
    ensures var s := SignalOn(mls, me, probe, r);
            && (s.signal.Signal? <==> Speaks(mls, me, probe, r))
            && (s.signal.Closed? <==> mls.open(probe.state, r.wire).None?)
            && s.probe == (if mls.open(probe.state, r.wire).None? then probe else ReceiveOne(mls, probe, r).group)
            && s.probe.pending == []
  {
    assert FindPosted(probe.pending, r.wire) == None;
    var o := mls.open(probe.state, r.wire);
    if o.Some? {
      assert ReceiveOne(mls, probe, r) == IngestOne(mls, probe, r.cursor, r.at, o.value);
      assert FindPending(probe.pending, o.value) == None;
      SpeechInStep(mls, me, probe, r);
    }
  }

  lemma SpeechInStep(mls: Mls, me: Pubkey, probe: Group, r: Record)
    requires probe.pending == [] && mls.open(probe.state, r.wire).Some?
    ensures var step := ReceiveOne(mls, probe, r);
            && step.group.pending == []
            && (Speaks(mls, me, probe, r) <==>
                  || (step.did.Some? && step.did.value.StoredInbound? && step.did.value.message.sender != me)
                  || step.group.state.epoch != probe.state.epoch)
  {
    var step := ReceiveOne(mls, probe, r);
    if step.did.Some? {
      EntryIsTold(mls, probe, r);
    } else {
      ThrowChangesState(mls, probe, r);
    }
    hide ReceiveOne, InState, TakesOut, Complains, PassesSibling, TakesEffect, HearsQueued;
  }

  /** Which branch an entry speaks for alone; `true` names theirs. Own messages speak for none. */
  function SpeaksFor(mls: Mls, me: Pubkey, ours: Group, other: Group, outbound: seq<Message>, r: Record): Option<bool> {
    if OutboundAt(outbound, r.cursor) then None
    else if OneSided(mls, me, other, ours, r) then Some(true)
    else if OneSided(mls, me, ours, other, r) then Some(false)
    else None
  }

  /** The same of entry `i`, met by the two probes after the entries before it. */
  function SpeaksForAt(
    mls: Mls, me: Pubkey, ours: Group, other: Group, outbound: seq<Message>, records: seq<Record>, i: nat): Option<bool>
    requires i < |records|
  {
    SpeaksFor(mls, me, ProbeAt(mls, ours, outbound, records, i), ProbeAt(mls, other, outbound, records, i), outbound, records[i])
  }

  lemma {:induction false} ProbeAtShift(mls: Mls, probe: Group, outbound: seq<Message>, records: seq<Record>, i: nat)
    requires i < |records|
    ensures ProbeAt(mls, probe, outbound, records, i + 1)
         == ProbeAt(mls, ProbeAt(mls, probe, outbound, records, 1), outbound, records[1..], i)
    decreases i
  {
    hide ReceiveOne;
    if i > 0 {
      ProbeAtShift(mls, probe, outbound, records, i - 1);
      assert records[1..][i - 1] == records[i];
    }
  }

  lemma SpeaksForShift(
    mls: Mls, me: Pubkey, ours: Group, other: Group, outbound: seq<Message>, records: seq<Record>, i: nat)
    requires i + 1 < |records|
    ensures SpeaksForAt(mls, me, ours, other, outbound, records, i + 1)
         == SpeaksForAt(mls, me, ProbeAt(mls, ours, outbound, records, 1), ProbeAt(mls, other, outbound, records, 1),
                        outbound, records[1..], i)
  {
    hide ProbeAt, SpeaksFor;
    ProbeAtShift(mls, ours, outbound, records, i);
    ProbeAtShift(mls, other, outbound, records, i);
  }

  lemma VerdictCons(mls: Mls, me: Pubkey, ours: Group, other: Group, outbound: seq<Message>, records: seq<Record>)
    requires ours.pending == [] && other.pending == [] && records != []
    ensures var a, b := ProbeAt(mls, ours, outbound, records, 1), ProbeAt(mls, other, outbound, records, 1);
            && a.pending == [] && b.pending == []
            && Verdict(mls, me, ours, other, outbound, records)
               == match SpeaksForAt(mls, me, ours, other, outbound, records, 0)
                  case Some(v) => Some(v)
                  case None => Verdict(mls, me, a, b, outbound, records[1..])
  {
    SignalIsSpeech(mls, me, ours, records[0]);
    SignalIsSpeech(mls, me, other, records[0]);
    FirstProbe(mls, ours, outbound, records);
    FirstProbe(mls, other, outbound, records);
    hide ReceiveOne, SignalOn, Speaks, ProbeAt;
  }

  lemma FirstProbe(mls: Mls, probe: Group, outbound: seq<Message>, records: seq<Record>)
    requires records != []
    ensures ProbeAt(mls, probe, outbound, records, 0) == probe
    ensures ProbeAt(mls, probe, outbound, records, 1)
         == if OutboundAt(outbound, records[0].cursor) || mls.open(probe.state, records[0].wire).None? then probe
            else ReceiveOne(mls, probe, records[0]).group
  {
    hide ReceiveOne;
  }

  /** Entry `i` speaks for one branch alone, and no earlier entry does so for either. */
  ghost predicate DecidesAt(
    mls: Mls, me: Pubkey, ours: Group, other: Group, outbound: seq<Message>, records: seq<Record>, i: nat, theirs: bool)
  {
    && i < |records| && SpeaksForAt(mls, me, ours, other, outbound, records, i) == Some(theirs)
    && forall j: nat :: j < i ==> SpeaksForAt(mls, me, ours, other, outbound, records, j).None?
  }

  lemma DecidesAtShift(
    mls: Mls, me: Pubkey, ours: Group, other: Group, outbound: seq<Message>, records: seq<Record>, i: nat, theirs: bool)
    requires records != [] && SpeaksForAt(mls, me, ours, other, outbound, records, 0).None?
    ensures DecidesAt(mls, me, ours, other, outbound, records, i + 1, theirs)
            <==> DecidesAt(mls, me, ProbeAt(mls, ours, outbound, records, 1), ProbeAt(mls, other, outbound, records, 1),
                           outbound, records[1..], i, theirs)
  {
    hide ProbeAt, SpeaksForAt;
    var a, b := ProbeAt(mls, ours, outbound, records, 1), ProbeAt(mls, other, outbound, records, 1);
    forall j: nat | j + 1 < |records|
      ensures SpeaksForAt(mls, me, ours, other, outbound, records, j + 1) == SpeaksForAt(mls, me, a, b, outbound, records[1..], j)
    {
      SpeaksForShift(mls, me, ours, other, outbound, records, j);
    }
    if DecidesAt(mls, me, ours, other, outbound, records, i + 1, theirs) {
      forall j: nat | j < i
        ensures SpeaksForAt(mls, me, a, b, outbound, records[1..], j).None?
      {
        assert SpeaksForAt(mls, me, ours, other, outbound, records, j + 1).None?;
      }
    }
    if DecidesAt(mls, me, a, b, outbound, records[1..], i, theirs) {
      forall j: nat | j < i + 1
        ensures SpeaksForAt(mls, me, ours, other, outbound, records, j).None?
      {
        if j > 0 {
          assert SpeaksForAt(mls, me, a, b, outbound, records[1..], j - 1).None?;
          assert SpeaksForAt(mls, me, ours, other, outbound, records, j - 1 + 1).None?;
        }
      }
    }
  }

  /**
   * The third-party verdict names a branch if and only if some entry speaks for
   * it alone and no earlier entry speaks for either branch alone.
   */
  lemma {:induction false} VerdictIsFirstOneSided(
    mls: Mls, me: Pubkey, ours: Group, other: Group, outbound: seq<Message>, records: seq<Record>, theirs: bool)
    requires ours.pending == [] && other.pending == []
    ensures Verdict(mls, me, ours, other, outbound, records) == Some(theirs)
            <==> exists i: nat :: DecidesAt(mls, me, ours, other, outbound, records, i, theirs)
    decreases records
  {
    hide ProbeAt, SpeaksForAt;
    if records != [] {
      var a, b := ProbeAt(mls, ours, outbound, records, 1), ProbeAt(mls, other, outbound, records, 1);
      VerdictCons(mls, me, ours, other, outbound, records);
      VerdictIsFirstOneSided(mls, me, a, b, outbound, records[1..], theirs);
      hide Verdict;
      var first := SpeaksForAt(mls, me, ours, other, outbound, records, 0);
      if first.Some? {
        assert DecidesAt(mls, me, ours, other, outbound, records, 0, first.value);
      } else {
        assert !DecidesAt(mls, me, ours, other, outbound, records, 0, theirs);
        if i: nat :| DecidesAt(mls, me, ours, other, outbound, records, i, theirs) {
          DecidesAtShift(mls, me, ours, other, outbound, records, i - 1, theirs);
          assert DecidesAt(mls, me, a, b, outbound, records[1..], i - 1, theirs);
        }
        if i: nat :| DecidesAt(mls, me, a, b, outbound, records[1..], i, theirs) {
          DecidesAtShift(mls, me, ours, other, outbound, records, i, theirs);
          assert DecidesAt(mls, me, ours, other, outbound, records, i + 1, theirs);
        }
      }
    }
  }

  /** The fetch, if it succeeded, has an entry that decides for this branch. */
  ghost predicate Voices(mls: Mls, me: Pubkey, g: Group, theirs: ClientState, fetched: Option<seq<Record>>, forTheirs: bool) {
    fetched.Some? && exists i: nat ::
      DecidesAt(mls, me, Probe(NoteGroup(g), g.state), Probe(NoteGroup(g), theirs), g.messages, fetched.value, i, forTheirs)
  }

  /** A decision for this very fork is on record. */
  predicate DecidedAt(g: Group, c: nat) { g.decision.Some? && g.decision.value.epoch == c }

  /** Their branch has its Commit first: by the cursors on the two chains, if both show one, else by the live documents. */
  ghost predicate TheirsFirst(store: Store, g: Group, entry: Document, address: Address, c: nat)
    requires entry.GroupDocument?
  {
    var theirs := if address == NO_ADDRESS then None else LowestAt(WalkFrom(store, Some(entry), address), c);
    var ours := OwnPlace(g, c, store);
    if theirs.Some? && ours.Some? then
      || theirs.value.cursor < ours.value.cursor
      || (theirs.value.cursor == ours.value.cursor && theirs.value.address > ours.value.address)
    else
      || g.appliedDocument.None? || address == NO_ADDRESS
      || g.appliedDocument.value.cursor < entry.cursor
      || (g.appliedDocument.value.cursor == entry.cursor && g.appliedDocument.value.address < address)
  }

  /**
   * Which evidence decides a comparison, strongest first: the marker of an own
   * race, whatever else there is; without one the third parties; without either
   * the decision on record for that epoch; and the rank of the branches last.
   * The basis on record is the evidence that decided.
   */
  lemma EvidenceInOrder(
    mls: Mls, me: Pubkey, g: Group, entry: Document, address: Address, store: Store, fetched: Option<seq<Record>>, c: nat)
    requires entry.GroupDocument? && entry.state.Some? && EpochsFall(Below(store, entry))
    requires ComparedAt(store, g, entry, c)
    ensures var theirs := entry.state.value;
            var r := ApplyDocument(mls, me, Some(g), entry, address, Some(store), fetched);
            && r.group.Some? && r.group.value.decision.Some?
            && var taken, basis := r.outcome.ForkResolved?, r.group.value.decision.value.basis;
               if g.branch.Some? then (taken <==> g.branch.value.dead) && basis == CoordinatorOrder
               else if Voices(mls, me, g, theirs, fetched, true) then taken && basis == ThirdParty
               else if Voices(mls, me, g, theirs, fetched, false) then !taken && basis == ThirdParty
               else if DecidedAt(g, c) then
                 (taken <==> g.decision.value.fingerprint == FingerprintOf(theirs)) && basis == g.decision.value.basis
               else (taken <==> TheirsFirst(store, g, entry, address, c)) && basis == Rank
  {
    hide ApplyDocument, ComparedAt, ThirdPartyVerdict, Voices, Note, RankBranches, TheirsFirst;
    ComparedResolves(mls, me, g, entry, address, store, fetched, c);
    VerdictIsVoice(mls, me, g, entry.state.value, fetched);
    RankIsOrder(g, c, entry, address, store);
  }

  lemma RankIsOrder(g: Group, c: nat, entry: Document, address: Address, store: Store)
    requires entry.GroupDocument?
    ensures RankBranches(NoteGroup(g), c, entry, address, Some(store)) <==> TheirsFirst(store, g, entry, address, c)
  {
    hide Note, LowestAt, WalkFrom, OwnPlace;
    NotingIsNoPlace(g, c, store);
  }

  lemma NotingIsNoPlace(g: Group, c: nat, store: Store)
    ensures OwnPlace(NoteGroup(g), c, store) == OwnPlace(g, c, store)
  {
    hide Note;
  }

  lemma TwoAnswers(v: Option<bool>)
    ensures v.None? || v == Some(true) || v == Some(false)
  {
    match v {
      case None =>
      case Some(b) =>
        if b {
          assert v == Some(true);
        } else {
          assert v == Some(false);
        }
    }
  }

  lemma VerdictIsVoice(mls: Mls, me: Pubkey, g: Group, theirs: ClientState, fetched: Option<seq<Record>>)
    ensures var v := ThirdPartyVerdict(mls, me, NoteGroup(g), theirs, fetched);
            && (Voices(mls, me, g, theirs, fetched, true) <==> v == Some(true))
            && (Voices(mls, me, g, theirs, fetched, false) <==> v == Some(false))
            && (v.None? || v == Some(true) || v == Some(false))
  {
    hide DecidesAt, Verdict, Note;
    if fetched.Some? {
      var ours, other := Probe(NoteGroup(g), g.state), Probe(NoteGroup(g), theirs);
      var v := Verdict(mls, me, ours, other, g.messages, fetched.value);
      assert ThirdPartyVerdict(mls, me, NoteGroup(g), theirs, fetched) == v;
      TwoAnswers(v);
      VerdictIsFirstOneSided(mls, me, ours, other, g.messages, fetched.value, true);
      VerdictIsFirstOneSided(mls, me, ours, other, g.messages, fetched.value, false);
      assert Voices(mls, me, g, theirs, fetched, true) <==> v == Some(true);
      assert Voices(mls, me, g, theirs, fetched, false) <==> v == Some(false);
    }
  }

  /** The device holds the state of this document, and no commit point of its own. */
  predicate HoldsDocument(store: Store, g: Group, doc: Document, address: Address) {
    && address != NO_ADDRESS && address in store && store[address] == doc && doc.GroupDocument?
    && g.commitPoint.None?
    && g.appliedDocument.Some? && g.appliedDocument.value.address == address && g.appliedDocument.value.cursor == doc.cursor
  }

  /** Two devices that each hold the document the other is handed rank the branches alike. */
  lemma RankersAgree(store: Store, p: Group, q: Group, a: Document, x: Address, b: Document, y: Address, c: nat)
    requires HoldsDocument(store, p, a, x) && HoldsDocument(store, q, b, y)
    requires var theirs, ours := LowestAt(Walk(store, x, MAX_HOPS), c), LowestAt(Walk(store, y, MAX_HOPS), c);
             if theirs.Some? && ours.Some? then theirs != ours else a.cursor != b.cursor || x != y
    ensures RankBranches(p, c, b, y, Some(store)) <==> !RankBranches(q, c, a, x, Some(store))
  {
    WalkHead(store, x, MAX_HOPS);
    WalkHead(store, y, MAX_HOPS);
    hide Walk, Onward, LowestAt;
  }

  /** The place of the own branch is the lowest cursor of that epoch on its chain and at its commit point. */
  lemma OwnPlaceIsLowest(g: Group, c: nat, store: Store)
    ensures var p := OwnPlace(g, c, store);
            var onChain := if g.appliedDocument.None? then []
                           else Reach(Walk(store, g.appliedDocument.value.address, MAX_HOPS), c);
            var atPoint := g.commitPoint.Some? && g.commitPoint.value.epoch == c;
            && (p.None? <==> !atPoint && forall l | l in onChain :: EpochOf(l) != c)
            && (p.Some? ==>
                  && (atPoint ==> p.value.cursor <= g.commitPoint.value.cursor)
                  && (forall l | l in onChain && EpochOf(l) == c :: p.value.cursor <= l.doc.cursor)
                  && ((atPoint && p.value == Placed(g.commitPoint.value.cursor, NO_ADDRESS))
                      || exists l :: l in onChain && EpochOf(l) == c && p.value == Placed(l.doc.cursor, l.address)))
  {
    if g.appliedDocument.Some? {
      LowestAtIsMinimum(Walk(store, g.appliedDocument.value.address, MAX_HOPS), c);
    }
    hide Reach, Walk, LowestAt;
  }
}
