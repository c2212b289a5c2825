/**
 * The same race, long afterwards: both branches have moved on, and documents of
 * any later epoch of either branch reach a device. When the branches are compared
 * at the epoch of the race, a device on the first branch stays on it and one on
 * the second ends on the first; when they are not is said exactly.
 */
module LaterForks {
  import opened Base
  import opened Mls
  import opened GroupSync
  import opened Documents
  import opened Forks
  import opened ForkLaws
  import opened ForkConvergence

  /** A race and what became of it: the fingerprint of every epoch, before the race and on either branch. */
  datatype Fork = Fork(race: Race, trunk: nat -> Fingerprint, first: nat -> Fingerprint, second: nat -> Fingerprint)

  /** The epoch before the race. */
  function Root(f: Fork): nat { f.race.base.epoch }

  /** The fingerprint of epoch `n` as one branch has it. */
  function On(f: Fork, first: bool, n: nat): Fingerprint {
    if n <= Root(f) then f.trunk(n) else if first then f.first(n) else f.second(n)
  }

  ghost predicate IsFork(f: Fork) {
    && IsRace(f.race)
    && f.trunk(Root(f)) == f.race.base && f.first(Root(f) + 1) == f.race.a && f.second(Root(f) + 1) == f.race.b
    && (forall n: nat :: f.trunk(n).epoch == n)
    && (forall n: nat :: f.first(n).epoch == n)
    && (forall n: nat :: f.second(n).epoch == n)
    && (forall n: nat :: n > Root(f) ==> f.first(n) != f.second(n))
  }

  /** A state past the race, on one branch. */
  ghost predicate OnLine(f: Fork, first: bool, fp: Fingerprint) { fp.epoch > Root(f) && fp == On(f, first, fp.epoch) }

  /** A document of one branch, of any epoch past the race, with the branch's Commit on its chain. */
  ghost predicate OfLine(f: Fork, store: Store, d: Delivery, first: bool) {
    && d.address != NO_ADDRESS && d.address in store && store[d.address] == d.doc
    && d.doc.GroupDocument? && d.doc.state.Some?
    && OnLine(f, first, FingerprintOf(d.doc.state.value))
    && LowestAt(Walk(store, d.address, MAX_HOPS), Root(f) + 1).Some?
    && LowestAt(Walk(store, d.address, MAX_HOPS), Root(f) + 1).value.cursor == CursorOf(f.race, first)
    && EpochsFall(Below(store, d.doc))
    && forall l | l in Below(store, d.doc) :: FingerprintOf(l.doc.state.value) == On(f, first, EpochOf(l))
  }

  /** Nobody but the shared leaf speaks on the second branch, at whatever epoch. */
  ghost predicate AllFollowFirst(mls: Mls, me: Pubkey, f: Fork, fetched: Option<seq<Record>>) {
    fetched.Some? ==> forall rec, n: nat | rec in fetched.value && n > Root(f) :: SilentAt(mls, me, f.second(n), rec)
  }

  /** The decision about this race, if there is one, is for the first branch - and there is none on the second. */
  ghost predicate Decided(f: Fork, g: Group, first: bool) {
    DecidedAt(g, Root(f) + 1) ==> first && OnLine(f, true, g.decision.value.fingerprint)
  }

  /** A device on one branch, at any epoch past the race. */
  ghost predicate OnBranch(f: Fork, store: Store, g: Group, first: bool) {
    && OnLine(f, first, FingerprintOf(g.state))
    && Honest(g.branch, first)
    && Decided(f, g, first)
    && OwnPlace(g, Root(f) + 1, store).Some?
    && OwnPlace(g, Root(f) + 1, store).value.cursor == CursorOf(f.race, first)
  }

  function EpochOfDoc(d: Delivery): nat
    requires d.doc.GroupDocument? && d.doc.state.Some?
  {
    d.doc.state.value.epoch
  }

  // ---------------------------------------------------------------------
  // One document
  // ---------------------------------------------------------------------

  /** Taking over a document of a branch puts the device on it, with the Commit's place on record. */
  lemma TakingOverLands(f: Fork, store: Store, g: Group, d: Delivery, first: bool, after: Group)
    requires IsFork(f) && OfLine(f, store, d, first) && MovedTo(g, after, d.doc.state.value, d.doc.cursor, d.address)
    requires Decided(f, after, first)
    ensures OnBranch(f, store, after, first)
  {
    hide OnLine, LowestAt, Walk, Below, On, IsFork;
  }

  /** On a chain shared with nobody else the verdict cannot name the second branch. */
  lemma VoicesAreForFirst(mls: Mls, me: Pubkey, f: Fork, g: Group, theirs: ClientState, fetched: Option<seq<Record>>, onFirst: bool)
    requires IsFork(f) && EpochNamesContext(mls) && AllFollowFirst(mls, me, f, fetched)
    requires OnLine(f, onFirst, FingerprintOf(g.state)) && OnLine(f, !onFirst, FingerprintOf(theirs))
    ensures !Voices(mls, me, g, theirs, fetched, onFirst)
  {
    hide SilentAt, AllFollowFirst, Verdict, Voices, Note, IsFork;
    VerdictIsVoice(mls, me, g, theirs, fetched);
    if fetched.Some? {
      var fp := FingerprintOf(if onFirst then theirs else g.state);
      SecondIsSilent(mls, me, f, fp, fetched.value);
      VerdictSparesTheSilent(mls, me, Probe(NoteGroup(g), g.state), Probe(NoteGroup(g), theirs), g.messages, fetched.value, fp);
      assert ThirdPartyVerdict(mls, me, NoteGroup(g), theirs, fetched)
          == Verdict(mls, me, Probe(NoteGroup(g), g.state), Probe(NoteGroup(g), theirs), g.messages, fetched.value);
    }
  }

  lemma SecondIsSilent(mls: Mls, me: Pubkey, f: Fork, fp: Fingerprint, records: seq<Record>)
    requires AllFollowFirst(mls, me, f, Some(records)) && OnLine(f, false, fp)
    ensures forall rec | rec in records :: SilentAt(mls, me, fp, rec)
  {
    hide SilentAt;
  }

  /**
   * When the branches are compared at the epoch of the race, every tier names the
   * branch of the first Commit: a device on it stays, one on the other moves over.
   */
  lemma ComparedAtRace(mls: Mls, me: Pubkey, f: Fork, store: Store, g: Group, d: Delivery, onFirst: bool)
    requires IsFork(f) && EpochNamesContext(mls) && AllFollowFirst(mls, me, f, d.fetched)
    requires OnBranch(f, store, g, onFirst) && OfLine(f, store, d, !onFirst)
    requires ComparedAt(store, g, d.doc, Root(f) + 1)
    ensures var r := ApplyDocument(mls, me, Some(g), d.doc, d.address, Some(store), d.fetched);
            && (r.outcome.ForkResolved? <==> !onFirst) && (r.outcome.Skipped? <==> onFirst)
            && r.group.Some? && OnBranch(f, store, r.group.value, true)
  {
    var theirs, c := d.doc.state.value, Root(f) + 1;
    var r := ApplyDocument(mls, me, Some(g), d.doc, d.address, Some(store), d.fetched);
    ForkIsCompared(mls, me, g, d.doc, d.address, store, d.fetched, c);
    EvidenceInOrder(mls, me, g, d.doc, d.address, store, d.fetched, c);
    VoicesAreForFirst(mls, me, f, g, theirs, d.fetched, onFirst);
    RankFollowsFirst(f, store, g, d, onFirst);
    LinesDiffer(f, g, theirs, onFirst);
    hide ApplyDocument, Voices, TheirsFirst, ComparedAt, OfLine, OnLine, AllFollowFirst;
    if onFirst {
      StayingKeeps(f, store, g, r.group.value, true);
    } else {
      TakingOverLands(f, store, g, d, true, r.group.value);
    }
  }

  /** A decision for the first branch never names the second's document, and the lines never meet. */
  lemma LinesDiffer(f: Fork, g: Group, theirs: ClientState, onFirst: bool)
    requires IsFork(f) && OnLine(f, onFirst, FingerprintOf(g.state)) && OnLine(f, !onFirst, FingerprintOf(theirs))
    ensures FingerprintOf(theirs) != FingerprintOf(g.state)
    ensures onFirst ==> !OnLine(f, true, FingerprintOf(theirs))
    ensures !onFirst ==> OnLine(f, true, FingerprintOf(theirs))
    ensures onFirst ==> OnLine(f, true, FingerprintOf(g.state))
  {
  }

  lemma StayingKeeps(f: Fork, store: Store, g: Group, after: Group, first: bool)
    requires OnBranch(f, store, g, first) && StayedAt(g, after) && Decided(f, after, first)
    ensures OnBranch(f, store, after, first)
  {
    hide OnLine, LowestAt, Walk, Note;
  }

  lemma RankFollowsFirst(f: Fork, store: Store, g: Group, d: Delivery, onFirst: bool)
    requires IsFork(f) && OnBranch(f, store, g, onFirst) && OfLine(f, store, d, !onFirst)
    ensures TheirsFirst(store, g, d.doc, d.address, Root(f) + 1) <==> !onFirst
  {
    WalkFromHead(store, d.doc, d.address, MAX_HOPS);
    hide OnLine, LowestAt, Walk, WalkFrom, OwnPlace, On;
  }

  predicate OlderThan(g: Group, d: Delivery)
    requires d.doc.GroupDocument? && d.doc.state.Some?
  {
    d.doc.state.value.epoch < g.state.epoch
  }

  lemma OlderIsPassed(mls: Mls, me: Pubkey, f: Fork, store: Store, g: Group, d: Delivery, onFirst: bool)
    requires OnBranch(f, store, g, onFirst) && d.doc.GroupDocument? && d.doc.state.Some? && OlderThan(g, d)
    ensures var r := ApplyDocument(mls, me, Some(g), d.doc, d.address, Some(store), d.fetched);
            r.outcome.Skipped? && r.group.Some? && OnBranch(f, store, r.group.value, onFirst)
  {
    hide ApplyDocument, OnLine, Note, OwnPlace;
    QuietDocuments(mls, me, g, d.doc, d.address, Some(store), d.fetched);
    StayingKeeps(f, store, g, g.(held := Known(g)), onFirst);
  }

  /** The document of the very state the device holds: at most the record of the document moves on, along the branch. */
  lemma SameStateKeeps(mls: Mls, me: Pubkey, f: Fork, store: Store, g: Group, d: Delivery, first: bool)
    requires OnBranch(f, store, g, first) && OfLine(f, store, d, first) && d.doc.state.value.epoch == g.state.epoch
    ensures var r := ApplyDocument(mls, me, Some(g), d.doc, d.address, Some(store), d.fetched);
            r.group.Some? && OnBranch(f, store, r.group.value, first)
  {
    assert FingerprintOf(d.doc.state.value) == FingerprintOf(g.state);
    hide ApplyDocument, OnLine, Note, LowestAt, Walk, Below;
    QuietDocuments(mls, me, g, d.doc, d.address, Some(store), d.fetched);
  }

  /** A newer document of the own branch: taken over, or compared within the branch; either way the branch is kept. */
  lemma NewerOfOwnKeeps(mls: Mls, me: Pubkey, f: Fork, store: Store, g: Group, d: Delivery, first: bool)
    requires IsFork(f) && OnBranch(f, store, g, first) && OfLine(f, store, d, first) && d.doc.state.value.epoch > g.state.epoch
    requires first || !ComparedAt(store, g, d.doc, Root(f) + 1)
    ensures var r := ApplyDocument(mls, me, Some(g), d.doc, d.address, Some(store), d.fetched);
            r.group.Some? && OnBranch(f, store, r.group.value, first)
  {
    hide ApplyDocument, OnLine, Note, LowestAt, Walk, Below, PartAfter, AgreeOn, IsFork, OwnPlace;
    var r := ApplyDocument(mls, me, Some(g), d.doc, d.address, Some(store), d.fetched);
    FastForwardedIff(mls, me, g, d.doc, d.address, store, d.fetched);
    if r.outcome.FastForwarded? {
      TakingOverLands(f, store, g, d, first, r.group.value);
    } else {
      var e: nat :| PartAfter(store, g, d.doc, e);
      ForkIsCompared(mls, me, g, d.doc, d.address, store, d.fetched, e + 1);
      hide ComparedAt;
      if r.outcome.ForkResolved? {
        TakingOverLands(f, store, g, d, first, r.group.value);
      } else {
        StayingKeeps(f, store, g, r.group.value, first);
      }
    }
  }

  /**
   * Under this condition, which can be checked before a document is applied, the
   * race decides: a document of the other branch that is not older is compared at
   * the epoch of the race, and on the second branch no document of the branch itself is.
   */
  ghost predicate Fair(f: Fork, store: Store, g: Group, d: Delivery, onFirst: bool, first: bool)
    requires d.doc.GroupDocument? && d.doc.state.Some?
  {
    || OlderThan(g, d)
    || (if first == onFirst then onFirst || !ComparedAt(store, g, d.doc, Root(f) + 1)
        else ComparedAt(store, g, d.doc, Root(f) + 1))
  }

  /**
   * One document of either branch and any later epoch, fairly compared: a device
   * on the first branch stays on it; one on the second moves over to the first
   * with the first document of it that is not older than its own state.
   */
  lemma LaterDocumentMoves(mls: Mls, me: Pubkey, f: Fork, store: Store, g: Group, d: Delivery, onFirst: bool, first: bool)
    requires IsFork(f) && EpochNamesContext(mls) && AllFollowFirst(mls, me, f, d.fetched)
    requires OnBranch(f, store, g, onFirst) && OfLine(f, store, d, first) && Fair(f, store, g, d, onFirst, first)
    ensures var r := ApplyDocument(mls, me, Some(g), d.doc, d.address, Some(store), d.fetched);
            r.group.Some? && OnBranch(f, store, r.group.value, onFirst || (first && !OlderThan(g, d)))
  {
    hide ApplyDocument, OnBranch, ComparedAt, AllFollowFirst, IsFork;
    if OlderThan(g, d) {
      OlderIsPassed(mls, me, f, store, g, d, onFirst);
    } else if first != onFirst {
      ComparedAtRace(mls, me, f, store, g, d, onFirst);
    } else if d.doc.state.value.epoch == g.state.epoch {
      SameStateKeeps(mls, me, f, store, g, d, first);
    } else {
      NewerOfOwnKeeps(mls, me, f, store, g, d, first);
    }
  }

  // ---------------------------------------------------------------------
  // Any list of documents
  // ---------------------------------------------------------------------

  ghost predicate AtFork(f: Fork, store: Store, local: Option<Group>, side: Side) {
    match side
    case Absent => local.None?
    case AtBase => local.Some? && FingerprintOf(local.value.state) == f.race.base && !DecidedAt(local.value, Root(f) + 1)
    case First => local.Some? && OnBranch(f, store, local.value, true)
    case Second => local.Some? && OnBranch(f, store, local.value, false)
  }

  /** The same condition for a device on any side; at the base state nothing may be compared. */
  ghost predicate FairFor(f: Fork, store: Store, local: Option<Group>, side: Side, m: Marked)
    requires m.delivery.doc.GroupDocument? && m.delivery.doc.state.Some?
  {
    match side
    case Absent => true
    case AtBase => local.Some? && forall e: nat :: !PartAfter(store, local.value, m.delivery.doc, e)
    case First => local.Some? && Fair(f, store, local.value, m.delivery, true, m.first)
    case Second => local.Some? && Fair(f, store, local.value, m.delivery, false, m.first)
  }

  predicate Outdated(local: Option<Group>, d: Delivery)
    requires d.doc.GroupDocument? && d.doc.state.Some?
  {
    local.Some? && OlderThan(local.value, d)
  }

  function SideAfter(local: Option<Group>, side: Side, m: Marked): Side
    requires m.delivery.doc.GroupDocument? && m.delivery.doc.state.Some?
  {
    match side
    case First => First
    case Second => if m.first && !Outdated(local, m.delivery) then First else Second
    case _ => if m.first then First else Second
  }

  lemma SeededLands(mls: Mls, me: Pubkey, f: Fork, store: Store, d: Delivery, first: bool)
    requires IsFork(f) && OfLine(f, store, d, first)
    ensures var r := ApplyDocument(mls, me, None, d.doc, d.address, Some(store), d.fetched);
            r.group.Some? && OnBranch(f, store, r.group.value, first)
  {
    SeededIff(mls, me, d.doc, d.address, Some(store), d.fetched);
    hide ApplyDocument, LowestAt, Walk, Below, On, IsFork;
  }

  lemma BaseLands(mls: Mls, me: Pubkey, f: Fork, store: Store, g: Group, d: Delivery, first: bool)
    requires IsFork(f) && OfLine(f, store, d, first) && AtFork(f, store, Some(g), AtBase)
    requires forall e: nat :: !PartAfter(store, g, d.doc, e)
    ensures var r := ApplyDocument(mls, me, Some(g), d.doc, d.address, Some(store), d.fetched);
            r.group.Some? && OnBranch(f, store, r.group.value, first)
  {
    assert d.doc.state.value.epoch > g.state.epoch;
    hide ApplyDocument, LowestAt, Walk, Below, PartAfter, AgreeOn, IsFork, OnLine, Note;
    FastForwardedIff(mls, me, g, d.doc, d.address, store, d.fetched);
    var r := ApplyDocument(mls, me, Some(g), d.doc, d.address, Some(store), d.fetched);
    TakingOverLands(f, store, g, d, first, r.group.value);
  }

  lemma LaterDeliveryMoves(mls: Mls, me: Pubkey, f: Fork, store: Store, local: Option<Group>, side: Side, m: Marked)
    requires IsFork(f) && EpochNamesContext(mls) && AllFollowFirst(mls, me, f, m.delivery.fetched)
    requires AtFork(f, store, local, side) && OfLine(f, store, m.delivery, m.first) && FairFor(f, store, local, side, m)
    ensures AtFork(f, store, Apply(mls, me, store, local, m.delivery), SideAfter(local, side, m))
  {
    hide ApplyDocument, OnBranch, PartAfter, AllFollowFirst, IsFork, Fair;
    match side {
      case Absent => SeededLands(mls, me, f, store, m.delivery, m.first);
      case AtBase => BaseLands(mls, me, f, store, local.value, m.delivery, m.first);
      case First => LaterDocumentMoves(mls, me, f, store, local.value, m.delivery, true, m.first);
      case Second => LaterDocumentMoves(mls, me, f, store, local.value, m.delivery, false, m.first);
    }
  }

  /** Every document of the list is of one of the branches and, when it arrives, fairly compared. */
  ghost predicate AllFair(mls: Mls, me: Pubkey, f: Fork, store: Store, local: Option<Group>, side: Side, deliveries: seq<Marked>)
    decreases deliveries
  {
    deliveries != [] ==>
      var m := deliveries[0];
      && OfLine(f, store, m.delivery, m.first) && AllFollowFirst(mls, me, f, m.delivery.fetched)
      && FairFor(f, store, local, side, m)
      && AllFair(mls, me, f, store, Apply(mls, me, store, local, m.delivery), SideAfter(local, side, m), deliveries[1..])
  }

  /** Some document of the first branch is not older than the device's state when it arrives. */
  ghost predicate SeesFirst(mls: Mls, me: Pubkey, store: Store, local: Option<Group>, deliveries: seq<Marked>)
    decreases deliveries
  {
    deliveries != [] &&
      var m := deliveries[0];
      || (m.first && !(m.delivery.doc.GroupDocument? && m.delivery.doc.state.Some? && Outdated(local, m.delivery)))
      || SeesFirst(mls, me, store, Apply(mls, me, store, local, m.delivery), deliveries[1..])
  }

  /**
   * Documents of the two branches, of any later epochs, in any order and any
   * number of times, each fairly compared: whoever was on the first branch, or
   * saw a document of it that was not out of date, is on it in the end.
   */
  lemma {:induction false} LaterDocumentsConverge(
    mls: Mls, me: Pubkey, f: Fork, store: Store, local: Option<Group>, side: Side, deliveries: seq<Marked>)
    requires IsFork(f) && EpochNamesContext(mls)
    requires AtFork(f, store, local, side) && AllFair(mls, me, f, store, local, side, deliveries)
    ensures side.First? || SeesFirst(mls, me, store, local, deliveries) ==>
              var end := ApplyAll(mls, me, store, local, deliveries);
              end.Some? && OnBranch(f, store, end.value, true)
    ensures !side.First? && !SeesFirst(mls, me, store, local, deliveries) && deliveries != [] ==>
              var end := ApplyAll(mls, me, store, local, deliveries);
              end.Some? && OnBranch(f, store, end.value, false)
    decreases deliveries
  {
    hide IsFork, AllFollowFirst, FairFor, Apply, OnBranch, On, Below, EpochsFall, LowestAt, Walk;
    if deliveries != [] {
      var m := deliveries[0];
      LaterDeliveryMoves(mls, me, f, store, local, side, m);
      LaterDocumentsConverge(mls, me, f, store, Apply(mls, me, store, local, m.delivery), SideAfter(local, side, m), deliveries[1..]);
    }
  }

  // ---------------------------------------------------------------------
  // When a document is compared at the epoch of the race
  // ---------------------------------------------------------------------

  /** Everything the device remembers lies on its own branch. */
  ghost predicate Pure(f: Fork, g: Group, first: bool) {
    forall e: nat :: e in Known(g) ==> Known(g)[e] == On(f, first, e)
  }

  /** The chain below the document has a document of this epoch. */
  ghost predicate Passes(store: Store, entry: Document, e: nat)
    requires entry.GroupDocument?
  {
    exists l :: l in Below(store, entry) && EpochOf(l) == e
  }

  /**
   * A device that remembers nothing but its own branch compares a document of the
   * other at the epoch of the race if and only if both are of that very epoch, or
   * the document is newer, the device still remembers the base state, and the
   * document's chain passes through it.
   */
  lemma PureComparesAtRaceIff(f: Fork, store: Store, g: Group, d: Delivery, first: bool)
    requires IsFork(f) && OnLine(f, first, FingerprintOf(g.state)) && Pure(f, g, first) && OfLine(f, store, d, !first)
    requires !OlderThan(g, d)
    ensures ComparedAt(store, g, d.doc, Root(f) + 1)
            <==> if d.doc.state.value.epoch == g.state.epoch then g.state.epoch == Root(f) + 1
                 else Root(f) in Known(g) && Passes(store, d.doc, Root(f))
  {
    LinesDiffer(f, g, d.doc.state.value, first);
    hide Known, LowestAt, Walk, Below;
    forall e: nat
      ensures e > Root(f) ==> !AgreeOn(store, g, d.doc, e)
      ensures e == Root(f) ==> (AgreeOn(store, g, d.doc, e) <==> e in Known(g) && Passes(store, d.doc, e))
    {
      PureAgreesBefore(f, store, g, d, first, e);
    }
    hide AgreeOn, Pure, Passes;
  }

  lemma PureAgreesBefore(f: Fork, store: Store, g: Group, d: Delivery, first: bool, e: nat)
    requires IsFork(f) && OnLine(f, first, FingerprintOf(g.state)) && Pure(f, g, first) && OfLine(f, store, d, !first)
    ensures e > Root(f) ==> !AgreeOn(store, g, d.doc, e)
    ensures e == Root(f) ==> (AgreeOn(store, g, d.doc, e) <==> e in Known(g) && Passes(store, d.doc, e))
  {
    hide Known, LowestAt, Walk, Below;
  }

  /**
   * A newer document of the device's own branch is compared at the epoch of the
   * race if and only if the base is the last state that its chain and the device's
   * memory share.
   */
  lemma PureOwnComparedIff(f: Fork, store: Store, g: Group, d: Delivery, first: bool)
    requires IsFork(f) && OnLine(f, first, FingerprintOf(g.state)) && Pure(f, g, first) && OfLine(f, store, d, first)
    requires d.doc.state.value.epoch > g.state.epoch
    ensures ComparedAt(store, g, d.doc, Root(f) + 1)
            <==> && Root(f) in Known(g) && Passes(store, d.doc, Root(f))
                 && forall e: nat :: Root(f) < e <= g.state.epoch ==> !(e in Known(g) && Passes(store, d.doc, e))
  {
    hide Known, LowestAt, Walk, Below;
    forall e: nat
      ensures AgreeOn(store, g, d.doc, e) <==> e <= g.state.epoch && e in Known(g) && Passes(store, d.doc, e)
    {
      PureAgreesWhereShared(f, store, g, d, first, e);
    }
    hide AgreeOn, Pure, Passes, OfLine;
  }

  lemma PureAgreesWhereShared(f: Fork, store: Store, g: Group, d: Delivery, first: bool, e: nat)
    requires Pure(f, g, first) && OfLine(f, store, d, first)
    ensures AgreeOn(store, g, d.doc, e) <==> e <= g.state.epoch && e in Known(g) && Passes(store, d.doc, e)
  {
    hide Known, LowestAt, Walk, Below, On;
  }

  // ---------------------------------------------------------------------
  // A device on the first branch, told from the list alone
  // ---------------------------------------------------------------------

  lemma {:induction false} RangeCard(low: nat, n: nat, s: set<nat>)
    requires forall e | e in s :: low < e <= low + n
    ensures |s| <= n
    decreases n
  {
    if n == 0 {
      assert s == {};
    } else {
      RangeCard(low, n - 1, s - {low + n});
      if low + n in s {
        assert s == (s - {low + n}) + {low + n};
      } else {
        assert s == s - {low + n};
      }
    }
  }

  /** Noting a newest state keeps every remembered epoch that fewer than sixteen newer ones can have pushed out. */
  lemma NoteRetains(held: map<nat, Fingerprint>, fp: Fingerprint, root: nat)
    requires forall e | e in held :: e <= fp.epoch
    requires root in held || root == fp.epoch
    requires fp.epoch < root + RETAINED_FINGERPRINTS
    ensures var noted := Note(held, fp);
            && root in noted && fp.epoch in noted && noted[fp.epoch] == fp
            && forall e | e in noted :: e <= fp.epoch && (e != fp.epoch ==> e in held && noted[e] == held[e])
  {
    var grown := held[fp.epoch := fp];
    TrimKeepsGreatest(grown);
    NoteHoldsOwn(held, fp);
    var noted := Note(held, fp);
    hide Trim;
    var newer := set e | e in noted.Keys && root < e;
    RangeCard(root, RETAINED_FINGERPRINTS - 1, newer);
    assert root in noted || noted.Keys == newer;
    assert |noted.Keys| == |noted|;
  }

  /** The device remembers the base and its own branch only, and is less than sixteen epochs past the base. */
  ghost predicate Steady(f: Fork, g: Group) {
    && Pure(f, g, true) && Root(f) in Known(g)
    && (forall e | e in Known(g) :: e <= g.state.epoch)
    && g.state.epoch < Root(f) + RETAINED_FINGERPRINTS
  }

  /** What a document leaves of the memory: the state it finds noted, and the one it brings. */
  lemma MemoryAfter(mls: Mls, me: Pubkey, g: Group, d: Delivery, store: Store)
    requires d.doc.GroupDocument? && d.doc.state.Some?
    ensures var r := ApplyDocument(mls, me, Some(g), d.doc, d.address, Some(store), d.fetched);
            && r.group.Some?
            && var after := r.group.value;
               || (after.state == g.state && after.held == Known(g))
               || (&& after.state == d.doc.state.value && after.held == Note(Known(g), FingerprintOf(after.state))
                   && d.doc.state.value.epoch >= g.state.epoch)
  {
    hide Note, Meet, Walk, Rule;
  }

  lemma StaysSteady(f: Fork, g: Group, after: Group)
    requires IsFork(f) && Steady(f, g) && OnLine(f, true, FingerprintOf(after.state))
    requires after.state.epoch < Root(f) + RETAINED_FINGERPRINTS
    requires || (after.state == g.state && after.held == Known(g))
             || (after.held == Note(Known(g), FingerprintOf(after.state)) && after.state.epoch >= g.state.epoch)
    ensures Steady(f, after)
  {
    var fp := FingerprintOf(after.state);
    hide Note;
    NoteRetains(Known(g), fp, Root(f));
    NoteRetains(after.held, fp, Root(f));
  }

  /** Documents that a device on the first branch at `epoch` can be handed without ever comparing the branches elsewhere. */
  ghost predicate Aligned(mls: Mls, me: Pubkey, f: Fork, store: Store, epoch: nat, deliveries: seq<Marked>) {
    forall m | m in deliveries ::
      && OfLine(f, store, m.delivery, m.first) && AllFollowFirst(mls, me, f, m.delivery.fetched)
      && m.delivery.doc.state.value.epoch < Root(f) + RETAINED_FINGERPRINTS
      && (!m.first ==>
            && Passes(store, m.delivery.doc, Root(f))
            && (m.delivery.doc.state.value.epoch == Root(f) + 1 || Apart(epoch, m.delivery.doc.state.value.epoch, deliveries)))
  }

  /** Neither the device nor any document of the first branch in the list is of epoch `n`. */
  ghost predicate Apart(epoch: nat, n: nat, deliveries: seq<Marked>) {
    n != epoch && forall k | k in deliveries && k.first ::
      k.delivery.doc.GroupDocument? && k.delivery.doc.state.Some? ==> k.delivery.doc.state.value.epoch != n
  }

  lemma AlignedTail(mls: Mls, me: Pubkey, f: Fork, store: Store, epoch: nat, next: nat, deliveries: seq<Marked>)
    requires deliveries != [] && Aligned(mls, me, f, store, epoch, deliveries)
    requires next == epoch || (deliveries[0].first && next == deliveries[0].delivery.doc.state.value.epoch)
    ensures Aligned(mls, me, f, store, next, deliveries[1..])
  {
    hide OnLine, LowestAt, Below, AllFollowFirst, Passes;
    assert deliveries[0] in deliveries;
    forall m | m in deliveries[1..]
      ensures m in deliveries && m.delivery.doc.GroupDocument? && m.delivery.doc.state.Some?
      ensures Apart(epoch, m.delivery.doc.state.value.epoch, deliveries) ==>
                Apart(next, m.delivery.doc.state.value.epoch, deliveries[1..])
    {
      assert OfLine(f, store, m.delivery, m.first);
      if Apart(epoch, m.delivery.doc.state.value.epoch, deliveries) {
        assert forall k | k in deliveries[1..] :: k in deliveries;
      }
    }
  }

  lemma SteadyStep(mls: Mls, me: Pubkey, f: Fork, store: Store, g: Group, m: Marked)
    requires IsFork(f) && EpochNamesContext(mls)
    requires OnBranch(f, store, g, true) && Steady(f, g) && Aligned(mls, me, f, store, g.state.epoch, [m])
    ensures var next := Apply(mls, me, store, Some(g), m.delivery);
            && next.Some? && OnBranch(f, store, next.value, true) && Steady(f, next.value)
            && (next.value.state.epoch == g.state.epoch || (m.first && next.value.state.epoch == m.delivery.doc.state.value.epoch))
  {
    assert m in [m];
    var d := m.delivery;
    if !m.first && !OlderThan(g, d) {
      PureComparesAtRaceIff(f, store, g, d, true);
    }
    MemoryAfter(mls, me, g, d, store);
    hide ApplyDocument, ComparedAt, AllFollowFirst, IsFork, Pure, Passes, Note, OwnPlace, LowestAt, Walk, Below;
    LaterDocumentMoves(mls, me, f, store, g, d, true, m.first);
    var after := ApplyDocument(mls, me, Some(g), d.doc, d.address, Some(store), d.fetched).group.value;
    if !m.first {
      LinesDiffer(f, g, d.doc.state.value, true);
    }
    StaysSteady(f, g, after);
  }

  /**
   * A device on the first branch that remembers the base stays on it through any
   * documents of either branch up to fifteen epochs past the base, as long as no
   * document of the second branch is of an epoch, later than the race's, that the
   * device is ever at.
   */
  lemma {:induction false} FirstStaysFirst(mls: Mls, me: Pubkey, f: Fork, store: Store, g: Group, deliveries: seq<Marked>)
    requires IsFork(f) && EpochNamesContext(mls)
    requires OnBranch(f, store, g, true) && Steady(f, g) && Aligned(mls, me, f, store, g.state.epoch, deliveries)
    ensures var end := ApplyAll(mls, me, store, Some(g), deliveries); end.Some? && OnBranch(f, store, end.value, true)
    decreases deliveries
  {
    if deliveries != [] {
      var m := deliveries[0];
      OnlyHead(mls, me, f, store, g.state.epoch, deliveries);
      SteadyStep(mls, me, f, store, g, m);
      var next := Apply(mls, me, store, Some(g), m.delivery).value;
      AlignedTail(mls, me, f, store, g.state.epoch, next.state.epoch, deliveries);
      hide Apply, Steady, OnBranch, Aligned, IsFork;
      FirstStaysFirst(mls, me, f, store, next, deliveries[1..]);
    }
  }

  lemma OnlyHead(mls: Mls, me: Pubkey, f: Fork, store: Store, epoch: nat, deliveries: seq<Marked>)
    requires deliveries != [] && Aligned(mls, me, f, store, epoch, deliveries)
    ensures Aligned(mls, me, f, store, epoch, [deliveries[0]])
  {
    hide OfLine, AllFollowFirst, Passes;
    assert deliveries[0] in deliveries;
  }

  /** What the device held before the race lies on the trunk, up to the base. */
  ghost predicate HeldTrunk(f: Fork, g: Group) {
    FingerprintOf(g.state) == f.race.base && forall e | e in g.held :: e <= Root(f) && g.held[e] == f.trunk(e)
  }

  /** A racer remembers the base it left and the state its own Commit made, and nothing of another branch. */
  lemma RacerRemembers(
    mls: Mls, f: Fork, g: Group, next: ClientState, cursor: nat, wire: Wire, fetched: Option<seq<Record>>, first: bool)
    requires IsFork(f) && HeldTrunk(f, g) && FingerprintOf(next) == BranchOf(f.race, first)
    ensures var racer := AdoptOwnCommit(mls, g, next, cursor, wire, fetched);
            && racer.state == next
            && Root(f) in racer.held && racer.held[Root(f)] == f.race.base
            && Root(f) + 1 in racer.held && racer.held[Root(f) + 1] == FingerprintOf(next)
            && Pure(f, racer, first) && Root(f) in Known(racer) && Root(f) + 1 in Known(racer)
            && forall e | e in Known(racer) :: e <= racer.state.epoch
  {
    hide RaceLost, Note;
    var fp := FingerprintOf(next);
    var racer := AdoptOwnCommit(mls, g, next, cursor, wire, fetched);
    NoteRetains(g.held, f.race.base, Root(f));
    NoteRetains(Note(g.held, f.race.base), fp, Root(f));
    assert racer.held == Note(Note(g.held, f.race.base), fp);
    NoteRetains(racer.held, fp, Root(f));
  }

  /** A racer whose marker does not contradict the outcome stands on its branch. */
  lemma RacerStandsOnBranch(
    mls: Mls, f: Fork, store: Store, g: Group, next: ClientState, wire: Wire, fetched: Option<seq<Record>>, first: bool)
    requires IsFork(f) && AboutToRace(f.race, store, g) && FingerprintOf(next) == BranchOf(f.race, first)
    requires TruthOrNothing(mls, g, CursorOf(f.race, first), wire, fetched, first)
    requires var marker := MarkerAfter(g.branch, RaceLost(mls, NoteGroup(g), CursorOf(f.race, first), wire, fetched));
             marker.None? || marker == Some(!first)
    ensures OnBranch(f, store, AdoptOwnCommit(mls, g, next, CursorOf(f.race, first), wire, fetched), first)
  {
    RacerIsReadyIff(mls, f.race, store, g, next, wire, fetched, first);
    hide RaceLost, Note, OwnPlace, TruthOrNothing, MarkerAfter;
  }

  /**
   * The winner of a race, from its own Commit on: through any documents of either
   * branch up to fifteen epochs past the base it stays on its branch, as long as
   * no document of the loser's is of a later epoch that it is ever at.
   */
  lemma WinnerStays(
    mls: Mls, me: Pubkey, f: Fork, store: Store, g: Group, next: ClientState, wire: Wire, fetched: Option<seq<Record>>,
    deliveries: seq<Marked>)
    requires IsFork(f) && EpochNamesContext(mls) && HeldTrunk(f, g)
    requires AboutToRace(f.race, store, g) && FingerprintOf(next) == f.race.a
    requires TruthOrNothing(mls, g, f.race.ka, wire, fetched, true)
    requires var marker := MarkerAfter(g.branch, RaceLost(mls, NoteGroup(g), f.race.ka, wire, fetched));
             marker.None? || marker == Some(false)
    requires Aligned(mls, me, f, store, Root(f) + 1, deliveries)
    ensures var end := ApplyAll(mls, me, store, Some(AdoptOwnCommit(mls, g, next, f.race.ka, wire, fetched)), deliveries);
            end.Some? && OnBranch(f, store, end.value, true)
  {
    hide RaceLost, Note, AboutToRace, TruthOrNothing, MarkerAfter, AdoptOwnCommit, OnBranch, Aligned;
    RacerRemembers(mls, f, g, next, f.race.ka, wire, fetched, true);
    RacerStandsOnBranch(mls, f, store, g, next, wire, fetched, true);
    FirstStaysFirst(mls, me, f, store, AdoptOwnCommit(mls, g, next, f.race.ka, wire, fetched), deliveries);
  }

  // ---------------------------------------------------------------------
  // A device on the second branch, told from the list alone
  // ---------------------------------------------------------------------

  /** Once on the first branch, documents of the second that are out of date and any of the first leave the device there. */
  lemma {:induction false} OldSecondsAreHarmless(mls: Mls, me: Pubkey, f: Fork, store: Store, g: Group, deliveries: seq<Marked>)
    requires IsFork(f) && EpochNamesContext(mls) && OnBranch(f, store, g, true)
    requires forall m | m in deliveries ::
               && OfLine(f, store, m.delivery, m.first) && AllFollowFirst(mls, me, f, m.delivery.fetched)
               && (!m.first ==> OlderThan(g, m.delivery))
    ensures var end := ApplyAll(mls, me, store, Some(g), deliveries); end.Some? && OnBranch(f, store, end.value, true)
    decreases deliveries
  {
    if deliveries != [] {
      var m := deliveries[0];
      assert m in deliveries;
      MemoryAfter(mls, me, g, m.delivery, store);
      LaterDocumentMoves(mls, me, f, store, g, m.delivery, true, m.first);
      var next := Apply(mls, me, store, Some(g), m.delivery).value;
      assert next.state.epoch >= g.state.epoch;
      hide Apply, ApplyDocument, OnBranch, OfLine, AllFollowFirst, IsFork;
      assert forall k | k in deliveries[1..] :: k in deliveries;
      OldSecondsAreHarmless(mls, me, f, store, next, deliveries[1..]);
    }
  }

  /** The device remembers the base, the loser's own Commit and nothing of another branch, and is less than sixteen epochs past the base. */
  ghost predicate SteadySecond(f: Fork, g: Group) {
    && Pure(f, g, false) && Root(f) in Known(g) && Root(f) + 1 in Known(g)
    && (forall e | e in Known(g) :: e <= g.state.epoch)
    && g.state.epoch < Root(f) + RETAINED_FINGERPRINTS
  }

  lemma StaysSteadySecond(f: Fork, g: Group, after: Group)
    requires IsFork(f) && SteadySecond(f, g) && OnLine(f, false, FingerprintOf(after.state))
    requires after.state.epoch < Root(f) + RETAINED_FINGERPRINTS
    requires || (after.state == g.state && after.held == Known(g))
             || (after.held == Note(Known(g), FingerprintOf(after.state)) && after.state.epoch >= g.state.epoch)
    ensures SteadySecond(f, after)
  {
    var fp := FingerprintOf(after.state);
    hide Note;
    NoteRetains(Known(g), fp, Root(f));
    NoteRetains(Known(g), fp, Root(f) + 1);
    NoteRetains(after.held, fp, Root(f));
    NoteRetains(after.held, fp, Root(f) + 1);
  }

  /**
   * Documents of the first branch newer than everything the device will have seen
   * of the second, with the base on their chain; documents of the second with its
   * Commit's epoch on theirs.
   */
  ghost predicate Overtaken(mls: Mls, me: Pubkey, f: Fork, store: Store, epoch: nat, deliveries: seq<Marked>) {
    forall m | m in deliveries ::
      && OfLine(f, store, m.delivery, m.first) && AllFollowFirst(mls, me, f, m.delivery.fetched)
      && m.delivery.doc.state.value.epoch < Root(f) + RETAINED_FINGERPRINTS
      && (!m.first ==> Passes(store, m.delivery.doc, Root(f) + 1))
      && (m.first ==> Passes(store, m.delivery.doc, Root(f)) && Overtakes(m.delivery.doc.state.value.epoch, epoch, deliveries))
  }

  /** Epoch `n` is past the device's and past that of every document of the second branch in the list. */
  ghost predicate Overtakes(n: nat, epoch: nat, deliveries: seq<Marked>) {
    n > epoch && forall k | k in deliveries && !k.first ::
      k.delivery.doc.GroupDocument? && k.delivery.doc.state.Some? ==> k.delivery.doc.state.value.epoch < n
  }

  lemma OvertakenTail(mls: Mls, me: Pubkey, f: Fork, store: Store, epoch: nat, next: nat, deliveries: seq<Marked>)
    requires deliveries != [] && Overtaken(mls, me, f, store, epoch, deliveries)
    requires next == epoch || (!deliveries[0].first && next == deliveries[0].delivery.doc.state.value.epoch)
    ensures Overtaken(mls, me, f, store, next, deliveries[1..])
  {
    hide OnLine, LowestAt, Below, AllFollowFirst, Passes;
    assert deliveries[0] in deliveries;
    forall m | m in deliveries[1..]
      ensures m in deliveries && m.delivery.doc.GroupDocument? && m.delivery.doc.state.Some?
      ensures Overtakes(m.delivery.doc.state.value.epoch, epoch, deliveries) ==>
                Overtakes(m.delivery.doc.state.value.epoch, next, deliveries[1..])
    {
      assert OfLine(f, store, m.delivery, m.first);
      assert forall k | k in deliveries[1..] :: k in deliveries;
    }
  }

  /** A document of the second branch leaves the device on it, as steady as before. */
  lemma SecondStep(mls: Mls, me: Pubkey, f: Fork, store: Store, g: Group, m: Marked)
    requires IsFork(f) && EpochNamesContext(mls) && !m.first
    requires OnBranch(f, store, g, false) && SteadySecond(f, g) && Overtaken(mls, me, f, store, g.state.epoch, [m])
    ensures var next := Apply(mls, me, store, Some(g), m.delivery);
            && next.Some? && OnBranch(f, store, next.value, false) && SteadySecond(f, next.value)
            && (next.value.state.epoch == g.state.epoch || next.value.state.epoch == m.delivery.doc.state.value.epoch)
  {
    assert m in [m];
    var d := m.delivery;
    if d.doc.state.value.epoch > g.state.epoch {
      PureOwnComparedIff(f, store, g, d, false);
    }
    MemoryAfter(mls, me, g, d, store);
    hide ApplyDocument, ComparedAt, AllFollowFirst, IsFork, Pure, Passes, Note, OwnPlace, LowestAt, Walk, Below;
    if OlderThan(g, d) {
      OlderIsPassed(mls, me, f, store, g, d, false);
    } else if d.doc.state.value.epoch == g.state.epoch {
      SameStateKeeps(mls, me, f, store, g, d, false);
    } else {
      NewerOfOwnKeeps(mls, me, f, store, g, d, false);
    }
    StaysSteadySecond(f, g, ApplyDocument(mls, me, Some(g), d.doc, d.address, Some(store), d.fetched).group.value);
  }

  /** The first document of the first branch takes the device over. */
  lemma FirstCrosses(mls: Mls, me: Pubkey, f: Fork, store: Store, g: Group, m: Marked)
    requires IsFork(f) && EpochNamesContext(mls) && m.first
    requires OnBranch(f, store, g, false) && SteadySecond(f, g) && Overtaken(mls, me, f, store, g.state.epoch, [m])
    ensures var next := Apply(mls, me, store, Some(g), m.delivery);
            && next.Some? && OnBranch(f, store, next.value, true) && next.value.state == m.delivery.doc.state.value
  {
    assert m in [m];
    var d := m.delivery;
    PureComparesAtRaceIff(f, store, g, d, false);
    ForkIsCompared(mls, me, g, d.doc, d.address, store, d.fetched, Root(f) + 1);
    ComparedAtRace(mls, me, f, store, g, d, false);
    hide ApplyDocument, ComparedAt, AllFollowFirst, IsFork, Pure, Passes, Note, OnBranch, OfLine;
  }

  /**
   * A device on the second branch that remembers the base and the race's epoch
   * ends on the first as soon as it has seen a document of it, and stays on its
   * own before, whatever else of the two branches it is handed in whatever order
   * - as long as the first branch's documents are the newer ones.
   */
  lemma {:induction false} SecondEndsOnFirst(mls: Mls, me: Pubkey, f: Fork, store: Store, g: Group, deliveries: seq<Marked>)
    requires IsFork(f) && EpochNamesContext(mls)
    requires OnBranch(f, store, g, false) && SteadySecond(f, g) && Overtaken(mls, me, f, store, g.state.epoch, deliveries)
    ensures var end := ApplyAll(mls, me, store, Some(g), deliveries);
            end.Some? && OnBranch(f, store, end.value, exists m :: m in deliveries && m.first)
    decreases deliveries
  {
    if deliveries != [] {
      var m := deliveries[0];
      assert m in deliveries;
      HeadOvertaken(mls, me, f, store, g.state.epoch, deliveries);
      if m.first {
        FirstCrosses(mls, me, f, store, g, m);
        RestIsOld(mls, me, f, store, g.state.epoch, deliveries);
        var next := Apply(mls, me, store, Some(g), m.delivery).value;
        hide Apply, SteadySecond, OnBranch, IsFork, OnLine, LowestAt, Below, AllFollowFirst, Passes;
        OldSecondsAreHarmless(mls, me, f, store, next, deliveries[1..]);
      } else {
        SecondStep(mls, me, f, store, g, m);
        var next := Apply(mls, me, store, Some(g), m.delivery).value;
        OvertakenTail(mls, me, f, store, g.state.epoch, next.state.epoch, deliveries);
        hide Apply, SteadySecond, OnBranch, Overtaken, IsFork;
        SecondEndsOnFirst(mls, me, f, store, next, deliveries[1..]);
        assert forall k :: k in deliveries <==> k == m || k in deliveries[1..];
      }
    }
  }

  /** The loser of a race, from its own Commit on: it moves over with the first document of the winner's branch, and stays there. */
  lemma LoserMovesOver(
    mls: Mls, me: Pubkey, f: Fork, store: Store, g: Group, next: ClientState, wire: Wire, fetched: Option<seq<Record>>,
    deliveries: seq<Marked>)
    requires IsFork(f) && EpochNamesContext(mls) && HeldTrunk(f, g)
    requires AboutToRace(f.race, store, g) && FingerprintOf(next) == f.race.b
    requires TruthOrNothing(mls, g, f.race.kb, wire, fetched, false)
    requires var marker := MarkerAfter(g.branch, RaceLost(mls, NoteGroup(g), f.race.kb, wire, fetched));
             marker.None? || marker == Some(true)
    requires Overtaken(mls, me, f, store, Root(f) + 1, deliveries)
    ensures var end := ApplyAll(mls, me, store, Some(AdoptOwnCommit(mls, g, next, f.race.kb, wire, fetched)), deliveries);
            end.Some? && OnBranch(f, store, end.value, exists m :: m in deliveries && m.first)
  {
    hide RaceLost, Note, AboutToRace, TruthOrNothing, MarkerAfter, AdoptOwnCommit, OnBranch, Overtaken;
    RacerRemembers(mls, f, g, next, f.race.kb, wire, fetched, false);
    RacerStandsOnBranch(mls, f, store, g, next, wire, fetched, false);
    SecondEndsOnFirst(mls, me, f, store, AdoptOwnCommit(mls, g, next, f.race.kb, wire, fetched), deliveries);
  }

  lemma HeadOvertaken(mls: Mls, me: Pubkey, f: Fork, store: Store, epoch: nat, deliveries: seq<Marked>)
    requires deliveries != [] && Overtaken(mls, me, f, store, epoch, deliveries)
    ensures Overtaken(mls, me, f, store, epoch, [deliveries[0]])
  {
    hide OnLine, LowestAt, Below, AllFollowFirst, Passes;
    var m := deliveries[0];
    assert m in deliveries;
    assert m.first ==> Overtakes(m.delivery.doc.state.value.epoch, epoch, [m]);
  }

  lemma RestIsOld(mls: Mls, me: Pubkey, f: Fork, store: Store, epoch: nat, deliveries: seq<Marked>)
    requires deliveries != [] && Overtaken(mls, me, f, store, epoch, deliveries) && deliveries[0].first
    ensures deliveries[0].delivery.doc.GroupDocument? && deliveries[0].delivery.doc.state.Some?
    ensures forall k | k in deliveries[1..] ::
              && OfLine(f, store, k.delivery, k.first) && AllFollowFirst(mls, me, f, k.delivery.fetched)
              && (!k.first ==> k.delivery.doc.state.value.epoch < deliveries[0].delivery.doc.state.value.epoch)
  {
    hide OnLine, LowestAt, Below, AllFollowFirst, Passes;
    assert deliveries[0] in deliveries;
    assert forall k | k in deliveries[1..] :: k in deliveries;
  }

  // ---------------------------------------------------------------------
  // When the branches are compared elsewhere, or not at all
  // ---------------------------------------------------------------------

  /** What decides a comparison at epoch `c`, and for which branch. */
  ghost predicate KeepsOrTakesFirst(
    mls: Mls, me: Pubkey, f: Fork, store: Store, g: Group, d: Delivery, onFirst: bool, c: nat)
    requires d.doc.GroupDocument? && d.doc.state.Some?
  {
    || g.branch.Some?
    || Voices(mls, me, g, d.doc.state.value, d.fetched, !onFirst)
    || (if DecidedAt(g, c) then g.decision.value.fingerprint == FingerprintOf(d.doc.state.value) <==> !onFirst
        else TheirsFirst(store, g, d.doc, d.address, c) <==> !onFirst)
  }

  /**
   * Wherever the branches are compared, exactly this leaves the device on the
   * first: a marker of an own race, a third party's word, and without either the
   * decision or the cursor order of that epoch - which need not be the race's.
   */
  lemma ComparedElsewhereIff(mls: Mls, me: Pubkey, f: Fork, store: Store, g: Group, d: Delivery, onFirst: bool, c: nat)
    requires IsFork(f) && EpochNamesContext(mls) && AllFollowFirst(mls, me, f, d.fetched)
    requires OnBranch(f, store, g, onFirst) && OfLine(f, store, d, !onFirst) && ComparedAt(store, g, d.doc, c)
    ensures var r := ApplyDocument(mls, me, Some(g), d.doc, d.address, Some(store), d.fetched);
            r.group.Some? && (OnLine(f, true, FingerprintOf(r.group.value.state))
                              <==> KeepsOrTakesFirst(mls, me, f, store, g, d, onFirst, c))
  {
    var theirs := d.doc.state.value;
    ForkIsCompared(mls, me, g, d.doc, d.address, store, d.fetched, c);
    EvidenceInOrder(mls, me, g, d.doc, d.address, store, d.fetched, c);
    VoicesAreForFirst(mls, me, f, g, theirs, d.fetched, onFirst);
    LinesDiffer(f, g, theirs, onFirst);
    LinesDisagree(f, g, theirs, onFirst);
    hide ApplyDocument, Voices, TheirsFirst, ComparedAt, OfLine, OnLine, AllFollowFirst, IsFork, Note, OwnPlace;
  }

  lemma LinesDisagree(f: Fork, g: Group, theirs: ClientState, onFirst: bool)
    requires IsFork(f) && OnLine(f, onFirst, FingerprintOf(g.state)) && OnLine(f, !onFirst, FingerprintOf(theirs))
    ensures OnLine(f, true, FingerprintOf(g.state)) <==> onFirst
    ensures OnLine(f, true, FingerprintOf(theirs)) <==> !onFirst
  {
  }

  /**
   * Not compared at the race, first input: both branches have reached the same
   * later epoch. Its cursors decide, whoever won the race: an unmarked device of
   * the first branch goes over to the second exactly when that has the lower one.
   */
  lemma EqualLaterEpochs(mls: Mls, me: Pubkey, f: Fork, store: Store, g: Group, d: Delivery)
    requires IsFork(f) && EpochNamesContext(mls)
    requires OnBranch(f, store, g, true) && OfLine(f, store, d, false)
    requires d.doc.state.value.epoch == g.state.epoch > Root(f) + 1
    requires g.branch.None? && d.fetched.None? && !DecidedAt(g, g.state.epoch)
    requires var theirs, ours := LowestAt(Walk(store, d.address, MAX_HOPS), g.state.epoch), OwnPlace(g, g.state.epoch, store);
             theirs.Some? && ours.Some? && theirs.value.cursor != ours.value.cursor
    ensures var r := ApplyDocument(mls, me, Some(g), d.doc, d.address, Some(store), d.fetched);
            var theirs, ours := LowestAt(Walk(store, d.address, MAX_HOPS), g.state.epoch), OwnPlace(g, g.state.epoch, store);
            r.group.Some? && (OnLine(f, false, FingerprintOf(r.group.value.state)) <==> theirs.value.cursor < ours.value.cursor)
  {
    var theirs, c := d.doc.state.value, g.state.epoch;
    LinesDiffer(f, g, theirs, true);
    WalkFromHead(store, d.doc, d.address, MAX_HOPS);
    assert ComparedAt(store, g, d.doc, c);
    ForkIsCompared(mls, me, g, d.doc, d.address, store, d.fetched, c);
    EvidenceInOrder(mls, me, g, d.doc, d.address, store, d.fetched, c);
    assert !Voices(mls, me, g, theirs, d.fetched, true) && !Voices(mls, me, g, theirs, d.fetched, false);
    NeverOnBoth(f, FingerprintOf(g.state));
    hide ApplyDocument, ComparedAt, OnLine, IsFork, Note, OwnPlace, Walk, WalkFrom, LowestAt, Below;
  }

  lemma NeverOnBoth(f: Fork, fp: Fingerprint)
    requires IsFork(f)
    ensures !(OnLine(f, true, fp) && OnLine(f, false, fp))
  {
  }

  /**
   * Second input: the device still remembers a state of the other branch, and the
   * newer document's chain passes through it. The branches are compared later than at the race.
   */
  lemma StaleMemoryComparesLater(f: Fork, store: Store, g: Group, d: Delivery, first: bool, k: nat)
    requires OfLine(f, store, d, !first) && d.doc.state.value.epoch > g.state.epoch > k > Root(f)
    requires k in Known(g) && Known(g)[k] == On(f, !first, k) && Passes(store, d.doc, k)
    ensures !ComparedAt(store, g, d.doc, Root(f) + 1)
  {
    hide Known, LowestAt, Walk, Below;
    var l :| l in Below(store, d.doc) && EpochOf(l) == k;
    assert AgreeOn(store, g, d.doc, k);
    hide AgreeOn;
  }

  /** Such a memory is left by moving over with a newer document: the state of the second branch stays remembered. */
  lemma CrossingLeavesStaleMemory(mls: Mls, me: Pubkey, f: Fork, store: Store, g: Group, d: Delivery)
    requires IsFork(f) && EpochNamesContext(mls) && AllFollowFirst(mls, me, f, d.fetched)
    requires OnBranch(f, store, g, false) && OfLine(f, store, d, true) && d.doc.state.value.epoch > g.state.epoch
    requires ComparedAt(store, g, d.doc, Root(f) + 1) && forall e | e in Known(g) :: e <= g.state.epoch
    ensures var r := ApplyDocument(mls, me, Some(g), d.doc, d.address, Some(store), d.fetched);
            && r.group.Some? && OnBranch(f, store, r.group.value, true)
            && g.state.epoch in r.group.value.held && r.group.value.held[g.state.epoch] == FingerprintOf(g.state)
  {
    ComparedAtRace(mls, me, f, store, g, d, false);
    ForkIsCompared(mls, me, g, d.doc, d.address, store, d.fetched, Root(f) + 1);
    hide ApplyDocument, ComparedAt, OnBranch, IsFork, Note, Below, OfLine;
    SecondNewestStays(g, FingerprintOf(d.doc.state.value));
  }

  lemma SecondNewestStays(g: Group, fp: Fingerprint)
    requires (forall e | e in Known(g) :: e <= g.state.epoch) && fp.epoch > g.state.epoch
    ensures g.state.epoch in Note(Known(g), fp) && Note(Known(g), fp)[g.state.epoch] == FingerprintOf(g.state)
  {
    var held := Known(g);
    KnowsItself(g);
    TrimKeepsGreatest(held[fp.epoch := fp]);
    var noted := Note(held, fp);
    hide Trim, Known;
    SubsetCard(noted.Keys * {fp.epoch}, {fp.epoch});
    assert g.state.epoch in noted || noted.Keys == noted.Keys * {fp.epoch};
    assert |noted.Keys| == |noted|;
  }

  /** The present state is remembered as long as nothing newer is. */
  lemma KnowsItself(g: Group)
    requires forall e | e in Known(g) :: e <= g.state.epoch
    ensures g.state.epoch in Known(g) && Known(g)[g.state.epoch] == FingerprintOf(g.state)
  {
    var fp := FingerprintOf(g.state);
    TrimKeepsGreatest(g.held[fp.epoch := fp]);
    hide Trim;
    assert fp.epoch in Known(g) || Known(g).Keys == {};
    assert |Known(g).Keys| == |Known(g)|;
  }

  /**
   * Third input: nothing up to the base is both remembered and on the chain - the
   * base has been pushed out by sixteen newer epochs, or the chain is cut short.
   * Exactly then a newer document of the other branch is taken over without a comparison.
   */
  lemma ForgottenBaseIsTakenOverIff(mls: Mls, me: Pubkey, f: Fork, store: Store, g: Group, d: Delivery, first: bool)
    requires IsFork(f) && OnLine(f, first, FingerprintOf(g.state)) && Pure(f, g, first) && OfLine(f, store, d, !first)
    requires d.doc.state.value.epoch > g.state.epoch
    ensures var r := ApplyDocument(mls, me, Some(g), d.doc, d.address, Some(store), d.fetched);
            && (r.outcome.FastForwarded? <==> forall e: nat :: e <= Root(f) ==> !(e in Known(g) && Passes(store, d.doc, e)))
            && (r.outcome.FastForwarded? ==> r.group.Some? && r.group.value.state == d.doc.state.value)
  {
    FastForwardedIff(mls, me, g, d.doc, d.address, store, d.fetched);
    hide ApplyDocument, Known, LowestAt, Walk, Below, PartAfter;
    forall e: nat
      ensures e > Root(f) ==> !AgreeOn(store, g, d.doc, e)
      ensures e <= Root(f) ==> (AgreeOn(store, g, d.doc, e) <==> e in Known(g) && Passes(store, d.doc, e))
    {
      CrossAgreesBefore(f, store, g, d, first, e);
    }
    hide AgreeOn, Passes, Pure, OfLine;
  }

  lemma CrossAgreesBefore(f: Fork, store: Store, g: Group, d: Delivery, first: bool, e: nat)
    requires IsFork(f) && OnLine(f, first, FingerprintOf(g.state)) && Pure(f, g, first) && OfLine(f, store, d, !first)
    ensures e > Root(f) ==> !AgreeOn(store, g, d.doc, e)
    ensures e <= Root(f) ==> (AgreeOn(store, g, d.doc, e) <==> e in Known(g) && Passes(store, d.doc, e))
  {
    hide Known, LowestAt, Walk, Below;
  }

  /**
   * Fourth input: on the second branch a document of the branch itself is compared
   * at the epoch of the race, and the decision that leaves keeps the first branch
   * out afterwards, although it is compared at the right epoch.
   */
  lemma OwnDecisionShutsFirstOut(
    mls: Mls, me: Pubkey, f: Fork, store: Store, g: Group, d: Delivery, late: Delivery)
    requires IsFork(f) && EpochNamesContext(mls)
    requires OnBranch(f, store, g, false) && g.branch.None?
    requires OfLine(f, store, d, false) && ComparedAt(store, g, d.doc, Root(f) + 1) && d.fetched.None?
    requires var after := ApplyDocument(mls, me, Some(g), d.doc, d.address, Some(store), d.fetched).group;
             && OfLine(f, store, late, true) && late.fetched.None?
             && after.Some? && ComparedAt(store, after.value, late.doc, Root(f) + 1)
    ensures var after := ApplyDocument(mls, me, Some(g), d.doc, d.address, Some(store), d.fetched).group.value;
            var r := ApplyDocument(mls, me, Some(after), late.doc, late.address, Some(store), late.fetched);
            r.outcome.Skipped? && r.group.Some? && OnLine(f, false, FingerprintOf(r.group.value.state))
  {
    var c := Root(f) + 1;
    var after := ApplyDocument(mls, me, Some(g), d.doc, d.address, Some(store), d.fetched).group.value;
    ForkIsCompared(mls, me, g, d.doc, d.address, store, d.fetched, c);
    ForkIsCompared(mls, me, after, late.doc, late.address, store, late.fetched, c);
    EvidenceInOrder(mls, me, after, late.doc, late.address, store, late.fetched, c);
    assert !Voices(mls, me, after, late.doc.state.value, late.fetched, true);
    assert !Voices(mls, me, after, late.doc.state.value, late.fetched, false);
    NeverOnBoth(f, FingerprintOf(late.doc.state.value));
    hide ApplyDocument, ComparedAt, IsFork, Note, OwnPlace, Walk, LowestAt, Below, OnLine, Voices;
  }
}
