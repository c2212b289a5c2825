/**
 * One race between two devices of one identity: both commit from the same
 * state, at log cursors `ka < kb`. Every device that applies documents of the
 * two branches, in any order and any number of times, ends on the branch whose
 * Commit came first.
 */
module ForkConvergence {
  import opened Base
  import opened Mls
  import opened GroupSync
  import opened Documents
  import opened Forks
  import opened ClientRuns

  /** The fork: the common base, the two branches and where their Commits landed. */
  datatype Race = Race(base: Fingerprint, a: Fingerprint, b: Fingerprint, ka: nat, kb: nat)

  ghost predicate IsRace(r: Race) {
    r.a.epoch == r.base.epoch + 1 && r.b.epoch == r.base.epoch + 1 && r.a != r.b && r.ka < r.kb
  }

  /** A document handed to a device by address, and what a fetch would give it at that moment. */
  datatype Delivery = Delivery(doc: Document, address: Address, fetched: Option<seq<Record>>)

  datatype Side = Absent | AtBase | First | Second

  function BranchOf(r: Race, first: bool): Fingerprint { if first then r.a else r.b }

  function CursorOf(r: Race, first: bool): nat { if first then r.ka else r.kb }

  /** Nobody but the shared leaf speaks on the second branch: third parties follow the first Commit. */
  ghost predicate SilentAt(mls: Mls, me: Pubkey, fp: Fingerprint, rec: Record) {
    forall s | FingerprintOf(s) == fp && mls.open(s, rec.wire).Some? ::
      match mls.process(s, mls.open(s, rec.wire).value)
      case NewState(t) => t.epoch == s.epoch
      case Application(t, sender, _) => t.epoch == s.epoch && (sender.Some? ==> sender.value == me)
      case _ => true
  }

  ghost predicate FollowsFirst(mls: Mls, me: Pubkey, r: Race, fetched: Option<seq<Record>>) {
    fetched.Some? ==> forall rec | rec in fetched.value :: SilentAt(mls, me, r.b, rec)
  }

  /** The chain below a document meets the base state, or no state as old as that. */
  ghost predicate RootedAt(links: seq<Link>, gid: nat, base: Fingerprint) {
    links != [] && SameGroup(links[0], gid) ==>
      if EpochOf(links[0]) <= base.epoch then FingerprintOf(links[0].doc.state.value) == base
      else RootedAt(links[1..], gid, base)
  }

  /** A document of one branch, readable by address, with the branch's commit point on its chain. */
  ghost predicate OfBranch(r: Race, store: Store, d: Delivery, first: bool) {
    && d.address != NO_ADDRESS && d.address in store && store[d.address] == d.doc
    && d.doc.GroupDocument? && d.doc.state.Some?
    && FingerprintOf(d.doc.state.value) == BranchOf(r, first)
    && LowestAt(Walk(store, d.address, MAX_HOPS), r.a.epoch).Some?
    && LowestAt(Walk(store, d.address, MAX_HOPS), r.a.epoch).value.cursor == CursorOf(r, first)
    && RootedAt(Walk(store, d.doc.prev, MAX_HOPS), d.doc.gid, r.base)
  }

  /** A marker left by an own Commit does not contradict the branch the device is on. */
  predicate Honest(branch: Option<Branch>, first: bool) { branch.Some? ==> branch.value.dead == !first }

  ghost predicate OnSide(r: Race, store: Store, g: Group, first: bool) {
    && FingerprintOf(g.state) == BranchOf(r, first)
    && Honest(g.branch, first)
    && (g.decision.Some? && g.decision.value.epoch == r.a.epoch ==> g.decision.value.fingerprint == r.a)
    && (g.commitPoint.Some? && g.commitPoint.value.epoch == r.a.epoch ==> g.commitPoint.value.cursor == CursorOf(r, first))
    && OwnPlace(g, r.a.epoch, store).Some?
    && OwnPlace(g, r.a.epoch, store).value.cursor == CursorOf(r, first)
  }

  ghost predicate At(r: Race, store: Store, local: Option<Group>, side: Side) {
    match side
    case Absent => local.None?
    case AtBase => (
      && local.Some? && FingerprintOf(local.value.state) == r.base
      && !(local.value.decision.Some? && local.value.decision.value.epoch == r.a.epoch)
      && forall e | e in local.value.held :: e <= r.base.epoch)
    case First => local.Some? && OnSide(r, store, local.value, true)
    case Second => local.Some? && OnSide(r, store, local.value, false)
  }

  function NextSide(side: Side, first: bool): Side {
    if side.First? || first then First else Second
  }

  // ---------------------------------------------------------------------
  // Verdicts
  // ---------------------------------------------------------------------

  lemma SilentProbe(mls: Mls, me: Pubkey, fp: Fingerprint, probe: Group, rec: Record)
    requires EpochNamesContext(mls) && SilentAt(mls, me, fp, rec)
    requires FingerprintOf(probe.state) == fp && probe.pending == []
    ensures var s := SignalOn(mls, me, probe, rec);
            !s.signal.Signal? && FingerprintOf(s.probe.state) == fp && s.probe.pending == []
  {
    var o := mls.open(probe.state, rec.wire);
    if o.Some? {
      var out := mls.process(probe.state, o.value);
      assert out.NewState? ==> FingerprintOf(out.state) == fp;
      assert out.Application? ==> FingerprintOf(out.state) == fp;
    }
  }

  /** The verdict never names a branch on which no third party speaks. */
  lemma {:induction false} VerdictSparesTheSilent(
    mls: Mls, me: Pubkey, ours: Group, other: Group, outbound: seq<Message>, records: seq<Record>, fp: Fingerprint)
    requires EpochNamesContext(mls)
    requires forall rec | rec in records :: SilentAt(mls, me, fp, rec)
    ensures FingerprintOf(ours.state) == fp && ours.pending == [] ==>
              Verdict(mls, me, ours, other, outbound, records) != Some(false)
    ensures FingerprintOf(other.state) == fp && other.pending == [] ==>
              Verdict(mls, me, ours, other, outbound, records) != Some(true)
    decreases records
  {
    if records != [] {
      var a, b := SignalOn(mls, me, ours, records[0]), SignalOn(mls, me, other, records[0]);
      if FingerprintOf(ours.state) == fp && ours.pending == [] {
        SilentProbe(mls, me, fp, ours, records[0]);
      }
      if FingerprintOf(other.state) == fp && other.pending == [] {
        SilentProbe(mls, me, fp, other, records[0]);
      }
      VerdictSparesTheSilent(mls, me, ours, other, outbound, records[1..], fp);
      VerdictSparesTheSilent(mls, me, a.probe, b.probe, outbound, records[1..], fp);
    }
  }

  // ---------------------------------------------------------------------
  // One resolution
  // ---------------------------------------------------------------------

  lemma WalkFromHead(store: Store, doc: Document, address: Address, hops: nat)
    requires hops == MAX_HOPS && address != NO_ADDRESS && address in store && store[address] == doc
    ensures WalkFrom(store, Some(doc), address) == Walk(store, address, hops)
    ensures WalkFrom(store, None, address) == Walk(store, address, hops)
  {
    WalkHead(store, address, hops);
  }

  /** Whatever tier decides, the branch of the first Commit is the one kept or adopted. */
  lemma RulingFollowsFirst(mls: Mls, me: Pubkey, r: Race, store: Store, g: Group, d: Delivery, onFirst: bool)
    requires IsRace(r) && EpochNamesContext(mls)
    requires OnSide(r, store, g, onFirst) && OfBranch(r, store, d, !onFirst)
    requires FollowsFirst(mls, me, r, d.fetched)
    ensures Rule(mls, me, g, d.doc.state.value, r.a.epoch, d.doc, d.address, Some(store), d.fetched).adopt == !onFirst
  {
    var theirs := d.doc.state.value;
    if d.fetched.Some? {
      VerdictSparesTheSilent(mls, me, Probe(g, g.state), Probe(g, theirs), g.messages, d.fetched.value, r.b);
    }
    WalkFromHead(store, d.doc, d.address, MAX_HOPS);
  }

  /** Adopting a document of a branch puts the device on that branch, with its Commit's place on record. */
  lemma AdoptLands(r: Race, store: Store, g: Group, d: Delivery, first: bool)
    requires IsRace(r) && OfBranch(r, store, d, first)
    requires g.decision.Some? && g.decision.value.epoch == r.a.epoch ==> g.decision.value.fingerprint == r.a
    ensures OnSide(r, store, Adopt(g, d.doc.state.value, d.address, d.doc.cursor), first)
  {
    WalkFromHead(store, d.doc, d.address, MAX_HOPS);
  }

  /** A device at the base state takes any document of either branch as a plain advance. */
  lemma {:induction false} BaseMeetsNoFork(links: seq<Link>, gid: nat, base: Fingerprint, held: map<nat, Fingerprint>)
    requires RootedAt(links, gid, base) && base.epoch in held && held[base.epoch] == base
    ensures !Meet(links, gid, base.epoch, held).ForkedAt?
  {
    if links != [] && SameGroup(links[0], gid) && EpochOf(links[0]) > base.epoch {
      BaseMeetsNoFork(links[1..], gid, base, held);
    }
  }

  /** The state just noted is retained, as the newest a device has held. */
  lemma NoteHoldsOwn(held: map<nat, Fingerprint>, f: Fingerprint)
    requires forall e | e in held :: e <= f.epoch
    ensures f.epoch in Note(held, f) && Note(held, f)[f.epoch] == f
  {
    var grown := held[f.epoch := f];
    TrimKeepsGreatest(grown);
    if f.epoch !in Note(held, f) {
      assert |Note(held, f).Keys| == RETAINED_FINGERPRINTS;
      var e :| e in Note(held, f).Keys;
    }
  }

  // ---------------------------------------------------------------------
  // Convergence
  // ---------------------------------------------------------------------

  ghost function Apply(mls: Mls, me: Pubkey, store: Store, local: Option<Group>, d: Delivery): Option<Group> {
    if d.doc.GroupDocument? then ApplyDocument(mls, me, local, d.doc, d.address, Some(store), d.fetched).group else local
  }

  lemma FreshSeeds(mls: Mls, me: Pubkey, r: Race, store: Store, d: Delivery, first: bool)
    requires OfBranch(r, store, d, first)
    ensures var g := Apply(mls, me, store, None, d); g.Some? && OnSide(r, store, g.value, first)
  {
    WalkFromHead(store, d.doc, d.address, MAX_HOPS);
  }

  lemma BaseAdvances(mls: Mls, me: Pubkey, r: Race, store: Store, g: Group, d: Delivery, first: bool)
    requires IsRace(r) && At(r, store, Some(g), AtBase) && OfBranch(r, store, d, first)
    ensures var next := Apply(mls, me, store, Some(g), d); next.Some? && OnSide(r, store, next.value, first)
  {
    var noted := NoteGroup(g);
    NoteHoldsOwn(g.held, r.base);
    BaseMeetsNoFork(Walk(store, d.doc.prev, MAX_HOPS), d.doc.gid, r.base, noted.held);
    AdoptLands(r, store, noted, d, first);
  }

  lemma SameBranchStays(mls: Mls, me: Pubkey, r: Race, store: Store, g: Group, d: Delivery, first: bool)
    requires IsRace(r) && OnSide(r, store, g, first) && OfBranch(r, store, d, first)
    ensures var next := Apply(mls, me, store, Some(g), d); next.Some? && OnSide(r, store, next.value, first)
  {
    hide RootedAt, Note, LowestAt, Walk;
    WalkFromHead(store, d.doc, d.address, MAX_HOPS);
  }

  lemma OtherBranchResolves(mls: Mls, me: Pubkey, r: Race, store: Store, g: Group, d: Delivery, first: bool)
    requires IsRace(r) && EpochNamesContext(mls) && FollowsFirst(mls, me, r, d.fetched)
    requires OnSide(r, store, g, !first) && OfBranch(r, store, d, first)
    ensures var next := Apply(mls, me, store, Some(g), d); next.Some? && OnSide(r, store, next.value, true)
  {
    hide RootedAt, Note, LowestAt, Walk, ThirdPartyVerdict, RankBranches, FollowsFirst;
    var noted := NoteGroup(g);
    RulingFollowsFirst(mls, me, r, store, noted, d, !first);
    if first {
      var ruling := Rule(mls, me, noted, d.doc.state.value, r.a.epoch, d.doc, d.address, Some(store), d.fetched);
      AdoptLands(r, store, Resolve(noted, d.doc.state.value, r.a.epoch, ruling), d, true);
    }
  }

  /** Applying one document of either branch moves a device as the race says it should. */
  lemma DeliveryMoves(mls: Mls, me: Pubkey, r: Race, store: Store, local: Option<Group>, d: Delivery, side: Side, first: bool)
    requires IsRace(r) && EpochNamesContext(mls) && FollowsFirst(mls, me, r, d.fetched)
    requires At(r, store, local, side) && OfBranch(r, store, d, first)
    ensures At(r, store, Apply(mls, me, store, local, d), NextSide(side, first))
  {
    hide Apply, OnSide, OfBranch, FollowsFirst;
    if side == Absent {
      FreshSeeds(mls, me, r, store, d, first);
    } else if side == AtBase {
      BaseAdvances(mls, me, r, store, local.value, d, first);
    } else if (side == First) == first {
      SameBranchStays(mls, me, r, store, local.value, d, first);
    } else {
      OtherBranchResolves(mls, me, r, store, local.value, d, first);
    }
  }

  /** The deliveries a device receives, each marked with the branch it belongs to. */
  datatype Marked = Marked(delivery: Delivery, first: bool)

  ghost function ApplyAll(mls: Mls, me: Pubkey, store: Store, local: Option<Group>, deliveries: seq<Marked>): Option<Group>
    decreases deliveries
  {
    if deliveries == [] then local
    else ApplyAll(mls, me, store, Apply(mls, me, store, local, deliveries[0].delivery), deliveries[1..])
  }

  ghost predicate AllOfRace(mls: Mls, me: Pubkey, r: Race, store: Store, deliveries: seq<Marked>) {
    forall m | m in deliveries :: OfBranch(r, store, m.delivery, m.first) && FollowsFirst(mls, me, r, m.delivery.fetched)
  }

  /** Where a device ends: on the first branch if it ever saw it, else on the second if it saw that. */
  function EndSide(side: Side, deliveries: seq<Marked>): Side {
    if side == First || exists m | m in deliveries :: m.first then First
    else if deliveries == [] then side
    else Second
  }

  /**
   * Every device - a racer, a bystander at the base state or a fresh one - that
   * applies documents of the two branches, in any order and any number of
   * times, ends on the branch of the first Commit as soon as it has seen it.
   */
  lemma {:induction false} EveryDeviceConverges(
    mls: Mls, me: Pubkey, r: Race, store: Store, local: Option<Group>, side: Side, deliveries: seq<Marked>)
    requires IsRace(r) && EpochNamesContext(mls)
    requires At(r, store, local, side) && AllOfRace(mls, me, r, store, deliveries)
    ensures At(r, store, ApplyAll(mls, me, store, local, deliveries), EndSide(side, deliveries))
    ensures (exists m | m in deliveries :: m.first) ==>
              var g := ApplyAll(mls, me, store, local, deliveries);
              g.Some? && FingerprintOf(g.value.state) == r.a
    decreases deliveries
  {
    if deliveries != [] {
      var m := deliveries[0];
      assert m in deliveries;
      DeliveryMoves(mls, me, r, store, local, m.delivery, side, m.first);
      var next := Apply(mls, me, store, local, m.delivery);
      EveryDeviceConverges(mls, me, r, store, next, NextSide(side, m.first), deliveries[1..]);
      EndSideCons(side, deliveries);
    }
  }

  lemma EndSideCons(side: Side, deliveries: seq<Marked>)
    requires deliveries != []
    ensures EndSide(side, deliveries) == EndSide(NextSide(side, deliveries[0].first), deliveries[1..])
  {
    assert deliveries[0] in deliveries;
    assert forall m :: m in deliveries <==> m == deliveries[0] || m in deliveries[1..];
  }

  // ---------------------------------------------------------------------
  // The racers: what an own Commit leaves behind
  // ---------------------------------------------------------------------

  /** A device about to race: at the base state, with nothing decided or published about the fork yet. */
  ghost predicate AboutToRace(r: Race, store: Store, g: Group) {
    && FingerprintOf(g.state) == r.base
    && !(g.decision.Some? && g.decision.value.epoch == r.a.epoch)
    && (g.appliedDocument.Some? ==>
          LowestAt(WalkFrom(store, None, g.appliedDocument.value.address), r.a.epoch).None?)
  }

  /** A stretch of the log that neither moves the epoch nor holds a Commit of the shared leaf. */
  ghost predicate Harmless(mls: Mls, fp: Fingerprint, leaf: Option<nat>, rec: Record) {
    forall s | FingerprintOf(s) == fp && s.ownLeaf == leaf && mls.open(s, rec.wire).Some? ::
      match mls.process(s, mls.open(s, rec.wire).value)
      case NewState(t) => t.epoch == s.epoch
      case Application(t, _, _) => t.epoch == s.epoch
      case RemovedLike(sender) => sender.None? || sender != leaf
      case _ => true
  }

  /** The sibling's Commit from the base state: it opens there, and only the shared leaf could have made it. */
  ghost predicate SiblingCommit(mls: Mls, fp: Fingerprint, leaf: nat, rec: Record) {
    forall s | FingerprintOf(s) == fp && s.ownLeaf == Some(leaf) ::
      mls.open(s, rec.wire).Some? && mls.process(s, mls.open(s, rec.wire).value) == RemovedLike(Some(leaf))
  }

  ghost predicate StillAt(probe: Group, fp: Fingerprint, leaf: Option<nat>) {
    FingerprintOf(probe.state) == fp && probe.state.ownLeaf == leaf && probe.pending == []
  }

  lemma {:induction false} QuietProbe(mls: Mls, probe: Group, records: seq<Record>, fp: Fingerprint, leaf: Option<nat>)
    requires EpochNamesContext(mls) && StillAt(probe, fp, leaf) && probe.skippedSibling.None?
    requires forall rec | rec in records :: Harmless(mls, fp, leaf, rec)
    ensures var p := ProbeAll(mls, probe, records); p.state.epoch == fp.epoch && p.skippedSibling.None?
    decreases records
  {
    if records != [] {
      var rec := records[0];
      assert Harmless(mls, fp, leaf, rec);
      var o := mls.open(probe.state, rec.wire);
      if o.Some? {
        var out := mls.process(probe.state, o.value);
        assert out.NewState? ==> FingerprintOf(out.state) == fp && out.state.ownLeaf == leaf;
        assert out.Application? ==> FingerprintOf(out.state) == fp && out.state.ownLeaf == leaf;
      }
      QuietProbe(mls, ProbeOne(mls, probe, rec).group, records[1..], fp, leaf);
    }
  }

  /** Once a probe has left the base epoch or skipped a sibling's Commit, it stays that way. */
  lemma {:induction false} TellsForever(mls: Mls, probe: Group, records: seq<Record>, epoch: nat)
    requires NeverGoesBack(mls) && (probe.state.epoch > epoch || probe.skippedSibling.Some?)
    ensures var p := ProbeAll(mls, probe, records); p.state.epoch > epoch || p.skippedSibling.Some?
    decreases records
  {
    if records != [] {
      ProbeNeverGoesBack(mls, probe, records[0]);
      TellsForever(mls, ProbeOne(mls, probe, records[0]).group, records[1..], epoch);
    }
  }

  lemma SkippedStays(mls: Mls, g: Group, cursor: nat, at: nat, o: Opaque)
    ensures g.skippedSibling.Some? ==> IngestOne(mls, g, cursor, at, o).group.skippedSibling.Some?
  {
  }

  lemma ProbeNeverGoesBack(mls: Mls, probe: Group, rec: Record)
    requires NeverGoesBack(mls)
    ensures ProbeOne(mls, probe, rec).group.state.epoch >= probe.state.epoch
    ensures probe.skippedSibling.Some? ==> ProbeOne(mls, probe, rec).group.skippedSibling.Some?
  {
    hide IngestOne;
    var o := mls.open(probe.state, rec.wire);
    if o.Some? {
      IngestOneKeeps(mls, probe, rec.cursor, rec.at, o.value);
      SkippedStays(mls, probe, rec.cursor, rec.at, o.value);
    }
  }

  /** A probe stores only what others sent. */
  lemma ProbeAddsNoOutbound(mls: Mls, probe: Group, rec: Record, cursor: nat)
    requires NeverGoesBack(mls)
    ensures OutboundAt(ProbeOne(mls, probe, rec).group.messages, cursor) ==> OutboundAt(probe.messages, cursor)
  {
    var o := mls.open(probe.state, rec.wire);
    if o.Some? {
      IngestOneKeeps(mls, probe, rec.cursor, rec.at, o.value);
      hide IngestOne;
    }
  }

  lemma {:induction false} LoserSeesSibling(mls: Mls, probe: Group, records: seq<Record>, fp: Fingerprint, leaf: nat, rec: Record)
    requires EpochNamesContext(mls) && NeverGoesBack(mls) && StillAt(probe, fp, Some(leaf))
    requires rec in records && SiblingCommit(mls, fp, leaf, rec) && !OutboundAt(probe.messages, rec.cursor)
    ensures var p := ProbeAll(mls, probe, records); p.state.epoch > fp.epoch || p.skippedSibling.Some?
    decreases records
  {
    var head := records[0];
    var next := ProbeOne(mls, probe, head).group;
    if head == rec {
      assert next.skippedSibling.Some?;
      TellsForever(mls, next, records[1..], fp.epoch);
    } else {
      ProbeAddsNoOutbound(mls, probe, head, rec.cursor);
      StaysOrLeaves(mls, probe, head, fp, Some(leaf));
      if next.state.epoch > fp.epoch {
        TellsForever(mls, next, records[1..], fp.epoch);
      } else {
        LoserSeesSibling(mls, next, records[1..], fp, leaf, rec);
      }
    }
  }

  lemma StaysOrLeaves(mls: Mls, probe: Group, rec: Record, fp: Fingerprint, leaf: Option<nat>)
    requires EpochNamesContext(mls) && NeverGoesBack(mls) && StillAt(probe, fp, leaf)
    ensures var next := ProbeOne(mls, probe, rec).group; next.state.epoch > fp.epoch || StillAt(next, fp, leaf)
  {
    var o := mls.open(probe.state, rec.wire);
    if o.Some? {
      var out := mls.process(probe.state, o.value);
      assert out.NewState? ==> out.state.epoch >= probe.state.epoch;
      assert out.Application? ==> out.state.epoch >= probe.state.epoch;
    }
  }

  /** The device whose Commit came first finds nothing before it that could have won. */
  lemma WinnerLearnsNoLoss(mls: Mls, g: Group, cursor: nat, wire: Wire, fetched: seq<Record>)
    requires EpochNamesContext(mls)
    requires forall rec | rec in Earlier(fetched, cursor, wire) :: Harmless(mls, FingerprintOf(g.state), g.state.ownLeaf, rec)
    requires !(g.skippedSibling.Some? && g.skippedSibling.value.epoch == g.state.epoch)
    ensures RaceLost(mls, g, cursor, wire, Some(fetched)) == Some(false)
  {
    QuietProbe(mls, Probe(g, g.state), Earlier(fetched, cursor, wire), FingerprintOf(g.state), g.state.ownLeaf);
  }

  /** The device whose Commit came second finds the sibling's Commit before its own. */
  lemma LoserLearnsLoss(mls: Mls, g: Group, cursor: nat, wire: Wire, fetched: seq<Record>, leaf: nat, rec: Record)
    requires EpochNamesContext(mls) && NeverGoesBack(mls) && g.state.ownLeaf == Some(leaf)
    requires rec in Earlier(fetched, cursor, wire) && SiblingCommit(mls, FingerprintOf(g.state), leaf, rec)
    requires !OutboundAt(g.messages, rec.cursor)
    ensures RaceLost(mls, g, cursor, wire, Some(fetched)) == Some(true)
  {
    LoserSeesSibling(mls, Probe(g, g.state), Earlier(fetched, cursor, wire), FingerprintOf(g.state), leaf, rec);
  }

  /** What the coordinator can have shown a racer: the truth about the race, or nothing at all. */
  ghost predicate TruthOrNothing(mls: Mls, g: Group, cursor: nat, wire: Wire, fetched: Option<seq<Record>>, first: bool) {
    var lost := RaceLost(mls, NoteGroup(g), cursor, wire, fetched);
    lost.None? || lost == Some(!first)
  }

  /** The marker a racer carries out of its Commit: fresh evidence, or the old marker when there was none. */
  function MarkerAfter(branch: Option<Branch>, lost: Option<bool>): Option<bool> {
    match lost
    case Some(true) => Some(true)
    case Some(false) => Some(branch.Some? && branch.value.dead)
    case None => if branch.Some? then Some(branch.value.dead) else None
  }

  /**
   * A racer is ready for the race's documents if and only if the marker it
   * carried into its Commit does not contradict the outcome: a device on the
   * first branch must not have been marked dead before, and a device on the
   * second that learns nothing must not still be marked live.
   */
  lemma RacerIsReadyIff(
    mls: Mls, r: Race, store: Store, g: Group, next: ClientState, wire: Wire, fetched: Option<seq<Record>>, first: bool)
    requires IsRace(r) && AboutToRace(r, store, g) && FingerprintOf(next) == BranchOf(r, first)
    requires TruthOrNothing(mls, g, CursorOf(r, first), wire, fetched, first)
    ensures var lost := RaceLost(mls, NoteGroup(g), CursorOf(r, first), wire, fetched);
            var marker := MarkerAfter(g.branch, lost);
            var racer := AdoptOwnCommit(mls, g, next, CursorOf(r, first), wire, fetched);
            OnSide(r, store, racer, first) <==> (marker.None? || marker == Some(!first))
  {
    hide RaceLost;
  }

  /** From the common base through its own Commit to any exchange of documents: a racer converges too. */
  lemma RacerConverges(
    mls: Mls, me: Pubkey, r: Race, store: Store, g: Group, next: ClientState, wire: Wire,
    fetched: Option<seq<Record>>, first: bool, deliveries: seq<Marked>)
    requires IsRace(r) && EpochNamesContext(mls)
    requires AboutToRace(r, store, g) && FingerprintOf(next) == BranchOf(r, first)
    requires TruthOrNothing(mls, g, CursorOf(r, first), wire, fetched, first)
    requires var marker := MarkerAfter(g.branch, RaceLost(mls, NoteGroup(g), CursorOf(r, first), wire, fetched));
             marker.None? || marker == Some(!first)
    requires AllOfRace(mls, me, r, store, deliveries) && (first || exists m | m in deliveries :: m.first)
    ensures var racer := AdoptOwnCommit(mls, g, next, CursorOf(r, first), wire, fetched);
            var end := ApplyAll(mls, me, store, Some(racer), deliveries);
            end.Some? && FingerprintOf(end.value.state) == r.a
  {
    hide RaceLost, AdoptOwnCommit, ApplyAll, AllOfRace;
    RacerIsReadyIff(mls, r, store, g, next, wire, fetched, first);
    var racer := AdoptOwnCommit(mls, g, next, CursorOf(r, first), wire, fetched);
    EveryDeviceConverges(mls, me, r, store, Some(racer), if first then First else Second, deliveries);
  }

  /** With a stale marker, coordinator order is trusted without looking at its epoch, and the device ends on the wrong side. */
  lemma MarkerDecides(mls: Mls, me: Pubkey, r: Race, store: Store, g: Group, d: Delivery, onFirst: bool)
    requires IsRace(r) && OfBranch(r, store, d, !onFirst)
    requires FingerprintOf(g.state) == BranchOf(r, onFirst) && g.branch.Some?
    ensures var next := Apply(mls, me, store, Some(g), d);
            next.Some? && (FingerprintOf(next.value.state) == r.a <==> Honest(g.branch, onFirst))
  {
  }

  /** The device holds the second branch and the marker of an old win. */
  ghost predicate HoldsOldWin(r: Race, local: Option<Group>, since: nat) {
    local.Some? && FingerprintOf(local.value.state) == r.b && local.value.branch == Some(Branch(false, since))
  }

  lemma OldWinHolds(mls: Mls, me: Pubkey, r: Race, store: Store, local: Option<Group>, d: Delivery, first: bool, since: nat)
    requires IsRace(r) && HoldsOldWin(r, local, since) && OfBranch(r, store, d, first)
    ensures HoldsOldWin(r, Apply(mls, me, store, local, d), since)
  {
    hide Walk, Meet, Note;
  }

  lemma {:induction false} OldWinHoldsForever(
    mls: Mls, me: Pubkey, r: Race, store: Store, local: Option<Group>, deliveries: seq<Marked>, since: nat)
    requires IsRace(r) && HoldsOldWin(r, local, since)
    requires forall m | m in deliveries :: OfBranch(r, store, m.delivery, m.first)
    ensures HoldsOldWin(r, ApplyAll(mls, me, store, local, deliveries), since)
    decreases deliveries
  {
    hide Apply, OfBranch, HoldsOldWin;
    if deliveries != [] {
      var m := deliveries[0];
      assert m in deliveries;
      OldWinHolds(mls, me, r, store, local, m.delivery, m.first, since);
      OldWinHoldsForever(mls, me, r, store, Apply(mls, me, store, local, m.delivery), deliveries[1..], since);
    }
  }

  /**
   * A concrete stale marker: a device that won an earlier race and then loses
   * one while the coordinator cannot be reached keeps the marker of its win, and
   * through every list of documents of the two branches stays on the losing one,
   * whatever the other evidence says.
   */
  lemma StaleWinNeverConverges(
    mls: Mls, me: Pubkey, r: Race, store: Store, g: Group, next: ClientState, wire: Wire, deliveries: seq<Marked>)
    requires IsRace(r) && AboutToRace(r, store, g) && FingerprintOf(next) == r.b
    requires g.branch == Some(Branch(false, r.base.epoch)) && g.skippedSibling.None?
    requires forall m | m in deliveries :: OfBranch(r, store, m.delivery, m.first)
    ensures var racer := AdoptOwnCommit(mls, g, next, r.kb, wire, None);
            var end := ApplyAll(mls, me, store, Some(racer), deliveries);
            end.Some? && FingerprintOf(end.value.state) == r.b && end.value.branch == g.branch
  {
    var racer := AdoptOwnCommit(mls, g, next, r.kb, wire, None);
    assert HoldsOldWin(r, Some(racer), r.base.epoch) by {
      hide Note;
    }
    hide AdoptOwnCommit, OfBranch, ApplyAll;
    OldWinHoldsForever(mls, me, r, store, Some(racer), deliveries, r.base.epoch);
  }

  // ---------------------------------------------------------------------
  // From the log to convergence
  // ---------------------------------------------------------------------

  predicate SkippedHere(g: Group) { g.skippedSibling.Some? && g.skippedSibling.value.epoch == g.state.epoch }

  /**
   * What a racer's log looks like when its Commit lands: before the first Commit
   * nothing unread could have won; before the second lies the first, unread, or
   * it was passed over when it was read.
   */
  ghost predicate LogShowsRace(mls: Mls, r: Race, g: Group, landed: seq<Record>, wire: Wire, leaf: nat, first: bool) {
    if first then
      && !SkippedHere(g)
      && forall rec | rec in Others(FetchAfter(landed, g.fetchCursor), wire) :: Harmless(mls, r.base, Some(leaf), rec)
    else
      || SkippedHere(g)
      || (&& g.fetchCursor < r.ka <= |landed| && landed[r.ka - 1].wire != wire && !OutboundAt(g.messages, r.ka)
          && SiblingCommit(mls, r.base, leaf, landed[r.ka - 1]))
  }

  /** The log of a race tells a racer the truth, if it can be fetched. */
  lemma LogTellsTruth(
    mls: Mls, r: Race, g: Group, landed: seq<Record>, at: nat, wire: Wire, leaf: nat, visible: bool, first: bool)
    requires NeverGoesBack(mls) && EpochNamesContext(mls) && Dense(landed) && g.fetchCursor <= |landed|
    requires FingerprintOf(g.state) == r.base && g.state.ownLeaf == Some(leaf)
    requires LogShowsRace(mls, r, g, landed, wire, leaf, first)
    ensures var fetched := if visible then Some(FetchAfter(Append(landed, at, wire), g.fetchCursor)) else None;
            var lost := RaceLost(mls, NoteGroup(g), |landed| + 1, wire, fetched);
            && TruthOrNothing(mls, g, |landed| + 1, wire, fetched, first)
            && (lost.None? <==> !visible && !SkippedHere(g))
  {
    hide Harmless, SiblingCommit;
    var fetched := FetchAfter(Append(landed, at, wire), g.fetchCursor);
    var noted := NoteGroup(g);
    RaceReadsWhatLanded(landed, g.fetchCursor, [], at, wire);
    assert Landed(landed, []) == landed;
    if !SkippedHere(g) && visible {
      if first {
        WinnerLearnsNoLoss(mls, noted, |landed| + 1, wire, fetched);
      } else {
        var rec := landed[r.ka - 1];
        assert FetchAfter(landed, g.fetchCursor)[r.ka - 1 - g.fetchCursor] == rec;
        OthersIn(FetchAfter(landed, g.fetchCursor), wire, rec);
        LoserLearnsLoss(mls, noted, |landed| + 1, wire, fetched, leaf, rec);
      }
    }
  }

  /** The marker carried into the race is overwritten by evidence, or does not contradict the outcome. */
  predicate MarkerHarmless(g: Group, visible: bool, first: bool) {
    g.branch.None? || g.branch.value.dead == !first || (!first && (visible || SkippedHere(g)))
  }

  /** An own Commit that lands in a race: what the operation caught up with, and what landed meanwhile, show it. */
  ghost predicate RacesFromLog(mls: Mls, r: Race, store: Store, w: World, op: Op, leaf: nat, first: bool) {
    && IsRace(r) && op.Commit? && op.post.Stored? && FingerprintOf(op.next) == BranchOf(r, first)
    && var (caught, go) := CatchUp(mls, w, op.line, op.budget);
       var landed := Landed(caught.log, op.meanwhile);
       && go && Dense(caught.log) && caught.group.fetchCursor <= |caught.log|
       && |landed| + 1 == CursorOf(r, first)
       && AboutToRace(r, store, caught.group) && caught.group.state.ownLeaf == Some(leaf)
       && LogShowsRace(mls, r, caught.group, landed, op.wire, leaf, first)
  }

  /** The marker that the racer brings to its Commit is harmless. */
  predicate ComesUnmarked(mls: Mls, w: World, op: Op, first: bool)
    requires op.Commit?
  {
    MarkerHarmless(CatchUp(mls, w, op.line, op.budget).0.group, op.raceVisible, first)
  }

  /**
   * A whole race, from the log: a device catches up or is fed by its stream,
   * others - its sibling among them - post meanwhile, its own Commit lands, and
   * documents of both branches reach it in any order. It ends on the branch of
   * the first Commit; what the race probe concludes follows from the log.
   */
  lemma RaceConvergesFromLog(
    mls: Mls, me: Pubkey, r: Race, store: Store, w: World, op: Op, leaf: nat, first: bool, deliveries: seq<Marked>)
    requires NeverGoesBack(mls) && EpochNamesContext(mls)
    requires RacesFromLog(mls, r, store, w, op, leaf, first) && ComesUnmarked(mls, w, op, first)
    requires AllOfRace(mls, me, r, store, deliveries) && (first || exists m | m in deliveries :: m.first)
    ensures var end := ApplyAll(mls, me, store, Some(Perform(mls, me, w, op).group), deliveries);
            end.Some? && FingerprintOf(end.value.state) == r.a
  {
    var caught := CatchUp(mls, w, op.line, op.budget).0;
    hide CatchUp, ApplyAll, AllOfRace, OnSide, LogShowsRace, Landed;
    var landed := Landed(caught.log, op.meanwhile);
    LandedEnds(caught.log, op.meanwhile);
    RacerLandsOnSide(mls, r, store, caught.(log := landed), op, leaf, first);
    EveryDeviceConverges(
      mls, me, r, store, Some(Perform(mls, me, w, op).group), if first then First else Second, deliveries);
  }

  ghost predicate EndsOnFirst(mls: Mls, me: Pubkey, r: Race, store: Store, local: Option<Group>, deliveries: seq<Marked>) {
    var end := ApplyAll(mls, me, store, local, deliveries);
    end.Some? && FingerprintOf(end.value.state) == r.a
  }

  /** Whatever documents of the race reach the device, it ends on the first branch once it has seen that branch. */
  ghost predicate Converges(mls: Mls, me: Pubkey, r: Race, store: Store, local: Option<Group>, first: bool) {
    forall deliveries: seq<Marked>
      | AllOfRace(mls, me, r, store, deliveries) && (first || exists m | m in deliveries :: m.first) ::
      EndsOnFirst(mls, me, r, store, local, deliveries)
  }

  /**
   * A racer converges through every list of documents if and only if it came
   * without a marker, with a true one, or - on the second branch - with evidence
   * that overwrites a false one. `d` is any document of the other branch.
   */
  lemma RaceConvergesIff(
    mls: Mls, me: Pubkey, r: Race, store: Store, w: World, op: Op, leaf: nat, first: bool, d: Delivery)
    requires NeverGoesBack(mls) && EpochNamesContext(mls)
    requires RacesFromLog(mls, r, store, w, op, leaf, first)
    requires OfBranch(r, store, d, !first) && FollowsFirst(mls, me, r, d.fetched)
    ensures Converges(mls, me, r, store, Some(Perform(mls, me, w, op).group), first) <==> ComesUnmarked(mls, w, op, first)
  {
    assert op.Commit?;
    hide Perform, RacesFromLog, Converges, OfBranch, FollowsFirst, ComesUnmarked;
    if ComesUnmarked(mls, w, op, first) {
      forall deliveries: seq<Marked>
        | AllOfRace(mls, me, r, store, deliveries) && (first || exists m | m in deliveries :: m.first)
        ensures EndsOnFirst(mls, me, r, store, Some(Perform(mls, me, w, op).group), deliveries)
      {
        RaceConvergesFromLog(mls, me, r, store, w, op, leaf, first, deliveries);
      }
      EndsAlways(mls, me, r, store, Some(Perform(mls, me, w, op).group), first);
    } else {
      MarkedRacerIsMisled(mls, me, r, store, w, op, leaf, first, d);
      MisledOnce(mls, me, r, store, Some(Perform(mls, me, w, op).group), first, d);
    }
  }

  lemma EndsAlways(mls: Mls, me: Pubkey, r: Race, store: Store, local: Option<Group>, first: bool)
    requires forall deliveries: seq<Marked>
               | AllOfRace(mls, me, r, store, deliveries) && (first || exists m | m in deliveries :: m.first) ::
               EndsOnFirst(mls, me, r, store, local, deliveries)
    ensures Converges(mls, me, r, store, local, first)
  {
    hide ApplyAll, AllOfRace;
  }

  lemma MisledOnce(mls: Mls, me: Pubkey, r: Race, store: Store, local: Option<Group>, first: bool, d: Delivery)
    requires OfBranch(r, store, d, !first) && FollowsFirst(mls, me, r, d.fetched)
    requires var end := Apply(mls, me, store, local, d); end.Some? && FingerprintOf(end.value.state) != r.a
    ensures !Converges(mls, me, r, store, local, first)
  {
    var one := [Marked(d, !first)];
    OneDelivery(mls, me, store, local, one[0]);
    hide OfBranch, FollowsFirst, Apply, ApplyAll;
    assert AllOfRace(mls, me, r, store, one) && (first || one[0].first);
    assert !EndsOnFirst(mls, me, r, store, local, one);
  }

  lemma OneDelivery(mls: Mls, me: Pubkey, store: Store, local: Option<Group>, m: Marked)
    ensures ApplyAll(mls, me, store, local, [m]) == Apply(mls, me, store, local, m.delivery)
  {
    assert [m][1..] == [];
    hide Apply;
  }

  /** With a false marker one document of the other branch leads a racer to the second branch, or leaves it there. */
  lemma MarkedRacerIsMisled(
    mls: Mls, me: Pubkey, r: Race, store: Store, w: World, op: Op, leaf: nat, first: bool, d: Delivery)
    requires NeverGoesBack(mls) && EpochNamesContext(mls)
    requires RacesFromLog(mls, r, store, w, op, leaf, first) && !ComesUnmarked(mls, w, op, first)
    requires OfBranch(r, store, d, !first)
    ensures var end := Apply(mls, me, store, Some(Perform(mls, me, w, op).group), d);
            end.Some? && FingerprintOf(end.value.state) != r.a
  {
    var caught := CatchUp(mls, w, op.line, op.budget).0;
    hide CatchUp, OnSide, LogShowsRace, Landed, Apply, OfBranch, CommitTail;
    var landed := Landed(caught.log, op.meanwhile);
    LandedEnds(caught.log, op.meanwhile);
    RacerKeepsFalseMarker(mls, r, store, caught.(log := landed), op, leaf, first);
    MarkerDecides(mls, me, r, store, Perform(mls, me, w, op).group, d, first);
  }

  lemma RacerKeepsFalseMarker(mls: Mls, r: Race, store: Store, w: World, op: Op, leaf: nat, first: bool)
    requires NeverGoesBack(mls) && EpochNamesContext(mls) && IsRace(r)
    requires op.Commit? && op.post.Stored? && FingerprintOf(op.next) == BranchOf(r, first)
    requires Dense(w.log) && w.group.fetchCursor <= |w.log| && |w.log| + 1 == CursorOf(r, first)
    requires AboutToRace(r, store, w.group) && w.group.state.ownLeaf == Some(leaf)
    requires LogShowsRace(mls, r, w.group, w.log, op.wire, leaf, first) && !MarkerHarmless(w.group, op.raceVisible, first)
    ensures var racer := CommitTail(mls, w, op).group;
            FingerprintOf(racer.state) == BranchOf(r, first) && racer.branch.Some? && !Honest(racer.branch, first)
  {
    var g := Queued(w.group, op);
    var fetched := RaceFetch(w, op);
    CommitTailIs(mls, w, op);
    QueuedShowsRace(mls, r, store, w, op, leaf, first);
    LogTellsTruth(mls, r, g, w.log, op.at, op.wire, leaf, op.raceVisible, first);
    FalseMarkerStays(mls, g, |w.log| + 1, op.wire, fetched, op.raceVisible, first);
    RacerCarriesMarker(mls, g, op.next, |w.log| + 1, op.wire, fetched);
    hide AboutToRace, LogShowsRace, CommitTail, AdoptOwnCommit, RaceLost, MarkerAfter, Queued, RaceFetch, TruthOrNothing;
  }

  /** The racer's marker is the one its evidence and its old marker leave. */
  lemma RacerCarriesMarker(mls: Mls, g: Group, next: ClientState, cursor: nat, wire: Wire, fetched: Option<seq<Record>>)
    ensures var racer := AdoptOwnCommit(mls, g, next, cursor, wire, fetched);
            var marker := MarkerAfter(g.branch, RaceLost(mls, NoteGroup(g), cursor, wire, fetched));
            && racer.state == next
            && (racer.branch != g.branch ==> racer.branch.Some? && racer.branch.value.sinceEpoch == g.state.epoch + 1)
            && marker == if racer.branch.Some? then Some(racer.branch.value.dead) else None
  {
    hide RaceLost, Note;
  }

  lemma FalseMarkerStays(
    mls: Mls, g: Group, cursor: nat, wire: Wire, fetched: Option<seq<Record>>, visible: bool, first: bool)
    requires TruthOrNothing(mls, g, cursor, wire, fetched, first) && !MarkerHarmless(g, visible, first)
    requires RaceLost(mls, NoteGroup(g), cursor, wire, fetched).None? <==> !visible && !SkippedHere(g)
    ensures MarkerAfter(g.branch, RaceLost(mls, NoteGroup(g), cursor, wire, fetched)) == Some(first)
  {
    hide RaceLost, NoteGroup, SkippedHere;
  }

  lemma RacerLandsOnSide(mls: Mls, r: Race, store: Store, w: World, op: Op, leaf: nat, first: bool)
    requires NeverGoesBack(mls) && EpochNamesContext(mls) && IsRace(r)
    requires op.Commit? && op.post.Stored? && FingerprintOf(op.next) == BranchOf(r, first)
    requires Dense(w.log) && w.group.fetchCursor <= |w.log| && |w.log| + 1 == CursorOf(r, first)
    requires AboutToRace(r, store, w.group) && w.group.state.ownLeaf == Some(leaf)
    requires LogShowsRace(mls, r, w.group, w.log, op.wire, leaf, first) && MarkerHarmless(w.group, op.raceVisible, first)
    ensures OnSide(r, store, CommitTail(mls, w, op).group, first)
  {
    var g := Queued(w.group, op);
    var fetched := RaceFetch(w, op);
    var racer := AdoptOwnCommit(mls, g, op.next, |w.log| + 1, op.wire, fetched);
    CommitTailIs(mls, w, op);
    QueuedShowsRace(mls, r, store, w, op, leaf, first);
    LogTellsTruth(mls, r, g, w.log, op.at, op.wire, leaf, op.raceVisible, first);
    MarkerIsTrue(mls, g, |w.log| + 1, op.wire, fetched, op.raceVisible, first);
    RacerIsReadyIff(mls, r, store, g, op.next, op.wire, fetched, first);
    QueueIsNoEvidence(r, store, racer, CommitTail(mls, w, op).group.pending, first);
    hide *;
  }

  function Queued(g: Group, op: Op): Group
    requires op.Commit?
  {
    g.(pending := g.pending + [PendingCommit(op.commit, None, false, false)])
  }

  function RaceFetch(w: World, op: Op): Option<seq<Record>>
    requires op.Commit?
  {
    if op.raceVisible then Some(FetchAfter(Append(w.log, op.at, op.wire), w.group.fetchCursor)) else None
  }

  lemma CommitTailIs(mls: Mls, w: World, op: Op)
    requires op.Commit? && op.post.Stored?
    ensures var after := CommitTail(mls, w, op).group;
            after == AdoptOwnCommit(mls, Queued(w.group, op), op.next, |w.log| + 1, op.wire, RaceFetch(w, op)).(pending := after.pending)
  {
    hide AdoptOwnCommit, FetchAfter;
  }

  lemma QueuedShowsRace(mls: Mls, r: Race, store: Store, w: World, op: Op, leaf: nat, first: bool)
    requires op.Commit?
    ensures var g := Queued(w.group, op);
            && g.state == w.group.state && g.fetchCursor == w.group.fetchCursor
            && (AboutToRace(r, store, g) <==> AboutToRace(r, store, w.group))
            && (LogShowsRace(mls, r, g, w.log, op.wire, leaf, first) <==> LogShowsRace(mls, r, w.group, w.log, op.wire, leaf, first))
            && (MarkerHarmless(g, op.raceVisible, first) <==> MarkerHarmless(w.group, op.raceVisible, first))
            && RaceFetch(w, op)
               == if op.raceVisible then Some(FetchAfter(Append(w.log, op.at, op.wire), g.fetchCursor)) else None
  {
    hide LowestAt, WalkFrom, FetchAfter, Harmless, SiblingCommit, Others;
  }

  lemma MarkerIsTrue(
    mls: Mls, g: Group, cursor: nat, wire: Wire, fetched: Option<seq<Record>>, visible: bool, first: bool)
    requires TruthOrNothing(mls, g, cursor, wire, fetched, first) && MarkerHarmless(g, visible, first)
    requires RaceLost(mls, NoteGroup(g), cursor, wire, fetched).None? <==> !visible && !SkippedHere(g)
    ensures var marker := MarkerAfter(g.branch, RaceLost(mls, NoteGroup(g), cursor, wire, fetched));
            marker.None? || marker == Some(!first)
  {
    hide RaceLost, NoteGroup, SkippedHere;
  }

  lemma QueueIsNoEvidence(r: Race, store: Store, g: Group, pending: seq<PendingCommit>, first: bool)
    ensures OnSide(r, store, g.(pending := pending), first) <==> OnSide(r, store, g, first)
  {
    hide LowestAt, WalkFrom;
  }
}
