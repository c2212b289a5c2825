/**
 * Forks between devices that share one leaf: the evidence gathered around an
 * own Commit, the three-tier resolution, and what applying a group document
 * does. Each call is one atomic step.
 */
module Forks {
  import opened Base
  import opened Mls
  import opened GroupSync
  import opened Documents

  // ---------------------------------------------------------------------
  // Probes
  // ---------------------------------------------------------------------

  /** A throwaway copy of the group holding `state`; pending Commits are not consulted. */
  function Probe(g: Group, state: ClientState): Group {
    g.(state := state, pending := [], issues := [], skippedSibling := None)
  }

  /** Unseal and ingest one entry on a probe: what cannot be opened is passed over, a throw is swallowed. */
  function ProbeOne(mls: Mls, probe: Group, r: Record): Step {
    match mls.open(probe.state, r.wire)
    case None => Step(probe, None)
    case Some(o) => IngestOne(mls, probe, r.cursor, r.at, o)
  }

  function ProbeAll(mls: Mls, probe: Group, records: seq<Record>): Group
    decreases records
  {
    if records == [] then probe else ProbeAll(mls, ProbeOne(mls, probe, records[0]).group, records[1..])
  }

  // ---------------------------------------------------------------------
  // Coordinator order, gathered right after an own Commit was posted
  // ---------------------------------------------------------------------

  function Earlier(records: seq<Record>, cursor: nat, wire: Wire): seq<Record> {
    if records == [] then []
    else
      var rest := Earlier(records[1..], cursor, wire);
      if records[0].cursor < cursor && records[0].wire != wire then [records[0]] + rest else rest
  }

  /** Whether the own Commit lost its race; nothing when the fetch failed. */
  function RaceLost(mls: Mls, g: Group, cursor: nat, wire: Wire, fetched: Option<seq<Record>>): Option<bool> {
    if g.skippedSibling.Some? && g.skippedSibling.value.epoch == g.state.epoch then Some(true)
    else if fetched.None? then None
    else
      var earlier := Earlier(fetched.value, cursor, wire);
      if earlier == [] then Some(false)
      else
        var probe := ProbeAll(mls, Probe(g, g.state), earlier);
        Some(probe.state.epoch != g.state.epoch || probe.skippedSibling.Some?)
  }

  function MarkBranch(branch: Option<Branch>, lost: Option<bool>, sinceEpoch: nat): Option<Branch> {
    match lost
    case None => branch
    case Some(true) => Some(Branch(true, sinceEpoch))
    case Some(false) => if branch.Some? && branch.value.dead then branch else Some(Branch(false, sinceEpoch))
  }

  ghost function NoteGroup(g: Group): Group { g.(held := Note(g.held, FingerprintOf(g.state))) }

  ghost function RecordCommitRace(mls: Mls, g: Group, cursor: nat, wire: Wire, fetched: Option<seq<Record>>): Group {
    var noted := NoteGroup(g);
    noted.(branch := MarkBranch(g.branch, RaceLost(mls, noted, cursor, wire, fetched), g.state.epoch + 1))
  }

  /** The group after it adopted the state of its own Commit, posted at `cursor`. */
  ghost function AdoptOwnCommit(mls: Mls, g: Group, next: ClientState, cursor: nat, wire: Wire, fetched: Option<seq<Record>>): Group {
    var raced := RecordCommitRace(mls, g, cursor, wire, fetched);
    NoteGroup(raced.(state := next)).(commitPoint := Some(CommitPoint(next.epoch, cursor, next, false)))
  }

  // ---------------------------------------------------------------------
  // Third-party verdict
  // ---------------------------------------------------------------------

  datatype Signal = Opens | Closed | Signal

  datatype Signalled = Signalled(probe: Group, signal: Signal)

  function SignalOn(mls: Mls, me: Pubkey, probe: Group, r: Record): Signalled {
    if mls.open(probe.state, r.wire).None? then Signalled(probe, Closed)
    else
      var step := ProbeOne(mls, probe, r);
      var thirdParty :=
        || (step.did.Some? && step.did.value.StoredInbound? && step.did.value.message.sender != me)
        || step.group.state.epoch != probe.state.epoch;
      Signalled(step.group, if thirdParty then Signal else Opens)
  }

  /** The first entry that a third party sealed for exactly one of the branches; `true` names theirs. */
  function Verdict(mls: Mls, me: Pubkey, ours: Group, other: Group, outbound: seq<Message>, records: seq<Record>): Option<bool>
    decreases records
  {
    if records == [] then None
    else if OutboundAt(outbound, records[0].cursor) then Verdict(mls, me, ours, other, outbound, records[1..])
    else
      var a := SignalOn(mls, me, ours, records[0]);
      var b := SignalOn(mls, me, other, records[0]);
      if b.signal.Signal? && a.signal.Closed? then Some(true)
      else if a.signal.Signal? && b.signal.Closed? then Some(false)
      else Verdict(mls, me, a.probe, b.probe, outbound, records[1..])
  }

  function ThirdPartyVerdict(mls: Mls, me: Pubkey, g: Group, theirs: ClientState, fetched: Option<seq<Record>>): Option<bool> {
    match fetched
    case None => None
    case Some(records) => Verdict(mls, me, Probe(g, g.state), Probe(g, theirs), g.messages, records)
  }

  // ---------------------------------------------------------------------
  // Document rank
  // ---------------------------------------------------------------------

  /** Where this device's branch has its Commit: on the chain of its document, or at its own commit point. */
  function OwnPlace(g: Group, forkEpoch: nat, store: Store): Option<Placed> {
    var chained := if g.appliedDocument.Some?
                   then LowestAt(WalkFrom(store, None, g.appliedDocument.value.address), forkEpoch) else None;
    if g.commitPoint.Some? && g.commitPoint.value.epoch == forkEpoch
       && (chained.None? || g.commitPoint.value.cursor < chained.value.cursor)
    then Some(Placed(g.commitPoint.value.cursor, NO_ADDRESS))
    else chained
  }

  function RankLive(applied: Option<AppliedDocument>, cursor: nat, address: Address): bool {
    || applied.None?
    || address == NO_ADDRESS
    || cursor > applied.value.cursor
    || (cursor == applied.value.cursor && address > applied.value.address)
  }

  /** `true` when their branch ranks first. `access` is the chain, when it can be read at all. */
  function RankBranches(g: Group, forkEpoch: nat, entry: Document, address: Address, access: Option<Store>): bool
    requires entry.GroupDocument?
  {
    var theirs := if access.Some? && address != NO_ADDRESS
                  then LowestAt(WalkFrom(access.value, Some(entry), address), forkEpoch) else None;
    var ours := if access.Some? && address != NO_ADDRESS then OwnPlace(g, forkEpoch, access.value) else None;
    if theirs.Some? && ours.Some? then
      || theirs.value.cursor < ours.value.cursor
      || (theirs.value.cursor == ours.value.cursor && theirs.value.address > ours.value.address)
    else RankLive(g.appliedDocument, entry.cursor, address)
  }

  // ---------------------------------------------------------------------
  // Resolution
  // ---------------------------------------------------------------------

  datatype Ruling = Ruling(adopt: bool, basis: Evidence)

  function Rule(
    mls: Mls, me: Pubkey, g: Group, theirs: ClientState, forkEpoch: nat,
    entry: Document, address: Address, access: Option<Store>, fetched: Option<seq<Record>>): Ruling
    requires entry.GroupDocument?
  {
    if g.branch.Some? then Ruling(g.branch.value.dead, CoordinatorOrder)
    else
      match ThirdPartyVerdict(mls, me, g, theirs, fetched)
      case Some(verdict) => Ruling(verdict, ThirdParty)
      case None =>
        if g.decision.Some? && g.decision.value.epoch == forkEpoch then
          Ruling(g.decision.value.fingerprint == FingerprintOf(theirs), g.decision.value.basis)
        else Ruling(RankBranches(g, forkEpoch, entry, address, access), Rank)
  }

  function Resolve(g: Group, theirs: ClientState, forkEpoch: nat, ruling: Ruling): Group {
    var winner := if ruling.adopt then FingerprintOf(theirs) else FingerprintOf(g.state);
    Complain(g.(decision := Some(Decision(forkEpoch, winner, ruling.basis))), g.fetchCursor,
             ForkDetail(forkEpoch, ruling.adopt, ruling.basis))
  }

  // ---------------------------------------------------------------------
  // Applying a document
  // ---------------------------------------------------------------------

  datatype Applied = Seeded | FastForwarded | ForkResolved | Skipped | Failed

  datatype Reconciled = Reconciled(group: Option<Group>, outcome: Applied)

  function FreshGroup(state: ClientState, cursor: nat): Group {
    Group(state, false, None, cursor, cursor, [], [], [], None, None, map[], None, None, None)
  }

  ghost function WithDocument(g: Group, address: Address, cursor: nat): Group {
    if address == NO_ADDRESS then g
    else g.(appliedDocument := Some(AppliedDocument(address, cursor, FingerprintOf(g.state))))
  }

  ghost function Adopt(g: Group, theirs: ClientState, address: Address, cursor: nat): Group {
    var moved := NoteGroup(g.(
      state := theirs,
      fetchCursor := Max(g.fetchCursor, cursor),
      lastCursor := Max(g.lastCursor, cursor)));
    WithDocument(moved, address, cursor).(branch := None, skippedSibling := None, commitPoint := None, pending := [])
  }

  /** A document carrying the very state the device holds: only the record of the document moves on. */
  ghost function Republished(g: Group, address: Address, cursor: nat): Group {
    if address != NO_ADDRESS && (g.appliedDocument.None? || cursor > g.appliedDocument.value.cursor)
    then WithDocument(g, address, cursor) else g
  }

  ghost function ResolveAndAdopt(
    mls: Mls, me: Pubkey, g: Group, theirs: ClientState, forkEpoch: nat,
    entry: Document, address: Address, access: Option<Store>, fetched: Option<seq<Record>>): Reconciled
    requires entry.GroupDocument?
  {
    var ruling := Rule(mls, me, g, theirs, forkEpoch, entry, address, access, fetched);
    var resolved := Resolve(g, theirs, forkEpoch, ruling);
    if ruling.adopt then Reconciled(Some(Adopt(resolved, theirs, address, entry.cursor)), ForkResolved)
    else Reconciled(Some(resolved), Skipped)
  }

  /**
   * Apply one document of the group `gid`. `fetched` is what a fetch past the
   * local cursor would give now, if it succeeds.
   */
  ghost function ApplyDocument(
    mls: Mls, me: Pubkey, local: Option<Group>,
    entry: Document, address: Address, access: Option<Store>, fetched: Option<seq<Record>>): Reconciled
    requires entry.GroupDocument?
  {
    if entry.state.None? then Reconciled(local, if local.None? then Failed else Skipped)
    else if local.None? then
      Reconciled(Some(WithDocument(NoteGroup(FreshGroup(entry.state.value, entry.cursor)), address, entry.cursor)), Seeded)
    else
      var theirs := entry.state.value;
      var g := NoteGroup(local.value);
      if theirs.epoch < g.state.epoch then Reconciled(Some(g), Skipped)
      else if theirs.epoch == g.state.epoch then
        if FingerprintOf(theirs) == FingerprintOf(g.state) then
          Reconciled(Some(Republished(g, address, entry.cursor)), Skipped)
        else ResolveAndAdopt(mls, me, g, theirs, g.state.epoch, entry, address, access, fetched)
      else if access.None? then Reconciled(Some(Adopt(g, theirs, address, entry.cursor)), FastForwarded)
      else
        match Meet(Walk(access.value, entry.prev, MAX_HOPS), entry.gid, g.state.epoch, g.held)
        case ForkedAt(e) => ResolveAndAdopt(mls, me, g, theirs, e + 1, entry, address, access, fetched)
        case _ => Reconciled(Some(Adopt(g, theirs, address, entry.cursor)), FastForwarded)
  }
}
