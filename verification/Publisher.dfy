/**
 * Publishing the group document of one group: the chain a writer process
 * builds, and what readers of that chain learn about its own Commits.
 */
module Publisher {
  import opened Base
  import opened Mls
  import opened GroupSync
  import opened Documents
  import opened Forks
  import opened ClientRuns

  // ---------------------------------------------------------------------
  // One publication
  // ---------------------------------------------------------------------

  /** The addresses two sealed documents get, and whether their uploads succeed. */
  datatype Uploads = Uploads(point: Address, live: Address, pointStored: bool, liveStored: bool)

  /** What a publication leaves: the blobs, the group, and the documents chained, newest first. */
  datatype Publication = Publication(store: Store, group: Group, links: seq<Link>)

  predicate AtCommitPoint(g: Group) { g.commitPoint.Some? && g.commitPoint.value.epoch == g.state.epoch }

  /** The live state has moved past a commit point that is not on record yet. */
  predicate NeedsPoint(g: Group) {
    AtCommitPoint(g) && !g.commitPoint.value.published && g.fetchCursor > g.commitPoint.value.cursor
  }

  function LiveCursor(g: Group): nat {
    if AtCommitPoint(g) then Max(g.fetchCursor, g.commitPoint.value.cursor) else g.fetchCursor
  }

  function PointOnRecord(g: Group): Group {
    if AtCommitPoint(g) then g.(commitPoint := Some(g.commitPoint.value.(published := true))) else g
  }

  function PointDocument(gid: nat, g: Group, prev: Address): Document
    requires g.commitPoint.Some?
  {
    GroupDocument(gid, g.commitPoint.value.cursor, Some(g.commitPoint.value.state), prev)
  }

  function LiveDocument(gid: nat, g: Group, prev: Address): Document {
    GroupDocument(gid, LiveCursor(g), Some(g.state), prev)
  }

  /** The documents a fully successful publication chains onto `prev`. */
  function NewLinks(gid: nat, g: Group, prev: Address, u: Uploads): seq<Link> {
    if NeedsPoint(g) then
      [Link(u.live, LiveDocument(gid, g, u.point)), Link(u.point, PointDocument(gid, g, prev))]
    else [Link(u.live, LiveDocument(gid, g, prev))]
  }

  function PublishOnto(gid: nat, store: Store, g: Group, prev: Address, u: Uploads): Publication {
    if NeedsPoint(g) && !u.pointStored then Publication(store, g, [])
    else
      var links := NewLinks(gid, g, prev, u);
      var below := if NeedsPoint(g) then store[u.point := links[1].doc] else store;
      if !u.liveStored then Publication(below, PointOnRecord(g), [])
      else
        var applied := AppliedDocument(u.live, LiveCursor(g), FingerprintOf(g.state));
        Publication(below[u.live := links[0].doc], PointOnRecord(g).(appliedDocument := Some(applied)), links)
  }

  datatype PublishError = NoLocalGroup | UploadFailed

  /** One device: the blob store it writes to, the groups it tracks, and the last address it published for each. */
  class DocumentPublisher {
    var store: Store
    var groups: map<nat, Group>
    var tips: map<nat, Address>

    constructor (store: Store, groups: map<nat, Group>)
      ensures this.store == store && this.groups == groups && tips == map[]
    {
      this.store, this.groups, tips := store, groups, map[];
    }

    method Publish(gid: nat, explicit: Option<Address>, u: Uploads) returns (r: Result<Address, PublishError>)
      modifies this
      ensures gid !in old(groups) ==>
                r == Err(NoLocalGroup) && store == old(store) && groups == old(groups) && tips == old(tips)
      ensures gid in old(groups) ==>
                var below := if explicit.Some? then explicit.value else if gid in old(tips) then old(tips)[gid] else NO_ADDRESS;
                var p := PublishOnto(gid, old(store), old(groups)[gid], below, u);
                && store == p.store
                && groups == old(groups)[gid := p.group]
                && tips == (if p.links == [] then old(tips) else old(tips)[gid := p.links[0].address])
                && r == (if p.links == [] then Err(UploadFailed) else Ok(p.links[0].address))
    {
      hide FingerprintOf;
      if gid !in groups {
        return Err(NoLocalGroup);
      }
      var group := groups[gid];
      var prev := if explicit.Some? then explicit.value else if gid in tips then tips[gid] else NO_ADDRESS;
      var cursor := group.fetchCursor;
      if group.commitPoint.Some? && group.commitPoint.value.epoch == group.state.epoch {
        var point := group.commitPoint.value;
        if !point.published && group.fetchCursor > point.cursor {
          if !u.pointStored {
            return Err(UploadFailed);
          }
          store := store[u.point := GroupDocument(gid, point.cursor, Some(point.state), prev)];
          prev := u.point;
        }
        group := group.(commitPoint := Some(point.(published := true)));
        cursor := Max(group.fetchCursor, point.cursor);
      }
      groups := groups[gid := group];
      if !u.liveStored {
        return Err(UploadFailed);
      }
      store := store[u.live := GroupDocument(gid, cursor, Some(group.state), prev)];
      tips := tips[gid := u.live];
      groups := groups[gid := group.(appliedDocument := Some(AppliedDocument(u.live, cursor, FingerprintOf(group.state))))];
      return Ok(u.live);
    }
  }

  // ---------------------------------------------------------------------
  // Chains
  // ---------------------------------------------------------------------

  function TipOf(chain: seq<Link>): Address { if chain == [] then NO_ADDRESS else chain[0].address }

  /** `chain` is what following `prev` from its first document gives, down to a document without one. */
  ghost predicate IsChain(store: Store, gid: nat, chain: seq<Link>) {
    forall i :: 0 <= i < |chain| ==>
      && chain[i].address != NO_ADDRESS && chain[i].address in store && store[chain[i].address] == chain[i].doc
      && SameGroup(chain[i], gid)
      && chain[i].doc.prev == TipOf(chain[i + 1..])
  }

  /** Going back along the chain neither the epoch nor the cursor rises. */
  ghost predicate Falling(chain: seq<Link>) {
    && (forall l | l in chain :: Decodes(l))
    && forall i, j :: 0 <= i < j < |chain| ==>
         EpochOf(chain[j]) <= EpochOf(chain[i]) && chain[j].doc.cursor <= chain[i].doc.cursor
  }

  lemma ChainTail(store: Store, gid: nat, chain: seq<Link>)
    requires IsChain(store, gid, chain) && chain != []
    ensures IsChain(store, gid, chain[1..])
  {
    forall i | 0 <= i < |chain| - 1
      ensures chain[1..][i] == chain[i + 1] && chain[1..][i + 1..] == chain[i + 2..]
    {
    }
  }

  /** Readers see the chain, as far as their hops go. */
  lemma {:induction false} WalkIsChain(store: Store, gid: nat, chain: seq<Link>, hops: nat)
    requires IsChain(store, gid, chain)
    ensures Walk(store, TipOf(chain), hops) == chain[..Min(hops, |chain|)]
    decreases hops
  {
    if hops > 0 && chain != [] {
      ChainTail(store, gid, chain);
      WalkIsChain(store, gid, chain[1..], hops - 1);
      assert chain[..Min(hops, |chain|)] == [chain[0]] + chain[1..][..Min(hops - 1, |chain| - 1)];
      assert chain[0].doc.prev == TipOf(chain[1..]);
    }
  }

  lemma {:induction false} ReachOfFalling(links: seq<Link>, epoch: nat, l: Link)
    requires Falling(links) && l in links && EpochOf(l) >= epoch
    ensures l in Reach(links, epoch)
  {
    assert EpochOf(links[0]) >= EpochOf(l);
    if l != links[0] {
      LaterFalls(links);
      ReachOfFalling(links[1..], epoch, l);
    }
  }

  lemma LaterFalls(links: seq<Link>)
    requires links != [] && Falling(links)
    ensures Falling(links[1..])
  {
    forall i, j | 0 <= i < j < |links| - 1
      ensures links[1..][i] == links[i + 1] && links[1..][j] == links[j + 1]
    {
    }
  }

  ghost predicate Bears(chain: seq<Link>, epoch: nat) { exists l | l in chain :: Decodes(l) && EpochOf(l) == epoch }

  ghost predicate BearsAt(chain: seq<Link>, epoch: nat, cursor: nat) {
    exists l | l in chain :: Decodes(l) && EpochOf(l) == epoch && l.doc.cursor == cursor
  }

  /** On an ordered chain the search finds the least cursor any document of that epoch bears. */
  lemma LowestOnChain(chain: seq<Link>, epoch: nat, cursor: nat)
    requires Falling(chain)
    requires forall l | l in chain && EpochOf(l) == epoch :: l.doc.cursor >= cursor
    ensures LowestAt(chain, epoch).Some? <==> Bears(chain, epoch)
    ensures LowestAt(chain, epoch).Some? && LowestAt(chain, epoch).value.cursor == cursor <==> BearsAt(chain, epoch, cursor)
  {
    LowestAtIsMinimum(chain, epoch);
    forall l | l in chain && EpochOf(l) == epoch
      ensures l in Reach(chain, epoch)
    {
      ReachOfFalling(chain, epoch, l);
    }
  }

  lemma FallingJoin(above: seq<Link>, chain: seq<Link>)
    requires Falling(above) && Falling(chain) && above != []
    ensures Falling(above + chain) <==>
              chain == [] || (EpochOf(chain[0]) <= EpochOf(above[|above| - 1])
                              && chain[0].doc.cursor <= above[|above| - 1].doc.cursor)
  {
    var all, last := above + chain, above[|above| - 1];
    assert all[|above| - 1] == last;
    if chain != [] {
      assert all[|above|] == chain[0] && chain[0] in chain;
      if EpochOf(chain[0]) <= EpochOf(last) && chain[0].doc.cursor <= last.doc.cursor {
        forall i, j | 0 <= i < j < |all|
          ensures Decodes(all[i]) && Decodes(all[j])
          ensures EpochOf(all[j]) <= EpochOf(all[i]) && all[j].doc.cursor <= all[i].doc.cursor
        {
          assert all[i] == if i < |above| then above[i] else chain[i - |above|];
          assert all[j] == if j < |above| then above[j] else chain[j - |above|];
        }
      }
    } else {
      assert all == above;
    }
  }

  // ---------------------------------------------------------------------
  // Runs of one writer process
  // ---------------------------------------------------------------------

  datatype Act = Client(op: Op) | PublishTip(u: Uploads)

  /**
   * The client, the blob store, the chain published so far (newest first), the
   * cursor of every own Commit the client adopted, by epoch, and the epochs
   * whose first chained document came too late for the Commit.
   */
  datatype Writer = Writer(world: World, store: Store, chain: seq<Link>, commits: map<nat, nat>, missed: set<nat>)

  /** The commit point counts as published although the frontier has already passed it. */
  predicate TooLate(g: Group) {
    AtCommitPoint(g) && g.commitPoint.value.published && g.fetchCursor > g.commitPoint.value.cursor
  }

  function RecordCommit(commits: map<nat, nat>, before: Option<CommitPoint>, after: Option<CommitPoint>): map<nat, nat> {
    if after.Some? && after != before then commits[after.value.epoch := after.value.cursor] else commits
  }

  ghost function Do(mls: Mls, me: Pubkey, gid: nat, w: Writer, act: Act): Writer {
    match act
    case Client(op) =>
      var next := Perform(mls, me, w.world, op);
      w.(world := next, commits := RecordCommit(w.commits, w.world.group.commitPoint, next.group.commitPoint))
    case PublishTip(u) =>
      var g := w.world.group;
      var p := PublishOnto(gid, w.store, g, TipOf(w.chain), u);
      Writer(w.world.(group := p.group), p.store, p.links + w.chain, w.commits,
             if p.links != [] && TooLate(g) && !Bears(w.chain, g.state.epoch) then w.missed + {g.state.epoch} else w.missed)
  }

  ghost function DoAll(mls: Mls, me: Pubkey, gid: nat, w: Writer, acts: seq<Act>): Writer
    decreases acts
  {
    if acts == [] then w else DoAll(mls, me, gid, Do(mls, me, gid, w, acts[0]), acts[1..])
  }

  /**
   * Nothing stored up to an own Commit leads out of the epoch that Commit made,
   * read under the state it made. States of other branches are not spoken of.
   */
  ghost predicate StaysUntil(mls: Mls, point: CommitPoint, records: seq<Record>) {
    forall s, r | r in records && r.cursor <= point.cursor && FingerprintOf(s) == FingerprintOf(point.state) ::
      match mls.open(s, r.wire)
      case None => true
      case Some(o) => match mls.process(s, o)
        case NewState(t) => t.epoch == s.epoch
        case Application(t, _, _) => t.epoch == s.epoch
        case _ => true
  }

  /** A Commit whose post was answered counts as applied, in every entry of the queue that holds it. */
  ghost predicate Echoable(pending: seq<PendingCommit>) {
    forall p, q | p in pending && q in pending && p.commit == q.commit && p.posted.Some? :: q.applied
  }

  /** Fresh addresses for sealed documents, own sends inside their epoch, own Commits with fresh bytes into a new one. */
  ghost predicate Sound(mls: Mls, w: Writer, act: Act) {
    match act
    case PublishTip(u) =>
      u.point != u.live && u.point !in w.store && u.live !in w.store && u.point != NO_ADDRESS && u.live != NO_ADDRESS
    case Client(op) => (
      && (AtCommitPoint(w.world.group) ==> StaysUntil(mls, w.world.group.commitPoint.value, w.world.log))
      && (op.Send? || op.Commit? ==>
            var caught := CatchUp(mls, w.world, op.line, op.budget).0.group;
            && (op.Send? ==> FingerprintOf(op.next) == FingerprintOf(caught.state))
            && (op.Commit? ==> op.next.epoch > caught.state.epoch && forall p | p in caught.pending :: p.commit != op.commit)))
  }

  ghost predicate AllSound(mls: Mls, me: Pubkey, gid: nat, w: Writer, acts: seq<Act>)
    decreases acts
  {
    acts == [] || (Sound(mls, w, acts[0]) && AllSound(mls, me, gid, Do(mls, me, gid, w, acts[0]), acts[1..]))
  }

  // ---------------------------------------------------------------------
  // What every act keeps
  // ---------------------------------------------------------------------

  /**
   * The commit point lies in the log and behind the state, on the state's own
   * branch if it is of the state's epoch; the frontier lies in the log.
   */
  ghost predicate Placing(w: World) {
    && w.group.fetchCursor <= |w.log|
    && Echoable(w.group.pending)
    && (w.group.commitPoint.Some? ==>
          var p := w.group.commitPoint.value;
          && p.epoch <= w.group.state.epoch && p.state.epoch == p.epoch && p.cursor <= |w.log|
          && (p.epoch == w.group.state.epoch ==> FingerprintOf(w.group.state) == FingerprintOf(p.state)))
  }

  /** The next publication goes on top of the chain, in epoch and in cursor. */
  ghost predicate OnTop(chain: seq<Link>, g: Group) {
    chain != [] && Decodes(chain[0]) ==>
      && EpochOf(chain[0]) <= g.state.epoch
      && chain[0].doc.cursor <= LiveCursor(g)
      && (AtCommitPoint(g) && !g.commitPoint.value.published ==>
            EpochOf(chain[0]) < g.state.epoch && chain[0].doc.cursor <= g.commitPoint.value.cursor)
  }

  /** The Commit of the current epoch, if it was this client's, is the commit point. */
  ghost predicate Recorded(commits: map<nat, nat>, g: Group) {
    && (forall e | e in commits :: e <= g.state.epoch)
    && (g.state.epoch in commits <==> AtCommitPoint(g))
    && (AtCommitPoint(g) ==> commits[g.state.epoch] == g.commitPoint.value.cursor)
  }

  /** Every own Commit's epoch bears a document at the Commit's cursor, and none below, unless it came too late. */
  ghost predicate Marked(chain: seq<Link>, commits: map<nat, nat>, missed: set<nat>) {
    && (forall e | e in missed :: Bears(chain, e))
    && (forall e | e in commits ::
          && (forall l | l in chain && Decodes(l) && EpochOf(l) == e :: l.doc.cursor >= commits[e])
          && (Bears(chain, e) ==> (BearsAt(chain, e, commits[e]) <==> e !in missed)))
  }

  ghost predicate Written(gid: nat, w: Writer) {
    && IsChain(w.store, gid, w.chain) && Falling(w.chain)
    && Placing(w.world) && OnTop(w.chain, w.world.group)
    && Recorded(w.commits, w.world.group)
    && Marked(w.chain, w.commits, w.missed)
  }

  /** A step of the client that adopts no own Commit. */
  ghost predicate Quiet(w: World, next: World) {
    var g, h := w.group, next.group;
    && h.commitPoint == g.commitPoint && Echoable(h.pending)
    && (h.state.epoch == g.state.epoch ==> FingerprintOf(h.state) == FingerprintOf(g.state))
    && g.state.epoch <= h.state.epoch && g.fetchCursor <= h.fetchCursor <= |next.log| && |w.log| <= |next.log|
    && (AtCommitPoint(g) && h.state.epoch > g.state.epoch ==> h.fetchCursor >= g.commitPoint.value.cursor)
  }

  lemma QuietKeeps(gid: nat, w: Writer, next: World)
    requires Written(gid, w) && Quiet(w.world, next)
    ensures Written(gid, w.(world := next))
  {
    hide IsChain, Falling, Marked, Echoable;
  }

  lemma CommitKeeps(gid: nat, w: Writer, next: World, point: CommitPoint)
    requires Written(gid, w) && Placing(next)
    requires next.group.commitPoint == Some(point) && point.epoch == next.group.state.epoch > w.world.group.state.epoch
    requires point.cursor == |w.world.log| + 1 && !point.published && next.group.fetchCursor == w.world.group.fetchCursor
    ensures Written(gid, w.(world := next, commits := w.commits[point.epoch := point.cursor]))
  {
    hide IsChain;
    NoneNewer(w.chain, w.world.group.state.epoch, point.epoch);
  }

  lemma NoneNewer(chain: seq<Link>, epoch: nat, later: nat)
    requires Falling(chain) && epoch < later && (chain != [] ==> EpochOf(chain[0]) <= epoch)
    ensures forall l | l in chain :: EpochOf(l) < later
  {
  }

  // ---------------------------------------------------------------------
  // The client's steps
  // ---------------------------------------------------------------------

  lemma IngestKeepsPoint(mls: Mls, g: Group, cursor: nat, at: nat, o: Opaque)
    ensures IngestOne(mls, g, cursor, at, o).group.commitPoint == g.commitPoint
  {
  }

  lemma ReceiveKeepsPoint(mls: Mls, g: Group, r: Record)
    ensures ReceiveOne(mls, g, r).group.commitPoint == g.commitPoint
  {
    var o := match FindPosted(g.pending, r.wire)
      case Some(commit) => Some(commit)
      case None => mls.open(g.state, r.wire);
    if o.Some? {
      IngestKeepsPoint(mls, g, r.cursor, r.at, o.value);
    }
    hide IngestOne;
  }

  /** An entry that keeps the epoch number keeps the group context. */
  lemma ReceiveKeepsContext(mls: Mls, g: Group, r: Record)
    requires NeverGoesBack(mls) && EpochNamesContext(mls)
    ensures var h := ReceiveOne(mls, g, r).group;
            h.state.epoch >= g.state.epoch && (h.state.epoch == g.state.epoch ==> FingerprintOf(h.state) == FingerprintOf(g.state))
  {
    var o := match FindPosted(g.pending, r.wire)
      case Some(commit) => Some(commit)
      case None => mls.open(g.state, r.wire);
    if o.Some? {
      IngestKeepsContext(mls, g, r.cursor, r.at, o.value);
    }
    hide IngestOne;
  }

  lemma IngestKeepsContext(mls: Mls, g: Group, cursor: nat, at: nat, o: Opaque)
    requires NeverGoesBack(mls) && EpochNamesContext(mls)
    ensures var h := IngestOne(mls, g, cursor, at, o).group;
            h.state.epoch >= g.state.epoch && (h.state.epoch == g.state.epoch ==> FingerprintOf(h.state) == FingerprintOf(g.state))
  {
    var out := mls.process(g.state, o);
    assert out.NewState? || out.Application? ==> out.state.epoch >= g.state.epoch;
  }

  lemma {:induction false} BatchKeepsContext(mls: Mls, g: Group, records: seq<Record>)
    requires NeverGoesBack(mls) && EpochNamesContext(mls)
    ensures var h := ReceiveAll(mls, g, records).group;
            h.state.epoch >= g.state.epoch && (h.state.epoch == g.state.epoch ==> FingerprintOf(h.state) == FingerprintOf(g.state))
    decreases records
  {
    if records != [] {
      ReceiveKeepsContext(mls, g, records[0]);
      hide ReceiveOne;
      BatchKeepsContext(mls, ReceiveOne(mls, g, records[0]).group, records[1..]);
    }
  }

  lemma MarkAppliedKeepsEchoable(g: Group, i: Option<nat>)
    requires Echoable(g.pending)
    ensures Echoable(MarkApplied(g, i).pending)
  {
    if i.Some? && i.value < |g.pending| {
      var marked := g.pending[i.value := g.pending[i.value].(applied := true)];
      forall q | q in marked
        ensures exists p | p in g.pending :: p.commit == q.commit && p.posted == q.posted && (p.applied ==> q.applied)
      {
        if q !in g.pending {
          assert g.pending[i.value] in g.pending;
        }
      }
    }
  }

  lemma IngestKeepsEchoable(mls: Mls, g: Group, cursor: nat, at: nat, o: Opaque)
    requires Echoable(g.pending)
    ensures Echoable(IngestOne(mls, g, cursor, at, o).group.pending)
  {
    var p := FindPending(g.pending, o);
    MarkAppliedKeepsEchoable(g, p);
    hide Echoable;
    var after := IngestOne(mls, g, cursor, at, o).group.pending;
    assert after == g.pending || after == MarkApplied(g, p).pending;
  }

  lemma {:induction false} BatchKeepsEchoable(mls: Mls, g: Group, records: seq<Record>)
    requires Echoable(g.pending)
    ensures Echoable(ReceiveAll(mls, g, records).group.pending)
    decreases records
  {
    if records != [] {
      var r := records[0];
      var o := match FindPosted(g.pending, r.wire)
        case Some(commit) => Some(commit)
        case None => mls.open(g.state, r.wire);
      if o.Some? {
        IngestKeepsEchoable(mls, g, r.cursor, r.at, o.value);
      }
      hide IngestOne, Echoable;
      BatchKeepsEchoable(mls, ReceiveOne(mls, g, r).group, records[1..]);
    }
  }

  lemma FromKeepsEchoable(after: seq<PendingCommit>, before: seq<PendingCommit>)
    requires Echoable(before) && From(after, before)
    ensures Echoable(after)
  {
  }

  lemma SettleKeepsEchoable(b: Batch, budget: nat)
    requires Echoable(b.group.pending)
    ensures Echoable(Settle(b, budget).0.pending)
  {
    SettledFrom(b, budget);
    FromKeepsEchoable(Settle(b, budget).0.pending, b.group.pending);
  }

  /** At its own commit point, a group is not led out of the epoch by an entry from before the Commit. */
  lemma EarlierEntryStays(mls: Mls, g: Group, r: Record, point: CommitPoint)
    requires Echoable(g.pending) && FingerprintOf(g.state) == FingerprintOf(point.state) && r.cursor <= point.cursor
    requires StaysUntil(mls, point, [r])
    ensures ReceiveOne(mls, g, r).group.state.epoch == g.state.epoch
  {
    assert r in [r];
    match FindPosted(g.pending, r.wire) {
      case Some(c) =>
        PostedIsApplied(g.pending, r.wire, c);
      case None =>
        match mls.open(g.state, r.wire) {
          case None =>
          case Some(o) =>
            hide Echoable;
            var out := mls.process(g.state, o);
            assert out.NewState? || out.Application? ==> out.state.epoch == g.state.epoch;
        }
    }
  }

  lemma {:induction false} PostedIsApplied(pending: seq<PendingCommit>, wire: Wire, c: Opaque)
    requires Echoable(pending) && FindPosted(pending, wire) == Some(c)
    ensures var i := FindPending(pending, c); i.Some? && i.value < |pending| && pending[i.value].applied
  {
    FindPendingFinds(pending, c);
    PostedIsThere(pending, wire, c);
  }

  lemma {:induction false} PostedIsThere(pending: seq<PendingCommit>, wire: Wire, c: Opaque)
    requires FindPosted(pending, wire) == Some(c)
    ensures exists p | p in pending :: p.commit == c && p.posted.Some?
  {
    if pending[0].posted == Some(wire) {
      assert pending[0] in pending;
    } else {
      PostedIsThere(pending[1..], wire, c);
    }
  }

  lemma {:induction false} BatchLeavesAfterPoint(mls: Mls, g: Group, records: seq<Record>, point: CommitPoint)
    requires NeverGoesBack(mls) && EpochNamesContext(mls) && StaysUntil(mls, point, records) && Contiguous(records, g.fetchCursor)
    requires Echoable(g.pending)
    requires FingerprintOf(g.state) == FingerprintOf(point.state) || g.fetchCursor >= point.cursor
    ensures var b := ReceiveAll(mls, g, records);
            b.group.state.epoch == point.state.epoch || b.group.fetchCursor >= point.cursor
    decreases records
  {
    if records != [] {
      var r := records[0];
      var step := ReceiveOne(mls, g, r);
      ReceiveOneKeeps(mls, g, r);
      ReceiveKeepsContext(mls, g, r);
      BatchKeepsEchoable(mls, g, [r]);
      OneIsBatch(mls, g, r);
      if g.fetchCursor < point.cursor {
        assert StaysUntil(mls, point, [r]);
        EarlierEntryStays(mls, g, r, point);
      }
      assert StaysUntil(mls, point, records[1..]);
      hide ReceiveOne, StaysUntil, Echoable;
      if step.did.Some? {
        BatchLeavesAfterPoint(mls, step.group, records[1..], point);
      }
    }
  }

  lemma OneIsBatch(mls: Mls, g: Group, r: Record)
    ensures ReceiveAll(mls, g, [r]).group == ReceiveOne(mls, g, r).group
  {
    assert ReceiveAll(mls, ReceiveOne(mls, g, r).group, [r][1..]).group == ReceiveOne(mls, g, r).group;
  }

  lemma {:induction false} BatchKeepsPoint(mls: Mls, g: Group, records: seq<Record>)
    ensures ReceiveAll(mls, g, records).group.commitPoint == g.commitPoint
    decreases records
  {
    if records != [] {
      ReceiveKeepsPoint(mls, g, records[0]);
      hide ReceiveOne;
      BatchKeepsPoint(mls, ReceiveOne(mls, g, records[0]).group, records[1..]);
    }
  }

  lemma TakeInIsQuiet(mls: Mls, start: Group, w: World, records: seq<Record>, budget: nat)
    requires NeverGoesBack(mls) && EpochNamesContext(mls) && Accounted(start, w) && Placing(w)
    requires AtCommitPoint(w.group) ==> StaysUntil(mls, w.group.commitPoint.value, w.log)
    requires Contiguous(records, w.group.fetchCursor) && w.group.fetchCursor + |records| <= |w.log|
    requires forall r | r in records :: r in w.log
    ensures Quiet(w, TakeIn(mls, w, records, budget).0)
  {
    BatchHandlesOnce(mls, w.group, records, |w.log|);
    BatchKeepsPoint(mls, w.group, records);
    BatchKeepsContext(mls, w.group, records);
    BatchKeepsEchoable(mls, w.group, records);
    if AtCommitPoint(w.group) {
      assert StaysUntil(mls, w.group.commitPoint.value, records);
      hide ReceiveOne, StaysUntil;
      BatchLeavesAfterPoint(mls, w.group, records, w.group.commitPoint.value);
    }
    hide ReceiveAll, StaysUntil, Echoable, History, Inbound, ReceivedOf;
    var batch := ReceiveAll(mls, w.group, records);
    SettleKeepsEchoable(batch, budget);
    var settled := Settle(batch, budget).0;
    assert settled == batch.group.(pending := settled.pending);
  }

  lemma FetchedIsLogged(log: seq<Record>, cursor: nat, count: nat)
    ensures forall r | r in FetchAfter(log, cursor) || r in Streamed(log, cursor, count) :: r in log
  {
  }

  lemma CatchUpIsQuiet(mls: Mls, start: Group, w: World, line: Line, budget: nat)
    requires NeverGoesBack(mls) && EpochNamesContext(mls) && Accounted(start, w) && Placing(w)
    requires AtCommitPoint(w.group) ==> StaysUntil(mls, w.group.commitPoint.value, w.log)
    ensures Quiet(w, CatchUp(mls, w, line, budget).0)
  {
    FetchIsContiguous(w.log, w.group.fetchCursor, 0);
    FetchedIsLogged(w.log, w.group.fetchCursor, 0);
    if Active(w.group) && line.Reachable? {
      TakeInIsQuiet(mls, start, w, FetchAfter(w.log, w.group.fetchCursor), budget);
    }
    hide TakeIn, StaysUntil, Echoable, Accounted;
  }

  lemma TailKeeps(mls: Mls, me: Pubkey, gid: nat, w: Writer, op: Op)
    requires Written(gid, w) && (op.Send? || op.Commit?)
    requires op.Send? ==> FingerprintOf(op.next) == FingerprintOf(w.world.group.state)
    requires op.Commit? ==> op.next.epoch > w.world.group.state.epoch && forall p | p in w.world.group.pending :: p.commit != op.commit
    ensures var next := if op.Send? then SendTail(me, w.world, op) else CommitTail(mls, w.world, op);
            Written(gid, w.(world := next, commits := RecordCommit(w.commits, w.world.group.commitPoint, next.group.commitPoint)))
  {
    hide IsChain, Falling, Marked, RaceLost, Note;
    var next := if op.Send? then SendTail(me, w.world, op) else CommitTail(mls, w.world, op);
    if op.Commit? {
      QueuedStaysEchoable(mls, w.world, op);
    }
    hide Echoable;
    if op.Commit? && op.post.Stored? {
      CommitKeeps(gid, w, next, next.group.commitPoint.value);
    } else {
      QuietKeeps(gid, w, next);
    }
  }

  lemma QueuedStaysEchoable(mls: Mls, w: World, op: Op)
    requires op.Commit? && Echoable(w.group.pending) && forall p | p in w.group.pending :: p.commit != op.commit
    ensures Echoable(CommitTail(mls, w, op).group.pending)
  {
    hide RaceLost, Note;
    var q := PendingCommit(op.commit, if op.post.Stored? then Some(op.wire) else None, op.post.Stored?, false);
    assert CommitTail(mls, w, op).group.pending == w.group.pending + [q];
  }

  lemma LandedKeeps(gid: nat, w: Writer, arrivals: seq<Arrival>)
    requires Written(gid, w) && Dense(w.world.log)
    ensures Written(gid, w.(world := w.world.(log := Landed(w.world.log, arrivals))))
  {
    LandedEnds(w.world.log, arrivals);
    hide Landed, Echoable;
    QuietKeeps(gid, w, w.world.(log := Landed(w.world.log, arrivals)));
  }

  lemma ClientKeeps(mls: Mls, me: Pubkey, start: Group, gid: nat, w: Writer, op: Op)
    requires NeverGoesBack(mls) && EpochNamesContext(mls)
    requires Accounted(start, w.world) && Written(gid, w) && Sound(mls, w, Client(op))
    ensures Written(gid, Do(mls, me, gid, w, Client(op)))
  {
    hide Accounted, CatchUp, TakeIn, SendTail, CommitTail, StaysUntil, AtCommitPoint, Falling, Marked, IsChain, Echoable, OnTop;
    match op {
      case OtherPosts(at, wire) =>
        OtherPostKeeps(gid, w, op);
      case Sync(line, budget) =>
        CatchUpIsQuiet(mls, start, w.world, line, budget);
        QuietKeeps(gid, w, CatchUp(mls, w.world, line, budget).0);
      case Stream(count, budget) =>
        StreamIsQuiet(mls, start, w.world, count, budget);
        QuietKeeps(gid, w, Perform(mls, me, w.world, op));
      case Send(_, _, _, _, _, _, _, _) =>
        PostKeeps(mls, me, start, gid, w, op);
      case Commit(_, _, _, _, _, _, _, _, _) =>
        PostKeeps(mls, me, start, gid, w, op);
    }
  }

  lemma StreamIsQuiet(mls: Mls, start: Group, w: World, count: nat, budget: nat)
    requires NeverGoesBack(mls) && EpochNamesContext(mls) && Accounted(start, w) && Placing(w)
    requires AtCommitPoint(w.group) ==> StaysUntil(mls, w.group.commitPoint.value, w.log)
    ensures Quiet(w, if !Active(w.group) then MarkRemoved(w)
                     else TakeIn(mls, w, Streamed(w.log, w.group.fetchCursor, count), budget).0)
  {
    FetchIsContiguous(w.log, w.group.fetchCursor, count);
    FetchedIsLogged(w.log, w.group.fetchCursor, count);
    hide StaysUntil, Echoable, Streamed;
    if Active(w.group) {
      TakeInIsQuiet(mls, start, w, Streamed(w.log, w.group.fetchCursor, count), budget);
    }
    hide TakeIn;
  }

  /** A catch-up, what lands meanwhile, and the own post. */
  lemma PostKeeps(mls: Mls, me: Pubkey, start: Group, gid: nat, w: Writer, op: Op)
    requires NeverGoesBack(mls) && EpochNamesContext(mls) && (op.Send? || op.Commit?)
    requires Accounted(start, w.world) && Written(gid, w) && Sound(mls, w, Client(op))
    ensures Written(gid, Do(mls, me, gid, w, Client(op)))
  {
    var (caught, go) := CatchUp(mls, w.world, op.line, op.budget);
    CatchUpIsQuiet(mls, start, w.world, op.line, op.budget);
    CatchUpAccounts(mls, start, w.world, op.line, op.budget);
    assert Dense(caught.log);
    hide Accounted, Written, CatchUp, SendTail, CommitTail, StaysUntil, AtCommitPoint, Landed;
    QuietKeeps(gid, w, caught);
    if go {
      var waiting := w.(world := caught);
      LandedKeeps(gid, waiting, op.meanwhile);
      TailKeeps(mls, me, gid, waiting.(world := caught.(log := Landed(caught.log, op.meanwhile))), op);
    }
  }

  lemma OtherPostKeeps(gid: nat, w: Writer, op: Op)
    requires Written(gid, w) && op.OtherPosts?
    ensures Written(gid, w.(world := w.world.(log := Append(w.world.log, op.at, op.wire))))
  {
    hide Echoable;
    QuietKeeps(gid, w, w.world.(log := Append(w.world.log, op.at, op.wire)));
  }

  // ---------------------------------------------------------------------
  // A publication
  // ---------------------------------------------------------------------

  /** Where the lowest of the documents a publication chains goes. */
  function FirstCursor(g: Group): nat {
    if NeedsPoint(g) then g.commitPoint.value.cursor else LiveCursor(g)
  }

  predicate FreshUploads(store: Store, u: Uploads) {
    u.point != u.live && u.point !in store && u.live !in store && u.point != NO_ADDRESS && u.live != NO_ADDRESS
  }

  lemma StoringKeepsChain(store: Store, grown: Store, gid: nat, chain: seq<Link>)
    requires IsChain(store, gid, chain) && forall a | a in store :: a in grown && grown[a] == store[a]
    ensures IsChain(grown, gid, chain)
  {
  }

  lemma ChainCons(store: Store, gid: nat, head: Link, chain: seq<Link>)
    requires IsChain(store, gid, chain)
    requires head.address != NO_ADDRESS && head.address in store && store[head.address] == head.doc
    requires SameGroup(head, gid) && head.doc.prev == TipOf(chain)
    ensures IsChain(store, gid, [head] + chain)
  {
    hide TipOf;
    var all := [head] + chain;
    forall i | 0 <= i < |all|
      ensures all[i].address != NO_ADDRESS && all[i].address in store && store[all[i].address] == all[i].doc
      ensures SameGroup(all[i], gid) && all[i].doc.prev == TipOf(all[i + 1..])
    {
      if i == 0 {
        assert all[1..] == chain;
      } else {
        assert all[i] == chain[i - 1] && all[i + 1..] == chain[(i - 1) + 1..];
      }
    }
  }

  /** What a publication chains is again a chain down from the new tip. */
  lemma PublishChains(gid: nat, store: Store, g: Group, chain: seq<Link>, u: Uploads)
    requires IsChain(store, gid, chain) && FreshUploads(store, u)
    ensures var p := PublishOnto(gid, store, g, TipOf(chain), u); IsChain(p.store, gid, p.links + chain)
  {
    hide IsChain, LiveCursor;
    var p := PublishOnto(gid, store, g, TipOf(chain), u);
    StoringKeepsChain(store, p.store, gid, chain);
    if p.links == [] {
      assert p.links + chain == chain;
    } else if NeedsPoint(g) {
      ChainCons(p.store, gid, p.links[1], chain);
      ChainCons(p.store, gid, p.links[0], [p.links[1]] + chain);
      assert p.links + chain == [p.links[0]] + ([p.links[1]] + chain);
    } else {
      ChainCons(p.store, gid, p.links[0], chain);
    }
  }

  /**
   * A publication keeps the chain in order if and only if it goes on top of it:
   * neither the epoch nor the cursor of the first document it chains lies below
   * the tip's.
   */
  lemma OrderKeptExactlyOnTop(gid: nat, g: Group, chain: seq<Link>, u: Uploads)
    requires Falling(chain) && (g.commitPoint.Some? ==> g.commitPoint.value.state.epoch == g.commitPoint.value.epoch)
    ensures Falling(NewLinks(gid, g, TipOf(chain), u) + chain) <==>
              chain == [] || (EpochOf(chain[0]) <= g.state.epoch && chain[0].doc.cursor <= FirstCursor(g))
  {
    var links := NewLinks(gid, g, TipOf(chain), u);
    assert Falling(links);
    FallingJoin(links, chain);
  }

  lemma AppendBears(links: seq<Link>, chain: seq<Link>, epoch: nat, cursor: nat)
    ensures Bears(links + chain, epoch) <==> Bears(links, epoch) || Bears(chain, epoch)
    ensures BearsAt(links + chain, epoch, cursor) <==> BearsAt(links, epoch, cursor) || BearsAt(chain, epoch, cursor)
  {
    var all := links + chain;
    assert forall l :: l in all <==> l in links || l in chain;
    forall l | (l in links || l in chain) && Decodes(l) && EpochOf(l) == epoch
      ensures l in all
    {
    }
  }

  /** What one publication adds to the epoch it publishes. */
  lemma NewLinksBear(gid: nat, g: Group, prev: Address, u: Uploads, epoch: nat, cursor: nat)
    requires g.commitPoint.Some? ==> g.commitPoint.value.state.epoch == g.commitPoint.value.epoch
    ensures var links := NewLinks(gid, g, prev, u);
            && (forall l | l in links :: Decodes(l) && EpochOf(l) == g.state.epoch && l.doc.cursor >= FirstCursor(g))
            && (Bears(links, epoch) <==> epoch == g.state.epoch)
            && (BearsAt(links, epoch, cursor) <==>
                  epoch == g.state.epoch && (cursor == LiveCursor(g) || cursor == FirstCursor(g)))
  {
    var links := NewLinks(gid, g, prev, u);
    assert links[0] in links && links[|links| - 1] in links;
    assert links[|links| - 1].doc.cursor == FirstCursor(g) && links[0].doc.cursor == LiveCursor(g);
    if epoch == g.state.epoch && (cursor == LiveCursor(g) || cursor == FirstCursor(g)) {
      var l := if cursor == LiveCursor(g) then links[0] else links[|links| - 1];
      assert l in links && l.doc.cursor == cursor;
    }
  }

  lemma PublishMarks(gid: nat, g: Group, chain: seq<Link>, commits: map<nat, nat>, missed: set<nat>, u: Uploads)
    requires Falling(chain) && OnTop(chain, g) && Recorded(commits, g) && Marked(chain, commits, missed)
    requires g.commitPoint.Some? ==> g.commitPoint.value.state.epoch == g.commitPoint.value.epoch
    ensures var late := if TooLate(g) && !Bears(chain, g.state.epoch) then missed + {g.state.epoch} else missed;
            Marked(NewLinks(gid, g, TipOf(chain), u) + chain, commits, late)
  {
    hide NewLinks, Falling;
    var links, epoch := NewLinks(gid, g, TipOf(chain), u), g.state.epoch;
    var late := if TooLate(g) && !Bears(chain, epoch) then missed + {epoch} else missed;
    forall e | e in late
      ensures Bears(links + chain, e)
    {
      AppendBears(links, chain, e, 0);
      NewLinksBear(gid, g, TipOf(chain), u, e, 0);
    }
    forall e | e in commits
      ensures forall l | l in links + chain && Decodes(l) && EpochOf(l) == e :: l.doc.cursor >= commits[e]
      ensures Bears(links + chain, e) ==> (BearsAt(links + chain, e, commits[e]) <==> e !in late)
    {
      AppendBears(links, chain, e, commits[e]);
      NewLinksBear(gid, g, TipOf(chain), u, e, commits[e]);
      if e == epoch {
        if Bears(chain, epoch) {
          var l :| l in chain && Decodes(l) && EpochOf(l) == epoch;
          TipIsHighest(chain, l);
          assert !BearsAt(chain, epoch, commits[e]) ==> l.doc.cursor > commits[e];
        } else {
          assert !BearsAt(chain, epoch, commits[e]);
        }
      }
    }
  }

  lemma TipIsHighest(chain: seq<Link>, l: Link)
    requires Falling(chain) && l in chain
    ensures Decodes(chain[0]) && EpochOf(l) <= EpochOf(chain[0]) && l.doc.cursor <= chain[0].doc.cursor
  {
    assert chain[0] in chain;
  }

  lemma PublishKeeps(mls: Mls, me: Pubkey, gid: nat, w: Writer, u: Uploads)
    requires Written(gid, w) && Sound(mls, w, PublishTip(u))
    ensures Written(gid, Do(mls, me, gid, w, PublishTip(u)))
  {
    var g := w.world.group;
    hide IsChain, Falling, Marked, Bears, Walk;
    PublishChains(gid, w.store, g, w.chain, u);
    var p := PublishOnto(gid, w.store, g, TipOf(w.chain), u);
    TipOnTop(w.chain, g);
    if p.links == [] {
      assert p.links + w.chain == w.chain;
    } else {
      OrderKeptExactlyOnTop(gid, g, w.chain, u);
      PublishMarks(gid, g, w.chain, w.commits, w.missed, u);
    }
  }

  lemma TipOnTop(chain: seq<Link>, g: Group)
    requires Falling(chain) && OnTop(chain, g)
    ensures chain != [] ==> Decodes(chain[0]) && EpochOf(chain[0]) <= g.state.epoch && chain[0].doc.cursor <= FirstCursor(g)
  {
    assert chain != [] ==> chain[0] in chain;
  }

  // ---------------------------------------------------------------------
  // Whole runs
  // ---------------------------------------------------------------------

  /** A process that has published nothing of the group and holds no commit point of it. */
  ghost predicate Starting(w: Writer) {
    && w.chain == [] && w.commits == map[] && w.missed == {}
    && Dense(w.world.log) && History(w.world.group, |w.world.log|) && w.world.trace == []
    && w.world.group.commitPoint.None? && Echoable(w.world.group.pending)
  }

  lemma PublishAccounts(mls: Mls, me: Pubkey, start: Group, gid: nat, w: Writer, u: Uploads)
    requires Accounted(start, w.world)
    ensures Accounted(start, Do(mls, me, gid, w, PublishTip(u)).world)
  {
    var next := Do(mls, me, gid, w, PublishTip(u)).world;
    PublishKeepsHistory(gid, w.store, w.world.group, TipOf(w.chain), u);
    hide PublishOnto, TooLate, Bears, History, Consecutive, Inbound, ReceivedOf;
    SameHistory(start, w.world, next);
  }

  lemma PublishKeepsHistory(gid: nat, store: Store, g: Group, prev: Address, u: Uploads)
    ensures var h := PublishOnto(gid, store, g, prev, u).group;
            h.messages == g.messages && h.fetchCursor == g.fetchCursor && h.lastCursor == g.lastCursor && h.state == g.state
  {
  }

  lemma DoKeeps(mls: Mls, me: Pubkey, start: Group, gid: nat, w: Writer, act: Act)
    requires NeverGoesBack(mls) && EpochNamesContext(mls) && Accounted(start, w.world) && Written(gid, w) && Sound(mls, w, act)
    ensures var next := Do(mls, me, gid, w, act); Accounted(start, next.world) && Written(gid, next)
  {
    match act {
      case Client(op) =>
        ClientKeeps(mls, me, start, gid, w, op);
        OneOpAccounts(mls, me, start, w.world, op);
      case PublishTip(u) =>
        PublishKeeps(mls, me, gid, w, u);
        PublishAccounts(mls, me, start, gid, w, u);
    }
    hide Accounted, Written, Sound;
  }

  lemma {:induction false} RunKeeps(mls: Mls, me: Pubkey, start: Group, gid: nat, w: Writer, acts: seq<Act>)
    requires NeverGoesBack(mls) && EpochNamesContext(mls) && Accounted(start, w.world) && Written(gid, w) && AllSound(mls, me, gid, w, acts)
    ensures var end := DoAll(mls, me, gid, w, acts); Accounted(start, end.world) && Written(gid, end)
    decreases acts
  {
    hide Accounted, Written, Sound, Do;
    if acts != [] {
      DoKeeps(mls, me, start, gid, w, acts[0]);
      RunKeeps(mls, me, start, gid, Do(mls, me, gid, w, acts[0]), acts[1..]);
    }
  }

  /**
   * In every run of one writer that keeps its chain: readers get exactly the
   * chain, neither epoch nor cursor rises going back along it, and the epoch of
   * an own Commit bears no document below the Commit's cursor, and one at
   * exactly that cursor if and only if its first chained document did not come
   * too late.
   */
  lemma WriterAndReaderAgree(mls: Mls, me: Pubkey, gid: nat, w: Writer, acts: seq<Act>, e: nat, hops: nat)
    requires NeverGoesBack(mls) && EpochNamesContext(mls) && Starting(w) && AllSound(mls, me, gid, w, acts)
    ensures var end := DoAll(mls, me, gid, w, acts);
            && Walk(end.store, TipOf(end.chain), hops) == end.chain[..Min(hops, |end.chain|)]
            && Falling(end.chain)
            && (e in end.commits && Bears(end.chain, e) ==>
                  && LowestAt(end.chain, e).Some? && LowestAt(end.chain, e).value.cursor >= end.commits[e]
                  && (LowestAt(end.chain, e).value.cursor == end.commits[e] <==> e !in end.missed))
  {
    var end := DoAll(mls, me, gid, w, acts);
    RunKeeps(mls, me, w.world.group, gid, w, acts);
    hide DoAll, Accounted, LowestAt;
    WalkIsChain(end.store, gid, end.chain, hops);
    if e in end.commits {
      LowestOnChain(end.chain, e, end.commits[e]);
      LowestAtLeast(end.chain, e, end.commits[e]);
    }
  }

  lemma LowestAtLeast(chain: seq<Link>, epoch: nat, cursor: nat)
    requires Falling(chain)
    requires forall l | l in chain && EpochOf(l) == epoch :: l.doc.cursor >= cursor
    ensures LowestAt(chain, epoch).Some? ==> LowestAt(chain, epoch).value.cursor >= cursor
  {
    LowestAtIsMinimum(chain, epoch);
  }

  /** Readers bounded to `hops` find the Commit's cursor exactly when a document bearing it lies within them. */
  lemma HopsFindCommit(mls: Mls, me: Pubkey, gid: nat, w: Writer, acts: seq<Act>, e: nat, hops: nat)
    requires NeverGoesBack(mls) && EpochNamesContext(mls) && Starting(w) && AllSound(mls, me, gid, w, acts)
    ensures var end := DoAll(mls, me, gid, w, acts);
            var seen := LowestAt(Walk(end.store, TipOf(end.chain), hops), e);
            var near := end.chain[..Min(hops, |end.chain|)];
            e in end.commits ==>
              (BearsAt(near, e, end.commits[e]) <==> seen.Some? && seen.value.cursor == end.commits[e])
  {
    var end := DoAll(mls, me, gid, w, acts);
    RunKeeps(mls, me, w.world.group, gid, w, acts);
    hide DoAll, Accounted, LowestAt, Walk, IsChain, Falling, Marked, BearsAt;
    WalkIsChain(end.store, gid, end.chain, hops);
    if e in end.commits {
      LowestWithin(end.chain, end.commits, end.missed, e, Min(hops, |end.chain|));
    }
  }

  lemma LowestWithin(chain: seq<Link>, commits: map<nat, nat>, missed: set<nat>, e: nat, n: nat)
    requires Falling(chain) && Marked(chain, commits, missed) && e in commits && n <= |chain|
    ensures var seen := LowestAt(chain[..n], e);
            BearsAt(chain[..n], e, commits[e]) <==> seen.Some? && seen.value.cursor == commits[e]
  {
    PrefixFalls(chain, n);
    hide Falling;
    LowestOnChain(chain[..n], e, commits[e]);
  }

  lemma PrefixFalls(chain: seq<Link>, n: nat)
    requires Falling(chain) && n <= |chain|
    ensures Falling(chain[..n]) && forall l | l in chain[..n] :: l in chain
  {
  }

  /** One act leaves the lowest cursor of every epoch on the chain where it was. */
  lemma DoKeepsLowest(mls: Mls, me: Pubkey, gid: nat, w: Writer, act: Act, e: nat)
    requires Written(gid, w) && Written(gid, Do(mls, me, gid, w, act)) && Bears(w.chain, e)
    ensures var next := Do(mls, me, gid, w, act);
            && Bears(next.chain, e) && LowestAt(w.chain, e).Some? && LowestAt(next.chain, e).Some?
            && LowestAt(next.chain, e).value.cursor == LowestAt(w.chain, e).value.cursor
  {
    hide IsChain, Marked, Recorded, Reach, Lowest, NewLinks;
    var next := Do(mls, me, gid, w, act);
    LowestOnChain(w.chain, e, 0);
    var c := LowestAt(w.chain, e).value.cursor;
    LowestAtIsMinimum(w.chain, e);
    LowestIsBelowAll(w.chain, e);
    LowestOnChain(w.chain, e, c);
    if act.PublishTip? && next.chain != w.chain {
      var g := w.world.group;
      var links := NewLinks(gid, g, TipOf(w.chain), act.u);
      PublishedOnTop(gid, g, w.chain, act.u, e, c);
      AppendBears(links, w.chain, e, c);
      LowestOnChain(next.chain, e, c);
    }
  }

  lemma LowestIsBelowAll(chain: seq<Link>, e: nat)
    requires Falling(chain)
    ensures LowestAt(chain, e).Some? ==>
              forall l | l in chain && EpochOf(l) == e :: LowestAt(chain, e).value.cursor <= l.doc.cursor
  {
    LowestAtIsMinimum(chain, e);
    forall l | l in chain && EpochOf(l) == e
      ensures l in Reach(chain, e)
    {
      ReachOfFalling(chain, e, l);
    }
  }

  lemma PublishedOnTop(gid: nat, g: Group, chain: seq<Link>, u: Uploads, e: nat, c: nat)
    requires Falling(chain) && OnTop(chain, g)
    requires g.commitPoint.Some? ==> g.commitPoint.value.state.epoch == g.commitPoint.value.epoch
    requires BearsAt(chain, e, c) && forall l | l in chain && EpochOf(l) == e :: l.doc.cursor >= c
    ensures forall l | l in NewLinks(gid, g, TipOf(chain), u) + chain && Decodes(l) && EpochOf(l) == e :: l.doc.cursor >= c
  {
    hide NewLinks, NeedsPoint;
    var low :| low in chain && Decodes(low) && EpochOf(low) == e && low.doc.cursor == c;
    TipIsHighest(chain, low);
    TipOnTop(chain, g);
    NewLinksBear(gid, g, TipOf(chain), u, e, c);
  }

  /** Re-publishing, and everything else the writer does, never changes the lowest cursor an epoch's search finds. */
  lemma {:induction false} LowestNeverChanges(
    mls: Mls, me: Pubkey, start: Group, gid: nat, w: Writer, acts: seq<Act>, e: nat)
    requires NeverGoesBack(mls) && EpochNamesContext(mls) && Accounted(start, w.world) && Written(gid, w) && AllSound(mls, me, gid, w, acts)
    requires Bears(w.chain, e)
    ensures var end := DoAll(mls, me, gid, w, acts);
            && LowestAt(w.chain, e).Some? && LowestAt(end.chain, e).Some?
            && LowestAt(end.chain, e).value.cursor == LowestAt(w.chain, e).value.cursor
    decreases acts
  {
    hide Accounted, Sound, Do, LowestAt, IsChain, Marked, Placing, OnTop, Recorded;
    if acts == [] {
      LowestOnChain(w.chain, e, 0);
    } else {
      DoKeeps(mls, me, start, gid, w, acts[0]);
      DoKeepsLowest(mls, me, gid, w, acts[0], e);
      LowestNeverChanges(mls, me, start, gid, Do(mls, me, gid, w, acts[0]), acts[1..], e);
    }
  }

  // ---------------------------------------------------------------------
  // When documents come too late
  // ---------------------------------------------------------------------

  ghost predicate AllUploadsStored(acts: seq<Act>) {
    forall act | act in acts :: act.PublishTip? ==> act.u.pointStored && act.u.liveStored
  }

  /** A commit point that counts as published is on the chain. */
  ghost predicate Faithful(w: Writer) {
    && w.missed == {}
    && (AtCommitPoint(w.world.group) && w.world.group.commitPoint.value.published ==>
          Bears(w.chain, w.world.group.state.epoch))
  }

  lemma DoStaysFaithful(mls: Mls, me: Pubkey, start: Group, gid: nat, w: Writer, act: Act)
    requires NeverGoesBack(mls) && EpochNamesContext(mls)
    requires Accounted(start, w.world) && Written(gid, w) && Sound(mls, w, act)
    requires Faithful(w) && (act.PublishTip? ==> act.u.pointStored && act.u.liveStored)
    ensures Faithful(Do(mls, me, gid, w, act))
  {
    hide IsChain, Falling, Marked, Recorded, OnTop, Accounted, Bears, Echoable, StaysUntil, Streamed, FetchAfter, Append;
    var g := w.world.group;
    match act {
      case PublishTip(u) =>
        AppendBears(NewLinks(gid, g, TipOf(w.chain), u), w.chain, g.state.epoch, 0);
        NewLinksBear(gid, g, TipOf(w.chain), u, g.state.epoch, 0);
      case Client(op) =>
        hide CatchUp, TakeIn, Landed, NewLinks;
        match op {
          case OtherPosts(_, _) =>
          case Sync(line, budget) =>
            CatchUpIsQuiet(mls, start, w.world, line, budget);
          case Stream(count, budget) =>
            StreamIsQuiet(mls, start, w.world, count, budget);
          case Send(line, budget, meanwhile, _, _, _, _, _) =>
            CatchUpIsQuiet(mls, start, w.world, line, budget);
            var caught := CatchUp(mls, w.world, line, budget).0;
            TailsKeepPublished(mls, me, caught.(log := Landed(caught.log, meanwhile)), op);
            hide SendTail;
          case Commit(line, budget, meanwhile, _, _, _, _, _, _) =>
            CatchUpIsQuiet(mls, start, w.world, line, budget);
            var caught := CatchUp(mls, w.world, line, budget).0;
            TailsKeepPublished(mls, me, caught.(log := Landed(caught.log, meanwhile)), op);
            hide CommitTail;
        }
    }
  }

  lemma TailsKeepPublished(mls: Mls, me: Pubkey, w: World, op: Op)
    requires op.Commit? ==> op.next.epoch > w.group.state.epoch
    ensures op.Send? ==> SendTail(me, w, op).group.commitPoint == w.group.commitPoint
    ensures op.Commit? ==>
              var after := CommitTail(mls, w, op).group;
              || (after.commitPoint == w.group.commitPoint && after.state == w.group.state)
              || (after.commitPoint.Some? && !after.commitPoint.value.published)
  {
    hide RaceLost, Note;
  }

  /** When no upload fails, no document comes too late: every own Commit's epoch that is published bears its cursor. */
  lemma {:induction false} NothingMissedWhenStored(
    mls: Mls, me: Pubkey, start: Group, gid: nat, w: Writer, acts: seq<Act>)
    requires NeverGoesBack(mls) && EpochNamesContext(mls) && Accounted(start, w.world) && Written(gid, w) && AllSound(mls, me, gid, w, acts)
    requires Faithful(w) && AllUploadsStored(acts)
    ensures DoAll(mls, me, gid, w, acts).missed == {}
    decreases acts
  {
    hide Accounted, Written, Sound, Do;
    if acts != [] {
      assert acts[0] in acts;
      DoKeeps(mls, me, start, gid, w, acts[0]);
      DoStaysFaithful(mls, me, start, gid, w, acts[0]);
      NothingMissedWhenStored(mls, me, start, gid, Do(mls, me, gid, w, acts[0]), acts[1..]);
    }
  }

  /**
   * The commit point counts as published before the live document is stored:
   * when that upload fails the retry leaves it out, and the epoch's only
   * document bears a later cursor than the Commit.
   */
  lemma FailedUploadLosesPoint(gid: nat, store: Store, g: Group, u: Uploads, v: Uploads)
    requires NeedsPoint(g) && u.pointStored && !u.liveStored && v.liveStored
    ensures var failed := PublishOnto(gid, store, g, NO_ADDRESS, u);
            var retried := PublishOnto(gid, failed.store, failed.group, NO_ADDRESS, v);
            && failed.links == [] && |retried.links| == 1
            && !BearsAt(retried.links, g.state.epoch, g.commitPoint.value.cursor)
            && BearsAt(retried.links, g.state.epoch, g.fetchCursor)
  {
    var failed := PublishOnto(gid, store, g, NO_ADDRESS, u);
    var retried := PublishOnto(gid, failed.store, failed.group, NO_ADDRESS, v);
    assert retried.links[0] in retried.links;
  }

  /** A Commit taken up from its echo, after its answer was lost, leaves no commit point to publish. */
  lemma RecoveredCommitHasNoPoint(mls: Mls, g: Group, cursor: nat, at: nat, o: Opaque, i: nat, next: ClientState, gid: nat, prev: Address, u: Uploads)
    requires FindPending(g.pending, o) == Some(i) && i < |g.pending| && !g.pending[i].applied
    requires !OutboundAt(g.messages, cursor) && mls.process(g.state, o) == NewState(next) && next.epoch > g.state.epoch
    requires g.commitPoint.Some? ==> g.commitPoint.value.epoch <= g.state.epoch
    ensures var s := IngestOne(mls, g, cursor, at, o);
            && s.did.Some? && o in Confirms(s.did.value) && s.group.state == next
            && s.group.fetchCursor == cursor && !AtCommitPoint(s.group)
            && forall later: nat ::
                 NewLinks(gid, s.group.(fetchCursor := later), prev, u)
                   == [Link(u.live, GroupDocument(gid, later, Some(next), prev))]
  {
  }

  /** What the client has ingested when an operation comes to its own post: its catch-up, or its stream. */
  function Caught(mls: Mls, w: World, op: Op): World {
    match op
    case OtherPosts(_, _) => w
    case Sync(line, budget) => if line.Watching? then w else CatchUp(mls, w, line, budget).0
    case Stream(count, budget) =>
      if !Active(w.group) then MarkRemoved(w) else TakeIn(mls, w, Streamed(w.log, w.group.fetchCursor, count), budget).0
    case Send(line, budget, _, _, _, _, _, _) => CatchUp(mls, w, line, budget).0
    case Commit(line, budget, _, _, _, _, _, _, _) => CatchUp(mls, w, line, budget).0
  }

  /**
   * Epoch and frontier only rise, and a commit point changes only to that of an
   * own Commit, into an epoch later than what was caught up with.
   */
  ghost predicate MovesUp(w: World, caught: World, next: World) {
    && w.group.state.epoch <= caught.group.state.epoch <= next.group.state.epoch
    && w.group.fetchCursor <= caught.group.fetchCursor <= next.group.fetchCursor
    && (next.group.commitPoint == w.group.commitPoint
        || (next.group.commitPoint.Some? && next.group.commitPoint.value.epoch > caught.group.state.epoch
            && next.group.commitPoint.value.epoch == next.group.state.epoch))
  }

  lemma OperationMovesUp(mls: Mls, me: Pubkey, start: Group, gid: nat, w: Writer, op: Op)
    requires NeverGoesBack(mls) && EpochNamesContext(mls)
    requires Accounted(start, w.world) && Written(gid, w) && Sound(mls, w, Client(op))
    ensures MovesUp(w.world, Caught(mls, w.world, op), Perform(mls, me, w.world, op))
  {
    hide IsChain, Falling, Marked, Recorded, OnTop, Accounted, Echoable, StaysUntil, CatchUp, TakeIn, Landed;
    match op {
      case OtherPosts(_, _) =>
      case Sync(line, budget) =>
        CatchUpIsQuiet(mls, start, w.world, line, budget);
      case Stream(count, budget) =>
        StreamIsQuiet(mls, start, w.world, count, budget);
      case Send(line, budget, meanwhile, _, _, _, _, _) =>
        CatchUpIsQuiet(mls, start, w.world, line, budget);
      case Commit(line, budget, meanwhile, _, _, _, _, _, _) =>
        CatchUpIsQuiet(mls, start, w.world, line, budget);
        var caught := CatchUp(mls, w.world, line, budget).0;
        CommitTailMovesUp(mls, caught.(log := Landed(caught.log, meanwhile)), op);
        hide CommitTail;
    }
  }

  lemma CommitTailMovesUp(mls: Mls, w: World, op: Op)
    requires op.Commit? && op.next.epoch > w.group.state.epoch
    ensures MovesUp(w, w, CommitTail(mls, w, op))
  {
    hide RaceLost, Note;
  }

  /** An epoch that was entered without an own Commit stays without one, and neither epoch nor frontier falls. */
  ghost predicate Uncommitted(w: Writer, next: Writer, e: nat) {
    && e !in next.commits
    && w.world.group.state.epoch <= next.world.group.state.epoch
    && w.world.group.fetchCursor <= next.world.group.fetchCursor
  }

  lemma OneActAddsNone(mls: Mls, me: Pubkey, start: Group, gid: nat, w: Writer, act: Act, e: nat)
    requires NeverGoesBack(mls) && EpochNamesContext(mls)
    requires Accounted(start, w.world) && Written(gid, w) && Sound(mls, w, act)
    requires e <= w.world.group.state.epoch && e !in w.commits
    ensures Uncommitted(w, Do(mls, me, gid, w, act), e)
  {
    hide Accounted, Written, Sound, Perform, NewLinks, Caught, PublishOnto;
    match act
    case Client(op) => OperationMovesUp(mls, me, start, gid, w, op);
    case PublishTip(u) => PublishKeepsHistory(gid, w.store, w.world.group, TipOf(w.chain), u);
  }

  lemma {:induction false} NotCommittedLater(
    mls: Mls, me: Pubkey, start: Group, gid: nat, w: Writer, acts: seq<Act>, e: nat)
    requires NeverGoesBack(mls) && EpochNamesContext(mls)
    requires Accounted(start, w.world) && Written(gid, w) && AllSound(mls, me, gid, w, acts)
    requires e <= w.world.group.state.epoch && e !in w.commits
    ensures Uncommitted(w, DoAll(mls, me, gid, w, acts), e)
    decreases acts
  {
    hide Accounted, Written, Sound, Do;
    if acts != [] {
      DoKeeps(mls, me, start, gid, w, acts[0]);
      OneActAddsNone(mls, me, start, gid, w, acts[0], e);
      NotCommittedLater(mls, me, start, gid, Do(mls, me, gid, w, acts[0]), acts[1..], e);
    }
  }

  /** What an operation takes in before it posts anything. */
  function Taken(w: World, op: Op): seq<Record> {
    if !Active(w.group) || op.OtherPosts? then []
    else if op.Stream? then Streamed(w.log, w.group.fetchCursor, op.count)
    else if op.line.Reachable? then FetchAfter(w.log, w.group.fetchCursor)
    else []
  }

  /** Under this group the entry is an own Commit whose post was never answered, and takes the group to epoch `e`. */
  ghost predicate Recovers(mls: Mls, g: Group, r: Record, e: nat) {
    var posted := FindPosted(g.pending, r.wire);
    var o := if posted.Some? then posted else mls.open(g.state, r.wire);
    && o.Some? && FindPending(g.pending, o.value).Some? && !OutboundAt(g.messages, r.cursor)
    && (var i := FindPending(g.pending, o.value).value; i < |g.pending| && !g.pending[i].applied)
    && (match mls.process(g.state, o.value)
        case NewState(next) => g.state.epoch < next.epoch == e
        case _ => false)
  }

  lemma RecoveredStep(mls: Mls, g: Group, r: Record, e: nat)
    requires Recovers(mls, g, r, e)
    ensures var s := ReceiveOne(mls, g, r);
            s.did.Some? && s.group.state.epoch == e > g.state.epoch && s.group.fetchCursor == r.cursor
  {
  }

  lemma {:induction false} FrontierRises(mls: Mls, g: Group, records: seq<Record>)
    requires NeverGoesBack(mls) && Contiguous(records, g.fetchCursor)
    ensures ReceiveAll(mls, g, records).group.fetchCursor >= g.fetchCursor
    decreases records
  {
    if records != [] {
      ReceiveOneKeeps(mls, g, records[0]);
      hide ReceiveOne;
      var step := ReceiveOne(mls, g, records[0]);
      if step.did.Some? {
        FrontierRises(mls, step.group, records[1..]);
      }
    }
  }

  lemma FirstIsHandled(mls: Mls, g: Group, records: seq<Record>)
    requires NeverGoesBack(mls) && Contiguous(records, g.fetchCursor)
    requires records != [] && ReceiveAll(mls, g, records).handled != []
    ensures var step := ReceiveOne(mls, g, records[0]);
            && step.group.state.epoch >= g.state.epoch && step.group.fetchCursor == records[0].cursor
            && Contiguous(records[1..], step.group.fetchCursor)
    ensures var step, rest := ReceiveOne(mls, g, records[0]), ReceiveAll(mls, ReceiveOne(mls, g, records[0]).group, records[1..]);
            && step.did.Some? && ReceiveAll(mls, g, records).group == rest.group
            && |ReceiveAll(mls, g, records).handled| == 1 + |rest.handled|
  {
    ReceiveOneKeeps(mls, g, records[0]);
    hide ReceiveOne;
  }

  lemma GroupAtUnfolds(mls: Mls, g: Group, records: seq<Record>, k: nat)
    requires k < |records|
    ensures GroupAt(mls, g, records, k)
         == if k == 0 then g else GroupAt(mls, ReceiveOne(mls, g, records[0]).group, records[1..], k - 1)
  {
    hide ReceiveOne;
  }

  /** A batch that handled entry `k` leaves the group no lower than that entry did, nor than it found it. */
  lemma {:induction false} HandledThrough(mls: Mls, g: Group, records: seq<Record>, k: nat)
    requires NeverGoesBack(mls) && EpochNamesContext(mls) && Contiguous(records, g.fetchCursor)
    requires k < |records| && k < |ReceiveAll(mls, g, records).handled|
    ensures var s := ReceiveOne(mls, GroupAt(mls, g, records, k), records[k]);
            var b := ReceiveAll(mls, g, records);
            && g.state.epoch <= GroupAt(mls, g, records, k).state.epoch
            && s.group.state.epoch <= b.group.state.epoch && records[k].cursor <= b.group.fetchCursor
    decreases records
  {
    hide ReceiveOne, ReceiveAll, GroupAt, Contiguous, NeverGoesBack, EpochNamesContext;
    var step := ReceiveOne(mls, g, records[0]);
    FirstIsHandled(mls, g, records);
    GroupAtUnfolds(mls, g, records, k);
    if k == 0 {
      BatchKeepsContext(mls, step.group, records[1..]);
      FrontierRises(mls, step.group, records[1..]);
    } else {
      HandledThrough(mls, step.group, records[1..], k - 1);
    }
  }

  /** Ingestion that recovers a Commit enters its epoch without an own Commit on record. */
  lemma RecoveryCommitsNothing(mls: Mls, me: Pubkey, start: Group, gid: nat, w: Writer, op: Op, k: nat, e: nat)
    requires NeverGoesBack(mls) && EpochNamesContext(mls)
    requires Accounted(start, w.world) && Written(gid, w) && Sound(mls, w, Client(op))
    requires var taken := Taken(w.world, op);
             && k < |taken| && k < |ReceiveAll(mls, w.world.group, taken).handled|
             && Recovers(mls, GroupAt(mls, w.world.group, taken, k), taken[k], e)
    ensures var next := Do(mls, me, gid, w, Client(op));
            && e <= next.world.group.state.epoch && Taken(w.world, op)[k].cursor <= next.world.group.fetchCursor
            && (e == next.world.group.state.epoch ==> e !in next.commits)
  {
    var taken, g := Taken(w.world, op), w.world.group;
    TakenIsIngested(mls, w.world, op);
    HandledThrough(mls, g, taken, k);
    RecoveredStep(mls, GroupAt(mls, g, taken, k), taken[k], e);
    OperationMovesUp(mls, me, start, gid, w, op);
    hide Perform, Caught, ReceiveAll, ReceiveOne, GroupAt, Taken, Sound, IsChain, Falling, Marked, OnTop, Placing, Accounted, Recovers;
  }

  lemma TakenIsIngested(mls: Mls, w: World, op: Op)
    requires Dense(w.log) && Taken(w, op) != []
    ensures Contiguous(Taken(w, op), w.group.fetchCursor)
    ensures var b := ReceiveAll(mls, w.group, Taken(w, op));
            Caught(mls, w, op).group.state == b.group.state && Caught(mls, w, op).group.fetchCursor == b.group.fetchCursor
  {
    FetchIsContiguous(w.log, w.group.fetchCursor, if op.Stream? then op.count else 0);
    hide ReceiveAll, Streamed, FetchAfter;
  }

  /**
   * The epoch of a Commit that an operation took up from its echo: whatever the
   * run does before it publishes that epoch, the epoch's search then finds, for
   * good, the frontier of that moment - never below the echo, and the Commit's own
   * cursor if and only if nothing past the echo has been ingested by then.
   */
  lemma RecoveredCommitBorneIff(
    mls: Mls, me: Pubkey, start: Group, gid: nat, w: Writer, op: Op, k: nat, e: nat, acts: seq<Act>, u: Uploads)
    requires NeverGoesBack(mls) && EpochNamesContext(mls)
    requires Accounted(start, w.world) && Written(gid, w) && Sound(mls, w, Client(op))
    requires var taken := Taken(w.world, op);
             && k < |taken| && k < |ReceiveAll(mls, w.world.group, taken).handled|
             && Recovers(mls, GroupAt(mls, w.world.group, taken, k), taken[k], e)
    requires AllSound(mls, me, gid, Do(mls, me, gid, w, Client(op)), acts)
    requires var before := DoAll(mls, me, gid, Do(mls, me, gid, w, Client(op)), acts);
             && before.world.group.state.epoch == e && !Bears(before.chain, e)
             && Sound(mls, before, PublishTip(u)) && u.liveStored
    ensures var before := DoAll(mls, me, gid, Do(mls, me, gid, w, Client(op)), acts);
            var after := Do(mls, me, gid, before, PublishTip(u));
            var echo := Taken(w.world, op)[k].cursor;
            && Bears(after.chain, e) && LowestAt(after.chain, e).Some?
            && LowestAt(after.chain, e).value.cursor >= echo
            && (LowestAt(after.chain, e).value.cursor == echo <==> before.world.group.fetchCursor == echo)
  {
    var recovered := Do(mls, me, gid, w, Client(op));
    DoKeeps(mls, me, start, gid, w, Client(op));
    RecoveryCommitsNothing(mls, me, start, gid, w, op, k, e);
    RunKeeps(mls, me, start, gid, recovered, acts);
    hide DoAll, Do, Accounted, Written, Taken, Recovers, GroupAt, ReceiveAll, AllSound, Sound, Bears, LowestAt;
    EpochsOnlyRise(mls, me, start, gid, recovered, acts);
    NotCommittedLater(mls, me, start, gid, recovered, acts, e);
    FirstPublication(mls, me, start, gid, DoAll(mls, me, gid, recovered, acts), u, e);
  }

  lemma {:induction false} EpochsOnlyRise(mls: Mls, me: Pubkey, start: Group, gid: nat, w: Writer, acts: seq<Act>)
    requires NeverGoesBack(mls) && EpochNamesContext(mls)
    requires Accounted(start, w.world) && Written(gid, w) && AllSound(mls, me, gid, w, acts)
    ensures w.world.group.state.epoch <= DoAll(mls, me, gid, w, acts).world.group.state.epoch
    decreases acts
  {
    hide Accounted, Written, Sound, Do;
    if acts != [] {
      DoKeeps(mls, me, start, gid, w, acts[0]);
      OneActRises(mls, me, start, gid, w, acts[0]);
      EpochsOnlyRise(mls, me, start, gid, Do(mls, me, gid, w, acts[0]), acts[1..]);
    }
  }

  lemma OneActRises(mls: Mls, me: Pubkey, start: Group, gid: nat, w: Writer, act: Act)
    requires NeverGoesBack(mls) && EpochNamesContext(mls)
    requires Accounted(start, w.world) && Written(gid, w) && Sound(mls, w, act)
    ensures w.world.group.state.epoch <= Do(mls, me, gid, w, act).world.group.state.epoch
  {
    hide Accounted, Written, Sound, Perform, NewLinks, Caught, PublishOnto;
    match act
    case Client(op) => OperationMovesUp(mls, me, start, gid, w, op);
    case PublishTip(u) => PublishKeepsHistory(gid, w.store, w.world.group, TipOf(w.chain), u);
  }

  /** The first publication of an epoch without an own Commit on record bears the frontier. */
  lemma FirstPublication(mls: Mls, me: Pubkey, start: Group, gid: nat, before: Writer, u: Uploads, e: nat)
    requires NeverGoesBack(mls) && EpochNamesContext(mls)
    requires Accounted(start, before.world) && Written(gid, before) && Sound(mls, before, PublishTip(u)) && u.liveStored
    requires before.world.group.state.epoch == e && e !in before.commits && !Bears(before.chain, e)
    ensures var after := Do(mls, me, gid, before, PublishTip(u));
            && Bears(after.chain, e) && LowestAt(after.chain, e).Some?
            && LowestAt(after.chain, e).value.cursor == before.world.group.fetchCursor
  {
    DoKeeps(mls, me, start, gid, before, PublishTip(u));
    hide Accounted, LowestAt, IsChain, Falling, Marked, Bears, BearsAt, Echoable;
    var g := before.world.group;
    var links := NewLinks(gid, g, TipOf(before.chain), u);
    var after := Do(mls, me, gid, before, PublishTip(u));
    assert !AtCommitPoint(g) && after.chain == links + before.chain;
    NewLinksBear(gid, g, TipOf(before.chain), u, e, g.fetchCursor);
    AppendBears(links, before.chain, e, g.fetchCursor);
    NotBorne(before.chain, e);
    FirstIsLowest(links, before.chain, e, g.fetchCursor);
  }

  lemma NotBorne(chain: seq<Link>, e: nat)
    requires Falling(chain) && !Bears(chain, e)
    ensures forall l | l in chain :: EpochOf(l) != e
  {
  }

  lemma FirstIsLowest(links: seq<Link>, chain: seq<Link>, e: nat, cursor: nat)
    requires Falling(links + chain) && Bears(links + chain, e) && (forall l | l in chain :: EpochOf(l) != e)
    requires BearsAt(links, e, cursor) && forall l | l in links :: Decodes(l) && l.doc.cursor >= cursor
    ensures LowestAt(links + chain, e).Some? && LowestAt(links + chain, e).value.cursor == cursor
  {
    AppendBears(links, chain, e, cursor);
    LowestOnChain(links + chain, e, cursor);
  }

  /**
   * A writer that loses a fork after publishing and adopts a document from
   * below its own tip publishes its next document out of order.
   */
  lemma AdoptionBreaksOrder(gid: nat, g: Group, theirs: ClientState, address: Address, cursor: nat, chain: seq<Link>, u: Uploads)
    requires Falling(chain) && chain != [] && EpochOf(chain[0]) <= theirs.epoch
    requires g.fetchCursor < chain[0].doc.cursor && cursor < chain[0].doc.cursor
    ensures !Falling(NewLinks(gid, Adopt(g, theirs, address, cursor), TipOf(chain), u) + chain)
  {
    var h := Adopt(g, theirs, address, cursor);
    OrderKeptExactlyOnTop(gid, h, chain, u);
  }
}
