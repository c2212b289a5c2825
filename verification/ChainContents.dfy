/**
 * What the documents on a writer's chain hold: which state of the client each of
 * them carries, over whole runs, and what a sibling's catch-up then finds at the
 * epochs of the writer's own Commits.
 */
module ChainContents {
  import opened Base
  import opened Mls
  import opened GroupSync
  import opened Documents
  import opened Forks
  import opened ClientRuns
  import opened ChainCatchUp
  import opened Publisher

  // ---------------------------------------------------------------------
  // The ledger of a run
  // ---------------------------------------------------------------------

  /** An own Commit that was answered: where it landed and the state it made. */
  datatype Made = Made(cursor: nat, state: ClientState)

  /** What the client held when it published a live document. */
  datatype Held = Held(state: ClientState, frontier: nat)

  /** Own Commits by epoch, live documents by address, and the addresses of commit-point documents. */
  datatype Ledger = Ledger(made: map<nat, Made>, live: map<Address, Held>, points: set<Address>)

  /** The operation posts a Commit, its post is answered, and the client adopts it. */
  predicate Adopts(mls: Mls, w: World, op: Op) {
    op.Commit? && op.post.Stored? && CatchUp(mls, w, op.line, op.budget).1
  }

  /** Written down from the acts alone: a Commit's `next` and the cursor after the log, the client's state when it publishes. */
  ghost function Enter(mls: Mls, me: Pubkey, gid: nat, w: Writer, act: Act, b: Ledger): Ledger {
    match act
    case Client(op) =>
      if Adopts(mls, w.world, op) then
        var log := Landed(CatchUp(mls, w.world, op.line, op.budget).0.log, op.meanwhile);
        b.(made := b.made[op.next.epoch := Made(|log| + 1, op.next)])
      else b
    case PublishTip(u) =>
      var grown := Do(mls, me, gid, w, act).chain;
      if |grown| == |w.chain| then b
      else
        var held := Held(w.world.group.state, w.world.group.fetchCursor);
        b.(live := b.live[u.live := held], points := if |grown| == |w.chain| + 2 then b.points + {u.point} else b.points)
  }

  ghost function EnterAll(mls: Mls, me: Pubkey, gid: nat, w: Writer, acts: seq<Act>, b: Ledger): Ledger
    decreases acts
  {
    if acts == [] then b
    else EnterAll(mls, me, gid, Do(mls, me, gid, w, acts[0]), acts[1..], Enter(mls, me, gid, w, acts[0], b))
  }

  const BLANK := Ledger(map[], map[], {})

  // ---------------------------------------------------------------------
  // What every document carries
  // ---------------------------------------------------------------------

  /** A live document: the state and the frontier of its moment, lifted to the epoch's own Commit. */
  ghost predicate CarriesLive(l: Link, b: Ledger) {
    && l.address in b.live && l.address !in b.points && l.doc.GroupDocument?
    && l.doc.state == Some(b.live[l.address].state)
    && l.doc.cursor == (if l.doc.state.value.epoch in b.made
                        then Max(b.live[l.address].frontier, b.made[l.doc.state.value.epoch].cursor)
                        else b.live[l.address].frontier)
  }

  /** A commit-point document: an own Commit's cursor and exactly the state it made. */
  ghost predicate CarriesPoint(l: Link, b: Ledger) {
    && l.address in b.points && l.address !in b.live && l.doc.GroupDocument? && l.doc.state.Some?
    && l.doc.state.value.epoch in b.made
    && b.made[l.doc.state.value.epoch] == Made(l.doc.cursor, l.doc.state.value)
  }

  ghost predicate Carried(chain: seq<Link>, b: Ledger) { forall l | l in chain :: CarriesLive(l, b) || CarriesPoint(l, b) }

  /** The own Commits on record, and the commit point among them. */
  ghost predicate Booked(commits: map<nat, nat>, point: Option<CommitPoint>, b: Ledger) {
    && commits.Keys == b.made.Keys
    && (forall e | e in commits :: b.made[e].cursor == commits[e] && b.made[e].state.epoch == e)
    && (point.Some? ==> point.value.epoch in b.made && b.made[point.value.epoch] == Made(point.value.cursor, point.value.state))
  }

  ghost predicate Kept(w: Writer, b: Ledger) {
    && Booked(w.commits, w.world.group.commitPoint, b)
    && Carried(w.chain, b)
    && b.live.Keys + b.points <= w.store.Keys
  }

  /** An operation leaves the commit point alone, or sets it to exactly the Commit it adopts. */
  lemma PointIsTheCommit(mls: Mls, me: Pubkey, start: Group, gid: nat, w: Writer, op: Op)
    requires NeverGoesBack(mls) && EpochNamesContext(mls)
    requires Accounted(start, w.world) && Written(gid, w) && Sound(mls, w, Client(op))
    ensures var next := Perform(mls, me, w.world, op).group;
            if Adopts(mls, w.world, op) then
              var log := Landed(CatchUp(mls, w.world, op.line, op.budget).0.log, op.meanwhile);
              && next.commitPoint == Some(CommitPoint(op.next.epoch, |log| + 1, op.next, false))
              && op.next.epoch > w.world.group.state.epoch
            else next.commitPoint == w.world.group.commitPoint
  {
    hide IsChain, Falling, Marked, Recorded, OnTop, Accounted, Echoable, StaysUntil, CatchUp, TakeIn, Landed;
    match op {
      case OtherPosts(_, _) =>
      case Sync(line, budget) =>
        CatchUpIsQuiet(mls, start, w.world, line, budget);
      case Stream(count, budget) =>
        StreamIsQuiet(mls, start, w.world, count, budget);
      case Send(line, budget, _, _, _, _, _, _) =>
        CatchUpIsQuiet(mls, start, w.world, line, budget);
      case Commit(line, budget, meanwhile, _, _, _, _, _, _) =>
        CatchUpIsQuiet(mls, start, w.world, line, budget);
        var caught := CatchUp(mls, w.world, line, budget).0;
        TailSetsPoint(mls, caught.(log := Landed(caught.log, meanwhile)), op);
        hide CommitTail;
    }
  }

  lemma TailSetsPoint(mls: Mls, w: World, op: Op)
    requires op.Commit?
    ensures CommitTail(mls, w, op).group.commitPoint
         == if op.post.Stored? then Some(CommitPoint(op.next.epoch, |w.log| + 1, op.next, false)) else w.group.commitPoint
  {
    hide RaceLost, Note;
  }

  /** A Commit in a later epoch changes nothing about what earlier documents carry. */
  lemma LaterCommitKeeps(chain: seq<Link>, b: Ledger, e: nat, made: Made)
    requires Carried(chain, b) && forall l | l in chain && Decodes(l) :: EpochOf(l) < e
    ensures Carried(chain, b.(made := b.made[e := made]))
  {
    forall l | l in chain
      ensures CarriesLive(l, b.(made := b.made[e := made])) || CarriesPoint(l, b.(made := b.made[e := made]))
    {
      assert CarriesLive(l, b) || CarriesPoint(l, b);
    }
  }

  lemma ClientKeepsLedger(mls: Mls, me: Pubkey, start: Group, gid: nat, w: Writer, op: Op, b: Ledger)
    requires NeverGoesBack(mls) && EpochNamesContext(mls)
    requires Accounted(start, w.world) && Written(gid, w) && Sound(mls, w, Client(op)) && Kept(w, b)
    ensures Kept(Do(mls, me, gid, w, Client(op)), Enter(mls, me, gid, w, Client(op), b))
  {
    PointIsTheCommit(mls, me, start, gid, w, op);
    WrittenBounds(gid, w);
    ClientActs(mls, me, gid, w, op, b);
    hide Written, Accounted, Perform, Landed, CatchUp, Carried, Sound, Booked, Do, Enter, Adopts;
    var before, after := w.world.group.commitPoint, Perform(mls, me, w.world, op).group.commitPoint;
    if Adopts(mls, w.world, op) {
      LaterCommitKeeps(w.chain, b, op.next.epoch, Made(after.value.cursor, op.next));
      OneMoreBooked(w.commits, before, b, after.value, w.world.group.state.epoch);
    }
  }

  /** What an operation of the client does to the writer and to the ledger. */
  lemma ClientActs(mls: Mls, me: Pubkey, gid: nat, w: Writer, op: Op, b: Ledger)
    ensures var next, after := Do(mls, me, gid, w, Client(op)), Enter(mls, me, gid, w, Client(op), b);
            var point := Perform(mls, me, w.world, op).group.commitPoint;
            && next.chain == w.chain && next.store == w.store && next.world.group.commitPoint == point
            && next.commits == RecordCommit(w.commits, w.world.group.commitPoint, point)
            && after.live == b.live && after.points == b.points
            && (!Adopts(mls, w.world, op) ==> after == b)
            && (Adopts(mls, w.world, op) ==>
                  var log := Landed(CatchUp(mls, w.world, op.line, op.budget).0.log, op.meanwhile);
                  after == b.(made := b.made[op.next.epoch := Made(|log| + 1, op.next)]))
  {
    hide Perform, Landed, CatchUp;
  }

  /** Neither the chain nor the own Commits on record are newer than the client's epoch. */
  lemma WrittenBounds(gid: nat, w: Writer)
    requires Written(gid, w)
    ensures forall l | l in w.chain && Decodes(l) :: EpochOf(l) <= w.world.group.state.epoch
    ensures forall e | e in w.commits :: e <= w.world.group.state.epoch
  {
    hide IsChain, Marked, Placing;
    forall l | l in w.chain && Decodes(l)
      ensures EpochOf(l) <= w.world.group.state.epoch
    {
      TipIsHighest(w.chain, l);
    }
  }

  lemma OneMoreBooked(commits: map<nat, nat>, before: Option<CommitPoint>, b: Ledger, point: CommitPoint, epoch: nat)
    requires Booked(commits, before, b) && point.state.epoch == point.epoch > epoch
    requires forall e | e in commits :: e <= epoch
    ensures Booked(RecordCommit(commits, before, Some(point)), Some(point),
                   b.(made := b.made[point.epoch := Made(point.cursor, point.state)]))
  {
  }

  lemma PublishKeepsLedger(mls: Mls, me: Pubkey, gid: nat, w: Writer, u: Uploads, b: Ledger)
    requires Written(gid, w) && Sound(mls, w, PublishTip(u)) && Kept(w, b)
    ensures Kept(Do(mls, me, gid, w, PublishTip(u)), Enter(mls, me, gid, w, PublishTip(u), b))
  {
    hide IsChain, Falling, Marked, OnTop, Bears;
    var g := w.world.group;
    var next, after := Do(mls, me, gid, w, PublishTip(u)), Enter(mls, me, gid, w, PublishTip(u), b);
    var p := PublishOnto(gid, w.store, g, TipOf(w.chain), u);
    forall l | l in next.chain
      ensures CarriesLive(l, after) || CarriesPoint(l, after)
    {
      if l in w.chain {
        assert CarriesLive(l, b) || CarriesPoint(l, b);
        assert l.address in w.store;
      } else {
        assert l in p.links;
        assert g.state.epoch in w.commits <==> AtCommitPoint(g);
      }
    }
  }

  lemma {:induction false} RunKeepsLedger(
    mls: Mls, me: Pubkey, start: Group, gid: nat, w: Writer, acts: seq<Act>, b: Ledger)
    requires NeverGoesBack(mls) && EpochNamesContext(mls)
    requires Accounted(start, w.world) && Written(gid, w) && AllSound(mls, me, gid, w, acts) && Kept(w, b)
    ensures Kept(DoAll(mls, me, gid, w, acts), EnterAll(mls, me, gid, w, acts, b))
    decreases acts
  {
    hide Accounted, Written, Sound, Do, Enter, Kept;
    if acts != [] {
      DoKeeps(mls, me, start, gid, w, acts[0]);
      match acts[0] {
        case Client(op) => ClientKeepsLedger(mls, me, start, gid, w, op, b);
        case PublishTip(u) => PublishKeepsLedger(mls, me, gid, w, u, b);
      }
      RunKeepsLedger(mls, me, start, gid, Do(mls, me, gid, w, acts[0]), acts[1..], Enter(mls, me, gid, w, acts[0], b));
    }
  }

  /**
   * In every run of one writer each chained document carries the client's state
   * of the moment it was published, or, at an own Commit's cursor, exactly the
   * state that Commit made.
   */
  lemma EveryDocumentCarries(mls: Mls, me: Pubkey, gid: nat, w: Writer, acts: seq<Act>)
    requires NeverGoesBack(mls) && EpochNamesContext(mls) && Starting(w) && AllSound(mls, me, gid, w, acts)
    ensures Kept(DoAll(mls, me, gid, w, acts), EnterAll(mls, me, gid, w, acts, BLANK))
  {
    StartsWritten(gid, w);
    RunKeepsLedger(mls, me, w.world.group, gid, w, acts, BLANK);
  }

  lemma StartsWritten(gid: nat, w: Writer)
    requires Starting(w)
    ensures Accounted(w.world.group, w.world) && Written(gid, w) && Kept(w, BLANK)
  {
  }

  /**
   * A document at an own Commit's epoch and cursor carries exactly the state the
   * Commit made if and only if it is a commit-point document, or a live one
   * published while the client still held that state. A live one got there only
   * while the frontier had not passed the Commit.
   */
  lemma AtTheCommitIff(mls: Mls, me: Pubkey, gid: nat, w: Writer, acts: seq<Act>, l: Link)
    requires NeverGoesBack(mls) && EpochNamesContext(mls) && Starting(w) && AllSound(mls, me, gid, w, acts)
    requires var end := DoAll(mls, me, gid, w, acts);
             && l in end.chain && Decodes(l) && EpochOf(l) in end.commits && l.doc.cursor == end.commits[EpochOf(l)]
    ensures var b := EnterAll(mls, me, gid, w, acts, BLANK);
            && EpochOf(l) in b.made
            && (l.doc.state == Some(b.made[EpochOf(l)].state)
                <==> l.address in b.points || (l.address in b.live && b.live[l.address].state == b.made[EpochOf(l)].state))
            && (l.address in b.live ==> b.live[l.address].frontier <= l.doc.cursor)
  {
    EveryDocumentCarries(mls, me, gid, w, acts);
    var b := EnterAll(mls, me, gid, w, acts, BLANK);
    assert CarriesLive(l, b) || CarriesPoint(l, b);
    hide DoAll, EnterAll, AllSound, Starting;
  }

  /**
   * The failing input: while the frontier has not passed the Commit, an own send
   * has already moved the state on; the document published then bears the Commit's
   * cursor and another state.
   */
  lemma SentBeforePublished(gid: nat, store: Store, g: Group, prev: Address, u: Uploads)
    requires AtCommitPoint(g) && !g.commitPoint.value.published && g.fetchCursor <= g.commitPoint.value.cursor
    requires g.state != g.commitPoint.value.state && u.liveStored
    ensures var links := PublishOnto(gid, store, g, prev, u).links;
            && |links| == 1 && links[0].doc.GroupDocument? && links[0].doc.cursor == g.commitPoint.value.cursor
            && links[0].doc.state.Some? && links[0].doc.state.value == g.state != g.commitPoint.value.state
  {
  }

  /**
   * What a publication leaves of the group: nothing when the commit-point document
   * cannot be stored; the point on record as soon as it is, or when the live
   * document is the first of its epoch; and the live document's address, cursor
   * and state as the device's own place once that is stored. Nothing else changes.
   */
  lemma PublishingLeaves(gid: nat, store: Store, g: Group, prev: Address, u: Uploads)
    requires u.live != u.point
    ensures var p := PublishOnto(gid, store, g, prev, u);
            var after := p.group;
            && (NeedsPoint(g) && !u.pointStored ==> p == Publication(store, g, []))
            && (!(NeedsPoint(g) && !u.pointStored) ==>
                  && (p.links != [] <==> u.liveStored)
                  && after.commitPoint
                     == (if !AtCommitPoint(g) then g.commitPoint
                         else Some(CommitPoint(g.state.epoch, g.commitPoint.value.cursor, g.commitPoint.value.state, true))))
            && (p.links != [] ==>
                  && p.links[0].address == u.live && u.live in p.store && p.store[u.live] == p.links[0].doc
                  && p.links[0].doc.GroupDocument? && p.links[0].doc.state == Some(g.state)
                  && after.appliedDocument == Some(AppliedDocument(u.live, p.links[0].doc.cursor, FingerprintOf(g.state))))
            && (p.links == [] ==> after.appliedDocument == g.appliedDocument)
            && after == g.(commitPoint := after.commitPoint, appliedDocument := after.appliedDocument)
  {
  }

  // ---------------------------------------------------------------------
  // What a catch-up finds
  // ---------------------------------------------------------------------

  /** The part of the chain a reader's hops reach. */
  function Near(chain: seq<Link>): seq<Link> { chain[..Min(1000, |chain|)] }

  /** The Commit's cursor is on the near part of the chain, and no live document there carries another state. */
  ghost predicate Shows(chain: seq<Link>, b: Ledger, e: nat) {
    && e in b.made && BearsAt(Near(chain), e, b.made[e].cursor)
    && forall l | l in chain && l.address in b.live && Decodes(l) && EpochOf(l) == e && l.doc.cursor == b.made[e].cursor ::
         b.live[l.address].state == b.made[e].state
  }

  lemma {:induction false} NewerHasAll(links: seq<Link>, gid: nat, localEpoch: nat, l: Link)
    requires Falling(links) && (forall x | x in links :: SameGroup(x, gid)) && l in links && EpochOf(l) > localEpoch
    ensures l in Newer(links, gid, localEpoch)
  {
    TipIsHighest(links, l);
    if l != links[0] {
      LaterFalls(links);
      NewerHasAll(links[1..], gid, localEpoch, l);
    }
  }

  lemma StepsHold(steps: seq<ChainStep>, links: seq<Link>, s: ChainStep)
    requires StepsOf(steps, links) && s in steps
    ensures exists l | l in links :: Decodes(l) && EpochOf(l) == s.epoch && s == ChainStep(s.epoch, l.doc.state, l.doc.cursor, l.address)
    ensures forall l | l in links && EpochOf(l) == s.epoch && Decodes(l) :: s.cursor <= l.doc.cursor
  {
    var byEpoch :| LowestPerEpoch(byEpoch, links) && |steps| == |byEpoch| && Holds(steps, map[], byEpoch);
    var e :| e in byEpoch && byEpoch[e] == s;
  }

  lemma StepsCover(steps: seq<ChainStep>, links: seq<Link>, l: Link)
    requires StepsOf(steps, links) && l in links
    ensures Decodes(l) && exists s | s in steps :: s.epoch == EpochOf(l)
  {
    var byEpoch :| LowestPerEpoch(byEpoch, links) && |steps| == |byEpoch| && Holds(steps, map[], byEpoch);
    assert byEpoch[EpochOf(l)] in steps;
    var x :| x in links && Decodes(x) && EpochOf(x) == EpochOf(l)
             && byEpoch[EpochOf(l)] == ChainStep(EpochOf(l), x.doc.state, x.doc.cursor, x.address);
  }

  /** No document of an own Commit's epoch lies below it, and one at its cursor carries the state it made. */
  lemma LowestIsTheCommit(w: Writer, b: Ledger, x: Link)
    requires Marked(w.chain, w.commits, w.missed) && Carried(w.chain, b) && Booked(w.commits, w.world.group.commitPoint, b)
    requires x in w.chain && Decodes(x) && Shows(w.chain, b, EpochOf(x))
    ensures x.doc.cursor >= b.made[EpochOf(x)].cursor
    ensures x.doc.cursor == b.made[EpochOf(x)].cursor ==> x.doc.state == Some(b.made[EpochOf(x)].state)
  {
    assert CarriesLive(x, b) || CarriesPoint(x, b);
  }

  lemma NearIsOrdered(gid: nat, w: Writer)
    requires Written(gid, w)
    ensures Falling(Near(w.chain)) && forall x | x in Near(w.chain) :: x in w.chain && SameGroup(x, gid)
  {
    PrefixFalls(w.chain, |Near(w.chain)|);
    hide Falling, Marked, Placing, OnTop, Recorded;
  }

  /** The steps of an epoch that shows its Commit are that Commit: its cursor, and exactly the state it made. */
  lemma StepOnChain(gid: nat, w: Writer, b: Ledger, steps: seq<ChainStep>, localEpoch: nat, e: nat)
    requires Written(gid, w) && Kept(w, b) && e > localEpoch && Shows(w.chain, b, e)
    requires StepsOf(steps, Newer(Near(w.chain), gid, localEpoch))
    ensures exists s | s in steps :: s.epoch == e
    ensures forall s | s in steps && s.epoch == e :: s.cursor == b.made[e].cursor && s.state == Some(b.made[e].state)
  {
    var near := Near(w.chain);
    var links := Newer(near, gid, localEpoch);
    NearIsOrdered(gid, w);
    hide IsChain, Falling, Newer, Marked, Placing, OnTop, Carried, Booked, StepsOf, Recorded, Near;
    var l :| l in near && Decodes(l) && EpochOf(l) == e && l.doc.cursor == b.made[e].cursor;
    NewerHasAll(near, gid, localEpoch, l);
    StepsCover(steps, links, l);
    forall s | s in steps && s.epoch == e
      ensures s.cursor == b.made[e].cursor && s.state == Some(b.made[e].state)
    {
      OneStep(gid, w, b, steps, localEpoch, l, s);
    }
  }

  lemma OneStep(gid: nat, w: Writer, b: Ledger, steps: seq<ChainStep>, localEpoch: nat, l: Link, s: ChainStep)
    requires Marked(w.chain, w.commits, w.missed) && Kept(w, b)
    requires forall x | x in Near(w.chain) :: x in w.chain
    requires StepsOf(steps, Newer(Near(w.chain), gid, localEpoch)) && s in steps
    requires l in Newer(Near(w.chain), gid, localEpoch) && Decodes(l) && EpochOf(l) == s.epoch
    requires Shows(w.chain, b, s.epoch) && l.doc.cursor == b.made[s.epoch].cursor
    ensures s.cursor == b.made[s.epoch].cursor && s.state == Some(b.made[s.epoch].state)
  {
    hide StepsOf, Near, Kept, Marked, BearsAt;
    var near := Near(w.chain);
    StepsHold(steps, Newer(near, gid, localEpoch), s);
    var x :| x in Newer(near, gid, localEpoch) && Decodes(x) && EpochOf(x) == s.epoch
             && s == ChainStep(s.epoch, x.doc.state, x.doc.cursor, x.address);
    hide *;
    StepIsTheCommit(w, b, x, s);
  }

  lemma StepIsTheCommit(w: Writer, b: Ledger, x: Link, s: ChainStep)
    requires Marked(w.chain, w.commits, w.missed) && Kept(w, b)
    requires x in w.chain && Decodes(x) && EpochOf(x) == s.epoch && s == ChainStep(s.epoch, x.doc.state, x.doc.cursor, x.address)
    requires Shows(w.chain, b, s.epoch) && s.epoch in b.made && s.cursor <= b.made[s.epoch].cursor
    ensures s.cursor == b.made[s.epoch].cursor && s.state == Some(b.made[s.epoch].state)
  {
    hide Marked, Carried, Booked, Shows;
    LowestIsTheCommit(w, b, x);
  }

  /**
   * Whoever catches up from the writer's chain gets, for every own Commit that
   * shows on it, one step at that Commit's cursor, with exactly the state the
   * Commit made.
   */
  lemma CatchUpFindsCommits(mls: Mls, me: Pubkey, gid: nat, w: Writer, acts: seq<Act>, steps: seq<ChainStep>, localEpoch: nat, e: nat)
    requires NeverGoesBack(mls) && EpochNamesContext(mls) && Starting(w) && AllSound(mls, me, gid, w, acts)
    requires var end, b := DoAll(mls, me, gid, w, acts), EnterAll(mls, me, gid, w, acts, BLANK);
             && StepsOf(steps, Newer(Walk(end.store, TipOf(end.chain), MAX_HOPS), gid, localEpoch))
             && e > localEpoch && Shows(end.chain, b, e)
    ensures var b := EnterAll(mls, me, gid, w, acts, BLANK);
            && (exists s | s in steps :: s.epoch == e)
            && forall s | s in steps && s.epoch == e :: s.cursor == b.made[e].cursor && s.state == Some(b.made[e].state)
  {
    var end, b := DoAll(mls, me, gid, w, acts), EnterAll(mls, me, gid, w, acts, BLANK);
    EveryDocumentCarries(mls, me, gid, w, acts);
    StartsWritten(gid, w);
    RunKeeps(mls, me, w.world.group, gid, w, acts);
    hide DoAll, EnterAll, AllSound, Starting, Kept, StepsOf, Newer, Shows, Accounted;
    WalkIsChain(end.store, gid, end.chain, MAX_HOPS);
    StepOnChain(gid, end, b, steps, localEpoch, e);
  }

  /** The states the writer's Commits made lie on the line, each at its place among the Commits of the gap. */
  ghost predicate Follows(b: Ledger, kind: Record -> Kind, gap: seq<Record>, base: nat, line: Lineage, e: nat) {
    e in b.made && OnLine(b.made[e].state, line) && e == base + CommitsUpTo(kind, gap, b.made[e].cursor)
  }

  /**
   * The chain's part in the catch-up theorem, derived from the writer's run: what
   * is left to ask is that the line passes through the states its Commits made,
   * and of the steps at third parties' epochs.
   */
  lemma ChainIsSnapshots(
    mls: Mls, me: Pubkey, gid: nat, w: Writer, acts: seq<Act>, steps: seq<ChainStep>,
    kind: Record -> Kind, gap: seq<Record>, base: nat, line: Lineage)
    requires NeverGoesBack(mls) && EpochNamesContext(mls) && Starting(w) && AllSound(mls, me, gid, w, acts)
    requires var end, b := DoAll(mls, me, gid, w, acts), EnterAll(mls, me, gid, w, acts, BLANK);
             && StepsOf(steps, Newer(Walk(end.store, TipOf(end.chain), MAX_HOPS), gid, base))
             && (forall s | s in steps && s.epoch in b.made :: Shows(end.chain, b, s.epoch) && Follows(b, kind, gap, base, line, s.epoch))
             && (forall r | r in gap && kind(r).OwnLeafCommit? ::
                   exists e | e in b.made :: e > base && b.made[e].cursor == r.cursor && Shows(end.chain, b, e))
             && (forall s | s in Usable(steps) && s.epoch !in b.made ::
                   OnLine(s.state.value, line) && s.state.value.epoch == base + CommitsUpTo(kind, gap, s.cursor))
    ensures Snapshots(kind, gap, base, line, steps)
  {
    var end, b := DoAll(mls, me, gid, w, acts), EnterAll(mls, me, gid, w, acts, BLANK);
    var links := Newer(Walk(end.store, TipOf(end.chain), MAX_HOPS), gid, base);
    hide DoAll, EnterAll, AllSound, Starting, Shows, OnLine, CommitsUpTo, Walk;
    UsableAreSteps(steps);
    forall s | s in Usable(steps)
      ensures OnLine(s.state.value, line) && s.state.value.epoch == base + CommitsUpTo(kind, gap, s.cursor)
    {
      if s.epoch in b.made {
        StepsHold(steps, links, s);
        CatchUpFindsCommits(mls, me, gid, w, acts, steps, base, s.epoch);
        assert Follows(b, kind, gap, base, line, s.epoch);
      }
    }
    forall r | r in gap && kind(r).OwnLeafCommit?
      ensures exists s | s in steps :: s.cursor == r.cursor
    {
      var e :| e in b.made && e > base && b.made[e].cursor == r.cursor && Shows(end.chain, b, e);
      CatchUpFindsCommits(mls, me, gid, w, acts, steps, base, e);
    }
  }

  lemma {:induction false} UsableAreSteps(steps: seq<ChainStep>)
    ensures forall s | s in Usable(steps) :: s in steps && s.state.Some?
  {
    if steps != [] {
      UsableAreSteps(steps[1..]);
    }
  }
}
