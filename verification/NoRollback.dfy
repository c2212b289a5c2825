/** No rollback: over whole runs of a tracked group neither its epoch nor its cursors fall, call by call. */
module NoRollback {
  import opened Base
  import opened Mls
  import opened GroupSync
  import opened Documents
  import opened Forks
  import opened ClientRuns
  import opened ChainCatchUp

  // ---------------------------------------------------------------------
  // No rollback
  // ---------------------------------------------------------------------

  /** Everything that changes a tracked group, each call taken as one atomic step. */
  datatype Move =
    | Receive(records: seq<Record>, budget: nat)
    | SendOwn(next: ClientState, stored: Option<Message>)
    | OwnCommit(next: ClientState, cursor: nat, wire: Wire, fetched: Option<seq<Record>>)
    | Document(me: Pubkey, entry: Document, address: Address, access: Option<Store>, latest: Option<seq<Record>>)
    | Welcome(joined: ClientState, after: nat, backlog: seq<Record>, finalizers: nat)
    | Chained(steps: seq<ChainStep>, gap: seq<Record>, settled: nat -> nat)

  ghost function MakeMove(mls: Mls, g: Group, m: Move): Group {
    match m
    case Receive(records, budget) => Settle(ReceiveAll(mls, g, records), budget).0
    case SendOwn(next, stored) =>
      var moved := g.(state := next);
      if stored.None? then moved
      else moved.(messages := g.messages + [stored.value], lastCursor := Max(g.lastCursor, stored.value.cursor))
    case OwnCommit(next, cursor, wire, fetched) => AdoptOwnCommit(mls, g, next, cursor, wire, fetched)
    case Document(me, entry, address, access, latest) =>
      if !entry.GroupDocument? then g
      else ApplyDocument(mls, me, Some(g), entry, address, access, latest).group.value
    case Welcome(joined, after, backlog, budget) => AcceptWelcome(mls, g, joined, after, backlog, budget)
    case Chained(steps, gap, settled) => CatchUpFromChain(mls, settled, g, steps, gap).group
  }

  /** Some log position lies past step `i` and not past the next one, so that its state can be reinstated. */
  predicate CanBeEntered(steps: seq<ChainStep>, i: nat) {
    1 <= i <= |Usable(steps)| && (i == |steps| || steps[i - 1].cursor < steps[i].cursor)
  }

  /** The steps that can be entered are no older than the local epoch, as a walk down to that epoch leaves them. */
  ghost predicate NoneOlder(steps: seq<ChainStep>, epoch: nat) {
    forall i: nat | CanBeEntered(steps, i) :: Usable(steps)[i - 1].state.value.epoch >= epoch
  }

  /** Own sends stay in their epoch, own Commits leave it upwards, and a chain was walked down to the local epoch. */
  ghost predicate Plausible(g: Group, m: Move) {
    && (m.SendOwn? || m.OwnCommit? ==> m.next.epoch >= g.state.epoch)
    && (m.Chained? ==> NoneOlder(m.steps, g.state.epoch))
  }

  ghost predicate Ordered(g: Group) { g.fetchCursor <= g.lastCursor }

  ghost predicate Advances(g: Group, h: Group) {
    g.state.epoch <= h.state.epoch && g.lastCursor <= h.lastCursor
  }

  lemma KeepsAnyCursor(mls: Mls, g: Group, r: Record)
    requires NeverGoesBack(mls)
    ensures var s := ReceiveOne(mls, g, r); Advances(g, s.group) && (Ordered(g) ==> Ordered(s.group))
  {
    match FindPosted(g.pending, r.wire) {
      case Some(c) => IngestOneKeeps(mls, g, r.cursor, r.at, c);
      case None =>
        match mls.open(g.state, r.wire) {
          case Some(o) => IngestOneKeeps(mls, g, r.cursor, r.at, o);
          case None =>
        }
    }
    hide IngestOne;
  }

  lemma {:induction false} BatchAdvances(mls: Mls, g: Group, records: seq<Record>)
    requires NeverGoesBack(mls)
    ensures var b := ReceiveAll(mls, g, records); Advances(g, b.group) && (Ordered(g) ==> Ordered(b.group))
    decreases records
  {
    if records != [] {
      KeepsAnyCursor(mls, g, records[0]);
      hide ReceiveOne;
      BatchAdvances(mls, ReceiveOne(mls, g, records[0]).group, records[1..]);
    }
  }

  lemma SettleAdvances(b: Batch, budget: nat)
    ensures var g := Settle(b, budget).0;
            g.state == b.group.state && g.lastCursor == b.group.lastCursor && g.fetchCursor == b.group.fetchCursor
  {
  }

  /** A replay along a chain none of whose steps is older than the local state ends no lower than it began. */
  lemma {:induction false} CatchUpAdvances(
    mls: Mls, budget: nat -> nat, start: Group, g: Group, steps: seq<ChainStep>, gap: seq<Record>, i: nat)
    requires NeverGoesBack(mls) && i <= |Usable(steps)| + 1
    requires NoneOlder(steps, start.state.epoch) && Advances(start, g)
    ensures var after := CatchUpFrom(mls, budget, start, g, steps, gap, i).group;
            Advances(start, after) && (Ordered(g) ==> Ordered(after))
    decreases |Usable(steps)| + 1 - i
  {
    hide ReceiveAll, Settle, RangeAt, NoneOlder;
    if i <= |Usable(steps)| {
      var range := RangeAt(start.fetchCursor, steps, gap, i);
      if range == [] {
        CatchUpAdvances(mls, budget, start, g, steps, gap, i + 1);
      } else {
        var h := g.(state := StateFor(start, steps, i));
        StepIsNotOlder(start, steps, gap, i);
        BatchAdvances(mls, h, range);
        var first := ReceiveAll(mls, h, range);
        SettleAdvances(first, budget(i));
        if Settle(first, budget(i)).1 {
          CatchUpAdvances(mls, budget, start, Settle(first, budget(i)).0, steps, gap, i + 1);
        }
      }
    }
  }

  lemma StepIsNotOlder(start: Group, steps: seq<ChainStep>, gap: seq<Record>, i: nat)
    requires NoneOlder(steps, start.state.epoch) && i <= |Usable(steps)| && RangeAt(start.fetchCursor, steps, gap, i) != []
    ensures StateFor(start, steps, i).epoch >= start.state.epoch
  {
    if i > 0 {
      var lo, hi := Boundary(start.fetchCursor, steps, i).value, Boundary(start.fetchCursor, steps, i + 1);
      var r := Range(gap, lo, hi)[0];
      FilterIn(gap, (x: Record) => Within(x, lo, hi), r);
      assert CanBeEntered(steps, i);
    }
  }

  /** The steps a walk collects are newer than the epoch it was walked down to. */
  lemma WalkedStepsAreNewer(steps: seq<ChainStep>, store: Store, tip: Address, gid: nat, localEpoch: nat)
    requires StepsOf(steps, Newer(Walk(store, tip, MAX_HOPS), gid, localEpoch))
    ensures NoneOlder(steps, localEpoch)
  {
    hide Walk;
    var links := Newer(Walk(store, tip, MAX_HOPS), gid, localEpoch);
    UsableIn(steps);
    var byEpoch :| LowestPerEpoch(byEpoch, links) && |steps| == |byEpoch| && Holds(steps, map[], byEpoch);
    forall i: nat | CanBeEntered(steps, i)
      ensures Usable(steps)[i - 1].state.value.epoch >= localEpoch
    {
      var s := Usable(steps)[i - 1];
      assert s in Usable(steps);
      var e :| e in byEpoch && byEpoch[e] == s;
      var l :| l in links && Decodes(l) && EpochOf(l) == e && byEpoch[e] == ChainStep(e, l.doc.state, l.doc.cursor, l.address);
      assert EpochOf(l) > localEpoch;
    }
  }

  lemma {:induction false} UsableIn(steps: seq<ChainStep>)
    ensures forall s | s in Usable(steps) :: s in steps && s.state.Some?
  {
    if steps != [] {
      UsableIn(steps[1..]);
    }
  }

  lemma AdoptAdvances(g: Group, theirs: ClientState, address: Address, cursor: nat)
    requires theirs.epoch >= g.state.epoch
    ensures Advances(g, Adopt(g, theirs, address, cursor)) && (Ordered(g) ==> Ordered(Adopt(g, theirs, address, cursor)))
  {
    hide Note;
  }

  lemma DocumentAdvances(
    mls: Mls, me: Pubkey, g: Group, entry: Document, address: Address, access: Option<Store>, fetched: Option<seq<Record>>)
    requires entry.GroupDocument?
    ensures var r := ApplyDocument(mls, me, Some(g), entry, address, access, fetched);
            r.group.Some? && Advances(g, r.group.value) && (Ordered(g) ==> Ordered(r.group.value))
  {
    hide Rule, Walk, Meet, Note, Adopt;
    if entry.state.Some? && entry.state.value.epoch >= g.state.epoch {
      var noted := NoteGroup(g);
      var theirs := entry.state.value;
      AdoptAdvances(noted, theirs, address, entry.cursor);
      forall forkEpoch: nat
        ensures var ruling := Rule(mls, me, noted, theirs, forkEpoch, entry, address, access, fetched);
                var adopted := Adopt(Resolve(noted, theirs, forkEpoch, ruling), theirs, address, entry.cursor);
                Advances(g, adopted) && (Ordered(g) ==> Ordered(adopted))
      {
        var ruling := Rule(mls, me, noted, theirs, forkEpoch, entry, address, access, fetched);
        AdoptAdvances(Resolve(noted, theirs, forkEpoch, ruling), theirs, address, entry.cursor);
      }
    }
  }

  lemma MoveAdvances(mls: Mls, g: Group, m: Move)
    requires NeverGoesBack(mls) && Plausible(g, m)
    ensures Advances(g, MakeMove(mls, g, m)) && (Ordered(g) ==> Ordered(MakeMove(mls, g, m)))
  {
    hide ReceiveAll, ApplyDocument, RaceLost, Note;
    match m {
      case Receive(records, budget) =>
        BatchAdvances(mls, g, records);
      case SendOwn(_, _) =>
      case OwnCommit(_, _, _, _) =>
      case Document(me, entry, address, access, latest) =>
        if entry.GroupDocument? {
          DocumentAdvances(mls, me, g, entry, address, access, latest);
        }
      case Welcome(joined, after, backlog, budget) =>
        BatchAdvances(mls, Renewed(g, joined, after), backlog);
      case Chained(steps, gap, settled) =>
        hide CatchUpFrom;
        if steps != [] {
          CatchUpAdvances(mls, settled, g, g, steps, gap, 0);
        }
    }
  }

  /**
   * Accepting a Welcome for a group already held: one that is not newer changes
   * nothing. A newer one without a backlog leaves exactly its state, an empty
   * queue, the history as it was, and both cursors no lower than where it was
   * joined; the group is removed only if that state is. A backlog is ingested from there.
   */
  lemma WelcomeRenews(mls: Mls, g: Group, joined: ClientState, after: nat, backlog: seq<Record>, budget: nat)
    ensures var h := AcceptWelcome(mls, g, joined, after, backlog, budget);
            && (joined.epoch <= g.state.epoch ==> h == g)
            && (joined.epoch > g.state.epoch && (backlog == [] || joined.removed) ==>
                  && h.state == joined && h.pending == [] && h.messages == g.messages && h.issues == g.issues
                  && h.removed == joined.removed && h.removedAt.None?
                  && h.fetchCursor == Max(g.fetchCursor, after) && h.lastCursor == Max(g.lastCursor, after))
            && (joined.epoch > g.state.epoch && !joined.removed ==>
                  exists renewed: Group ::
                    && renewed == AcceptWelcome(mls, g, joined, after, [], budget)
                    && h == Settle(ReceiveAll(mls, renewed, backlog), budget).0)
  {
    var renewed := Renewed(g, joined, after);
    assert ReceiveAll(mls, renewed, []) == Batch(renewed, [], true);
    assert Settle(Batch(renewed, [], true), budget).0 == renewed;
    if joined.epoch > g.state.epoch && !joined.removed {
      assert AcceptWelcome(mls, g, joined, after, [], budget) == renewed;
      assert AcceptWelcome(mls, g, joined, after, backlog, budget) == Settle(ReceiveAll(mls, renewed, backlog), budget).0;
    }
    hide ReceiveOne;
  }

  ghost function MakeMoves(mls: Mls, g: Group, moves: seq<Move>): Group
    decreases moves
  {
    if moves == [] then g else MakeMoves(mls, MakeMove(mls, g, moves[0]), moves[1..])
  }

  ghost predicate AllPlausible(mls: Mls, g: Group, moves: seq<Move>)
    decreases moves
  {
    moves == [] || (Plausible(g, moves[0]) && AllPlausible(mls, MakeMove(mls, g, moves[0]), moves[1..]))
  }

  /**
   * No sequence of ingestion, own posts, document application - stale, replayed
   * or forked -, chained catch-up and Welcome acceptance lowers a tracked group's
   * epoch or its last cursor, and the fetch frontier never overtakes the last
   * cursor. Each call is one step; `ReplayFallsIff` looks inside a catch-up.
   */
  lemma {:induction false} NeverRollsBack(mls: Mls, g: Group, moves: seq<Move>)
    requires NeverGoesBack(mls) && Ordered(g) && AllPlausible(mls, g, moves)
    ensures Advances(g, MakeMoves(mls, g, moves)) && Ordered(MakeMoves(mls, g, moves))
    decreases moves
  {
    hide MakeMove;
    if moves != [] {
      MoveAdvances(mls, g, moves[0]);
      NeverRollsBack(mls, MakeMove(mls, g, moves[0]), moves[1..]);
    }
  }

  // ---------------------------------------------------------------------
  // Which chains are safe
  // ---------------------------------------------------------------------

  /** Whatever the log holds and whatever opens, a replay along this chain does not lower the group's epoch. */
  ghost predicate Safe(g: Group, steps: seq<ChainStep>) {
    forall mls: Mls, budget: nat -> nat, gap: seq<Record> | NeverGoesBack(mls) ::
      CatchUpFromChain(mls, budget, g, steps, gap).group.state.epoch >= g.state.epoch
  }

  /** A chain is safe if and only if none of its steps that can be entered is older than the local epoch. */
  lemma SafeIffNoneOlder(g: Group, steps: seq<ChainStep>)
    requires SortedByCursor(steps) && g.pending == []
    ensures Safe(g, steps) <==> NoneOlder(steps, g.state.epoch)
  {
    if NoneOlder(steps, g.state.epoch) {
      forall mls: Mls, budget: nat -> nat, gap: seq<Record> | NeverGoesBack(mls)
        ensures CatchUpFromChain(mls, budget, g, steps, gap).group.state.epoch >= g.state.epoch
      {
        if steps != [] {
          CatchUpAdvances(mls, budget, g, g, steps, gap, 0);
        }
      }
    } else {
      var i: nat :| CanBeEntered(steps, i) && Usable(steps)[i - 1].state.value.epoch < g.state.epoch;
      OlderStepLowers(g, steps, i);
    }
    hide CatchUpFromChain, NoneOlder;
  }

  /** One unreadable entry past an older step is enough to bring that step's epoch back. */
  lemma OlderStepLowers(g: Group, steps: seq<ChainStep>, i: nat)
    requires SortedByCursor(steps) && g.pending == []
    requires CanBeEntered(steps, i) && Usable(steps)[i - 1].state.value.epoch < g.state.epoch
    ensures !Safe(g, steps)
  {
    hide CatchUpFrom, RangeAt, SortedByCursor, Usable, Safe;
    var deaf := Mls((s, w) => None, (s, o) => Fatal);
    var r := Record(steps[i - 1].cursor + 1, 0, 0);
    OnlyOneRange(g.fetchCursor, steps, r, i);
    DeafReplay(deaf, g, g, steps, r, i, 0);
    NotSafe(deaf, (k: nat) => 0, g, steps, [r]);
  }

  lemma NotSafe(mls: Mls, budget: nat -> nat, g: Group, steps: seq<ChainStep>, gap: seq<Record>)
    requires NeverGoesBack(mls) && CatchUpFromChain(mls, budget, g, steps, gap).group.state.epoch < g.state.epoch
    ensures !Safe(g, steps)
  {
    hide CatchUpFromChain, NeverGoesBack;
  }

  /** A record just past a step that can be entered is replayed in that step's range alone. */
  lemma OnlyOneRange(local: nat, steps: seq<ChainStep>, r: Record, i: nat)
    requires SortedByCursor(steps) && CanBeEntered(steps, i) && r.cursor == steps[i - 1].cursor + 1
    ensures forall j: nat | j <= |Usable(steps)| :: RangeAt(local, steps, [r], j) == if j == i then [r] else []
  {
    forall j: nat | j <= |Usable(steps)|
      ensures RangeAt(local, steps, [r], j) == if j == i then [r] else []
    {
      var lo, hi := Boundary(local, steps, j).value, Boundary(local, steps, j + 1);
      RangeCons(r, [], lo, hi);
      assert [r] + [] == [r] && Range([], lo, hi) == [];
      if j < i {
        assert steps[j].cursor <= steps[i - 1].cursor;
      } else if j > i {
        assert steps[i].cursor <= steps[j - 1].cursor;
      }
    }
  }

  lemma {:induction false} DeafReplay(mls: Mls, start: Group, g: Group, steps: seq<ChainStep>, r: Record, i: nat, from: nat)
    requires g.pending == [] && from <= |Usable(steps)| + 1 && 1 <= i <= |Usable(steps)|
    requires forall s, w :: mls.open(s, w) == None
    requires forall j: nat | j <= |Usable(steps)| :: RangeAt(start.fetchCursor, steps, [r], j) == if j == i then [r] else []
    requires from > i ==> g.state == Usable(steps)[i - 1].state.value
    ensures CatchUpFrom(mls, (k: nat) => 0, start, g, steps, [r], from).group.state == Usable(steps)[i - 1].state.value
    decreases |Usable(steps)| + 1 - from
  {
    hide RangeAt, Usable;
    if from <= |Usable(steps)| {
      if from == i {
        var h := g.(state := StateFor(start, steps, i));
        UnreadableStays(mls, h, r);
        hide ReceiveAll, Settle;
        DeafReplay(mls, start, Settle(ReceiveAll(mls, h, [r]), 0).0, steps, r, i, from + 1);
      } else {
        DeafReplay(mls, start, g, steps, r, i, from + 1);
      }
    }
  }

  // ---------------------------------------------------------------------
  // Inside a chained catch-up
  // ---------------------------------------------------------------------

  /** No non-empty range is entered with a step's state that is older than the group has become. */
  ghost predicate NoStepBehind(
    mls: Mls, budget: nat -> nat, start: Group, g: Group, steps: seq<ChainStep>, gap: seq<Record>, i: nat)
    requires i <= |Usable(steps)| + 1
    decreases |Usable(steps)| + 1 - i
  {
    i <= |Usable(steps)| ==>
      var range := RangeAt(start.fetchCursor, steps, gap, i);
      if range == [] then NoStepBehind(mls, budget, start, g, steps, gap, i + 1)
      else
        var (settled, ok) := Settle(ReceiveAll(mls, g.(state := StateFor(start, steps, i)), range), budget(i));
        && StateFor(start, steps, i).epoch >= g.state.epoch
        && (ok ==> NoStepBehind(mls, budget, start, settled, steps, gap, i + 1))
  }

  /** The group's epochs along the replay: when a range is entered, and when it is done. */
  ghost function EpochsAlong(
    mls: Mls, budget: nat -> nat, start: Group, g: Group, steps: seq<ChainStep>, gap: seq<Record>, i: nat): seq<nat>
    requires i <= |Usable(steps)| + 1
    decreases |Usable(steps)| + 1 - i
  {
    if i == |Usable(steps)| + 1 then []
    else
      var range := RangeAt(start.fetchCursor, steps, gap, i);
      if range == [] then EpochsAlong(mls, budget, start, g, steps, gap, i + 1)
      else
        var (settled, ok) := Settle(ReceiveAll(mls, g.(state := StateFor(start, steps, i)), range), budget(i));
        [StateFor(start, steps, i).epoch, settled.state.epoch]
        + if ok then EpochsAlong(mls, budget, start, settled, steps, gap, i + 1) else []
  }

  ghost predicate Rising(epoch: nat, later: seq<nat>)
    decreases later
  {
    later == [] || (epoch <= later[0] && Rising(later[0], later[1..]))
  }

  /**
   * The group's epoch never falls during a replay if and only if no range has
   * taken the group beyond the step whose state the next one reinstates.
   */
  lemma {:induction false} ReplayFallsIff(
    mls: Mls, budget: nat -> nat, start: Group, g: Group, steps: seq<ChainStep>, gap: seq<Record>, i: nat)
    requires NeverGoesBack(mls) && i <= |Usable(steps)| + 1
    ensures Rising(g.state.epoch, EpochsAlong(mls, budget, start, g, steps, gap, i))
            <==> NoStepBehind(mls, budget, start, g, steps, gap, i)
    decreases |Usable(steps)| + 1 - i
  {
    if i <= |Usable(steps)| {
      var range := RangeAt(start.fetchCursor, steps, gap, i);
      if range == [] {
        ReplayFallsIff(mls, budget, start, g, steps, gap, i + 1);
      } else {
        var h := g.(state := StateFor(start, steps, i));
        var first := ReceiveAll(mls, h, range);
        var (settled, ok) := Settle(first, budget(i));
        BatchAdvances(mls, h, range);
        SettleAdvances(first, budget(i));
        if ok {
          ReplayFallsIff(mls, budget, start, settled, steps, gap, i + 1);
        }
        hide ReceiveAll, Settle, RangeAt, Usable;
        var rest := if ok then EpochsAlong(mls, budget, start, settled, steps, gap, i + 1) else [];
        TwoThenRest(g.state.epoch, h.state.epoch, settled.state.epoch, rest);
      }
    }
  }

  // ---------------------------------------------------------------------
  // The same, counted from the gap
  // ---------------------------------------------------------------------

  /**
   * A chart of the replay, one kind and one line per range: the range's starting
   * state lies on its line, the records of the given kind move a state of that
   * line on by one epoch each, and the others leave it where it is.
   */
  ghost predicate Charted(
    mls: Mls, kinds: nat -> (Record -> Kind), lines: nat -> Lineage, start: Group, g: Group, steps: seq<ChainStep>, gap: seq<Record>)
  {
    forall i: nat | i <= |Usable(steps)| && RangeAt(start.fetchCursor, steps, gap, i) != [] ::
      ChartedRange(mls, kinds(i), lines(i), StateFor(start, steps, i), g, RangeAt(start.fetchCursor, steps, gap, i))
  }

  ghost predicate ChartedRange(mls: Mls, kind: Record -> Kind, line: Lineage, s: ClientState, g: Group, range: seq<Record>) {
    && OnLine(s, line) && Steady(mls, kind, range, s.epoch, line) && KnowsItsOwn(mls, kind, range, s.epoch, line, g)
    && forall r | r in range :: !kind(r).OwnLeafCommit?
  }

  /**
   * Each step whose state starts a range is no older than the step before it is
   * plus the Commits of the range in between. Nothing is opened or processed to
   * find that out.
   */
  predicate StepsKeepUp(
    kinds: nat -> (Record -> Kind), start: Group, steps: seq<ChainStep>, gap: seq<Record>, i: nat, reached: nat)
    requires i <= |Usable(steps)| + 1
    decreases |Usable(steps)| + 1 - i
  {
    i <= |Usable(steps)| ==>
      var range, epoch := RangeAt(start.fetchCursor, steps, gap, i), StateFor(start, steps, i).epoch;
      if range == [] then StepsKeepUp(kinds, start, steps, gap, i + 1, reached)
      else epoch >= reached && StepsKeepUp(kinds, start, steps, gap, i + 1, epoch + Lifts(kinds(i), range))
  }

  /** A range that is ingested to its end leads to the epoch counted. */
  lemma RangeReaches(mls: Mls, kind: Record -> Kind, line: Lineage, h: Group, range: seq<Record>)
    requires NeverGoesBack(mls) && Ascending(range) && forall r | r in range :: r.cursor > 0
    requires ChartedRange(mls, kind, line, h.state, h, range)
    ensures ReceiveAll(mls, h, range).completed ==>
              ReceiveAll(mls, h, range).group.state.epoch == h.state.epoch + Lifts(kind, range)
  {
    NoCommitAtZero(kind, range);
    FilterAll(range, (r: Record) => Within(r, 0, None));
    RangeTriedRightly(mls, kind, range, h.state.epoch, line, h, 0, None);
  }

  lemma {:induction false} BatchAddsNoOwn(mls: Mls, g: Group, records: seq<Record>)
    requires NeverGoesBack(mls)
    ensures NothingNewOwn(ReceiveAll(mls, g, records).group, g)
    decreases records
  {
    if records != [] {
      var step := ReceiveOne(mls, g, records[0]);
      ReceivingAddsNoOwn(mls, g, records[0]);
      BatchAddsNoOwn(mls, step.group, records[1..]);
      hide ReceiveOne, OutboundAt;
    }
  }

  lemma ChartStays(
    mls: Mls, kinds: nat -> (Record -> Kind), lines: nat -> Lineage, start: Group, g: Group, h: Group,
    steps: seq<ChainStep>, gap: seq<Record>)
    requires Charted(mls, kinds, lines, start, g, steps, gap) && NothingNewOwn(h, g)
    ensures Charted(mls, kinds, lines, start, h, steps, gap)
  {
    hide KnowsItsOwn, NothingNewOwn, RangeAt, StateFor, Usable, Steady, OnLine;
    forall i: nat | i <= |Usable(steps)| && RangeAt(start.fetchCursor, steps, gap, i) != []
      ensures ChartedRange(mls, kinds(i), lines(i), StateFor(start, steps, i), h, RangeAt(start.fetchCursor, steps, gap, i))
    {
      var range, s := RangeAt(start.fetchCursor, steps, gap, i), StateFor(start, steps, i);
      assert ChartedRange(mls, kinds(i), lines(i), s, g, range);
      StillKnowsItsOwn(mls, kinds(i), range, s.epoch, lines(i), g, h);
    }
  }

  lemma {:induction false} FilterAscends(gap: seq<Record>, keep: Record -> bool)
    requires Ascending(gap)
    ensures Ascending(Filter(gap, keep))
  {
    if gap != [] {
      FilterAscends(gap[1..], keep);
      forall r | r in Filter(gap[1..], keep)
        ensures r.cursor > gap[0].cursor
      {
        FilterIn(gap[1..], keep, r);
      }
    }
  }

  /** One range of the chart, entered by a group with the same own records. */
  lemma ChartedRangeReaches(
    mls: Mls, kinds: nat -> (Record -> Kind), lines: nat -> Lineage, budget: nat,
    start: Group, g: Group, steps: seq<ChainStep>, gap: seq<Record>, i: nat)
    requires NeverGoesBack(mls) && Ascending(gap) && Charted(mls, kinds, lines, start, g, steps, gap)
    requires i <= |Usable(steps)| && RangeAt(start.fetchCursor, steps, gap, i) != []
    ensures var range, s := RangeAt(start.fetchCursor, steps, gap, i), StateFor(start, steps, i);
            var (settled, ok) := Settle(ReceiveAll(mls, g.(state := s), range), budget);
            && Charted(mls, kinds, lines, start, settled, steps, gap)
            && (ok ==> settled.state.epoch == s.epoch + Lifts(kinds(i), range))
  {
    var range, s := RangeAt(start.fetchCursor, steps, gap, i), StateFor(start, steps, i);
    var lo, hi := Boundary(start.fetchCursor, steps, i).value, Boundary(start.fetchCursor, steps, i + 1);
    var h := g.(state := s);
    FilterAscends(gap, (x: Record) => Within(x, lo, hi));
    forall r | r in range
      ensures r.cursor > 0
    {
      FilterIn(gap, (x: Record) => Within(x, lo, hi), r);
    }
    var b := ReceiveAll(mls, h, range);
    assert ChartedRange(mls, kinds(i), lines(i), s, g, range);
    hide Charted, RangeAt, StateFor, Usable, Steady, OnLine, ReceiveAll, Lifts, Ascending;
    SameOwn(mls, kinds(i), range, s.epoch, lines(i), g, h);
    hide KnowsItsOwn;
    RangeReaches(mls, kinds(i), lines(i), h, range);
    BatchAddsNoOwn(mls, h, range);
    SettlingAddsNoOwn(b, budget);
    SettleAdvances(b, budget);
    SettlesOnlyCompleted(b, budget);
    NoneNewTwice(Settle(b, budget).0, b.group, h, g);
    ChartStays(mls, kinds, lines, start, g, Settle(b, budget).0, steps, gap);
  }

  lemma NoneNewTwice(last: Group, mid: Group, h: Group, g: Group)
    requires NothingNewOwn(last, mid) && NothingNewOwn(mid, h) && h.pending == g.pending && h.messages == g.messages
    ensures NothingNewOwn(last, g)
  {
    hide OutboundAt;
  }

  /** On a chart the replay need not be run to see whether it falls. */
  lemma {:induction false} BehindIffCounted(
    mls: Mls, kinds: nat -> (Record -> Kind), lines: nat -> Lineage, budget: nat -> nat,
    start: Group, g: Group, steps: seq<ChainStep>, gap: seq<Record>, i: nat)
    requires NeverGoesBack(mls) && Ascending(gap) && i <= |Usable(steps)| + 1
    requires Charted(mls, kinds, lines, start, g, steps, gap)
    ensures StepsKeepUp(kinds, start, steps, gap, i, g.state.epoch) ==> NoStepBehind(mls, budget, start, g, steps, gap, i)
    ensures CatchUpFrom(mls, budget, start, g, steps, gap, i).completed ==>
              (NoStepBehind(mls, budget, start, g, steps, gap, i)
               <==> StepsKeepUp(kinds, start, steps, gap, i, g.state.epoch))
    decreases |Usable(steps)| + 1 - i
  {
    hide Charted, RangeAt, StateFor, Usable, ReceiveAll, Settle, Lifts, Ascending;
    if i <= |Usable(steps)| {
      var range := RangeAt(start.fetchCursor, steps, gap, i);
      if range == [] {
        BehindIffCounted(mls, kinds, lines, budget, start, g, steps, gap, i + 1);
      } else {
        ChartedRangeReaches(mls, kinds, lines, budget(i), start, g, steps, gap, i);
        var (settled, ok) := Settle(ReceiveAll(mls, g.(state := StateFor(start, steps, i)), range), budget(i));
        if ok {
          BehindIffCounted(mls, kinds, lines, budget, start, settled, steps, gap, i + 1);
        }
      }
    }
  }

  /**
   * A charted replay that runs to its end lowers the epoch on its way if and only
   * if some step is older than the step before it plus the Commits in between; one
   * whose steps keep up never does, wherever it ends.
   */
  lemma ReplayFallsIffCounted(
    mls: Mls, kinds: nat -> (Record -> Kind), lines: nat -> Lineage, budget: nat -> nat,
    g: Group, steps: seq<ChainStep>, gap: seq<Record>)
    requires NeverGoesBack(mls) && Ascending(gap) && Charted(mls, kinds, lines, g, g, steps, gap)
    ensures StepsKeepUp(kinds, g, steps, gap, 0, g.state.epoch) ==>
              Rising(g.state.epoch, EpochsAlong(mls, budget, g, g, steps, gap, 0))
    ensures CatchUpFrom(mls, budget, g, g, steps, gap, 0).completed ==>
              (Rising(g.state.epoch, EpochsAlong(mls, budget, g, g, steps, gap, 0))
               <==> StepsKeepUp(kinds, g, steps, gap, 0, g.state.epoch))
  {
    BehindIffCounted(mls, kinds, lines, budget, g, g, steps, gap, 0);
    ReplayFallsIff(mls, budget, g, g, steps, gap, 0);
    hide *;
  }

  /** Ranges lie between the counts of their boundaries. */
  lemma {:induction false} LiftsWithin(kind: Record -> Kind, gap: seq<Record>, lo: nat, hi: nat)
    requires lo <= hi
    ensures CommitsUpTo(kind, gap, lo) + Lifts(kind, Range(gap, lo, Some(hi))) <= CommitsUpTo(kind, gap, hi)
  {
    if gap != [] {
      LiftsWithin(kind, gap[1..], lo, hi);
      RangeCons(gap[0], gap[1..], lo, Some(hi));
      assert [gap[0]] + gap[1..] == gap;
      var rest := Range(gap[1..], lo, Some(hi));
      assert Within(gap[0], lo, Some(hi)) ==> ([gap[0]] + rest)[1..] == rest && Range(gap, lo, Some(hi)) == [gap[0]] + rest;
      assert !Within(gap[0], lo, Some(hi)) ==> Range(gap, lo, Some(hi)) == rest;
    }
  }

  lemma RangeBelow(gap: seq<Record>, lo: nat, hi: nat)
    requires hi < lo
    ensures Range(gap, lo, Some(hi)) == []
  {
    FilterNone(gap, (r: Record) => Within(r, lo, Some(hi)));
  }

  /** The count at the end of a range covers what the range adds to the count at its start. */
  lemma CountsRise(kind: Record -> Kind, local: nat, steps: seq<ChainStep>, gap: seq<Record>, i: nat)
    requires SortedByCursor(steps) && i < |steps| && CommitsUpTo(kind, gap, local) == 0
    ensures CommitsUpTo(kind, gap, Boundary(local, steps, i).value) + Lifts(kind, RangeAt(local, steps, gap, i))
         <= CommitsUpTo(kind, gap, Boundary(local, steps, i + 1).value)
  {
    var lo, hi := Boundary(local, steps, i).value, Boundary(local, steps, i + 1).value;
    if lo <= hi {
      LiftsWithin(kind, gap, lo, hi);
    } else {
      RangeBelow(gap, lo, hi);
      assert i == 0;
    }
  }

  /** Along snapshots of the group's own line no step is ever behind: it takes a step of another branch to fall. */
  lemma {:induction false} OwnLineNeverFalls(
    mls: Mls, kind: Record -> Kind, budget: nat -> nat, line: Lineage,
    start: Group, g: Group, steps: seq<ChainStep>, gap: seq<Record>, i: nat)
    requires NeverGoesBack(mls) && Ascending(gap) && SortedByCursor(steps) && OnLine(start.state, line)
    requires Steady(mls, kind, gap, start.state.epoch, line) && Snapshots(kind, gap, start.state.epoch, line, steps)
    requires i <= |Usable(steps)| + 1
    requires CommitsUpTo(kind, gap, start.fetchCursor) == 0 && KnowsItsOwn(mls, kind, gap, start.state.epoch, line, g)
    requires i <= |Usable(steps)| ==>
               g.state.epoch <= start.state.epoch + CommitsUpTo(kind, gap, Boundary(start.fetchCursor, steps, i).value)
    ensures NoStepBehind(mls, budget, start, g, steps, gap, i)
    decreases |Usable(steps)| + 1 - i
  {
    hide Steady, Snapshots, ReceiveAll, Settle, OnLine, KnowsItsOwn, Usable, RangeAt, SortedByCursor, Ascending,
         StateFor, CommitsUpTo, Lifts, TriedIn, SealedIn, NeverGoesBack;
    if i <= |Usable(steps)| {
      var range := RangeAt(start.fetchCursor, steps, gap, i);
      if i < |Usable(steps)| {
        CountsRise(kind, start.fetchCursor, steps, gap, i);
      }
      if range == [] {
        OwnLineNeverFalls(mls, kind, budget, line, start, g, steps, gap, i + 1);
      } else {
        LineRange(mls, kind, budget(i), line, start, g, steps, gap, i);
        var (settled, ok) := Settle(ReceiveAll(mls, g.(state := StateFor(start, steps, i)), range), budget(i));
        if ok {
          OwnLineNeverFalls(mls, kind, budget, line, start, settled, steps, gap, i + 1);
        }
      }
    }
  }

  lemma TwoThenRest(e: nat, a: nat, b: nat, rest: seq<nat>)
    ensures Rising(e, [a, b] + rest) <==> e <= a <= b && Rising(b, rest)
  {
    assert ([a, b] + rest)[1..] == [b] + rest && ([b] + rest)[1..] == rest;
  }

  /**
   * An input on which it falls: local epoch `e`, third parties' Commits at 15 and
   * 25, and a step of epoch `e + 1` - a sibling's losing branch - at 30. The first
   * range takes the group to `e + 2`; the next entry reinstates `e + 1`.
   */
  lemma StepBehindFalls(
    mls: Mls, budget: nat -> nat, g: Group, step: ChainStep, x: Record, y: Record, z: Record,
    o: Opaque, p: Opaque, t: ClientState, v: ClientState)
    requires g.pending == [] && g.messages == [] && g.fetchCursor == 10
    requires x.cursor == 15 && y.cursor == 25 && z.cursor == 35 && step.cursor == 30
    requires step.state.Some? && step.state.value.epoch == g.state.epoch + 1
    requires mls.open(g.state, x.wire) == Some(o) && mls.process(g.state, o) == NewState(t)
    requires mls.open(t, y.wire) == Some(p) && mls.process(t, p) == NewState(v)
    requires t.epoch == g.state.epoch + 1 && v.epoch == g.state.epoch + 2
    requires !t.removed && t.ownLeaf.Some? && !v.removed && v.ownLeaf.Some? && mls.open(step.state.value, z.wire) == None
    ensures EpochsAlong(mls, budget, g, g, [step], [x, y, z], 0)
         == [g.state.epoch, g.state.epoch + 2, g.state.epoch + 1, g.state.epoch + 1]
    ensures CatchUpFromChain(mls, budget, g, [step], [x, y, z]).group.state.epoch == g.state.epoch + 1
    ensures !NoStepBehind(mls, budget, g, g, [step], [x, y, z], 0)
  {
    var steps, gap := [step], [x, y, z];
    assert Usable(steps) == steps by {
      assert Usable(steps[1..]) == [];
    }
    TwoRanges(x, y, z);
    assert RangeAt(10, steps, gap, 0) == [x, y] && RangeAt(10, steps, gap, 1) == [z];
    var h := TwoCommits(mls, g, x, y, o, p, t, v);
    assert g.(state := StateFor(g, steps, 0)) == g && StateFor(g, steps, 1) == step.state.value;
    var k := h.(state := step.state.value);
    UnreadableStays(mls, k, z);
    assert |Usable(steps)| + 1 == 2;
    hide ReceiveAll, Settle, Range, RangeAt, Usable, StateFor;
    var last := Settle(ReceiveAll(mls, k, [z]), budget(1)).0;
    Entered(mls, budget, g, g, steps, gap, 0);
    Entered(mls, budget, g, h, steps, gap, 1);
    Ended(mls, budget, g, last, steps, gap);
    assert [g.state.epoch, v.epoch] + ([step.state.value.epoch, last.state.epoch] + [])
        == [g.state.epoch, v.epoch, step.state.value.epoch, last.state.epoch];
  }

  lemma Entered(
    mls: Mls, budget: nat -> nat, start: Group, g: Group, steps: seq<ChainStep>, gap: seq<Record>, i: nat)
    requires i <= |Usable(steps)| && RangeAt(start.fetchCursor, steps, gap, i) != []
    requires Settle(ReceiveAll(mls, g.(state := StateFor(start, steps, i)), RangeAt(start.fetchCursor, steps, gap, i)), budget(i)).1
    ensures var settled := Settle(ReceiveAll(mls, g.(state := StateFor(start, steps, i)), RangeAt(start.fetchCursor, steps, gap, i)), budget(i)).0;
            && EpochsAlong(mls, budget, start, g, steps, gap, i)
               == [StateFor(start, steps, i).epoch, settled.state.epoch] + EpochsAlong(mls, budget, start, settled, steps, gap, i + 1)
            && CatchUpFrom(mls, budget, start, g, steps, gap, i).group == CatchUpFrom(mls, budget, start, settled, steps, gap, i + 1).group
            && (NoStepBehind(mls, budget, start, g, steps, gap, i)
                <==> StateFor(start, steps, i).epoch >= g.state.epoch && NoStepBehind(mls, budget, start, settled, steps, gap, i + 1))
  {
    hide ReceiveAll, Settle, RangeAt, Usable, StateFor;
  }

  lemma Ended(mls: Mls, budget: nat -> nat, start: Group, g: Group, steps: seq<ChainStep>, gap: seq<Record>)
    ensures EpochsAlong(mls, budget, start, g, steps, gap, |Usable(steps)| + 1) == []
    ensures CatchUpFrom(mls, budget, start, g, steps, gap, |Usable(steps)| + 1).group == g
    ensures NoStepBehind(mls, budget, start, g, steps, gap, |Usable(steps)| + 1)
  {
  }

  lemma RangeCons(head: Record, tail: seq<Record>, lo: nat, hi: Option<nat>)
    ensures Range([head] + tail, lo, hi) == (if Within(head, lo, hi) then [head] else []) + Range(tail, lo, hi)
  {
    assert ([head] + tail)[1..] == tail;
  }

  lemma TwoRanges(x: Record, y: Record, z: Record)
    requires x.cursor == 15 && y.cursor == 25 && z.cursor == 35
    ensures Range([x, y, z], 10, Some(30)) == [x, y] && Range([x, y, z], 30, None) == [z]
  {
    assert [x, y, z] == [x] + ([y] + ([z] + []));
    assert Range([], 10, Some(30)) == [] && Range([], 30, None) == [];
    RangeCons(z, [], 10, Some(30));
    RangeCons(y, [z] + [], 10, Some(30));
    RangeCons(x, [y] + ([z] + []), 10, Some(30));
    RangeCons(z, [], 30, None);
    RangeCons(y, [z] + [], 30, None);
    RangeCons(x, [y] + ([z] + []), 30, None);
    hide Range;
  }

  lemma TwoCommits(mls: Mls, g: Group, x: Record, y: Record, o: Opaque, p: Opaque, t: ClientState, v: ClientState) returns (h: Group)
    requires g.pending == [] && g.messages == []
    requires mls.open(g.state, x.wire) == Some(o) && mls.process(g.state, o) == NewState(t)
    requires mls.open(t, y.wire) == Some(p) && mls.process(t, p) == NewState(v)
    requires !t.removed && t.ownLeaf.Some? && !v.removed && v.ownLeaf.Some?
    ensures h.state == v && h.pending == [] && h.messages == []
    ensures forall budget: nat :: Settle(ReceiveAll(mls, g, [x, y]), budget) == (h, true)
  {
    var one := ReceiveOne(mls, g, x);
    assert one.did == Some(StateChange(None)) && one.group.state == t && one.group.pending == [] && one.group.messages == [];
    var two := ReceiveOne(mls, one.group, y);
    assert two.did == Some(StateChange(None)) && two.group.state == v && two.group.pending == [];
    assert [x, y][1..] == [y] && [y][1..] == [];
    assert ReceiveAll(mls, two.group, []) == Batch(two.group, [], true);
    assert ReceiveAll(mls, one.group, [y]) == Batch(two.group, [Handled(y.cursor, StateChange(None))], true);
    h := two.group;
  }

  lemma UnreadableStays(mls: Mls, g: Group, z: Record)
    requires g.pending == [] && mls.open(g.state, z.wire) == None
    ensures forall budget: nat ::
              var (h, ok) := Settle(ReceiveAll(mls, g, [z]), budget); ok && h.state == g.state && h.pending == []
  {
    var one := ReceiveOne(mls, g, z);
    assert [z][1..] == [] && ReceiveAll(mls, one.group, []) == Batch(one.group, [], true);
    assert ReceiveAll(mls, g, [z]) == Batch(one.group, [Handled(z.cursor, Unreadable)], true);
  }
}
