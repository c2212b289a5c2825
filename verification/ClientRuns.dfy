/**
 * Whole runs of one client against a growing log: what is handled and how often.
 */
module ClientRuns {
  import opened Base
  import opened Mls
  import opened GroupSync
  import opened Documents
  import opened Forks

  // ---------------------------------------------------------------------
  // Runs against the coordinator's log
  // ---------------------------------------------------------------------

  /** The coordinator's log of the group, the client's group, and what the client did with each entry it passed. */
  datatype World = World(log: seq<Record>, group: Group, trace: seq<Handled>)

  /** A post is stored and answered, stored while the answer is lost, or never stored. */
  datatype Post = Stored | StoredUnanswered | NotStored

  /** A watched group is fed by its stream and skips the catch-up fetch; otherwise that fetch succeeds or fails. */
  datatype Line = Watching | Reachable | Unreachable

  /** A record someone else posts. */
  datatype Arrival = Arrival(at: nat, wire: Wire)

  /**
   * `budget` finalizers of own Commits succeed before one fails. The stream of a
   * watched group hands over the next `count` entries. What others post between
   * an operation's catch-up and its own post is `meanwhile`.
   */
  datatype Op =
    | OtherPosts(at: nat, wire: Wire)
    | Sync(line: Line, budget: nat)
    | Stream(count: nat, budget: nat)
    | Send(line: Line, budget: nat, meanwhile: seq<Arrival>,
           at: nat, wire: Wire, id: nat, next: ClientState, post: Post)
    | Commit(line: Line, budget: nat, meanwhile: seq<Arrival>,
             at: nat, wire: Wire, commit: Opaque, next: ClientState, post: Post, raceVisible: bool)

  function Append(log: seq<Record>, at: nat, wire: Wire): seq<Record> {
    log + [Record(|log| + 1, at, wire)]
  }

  function Landed(log: seq<Record>, arrivals: seq<Arrival>): seq<Record>
    decreases arrivals
  {
    if arrivals == [] then log else Landed(Append(log, arrivals[0].at, arrivals[0].wire), arrivals[1..])
  }

  /** Everything past a cursor; the coordinator numbers a group's records 1, 2, 3, ... */
  function FetchAfter(log: seq<Record>, cursor: nat): seq<Record> {
    if cursor <= |log| then log[cursor..] else []
  }

  predicate Active(g: Group) { !g.removed && !g.state.removed }

  /** Ingest fetched records and settle own Commits; false when an entry or a finalizer threw. */
  function TakeIn(mls: Mls, w: World, records: seq<Record>, budget: nat): (World, bool) {
    var batch := ReceiveAll(mls, w.group, records);
    var (settled, ok) := Settle(batch, budget);
    (World(w.log, settled, w.trace + batch.handled), ok)
  }

  function MarkRemoved(w: World): World { w.(group := w.group.(removed := true)) }

  /** Fetch past the local cursor and ingest, if the group is active and not watched; false when the operation ends here. */
  function CatchUp(mls: Mls, w: World, line: Line, budget: nat): (World, bool) {
    if !Active(w.group) then (MarkRemoved(w), false)
    else
      match line
      case Unreachable => (w, false)
      case Watching => (w, true)
      case Reachable =>
        var (next, ok) := TakeIn(mls, w, FetchAfter(w.log, w.group.fetchCursor), budget);
        if !ok then (next, false)
        else if !Active(next.group) then (MarkRemoved(next), false)
        else (next, true)
  }

  /** What the stream of a watched group hands over next. */
  function Streamed(log: seq<Record>, cursor: nat, count: nat): seq<Record> {
    var due := FetchAfter(log, cursor);
    due[..if count <= |due| then count else |due|]
  }

  function SendTail(me: Pubkey, w: World, op: Op): World
    requires op.Send?
  {
    var sent := w.(group := w.group.(state := op.next));
    match op.post
    case NotStored => sent
    case StoredUnanswered => sent.(log := Append(w.log, op.at, op.wire))
    case Stored =>
      var cursor := |w.log| + 1;
      var stored := Message(cursor, op.at, true, me, op.id);
      World(Append(w.log, op.at, op.wire),
            sent.group.(messages := w.group.messages + [stored], lastCursor := Max(w.group.lastCursor, cursor)),
            w.trace)
  }

  ghost function CommitTail(mls: Mls, w: World, op: Op): World
    requires op.Commit?
  {
    var queued := w.group.(pending := w.group.pending + [PendingCommit(op.commit, None, false, false)]);
    match op.post
    case NotStored => w.(group := queued)
    case StoredUnanswered => World(Append(w.log, op.at, op.wire), queued, w.trace)
    case Stored =>
      var log := Append(w.log, op.at, op.wire);
      var fetched := if op.raceVisible then Some(FetchAfter(log, w.group.fetchCursor)) else None;
      var adopted := AdoptOwnCommit(mls, queued, op.next, |w.log| + 1, op.wire, fetched);
      World(log, adopted.(pending := w.group.pending + [PendingCommit(op.commit, Some(op.wire), true, false)]), w.trace)
  }

  /** One operation, run to its end in the group's lane. */
  ghost function Perform(mls: Mls, me: Pubkey, w: World, op: Op): World {
    match op
    case OtherPosts(at, wire) => w.(log := Append(w.log, at, wire))
    case Sync(line, budget) => if line.Watching? then w else CatchUp(mls, w, line, budget).0
    case Stream(count, budget) =>
      if !Active(w.group) then MarkRemoved(w)
      else TakeIn(mls, w, Streamed(w.log, w.group.fetchCursor, count), budget).0
    case Send(line, budget, meanwhile, _, _, _, _, _) =>
      var (caught, go) := CatchUp(mls, w, line, budget);
      if go then SendTail(me, caught.(log := Landed(caught.log, meanwhile)), op) else caught
    case Commit(line, budget, meanwhile, _, _, _, _, _, _) =>
      var (caught, go) := CatchUp(mls, w, line, budget);
      if go then CommitTail(mls, caught.(log := Landed(caught.log, meanwhile)), op) else caught
  }

  ghost function PerformAll(mls: Mls, me: Pubkey, w: World, ops: seq<Op>): World
    decreases ops
  {
    if ops == [] then w else PerformAll(mls, me, Perform(mls, me, w, ops[0]), ops[1..])
  }

  // ---------------------------------------------------------------------
  // Handled exactly once
  // ---------------------------------------------------------------------

  ghost predicate Dense(log: seq<Record>) { forall i :: 0 <= i < |log| ==> log[i].cursor == i + 1 }

  /** Each passed cursor has one entry of the trace, in order and without a gap. */
  ghost predicate Consecutive(trace: seq<Handled>, start: nat) {
    forall i :: 0 <= i < |trace| ==> trace[i].cursor == start + 1 + i
  }

  ghost predicate DistinctCursors(messages: seq<Message>) {
    forall i, j :: 0 <= i < j < |messages| ==> messages[i].cursor != messages[j].cursor
  }

  function Inbound(messages: seq<Message>): seq<Message> {
    if messages == [] then []
    else (if messages[0].outbound then [] else [messages[0]]) + Inbound(messages[1..])
  }

  lemma {:induction false} InboundAppend(a: seq<Message>, b: seq<Message>)
    ensures Inbound(a + b) == Inbound(a) + Inbound(b)
  {
    if a == [] {
      assert a + b == b;
    } else {
      assert (a + b)[0] == a[0] && (a + b)[1..] == a[1..] + b;
      InboundAppend(a[1..], b);
      var head := if a[0].outbound then [] else [a[0]];
      assert head + (Inbound(a[1..]) + Inbound(b)) == (head + Inbound(a[1..])) + Inbound(b);
    }
  }

  lemma {:induction false} ReceivedAppend(a: seq<Handled>, b: seq<Handled>)
    ensures ReceivedOf(a + b) == ReceivedOf(a) + ReceivedOf(b)
  {
    if a == [] {
      assert a + b == b;
    } else {
      assert (a + b)[0] == a[0] && (a + b)[1..] == a[1..] + b;
      ReceivedAppend(a[1..], b);
      var head := if a[0].did.StoredInbound? then [a[0].did.message] else [];
      assert head + (ReceivedOf(a[1..]) + ReceivedOf(b)) == (head + ReceivedOf(a[1..])) + ReceivedOf(b);
    }
  }

  /** The history a client holds: one message per cursor, none past the log, inbound ones only up to the frontier. */
  ghost predicate History(g: Group, end: nat) {
    && DistinctCursors(g.messages)
    && (forall m | m in g.messages :: m.cursor <= end)
    && (forall m | m in g.messages && !m.outbound :: m.cursor <= g.fetchCursor)
    && g.fetchCursor <= g.lastCursor <= end
  }

  lemma PassingKeepsHistory(g: Group, s: Step, cursor: nat, end: nat)
    requires History(g, end) && Keeps(g, s, cursor) && s.did.Some? && g.fetchCursor < cursor <= end
    ensures History(s.group, end)
    ensures Inbound(s.group.messages) == Inbound(g.messages) + ReceivedOf([Handled(cursor, s.did.value)])
    ensures s.group.fetchCursor == cursor
    ensures s.group.state.epoch >= g.state.epoch && s.group.lastCursor >= g.lastCursor
  {
    if s.did.value.StoredInbound? {
      var m := s.did.value.message;
      InboundAppend(g.messages, [m]);
      forall x | x in g.messages
        ensures x.cursor != cursor
      {
        assert x.outbound && x.cursor == cursor ==> OutboundAt(g.messages, cursor);
      }
    }
  }

  ghost predicate Contiguous(records: seq<Record>, after: nat) {
    forall i :: 0 <= i < |records| ==> records[i].cursor == after + 1 + i
  }

  /** What a batch that started from `g` has done when it stops at `b`. */
  ghost predicate HandledOnce(g: Group, b: Batch, count: nat, end: nat) {
    && History(b.group, end)
    && Consecutive(b.handled, g.fetchCursor)
    && b.group.fetchCursor == g.fetchCursor + |b.handled|
    && (b.completed <==> |b.handled| == count)
    && Inbound(b.group.messages) == Inbound(g.messages) + ReceivedOf(b.handled)
    && b.group.state.epoch >= g.state.epoch
    && b.group.lastCursor >= g.lastCursor
  }

  lemma ThrownStep(g: Group, s: Step, cursor: nat, count: nat, end: nat)
    requires History(g, end) && Keeps(g, s, cursor) && s.did.None? && count > 0
    ensures HandledOnce(g, Batch(s.group, [], false), count, end)
  {
  }

  lemma BatchCons(g: Group, s: Step, cursor: nat, rest: Batch, count: nat, end: nat)
    requires History(g, end) && Keeps(g, s, cursor) && s.did.Some? && cursor == g.fetchCursor + 1 <= end
    requires HandledOnce(s.group, rest, count, end)
    ensures HandledOnce(g, Batch(rest.group, [Handled(cursor, s.did.value)] + rest.handled, rest.completed), count + 1, end)
  {
    PassingKeepsHistory(g, s, cursor, end);
    hide History, Keeps;
    ReceivedAppend([Handled(cursor, s.did.value)], rest.handled);
  }

  /** A batch handles an initial part of what was fetched, each entry once; all of it unless ingestion threw. */
  lemma {:induction false} BatchHandlesOnce(mls: Mls, g: Group, records: seq<Record>, end: nat)
    requires NeverGoesBack(mls) && History(g, end)
    requires Contiguous(records, g.fetchCursor) && g.fetchCursor + |records| <= end
    ensures HandledOnce(g, ReceiveAll(mls, g, records), |records|, end)
    decreases records
  {
    if records == [] {
      assert ReceiveAll(mls, g, records) == Batch(g, [], true);
    } else {
      var step := ReceiveOne(mls, g, records[0]);
      ReceiveOneKeeps(mls, g, records[0]);
      hide ReceiveOne, Keeps, HandledOnce;
      if step.did.None? {
        ThrownStep(g, step, records[0].cursor, |records|, end);
      } else {
        PassingKeepsHistory(g, step, records[0].cursor, end);
        hide History;
        BatchHandlesOnce(mls, step.group, records[1..], end);
        BatchCons(g, step, records[0].cursor, ReceiveAll(mls, step.group, records[1..]), |records| - 1, end);
      }
    }
  }

  /** Every reachable state: the trace is the passed interval, and the history is what the trace stored. */
  ghost predicate Accounted(start: Group, w: World) {
    && Dense(w.log)
    && History(w.group, |w.log|)
    && start.fetchCursor <= w.group.fetchCursor
    && |w.trace| == w.group.fetchCursor - start.fetchCursor
    && Consecutive(w.trace, start.fetchCursor)
    && Inbound(w.group.messages) == Inbound(start.messages) + ReceivedOf(w.trace)
  }

  lemma ConsecutiveAppend(a: seq<Handled>, b: seq<Handled>, start: nat)
    requires Consecutive(a, start) && Consecutive(b, start + |a|)
    ensures Consecutive(a + b, start)
  {
  }

  lemma ExtendTrace(start: Group, w: World, b: Batch, count: nat, pending: seq<PendingCommit>)
    requires Accounted(start, w) && HandledOnce(w.group, b, count, |w.log|)
    ensures Accounted(start, World(w.log, b.group.(pending := pending), w.trace + b.handled))
  {
    hide Inbound, ReceivedOf, DistinctCursors, Dense, Consecutive;
    ReceivedAppend(w.trace, b.handled);
    ConsecutiveAppend(w.trace, b.handled, start.fetchCursor);
    var before, first, second := Inbound(start.messages), ReceivedOf(w.trace), ReceivedOf(b.handled);
    assert before + (first + second) == (before + first) + second;
  }

  /** What the account does not speak of may change, and the log may grow. */
  lemma SameHistory(start: Group, w: World, next: World)
    requires Accounted(start, w) && next.trace == w.trace && |w.log| <= |next.log| && Dense(next.log)
    requires next.group.messages == w.group.messages && next.group.fetchCursor == w.group.fetchCursor
    requires next.group.lastCursor == w.group.lastCursor
    ensures Accounted(start, next)
  {
    hide Inbound, ReceivedOf, DistinctCursors, Dense, Consecutive;
  }

  lemma TakeInAccounts(mls: Mls, start: Group, w: World, records: seq<Record>, budget: nat)
    requires NeverGoesBack(mls) && Accounted(start, w)
    requires Contiguous(records, w.group.fetchCursor) && w.group.fetchCursor + |records| <= |w.log|
    ensures Accounted(start, TakeIn(mls, w, records, budget).0)
  {
    BatchHandlesOnce(mls, w.group, records, |w.log|);
    var batch := ReceiveAll(mls, w.group, records);
    hide ReceiveAll, Accounted, HandledOnce;
    var settled := Settle(batch, budget).0;
    ExtendTrace(start, w, batch, |records|, settled.pending);
    assert settled == batch.group.(pending := settled.pending);
  }

  lemma FetchIsContiguous(log: seq<Record>, cursor: nat, count: nat)
    requires Dense(log) && cursor <= |log|
    ensures Contiguous(FetchAfter(log, cursor), cursor) && cursor + |FetchAfter(log, cursor)| == |log|
    ensures Contiguous(Streamed(log, cursor, count), cursor) && cursor + |Streamed(log, cursor, count)| <= |log|
  {
  }

  lemma CatchUpAccounts(mls: Mls, start: Group, w: World, line: Line, budget: nat)
    requires NeverGoesBack(mls) && Accounted(start, w)
    ensures Accounted(start, CatchUp(mls, w, line, budget).0)
    ensures CatchUp(mls, w, line, budget).0.log == w.log
  {
    FetchIsContiguous(w.log, w.group.fetchCursor, 0);
    if Active(w.group) && line.Reachable? {
      TakeInAccounts(mls, start, w, FetchAfter(w.log, w.group.fetchCursor), budget);
    }
    hide ReceiveAll, Settle;
  }

  lemma {:induction false} LandedAccounts(start: Group, w: World, arrivals: seq<Arrival>)
    requires Accounted(start, w)
    ensures Accounted(start, w.(log := Landed(w.log, arrivals))) && |Landed(w.log, arrivals)| == |w.log| + |arrivals|
    decreases arrivals
  {
    hide Accounted;
    if arrivals == [] {
      assert w.(log := Landed(w.log, arrivals)) == w;
    } else {
      OtherPostAccounts(start, w, arrivals[0].at, arrivals[0].wire);
      LandedAccounts(start, w.(log := Append(w.log, arrivals[0].at, arrivals[0].wire)), arrivals[1..]);
    }
  }

  lemma AppendIsDense(log: seq<Record>, at: nat, wire: Wire)
    requires Dense(log)
    ensures Dense(Append(log, at, wire)) && |Append(log, at, wire)| == |log| + 1
  {
  }

  lemma SendAccounts(me: Pubkey, start: Group, w: World, op: Op)
    requires Accounted(start, w) && op.Send?
    ensures Accounted(start, SendTail(me, w, op))
  {
    hide Append, Inbound, ReceivedOf, DistinctCursors, Consecutive, Dense;
    AppendIsDense(w.log, op.at, op.wire);
    if op.post.Stored? {
      OwnJoins(start, w, op.next, Message(|w.log| + 1, op.at, true, me, op.id), op.at, op.wire);
    } else {
      hide History;
      SameHistory(start, w, SendTail(me, w, op));
    }
  }

  /** An own message at the cursor after the log joins the history and is no inbound one. */
  lemma OwnJoins(start: Group, w: World, next: ClientState, own: Message, at: nat, wire: Wire)
    requires Accounted(start, w) && own.outbound && own.cursor == |w.log| + 1
    ensures var g := w.group.(state := next, messages := w.group.messages + [own],
                              lastCursor := Max(w.group.lastCursor, own.cursor));
            Accounted(start, World(Append(w.log, at, wire), g, w.trace))
  {
    InboundAppend(w.group.messages, [own]);
    assert Inbound([own]) == [] by {
      assert [own][1..] == [];
    }
    AppendIsDense(w.log, at, wire);
    hide Inbound, ReceivedOf, Consecutive, Dense, Append;
    assert Inbound(w.group.messages) + [] == Inbound(w.group.messages);
  }

  /** What follows the catch-up of an own Commit leaves history, frontier and trace alone and queues the Commit. */
  lemma CommitTailKeeps(mls: Mls, w: World, op: Op)
    requires op.Commit?
    ensures var t := CommitTail(mls, w, op);
            && t.trace == w.trace && (t.log == w.log || t.log == Append(w.log, op.at, op.wire))
            && t.group.messages == w.group.messages
            && t.group.fetchCursor == w.group.fetchCursor && t.group.lastCursor == w.group.lastCursor
            && exists q: PendingCommit :: q.commit == op.commit && t.group.pending == w.group.pending + [q]
  {
    hide RaceLost, Note, Append;
    var q := PendingCommit(op.commit, if op.post.Stored? then Some(op.wire) else None, op.post.Stored?, false);
    assert CommitTail(mls, w, op).group.pending == w.group.pending + [q];
  }

  lemma CommitAccounts(mls: Mls, start: Group, w: World, op: Op)
    requires Accounted(start, w) && op.Commit?
    ensures Accounted(start, CommitTail(mls, w, op))
  {
    CommitTailKeeps(mls, w, op);
    AppendIsDense(w.log, op.at, op.wire);
    hide CommitTail, Append, Dense, History, Inbound, ReceivedOf, Consecutive;
    SameHistory(start, w, CommitTail(mls, w, op));
  }

  /**
   * Over any run of posts by others, own sends, own Commits and syncs, every
   * entry of the passed interval is handled exactly once and in log order, the
   * stored inbound history is exactly what those entries stored, and no two
   * stored messages share a cursor.
   */
  lemma {:induction false} HandledExactlyOnce(mls: Mls, me: Pubkey, start: Group, w: World, ops: seq<Op>)
    requires NeverGoesBack(mls) && Accounted(start, w)
    ensures Accounted(start, PerformAll(mls, me, w, ops))
    decreases ops
  {
    hide CatchUp, Accounted, CommitTail, SendTail;
    if ops != [] {
      OneOpAccounts(mls, me, start, w, ops[0]);
      HandledExactlyOnce(mls, me, start, Perform(mls, me, w, ops[0]), ops[1..]);
    }
  }

  lemma OneOpAccounts(mls: Mls, me: Pubkey, start: Group, w: World, op: Op)
    requires NeverGoesBack(mls) && Accounted(start, w)
    ensures Accounted(start, Perform(mls, me, w, op))
  {
    hide CatchUp, CommitTail, SendTail, TakeIn, Accounted, Landed, Streamed, Append;
    match op {
      case OtherPosts(at, wire) =>
        OtherPostAccounts(start, w, at, wire);
      case Sync(line, budget) =>
        CatchUpAccounts(mls, start, w, line, budget);
      case Stream(count, budget) =>
        StreamAccounts(mls, start, w, count, budget);
      case Send(line, budget, meanwhile, _, _, _, _, _) =>
        CatchUpAccounts(mls, start, w, line, budget);
        var caught := CatchUp(mls, w, line, budget).0;
        LandedAccounts(start, caught, meanwhile);
        SendAccounts(me, start, caught.(log := Landed(caught.log, meanwhile)), op);
      case Commit(line, budget, meanwhile, _, _, _, _, _, _) =>
        CatchUpAccounts(mls, start, w, line, budget);
        var caught := CatchUp(mls, w, line, budget).0;
        LandedAccounts(start, caught, meanwhile);
        CommitAccounts(mls, start, caught.(log := Landed(caught.log, meanwhile)), op);
    }
  }

  lemma StreamAccounts(mls: Mls, start: Group, w: World, count: nat, budget: nat)
    requires NeverGoesBack(mls) && Accounted(start, w)
    ensures Accounted(start, if !Active(w.group) then MarkRemoved(w)
                             else TakeIn(mls, w, Streamed(w.log, w.group.fetchCursor, count), budget).0)
  {
    hide TakeIn, Streamed, Inbound, ReceivedOf, Consecutive, DistinctCursors;
    FetchIsContiguous(w.log, w.group.fetchCursor, count);
    if Active(w.group) {
      TakeInAccounts(mls, start, w, Streamed(w.log, w.group.fetchCursor, count), budget);
    } else {
      SameHistory(start, w, MarkRemoved(w));
    }
  }

  lemma OtherPostAccounts(start: Group, w: World, at: nat, wire: Wire)
    requires Accounted(start, w)
    ensures Accounted(start, w.(log := Append(w.log, at, wire)))
  {
    AppendIsDense(w.log, at, wire);
    hide Append, Inbound, ReceivedOf, Consecutive, Dense, History;
    SameHistory(start, w, w.(log := Append(w.log, at, wire)));
  }

  // ---------------------------------------------------------------------
  // What the race probe of an own Commit reads
  // ---------------------------------------------------------------------

  /** The records that are not the own post. */
  function Others(records: seq<Record>, wire: Wire): seq<Record> {
    if records == [] then [] else (if records[0].wire != wire then [records[0]] else []) + Others(records[1..], wire)
  }

  lemma {:induction false} LandedEnds(log: seq<Record>, arrivals: seq<Arrival>)
    requires Dense(log)
    ensures Dense(Landed(log, arrivals)) && log <= Landed(log, arrivals)
    ensures |Landed(log, arrivals)| == |log| + |arrivals|
    ensures forall i :: 0 <= i < |arrivals| ==> Landed(log, arrivals)[|log| + i].wire == arrivals[i].wire
    decreases arrivals
  {
    if arrivals != [] {
      LandedEnds(Append(log, arrivals[0].at, arrivals[0].wire), arrivals[1..]);
    }
  }

  lemma {:induction false} EarlierThanOwn(records: seq<Record>, own: Record)
    requires forall r | r in records :: r.cursor < own.cursor
    ensures Earlier(records + [own], own.cursor, own.wire) == Others(records, own.wire)
  {
    if records == [] {
      assert records + [own] == [own] && Earlier([own][1..], own.cursor, own.wire) == [];
    } else {
      assert (records + [own])[0] == records[0] && (records + [own])[1..] == records[1..] + [own];
      EarlierThanOwn(records[1..], own);
    }
  }

  /**
   * Right after an own Commit the race probe reads everything unread that was
   * stored before it - what the catch-up left, and what landed since - and what
   * lands after it makes no difference.
   */
  lemma RaceReadsWhatLanded(log: seq<Record>, cursor: nat, meanwhile: seq<Arrival>, at: nat, wire: Wire)
    requires Dense(log) && cursor <= |log|
    ensures var landed := Landed(log, meanwhile);
            && Earlier(FetchAfter(Append(landed, at, wire), cursor), |landed| + 1, wire) == Others(FetchAfter(landed, cursor), wire)
            && forall i :: 0 <= i < |meanwhile| && meanwhile[i].wire != wire ==>
                 exists r | r in Others(FetchAfter(landed, cursor), wire) :: r.cursor == |log| + 1 + i && r.wire == meanwhile[i].wire
  {
    LandedEnds(log, meanwhile);
    var landed := Landed(log, meanwhile);
    var own := Record(|landed| + 1, at, wire);
    assert FetchAfter(Append(landed, at, wire), cursor) == FetchAfter(landed, cursor) + [own];
    EarlierThanOwn(FetchAfter(landed, cursor), own);
    forall i | 0 <= i < |meanwhile| && meanwhile[i].wire != wire
      ensures exists r | r in Others(FetchAfter(landed, cursor), wire) :: r.cursor == |log| + 1 + i && r.wire == meanwhile[i].wire
    {
      var r := landed[|log| + i];
      assert FetchAfter(landed, cursor)[|log| + i - cursor] == r;
      OthersIn(FetchAfter(landed, cursor), wire, r);
    }
  }

  lemma {:induction false} OthersIn(records: seq<Record>, wire: Wire, r: Record)
    ensures r in Others(records, wire) <==> r in records && r.wire != wire
  {
    if records != [] {
      OthersIn(records[1..], wire, r);
    }
  }

  lemma {:induction false} LaterPostsDoNotMatter(records: seq<Record>, more: seq<Record>, cursor: nat, wire: Wire)
    requires forall r | r in more :: r.cursor >= cursor
    ensures Earlier(records + more, cursor, wire) == Earlier(records, cursor, wire)
    decreases |records| + |more|
  {
    if records != [] {
      assert (records + more)[0] == records[0] && (records + more)[1..] == records[1..] + more;
      LaterPostsDoNotMatter(records[1..], more, cursor, wire);
    } else if more != [] {
      assert [] + more == more && [] + more[1..] == more[1..];
      LaterPostsDoNotMatter([], more[1..], cursor, wire);
    }
  }

  // ---------------------------------------------------------------------
  // A Commit whose echo arrives in a batch that throws
  // ---------------------------------------------------------------------

  /** The Commit `c`, posted as `wire`, is queued and not confirmed. */
  ghost predicate Waits(pending: seq<PendingCommit>, c: Opaque, wire: Wire) {
    && (exists p | p in pending :: p.commit == c)
    && forall p | p in pending && p.commit == c :: !p.confirmed && p.posted == Some(wire)
  }

  /** Nothing in these records is, or opens to, the Commit `c`. */
  ghost predicate NeverCarries(mls: Mls, records: seq<Record>, c: Opaque, wire: Wire) {
    forall r | r in records :: r.wire != wire && forall s :: mls.open(s, r.wire) != Some(c)
  }

  lemma {:induction false} PostedFindsOthers(pending: seq<PendingCommit>, c: Opaque, wire: Wire, other: Wire)
    requires other != wire && forall p | p in pending && p.commit == c :: p.posted == Some(wire)
    ensures FindPosted(pending, other) != Some(c)
  {
    if pending != [] {
      PostedFindsOthers(pending[1..], c, wire, other);
    }
  }

  lemma MarkAppliedWaits(g: Group, i: Option<nat>, c: Opaque, wire: Wire)
    requires Waits(g.pending, c, wire)
    ensures Waits(MarkApplied(g, i).pending, c, wire)
  {
    if i.Some? && i.value < |g.pending| {
      var after := MarkApplied(g, i).pending;
      var p :| p in g.pending && p.commit == c;
      var k :| 0 <= k < |g.pending| && g.pending[k] == p;
      assert after[k].commit == c;
    }
  }

  lemma IngestWaits(mls: Mls, g: Group, cursor: nat, at: nat, o: Opaque, c: Opaque, wire: Wire)
    requires Waits(g.pending, c, wire)
    ensures Waits(IngestOne(mls, g, cursor, at, o).group.pending, c, wire)
  {
    var p := FindPending(g.pending, o);
    MarkAppliedWaits(g, p, c, wire);
    hide Waits;
  }

  /** Only an entry that is this Commit can confirm or reject it. */
  lemma IngestSettlesOnlyItself(mls: Mls, g: Group, cursor: nat, at: nat, o: Opaque, c: Opaque)
    requires o != c && IngestOne(mls, g, cursor, at, o).did.Some?
    ensures var did := IngestOne(mls, g, cursor, at, o).did.value; c !in Confirms(did) && c !in Rejects(did)
  {
  }

  lemma OneRecordWaits(mls: Mls, g: Group, r: Record, c: Opaque, wire: Wire)
    requires Waits(g.pending, c, wire)
    ensures Waits(ReceiveOne(mls, g, r).group.pending, c, wire)
    ensures NeverCarries(mls, [r], c, wire) && ReceiveOne(mls, g, r).did.Some? ==>
              var did := ReceiveOne(mls, g, r).did.value; c !in Confirms(did) && c !in Rejects(did)
  {
    hide IngestOne;
    var o := match FindPosted(g.pending, r.wire)
      case Some(commit) => Some(commit)
      case None => mls.open(g.state, r.wire);
    if o.Some? {
      IngestWaits(mls, g, r.cursor, r.at, o.value, c, wire);
    }
    if NeverCarries(mls, [r], c, wire) {
      assert r in [r];
      PostedFindsOthers(g.pending, c, wire, r.wire);
      if o.Some? && IngestOne(mls, g, r.cursor, r.at, o.value).did.Some? {
        IngestSettlesOnlyItself(mls, g, r.cursor, r.at, o.value, c);
      }
    }
  }

  lemma {:induction false} BatchWaits(mls: Mls, g: Group, records: seq<Record>, c: Opaque, wire: Wire)
    requires Waits(g.pending, c, wire)
    ensures Waits(ReceiveAll(mls, g, records).group.pending, c, wire)
    ensures NeverCarries(mls, records, c, wire) ==>
              var b := ReceiveAll(mls, g, records); c !in AllConfirms(b.handled) && c !in AllRejects(b.handled)
    decreases records
  {
    if records != [] {
      OneRecordWaits(mls, g, records[0], c, wire);
      var step := ReceiveOne(mls, g, records[0]);
      hide ReceiveOne;
      if step.did.Some? {
        BatchWaits(mls, step.group, records[1..], c, wire);
      }
    }
  }

  lemma {:induction false} MarkWaits(pending: seq<PendingCommit>, confirms: set<Opaque>, c: Opaque, wire: Wire)
    requires forall p | p in pending && p.commit == c :: !p.confirmed && p.posted == Some(wire)
    ensures var m := MarkConfirmed(pending, confirms);
            && (c !in confirms ==> forall p | p in m && p.commit == c :: !p.confirmed && p.posted == Some(wire))
            && (c in confirms ==> forall p | p in m && p.commit == c :: p.confirmed)
            && ((exists p | p in m :: p.commit == c) <==> exists p | p in pending :: p.commit == c)
  {
    if pending != [] {
      MarkWaits(pending[1..], confirms, c, wire);
      var head, tail := MarkConfirmed(pending, confirms)[0], MarkConfirmed(pending[1..], confirms);
      assert forall p :: p in MarkConfirmed(pending, confirms) <==> p == head || p in tail;
      assert forall p :: p in pending <==> p == pending[0] || p in pending[1..];
    }
  }

  lemma {:induction false} FinalizeKeepsUnconfirmed(pending: seq<PendingCommit>, budget: nat, p: PendingCommit)
    ensures p in FinalizeConfirmed(pending, budget).0 ==> p in pending
    ensures p in pending && !p.confirmed ==> p in FinalizeConfirmed(pending, budget).0
  {
    if pending != [] {
      FinalizeKeepsUnconfirmed(pending[1..], if pending[0].confirmed && budget > 0 then budget - 1 else budget, p);
    }
  }

  lemma {:induction false} DropKeepsOthers(pending: seq<PendingCommit>, rejects: set<Opaque>, p: PendingCommit)
    ensures p in DropRejected(pending, rejects) <==> p in pending && p.commit !in rejects
  {
    if pending != [] {
      DropKeepsOthers(pending[1..], rejects, p);
    }
  }

  /**
   * A waiting Commit stops waiting at the end of a batch if and only if the
   * batch ran to its end and settled it: an echo handled in a batch that throws
   * further on is not enough.
   */
  lemma SettledExactlyWhenBatchCompletes(b: Batch, budget: nat, c: Opaque, wire: Wire)
    requires Waits(b.group.pending, c, wire)
    ensures Waits(Settle(b, budget).0.pending, c, wire) <==>
              !(b.completed && (c in AllConfirms(b.handled) || (c in AllRejects(b.handled) && Settle(b, budget).1)))
  {
    if b.completed {
      var marked := MarkConfirmed(b.group.pending, AllConfirms(b.handled));
      MarkWaits(b.group.pending, AllConfirms(b.handled), c, wire);
      var (left, ok) := FinalizeConfirmed(marked, budget);
      forall p: PendingCommit
        ensures p in left ==> p in marked
        ensures p in marked && !p.confirmed ==> p in left
        ensures p in DropRejected(left, AllRejects(b.handled)) <==> p in left && p.commit !in AllRejects(b.handled)
      {
        FinalizeKeepsUnconfirmed(marked, budget, p);
        DropKeepsOthers(left, AllRejects(b.handled), p);
      }
      if c !in AllConfirms(b.handled) {
        var p :| p in marked && p.commit == c;
        assert p in left;
        assert ok && c !in AllRejects(b.handled) ==> p in DropRejected(left, AllRejects(b.handled));
      } else {
        assert forall p | p in left && p.commit == c :: p.confirmed;
      }
    }
  }

  /**
   * The message at which ingestion throws: one whose processing is fatal, or an
   * application message, from a live state to a live one, whose sender or event
   * cannot be read or whose event names another author. An own Commit's echo and
   * an own outbound message never reach processing.
   */
  ghost predicate Offends(mls: Mls, g: Group, r: Record) {
    var posted := FindPosted(g.pending, r.wire);
    var o := if posted.Some? then posted else mls.open(g.state, r.wire);
    && o.Some?
    && !(exists i :: FindPending(g.pending, o.value) == Some(i) && i < |g.pending| && g.pending[i].applied)
    && !OutboundAt(g.messages, r.cursor)
    && (match mls.process(g.state, o.value)
        case Fatal => true
        case Application(next, sender, event) =>
          !next.removed && (sender.None? || event.None? || event.value.author != sender.value)
        case _ => false)
  }

  lemma ThrowsIffOffends(mls: Mls, g: Group, r: Record)
    ensures ReceiveOne(mls, g, r).did.None? <==> Offends(mls, g, r)
  {
    var posted := FindPosted(g.pending, r.wire);
    var o := if posted.Some? then posted else mls.open(g.state, r.wire);
    if o.Some? {
      var p := FindPending(g.pending, o.value);
      assert (exists i :: p == Some(i) && i < |g.pending| && g.pending[i].applied)
        <==> p.Some? && p.value < |g.pending| && g.pending[p.value].applied;
    }
  }

  /** The group as entry `i` of a batch meets it. */
  function GroupAt(mls: Mls, g: Group, records: seq<Record>, i: nat): Group
    requires i <= |records|
    decreases i
  {
    if i == 0 then g else GroupAt(mls, ReceiveOne(mls, g, records[0]).group, records[1..], i - 1)
  }

  /** A batch runs to its end if and only if no entry of it offends under the state it meets. */
  lemma {:induction false} CompletesIffNoneOffends(mls: Mls, g: Group, records: seq<Record>)
    ensures ReceiveAll(mls, g, records).completed
            <==> forall i :: 0 <= i < |records| ==> !Offends(mls, GroupAt(mls, g, records, i), records[i])
    decreases records
  {
    if records != [] {
      var next := ReceiveOne(mls, g, records[0]).group;
      ThrowsIffOffends(mls, g, records[0]);
      CompletesIffNoneOffends(mls, next, records[1..]);
      hide ReceiveOne, Offends;
      assert GroupAt(mls, g, records, 0) == g;
      forall i | 0 < i < |records|
        ensures GroupAt(mls, g, records, i) == GroupAt(mls, next, records[1..], i - 1) && records[i] == records[1..][i - 1]
      {
      }
      if !ReceiveAll(mls, next, records[1..]).completed {
        var j :| 0 <= j < |records| - 1 && Offends(mls, GroupAt(mls, next, records[1..], j), records[1..][j]);
        assert Offends(mls, GroupAt(mls, g, records, j + 1), records[j + 1]);
      }
      if exists i :: 0 < i < |records| && Offends(mls, GroupAt(mls, g, records, i), records[i]) {
        var i :| 0 < i < |records| && Offends(mls, GroupAt(mls, g, records, i), records[i]);
        assert Offends(mls, GroupAt(mls, next, records[1..], i - 1), records[1..][i - 1]);
      }
    }
  }

  /** A Commit whose echo a batch handles keeps waiting if and only if some other entry of the batch offends. */
  lemma EchoIsLostIffOneOffends(mls: Mls, g: Group, records: seq<Record>, budget: nat, c: Opaque, wire: Wire)
    requires Waits(ReceiveAll(mls, g, records).group.pending, c, wire) && c in AllConfirms(ReceiveAll(mls, g, records).handled)
    ensures Waits(Settle(ReceiveAll(mls, g, records), budget).0.pending, c, wire)
            <==> exists i :: 0 <= i < |records| && Offends(mls, GroupAt(mls, g, records, i), records[i])
  {
    SettledExactlyWhenBatchCompletes(ReceiveAll(mls, g, records), budget, c, wire);
    CompletesIffNoneOffends(mls, g, records);
  }

  /** The wires an operation may add to the log: its own, and those of others that land during it. */
  ghost predicate Brings(op: Op, wire: Wire) {
    match op
    case OtherPosts(_, posted) => posted == wire
    case Sync(_, _) => false
    case Stream(_, _) => false
    case Send(_, _, meanwhile, _, posted, _, _, _) => posted == wire || exists a | a in meanwhile :: a.wire == wire
    case Commit(_, _, meanwhile, _, posted, _, _, _, _) => posted == wire || exists a | a in meanwhile :: a.wire == wire
  }

  /** This wire neither is nor opens to the Commit `c`. */
  ghost predicate Foreign(mls: Mls, posted: Wire, c: Opaque, wire: Wire) {
    posted != wire && forall s :: mls.open(s, posted) != Some(c)
  }

  /** The rest of a run never brings the Commit back: not in the unread log, not in what is posted later. */
  ghost predicate NeverBrings(mls: Mls, ops: seq<Op>, c: Opaque, wire: Wire) {
    forall op | op in ops ::
      && (forall posted | Brings(op, posted) :: Foreign(mls, posted, c, wire))
      && (op.Commit? ==> op.commit != c)
  }

  ghost predicate Stranded(mls: Mls, w: World, c: Opaque, wire: Wire) {
    && Dense(w.log)
    && Waits(w.group.pending, c, wire)
    && NeverCarries(mls, FetchAfter(w.log, w.group.fetchCursor), c, wire)
  }

  lemma TakeInStrands(
    mls: Mls, start: Group, w: World, records: seq<Record>, budget: nat, c: Opaque, wire: Wire)
    requires NeverGoesBack(mls) && Accounted(start, w) && Stranded(mls, w, c, wire)
    requires Contiguous(records, w.group.fetchCursor) && w.group.fetchCursor + |records| <= |w.log|
    requires forall r | r in records :: r in FetchAfter(w.log, w.group.fetchCursor)
    ensures Stranded(mls, TakeIn(mls, w, records, budget).0, c, wire)
  {
    hide ReceiveAll, NeverCarries, Waits, FetchAfter, Settle, Dense;
    var due := FetchAfter(w.log, w.group.fetchCursor);
    var batch := ReceiveAll(mls, w.group, records);
    CarriesLess(mls, due, records, c, wire);
    BatchWaits(mls, w.group, records, c, wire);
    SettledExactlyWhenBatchCompletes(batch, budget, c, wire);
    BatchHandlesOnce(mls, w.group, records, |w.log|);
    FetchShrinks(w.log, w.group.fetchCursor, batch.group.fetchCursor);
    SettleKeepsFrontier(batch, budget);
    CarriesLess(mls, due, FetchAfter(w.log, batch.group.fetchCursor), c, wire);
  }

  lemma CatchUpStrands(mls: Mls, start: Group, w: World, line: Line, budget: nat, c: Opaque, wire: Wire)
    requires NeverGoesBack(mls) && Accounted(start, w) && Stranded(mls, w, c, wire)
    ensures Stranded(mls, CatchUp(mls, w, line, budget).0, c, wire)
  {
    FetchIsContiguous(w.log, w.group.fetchCursor, 0);
    if Active(w.group) && line.Reachable? {
      TakeInStrands(mls, start, w, FetchAfter(w.log, w.group.fetchCursor), budget, c, wire);
    }
    hide TakeIn, Waits, NeverCarries, Dense, FetchAfter;
  }

  lemma SettleKeepsFrontier(b: Batch, budget: nat)
    ensures Settle(b, budget).0.fetchCursor == b.group.fetchCursor
  {
  }

  lemma FetchShrinks(log: seq<Record>, a: nat, b: nat)
    requires a <= b
    ensures forall r | r in FetchAfter(log, b) :: r in FetchAfter(log, a)
  {
    if b <= |log| {
      assert log[a..][b - a..] == log[b..];
    }
  }

  lemma CarriesLess(mls: Mls, records: seq<Record>, fewer: seq<Record>, c: Opaque, wire: Wire)
    requires NeverCarries(mls, records, c, wire) && forall r | r in fewer :: r in records
    ensures NeverCarries(mls, fewer, c, wire)
  {
  }

  lemma AppendStrands(mls: Mls, log: seq<Record>, cursor: nat, at: nat, posted: Wire, c: Opaque, wire: Wire)
    requires NeverCarries(mls, FetchAfter(log, cursor), c, wire) && cursor <= |log| && Foreign(mls, posted, c, wire)
    ensures NeverCarries(mls, FetchAfter(Append(log, at, posted), cursor), c, wire)
  {
    assert FetchAfter(Append(log, at, posted), cursor) == FetchAfter(log, cursor) + [Record(|log| + 1, at, posted)];
  }

  lemma {:induction false} LandedStrands(mls: Mls, start: Group, w: World, arrivals: seq<Arrival>, c: Opaque, wire: Wire)
    requires Accounted(start, w) && Stranded(mls, w, c, wire)
    requires forall a | a in arrivals :: Foreign(mls, a.wire, c, wire)
    ensures Stranded(mls, w.(log := Landed(w.log, arrivals)), c, wire)
    decreases arrivals
  {
    hide Accounted, Stranded, Foreign;
    if arrivals == [] {
      assert w.(log := Landed(w.log, arrivals)) == w;
    } else {
      OtherPostStrands(mls, start, w, arrivals[0].at, arrivals[0].wire, c, wire);
      OtherPostAccounts(start, w, arrivals[0].at, arrivals[0].wire);
      LandedStrands(mls, start, w.(log := Append(w.log, arrivals[0].at, arrivals[0].wire)), arrivals[1..], c, wire);
    }
  }

  lemma OwnPostStrands(mls: Mls, me: Pubkey, start: Group, w: World, op: Op, c: Opaque, wire: Wire)
    requires Accounted(start, w) && Stranded(mls, w, c, wire) && NeverBrings(mls, [op], c, wire)
    ensures op.Send? ==> Stranded(mls, SendTail(me, w, op), c, wire)
    ensures op.Commit? ==> Stranded(mls, CommitTail(mls, w, op), c, wire)
  {
    hide CommitTail, NeverCarries, Waits, FetchAfter, Foreign, Inbound, ReceivedOf, Consecutive, DistinctCursors;
    assert op in [op];
    if op.Send? || op.Commit? {
      assert Brings(op, op.wire);
      AppendStrands(mls, w.log, w.group.fetchCursor, op.at, op.wire, c, wire);
    }
    if op.Commit? {
      CommitTailKeeps(mls, w, op);
      var q: PendingCommit :| q.commit == op.commit && CommitTail(mls, w, op).group.pending == w.group.pending + [q];
      OneMoreWaits(w.group.pending, q, c, wire);
    }
  }

  lemma OneMoreWaits(pending: seq<PendingCommit>, q: PendingCommit, c: Opaque, wire: Wire)
    requires Waits(pending, c, wire) && q.commit != c
    ensures Waits(pending + [q], c, wire)
  {
    var p :| p in pending && p.commit == c;
    assert p in pending + [q];
  }

  /**
   * Once the frontier has passed its echo without settling it, an own Commit
   * stays queued and unconfirmed in every continuation of the run in which no
   * new log entry carries that Commit: its Welcome is never sent.
   */
  lemma {:induction false} StrandedForever(
    mls: Mls, me: Pubkey, start: Group, w: World, ops: seq<Op>, c: Opaque, wire: Wire)
    requires NeverGoesBack(mls) && Accounted(start, w) && Stranded(mls, w, c, wire)
    requires NeverBrings(mls, ops, c, wire)
    ensures Stranded(mls, PerformAll(mls, me, w, ops), c, wire)
    decreases ops
  {
    if ops != [] {
      BringsSplit(mls, ops, c, wire);
      hide NeverBrings;
      OneOpAccounts(mls, me, start, w, ops[0]);
      OneOpStrands(mls, me, start, w, ops[0], c, wire);
      hide Accounted, Stranded, Perform, Foreign;
      StrandedForever(mls, me, start, Perform(mls, me, w, ops[0]), ops[1..], c, wire);
    }
  }

  lemma BringsSplit(mls: Mls, ops: seq<Op>, c: Opaque, wire: Wire)
    requires ops != [] && NeverBrings(mls, ops, c, wire)
    ensures NeverBrings(mls, [ops[0]], c, wire) && NeverBrings(mls, ops[1..], c, wire)
  {
    hide Foreign, Brings;
    assert forall op | op in [ops[0]] || op in ops[1..] :: op in ops;
    forall op, posted | (op in [ops[0]] || op in ops[1..]) && Brings(op, posted)
      ensures Foreign(mls, posted, c, wire)
    {
      assert op in ops;
    }
  }

  lemma StreamStrands(mls: Mls, start: Group, w: World, count: nat, budget: nat, c: Opaque, wire: Wire)
    requires NeverGoesBack(mls) && Accounted(start, w) && Stranded(mls, w, c, wire)
    ensures Stranded(mls, if !Active(w.group) then MarkRemoved(w)
                          else TakeIn(mls, w, Streamed(w.log, w.group.fetchCursor, count), budget).0, c, wire)
  {
    FetchIsContiguous(w.log, w.group.fetchCursor, count);
    if Active(w.group) {
      TakeInStrands(mls, start, w, Streamed(w.log, w.group.fetchCursor, count), budget, c, wire);
    }
    hide TakeIn, Waits, NeverCarries, Dense, FetchAfter;
  }

  lemma PostIsForeign(mls: Mls, op: Op, c: Opaque, wire: Wire)
    requires op.OtherPosts? && NeverBrings(mls, [op], c, wire)
    ensures Foreign(mls, op.wire, c, wire)
  {
    assert op in [op] && Brings(op, op.wire);
    hide Foreign;
  }

  lemma OneOpStrands(mls: Mls, me: Pubkey, start: Group, w: World, op: Op, c: Opaque, wire: Wire)
    requires NeverGoesBack(mls) && Accounted(start, w) && Stranded(mls, w, c, wire)
    requires NeverBrings(mls, [op], c, wire)
    ensures Stranded(mls, Perform(mls, me, w, op), c, wire)
  {
    hide CatchUp, CommitTail, SendTail, TakeIn, NeverCarries, Foreign, Stranded, Accounted, Streamed, Landed, Append,
         NeverBrings, Brings, NeverGoesBack;
    match op {
      case OtherPosts(at, posted) =>
        PostIsForeign(mls, op, c, wire);
        OtherPostStrands(mls, start, w, at, posted, c, wire);
      case Sync(line, budget) =>
        CatchUpStrands(mls, start, w, line, budget, c, wire);
      case Stream(count, budget) =>
        StreamStrands(mls, start, w, count, budget, c, wire);
      case Send(line, budget, meanwhile, _, _, _, _, _) =>
        PostAfterCatchUpStrands(mls, me, start, w, op, line, budget, meanwhile, c, wire);
      case Commit(line, budget, meanwhile, _, _, _, _, _, _) =>
        PostAfterCatchUpStrands(mls, me, start, w, op, line, budget, meanwhile, c, wire);
    }
    hide Stranded, Landed;
  }

  lemma PostAfterCatchUpStrands(
    mls: Mls, me: Pubkey, start: Group, w: World, op: Op, line: Line, budget: nat, meanwhile: seq<Arrival>, c: Opaque, wire: Wire)
    requires NeverGoesBack(mls) && Accounted(start, w) && Stranded(mls, w, c, wire) && NeverBrings(mls, [op], c, wire)
    requires (op.Send? || op.Commit?) && op.meanwhile == meanwhile
    ensures var caught := CatchUp(mls, w, line, budget).0;
            var landed := caught.(log := Landed(caught.log, meanwhile));
            && Stranded(mls, caught, c, wire)
            && (op.Send? ==> Stranded(mls, SendTail(me, landed, op), c, wire))
            && (op.Commit? ==> Stranded(mls, CommitTail(mls, landed, op), c, wire))
  {
    assert op in [op];
    forall a | a in meanwhile
      ensures Foreign(mls, a.wire, c, wire)
    {
      assert Brings(op, a.wire);
    }
    hide Accounted, Stranded, NeverBrings, Foreign;
    var caught := CatchUp(mls, w, line, budget).0;
    CatchUpStrands(mls, start, w, line, budget, c, wire);
    CatchUpAccounts(mls, start, w, line, budget);
    LandedStrands(mls, start, caught, meanwhile, c, wire);
    LandedAccounts(start, caught, meanwhile);
    OwnPostStrands(mls, me, start, caught.(log := Landed(caught.log, meanwhile)), op, c, wire);
  }

  lemma OtherPostStrands(mls: Mls, start: Group, w: World, at: nat, posted: Wire, c: Opaque, wire: Wire)
    requires Accounted(start, w) && Stranded(mls, w, c, wire) && Foreign(mls, posted, c, wire)
    ensures Stranded(mls, w.(log := Append(w.log, at, posted)), c, wire)
  {
    AppendStrands(mls, w.log, w.group.fetchCursor, at, posted, c, wire);
  }

  /** A two-entry log that strands a Commit: its echo, then a message without an authenticated sender. */
  lemma EchoThenThrow(mls: Mls, w: World, c: Opaque, wire: Wire, o: Opaque, next: ClientState, budget: nat)
    requires Dense(w.log) && |w.log| == 2 && w.group.fetchCursor == 0 && w.group.lastCursor == 0 && Active(w.group)
    requires w.group.messages == [] && w.group.pending == [PendingCommit(c, Some(wire), true, false)]
    requires w.log[0].wire == wire && w.log[1].wire != wire && c != o
    requires mls.open(w.group.state, w.log[1].wire) == Some(o)
    requires mls.process(w.group.state, o) == Application(next, None, None) && !next.removed
    ensures var after := CatchUp(mls, w, Reachable, budget).0;
            && after.group.fetchCursor == 1
            && after.trace == w.trace + [Handled(1, OwnEcho(c))]
            && Waits(after.group.pending, c, wire)
  {
    assert FetchAfter(w.log, 0) == w.log;
    var first := ReceiveOne(mls, w.group, w.log[0]);
    assert first == Step(Passed(w.group, 1), Some(OwnEcho(c)));
    FindPendingFinds(w.group.pending, o);
    assert FindPosted(w.group.pending[1..], w.log[1].wire) == None;
    assert FindPosted(first.group.pending, w.log[1].wire) == None && FindPending(first.group.pending, o) == None;
    assert ReceiveOne(mls, first.group, w.log[1]) == IngestOne(mls, first.group, w.log[1].cursor, w.log[1].at, o);
    assert ReceiveOne(mls, first.group, w.log[1]).did.None?;
    assert ReceiveAll(mls, first.group, w.log[1..]).handled == [];
    assert w.group.pending[0] in w.group.pending;
  }

  // ---------------------------------------------------------------------
  // A Welcome for a group already held
  // ---------------------------------------------------------------------

  /** A newer state of a group already held, joined past `after`. */
  function Renewed(g: Group, joined: ClientState, after: nat): Group {
    g.(state := joined, removed := false, removedAt := None, pending := [],
       fetchCursor := Max(g.fetchCursor, after), lastCursor := Max(g.lastCursor, after))
  }

  /** A Welcome for a group already held: a newer state replaces the old one, anything else is stale. */
  function AcceptWelcome(mls: Mls, g: Group, joined: ClientState, after: nat, backlog: seq<Record>, budget: nat): Group {
    if g.state.epoch >= joined.epoch then g
    else
      var renewed := Renewed(g, joined, after);
      if joined.removed then renewed.(removed := true)
      else Settle(ReceiveAll(mls, renewed, backlog), budget).0
  }
}
