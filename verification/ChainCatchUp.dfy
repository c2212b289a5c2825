/**
 * Catching up from a chain of documents: the walk that collects one step per
 * newer epoch, and the replay of the message gap, range by range, each range
 * under the state of its step.
 */
module ChainCatchUp {
  import opened Base
  import opened Mls
  import opened GroupSync
  import opened Documents

  /** `state` is what the step's document decodes to, if it decodes. */
  datatype ChainStep = ChainStep(epoch: nat, state: Option<ClientState>, cursor: nat, address: Address)

  // ---------------------------------------------------------------------
  // The walk
  // ---------------------------------------------------------------------

  /** The leading part of a walk that is newer than the local epoch. */
  function Newer(links: seq<Link>, gid: nat, localEpoch: nat): (r: seq<Link>)
    ensures r <= links
    ensures forall l | l in r :: SameGroup(l, gid) && EpochOf(l) > localEpoch
  {
    if links == [] || !SameGroup(links[0], gid) || EpochOf(links[0]) <= localEpoch then []
    else [links[0]] + Newer(links[1..], gid, localEpoch)
  }

  /** The walk runs into an address that cannot be read before it has any other reason to stop. */
  predicate Breaks(store: Store, address: Address, gid: nat, localEpoch: nat, hops: nat)
    decreases hops
  {
    if hops == 0 || address == NO_ADDRESS then false
    else if address !in store then true
    else
      var l := Link(address, store[address]);
      SameGroup(l, gid) && EpochOf(l) > localEpoch && Breaks(store, l.doc.prev, gid, localEpoch, hops - 1)
  }

  /** `steps` holds, for every epoch among `links`, the lowest-cursor document at that epoch. */
  ghost predicate LowestPerEpoch(steps: map<nat, ChainStep>, links: seq<Link>) {
    && (forall l | l in links :: Decodes(l) && EpochOf(l) in steps && steps[EpochOf(l)].cursor <= l.doc.cursor)
    && (forall e | e in steps :: exists l | l in links ::
          Decodes(l) && EpochOf(l) == e && steps[e] == ChainStep(e, l.doc.state, l.doc.cursor, l.address))
  }

  ghost predicate SortedByCursor(steps: seq<ChainStep>) {
    forall i, j :: 0 <= i < j < |steps| ==> steps[i].cursor <= steps[j].cursor
  }

  method FirstByCursor(steps: map<nat, ChainStep>) returns (first: nat)
    requires steps != map[]
    ensures first in steps && forall e | e in steps :: steps[first].cursor <= steps[e].cursor
  {
    first :| first in steps;
    var rest := steps.Keys - {first};
    while rest != {}
      invariant first in steps && rest <= steps.Keys
      invariant forall e | e in steps && e !in rest :: steps[first].cursor <= steps[e].cursor
      decreases |rest|
    {
      var e :| e in rest;
      if steps[e].cursor < steps[first].cursor {
        first := e;
      }
      rest := rest - {e};
    }
  }

  ghost predicate Holds(sorted: seq<ChainStep>, left: map<nat, ChainStep>, steps: map<nat, ChainStep>) {
    && (forall e | e in left :: e in steps && left[e] == steps[e])
    && (forall e | e in steps :: steps[e] in sorted || e in left)
    && (forall s | s in sorted :: exists e :: e in steps && steps[e] == s)
  }

  ghost predicate Below(sorted: seq<ChainStep>, left: map<nat, ChainStep>) {
    forall s, e | s in sorted && e in left :: s.cursor <= left[e].cursor
  }

  lemma MoveFirst(sorted: seq<ChainStep>, left: map<nat, ChainStep>, steps: map<nat, ChainStep>, first: nat)
    requires Holds(sorted, left, steps) && first in left
    ensures Holds(sorted + [left[first]], left - {first}, steps)
    ensures |left - {first}| == |left| - 1
  {
    var next := sorted + [left[first]];
    assert forall s :: s in next <==> s in sorted || s == left[first];
    assert left.Keys == (left - {first}).Keys + {first};
  }

  lemma FirstKeepsOrder(sorted: seq<ChainStep>, left: map<nat, ChainStep>, first: nat)
    requires SortedByCursor(sorted) && Below(sorted, left)
    requires first in left && forall e | e in left :: left[first].cursor <= left[e].cursor
    ensures SortedByCursor(sorted + [left[first]])
    ensures Below(sorted + [left[first]], left - {first})
  {
    var next := sorted + [left[first]];
    assert forall s :: s in next <==> s in sorted || s == left[first];
    assert forall i :: 0 <= i < |sorted| ==> sorted[i] in sorted;
  }

  method SortByCursor(steps: map<nat, ChainStep>) returns (sorted: seq<ChainStep>)
    ensures SortedByCursor(sorted) && |sorted| == |steps| && Holds(sorted, map[], steps)
  {
    sorted := [];
    var left := steps;
    while left != map[]
      invariant SortedByCursor(sorted) && Below(sorted, left) && Holds(sorted, left, steps)
      invariant |sorted| + |left| == |steps|
      decreases |left|
    {
      var first := FirstByCursor(left);
      MoveFirst(sorted, left, steps, first);
      FirstKeepsOrder(sorted, left, first);
      hide SortedByCursor, Below, Holds;
      sorted := sorted + [left[first]];
      left := left - {first};
    }
  }

  lemma NewerHead(seen: seq<Link>, head: Link, tail: seq<Link>, gid: nat, localEpoch: nat)
    ensures SameGroup(head, gid) && EpochOf(head) > localEpoch ==>
              seen + Newer([head] + tail, gid, localEpoch) == seen + [head] + Newer(tail, gid, localEpoch)
    ensures !(SameGroup(head, gid) && EpochOf(head) > localEpoch) ==> Newer([head] + tail, gid, localEpoch) == []
  {
    assert ([head] + tail)[1..] == tail;
  }

  lemma WalkEnds(store: Store, address: Address, gid: nat, localEpoch: nat, hops: nat, seen: seq<Link>)
    requires hops == 0 || address == NO_ADDRESS || address !in store
    ensures seen + Newer(Walk(store, address, hops), gid, localEpoch) == seen
    ensures Breaks(store, address, gid, localEpoch, hops) <==> hops != 0 && address != NO_ADDRESS
  {
  }

  /** One hop of the walk, for what it collects and for whether it breaks. */
  lemma WalkHop(store: Store, address: Address, gid: nat, localEpoch: nat, hops: nat, seen: seq<Link>)
    requires hops > 0 && address != NO_ADDRESS && address in store
    ensures var head := Link(address, store[address]);
            if SameGroup(head, gid) && EpochOf(head) > localEpoch then
              && seen + Newer(Walk(store, address, hops), gid, localEpoch)
                   == seen + [head] + Newer(Walk(store, head.doc.prev, hops - 1), gid, localEpoch)
              && (Breaks(store, address, gid, localEpoch, hops) <==> Breaks(store, head.doc.prev, gid, localEpoch, hops - 1))
            else
              && seen + Newer(Walk(store, address, hops), gid, localEpoch) == seen
              && !Breaks(store, address, gid, localEpoch, hops)
  {
    WalkHead(store, address, hops);
    NewerHead(seen, Link(address, store[address]), Onward(store, store[address], hops - 1), gid, localEpoch);
  }

  lemma NothingCollected()
    ensures LowestPerEpoch(map[], [])
  {
  }

  /** The steps of a chain by epoch; nothing when an address on the way cannot be read. */
  method CollectSteps(store: Store, tip: Address, gid: nat, localEpoch: nat) returns (r: Option<map<nat, ChainStep>>)
    ensures r.None? <==> Breaks(store, tip, gid, localEpoch, MAX_HOPS)
    ensures r.Some? ==> LowestPerEpoch(r.value, Newer(Walk(store, tip, MAX_HOPS), gid, localEpoch))
  {
    hide Newer, Breaks, Walk, LowestPerEpoch;
    var byEpoch: map<nat, ChainStep> := map[];
    var address := tip;
    var hop := 0;
    ghost var all := Newer(Walk(store, tip, MAX_HOPS), gid, localEpoch);
    ghost var breaks := Breaks(store, tip, gid, localEpoch, MAX_HOPS);
    ghost var seen: seq<Link> := [];
    NothingCollected();
    while hop < MAX_HOPS && address != NO_ADDRESS
      invariant 0 <= hop <= MAX_HOPS
      invariant breaks <==> Breaks(store, address, gid, localEpoch, MAX_HOPS - hop)
      invariant all == seen + Newer(Walk(store, address, MAX_HOPS - hop), gid, localEpoch)
      invariant LowestPerEpoch(byEpoch, seen)
      decreases MAX_HOPS - hop
    {
      if address !in store {
        WalkEnds(store, address, gid, localEpoch, MAX_HOPS - hop, seen);
        return None;
      }
      WalkHop(store, address, gid, localEpoch, MAX_HOPS - hop, seen);
      var doc := store[address];
      if doc.MetaDocument? || doc.gid != gid || doc.state.None? || doc.state.value.epoch <= localEpoch {
        return Some(byEpoch);
      }
      LowestExtends(byEpoch, seen, Link(address, doc));
      var epoch := doc.state.value.epoch;
      if epoch !in byEpoch || doc.cursor < byEpoch[epoch].cursor {
        byEpoch := byEpoch[epoch := ChainStep(epoch, doc.state, doc.cursor, address)];
      }
      seen := seen + [Link(address, doc)];
      address := doc.prev;
      hop := hop + 1;
    }
    WalkEnds(store, address, gid, localEpoch, MAX_HOPS - hop, seen);
    return Some(byEpoch);
  }

  /** What the walk returns: one step per newer epoch on the chain, its lowest-cursor document, in cursor order. */
  ghost predicate StepsOf(steps: seq<ChainStep>, links: seq<Link>) {
    && SortedByCursor(steps)
    && exists byEpoch :: LowestPerEpoch(byEpoch, links) && |steps| == |byEpoch| && Holds(steps, map[], byEpoch)
  }

  /** Walk the chain back from the tip; nothing when an address on the way cannot be read. */
  method WalkGroupChain(store: Store, tip: Address, gid: nat, localEpoch: nat) returns (r: Option<seq<ChainStep>>)
    ensures r.None? <==> Breaks(store, tip, gid, localEpoch, MAX_HOPS)
    ensures r.Some? ==> StepsOf(r.value, Newer(Walk(store, tip, MAX_HOPS), gid, localEpoch))
  {
    var collected := CollectSteps(store, tip, gid, localEpoch);
    if collected.None? {
      return None;
    }
    var sorted := SortByCursor(collected.value);
    return Some(sorted);
  }

  lemma LowestExtends(steps: map<nat, ChainStep>, seen: seq<Link>, head: Link)
    requires LowestPerEpoch(steps, seen) && Decodes(head)
    ensures var e := EpochOf(head);
            var next := if e !in steps || head.doc.cursor < steps[e].cursor
                        then steps[e := ChainStep(e, head.doc.state, head.doc.cursor, head.address)] else steps;
            LowestPerEpoch(next, seen + [head])
  {
    var e := EpochOf(head);
    var next := if e !in steps || head.doc.cursor < steps[e].cursor
                then steps[e := ChainStep(e, head.doc.state, head.doc.cursor, head.address)] else steps;
    assert head in seen + [head];
    forall x | x in next
      ensures exists l | l in seen + [head] ::
                Decodes(l) && EpochOf(l) == x && next[x] == ChainStep(x, l.doc.state, l.doc.cursor, l.address)
    {
      if x in steps && next[x] == steps[x] {
        var l :| l in seen && Decodes(l) && EpochOf(l) == x && steps[x] == ChainStep(x, l.doc.state, l.doc.cursor, l.address);
        assert l in seen + [head];
      }
    }
  }

  // ---------------------------------------------------------------------
  // The ranges
  // ---------------------------------------------------------------------

  /** The steps whose states can be used: those before the first that does not decode. */
  function Usable(steps: seq<ChainStep>): (r: seq<ChainStep>)
    ensures r <= steps
    ensures forall s | s in r :: s.state.Some?
    ensures |r| < |steps| ==> steps[|r|].state.None?
  {
    if steps == [] || steps[0].state.None? then [] else [steps[0]] + Usable(steps[1..])
  }

  predicate Within(r: Record, lo: nat, hi: Option<nat>) {
    r.cursor > lo && (hi.Some? ==> r.cursor <= hi.value)
  }

  function Range(gap: seq<Record>, lo: nat, hi: Option<nat>): seq<Record> {
    Filter(gap, (r: Record) => Within(r, lo, hi))
  }

  /** Boundary `i`: the local cursor, then the steps' cursors, then no bound. */
  function Boundary(local: nat, steps: seq<ChainStep>, i: nat): Option<nat> {
    if i == 0 then Some(local)
    else if i <= |steps| then Some(steps[i - 1].cursor)
    else None
  }

  function RangeAt(local: nat, steps: seq<ChainStep>, gap: seq<Record>, i: nat): seq<Record>
    requires i <= |steps|
  {
    Range(gap, Boundary(local, steps, i).value, Boundary(local, steps, i + 1))
  }

  /** The ranges from `i` up to `n`, laid end to end: what is replayed, in the order it is replayed. */
  function Replayed(local: nat, steps: seq<ChainStep>, gap: seq<Record>, i: nat, n: nat): seq<Record>
    requires i <= n <= |steps| + 1
    decreases n - i
  {
    if i == n then [] else RangeAt(local, steps, gap, i) + Replayed(local, steps, gap, i + 1, n)
  }

  ghost predicate Ascending(gap: seq<Record>) {
    forall i, j :: 0 <= i < j < |gap| ==> gap[i].cursor < gap[j].cursor
  }

  lemma {:induction false} SplitFilter(gap: seq<Record>, p: Record -> bool, q: Record -> bool)
    requires Ascending(gap)
    requires forall r | r in gap :: !(p(r) && q(r))
    requires forall r, s | r in gap && s in gap && p(r) && q(s) :: r.cursor < s.cursor
    ensures Filter(gap, p) + Filter(gap, q) == Filter(gap, (r: Record) => p(r) || q(r))
  {
    if gap != [] {
      var both := (r: Record) => p(r) || q(r);
      SplitFilter(gap[1..], p, q);
      if q(gap[0]) {
        assert forall r | r in gap[1..] :: r.cursor > gap[0].cursor;
        FilterNone(gap[1..], p);
        assert Filter(gap, p) == [];
      }
      assert Filter(gap, both) == (if both(gap[0]) then [gap[0]] else []) + Filter(gap[1..], both);
    }
  }

  lemma SplitRange(gap: seq<Record>, lo: nat, mid: nat, hi: Option<nat>)
    requires Ascending(gap) && (forall r | r in gap && r.cursor > mid :: r.cursor > lo)
    requires hi.Some? ==> mid <= hi.value
    ensures Range(gap, lo, Some(mid)) + Range(gap, mid, hi) == Range(gap, lo, hi)
  {
    var p, q := (r: Record) => Within(r, lo, Some(mid)), (r: Record) => Within(r, mid, hi);
    SplitFilter(gap, p, q);
    FilterSame(gap, (r: Record) => p(r) || q(r), (r: Record) => Within(r, lo, hi));
  }

  /** Boundaries rise, and nothing of the gap lies below the first. */
  lemma BoundariesRise(local: nat, steps: seq<ChainStep>, gap: seq<Record>, i: nat, n: nat)
    requires SortedByCursor(steps) && i < n <= |steps| + 1 && i < |steps| && forall r | r in gap :: r.cursor > local
    ensures var mid := Boundary(local, steps, i + 1).value;
            && (forall r | r in gap && r.cursor > mid :: r.cursor > Boundary(local, steps, i).value)
            && (Boundary(local, steps, n).Some? ==> mid <= Boundary(local, steps, n).value)
  {
  }

  /** Consecutive ranges, laid end to end, are one range. */
  lemma {:induction false} RangesJoin(local: nat, steps: seq<ChainStep>, gap: seq<Record>, i: nat, n: nat)
    requires SortedByCursor(steps) && Ascending(gap) && i < n <= |steps| + 1
    requires forall r | r in gap :: r.cursor > local
    ensures Replayed(local, steps, gap, i, n) == Range(gap, Boundary(local, steps, i).value, Boundary(local, steps, n))
    decreases n - i
  {
    hide Range;
    assert Replayed(local, steps, gap, i, n) == RangeAt(local, steps, gap, i) + Replayed(local, steps, gap, i + 1, n);
    if i + 1 == n {
      assert Replayed(local, steps, gap, i + 1, n) == [];
    } else {
      RangesJoin(local, steps, gap, i + 1, n);
      BoundariesRise(local, steps, gap, i, n);
      SplitRange(gap, Boundary(local, steps, i).value, Boundary(local, steps, i + 1).value, Boundary(local, steps, n));
    }
    hide Replayed, SortedByCursor, Ascending;
  }

  /**
   * When the steps are sorted by cursor and all of them decode, the ranges laid
   * end to end are the whole gap: every message past the local cursor falls in
   * exactly one range, and the ranges run in cursor order.
   */
  lemma NothingIsLost(local: nat, steps: seq<ChainStep>, gap: seq<Record>)
    requires SortedByCursor(steps) && Ascending(gap) && (forall r | r in gap :: r.cursor > local)
    requires |Usable(steps)| == |steps|
    ensures Replayed(local, steps, gap, 0, |steps| + 1) == gap
  {
    RangesJoin(local, steps, gap, 0, |steps| + 1);
    FilterAll(gap, (r: Record) => Within(r, local, None));
  }

  /**
   * A step that does not decode cuts the replay short: exactly the messages up
   * to that step's cursor are replayed, so the gap is replayed in full if and
   * only if nothing lies beyond it.
   */
  lemma LostBeyondUndecodable(local: nat, steps: seq<ChainStep>, gap: seq<Record>)
    requires SortedByCursor(steps) && Ascending(gap) && (forall r | r in gap :: r.cursor > local)
    requires |Usable(steps)| < |steps|
    ensures var cut := steps[|Usable(steps)|].cursor;
            && Replayed(local, steps, gap, 0, |Usable(steps)| + 1) == Range(gap, local, Some(cut))
            && (Replayed(local, steps, gap, 0, |Usable(steps)| + 1) == gap <==> forall r | r in gap :: r.cursor <= cut)
  {
    var cut := steps[|Usable(steps)|].cursor;
    RangesJoin(local, steps, gap, 0, |Usable(steps)| + 1);
    WholeUpTo(gap, local, cut);
    hide Replayed, Range, Usable, SortedByCursor, Ascending;
  }

  lemma WholeUpTo(gap: seq<Record>, lo: nat, cut: nat)
    requires forall r | r in gap :: r.cursor > lo
    ensures Range(gap, lo, Some(cut)) == gap <==> forall r | r in gap :: r.cursor <= cut
  {
    var keep := (r: Record) => Within(r, lo, Some(cut));
    if forall r | r in gap :: r.cursor <= cut {
      FilterAll(gap, keep);
    } else {
      var r :| r in gap && r.cursor > cut;
      FilterIn(gap, keep, r);
    }
  }

  // ---------------------------------------------------------------------
  // The replay
  // ---------------------------------------------------------------------

  function StateFor(g: Group, steps: seq<ChainStep>, i: nat): ClientState
    requires i <= |Usable(steps)|
  {
    if i == 0 then g.state else Usable(steps)[i - 1].state.value
  }

  /**
   * Replay the ranges from `i` on. `start` is the group before the first range;
   * `budget(i)` finalizers of own Commits succeed at the end of range `i`.
   */
  function CatchUpFrom(
    mls: Mls, budget: nat -> nat, start: Group, g: Group, steps: seq<ChainStep>, gap: seq<Record>, i: nat): Batch
    requires i <= |Usable(steps)| + 1
    decreases |Usable(steps)| + 1 - i
  {
    if i == |Usable(steps)| + 1 then Batch(g, [], true)
    else
      var range := RangeAt(start.fetchCursor, steps, gap, i);
      if range == [] then CatchUpFrom(mls, budget, start, g, steps, gap, i + 1)
      else
        var first := ReceiveAll(mls, g.(state := StateFor(start, steps, i)), range);
        var (settled, ok) := Settle(first, budget(i));
        if !ok then Batch(settled, first.handled, false)
        else
          var rest := CatchUpFrom(mls, budget, start, settled, steps, gap, i + 1);
          Batch(rest.group, first.handled + rest.handled, rest.completed)
  }

  function CatchUpFromChain(mls: Mls, budget: nat -> nat, g: Group, steps: seq<ChainStep>, gap: seq<Record>): Batch {
    if steps == [] then Batch(g, [], true) else CatchUpFrom(mls, budget, g, g, steps, gap, 0)
  }

  function CursorsOf(handled: seq<Handled>): seq<nat> {
    if handled == [] then [] else [handled[0].cursor] + CursorsOf(handled[1..])
  }

  function RecordCursors(records: seq<Record>): seq<nat> {
    if records == [] then [] else [records[0].cursor] + RecordCursors(records[1..])
  }

  lemma {:induction false} CompletedBatchHandlesAll(mls: Mls, g: Group, records: seq<Record>)
    requires ReceiveAll(mls, g, records).completed
    ensures CursorsOf(ReceiveAll(mls, g, records).handled) == RecordCursors(records)
    decreases records
  {
    hide ReceiveOne;
    if records != [] {
      var step := ReceiveOne(mls, g, records[0]);
      CompletedBatchHandlesAll(mls, step.group, records[1..]);
    }
  }

  lemma {:induction false} CursorsAppend(a: seq<Handled>, b: seq<Handled>)
    ensures CursorsOf(a + b) == CursorsOf(a) + CursorsOf(b)
  {
    if a == [] {
      assert a + b == b;
    } else {
      assert (a + b)[0] == a[0] && (a + b)[1..] == a[1..] + b;
      CursorsAppend(a[1..], b);
    }
  }

  lemma {:induction false} RecordCursorsAppend(a: seq<Record>, b: seq<Record>)
    ensures RecordCursors(a + b) == RecordCursors(a) + RecordCursors(b)
  {
    if a == [] {
      assert a + b == b;
    } else {
      assert (a + b)[0] == a[0] && (a + b)[1..] == a[1..] + b;
      RecordCursorsAppend(a[1..], b);
    }
  }

  lemma CatchUpEnds(mls: Mls, budget: nat -> nat, start: Group, g: Group, steps: seq<ChainStep>, gap: seq<Record>)
    ensures CatchUpFrom(mls, budget, start, g, steps, gap, |Usable(steps)| + 1) == Batch(g, [], true)
    ensures CursorsOf([]) == [] && RecordCursors([]) == []
  {
  }

  /** One range of a catch-up, and the rest of it. */
  lemma CatchUpUnfolds(
    mls: Mls, budget: nat -> nat, start: Group, g: Group, steps: seq<ChainStep>, gap: seq<Record>, i: nat)
    requires i <= |Usable(steps)|
    ensures var range := RangeAt(start.fetchCursor, steps, gap, i);
            var first := ReceiveAll(mls, g.(state := StateFor(start, steps, i)), range);
            var (settled, ok) := Settle(first, budget(i));
            var whole := CatchUpFrom(mls, budget, start, g, steps, gap, i);
            var rest := CatchUpFrom(mls, budget, start, settled, steps, gap, i + 1);
            && (range == [] ==> whole == CatchUpFrom(mls, budget, start, g, steps, gap, i + 1))
            && (range != [] && !ok ==> whole == Batch(settled, first.handled, false))
            && (range != [] && ok ==>
                  first.completed && whole == Batch(rest.group, first.handled + rest.handled, rest.completed))
  {
    hide ReceiveAll, RangeAt, StateFor;
  }

  /** A catch-up that runs to its end handles exactly the replayed ranges, in order. */
  lemma {:induction false} CatchUpHandlesRanges(
    mls: Mls, budget: nat -> nat, start: Group, g: Group, steps: seq<ChainStep>, gap: seq<Record>, i: nat)
    requires i <= |Usable(steps)| + 1 && CatchUpFrom(mls, budget, start, g, steps, gap, i).completed
    ensures CursorsOf(CatchUpFrom(mls, budget, start, g, steps, gap, i).handled)
         == RecordCursors(Replayed(start.fetchCursor, steps, gap, i, |Usable(steps)| + 1))
    decreases |Usable(steps)| + 1 - i
  {
    hide ReceiveAll, Settle, RangeAt, StateFor, CursorsOf, RecordCursors, CatchUpFrom;
    CatchUpEnds(mls, budget, start, g, steps, gap);
    if i <= |Usable(steps)| {
      CatchUpUnfolds(mls, budget, start, g, steps, gap, i);
      var range := RangeAt(start.fetchCursor, steps, gap, i);
      var rest := Replayed(start.fetchCursor, steps, gap, i + 1, |Usable(steps)| + 1);
      RecordCursorsAppend(range, rest);
      if range == [] {
        CatchUpHandlesRanges(mls, budget, start, g, steps, gap, i + 1);
      } else {
        var h := g.(state := StateFor(start, steps, i));
        var settled := Settle(ReceiveAll(mls, h, range), budget(i)).0;
        CompletedBatchHandlesAll(mls, h, range);
        CatchUpHandlesRanges(mls, budget, start, settled, steps, gap, i + 1);
        CursorsAppend(ReceiveAll(mls, h, range).handled,
                      CatchUpFrom(mls, budget, start, settled, steps, gap, i + 1).handled);
      }
    }
  }

  // ---------------------------------------------------------------------
  // Every message is tried under the state it was sealed in
  // ---------------------------------------------------------------------

  datatype Kind = Plain | ThirdPartyCommit | OwnLeafCommit

  /** How many Commits of the gap lie at or below `cursor`. */
  function CommitsUpTo(kind: Record -> Kind, gap: seq<Record>, cursor: nat): nat {
    if gap == [] then 0
    else (if gap[0].cursor <= cursor && !kind(gap[0]).Plain? then 1 else 0) + CommitsUpTo(kind, gap[1..], cursor)
  }

  /** The epoch the group is in just before the record at `cursor`, from `base` at the start of the gap. */
  function EpochBefore(kind: Record -> Kind, gap: seq<Record>, base: nat, cursor: nat): nat {
    base + (if cursor == 0 then 0 else CommitsUpTo(kind, gap, cursor - 1))
  }

  /** How many epochs these records take a state of their line along. */
  function Lifts(kind: Record -> Kind, records: seq<Record>): nat {
    if records == [] then 0 else (if kind(records[0]).ThirdPartyCommit? then 1 else 0) + Lifts(kind, records[1..])
  }

  /** The states the group went through, one per epoch, and the place of this member in their trees. */
  datatype Lineage = Lineage(at: nat -> Fingerprint, leaf: nat)

  /** A live state of this member on the line the group followed. */
  ghost predicate OnLine(s: ClientState, line: Lineage) {
    FingerprintOf(s) == line.at(s.epoch) && s.ownLeaf == Some(line.leaf) && !s.removed
  }

  /** These bytes do not move the state off its place. */
  ghost predicate StaysUnder(mls: Mls, line: Lineage, s: ClientState, o: Opaque) {
    match mls.process(s, o)
    case Application(t, _, _) => t.epoch == s.epoch && OnLine(t, line)
    case NewState(t) => t.epoch == s.epoch && OnLine(t, line)
    case _ => true
  }

  ghost predicate Stays(mls: Mls, line: Lineage, s: ClientState, r: Record) {
    var o := mls.open(s, r.wire);
    o.Some? ==> StaysUnder(mls, line, s, o.value)
  }

  /** This entry is a Commit that takes the state one epoch along the line. */
  ghost predicate MovesOn(mls: Mls, line: Lineage, s: ClientState, r: Record) {
    match mls.open(s, r.wire)
    case None => false
    case Some(o) => match mls.process(s, o)
      case NewState(t) => t.epoch == s.epoch + 1 && OnLine(t, line)
      case _ => false
  }

  /**
   * The library's part, asked of the states on the group's line alone: under the
   * state of the epoch it was sealed in, a third party's Commit applies and moves
   * on by one, and nothing else leaves the epoch, the shared leaf's own Commits
   * included. Whether an entry makes ingestion throw is left open.
   */
  ghost predicate Steady(mls: Mls, kind: Record -> Kind, gap: seq<Record>, base: nat, line: Lineage) {
    forall s, r | r in gap && OnLine(s, line) && s.epoch == EpochBefore(kind, gap, base, r.cursor) ::
      if kind(r).ThirdPartyCommit? then MovesOn(mls, line, s, r) else Stays(mls, line, s, r)
  }

  /** A queued own Commit is not a third party's, and does not move a state on the line when its wrapper is met. */
  ghost predicate OwnCommit(mls: Mls, kind: Record -> Kind, epoch: nat, line: Lineage, p: PendingCommit, r: Record) {
    forall s | OnLine(s, line) && s.epoch == epoch ::
      if kind(r).ThirdPartyCommit? then p.posted != Some(r.wire) && mls.open(s, r.wire) != Some(p.commit)
      else p.posted == Some(r.wire) ==> StaysUnder(mls, line, s, p.commit)
  }

  /** What the group takes for its own - sent messages, queued Commits - is no third party's Commit. */
  ghost predicate KnowsItsOwn(mls: Mls, kind: Record -> Kind, gap: seq<Record>, base: nat, line: Lineage, g: Group) {
    && (forall r | r in gap && kind(r).ThirdPartyCommit? :: !OutboundAt(g.messages, r.cursor))
    && (forall r, p | r in gap && p in g.pending :: OwnCommit(mls, kind, EpochBefore(kind, gap, base, r.cursor), line, p, r))
  }

  /** The chain's part: every step that can be used is the line's state at its cursor, and every Commit of the shared leaf has a step. */
  ghost predicate Snapshots(kind: Record -> Kind, gap: seq<Record>, base: nat, line: Lineage, steps: seq<ChainStep>) {
    && (forall s | s in Usable(steps) ::
          OnLine(s.state.value, line) && s.state.value.epoch == base + CommitsUpTo(kind, gap, s.cursor))
    && (forall r | r in gap && kind(r).OwnLeafCommit? :: exists s | s in steps :: s.cursor == r.cursor)
  }

  function TriedIn(mls: Mls, g: Group, records: seq<Record>): seq<Fingerprint>
    decreases records
  {
    if records == [] then []
    else
      var step := ReceiveOne(mls, g, records[0]);
      [FingerprintOf(g.state)] + (if step.did.None? then [] else TriedIn(mls, step.group, records[1..]))
  }

  /** The states, by fingerprint, under which the replayed messages are tried, along the whole catch-up. */
  function TriedFrom(
    mls: Mls, budget: nat -> nat, start: Group, g: Group, steps: seq<ChainStep>, gap: seq<Record>, i: nat): seq<Fingerprint>
    requires i <= |Usable(steps)| + 1
    decreases |Usable(steps)| + 1 - i
  {
    if i == |Usable(steps)| + 1 then []
    else
      var range := RangeAt(start.fetchCursor, steps, gap, i);
      if range == [] then TriedFrom(mls, budget, start, g, steps, gap, i + 1)
      else
        var h := g.(state := StateFor(start, steps, i));
        var (settled, ok) := Settle(ReceiveAll(mls, h, range), budget(i));
        TriedIn(mls, h, range) + (if ok then TriedFrom(mls, budget, start, settled, steps, gap, i + 1) else [])
  }

  /** The states, by fingerprint, that the group was in when the records were sealed. */
  function SealedIn(kind: Record -> Kind, gap: seq<Record>, base: nat, line: Lineage, records: seq<Record>): seq<Fingerprint> {
    if records == [] then []
    else [line.at(EpochBefore(kind, gap, base, records[0].cursor))] + SealedIn(kind, gap, base, line, records[1..])
  }

  lemma {:induction false} SealedInAppend(
    kind: Record -> Kind, gap: seq<Record>, base: nat, line: Lineage, a: seq<Record>, b: seq<Record>)
    ensures SealedIn(kind, gap, base, line, a + b) == SealedIn(kind, gap, base, line, a) + SealedIn(kind, gap, base, line, b)
  {
    if a == [] {
      assert a + b == b;
    } else {
      assert (a + b)[0] == a[0] && (a + b)[1..] == a[1..] + b;
      SealedInAppend(kind, gap, base, line, a[1..], b);
    }
  }

  /** Between two cursors with no record in between, no Commit is counted. */
  lemma {:induction false} NoCommitBetween(kind: Record -> Kind, gap: seq<Record>, lo: nat, hi: nat)
    requires lo <= hi && forall r | r in gap :: !(lo < r.cursor <= hi)
    ensures CommitsUpTo(kind, gap, lo) == CommitsUpTo(kind, gap, hi)
  {
    if gap != [] {
      NoCommitBetween(kind, gap[1..], lo, hi);
    }
  }

  lemma {:induction false} OneMoreRecord(kind: Record -> Kind, gap: seq<Record>, r: Record)
    requires Ascending(gap) && r in gap && r.cursor > 0
    ensures CommitsUpTo(kind, gap, r.cursor)
         == CommitsUpTo(kind, gap, r.cursor - 1) + (if kind(r).Plain? then 0 else 1)
  {
    if gap[0] == r {
      assert forall x | x in gap[1..] :: x.cursor > r.cursor;
      NoCommitBetween(kind, gap[1..], r.cursor - 1, r.cursor);
    } else {
      assert gap[0].cursor < r.cursor;
      OneMoreRecord(kind, gap[1..], r);
    }
  }

  /** The first record of a range, and the range that is left after it. */
  lemma {:induction false} RangeFirst(gap: seq<Record>, lo: nat, hi: Option<nat>)
    requires Ascending(gap) && Range(gap, lo, hi) != []
    ensures var r := Range(gap, lo, hi)[0];
            && r in gap && Within(r, lo, hi)
            && (forall x | x in gap :: !(lo < x.cursor < r.cursor))
            && Range(gap, lo, hi)[1..] == Range(gap, r.cursor, hi)
  {
    var keep := (x: Record) => Within(x, lo, hi);
    if keep(gap[0]) {
      var r := gap[0];
      var later := (x: Record) => Within(x, r.cursor, hi);
      assert forall x | x in gap[1..] :: x.cursor > r.cursor;
      FilterSame(gap[1..], keep, later);
      assert Range(gap, lo, hi)[1..] == Filter(gap[1..], keep);
    } else {
      RangeFirst(gap[1..], lo, hi);
      var r := Range(gap[1..], lo, hi)[0];
      assert Range(gap, lo, hi) == Range(gap[1..], lo, hi);
      assert gap[0].cursor < r.cursor;
      assert Range(gap, r.cursor, hi) == Range(gap[1..], r.cursor, hi);
    }
  }

  /** The same queued Commits, or fewer, and no new sent messages. */
  ghost predicate NothingNewOwn(after: Group, before: Group) {
    && (forall q | q in after.pending :: exists p | p in before.pending :: p.commit == q.commit && p.posted == q.posted)
    && (forall cursor | OutboundAt(after.messages, cursor) :: OutboundAt(before.messages, cursor))
  }

  lemma StillKnowsItsOwn(
    mls: Mls, kind: Record -> Kind, gap: seq<Record>, base: nat, line: Lineage, g: Group, h: Group)
    requires KnowsItsOwn(mls, kind, gap, base, line, g) && NothingNewOwn(h, g)
    ensures KnowsItsOwn(mls, kind, gap, base, line, h)
  {
    hide OutboundAt, OnLine, StaysUnder, EpochBefore;
  }

  lemma ReceivingAddsNoOwn(mls: Mls, g: Group, r: Record)
    requires NeverGoesBack(mls)
    ensures NothingNewOwn(ReceiveOne(mls, g, r).group, g)
  {
    var o := match FindPosted(g.pending, r.wire)
      case Some(c) => Some(c)
      case None => mls.open(g.state, r.wire);
    if o.Some? {
      IngestOneKeeps(mls, g, r.cursor, r.at, o.value);
      IngestedPending(mls, g, r.cursor, r.at, o.value);
    }
    hide IngestOne;
  }

  lemma IngestedMarks(mls: Mls, g: Group, cursor: nat, at: nat, o: Opaque)
    ensures var after := IngestOne(mls, g, cursor, at, o).group.pending;
            after == g.pending || after == MarkApplied(g, FindPending(g.pending, o)).pending
  {
    hide FindPending;
  }

  lemma IngestedPending(mls: Mls, g: Group, cursor: nat, at: nat, o: Opaque)
    ensures forall q | q in IngestOne(mls, g, cursor, at, o).group.pending ::
              exists p | p in g.pending :: p.commit == q.commit && p.posted == q.posted
  {
    var p := FindPending(g.pending, o);
    IngestedMarks(mls, g, cursor, at, o);
    hide IngestOne;
    if p.Some? && p.value < |g.pending| {
      assert g.pending[p.value] in g.pending;
    }
  }

  lemma SettlingAddsNoOwn(b: Batch, budget: nat)
    ensures NothingNewOwn(Settle(b, budget).0, b.group)
  {
    SettledFrom(b, budget);
    hide MarkConfirmed, FinalizeConfirmed, DropRejected, AllConfirms, AllRejects;
  }

  /**
   * An entry tried under the line's state of its own epoch leaves the group on
   * the line, in the epoch it leads to, unless ingestion throws.
   */
  lemma StaysOnLine(
    mls: Mls, kind: Record -> Kind, gap: seq<Record>, base: nat, line: Lineage, g: Group, r: Record)
    requires Steady(mls, kind, gap, base, line) && r in gap && KnowsItsOwn(mls, kind, gap, base, line, g)
    requires OnLine(g.state, line) && g.state.epoch == EpochBefore(kind, gap, base, r.cursor)
    ensures var s := ReceiveOne(mls, g, r);
            s.did.Some? ==>
              && OnLine(s.group.state, line)
              && s.group.state.epoch == g.state.epoch + (if kind(r).ThirdPartyCommit? then 1 else 0)
  {
    FindPostedFinds(g.pending, r.wire);
    var posted := FindPosted(g.pending, r.wire);
    var o := if posted.Some? then posted else mls.open(g.state, r.wire);
    if posted.Some? {
      var p :| p in g.pending && p.posted == Some(r.wire) && p.commit == posted.value;
      assert OwnCommit(mls, kind, EpochBefore(kind, gap, base, r.cursor), line, p, r);
    }
    if o.Some? {
      if kind(r).ThirdPartyCommit? {
        NotOurs(mls, kind, gap, base, line, g, r, o.value);
        CommitMovesOn(mls, line, g, r, o.value);
      } else {
        OtherEntryStays(mls, line, g, r, o.value);
      }
    }
    hide IngestOne, OnLine;
  }

  lemma NotOurs(
    mls: Mls, kind: Record -> Kind, gap: seq<Record>, base: nat, line: Lineage, g: Group, r: Record, o: Opaque)
    requires r in gap && kind(r).ThirdPartyCommit? && KnowsItsOwn(mls, kind, gap, base, line, g)
    requires OnLine(g.state, line) && g.state.epoch == EpochBefore(kind, gap, base, r.cursor)
    requires mls.open(g.state, r.wire) == Some(o)
    ensures FindPending(g.pending, o) == None && !OutboundAt(g.messages, r.cursor)
  {
    forall p | p in g.pending
      ensures p.commit != o
    {
      assert OwnCommit(mls, kind, EpochBefore(kind, gap, base, r.cursor), line, p, r);
    }
    FindPendingFinds(g.pending, o);
  }

  lemma CommitMovesOn(mls: Mls, line: Lineage, g: Group, r: Record, o: Opaque)
    requires MovesOn(mls, line, g.state, r) && mls.open(g.state, r.wire) == Some(o)
    requires FindPending(g.pending, o) == None && !OutboundAt(g.messages, r.cursor)
    ensures var s := IngestOne(mls, g, r.cursor, r.at, o);
            s.did.Some? && OnLine(s.group.state, line) && s.group.state.epoch == g.state.epoch + 1
  {
  }

  lemma OtherEntryStays(mls: Mls, line: Lineage, g: Group, r: Record, o: Opaque)
    requires OnLine(g.state, line) && StaysUnder(mls, line, g.state, o)
    ensures var s := IngestOne(mls, g, r.cursor, r.at, o);
            s.did.Some? ==> OnLine(s.group.state, line) && s.group.state.epoch == g.state.epoch
  {
    hide OnLine;
  }

  /** Inside one range the state keeps step with the line, for as long as ingestion does not throw. */
  lemma {:induction false} RangeTriedRightly(
    mls: Mls, kind: Record -> Kind, gap: seq<Record>, base: nat, line: Lineage, g: Group, lo: nat, hi: Option<nat>)
    requires NeverGoesBack(mls) && Steady(mls, kind, gap, base, line) && Ascending(gap)
    requires KnowsItsOwn(mls, kind, gap, base, line, g)
    requires OnLine(g.state, line) && g.state.epoch == base + CommitsUpTo(kind, gap, lo)
    requires forall r | r in gap && kind(r).OwnLeafCommit? && Within(r, lo, hi) :: hi == Some(r.cursor)
    ensures var range := Range(gap, lo, hi);
            var b := ReceiveAll(mls, g, range);
            && TriedIn(mls, g, range) <= SealedIn(kind, gap, base, line, range)
            && |TriedIn(mls, g, range)| == |b.handled| + (if b.completed then 0 else 1)
            && (b.completed ==> TriedIn(mls, g, range) == SealedIn(kind, gap, base, line, range))
            && (b.completed ==> b.group.state.epoch == g.state.epoch + Lifts(kind, range))
            && KnowsItsOwn(mls, kind, gap, base, line, b.group)
    decreases |Range(gap, lo, hi)|
  {
    hide ReceiveOne, KnowsItsOwn, IngestOne, Steady, NothingNewOwn, OnLine;
    var range := Range(gap, lo, hi);
    if range != [] {
      RangeFirst(gap, lo, hi);
      var r := range[0];
      NoCommitBetween(kind, gap, lo, r.cursor - 1);
      OneMoreRecord(kind, gap, r);
      assert g.state.epoch == EpochBefore(kind, gap, base, r.cursor);
      var next := ReceiveOne(mls, g, r).group;
      StaysOnLine(mls, kind, gap, base, line, g, r);
      ReceivingAddsNoOwn(mls, g, r);
      StillKnowsItsOwn(mls, kind, gap, base, line, g, next);
      OnLineIs(g.state, line);
      if ReceiveOne(mls, g, r).did.None? {
      } else if kind(r).OwnLeafCommit? {
        assert Range(gap, r.cursor, hi) == [] by {
          FilterNone(gap, (x: Record) => Within(x, r.cursor, hi));
        }
      } else {
        RangeTriedRightly(mls, kind, gap, base, line, next, r.cursor, hi);
      }
    }
  }

  lemma OnLineIs(s: ClientState, line: Lineage)
    requires OnLine(s, line)
    ensures FingerprintOf(s) == line.at(s.epoch)
  {
  }

  lemma OwnCommitsEndRanges(
    kind: Record -> Kind, gap: seq<Record>, base: nat, line: Lineage, local: nat, steps: seq<ChainStep>, i: nat, r: Record)
    requires SortedByCursor(steps) && Snapshots(kind, gap, base, line, steps) && i <= |steps|
    requires r in gap && kind(r).OwnLeafCommit? && Within(r, Boundary(local, steps, i).value, Boundary(local, steps, i + 1))
    ensures Boundary(local, steps, i + 1) == Some(r.cursor)
  {
    assert forall k :: 0 <= k < i ==> steps[k].cursor <= steps[i - 1].cursor;
    assert forall k :: i <= k < |steps| ==> steps[i].cursor <= steps[k].cursor;
    var s :| s in steps && s.cursor == r.cursor;
  }

  /** What is one's own does not depend on the state. */
  lemma SameOwn(mls: Mls, kind: Record -> Kind, gap: seq<Record>, base: nat, line: Lineage, g: Group, h: Group)
    requires h.pending == g.pending && h.messages == g.messages
    ensures KnowsItsOwn(mls, kind, gap, base, line, g) <==> KnowsItsOwn(mls, kind, gap, base, line, h)
  {
  }

  lemma SettlesOnlyCompleted(b: Batch, budget: nat)
    ensures Settle(b, budget).0.state == b.group.state && (Settle(b, budget).1 ==> b.completed)
  {
  }

  /** One range of a catch-up along the line, from the step's state to the settled group. */
  lemma LineRange(
    mls: Mls, kind: Record -> Kind, budget: nat, line: Lineage,
    start: Group, g: Group, steps: seq<ChainStep>, gap: seq<Record>, i: nat)
    requires NeverGoesBack(mls) && Ascending(gap) && SortedByCursor(steps) && OnLine(start.state, line)
    requires Steady(mls, kind, gap, start.state.epoch, line) && Snapshots(kind, gap, start.state.epoch, line, steps)
    requires i <= |Usable(steps)|
    requires CommitsUpTo(kind, gap, start.fetchCursor) == 0 && KnowsItsOwn(mls, kind, gap, start.state.epoch, line, g)
    ensures var base, range, s := start.state.epoch, RangeAt(start.fetchCursor, steps, gap, i), StateFor(start, steps, i);
            var first := ReceiveAll(mls, g.(state := s), range);
            var tried, sealed := TriedIn(mls, g.(state := s), range), SealedIn(kind, gap, base, line, range);
            var (settled, ok) := Settle(first, budget);
            && s.epoch == base + CommitsUpTo(kind, gap, Boundary(start.fetchCursor, steps, i).value)
            && tried <= sealed && |tried| == |first.handled| + (if first.completed then 0 else 1)
            && (first.completed ==> tried == sealed)
            && KnowsItsOwn(mls, kind, gap, base, line, settled)
            && (ok ==> first.completed && settled.state.epoch == s.epoch + Lifts(kind, range))
  {
    var base, lo, hi := start.state.epoch, Boundary(start.fetchCursor, steps, i).value, Boundary(start.fetchCursor, steps, i + 1);
    var h := g.(state := StateFor(start, steps, i));
    StateMatches(kind, line, start, steps, gap, i);
    forall r | r in gap && kind(r).OwnLeafCommit? && Within(r, lo, hi)
      ensures hi == Some(r.cursor)
    {
      OwnCommitsEndRanges(kind, gap, base, line, start.fetchCursor, steps, i, r);
    }
    SameOwn(mls, kind, gap, base, line, g, h);
    hide Steady, Snapshots, ReceiveAll, Settle, SealedIn, TriedIn, OnLine, KnowsItsOwn, NothingNewOwn, Usable, Range,
         SortedByCursor, Ascending, StateFor, CommitsUpTo, Lifts;
    RangeTriedRightly(mls, kind, gap, base, line, h, lo, hi);
    var first := ReceiveAll(mls, h, Range(gap, lo, hi));
    SettlesOnlyCompleted(first, budget);
    SettlingAddsNoOwn(first, budget);
    StillKnowsItsOwn(mls, kind, gap, base, line, first.group, Settle(first, budget).0);
  }

  lemma {:induction false} RangesTriedRightly(
    mls: Mls, kind: Record -> Kind, budget: nat -> nat, line: Lineage,
    start: Group, g: Group, steps: seq<ChainStep>, gap: seq<Record>, i: nat)
    requires NeverGoesBack(mls) && Ascending(gap) && SortedByCursor(steps) && OnLine(start.state, line)
    requires Steady(mls, kind, gap, start.state.epoch, line) && Snapshots(kind, gap, start.state.epoch, line, steps)
    requires i <= |Usable(steps)| + 1
    requires CommitsUpTo(kind, gap, start.fetchCursor) == 0 && KnowsItsOwn(mls, kind, gap, start.state.epoch, line, g)
    ensures var tried := TriedFrom(mls, budget, start, g, steps, gap, i);
            var b := CatchUpFrom(mls, budget, start, g, steps, gap, i);
            var sealed := SealedIn(kind, gap, start.state.epoch, line,
                                   Replayed(start.fetchCursor, steps, gap, i, |Usable(steps)| + 1));
            && tried <= sealed && |b.handled| <= |tried| <= |b.handled| + 1
            && (b.completed ==> tried == sealed && |tried| == |b.handled|)
    decreases |Usable(steps)| + 1 - i
  {
    var base, n := start.state.epoch, |Usable(steps)|;
    hide Steady, Snapshots, ReceiveAll, Settle, SealedIn, TriedIn, OnLine, KnowsItsOwn, Usable, RangeAt,
         SortedByCursor, Ascending, StateFor, CommitsUpTo, Lifts, NeverGoesBack;
    if i <= n {
      var range := RangeAt(start.fetchCursor, steps, gap, i);
      SealedInAppend(kind, gap, base, line, range, Replayed(start.fetchCursor, steps, gap, i + 1, n + 1));
      if range == [] {
        assert Replayed(start.fetchCursor, steps, gap, i, n + 1) == Replayed(start.fetchCursor, steps, gap, i + 1, n + 1);
        RangesTriedRightly(mls, kind, budget, line, start, g, steps, gap, i + 1);
      } else {
        LineRange(mls, kind, budget(i), line, start, g, steps, gap, i);
        var settled := Settle(ReceiveAll(mls, g.(state := StateFor(start, steps, i)), range), budget(i)).0;
        RangesTriedRightly(mls, kind, budget, line, start, settled, steps, gap, i + 1);
      }
    } else {
      NothingSealed(kind, gap, base, line);
    }
  }

  lemma NothingSealed(kind: Record -> Kind, gap: seq<Record>, base: nat, line: Lineage)
    ensures SealedIn(kind, gap, base, line, []) == []
  {
  }

  /** The state a range starts from is the line's state at the range's lower boundary. */
  lemma StateMatches(kind: Record -> Kind, line: Lineage, start: Group, steps: seq<ChainStep>, gap: seq<Record>, i: nat)
    requires OnLine(start.state, line) && Snapshots(kind, gap, start.state.epoch, line, steps)
    requires i <= |Usable(steps)| && CommitsUpTo(kind, gap, start.fetchCursor) == 0
    ensures OnLine(StateFor(start, steps, i), line)
    ensures StateFor(start, steps, i).epoch
         == start.state.epoch + CommitsUpTo(kind, gap, Boundary(start.fetchCursor, steps, i).value)
  {
    if i > 0 {
      assert Usable(steps)[i - 1] in Usable(steps);
    }
  }

  /** A decodable chain replays the whole gap, any other one an initial part of it. */
  lemma ReplayedIsPrefix(local: nat, steps: seq<ChainStep>, gap: seq<Record>)
    requires SortedByCursor(steps) && Ascending(gap) && (forall r | r in gap :: r.cursor > local)
    ensures Replayed(local, steps, gap, 0, |Usable(steps)| + 1) <= gap
    ensures |Usable(steps)| == |steps| ==> Replayed(local, steps, gap, 0, |Usable(steps)| + 1) == gap
  {
    if |Usable(steps)| == |steps| {
      NothingIsLost(local, steps, gap);
    } else {
      LostBeyondUndecodable(local, steps, gap);
      RangeIsPrefix(gap, local, steps[|Usable(steps)|].cursor);
    }
    hide Replayed, Usable, SortedByCursor, Ascending, Range;
  }

  lemma {:induction false} RangeIsPrefix(gap: seq<Record>, lo: nat, cut: nat)
    requires Ascending(gap) && forall r | r in gap :: r.cursor > lo
    ensures Range(gap, lo, Some(cut)) <= gap
  {
    if gap != [] {
      if gap[0].cursor <= cut {
        RangeIsPrefix(gap[1..], lo, cut);
      } else {
        assert forall r | r in gap :: r.cursor >= gap[0].cursor;
        FilterNone(gap, (r: Record) => Within(r, lo, Some(cut)));
      }
    }
  }

  /**
   * When the usable steps are snapshots of the group's line in cursor order and
   * every Commit of the shared leaf has a step, each message that is tried is
   * tried under the very state it was sealed in - not just one of the same epoch
   * number - whoever moved the group there, whatever the group has sent or queued
   * itself, and whatever throws. The messages tried are an initial part of the
   * gap: those handled and at most one that threw; all that the chain lets be
   * replayed if the catch-up runs to its end.
   */
  lemma TriedInTheRightEpoch(
    mls: Mls, kind: Record -> Kind, budget: nat -> nat, line: Lineage, g: Group, steps: seq<ChainStep>, gap: seq<Record>)
    requires NeverGoesBack(mls) && Ascending(gap) && SortedByCursor(steps) && OnLine(g.state, line)
    requires Steady(mls, kind, gap, g.state.epoch, line) && Snapshots(kind, gap, g.state.epoch, line, steps)
    requires KnowsItsOwn(mls, kind, gap, g.state.epoch, line, g) && forall r | r in gap :: r.cursor > g.fetchCursor
    ensures var tried := TriedFrom(mls, budget, g, g, steps, gap, 0);
            var b := CatchUpFrom(mls, budget, g, g, steps, gap, 0);
            var replayed := Replayed(g.fetchCursor, steps, gap, 0, |Usable(steps)| + 1);
            && tried <= SealedIn(kind, gap, g.state.epoch, line, gap)
            && |b.handled| <= |tried| <= |b.handled| + 1
            && (b.completed ==> |tried| == |b.handled| && tried == SealedIn(kind, gap, g.state.epoch, line, replayed))
            && (b.completed && |Usable(steps)| == |steps| ==> tried == SealedIn(kind, gap, g.state.epoch, line, gap))
  {
    hide KnowsItsOwn, Steady, Snapshots, OnLine, Replayed, Usable, SealedIn, TriedFrom, CatchUpFrom, SortedByCursor, Ascending;
    NoCommitBetween(kind, gap, 0, g.fetchCursor);
    NoCommitAtZero(kind, gap);
    RangesTriedRightly(mls, kind, budget, line, g, g, steps, gap, 0);
    ReplayedIsPrefix(g.fetchCursor, steps, gap);
    var replayed := Replayed(g.fetchCursor, steps, gap, 0, |Usable(steps)| + 1);
    SealedInAppend(kind, gap, g.state.epoch, line, replayed, gap[|replayed|..]);
    assert replayed + gap[|replayed|..] == gap;
  }

  /** Nothing is asked of states off the line: how a library treats another branch's states makes no difference. */
  lemma OtherBranchesAreFree(
    mls: Mls, other: Mls, kind: Record -> Kind, gap: seq<Record>, base: nat, line: Lineage, g: Group)
    requires forall s, w | OnLine(s, line) :: mls.open(s, w) == other.open(s, w)
    requires forall s, o | OnLine(s, line) :: mls.process(s, o) == other.process(s, o)
    ensures Steady(mls, kind, gap, base, line) <==> Steady(other, kind, gap, base, line)
    ensures KnowsItsOwn(mls, kind, gap, base, line, g) <==> KnowsItsOwn(other, kind, gap, base, line, g)
  {
    hide OnLine, OutboundAt, EpochBefore;
    forall s, r | OnLine(s, line)
      ensures Stays(mls, line, s, r) == Stays(other, line, s, r) && MovesOn(mls, line, s, r) == MovesOn(other, line, s, r)
    {
      assert mls.open(s, r.wire) == other.open(s, r.wire);
    }
    forall epoch, p, r
      ensures OwnCommit(mls, kind, epoch, line, p, r) == OwnCommit(other, kind, epoch, line, p, r)
    {
      OwnAlike(mls, other, kind, epoch, line, p, r);
    }
    hide OwnCommit, Stays, MovesOn;
  }

  lemma OwnAlike(mls: Mls, other: Mls, kind: Record -> Kind, epoch: nat, line: Lineage, p: PendingCommit, r: Record)
    requires forall s, w | OnLine(s, line) :: mls.open(s, w) == other.open(s, w)
    requires forall s, o | OnLine(s, line) :: mls.process(s, o) == other.process(s, o)
    ensures OwnCommit(mls, kind, epoch, line, p, r) == OwnCommit(other, kind, epoch, line, p, r)
  {
    hide OnLine;
    forall s | OnLine(s, line)
      ensures mls.open(s, r.wire) == other.open(s, r.wire)
      ensures StaysUnder(mls, line, s, p.commit) == StaysUnder(other, line, s, p.commit)
    {
      assert mls.process(s, p.commit) == other.process(s, p.commit);
    }
    hide StaysUnder;
  }

  lemma {:induction false} NoCommitAtZero(kind: Record -> Kind, gap: seq<Record>)
    requires forall r | r in gap :: r.cursor > 0
    ensures CommitsUpTo(kind, gap, 0) == 0
  {
    if gap != [] {
      NoCommitAtZero(kind, gap[1..]);
    }
  }
}
