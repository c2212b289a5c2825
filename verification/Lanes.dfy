/**
 * One lane per group: operations on a group run one after the other, each
 * waiting on the promise of the one that was registered before it. Promises are
 * modelled by who waits on whom; when a waiting operation is resumed after its
 * promise resolves is left open.
 */
module Lanes {
  import opened Base

  type Alias = nat

  datatype Phase = Waiting | Running | Done

  /** One operation: the lane it found registered for its alias, and how far it has come. */
  datatype Lane = Lane(alias: Alias, previous: Option<nat>, phase: Phase)

  /** All operations in arrival order, the lane registered for each alias, and the bodies in the order they started. */
  datatype Table = Table(lanes: seq<Lane>, current: map<Alias, nat>, started: seq<nat>)

  datatype Event = Arrive(alias: Alias) | Start(lane: nat) | Finish(lane: nat, failed: bool)

  /** A lane's promise resolves once its operation has released it and the lane before it has resolved. */
  predicate Resolved(lanes: seq<Lane>, i: nat)
    requires i < |lanes|
    decreases i
  {
    && lanes[i].phase.Done?
    && (lanes[i].previous.Some? && lanes[i].previous.value < i ==> Resolved(lanes, lanes[i].previous.value))
  }

  predicate CanStart(t: Table, i: nat) {
    && i < |t.lanes| && t.lanes[i].phase.Waiting?
    && (t.lanes[i].previous.Some? && t.lanes[i].previous.value < i ==> Resolved(t.lanes, t.lanes[i].previous.value))
  }

  predicate Enabled(t: Table, e: Event) {
    match e
    case Arrive(_) => true
    case Start(i) => CanStart(t, i)
    case Finish(i, _) => i < |t.lanes| && t.lanes[i].phase.Running?
  }

  function Registered(t: Table, alias: Alias): Option<nat> {
    if alias in t.current then Some(t.current[alias]) else None
  }

  function Occur(t: Table, e: Event): Table
    requires Enabled(t, e)
  {
    match e
    case Arrive(alias) =>
      Table(t.lanes + [Lane(alias, Registered(t, alias), Waiting)], t.current[alias := |t.lanes|], t.started)
    case Start(i) =>
      t.(lanes := t.lanes[i := t.lanes[i].(phase := Running)], started := t.started + [i])
    case Finish(i, _) =>
      var alias := t.lanes[i].alias;
      Table(t.lanes[i := t.lanes[i].(phase := Done)],
            if Registered(t, alias) == Some(i) then t.current - {alias} else t.current,
            t.started)
  }

  class LaneTable {
    var lanes: seq<Lane>
    var current: map<Alias, nat>
    ghost var started: seq<nat>

    ghost function View(): Table
      reads this
    {
      Table(lanes, current, started)
    }

    constructor ()
      ensures View() == Table([], map[], [])
    {
      lanes, current, started := [], map[], [];
    }

    /** Register an operation; it waits on whatever lane its alias had. */
    method Register(alias: Alias) returns (lane: nat)
      modifies this
      ensures lane == |old(lanes)| && View() == Occur(old(View()), Arrive(alias))
    {
      var previous := if alias in current then Some(current[alias]) else None;
      lane := |lanes|;
      lanes := lanes + [Lane(alias, previous, Waiting)];
      current := current[alias := lane];
    }

    /** The awaited promise has resolved: the body begins. */
    method Resume(lane: nat)
      requires CanStart(View(), lane)
      modifies this
      ensures View() == Occur(old(View()), Start(lane))
    {
      lanes := lanes[lane := lanes[lane].(phase := Running)];
      started := started + [lane];
    }

    /** The body has ended, by returning or by throwing. */
    method Release(lane: nat, failed: bool)
      requires Enabled(View(), Finish(lane, failed))
      modifies this
      ensures View() == Occur(old(View()), Finish(lane, failed))
    {
      var alias := lanes[lane].alias;
      lanes := lanes[lane := lanes[lane].(phase := Done)];
      if alias in current && current[alias] == lane {
        current := current - {alias};
      }
    }

    /** The snapshot is taken in the very turn in which the table is found empty. */
    method IdleForExport() returns (idle: bool)
      requires Orderly(View())
      ensures idle <==> forall i | 0 <= i < |lanes| :: lanes[i].phase.Done?
    {
      idle := |current| == 0;
      EmptyExactlyWhenDone(View());
    }
  }

  // ---------------------------------------------------------------------
  // What every event keeps
  // ---------------------------------------------------------------------

  predicate SameAlias(lanes: seq<Lane>, i: nat, j: nat)
    requires i < |lanes| && j < |lanes|
  {
    lanes[i].alias == lanes[j].alias
  }

  /** Every earlier operation on the alias of `j` has ended. */
  ghost predicate AllBeforeDone(lanes: seq<Lane>, j: nat)
    requires j < |lanes|
  {
    forall i: nat | i < j && SameAlias(lanes, i, j) :: lanes[i].phase.Done?
  }

  /** An operation waits on the one just before it on its alias, or on nothing when all before it had ended. */
  ghost predicate LinkedAt(lanes: seq<Lane>, j: nat)
    requires j < |lanes|
  {
    match lanes[j].previous
    case None => AllBeforeDone(lanes, j)
    case Some(p) => p < j && SameAlias(lanes, p, j) && forall i: nat | p < i < j :: !SameAlias(lanes, i, j)
  }

  /** The registered lane of an alias is its latest one and has not ended; without one, all have ended. */
  ghost predicate CurrentAt(t: Table, alias: Alias) {
    if alias in t.current then
      && t.current[alias] < |t.lanes| && t.lanes[t.current[alias]].alias == alias
      && !t.lanes[t.current[alias]].phase.Done?
      && forall i: nat | t.current[alias] < i < |t.lanes| :: t.lanes[i].alias != alias
    else
      forall i: nat | i < |t.lanes| && t.lanes[i].alias == alias :: t.lanes[i].phase.Done?
  }

  ghost predicate StartedInOrder(t: Table) {
    && (forall p | 0 <= p < |t.started| :: t.started[p] < |t.lanes|)
    && (forall i: nat | i < |t.lanes| :: i in t.started <==> !t.lanes[i].phase.Waiting?)
    && forall p, q | 0 <= p < q < |t.started| :: SameAlias(t.lanes, t.started[p], t.started[q]) ==> t.started[p] < t.started[q]
  }

  ghost predicate Orderly(t: Table) {
    && (forall j: nat | j < |t.lanes| :: LinkedAt(t.lanes, j))
    && (forall j: nat | j < |t.lanes| && !t.lanes[j].phase.Waiting? :: AllBeforeDone(t.lanes, j))
    && (forall alias :: CurrentAt(t, alias))
    && StartedInOrder(t)
  }

  /** A lane has resolved exactly when it and every earlier lane of its alias have ended. */
  lemma {:induction false} ResolvedExactlyWhenDone(t: Table, i: nat)
    requires Orderly(t) && i < |t.lanes|
    ensures Resolved(t.lanes, i) <==> t.lanes[i].phase.Done? && AllBeforeDone(t.lanes, i)
    decreases i
  {
    assert LinkedAt(t.lanes, i);
    if t.lanes[i].previous.Some? {
      ResolvedExactlyWhenDone(t, t.lanes[i].previous.value);
    }
  }

  /**
   * A waiting body may start exactly when every earlier operation on its own
   * alias has ended: operations on other aliases never hold it up, and a failed
   * one counts as ended like any other.
   */
  lemma StartsExactlyWhenAliasIsFree(t: Table, i: nat)
    requires Orderly(t) && i < |t.lanes| && t.lanes[i].phase.Waiting?
    ensures CanStart(t, i) <==> AllBeforeDone(t.lanes, i)
  {
    assert LinkedAt(t.lanes, i);
    if t.lanes[i].previous.Some? {
      var p := t.lanes[i].previous.value;
      ResolvedExactlyWhenDone(t, p);
    }
  }

  lemma ArriveKeeps(t: Table, alias: Alias)
    requires Orderly(t)
    ensures Orderly(Occur(t, Arrive(alias)))
  {
    var u := Occur(t, Arrive(alias));
    assert CurrentAt(t, alias);
    forall j: nat | j < |u.lanes|
      ensures LinkedAt(u.lanes, j)
      ensures !u.lanes[j].phase.Waiting? ==> AllBeforeDone(u.lanes, j)
    {
      if j < |t.lanes| {
        assert LinkedAt(t.lanes, j);
        assert !t.lanes[j].phase.Waiting? ==> AllBeforeDone(t.lanes, j);
        assert forall i: nat | i < j :: SameAlias(u.lanes, i, j) == SameAlias(t.lanes, i, j);
      }
    }
    forall a
      ensures CurrentAt(u, a)
    {
      assert CurrentAt(t, a);
    }
  }

  lemma PhaseChangeKeepsLinks(lanes: seq<Lane>, i: nat, phase: Phase, j: nat)
    requires i < |lanes| && j < |lanes| && LinkedAt(lanes, j) && !lanes[i].phase.Done?
    ensures var after := lanes[i := lanes[i].(phase := phase)];
            LinkedAt(after, j) && (AllBeforeDone(lanes, j) ==> AllBeforeDone(after, j))
  {
    var after := lanes[i := lanes[i].(phase := phase)];
    assert forall k: nat | k < |lanes| :: SameAlias(after, k, j) == SameAlias(lanes, k, j);
  }

  lemma StartKeeps(t: Table, i: nat)
    requires Orderly(t) && CanStart(t, i)
    ensures Orderly(Occur(t, Start(i)))
  {
    var u := Occur(t, Start(i));
    StartsExactlyWhenAliasIsFree(t, i);
    forall j: nat | j < |u.lanes|
      ensures LinkedAt(u.lanes, j)
      ensures !u.lanes[j].phase.Waiting? ==> AllBeforeDone(u.lanes, j)
    {
      PhaseChangeKeepsLinks(t.lanes, i, Running, j);
    }
    forall a
      ensures CurrentAt(u, a)
    {
      assert CurrentAt(t, a);
    }
    StartedGrows(t, i);
  }

  lemma StartedGrows(t: Table, i: nat)
    requires Orderly(t) && CanStart(t, i) && AllBeforeDone(t.lanes, i)
    ensures StartedInOrder(Occur(t, Start(i)))
  {
    var u := Occur(t, Start(i));
    forall p, q | 0 <= p < q < |u.started| && SameAlias(u.lanes, u.started[p], u.started[q])
      ensures u.started[p] < u.started[q]
    {
      if q == |t.started| {
        var k := t.started[p];
        assert k in t.started && SameAlias(t.lanes, k, i);
        assert AllBeforeDone(t.lanes, k) && SameAlias(t.lanes, i, k);
      } else {
        assert SameAlias(t.lanes, t.started[p], t.started[q]);
      }
    }
  }

  lemma FinishKeeps(t: Table, i: nat, failed: bool)
    requires Orderly(t) && Enabled(t, Finish(i, failed))
    ensures Orderly(Occur(t, Finish(i, failed)))
  {
    var u := Occur(t, Finish(i, failed));
    forall j: nat | j < |u.lanes|
      ensures LinkedAt(u.lanes, j)
      ensures !u.lanes[j].phase.Waiting? ==> AllBeforeDone(u.lanes, j)
    {
      PhaseChangeKeepsLinks(t.lanes, i, Done, j);
    }
    forall a
      ensures CurrentAt(u, a)
    {
      assert CurrentAt(t, a);
      if a == t.lanes[i].alias && Registered(t, a) == Some(i) {
        forall k: nat | k < |t.lanes| && t.lanes[k].alias == a
          ensures u.lanes[k].phase.Done?
        {
          assert AllBeforeDone(t.lanes, i);
          assert k < i ==> SameAlias(t.lanes, k, i);
        }
      }
    }
  }

  lemma EventKeeps(t: Table, e: Event)
    requires Orderly(t) && Enabled(t, e)
    ensures Orderly(Occur(t, e))
  {
    match e {
      case Arrive(alias) => ArriveKeeps(t, alias);
      case Start(i) => StartKeeps(t, i);
      case Finish(i, failed) => FinishKeeps(t, i, failed);
    }
  }

  // ---------------------------------------------------------------------
  // Whole runs
  // ---------------------------------------------------------------------

  predicate AllEnabled(t: Table, events: seq<Event>)
    decreases events
  {
    events == [] || (Enabled(t, events[0]) && AllEnabled(Occur(t, events[0]), events[1..]))
  }

  function OccurAll(t: Table, events: seq<Event>): Table
    requires AllEnabled(t, events)
    decreases events
  {
    if events == [] then t else OccurAll(Occur(t, events[0]), events[1..])
  }

  lemma {:induction false} RunKeeps(t: Table, events: seq<Event>)
    requires Orderly(t) && AllEnabled(t, events)
    ensures Orderly(OccurAll(t, events))
    decreases events
  {
    hide Orderly, Occur;
    if events != [] {
      EventKeeps(t, events[0]);
      RunKeeps(Occur(t, events[0]), events[1..]);
    }
  }

  /**
   * Whatever the order of arrivals, resumptions, endings and failures: two
   * bodies on one alias never run together, bodies on one alias start in the
   * order they arrived and none is overtaken, and an alias is registered exactly
   * while one of its operations has not ended.
   */
  lemma LanesAreSafe(events: seq<Event>)
    requires AllEnabled(Table([], map[], []), events)
    ensures var t := OccurAll(Table([], map[], []), events);
            && (forall i: nat, j: nat | i < j < |t.lanes| && SameAlias(t.lanes, i, j) ::
                  !(t.lanes[i].phase.Running? && t.lanes[j].phase.Running?)
                  && (j in t.started ==> i in t.started && t.lanes[i].phase.Done?))
            && (forall p | 0 <= p < |t.started| :: t.started[p] < |t.lanes|)
            && (forall p, q | 0 <= p < q < |t.started| ::
                  SameAlias(t.lanes, t.started[p], t.started[q]) ==> t.started[p] < t.started[q])
            && (forall alias :: alias in t.current <==>
                  exists i: nat :: i < |t.lanes| && t.lanes[i].alias == alias && !t.lanes[i].phase.Done?)
  {
    var t := OccurAll(Table([], map[], []), events);
    assert Orderly(Table([], map[], []));
    RunKeeps(Table([], map[], []), events);
    forall i: nat, j: nat | i < j < |t.lanes| && SameAlias(t.lanes, i, j) && !t.lanes[j].phase.Waiting?
      ensures t.lanes[i].phase.Done?
    {
      assert AllBeforeDone(t.lanes, j);
    }
    forall alias
      ensures alias in t.current <==>
                exists i: nat :: i < |t.lanes| && t.lanes[i].alias == alias && !t.lanes[i].phase.Done?
    {
      assert CurrentAt(t, alias);
    }
  }

  /** The table is empty exactly when every operation has ended: a snapshot taken then sees no running body. */
  lemma EmptyExactlyWhenDone(t: Table)
    requires Orderly(t)
    ensures |t.current| == 0 <==> forall i: nat | i < |t.lanes| :: t.lanes[i].phase.Done?
  {
    if |t.current| == 0 {
      forall i: nat | i < |t.lanes|
        ensures t.lanes[i].phase.Done?
      {
        assert CurrentAt(t, t.lanes[i].alias);
      }
    } else {
      var alias :| alias in t.current;
      assert CurrentAt(t, alias);
    }
  }
}
