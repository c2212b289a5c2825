/**
 * A client's watch of one group: fetch and ingest once, subscribe from where
 * that led, then ingest the stream message by message.
 */
module GroupWatch {
  import opened Base
  import opened Delivery

  /** The cursor ingestion reaches from `cursor` when nothing else moves it. */
  function Reach(cursor: nat, records: seq<Rec>): nat {
    if records == [] then cursor
    else Max(Reach(cursor, records[..|records| - 1]), records[|records| - 1].cursor)
  }

  lemma {:induction false} ReachAppend(cursor: nat, a: seq<Rec>, b: seq<Rec>)
    ensures Reach(cursor, a + b) == Reach(Reach(cursor, a), b)
  {
    if b == [] {
      assert a + b == a;
    } else {
      assert (a + b)[..|a + b| - 1] == a + b[..|b| - 1];
      ReachAppend(cursor, a, b[..|b| - 1]);
    }
  }

  /** Ingestion never moves the cursor back: it ends on the greatest cursor there was. */
  lemma {:induction false} ReachIsGreatest(cursor: nat, records: seq<Rec>)
    ensures var end := Reach(cursor, records);
            && cursor <= end && (forall r | r in records :: r.cursor <= end)
            && (end == cursor || exists r :: r in records && r.cursor == end)
  {
    if records != [] {
      var n := |records| - 1;
      ReachIsGreatest(cursor, records[..n]);
      assert forall r :: r in records <==> r in records[..n] || r == records[n];
    }
  }

  /** Fetching everything past a cursor reaches the end of the log, or stays where it was. */
  lemma {:induction false} FetchReachesEnd(log: seq<Rec>, gid: Gid, after: nat)
    requires DenseLog(log, gid)
    ensures Reach(after, Past(log, after)) == CursorAfter(log, after)
  {
    if after < |log| {
      var short := log[..|log| - 1];
      FetchReachesEnd(short, gid, after);
      assert Past(log, after)[..|log| - after - 1] == Past(short, after);
    }
  }

  const ABORTED_PREFIX := "Open stream aborted: "

  class Watch {
    var cursor: nat
    var delivered: seq<Rec>
    var subscribed: bool
    var expectedAbortReason: Option<string>

    constructor (cursor: nat)
      ensures this.cursor == cursor && delivered == [] && !subscribed && expectedAbortReason == None
    {
      this.cursor, delivered, subscribed, expectedAbortReason := cursor, [], false, None;
    }

    method Ingest(records: seq<Rec>)
      modifies this`cursor, this`delivered
      ensures delivered == old(delivered) + records && cursor == Reach(old(cursor), records)
    {
      var i := 0;
      assert records[..0] == [];
      while i < |records|
        invariant 0 <= i <= |records|
        invariant delivered == old(delivered) + records[..i] && cursor == Reach(old(cursor), records[..i])
      {
        assert records[..i + 1][..i] == records[..i];
        delivered := delivered + [records[i]];
        cursor := Max(cursor, records[i].cursor);
        i := i + 1;
      }
      assert records[..i] == records;
    }

    /** Catch up, then subscribe; the answer is the cursor subscribed from. */
    method Begin(fetched: seq<Rec>) returns (after: nat)
      modifies this
      ensures delivered == old(delivered) + fetched && subscribed
      ensures after == cursor == Reach(old(cursor), fetched)
      ensures expectedAbortReason == old(expectedAbortReason)
    {
      Ingest(fetched);
      after := cursor;
      subscribed := true;
    }

    /** The stream, one message at a time. */
    method Stream(records: seq<Rec>)
      modifies this`cursor, this`delivered
      ensures delivered == old(delivered) + records && cursor == Reach(old(cursor), records)
    {
      var i := 0;
      assert records[..0] == [];
      while i < |records|
        invariant 0 <= i <= |records|
        invariant delivered == old(delivered) + records[..i] && cursor == Reach(old(cursor), records[..i])
      {
        ReachAppend(old(cursor), records[..i], [records[i]]);
        assert records[..i + 1] == records[..i] + [records[i]];
        Ingest([records[i]]);
        i := i + 1;
      }
      assert records[..i] == records;
    }

    /** Abort the watch. Before the subscription exists there is nothing to abort, and the request is forgotten. */
    method Abort(reason: Option<string>)
      modifies this`expectedAbortReason
      ensures expectedAbortReason == if subscribed then reason else old(expectedAbortReason)
    {
      if subscribed {
        expectedAbortReason := reason;
      }
    }

    /** The stream failed: the error is swallowed exactly when it is the abort that was asked for. */
    method Failed(detail: string) returns (rethrown: bool)
      ensures !rethrown <==> expectedAbortReason.Some? && detail == ABORTED_PREFIX + expectedAbortReason.value
    {
      if expectedAbortReason.Some? && detail == ABORTED_PREFIX + expectedAbortReason.value {
        return false;
      }
      return true;
    }
  }

  /**
   * A whole watch: the messages of the first fetch, then those of the live
   * subscription taken from the cursor the fetch led to, are the log past the
   * starting cursor, each once and in order, whatever is posted meanwhile.
   */
  method WatchGroup(fetched: Logs, subscribed: Logs, gid: Gid, after: nat, events: seq<Event>) returns (handed: seq<Rec>)
    requires DenseLogs(fetched) && DenseLogs(subscribed) && LogOf(fetched, gid) <= LogOf(subscribed, gid)
    requires var wanted := [Wanted(gid, CursorAfter(LogOf(fetched, gid), after))];
             HappenAll(wanted, Opening(subscribed, wanted), events).stage.Live?
    ensures var wanted := [Wanted(gid, CursorAfter(LogOf(fetched, gid), after))];
            handed == Past(LogOf(HappenAll(wanted, Opening(subscribed, wanted), events).logs, gid), after)
  {
    var watch := new Watch(after);
    assert DenseLog(LogOf(fetched, gid), gid);
    FetchReachesEnd(LogOf(fetched, gid), gid, after);
    hide HappenAll, OfGroup, DenseLogs, DenseLog, Opening, Past, LogOf, CursorAfter;
    var from := watch.Begin(Past(LogOf(fetched, gid), after));
    var wanted := [Wanted(gid, from)];
    WatchDeliversSuffixOnce(fetched, subscribed, gid, after, events);
    watch.Stream(OfGroup(HappenAll(wanted, Opening(subscribed, wanted), events).sub.emitted, gid));
    return watch.delivered;
  }
}
