/**
 * The coordinator's delivery of group messages to subscribers: one log per
 * group, a backlog replayed to every new subscriber, and live records buffered
 * while the replay runs.
 */
module Delivery {
  import opened Base

  type Gid = nat

  datatype Rec = Rec(gid: Gid, cursor: nat, payload: nat)

  type Logs = map<Gid, seq<Rec>>

  datatype Wanted = Wanted(gid: Gid, after: nat)

  function LogOf(logs: Logs, gid: Gid): seq<Rec> { if gid in logs then logs[gid] else [] }

  function NextRecord(logs: Logs, gid: Gid, payload: nat): Rec { Rec(gid, |LogOf(logs, gid)| + 1, payload) }

  function AppendTo(logs: Logs, gid: Gid, payload: nat): Logs {
    logs[gid := LogOf(logs, gid) + [NextRecord(logs, gid, payload)]]
  }

  /** The log entries past a cursor. */
  function Past(log: seq<Rec>, after: nat): seq<Rec> { if after <= |log| then log[after..] else [] }

  /** Everything past each wanted cursor, group by group. */
  function Backlog(logs: Logs, wanted: seq<Wanted>): seq<Rec> {
    if wanted == [] then [] else Past(LogOf(logs, wanted[0].gid), wanted[0].after) + Backlog(logs, wanted[1..])
  }

  function OfGroup(records: seq<Rec>, gid: Gid): seq<Rec> { Filter(records, (r: Rec) => r.gid == gid) }

  /**
   * A subscriber: the last cursor emitted for each group, the live records held
   * back while the backlog is replayed, and what has been given to its queue.
   */
  datatype Subscriber = Subscriber(cursors: map<Gid, nat>, buffer: seq<Rec>, replaying: bool, emitted: seq<Rec>)

  function LastEmitted(s: Subscriber, gid: Gid): nat { if gid in s.cursors then s.cursors[gid] else 0 }

  function EmitIfNew(s: Subscriber, r: Rec): Subscriber {
    if r.cursor <= LastEmitted(s, r.gid) then s
    else s.(cursors := s.cursors[r.gid := r.cursor], emitted := s.emitted + [r])
  }

  function EmitAll(s: Subscriber, records: seq<Rec>): Subscriber
    decreases records
  {
    if records == [] then s else EmitAll(EmitIfNew(s, records[0]), records[1..])
  }

  function PushLive(s: Subscriber, r: Rec): Subscriber {
    if s.replaying then s.(buffer := s.buffer + [r]) else EmitIfNew(s, r)
  }

  function Flush(s: Subscriber): Subscriber { EmitAll(s.(replaying := false, buffer := []), s.buffer) }

  function InitialCursors(wanted: seq<Wanted>): map<Gid, nat> {
    if wanted == [] then map[]
    else InitialCursors(wanted[..|wanted| - 1])[wanted[|wanted| - 1].gid := wanted[|wanted| - 1].after]
  }

  // ---------------------------------------------------------------------
  // One subscription, interleaved with posts
  // ---------------------------------------------------------------------

  /** How far the subscription has come: groups registered, backlog read and partly replayed, or live. */
  datatype Stage = Registering(count: nat) | Replaying(rest: seq<Rec>) | Live

  datatype Scene = Scene(logs: Logs, sub: Subscriber, stage: Stage)

  datatype Event = Post(gid: Gid, payload: nat) | Proceed

  predicate Registered(wanted: seq<Wanted>, stage: Stage, gid: Gid) {
    var upTo := if stage.Registering? then Min(stage.count, |wanted|) else |wanted|;
    exists w :: w in wanted[..upTo] && w.gid == gid
  }

  /**
   * `Post` is a message posted by anyone at any point; `Proceed` is the
   * subscription's next own step: register one more group, read the backlog,
   * replay one record of it, or, in one go, end the replay and flush the buffer.
   */
  function Happen(wanted: seq<Wanted>, c: Scene, e: Event): Scene {
    match e
    case Post(gid, payload) =>
      var r := NextRecord(c.logs, gid, payload);
      Scene(AppendTo(c.logs, gid, payload), if Registered(wanted, c.stage, gid) then PushLive(c.sub, r) else c.sub, c.stage)
    case Proceed =>
      match c.stage
      case Registering(n) =>
        if n < |wanted| then c.(stage := Registering(n + 1)) else c.(stage := Replaying(Backlog(c.logs, wanted)))
      case Replaying(rest) =>
        if rest != [] then Scene(c.logs, EmitIfNew(c.sub, rest[0]), Replaying(rest[1..]))
        else Scene(c.logs, Flush(c.sub), Live)
      case Live => c
  }

  function HappenAll(wanted: seq<Wanted>, c: Scene, events: seq<Event>): Scene
    decreases events
  {
    if events == [] then c else HappenAll(wanted, Happen(wanted, c, events[0]), events[1..])
  }

  function Opening(logs: Logs, wanted: seq<Wanted>): Scene {
    Scene(logs, Subscriber(InitialCursors(wanted), [], true, []), Registering(0))
  }

  ghost predicate DenseLog(log: seq<Rec>, gid: Gid) {
    forall i :: 0 <= i < |log| ==> log[i].gid == gid && log[i].cursor == i + 1
  }

  ghost predicate DenseLogs(logs: Logs) { forall gid :: DenseLog(LogOf(logs, gid), gid) }

  ghost predicate DistinctGroups(wanted: seq<Wanted>) {
    forall i, j :: 0 <= i < j < |wanted| ==> wanted[i].gid != wanted[j].gid
  }

  // ---------------------------------------------------------------------
  // What emission does to one group
  // ---------------------------------------------------------------------

  /** A stretch of one group's log, from past `lo` up to `hi`. */
  ghost predicate Stretch(records: seq<Rec>, log: seq<Rec>, lo: nat, hi: nat) {
    lo <= hi <= |log| && records == log[lo..hi]
  }

  /** What has been emitted of a group is its log from past `after` up to the last emitted cursor. */
  ghost predicate EmittedUpTo(s: Subscriber, log: seq<Rec>, gid: Gid, after: nat) {
    var last := LastEmitted(s, gid);
    && after <= last
    && (last == after || last <= |log|)
    && OfGroup(s.emitted, gid) == (if last == after then [] else log[after..last])
  }

  lemma EmitOne(s: Subscriber, r: Rec, log: seq<Rec>, gid: Gid, after: nat)
    requires EmittedUpTo(s, log, gid, after)
    requires r.gid == gid ==> 1 <= r.cursor <= |log| && r == log[r.cursor - 1] && r.cursor <= LastEmitted(s, gid) + 1
    ensures EmittedUpTo(EmitIfNew(s, r), log, gid, after)
    ensures LastEmitted(EmitIfNew(s, r), gid) == if r.gid == gid then Max(LastEmitted(s, gid), r.cursor) else LastEmitted(s, gid)
  {
    if r.cursor > LastEmitted(s, r.gid) {
      OneMoreOfGroup(s.emitted, r, gid);
      hide OfGroup;
      if r.gid == gid {
        var last := LastEmitted(s, gid);
        assert log[after..last + 1] == (if last == after then [] else log[after..last]) + [r];
      }
    }
  }

  lemma OneMoreOfGroup(records: seq<Rec>, r: Rec, gid: Gid)
    ensures OfGroup(records + [r], gid) == if r.gid == gid then OfGroup(records, gid) + [r] else OfGroup(records, gid)
  {
    FilterAppend(records, [r], (x: Rec) => x.gid == gid);
    assert Filter([r], (x: Rec) => x.gid == gid) == if r.gid == gid then [r] else [];
  }

  /** Emitting records whose part of this group is a stretch that leaves no gap. */
  lemma {:induction false} EmitStretch(s: Subscriber, records: seq<Rec>, log: seq<Rec>, gid: Gid, after: nat, lo: nat, hi: nat)
    requires EmittedUpTo(s, log, gid, after) && DenseLog(log, gid)
    requires Stretch(OfGroup(records, gid), log, lo, hi) && (lo < hi ==> lo <= LastEmitted(s, gid))
    ensures EmittedUpTo(EmitAll(s, records), log, gid, after)
    ensures LastEmitted(EmitAll(s, records), gid) == if lo < hi then Max(LastEmitted(s, gid), hi) else LastEmitted(s, gid)
    decreases records
  {
    if records != [] {
      var r, rest := records[0], OfGroup(records[1..], gid);
      if r.gid == gid {
        assert OfGroup(records, gid) == [r] + rest;
        assert OfGroup(records, gid)[0] == log[lo] && rest == log[lo..hi][1..] == log[lo + 1..hi];
        EmitOne(s, r, log, gid, after);
        EmitStretch(EmitIfNew(s, r), records[1..], log, gid, after, lo + 1, hi);
      } else {
        assert OfGroup(records, gid) == rest;
        EmitOne(s, r, log, gid, after);
        EmitStretch(EmitIfNew(s, r), records[1..], log, gid, after, lo, hi);
      }
    }
  }

  // ---------------------------------------------------------------------
  // What every event keeps, group by group
  // ---------------------------------------------------------------------

  /** The buffer holds the group's log from past `lo` on. */
  ghost predicate Buffered(c: Scene, gid: Gid, lo: nat) {
    var log := LogOf(c.logs, gid);
    Stretch(OfGroup(c.sub.buffer, gid), log, lo, |log|)
  }

  /** What is left to replay is the log from past `a` up to `b`; together with the buffer it leaves no gap. */
  ghost predicate Covers(c: Scene, gid: Gid, lo: nat, a: nat, b: nat)
    requires c.stage.Replaying?
  {
    var last := LastEmitted(c.sub, gid);
    && Stretch(OfGroup(c.stage.rest, gid), LogOf(c.logs, gid), a, b)
    && (a < b ==> a <= last)
    && lo <= (if a < b then Max(last, b) else last)
  }

  ghost predicate OnTrack(c: Scene, w: Wanted) {
    var log := LogOf(c.logs, w.gid);
    && DenseLog(log, w.gid)
    && EmittedUpTo(c.sub, log, w.gid, w.after)
    && match c.stage
       case Registering(_) => c.sub.replaying && LastEmitted(c.sub, w.gid) == w.after && exists lo: nat :: Buffered(c, w.gid, lo)
       case Replaying(_) => c.sub.replaying && exists lo: nat, a: nat, b: nat :: Buffered(c, w.gid, lo) && Covers(c, w.gid, lo, a, b)
       case Live => !c.sub.replaying && c.sub.buffer == [] && LastEmitted(c.sub, w.gid) == Max(w.after, |log|)
  }

  lemma {:induction false} BacklogOfOthers(logs: Logs, wanted: seq<Wanted>, gid: Gid)
    requires DenseLogs(logs) && forall w | w in wanted :: w.gid != gid
    ensures OfGroup(Backlog(logs, wanted), gid) == []
  {
    if wanted != [] {
      var head := Past(LogOf(logs, wanted[0].gid), wanted[0].after);
      assert DenseLog(LogOf(logs, wanted[0].gid), wanted[0].gid);
      FilterNone(head, (r: Rec) => r.gid == gid);
      FilterAppend(head, Backlog(logs, wanted[1..]), (r: Rec) => r.gid == gid);
      BacklogOfOthers(logs, wanted[1..], gid);
    }
  }

  /** The backlog of a group is exactly its log past the wanted cursor. */
  lemma {:induction false} BacklogOfGroup(logs: Logs, wanted: seq<Wanted>, w: Wanted)
    requires DenseLogs(logs) && DistinctGroups(wanted) && w in wanted
    ensures OfGroup(Backlog(logs, wanted), w.gid) == Past(LogOf(logs, w.gid), w.after)
  {
    var head := Past(LogOf(logs, wanted[0].gid), wanted[0].after);
    var mine := (r: Rec) => r.gid == w.gid;
    assert DenseLog(LogOf(logs, wanted[0].gid), wanted[0].gid);
    FilterAppend(head, Backlog(logs, wanted[1..]), mine);
    if wanted[0] == w {
      FilterAll(head, mine);
      BacklogOfOthers(logs, wanted[1..], w.gid);
    } else {
      assert w in wanted[1..] && wanted[0].gid != w.gid;
      FilterNone(head, mine);
      BacklogOfGroup(logs, wanted[1..], w);
    }
  }

  lemma PostKeepsDense(logs: Logs, gid: Gid, payload: nat)
    requires DenseLogs(logs)
    ensures DenseLogs(AppendTo(logs, gid, payload))
  {
    forall g
      ensures DenseLog(LogOf(AppendTo(logs, gid, payload), g), g)
    {
      assert DenseLog(LogOf(logs, g), g);
    }
  }

  /** A stretch of a log stays one as the log grows. */
  lemma StretchGrows(records: seq<Rec>, log: seq<Rec>, more: seq<Rec>, lo: nat, hi: nat)
    requires Stretch(records, log, lo, hi)
    ensures Stretch(records, log + more, lo, hi)
  {
    assert (log + more)[lo..hi] == log[lo..hi];
  }

  lemma EmittedGrows(s: Subscriber, log: seq<Rec>, more: seq<Rec>, gid: Gid, after: nat)
    requires EmittedUpTo(s, log, gid, after)
    ensures EmittedUpTo(s, log + more, gid, after)
  {
    var last := LastEmitted(s, gid);
    if last != after {
      assert (log + more)[after..last] == log[after..last];
    }
  }

  /** A post to another group, before and during the replay: at most the buffer takes it. */
  lemma OtherPostHeld(wanted: seq<Wanted>, c: Scene, w: Wanted, gid: Gid, payload: nat)
    requires OnTrack(c, w) && gid != w.gid && !c.stage.Live?
    ensures OnTrack(Happen(wanted, c, Post(gid, payload)), w)
  {
    var d, r := Happen(wanted, c, Post(gid, payload)), NextRecord(c.logs, gid, payload);
    var log := LogOf(c.logs, w.gid);
    OneMoreOfGroup(c.sub.buffer, r, w.gid);
    hide OfGroup, EmittedUpTo, DenseLog, Stretch, Registered;
    EmittedAlike(c.sub, d.sub, log, w.gid, w.after);
    assert LogOf(d.logs, w.gid) == log;
    if c.stage.Registering? {
      var lo: nat :| Buffered(c, w.gid, lo);
      assert Buffered(d, w.gid, lo);
    } else {
      var lo: nat, a: nat, b: nat :| Buffered(c, w.gid, lo) && Covers(c, w.gid, lo, a, b);
      assert Buffered(d, w.gid, lo) && Covers(d, w.gid, lo, a, b);
    }
  }

  lemma OtherPostLive(wanted: seq<Wanted>, c: Scene, w: Wanted, gid: Gid, payload: nat)
    requires OnTrack(c, w) && gid != w.gid && c.stage.Live?
    ensures OnTrack(Happen(wanted, c, Post(gid, payload)), w)
  {
    hide OfGroup, DenseLog, Registered;
    EmitOne(c.sub, NextRecord(c.logs, gid, payload), LogOf(c.logs, w.gid), w.gid, w.after);
    hide EmittedUpTo;
  }

  lemma BufferGrows(c: Scene, d: Scene, gid: Gid, lo: nat, r: Rec)
    requires Buffered(c, gid, lo) && LogOf(d.logs, gid) == LogOf(c.logs, gid) + [r] && r.gid == gid
    requires d.sub.buffer == c.sub.buffer + [r]
    ensures Buffered(d, gid, lo)
  {
    var log := LogOf(c.logs, gid);
    OneMoreOfGroup(c.sub.buffer, r, gid);
    hide OfGroup;
    assert (log + [r])[lo..] == log[lo..] + [r];
    assert (log + [r])[lo..|log| + 1] == (log + [r])[lo..];
    assert log[lo..|log|] == log[lo..];
  }

  lemma OwnPostRegistering(wanted: seq<Wanted>, c: Scene, w: Wanted, payload: nat)
    requires OnTrack(c, w) && c.stage.Registering?
    requires !Registered(wanted, c.stage, w.gid) ==> OfGroup(c.sub.buffer, w.gid) == []
    ensures OnTrack(Happen(wanted, c, Post(w.gid, payload)), w)
  {
    hide OfGroup;
    var d := Happen(wanted, c, Post(w.gid, payload));
    var r, log := NextRecord(c.logs, w.gid, payload), LogOf(c.logs, w.gid);
    EmittedGrows(c.sub, log, [r], w.gid, w.after);
    EmittedAlike(c.sub, d.sub, log + [r], w.gid, w.after);
    if Registered(wanted, c.stage, w.gid) {
      var lo: nat :| Buffered(c, w.gid, lo);
      BufferGrows(c, d, w.gid, lo, r);
    } else {
      assert (log + [r])[|log| + 1..|log| + 1] == [];
      assert Buffered(d, w.gid, |log| + 1);
    }
  }

  lemma EmittedAlike(s: Subscriber, t: Subscriber, log: seq<Rec>, gid: Gid, after: nat)
    requires EmittedUpTo(s, log, gid, after) && t.cursors == s.cursors && t.emitted == s.emitted
    ensures EmittedUpTo(t, log, gid, after)
  {
  }

  lemma OwnPostReplaying(wanted: seq<Wanted>, c: Scene, w: Wanted, payload: nat)
    requires OnTrack(c, w) && c.stage.Replaying? && w in wanted
    ensures OnTrack(Happen(wanted, c, Post(w.gid, payload)), w)
  {
    hide OfGroup;
    var d := Happen(wanted, c, Post(w.gid, payload));
    var r, log := NextRecord(c.logs, w.gid, payload), LogOf(c.logs, w.gid);
    AllRegistered(wanted, c.stage, w);
    EmittedGrows(c.sub, log, [r], w.gid, w.after);
    EmittedAlike(c.sub, d.sub, log + [r], w.gid, w.after);
    var lo: nat, a: nat, b: nat :| Buffered(c, w.gid, lo) && Covers(c, w.gid, lo, a, b);
    BufferGrows(c, d, w.gid, lo, r);
    StretchGrows(OfGroup(c.stage.rest, w.gid), log, [r], a, b);
    assert Covers(d, w.gid, lo, a, b);
  }

  lemma OwnPostLive(wanted: seq<Wanted>, c: Scene, w: Wanted, payload: nat)
    requires OnTrack(c, w) && c.stage.Live? && w in wanted
    ensures OnTrack(Happen(wanted, c, Post(w.gid, payload)), w)
  {
    hide OfGroup;
    var r, log := NextRecord(c.logs, w.gid, payload), LogOf(c.logs, w.gid);
    AllRegistered(wanted, c.stage, w);
    EmittedGrows(c.sub, log, [r], w.gid, w.after);
    assert DenseLog(log + [r], w.gid);
    EmitOne(c.sub, r, log + [r], w.gid, w.after);
  }

  lemma AllRegistered(wanted: seq<Wanted>, stage: Stage, w: Wanted)
    requires w in wanted && !stage.Registering?
    ensures Registered(wanted, stage, w.gid)
  {
    assert wanted[..|wanted|] == wanted;
  }

  lemma ReadBacklog(wanted: seq<Wanted>, c: Scene, w: Wanted)
    requires OnTrack(c, w) && c.stage.Registering? && c.stage.count >= |wanted|
    requires DenseLogs(c.logs) && DistinctGroups(wanted) && w in wanted
    ensures OnTrack(Happen(wanted, c, Proceed), w)
  {
    BacklogOfGroup(c.logs, wanted, w);
    hide OfGroup, Backlog, EmittedUpTo, DenseLogs, DenseLog, Stretch, Past;
    var d := Happen(wanted, c, Proceed);
    var lo: nat :| Buffered(c, w.gid, lo);
    assert Buffered(d, w.gid, lo);
    BufferStarts(c, w.gid, lo);
    PastCovers(d, w.gid, lo, w.after);
  }

  lemma BufferStarts(c: Scene, gid: Gid, lo: nat)
    requires Buffered(c, gid, lo)
    ensures lo <= |LogOf(c.logs, gid)|
  {
  }

  lemma PastCovers(c: Scene, gid: Gid, lo: nat, after: nat)
    requires c.stage.Replaying? && OfGroup(c.stage.rest, gid) == Past(LogOf(c.logs, gid), after)
    requires LastEmitted(c.sub, gid) == after && lo <= |LogOf(c.logs, gid)|
    ensures exists a: nat, b: nat :: Covers(c, gid, lo, a, b)
  {
    hide OfGroup;
    var log := LogOf(c.logs, gid);
    if after <= |log| {
      assert log[after..] == log[after..|log|];
      assert Covers(c, gid, lo, after, |log|);
    } else {
      assert log[0..0] == [];
      assert Covers(c, gid, lo, 0, 0);
    }
  }

  lemma HeadOfGroup(records: seq<Rec>, gid: Gid)
    requires records != []
    ensures OfGroup(records, gid) == (if records[0].gid == gid then [records[0]] else []) + OfGroup(records[1..], gid)
  {
  }

  lemma StretchTail(r: Rec, rest: seq<Rec>, log: seq<Rec>, a: nat, b: nat)
    requires Stretch([r] + rest, log, a, b)
    ensures a < b && r == log[a] && Stretch(rest, log, a + 1, b)
  {
    assert |[r] + rest| == b - a;
    assert log[a..b] == [log[a]] + log[a + 1..b];
    assert ([r] + rest)[1..] == rest;
  }

  lemma ReplayOne(wanted: seq<Wanted>, c: Scene, w: Wanted)
    requires OnTrack(c, w) && c.stage.Replaying? && c.stage.rest != []
    ensures OnTrack(Happen(wanted, c, Proceed), w)
  {
    hide OfGroup, EmittedUpTo, EmitIfNew;
    var d := Happen(wanted, c, Proceed);
    var log, rest, r := LogOf(c.logs, w.gid), c.stage.rest, c.stage.rest[0];
    var lo: nat, a: nat, b: nat :| Buffered(c, w.gid, lo) && Covers(c, w.gid, lo, a, b);
    EmitKeepsRest(c.sub, r);
    assert Buffered(d, w.gid, lo);
    HeadOfGroup(rest, w.gid);
    if r.gid == w.gid {
      StretchTail(r, OfGroup(rest[1..], w.gid), log, a, b);
      EmitOne(c.sub, r, log, w.gid, w.after);
      assert Covers(d, w.gid, lo, a + 1, b);
    } else {
      EmitOne(c.sub, r, log, w.gid, w.after);
      assert [] + OfGroup(rest[1..], w.gid) == OfGroup(rest[1..], w.gid);
      assert Covers(d, w.gid, lo, a, b);
    }
  }

  lemma EmitKeepsRest(s: Subscriber, r: Rec)
    ensures EmitIfNew(s, r).buffer == s.buffer && EmitIfNew(s, r).replaying == s.replaying
  {
  }

  lemma EmittedBounds(s: Subscriber, log: seq<Rec>, gid: Gid, after: nat)
    requires EmittedUpTo(s, log, gid, after)
    ensures after <= LastEmitted(s, gid) && (LastEmitted(s, gid) == after || LastEmitted(s, gid) <= |log|)
  {
  }

  lemma FlushBuffer(wanted: seq<Wanted>, c: Scene, w: Wanted)
    requires OnTrack(c, w) && c.stage.Replaying? && c.stage.rest == []
    ensures OnTrack(Happen(wanted, c, Proceed), w)
  {
    var log := LogOf(c.logs, w.gid);
    var lo: nat, a: nat, b: nat :| Buffered(c, w.gid, lo) && Covers(c, w.gid, lo, a, b);
    hide EmitAll, OfGroup, EmittedUpTo, DenseLog;
    EmittedBounds(c.sub, log, w.gid, w.after);
    assert OfGroup(c.stage.rest, w.gid) == [] by {
      FilterNone(c.stage.rest, (r: Rec) => r.gid == w.gid);
    }
    var open := c.sub.(replaying := false, buffer := []);
    EmittedAlike(c.sub, open, log, w.gid, w.after);
    EmitStretch(open, c.sub.buffer, log, w.gid, w.after, lo, |log|);
    EmittingKeepsRest(open, c.sub.buffer);
  }

  lemma {:induction false} EmittingKeepsRest(s: Subscriber, records: seq<Rec>)
    ensures EmitAll(s, records).buffer == s.buffer && EmitAll(s, records).replaying == s.replaying
    decreases records
  {
    if records != [] {
      EmittingKeepsRest(EmitIfNew(s, records[0]), records[1..]);
    }
  }

  /** Groups not registered yet have nothing buffered. */
  ghost predicate NothingEarly(wanted: seq<Wanted>, c: Scene) {
    c.stage.Registering? ==> c.sub.replaying && forall r | r in c.sub.buffer :: Registered(wanted, c.stage, r.gid)
  }

  lemma EarlyBufferEmpty(wanted: seq<Wanted>, c: Scene, gid: Gid)
    requires NothingEarly(wanted, c) && c.stage.Registering? && !Registered(wanted, c.stage, gid)
    ensures OfGroup(c.sub.buffer, gid) == []
  {
    FilterNone(c.sub.buffer, (r: Rec) => r.gid == gid);
  }

  lemma EventKeeps(wanted: seq<Wanted>, c: Scene, e: Event, w: Wanted)
    requires DenseLogs(c.logs) && DistinctGroups(wanted) && w in wanted
    requires OnTrack(c, w) && NothingEarly(wanted, c)
    ensures OnTrack(Happen(wanted, c, e), w)
  {
    match e {
      case Post(gid, payload) =>
        if gid == w.gid {
          if c.stage.Registering? && !Registered(wanted, c.stage, gid) {
            EarlyBufferEmpty(wanted, c, gid);
          }
          match c.stage {
            case Registering(_) => OwnPostRegistering(wanted, c, w, payload);
            case Replaying(_) => OwnPostReplaying(wanted, c, w, payload);
            case Live => OwnPostLive(wanted, c, w, payload);
          }
        } else {
          if c.stage.Live? {
            OtherPostLive(wanted, c, w, gid, payload);
          } else {
            OtherPostHeld(wanted, c, w, gid, payload);
          }
        }
      case Proceed =>
        match c.stage {
          case Registering(n) =>
            if n < |wanted| {
              var lo: nat :| Buffered(c, w.gid, lo);
              assert Buffered(Happen(wanted, c, e), w.gid, lo);
            } else {
              ReadBacklog(wanted, c, w);
            }
          case Replaying(rest) =>
            if rest == [] {
              FlushBuffer(wanted, c, w);
            } else {
              ReplayOne(wanted, c, w);
            }
          case Live =>
        }
    }
  }

  lemma EventKeepsEarly(wanted: seq<Wanted>, c: Scene, e: Event)
    requires DenseLogs(c.logs) && NothingEarly(wanted, c)
    ensures NothingEarly(wanted, Happen(wanted, c, e)) && DenseLogs(Happen(wanted, c, e).logs)
  {
    match e {
      case Post(gid, payload) => PostKeepsDense(c.logs, gid, payload);
      case Proceed =>
        if c.stage.Registering? && c.stage.count < |wanted| {
          var n := c.stage.count;
          assert forall w | w in wanted[..n] :: w in wanted[..n + 1];
        }
    }
  }

  lemma {:induction false} RunKeeps(wanted: seq<Wanted>, c: Scene, events: seq<Event>, w: Wanted)
    requires DenseLogs(c.logs) && DistinctGroups(wanted) && w in wanted
    requires OnTrack(c, w) && NothingEarly(wanted, c)
    ensures OnTrack(HappenAll(wanted, c, events), w)
    decreases events
  {
    hide OnTrack, NothingEarly, Happen, DenseLogs;
    if events != [] {
      EventKeeps(wanted, c, events[0], w);
      EventKeepsEarly(wanted, c, events[0]);
      RunKeeps(wanted, Happen(wanted, c, events[0]), events[1..], w);
    }
  }

  lemma {:induction false} InitialCursorOf(wanted: seq<Wanted>, w: Wanted)
    requires DistinctGroups(wanted) && w in wanted
    ensures w.gid in InitialCursors(wanted) && InitialCursors(wanted)[w.gid] == w.after
  {
    var n := |wanted| - 1;
    if wanted[n] != w {
      assert w in wanted[..n];
      InitialCursorOf(wanted[..n], w);
      assert wanted[n].gid != w.gid;
    }
  }

  /**
   * For distinct groups and every interleaving of posts with registration,
   * replay and flush: what the subscriber has been given of a group is at every
   * moment a gap-free, duplicate-free, ascending start of the log past the
   * wanted cursor, and once the subscription is live it is all of it.
   */
  lemma ExactlyOnceInOrder(logs: Logs, wanted: seq<Wanted>, events: seq<Event>, w: Wanted)
    requires DenseLogs(logs) && DistinctGroups(wanted) && w in wanted
    ensures var c := HappenAll(wanted, Opening(logs, wanted), events);
            var due := Past(LogOf(c.logs, w.gid), w.after);
            && OfGroup(c.sub.emitted, w.gid) <= due
            && (c.stage.Live? ==> OfGroup(c.sub.emitted, w.gid) == due)
  {
    var start := Opening(logs, wanted);
    InitialCursorOf(wanted, w);
    var log := LogOf(logs, w.gid);
    assert log[|log|..|log|] == [];
    assert Buffered(start, w.gid, |log|);
    RunKeeps(wanted, start, events, w);
    var c := HappenAll(wanted, start, events);
    hide HappenAll;
    var end, last := LogOf(c.logs, w.gid), LastEmitted(c.sub, w.gid);
    if last != w.after {
      assert end[w.after..last] == end[w.after..][..last - w.after];
    }
  }

  // ---------------------------------------------------------------------
  // Catch up, then subscribe
  // ---------------------------------------------------------------------

  lemma {:induction false} LogsGrow(wanted: seq<Wanted>, c: Scene, events: seq<Event>, gid: Gid)
    ensures LogOf(c.logs, gid) <= LogOf(HappenAll(wanted, c, events).logs, gid)
    decreases events
  {
    if events != [] {
      LogsGrow(wanted, Happen(wanted, c, events[0]), events[1..], gid);
    }
  }

  /** The cursor a client holds after it ingested a fetch from `after`, if nothing else moved it. */
  function CursorAfter(log: seq<Rec>, after: nat): nat { Max(after, |log|) }

  /**
   * A watch first fetches and ingests what lies past its cursor, then subscribes
   * from where that took it: over any posts in between and during the
   * subscription, it is handed the whole suffix exactly once, in order.
   */
  lemma WatchDeliversSuffixOnce(fetched: Logs, subscribed: Logs, gid: Gid, after: nat, events: seq<Event>)
    requires DenseLogs(subscribed) && LogOf(fetched, gid) <= LogOf(subscribed, gid)
    ensures var first := Past(LogOf(fetched, gid), after);
            var wanted := [Wanted(gid, CursorAfter(LogOf(fetched, gid), after))];
            var c := HappenAll(wanted, Opening(subscribed, wanted), events);
            c.stage.Live? ==> first + OfGroup(c.sub.emitted, gid) == Past(LogOf(c.logs, gid), after)
  {
    var early := LogOf(fetched, gid);
    var wanted := [Wanted(gid, CursorAfter(early, after))];
    ExactlyOnceInOrder(subscribed, wanted, events, wanted[0]);
    LogsGrow(wanted, Opening(subscribed, wanted), events, gid);
    hide HappenAll, OfGroup;
    PastJoins(early, LogOf(HappenAll(wanted, Opening(subscribed, wanted), events).logs, gid), after);
  }

  lemma PastJoins(early: seq<Rec>, log: seq<Rec>, after: nat)
    requires early <= log
    ensures Past(early, after) + Past(log, CursorAfter(early, after)) == Past(log, after)
  {
    if after <= |early| {
      assert log[after..] == log[after..|early|] + log[|early|..];
      assert log[after..|early|] == early[after..];
    }
  }

  /**
   * The flush has to happen in one go: were the buffer flushed only after a
   * further live record had been let through, the buffered record would be
   * taken for an old one and lost.
   */
  lemma SplitFlushLoses(s: Subscriber, r: Rec, later: Rec)
    requires s.replaying && s.buffer == [r] && r.gid == later.gid
    requires r.cursor == LastEmitted(s, r.gid) + 1 && later.cursor == r.cursor + 1
    ensures Flush(PushLive(s, later)).emitted == s.emitted + [r, later]
    ensures EmitAll(PushLive(s.(replaying := false, buffer := []), later), s.buffer).emitted == s.emitted + [later]
  {
    var whole := PushLive(s, later);
    assert whole.buffer == [r, later];
    assert EmitAll(EmitIfNew(whole.(replaying := false, buffer := []), r), [later])
        == EmitIfNew(EmitIfNew(whole.(replaying := false, buffer := []), r), later);
  }
}
