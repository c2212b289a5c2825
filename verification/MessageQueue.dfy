/**
 * The queue between the coordinator and one reader of a subscription: an array
 * with a moving read index that is compacted now and then, and a list of
 * readers waiting for a value.
 */
module MessageQueue {
  import opened Base

  /** The error given to `abort`. The source tests it for truth, so all falsy errors are alike. */
  datatype Reason = Falsy | Truthy(code: nat)

  datatype Answer<T> = Value(value: T) | Finished | Failed(reason: Reason)

  /** The answer to the `call`-th request for a value. */
  datatype Reply<T> = Reply(call: nat, answer: Answer<T>)

  /** The queue as its users see it: what it holds, who waits, how it ended, and every reply so far. */
  datatype Channel<T> = Channel(
    held: seq<T>, waiters: seq<nat>, closed: bool, aborted: Reason, calls: nat, replies: seq<Reply<T>>)

  datatype Event<T> = Push(value: T) | Next | Close | Abort(reason: Reason) | Return

  predicate Ended<T>(c: Channel<T>) { c.closed || c.aborted.Truthy? }

  function AnswerAll<T>(waiters: seq<nat>, answer: Answer<T>): seq<Reply<T>> {
    if waiters == [] then [] else [Reply(waiters[0], answer)] + AnswerAll(waiters[1..], answer)
  }

  function PushTo<T>(c: Channel<T>, value: T): Channel<T> {
    if Ended(c) then c
    else if c.waiters != [] then
      c.(waiters := c.waiters[1..], replies := c.replies + [Reply(c.waiters[0], Value(value))])
    else c.(held := c.held + [value])
  }

  function AskNext<T>(c: Channel<T>): Channel<T> {
    var asked := c.(calls := c.calls + 1);
    if c.held != [] then asked.(held := c.held[1..], replies := c.replies + [Reply(c.calls, Value(c.held[0]))])
    else if c.aborted.Truthy? then asked.(replies := c.replies + [Reply(c.calls, Failed(c.aborted))])
    else if c.closed then asked.(replies := c.replies + [Reply(c.calls, Finished)])
    else asked.(waiters := c.waiters + [c.calls])
  }

  function CloseOnce<T>(c: Channel<T>): Channel<T> {
    if Ended(c) then c
    else c.(closed := true, waiters := [], replies := c.replies + AnswerAll(c.waiters, Finished))
  }

  /** A falsy error rejects those who wait and leaves the queue open. */
  function AbortWith<T>(c: Channel<T>, reason: Reason): Channel<T> {
    if Ended(c) then c
    else c.(aborted := reason, waiters := [], replies := c.replies + AnswerAll(c.waiters, Failed(reason)))
  }

  function Happen<T>(c: Channel<T>, e: Event<T>): Channel<T> {
    match e
    case Push(v) => PushTo(c, v)
    case Next => AskNext(c)
    case Close => CloseOnce(c)
    case Abort(reason) => AbortWith(c, reason)
    case Return => CloseOnce(c)
  }

  const COMPACT_AFTER := 1024

  class AsyncMessageQueue<T(==)> {
    var values: seq<T>
    var nextValueIndex: nat
    var waiters: seq<nat>
    var closed: bool
    var aborted: Reason
    var calls: nat
    ghost var replies: seq<Reply<T>>

    /** The values read already never outgrow both a fixed bound and the values still held. */
    ghost predicate Valid()
      reads this
    {
      nextValueIndex <= |values| && (nextValueIndex > COMPACT_AFTER ==> nextValueIndex * 2 < |values|)
    }

    ghost function View(): Channel<T>
      requires Valid()
      reads this
    {
      Channel(values[nextValueIndex..], waiters, closed, aborted, calls, replies)
    }

    constructor ()
      ensures Valid() && View() == Channel([], [], false, Falsy, 0, [])
    {
      values, nextValueIndex, waiters := [], 0, [];
      closed, aborted, calls, replies := false, Falsy, 0, [];
    }

    method Enqueue(value: T)
      requires Valid()
      modifies this
      ensures Valid() && View() == PushTo(old(View()), value)
    {
      if closed || aborted.Truthy? {
        return;
      }
      if waiters != [] {
        replies := replies + [Reply(waiters[0], Value(value))];
        waiters := waiters[1..];
        return;
      }
      values := values + [value];
    }

    /** Ask for the next value; nothing is returned when the caller has to wait. */
    method Dequeue() returns (answer: Option<Answer<T>>)
      requires Valid()
      modifies this
      ensures Valid() && View() == AskNext(old(View()))
      ensures old(View()).held != [] ==> answer == Some(Value(old(View()).held[0]))
      ensures old(View()).held == [] && old(aborted).Truthy? ==> answer == Some(Failed(old(aborted)))
      ensures old(View()).held == [] && !old(aborted).Truthy? && old(closed) ==> answer == Some(Finished)
      ensures old(View()).held == [] && !old(aborted).Truthy? && !old(closed) ==> answer == None
    {
      var call := calls;
      calls := calls + 1;
      if nextValueIndex < |values| {
        var value := values[nextValueIndex];
        nextValueIndex := nextValueIndex + 1;
        if nextValueIndex > COMPACT_AFTER && nextValueIndex * 2 >= |values| {
          values := values[nextValueIndex..];
          nextValueIndex := 0;
        }
        replies := replies + [Reply(call, Value(value))];
        return Some(Value(value));
      }
      if aborted.Truthy? {
        replies := replies + [Reply(call, Failed(aborted))];
        return Some(Failed(aborted));
      }
      if closed {
        replies := replies + [Reply(call, Finished)];
        return Some(Finished);
      }
      waiters := waiters + [call];
      return None;
    }

    method Shut()
      requires Valid()
      modifies this
      ensures Valid() && View() == CloseOnce(old(View()))
    {
      if closed || aborted.Truthy? {
        return;
      }
      closed := true;
      Settle(Finished);
    }

    method Fail(reason: Reason)
      requires Valid()
      modifies this
      ensures Valid() && View() == AbortWith(old(View()), reason)
    {
      if aborted.Truthy? || closed {
        return;
      }
      aborted := reason;
      Settle(Failed(reason));
    }

    /** Answer everyone who waits, in order. */
    method Settle(answer: Answer<T>)
      modifies this`waiters, this`replies
      ensures waiters == [] && replies == old(replies) + AnswerAll(old(waiters), answer)
    {
      var todo := waiters;
      waiters := [];
      ghost var first := replies;
      assert first + AnswerAll(todo, answer) == replies + AnswerAll(todo, answer);
      while todo != []
        invariant waiters == []
        invariant first + AnswerAll(old(waiters), answer) == replies + AnswerAll(todo, answer)
        decreases |todo|
      {
        assert replies + ([Reply(todo[0], answer)] + AnswerAll(todo[1..], answer))
            == (replies + [Reply(todo[0], answer)]) + AnswerAll(todo[1..], answer);
        replies := replies + [Reply(todo[0], answer)];
        todo := todo[1..];
      }
    }
  }

  // ---------------------------------------------------------------------
  // Whole runs
  // ---------------------------------------------------------------------

  function HappenAll<T>(c: Channel<T>, events: seq<Event<T>>): Channel<T> {
    if events == [] then c else Happen(HappenAll(c, events[..|events| - 1]), events[|events| - 1])
  }

  predicate Ends<T>(e: Event<T>) { e.Close? || e.Return? || (e.Abort? && e.reason.Truthy?) }

  /** The values pushed before the queue ended. */
  ghost function Accepted<T>(events: seq<Event<T>>): seq<T> {
    if events == [] then []
    else
      var before := events[..|events| - 1];
      var last := events[|events| - 1];
      Accepted(before) + (if last.Push? && (forall e | e in before :: !Ends(e)) then [last.value] else [])
  }

  function Values<T>(replies: seq<Reply<T>>): seq<T> {
    if replies == [] then []
    else
      var last := replies[|replies| - 1].answer;
      Values(replies[..|replies| - 1]) + (if last.Value? then [last.value] else [])
  }

  lemma {:induction false} ValuesAppend<T>(a: seq<Reply<T>>, b: seq<Reply<T>>)
    ensures Values(a + b) == Values(a) + Values(b)
  {
    if b == [] {
      assert a + b == a;
    } else {
      assert (a + b)[..|a + b| - 1] == a + b[..|b| - 1];
      ValuesAppend(a, b[..|b| - 1]);
    }
  }

  lemma {:induction false} EndingsCarryNothing<T>(waiters: seq<nat>, answer: Answer<T>)
    requires !answer.Value?
    ensures Values(AnswerAll(waiters, answer)) == []
    ensures |AnswerAll(waiters, answer)| == |waiters|
    ensures forall i :: 0 <= i < |waiters| ==> AnswerAll(waiters, answer)[i] == Reply(waiters[i], answer)
  {
    if waiters != [] {
      EndingsCarryNothing(waiters[1..], answer);
      ValuesAppend([Reply(waiters[0], answer)], AnswerAll(waiters[1..], answer));
    }
  }

  predicate Final<T>(a: Answer<T>) { a.Finished? || (a.Failed? && a.reason.Truthy?) }

  /** The requests answered are the first ones made, in order, and those that wait are the rest. */
  ghost predicate InTurn<T>(c: Channel<T>) {
    && (forall i :: 0 <= i < |c.replies| ==> c.replies[i].call == i)
    && (forall j :: 0 <= j < |c.waiters| ==> c.waiters[j] == |c.replies| + j)
    && |c.replies| + |c.waiters| == c.calls
  }

  /** Readers wait only while nothing is held and the queue is open. */
  ghost predicate WaitsOnEmpty<T>(c: Channel<T>) { c.waiters != [] ==> c.held == [] && !Ended(c) }

  /** The end has been reported only if the queue has ended and holds nothing. */
  ghost predicate EndedDry<T>(c: Channel<T>) {
    forall i :: 0 <= i < |c.replies| && Final(c.replies[i].answer) ==> Ended(c) && c.held == []
  }

  ghost predicate Conserved<T>(c: Channel<T>, events: seq<Event<T>>) {
    && Values(c.replies) + c.held == Accepted(events)
    && (Ended(c) <==> exists e :: e in events && Ends(e))
  }

  ghost predicate Sound<T>(c: Channel<T>, events: seq<Event<T>>) {
    Conserved(c, events) && InTurn(c) && WaitsOnEmpty(c) && EndedDry(c)
  }

  lemma OneMoreEvent<T>(events: seq<Event<T>>, e: Event<T>)
    ensures Accepted(events + [e])
         == Accepted(events) + (if e.Push? && !(exists x :: x in events && Ends(x)) then [e.value] else [])
    ensures (exists x :: x in events + [e] && Ends(x)) <==> (exists x :: x in events && Ends(x)) || Ends(e)
  {
    var all := events + [e];
    assert all[..|all| - 1] == events;
    assert forall x :: x in all <==> x in events || x == e;
  }

  lemma OneMoreReply<T>(replies: seq<Reply<T>>, r: Reply<T>)
    ensures Values(replies + [r]) == Values(replies) + (if r.answer.Value? then [r.answer.value] else [])
  {
    var all := replies + [r];
    assert all[..|all| - 1] == replies;
  }

  lemma PushSound<T>(c: Channel<T>, events: seq<Event<T>>, v: T)
    requires Sound(c, events)
    ensures Sound(PushTo(c, v), events + [Push(v)])
  {
    hide Accepted, Values;
    OneMoreEvent(events, Push(v));
    if !Ended(c) {
      if c.waiters != [] {
        OneMoreReply(c.replies, Reply(c.waiters[0], Value(v)));
      } else {
        assert Values(c.replies) + (c.held + [v]) == (Values(c.replies) + c.held) + [v];
      }
    }
  }

  lemma NextSound<T>(c: Channel<T>, events: seq<Event<T>>)
    requires Sound(c, events)
    ensures Sound(AskNext(c), events + [Next])
  {
    hide Accepted, Values;
    OneMoreEvent(events, Next);
    if c.held != [] || Ended(c) {
      OneMoreReply(c.replies, AskNext(c).replies[|c.replies|]);
    }
  }

  lemma EndSound<T>(c: Channel<T>, events: seq<Event<T>>, e: Event<T>)
    requires Sound(c, events) && (e.Close? || e.Abort? || e.Return?)
    ensures Sound(Happen(c, e), events + [e])
  {
    hide Accepted, Values, AnswerAll;
    OneMoreEvent(events, e);
    if !Ended(c) {
      var answer: Answer<T> := if e.Abort? then Failed(e.reason) else Finished;
      EndingsCarryNothing(c.waiters, answer);
      ValuesAppend(c.replies, AnswerAll(c.waiters, answer));
    }
  }

  /**
   * Over any interleaving of pushes, requests, closings and abortions: the
   * values handed out followed by the values still held are exactly the values
   * accepted, in order; requests are answered in the order they were made; a
   * reader waits only while nothing is held and the queue has not ended; and the
   * end of the queue is reported only once everything accepted was handed out.
   */
  lemma {:induction false} NothingLostOrReordered<T>(events: seq<Event<T>>)
    ensures Sound(HappenAll(Channel([], [], false, Falsy, 0, []), events), events)
  {
    var start: Channel<T> := Channel([], [], false, Falsy, 0, []);
    if events != [] {
      var before, e := events[..|events| - 1], events[|events| - 1];
      NothingLostOrReordered(before);
      assert events == before + [e];
      hide Sound;
      match e {
        case Push(v) => PushSound(HappenAll(start, before), before, v);
        case Next => NextSound(HappenAll(start, before), before);
        case Close => EndSound(HappenAll(start, before), before, e);
        case Abort(_) => EndSound(HappenAll(start, before), before, e);
        case Return => EndSound(HappenAll(start, before), before, e);
      }
    }
  }

  /** Once the end has been reported, everything ever accepted has been handed out. */
  lemma DrainedBeforeEnd<T>(events: seq<Event<T>>, r: Reply<T>)
    requires r in HappenAll(Channel([], [], false, Falsy, 0, []), events).replies && Final(r.answer)
    ensures Values(HappenAll(Channel([], [], false, Falsy, 0, []), events).replies) == Accepted(events)
  {
    NothingLostOrReordered(events);
  }

  /** The event that ended the queue: the first close, return or abort with a truthy error. */
  ghost function FirstEnd<T>(events: seq<Event<T>>): Option<Event<T>> {
    if events == [] then None
    else
      var before := FirstEnd(events[..|events| - 1]);
      if before.None? && Ends(events[|events| - 1]) then Some(events[|events| - 1]) else before
  }

  /** The queue remembers how it ended. */
  ghost predicate EndedBy<T>(c: Channel<T>, end: Option<Event<T>>) {
    match end
    case None => !c.closed && !c.aborted.Truthy?
    case Some(Abort(reason)) => !c.closed && c.aborted == reason && reason.Truthy?
    case Some(_) => c.closed && !c.aborted.Truthy?
  }

  /** A reader is told that the queue finished, or failed for a reason, only if that is how it ended; or there was a falsy abort. */
  ghost predicate Truthful<T>(replies: seq<Reply<T>>, end: Option<Event<T>>, events: seq<Event<T>>) {
    forall i :: 0 <= i < |replies| ==>
      match replies[i].answer
      case Value(_) => true
      case Finished => end == Some(Close) || end == Some(Return)
      case Failed(reason) => if reason.Truthy? then end == Some(Abort(reason)) else Abort(Falsy) in events
  }

  lemma MoreEvents<T>(replies: seq<Reply<T>>, events: seq<Event<T>>, e: Event<T>)
    requires Truthful(replies, FirstEnd(events), events)
    ensures FirstEnd(events + [e]) == if FirstEnd(events).None? && Ends(e) then Some(e) else FirstEnd(events)
    ensures Truthful(replies, FirstEnd(events + [e]), events + [e])
  {
    var all := events + [e];
    assert all[..|all| - 1] == events;
    assert forall x :: x in events ==> x in all;
    hide FirstEnd;
    forall i | 0 <= i < |replies| && replies[i].answer.Failed? && !replies[i].answer.reason.Truthy?
      ensures Abort(Falsy) in all
    {
    }
  }

  /** What the waiting readers are told when the queue ends. */
  lemma EndIsTold<T>(c: Channel<T>, events: seq<Event<T>>, e: Event<T>)
    requires EndedBy(c, FirstEnd(events)) && Truthful(c.replies, FirstEnd(events), events)
    requires e.Close? || e.Abort? || e.Return?
    ensures EndedBy(Happen(c, e), FirstEnd(events + [e])) && Truthful(Happen(c, e).replies, FirstEnd(events + [e]), events + [e])
  {
    MoreEvents(c.replies, events, e);
    hide FirstEnd, AnswerAll;
    if !Ended(c) {
      var answer: Answer<T> := if e.Abort? then Failed(e.reason) else Finished;
      EndingsCarryNothing(c.waiters, answer);
      assert e in events + [e];
      if e.Abort? && !e.reason.Truthy? {
        assert e == Abort(Falsy);
      }
    }
  }

  lemma ReadIsTold<T>(c: Channel<T>, events: seq<Event<T>>, e: Event<T>)
    requires EndedBy(c, FirstEnd(events)) && Truthful(c.replies, FirstEnd(events), events)
    requires e.Push? || e.Next?
    ensures EndedBy(Happen(c, e), FirstEnd(events + [e])) && Truthful(Happen(c, e).replies, FirstEnd(events + [e]), events + [e])
  {
    MoreEvents(c.replies, events, e);
    EndIsEnding(events);
    hide FirstEnd;
  }

  lemma {:induction false} EndIsEnding<T>(events: seq<Event<T>>)
    ensures FirstEnd(events).Some? ==> Ends(FirstEnd(events).value)
  {
    if events != [] {
      EndIsEnding(events[..|events| - 1]);
    }
  }

  /**
   * Whatever happens, readers are told the truth about the end: finished only
   * after a close or return came first, failed with a reason only after an abort
   * with that reason did. Nobody is left waiting once the queue has ended.
   */
  lemma {:induction false} EndsAsTold<T>(events: seq<Event<T>>)
    ensures var c := HappenAll(Channel([], [], false, Falsy, 0, []), events);
            && EndedBy(c, FirstEnd(events)) && Truthful(c.replies, FirstEnd(events), events)
            && (FirstEnd(events).Some? ==> c.waiters == [])
  {
    var start: Channel<T> := Channel([], [], false, Falsy, 0, []);
    NothingLostOrReordered(events);
    if events != [] {
      var before, e := events[..|events| - 1], events[|events| - 1];
      EndsAsTold(before);
      assert events == before + [e];
      EndIsEnding(events);
      hide FirstEnd, Truthful, Happen, Conserved, InTurn, EndedDry;
      if e.Push? || e.Next? {
        ReadIsTold(HappenAll(start, before), before, e);
      } else {
        EndIsTold(HappenAll(start, before), before, e);
      }
    }
  }

  /** An abort ends the queue exactly when its error is truthy: after a falsy one, pushes are still accepted. */
  lemma FalsyAbortLeavesOpen<T>(c: Channel<T>, reason: Reason, v: T)
    requires !Ended(c)
    ensures Ended(AbortWith(c, reason)) <==> reason.Truthy?
    ensures PushTo(AbortWith(c, reason), v).held == c.held + [v] <==> reason == Falsy
  {
  }
}
