/**
 * The per-caller token bucket limiter. Time and tokens are reals: the rounding
 * of floating point numbers is not part of the model.
 */
module RateLimit {
  import opened Base

  datatype Settings = Settings(enabled: bool, burst: real, idleTtl: real, rate: real)

  datatype Bucket = Bucket(tokens: real, lastRefillAt: real, lastSeenAt: real)

  type Buckets = map<string, Bucket>

  datatype Call = Call(key: string, now: real)

  function Clamp(value: real): real { if value > 0.0 then value else 0.0 }

  function Lesser(a: real, b: real): real { if a < b then a else b }

  /** The tokens that `elapsed` milliseconds bring. */
  function Refill(rate: real, elapsed: real): real { elapsed * rate }

  /** What a bucket holds at `now`, after the refill since it was last used. */
  function Available(s: Settings, b: Bucket, now: real): real {
    Lesser(s.burst, b.tokens + Refill(s.rate, Clamp(now - b.lastRefillAt)))
  }

  predicate Idle(s: Settings, b: Bucket, now: real) { now - b.lastSeenAt >= s.idleTtl }

  function Evict(s: Settings, buckets: Buckets, now: real): Buckets {
    if s.idleTtl <= 0.0 then buckets
    else map k | k in buckets && !Idle(s, buckets[k], now) :: buckets[k]
  }

  /** One decision of a limiter that never forgets a bucket. */
  function Decide(s: Settings, buckets: Buckets, call: Call): (Buckets, bool) {
    if !s.enabled then (buckets, true)
    else if call.key !in buckets then
      if s.burst < 1.0 then (buckets, false)
      else (buckets[call.key := Bucket(s.burst - 1.0, call.now, call.now)], true)
    else
      var available := Available(s, buckets[call.key], call.now);
      if available < 1.0 then (buckets[call.key := Bucket(available, call.now, call.now)], false)
      else (buckets[call.key := Bucket(available - 1.0, call.now, call.now)], true)
  }

  /** One decision of the real limiter: idle buckets go first, if it is enabled at all. */
  function DecideEvicting(s: Settings, buckets: Buckets, call: Call): (Buckets, bool) {
    Decide(s, if s.enabled then Evict(s, buckets, call.now) else buckets, call)
  }

  /** The answers of a run, with or without idle eviction. */
  function Answers(s: Settings, buckets: Buckets, calls: seq<Call>, evicting: bool): (r: seq<bool>)
    ensures |r| == |calls|
    decreases calls
  {
    if calls == [] then []
    else
      var (next, ok) := if evicting then DecideEvicting(s, buckets, calls[0]) else Decide(s, buckets, calls[0]);
      [ok] + Answers(s, next, calls[1..], evicting)
  }

  ghost predicate ClockNeverGoesBack(calls: seq<Call>) {
    forall i, j :: 0 <= i < j < |calls| ==> calls[i].now <= calls[j].now
  }

  function Accepted(calls: seq<Call>, answers: seq<bool>, key: string): nat
    requires |calls| == |answers|
  {
    if calls == [] then 0
    else (if calls[0].key == key && answers[0] then 1 else 0) + Accepted(calls[1..], answers[1..], key)
  }

  class TokenBucketRateLimiter {
    var buckets: Buckets
    const settings: Settings

    constructor (enabled: bool, refillPerMinute: real, burst: real, idleTtlMs: real)
      ensures buckets == map[]
      ensures settings == Settings(enabled, Clamp(burst), Clamp(idleTtlMs), Clamp(refillPerMinute) / 60000.0)
      ensures Refill(settings.rate, 60000.0) == Clamp(refillPerMinute)
    {
      buckets := map[];
      settings := Settings(enabled, Clamp(burst), Clamp(idleTtlMs), Clamp(refillPerMinute) / 60000.0);
    }

    method Check(key: string, now: real) returns (ok: bool)
      modifies this
      ensures buckets == DecideEvicting(settings, old(buckets), Call(key, now)).0
      ensures ok == DecideEvicting(settings, old(buckets), Call(key, now)).1
    {
      if !settings.enabled {
        return true;
      }
      EvictIdleBuckets(now);
      if key !in buckets {
        if settings.burst < 1.0 {
          return false;
        }
        buckets := buckets[key := Bucket(settings.burst - 1.0, now, now)];
        return true;
      }
      var bucket := buckets[key];
      var elapsed := Clamp(now - bucket.lastRefillAt);
      var refilled := Refill(settings.rate, elapsed);
      var available := Lesser(settings.burst, bucket.tokens + refilled);
      assert available == Available(settings, bucket, now);
      if available < 1.0 {
        buckets := buckets[key := Bucket(available, now, now)];
        return false;
      }
      buckets := buckets[key := Bucket(available - 1.0, now, now)];
      return true;
    }

    method EvictIdleBuckets(now: real)
      modifies this
      ensures buckets == Evict(settings, old(buckets), now)
    {
      if settings.idleTtl <= 0.0 || |buckets| == 0 {
        return;
      }
      var todo := buckets.Keys;
      while todo != {}
        invariant todo <= old(buckets).Keys
        invariant buckets == map k | k in old(buckets) && (k in todo || !Idle(settings, old(buckets)[k], now)) :: old(buckets)[k]
        decreases |todo|
      {
        var key :| key in todo;
        if now - buckets[key].lastSeenAt >= settings.idleTtl {
          buckets := buckets - {key};
        }
        todo := todo - {key};
      }
    }
  }

  /** A limiter that is switched off refuses nobody and remembers nothing. */
  lemma {:induction false} OffAcceptsAll(s: Settings, buckets: Buckets, calls: seq<Call>, evicting: bool)
    requires !s.enabled
    ensures forall i | 0 <= i < |calls| :: Answers(s, buckets, calls, evicting)[i]
    decreases calls
  {
    if calls != [] {
      OffAcceptsAll(s, buckets, calls[1..], evicting);
    }
  }

  // ---------------------------------------------------------------------
  // The sliding-window bound
  // ---------------------------------------------------------------------

  ghost predicate Sane(s: Settings) { s.enabled && s.burst >= 0.0 && s.idleTtl >= 0.0 && s.rate >= 0.0 }

  ghost predicate WellFilled(s: Settings, buckets: Buckets, now: real) {
    forall k :: k in buckets ==>
      && 0.0 <= buckets[k].tokens <= s.burst
      && buckets[k].lastRefillAt == buckets[k].lastSeenAt <= now
  }

  function Level(s: Settings, buckets: Buckets, key: string, now: real): real {
    if key in buckets then Available(s, buckets[key], now) else s.burst
  }

  lemma RefillAdds(rate: real, a: real, b: real, c: real)
    ensures Refill(rate, c - a) == Refill(rate, c - b) + Refill(rate, b - a)
  {
  }

  lemma RefillNeverDrains(rate: real, elapsed: real)
    requires rate >= 0.0 && elapsed >= 0.0
    ensures Refill(rate, elapsed) >= 0.0
  {
  }

  /** Refilling is additive until the bucket is full: waiting in two steps fills no more than waiting once. */
  lemma LevelGrows(s: Settings, buckets: Buckets, key: string, now: real, later: real)
    requires Sane(s) && WellFilled(s, buckets, now) && now <= later
    ensures 0.0 <= Level(s, buckets, key, now) <= s.burst
    ensures Level(s, buckets, key, later) <= Level(s, buckets, key, now) + Refill(s.rate, later - now)
  {
    hide Refill;
    RefillNeverDrains(s.rate, later - now);
    if key in buckets {
      var b := buckets[key];
      RefillNeverDrains(s.rate, now - b.lastRefillAt);
      RefillAdds(s.rate, b.lastRefillAt, now, later);
    }
  }

  /** One decision spends one token of the caller's bucket exactly when it accepts, and touches no other bucket. */
  lemma DecideSpends(s: Settings, buckets: Buckets, call: Call, key: string)
    requires Sane(s) && WellFilled(s, buckets, call.now)
    ensures var (next, ok) := Decide(s, buckets, call);
            && WellFilled(s, next, call.now)
            && (call.key == key ==>
                  Level(s, next, key, call.now) <= Level(s, buckets, key, call.now) - (if ok then 1.0 else 0.0))
            && (call.key != key ==> Level(s, next, key, call.now) == Level(s, buckets, key, call.now))
  {
    LevelGrows(s, buckets, call.key, call.now, call.now);
  }

  lemma NoTime(rate: real)
    ensures Refill(rate, 0.0) == 0.0
  {
  }

  lemma ClockTail(calls: seq<Call>)
    requires ClockNeverGoesBack(calls) && calls != []
    ensures ClockNeverGoesBack(calls[1..])
    ensures |calls| > 1 ==> calls[0].now <= calls[1..][0].now
  {
  }

  /** From any well-filled state, what one key is granted is paid for by its level and the refill. */
  lemma {:induction false} GrantsArePaidFor(s: Settings, buckets: Buckets, calls: seq<Call>, key: string, now: real)
    requires Sane(s) && WellFilled(s, buckets, now) && ClockNeverGoesBack(calls)
    requires calls != [] ==> now <= calls[0].now
    ensures Accepted(calls, Answers(s, buckets, calls, false), key) as real
         <= Level(s, buckets, key, now) + Refill(s.rate, if calls == [] then 0.0 else calls[|calls| - 1].now - now)
    decreases calls
  {
    hide Level, Available, Decide, Refill;
    if calls == [] {
      NoTime(s.rate);
      LevelGrows(s, buckets, key, now, now);
    } else {
      var t := calls[0].now;
      var (next, ok) := Decide(s, buckets, calls[0]);
      LevelGrows(s, buckets, key, now, t);
      assert WellFilled(s, buckets, t);
      DecideSpends(s, buckets, calls[0], key);
      ClockTail(calls);
      GrantsArePaidFor(s, next, calls[1..], key, t);
      assert Answers(s, buckets, calls, false)[1..] == Answers(s, next, calls[1..], false);
      RefillAdds(s.rate, now, t, calls[|calls| - 1].now);
    }
  }

  /** The limiter reached after a prefix of the calls is still well filled. */
  function After(s: Settings, buckets: Buckets, calls: seq<Call>): Buckets
    decreases calls
  {
    if calls == [] then buckets else After(s, Decide(s, buckets, calls[0]).0, calls[1..])
  }

  lemma {:induction false} PrefixThenRest(s: Settings, buckets: Buckets, calls: seq<Call>, i: nat)
    requires i <= |calls|
    ensures Answers(s, buckets, calls, false)[i..] == Answers(s, After(s, buckets, calls[..i]), calls[i..], false)
    decreases calls
  {
    hide Decide;
    if i == 0 {
      assert calls[..0] == [] && calls[0..] == calls;
    } else {
      var (next, ok) := Decide(s, buckets, calls[0]);
      PrefixThenRest(s, next, calls[1..], i - 1);
      assert calls[..i][1..] == calls[1..][..i - 1] && calls[1..][i - 1..] == calls[i..];
      assert Answers(s, buckets, calls, false)[i..] == Answers(s, next, calls[1..], false)[i - 1..];
    }
  }

  lemma {:induction false} StaysWellFilled(s: Settings, buckets: Buckets, calls: seq<Call>, now: real)
    requires Sane(s) && WellFilled(s, buckets, now) && ClockNeverGoesBack(calls)
    requires calls != [] ==> now <= calls[0].now
    ensures WellFilled(s, After(s, buckets, calls), if calls == [] then now else calls[|calls| - 1].now)
    decreases calls
  {
    hide Level, Available, Refill, Decide;
    if calls != [] {
      DecideSpends(s, buckets, calls[0], calls[0].key);
      StaysWellFilled(s, Decide(s, buckets, calls[0]).0, calls[1..], calls[0].now);
    }
  }

  lemma {:induction false} AnswersOfPrefix(s: Settings, buckets: Buckets, calls: seq<Call>, n: nat, evicting: bool)
    requires n <= |calls|
    ensures Answers(s, buckets, calls[..n], evicting) == Answers(s, buckets, calls, evicting)[..n]
    decreases calls
  {
    if n != 0 {
      var next := if evicting then DecideEvicting(s, buckets, calls[0]).0 else Decide(s, buckets, calls[0]).0;
      AnswersOfPrefix(s, next, calls[1..], n - 1, evicting);
      assert calls[..n][1..] == calls[1..][..n - 1];
    }
  }

  // ---------------------------------------------------------------------
  // Idle eviction cannot be observed
  // ---------------------------------------------------------------------

  /** A full idle period refills a bucket completely. */
  ghost predicate RefillsWhileIdle(s: Settings) { Refill(s.rate, s.idleTtl) >= s.burst }

  /** Nothing is ever forgotten, or only what is full again, or nothing is ever granted. */
  ghost predicate ForgetsSafely(s: Settings) { s.idleTtl <= 0.0 || RefillsWhileIdle(s) || s.burst < 1.0 }

  /** The evicting limiter forgot only buckets that have been idle for a whole period. */
  ghost predicate Shadows(s: Settings, forgetful: Buckets, faithful: Buckets, now: real) {
    && forgetful.Keys <= faithful.Keys
    && (forall k :: k in forgetful ==> forgetful[k] == faithful[k])
    && (forall k :: k in faithful && k !in forgetful ==> s.idleTtl > 0.0 && Idle(s, faithful[k], now))
  }

  lemma IdleMeansFull(s: Settings, b: Bucket, now: real)
    requires Sane(s) && RefillsWhileIdle(s) && Idle(s, b, now)
    requires b.tokens >= 0.0 && b.lastRefillAt == b.lastSeenAt
    ensures Available(s, b, now) == s.burst
  {
    assert (now - b.lastRefillAt) * s.rate >= s.idleTtl * s.rate;
  }

  lemma ShadowStep(s: Settings, forgetful: Buckets, faithful: Buckets, call: Call, now: real)
    requires Sane(s) && ForgetsSafely(s)
    requires WellFilled(s, faithful, now) && now <= call.now && Shadows(s, forgetful, faithful, now)
    requires s.burst < 1.0 ==> faithful == map[]
    ensures var (f', a) := DecideEvicting(s, forgetful, call);
            var (g', b) := Decide(s, faithful, call);
            && a == b && Shadows(s, f', g', call.now) && WellFilled(s, g', call.now)
            && (s.burst < 1.0 ==> g' == map[])
  {
    DecideSpends(s, faithful, call, call.key);
    assert Shadows(s, Evict(s, forgetful, call.now), faithful, call.now);
    if call.key in faithful && call.key !in Evict(s, forgetful, call.now) {
      IdleMeansFull(s, faithful[call.key], call.now);
    }
  }

  lemma {:induction false} ShadowRun(s: Settings, forgetful: Buckets, faithful: Buckets, calls: seq<Call>, now: real)
    requires Sane(s) && ForgetsSafely(s) && ClockNeverGoesBack(calls)
    requires WellFilled(s, faithful, now) && (calls != [] ==> now <= calls[0].now)
    requires Shadows(s, forgetful, faithful, now)
    requires s.burst < 1.0 ==> faithful == map[]
    ensures Answers(s, forgetful, calls, true) == Answers(s, faithful, calls, false)
    decreases calls
  {
    if calls != [] {
      ShadowStep(s, forgetful, faithful, calls[0], now);
      ShadowRun(s, DecideEvicting(s, forgetful, calls[0]).0, Decide(s, faithful, calls[0]).0, calls[1..], calls[0].now);
    }
  }

  /** Dropping idle buckets then never changes an answer, for any mix of keys. */
  lemma EvictionIsUnobservable(s: Settings, calls: seq<Call>)
    requires Sane(s) && ForgetsSafely(s) && ClockNeverGoesBack(calls)
    ensures Answers(s, map[], calls, true) == Answers(s, map[], calls, false)
  {
    ShadowRun(s, map[], map[], calls, if calls == [] then 0.0 else calls[0].now);
  }

  /** What one key is granted in any stretch of a run of the limiter that never evicts. */
  lemma FaithfulWindow(s: Settings, calls: seq<Call>, key: string, i: nat)
    requires Sane(s) && ClockNeverGoesBack(calls) && i < |calls|
    ensures Accepted(calls[i..], Answers(s, map[], calls, false)[i..], key) as real
         <= s.burst + Refill(s.rate, calls[|calls| - 1].now - calls[i].now)
  {
    PrefixThenRest(s, map[], calls, i);
    StaysWellFilled(s, map[], calls[..i], calls[0].now);
    var reached := After(s, map[], calls[..i]);
    assert WellFilled(s, reached, calls[i].now);
    GrantsArePaidFor(s, reached, calls[i..], key, calls[i].now);
    LevelGrows(s, reached, key, calls[i].now, calls[i].now);
  }

  /**
   * In any stretch of a run the calls accepted for one key number at most the
   * burst plus the refill over that stretch.
   */
  lemma WindowBound(s: Settings, calls: seq<Call>, key: string, i: nat, j: nat)
    requires Sane(s) && ForgetsSafely(s) && ClockNeverGoesBack(calls) && i < j <= |calls|
    ensures Accepted(calls[i..j], Answers(s, map[], calls, true)[i..j], key) as real
         <= s.burst + Refill(s.rate, calls[j - 1].now - calls[i].now)
  {
    EvictionIsUnobservable(s, calls);
    AnswersOfPrefix(s, map[], calls, j, false);
    FaithfulWindow(s, calls[..j], key, i);
    assert calls[..j][i..] == calls[i..j];
    assert Answers(s, map[], calls, false)[..j][i..] == Answers(s, map[], calls, false)[i..j];
  }

  // ---------------------------------------------------------------------
  // What is refused, exactly
  // ---------------------------------------------------------------------

  /** The limiter that never evicts, as call `n` meets it. */
  function Reached(s: Settings, calls: seq<Call>, n: nat): Buckets
    requires n <= |calls|
  {
    After(s, map[], calls[..n])
  }

  lemma {:induction false} AfterAppend(s: Settings, buckets: Buckets, calls: seq<Call>, call: Call)
    ensures After(s, buckets, calls + [call]) == Decide(s, After(s, buckets, calls), call).0
    decreases calls
  {
    hide Decide;
    if calls == [] {
      assert calls + [call] == [call] && [call][1..] == [];
    } else {
      assert (calls + [call])[0] == calls[0] && (calls + [call])[1..] == calls[1..] + [call];
      AfterAppend(s, Decide(s, buckets, calls[0]).0, calls[1..], call);
    }
  }

  lemma OneMoreCall(s: Settings, calls: seq<Call>, n: nat)
    requires n < |calls|
    ensures Reached(s, calls, n + 1) == Decide(s, Reached(s, calls, n), calls[n]).0
    ensures Answers(s, map[], calls, false)[n] == Decide(s, Reached(s, calls, n), calls[n]).1
  {
    assert calls[..n + 1] == calls[..n] + [calls[n]];
    AfterAppend(s, map[], calls[..n], calls[n]);
    PrefixThenRest(s, map[], calls, n);
    hide Decide;
    assert Answers(s, map[], calls, false)[n] == Answers(s, map[], calls, false)[n..][0];
  }

  lemma ReachedIsWellFilled(s: Settings, calls: seq<Call>, n: nat)
    requires Sane(s) && ClockNeverGoesBack(calls) && n < |calls|
    ensures WellFilled(s, Reached(s, calls, n), calls[n].now)
  {
    StaysWellFilled(s, map[], calls[..n], if n == 0 then calls[n].now else calls[0].now);
  }

  /** Waiting refills up to the burst, in one step as in two. */
  lemma LevelAfterWaiting(s: Settings, buckets: Buckets, key: string, now: real, later: real)
    requires Sane(s) && WellFilled(s, buckets, now) && now <= later
    ensures Level(s, buckets, key, later) == Lesser(s.burst, Level(s, buckets, key, now) + Refill(s.rate, later - now))
  {
    hide Refill;
    RefillNeverDrains(s.rate, later - now);
    if key in buckets {
      var b := buckets[key];
      RefillNeverDrains(s.rate, now - b.lastRefillAt);
      RefillAdds(s.rate, b.lastRefillAt, now, later);
    }
  }

  /** A call is granted exactly at a level of one token, and takes one; a refused one takes nothing. */
  lemma DecisionIsExact(s: Settings, buckets: Buckets, call: Call, key: string)
    requires Sane(s) && WellFilled(s, buckets, call.now)
    ensures var (next, ok) := Decide(s, buckets, call);
            && (ok <==> Level(s, buckets, call.key, call.now) >= 1.0)
            && Level(s, next, key, call.now)
               == Level(s, buckets, key, call.now) - (if call.key == key && ok then 1.0 else 0.0)
  {
    LevelGrows(s, buckets, call.key, call.now, call.now);
    NoTime(s.rate);
    hide Refill;
  }

  lemma {:induction false} AcceptedAppend(calls: seq<Call>, answers: seq<bool>, call: Call, answer: bool, key: string)
    requires |calls| == |answers|
    ensures Accepted(calls + [call], answers + [answer], key)
         == Accepted(calls, answers, key) + (if call.key == key && answer then 1 else 0)
  {
    if calls == [] {
      assert calls + [call] == [call] && answers + [answer] == [answer] && [call][1..] == [] && [answer][1..] == [];
    } else {
      assert (calls + [call])[1..] == calls[1..] + [call] && (answers + [answer])[1..] == answers[1..] + [answer];
      AcceptedAppend(calls[1..], answers[1..], call, answer, key);
    }
  }

  /** What is left at `now` of a bucket that was full when its owner was granted call `j`, and never since. */
  function LeftSince(s: Settings, calls: seq<Call>, answers: seq<bool>, key: string, j: nat, n: nat, now: real): real
    requires |calls| == |answers| && j <= n <= |calls| && j < |calls|
  {
    s.burst - Accepted(calls[j..n], answers[j..n], key) as real + Refill(s.rate, now - calls[j].now)
  }

  ghost predicate Granted(calls: seq<Call>, answers: seq<bool>, key: string, j: nat)
    requires |calls| == |answers| && j < |calls|
  {
    calls[j].key == key && answers[j]
  }

  lemma OneMoreSpent(s: Settings, calls: seq<Call>, answers: seq<bool>, key: string, j: nat, n: nat, now: real, later: real)
    requires |calls| == |answers| && j <= n < |calls|
    ensures LeftSince(s, calls, answers, key, j, n + 1, later)
         == LeftSince(s, calls, answers, key, j, n, now)
            - (if Granted(calls, answers, key, n) then 1.0 else 0.0) + Refill(s.rate, later - now)
  {
    assert calls[j..n + 1] == calls[j..n] + [calls[n]] && answers[j..n + 1] == answers[j..n] + [answers[n]];
    AcceptedAppend(calls[j..n], answers[j..n], calls[n], answers[n], key);
    RefillAdds(s.rate, calls[j].now, now, later);
    hide Refill, Accepted;
  }

  /** A level below the burst is accounted for by the calls granted since the bucket was last full. */
  lemma {:induction false} LevelIsAccounted(s: Settings, calls: seq<Call>, key: string, n: nat)
    requires Sane(s) && ClockNeverGoesBack(calls) && n < |calls|
    ensures var answers, level := Answers(s, map[], calls, false), Level(s, Reached(s, calls, n), key, calls[n].now);
            level == s.burst || exists j | 0 <= j < n ::
              Granted(calls, answers, key, j) && level == LeftSince(s, calls, answers, key, j, n, calls[n].now)
  {
    hide Level, Decide, Refill, Answers, LeftSince, WellFilled;
    if n == 0 {
      NothingSpent(s, calls, key);
    } else {
      var answers, m := Answers(s, map[], calls, false), n - 1;
      var was := Level(s, Reached(s, calls, m), key, calls[m].now);
      LevelIsAccounted(s, calls, key, m);
      ReachedIsWellFilled(s, calls, m);
      OneMoreCall(s, calls, m);
      DecisionIsExact(s, Reached(s, calls, m), calls[m], key);
      DecideSpends(s, Reached(s, calls, m), calls[m], key);
      LevelAfterWaiting(s, Reached(s, calls, n), key, calls[m].now, calls[n].now);
      if was == s.burst {
        if Granted(calls, answers, key, m) {
          FreshlySpent(s, calls, answers, key, m);
          OneMoreSpent(s, calls, answers, key, m, m, calls[m].now, calls[n].now);
        } else {
          RefillNeverDrains(s.rate, calls[n].now - calls[m].now);
        }
      } else {
        var j :| 0 <= j < m && Granted(calls, answers, key, j)
                 && was == LeftSince(s, calls, answers, key, j, m, calls[m].now);
        OneMoreSpent(s, calls, answers, key, j, m, calls[m].now, calls[n].now);
      }
    }
  }

  lemma NothingSpent(s: Settings, calls: seq<Call>, key: string)
    requires calls != []
    ensures Level(s, Reached(s, calls, 0), key, calls[0].now) == s.burst
  {
    assert calls[..0] == [];
  }

  lemma FreshlySpent(s: Settings, calls: seq<Call>, answers: seq<bool>, key: string, j: nat)
    requires |calls| == |answers| && j < |calls|
    ensures LeftSince(s, calls, answers, key, j, j, calls[j].now) == s.burst
  {
    NoTime(s.rate);
    assert calls[j..j] == [];
  }

  /**
   * A call is refused if and only if no burst holds a token, or the calls granted
   * to its key from some earlier one on, and it, would exceed the burst plus the
   * refill since that one.
   */
  lemma RefusedIffOverdrawn(s: Settings, calls: seq<Call>, i: nat)
    requires Sane(s) && ForgetsSafely(s) && ClockNeverGoesBack(calls) && i < |calls|
    ensures var answers, key := Answers(s, map[], calls, true), calls[i].key;
            !answers[i] <==> s.burst < 1.0 || exists j | 0 <= j < i ::
              Granted(calls, answers, key, j)
              && Accepted(calls[j..i], answers[j..i], key) as real + 1.0 > s.burst + Refill(s.rate, calls[i].now - calls[j].now)
  {
    var answers, key := Answers(s, map[], calls, false), calls[i].key;
    EvictionIsUnobservable(s, calls);
    OneMoreCall(s, calls, i);
    ReachedIsWellFilled(s, calls, i);
    DecisionIsExact(s, Reached(s, calls, i), calls[i], key);
    LevelGrows(s, Reached(s, calls, i), key, calls[i].now, calls[i].now);
    LevelIsAccounted(s, calls, key, i);
    hide Answers, Accepted, Refill, Level, Decide, ForgetsSafely;
    if answers[i] {
      forall j | 0 <= j < i && Granted(calls, answers, key, j)
        ensures Accepted(calls[j..i], answers[j..i], key) as real + 1.0 <= s.burst + Refill(s.rate, calls[i].now - calls[j].now)
      {
        GrantedFits(s, calls, i, j);
      }
    }
  }

  lemma GrantedFits(s: Settings, calls: seq<Call>, i: nat, j: nat)
    requires Sane(s) && ClockNeverGoesBack(calls) && j < i < |calls| && Answers(s, map[], calls, false)[i]
    ensures var answers, key := Answers(s, map[], calls, false), calls[i].key;
            Accepted(calls[j..i], answers[j..i], key) as real + 1.0 <= s.burst + Refill(s.rate, calls[i].now - calls[j].now)
  {
    hide Answers, Accepted, Refill;
    var answers, key := Answers(s, map[], calls, false), calls[i].key;
    AnswersOfPrefix(s, map[], calls, i + 1, false);
    FaithfulWindow(s, calls[..i + 1], key, j);
    UpTo(calls, j, i);
    UpTo(answers, j, i);
    AcceptedAppend(calls[j..i], answers[j..i], calls[i], answers[i], key);
  }

  lemma UpTo<T>(s: seq<T>, j: nat, i: nat)
    requires j <= i < |s|
    ensures s[..i + 1][j..] == s[j..i] + [s[i]] && s[..i + 1][i] == s[i]
  {
  }

  /** Two limiters no caller can tell apart from `now` on: the same keys, with the same to spend. */
  ghost predicate Alike(s: Settings, x: Buckets, y: Buckets, now: real) {
    && WellFilled(s, x, now) && WellFilled(s, y, now) && x.Keys == y.Keys
    && forall k | k in x :: Available(s, x[k], now) == Available(s, y[k], now)
  }

  lemma AlikeLater(s: Settings, x: Buckets, y: Buckets, now: real, later: real)
    requires Sane(s) && Alike(s, x, y, now) && now <= later
    ensures Alike(s, x, y, later)
  {
    hide Available, Refill;
    forall k | k in x
      ensures Available(s, x[k], later) == Available(s, y[k], later)
    {
      LevelAfterWaiting(s, x, k, now, later);
      LevelAfterWaiting(s, y, k, now, later);
    }
  }

  lemma AlikeStep(s: Settings, x: Buckets, y: Buckets, call: Call)
    requires Sane(s) && Alike(s, x, y, call.now)
    ensures var (x', a) := Decide(s, x, call);
            var (y', b) := Decide(s, y, call);
            a == b && Alike(s, x', y', call.now)
  {
    DecideSpends(s, x, call, call.key);
    DecideSpends(s, y, call, call.key);
    hide Refill;
  }

  lemma {:induction false} AlikeRun(s: Settings, x: Buckets, y: Buckets, calls: seq<Call>, now: real)
    requires Sane(s) && ClockNeverGoesBack(calls) && Alike(s, x, y, now) && (calls != [] ==> now <= calls[0].now)
    ensures Answers(s, x, calls, false) == Answers(s, y, calls, false)
    decreases calls
  {
    hide Decide, Alike;
    if calls != [] {
      AlikeLater(s, x, y, now, calls[0].now);
      AlikeStep(s, x, y, calls[0]);
      ClockTail(calls);
      AlikeRun(s, Decide(s, x, calls[0]).0, Decide(s, y, calls[0]).0, calls[1..], calls[0].now);
    }
  }

  /** A refused call leaves the limiter as it would be without it. */
  lemma RefusalChangesNothing(s: Settings, buckets: Buckets, call: Call)
    requires Sane(s) && WellFilled(s, buckets, call.now) && !Decide(s, buckets, call).1
    ensures Alike(s, buckets, Decide(s, buckets, call).0, call.now)
  {
    DecideSpends(s, buckets, call, call.key);
    LevelGrows(s, buckets, call.key, call.now, call.now);
    NoTime(s.rate);
    hide Refill;
  }

  lemma WithoutOne(calls: seq<Call>, i: nat)
    requires ClockNeverGoesBack(calls) && i < |calls|
    ensures ClockNeverGoesBack(calls[..i] + calls[i + 1..]) && ClockNeverGoesBack(calls[i + 1..])
    ensures (calls[..i] + calls[i + 1..])[..i] == calls[..i] && (calls[..i] + calls[i + 1..])[i..] == calls[i + 1..]
  {
    var rest := calls[..i] + calls[i + 1..];
    forall m | 0 <= m < |rest|
      ensures rest[m] == calls[if m < i then m else m + 1]
    {
    }
  }

  /** A refused call leaves no trace: taken out of the run, it changes no other answer. */
  lemma RefusedLeavesNoTrace(s: Settings, calls: seq<Call>, i: nat)
    requires Sane(s) && ForgetsSafely(s) && ClockNeverGoesBack(calls) && i < |calls|
    requires !Answers(s, map[], calls, true)[i]
    ensures var answers := Answers(s, map[], calls, true);
            Answers(s, map[], calls[..i] + calls[i + 1..], true) == answers[..i] + answers[i + 1..]
  {
    hide Answers, ForgetsSafely, Sane, ClockNeverGoesBack;
    WithoutOne(calls, i);
    EvictionIsUnobservable(s, calls);
    EvictionIsUnobservable(s, calls[..i] + calls[i + 1..]);
    FaithfullyNoTrace(s, calls, i);
  }

  /** The same of the limiter that never evicts, whatever its settings. */
  lemma FaithfullyNoTrace(s: Settings, calls: seq<Call>, i: nat)
    requires Sane(s) && ClockNeverGoesBack(calls) && i < |calls| && !Answers(s, map[], calls, false)[i]
    ensures var answers := Answers(s, map[], calls, false);
            Answers(s, map[], calls[..i] + calls[i + 1..], false) == answers[..i] + answers[i + 1..]
  {
    hide Answers, Alike, Decide, WellFilled, After, ClockNeverGoesBack;
    var rest := calls[..i] + calls[i + 1..];
    WithoutOne(calls, i);
    SameAfterRefusal(s, calls, i);
    PrefixThenRest(s, map[], calls, i + 1);
    PrefixThenRest(s, map[], rest, i);
    AnswersOfPrefix(s, map[], calls, i, false);
    AnswersOfPrefix(s, map[], rest, i, false);
    PartsMakeWhole(Answers(s, map[], rest, false), i);
  }

  lemma PartsMakeWhole(answers: seq<bool>, i: nat)
    requires i <= |answers|
    ensures answers == answers[..i] + answers[i..]
  {
  }

  lemma SameAfterRefusal(s: Settings, calls: seq<Call>, i: nat)
    requires Sane(s) && ClockNeverGoesBack(calls) && i < |calls| && !Answers(s, map[], calls, false)[i]
    ensures Answers(s, After(s, map[], calls[..i]), calls[i + 1..], false)
         == Answers(s, After(s, map[], calls[..i + 1]), calls[i + 1..], false)
  {
    hide Answers, Alike, Decide, WellFilled, After, ClockNeverGoesBack;
    WithoutOne(calls, i);
    ReachedIsWellFilled(s, calls, i);
    OneMoreCall(s, calls, i);
    RefusalChangesNothing(s, Reached(s, calls, i), calls[i]);
    NextIsLater(calls, i);
    AlikeRun(s, Reached(s, calls, i), Reached(s, calls, i + 1), calls[i + 1..], calls[i].now);
  }

  lemma NextIsLater(calls: seq<Call>, i: nat)
    requires ClockNeverGoesBack(calls) && i < |calls|
    ensures calls[i + 1..] != [] ==> calls[i].now <= calls[i + 1..][0].now
  {
  }

  // ---------------------------------------------------------------------
  // When an idle period is too short to refill a bucket
  // ---------------------------------------------------------------------

  function Burst(key: string, n: nat, now: real): seq<Call> { seq(n, _ => Call(key, now)) }

  lemma SpendOne(s: Settings, buckets: Buckets, key: string, left: real, now: real)
    requires Sane(s) && s.idleTtl > 0.0 && left >= 0.0 && 1.0 + left <= s.burst
    requires key in buckets && buckets[key] == Bucket(1.0 + left, now, now)
    requires forall k :: k in buckets ==> !Idle(s, buckets[k], now)
    ensures DecideEvicting(s, buckets, Call(key, now)) == (buckets[key := Bucket(left, now, now)], true)
  {
    assert Evict(s, buckets, now) == buckets;
  }

  /** A bucket with `n` tokens and `left` more grants `n` calls in a row. */
  lemma {:induction false} SpendAll(s: Settings, buckets: Buckets, key: string, n: nat, left: real, now: real, rest: seq<Call>)
    requires Sane(s) && s.idleTtl > 0.0 && left >= 0.0 && n as real + left <= s.burst
    requires key in buckets && buckets[key] == Bucket(n as real + left, now, now)
    requires forall k :: k in buckets ==> !Idle(s, buckets[k], now)
    ensures Answers(s, buckets, Burst(key, n, now) + rest, true)
         == seq(n, _ => true) + Answers(s, buckets[key := Bucket(left, now, now)], rest, true)
    decreases n
  {
    hide DecideEvicting, Available, Refill;
    var calls := Burst(key, n, now) + rest;
    if n == 0 {
      assert calls == rest;
      assert buckets == buckets[key := Bucket(left, now, now)];
    } else {
      var next := buckets[key := Bucket((n - 1) as real + left, now, now)];
      SpendOne(s, buckets, key, (n - 1) as real + left, now);
      assert calls[0] == Call(key, now) && calls[1..] == Burst(key, n - 1, now) + rest;
      SpendAll(s, next, key, n - 1, left, now, rest);
      SpentTwice(buckets, key, Bucket((n - 1) as real + left, now, now), Bucket(left, now, now));
      FirstAnswer(s, buckets, calls, next);
      hide Burst, Answers;
      OneMoreGrant(n, Answers(s, buckets[key := Bucket(left, now, now)], rest, true));
    }
  }

  lemma SpentTwice(buckets: Buckets, key: string, first: Bucket, second: Bucket)
    ensures buckets[key := first][key := second] == buckets[key := second]
  {
  }

  lemma FirstAnswer(s: Settings, buckets: Buckets, calls: seq<Call>, next: Buckets)
    requires calls != [] && DecideEvicting(s, buckets, calls[0]) == (next, true)
    ensures Answers(s, buckets, calls, true) == [true] + Answers(s, next, calls[1..], true)
  {
    hide DecideEvicting;
  }

  lemma OneMoreGrant(n: nat, rest: seq<bool>)
    requires n > 0
    ensures [true] + (seq(n - 1, _ => true) + rest) == seq(n, _ => true) + rest
  {
  }

  /** A full burst from a bucket the limiter has never seen, or has just forgotten. */
  lemma SpendFresh(s: Settings, buckets: Buckets, key: string, n: nat, left: real, now: real, rest: seq<Call>)
    requires Sane(s) && s.idleTtl > 0.0 && n >= 1 && left >= 0.0 && s.burst == n as real + left
    requires Evict(s, buckets, now) == map[]
    ensures Answers(s, buckets, Burst(key, n, now) + rest, true)
         == seq(n, _ => true) + Answers(s, map[key := Bucket(left, now, now)], rest, true)
  {
    hide Available, Refill, Evict;
    var calls := Burst(key, n, now) + rest;
    var next: Buckets := map[key := Bucket((n - 1) as real + left, now, now)];
    assert DecideEvicting(s, buckets, calls[0]) == (next, true);
    assert calls[1..] == Burst(key, n - 1, now) + rest;
    SpendAll(s, next, key, n - 1, left, now, rest);
    assert next[key := Bucket(left, now, now)] == map[key := Bucket(left, now, now)];
  }

  /** Bursts of `n` calls, `gap` apart. */
  function Bursts(key: string, n: nat, k: nat, gap: real, at: real): seq<Call>
    decreases k
  {
    if k == 0 then [] else Burst(key, n, at) + Bursts(key, n, k - 1, gap, at + gap)
  }

  /** Any number of bursts, one idle period apart: all of them are granted by the evicting limiter. */
  lemma {:induction false} BurstsGranted(s: Settings, buckets: Buckets, key: string, n: nat, left: real, k: nat, at: real)
    requires Sane(s) && s.idleTtl > 0.0 && n >= 1 && left >= 0.0 && s.burst == n as real + left
    requires Evict(s, buckets, at) == map[]
    ensures |Bursts(key, n, k, s.idleTtl, at)| == k * n
    ensures Answers(s, buckets, Bursts(key, n, k, s.idleTtl, at), true) == seq(k * n, _ => true)
    decreases k
  {
    hide Decide, Available, Refill, Burst;
    if k > 0 {
      var drained: Buckets := map[key := Bucket(left, at, at)];
      assert Evict(s, drained, at + s.idleTtl) == map[];
      BurstsGranted(s, drained, key, n, left, k - 1, at + s.idleTtl);
      SpendFresh(s, buckets, key, n, left, at, Bursts(key, n, k - 1, s.idleTtl, at + s.idleTtl));
      assert k * n == n + (k - 1) * n;
    }
  }

  /** What is left of a burst and the refill that makes it a whole token grant one more call. */
  lemma TopUpGranted(s: Settings, key: string, left: real, at: real, later: real, rest: seq<Call>)
    requires Sane(s) && at <= later < at + s.idleTtl && s.burst >= 1.0
    requires left + Refill(s.rate, later - at) == 1.0
    ensures Answers(s, map[key := Bucket(left, at, at)], Burst(key, 1, later) + rest, true)
         == [true] + Answers(s, map[key := Bucket(0.0, later, later)], rest, true)
  {
    hide Refill;
    var buckets, calls := map[key := Bucket(left, at, at)], Burst(key, 1, later) + rest;
    assert Evict(s, buckets, later) == buckets;
    assert calls[0] == Call(key, later) && calls[1..] == rest;
    assert buckets[key := Bucket(0.0, later, later)] == map[key := Bucket(0.0, later, later)];
  }

  /** A burst topped up to one call more, `wait` later. */
  function ToppedUp(key: string, n: nat, at: real, wait: real): seq<Call> {
    Burst(key, n, at) + Burst(key, 1, at + wait)
  }

  /** Two topped-up bursts, an idle period after each other, are granted as well. */
  lemma ToppedUpGranted(s: Settings, key: string, n: nat, left: real, wait: real)
    requires Sane(s) && n >= 1 && left >= 0.0 && s.burst == n as real + left
    requires 0.0 <= wait < s.idleTtl && left + Refill(s.rate, wait) == 1.0
    ensures Answers(s, map[], ToppedUp(key, n, 0.0, wait) + ToppedUp(key, n, wait + s.idleTtl, wait), true)
         == seq(2 * (n + 1), _ => true)
  {
    hide Refill, Available, Decide, Answers;
    var again := wait + s.idleTtl;
    var drained: Buckets := map[key := Bucket(0.0, wait, wait)];
    var last, second := Burst(key, 1, again + wait), ToppedUp(key, n, again, wait);
    NothingAsked(s, map[key := Bucket(0.0, again + wait, again + wait)]);
    assert last == last + [];
    TopUpGranted(s, key, left, again, again + wait, []);
    assert Evict(s, drained, again) == map[] && Evict(s, map[], 0.0) == map[];
    SpendFresh(s, drained, key, n, left, again, last);
    TopUpGranted(s, key, left, 0.0, wait, second);
    SpendFresh(s, map[], key, n, left, 0.0, Burst(key, 1, 0.0 + wait) + second);
    assert ToppedUp(key, n, 0.0, wait) + second == Burst(key, n, 0.0) + (Burst(key, 1, 0.0 + wait) + second);
  }

  lemma NothingAsked(s: Settings, buckets: Buckets)
    ensures Answers(s, buckets, [], true) == []
  {
  }

  lemma {:induction false} AllAccepted(calls: seq<Call>, key: string)
    requires forall i :: 0 <= i < |calls| ==> calls[i].key == key
    ensures Accepted(calls, seq(|calls|, _ => true), key) == |calls|
  {
    if calls != [] {
      AllAccepted(calls[1..], key);
      assert seq(|calls|, _ => true)[1..] == seq(|calls| - 1, _ => true);
    }
  }

  /** The bound for every stretch of every run, as one statement. */
  ghost predicate BoundHolds(s: Settings) {
    forall calls: seq<Call>, key: string, i: nat, j: nat ::
      ClockNeverGoesBack(calls) && i < j <= |calls| ==>
        Accepted(calls[i..j], Answers(s, map[], calls, true)[i..j], key) as real
          <= s.burst + Refill(s.rate, calls[j - 1].now - calls[i].now)
  }

  /** A run of one key that is granted more calls than the bound allows. */
  lemma Exceeds(s: Settings, calls: seq<Call>, key: string)
    requires calls != [] && ClockNeverGoesBack(calls) && forall call | call in calls :: call.key == key
    requires Answers(s, map[], calls, true) == seq(|calls|, _ => true)
    requires |calls| as real > s.burst + Refill(s.rate, calls[|calls| - 1].now - calls[0].now)
    ensures !BoundHolds(s)
  {
    AllAccepted(calls, key);
    if BoundHolds(s) {
      BoundOfWhole(s, calls, key);
    }
    hide *;
  }

  lemma BoundOfWhole(s: Settings, calls: seq<Call>, key: string)
    requires BoundHolds(s) && ClockNeverGoesBack(calls) && calls != []
    ensures Accepted(calls, Answers(s, map[], calls, true), key) as real
         <= s.burst + Refill(s.rate, calls[|calls| - 1].now - calls[0].now)
  {
    hide Answers, Refill, Accepted, ClockNeverGoesBack;
    assert calls[0..|calls|] == calls;
    assert Answers(s, map[], calls, true)[0..|calls|] == Answers(s, map[], calls, true);
  }

  /** Three bursts exceed the bound when an idle period brings less than what a burst leaves short of a token. */
  lemma ThreeBurstsExceed(s: Settings, n: nat, left: real)
    requires Sane(s) && s.idleTtl > 0.0 && n >= 1 && 0.0 <= left < 1.0 && s.burst == n as real + left
    requires Refill(s.rate, s.idleTtl) <= 1.0 - left && !RefillsWhileIdle(s)
    ensures !BoundHolds(s)
  {
    var calls := Bursts("k", n, 3, s.idleTtl, 0.0);
    BurstsGranted(s, map[], "k", n, left, 3, 0.0);
    ThreeBurstsAre("k", n, s.idleTtl);
    RefillAdds(s.rate, 0.0, s.idleTtl, 2.0 * s.idleTtl);
    hide Answers, Refill, Bursts;
    Exceeds(s, calls, "k");
  }

  lemma ThreeBurstsAre(key: string, n: nat, gap: real)
    requires gap >= 0.0
    ensures var calls := Bursts(key, n, 3, gap, 0.0);
            && |calls| == 3 * n && ClockNeverGoesBack(calls) && (forall call | call in calls :: call.key == key)
            && (n > 0 ==> calls[0].now == 0.0 && calls[3 * n - 1].now == 2.0 * gap)
  {
    var calls := Bursts(key, n, 3, gap, 0.0);
    assert calls == Burst(key, n, 0.0) + (Burst(key, n, gap) + (Burst(key, n, gap + gap) + []));
    assert forall i | 0 <= i < 3 * n ::
      calls[i] == Call(key, if i < n then 0.0 else if i < 2 * n then gap else gap + gap);
  }

  /** Two topped-up bursts exceed it when the top-up fits into an idle period. */
  lemma ToppedUpExceed(s: Settings, n: nat, left: real)
    requires Sane(s) && s.idleTtl > 0.0 && n >= 1 && 0.0 <= left < 1.0 && s.burst == n as real + left
    requires Refill(s.rate, s.idleTtl) > 1.0 - left && !RefillsWhileIdle(s)
    ensures !BoundHolds(s)
  {
    hide Answers, Refill, ToppedUp, ClockNeverGoesBack, BoundHolds;
    var wait := TopUpTime(s.rate, s.idleTtl, left);
    var calls := ToppedUp("k", n, 0.0, wait) + ToppedUp("k", n, wait + s.idleTtl, wait);
    ToppedUpGranted(s, "k", n, left, wait);
    RefillAdds(s.rate, 0.0, wait, wait + s.idleTtl);
    RefillAdds(s.rate, 0.0, wait + s.idleTtl, wait + s.idleTtl + wait);
    ToppedUpAre("k", n, wait, s.idleTtl);
    Exceeds(s, calls, "k");
  }

  lemma ToppedUpAre(key: string, n: nat, wait: real, gap: real)
    requires n >= 1 && wait >= 0.0 && gap >= 0.0
    ensures var calls := ToppedUp(key, n, 0.0, wait) + ToppedUp(key, n, wait + gap, wait);
            && |calls| == 2 * (n + 1) && ClockNeverGoesBack(calls) && (forall call | call in calls :: call.key == key)
            && calls[0].now == 0.0 && calls[|calls| - 1].now == wait + gap + wait
  {
    var calls := ToppedUp(key, n, 0.0, wait) + ToppedUp(key, n, wait + gap, wait);
    assert forall i | 0 <= i < 2 * (n + 1) :: calls[i] == Call(key,
      if i < n then 0.0 else if i == n then wait else if i < 2 * n + 1 then wait + gap else wait + gap + wait);
  }

  lemma TopUpTime(rate: real, idle: real, left: real) returns (wait: real)
    requires rate >= 0.0 && idle > 0.0 && 0.0 <= left < 1.0 && Refill(rate, idle) > 1.0 - left
    ensures 0.0 <= wait < idle && left + Refill(rate, wait) == 1.0
  {
    assert rate > 0.0;
    wait := (1.0 - left) / rate;
    assert wait * rate == 1.0 - left;
    SmallerFactor(rate, wait, idle);
  }

  lemma SmallerFactor(rate: real, a: real, b: real)
    requires rate > 0.0 && a * rate < b * rate
    ensures a < b
  {
  }

  /**
   * The bound holds of every run if and only if no bucket is ever forgotten, an
   * idle period refills one, or nothing is granted at all: otherwise eviction
   * hands out a burst early.
   */
  lemma BoundHoldsExactlyWhenIdleRefills(s: Settings)
    requires Sane(s)
    ensures BoundHolds(s) <==> s.idleTtl <= 0.0 || RefillsWhileIdle(s) || s.burst < 1.0
  {
    if ForgetsSafely(s) {
      forall calls: seq<Call>, key: string, i: nat, j: nat | ClockNeverGoesBack(calls) && i < j <= |calls|
        ensures Accepted(calls[i..j], Answers(s, map[], calls, true)[i..j], key) as real
             <= s.burst + Refill(s.rate, calls[j - 1].now - calls[i].now)
      {
        WindowBound(s, calls, key, i, j);
      }
    } else {
      var n: nat := s.burst.Floor;
      var left := s.burst - n as real;
      hide BoundHolds, RefillsWhileIdle, Refill;
      if Refill(s.rate, s.idleTtl) <= 1.0 - left {
        ThreeBurstsExceed(s, n, left);
      } else {
        ToppedUpExceed(s, n, left);
      }
    }
  }
}
