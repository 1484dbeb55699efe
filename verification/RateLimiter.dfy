/**
 The token bucket against its declarative meaning, over reals: a call is admitted exactly when no window
 of time ending now would then hold more than the burst plus what the rate refills in it.
 */
module RateLimiter {
  import opened Types

  datatype Bucket = Bucket(burst: real, rate: real, start: real)

  /** One call: when it read the clock, and whether it was let through. */
  datatype Decision = Decision(time: real, admitted: bool)

  function Cost(d: Decision): real {
    if d.admitted then 1.0 else 0.0
  }

  /** What a stretch of time adds. */
  function Refill(b: Bucket, from: real, to: real): real {
    (to - from) * b.rate
  }

  lemma RefillIs(b: Bucket, x: real, y: real)
    ensures Refill(b, x, y) == (y - x) * b.rate
  {
  }

  lemma RefillSplits(b: Bucket, x: real, y: real, z: real)
    ensures Refill(b, x, z) == Refill(b, x, y) + Refill(b, y, z)
  {
  }

  lemma RefillGrows(b: Bucket, x: real, y: real)
    requires b.rate >= 0.0 && x <= y
    ensures Refill(b, x, y) >= 0.0
  {
  }

  lemma RefillShrinks(b: Bucket, x: real, y: real)
    requires b.rate <= 0.0 && x <= y
    ensures Refill(b, x, y) <= 0.0
  {
    assert (y - x) * -b.rate >= 0.0;
  }

  function Admitted(h: seq<Decision>): real {
    if h == [] then 0.0 else Admitted(h[..|h| - 1]) + Cost(h[|h| - 1])
  }

  /** How many calls were let through. */
  function CountAdmitted(h: seq<Decision>): nat {
    if h == [] then 0 else CountAdmitted(h[..|h| - 1]) + if h[|h| - 1].admitted then 1 else 0
  }

  /** A token for each call that was let through. */
  lemma {:induction false} AdmittedIsCount(h: seq<Decision>)
    ensures Admitted(h) == CountAdmitted(h) as real
  {
    if h != [] {
      AdmittedIsCount(h[..|h| - 1]);
    }
  }

  function Min(x: real, y: real): real {
    if x > y then y else x
  }

  function LastTime(b: Bucket, h: seq<Decision>): real {
    if h == [] then b.start else h[|h| - 1].time
  }

  /** The tokens left after a history of calls. */
  function TokensAfter(b: Bucket, h: seq<Decision>): real {
    if h == [] then b.burst
    else
      var init, last := h[..|h| - 1], h[|h| - 1];
      Min(b.burst, TokensAfter(b, init) + Refill(b, LastTime(b, init), last.time)) - Cost(last)
  }

  /** The tokens a call at `now` finds once the bucket is refilled. */
  function Refilled(b: Bucket, h: seq<Decision>, now: real): real {
    Min(b.burst, TokensAfter(b, h) + Refill(b, LastTime(b, h), now))
  }

  // ---- Windows ----

  /** The start points of windows ending now: the bucket's creation, every call, and now itself. */
  function StartOf(b: Bucket, h: seq<Decision>, j: nat, now: real): real
    requires j <= |h| + 1
  {
    if j == 0 then b.start else if j <= |h| then h[j - 1].time else now
  }

  function Since(h: seq<Decision>, j: nat): (r: seq<Decision>)
    requires j <= |h| + 1
  {
    if j == 0 then h else h[j - 1..]
  }

  /** What a window still has room for. */
  function Room(b: Bucket, h: seq<Decision>, j: nat, now: real): real
    requires j <= |h| + 1
  {
    b.burst + Refill(b, StartOf(b, h, j, now), now) - Admitted(Since(h, j))
  }

  ghost predicate IsLeastRoom(x: real, b: Bucket, h: seq<Decision>, now: real) {
    && (forall j :: 0 <= j <= |h| + 1 ==> x <= Room(b, h, j, now))
    && (exists j :: 0 <= j <= |h| + 1 && x == Room(b, h, j, now))
  }

  /** From one call to the next, every window's room grows by the refill and shrinks by the call. */
  lemma RoomNext(b: Bucket, h: seq<Decision>, j: nat, now: real)
    requires h != [] && j <= |h|
    ensures var last := h[|h| - 1];
      Room(b, h, j, now) == Room(b, h[..|h| - 1], j, last.time) + Refill(b, last.time, now) - Cost(last)
  {
    hide Refill;
    var n := |h| - 1;
    var init := h[..n];
    if j <= n {
      assert Since(h, j)[..|Since(h, j)| - 1] == Since(init, j);
    } else {
      assert Since(h, j) == [h[n]] && Since(init, j) == [];
      assert [h[n]][..0] == [];
    }
    var s := StartOf(b, init, j, h[n].time);
    assert s == StartOf(b, h, j, now);
    RefillSplits(b, s, h[n].time, now);
  }

  lemma RoomNow(b: Bucket, h: seq<Decision>, now: real)
    ensures Room(b, h, |h| + 1, now) == b.burst
  {
    assert Refill(b, now, now) == 0.0;
    assert Since(h, |h| + 1) == [];
  }

  /** The tokens a call finds are the least room that any window has: for every clock, monotone or not. */
  lemma {:induction false} TokensAreLeastRoom(b: Bucket, h: seq<Decision>, now: real)
    ensures IsLeastRoom(Refilled(b, h, now), b, h, now)
  {
    hide Refill;
    RoomNow(b, h, now);
    if h == [] {
      assert Room(b, h, 0, now) == b.burst + Refill(b, b.start, now);
    } else {
      var n := |h| - 1;
      var init, last := h[..n], h[n];
      TokensAreLeastRoom(b, init, last.time);
      var x := Refilled(b, init, last.time);
      assert TokensAfter(b, h) == x - Cost(last);
      forall j | 0 <= j <= |h| + 1
        ensures Refilled(b, h, now) <= Room(b, h, j, now)
      {
        if j <= |h| {
          RoomNext(b, h, j, now);
          assert x <= Room(b, init, j, last.time);
        }
      }
      var k :| 0 <= k <= |init| + 1 && x == Room(b, init, k, last.time);
      RoomNext(b, h, k, now);
      assert Refilled(b, h, now) == Min(b.burst, Room(b, h, k, now));
    }
  }

  // ---- Histories of the limiter ----

  /** Every decision is the one the bucket takes. */
  ghost predicate Faithful(b: Bucket, h: seq<Decision>) {
    forall i :: 0 <= i < |h| ==> (h[i].admitted <==> Refilled(b, h[..i], h[i].time) >= 1.0)
  }

  /** A call finds a token exactly when every window has room for one more. */
  lemma TokenExactlyWhenRoom(b: Bucket, h: seq<Decision>, now: real)
    ensures Refilled(b, h, now) >= 1.0 <==> forall j :: 0 <= j <= |h| + 1 ==> Room(b, h, j, now) >= 1.0
  {
    hide Refill, Refilled, Room;
    TokensAreLeastRoom(b, h, now);
  }

  /**
   A call is admitted exactly when every window, from every start point, has room for one more: the burst and
   what the rate brings in that time, less the calls let through in it.
   */
  lemma AdmitsExactlyWhenAllWindowsAllow(b: Bucket, h: seq<Decision>, i: nat)
    requires Faithful(b, h) && i < |h|
    ensures h[i].admitted <==> forall j :: 0 <= j <= i + 1 ==>
      b.burst + (h[i].time - StartOf(b, h[..i], j, h[i].time)) * b.rate - CountAdmitted(Since(h[..i], j)) as real >= 1.0
  {
    hide *;
    AdmittedHasRoom(b, h, i);
    forall j | 0 <= j <= i + 1
      ensures Room(b, h[..i], j, h[i].time) ==
        b.burst + (h[i].time - StartOf(b, h[..i], j, h[i].time)) * b.rate - CountAdmitted(Since(h[..i], j)) as real
    {
      RoomIs(b, h[..i], j, h[i].time);
    }
  }

  lemma RoomIs(b: Bucket, h: seq<Decision>, j: nat, now: real)
    requires j <= |h| + 1
    ensures Room(b, h, j, now) == b.burst + (now - StartOf(b, h, j, now)) * b.rate - CountAdmitted(Since(h, j)) as real
  {
    AdmittedIsCount(Since(h, j));
    hide StartOf, Since, Admitted, CountAdmitted;
  }

  /** In terms of the room. */
  lemma AdmittedHasRoom(b: Bucket, h: seq<Decision>, i: nat)
    requires Faithful(b, h) && i < |h|
    ensures h[i].admitted <==> forall j :: 0 <= j <= i + 1 ==> Room(b, h[..i], j, h[i].time) >= 1.0
  {
    hide Refill, Refilled, Room;
    TokenExactlyWhenRoom(b, h[..i], h[i].time);
  }

  ghost predicate Monotone(h: seq<Decision>) {
    forall i, j :: 0 <= i <= j < |h| ==> h[i].time <= h[j].time
  }

  lemma AdmittedNext(h: seq<Decision>, i: nat, k: nat)
    requires i <= k < |h|
    ensures Admitted(h[i..k + 1]) == Admitted(h[i..k]) + Cost(h[k])
  {
    assert h[i..k + 1][..k - i] == h[i..k];
  }

  /** What the window from call `i` has room for when call `k` is decided. */
  lemma RoomSince(b: Bucket, h: seq<Decision>, i: nat, k: nat)
    requires i <= k < |h|
    ensures Room(b, h[..k], i + 1, h[k].time) == b.burst + Refill(b, h[i].time, h[k].time) - Admitted(h[i..k])
  {
    hide Refill, Admitted;
    assert Since(h[..k], i + 1) == h[i..k];
  }

  /**
   The rate limit, with a clock that does not go back: however the calls fall, from one call to any later
   one at most the burst plus what the rate refills between them is admitted.
   */
  lemma WindowBound(b: Bucket, h: seq<Decision>, i: nat, k: nat)
    requires b.burst >= 0.0 && b.rate >= 0.0 && Faithful(b, h) && Monotone(h)
    requires i <= k < |h|
    ensures CountAdmitted(h[i..k + 1]) as real <= b.burst + (h[k].time - h[i].time) * b.rate
  {
    hide *;
    WindowHolds(b, h, i, k);
    AdmittedIsCount(h[i..k + 1]);
    RefillIs(b, h[i].time, h[k].time);
  }

  lemma {:induction false} WindowHolds(b: Bucket, h: seq<Decision>, i: nat, k: nat)
    requires b.burst >= 0.0 && b.rate >= 0.0 && Faithful(b, h) && Monotone(h)
    requires i <= k < |h|
    ensures Admitted(h[i..k + 1]) <= b.burst + Refill(b, h[i].time, h[k].time)
    decreases k
  {
    hide Refill, Refilled, Room, Admitted, Faithful;
    AdmittedNext(h, i, k);
    if h[k].admitted {
      AdmittedHasRoom(b, h, k);
      RoomSince(b, h, i, k);
    } else if i == k {
      assert h[i..k] == [];
      NothingAdmitted();
      RefillGrows(b, h[i].time, h[k].time);
    } else {
      WindowHolds(b, h, i, k - 1);
      RefillGrows(b, h[k - 1].time, h[k].time);
      RefillSplits(b, h[i].time, h[k - 1].time, h[k].time);
    }
  }

  lemma NothingAdmitted()
    ensures Admitted([]) == 0.0
  {
  }

  // ---- Waiting ----

  const INT64_LIMIT: real := 9223372036854775808.0

  function Truncated(x: real): int {
    if x >= 0.0 then x.Floor else -(-x).Floor
  }

  /** What a refused call still needs, in nanoseconds; dividing by a rate of zero gives infinity. */
  function Deficit(rate: real, tokens: real): Option<real> {
    if rate == 0.0 then None else Some((1.0 - tokens) / rate * 1_000_000_000.0)
  }

  /** Converting to a duration keeps what fits an int64; Go leaves the rest to the platform. */
  predicate Converts(rate: real, tokens: real) {
    var d := Deficit(rate, tokens);
    d.Some? && -INT64_LIMIT <= Truncated(d.value) as real < INT64_LIMIT
  }

  /**
   The sleep of a refused call, truncated to whole nanoseconds. `beyond` is what the platform gives for a
   value that does not fit; a sleep that is not positive returns at once.
   */
  function SleepFor(rate: real, tokens: real, beyond: real): real {
    if Converts(rate, tokens) then Truncated(Deficit(rate, tokens).value) as real / 1_000_000_000.0 else beyond
  }

  /**
   How long a refused call has to sleep if nobody else calls: exactly the deficit over the rate, and
   never if the burst is below one. The code's sleep, where it fits a duration, falls short of that by
   less than a nanosecond.
   */
  lemma SleepSuffices(b: Bucket, h: seq<Decision>, now: real, later: real, beyond: real)
    requires b.rate > 0.0 && Refilled(b, h, now) < 1.0
    ensures var deficit, sleep := 1.0 - Refilled(b, h, now), SleepFor(b.rate, Refilled(b, h, now), beyond);
      (Refilled(b, h + [Decision(now, false)], later) >= 1.0 <==> b.burst >= 1.0 && later - now >= deficit / b.rate) &&
      (if deficit / b.rate < INT64_LIMIT / 1_000_000_000.0
       then sleep <= deficit / b.rate < sleep + 0.000_000_001
       else sleep == beyond)
  {
    hide SleepFor, TokensAfter, LastTime, Converts, Deficit, Truncated;
    var x := Refilled(b, h, now);
    RefusedNext(b, h, now, later);
    DivideBound(1.0 - x, b.rate, later - now);
    assert Refill(b, now, later) == (later - now) * b.rate;
    SleepIs(b.rate, x, beyond);
  }

  lemma SleepIs(rate: real, tokens: real, beyond: real)
    requires rate > 0.0 && tokens < 1.0
    ensures var wait, sleep := (1.0 - tokens) / rate, SleepFor(rate, tokens, beyond);
      if wait < INT64_LIMIT / 1_000_000_000.0 then sleep <= wait < sleep + 0.000_000_001 else sleep == beyond
  {
    var wait := (1.0 - tokens) / rate;
    assert wait > 0.0;
    var ns := wait * 1_000_000_000.0;
    assert Deficit(rate, tokens) == Some(ns);
    FloorBelow(ns, 9223372036854775808);
  }

  lemma FloorBelow(x: real, n: int)
    ensures x.Floor < n <==> x < n as real
  {
  }

  lemma RefusedNext(b: Bucket, h: seq<Decision>, now: real, later: real)
    ensures Refilled(b, h + [Decision(now, false)], later) == Min(b.burst, Refilled(b, h, now) + Refill(b, now, later))
  {
    var h' := h + [Decision(now, false)];
    assert h'[..|h'| - 1] == h;
  }

  /** A refused call gets through at some later reading if and only if the rate is positive and the burst at least one. */
  lemma WaitEndsExactlyWhen(b: Bucket, h: seq<Decision>, now: real)
    requires Refilled(b, h, now) < 1.0
    ensures (exists later :: later >= now && Refilled(b, h + [Decision(now, false)], later) >= 1.0) <==>
            b.rate > 0.0 && b.burst >= 1.0
  {
    hide Refill, Refilled;
    var x := Refilled(b, h, now);
    if b.rate > 0.0 {
      var later := now + (1.0 - x) / b.rate;
      assert (1.0 - x) / b.rate > 0.0;
      SleepSuffices(b, h, now, later, 0.0);
      forall t | t >= now ensures b.burst < 1.0 ==> Refilled(b, h + [Decision(now, false)], t) < 1.0 {
        SleepSuffices(b, h, now, t, 0.0);
      }
    } else {
      forall t | t >= now ensures Refilled(b, h + [Decision(now, false)], t) < 1.0 {
        RefusedNext(b, h, now, t);
        RefillShrinks(b, now, t);
      }
    }
  }

  lemma DivideBound(d: real, rate: real, t: real)
    requires rate > 0.0
    ensures t * rate >= d <==> t >= d / rate
  {
    assert d == (d / rate) * rate;
    if t >= d / rate {
      assert t * rate >= (d / rate) * rate;
    } else {
      assert t * rate < (d / rate) * rate;
    }
  }

  // ---- The limiter ----

  lemma Extends(b: Bucket, h: seq<Decision>, d: Decision)
    requires Faithful(b, h) && (d.admitted <==> Refilled(b, h, d.time) >= 1.0)
    ensures Faithful(b, h + [d])
    ensures TokensAfter(b, h + [d]) == Refilled(b, h, d.time) - Cost(d) && LastTime(b, h + [d]) == d.time
  {
    hide Refill;
    var h' := h + [d];
    assert h'[..|h|] == h;
    forall i | 0 <= i < |h|
      ensures h'[i].admitted <==> Refilled(b, h'[..i], h'[i].time) >= 1.0
    {
      assert h'[..i] == h[..i];
    }
  }

  function Refusals(times: seq<real>): seq<Decision> {
    seq(|times|, i requires 0 <= i < |times| => Decision(times[i], false))
  }

  class RPCRateLimiter {
    var tokens: real
    const maxBurst: real
    const rate: real
    var lastTime: real
    ghost const start: real
    ghost var history: seq<Decision>

    ghost function Spec(): Bucket {
      Bucket(maxBurst, rate, start)
    }

    ghost predicate Valid()
      reads this
    {
      && tokens == TokensAfter(Spec(), history)
      && lastTime == LastTime(Spec(), history)
      && Faithful(Spec(), history)
    }

    constructor (ratePerSec: real, burst: int, now: real)
      ensures Valid() && history == [] && Spec() == Bucket(burst as real, ratePerSec, now)
    {
      tokens, maxBurst, rate, lastTime := burst as real, burst as real, ratePerSec, now;
      start, history := now, [];
    }

    /** The refill that both kinds of call begin with. */
    method RefillTo(now: real)
      requires tokens == TokensAfter(Spec(), history) && lastTime == LastTime(Spec(), history)
      modifies `tokens, `lastTime
      ensures tokens == Refilled(Spec(), history, now) && lastTime == now
    {
      var elapsed := now - lastTime;
      tokens := tokens + elapsed * rate;
      if tokens > maxBurst {
        tokens := maxBurst;
      }
      lastTime := now;
    }

    /** Lets a call through if there is a token: exactly if every window has room for it. */
    method Allow(now: real) returns (ok: bool)
      requires Valid()
      modifies this
      ensures Valid() && history == old(history) + [Decision(now, ok)]
      ensures tokens == Refilled(Spec(), old(history), now) - Cost(Decision(now, ok))
      ensures ok <==> forall j :: 0 <= j <= |old(history)| + 1 ==> Room(Spec(), old(history), j, now) >= 1.0
    {
      hide Refill, Refilled, TokensAfter, LastTime, Faithful, Room;
      TokenExactlyWhenRoom(Spec(), history, now);
      RefillTo(now);
      ok := tokens >= 1.0;
      Extends(Spec(), history, Decision(now, ok));
      history := history + [Decision(now, ok)];
      if ok {
        tokens := tokens - 1.0;
      }
    }

    /**
     Tries at each clock reading until let through, sleeping in between; the context is cancelled when
     the readings run out.
     */
    method Wait(clock: seq<real>, beyond: real) returns (ok: bool, sleeps: seq<real>)
      requires Valid()
      modifies this
      ensures Valid() && |sleeps| <= |clock| && (ok ==> |sleeps| < |clock|) && (!ok ==> |sleeps| == |clock|)
      ensures history == old(history) + Refusals(clock[..|sleeps|]) + if ok then [Decision(clock[|sleeps|], true)] else []
      ensures forall i :: 0 <= i < |sleeps| ==>
        sleeps[i] == SleepFor(rate, Refilled(Spec(), old(history) + Refusals(clock[..i]), clock[i]), beyond)
    {
      hide Refill, Refilled, TokensAfter, LastTime, SleepFor, Faithful, Room;
      sleeps := [];
      assert Refusals(clock[..0]) == [];
      while |sleeps| < |clock|
        invariant Valid() && |sleeps| <= |clock|
        invariant history == old(history) + Refusals(clock[..|sleeps|])
        invariant forall i :: 0 <= i < |sleeps| ==>
          sleeps[i] == SleepFor(rate, Refilled(Spec(), old(history) + Refusals(clock[..i]), clock[i]), beyond)
      {
        var now := clock[|sleeps|];
        assert Refusals(clock[..|sleeps| + 1]) == Refusals(clock[..|sleeps|]) + [Decision(now, false)];
        ok := Allow(now);
        if ok {
          return true, sleeps;
        }
        sleeps := sleeps + [SleepFor(rate, tokens, beyond)];
      }
      return false, sleeps;
    }
  }
}
