/** Token buckets. Time is in seconds and tokens are real numbers; the clock is an argument. */
module Buckets {

  const IDLE_SECONDS: real := 120.0

  datatype Bucket = Bucket(capacity: real, tokens: real, rate: real, last: real) {
    ghost predicate Ok() {
      capacity >= 1.0 && 0.0 <= tokens <= capacity && rate >= 0.0
    }

    predicate Stale(now: real) { now - last > IDLE_SECONDS }
  }

  function Capacity(burst: nat): (c: real)
    ensures c >= 1.0
  {
    if burst == 0 then 1.0 else burst as real
  }

  function Fresh(rate: real, burst: nat, now: real): Bucket {
    Bucket(Capacity(burst), Capacity(burst), if rate < 0.0 then 0.0 else rate, now)
  }

  /** What a rate adds between two times. */
  function Gain(rate: real, s: real, t: real): real { rate * (t - s) }

  /** A count is within a burst and what a rate earns between two times. */
  ghost predicate Earned(count: int, burst: real, rate: real, s: real, t: real) {
    count as real <= burst + rate * (t - s)
  }

  lemma GainEarns(count: int, burst: real, rate: real, s: real, t: real)
    requires count as real <= burst + Gain(rate, s, t)
    ensures Earned(count, burst, rate, s, t)
  {
  }

  lemma CapacityIs(burst: nat)
    ensures Capacity(burst) == (if burst > 1 then burst else 1) as real
  {
  }

  lemma Nonnegative(a: real, b: real)
    requires a >= 0.0 && b >= 0.0
    ensures a * b >= 0.0
  {
  }

  lemma Distributes(a: real, x: real, y: real)
    ensures a * (x + y) == a * x + a * y
  {
  }

  lemma GainFacts(rate: real, s: real, t: real, u: real)
    requires rate >= 0.0 && s <= t <= u
    ensures 0.0 <= Gain(rate, s, t) && 0.0 <= Gain(rate, t, u)
    ensures Gain(rate, s, u) == Gain(rate, s, t) + Gain(rate, t, u)
  {
    Nonnegative(rate, t - s);
    Nonnegative(rate, u - t);
    Distributes(rate, t - s, u - t);
    assert u - s == (t - s) + (u - t);
  }

  function Min(a: real, b: real): real { if a < b then a else b }

  function Refill(b: Bucket, now: real): Bucket {
    if now > b.last then
      b.(tokens := Min(b.tokens + Gain(b.rate, b.last, now), b.capacity), last := now)
    else b
  }

  function Spend(b: Bucket): Bucket { b.(tokens := b.tokens - 1.0) }

  /** Refill, then take one token if there is one: `allow(now, 1.0)`. */
  function Serve(b: Bucket, now: real): (Bucket, bool) {
    var r := Refill(b, now);
    if r.tokens >= 1.0 then (Spend(r), true) else (r, false)
  }

  lemma RefillOk(b: Bucket, now: real)
    requires b.Ok()
    ensures Refill(b, now).Ok()
    ensures Refill(b, now).tokens >= b.tokens
  {
    if now > b.last { GainFacts(b.rate, b.last, now, now); }
  }

  lemma ServeOk(b: Bucket, now: real)
    requires b.Ok()
    ensures Serve(b, now).0.Ok()
  {
    RefillOk(b, now);
  }

  /** Refilling in two steps gives what one refill gives, so a refill stored early is invisible. */
  lemma RefillCompose(b: Bucket, s: real, t: real)
    requires b.Ok() && s <= t
    ensures Refill(Refill(b, s), t) == Refill(b, t)
  {
    if s > b.last {
      GainFacts(b.rate, b.last, s, t);
    }
  }

  /** A stale bucket that can refill its burst in the idle period equals a fresh one. */
  lemma StaleIsFresh(b: Bucket, burst: nat, now: real)
    requires b.Ok() && b.capacity == Capacity(burst)
    requires now - b.last >= IDLE_SECONDS && b.rate * IDLE_SECONDS >= b.capacity
    ensures Refill(b, now) == Fresh(b.rate, burst, now)
  {
    var mid := b.last + IDLE_SECONDS;
    GainFacts(b.rate, b.last, mid, now);
    assert Gain(b.rate, b.last, mid) == b.rate * IDLE_SECONDS by { assert mid - b.last == IDLE_SECONDS; }
    assert Refill(b, now).tokens == b.capacity;
  }

  /** The staleness rule is exact: every stale bucket would refill to capacity if and only if
      the rate refills the whole burst within the idle period. */
  lemma StaleFullIff(rate: real, burst: nat)
    requires rate >= 0.0
    ensures (forall b: Bucket, now: real ::
               b.Ok() && b.rate == rate && b.capacity == Capacity(burst) && b.Stale(now)
               ==> Refill(b, now).tokens == b.capacity)
            <==> rate * 120.0 >= Capacity(burst)
  {
    var c := Capacity(burst);
    if rate * IDLE_SECONDS >= c {
      forall b: Bucket, now: real
        | b.Ok() && b.rate == rate && b.capacity == c && b.Stale(now)
        ensures Refill(b, now).tokens == b.capacity
      {
        StaleIsFresh(b, burst, now);
      }
    } else {
      var b := Bucket(c, 0.0, rate, 0.0);
      var extra := if rate == 0.0 then 1.0 else (c - rate * IDLE_SECONDS) / (2.0 * rate);
      var now := IDLE_SECONDS + extra;
      if rate > 0.0 {
        assert extra * (2.0 * rate) == c - rate * IDLE_SECONDS;
        assert extra > 0.0;
        assert Gain(rate, 0.0, now) == rate * IDLE_SECONDS + rate * extra;
      }
      assert b.Ok() && b.Stale(now) && Refill(b, now).tokens < c;
    }
  }

  /** The tokens a bucket would show at `now`. */
  function Level(b: Bucket, now: real): real { Refill(b, now).tokens }

  /** A bucket amounts to a new one exactly when it is full. */
  lemma FullIff(b: Bucket, rate: real, burst: nat, now: real)
    requires rate >= 0.0 && b.capacity == Capacity(burst) && b.rate == rate && b.last <= now
    ensures Refill(Fresh(rate, burst, now), now) == Fresh(rate, burst, now)
    ensures Fresh(rate, burst, now) == Refill(b, now) <==> Level(b, now) == Capacity(burst)
  {
  }

  /** Between two readings the level grows by at most rate times the time between them. */
  lemma LevelGrowth(b: Bucket, s: real, t: real)
    requires b.Ok() && s <= t
    ensures Level(b, t) <= Level(b, s) + Gain(b.rate, s, t)
    ensures Level(b, t) <= b.capacity
  {
    RefillOk(b, t);
    GainFacts(b.rate, s, s, t);
    if s > b.last {
      GainFacts(b.rate, b.last, s, t);
    } else if t > b.last {
      GainFacts(b.rate, s, b.last, t);
    }
  }

  // ---- runs of one bucket ----

  ghost predicate Nondecreasing(clock: real, times: seq<real>) {
    && (forall i | 0 <= i < |times| :: clock <= times[i])
    && (forall i, j | 0 <= i < j < |times| :: times[i] <= times[j])
  }

  function ServeAll(b: Bucket, times: seq<real>): (r: (Bucket, seq<bool>))
    ensures |r.1| == |times|
    decreases times
  {
    if times == [] then (b, [])
    else
      var (b', ok) := Serve(b, times[0]);
      var (end, oks) := ServeAll(b', times[1..]);
      (end, [ok] + oks)
  }

  function Trues(s: seq<bool>): nat {
    if s == [] then 0 else (if s[0] then 1 else 0) + Trues(s[1..])
  }

  /** Grants in a run never exceed the level at its start plus what the rate adds until its end;
      what is left at the end is counted too. */
  lemma {:induction false} ServeBudget(b: Bucket, clock: real, times: seq<real>)
    requires b.Ok() && Nondecreasing(clock, times)
    ensures var (end, oks) := ServeAll(b, times);
      var t := if times == [] then clock else times[|times| - 1];
      end.Ok() && end.rate == b.rate && end.capacity == b.capacity
      && Trues(oks) as real + Level(end, t) <= Level(b, clock) + Gain(b.rate, clock, t)
    decreases times
  {
    if times != [] {
      var t0 := times[0];
      var (b', ok) := Serve(b, t0);
      ServeOk(b, t0);
      RefillOk(b, t0);
      LevelGrowth(b, clock, t0);
      ServeBudget(b', t0, times[1..]);
      var t := times[|times| - 1];
      GainFacts(b.rate, clock, t0, t);
    }
  }

  lemma WindowGain(b: Bucket, times: seq<real>)
    requires b.Ok() && times != [] && Nondecreasing(times[0], times)
    ensures Trues(ServeAll(b, times).1) as real
            <= b.capacity + Gain(b.rate, times[0], times[|times| - 1])
  {
    ServeBudget(b, times[0], times);
    RefillOk(b, times[0]);
    RefillOk(ServeAll(b, times).0, times[|times| - 1]);
  }

  /** Any window of requests on one bucket is granted at most burst + rate x window length. */
  lemma WindowBound(b: Bucket, times: seq<real>)
    requires b.Ok() && times != [] && Nondecreasing(times[0], times)
    ensures Earned(Trues(ServeAll(b, times).1), b.capacity, b.rate, times[0], times[|times| - 1])
  {
    hide Earned, Gain, ServeAll, Nondecreasing;
    WindowGain(b, times);
    GainEarns(Trues(ServeAll(b, times).1), b.capacity, b.rate, times[0], times[|times| - 1]);
  }

  // ---- the bucket as the source keeps it ----

  class TokenBucket {
    const capacity: real
    const rate: real
    var tokens: real
    var last: real

    ghost function View(): Bucket reads this { Bucket(capacity, tokens, rate, last) }

    constructor (rate: real, burst: nat, now: real)
      ensures View() == Fresh(rate, burst, now)
    {
      this.capacity := if burst == 0 then 1.0 else burst as real;
      this.tokens := if burst == 0 then 1.0 else burst as real;
      this.rate := if rate < 0.0 then 0.0 else rate;
      this.last := now;
    }

    method RefillAt(now: real)
      modifies this
      ensures View() == Refill(old(View()), now)
    {
      if now - last > 0.0 {
        var grown := tokens + rate * (now - last);
        tokens := if grown < capacity then grown else capacity;
        last := now;
      }
    }

    method HasToken(now: real) returns (has: bool)
      modifies this
      ensures View() == Refill(old(View()), now)
      ensures has <==> View().tokens >= 1.0
    {
      RefillAt(now);
      has := tokens >= 1.0;
    }

    method Allow(now: real) returns (ok: bool)
      modifies this
      ensures (View(), ok) == Serve(old(View()), now)
    {
      RefillAt(now);
      ok := tokens >= 1.0;
      if ok {
        tokens := tokens - 1.0;
      }
    }

    /** The locked check-and-take on the shared bucket. */
    method TryConsume(now: real) returns (ok: bool)
      modifies this
      ensures (View(), ok) == Serve(old(View()), now)
    {
      var has := HasToken(now);
      if !has {
        return false;
      }
      tokens := tokens - 1.0;
      return true;
    }
  }
}
