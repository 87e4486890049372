/** What the rate limiter keeps to whatever times its requests bring: clock readings are taken before
    any lock, so requests may use a shard or the shared bucket out of order. */
module RateLimitAnyOrder {
  import opened Options
  import opened Shards
  import opened Buckets
  import opened RateLimit

  // ---- every reachable table ----

  ghost predicate BucketsOk<K(!new)>(m: map<K, Bucket>) { forall k | k in m :: m[k].Ok() }

  /** Queues are permutations of their keys, shards are within capacity, and every bucket is within
      its bounds. */
  ghost predicate Steady<K(!new)>(c: Config<K>, s: State<K>) {
    && |s.shards| == SHARDS && (s.global.Some? ==> s.global.value.Ok())
    && forall j | 0 <= j < SHARDS :: Shaped(c, s.shards[j]) && BucketsOk(s.shards[j].entries)
  }

  lemma PutShaped<K(!new)>(c: Config<K>, sh: Shard<K, Bucket>, k: K, b: Bucket)
    requires Shaped(c, sh) && BucketsOk(sh.entries) && b.Ok()
    requires k in sh.entries || |sh.entries| < ShardCapacity(c.maxTracked)
    ensures Shaped(c, sh.Put(k, b)) && BucketsOk(sh.Put(k, b).entries)
  {
    PutValid(sh, k, b);
    assert sh.Put(k, b).entries.Keys == sh.entries.Keys + {k};
  }

  lemma CheckShardSteady<K(!new)>(c: Config<K>, sh: Shard<K, Bucket>, g: Option<Bucket>, k: K, now: real)
    requires c.rps > 0.0 && Shaped(c, sh) && BucketsOk(sh.entries) && (g.Some? ==> g.value.Ok())
    ensures var (sh', g', v) := CheckShard(c, sh, g, k, now);
      Shaped(c, sh') && BucketsOk(sh'.entries) && (g'.Some? ==> g'.value.Ok())
  {
    RoomShape(c, sh, k, now);
    if g.Some? { ServeOk(g.value, now); }
    var (sh1, room) := RoomFor(c, sh, k, now);
    if room {
      var b0 := if k in sh1.entries then sh1.entries[k] else FreshFor(c, now);
      RefillOk(b0, now);
      var b := Refill(b0, now);
      PutShaped(c, sh1, k, b);
      if b.tokens >= 1.0 { PutShaped(c, sh1, k, Spend(b)); }
    }
  }

  lemma StepSteady<K(!new)>(c: Config<K>, s: State<K>, e: Event<K>)
    requires Steady(c, s)
    ensures Steady(c, Step(c, s, e).0)
  {
    hide CheckShard, Shaped, BucketsOk;
    if s.global.Some? {
      RefillOk(s.global.value, e.now);
      ServeOk(s.global.value, e.now);
    }
    if e.Request? && c.rps > 0.0 {
      CheckShardSteady(c, s.shards[Home(c.shardOf, e.key)], s.global, e.key, e.now);
    }
  }

  lemma {:induction false} RunSteady<K(!new)>(c: Config<K>, s: State<K>, events: seq<Event<K>>)
    requires Steady(c, s)
    ensures Steady(c, Run(c, s, events).0)
    decreases events
  {
    hide Step;
    if events != [] {
      StepSteady(c, s, events[0]);
      RunSteady(c, Step(c, s, events[0]).0, events[1..]);
    }
  }

  lemma StartSteady<K(!new)>(c: Config<K>, g: Option<Bucket>)
    requires g.Some? ==> g.value.Ok()
    ensures Steady(c, Start(g))
  {
  }

  /** After any run the 64 shards together track at most the configured limit plus 63 keys, every
      queue is a duplicate-free permutation of its shard's keys, and no bucket is below zero or above
      its capacity. */
  lemma RunTracksBoundedKeys<K(!new)>(c: Config<K>, g: Option<Bucket>, events: seq<Event<K>>)
    requires c.maxTracked > 0 && (g.Some? ==> g.value.Ok())
    ensures var s := Run(c, Start(g), events).0;
      |s.shards| == 64 && SizeSum(s.shards) <= c.maxTracked + 63 && Steady(c, s)
  {
    StartSteady(c, g);
    RunSteady(c, Start(g), events);
    TrackedKeysBound(Run(c, Start(g), events).0.shards, c.maxTracked);
  }

  // ---- charging ----

  /** What one event does to its key's bucket and to the shared one: both are charged when it is
      admitted, and had a token; otherwise neither is. */
  ghost predicate Charges<K(!new)>(c: Config<K>, s: State<K>, e: Event<K>)
    requires |s.shards| == SHARDS
  {
    var (s', v) := Step(c, s, e);
    && |s'.shards| == SHARDS && (s.global.Some? <==> s'.global.Some?)
    && (s.global.Some? ==>
          var shared := Refill(s.global.value, e.now);
          && Refill(s'.global.value, e.now) == (if v == Allow then Spend(shared) else shared)
          && (v == Allow ==> shared.tokens >= 1.0) && (v == DenyGlobal ==> shared.tokens < 1.0))
    && (e.Request? && c.rps > 0.0 ==>
          var own := Effective(c, s, e.key, e.now);
          && Effective(c, s', e.key, e.now) == (if v == Allow then Spend(own) else own)
          && (v == Allow || v == DenyGlobal ==> own.tokens >= 1.0) && (v == DenyKey ==> own.tokens < 1.0))
    && (forall j | 0 <= j < SHARDS && (e.Peek? || j != Home(c.shardOf, e.key)) :: s'.shards[j] == s.shards[j])
  }

  lemma StepCharges<K(!new)>(c: Config<K>, s: State<K>, e: Event<K>)
    requires Steady(c, s)
    ensures Charges(c, s, e)
  {
    if e.Request? && c.rps > 0.0 {
      ChargeLaw(c, s.shards[Home(c.shardOf, e.key)], s.global, e.key, e.now);
      hide CheckShard, EffectiveIn;
    }
  }

  /** In every run, at every event, charging is all-or-nothing. */
  lemma RunCharges<K(!new)>(c: Config<K>, g: Option<Bucket>, events: seq<Event<K>>, j: nat)
    requires (g.Some? ==> g.value.Ok()) && j < |events|
    ensures Charges(c, Run(c, Start(g), events[..j]).0, events[j])
  {
    StartSteady(c, g);
    RunSteady(c, Start(g), events[..j]);
    StepCharges(c, Run(c, Start(g), events[..j]).0, events[j]);
  }

  // ---- admissions of all keys over a window ----

  function Allowed(verdicts: seq<Verdict>): nat {
    if verdicts == [] then 0 else (if verdicts[0] == Allow then 1 else 0) + Allowed(verdicts[1..])
  }

  /** The event gets as far as the shared bucket. */
  predicate Uses<K(==, !new)>(c: Config<K>, s: State<K>, e: Event<K>)
    requires |s.shards| == SHARDS
  {
    var v := Step(c, s, e).1;
    v != Refused && v != DenyKey
  }

  /** The shared bucket is refilled by the events that get to it, loses a token exactly when they are
      admitted, and is left alone by the others. */
  lemma StepShared<K(!new)>(c: Config<K>, s: State<K>, e: Event<K>)
    requires |s.shards| == SHARDS && s.global.Some?
    ensures var (s', v) := Step(c, s, e); var b := s.global.value; var r := Refill(b, e.now);
      && s'.global.Some?
      && s'.global.value == (if !Uses(c, s, e) then b else if v == Allow then Spend(r) else r)
      && (v == Allow ==> Uses(c, s, e) && r.tokens >= 1.0)
  {
    hide RoomFor, Refill;
  }

  lemma RefillBudget(b: Bucket, now: real)
    requires b.Ok()
    ensures var r := Refill(b, now);
      && r.Ok() && r.rate == b.rate && r.capacity == b.capacity && b.last <= r.last && now <= r.last
      && r.tokens <= b.tokens + Gain(b.rate, b.last, r.last)
  {
    RefillOk(b, now);
    GainFacts(b.rate, b.last, b.last, b.last);
  }

  /** Admissions and the tokens left never exceed the tokens there before plus what the rate adds
      between the latest use before and the latest use in the run. */
  lemma {:induction false} SharedBudget<K(!new)>(c: Config<K>, s: State<K>, events: seq<Event<K>>)
    requires |s.shards| == SHARDS && s.global.Some? && s.global.value.Ok()
    ensures var (end, vs) := Run(c, s, events); var g := s.global.value;
      && end.global.Some? && end.global.value.Ok() && g.last <= end.global.value.last
      && end.global.value.rate == g.rate && end.global.value.capacity == g.capacity
      && Allowed(vs) as real + end.global.value.tokens <= g.tokens + Gain(g.rate, g.last, end.global.value.last)
    decreases events
  {
    var g := s.global.value;
    GainFacts(g.rate, g.last, g.last, g.last);
    if events != [] {
      StepShared(c, s, events[0]);
      RefillBudget(g, events[0].now);
      ShardsStay(c, s, events[0]);
      hide Step, Gain, Refill;
      var (s', v) := Step(c, s, events[0]);
      SharedBudget(c, s', events[1..]);
      var (end, vs) := Run(c, s', events[1..]);
      assert Run(c, s, events).1[1..] == vs;
      GainFacts(g.rate, g.last, s'.global.value.last, end.global.value.last);
    }
  }

  lemma ShardsStay<K(!new)>(c: Config<K>, s: State<K>, e: Event<K>)
    requires |s.shards| == SHARDS
    ensures |Step(c, s, e).0.shards| == SHARDS
  {
  }

  /** The time the shared bucket shows right after its first use in the run. */
  ghost function FirstUse<K(!new)>(c: Config<K>, s: State<K>, events: seq<Event<K>>): real
    requires |s.shards| == SHARDS && s.global.Some?
    decreases events
  {
    if events == [] then s.global.value.last
    else
      StepShared(c, s, events[0]);
      var s' := Step(c, s, events[0]).0;
      if Uses(c, s, events[0]) then s'.global.value.last else FirstUse(c, s', events[1..])
  }

  lemma {:induction false} UseBudget<K(!new)>(c: Config<K>, s: State<K>, events: seq<Event<K>>)
    requires |s.shards| == SHARDS && s.global.Some? && s.global.value.Ok()
    ensures var (end, vs) := Run(c, s, events); var g := s.global.value;
      && end.global.Some? && FirstUse(c, s, events) <= end.global.value.last
      && Allowed(vs) as real <= g.capacity + Gain(g.rate, FirstUse(c, s, events), end.global.value.last)
    decreases events
  {
    var g := s.global.value;
    GainFacts(g.rate, g.last, g.last, g.last);
    if events != [] {
      StepShared(c, s, events[0]);
      RefillBudget(g, events[0].now);
      ShardsStay(c, s, events[0]);
      hide Step, Gain, Refill, Uses;
      var (s', v) := Step(c, s, events[0]);
      assert Run(c, s, events).1[1..] == Run(c, s', events[1..]).1;
      if Uses(c, s, events[0]) {
        SharedBudget(c, s', events[1..]);
      } else {
        UseBudget(c, s', events[1..]);
      }
    }
  }

  lemma {:induction false} RunAppend<K(!new)>(c: Config<K>, s: State<K>, a: seq<Event<K>>, b: seq<Event<K>>)
    requires |s.shards| == SHARDS
    ensures var mid := Run(c, s, a).0;
      Run(c, s, a + b).0 == Run(c, mid, b).0 && Run(c, s, a + b).1 == Run(c, s, a).1 + Run(c, mid, b).1
    decreases a
  {
    if a == [] {
      assert a + b == b;
    } else {
      ShardsStay(c, s, a[0]);
      hide Step;
      assert (a + b)[1..] == a[1..] + b;
      RunAppend(c, Step(c, s, a[0]).0, a[1..], b);
    }
  }

  lemma GlobalGain<K(!new)>(c: Config<K>, g: Bucket, before: seq<Event<K>>, window: seq<Event<K>>)
    requires g.Ok()
    ensures var mid := Run(c, Start(Some(g)), before).0; var (end, verdicts) := Run(c, Start(Some(g)), before + window);
      && mid.global.Some? && end.global.Some?
      && Allowed(verdicts[|before|..]) as real
         <= g.capacity + Gain(g.rate, FirstUse(c, mid, window), end.global.value.last)
  {
    hide Step, Gain, Allowed, FirstUse;
    var s: State<K> := Start(Some(g));
    SharedBudget(c, s, before);
    var mid := Run(c, s, before).0;
    RunAppend(c, s, before, window);
    UseBudget(c, mid, window);
    assert Run(c, s, before + window).1[|before|..] == Run(c, mid, window).1;
  }

  /** Admissions of all keys together in any window of any run never exceed the shared burst plus the
      shared rate times the time between the first and the latest use of the shared bucket in the
      window, whatever the per-key configuration and in whatever order the clock readings come. */
  lemma GlobalAdmissionWindow<K(!new)>(c: Config<K>, g: Bucket, before: seq<Event<K>>, window: seq<Event<K>>)
    requires g.Ok()
    ensures var mid := Run(c, Start(Some(g)), before).0; var (end, verdicts) := Run(c, Start(Some(g)), before + window);
      && mid.global.Some? && end.global.Some?
      && Earned(Allowed(verdicts[|before|..]), g.capacity, g.rate, FirstUse(c, mid, window), end.global.value.last)
  {
    GlobalGain(c, g, before, window);
    var s: State<K> := Start(Some(g));
    var first, last := FirstUse(c, Run(c, s, before).0, window), Run(c, s, before + window).0.global.value.last;
    hide Earned, Gain, Run, Allowed, FirstUse;
    GainEarns(Allowed(Run(c, s, before + window).1[|before|..]), g.capacity, g.rate, first, last);
  }

  // ---- with times in order ----

  ghost predicate Within<K>(events: seq<Event<K>>, from: real, to: real) {
    forall i | 0 <= i < |events| :: from <= events[i].now <= to
  }

  lemma {:induction false} UseTimes<K(!new)>(c: Config<K>, s: State<K>, events: seq<Event<K>>, from: real, to: real)
    requires |s.shards| == SHARDS && s.global.Some? && s.global.value.Ok() && s.global.value.last <= to
    requires Within(events, from, to)
    ensures var (end, vs) := Run(c, s, events);
      end.global.Some? && end.global.value.last <= to && (Allowed(vs) > 0 ==> from <= FirstUse(c, s, events))
    decreases events
  {
    if events != [] {
      var (s', v) := Step(c, s, events[0]);
      StepShared(c, s, events[0]);
      RefillBudget(s.global.value, events[0].now);
      assert s'.global.value.last <= to;
      ShardsStay(c, s, events[0]);
      hide Step, Refill, Uses;
      assert forall i | 0 <= i < |events[1..]| :: events[1..][i] == events[i + 1];
      UseTimes(c, s', events[1..], from, to);
      assert Run(c, s, events).1[1..] == Run(c, s', events[1..]).1;
    }
  }

  lemma TimedGain<K(!new)>(c: Config<K>, g: Bucket, before: seq<Event<K>>, window: seq<Event<K>>,
                                      from: real, to: real)
    requires g.Ok() && g.last <= to && from <= to && Within(window, from, to)
    requires forall i | 0 <= i < |before| :: before[i].now <= to
    ensures Allowed(Run(c, Start(Some(g)), before + window).1[|before|..]) as real <= g.capacity
        + Gain(g.rate, from, to)
  {
    var s: State<K> := Start(Some(g));
    GlobalGain(c, g, before, window);
    var mid := Run(c, s, before).0;
    SharedBudget(c, s, before);
    var low := LowestReading(before, to);
    UseTimes(c, s, before, low, to);
    UseTimes(c, mid, window, from, to);
    UseBudget(c, mid, window);
    RunAppend(c, s, before, window);
    hide Step, FirstUse, Allowed, Gain;
    assert Run(c, s, before + window).1[|before|..] == Run(c, mid, window).1;
    var first, last := FirstUse(c, mid, window), Run(c, mid, window).0.global.value.last;
    GainFacts(g.rate, from, from, to);
    if Allowed(Run(c, mid, window).1) > 0 {
      GainFacts(g.rate, from, first, last);
      GainFacts(g.rate, from, last, to);
    }
  }

  /** So when the readings of a window lie between two times, and none before it is later, admissions
      are at most the shared burst plus the shared rate times the time between the two. */
  lemma TimedAdmissionWindow<K(!new)>(c: Config<K>, g: Bucket, before: seq<Event<K>>, window: seq<Event<K>>,
                                      from: real, to: real)
    requires g.Ok() && g.last <= to && from <= to && Within(window, from, to)
    requires forall i | 0 <= i < |before| :: before[i].now <= to
    ensures Earned(Allowed(Run(c, Start(Some(g)), before + window).1[|before|..]), g.capacity, g.rate, from, to)
  {
    hide Earned, Gain, Run, Allowed;
    TimedGain(c, g, before, window, from, to);
    GainEarns(Allowed(Run(c, Start(Some(g)), before + window).1[|before|..]), g.capacity, g.rate, from, to);
  }

  lemma LowestReading<K>(events: seq<Event<K>>, to: real) returns (low: real)
    requires forall i | 0 <= i < |events| :: events[i].now <= to
    ensures Within(events, low, to)
  {
    low := to;
    var i := 0;
    while i < |events|
      invariant 0 <= i <= |events|
      invariant forall j | 0 <= j < i :: low <= events[j].now
    {
      if events[i].now < low { low := events[i].now; }
      i := i + 1;
    }
  }
}
