/** How long a full shard of the rate limiter can refuse newcomers while it holds a stale bucket:
    every refused scan moves the keys it inspected to the back, so the next one inspects others. */
module StaleEviction {
  import opened Options
  import opened Shards
  import opened Buckets
  import opened RateLimit
  import opened RateLimitAnyOrder

  /** A request of a key the shard `h` does not track. */
  predicate Newcomer<K(==, !new)>(c: Config<K>, s: State<K>, e: Event<K>, h: nat)
    requires |s.shards| == SHARDS && h < SHARDS
  {
    e.Request? && Home(c.shardOf, e.key) == h && e.key !in s.shards[h].entries
  }

  /** How many newcomers the shard sees in a run. */
  function Newcomers<K(==, !new)>(c: Config<K>, s: State<K>, events: seq<Event<K>>, h: nat): nat
    requires |s.shards| == SHARDS && h < SHARDS
    decreases events
  {
    if events == [] then 0
    else
      ShardsStay(c, s, events[0]);
      (if Newcomer(c, s, events[0], h) then 1 else 0) + Newcomers(c, Step(c, s, events[0]).0, events[1..], h)
  }

  /** Every newcomer to the shard is refused for capacity, although the bucket of `x` has been idle
      for more than two minutes at that time. */
  ghost predicate RefusedDespite<K(!new)>(c: Config<K>, s: State<K>, events: seq<Event<K>>, h: nat, x: K)
    requires |s.shards| == SHARDS && h < SHARDS
    decreases events
  {
    events == [] ||
    (ShardsStay(c, s, events[0]);
     var (s', v) := Step(c, s, events[0]);
     && (Newcomer(c, s, events[0], h) ==>
           && v == Refused && x in s.shards[h].entries
           && events[0].now - s.shards[h].entries[x].last > 120.0)
     && RefusedDespite(c, s', events[1..], h, x))
  }

  /** An event that brings no newcomer to the shard leaves its queue as it is. */
  lemma QueueStays<K(!new)>(c: Config<K>, s: State<K>, e: Event<K>, h: nat)
    requires |s.shards| == SHARDS && h < SHARDS && !Newcomer(c, s, e, h)
    ensures Step(c, s, e).0.shards[h].order == s.shards[h].order
  {
  }

  lemma RefusalScans<K(!new)>(c: Config<K>, sh: Shard<K, Bucket>, g: Option<Bucket>, k: K, now: real,
                              stale: Bucket -> bool)
    requires Shaped(c, sh) && k !in sh.entries && CheckShard(c, sh, g, k, now).2 == Refused
    requires stale == ((b: Bucket) => b.Stale(now))
    ensures CheckShard(c, sh, g, k, now).0 == Scan(sh, stale) && Hit(sh, stale) == ScanLength(sh)
  {
    ScanKeeps(sh, stale);
    hide Scan, Hit, ScanLength, Refill, Fresh, Distinct;
  }

  /** A refused newcomer brings a stale bucket 32 places closer to the front. */
  lemma RefusalMoves<K(!new)>(c: Config<K>, sh: Shard<K, Bucket>, g: Option<Bucket>, k: K, now: real, p: nat)
    requires Shaped(c, sh) && k !in sh.entries && CheckShard(c, sh, g, k, now).2 == Refused
    requires p < |sh.order| && sh.order[p] in sh.entries && now - sh.entries[sh.order[p]].last > 120.0
    ensures var r := CheckShard(c, sh, g, k, now).0;
      p >= 32 && |r.order| == |sh.order| && r.order[p - 32] == sh.order[p]
  {
    var stale := (b: Bucket) => b.Stale(now);
    RefusalScans(c, sh, g, k, now, stale);
    hide CheckShard, Scan, Hit, ScanLength, Distinct;
    MissMoves(sh, stale, p);
  }

  /** A request that is refused has a positive rate, and its verdict is that of its shard's region. */
  lemma RefusedStep<K(!new)>(c: Config<K>, s: State<K>, e: Event<K>)
    requires |s.shards| == SHARDS && Step(c, s, e).1 == Refused
    ensures e.Request? && c.rps > 0.0
    ensures var h := Home(c.shardOf, e.key); var (sh, _, v) := CheckShard(c, s.shards[h], s.global, e.key, e.now);
      v == Refused && Step(c, s, e).0.shards[h] == sh
  {
    hide CheckShard;
  }

  lemma RefusalStep<K(!new)>(c: Config<K>, s: State<K>, e: Event<K>, h: nat, p: nat)
    requires Steady(c, s) && h < SHARDS && p < |s.shards[h].order| && Newcomer(c, s, e, h) && Step(c, s, e).1 == Refused
    requires var sh := s.shards[h]; sh.order[p] in sh.entries && e.now - sh.entries[sh.order[p]].last > 120.0
    ensures |Step(c, s, e).0.shards| == SHARDS
    ensures var r := Step(c, s, e).0.shards[h].order;
      p >= 32 && |r| == |s.shards[h].order| && r[p - 32] == s.shards[h].order[p]
  {
    RefusedStep(c, s, e);
    ShardsStay(c, s, e);
    hide Step, CheckShard, Shaped, BucketsOk;
    RefusalMoves(c, s.shards[h], s.global, e.key, e.now, p);
  }

  /** While a bucket is stale for every newcomer and all of them are refused, they are at most as many
      as there are whole groups of 32 keys queued before it: fewer than the capacity of the shard
      divided by 32 and rounded up. */
  lemma {:induction false} RefusalsInARow<K(!new)>(c: Config<K>, s: State<K>, events: seq<Event<K>>, h: nat, p: nat)
    requires Steady(c, s) && h < SHARDS && p < |s.shards[h].order|
    requires RefusedDespite(c, s, events, h, s.shards[h].order[p])
    ensures 32 * Newcomers(c, s, events, h) <= p
    decreases events
  {
    if events != [] {
      var e := events[0];
      StepSteady(c, s, e);
      hide Shaped, BucketsOk;
      if Newcomer(c, s, e, h) {
        RefusalStep(c, s, e, h, p);
        hide Step, Steady, Newcomer;
        RefusalsInARow(c, Step(c, s, e).0, events[1..], h, p - 32);
      } else {
        QueueStays(c, s, e, h);
        hide Step, Steady, Newcomer;
        RefusalsInARow(c, Step(c, s, e).0, events[1..], h, p);
      }
    }
  }

  lemma QueueFits<K(!new)>(c: Config<K>, sh: Shard<K, Bucket>)
    requires Shaped(c, sh)
    ensures |sh.order| == |sh.entries| <= ShardCapacity(c.maxTracked)
  {
    DistinctSize(sh.order);
    assert (set k | k in sh.order) == sh.entries.Keys;
  }

  lemma {:induction false} DistinctSize<K(!new)>(order: seq<K>)
    requires Distinct(order)
    ensures |set k | k in order| == |order|
  {
    if order != [] {
      var n := |order| - 1;
      DistinctSize(order[..n]);
      assert order == order[..n] + [order[n]];
      assert (set k | k in order) == (set k | k in order[..n]) + {order[n]};
    }
  }

  /** After any run: as long as some bucket of a shard is stale whenever a newcomer comes to it, fewer
      than its capacity divided by 32, rounded up, newcomers are refused in a row. */
  lemma StaleBucketYields<K(!new)>(c: Config<K>, g: Option<Bucket>, before: seq<Event<K>>, window: seq<Event<K>>,
                                   h: nat, x: K)
    requires (g.Some? ==> g.value.Ok()) && h < SHARDS
    requires var mid := Run(c, Start(g), before).0; RefusedDespite(c, mid, window, h, x)
    ensures var mid := Run(c, Start(g), before).0;
      32 * Newcomers(c, mid, window, h) < ShardCapacity(c.maxTracked)
  {
    StartSteady(c, g);
    RunSteady(c, Start(g), before);
    var mid := Run(c, Start(g), before).0;
    hide Step, Run;
    QueueFits(c, mid.shards[h]);
    if x in mid.shards[h].entries {
      assert x in mid.shards[h].order;
      var p :| 0 <= p < |mid.shards[h].order| && mid.shards[h].order[p] == x;
      RefusalsInARow(c, mid, window, h, p);
    } else {
      NoneWithout(c, mid, window, h, x);
    }
  }

  /** A key without an entry gets one only by its own request, so no newcomer finds it stale. */
  lemma {:induction false} NoneWithout<K(!new)>(c: Config<K>, s: State<K>, events: seq<Event<K>>, h: nat, x: K)
    requires Steady(c, s) && h < SHARDS && x !in s.shards[h].entries && RefusedDespite(c, s, events, h, x)
    ensures Newcomers(c, s, events, h) == 0
    decreases events
  {
    if events != [] {
      StepSteady(c, s, events[0]);
      KeysStay(c, s, events[0], h);
      hide Step, Steady;
      NoneWithout(c, Step(c, s, events[0]).0, events[1..], h, x);
    }
  }

  lemma KeysStay<K(!new)>(c: Config<K>, s: State<K>, e: Event<K>, h: nat)
    requires |s.shards| == SHARDS && h < SHARDS && !Newcomer(c, s, e, h)
    ensures Step(c, s, e).0.shards[h].entries.Keys == s.shards[h].entries.Keys
  {
  }
}
