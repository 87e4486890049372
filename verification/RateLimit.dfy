/** The per-key rate limiters: bounded shards of token buckets with eviction of stale entries,
    charged together with an optional shared bucket. One locked shard region is one step; the
    early look at the shared bucket is a step of its own, so steps of different requests
    interleave freely. */
module RateLimit {
  import opened Options
  import opened Shards
  import opened Buckets

  datatype Config<!K> = Config(rps: real, burst: nat, maxTracked: nat, shardOf: K -> nat)

  /** `Refused` is the denial for want of shard capacity; the source reports it, like `DenyKey`,
      as the per-key rate reason. `Pass` answers an early look that found a token. */
  datatype Verdict = Pass | Allow | DenyGlobal | DenyKey | Refused

  datatype State<K(==, !new)> = State(global: Option<Bucket>, shards: seq<Shard<K, Bucket>>)

  datatype Event<K> = Peek(now: real) | Request(key: K, now: real)

  function TakeGlobal(g: Option<Bucket>, now: real): (Option<Bucket>, bool) {
    match g
    case None => (None, true)
    case Some(b) => var (b', ok) := Serve(b, now); (Some(b'), ok)
  }

  function FreshFor<K>(c: Config<K>, now: real): Bucket { Fresh(c.rps, c.burst, now) }

  function RoomFor<K(==, !new)>(c: Config<K>, sh: Shard<K, Bucket>, k: K, now: real): (Shard<K, Bucket>, bool) {
    if k in sh.entries then (sh, true)
    else MakeRoom(sh, ShardCapacity(c.maxTracked), (b: Bucket) => b.Stale(now))
  }

  /** The region a request runs under its shard lock. A fresh entry refused by the shared bucket
      is rolled back, which leaves the shard as it was before the insertion. */
  function CheckShard<K(==, !new)>(c: Config<K>, sh: Shard<K, Bucket>, g: Option<Bucket>, k: K, now: real)
    : (Shard<K, Bucket>, Option<Bucket>, Verdict)
  {
    var (sh1, room) := RoomFor(c, sh, k, now);
    if !room then (sh1, g, Refused)
    else
      var b := Refill(if k in sh1.entries then sh1.entries[k] else FreshFor(c, now), now);
      if b.tokens < 1.0 then (sh1.Put(k, b), g, DenyKey)
      else
        var (g', ok) := TakeGlobal(g, now);
        if ok then (sh1.Put(k, Spend(b)), g', Allow)
        else (if k in sh1.entries then sh1.Put(k, b) else sh1, g', DenyGlobal)
  }

  function Step<K(==, !new)>(c: Config<K>, s: State<K>, e: Event<K>): (State<K>, Verdict)
    requires |s.shards| == SHARDS
  {
    match e
    case Peek(now) =>
      if s.global.None? then (s, Pass)
      else
        var g := Refill(s.global.value, now);
        (s.(global := Some(g)), if g.tokens >= 1.0 then Pass else DenyGlobal)
    case Request(k, now) =>
      if c.rps <= 0.0 then
        var (g, ok) := TakeGlobal(s.global, now);
        (s.(global := g), if ok then Allow else DenyGlobal)
      else
        var h := Home(c.shardOf, k);
        var (sh, g, v) := CheckShard(c, s.shards[h], s.global, k, now);
        (State(g, s.shards[h := sh]), v)
  }

  // ---- the unbounded reference: every key has a bucket, charged only when admitted ----

  datatype Ideal<K(==, !new)> = Ideal(global: Option<Bucket>, charged: map<K, Bucket>)

  function IdealGlobalHas(g: Option<Bucket>, now: real): bool {
    g.None? || Level(g.value, now) >= 1.0
  }

  function IdealTake(g: Option<Bucket>, now: real): Option<Bucket> {
    if g.None? then None else Some(Spend(Refill(g.value, now)))
  }

  function IdealStep<K(==, !new)>(c: Config<K>, i: Ideal<K>, e: Event<K>): (Ideal<K>, Verdict) {
    match e
    case Peek(now) => (i, if IdealGlobalHas(i.global, now) then Pass else DenyGlobal)
    case Request(k, now) =>
      var b := EffectiveIn(c, i.charged, k, now);
      if c.rps > 0.0 && b.tokens < 1.0 then (i, DenyKey)
      else if !IdealGlobalHas(i.global, now) then (i, DenyGlobal)
      else
        (Ideal(IdealTake(i.global, now), if c.rps > 0.0 then i.charged[k := Spend(b)] else i.charged), Allow)
  }

  // ---- what a key's bucket amounts to, stored or not ----

  function EffectiveIn<K(==)>(c: Config<K>, m: map<K, Bucket>, k: K, t: real): Bucket {
    if k in m then Refill(m[k], t) else FreshFor(c, t)
  }

  function Effective<K(==, !new)>(c: Config<K>, s: State<K>, k: K, t: real): Bucket
    requires |s.shards| == SHARDS
  {
    EffectiveIn(c, s.shards[Home(c.shardOf, k)].entries, k, t)
  }

  /** A bucket with this limiter's rate and burst. */
  ghost predicate Tuned<K>(c: Config<K>, b: Bucket) { b.Ok() && b.capacity == Capacity(c.burst) && b.rate == c.rps }

  ghost predicate BucketOk<K>(c: Config<K>, b: Bucket, clock: real) { Tuned(c, b) && b.last <= clock }

  ghost predicate TableOk<K(!new)>(c: Config<K>, m: map<K, Bucket>, clock: real) {
    forall k | k in m :: BucketOk(c, m[k], clock)
  }

  /** The queue is a permutation of the keys and there are no more of them than fit. */
  ghost predicate Shaped<K(!new)>(c: Config<K>, sh: Shard<K, Bucket>) {
    sh.Valid() && |sh.entries| <= ShardCapacity(c.maxTracked)
  }

  ghost predicate ShardOk<K(!new)>(c: Config<K>, sh: Shard<K, Bucket>, clock: real) {
    Shaped(c, sh) && TableOk(c, sh.entries, clock)
  }

  ghost predicate GlobalOk(g: Option<Bucket>, clock: real) {
    g.Some? ==> g.value.Ok() && g.value.last <= clock
  }

  ghost predicate Inv<K(!new)>(c: Config<K>, s: State<K>, clock: real) {
    && |s.shards| == SHARDS
    && GlobalOk(s.global, clock)
    && (c.rps > 0.0 ==> forall j | 0 <= j < SHARDS :: ShardOk(c, s.shards[j], clock))
  }

  /** The rate refills the whole burst within the idle period after which entries go stale. */
  predicate RefillsWhenIdle<K>(c: Config<K>) {
    c.rps > 0.0 ==> c.rps * 120.0 >= Capacity(c.burst)
  }

  // ---- one shard region ----

  /** Making room keeps the shape of the shard, removes entries only, and not that of the newcomer. */
  lemma RoomShape<K(!new)>(c: Config<K>, sh: Shard<K, Bucket>, k: K, now: real)
    requires Shaped(c, sh)
    ensures var (sh1, room) := RoomFor(c, sh, k, now);
      && Shaped(c, sh1)
      && (k in sh1.entries <==> k in sh.entries)
      && (forall x | x in sh1.entries :: x in sh.entries && sh1.entries[x] == sh.entries[x])
      && (room && k !in sh1.entries ==> |sh1.entries| < ShardCapacity(c.maxTracked))
  {
    if k !in sh.entries {
      ScanKeeps(sh, (b: Bucket) => b.Stale(now));
    }
  }

  /** Making room never changes what any key's bucket amounts to. */
  lemma RoomInvisible<K(!new)>(c: Config<K>, sh: Shard<K, Bucket>, k: K, now: real, x: K)
    requires c.rps > 0.0 && RefillsWhenIdle(c) && Shaped(c, sh) && (x in sh.entries ==> Tuned(c, sh.entries[x]))
    ensures EffectiveIn(c, RoomFor(c, sh, k, now).0.entries, x, now) == EffectiveIn(c, sh.entries, x, now)
  {
    if k !in sh.entries {
      var stale := (b: Bucket) => b.Stale(now);
      ScanKeeps(sh, stale);
      if x in sh.entries && x !in RoomFor(c, sh, k, now).0.entries {
        assert stale(sh.entries[x]);
        StaleIsFresh(sh.entries[x], c.burst, now);
      }
    }
  }

  lemma TakeGlobalOk(g: Option<Bucket>, clock: real, now: real)
    requires GlobalOk(g, clock) && clock <= now
    ensures GlobalOk(TakeGlobal(g, now).0, now)
  {
    if g.Some? { ServeOk(g.value, now); }
  }

  lemma PutOk<K(!new)>(c: Config<K>, sh: Shard<K, Bucket>, clock: real, k: K, b: Bucket, now: real)
    requires ShardOk(c, sh, clock) && clock <= now && BucketOk(c, b, now)
    requires k in sh.entries || |sh.entries| < ShardCapacity(c.maxTracked)
    ensures ShardOk(c, sh.Put(k, b), now)
  {
    PutValid(sh, k, b);
    assert sh.Put(k, b).entries.Keys == sh.entries.Keys + {k};
  }

  lemma CheckShardOk<K(!new)>(c: Config<K>, sh: Shard<K, Bucket>, g: Option<Bucket>, clock: real, k: K, now: real)
    requires c.rps > 0.0 && ShardOk(c, sh, clock) && GlobalOk(g, clock) && clock <= now
    ensures var (sh', g', v) := CheckShard(c, sh, g, k, now);
      ShardOk(c, sh', now) && GlobalOk(g', now)
  {
    RoomShape(c, sh, k, now);
    TakeGlobalOk(g, clock, now);
    var (sh1, room) := RoomFor(c, sh, k, now);
    if room {
      var b0 := if k in sh1.entries then sh1.entries[k] else FreshFor(c, now);
      RefillOk(b0, now);
      var b := Refill(b0, now);
      PutOk(c, sh1, clock, k, b, now);
      if b.tokens >= 1.0 { PutOk(c, sh1, clock, k, Spend(b), now); }
    }
  }

  /** A request is refused for capacity exactly when its key has no entry, its shard is full and
      none of the first 32 keys in the queue is stale. */
  lemma RefusedExactly<K(!new)>(c: Config<K>, sh: Shard<K, Bucket>, g: Option<Bucket>, k: K, now: real)
    requires Shaped(c, sh)
    ensures CheckShard(c, sh, g, k, now).2 == Refused <==>
      && k !in sh.entries && |sh.entries| >= ShardCapacity(c.maxTracked)
      && forall j | 0 <= j < |sh.order| && j < 32 :: sh.order[j] in sh.entries
          && now - sh.entries[sh.order[j]].last <= 120.0
  {
    var stale := (b: Bucket) => b.Stale(now);
    RoomUnlessStuck(sh, ShardCapacity(c.maxTracked), stale);
    hide MakeRoom, Refill, Distinct;
  }

  /** Charging is all-or-nothing, whatever the configuration and whatever the clock read before: an
      admitted request takes exactly one token from its key and one from the shared bucket, and had
      both; any other verdict takes none from either. Denial by the shared bucket leaves no entry for
      a key that had none. */
  lemma ChargeLaw<K(!new)>(c: Config<K>, sh: Shard<K, Bucket>, g: Option<Bucket>, k: K, now: real)
    requires c.rps > 0.0 && Shaped(c, sh)
    ensures var (sh', g', v) := CheckShard(c, sh, g, k, now);
      var before := EffectiveIn(c, sh.entries, k, now);
      && EffectiveIn(c, sh'.entries, k, now) == (if v == Allow then Spend(before) else before)
      && (g.Some? <==> g'.Some?)
      && (g.Some? ==> var shared := Refill(g.value, now);
            Refill(g'.value, now) == (if v == Allow then Spend(shared) else shared))
      && (v == Allow ==> before.tokens >= 1.0 && (g.Some? ==> Level(g.value, now) >= 1.0))
      && (v == DenyKey ==> before.tokens < 1.0)
      && (v == DenyGlobal ==> before.tokens >= 1.0 && g.Some? && Level(g.value, now) < 1.0)
      && (v == DenyGlobal && k !in sh.entries ==> k !in sh'.entries)
      && v != Pass
  {
    RoomShape(c, sh, k, now);
  }

  /** The key that making room for a newcomer would evict. */
  function Victim<K(==, !new)>(c: Config<K>, sh: Shard<K, Bucket>, now: real): Option<K> {
    var stale := (b: Bucket) => b.Stale(now);
    if |sh.entries| >= ShardCapacity(c.maxTracked) && Hit(sh, stale) < ScanLength(sh)
        then Some(sh.order[Hit(sh, stale)])
    else None
  }

  lemma RoomEvictsVictim<K(!new)>(c: Config<K>, sh: Shard<K, Bucket>, k: K, now: real)
    requires Shaped(c, sh)
    ensures RoomFor(c, sh, k, now).0.entries ==
      if k !in sh.entries && Victim(c, sh, now).Some? then sh.entries - {Victim(c, sh, now).value} else sh.entries
  {
    ScanKeeps(sh, (b: Bucket) => b.Stale(now));
  }

  lemma OtherEntry<K(!new)>(c: Config<K>, sh: Shard<K, Bucket>, g: Option<Bucket>, k: K, now: real, x: K)
    requires Shaped(c, sh) && x != k
    ensures var m := CheckShard(c, sh, g, k, now).0.entries;
      && (x in m <==> x in sh.entries && (k in sh.entries || Victim(c, sh, now) != Some(x)))
      && (x in m ==> m[x] == sh.entries[x])
  {
    hide Refill, Fresh, RoomFor, Victim;
    RoomEvictsVictim(c, sh, k, now);
  }

  lemma VictimIsStale<K(!new)>(c: Config<K>, sh: Shard<K, Bucket>, now: real)
    ensures var v := Victim(c, sh, now); v.Some? ==> v.value in sh.entries && sh.entries[v.value].Stale(now)
  {
  }

  /** A request keeps what another key's bucket amounts to exactly when that key is not the victim
      of a newcomer or its bucket is full again. */
  lemma OtherKeyIff<K(!new)>(c: Config<K>, sh: Shard<K, Bucket>, g: Option<Bucket>, k: K, now: real, x: K)
    requires c.rps > 0.0 && Shaped(c, sh) && x != k && x in sh.entries && Tuned(c, sh.entries[x])
    ensures EffectiveIn(c, CheckShard(c, sh, g, k, now).0.entries, x, now) == EffectiveIn(c, sh.entries, x, now)
      <==> (k in sh.entries || Victim(c, sh, now) != Some(x) || Level(sh.entries[x], now) == Capacity(c.burst))
  {
    hide CheckShard, Victim, Refill, Fresh, Level;
    OtherEntry(c, sh, g, k, now, x);
    VictimIsStale(c, sh, now);
    if Victim(c, sh, now) == Some(x) { FullIff(sh.entries[x], c.rps, c.burst, now); }
  }

  /** When the rate refills the burst within the idle period, a request never changes what another
      key's bucket amounts to. */
  lemma OtherKeysUntouched<K(!new)>(c: Config<K>, sh: Shard<K, Bucket>, g: Option<Bucket>, k: K, now: real, x: K)
    requires c.rps > 0.0 && RefillsWhenIdle(c) && Shaped(c, sh) && x != k
    requires x in sh.entries ==> Tuned(c, sh.entries[x])
    ensures EffectiveIn(c, CheckShard(c, sh, g, k, now).0.entries, x, now) == EffectiveIn(c, sh.entries, x, now)
  {
    hide Refill, Fresh;
    RoomInvisible(c, sh, k, now, x);
  }

  // ---- refinement of the reference, step by step ----

  ghost predicate SameGlobal(g: Option<Bucket>, i: Option<Bucket>, t: real) {
    && GlobalOk(g, t) && GlobalOk(i, t)
    && (g.Some? <==> i.Some?)
    && (g.Some? ==> Refill(g.value, t) == Refill(i.value, t))
  }

  ghost predicate SameTable<K(!new)>(c: Config<K>, s: State<K>, i: Ideal<K>, t: real)
    requires |s.shards| == SHARDS
  {
    && TableOk(c, i.charged, t)
    && forall k :: Effective(c, s, k, t) == EffectiveIn(c, i.charged, k, t)
  }

  ghost predicate Rel<K(!new)>(c: Config<K>, s: State<K>, i: Ideal<K>, t: real) {
    Inv(c, s, t) && SameGlobal(s.global, i.global, t) && (c.rps > 0.0 ==> SameTable(c, s, i, t))
  }

  lemma EffectiveLater<K(!new)>(c: Config<K>, m: map<K, Bucket>, k: K, s: real, t: real)
    requires c.rps > 0.0 && TableOk(c, m, s) && s <= t
    ensures EffectiveIn(c, m, k, t) == Refill(EffectiveIn(c, m, k, s), t)
    ensures BucketOk(c, EffectiveIn(c, m, k, s), s)
  {
    if k in m {
      RefillCompose(m[k], s, t);
      RefillOk(m[k], s);
    } else {
      GainFacts(c.rps, s, s, t);
    }
  }

  lemma RelLater<K(!new)>(c: Config<K>, s: State<K>, i: Ideal<K>, t: real, now: real)
    requires Rel(c, s, i, t) && t <= now
    ensures Rel(c, s, i, now)
  {
    if s.global.Some? {
      RefillCompose(s.global.value, t, now);
      RefillCompose(i.global.value, t, now);
    }
    if c.rps > 0.0 {
      forall k ensures Effective(c, s, k, now) == EffectiveIn(c, i.charged, k, now) {
        EffectiveLater(c, s.shards[Home(c.shardOf, k)].entries, k, t, now);
        EffectiveLater(c, i.charged, k, t, now);
      }
    }
  }

  lemma RequestVerdict<K(!new)>(c: Config<K>, s: State<K>, i: Ideal<K>, k: K, now: real)
    requires c.rps > 0.0 && RefillsWhenIdle(c) && Rel(c, s, i, now)
    ensures var (s', v) := Step(c, s, Request(k, now));
      var (i', w) := IdealStep(c, i, Request(k, now));
      && (v != Refused ==> v == w)
      && SameGlobal(s'.global, if v == Refused then i.global else i'.global, now)
  {
    hide Gain, RoomFor;
    var h := Home(c.shardOf, k);
    CheckShardOk(c, s.shards[h], s.global, now, k, now);
    ChargeLaw(c, s.shards[h], s.global, k, now);
    assert Effective(c, s, k, now) == EffectiveIn(c, i.charged, k, now);
    if s.global.Some? {
      RefillOk(i.global.value, now);
      RefillCompose(i.global.value, now, now);
    }
  }

  /** One request, in the bounded limiter and in the reference: the same verdict unless refused
      for capacity, and states that stay equivalent. */
  lemma RequestRefines<K(!new)>(c: Config<K>, s: State<K>, i: Ideal<K>, k: K, now: real)
    requires c.rps > 0.0 && RefillsWhenIdle(c) && Rel(c, s, i, now)
    ensures var (s', v) := Step(c, s, Request(k, now));
      var (i', w) := IdealStep(c, i, Request(k, now));
      if v == Refused then Rel(c, s', i, now) else v == w && Rel(c, s', i', now)
  {
    hide CheckShard, IdealStep, EffectiveIn;
    RequestVerdict(c, s, i, k, now);
    var h := Home(c.shardOf, k);
    var (s', v) := Step(c, s, Request(k, now));
    var j := if v == Refused then i else IdealStep(c, i, Request(k, now)).0;
    CheckShardOk(c, s.shards[h], s.global, now, k, now);
    forall x ensures Effective(c, s', x, now) == EffectiveIn(c, j.charged, x, now) {
      RequestKey(c, s, i, k, now, x);
    }
    RequestTable(c, i, k, now);
  }

  lemma RequestTable<K(!new)>(c: Config<K>, i: Ideal<K>, k: K, now: real)
    requires c.rps > 0.0 && TableOk(c, i.charged, now)
    ensures TableOk(c, IdealStep(c, i, Request(k, now)).0.charged, now)
  {
    hide Refill, Fresh;
    EffectiveLater(c, i.charged, k, now, now);
  }

  lemma RequestKey<K(!new)>(c: Config<K>, s: State<K>, i: Ideal<K>, k: K, now: real, x: K)
    requires c.rps > 0.0 && RefillsWhenIdle(c) && Rel(c, s, i, now)
    ensures var (s', v) := Step(c, s, Request(k, now));
      var j := if v == Refused then i else IdealStep(c, i, Request(k, now)).0;
      Effective(c, s', x, now) == EffectiveIn(c, j.charged, x, now)
  {
    RequestVerdict(c, s, i, k, now);
    assert Effective(c, s, x, now) == EffectiveIn(c, i.charged, x, now);
    ChargeLaw(c, s.shards[Home(c.shardOf, k)], s.global, k, now);
    if x != k { OtherKeysUntouched(c, s.shards[Home(c.shardOf, k)], s.global, k, now, x); }
    EffectiveLater(c, i.charged, k, now, now);
  }

  lemma StepRefines<K(!new)>(c: Config<K>, s: State<K>, i: Ideal<K>, clock: real, e: Event<K>)
    requires RefillsWhenIdle(c) && Rel(c, s, i, clock) && clock <= e.now
    ensures var (s', v) := Step(c, s, e);
      var (i', w) := IdealStep(c, i, e);
      if v == Refused then Rel(c, s', i, e.now) else v == w && Rel(c, s', i', e.now)
  {
    RelLater(c, s, i, clock, e.now);
    if s.global.Some? {
      RefillOk(s.global.value, e.now);
      RefillOk(i.global.value, e.now);
      RefillCompose(s.global.value, e.now, e.now);
      RefillCompose(i.global.value, e.now, e.now);
    }
    if e.Request? && c.rps > 0.0 {
      RequestRefines(c, s, i, e.key, e.now);
    }
  }

  // ---- runs ----

  ghost predicate Timed<K>(clock: real, events: seq<Event<K>>)
    decreases events
  {
    events != [] ==> clock <= events[0].now && Timed(events[0].now, events[1..])
  }

  function Run<K(==, !new)>(c: Config<K>, s: State<K>, events: seq<Event<K>>): (State<K>, seq<Verdict>)
    requires |s.shards| == SHARDS
    decreases events
    ensures |Run(c, s, events).0.shards| == SHARDS && |Run(c, s, events).1| == |events|
  {
    if events == [] then (s, [])
    else
      var (s', v) := Step(c, s, events[0]);
      var (end, vs) := Run(c, s', events[1..]);
      (end, [v] + vs)
  }

  /** The reference gives the same verdicts when it is shown the events that were not refused. */
  ghost predicate Explains<K(!new)>(c: Config<K>, i: Ideal<K>, events: seq<Event<K>>, verdicts: seq<Verdict>)
    requires |events| == |verdicts|
    decreases events
  {
    events == [] ||
    if verdicts[0] == Refused then Explains(c, i, events[1..], verdicts[1..])
    else
      var (i', w) := IdealStep(c, i, events[0]);
      verdicts[0] == w && Explains(c, i', events[1..], verdicts[1..])
  }

  /** For every run with a nondecreasing clock, the bounded, evicting, rolling-back limiter gives
      every request it does not refuse for capacity the verdict of the unbounded reference. */
  lemma {:induction false} RunRefines<K(!new)>(c: Config<K>, s: State<K>, i: Ideal<K>, clock: real,
      events: seq<Event<K>>)
    requires RefillsWhenIdle(c) && Rel(c, s, i, clock) && Timed(clock, events)
    ensures Explains(c, i, events, Run(c, s, events).1)
    decreases events
  {
    if events != [] {
      var e := events[0];
      StepRefines(c, s, i, clock, e);
      var (s', v) := Step(c, s, e);
      var next := if v == Refused then i else IdealStep(c, i, e).0;
      RunRefines(c, s', next, e.now, events[1..]);
      assert Run(c, s, events).1 == [v] + Run(c, s', events[1..]).1;
      assert Run(c, s, events).1[1..] == Run(c, s', events[1..]).1;
    }
  }

  function Start<K(==, !new)>(g: Option<Bucket>): State<K> {
    State(g, seq(SHARDS, _ => Shard(map[], [])))
  }

  lemma StartRel<K(!new)>(c: Config<K>, g: Option<Bucket>, clock: real)
    requires GlobalOk(g, clock)
    ensures Rel(c, Start(g), Ideal(g, map[]), clock)
  {
  }

  /** The refinement from start-up, for every run. */
  lemma LimiterRefinesReference<K(!new)>(c: Config<K>, g: Option<Bucket>, clock: real, events: seq<Event<K>>)
    requires RefillsWhenIdle(c) && GlobalOk(g, clock) && Timed(clock, events)
    ensures Explains(c, Ideal(g, map[]), events, Run(c, Start(g), events).1)
  {
    StartRel(c, g, clock);
    RunRefines(c, Start(g), Ideal(g, map[]), clock, events);
  }

  // ---- admissions of one key over a window ----

  function Admitted<K(==)>(events: seq<Event<K>>, verdicts: seq<Verdict>, k: K): nat
    requires |events| == |verdicts|
    decreases events
  {
    if events == [] then 0
    else
      (if events[0].Request? && events[0].key == k && verdicts[0] == Allow then 1 else 0)
      + Admitted(events[1..], verdicts[1..], k)
  }

  lemma InvStep<K(!new)>(c: Config<K>, s: State<K>, clock: real, e: Event<K>)
    requires Inv(c, s, clock) && clock <= e.now
    ensures Inv(c, Step(c, s, e).0, e.now)
  {
    if s.global.Some? { RefillOk(s.global.value, e.now); }
    TakeGlobalOk(s.global, clock, e.now);
    if e.Request? && c.rps > 0.0 {
      CheckShardOk(c, s.shards[Home(c.shardOf, e.key)], s.global, clock, e.key, e.now);
    }
  }

  function EndTime<K>(clock: real, events: seq<Event<K>>): real {
    if events == [] then clock else events[|events| - 1].now
  }

  lemma StepBudget<K(!new)>(c: Config<K>, s: State<K>, clock: real, e: Event<K>, k: K)
    requires c.rps > 0.0 && RefillsWhenIdle(c) && Inv(c, s, clock) && clock <= e.now
    ensures var (s', v) := Step(c, s, e);
      (if e.Request? && e.key == k && v == Allow then 1.0 else 0.0) + Effective(c, s', k, e.now).tokens
      <= Effective(c, s, k, clock).tokens + Gain(c.rps, clock, e.now)
  {
    var m := s.shards[Home(c.shardOf, k)].entries;
    EffectiveLater(c, m, k, clock, e.now);
    LevelGrowth(EffectiveIn(c, m, k, clock), clock, e.now);
    RefillOk(EffectiveIn(c, m, k, clock), clock);
    if e.Request? {
      var sh := s.shards[Home(c.shardOf, e.key)];
      ChargeLaw(c, sh, s.global, e.key, e.now);
      if k != e.key { OtherKeysUntouched(c, sh, s.global, e.key, e.now, k); }
    }
  }

  lemma {:induction false} RunBudget<K(!new)>(c: Config<K>, s: State<K>, clock: real, events: seq<Event<K>>, k: K)
    requires c.rps > 0.0 && RefillsWhenIdle(c) && Inv(c, s, clock) && Timed(clock, events)
    ensures var (end, vs) := Run(c, s, events);
      && Inv(c, end, EndTime(clock, events)) && clock <= EndTime(clock, events)
      && Admitted(events, vs, k) as real + Effective(c, end, k, EndTime(clock, events)).tokens
         <= Effective(c, s, k, clock).tokens + Gain(c.rps, clock, EndTime(clock, events))
    decreases events
  {
    if events != [] {
      var e := events[0];
      StepBudget(c, s, clock, e, k);
      InvStep(c, s, clock, e);
      var (s', v) := Step(c, s, e);
      RunBudget(c, s', e.now, events[1..], k);
      var (end, vs) := Run(c, s', events[1..]);
      assert Run(c, s, events).1[1..] == vs;
      assert EndTime(clock, events) == EndTime(e.now, events[1..]);
      GainFacts(c.rps, clock, e.now, EndTime(clock, events));
    }
  }

  lemma {:induction false} RunSplit<K(!new)>(c: Config<K>, s: State<K>, clock: real, a: seq<Event<K>>, b: seq<Event<K>>)
    requires Inv(c, s, clock) && Timed(clock, a + b)
    ensures var (mid, va) := Run(c, s, a);
      && Timed(EndTime(clock, a), b) && Inv(c, mid, EndTime(clock, a))
      && Run(c, s, a + b).1 == va + Run(c, mid, b).1
    decreases a
  {
    if a == [] {
      assert a + b == b;
    } else {
      assert (a + b)[1..] == a[1..] + b;
      InvStep(c, s, clock, a[0]);
      RunSplit(c, Step(c, s, a[0]).0, a[0].now, a[1..], b);
      assert EndTime(clock, a) == EndTime(a[0].now, a[1..]);
    }
  }

  lemma InvLater<K(!new)>(c: Config<K>, s: State<K>, clock: real, now: real)
    requires Inv(c, s, clock) && clock <= now
    ensures Inv(c, s, now)
  {
  }

  lemma WindowFrom<K(!new)>(c: Config<K>, s: State<K>, window: seq<Event<K>>, k: K)
    requires c.rps > 0.0 && RefillsWhenIdle(c) && window != []
    requires Inv(c, s, window[0].now) && Timed(window[0].now, window)
    ensures Admitted(window, Run(c, s, window).1, k) as real
      <= Capacity(c.burst) + Gain(c.rps, window[0].now, window[|window| - 1].now)
  {
    hide Step, Gain;
    var t := window[0].now;
    RunBudget(c, s, t, window, k);
    EffectiveLater(c, s.shards[Home(c.shardOf, k)].entries, k, t, t);
    var end := Run(c, s, window).0;
    EffectiveLater(c, end.shards[Home(c.shardOf, k)].entries, k, EndTime(t, window), EndTime(t, window));
  }

  lemma AdmissionGain<K(!new)>(c: Config<K>, g: Option<Bucket>, clock: real,
                                 before: seq<Event<K>>, window: seq<Event<K>>, k: K)
    requires c.rps > 0.0 && RefillsWhenIdle(c) && GlobalOk(g, clock)
    requires Timed(clock, before + window) && window != []
    ensures var verdicts := Run(c, Start(g), before + window).1[|before|..];
      Admitted(window, verdicts, k) as real
      <= Capacity(c.burst) + Gain(c.rps, window[0].now, window[|window| - 1].now)
  {
    hide Step, Gain, Admitted, ShardOk;
    var s: State<K> := Start(g);
    StartRel(c, g, clock);
    RunSplit(c, s, clock, before, window);
    var (mid, va) := Run(c, s, before);
    var t := window[0].now;
    InvLater(c, mid, EndTime(clock, before), t);
    assert Run(c, s, before + window).1[|before|..] == Run(c, mid, window).1;
    assert Timed(t, window);
    WindowFrom(c, mid, window, k);
  }

  /** Admissions of one key in any window of any run never exceed burst + rps x window length,
      even when its entry is evicted and re-created in between. */
  lemma AdmissionWindow<K(!new)>(c: Config<K>, g: Option<Bucket>, clock: real,
                                 before: seq<Event<K>>, window: seq<Event<K>>, k: K)
    requires c.rps > 0.0 && RefillsWhenIdle(c) && GlobalOk(g, clock)
    requires Timed(clock, before + window) && window != []
    ensures var verdicts := Run(c, Start(g), before + window).1[|before|..];
      Earned(Admitted(window, verdicts, k), (if c.burst > 1 then c.burst else 1) as real, c.rps,
             window[0].now, window[|window| - 1].now)
  {
    AdmissionGain(c, g, clock, before, window, k);
    CapacityIs(c.burst);
    hide Earned, Gain, Run, Admitted, Timed;
    var admitted := Admitted(window, Run(c, Start(g), before + window).1[|before|..], k);
    GainEarns(admitted, Capacity(c.burst), c.rps, window[0].now, window[|window| - 1].now);
  }

  // ---- the limiter keyed by signature or path shape ----

  /** `KeyRateLimiter::check` on the shard of its key. */
  function KeyCheck<K(==, !new)>(c: Config<K>, sh: Shard<K, Bucket>, k: K, now: real): (Shard<K, Bucket>, bool) {
    if c.rps <= 0.0 then (sh, true)
    else
      var (sh1, room) := RoomFor(c, sh, k, now);
      if !room then (sh1, false)
      else
        var (b, ok) := Serve(if k in sh1.entries then sh1.entries[k] else FreshFor(c, now), now);
        (sh1.Put(k, b), ok)
  }

  /** The key limiter is the rate limiter without a shared bucket, so every result above about
      runs with no shared bucket is a result about it. */
  lemma KeyCheckIsRateCheck<K(!new)>(c: Config<K>, s: State<K>, k: K, now: real)
    requires |s.shards| == SHARDS && s.global.None?
    ensures var (s', v) := Step(c, s, Request(k, now));
      && s'.global.None?
      && KeyCheck(c, s.shards[Home(c.shardOf, k)], k, now) == (s'.shards[Home(c.shardOf, k)], v == Allow)
      && forall j | 0 <= j < SHARDS && j != Home(c.shardOf, k) :: s'.shards[j] == s.shards[j]
  {
  }

  // ---- the limiter as the source keeps it ----

  class RateLimiter<K(==, !new)> {
    const c: Config<K>
    const global: TokenBucket?
    const shards: seq<LimiterShard<K, Bucket>>

    ghost predicate Built() {
      |shards| == SHARDS && forall i, j | 0 <= i < j < SHARDS :: shards[i] != shards[j]
    }

    ghost predicate Valid()
      reads shards
    {
      Built() && forall i | 0 <= i < SHARDS :: shards[i].View().Valid()
    }

    ghost function View(): State<K>
      requires Built()
      reads global, shards
    {
      State(Shared(), seq(SHARDS, i requires 0 <= i < SHARDS reads shards => shards[i].View()))
    }

    ghost function Shared(): Option<Bucket>
      reads global
    {
      if global == null then None else Some(global.View())
    }

    constructor (c: Config<K>, globalRps: real, globalBurst: nat, now: real)
      ensures this.c == c && Valid()
      ensures View() == Start(if globalRps > 0.0 then Some(Fresh(globalRps, globalBurst, now)) else None)
    {
      this.c := c;
      var shared: TokenBucket? := null;
      if globalRps > 0.0 {
        shared := new TokenBucket(globalRps, globalBurst, now);
      }
      this.global := shared;
      var built: seq<LimiterShard<K, Bucket>> := [];
      while |built| < SHARDS
        invariant |built| <= SHARDS
        invariant shared != null ==> shared.View() == Fresh(globalRps, globalBurst, now)
        invariant forall i | 0 <= i < |built| :: built[i].View() == Shard(map[], [])
        invariant forall i, j | 0 <= i < j < |built| :: built[i] != built[j]
      {
        var shard := new LimiterShard<K, Bucket>();
        built := built + [shard];
      }
      this.shards := built;
      new;
      assert View().shards == Start<K>(None).shards;
    }

    /** One request, when nothing runs between its two steps. */
    method Check(k: K, now: real) returns (v: Verdict)
      requires Valid()
      modifies shards, global
      ensures Valid()
      ensures var (s1, early) := Step(c, old(View()), Peek(now));
        if early == DenyGlobal then View() == s1 && v == DenyGlobal
        else (View(), v) == Step(c, s1, Request(k, now))
    {
      v := LookAhead(now);
      if v == DenyGlobal {
        return;
      }
      v := CheckKey(k, now);
    }

    /** The early look at the shared bucket, before any shard is locked. */
    method LookAhead(now: real) returns (v: Verdict)
      requires Valid()
      modifies global
      ensures Valid() && (View(), v) == Step(c, old(View()), Peek(now))
    {
      if global == null {
        return Pass;
      }
      var has := global.HasToken(now);
      v := if has then Pass else DenyGlobal;
      assert View().shards == old(View()).shards;
    }

    method TakeShared(now: real) returns (ok: bool)
      modifies global
      ensures (Shared(), ok) == TakeGlobal(old(Shared()), now)
    {
      if global == null {
        return true;
      }
      ok := global.TryConsume(now);
    }

    /** The region under the lock of the key's shard. */
    method CheckKey(k: K, now: real) returns (v: Verdict)
      requires Valid()
      modifies shards, global
      ensures Valid() && (View(), v) == Step(c, old(View()), Request(k, now))
    {
      if c.rps <= 0.0 {
        var taken := TakeShared(now);
        assert View().shards == old(View()).shards;
        return if taken then Allow else DenyGlobal;
      }
      var h := Home(c.shardOf, k);
      v := CheckLocked(shards[h], k, now);
      ghost var was := old(View());
      ghost var (sh, g, w) := CheckShard(c, was.shards[h], was.global, k, now);
      assert View().shards == was.shards[h := sh];
    }

    method CheckLocked(shard: LimiterShard<K, Bucket>, k: K, now: real) returns (v: Verdict)
      requires shard.View().Valid()
      modifies shard, global
      ensures shard.View().Valid()
      ensures (shard.View(), Shared(), v) == CheckShard(c, old(shard.View()), old(Shared()), k, now)
    {
      hide MakeRoom, Refill, Fresh, ShardCapacity;
      if k !in shard.entries {
        var room := shard.MakeRoomFor(ShardCapacity(c.maxTracked), (b: Bucket) => b.Stale(now));
        if !room {
          return Refused;
        }
      }
      ghost var roomy := shard.View();
      var inserted := k !in shard.entries;
      var bucket := Refill(if inserted then Fresh(c.rps, c.burst, now) else shard.entries[k], now);
      shard.Put(k, bucket);
      if bucket.tokens < 1.0 {
        return DenyKey;
      }
      var taken := TakeShared(now);
      if !taken {
        if inserted {
          RemoveUndoesPut(roomy, k, bucket);
          shard.Remove(k);
        }
        return DenyGlobal;
      }
      shard.Put(k, Spend(bucket));
      assert shard.View() == roomy.Put(k, Spend(bucket));
      return Allow;
    }
  }
}
