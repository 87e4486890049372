/** Flood detection by bucket exhaustion: the signature windows of the adaptive detector. */
module Adaptive {
  import opened Options
  import opened Shards
  import opened Buckets
  import opened Words

  /** `threshold` is at least one; the constructor of the detector clamps it. */
  datatype Config<!K> = Config(threshold: nat, cooldown: real, maxWindows: nat, shardOf: K -> nat)

  datatype Window = Window(bucket: Bucket, count: nat, lastEvent: Option<real>, lastStrong: Option<real>,
      lastSeen: real)

  datatype Outcome = Refused | Seen(count: nat, activate: bool, emit: bool)

  function Burst(threshold: nat): (b: nat)
    ensures 1 <= b <= U32_MAX
    ensures 2 <= threshold <= U32_MAX + 1 ==> b == threshold - 1
  {
    var t := if threshold < 2 then 1 else threshold - 1;
    if t < U32_MAX then t else U32_MAX
  }

  function NewBucket<K>(c: Config<K>, now: real): Bucket { Fresh(c.threshold as real, Burst(c.threshold), now) }

  function NewWindow<K>(c: Config<K>, now: real): Window { Window(NewBucket(c, now), 0, None, None, now) }

  predicate Cooled(last: Option<real>, cooldown: real, now: real) {
    last.None? || (if now > last.value then now - last.value else 0.0) >= cooldown
  }

  /** One observation on an existing window. */
  function Tick<K>(c: Config<K>, w: Window, strong: bool, now: real): (Window, Outcome) {
    var count := if w.count < U64_MAX then w.count + 1 else U64_MAX;
    var (bucket, ok) := if c.threshold == 1 then (w.bucket, false) else Serve(w.bucket, now);
    var regular := !ok && Cooled(w.lastEvent, c.cooldown, now);
    var strongly := strong && !ok && Cooled(w.lastStrong, c.cooldown, now);
    (Window(bucket, count, if regular then Some(now) else w.lastEvent,
            if strongly then Some(now) else w.lastStrong, now),
     Seen(count, !ok, regular || strongly))
  }

  predicate Idle(w: Window, now: real) { now - w.lastSeen >= IDLE_SECONDS }

  function RoomFor<K(==, !new)>(c: Config<K>, sh: Shard<K, Window>, k: K, now: real): (Shard<K, Window>, bool) {
    if k in sh.entries then (sh, true)
    else MakeRoom(sh, ShardCapacity(c.maxWindows), (w: Window) => Idle(w, now))
  }

  function Observe<K(==, !new)>(c: Config<K>, sh: Shard<K, Window>, k: K, strong: bool, now: real)
    : (Shard<K, Window>, Outcome)
  {
    var (sh1, room) := RoomFor(c, sh, k, now);
    if !room then (sh1, Refused)
    else
      var (w, out) := Tick(c, if k in sh1.entries then sh1.entries[k] else NewWindow(c, now), strong, now);
      (sh1.Put(k, w), out)
  }

  /** `observe_signature` under its shard lock; a refused observation reports nothing. */
  class SignatureWindows<K(==, !new)> {
    const c: Config<K>
    const shard: LimiterShard<K, Window>

    constructor (c: Config<K>)
      ensures this.c == c && fresh(shard) && shard.View() == Shard(map[], []) && shard.View().Valid()
    {
      this.c := c;
      this.shard := new LimiterShard();
    }

    method ObserveSignature(k: K, strong: bool, now: real) returns (out: Outcome)
      requires shard.View().Valid()
      modifies shard
      ensures shard.View().Valid()
      ensures (shard.View(), out) == Observe(c, old(shard.View()), k, strong, now)
    {
      hide MakeRoom, Serve, Cooled;
      if k !in shard.entries {
        var room := shard.MakeRoomFor(ShardCapacity(c.maxWindows), (w: Window) => Idle(w, now));
        if !room {
          return Refused;
        }
      }
      var w := if k in shard.entries then shard.entries[k] else NewWindow(c, now);
      var count := if w.count < U64_MAX then w.count + 1 else U64_MAX;
      var bucket, ok := w.bucket, false;
      if c.threshold != 1 {
        var served := Serve(w.bucket, now);
        bucket, ok := served.0, served.1;
      }
      var lastEvent, lastStrong := w.lastEvent, w.lastStrong;
      var regular := !ok && Cooled(lastEvent, c.cooldown, now);
      var strongly := strong && !ok && Cooled(lastStrong, c.cooldown, now);
      if regular {
        lastEvent := Some(now);
      }
      if strongly {
        lastStrong := Some(now);
      }
      shard.Put(k, Window(bucket, count, lastEvent, lastStrong, now));
      return Seen(count, !ok, regular || strongly);
    }
  }

  // ---- every signature behaves as if it had a bucket of its own for ever ----

  ghost predicate WindowOk<K>(c: Config<K>, w: Window, clock: real) {
    && w.bucket.Ok() && w.bucket.capacity == Capacity(Burst(c.threshold)) && w.bucket.rate == c.threshold as real
    && w.bucket.last == w.lastSeen <= clock
  }

  ghost predicate ShardOk<K(!new)>(c: Config<K>, sh: Shard<K, Window>, clock: real) {
    && sh.Valid() && |sh.entries| <= ShardCapacity(c.maxWindows)
    && forall k | k in sh.entries :: WindowOk(c, sh.entries[k], clock)
  }

  ghost predicate Inv<K(!new)>(c: Config<K>, shards: seq<Shard<K, Window>>, clock: real) {
    |shards| == SHARDS && forall h | 0 <= h < SHARDS :: ShardOk(c, shards[h], clock)
  }

  function BucketIn<K(==)>(c: Config<K>, m: map<K, Window>, k: K, t: real): Bucket {
    if k in m then Refill(m[k].bucket, t) else NewBucket(c, t)
  }

  lemma RoomFacts<K(!new)>(c: Config<K>, sh: Shard<K, Window>, clock: real, k: K, now: real, x: K)
    requires c.threshold >= 2 && ShardOk(c, sh, clock) && clock <= now
    ensures var (sh1, room) := RoomFor(c, sh, k, now);
      && ShardOk(c, sh1, clock)
      && (k in sh1.entries <==> k in sh.entries)
      && (room && k !in sh1.entries ==> |sh1.entries| < ShardCapacity(c.maxWindows))
      && BucketIn(c, sh1.entries, x, now) == BucketIn(c, sh.entries, x, now)
  {
    if k !in sh.entries {
      ScanKeeps(sh, (w: Window) => Idle(w, now));
      if x in sh.entries && x !in RoomFor(c, sh, k, now).0.entries {
        StaleIsFresh(sh.entries[x].bucket, Burst(c.threshold), now);
      }
    }
  }

  lemma TickOk<K>(c: Config<K>, w: Window, clock: real, strong: bool, now: real)
    requires c.threshold >= 2 && WindowOk(c, w, clock) && clock <= now
    ensures WindowOk(c, Tick(c, w, strong, now).0, now)
  {
    ServeOk(w.bucket, now);
  }

  lemma PutOk<K(!new)>(c: Config<K>, sh: Shard<K, Window>, clock: real, k: K, w: Window, now: real)
    requires ShardOk(c, sh, clock) && clock <= now && WindowOk(c, w, now)
    requires k in sh.entries || |sh.entries| < ShardCapacity(c.maxWindows)
    ensures ShardOk(c, sh.Put(k, w), now)
  {
    PutValid(sh, k, w);
    assert sh.Put(k, w).entries.Keys == sh.entries.Keys + {k};
  }

  lemma ObserveOk<K(!new)>(c: Config<K>, sh: Shard<K, Window>, clock: real, k: K, strong: bool, now: real)
    requires c.threshold >= 2 && ShardOk(c, sh, clock) && clock <= now
    ensures ShardOk(c, Observe(c, sh, k, strong, now).0, now)
  {
    hide Tick, RoomFor;
    RoomFacts(c, sh, clock, k, now, k);
    var (sh1, room) := RoomFor(c, sh, k, now);
    if room {
      var w := if k in sh1.entries then sh1.entries[k] else NewWindow(c, now);
      var w' := Tick(c, w, strong, now).0;
      TickOk(c, w, if k in sh1.entries then clock else now, strong, now);
      PutOk(c, sh1, clock, k, w', now);
    }
  }

  /** One observation charges the bucket of its own signature, leaves what every other signature's
      bucket amounts to, and activates exactly when that bucket has no token. Evicting an idle
      window changes none of this. */
  lemma ObserveFacts<K(!new)>(c: Config<K>, sh: Shard<K, Window>, clock: real, k: K, strong: bool, now: real, x: K)
    requires c.threshold >= 2 && ShardOk(c, sh, clock) && clock <= now
    ensures var (sh', out) := Observe(c, sh, k, strong, now);
      var (b, ok) := Serve(BucketIn(c, sh.entries, k, now), now);
      && (out.Seen? ==> out.activate == !ok)
      && BucketIn(c, sh'.entries, x, now) == (if x == k && out.Seen? then b else BucketIn(c, sh.entries, x, now))
  {
    RoomFacts(c, sh, clock, k, now, x);
    RoomFacts(c, sh, clock, k, now, k);
    var sh1 := RoomFor(c, sh, k, now).0;
    var w := if k in sh1.entries then sh1.entries[k] else NewWindow(c, now);
    RefillCompose(w.bucket, now, now);
  }

  /** An observation goes uncounted exactly when its signature has no window, its shard is full and
      none of the first 32 windows in the queue is idle. */
  lemma RefusedExactly<K(!new)>(c: Config<K>, sh: Shard<K, Window>, clock: real, k: K, strong: bool, now: real)
    requires ShardOk(c, sh, clock)
    ensures Observe(c, sh, k, strong, now).1 == Refused <==>
      && k !in sh.entries && |sh.entries| >= ShardCapacity(c.maxWindows)
      && forall j | 0 <= j < |sh.order| && j < 32 ::
           sh.order[j] in sh.entries && now - sh.entries[sh.order[j]].lastSeen < 120.0
  {
    var idle := (w: Window) => Idle(w, now);
    RoomUnlessStuck(sh, ShardCapacity(c.maxWindows), idle);
    hide MakeRoom, Tick, Distinct;
  }

  datatype Sighting<K> = Sighting(key: K, strong: bool, now: real)

  ghost predicate Timed<K>(clock: real, obs: seq<Sighting<K>>)
    decreases obs
  {
    obs != [] ==> clock <= obs[0].now && Timed(obs[0].now, obs[1..])
  }

  function StepAll<K(==, !new)>(c: Config<K>, shards: seq<Shard<K, Window>>, o: Sighting<K>)
    : (seq<Shard<K, Window>>, Outcome)
    requires |shards| == SHARDS
  {
    var h := Home(c.shardOf, o.key);
    var (sh, out) := Observe(c, shards[h], o.key, o.strong, o.now);
    (shards[h := sh], out)
  }

  /** The times at which the detector counted an observation of `x`, and whether each activated. */
  function History<K(==, !new)>(c: Config<K>, shards: seq<Shard<K, Window>>, obs: seq<Sighting<K>>, x: K)
    : (seq<real>, seq<bool>)
    requires |shards| == SHARDS
    decreases obs
  {
    if obs == [] then ([], [])
    else
      var (shards', out) := StepAll(c, shards, obs[0]);
      var (times, acts) := History(c, shards', obs[1..], x);
      if obs[0].key == x && out.Seen? then ([obs[0].now] + times, [out.activate] + acts) else (times, acts)
  }

  // ---- every reachable table, whatever times the observations bring ----

  ghost predicate Shaped<K(!new)>(c: Config<K>, sh: Shard<K, Window>) {
    sh.Valid() && |sh.entries| <= ShardCapacity(c.maxWindows)
  }

  lemma ObserveShaped<K(!new)>(c: Config<K>, sh: Shard<K, Window>, k: K, strong: bool, now: real)
    requires Shaped(c, sh)
    ensures Shaped(c, Observe(c, sh, k, strong, now).0)
  {
    if k !in sh.entries { ScanKeeps(sh, (w: Window) => Idle(w, now)); }
    var (sh1, room) := RoomFor(c, sh, k, now);
    if room {
      hide Tick, Scan, Hit, Distinct;
      var w := Tick(c, if k in sh1.entries then sh1.entries[k] else NewWindow(c, now), strong, now).0;
      PutValid(sh1, k, w);
      assert sh1.Put(k, w).entries.Keys == sh1.entries.Keys + {k};
    }
  }

  function ObserveAll<K(==, !new)>(c: Config<K>, shards: seq<Shard<K, Window>>, obs: seq<Sighting<K>>)
    : (r: seq<Shard<K, Window>>)
    requires |shards| == SHARDS
    ensures |r| == SHARDS
    decreases obs
  {
    if obs == [] then shards else ObserveAll(c, StepAll(c, shards, obs[0]).0, obs[1..])
  }

  lemma {:induction false} RunShaped<K(!new)>(c: Config<K>, shards: seq<Shard<K, Window>>, obs: seq<Sighting<K>>)
    requires |shards| == SHARDS && forall h | 0 <= h < SHARDS :: Shaped(c, shards[h])
    ensures forall h | 0 <= h < SHARDS :: Shaped(c, ObserveAll(c, shards, obs)[h])
    decreases obs
  {
    if obs != [] {
      var o := obs[0];
      ObserveShaped(c, shards[Home(c.shardOf, o.key)], o.key, o.strong, o.now);
      hide Shaped, Observe;
      RunShaped(c, StepAll(c, shards, o).0, obs[1..]);
    }
  }

  /** After any run of observations, at any times and with any threshold, the 64 shards together hold
      at most the configured number of windows plus 63, and every queue is a duplicate-free
      permutation of its shard's signatures. */
  lemma RunTracksBoundedWindows<K(!new)>(c: Config<K>, obs: seq<Sighting<K>>)
    requires c.maxWindows > 0
    ensures var shards := ObserveAll(c, NoWindows(), obs);
      |shards| == 64 && SizeSum(shards) <= c.maxWindows + 63 && forall h | 0 <= h < SHARDS :: Shaped(c, shards[h])
  {
    RunShaped(c, NoWindows(), obs);
    TrackedKeysBound(ObserveAll(c, NoWindows(), obs), c.maxWindows);
  }

  function Flip(oks: seq<bool>): (r: seq<bool>)
    ensures |r| == |oks| && forall i | 0 <= i < |oks| :: r[i] == !oks[i]
  {
    seq(|oks|, i requires 0 <= i < |oks| => !oks[i])
  }

  lemma BucketInLater<K(!new)>(c: Config<K>, sh: Shard<K, Window>, x: K, s: real, t: real)
    requires c.threshold >= 2 && ShardOk(c, sh, s) && s <= t
    ensures BucketIn(c, sh.entries, x, t) == Refill(BucketIn(c, sh.entries, x, s), t)
  {
    if x in sh.entries {
      RefillCompose(sh.entries[x].bucket, s, t);
    } else {
      GainFacts(c.threshold as real, s, s, t);
    }
  }

  ghost predicate Tracks<K(!new)>(c: Config<K>, shards: seq<Shard<K, Window>>, clock: real, x: K, b: Bucket)
    requires |shards| == SHARDS
  {
    b.Ok() && BucketIn(c, shards[Home(c.shardOf, x)].entries, x, clock) == Refill(b, clock)
  }

  lemma SightingTracks<K(!new)>(c: Config<K>, shards: seq<Shard<K, Window>>, clock: real, o: Sighting<K>, x: K,
      b: Bucket)
    requires c.threshold >= 2 && Inv(c, shards, clock) && clock <= o.now && Tracks(c, shards, clock, x, b)
    ensures var (shards', out) := StepAll(c, shards, o);
      var (b', ok) := Serve(b, o.now);
      && Inv(c, shards', o.now)
      && (if o.key == x && out.Seen? then out.activate == !ok && Tracks(c, shards', o.now, x, b')
          else Tracks(c, shards', o.now, x, b))
  {
    ObserveOk(c, shards[Home(c.shardOf, o.key)], clock, o.key, o.strong, o.now);
    ObserveFacts(c, shards[Home(c.shardOf, o.key)], clock, o.key, o.strong, o.now, x);
    BucketInLater(c, shards[Home(c.shardOf, x)], x, clock, o.now);
    RefillCompose(b, clock, o.now);
    RefillCompose(b, o.now, o.now);
    ServeOk(b, o.now);
  }

  /** For every signature, the verdicts on its counted observations are those of one bucket that
      is never evicted and never shared. */
  lemma {:induction false} HistoryIsPrivateBucket<K(!new)>(c: Config<K>, shards: seq<Shard<K, Window>>, clock: real,
                                                           obs: seq<Sighting<K>>, x: K, b: Bucket)
    requires c.threshold >= 2 && Inv(c, shards, clock) && Timed(clock, obs) && Tracks(c, shards, clock, x, b)
    ensures var (times, acts) := History(c, shards, obs, x);
      Nondecreasing(clock, times) && |times| == |acts| && acts == Flip(ServeAll(b, times).1)
    decreases obs
  {
    hide Observe, Serve, ShardOk, Tracks;
    if obs != [] {
      var o := obs[0];
      var (shards', out) := StepAll(c, shards, o);
      SightingTracks(c, shards, clock, o, x, b);
      var counted := o.key == x && out.Seen?;
      var b' := if counted then Serve(b, o.now).0 else b;
      HistoryIsPrivateBucket(c, shards', o.now, obs[1..], x, b');
      if counted { FlipPrepend(Serve(b, o.now).1, ServeAll(b', History(c, shards', obs[1..], x).0).1); }
    }
  }

  lemma FlipPrepend(ok: bool, oks: seq<bool>)
    ensures Flip([ok] + oks) == [!ok] + Flip(oks)
  {
  }

  // ---- the events of one window ----

  predicate Emits(out: Outcome) { out.Seen? && out.emit }

  /** The observation activates and its regular, or its strong, cooldown is over. */
  predicate Regular<K>(c: Config<K>, w: Window, o: Sighting<K>) {
    Tick(c, w, o.strong, o.now).1.activate && Cooled(w.lastEvent, c.cooldown, o.now)
  }

  predicate Strong<K>(c: Config<K>, w: Window, o: Sighting<K>) {
    o.strong && Tick(c, w, o.strong, o.now).1.activate && Cooled(w.lastStrong, c.cooldown, o.now)
  }

  /** The window before the i-th of a run of observations. */
  function WindowAt<K>(c: Config<K>, w: Window, obs: seq<Sighting<K>>, i: nat): Window
    requires i <= |obs|
    decreases i
  {
    if i == 0 then w else Tick(c, WindowAt(c, w, obs, i - 1), obs[i - 1].strong, obs[i - 1].now).0
  }

  predicate ReportsAt<K>(c: Config<K>, w: Window, obs: seq<Sighting<K>>, i: nat)
    requires i < |obs|
  {
    Emits(Tick(c, WindowAt(c, w, obs, i), obs[i].strong, obs[i].now).1)
  }

  ghost predicate InOrder<K>(obs: seq<Sighting<K>>) { forall i, j | 0 <= i < j < |obs| :: obs[i].now <= obs[j].now }

  /** A report of a kind leaves its time behind until the next report of that kind. */
  lemma {:induction false} LastReports<K>(c: Config<K>, w: Window, obs: seq<Sighting<K>>, i: nat, j: nat)
    requires InOrder(obs) && i < j <= |obs|
    ensures Regular(c, WindowAt(c, w, obs, i), obs[i]) ==>
      var last := WindowAt(c, w, obs, j).lastEvent; last.Some? && obs[i].now <= last.value <= obs[j - 1].now
    ensures Strong(c, WindowAt(c, w, obs, i), obs[i]) ==>
      var last := WindowAt(c, w, obs, j).lastStrong; last.Some? && obs[i].now <= last.value <= obs[j - 1].now
    decreases j
  {
    hide Serve;
    if i < j - 1 { LastReports(c, w, obs, i, j - 1); }
  }

  /** Two reports of the same kind are at least a cooldown apart. */
  lemma SameKindApart<K>(c: Config<K>, w: Window, obs: seq<Sighting<K>>, i: nat, j: nat)
    requires InOrder(obs) && i < j < |obs|
    requires var u, v := WindowAt(c, w, obs, i), WindowAt(c, w, obs, j);
      (Regular(c, u, obs[i]) && Regular(c, v, obs[j])) || (Strong(c, u, obs[i]) && Strong(c, v, obs[j]))
    ensures obs[j].now - obs[i].now >= c.cooldown
  {
    hide Tick;
    LastReports(c, w, obs, i, j);
  }

  lemma ReportKinds<K>(c: Config<K>, w: Window, o: Sighting<K>)
    ensures Emits(Tick(c, w, o.strong, o.now).1) <==> Regular(c, w, o) || Strong(c, w, o)
    ensures Strong(c, w, o) ==> o.strong
  {
  }

  /** While a window lives, any two reports on weak observations are at least a cooldown apart,
      whatever comes between them. */
  lemma WeakReportsApart<K>(c: Config<K>, w: Window, obs: seq<Sighting<K>>, i: nat, j: nat)
    requires InOrder(obs) && i < j < |obs| && !obs[i].strong && !obs[j].strong
    requires ReportsAt(c, w, obs, i) && ReportsAt(c, w, obs, j)
    ensures obs[j].now - obs[i].now >= c.cooldown
  {
    ReportKinds(c, WindowAt(c, w, obs, i), obs[i]);
    ReportKinds(c, WindowAt(c, w, obs, j), obs[j]);
    hide Tick, Regular, Strong;
    SameKindApart(c, w, obs, i, j);
  }

  /** Any three reports of one window, on weak and strong observations in any mix, span at least a
      cooldown: two of them are of the same kind. */
  lemma ThreeReportsApart<K>(c: Config<K>, w: Window, obs: seq<Sighting<K>>, i: nat, j: nat, k: nat)
    requires InOrder(obs) && i < j < k < |obs|
    requires ReportsAt(c, w, obs, i) && ReportsAt(c, w, obs, j) && ReportsAt(c, w, obs, k)
    ensures obs[k].now - obs[i].now >= c.cooldown
  {
    var u, v, z := WindowAt(c, w, obs, i), WindowAt(c, w, obs, j), WindowAt(c, w, obs, k);
    ReportKinds(c, u, obs[i]);
    ReportKinds(c, v, obs[j]);
    ReportKinds(c, z, obs[k]);
    hide Tick, Regular, Strong, WindowAt;
    assert obs[i].now <= obs[j].now <= obs[k].now;
    if (Regular(c, u, obs[i]) && Regular(c, v, obs[j])) || (Strong(c, u, obs[i]) && Strong(c, v, obs[j])) {
      SameKindApart(c, w, obs, i, j);
    } else if (Regular(c, v, obs[j]) && Regular(c, z, obs[k])) || (Strong(c, v, obs[j]) && Strong(c, z, obs[k])) {
      SameKindApart(c, w, obs, j, k);
    } else {
      SameKindApart(c, w, obs, i, k);
    }
  }

  /** The remembered time of a window is its first one or that of an earlier report. */
  lemma {:induction false} LastEventReported<K>(c: Config<K>, w: Window, obs: seq<Sighting<K>>, j: nat)
    requires j <= |obs|
    ensures var last := WindowAt(c, w, obs, j).lastEvent;
      last == w.lastEvent || exists i: nat | i < j :: ReportsAt(c, w, obs, i) && last == Some(obs[i].now)
    decreases j
  {
    if j > 0 {
      LastEventReported(c, w, obs, j - 1);
      hide Serve, Cooled;
      if WindowAt(c, w, obs, j).lastEvent != WindowAt(c, w, obs, j - 1).lastEvent {
        assert ReportsAt(c, w, obs, j - 1) && WindowAt(c, w, obs, j).lastEvent == Some(obs[j - 1].now);
      }
    }
  }

  /** An activating observation a cooldown or more after every earlier report of its window, however
      the observations are ordered, is reported. */
  lemma DueIsReported<K>(c: Config<K>, obs: seq<Sighting<K>>, start: real, j: nat)
    requires var w := NewWindow(c, start);
      && j < |obs| && Tick(c, WindowAt(c, w, obs, j), obs[j].strong, obs[j].now).1.activate
      && forall i: nat | i < j && ReportsAt(c, w, obs, i) :: obs[j].now - obs[i].now >= c.cooldown
    ensures ReportsAt(c, NewWindow(c, start), obs, j)
  {
    var w := NewWindow(c, start);
    LastEventReported(c, w, obs, j);
    hide Serve, WindowAt;
  }

  lemma {:induction false} LastStrongReported<K>(c: Config<K>, w: Window, obs: seq<Sighting<K>>, j: nat)
    requires j <= |obs|
    ensures var last := WindowAt(c, w, obs, j).lastStrong;
      || last == w.lastStrong
      || exists i: nat | i < j :: ReportsAt(c, w, obs, i) && obs[i].strong && last == Some(obs[i].now)
    decreases j
  {
    if j > 0 {
      LastStrongReported(c, w, obs, j - 1);
      hide Serve, Cooled;
      if WindowAt(c, w, obs, j).lastStrong != WindowAt(c, w, obs, j - 1).lastStrong {
        assert ReportsAt(c, w, obs, j - 1) && WindowAt(c, w, obs, j).lastStrong == Some(obs[j - 1].now);
      }
    }
  }

  /** So is a strong one a cooldown or more after every earlier report on a strong observation, however
      recent the reports on weak ones. */
  lemma StrongDueIsReported<K>(c: Config<K>, obs: seq<Sighting<K>>, start: real, j: nat)
    requires var w := NewWindow(c, start);
      && j < |obs| && obs[j].strong && Tick(c, WindowAt(c, w, obs, j), obs[j].strong, obs[j].now).1.activate
      && forall i: nat | i < j && obs[i].strong && ReportsAt(c, w, obs, i) :: obs[j].now - obs[i].now >= c.cooldown
    ensures ReportsAt(c, NewWindow(c, start), obs, j)
  {
    var w := NewWindow(c, start);
    LastStrongReported(c, w, obs, j);
    hide Serve, WindowAt;
  }

  /** A window counts its observations, up to what 64 bits hold. */
  lemma {:induction false} CountsObservations<K>(c: Config<K>, obs: seq<Sighting<K>>, start: real, j: nat)
    requires j < |obs|
    ensures var w := WindowAt(c, NewWindow(c, start), obs, j);
      var reported := if j + 1 < 0x1_0000_0000_0000_0000 then j + 1 else 0xFFFF_FFFF_FFFF_FFFF;
      && Tick(c, w, obs[j].strong, obs[j].now).1.count == reported
      && Tick(c, w, obs[j].strong, obs[j].now).0.count == reported
    decreases j
  {
    hide Serve, Cooled;
    if j > 0 { CountsObservations(c, obs, start, j - 1); }
  }

  // ---- what exhaustion means in terms of windows ----

  /** Observations `i..=j` exceed burst plus rate times the time they span. */
  ghost predicate Flood(times: seq<real>, i: nat, j: nat, burst: real, rate: real)
    requires i <= j < |times|
  {
    (j - i + 1) as real > burst + rate * (times[j] - times[i])
  }

  ghost predicate Overflows(times: seq<real>, i: nat, j: nat, burst: real, rate: real)
    requires i <= j < |times|
  {
    (j - i + 1) as real > burst + Gain(rate, times[i], times[j])
  }

  lemma FloodOverflows(times: seq<real>, i: nat, j: nat, burst: real, rate: real)
    requires i <= j < |times|
    ensures Flood(times, i, j, burst, rate) <==> Overflows(times, i, j, burst, rate)
  {
  }

  ghost predicate FloodEndsAt(times: seq<real>, j: nat, burst: real, rate: real)
    requires j < |times|
  {
    exists i: nat {:trigger Flood(times, i, j, burst, rate)} :: i <= j && Flood(times, i, j, burst, rate)
  }

  /** The denial at `j > 0` overflows from the first request on, given that it overflows from the
      second on with the level the second finds. */
  lemma OverflowStep(b: Bucket, t0: real, t1: real, tj: real, j: nat)
    requires b.Ok() && j >= 1 && b.last <= t0 <= t1 <= tj
    requires var b' := Serve(b, t0).0;
      Level(b', t1) < b.capacity && j as real > Level(b', t1) + Gain(b.rate, t1, tj)
    ensures (j + 1) as real > Level(b, t0) + Gain(b.rate, t0, tj)
  {
    RefillOk(b, t0);
    GainFacts(b.rate, t0, t1, tj);
  }

  lemma {:induction false} DeniedOverflow(b: Bucket, times: seq<real>, j: nat) returns (i: nat)
    requires b.Ok() && j < |times| && b.last <= times[0] && Nondecreasing(times[0], times)
    requires !ServeAll(b, times).1[j]
    ensures i <= j
    ensures Overflows(times, i, j, if i == 0 then Level(b, times[0]) else b.capacity, b.rate)
    decreases times
  {
    if j == 0 {
      assert Gain(b.rate, times[0], times[0]) == 0.0;
      return 0;
    }
    var b' := Serve(b, times[0]).0;
    ServeOk(b, times[0]);
    var rest := times[1..];
    assert ServeAll(b, times).1[1..] == ServeAll(b', rest).1;
    var i' := DeniedOverflow(b', rest, j - 1);
    if i' > 0 || Level(b', times[1]) == b.capacity {
      assert Overflows(times, i' + 1, j, b.capacity, b.rate);
      return i' + 1;
    }
    RefillOk(b', times[1]);
    OverflowStep(b, times[0], times[1], times[j], j);
    return 0;
  }

  lemma {:induction false} ServeDrop(b: Bucket, times: seq<real>, i: nat) returns (m: Bucket)
    requires b.Ok() && i <= |times|
    ensures m.Ok() && m.capacity == b.capacity && m.rate == b.rate
    ensures ServeAll(b, times).1[i..] == ServeAll(m, times[i..]).1
    decreases times
  {
    m := b;
    if i > 0 {
      var b' := Serve(b, times[0]).0;
      ServeOk(b, times[0]);
      m := ServeDrop(b', times[1..], i - 1);
      assert times[1..][i - 1..] == times[i..];
    }
  }

  lemma {:induction false} ServeTake(b: Bucket, times: seq<real>, j: nat)
    requires j <= |times|
    ensures ServeAll(b, times[..j]).1 == ServeAll(b, times).1[..j]
    decreases times
  {
    if j > 0 {
      ServeTake(Serve(b, times[0]).0, times[1..], j - 1);
      assert times[..j][1..] == times[1..][..j - 1];
    }
  }

  lemma {:induction false} AllTrue(oks: seq<bool>)
    requires forall i | 0 <= i < |oks| :: oks[i]
    ensures Trues(oks) == |oks|
  {
    if oks != [] { AllTrue(oks[1..]); }
  }

  lemma AllGranted(b: Bucket, times: seq<real>, n: nat)
    requires b.Ok() && 1 <= n <= |times| && Nondecreasing(times[0], times)
    requires forall m | 0 <= m < n :: ServeAll(b, times).1[m]
    ensures n as real <= b.capacity + Gain(b.rate, times[0], times[n - 1])
  {
    hide Serve, Gain;
    var part := times[..n];
    ServeTake(b, times, n);
    AllTrue(ServeAll(b, part).1);
    WindowGain(b, part);
  }

  /** Every window that exceeds burst plus rate times its length contains a denial. */
  lemma FloodDenied(b: Bucket, times: seq<real>, i: nat, j: nat)
    requires b.Ok() && i <= j < |times| && Nondecreasing(times[0], times)
    requires Overflows(times, i, j, b.capacity, b.rate)
    ensures exists m | i <= m <= j :: !ServeAll(b, times).1[m]
  {
    hide Serve, Gain;
    var m := ServeDrop(b, times, i);
    var rest := times[i..];
    assert forall k | 0 <= k < |rest| :: ServeAll(m, rest).1[k] == ServeAll(b, times).1[i + k];
    if forall k | 0 <= k < j + 1 - i :: ServeAll(m, rest).1[k] { AllGranted(m, rest, j + 1 - i); }
  }

  // ---- the detector ----

  function NoWindows<K(==, !new)>(): seq<Shard<K, Window>> { seq(SHARDS, _ => Shard(map[], [])) }

  lemma FromStart<K(!new)>(c: Config<K>, clock: real, obs: seq<Sighting<K>>, x: K)
    requires c.threshold >= 2 && Timed(clock, obs)
    ensures var (times, acts) := History(c, NoWindows(), obs, x);
      var b := NewBucket(c, clock);
      && b.Ok() && Nondecreasing(clock, times) && |times| == |acts|
      && acts == Flip(ServeAll(b, times).1)
  {
    var b := NewBucket(c, clock);
    GainFacts(b.rate, clock, clock, clock);
    HistoryIsPrivateBucket(c, NoWindows(), clock, obs, x, b);
  }

  /** One less than the threshold, as far as 32 bits go. */
  ghost function FloodBurst<K>(c: Config<K>): real
    requires c.threshold >= 2
  {
    (if c.threshold <= 0x1_0000_0000 then c.threshold - 1 else 0xFFFF_FFFF) as real
  }

  /** An observation activates its signature only if some window of counted observations ending
      at it holds more than the burst (threshold - 1) plus threshold times its length. */
  lemma ActivationMeansFlood<K(!new)>(c: Config<K>, clock: real, obs: seq<Sighting<K>>, x: K, j: nat)
    requires c.threshold >= 2 && Timed(clock, obs)
    requires j < |History(c, NoWindows(), obs, x).1| && History(c, NoWindows(), obs, x).1[j]
    ensures var times := History(c, NoWindows(), obs, x).0;
      j < |times| && FloodEndsAt(times, j, FloodBurst(c), c.threshold as real)
  {
    FromStart(c, clock, obs, x);
    var (times, acts) := History(c, NoWindows(), obs, x);
    var b := NewBucket(c, clock);
    RefillOk(b, times[0]);
    GainFacts(b.rate, clock, clock, times[0]);
    var i := DeniedOverflow(b, times, j);
    FloodOverflows(times, i, j, FloodBurst(c), c.threshold as real);
  }

  /** Conversely every such window contains an activation. */
  lemma FloodMeansActivation<K(!new)>(c: Config<K>, clock: real, obs: seq<Sighting<K>>, x: K, i: nat, j: nat)
    requires c.threshold >= 2 && Timed(clock, obs)
    requires var times := History(c, NoWindows(), obs, x).0;
      i <= j < |times| && Flood(times, i, j, FloodBurst(c), c.threshold as real)
    ensures var acts := History(c, NoWindows(), obs, x).1;
      j < |acts| && exists m | i <= m <= j :: acts[m]
  {
    FromStart(c, clock, obs, x);
    var (times, acts) := History(c, NoWindows(), obs, x);
    var b := NewBucket(c, clock);
    FloodOverflows(times, i, j, FloodBurst(c), c.threshold as real);
    FloodDenied(b, times, i, j);
    var m :| i <= m <= j && !ServeAll(b, times).1[m];
    assert acts[m];
  }
}
