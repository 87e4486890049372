/** Why the rate must refill the burst within the idle period: whenever it does not, there is a run
    in which eviction hands a key its burst again before it is earned. */
module UnrefilledRuns {
  import opened Options
  import opened Shards
  import opened Buckets
  import opened RateLimit
  import opened RateLimitAnyOrder

  /** Room for two keys in every shard. */
  function Tight(rps: real, burst: nat): Config<nat> { Config(rps, burst, 2 * SHARDS, (k: nat) => 0) }

  /** A key's bucket with so many tokens left at `now`. */
  function Pool(rps: real, burst: nat, left: nat, now: real): Bucket { Bucket(Capacity(burst), left as real, rps, now) }

  /** The limiter with one shard in use. */
  function On(sh: Shard<nat, Bucket>): (s: State<nat>)
    ensures |s.shards| == SHARDS
  {
    State(None, Start<nat>(None).shards[0 := sh])
  }

  function AllAllow(n: nat): (r: seq<Verdict>)
    ensures |r| == n
  {
    seq(n, i => Allow)
  }

  /** All requests of the run are admitted, and the shard changes from one to the other. */
  ghost predicate Admits(c: Config<nat>, sh: Shard<nat, Bucket>, events: seq<Event<nat>>, end: Shard<nat, Bucket>) {
    Run(c, On(sh), events) == (On(end), AllAllow(|events|))
  }

  lemma AdmitsAppend(c: Config<nat>, sh: Shard<nat, Bucket>, a: seq<Event<nat>>, mid: Shard<nat, Bucket>,
                     b: seq<Event<nat>>, end: Shard<nat, Bucket>)
    requires Admits(c, sh, a, mid) && Admits(c, mid, b, end)
    ensures Admits(c, sh, a + b, end)
  {
    RunAppend(c, On(sh), a, b);
    assert AllAllow(|a|) + AllAllow(|b|) == AllAllow(|a + b|);
  }

  lemma AdmitsOne(c: Config<nat>, sh: Shard<nat, Bucket>, k: nat, now: real, end: Shard<nat, Bucket>)
    requires c.rps > 0.0 && c.shardOf(k) == 0 && CheckShard(c, sh, None, k, now) == (end, None, Allow)
    ensures Admits(c, sh, [Request(k, now)], end)
  {
    hide CheckShard;
    var s, events := On(sh), [Request(k, now)];
    assert s.shards[0 := end] == On(end).shards;
    assert Step(c, s, events[0]) == (On(end), Allow);
    hide Step;
    assert events[1..] == [] && Run(c, On(end), []) == (On(end), []);
    assert [Allow] + [] == AllAllow(1);
  }

  // ---- the steps ----

  lemma FirstAdmitted(rps: real, burst: nat, sh: Shard<nat, Bucket>, k: nat, now: real)
    requires rps > 0.0 && burst >= 1 && k !in sh.entries && |sh.entries| < 2
    ensures Admits(Tight(rps, burst), sh, [Request(k, now)], sh.Put(k, Pool(rps, burst, burst - 1, now)))
  {
    assert CheckShard(Tight(rps, burst), sh, None, k, now) == (sh.Put(k, Pool(rps, burst, burst - 1, now)), None,
        Allow);
    AdmitsOne(Tight(rps, burst), sh, k, now, sh.Put(k, Pool(rps, burst, burst - 1, now)));
  }

  function Again(n: nat, k: nat, now: real): (r: seq<Event<nat>>)
    ensures |r| == n && forall i | 0 <= i < n :: r[i] == Request(k, now)
  {
    seq(n, i => Request(k, now))
  }

  lemma NextAdmitted(rps: real, burst: nat, sh: Shard<nat, Bucket>, k: nat, now: real, left: nat)
    requires rps > 0.0 && left >= 1 && k in sh.entries && sh.entries[k] == Pool(rps, burst, left, now)
    ensures Admits(Tight(rps, burst), sh, [Request(k, now)], sh.Put(k, Pool(rps, burst, left - 1, now)))
  {
    AdmitsOne(Tight(rps, burst), sh, k, now, sh.Put(k, Pool(rps, burst, left - 1, now)));
  }

  /** A key uses up what its bucket holds at one moment. */
  lemma {:induction false} Drained(rps: real, burst: nat, sh: Shard<nat, Bucket>, k: nat, now: real, left: nat)
    requires rps > 0.0 && k in sh.entries && sh.entries[k] == Pool(rps, burst, left, now)
    ensures Admits(Tight(rps, burst), sh, Again(left, k, now), sh.Put(k, Pool(rps, burst, 0, now)))
    decreases left
  {
    var c := Tight(rps, burst);
    if left == 0 {
      assert sh.entries[k := sh.entries[k]] == sh.entries && AllAllow(0) == [];
      assert Again(0, k, now) == [];
    } else {
      var mid := sh.Put(k, Pool(rps, burst, left - 1, now));
      NextAdmitted(rps, burst, sh, k, now, left);
      Drained(rps, burst, mid, k, now, left - 1);
      assert mid.Put(k, Pool(rps, burst, 0, now)) == sh.Put(k, Pool(rps, burst, 0, now)) by {
        assert mid.entries[k := Pool(rps, burst, 0, now)] == sh.entries[k := Pool(rps, burst, 0, now)];
      }
      AdmitsAppend(c, sh, [Request(k, now)], mid, Again(left - 1, k, now), sh.Put(k, Pool(rps, burst, 0, now)));
      assert [Request(k, now)] + Again(left - 1, k, now) == Again(left, k, now);
    }
  }

  lemma NewcomerAdmitted(rps: real, burst: nat, sh: Shard<nat, Bucket>, a: nat, b: nat, k: nat, now: real)
    requires rps > 0.0 && burst >= 1 && a != b && k != a && k != b
    requires sh.order == [a, b] && sh.entries.Keys == {a, b} && sh.entries[a].Stale(now)
    ensures Admits(Tight(rps, burst), sh, [Request(k, now)],
                   Shard(map[b := sh.entries[b], k := Pool(rps, burst, burst - 1, now)], [b, k]))
  {
    var c, stale := Tight(rps, burst), (x: Bucket) => x.Stale(now);
    assert |sh.entries| == |sh.entries.Keys| == 2;
    assert FirstHit(sh, stale, 0, 2) == 0;
    var r, end := Scan(sh, stale), Shard(map[b := sh.entries[b], k := Pool(rps, burst, burst - 1, now)], [b, k]);
    assert r == Shard(map[b := sh.entries[b]], [b]) by {
      assert sh.order[1..] + Present(sh.entries, sh.order[..0]) == [b];
      assert sh.entries - {a} == map[b := sh.entries[b]];
    }
    assert RoomFor(c, sh, k, now) == (r, true);
    assert r.Put(k, Pool(rps, burst, burst - 1, now)) == end by {
      assert r.entries[k := Pool(rps, burst, burst - 1, now)] == end.entries && [b] + [k] == end.order;
    }
    assert CheckShard(c, sh, None, k, now) == (end, None, Allow);
    AdmitsOne(c, sh, k, now, end);
  }

  // ---- the run ----

  /** A key takes its burst and another fills the shard. */
  function Early(burst: nat): seq<Event<nat>>
    requires burst >= 1
  {
    [Request(7, 0.0)] + Again(burst - 1, 7, 0.0) + [Request(8, 0.0)]
  }

  /** A third key evicts the first, which comes back, evicts the second and takes its burst again. */
  function Late(burst: nat, late: real): seq<Event<nat>>
    requires burst >= 1
  {
    [Request(9, late)] + [Request(7, late)] + Again(burst - 1, 7, late)
  }

  function Between(rps: real, burst: nat): Shard<nat, Bucket>
    requires burst >= 1
  {
    Shard(map[7 := Pool(rps, burst, 0, 0.0), 8 := Pool(rps, burst, burst - 1, 0.0)], [7, 8])
  }

  /** The shard with the first key alone. */
  function Alone(rps: real, burst: nat, left: nat): Shard<nat, Bucket> {
    Shard(map[7 := Pool(rps, burst, left, 0.0)], [7])
  }

  lemma EarlyShards(rps: real, burst: nat)
    requires burst >= 1
    ensures Shard<nat, Bucket>.Shard(map[], []).Put(7, Pool(rps, burst, burst - 1, 0.0)) == Alone(rps, burst, burst - 1)
    ensures Alone(rps, burst, burst - 1).Put(7, Pool(rps, burst, 0, 0.0)) == Alone(rps, burst, 0)
    ensures Alone(rps, burst, 0).Put(8, Pool(rps, burst, burst - 1, 0.0)) == Between(rps, burst)
  {
    hide Pool;
    var a, b := Pool(rps, burst, burst - 1, 0.0), Pool(rps, burst, 0, 0.0);
    assert map[7 := a][7 := b] == map[7 := b];
    assert map[7 := b][8 := a] == map[7 := b, 8 := a];
    assert [7] + [8] == [7, 8];
  }

  lemma EarlyAdmitted(rps: real, burst: nat)
    requires rps > 0.0 && burst >= 1
    ensures Admits(Tight(rps, burst), Shard(map[], []), Early(burst), Between(rps, burst))
  {
    var c, empty := Tight(rps, burst), Shard<nat, Bucket>.Shard(map[], []);
    var one, spent := Alone(rps, burst, burst - 1), Alone(rps, burst, 0);
    FirstAdmitted(rps, burst, empty, 7, 0.0);
    Drained(rps, burst, one, 7, 0.0, burst - 1);
    FirstAdmitted(rps, burst, spent, 8, 0.0);
    EarlyShards(rps, burst);
    assert Early(burst) == [Request(7, 0.0)] + Again(burst - 1, 7, 0.0) + [Request(8, 0.0)];
    hide *;
    AdmitsAppend(c, empty, [Request(7, 0.0)], one, Again(burst - 1, 7, 0.0), spent);
    AdmitsAppend(c, empty, [Request(7, 0.0)] + Again(burst - 1, 7, 0.0), spent, [Request(8, 0.0)], Between(rps, burst));
  }

  lemma LateAdmitted(rps: real, burst: nat, late: real) returns (end: Shard<nat, Bucket>)
    requires rps > 0.0 && burst >= 1 && late > IDLE_SECONDS
    ensures Admits(Tight(rps, burst), Between(rps, burst), Late(burst, late), end)
  {
    hide Admits, Again;
    var c, p := Tight(rps, burst), Pool(rps, burst, burst - 1, late);
    var sh, old8 := Between(rps, burst), Pool(rps, burst, burst - 1, 0.0);
    var sh1, sh2 := Shard(map[8 := old8, 9 := p], [8, 9]), Shard(map[9 := p, 7 := p], [9, 7]);
    NewcomerAdmitted(rps, burst, sh, 7, 8, 9, late);
    NewcomerAdmitted(rps, burst, sh1, 8, 9, 7, late);
    Drained(rps, burst, sh2, 7, late, burst - 1);
    end := sh2.Put(7, Pool(rps, burst, 0, late));
    AdmitsAppend(c, sh, [Request(9, late)], sh1, [Request(7, late)], sh2);
    AdmitsAppend(c, sh, [Request(9, late)] + [Request(7, late)], sh2, Again(burst - 1, 7, late), end);
  }

  // ---- counting and timing ----

  lemma {:induction false} AdmittedAppend(a: seq<Event<nat>>, b: seq<Event<nat>>, k: nat)
    ensures Admitted(a + b, AllAllow(|a + b|), k) == Admitted(a, AllAllow(|a|), k) + Admitted(b, AllAllow(|b|), k)
  {
    if a == [] {
      assert a + b == b;
    } else {
      assert (a + b)[1..] == a[1..] + b;
      assert AllAllow(|a + b|)[1..] == AllAllow(|a[1..] + b|) && AllAllow(|a|)[1..] == AllAllow(|a[1..]|);
      AdmittedAppend(a[1..], b, k);
    }
  }

  lemma {:induction false} AgainAdmitted(n: nat, now: real)
    ensures Admitted(Again(n, 7, now), AllAllow(n), 7) == n
  {
    if n > 0 {
      assert Again(n, 7, now)[1..] == Again(n - 1, 7, now) && AllAllow(n)[1..] == AllAllow(n - 1);
      AgainAdmitted(n - 1, now);
    }
  }

  lemma OneCounted(k: nat, now: real)
    ensures Admitted([Request(k, now)], AllAllow(1), 7) == if k == 7 then 1 else 0
  {
    assert [Request(k, now)][1..] == [] && AllAllow(1)[1..] == [];
  }

  lemma CountSevens(burst: nat, late: real)
    requires burst >= 1
    ensures var events := Early(burst) + Late(burst, late); Admitted(events, AllAllow(|events|), 7) == 2 * burst
  {
    hide Admitted;
    OneCounted(7, 0.0);
    OneCounted(8, 0.0);
    OneCounted(9, late);
    OneCounted(7, late);
    AgainAdmitted(burst - 1, 0.0);
    AgainAdmitted(burst - 1, late);
    AdmittedAppend([Request(7, 0.0)], Again(burst - 1, 7, 0.0), 7);
    AdmittedAppend([Request(7, 0.0)] + Again(burst - 1, 7, 0.0), [Request(8, 0.0)], 7);
    AdmittedAppend([Request(9, late)], [Request(7, late)], 7);
    AdmittedAppend([Request(9, late)] + [Request(7, late)], Again(burst - 1, 7, late), 7);
    AdmittedAppend(Early(burst), Late(burst, late), 7);
  }

  lemma {:induction false} TimedFrom(clock: real, events: seq<Event<nat>>)
    requires forall i | 0 <= i < |events| :: clock <= events[i].now
    requires forall i, j | 0 <= i < j < |events| :: events[i].now <= events[j].now
    ensures Timed(clock, events)
    decreases events
  {
    if events != [] {
      assert forall i | 0 <= i < |events[1..]| :: events[1..][i] == events[i + 1];
      TimedFrom(events[0].now, events[1..]);
    }
  }

  lemma AllAdmitted(rps: real, burst: nat, late: real)
    requires rps > 0.0 && burst >= 1 && late > IDLE_SECONDS
    ensures var events := Early(burst) + Late(burst, late);
      Run(Tight(rps, burst), Start(None), events).1 == AllAllow(|events|)
  {
    var c, empty := Tight(rps, burst), Shard<nat, Bucket>.Shard(map[], []);
    var end := AdmittedUpTo(rps, burst, late);
    var events := Early(burst) + Late(burst, late);
    assert On(empty).shards == Start<nat>(None).shards;
    assert On(empty) == Start(None);
    assert Run(c, On(empty), events) == (On(end), AllAllow(|events|));
  }

  lemma AdmittedUpTo(rps: real, burst: nat, late: real) returns (end: Shard<nat, Bucket>)
    requires rps > 0.0 && burst >= 1 && late > IDLE_SECONDS
    ensures Admits(Tight(rps, burst), Shard(map[], []), Early(burst) + Late(burst, late), end)
  {
    hide Admits, Early, Late;
    EarlyAdmitted(rps, burst);
    end := LateAdmitted(rps, burst, late);
    AdmitsAppend(Tight(rps, burst), Shard(map[], []), Early(burst), Between(rps, burst), Late(burst, late), end);
  }

  lemma EventTimes(burst: nat, late: real)
    requires burst >= 1 && late >= 0.0
    ensures var events := Early(burst) + Late(burst, late);
      Timed(0.0, events) && events[0].now == 0.0 && events[|events| - 1].now == late
  {
    var events := Early(burst) + Late(burst, late);
    assert |Early(burst)| == |Late(burst, late)| == burst + 1;
    assert forall i | 0 <= i < |events| :: events[i].now == if i < |Early(burst)| then 0.0 else late;
    assert events[|events| - 1].now == late;
    TimedFrom(0.0, events);
  }

  lemma BetweenTimes(rps: real, burst: nat) returns (late: real)
    requires rps > 0.0 && rps * IDLE_SECONDS < burst as real
    ensures late > IDLE_SECONDS && rps * late < burst as real
  {
    var spare := (burst as real - rps * IDLE_SECONDS) / (2.0 * rps);
    late := IDLE_SECONDS + spare;
    assert spare > 0.0;
    assert rps * spare == (burst as real - rps * IDLE_SECONDS) / 2.0;
    Distributes(rps, IDLE_SECONDS, spare);
  }

  /** For every rate that does not refill the burst within the idle period, there are a time and a
      run, all of whose requests are admitted, in which a key is admitted twice its burst in a window
      that earns it less than a second one. */
  lemma UnrefilledBreaksWindow(rps: real, burst: nat) returns (late: real)
    requires rps > 0.0 && burst >= 1 && rps * 120.0 < burst as real
    ensures !RefillsWhenIdle(Tight(rps, burst)) && late > 120.0
    ensures var c, events := Tight(rps, burst), Early(burst) + Late(burst, late);
      && Timed(0.0, events) && Run(c, Start(None), events).1 == AllAllow(|events|)
      && events[0].now == 0.0 && events[|events| - 1].now == late
      && Admitted(events, AllAllow(|events|), 7) as real > burst as real + rps * late
  {
    hide Run, Admitted, Early, Late, AllAllow, Timed;
    late := BetweenTimes(rps, burst);
    AllAdmitted(rps, burst, late);
    EventTimes(burst, late);
    CountSevens(burst, late);
  }
}
