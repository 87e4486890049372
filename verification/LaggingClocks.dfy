/** Admissions of one key when clock readings, taken before the lock, reach it out of order but lag
    behind the latest one by at most a known time. */
module LaggingClocks {
  import opened Options
  import opened Shards
  import opened Buckets
  import opened RateLimit
  import opened RateLimitAnyOrder

  function Later(clock: real, now: real): real { if now > clock then now else clock }

  /** The latest reading so far. */
  function Latest<K>(clock: real, events: seq<Event<K>>): real
    decreases events
  {
    if events == [] then clock else Latest(Later(clock, events[0].now), events[1..])
  }

  /** No reading lags behind the latest one by more than `d`. */
  ghost predicate Lagging<K>(clock: real, d: real, events: seq<Event<K>>)
    decreases events
  {
    events != [] ==> clock - d <= events[0].now && Lagging(Later(clock, events[0].now), d, events[1..])
  }

  /** The rate refills the burst within the idle period even when the reading that finds an entry
      stale is `d` ahead of the one that brings its key back. */
  predicate RefillsInTime<K>(c: Config<K>, d: real) { c.rps > 0.0 && d >= 0.0
      && Gain(c.rps, d, IDLE_SECONDS) >= Capacity(c.burst) }

  // ---- the table ----

  lemma CheckShardLater<K(!new)>(c: Config<K>, sh: Shard<K, Bucket>, g: Option<Bucket>, clock: real, k: K, now: real)
    requires c.rps > 0.0 && ShardOk(c, sh, clock)
    ensures ShardOk(c, CheckShard(c, sh, g, k, now).0, Later(clock, now))
  {
    RoomShape(c, sh, k, now);
    var (sh1, room) := RoomFor(c, sh, k, now);
    assert ShardOk(c, sh1, clock);
    if room {
      var b0 := if k in sh1.entries then sh1.entries[k] else FreshFor(c, now);
      RefillOk(b0, now);
      var b := Refill(b0, now);
      PutOk(c, sh1, clock, k, b, Later(clock, now));
      if b.tokens >= 1.0 { PutOk(c, sh1, clock, k, Spend(b), Later(clock, now)); }
    }
  }

  ghost predicate Tables<K(!new)>(c: Config<K>, s: State<K>, clock: real) {
    |s.shards| == SHARDS && forall j | 0 <= j < SHARDS :: ShardOk(c, s.shards[j], clock)
  }

  lemma StepTables<K(!new)>(c: Config<K>, s: State<K>, clock: real, e: Event<K>)
    requires c.rps > 0.0 && Tables(c, s, clock)
    ensures Tables(c, Step(c, s, e).0, Later(clock, e.now))
  {
    if e.Request? {
      var h := Home(c.shardOf, e.key);
      CheckShardLater(c, s.shards[h], s.global, clock, e.key, e.now);
    }
    hide CheckShard;
  }

  // ---- the credit of one key ----

  function Top<K>(c: Config<K>, d: real): real { Capacity(c.burst) + Gain(c.rps, 0.0, d) }

  /** What a bucket would hold at `clock` if it were never full before. */
  function Line(b: Bucket, clock: real): real { b.tokens + Gain(b.rate, b.last, clock) }

  function Credit<K(==, !new)>(c: Config<K>, m: map<K, Bucket>, x: K, clock: real, d: real): real {
    if x in m then Min(Line(m[x], clock), Top(c, d)) else Top(c, d)
  }

  lemma CreditGrows<K(!new)>(c: Config<K>, m: map<K, Bucket>, x: K, clock: real, later: real, d: real)
    requires c.rps > 0.0 && d >= 0.0 && TableOk(c, m, clock) && clock <= later
    ensures Credit(c, m, x, later, d) <= Credit(c, m, x, clock, d) + Gain(c.rps, clock, later)
  {
    GainFacts(c.rps, clock, clock, later);
    if x in m { GainFacts(c.rps, m[x].last, clock, later); }
    hide Gain;
  }

  /** A refill at a reading that lags by at most `d` stays on the bucket's line and below the top. */
  lemma RefillLine<K>(c: Config<K>, b: Bucket, now: real, clock: real, d: real)
    requires c.rps > 0.0 && d >= 0.0 && Tuned(c, b) && b.last <= clock && clock - d <= now <= clock
    ensures var r := Refill(b, now); Line(r, clock) <= Line(b, clock) && Line(r, clock) <= Top(c, d)
  {
    var r := Refill(b, now);
    RefillOk(b, now);
    if now > b.last { GainFacts(c.rps, b.last, now, clock); }
    GainFacts(c.rps, clock - d, r.last, clock);
    assert Gain(c.rps, clock - d, clock) == Gain(c.rps, 0.0, d) by { assert clock - (clock - d) == d - 0.0; }
  }

  lemma OwnCredit<K(!new)>(c: Config<K>, sh: Shard<K, Bucket>, g: Option<Bucket>, k: K, now: real, clock: real, d: real)
    requires c.rps > 0.0 && d >= 0.0 && ShardOk(c, sh, clock) && clock - d <= now <= clock
    ensures var (sh', g', v) := CheckShard(c, sh, g, k, now);
      (if v == Allow then 1.0 else 0.0) + Credit(c, sh'.entries, k, clock, d) <= Credit(c, sh.entries, k, clock, d)
  {
    RoomShape(c, sh, k, now);
    var sh1 := RoomFor(c, sh, k, now).0;
    var b0 := if k in sh1.entries then sh1.entries[k] else FreshFor(c, now);
    RefillLine(c, b0, now, clock, d);
    hide Refill, Gain, RoomFor;
  }

  lemma OtherCredit<K(!new)>(c: Config<K>, sh: Shard<K, Bucket>, g: Option<Bucket>, k: K, now: real, clock: real,
      d: real, x: K)
    requires RefillsInTime(c, d) && ShardOk(c, sh, clock) && now <= clock && x != k
    ensures Credit(c, CheckShard(c, sh, g, k, now).0.entries, x, clock, d) <= Credit(c, sh.entries, x, clock, d)
  {
    OtherEntry(c, sh, g, k, now, x);
    VictimIsStale(c, sh, now);
    if x in sh.entries && sh.entries[x].Stale(now) { StaleAtTop(c, sh.entries[x], now, clock, d); }
    hide CheckShard, Victim, Gain;
  }

  lemma StaleAtTop<K>(c: Config<K>, b: Bucket, now: real, clock: real, d: real)
    requires RefillsInTime(c, d) && Tuned(c, b) && b.Stale(now) && now <= clock
    ensures Line(b, clock) >= Top(c, d)
  {
    var idle := b.last + IDLE_SECONDS;
    GainFacts(c.rps, b.last, idle, clock);
    assert Gain(c.rps, b.last, idle) == Gain(c.rps, 0.0, IDLE_SECONDS)
        by { assert idle - b.last == IDLE_SECONDS - 0.0; }
    assert Gain(c.rps, 0.0, IDLE_SECONDS) == Gain(c.rps, 0.0, d) + Gain(c.rps, d, IDLE_SECONDS) by {
      Distributes(c.rps, d, IDLE_SECONDS - d);
      assert d + (IDLE_SECONDS - d) == IDLE_SECONDS;
    }
  }

  function Counts<K(==)>(e: Event<K>, v: Verdict, x: K): real { if e.Request? && e.key == x && v == Allow then 1.0
      else 0.0 }

  function EntriesOf<K(==, !new)>(c: Config<K>, s: State<K>, x: K): map<K, Bucket>
    requires |s.shards| == SHARDS
  {
    s.shards[Home(c.shardOf, x)].entries
  }

  lemma StepCredit<K(!new)>(c: Config<K>, s: State<K>, e: Event<K>, clock: real, d: real, x: K)
    requires RefillsInTime(c, d) && Tables(c, s, clock) && clock - d <= e.now <= clock
    ensures var (s', v) := Step(c, s, e);
      && |s'.shards| == SHARDS
      && Counts(e, v, x) + Credit(c, EntriesOf(c, s', x), x, clock, d) <= Credit(c, EntriesOf(c, s, x), x, clock, d)
  {
    if e.Request? {
      var sh := s.shards[Home(c.shardOf, e.key)];
      if e.key == x {
        OwnCredit(c, sh, s.global, x, e.now, clock, d);
      } else {
        OtherCredit(c, sh, s.global, e.key, e.now, clock, d, x);
      }
    }
    hide CheckShard, Credit;
  }

  // ---- runs ----

  lemma TablesLater<K(!new)>(c: Config<K>, s: State<K>, clock: real, later: real)
    requires Tables(c, s, clock) && clock <= later
    ensures Tables(c, s, later)
  {
  }

  lemma {:induction false} RunCredit<K(!new)>(c: Config<K>, s: State<K>, clock: real, events: seq<Event<K>>, d: real,
      x: K)
    requires RefillsInTime(c, d) && Tables(c, s, clock) && Lagging(clock, d, events)
    ensures var (end, vs) := Run(c, s, events); var later := Latest(clock, events);
      && clock <= later && Tables(c, end, later)
      && Admitted(events, vs, x) as real + Credit(c, EntriesOf(c, end, x), x, later, d)
         <= Credit(c, EntriesOf(c, s, x), x, clock, d) + Gain(c.rps, clock, later)
    decreases events
  {
    GainFacts(c.rps, clock, clock, clock);
    if events != [] {
      var e := events[0];
      var next := Later(clock, e.now);
      TablesLater(c, s, clock, next);
      CreditGrows(c, EntriesOf(c, s, x), x, clock, next, d);
      StepCredit(c, s, e, next, d, x);
      StepTables(c, s, clock, e);
      hide Step, Credit, Gain, ShardOk;
      var (s', v) := Step(c, s, e);
      RunCredit(c, s', next, events[1..], d, x);
      var (end, vs) := Run(c, s', events[1..]);
      assert Run(c, s, events).1[1..] == vs;
      GainFacts(c.rps, clock, next, Latest(clock, events));
    }
  }

  lemma CreditRange<K(!new)>(c: Config<K>, m: map<K, Bucket>, x: K, clock: real, d: real)
    requires c.rps > 0.0 && d >= 0.0 && TableOk(c, m, clock)
    ensures 0.0 <= Credit(c, m, x, clock, d) <= Top(c, d)
  {
    GainFacts(c.rps, 0.0, 0.0, d);
    if x in m { GainFacts(c.rps, m[x].last, m[x].last, clock); }
  }

  lemma {:induction false} LaggingSplit<K>(clock: real, d: real, a: seq<Event<K>>, b: seq<Event<K>>)
    requires Lagging(clock, d, a + b)
    ensures Lagging(clock, d, a) && Lagging(Latest(clock, a), d, b)
    decreases a
  {
    if a == [] {
      assert a + b == b;
    } else {
      assert (a + b)[1..] == a[1..] + b;
      LaggingSplit(Later(clock, a[0].now), d, a[1..], b);
    }
  }

  lemma WindowFrom<K(!new)>(c: Config<K>, s: State<K>, clock: real, window: seq<Event<K>>, d: real, x: K)
    requires RefillsInTime(c, d) && Tables(c, s, clock) && window != [] && Lagging(clock, d, window)
    ensures var first := Later(clock, window[0].now);
      Admitted(window, Run(c, s, window).1, x) as real <= Top(c, d) + Gain(c.rps, first, Latest(clock, window))
  {
    var first := Later(clock, window[0].now);
    TablesLater(c, s, clock, first);
    assert Lagging(first, d, window) && Latest(first, window) == Latest(clock, window);
    RunCredit(c, s, first, window, d, x);
    CreditRange(c, EntriesOf(c, s, x), x, first, d);
    CreditRange(c, EntriesOf(c, Run(c, s, window).0, x), x, Latest(first, window), d);
  }

  lemma GainTogether(rate: real, d: real, first: real, last: real)
    ensures Gain(rate, 0.0, d) + Gain(rate, first, last) == Gain(rate, first, last + d)
  {
    Distributes(rate, d, last - first);
    assert d - 0.0 == d && d + (last - first) == last + d - first;
  }

  lemma LaggingGain<K(!new)>(c: Config<K>, g: Option<Bucket>, clock: real, d: real,
                                        before: seq<Event<K>>, window: seq<Event<K>>, x: K)
    requires RefillsInTime(c, d) && Lagging(clock, d, before + window) && window != []
    ensures var verdicts := Run(c, Start(g), before + window).1[|before|..];
      var reached := Latest(clock, before);
      Admitted(window, verdicts, x) as real
        <= Capacity(c.burst) + Gain(c.rps, 0.0, d) + Gain(c.rps, Later(reached, window[0].now), Latest(reached, window))
  {
    var s: State<K> := Start(g);
    assert Tables(c, s, clock);
    LaggingSplit(clock, d, before, window);
    RunCredit(c, s, clock, before, d, x);
    var mid := Run(c, s, before).0;
    RunAppend(c, s, before, window);
    assert Run(c, s, before + window).1[|before|..] == Run(c, mid, window).1;
    hide Run, Credit, Gain, Tables, Admitted, Lagging;
    WindowFrom(c, mid, Latest(clock, before), window, d, x);
  }

  /** When readings lag by at most `d`, admissions of one key in any window of any run never exceed
      burst + rps x (window length + d), across eviction and re-creation; a lag of nothing gives the
      bound for readings in order. */
  lemma LaggingAdmissionWindow<K(!new)>(c: Config<K>, g: Option<Bucket>, clock: real, d: real,
                                        before: seq<Event<K>>, window: seq<Event<K>>, x: K)
    requires RefillsInTime(c, d) && Lagging(clock, d, before + window) && window != []
    ensures var verdicts := Run(c, Start(g), before + window).1[|before|..];
      var reached := Latest(clock, before);
      Earned(Admitted(window, verdicts, x), (if c.burst > 1 then c.burst else 1) as real, c.rps,
             Later(reached, window[0].now), Latest(reached, window) + d)
  {
    LaggingGain(c, g, clock, d, before, window, x);
    CapacityIs(c.burst);
    var reached := Latest(clock, before);
    var first, last := Later(reached, window[0].now), Latest(reached, window);
    hide Earned, Gain, Run, Admitted, Lagging, Latest, Later;
    GainTogether(c.rps, d, first, last);
    GainEarns(Admitted(window, Run(c, Start(g), before + window).1[|before|..], x), Capacity(c.burst), c.rps,
              first, last + d);
  }
}
