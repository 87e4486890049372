/** What the buckets behind the permit limiters allow over a window of a run: grants of all keys by
    the shared connect bucket, and grants of one key by its own bucket while it is not evicted below
    full; and a run that shows what eviction does otherwise. */
module PermitBudgets {
  import opened Options
  import opened Shards
  import opened Buckets
  import opened Permits

  // ---- the shared bucket ----

  /** The shared bucket loses a token exactly when a thread is charged, had that token, and is
      otherwise unchanged or refilled; `spent` counts those tokens. */
  lemma SharedStep<K(!new)>(c: Config<K>, s: State<K>, t: nat, a: Action<K>)
    requires |s.shards| == SHARDS && Enabled(c, s, t, a) && s.shared.Some?
    ensures var s' := Do(c, s, t, a); var pc := At(s.pcs, t); var b := s.shared.value;
      && |s'.shards| == SHARDS && s'.shared.Some?
      && (s'.spent == s.spent || s'.spent == s.spent + 1)
      && (s'.spent == s.spent + 1 <==> a.Charge? && Level(b, pc.now) >= 1.0)
      && s'.shared.value ==
           (if a.Charge? then (if Level(b, pc.now) >= 1.0 then Spend(Refill(b, pc.now)) else Refill(b, pc.now))
            else if a.Begin? then Refill(b, a.now) else b)
  {
    hide Admit, Refill, Unlocked;
  }

  lemma RefillBudget(b: Bucket, now: real)
    requires b.Ok()
    ensures var r := Refill(b, now);
      r.Ok() && b.last <= r.last && r.tokens <= b.tokens + Gain(b.rate, b.last, r.last)
  {
    RefillOk(b, now);
    GainFacts(b.rate, b.last, b.last, b.last);
  }

  ghost predicate SameKind(a: Bucket, b: Bucket) { a.Ok() && b.Ok() && a.rate == b.rate && a.capacity == b.capacity }

  lemma StepBudget<K(!new)>(c: Config<K>, s: State<K>, t: nat, a: Action<K>)
    requires |s.shards| == SHARDS && Enabled(c, s, t, a) && s.shared.Some? && s.shared.value.Ok()
    ensures var s' := Do(c, s, t, a); |s'.shards| == SHARDS && s'.shared.Some? && s'.spent >= s.spent
    ensures var s' := Do(c, s, t, a); var b, b' := s.shared.value, s'.shared.value;
      && SameKind(b, b') && b.last <= b'.last
      && (s'.spent - s.spent) as real + b'.tokens <= b.tokens + Gain(b.rate, b.last, b'.last)
  {
    SharedStep(c, s, t, a);
    hide Do, Refill, Gain, Enabled;
    var b := s.shared.value;
    GainFacts(b.rate, b.last, b.last, b.last);
    RefillKeeps(b, At(s.pcs, t), a);
    if a.Begin? { RefillBudget(b, a.now); }
    if a.Charge? && At(s.pcs, t).Reserved? { RefillBudget(b, At(s.pcs, t).now); }
    assert a.Charge? ==> At(s.pcs, t).Reserved? by { ChargeReserved(c, s, t, a); }
  }

  lemma ChargeReserved<K(!new)>(c: Config<K>, s: State<K>, t: nat, a: Action<K>)
    requires Enabled(c, s, t, a)
    ensures a.Charge? ==> At(s.pcs, t).Reserved?
  {
  }

  lemma RefillKeeps<K>(b: Bucket, pc: Pc<K>, a: Action<K>)
    ensures a.Begin? ==> Refill(b, a.now).rate == b.rate && Refill(b, a.now).capacity == b.capacity
    ensures pc.Reserved? ==> Refill(b, pc.now).rate == b.rate && Refill(b, pc.now).capacity == b.capacity
  {
  }

  /** Tokens taken in a run, with those left, never exceed those there before plus what the rate adds
      between the first and the last use of the bucket, whatever times the threads bring. */
  lemma {:induction false} SpentBudget<K(!new)>(c: Config<K>, s: State<K>, run: seq<Turn<K>>)
    requires |s.shards| == SHARDS && Legal(c, s, run) && s.shared.Some? && s.shared.value.Ok()
    ensures var s' := After(c, s, run); s'.shared.Some? && s'.spent >= s.spent
    ensures var s' := After(c, s, run); var b, b' := s.shared.value, s'.shared.value;
      && SameKind(b, b') && b.last <= b'.last
      && (s'.spent - s.spent) as real + b'.tokens <= b.tokens + Gain(b.rate, b.last, b'.last)
    decreases run
  {
    hide Do, Gain, Enabled;
    var b := s.shared.value;
    GainFacts(b.rate, b.last, b.last, b.last);
    if run != [] {
      var s1 := Do(c, s, run[0].thread, run[0].action);
      StepBudget(c, s, run[0].thread, run[0].action);
      SpentBudget(c, s1, run[1..]);
      GainFacts(b.rate, b.last, s1.shared.value.last, After(c, s, run).shared.value.last);
    }
  }

  lemma SharedGain<K(!new)>(c: Config<K>, shared: Bucket, before: seq<Turn<K>>, window: seq<Turn<K>>)
    requires shared.Ok() && Legal(c, Start(Some(shared)), before)
    requires Legal(c, After(c, Start(Some(shared)), before), window)
    ensures var s := After(c, Start(Some(shared)), before); var s' := After(c, s, window);
      && s.shared.Some? && s'.shared.Some?
      && (s'.granted - s.granted) as real
         <= shared.capacity + Gain(shared.rate, s.shared.value.last, s'.shared.value.last) + Count(s.pcs, Paid) as real
  {
    hide Legal, After, Gain, ShardsOk, CountsOk, LocksOk, CounterOk, Count;
    var s := After(c, Start(Some(shared)), before);
    StartInv(c, Some(shared));
    RunKeeps(c, Start(Some(shared)), before);
    RunKeeps(c, s, window);
    SpentBudget(c, Start(Some(shared)), before);
    SpentBudget(c, s, window);
  }

  /** Grants over all keys in any window of any interleaving are at most the shared burst plus the
      shared rate times the time the bucket saw pass, and the threads already charged when the
      window opened. */
  lemma SharedGrantWindow<K(!new)>(c: Config<K>, shared: Bucket, before: seq<Turn<K>>, window: seq<Turn<K>>)
    requires shared.Ok() && Legal(c, Start(Some(shared)), before)
    requires Legal(c, After(c, Start(Some(shared)), before), window)
    ensures var s := After(c, Start(Some(shared)), before); var s' := After(c, s, window);
      && s.shared.Some? && s'.shared.Some?
      && Earned(s'.granted - s.granted - Count(s.pcs, Paid), shared.capacity, shared.rate,
                s.shared.value.last, s'.shared.value.last)
  {
    SharedGain(c, shared, before, window);
    var s := After(c, Start(Some(shared)), before);
    var first, last := s.shared.value.last, After(c, s, window).shared.value.last;
    hide Earned, Gain, After, Legal, Count, FirstUse;
    GainEarns(After(c, s, window).granted - s.granted - Count(s.pcs, Paid), shared.capacity, shared.rate, first, last);
  }

  /** The turn uses the shared bucket. */
  predicate UsesShared<K>(u: Turn<K>) { u.action.Begin? || u.action.Charge? }

  /** The time the shared bucket shows right after its first use in the run. */
  ghost function FirstUse<K(!new)>(c: Config<K>, s: State<K>, run: seq<Turn<K>>): real
    requires |s.shards| == SHARDS && s.shared.Some? && Legal(c, s, run)
    decreases run
  {
    if run == [] then s.shared.value.last
    else
      SharedStep(c, s, run[0].thread, run[0].action);
      var s' := Do(c, s, run[0].thread, run[0].action);
      if UsesShared(run[0]) then s'.shared.value.last else FirstUse(c, s', run[1..])
  }

  lemma FirstUseFull<K(!new)>(c: Config<K>, s: State<K>, u: Turn<K>)
    requires |s.shards| == SHARDS && Enabled(c, s, u.thread, u.action) && s.shared.Some? && s.shared.value.Ok()
    ensures var s' := Do(c, s, u.thread, u.action);
      && s'.shared.Some? && s'.spent >= s.spent
      && (if UsesShared(u) then (s'.spent - s.spent) as real + s'.shared.value.tokens <= s.shared.value.capacity
          else s'.shared == s.shared && s'.spent == s.spent)
  {
    SharedStep(c, s, u.thread, u.action);
    ChargeReserved(c, s, u.thread, u.action);
    if u.action.Begin? { RefillOk(s.shared.value, u.action.now); }
    if u.action.Charge? { RefillOk(s.shared.value, At(s.pcs, u.thread).now); }
    hide Do, Refill, Enabled;
  }

  lemma {:induction false} UseBudget<K(!new)>(c: Config<K>, s: State<K>, run: seq<Turn<K>>)
    requires |s.shards| == SHARDS && Legal(c, s, run) && s.shared.Some? && s.shared.value.Ok()
    ensures var s' := After(c, s, run); s'.shared.Some? && s'.spent >= s.spent
    ensures var s' := After(c, s, run); var b := s.shared.value;
      && FirstUse(c, s, run) <= s'.shared.value.last
      && (s'.spent - s.spent) as real <= b.capacity + Gain(b.rate, FirstUse(c, s, run), s'.shared.value.last)
    decreases run
  {
    var b := s.shared.value;
    GainFacts(b.rate, b.last, b.last, b.last);
    if run != [] {
      var s1 := Do(c, s, run[0].thread, run[0].action);
      StepBudget(c, s, run[0].thread, run[0].action);
      FirstUseFull(c, s, run[0]);
      hide Do, Gain, Enabled;
      if UsesShared(run[0]) { SpentBudget(c, s1, run[1..]); } else { UseBudget(c, s1, run[1..]); }
    }
  }

  lemma SharedGainFromUse<K(!new)>(c: Config<K>, shared: Bucket, before: seq<Turn<K>>, window: seq<Turn<K>>)
    requires shared.Ok() && Legal(c, Start(Some(shared)), before)
    requires Legal(c, After(c, Start(Some(shared)), before), window)
    ensures var s := After(c, Start(Some(shared)), before); var s' := After(c, s, window);
      && s.shared.Some? && s'.shared.Some?
      && (s'.granted - s.granted) as real
         <= shared.capacity + Gain(shared.rate, FirstUse(c, s, window), s'.shared.value.last)
             + Count(s.pcs, Paid) as real
  {
    hide Legal, After, Gain, ShardsOk, CountsOk, LocksOk, CounterOk, Count, FirstUse;
    var s := After(c, Start(Some(shared)), before);
    StartInv(c, Some(shared));
    RunKeeps(c, Start(Some(shared)), before);
    RunKeeps(c, s, window);
    SpentBudget(c, Start(Some(shared)), before);
    SpentBudget(c, s, window);
    UseBudget(c, s, window);
  }

  /** The same window measured from the first use of the shared bucket inside it. */
  lemma SharedGrantWindowFromUse<K(!new)>(c: Config<K>, shared: Bucket, before: seq<Turn<K>>, window: seq<Turn<K>>)
    requires shared.Ok() && Legal(c, Start(Some(shared)), before)
    requires Legal(c, After(c, Start(Some(shared)), before), window)
    ensures var s := After(c, Start(Some(shared)), before); var s' := After(c, s, window);
      && s.shared.Some? && s'.shared.Some?
      && Earned(s'.granted - s.granted - Count(s.pcs, Paid), shared.capacity, shared.rate,
                FirstUse(c, s, window), s'.shared.value.last)
  {
    SharedGainFromUse(c, shared, before, window);
    var s := After(c, Start(Some(shared)), before);
    var first, last := FirstUse(c, s, window), After(c, s, window).shared.value.last;
    hide Earned, Gain, After, Legal, Count, FirstUse;
    GainEarns(After(c, s, window).granted - s.granted - Count(s.pcs, Paid), shared.capacity, shared.rate, first, last);
  }

  // ---- the connect bucket of one key ----

  function ShardOf<K(==, !new)>(c: Config<K>, s: State<K>, x: K): Shard<K, Entry>
    requires |s.shards| == SHARDS
  {
    s.shards[Home(c.shardOf, x)]
  }

  /** The tokens a key could connect with at a time, whether it has an entry or not. */
  function ConnectLevel<K(==, !new)>(c: Config<K>, s: State<K>, x: K, now: real): real
    requires |s.shards| == SHARDS
  {
    Level(EntryFor(c, ShardOf(c, s, x), x, now).bucket, now)
  }

  /** The turn locks the shard of `x`. */
  predicate Locks<K(==, !new)>(c: Config<K>, s: State<K>, u: Turn<K>, x: K) {
    u.action.Lock? && At(s.pcs, u.thread).Entering? && Home(c.shardOf, At(s.pcs, u.thread).key) == Home(c.shardOf, x)
  }

  /** The latest time at which the shard of `x` was locked. */
  function Tick<K(==, !new)>(c: Config<K>, s: State<K>, u: Turn<K>, x: K, clock: real): real {
    if Locks(c, s, u, x) then At(s.pcs, u.thread).now else clock
  }

  /** The turn does not evict `x` while its bucket is below full. */
  ghost predicate Spares<K(!new)>(c: Config<K>, s: State<K>, u: Turn<K>, x: K)
    requires |s.shards| == SHARDS
  {
    Locks(c, s, u, x) ==>
      var pc := At(s.pcs, u.thread); var sh := ShardOf(c, s, x);
      x in sh.entries && pc.key !in sh.entries && Victim(c, sh, pc.now) == Some(x) ==>
        Level(sh.entries[x].bucket, pc.now) == Capacity(c.burst)
  }

  predicate GrantsTo<K(==, !new)>(s: State<K>, u: Turn<K>, x: K) {
    u.action.Grant? && At(s.pcs, u.thread).Charged? && At(s.pcs, u.thread).key == x
  }

  /** What the bucket of `x` keeps to: its own rate and burst, last used by the clock of its shard,
      and exactly at that clock while a thread is inside its region for `x`. */
  ghost predicate ConnectOk<K(!new)>(c: Config<K>, s: State<K>, x: K, clock: real)
    requires |s.shards| == SHARDS
  {
    x in ShardOf(c, s, x).entries ==>
      var b := ShardOf(c, s, x).entries[x].bucket;
      && b.Ok() && b.rate == c.rate && b.capacity == Capacity(c.burst) && b.last <= clock
      && forall u | u in s.pcs && Locking(s.pcs[u]) && s.pcs[u].key == x :: b.last == clock
  }

  /** Only locking its shard gives a key an entry, a new one, or takes its entry away. */
  lemma EntryComesOrGoes<K(!new)>(c: Config<K>, s: State<K>, u: Turn<K>, x: K)
    requires Inv(c, s) && Enabled(c, s, u.thread, u.action)
    ensures var s' := Do(c, s, u.thread, u.action); var pc := At(s.pcs, u.thread);
      && |s'.shards| == SHARDS
      && (x !in ShardOf(c, s, x).entries && x in ShardOf(c, s', x).entries ==>
            && Locks(c, s, u, x) && pc.key == x
            && ShardOf(c, s', x).entries[x].bucket == Fresh(c.rate, c.burst, pc.now))
      && (x in ShardOf(c, s, x).entries && x !in ShardOf(c, s', x).entries ==>
            && Locks(c, s, u, x) && pc.key != x
            && pc.key !in ShardOf(c, s, x).entries && Victim(c, ShardOf(c, s, x), pc.now) == Some(x))
  {
    var pc := At(s.pcs, u.thread);
    if u.action.Lock? {
      LockEntry(c, s.shards[Home(c.shardOf, pc.key)], pc.key, pc.now, x);
    } else if u.action.Grant? {
      assert Ready(c, s.shards[Home(c.shardOf, pc.key)], pc.key);
    }
  }

  lemma LockEntry<K(!new)>(c: Config<K>, sh: Shard<K, Entry>, k: K, now: real, x: K)
    requires ShardOk(c, sh)
    ensures var m := Admit(c, sh, k, now).0.entries;
      && (x !in sh.entries && x in m ==> x == k && m[x].bucket == Fresh(c.rate, c.burst, now))
      && (x in sh.entries && x !in m ==> x != k && k !in sh.entries && Victim(c, sh, now) == Some(x))
  {
    hide Victim, MakeRoomTwice, Fresh;
    FreshStays(c.rate, c.burst, now);
    if k !in sh.entries { RoomEvictsVictim(c, sh, now); }
  }

  lemma FreshStays(rate: real, burst: nat, now: real)
    ensures Refill(Fresh(rate, burst, now), now) == Fresh(rate, burst, now)
  {
  }

  lemma LockRefills<K(!new)>(c: Config<K>, sh: Shard<K, Entry>, k: K, now: real)
    requires ShardOk(c, sh) && c.rate > 0.0 && Admit(c, sh, k, now).1.None?
    ensures var m := Admit(c, sh, k, now).0.entries;
      k in m && m[k].bucket == Refill(EntryFor(c, sh, k, now).bucket, now)
  {
    hide MakeRoomTwice, Refill, Fresh, Victim;
    if k !in sh.entries { RoomEvictsVictim(c, sh, now); }
  }

  /** A lock of the shard of `x` comes no earlier than the last one. */
  ghost predicate Timely<K(!new)>(c: Config<K>, s: State<K>, u: Turn<K>, x: K, clock: real) {
    Locks(c, s, u, x) ==> clock <= At(s.pcs, u.thread).now
  }

  /** Who is inside a region for `x` after the turn: whoever was, with no lock in between, or the
      thread that just got in. */
  lemma InsideAfter<K(!new)>(c: Config<K>, s: State<K>, u: Turn<K>, x: K, v: nat)
    requires ShardsOk(c, s) && Enabled(c, s, u.thread, u.action)
    requires var pc := At(Do(c, s, u.thread, u.action).pcs, v); Locking(pc) && pc.key == x
    ensures if Locking(At(s.pcs, v)) then At(s.pcs, v).key == x && !Locks(c, s, u, x)
      else v == u.thread && Locks(c, s, u, x) && At(s.pcs, v).key == x
           && Admit(c, ShardOf(c, s, x), x, At(s.pcs, v).now).1.None?
  {
    hide Do, Admit, ShardOk;
    if v != u.thread {
      OnlyMover(c, s, u.thread, u.action);
    } else if u.action.Lock? {
      LockedIn(c, s, v, x);
    } else if u.action.Grant? || u.action.ReleaseKey? {
      GrantLeaves(c, s, v, u.action);
    } else {
      PlainMoves(c, s, v, u.action);
    }
  }

  lemma LockedIn<K(!new)>(c: Config<K>, s: State<K>, t: nat, x: K)
    requires |s.shards| == SHARDS && Enabled(c, s, t, Lock)
    requires var pc := At(Do(c, s, t, Lock).pcs, t); Locking(pc) && pc.key == x
    ensures At(s.pcs, t).Entering? && At(s.pcs, t).key == x
    ensures Admit(c, ShardOf(c, s, x), x, At(s.pcs, t).now).1.None?
  {
    hide Admit, Unlocked;
  }

  lemma GrantLeaves<K(!new)>(c: Config<K>, s: State<K>, t: nat, a: Action<K>)
    requires |s.shards| == SHARDS && Enabled(c, s, t, a) && (a.Grant? || a.ReleaseKey?)
    ensures !Locking(At(Do(c, s, t, a).pcs, t))
  {
    hide Unlocked;
  }

  lemma BucketAfter<K(!new)>(c: Config<K>, s: State<K>, u: Turn<K>, x: K, clock: real)
    requires c.rate > 0.0 && Inv(c, s) && Enabled(c, s, u.thread, u.action)
    requires ConnectOk(c, s, x, clock) && Timely(c, s, u, x, clock)
    requires x in ShardOf(c, s, x).entries && x in Do(c, s, u.thread, u.action).shards[Home(c.shardOf, x)].entries
    ensures var b := ShardOf(c, s, x).entries[x].bucket; var pc := At(s.pcs, u.thread);
      var b' := Do(c, s, u.thread, u.action).shards[Home(c.shardOf, x)].entries[x].bucket;
      if GrantsTo(s, u, x) then b' == Spend(b) && b.last == clock
      else b' == b || (Locks(c, s, u, x) && pc.key == x && b' == Refill(b, pc.now))
  {
    KeyTokensConserved(c, s, u.thread, u.action, x);
    hide Do, Refill, Inv;
  }

  lemma ConnectOkAfter<K(!new)>(c: Config<K>, s: State<K>, u: Turn<K>, x: K, clock: real)
    requires c.rate > 0.0 && Inv(c, s) && Enabled(c, s, u.thread, u.action)
    requires ConnectOk(c, s, x, clock) && Timely(c, s, u, x, clock)
    ensures var s' := Do(c, s, u.thread, u.action);
      |s'.shards| == SHARDS && ConnectOk(c, s', x, Tick(c, s, u, x, clock))
  {
    var s' := Do(c, s, u.thread, u.action);
    var clock' := Tick(c, s, u, x, clock);
    EntryComesOrGoes(c, s, u, x);
    if x in ShardOf(c, s', x).entries {
      var b' := ShardOf(c, s', x).entries[x].bucket;
      if x in ShardOf(c, s, x).entries {
        BucketAfter(c, s, u, x, clock);
        KeptBucketOk(c, s, u, x, clock);
      } else {
        assert b' == Fresh(c.rate, c.burst, clock');
      }
    }
  }

  lemma KeptBucketOk<K(!new)>(c: Config<K>, s: State<K>, u: Turn<K>, x: K, clock: real)
    requires c.rate > 0.0 && Inv(c, s) && Enabled(c, s, u.thread, u.action)
    requires ConnectOk(c, s, x, clock) && Timely(c, s, u, x, clock)
    requires var s' := Do(c, s, u.thread, u.action);
      |s'.shards| == SHARDS && x in ShardOf(c, s, x).entries && x in ShardOf(c, s', x).entries
    ensures ConnectOk(c, Do(c, s, u.thread, u.action), x, Tick(c, s, u, x, clock))
  {
    var s' := Do(c, s, u.thread, u.action);
    var clock' := Tick(c, s, u, x, clock);
    var b, b' := ShardOf(c, s, x).entries[x].bucket, ShardOf(c, s', x).entries[x].bucket;
    BucketAfter(c, s, u, x, clock);
    assert EntryOk(c, ShardOf(c, s', x).entries[x]) by { ActionKeeps(c, s, u.thread, u.action); }
    assert b'.last <= clock' && b'.rate == b.rate && b'.capacity == b.capacity;
    forall v | v in s'.pcs && Locking(s'.pcs[v]) && s'.pcs[v].key == x ensures b'.last == clock' {
      InsideAfter(c, s, u, x, v);
      if !Locking(At(s.pcs, v)) { EnteredBucket(c, s, u, x); }
    }
  }

  lemma EnteredBucket<K(!new)>(c: Config<K>, s: State<K>, u: Turn<K>, x: K)
    requires c.rate > 0.0 && Inv(c, s) && Enabled(c, s, u.thread, u.action) && Locks(c, s, u, x)
    requires At(s.pcs, u.thread).key == x && Admit(c, ShardOf(c, s, x), x, At(s.pcs, u.thread).now).1.None?
    ensures var now := At(s.pcs, u.thread).now;
      var m := Do(c, s, u.thread, u.action).shards[Home(c.shardOf, x)].entries;
      x in m && m[x].bucket == Refill(EntryFor(c, ShardOf(c, s, x), x, now).bucket, now)
  {
    LockRefills(c, ShardOf(c, s, x), x, At(s.pcs, u.thread).now);
    hide Admit, Refill;
  }

  lemma AbsentIsFull<K(!new)>(c: Config<K>, s: State<K>, x: K, now: real)
    requires |s.shards| == SHARDS && x !in ShardOf(c, s, x).entries
    ensures ConnectLevel(c, s, x, now) == Capacity(c.burst)
  {
    FreshStays(c.rate, c.burst, now);
  }

  /** A turn grants `x` a permit only out of its bucket, which otherwise gains at most what the rate
      adds while the clock of its shard moves on. */
  lemma ConnectBudgetStep<K(!new)>(c: Config<K>, s: State<K>, u: Turn<K>, x: K, clock: real)
    requires c.rate > 0.0 && Inv(c, s) && Enabled(c, s, u.thread, u.action)
    requires ConnectOk(c, s, x, clock) && Timely(c, s, u, x, clock) && Spares(c, s, u, x)
    ensures var s' := Do(c, s, u.thread, u.action); var clock' := Tick(c, s, u, x, clock);
      && |s'.shards| == SHARDS && clock <= clock'
      && One(GrantsTo(s, u, x)) as real + ConnectLevel(c, s', x, clock')
         <= ConnectLevel(c, s, x, clock) + Gain(c.rate, clock, clock')
  {
    var s' := Do(c, s, u.thread, u.action);
    var clock' := Tick(c, s, u, x, clock);
    EntryComesOrGoes(c, s, u, x);
    GainFacts(c.rate, clock, clock, clock');
    var m, m' := ShardOf(c, s, x).entries, ShardOf(c, s', x).entries;
    if x in m {
      var b := m[x].bucket;
      LevelGrowth(b, clock, clock');
      if x in m' {
        BucketAfter(c, s, u, x, clock);
        hide Do, Gain;
        RefillCompose(b, clock', clock');
      } else {
        AbsentIsFull(c, s', x, clock');
      }
    } else {
      if GrantsTo(s, u, x) { NoGrantWithoutEntry(c, s, u, x); }
      AbsentIsFull(c, s, x, clock);
      if x in m' { FreshStays(c.rate, c.burst, clock'); } else { AbsentIsFull(c, s', x, clock'); }
    }
  }

  lemma NoGrantWithoutEntry<K(!new)>(c: Config<K>, s: State<K>, u: Turn<K>, x: K)
    requires Inv(c, s) && Enabled(c, s, u.thread, u.action) && GrantsTo(s, u, x)
    ensures x in ShardOf(c, s, x).entries
  {
    assert Ready(c, ShardOf(c, s, x), x);
  }

  // ---- windows of one key ----

  ghost predicate TimelyRun<K(!new)>(c: Config<K>, s: State<K>, run: seq<Turn<K>>, x: K, clock: real)
    requires |s.shards| == SHARDS
    decreases run
  {
    run != [] ==>
      && Timely(c, s, run[0], x, clock)
      && TimelyRun(c, Do(c, s, run[0].thread, run[0].action), run[1..], x, Tick(c, s, run[0], x, clock))
  }

  ghost predicate SparingRun<K(!new)>(c: Config<K>, s: State<K>, run: seq<Turn<K>>, x: K)
    requires |s.shards| == SHARDS
    decreases run
  {
    run != [] ==> Spares(c, s, run[0], x) && SparingRun(c, Do(c, s, run[0].thread, run[0].action), run[1..], x)
  }

  ghost function EndClock<K(!new)>(c: Config<K>, s: State<K>, run: seq<Turn<K>>, x: K, clock: real): real
    requires |s.shards| == SHARDS
    decreases run
  {
    if run == [] then clock
    else EndClock(c, Do(c, s, run[0].thread, run[0].action), run[1..], x, Tick(c, s, run[0], x, clock))
  }

  /** Permits granted on `x` in the run. */
  ghost function Grants<K(!new)>(c: Config<K>, s: State<K>, run: seq<Turn<K>>, x: K): nat
    requires |s.shards| == SHARDS
    decreases run
  {
    if run == [] then 0
    else One(GrantsTo(s, run[0], x)) + Grants(c, Do(c, s, run[0].thread, run[0].action), run[1..], x)
  }

  lemma {:induction false} ConnectOkRun<K(!new)>(c: Config<K>, s: State<K>, run: seq<Turn<K>>, x: K, clock: real)
    requires c.rate > 0.0 && Inv(c, s) && Legal(c, s, run) && ConnectOk(c, s, x, clock)
    requires TimelyRun(c, s, run, x, clock)
    ensures ConnectOk(c, After(c, s, run), x, EndClock(c, s, run, x, clock))
    decreases run
  {
    if run != [] {
      ConnectOkAfter(c, s, run[0], x, clock);
      ActionKeeps(c, s, run[0].thread, run[0].action);
      hide Do, Enabled, ConnectOk, Timely, Tick;
      ConnectOkRun(c, Do(c, s, run[0].thread, run[0].action), run[1..], x, Tick(c, s, run[0], x, clock));
    }
  }

  lemma {:induction false} ConnectBudget<K(!new)>(c: Config<K>, s: State<K>, run: seq<Turn<K>>, x: K, clock: real)
    requires c.rate > 0.0 && Inv(c, s) && Legal(c, s, run) && ConnectOk(c, s, x, clock)
    requires TimelyRun(c, s, run, x, clock) && SparingRun(c, s, run, x)
    ensures var s' := After(c, s, run); var clock' := EndClock(c, s, run, x, clock);
      && clock <= clock'
      && Grants(c, s, run, x) as real + ConnectLevel(c, s', x, clock')
         <= ConnectLevel(c, s, x, clock) + Gain(c.rate, clock, clock')
    decreases run
  {
    GainFacts(c.rate, clock, clock, clock);
    if run != [] {
      ConnectOkAfter(c, s, run[0], x, clock);
      ConnectBudgetStep(c, s, run[0], x, clock);
      ActionKeeps(c, s, run[0].thread, run[0].action);
      hide Do, Enabled, ConnectOk, Timely, Tick, ConnectLevel, Gain, Spares, GrantsTo;
      var s1, clock1 := Do(c, s, run[0].thread, run[0].action), Tick(c, s, run[0], x, clock);
      ConnectBudget(c, s1, run[1..], x, clock1);
      GainFacts(c.rate, clock, clock1, EndClock(c, s, run, x, clock));
    }
  }

  lemma ConnectLevelRange<K(!new)>(c: Config<K>, s: State<K>, x: K, clock: real)
    requires |s.shards| == SHARDS && c.rate > 0.0 && ConnectOk(c, s, x, clock)
    ensures 0.0 <= ConnectLevel(c, s, x, clock) <= Capacity(c.burst)
  {
    if x in ShardOf(c, s, x).entries {
      RefillOk(ShardOf(c, s, x).entries[x].bucket, clock);
    } else {
      AbsentIsFull(c, s, x, clock);
    }
  }

  lemma ConnectGain<K(!new)>(c: Config<K>, shared: Option<Bucket>, before: seq<Turn<K>>, window: seq<Turn<K>>,
      x: K, start: real)
    requires c.rate > 0.0 && (shared.Some? ==> shared.value.Ok())
    requires Legal(c, Start(shared), before) && Legal(c, After(c, Start(shared), before), window)
    requires TimelyRun(c, Start(shared), before, x, start)
    requires var s, clock := After(c, Start(shared), before), EndClock(c, Start(shared), before, x, start);
      TimelyRun(c, s, window, x, clock) && SparingRun(c, s, window, x)
    ensures var s, clock := After(c, Start(shared), before), EndClock(c, Start(shared), before, x, start);
      Grants(c, s, window, x) as real <= Capacity(c.burst) + Gain(c.rate, clock, EndClock(c, s, window, x, clock))
  {
    StartInv(c, shared);
    assert ConnectOk(c, Start(shared), x, start);
    hide Legal, After, TimelyRun, SparingRun, EndClock, Grants, ConnectLevel, Gain, ConnectOk;
    hide ShardsOk, CountsOk, LocksOk, CounterOk, MoneyOk;
    var s, clock := After(c, Start(shared), before), EndClock(c, Start(shared), before, x, start);
    RunKeeps(c, Start(shared), before);
    RunKeeps(c, s, window);
    ConnectOkRun(c, Start(shared), before, x, start);
    ConnectOkRun(c, s, window, x, clock);
    ConnectBudget(c, s, window, x, clock);
    ConnectLevelRange(c, s, x, clock);
    ConnectLevelRange(c, After(c, s, window), x, EndClock(c, s, window, x, clock));
  }

  /** While a key is never evicted below full, its grants in any window of any interleaving are at
      most its burst plus its rate times the time between the locks of its shard, when these come at
      nondecreasing times. `start` is any time before the first lock. */
  lemma ConnectWindow<K(!new)>(c: Config<K>, shared: Option<Bucket>, before: seq<Turn<K>>, window: seq<Turn<K>>,
      x: K, start: real)
    requires c.rate > 0.0 && (shared.Some? ==> shared.value.Ok())
    requires Legal(c, Start(shared), before) && Legal(c, After(c, Start(shared), before), window)
    requires TimelyRun(c, Start(shared), before, x, start)
    requires var s, clock := After(c, Start(shared), before), EndClock(c, Start(shared), before, x, start);
      TimelyRun(c, s, window, x, clock) && SparingRun(c, s, window, x)
    ensures var s, clock := After(c, Start(shared), before), EndClock(c, Start(shared), before, x, start);
      Earned(Grants(c, s, window, x), (if c.burst > 1 then c.burst else 1) as real, c.rate,
             clock, EndClock(c, s, window, x, clock))
  {
    ConnectGain(c, shared, before, window, x, start);
    var s, clock := After(c, Start(shared), before), EndClock(c, Start(shared), before, x, start);
    var last := EndClock(c, s, window, x, clock);
    CapacityIs(c.burst);
    hide Earned, Gain, After, Legal, TimelyRun, SparingRun, EndClock, Grants;
    GainEarns(Grants(c, s, window, x), Capacity(c.burst), c.rate, clock, last);
  }

  /** No thread is inside its region for `x`. */
  ghost predicate Outside<K(!new)>(s: State<K>, x: K) {
    forall v | v in s.pcs && Locking(s.pcs[v]) :: s.pcs[v].key != x
  }

  /** The time of the first lock of the shard of `x` in the run. */
  ghost function FirstLock<K(!new)>(c: Config<K>, s: State<K>, run: seq<Turn<K>>, x: K, clock: real): real
    requires |s.shards| == SHARDS
    decreases run
  {
    if run == [] then clock
    else if Locks(c, s, run[0], x) then At(s.pcs, run[0].thread).now
    else FirstLock(c, Do(c, s, run[0].thread, run[0].action), run[1..], x, clock)
  }

  lemma StaysOutside<K(!new)>(c: Config<K>, s: State<K>, u: Turn<K>, x: K)
    requires ShardsOk(c, s) && Enabled(c, s, u.thread, u.action) && Outside(s, x) && !Locks(c, s, u, x)
    ensures Outside(Do(c, s, u.thread, u.action), x) && !GrantsTo(s, u, x)
  {
    var s' := Do(c, s, u.thread, u.action);
    forall v | v in s'.pcs && Locking(s'.pcs[v]) ensures s'.pcs[v].key != x {
      if s'.pcs[v].key == x { InsideAfter(c, s, u, x, v); }
    }
  }

  lemma {:induction false} FromFirstLock<K(!new)>(c: Config<K>, s: State<K>, run: seq<Turn<K>>, x: K, clock: real)
    requires c.rate > 0.0 && Inv(c, s) && Legal(c, s, run) && ConnectOk(c, s, x, clock) && Outside(s, x)
    requires TimelyRun(c, s, run, x, clock) && SparingRun(c, s, run, x)
    ensures var first, last := FirstLock(c, s, run, x, clock), EndClock(c, s, run, x, clock);
      first <= last && Grants(c, s, run, x) as real <= Capacity(c.burst) + Gain(c.rate, first, last)
    decreases run
  {
    GainFacts(c.rate, clock, clock, clock);
    if run != [] {
      var s1, clock1 := Do(c, s, run[0].thread, run[0].action), Tick(c, s, run[0], x, clock);
      ConnectOkAfter(c, s, run[0], x, clock);
      ActionKeeps(c, s, run[0].thread, run[0].action);
      if Locks(c, s, run[0], x) {
        ConnectLevelRange(c, s1, x, clock1);
        ConnectBudget(c, s1, run[1..], x, clock1);
        ConnectOkRun(c, s1, run[1..], x, clock1);
        ConnectLevelRange(c, After(c, s1, run[1..]), x, EndClock(c, s1, run[1..], x, clock1));
        hide Do, Enabled, ConnectOk, Inv, Gain, ConnectLevel;
      } else {
        StaysOutside(c, s, run[0], x);
        hide Do, Enabled, ConnectOk, Inv, Gain, Outside, GrantsTo;
        FromFirstLock(c, s1, run[1..], x, clock1);
      }
    }
  }

  lemma ConnectGainFromLock<K(!new)>(c: Config<K>, shared: Option<Bucket>, before: seq<Turn<K>>, window: seq<Turn<K>>,
                                       x: K, start: real)
    requires c.rate > 0.0 && (shared.Some? ==> shared.value.Ok())
    requires Legal(c, Start(shared), before) && Legal(c, After(c, Start(shared), before), window)
    requires TimelyRun(c, Start(shared), before, x, start)
    requires var s, clock := After(c, Start(shared), before), EndClock(c, Start(shared), before, x, start);
      TimelyRun(c, s, window, x, clock) && SparingRun(c, s, window, x) && Outside(s, x)
    ensures var s, clock := After(c, Start(shared), before), EndClock(c, Start(shared), before, x, start);
      Grants(c, s, window, x) as real
        <= Capacity(c.burst) + Gain(c.rate, FirstLock(c, s, window, x, clock), EndClock(c, s, window, x, clock))
  {
    StartInv(c, shared);
    assert ConnectOk(c, Start(shared), x, start);
    hide Legal, After, TimelyRun, SparingRun, EndClock, Grants, Gain, ConnectOk, FirstLock, Outside;
    hide ShardsOk, CountsOk, LocksOk, CounterOk, MoneyOk;
    var s, clock := After(c, Start(shared), before), EndClock(c, Start(shared), before, x, start);
    RunKeeps(c, Start(shared), before);
    ConnectOkRun(c, Start(shared), before, x, start);
    FromFirstLock(c, s, window, x, clock);
  }

  /** The same window measured from the first lock inside it, when it opens with no thread inside a
      region for the key; with one inside, the clock of `ConnectWindow` is that thread's own lock. */
  lemma ConnectWindowFromLock<K(!new)>(c: Config<K>, shared: Option<Bucket>, before: seq<Turn<K>>, window: seq<Turn<K>>,
                                       x: K, start: real)
    requires c.rate > 0.0 && (shared.Some? ==> shared.value.Ok())
    requires Legal(c, Start(shared), before) && Legal(c, After(c, Start(shared), before), window)
    requires TimelyRun(c, Start(shared), before, x, start)
    requires var s, clock := After(c, Start(shared), before), EndClock(c, Start(shared), before, x, start);
      TimelyRun(c, s, window, x, clock) && SparingRun(c, s, window, x) && Outside(s, x)
    ensures var s, clock := After(c, Start(shared), before), EndClock(c, Start(shared), before, x, start);
      Earned(Grants(c, s, window, x), (if c.burst > 1 then c.burst else 1) as real, c.rate,
             FirstLock(c, s, window, x, clock), EndClock(c, s, window, x, clock))
  {
    ConnectGainFromLock(c, shared, before, window, x, start);
    var s, clock := After(c, Start(shared), before), EndClock(c, Start(shared), before, x, start);
    var first, last := FirstLock(c, s, window, x, clock), EndClock(c, s, window, x, clock);
    CapacityIs(c.burst);
    hide Earned, Gain, After, Legal, TimelyRun, SparingRun, EndClock, Grants, FirstLock, Outside;
    GainEarns(Grants(c, s, window, x), Capacity(c.burst), c.rate, first, last);
  }

  // ---- a run in which eviction resets a connect bucket ----

  /** A limiter with room for one key per shard and one connect per second. */
  function OneSlot(): Config<nat> { Config(Http, 0, 0, 1.0, 1, 1, (k: nat) => 0) }

  /** A shard whose only key has used up its connect burst and holds nothing. */
  function Spent(k: nat): Shard<nat, Entry> { Shard(map[k := Entry(Bucket(1.0, 0.0, 1.0, 0.0), 0, 0.0)], [k]) }

  function Held(k: nat): Shard<nat, Entry> { Shard(map[k := Entry(Bucket(1.0, 0.0, 1.0, 0.0), 1, 0.0)], [k]) }

  /** One shard in use, by one thread. */
  function Lone(sh: Shard<nat, Entry>, pc: Pc<nat>, granted: nat): State<nat> {
    State(0, None, Start<nat>(None).shards[0 := sh], map[0 := pc], 0, granted)
  }

  function Acquire(k: nat): seq<Turn<nat>> {
    [Turn(0, Begin(k, 0.0))] + ([Turn(0, LookActive)] + ([Turn(0, Lock)]
        + ([Turn(0, Charge)] + ([Turn(0, Grant)] + []))))
  }

  function Attempt(k: nat): seq<Turn<nat>> {
    [Turn(0, Begin(k, 0.0))] + ([Turn(0, LookActive)] + ([Turn(0, Lock)] + []))
  }

  function Drop(): seq<Turn<nat>> { [Turn(0, ReleaseGlobal)] + ([Turn(0, ReleaseKey(0.0))] + []) }

  /** The run goes from one state to another and grants `x` so many permits. */
  ghost predicate Leads(s: State<nat>, run: seq<Turn<nat>>, s': State<nat>, x: nat, n: nat)
  {
    && |s.shards| == SHARDS && Legal(OneSlot(), s, run) && After(OneSlot(), s, run) == s'
    && Grants(OneSlot(), s, run, x) == n
  }

  lemma Stay(s: State<nat>, x: nat)
    requires |s.shards| == SHARDS
    ensures Leads(s, [], s, x, 0)
  {
  }

  lemma Then(s: State<nat>, u: Turn<nat>, mid: State<nat>, rest: seq<Turn<nat>>, s': State<nat>, x: nat, n: nat)
    requires |s.shards| == SHARDS && Enabled(OneSlot(), s, u.thread, u.action)
    requires Do(OneSlot(), s, u.thread, u.action) == mid && Leads(mid, rest, s', x, n)
    ensures Leads(s, [u] + rest, s', x, One(GrantsTo(s, u, x)) + n)
  {
    hide Do, Enabled;
    assert ([u] + rest)[1..] == rest;
  }

  lemma {:induction false} Chain(s: State<nat>, a: seq<Turn<nat>>, mid: State<nat>, b: seq<Turn<nat>>, s': State<nat>,
                                 x: nat, m: nat, n: nat)
    requires Leads(s, a, mid, x, m) && Leads(mid, b, s', x, n)
    ensures Leads(s, a + b, s', x, m + n)
    decreases a
  {
    hide Do, Enabled;
    if a == [] {
      assert a + b == b;
    } else {
      assert (a + b)[1..] == a[1..] + b;
      var s1 := Do(OneSlot(), s, a[0].thread, a[0].action);
      KeepsShards(OneSlot(), s, a[0].thread, a[0].action);
      Chain(s1, a[1..], mid, b, s', x, m - One(GrantsTo(s, a[0], x)), n);
    }
  }

  /** A shard with one entry that has just been inserted. */
  function Inserted(k: nat): Shard<nat, Entry> { Shard(map[k := Entry(Fresh(1.0, 1, 0.0), 0, 0.0)], [k]) }

  lemma Began(s: State<nat>, sh: Shard<nat, Entry>, k: nat)
    requires s == Start(None) || exists pc: Pc<nat>, n :: pc.Resting? && s == Lone(sh, pc, n)
    requires sh == s.shards[0]
    ensures Enabled(OneSlot(), s, 0, Begin(k, 0.0))
    ensures Do(OneSlot(), s, 0, Begin(k, 0.0)) == Lone(sh, Peeked(k, 0.0), s.granted)
  {
    assert s.shards == Start<nat>(None).shards[0 := sh];
    assert s.pcs[0 := Peeked(k, 0.0)] == map[0 := Peeked(k, 0.0)];
  }

  lemma Looked(sh: Shard<nat, Entry>, k: nat, n: nat)
    ensures var s := Lone(sh, Peeked(k, 0.0), n);
      Enabled(OneSlot(), s, 0, LookActive) && Do(OneSlot(), s, 0, LookActive) == Lone(sh, Entering(k, 0.0), n)
  {
  }

  lemma Locked(sh: Shard<nat, Entry>, k: nat, n: nat)
    requires Admit(OneSlot(), sh, k, 0.0) == (Inserted(k), None)
    ensures var s := Lone(sh, Entering(k, 0.0), n);
      Enabled(OneSlot(), s, 0, Lock) && Do(OneSlot(), s, 0, Lock) == Lone(Inserted(k), Reserved(k, 0.0), n)
  {
    hide Admit;
    var s := Lone(sh, Entering(k, 0.0), n);
    assert s.shards[0 := Inserted(k)] == Lone(Inserted(k), Reserved(k, 0.0), n).shards;
  }

  lemma ChargedAndGranted(k: nat, n: nat)
    ensures var s := Lone(Inserted(k), Reserved(k, 0.0), n);
      Enabled(OneSlot(), s, 0, Charge) && Do(OneSlot(), s, 0, Charge) == Lone(Inserted(k), Charged(k, 0.0), n)
    ensures var s := Lone(Inserted(k), Charged(k, 0.0), n);
      Enabled(OneSlot(), s, 0, Grant) && Do(OneSlot(), s, 0, Grant) == Lone(Held(k), Holding(k), n + 1)
  {
    var s := Lone(Inserted(k), Charged(k, 0.0), n);
    assert Inserted(k).entries[k := Entry(Spend(Fresh(1.0, 1, 0.0)), 1, 0.0)] == Held(k).entries;
    assert s.shards[0 := Held(k)] == Lone(Held(k), Holding(k), n + 1).shards;
  }

  lemma Acquired(s: State<nat>, sh: Shard<nat, Entry>, k: nat, x: nat)
    requires s == Start(None) || exists pc: Pc<nat>, n :: pc.Resting? && s == Lone(sh, pc, n)
    requires sh == s.shards[0] && Admit(OneSlot(), sh, k, 0.0) == (Inserted(k), None)
    ensures Leads(s, Acquire(k), Lone(Held(k), Holding(k), s.granted + 1), x, One(k == x))
  {
    var n, done := s.granted, Lone(Held(k), Holding(k), s.granted + 1);
    Began(s, sh, k);
    Looked(sh, k, n);
    Locked(sh, k, n);
    ChargedAndGranted(k, n);
    Stay(done, x);
    hide Admit, Legal, After, Grants, Do, Enabled, Leads, Inserted, Held;
    var grant := [Turn(0, Grant)] + [];
    var charge := [Turn(0, Charge)] + grant;
    var lock := [Turn(0, Lock)] + charge;
    Then(Lone(Inserted(k), Charged(k, 0.0), n), Turn(0, Grant), done, [], done, x, 0);
    Then(Lone(Inserted(k), Reserved(k, 0.0), n), Turn(0, Charge), Lone(Inserted(k), Charged(k, 0.0), n), grant, done,
        x, One(k == x));
    Then(Lone(sh, Entering(k, 0.0), n), Turn(0, Lock), Lone(Inserted(k), Reserved(k, 0.0), n), charge, done, x,
        One(k == x));
    Then(Lone(sh, Peeked(k, 0.0), n), Turn(0, LookActive), Lone(sh, Entering(k, 0.0), n), lock, done, x, One(k == x));
    Then(s, Turn(0, Begin(k, 0.0)), Lone(sh, Peeked(k, 0.0), n), [Turn(0, LookActive)] + lock, done, x, One(k == x));
  }

  lemma Dropped(k: nat, n: nat, x: nat)
    ensures Leads(Lone(Held(k), Holding(k), n), Drop(), Lone(Spent(k), Resting(None), n), x, 0)
  {
    hide Legal, After, Grants;
    var s0, s1, s2 := Lone(Held(k), Holding(k), n), Lone(Held(k), Releasing(k), n), Lone(Spent(k), Resting(None), n);
    assert s0.pcs[0 := Releasing(k)] == s1.pcs && s1.pcs[0 := Resting(None)] == s2.pcs;
    assert Held(k).entries[k := Entry(Bucket(1.0, 0.0, 1.0, 0.0), 0, 0.0)] == Spent(k).entries;
    assert s1.shards[0 := Spent(k)] == s2.shards;
    Stay(s2, x);
    Then(s1, Turn(0, ReleaseKey(0.0)), s2, [], s2, x, 0);
    Then(s0, Turn(0, ReleaseGlobal), s1, [Turn(0, ReleaseKey(0.0))] + [], s2, x, 0);
  }

  lemma SpentDenied(k: nat)
    ensures Admit(OneSlot(), Spent(k), k, 0.0) == (Spent(k), Some(PerKeyRate))
  {
    assert Spent(k).entries[k := Spent(k).entries[k]] == Spent(k).entries;
  }

  lemma Denied(k: nat, n: nat, x: nat)
    ensures Leads(Lone(Spent(k), Resting(None), n), Attempt(k), Lone(Spent(k), Resting(Some(PerKeyRate)), n), x, 0)
  {
    SpentDenied(k);
    hide Admit, Legal, After, Grants;
    var s0, s1 := Lone(Spent(k), Resting(None), n), Lone(Spent(k), Peeked(k, 0.0), n);
    var s2, s3 := Lone(Spent(k), Entering(k, 0.0), n), Lone(Spent(k), Resting(Some(PerKeyRate)), n);
    assert s2.shards[0 := Spent(k)] == s3.shards;
    Stay(s3, x);
    Then(s2, Turn(0, Lock), s3, [], s3, x, 0);
    Then(s1, Turn(0, LookActive), s2, [Turn(0, Lock)] + [], s3, x, 0);
    Then(s0, Turn(0, Begin(k, 0.0)), s1, [Turn(0, LookActive)] + ([Turn(0, Lock)] + []), s3, x, 0);
  }

  /** A key connects, leaves, and is denied: its burst of one is spent. */
  function UseUp(): seq<Turn<nat>> { Acquire(7) + (Drop() + Attempt(7)) }

  /** Another key of its shard comes and goes, and the first is granted again. */
  function Return(): seq<Turn<nat>> { Acquire(8) + (Drop() + Acquire(7)) }

  lemma FirstIntoEmpty()
    ensures Admit(OneSlot(), Start<nat>(None).shards[0], 7, 0.0)
      == (Inserted(7), None)
  {
    var empty := Start<nat>(None).shards[0];
    assert empty.order + [7] == [7] && empty.entries[7 := Entry(Fresh(1.0, 1, 0.0), 0, 0.0)] == Inserted(7).entries;
  }

  /** From start-up, at a single moment, a key whose connect was just denied for want of a token is
      granted another after one connect from another key of its shard: the shard was full and the
      first key, inactive but not stale, was evicted. */
  lemma RotationResetsConnects()
    ensures var c, s0 := OneSlot(), Start<nat>(None); var s1 := After(c, s0, UseUp()); var s2 := After(c, s1, Return());
      && Legal(c, s0, UseUp()) && At(s1.pcs, 0) == Resting(Some(PerKeyRate))
      && Legal(c, s1, Return()) && At(s2.pcs, 0) == Holding(7)
      && Grants(c, s0, UseUp(), 7) + Grants(c, s1, Return(), 7) == 2
  {
    hide Admit, Legal, After, Grants;
    var c, s0 := OneSlot(), Start<nat>(None);
    FirstIntoEmpty();
    Acquired(s0, s0.shards[0], 7, 7);
    Dropped(7, 1, 7);
    Denied(7, 1, 7);
    var held, idle, denied := Lone(Held(7), Holding(7), 1), Lone(Spent(7), Resting(None), 1),
      Lone(Spent(7), Resting(Some(PerKeyRate)), 1);
    Chain(held, Drop(), idle, Attempt(7), denied, 7, 0, 0);
    Chain(s0, Acquire(7), held, Drop() + Attempt(7), denied, 7, 1, 0);
    NewcomerReplaces(c, Spent(7), 7, 8, 0.0);
    Acquired(denied, Spent(7), 8, 7);
    Dropped(8, 2, 7);
    NewcomerReplaces(c, Spent(8), 8, 7, 0.0);
    var held8, idle8, again := Lone(Held(8), Holding(8), 2), Lone(Spent(8), Resting(None), 2),
        Lone(Held(7), Holding(7), 3);
    Acquired(idle8, Spent(8), 7, 7);
    Chain(held8, Drop(), idle8, Acquire(7), again, 7, 0, 1);
    Chain(denied, Acquire(8), held8, Drop() + Acquire(7), again, 7, 0, 1);
  }

  lemma NewcomerReplaces<K(!new)>(c: Config<K>, sh: Shard<K, Entry>, k: K, x: K, now: real)
    requires c.kind == Http && c.maxTracked == 1 && c.perKey == 0 && x != k
    requires sh.order == [k] && sh.entries.Keys == {k} && sh.entries[k].active == 0
    ensures Admit(c, sh, x, now) == (Shard(map[x := Entry(Fresh(c.rate, c.burst, now), 0, now)], [x]), None)
  {
    OneEntryEvicted(c, sh, k, now);
    var empty: Shard<K, Entry> := Shard(map[], []);
    assert empty.order + [x] == [x];
  }

  lemma OneEntryEvicted<K(!new)>(c: Config<K>, sh: Shard<K, Entry>, k: K, now: real)
    requires c.kind == Http && c.maxTracked == 1
    requires sh.order == [k] && sh.entries.Keys == {k} && sh.entries[k].active == 0
    ensures MakeRoomTwice(c, sh, now) == (Shard(map[], []), true)
  {
    var idle := (e: Entry) => Idle(c, e, now);
    var inactive := (e: Entry) => e.active == 0;
    assert |sh.entries| == |sh.entries.Keys| == 1;
    assert FirstHit(sh, inactive, 0, 1) == 0;
    assert FirstHit(sh, idle, 1, 1) == 1;
    assert sh.order[1..] + sh.order[..1] == sh.order;
    assert sh.entries - {k} == map[];
    assert Scan(sh, inactive) == Shard(map[], []);
    assert Scan(sh, idle) == sh || Scan(sh, idle) == Shard(map[], []);
  }
}
