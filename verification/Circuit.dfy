/** The per-shape upstream circuit breaker: consecutive failures open a circuit for a while, a
    success closes it, and a bounded table forgets only circuits that are closed anyway. Times are
    milliseconds since the breaker started. */
module Circuit {
  import opened Shards
  import opened Sets
  import opened Words

  datatype Config<!K> = Config(threshold: nat, openMs: nat, maxShapes: nat, shardOf: K -> nat) {
    ghost predicate Ok() { threshold <= U32_MAX && openMs <= U64_MAX }
  }

  datatype Entry = Entry(failures: nat, openUntil: nat)

  const IDLE := Entry(0, 0)

  type State<K(!new)> = seq<Shard<K, Entry>>

  datatype Event<K> = Failure(key: K, now: nat) | Success(key: K, now: nat)

  function Until<K>(c: Config<K>, now: nat): nat { Capped(now + c.openMs, U64_MAX) }

  /** One more failure on an entry, and whether it trips the circuit. */
  function Fail<K>(c: Config<K>, e: Entry, now: nat): (Entry, bool) {
    var n := Capped(e.failures + 1, U32_MAX);
    if n >= c.threshold then (Entry(0, Until(c, now)), true) else (e.(failures := n), false)
  }

  function RoomFor<K(==, !new)>(c: Config<K>, sh: Shard<K, Entry>, k: K, now: nat): (Shard<K, Entry>, bool) {
    if k in sh.entries then (sh, true)
    else MakeRoom(sh, ShardCapacity(c.maxShapes), (e: Entry) => now >= e.openUntil)
  }

  function FailIn<K(==, !new)>(c: Config<K>, sh: Shard<K, Entry>, k: K, now: nat): (Shard<K, Entry>, bool) {
    var (roomy, room) := RoomFor(c, sh, k, now);
    if !room then (roomy, false)
    else
      var (e, tripped) := Fail(c, EntryIn(roomy, k), now);
      (roomy.Put(k, e), tripped)
  }

  function EntryIn<K(==, !new)>(sh: Shard<K, Entry>, k: K): Entry { if k in sh.entries then sh.entries[k] else IDLE }

  /** One recorded outcome; the flag says whether it tripped the circuit of its shape. */
  function Step<K(==, !new)>(c: Config<K>, s: State<K>, e: Event<K>): (State<K>, bool)
    requires |s| == SHARDS
  {
    var h := Home(c.shardOf, e.key);
    match e
    case Success(k, _) => (if k in s[h].entries then s[h := s[h].Put(k, IDLE)] else s, false)
    case Failure(k, now) =>
      if c.threshold == 0 then (s, false)
      else
        var (sh, tripped) := FailIn(c, s[h], k, now);
        (s[h := sh], tripped)
  }

  predicate IsOpen<K(==, !new)>(c: Config<K>, s: State<K>, k: K, now: nat)
    requires |s| == SHARDS
  {
    c.threshold != 0 && k in s[Home(c.shardOf, k)].entries && now < s[Home(c.shardOf, k)].entries[k].openUntil
  }

  function Start<K(!new)>(): (s: State<K>)
    ensures |s| == SHARDS
  {
    seq(SHARDS, i => Shard(map[], []))
  }

  /** The table after a run of outcomes. */
  function Run<K(==, !new)>(c: Config<K>, run: seq<Event<K>>): (s: State<K>)
    ensures |s| == SHARDS
  {
    if run == [] then Start() else Step(c, Run(c, run[..|run| - 1]), run[|run| - 1]).0
  }

  /** Whether the i-th outcome of a run trips its circuit. */
  predicate Trips<K(==, !new)>(c: Config<K>, run: seq<Event<K>>, i: nat)
    requires i < |run|
  {
    Step(c, Run(c, run[..i]), run[i]).1
  }

  ghost predicate Ordered<K>(run: seq<Event<K>>) {
    forall i, j | 0 <= i < j < |run| :: run[i].now <= run[j].now
  }

  // ---- what every step keeps ----

  ghost predicate ShardOk<K(!new)>(c: Config<K>, sh: Shard<K, Entry>) {
    && sh.Valid() && |sh.entries| <= ShardCapacity(c.maxShapes)
    && (forall k | k in sh.entries :: sh.entries[k].failures < c.threshold)
  }

  ghost predicate Inv<K(!new)>(c: Config<K>, s: State<K>) {
    |s| == SHARDS && forall i | 0 <= i < SHARDS :: ShardOk(c, s[i])
  }

  lemma RoomKeeps<K(!new)>(c: Config<K>, sh: Shard<K, Entry>, k: K, now: nat)
    requires ShardOk(c, sh)
    ensures var (roomy, room) := RoomFor(c, sh, k, now);
      && ShardOk(c, roomy)
      && (room ==> k in roomy.entries || |roomy.entries| < ShardCapacity(c.maxShapes))
      && (k in roomy.entries <==> k in sh.entries)
      && (forall j | j in roomy.entries :: j in sh.entries && roomy.entries[j] == sh.entries[j])
      && (forall j | j in sh.entries && j !in roomy.entries :: now >= sh.entries[j].openUntil)
  {
    if k !in sh.entries && |sh.entries| >= ShardCapacity(c.maxShapes) {
      ScanKeeps(sh, (e: Entry) => now >= e.openUntil);
    }
  }

  lemma PutKeeps<K(!new)>(c: Config<K>, sh: Shard<K, Entry>, k: K, e: Entry)
    requires ShardOk(c, sh) && e.failures < c.threshold
    requires k in sh.entries || |sh.entries| < ShardCapacity(c.maxShapes)
    ensures ShardOk(c, sh.Put(k, e))
  {
    PutValid(sh, k, e);
    if k in sh.entries { assert sh.entries[k := e].Keys == sh.entries.Keys; }
    else { assert sh.entries[k := e].Keys == sh.entries.Keys + {k}; }
  }

  lemma FailKeeps<K(!new)>(c: Config<K>, sh: Shard<K, Entry>, k: K, now: nat)
    requires c.Ok() && c.threshold > 0 && ShardOk(c, sh)
    ensures ShardOk(c, FailIn(c, sh, k, now).0)
  {
    RoomKeeps(c, sh, k, now);
    var (roomy, room) := RoomFor(c, sh, k, now);
    if room { PutKeeps(c, roomy, k, Fail(c, EntryIn(roomy, k), now).0); }
  }

  /** Every step keeps the queues permutations of the keys, the table within its capacity and
      every stored failure count below the threshold. */
  lemma StepKeeps<K(!new)>(c: Config<K>, s: State<K>, e: Event<K>)
    requires c.Ok() && Inv(c, s)
    ensures Inv(c, Step(c, s, e).0)
  {
    var h := Home(c.shardOf, e.key);
    match e {
      case Success(k, _) => if k in s[h].entries { PutKeeps(c, s[h], k, IDLE); }
      case Failure(k, now) => if c.threshold > 0 { FailKeeps(c, s[h], k, now); }
    }
  }

  lemma {:induction false} RunKeeps<K(!new)>(c: Config<K>, run: seq<Event<K>>)
    requires c.Ok()
    ensures Inv(c, Run(c, run))
  {
    if run != [] {
      RunKeeps(c, run[..|run| - 1]);
      StepKeeps(c, Run(c, run[..|run| - 1]), run[|run| - 1]);
    }
  }

  /** After any run the shards together hold at most the configured number of shapes plus 63. */
  lemma RunTracksBoundedShapes<K(!new)>(c: Config<K>, run: seq<Event<K>>)
    requires c.Ok() && c.maxShapes > 0
    ensures SizeSum(Run(c, run)) <= c.maxShapes + 63 && forall h | 0 <= h < SHARDS :: Run(c, run)[h].Valid()
  {
    RunKeeps(c, run);
    TrackedKeysBound(Run(c, run), c.maxShapes);
  }

  /** A failure goes uncounted exactly when its shape has no entry, its shard is full and the circuits
      of the first 32 shapes in the queue are all open. */
  lemma FailureCounts<K(!new)>(c: Config<K>, sh: Shard<K, Entry>, k: K, now: nat)
    requires c.threshold > 0 && ShardOk(c, sh)
    ensures k in FailIn(c, sh, k, now).0.entries <==>
      k in sh.entries || !Stuck(sh, ShardCapacity(c.maxShapes), (e: Entry) => now >= e.openUntil)
  {
    RoomKeeps(c, sh, k, now);
    hide Stuck, MakeRoom;
    RoomUnlessStuck(sh, ShardCapacity(c.maxShapes), (e: Entry) => now >= e.openUntil);
  }

  // ---- one shape ----

  function EntryOf<K(==, !new)>(c: Config<K>, s: State<K>, k: K): Entry
    requires |s| == SHARDS
  {
    EntryIn(s[Home(c.shardOf, k)], k)
  }

  /** What a step does to the entry of a shape: its own outcomes act on it, or are refused before
      an entry exists; another shape's outcome leaves it alone or forgets it once it is closed. */
  lemma StepOn<K(!new)>(c: Config<K>, s: State<K>, e: Event<K>, k: K)
    requires c.Ok() && Inv(c, s)
    ensures var (s', tripped) := Step(c, s, e); var was, now := EntryOf(c, s, k), EntryOf(c, s', k);
      if e.key == k then
        if e.Success? then now == IDLE && !tripped
        else (c.threshold > 0 && (now, tripped) == Fail(c, was, e.now)) || (now == was == IDLE && !tripped)
      else now == was || (now == IDLE && e.now >= was.openUntil)
  {
    var h := Home(c.shardOf, e.key);
    if c.threshold > 0 && e.Failure? { RoomKeeps(c, s[h], e.key, e.now); }
  }

  /** The deadline of the last trip of `k` that no success followed, or 0. */
  ghost function Deadline<K(!new)>(c: Config<K>, run: seq<Event<K>>, k: K): nat {
    if run == [] then 0
    else
      var n := |run| - 1;
      if run[n].key != k then Deadline(c, run[..n], k)
      else if run[n].Success? then 0
      else if Trips(c, run, n) then Until(c, run[n].now)
      else Deadline(c, run[..n], k)
  }

  /** How many failures of `k` ended the run since its last success or trip. */
  ghost function Streak<K(!new)>(c: Config<K>, run: seq<Event<K>>, k: K): nat {
    if run == [] then 0
    else
      var n := |run| - 1;
      if run[n].key != k then Streak(c, run[..n], k)
      else if run[n].Success? || Trips(c, run, n) then 0
      else Streak(c, run[..n], k) + 1
  }

  ghost predicate Tracks<K(!new)>(c: Config<K>, run: seq<Event<K>>, k: K, t: nat) {
    var e := EntryOf(c, Run(c, run), k);
    (t < e.openUntil <==> t < Deadline(c, run, k)) && e.failures <= Streak(c, run, k)
  }

  lemma {:induction false} RunTracks<K(!new)>(c: Config<K>, run: seq<Event<K>>, k: K, t: nat)
    requires c.Ok() && Ordered(run)
    requires forall i | 0 <= i < |run| :: run[i].now <= t
    ensures Tracks(c, run, k, t)
  {
    if run != [] {
      var n := |run| - 1;
      RunKeeps(c, run[..n]);
      RunTracks(c, run[..n], k, t);
      StepOn(c, Run(c, run[..n]), run[n], k);
    }
  }

  ghost predicate OpenSince<K(!new)>(c: Config<K>, run: seq<Event<K>>, k: K, t: nat, i: nat) {
    && i < |run| && run[i].Failure? && run[i].key == k && Trips(c, run, i)
    && t < run[i].now + c.openMs && t < U64_MAX
    && forall j | i < j < |run| :: run[j].key == k ==> run[j].Failure?
  }

  lemma PrefixTrips<K(!new)>(c: Config<K>, run: seq<Event<K>>, n: nat, i: nat)
    requires i < n <= |run|
    ensures Trips(c, run[..n], i) == Trips(c, run, i)
  {
    assert run[..n][..i] == run[..i];
  }

  lemma DeadlineShrinks<K(!new)>(c: Config<K>, run: seq<Event<K>>, k: K, t: nat, i: nat)
    requires run != [] && i < |run| - 1 && OpenSince(c, run, k, t, i)
    ensures OpenSince(c, run[..|run| - 1], k, t, i)
  {
    hide Trips;
    PrefixTrips(c, run, |run| - 1, i);
  }

  lemma DeadlineGrows<K(!new)>(c: Config<K>, run: seq<Event<K>>, k: K, t: nat, i: nat)
    requires run != [] && OpenSince(c, run[..|run| - 1], k, t, i)
    requires run[|run| - 1].key == k ==> run[|run| - 1].Failure?
    ensures OpenSince(c, run, k, t, i)
  {
    hide Trips;
    var n := |run| - 1;
    PrefixTrips(c, run, n, i);
    forall j | i < j < |run| && run[j].key == k ensures run[j].Failure? {
      if j < n { assert run[..n][j] == run[j]; }
    }
  }

  lemma {:induction false} DeadlineHasTrip<K(!new)>(c: Config<K>, run: seq<Event<K>>, k: K, t: nat)
    requires t < Deadline(c, run, k)
    ensures exists i :: OpenSince(c, run, k, t, i)
  {
    hide Trips;
    var n := |run| - 1;
    if run[n].key == k && Trips(c, run, n) {
      assert OpenSince(c, run, k, t, n);
    } else {
      DeadlineHasTrip(c, run[..n], k, t);
      var i :| OpenSince(c, run[..n], k, t, i);
      DeadlineGrows(c, run, k, t, i);
    }
  }

  lemma {:induction false} TripHasDeadline<K(!new)>(c: Config<K>, run: seq<Event<K>>, k: K, t: nat, i: nat)
    requires Ordered(run) && OpenSince(c, run, k, t, i)
    ensures t < Deadline(c, run, k)
  {
    hide Trips;
    var n := |run| - 1;
    if i < n {
      assert run[i].now <= run[n].now;
      DeadlineShrinks(c, run, k, t, i);
      TripHasDeadline(c, run[..n], k, t, i);
    }
  }

  /** The running deadline says the same as looking for a trip without a later success. */
  lemma DeadlineMeaning<K(!new)>(c: Config<K>, run: seq<Event<K>>, k: K, t: nat)
    requires Ordered(run)
    ensures t < Deadline(c, run, k) <==> exists i :: OpenSince(c, run, k, t, i)
  {
    if t < Deadline(c, run, k) { DeadlineHasTrip(c, run, k, t); }
    if i :| OpenSince(c, run, k, t, i) { TripHasDeadline(c, run, k, t, i); }
  }

  /** A circuit is open at `t` exactly when one of its failures tripped it less than the open time
      before `t` and none of its successes came later: no other shape's outcome and no eviction
      matters, whatever the table forgot in between. */
  lemma OpenExactly<K(!new)>(c: Config<K>, run: seq<Event<K>>, k: K, t: nat)
    requires c.Ok() && Ordered(run)
    requires forall i | 0 <= i < |run| :: run[i].now <= t
    ensures IsOpen(c, Run(c, run), k, t) <==> exists i :: OpenSince(c, run, k, t, i)
  {
    RunTracks(c, run, k, t);
    DeadlineMeaning(c, run, k, t);
    if c.threshold == 0 { NeverTrips(c, run, k); }
  }

  /** After a trip with no later outcome of its shape, the circuit is open for exactly the open time,
      or to the end of the 64-bit clock. */
  lemma OpenForOpenTime<K(!new)>(c: Config<K>, run: seq<Event<K>>, k: K, i: nat, t: nat)
    requires c.Ok() && Ordered(run) && i < |run| && run[i].key == k && Trips(c, run, i)
    requires forall j | i < j < |run| :: run[j].key != k
    requires forall j | 0 <= j < |run| :: run[j].now <= t
    ensures IsOpen(c, Run(c, run), k, t) <==> t < run[i].now + c.openMs && t < U64_MAX
  {
    OpenExactly(c, run, k, t);
    TripsExactly(c, run, i);
    hide Trips, IsOpen, Run, Kept, StuckFor;
    if t < run[i].now + c.openMs && t < U64_MAX { assert OpenSince(c, run, k, t, i); }
    if j: nat :| OpenSince(c, run, k, t, j) {
      if j < i { assert run[j].now <= run[i].now; }
    }
  }

  lemma {:induction false} NeverTrips<K(!new)>(c: Config<K>, run: seq<Event<K>>, k: K)
    requires c.threshold == 0
    ensures Deadline(c, run, k) == 0
  {
    if run != [] { NeverTrips(c, run[..|run| - 1], k); }
  }

  // ---- when a circuit trips ----

  predicate Has<K(==, !new)>(c: Config<K>, s: State<K>, k: K)
    requires |s| == SHARDS
  {
    k in s[Home(c.shardOf, k)].entries
  }

  /** How many failures of `k` ended the run since its last success or trip and since the table last
      had no entry for it. */
  ghost function Kept<K(!new)>(c: Config<K>, run: seq<Event<K>>, k: K): nat {
    if run == [] || !Has(c, Run(c, run), k) then 0
    else
      var n := |run| - 1;
      if run[n].key != k then Kept(c, run[..n], k)
      else if run[n].Success? || Trips(c, run, n) then 0
      else Kept(c, run[..n], k) + 1
  }

  /** An entry that is there after another shape's outcome was there before it, unchanged. */
  lemma OtherEntry<K(!new)>(c: Config<K>, s: State<K>, e: Event<K>, k: K)
    requires c.Ok() && Inv(c, s) && e.key != k && Has(c, Step(c, s, e).0, k)
    ensures EntryOf(c, Step(c, s, e).0, k) == EntryOf(c, s, k)
  {
    if c.threshold > 0 && e.Failure? { RoomKeeps(c, s[Home(c.shardOf, e.key)], e.key, e.now); }
  }

  lemma {:induction false} KeptIsStored<K(!new)>(c: Config<K>, run: seq<Event<K>>, k: K)
    requires c.Ok() && c.threshold > 0
    ensures EntryOf(c, Run(c, run), k).failures == Kept(c, run, k)
  {
    if run != [] && Has(c, Run(c, run), k) {
      var n := |run| - 1;
      var s, e := Run(c, run[..n]), run[n];
      KeptIsStored(c, run[..n], k);
      RunKeeps(c, run[..n]);
      if e.key != k {
        OtherEntry(c, s, e, k);
      } else {
        StepOn(c, s, e, k);
        if e.Failure? { OwnEntry(c, s, k, e.now); }
      }
    }
  }

  /** A failure that leaves its shape an entry was counted on it, and trips at the threshold. */
  lemma OwnEntry<K(!new)>(c: Config<K>, s: State<K>, k: K, now: nat)
    requires c.Ok() && c.threshold > 0 && Inv(c, s)
    ensures var (s', tripped) := Step(c, s, Failure(k, now)); var e := EntryOf(c, s, k);
      && (Has(c, s', k) <==> Has(c, s, k) || !StuckFor(c, s, k, now))
      && (if Has(c, s', k) then (EntryOf(c, s', k), tripped) == Fail(c, e, now) else !tripped)
      && (tripped <==> Has(c, s', k) && e.failures + 1 == c.threshold)
  {
    var sh := s[Home(c.shardOf, k)];
    RoomKeeps(c, sh, k, now);
    FailureCounts(c, sh, k, now);
    assert EntryOf(c, s, k).failures < c.threshold;
    hide Stuck, RoomFor;
  }

  /** The shard of `k` is full of open circuits as far as a scan looks. */
  ghost predicate StuckFor<K(!new)>(c: Config<K>, s: State<K>, k: K, now: nat)
    requires |s| == SHARDS
  {
    Stuck(s[Home(c.shardOf, k)], ShardCapacity(c.maxShapes), (e: Entry) => now >= e.openUntil)
  }

  /** In every run, whatever the table evicts and in whatever order the times come, an outcome trips
      its circuit if and only if it is a failure that is counted and the threshold-th one since the
      last success, the last trip and the last moment without an entry. */
  lemma TripsExactly<K(!new)>(c: Config<K>, run: seq<Event<K>>, n: nat)
    requires c.Ok() && n < |run|
    ensures var s, e := Run(c, run[..n]), run[n];
      Trips(c, run, n) <==>
        && c.threshold > 0 && e.Failure? && (Has(c, s, e.key) || !StuckFor(c, s, e.key, e.now))
        && Kept(c, run[..n], e.key) + 1 == c.threshold
  {
    var s, e := Run(c, run[..n]), run[n];
    RunKeeps(c, run[..n]);
    if c.threshold > 0 && e.Failure? {
      KeptIsStored(c, run[..n], e.key);
      OwnEntry(c, s, e.key, e.now);
    }
  }

  lemma {:induction false} KeptWithinStreak<K(!new)>(c: Config<K>, run: seq<Event<K>>, k: K)
    ensures Kept(c, run, k) <= Streak(c, run, k)
  {
    hide Trips, Run;
    if run != [] { KeptWithinStreak(c, run[..|run| - 1], k); }
  }

  /** Only the threshold-th failure in a row, with no success or trip between, can trip a circuit. */
  lemma TripNeedsStreak<K(!new)>(c: Config<K>, run: seq<Event<K>>, n: nat)
    requires c.Ok() && n < |run| && Trips(c, run, n)
    ensures run[n].Failure? && c.threshold > 0
    ensures Streak(c, run[..n], run[n].key) + 1 >= c.threshold
  {
    TripsExactly(c, run, n);
    KeptWithinStreak(c, run[..n], run[n].key);
  }

  // ---- crowding keeps circuits closed ----

  /** One entry per shard, a threshold of two. */
  function Cramped(): Config<nat> { Config(2, 1000, 1, (k: nat) => 0) }

  function Turn(i: nat): nat { if i % 2 == 0 then 7 else 8 }

  /** Failures of two shapes by turns, at any times. */
  function ByTurns(n: nat, clock: nat -> nat): (r: seq<Event<nat>>)
    ensures |r| == n && forall i | 0 <= i < n :: r[i] == Failure(Turn(i), clock(i))
  {
    seq(n, (i: nat) => Failure(Turn(i), clock(i)))
  }

  lemma TurnEvicts(k: nat, x: nat, now: nat)
    requires k != x
    ensures FailIn(Cramped(), Shard(map[k := Entry(1, 0)], [k]), x, now) == (Shard(map[x := Entry(1, 0)], [x]), false)
  {
    var sh := Shard(map[k := Entry(1, 0)], [k]);
    var closed := (e: Entry) => now >= e.openUntil;
    assert FirstHit(sh, closed, 0, 1) == 0;
    assert sh.entries - {k} == map[] && sh.order[1..] + Present(sh.entries, sh.order[..0]) == [];
    assert Scan(sh, closed) == Shard(map[], []);
    var empty: Shard<nat, Entry> := Shard(map[], []);
    assert empty.order + [x] == [x];
  }

  lemma FirstTurn(now: nat)
    ensures FailIn(Cramped(), Shard<nat, Entry>.Shard(map[], []), 7, now) == (Shard(map[7 := Entry(1, 0)], [7]), false)
  {
    var empty: Shard<nat, Entry> := Shard(map[], []);
    assert empty.order + [7] == [7];
  }

  function Counted(k: nat): Shard<nat, Entry> { Shard(map[k := Entry(1, 0)], [k]) }

  lemma CrampedStep(s: State<nat>, k: nat, now: nat)
    requires |s| == SHARDS && FailIn(Cramped(), s[0], k, now) == (Counted(k), false)
    ensures Step(Cramped(), s, Failure(k, now)) == (s[0 := Counted(k)], false)
  {
    hide FailIn;
  }

  lemma TurnsPrefix(n: nat, m: nat, clock: nat -> nat)
    requires m <= n
    ensures ByTurns(n, clock)[..m] == ByTurns(m, clock)
  {
  }

  lemma LastStep<K(!new)>(c: Config<K>, run: seq<Event<K>>)
    requires run != []
    ensures var n := |run| - 1;
      Run(c, run) == Step(c, Run(c, run[..n]), run[n]).0 && Trips(c, run, n) == Step(c, Run(c, run[..n]), run[n]).1
  {
    hide Step;
  }

  lemma {:induction false} TurnsTable(n: nat, clock: nat -> nat)
    requires n > 0
    ensures Run(Cramped(), ByTurns(n, clock))[0] == Counted(Turn(n - 1))
    ensures !Trips(Cramped(), ByTurns(n, clock), n - 1)
  {
    hide FailIn, Step, Trips;
    var run := ByTurns(n, clock);
    TurnsPrefix(n, n - 1, clock);
    var s := Run(Cramped(), run[..n - 1]);
    if n == 1 {
      assert run[..0] == [];
      FirstTurn(clock(0));
    } else {
      TurnsTable(n - 1, clock);
      TurnEvicts(Turn(n - 2), Turn(n - 1), clock(n - 1));
    }
    hide Run;
    CrampedStep(s, Turn(n - 1), clock(n - 1));
    LastStep(Cramped(), run);
  }

  lemma {:induction false} TurnsStreak(n: nat, clock: nat -> nat)
    ensures Streak(Cramped(), ByTurns(n, clock), 7) == (n + 1) / 2
  {
    hide Trips, Run, Step;
    if n > 0 {
      TurnsPrefix(n, n - 1, clock);
      TurnsTable(n, clock);
      TurnsStreak(n - 1, clock);
    }
  }

  /** In a shard with room for one shape, two shapes that fail by turns never trip, however long it
      goes on and whatever the clock reads, though both fail without a success: each failure evicts
      the count of the other. */
  lemma CrowdedNeverTrips(n: nat, clock: nat -> nat, i: nat)
    requires i < n
    ensures !Trips(Cramped(), ByTurns(n, clock), i)
    ensures Streak(Cramped(), ByTurns(n, clock), 7) == (n + 1) / 2
  {
    hide Trips;
    TurnsPrefix(n, i + 1, clock);
    TurnsTable(i + 1, clock);
    PrefixTrips(Cramped(), ByTurns(n, clock), i + 1, i);
    TurnsStreak(n, clock);
  }

  // ---- while there is room ----

  /** All shapes of the run that share the shard of `k`. */
  ghost predicate Uncrowded<K(!new)>(c: Config<K>, run: seq<Event<K>>, h: nat, keys: set<K>) {
    && |keys| <= ShardCapacity(c.maxShapes)
    && forall i | 0 <= i < |run| && Home(c.shardOf, run[i].key) == h :: run[i].key in keys
  }

  lemma UncrowdedRoom<K(!new)>(c: Config<K>, sh: Shard<K, Entry>, k: K, now: nat, keys: set<K>)
    requires sh.entries.Keys <= keys && k in keys && |keys| <= ShardCapacity(c.maxShapes)
    ensures RoomFor(c, sh, k, now) == (sh, true)
  {
    if k !in sh.entries {
      assert sh.entries.Keys <= keys - {k};
      SubsetSize(sh.entries.Keys, keys - {k});
    }
  }

  /** While a shard never has more shapes than room, every threshold-th failure in a row trips. */
  lemma {:induction false} UncrowdedTrips<K(!new)>(c: Config<K>, run: seq<Event<K>>, k: K, keys: set<K>)
    requires c.Ok() && c.threshold > 0 && Uncrowded(c, run, Home(c.shardOf, k), keys)
    ensures Run(c, run)[Home(c.shardOf, k)].entries.Keys <= keys
    ensures EntryOf(c, Run(c, run), k).failures == Streak(c, run, k)
    ensures run != [] && run[|run| - 1] == Failure(k, run[|run| - 1].now) ==>
      (Trips(c, run, |run| - 1) <==> Streak(c, run[..|run| - 1], k) + 1 == c.threshold)
  {
    if run != [] {
      var n := |run| - 1;
      var s, e, h := Run(c, run[..n]), run[n], Home(c.shardOf, k);
      UncrowdedTrips(c, run[..n], k, keys);
      RunKeeps(c, run[..n]);
      if Home(c.shardOf, e.key) == h && e.Failure? { UncrowdedRoom(c, s[h], e.key, e.now, keys); }
      assert EntryOf(c, s, k).failures < c.threshold;
    }
  }

  // ---- the breaker as the source keeps it ----

  class CircuitBreaker<K(==, !new)> {
    const c: Config<K>
    const shards: seq<LimiterShard<K, Entry>>

    ghost predicate Built() {
      |shards| == SHARDS && forall i, j | 0 <= i < j < SHARDS :: shards[i] != shards[j]
    }

    ghost predicate Valid()
      reads shards
    {
      Built() && forall i | 0 <= i < SHARDS :: shards[i].View().Valid()
    }

    ghost function View(): State<K>
      requires Built()
      reads shards
    {
      seq(SHARDS, i requires 0 <= i < SHARDS reads shards => shards[i].View())
    }

    constructor (c: Config<K>)
      ensures this.c == c && Valid() && View() == Run(c, [])
    {
      this.c := c;
      var built: seq<LimiterShard<K, Entry>> := [];
      while |built| < SHARDS
        invariant |built| <= SHARDS
        invariant forall i | 0 <= i < |built| :: built[i].View() == Shard(map[], [])
        invariant forall i, j | 0 <= i < j < |built| :: built[i] != built[j]
      {
        var shard := new LimiterShard<K, Entry>();
        built := built + [shard];
      }
      this.shards := built;
      new;
      assert View() == Start();
    }

    method Open(k: K, now: nat) returns (open: bool)
      requires Valid()
      ensures open <==> IsOpen(c, View(), k, now)
    {
      if c.threshold == 0 {
        return false;
      }
      var shard := shards[Home(c.shardOf, k)];
      return k in shard.entries && now < shard.entries[k].openUntil;
    }

    method RecordSuccess(k: K, ghost now: nat)
      requires Valid()
      modifies shards
      ensures Valid() && View() == Step(c, old(View()), Success(k, now)).0
    {
      var h := Home(c.shardOf, k);
      if k in shards[h].entries {
        shards[h].Put(k, IDLE);
      }
      assert View() == Step(c, old(View()), Success(k, now)).0;
    }

    method RecordFailure(k: K, now: nat)
      requires Valid()
      modifies shards
      ensures Valid() && View() == Step(c, old(View()), Failure(k, now)).0
    {
      if c.threshold == 0 {
        return;
      }
      var h := Home(c.shardOf, k);
      FailLocked(shards[h], k, now);
      ghost var was := old(View());
      assert View() == was[h := FailIn(c, was[h], k, now).0];
    }

    /** The region under the lock of the shape's shard. */
    method FailLocked(shard: LimiterShard<K, Entry>, k: K, now: nat)
      requires shard.View().Valid()
      modifies shard
      ensures shard.View().Valid() && shard.View() == FailIn(c, old(shard.View()), k, now).0
    {
      if k !in shard.entries {
        var room := shard.MakeRoomFor(ShardCapacity(c.maxShapes), (e: Entry) => now >= e.openUntil);
        if !room {
          return;
        }
      }
      var entry := if k in shard.entries then shard.entries[k] else IDLE;
      var failures := Capped(entry.failures + 1, U32_MAX);
      if failures >= c.threshold {
        shard.Put(k, Entry(0, Until(c, now)));
      } else {
        shard.Put(k, entry.(failures := failures));
      }
    }
  }
}
