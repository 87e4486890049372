/** The three permit-issuing limiters (TCP connections, HTTP connections, in-flight requests) as
    one protocol. A thread acquires through an early look, a locked region of its shard, a
    compare-exchange loop on the shared counter and a charge of the shared connect bucket, and
    releases through a decrement of the counter and a locked decrement of its entry. Each action
    below is one atomic access; actions of different threads interleave in any order. */
module Permits {
  import opened Options
  import opened Shards
  import opened Sets
  import opened Buckets

  datatype Kind = Tcp | Http | Requests

  datatype Reason = GlobalRate | GlobalConnections | PerKeyRate | PerKeyConnections

  /** `rate` and `burst` describe the per-key connect bucket; a rate of zero disables it. A zero
      `maxGlobal` disables the shared counter. */
  datatype Config<!K> = Config(kind: Kind, maxGlobal: nat, perKey: nat, rate: real, burst: nat,
                               maxTracked: nat, shardOf: K -> nat)

  /** Zero means no per-key cap; the TCP limiter never runs without one. */
  function KeyLimit<K>(c: Config<K>): nat {
    if c.kind == Tcp && c.perKey == 0 then 1 else c.perKey
  }

  datatype Entry = Entry(bucket: Bucket, active: nat, lastSeen: real)

  predicate Full<K>(c: Config<K>, e: Entry) { KeyLimit(c) > 0 && e.active >= KeyLimit(c) }

  predicate Idle<K>(c: Config<K>, e: Entry, now: real) {
    e.active == 0 && if c.kind == Requests then now - e.lastSeen >= IDLE_SECONDS else e.bucket.Stale(now)
  }

  /** Idle entries go first; if none is found, any inactive entry may go. */
  function MakeRoomTwice<K(==, !new)>(c: Config<K>, sh: Shard<K, Entry>, now: real): (Shard<K, Entry>, bool) {
    var (s1, room) := MakeRoom(sh, ShardCapacity(c.maxTracked), (e: Entry) => Idle(c, e, now));
    if room then (s1, true) else MakeRoom(s1, ShardCapacity(c.maxTracked), (e: Entry) => e.active == 0)
  }

  function EntryFor<K(==, !new)>(c: Config<K>, sh: Shard<K, Entry>, k: K, now: real): Entry {
    if k in sh.entries then sh.entries[k] else Entry(Fresh(c.rate, c.burst, now), 0, now)
  }

  /** The per-key checks; the TCP limiter looks at the active count first, the others at the rate. */
  function CheckEntry<K>(c: Config<K>, e: Entry, now: real): (Entry, Option<Reason>) {
    var r := if c.rate > 0.0 then e.(bucket := Refill(e.bucket, now)) else e;
    if c.kind == Tcp && Full(c, e) then (e, Some(PerKeyConnections))
    else if c.rate > 0.0 && r.bucket.tokens < 1.0 then (r, Some(PerKeyRate))
    else if c.kind != Tcp && Full(c, e) then (r, Some(PerKeyConnections))
    else (r, None)
  }

  /** The part of `try_acquire` from taking the shard lock to the per-key checks. */
  function Admit<K(==, !new)>(c: Config<K>, sh: Shard<K, Entry>, k: K, now: real)
    : (Shard<K, Entry>, Option<Reason>)
  {
    var (sh1, room) := if k in sh.entries then (sh, true) else MakeRoomTwice(c, sh, now);
    if !room then (sh1, Some(GlobalConnections))
    else
      var (e, denied) := CheckEntry(c, EntryFor(c, sh1, k, now), now);
      (sh1.Put(k, e), denied)
  }

  function Granted<K>(c: Config<K>, e: Entry, now: real): Entry {
    Entry(if c.rate > 0.0 then Spend(e.bucket) else e.bucket, e.active + 1, now)
  }

  function Released(e: Entry, now: real): Entry {
    e.(active := if e.active > 0 then e.active - 1 else 0, lastSeen := now)
  }

  /** Where a thread stands. From `AtGlobal` to `Undoing` it holds the lock of its key's shard. */
  datatype Pc<K> =
    | Resting(last: Option<Reason>)
    | Peeked(key: K, now: real)
    | Entering(key: K, now: real)
    | AtGlobal(key: K, now: real, seen: Option<int>)
    | Reserved(key: K, now: real)
    | Charged(key: K, now: real)
    | Undoing(key: K)
    | Holding(key: K)
    | Releasing(key: K)

  predicate Locking<K>(pc: Pc<K>) { pc.AtGlobal? || pc.Reserved? || pc.Charged? || pc.Undoing? }

  datatype State<K(==, !new)> = State(globalActive: int, shared: Option<Bucket>, shards: seq<Shard<K, Entry>>,
                                      pcs: map<nat, Pc<K>>, spent: nat, granted: nat)

  function At<K>(pcs: map<nat, Pc<K>>, t: nat): Pc<K> {
    if t in pcs then pcs[t] else Resting(None)
  }

  datatype Action<K> =
    | Begin(key: K, now: real)        // early look at the shared bucket
    | LookActive                      // early look at the counter
    | Lock                            // lock the shard, make room, check the key
    | Load                            // read the counter
    | Cas(spurious: bool)             // one round of the compare-exchange loop
    | Charge                          // take a token from the shared bucket
    | Grant                           // charge the entry, count it, unlock
    | Undo                            // give the slot back, unlock
    | ReleaseGlobal                   // drop, first half
    | ReleaseKey(now: real)           // drop, second half

  ghost predicate Unlocked<K(!new)>(c: Config<K>, pcs: map<nat, Pc<K>>, h: nat) {
    forall u | u in pcs :: Locking(pcs[u]) ==> Home(c.shardOf, pcs[u].key) != h
  }

  ghost predicate Enabled<K(!new)>(c: Config<K>, s: State<K>, t: nat, a: Action<K>) {
    var pc := At(s.pcs, t);
    match a
    case Begin(_, _) => pc.Resting?
    case LookActive => pc.Peeked?
    case Lock => pc.Entering? && Unlocked(c, s.pcs, Home(c.shardOf, pc.key))
    case Load => pc.AtGlobal? && pc.seen.None?
    case Cas(_) => pc.AtGlobal? && pc.seen.Some?
    case Charge => pc.Reserved?
    case Grant => pc.Charged?
    case Undo => pc.Undoing?
    case ReleaseGlobal => pc.Holding?
    case ReleaseKey(_) => pc.Releasing? && Unlocked(c, s.pcs, Home(c.shardOf, pc.key))
  }

  function Move<K(==, !new)>(s: State<K>, t: nat, pc: Pc<K>): State<K> { s.(pcs := s.pcs[t := pc]) }

  function PutEntry<K(==, !new)>(s: State<K>, h: nat, k: K, e: Entry): State<K>
    requires h < |s.shards|
  {
    s.(shards := s.shards[h := s.shards[h].Put(k, e)])
  }

  function DoBegin<K(==, !new)>(s: State<K>, t: nat, k: K, now: real): State<K> {
    if s.shared.None? then Move(s, t, Peeked(k, now))
    else
      var b := Refill(s.shared.value, now);
      Move(s.(shared := Some(b)), t, if b.tokens >= 1.0 then Peeked(k, now) else Resting(Some(GlobalRate)))
  }

  function DoLookActive<K(==, !new)>(c: Config<K>, s: State<K>, t: nat, k: K, now: real): State<K> {
    Move(s, t, if c.maxGlobal > 0 && s.globalActive >= c.maxGlobal then Resting(Some(GlobalConnections))
               else Entering(k, now))
  }

  function AfterAdmit<K>(c: Config<K>, k: K, now: real, denied: Option<Reason>): Pc<K> {
    if denied.Some? then Resting(denied)
    else if c.maxGlobal > 0 then AtGlobal(k, now, None) else Reserved(k, now)
  }

  function DoLock<K(==, !new)>(c: Config<K>, s: State<K>, t: nat, k: K, now: real): State<K>
    requires |s.shards| == SHARDS
  {
    var h := Home(c.shardOf, k);
    var (sh, denied) := Admit(c, s.shards[h], k, now);
    Move(s.(shards := s.shards[h := sh]), t, AfterAdmit(c, k, now, denied))
  }

  function DoCas<K(==, !new)>(c: Config<K>, s: State<K>, t: nat, k: K, now: real, seen: int, spurious: bool): State<K> {
    if seen >= c.maxGlobal then Move(s, t, Resting(Some(GlobalConnections)))
    else if s.globalActive == seen && !spurious then
      Move(s.(globalActive := seen + 1), t, Reserved(k, now))
    else Move(s, t, AtGlobal(k, now, Some(s.globalActive)))
  }

  function DoCharge<K(==, !new)>(s: State<K>, t: nat, k: K, now: real): State<K> {
    if s.shared.None? then Move(s, t, Charged(k, now))
    else
      var (b, ok) := Serve(s.shared.value, now);
      if ok then Move(s.(shared := Some(b), spent := s.spent + 1), t, Charged(k, now))
      else Move(s.(shared := Some(b)), t, Undoing(k))
  }

  function DoGrant<K(==, !new)>(c: Config<K>, s: State<K>, t: nat, k: K, now: real): State<K>
    requires |s.shards| == SHARDS
  {
    var h := Home(c.shardOf, k);
    var e := EntryFor(c, s.shards[h], k, now);
    Move(PutEntry(s, h, k, Granted(c, e, now)).(granted := s.granted + 1), t, Holding(k))
  }

  function DoReleaseKey<K(==, !new)>(c: Config<K>, s: State<K>, t: nat, k: K, now: real): State<K>
    requires |s.shards| == SHARDS
  {
    var h := Home(c.shardOf, k);
    var s' := if k in s.shards[h].entries then PutEntry(s, h, k, Released(s.shards[h].entries[k], now)) else s;
    Move(s', t, Resting(None))
  }

  function DoDecrement<K(==, !new)>(c: Config<K>, s: State<K>, t: nat, pc: Pc<K>): State<K> {
    Move(s.(globalActive := if c.maxGlobal > 0 then s.globalActive - 1 else s.globalActive), t, pc)
  }

  function Do<K(==, !new)>(c: Config<K>, s: State<K>, t: nat, a: Action<K>): State<K>
    requires |s.shards| == SHARDS
  {
    match (a, At(s.pcs, t))
    case (Begin(k, now), Resting(_)) => DoBegin(s, t, k, now)
    case (LookActive, Peeked(k, now)) => DoLookActive(c, s, t, k, now)
    case (Lock, Entering(k, now)) => DoLock(c, s, t, k, now)
    case (Load, AtGlobal(k, now, _)) => Move(s, t, AtGlobal(k, now, Some(s.globalActive)))
    case (Cas(spurious), AtGlobal(k, now, Some(seen))) => DoCas(c, s, t, k, now, seen, spurious)
    case (Charge, Reserved(k, now)) => DoCharge(s, t, k, now)
    case (Grant, Charged(k, now)) => DoGrant(c, s, t, k, now)
    case (Undo, Undoing(_)) => DoDecrement(c, s, t, Resting(Some(GlobalRate)))
    case (ReleaseGlobal, Holding(k)) => DoDecrement(c, s, t, Releasing(k))
    case (ReleaseKey(now), Releasing(k)) => DoReleaseKey(c, s, t, k, now)
    case _ => s
  }

  // ---- counting threads ----

  /** An action moves only its own thread. */
  lemma OnlyMover<K(!new)>(c: Config<K>, s: State<K>, t: nat, a: Action<K>)
    requires |s.shards| == SHARDS && Enabled(c, s, t, a)
    ensures forall u: nat | u != t :: At(Do(c, s, t, a).pcs, u) == At(s.pcs, u)
  {
  }

  datatype Role<K> = Occupying | PastCas | Leaving | Paid | OnKey(key: K)

  predicate Plays<K(==)>(r: Role<K>, pc: Pc<K>) {
    match r
    case Occupying => pc.Reserved? || pc.Charged? || pc.Undoing? || pc.Holding?
    case PastCas => pc.Reserved? || pc.Charged? || pc.Undoing?
    case Leaving => pc.Releasing?
    case Paid => pc.Charged?
    case OnKey(k) => (pc.Holding? || pc.Releasing?) && pc.key == k
  }

  ghost function Players<K(!new)>(pcs: map<nat, Pc<K>>, r: Role<K>): set<nat> {
    set t | t in pcs && Plays(r, pcs[t])
  }

  ghost function Count<K(!new)>(pcs: map<nat, Pc<K>>, r: Role<K>): nat { |Players(pcs, r)| }

  function One(b: bool): nat { if b then 1 else 0 }

  lemma SizeWithout(s: set<nat>, t: nat)
    ensures |s| == |s - {t}| + One(t in s)
  {
    if t !in s { assert s - {t} == s; }
  }

  lemma RestingPlaysNothing<K>(r: Role<K>)
    ensures !Plays(r, Resting(None))
  {
  }

  lemma CountMove<K(!new)>(pcs: map<nat, Pc<K>>, t: nat, pc: Pc<K>, r: Role<K>)
    ensures Count(pcs[t := pc], r) + One(Plays(r, At(pcs, t))) == Count(pcs, r) + One(Plays(r, pc))
  {
    hide Plays;
    var was, nowIn := Players(pcs, r), Players(pcs[t := pc], r);
    RestingPlaysNothing(r);
    assert was - {t} == nowIn - {t};
    assert t in was <==> Plays(r, At(pcs, t));
    assert t in nowIn <==> Plays(r, pc);
    SizeWithout(was, t);
    SizeWithout(nowIn, t);
  }

  lemma CountPositive<K(!new)>(pcs: map<nat, Pc<K>>, t: nat, r: Role<K>)
    requires t in pcs && Plays(r, pcs[t])
    ensures Count(pcs, r) >= 1
  {
    assert t in Players(pcs, r);
  }

  // ---- summing the active counts ----

  ghost function Sum<K(!new)>(m: map<K, Entry>): nat {
    if m == map[] then 0
    else
      var k :| k in m;
      m[k].active + Sum(m - {k})
  }

  lemma {:induction false} SumTake<K(!new)>(m: map<K, Entry>, k: K)
    requires k in m
    ensures Sum(m) == m[k].active + Sum(m - {k})
  {
    var p :| p in m && Sum(m) == m[p].active + Sum(m - {p});
    if p != k {
      SumTake(m - {p}, k);
      SumTake(m - {k}, p);
      assert m - {p} - {k} == m - {k} - {p};
    }
  }

  lemma SumPut<K(!new)>(m: map<K, Entry>, k: K, e: Entry)
    ensures Sum(m[k := e]) + (if k in m then m[k].active else 0) == Sum(m) + e.active
  {
    SumTake(m[k := e], k);
    assert m[k := e] - {k} == m - {k};
    if k in m { SumTake(m, k); } else { assert m - {k} == m; }
  }

  ghost function Total<K(!new)>(shards: seq<Shard<K, Entry>>): nat {
    if shards == [] then 0 else Sum(shards[0].entries) + Total(shards[1..])
  }

  lemma {:induction false} TotalSet<K(!new)>(shards: seq<Shard<K, Entry>>, h: nat, sh: Shard<K, Entry>)
    requires h < |shards|
    ensures Total(shards[h := sh]) + Sum(shards[h].entries) == Total(shards) + Sum(sh.entries)
  {
    if h == 0 {
      assert shards[h := sh][1..] == shards[1..];
    } else {
      assert shards[h := sh][1..] == shards[1..][h - 1 := sh];
      TotalSet(shards[1..], h - 1, sh);
    }
  }

  // ---- the invariant ----

  function ActiveIn<K(==)>(m: map<K, Entry>, k: K): nat { if k in m then m[k].active else 0 }

  ghost predicate EntryOk<K>(c: Config<K>, e: Entry) {
    e.bucket.Ok() && (KeyLimit(c) > 0 ==> e.active <= KeyLimit(c))
  }

  ghost predicate ShardOk<K(!new)>(c: Config<K>, sh: Shard<K, Entry>) {
    && sh.Valid() && |sh.entries| <= ShardCapacity(c.maxTracked)
    && forall k | k in sh.entries :: EntryOk(c, sh.entries[k])
  }

  ghost predicate ShardsOk<K(!new)>(c: Config<K>, s: State<K>) {
    && |s.shards| == SHARDS
    && (forall h | 0 <= h < SHARDS :: ShardOk(c, s.shards[h]))
    && (s.shared.Some? ==> s.shared.value.Ok())
  }

  /** What a thread inside its locked region relies on: the entry is there, below its cap and,
      if connects are rated, with a token to spend. */
  ghost predicate Ready<K(!new)>(c: Config<K>, sh: Shard<K, Entry>, k: K) {
    && k in sh.entries && !Full(c, sh.entries[k])
    && (c.rate > 0.0 ==> sh.entries[k].bucket.tokens >= 1.0)
  }

  ghost predicate LocksOk<K(!new)>(c: Config<K>, s: State<K>)
    requires |s.shards| == SHARDS
  {
    && (forall t | t in s.pcs && Locking(s.pcs[t]) :: Ready(c, s.shards[Home(c.shardOf, s.pcs[t].key)], s.pcs[t].key))
    && (forall t, u | t in s.pcs && u in s.pcs && t != u && Locking(s.pcs[t]) && Locking(s.pcs[u]) ::
          Home(c.shardOf, s.pcs[t].key) != Home(c.shardOf, s.pcs[u].key))
  }

  ghost predicate CountsOk<K(!new)>(c: Config<K>, s: State<K>)
    requires |s.shards| == SHARDS
  {
    forall k :: ActiveIn(s.shards[Home(c.shardOf, k)].entries, k) == Count(s.pcs, OnKey(k))
  }

  ghost predicate CounterOk<K(!new)>(c: Config<K>, s: State<K>) {
    c.maxGlobal > 0 ==>
      && s.globalActive == Total(s.shards) + Count(s.pcs, PastCas) - Count(s.pcs, Leaving)
      && s.globalActive == Count(s.pcs, Occupying)
      && s.globalActive <= c.maxGlobal
  }

  ghost predicate MoneyOk<K(!new)>(s: State<K>) {
    s.shared.Some? ==> s.spent == s.granted + Count(s.pcs, Paid)
  }

  ghost predicate Inv<K(!new)>(c: Config<K>, s: State<K>) {
    ShardsOk(c, s) && LocksOk(c, s) && CountsOk(c, s) && CounterOk(c, s) && MoneyOk(s)
  }

  // ---- the locked region ----

  /** Nothing about the active counts changes when room is made or an entry is looked up: only
      inactive entries are evicted. */
  ghost predicate SameActive<K(!new)>(a: Shard<K, Entry>, b: Shard<K, Entry>) {
    && Sum(a.entries) == Sum(b.entries)
    && forall x :: ActiveIn(a.entries, x) == ActiveIn(b.entries, x)
  }

  lemma ScanActive<K(!new)>(c: Config<K>, sh: Shard<K, Entry>, evict: Entry -> bool)
    requires ShardOk(c, sh) && forall e | evict(e) :: e.active == 0
    ensures ShardOk(c, Scan(sh, evict)) && SameActive(sh, Scan(sh, evict))
    ensures Scan(sh, evict).entries.Keys <= sh.entries.Keys
  {
    ScanKeeps(sh, evict);
    var h := Hit(sh, evict);
    if h < ScanLength(sh) { SumTake(sh.entries, sh.order[h]); }
  }

  lemma RoomActive<K(!new)>(c: Config<K>, sh: Shard<K, Entry>, now: real)
    requires ShardOk(c, sh)
    ensures var (sh1, room) := MakeRoomTwice(c, sh, now);
      && ShardOk(c, sh1) && SameActive(sh, sh1) && sh1.entries.Keys <= sh.entries.Keys
      && (room ==> |sh1.entries| < ShardCapacity(c.maxTracked))
  {
    var idle := (e: Entry) => Idle(c, e, now);
    var inactive := (e: Entry) => e.active == 0;
    ScanActive(c, sh, idle);
    var s1 := MakeRoom(sh, ShardCapacity(c.maxTracked), idle).0;
    ScanActive(c, s1, inactive);
    hide Scan, Hit, ShardOk, SameActive;
    SameActiveBoth(sh, s1, Scan(s1, inactive));
  }

  lemma SameActiveBoth<K(!new)>(x: Shard<K, Entry>, y: Shard<K, Entry>, z: Shard<K, Entry>)
    requires SameActive(x, y) && SameActive(y, z)
    ensures SameActive(x, z)
  {
  }

  lemma PutSameActive<K(!new)>(c: Config<K>, sh: Shard<K, Entry>, k: K, e: Entry)
    requires ShardOk(c, sh) && EntryOk(c, e)
    requires k in sh.entries || |sh.entries| < ShardCapacity(c.maxTracked)
    ensures ShardOk(c, sh.Put(k, e))
    ensures Sum(sh.Put(k, e).entries) + ActiveIn(sh.entries, k) == Sum(sh.entries) + e.active
    ensures forall x :: x != k ==> ActiveIn(sh.Put(k, e).entries, x) == ActiveIn(sh.entries, x)
  {
    PutValid(sh, k, e);
    SumPut(sh.entries, k, e);
    assert sh.Put(k, e).entries.Keys == sh.entries.Keys + {k};
  }

  lemma CheckEntryFacts<K>(c: Config<K>, e: Entry, now: real)
    requires EntryOk(c, e)
    ensures var (r, denied) := CheckEntry(c, e, now);
      && EntryOk(c, r) && r.active == e.active
      && (denied.None? ==> !Full(c, r) && (c.rate > 0.0 ==> r.bucket.tokens >= 1.0))
  {
    RefillOk(e.bucket, now);
  }

  lemma AdmitFacts<K(!new)>(c: Config<K>, sh: Shard<K, Entry>, k: K, now: real)
    requires ShardOk(c, sh)
    ensures var (sh', denied) := Admit(c, sh, k, now);
      && ShardOk(c, sh') && SameActive(sh, sh')
      && (denied.None? ==> Ready(c, sh', k))
  {
    if k in sh.entries {
      LookupFacts(c, sh, k, now);
    } else {
      var (sh1, room) := MakeRoomTwice(c, sh, now);
      RoomActive(c, sh, now);
      if room { LookupFacts(c, sh1, k, now); }
    }
  }

  lemma LookupFacts<K(!new)>(c: Config<K>, sh: Shard<K, Entry>, k: K, now: real)
    requires ShardOk(c, sh) && (k in sh.entries || |sh.entries| < ShardCapacity(c.maxTracked))
    ensures var (e, denied) := CheckEntry(c, EntryFor(c, sh, k, now), now);
      && ShardOk(c, sh.Put(k, e)) && SameActive(sh, sh.Put(k, e))
      && (denied.None? ==> Ready(c, sh.Put(k, e), k))
  {
    var e := EntryFor(c, sh, k, now);
    CheckEntryFacts(c, e, now);
    PutSameActive(c, sh, k, CheckEntry(c, e, now).0);
  }

  // ---- every action keeps the invariant ----

  /** An action that changes only the counter, the shared bucket and the thread's place. */
  lemma MoveKeeps<K(!new)>(c: Config<K>, s: State<K>, s': State<K>, t: nat, pc: Pc<K>)
    requires ShardsOk(c, s) && LocksOk(c, s) && CountsOk(c, s)
    requires s'.shards == s.shards && s'.pcs == s.pcs[t := pc]
    requires s'.shared.Some? ==> s'.shared.value.Ok()
    requires Locking(pc) ==> Locking(At(s.pcs, t)) && pc.key == At(s.pcs, t).key
    requires forall k :: Plays(OnKey(k), pc) == Plays(OnKey(k), At(s.pcs, t))
    ensures ShardsOk(c, s') && LocksOk(c, s') && CountsOk(c, s')
  {
    forall k ensures ActiveIn(s'.shards[Home(c.shardOf, k)].entries, k) == Count(s'.pcs, OnKey(k)) {
      CountMove(s.pcs, t, pc, OnKey(k));
    }
  }

  /** The locks still protect their entries when a thread with no rival on shard `h` changes it. */
  lemma LocksKept<K(!new)>(c: Config<K>, s: State<K>, s': State<K>, t: nat, h: nat, sh: Shard<K, Entry>, pc: Pc<K>)
    requires |s.shards| == SHARDS && LocksOk(c, s) && h < SHARDS
    requires s'.shards == s.shards[h := sh] && s'.pcs == s.pcs[t := pc]
    requires forall u | u in s.pcs && u != t && Locking(s.pcs[u]) :: Home(c.shardOf, s.pcs[u].key) != h
    requires Locking(pc) ==> Home(c.shardOf, pc.key) == h && Ready(c, sh, pc.key)
    ensures LocksOk(c, s')
  {
  }

  /** Actions outside the entry table change only the counter, the shared bucket and the place of
      their thread, and put no thread on or off a key. */
  lemma PlainMoves<K(!new)>(c: Config<K>, s: State<K>, t: nat, a: Action<K>)
    requires |s.shards| == SHARDS && Enabled(c, s, t, a) && (s.shared.Some? ==> s.shared.value.Ok())
    requires !a.Lock? && !a.Grant? && !a.ReleaseKey?
    ensures var s' := Do(c, s, t, a);
      && s'.shards == s.shards && t in s'.pcs && s'.pcs == s.pcs[t := s'.pcs[t]]
      && (s'.shared.Some? ==> s'.shared.value.Ok())
      && (Locking(s'.pcs[t]) ==> Locking(At(s.pcs, t)) && s'.pcs[t].key == At(s.pcs, t).key)
      && forall k :: Plays(OnKey(k), s'.pcs[t]) == Plays(OnKey(k), At(s.pcs, t))
  {
    hide Serve, Refill, Unlocked;
    if s.shared.Some? {
      if a.Begin? { RefillOk(s.shared.value, a.now); }
      if a.Charge? { ServeOk(s.shared.value, At(s.pcs, t).now); }
    }
  }

  lemma PlainActions<K(!new)>(c: Config<K>, s: State<K>, t: nat, a: Action<K>)
    requires ShardsOk(c, s) && LocksOk(c, s) && CountsOk(c, s) && Enabled(c, s, t, a)
    requires !a.Lock? && !a.Grant? && !a.ReleaseKey?
    ensures var s' := Do(c, s, t, a); ShardsOk(c, s') && LocksOk(c, s') && CountsOk(c, s')
  {
    hide Do, Enabled, ShardOk, LocksOk, CountsOk, Plays, Locking;
    var s' := Do(c, s, t, a);
    PlainMoves(c, s, t, a);
    MoveKeeps(c, s, s', t, s'.pcs[t]);
  }

  lemma LockAction<K(!new)>(c: Config<K>, s: State<K>, t: nat, k: K, now: real)
    requires ShardsOk(c, s) && LocksOk(c, s) && CountsOk(c, s)
    requires At(s.pcs, t) == Entering(k, now) && Unlocked(c, s.pcs, Home(c.shardOf, k))
    ensures var s' := DoLock(c, s, t, k, now);
      ShardsOk(c, s') && LocksOk(c, s') && CountsOk(c, s') && Total(s'.shards) == Total(s.shards)
  {
    var h := Home(c.shardOf, k);
    var s' := DoLock(c, s, t, k, now);
    var (sh, denied) := Admit(c, s.shards[h], k, now);
    AdmitFacts(c, s.shards[h], k, now);
    LocksKept(c, s, s', t, h, sh, AfterAdmit(c, k, now, denied));
    SameCounts(c, s, s', t, h, sh, AfterAdmit(c, k, now, denied));
  }

  lemma SameCounts<K(!new)>(c: Config<K>, s: State<K>, s': State<K>, t: nat, h: nat, sh: Shard<K, Entry>, pc: Pc<K>)
    requires |s.shards| == SHARDS && h < SHARDS && CountsOk(c, s) && SameActive(s.shards[h], sh)
    requires s'.shards == s.shards[h := sh] && s'.pcs == s.pcs[t := pc]
    requires !pc.Holding? && !pc.Releasing? && !At(s.pcs, t).Holding? && !At(s.pcs, t).Releasing?
    ensures CountsOk(c, s') && Total(s'.shards) == Total(s.shards)
  {
    TotalSet(s.shards, h, sh);
    forall x ensures ActiveIn(s'.shards[Home(c.shardOf, x)].entries, x) == Count(s'.pcs, OnKey(x)) {
      CountMove(s.pcs, t, pc, OnKey(x));
    }
  }

  /** Replacing the entry of `k` while moving a thread on or off it keeps every active count the
      number of threads on its key. */
  lemma EntryCounts<K(!new)>(c: Config<K>, s: State<K>, s': State<K>, t: nat, k: K, e: Entry, pc: Pc<K>)
    requires ShardsOk(c, s) && CountsOk(c, s)
    requires var h := Home(c.shardOf, k);
      && k in s.shards[h].entries && EntryOk(c, e)
      && s'.shards == s.shards[h := s.shards[h].Put(k, e)] && s'.pcs == s.pcs[t := pc]
    requires s'.shared == s.shared
    requires e.active + One(Plays(OnKey(k), At(s.pcs, t)))
             == s.shards[Home(c.shardOf, k)].entries[k].active + One(Plays(OnKey(k), pc))
    requires forall x :: x != k ==> Plays(OnKey(x), pc) == Plays(OnKey(x), At(s.pcs, t))
    ensures ShardsOk(c, s') && CountsOk(c, s')
    ensures Total(s'.shards) + s.shards[Home(c.shardOf, k)].entries[k].active == Total(s.shards) + e.active
  {
    hide Plays, Count, Total;
    var h := Home(c.shardOf, k);
    PutSameActive(c, s.shards[h], k, e);
    TotalSet(s.shards, h, s'.shards[h]);
    forall x ensures ActiveIn(s'.shards[Home(c.shardOf, x)].entries, x) == Count(s'.pcs, OnKey(x)) {
      CountMove(s.pcs, t, pc, OnKey(x));
    }
  }

  lemma GrantAction<K(!new)>(c: Config<K>, s: State<K>, t: nat)
    requires ShardsOk(c, s) && LocksOk(c, s) && CountsOk(c, s) && Enabled(c, s, t, Grant)
    ensures var s' := Do(c, s, t, Grant);
      ShardsOk(c, s') && LocksOk(c, s') && CountsOk(c, s') && Total(s'.shards) == Total(s.shards) + 1
  {
    hide CountsOk, Total, Count;
    var s' := Do(c, s, t, Grant);
    var Charged(k, now) := At(s.pcs, t);
    var h := Home(c.shardOf, k);
    assert Ready(c, s.shards[h], k);
    var e' := Granted(c, s.shards[h].entries[k], now);
    EntryCounts(c, s, s', t, k, e', Holding(k));
    LocksKept(c, s, s', t, h, s.shards[h].Put(k, e'), Holding(k));
  }

  /** A release always finds its entry, and finds it active. */
  lemma ReleaseFindsEntry<K(!new)>(c: Config<K>, s: State<K>, t: nat)
    requires |s.shards| == SHARDS && CountsOk(c, s) && (At(s.pcs, t).Releasing? || At(s.pcs, t).Holding?)
    ensures var k := s.pcs[t].key;
      k in s.shards[Home(c.shardOf, k)].entries && s.shards[Home(c.shardOf, k)].entries[k].active >= 1
  {
    CountPositive(s.pcs, t, OnKey(s.pcs[t].key));
  }

  lemma ReleaseAction<K(!new)>(c: Config<K>, s: State<K>, t: nat, now: real)
    requires ShardsOk(c, s) && LocksOk(c, s) && CountsOk(c, s) && Enabled(c, s, t, ReleaseKey(now))
    ensures var s' := Do(c, s, t, ReleaseKey(now));
      ShardsOk(c, s') && LocksOk(c, s') && CountsOk(c, s') && Total(s'.shards) == Total(s.shards) - 1
  {
    var s' := Do(c, s, t, ReleaseKey(now));
    var Releasing(k) := At(s.pcs, t);
    var h := Home(c.shardOf, k);
    ReleaseFindsEntry(c, s, t);
    var e' := Released(s.shards[h].entries[k], now);
    EntryCounts(c, s, s', t, k, e', Resting(None));
    LocksKept(c, s, s', t, h, s.shards[h].Put(k, e'), Resting(None));
  }

  /** What an action does to the sum of active counts. */
  function Added<K>(a: Action<K>): int { if a.Grant? then 1 else if a.ReleaseKey? then -1 else 0 }

  lemma ShardParts<K(!new)>(c: Config<K>, s: State<K>, t: nat, a: Action<K>)
    requires ShardsOk(c, s) && LocksOk(c, s) && CountsOk(c, s) && Enabled(c, s, t, a)
    ensures var s' := Do(c, s, t, a);
      ShardsOk(c, s') && LocksOk(c, s') && CountsOk(c, s') && Total(s'.shards) == Total(s.shards) + Added(a)
  {
    hide ShardOk, LocksOk, CountsOk, Total;
    match a
    case Lock => LockAction(c, s, t, At(s.pcs, t).key, At(s.pcs, t).now);
    case Grant => GrantAction(c, s, t);
    case ReleaseKey(now) => ReleaseAction(c, s, t, now);
    case _ => PlainActions(c, s, t, a);
  }

  lemma CounterMove<K(!new)>(c: Config<K>, s: State<K>, s': State<K>, t: nat, pc: Pc<K>)
    requires CounterOk(c, s) && s'.pcs == s.pcs[t := pc]
    requires c.maxGlobal > 0 ==>
      var was := At(s.pcs, t);
      && s'.globalActive - s.globalActive == One(Plays(Occupying, pc)) - One(Plays(Occupying, was))
      && s'.globalActive - s.globalActive == Total(s'.shards) - Total(s.shards)
         + One(Plays(PastCas, pc)) - One(Plays(PastCas, was))
         - One(Plays(Leaving, pc)) + One(Plays(Leaving, was))
      && s'.globalActive <= c.maxGlobal
    ensures CounterOk(c, s')
  {
    CountMove(s.pcs, t, pc, Occupying);
    CountMove(s.pcs, t, pc, PastCas);
    CountMove(s.pcs, t, pc, Leaving);
  }

  lemma CounterParts<K(!new)>(c: Config<K>, s: State<K>, t: nat, a: Action<K>)
    requires |s.shards| == SHARDS && CounterOk(c, s) && Enabled(c, s, t, a)
    requires Total(Do(c, s, t, a).shards) == Total(s.shards) + Added(a)
    ensures CounterOk(c, Do(c, s, t, a))
  {
    var s' := Do(c, s, t, a);
    CounterMove(c, s, s', t, s'.pcs[t]);
  }

  lemma MoneyParts<K(!new)>(c: Config<K>, s: State<K>, t: nat, a: Action<K>)
    requires |s.shards| == SHARDS && MoneyOk(s) && Enabled(c, s, t, a)
    ensures MoneyOk(Do(c, s, t, a))
  {
    CountMove(s.pcs, t, Do(c, s, t, a).pcs[t], Paid);
  }

  lemma ActionKeeps<K(!new)>(c: Config<K>, s: State<K>, t: nat, a: Action<K>)
    requires Inv(c, s) && Enabled(c, s, t, a)
    ensures Inv(c, Do(c, s, t, a))
  {
    ShardParts(c, s, t, a);
    CounterParts(c, s, t, a);
    MoneyParts(c, s, t, a);
  }

  // ---- runs ----

  function Start<K(==, !new)>(shared: Option<Bucket>): State<K> {
    State(0, shared, seq(SHARDS, _ => Shard(map[], [])), map[], 0, 0)
  }

  lemma {:induction false} EmptyTotal<K(!new)>(shards: seq<Shard<K, Entry>>)
    requires forall h | 0 <= h < |shards| :: shards[h].entries == map[]
    ensures Total(shards) == 0
  {
    if shards != [] { EmptyTotal(shards[1..]); }
  }

  lemma StartInv<K(!new)>(c: Config<K>, shared: Option<Bucket>)
    requires shared.Some? ==> shared.value.Ok()
    ensures Inv(c, Start(shared))
  {
    var s: State<K> := Start(shared);
    EmptyTotal(s.shards);
    assert forall r: Role<K> :: Players(s.pcs, r) == {};
  }

  datatype Turn<K> = Turn(thread: nat, action: Action<K>)

  ghost predicate Legal<K(!new)>(c: Config<K>, s: State<K>, run: seq<Turn<K>>)
    requires |s.shards| == SHARDS
    decreases run
  {
    run != [] ==>
      && Enabled(c, s, run[0].thread, run[0].action)
      && Legal(c, Do(c, s, run[0].thread, run[0].action), run[1..])
  }

  ghost function After<K(!new)>(c: Config<K>, s: State<K>, run: seq<Turn<K>>): (s': State<K>)
    requires |s.shards| == SHARDS
    ensures |s'.shards| == SHARDS
    decreases run
  {
    if run == [] then s else After(c, Do(c, s, run[0].thread, run[0].action), run[1..])
  }

  lemma {:induction false} RunKeeps<K(!new)>(c: Config<K>, s: State<K>, run: seq<Turn<K>>)
    requires Inv(c, s) && Legal(c, s, run)
    ensures Inv(c, After(c, s, run))
    decreases run
  {
    if run != [] {
      ActionKeeps(c, s, run[0].thread, run[0].action);
      RunKeeps(c, Do(c, s, run[0].thread, run[0].action), run[1..]);
    }
  }

  /** In every reachable state the shards together hold at most the configured limit plus 63 keys, and
      every queue is a duplicate-free permutation of its shard's keys. */
  lemma RunTracksBoundedKeys<K(!new)>(c: Config<K>, shared: Option<Bucket>, run: seq<Turn<K>>)
    requires c.maxTracked > 0 && (shared.Some? ==> shared.value.Ok()) && Legal(c, Start(shared), run)
    ensures var shards := After(c, Start(shared), run).shards;
      |shards| == 64 && SizeSum(shards) <= c.maxTracked + 63 && forall h | 0 <= h < SHARDS :: shards[h].Valid()
  {
    StartInv(c, shared);
    RunKeeps(c, Start(shared), run);
    hide After, Legal, CountsOk, LocksOk, CounterOk, MoneyOk;
    TrackedKeysBound(After(c, Start(shared), run).shards, c.maxTracked);
  }

  /** Threads that hold a permit. */
  ghost function Live<K(!new)>(pcs: map<nat, Pc<K>>): set<nat> { set t | t in pcs && pcs[t].Holding? }

  ghost function LiveOn<K(!new)>(pcs: map<nat, Pc<K>>, k: K): set<nat> {
    set t | t in pcs && pcs[t] == Holding(k)
  }

  /** What every interleaving guarantees: the counter accounts exactly for the active counts and
      the threads between the two halves of an acquire or a release, never goes negative or above
      the cap, and live permits stay within the global and per-key caps. */
  lemma PermitCaps<K(!new)>(c: Config<K>, shared: Option<Bucket>, run: seq<Turn<K>>, k: K)
    requires (shared.Some? ==> shared.value.Ok()) && Legal(c, Start(shared), run)
    ensures var s := After(c, Start(shared), run);
      && (c.maxGlobal > 0 ==>
            && s.globalActive == Total(s.shards) + Count(s.pcs, PastCas) - Count(s.pcs, Leaving)
            && 0 <= s.globalActive <= c.maxGlobal
            && |Live(s.pcs)| <= c.maxGlobal)
      && (c.perKey > 0 ==> |LiveOn(s.pcs, k)| <= c.perKey)
      && (c.perKey == 0 && c.kind == Tcp ==> |LiveOn(s.pcs, k)| <= 1)
  {
    StartInv(c, shared);
    RunKeeps(c, Start(shared), run);
    var s := After(c, Start(shared), run);
    SubsetSize(Live(s.pcs), Players(s.pcs, Occupying));
    SubsetSize(LiveOn(s.pcs, k), Players(s.pcs, OnKey(k)));
    var m := s.shards[Home(c.shardOf, k)].entries;
    assert ActiveIn(m, k) == Count(s.pcs, OnKey(k));
    assert k in m ==> EntryOk(c, m[k]);
  }

  /** An entry with a live or departing permit is never evicted, so the missing-entry and
      saturating branches of `release` are never taken. */
  lemma PermitEntryKept<K(!new)>(c: Config<K>, shared: Option<Bucket>, run: seq<Turn<K>>, t: nat)
    requires (shared.Some? ==> shared.value.Ok()) && Legal(c, Start(shared), run)
    requires var pc := At(After(c, Start(shared), run).pcs, t); pc.Holding? || pc.Releasing?
    ensures var s := After(c, Start(shared), run);
      var m := s.shards[Home(c.shardOf, s.pcs[t].key)].entries;
      s.pcs[t].key in m && m[s.pcs[t].key].active >= 1
  {
    StartInv(c, shared);
    RunKeeps(c, Start(shared), run);
    ReleaseFindsEntry(c, After(c, Start(shared), run), t);
  }

  /** Tokens of the shared bucket are conserved: every token ever taken belongs to a granted
      permit or to a thread about to be granted one, and the bucket stays within its bounds. */
  lemma SharedTokensConserved<K(!new)>(c: Config<K>, shared: Option<Bucket>, run: seq<Turn<K>>)
    requires (shared.Some? ==> shared.value.Ok()) && Legal(c, Start(shared), run)
    ensures var s := After(c, Start(shared), run);
      s.shared.Some? ==> s.spent == s.granted + Count(s.pcs, Paid) && s.shared.value.Ok()
  {
    StartInv(c, shared);
    RunKeeps(c, Start(shared), run);
  }

  /** A key's connect bucket loses one token exactly when a permit is granted on it, had that
      token, and is otherwise at most refilled, whatever the action and whoever performs it. */
  lemma KeyTokensConserved<K(!new)>(c: Config<K>, s: State<K>, t: nat, a: Action<K>, x: K)
    requires Inv(c, s) && Enabled(c, s, t, a)
    requires x in s.shards[Home(c.shardOf, x)].entries && x in Do(c, s, t, a).shards[Home(c.shardOf, x)].entries
    ensures var pc := At(s.pcs, t);
      var b, b' := s.shards[Home(c.shardOf, x)].entries[x].bucket,
          Do(c, s, t, a).shards[Home(c.shardOf, x)].entries[x].bucket;
      if a.Grant? && pc.key == x && c.rate > 0.0 then b' == Spend(b) && b.tokens >= 1.0
      else b' == b || (a.Lock? && pc.key == x && b' == Refill(b, pc.now))
  {
    var h, pc := Home(c.shardOf, x), At(s.pcs, t);
    if a.Lock? {
      if Home(c.shardOf, pc.key) == h { AdmitEntry(c, s.shards[h], pc.key, pc.now, x); }
      hide Admit, Refill, Unlocked, ShardOk, CountsOk, LocksOk, CounterOk, MoneyOk;
    } else {
      assert a.Grant? ==> Ready(c, s.shards[Home(c.shardOf, pc.key)], pc.key);
      hide Admit, Refill, Fresh, Unlocked, CountsOk, LocksOk, CounterOk, MoneyOk, ShardOk;
    }
  }

  /** The locked checks at most refill the bucket of their key, touch no other entry that stays, and add
      none but that of their key. */
  lemma AdmitEntry<K(!new)>(c: Config<K>, sh: Shard<K, Entry>, k: K, now: real, x: K)
    requires ShardOk(c, sh) && x in Admit(c, sh, k, now).0.entries
    ensures var e := Admit(c, sh, k, now).0.entries[x];
      if x in sh.entries then
        e == sh.entries[x] || (x == k && e == sh.entries[x].(bucket := Refill(sh.entries[x].bucket, now)))
      else x == k && e.lastSeen == now
  {
    if k !in sh.entries { RoomKeepsEntries(c, sh, now); }
    hide MakeRoomTwice, Refill, Fresh;
  }

  lemma RoomKeepsEntries<K(!new)>(c: Config<K>, sh: Shard<K, Entry>, now: real)
    requires ShardOk(c, sh)
    ensures var sh1 := MakeRoomTwice(c, sh, now).0;
      forall x | x in sh1.entries :: x in sh.entries && sh1.entries[x] == sh.entries[x]
  {
    var idle := (e: Entry) => Idle(c, e, now);
    ScanKeeps(sh, idle);
    ScanKeeps(MakeRoom(sh, ShardCapacity(c.maxTracked), idle).0, (e: Entry) => e.active == 0);
  }

  /** When every thread is at rest nothing is held: counter and active counts are back to zero. */
  lemma QuietMeansEmpty<K(!new)>(c: Config<K>, s: State<K>, k: K)
    requires Inv(c, s) && forall t | t in s.pcs :: s.pcs[t].Resting?
    ensures (c.maxGlobal > 0 ==> s.globalActive == 0 && Total(s.shards) == 0)
    ensures ActiveIn(s.shards[Home(c.shardOf, k)].entries, k) == 0
    ensures s.shared.Some? ==> s.spent == s.granted
  {
    assert forall r: Role<K> :: Players(s.pcs, r) == {};
  }

  // ---- denials ----

  /** The key that making room in a shard would evict: the first idle one the scan inspects, or
      without one the first inactive one of a second scan. */
  function Victim<K(==, !new)>(c: Config<K>, sh: Shard<K, Entry>, now: real): Option<K> {
    var idle := (e: Entry) => Idle(c, e, now);
    if |sh.entries| < ShardCapacity(c.maxTracked) then None
    else if Hit(sh, idle) < ScanLength(sh) then Some(sh.order[Hit(sh, idle)])
    else
      var inactive, rotated := (e: Entry) => e.active == 0, Scan(sh, idle);
      if Hit(rotated, inactive) < ScanLength(rotated) then Some(rotated.order[Hit(rotated, inactive)]) else None
  }

  lemma RoomEvictsVictim<K(!new)>(c: Config<K>, sh: Shard<K, Entry>, now: real)
    requires ShardOk(c, sh)
    ensures MakeRoomTwice(c, sh, now).0.entries ==
      if Victim(c, sh, now).Some? then sh.entries - {Victim(c, sh, now).value} else sh.entries
  {
    var idle := (e: Entry) => Idle(c, e, now);
    ScanKeeps(sh, idle);
    ScanKeeps(Scan(sh, idle), (e: Entry) => e.active == 0);
    hide Scan, Hit, Distinct;
  }

  /** No entry a newcomer's two scans inspect may be evicted. */
  ghost predicate NoRoom<K(!new)>(c: Config<K>, sh: Shard<K, Entry>, now: real) {
    |sh.entries| >= ShardCapacity(c.maxTracked) && Victim(c, sh, now).None?
  }

  /** Nothing is held under the key and it has not been used for two minutes: by its last permit for
      in-flight requests, by its connect bucket for connections. */
  ghost predicate LongIdle<K>(c: Config<K>, e: Entry, now: real) {
    e.active == 0 && if c.kind == Requests then now - e.lastSeen >= 120.0 else now - e.bucket.last > 120.0
  }

  ghost function LongIdleKeys<K(!new)>(c: Config<K>, sh: Shard<K, Entry>, now: real): set<K> {
    set k | k in sh.entries && LongIdle(c, sh.entries[k], now)
  }

  ghost function UnusedKeys<K(!new)>(sh: Shard<K, Entry>): set<K> {
    set k | k in sh.entries && sh.entries[k].active == 0
  }

  /** The key that goes from a full shard is the first long-idle one among the first 32 of the queue.
      Without one it is the first that holds nothing among the 32 after them, going round to the front;
      there is no room exactly when there is none of those either. */
  lemma VictimExactly<K(!new)>(c: Config<K>, sh: Shard<K, Entry>, now: real)
    requires ShardOk(c, sh) && |sh.entries| >= ShardCapacity(c.maxTracked)
    ensures var n := if |sh.order| < 32 then |sh.order| else 32; var v := Victim(c, sh, now);
      || (v.Some? && FirstIn(sh.order[..n], LongIdleKeys(c, sh, now), v))
      || (FirstIn(sh.order[..n], LongIdleKeys(c, sh, now), None)
          && FirstIn((sh.order[n..] + sh.order[..n])[..n], UnusedKeys(sh), v))
  {
    var idle, inactive := (e: Entry) => Idle(c, e, now), (e: Entry) => e.active == 0;
    var r := Scan(sh, idle);
    var first := if Hit(sh, idle) < ScanLength(sh) then Some(sh.order[Hit(sh, idle)]) else None;
    var second := if Hit(r, inactive) < ScanLength(r) then Some(r.order[Hit(r, inactive)]) else None;
    assert Victim(c, sh, now) == if first.Some? then first else second;
    HitIsFirst(sh, idle, LongIdleKeys(c, sh, now));
    if first.None? { MissThenHit(c, sh, idle, inactive); }
    hide *;
  }

  lemma MissThenHit<K(!new)>(c: Config<K>, sh: Shard<K, Entry>, idle: Entry -> bool, inactive: Entry -> bool)
    requires ShardOk(c, sh) && Hit(sh, idle) == ScanLength(sh) && forall e: Entry :: inactive(e) <==> e.active == 0
    ensures var n, r := ScanLength(sh), Scan(sh, idle);
      FirstIn((sh.order[n..] + sh.order[..n])[..n], UnusedKeys(sh),
              if Hit(r, inactive) < ScanLength(r) then Some(r.order[Hit(r, inactive)]) else None)
  {
    ScanFacts(sh, idle);
    HitIsFirst(Scan(sh, idle), inactive, UnusedKeys(sh));
    hide Scan, Hit, FirstIn, Distinct;
  }

  /** The count leaves room for one more under the configured cap: none means no cap, except for TCP
      connections, where it means one. */
  ghost predicate BelowCap<K>(c: Config<K>, active: nat) {
    && (c.perKey > 0 ==> active < c.perKey)
    && (c.perKey == 0 && c.kind == Tcp ==> active == 0)
  }

  /** What a denial for a reason says about the state it was decided in. */
  ghost predicate Justified<K(!new)>(c: Config<K>, s: State<K>, k: K, now: real, r: Reason)
    requires |s.shards| == SHARDS
  {
    var sh := s.shards[Home(c.shardOf, k)];
    match r
    case GlobalRate => s.shared.Some? && Level(s.shared.value, now) < 1.0
    case GlobalConnections =>
      || (c.maxGlobal > 0 && s.globalActive >= c.maxGlobal)
      || (k !in sh.entries && NoRoom(c, sh, now))
    case PerKeyRate => c.rate > 0.0 && Level(EntryFor(c, sh, k, now).bucket, now) < 1.0
    case PerKeyConnections => !BelowCap(c, EntryFor(c, sh, k, now).active)
  }

  /** The locked checks let a key through exactly when it has or can get an entry, its active count
      is below the cap and, if connects are rated, its bucket holds a token. A key that fails both is
      told of its count by the TCP limiter and of its rate by the others. */
  lemma AdmitExactly<K(!new)>(c: Config<K>, sh: Shard<K, Entry>, k: K, now: real)
    requires ShardOk(c, sh)
    ensures var e := EntryFor(c, sh, k, now); var denied := Admit(c, sh, k, now).1;
      && (denied.None? <==> && (k in sh.entries || !NoRoom(c, sh, now)) && BelowCap(c, e.active)
                            && (c.rate > 0.0 ==> Level(e.bucket, now) >= 1.0))
      && (denied == Some(GlobalConnections) <==> k !in sh.entries && NoRoom(c, sh, now))
      && (k in sh.entries || !NoRoom(c, sh, now) ==>
            var full, spent := !BelowCap(c, e.active), c.rate > 0.0 && Level(e.bucket, now) < 1.0;
            && (denied == Some(PerKeyConnections) <==> full && (c.kind == Tcp || !spent))
            && (denied == Some(PerKeyRate) <==> spent && (c.kind != Tcp || !full)))
      && denied != Some(GlobalRate)
  {
    hide MakeRoomTwice, Victim, Refill, Fresh;
    if k !in sh.entries {
      RoomUnlessNone(c, sh, now);
      RoomEvictsVictim(c, sh, now);
    }
  }

  lemma RoomUnlessNone<K(!new)>(c: Config<K>, sh: Shard<K, Entry>, now: real)
    requires ShardOk(c, sh)
    ensures MakeRoomTwice(c, sh, now).1 <==> !NoRoom(c, sh, now)
  {
    hide Hit, Idle;
    var idle := (e: Entry) => Idle(c, e, now);
    ScanKeeps(sh, idle);
    ScanKeeps(Scan(sh, idle), (e: Entry) => e.active == 0);
  }

  /** The entry a key has after an action shows the time of the grant or release it was, or the time of
      its creation; any other entry keeps the time it showed. */
  lemma LastSeenStep<K(!new)>(c: Config<K>, s: State<K>, t: nat, a: Action<K>, x: K)
    requires |s.shards| == SHARDS && ShardOk(c, s.shards[Home(c.shardOf, x)]) && Enabled(c, s, t, a)
    requires x in Do(c, s, t, a).shards[Home(c.shardOf, x)].entries
    ensures var h, pc := Home(c.shardOf, x), At(s.pcs, t); var seen := Do(c, s, t, a).shards[h].entries[x].lastSeen;
      if a.Grant? && pc.key == x then seen == pc.now
      else if a.ReleaseKey? && pc.key == x then seen == a.now
      else if x in s.shards[h].entries then seen == s.shards[h].entries[x].lastSeen
      else a.Lock? && pc.key == x && seen == pc.now
  {
    var h, pc := Home(c.shardOf, x), At(s.pcs, t);
    if a.Lock? && Home(c.shardOf, pc.key) == h { AdmitEntry(c, s.shards[h], pc.key, pc.now, x); }
    hide Admit, Refill, Fresh, Unlocked, ShardOk;
  }

  /** Only a capped limiter sends threads to the counter. */
  ghost predicate CounterInUse<K(!new)>(c: Config<K>, s: State<K>) {
    forall t | t in s.pcs && s.pcs[t].AtGlobal? :: c.maxGlobal > 0
  }

  lemma StepCounterInUse<K(!new)>(c: Config<K>, s: State<K>, t: nat, a: Action<K>)
    requires |s.shards| == SHARDS && CounterInUse(c, s) && Enabled(c, s, t, a)
    ensures CounterInUse(c, Do(c, s, t, a))
  {
    hide Admit, Serve, Refill, Unlocked;
    var s' := Do(c, s, t, a);
    forall u | u in s'.pcs && s'.pcs[u].AtGlobal? ensures c.maxGlobal > 0 {
      if u != t { assert u in s.pcs && s.pcs[u] == s'.pcs[u]; }
    }
  }

  lemma {:induction false} RunCounterInUse<K(!new)>(c: Config<K>, s: State<K>, run: seq<Turn<K>>)
    requires |s.shards| == SHARDS && CounterInUse(c, s) && Legal(c, s, run)
    ensures CounterInUse(c, After(c, s, run))
    decreases run
  {
    hide CounterInUse, Enabled;
    if run != [] {
      StepCounterInUse(c, s, run[0].thread, run[0].action);
      RunCounterInUse(c, Do(c, s, run[0].thread, run[0].action), run[1..]);
    }
  }

  /** An action turns a thread away, or sends it to give its slot back, exactly for cause. */
  ghost predicate FairAction<K(!new)>(c: Config<K>, s: State<K>, t: nat, a: Action<K>)
    requires |s.shards| == SHARDS && Enabled(c, s, t, a)
  {
    var was, now := At(s.pcs, t), At(Do(c, s, t, a).pcs, t);
    match a
    case Begin(k, time) => now == if Justified(c, s, k, time, GlobalRate) then Resting(Some(GlobalRate))
        else Peeked(k, time)
    case LookActive =>
      now == if c.maxGlobal > 0 && s.globalActive >= c.maxGlobal then Resting(Some(GlobalConnections))
             else Entering(was.key, was.now)
    case Lock =>
      if now.Resting? then now.last.Some? && Justified(c, s, was.key, was.now, now.last.value)
      else forall r: Reason | r == PerKeyRate || r == PerKeyConnections :: !Justified(c, s, was.key, was.now, r)
    case Cas(_) =>
      c.maxGlobal > 0 && (now == Resting(Some(GlobalConnections)) <==> was.seen.value >= c.maxGlobal)
    case Charge =>
      now == if Justified(c, s, was.key, was.now, GlobalRate) then Undoing(was.key) else Charged(was.key, was.now)
    case _ => true
  }

  lemma LockFair<K(!new)>(c: Config<K>, s: State<K>, t: nat)
    requires ShardsOk(c, s) && Enabled(c, s, t, Lock)
    ensures FairAction(c, s, t, Lock)
  {
    hide Admit, EntryFor, NoRoom, Unlocked, ShardOk, Full, Level;
    var pc := At(s.pcs, t);
    AdmitExactly(c, s.shards[Home(c.shardOf, pc.key)], pc.key, pc.now);
  }

  lemma OthersFair<K(!new)>(c: Config<K>, s: State<K>, t: nat, a: Action<K>)
    requires |s.shards| == SHARDS && CounterInUse(c, s) && Enabled(c, s, t, a) && !a.Lock?
    ensures FairAction(c, s, t, a)
  {
    hide Admit, EntryFor, NoRoom, Refill, Unlocked, Full;
  }

  /** In every reachable state a thread is turned away exactly for cause. */
  lemma DenialsJustified<K(!new)>(c: Config<K>, shared: Option<Bucket>, run: seq<Turn<K>>, t: nat, a: Action<K>)
    requires (shared.Some? ==> shared.value.Ok()) && Legal(c, Start(shared), run)
    requires Enabled(c, After(c, Start(shared), run), t, a)
    ensures FairAction(c, After(c, Start(shared), run), t, a)
  {
    hide After, Legal, FairAction, Enabled, ShardsOk, CountsOk, LocksOk, CounterOk, MoneyOk;
    StartInv(c, shared);
    RunKeeps(c, Start(shared), run);
    RunCounterInUse(c, Start(shared), run);
    if a.Lock? {
      LockFair(c, After(c, Start(shared), run), t);
    } else {
      OthersFair(c, After(c, Start(shared), run), t, a);
    }
  }

  // ---- what a denial at the counter saw ----

  lemma {:induction false} LastTurn<K(!new)>(c: Config<K>, s: State<K>, run: seq<Turn<K>>)
    requires |s.shards| == SHARDS && run != [] && Legal(c, s, run)
    ensures var n := |run| - 1; var p := After(c, s, run[..n]);
      && Legal(c, s, run[..n]) && Enabled(c, p, run[n].thread, run[n].action)
      && After(c, s, run) == Do(c, p, run[n].thread, run[n].action)
    decreases run
  {
    var n := |run| - 1;
    if n == 0 {
      assert run[..0] == [] && run[1..] == [];
    } else {
      var s1 := Do(c, s, run[0].thread, run[0].action);
      KeepsShards(c, s, run[0].thread, run[0].action);
      hide Do, Enabled;
      LastTurn(c, s1, run[1..]);
      assert run[1..][..n - 1] == run[..n][1..];
    }
  }

  lemma KeepsShards<K(!new)>(c: Config<K>, s: State<K>, t: nat, a: Action<K>)
    requires |s.shards| == SHARDS
    ensures |Do(c, s, t, a).shards| == SHARDS
  {
    hide Admit, Refill;
  }

  /** The counter stood at `v` after the first `i` turns, and the thread has been trying to raise it
      ever since. */
  ghost predicate Saw<K(!new)>(c: Config<K>, s: State<K>, run: seq<Turn<K>>, t: nat, v: int, i: nat)
    requires |s.shards| == SHARDS
  {
    && i <= |run| && After(c, s, run[..i]).globalActive == v
    && forall j | i <= j <= |run| :: At(After(c, s, run[..j]).pcs, t).AtGlobal?
  }

  lemma SawLonger<K(!new)>(c: Config<K>, s: State<K>, run: seq<Turn<K>>, t: nat, v: int, i: nat)
    requires |s.shards| == SHARDS && run != [] && Saw(c, s, run[..|run| - 1], t, v, i)
    requires At(After(c, s, run).pcs, t).AtGlobal?
    ensures Saw(c, s, run, t, v, i)
  {
    hide After;
    var n := |run| - 1;
    assert run[..n][..i] == run[..i];
    forall j | i <= j <= |run| ensures At(After(c, s, run[..j]).pcs, t).AtGlobal? {
      if j <= n { assert run[..n][..j] == run[..j]; } else { assert run[..j] == run; }
    }
  }

  /** A step that leaves its thread with a value of the counter read it just then. */
  lemma ReadNow<K(!new)>(c: Config<K>, s: State<K>, t: nat, a: Action<K>)
    requires |s.shards| == SHARDS && Enabled(c, s, t, a)
    requires var pc := At(Do(c, s, t, a).pcs, t); pc.AtGlobal? && pc.seen.Some?
    ensures At(s.pcs, t).AtGlobal? && At(Do(c, s, t, a).pcs, t).seen.value == s.globalActive
  {
    hide Admit, Refill, Unlocked;
  }

  /** The value a thread holds is one the counter had earlier in the same call. */
  lemma {:induction false} SeenWasHeld<K(!new)>(c: Config<K>, s: State<K>, run: seq<Turn<K>>, t: nat)
    requires |s.shards| == SHARDS && Legal(c, s, run) && !At(s.pcs, t).AtGlobal?
    requires var pc := At(After(c, s, run).pcs, t); pc.AtGlobal? && pc.seen.Some?
    ensures exists i: nat :: Saw(c, s, run, t, At(After(c, s, run).pcs, t).seen.value, i)
    decreases |run|
  {
    var n, v := |run| - 1, At(After(c, s, run).pcs, t).seen.value;
    LastTurn(c, s, run);
    var p := After(c, s, run[..n]);
    if run[n].thread == t {
      ReadNow(c, p, t, run[n].action);
      assert run[..|run|] == run;
      assert Saw(c, s, run, t, v, n) by { hide After; }
    } else {
      OnlyMover(c, p, run[n].thread, run[n].action);
      SeenWasHeld(c, s, run[..n], t);
      var i: nat :| Saw(c, s, run[..n], t, v, i);
      SawLonger(c, s, run, t, v, i);
    }
  }

  /** A thread denied in the compare-exchange loop saw the counter at its cap: it stood there at some
      point of the same call. */
  lemma CounterDenialSawFull<K(!new)>(c: Config<K>, shared: Option<Bucket>, run: seq<Turn<K>>, t: nat, spurious: bool)
    requires (shared.Some? ==> shared.value.Ok()) && Legal(c, Start(shared), run)
    requires Enabled(c, After(c, Start(shared), run), t, Cas(spurious))
    requires At(Do(c, After(c, Start(shared), run), t, Cas(spurious)).pcs, t).Resting?
    ensures exists i: nat :: Saw(c, Start(shared), run, t, c.maxGlobal, i)
  {
    hide Do, After, Legal, Saw;
    var s0: State<K> := Start(shared);
    var s := After(c, s0, run);
    RunCounterInUse(c, s0, run);
    CasDenied(c, s, t, spurious);
    SeenWasHeld(c, s0, run, t);
    var v := At(s.pcs, t).seen.value;
    var i: nat :| Saw(c, s0, run, t, v, i);
    SawValue(c, s0, run, t, v, i);
    LegalPrefix(c, s0, run, i);
    CounterAtMost(c, shared, run[..i]);
  }

  lemma CasDenied<K(!new)>(c: Config<K>, s: State<K>, t: nat, spurious: bool)
    requires |s.shards| == SHARDS && CounterInUse(c, s) && Enabled(c, s, t, Cas(spurious))
    requires At(Do(c, s, t, Cas(spurious)).pcs, t).Resting?
    ensures var pc := At(s.pcs, t); pc.AtGlobal? && pc.seen.Some? && pc.seen.value >= c.maxGlobal > 0
  {
  }

  lemma CounterAtMost<K(!new)>(c: Config<K>, shared: Option<Bucket>, run: seq<Turn<K>>)
    requires (shared.Some? ==> shared.value.Ok()) && Legal(c, Start(shared), run) && c.maxGlobal > 0
    ensures After(c, Start(shared), run).globalActive <= c.maxGlobal
  {
    StartInv(c, shared);
    RunKeeps(c, Start(shared), run);
    hide After, Legal, ShardsOk, CountsOk, LocksOk, MoneyOk;
  }

  lemma SawValue<K(!new)>(c: Config<K>, s: State<K>, run: seq<Turn<K>>, t: nat, v: int, i: nat)
    requires |s.shards| == SHARDS && Saw(c, s, run, t, v, i)
    ensures i <= |run| && After(c, s, run[..i]).globalActive == v
  {
  }

  lemma {:induction false} LegalPrefix<K(!new)>(c: Config<K>, s: State<K>, run: seq<Turn<K>>, i: nat)
    requires |s.shards| == SHARDS && Legal(c, s, run) && i <= |run|
    ensures Legal(c, s, run[..i])
    decreases |run|
  {
    if i < |run| {
      LastTurn(c, s, run);
      LegalPrefix(c, s, run[..|run| - 1], i);
      assert run[..|run| - 1][..i] == run[..i];
    } else {
      assert run[..i] == run;
    }
  }

  /** The connect bucket a key amounts to, stored or not. */
  function ConnectBucket<K(==, !new)>(c: Config<K>, sh: Shard<K, Entry>, k: K, now: real): Bucket {
    Refill(EntryFor(c, sh, k, now).bucket, now)
  }

  /** Unlike the rate limiters, these may evict an inactive entry that is not stale. Admitting
      `k` keeps what another key's connect bucket amounts to exactly when that key is not the
      victim of a newcomer or its bucket is full again. */
  lemma AdmitKeepsOtherIff<K(!new)>(c: Config<K>, sh: Shard<K, Entry>, k: K, now: real, x: K)
    requires ShardOk(c, sh) && c.rate >= 0.0 && x != k && x in sh.entries
    requires var b := sh.entries[x].bucket; b.capacity == Capacity(c.burst) && b.rate == c.rate && b.last <= now
    ensures var sh' := Admit(c, sh, k, now).0;
      ConnectBucket(c, sh', x, now) == ConnectBucket(c, sh, x, now)
      <==> (k in sh.entries || Victim(c, sh, now) != Some(x) || Level(sh.entries[x].bucket, now) == Capacity(c.burst))
  {
    hide Admit, Refill, Fresh, Victim;
    AdmitOther(c, sh, k, now, x);
    FullIff(sh.entries[x].bucket, c.rate, c.burst, now);
  }

  lemma AdmitOther<K(!new)>(c: Config<K>, sh: Shard<K, Entry>, k: K, now: real, x: K)
    requires ShardOk(c, sh) && x != k && x in sh.entries
    ensures var sh' := Admit(c, sh, k, now).0;
      && (x in sh'.entries <==> k in sh.entries || Victim(c, sh, now) != Some(x))
      && (x in sh'.entries ==> sh'.entries[x] == sh.entries[x])
  {
    hide MakeRoomTwice, CheckEntry, Victim;
    if k !in sh.entries { RoomEvictsVictim(c, sh, now); }
  }
}
