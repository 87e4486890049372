/** The rate limiter's locked region in its atomic parts: a request locks its shard and checks its
    key, then takes from the shared bucket, then settles its entry and unlocks. Requests on other
    shards and early looks run in between. Every such interleaving is a run of `RateLimit`, where
    the region is one step, placed at the take or at the denial before it. */
module LockedRegions {
  import opened Options
  import opened Shards
  import opened Buckets
  import opened RateLimit
  import opened RateLimitAnyOrder

  /** A request inside its region; `was` is the shard it locked. */
  datatype Held<K(==, !new)> =
    | Waiting(key: K, now: real, was: Shard<K, Bucket>)
    | Taken(key: K, now: real, was: Shard<K, Bucket>, ok: bool)

  datatype Fine<K(==, !new)> = Fine(global: Option<Bucket>, shards: seq<Shard<K, Bucket>>, held: map<nat, Held<K>>)

  datatype Action<K> =
    | Glance(time: real)                       // early look at the shared bucket
    | Direct(key: K, time: real)               // no per-key limit: only the shared bucket is asked
    | Enter(request: nat, key: K, time: real)  // lock the shard, make room, check the key
    | Take(request: nat)                       // ask the shared bucket
    | Leave(request: nat)                      // settle the entry, unlock

  function Roomy<K(==, !new)>(c: Config<K>, was: Shard<K, Bucket>, k: K, now: real): Shard<K, Bucket> {
    RoomFor(c, was, k, now).0
  }

  function Refilled<K(==, !new)>(c: Config<K>, was: Shard<K, Bucket>, k: K, now: real): Bucket {
    var sh := Roomy(c, was, k, now);
    Refill(if k in sh.entries then sh.entries[k] else FreshFor(c, now), now)
  }

  /** The shard after the key check: the entry exists and is refilled, but not charged. */
  function Checked<K(==, !new)>(c: Config<K>, was: Shard<K, Bucket>, k: K, now: real): Shard<K, Bucket> {
    Roomy(c, was, k, now).Put(k, Refilled(c, was, k, now))
  }

  /** The key check lets the request go on to the shared bucket. */
  predicate Passes<K(==, !new)>(c: Config<K>, was: Shard<K, Bucket>, k: K, now: real) {
    RoomFor(c, was, k, now).1 && Refilled(c, was, k, now).tokens >= 1.0
  }

  ghost predicate Free<K(!new)>(c: Config<K>, f: Fine<K>, h: nat) {
    forall t | t in f.held :: Home(c.shardOf, f.held[t].key) != h
  }

  ghost predicate Enabled<K(!new)>(c: Config<K>, f: Fine<K>, a: Action<K>) {
    |f.shards| == SHARDS &&
    match a
    case Glance(_) => true
    case Direct(_, _) => c.rps <= 0.0
    case Enter(t, k, _) => c.rps > 0.0 && t !in f.held && Free(c, f, Home(c.shardOf, k))
    case Take(t) => t in f.held && f.held[t].Waiting?
    case Leave(t) => t in f.held && f.held[t].Taken?
  }

  /** How the request leaves its shard: charged, or as if it had never inserted its entry. */
  function Settle<K(==, !new)>(c: Config<K>, sh: Shard<K, Bucket>, p: Held<K>): Shard<K, Bucket>
    requires p.Taken? && p.key in sh.entries
  {
    if p.ok then sh.Put(p.key, Spend(sh.entries[p.key]))
    else if p.key in Roomy(c, p.was, p.key, p.now).entries then sh
    else sh.Remove(p.key)
  }

  function Do<K(==, !new)>(c: Config<K>, f: Fine<K>, a: Action<K>): Fine<K>
    requires |f.shards| == SHARDS
  {
    match a
    case Glance(now) => f.(global := if f.global.None? then None else Some(Refill(f.global.value, now)))
    case Direct(_, now) => f.(global := TakeGlobal(f.global, now).0)
    case Enter(t, k, now) =>
      var h := Home(c.shardOf, k);
      var was := f.shards[h];
      if !RoomFor(c, was, k, now).1 then f.(shards := f.shards[h := Roomy(c, was, k, now)])
      else if !Passes(c, was, k, now) then f.(shards := f.shards[h := Checked(c, was, k, now)])
      else f.(shards := f.shards[h := Checked(c, was, k, now)], held := f.held[t := Waiting(k, now, was)])
    case Take(t) =>
      if t in f.held && f.held[t].Waiting? then
        var p := f.held[t];
        var (g, ok) := TakeGlobal(f.global, p.now);
        f.(global := g, held := f.held[t := Taken(p.key, p.now, p.was, ok)])
      else f
    case Leave(t) =>
      if t in f.held && f.held[t].Taken? && f.held[t].key in f.shards[Home(c.shardOf, f.held[t].key)].entries then
        var p := f.held[t];
        var h := Home(c.shardOf, p.key);
        Fine(f.global, f.shards[h := Settle(c, f.shards[h], p)], f.held - {t})
      else f
  }

  /** The whole-region event an action stands for, if it decides a verdict. */
  function EventOf<K(==, !new)>(c: Config<K>, f: Fine<K>, a: Action<K>): Option<Event<K>>
    requires |f.shards| == SHARDS
  {
    match a
    case Glance(now) => Some(Peek(now))
    case Direct(k, now) => Some(Request(k, now))
    case Enter(_, k, now) => if Passes(c, f.shards[Home(c.shardOf, k)], k, now) then None else Some(Request(k, now))
    case Take(t) => if t in f.held then Some(Request(f.held[t].key, f.held[t].now)) else None
    case Leave(_) => None
  }

  function VerdictOf<K(==, !new)>(c: Config<K>, f: Fine<K>, a: Action<K>): Verdict
    requires |f.shards| == SHARDS
  {
    match a
    case Glance(now) => if f.global.None? || Refill(f.global.value, now).tokens >= 1.0 then Pass else DenyGlobal
    case Direct(_, now) => if TakeGlobal(f.global, now).1 then Allow else DenyGlobal
    case Enter(_, k, now) => if RoomFor(c, f.shards[Home(c.shardOf, k)], k, now).1 then DenyKey else Refused
    case Take(t) => if t in f.held && TakeGlobal(f.global, f.held[t].now).1 then Allow else DenyGlobal
    case Leave(_) => Pass
  }

  // ---- the simulation ----

  /** The shard as the whole-region run has it: untouched before the take, settled after it. */
  function Pending<K(==, !new)>(c: Config<K>, p: Held<K>): Shard<K, Bucket> {
    match p
    case Waiting(_, _, was) => was
    case Taken(k, now, was, ok) =>
      var sh := Roomy(c, was, k, now);
      if ok then sh.Put(k, Spend(Refilled(c, was, k, now)))
      else if k in sh.entries then sh.Put(k, Refilled(c, was, k, now)) else sh
  }

  ghost predicate HeldOk<K(!new)>(c: Config<K>, f: Fine<K>, p: Held<K>)
    requires |f.shards| == SHARDS
  {
    && p.was.Valid() && Passes(c, p.was, p.key, p.now)
    && f.shards[Home(c.shardOf, p.key)] == Checked(c, p.was, p.key, p.now)
  }

  ghost predicate Alone<K(!new)>(c: Config<K>, f: Fine<K>) {
    forall t, u | t in f.held && u in f.held && t != u ::
      Home(c.shardOf, f.held[t].key) != Home(c.shardOf, f.held[u].key)
  }

  ghost predicate Sim<K(!new)>(c: Config<K>, f: Fine<K>, s: State<K>) {
    && |f.shards| == |s.shards| == SHARDS && f.global == s.global && Alone(c, f)
    && (forall h | 0 <= h < SHARDS :: s.shards[h].Valid())
    && (forall h | 0 <= h < SHARDS && Free(c, f, h) :: f.shards[h] == s.shards[h])
    && (forall t | t in f.held ::
          HeldOk(c, f, f.held[t]) && s.shards[Home(c.shardOf, f.held[t].key)] == Pending(c, f.held[t]))
  }

  lemma RoomValid<K(!new)>(c: Config<K>, was: Shard<K, Bucket>, k: K, now: real)
    requires was.Valid()
    ensures Roomy(c, was, k, now).Valid()
  {
    ScanKeeps(was, (b: Bucket) => b.Stale(now));
    hide Scan, Hit, Distinct;
  }

  lemma CheckShardParts<K(!new)>(c: Config<K>, was: Shard<K, Bucket>, g: Option<Bucket>, k: K, now: real)
    ensures CheckShard(c, was, g, k, now) ==
      if !RoomFor(c, was, k, now).1 then (Roomy(c, was, k, now), g, Refused)
      else if !Passes(c, was, k, now) then (Checked(c, was, k, now), g, DenyKey)
      else
        var (g', ok) := TakeGlobal(g, now);
        (Pending(c, Taken(k, now, was, ok)), g', if ok then Allow else DenyGlobal)
  {
    hide RoomFor, Refill;
  }

  lemma PendingValid<K(!new)>(c: Config<K>, p: Held<K>)
    requires p.was.Valid()
    ensures Pending(c, p).Valid() && Checked(c, p.was, p.key, p.now).Valid()
  {
    hide RoomFor, Refilled;
    RoomValid(c, p.was, p.key, p.now);
    var sh, b := Roomy(c, p.was, p.key, p.now), Refilled(c, p.was, p.key, p.now);
    hide Roomy;
    PutValid(sh, p.key, b);
    PutValid(sh, p.key, Spend(b));
  }

  /** Settling the checked shard gives the shard of the whole region; the rollback restores it. */
  lemma SettleGives<K(!new)>(c: Config<K>, p: Held<K>)
    requires p.Taken? && p.was.Valid()
    ensures Settle(c, Checked(c, p.was, p.key, p.now), p) == Pending(c, p)
  {
    RoomValid(c, p.was, p.key, p.now);
    hide RoomFor, Refilled, Shards.DropFirst;
    var sh, b := Roomy(c, p.was, p.key, p.now), Refilled(c, p.was, p.key, p.now);
    if p.ok {
      assert sh.entries[p.key := b][p.key := Spend(b)] == sh.entries[p.key := Spend(b)];
    } else if p.key !in sh.entries {
      RemoveUndoesPut(sh, p.key, b);
    }
  }

  /** What an action does in the whole-region run: its event if it has one, else nothing. */
  function Follow<K(==, !new)>(c: Config<K>, s: State<K>, e: Option<Event<K>>): (r: State<K>)
    requires |s.shards| == SHARDS
    ensures |r.shards| == SHARDS
  {
    if e.None? then s else Step(c, s, e.value).0
  }

  ghost predicate Follows<K(!new)>(c: Config<K>, f: Fine<K>, s: State<K>, a: Action<K>)
    requires |f.shards| == |s.shards| == SHARDS
  {
    var e := EventOf(c, f, a);
    && Sim(c, Do(c, f, a), Follow(c, s, e))
    && (e.Some? ==> Step(c, s, e.value).1 == VerdictOf(c, f, a))
  }

  lemma EnterFollows<K(!new)>(c: Config<K>, f: Fine<K>, s: State<K>, t: nat, k: K, now: real)
    requires Sim(c, f, s) && Enabled(c, f, Enter(t, k, now))
    ensures Follows(c, f, s, Enter(t, k, now))
  {
    var h := Home(c.shardOf, k);
    var was := f.shards[h];
    assert s.shards[h] == was;
    CheckShardParts(c, was, s.global, k, now);
    RoomValid(c, was, k, now);
    PendingValid(c, Waiting(k, now, was));
    hide CheckShard, Pending, Checked, Roomy, RoomFor, Passes;
    var f' := Do(c, f, Enter(t, k, now));
    if Passes(c, was, k, now) {
      EnterWaits(c, f, s, t, k, now);
    } else {
      assert f'.held == f.held;
      SimElsewhere(c, f, s, h, f'.shards[h]);
    }
  }

  /** A shard nobody holds may change on both sides alike. */
  lemma SimElsewhere<K(!new)>(c: Config<K>, f: Fine<K>, s: State<K>, h: nat, sh: Shard<K, Bucket>)
    requires Sim(c, f, s) && h < SHARDS && Free(c, f, h) && sh.Valid()
    ensures Sim(c, f.(shards := f.shards[h := sh]), s.(shards := s.shards[h := sh]))
  {
    hide Pending, Checked, Passes;
    var f' := f.(shards := f.shards[h := sh]);
    forall t | t in f'.held
      ensures HeldOk(c, f', f'.held[t]) && s.shards[h := sh][Home(c.shardOf, f'.held[t].key)] == Pending(c, f'.held[t])
    {
      assert HeldOk(c, f, f.held[t]);
    }
    forall g | 0 <= g < SHARDS && Free(c, f', g) ensures f'.shards[g] == s.shards[h := sh][g] {
      assert Free(c, f, g);
    }
  }

  lemma EnterWaits<K(!new)>(c: Config<K>, f: Fine<K>, s: State<K>, t: nat, k: K, now: real)
    requires Sim(c, f, s) && Enabled(c, f, Enter(t, k, now)) && Passes(c, f.shards[Home(c.shardOf, k)], k, now)
    ensures var h := Home(c.shardOf, k); var was := f.shards[h];
      Sim(c, Fine(f.global, f.shards[h := Checked(c, was, k, now)], f.held[t := Waiting(k, now, was)]), s)
  {
    hide Checked, Passes;
    var h := Home(c.shardOf, k);
    var was := f.shards[h];
    var f' := Fine(f.global, f.shards[h := Checked(c, was, k, now)], f.held[t := Waiting(k, now, was)]);
    forall u | u in f'.held
      ensures HeldOk(c, f', f'.held[u]) && s.shards[Home(c.shardOf, f'.held[u].key)] == Pending(c, f'.held[u])
    {
      if u != t { assert HeldOk(c, f, f.held[u]); }
    }
    forall g | 0 <= g < SHARDS && Free(c, f', g) ensures f'.shards[g] == s.shards[g] {
      assert f'.held[t].key == k;
      assert Free(c, f, g) by {
        forall u | u in f.held ensures Home(c.shardOf, f.held[u].key) != g { assert f'.held[u] == f.held[u]; }
      }
    }
  }

  lemma TakeFollows<K(!new)>(c: Config<K>, f: Fine<K>, s: State<K>, t: nat)
    requires c.rps > 0.0 && Sim(c, f, s) && Enabled(c, f, Take(t))
    ensures Follows(c, f, s, Take(t))
  {
    var p := f.held[t];
    assert HeldOk(c, f, p);
    CheckShardParts(c, p.was, s.global, p.key, p.now);
    var ok := TakeGlobal(f.global, p.now).1;
    PendingValid(c, Taken(p.key, p.now, p.was, ok));
    TakeKeeps(c, f, s, t, ok);
  }

  lemma TakeKeeps<K(!new)>(c: Config<K>, f: Fine<K>, s: State<K>, t: nat, ok: bool)
    requires Sim(c, f, s) && t in f.held && f.held[t].Waiting?
    requires Pending(c, Taken(f.held[t].key, f.held[t].now, f.held[t].was, ok)).Valid()
    ensures var p := f.held[t]; var q := Taken(p.key, p.now, p.was, ok); var g := TakeGlobal(f.global, p.now).0;
      Sim(c, Fine(g, f.shards, f.held[t := q]), State(g, s.shards[Home(c.shardOf, p.key) := Pending(c, q)]))
  {
    hide Pending, Checked, Passes, TakeGlobal;
    var p := f.held[t];
    var q := Taken(p.key, p.now, p.was, ok);
    var f' := Fine(TakeGlobal(f.global, p.now).0, f.shards, f.held[t := q]);
    var h := Home(c.shardOf, p.key);
    forall u | u in f'.held
      ensures HeldOk(c, f', f'.held[u])
      ensures s.shards[h := Pending(c, q)][Home(c.shardOf, f'.held[u].key)] == Pending(c, f'.held[u])
    {
      assert HeldOk(c, f, f.held[u]);
    }
    forall g | 0 <= g < SHARDS && Free(c, f', g) ensures f'.shards[g] == s.shards[h := Pending(c, q)][g] {
      assert f'.held[t].key == p.key;
      assert Free(c, f, g) by {
        forall u | u in f.held ensures Home(c.shardOf, f.held[u].key) != g { assert f'.held[u].key == f.held[u].key; }
      }
    }
  }

  lemma LeaveFollows<K(!new)>(c: Config<K>, f: Fine<K>, s: State<K>, t: nat)
    requires Sim(c, f, s) && Enabled(c, f, Leave(t))
    ensures Follows(c, f, s, Leave(t))
  {
    var p := f.held[t];
    assert HeldOk(c, f, p);
    SettleGives(c, p);
    hide Pending, Passes, Settle;
    var f' := Do(c, f, Leave(t));
    var h := Home(c.shardOf, p.key);
    assert f'.shards == f.shards[h := Pending(c, p)] && f'.held == f.held - {t};
    LeaveKeeps(c, f, s, t);
  }

  lemma LeaveKeeps<K(!new)>(c: Config<K>, f: Fine<K>, s: State<K>, t: nat)
    requires Sim(c, f, s) && t in f.held
    ensures var p := f.held[t]; var h := Home(c.shardOf, p.key);
      Sim(c, Fine(f.global, f.shards[h := Pending(c, p)], f.held - {t}), s)
  {
    hide Pending, Checked, Passes;
    var p := f.held[t];
    var h := Home(c.shardOf, p.key);
    var f' := Fine(f.global, f.shards[h := Pending(c, p)], f.held - {t});
    forall u | u in f'.held
      ensures HeldOk(c, f', f'.held[u]) && s.shards[Home(c.shardOf, f'.held[u].key)] == Pending(c, f'.held[u])
    {
      assert HeldOk(c, f, f.held[u]);
    }
    forall g | 0 <= g < SHARDS && Free(c, f', g) ensures f'.shards[g] == s.shards[g] {
      if g != h {
        assert Free(c, f, g) by {
          forall u | u in f.held ensures Home(c.shardOf, f.held[u].key) != g {
            if u != t { assert f'.held[u] == f.held[u]; }
          }
        }
      }
    }
  }

  lemma SharedFollows<K(!new)>(c: Config<K>, f: Fine<K>, s: State<K>, a: Action<K>)
    requires Sim(c, f, s) && Enabled(c, f, a) && (a.Glance? || a.Direct?)
    ensures Follows(c, f, s, a)
  {
    hide Pending, Checked, Passes, Refill;
    var f' := Do(c, f, a);
    forall t | t in f'.held ensures HeldOk(c, f', f'.held[t]) { assert HeldOk(c, f, f.held[t]); }
    forall g | 0 <= g < SHARDS && Free(c, f', g) ensures f'.shards[g] == s.shards[g] { assert Free(c, f, g); }
  }

  /** Only a limiter with a per-key rate has requests inside regions. */
  ghost predicate Rated<K(!new)>(c: Config<K>, f: Fine<K>) { f.held != map[] ==> c.rps > 0.0 }

  lemma ActionFollows<K(!new)>(c: Config<K>, f: Fine<K>, s: State<K>, a: Action<K>)
    requires Sim(c, f, s) && Rated(c, f) && Enabled(c, f, a)
    ensures Follows(c, f, s, a) && Rated(c, Do(c, f, a))
  {
    hide Follows, Sim;
    match a
    case Enter(t, k, now) => EnterFollows(c, f, s, t, k, now);
    case Take(t) => TakeFollows(c, f, s, t);
    case Leave(t) => LeaveFollows(c, f, s, t);
    case _ => SharedFollows(c, f, s, a);
  }

  // ---- runs ----

  ghost predicate Legal<K(!new)>(c: Config<K>, f: Fine<K>, run: seq<Action<K>>)
    decreases run
  {
    run != [] ==> Enabled(c, f, run[0]) && Legal(c, Do(c, f, run[0]), run[1..])
  }

  /** The whole-region events of a run in the order they are decided, with their verdicts. */
  ghost function Decisions<K(!new)>(c: Config<K>, f: Fine<K>, run: seq<Action<K>>): (r: (seq<Event<K>>, seq<Verdict>))
    requires Legal(c, f, run)
    ensures |r.0| == |r.1|
    decreases run
  {
    if run == [] then ([], [])
    else
      var (events, verdicts) := Decisions(c, Do(c, f, run[0]), run[1..]);
      var e := EventOf(c, f, run[0]);
      if e.None? then (events, verdicts) else ([e.value] + events, [VerdictOf(c, f, run[0])] + verdicts)
  }

  lemma {:induction false} DecisionsFollow<K(!new)>(c: Config<K>, f: Fine<K>, s: State<K>, run: seq<Action<K>>)
    requires Sim(c, f, s) && Rated(c, f) && Legal(c, f, run)
    ensures var (events, verdicts) := Decisions(c, f, run); verdicts == Run(c, s, events).1
    decreases run
  {
    if run != [] {
      var e := EventOf(c, f, run[0]);
      ActionFollows(c, f, s, run[0]);
      hide Sim, Enabled, Do, Step, EventOf, VerdictOf;
      DecisionsFollow(c, Do(c, f, run[0]), Follow(c, s, e), run[1..]);
      var (events, verdicts) := Decisions(c, Do(c, f, run[0]), run[1..]);
      if e.Some? { assert ([e.value] + events)[1..] == events; }
    }
  }

  function Idle<K(==, !new)>(g: Option<Bucket>): Fine<K> { Fine(g, Start<K>(g).shards, map[]) }

  /** Every interleaving of the atomic parts decides the verdicts of a run of whole regions. */
  lemma RegionsAreAtomic<K(!new)>(c: Config<K>, g: Option<Bucket>, run: seq<Action<K>>)
    requires Legal(c, Idle(g), run)
    ensures var (events, verdicts) := Decisions(c, Idle(g), run); verdicts == Run(c, Start(g), events).1
  {
    var f: Fine<K> := Idle(g);
    assert Sim(c, f, Start(g));
    DecisionsFollow(c, f, Start(g), run);
  }

  /** So the refinement holds for every interleaving of the atomic parts whose decisions come at
      nondecreasing times. */
  lemma InterleavingsRefineReference<K(!new)>(c: Config<K>, g: Option<Bucket>, clock: real, run: seq<Action<K>>)
    requires RefillsWhenIdle(c) && GlobalOk(g, clock) && Legal(c, Idle(g), run)
    requires Timed(clock, Decisions(c, Idle(g), run).0)
    ensures var (events, verdicts) := Decisions(c, Idle(g), run); Explains(c, Ideal(g, map[]), events, verdicts)
  {
    RegionsAreAtomic(c, g, run);
    LimiterRefinesReference(c, g, clock, Decisions(c, Idle(g), run).0);
  }

  // ---- with no condition on time ----

  lemma VerdictAt<K(!new)>(c: Config<K>, s: State<K>, events: seq<Event<K>>, j: nat)
    requires |s.shards| == SHARDS && j < |events|
    ensures Run(c, s, events).1[j] == Step(c, Run(c, s, events[..j]).0, events[j]).1
  {
    hide Step;
    assert events == events[..j] + events[j..];
    RunAppend(c, s, events[..j], events[j..]);
  }

  /** In every interleaving of the atomic parts, whatever times the requests bring, each decision
      charges its key and the shared bucket together or neither. */
  lemma InterleavingsCharge<K(!new)>(c: Config<K>, g: Option<Bucket>, run: seq<Action<K>>, j: nat)
    requires (g.Some? ==> g.value.Ok()) && Legal(c, Idle(g), run) && j < |Decisions(c, Idle(g), run).0|
    ensures var (events, verdicts) := Decisions(c, Idle(g), run); var s := Run(c, Start(g), events[..j]).0;
      verdicts[j] == Step(c, s, events[j]).1 && Charges(c, s, events[j])
  {
    var events := Decisions(c, Idle(g), run).0;
    RegionsAreAtomic(c, g, run);
    VerdictAt(c, Start(g), events, j);
    RunCharges(c, g, events, j);
  }

  lemma InterleavingsGain<K(!new)>(c: Config<K>, g: Bucket, run: seq<Action<K>>, i: nat, j: nat)
    requires g.Ok() && Legal(c, Idle(Some(g)), run) && i <= j <= |Decisions(c, Idle(Some(g)), run).0|
    ensures var (events, verdicts) := Decisions(c, Idle(Some(g)), run);
      var mid, end := Run(c, Start(Some(g)), events[..i]).0, Run(c, Start(Some(g)), events[..j]).0;
      && mid.global.Some? && end.global.Some?
      && Allowed(verdicts[i..j]) as real
         <= g.capacity + Gain(g.rate, FirstUse(c, mid, events[i..j]), end.global.value.last)
  {
    hide Allowed, FirstUse, Gain, Step;
    var events := Decisions(c, Idle(Some(g)), run).0;
    var s: State<K> := Start(Some(g));
    RegionsAreAtomic(c, Some(g), run);
    assert events[..j] == events[..i] + events[i..j] && events == events[..j] + events[j..];
    RunAppend(c, s, events[..j], events[j..]);
    GlobalGain(c, g, events[..i], events[i..j]);
    assert Run(c, s, events).1[i..j] == Run(c, s, events[..j]).1[i..];
  }

  /** And admissions of all keys decided in a row never exceed what the shared bucket earned between
      its first and its latest use among them, on top of its burst. */
  lemma InterleavingsWindow<K(!new)>(c: Config<K>, g: Bucket, run: seq<Action<K>>, i: nat, j: nat)
    requires g.Ok() && Legal(c, Idle(Some(g)), run) && i <= j <= |Decisions(c, Idle(Some(g)), run).0|
    ensures var (events, verdicts) := Decisions(c, Idle(Some(g)), run);
      var mid, end := Run(c, Start(Some(g)), events[..i]).0, Run(c, Start(Some(g)), events[..j]).0;
      && mid.global.Some? && end.global.Some?
      && Earned(Allowed(verdicts[i..j]), g.capacity, g.rate, FirstUse(c, mid, events[i..j]), end.global.value.last)
  {
    InterleavingsGain(c, g, run, i, j);
    var events, s: State<K> := Decisions(c, Idle(Some(g)), run).0, Start(Some(g));
    var first := FirstUse(c, Run(c, s, events[..i]).0, events[i..j]);
    var last := Run(c, s, events[..j]).0.global.value.last;
    hide Earned, Gain, Run, Decisions, Allowed, FirstUse;
    GainEarns(Allowed(Decisions(c, Idle(Some(g)), run).1[i..j]), g.capacity, g.rate, first, last);
  }

  /** Shards in memory, also those inside a region, keep their shape, and a held shard has the entry
      of its request. */
  ghost predicate FineShaped<K(!new)>(c: Config<K>, f: Fine<K>) {
    && |f.shards| == SHARDS && (forall h | 0 <= h < SHARDS :: Shaped(c, f.shards[h]))
    && forall t | t in f.held :: f.held[t].key in f.shards[Home(c.shardOf, f.held[t].key)].entries
  }

  lemma PutFits<K(!new)>(c: Config<K>, sh: Shard<K, Bucket>, k: K, b: Bucket)
    requires Shaped(c, sh) && (k in sh.entries || |sh.entries| < ShardCapacity(c.maxTracked))
    ensures Shaped(c, sh.Put(k, b))
  {
    PutValid(sh, k, b);
    assert sh.Put(k, b).entries.Keys == sh.entries.Keys + {k};
  }

  lemma CheckedFits<K(!new)>(c: Config<K>, was: Shard<K, Bucket>, k: K, now: real)
    requires Shaped(c, was)
    ensures Shaped(c, Roomy(c, was, k, now))
    ensures RoomFor(c, was, k, now).1 ==> Shaped(c, Checked(c, was, k, now)) && k in Checked(c, was, k, now).entries
  {
    RoomShape(c, was, k, now);
    if RoomFor(c, was, k, now).1 { PutFits(c, Roomy(c, was, k, now), k, Refilled(c, was, k, now)); }
  }

  lemma SettleFits<K(!new)>(c: Config<K>, sh: Shard<K, Bucket>, p: Held<K>)
    requires p.Taken? && p.key in sh.entries && Shaped(c, sh)
    ensures Shaped(c, Settle(c, sh, p))
  {
    hide Roomy;
    PutFits(c, sh, p.key, Spend(sh.entries[p.key]));
    RemoveValid(sh, p.key);
    assert (sh.entries - {p.key}).Keys == sh.entries.Keys - {p.key};
  }

  lemma ReplaceShaped<K(!new)>(c: Config<K>, f: Fine<K>, h: nat, sh: Shard<K, Bucket>)
    requires FineShaped(c, f) && Alone(c, f) && h < SHARDS && Free(c, f, h) && Shaped(c, sh)
    ensures FineShaped(c, f.(shards := f.shards[h := sh])) && Alone(c, f.(shards := f.shards[h := sh]))
  {
    hide Shaped;
  }

  lemma HoldShaped<K(!new)>(c: Config<K>, f: Fine<K>, t: nat, p: Held<K>)
    requires FineShaped(c, f) && Alone(c, f) && Free(c, f, Home(c.shardOf, p.key))
    requires t !in f.held && p.key in f.shards[Home(c.shardOf, p.key)].entries
    ensures FineShaped(c, f.(held := f.held[t := p])) && Alone(c, f.(held := f.held[t := p]))
  {
    hide Shaped;
  }

  lemma EnterShaped<K(!new)>(c: Config<K>, f: Fine<K>, t: nat, k: K, now: real)
    requires FineShaped(c, f) && Alone(c, f) && Enabled(c, f, Enter(t, k, now))
    ensures var f' := Do(c, f, Enter(t, k, now)); FineShaped(c, f') && Alone(c, f')
  {
    var h := Home(c.shardOf, k);
    var was, f' := f.shards[h], Do(c, f, Enter(t, k, now));
    CheckedFits(c, was, k, now);
    ReplaceShaped(c, f, h, f'.shards[h]);
    var g := f.(shards := f.shards[h := f'.shards[h]]);
    if Passes(c, was, k, now) { HoldShaped(c, g, t, Waiting(k, now, was)); }
    hide Shaped, Checked, Roomy, RoomFor, FineShaped, Alone;
  }

  lemma LeaveShaped<K(!new)>(c: Config<K>, f: Fine<K>, t: nat)
    requires FineShaped(c, f) && Alone(c, f) && Enabled(c, f, Leave(t))
    ensures var f' := Do(c, f, Leave(t)); FineShaped(c, f') && Alone(c, f')
  {
    var p := f.held[t];
    var h := Home(c.shardOf, p.key);
    SettleFits(c, f.shards[h], p);
    hide Shaped, Settle;
    var f' := Do(c, f, Leave(t));
    assert f'.shards == f.shards[h := Settle(c, f.shards[h], p)];
    forall u | u in f'.held ensures f'.held[u].key in f'.shards[Home(c.shardOf, f'.held[u].key)].entries {
      assert u in f.held && u != t && f'.held[u] == f.held[u];
    }
  }

  lemma ActionShaped<K(!new)>(c: Config<K>, f: Fine<K>, a: Action<K>)
    requires FineShaped(c, f) && Alone(c, f) && Enabled(c, f, a)
    ensures FineShaped(c, Do(c, f, a)) && Alone(c, Do(c, f, a))
  {
    hide Shaped, Checked, Roomy, RoomFor, Passes, Settle;
    match a
    case Enter(t, k, now) => EnterShaped(c, f, t, k, now);
    case Leave(t) => LeaveShaped(c, f, t);
    case _ =>
  }

  lemma {:induction false} RunShaped<K(!new)>(c: Config<K>, f: Fine<K>, run: seq<Action<K>>)
    requires FineShaped(c, f) && Alone(c, f) && Legal(c, f, run)
    ensures FineShaped(c, End(c, f, run))
    decreases run
  {
    hide Do, Enabled, Alone, Shaped;
    if run != [] {
      ActionShaped(c, f, run[0]);
      RunShaped(c, Do(c, f, run[0]), run[1..]);
    }
  }

  ghost function End<K(!new)>(c: Config<K>, f: Fine<K>, run: seq<Action<K>>): Fine<K>
    requires Legal(c, f, run)
    decreases run
  {
    if run == [] then f else End(c, Do(c, f, run[0]), run[1..])
  }

  /** At every moment of every interleaving the shards together hold at most the configured limit
      plus 63 keys, each queue a permutation of its shard's keys. */
  lemma InterleavingsTrackBoundedKeys<K(!new)>(c: Config<K>, g: Option<Bucket>, run: seq<Action<K>>)
    requires c.maxTracked > 0 && Legal(c, Idle(g), run)
    ensures FineShaped(c, End(c, Idle(g), run)) && SizeSum(End(c, Idle(g), run).shards) <= c.maxTracked + 63
  {
    RunShaped(c, Idle(g), run);
    TrackedKeysBound(End(c, Idle(g), run).shards, c.maxTracked);
  }
}
