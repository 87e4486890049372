/** A proxied request takes up to two permits: one of the trusted-proxy limiter when its client
    address differs from its peer, then one of the client limiter. If the second is denied the
    first is dropped; after the response both are dropped, the client's first. Requests interleave
    with each other action by action in both limiters. */
module PermitPairs {
  import opened Options
  import opened Shards
  import opened Buckets
  import opened Permits

  /** Where a request stands, by its own account: `proxied` says that it kept a proxy permit. */
  datatype Stage =
    | Fresh
    | ProxyAcquire
    | ProxyHeld
    | ClientAcquire(proxied: bool)
    | Serving(proxied: bool)
    | ClientDrop(proxied: bool)
    | ProxyDrop
    | Finished

  datatype Side = Proxy | Client

  datatype World<K(==, !new)> = World(proxy: State<K>, client: State<K>, stages: map<nat, Stage>)

  function StageOf(stages: map<nat, Stage>, t: nat): Stage { if t in stages then stages[t] else Stage.Fresh }

  predicate Drops<K>(a: Action<K>) { a.ReleaseGlobal? || a.ReleaseKey? }

  /** Which action of which limiter a request may perform next. */
  predicate Permitted<K>(stage: Stage, side: Side, a: Action<K>) {
    match stage
    case Fresh => a.Begin?
    case ProxyAcquire => side == Proxy && !a.Begin? && !Drops(a)
    case ProxyHeld => side == Client && a.Begin?
    case ClientAcquire(_) => side == Client && !a.Begin? && !Drops(a)
    case Serving(_) => side == Client && a.ReleaseGlobal?
    case ClientDrop(_) => side == Client && a.ReleaseKey?
    case ProxyDrop => side == Proxy && Drops(a)
    case Finished => false
  }

  /** What is left to drop when no client permit is held. */
  function Unwind(proxied: bool): Stage { if proxied then ProxyDrop else Finished }

  /** Where the request stands next, from the answer of the limiter it asked: denied or done, granted,
      or still under way. */
  function NextStage<K>(stage: Stage, side: Side, answer: Pc<K>): Stage {
    match stage
    case Fresh =>
      if answer.Resting? then Finished else if side == Proxy then ProxyAcquire else ClientAcquire(false)
    case ProxyAcquire => if answer.Resting? then Finished else if answer.Holding? then ProxyHeld else ProxyAcquire
    case ProxyHeld => if answer.Resting? then ProxyDrop else ClientAcquire(true)
    case ClientAcquire(proxied) =>
      if answer.Resting? then Unwind(proxied) else if answer.Holding? then Serving(proxied) else stage
    case Serving(proxied) => ClientDrop(proxied)
    case ClientDrop(proxied) => Unwind(proxied)
    case ProxyDrop => if answer.Resting? then Finished else ProxyDrop
    case Finished => Finished
  }

  datatype Move<K> = Move(thread: nat, side: Side, action: Action<K>)

  datatype Limits<!K> = Limits(proxy: Config<K>, client: Config<K>)

  ghost predicate CanMove<K(!new)>(l: Limits<K>, w: World<K>, m: Move<K>) {
    && Permitted(StageOf(w.stages, m.thread), m.side, m.action)
    && (if m.side == Proxy then Enabled(l.proxy, w.proxy, m.thread, m.action)
        else Enabled(l.client, w.client, m.thread, m.action))
  }

  function Apply<K(==, !new)>(l: Limits<K>, w: World<K>, m: Move<K>): World<K>
    requires |w.proxy.shards| == SHARDS && |w.client.shards| == SHARDS
  {
    var p := if m.side == Proxy then Do(l.proxy, w.proxy, m.thread, m.action) else w.proxy;
    var q := if m.side == Client then Do(l.client, w.client, m.thread, m.action) else w.client;
    var answer := At(if m.side == Proxy then p.pcs else q.pcs, m.thread);
    World(p, q, w.stages[m.thread := NextStage(StageOf(w.stages, m.thread), m.side, answer)])
  }

  predicate Acquiring<K>(pc: Pc<K>) { !pc.Resting? && !pc.Holding? && !pc.Releasing? }

  predicate Kept<K>(proxied: bool, p: Pc<K>) { if proxied then p.Holding? else p.Resting? }

  /** What each limiter has on a request at each stage. */
  predicate Fits<K>(stage: Stage, p: Pc<K>, q: Pc<K>) {
    match stage
    case Fresh => p.Resting? && q.Resting?
    case ProxyAcquire => Acquiring(p) && q.Resting?
    case ProxyHeld => p.Holding? && q.Resting?
    case ClientAcquire(proxied) => Kept(proxied, p) && Acquiring(q)
    case Serving(proxied) => Kept(proxied, p) && q.Holding?
    case ClientDrop(proxied) => Kept(proxied, p) && q.Releasing?
    case ProxyDrop => (p.Holding? || p.Releasing?) && q.Resting?
    case Finished => p.Resting? && q.Resting?
  }

  ghost predicate AllFit<K(!new)>(w: World<K>) {
    forall t: nat :: Fits(StageOf(w.stages, t), At(w.proxy.pcs, t), At(w.client.pcs, t))
  }

  ghost predicate WorldInv<K(!new)>(l: Limits<K>, w: World<K>) {
    Inv(l.proxy, w.proxy) && Inv(l.client, w.client) && AllFit(w)
  }

  lemma DoMoves<K(!new)>(c: Config<K>, s: State<K>, t: nat, a: Action<K>)
    requires |s.shards| == SHARDS && Enabled(c, s, t, a)
    ensures forall u: nat | u != t :: At(Do(c, s, t, a).pcs, u) == At(s.pcs, u)
    ensures var pc := At(Do(c, s, t, a).pcs, t);
      && (a.Begin? ==> pc.Resting? || Acquiring(pc))
      && (!a.Begin? && !Drops(a) ==> pc.Resting? || Acquiring(pc) || pc.Holding?)
      && (a.ReleaseGlobal? ==> pc.Releasing?)
      && (a.ReleaseKey? ==> pc.Resting?)
  {
  }

  lemma MoveKeepsWorld<K(!new)>(l: Limits<K>, w: World<K>, m: Move<K>)
    requires WorldInv(l, w) && CanMove(l, w, m)
    ensures WorldInv(l, Apply(l, w, m))
  {
    if m.side == Proxy {
      ActionKeeps(l.proxy, w.proxy, m.thread, m.action);
    } else {
      ActionKeeps(l.client, w.client, m.thread, m.action);
    }
    MoveFits(l, w, m);
  }

  lemma MoveFits<K(!new)>(l: Limits<K>, w: World<K>, m: Move<K>)
    requires |w.proxy.shards| == SHARDS && |w.client.shards| == SHARDS
    requires AllFit(w) && CanMove(l, w, m)
    ensures AllFit(Apply(l, w, m))
  {
    if m.side == Proxy {
      DoMoves(l.proxy, w.proxy, m.thread, m.action);
    } else {
      DoMoves(l.client, w.client, m.thread, m.action);
    }
    assert Fits(StageOf(w.stages, m.thread), At(w.proxy.pcs, m.thread), At(w.client.pcs, m.thread));
  }

  // ---- runs ----

  ghost predicate Playable<K(!new)>(l: Limits<K>, w: World<K>, run: seq<Move<K>>)
    requires |w.proxy.shards| == SHARDS && |w.client.shards| == SHARDS
    decreases run
  {
    run != [] ==> CanMove(l, w, run[0]) && Playable(l, Apply(l, w, run[0]), run[1..])
  }

  ghost function Played<K(!new)>(l: Limits<K>, w: World<K>, run: seq<Move<K>>): (r: World<K>)
    requires |w.proxy.shards| == SHARDS && |w.client.shards| == SHARDS
    ensures |r.proxy.shards| == SHARDS && |r.client.shards| == SHARDS
    decreases run
  {
    if run == [] then w else Played(l, Apply(l, w, run[0]), run[1..])
  }

  function NewWorld<K(==, !new)>(): World<K> { World(Start(None), Start(None), map[]) }

  lemma {:induction false} RunKeepsWorld<K(!new)>(l: Limits<K>, w: World<K>, run: seq<Move<K>>)
    requires WorldInv(l, w) && Playable(l, w, run)
    ensures WorldInv(l, Played(l, w, run))
    decreases run
  {
    if run != [] {
      MoveKeepsWorld(l, w, run[0]);
      RunKeepsWorld(l, Apply(l, w, run[0]), run[1..]);
    }
  }

  lemma ReachableInv<K(!new)>(l: Limits<K>, run: seq<Move<K>>)
    requires Playable(l, NewWorld(), run)
    ensures WorldInv(l, Played(l, NewWorld(), run))
  {
    StartInv(l.proxy, None);
    StartInv(l.client, None);
    RunKeepsWorld(l, NewWorld(), run);
  }

  /** In every interleaving both limiters keep all their guarantees and a finished request,
      including one whose second acquire failed, holds nothing in either of them. */
  lemma NoPermitLeaks<K(!new)>(l: Limits<K>, run: seq<Move<K>>, t: nat)
    requires Playable(l, NewWorld(), run)
    ensures var w := Played(l, NewWorld(), run);
      && Inv(l.proxy, w.proxy) && Inv(l.client, w.client)
      && (StageOf(w.stages, t) == Finished ==> At(w.proxy.pcs, t).Resting? && At(w.client.pcs, t).Resting?)
      && (StageOf(w.stages, t).Serving? ==>
            At(w.client.pcs, t).Holding? && (StageOf(w.stages, t).proxied <==> At(w.proxy.pcs, t).Holding?))
  {
    ReachableInv(l, run);
    var w := Played(l, NewWorld(), run);
    assert Fits(StageOf(w.stages, t), At(w.proxy.pcs, t), At(w.client.pcs, t));
  }

  /** Once every request has finished, both limiters are back to nothing in use. */
  lemma AllFinishedMeansEmpty<K(!new)>(l: Limits<K>, run: seq<Move<K>>, k: K)
    requires Playable(l, NewWorld(), run)
    requires forall t :: StageOf(Played(l, NewWorld(), run).stages, t) in {Stage.Fresh, Finished}
    ensures var w := Played(l, NewWorld(), run);
      && (l.proxy.maxGlobal > 0 ==> w.proxy.globalActive == 0)
      && (l.client.maxGlobal > 0 ==> w.client.globalActive == 0)
      && ActiveIn(w.proxy.shards[Home(l.proxy.shardOf, k)].entries, k) == 0
      && ActiveIn(w.client.shards[Home(l.client.shardOf, k)].entries, k) == 0
  {
    hide Played, Playable, ShardsOk, LocksOk, CountsOk, CounterOk, MoneyOk;
    var w := Played(l, NewWorld(), run);
    ReachableInv(l, run);
    assert forall t: nat :: Fits(StageOf(w.stages, t), At(w.proxy.pcs, t), At(w.client.pcs, t));
    assert forall t | t in w.proxy.pcs :: At(w.proxy.pcs, t).Resting?;
    assert forall t | t in w.client.pcs :: At(w.client.pcs, t).Resting?;
    QuietMeansEmpty(l.proxy, w.proxy, k);
    QuietMeansEmpty(l.client, w.client, k);
  }
}
