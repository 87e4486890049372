/** The detector and the filter engine together: an observation that exhausts the bucket of its
    signature activates the rules for that signature, and active rules block matching requests. */
module FloodBlocks {
  import opened Options
  import opened Shards
  import opened Buckets
  import opened Adaptive
  import opened Rules
  import F = FilterEngine

  /** An observation, with the clock readings of the activation it may cause, or another operation of
      the engine: a reload or an activation from elsewhere. */
  datatype Event = See(o: Sighting<string>, now: nat, clock: nat -> nat) | Operate(op: F.Op)

  /** Detector settings, the lifetime it asks for, and the engine's own. */
  datatype Setup = Setup(c: Config<string>, ttl: nat, fallback: nat)

  type Windows = w: seq<Shard<string, Window>> | |w| == SHARDS witness NoWindows<string>()

  function ActivationOf(u: Setup, e: Event): F.Activation
    requires e.See?
  {
    F.Activation(F.Signature(e.o.key), Some(u.ttl), e.now, e.clock)
  }

  predicate Activates(u: Setup, w: Windows, e: Event) {
    e.See? && var out := StepAll(u.c, w, e.o).1; out.Seen? && out.activate
  }

  /** What the event makes the engine do. */
  function OpsOf(u: Setup, w: Windows, e: Event): seq<F.Op> {
    if e.Operate? then [e.op] else if Activates(u, w, e) then [F.DoActivate(ActivationOf(u, e))] else []
  }

  function Next(u: Setup, w: Windows, e: Event): Windows { if e.See? then StepAll(u.c, w, e.o).0 else w }

  function WindowsAfter(u: Setup, w: Windows, run: seq<Event>): Windows
    decreases |run|
  {
    if run == [] then w else WindowsAfter(u, Next(u, w, run[0]), run[1..])
  }

  function Ops(u: Setup, w: Windows, run: seq<Event>): seq<F.Op>
    decreases |run|
  {
    if run == [] then [] else OpsOf(u, w, run[0]) + Ops(u, Next(u, w, run[0]), run[1..])
  }

  function Sightings(run: seq<Event>): seq<Sighting<string>> {
    if run == [] then [] else (if run[0].See? then [run[0].o] else []) + Sightings(run[1..])
  }

  // ---- a flood activates ----

  /** The m-th event of the run is an observation of `x` that activates it, at a time in the window. */
  ghost predicate ActivatesAt(u: Setup, w: Windows, run: seq<Event>, x: string, from: real, to: real, m: nat) {
    && m < |run| && run[m].See? && run[m].o.key == x && from <= run[m].o.now <= to
    && Activates(u, WindowsAfter(u, w, run[..m]), run[m])
  }

  lemma ActivatesLater(u: Setup, w: Windows, run: seq<Event>, x: string, from: real, to: real, m: nat)
    requires run != [] && ActivatesAt(u, Next(u, w, run[0]), run[1..], x, from, to, m)
    ensures ActivatesAt(u, w, run, x, from, to, m + 1)
  {
    hide Activates, Next;
    assert run[..m + 1][0] == run[0] && run[..m + 1][1..] == run[1..][..m];
  }

  /** Every activation in a signature's history is an activating event of the run. */
  lemma {:induction false} HistoryActivates(u: Setup, w: Windows, run: seq<Event>, x: string, n: nat)
    requires var (times, acts) := History(u.c, w, Sightings(run), x); |times| == |acts| && n < |acts| && acts[n]
    ensures var t := History(u.c, w, Sightings(run), x).0[n]; exists m: nat :: ActivatesAt(u, w, run, x, t, t, m)
    decreases |run|
  {
    var t := History(u.c, w, Sightings(run), x).0[n];
    var e, rest := run[0], Sightings(run[1..]);
    if e.See? {
      assert Sightings(run)[0] == e.o && Sightings(run)[1..] == rest;
      var (w', out) := StepAll(u.c, w, e.o);
      var (times, acts) := History(u.c, w', rest, x);
      if e.o.key == x && out.Seen? {
        if n == 0 {
          assert run[..0] == [];
          assert ActivatesAt(u, w, run, x, t, t, 0);
        } else {
          HistoryActivates(u, w', run[1..], x, n - 1);
          var m: nat :| ActivatesAt(u, w', run[1..], x, t, t, m);
          ActivatesLater(u, w, run, x, t, t, m);
        }
      } else {
        HistoryActivates(u, w', run[1..], x, n);
        var m: nat :| ActivatesAt(u, w', run[1..], x, t, t, m);
        ActivatesLater(u, w, run, x, t, t, m);
      }
    } else {
      assert Sightings(run) == rest;
      HistoryActivates(u, w, run[1..], x, n);
      var m: nat :| ActivatesAt(u, w, run[1..], x, t, t, m);
      ActivatesLater(u, w, run, x, t, t, m);
    }
  }

  /** A flood of a signature contains an observation that activates it. */
  lemma FloodActivates(u: Setup, clock: real, run: seq<Event>, x: string, i: nat, j: nat)
    requires u.c.threshold >= 2 && Timed(clock, Sightings(run))
    requires var times := History(u.c, NoWindows(), Sightings(run), x).0;
      i <= j < |times| && Flood(times, i, j, FloodBurst(u.c), u.c.threshold as real)
    ensures var times := History(u.c, NoWindows(), Sightings(run), x).0;
      exists m: nat :: ActivatesAt(u, NoWindows(), run, x, times[i], times[j], m)
  {
    var obs := Sightings(run);
    FloodMeansActivation(u.c, clock, obs, x, i, j);
    hide History, Flood, ActivatesAt, Sightings, Timed, NoWindows;
    var (times, acts) := History(u.c, NoWindows(), obs, x);
    var n :| i <= n <= j && acts[n];
    HistoryOrdered(u.c, clock, obs, x, i, n);
    HistoryOrdered(u.c, clock, obs, x, n, j);
    HistoryActivates(u, NoWindows(), run, x, n);
    var m: nat :| ActivatesAt(u, NoWindows(), run, x, times[n], times[n], m);
    Widen(u, NoWindows(), run, x, times[n], times[i], times[j], m);
  }

  lemma HistoryOrdered(c: Config<string>, clock: real, obs: seq<Sighting<string>>, x: string, i: nat, j: nat)
    requires c.threshold >= 2 && Timed(clock, obs) && i <= j < |History(c, NoWindows(), obs, x).0|
    ensures var (times, acts) := History(c, NoWindows(), obs, x); |times| == |acts| && times[i] <= times[j]
  {
    FromStart(c, clock, obs, x);
    hide History, ServeAll, Flip;
  }

  lemma Widen(u: Setup, w: Windows, run: seq<Event>, x: string, t: real, from: real, to: real, m: nat)
    requires ActivatesAt(u, w, run, x, t, t, m) && from <= t <= to
    ensures ActivatesAt(u, w, run, x, from, to, m)
  {
    hide Activates, WindowsAfter;
  }

  // ---- an activation blocks ----

  /** The rule published under the id would block the request at `t` if it is active: it is enabled,
      unexpired, and matches. */
  ghost predicate WouldBlock(s: F.State, id: string, ctx: Context, t: nat, legacy: Context -> string, p: nat) {
    && p < |s.published| && s.published[p].rule.id == id
    && s.published[p].rule.enabled && !Expired(s.published[p].rule, t)
    && Matches(s.published[p].rule.condition, ctx, legacy)
  }

  /** An active rule, or one before it, is what evaluation returns. */
  lemma ActiveBlocks(s: F.State, id: string, ctx: Context, t: nat, legacy: Context -> string, p: nat,
                     hit: Option<RuntimeRule>)
    requires F.Agree(s) && F.ActiveAt(s, id, t) && WouldBlock(s, id, ctx, t, legacy, p)
    requires Best(s.published, hit, ctx, t, legacy)
    ensures hit.Some? && (hit.value == s.published[p] || Before(hit.value.rule, s.published[p].rule))
  {
    F.ActiveIff(s, id, t);
    assert s.published[p].activeUntilMs == F.Lookup(s.deadlines, id) > t;
    assert Fires(s.published[p], ctx, t, legacy) && s.published[p] in s.published;
  }

  // ---- together ----

  lemma {:induction false} OpsSplit(u: Setup, w: Windows, a: seq<Event>, b: seq<Event>)
    ensures Ops(u, w, a + b) == Ops(u, w, a) + Ops(u, WindowsAfter(u, w, a), b)
    decreases |a|
  {
    hide OpsOf, Next;
    if a == [] {
      assert a + b == b;
    } else {
      assert (a + b)[1..] == a[1..] + b;
      OpsSplit(u, Next(u, w, a[0]), a[1..], b);
    }
  }

  lemma {:induction false} RunSplit(s: F.State, a: seq<F.Op>, b: seq<F.Op>, fallback: nat)
    ensures F.Run(s, a + b, fallback) == F.Run(F.Run(s, a, fallback), b, fallback)
    decreases |a|
  {
    hide F.Step;
    if a == [] {
      assert a + b == b;
    } else {
      assert (a + b)[1..] == a[1..] + b;
      RunSplit(F.Step(s, a[0], fallback), a[1..], b, fallback);
    }
  }

  /** The engine before and after the m-th event, and what it does from then on. */
  ghost function EngineBefore(u: Setup, s: F.State, run: seq<Event>, m: nat): F.State
    requires m <= |run|
  {
    F.Run(s, Ops(u, NoWindows(), run[..m]), u.fallback)
  }

  ghost function OpsAfter(u: Setup, run: seq<Event>, m: nat): seq<F.Op>
    requires m < |run|
  {
    Ops(u, Next(u, WindowsAfter(u, NoWindows(), run[..m]), run[m]), run[m + 1..])
  }

  lemma EngineSplit(u: Setup, s: F.State, run: seq<Event>, m: nat)
    requires m < |run| && Activates(u, WindowsAfter(u, NoWindows(), run[..m]), run[m])
    ensures F.Run(s, Ops(u, NoWindows(), run), u.fallback) ==
      F.Run(F.Activate(EngineBefore(u, s, run, m), ActivationOf(u, run[m]), u.fallback), OpsAfter(u, run, m),
          u.fallback)
  {
    var w, e := WindowsAfter(u, NoWindows(), run[..m]), run[m];
    var a := F.DoActivate(ActivationOf(u, e));
    hide F.Activate, WindowsAfter;
    assert run == run[..m] + run[m..];
    OpsSplit(u, NoWindows(), run[..m], run[m..]);
    assert run[m..][0] == e && run[m..][1..] == run[m + 1..];
    assert Ops(u, w, run[m..]) == [a] + OpsAfter(u, run, m);
    RunSplit(s, Ops(u, NoWindows(), run[..m]), [a] + OpsAfter(u, run, m), u.fallback);
    assert ([a] + OpsAfter(u, run, m))[1..] == OpsAfter(u, run, m);
  }

  /** At the m-th event rule `i` is published for the activated signature; afterwards no activation
      addresses it and every reload that succeeds keeps its id and comes before its deadline; at the
      end the rule under its id would block the request, and `hit` is what evaluation returns. */
  ghost predicate Stands(u: Setup, s: F.State, run: seq<Event>, m: nat, i: nat, t: nat, ctx: Context,
                         legacy: Context -> string, p: nat, hit: Option<RuntimeRule>)
    requires m < |run| && run[m].See?
  {
    var e, a := EngineBefore(u, s, run, m), ActivationOf(u, run[m]);
    && i < |e.published| && F.Hits(e.published[i], a)
    && var id, d := e.published[i].rule.id, F.Deadline(e.published[i].rule, a, u.fallback, i);
    && t < d && F.NoneAddresses(F.Activate(e, a, u.fallback), OpsAfter(u, run, m), u.fallback, id)
    && F.AllKeep(OpsAfter(u, run, m), id, d)
    && WouldBlock(EngineAt(u, s, run), id, ctx, t, legacy, p)
        && Best(EngineAt(u, s, run).published, hit, ctx, t, legacy)
  }

  ghost function EngineAt(u: Setup, s: F.State, run: seq<Event>): F.State {
    F.Run(s, Ops(u, NoWindows(), run), u.fallback)
  }

  /** Evaluation returns the rule at a position, or one before it. */
  ghost predicate Blocked(s: F.State, p: nat, hit: Option<RuntimeRule>) {
    p < |s.published| && hit.Some? && (hit.value == s.published[p] || Before(hit.value.rule, s.published[p].rule))
  }

  lemma ActivationBlocks(u: Setup, s: F.State, run: seq<Event>, m: nat, i: nat, t: nat, ctx: Context,
                         legacy: Context -> string, p: nat, hit: Option<RuntimeRule>)
    requires F.Agree(s) && m < |run| && Activates(u, WindowsAfter(u, NoWindows(), run[..m]), run[m])
    requires Stands(u, s, run, m, i, t, ctx, legacy, p, hit)
    ensures Blocked(EngineAt(u, s, run), p, hit)
  {
    var e, a := EngineBefore(u, s, run, m), ActivationOf(u, run[m]);
    F.RunAgrees(s, Ops(u, NoWindows(), run[..m]), u.fallback);
    F.RunAgrees(s, Ops(u, NoWindows(), run), u.fallback);
    EngineSplit(u, s, run, m);
    F.ActivationSurvivesIff(e, a, u.fallback, i, OpsAfter(u, run, m), t);
    assert p < |EngineAt(u, s, run).published|;
    hide F.Run, F.Activate, Best, WouldBlock, Ops, OpsAfter, F.Agree, F.ActiveAt;
    ActiveBlocks(EngineAt(u, s, run), e.published[i].rule.id, ctx, t, legacy, p, hit);
  }

  /** From the m-th event on, every rule that stands blocks what it matches, itself or by a rule
      before it. */
  ghost predicate Protects(u: Setup, s: F.State, run: seq<Event>, m: nat, legacy: Context -> string)
    requires m < |run| && run[m].See?
  {
    forall i: nat, t: nat, ctx, p: nat, hit :: Stands(u, s, run, m, i, t, ctx, legacy, p, hit)
      ==> Blocked(EngineAt(u, s, run), p, hit)
  }

  /** A flood of a signature contains an observation from which on every adaptive rule published for
      that signature blocks the requests it matches, itself or by a rule before it, until its deadline,
      as long as no later activation addresses it and every reload that succeeds keeps its id and
      comes before the deadline. */
  lemma FloodLeadsToBlock(u: Setup, s: F.State, clock: real, run: seq<Event>, x: string, i: nat, j: nat,
                          legacy: Context -> string)
    requires F.Agree(s) && u.c.threshold >= 2 && Timed(clock, Sightings(run))
    requires var times := History(u.c, NoWindows(), Sightings(run), x).0;
      i <= j < |times| && Flood(times, i, j, FloodBurst(u.c), u.c.threshold as real)
    ensures var times := History(u.c, NoWindows(), Sightings(run), x).0;
      exists m: nat :: ActivatesAt(u, NoWindows(), run, x, times[i], times[j], m) && Protects(u, s, run, m, legacy)
  {
    FloodActivates(u, clock, run, x, i, j);
    var times := History(u.c, NoWindows(), Sightings(run), x).0;
    var m: nat :| ActivatesAt(u, NoWindows(), run, x, times[i], times[j], m);
    hide History, Flood, Sightings, Timed, Stands, Blocked, Activates, WindowsAfter, EngineAt, F.Agree;
    forall k: nat, t: nat, ctx, p: nat, hit | Stands(u, s, run, m, k, t, ctx, legacy, p, hit)
      ensures Blocked(EngineAt(u, s, run), p, hit)
    {
      ActivationBlocks(u, s, run, m, k, t, ctx, legacy, p, hit);
    }
    assert Protects(u, s, run, m, legacy);
  }
}
