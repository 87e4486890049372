/** Activation of adaptive rules and reloads. Both run under the deadline mutex, so each is one
    step; what a step read before taking the mutex (the file, the clock) is an argument of it and
    may be stale, so runs below cover every interleaving. Times are in milliseconds. */
module FilterEngine {
  import opened Options
  import opened Rules
  import opened Words

  const TTL_MAX_SECONDS: nat := 86_400
  const DAY_MS: nat := 86_400_000

  /** What an activation addresses: rules by signature or by path shape. */
  datatype Target = Signature(value: string) | PathShape(value: string)

  predicate Aims(c: Condition, target: Target) {
    match target
    case Signature(s) => c.signature == Some(s)
    case PathShape(s) => c.pathShape == Some(s)
  }

  datatype State = State(deadlines: map<string, nat>, published: seq<RuntimeRule>)

  /** An activation: `now` decides expiry, `clock` is what the clock reads when the rule at a
      position is stamped, `ttl` is the requested lifetime in whole seconds. */
  datatype Activation = Activation(target: Target, ttl: Option<nat>, now: nat, clock: nat -> nat)

  function BoundedTtl(rule: Rule, ttl: Option<nat>, fallback: nat): (seconds: nat)
    ensures 1 <= seconds <= TTL_MAX_SECONDS
  {
    var wanted := if rule.ttlSeconds.Some? then rule.ttlSeconds.value else if ttl.Some? then ttl.value else fallback;
    if wanted < 1 then 1 else if wanted > TTL_MAX_SECONDS then TTL_MAX_SECONDS else wanted
  }

  predicate Hits(rt: RuntimeRule, a: Activation) {
    rt.rule.enabled && rt.rule.adaptive && !Expired(rt.rule, a.now) && Aims(rt.rule.condition, a.target)
  }

  function Deadline(rule: Rule, a: Activation, fallback: nat, position: nat): (d: nat)
    ensures d <= a.clock(position) + DAY_MS
  {
    Capped(a.clock(position) + 1000 * BoundedTtl(rule, a.ttl, fallback), U64_MAX)
  }

  /** The first `n` published rules have been considered. */
  function ActivateUpTo(s: State, a: Activation, fallback: nat, n: nat): (r: State)
    requires n <= |s.published|
    ensures |r.published| == |s.published|
    ensures forall i | 0 <= i < |s.published| :: r.published[i].rule == s.published[i].rule
    ensures forall i | n <= i < |s.published| :: r.published[i] == s.published[i]
  {
    if n == 0 then s
    else
      var r := ActivateUpTo(s, a, fallback, n - 1);
      var rt := s.published[n - 1];
      if Hits(rt, a) then
        var d := Deadline(rt.rule, a, fallback, n - 1);
        State(r.deadlines[rt.rule.id := d], r.published[n - 1 := RuntimeRule(rt.rule, d)])
      else r
  }

  function Activate(s: State, a: Activation, fallback: nat): State {
    ActivateUpTo(s, a, fallback, |s.published|)
  }

  function Ids(rules: seq<Rule>): set<string> { set r | r in rules :: r.id }

  function Retained(deadlines: map<string, nat>, ids: set<string>, now: nat): map<string, nat> {
    map id | id in deadlines && deadlines[id] > now && id in ids :: deadlines[id]
  }

  function Lookup(deadlines: map<string, nat>, id: string): nat { if id in deadlines then deadlines[id] else 0 }

  function Attach(rules: seq<Rule>, deadlines: map<string, nat>): (r: seq<RuntimeRule>)
    ensures |r| == |rules|
    ensures forall i | 0 <= i < |r| :: r[i] == RuntimeRule(rules[i], Lookup(deadlines, rules[i].id))
  {
    seq(|rules|, i requires 0 <= i < |rules| => RuntimeRule(rules[i], Lookup(deadlines, rules[i].id)))
  }

  /** What was read for a reload: nothing usable, or the merged rules. `valid` stands for the
      per-rule validation. */
  datatype Loaded = Unreadable | Merged(rules: seq<Rule>)

  predicate HasDuplicateId(rules: seq<Rule>) {
    exists i, j | 0 <= i < j < |rules| :: rules[i].id == rules[j].id
  }

  predicate Acceptable(loaded: Loaded, valid: Rule -> bool) {
    loaded.Merged? && !HasDuplicateId(loaded.rules) && forall i | 0 <= i < |loaded.rules| :: valid(loaded.rules[i])
  }

  function Reload(s: State, loaded: Loaded, valid: Rule -> bool, now: nat): State {
    if !Acceptable(loaded, valid) then s
    else
      var deadlines := Retained(s.deadlines, Ids(loaded.rules), now);
      State(deadlines, Attach(Sort(loaded.rules), deadlines))
  }

  // ---- the engine as the source keeps it ----

  class Engine {
    const fallbackTtl: nat
    var deadlines: map<string, nat>
    var rules: seq<RuntimeRule>

    ghost function View(): State reads this { State(deadlines, rules) }

    constructor (fallbackTtl: nat)
      ensures View() == State(map[], []) && this.fallbackTtl == fallbackTtl
    {
      this.fallbackTtl, deadlines, rules := fallbackTtl, map[], [];
    }

    method ActivateRules(a: Activation) returns (activated: bool)
      modifies this
      ensures View() == Activate(old(View()), a, fallbackTtl)
      ensures activated <==> exists i | 0 <= i < |old(rules)| :: Hits(old(rules)[i], a)
    {
      ghost var s := View();
      activated := false;
      var i := 0;
      while i < |rules|
        invariant 0 <= i <= |rules| == |s.published|
        invariant View() == ActivateUpTo(s, a, fallbackTtl, i)
        invariant activated <==> exists j | 0 <= j < i :: Hits(s.published[j], a)
      {
        var rt := rules[i];
        if rt.rule.enabled && rt.rule.adaptive && !Expired(rt.rule, a.now) && Aims(rt.rule.condition, a.target) {
          var until := Capped(a.clock(i) + 1000 * BoundedTtl(rt.rule, a.ttl, fallbackTtl), U64_MAX);
          rules := rules[i := RuntimeRule(rt.rule, until)];
          deadlines := deadlines[rt.rule.id := until];
          activated := true;
        }
        i := i + 1;
      }
    }

    method ReloadRules(loaded: Loaded, valid: Rule -> bool, now: nat) returns (ok: bool)
      modifies this
      ensures View() == Reload(old(View()), loaded, valid, now)
      ensures ok == Acceptable(loaded, valid)
    {
      ok := Acceptable(loaded, valid);
      if !ok {
        return;
      }
      var sorted := Sort(loaded.rules);
      deadlines := Retained(deadlines, Ids(loaded.rules), now);
      var runtime: seq<RuntimeRule> := [];
      var i := 0;
      while i < |sorted|
        invariant 0 <= i <= |sorted|
        invariant deadlines == Retained(old(deadlines), Ids(loaded.rules), now)
        invariant runtime == Attach(sorted, deadlines)[..i]
      {
        var rule := sorted[i];
        var until := if rule.id in deadlines && deadlines[rule.id] > now then deadlines[rule.id] else 0;
        runtime := runtime + [RuntimeRule(rule, until)];
        i := i + 1;
      }
      rules := runtime;
    }
  }

  // ---- deadlines and published rules agree ----

  /** Rules are published in evaluation order with distinct ids, each with its deadline. */
  ghost predicate Agree(s: State) {
    && UniqueIds(Bare(s.published)) && Sorted(Bare(s.published))
    && forall i | 0 <= i < |s.published| :: s.published[i].activeUntilMs == Lookup(s.deadlines, s.published[i].rule.id)
  }

  lemma {:induction false} ActivateAgrees(s: State, a: Activation, fallback: nat, n: nat)
    requires Agree(s) && n <= |s.published|
    ensures Agree(ActivateUpTo(s, a, fallback, n))
  {
    if n > 0 {
      ActivateAgrees(s, a, fallback, n - 1);
      var q, r := ActivateUpTo(s, a, fallback, n - 1), ActivateUpTo(s, a, fallback, n);
      assert Bare(r.published) == Bare(q.published);
      var rt := s.published[n - 1];
      if Hits(rt, a) {
        forall i | 0 <= i < |r.published|
          ensures r.published[i].activeUntilMs == Lookup(r.deadlines, r.published[i].rule.id)
        {
          if i != n - 1 { assert Bare(s.published)[i].id != Bare(s.published)[n - 1].id; }
        }
      }
    }
  }

  lemma ReloadAgrees(s: State, loaded: Loaded, valid: Rule -> bool, now: nat)
    requires Agree(s)
    ensures Agree(Reload(s, loaded, valid, now))
  {
    if Acceptable(loaded, valid) {
      SortSorts(loaded.rules);
      var r := Reload(s, loaded, valid, now);
      assert Bare(r.published) == Sort(loaded.rules);
      SortedIds(loaded.rules, Sort(loaded.rules));
    }
  }

  lemma SortedIds(rules: seq<Rule>, sorted: seq<Rule>)
    requires UniqueIds(rules) && Sorted(sorted) && multiset(sorted) == multiset(rules)
    ensures UniqueIds(sorted)
  {
    forall i, j | 0 <= i < j < |sorted| ensures sorted[i].id != sorted[j].id {
      var a, b := sorted[i], sorted[j];
      assert Before(a, b);
      BeforeOrder(a, b, a);
      assert a in multiset(rules) && b in multiset(rules);
      var p :| 0 <= p < |rules| && rules[p] == a;
      var q :| 0 <= q < |rules| && rules[q] == b;
    }
  }

  // ---- runs ----

  datatype Op = DoActivate(a: Activation) | DoReload(loaded: Loaded, valid: Rule -> bool, now: nat)

  function Step(s: State, op: Op, fallback: nat): State {
    match op
    case DoActivate(a) => Activate(s, a, fallback)
    case DoReload(loaded, valid, now) => Reload(s, loaded, valid, now)
  }

  function Run(s: State, ops: seq<Op>, fallback: nat): State
    decreases |ops|
  {
    if ops == [] then s else Run(Step(s, ops[0], fallback), ops[1..], fallback)
  }

  lemma StepAgrees(s: State, op: Op, fallback: nat)
    requires Agree(s)
    ensures Agree(Step(s, op, fallback))
  {
    match op
    case DoActivate(a) => ActivateAgrees(s, a, fallback, |s.published|);
    case DoReload(loaded, valid, now) => ReloadAgrees(s, loaded, valid, now);
  }

  /** In every interleaving of activations and reloads each published rule's activation time is
      its entry in the deadline map, and the rules stay in evaluation order with distinct ids. */
  lemma {:induction false} RunAgrees(s: State, ops: seq<Op>, fallback: nat)
    requires Agree(s)
    ensures Agree(Run(s, ops, fallback))
    decreases |ops|
  {
    if ops != [] {
      StepAgrees(s, ops[0], fallback);
      RunAgrees(Step(s, ops[0], fallback), ops[1..], fallback);
    }
  }

  predicate Fails(op: Op) { op.DoReload? && !Acceptable(op.loaded, op.valid) }

  /** The run without the reloads that cannot be read or do not validate. */
  function WithoutFailures(ops: seq<Op>): seq<Op> {
    if ops == [] then []
    else (if Fails(ops[0]) then [] else [ops[0]]) + WithoutFailures(ops[1..])
  }

  /** Failing reloads leave no trace: any run ends as it does without them. */
  lemma {:induction false} FailedReloadsInvisible(s: State, ops: seq<Op>, fallback: nat)
    ensures Run(s, WithoutFailures(ops), fallback) == Run(s, ops, fallback)
    decreases |ops|
  {
    if ops != [] {
      hide Activate;
      FailedReloadsInvisible(Step(s, ops[0], fallback), ops[1..], fallback);
      var rest := WithoutFailures(ops[1..]);
      if !Fails(ops[0]) { assert ([ops[0]] + rest)[1..] == rest; } else { assert [] + rest == rest; }
    }
  }

  // ---- an activation survives until its deadline ----

  ghost predicate Publishes(s: State, id: string) { exists i | 0 <= i < |s.published| :: s.published[i].rule.id == id }

  /** What one activation makes of a deadline. */
  lemma {:induction false} ActivationDeadline(s: State, a: Activation, fallback: nat, n: nat, id: string)
    requires Agree(s) && n <= |s.published|
    ensures var d := Lookup(ActivateUpTo(s, a, fallback, n).deadlines, id);
      || d == Lookup(s.deadlines, id)
      || exists i | 0 <= i < n :: s.published[i].rule.id == id && Hits(s.published[i], a)
                                  && d == Deadline(s.published[i].rule, a, fallback, i)
  {
    if n > 0 { ActivationDeadline(s, a, fallback, n - 1, id); }
  }

  /** Right after an activation every rule it addresses carries its deadline. */
  lemma {:induction false} ActivationStamps(s: State, a: Activation, fallback: nat, n: nat, i: nat)
    requires Agree(s) && i < n <= |s.published| && Hits(s.published[i], a)
    ensures var r := ActivateUpTo(s, a, fallback, n);
      && r.published[i].activeUntilMs == Deadline(s.published[i].rule, a, fallback, i)
      && Lookup(r.deadlines, s.published[i].rule.id) == Deadline(s.published[i].rule, a, fallback, i)
  {
    if i < n - 1 {
      ActivationStamps(s, a, fallback, n - 1, i);
      assert Bare(s.published)[i].id != Bare(s.published)[n - 1].id;
    }
  }

  lemma {:induction false} ActivationSpares(s: State, a: Activation, fallback: nat, n: nat, i: nat)
    requires n <= |s.published| && i < |s.published| && !Hits(s.published[i], a)
    ensures ActivateUpTo(s, a, fallback, n).published[i] == s.published[i]
  {
    if n > 0 { ActivationSpares(s, a, fallback, n - 1, i); }
  }

  /** An activation gives exactly the enabled, adaptive, unexpired rules for its signature or path shape
      the clock plus 1000 times a lifetime in seconds: the rule's own if it has one, else the requested
      one, else the fallback, but no less than a second and no more than a day. */
  lemma ActivatedUntil(s: State, a: Activation, fallback: nat, i: nat)
    requires Agree(s) && i < |s.published|
    ensures var rule, until := s.published[i].rule, Activate(s, a, fallback).published[i].activeUntilMs;
      var wanted := match rule.ttlSeconds { case Some(own) => own case None =>
        match a.ttl { case Some(requested) => requested case None => fallback } };
      var end := a.clock(i) + (if wanted == 0 then 1_000 else if wanted > 86_400 then 86_400_000 else 1_000 * wanted);
      var addressed := && rule.enabled && rule.adaptive
                       && (rule.expiresAtMs.Some? ==> a.now < rule.expiresAtMs.value)
                       && (a.target.Signature? ==> rule.condition.signature == Some(a.target.value))
                       && (a.target.PathShape? ==> rule.condition.pathShape == Some(a.target.value));
      if addressed then until == if end < 0x1_0000_0000_0000_0000 then end else 0xFFFF_FFFF_FFFF_FFFF
      else until == s.published[i].activeUntilMs
  {
    if Hits(s.published[i], a) {
      ActivationStamps(s, a, fallback, |s.published|, i);
    } else {
      ActivationSpares(s, a, fallback, |s.published|, i);
    }
    hide Agree, ActivateUpTo;
  }

  /** `op` activates the rule with this id. */
  ghost predicate Addresses(s: State, op: Op, id: string) {
    op.DoActivate? && exists i | 0 <= i < |s.published| :: s.published[i].rule.id == id && Hits(s.published[i], op.a)
  }

  ghost predicate NoneAddresses(s: State, ops: seq<Op>, fallback: nat, id: string)
    decreases |ops|
  {
    ops != [] ==> !Addresses(s, ops[0], id) && NoneAddresses(Step(s, ops[0], fallback), ops[1..], fallback, id)
  }

  /** A reload keeps a deadline `d` when it fails, or has the id and read the clock before `d`. */
  ghost predicate Keeps(op: Op, id: string, d: nat) {
    op.DoReload? && Acceptable(op.loaded, op.valid) ==> id in Ids(op.loaded.rules) && op.now < d
  }

  ghost predicate AllKeep(ops: seq<Op>, id: string, d: nat) { forall i | 0 <= i < |ops| :: Keeps(ops[i], id, d) }

  lemma AllKeepFirst(ops: seq<Op>, id: string, d: nat)
    requires ops != []
    ensures AllKeep(ops, id, d) <==> Keeps(ops[0], id, d) && AllKeep(ops[1..], id, d)
  {
    if AllKeep(ops[1..], id, d) { assert forall i | 1 <= i < |ops| :: ops[i] == ops[1..][i - 1]; }
  }

  /** An operation that does not address the rule keeps its deadline or drops it. */
  lemma UnaddressedStep(s: State, op: Op, fallback: nat, id: string)
    requires Agree(s) && !Addresses(s, op, id)
    ensures var d := Lookup(s.deadlines, id);
      Lookup(Step(s, op, fallback).deadlines, id) == if Keeps(op, id, d) then d else 0
    ensures Publishes(s, id) && Keeps(op, id, Lookup(s.deadlines, id)) ==> Publishes(Step(s, op, fallback), id)
  {
    match op
    case DoActivate(a) =>
      ActivationDeadline(s, a, fallback, |s.published|, id);
      if i :| 0 <= i < |s.published| && s.published[i].rule.id == id {
        assert Step(s, op, fallback).published[i].rule.id == id;
      }
    case DoReload(loaded, valid, now) =>
      if Acceptable(loaded, valid) && id in Ids(loaded.rules) { ReloadPublishes(s, loaded, valid, now, id); }
  }

  lemma ReloadPublishes(s: State, loaded: Loaded, valid: Rule -> bool, now: nat, id: string)
    requires Acceptable(loaded, valid) && id in Ids(loaded.rules)
    ensures Publishes(Reload(s, loaded, valid, now), id)
  {
    var r :| r in loaded.rules && r.id == id;
    SortSorts(loaded.rules);
    assert r in multiset(Sort(loaded.rules));
    var i :| 0 <= i < |Sort(loaded.rules)| && Sort(loaded.rules)[i] == r;
    assert Reload(s, loaded, valid, now).published[i].rule.id == id;
  }

  /** From the last activation of a rule on, its deadline is kept through the whole run if every
      reload that succeeds has its id and read the clock before the deadline, and is gone otherwise. */
  lemma {:induction false} UnaddressedRun(s: State, ops: seq<Op>, fallback: nat, id: string)
    requires Agree(s) && NoneAddresses(s, ops, fallback, id)
    ensures var d := Lookup(s.deadlines, id); var r := Run(s, ops, fallback);
      && Agree(r)
      && Lookup(r.deadlines, id) == (if AllKeep(ops, id, d) then d else 0)
      && (Publishes(s, id) && AllKeep(ops, id, d) ==> Publishes(r, id))
    decreases |ops|
  {
    if ops != [] {
      hide Step, Agree, Keeps, Addresses, Publishes;
      UnaddressedStep(s, ops[0], fallback, id);
      StepAgrees(s, ops[0], fallback);
      UnaddressedRun(Step(s, ops[0], fallback), ops[1..], fallback, id);
      AllKeepFirst(ops, id, Lookup(s.deadlines, id));
    }
  }

  /** Some published rule with this id is active at `t`. */
  ghost predicate ActiveAt(s: State, id: string, t: nat) {
    exists i | 0 <= i < |s.published| :: s.published[i].rule.id == id && s.published[i].activeUntilMs > t
  }

  lemma ActiveIff(s: State, id: string, t: nat)
    requires Agree(s)
    ensures ActiveAt(s, id, t) <==> Publishes(s, id) && Lookup(s.deadlines, id) > t
  {
  }

  /** No activation is lost: from the last activation that addresses a rule, and at every time
      before its deadline, the rule is active if and only if every reload that succeeded since then
      has its id and read the clock before that deadline. */
  lemma ActivationSurvivesIff(s: State, a: Activation, fallback: nat, i: nat, ops: seq<Op>, t: nat)
    requires Agree(s) && i < |s.published| && Hits(s.published[i], a)
    requires t < Deadline(s.published[i].rule, a, fallback, i)
    requires NoneAddresses(Activate(s, a, fallback), ops, fallback, s.published[i].rule.id)
    ensures ActiveAt(Run(Activate(s, a, fallback), ops, fallback), s.published[i].rule.id, t)
      <==> AllKeep(ops, s.published[i].rule.id, Deadline(s.published[i].rule, a, fallback, i))
  {
    hide Deadline, Run, AllKeep, Agree;
    var id, s1 := s.published[i].rule.id, Activate(s, a, fallback);
    ActivateAgrees(s, a, fallback, |s.published|);
    ActivationStamps(s, a, fallback, |s.published|, i);
    assert s1.published[i].rule.id == id;
    UnaddressedRun(s1, ops, fallback, id);
    ActiveIff(Run(s1, ops, fallback), id, t);
  }

  // ---- a later activation may end earlier ----

  /** A rule for the signature "s" with a lifetime of its own. */
  function Timed(seconds: nat): Rule {
    var condition := Condition([], None, None, None, None, None, None, [], Some("s"));
    Rule("r", true, true, 0, Some(seconds), None, condition, 403, "")
  }

  function LoadTimed(seconds: nat): Op { DoReload(Merged([Timed(seconds)]), (r: Rule) => true, 0) }

  function Trigger(): Activation { Activation(Signature("s"), None, 0, (p: nat) => 0) }

  function Only(seconds: nat, d: nat): State { State(map["r" := d], [RuntimeRule(Timed(seconds), d)]) }

  lemma TimedLoaded(s: State, seconds: nat)
    requires s == State(map[], []) || exists was, d :: d > 0 && s == Only(was, d)
    ensures var d := Lookup(s.deadlines, "r"); var r := Step(s, LoadTimed(seconds), 0);
      r.published == [RuntimeRule(Timed(seconds), d)] && r.deadlines == (if d > 0 then map["r" := d] else map[])
  {
    var rules := [Timed(seconds)];
    assert Acceptable(Merged(rules), (r: Rule) => true);
    assert Sort(rules) == rules;
    assert Ids(rules) == {"r"} by { assert Timed(seconds) in rules; }
    var kept := Retained(s.deadlines, Ids(rules), 0);
    assert kept == if Lookup(s.deadlines, "r") > 0 then map["r" := Lookup(s.deadlines, "r")] else map[];
  }

  lemma TimedActivated(s: State, seconds: nat, d: nat)
    requires 1 <= seconds <= TTL_MAX_SECONDS && s.published == [RuntimeRule(Timed(seconds), d)]
    requires s.deadlines == map[] || s.deadlines == map["r" := d]
    ensures Step(s, DoActivate(Trigger()), 0) == Only(seconds, 1000 * seconds)
  {
    assert ActivateUpTo(s, Trigger(), 0, 0) == s;
    assert Hits(s.published[0], Trigger());
    assert s.deadlines["r" := 1000 * seconds] == map["r" := 1000 * seconds];
  }

  /** A later activation replaces a deadline even by an earlier one: after a reload that shortens
      the rule's lifetime, the same activation at the same time takes back what the first gave. */
  lemma LaterActivationShortens(long: nat, short: nat)
    requires 1 <= short < long <= TTL_MAX_SECONDS
    ensures var first := [LoadTimed(long), DoActivate(Trigger())];
      && ActiveAt(Run(State(map[], []), first, 0), "r", 1000 * short)
      && !ActiveAt(Run(State(map[], []), first + [LoadTimed(short), DoActivate(Trigger())], 0), "r", 1000 * short)
  {
    var s0 := State(map[], []);
    TimedLoaded(s0, long);
    var s1 := Step(s0, LoadTimed(long), 0);
    TimedActivated(s1, long, 0);
    var s2 := Only(long, 1000 * long);
    TimedLoaded(s2, short);
    var s3 := Step(s2, LoadTimed(short), 0);
    TimedActivated(s3, short, 1000 * long);
    hide Step;
    var second := [LoadTimed(short), DoActivate(Trigger())];
    TwoSteps(s0, LoadTimed(long), DoActivate(Trigger()), second, 0);
    TwoSteps(s0, LoadTimed(long), DoActivate(Trigger()), [], 0);
    TwoSteps(s2, LoadTimed(short), DoActivate(Trigger()), [], 0);
    assert second + [] == second && [LoadTimed(long), DoActivate(Trigger())] + []
        == [LoadTimed(long), DoActivate(Trigger())];
    assert s2.published[0].rule.id == "r";
  }

  lemma TwoSteps(s: State, a: Op, b: Op, rest: seq<Op>, fallback: nat)
    ensures Run(s, [a, b] + rest, fallback) == Run(Step(Step(s, a, fallback), b, fallback), rest, fallback)
  {
    hide Step;
    var ops := [a, b] + rest;
    assert ops[1..][1..] == rest;
  }

  // ---- no deadline is further than a day from its activation ----

  /** In state `s` the operation addresses the rule with this id at a position and stamps it `d`. */
  ghost predicate Stamps(s: State, op: Op, fallback: nat, id: string, d: nat, position: nat) {
    && op.DoActivate? && position < |s.published| && Hits(s.published[position], op.a)
    && s.published[position].rule.id == id && d == Deadline(s.published[position].rule, op.a, fallback, position)
  }

  /** The j-th operation of the run stamped the rule `d`. */
  ghost predicate StampedAt(s: State, ops: seq<Op>, fallback: nat, id: string, d: nat, j: nat, position: nat) {
    j < |ops| && Stamps(Run(s, ops[..j], fallback), ops[j], fallback, id, d, position)
  }

  lemma {:induction false} ActivateOrigin(s: State, a: Activation, fallback: nat, n: nat, id: string)
    requires n <= |s.published| && id in ActivateUpTo(s, a, fallback, n).deadlines
    ensures var d := ActivateUpTo(s, a, fallback, n).deadlines[id];
      (id in s.deadlines && s.deadlines[id] == d) || exists p: nat :: Stamps(s, DoActivate(a), fallback, id, d, p)
  {
    if n > 0 {
      var rt := s.published[n - 1];
      if Hits(rt, a) && rt.rule.id == id {
        assert Stamps(s, DoActivate(a), fallback, id, Deadline(rt.rule, a, fallback, n - 1), n - 1);
      } else {
        ActivateOrigin(s, a, fallback, n - 1, id);
      }
    }
  }

  lemma StampedLater(s: State, ops: seq<Op>, fallback: nat, id: string, d: nat, j: nat, p: nat)
    requires ops != [] && StampedAt(Step(s, ops[0], fallback), ops[1..], fallback, id, d, j, p)
    ensures StampedAt(s, ops, fallback, id, d, j + 1, p)
  {
    hide Step, Stamps;
    assert ops[..j + 1][0] == ops[0] && ops[..j + 1][1..] == ops[1..][..j];
  }

  /** After any run every deadline is one from the start, or was set by an activation of the run that
      addressed its rule, and then lies at most 24 hours after the clock reading it was set at. */
  lemma {:induction false} DeadlinesWithinADay(s: State, ops: seq<Op>, fallback: nat, id: string)
    requires id in Run(s, ops, fallback).deadlines
    ensures var d := Run(s, ops, fallback).deadlines[id];
      || (id in s.deadlines && s.deadlines[id] == d)
      || exists j: nat, p: nat :: StampedAt(s, ops, fallback, id, d, j, p) && d <= ops[j].a.clock(p) + 86_400_000
    decreases |ops|
  {
    if ops != [] {
      var s1, d := Step(s, ops[0], fallback), Run(s, ops, fallback).deadlines[id];
      DeadlinesWithinADay(s1, ops[1..], fallback, id);
      if id in s1.deadlines && s1.deadlines[id] == d {
        if ops[0].DoActivate? {
          ActivateOrigin(s, ops[0].a, fallback, |s.published|, id);
          if p: nat :| Stamps(s, ops[0], fallback, id, d, p) {
            assert ops[..0] == [];
            assert StampedAt(s, ops, fallback, id, d, 0, p);
          }
        }
      } else {
        var j: nat, p: nat :| StampedAt(s1, ops[1..], fallback, id, d, j, p) && d <= ops[1..][j].a.clock(p)
            + 86_400_000;
        StampedLater(s, ops, fallback, id, d, j, p);
      }
    }
  }
}
