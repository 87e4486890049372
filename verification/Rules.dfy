/** Filter rules: their order, what it takes to match one, and the evaluation loop with its memo. */
module Rules {
  import opened Options
  import opened Text
  import opened PathShapes

  datatype HeaderContains = HeaderContains(name: string, contains: string)

  datatype Condition = Condition(methods: seq<string>, pathExact: Option<string>, pathPrefix: Option<string>,
                                 pathContains: Option<string>, queryContains: Option<string>, pathShape: Option<string>,
                                 userAgentContains: Option<string>, headers: seq<HeaderContains>,
                                 signature: Option<string>)

  datatype Rule = Rule(id: string, enabled: bool, adaptive: bool, priority: nat, ttlSeconds: Option<nat>,
                       expiresAtMs: Option<nat>, condition: Condition, status: nat, body: string)

  datatype RuntimeRule = RuntimeRule(rule: Rule, activeUntilMs: nat)

  // ---- order ----

  /** Byte-wise string order. */
  predicate IdLess(a: string, b: string) {
    if a == "" then b != ""
    else b != "" && (a[0] < b[0] || (a[0] == b[0] && IdLess(a[1..], b[1..])))
  }

  lemma {:induction false} IdTotal(a: string, b: string)
    ensures IdLess(a, b) || a == b || IdLess(b, a)
    ensures !(IdLess(a, b) && IdLess(b, a)) && !IdLess(a, a)
  {
    if a != "" {
      IdTotal(a[1..], a[1..]);
      if b != "" {
        IdTotal(a[1..], b[1..]);
        if a[0] == b[0] && a[1..] == b[1..] { assert a == [a[0]] + a[1..] && b == [b[0]] + b[1..]; }
      }
    }
  }

  lemma {:induction false} IdTransitive(a: string, b: string, c: string)
    requires IdLess(a, b) && IdLess(b, c)
    ensures IdLess(a, c)
  {
    if a != "" && a[0] == b[0] == c[0] { IdTransitive(a[1..], b[1..], c[1..]); }
  }

  /** The id is a proper prefix of the other or has the smaller byte where they first differ. */
  ghost predicate Precedes(a: string, b: string, n: nat) {
    && n <= |a| && n <= |b| && (forall i | 0 <= i < n :: a[i] == b[i])
    && n < |b| && (n == |a| || a[n] < b[n])
  }

  lemma {:induction false} IdMeaning(a: string, b: string)
    ensures IdLess(a, b) <==> exists n: nat :: Precedes(a, b, n)
  {
    if a != "" && b != "" {
      IdMeaning(a[1..], b[1..]);
      if n: nat :| Precedes(a[1..], b[1..], n) {
        if a[0] == b[0] {
          forall i | 0 <= i < n + 1 ensures a[i] == b[i] { if i > 0 { assert a[1..][i - 1] == b[1..][i - 1]; } }
          assert Precedes(a, b, n + 1);
        }
      }
      if a[0] < b[0] { assert Precedes(a, b, 0); }
      if n: nat :| Precedes(a, b, n) {
        if n > 0 {
          assert a[0] == b[0];
          assert Precedes(a[1..], b[1..], n - 1);
        }
      }
    } else if a == "" && b != "" {
      assert Precedes(a, b, 0);
    }
  }

  /** Higher priority first, then the smaller id. */
  predicate Before(a: Rule, b: Rule) {
    a.priority > b.priority || (a.priority == b.priority && IdLess(a.id, b.id))
  }

  lemma BeforeOrder(a: Rule, b: Rule, c: Rule)
    ensures Before(a, b) && Before(b, c) ==> Before(a, c)
    ensures a.id != b.id ==> Before(a, b) || Before(b, a)
    ensures !(Before(a, b) && Before(b, a))
  {
    IdTotal(a.id, b.id);
    if IdLess(a.id, b.id) && IdLess(b.id, c.id) { IdTransitive(a.id, b.id, c.id); }
  }

  ghost predicate UniqueIds(rules: seq<Rule>) {
    forall i, j | 0 <= i < j < |rules| :: rules[i].id != rules[j].id
  }

  ghost predicate Sorted(rules: seq<Rule>) {
    forall i, j | 0 <= i < j < |rules| :: Before(rules[i], rules[j])
  }

  function Insert(r: Rule, rules: seq<Rule>): seq<Rule> {
    if rules == [] || Before(r, rules[0]) then [r] + rules else [rules[0]] + Insert(r, rules[1..])
  }

  function Sort(rules: seq<Rule>): seq<Rule> {
    if rules == [] then [] else Insert(rules[0], Sort(rules[1..]))
  }

  lemma {:induction false} InsertSorted(r: Rule, rules: seq<Rule>)
    requires Sorted(rules) && forall x | x in rules :: x.id != r.id
    ensures Sorted(Insert(r, rules))
    ensures multiset(Insert(r, rules)) == multiset(rules) + multiset{r}
  {
    if rules == [] {
    } else if Before(r, rules[0]) {
      forall x | x in rules ensures Before(r, x) { BeforeOrder(r, rules[0], x); }
    } else {
      var rest := rules[1..];
      assert rules == [rules[0]] + rest;
      InsertSorted(r, rest);
      forall x | x in Insert(r, rest) ensures Before(rules[0], x) {
        assert x in multiset(Insert(r, rest));
        if x == r { BeforeOrder(rules[0], r, r); }
      }
    }
  }

  /** Sorting keeps exactly the loaded rules and puts them in evaluation order. */
  lemma {:induction false} SortSorts(rules: seq<Rule>)
    requires UniqueIds(rules)
    ensures Sorted(Sort(rules)) && multiset(Sort(rules)) == multiset(rules)
  {
    if rules != [] {
      var rest := rules[1..];
      assert rules == [rules[0]] + rest;
      SortSorts(rest);
      forall x | x in Sort(rest) ensures x.id != rules[0].id {
        assert x in multiset(Sort(rest)) && x in rest;
      }
      InsertSorted(rules[0], Sort(rest));
    }
  }

  lemma {:induction false} SortedUnique(a: seq<Rule>, b: seq<Rule>)
    requires Sorted(a) && Sorted(b) && multiset(a) == multiset(b)
    ensures a == b
  {
    assert |multiset(a)| == |a| && |multiset(b)| == |b|;
    if a != [] {
      SameFirst(a, b);
      assert a == [a[0]] + a[1..] && b == [b[0]] + b[1..];
      assert multiset(a[1..]) == multiset(a) - multiset{a[0]};
      assert multiset(b[1..]) == multiset(b) - multiset{b[0]};
      SortedUnique(a[1..], b[1..]);
    }
  }

  lemma SameFirst(a: seq<Rule>, b: seq<Rule>)
    requires Sorted(a) && Sorted(b) && multiset(a) == multiset(b) && a != [] && b != []
    ensures a[0] == b[0]
  {
    assert a[0] in multiset(b) && b[0] in multiset(a);
    var i :| 0 <= i < |a| && a[i] == b[0];
    var j :| 0 <= j < |b| && b[j] == a[0];
    if i > 0 && j > 0 { BeforeOrder(a[0], b[0], b[0]); }
  }

  /** Published rules come by falling priority, and by rising id within a priority. */
  lemma SortedMeaning(rules: seq<Rule>, i: nat, j: nat)
    requires UniqueIds(rules) && i < j < |rules|
    ensures |Sort(rules)| == |rules|
    ensures var a, b := Sort(rules)[i], Sort(rules)[j];
      b.priority <= a.priority && (b.priority == a.priority ==> exists n: nat :: Precedes(a.id, b.id, n))
  {
    SortSorts(rules);
    assert |Sort(rules)| == |multiset(Sort(rules))| == |multiset(rules)| == |rules|;
    IdMeaning(Sort(rules)[i].id, Sort(rules)[j].id);
    assert Before(Sort(rules)[i], Sort(rules)[j]);
  }

  /** The order in which rules were loaded leaves no trace. */
  lemma LoadOrderIrrelevant(a: seq<Rule>, b: seq<Rule>)
    requires UniqueIds(a) && UniqueIds(b) && multiset(a) == multiset(b)
    ensures Sort(a) == Sort(b)
  {
    SortSorts(a);
    SortSorts(b);
    SortedUnique(Sort(a), Sort(b));
  }

  // ---- matching ----

  datatype Header = Header(name: string, value: string)

  datatype Context = Context(requestMethod: string, path: string, query: Option<string>, headers: seq<Header>,
      signature: string)

  predicate EqIgnoreCase(a: string, b: string) { Lowered(a) == Lowered(b) }

  predicate StartsWith(s: string, p: string) { |p| <= |s| && s[..|p|] == p }

  predicate Contains(s: string, p: string) { exists i | 0 <= i <= |s| :: StartsWith(s[i..], p) }

  /** A text contains another exactly when it is something, the other, and something; it starts with it
      exactly when the first something is empty. */
  lemma ContainsMeans(s: string, p: string)
    ensures Contains(s, p) <==> exists a: string, b: string :: s == a + p + b
    ensures StartsWith(s, p) <==> exists b: string :: s == p + b
  {
    if StartsWith(s, p) { assert s == p + s[|p|..]; }
    if i :| 0 <= i <= |s| && StartsWith(s[i..], p) { assert s == s[..i] + p + s[i..][|p|..]; }
    if a: string, b: string :| s == a + p + b { assert s[|a|..] == p + b && StartsWith(s[|a|..], p); }
  }

  predicate ContainsIgnoreCase(s: string, p: string) { Contains(Lowered(s), Lowered(p)) }

  /** Header bytes that can be read as text: visible ASCII, space and tab. */
  predicate Visible(s: string) { All((b: char) => ' ' <= b <= '~' || b == '\t', s) }

  predicate HeaderHas(headers: seq<Header>, name: string, needle: string) {
    exists i | 0 <= i < |headers| ::
      headers[i].name == Lowered(name) && Visible(headers[i].value) && ContainsIgnoreCase(headers[i].value, needle)
  }

  predicate HeadersMatch(headers: seq<Header>, wanted: seq<HeaderContains>) {
    forall i | 0 <= i < |wanted| :: HeaderHas(headers, wanted[i].name, wanted[i].contains)
  }

  /** The shape of the path or of its short-token parent is the expected one. */
  predicate ShapeMatches(path: string, expected: string) {
    Shape(path) == expected || (Parent(path).Some? && Parent(path).value.0 == expected)
  }

  function QueryText(ctx: Context): string { if ctx.query.Some? then ctx.query.value else "" }

  /** What it means to match a condition, every derived key computed afresh. `legacy` stands for
      the legacy signature of a request. */
  predicate Matches(c: Condition, ctx: Context, legacy: Context -> string) {
    && (forall i | 0 <= i < |c.headers| :: ValidName(c.headers[i].name))
    && (c.methods == [] || exists i | 0 <= i < |c.methods| :: EqIgnoreCase(c.methods[i], ctx.requestMethod))
    && (c.signature.Some? ==> c.signature.value == ctx.signature || c.signature.value == legacy(ctx))
    && (c.pathExact.Some? ==> ctx.path == c.pathExact.value)
    && (c.pathPrefix.Some? ==> StartsWith(ctx.path, c.pathPrefix.value))
    && (c.pathContains.Some? ==> Contains(ctx.path, c.pathContains.value))
    && (c.pathShape.Some? ==> ShapeMatches(ctx.path, c.pathShape.value))
    && (c.queryContains.Some? ==> Contains(QueryText(ctx), c.queryContains.value))
    && (c.userAgentContains.Some? ==> HeaderHas(ctx.headers, "user-agent", c.userAgentContains.value))
    && HeadersMatch(ctx.headers, c.headers)
  }

  predicate Expired(r: Rule, nowMs: nat) { r.expiresAtMs.Some? && r.expiresAtMs.value <= nowMs }

  predicate Eligible(rt: RuntimeRule, nowMs: nat) {
    rt.rule.enabled && !Expired(rt.rule, nowMs) && (rt.rule.adaptive ==> rt.activeUntilMs > nowMs)
  }

  predicate Fires(rt: RuntimeRule, ctx: Context, nowMs: nat, legacy: Context -> string) {
    Eligible(rt, nowMs) && Matches(rt.rule.condition, ctx, legacy)
  }

  /** A matching rule blocks while it is enabled, strictly before its expiry if it has one, and if it
      is adaptive strictly before the end of its activation. */
  lemma FiresExactly(rt: RuntimeRule, ctx: Context, nowMs: nat, legacy: Context -> string)
    requires Matches(rt.rule.condition, ctx, legacy)
    ensures Fires(rt, ctx, nowMs, legacy) <==>
      && rt.rule.enabled
      && (rt.rule.expiresAtMs == None || nowMs < rt.rule.expiresAtMs.value)
      && (!rt.rule.adaptive || nowMs < rt.activeUntilMs)
  {
  }

  /** Derived keys computed at most once per evaluation. */
  class Scratch {
    const ctx: Context
    const legacy: Context -> string
    var shape: Option<string>
    var parent: Option<Option<string>>
    var legacySignature: Option<string>

    /** Whatever has been memoised is what recomputing would give. */
    ghost predicate Valid()
      reads this
    {
      && (shape.Some? ==> shape.value == Shape(ctx.path))
      && (parent.Some? ==> parent.value == ParentShape(ctx.path))
      && (legacySignature.Some? ==> legacySignature.value == legacy(ctx))
    }

    constructor (ctx: Context, legacy: Context -> string)
      ensures Valid() && this.ctx == ctx && this.legacy == legacy
    {
      this.ctx, this.legacy := ctx, legacy;
      shape, parent, legacySignature := None, None, None;
    }

    method MatchesPathShape(expected: string) returns (ok: bool)
      requires Valid()
      modifies this
      ensures Valid() && ok == ShapeMatches(ctx.path, expected)
    {
      if shape.None? {
        shape := Some(Shape(ctx.path));
      }
      if shape.value == expected {
        return true;
      }
      if parent.None? {
        parent := Some(ParentShape(ctx.path));
      }
      return parent.value == Some(expected);
    }

    method IsLegacySignature(expected: string) returns (ok: bool)
      requires Valid()
      modifies this
      ensures Valid() && ok == (expected == legacy(ctx))
    {
      if legacySignature.None? {
        legacySignature := Some(legacy(ctx));
      }
      return legacySignature.value == expected;
    }
  }

  function ParentShape(path: string): Option<string> {
    match Parent(path)
    case None => None
    case Some(p) => Some(p.0)
  }

  /** `rule_matches`: the checks in the source's order, through the memo. */
  method RuleMatches(c: Condition, scratch: Scratch) returns (ok: bool)
    requires scratch.Valid()
    modifies scratch
    ensures scratch.Valid() && ok == Matches(c, scratch.ctx, scratch.legacy)
  {
    var ctx := scratch.ctx;
    if !(forall i | 0 <= i < |c.headers| :: ValidName(c.headers[i].name)) {
      return false;
    }
    if c.methods != [] && !(exists i | 0 <= i < |c.methods| :: EqIgnoreCase(c.methods[i], ctx.requestMethod)) {
      return false;
    }
    if c.signature.Some? && c.signature.value != ctx.signature {
      var isLegacy := scratch.IsLegacySignature(c.signature.value);
      if !isLegacy {
        return false;
      }
    }
    if c.pathExact.Some? && ctx.path != c.pathExact.value {
      return false;
    }
    if c.pathPrefix.Some? && !StartsWith(ctx.path, c.pathPrefix.value) {
      return false;
    }
    if c.pathContains.Some? && !Contains(ctx.path, c.pathContains.value) {
      return false;
    }
    if c.pathShape.Some? {
      var shaped := scratch.MatchesPathShape(c.pathShape.value);
      if !shaped {
        return false;
      }
    }
    if c.queryContains.Some? && !Contains(QueryText(ctx), c.queryContains.value) {
      return false;
    }
    if c.userAgentContains.Some? && !HeaderHas(ctx.headers, "user-agent", c.userAgentContains.value) {
      return false;
    }
    return HeadersMatch(ctx.headers, c.headers);
  }

  // ---- evaluation ----

  /** The first rule that fires, if any. */
  method Evaluate(rules: seq<RuntimeRule>, ctx: Context, nowMs: nat, legacy: Context -> string)
      returns (hit: Option<RuntimeRule>)
    ensures hit.None? ==> forall i | 0 <= i < |rules| :: !Fires(rules[i], ctx, nowMs, legacy)
    ensures hit.Some? ==> exists i | 0 <= i < |rules| ::
      && rules[i] == hit.value && Fires(rules[i], ctx, nowMs, legacy)
      && forall j | 0 <= j < i :: !Fires(rules[j], ctx, nowMs, legacy)
  {
    var scratch := new Scratch(ctx, legacy);
    var i := 0;
    while i < |rules|
      invariant 0 <= i <= |rules| && scratch.Valid() && fresh(scratch)
      invariant forall j | 0 <= j < i :: !Fires(rules[j], ctx, nowMs, legacy)
    {
      var rt := rules[i];
      if rt.rule.enabled && !Expired(rt.rule, nowMs) && (!rt.rule.adaptive || rt.activeUntilMs > nowMs) {
        var matched := RuleMatches(rt.rule.condition, scratch);
        if matched {
          return Some(rt);
        }
      }
      i := i + 1;
    }
    return None;
  }

  function Bare(rules: seq<RuntimeRule>): (r: seq<Rule>)
    ensures |r| == |rules| && forall i | 0 <= i < |r| :: r[i] == rules[i].rule
  {
    seq(|rules|, i requires 0 <= i < |rules| => rules[i].rule)
  }

  /** The rule that fires with the highest priority and, among those, the smallest id. */
  ghost predicate Best(rules: seq<RuntimeRule>, best: Option<RuntimeRule>, ctx: Context, nowMs: nat,
      legacy: Context -> string) {
    match best
    case None => forall rt | rt in rules :: !Fires(rt, ctx, nowMs, legacy)
    case Some(b) =>
      && b in rules && Fires(b, ctx, nowMs, legacy)
      && forall rt | rt in rules && Fires(rt, ctx, nowMs, legacy) :: rt == b || Before(b.rule, rt.rule)
  }

  /** On published rules evaluation returns the best firing rule. */
  method EvaluatePublished(rules: seq<RuntimeRule>, ctx: Context, nowMs: nat, legacy: Context -> string)
      returns (hit: Option<RuntimeRule>)
    requires Sorted(Bare(rules))
    ensures Best(rules, hit, ctx, nowMs, legacy)
    ensures hit.Some? ==> forall rt | rt in rules && Fires(rt, ctx, nowMs, legacy) ::
      && rt.rule.priority <= hit.value.rule.priority
      && (rt.rule.priority == hit.value.rule.priority && rt != hit.value ==>
            exists n: nat :: Precedes(hit.value.rule.id, rt.rule.id, n))
  {
    hit := Evaluate(rules, ctx, nowMs, legacy);
    if hit.Some? {
      var i :| 0 <= i < |rules| && rules[i] == hit.value
               && (forall j | 0 <= j < i :: !Fires(rules[j], ctx, nowMs, legacy));
      forall rt | rt in rules && Fires(rt, ctx, nowMs, legacy)
        ensures rt == hit.value || Before(hit.value.rule, rt.rule)
      {
        var k :| 0 <= k < |rules| && rules[k] == rt;
        if k > i { assert Before(Bare(rules)[i], Bare(rules)[k]); }
      }
      forall rt | rt in rules && Fires(rt, ctx, nowMs, legacy)
        ensures rt.rule.priority <= hit.value.rule.priority
        ensures rt.rule.priority == hit.value.rule.priority && rt != hit.value ==>
          exists n: nat :: Precedes(hit.value.rule.id, rt.rule.id, n)
      {
        IdMeaning(hit.value.rule.id, rt.rule.id);
      }
    }
  }

  /** There is only one best rule, so the verdict depends on the set of rules alone. */
  lemma BestUnique(a: seq<RuntimeRule>, b: seq<RuntimeRule>, x: Option<RuntimeRule>, y: Option<RuntimeRule>,
                   ctx: Context, nowMs: nat, legacy: Context -> string)
    requires forall rt :: rt in a <==> rt in b
    requires Best(a, x, ctx, nowMs, legacy) && Best(b, y, ctx, nowMs, legacy)
    ensures x == y
  {
    if x.Some? && y.Some? { BeforeOrder(x.value.rule, y.value.rule, x.value.rule); }
  }
}
