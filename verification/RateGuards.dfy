/** The minimum-rate guards on request bodies and relayed TCP streams: after a grace period, the
    bytes since the last satisfied measurement must keep up with a configured rate. Times are
    nanoseconds; a reading that starts a body guard reads the clock twice, `begin` and then `now`. */
module RateGuards {
  import opened Options
  import opened Words

  const SECOND: nat := 1_000_000_000
  const MILLI: nat := 1_000_000

  function Since(now: nat, then': nat): nat { if now >= then' then now - then' else 0 }

  /** What the body guard asks for after `nanos`, in 128-bit arithmetic. */
  function BodyRequired(rate: nat, nanos: nat): nat { Capped(rate * nanos, U128_MAX) / SECOND }

  /** What the TCP guard asks for after `ms` milliseconds: the cast to 64 bits wraps around, the
      product saturates. */
  function TcpRequired(rate: nat, ms: nat): nat { Capped(rate * (ms % (U64_MAX + 1)), U64_MAX) / 1000 }

  /** Bytes counted since a moment of time. */
  datatype Window = Window(since: nat, bytes: nat)

  /** No window while the grace period lasts. */
  datatype Guard = Guard(started: Option<nat>, window: Option<Window>)

  const NEW := Guard(None, None)

  datatype Reading = Reading(begin: nat, now: nat, bytes: nat)

  /** `Free` readings pass unmeasured; the other two answers are those of a measurement. */
  datatype Outcome = Free | Pass | Fail

  datatype Config = Config(rate: nat, grace: nat, skipEmpty: bool, required: nat -> nat)

  function BodyConfig(rate: nat, grace: nat): Config {
    Config(rate, grace, false, (nanos: nat) => BodyRequired(rate, nanos))
  }

  function TcpConfig(rate: nat, grace: nat): Config {
    Config(rate, grace, true, (nanos: nat) => TcpRequired(rate, nanos / MILLI))
  }

  function Measure(c: Config, w: Window, e: Reading): (Window, Outcome) {
    var total := Capped(w.bytes + e.bytes, U64_MAX);
    if total >= c.required(Since(e.now, w.since)) then (Window(e.now, 0), Pass) else (Window(w.since, total), Fail)
  }

  function Step(c: Config, g: Guard, e: Reading): (Guard, Outcome) {
    if c.rate == 0 || (c.skipEmpty && e.bytes == 0) then (g, Free)
    else
      var s := if g.started.Some? then g.started.value else e.begin;
      if g.window.None? && Since(e.now, s) <= c.grace then (Guard(Some(s), None), Free)
      else
        var (w, outcome) := Measure(c, if g.window.Some? then g.window.value else Window(s + c.grace, 0), e);
        (Guard(Some(s), Some(w)), outcome)
  }

  function Run(c: Config, g: Guard, run: seq<Reading>): Guard
    decreases |run|
  {
    if run == [] then g else Run(c, Step(c, g, run[0]).0, run[1..])
  }

  /** How many measurements of a run pass. */
  function Passes(c: Config, g: Guard, run: seq<Reading>): nat
    decreases |run|
  {
    if run == [] then 0
    else (if Step(c, g, run[0]).1 == Pass then 1 else 0) + Passes(c, Step(c, g, run[0]).0, run[1..])
  }

  /** The last reading of the run is a measurement that passes. */
  predicate EndsWithPass(c: Config, g: Guard, run: seq<Reading>)
    decreases |run|
  {
    run != [] && if |run| == 1 then Step(c, g, run[0]).1 == Pass else EndsWithPass(c, Step(c, g, run[0]).0, run[1..])
  }

  function Total(run: seq<Reading>): nat { if run == [] then 0 else run[0].bytes + Total(run[1..]) }

  ghost predicate Ordered(run: seq<Reading>) {
    && (forall i | 0 <= i < |run| :: run[i].begin <= run[i].now)
    && (forall i, j | 0 <= i < j < |run| :: run[i].now <= run[j].begin)
  }

  // ---- what a single measurement guarantees ----

  /** The bytes are within one byte and `slack` billionths of a byte of the rate. */
  ghost predicate Covers(rate: nat, nanos: nat, bytes: nat, slack: nat) {
    SECOND * bytes + SECOND + slack > rate * nanos
  }

  /** Up to `span` nanoseconds, every 64-bit count that satisfies the requirement covers the time. */
  ghost predicate Sound(c: Config, slack: nat, span: nat) {
    forall nanos: nat, w: nat :: nanos <= span && w <= U64_MAX && w >= c.required(nanos) ==>
      Covers(c.rate, nanos, w, slack)
  }

  lemma BodyCovers(rate: nat, nanos: nat, w: nat)
    requires w <= U64_MAX && w >= BodyRequired(rate, nanos)
    ensures Covers(rate, nanos, w, 0)
  {
    var asked := rate * nanos;
    assert BodyRequired(rate, nanos) == Capped(asked, U128_MAX) / SECOND;
  }

  /** The body guard's arithmetic never falls short: where the 128-bit product saturates, no 64-bit
      count of bytes satisfies the requirement. */
  lemma BodySound(rate: nat, grace: nat, span: nat)
    ensures Sound(BodyConfig(rate, grace), 0, span)
  {
    var c := BodyConfig(rate, grace);
    forall nanos: nat, w: nat | nanos <= span && w <= U64_MAX && w >= c.required(nanos)
      ensures Covers(rate, nanos, w, 0)
    {
      BodyCovers(rate, nanos, w);
    }
  }

  /** Within one byte of the rate over whole milliseconds. */
  ghost predicate CoversMs(rate: nat, ms: nat, bytes: nat) { 1000 * bytes + 1000 > rate * ms }

  const TCP_LIMIT: nat := (U64_MAX / 1000 + 1) * 1000

  lemma Times(rate: nat, a: nat, b: nat)
    requires a <= b
    ensures rate * a <= rate * b && rate * b == rate * a + rate * (b - a)
  {
  }

  lemma TcpShort(rate: nat, ms: nat)
    requires rate > 0 && (ms > U64_MAX || rate * ms >= TCP_LIMIT)
    ensures !CoversMs(rate, ms, TcpRequired(rate, ms))
  {
    var asked, full := rate * (ms % (U64_MAX + 1)), rate * ms;
    assert TcpRequired(rate, ms) == Capped(asked, U64_MAX) / 1000;
    if rate >= 2 { Times(ms, 2, rate); }
  }

  /** Counts that satisfy the TCP guard cover whole milliseconds exactly while neither the cast nor
      the product leaves 64 bits. */
  lemma TcpExact(rate: nat, ms: nat)
    requires rate > 0
    ensures (forall w: nat :: w >= TcpRequired(rate, ms) ==> CoversMs(rate, ms, w))
      <==> ms <= U64_MAX && rate * ms < TCP_LIMIT
  {
    if ms <= U64_MAX && rate * ms < TCP_LIMIT {
      assert ms % (U64_MAX + 1) == ms;
      var asked := rate * ms;
      assert TcpRequired(rate, ms) == Capped(asked, U64_MAX) / 1000;
    } else {
      TcpShort(rate, ms);
    }
  }

  lemma TcpCovers(rate: nat, nanos: nat, span: nat, w: nat)
    requires rate > 0 && span / MILLI <= U64_MAX && rate * (span / MILLI) < TCP_LIMIT
    requires nanos <= span && w >= TcpRequired(rate, nanos / MILLI)
    ensures Covers(rate, nanos, w, rate * MILLI)
  {
    var ms := nanos / MILLI;
    Times(rate, ms, span / MILLI);
    TcpExact(rate, ms);
    assert CoversMs(rate, ms, w);
    Times(rate, nanos, (ms + 1) * MILLI);
    assert rate * ((ms + 1) * MILLI) == (rate * ms) * MILLI + rate * MILLI;
  }

  lemma TcpSound(rate: nat, grace: nat, span: nat)
    requires rate > 0 && TcpFits(rate, span)
    ensures Sound(TcpConfig(rate, grace), rate * MILLI, span)
  {
    var c := TcpConfig(rate, grace);
    forall nanos: nat, w: nat | nanos <= span && w <= U64_MAX && w >= c.required(nanos)
      ensures Covers(rate, nanos, w, rate * MILLI)
    {
      TcpCovers(rate, nanos, span, w);
    }
  }

  // ---- runs ----

  /** The account of a run of measurements from one window to another: the bytes put in, with one
      byte and the slack for every pass, pay for the bytes still counted and the time moved on. */
  ghost predicate Pays(c: Config, slack: nat, from: Window, bytes: nat, passes: nat, to: Window) {
    && from.since <= to.since
    && SECOND * (from.bytes + bytes) + passes * (SECOND + slack)
       >= SECOND * to.bytes + c.rate * (to.since - from.since) + passes
  }

  lemma MeasurePays(c: Config, slack: nat, span: nat, w: Window, e: Reading)
    requires Sound(c, slack, span) && w.since <= e.now <= w.since + span
    ensures var (w', o) := Measure(c, w, e); Pays(c, slack, w, e.bytes, if o == Pass then 1 else 0, w')
  {
    var total := Capped(w.bytes + e.bytes, U64_MAX);
    if total >= c.required(e.now - w.since) {
      assert Covers(c.rate, e.now - w.since, total, slack);
    }
  }

  lemma PaysTogether(c: Config, slack: nat, x: Window, b1: nat, n1: nat, y: Window, b2: nat, n2: nat, z: Window)
    requires Pays(c, slack, x, b1, n1, y) && Pays(c, slack, y, b2, n2, z)
    ensures Pays(c, slack, x, b1 + b2, n1 + n2, z)
  {
    assert c.rate * (z.since - x.since) == c.rate * (y.since - x.since) + c.rate * (z.since - y.since);
    assert (n1 + n2) * (SECOND + slack) == n1 * (SECOND + slack) + n2 * (SECOND + slack);
  }

  /** The window a reading is measured in. */
  function Current(c: Config, g: Guard, e: Reading): Window {
    if g.window.Some? then g.window.value
    else Window((if g.started.Some? then g.started.value else e.begin) + c.grace, 0)
  }

  /** Every measured reading comes within `span` of the window it is measured in. */
  ghost predicate Near(c: Config, g: Guard, run: seq<Reading>, span: nat)
    decreases |run|
  {
    run != [] ==>
      && (Step(c, g, run[0]).1 != Free ==> run[0].now <= Current(c, g, run[0]).since + span)
      && Near(c, Step(c, g, run[0]).0, run[1..], span)
  }

  /** Measured from any window, with passing and failing measurements in any order. */
  lemma {:induction false} RunPays(c: Config, slack: nat, span: nat, g: Guard, run: seq<Reading>)
    requires c.rate > 0 && Sound(c, slack, span) && g.started.Some? && g.window.Some?
    requires Ordered(run) && Near(c, g, run, span)
    requires forall i | 0 <= i < |run| :: g.window.value.since <= run[i].now
    ensures Run(c, g, run).window.Some?
    ensures Pays(c, slack, g.window.value, Total(run), Passes(c, g, run), Run(c, g, run).window.value)
    decreases |run|
  {
    if run != [] {
      var (g', o) := Step(c, g, run[0]);
      var w := g.window.value;
      if o != Free { MeasurePays(c, slack, span, w, run[0]); }
      forall i | 0 <= i < |run[1..]| ensures g'.window.value.since <= run[1..][i].now {
        assert run[1..][i] == run[i + 1] && run[0].now <= run[i + 1].begin;
      }
      RunPays(c, slack, span, g', run[1..]);
      PaysTogether(c, slack, w, run[0].bytes, if o == Pass then 1 else 0, g'.window.value,
                   Total(run[1..]), Passes(c, g', run[1..]), Run(c, g', run[1..]).window.value);
    }
  }

  /** A pass restarts the window with nothing in it. */
  lemma {:induction false} PassRestarts(c: Config, g: Guard, run: seq<Reading>)
    requires EndsWithPass(c, g, run)
    ensures Passes(c, g, run) >= 1
    ensures Run(c, g, run).window == Some(Window(run[|run| - 1].now, 0))
    decreases |run|
  {
    if |run| > 1 { PassRestarts(c, Step(c, g, run[0]).0, run[1..]); }
  }

  /** Over every stretch from one passed measurement to another, the bytes in between and one byte
      plus the slack for each pass exceed the rate times the time: surplus from before the stretch
      earns nothing. */
  lemma StretchBound(c: Config, slack: nat, span: nat, g: Guard, since: nat, run: seq<Reading>)
    requires c.rate > 0 && Sound(c, slack, span) && g.started.Some? && g.window == Some(Window(since, 0))
    requires Ordered(run) && Near(c, g, run, span) && EndsWithPass(c, g, run)
    requires forall i | 0 <= i < |run| :: since <= run[i].now
    ensures var n := Passes(c, g, run);
      SECOND * Total(run) + n * (SECOND + slack) > c.rate * (run[|run| - 1].now - since)
  {
    RunPays(c, slack, span, g, run);
    PassRestarts(c, g, run);
  }

  // ---- the grace period ----

  ghost predicate InGrace(c: Config, run: seq<Reading>, s: nat) {
    forall i | 0 <= i < |run| :: run[i].now <= s + c.grace
  }

  /** A guard started at `s`. */
  function Begun(s: nat): Guard { Guard(Some(s), None) }

  /** The first reading that counts starts a new guard. */
  lemma FirstReadingBegins(c: Config, e: Reading)
    requires c.rate > 0 && !(c.skipEmpty && e.bytes == 0)
    ensures Step(c, NEW, e) == Step(c, Begun(e.begin), e)
  {
  }

  lemma {:induction false} GraceIsFree(c: Config, s: nat, run: seq<Reading>)
    requires c.rate > 0 && InGrace(c, run, s)
    ensures Run(c, Begun(s), run) == Begun(s) && Passes(c, Begun(s), run) == 0
    decreases |run|
  {
    if run != [] {
      assert forall i | 0 <= i < |run[1..]| :: run[1..][i] == run[i + 1];
      GraceIsFree(c, s, run[1..]);
    }
  }

  /** The first reading after the grace period is measured as if a window had opened when it ended. */
  lemma GraceEnds(c: Config, s: nat, e: Reading)
    requires e.now > s + c.grace
    ensures Step(c, Guard(Some(s), None), e).1 == Step(c, Guard(Some(s), Some(Window(s + c.grace, 0))), e).1
    ensures c.rate > 0 && !(c.skipEmpty && e.bytes == 0) ==>
      Step(c, Guard(Some(s), None), e) == Step(c, Guard(Some(s), Some(Window(s + c.grace, 0))), e)
  {
  }

  lemma {:induction false} OpenedLate(c: Config, s: nat, run: seq<Reading>, span: nat)
    requires c.rate > 0 && forall i | 0 <= i < |run| :: run[i].now > s + c.grace
    ensures var a, b := Begun(s), Guard(Some(s), Some(Window(s + c.grace, 0)));
      && Passes(c, a, run) == Passes(c, b, run) && EndsWithPass(c, a, run) == EndsWithPass(c, b, run)
      && Near(c, a, run, span) == Near(c, b, run, span)
  {
    if run != [] {
      GraceEnds(c, s, run[0]);
      if c.skipEmpty && run[0].bytes == 0 { OpenedLate(c, s, run[1..], span); }
    }
  }

  /** The readings of a guard started at `s`: some within its grace period, then some after it. */
  ghost predicate Life(c: Config, s: nat, early: seq<Reading>, late: seq<Reading>) {
    InGrace(c, early, s) && Ordered(late) && forall i | 0 <= i < |late| :: late[i].now > s + c.grace
  }

  ghost function Elapsed(c: Config, s: nat, early: seq<Reading>, late: seq<Reading>): nat
    requires Life(c, s, early, late) && late != []
  {
    late[|late| - 1].now - (s + c.grace)
  }

  /** Whatever came in the grace period, the bytes after it and one byte plus the slack for each
      pass exceed the rate times the time since it ended. */
  lemma GuardBound(c: Config, slack: nat, span: nat, s: nat, early: seq<Reading>, late: seq<Reading>)
    requires c.rate > 0 && Sound(c, slack, span) && Life(c, s, early, late)
    requires EndsWithPass(c, Run(c, Begun(s), early), late) && Near(c, Begun(s), late, span)
    ensures Passes(c, Begun(s), early) == 0
    ensures var n := Passes(c, Run(c, Begun(s), early), late);
      SECOND * Total(late) + n * (SECOND + slack) > c.rate * Elapsed(c, s, early, late)
  {
    GraceIsFree(c, s, early);
    OpenedLate(c, s, late, span);
    StretchBound(c, slack, span, Guard(Some(s), Some(Window(s + c.grace, 0))), s + c.grace, late);
  }

  /** Readings up to a moment are near every window opened before them. */
  lemma {:induction false} NearUntil(c: Config, g: Guard, run: seq<Reading>, from: nat, span: nat)
    requires g.started.Some? && from <= g.started.value + c.grace && (g.window.Some? ==> from <= g.window.value.since)
    requires Ordered(run) && forall i | 0 <= i < |run| :: from <= run[i].now <= from + span
    ensures Near(c, g, run, span)
    decreases |run|
  {
    if run != [] {
      assert forall i | 0 <= i < |run[1..]| :: run[1..][i] == run[i + 1];
      NearUntil(c, Step(c, g, run[0]).0, run[1..], from, span);
    }
  }

  /** For every run of a started body guard that ends with a pass: the bytes since the grace period
      and one byte per pass exceed the rate times the seconds since it ended. */
  lemma BodyGuardBound(rate: nat, grace: nat, s: nat, early: seq<Reading>, late: seq<Reading>)
    requires rate > 0 && Life(BodyConfig(rate, grace), s, early, late)
    requires EndsWithPass(BodyConfig(rate, grace), Run(BodyConfig(rate, grace), Begun(s), early), late)
    ensures var c := BodyConfig(rate, grace); var n := Passes(c, Run(c, Begun(s), early), late);
      SECOND * (Total(late) + n) > rate * Elapsed(c, s, early, late)
  {
    var c := BodyConfig(rate, grace);
    var span := Elapsed(c, s, early, late);
    BodySound(rate, grace, span);
    LastIsLatest(late);
    NearUntil(c, Begun(s), late, s + grace, span);
    GuardBound(c, 0, span, s, early, late);
  }

  /** The distances from a window for which the TCP guard's arithmetic stays exact. */
  predicate TcpFits(rate: nat, span: nat) { span / MILLI <= U64_MAX && rate * (span / MILLI) < TCP_LIMIT }

  /** The same for a started TCP guard, with another thousandth of the rate per pass for its
      truncation to milliseconds, as long as each reading is near enough to the window it is
      measured in; how long the connection lasts does not matter. */
  lemma TcpGuardBound(rate: nat, grace: nat, span: nat, s: nat, early: seq<Reading>, late: seq<Reading>)
    requires rate > 0 && TcpFits(rate, span) && Life(TcpConfig(rate, grace), s, early, late)
    requires EndsWithPass(TcpConfig(rate, grace), Run(TcpConfig(rate, grace), Begun(s), early), late)
    requires Near(TcpConfig(rate, grace), Begun(s), late, span)
    ensures var c := TcpConfig(rate, grace); var n := Passes(c, Run(c, Begun(s), early), late);
      SECOND * Total(late) + n * (SECOND + rate * MILLI) > rate * Elapsed(c, s, early, late)
  {
    TcpSound(rate, grace, span);
    GuardBound(TcpConfig(rate, grace), rate * MILLI, span, s, early, late);
  }

  // ---- from a new guard ----

  lemma {:induction false} RunAppend(c: Config, g: Guard, a: seq<Reading>, b: seq<Reading>)
    ensures Run(c, g, a + b) == Run(c, Run(c, g, a), b)
    ensures Passes(c, g, a + b) == Passes(c, g, a) + Passes(c, Run(c, g, a), b)
    ensures b != [] ==> EndsWithPass(c, g, a + b) == EndsWithPass(c, Run(c, g, a), b)
    decreases |a|
  {
    hide Step;
    if a == [] {
      assert a + b == b;
    } else {
      assert (a + b)[1..] == a[1..] + b;
      RunAppend(c, Step(c, g, a[0]).0, a[1..], b);
    }
  }

  /** A new guard behaves as one started when its first counted reading began. */
  lemma NewIsBegun(c: Config, run: seq<Reading>)
    requires c.rate > 0 && run != [] && !(c.skipEmpty && run[0].bytes == 0)
    ensures Passes(c, NEW, run) == Passes(c, Begun(run[0].begin), run)
    ensures EndsWithPass(c, NEW, run) == EndsWithPass(c, Begun(run[0].begin), run)
  {
    FirstReadingBegins(c, run[0]);
    hide Step;
  }

  lemma NewSplits(c: Config, early: seq<Reading>, late: seq<Reading>)
    requires c.rate > 0 && late != [] && !(c.skipEmpty && (early + late)[0].bytes == 0)
    requires Life(c, (early + late)[0].begin, early, late)
    ensures var g := Begun((early + late)[0].begin);
      && Passes(c, NEW, early + late) == Passes(c, Run(c, g, early), late)
      && EndsWithPass(c, NEW, early + late) == EndsWithPass(c, Run(c, g, early), late)
  {
    var s := (early + late)[0].begin;
    NewIsBegun(c, early + late);
    RunAppend(c, Begun(s), early, late);
    GraceIsFree(c, s, early);
  }

  /** The bound over the whole life of a new body guard, from its first reading on. */
  lemma NewBodyGuardBound(rate: nat, grace: nat, early: seq<Reading>, late: seq<Reading>)
    requires rate > 0 && late != [] && Life(BodyConfig(rate, grace), (early + late)[0].begin, early, late)
    requires EndsWithPass(BodyConfig(rate, grace), NEW, early + late)
    ensures var c := BodyConfig(rate, grace);
      1_000_000_000 * (Total(late) + Passes(c, NEW, early + late)) > rate * Elapsed(c, (early + late)[0].begin,
          early, late)
  {
    NewSplits(BodyConfig(rate, grace), early, late);
    BodyGuardBound(rate, grace, (early + late)[0].begin, early, late);
  }

  /** The bound over the whole life of a new TCP guard, from its first reading with bytes on. */
  lemma NewTcpGuardBound(rate: nat, grace: nat, span: nat, early: seq<Reading>, late: seq<Reading>)
    requires rate > 0 && TcpFits(rate, span) && late != [] && (early + late)[0].bytes > 0
    requires Life(TcpConfig(rate, grace), (early + late)[0].begin, early, late)
    requires EndsWithPass(TcpConfig(rate, grace), NEW, early + late)
    requires Near(TcpConfig(rate, grace), Begun((early + late)[0].begin), late, span)
    ensures var c := TcpConfig(rate, grace); var n := Passes(c, NEW, early + late);
      1_000_000_000 * Total(late) + n * (1_000_000_000 + rate * 1_000_000)
      > rate * Elapsed(c, (early + late)[0].begin, early, late)
  {
    NewSplits(TcpConfig(rate, grace), early, late);
    TcpGuardBound(rate, grace, span, (early + late)[0].begin, early, late);
  }

  lemma LastIsLatest(run: seq<Reading>)
    requires Ordered(run) && run != []
    ensures forall i | 0 <= i < |run| :: run[i].now <= run[|run| - 1].now
  {
    forall i | 0 <= i < |run| ensures run[i].now <= run[|run| - 1].now {
      if i < |run| - 1 { assert run[i].now <= run[|run| - 1].begin; }
    }
  }

  // ---- a client that keeps up ----

  /** A measurement of the body guard passes exactly when its bytes are less than one short of the rate
      times the time since the window opened, whatever the rate and the time. */
  lemma BodyPassesExactly(rate: nat, grace: nat, w: Window, e: Reading)
    requires w.since <= e.now && w.bytes + e.bytes <= U64_MAX
    ensures Measure(BodyConfig(rate, grace), w, e).1 == Pass <==>
      1_000_000_000 * (w.bytes + e.bytes + 1) > rate * (e.now - w.since)
  {
    var asked := rate * (e.now - w.since);
    assert BodyRequired(rate, e.now - w.since) == Capped(asked, U128_MAX) / SECOND;
  }

  /** A measurement of the TCP guard passes exactly when its bytes are less than one short of the rate
      times the whole milliseconds since the window opened, while its arithmetic stays in 64 bits. */
  lemma TcpPassesExactly(rate: nat, grace: nat, w: Window, e: Reading)
    requires w.since <= e.now && w.bytes + e.bytes <= U64_MAX
    requires var ms := (e.now - w.since) / 1_000_000; ms <= U64_MAX && rate * ms <= U64_MAX
    ensures Measure(TcpConfig(rate, grace), w, e).1 == Pass <==>
      1000 * (w.bytes + e.bytes + 1) > rate * ((e.now - w.since) / 1_000_000)
  {
    var ms := (e.now - w.since) / MILLI;
    assert ms % (U64_MAX + 1) == ms;
    var asked := rate * ms;
    assert TcpRequired(rate, ms) == Capped(asked, U64_MAX) / 1000;
  }

  function Fails(c: Config, g: Guard, run: seq<Reading>): nat
    decreases |run|
  {
    if run == [] then 0
    else (if Step(c, g, run[0]).1 == Fail then 1 else 0) + Fails(c, Step(c, g, run[0]).0, run[1..])
  }

  /** The bytes are at least the rate times the time. */
  ghost predicate AtRate(rate: nat, nanos: nat, bytes: nat) { 1_000_000_000 * bytes >= rate * nanos }

  /** Every reading brings at least the rate times the time since the one before it, counted from
      `since` for the first. */
  ghost predicate KeepsUp(rate: nat, since: nat, run: seq<Reading>)
    decreases |run|
  {
    run != [] ==>
      && since <= run[0].now && run[0].bytes <= U64_MAX && AtRate(rate, run[0].now - since, run[0].bytes)
      && KeepsUp(rate, run[0].now, run[1..])
  }

  /** Bytes at the rate satisfy the requirement. */
  ghost predicate Complete(c: Config) {
    forall nanos: nat, w: nat :: w <= U64_MAX && AtRate(c.rate, nanos, w) ==> w >= c.required(nanos)
  }

  lemma BodyComplete(rate: nat, grace: nat)
    ensures Complete(BodyConfig(rate, grace))
  {
    forall nanos: nat, w: nat | w <= U64_MAX && AtRate(rate, nanos, w) ensures w >= BodyRequired(rate, nanos) {
      var asked := rate * nanos;
      assert BodyRequired(rate, nanos) == Capped(asked, U128_MAX) / SECOND;
    }
  }

  /** Wrapping and saturation only ever lower what the TCP guard asks for. */
  lemma TcpComplete(rate: nat, grace: nat)
    ensures Complete(TcpConfig(rate, grace))
  {
    forall nanos: nat, w: nat | w <= U64_MAX && AtRate(rate, nanos, w)
      ensures w >= TcpRequired(rate, nanos / MILLI)
    {
      var ms := nanos / MILLI;
      Times(rate, ms % (U64_MAX + 1), ms);
      Times(rate, ms * MILLI, nanos);
      var asked, all := rate * (ms % (U64_MAX + 1)), rate * ms;
      assert rate * (ms * MILLI) == all * MILLI;
      assert TcpRequired(rate, ms) == Capped(asked, U64_MAX) / 1000;
    }
  }

  /** A reading at the rate passes, or has no bytes and comes when the window opens. */
  lemma AtRatePasses(c: Config, s: nat, since: nat, e: Reading)
    requires c.rate > 0 && Complete(c) && since <= e.now && e.bytes <= U64_MAX
    requires AtRate(c.rate, e.now - since, e.bytes)
    ensures var (g, o) := Step(c, Guard(Some(s), Some(Window(since, 0))), e);
      o != Fail && g == Guard(Some(s), Some(Window(e.now, 0)))
    ensures e.now > since ==> e.bytes > 0
  {
    if e.bytes == 0 { Positive(c.rate, e.now - since); }
  }

  lemma Positive(rate: nat, nanos: nat)
    requires rate > 0 && rate * nanos <= 0
    ensures nanos == 0
  {
  }

  lemma {:induction false} KeepsPassing(c: Config, s: nat, since: nat, run: seq<Reading>)
    requires c.rate > 0 && Complete(c) && KeepsUp(c.rate, since, run)
    ensures Fails(c, Guard(Some(s), Some(Window(since, 0))), run) == 0
    decreases |run|
  {
    if run != [] {
      AtRatePasses(c, s, since, run[0]);
      hide Complete, AtRate, Step;
      KeepsPassing(c, s, run[0].now, run[1..]);
    }
  }

  lemma FirstLate(c: Config, s: nat, late: seq<Reading>)
    requires c.rate > 0 && Complete(c) && KeepsUp(c.rate, s + c.grace, late)
    requires late != [] ==> late[0].now > s + c.grace
    ensures Fails(c, Begun(s), late) == 0
  {
    if late != [] {
      GraceEnds(c, s, late[0]);
      AtRatePasses(c, s, s + c.grace, late[0]);
      hide Complete, AtRate, Step;
      KeepsPassing(c, s, late[0].now, late[1..]);
    }
  }

  lemma {:induction false} NoFailures(c: Config, s: nat, early: seq<Reading>, late: seq<Reading>)
    requires c.rate > 0 && Complete(c) && InGrace(c, early, s) && KeepsUp(c.rate, s + c.grace, late)
    requires late != [] ==> late[0].now > s + c.grace
    ensures Fails(c, Begun(s), early + late) == 0
    decreases |early|
  {
    if early == [] {
      assert early + late == late;
      FirstLate(c, s, late);
    } else {
      assert (early + late)[1..] == early[1..] + late;
      assert forall i | 0 <= i < |early[1..]| :: early[1..][i] == early[i + 1];
      assert early[0].now <= s + c.grace;
      NoFailures(c, s, early[1..], late);
    }
  }

  /** A client that keeps up with the rate at every reading after the grace period never fails the
      guard, from its first reading on. */
  lemma KeepingUpNeverFails(c: Config, rate: nat, grace: nat, early: seq<Reading>, late: seq<Reading>)
    requires rate > 0 && (c == BodyConfig(rate, grace) || c == TcpConfig(rate, grace))
    requires early + late != [] && !(c.skipEmpty && (early + late)[0].bytes == 0)
    requires var s := (early + late)[0].begin;
      InGrace(c, early, s) && (late != [] ==> late[0].now > s + grace) && KeepsUp(rate, s + grace, late)
    ensures Fails(c, NEW, early + late) == 0
  {
    BodyComplete(rate, grace);
    TcpComplete(rate, grace);
    var run := early + late;
    NoFailures(c, run[0].begin, early, late);
    FirstReadingBegins(c, run[0]);
  }

  // ---- the guards as the source keeps them ----

  ghost predicate FieldsOk(startedAt: Option<nat>, windowStartedAt: Option<nat>, windowBytes: nat,
      graceComplete: bool) {
    && (graceComplete ==> startedAt.Some? && windowStartedAt.Some?)
    && (!graceComplete ==> windowBytes == 0)
  }

  /** The guard that the four fields of either class stand for. */
  ghost function FieldsView(startedAt: Option<nat>, windowStartedAt: Option<nat>, windowBytes: nat,
      graceComplete: bool): Guard
    requires FieldsOk(startedAt, windowStartedAt, windowBytes, graceComplete)
  {
    Guard(startedAt, if graceComplete then Some(Window(windowStartedAt.value, windowBytes)) else None)
  }

  class BodyRateGuard {
    const rate: nat
    const grace: nat
    var startedAt: Option<nat>
    var windowStartedAt: Option<nat>
    var windowBytes: nat
    var graceComplete: bool

    ghost predicate Valid() reads this { FieldsOk(startedAt, windowStartedAt, windowBytes, graceComplete) }

    ghost function View(): Guard
      requires Valid()
      reads this
    {
      FieldsView(startedAt, windowStartedAt, windowBytes, graceComplete)
    }

    constructor (rate: nat, grace: nat)
      ensures this.rate == rate && this.grace == grace && Valid() && View() == NEW
    {
      this.rate, this.grace := rate, grace;
      startedAt, windowStartedAt, windowBytes, graceComplete := None, None, 0, false;
    }

    method Start(now: nat)
      requires Valid()
      modifies this
      ensures Valid() && View() == if rate > 0 && old(View()).started.None? then Begun(now) else old(View())
      ensures rate > 0 ==> startedAt.Some?
    {
      if rate > 0 && startedAt.None? {
        startedAt := Some(now);
        windowStartedAt := Some(now);
      }
    }

    /** Notes that bytes arrived, and says whether they arrived fast enough. */
    method Record(bytes: nat, begin: nat, now: nat) returns (ok: bool)
      requires Valid()
      modifies this
      ensures Valid()
      ensures var (g, o) := Step(BodyConfig(rate, grace), old(View()), Reading(begin, now, bytes));
        View() == g && ok == (o != Fail)
    {
      if rate == 0 {
        return true;
      }
      Start(begin);
      if !graceComplete {
        if Since(now, startedAt.value) <= grace {
          return true;
        }
        graceComplete := true;
        windowStartedAt := Some(startedAt.value + grace);
      }
      windowBytes := Capped(windowBytes + bytes, U64_MAX);
      var required := Capped(rate * Since(now, windowStartedAt.value), U128_MAX) / SECOND;
      if windowBytes >= required {
        windowStartedAt := Some(now);
        windowBytes := 0;
        return true;
      }
      return false;
    }
  }

  class TcpRateGuard {
    const rate: nat
    const grace: nat
    var startedAt: Option<nat>
    var windowStartedAt: Option<nat>
    var windowBytes: nat
    var graceComplete: bool

    ghost predicate Valid() reads this { FieldsOk(startedAt, windowStartedAt, windowBytes, graceComplete) }

    ghost function View(): Guard
      requires Valid()
      reads this
    {
      FieldsView(startedAt, windowStartedAt, windowBytes, graceComplete)
    }

    constructor (rate: nat, grace: nat)
      ensures this.rate == rate && this.grace == grace && Valid() && View() == NEW
    {
      this.rate, this.grace := rate, grace;
      startedAt, windowStartedAt, windowBytes, graceComplete := None, None, 0, false;
    }

    method Observe(bytes: nat, now: nat) returns (ok: bool)
      requires Valid()
      modifies this
      ensures Valid()
      ensures var (g, o) := Step(TcpConfig(rate, grace), old(View()), Reading(now, now, bytes));
        View() == g && ok == (o != Fail)
    {
      if rate == 0 || bytes == 0 {
        return true;
      }
      if startedAt.None? {
        startedAt := Some(now);
      }
      if !graceComplete {
        if Since(now, startedAt.value) <= grace {
          return true;
        }
        graceComplete := true;
        windowStartedAt := Some(startedAt.value + grace);
      }
      windowBytes := Capped(windowBytes + bytes, U64_MAX);
      var elapsed := Since(now, windowStartedAt.value);
      var required := Capped(rate * ((elapsed / MILLI) % (U64_MAX + 1)), U64_MAX) / 1000;
      if windowBytes >= required {
        windowStartedAt := Some(now);
        windowBytes := 0;
        return true;
      }
      return false;
    }
  }
}
