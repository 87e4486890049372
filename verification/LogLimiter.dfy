/** The lock-free log limiter: threads race on a deadline with compare-exchange and count what they
    suppress. Every load, compare-exchange, fetch-add and swap is one step, and the steps of all
    calls interleave freely. Times are milliseconds in 64 bits and need not agree between calls. */
module LogLimiter {
  import opened Options
  import opened Words

  const WRAP: nat := U64_MAX + 1

  /** A call that was told to log: its time and its interval. */
  datatype Log = Log(now: nat, interval: nat)

  function Gap(interval: nat): nat { if interval == 0 then 1 else interval }

  /** The deadline a log leaves behind. */
  function Deadline(l: Log): nat { if l.now + Gap(l.interval) <= U64_MAX then l.now + Gap(l.interval) else U64_MAX }

  /** Where a call stands: about to compare-exchange the deadline it saw (and how many logs there
      were then), about to count itself as suppressed, or about to collect the counter. */
  datatype Pc = Trying(log: Log, seen: nat, at: nat) | Losing | Won

  /** The two atomics, the calls in flight, and a record of the past: the logs, the sum of the
      counts handed out with them, the suppressed calls that finished, the counter's overflows. */
  datatype State = State(next: nat, suppressed: nat, calls: map<nat, Pc>,
                         logs: seq<Log>, reported: nat, completed: nat, wraps: nat)

  const START := State(0, 0, map[], [], 0, 0, 0)

  datatype Action =
    | Load(call: nat, log: Log)
    | CompareExchange(call: nat)
    | FetchAdd(call: nat)
    | Swap(call: nat)

  predicate Enabled(s: State, a: Action) {
    match a
    case Load(c, l) => c !in s.calls && l.now <= U64_MAX
    case CompareExchange(c) => c in s.calls && s.calls[c].Trying?
    case FetchAdd(c) => c in s.calls && s.calls[c] == Losing
    case Swap(c) => c in s.calls && s.calls[c] == Won
  }

  function Do(s: State, a: Action): State
    requires Enabled(s, a)
  {
    match a
    case Load(c, l) => s.(calls := s.calls[c := if l.now < s.next then Losing else Trying(l, s.next, |s.logs|)])
    case CompareExchange(c) =>
      if s.next == s.calls[c].seen then
        s.(next := Deadline(s.calls[c].log), calls := s.calls[c := Won], logs := s.logs + [s.calls[c].log])
      else s.(calls := s.calls[c := Losing])
    case FetchAdd(c) =>
      s.(suppressed := (s.suppressed + 1) % WRAP, calls := s.calls - {c}, completed := s.completed + 1,
         wraps := if s.suppressed == U64_MAX then s.wraps + 1 else s.wraps)
    case Swap(c) => s.(suppressed := 0, calls := s.calls - {c}, reported := s.reported + s.suppressed)
  }

  /** The run is possible from `s`. */
  ghost predicate Possible(s: State, run: seq<Action>)
    decreases |run|
  {
    run != [] ==> Enabled(s, run[0]) && Possible(Do(s, run[0]), run[1..])
  }

  ghost function Run(s: State, run: seq<Action>): State
    requires Possible(s, run)
    decreases |run|
  {
    if run == [] then s else Run(Do(s, run[0]), run[1..])
  }

  // ---- what every step keeps ----

  ghost predicate Counted(s: State) {
    s.suppressed <= U64_MAX && s.reported + s.suppressed + WRAP * s.wraps == s.completed
  }

  ghost predicate Spaced(logs: seq<Log>) {
    forall i | 0 <= i < |logs| :: logs[i].now <= U64_MAX && (i > 0 ==> logs[i].now >= Deadline(logs[i - 1]))
  }

  ghost predicate CallOk(s: State, pc: Pc) {
    pc.Trying? ==>
      && pc.seen <= pc.log.now <= U64_MAX && pc.seen <= s.next && pc.at <= |s.logs|
      && (pc.at < |s.logs| ==> pc.seen < s.next || pc.seen == U64_MAX)
  }

  ghost predicate Inv(s: State) {
    && Counted(s) && s.next <= U64_MAX
    && Spaced(s.logs) && s.next == (if s.logs == [] then 0 else Deadline(s.logs[|s.logs| - 1]))
    && forall c | c in s.calls :: CallOk(s, s.calls[c])
  }

  /** A successful compare-exchange raises the deadline, unless the clock is at its end. */
  lemma DeadlineRises(s: State, c: nat)
    requires Inv(s) && Enabled(s, CompareExchange(c)) && s.next == s.calls[c].seen
    ensures s.next < Do(s, CompareExchange(c)).next || s.next == U64_MAX
  {
    assert CallOk(s, s.calls[c]);
  }

  lemma StepKeeps(s: State, a: Action)
    requires Inv(s) && Enabled(s, a)
    ensures Inv(Do(s, a))
  {
    var s' := Do(s, a);
    if a.CompareExchange? {
      assert CallOk(s, s.calls[a.call]);
      if s.next == s.calls[a.call].seen { DeadlineRises(s, a.call); }
    }
    forall c | c in s'.calls ensures CallOk(s', s'.calls[c]) {
      if c in s.calls { assert CallOk(s, s.calls[c]); }
    }
  }

  lemma {:induction false} RunKeeps(s: State, run: seq<Action>)
    requires Inv(s) && Possible(s, run)
    ensures Inv(Run(s, run))
    decreases |run|
  {
    if run != [] {
      StepKeeps(s, run[0]);
      RunKeeps(Do(s, run[0]), run[1..]);
    }
  }

  /** In every interleaving, what was reported plus what the counter holds is the number of
      suppressed calls that finished, up to whole turns of the 64-bit counter. */
  lemma SuppressionsConserved(run: seq<Action>)
    requires Possible(START, run)
    ensures var s := Run(START, run);
      && (s.completed - s.reported - s.suppressed) % WRAP == 0
      && (s.completed <= U64_MAX ==> s.reported + s.suppressed == s.completed)
  {
    RunKeeps(START, run);
    var s := Run(START, run);
    assert s.completed - s.reported - s.suppressed == WRAP * s.wraps;
    assert (WRAP * s.wraps) % WRAP == 0;
  }

  /** A compare-exchange that succeeds found the deadline untouched since its load: no other call
      logged in between, because the deadline never takes the same value twice before its end. */
  lemma NoUnseenChange(run: seq<Action>, c: nat)
    requires Possible(START, run) && Enabled(Run(START, run), CompareExchange(c))
    ensures var s := Run(START, run);
      s.next == s.calls[c].seen < U64_MAX ==> |s.logs| == s.calls[c].at
  {
    RunKeeps(START, run);
    assert CallOk(Run(START, run), Run(START, run).calls[c]);
  }

  lemma {:induction false} SpacedApart(logs: seq<Log>, i: nat, j: nat)
    requires Spaced(logs) && i < j < |logs|
    ensures logs[j].now >= Deadline(logs[i])
    decreases j
  {
    if i + 1 < j {
      SpacedApart(logs, i, j - 1);
      assert logs[j].now >= Deadline(logs[j - 1]) >= logs[j - 1].now;
    }
  }

  /** The interval of the earlier log, or one without one, has passed; at the very end of the 64-bit
      clock it always has. */
  ghost predicate Due(earlier: Log, now: nat) {
    now >= earlier.now + (if earlier.interval == 0 then 1 else earlier.interval) || now == 0xFFFF_FFFF_FFFF_FFFF
  }

  lemma DueIs(earlier: Log, now: nat)
    requires now <= U64_MAX
    ensures Due(earlier, now) <==> now >= Deadline(earlier)
  {
  }

  /** In every interleaving, and whatever the clocks of the calls say, a call is told to log only
      when the interval of every earlier log has passed. */
  lemma LogsApart(run: seq<Action>, i: nat, j: nat)
    requires Possible(START, run) && i < j < |Run(START, run).logs|
    ensures var logs := Run(START, run).logs; Due(logs[i], logs[j].now)
  {
    RunKeeps(START, run);
    SpacedApart(Run(START, run).logs, i, j);
    DueIs(Run(START, run).logs[i], Run(START, run).logs[j].now);
  }

  /** After every interleaving, a call that no other call interrupts is told to log exactly when there
      is no log yet or the interval of the last one has passed. */
  lemma UninterruptedLogs(run: seq<Action>, c: nat, l: Log)
    requires Possible(START, run) && c !in Run(START, run).calls && l.now <= U64_MAX
    ensures var s := Run(START, run); var loaded := Do(s, Load(c, l));
      var due := s.logs == [] || Due(s.logs[|s.logs| - 1], l.now);
      if due then
        && Enabled(loaded, CompareExchange(c))
        && var won := Do(loaded, CompareExchange(c)); won.logs == s.logs + [l] && Enabled(won, Swap(c))
      else Enabled(loaded, FetchAdd(c)) && Do(loaded, FetchAdd(c)).logs == s.logs
  {
    RunKeeps(START, run);
    var s := Run(START, run);
    if s.logs != [] { DueIs(s.logs[|s.logs| - 1], l.now); }
    hide Run, Possible, Spaced, Counted, CallOk;
  }

  lemma {:induction false} GapsAdd(logs: seq<Log>, interval: nat, i: nat, j: nat)
    requires Spaced(logs) && i <= j < |logs| && logs[j].now < U64_MAX
    requires forall k | 0 <= k < |logs| :: logs[k].interval == interval
    ensures logs[i].now + (j - i) * Gap(interval) <= logs[j].now
    decreases j
  {
    if i < j {
      assert logs[j].now >= Deadline(logs[j - 1]);
      GapsAdd(logs, interval, i, j - 1);
      calc {
        logs[i].now + (j - i) * Gap(interval);
        logs[i].now + (j - 1 - i) * Gap(interval) + Gap(interval);
      <=
        logs[j - 1].now + Gap(interval);
      }
    }
  }

  /** With a fixed interval, any n logs before the end of the clock span at least n - 1 intervals. */
  lemma LogRate(run: seq<Action>, interval: nat, i: nat, j: nat)
    requires Possible(START, run) && i <= j < |Run(START, run).logs| && Run(START, run).logs[j].now < U64_MAX
    requires var logs := Run(START, run).logs; forall k | 0 <= k < |logs| :: logs[k].interval == interval
    ensures var logs, gap := Run(START, run).logs, if interval == 0 then 1 else interval;
      (j - i) * gap <= logs[j].now - logs[i].now
  {
    RunKeeps(START, run);
    GapsAdd(Run(START, run).logs, interval, i, j);
  }

  // ---- one call on its own ----

  class Limiter {
    var nextAllowed: nat
    var suppressed: nat
    ghost var machine: State

    ghost predicate Valid()
      reads this
    {
      Inv(machine) && machine.next == nextAllowed && machine.suppressed == suppressed
    }

    constructor ()
      ensures Valid() && machine == START
    {
      nextAllowed, suppressed, machine := 0, 0, START;
    }

    /** A call that no other call interrupts: it takes its steps in a row. */
    method ShouldLogAt(now: nat, interval: nat, ghost call: nat) returns (r: Option<nat>)
      requires Valid() && now <= U64_MAX && call !in machine.calls
      modifies this
      ensures Valid()
      ensures var s := Do(old(machine), Load(call, Log(now, interval)));
        if now < old(nextAllowed) then r == None && machine == Do(s, FetchAdd(call))
        else r == Some(old(suppressed)) && machine == Do(Do(s, CompareExchange(call)), Swap(call))
    {
      StepKeeps(machine, Load(call, Log(now, interval)));
      machine := Do(machine, Load(call, Log(now, interval)));
      var seen := nextAllowed;
      if now < seen {
        StepKeeps(machine, FetchAdd(call));
        machine := Do(machine, FetchAdd(call));
        suppressed := (suppressed + 1) % WRAP;
        return None;
      }
      StepKeeps(machine, CompareExchange(call));
      machine := Do(machine, CompareExchange(call));
      nextAllowed := Deadline(Log(now, interval));
      StepKeeps(machine, Swap(call));
      machine := Do(machine, Swap(call));
      r := Some(suppressed);
      suppressed := 0;
    }
  }
}
