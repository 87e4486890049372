/** The attack event log: a bounded queue feeding one worker that appends lines to a file and
    rotates it through numbered backups. File 0 is the active file and file i its i-th backup.
    File operations succeed. */
module EventLog {
  import opened Options
  import opened Words

  function Capped64(x: nat): nat { Capped(x, U64_MAX) }

  type Lines = seq<string>
  type Files = map<nat, Lines>

  function File(files: Files, i: nat): Lines { if i in files then files[i] else [] }

  /** Bytes of a file: each line and its line feed. */
  function Size(lines: Lines): nat { if lines == [] then 0 else |lines[0]| + 1 + Size(lines[1..]) }

  /** Backups from the n-th, the oldest, down to the first, and then the active file. */
  function Content(files: Files, n: nat): Lines {
    if n == 0 then File(files, 0) else File(files, n) + Content(files, n - 1)
  }

  ghost predicate Suffix(part: Lines, whole: Lines) { |part| <= |whole| && whole[|whole| - |part|..] == part }

  // ---- rotation ----

  /** Renames file i to file i + 1, if there is one. */
  function Move(files: Files, i: nat): Files { if i in files then (files - {i})[i + 1 := files[i]] else files }

  /** Renames files n down to 1. */
  function MoveAll(files: Files, n: nat): Files
    decreases n
  {
    if n == 0 then files else MoveAll(Move(files, n), n - 1)
  }

  /** Opens the active file, creating it when it is missing. */
  function Open(files: Files): Files { if 0 in files then files else files[0 := []] }

  function Rotated(files: Files, backups: nat): Files {
    Open(if backups == 0 then files - {0} else Move(MoveAll(files - {backups}, backups - 1), 0))
  }

  lemma {:induction false} MoveAllFacts(files: Files, n: nat)
    requires n + 1 !in files
    ensures var r := MoveAll(files, n);
      && 1 !in r && (0 in r <==> 0 in files) && File(r, 0) == File(files, 0)
      && (forall i | 1 <= i <= n :: File(r, i + 1) == File(files, i))
      && (forall i | i > n + 1 :: (i in r <==> i in files) && File(r, i) == File(files, i))
    decreases n
  {
    if n > 0 {
      var m := Move(files, n);
      MoveAllFacts(m, n - 1);
      assert forall i | 0 <= i < n :: File(m, i) == File(files, i);
      assert File(m, n + 1) == File(files, n);
      assert File(MoveAll(files, n), n + 1) == File(m, n + 1);
    }
  }

  /** Rotation moves every file one place back, forgets the last backup, empties the active file
      and touches nothing else. */
  lemma RotatedFacts(files: Files, backups: nat)
    ensures var r := Rotated(files, backups);
      && 0 in r && r[0] == []
      && (forall i | 1 <= i <= backups :: File(r, i) == File(files, i - 1))
      && (forall i | i > backups :: (i in r <==> i in files) && File(r, i) == File(files, i))
  {
    if backups > 0 {
      var cleared := files - {backups};
      MoveAllFacts(cleared, backups - 1);
      var moved := MoveAll(cleared, backups - 1);
      var r := Rotated(files, backups);
      assert File(r, 1) == File(moved, 0) == File(files, 0);
      forall i | 1 < i <= backups ensures File(r, i) == File(files, i - 1) {
        assert File(r, i) == File(moved, i);
        assert File(moved, (i - 1) + 1) == File(cleared, i - 1);
      }
      forall i | i > backups ensures (i in r <==> i in files) && File(r, i) == File(files, i) {
        assert File(moved, i) == File(cleared, i) && (i in moved <==> i in cleared);
      }
    }
  }

  lemma {:induction false} ContentShifts(files: Files, r: Files, n: nat)
    requires n >= 1 && File(r, 0) == [] && forall i | 1 <= i <= n :: File(r, i) == File(files, i - 1)
    ensures Content(r, n) == Content(files, n - 1)
  {
    if n == 1 {
      assert Content(r, 1) == File(r, 1) + Content(r, 0);
    } else {
      ContentShifts(files, r, n - 1);
    }
  }

  /** Rotation loses exactly the last backup, or without backups the active file. */
  lemma RotationForgets(files: Files, backups: nat)
    ensures Content(files, backups) == File(files, backups) + Content(Rotated(files, backups), backups)
  {
    RotatedFacts(files, backups);
    if backups > 0 { ContentShifts(files, Rotated(files, backups), backups); }
  }

  // ---- writing ----

  datatype Config = Config(maxBytes: nat, backups: nat, capacity: nat)

  /** What the worker holds: the files and its count of the bytes in the active one. */
  datatype Log = Log(files: Files, bytes: nat)

  predicate ShouldRotate(c: Config, log: Log, incoming: nat) {
    c.maxBytes > 0 && log.bytes > 0 && Capped64(log.bytes + incoming) > c.maxBytes
  }

  function Room(c: Config, log: Log, line: string): Log {
    if ShouldRotate(c, log, Capped64(|line| + 1)) then
      var files := Rotated(log.files, c.backups);
      Log(files, Capped64(Size(File(files, 0))))
    else log
  }

  function Written(c: Config, log: Log, line: string): Log {
    var l := Room(c, log, line);
    Log(l.files[0 := File(l.files, 0) + [line]], Capped64(Capped64(l.bytes + |line|) + 1))
  }

  ghost predicate LogOk(log: Log) { 0 in log.files && log.bytes == Capped64(Size(log.files[0])) }

  lemma {:induction false} SizeAppend(lines: Lines, line: string)
    ensures Size(lines + [line]) == Size(lines) + |line| + 1
  {
    if lines != [] {
      assert (lines + [line])[1..] == lines[1..] + [line];
      SizeAppend(lines[1..], line);
    }
  }

  lemma {:induction false} ContentUpdate(files: Files, n: nat, line: string)
    ensures Content(files[0 := File(files, 0) + [line]], n) == Content(files, n) + [line]
  {
    if n > 0 { ContentUpdate(files, n - 1, line); }
  }

  lemma RoomOk(c: Config, log: Log, line: string)
    requires LogOk(log)
    ensures LogOk(Room(c, log, line))
    ensures Suffix(Content(Room(c, log, line).files, c.backups), Content(log.files, c.backups))
    ensures var r := Room(c, log, line); r == log || File(r.files, 0) == []
  {
    if ShouldRotate(c, log, Capped64(|line| + 1)) {
      RotatedFacts(log.files, c.backups);
      RotationForgets(log.files, c.backups);
    }
  }

  /** The sum that is compared with the cap can exceed it: with the largest cap, not once a nonempty
      file and the line pass 64 bits together. */
  ghost predicate CapWorks(c: Config, log: Log, line: string) {
    c.maxBytes == U64_MAX ==> File(log.files, 0) == [] || Size(File(log.files, 0)) + |line| + 1 <= U64_MAX
  }

  /** A write keeps the byte count right, appends its line to a suffix of what was there, and leaves
      the active file within a positive cap unless its line is all the file holds, exactly when the
      cap can be exceeded by the sum compared with it. */
  lemma WriteFacts(c: Config, log: Log, line: string)
    requires LogOk(log)
    ensures var w := Written(c, log, line);
      && LogOk(w)
      && (exists kept :: Suffix(kept, Content(log.files, c.backups)) && Content(w.files, c.backups) == kept + [line])
      && (0 < c.maxBytes <= U64_MAX ==>
            (Size(w.files[0]) <= c.maxBytes || w.files[0] == [line] <==> CapWorks(c, log, line)))
  {
    var r := Room(c, log, line);
    RoomOk(c, log, line);
    SizeAppend(File(r.files, 0), line);
    ContentUpdate(r.files, c.backups, line);
    assert Suffix(Content(r.files, c.backups), Content(log.files, c.backups));
    if r == log && log.files[0] != [] {
      assert Size(log.files[0]) > 0;
    }
  }

  /** No cap, or an empty file, or room for the line in it. */
  ghost predicate Fits(c: Config, file: Lines, line: string) {
    c.maxBytes == 0 || file == [] || Size(file) + |line| + 1 <= c.maxBytes
  }

  /** A write forgets nothing when there is no cap, when the active file is empty, or when file and line
      stay within the cap; otherwise, while their sum stays in 64 bits, it forgets exactly the oldest
      backup and its line is all the active file holds. */
  lemma WriteForgets(c: Config, log: Log, line: string)
    requires LogOk(log)
    ensures var w := Written(c, log, line); var was, now := Content(log.files, c.backups), Content(w.files, c.backups);
      && (Fits(c, log.files[0], line) ==> w.files == log.files[0 := log.files[0] + [line]] && now == was + [line])
      && (!Fits(c, log.files[0], line) && Size(log.files[0]) + |line| + 1 <= U64_MAX ==>
            w.files[0] == [line] && was + [line] == File(log.files, c.backups) + now)
  {
    var r := Room(c, log, line);
    ContentUpdate(r.files, c.backups, line);
    if r != log {
      RotatedFacts(log.files, c.backups);
      RotationForgets(log.files, c.backups);
    }
  }

  // ---- the queue and its worker ----

  /** A queued command: an event with its line, or with none when it cannot be rendered. */
  datatype Command = Event(line: Option<string>) | Flush | Shutdown

  /** The logger and its worker. The last four fields record the past: how many events were
      submitted, which ones entered and which ones left the queue, and the lines written. */
  datatype State = State(queue: seq<Command>, closing: bool, stopped: bool, dropped: nat, log: Log,
                         submitted: nat, accepted: seq<Option<string>>, handled: seq<Option<string>>, written: Lines)

  datatype Action =
    | Submit(line: Option<string>)
    | AskFlush
    | AskShutdown
    | Disconnect
    | Work
    | Stop

  predicate Enabled(c: Config, s: State, a: Action) {
    match a
    case Submit(_) => !s.closing
    case AskFlush => !s.closing && |s.queue| < c.capacity
    case AskShutdown => !s.closing && |s.queue| < c.capacity
    case Disconnect => !s.closing
    case Work => !s.stopped && s.queue != []
    case Stop => !s.stopped && s.closing && s.queue == []
  }

  function Do(c: Config, s: State, a: Action): State
    requires Enabled(c, s, a)
  {
    match a
    case Submit(line) =>
      if |s.queue| < c.capacity then
        s.(queue := s.queue + [Event(line)], submitted := s.submitted + 1, accepted := s.accepted + [line])
      else s.(submitted := s.submitted + 1, dropped := s.dropped + 1)
    case AskFlush => s.(queue := s.queue + [Flush])
    case AskShutdown => s.(queue := s.queue + [Shutdown], closing := true)
    case Disconnect => s.(closing := true)
    case Work => Handle(c, s.(queue := s.queue[1..]), s.queue[0])
    case Stop => s.(stopped := true)
  }

  function Handle(c: Config, s: State, command: Command): State {
    match command
    case Event(Some(line)) =>
      s.(log := Written(c, s.log, line), handled := s.handled + [Some(line)], written := s.written + [line])
    case Event(None) => s.(dropped := s.dropped + 1, handled := s.handled + [None])
    case Flush => s
    case Shutdown => s.(stopped := true)
  }

  ghost predicate Possible(c: Config, s: State, run: seq<Action>)
    decreases |run|
  {
    run != [] ==> Enabled(c, s, run[0]) && Possible(c, Do(c, s, run[0]), run[1..])
  }

  ghost function Run(c: Config, s: State, run: seq<Action>): State
    requires Possible(c, s, run)
    decreases |run|
  {
    if run == [] then s else Run(c, Do(c, s, run[0]), run[1..])
  }

  /** A logger opened over whatever files are there. */
  ghost predicate Opened(s: State) {
    s == State([], false, false, 0, s.log, 0, [], [], []) && LogOk(s.log)
  }

  function Queued(queue: seq<Command>): seq<Option<string>> {
    if queue == [] then [] else (if queue[0].Event? then [queue[0].line] else []) + Queued(queue[1..])
  }

  function Rendered(events: seq<Option<string>>): Lines {
    if events == [] then [] else (if events[0].Some? then [events[0].value] else []) + Rendered(events[1..])
  }

  /** What left the queue and what is in it are the accepted events in order; the written lines are
      those of the events that left it. */
  ghost predicate InOrder(s: State) {
    s.accepted == s.handled + Queued(s.queue) && s.written == Rendered(s.handled)
  }

  ghost predicate Conserved(s: State) { s.submitted == |s.written| + |Queued(s.queue)| + s.dropped }

  /** A shutdown request is the last command. */
  ghost predicate EndsWell(s: State) {
    && (forall i | 0 <= i < |s.queue| && s.queue[i] == Shutdown :: i == |s.queue| - 1 && s.closing)
    && (s.stopped ==> s.queue == [] && s.closing)
  }

  ghost predicate LogKept(c: Config, first: Log, s: State) {
    LogOk(s.log) && Suffix(Content(s.log.files, c.backups), Content(first.files, c.backups) + s.written)
  }

  ghost predicate Inv(c: Config, first: Log, s: State) {
    InOrder(s) && Conserved(s) && EndsWell(s) && LogKept(c, first, s)
  }

  lemma {:induction false} QueuedAppend(queue: seq<Command>, command: Command)
    ensures Queued(queue + [command]) == Queued(queue) + if command.Event? then [command.line] else []
  {
    if queue != [] {
      assert (queue + [command])[1..] == queue[1..] + [command];
      QueuedAppend(queue[1..], command);
    }
  }

  lemma {:induction false} RenderedAppend(events: seq<Option<string>>, e: Option<string>)
    ensures Rendered(events + [e]) == Rendered(events) + if e.Some? then [e.value] else []
  {
    if events != [] {
      assert (events + [e])[1..] == events[1..] + [e];
      RenderedAppend(events[1..], e);
    }
  }

  lemma SubmitFlows(s: State, line: Option<string>)
    requires InOrder(s) && Conserved(s)
    ensures var t := s.(queue := s.queue + [Event(line)], submitted := s.submitted + 1,
                        accepted := s.accepted + [line]);
      InOrder(t) && Conserved(t)
  {
    QueuedAppend(s.queue, Event(line));
    assert s.accepted + [line] == s.handled + (Queued(s.queue) + [line]);
  }

  lemma ControlFlows(s: State, command: Command)
    requires InOrder(s) && Conserved(s) && !command.Event?
    ensures var t := s.(queue := s.queue + [command]); InOrder(t) && Conserved(t)
  {
    QueuedAppend(s.queue, command);
    assert Queued(s.queue) + [] == Queued(s.queue);
  }

  lemma EventFlows(s: State, line: Option<string>, rest: seq<Command>)
    requires InOrder(s) && s.queue == [Event(line)] + rest
    ensures Queued(s.queue) == [line] + Queued(rest)
    ensures s.accepted == (s.handled + [line]) + Queued(rest)
    ensures Rendered(s.handled + [line]) == s.written + if line.Some? then [line.value] else []
  {
    assert s.queue[1..] == rest;
    RenderedAppend(s.handled, line);
  }

  lemma WorkFlows(c: Config, s: State)
    requires InOrder(s) && Conserved(s) && s.queue != []
    ensures var t := Handle(c, s.(queue := s.queue[1..]), s.queue[0]); InOrder(t) && Conserved(t)
  {
    hide Written;
    if s.queue[0].Event? {
      assert s.queue == [Event(s.queue[0].line)] + s.queue[1..];
      EventFlows(s, s.queue[0].line, s.queue[1..]);
    }
  }

  lemma StepFlows(c: Config, s: State, a: Action)
    requires InOrder(s) && Conserved(s) && Enabled(c, s, a)
    ensures InOrder(Do(c, s, a)) && Conserved(Do(c, s, a))
  {
    hide Handle, Queued, Rendered;
    match a {
      case Submit(line) => SubmitFlows(s, line);
      case AskFlush => ControlFlows(s, Flush);
      case AskShutdown => ControlFlows(s, Shutdown);
      case Disconnect =>
      case Work => WorkFlows(c, s);
      case Stop =>
    }
  }

  lemma StepEndsWell(c: Config, s: State, a: Action)
    requires EndsWell(s) && Enabled(c, s, a)
    ensures EndsWell(Do(c, s, a))
  {
    hide Written;
    if a == Work { assert forall i | 0 <= i < |s.queue[1..]| :: s.queue[1..][i] == s.queue[i + 1]; }
  }

  lemma SuffixGrows(part: Lines, kept: Lines, whole: Lines, line: string)
    requires Suffix(part, whole) && Suffix(kept, part)
    ensures Suffix(kept + [line], whole + [line])
  {
    var a, b := |whole| - |part|, |part| - |kept|;
    assert whole[a..][b..] == whole[a + b..];
    assert (whole + [line])[a + b..] == whole[a + b..] + [line];
  }

  lemma WriteKept(c: Config, first: Lines, log: Log, written: Lines, line: string)
    requires LogOk(log) && Suffix(Content(log.files, c.backups), first + written)
    ensures LogOk(Written(c, log, line))
    ensures Suffix(Content(Written(c, log, line).files, c.backups), first + (written + [line]))
  {
    hide Room, Content, Suffix, File;
    WriteFacts(c, log, line);
    RoomOk(c, log, line);
    var roomy := Room(c, log, line).files;
    ContentUpdate(roomy, c.backups, line);
    SuffixGrows(Content(log.files, c.backups), Content(roomy, c.backups), first + written, line);
    assert first + written + [line] == first + (written + [line]);
  }

  lemma StepKeepsLog(c: Config, first: Log, s: State, a: Action)
    requires LogKept(c, first, s) && Enabled(c, s, a)
    ensures LogKept(c, first, Do(c, s, a))
  {
    hide Written, Content, Suffix, LogOk;
    if a == Work && s.queue[0].Event? && s.queue[0].line.Some? {
      WriteKept(c, Content(first.files, c.backups), s.log, s.written, s.queue[0].line.value);
    }
  }

  lemma StepKeeps(c: Config, first: Log, s: State, a: Action)
    requires Inv(c, first, s) && Enabled(c, s, a)
    ensures Inv(c, first, Do(c, s, a))
  {
    hide InOrder, Conserved, EndsWell, LogKept, Do;
    StepFlows(c, s, a);
    StepEndsWell(c, s, a);
    StepKeepsLog(c, first, s, a);
  }

  lemma {:induction false} RunKeeps(c: Config, first: Log, s: State, run: seq<Action>)
    requires Inv(c, first, s) && Possible(c, s, run)
    ensures Inv(c, first, Run(c, s, run))
    decreases |run|
  {
    hide Inv, Do;
    if run != [] {
      StepKeeps(c, first, s, run[0]);
      RunKeeps(c, first, Do(c, s, run[0]), run[1..]);
    }
  }

  lemma OpenedOk(c: Config, s: State)
    requires Opened(s)
    ensures Inv(c, s.log, s)
  {
    hide Content;
    assert Content(s.log.files, c.backups) + [] == Content(s.log.files, c.backups);
  }

  /** An event is refused exactly when the queue is at its capacity, and then it is counted as dropped. */
  lemma SubmitExactly(c: Config, s: State, line: Option<string>)
    requires !s.closing
    ensures var t := Do(c, s, Submit(line));
      && t.submitted == s.submitted + 1
      && (if |s.queue| >= c.capacity then t.queue == s.queue && t.dropped == s.dropped + 1
          else t.queue == s.queue + [Event(line)] && t.dropped == s.dropped)
  {
  }

  /** In every run the queue stays within its capacity. */
  lemma {:induction false} QueueBounded(c: Config, s: State, run: seq<Action>)
    requires |s.queue| <= c.capacity && Possible(c, s, run)
    ensures |Run(c, s, run).queue| <= c.capacity
    decreases |run|
  {
    hide Written;
    if run != [] {
      assert |Do(c, s, run[0]).queue| <= c.capacity;
      hide Do;
      QueueBounded(c, Do(c, s, run[0]), run[1..]);
    }
  }

  /** In every run, every submitted event is written, queued or counted as dropped, and no more than
      one of these; written lines appear in the order their events were accepted; and once the
      worker has stopped, nothing is left queued. */
  lemma EventsConserved(c: Config, s: State, run: seq<Action>)
    requires Opened(s) && Possible(c, s, run)
    ensures var t := Run(c, s, run);
      && t.submitted == |t.written| + |Queued(t.queue)| + t.dropped
      && InOrder(t)
      && (t.stopped ==> t.submitted == |t.written| + t.dropped && t.written == Rendered(t.accepted))
  {
    hide Do, Run, LogKept;
    OpenedOk(c, s);
    RunKeeps(c, s.log, s, run);
    assert Run(c, s, run).handled + [] == Run(c, s, run).handled;
  }

  /** In every run, the backups from oldest to newest followed by the active file are a contiguous
      suffix of what was there at first followed by everything written. */
  lemma LogIsSuffix(c: Config, s: State, run: seq<Action>)
    requires Opened(s) && Possible(c, s, run)
    ensures var t := Run(c, s, run);
      Suffix(Content(t.log.files, c.backups), Content(s.log.files, c.backups) + t.written)
  {
    hide Do, Run, Content, Suffix;
    OpenedOk(c, s);
    RunKeeps(c, s.log, s, run);
  }

  /** Nothing has been forgotten since the first log. */
  ghost predicate AllThere(c: Config, first: Log, s: State) {
    && LogOk(s.log) && 0 in first.files && s.log.files[0] == first.files[0] + s.written
    && Content(s.log.files, c.backups) == Content(first.files, c.backups) + s.written
  }

  lemma {:induction false} SizeJoin(a: Lines, b: Lines)
    ensures Size(a + b) == Size(a) + Size(b)
  {
    if b == [] {
      assert a + b == a;
    } else {
      var n := |b| - 1;
      SizeJoin(a, b[..n]);
      SizeAppend(a + b[..n], b[n]);
      SizeAppend(b[..n], b[n]);
      assert a + b == a + b[..n] + [b[n]] && b == b[..n] + [b[n]];
    }
  }

  /** The cap, if there is one, holds the first active file and all these lines. */
  ghost predicate CapHolds(c: Config, first: Log, written: Lines) {
    c.maxBytes == 0 || Size(File(first.files, 0)) + Size(written) <= c.maxBytes
  }

  lemma StepForgetsNothing(c: Config, first: Log, s: State, a: Action)
    requires AllThere(c, first, s) && Enabled(c, s, a) && CapHolds(c, first, Do(c, s, a).written)
    ensures AllThere(c, first, Do(c, s, a))
  {
    hide Written, Content, Size, CapHolds, LogOk, Fits;
    if a == Work && s.queue[0].Event? && s.queue[0].line.Some? {
      var line := s.queue[0].line.value;
      AppendFits(c, first, s, line);
      WriteForgets(c, s.log, line);
      WriteFacts(c, s.log, line);
      var was := Content(first.files, c.backups);
      assert was + s.written + [line] == was + (s.written + [line]);
      assert first.files[0] + s.written + [line] == first.files[0] + (s.written + [line]);
    }
  }

  lemma AppendFits(c: Config, first: Log, s: State, line: string)
    requires AllThere(c, first, s) && CapHolds(c, first, s.written + [line])
    ensures Fits(c, s.log.files[0], line)
  {
    SizeJoin(first.files[0], s.written);
    SizeAppend(s.written, line);
  }

  lemma {:induction false} WrittenGrows(c: Config, s: State, run: seq<Action>)
    requires Possible(c, s, run)
    ensures Size(s.written) <= Size(Run(c, s, run).written)
    decreases |run|
  {
    hide Written;
    if run != [] {
      var a := run[0];
      if a == Work && s.queue[0].Event? && s.queue[0].line.Some? { SizeAppend(s.written, s.queue[0].line.value); }
      assert Size(s.written) <= Size(Do(c, s, a).written);
      hide Do;
      WrittenGrows(c, Do(c, s, a), run[1..]);
    }
  }

  lemma {:induction false} RunForgetsNothing(c: Config, first: Log, s: State, run: seq<Action>)
    requires AllThere(c, first, s) && Possible(c, s, run) && CapHolds(c, first, Run(c, s, run).written)
    ensures AllThere(c, first, Run(c, s, run))
    decreases |run|
  {
    if run != [] {
      hide Do, AllThere, Enabled;
      WrittenGrows(c, Do(c, s, run[0]), run[1..]);
      StepForgetsNothing(c, first, s, run[0]);
      RunForgetsNothing(c, first, Do(c, s, run[0]), run[1..]);
    }
  }

  /** In every run without a cap, or whose cap holds the first active file and all that is written,
      nothing is ever forgotten: the files hold what was there at first and then everything written. */
  lemma NothingForgotten(c: Config, s: State, run: seq<Action>)
    requires Opened(s) && Possible(c, s, run)
    requires c.maxBytes == 0 || Size(s.log.files[0]) + Size(Run(c, s, run).written) <= c.maxBytes
    ensures var t := Run(c, s, run);
      Content(t.log.files, c.backups) == Content(s.log.files, c.backups) + t.written
  {
    hide Do, Run, Content, Size;
    assert s.log.files[0] + [] == s.log.files[0];
    assert Content(s.log.files, c.backups) + [] == Content(s.log.files, c.backups);
    RunForgetsNothing(c, s.log, s, run);
  }

  // ---- the worker as the source keeps it ----

  class EventLogWorker {
    const c: Config
    var files: Files
    var bytesWritten: nat

    ghost function View(): Log reads this { Log(files, bytesWritten) }

    constructor (c: Config, files: Files)
      ensures this.c == c && View() == Log(Open(files), Capped64(Size(File(Open(files), 0)))) && LogOk(View())
    {
      this.c := c;
      this.files := Open(files);
      bytesWritten := Capped64(Size(File(Open(files), 0)));
    }

    method Rotate()
      modifies this
      ensures files == Rotated(old(files), c.backups) && bytesWritten == Capped64(Size(File(files, 0)))
    {
      if c.backups == 0 {
        files := files - {0};
      } else {
        files := files - {c.backups};
        var i := c.backups - 1;
        while i > 0
          invariant 0 <= i < c.backups
          invariant MoveAll(old(files) - {c.backups}, c.backups - 1) == MoveAll(files, i)
        {
          if i in files {
            files := (files - {i})[i + 1 := files[i]];
          }
          i := i - 1;
        }
        if 0 in files {
          files := (files - {0})[1 := files[0]];
        }
      }
      if 0 !in files {
        files := files[0 := []];
      }
      bytesWritten := Capped64(Size(File(files, 0)));
    }

    method WriteEvent(line: string)
      requires LogOk(View())
      modifies this
      ensures View() == Written(c, old(View()), line) && LogOk(View())
    {
      WriteFacts(c, View(), line);
      if ShouldRotate(c, Log(files, bytesWritten), Capped64(|line| + 1)) {
        Rotate();
      }
      files := files[0 := File(files, 0) + [line]];
      bytesWritten := Capped64(bytesWritten + |line|);
      bytesWritten := Capped64(bytesWritten + 1);
    }
  }
}
