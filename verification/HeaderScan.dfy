/** The read loop in front of a connection: bytes arrive in chunks, the header terminator is
    searched incrementally, and what was read is replayed to the server. One character is a byte. */
module HeaderScan {
  import opened Options

  predicate EndsAt(bytes: string, i: nat) {
    i + 4 <= |bytes| && bytes[i] == '\r' && bytes[i + 1] == '\n' && bytes[i + 2] == '\r' && bytes[i + 3] == '\n'
  }

  /** The end of the first blank line that starts at or after `start`. */
  function FindHeaderEnd(bytes: string, start: nat): (r: Option<nat>)
    ensures r.Some? ==>
      && start + 4 <= r.value <= |bytes| && EndsAt(bytes, r.value - 4)
      && forall j | start <= j < r.value - 4 :: !EndsAt(bytes, j)
    ensures r.None? ==> forall j | start <= j :: !EndsAt(bytes, j)
    decreases |bytes| - start
  {
    if |bytes| < 4 || start > |bytes| - 4 then None
    else if EndsAt(bytes, start) then Some(start + 4)
    else FindHeaderEnd(bytes, start + 1)
  }

  /** Resuming after a known gap finds what a full scan finds. */
  lemma ScanResumes(bytes: string, start: nat)
    requires forall j | 0 <= j < start :: !EndsAt(bytes, j)
    ensures FindHeaderEnd(bytes, start) == FindHeaderEnd(bytes, 0)
  {
    var a, b := FindHeaderEnd(bytes, start), FindHeaderEnd(bytes, 0);
    if b.Some? { assert EndsAt(bytes, b.value - 4); }
    if a.Some? { assert EndsAt(bytes, a.value - 4); }
  }

  /** A terminator found in what has been read so far is the first one of the whole stream. */
  lemma PrefixEnd(prefix: string, rest: string)
    ensures var h := FindHeaderEnd(prefix, 0);
      h.Some? ==> FindHeaderEnd(prefix + rest, 0) == h
    ensures FindHeaderEnd(prefix, 0).None? ==>
      var w := FindHeaderEnd(prefix + rest, 0); w.None? || w.value > |prefix|
  {
    var whole := prefix + rest;
    assert forall j: nat | j + 4 <= |prefix| :: EndsAt(whole, j) == EndsAt(prefix, j);
    var h, w := FindHeaderEnd(prefix, 0), FindHeaderEnd(whole, 0);
    if h.Some? { assert EndsAt(whole, h.value - 4); }
    if w.Some? { assert EndsAt(whole, w.value - 4); }
  }

  function Concat(chunks: seq<string>): string {
    if chunks == [] then "" else chunks[0] + Concat(chunks[1..])
  }

  lemma {:induction false} ConcatSplit(chunks: seq<string>, i: nat)
    requires i <= |chunks|
    ensures Concat(chunks) == Concat(chunks[..i]) + Concat(chunks[i..])
  {
    if i == 0 {
      assert chunks[i..] == chunks;
    } else {
      ConcatSplit(chunks[1..], i - 1);
      assert chunks[..i][1..] == chunks[1..][..i - 1] && chunks[1..][i - 1..] == chunks[i..];
    }
  }

  lemma ConcatNext(chunks: seq<string>, i: nat)
    requires i < |chunks|
    ensures Concat(chunks[..i + 1]) == Concat(chunks[..i]) + chunks[i]
  {
    ConcatSplit(chunks[..i + 1], i);
    assert chunks[..i + 1][..i] == chunks[..i] && chunks[..i + 1][i..] == [chunks[i]];
    assert Concat([chunks[i]]) == chunks[i];
  }

  datatype Outcome<V> = TooLarge | Checked(verdict: V) | EarlyEof

  /** What a single scan of the complete stream decides: the first header block is checked if it
      ends within the cap, it is too large if it does not, and a stream that ends early without
      a blank line is passed on. */
  function FullScan<V>(whole: string, maxBytes: nat, check: string -> V): Outcome<V> {
    match FindHeaderEnd(whole, 0)
    case Some(h) => if h > maxBytes then TooLarge else Checked(check(whole[..h]))
    case None => if |whole| >= maxBytes then TooLarge else EarlyEof
  }

  /** A blank line's line breaks start at `j`. */
  ghost predicate BlankLineAt(bytes: string, j: nat) { j + 4 <= |bytes| && bytes[j..j + 4] == "\r\n\r\n" }

  lemma EndsAtIs(bytes: string, j: nat)
    ensures EndsAt(bytes, j) <==> BlankLineAt(bytes, j)
  {
    if j + 4 <= |bytes| {
      var part := bytes[j..j + 4];
      assert part[0] == bytes[j] && part[1] == bytes[j + 1] && part[2] == bytes[j + 2] && part[3] == bytes[j + 3];
    }
  }

  /** A header block is checked exactly when a blank line ends within the first `maxBytes` bytes, up to the
      first such line; without one the head is too large if there are that many bytes, and passed on if
      the stream ends before. */
  lemma HeadExactly<V>(whole: string, maxBytes: nat, check: string -> V)
    ensures var out := FullScan(whole, maxBytes, check);
      if exists j: nat :: BlankLineAt(whole, j) && j + 4 <= maxBytes then
        exists j: nat :: BlankLineAt(whole, j) && j + 4 <= maxBytes && (forall i: nat | i < j :: !BlankLineAt(whole, i))
                         && out == Checked(check(whole[..j + 4]))
      else out == if |whole| >= maxBytes then TooLarge else EarlyEof
  {
    forall j: nat ensures EndsAt(whole, j) <==> BlankLineAt(whole, j) { EndsAtIs(whole, j); }
    var end := FindHeaderEnd(whole, 0);
    if end.Some? { assert BlankLineAt(whole, end.value - 4); }
    hide EndsAt, BlankLineAt;
  }

  /** The read loop. `chunks` are the nonempty reads the peer's bytes arrive in; a read after the
      last of them reports the end of the stream. `check` stands for the checks on a complete
      header block. */
  method ReadHead<V>(chunks: seq<string>, maxBytes: nat, check: string -> V)
    returns (out: Outcome<V>, prefix: string, used: nat)
    requires forall i | 0 <= i < |chunks| :: chunks[i] != ""
    ensures out == FullScan(Concat(chunks), maxBytes, check)
    ensures used <= |chunks| && prefix == Concat(chunks[..used])
  {
    prefix, used := "", 0;
    var scanStart: nat := 0;
    while true
      invariant used <= |chunks| && prefix == Concat(chunks[..used])
      invariant forall j | 0 <= j < scanStart :: !EndsAt(prefix, j)
      decreases |chunks| - used
    {
      ConcatSplit(chunks, used);
      ScanResumes(prefix, scanStart);
      PrefixEnd(prefix, Concat(chunks[used..]));
      var end := FindHeaderEnd(prefix, scanStart);
      if end.Some? {
        assert prefix[..end.value] == Concat(chunks)[..end.value];
        out := if end.value > maxBytes then TooLarge else Checked(check(prefix[..end.value]));
        return;
      }
      if |prefix| >= maxBytes {
        return TooLarge, prefix, used;
      }
      if used == |chunks| {
        assert chunks[used..] == [];
        return EarlyEof, prefix, used;
      }
      ConcatNext(chunks, used);
      ghost var before := prefix;
      scanStart := if |prefix| < 3 then 0 else |prefix| - 3;
      prefix := prefix + chunks[used];
      used := used + 1;
      assert forall j: nat | j < scanStart :: EndsAt(prefix, j) == EndsAt(before, j);
    }
  }

  // ---- replay ----

  /** What is still to be delivered: the rest of the prefix, then the connection itself. */
  datatype Replay = Replay(prefix: string, offset: nat, inner: string) {
    ghost predicate Valid() { offset <= |prefix| }

    ghost function Remaining(): string
      requires Valid()
    {
      prefix[offset..] + inner
    }
  }

  function Least(a: nat, b: nat): nat { if a < b then a else b }

  /** One read into a buffer of `room` bytes when the connection would offer `ready` bytes. */
  function ReadOnce(s: Replay, room: nat, ready: nat): (Replay, string)
    requires s.Valid()
  {
    if s.offset < |s.prefix| then
      var n := Least(|s.prefix| - s.offset, room);
      (s.(offset := s.offset + n), s.prefix[s.offset..s.offset + n])
    else
      var n := Least(Least(room, ready), |s.inner|);
      (s.(inner := s.inner[n..]), s.inner[..n])
  }

  class PreReadStream {
    const prefix: string
    var offset: nat
    var inner: string

    ghost function View(): Replay reads this { Replay(prefix, offset, inner) }

    constructor (prefix: string, inner: string)
      ensures View() == Replay(prefix, 0, inner)
    {
      this.prefix, offset, this.inner := prefix, 0, inner;
    }

    method PollRead(room: nat, ready: nat) returns (got: string)
      requires View().Valid()
      modifies this
      ensures View().Valid() && (View(), got) == ReadOnce(old(View()), room, ready)
      ensures |got| <= room && got + View().Remaining() == old(View().Remaining())
    {
      ReadOnceKeeps(View(), room, ready);
      if offset < |prefix| {
        var len := Least(|prefix| - offset, room);
        got := prefix[offset..][..len];
        offset := offset + len;
        assert got == prefix[old(offset)..offset];
        return;
      }
      var len := Least(Least(room, ready), |inner|);
      got := inner[..len];
      inner := inner[len..];
    }
  }

  lemma ReadOnceKeeps(s: Replay, room: nat, ready: nat)
    requires s.Valid()
    ensures var (s', got) := ReadOnce(s, room, ready);
      && s'.Valid() && |got| <= room && got + s'.Remaining() == s.Remaining()
      && (room > 0 && s.offset < |s.prefix| ==> got != "")
  {
    var (s', got) := ReadOnce(s, room, ready);
    if s.offset < |s.prefix| {
      assert s.prefix[s.offset..] == got + s'.prefix[s'.offset..];
    } else {
      assert s.inner == got + s'.inner;
      assert s.prefix[s.offset..] == "";
    }
  }

  datatype Buffer = Buffer(room: nat, ready: nat)

  function ReadAll(s: Replay, buffers: seq<Buffer>): (r: (Replay, string))
    requires s.Valid()
    ensures r.0.Valid()
    decreases buffers
  {
    if buffers == [] then (s, "")
    else
      ReadOnceKeeps(s, buffers[0].room, buffers[0].ready);
      var (s', got) := ReadOnce(s, buffers[0].room, buffers[0].ready);
      var (end, more) := ReadAll(s', buffers[1..]);
      (end, got + more)
  }

  lemma Assoc(a: string, b: string, c: string)
    ensures (a + b) + c == a + (b + c)
  {
  }

  lemma {:induction false} ReplayInOrder(s: Replay, buffers: seq<Buffer>)
    requires s.Valid()
    ensures var (end, got) := ReadAll(s, buffers); got + end.Remaining() == s.Remaining()
    decreases buffers
  {
    hide ReadOnce;
    if buffers != [] {
      var (s', got) := ReadOnce(s, buffers[0].room, buffers[0].ready);
      ReadOnceKeeps(s, buffers[0].room, buffers[0].ready);
      ReplayInOrder(s', buffers[1..]);
      var (end, more) := ReadAll(s', buffers[1..]);
      Assoc(got, more, end.Remaining());
    }
  }

  /** However the stream was cut into reads and whatever buffers it is replayed into, the server
      receives the peer's bytes exactly once and in order. */
  lemma ReplayDeliversStream(chunks: seq<string>, used: nat, buffers: seq<Buffer>)
    requires used <= |chunks|
    ensures var s := Replay(Concat(chunks[..used]), 0, Concat(chunks[used..]));
      var (end, got) := ReadAll(s, buffers);
      got + end.Remaining() == Concat(chunks)
  {
    var s := Replay(Concat(chunks[..used]), 0, Concat(chunks[used..]));
    ConcatSplit(chunks, used);
    ReplayInOrder(s, buffers);
  }
}
