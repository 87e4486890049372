/** The bounded key table behind every limiter, detector and circuit shard: a map of entries
    plus a queue of its keys, evicted by rotating at most `SCAN_LIMIT` keys from the front.
 */
module Shards {
  import opened Options

  const SHARDS: nat := 64
  const SCAN_LIMIT: nat := 32

  /** The shard a key lives in, given its hash. */
  function Home<K>(shardOf: K -> nat, k: K): (h: nat)
    ensures h < SHARDS
  {
    shardOf(k) % SHARDS
  }

  ghost predicate Distinct<K>(order: seq<K>) {
    forall i, j :: 0 <= i < j < |order| ==> order[i] != order[j]
  }

  datatype Shard<K(==, !new), T> = Shard(entries: map<K, T>, order: seq<K>) {
    /** `order` lists the keys of `entries`, each exactly once. */
    ghost predicate Valid() {
      Distinct(order) && forall k :: k in order <==> k in entries
    }

    function Put(k: K, t: T): Shard<K, T> {
      Shard(entries[k := t], if k in entries then order else order + [k])
    }

    function Remove(k: K): Shard<K, T> {
      Shard(entries - {k}, DropFirst(order, k))
    }
  }

  /** The queue without the first occurrence of `k`. */
  function DropFirst<K(==)>(order: seq<K>, k: K): seq<K> {
    if order == [] then []
    else if order[0] == k then order[1..]
    else [order[0]] + DropFirst(order[1..], k)
  }

  /** The first position in `i..n` whose entry satisfies `evict`, or `n`. */
  function FirstHit<K(!new), T>(s: Shard<K, T>, evict: T -> bool, i: nat, n: nat): (h: nat)
    requires i <= n <= |s.order|
    ensures i <= h <= n
    ensures forall j | i <= j < h :: !(s.order[j] in s.entries && evict(s.entries[s.order[j]]))
    ensures h < n ==> s.order[h] in s.entries && evict(s.entries[s.order[h]])
    decreases n - i
  {
    if i == n then n
    else if s.order[i] in s.entries && evict(s.entries[s.order[i]]) then i
    else FirstHit(s, evict, i + 1, n)
  }

  function ScanLength<K(!new), T>(s: Shard<K, T>): nat {
    if |s.order| < SCAN_LIMIT then |s.order| else SCAN_LIMIT
  }

  /** The position of the entry a scan evicts, or the scan length when none is evictable. */
  function Hit<K(!new), T>(s: Shard<K, T>, evict: T -> bool): (h: nat)
    ensures h <= ScanLength(s)
  {
    FirstHit(s, evict, 0, ScanLength(s))
  }

  /** The queued keys that have an entry. */
  function Present<K(==), T>(entries: map<K, T>, order: seq<K>): seq<K> {
    if order == [] then []
    else
      var n := |order| - 1;
      Present(entries, order[..n]) + if order[n] in entries then [order[n]] else []
  }

  lemma {:induction false} PresentAll<K, T>(entries: map<K, T>, order: seq<K>)
    requires forall i | 0 <= i < |order| :: order[i] in entries
    ensures Present(entries, order) == order
  {
    if order != [] { PresentAll(entries, order[..|order| - 1]); }
  }

  lemma PresentNext<K, T>(entries: map<K, T>, order: seq<K>, i: nat)
    requires i < |order|
    ensures Present(entries, order[..i + 1]) ==
      Present(entries, order[..i]) + if order[i] in entries then [order[i]] else []
  {
    assert order[..i + 1][..i] == order[..i];
  }

  /** What one eviction scan leaves: the first evictable key among the inspected ones is removed
      and the keys inspected before it move to the back, unless they have no entry; without an
      evictable key all inspected keys move. */
  function Scan<K(!new), T>(s: Shard<K, T>, evict: T -> bool): Shard<K, T> {
    var h := Hit(s, evict);
    var inspected := Present(s.entries, s.order[..h]);
    if h < ScanLength(s) then Shard(s.entries - {s.order[h]}, s.order[h + 1..] + inspected)
    else Shard(s.entries, s.order[h..] + inspected)
  }

  /** An eviction scan keeps the queue a permutation of the keys, inspects only the first
      `SCAN_LIMIT` of them, removes at most one entry, removes only an evictable one, and
      keeps every entry exactly when none of the inspected entries is evictable. */
  lemma ScanKeeps<K(!new), T>(s: Shard<K, T>, evict: T -> bool)
    requires s.Valid()
    ensures Scan(s, evict).Valid()
    ensures var h, n, r := Hit(s, evict), ScanLength(s), Scan(s, evict);
      if h < n then
        && s.order[h] in s.entries && evict(s.entries[s.order[h]])
        && r.entries == s.entries - {s.order[h]} && |r.entries| == |s.entries| - 1
      else
        && r.entries == s.entries
        && forall j | 0 <= j < n :: s.order[j] in s.entries && !evict(s.entries[s.order[j]])
  {
    var h := Hit(s, evict);
    PresentBefore(s, h);
    if h < ScanLength(s) {
      EvictAt(s, h);
      hide Distinct, Present;
    } else {
      RotateValid(s, h);
      hide Distinct, Present;
    }
  }

  /** And it moves the keys it inspected, and did not remove, to the back of the queue in their order,
      so that the next scan starts with the first key it did not inspect. */
  lemma ScanFacts<K(!new), T>(s: Shard<K, T>, evict: T -> bool)
    requires s.Valid()
    ensures var h, r := Hit(s, evict), Scan(s, evict);
      && r.Valid() && h <= 32
      && (if h < |s.order| && h < 32 then
            && s.order[h] in s.entries && evict(s.entries[s.order[h]])
            && r.entries == s.entries - {s.order[h]} && r.order == s.order[h + 1..] + s.order[..h]
          else r.entries == s.entries && r.order == s.order[h..] + s.order[..h])
      && forall j | 0 <= j < h :: s.order[j] in s.entries && !evict(s.entries[s.order[j]])
  {
    ScanKeeps(s, evict);
    PresentBefore(s, Hit(s, evict));
    hide Distinct, Present;
    forall j | 0 <= j < Hit(s, evict) ensures s.order[j] in s.entries && !evict(s.entries[s.order[j]]) {
      assert s.order[j] in s.order;
    }
  }

  /** The key is the first of the wanted ones in the queue, or there is none of them in it. */
  ghost predicate FirstIn<K(!new)>(keys: seq<K>, wanted: set<K>, found: Option<K>) {
    match found
    case None => forall j | 0 <= j < |keys| :: keys[j] !in wanted
    case Some(k) => k in wanted && exists h | 0 <= h < |keys| :: keys[h] == k && forall j | 0 <= j < h ::
        keys[j] !in wanted
  }

  /** A scan hits the first evictable key among those it inspects. */
  lemma HitIsFirst<K(!new), T>(s: Shard<K, T>, evict: T -> bool, wanted: set<K>)
    requires forall k :: k in wanted <==> k in s.entries && evict(s.entries[k])
    ensures var h, n := Hit(s, evict), ScanLength(s);
      FirstIn(s.order[..n], wanted, if h < n then Some(s.order[h]) else None)
  {
    var h, n := Hit(s, evict), ScanLength(s);
    assert forall j | 0 <= j < h :: s.order[..n][j] !in wanted;
    if h < n { assert s.order[..n][h] == s.order[h]; }
  }

  lemma PresentBefore<K(!new), T>(s: Shard<K, T>, h: nat)
    requires s.Valid() && h <= |s.order|
    ensures Present(s.entries, s.order[..h]) == s.order[..h]
  {
    hide Distinct;
    forall i | 0 <= i < h ensures s.order[..h][i] in s.entries { assert s.order[i] in s.order; }
    PresentAll(s.entries, s.order[..h]);
  }

  // ---- repeated scans reach every key ----

  lemma RotatedAt<K>(o: seq<K>, n: nat, p: nat)
    requires n <= p < |o|
    ensures var r := o[n..] + o[..n]; |r| == |o| && r[p - n] == o[p]
  {
  }

  /** A scan that evicts nothing brings every evictable entry 32 places closer to the front. */
  lemma MissMoves<K(!new), T>(s: Shard<K, T>, evict: T -> bool, p: nat)
    requires s.Valid() && Hit(s, evict) == ScanLength(s) && p < |s.order|
    requires s.order[p] in s.entries && evict(s.entries[s.order[p]])
    ensures var r := Scan(s, evict);
      && p >= 32 && r.Valid() && r.entries == s.entries && |r.order| == |s.order| && r.order[p - 32] == s.order[p]
  {
    ScanFacts(s, evict);
    hide Scan, Hit, Distinct;
    assert p >= ScanLength(s);
    RotatedAt(s.order, ScanLength(s), p);
  }

  /** One scan after the other, each for its own condition, and none of them evicts anything. */
  ghost predicate AllMiss<K(!new), T>(states: seq<Shard<K, T>>, evict: nat -> T -> bool) {
    forall i: nat {:trigger evict(i)} | i + 1 < |states| ::
      && Hit(states[i], evict(i)) == ScanLength(states[i])
      && states[i + 1] == Scan(states[i], evict(i))
  }

  /** The entry at a position of the first queue is evictable for every one of the scans. */
  ghost predicate AlwaysEvictable<K(!new), T>(states: seq<Shard<K, T>>, evict: nat -> T -> bool, p: nat) {
    && |states| > 0 && p < |states[0].order| && states[0].order[p] in states[0].entries
    && forall i: nat | i + 1 < |states| :: evict(i)(states[0].entries[states[0].order[p]])
  }

  lemma MissAt<K(!new), T>(states: seq<Shard<K, T>>, evict: nat -> T -> bool, i: nat)
    requires AllMiss(states, evict) && i + 1 < |states|
    ensures Hit(states[i], evict(i)) == ScanLength(states[i]) && states[i + 1] == Scan(states[i], evict(i))
  {
    hide Hit, Scan, ScanLength;
  }

  lemma EvictableAt<K(!new), T>(states: seq<Shard<K, T>>, evict: nat -> T -> bool, p: nat, i: nat)
    requires AlwaysEvictable(states, evict, p) && i + 1 < |states|
    ensures evict(i)(states[0].entries[states[0].order[p]])
  {
  }

  lemma {:induction false} MissesMove<K(!new), T>(states: seq<Shard<K, T>>, evict: nat -> T -> bool, p: nat, i: nat)
    requires AlwaysEvictable(states, evict, p) && states[0].Valid() && AllMiss(states, evict) && i < |states|
    ensures 32 * i <= p && states[i].Valid() && states[i].entries == states[0].entries
    ensures |states[i].order| == |states[0].order| && states[i].order[p - 32 * i] == states[0].order[p]
  {
    assert p < |states[0].order| && states[0].order[p] in states[0].entries;
    hide *;
    if i > 0 {
      MissesMove(states, evict, p, i - 1);
      MissAt(states, evict, i - 1);
      EvictableAt(states, evict, p, i - 1);
      MissMoves(states[i - 1], evict(i - 1), p - 32 * (i - 1));
    }
  }

  /** If the entry at a position of the queue is evictable for every one of a row of scans and none of
      them evicts, there are at most as many scans as whole groups of 32 keys before it: fewer than
      the length of the queue divided by 32 and rounded up. */
  lemma ScanCoverage<K(!new), T>(states: seq<Shard<K, T>>, evict: nat -> T -> bool, p: nat)
    requires AlwaysEvictable(states, evict, p) && states[0].Valid() && AllMiss(states, evict)
    ensures 32 * (|states| - 1) <= p < |states[0].order|
  {
    MissesMove(states, evict, p, |states| - 1);
  }

  lemma EvictAt<K(!new), T>(s: Shard<K, T>, h: nat)
    requires s.Valid() && h < |s.order|
    ensures Shard(s.entries - {s.order[h]}, s.order[h + 1..] + s.order[..h]).Valid()
    ensures s.order[h] in s.entries && |s.entries - {s.order[h]}| == |s.entries| - 1
  {
    var a, k, c := s.order[..h], s.order[h], s.order[h + 1..];
    assert s.order == a + [k] + c;
    RotateOut(a, k, c);
    assert k in s.order;
    assert (s.entries - {k}).Keys == s.entries.Keys - {k};
  }

  lemma RotateValid<K(!new), T>(s: Shard<K, T>, n: nat)
    requires s.Valid() && n <= |s.order|
    ensures Shard(s.entries, s.order[n..] + s.order[..n]).Valid()
    ensures forall j | 0 <= j < n :: s.order[j] in s.entries
  {
    assert s.order == s.order[..n] + s.order[n..];
    Rotate(s.order[..n], s.order[n..]);
    forall j | 0 <= j < n ensures s.order[j] in s.entries { assert s.order[j] in s.order; }
  }

  lemma Rotate<K>(a: seq<K>, b: seq<K>)
    requires Distinct(a + b)
    ensures Distinct(b + a)
    ensures forall x :: x in b + a <==> x in a + b
  {
    forall i, j | 0 <= i < j < |b + a| ensures (b + a)[i] != (b + a)[j] {
      if j < |b| { assert (a + b)[|a| + i] == b[i] && (a + b)[|a| + j] == b[j]; }
      else if i < |b| { assert (a + b)[|a| + i] == b[i] && (a + b)[j - |b|] == a[j - |b|]; }
      else { assert (a + b)[i - |b|] == a[i - |b|] && (a + b)[j - |b|] == a[j - |b|]; }
    }
  }

  lemma RotateOne<K>(o: seq<K>, i: nat, back: seq<K>)
    requires i < |o|
    ensures var r := o[i..] + back;
      r[0] == o[i] && r[1..] == o[i + 1..] + back && r[1..] + [o[i]] == o[i + 1..] + (back + [o[i]])
  {
  }

  lemma RotateOut<K>(a: seq<K>, k: K, c: seq<K>)
    requires Distinct(a + [k] + c)
    ensures Distinct(c + a)
    ensures forall x :: x in c + a <==> x in a + [k] + c && x != k
  {
    assert a + [k] + c == a + ([k] + c);
    Rotate(a, [k] + c);
    assert ([k] + c) + a == [k] + (c + a);
    var w := [k] + (c + a);
    assert forall i | 0 <= i < |c + a| :: (c + a)[i] == w[i + 1] && w[0] == k;
  }

  lemma PutValid<K(!new), T>(s: Shard<K, T>, k: K, t: T)
    requires s.Valid()
    ensures s.Put(k, t).Valid()
  {
    assert k !in s.entries ==> (s.order + [k])[|s.order|] == k;
  }

  lemma {:induction false} DropFirstFacts<K(!new)>(order: seq<K>, k: K)
    requires Distinct(order)
    ensures Distinct(DropFirst(order, k))
    ensures forall x :: x in DropFirst(order, k) <==> x in order && x != k
  {
    if order != [] {
      var rest := order[1..];
      assert order == [order[0]] + rest;
      assert forall x | x in rest :: x != order[0];
      if order[0] != k {
        DropFirstFacts(rest, k);
        var r := DropFirst(rest, k);
        assert forall i | 0 <= i < |r| :: r[i] in r && ([order[0]] + r)[i + 1] == r[i];
      }
    }
  }

  lemma {:induction false} DropFirstAt<K>(order: seq<K>, k: K, pos: nat)
    requires pos <= |order| && (pos < |order| ==> order[pos] == k) && forall j | 0 <= j < pos :: order[j] != k
    ensures DropFirst(order, k) == if pos < |order| then order[..pos] + order[pos + 1..] else order
    decreases pos
  {
    if pos > 0 {
      DropFirstAt(order[1..], k, pos - 1);
      assert order == [order[0]] + order[1..];
      if pos < |order| { assert order[..pos] + order[pos + 1..] == [order[0]]
          + (order[1..][..pos - 1] + order[1..][pos..]); }
    }
  }

  /** Removing an entry keeps the queue a permutation of the keys. */
  lemma RemoveValid<K(!new), T>(s: Shard<K, T>, k: K)
    requires s.Valid()
    ensures s.Remove(k).Valid()
  {
    DropFirstFacts(s.order, k);
  }

  /** Undoing the insertion of a fresh key restores the shard exactly. */
  lemma {:induction false} RemoveUndoesPut<K(!new), T>(s: Shard<K, T>, k: K, t: T)
    requires s.Valid() && k !in s.entries
    ensures s.Put(k, t).Remove(k) == s
  {
    assert k !in s.order;
    DropFirstAppended(s.order, k);
    assert s.entries[k := t] - {k} == s.entries;
  }

  lemma {:induction false} DropFirstAppended<K>(order: seq<K>, k: K)
    requires k !in order
    ensures DropFirst(order + [k], k) == order
  {
    if order != [] {
      assert order == [order[0]] + order[1..];
      assert (order + [k])[1..] == order[1..] + [k];
      DropFirstAppended(order[1..], k);
    }
  }

  // ---- capacity ----

  function ShardCapacity(maxTracked: nat): (c: nat)
    ensures c >= 1
    ensures c * SHARDS >= maxTracked
  {
    var m := if maxTracked == 0 then 1 else maxTracked;
    (m + SHARDS - 1) / SHARDS
  }

  /** Makes room for one more key by one scan; the flag says whether there is room. */
  function MakeRoom<K(!new), T>(s: Shard<K, T>, capacity: nat, evict: T -> bool): (Shard<K, T>, bool) {
    if |s.entries| < capacity then (s, true)
    else
      var r := Scan(s, evict);
      (r, |r.entries| < capacity)
  }

  /** A full shard has nothing to evict among the keys one scan inspects. */
  ghost predicate Stuck<K(!new), T>(s: Shard<K, T>, capacity: nat, evict: T -> bool) {
    |s.entries| >= capacity &&
    forall j | 0 <= j < ScanLength(s) :: s.order[j] in s.entries && !evict(s.entries[s.order[j]])
  }

  /** Room is refused exactly when the shard is stuck. */
  lemma RoomUnlessStuck<K(!new), T>(s: Shard<K, T>, capacity: nat, evict: T -> bool)
    requires s.Valid() && |s.entries| <= capacity
    ensures MakeRoom(s, capacity, evict).1 <==> !Stuck(s, capacity, evict)
  {
    ScanKeeps(s, evict);
  }

  function SizeSum<K(!new), T>(shards: seq<Shard<K, T>>): nat {
    if shards == [] then 0 else |shards[0].entries| + SizeSum(shards[1..])
  }

  lemma {:induction false} SizeSumBound<K(!new), T>(shards: seq<Shard<K, T>>, capacity: nat)
    requires forall i | 0 <= i < |shards| :: |shards[i].entries| <= capacity
    ensures SizeSum(shards) <= |shards| * capacity
  {
    if shards != [] {
      SizeSumBound(shards[1..], capacity);
      calc { SizeSum(shards); <= capacity + (|shards| - 1) * capacity; == |shards| * capacity; }
    }
  }

  /** All shards together hold at most 63 keys more than the positive configured limit. */
  lemma TrackedKeysBound<K(!new), T>(shards: seq<Shard<K, T>>, maxTracked: nat)
    requires maxTracked > 0 && |shards| == SHARDS
    requires forall i | 0 <= i < |shards| :: |shards[i].entries| <= ShardCapacity(maxTracked)
    ensures SizeSum(shards) <= maxTracked + 63
  {
    SizeSumBound(shards, ShardCapacity(maxTracked));
  }

  // ---- the table as the source keeps it ----

  class LimiterShard<K(==, !new), T> {
    var entries: map<K, T>
    var order: seq<K>

    ghost function View(): Shard<K, T> reads this { Shard(entries, order) }

    constructor ()
      ensures View() == Shard(map[], []) && View().Valid()
    {
      entries, order := map[], [];
    }

    /** Rotates keys from the front of the queue until one is evictable or the scan limit is hit. */
    method Evict(evict: T -> bool) returns (evicted: bool)
      modifies this
      ensures View() == Scan(old(View()), evict)
      ensures evicted <==> Hit(old(View()), evict) < ScanLength(old(View()))
    {
      hide Present;
      ghost var s := View();
      PresentAll(s.entries, s.order[..0]);
      var scan := if |order| < SCAN_LIMIT then |order| else SCAN_LIMIT;
      var i := 0;
      while i < scan
        invariant 0 <= i <= scan == ScanLength(s)
        invariant entries == s.entries && order == s.order[i..] + Present(s.entries, s.order[..i])
        invariant Hit(s, evict) == FirstHit(s, evict, i, scan)
      {
        ghost var back := Present(s.entries, s.order[..i]);
        PresentNext(s.entries, s.order, i);
        RotateOne(s.order, i, back);
        var key := order[0];
        order := order[1..];
        if key in entries && evict(entries[key]) {
          entries := entries - {key};
          return true;
        }
        if key in entries {
          order := order + [key];
        } else {
          assert back + [] == back;
        }
        assert order == s.order[i + 1..] + Present(s.entries, s.order[..i + 1]);
        i := i + 1;
      }
      return false;
    }

    method MakeRoomFor(capacity: nat, evict: T -> bool) returns (room: bool)
      requires View().Valid()
      modifies this
      ensures (View(), room) == MakeRoom(old(View()), capacity, evict)
      ensures View().Valid()
    {
      if |entries| < capacity {
        return true;
      }
      ScanKeeps(View(), evict);
      var _ := Evict(evict);
      room := |entries| < capacity;
    }

    method Put(k: K, t: T)
      requires View().Valid()
      modifies this
      ensures View() == old(View()).Put(k, t)
      ensures View().Valid()
    {
      PutValid(View(), k, t);
      if k !in entries {
        order := order + [k];
      }
      entries := entries[k := t];
    }

    method Remove(k: K)
      requires View().Valid()
      modifies this
      ensures View() == old(View()).Remove(k)
      ensures View().Valid()
    {
      RemoveValid(View(), k);
      entries := entries - {k};
      var pos := 0;
      while pos < |order| && order[pos] != k
        invariant 0 <= pos <= |order|
        invariant forall j | 0 <= j < pos :: order[j] != k
      {
        pos := pos + 1;
      }
      DropFirstAt(order, k, pos);
      if pos < |order| {
        order := order[..pos] + order[pos + 1..];
      }
    }
  }
}
