/** Rotation of short tokens under one parent route: the life of one entry of the sibling limiter. */
module SiblingTokens {
  import opened Shards
  import opened Sets
  import opened Buckets

  const DISTINCT_THRESHOLD: nat := 3
  const DISTINCT_CAP: nat := 64

  /** The queue of remembered tokens after one more token is seen. */
  function Remember<T(==)>(order: seq<T>, token: T): seq<T> {
    if token in order then order
    else if |order| < DISTINCT_CAP then order + [token]
    else order[|order| + 1 - DISTINCT_CAP..] + [token]
  }

  ghost function Members<T>(order: seq<T>): set<T> { set x | x in order }

  ghost predicate QueueOk<T>(order: seq<T>) { Distinct(order) && |order| <= DISTINCT_CAP }

  lemma RememberOk<T>(order: seq<T>, token: T)
    requires QueueOk(order)
    ensures QueueOk(Remember(order, token)) && token in Remember(order, token)
    ensures |order| <= |Remember(order, token)|
    ensures Members(Remember(order, token)) <= Members(order) + {token}
    ensures |Remember(order, token)| < DISTINCT_CAP ==> Members(Remember(order, token)) == Members(order) + {token}
  {
    var r := Remember(order, token);
    if token !in order {
      assert r[|r| - 1] == token;
      if |order| == DISTINCT_CAP {
        assert forall i | 0 <= i < |r| - 1 :: r[i] == order[i + 1];
      }
    }
  }

  /** A new token joins the queue, from which then all but the last 64 go; a known one changes nothing. */
  lemma RemembersLatest<T>(order: seq<T>, token: T)
    requires QueueOk(order)
    ensures var r, all := Remember(order, token), order + [token];
      && |r| <= 64
      && r == if token in order then order else if |all| <= 64 then all else all[|all| - 64..]
  {
  }

  class ParentEntry<T(==)> {
    var bucket: Bucket
    var distinct: set<T>
    var order: seq<T>

    /** The token set holds exactly the queued tokens, each queued once, at most the cap of them. */
    ghost predicate Valid()
      reads this
    {
      QueueOk(order) && distinct == Members(order) && |distinct| == |order|
    }

    constructor (rate: real, burst: nat, now: real)
      ensures Valid() && bucket == Fresh(rate, burst, now) && order == []
    {
      bucket, distinct, order := Fresh(rate, burst, now), {}, [];
    }

    method Check(token: T, now: real) returns (ok: bool)
      requires Valid()
      modifies this
      ensures Valid()
      ensures order == Remember(old(order), token)
      ensures (bucket, ok) == Verdict(old(bucket), |order|, now)
    {
      ghost var was := order;
      RememberOk(was, token);
      if token !in distinct {
        assert token !in order;
        distinct := distinct + {token};
        order := order + [token];
        while |distinct| > DISTINCT_CAP
          invariant bucket == old(bucket)
          invariant |distinct| == |order| && distinct == Members(order) && Distinct(order)
          invariant order == was + [token] || (|was| == DISTINCT_CAP && order == was[1..] + [token])
          decreases |distinct|
        {
          var oldest := order[0];
          PopFront(order);
          order := order[1..];
          distinct := distinct - {oldest};
        }
      }
      var served := Serve(bucket, now);
      bucket := served.0;
      ok := served.1 || |distinct| < DISTINCT_THRESHOLD;
    }
  }

  lemma PopFront<T>(order: seq<T>)
    requires order != [] && Distinct(order)
    ensures Members(order[1..]) == Members(order) - {order[0]} && Distinct(order[1..])
  {
    assert order == [order[0]] + order[1..];
  }

  /** The verdict on a request that leaves `known` tokens remembered. */
  function Verdict(bucket: Bucket, known: nat, now: real): (Bucket, bool) {
    var (b, has) := Serve(bucket, now);
    (b, has || known < DISTINCT_THRESHOLD)
  }

  // ---- the life of an entry ----

  datatype Request<T> = Request(token: T, now: real)

  function CheckAll<T(==)>(b: Bucket, order: seq<T>, reqs: seq<Request<T>>): (r: seq<bool>)
    ensures |r| == |reqs|
    decreases reqs
  {
    if reqs == [] then []
    else
      var order' := Remember(order, reqs[0].token);
      var (b', ok) := Verdict(b, |order'|, reqs[0].now);
      [ok] + CheckAll(b', order', reqs[1..])
  }

  function Tokens<T(==)>(reqs: seq<Request<T>>): set<T> { set r | r in reqs :: r.token }

  lemma {:induction false} DistinctSize<T>(order: seq<T>)
    requires Distinct(order)
    ensures |Members(order)| == |order|
  {
    if order != [] {
      PopFront(order);
      DistinctSize(order[1..]);
      assert order[0] in order;
    }
  }

  lemma TokensFirst<T>(reqs: seq<Request<T>>, j: nat)
    requires 0 < j <= |reqs|
    ensures Tokens(reqs[..j]) == {reqs[0].token} + Tokens(reqs[1..][..j - 1])
  {
    assert reqs[..j] == [reqs[0]] + reqs[1..][..j - 1];
    forall x | x in {reqs[0].token} + Tokens(reqs[1..][..j - 1]) ensures x in Tokens(reqs[..j]) {
      if x == reqs[0].token {
        assert reqs[0] in reqs[..j];
      } else {
        var r :| r in reqs[1..][..j - 1] && r.token == x;
        assert r in reqs[..j];
      }
    }
  }

  lemma {:induction false} FewTokens<T>(b: Bucket, order: seq<T>, reqs: seq<Request<T>>, j: nat, seen: set<T>)
    requires QueueOk(order) && j < |reqs| && |seen| < DISTINCT_THRESHOLD
    requires Members(order) <= seen && Tokens(reqs[..j + 1]) <= seen
    ensures CheckAll(b, order, reqs)[j]
    decreases reqs
  {
    var order' := Remember(order, reqs[0].token);
    RememberOk(order, reqs[0].token);
    TokensFirst(reqs, j + 1);
    if j == 0 {
      DistinctSize(order');
      SubsetSize(Members(order'), seen);
    } else {
      FewTokens(Verdict(b, |order'|, reqs[0].now).0, order', reqs[1..], j - 1, seen);
    }
  }

  /** A parent is never denied while it has seen fewer than three distinct tokens. */
  lemma FewTokensAllowed<T>(rate: real, burst: nat, start: real, reqs: seq<Request<T>>, j: nat)
    requires j < |reqs| && |Tokens(reqs[..j + 1])| < 3
    ensures CheckAll(Fresh(rate, burst, start), [], reqs)[j]
  {
    FewTokens(Fresh(rate, burst, start), [], reqs, j, Tokens(reqs[..j + 1]));
  }

  function Times<T>(reqs: seq<Request<T>>): (r: seq<real>)
    ensures |r| == |reqs| && forall i | 0 <= i < |r| :: r[i] == reqs[i].now
  {
    seq(|reqs|, i requires 0 <= i < |reqs| => reqs[i].now)
  }

  /** Once three tokens are remembered the set never falls below three again, so the verdicts are
      those of the bucket alone. */
  lemma {:induction false} ManyTokensMetered<T>(b: Bucket, order: seq<T>, reqs: seq<Request<T>>)
    requires QueueOk(order) && reqs != [] && |Remember(order, reqs[0].token)| >= DISTINCT_THRESHOLD
    ensures CheckAll(b, order, reqs) == ServeAll(b, Times(reqs)).1
    decreases reqs
  {
    var order' := Remember(order, reqs[0].token);
    RememberOk(order, reqs[0].token);
    assert Times(reqs)[1..] == Times(reqs[1..]);
    if |reqs| > 1 {
      RememberOk(order', reqs[1].token);
      ManyTokensMetered(Serve(b, reqs[0].now).0, order', reqs[1..]);
    }
  }

  /** Every request is charged, also those let through for want of tokens: a request passes exactly when
      the bucket has served it or fewer than three tokens are known by then. */
  lemma {:induction false} EveryRequestCharged<T>(b: Bucket, order: seq<T>, reqs: seq<Request<T>>, j: nat)
    requires j < |reqs|
    ensures CheckAll(b, order, reqs)[j] <==>
      ServeAll(b, Times(reqs)).1[j] || |AfterAll(b, order, reqs[..j + 1]).1| < 3
    decreases reqs
  {
    var order' := Remember(order, reqs[0].token);
    assert Times(reqs)[1..] == Times(reqs[1..]);
    assert reqs[..j + 1][1..] == reqs[1..][..j];
    hide Remember, Serve;
    if j > 0 { EveryRequestCharged(Verdict(b, |order'|, reqs[0].now).0, order', reqs[1..], j - 1); }
  }

  function AfterAll<T(==)>(b: Bucket, order: seq<T>, reqs: seq<Request<T>>): (Bucket, seq<T>)
    decreases reqs
  {
    if reqs == [] then (b, order)
    else AfterAll(Verdict(b, |Remember(order, reqs[0].token)|, reqs[0].now).0, Remember(order, reqs[0].token),
        reqs[1..])
  }

  /** The queue after a run holds only tokens seen, and all of them as long as it is not full. */
  lemma {:induction false} AfterAllFacts<T>(b: Bucket, order: seq<T>, reqs: seq<Request<T>>)
    requires QueueOk(order) && b.Ok()
    ensures var (b', order') := AfterAll(b, order, reqs);
      && QueueOk(order') && b'.Ok() && b'.capacity == b.capacity && b'.rate == b.rate
      && |order| <= |order'|
      && (|order'| < DISTINCT_CAP ==> Members(order') == Members(order) + Tokens(reqs))
    decreases reqs
  {
    if reqs != [] {
      RememberOk(order, reqs[0].token);
      ServeOk(b, reqs[0].now);
      AfterAllFacts(Verdict(b, |Remember(order, reqs[0].token)|, reqs[0].now).0, Remember(order, reqs[0].token),
          reqs[1..]);
      TokensFirst(reqs, |reqs|);
      assert reqs[..|reqs|] == reqs && reqs[1..][..|reqs| - 1] == reqs[1..];
    }
  }

  lemma {:induction false} CheckAllSplit<T>(b: Bucket, order: seq<T>, before: seq<Request<T>>, window: seq<Request<T>>)
    ensures var (b', order') := AfterAll(b, order, before);
      CheckAll(b, order, before + window)[|before|..] == CheckAll(b', order', window)
    decreases before
  {
    if before == [] {
      assert before + window == window;
    } else {
      assert (before + window)[1..] == before[1..] + window;
      CheckAllSplit(Verdict(b, |Remember(order, before[0].token)|, before[0].now).0,
                    Remember(order, before[0].token), before[1..], window);
    }
  }

  lemma SiblingGain<T>(rate: real, burst: nat, start: real, before: seq<Request<T>>, window: seq<Request<T>>)
    requires rate >= 0.0 && window != [] && Nondecreasing(window[0].now, Times(window))
    requires |Tokens(before) + {window[0].token}| >= DISTINCT_THRESHOLD
    ensures Trues(CheckAll(Fresh(rate, burst, start), [], before + window)[|before|..]) as real
            <= Capacity(burst) + Gain(rate, window[0].now, window[|window| - 1].now)
  {
    var b := Fresh(rate, burst, start);
    var (b', order') := AfterAll<T>(b, [], before);
    CheckAllSplit(b, [], before, window);
    AfterAllFacts<T>(b, [], before);
    RememberOk(order', window[0].token);
    var order'' := Remember(order', window[0].token);
    if |order''| < DISTINCT_THRESHOLD {
      assert Members(order'') == Tokens(before) + {window[0].token};
      DistinctSize(order'');
    }
    ManyTokensMetered(b', order', window);
    WindowGain(b', Times(window));
  }

  /** From the third distinct token on, admissions in any window are bounded by burst plus rate
      times the length of the window. */
  lemma SiblingWindow<T>(rate: real, burst: nat, start: real, before: seq<Request<T>>, window: seq<Request<T>>)
    requires rate >= 0.0 && window != [] && Nondecreasing(window[0].now, Times(window))
    requires |Tokens(before) + {window[0].token}| >= 3
    ensures var granted := Trues(CheckAll(Fresh(rate, burst, start), [], before + window)[|before|..]);
      Earned(granted, (if burst > 1 then burst else 1) as real, rate, window[0].now, window[|window| - 1].now)
  {
    SiblingGain(rate, burst, start, before, window);
    CapacityIs(burst);
    hide Earned, Gain, CheckAll;
    GainEarns(Trues(CheckAll(Fresh(rate, burst, start), [], before + window)[|before|..]), Capacity(burst), rate,
              window[0].now, window[|window| - 1].now);
  }
}
