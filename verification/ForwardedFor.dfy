/** Which client a request came from, by the X-Forwarded-For chain of a trusted peer. Reading an
    address from text and trusting an address are parameters; header values that are not visible
    text are `None`. */
module ForwardedFor {
  import opened Options
  import opened Text
  import IpRanges

  datatype Error = Invalid | TooLong | TooManyHops

  datatype Client<A> = Client(ip: A) | Refused(error: Error)

  /** Limits of 0 are off. */
  datatype Resolver<!A> = Resolver(trusts: A -> bool, maxBytes: nat, maxHops: nat, parse: string -> Option<A>) {
    predicate BytesOk(bytes: nat) { maxBytes == 0 || bytes <= maxBytes }
    predicate HopsOk(hops: nat) { maxHops == 0 || hops <= maxHops }
  }

  /** The chain read so far, or why reading stopped. */
  datatype Reading<A> = Chain(hops: seq<A>) | Stopped(error: Error)

  function ReadTokens<A>(r: Resolver<A>, tokens: seq<string>, chain: seq<A>): Reading<A> {
    if tokens == [] then Chain(chain)
    else if tokens[0] == "" then Stopped(Invalid)
    else if !r.HopsOk(|chain| + 1) then Stopped(TooManyHops)
    else
      match r.parse(tokens[0])
      case None => Stopped(Invalid)
      case Some(ip) => ReadTokens(r, tokens[1..], chain + [ip])
  }

  function ReadValues<A>(r: Resolver<A>, values: seq<Option<string>>, bytes: nat, chain: seq<A>): Reading<A> {
    if values == [] then Chain(chain)
    else if values[0].None? then Stopped(Invalid)
    else if !r.BytesOk(bytes + |values[0].value|) then Stopped(TooLong)
    else
      match ReadTokens(r, Elements(values[0].value), chain)
      case Stopped(e) => Stopped(e)
      case Chain(more) => ReadValues(r, values[1..], bytes + |values[0].value|, more)
  }

  // ---- what the reading amounts to ----

  ghost predicate AllText(values: seq<Option<string>>) { forall i | 0 <= i < |values| :: values[i].Some? }

  ghost function Bytes(values: seq<Option<string>>): nat
    requires AllText(values)
  {
    if values == [] then 0 else |values[0].value| + Bytes(values[1..])
  }

  /** The elements of all the values, as if they were one list. */
  ghost function Tokens(values: seq<Option<string>>): seq<string>
    requires AllText(values)
  {
    if values == [] then [] else Elements(values[0].value) + Tokens(values[1..])
  }

  ghost predicate AllHops<A>(r: Resolver<A>, tokens: seq<string>) {
    forall i | 0 <= i < |tokens| :: tokens[i] != "" && r.parse(tokens[i]).Some?
  }

  ghost function Hops<A>(r: Resolver<A>, tokens: seq<string>): (l: seq<A>)
    requires AllHops(r, tokens)
    ensures |l| == |tokens|
  {
    if tokens == [] then [] else [r.parse(tokens[0]).value] + Hops(r, tokens[1..])
  }

  /** Text within the limits whose elements are all addresses. */
  ghost predicate Readable<A>(r: Resolver<A>, values: seq<Option<string>>) {
    && AllText(values) && AllHops(r, Tokens(values))
    && (r.maxBytes == 0 || Bytes(values) <= r.maxBytes) && (r.maxHops == 0 || |Tokens(values)| <= r.maxHops)
  }

  lemma AllHopsFirst<A>(r: Resolver<A>, tokens: seq<string>)
    requires tokens != []
    ensures AllHops(r, tokens) <==> tokens[0] != "" && r.parse(tokens[0]).Some? && AllHops(r, tokens[1..])
  {
    if AllHops(r, tokens[1..]) { assert forall i | 1 <= i < |tokens| :: tokens[i] == tokens[1..][i - 1]; }
  }

  lemma {:induction false} TokensMeaning<A>(r: Resolver<A>, tokens: seq<string>, chain: seq<A>)
    requires r.HopsOk(|chain|)
    ensures ReadTokens(r, tokens, chain).Chain? <==> r.HopsOk(|chain| + |tokens|) && AllHops(r, tokens)
    ensures ReadTokens(r, tokens, chain).Chain? ==> ReadTokens(r, tokens, chain).hops == chain + Hops(r, tokens)
    decreases |tokens|
  {
    if tokens == [] {
      assert chain + [] == chain;
    } else {
      AllHopsFirst(r, tokens);
      if tokens[0] != "" && r.HopsOk(|chain| + 1) && r.parse(tokens[0]).Some? {
        var ip := r.parse(tokens[0]).value;
        TokensMeaning(r, tokens[1..], chain + [ip]);
        if AllHops(r, tokens) { assert chain + [ip] + Hops(r, tokens[1..]) == chain + Hops(r, tokens); }
      }
    }
  }

  lemma {:induction false} HopsAppend<A>(r: Resolver<A>, a: seq<string>, b: seq<string>)
    ensures AllHops(r, a + b) <==> AllHops(r, a) && AllHops(r, b)
    ensures AllHops(r, a + b) ==> Hops(r, a + b) == Hops(r, a) + Hops(r, b)
  {
    if a == [] {
      assert a + b == b;
    } else {
      assert (a + b)[1..] == a[1..] + b;
      HopsAppend(r, a[1..], b);
      AllHopsFirst(r, a);
      AllHopsFirst(r, a + b);
    }
  }

  lemma NoHops<A>(r: Resolver<A>)
    ensures AllHops(r, []) && Hops(r, []) == []
  {
  }

  /** The loops read a chain exactly when the values are readable, and then it is the addresses of
      all elements in order. */
  lemma {:induction false} ValuesMeaning<A>(r: Resolver<A>, values: seq<Option<string>>, bytes: nat, chain: seq<A>)
    requires r.HopsOk(|chain|) && r.BytesOk(bytes)
    ensures ReadValues(r, values, bytes, chain).Chain? <==>
      && AllText(values) && r.BytesOk(bytes + Bytes(values))
      && r.HopsOk(|chain| + |Tokens(values)|) && AllHops(r, Tokens(values))
    ensures ReadValues(r, values, bytes, chain).Chain? ==>
      ReadValues(r, values, bytes, chain).hops == chain + Hops(r, Tokens(values))
    decreases |values|
  {
    hide Elements, ReadTokens, AllHops, Hops;
    if values == [] {
      NoHops(r);
      assert chain + [] == chain;
    } else if values[0].Some? && r.BytesOk(bytes + |values[0].value|) {
      var first, n := Elements(values[0].value), bytes + |values[0].value|;
      TokensMeaning(r, first, chain);
      if AllText(values[1..]) { HopsAppend(r, first, Tokens(values[1..])); }
      TextFirst(values);
      if r.HopsOk(|chain| + |first|) && AllHops(r, first) {
        ValuesMeaning(r, values[1..], n, chain + Hops(r, first));
        if AllText(values) && AllHops(r, Tokens(values)) {
          assert chain + Hops(r, first) + Hops(r, Tokens(values[1..])) == chain + Hops(r, Tokens(values));
        }
      }
    }
  }

  lemma TextFirst(values: seq<Option<string>>)
    requires values != []
    ensures AllText(values) <==> values[0].Some? && AllText(values[1..])
  {
    if AllText(values[1..]) { assert forall i | 1 <= i < |values| :: values[i] == values[1..][i - 1]; }
  }

  // ---- the client ----

  ghost predicate AllTrusted<A>(r: Resolver<A>, hops: seq<A>) { forall i | 0 <= i < |hops| :: r.trusts(hops[i]) }

  /** The walk over the chain from the right. */
  function Pick<A>(r: Resolver<A>, hops: seq<A>, peer: A): A {
    if hops == [] then peer
    else if !r.trusts(hops[|hops| - 1]) then hops[|hops| - 1]
    else Pick(r, hops[..|hops| - 1], peer)
  }

  /** The walk finds the rightmost hop that is not trusted, or the peer. */
  lemma {:induction false} PickMeaning<A>(r: Resolver<A>, hops: seq<A>, peer: A)
    ensures
      || (AllTrusted(r, hops) && Pick(r, hops, peer) == peer)
      || (exists i | 0 <= i < |hops| ::
            Pick(r, hops, peer) == hops[i] && !r.trusts(hops[i]) && AllTrusted(r, hops[i + 1..]))
  {
    if hops != [] {
      var n := |hops| - 1;
      if !r.trusts(hops[n]) {
        assert hops[n + 1..] == [];
      } else {
        PickMeaning(r, hops[..n], peer);
        if AllTrusted(r, hops[..n]) {
          assert hops == hops[..n] + [hops[n]];
        } else {
          var i :| 0 <= i < n && Pick(r, hops[..n], peer) == hops[..n][i] && !r.trusts(hops[..n][i])
              && AllTrusted(r, hops[..n][i + 1..]);
          assert hops[i + 1..] == hops[..n][i + 1..] + [hops[n]];
          assert hops[i] == hops[..n][i];
        }
      }
    }
  }

  function Resolved<A>(r: Resolver<A>, peer: A, values: seq<Option<string>>): Client<A> {
    if values == [] || !r.trusts(peer) then Client(peer)
    else
      match ReadValues(r, values, 0, [])
      case Stopped(e) => Refused(e)
      case Chain(hops) => Client(Pick(r, hops, peer))
  }

  lemma NoValues<A>(r: Resolver<A>, peer: A)
    ensures Readable(r, []) && Pick(r, Hops(r, Tokens([])), peer) == peer
  {
  }

  /** The client of a request from a trusted peer: its values must be readable, and then it is the
      rightmost untrusted hop. */
  lemma ResolvedMeaning<A>(r: Resolver<A>, peer: A, values: seq<Option<string>>)
    ensures !r.trusts(peer) ==> Resolved(r, peer, values) == Client(peer)
    ensures r.trusts(peer) ==> (Resolved(r, peer, values).Client? <==> Readable(r, values))
    ensures r.trusts(peer) && Readable(r, values) ==>
      Resolved(r, peer, values) == Client(Pick(r, Hops(r, Tokens(values)), peer))
  {
    hide ReadValues, AllHops, Hops, Tokens, Bytes, Pick;
    ValuesMeaning(r, values, 0, []);
    if values == [] { NoValues(r, peer); }
    if Readable(r, values) { assert [] + Hops(r, Tokens(values)) == Hops(r, Tokens(values)); }
  }

  lemma {:induction false} TokensError<A>(r: Resolver<A>, tokens: seq<string>, chain: seq<A>)
    requires ReadTokens(r, tokens, chain).Stopped? && r.HopsOk(|chain|)
    ensures var e := ReadTokens(r, tokens, chain).error;
      (e == Invalid && !AllHops(r, tokens)) || (e == TooManyHops && !r.HopsOk(|chain| + |tokens|))
    decreases |tokens|
  {
    AllHopsFirst(r, tokens);
    if tokens[0] != "" && r.HopsOk(|chain| + 1) && r.parse(tokens[0]).Some? {
      TokensError(r, tokens[1..], chain + [r.parse(tokens[0]).value]);
    }
  }

  lemma {:induction false} ValuesError<A>(r: Resolver<A>, values: seq<Option<string>>, bytes: nat, chain: seq<A>)
    requires AllText(values) && ReadValues(r, values, bytes, chain).Stopped? && r.HopsOk(|chain|) && r.BytesOk(bytes)
    ensures match ReadValues(r, values, bytes, chain).error
      case Invalid => !AllHops(r, Tokens(values))
      case TooLong => !r.BytesOk(bytes + Bytes(values))
      case TooManyHops => !r.HopsOk(|chain| + |Tokens(values)|)
    decreases |values|
  {
    hide Elements, ReadTokens, AllHops, Hops;
    var first, n := Elements(values[0].value), bytes + |values[0].value|;
    TextFirst(values);
    HopsAppend(r, first, Tokens(values[1..]));
    if r.BytesOk(n) {
      TokensMeaning(r, first, chain);
      if ReadTokens(r, first, chain).Stopped? {
        TokensError(r, first, chain);
      } else {
        ValuesError(r, values[1..], n, chain + Hops(r, first));
      }
    }
  }

  /** Each refusal of text has its cause: some element is empty or no address, the bytes pass their
      limit, or the elements pass theirs. */
  lemma RefusalMeaning<A>(r: Resolver<A>, peer: A, values: seq<Option<string>>)
    requires AllText(values) && Resolved(r, peer, values).Refused?
    ensures match Resolved(r, peer, values).error
      case Invalid => !AllHops(r, Tokens(values))
      case TooLong => 0 < r.maxBytes < Bytes(values)
      case TooManyHops => 0 < r.maxHops < |Tokens(values)|
  {
    hide ReadValues, AllHops, Hops, Tokens, Bytes, Pick;
    ValuesError(r, values, 0, []);
  }

  lemma {:induction false} PickAppend<A>(r: Resolver<A>, a: seq<A>, b: seq<A>, peer: A)
    ensures Pick(r, a + b, peer) == if AllTrusted(r, b) then Pick(r, a, peer) else Pick(r, b, peer)
  {
    if b == [] {
      assert a + b == a;
    } else {
      var n := |b| - 1;
      assert (a + b)[..|a + b| - 1] == a + b[..n];
      assert b == b[..n] + [b[n]];
      if r.trusts(b[n]) { PickAppend(r, a, b[..n], peer); }
    }
  }

  lemma {:induction false} TokensAppend(a: seq<Option<string>>, b: seq<Option<string>>)
    requires AllText(a) && AllText(b)
    ensures AllText(a + b) && Tokens(a + b) == Tokens(a) + Tokens(b) && Bytes(a + b) == Bytes(a) + Bytes(b)
  {
    if a == [] {
      assert a + b == b;
    } else {
      assert (a + b)[1..] == a[1..] + b;
      TokensAppend(a[1..], b);
      assert Elements(a[0].value) + (Tokens(a[1..]) + Tokens(b)) == Tokens(a) + Tokens(b);
    }
  }

  /** Once the values name an untrusted hop, values put in front of them, readable and within the
      limits, do not change the client. */
  lemma PrependedHopsIgnored<A>(r: Resolver<A>, peer: A, more: seq<Option<string>>, values: seq<Option<string>>)
    requires r.trusts(peer) && Readable(r, values) && Readable(r, more + values)
    requires !AllTrusted(r, Hops(r, Tokens(values)))
    ensures Resolved(r, peer, more + values) == Resolved(r, peer, values)
  {
    ResolvedMeaning(r, peer, values);
    ResolvedMeaning(r, peer, more + values);
    assert forall i | 0 <= i < |more| :: more[i] == (more + values)[i];
    TokensAppend(more, values);
    HopsAppend(r, Tokens(more), Tokens(values));
    PickAppend(r, Hops(r, Tokens(more)), Hops(r, Tokens(values)), peer);
  }

  function OneLine(pre: seq<Option<string>>, a: string, b: string, post: seq<Option<string>>): seq<Option<string>> {
    pre + [Some(a + "," + b)] + post
  }

  function TwoLines(pre: seq<Option<string>>, a: string, b: string, post: seq<Option<string>>): seq<Option<string>> {
    pre + [Some(a), Some(b)] + post
  }

  lemma LinesAgree(pre: seq<Option<string>>, a: string, b: string, post: seq<Option<string>>)
    requires AllText(pre) && AllText(post)
    ensures var one, two := OneLine(pre, a, b, post), TwoLines(pre, a, b, post);
      && AllText(one) && AllText(two) && Tokens(one) == Tokens(two) && Bytes(one) == Bytes(two) + 1
  {
    TokensAppend([Some(a + "," + b)], post);
    TokensAppend([Some(a), Some(b)], post);
    TokensAppend(pre, [Some(a + "," + b)] + post);
    TokensAppend(pre, [Some(a), Some(b)] + post);
    assert OneLine(pre, a, b, post) == pre + ([Some(a + "," + b)] + post);
    assert TwoLines(pre, a, b, post) == pre + ([Some(a), Some(b)] + post);
    OneToken(a + "," + b);
    OneToken(a);
    OneToken(b);
    assert [Some(a), Some(b)] == [Some(a)] + [Some(b)];
    TokensAppend([Some(a)], [Some(b)]);
    ElementsAround(a, b);
  }

  lemma OneToken(a: string)
    ensures AllText([Some(a)]) && Tokens([Some(a)]) == Elements(a) && Bytes([Some(a)]) == |a|
  {
  }

  lemma TextApart(pre: seq<Option<string>>, mid: seq<Option<string>>, post: seq<Option<string>>)
    requires AllText(pre + mid + post)
    ensures AllText(pre) && AllText(post)
  {
    var all := pre + mid + post;
    assert forall i | 0 <= i < |pre| :: pre[i] == all[i];
    assert forall i | 0 <= i < |post| :: post[i] == all[|pre| + |mid| + i];
  }

  /** The two resolutions say the same: one client, or a refusal each. */
  predicate Agree<A(==)>(x: Client<A>, y: Client<A>) { x == y || (x.Refused? && y.Refused?) }

  /** Splitting a value at a comma over two header lines changes the outcome if and only if the two
      lines of a trusted peer are readable and the joining comma is the byte that passes the limit. */
  lemma LinesDoNotMatterIff<A(!new)>(r: Resolver<A>, peer: A, pre: seq<Option<string>>, a: string, b: string,
                                     post: seq<Option<string>>)
    ensures var one, two := OneLine(pre, a, b, post), TwoLines(pre, a, b, post);
      Agree(Resolved(r, peer, one), Resolved(r, peer, two))
      <==> !(r.trusts(peer) && Readable(r, two) && !r.BytesOk(Bytes(two) + 1))
  {
    var one, two := OneLine(pre, a, b, post), TwoLines(pre, a, b, post);
    ResolvedMeaning(r, peer, one);
    ResolvedMeaning(r, peer, two);
    if AllText(one) { TextApart(pre, [Some(a + "," + b)], post); }
    if AllText(two) { TextApart(pre, [Some(a), Some(b)], post); }
    hide Resolved, Tokens, Bytes, AllHops, Hops, Pick;
    if AllText(pre) && AllText(post) { LinesAgree(pre, a, b, post); }
  }

  /** It does happen: with a limit of exactly the bytes of two lines, the two lines are accepted and
      their joined form is refused as too long. */
  lemma CommaPassesLimit<A(!new)>(r: Resolver<A>, peer: A, a: string, b: string)
    requires r.trusts(peer) && Readable(r, [Some(a), Some(b)]) && r.maxBytes == |a| + |b| > 0
    ensures Resolved(r, peer, [Some(a), Some(b)]).Client?
    ensures Resolved(r, peer, [Some(a + "," + b)]) == Refused(TooLong)
  {
    ResolvedMeaning(r, peer, [Some(a), Some(b)]);
  }

  /** Two addresses of one byte each, with a limit of two bytes. */
  lemma LimitExample()
    ensures var r := Resolver((ip: int) => ip == 0, 2, 0, (s: string) => Some(|s| as int));
      && Resolved(r, 0, [Some("x"), Some("y")]) == Client(1)
      && Resolved(r, 0, [Some("x" + "," + "y")]) == Refused(TooLong)
  {
    var r := Resolver((ip: int) => ip == 0, 2, 0, (s: string) => Some(|s| as int));
    var two: seq<Option<string>> := [Some("x"), Some("y")];
    OneElement("x");
    OneElement("y");
    assert two[1..] == [Some("y")] && two[1..][1..] == [];
    assert ReadTokens(r, ["x"], []) == Chain([1]) by { assert ["x"][1..] == [] && [] + [1] == [1]; }
    assert ReadTokens(r, ["y"], [1]) == Chain([1, 1]) by { assert ["y"][1..] == [] && [1] + [1] == [1, 1]; }
    assert ReadValues(r, two[1..], 1, [1]) == Chain([1, 1]);
    assert ReadValues(r, two, 0, []) == Chain([1, 1]);
    assert Pick(r, [1, 1], 0) == 1;
  }

  lemma OneElement(s: string)
    requires |s| == 1 && s[0] != ',' && !Space(s[0])
    ensures Elements(s) == [s]
  {
    assert s[1..] == "" && SplitOn("", ',') == [""] && [s[0]] + "" == s;
    assert Trim(s) == s;
  }

  /** Reads the chain of a trusted peer value by value, then walks it from the right. */
  method Resolve<A>(r: Resolver<A>, peer: A, values: seq<Option<string>>) returns (client: Client<A>)
    ensures client == Resolved(r, peer, values)
  {
    if !r.trusts(peer) {
      return Client(peer);
    }
    var reading := ReadChain(r, values);
    if reading.Stopped? {
      return Refused(reading.error);
    }
    if values == [] {
      return Client(peer);
    }
    var hops := reading.hops;
    var chain := hops + [peer];
    var i := |chain|;
    while i > 0
      invariant 0 <= i <= |chain|
      invariant i <= |hops| ==> Pick(r, hops, peer) == Pick(r, hops[..i], peer)
      invariant i == |chain| || i <= |hops|
    {
      i := i - 1;
      if i == |hops| {
        assert chain[i] == peer && hops[..i] == hops;
      } else {
        assert chain[i] == hops[i] && hops[..i + 1][..i] == hops[..i];
      }
      if !r.trusts(chain[i]) {
        return Client(chain[i]);
      }
    }
    return Client(peer);
  }

  method ReadChain<A>(r: Resolver<A>, values: seq<Option<string>>) returns (reading: Reading<A>)
    ensures reading == ReadValues(r, values, 0, [])
  {
    hide Elements, ReadTokens;
    var chain: seq<A> := [];
    var bytes: nat := 0;
    var i := 0;
    assert values[0..] == values;
    while i < |values|
      invariant 0 <= i <= |values|
      invariant ReadValues(r, values, 0, []) == ReadValues(r, values[i..], bytes, chain)
    {
      assert values[i..][1..] == values[i + 1..];
      if values[i].None? {
        return Stopped(Invalid);
      }
      bytes := bytes + |values[i].value|;
      if r.maxBytes > 0 && bytes > r.maxBytes {
        return Stopped(TooLong);
      }
      reading := ReadHops(r, Elements(values[i].value), chain);
      if reading.Stopped? {
        return;
      }
      chain := reading.hops;
      i := i + 1;
    }
    return Chain(chain);
  }

  method ReadHops<A>(r: Resolver<A>, tokens: seq<string>, before: seq<A>) returns (reading: Reading<A>)
    ensures reading == ReadTokens(r, tokens, before)
  {
    var chain := before;
    var i := 0;
    assert tokens[0..] == tokens;
    while i < |tokens|
      invariant 0 <= i <= |tokens|
      invariant ReadTokens(r, tokens, before) == ReadTokens(r, tokens[i..], chain)
    {
      assert tokens[i..][1..] == tokens[i + 1..];
      if tokens[i] == "" {
        return Stopped(Invalid);
      }
      if r.maxHops > 0 && |chain| + 1 > r.maxHops {
        return Stopped(TooManyHops);
      }
      var ip := r.parse(tokens[i]);
      if ip.None? {
        return Stopped(Invalid);
      }
      chain := chain + [ip.value];
      i := i + 1;
    }
    return Chain(chain);
  }

  // ---- trust by address ranges ----

  /** The resolver of a list of trusted ranges. */
  function RangeResolver(ranges: seq<IpRanges.Range>, maxBytes: nat, maxHops: nat,
                         parse: string -> Option<IpRanges.Ip>): Resolver<IpRanges.Ip>
  {
    Resolver((ip: IpRanges.Ip) => IpRanges.TrustedBy(ranges, ip), maxBytes, maxHops, parse)
  }

  /** The address agrees with some range in family and leading bits. */
  ghost predicate InRanges(ranges: seq<IpRanges.Range>, ip: IpRanges.Ip) {
    exists i | 0 <= i < |ranges| ::
      ranges[i].ip.V4? == ip.V4? && ip.bits[..ranges[i].prefix] == ranges[i].ip.bits[..ranges[i].prefix]
  }

  lemma TrustIsPrefix(ranges: seq<IpRanges.Range>, ip: IpRanges.Ip)
    ensures IpRanges.TrustedBy(ranges, ip) <==> InRanges(ranges, ip)
  {
    forall i | 0 <= i < |ranges|
      ensures IpRanges.Contains(ranges[i], ip)
        <==> ranges[i].ip.V4? == ip.V4? && ip.bits[..ranges[i].prefix] == ranges[i].ip.bits[..ranges[i].prefix]
    {
      IpRanges.RangeIsPrefix(ranges[i], ip);
    }
  }

  /** The client behind a peer in a trusted range is the rightmost hop that agrees with no range in
      its leading bits, or the peer when every hop agrees with one. */
  lemma ClientOutsideRanges(ranges: seq<IpRanges.Range>, maxBytes: nat, maxHops: nat,
                            parse: string -> Option<IpRanges.Ip>, peer: IpRanges.Ip, values: seq<Option<string>>)
    requires InRanges(ranges, peer) && Readable(RangeResolver(ranges, maxBytes, maxHops, parse), values)
    ensures var r := RangeResolver(ranges, maxBytes, maxHops, parse);
      var hops := Hops(r, Tokens(values)); var client := Resolved(r, peer, values);
      || (client == Client(peer) && forall i | 0 <= i < |hops| :: InRanges(ranges, hops[i]))
      || (exists i | 0 <= i < |hops| ::
            client == Client(hops[i]) && !InRanges(ranges, hops[i])
            && forall j | i < j < |hops| :: InRanges(ranges, hops[j]))
  {
    var r := RangeResolver(ranges, maxBytes, maxHops, parse);
    var hops := Hops(r, Tokens(values));
    TrustIsPrefix(ranges, peer);
    ResolvedMeaning(r, peer, values);
    PickMeaning(r, hops, peer);
    hide Pick, Resolved, InRanges, Hops, Tokens;
    forall i | 0 <= i < |hops| ensures r.trusts(hops[i]) <==> InRanges(ranges, hops[i]) {
      TrustIsPrefix(ranges, hops[i]);
    }
    if !AllTrusted(r, hops) {
      var i :| 0 <= i < |hops| && Pick(r, hops, peer) == hops[i] && !r.trusts(hops[i]) && AllTrusted(r, hops[i + 1..]);
      forall j | i < j < |hops| ensures InRanges(ranges, hops[j]) { assert hops[i + 1..][j - i - 1] == hops[j]; }
    }
  }
}
