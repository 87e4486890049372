/** Trusted address ranges and the limiters' address keys: two ways to mask an address to a prefix. */
module IpRanges {

  /** The bits of a 32-bit or 128-bit word, most significant first. */
  type Bits = seq<bool>

  datatype Address = V4(bits: Bits) | V6(bits: Bits) {
    function Width(): nat { if V4? then 32 else 128 }
  }

  type Ip = a: Address | |a.bits| == a.Width() witness V4(Filled(32, false))

  datatype Network = Network(ip: Ip, prefix: nat)

  /** A trusted range: a network with a prefix its addresses can have. */
  type Range = n: Network | n.prefix <= n.ip.Width() witness Network(V4(Filled(32, false)), 0)

  function Filled(n: nat, b: bool): (r: Bits)
    ensures |r| == n && forall i | 0 <= i < n :: r[i] == b
  {
    seq(n, i => b)
  }

  function And(a: Bits, b: Bits): (r: Bits)
    requires |a| == |b|
    ensures |r| == |a| && forall i | 0 <= i < |a| :: r[i] == (a[i] && b[i])
  {
    seq(|a|, i requires 0 <= i < |a| => a[i] && b[i])
  }

  function ShiftLeft(a: Bits, k: nat): (r: Bits)
    requires k <= |a|
    ensures |r| == |a|
  {
    a[k..] + Filled(k, false)
  }

  function Mask(width: nat, prefix: nat): (r: Bits)
    requires prefix <= width
    ensures |r| == width
  {
    if prefix == 0 then Filled(width, false) else ShiftLeft(Filled(width, true), width - prefix)
  }

  /** Membership in a range, by masking both sides. */
  predicate Contains(r: Range, ip: Ip)
  {
    r.ip.V4? == ip.V4? &&
    And(ip.bits, Mask(ip.Width(), r.prefix)) == And(r.ip.bits, Mask(ip.Width(), r.prefix))
  }

  /** The limiters' own masking of an address, with its shortcuts for empty and full prefixes. */
  function Normalize(ip: Ip, prefix4: nat, prefix6: nat): (r: Ip)
    ensures r.V4? == ip.V4?
  {
    var width := ip.Width();
    var configured := if ip.V4? then prefix4 else prefix6;
    var prefix := if configured < width then configured else width;
    if prefix == 0 then Word(ip, Filled(width, false))
    else if prefix == width then ip
    else Word(ip, And(ip.bits, ShiftLeft(Filled(width, true), width - prefix)))
  }

  function Word(ip: Ip, bits: Bits): Ip
    requires |bits| == ip.Width()
  {
     if ip.V4? then V4(bits) else V6(bits)
  }

  /** Masking keeps the leading bits and clears the others. */
  lemma MaskKeeps(a: Bits, prefix: nat)
    requires prefix <= |a|
    ensures And(a, Mask(|a|, prefix)) == a[..prefix] + Filled(|a| - prefix, false)
  {
    var m := Mask(|a|, prefix);
    assert forall i | 0 <= i < |a| :: m[i] == (i < prefix);
  }

  lemma PrefixesEqual(a: Bits, b: Bits, prefix: nat)
    requires |a| == |b| && prefix <= |a|
    ensures And(a, Mask(|a|, prefix)) == And(b, Mask(|a|, prefix)) <==> a[..prefix] == b[..prefix]
  {
    MaskKeeps(a, prefix);
    MaskKeeps(b, prefix);
    var x, y := And(a, Mask(|a|, prefix)), And(b, Mask(|a|, prefix));
    assert x[..prefix] == a[..prefix] && y[..prefix] == b[..prefix];
  }

  /** What the limiters key an address on: its leading bits, the rest cleared. */
  lemma NormalizeKeeps(ip: Ip, prefix4: nat, prefix6: nat)
    ensures var configured := if ip.V4? then prefix4 else prefix6;
      var prefix := if configured < ip.Width() then configured else ip.Width();
      Normalize(ip, prefix4, prefix6).bits == ip.bits[..prefix] + Filled(ip.Width() - prefix, false)
  {
    var configured := if ip.V4? then prefix4 else prefix6;
    var prefix := if configured < ip.Width() then configured else ip.Width();
    MaskKeeps(ip.bits, prefix);
  }

  lemma SameKeyIff(a: Ip, b: Ip, prefix: nat)
    requires a.V4? == b.V4? && prefix <= a.Width()
    ensures Normalize(a, prefix, prefix) == Normalize(b, prefix, prefix) <==> a.bits[..prefix] == b.bits[..prefix]
  {
    hide Normalize;
    NormalizeKeeps(a, prefix, prefix);
    NormalizeKeeps(b, prefix, prefix);
    var x, y := Normalize(a, prefix, prefix), Normalize(b, prefix, prefix);
    assert x.bits[..prefix] == a.bits[..prefix] && y.bits[..prefix] == b.bits[..prefix];
  }

  /** For every prefix length, an address is in a trusted range exactly when the limiters mask it
      to the same value as the range's network, that is when the leading bits agree. */
  lemma RangeIsPrefix(r: Range, ip: Ip)
    ensures Contains(r, ip) <==> Normalize(ip, r.prefix, r.prefix) == Normalize(r.ip, r.prefix, r.prefix)
    ensures Contains(r, ip) <==> r.ip.V4? == ip.V4? && ip.bits[..r.prefix] == r.ip.bits[..r.prefix]
  {
    hide Normalize, Mask, And;
    if r.ip.V4? == ip.V4? {
      PrefixesEqual(ip.bits, r.ip.bits, r.prefix);
      SameKeyIff(ip, r.ip, r.prefix);
    }
  }

  /** The test a resolver applies to peers and hops. */
  predicate TrustedBy(ranges: seq<Range>, ip: Ip) { exists i | 0 <= i < |ranges| :: Contains(ranges[i], ip) }
}
