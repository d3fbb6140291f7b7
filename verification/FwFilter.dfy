/**
 * The internal-network test of the firewall collector (internal/fw/filter.go): a shift, a mask and a
 * comparison on unsigned 32-bit words, here numbers whose bits are combined one by one.
 */
module FwFilter {
  type Ip = x: int | 0 <= x < 0x1_0000_0000

  const ALL: Ip := 0xFFFF_FFFF

  /** A network as net.IPNet gives it: its address, and the prefix length of its mask out of bits. */
  datatype Net = Net(base: Ip, ones: nat, bits: nat)

  function Pow2(n: nat): (p: nat)
    ensures p > 0
  {
    if n == 0 then 1 else 2 * Pow2(n - 1)
  }

  /** x & y */
  function And(x: nat, y: nat): nat
    decreases x
  {
    if x == 0 then 0 else 2 * And(x / 2, y / 2) + (if x % 2 == 1 && y % 2 == 1 then 1 else 0)
  }

  /** x << n, the bits beyond the 32nd lost */
  function Shl(x: Ip, n: nat): Ip {
    x * Pow2(n) % 0x1_0000_0000
  }

  // ---------------------------------------------------------------- the mask

  lemma {:induction false} Pow2Within(n: nat, k: nat)
    requires k <= n
    ensures Pow2(k) <= Pow2(n)
  {
    if k < n {
      Pow2Within(n - 1, k);
    }
  }

  lemma Pow2Word()
    ensures Pow2(32) == 0x1_0000_0000
  {
    assert Pow2(8) == 0x100;
    assert Pow2(16) == 0x1_0000 by { assert Pow2(12) == 0x1000; }
    assert Pow2(24) == 0x100_0000 by { assert Pow2(20) == 0x10_0000; }
    assert Pow2(28) == 0x1000_0000;
  }

  lemma MaskIs(n: nat)
    requires n <= 32
    ensures Shl(ALL, n) == 0x1_0000_0000 - Pow2(n)
  {
    Pow2Word();
    Pow2Within(32, n);
    var p, w := Pow2(n), 0x1_0000_0000;
    assert ALL * p == w * (p - 1) + (w - p);
    Remainder(w, p - 1, w - p);
  }

  lemma SameBlock(x: nat, q: nat, p: nat)
    requires p > 0
    ensures p * q <= x < p * q + p <==> x / p == q
  {
    var r := x % p;
    assert x == p * (x / p) + r;
    if x / p < q {
      assert p * (x / p) + p <= p * q by { assert p * (x / p + 1) <= p * q; }
    } else if x / p > q {
      assert p * (x / p) >= p * q + p by { assert p * (x / p) >= p * (q + 1); }
    }
  }

  lemma Remainder(w: nat, q: nat, r: nat)
    requires r < w
    ensures (w * q + r) % w == r
  {
    SameBlock(w * q + r, q, w);
  }

  lemma ModDouble(x: nat, m: nat)
    requires m > 0
    ensures x % (2 * m) == 2 * (x / 2 % m) + x % 2
  {
    var q, r := x / 2 / m, x / 2 % m;
    assert x / 2 == m * q + r;
    assert x == 2 * (x / 2) + x % 2;
    assert x == (2 * m) * q + (2 * r + x % 2);
    Remainder(2 * m, q, 2 * r + x % 2);
  }

  /** Masking with the bits from k up clears the bits below k. */
  lemma {:induction false} MaskClears(x: nat, n: nat, k: nat, mask: nat)
    requires k <= n && x < Pow2(n) && mask == Pow2(n) - Pow2(k)
    ensures And(x, mask) == x - x % Pow2(k)
    decreases n
  {
    if x != 0 {
      if k == 0 {
        assert mask == 2 * (Pow2(n - 1) - 1) + 1;
        MaskClears(x / 2, n - 1, 0, mask / 2);
      } else {
        Pow2Within(n - 1, k - 1);
        assert mask == 2 * (Pow2(n - 1) - Pow2(k - 1));
        MaskClears(x / 2, n - 1, k - 1, mask / 2);
        ModDouble(x, Pow2(k - 1));
      }
    }
  }

  // ---------------------------------------------------------------- the block

  /** The lowest address of the aligned block of 2^(32 - ones) addresses around base. */
  function First(base: Ip, ones: nat): nat
    requires ones <= 32
  {
    Pow2(32 - ones) * (base / Pow2(32 - ones))
  }

  predicate InBlock(ip: Ip, n: Net)
    requires n.ones <= 32
  {
    First(n.base, n.ones) <= ip < First(n.base, n.ones) + Pow2(32 - n.ones)
  }

  predicate MaskTest(ip: Ip, n: Net)
    requires n.ones <= 32
  {
    Masked(ip, n.ones) == Masked(n.base, n.ones)
  }

  function Masked(x: Ip, ones: nat): nat
    requires ones <= 32
  {
    And(x, Shl(ALL, 32 - ones))
  }

  lemma MaskedIsFirst(x: Ip, ones: nat)
    requires ones <= 32
    ensures Masked(x, ones) == First(x, ones)
  {
    Pow2Word();
    MaskIs(32 - ones);
    MaskedWord(x, 32, 32 - ones, Shl(ALL, 32 - ones));
  }

  lemma MaskedWord(x: nat, n: nat, k: nat, mask: nat)
    requires k <= n && x < Pow2(n) && mask == Pow2(n) - Pow2(k)
    ensures And(x, mask) == Pow2(k) * (x / Pow2(k))
  {
    MaskClears(x, n, k, mask);
    WholePart(x, Pow2(k));
  }

  lemma WholePart(x: nat, p: nat)
    requires p > 0
    ensures x - x % p == p * (x / p)
  {
  }

  /** The mask test holds exactly for the addresses of the block, whatever the prefix length. */
  lemma MaskTestIsRange(ip: Ip, n: Net)
    requires n.ones <= 32
    ensures MaskTest(ip, n) <==> InBlock(ip, n)
  {
    hide Masked, Pow2;
    var p := Pow2(32 - n.ones);
    MaskedIsFirst(ip, n.ones);
    MaskedIsFirst(n.base, n.ones);
    SameBlock(ip, n.base / p, p);
    SameMultiple(p, ip / p, n.base / p);
  }

  lemma SameMultiple(p: nat, a: nat, b: nat)
    requires p > 0
    ensures p * a == p * b <==> a == b
  {
  }

  // ---------------------------------------------------------------- the filter

  /** A network counts when its mask is a 32-bit prefix mask. */
  predicate Usable(n: Net) { n.bits == 32 && n.ones <= 32 }

  predicate IsInternal(ip: Ip, nets: seq<Net>) {
    exists i :: 0 <= i < |nets| && Usable(nets[i]) && InBlock(ip, nets[i])
  }

  datatype FirewallEvent = FirewallEvent(srcIp: Ip, dstIp: Ip)

  /** The static and the learned trusted addresses, those that are IPv4; the others match nothing. */
  datatype Filter = Filter(excludeInternal: bool, filterDst: bool, nets: seq<Net>, excluded: seq<Ip>, learned: seq<Ip>)

  /** The scan over the networks is membership in the union of their blocks. */
  method IsInternalIPv4(ip: Ip, nets: seq<Net>) returns (r: bool)
    requires forall i :: 0 <= i < |nets| && nets[i].bits == 32 ==> nets[i].ones <= 32
    ensures r <==> IsInternal(ip, nets)
  {
    for i := 0 to |nets|
      invariant forall j :: 0 <= j < i && Usable(nets[j]) ==> !InBlock(ip, nets[j])
    {
      var n := nets[i];
      if n.bits != 32 {
        continue;
      }
      var mask := Shl(ALL, 32 - n.ones);
      MaskTestIsRange(ip, n);
      if And(ip, mask) == And(n.base, mask) {
        return true;
      }
    }
    return false;
  }

  method ContainsIPv4(ip: Ip, ips: seq<Ip>) returns (r: bool)
    ensures r <==> ip in ips
  {
    for i := 0 to |ips|
      invariant ip !in ips[..i]
    {
      if ips[i] == ip {
        return true;
      }
    }
    return false;
  }

  /**
   * An event is dropped exactly when its known source is trusted, or, with internal traffic excluded,
   * when its known source, or in extended mode its known destination, lies in one of the networks.
   * An address of 0 is unknown and never a reason.
   */
  method ShouldDrop(f: Filter, ev: FirewallEvent) returns (r: bool)
    requires forall i :: 0 <= i < |f.nets| && f.nets[i].bits == 32 ==> f.nets[i].ones <= 32
    ensures r <==>
      || (ev.srcIp != 0 && (ev.srcIp in f.excluded || ev.srcIp in f.learned))
      || (f.excludeInternal && ev.srcIp != 0 && IsInternal(ev.srcIp, f.nets))
      || (f.excludeInternal && f.filterDst && ev.dstIp != 0 && IsInternal(ev.dstIp, f.nets))
  {
    if ev.srcIp != 0 {
      var known := ContainsIPv4(ev.srcIp, f.excluded);
      if known { return true; }
      known := ContainsIPv4(ev.srcIp, f.learned);
      if known { return true; }
    }
    if !f.excludeInternal || |f.nets| == 0 { return false; }
    if ev.srcIp != 0 {
      r := IsInternalIPv4(ev.srcIp, f.nets);
      if r { return true; }
    }
    if f.filterDst && ev.dstIp != 0 {
      r := IsInternalIPv4(ev.dstIp, f.nets);
      return r;
    }
    return false;
  }
}
