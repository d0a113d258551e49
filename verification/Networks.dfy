/** IP networks as net.IPNet has them, in IPv4, IPv6 and IPv4-in-IPv6 notation, and which
    addresses internal/core/ips/ips.go takes to be in use. */
module Networks {
  import opened Wrappers
  import opened Bits
  import opened IpBytes

  const PADDING: nat := 3

  /** A network: address and mask of equal length. */
  datatype IPNet = IPNet(ip: seq<byte>, mask: seq<byte>)

  /** The 16-byte form of an IPv4 address. */
  predicate Mapped(ip: seq<byte>) {
    |ip| == 16 && (forall i :: 0 <= i < 10 ==> ip[i] == 0) && ip[10] == 255 && ip[11] == 255
  }

  function To4(ip: seq<byte>): Option<seq<byte>> {
    if |ip| == 4 then Some(ip) else if Mapped(ip) then Some(ip[12..]) else None
  }

  /** What the textual form of an address identifies. */
  function Key(ip: seq<byte>): seq<byte> {
    if To4(ip).Some? then To4(ip).value else ip
  }

  /** net.IPNet.Contains: both sides are brought to four bytes if possible. */
  predicate Contains(net: IPNet, ip: seq<byte>) {
    var n, x := Key(net.ip), Key(ip);
    var m := if |n| == 4 && |net.mask| == 16 then net.mask[12..] else net.mask;
    && |x| == |n| == |m|
    && forall i :: 0 <= i < |n| ==> AndByte(n[i], m[i]) == AndByte(x[i], m[i])
  }

  /** A network as ParseCIDR produces it. */
  ghost predicate CIDRNet(net: IPNet, prefix: nat) {
    && (|net.ip| == 4 || |net.ip| == 16) && prefix <= 8 * |net.ip|
    && net.mask == CIDRMask(prefix, |net.ip|)
    && net.ip == Masked(net.ip, net.mask)
  }

  ghost function Size(net: IPNet, prefix: nat): nat
    requires prefix <= 8 * |net.ip|
  {
    Pow2(8 * |net.ip| - prefix)
  }

  /** The address is an address of the block. */
  ghost predicate InBlock(net: IPNet, prefix: nat, a: seq<byte>)
    requires prefix <= 8 * |net.ip|
  {
    |a| == |net.ip| && BE(net.ip) <= BE(a) < BE(net.ip) + Size(net, prefix)
  }

  lemma OwnBlock(ip: seq<byte>, masked: seq<byte>, filled: seq<byte>, prefix: nat)
    requires prefix <= 8 * |ip| && masked == Masked(ip, CIDRMask(prefix, |ip|)) == ip
    requires filled == Filled(ip, CIDRMask(prefix, |ip|))
    ensures Block(BE(ip), Pow2(8 * |ip| - prefix), BE(masked), BE(filled)) && BE(masked) == BE(ip)
  {
    BlockValues(ip, prefix);
  }

  lemma NetBlock(net: IPNet, prefix: nat)
    requires CIDRNet(net, prefix)
    ensures Rem(BE(net.ip), Size(net, prefix)) == 0
    ensures BE(Masked(net.ip, net.mask)) == BE(net.ip)
    ensures BE(Filled(net.ip, net.mask)) == BE(net.ip) + Size(net, prefix) - 1
  {
    var masked, filled := Masked(net.ip, net.mask), Filled(net.ip, net.mask);
    OwnBlock(net.ip, masked, filled, prefix);
    AlignedBlock(BE(net.ip), Size(net, prefix), BE(masked), BE(filled));
  }

  lemma AlignedBlock(v: nat, m: nat, lo: nat, hi: nat)
    requires Block(v, m, lo, hi) && lo == v
    ensures Rem(v, m) == 0 && hi == v + m - 1
  {
  }

  lemma SameBlock(v: nat, base: nat, m: nat)
    requires m > 0 && Rem(base, m) == 0
    ensures v - Rem(v, m) == base <==> base <= v < base + m
  {
    RemIsMod(base, m);
    RemIsMod(v, m);
    if base <= v < base + m {
      ModUnique(v, m, base / m, v - base);
    }
  }

  lemma MaskedValue(a: seq<byte>, prefix: nat)
    requires prefix <= 8 * |a|
    ensures BE(Masked(a, CIDRMask(prefix, |a|))) == BE(a) - Rem(BE(a), Pow2(8 * |a| - prefix))
  {
    BlockValues(a, prefix);
  }

  lemma SameValue(a: seq<byte>, b: seq<byte>)
    requires |a| == |b|
    ensures BE(a) == BE(b) <==> a == b
  {
    if BE(a) == BE(b) { BEInjective(a, b); }
  }

  lemma MaskedAligned(a: seq<byte>, prefix: nat, base: nat)
    requires prefix <= 8 * |a| && Rem(base, Pow2(8 * |a| - prefix)) == 0
    ensures BE(Masked(a, CIDRMask(prefix, |a|))) == base <==> base <= BE(a) < base + Pow2(8 * |a| - prefix)
  {
    MaskedValue(a, prefix);
    SameBlock(BE(a), base, Pow2(8 * |a| - prefix));
  }

  lemma MaskedEqual(net: IPNet, prefix: nat, a: seq<byte>)
    requires CIDRNet(net, prefix) && |a| == |net.ip|
    ensures Masked(a, net.mask) == net.ip <==> InBlock(net, prefix, a)
  {
    NetBlock(net, prefix);
    MaskedAligned(a, prefix, BE(net.ip));
    SameValue(Masked(a, net.mask), net.ip);
  }

  lemma FullMaskByte(a: byte, m: byte)
    ensures m == 255 ==> AndByte(a, m) == a
  {
    ByteMasks(a, 8, 0);
    RemOne(a);
  }

  /** A canonical network inside ::ffff:0:0/96 has a prefix of at least 96. */
  lemma MappedPrefix(net: IPNet, prefix: nat)
    requires CIDRNet(net, prefix) && Mapped(net.ip)
    ensures prefix >= 96 && forall i :: 0 <= i < 12 ==> net.mask[i] == 255
  {
    ByteMasks(255, prefix, 11);
    ByteBounds(HostBits(prefix, 11));
    assert net.ip[11] == AndByte(255, MaskByte(prefix, 11));
    assert Rem(255, Pow2(HostBits(prefix, 11))) == 0;
    assert Pow2(0) == 1;
  }

  lemma AlreadyMasked(net: IPNet, prefix: nat, i: nat)
    requires CIDRNet(net, prefix) && i < |net.ip|
    ensures AndByte(net.ip[i], net.mask[i]) == net.ip[i]
  {
    assert net.ip[i] == Masked(net.ip, net.mask)[i];
  }

  /** Compared byte by byte, the masked address is the network. */
  lemma ContainsPlain(net: IPNet, prefix: nat, a: seq<byte>)
    requires CIDRNet(net, prefix) && |a| == |net.ip| && !Mapped(a) && !Mapped(net.ip)
    ensures Contains(net, a) <==> Masked(a, net.mask) == net.ip
  {
    assert Key(a) == a && Key(net.ip) == net.ip;
    forall i | 0 <= i < |a| { AlreadyMasked(net, prefix, i); }
  }

  /** In the mapped range the first twelve bytes agree anyway. */
  lemma ContainsMapped(net: IPNet, prefix: nat, a: seq<byte>)
    requires CIDRNet(net, prefix) && Mapped(a) && Mapped(net.ip)
    ensures Contains(net, a) <==> Masked(a, net.mask) == net.ip
  {
    var masked := Masked(a, net.mask);
    MappedPrefix(net, prefix);
    forall i | 0 <= i < 12
      ensures masked[i] == net.ip[i]
    {
      FullMaskByte(a[i], net.mask[i]);
    }
    forall i | 0 <= i < 16 { AlreadyMasked(net, prefix, i); }
    var n, x, m := net.ip[12..], a[12..], net.mask[12..];
    assert Key(net.ip) == n && Key(a) == x;
    if Contains(net, a) {
      forall i | 12 <= i < 16
        ensures masked[i] == net.ip[i]
      {
        assert AndByte(n[i - 12], m[i - 12]) == AndByte(x[i - 12], m[i - 12]);
      }
    }
  }

  /** Contains, in terms of numbers, for addresses as long as the network's. */
  lemma ContainsSame(net: IPNet, prefix: nat, a: seq<byte>)
    requires CIDRNet(net, prefix) && |a| == |net.ip|
    ensures Contains(net, a) <==> Mapped(a) == Mapped(net.ip) && InBlock(net, prefix, a)
  {
    MaskedEqual(net, prefix, a);
    if Mapped(a) != Mapped(net.ip) {
      assert |Key(a)| != |Key(net.ip)|;
    } else if Mapped(a) {
      ContainsMapped(net, prefix, a);
    } else {
      ContainsPlain(net, prefix, a);
    }
  }

  // ---- the two notations of an IPv4 address ----

  /** ::ffff:0.0.0.0, the first of the 2^32 addresses that stand for IPv4 addresses. */
  const MAPPED_START: nat := 0xFFFF_0000_0000
  const MAPPED_SIZE: nat := 0x1_0000_0000

  lemma {:induction false} BEConcat(a: seq<byte>, b: seq<byte>)
    ensures BE(a + b) == BE(a) * Pow2(8 * |b|) + BE(b)
  {
    if b == [] {
      assert a + b == a;
      assert Pow2(0) == 1;
    } else {
      var n := |b| - 1;
      assert (a + b)[..|a| + n] == a + b[..n];
      BEConcat(a, b[..n]);
      Pow2Eight(n);
      ConcatStep(BE(a), Pow2(8 * n), BE(b[..n]), b[n]);
    }
  }

  lemma ConcatStep(x: nat, m: nat, y: nat, r: nat)
    ensures (x * m + y) * 256 + r == x * (256 * m) + (y * 256 + r)
  {
  }

  lemma {:induction false} ZerosValue(s: seq<byte>)
    requires forall i :: 0 <= i < |s| ==> s[i] == 0
    ensures BE(s) == 0
  {
    if s != [] {
      ZerosValue(s[..|s| - 1]);
    }
  }

  lemma MappedHead(h: seq<byte>)
    requires |h| == 12
    ensures (forall i :: 0 <= i < 10 ==> h[i] == 0) && h[10] == 255 && h[11] == 255 <==> BE(h) == 0xFFFF
  {
    var z := h[..10];
    BEInit(h, h[..11], h[11]);
    BEInit(h[..11], z, h[10]);
    assert h[..11][..10] == z;
    if BE(h) == 0xFFFF {
      assert BE(z) == 0;
      var zeros := seq(10, i => 0);
      ZerosValue(zeros);
      BEInjective(z, zeros);
      assert forall i :: 0 <= i < 10 ==> h[i] == z[i] == zeros[i];
    } else if forall i :: 0 <= i < 10 ==> h[i] == 0 {
      ZerosValue(z);
    }
  }

  lemma ThirtyTwo()
    ensures Pow2(32) == MAPPED_SIZE
  {
    assert Pow2(8) == 256;
    Pow2Add(8, 8);
    Pow2Add(16, 16);
  }

  /** The addresses that stand for IPv4 addresses are a range of 2^32. */
  lemma MappedExact(a: seq<byte>)
    requires |a| == 16
    ensures Mapped(a) <==> MAPPED_START <= BE(a) < MAPPED_START + MAPPED_SIZE
    ensures Mapped(a) ==> BE(a) == MAPPED_START + BE(a[12..])
  {
    var h, t := a[..12], a[12..];
    assert a == h + t;
    BEConcat(h, t);
    ThirtyTwo();
    MappedHead(h);
    assert Mapped(a) <==> (forall i :: 0 <= i < 10 ==> h[i] == 0) && h[10] == 255 && h[11] == 255;
    HeadDecides(BE(h), BE(t), BE(a));
  }

  lemma HeadDecides(h: nat, t: nat, v: nat)
    requires v == h * MAPPED_SIZE + t && t < MAPPED_SIZE
    ensures MAPPED_START <= v < MAPPED_START + MAPPED_SIZE <==> h == 0xFFFF
  {
  }

  /** The value of an address in its 16-byte form. */
  function Wide(a: seq<byte>): nat {
    if |a| == 4 then MAPPED_START + BE(a) else BE(a)
  }

  /** The 16-byte form of an IPv4 address. */
  function In6(a: seq<byte>): (r: seq<byte>)
    requires |a| == 4
    ensures Mapped(r) && r[12..] == a && Key(r) == a
  {
    [0, 0, 0, 0, 0, 0, 0, 0, 0, 0, 255, 255] + a
  }

  lemma ContainsByKey(net: IPNet, a: seq<byte>, b: seq<byte>)
    requires Key(a) == Key(b)
    ensures Contains(net, a) == Contains(net, b)
  {
  }

  /** A 16-byte network, a four-byte address. */
  lemma ContainsShort(net: IPNet, prefix: nat, a: seq<byte>)
    requires CIDRNet(net, prefix) && |net.ip| == 16 && |a| == 4
    ensures Contains(net, a) <==>
            Mapped(net.ip) && BE(net.ip) <= MAPPED_START + BE(a) < BE(net.ip) + Size(net, prefix)
  {
    if Mapped(net.ip) {
      ContainsByKey(net, a, In6(a));
      ContainsSame(net, prefix, In6(a));
      MappedExact(In6(a));
    }
  }

  /** A four-byte network, a 16-byte address. */
  lemma ContainsLong(net: IPNet, prefix: nat, a: seq<byte>)
    requires CIDRNet(net, prefix) && |net.ip| == 4 && |a| == 16
    ensures Contains(net, a) <==>
            Mapped(a) && MAPPED_START + BE(net.ip) <= BE(a) < MAPPED_START + BE(net.ip) + Size(net, prefix)
  {
    if Mapped(a) {
      ContainsByKey(net, a, a[12..]);
      ContainsSame(net, prefix, a[12..]);
      MappedExact(a);
    }
  }

  /** Contains, in terms of numbers, for every network and address: both are IPv4 addresses in
      one notation or the other, or neither is, and the address is in the block. */
  lemma ContainsExact(net: IPNet, prefix: nat, a: seq<byte>)
    requires CIDRNet(net, prefix) && (|a| == 4 || |a| == 16)
    ensures Contains(net, a) <==>
            To4(a).Some? == To4(net.ip).Some? && Wide(net.ip) <= Wide(a) < Wide(net.ip) + Size(net, prefix)
  {
    if |a| == |net.ip| {
      ContainsSame(net, prefix, a);
    } else if |a| == 4 {
      ContainsShort(net, prefix, a);
    } else {
      ContainsLong(net, prefix, a);
    }
  }

  /** Two addresses have the same text exactly when they have the same 16-byte form. */
  lemma KeyExact(a: seq<byte>, b: seq<byte>)
    requires (|a| == 4 || |a| == 16) && (|b| == 4 || |b| == 16)
    ensures Key(a) == Key(b) <==> Wide(a) == Wide(b)
  {
    KeyWide(a);
    KeyWide(b);
    if |Key(a)| == |Key(b)| { SameValue(Key(a), Key(b)); }
  }

  lemma KeyWide(a: seq<byte>)
    requires |a| == 4 || |a| == 16
    ensures |Key(a)| == if MAPPED_START <= Wide(a) < MAPPED_START + MAPPED_SIZE then 4 else 16
    ensures Wide(a) == if |Key(a)| == 4 then MAPPED_START + BE(Key(a)) else BE(Key(a))
  {
    if |a| == 16 {
      MappedExact(a);
    } else {
      MappedExact(In6(a));
    }
  }

  // ---- what counts as taken ----

  /** The code sees an address as taken when a used address has the same text, and the
      network contains it. */
  ghost predicate Taken(net: IPNet, used: seq<Option<seq<byte>>>, a: seq<byte>) {
    Contains(net, a) && InUse(used, a)
  }

  ghost predicate InUse(used: seq<Option<seq<byte>>>, a: seq<byte>) {
    exists i :: 0 <= i < |used| && used[i].Some? && Key(used[i].value) == Key(a)
  }

  /** Inside the block, taken means in use, except for an IPv4-in-IPv6 address of an IPv6
      block so large that it contains all of them. */
  lemma TakenExact(net: IPNet, prefix: nat, used: seq<Option<seq<byte>>>, a: seq<byte>)
    requires CIDRNet(net, prefix) && InBlock(net, prefix, a)
    ensures Mapped(a) == Mapped(net.ip) ==> (Taken(net, used, a) <==> InUse(used, a))
    ensures Mapped(a) != Mapped(net.ip) ==> !Taken(net, used, a) && prefix < 96 && |net.ip| == 16
  {
    ContainsSame(net, prefix, a);
    if Mapped(a) != Mapped(net.ip) {
      MixedBlock(net, prefix, a);
    }
  }

  lemma FullPrefixBytes(prefix: nat, n: nat)
    requires prefix >= 96 && n == 16
    ensures forall i :: 0 <= i < 12 ==> CIDRMask(prefix, n)[i] == 255
  {
    assert Pow2(0) == 1;
  }

  lemma MixedBlock(net: IPNet, prefix: nat, a: seq<byte>)
    requires CIDRNet(net, prefix) && InBlock(net, prefix, a) && Mapped(a) != Mapped(net.ip)
    ensures prefix < 96 && |net.ip| == 16
  {
    if prefix >= 96 {
      MaskedEqual(net, prefix, a);
      FullPrefixBytes(prefix, 16);
      forall i | 0 <= i < 12
        ensures a[i] == net.ip[i]
      {
        FullMaskByte(a[i], net.mask[i]);
        assert Masked(a, net.mask)[i] == net.ip[i];
      }
    }
  }

  lemma BlockFits(net: IPNet, prefix: nat)
    requires CIDRNet(net, prefix)
    ensures BE(net.ip) + Size(net, prefix) <= Pow2(8 * |net.ip|)
    ensures 16 <= Pow2(8 * |net.ip|)
  {
    NetBlock(net, prefix);
    Pow2Monotone(4, 8 * |net.ip|);
    assert Pow2(4) == 16;
  }

  /** The candidate range: past the network address and the padding, before the broadcast. */
  ghost predicate Candidate(net: IPNet, prefix: nat, a: seq<byte>)
    requires prefix <= 8 * |net.ip|
  {
    |a| == |net.ip| && BE(net.ip) + 4 <= BE(a) < BE(net.ip) + Size(net, prefix) - 1
  }
}
