/** `RandomIP` and `addBigIntToIP` of internal/core/ips/ips.go. The random number is a parameter. */
module RandomAddress {
  import opened Wrappers
  import opened Bits
  import opened IpBytes
  import opened Networks

  /** The minimal big-endian bytes of a number, as big.Int.Bytes gives them. */
  function Bytes(v: nat): seq<byte> {
    if v == 0 then [] else Bytes(v / 256) + [v % 256]
  }

  lemma {:induction false} BytesValue(v: nat)
    ensures BE(Bytes(v)) == v
  {
    if v > 0 {
      BytesValue(v / 256);
      assert Bytes(v)[..|Bytes(v)| - 1] == Bytes(v / 256);
    }
  }

  lemma {:induction false} BytesFit(v: nat, n: nat)
    requires v < Pow2(8 * n)
    ensures |Bytes(v)| <= n
  {
    if v > 0 {
      assert n > 0 by {
        assert Pow2(0) == 1;
      }
      Pow2Eight(n - 1);
      BytesFit(v / 256, n - 1);
    }
  }

  function Zeros(n: nat): (z: seq<byte>)
    ensures |z| == n
  {
    seq(n, i => 0)
  }

  lemma {:induction false} LeadingZeros(n: nat, s: seq<byte>)
    ensures BE(Zeros(n) + s) == BE(s)
  {
    if s == [] {
      if n > 0 {
        assert (Zeros(n) + s)[..n - 1] == Zeros(n - 1) + [];
        LeadingZeros(n - 1, []);
      }
    } else {
      var k := |s| - 1;
      assert (Zeros(n) + s)[..n + k] == Zeros(n) + s[..k];
      LeadingZeros(n, s[..k]);
    }
  }

  /** Adds an offset and pads on the left; the sum must fit the address length. */
  function AddBigIntToIP(ip: seq<byte>, offset: nat): (r: seq<byte>)
    requires BE(ip) + offset < Pow2(8 * |ip|)
    ensures |r| == |ip| && BE(r) == BE(ip) + offset
  {
    var v := BE(ip) + offset;
    BytesFit(v, |ip|);
    BytesValue(v);
    LeadingZeros(|ip| - |Bytes(v)|, Bytes(v));
    Zeros(|ip| - |Bytes(v)|) + Bytes(v)
  }

  /** `random` is uniform below `available`; the number of addresses between network and
      broadcast. */
  function Available(net: IPNet, prefix: nat): int
    requires prefix <= 8 * |net.ip|
  {
    Pow2(8 * |net.ip| - prefix) - 2
  }

  function RandomIP(net: IPNet, prefix: nat, random: nat): (r: Option<seq<byte>>)
    requires CIDRNet(net, prefix) && (Available(net, prefix) > 0 ==> random < Available(net, prefix))
  {
    if Available(net, prefix) <= 0 then None
    else
      NetBlock(net, prefix);
      BlockFits(net, prefix);
      Some(AddBigIntToIP(Masked(net.ip, net.mask), random + 1))
  }

  ghost predicate Between(net: IPNet, prefix: nat, a: seq<byte>)
    requires prefix <= 8 * |net.ip|
  {
    |a| == |net.ip| && BE(net.ip) < BE(a) < BE(net.ip) + Size(net, prefix) - 1
  }

  /** Nothing can be drawn exactly when at most one host bit is left. */
  lemma NothingToDraw(net: IPNet, prefix: nat)
    requires CIDRNet(net, prefix)
    ensures Available(net, prefix) <= 0 <==> 8 * |net.ip| - prefix <= 1
  {
    var h := 8 * |net.ip| - prefix;
    assert Pow2(1) == 2 && Pow2(2) == 4;
    if h <= 1 {
      Pow2Monotone(h, 1);
    } else {
      Pow2Monotone(2, h);
    }
  }

  /** A drawn address lies strictly between network and broadcast. */
  lemma RandomInside(net: IPNet, prefix: nat, random: nat)
    requires CIDRNet(net, prefix) && random < Available(net, prefix)
    ensures RandomIP(net, prefix, random).Some? && Between(net, prefix, RandomIP(net, prefix, random).value)
  {
    NetBlock(net, prefix);
    BlockFits(net, prefix);
  }

  lemma DrawnExact(net: IPNet, prefix: nat, a: seq<byte>, random: nat)
    requires CIDRNet(net, prefix) && Between(net, prefix, a) && random < Available(net, prefix)
    ensures RandomIP(net, prefix, random) == Some(a) <==> random == BE(a) - BE(net.ip) - 1
  {
    NetBlock(net, prefix);
    BlockFits(net, prefix);
    var r := RandomIP(net, prefix, random).value;
    if BE(r) == BE(a) {
      BEInjective(r, a);
    }
  }

  /** Every address strictly between them is drawn, by exactly one of the random numbers. */
  lemma RandomOnto(net: IPNet, prefix: nat, a: seq<byte>)
    requires CIDRNet(net, prefix) && Between(net, prefix, a)
    ensures var drawing := BE(a) - BE(net.ip) - 1;
            && 0 <= drawing < Available(net, prefix)
            && forall random: nat :: random < Available(net, prefix) ==>
                 (RandomIP(net, prefix, random) == Some(a) <==> random == drawing)
  {
    forall random: nat | random < Available(net, prefix)
      ensures RandomIP(net, prefix, random) == Some(a) <==> random == BE(a) - BE(net.ip) - 1
    {
      DrawnExact(net, prefix, a, random);
    }
  }
}
