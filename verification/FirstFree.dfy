/** First-fit allocation of an address: `FirstFreeIP` of internal/core/ips/ips.go. */
module FirstFree {
  import opened Wrappers
  import opened Bits
  import opened IpBytes
  import opened Networks
  import opened UnusedAddress

  lemma ThreeBits(h: nat)
    requires Pow2(h) >= 6
    ensures h >= 3 && Pow2(h) == 8 * Pow2(h - 3)
  {
    assert Pow2(2) == 4 && Pow2(3) == 8;
    if h <= 2 {
      Pow2Monotone(h, 2);
    } else {
      Pow2Add(3, h - 3);
    }
  }

  lemma Eighths(v: nat, q: nat) returns (e: int)
    requires q > 0 && v % (8 * q) == 0
    ensures v == 8 * e
  {
    var k := v / (8 * q);
    e := q * k;
    assert v == (8 * q) * k == 8 * (q * k);
  }

  /** Four steps up from an aligned network stay in it, without a carry, when it has at least
      eight addresses. */
  lemma PaddedSame(net: IPNet, prefix: nat, p: seq<byte>)
    requires CIDRNet(net, prefix) && Size(net, prefix) >= 6
    requires |p| == |net.ip| && BE(p) == BE(net.ip) + PADDING + 1
    ensures Mapped(p) == Mapped(net.ip)
  {
    NetBlock(net, prefix);
    RemIsMod(BE(net.ip), Size(net, prefix));
    ThreeBits(8 * |net.ip| - prefix);
    var e := Eighths(BE(net.ip), Pow2(8 * |net.ip| - prefix - 3));
    SameFirstBytes(net.ip, p, |net.ip| - 1, e);
  }

  lemma SameFirstBytes(a: seq<byte>, p: seq<byte>, n: nat, eighths: int)
    requires |a| == |p| == n + 1 && BE(a) == 8 * eighths && BE(p) == BE(a) + 4
    ensures a[..n] == p[..n]
    ensures n >= 12 ==> Mapped(a) == Mapped(p)
  {
    BEInit(a, a[..n], a[n]);
    BEInit(p, p[..n], p[n]);
    assert a[n] % 8 == 0 by {
      assert a[n] == 8 * (eighths - 32 * BE(a[..n]));
    }
    assert BE(a[..n]) == BE(p[..n]);
    BEInjective(a[..n], p[..n]);
    assert forall i :: 0 <= i < n ==> a[i] == a[..n][i] == p[i];
  }

  // ---- FirstFreeIP ----

  /** Sets the host bits byte by byte, on a copy of the address. */
  method LastIP(net: IPNet) returns (last: seq<byte>)
    requires |net.ip| == |net.mask|
    ensures last == Filled(net.ip, net.mask)
  {
    var ip := new byte[|net.ip|](i requires 0 <= i < |net.ip| => net.ip[i]);
    for i := 0 to |net.ip|
      invariant forall k :: 0 <= k < |net.ip| ==>
          ip[k] == if k < i then OrNotByte(net.ip[k], net.mask[k]) else net.ip[k]
    {
      ip[i] := OrNotByte(ip[i], net.mask[i]);
    }
    last := ip[..];
  }

  method UsedKeys(net: IPNet, used: seq<Option<seq<byte>>>) returns (keys: set<seq<byte>>)
    ensures forall a :: Key(a) in keys <==> Taken(net, used, a)
  {
    keys := {};
    for i := 0 to |used|
      invariant forall k :: k in keys <==>
                  exists j :: 0 <= j < i && used[j].Some? && Contains(net, used[j].value) && Key(used[j].value) == k
    {
      if used[i].Some? {
        var ip := used[i].value;
        // Normalise to the family of the network.
        if To4(ip).Some? && To4(net.ip).Some? {
          ip := To4(ip).value;
        }
        assert Key(ip) == Key(used[i].value);
        if Contains(net, ip) {
          keys := keys + {Key(ip)};
        }
      }
    }
    forall a
      ensures Key(a) in keys <==> Taken(net, used, a)
    {
    }
  }

  /** Where the search starts: the network address plus padding plus one. */
  method PaddedStart(net: IPNet) returns (p: array<byte>)
    requires |net.ip| == |net.mask| >= 1
    ensures fresh(p) && p.Length == |net.ip|
    ensures BE(p[..]) == (BE(Masked(net.ip, net.mask)) + PADDING + 1) % Pow2(8 * |net.ip|)
  {
    var start := Masked(net.ip, net.mask);
    p := new byte[|start|](i requires 0 <= i < |start| => start[i]);
    assert p[..] == start;
    ghost var m := Pow2(8 * |net.ip|);
    ModSmall(BE(start), m);
    for i := 0 to PADDING + 1
      invariant BE(p[..]) == (BE(start) + i) % m
    {
      NextModulo(p[..], BE(start) + i, m);
      IncIP(p);
    }
  }

  lemma NextModulo(s: seq<byte>, v: nat, m: nat)
    requires m == Pow2(8 * |s|) && BE(s) == v % m
    ensures BE(Successor(s)) == (v + 1) % m
  {
    SuccessorValue(s);
    ModNext(v, m);
  }

  lemma ModSmall(x: nat, m: nat)
    requires x < m
    ensures x % m == x
  {
  }

  lemma ModNext(x: nat, m: nat)
    requires m > 0
    ensures (x % m + 1) % m == (x + 1) % m
  {
    NextRemainder(x, m, x / m, x % m);
  }

  lemma NextRemainder(x: nat, m: nat, q: nat, r: nat)
    requires r < m && x == m * q + r
    ensures (r + 1) % m == (x + 1) % m
  {
    if r + 1 < m {
      ModUnique(r + 1, m, 0, r + 1);
      ModUnique(x + 1, m, q, r + 1);
    } else {
      ModUnique(m, m, 1, 0);
      calc {
        x + 1;
        m * q + m;
        m * (q + 1) + 0;
      }
      ModUnique(x + 1, m, q + 1, 0);
    }
  }

  /** The check before the loop passes exactly when there is a candidate at all. */
  lemma StartCheck(net: IPNet, prefix: nat, p: seq<byte>)
    requires CIDRNet(net, prefix) && |p| == |net.ip|
    requires BE(p) == (BE(net.ip) + PADDING + 1) % Pow2(8 * |net.ip|)
    ensures Contains(net, p) && BE(p) < BE(net.ip) + Size(net, prefix) - 1 <==> PADDING + 1 < Size(net, prefix) - 1
    ensures PADDING + 1 < Size(net, prefix) - 1 ==> BE(p) == BE(net.ip) + PADDING + 1
  {
    ContainsSame(net, prefix, p);
    BlockFits(net, prefix);
    StartArithmetic(BE(net.ip), Size(net, prefix), Pow2(8 * |net.ip|), BE(p));
    if PADDING + 1 < Size(net, prefix) - 1 {
      PaddedSame(net, prefix, p);
    }
  }

  lemma StartArithmetic(v: nat, m: nat, top: nat, b: nat)
    requires 0 < m && v + m <= top && 16 <= top && b == (v + 4) % top
    ensures v <= b && b + 1 < v + m <==> 4 < m - 1
    ensures 4 < m - 1 ==> b == v + 4
  {
    if v + 4 < top {
      ModSmall(v + 4, top);
    } else {
      ModUnique(v + 4, top, 1, v + 4 - top);
    }
  }

  ghost predicate AllTakenBelow(net: IPNet, prefix: nat, used: seq<Option<seq<byte>>>, limit: nat)
    requires prefix <= 8 * |net.ip|
  {
    forall b :: Candidate(net, prefix, b) && BE(b) < limit ==> Taken(net, used, b)
  }

  lemma OneMoreTaken(net: IPNet, prefix: nat, used: seq<Option<seq<byte>>>, here: seq<byte>)
    requires prefix <= 8 * |net.ip| && |here| == |net.ip|
    requires AllTakenBelow(net, prefix, used, BE(here)) && Taken(net, used, here)
    ensures AllTakenBelow(net, prefix, used, BE(here) + 1)
  {
    forall b | Candidate(net, prefix, b) && BE(b) < BE(here) + 1
      ensures Taken(net, used, b)
    {
      if BE(b) == BE(here) {
        BEInjective(b, here);
      }
    }
  }

  /** incIP on an address that is not the last one. */
  method NextIP(ip: array<byte>, ghost limit: nat)
    requires BE(ip[..]) < limit < Pow2(8 * ip.Length)
    modifies ip
    ensures BE(ip[..]) == old(BE(ip[..])) + 1
  {
    SuccessorValue(ip[..]);
    ModSmall(BE(ip[..]) + 1, Pow2(8 * ip.Length));
    IncIP(ip);
  }

  /** The search loop, from a candidate up to the broadcast address. */
  method Search(net: IPNet, ghost prefix: nat, ghost used: seq<Option<seq<byte>>>, keys: set<seq<byte>>,
                ip: array<byte>, broadcast: seq<byte>)
    returns (r: Option<seq<byte>>)
    requires prefix <= 8 * |net.ip| && ip.Length == |net.ip| == |broadcast|
    requires forall a :: Key(a) in keys <==> Taken(net, used, a)
    requires BE(broadcast) == BE(net.ip) + Size(net, prefix) - 1
    requires BE(net.ip) + PADDING + 1 == BE(ip[..]) <= BE(broadcast)
    modifies ip
    ensures r.Some? ==> Candidate(net, prefix, r.value) && !Taken(net, used, r.value)
    ensures r.Some? ==> AllTakenBelow(net, prefix, used, BE(r.value))
    ensures r.None? ==> AllTakenBelow(net, prefix, used, BE(broadcast))
  {
    while ip[..] != broadcast
      invariant BE(net.ip) + PADDING + 1 <= BE(ip[..]) <= BE(broadcast)
      invariant AllTakenBelow(net, prefix, used, BE(ip[..]))
      decreases BE(broadcast) - BE(ip[..])
    {
      StrictlyBelow(ip[..], broadcast);
      if Key(ip[..]) !in keys {
        return Some(ip[..]);
      }
      OneMoreTaken(net, prefix, used, ip[..]);
      NextIP(ip, BE(broadcast));
    }
    r := None;
  }

  /** Returns the least candidate that is not taken, and nothing exactly when there is none. */
  method FirstFreeIP(net: IPNet, used: seq<Option<seq<byte>>>, ghost prefix: nat) returns (r: Option<seq<byte>>)
    requires CIDRNet(net, prefix)
    ensures LeastNotTaken(net, prefix, used, r)
    ensures LeastUnused(net, prefix, used, r) <==> !Blind(net, prefix, used)
  {
    var keys := UsedKeys(net, used);
    var broadcast := LastIP(net);
    NetBlock(net, prefix);
    var ip := PaddedStart(net);
    StartCheck(net, prefix, ip[..]);
    var beyond := IsGreaterOrEqual(ip[..], broadcast);
    if !Contains(net, ip[..]) || ip[..] == broadcast || beyond {
      r := None;
    } else {
      r := Search(net, prefix, used, keys, ip, broadcast);
    }
    UnusedExact(net, prefix, used, r);
  }

  lemma StrictlyBelow(a: seq<byte>, b: seq<byte>)
    requires |a| == |b| && a != b && BE(a) <= BE(b)
    ensures BE(a) < BE(b)
  {
    if BE(a) == BE(b) {
      BEInjective(a, b);
    }
  }
}
