/** Subnet allocation of internal/core/ips/ips.go: 32-bit arithmetic over CIDR blocks. */
module Subnets {
  import opened Wrappers
  import opened Bits
  import opened IpBytes
  import opened Networks

  const W: nat := 0x1_0000_0000

  type u32 = x: int | 0 <= x < W

  function U32(x: int): u32 {
    x % W
  }

  /** `uint32(1) << k`: a shift by 32 or more leaves nothing. */
  function Bit(k: nat): u32 {
    if k < 32 then PowBelow(k); Pow2(k) else 0
  }

  lemma PowBelow(k: nat)
    requires k < 32
    ensures Pow2(k) < W && Pow2(32) == W
  {
    assert Pow2(8) == 256;
    Pow2Add(8, 8);
    Pow2Add(16, 16);
    Pow2Monotone(k, 31);
    assert Pow2(32) == 2 * Pow2(31);
  }

  // ---- conversions ----

  lemma FourBytes(ip: seq<byte>)
    requires |ip| == 4
    ensures BE(ip) < W
  {
    PowBelow(0);
  }

  /** Four bytes of a 32-bit number, most significant first. */
  function ToIP(n: u32): (ip: seq<byte>)
    ensures |ip| == 4
  {
    [n / 256 / 256 / 256, n / 256 / 256 % 256, n / 256 % 256, n % 256]
  }

  lemma BEFour(a: byte, b: byte, c: byte, d: byte, high: nat)
    requires high == BE([a, b, c])
    ensures BE([a, b, c, d]) == high * 256 + d
    ensures high == (BE([a]) * 256 + b) * 256 + c && BE([a]) == a
  {
    BEInit([a, b, c, d], [a, b, c], d);
    BEInit([a, b, c], [a, b], c);
    BEInit([a, b], [a], b);
    BEInit([a], [], a);
  }

  lemma ToIPValue(n: u32)
    ensures BE(ToIP(n)) == n
  {
    var ip := ToIP(n);
    BEFour(ip[0], ip[1], ip[2], ip[3], BE([ip[0], ip[1], ip[2]]));
  }

  /** The conversions are inverse to each other. */
  lemma RoundTrip(n: u32, ip: seq<byte>)
    requires |ip| == 4
    ensures BE(ToIP(n)) == n
    ensures BE(ip) < W && ToIP(BE(ip)) == ip
  {
    ToIPValue(n);
    FourBytes(ip);
    ToIPValue(BE(ip));
    BEInjective(ToIP(BE(ip)), ip);
  }

  // ---- NextSubnetByCount ----

  /** What ParseCIDR makes of a text: the address as written and its prefix length. An IPv4
      network can also be written in IPv6 notation, as in ::ffff:10.0.0.0/104; its prefix then
      counts the 96 bits before the address. */
  datatype CIDR = Unparsable | NotIPv4 | V4(addr: u32, ones: nat) | V4In6(addr: u32, ones: nat)

  /** The prefix lengths ParseCIDR lets through. */
  predicate Parsed(n: CIDR) {
    (n.V4? ==> n.ones <= 32) && (n.V4In6? ==> 96 <= n.ones <= 128)
  }

  /** `Panic` is Go's division by zero. */
  datatype SubnetResult = Subnet(start: int, prefix: nat) | Rejected | Panic

  function NextSubnetByCount(parent: CIDR, newPrefix: int, created: int): SubnetResult
    requires parent.V4? ==> parent.ones <= 32
  {
    if !parent.V4? then Rejected
    else if newPrefix < parent.ones || newPrefix > 32 then Rejected
    else if created < 0 then Rejected
    else
      Place(parent.addr, Bit(32 - parent.ones), Bit(32 - newPrefix), newPrefix, U32(created))
  }

  /** The 32-bit arithmetic of placing block number `index`. */
  function Place(addr: u32, parentSize: u32, size: u32, newPrefix: nat, index: u32): SubnetResult {
    var parentEnd := U32(addr + parentSize - 1);
    if size == 0 then Panic
    else if index >= parentSize / size then Rejected
    else
      var start := U32(addr + index * size);
      if U32(start + size - 1) > parentEnd then Rejected else Subnet(start, newPrefix)
  }

  /** Without wrap-around, placing is plain arithmetic. */
  lemma PlaceExact(addr: u32, parentSize: u32, size: u32, newPrefix: nat, index: u32, total: nat)
    requires size > 0 && parentSize == total * size && addr + parentSize <= W && parentSize / size == total
    ensures Place(addr, parentSize, size, newPrefix, index) ==
              if index < total then Subnet(addr + index * size, newPrefix) else Rejected
  {
    if index < total {
      CountInside(size, total, index);
      SmallU32(addr + index * size);
      SmallU32(addr + index * size + size - 1);
      SmallU32(addr + parentSize - 1);
    }
  }

  ghost predicate Canonical(parent: CIDR) {
    parent.V4? && 1 <= parent.ones <= 32 && parent.addr % Pow2(32 - parent.ones) == 0
  }

  ghost function ParentSize(parent: CIDR): nat
    requires parent.V4? && parent.ones <= 32
  {
    Pow2(32 - parent.ones)
  }

  lemma SizeFactors(small: nat, extra: nat)
    ensures Pow2(small + extra) == Pow2(extra) * Pow2(small)
    ensures Pow2(small + extra) / Pow2(small) == Pow2(extra)
    ensures Pow2(small + extra) % Pow2(small) == 0
  {
    Pow2Add(extra, small);
    ModUnique(Pow2(small + extra), Pow2(small), Pow2(extra), 0);
  }

  lemma Sizes(ones: nat, newPrefix: nat)
    requires 1 <= ones <= newPrefix <= 32
    ensures Bit(32 - ones) == Pow2(32 - ones) && Bit(32 - newPrefix) == Pow2(32 - newPrefix)
    ensures Pow2(32 - ones) == Pow2(newPrefix - ones) * Pow2(32 - newPrefix)
    ensures Pow2(32 - ones) / Pow2(32 - newPrefix) == Pow2(newPrefix - ones) < W
    ensures W % Pow2(32 - ones) == 0
  {
    SizeFactors(32 - newPrefix, newPrefix - ones);
    PowBelow(newPrefix - ones);
    SizeFactors(32 - ones, ones);
  }

  /** An aligned block lies inside the address space. */
  lemma AlignedFits(addr: nat, m: nat)
    requires addr < W && m > 0 && W % m == 0 && addr % m == 0
    ensures addr + m <= W
  {
    var a, w := addr / m, W / m;
    assert addr == m * a && W == m * w;
    if a >= w {
      MulMonotone(m, w, a);
    } else {
      MulStep(m, a, w);
    }
  }

  lemma MulMonotone(m: nat, a: nat, b: nat)
    requires a <= b
    ensures m * a <= m * b
  {
  }

  ghost function Total(parent: CIDR, newPrefix: nat): nat
    requires parent.V4? && parent.ones <= newPrefix
  {
    Pow2(newPrefix - parent.ones)
  }

  /** Block number `c` of equal blocks that fill the parent stays inside it. */
  lemma CountInside(size: nat, total: nat, c: nat)
    requires c < total && size > 0
    ensures c * size + size <= total * size
  {
    MulStep(size, c, total);
  }

  /** The result for every count: the subnets of a canonical parent in order, then nothing. */
  lemma CountedSubnet(parent: CIDR, newPrefix: nat, c: nat)
    requires Canonical(parent) && parent.ones <= newPrefix <= 32 && c < W
    ensures NextSubnetByCount(parent, newPrefix, c) ==
              if c < Total(parent, newPrefix)
              then Subnet(parent.addr + c * Pow2(32 - newPrefix), newPrefix)
              else Rejected
  {
    Sizes(parent.ones, newPrefix);
    AlignedFits(parent.addr, ParentSize(parent));
    SmallU32(c);
    PlaceExact(parent.addr, ParentSize(parent), Pow2(32 - newPrefix), newPrefix, c, Total(parent, newPrefix));
  }

  /** Placing a block in a parent that runs past the end of the address space. */
  lemma PlaceWrapped(addr: u32, parentSize: u32, size: u32, newPrefix: nat, index: u32, total: nat)
    requires size > 0 && parentSize == total * size && addr + parentSize > W && parentSize / size == total
    ensures Place(addr, parentSize, size, newPrefix, index) ==
              if index < total && addr + index * size + size > W then Subnet(U32(addr + index * size), newPrefix)
              else Rejected
  {
    if index < total {
      CountInside(size, total, index);
      WrappedEnd(addr, parentSize, size, addr + index * size);
    }
  }

  lemma WrappedEnd(addr: u32, parentSize: u32, size: u32, start: nat)
    requires size > 0 && addr + parentSize > W && addr <= start && start + size <= addr + parentSize
    ensures U32(U32(start) + size - 1) > U32(addr + parentSize - 1) <==> start + size <= W
  {
    WrapsOnce(addr + parentSize - 1);
    if start >= W {
      WrapsOnce(start);
      SmallU32(start - W + size - 1);
    } else {
      SmallU32(start);
      if start + size <= W { SmallU32(start + size - 1); } else { WrapsOnce(start + size - 1); }
    }
  }

  lemma WrapsOnce(x: int)
    requires W <= x < W + W
    ensures U32(x) == x - W
  {
    ModUnique(x, W, 1, x - W);
  }

  lemma PlaceAnywhere(addr: u32, parentSize: u32, size: u32, newPrefix: nat, index: u32, total: nat)
    requires size > 0 && parentSize == total * size && parentSize / size == total
    ensures Place(addr, parentSize, size, newPrefix, index) ==
              if index < total && (addr + parentSize <= W || addr + index * size + size > W)
              then Subnet(U32(addr + index * size), newPrefix)
              else Rejected
  {
    if addr + parentSize > W {
      PlaceWrapped(addr, parentSize, size, newPrefix, index, total);
    } else {
      PlaceExact(addr, parentSize, size, newPrefix, index, total);
      if index < total {
        CountInside(size, total, index);
        SmallU32(addr + index * size);
      }
    }
  }

  /** The result for every parent, as it is written, and every count: block number `count`
      modulo 2^32 from the written address on, if there are that many; where the parent runs past
      the end of the address space, only blocks that end past it as well. */
  lemma ResultExact(parent: CIDR, newPrefix: int, created: int)
    requires Parsed(parent)
    ensures var r := NextSubnetByCount(parent, newPrefix, created);
            if !parent.V4? || newPrefix < parent.ones || newPrefix > 32 || created < 0 then r == Rejected
            else if parent.ones == 0 then r == if newPrefix == 0 then Panic else Rejected
            else
              var index, size := created % 0x1_0000_0000, Pow2(32 - newPrefix);
              var start, end := parent.addr + index * size, parent.addr + Pow2(32 - parent.ones);
              r == if index < Pow2(newPrefix - parent.ones) && (end <= 0x1_0000_0000 || start + size > 0x1_0000_0000)
                   then Subnet(start % 0x1_0000_0000, newPrefix)
                   else Rejected
  {
    if parent.V4? && parent.ones <= newPrefix <= 32 && created >= 0 {
      if parent.ones == 0 {
        WholeSpaceParent(parent.addr, newPrefix, created);
      } else {
        Sizes(parent.ones, newPrefix);
        PlaceAnywhere(parent.addr, ParentSize(parent), Pow2(32 - newPrefix), newPrefix, U32(created),
                      Total(parent, newPrefix));
      }
    }
  }

  lemma SmallU32(x: int)
    requires 0 <= x < W
    ensures U32(x) == x
  {
  }

  // ---- the partition ----

  ghost function Network(parent: CIDR): int
    requires parent.V4? && parent.ones <= 32
  {
    parent.addr - parent.addr % ParentSize(parent)
  }

  ghost predicate Holds(parent: CIDR, newPrefix: nat, c: nat, x: int)
    requires parent.V4? && parent.ones <= newPrefix <= 32
  {
    var r := NextSubnetByCount(parent, newPrefix, c);
    r.Subnet? && r.start <= x < r.start + Pow2(32 - newPrefix)
  }

  /** Subnet `c` exists, is aligned, and lies in the parent network. */
  ghost predicate Proper(parent: CIDR, newPrefix: nat, c: nat)
    requires parent.V4? && parent.ones <= newPrefix <= 32
  {
    var r, size := NextSubnetByCount(parent, newPrefix, c), Pow2(32 - newPrefix);
    && r.Subnet? && r.start % size == 0
    && Network(parent) <= r.start && r.start + size <= Network(parent) + ParentSize(parent)
  }

  ghost predicate InParent(parent: CIDR, x: int)
    requires parent.V4? && parent.ones <= 32
  {
    Network(parent) <= x < Network(parent) + ParentSize(parent)
  }

  ghost predicate Covered(parent: CIDR, newPrefix: nat, x: int)
    requires parent.V4? && parent.ones <= newPrefix <= 32
  {
    exists c: nat :: c < Total(parent, newPrefix) && Holds(parent, newPrefix, c, x)
  }

  /** The subnets are proper, together hold every address of the parent network, and no two of
      them hold the same. */
  ghost predicate Partitions(parent: CIDR, newPrefix: nat)
    requires parent.V4? && parent.ones <= newPrefix <= 32
  {
    && (forall c: nat :: c < Total(parent, newPrefix) ==> Proper(parent, newPrefix, c))
    && (forall x :: InParent(parent, x) ==> Covered(parent, newPrefix, x))
    && Disjoint(parent, newPrefix)
  }

  /** No address is held by two counts. */
  ghost predicate Disjoint(parent: CIDR, newPrefix: nat)
    requires parent.V4? && parent.ones <= newPrefix <= 32
  {
    forall c: nat, d: nat, x :: c < Total(parent, newPrefix) && d < Total(parent, newPrefix) ==>
      Holds(parent, newPrefix, c, x) && Holds(parent, newPrefix, d, x) ==> c == d
  }

  lemma AlignedIn(addr: nat, total: nat, size: nat, c: nat)
    requires size > 0 && total > 0 && addr % (total * size) == 0
    ensures (addr + c * size) % size == 0
  {
    var k := addr / (total * size);
    assert addr == (total * size) * k;
    assert (total * size) * k == size * (total * k);
    assert addr + c * size == size * (total * k + c) + 0;
    ModUnique(addr + c * size, size, total * k + c, 0);
  }

  lemma ProperSubnet(parent: CIDR, newPrefix: nat, c: nat)
    requires Canonical(parent) && parent.ones <= newPrefix <= 32 && c < Total(parent, newPrefix)
    ensures Proper(parent, newPrefix, c)
  {
    Sizes(parent.ones, newPrefix);
    CountedSubnet(parent, newPrefix, c);
    CountInside(Pow2(32 - newPrefix), Total(parent, newPrefix), c);
    AlignedIn(parent.addr, Total(parent, newPrefix), Pow2(32 - newPrefix), c);
  }

  lemma OffsetBlock(d: nat, size: nat, total: nat, c: nat)
    requires size > 0 && d < total * size
    ensures d / size < total
    ensures c * size <= d < c * size + size <==> c == d / size
  {
    var q := d / size;
    assert d == size * q + d % size;
    if q >= total {
      MulMonotone(size, total, q);
    }
    if c * size <= d < c * size + size {
      ModUnique(d, size, c, d - c * size);
    }
  }

  /** Which subnet holds an address of the parent: the one its offset says, and no other. */
  lemma HeldByOne(parent: CIDR, newPrefix: nat, x: int, c: nat)
    requires Canonical(parent) && parent.ones <= newPrefix <= 32 && InParent(parent, x) && c < Total(parent, newPrefix)
    ensures (x - parent.addr) / Pow2(32 - newPrefix) < Total(parent, newPrefix)
    ensures Holds(parent, newPrefix, c, x) <==> c == (x - parent.addr) / Pow2(32 - newPrefix)
  {
    Sizes(parent.ones, newPrefix);
    CountedSubnet(parent, newPrefix, c);
    OffsetBlock(x - parent.addr, Pow2(32 - newPrefix), Total(parent, newPrefix), c);
  }

  lemma OneHolder(parent: CIDR, newPrefix: nat, x: int, c: nat, d: nat)
    requires Canonical(parent) && parent.ones <= newPrefix <= 32
    requires c < Total(parent, newPrefix) && d < Total(parent, newPrefix)
    ensures Holds(parent, newPrefix, c, x) && Holds(parent, newPrefix, d, x) ==> c == d
  {
    if Holds(parent, newPrefix, c, x) && Holds(parent, newPrefix, d, x) {
      ProperSubnet(parent, newPrefix, c);
      assert InParent(parent, x);
      HeldByOne(parent, newPrefix, x, c);
      HeldByOne(parent, newPrefix, x, d);
    }
  }

  lemma OffsetInTotal(parent: CIDR, newPrefix: nat, x: int)
    requires Canonical(parent) && parent.ones <= newPrefix <= 32 && InParent(parent, x)
    ensures 0 <= (x - parent.addr) / Pow2(32 - newPrefix) < Total(parent, newPrefix)
  {
    Sizes(parent.ones, newPrefix);
    OffsetBlock(x - parent.addr, Pow2(32 - newPrefix), Total(parent, newPrefix), 0);
  }

  lemma AllCovered(parent: CIDR, newPrefix: nat, x: int)
    requires Canonical(parent) && parent.ones <= newPrefix <= 32 && InParent(parent, x)
    ensures Covered(parent, newPrefix, x)
  {
    OffsetInTotal(parent, newPrefix, x);
    HeldByOne(parent, newPrefix, x, (x - parent.addr) / Pow2(32 - newPrefix));
  }

  /** The last block of a parent that starts late ends outside it, wrapped or not. */
  lemma SticksOut(addr: u32, late: nat, parentSize: nat, size: nat, start: int)
    requires 0 < late < parentSize && size <= parentSize && 2 * parentSize <= W && addr - late + parentSize <= W
    requires start == U32(addr + parentSize - size)
    ensures !(addr - late <= start && start + size <= addr - late + parentSize)
  {
    if addr + parentSize - size < W {
      SmallU32(addr + parentSize - size);
    } else {
      ModUnique(addr + parentSize - size, W, 1, addr + parentSize - size - W);
    }
  }

  lemma StartOf(parent: CIDR, newPrefix: nat, c: nat)
    requires parent.V4? && 1 <= parent.ones <= newPrefix <= 32 && c < W
    ensures var r := NextSubnetByCount(parent, newPrefix, c);
            r.Subnet? ==> r.start == U32(parent.addr + c * Pow2(32 - newPrefix))
  {
    PowBelow(32 - newPrefix);
    SmallU32(c);
  }

  lemma LastStart(parent: CIDR, newPrefix: nat)
    requires parent.V4? && 1 <= parent.ones <= newPrefix <= 32
    ensures var r := NextSubnetByCount(parent, newPrefix, Total(parent, newPrefix) - 1);
            r.Subnet? ==> r.start == U32(parent.addr + ParentSize(parent) - Pow2(32 - newPrefix))
  {
    LastIndex(parent, newPrefix);
    StartOf(parent, newPrefix, Total(parent, newPrefix) - 1);
  }

  lemma LastIndex(parent: CIDR, newPrefix: nat)
    requires parent.V4? && 1 <= parent.ones <= newPrefix <= 32
    ensures 0 < Total(parent, newPrefix) <= W
    ensures (Total(parent, newPrefix) - 1) * Pow2(32 - newPrefix) == ParentSize(parent) - Pow2(32 - newPrefix)
  {
    Sizes(parent.ones, newPrefix);
    LastOffset(Total(parent, newPrefix), Pow2(32 - newPrefix));
  }

  lemma LastOffset(total: nat, size: nat)
    requires total > 0
    ensures (total - 1) * size == total * size - size
  {
  }

  lemma ParentBounds(parent: CIDR, newPrefix: nat)
    requires parent.V4? && 1 <= parent.ones <= newPrefix <= 32
    ensures 2 * ParentSize(parent) <= W && Pow2(32 - newPrefix) <= ParentSize(parent)
    ensures 0 <= Network(parent) && Network(parent) + ParentSize(parent) <= W
  {
    PowBelow(31);
    Pow2Monotone(32 - parent.ones, 31);
    Pow2Monotone(32 - newPrefix, 32 - parent.ones);
    Sizes(parent.ones, newPrefix);
    NetworkAligned(parent.addr, ParentSize(parent));
    AlignedFits(Network(parent), ParentSize(parent));
  }

  lemma NonCanonicalSticksOut(parent: CIDR, newPrefix: nat)
    requires parent.V4? && 1 <= parent.ones <= newPrefix <= 32 && !Canonical(parent)
    ensures !Proper(parent, newPrefix, Total(parent, newPrefix) - 1)
  {
    var size, m := Pow2(32 - newPrefix), ParentSize(parent);
    LastStart(parent, newPrefix);
    ParentBounds(parent, newPrefix);
    SticksOut(parent.addr, parent.addr % m, m, size, U32(parent.addr + m - size));
  }

  lemma NetworkAligned(a: nat, m: nat)
    requires m > 0
    ensures 0 <= a - a % m && (a - a % m) % m == 0
  {
    assert a - a % m == m * (a / m) + 0;
    ModUnique(a - a % m, m, a / m, 0);
  }

  /** The counts 0 to 2^(newPrefix - parentPrefix) - 1 partition the parent network exactly
      when the parent was written with its network address. */
  lemma PartitionExact(parent: CIDR, newPrefix: nat)
    requires parent.V4? && 1 <= parent.ones <= newPrefix <= 32
    ensures Partitions(parent, newPrefix) <==> Canonical(parent)
  {
    if Canonical(parent) {
      forall c: nat | c < Total(parent, newPrefix)
        ensures Proper(parent, newPrefix, c)
      {
        ProperSubnet(parent, newPrefix, c);
      }
      forall x | InParent(parent, x) ensures Covered(parent, newPrefix, x) { AllCovered(parent, newPrefix, x); }
      forall c: nat, d: nat, x | c < Total(parent, newPrefix) && d < Total(parent, newPrefix)
        ensures Holds(parent, newPrefix, c, x) && Holds(parent, newPrefix, d, x) ==> c == d
      {
        OneHolder(parent, newPrefix, x, c, d);
      }
    } else {
      NonCanonicalSticksOut(parent, newPrefix);
    }
  }

  /** Counts are truncated to 32 bits, so a count is rejected exactly when what is left of it
      is too large; the count 2^32 hands out the first subnet again. */
  lemma LargeCounts(parent: CIDR, newPrefix: nat, created: nat)
    requires Canonical(parent) && parent.ones <= newPrefix <= 32
    ensures NextSubnetByCount(parent, newPrefix, created).Rejected? <==> created % W >= Total(parent, newPrefix)
    ensures NextSubnetByCount(parent, newPrefix, W) == NextSubnetByCount(parent, newPrefix, 0) ==
        Subnet(parent.addr, newPrefix)
  {
    SameCount(parent, newPrefix, created, created % W);
    CountedSubnet(parent, newPrefix, created % W);
    SameCount(parent, newPrefix, W, 0);
    FirstSubnet(parent, newPrefix);
  }

  lemma SameCount(parent: CIDR, newPrefix: nat, a: nat, b: nat)
    requires parent.V4? && parent.ones <= 32 && U32(a) == U32(b)
    ensures NextSubnetByCount(parent, newPrefix, a) == NextSubnetByCount(parent, newPrefix, b)
  {
  }

  lemma FirstSubnet(parent: CIDR, newPrefix: nat)
    requires Canonical(parent) && parent.ones <= newPrefix <= 32
    ensures NextSubnetByCount(parent, newPrefix, 0) == Subnet(parent.addr, newPrefix)
  {
    Sizes(parent.ones, newPrefix);
    CountedSubnet(parent, newPrefix, 0);
  }

  /** A parent of prefix zero has size zero in 32 bits: always rejected, or a division by zero. */
  lemma WholeSpaceParent(addr: u32, newPrefix: nat, created: nat)
    requires newPrefix <= 32
    ensures NextSubnetByCount(V4(addr, 0), newPrefix, created) == if newPrefix == 0 then Panic else Rejected
  {
    if newPrefix > 0 {
      PowBelow(32 - newPrefix);
    }
  }
}
