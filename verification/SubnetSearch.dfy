/** `NextSubnetWithIPs` of internal/core/ips/ips.go: first-fit over equal blocks, then the
    addresses handed out from the block found. */
module SubnetSearch {
  import opened Wrappers
  import opened Bits
  import opened IpBytes
  import opened Networks
  import opened FirstFree
  import opened Subnets

  datatype Allocation =
    | Allocated(start: int, prefix: nat, ips: seq<seq<byte>>)
    | BadRequest
    | NoFreeSubnet
    | NotEnoughIPs
    | DivisionByZero

  // ---- existing subnets as ranges ----

  predicate IsIPv4(n: CIDR) {
    n.V4? || n.V4In6?
  }

  ghost predicate AllParsed(existing: seq<CIDR>) {
    forall n :: n in existing ==> Parsed(n)
  }

  /** The number of addresses of a network, and the first one. */
  function NetSize(n: CIDR): (m: nat)
    requires Parsed(n) && IsIPv4(n)
    ensures m > 0
  {
    Pow2(if n.V4? then 32 - n.ones else 128 - n.ones)
  }

  function NetStart(n: CIDR): u32
    requires Parsed(n) && IsIPv4(n)
  {
    NetworkAligned(n.addr, NetSize(n));
    n.addr - n.addr % NetSize(n)
  }

  /** An existing subnet as the address range the code records. The shift counts bits of a
      32-bit address whatever the notation, so that in IPv6 notation it shifts everything out. */
  function RangeOf(n: CIDR): (u32, u32)
    requires Parsed(n) && IsIPv4(n)
  {
    (NetStart(n), U32(NetStart(n) + Bit(U32(32 - n.ones)) - 1))
  }

  /** Networks in IPv6 notation smaller than the whole IPv4 space. */
  predicate Miscounted(n: CIDR) {
    n.V4In6? && n.ones > 96
  }

  lemma NetFits(n: CIDR)
    requires Parsed(n) && IsIPv4(n)
    ensures NetStart(n) + NetSize(n) <= W
  {
    var h := if n.V4? then 32 - n.ones else 128 - n.ones;
    NetworkAligned(n.addr, NetSize(n));
    SizeFactors(h, 32 - h);
    PowBelow(0);
    AlignedFits(NetStart(n), NetSize(n));
  }

  lemma WholeRange()
    ensures U32(-1) == W - 1
  {
    ModUnique(-1, W, -1, W - 1);
  }

  /** The recorded range is the network's, also for the whole address space, except for the
      miscounted networks: theirs ends just before it begins. */
  lemma RangeExact(n: CIDR)
    requires Parsed(n) && IsIPv4(n)
    ensures RangeOf(n).0 == NetStart(n)
    ensures !Miscounted(n) ==> RangeOf(n).1 == NetStart(n) + NetSize(n) - 1
    ensures Miscounted(n) ==> RangeOf(n).1 == if NetStart(n) == 0 then W - 1 else NetStart(n) - 1
  {
    if n.V4In6? {
      RangeIn6(n);
    } else {
      RangePlain(n);
    }
  }

  lemma RangeIn6(n: CIDR)
    requires Parsed(n) && n.V4In6?
    ensures !Miscounted(n) ==> RangeOf(n).1 == NetStart(n) + NetSize(n) - 1
    ensures Miscounted(n) ==> RangeOf(n).1 == if NetStart(n) == 0 then W - 1 else NetStart(n) - 1
  {
    NetFits(n);
    WholeRange();
    ModUnique(32 - n.ones, W, -1, 32 - n.ones + W);
    assert Bit(U32(32 - n.ones)) == 0;
    if n.ones == 96 {
      PowBelow(0);
      assert NetStart(n) == 0;
    } else if NetStart(n) > 0 {
      SmallU32(NetStart(n) - 1);
    }
  }

  lemma RangePlain(n: CIDR)
    requires Parsed(n) && n.V4?
    ensures RangeOf(n).1 == NetStart(n) + NetSize(n) - 1
  {
    NetFits(n);
    SmallU32(32 - n.ones);
    if n.ones == 0 {
      WholeRange();
      PowBelow(0);
      assert NetStart(n) == 0;
    } else {
      PowBelow(32 - n.ones);
      SmallU32(NetStart(n) + NetSize(n) - 1);
    }
  }

  ghost predicate InNetwork(n: CIDR, x: int)
    requires Parsed(n) && IsIPv4(n)
  {
    NetStart(n) <= x < NetStart(n) + NetSize(n)
  }

  /** The block of `size` addresses from `start` and the network have an address in common. */
  ghost predicate Shares(n: CIDR, start: int, size: nat)
    requires Parsed(n) && IsIPv4(n)
  {
    exists x :: InNetwork(n, x) && start <= x < start + size
  }

  ghost predicate Overlaps(existing: seq<CIDR>, start: int, size: nat)
    requires AllParsed(existing)
  {
    exists n :: n in existing && IsIPv4(n) && Shares(n, start, size)
  }

  /** The code's comparison of the block's ends with those of the recorded range. */
  predicate Meets(n: CIDR, start: int, size: nat)
    requires Parsed(n) && IsIPv4(n)
  {
    start <= RangeOf(n).1 && RangeOf(n).0 <= start + size - 1
  }

  ghost predicate Seen(existing: seq<CIDR>, start: int, size: nat)
    requires AllParsed(existing)
  {
    exists n :: n in existing && IsIPv4(n) && Meets(n, start, size)
  }

  lemma SharesExact(n: CIDR, start: int, size: nat)
    requires Parsed(n) && IsIPv4(n) && size > 0
    ensures Shares(n, start, size) <==> start < NetStart(n) + NetSize(n) && NetStart(n) < start + size
  {
    if start < NetStart(n) + NetSize(n) && NetStart(n) < start + size {
      assert InNetwork(n, if start < NetStart(n) then NetStart(n) else start);
    }
  }

  /** The comparison decides whether block and network meet, exactly when the network is not
      miscounted, or it starts at 0.0.0.0 and holds the block's first address, or neither. */
  lemma EndsDecide(n: CIDR, start: int, size: nat)
    requires Parsed(n) && IsIPv4(n) && size > 0 && 0 <= start && start + size <= W
    ensures (Meets(n, start, size) <==> Shares(n, start, size)) <==>
            (Miscounted(n) ==> (NetStart(n) == 0 <==> InNetwork(n, start)))
    ensures Miscounted(n) && NetStart(n) == 0 ==> Meets(n, start, size)
  {
    RangeExact(n);
    SharesExact(n, start, size);
  }

  method UsedRanges(existing: seq<CIDR>) returns (ranges: seq<(u32, u32)>)
    requires AllParsed(existing)
    ensures forall r :: r in ranges <==> exists n :: n in existing && IsIPv4(n) && r == RangeOf(n)
  {
    ranges := [];
    for i := 0 to |existing|
      invariant forall r :: r in ranges <==> exists n :: n in existing[..i] && IsIPv4(n) && r == RangeOf(n)
    {
      assert existing[..i + 1] == existing[..i] + [existing[i]];
      if IsIPv4(existing[i]) {
        assert existing[i] in existing;
        ranges := ranges + [RangeOf(existing[i])];
      }
    }
    assert existing[..|existing|] == existing;
  }

  /** The overlap test of one candidate against all recorded ranges. */
  method Collides(ranges: seq<(u32, u32)>, start: u32, end: u32, ghost existing: seq<CIDR>) returns (c: bool)
    requires AllParsed(existing) && start <= end
    requires forall r :: r in ranges <==> exists n :: n in existing && IsIPv4(n) && r == RangeOf(n)
    ensures c <==> Seen(existing, start, end - start + 1)
  {
    for i := 0 to |ranges|
      invariant forall k :: 0 <= k < i ==> !(start <= ranges[k].1 && ranges[k].0 <= end)
    {
      if start <= ranges[i].1 && ranges[i].0 <= end {
        assert ranges[i] in ranges;
        ghost var n :| n in existing && IsIPv4(n) && ranges[i] == RangeOf(n);
        assert Meets(n, start, end - start + 1);
        return true;
      }
    }
    forall n | n in existing && IsIPv4(n)
      ensures !Meets(n, start, end - start + 1)
    {
      assert RangeOf(n) in ranges;
    }
    c := false;
  }

  // ---- the search ----

  /** Candidate number `i` inside the parent network. */
  function Block(base: int, size: nat, i: nat): int {
    base + i * size
  }

  lemma NoWrap(base: u32, size: u32, total: nat, i: nat)
    requires size > 0 && base + total * size <= W && i < total
    ensures U32(Block(base, size, i)) == Block(base, size, i)
    ensures U32(Block(base, size, i) + size - 1) == Block(base, size, i) + size - 1
  {
    CountInside(size, total, i);
    SmallU32(Block(base, size, i));
    SmallU32(Block(base, size, i) + size - 1);
  }

  /** The lowest candidate no recorded range meets, and none exactly when all are met. */
  method FindSubnet(base: u32, size: u32, total: nat, ranges: seq<(u32, u32)>, ghost existing: seq<CIDR>)
    returns (found: Option<u32>, ghost index: nat)
    requires AllParsed(existing) && size > 0 && base + total * size <= W && total < W
    requires forall r :: r in ranges <==> exists n :: n in existing && IsIPv4(n) && r == RangeOf(n)
    ensures found.Some? ==> index < total && found.value == Block(base, size, index)
    ensures found.Some? ==> !Seen(existing, found.value, size)
    ensures found.Some? ==> forall j :: 0 <= j < index ==> Seen(existing, Block(base, size, j), size)
    ensures found.None? ==> forall j :: 0 <= j < total ==> Seen(existing, Block(base, size, j), size)
  {
    var i := 0;
    index := 0;
    while i < total
      invariant 0 <= i <= total
      invariant forall j :: 0 <= j < i ==> Seen(existing, Block(base, size, j), size)
    {
      NoWrap(base, size, total, i);
      var start := U32(Block(base, size, i));
      var end := U32(start + size - 1);
      var collision := Collides(ranges, start, end, existing);
      if !collision {
        return Some(start), i;
      }
      i := i + 1;
    }
    found := None;
  }

  // ---- the addresses ----

  /** The block as a network: `start` is aligned, so masking changes nothing. */
  lemma BlockNet(start: u32, prefix: nat)
    requires prefix <= 32 && start % Pow2(32 - prefix) == 0
    ensures CIDRNet(IPNet(ToIP(start), CIDRMask(prefix, 4)), prefix)
    ensures BE(ToIP(start)) == start
  {
    ToIPValue(start);
    RemIsMod(start, Pow2(32 - prefix));
    MaskingKeeps(ToIP(start), prefix);
  }

  lemma MaskingKeeps(ip: seq<byte>, prefix: nat)
    requires prefix <= 8 * |ip| && Rem(BE(ip), Pow2(8 * |ip| - prefix)) == 0
    ensures Masked(ip, CIDRMask(prefix, |ip|)) == ip
  {
    BlockValues(ip, prefix);
    BEInjective(Masked(ip, CIDRMask(prefix, |ip|)), ip);
  }

  function FoundNet(start: u32, prefix: nat): (net: IPNet)
    requires prefix <= 32 && start % Pow2(32 - prefix) == 0
    ensures CIDRNet(net, prefix) && |net.ip| == 4 && BE(net.ip) == start && Size(net, prefix) == Pow2(32 - prefix)
  {
    BlockNet(start, prefix);
    IPNet(ToIP(start), CIDRMask(prefix, 4))
  }

  lemma ContainsFour(net: IPNet, prefix: nat, a: seq<byte>)
    requires CIDRNet(net, prefix) && |net.ip| == |a| == 4
    ensures Contains(net, a) <==> InBlock(net, prefix, a)
  {
    ContainsSame(net, prefix, a);
  }

  /** The check before each address: inside the block and before the broadcast address. */
  method Usable(net: IPNet, current: seq<byte>, broadcast: seq<byte>) returns (r: bool)
    requires |current| == |broadcast|
    ensures r <==> Contains(net, current) && BE(current) < BE(broadcast)
  {
    var beyond := IsGreaterOrEqual(current, broadcast);
    r := !(!Contains(net, current) || current == broadcast || beyond);
  }

  /** Whether the k-th address is usable: the usable ones are network+4 up to broadcast-1. */
  lemma UsableExact(net: IPNet, prefix: nat, a: seq<byte>, k: nat)
    requires CIDRNet(net, prefix) && |net.ip| == |a| == 4 && BE(a) == BE(net.ip) + 4 + k
    ensures Contains(net, a) && BE(a) < BE(net.ip) + Size(net, prefix) - 1 <==> k < Size(net, prefix) - 5
  {
    ContainsFour(net, prefix, a);
  }

  /** Takes the addresses after the padding in order, and fails exactly when the block has
      fewer than asked for. */
  method TakeIPs(net: IPNet, count: int, ghost prefix: nat) returns (ips: Option<seq<seq<byte>>>)
    requires CIDRNet(net, prefix) && |net.ip| == 4
    ensures ips.Some? <==> count <= 0 || count <= Size(net, prefix) - 5
    ensures ips.Some? ==> |ips.value| == if count <= 0 then 0 else count
    ensures ips.Some? ==> forall k :: 0 <= k < |ips.value| ==>
              |ips.value[k]| == 4 && BE(ips.value[k]) == BE(net.ip) + 4 + k
  {
    var current := PaddedStart(net);
    NetBlock(net, prefix);
    StartCheck(net, prefix, current[..]);
    var broadcast := LastIP(net);
    ips := None;
    if count <= 0 {
      return Some([]);
    }
    var first := Usable(net, current[..], broadcast);
    if first {
      ips := TakeFrom(net, current, broadcast, count, prefix);
    }
  }

  method TakeFrom(net: IPNet, current: array<byte>, broadcast: seq<byte>, count: int, ghost prefix: nat)
    returns (ips: Option<seq<seq<byte>>>)
    requires CIDRNet(net, prefix) && |net.ip| == 4 == current.Length == |broadcast| && count > 0
    requires BE(broadcast) == BE(net.ip) + Size(net, prefix) - 1 && BE(current[..]) == BE(net.ip) + 4 < BE(broadcast)
    modifies current
    ensures ips.Some? <==> count <= Size(net, prefix) - 5
    ensures ips.Some? ==> |ips.value| == count && forall k :: 0 <= k < count ==>
              |ips.value[k]| == 4 && BE(ips.value[k]) == BE(net.ip) + 4 + k
  {
    var list: seq<seq<byte>> := [];
    for k := 0 to count
      invariant |list| == k <= Size(net, prefix) - 5
      invariant BE(current[..]) == BE(net.ip) + 4 + k <= BE(broadcast)
      invariant forall j :: 0 <= j < k ==> |list[j]| == 4 && BE(list[j]) == BE(net.ip) + 4 + j
    {
      UsableExact(net, prefix, current[..], k);
      var usable := Usable(net, current[..], broadcast);
      if !usable {
        return None;
      }
      list := list + [current[..]];
      NextIP(current, BE(broadcast));
    }
    ips := Some(list);
  }

  // ---- NextSubnetWithIPs ----

  ghost predicate Fits(parent: CIDR, newPrefix: int) {
    parent.V4? && 1 <= parent.ones <= newPrefix <= 32
  }

  /** Candidate `i` of the parent network, whatever host bits the parent was written with. */
  ghost function CandidateStart(parent: CIDR, newPrefix: nat, i: nat): int
    requires parent.V4? && parent.ones <= newPrefix <= 32
  {
    Block(Network(parent), Pow2(32 - newPrefix), i)
  }

  lemma CandidateAligned(parent: CIDR, newPrefix: nat, i: nat)
    requires Fits(parent, newPrefix) && i < Total(parent, newPrefix)
    ensures CandidateStart(parent, newPrefix, i) % Pow2(32 - newPrefix) == 0
    ensures Network(parent) <= CandidateStart(parent, newPrefix, i)
    ensures CandidateStart(parent, newPrefix, i) + Pow2(32 - newPrefix) <= Network(parent) + ParentSize(parent) <= W
  {
    Sizes(parent.ones, newPrefix);
    ParentBounds(parent, newPrefix);
    NetworkAligned(parent.addr, ParentSize(parent));
    AlignedIn(Network(parent), Total(parent, newPrefix), Pow2(32 - newPrefix), i);
    CountInside(Pow2(32 - newPrefix), Total(parent, newPrefix), i);
  }

  /** The candidates are the aligned blocks inside the parent, in order of their addresses. */
  lemma CandidatesExact(parent: CIDR, newPrefix: nat, x: int)
    requires Fits(parent, newPrefix)
    ensures var size, first, past := Pow2(32 - newPrefix), Network(parent), Network(parent) + ParentSize(parent);
            (exists i: nat :: i < Total(parent, newPrefix) && CandidateStart(parent, newPrefix, i) == x) <==>
            first <= x && x + size <= past && x % size == 0
    ensures forall i: nat, j: nat :: i < j ==>
              CandidateStart(parent, newPrefix, i) < CandidateStart(parent, newPrefix, j)
  {
    var size, first, past := Pow2(32 - newPrefix), Network(parent), Network(parent) + ParentSize(parent);
    forall i: nat | i < Total(parent, newPrefix)
      ensures var c := CandidateStart(parent, newPrefix, i); first <= c && c + size <= past && c % size == 0
    {
      CandidateAligned(parent, newPrefix, i);
    }
    if first <= x && x + size <= past && x % size == 0 {
      var i := CandidateAt(parent, newPrefix, x);
    }
    forall i: nat, j: nat | i < j
      ensures CandidateStart(parent, newPrefix, i) < CandidateStart(parent, newPrefix, j)
    {
      MulLess(size, i, j);
    }
  }

  lemma MulLess(size: nat, i: nat, j: nat)
    requires 0 < size && i < j
    ensures i * size < j * size
  {
  }

  lemma FirstCandidate(parent: CIDR, newPrefix: nat)
    requires Fits(parent, newPrefix)
    ensures Network(parent) % Pow2(32 - newPrefix) == 0
    ensures ParentSize(parent) == Total(parent, newPrefix) * Pow2(32 - newPrefix)
  {
    Sizes(parent.ones, newPrefix);
    CandidateAligned(parent, newPrefix, 0);
    assert CandidateStart(parent, newPrefix, 0) == Network(parent);
  }

  lemma CandidateAt(parent: CIDR, newPrefix: nat, x: int) returns (i: nat)
    requires Fits(parent, newPrefix) && x % Pow2(32 - newPrefix) == 0
    requires Network(parent) <= x && x + Pow2(32 - newPrefix) <= Network(parent) + ParentSize(parent)
    ensures i < Total(parent, newPrefix) && CandidateStart(parent, newPrefix, i) == x
  {
    FirstCandidate(parent, newPrefix);
    i := Multiples(Network(parent), x, Pow2(32 - newPrefix), Total(parent, newPrefix));
  }

  lemma Quotient(v: int, size: nat) returns (q: int)
    requires size > 0 && v % size == 0
    ensures v == q * size
  {
    q := v / size;
  }

  lemma Difference(p: int, q: int, size: nat)
    ensures (q - p) * size == q * size - p * size
  {
  }

  lemma Between(i: int, total: nat, size: nat)
    requires 0 <= i * size < total * size
    ensures 0 <= i < total
  {
    if i < 0 {
      MulMonotone(size, 1, -i);
      Difference(i, 0, size);
    } else if i >= total {
      MulMonotone(size, total, i);
    }
  }

  lemma Multiples(a: int, x: int, size: nat, total: nat) returns (i: nat)
    requires size > 0 && a % size == 0 && x % size == 0 && a <= x && x + size <= a + total * size
    ensures i < total && a + i * size == x
  {
    var p := Quotient(a, size);
    var q := Quotient(x, size);
    Difference(p, q, size);
    Between(q - p, total, size);
    i := q - p;
  }

  /** Candidate `i` is met by some recorded range; it overlaps some existing subnet. */
  ghost predicate Blocked(parent: CIDR, newPrefix: nat, existing: seq<CIDR>, i: nat)
    requires Fits(parent, newPrefix) && AllParsed(existing)
  {
    Seen(existing, CandidateStart(parent, newPrefix, i), Pow2(32 - newPrefix))
  }

  ghost predicate Occupied(parent: CIDR, newPrefix: nat, existing: seq<CIDR>, i: nat)
    requires Fits(parent, newPrefix) && AllParsed(existing)
  {
    Overlaps(existing, CandidateStart(parent, newPrefix, i), Pow2(32 - newPrefix))
  }

  /** A miscounted network that holds the candidate's first address. */
  ghost predicate Hidden(parent: CIDR, newPrefix: nat, existing: seq<CIDR>, i: nat)
    requires Fits(parent, newPrefix) && AllParsed(existing)
  {
    exists n :: n in existing && Miscounted(n) && InNetwork(n, CandidateStart(parent, newPrefix, i))
  }

  ghost predicate MiscountedZero(existing: seq<CIDR>)
    requires AllParsed(existing)
  {
    exists n :: n in existing && Miscounted(n) && NetStart(n) == 0
  }

  /** A candidate the code takes for free overlaps something exactly when a miscounted network
      holds its first address. */
  lemma FreeExact(parent: CIDR, newPrefix: nat, existing: seq<CIDR>, i: nat)
    requires Fits(parent, newPrefix) && AllParsed(existing) && i < Total(parent, newPrefix)
    requires !Blocked(parent, newPrefix, existing, i)
    ensures Occupied(parent, newPrefix, existing, i) <==> Hidden(parent, newPrefix, existing, i)
  {
    var start, size := CandidateStart(parent, newPrefix, i), Pow2(32 - newPrefix);
    CandidateAligned(parent, newPrefix, i);
    CandidateInside(parent, newPrefix, i);
    forall n | n in existing && IsIPv4(n)
      ensures !Meets(n, start, size) && (Shares(n, start, size) <==> Miscounted(n) && InNetwork(n, start))
    {
      assert !Meets(n, start, size);
      EndsDecide(n, start, size);
    }
  }

  /** A candidate the code skips overlaps something, unless some ::ffff:0.0.0.0 network with a
      prefix above 96, which blocks every candidate, is among the existing ones. */
  lemma SkippedExact(parent: CIDR, newPrefix: nat, existing: seq<CIDR>, i: nat)
    requires Fits(parent, newPrefix) && AllParsed(existing) && i < Total(parent, newPrefix)
    ensures MiscountedZero(existing) ==> Blocked(parent, newPrefix, existing, i)
    ensures !MiscountedZero(existing) && Blocked(parent, newPrefix, existing, i) ==>
        Occupied(parent, newPrefix, existing, i)
  {
    var start, size := CandidateStart(parent, newPrefix, i), Pow2(32 - newPrefix);
    CandidateAligned(parent, newPrefix, i);
    CandidateInside(parent, newPrefix, i);
    if n :| n in existing && Miscounted(n) && NetStart(n) == 0 {
      EndsDecide(n, start, size);
    } else if n :| n in existing && IsIPv4(n) && Meets(n, start, size) {
      RangeExact(n);
      EndsDecide(n, start, size);
      SharesExact(n, start, size);
    }
  }

  lemma CandidateInside(parent: CIDR, newPrefix: nat, i: nat)
    requires Fits(parent, newPrefix) && i < Total(parent, newPrefix)
    ensures 0 <= CandidateStart(parent, newPrefix, i)
    ensures CandidateStart(parent, newPrefix, i) + Pow2(32 - newPrefix) <= W
  {
    CandidateAligned(parent, newPrefix, i);
    ParentBounds(parent, newPrefix);
  }

  /** The result is what is promised: the lowest candidate that overlaps nothing, or the error
      because all of them overlap something. */
  ghost predicate Right(parent: CIDR, newPrefix: nat, existing: seq<CIDR>, found: bool, index: nat)
    requires Fits(parent, newPrefix) && AllParsed(existing)
  {
    && (found ==> index < Total(parent, newPrefix) && !Occupied(parent, newPrefix, existing, index))
    && (forall j :: 0 <= j < (if found then index else Total(parent, newPrefix)) ==>
        Occupied(parent, newPrefix, existing, j))
  }

  /** The first candidate the overlap test lets through. */
  ghost predicate FirstThrough(parent: CIDR, newPrefix: nat, existing: seq<CIDR>, i: nat)
    requires Fits(parent, newPrefix) && AllParsed(existing)
  {
    !Blocked(parent, newPrefix, existing, i) && forall j :: 0 <= j < i ==> Blocked(parent, newPrefix, existing, j)
  }

  /** The inputs for which the result is right. */
  ghost predicate Dependable(parent: CIDR, newPrefix: nat, existing: seq<CIDR>)
    requires Fits(parent, newPrefix) && AllParsed(existing)
  {
    if MiscountedZero(existing) then
      forall i :: 0 <= i < Total(parent, newPrefix) ==> Occupied(parent, newPrefix, existing, i)
    else
      forall i :: 0 <= i < Total(parent, newPrefix) && FirstThrough(parent, newPrefix, existing, i) ==>
        !Hidden(parent, newPrefix, existing, i)
  }

  /** Returns the lowest aligned candidate inside the parent that no recorded range meets, with
      the first `ipCount` addresses after the padding; reports no subnet exactly when every
      candidate is met, and too few addresses exactly when the block is too small. What it
      found overlaps nothing exactly when no miscounted network holds its first address. The
      whole result is right exactly for the inputs in which no miscounted network holds that of
      the first candidate let through; with one at 0.0.0.0, exactly if every candidate overlaps
      some network. */
  method NextSubnetWithIPs(parent: CIDR, newPrefix: int, existing: seq<CIDR>, ipCount: int)
    returns (r: Allocation, ghost index: nat)
    requires Parsed(parent) && AllParsed(existing)
    ensures r.BadRequest? <==> !parent.V4? || newPrefix < parent.ones || newPrefix > 32
    ensures parent.V4? && parent.ones == 0 && 0 < newPrefix <= 32 ==> r.NoFreeSubnet?
    ensures r.DivisionByZero? <==> parent.V4? && parent.ones == 0 && newPrefix == 0
    ensures Fits(parent, newPrefix) ==>
              (r.NoFreeSubnet? <==> forall i :: 0 <= i < Total(parent, newPrefix) ==>
                  Blocked(parent, newPrefix, existing, i))
    ensures Fits(parent, newPrefix) && !r.NoFreeSubnet? ==>
              && index < Total(parent, newPrefix)
              && !Blocked(parent, newPrefix, existing, index)
              && (forall j :: 0 <= j < index ==> Blocked(parent, newPrefix, existing, j))
              && (Occupied(parent, newPrefix, existing, index) <==> Hidden(parent, newPrefix, existing, index))
              && (r.NotEnoughIPs? <==> ipCount > 0 && ipCount > Pow2(32 - newPrefix) - 5)
    ensures Fits(parent, newPrefix) && !MiscountedZero(existing) ==>
              (Right(parent, newPrefix, existing, !r.NoFreeSubnet?, index) <==>
               r.NoFreeSubnet? || !Hidden(parent, newPrefix, existing, index))
    ensures Fits(parent, newPrefix) ==>
              (Right(parent, newPrefix, existing, !r.NoFreeSubnet?, index) <==>
               Dependable(parent, newPrefix, existing))
    ensures r.Allocated? ==> Fits(parent, newPrefix) && r.prefix == newPrefix
    ensures r.Allocated? ==> r.start == CandidateStart(parent, newPrefix, index)
    ensures r.Allocated? ==> |r.ips| == (if ipCount <= 0 then 0 else ipCount) && forall k :: 0 <= k < |r.ips| ==>
              |r.ips[k]| == 4 && BE(r.ips[k]) == r.start + 4 + k
  {
    index := 0;
    if !parent.V4? || newPrefix < parent.ones || newPrefix > 32 {
      return BadRequest, 0;
    }
    Geometry(parent, newPrefix);
    var ranges := UsedRanges(existing);
    var base, parentSize, size := NetworkAddress(parent), Bit(32 - parent.ones), Bit(32 - newPrefix);
    if size == 0 {
      return DivisionByZero, 0;
    }
    var found;
    found, index := FindSubnet(base, size, parentSize / size, ranges, existing);
    Consequences(parent, newPrefix, existing, found.Some?, index);
    if found.None? {
      return NoFreeSubnet, index;
    }
    CandidateAligned(parent, newPrefix, index);
    r := HandOut(newPrefix, found.value, ipCount);
  }

  /** What the search result says about the real networks. */
  lemma Consequences(parent: CIDR, newPrefix: nat, existing: seq<CIDR>, found: bool, index: nat)
    requires AllParsed(existing)
    requires Fits(parent, newPrefix) ==>
               && (found ==> index < Total(parent, newPrefix) && !Blocked(parent, newPrefix, existing, index))
               && (forall j :: 0 <= j < (if found then index else Total(parent, newPrefix)) ==>
                     Blocked(parent, newPrefix, existing, j))
    ensures Fits(parent, newPrefix) && found ==>
              (Occupied(parent, newPrefix, existing, index) <==> Hidden(parent, newPrefix, existing, index))
    ensures Fits(parent, newPrefix) && !MiscountedZero(existing) ==>
              (Right(parent, newPrefix, existing, found, index) <==>
               !found || !Hidden(parent, newPrefix, existing, index))
    ensures Fits(parent, newPrefix) ==>
              (Right(parent, newPrefix, existing, found, index) <==> Dependable(parent, newPrefix, existing))
  {
    if Fits(parent, newPrefix) {
      if found {
        FreeExact(parent, newPrefix, existing, index);
      }
      forall j | 0 <= j < (if found then index else Total(parent, newPrefix))
        ensures !MiscountedZero(existing) ==> Occupied(parent, newPrefix, existing, j)
      {
        SkippedExact(parent, newPrefix, existing, j);
      }
      if MiscountedZero(existing) {
        AllSkipped(parent, newPrefix, existing, found, index);
      } else if found {
        OnlyThrough(parent, newPrefix, existing, index);
      }
    }
  }

  lemma AllSkipped(parent: CIDR, newPrefix: nat, existing: seq<CIDR>, found: bool, index: nat)
    requires Fits(parent, newPrefix) && AllParsed(existing) && MiscountedZero(existing)
    requires found ==> index < Total(parent, newPrefix) && !Blocked(parent, newPrefix, existing, index)
    ensures !found
  {
    if found {
      SkippedExact(parent, newPrefix, existing, index);
    }
  }

  /** Only the candidate that was found is the first one let through. */
  lemma OnlyThrough(parent: CIDR, newPrefix: nat, existing: seq<CIDR>, index: nat)
    requires Fits(parent, newPrefix) && AllParsed(existing) && FirstThrough(parent, newPrefix, existing, index)
    ensures forall i: nat :: FirstThrough(parent, newPrefix, existing, i) ==> i == index
  {
    forall i: nat | FirstThrough(parent, newPrefix, existing, i)
      ensures i == index
    {
      assert !(i < index) && !(index < i);
    }
  }

  // ---- networks in IPv6 notation ----

  const TEN: u32 := 0x0A00_0000

  lemma TenSizes()
    ensures Pow2(24) == 0x100_0000 && Pow2(16) == 0x1_0000 && Pow2(8) == 256
    ensures TEN % Pow2(24) == 0
  {
    assert Pow2(8) == 256;
    Pow2Add(8, 8);
    Pow2Add(8, 16);
    ModUnique(TEN, 0x100_0000, 10, 0);
  }

  /** A miscounted network that begins where candidate `i` begins. */
  ghost predicate Begins(parent: CIDR, newPrefix: nat, n: CIDR, i: nat) {
    && Fits(parent, newPrefix) && i < Total(parent, newPrefix)
    && Parsed(n) && Miscounted(n) && NetStart(n) == CandidateStart(parent, newPrefix, i) != 0
  }

  /** It is not seen: the code takes the candidate for free, on top of the network. */
  lemma MissedOverlap(parent: CIDR, newPrefix: nat, n: CIDR, i: nat)
    requires Begins(parent, newPrefix, n, i)
    ensures AllParsed([n]) && !Blocked(parent, newPrefix, [n], i) && Occupied(parent, newPrefix, [n], i)
  {
    var start, size := CandidateStart(parent, newPrefix, i), Pow2(32 - newPrefix);
    CandidateInside(parent, newPrefix, i);
    EndsDecide(n, start, size);
    SharesExact(n, start, size);
    assert n in [n];
  }

  /** For example ::ffff:10.0.0.0/104, the network 10.0.0.0/8, and the block 10.0.0.0/16. */
  lemma MissedExample(parent: CIDR, newPrefix: nat, n: CIDR)
    requires parent == V4(TEN, 8) && newPrefix == 16 && n == V4In6(TEN, 104)
    ensures Begins(parent, newPrefix, n, 0) && CandidateStart(parent, newPrefix, 0) == TEN
  {
    TenSizes();
    AlignedStays(TEN, Pow2(24));
    FirstBlock(TEN, Pow2(16));
  }

  lemma AlignedStays(a: nat, m: nat)
    requires m > 0 && a % m == 0
    ensures a - a % m == a
  {
  }

  lemma FirstBlock(base: int, size: nat)
    ensures Block(base, size, 0) == base
  {
  }

  /** ::ffff:0.0.0.0/128 blocks every candidate of 10.0.0.0/8 although it overlaps none. */
  lemma FalseBlock(i: nat)
    requires i < Total(V4(TEN, 8), 16)
    ensures var parent, existing := V4(TEN, 8), [V4In6(0, 128)];
            AllParsed(existing) && Fits(parent, 16) && Blocked(parent, 16, existing, i)
                && !Occupied(parent, 16, existing, i)
  {
    var n := V4In6(0, 128);
    TenSizes();
    assert n in [n] && NetStart(n) == 0 && NetSize(n) == 1;
    SkippedExact(V4(TEN, 8), 16, [n], i);
    CandidateAligned(V4(TEN, 8), 16, i);
    SharesExact(n, CandidateStart(V4(TEN, 8), 16, i), Pow2(16));
  }

  function NetworkAddress(parent: CIDR): u32
    requires parent.V4? && parent.ones <= 32
  {
    NetworkAligned(parent.addr, Pow2(32 - parent.ones));
    U32(parent.addr - parent.addr % Pow2(32 - parent.ones))
  }

  /** The 32-bit quantities of the search, for every prefix the checks let through. */
  lemma Geometry(parent: CIDR, newPrefix: nat)
    requires parent.V4? && parent.ones <= newPrefix <= 32
    ensures Bit(32 - newPrefix) == (if newPrefix == 0 then 0 else Pow2(32 - newPrefix))
    ensures parent.ones == 0 && newPrefix > 0 ==> Bit(32 - parent.ones) / Bit(32 - newPrefix) == 0
    ensures Fits(parent, newPrefix) ==>
              && Bit(32 - parent.ones) / Bit(32 - newPrefix) == Total(parent, newPrefix) < W
              && NetworkAddress(parent) == Network(parent)
              && Network(parent) + Total(parent, newPrefix) * Pow2(32 - newPrefix) <= W
  {
    if parent.ones > 0 {
      Sizes(parent.ones, newPrefix);
      ParentBounds(parent, newPrefix);
      SmallU32(Network(parent));
    }
  }

  /** The addresses of the block that was found. */
  method HandOut(newPrefix: nat, start: u32, ipCount: int) returns (r: Allocation)
    requires newPrefix <= 32 && start % Pow2(32 - newPrefix) == 0
    ensures r.NotEnoughIPs? || r.Allocated?
    ensures r.NotEnoughIPs? <==> ipCount > 0 && ipCount > Pow2(32 - newPrefix) - 5
    ensures r.Allocated? ==> r.start == start && r.prefix == newPrefix
    ensures r.Allocated? ==> |r.ips| == (if ipCount <= 0 then 0 else ipCount) && forall k :: 0 <= k < |r.ips| ==>
              |r.ips[k]| == 4 && BE(r.ips[k]) == r.start + 4 + k
  {
    var ips := TakeIPs(FoundNet(start, newPrefix), ipCount, newPrefix);
    r := if ips.Some? then Allocated(start, newPrefix, ips.value) else NotEnoughIPs;
  }
}
