/** When the least address that is not taken is the least unused one. */
module UnusedAddress {
  import opened Wrappers
  import opened Bits
  import opened IpBytes
  import opened Networks
  import opened RandomAddress

  /** The least candidate the code does not see as taken, and nothing when there is none. */
  ghost predicate LeastNotTaken(net: IPNet, prefix: nat, used: seq<Option<seq<byte>>>, r: Option<seq<byte>>)
    requires prefix <= 8 * |net.ip|
  {
    && (r.Some? ==> Candidate(net, prefix, r.value) && !Taken(net, used, r.value))
    && (r.Some? ==> forall b :: Candidate(net, prefix, b) && BE(b) < BE(r.value) ==> Taken(net, used, b))
    && (r.None? ==> forall b :: Candidate(net, prefix, b) ==> Taken(net, used, b))
  }

  /** What is promised: the least unused candidate, and nothing exactly when all are in use. */
  ghost predicate LeastUnused(net: IPNet, prefix: nat, used: seq<Option<seq<byte>>>, r: Option<seq<byte>>)
    requires prefix <= 8 * |net.ip|
  {
    && (r.Some? ==> Candidate(net, prefix, r.value) && !InUse(used, r.value))
    && (r.Some? ==> forall b :: Candidate(net, prefix, b) && BE(b) < BE(r.value) ==> InUse(used, b))
    && (r.None? ==> forall b :: Candidate(net, prefix, b) ==> InUse(used, b))
  }

  /** An IPv6 block that contains the addresses standing for IPv4 ones, with everything up to
      and including the first of these in use. */
  ghost predicate Blind(net: IPNet, prefix: nat, used: seq<Option<seq<byte>>>)
    requires prefix <= 8 * |net.ip|
  {
    && |net.ip| == 16 && !Mapped(net.ip)
    && BE(net.ip) <= MAPPED_START < BE(net.ip) + Size(net, prefix)
    && forall b :: Candidate(net, prefix, b) && BE(b) <= MAPPED_START ==> InUse(used, b)
  }

  lemma WideBlocks(v: nat, h: nat)
    requires h >= 33 && Rem(v, Pow2(h)) == 0
    ensures exists a: nat, b: nat :: v == a * MAPPED_SIZE && Pow2(h) == b * MAPPED_SIZE
  {
    ThirtyTwo();
    Pow2Add(32, h - 32);
    RemIsMod(v, Pow2(h));
    var k, b := v / Pow2(h), Pow2(h - 32);
    calc {
      v;
      Pow2(h) * k;
      (MAPPED_SIZE * b) * k;
      (b * k) * MAPPED_SIZE;
    }
    assert b * k >= 0 by { MulNonNegative(b, k); }
    var a: nat := b * k;
    assert v == a * MAPPED_SIZE && Pow2(h) == b * MAPPED_SIZE;
  }

  /** A block of an IPv6 network with both kinds of addresses contains all that stand for IPv4
      addresses, at least 2^32 above its start. */
  lemma MixedRange(net: IPNet, prefix: nat, a: seq<byte>)
    requires CIDRNet(net, prefix) && InBlock(net, prefix, a) && Mapped(a) != Mapped(net.ip)
    ensures |net.ip| == 16 && !Mapped(net.ip)
    ensures BE(net.ip) + MAPPED_SIZE <= MAPPED_START
    ensures MAPPED_START + MAPPED_SIZE <= BE(net.ip) + Size(net, prefix)
  {
    MixedBlock(net, prefix, a);
    if Mapped(net.ip) {
      MappedPrefix(net, prefix);
    }
    NetBlock(net, prefix);
    WideBlocks(BE(net.ip), 128 - prefix);
    var x: nat, y: nat :| BE(net.ip) == x * MAPPED_SIZE && Size(net, prefix) == y * MAPPED_SIZE;
    MappedExact(a);
    MappedExact(net.ip);
    RangesNest(x, y, BE(a));
  }

  lemma RangesNest(x: nat, y: nat, v: nat)
    requires x * MAPPED_SIZE <= v < x * MAPPED_SIZE + y * MAPPED_SIZE
    requires MAPPED_START <= v < MAPPED_START + MAPPED_SIZE
    requires !(MAPPED_START <= x * MAPPED_SIZE < MAPPED_START + MAPPED_SIZE)
    ensures x * MAPPED_SIZE + MAPPED_SIZE <= MAPPED_START
    ensures MAPPED_START + MAPPED_SIZE <= x * MAPPED_SIZE + y * MAPPED_SIZE
  {
  }

  /** Below the addresses standing for IPv4 ones, and in blocks without them, taken means in use. */
  lemma TakenIsInUse(net: IPNet, prefix: nat, used: seq<Option<seq<byte>>>, b: seq<byte>)
    requires CIDRNet(net, prefix) && InBlock(net, prefix, b)
    requires |net.ip| == 16 && !Mapped(net.ip) && MAPPED_START < BE(net.ip) + Size(net, prefix) ==> BE(b) < MAPPED_START
    ensures Taken(net, used, b) <==> InUse(used, b)
  {
    TakenExact(net, prefix, used, b);
    if Mapped(b) != Mapped(net.ip) {
      MixedRange(net, prefix, b);
      MappedExact(b);
    }
  }

  function FirstMapped(): (m: seq<byte>)
    ensures |m| == 16 && Mapped(m)
  {
    In6([0, 0, 0, 0])
  }

  lemma FirstMappedValue()
    ensures BE(FirstMapped()) == MAPPED_START
  {
    MappedExact(FirstMapped());
    var z := FirstMapped()[12..];
    assert z == [0, 0, 0, 0];
    ZerosValue(z);
  }

  lemma FirstMappedFree(net: IPNet, prefix: nat, used: seq<Option<seq<byte>>>)
    requires CIDRNet(net, prefix) && |net.ip| == 16 && !Mapped(net.ip)
    requires BE(net.ip) <= MAPPED_START < BE(net.ip) + Size(net, prefix)
    ensures Candidate(net, prefix, FirstMapped()) && !Taken(net, used, FirstMapped())
    ensures forall b :: Candidate(net, prefix, b) && BE(b) == MAPPED_START ==> b == FirstMapped()
  {
    var m := FirstMapped();
    FirstMappedValue();
    MixedRange(net, prefix, m);
    TakenExact(net, prefix, used, m);
    forall b | Candidate(net, prefix, b) && BE(b) == MAPPED_START
      ensures b == m
    {
      BEInjective(b, m);
    }
  }

  lemma WithoutMapped(net: IPNet, prefix: nat, used: seq<Option<seq<byte>>>, r: Option<seq<byte>>)
    requires CIDRNet(net, prefix) && LeastNotTaken(net, prefix, used, r)
    requires !(|net.ip| == 16 && !Mapped(net.ip) && BE(net.ip) <= MAPPED_START < BE(net.ip) + Size(net, prefix))
    ensures LeastUnused(net, prefix, used, r)
  {
    forall b | Candidate(net, prefix, b)
      ensures Taken(net, used, b) <==> InUse(used, b)
    {
      if |net.ip| == 16 && !Mapped(net.ip) && MAPPED_START < BE(net.ip) + Size(net, prefix) {
        TakenExact(net, prefix, used, b);
        if Mapped(b) {
          MixedRange(net, prefix, b);
        }
      } else {
        TakenIsInUse(net, prefix, used, b);
      }
    }
  }

  lemma WithMapped(net: IPNet, prefix: nat, used: seq<Option<seq<byte>>>, r: Option<seq<byte>>)
    requires CIDRNet(net, prefix) && LeastNotTaken(net, prefix, used, r)
    requires |net.ip| == 16 && !Mapped(net.ip) && BE(net.ip) <= MAPPED_START < BE(net.ip) + Size(net, prefix)
    ensures LeastUnused(net, prefix, used, r) <==> !Blind(net, prefix, used)
  {
    FirstMappedFree(net, prefix, used);
    FirstMappedValue();
    var m := FirstMapped();
    forall b | Candidate(net, prefix, b) && BE(b) < MAPPED_START
      ensures Taken(net, used, b) <==> InUse(used, b)
    {
      TakenIsInUse(net, prefix, used, b);
    }
    assert Candidate(net, prefix, m) && !Taken(net, used, m);
    assert r.Some? && BE(r.value) <= MAPPED_START;
    if BE(r.value) == MAPPED_START {
      assert r.value == m;
    } else {
      assert Candidate(net, prefix, r.value) && !InUse(used, r.value);
    }
  }

  /** The code finds the least unused address exactly when the block is not blind. */
  lemma UnusedExact(net: IPNet, prefix: nat, used: seq<Option<seq<byte>>>, r: Option<seq<byte>>)
    requires CIDRNet(net, prefix) && LeastNotTaken(net, prefix, used, r)
    ensures LeastUnused(net, prefix, used, r) <==> !Blind(net, prefix, used)
  {
    if |net.ip| == 16 && !Mapped(net.ip) && BE(net.ip) <= MAPPED_START < BE(net.ip) + Size(net, prefix) {
      WithMapped(net, prefix, used, r);
    } else {
      WithoutMapped(net, prefix, used, r);
    }
  }

  // ---- how many addresses that takes ----

  /** IPv4 networks, and IPv6 networks with a prefix of 96 or more, are never blind. */
  lemma NarrowIsNotBlind(net: IPNet, prefix: nat, used: seq<Option<seq<byte>>>)
    requires CIDRNet(net, prefix) && (|net.ip| == 4 || prefix >= 96)
    ensures !Blind(net, prefix, used)
  {
    if Blind(net, prefix, used) {
      FirstMappedValue();
      MixedBlock(net, prefix, FirstMapped());
    }
  }

  /** The address `offset` above the network address. */
  function Above(net: IPNet, offset: nat): (a: seq<byte>)
    requires BE(net.ip) + offset < Pow2(8 * |net.ip|)
    ensures |a| == |net.ip| && BE(a) == BE(net.ip) + offset
  {
    AddBigIntToIP(net.ip, offset)
  }

  /** The candidates up to the first address standing for an IPv4 one. */
  ghost function Needed(net: IPNet): int {
    MAPPED_START - BE(net.ip) - PADDING
  }

  ghost predicate Distinct(s: seq<seq<byte>>) {
    forall i, j :: 0 <= i < j < |s| ==> s[i] != s[j]
  }

  ghost function Elements(s: seq<seq<byte>>): set<seq<byte>> {
    set i | 0 <= i < |s| :: s[i]
  }

  lemma {:induction false} DistinctSize(s: seq<seq<byte>>)
    requires Distinct(s)
    ensures |Elements(s)| == |s|
  {
    if s != [] {
      var n := |s| - 1;
      DistinctSize(s[..n]);
      assert s[n] !in Elements(s[..n]);
      assert Elements(s) == Elements(s[..n]) + {s[n]};
    }
  }

  ghost function KeysOf(used: seq<Option<seq<byte>>>): set<seq<byte>> {
    set i | 0 <= i < |used| && used[i].Some? :: Key(used[i].value)
  }

  lemma {:induction false} KeysBound(used: seq<Option<seq<byte>>>)
    ensures |KeysOf(used)| <= |used|
  {
    if used != [] {
      var n := |used| - 1;
      KeysBound(used[..n]);
      var last := if used[n].Some? then {Key(used[n].value)} else {};
      assert KeysOf(used) == KeysOf(used[..n]) + last;
    }
  }

  lemma SubsetBound(a: set<seq<byte>>, b: set<seq<byte>>)
    requires a <= b
    ensures |a| <= |b|
  {
    assert b == a + (b - a);
  }

  lemma InRange(net: IPNet, prefix: nat)
    requires CIDRNet(net, prefix) && |net.ip| == 16 && !Mapped(net.ip)
    requires BE(net.ip) <= MAPPED_START < BE(net.ip) + Size(net, prefix)
    ensures Needed(net) >= MAPPED_SIZE - PADDING && MAPPED_START < Pow2(8 * |net.ip|)
    ensures MAPPED_START + 1 < BE(net.ip) + Size(net, prefix)
  {
    FirstMappedValue();
    MixedRange(net, prefix, FirstMapped());
    BlockFits(net, prefix);
  }

  /** Different addresses that do not stand for IPv4 ones have different keys. */
  lemma KeyOfAbove(a: seq<byte>, b: seq<byte>)
    requires |a| == |b| == 16 && BE(a) < BE(b) <= MAPPED_START
    ensures Key(a) != Key(b)
  {
    MappedExact(a);
    MappedExact(b);
  }

  ghost predicate HoldsMapped(net: IPNet, prefix: nat) {
    && CIDRNet(net, prefix) && |net.ip| == 16 && !Mapped(net.ip)
    && BE(net.ip) <= MAPPED_START < BE(net.ip) + Size(net, prefix)
  }

  ghost function NthKey(net: IPNet, prefix: nat, i: nat): seq<byte>
    requires HoldsMapped(net, prefix) && i < Needed(net)
  {
    InRange(net, prefix);
    Key(Above(net, PADDING + 1 + i))
  }

  ghost function CandidateKeys(net: IPNet, prefix: nat): (s: seq<seq<byte>>)
    requires HoldsMapped(net, prefix)
    ensures |s| == Needed(net)
  {
    InRange(net, prefix);
    seq(Needed(net), i requires 0 <= i < Needed(net) => NthKey(net, prefix, i))
  }

  lemma TwoKeys(net: IPNet, prefix: nat, i: nat, j: nat)
    requires HoldsMapped(net, prefix) && i < j < Needed(net)
    ensures NthKey(net, prefix, i) != NthKey(net, prefix, j)
  {
    InRange(net, prefix);
    KeyOfAbove(Above(net, PADDING + 1 + i), Above(net, PADDING + 1 + j));
  }

  lemma CandidateKeysDistinct(net: IPNet, prefix: nat)
    requires HoldsMapped(net, prefix)
    ensures Distinct(CandidateKeys(net, prefix))
  {
    var keys := CandidateKeys(net, prefix);
    forall i, j | 0 <= i < j < |keys|
      ensures keys[i] != keys[j]
    {
      TwoKeys(net, prefix, i, j);
    }
  }

  lemma BlindKeys(net: IPNet, prefix: nat, used: seq<Option<seq<byte>>>, i: nat)
    requires HoldsMapped(net, prefix) && Blind(net, prefix, used) && i < Needed(net)
    ensures CandidateKeys(net, prefix)[i] in KeysOf(used)
  {
    InRange(net, prefix);
    var a := Above(net, PADDING + 1 + i);
    assert Candidate(net, prefix, a);
    assert InUse(used, a);
  }

  /** A blind block needs one used address for each of these candidates, so with fewer the
      code finds the least unused address. */
  lemma FewUsed(net: IPNet, prefix: nat, used: seq<Option<seq<byte>>>)
    requires CIDRNet(net, prefix) && |used| < Needed(net)
    ensures !Blind(net, prefix, used)
  {
    if Blind(net, prefix, used) {
      var keys := CandidateKeys(net, prefix);
      CandidateKeysDistinct(net, prefix);
      DistinctSize(keys);
      forall i | 0 <= i < |keys|
        ensures keys[i] in KeysOf(used)
      {
        BlindKeys(net, prefix, used, i);
      }
      SubsetBound(Elements(keys), KeysOf(used));
      KeysBound(used);
    }
  }

  /** For every block with addresses standing for IPv4 ones, that many do make it blind. */
  lemma EnoughUsed(net: IPNet, prefix: nat) returns (used: seq<Option<seq<byte>>>)
    requires HoldsMapped(net, prefix)
    ensures |used| == Needed(net) && Blind(net, prefix, used)
  {
    InRange(net, prefix);
    used := seq(Needed(net), i requires 0 <= i < Needed(net) => Some(Above(net, PADDING + 1 + i)));
    forall b | Candidate(net, prefix, b) && BE(b) <= MAPPED_START
      ensures InUse(used, b)
    {
      var i := BE(b) - BE(net.ip) - PADDING - 1;
      BEInjective(b, Above(net, PADDING + 1 + i));
      assert used[i] == Some(b);
    }
  }
}
