/** Addresses as byte strings, as internal/core/ips/ips.go handles them, and the integers
    they stand for (network byte order). */
module IpBytes {
  import opened Bits

  type byte = x: int | 0 <= x < 256

  /** The big-endian value. */
  function BE(s: seq<byte>): (v: nat)
    ensures v < Pow2(8 * |s|)
  {
    if s == [] then 0
    else
      var n := |s| - 1;
      Pow2Eight(n);
      BE(s[..n]) * 256 + s[n]
  }

  lemma Pow2Eight(n: nat)
    ensures Pow2(8 * (n + 1)) == 256 * Pow2(8 * n) && Pow2(8) == 256
  {
    Pow2Add(8, 8 * n);
  }

  lemma {:induction false} BEInjective(a: seq<byte>, b: seq<byte>)
    requires |a| == |b| && BE(a) == BE(b)
    ensures a == b
  {
    if a != [] {
      var n := |a| - 1;
      assert a[n] == BE(a) % 256 && b[n] == BE(b) % 256;
      BEInjective(a[..n], b[..n]);
      assert a == a[..n] + [a[n]] && b == b[..n] + [b[n]];
    }
  }

  // ---- incIP ----

  function Successor(s: seq<byte>): (t: seq<byte>)
    ensures |t| == |s|
  {
    if s == [] then []
    else
      var n := |s| - 1;
      if s[n] == 255 then Successor(s[..n]) + [0] else s[n := s[n] + 1]
  }

  lemma CarrySplit(q: nat, r: nat, m: nat)
    requires q < m && r < 256
    ensures (q * 256 + r + 1) % (256 * m) == if r == 255 then ((q + 1) % m) * 256 else q * 256 + r + 1
  {
    if r == 255 {
      ModDigit(q + 1, 256, 0, m);
    } else {
      ModUnique(q * 256 + r + 1, 256 * m, 0, q * 256 + r + 1);
    }
  }

  /** incIP is the big-endian successor, wrapping at the end of the address space. */
  lemma {:induction false} SuccessorValue(s: seq<byte>)
    ensures BE(Successor(s)) == (BE(s) + 1) % Pow2(8 * |s|)
  {
    if s == [] {
      assert Pow2(0) == 1;
    } else {
      var n := |s| - 1;
      Pow2Eight(n);
      CarrySplit(BE(s[..n]), s[n], Pow2(8 * n));
      if s[n] == 255 {
        SuccessorValue(s[..n]);
        assert Successor(s)[..n] == Successor(s[..n]);
      } else {
        assert Successor(s)[..n] == s[..n];
      }
    }
  }

  /** The byte loop of incIP, from the last byte, stopping at the first that does not wrap. */
  method IncIP(ip: array<byte>)
    modifies ip
    ensures ip[..] == Successor(old(ip[..]))
  {
    var i := ip.Length - 1;
    while i >= 0
      invariant -1 <= i < ip.Length
      invariant ip[..i + 1] == old(ip[..])[..i + 1]
      invariant forall k :: i < k < ip.Length ==> old(ip[k]) == 255 && ip[k] == 0
      decreases i
    {
      ip[i] := if ip[i] == 255 then 0 else ip[i] + 1;
      if ip[i] != 0 {
        SuccessorByte(old(ip[..]), i);
        break;
      }
      i := i - 1;
    }
    if i < 0 {
      SuccessorByte(old(ip[..]), -1);
    }
  }

  /** Successor, by the position where the carry stops. */
  lemma {:induction false} SuccessorByte(s: seq<byte>, i: int)
    requires -1 <= i < |s| && (i >= 0 ==> s[i] < 255)
    requires forall k :: i < k < |s| ==> s[k] == 255
    ensures forall k :: 0 <= k < |s| ==> Successor(s)[k] == if k < i then s[k] else if k == i then s[k] + 1 else 0
  {
    var n := |s| - 1;
    if n >= 0 && i < n {
      SuccessorByte(s[..n], i);
    }
  }

  // ---- masks ----

  /** How many of byte `i`'s bits lie beyond the prefix. */
  function HostBits(prefix: nat, i: nat): (h: nat)
    ensures h <= 8
  {
    if prefix >= 8 * (i + 1) then 0 else if prefix <= 8 * i then 8 else 8 * (i + 1) - prefix
  }

  lemma ByteBounds(h: nat)
    requires h <= 8
    ensures 1 <= Pow2(h) <= 256 && 256 % Pow2(h) == 0
  {
    Pow2Monotone(h, 8);
    Pow2Add(h, 8 - h);
    assert Pow2(8) == 256;
    ModUnique(256, Pow2(h), Pow2(8 - h), 0);
  }

  function MaskByte(prefix: nat, i: nat): byte {
    ByteBounds(HostBits(prefix, i));
    256 - Pow2(HostBits(prefix, i))
  }

  /** The mask of a prefix length, over `n` bytes. */
  function CIDRMask(prefix: nat, n: nat): (m: seq<byte>)
    ensures |m| == n
  {
    seq(n, i requires 0 <= i < n => MaskByte(prefix, i))
  }

  function AndByte(a: byte, m: byte): (r: byte) {
    AndBound(8, a, m);
    And(8, a, m)
  }

  /** `a | ^m` */
  function OrNotByte(a: byte, m: byte): (r: byte) {
    OrBound(8, a, 255 - m);
    Or(8, a, 255 - m)
  }

  lemma {:induction false} AndBound(w: nat, a: nat, b: nat)
    ensures And(w, a, b) < Pow2(w)
    ensures Pow2(8) == 256
  {
    if w > 0 {
      AndBound(w - 1, a / 2, b / 2);
    }
  }

  lemma {:induction false} OrBound(w: nat, a: nat, b: nat)
    ensures Or(w, a, b) < Pow2(w)
    ensures Pow2(8) == 256
  {
    if w > 0 {
      OrBound(w - 1, a / 2, b / 2);
    }
  }

  function Masked(ip: seq<byte>, mask: seq<byte>): (r: seq<byte>)
    requires |ip| == |mask|
    ensures |r| == |ip|
  {
    seq(|ip|, i requires 0 <= i < |ip| => AndByte(ip[i], mask[i]))
  }

  function Filled(ip: seq<byte>, mask: seq<byte>): (r: seq<byte>)
    requires |ip| == |mask|
    ensures |r| == |ip|
  {
    seq(|ip|, i requires 0 <= i < |ip| => OrNotByte(ip[i], mask[i]))
  }

  lemma ByteMasks(a: byte, prefix: nat, i: nat)
    ensures var m := Pow2(HostBits(prefix, i));
            && AndByte(a, MaskByte(prefix, i)) == a - Rem(a, m)
            && OrNotByte(a, MaskByte(prefix, i)) == a - Rem(a, m) + m - 1
  {
    var h := HostBits(prefix, i);
    ByteBounds(h);
    assert Pow2(8) == 256;
    AndMask(8, a, h);
    OrHost(8, a, h);
  }

  lemma HighSplit(q: nat, r: nat, m: nat)
    requires r < 256 && m > 0
    ensures Rem(q * 256 + r, 256 * m) == Rem(q, m) * 256 + r
  {
    ModDigit(q, 256, r, m);
    RemIsMod(q, m);
    RemIsMod(q * 256 + r, 256 * m);
  }

  lemma LowSplit(q: nat, r: nat, m: nat)
    requires r < 256 && m > 0 && 256 % m == 0
    ensures Rem(q * 256 + r, m) == Rem(r, m)
  {
    ModLow(q, 256, r, m);
    RemIsMod(r, m);
    RemIsMod(q * 256 + r, m);
  }

  lemma MaskPrefix(prefix: nat, n: nat, before: nat)
    requires before == if prefix <= 8 * n then prefix else 8 * n
    ensures CIDRMask(prefix, n + 1)[..n] == CIDRMask(before, n)
  {
  }

  lemma MaskedInit(ip: seq<byte>, mask: seq<byte>)
    requires |ip| == |mask| > 0
    ensures var n := |ip| - 1;
            && Masked(ip, mask)[..n] == Masked(ip[..n], mask[..n])
            && Filled(ip, mask)[..n] == Filled(ip[..n], mask[..n])
  {
  }

  /** The block of size `m` around `v` runs from `lo` to `hi`. */
  ghost predicate Block(v: nat, m: nat, lo: nat, hi: nat) {
    m > 0 && lo == v - Rem(v, m) && hi == lo + m - 1
  }

  lemma ShiftEight(k: nat)
    ensures Pow2(k + 8) == 256 * Pow2(k)
  {
    Pow2Add(8, k);
    assert Pow2(8) == 256;
  }

  lemma WiderBlock(q: nat, r: byte, m: nat, lo: nat, hi: nat)
    requires Block(q, m, lo, hi)
    ensures Block(q * 256 + r, 256 * m, lo * 256, hi * 256 + 255)
  {
    HighSplit(q, r, m);
  }

  /** Adding a last byte that lies beyond the prefix to the block of the bytes before it. */
  lemma HostByteBlock(q: nat, r: byte, prefix: nat, n: nat, lo: nat, hi: nat)
    requires prefix <= 8 * n && Block(q, Pow2(8 * n - prefix), lo, hi)
    ensures Block(q * 256 + r, Pow2(8 * (n + 1) - prefix), lo * 256, hi * 256 + 255)
  {
    ShiftEight(8 * n - prefix);
    WiderBlock(q, r, Pow2(8 * n - prefix), lo, hi);
  }

  /** The network part of byte `n`, and the byte with its host bits set. */
  ghost function LowByte(r: byte, prefix: nat, n: nat): nat {
    r - Rem(r, Pow2(HostBits(prefix, n)))
  }

  ghost function HighByte(r: byte, prefix: nat, n: nat): nat {
    LowByte(r, prefix, n) + Pow2(HostBits(prefix, n)) - 1
  }

  lemma HostByte(r: byte, prefix: nat, n: nat)
    requires prefix <= 8 * n
    ensures LowByte(r, prefix, n) == 0 && HighByte(r, prefix, n) == 255
  {
    assert Pow2(8) == 256;
  }

  /** Adding a last byte that the prefix reaches. */
  lemma PrefixByteBlock(q: nat, r: byte, prefix: nat, n: nat)
    requires 8 * n < prefix <= 8 * (n + 1)
    ensures Block(q * 256 + r, Pow2(8 * (n + 1) - prefix),
                  q * 256 + LowByte(r, prefix, n), q * 256 + HighByte(r, prefix, n))
  {
    ByteBounds(8 * (n + 1) - prefix);
    LowSplit(q, r, Pow2(8 * (n + 1) - prefix));
  }

  lemma WholeBlock(q: nat, lo: nat, hi: nat)
    requires Block(q, Pow2(0), lo, hi)
    ensures lo == hi == q
  {
    RemOne(q);
  }

  lemma BEInit(s: seq<byte>, init: seq<byte>, last: byte)
    requires s != [] && s[..|s| - 1] == init && s[|s| - 1] == last
    ensures BE(s) == BE(init) * 256 + last
  {
  }

  /** The prefix length as far as the first `n` bytes see it. */
  function Within(prefix: nat, n: nat): nat {
    if prefix <= 8 * n then prefix else 8 * n
  }

  /** The values of the masked and the filled address, byte by byte. */
  ghost function Low(ip: seq<byte>, prefix: nat): nat {
    if ip == [] then 0
    else
      var n := |ip| - 1;
      Low(ip[..n], Within(prefix, n)) * 256 + LowByte(ip[n], prefix, n)
  }

  ghost function High(ip: seq<byte>, prefix: nat): nat {
    if ip == [] then 0
    else
      var n := |ip| - 1;
      High(ip[..n], Within(prefix, n)) * 256 + HighByte(ip[n], prefix, n)
  }

  lemma {:induction false} MaskedLow(ip: seq<byte>, prefix: nat)
    ensures BE(Masked(ip, CIDRMask(prefix, |ip|))) == Low(ip, prefix)
    ensures BE(Filled(ip, CIDRMask(prefix, |ip|))) == High(ip, prefix)
  {
    if ip != [] {
      var n := |ip| - 1;
      MaskedLow(ip[..n], Within(prefix, n));
      MaskedStep(ip, prefix, n);
      ByteMasks(ip[n], prefix, n);
    }
  }

  /** What masking and filling do to the value, for the first bytes of an address. */
  lemma MaskedStep(ip: seq<byte>, prefix: nat, n: nat)
    requires |ip| == n + 1
    ensures var mask, short := CIDRMask(prefix, n + 1), CIDRMask(Within(prefix, n), n);
            && BE(Masked(ip, mask)) == BE(Masked(ip[..n], short)) * 256 + AndByte(ip[n], MaskByte(prefix, n))
            && BE(Filled(ip, mask)) == BE(Filled(ip[..n], short)) * 256 + OrNotByte(ip[n], MaskByte(prefix, n))
  {
    var mask, short := CIDRMask(prefix, n + 1), CIDRMask(Within(prefix, n), n);
    MaskPrefix(prefix, n, Within(prefix, n));
    MaskedInit(ip, mask);
    BEInit(Masked(ip, mask), Masked(ip[..n], short), AndByte(ip[n], MaskByte(prefix, n)));
    BEInit(Filled(ip, mask), Filled(ip[..n], short), OrNotByte(ip[n], MaskByte(prefix, n)));
  }

  lemma PointBlock(v: nat, m: nat, lo: nat, hi: nat)
    requires m == 1 && v == lo == hi
    ensures Block(v, m, lo, hi)
  {
  }

  lemma LastByte(ip: seq<byte>, prefix: nat, n: nat)
    requires |ip| == n + 1
    ensures BE(ip) == BE(ip[..n]) * 256 + ip[n]
    ensures Low(ip, prefix) == Low(ip[..n], Within(prefix, n)) * 256 + LowByte(ip[n], prefix, n)
    ensures High(ip, prefix) == High(ip[..n], Within(prefix, n)) * 256 + HighByte(ip[n], prefix, n)
  {
  }

  /** Adding the last byte to the block of the bytes before it. */
  lemma LastByteBlock(q: nat, r: byte, prefix: nat, n: nat, before: nat, lo: nat, hi: nat)
    requires prefix <= 8 * (n + 1) && before == if prefix <= 8 * n then prefix else 8 * n
    requires Block(q, Pow2(8 * n - before), lo, hi)
    ensures Block(q * 256 + r, Pow2(8 * (n + 1) - prefix),
                  lo * 256 + LowByte(r, prefix, n), hi * 256 + HighByte(r, prefix, n))
  {
    if prefix <= 8 * n {
      HostByte(r, prefix, n);
      HostByteBlock(q, r, prefix, n, lo, hi);
    } else {
      WholeBlock(q, lo, hi);
      PrefixByteBlock(q, r, prefix, n);
    }
  }

  lemma NamedBlock(q: nat, r: byte, prefix: nat, n: nat, lo: nat, hi: nat, v: nat, low: nat, high: nat)
    requires prefix <= 8 * (n + 1)
    requires Block(q, Pow2(8 * n - Within(prefix, n)), lo, hi)
    requires v == q * 256 + r
    requires low == lo * 256 + LowByte(r, prefix, n) && high == hi * 256 + HighByte(r, prefix, n)
    ensures Block(v, Pow2(8 * (n + 1) - prefix), low, high)
  {
    LastByteBlock(q, r, prefix, n, Within(prefix, n), lo, hi);
  }

  /** The block of `n` bytes. */
  ghost predicate Bounded(ip: seq<byte>, n: nat, prefix: nat)
    requires prefix <= 8 * n
  {
    Block(BE(ip), Pow2(8 * n - prefix), Low(ip, prefix), High(ip, prefix))
  }

  lemma BlockStep(ip: seq<byte>, prefix: nat, n: nat)
    requires |ip| == n + 1 && prefix <= 8 * (n + 1)
    requires Bounded(ip[..n], n, Within(prefix, n))
    ensures Bounded(ip, n + 1, prefix)
  {
    LastByte(ip, prefix, n);
    NamedBlock(BE(ip[..n]), ip[n], prefix, n, Low(ip[..n], Within(prefix, n)), High(ip[..n], Within(prefix, n)),
               BE(ip), Low(ip, prefix), High(ip, prefix));
  }

  lemma {:induction false} BlockBounds(ip: seq<byte>, prefix: nat, n: nat)
    requires |ip| == n && prefix <= 8 * n
    ensures Bounded(ip, n, prefix)
  {
    if n == 0 {
      PointBlock(BE(ip), Pow2(8 * n - prefix), Low(ip, prefix), High(ip, prefix));
    } else {
      var k := n - 1;
      BlockBounds(ip[..k], Within(prefix, k), k);
      BlockStep(ip, prefix, k);
    }
  }

  /** The network part and the last address of the block, as integers. */
  lemma BlockValues(ip: seq<byte>, prefix: nat)
    requires prefix <= 8 * |ip|
    ensures Block(BE(ip), Pow2(8 * |ip| - prefix),
                  BE(Masked(ip, CIDRMask(prefix, |ip|))), BE(Filled(ip, CIDRMask(prefix, |ip|))))
  {
    BlockBounds(ip, prefix, |ip|);
    MaskedLow(ip, prefix);
  }

  // ---- comparison ----

  /** The bytewise comparison of two addresses of one length. */
  method IsGreaterOrEqual(a: seq<byte>, b: seq<byte>) returns (r: bool)
    requires |a| == |b|
    ensures r <==> BE(a) >= BE(b)
  {
    for i := 0 to |a|
      invariant a[..i] == b[..i]
    {
      if a[i] > b[i] {
        FirstDifference(b, a, i, |a|);
        assert a[..|a|] == a && b[..|b|] == b;
        return true;
      }
      if a[i] < b[i] {
        FirstDifference(a, b, i, |a|);
        assert a[..|a|] == a && b[..|b|] == b;
        return false;
      }
    }
    assert a == a[..|a|] == b[..|b|] == b;
    r := true;
  }

  lemma {:induction false} FirstDifference(a: seq<byte>, b: seq<byte>, i: nat, n: nat)
    requires i < n <= |a| == |b| && a[..i] == b[..i] && a[i] < b[i]
    ensures BE(a[..n]) < BE(b[..n])
    decreases n
  {
    assert a[..n][..n - 1] == a[..n - 1] && b[..n][..n - 1] == b[..n - 1];
    if i == n - 1 {
    } else {
      FirstDifference(a, b, i, n - 1);
    }
  }
}
