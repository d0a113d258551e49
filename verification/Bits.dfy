/** Powers of two, remainders, and the bitwise operations of a machine byte. */
module Bits {

  function Pow2(k: nat): (r: nat)
    ensures r >= 1
  {
    if k == 0 then 1 else 2 * Pow2(k - 1)
  }

  lemma {:induction false} Pow2Add(a: nat, b: nat)
    ensures Pow2(a + b) == Pow2(a) * Pow2(b)
  {
    if a > 0 {
      Pow2Add(a - 1, b);
      assert Pow2(a + b) == 2 * (Pow2(a - 1) * Pow2(b));
      assert 2 * (Pow2(a - 1) * Pow2(b)) == (2 * Pow2(a - 1)) * Pow2(b);
    }
  }

  lemma {:induction false} Pow2Monotone(a: nat, b: nat)
    requires a <= b
    ensures Pow2(a) <= Pow2(b)
  {
    if a < b {
      Pow2Monotone(a, b - 1);
    }
  }

  lemma {:induction false} MulNonNegative(m: nat, n: nat)
    ensures m * n >= 0
  {
    if n > 0 {
      MulNonNegative(m, n - 1);
      assert m * n == m * (n - 1) + m;
    }
  }

  lemma MulStep(m: int, a: int, b: int)
    requires m > 0 && a < b
    ensures m * a + m <= m * b
  {
    var c := b - a - 1;
    calc {
      m * b;
      m * (a + 1 + c);
      m * a + m + m * c;
    }
    MulNonNegative(m, c);
  }

  lemma ModUnique(a: int, m: int, k: int, r: int)
    requires m > 0 && a == m * k + r && 0 <= r < m
    ensures a % m == r && a / m == k
  {
    var q := a / m;
    assert a == m * q + a % m;
    if q < k {
      MulStep(m, q, k);
    } else if q > k {
      MulStep(m, k, q);
    }
  }

  lemma DigitBound(s: nat, base: nat, r: nat, m: nat)
    requires r < base && s < m
    ensures 0 <= s * base + r < base * m
  {
    MulStep(base, s, m);
  }

  lemma Regroup(m: nat, k: nat, s: nat, base: nat, r: nat)
    ensures (m * k + s) * base + r == (base * m) * k + (s * base + r)
  {
    assert (m * k + s) * base == m * k * base + s * base;
  }

  /** Splitting off the low digit of a remainder by a multiple of the base. */
  lemma ModDigit(q: nat, base: nat, r: nat, m: nat)
    requires base > 0 && r < base && m > 0
    ensures base * m > 0 && (q * base + r) % (base * m) == (q % m) * base + r
  {
    var k, s := q / m, q % m;
    Regroup(m, k, s, base, r);
    DigitBound(s, base, r, m);
    ModUnique(q * base + r, base * m, k, s * base + r);
  }

  /** A remainder by a divisor of the base only sees the low digit. */
  lemma ModLow(q: nat, base: nat, r: nat, m: nat)
    requires m > 0 && base % m == 0
    ensures (q * base + r) % m == r % m
  {
    var d := base / m;
    assert base == m * d;
    assert q * base + r == m * (q * d + r / m) + r % m by {
      assert r == m * (r / m) + r % m;
      assert q * (m * d) == m * (q * d);
    }
    ModUnique(q * base + r, m, q * d + r / m, r % m);
  }

  /** The remainder, by repeated subtraction: what the proofs below compute with. */
  function Rem(a: nat, m: nat): (r: nat)
    requires m > 0
    ensures r < m && r <= a
    decreases a
  {
    if a < m then a else Rem(a - m, m)
  }

  lemma {:induction false} RemIsMod(a: nat, m: nat)
    requires m > 0
    ensures Rem(a, m) == a % m
    decreases a
  {
    if a < m {
      ModUnique(a, m, 0, a);
    } else {
      RemIsMod(a - m, m);
      var k := (a - m) / m;
      ModUnique(a, m, k + 1, (a - m) % m);
    }
  }

  // ---- bitwise operations on `w`-bit numbers ----

  function And(w: nat, a: nat, b: nat): nat {
    if w == 0 then 0 else 2 * And(w - 1, a / 2, b / 2) + if a % 2 == 1 && b % 2 == 1 then 1 else 0
  }

  function Or(w: nat, a: nat, b: nat): nat {
    if w == 0 then 0 else 2 * Or(w - 1, a / 2, b / 2) + if a % 2 == 1 || b % 2 == 1 then 1 else 0
  }

  lemma HalfRem(a: nat, h: nat)
    requires h > 0
    ensures Rem(a, Pow2(h)) == 2 * Rem(a / 2, Pow2(h - 1)) + a % 2
  {
    ModDigit(a / 2, 2, a % 2, Pow2(h - 1));
    RemIsMod(a, Pow2(h));
    RemIsMod(a / 2, Pow2(h - 1));
  }

  lemma RemOne(a: nat)
    ensures Pow2(0) == 1 && Rem(a, 1) == 0
  {
  }

  lemma HalfMask(w: nat, h: nat)
    requires h <= w && w > 0
    ensures Pow2(w) >= Pow2(h)
    ensures var m := Pow2(w) - Pow2(h);
            if h > 0 then Pow2(w - 1) >= Pow2(h - 1) && m / 2 == Pow2(w - 1) - Pow2(h - 1) && m % 2 == 0
            else m / 2 == Pow2(w - 1) - 1 && m % 2 == 1
  {
    Pow2Monotone(h, w);
  }

  /** One more even bit below what was cleared, with the remainders given as numbers. */
  lemma ClearStep(a: nat, half: nat, rest: nat, cleared: nat)
    requires rest == 2 * half + a % 2 && cleared + half == a / 2
    ensures 2 * cleared == a - rest
  {
  }

  /** A mask of leading ones clears the low bits. */
  lemma {:induction false} AndMask(w: nat, a: nat, h: nat)
    requires h <= w && a < Pow2(w)
    ensures Pow2(w) >= Pow2(h) && And(w, a, Pow2(w) - Pow2(h)) == a - Rem(a, Pow2(h))
  {
    if w > 0 {
      HalfMask(w, h);
      if h > 0 {
        AndMask(w - 1, a / 2, h - 1);
        HalfRem(a, h);
        ClearStep(a, Rem(a / 2, Pow2(h - 1)), Rem(a, Pow2(h)), And(w - 1, a / 2, Pow2(w - 1) - Pow2(h - 1)));
      } else {
        AndMask(w - 1, a / 2, 0);
        RemOne(a / 2);
        RemOne(a);
      }
    }
  }

  lemma {:induction false} OrZero(w: nat, a: nat)
    requires a < Pow2(w)
    ensures Or(w, a, 0) == a
  {
    if w > 0 {
      OrZero(w - 1, a / 2);
    }
  }

  /** One more bit set below what was set, with the remainders given as numbers. */
  lemma SetStep(a: nat, half: nat, rest: nat, size: nat, ored: int)
    requires rest == 2 * half + a % 2 && ored == a / 2 - half + size - 1
    ensures 2 * ored + 1 == a - rest + 2 * size - 1
  {
  }

  lemma HalfHost(h: nat)
    requires h > 0
    ensures (Pow2(h) - 1) / 2 == Pow2(h - 1) - 1 && (Pow2(h) - 1) % 2 == 1
  {
  }

  /** The complement of the mask sets the low bits. */
  lemma {:induction false} OrHost(w: nat, a: nat, h: nat)
    requires h <= w && a < Pow2(w)
    ensures Or(w, a, Pow2(h) - 1) == a - Rem(a, Pow2(h)) + Pow2(h) - 1
  {
    if h == 0 {
      OrZero(w, a);
      RemOne(a);
    } else {
      OrHost(w - 1, a / 2, h - 1);
      HalfRem(a, h);
      HalfHost(h);
      SetStep(a, Rem(a / 2, Pow2(h - 1)), Rem(a, Pow2(h)), Pow2(h - 1), Or(w - 1, a / 2, Pow2(h - 1) - 1));
    }
  }
}
