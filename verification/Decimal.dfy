/** Decimal numerals as `%d` prints them. */
module Decimal {

  function Digit(d: nat): (c: char)
    requires d < 10
    ensures '0' <= c <= '9'
  {
    ['0', '1', '2', '3', '4', '5', '6', '7', '8', '9'][d]
  }

  predicate IsDigit(c: char) {
    '0' <= c <= '9'
  }

  function Numeral(n: nat): (s: string)
    ensures s != [] && forall i :: 0 <= i < |s| ==> IsDigit(s[i])
  {
    if n < 10 then [Digit(n)] else Numeral(n / 10) + [Digit(n % 10)]
  }

  lemma DigitInjective(a: nat, b: nat)
    requires a < 10 && b < 10 && Digit(a) == Digit(b)
    ensures a == b
  {
  }

  /** Different numbers have different numerals. */
  lemma {:induction false} NumeralInjective(a: nat, b: nat)
    requires Numeral(a) == Numeral(b)
    ensures a == b
  {
    var s, t := Numeral(a), Numeral(b);
    assert s[|s| - 1] == Digit(a % 10) && t[|t| - 1] == Digit(b % 10);
    DigitInjective(a % 10, b % 10);
    if a >= 10 && b >= 10 {
      assert s[..|s| - 1] == Numeral(a / 10) && t[..|t| - 1] == Numeral(b / 10);
      NumeralInjective(a / 10, b / 10);
    }
  }

  /** A numeral ends where the first character that is no digit stands, so two numerals
      followed by the same non-digit are the same when the texts agree. */
  lemma NumeralDelimited(a: nat, s: string, b: nat, t: string)
    requires s != [] && !IsDigit(s[0]) && t != [] && !IsDigit(t[0])
    requires Numeral(a) + s == Numeral(b) + t
    ensures a == b && s == t
  {
    var u := Numeral(a) + s;
    var i, j := |Numeral(a)|, |Numeral(b)|;
    assert u[i] == s[0] && u[j] == t[0];
    assert forall k :: 0 <= k < i ==> u[k] == Numeral(a)[k];
    assert forall k :: 0 <= k < j ==> u[k] == Numeral(b)[k];
    assert Numeral(a) == u[..i] && Numeral(b) == u[..j];
    NumeralInjective(a, b);
    assert s == u[i..] == t;
  }

  /** The same at the end of a text: what follows the last non-digit determines the number. */
  lemma NumeralAtEnd(s: string, a: nat, t: string, b: nat)
    requires s != [] && !IsDigit(s[|s| - 1]) && t != [] && !IsDigit(t[|t| - 1])
    requires s + Numeral(a) == t + Numeral(b)
    ensures a == b && s == t
  {
    var u := s + Numeral(a);
    var i, j := |s|, |t|;
    assert u[i - 1] == s[i - 1] && u[j - 1] == t[j - 1];
    assert forall k :: i <= k < |u| ==> u[k] == Numeral(a)[k - i];
    assert forall k :: j <= k < |u| ==> u[k] == Numeral(b)[k - j];
    assert s == u[..i] && t == u[..j];
    assert Numeral(a) == u[i..] && Numeral(b) == u[j..];
    NumeralInjective(a, b);
  }

  // ---- numerals read back ----

  /** The number that a text of digits stands for. */
  function Value(s: string): int {
    if s == [] then 0 else 10 * Value(s[..|s| - 1]) + (s[|s| - 1] as int - '0' as int)
  }

  lemma DigitValue(d: nat)
    requires d < 10
    ensures Digit(d) as int - '0' as int == d
  {
  }

  /** A numeral stands for its number, and has no leading zero. */
  lemma {:induction false} NumeralExact(n: nat)
    ensures Value(Numeral(n)) == n
    ensures if n == 0 then Numeral(n) == "0" else Numeral(n)[0] != '0'
  {
    DigitValue(n % 10);
    if n >= 10 {
      NumeralExact(n / 10);
      assert Numeral(n)[..|Numeral(n)| - 1] == Numeral(n / 10);
    } else {
      assert Numeral(n)[..0] == [];
    }
  }
}
