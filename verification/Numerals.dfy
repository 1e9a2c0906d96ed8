/** Numbers written in decimal. */
module Numerals {
  import opened Prelude

  predicate IsDigit(c: char) {
    '0' <= c <= '9'
  }

  function Digit(n: nat): (c: char)
    requires n < 10
    ensures IsDigit(c) && c as int - '0' as int == n
  {
    '0' + n as char
  }

  /** Python's `str` of a non-negative integer. */
  function Decimal(n: nat): (s: string)
    ensures s != "" && forall i :: 0 <= i < |s| ==> IsDigit(s[i])
  {
    if n < 10 then [Digit(n)] else Decimal(n / 10) + [Digit(n % 10)]
  }

  lemma {:induction false} DecimalInjective(m: nat, n: nat)
    requires Decimal(m) == Decimal(n)
    ensures m == n
    decreases m
  {
    assert Last(Decimal(m)) == Digit(m % 10) && Last(Decimal(n)) == Digit(n % 10);
    if m < 10 || n < 10 {
      assert |Decimal(m)| == 1 && |Decimal(n)| == 1;
    } else {
      assert Decimal(m)[..|Decimal(m)| - 1] == Decimal(m / 10);
      assert Decimal(n)[..|Decimal(n)| - 1] == Decimal(n / 10);
      DecimalInjective(m / 10, n / 10);
    }
  }

  /** The digits a text opens with. */
  function Digits(t: string): (digits: string)
    ensures forall i :: 0 <= i < |digits| ==> IsDigit(digits[i])
    ensures digits <= t
  {
    if t == "" || !IsDigit(t[0]) then "" else [t[0]] + Digits(t[1..])
  }

  lemma {:induction false} DigitsInFront(digits: string, behind: string)
    requires (forall c :: c in digits ==> IsDigit(c)) && behind != "" && !IsDigit(behind[0])
    ensures Digits(digits + behind) == digits
  {
    if digits == "" {
      assert digits + behind == behind;
    } else {
      DigitsInFront(digits[1..], behind);
      assert (digits + behind)[1..] == digits[1..] + behind;
    }
  }

  /** The number some digits stand for. */
  function Value(digits: string): nat
    requires forall i :: 0 <= i < |digits| ==> IsDigit(digits[i])
  {
    if digits == "" then 0
    else
      var last := Last(digits);
      assert IsDigit(last);
      Value(digits[..|digits| - 1]) * 10 + (last as int - '0' as int)
  }

  /** A number written in decimal reads back. */
  lemma {:induction false} DecimalReads(n: nat)
    ensures Value(Decimal(n)) == n
  {
    var digits := Decimal(n);
    if n < 10 {
      assert digits[..0] == "";
    } else {
      DecimalReads(n / 10);
      assert digits[..|digits| - 1] == Decimal(n / 10) && Last(digits) == Digit(n % 10);
    }
  }
}
