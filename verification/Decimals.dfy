/** Decimal digits, most significant first, and what they are worth. */
module Decimals {
  function Digits(n: nat): (r: seq<nat>)
    ensures |r| > 0 && (forall i | 0 <= i < |r| :: r[i] < 10)
  {
    if n < 10 then [n] else Digits(n / 10) + [n % 10]
  }

  function ValueOf(digits: seq<nat>): nat {
    if digits == [] then 0 else 10 * ValueOf(digits[..|digits| - 1]) + digits[|digits| - 1]
  }

  function Pow10(k: nat): (r: nat)
    ensures r > 0
  {
    if k == 0 then 1 else 10 * Pow10(k - 1)
  }

  lemma {:induction false} DigitsValue(n: nat)
    ensures ValueOf(Digits(n)) == n
    decreases n
  {
    if n < 10 {
      assert ValueOf([n]) == 10 * ValueOf([][..0]) + n;
    } else {
      DigitsValue(n / 10);
      assert Digits(n)[..|Digits(n)| - 1] == Digits(n / 10);
    }
  }

  lemma {:induction false} DigitCount(n: nat, k: nat)
    requires k > 0
    ensures |Digits(n)| <= k <==> n < Pow10(k)
    decreases n
  {
    if n < 10 {
      assert Pow10(k) == 10 * Pow10(k - 1);
    } else if k == 1 {
      assert Pow10(1) == 10 * Pow10(0);
    } else {
      DigitCount(n / 10, k - 1);
      assert Pow10(k) == 10 * Pow10(k - 1);
    }
  }

  lemma {:induction false} LeadingZeros(zeros: seq<nat>, digits: seq<nat>)
    requires forall i | 0 <= i < |zeros| :: zeros[i] == 0
    ensures ValueOf(zeros + digits) == ValueOf(digits)
    decreases |zeros| + |digits|
  {
    var all := zeros + digits;
    if digits != [] {
      LeadingZeros(zeros, digits[..|digits| - 1]);
      assert all[..|all| - 1] == zeros + digits[..|digits| - 1];
    } else if zeros != [] {
      LeadingZeros(zeros[..|zeros| - 1], []);
      assert all[..|all| - 1] == zeros[..|zeros| - 1] + [];
    }
  }
}
