/** Decimal printing of natural numbers, as `%d` does it. */
module Decimal {

  function Digit(d: nat): (c: char)
    requires d < 10
    ensures '0' <= c <= '9'
  {
    "0123456789"[d]
  }

  function Print(n: nat): (s: string)
    ensures |s| > 0 && forall i | 0 <= i < |s| :: '0' <= s[i] <= '9'
  {
    if n < 10 then [Digit(n)] else Print(n / 10) + [Digit(n % 10)]
  }

  function Pow10(k: nat): (p: nat)
    ensures p > 0
  {
    if k == 0 then 1 else 10 * Pow10(k - 1)
  }

  lemma DigitInjective(c: nat, d: nat)
    requires c < 10 && d < 10 && Digit(c) == Digit(d)
    ensures c == d
  {
    var digits := "0123456789";
    assert forall k | 0 <= k < 10 :: digits[k] as int == 48 + k;
  }

  /** Different numbers print differently. */
  lemma {:induction false} PrintInjective(m: nat, n: nat)
    requires Print(m) == Print(n)
    ensures m == n
  {
    var s := Print(m);
    if |s| == 1 {
      DigitInjective(m, n);
    } else {
      assert Print(m)[|s| - 1] == Digit(m % 10) && Print(n)[|s| - 1] == Digit(n % 10);
      DigitInjective(m % 10, n % 10);
      assert Print(m)[..|s| - 1] == Print(m / 10);
      assert Print(n)[..|s| - 1] == Print(n / 10);
      PrintInjective(m / 10, n / 10);
    }
  }

  /** A number has at most `k` digits exactly when it is below the `k`-th power of ten. */
  lemma {:induction false} DigitsIff(n: nat, k: nat)
    requires k > 0
    ensures |Print(n)| <= k <==> n < Pow10(k)
  {
    if n < 10 {
      assert Pow10(k) >= 10 by {
        assert Pow10(k) == 10 * Pow10(k - 1);
      }
    } else if k > 1 {
      DigitsIff(n / 10, k - 1);
    } else {
      assert Pow10(1) == 10;
    }
  }

  lemma DigitsGrow(m: nat, n: nat)
    requires m <= n
    ensures |Print(m)| <= |Print(n)|
  {
    DigitsIff(n, |Print(n)|);
    DigitsIff(m, |Print(n)|);
  }
}
