/** Decimal numerals. */
module Digits {

  predicate IsDigit(c: char) { '0' <= c <= '9' }

  predicate AllDigits(s: string) { forall i :: 0 <= i < |s| ==> IsDigit(s[i]) }

  function DigitValue(c: char): int
    requires IsDigit(c)
  {
    c as int - '0' as int
  }

  function DigitChar(d: int): (c: char)
    requires 0 <= d < 10
    ensures IsDigit(c) && DigitValue(c) == d
  {
    (d + '0' as int) as char
  }

  /** What a string of digits stands for. */
  function Numeral(s: string): (n: nat)
    requires AllDigits(s)
  {
    if s == "" then 0 else 10 * Numeral(s[..|s| - 1]) + DigitValue(s[|s| - 1])
  }

  function Power10(k: nat): (p: nat)
    ensures p > 0
  {
    if k == 0 then 1 else 10 * Power10(k - 1)
  }

  /** The numeral of `n`, without leading zeros. */
  function DigitsOf(n: nat): (s: string)
    ensures s != "" && AllDigits(s)
  {
    if n < 10 then [DigitChar(n)] else DigitsOf(n / 10) + [DigitChar(n % 10)]
  }

  lemma {:induction false} NumeralOfDigits(n: nat)
    ensures Numeral(DigitsOf(n)) == n
  {
    if n < 10 {
      assert DigitsOf(n)[..0] == "";
    } else {
      NumeralOfDigits(n / 10);
      assert DigitsOf(n)[..|DigitsOf(n)| - 1] == DigitsOf(n / 10);
    }
  }

  /** The numeral of `n` has at most `k` digits exactly when n < 10^k. */
  lemma {:induction false} DigitsLength(n: nat, k: nat)
    requires k > 0
    ensures |DigitsOf(n)| <= k <==> n < Power10(k)
  {
    if n >= 10 {
      if k == 1 {
        assert Power10(1) == 10 * Power10(0);
      } else {
        DigitsLength(n / 10, k - 1);
        assert n < 10 * Power10(k - 1) <==> n / 10 < Power10(k - 1);
      }
    } else {
      Power10Increases(1, k);
    }
  }

  lemma {:induction false} Power10Increases(j: nat, k: nat)
    requires j <= k
    ensures Power10(j) <= Power10(k)
  {
    if j < k {
      Power10Increases(j, k - 1);
    }
  }

  lemma {:induction false} NumeralBound(s: string)
    requires AllDigits(s)
    ensures Numeral(s) < Power10(|s|)
  {
    if s != "" {
      NumeralBound(s[..|s| - 1]);
    }
  }

  lemma {:induction false} NumeralConcat(a: string, b: string)
    requires AllDigits(a) && AllDigits(b)
    ensures AllDigits(a + b) && Numeral(a + b) == Numeral(a) * Power10(|b|) + Numeral(b)
    decreases |b|
  {
    if b == "" {
      assert a + b == a;
    } else {
      var c := b[..|b| - 1];
      NumeralConcat(a, c);
      assert (a + b)[..|a + b| - 1] == a + c;
      calc {
        Numeral(a + b);
        10 * (Numeral(a) * Power10(|c|) + Numeral(c)) + DigitValue(b[|b| - 1]);
        { assert 10 * (Numeral(a) * Power10(|c|)) == Numeral(a) * (10 * Power10(|c|)); }
        Numeral(a) * Power10(|b|) + Numeral(b);
      }
    }
  }
}
