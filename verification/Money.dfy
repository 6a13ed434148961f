/** Chat-facing money: printing minor units with grouped digits. */
module Money {
  import opened Base
  import opened Digits

  function UpperChar(c: char): char { if 'a' <= c <= 'z' then (c as int - 32) as char else c }

  function Upper(s: string): (r: string)
    ensures |r| == |s|
  {
    seq(|s|, i requires 0 <= i < |s| => UpperChar(s[i]))
  }

  function DecimalPlaces(currency: string): nat {
    if Upper(currency) in {"VND", "JPY", "KRW"} then 0 else 2
  }

  const DONG: char := '\U{20AB}'

  function SymbolOf(currency: string): string {
    if currency == "VND" then [DONG] else if currency == "AUD" then "A$" else if currency == "USD" then "$" else ""
  }

  // ----- grouping -----

  /** Groups of three from the right, with dots between them. */
  function Grouped(digits: string): string {
    if |digits| <= 3 then digits else Grouped(digits[..|digits| - 3]) + "." + digits[|digits| - 3..]
  }

  /** A dot goes before a digit that has a multiple of three digits from it to the end. */
  function Dot(length: nat, i: nat): string
    requires i < length
  {
    if i > 0 && (length - i) % 3 == 0 then "." else ""
  }

  /** What the loop has written after `i` digits. */
  function GroupedUpTo(digits: string, i: nat): string
    requires i <= |digits|
  {
    if i == 0 then ""
    else GroupedUpTo(digits, i - 1) + Dot(|digits|, i - 1) + [digits[i - 1]]
  }

  method GroupDigits(digits: string) returns (grouped: string)
    ensures grouped == Grouped(digits)
  {
    grouped := "";
    for i := 0 to |digits|
      invariant grouped == GroupedUpTo(digits, i)
    {
      if i > 0 && (|digits| - i) % 3 == 0 {
        grouped := grouped + ".";
      }
      grouped := grouped + [digits[i]];
    }
    LeftIsRight(digits);
  }

  lemma {:induction false} PrefixGroups(d: string, a: string, i: nat)
    requires |d| == |a| + 3 && a == d[..|a|] && i <= |a|
    ensures GroupedUpTo(d, i) == GroupedUpTo(a, i)
  {
    if i > 0 {
      PrefixGroups(d, a, i - 1);
      assert Dot(|d|, i - 1) == Dot(|a|, i - 1);
    }
  }

  lemma Step(d: string, i: nat)
    requires i < |d|
    ensures GroupedUpTo(d, i + 1) == GroupedUpTo(d, i) + Dot(|d|, i) + [d[i]]
  {
  }

  lemma DotsAtEnd(length: nat)
    requires length > 3
    ensures Dot(length, length - 3) == "." && Dot(length, length - 2) == "" && Dot(length, length - 1) == ""
  {
  }

  lemma ThreeMore(g: string, b: string, g1: string, g2: string, g3: string, dot: string, none: string)
    requires |b| == 3 && g1 == g + dot + [b[0]] && g2 == g1 + none + [b[1]] && g3 == g2 + none + [b[2]] && none == ""
    ensures g3 == g + dot + b
  {
  }

  lemma LastThree(d: string)
    requires |d| > 3
    ensures GroupedUpTo(d, |d|) == GroupedUpTo(d, |d| - 3) + "." + d[|d| - 3..]
  {
    var n := |d| - 3;
    DotsAtEnd(|d|);
    Step(d, n);
    Step(d, n + 1);
    Step(d, n + 2);
    var b := d[n..];
    assert b[0] == d[n] && b[1] == d[n + 1] && b[2] == d[n + 2];
    ThreeMore(GroupedUpTo(d, n), b, GroupedUpTo(d, n + 1), GroupedUpTo(d, n + 2), GroupedUpTo(d, n + 3), ".", "");
  }

  lemma {:induction false} ShortGroups(digits: string, i: nat)
    requires i <= |digits| <= 3
    ensures GroupedUpTo(digits, i) == digits[..i]
  {
    if i > 0 {
      ShortGroups(digits, i - 1);
      assert Dot(|digits|, i - 1) == "";
      assert digits[..i - 1] + "" + [digits[i - 1]] == digits[..i];
    }
  }

  /** Counting from the left or from the right gives the same groups. */
  lemma {:induction false} LeftIsRight(digits: string)
    ensures GroupedUpTo(digits, |digits|) == Grouped(digits)
  {
    if |digits| <= 3 {
      ShortGroups(digits, |digits|);
    } else {
      var a := digits[..|digits| - 3];
      LeftIsRight(a);
      assert GroupedUpTo(digits, |a|) == Grouped(a) by {
        PrefixGroups(digits, a, |a|);
      }
      LastThree(digits);
      assert Grouped(digits) == Grouped(a) + "." + digits[|a|..];
    }
  }

  // ----- printing -----

  const I64_MAX: int := 9223372036854775807

  predicate IsI64(n: int) { -I64_MAX - 1 <= n <= I64_MAX }

  function Padded(n: nat): string
    requires n < 100
  {
    [DigitChar(n / 10), DigitChar(n % 10)]
  }

  function FormatMinor(amount: int, currency: string): string {
    var cur := Upper(currency);
    var value: nat := if amount < 0 then -amount else amount;
    var sign := if amount < 0 then "-" else "";
    var number := if DecimalPlaces(cur) == 0 then Grouped(DigitsOf(value))
                  else Grouped(DigitsOf(value / 100)) + "," + Padded(value % 100);
    sign + number + " " + (if SymbolOf(cur) == "" then cur else SymbolOf(cur))
  }
}
