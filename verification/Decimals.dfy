/** Numbers with one separator in them, with or without a multiplier behind: when the separator is a decimal
    point. And what the printed amounts denote. */
module Decimals {
  import opened Base
  import opened Digits
  import opened Money
  import opened Amounts
  import opened ChatAmounts
  import opened AmountRoundTrip
  import opened CodedCurrencies
  import opened Currencies
  import opened Tails

  // ----- a number and what stands behind it -----

  /** The `k`-th multiplier, in any case; past the last one, nothing. */
  predicate IsScale(m: string, k: nat) { if k < |CHAT.table| then IsMultiplier(m, k) else m == "" }

  function ScaleFactor(k: nat): int { if k < |CHAT.table| then CHAT.table[k].factor else 1 }

  function ScaleText(k: nat): string { if k < |CHAT.table| then CHAT.table[k].text else "" }

  lemma LowerScaled(g: string, m: string, k: nat)
    requires NumberLike(g) && IsScale(m, k)
    ensures Lower(g + m) == g + ScaleText(k) && |m| == |ScaleText(k)| && NoDigit(ScaleText(k)) && '-' !in m
  {
    LowerJoins(g, m);
    LowerKeepsNumbers(g);
    assert Lower("") == "";
    if k < |CHAT.table| {
      SixMultipliers();
      MultiplierHasNoDigit(k);
      LowerHas(m, '-');
    }
  }

  lemma ScaleEnds(m: string, k: nat)
    requires IsScale(m, k) && m != ""
    ensures !IsSpace(m[|m| - 1]) && m[|m| - 1] != DONG && m[|m| - 1] != '$'
  {
    MultiplierChars(k);
    SixMultipliers();
    var c := m[|m| - 1];
    assert Lower(m)[|m| - 1] == LowerChar(c);
    assert LowerChar(c) in CHAT.table[k].text;
  }

  lemma SplitsOff(n: Notation, b: string, g: string, m: string, k: nat)
    requires k < |n.table| && b == g + m && |m| == |n.table[k].text| && SuffixFrom(n, Lower(b), 0) == Some(k)
    requires Trim(g) == g && Trim(b) == b && Compact(g) == Ok(g) && Strip(g) != ""
    ensures Splits(n, b, g, n.table[k].factor)
  {
    assert b[..|b| - |n.table[k].text|] == g;
  }

  lemma ScaledSplits(g: string, m: string, k: nat)
    requires Printed(g) && Strip(g) != "" && IsScale(m, k)
    ensures Splits(CHAT, g + m, g, ScaleFactor(k))
  {
    LowerScaled(g, m, k);
    CompactNumber(g);
    TrimPrinted(g);
    if k < |CHAT.table| {
      var text := CHAT.table[k].text;
      forall j | 0 <= j < k ensures !IsSuffix(CHAT.table[j].text, g + text) {
        EarlierSuffix(g, j, k);
      }
      assert (g + text)[|g|..] == text;
      SuffixIs(CHAT, g + text, 0, k);
      if m != "" {
        ScaleEnds(m, k);
      }
      TrimNumber(g, m);
      SplitsOff(CHAT, g + m, g, m, k);
    } else {
      assert g + m == g;
      PrintedHasNoSuffix(g);
    }
  }

  /** A multiplier that occurs in `g + m` occurs in `m`, with no digits behind it. */
  lemma NothingBehind(g: string, m: string, k: nat, j: nat)
    requires Printed(g) && IsScale(m, k) && j < |CHAT.table| && FindFrom(Lower(g + m), CHAT.table[j].text, 0).Some?
    ensures var lower, text := Lower(g + m), CHAT.table[j].text; NoDigit(lower[FindFrom(lower, text, 0).value..][|text|..])
  {
    var lower, text := Lower(g + m), CHAT.table[j].text;
    var pos := FindFrom(lower, text, 0).value;
    LowerScaled(g, m, k);
    MultiplierStarts(j);
    PrefixHas(text, lower[pos..], 0);
    assert lower[pos] == text[0];
    assert pos >= |g|;
    assert forall i :: |g| <= i < |lower| ==> lower[i] == ScaleText(k)[i - |g|];
  }

  lemma CutOfScaled(g: string, m: string, k: nat, currency: string, j: nat)
    requires Printed(g) && IsScale(m, k) && j < |CHAT.table| && CutAt(CHAT, g + m, j).Some?
    ensures var cut := CutAt(CHAT, g + m, j).value;
      CutValue(CHAT, cut, CHAT.table[j].text, currency, AmountOf(CHAT, cut.after, currency)).None?
  {
    var lower, text := Lower(g + m), CHAT.table[j].text;
    var cut := CutAt(CHAT, g + m, j).value;
    NothingBehind(g, m, k, j);
    TrimNoDigit(lower[FindFrom(lower, text, 0).value..][|text|..]);
    AmountNeedsDigits(cut.after, currency);
    assert !IsDigit(cut.after[0]);
  }

  lemma {:induction false} NoCompoundOfScaled(g: string, m: string, k: nat, currency: string, j: nat)
    requires Printed(g) && IsScale(m, k) && j <= |CHAT.table|
    ensures CompoundFrom(CHAT, g + m, currency, j).None?
    decreases |CHAT.table| - j
  {
    if j < |CHAT.table| {
      if CutAt(CHAT, g + m, j).Some? {
        CutOfScaled(g, m, k, currency, j);
      }
      NoCompoundOfScaled(g, m, k, currency, j + 1);
    }
  }

  /** A number with a multiplier behind it, or none, is a single amount in the hinted currency. */
  lemma ScaledIsSingle(g: string, m: string, k: nat, hint: string)
    requires Printed(g) && Strip(g) != "" && IsScale(m, k)
    ensures AmountOf(CHAT, g + m, hint) == SingleOf(CHAT, g + m, HintOf(hint))
  {
    var s := g + m;
    if m != "" {
      ScaleEnds(m, k);
    }
    TrimNumber(g, m);
    LowerScaled(g, m, k);
    assert '-' !in s;
    assert s[0] == g[0] && s[|s| - 1] == if m == "" then g[|g| - 1] else m[|m| - 1];
    NoSymbolAround(s, hint);
    NoCompoundOfScaled(g, m, k, HintOf(hint), 0);
  }

  // ----- one separator -----

  /** Whether the separator is a decimal point. */
  predicate IsPoint(places: nat, factor: int, separator: char, decimals: nat) {
    if places == 0 then factor > 1 && decimals != 3 else separator == '.' && decimals == 2
  }

  function PlacesOf(hint: string): nat { if Upper(hint) in {"", "VND", "JPY", "KRW"} then 0 else 2 }

  lemma PlacesAre(hint: string)
    ensures CHAT.places(HintOf(hint)) == PlacesOf(hint)
  {
    ChatPlaces();
    if hint == "" {
      assert Upper(hint) == "";
    } else {
      UpperTwice(hint);
      assert |Upper(hint)| == |hint|;
    }
  }

  lemma PointMark(x: string, separator: char, y: string, places: nat, factor: int)
    requires Number(x) && Number(y) && IsSeparator(separator) && factor >= 1
    ensures DecimalMark(x + [separator] + y, places, factor) == if IsPoint(places, factor, separator, |y|) then Some(|x|) else None
  {
    var g := x + [separator] + y;
    LastSeparatorIs(x, separator, y);
    assert g[|x| + 1..] == y && g[|x|] == separator;
    StripDigits(y);
  }

  lemma ScaleFactors(k: nat)
    ensures ScaleFactor(k) in {1, 1_000, 1_000_000}
  {
  }

  lemma PointReading(x: string, separator: char, y: string, m: string, k: nat, currency: string)
    requires Number(x) && Number(y) && IsSeparator(separator) && IsScale(m, k)
    ensures AllDigits(x + y)
    ensures SingleOf(CHAT, x + [separator] + y + m, currency)
            == Value(CHAT, Reading(x + y, if IsPoint(CHAT.places(currency), ScaleFactor(k), separator, |y|) then |y| else 0, ScaleFactor(k)), currency)
  {
    var g := x + [separator] + y;
    StripDigits(x);
    JoinedIsPrinted(x, separator, y);
    ScaleFactors(k);
    ScaledSplits(g, m, k);
    ReadSplit(CHAT, g + m, g, ScaleFactor(k), currency);
    PointMark(x, separator, y, CHAT.places(currency), ScaleFactor(k));
    assert g[|x| + 1..] == y;
    StripDigits(y);
  }

  /** An accepted `X.Y` or `X,Y`, with any multiplier behind it or none, is X and the decimals Y, times the
      multiplier, exactly when: under a multiplier, Y does not have three digits, for a currency without decimal
      places; or the separator is a dot and Y has two digits, for the others (or all digits are zero).
      Otherwise it is as if the separator were not there. */
  lemma PointIsDecimalExactly(x: string, separator: char, y: string, m: string, k: nat, hint: string)
    requires Number(x) && Number(y) && IsSeparator(separator) && IsScale(m, k) && AmountOf(CHAT, x + [separator] + y + m, hint).Ok?
    ensures AllDigits(x + y)
    ensures var v, places := AmountOf(CHAT, x + [separator] + y + m, hint).value.minor, PlacesOf(hint);
      && (v * Power10(|y|) == Numeral(x + y) * ScaleFactor(k) * Power10(places)
          <==> IsPoint(places, ScaleFactor(k), separator, |y|) || Numeral(x + y) == 0)
      && (!IsPoint(places, ScaleFactor(k), separator, |y|) ==> v == Numeral(x + y) * ScaleFactor(k) * Power10(places))
  {
    var g := x + [separator] + y;
    StripDigits(x);
    JoinedIsPrinted(x, separator, y);
    ScaledIsSingle(g, m, k, hint);
    PlacesAre(hint);
    ScaleFactors(k);
    PointReading(x, separator, y, m, k, HintOf(hint));
    ReadAsWritten(CHAT, x + y, |y|, IsPoint(PlacesOf(hint), ScaleFactor(k), separator, |y|), ScaleFactor(k), HintOf(hint));
  }

  // ----- what is printed -----

  /** Dots before every third digit from the right, and nowhere else. */
  predicate InThrees(g: string) { forall i :: 0 <= i < |g| ==> (g[i] == '.' <==> (|g| - i) % 4 == 0) }

  lemma {:induction false} GroupedInThrees(d: string)
    requires AllDigits(d)
    ensures InThrees(Grouped(d)) && ',' !in Grouped(d)
  {
    if |d| > 3 {
      var a, b := d[..|d| - 3], d[|d| - 3..];
      GroupedInThrees(a);
      var g := Grouped(a);
      assert Grouped(d) == g + "." + b;
      forall i | 0 <= i < |g| ensures Grouped(d)[i] == '.' <==> (|Grouped(d)| - i) % 4 == 0 {
        assert Grouped(d)[i] == g[i];
      }
    }
  }

  /** The currency's symbol, or its code. */
  function Unit(currency: string): string {
    match Upper(currency)
    case "VND" => [DONG]
    case "AUD" => "A$"
    case "USD" => "$"
    case other => other
  }

  /** `whole`, in threes, and `cents` have the digits of `n`; there are two cents digits exactly for the
      currencies with decimal places, and none for the others. */
  predicate Denotes(whole: string, cents: string, n: nat, currency: string) {
    && Printed(whole) && InThrees(whole) && ',' !in whole
    && AllDigits(cents) && |cents| == (if Upper(currency) in {"VND", "JPY", "KRW"} then 0 else 2)
    && AllDigits(Strip(whole) + cents) && Numeral(Strip(whole) + cents) == n
  }

  lemma WholeDenotes(n: nat, currency: string)
    requires Upper(currency) in {"VND", "JPY", "KRW"}
    ensures Denotes(Grouped(DigitsOf(n)), "", n, currency)
  {
    GroupedIsPrinted(DigitsOf(n));
    GroupedInThrees(DigitsOf(n));
    NumeralOfDigits(n);
    assert DigitsOf(n) + "" == DigitsOf(n);
  }

  lemma CentsDenote(n: nat, currency: string)
    requires Upper(currency) !in {"VND", "JPY", "KRW"}
    ensures Denotes(Grouped(DigitsOf(n / 100)), Padded(n % 100), n, currency)
  {
    GroupedIsPrinted(DigitsOf(n / 100));
    GroupedInThrees(DigitsOf(n / 100));
    CentsNumeral(n);
  }

  /** A printed amount is a sign, the whole part, a comma and the cents if its currency has them, and its symbol or
      code; and it denotes the amount. */
  lemma PrintedDenotes(n: int, currency: string) returns (whole: string, cents: string)
    ensures FormatMinor(n, currency)
            == (if n < 0 then "-" else "") + (if cents == "" then whole else whole + "," + cents) + " " + Unit(currency)
    ensures Denotes(whole, cents, if n < 0 then -n else n, currency)
  {
    var value := if n < 0 then -n else n;
    UpperTwice(currency);
    if Upper(currency) in {"VND", "JPY", "KRW"} {
      whole, cents := Grouped(DigitsOf(value)), "";
      WholeDenotes(value, currency);
    } else {
      whole, cents := Grouped(DigitsOf(value / 100)), Padded(value % 100);
      CentsDenote(value, currency);
    }
  }
}
