/** Two currencies in one amount: a dollar sign behind `tr`, at any depth. */
module Millions {
  import opened Base
  import opened Digits
  import opened Money
  import opened Amounts
  import opened ChatAmounts
  import opened AmountRoundTrip
  import opened Currencies
  import opened Tails

  /** What may stand behind the multiplier here: digits, dollar signs and `tr` again. */
  predicate Tail(w: string) { w != "" && forall i :: 0 <= i < |w| ==> IsDigit(w[i]) || w[i] == '$' || w[i] == 't' || w[i] == 'r' }

  function Millions(x: string, w: string): string { x + "tr" + w }

  lemma MillionsLower(x: string, w: string)
    requires Number(x) && Tail(w)
    ensures Lower(Millions(x, w)) == Millions(x, w) && '-' !in Millions(x, w)
  {
  }

  lemma LetterIsAbsent(x: string, w: string, k: nat)
    requires Number(x) && Tail(w) && k < 4
    ensures |CHAT.table| == 6 && Letter(k) < |CHAT.table[k].text| && CHAT.table[k].text[Letter(k)] !in Millions(x, w)
  {
    SixMultipliers();
  }

  /** None of the longer multipliers occurs. */
  lemma EarlierCuts(x: string, w: string, k: nat)
    requires Number(x) && Tail(w) && k < 4
    ensures |CHAT.table| == 6 && CutAt(CHAT, Millions(x, w), k).None?
  {
    LetterIsAbsent(x, w, k);
    MillionsLower(x, w);
    FindNothing(Millions(x, w), CHAT.table[k].text, Letter(k), 0);
  }

  lemma LowerTail(w: string)
    requires Tail(w)
    ensures Lower(w) == w
  {
  }

  lemma TrimTail(w: string)
    requires Tail(w)
    ensures Trim(w) == w
  {
  }

  /** The amount is cut at `tr`. */
  lemma MillionsCut(x: string, w: string)
    requires Number(x) && Tail(w)
    ensures |CHAT.table| == 6 && CHAT.table[4].text == "tr"
    ensures CutAt(CHAT, Millions(x, w), 4) == Some(Cut(x, w))
  {
    SixMultipliers();
    LowerTail(w);
    TrimTail(w);
    assert Lower("tr") == "tr";
    ShorthandCut(x, "tr", w, 4);
  }

  lemma MillionsDetect(x: string, w: string)
    requires Number(x) && Tail(w) && IsDigit(w[|w| - 1])
    ensures Trim(Millions(x, w)) == Millions(x, w) && DetectFrom(CHAT.symbols, Millions(x, w), "VND", 0) == Detected("VND", Millions(x, w))
  {
    var s := Millions(x, w);
    assert s[0] == x[0] && s[|s| - 1] == w[|w| - 1];
    NoSymbolAround(s, "VND");
    ChatPlaces();
  }

  /** The parser goes by the cut at `tr`. */
  lemma MillionsAmount(x: string, w: string, rest: Result<Amount, AmountError>, r: Result<Amount, AmountError>)
    requires Number(x) && Tail(w) && IsDigit(w[|w| - 1]) && rest == AmountOf(CHAT, w, "VND")
    requires CutValue(CHAT, Cut(x, w), "tr", "VND", rest) == Some(r)
    ensures AmountOf(CHAT, Millions(x, w), "VND") == r
  {
    var s := Millions(x, w);
    MillionsDetect(x, w);
    MillionsLower(x, w);
    AmountIsBody(CHAT, s, "VND", Detected("VND", s));
    MillionsBody(x, w, rest, r);
  }

  lemma MillionsBody(x: string, w: string, rest: Result<Amount, AmountError>, r: Result<Amount, AmountError>)
    requires Number(x) && Tail(w) && rest == AmountOf(CHAT, w, "VND")
    requires CutValue(CHAT, Cut(x, w), "tr", "VND", rest) == Some(r)
    ensures BodyOf(CHAT, Millions(x, w), "VND") == r
  {
    MillionsCut(x, w);
    forall k | 0 <= k < 4 ensures CutAt(CHAT, Millions(x, w), k).None? {
      EarlierCuts(x, w, k);
    }
    BodyAtCut(CHAT, Millions(x, w), "VND", 4, Cut(x, w));
  }

  // ----- two currencies in one amount -----

  lemma DetectDollarPart(y: string)
    requires Number(y)
    ensures Trim("$" + y) == "$" + y && DetectFrom(CHAT.symbols, "$" + y, "VND", 0) == Detected("USD", y)
  {
    var s := "$" + y;
    assert s[0] == '$' && s[|s| - 1] == y[|y| - 1] && s[..1] == "$" && s[1..] == y;
    ChatSymbols();
    PrefixHas("A$", s, 0);
    SuffixEnds("A$", s);
    PrefixHas([DONG], s, 0);
    SuffixEnds([DONG], s);
    TrimTail(y);
    assert DetectFrom(CHAT.symbols, s, "VND", 2) == Detected("USD", y);
    assert DetectFrom(CHAT.symbols, s, "VND", 1) == Detected("USD", y);
  }

  lemma DollarPart(y: string)
    requires Number(y) && |y| <= 15
    ensures AmountOf(CHAT, "$" + y, "VND") == Ok(Amount(Numeral(y) * 100, "USD"))
  {
    DetectDollarPart(y);
    assert '-' !in "$" + y;
    NoCompound(y, "USD", 0);
    WholeDollars(y);
  }

  lemma WholeDollars(y: string)
    requires Number(y) && |y| <= 15
    ensures SingleOf(CHAT, y, "USD") == Ok(Amount(Numeral(y) * 100, "USD"))
  {
    StripDigits(y);
    NoSeparator(y);
    ReadPrinted(y, "USD");
    ChatPlaces();
    PlainValue(CHAT, y, "USD");
  }

  lemma NoSeparator(x: string)
    requires AllDigits(x)
    ensures LastSeparator(x).None?
  {
  }

  lemma BelowThousandMillion(x: string)
    requires AllDigits(x) && |x| <= 9
    ensures Numeral(x) < 1_000_000_000
  {
    NumeralBound(x);
    Power10Increases(|x|, 9);
    assert Power10(3) == 1_000;
    assert Power10(6) == 1_000 * Power10(3) && Power10(9) == 1_000 * Power10(6);
  }

  lemma MillionsValue(n: Notation, x: string, currency: string)
    requires Number(x) && |x| <= 9 && n.places(currency) == 0
    ensures Value(n, Reading(x, 0, 1_000_000), currency) == Ok(Amount(Numeral(x) * 1_000_000, Upper(currency)))
  {
    BelowThousandMillion(x);
    assert Power10(0) == 1;
  }

  lemma WholeMillions(x: string)
    requires Number(x) && |x| <= 9
    ensures SingleOf(CHAT, x + "tr", "VND") == Ok(Amount(Numeral(x) * 1_000_000, "VND"))
  {
    StripDigits(x);
    NoSeparator(x);
    ChatPlaces();
    SixMultipliers();
    ReadMultiple(x, 4, "VND");
    MillionsValue(CHAT, x, "VND");
  }

  lemma DollarTail(y: string)
    requires Number(y)
    ensures var w := "$" + y; Tail(w) && !AllDigits(w) && IsDigit(w[|w| - 1])
  {
    var w := "$" + y;
    assert w[0] == '$' && w[|w| - 1] == y[|y| - 1];
    forall i | 0 <= i < |w| ensures IsDigit(w[i]) || w[i] == '$' {
      assert i > 0 ==> w[i] == y[i - 1];
    }
  }

  lemma CutAdds(n: Notation, cut: Cut, text: string, currency: string, a: Amount, b: Amount, v: int)
    requires !AllDigits(cut.after) && SingleOf(n, cut.before + text, currency) == Ok(a) && a.minor + b.minor == v <= I64_MAX
    ensures CutValue(n, cut, text, currency, Ok(b)) == Some(Ok(Amount(v, currency)))
  {
  }

  /** What stands behind `tr` is added to the millions. */
  lemma MillionsAdd(x: string, w: string, a: Amount, b: Amount, v: int)
    requires Number(x) && Tail(w) && !AllDigits(w) && IsDigit(w[|w| - 1]) && a.minor + b.minor == v <= I64_MAX
    requires SingleOf(CHAT, x + "tr", "VND") == Ok(a) && AmountOf(CHAT, w, "VND") == Ok(b)
    ensures AmountOf(CHAT, Millions(x, w), "VND") == Ok(Amount(v, "VND"))
  {
    CutAdds(CHAT, Cut(x, w), "tr", "VND", a, b, v);
    MillionsAmount(x, w, Ok(b), Ok(Amount(v, "VND")));
  }

  lemma SumFits(x: string, y: string, z: string)
    requires AllDigits(x) && |x| <= 9 && AllDigits(y) && |y| <= 9 && AllDigits(z) && |z| <= 15
    ensures Numeral(x) * 1_000_000 + (Numeral(y) * 1_000_000 + Numeral(z) * 100) <= I64_MAX
  {
    BelowThousandMillion(x);
    BelowThousandMillion(y);
    FitsI64(z);
  }

  /** A dollar sign inside the amount is not noticed: `1tr$5` adds five hundred cents to a million
      dong and calls the sum dong. */
  lemma MixedCurrenciesAreAdded(x: string, y: string) returns (v: int)
    requires Number(x) && |x| <= 9 && Number(y) && |y| <= 15
    ensures v == Numeral(x) * 1_000_000 + Numeral(y) * 100
    ensures AmountOf(CHAT, Millions(x, "$" + y), "VND") == Ok(Amount(v, "VND"))
  {
    SumFits(x, "", y);
    DollarTail(y);
    DollarPart(y);
    WholeMillions(x);
    v := Numeral(x) * 1_000_000 + Numeral(y) * 100;
    MillionsAdd(x, "$" + y, SingleOf(CHAT, x + "tr", "VND").value, AmountOf(CHAT, "$" + y, "VND").value, v);
  }

  lemma MillionsTail(y: string, w: string)
    requires Number(y) && Tail(w) && IsDigit(w[|w| - 1])
    ensures var s := Millions(y, w); Tail(s) && !AllDigits(s) && IsDigit(s[|s| - 1])
  {
    var s := Millions(y, w);
    assert s[|y|] == 't' && s[|s| - 1] == w[|w| - 1];
  }

  /** Nor is one further inside, where the tail itself is read as dong: `1tr2tr$5`. */
  lemma NestedCurrenciesAreAdded(x: string, y: string, z: string) returns (v: int)
    requires Number(x) && |x| <= 9 && Number(y) && |y| <= 9 && Number(z) && |z| <= 15
    ensures v == Numeral(x) * 1_000_000 + (Numeral(y) * 1_000_000 + Numeral(z) * 100)
    ensures var tail := Millions(y, "$" + z);
      && AmountOf(CHAT, Millions(x, tail), "VND") == Ok(Amount(v, "VND"))
      && DetectFrom(CHAT.symbols, Trim(tail), "VND", 0).currency == "VND"
      && !AllIn(Parts(CHAT, Millions(x, tail), "VND"), "VND")
  {
    var tail := Millions(y, "$" + z);
    v := NestedSum(x, y, z);
    NestedMark(x, y, z);
    DollarTail(z);
    MillionsTail(y, "$" + z);
    MillionsDetect(x, tail);
    MillionsDetect(y, "$" + z);
    OneCurrencyExactly(Millions(x, tail), "VND");
  }

  lemma NestedSum(x: string, y: string, z: string) returns (v: int)
    requires Number(x) && |x| <= 9 && Number(y) && |y| <= 9 && Number(z) && |z| <= 15
    ensures v == Numeral(x) * 1_000_000 + (Numeral(y) * 1_000_000 + Numeral(z) * 100)
    ensures AmountOf(CHAT, Millions(x, Millions(y, "$" + z)), "VND") == Ok(Amount(v, "VND"))
  {
    var tail := Millions(y, "$" + z);
    SumFits(x, y, z);
    DollarTail(z);
    MillionsTail(y, "$" + z);
    WholeMillions(x);
    var rest := MixedCurrenciesAreAdded(y, z);
    v := Numeral(x) * 1_000_000 + rest;
    MillionsAdd(x, tail, SingleOf(CHAT, x + "tr", "VND").value, AmountOf(CHAT, tail, "VND").value, v);
  }

  lemma NestedMark(x: string, y: string, z: string)
    ensures '$' in Millions(x, Millions(y, "$" + z))
  {
    assert Millions(x, Millions(y, "$" + z))[|x| + 2 + |y| + 2] == '$';
  }
}
