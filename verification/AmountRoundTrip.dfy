/** Printed amounts read back, and what the shorthand of millions comes to. */
module AmountRoundTrip {
  import opened Base
  import opened Digits
  import opened Money
  import opened Amounts
  import opened ChatAmounts

  // ----- text without letters -----

  lemma SuffixEnds(p: string, s: string)
    requires p != ""
    ensures IsSuffix(p, s) ==> s != "" && s[|s| - 1] == p[|p| - 1]
  {
  }

  lemma PrefixHas(p: string, s: string, j: nat)
    requires j < |p|
    ensures IsPrefix(p, s) ==> j < |s| && s[j] == p[j]
  {
  }

  /** A text that lacks a character of `p` does not contain `p`. */
  lemma FindNothing(s: string, p: string, j: nat, i: nat)
    requires i <= |s| && j < |p| && p[j] !in s
    ensures FindFrom(s, p, i).None?
  {
  }

  /** The last letters of the multipliers. */
  predicate EndsMultiplier(c: char) { c == 'u' || c == '\U{1EE7}' || c == 'r' || c == 'k' }

  lemma MultiplierLetters(k: nat)
    requires k < 6
    ensures |CHAT.table| == 6
    ensures var text := CHAT.table[k].text; text != "" && EndsMultiplier(text[|text| - 1])
    ensures k < 2 ==> 'u' in CHAT.table[k].text
    ensures k == 2 || k == 3 ==> 'c' in CHAT.table[k].text
    ensures CHAT.table[4] == Multiplier("tr", 1_000_000)
    ensures CHAT.table[5] == Multiplier("k", 1_000)
  {
  }

  lemma NoMultiplierSuffix(lower: string, k: nat)
    requires k <= |CHAT.table| && lower != "" && !EndsMultiplier(lower[|lower| - 1])
    ensures SuffixFrom(CHAT, lower, k).None?
  {
  }

  lemma LowerKeepsNumbers(s: string)
    requires NumberLike(s)
    ensures Lower(s) == s
  {
  }

  lemma NoMultiplierIn(s: string, k: nat)
    requires NumberLike(s) && k < |CHAT.table|
    ensures CutAt(CHAT, s, k).None?
  {
    LowerKeepsNumbers(s);
    MultiplierLetters(k);
    var text := CHAT.table[k].text;
    FindNothing(s, text, |text| - 1, 0);
  }

  lemma {:induction false} NoCompound(s: string, currency: string, k: nat)
    requires NumberLike(s) && k <= |CHAT.table|
    ensures CompoundFrom(CHAT, s, currency, k).None?
    decreases |CHAT.table| - k
  {
    if k < |CHAT.table| {
      NoMultiplierIn(s, k);
      NoCompound(s, currency, k + 1);
    }
  }

  lemma {:induction false} CompactNumber(s: string)
    requires NumberLike(s)
    ensures Compact(s) == Ok(s)
  {
    if s != "" {
      CompactNumber(s[..|s| - 1]);
      assert s[..|s| - 1] + [s[|s| - 1]] == s;
    }
  }

  /** A number as printed: digits and separators, from a digit to a digit. */
  predicate Printed(s: string) { s != "" && NumberLike(s) && IsDigit(s[0]) && IsDigit(s[|s| - 1]) }

  lemma TrimPrinted(s: string)
    requires Printed(s)
    ensures Trim(s) == s && Trim(s + " ") == s
  {
  }

  lemma PrintedHasNoSuffix(s: string)
    requires Printed(s)
    ensures WithoutSuffix(CHAT, s) == s && FactorOf(CHAT, s) == 1
  {
    LowerKeepsNumbers(s);
    NoMultiplierSuffix(s, 0);
  }

  /** Reading, with the suffix already taken off. */
  lemma ReadParts(n: Notation, b: string, g: string, factor: int, currency: string)
    requires Trim(b) == b && WithoutSuffix(n, b) == g && FactorOf(n, b) == factor && Compact(g) == Ok(g) && Strip(g) != ""
    ensures var mark := DecimalMark(g, n.places(currency), factor);
      Read(n, b, currency) == Ok(Reading(Strip(g), if mark.Some? then |Strip(g[mark.value + 1..])| else 0, factor))
  {
  }

  /** A printed number on its own is read without a multiplier. */
  lemma ReadPrinted(s: string, currency: string)
    requires Printed(s) && Strip(s) != ""
    ensures Read(CHAT, s, currency).Ok?
    ensures var r := Read(CHAT, s, currency).value; var mark := DecimalMark(s, CHAT.places(currency), 1);
      r.digits == Strip(s) && r.factor == 1 && r.decimals == if mark.Some? then |Strip(s[mark.value + 1..])| else 0
  {
    TrimPrinted(s);
    PrintedHasNoSuffix(s);
    CompactNumber(s);
    ReadParts(CHAT, s, s, 1, currency);
  }

  // ----- dong -----

  lemma {:induction false} GroupedIsPrinted(d: string)
    requires d != "" && AllDigits(d)
    ensures Printed(Grouped(d)) && Strip(Grouped(d)) == d
  {
    if |d| <= 3 {
      StripDigits(d);
    } else {
      var a, b := d[..|d| - 3], d[|d| - 3..];
      GroupedIsPrinted(a);
      assert Grouped(d) == Grouped(a) + ['.'] + b;
      JoinedIsPrinted(Grouped(a), '.', b);
      assert Strip(Grouped(d)) == a + b == d;
    }
  }

  lemma JoinedIsPrinted(g: string, separator: char, b: string)
    requires Printed(g) && IsSeparator(separator) && b != "" && AllDigits(b)
    ensures Printed(g + [separator] + b) && Strip(g + [separator] + b) == Strip(g) + b
  {
    StripAround(g, separator, b);
    StripDigits(b);
    JoinedNumberLike(g, separator, b);
  }

  lemma JoinedNumberLike(g: string, separator: char, b: string)
    requires NumberLike(g) && IsSeparator(separator) && AllDigits(b)
    ensures NumberLike(g + [separator] + b)
  {
  }

  lemma {:induction false} StripDigits(d: string)
    requires AllDigits(d)
    ensures Strip(d) == d
  {
    if d != "" {
      StripDigits(d[..|d| - 1]);
      assert d[..|d| - 1] + [d[|d| - 1]] == d;
    }
  }

  lemma TrimWhole(s: string, tail: string)
    requires Printed(s) && tail != "" && !IsSpace(tail[|tail| - 1])
    ensures Trim(s + " " + tail) == s + " " + tail
  {
  }

  lemma NoMinus(s: string, tail: string)
    requires NumberLike(s) && '-' !in tail
    ensures '-' !in s + " " + tail
  {
  }

  lemma ChatSymbols()
    ensures CHAT.symbols == [Symbol("A$", "AUD"), Symbol([DONG], "VND"), Symbol("$", "USD")]
  {
  }

  function HintOf(hint: string): string { if hint == "" then "VND" else Upper(hint) }

  lemma {:induction false} NoSymbol(symbols: seq<Symbol>, s: string, hint: string, k: nat)
    requires k <= |symbols| && forall i :: k <= i < |symbols| ==> !IsPrefix(symbols[i].text, s) && !IsSuffix(symbols[i].text, s)
    ensures DetectFrom(symbols, s, hint, k) == Detected(HintOf(hint), s)
    decreases |symbols| - k
  {
    if k < |symbols| {
      NoSymbol(symbols, s, hint, k + 1);
    }
  }

  lemma SymbolEnds(k: nat)
    requires k < |CHAT.symbols|
    ensures var text := CHAT.symbols[k].text;
      text != "" && text[0] in {'A', DONG, '$'} && text[|text| - 1] in {DONG, '$'}
  {
    ChatSymbols();
  }

  /** A text from a digit to a digit or a letter has no symbol before or after it. */
  lemma NoSymbolAround(s: string, hint: string)
    requires s != "" && IsDigit(s[0]) && s[|s| - 1] != DONG && s[|s| - 1] != '$'
    ensures DetectFrom(CHAT.symbols, s, hint, 0) == Detected(HintOf(hint), s)
  {
    forall k | 0 <= k < |CHAT.symbols| ensures !IsPrefix(CHAT.symbols[k].text, s) && !IsSuffix(CHAT.symbols[k].text, s) {
      SymbolEnds(k);
      PrefixHas(CHAT.symbols[k].text, s, 0);
      SuffixEnds(CHAT.symbols[k].text, s);
    }
    NoSymbol(CHAT.symbols, s, hint, 0);
  }

  /** A number with the dong sign behind it. */
  lemma DetectDong(s: string, hint: string)
    requires Printed(s)
    ensures DetectFrom(CHAT.symbols, s + " " + [DONG], hint, 0) == Detected("VND", s)
  {
    var whole := s + " " + [DONG];
    ChatSymbols();
    assert whole[0] == s[0] && whole[|whole| - 1] == DONG;
    PrefixHas("A$", whole, 0);
    SuffixEnds("A$", whole);
    PrefixHas([DONG], whole, 0);
    assert whole[|whole| - 1..] == [DONG];
    assert whole[..|whole| - 1] == s + " ";
    TrimPrinted(s);
  }

  lemma ChatPlaces()
    ensures CHAT.places("VND") == 0 && CHAT.places("USD") == 2 && CHAT.places("AUD") == 2
    ensures Upper("VND") == "VND" && Upper("USD") == "USD" && Upper("AUD") == "AUD"
  {
    assert Upper("VND") == "VND" && Upper("USD") == "USD" && Upper("AUD") == "AUD";
    assert "USD"[0] == 'U' && "AUD"[0] == 'A' && "VND"[0] == 'V' && "JPY"[0] == 'J' && "KRW"[0] == 'K';
  }

  /** A whole number of a currency with `places` decimal places. */
  lemma PlainValue(n: Notation, digits: string, currency: string)
    requires digits != "" && AllDigits(digits) && (n.places(currency) == 0 || n.places(currency) == 2)
    ensures Value(n, Reading(digits, 0, 1), currency)
            == if |digits| > 15 then Err(TooLarge)
               else Ok(Amount(Numeral(digits) * (if n.places(currency) == 2 then 100 else 1), Upper(currency)))
  {
    assert Power10(0) == 1 && Power10(2) == 100;
    if |digits| <= 15 {
      FitsI64(digits);
    }
  }

  /** A printed number with a currency symbol behind it is read as a single amount. */
  lemma AmountIsSingle(s: string, tail: string, currency: string, hint: string)
    requires Printed(s) && tail != "" && !IsSpace(tail[|tail| - 1]) && '-' !in tail
    requires DetectFrom(CHAT.symbols, s + " " + tail, hint, 0) == Detected(currency, s)
    ensures AmountOf(CHAT, s + " " + tail, hint) == SingleOf(CHAT, s, currency)
  {
    TrimWhole(s, tail);
    NoMinus(s, tail);
    NoCompound(s, currency, 0);
  }

  /** What the dong printer prints, and what the parser makes of it. */
  lemma ParsePrintedDong(s: string, hint: string)
    requires Printed(s) && Strip(s) != ""
    ensures AmountOf(CHAT, s + " " + [DONG], hint)
            == if |Strip(s)| > 15 then Err(TooLarge) else Ok(Amount(Numeral(Strip(s)), "VND"))
  {
    DetectDong(s, hint);
    AmountIsSingle(s, [DONG], "VND", hint);
    ChatPlaces();
    ReadPrinted(s, "VND");
    PlainValue(CHAT, Strip(s), "VND");
  }

  lemma FormatDong(n: int)
    ensures FormatMinor(n, "VND") == (if n < 0 then "-" else "") + PrintedDong(if n < 0 then -n else n)
  {
  }

  function PrintedDong(n: nat): string { Grouped(DigitsOf(n)) + " " + [DONG] }

  lemma PrintedDongBack(n: nat, hint: string)
    ensures AmountOf(CHAT, PrintedDong(n), hint) == if n < Power10(15) then Ok(Amount(n, "VND")) else Err(TooLarge)
  {
    GroupedIsPrinted(DigitsOf(n));
    NumeralOfDigits(n);
    DigitsLength(n, 15);
    ParsePrintedDong(Grouped(DigitsOf(n)), hint);
  }

  /** Parsing a printed dong amount gives it back, whatever the hint, exactly for 0 .. 10^15 - 1; a
      negative one is refused as negative, a larger one as too large. */
  lemma DongRoundTrip(n: int, hint: string)
    requires IsI64(n)
    ensures AmountOf(CHAT, FormatMinor(n, "VND"), hint)
            == if n < 0 then Err(Negative) else if n < Power10(15) then Ok(Amount(n, "VND")) else Err(TooLarge)
    ensures AmountOf(CHAT, FormatMinor(n, "VND"), hint) == Ok(Amount(n, "VND")) <==> 0 <= n < Power10(15)
  {
    var text := FormatMinor(n, "VND");
    FormatDong(n);
    if n < 0 {
      NegativeIsRefused(PrintedDong(-n), hint);
      assert text == "-" + PrintedDong(-n);
    } else {
      PrintedDongBack(n, hint);
      assert text == PrintedDong(n);
    }
  }

  lemma NegativeIsRefused(s: string, hint: string)
    requires s != "" && !IsSpace(s[|s| - 1])
    ensures AmountOf(CHAT, "-" + s, hint) == Err(Negative)
  {
  }

  // ----- currencies with two decimal places -----

  /** Dollars are printed with a comma before the cents, which the parser takes for grouping. */
  lemma SingleDollars(s: string, cents: string, digits: string, currency: string)
    requires Printed(s) && |cents| == 2 && AllDigits(cents) && currency in {"USD", "AUD"}
    requires digits == Strip(s) + cents && AllDigits(digits)
    ensures SingleOf(CHAT, s + [','] + cents, currency)
            == if |digits| > 15 then Err(TooLarge) else Ok(Amount(Numeral(digits) * 100, currency))
  {
    var g := s + [','] + cents;
    JoinedIsPrinted(s, ',', cents);
    ChatPlaces();
    CommaIsNoMark(s, cents);
    ReadPrinted(g, currency);
    PlainValue(CHAT, digits, currency);
  }

  lemma DetectDollar(s: string, currency: string, hint: string)
    requires Printed(s) && currency in {"USD", "AUD"}
    ensures DetectFrom(CHAT.symbols, s + " " + SymbolOf(currency), hint, 0) == Detected(currency, s)
  {
    ChatSymbols();
    TrimPrinted(s);
    if currency == "AUD" {
      var whole := s + " " + "A$";
      assert whole[0] == s[0];
      PrefixHas("A$", whole, 0);
      assert whole[|whole| - 2..] == "A$" && whole[..|whole| - 2] == s + " ";
    } else {
      var whole := s + " " + "$";
      assert whole[0] == s[0] && whole[|whole| - 1] == '$' && whole[|whole| - 2] == ' ';
      PrefixHas("A$", whole, 0);
      assert whole[|whole| - 2..][0] == ' ';
      PrefixHas([DONG], whole, 0);
      SuffixEnds([DONG], whole);
      PrefixHas("$", whole, 0);
      assert whole[|whole| - 1..] == "$" && whole[..|whole| - 1] == s + " ";
      NotDong(whole, hint);
    }
  }

  lemma NotDong(whole: string, hint: string)
    requires !IsPrefix("A$", whole) && !IsSuffix("A$", whole) && !IsPrefix([DONG], whole) && !IsSuffix([DONG], whole)
    requires !IsPrefix("$", whole) && IsSuffix("$", whole)
    ensures DetectFrom(CHAT.symbols, whole, hint, 0) == Detected("USD", Trim(whole[..|whole| - 1]))
  {
    ChatSymbols();
    assert DetectFrom(CHAT.symbols, whole, hint, 2) == Detected("USD", Trim(whole[..|whole| - 1]));
    assert DetectFrom(CHAT.symbols, whole, hint, 1) == DetectFrom(CHAT.symbols, whole, hint, 2);
  }

  lemma CommaIsNoMark(s: string, cents: string)
    requires |cents| == 2 && AllDigits(cents)
    ensures DecimalMark(s + [','] + cents, 2, 1).None?
  {
    LastSeparatorIs(s, ',', cents);
    assert (s + [','] + cents)[|s|] == ',';
  }

  lemma {:induction false} LastSeparatorIs(s: string, c: char, d: string)
    requires IsSeparator(c) && AllDigits(d)
    ensures LastSeparator(s + [c] + d) == Some(|s|)
    decreases |d|
  {
    var whole := s + [c] + d;
    if d == "" {
      assert whole[|whole| - 1] == c;
    } else {
      assert whole[|whole| - 1] == d[|d| - 1];
      LastSeparatorIs(s, c, d[..|d| - 1]);
      assert whole[..|whole| - 1] == s + [c] + d[..|d| - 1];
    }
  }

  function DollarNumber(n: nat): string { Grouped(DigitsOf(n / 100)) + [','] + Padded(n % 100) }

  lemma DollarNumberIsPrinted(n: nat)
    ensures Printed(DollarNumber(n))
  {
    GroupedIsPrinted(DigitsOf(n / 100));
    PaddedIs(n % 100);
    JoinedIsPrinted(Grouped(DigitsOf(n / 100)), ',', Padded(n % 100));
  }

  lemma DollarNumberBack(n: nat, currency: string)
    requires currency in {"USD", "AUD"}
    ensures SingleOf(CHAT, DollarNumber(n), currency) == if n < Power10(15) then Ok(Amount(100 * n, currency)) else Err(TooLarge)
  {
    GroupedIsPrinted(DigitsOf(n / 100));
    CentsNumeral(n);
    var digits := DigitsOf(n / 100) + Padded(n % 100);
    assert Numeral(digits) * 100 == 100 * n;
    SingleDollars(Grouped(DigitsOf(n / 100)), Padded(n % 100), digits, currency);
  }

  lemma PrintedDollarsRead(n: nat, currency: string, hint: string)
    requires currency in {"USD", "AUD"}
    ensures AmountOf(CHAT, DollarNumber(n) + " " + SymbolOf(currency), hint) == SingleOf(CHAT, DollarNumber(n), currency)
  {
    DollarNumberIsPrinted(n);
    DetectDollar(DollarNumber(n), currency, hint);
    AmountIsSingle(DollarNumber(n), SymbolOf(currency), currency, hint);
  }

  function PrintedDollars(n: nat, currency: string): string { DollarNumber(n) + " " + SymbolOf(currency) }

  function SignedDollars(n: int, currency: string): string {
    if n < 0 then "-" + PrintedDollars(-n, currency) else PrintedDollars(n, currency)
  }

  /** What a printed dollar amount comes back as. */
  function DollarsBack(n: int, currency: string): Result<Amount, AmountError> {
    if n < 0 then Err(Negative) else if n < Power10(15) then Ok(Amount(100 * n, currency)) else Err(TooLarge)
  }

  lemma PrintedDollarsBack(text: string, n: nat, currency: string, hint: string)
    requires currency in {"USD", "AUD"} && text == PrintedDollars(n, currency)
    ensures AmountOf(CHAT, text, hint) == DollarsBack(n, currency)
  {
    PrintedDollarsRead(n, currency, hint);
    DollarNumberBack(n, currency);
  }

  lemma NegativeDollarsRefused(text: string, n: nat, currency: string, hint: string)
    requires currency in {"USD", "AUD"} && text == "-" + PrintedDollars(n, currency)
    ensures AmountOf(CHAT, text, hint) == Err(Negative)
  {
    var rest := PrintedDollars(n, currency);
    assert rest[|rest| - 1] == '$';
    NegativeIsRefused(rest, hint);
  }

  lemma DollarsRead(text: string, n: int, currency: string, hint: string)
    requires currency in {"USD", "AUD"} && text == SignedDollars(n, currency)
    ensures AmountOf(CHAT, text, hint) == DollarsBack(n, currency)
  {
    if n < 0 {
      NegativeDollarsRefused(text, -n, currency, hint);
    } else {
      PrintedDollarsBack(text, n, currency, hint);
    }
  }

  lemma OnlyNothingIsKept(n: int, currency: string)
    ensures DollarsBack(n, currency) == Ok(Amount(n, currency)) <==> n == 0
  {
  }

  /** A printed dollar amount comes back a hundred times as large, so only nothing comes back as it
      was; a negative one is refused as negative, one of 10^15 cents or more as too large. */
  lemma DollarsComeBackHundredfold(n: int, currency: string, hint: string)
    requires IsI64(n) && currency in {"USD", "AUD"}
    ensures AmountOf(CHAT, FormatMinor(n, currency), hint) == DollarsBack(n, currency)
    ensures AmountOf(CHAT, FormatMinor(n, currency), hint) == Ok(Amount(n, currency)) <==> n == 0
  {
    FormatDollars(n, currency);
    DollarsRead(FormatMinor(n, currency), n, currency, hint);
    OnlyNothingIsKept(n, currency);
  }

  lemma CentsNumeral(n: nat)
    ensures |DigitsOf(n / 100)| <= 13 <==> n < Power10(15)
    ensures AllDigits(Padded(n % 100)) && Numeral(DigitsOf(n / 100) + Padded(n % 100)) == n
  {
    PaddedIs(n % 100);
    NumeralConcat(DigitsOf(n / 100), Padded(n % 100));
    NumeralOfDigits(n / 100);
    assert Power10(15) == 10 * Power10(14) && Power10(14) == 10 * Power10(13);
    DigitsLength(n / 100, 13);
  }

  lemma PaddedIs(n: nat)
    requires n < 100
    ensures AllDigits(Padded(n)) && Numeral(Padded(n)) == n && Power10(2) == 100
  {
    var p := Padded(n);
    assert p[..1] == [p[0]] && p[..1][..0] == "";
    assert Numeral(p[..1]) == n / 10;
  }

  lemma FormatWithCents(n: int, currency: string)
    requires Upper(currency) == currency && DecimalPlaces(currency) == 2 && SymbolOf(currency) != ""
    ensures FormatMinor(n, currency) == (if n < 0 then "-" else "") + PrintedDollars(if n < 0 then -n else n, currency)
  {
  }

  lemma FormatDollars(n: int, currency: string)
    requires currency in {"USD", "AUD"}
    ensures FormatMinor(n, currency) == SignedDollars(n, currency)
  {
    ChatPlaces();
    FormatWithCents(n, currency);
  }
}
