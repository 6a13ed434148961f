/** Currencies without a symbol are printed by their code, which the chat parser does not read. */
module CodedCurrencies {
  import opened Base
  import opened Digits
  import opened Money
  import opened Amounts
  import opened ChatAmounts
  import opened AmountRoundTrip

  predicate IsCapital(c: char) { 'A' <= c <= 'Z' }

  /** Three capital letters. */
  predicate IsCode(code: string) { |code| == 3 && IsCapital(code[0]) && IsCapital(code[1]) && IsCapital(code[2]) }

  /** A number and a code behind it. */
  function Coded(s: string, code: string): string { s + " " + code }

  // ----- text without digits is no amount -----

  predicate NoDigit(s: string) { forall i :: 0 <= i < |s| ==> !IsDigit(s[i]) }

  lemma {:induction false} StripsToNothing(s: string)
    requires NoDigit(s)
    ensures Strip(s) == ""
  {
    if s != "" {
      StripsToNothing(s[..|s| - 1]);
    }
  }

  lemma {:induction false} CompactNoDigit(s: string)
    requires NoDigit(s)
    ensures Compact(s).Ok? ==> NoDigit(Compact(s).value)
  {
    if s != "" {
      CompactNoDigit(s[..|s| - 1]);
    }
  }

  lemma {:induction false} TrimStartNoDigit(s: string)
    requires NoDigit(s)
    ensures NoDigit(TrimStart(s))
  {
    if s != "" && IsSpace(s[0]) {
      TrimStartNoDigit(s[1..]);
    }
  }

  lemma {:induction false} TrimEndNoDigit(s: string)
    requires NoDigit(s)
    ensures NoDigit(TrimEnd(s))
  {
    if s != "" && IsSpace(s[|s| - 1]) {
      TrimEndNoDigit(s[..|s| - 1]);
    }
  }

  lemma TrimNoDigit(s: string)
    requires NoDigit(s)
    ensures NoDigit(Trim(s))
  {
    TrimStartNoDigit(s);
    TrimEndNoDigit(TrimStart(s));
  }

  lemma SingleNeedsDigits(body: string, currency: string)
    requires NoDigit(body)
    ensures SingleOf(CHAT, body, currency).Err?
  {
    var b := Trim(body);
    TrimNoDigit(body);
    var k := SuffixFrom(CHAT, Lower(b), 0);
    if k.Some? {
      TrimNoDigit(b[..|b| - |CHAT.table[k.value].text|]);
    }
    var g := WithoutSuffix(CHAT, b);
    CompactNoDigit(g);
    if Compact(g).Ok? {
      StripsToNothing(Compact(g).value);
    }
  }

  lemma {:induction false} DetectNoDigit(symbols: seq<Symbol>, s: string, hint: string, k: nat)
    requires NoDigit(s) && k <= |symbols|
    ensures NoDigit(DetectFrom(symbols, s, hint, k).body)
    decreases |symbols| - k
  {
    if k < |symbols| {
      var text := symbols[k].text;
      if IsPrefix(text, s) {
        TrimNoDigit(s[|text|..]);
      } else if IsSuffix(text, s) {
        TrimNoDigit(s[..|s| - |text|]);
      } else {
        DetectNoDigit(symbols, s, hint, k + 1);
      }
    }
  }

  lemma LowerNoDigit(s: string)
    requires NoDigit(s)
    ensures NoDigit(Lower(s))
  {
  }

  lemma MultiplierHasNoDigit(k: nat)
    requires k < |CHAT.table|
    ensures NoDigit(CHAT.table[k].text)
  {
  }

  lemma JoinNoDigit(a: string, b: string)
    requires NoDigit(a) && NoDigit(b)
    ensures NoDigit(a + b)
  {
  }

  /** A cut of such a text comes to nothing: its first part is no amount. */
  lemma CutNeedsDigits(body: string, currency: string, k: nat, rest: Result<Amount, AmountError>)
    requires NoDigit(body) && k < |CHAT.table| && CutAt(CHAT, body, k).Some?
    ensures CutValue(CHAT, CutAt(CHAT, body, k).value, CHAT.table[k].text, currency, rest).None?
  {
    var lower := Lower(body);
    LowerNoDigit(body);
    var text := CHAT.table[k].text;
    var pos := FindFrom(lower, text, 0).value;
    var cut := CutAt(CHAT, body, k).value;
    TrimNoDigit(lower[..pos]);
    TrimNoDigit(lower[pos..][|text|..]);
    MultiplierHasNoDigit(k);
    JoinNoDigit(cut.before, text);
    SingleNeedsDigits(cut.before + text, currency);
    assert !IsDigit(cut.after[0]);
  }

  lemma {:induction false} CompoundNeedsDigits(body: string, currency: string, k: nat)
    requires NoDigit(body) && k <= |CHAT.table|
    ensures CompoundFrom(CHAT, body, currency, k).None?
    decreases |CHAT.table| - k
  {
    if k < |CHAT.table| {
      var cut := CutAt(CHAT, body, k);
      if cut.Some? {
        CutNeedsDigits(body, currency, k, AmountOf(CHAT, cut.value.after, currency));
      }
      CompoundNeedsDigits(body, currency, k + 1);
    }
  }

  lemma AmountNeedsDigits(raw: string, hint: string)
    requires NoDigit(raw)
    ensures AmountOf(CHAT, raw, hint).Err?
  {
    var s := Trim(raw);
    TrimNoDigit(raw);
    DetectNoDigit(CHAT.symbols, s, hint, 0);
    var d := DetectFrom(CHAT.symbols, s, hint, 0);
    CompoundNeedsDigits(d.body, d.currency, 0);
    SingleNeedsDigits(d.body, d.currency);
  }

  // ----- a number and a code -----

  lemma CodedChars(s: string, code: string, i: nat)
    requires Printed(s) && IsCode(code) && i < |s| + 4
    ensures |Coded(s, code)| == |s| + 4 && Coded(s, code)[0] == s[0]
    ensures i > |s| ==> IsCapital(Coded(s, code)[i])
    ensures i == |s| ==> Coded(s, code)[i] == ' '
    ensures i < |s| ==> IsDigit(Coded(s, code)[i]) || IsSeparator(Coded(s, code)[i])
  {
  }

  lemma MultiplierStarts(k: nat)
    requires k < |CHAT.table|
    ensures CHAT.table[k].text != "" && CHAT.table[k].text[0] in {'t', 'c', 'k'}
  {
  }

  /** A multiplier can only be found in the code, and what follows it there has no digits. */
  lemma NoDigitsBehind(s: string, code: string, k: nat)
    requires Printed(s) && IsCode(code) && k < |CHAT.table| && FindFrom(Lower(Coded(s, code)), CHAT.table[k].text, 0).Some?
    ensures var lower, text := Lower(Coded(s, code)), CHAT.table[k].text;
      NoDigit(lower[FindFrom(lower, text, 0).value..][|text|..])
  {
    var lower, text := Lower(Coded(s, code)), CHAT.table[k].text;
    var pos := FindFrom(lower, text, 0).value;
    MultiplierStarts(k);
    PrefixHas(text, lower[pos..], 0);
    assert lower[pos] == text[0];
    CodedChars(s, code, pos);
    assert pos > |s|;
    forall i | |s| < i < |lower| ensures !IsDigit(lower[i]) {
      CodedChars(s, code, i);
    }
  }

  lemma CutOfCoded(s: string, code: string, currency: string, k: nat)
    requires Printed(s) && IsCode(code) && k < |CHAT.table| && CutAt(CHAT, Coded(s, code), k).Some?
    ensures var cut := CutAt(CHAT, Coded(s, code), k).value;
      CutValue(CHAT, cut, CHAT.table[k].text, currency, AmountOf(CHAT, cut.after, currency)).None?
  {
    var lower, text := Lower(Coded(s, code)), CHAT.table[k].text;
    var cut := CutAt(CHAT, Coded(s, code), k).value;
    NoDigitsBehind(s, code, k);
    TrimNoDigit(lower[FindFrom(lower, text, 0).value..][|text|..]);
    AmountNeedsDigits(cut.after, currency);
    assert !IsDigit(cut.after[0]);
  }

  lemma {:induction false} NoCompoundOfCoded(s: string, code: string, currency: string, k: nat)
    requires Printed(s) && IsCode(code) && k <= |CHAT.table|
    ensures CompoundFrom(CHAT, Coded(s, code), currency, k).None?
    decreases |CHAT.table| - k
  {
    if k < |CHAT.table| {
      if CutAt(CHAT, Coded(s, code), k).Some? {
        CutOfCoded(s, code, currency, k);
      }
      NoCompoundOfCoded(s, code, currency, k + 1);
    }
  }

  lemma MultiplierLengths(k: nat)
    requires k < |CHAT.table|
    ensures |CHAT.table[k].text| == 5 ==> ' ' != CHAT.table[k].text[1]
    ensures |CHAT.table[k].text| in {1, 2, 5}
  {
  }

  /** A multiplier at the end takes at most two of the three letters. */
  lemma LetterStays(s: string, code: string)
    requires Printed(s) && IsCode(code)
    ensures var g := WithoutSuffix(CHAT, Coded(s, code)); g != "" && IsCapital(g[|g| - 1])
  {
    var whole := Coded(s, code);
    var k := SuffixFrom(CHAT, Lower(whole), 0);
    CodedChars(s, code, |s| + 3);
    if k.Some? {
      var text := CHAT.table[k.value].text;
      MultiplierLengths(k.value);
      if |text| == 5 {
        assert text[1] == Lower(whole)[|whole| - 5..][1] == Lower(whole)[|s|];
        CodedChars(s, code, |s|);
        assert false;
      }
      var g := whole[..|whole| - |text|];
      CodedChars(s, code, |g| - 1);
      assert g[0] == s[0] && IsCapital(g[|g| - 1]);
      assert Trim(g) == g;
    }
  }

  lemma CompactRefuses(g: string)
    requires g != "" && IsCapital(g[|g| - 1])
    ensures Compact(g) == Err(InvalidCharacter)
  {
  }

  lemma SingleOfCoded(s: string, code: string, currency: string)
    requires Printed(s) && IsCode(code)
    ensures SingleOf(CHAT, Coded(s, code), currency) == Err(InvalidCharacter)
  {
    var whole := Coded(s, code);
    CodedChars(s, code, |s| + 3);
    assert Trim(whole) == whole;
    LetterStays(s, code);
    CompactRefuses(WithoutSuffix(CHAT, whole));
  }

  lemma CodedIsRefused(s: string, code: string, hint: string)
    requires Printed(s) && IsCode(code)
    ensures AmountOf(CHAT, Coded(s, code), hint) == Err(InvalidCharacter)
  {
    var whole := Coded(s, code);
    var currency := HintOf(hint);
    CodedChars(s, code, |s| + 3);
    assert Trim(whole) == whole;
    NoMinus(s, code);
    NoSymbolAround(whole, hint);
    NoCompoundOfCoded(s, code, currency, 0);
    SingleOfCoded(s, code, currency);
  }

  // ----- the printer -----

  function CodedNumber(n: nat, code: string): string {
    if DecimalPlaces(code) == 0 then Grouped(DigitsOf(n)) else DollarNumber(n)
  }

  lemma UpperKeepsCode(code: string)
    requires IsCode(code)
    ensures Upper(code) == code
  {
  }

  lemma FormatCoded(n: int, code: string)
    requires IsCode(code) && SymbolOf(code) == ""
    ensures FormatMinor(n, code) == (if n < 0 then "-" else "") + Coded(CodedNumber(if n < 0 then -n else n, code), code)
  {
    UpperKeepsCode(code);
  }

  lemma CodedNumberIsPrinted(n: nat, code: string)
    ensures Printed(CodedNumber(n, code))
  {
    GroupedIsPrinted(DigitsOf(n));
    DollarNumberIsPrinted(n);
  }

  lemma CodedTextRefused(number: string, negative: bool, code: string, hint: string)
    requires Printed(number) && IsCode(code)
    ensures AmountOf(CHAT, (if negative then "-" else "") + Coded(number, code), hint) == Err(if negative then Negative else InvalidCharacter)
  {
    if negative {
      CodedChars(number, code, |number| + 3);
      NegativeIsRefused(Coded(number, code), hint);
    } else {
      assert "" + Coded(number, code) == Coded(number, code);
      CodedIsRefused(number, code, hint);
    }
  }

  /** An amount in a currency printed by its code never reads back, whatever the hint. */
  lemma CodesDoNotReadBack(n: int, code: string, hint: string)
    requires IsI64(n) && IsCode(code) && code !in {"VND", "USD", "AUD"}
    ensures AmountOf(CHAT, FormatMinor(n, code), hint) == Err(if n < 0 then Negative else InvalidCharacter)
  {
    var number := CodedNumber(if n < 0 then -n else n, code);
    FormatCoded(n, code);
    CodedNumberIsPrinted(if n < 0 then -n else n, code);
    CodedTextRefused(number, n < 0, code, hint);
  }
}
