/** The shorthand `1tr5` and its like: digits behind a multiplier, and when they are decimals. */
module Tails {
  import opened Base
  import opened Digits
  import opened Money
  import opened Amounts
  import opened ChatAmounts
  import opened AmountRoundTrip
  import opened Currencies

  // ----- a numeral and a multiplier -----

  lemma SixMultipliers()
    ensures |CHAT.table| == 6
    ensures CHAT.table[0].text == "tri\U{1EC7}u" && CHAT.table[1].text == "trieu" && CHAT.table[2].text == "c\U{1EE7}"
    ensures CHAT.table[3].text == "cu" && CHAT.table[4].text == "tr" && CHAT.table[5].text == "k"
    ensures forall k :: 0 <= k < 6 ==> CHAT.table[k].factor == if k == 5 then 1_000 else 1_000_000
  {
  }

  /** The `i`-th character from the end. */
  function FromEnd(s: string, i: nat): char
    requires i < |s|
  {
    s[|s| - 1 - i]
  }

  lemma SuffixFromEnd(p: string, s: string, i: nat)
    requires i < |p|
    ensures IsSuffix(p, s) ==> i < |s| && FromEnd(s, i) == FromEnd(p, i)
  {
    if IsSuffix(p, s) {
      assert s[|s| - |p|..][|p| - 1 - i] == s[|s| - 1 - i];
    }
  }

  /** Where two multipliers differ, counted from the end. */
  function Apart(j: nat, k: nat): nat {
    if (j == 0 && k == 1) || (j < 2 && k == 3) then 1 else 0
  }

  lemma MultipliersApart(j: nat, k: nat)
    requires j < k < 6
    ensures |CHAT.table| == 6
    ensures var i := Apart(j, k); var p, q := CHAT.table[j].text, CHAT.table[k].text;
      i < |p| && i < |q| && FromEnd(p, i) != FromEnd(q, i)
  {
    SixMultipliers();
    assert FromEnd("tri\U{1EC7}u", 0) == 'u' && FromEnd("tri\U{1EC7}u", 1) == '\U{1EC7}';
    assert FromEnd("trieu", 0) == 'u' && FromEnd("trieu", 1) == 'e';
    assert FromEnd("c\U{1EE7}", 0) == '\U{1EE7}' && FromEnd("cu", 0) == 'u' && FromEnd("cu", 1) == 'c';
    assert FromEnd("tr", 0) == 'r' && FromEnd("k", 0) == 'k';
  }

  lemma EarlierSuffix(g: string, j: nat, k: nat)
    requires j < k < |CHAT.table|
    ensures !IsSuffix(CHAT.table[j].text, g + CHAT.table[k].text)
  {
    SixMultipliers();
    var p, q := CHAT.table[j].text, CHAT.table[k].text;
    var i := Apart(j, k);
    MultipliersApart(j, k);
    assert FromEnd(g + q, i) == FromEnd(q, i);
    SuffixFromEnd(p, g + q, i);
  }

  lemma {:induction false} SuffixIs(n: Notation, b: string, j: nat, k: nat)
    requires j <= k < |n.table| && IsSuffix(n.table[k].text, b)
    requires forall i :: j <= i < k ==> !IsSuffix(n.table[i].text, b)
    ensures SuffixFrom(n, b, j) == Some(k)
    decreases k - j
  {
    if j < k {
      SuffixIs(n, b, j + 1, k);
    }
  }

  lemma MultiplierChars(k: nat)
    requires k < |CHAT.table|
    ensures CHAT.table[k].text != "" && Lower(CHAT.table[k].text) == CHAT.table[k].text
    ensures forall c :: c in CHAT.table[k].text ==> !IsSpace(c) && !IsDigit(c) && !IsSeparator(c)
  {
    SixMultipliers();
  }

  lemma LowerJoins(a: string, b: string)
    ensures Lower(a + b) == Lower(a) + Lower(b)
  {
  }

  /** What the text splits into, and the number before the multiplier. */
  ghost predicate Splits(n: Notation, b: string, g: string, factor: int) {
    Trim(b) == b && WithoutSuffix(n, b) == g && FactorOf(n, b) == factor && Compact(g) == Ok(g) && Strip(g) != ""
  }

  lemma TrimNumber(g: string, text: string)
    requires NumberLike(g) && g != ""
    requires text != "" ==> !IsSpace(text[|text| - 1])
    ensures Trim(g) == g && Trim(g + text) == g + text
  {
    var b := g + text;
    assert b[0] == g[0];
    assert b[|b| - 1] == if text == "" then g[|g| - 1] else text[|text| - 1];
  }

  lemma SplitsAt(n: Notation, b: string, g: string, k: nat)
    requires k < |n.table| && b == g + n.table[k].text && SuffixFrom(n, Lower(b), 0) == Some(k)
    requires Trim(g) == g && Trim(b) == b && Compact(g) == Ok(g) && Strip(g) != ""
    ensures Splits(n, b, g, n.table[k].factor)
  {
    assert b[..|b| - |n.table[k].text|] == g;
  }

  lemma MultiplierSplits(g: string, k: nat)
    requires NumberLike(g) && Strip(g) != "" && k < |CHAT.table|
    ensures Splits(CHAT, g + CHAT.table[k].text, g, CHAT.table[k].factor)
  {
    var text := CHAT.table[k].text;
    var b := g + text;
    MultiplierChars(k);
    LowerKeepsNumbers(g);
    LowerJoins(g, text);
    forall j | 0 <= j < k ensures !IsSuffix(CHAT.table[j].text, b) {
      EarlierSuffix(g, j, k);
    }
    assert b[|g|..] == text;
    SuffixIs(CHAT, b, 0, k);
    TrimNumber(g, text);
    CompactNumber(g);
    SplitsAt(CHAT, b, g, k);
  }

  function MarkedReading(g: string, places: nat, factor: int): Reading {
    var mark := DecimalMark(g, places, factor);
    Reading(Strip(g), if mark.Some? then |Strip(g[mark.value + 1..])| else 0, factor)
  }

  lemma ReadSplit(n: Notation, b: string, g: string, factor: int, currency: string)
    requires Splits(n, b, g, factor)
    ensures Read(n, b, currency) == Ok(MarkedReading(g, n.places(currency), factor))
  {
    ReadParts(n, b, g, factor, currency);
  }

  /** A number and a multiplier are read together. */
  lemma ReadMultiple(g: string, k: nat, currency: string)
    requires NumberLike(g) && Strip(g) != "" && k < |CHAT.table|
    ensures Read(CHAT, g + CHAT.table[k].text, currency) == Ok(MarkedReading(g, CHAT.places(currency), CHAT.table[k].factor))
  {
    MultiplierSplits(g, k);
    ReadSplit(CHAT, g + CHAT.table[k].text, g, CHAT.table[k].factor, currency);
  }

  // ----- digits behind the multiplier -----

  /** Whether a tail of `m` digits is read as decimals. */
  predicate AreDecimals(places: nat, m: nat) { if places == 0 then m != 3 else m == 2 }

  /** The digits of a cut, put together. */
  function TailReading(cut: Cut, places: nat, factor: int): Reading {
    Reading(Strip(cut.before) + cut.after, if AreDecimals(places, |cut.after|) then |cut.after| else 0, factor)
  }

  lemma TailMark(before: string, after: string, places: nat, factor: int)
    requires after != "" && AllDigits(after) && factor > 1
    ensures DecimalMark(before + ['.'] + after, places, factor)
            == if AreDecimals(places, |after|) then Some(|before|) else None
  {
    var g := before + ['.'] + after;
    LastSeparatorIs(before, '.', after);
    assert g[|before| + 1..] == after && g[|before|] == '.';
    StripDigits(after);
  }

  lemma TailFactor(k: nat)
    requires k < |CHAT.table|
    ensures CHAT.table[k].factor > 1
  {
  }

  lemma RewrittenReading(cut: Cut, k: nat, currency: string)
    requires k < |CHAT.table| && NumberLike(cut.before) && cut.after != "" && AllDigits(cut.after)
    ensures AllDigits(Strip(cut.before) + cut.after)
    ensures SingleOf(CHAT, cut.before + "." + cut.after + CHAT.table[k].text, currency)
            == Value(CHAT, TailReading(cut, CHAT.places(currency), CHAT.table[k].factor), currency)
  {
    var g := cut.before + ['.'] + cut.after;
    assert NumberLike(g) && Strip(g) == Strip(cut.before) + cut.after by {
      JoinedNumberLike(cut.before, '.', cut.after);
      StripAround(cut.before, '.', cut.after);
      StripDigits(cut.after);
    }
    TailFactor(k);
    TailMark(cut.before, cut.after, CHAT.places(currency), CHAT.table[k].factor);
    assert g[|cut.before| + 1..] == cut.after;
    StripDigits(cut.after);
    ReadMultiple(g, k, currency);
  }

  /** An amount with a tail of bare digits is read as all its digits together, times the multiplier, with
      the tail as decimals: unless it has three digits, for a currency without decimal places, and only
      if it has two, for a currency with them. */
  lemma DigitTailReading(body: string, currency: string)
    requires var at := TakenFrom(CHAT, body, currency, 0); at.Some? && AllDigits(CutAt(CHAT, body, at.value).value.after)
    ensures var at := TakenFrom(CHAT, body, currency, 0).value; var cut := CutAt(CHAT, body, at).value;
      && AllDigits(Strip(cut.before) + cut.after)
      && BodyOf(CHAT, body, currency) == Value(CHAT, TailReading(cut, CHAT.places(currency), CHAT.table[at].factor), currency)
  {
    var at := TakenFrom(CHAT, body, currency, 0).value;
    CompoundIsTaken(CHAT, body, currency, 0);
    RewrittenReading(CutAt(CHAT, body, at).value, at, currency);
  }

  lemma ReadAsWritten(n: Notation, digits: string, m: nat, decimal: bool, factor: int, currency: string)
    requires digits != "" && AllDigits(digits) && m > 0 && (decimal && n.places(currency) == 2 ==> m == 2) && factor in {1, 1_000, 1_000_000}
    requires n.places(currency) == 0 || n.places(currency) == 2
    requires Value(n, Reading(digits, if decimal then m else 0, factor), currency).Ok?
    ensures var v := Value(n, Reading(digits, if decimal then m else 0, factor), currency).value.minor;
      && (v * Power10(m) == Numeral(digits) * factor * Power10(n.places(currency)) <==> decimal || Numeral(digits) == 0)
      && (!decimal ==> v == Numeral(digits) * factor * Power10(n.places(currency)))
  {
    ValueIsExact(n, Reading(digits, if decimal then m else 0, factor), currency, 0);
    if !decimal {
      var v := Value(n, Reading(digits, 0, factor), currency).value.minor;
      assert Power10(0) == 1 && Power10(m) == 10 * Power10(m - 1);
      assert v == Numeral(digits) * factor * Power10(n.places(currency));
      Unequal(v, Power10(m));
      Nothing(Numeral(digits), factor, Power10(n.places(currency)));
    }
  }

  lemma Unequal(v: int, p: int)
    requires p > 1
    ensures v * p == v <==> v == 0
  {
    assert v * p - v == v * (p - 1);
  }

  lemma Nothing(a: nat, b: nat, c: nat)
    requires b > 0 && c > 0
    ensures a * b * c == 0 <==> a == 0
  {
  }

  /** An accepted amount whose tail is bare digits, whatever the currency, the multiplier and the spacing,
      is what it says, X and decimals Y times the multiplier, exactly when the tail is read as decimals (or
      all digits are zero). Otherwise it is as if nothing stood between X and Y. */
  lemma TailIsDecimalsExactly(raw: string, hint: string)
    requires AmountOf(CHAT, raw, hint).Ok?
    requires var d := DetectFrom(CHAT.symbols, Trim(raw), hint, 0); var at := TakenFrom(CHAT, d.body, d.currency, 0);
      at.Some? && AllDigits(CutAt(CHAT, d.body, at.value).value.after)
    ensures var d := DetectFrom(CHAT.symbols, Trim(raw), hint, 0); var at := TakenFrom(CHAT, d.body, d.currency, 0).value;
      var cut := CutAt(CHAT, d.body, at).value; var places := CHAT.places(d.currency);
      var v, digits := AmountOf(CHAT, raw, hint).value.minor, Strip(cut.before) + cut.after;
      && AllDigits(digits)
      && (v * Power10(|cut.after|) == Numeral(digits) * CHAT.table[at].factor * Power10(places)
          <==> AreDecimals(places, |cut.after|) || Numeral(digits) == 0)
      && (!AreDecimals(places, |cut.after|) ==> v == Numeral(digits) * CHAT.table[at].factor * Power10(places))
  {
    var d := DetectFrom(CHAT.symbols, Trim(raw), hint, 0);
    var at := TakenFrom(CHAT, d.body, d.currency, 0).value;
    var cut := CutAt(CHAT, d.body, at).value;
    DigitTailReading(d.body, d.currency);
    ChatIsValid();
    ReadAsWritten(CHAT, Strip(cut.before) + cut.after, |cut.after|, AreDecimals(CHAT.places(d.currency), |cut.after|), CHAT.table[at].factor, d.currency);
  }

  // ----- X, a multiplier and Y -----

  predicate Number(x: string) { x != "" && AllDigits(x) }

  /** A letter of the `j`-th multiplier that no later one has. */
  function Letter(j: nat): nat
    requires j < 5
  {
    if j < 2 then 3 else if j == 2 then 1 else 0
  }

  lemma LetterIsMissing(j: nat, k: nat)
    requires j < k < 6
    ensures |CHAT.table| == 6 && Letter(j) < |CHAT.table[j].text| && CHAT.table[j].text[Letter(j)] !in CHAT.table[k].text
  {
    SixMultipliers();
  }

  /** Written in any case. */
  predicate IsMultiplier(m: string, k: nat) { k < |CHAT.table| && Lower(m) == CHAT.table[k].text }

  lemma LowerShorthand(x: string, m: string, y: string, k: nat)
    requires Number(x) && Lower(y) == y && IsMultiplier(m, k)
    ensures Lower(x + m + y) == x + CHAT.table[k].text + y
  {
    LowerJoins(x + m, y);
    LowerJoins(x, m);
    LowerKeepsNumbers(x);
  }

  lemma EarlierCut(x: string, m: string, y: string, j: nat, k: nat)
    requires Number(x) && Number(y) && IsMultiplier(m, k) && j < k
    ensures CutAt(CHAT, x + m + y, j).None?
  {
    SixMultipliers();
    LowerKeepsNumbers(y);
    LowerShorthand(x, m, y, k);
    LetterIsMissing(j, k);
    MultiplierChars(j);
    var c := CHAT.table[j].text[Letter(j)];
    assert c !in x && c !in y;
    FindNothing(x + CHAT.table[k].text + y, CHAT.table[j].text, Letter(j), 0);
  }

  lemma {:induction false} FindBehind(x: string, text: string, y: string, i: nat)
    requires AllDigits(x) && i <= |x| && text != "" && !IsDigit(text[0])
    ensures FindFrom(x + text + y, text, i) == Some(|x|)
    decreases |x| - i
  {
    var s := x + text + y;
    if i == |x| {
      assert s[i..] == text + y;
      assert s[i..][..|text|] == text;
    } else {
      assert s[i..][0] == x[i];
      PrefixHas(text, s[i..], 0);
      FindBehind(x, text, y, i + 1);
    }
  }

  lemma CutIs(n: Notation, body: string, k: nat, before: string, after: string)
    requires k < |n.table| && Lower(body) == before + n.table[k].text + after
    requires FindFrom(Lower(body), n.table[k].text, 0) == Some(|before|)
    requires before != "" && NumberLike(before) && Trim(before) == before && after != "" && Trim(after) == after
    ensures CutAt(n, body, k) == Some(Cut(before, after))
  {
    var lower, text := Lower(body), n.table[k].text;
    assert lower[..|before|] == before && lower[|before|..][|text|..] == after;
  }

  lemma ShorthandCut(x: string, m: string, y: string, k: nat)
    requires Number(x) && y != "" && Lower(y) == y && Trim(y) == y && IsMultiplier(m, k)
    ensures CutAt(CHAT, x + m + y, k) == Some(Cut(x, y))
  {
    var text := CHAT.table[k].text;
    LowerShorthand(x, m, y, k);
    MultiplierChars(k);
    assert text[0] in text;
    FindBehind(x, text, y, 0);
    TrimNumber(x, "");
    CutIs(CHAT, x + m + y, k, x, y);
  }

  lemma ShorthandIsTaken(x: string, m: string, y: string, k: nat, currency: string)
    requires Number(x) && Number(y) && IsMultiplier(m, k)
    ensures TakenFrom(CHAT, x + m + y, currency, 0) == Some(k) && CutAt(CHAT, x + m + y, k) == Some(Cut(x, y))
  {
    LowerKeepsNumbers(y);
    TrimNumber(y, "");
    ShorthandCut(x, m, y, k);
    forall i | 0 <= i < k ensures CutAt(CHAT, x + m + y, i).None? {
      EarlierCut(x, m, y, i, k);
    }
    BodyAtCut(CHAT, x + m + y, currency, k, Cut(x, y));
  }

  lemma LowerHas(s: string, c: char)
    requires LowerChar(c) == c
    ensures c in s ==> c in Lower(s)
  {
    if c in s {
      var i :| 0 <= i < |s| && s[i] == c;
      assert Lower(s)[i] == c;
    }
  }

  lemma NoMinusIn(x: string, m: string, y: string, k: nat)
    requires Number(x) && Number(y) && IsMultiplier(m, k)
    ensures '-' !in x + m + y
  {
    SixMultipliers();
    LowerHas(m, '-');
  }

  lemma ShorthandIsBody(x: string, m: string, y: string, k: nat, hint: string)
    requires Number(x) && Number(y) && IsMultiplier(m, k)
    ensures AmountOf(CHAT, x + m + y, hint) == BodyOf(CHAT, x + m + y, HintOf(hint))
    ensures DetectFrom(CHAT.symbols, Trim(x + m + y), hint, 0) == Detected(HintOf(hint), x + m + y)
  {
    var s := x + m + y;
    assert s[0] == x[0] && s[|s| - 1] == y[|y| - 1];
    NoSymbolAround(s, hint);
    assert Trim(s) == s;
    NoMinusIn(x, m, y, k);
    AmountIsBody(CHAT, s, hint, Detected(HintOf(hint), s));
  }

  lemma TailReadingOfDigits(x: string, y: string, places: nat, factor: int)
    requires Number(x)
    ensures TailReading(Cut(x, y), places, factor) == Reading(x + y, if AreDecimals(places, |y|) then |y| else 0, factor)
  {
    StripDigits(x);
  }

  /** `XtrY` and the other multipliers, in any case and for any hint: the digits of X and Y together, Y
      being decimals or not. */
  lemma ShorthandAmount(x: string, m: string, y: string, k: nat, hint: string) returns (r: Reading)
    requires Number(x) && Number(y) && IsMultiplier(m, k)
    ensures r == Reading(x + y, if AreDecimals(CHAT.places(HintOf(hint)), |y|) then |y| else 0, CHAT.table[k].factor)
    ensures AllDigits(r.digits) && AmountOf(CHAT, x + m + y, hint) == Value(CHAT, r, HintOf(hint))
  {
    ShorthandIsBody(x, m, y, k, hint);
    ShorthandIsTaken(x, m, y, k, HintOf(hint));
    DigitTailReading(x + m + y, HintOf(hint));
    r := TailReading(Cut(x, y), CHAT.places(HintOf(hint)), CHAT.table[k].factor);
    TailReadingOfDigits(x, y, CHAT.places(HintOf(hint)), CHAT.table[k].factor);
  }

  /** So an accepted `XtrY` is X.Y million exactly when Y does not have three digits, for currencies
      without decimal places, and exactly when it has two, for the others. */
  lemma ShorthandIsDecimalExactly(x: string, m: string, y: string, k: nat, hint: string)
    requires Number(x) && Number(y) && IsMultiplier(m, k) && AmountOf(CHAT, x + m + y, hint).Ok?
    ensures AllDigits(x + y)
    ensures var v, places := AmountOf(CHAT, x + m + y, hint).value.minor, CHAT.places(HintOf(hint));
      v * Power10(|y|) == Numeral(x + y) * CHAT.table[k].factor * Power10(places) <==> AreDecimals(places, |y|) || Numeral(x + y) == 0
  {
    ShorthandIsBody(x, m, y, k, hint);
    ShorthandIsTaken(x, m, y, k, HintOf(hint));
    StripDigits(x);
    TailIsDecimalsExactly(x + m + y, hint);
  }
}
