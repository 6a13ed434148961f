/** Whole chat amounts: the currency, then one numeral or several glued together by multipliers. */
module ChatAmounts {
  import opened Base
  import opened Digits
  import opened Money
  import opened Amounts

  datatype Detected = Detected(currency: string, body: string)

  /** A symbol of the table, from the `k`-th on, before or after the amount. */
  function DetectFrom(symbols: seq<Symbol>, s: string, hint: string, k: nat): (d: Detected)
    requires k <= |symbols|
    ensures |d.body| <= |s|
    decreases |symbols| - k
  {
    if k == |symbols| then Detected(if hint == "" then "VND" else Upper(hint), s)
    else if IsPrefix(symbols[k].text, s) then Detected(symbols[k].currency, Trim(s[|symbols[k].text|..]))
    else if IsSuffix(symbols[k].text, s) then Detected(symbols[k].currency, Trim(s[..|s| - |symbols[k].text|]))
    else DetectFrom(symbols, s, hint, k + 1)
  }

  method DetectCurrency(symbols: seq<Symbol>, s: string, hint: string) returns (d: Detected)
    ensures d == DetectFrom(symbols, s, hint, 0)
  {
    for k := 0 to |symbols|
      invariant DetectFrom(symbols, s, hint, 0) == DetectFrom(symbols, s, hint, k)
    {
      if IsPrefix(symbols[k].text, s) {
        return Detected(symbols[k].currency, Trim(s[|symbols[k].text|..]));
      }
      if IsSuffix(symbols[k].text, s) {
        return Detected(symbols[k].currency, Trim(s[..|s| - |symbols[k].text|]));
      }
    }
    return Detected(if hint == "" then "VND" else Upper(hint), s);
  }

  /** The body cut at the first place the `k`-th multiplier occurs, with a number before it and
      something after it. */
  datatype Cut = Cut(before: string, after: string)

  function CutAt(n: Notation, body: string, k: nat): (r: Option<Cut>)
    requires k < |n.table|
    ensures r.Some? ==> |r.value.after| < |body| && r.value.after != "" && r.value.before != "" && NumberLike(r.value.before)
  {
    var lower := Lower(body);
    var text := n.table[k].text;
    var pos := FindFrom(lower, text, 0);
    if pos.None? || pos.value == 0 then None
    else
      var before, after := Trim(lower[..pos.value]), Trim(lower[pos.value..][|text|..]);
      if before == "" || after == "" || !NumberLike(before) then None else Some(Cut(before, after))
  }

  function Sum(a: int, b: int, currency: string): Result<Amount, AmountError> {
    if a + b > I64_MAX then Err(TooLarge) else Ok(Amount(a + b, currency))
  }

  /** What a cut comes to, given what its tail does: a bare run of digits goes behind a dot before
      the multiplier; otherwise the two parts are added, if both are amounts. */
  function CutValue(n: Notation, cut: Cut, text: string, currency: string, rest: Result<Amount, AmountError>): Option<Result<Amount, AmountError>> {
    if AllDigits(cut.after) then Some(SingleOf(n, cut.before + "." + cut.after + text, currency))
    else
      var first := SingleOf(n, cut.before + text, currency);
      if first.Ok? && rest.Ok? then Some(Sum(first.value.minor, rest.value.minor, currency)) else None
  }

  /** The compound readings, from the `k`-th multiplier on. */
  function CompoundFrom(n: Notation, body: string, currency: string, k: nat): Option<Result<Amount, AmountError>>
    requires k <= |n.table|
    decreases |body|, |n.table| - k
  {
    if k == |n.table| then None
    else
      var cut := CutAt(n, body, k);
      var here := if cut.None? then None
                  else CutValue(n, cut.value, n.table[k].text, currency, AmountOf(n, cut.value.after, currency));
      if here.Some? then here else CompoundFrom(n, body, currency, k + 1)
  }

  function AmountOf(n: Notation, raw: string, hint: string): Result<Amount, AmountError>
    decreases |raw|, |n.table| + 1
  {
    var s := Trim(raw);
    if s == "" then Err(Empty)
    else if '-' in s then Err(Negative)
    else
      var d := DetectFrom(n.symbols, s, hint, 0);
      var compound := CompoundFrom(n, d.body, d.currency, 0);
      if compound.Some? then compound.value else SingleOf(n, d.body, d.currency)
  }

  method TryParseCompound(n: Notation, body: string, currency: string) returns (r: Option<Result<Amount, AmountError>>)
    requires ValidNotation(n)
    ensures r == CompoundFrom(n, body, currency, 0)
    decreases |body|, 0
  {
    for k := 0 to |n.table|
      invariant CompoundFrom(n, body, currency, 0) == CompoundFrom(n, body, currency, k)
    {
      var cut := CutAt(n, body, k);
      if cut.None? {
        continue;
      }
      var text := n.table[k].text;
      if AllDigits(cut.value.after) {
        var rewritten := ParseSingleAmount(n, cut.value.before + "." + cut.value.after + text, currency);
        return Some(rewritten);
      }
      var first := ParseSingleAmount(n, cut.value.before + text, currency);
      if first.Ok? {
        var rest := ParseAmount(n, cut.value.after, currency);
        if rest.Ok? {
          return Some(Sum(first.value.minor, rest.value.minor, currency));
        }
      }
    }
    return None;
  }

  method ParseAmount(n: Notation, raw: string, hint: string) returns (r: Result<Amount, AmountError>)
    requires ValidNotation(n)
    ensures r == AmountOf(n, raw, hint)
    decreases |raw|, 1
  {
    var s := Trim(raw);
    if s == "" {
      return Err(Empty);
    }
    if '-' in s {
      return Err(Negative);
    }
    var d := DetectCurrency(n.symbols, s, hint);
    var compound := TryParseCompound(n, d.body, d.currency);
    if compound.Some? {
      return compound.value;
    }
    r := ParseSingleAmount(n, d.body, d.currency);
  }

  // ----- every accepted amount is exact -----

  /** The numeral in `text` is worth exactly `v` minor units. */
  ghost predicate NumeralMeans(n: Notation, text: string, currency: string, v: int) {
    Read(n, text, currency).Ok? && Readable(n, Read(n, text, currency).value, currency) && Equals(n, Read(n, text, currency).value, currency, v)
  }

  /** The cut is worth `v`, its tail being worth `b`. */
  ghost predicate CutMeans(n: Notation, cut: Cut, text: string, currency: string, b: int, v: int) {
    if AllDigits(cut.after) then NumeralMeans(n, cut.before + "." + cut.after + text, currency, v)
    else NumeralMeans(n, cut.before + text, currency, v - b)
  }

  /** The body, cut at the `k`-th multiplier, is worth `v`. */
  ghost predicate CompoundMeans(n: Notation, body: string, currency: string, k: nat, v: int)
    decreases |body|, 0
  {
    k < |n.table| && CutAt(n, body, k).Some?
    && var cut := CutAt(n, body, k).value;
       exists b :: (AllDigits(cut.after) || Means(n, cut.after, currency, b)) && CutMeans(n, cut, n.table[k].text, currency, b, v)
  }

  ghost predicate Means(n: Notation, raw: string, hint: string, v: int)
    decreases |raw|, 1
  {
    Trim(raw) != "" && '-' !in Trim(raw)
    && var d := DetectFrom(n.symbols, Trim(raw), hint, 0);
       NumeralMeans(n, d.body, d.currency, v) || exists k :: CompoundMeans(n, d.body, d.currency, k, v)
  }

  lemma SingleIsExact(n: Notation, body: string, currency: string)
    requires ValidNotation(n) && SingleOf(n, body, currency).Ok?
    ensures NumeralMeans(n, body, currency, SingleOf(n, body, currency).value.minor)
    ensures 0 <= SingleOf(n, body, currency).value.minor <= I64_MAX
  {
    ReadIsReadable(n, body, currency);
    ValueIsExact(n, Read(n, body, currency).value, currency, 0);
  }

  lemma CutIsExact(n: Notation, cut: Cut, text: string, currency: string, rest: Result<Amount, AmountError>)
    requires ValidNotation(n) && CutValue(n, cut, text, currency, rest).Some? && CutValue(n, cut, text, currency, rest).value.Ok?
    requires rest.Ok? ==> 0 <= rest.value.minor
    ensures var v := CutValue(n, cut, text, currency, rest).value.value.minor;
      && 0 <= v <= I64_MAX
      && CutMeans(n, cut, text, currency, if rest.Ok? then rest.value.minor else 0, v)
      && (!AllDigits(cut.after) ==> rest.Ok?)
  {
    if AllDigits(cut.after) {
      SingleIsExact(n, cut.before + "." + cut.after + text, currency);
    } else {
      SingleIsExact(n, cut.before + text, currency);
    }
  }

  lemma HereIsExact(n: Notation, body: string, currency: string, k: nat, rest: Result<Amount, AmountError>)
    requires ValidNotation(n) && k < |n.table| && CutAt(n, body, k).Some?
    requires rest.Ok? ==> 0 <= rest.value.minor && Means(n, CutAt(n, body, k).value.after, currency, rest.value.minor)
    ensures var here := CutValue(n, CutAt(n, body, k).value, n.table[k].text, currency, rest);
      here.Some? && here.value.Ok? ==> 0 <= here.value.value.minor <= I64_MAX && CompoundMeans(n, body, currency, k, here.value.value.minor)
  {
    var cut, text := CutAt(n, body, k).value, n.table[k].text;
    var here := CutValue(n, cut, text, currency, rest);
    if here.Some? && here.value.Ok? {
      CutIsExact(n, cut, text, currency, rest);
      var b := if rest.Ok? then rest.value.minor else 0;
      assert CutMeans(n, cut, text, currency, b, here.value.value.minor);
    }
  }

  /** What the `k`-th multiplier offers. */
  function Offer(n: Notation, body: string, currency: string, k: nat): Option<Result<Amount, AmountError>> {
    if k >= |n.table| || CutAt(n, body, k).None? then None
    else var cut := CutAt(n, body, k).value; CutValue(n, cut, n.table[k].text, currency, AmountOf(n, cut.after, currency))
  }

  lemma CompoundStep(n: Notation, body: string, currency: string, k: nat)
    requires k < |n.table|
    ensures CompoundFrom(n, body, currency, k)
            == if Offer(n, body, currency, k).Some? then Offer(n, body, currency, k) else CompoundFrom(n, body, currency, k + 1)
  {
  }

  /** The first multiplier, from the `k`-th on, that offers a reading. */
  function TakenFrom(n: Notation, body: string, currency: string, k: nat): (r: Option<nat>)
    requires k <= |n.table|
    ensures r.Some? ==> k <= r.value < |n.table| && Offer(n, body, currency, r.value).Some? && CutAt(n, body, r.value).Some?
    decreases |n.table| - k
  {
    if k == |n.table| then None else if Offer(n, body, currency, k).Some? then Some(k) else TakenFrom(n, body, currency, k + 1)
  }

  /** The compound reading is that multiplier's. */
  lemma {:induction false} CompoundIsTaken(n: Notation, body: string, currency: string, k: nat)
    requires k <= |n.table|
    ensures var at := TakenFrom(n, body, currency, k);
      CompoundFrom(n, body, currency, k) == if at.None? then None else Offer(n, body, currency, at.value)
    decreases |n.table| - k
  {
    if k < |n.table| {
      CompoundStep(n, body, currency, k);
      CompoundIsTaken(n, body, currency, k + 1);
    }
  }

  lemma {:induction false} CompoundIsExact(n: Notation, body: string, currency: string) returns (at: nat)
    requires ValidNotation(n) && CompoundFrom(n, body, currency, 0).Some? && CompoundFrom(n, body, currency, 0).value.Ok?
    ensures var v := CompoundFrom(n, body, currency, 0).value.value.minor;
      0 <= v <= I64_MAX && CompoundMeans(n, body, currency, at, v)
    decreases |body|, 0
  {
    CompoundIsTaken(n, body, currency, 0);
    at := TakenFrom(n, body, currency, 0).value;
    var rest := AmountOf(n, CutAt(n, body, at).value.after, currency);
    if rest.Ok? {
      AmountsAreExact(n, CutAt(n, body, at).value.after, currency);
    }
    HereIsExact(n, body, currency, at, rest);
  }

  /** Every accepted amount lies in 0 .. i64::MAX and is exactly what its numerals say, added up. */
  lemma {:induction false} AmountsAreExact(n: Notation, raw: string, hint: string)
    requires ValidNotation(n) && AmountOf(n, raw, hint).Ok?
    ensures 0 <= AmountOf(n, raw, hint).value.minor <= I64_MAX
    ensures Means(n, raw, hint, AmountOf(n, raw, hint).value.minor)
    decreases |raw|, 1
  {
    var d := DetectFrom(n.symbols, Trim(raw), hint, 0);
    if CompoundFrom(n, d.body, d.currency, 0).Some? {
      var at := CompoundIsExact(n, d.body, d.currency);
    } else {
      SingleIsExact(n, d.body, d.currency);
    }
  }

  // ----- the currency of an amount -----

  predicate SameCurrency(a: string, b: string) { Upper(a) == Upper(b) }

  lemma UpperTwice(s: string)
    ensures Upper(Upper(s)) == Upper(s)
  {
    assert forall i :: 0 <= i < |s| ==> Upper(Upper(s))[i] == Upper(s)[i];
  }

  /** A single amount is in the currency it is read in, up to case. */
  lemma SingleCurrency(n: Notation, body: string, currency: string)
    requires SingleOf(n, body, currency).Ok?
    ensures SameCurrency(SingleOf(n, body, currency).value.currency, currency)
  {
    UpperTwice(currency);
  }

  lemma CutCurrency(n: Notation, cut: Cut, text: string, currency: string, rest: Result<Amount, AmountError>)
    requires CutValue(n, cut, text, currency, rest).Some? && CutValue(n, cut, text, currency, rest).value.Ok?
    ensures SameCurrency(CutValue(n, cut, text, currency, rest).value.value.currency, currency)
  {
    if AllDigits(cut.after) {
      SingleCurrency(n, cut.before + "." + cut.after + text, currency);
    }
  }

  lemma CompoundCurrency(n: Notation, body: string, currency: string)
    requires CompoundFrom(n, body, currency, 0).Some? && CompoundFrom(n, body, currency, 0).value.Ok?
    ensures SameCurrency(CompoundFrom(n, body, currency, 0).value.value.currency, currency)
  {
    CompoundIsTaken(n, body, currency, 0);
    var at := TakenFrom(n, body, currency, 0).value;
    var cut := CutAt(n, body, at).value;
    CutCurrency(n, cut, n.table[at].text, currency, AmountOf(n, cut.after, currency));
  }

  /** Every accepted amount is in the currency detected in its text, up to case, whatever its parts. */
  lemma CurrencyIsDetected(n: Notation, raw: string, hint: string)
    requires AmountOf(n, raw, hint).Ok?
    ensures SameCurrency(AmountOf(n, raw, hint).value.currency, DetectFrom(n.symbols, Trim(raw), hint, 0).currency)
  {
    var d := DetectFrom(n.symbols, Trim(raw), hint, 0);
    if CompoundFrom(n, d.body, d.currency, 0).Some? {
      CompoundCurrency(n, d.body, d.currency);
    } else {
      SingleCurrency(n, d.body, d.currency);
    }
  }

  /** The cut adds two amounts of different currencies. */
  predicate Mixes(n: Notation, cut: Cut, text: string, currency: string) {
    !AllDigits(cut.after)
    && var first, rest := SingleOf(n, cut.before + text, currency), AmountOf(n, cut.after, currency);
       first.Ok? && rest.Ok? && !SameCurrency(first.value.currency, rest.value.currency)
  }

  /** A compound whose parts are amounts adds a second currency exactly when the one detected in its
      tail is not the one it is read in. */
  lemma MixesExactly(n: Notation, cut: Cut, text: string, currency: string)
    requires !AllDigits(cut.after) && SingleOf(n, cut.before + text, currency).Ok? && AmountOf(n, cut.after, currency).Ok?
    ensures Mixes(n, cut, text, currency) <==> !SameCurrency(DetectFrom(n.symbols, Trim(cut.after), currency, 0).currency, currency)
  {
    SingleCurrency(n, cut.before + text, currency);
    CurrencyIsDetected(n, cut.after, currency);
  }
}
