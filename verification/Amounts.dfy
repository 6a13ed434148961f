/** Chat amounts: `150k`, `1tr5`, `$12.50`, `1.500.000`.

    The functions say what is accepted and what it means; the methods read it the way the code does.
    The tables are a parameter; the code's are `CHAT`. */
module Amounts {
  import opened Base
  import opened Digits
  import opened Money

  datatype AmountError = Empty | Negative | InvalidCharacter | NoDigits | TooLarge | NotWholeMinorUnit

  datatype Amount = Amount(minor: int, currency: string)

  datatype Multiplier = Multiplier(text: string, factor: int)

  const MULTIPLIERS := [
    Multiplier("tri\U{1EC7}u", 1_000_000), Multiplier("trieu", 1_000_000), Multiplier("c\U{1EE7}", 1_000_000),
    Multiplier("cu", 1_000_000), Multiplier("tr", 1_000_000), Multiplier("k", 1_000)]

  datatype Symbol = Symbol(text: string, currency: string)

  /** The code's tables, and the decimal places of each currency. */
  datatype Notation = Notation(table: seq<Multiplier>, symbols: seq<Symbol>, places: string -> nat)

  const CHAT := Notation(MULTIPLIERS, [Symbol("A$", "AUD"), Symbol([DONG], "VND"), Symbol("$", "USD")], DecimalPlaces)

  /** What most results need to know of the tables; they hold for any such tables. */
  ghost predicate ValidNotation(n: Notation) {
    && (forall k :: 0 <= k < |n.table| ==> n.table[k].factor in {1_000, 1_000_000})
    && (forall currency :: n.places(currency) == 0 || n.places(currency) == 2)
  }

  lemma ChatIsValid()
    ensures ValidNotation(CHAT)
  {
  }

  // ----- text -----

  /** Lowercase, for letters whose lowercase form is one character of the same length. */
  function LowerChar(c: char): char {
    if 'A' <= c <= 'Z' then (c as int + 32) as char
    else if c == '\U{1EC6}' then '\U{1EC7}'
    else if c == '\U{1EE6}' then '\U{1EE7}'
    else c
  }

  function Lower(s: string): (r: string)
    ensures |r| == |s|
  {
    seq(|s|, i requires 0 <= i < |s| => LowerChar(s[i]))
  }

  predicate IsPrefix(p: string, s: string) { |p| <= |s| && s[..|p|] == p }

  predicate IsSuffix(p: string, s: string) { |p| <= |s| && s[|s| - |p|..] == p }

  /** The first place, from `i` on, where `p` occurs in `s`. */
  function FindFrom(s: string, p: string, i: nat): (r: Option<nat>)
    requires i <= |s|
    ensures r.Some? ==> i <= r.value <= |s| && IsPrefix(p, s[r.value..])
    decreases |s| - i
  {
    if IsPrefix(p, s[i..]) then Some(i) else if i == |s| then None else FindFrom(s, p, i + 1)
  }

  predicate IsSeparator(c: char) { c == '.' || c == ',' }

  predicate NumberLike(s: string) { forall i :: 0 <= i < |s| ==> IsDigit(s[i]) || IsSeparator(s[i]) }

  /** The digits of `s`. */
  function Strip(s: string): (r: string)
    ensures AllDigits(r) && |r| <= |s|
  {
    if s == "" then "" else Strip(s[..|s| - 1]) + (if IsDigit(s[|s| - 1]) then [s[|s| - 1]] else "")
  }

  /** `s` without its spaces, if it holds nothing but digits, separators and spaces. */
  function Compact(s: string): (r: Result<string, AmountError>)
    ensures r.Err? ==> r.error == InvalidCharacter
  {
    if s == "" then Ok("")
    else
      var before := Compact(s[..|s| - 1]);
      var c := s[|s| - 1];
      if before.Err? then before
      else if IsDigit(c) || IsSeparator(c) then Ok(before.value + [c])
      else if c == ' ' then before
      else Err(InvalidCharacter)
  }

  /** A space anywhere in a number makes no difference. */
  lemma {:induction false} SpacesDropOut(a: string, b: string)
    ensures Compact(a + " " + b) == Compact(a + b)
    decreases |b|
  {
    var s, t := a + " " + b, a + b;
    if b == "" {
      assert t == a && s[..|s| - 1] == a;
    } else {
      SpacesDropOut(a, b[..|b| - 1]);
      assert s[..|s| - 1] == a + " " + b[..|b| - 1] && t[..|t| - 1] == a + b[..|b| - 1];
    }
  }

  predicate Foreign(c: char) { !('0' <= c <= '9') && c != '.' && c != ',' && c != ' ' }

  /** A number is refused exactly when it holds anything but digits, dots, commas and spaces. */
  lemma {:induction false} ForeignRefused(s: string)
    ensures Compact(s).Err? <==> exists i :: 0 <= i < |s| && Foreign(s[i])
  {
    if s != "" {
      var t := s[..|s| - 1];
      ForeignRefused(t);
      assert forall i :: 0 <= i < |t| ==> t[i] == s[i];
      if exists i :: 0 <= i < |t| && Foreign(t[i]) {
        var i :| 0 <= i < |t| && Foreign(t[i]);
        assert Foreign(s[i]);
      }
    }
  }

  /** The last separator. */
  function LastSeparator(s: string): (r: Option<nat>)
    ensures r.Some? ==> r.value < |s| && IsSeparator(s[r.value])
  {
    if s == "" then None
    else if IsSeparator(s[|s| - 1]) then Some(|s| - 1)
    else LastSeparator(s[..|s| - 1])
  }

  // ----- a single amount: reading it -----

  /** A numeral: all its digits, how many of them are decimals, and the factor of its suffix. */
  datatype Reading = Reading(digits: string, decimals: nat, factor: int)

  /** The first multiplier, from the `k`-th on, that ends `lower`. */
  function SuffixFrom(n: Notation, lower: string, k: nat): (r: Option<nat>)
    requires k <= |n.table|
    ensures r.Some? ==> k <= r.value < |n.table| && IsSuffix(n.table[r.value].text, lower)
    decreases |n.table| - k
  {
    if k == |n.table| then None else if IsSuffix(n.table[k].text, lower) then Some(k) else SuffixFrom(n, lower, k + 1)
  }

  function FactorOf(n: Notation, body: string): int {
    var k := SuffixFrom(n, Lower(body), 0);
    if k.Some? then n.table[k.value].factor else 1
  }

  function WithoutSuffix(n: Notation, body: string): (r: string)
    ensures |r| <= |body|
  {
    var k := SuffixFrom(n, Lower(body), 0);
    if k.Some? then Trim(body[..|body| - |n.table[k.value].text|]) else body
  }

  /** Where the decimals start. Without decimal places in the currency, the last separator marks
      decimals under a multiplier, unless three digits follow it; with decimal places, a last dot with
      two digits after it does. */
  function DecimalMark(number: string, places: nat, factor: int): (r: Option<nat>)
    ensures r.Some? ==> r.value < |number| && IsSeparator(number[r.value])
  {
    var last := LastSeparator(number);
    if last.None? || (places == 0 && factor == 1) then None
    else
      var decimals := |Strip(number[last.value + 1..])|;
      if places == 0 then (if decimals != 0 && decimals != 3 then last else None)
      else if number[last.value] == '.' && decimals == 2 then last else None
  }

  function Read(n: Notation, body: string, currency: string): Result<Reading, AmountError> {
    var b := Trim(body);
    var number := Compact(WithoutSuffix(n, b));
    if number.Err? then Err(number.error)
    else if Strip(number.value) == "" then Err(NoDigits)
    else
      var mark := DecimalMark(number.value, n.places(currency), FactorOf(n, b));
      Ok(Reading(Strip(number.value), if mark.Some? then |Strip(number.value[mark.value + 1..])| else 0, FactorOf(n, b)))
  }

  // ----- a single amount: its value -----

  /** The number the code forms before it takes the decimals off: as many of the currency's decimal
      places as are missing are filled up. */
  function Gross(n: Notation, r: Reading, currency: string): int
    requires AllDigits(r.digits)
  {
    var places := n.places(currency);
    Numeral(r.digits) * (if r.decimals <= places then Power10(places - r.decimals) else 1) * r.factor
  }

  function Value(n: Notation, r: Reading, currency: string): Result<Amount, AmountError>
    requires AllDigits(r.digits)
  {
    var places := n.places(currency);
    if |r.digits| > 15 || r.decimals > 4 || Numeral(r.digits) > I64_MAX then Err(TooLarge)
    else if places != 0 && r.decimals > places then Err(NotWholeMinorUnit)
    else if Gross(n, r, currency) > I64_MAX then Err(TooLarge)
    else if r.decimals == 0 then Ok(Amount(Gross(n, r, currency), Upper(currency)))
    else if places != 0 then Ok(Amount(Gross(n, r, currency), currency))
    else if Gross(n, r, currency) % Power10(r.decimals) != 0 then Err(NotWholeMinorUnit)
    else Ok(Amount(Gross(n, r, currency) / Power10(r.decimals), currency))
  }

  function SingleOf(n: Notation, body: string, currency: string): Result<Amount, AmountError> {
    var r := Read(n, body, currency);
    if r.Err? then Err(r.error) else ReadsDigits(n, body, currency); Value(n, r.value, currency)
  }

  lemma ReadsDigits(n: Notation, body: string, currency: string)
    ensures Read(n, body, currency).Ok? ==> AllDigits(Read(n, body, currency).value.digits)
  {
  }

  // ----- a single amount: the code -----

  method StripSeparators(s: string) returns (r: string)
    ensures r == Strip(s)
  {
    r := "";
    for i := 0 to |s|
      invariant r == Strip(s[..i])
    {
      assert s[..i + 1][..i] == s[..i];
      if IsDigit(s[i]) {
        r := r + [s[i]];
      }
    }
    assert s[..|s|] == s;
  }

  /** i64 parsing of a string of digits. */
  function ParseDigits(digits: string): Result<int, AmountError>
    requires AllDigits(digits)
  {
    if digits == "" || Numeral(digits) > I64_MAX then Err(TooLarge) else Ok(Numeral(digits))
  }

  method FinishAmount(n: Notation, digits: string, currency: string, factor: int) returns (r: Result<Amount, AmountError>)
    requires ValidNotation(n) && AllDigits(digits) && factor in {1, 1_000, 1_000_000}
    ensures r == if digits == "" then Err(NoDigits) else Value(n, Reading(digits, 0, factor), currency)
  {
    if digits == "" {
      return Err(NoDigits);
    }
    if |digits| > 15 {
      return Err(TooLarge);
    }
    var parsed := ParseDigits(digits);
    if parsed.Err? {
      return Err(parsed.error);
    }
    var value := parsed.value;
    if n.places(currency) == 2 {
      if value > I64_MAX / 100 {
        return Err(TooLarge);
      }
      value := value * 100;
    }
    if factor > 1 && value > I64_MAX / factor {
      return Err(TooLarge);
    }
    return Ok(Amount(value * factor, Upper(currency)));
  }

  lemma FitsI64(digits: string)
    requires AllDigits(digits) && |digits| <= 15
    ensures Numeral(digits) < 1_000_000_000_000_000
  {
    NumeralBound(digits);
    Power10Increases(|digits|, 15);
    assert Power10(3) == 1_000;
    assert Power10(6) == 1_000 * Power10(3);
    assert Power10(9) == 1_000 * Power10(6);
    assert Power10(12) == 1_000 * Power10(9);
    assert Power10(15) == 1_000 * Power10(12);
  }

  /** The suffix loop. */
  method TakeSuffix(n: Notation, body: string) returns (rest: string, factor: int)
    ensures rest == WithoutSuffix(n, body) && factor == FactorOf(n, body)
  {
    rest, factor := body, 1;
    var lower := Lower(body);
    for k := 0 to |n.table|
      invariant rest == body && factor == 1 && SuffixFrom(n, lower, 0) == SuffixFrom(n, lower, k)
    {
      if IsSuffix(n.table[k].text, lower) {
        factor := n.table[k].factor;
        rest := Trim(body[..|body| - |n.table[k].text|]);
        break;
      }
    }
  }

  /** The character loop. */
  method TakeNumber(body: string) returns (r: Result<string, AmountError>)
    ensures r == Compact(body)
  {
    var number := "";
    for i := 0 to |body|
      invariant Compact(body[..i]) == Ok(number)
    {
      assert body[..i + 1][..i] == body[..i];
      if IsDigit(body[i]) || IsSeparator(body[i]) {
        number := number + [body[i]];
      } else if body[i] != ' ' {
        InvalidStays(body, i + 1, |body|);
        assert body[..|body|] == body;
        return Err(InvalidCharacter);
      }
    }
    assert body[..|body|] == body;
    return Ok(number);
  }

  lemma {:induction false} InvalidStays(s: string, i: nat, k: nat)
    requires i <= k <= |s| && Compact(s[..i]).Err?
    ensures Compact(s[..k]).Err?
    decreases k
  {
    if k > i {
      InvalidStays(s, i, k - 1);
      assert s[..k][..k - 1] == s[..k - 1];
    }
  }

  /** The arithmetic of a numeral with decimals. */
  method WithDecimals(n: Notation, intDigits: string, fracDigits: string, currency: string, factor: int) returns (r: Result<Amount, AmountError>)
    requires AllDigits(intDigits) && AllDigits(fracDigits) && fracDigits != "" && factor in {1, 1_000, 1_000_000}
    ensures AllDigits(intDigits + fracDigits)
    ensures r == Value(n, Reading(intDigits + fracDigits, |fracDigits|, factor), currency)
  {
    var decimals := |fracDigits|;
    if decimals > 4 || |intDigits| + decimals > 15 {
      return Err(TooLarge);
    }
    var parsed := ParseDigits(intDigits + fracDigits);
    if parsed.Err? {
      return Err(parsed.error);
    }
    var combined := parsed.value;
    var places := n.places(currency);
    if places == 0 {
      if factor > 1 && combined > I64_MAX / factor {
        return Err(TooLarge);
      }
      var value := combined * factor;
      if value % Power10(decimals) != 0 {
        return Err(NotWholeMinorUnit);
      }
      return Ok(Amount(value / Power10(decimals), currency));
    }
    if decimals > places {
      return Err(NotWholeMinorUnit);
    }
    var minor := FillPlaces(combined, places - decimals, factor);
    return if minor.Some? then Ok(Amount(minor.value, currency)) else Err(TooLarge);
  }

  /** The loop that fills up the decimal places, and the multiplier. */
  method FillPlaces(combined: nat, missing: nat, factor: int) returns (minor: Option<int>)
    requires combined <= I64_MAX && factor in {1, 1_000, 1_000_000}
    ensures var gross := combined * Power10(missing) * factor; minor == if gross > I64_MAX then None else Some(gross)
  {
    var value := combined;
    for i := 0 to missing
      invariant value == combined * Power10(i) && value <= I64_MAX
    {
      if value > I64_MAX / 10 {
        assert combined * Power10(missing) * factor > I64_MAX by {
          StaysTooLarge(combined, i, missing, factor);
        }
        return None;
      }
      value := value * 10;
    }
    if factor > 1 && value > I64_MAX / factor {
      return None;
    }
    return Some(value * factor);
  }

  lemma MulGrows(x: nat, a: nat, b: nat)
    requires a <= b
    ensures x * a <= x * b
  {
  }

  lemma StaysTooLarge(combined: nat, i: nat, k: nat, factor: nat)
    requires i < k && combined * Power10(i) > I64_MAX / 10 && factor >= 1
    ensures combined * Power10(k) * factor > I64_MAX
  {
    Power10Increases(i + 1, k);
    assert combined * Power10(i + 1) == 10 * (combined * Power10(i)) by {
      assert Power10(i + 1) == 10 * Power10(i);
    }
    MulGrows(combined, Power10(i + 1), Power10(k));
    MulGrows(combined * Power10(k), 1, factor);
  }

  lemma {:induction false} StripConcat(a: string, b: string)
    ensures Strip(a + b) == Strip(a) + Strip(b)
    decreases |b|
  {
    if b == "" {
      assert a + b == a;
    } else {
      StripConcat(a, b[..|b| - 1]);
      assert (a + b)[..|a + b| - 1] == a + b[..|b| - 1];
    }
  }

  lemma StripAround(a: string, c: char, b: string)
    requires !IsDigit(c)
    ensures Strip(a + [c] + b) == Strip(a) + Strip(b)
  {
    StripConcat(a + [c], b);
    StripConcat(a, [c]);
    assert [c][..0] == "";
    assert Strip([c]) == "";
    assert Strip(a) + "" == Strip(a);
  }

  method FindDecimalMark(number: string, places: nat, factor: int) returns (mark: Option<nat>)
    ensures mark == DecimalMark(number, places, factor)
  {
    mark := None;
    var last := LastSeparator(number);
    if !(places == 0 && factor == 1) && last.Some? {
      var frac := StripSeparators(number[last.value + 1..]);
      if places == 0 {
        if frac != "" && |frac| != 3 {
          mark := last;
        }
      } else if number[last.value] == '.' && |frac| == 2 {
        mark := last;
      }
    }
  }

  method ParseNumber(n: Notation, number: string, currency: string, factor: int) returns (r: Result<Amount, AmountError>)
    requires ValidNotation(n) && factor in {1, 1_000, 1_000_000}
    ensures var digits := Strip(number);
      var mark := DecimalMark(number, n.places(currency), factor);
      r == if digits == "" then Err(NoDigits)
           else Value(n, Reading(digits, if mark.Some? then |Strip(number[mark.value + 1..])| else 0, factor), currency)
  {
    if number == "" {
      return Err(NoDigits);
    }
    var mark := FindDecimalMark(number, n.places(currency), factor);
    if mark.None? {
      var digits := StripSeparators(number);
      r := FinishAmount(n, digits, currency, factor);
      return;
    }
    var intDigits := StripSeparators(number[..mark.value]);
    var fracDigits := StripSeparators(number[mark.value + 1..]);
    StripAround(number[..mark.value], number[mark.value], number[mark.value + 1..]);
    assert number == number[..mark.value] + [number[mark.value]] + number[mark.value + 1..];
    r := WithDecimals(n, intDigits, fracDigits, currency, factor);
  }

  method ParseSingleAmount(n: Notation, body: string, currency: string) returns (r: Result<Amount, AmountError>)
    requires ValidNotation(n)
    ensures r == SingleOf(n, body, currency)
  {
    var rest, factor := TakeSuffix(n, Trim(body));
    var number := TakeNumber(rest);
    if number.Err? {
      return Err(number.error);
    }
    FactorIsOneOf(n, Trim(body));
    r := ParseNumber(n, number.value, currency, factor);
  }

  lemma FactorIsOneOf(n: Notation, body: string)
    requires ValidNotation(n)
    ensures FactorOf(n, body) in {1, 1_000, 1_000_000}
  {
  }

  // ----- a single amount is exact -----

  /** `v` minor units are exactly what the numeral says: digits x factor x 10^places, over 10^decimals. */
  ghost predicate Equals(n: Notation, r: Reading, currency: string, v: int)
    requires AllDigits(r.digits)
  {
    v * Power10(r.decimals) == Numeral(r.digits) * r.factor * Power10(n.places(currency))
  }

  /** A numeral the reader can produce. */
  predicate Readable(n: Notation, r: Reading, currency: string) {
    && (n.places(currency) == 0 || n.places(currency) == 2)
    && r.digits != "" && AllDigits(r.digits) && r.factor in {1, 1_000, 1_000_000}
    && (n.places(currency) == 2 ==> r.decimals == 0 || r.decimals == 2)
  }

  lemma ReadIsReadable(n: Notation, body: string, currency: string)
    requires ValidNotation(n) && Read(n, body, currency).Ok?
    ensures Readable(n, Read(n, body, currency).value, currency)
  {
  }

  lemma PowersUpToFour(k: nat)
    requires k <= 4
    ensures Power10(k) in {1, 10, 100, 1_000, 10_000}
    ensures Power10(0) == 1 && Power10(2) == 100
  {
  }

  lemma CheckedDivision(gross: int, scale: int, v: int)
    requires scale in {1, 10, 100, 1_000, 10_000}
    ensures gross % scale == 0 ==> (gross / scale) * scale == gross
    ensures v * scale == gross ==> gross % scale == 0
  {
  }

  lemma WithoutDecimalsExact(n: Notation, r: Reading, currency: string)
    requires Readable(n, r, currency) && (r.decimals == 0 || n.places(currency) == 2)
    ensures Equals(n, r, currency, Gross(n, r, currency)) && Gross(n, r, currency) >= 0
  {
  }

  lemma WithDecimalsExact(n: Notation, r: Reading, currency: string, v: int)
    requires Readable(n, r, currency) && 0 < r.decimals <= 4 && n.places(currency) == 0
    ensures Equals(n, r, currency, v) <==> v * Power10(r.decimals) == Gross(n, r, currency)
    ensures Gross(n, r, currency) >= 0
    ensures Gross(n, r, currency) % Power10(r.decimals) == 0 ==> Equals(n, r, currency, Gross(n, r, currency) / Power10(r.decimals))
    ensures Equals(n, r, currency, v) ==> Gross(n, r, currency) % Power10(r.decimals) == 0
  {
    PowersUpToFour(r.decimals);
    CheckedDivision(Gross(n, r, currency), Power10(r.decimals), v);
  }

  /** An accepted numeral has its exact value, in range; one is refused for its fraction exactly when
      no whole number of minor units equals it; and one is refused as too large exactly when it has
      too many digits or the number formed from it leaves i64. */
  lemma ValueIsExact(n: Notation, r: Reading, currency: string, v: int)
    requires Readable(n, r, currency)
    ensures var x := Value(n, r, currency);
      && (x.Ok? ==> Equals(n, r, currency, x.value.minor) && 0 <= x.value.minor <= I64_MAX)
      && (x == Err(TooLarge) <==> |r.digits| > 15 || r.decimals > 4 || Gross(n, r, currency) > I64_MAX)
      && (x == Err(NotWholeMinorUnit) ==> !Equals(n, r, currency, v))
      && (x.Err? ==> x.error in {TooLarge, NotWholeMinorUnit})
  {
    if |r.digits| <= 15 && r.decimals <= 4 {
      FitsI64(r.digits);
      if r.decimals == 0 || n.places(currency) == 2 {
        WithoutDecimalsExact(n, r, currency);
      } else {
        WithDecimalsExact(n, r, currency, v);
      }
    }
  }
}
