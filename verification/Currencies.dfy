/** The numerals an amount is added up from, and when they are all in one currency.

    A currency symbol is looked for in the whole text, and again in every tail a compound is cut into:
    what it finds there is converted by its own decimal places and added all the same. */
module Currencies {
  import opened Base
  import opened Digits
  import opened Money
  import opened Amounts
  import opened ChatAmounts
  import opened AmountRoundTrip

  // ----- the parts of an amount -----

  function Accepted(r: Result<Amount, AmountError>): seq<Amount> { if r.Ok? then [r.value] else [] }

  /** The amounts of the numerals in a body, in order. */
  function BodyParts(n: Notation, body: string, currency: string): seq<Amount>
    decreases |body|, 0
  {
    var at := TakenFrom(n, body, currency, 0);
    if at.None? then Accepted(SingleOf(n, body, currency))
    else
      var cut, text := CutAt(n, body, at.value).value, n.table[at.value].text;
      if AllDigits(cut.after) then Accepted(SingleOf(n, cut.before + "." + cut.after + text, currency))
      else Accepted(SingleOf(n, cut.before + text, currency)) + Parts(n, cut.after, currency)
  }

  function Parts(n: Notation, raw: string, hint: string): seq<Amount>
    decreases |raw|, 1
  {
    var d := DetectFrom(n.symbols, Trim(raw), hint, 0);
    BodyParts(n, d.body, d.currency)
  }

  /** What a body is read as, its currency being known. */
  function BodyOf(n: Notation, body: string, currency: string): Result<Amount, AmountError> {
    var compound := CompoundFrom(n, body, currency, 0);
    if compound.Some? then compound.value else SingleOf(n, body, currency)
  }

  lemma AmountIsBody(n: Notation, raw: string, hint: string, d: Detected)
    requires Trim(raw) != "" && '-' !in Trim(raw) && DetectFrom(n.symbols, Trim(raw), hint, 0) == d
    ensures AmountOf(n, raw, hint) == BodyOf(n, d.body, d.currency)
  {
  }

  /** A body whose first cut offers a reading is read at that cut. */
  lemma BodyAtCut(n: Notation, body: string, currency: string, k: nat, cut: Cut)
    requires k < |n.table| && CutAt(n, body, k) == Some(cut) && forall i :: 0 <= i < k ==> CutAt(n, body, i).None?
    requires CutValue(n, cut, n.table[k].text, currency, AmountOf(n, cut.after, currency)).Some?
    ensures TakenFrom(n, body, currency, 0) == Some(k)
    ensures BodyOf(n, body, currency) == CutValue(n, cut, n.table[k].text, currency, AmountOf(n, cut.after, currency)).value
  {
    TakenHere(n, body, currency, k);
    FirstCutIsTaken(n, body, currency, k);
    CompoundIsTaken(n, body, currency, 0);
  }

  lemma TakenHere(n: Notation, body: string, currency: string, k: nat)
    requires k < |n.table| && Offer(n, body, currency, k).Some?
    ensures TakenFrom(n, body, currency, k) == Some(k)
  {
  }

  lemma TakenLater(n: Notation, body: string, currency: string, k: nat)
    requires k < |n.table| && CutAt(n, body, k).None?
    ensures TakenFrom(n, body, currency, k) == TakenFrom(n, body, currency, k + 1)
  {
    assert Offer(n, body, currency, k).None?;
  }

  lemma {:induction false} AllAlike(taken: seq<Option<nat>>, i: nat)
    requires i < |taken| && forall j :: 0 < j < |taken| ==> taken[j - 1] == taken[j]
    ensures taken[0] == taken[i]
  {
    if i > 0 {
      AllAlike(taken, i - 1);
    }
  }

  lemma FirstCutIsTaken(n: Notation, body: string, currency: string, k: nat)
    requires k < |n.table| && TakenFrom(n, body, currency, k) == Some(k) && forall i :: 0 <= i < k ==> CutAt(n, body, i).None?
    ensures TakenFrom(n, body, currency, 0) == Some(k)
  {
    var taken := seq(k + 1, i requires 0 <= i <= k => TakenFrom(n, body, currency, i));
    forall j | 0 < j < |taken| ensures taken[j - 1] == taken[j] {
      TakenLater(n, body, currency, j - 1);
    }
    AllAlike(taken, k);
  }

  function Total(parts: seq<Amount>): int { if parts == [] then 0 else parts[0].minor + Total(parts[1..]) }

  lemma TotalOfOne(a: Amount)
    ensures Total([a]) == a.minor
  {
  }

  lemma TotalOfMore(a: Amount, rest: seq<Amount>)
    ensures Total([a] + rest) == a.minor + Total(rest)
  {
    assert ([a] + rest)[1..] == rest;
  }

  lemma {:induction false} BodyAddsUp(n: Notation, body: string, currency: string)
    requires BodyOf(n, body, currency).Ok?
    ensures Total(BodyParts(n, body, currency)) == BodyOf(n, body, currency).value.minor
    decreases |body|, 0
  {
    CompoundIsTaken(n, body, currency, 0);
    var at := TakenFrom(n, body, currency, 0);
    if at.None? {
      TotalOfOne(SingleOf(n, body, currency).value);
    } else {
      var cut, text := CutAt(n, body, at.value).value, n.table[at.value].text;
      if AllDigits(cut.after) {
        TotalOfOne(BodyOf(n, body, currency).value);
      } else {
        PartsAddUp(n, cut.after, currency);
        TotalOfMore(SingleOf(n, cut.before + text, currency).value, Parts(n, cut.after, currency));
      }
    }
  }

  /** An accepted amount is the sum of its parts. */
  lemma {:induction false} PartsAddUp(n: Notation, raw: string, hint: string)
    requires AmountOf(n, raw, hint).Ok?
    ensures Total(Parts(n, raw, hint)) == AmountOf(n, raw, hint).value.minor
    decreases |raw|, 1
  {
    var d := DetectFrom(n.symbols, Trim(raw), hint, 0);
    BodyAddsUp(n, d.body, d.currency);
  }

  // ----- symbols in the text -----

  predicate IsMark(c: char) { c == '$' || c == DONG }

  lemma {:induction false} TrimStartKeeps(s: string, c: char)
    requires !IsSpace(c)
    ensures c in s <==> c in TrimStart(s)
  {
    if s != "" && IsSpace(s[0]) {
      TrimStartKeeps(s[1..], c);
      assert s == [s[0]] + s[1..];
    }
  }

  lemma {:induction false} TrimEndKeeps(s: string, c: char)
    requires !IsSpace(c)
    ensures c in s <==> c in TrimEnd(s)
  {
    if s != "" && IsSpace(s[|s| - 1]) {
      TrimEndKeeps(s[..|s| - 1], c);
      assert s == s[..|s| - 1] + [s[|s| - 1]];
    }
  }

  lemma TrimKeeps(s: string, c: char)
    requires !IsSpace(c)
    ensures c in s <==> c in Trim(s)
  {
    TrimStartKeeps(s, c);
    TrimEndKeeps(TrimStart(s), c);
  }

  lemma LowerKeeps(s: string, c: char)
    requires IsMark(c)
    ensures c in s <==> c in Lower(s)
    ensures 'A' !in Lower(s)
  {
    forall i | 0 <= i < |s| ensures s[i] == c <==> Lower(s)[i] == c {
    }
    if c in s {
      var i :| 0 <= i < |s| && s[i] == c;
      assert Lower(s)[i] == c;
    }
  }

  lemma NoMarkInMultiplier(k: nat, c: char)
    requires k < |CHAT.table| && IsMark(c)
    ensures c !in CHAT.table[k].text
  {
  }

  lemma {:induction false} CompactHasNoMark(s: string, c: char)
    requires Compact(s).Ok? && IsMark(c)
    ensures c !in s
  {
    if s != "" {
      CompactHasNoMark(s[..|s| - 1], c);
      assert s == s[..|s| - 1] + [s[|s| - 1]];
    }
  }

  lemma SuffixHasNoMark(b: string, text: string, c: char)
    requires IsSuffix(text, Lower(b)) && IsMark(c) && c !in text
    ensures c in b <==> c in b[..|b| - |text|]
  {
    var m := |b| - |text|;
    LowerKeeps(b[m..], c);
    assert Lower(b)[m..] == Lower(b[m..]);
    assert b == b[..m] + b[m..];
  }

  /** A single amount holds no symbol. */
  lemma SingleHasNoMark(body: string, currency: string, c: char)
    requires SingleOf(CHAT, body, currency).Ok? && IsMark(c)
    ensures c !in body
  {
    var b := Trim(body);
    var g := WithoutSuffix(CHAT, b);
    CompactHasNoMark(g, c);
    TrimKeeps(body, c);
    WithoutSuffixMarks(b, c);
  }

  lemma WithoutSuffixMarks(b: string, c: char)
    requires IsMark(c)
    ensures c in b <==> c in WithoutSuffix(CHAT, b)
  {
    var k := SuffixFrom(CHAT, Lower(b), 0);
    if k.Some? {
      var text := CHAT.table[k.value].text;
      NoMarkInMultiplier(k.value, c);
      SuffixHasNoMark(b, text, c);
      TrimKeeps(b[..|b| - |text|], c);
    }
  }

  lemma MarksBehind(lower: string, pos: nat, text: string, c: char)
    requires pos <= |lower| && IsPrefix(text, lower[pos..]) && c !in text && c !in lower[..pos]
    ensures c in lower <==> c in lower[pos..][|text|..]
  {
    var after := lower[pos..][|text|..];
    assert lower[pos..] == text + after;
    assert lower == lower[..pos] + (text + after);
  }

  /** The symbols of a body that is cut are those of its tail, and the tail is in lower case. */
  lemma CutKeepsMarks(body: string, k: nat, c: char)
    requires k < |CHAT.table| && CutAt(CHAT, body, k).Some? && IsMark(c)
    ensures c in body <==> c in CutAt(CHAT, body, k).value.after
    ensures 'A' !in CutAt(CHAT, body, k).value.after
  {
    NoMarkInMultiplier(k, c);
    TailMarks(CHAT, body, k, c);
  }

  lemma TailMarks(n: Notation, body: string, k: nat, c: char)
    requires k < |n.table| && CutAt(n, body, k).Some? && IsMark(c) && c !in n.table[k].text
    ensures c in body <==> c in CutAt(n, body, k).value.after
    ensures 'A' !in CutAt(n, body, k).value.after
  {
    var lower, text := Lower(body), n.table[k].text;
    var pos := FindFrom(lower, text, 0).value;
    var after := lower[pos..][|text|..];
    LowerKeeps(body, c);
    TrimKeeps(lower[..pos], c);
    MarksBehind(lower, pos, text, c);
    TrimKeeps(after, c);
    assert 'A' !in after;
    TrimKeeps(after, 'A');
  }

  // ----- one currency -----

  ghost predicate AllIn(parts: seq<Amount>, currency: string) {
    forall i :: 0 <= i < |parts| ==> parts[i].currency == currency
  }

  /** Every symbol in the text is the currency's own. */
  predicate OwnSymbols(s: string, currency: string) {
    ('$' in s ==> currency == "USD") && (DONG in s ==> currency == "VND")
  }

  predicate Named(currency: string) { currency != "" && Upper(currency) == currency }

  lemma DetectedIsNamed(s: string, hint: string)
    ensures Named(DetectFrom(CHAT.symbols, s, hint, 0).currency)
  {
    ChatSymbols();
    ChatPlaces();
    UpperTwice(hint);
    assert Named(DetectFrom(CHAT.symbols, s, hint, 3).currency);
    assert Named(DetectFrom(CHAT.symbols, s, hint, 2).currency);
    assert Named(DetectFrom(CHAT.symbols, s, hint, 1).currency);
  }

  /** Taking one symbol off leaves the other where it is. */
  lemma TakenOff(s: string, c: char, other: char, body: string)
    requires IsMark(c) && IsMark(other) && c != other
    requires (IsPrefix([c], s) && body == Trim(s[1..])) || (IsSuffix([c], s) && body == Trim(s[..|s| - 1]))
    ensures c in s && (other in s <==> other in body)
  {
    if IsPrefix([c], s) && body == Trim(s[1..]) {
      assert s[..1][0] == s[0] && s == [s[0]] + s[1..];
      TrimKeeps(s[1..], other);
    } else {
      assert s[|s| - 1..][0] == s[|s| - 1] && s == s[..|s| - 1] + [s[|s| - 1]];
      TrimKeeps(s[..|s| - 1], other);
    }
  }

  lemma SuffixHas(p: string, s: string, j: nat)
    requires j < |p|
    ensures IsSuffix(p, s) ==> p[j] in s
  {
    if IsSuffix(p, s) {
      assert s[|s| - |p| + j] == s[|s| - |p|..][j];
    }
  }

  lemma NoCapital(s: string)
    requires 'A' !in s
    ensures !IsPrefix("A$", s) && !IsSuffix("A$", s)
  {
    assert "A$"[0] == 'A';
    PrefixHas("A$", s, 0);
    SuffixHas("A$", s, 0);
  }

  /** What detection makes of a tail. */
  lemma DetectInTail(s: string, hint: string)
    requires 'A' !in s && Named(hint)
    ensures var d := DetectFrom(CHAT.symbols, s, hint, 0);
      || d == Detected(hint, s)
      || (d.currency == "VND" && DONG in s && ('$' in s <==> '$' in d.body))
      || (d.currency == "USD" && '$' in s && (DONG in s <==> DONG in d.body))
  {
    ChatSymbols();
    NoCapital(s);
    var d := DetectFrom(CHAT.symbols, s, hint, 1);
    if IsPrefix([DONG], s) || IsSuffix([DONG], s) {
      TakenOff(s, DONG, '$', d.body);
    } else if IsPrefix("$", s) || IsSuffix("$", s) {
      assert d == DetectFrom(CHAT.symbols, s, hint, 2);
      TakenOff(s, '$', DONG, d.body);
    } else {
      assert d == DetectFrom(CHAT.symbols, s, hint, 2) == DetectFrom(CHAT.symbols, s, hint, 3);
    }
  }

  lemma SingleIsIn(n: Notation, body: string, currency: string)
    requires SingleOf(n, body, currency).Ok? && Named(currency)
    ensures SingleOf(n, body, currency).value.currency == currency
  {
  }

  lemma FirstPart(n: Notation, body: string, currency: string)
    requires BodyOf(n, body, currency).Ok? && Named(currency)
    ensures var parts := BodyParts(n, body, currency); |parts| > 0 && parts[0].currency == currency
  {
    CompoundIsTaken(n, body, currency, 0);
    var at := TakenFrom(n, body, currency, 0);
    if at.None? {
      SingleIsIn(n, body, currency);
    } else {
      var cut, text := CutAt(n, body, at.value).value, n.table[at.value].text;
      if AllDigits(cut.after) {
        SingleIsIn(n, cut.before + "." + cut.after + text, currency);
      } else {
        SingleIsIn(n, cut.before + text, currency);
      }
    }
  }

  /** A body that is one numeral, or a number and bare digits, is one part. */
  predicate IsOne(n: Notation, body: string, currency: string) {
    var at := TakenFrom(n, body, currency, 0);
    at.None? || AllDigits(CutAt(n, body, at.value).value.after)
  }

  lemma OnePart(n: Notation, body: string, currency: string)
    requires BodyOf(n, body, currency).Ok? && Named(currency) && IsOne(n, body, currency)
    ensures AllIn(BodyParts(n, body, currency), currency)
  {
    FirstPart(n, body, currency);
  }

  lemma OneHasNoMark(body: string, currency: string, c: char)
    requires BodyOf(CHAT, body, currency).Ok? && IsOne(CHAT, body, currency) && IsMark(c)
    ensures c !in body
  {
    var at := TakenFrom(CHAT, body, currency, 0);
    if at.Some? {
      CutKeepsMarks(body, at.value, c);
    } else {
      CompoundIsTaken(CHAT, body, currency, 0);
      SingleHasNoMark(body, currency, c);
    }
  }

  lemma AllInMore(a: Amount, rest: seq<Amount>, currency: string)
    requires a.currency == currency
    ensures AllIn([a] + rest, currency) <==> AllIn(rest, currency)
  {
    if AllIn([a] + rest, currency) {
      forall i | 0 <= i < |rest| ensures rest[i].currency == currency {
        assert ([a] + rest)[i + 1] == rest[i];
      }
    }
  }

  lemma {:induction false} BodyInOneCurrency(body: string, currency: string)
    requires BodyOf(CHAT, body, currency).Ok? && Named(currency)
    ensures AllIn(BodyParts(CHAT, body, currency), currency) <==> OwnSymbols(body, currency)
    decreases |body|, 0
  {
    CompoundIsTaken(CHAT, body, currency, 0);
    var at := TakenFrom(CHAT, body, currency, 0);
    if IsOne(CHAT, body, currency) {
      OnePart(CHAT, body, currency);
      OneHasNoMark(body, currency, '$');
      OneHasNoMark(body, currency, DONG);
    } else {
      var cut, text := CutAt(CHAT, body, at.value).value, CHAT.table[at.value].text;
      CutKeepsMarks(body, at.value, '$');
      CutKeepsMarks(body, at.value, DONG);
      TailInOneCurrency(cut.after, currency);
      AllInMore(SingleOf(CHAT, cut.before + text, currency).value, Parts(CHAT, cut.after, currency), currency);
    }
  }

  lemma {:induction false} TailInOneCurrency(raw: string, hint: string)
    requires AmountOf(CHAT, raw, hint).Ok? && 'A' !in raw && Named(hint)
    ensures AllIn(Parts(CHAT, raw, hint), hint) <==> OwnSymbols(raw, hint)
    decreases |raw|, 1
  {
    var s := Trim(raw);
    TrimKeeps(raw, 'A');
    TrimKeeps(raw, '$');
    TrimKeeps(raw, DONG);
    var d := DetectFrom(CHAT.symbols, s, hint, 0);
    DetectInTail(s, hint);
    DetectedIsNamed(s, hint);
    FirstPart(CHAT, d.body, d.currency);
    if d.currency == hint {
      BodyInOneCurrency(d.body, hint);
    }
  }

  /** Every numeral of an accepted amount is in the currency detected for the whole, exactly when every
      currency symbol left in its text is that currency's own. */
  lemma OneCurrencyExactly(raw: string, hint: string)
    requires AmountOf(CHAT, raw, hint).Ok?
    ensures var d := DetectFrom(CHAT.symbols, Trim(raw), hint, 0);
      AllIn(Parts(CHAT, raw, hint), d.currency) <==> OwnSymbols(d.body, d.currency)
  {
    var d := DetectFrom(CHAT.symbols, Trim(raw), hint, 0);
    DetectedIsNamed(Trim(raw), hint);
    BodyInOneCurrency(d.body, d.currency);
  }
}
