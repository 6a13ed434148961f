/** The CSV export of an account's expenses, and a reader for it.

    The reader follows section 2 of RFC 4180 with LF line ends: a field is quoted, with quotes inside
    it doubled, or holds no comma, quote, CR or LF. */
module Csv {
  import opened Base
  import opened Digits

  predicate IsSpecial(c: char) { c == ',' || c == '"' || c == '\n' || c == '\r' }

  predicate IsPlain(v: string) { forall i :: 0 <= i < |v| ==> !IsSpecial(v[i]) }

  // ----- writing -----

  /** Every quote doubled. */
  function Doubled(v: string): string {
    if v == "" then "" else (if v[0] == '"' then "\"\"" else [v[0]]) + Doubled(v[1..])
  }

  function Escape(v: string): string { if IsPlain(v) then v else "\"" + Doubled(v) + "\"" }

  /** A field is quoted exactly when it holds a comma, a quote or a line break. */
  lemma QuotedExactly(v: string)
    ensures Escape(v) != v <==> ',' in v || '"' in v || '\n' in v || '\r' in v
  {
    if !IsPlain(v) {
      DoubledIsLonger(v);
    }
  }

  lemma DoubledIsLonger(v: string)
    ensures |Doubled(v)| >= |v|
  {
  }

  /** `stamp` is the instant as RFC 3339 writes it. */
  datatype Expense = Expense(stamp: string, amount: int, currency: string, description: string, source: string)

  function AmountText(n: int): string { if n < 0 then "-" + DigitsOf(-n) else DigitsOf(n) }

  const HEADER := ["occurred_at", "amount_minor", "currency", "description", "source"]

  function Fields(e: Expense): seq<string> { [e.stamp, AmountText(e.amount), e.currency, e.description, e.source] }

  /** Escaped fields with commas between them. */
  function Line(fields: seq<string>): string
    requires fields != []
  {
    if |fields| == 1 then Escape(fields[0]) else Escape(fields[0]) + "," + Line(fields[1..])
  }

  function Lines(records: seq<seq<string>>): string
    requires forall i :: 0 <= i < |records| ==> records[i] != []
  {
    if records == [] then "" else Lines(records[..|records| - 1]) + Line(records[|records| - 1]) + "\n"
  }

  function Records(rows: seq<Expense>): (r: seq<seq<string>>)
    ensures |r| == |rows| + 1 && r[0] == HEADER && forall i :: 0 <= i < |rows| ==> r[i + 1] == Fields(rows[i])
    ensures forall i :: 0 <= i < |r| ==> r[i] != []
  {
    [HEADER] + seq(|rows|, i requires 0 <= i < |rows| => Fields(rows[i]))
  }

  /** Five fields, written as they are. */
  function Joined(a: string, b: string, c: string, d: string, e: string): string {
    a + "," + b + "," + c + "," + d + "," + e
  }

  /** The export's loop. The first two fields go in as they are: a timestamp has nothing to escape. */
  method Export(rows: seq<Expense>) returns (body: string)
    requires forall i :: 0 <= i < |rows| ==> IsPlain(rows[i].stamp)
    ensures body == Lines(Records(rows))
    ensures ReadFile(body).Some? && IsTableOf(ReadFile(body).value, rows)
  {
    body := Joined("occurred_at", "amount_minor", "currency", "description", "source") + "\n";
    HeaderLines(rows);
    for n := 0 to |rows|
      invariant body == Lines(Records(rows[..n]))
    {
      var e := rows[n];
      body := body + Joined(e.stamp, AmountText(e.amount), Escape(e.currency), Escape(e.description), Escape(e.source)) + "\n";
      OneMoreRow(rows, n);
    }
    assert rows[..|rows|] == rows;
    ExportReadsBack(rows);
  }

  lemma OneMoreRow(rows: seq<Expense>, n: nat)
    requires n < |rows| && IsPlain(rows[n].stamp)
    ensures var e := rows[n];
      Lines(Records(rows[..n + 1]))
      == Lines(Records(rows[..n])) + Joined(e.stamp, AmountText(e.amount), Escape(e.currency), Escape(e.description), Escape(e.source)) + "\n"
  {
    var r := Records(rows[..n + 1]);
    assert r[..|r| - 1] == Records(rows[..n]);
    assert r[|r| - 1] == Fields(rows[n]);
    AmountIsPlain(rows[n].amount);
    LineOfFive(Fields(rows[n]));
  }

  lemma FiveJoined(a: string, b: string, c: string, d: string, e: string)
    ensures a + "," + (b + "," + (c + "," + (d + "," + e))) == Joined(a, b, c, d, e)
  {
  }

  lemma LineOfFive(f: seq<string>)
    requires |f| == 5
    ensures Line(f) == Joined(Escape(f[0]), Escape(f[1]), Escape(f[2]), Escape(f[3]), Escape(f[4]))
  {
    var f1 := f[1..];
    var f2 := f1[1..];
    var f3 := f2[1..];
    var f4 := f3[1..];
    assert Line(f4) == Escape(f[4]);
    assert Line(f3) == Escape(f[3]) + "," + Line(f4);
    assert Line(f2) == Escape(f[2]) + "," + Line(f3);
    assert Line(f1) == Escape(f[1]) + "," + Line(f2);
    FiveJoined(Escape(f[0]), Escape(f[1]), Escape(f[2]), Escape(f[3]), Escape(f[4]));
  }

  lemma AmountIsPlain(n: int)
    ensures IsPlain(AmountText(n))
  {
  }

  lemma HeaderIsPlain()
    ensures IsPlain("occurred_at") && IsPlain("amount_minor") && IsPlain("currency") && IsPlain("description") && IsPlain("source")
  {
  }

  lemma OneLine(r: seq<seq<string>>)
    requires |r| == 1 && r[0] != []
    ensures Lines(r) == Line(r[0]) + "\n"
  {
    assert r[..0] == [] && Lines(r[..0]) == "";
  }

  lemma PlainLine(f: seq<string>)
    requires |f| == 5 && forall i :: 0 <= i < 5 ==> IsPlain(f[i])
    ensures Line(f) == Joined(f[0], f[1], f[2], f[3], f[4])
  {
    LineOfFive(f);
  }

  lemma HeaderLines(rows: seq<Expense>)
    ensures Lines(Records(rows[..0])) == Joined("occurred_at", "amount_minor", "currency", "description", "source") + "\n"
  {
    HeaderIsPlain();
    PlainLine(HEADER);
    OneLine(Records(rows[..0]));
  }

  // ----- reading -----

  datatype Read<T> = Read(value: T, rest: string)

  /** Up to the first special character. */
  function ReadPlain(s: string): (r: Read<string>)
    ensures |r.rest| <= |s|
  {
    if s == "" || IsSpecial(s[0]) then Read("", s)
    else
      var r := ReadPlain(s[1..]);
      Read([s[0]] + r.value, r.rest)
  }

  /** From behind the opening quote to behind the closing one. */
  function ReadQuoted(s: string): (r: Option<Read<string>>)
    ensures r.Some? ==> |r.value.rest| < |s|
  {
    if s == "" then None
    else if s[0] != '"' then
      var r := ReadQuoted(s[1..]);
      if r.None? then None else Some(Read([s[0]] + r.value.value, r.value.rest))
    else if |s| > 1 && s[1] == '"' then
      var r := ReadQuoted(s[2..]);
      if r.None? then None else Some(Read("\"" + r.value.value, r.value.rest))
    else Some(Read("", s[1..]))
  }

  function ReadField(s: string): (r: Option<Read<string>>)
    ensures r.Some? ==> |r.value.rest| <= |s|
  {
    if s != "" && s[0] == '"' then ReadQuoted(s[1..]) else Some(ReadPlain(s))
  }

  function ReadRecord(s: string): (r: Option<Read<seq<string>>>)
    ensures r.Some? ==> |r.value.rest| <= |s|
    decreases |s|
  {
    var field := ReadField(s);
    if field.None? then None
    else
      var rest := field.value.rest;
      if rest == "" || rest[0] == '\n' then Some(Read([field.value.value], rest))
      else if rest[0] != ',' then None
      else
        var more := ReadRecord(rest[1..]);
        if more.None? then None else Some(Read([field.value.value] + more.value.value, more.value.rest))
  }

  /** All records; the last line may or may not end in a line feed. */
  function ReadFile(s: string): Option<seq<seq<string>>>
    decreases |s|
  {
    if s == "" then Some([])
    else
      var record := ReadRecord(s);
      if record.None? then None
      else if record.value.rest == "" then Some([record.value.value])
      else
        var more := ReadFile(record.value.rest[1..]);
        if more.None? then None else Some([record.value.value] + more.value)
  }

  // ----- the round trip -----

  lemma {:induction false} QuotedBack(v: string, rest: string)
    requires rest == "" || rest[0] != '"'
    ensures ReadQuoted(Doubled(v) + "\"" + rest) == Some(Read(v, rest))
  {
    var s := Doubled(v) + "\"" + rest;
    if v == "" {
      assert s == "\"" + rest;
      assert s[1..] == rest;
    } else {
      QuotedBack(v[1..], rest);
      var tail := Doubled(v[1..]) + "\"" + rest;
      if v[0] == '"' {
        assert s == "\"\"" + tail;
        assert s[2..] == tail;
      } else {
        assert s == [v[0]] + tail;
        assert s[1..] == tail;
      }
      assert v == [v[0]] + v[1..];
    }
  }

  lemma {:induction false} PlainBack(v: string, rest: string)
    requires IsPlain(v) && (rest == "" || IsSpecial(rest[0]))
    ensures ReadPlain(v + rest) == Read(v, rest)
  {
    if v == "" {
      assert v + rest == rest;
    } else {
      PlainBack(v[1..], rest);
      assert (v + rest)[1..] == v[1..] + rest;
      assert v == [v[0]] + v[1..];
    }
  }

  /** Ends a field: the end of the text, a comma or a line feed. */
  predicate EndsField(rest: string) { rest == "" || rest[0] == ',' || rest[0] == '\n' }

  lemma QuotedFieldBack(v: string, rest: string)
    requires EndsField(rest)
    ensures ReadField("\"" + Doubled(v) + "\"" + rest) == Some(Read(v, rest))
  {
    QuotedBack(v, rest);
    var tail := Doubled(v) + "\"" + rest;
    var s := "\"" + Doubled(v) + "\"" + rest;
    assert s == "\"" + tail;
    assert s[0] == '"' && s[1..] == tail;
  }

  lemma PlainFieldBack(v: string, rest: string)
    requires EndsField(rest) && IsPlain(v)
    ensures ReadField(v + rest) == Some(Read(v, rest))
  {
    PlainBack(v, rest);
    assert v != "" ==> (v + rest)[0] == v[0];
    assert v == "" ==> v + rest == rest;
  }

  lemma FieldBack(v: string, rest: string)
    requires EndsField(rest)
    ensures ReadField(Escape(v) + rest) == Some(Read(v, rest))
  {
    if IsPlain(v) {
      PlainFieldBack(v, rest);
    } else {
      QuotedFieldBack(v, rest);
    }
  }

  lemma Nested(a: string, b: string, c: string, d: string)
    ensures a + b + c + d == a + (b + (c + d)) && a + b + c == a + (b + c)
  {
  }

  lemma FirstAndRest<T>(s: seq<T>)
    requires s != []
    ensures s == [s[0]] + s[1..]
  {
  }

  lemma OneMoreField(s: string, v: string, tail: string, more: Read<seq<string>>)
    requires ReadField(s) == Some(Read(v, "," + tail)) && ReadRecord(tail) == Some(more)
    ensures ReadRecord(s) == Some(Read([v] + more.value, more.rest))
  {
  }

  lemma {:induction false} RecordBack(fields: seq<string>, rest: string)
    requires fields != [] && (rest == "" || rest[0] == '\n')
    ensures ReadRecord(Line(fields) + rest) == Some(Read(fields, rest))
    decreases |fields|
  {
    if |fields| == 1 {
      FieldBack(fields[0], rest);
      assert fields == [fields[0]];
    } else {
      var tail := Line(fields[1..]) + rest;
      RecordBack(fields[1..], rest);
      FieldBack(fields[0], "," + tail);
      OneMoreField(Escape(fields[0]) + ("," + tail), fields[0], tail, Read(fields[1..], rest));
      Nested(Escape(fields[0]), ",", Line(fields[1..]), rest);
      FirstAndRest(fields);
    }
  }

  predicate NoneEmpty(records: seq<seq<string>>) { forall i :: 0 <= i < |records| ==> records[i] != [] }

  lemma {:induction false} LinesFromTheFront(records: seq<seq<string>>)
    requires NoneEmpty(records) && records != []
    ensures Lines(records) == Line(records[0]) + "\n" + Lines(records[1..])
  {
    var last := |records| - 1;
    if last == 0 {
      assert records[1..] == [];
      OneLine(records);
      assert Line(records[0]) + "\n" + "" == Line(records[0]) + "\n";
    } else {
      LinesFromTheFront(records[..last]);
      var middle := records[..last][1..];
      MiddleOf(records);
      assert Lines(records[1..]) == Lines(middle) + Line(records[last]) + "\n";
      Regrouped(Line(records[0]), Lines(middle), Line(records[last]), "\n");
    }
  }

  lemma MiddleOf<T>(s: seq<T>)
    requires |s| > 1
    ensures s[..|s| - 1][1..] == s[1..][..|s| - 2] && s[1..][|s| - 2] == s[|s| - 1]
  {
  }

  lemma Regrouped(a: string, m: string, l: string, end: string)
    ensures a + end + m + l + end == a + end + (m + l + end)
  {
  }

  lemma OneMoreRecord(s: string, record: seq<string>, tail: string, more: seq<seq<string>>)
    requires s != "" && ReadRecord(s) == Some(Read(record, "\n" + tail)) && ReadFile(tail) == Some(more)
    ensures ReadFile(s) == Some([record] + more)
  {
  }

  lemma {:induction false} LinesBack(records: seq<seq<string>>)
    requires NoneEmpty(records)
    ensures ReadFile(Lines(records)) == Some(records)
  {
    if records != [] {
      var tail := Lines(records[1..]);
      LinesBack(records[1..]);
      LinesFromTheFront(records);
      Nested(Line(records[0]), "\n", tail, "");
      RecordBack(records[0], "\n" + tail);
      OneMoreRecord(Line(records[0]) + ("\n" + tail), records[0], tail, records[1..]);
      FirstAndRest(records);
    }
  }

  /** A decimal integer, with its sign. */
  function ReadAmount(text: string): Option<int> {
    var negative := text != "" && text[0] == '-';
    var digits := if negative then text[1..] else text;
    if digits == "" || !AllDigits(digits) then None
    else
      var n: int := Numeral(digits);
      Some(if negative then -n else n)
  }

  lemma AmountBack(n: int)
    ensures ReadAmount(AmountText(n)) == Some(n)
  {
    NumeralOfDigits(if n < 0 then -n else n);
    if n < 0 {
      assert AmountText(n)[1..] == DigitsOf(-n);
    }
  }

  /** The record is the expense's, column by column. */
  predicate IsRecordOf(record: seq<string>, e: Expense) {
    && |record| == 5 && record[0] == e.stamp && ReadAmount(record[1]) == Some(e.amount)
    && record[2] == e.currency && record[3] == e.description && record[4] == e.source
  }

  lemma FieldsAreRecord(e: Expense)
    ensures IsRecordOf(Fields(e), e)
  {
    AmountBack(e.amount);
  }

  /** What a reader should get: the header, and a record of each expense. */
  ghost predicate IsTableOf(records: seq<seq<string>>, rows: seq<Expense>) {
    && |records| == |rows| + 1 && records[0] == ["occurred_at", "amount_minor", "currency", "description", "source"]
    && forall i :: 0 <= i < |rows| ==> IsRecordOf(records[i + 1], rows[i])
  }

  lemma RecordsAreTable(rows: seq<Expense>, records: seq<seq<string>>)
    requires records == Records(rows)
    ensures IsTableOf(records, rows)
  {
    forall i | 0 <= i < |rows| ensures IsRecordOf(records[i + 1], rows[i]) {
      FieldsAreRecord(rows[i]);
    }
  }

  /** Reading the export gives back the header and every expense, column by column, whatever commas,
      quotes and line breaks its texts contain. */
  lemma ExportReadsBack(rows: seq<Expense>)
    ensures ReadFile(Lines(Records(rows))).Some? && IsTableOf(ReadFile(Lines(Records(rows))).value, rows)
  {
    LinesBack(Records(rows));
    RecordsAreTable(rows, Records(rows));
  }
}
