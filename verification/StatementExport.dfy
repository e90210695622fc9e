/** The CSV form of a statement, against the grammar of section 2 of RFC 4180. */
module StatementExport {
  import opened Wrappers
  import Numerals
  import MoneyCodec

  datatype Row = Row(createdAt: string, description: Option<string>, amount: string, currency: string)

  const HEADER := "date" + ("," + ("description" + ("," + ("amount" + ("," + ("currency" + "\n"))))))

  function Doubled(s: string): string {
    if s == "" then "" else (if s[0] == '"' then "\"\"" else [s[0]]) + Doubled(s[1..])
  }

  predicate NeedsQuotes(s: string) {
    ',' in s || '"' in s || '\n' in s
  }

  function CsvEscape(value: Option<string>): string {
    if value == None then ""
    else if NeedsQuotes(value.value) then "\"" + (Doubled(value.value) + "\"")
    else value.value
  }

  function Line(row: Row): string {
    row.createdAt + ("," + (CsvEscape(row.description) + ("," + (row.amount + ("," + (row.currency + "\n"))))))
  }

  function Lines(rows: seq<Row>): string {
    if rows == [] then "" else Line(rows[0]) + Lines(rows[1..])
  }

  function Csv(rows: seq<Row>): string {
    HEADER + Lines(rows)
  }

  method ToCsv(rows: seq<Row>) returns (csv: string)
    ensures csv == Csv(rows)
  {
    csv := HEADER;
    for i := 0 to |rows|
      invariant csv + Lines(rows[i..]) == Csv(rows)
    {
      var row := rows[i];
      ghost var before := csv;
      csv := csv + row.createdAt + "," + CsvEscape(row.description) + "," + row.amount + "," + row.currency + "\n";
      LineAppends(before, row);
      assert rows[i..][1..] == rows[i + 1..];
      Regroup(before, Line(row), Lines(rows[i + 1..]));
    }
    assert csv + "" == csv;
  }

  lemma LineAppends(csv: string, row: Row)
    ensures csv + row.createdAt + "," + CsvEscape(row.description) + "," + row.amount + "," + row.currency + "\n" ==
            csv + Line(row)
  {
    var a, b, c, d := row.createdAt, CsvEscape(row.description), row.amount, row.currency;
    Regroup(csv + a + "," + b + "," + c + ",", d, "\n");
    Regroup(csv + a + "," + b + "," + c, ",", d + "\n");
    Regroup(csv + a + "," + b + ",", c, "," + (d + "\n"));
    Regroup(csv + a + "," + b, ",", c + ("," + (d + "\n")));
    Regroup(csv + a + ",", b, "," + (c + ("," + (d + "\n"))));
    Regroup(csv + a, ",", b + ("," + (c + ("," + (d + "\n")))));
    Regroup(csv, a, "," + (b + ("," + (c + ("," + (d + "\n"))))));
  }

  lemma Regroup(a: string, b: string, c: string)
    ensures a + b + c == a + (b + c)
  {
  }

  // ---- Reading, by section 2 of RFC 4180 with a line feed ending each record ----

  /** Characters of a field that is not in quotes. */
  predicate IsTextData(c: char) {
    c != ',' && c != '"' && c != '\n' && c != '\r'
  }

  function ReadPlain(s: string): (r: (string, string))
    ensures |r.1| <= |s|
  {
    if s == "" || !IsTextData(s[0]) then ("", s)
    else var r := ReadPlain(s[1..]); ([s[0]] + r.0, r.1)
  }

  /** After the opening quote: the value up to the closing one. */
  function ReadQuoted(s: string): (r: Option<(string, string)>)
    ensures r.Some? ==> |r.value.1| < |s|
  {
    if s == "" then None
    else if s[0] != '"' then
      match ReadQuoted(s[1..])
      case None => None
      case Some(r) => Some(([s[0]] + r.0, r.1))
    else if |s| > 1 && s[1] == '"' then
      match ReadQuoted(s[2..])
      case None => None
      case Some(r) => Some(("\"" + r.0, r.1))
    else Some(("", s[1..]))
  }

  function ReadField(s: string): (r: Option<(string, string)>)
    ensures r.Some? ==> |r.value.1| <= |s|
  {
    if s != "" && s[0] == '"' then ReadQuoted(s[1..]) else Some(ReadPlain(s))
  }

  /** One record, and what follows it: nothing, or a line feed and more. */
  function ReadRecord(s: string): (r: Option<(seq<string>, string)>)
    ensures r.Some? ==> |r.value.1| <= |s| && (r.value.1 == "" || r.value.1[0] == '\n')
    decreases |s|
  {
    match ReadField(s)
    case None => None
    case Some(f) =>
      if f.1 == "" || f.1[0] == '\n' then Some(([f.0], f.1))
      else if f.1[0] != ',' then None
      else
        match ReadRecord(f.1[1..])
        case None => None
        case Some(r) => Some(([f.0] + r.0, r.1))
  }

  /** The records of a file; the line feed after the last one may be missing. */
  function ReadFile(s: string): Option<seq<seq<string>>>
    decreases |s|
  {
    match ReadRecord(s)
    case None => None
    case Some(r) =>
      if |r.1| <= 1 then Some([r.0])
      else
        match ReadFile(r.1[1..])
        case None => None
        case Some(rest) => Some([r.0] + rest)
  }

  // ---- What a reader gets back ----

  const TITLES: seq<string> := ["date", "description", "amount", "currency"]

  function Fields(row: Row): seq<string> {
    [row.createdAt, if row.description.Some? then row.description.value else "", row.amount, row.currency]
  }

  function Records(rows: seq<Row>): seq<seq<string>> {
    if rows == [] then [] else [Fields(rows[0])] + Records(rows[1..])
  }

  predicate IsPlain(s: string) {
    forall i :: 0 <= i < |s| ==> IsTextData(s[i])
  }

  /** Times, amounts and currency codes hold no separator. */
  predicate PlainRow(row: Row) {
    IsPlain(row.createdAt) && IsPlain(row.amount) && IsPlain(row.currency)
  }

  /** Amounts printed for a statement are plain, in every currency. */
  lemma AmountIsPlain(units: int, digits: int)
    ensures IsPlain(MoneyCodec.PlainString(units, digits))
  {
    var t := MoneyCodec.PlainString(units, digits);
    forall i | 0 <= i < |t| ensures IsTextData(t[i]) {
      AmountCharacter(units, digits, i);
    }
  }

  lemma AmountCharacter(units: int, digits: int, i: nat)
    requires i < |MoneyCodec.PlainString(units, digits)|
    ensures var c := MoneyCodec.PlainString(units, digits)[i];
            Numerals.IsDigit(c) || c == '-' || c == '.'
  {
  }

  predicate PlainRows(rows: seq<Row>) {
    forall i :: 0 <= i < |rows| ==> PlainRow(rows[i])
  }

  /** A carriage return alone does not make the writer use quotes. */
  predicate ReturnInQuotes(description: Option<string>) {
    description.Some? && '\r' in description.value ==> NeedsQuotes(description.value)
  }

  predicate ReturnsInQuotes(rows: seq<Row>) {
    forall i :: 0 <= i < |rows| ==> ReturnInQuotes(rows[i].description)
  }

  lemma {:induction false} PlainReadsBack(s: string, rest: string)
    requires IsPlain(s) && rest != "" && !IsTextData(rest[0])
    ensures ReadPlain(s + rest) == (s, rest)
  {
    if s == "" {
      assert s + rest == rest;
    } else {
      assert (s + rest)[1..] == s[1..] + rest;
      PlainReadsBack(s[1..], rest);
      assert s == [s[0]] + s[1..];
    }
  }

  lemma {:induction false} QuotedReadsBack(s: string, rest: string)
    requires rest == "" || rest[0] != '"'
    ensures ReadQuoted(Doubled(s) + ("\"" + rest)) == Some((s, rest))
  {
    var t := Doubled(s) + ("\"" + rest);
    if s == "" {
      assert t == "\"" + rest;
      assert t[1..] == rest;
    } else {
      var more := Doubled(s[1..]) + ("\"" + rest);
      QuotedReadsBack(s[1..], rest);
      assert s == [s[0]] + s[1..];
      if s[0] == '"' {
        assert t == "\"\"" + more;
        assert t[2..] == more;
      } else {
        assert t == [s[0]] + more;
        assert t[1..] == more;
      }
    }
  }

  lemma PlainWhen(s: string)
    requires !NeedsQuotes(s)
    ensures IsPlain(s) <==> '\r' !in s
  {
    if '\r' in s {
      var i :| 0 <= i < |s| && s[i] == '\r';
      assert !IsTextData(s[i]);
    }
  }

  /** The text before the first carriage return. */
  lemma {:induction false} StopsAtReturn(s: string, rest: string)
    requires !NeedsQuotes(s) && '\r' in s
    ensures var r := ReadPlain(s + rest);
            r.1 != "" && r.1[0] == '\r'
  {
    assert (s + rest)[0] == s[0];
    assert s[0] in s;
    if s[0] != '\r' {
      assert (s + rest)[1..] == s[1..] + rest;
      assert s == [s[0]] + s[1..];
      StopsAtReturn(s[1..], rest);
    }
  }

  function ValueOf(description: Option<string>): string {
    if description.Some? then description.value else ""
  }

  /** An escaped description is read back, unless it holds a bare carriage return. */
  lemma FieldReadsBack(description: Option<string>, rest: string)
    requires rest != "" && rest[0] == ',' && ReturnInQuotes(description)
    ensures ReadField(CsvEscape(description) + rest) == Some((ValueOf(description), rest))
  {
    var e := CsvEscape(description);
    var v := ValueOf(description);
    if description.Some? && NeedsQuotes(v) {
      assert e + rest == "\"" + (Doubled(v) + ("\"" + rest));
      assert (e + rest)[1..] == Doubled(v) + ("\"" + rest);
      QuotedReadsBack(v, rest);
    } else {
      PlainWhen(v);
      PlainReadsBack(v, rest);
      assert (e + rest)[0] == if v == "" then ',' else v[0];
      assert v != "" ==> v[0] in v;
    }
  }

  lemma BareReturnStops(description: Option<string>, rest: string)
    requires !ReturnInQuotes(description)
    ensures var r := ReadField(CsvEscape(description) + rest);
            r.Some? && r.value.1 != "" && r.value.1[0] == '\r'
  {
    var v := description.value;
    StopsAtReturn(v, rest);
    assert (v + rest)[0] == v[0] && v[0] in v;
  }

  lemma PlainFieldReadsBack(s: string, rest: string)
    requires IsPlain(s) && rest != "" && (rest[0] == ',' || rest[0] == '\n')
    ensures ReadField(s + rest) == Some((s, rest))
  {
    PlainReadsBack(s, rest);
    assert (s + rest)[0] == if s == "" then rest[0] else s[0];
  }

  lemma PlainFieldThenMore(s: string, more: string)
    requires IsPlain(s)
    ensures ReadRecord(s + ("," + more)) ==
            match ReadRecord(more) { case None => None case Some(r) => Some(([s] + r.0, r.1)) }
  {
    PlainFieldReadsBack(s, "," + more);
    assert ("," + more)[1..] == more;
  }

  lemma LastField(s: string, rest: string)
    requires IsPlain(s)
    ensures ReadRecord(s + ("\n" + rest)) == Some(([s], "\n" + rest))
  {
    PlainFieldReadsBack(s, "\n" + rest);
  }

  function Tail(row: Row, rest: string): string {
    row.amount + ("," + (row.currency + ("\n" + rest)))
  }

  lemma TailReads(row: Row, rest: string)
    requires PlainRow(row)
    ensures ReadRecord(Tail(row, rest)) == Some(([row.amount, row.currency], "\n" + rest))
  {
    PlainFieldThenMore(row.amount, row.currency + ("\n" + rest));
    LastField(row.currency, rest);
    assert [row.amount] + [row.currency] == [row.amount, row.currency];
  }

  lemma DescriptionReads(row: Row, rest: string)
    requires PlainRow(row)
    ensures ReadRecord(CsvEscape(row.description) + ("," + Tail(row, rest))) ==
            if ReturnInQuotes(row.description)
                then Some(([ValueOf(row.description), row.amount, row.currency], "\n" + rest)) else None
  {
    var more := "," + Tail(row, rest);
    if ReturnInQuotes(row.description) {
      FieldReadsBack(row.description, more);
      assert more[1..] == Tail(row, rest);
      TailReads(row, rest);
      var v := ValueOf(row.description);
      assert [v] + [row.amount, row.currency] == [v, row.amount, row.currency];
    } else {
      BareReturnStops(row.description, more);
    }
  }

  lemma LineRegroups(row: Row, rest: string)
    ensures Line(row) + rest == row.createdAt + ("," + (CsvEscape(row.description) + ("," + Tail(row, rest))))
  {
  }

  lemma LineReads(row: Row, rest: string)
    requires PlainRow(row)
    ensures ReadRecord(Line(row) + rest) ==
            if ReturnInQuotes(row.description) then Some((Fields(row), "\n" + rest)) else None
  {
    LineRegroups(row, rest);
    PlainFieldThenMore(row.createdAt, CsvEscape(row.description) + ("," + Tail(row, rest)));
    DescriptionReads(row, rest);
    assert [row.createdAt] + [ValueOf(row.description), row.amount, row.currency] == Fields(row);
  }

  lemma {:induction false} LinesRead(rows: seq<Row>)
    requires rows != [] && PlainRows(rows)
    ensures Lines(rows) != ""
    ensures ReadFile(Lines(rows)) == if ReturnsInQuotes(rows) then Some(Records(rows)) else None
  {
    var rest := Lines(rows[1..]);
    LineReads(rows[0], rest);
    assert rows == [rows[0]] + rows[1..];
    if |rows| == 1 {
      assert Records(rows) == [Fields(rows[0])];
    } else {
      LinesRead(rows[1..]);
      assert ("\n" + rest)[1..] == rest;
    }
  }

  /** The header is the line of a row of titles. */
  const HEADINGS := Row("date", Some("description"), "amount", "currency")

  lemma HeadingsPlain()
    ensures PlainRow(HEADINGS) && !NeedsQuotes("description") && '\r' !in "description"
    ensures Fields(HEADINGS) == TITLES
  {
  }

  lemma HeaderLine()
    ensures HEADER == Line(HEADINGS)
  {
    HeadingsPlain();
  }

  lemma HeaderReads(rest: string)
    ensures ReadRecord(HEADER + rest) == Some((TITLES, "\n" + rest))
  {
    HeaderLine();
    HeadingsPlain();
    LineReads(HEADINGS, rest);
  }

  /** A reader recovers the header and every row exactly when no description has a carriage return but no comma, quote
      or line feed. */
  lemma CsvReadsBack(rows: seq<Row>)
    requires PlainRows(rows)
    ensures ReadFile(Csv(rows)) == Some([TITLES] + Records(rows)) <==> ReturnsInQuotes(rows)
    ensures !ReturnsInQuotes(rows) ==> ReadFile(Csv(rows)) == None
  {
    var rest := Lines(rows);
    HeaderReads(rest);
    if rows != [] {
      LinesRead(rows);
      assert ("\n" + rest)[1..] == rest;
    } else {
      assert [TITLES] + Records(rows) == [TITLES];
    }
  }

  lemma {:induction false} RecordsAre(rows: seq<Row>, i: nat)
    requires i < |rows|
    ensures |Records(rows)| == |rows|
    ensures var row := rows[i];
            Records(rows)[i] ==
            [row.createdAt, if row.description == None then "" else row.description.value, row.amount, row.currency]
  {
    if |rows| == 1 {
      assert Records(rows[1..]) == [];
    } else {
      RecordsAre(rows[1..], if i > 0 then i - 1 else 0);
    }
  }

  /** What a reader gets: the four titles, then for each row its time, its description or nothing, its amount and
      currency. */
  lemma CsvRecords(rows: seq<Row>)
    requires PlainRows(rows) && ReadFile(Csv(rows)).Some?
    ensures var records := ReadFile(Csv(rows)).value;
            && |records| == |rows| + 1 && records[0] == ["date", "description", "amount", "currency"]
            && forall i :: 0 <= i < |rows| ==>
                 var row := rows[i];
                 records[i + 1] ==
                 [row.createdAt, ValueOf(row.description), row.amount, row.currency]
  {
    CsvReadsBack(rows);
    if rows != [] { RecordsAre(rows, 0); }
    forall i | 0 <= i < |rows| ensures Records(rows)[i] == Fields(rows[i]) {
      RecordsAre(rows, i);
    }
  }

  /** In particular without carriage returns, whatever commas, quotes and line feeds the descriptions hold. */
  lemma NoReturnsReadBack(rows: seq<Row>)
    requires PlainRows(rows)
    requires forall i :: 0 <= i < |rows| ==> '\r' !in ValueOf(rows[i].description)
    ensures ReadFile(Csv(rows)) == Some([TITLES] + Records(rows))
  {
    CsvReadsBack(rows);
    forall i | 0 <= i < |rows| ensures ReturnInQuotes(rows[i].description) {
    }
  }

  /** A description of two words with a carriage return between them makes the file unreadable. */
  lemma BareReturnUnreadable(row: Row)
    requires PlainRow(row) && row.description == Some("a\rb")
    ensures ReadFile(Csv([row])) == None
  {
    var d := "a\rb";
    assert d[1] == '\r' && !NeedsQuotes(d);
    assert !ReturnInQuotes([row][0].description);
    CsvReadsBack([row]);
  }

  // ---- Pages of the printed form ----

  function Joined(pages: seq<seq<Row>>): seq<Row> {
    if pages == [] then [] else Joined(pages[..|pages| - 1]) + pages[|pages| - 1]
  }

  /** Every page but the last is full, and the last is not empty. */
  predicate WellPaged(pages: seq<seq<Row>>, rowsPerPage: nat) {
    && (forall i :: 0 <= i < |pages| - 1 ==> |pages[i]| == rowsPerPage)
    && (pages != [] ==> 0 < |pages[|pages| - 1]| <= rowsPerPage)
  }

  predicate AllFull(pages: seq<seq<Row>>, rowsPerPage: nat) {
    forall k :: 0 <= k < |pages| ==> |pages[k]| == rowsPerPage
  }

  lemma PageAppended(pages: seq<seq<Row>>, page: seq<Row>, rowsPerPage: nat)
    requires AllFull(pages, rowsPerPage) && 0 < |page| <= rowsPerPage
    ensures WellPaged(pages + [page], rowsPerPage) && Joined(pages + [page]) == Joined(pages) + page
    ensures |page| == rowsPerPage ==> AllFull(pages + [page], rowsPerPage)
  {
    assert (pages + [page])[..|pages|] == pages;
  }

  /** The pages of the first `done` rows, of which only the last page of all may be short. */
  predicate PagesOf(pages: seq<seq<Row>>, rows: seq<Row>, done: nat, rowsPerPage: nat)
    requires done <= |rows|
  {
    WellPaged(pages, rowsPerPage) && Joined(pages) == rows[..done] && (done < |rows| ==> AllFull(pages, rowsPerPage))
  }

  lemma PagesStep(pages: seq<seq<Row>>, rows: seq<Row>, done: nat, end: nat, rowsPerPage: nat)
    requires done < |rows| && done < end <= |rows| && PagesOf(pages, rows, done, rowsPerPage)
    requires if end < |rows| then end == done + rowsPerPage else |rows| <= done + rowsPerPage
    ensures PagesOf(pages + [rows[done..end]], rows, end, rowsPerPage)
  {
    PageAppended(pages, rows[done..end], rowsPerPage);
    assert rows[..done] + rows[done..end] == rows[..end];
  }

  method Paginate(rows: seq<Row>, rowsPerPage: nat) returns (pages: seq<seq<Row>>)
    requires rowsPerPage > 0
    ensures Joined(pages) == rows && WellPaged(pages, rowsPerPage)
  {
    pages := [];
    var i := 0;
    ghost var done := 0;
    while i < |rows|
      invariant 0 <= i && done == if i < |rows| then i else |rows|
      invariant PagesOf(pages, rows, done, rowsPerPage)
      decreases |rows| - i
    {
      var end := if i + rowsPerPage < |rows| then i + rowsPerPage else |rows|;
      PagesStep(pages, rows, i, end, rowsPerPage);
      pages := pages + [rows[i..end]];
      i := i + rowsPerPage;
      done := end;
    }
    assert rows[..|rows|] == rows;
  }
}
