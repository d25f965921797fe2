/** Printing a table as CSV, and a reader of CSV (section 2 of RFC 4180, with a line feed as the record
    break) that undoes it. */
module Csv {
  type Table = seq<seq<string>>

  // ---------------------------------------------------------------------------
  // The printer
  // ---------------------------------------------------------------------------

  function Double(text: string): string {
    if text == "" then ""
    else if text[0] == '"' then "\"\"" + Double(text[1..])
    else [text[0]] + Double(text[1..])
  }

  predicate NeedsQuotes(text: string) {
    '"' in text || ',' in text || '\n' in text
  }

  function Escape(text: string): string {
    if NeedsQuotes(text) then "\"" + Double(text) + "\"" else text
  }

  function Join(parts: seq<string>, separator: string): string {
    if parts == [] then ""
    else if |parts| == 1 then parts[0]
    else parts[0] + (separator + Join(parts[1..], separator))
  }

  /** The texts of a row's cells: a column the row does not have prints as nothing. */
  function Cells(row: map<string, string>, columns: seq<string>): (cells: seq<string>)
    ensures |cells| == |columns|
  {
    seq(|columns|, i requires 0 <= i < |columns| => if columns[i] in row then row[columns[i]] else "")
  }

  function EscapeAll(cells: seq<string>): seq<string> {
    seq(|cells|, i requires 0 <= i < |cells| => Escape(cells[i]))
  }

  function Line(cells: seq<string>): string {
    Join(EscapeAll(cells), ",")
  }

  function AllCells(rows: seq<map<string, string>>, columns: seq<string>): Table {
    seq(|rows|, i requires 0 <= i < |rows| => Cells(rows[i], columns))
  }

  function Lines(table: Table): (lines: seq<string>)
    ensures |lines| == |table|
  {
    if table == [] then [] else [Line(table[0])] + Lines(table[1..])
  }

  /** The header is printed as it is; only cells are escaped. */
  function ToCsv(rows: seq<map<string, string>>, columns: seq<string>): string {
    Join([Join(columns, ",")] + Lines(AllCells(rows, columns)), "\n")
  }

  // ---------------------------------------------------------------------------
  // The reader
  // ---------------------------------------------------------------------------

  predicate AtBreak(s: string) {
    s == "" || s[0] == ',' || s[0] == '\n'
  }

  /** Up to the next break, quotes being ordinary characters. */
  function Plain(s: string): (r: (string, string))
    ensures |r.1| <= |s| && AtBreak(r.1)
  {
    if AtBreak(s) then ("", s)
    else
      var (text, rest) := Plain(s[1..]);
      ([s[0]] + text, rest)
  }

  /** Inside quotes: a doubled quote is a quote, a single one closes. */
  function Quoted(s: string): (r: (string, string))
    ensures |r.1| <= |s| && AtBreak(r.1)
  {
    if s == "" then ("", "")
    else if s[0] != '"' then
      var (text, rest) := Quoted(s[1..]);
      ([s[0]] + text, rest)
    else if |s| > 1 && s[1] == '"' then
      var (text, rest) := Quoted(s[2..]);
      ("\"" + text, rest)
    else Plain(s[1..])
  }

  function Field(s: string): (r: (string, string))
    ensures |r.1| <= |s| && AtBreak(r.1)
  {
    if s != "" && s[0] == '"' then Quoted(s[1..]) else Plain(s)
  }

  function Read(s: string): (t: Table)
    ensures |t| > 0 && |t[0]| > 0
    decreases |s|
  {
    var (text, rest) := Field(s);
    if rest == "" then [[text]]
    else
      var t := Read(rest[1..]);
      if rest[0] == ',' then [[text] + t[0]] + t[1..] else [[text]] + t
  }

  // ---------------------------------------------------------------------------
  // One field
  // ---------------------------------------------------------------------------

  /** A text the reader gives back without quotes around it. */
  predicate Safe(text: string) {
    ',' !in text && '\n' !in text && (text != "" ==> text[0] != '"')
  }

  lemma FirstAndRest(text: string, rest: string)
    requires text != ""
    ensures (text + rest)[0] == text[0] && (text + rest)[1..] == text[1..] + rest && [text[0]] + text[1..] == text
  {
  }

  lemma {:induction false} PlainReads(text: string, rest: string)
    requires ',' !in text && '\n' !in text && AtBreak(rest)
    ensures Plain(text + rest) == (text, rest)
  {
    if text == "" {
      assert text + rest == rest;
    } else {
      FirstAndRest(text, rest);
      PlainReads(text[1..], rest);
    }
  }

  function Doubled(c: char): string {
    if c == '"' then "\"\"" else [c]
  }

  lemma {:induction false} QuotedReads(text: string, rest: string)
    requires AtBreak(rest)
    ensures Quoted(Double(text) + ("\"" + rest)) == (text, rest)
  {
    var end := "\"" + rest;
    if text == "" {
      assert Double(text) + end == end && end[1..] == rest;
      assert rest != "" ==> rest[0] != '"';
    } else {
      QuotedReads(text[1..], rest);
      assert text == [text[0]] + text[1..];
      assert Double(text) + end == Doubled(text[0]) + (Double(text[1..]) + end);
    }
  }

  lemma QuotedAgain(quote: string, doubled: string, rest: string)
    ensures quote + doubled + quote + rest == quote + (doubled + (quote + rest))
  {
  }

  lemma SafeReads(text: string, rest: string)
    requires Safe(text) && AtBreak(rest)
    ensures Field(text + rest) == (text, rest)
  {
    PlainReads(text, rest);
    assert text == "" ==> text + rest == rest;
  }

  lemma EscapedReads(text: string, rest: string)
    requires AtBreak(rest)
    ensures Field(Escape(text) + rest) == (text, rest)
  {
    if NeedsQuotes(text) {
      QuotedReads(text, rest);
      QuotedAgain("\"", Double(text), rest);
    } else {
      SafeReads(text, rest);
    }
  }

  /** Text with a break in it is read only up to the break. */
  lemma {:induction false} PlainStops(text: string, rest: string)
    requires ',' in text || '\n' in text
    ensures |Plain(text + rest).0| < |text|
  {
    FirstAndRest(text, rest);
    if !AtBreak(text) {
      PlainStops(text[1..], rest);
    }
  }

  predicate OnlyQuotes(s: string) {
    forall i :: 0 <= i < |s| ==> s[i] == '"'
  }

  /** What is read between quotes is never the text itself with quotes in front: that would have to be
      nothing but quotes, of which half are lost. */
  lemma {:induction false} QuotedLoses(lead: string, text: string, rest: string)
    requires AtBreak(rest) && lead != "" && OnlyQuotes(lead)
    ensures Quoted(text + rest).0 != lead + text
    decreases |text|
  {
    var s, r := text + rest, Quoted(text + rest).0;
    assert (lead + text)[0] == '"';
    if |s| > 1 && s[0] == '"' && s[1] == '"' {
      assert |text| >= 2 && text[0] == '"' && text[1] == '"';
      assert s[2..] == text[2..] + rest && text == "\"\"" + text[2..];
      QuotedLoses(lead[1..] + "\"\"", text[2..], rest);
      assert r == "\"" + Quoted(text[2..] + rest).0;
      assert r[1..] == Quoted(text[2..] + rest).0;
      assert (lead + text)[1..] == lead[1..] + "\"\"" + text[2..];
    } else if s != "" && s[0] == '"' {
      assert r == Plain(s[1..]).0;
      assert r != "" ==> r[0] == s[1];
    }
  }

  /** A text is given back without quotes exactly when it is safe. */
  lemma ReadsBackExactlyWhenSafe(text: string, rest: string)
    requires AtBreak(rest)
    ensures Field(text + rest).0 == text <==> Safe(text)
  {
    if Safe(text) {
      SafeReads(text, rest);
    } else if text[0] == '"' {
      FirstAndRest(text, rest);
      QuotedLoses("\"", text[1..], rest);
    } else {
      FirstAndRest(text, rest);
      PlainStops(text, rest);
    }
  }

  // ---------------------------------------------------------------------------
  // The whole table
  // ---------------------------------------------------------------------------

  /** The text reads back as itself, however it was printed. */
  predicate PrintsAs(text: string, printed: string) {
    printed == Escape(text) || (printed == text && Safe(text))
  }

  lemma PrintedReads(text: string, printed: string, rest: string)
    requires PrintsAs(text, printed) && AtBreak(rest)
    ensures Field(printed + rest) == (text, rest)
  {
    if printed == Escape(text) {
      EscapedReads(text, rest);
    } else {
      SafeReads(text, rest);
    }
  }

  lemma JoinFirst(parts: seq<string>, separator: string, rest: string)
    requires |parts| > 1
    ensures Join(parts, separator) + rest == parts[0] + (separator + (Join(parts[1..], separator) + rest))
  {
  }

  lemma ReadLast(printed: string, text: string, rest: string)
    requires PrintsAs(text, printed) && (rest == "" || rest[0] == '\n')
    ensures Read(printed + rest) == if rest == "" then [[text]] else [[text]] + Read(rest[1..])
  {
    PrintedReads(text, printed, rest);
  }

  lemma ReadNext(printed: string, text: string, rest: string)
    requires PrintsAs(text, printed)
    ensures Read(printed + ("," + rest)) == [[text] + Read(rest)[0]] + Read(rest)[1..]
  {
    PrintedReads(text, printed, "," + rest);
    assert ("," + rest)[1..] == rest;
  }

  /** A line of escaped cells, or a header of names, followed by nothing or by more lines. */
  lemma {:induction false} LineReads(texts: seq<string>, printed: seq<string>, rest: string)
    requires |texts| == |printed| > 0 && (rest == "" || rest[0] == '\n')
    requires forall i :: 0 <= i < |texts| ==> PrintsAs(texts[i], printed[i])
    ensures Read(Join(printed, ",") + rest) == if rest == "" then [texts] else [texts] + Read(rest[1..])
  {
    if |texts| == 1 {
      ReadLast(printed[0], texts[0], rest);
      assert texts == [texts[0]];
    } else {
      LineReads(texts[1..], printed[1..], rest);
      JoinFirst(printed, ",", rest);
      ReadNext(printed[0], texts[0], Join(printed[1..], ",") + rest);
      assert texts == [texts[0]] + texts[1..];
    }
  }

  lemma OneLineReads(cells: seq<string>)
    requires cells != []
    ensures Read(Line(cells)) == [cells]
  {
    LineReads(cells, EscapeAll(cells), "");
    assert Line(cells) + "" == Line(cells);
  }

  lemma OneMoreLineReads(cells: seq<string>, more: string)
    requires cells != []
    ensures Read(Line(cells) + ("\n" + more)) == [cells] + Read(more)
  {
    LineReads(cells, EscapeAll(cells), "\n" + more);
    assert ("\n" + more)[1..] == more;
  }

  lemma JoinLines(table: Table)
    requires table != []
    ensures Join(Lines(table), "\n") ==
            if |table| == 1 then Line(table[0]) else Line(table[0]) + ("\n" + Join(Lines(table[1..]), "\n"))
  {
    assert Lines(table)[1..] == Lines(table[1..]);
  }

  lemma {:induction false} LinesRead(table: Table)
    requires table != [] && forall i :: 0 <= i < |table| ==> table[i] != []
    ensures Read(Join(Lines(table), "\n")) == table
  {
    JoinLines(table);
    if |table| == 1 {
      OneLineReads(table[0]);
    } else {
      LinesRead(table[1..]);
      OneMoreLineReads(table[0], Join(Lines(table[1..]), "\n"));
    }
  }

  function AfterHeader(rows: seq<map<string, string>>, columns: seq<string>): string {
    if rows == [] then "" else "\n" + Join(Lines(AllCells(rows, columns)), "\n")
  }

  lemma PrintsHeaderFirst(rows: seq<map<string, string>>, columns: seq<string>)
    ensures ToCsv(rows, columns) == Join(columns, ",") + AfterHeader(rows, columns)
  {
    var lines := Lines(AllCells(rows, columns));
    assert ([Join(columns, ",")] + lines)[1..] == lines;
    assert rows == [] ==> Join(columns, ",") + "" == Join(columns, ",");
  }

  /** Names that are safe are read back; the first that is not is not. */
  lemma {:induction false} UnsafeNameIsLost(columns: seq<string>, rest: string, i: nat)
    requires i < |columns| && !Safe(columns[i]) && (forall j :: 0 <= j < i ==> Safe(columns[j]))
    requires rest == "" || rest[0] == '\n'
    ensures Read(Join(columns, ",") + rest)[0] != columns
  {
    var s := Join(columns, ",") + rest;
    var more := if |columns| == 1 then rest else "," + Join(columns[1..], ",") + rest;
    assert s == columns[0] + more;
    ReadsBackExactlyWhenSafe(columns[0], more);
    if i > 0 {
      SafeReads(columns[0], more);
      assert more[1..] == Join(columns[1..], ",") + rest;
      UnsafeNameIsLost(columns[1..], rest, i - 1);
      assert Read(s)[0] == [columns[0]] + Read(more[1..])[0];
      assert columns == [columns[0]] + columns[1..];
    } else {
      assert Read(s)[0][0] == Field(s).0;
    }
  }

  lemma {:induction false} FirstUnsafe(columns: seq<string>) returns (i: nat)
    requires exists j :: 0 <= j < |columns| && !Safe(columns[j])
    ensures i < |columns| && !Safe(columns[i]) && forall j :: 0 <= j < i ==> Safe(columns[j])
  {
    if !Safe(columns[0]) {
      i := 0;
    } else {
      i := FirstUnsafe(columns[1..]);
      i := i + 1;
      forall j | 0 <= j < i ensures Safe(columns[j]) {
        assert j > 0 ==> columns[j] == columns[1..][j - 1];
      }
    }
  }

  /** Reading a printed table gives back the header and every cell if and only if there is a column and
      every column name is safe: without a comma or a line feed, and not beginning with a quote. Cells
      may hold anything. */
  lemma PrintedTablesReadBack(rows: seq<map<string, string>>, columns: seq<string>)
    ensures Read(ToCsv(rows, columns)) == [columns] + AllCells(rows, columns) <==>
            (columns != [] && forall i :: 0 <= i < |columns| ==> Safe(columns[i]))
  {
    var rest := AfterHeader(rows, columns);
    PrintsHeaderFirst(rows, columns);
    if columns == [] {
      assert |([columns] + AllCells(rows, columns))[0]| == 0;
    } else if forall i :: 0 <= i < |columns| ==> Safe(columns[i]) {
      LineReads(columns, columns, rest);
      if rows == [] {
        assert [columns] + AllCells(rows, columns) == [columns];
      } else {
        LinesRead(AllCells(rows, columns));
        assert rest[1..] == Join(Lines(AllCells(rows, columns)), "\n");
      }
    } else {
      var i := FirstUnsafe(columns);
      UnsafeNameIsLost(columns, rest, i);
      assert ([columns] + AllCells(rows, columns))[0] == columns;
    }
  }

  /** So tables with different cells never print alike. */
  lemma DifferentTablesPrintDifferently(a: seq<map<string, string>>, b: seq<map<string, string>>, columns: seq<string>)
    requires columns != [] && forall i :: 0 <= i < |columns| ==> Safe(columns[i])
    ensures ToCsv(a, columns) == ToCsv(b, columns) <==> AllCells(a, columns) == AllCells(b, columns)
  {
    PrintedTablesReadBack(a, columns);
    PrintedTablesReadBack(b, columns);
    assert ([columns] + AllCells(a, columns))[1..] == AllCells(a, columns);
    assert ([columns] + AllCells(b, columns))[1..] == AllCells(b, columns);
  }
}
