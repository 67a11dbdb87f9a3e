/** Reports/ReportTable.py: a query result (the cursor's column descriptions and fetched
    rows) turned into a dictionary of upper-cased headers and rows, and that dictionary
    rendered as CSV and as a comma-joined "JSON" string. The script is Python 2. */
module PyReportTable {
  import opened JavaStrings

  /** The values a fetched row holds. */
  datatype PyValue = PyStr(s: string) | PyInt(i: int) | PyNone

  /** str(v). */
  function Str(v: PyValue): string {
    match v
    case PyStr(s) => s
    case PyInt(i) => IntToString(i)
    case PyNone => "None"
  }

  /** repr(v), as str(tuple) shows each element. */
  function Repr(v: PyValue): string {
    match v
    case PyStr(s) => "'" + s + "'"
    case PyInt(i) => IntToString(i)
    case PyNone => "None"
  }

  /** str(row) for a row tuple: the elements' reprs between parentheses, a lone element
      followed by a comma. */
  function RowRepr(row: seq<PyValue>): (r: string)
    ensures |r| >= 2 && r[0] == '(' && r[|r| - 1] == ')'
  {
    if |row| == 1 then "(" + Repr(row[0]) + ",)"
    else "(" + Join(", ", seq(|row|, j requires 0 <= j < |row| => Repr(row[j]))) + ")"
  }

  /** One entry of cursor.description; its first field is the column name. */
  datatype ColumnDescription = ColumnDescription(name: string)

  /** What New reads from the cursor: its description and the rows fetchall returns. */
  datatype Cursor = Cursor(description: seq<ColumnDescription>, rows: seq<seq<PyValue>>)

  /** The dictionary {"headers": ..., "table": ...}. */
  datatype Analyses = Analyses(headers: seq<string>, table: seq<seq<PyValue>>)

  function UpperNames(description: seq<ColumnDescription>): (r: seq<string>)
    ensures |r| == |description|
    ensures forall i :: 0 <= i < |r| ==> r[i] == ToUpper(description[i].name)
  {
    seq(|description|, i requires 0 <= i < |description| => ToUpper(description[i].name))
  }

  predicate HasNoLowerCase(s: string) {
    forall k :: 0 <= k < |s| ==> !('a' <= s[k] <= 'z')
  }

  /** The cells of a row as str() shows them. */
  function CellTexts(row: seq<PyValue>): (r: seq<string>)
    ensures |r| == |row| && forall j :: 0 <= j < |row| ==> r[j] == Str(row[j])
  {
    seq(|row|, j requires 0 <= j < |row| => Str(row[j]))
  }

  /** The lines to_csv writes: the header line, then one line per row. */
  function CsvLines(a: Analyses): (r: seq<string>)
    ensures |r| == |a.table| + 1 && r[0] == Join(",", a.headers)
    ensures forall i :: 0 <= i < |a.table| ==> r[i + 1] == Join(",", CellTexts(a.table[i]))
  {
    [Join(",", a.headers)] + seq(|a.table|, i requires 0 <= i < |a.table| => Join(",", CellTexts(a.table[i])))
  }

  function Csv(a: Analyses): string {
    Suffixed(CsvLines(a), "\n")
  }

  /** n copies of one text. */
  function Repeated(t: string, n: nat): (r: seq<string>)
    ensures |r| == n && forall i :: 0 <= i < n ==> r[i] == t
  {
    if n == 0 then [] else Repeated(t, n - 1) + [t]
  }

  /** What to_json puts for one row: str(row), once per column. */
  function JsonRow(row: seq<PyValue>): (r: string)
    ensures row == [] ==> r == ""
  {
    Join(",", Repeated(RowRepr(row), |row|))
  }

  /** The parts to_json joins: the header line, then one part per row. */
  function JsonParts(a: Analyses): (r: seq<string>)
    ensures |r| == |a.table| + 1 && r[0] == Join(",", a.headers)
    ensures forall i :: 0 <= i < |a.table| ==> r[i + 1] == JsonRow(a.table[i])
  {
    assert forall i :: 0 <= i < |a.table| ==> RowsJson(a.table)[i] == JsonRow(a.table[i]) by {
      forall i | 0 <= i < |a.table| {
        RowsJsonAt(a.table, i);
      }
    }
    [Join(",", a.headers)] + RowsJson(a.table)
  }

  function RowsJson(rows: seq<seq<PyValue>>): (r: seq<string>)
    ensures |r| == |rows|
  {
    if rows == [] then [] else RowsJson(rows[..|rows| - 1]) + [JsonRow(rows[|rows| - 1])]
  }

  lemma {:induction false} RowsJsonAt(rows: seq<seq<PyValue>>, i: nat)
    requires i < |rows|
    ensures RowsJson(rows)[i] == JsonRow(rows[i])
    decreases |rows|
  {
    if i < |rows| - 1 {
      RowsJsonAt(rows[..|rows| - 1], i);
    }
  }

  function Json(a: Analyses): string {
    Join(",", JsonParts(a))
  }

  /** to_json as its loop over the columns evidently means it: each column's str(x), so
      the same parts as the CSV lines. */
  function JsonIntended(a: Analyses): string {
    Join(",", CsvLines(a))
  }

  // ------------------------------------------------------------------ properties

  lemma UpperCharHasNoLowerCase(c: char)
    ensures !('a' <= UpperChar(c) <= 'z') && UpperChar(UpperChar(c)) == UpperChar(c)
  {
  }

  /** The headers of New hold no lower-case letter, and upper-casing them again changes
      nothing. */
  lemma UpperNamesAreUpperCase(description: seq<ColumnDescription>, i: nat)
    requires i < |description|
    ensures HasNoLowerCase(UpperNames(description)[i])
    ensures ToUpper(UpperNames(description)[i]) == UpperNames(description)[i]
  {
    var h := UpperNames(description)[i];
    forall k | 0 <= k < |h| ensures !('a' <= h[k] <= 'z') && UpperChar(h[k]) == h[k] {
      UpperCharHasNoLowerCase(description[i].name[k]);
    }
  }

  /** No line of to_csv holds a line break when no header or cell does. */
  lemma CsvLinesHaveNoBreaks(a: Analyses)
    requires forall i :: 0 <= i < |a.headers| ==> NoneInClass(a.headers[i], LineBreak)
    requires forall i, j :: 0 <= i < |a.table| && 0 <= j < |a.table[i]| ==> NoneInClass(Str(a.table[i][j]), LineBreak)
    ensures forall i :: 0 <= i < |CsvLines(a)| ==> NoneInClass(CsvLines(a)[i], LineBreak)
  {
    var lines := CsvLines(a);
    forall i | 0 <= i < |lines| ensures NoneInClass(lines[i], LineBreak) {
      if i == 0 {
        JoinNoneInClass(",", a.headers, LineBreak);
      } else {
        JoinNoneInClass(",", CellTexts(a.table[i - 1]), LineBreak);
      }
    }
  }

  /** Read back line by line, to_csv's output is the header line followed by exactly one
      line per row, as long as no header or cell holds a line break. */
  lemma CsvHasOneLinePerRow(a: Analyses)
    requires forall i :: 0 <= i < |a.headers| ==> NoneInClass(a.headers[i], LineBreak)
    requires forall i, j :: 0 <= i < |a.table| && 0 <= j < |a.table[i]| ==> NoneInClass(Str(a.table[i][j]), LineBreak)
    ensures ReadLines(Csv(a)) == CsvLines(a)
    ensures |ReadLines(Csv(a))| == |a.table| + 1
  {
    CsvLinesHaveNoBreaks(a);
    ReadLinesOfSuffixed(CsvLines(a));
  }

  lemma {:induction false} ReplacedLineEnds(lines: seq<string>)
    requires lines != []
    requires forall i :: 0 <= i < |lines| ==> '\n' !in lines[i]
    ensures ReplaceChar(Suffixed(lines, "\n"), '\n', ',') == Join(",", lines) + ","
    decreases |lines|
  {
    var l, rest := lines[0], Suffixed(lines[1..], "\n");
    assert Suffixed(lines, "\n") == l + ("\n" + rest);
    ReplaceCharAppend(l, "\n" + rest, '\n', ',');
    ReplaceCharAppend("\n", rest, '\n', ',');
    assert ReplaceChar(l, '\n', ',') == l;
    assert ReplaceChar("\n", '\n', ',') == ",";
    if |lines| > 1 {
      ReplacedLineEnds(lines[1..]);
    } else {
      assert rest == "" && ReplaceChar(rest, '\n', ',') == "";
    }
  }

  /** The corrected to_json is the CSV on one line: every '\n' of to_csv's output turned
      into ',' gives it, followed by one ','. */
  lemma JsonIntendedIsCsvOnOneLine(a: Analyses)
    requires forall i :: 0 <= i < |a.headers| ==> NoneInClass(a.headers[i], LineBreak)
    requires forall i, j :: 0 <= i < |a.table| && 0 <= j < |a.table[i]| ==> NoneInClass(Str(a.table[i][j]), LineBreak)
    ensures ReplaceChar(Csv(a), '\n', ',') == JsonIntended(a) + ","
  {
    var lines := CsvLines(a);
    CsvLinesHaveNoBreaks(a);
    forall i | 0 <= i < |lines| ensures '\n' !in lines[i] {
    }
    ReplacedLineEnds(lines);
  }

  /** The row (1, 2) under header A: to_json as written gives "A,(1, 2),(1, 2)" where
      "A,1,2" is meant. */
  lemma JsonRepeatsRowText()
    ensures Json(Analyses(["A"], [[PyInt(1), PyInt(2)]])) == "A,(1, 2),(1, 2)"
    ensures JsonIntended(Analyses(["A"], [[PyInt(1), PyInt(2)]])) == "A,1,2"
  {
    var a := Analyses(["A"], [[PyInt(1), PyInt(2)]]);
    OneTwoTexts();
    assert JsonParts(a) == ["A", "(1, 2),(1, 2)"];
    assert ["A", "(1, 2),(1, 2)"][1..] == ["(1, 2),(1, 2)"];
    assert CsvLines(a) == ["A", "1,2"];
    assert ["A", "1,2"][1..] == ["1,2"];
  }

  lemma OneTwoTexts()
    ensures RowRepr([PyInt(1), PyInt(2)]) == "(1, 2)"
    ensures JsonRow([PyInt(1), PyInt(2)]) == "(1, 2),(1, 2)"
    ensures Join(",", CellTexts([PyInt(1), PyInt(2)])) == "1,2"
  {
    var row := [PyInt(1), PyInt(2)];
    assert NatToString(1) == "1" && NatToString(2) == "2";
    assert seq(|row|, j requires 0 <= j < |row| => Repr(row[j])) == ["1", "2"];
    assert ["1", "2"][1..] == ["2"];
    assert Join(", ", ["1", "2"]) == "1, 2";
    assert RowRepr(row) == "(1, 2)";
    assert Repeated("(1, 2)", 2) == ["(1, 2)", "(1, 2)"];
    assert ["(1, 2)", "(1, 2)"][1..] == ["(1, 2)"];
    assert CellTexts(row) == ["1", "2"];
  }

  // ------------------------------------------------------------------ the methods

  /** New(obj): the upper-cased column names and the fetched rows, appended in order. */
  method New(cursor: Cursor) returns (d: Analyses)
    ensures d.headers == UpperNames(cursor.description)
    ensures d.table == cursor.rows
  {
    var headers := UpperNames(cursor.description);
    var fetched: seq<seq<PyValue>> := [];
    for i := 0 to |cursor.rows|
      invariant fetched == cursor.rows[..i]
    {
      fetched := fetched + [cursor.rows[i]];
    }
    assert cursor.rows[..|cursor.rows|] == cursor.rows;
    d := Analyses(headers, fetched);
  }

  /** to_csv(analyses). */
  method ToCsv(a: Analyses) returns (out: string)
    ensures out == Csv(a)
  {
    var lines := CsvLines(a);
    out := Join(",", a.headers) + "\n";
    assert out == Suffixed(lines[..1], "\n");
    for i := 0 to |a.table|
      invariant out == Suffixed(lines[..i + 1], "\n")
    {
      var row := a.table[i];
      var rowarray: seq<string> := [];
      for j := 0 to |row|
        invariant rowarray == CellTexts(row)[..j]
      {
        rowarray := rowarray + [Str(row[j])];
      }
      assert rowarray == CellTexts(row);
      var rowstr := Join(",", rowarray);
      SuffixedSnoc(lines[..i + 1], rowstr, "\n");
      assert lines[..i + 2] == lines[..i + 1] + [rowstr];
      out := out + rowstr + "\n";
    }
    assert lines[..|a.table| + 1] == lines;
  }

  /** to_json(analyses), as written. */
  method ToJson(a: Analyses) returns (out: string)
    ensures out == Json(a)
  {
    var h: seq<string> := [];
    for k := 0 to |a.headers|
      invariant h == a.headers[..k]
    {
      h := h + [a.headers[k]];
    }
    assert h == a.headers;
    var intarr := [Join(",", h)];
    for i := 0 to |a.table|
      invariant intarr == [Join(",", a.headers)] + RowsJson(a.table[..i])
    {
      assert a.table[..i + 1][..i] == a.table[..i];
      var text := RowJson(a.table[i]);
      intarr := intarr + [text];
    }
    assert a.table[..|a.table|] == a.table;
    out := Join(",", intarr);
  }

  /** The inner loop of to_json: str(r) appended once per column, then joined. */
  method RowJson(r: seq<PyValue>) returns (text: string)
    ensures text == JsonRow(r)
  {
    var rowarray: seq<string> := [];
    for j := 0 to |r|
      invariant rowarray == Repeated(RowRepr(r), j)
    {
      rowarray := rowarray + [RowRepr(r)];
    }
    text := Join(",", rowarray);
  }
}
