/** GenericReportTable: a report as a list of rows, the first being the header row, with
    a flag fixed at construction saying whether it holds any data row. */
module ReportTables {
  import opened Wrappers
  import opened JavaStrings

  /** What one row appends to the buffer before the last character is deleted: every cell
      followed by the separator. */
  function Cells(row: seq<string>, sep: char): string
    decreases |row|
  {
    if row == [] then "" else row[0] + [sep] + Cells(row[1..], sep)
  }

  /** toCSV(sep) from a buffer: each row appends its cells, deletes the buffer's last
      character and appends '\n'; deleting from an empty buffer throws. */
  function CsvFrom(buff: string, rows: seq<seq<string>>, sep: char): (r: Result<string>)
    ensures r.Err? ==> r.error == StringIndexOutOfBounds
    decreases |rows|
  {
    if rows == [] then Ok(buff)
    else
      var b := buff + Cells(rows[0], sep);
      if b == "" then Err(StringIndexOutOfBounds)
      else CsvFrom(b[..|b| - 1] + "\n", rows[1..], sep)
  }

  function Csv(rows: seq<seq<string>>, sep: char): Result<string> {
    CsvFrom("", rows, sep)
  }

  /** The CSV a reader expects: every row's cells joined by the separator, one line each. */
  function Lines(rows: seq<seq<string>>, sep: char): (r: seq<string>)
    ensures |r| == |rows| && forall i :: 0 <= i < |rows| ==> r[i] == Join([sep], rows[i])
  {
    seq(|rows|, i requires 0 <= i < |rows| => Join([sep], rows[i]))
  }

  /** append: the other table's rows after its header row, at the end. */
  function Appended(table: seq<seq<string>>, other: seq<seq<string>>): (r: seq<seq<string>>)
    ensures other == [] ==> r == table
    ensures other != [] ==> |r| == |table| + |other| - 1 && r[..|table|] == table &&
                            forall i :: |table| <= i < |r| ==> r[i] == other[i - |table| + 1]
  {
    if other == [] then table else table + other[1..]
  }

  // ------------------------------------------------------------------ properties

  lemma {:induction false} CellsIsJoinThenSeparator(row: seq<string>, sep: char)
    requires row != []
    ensures Cells(row, sep) == Join([sep], row) + [sep]
    decreases |row|
  {
    if |row| > 1 {
      CellsIsJoinThenSeparator(row[1..], sep);
      assert Cells(row, sep) == row[0] + [sep] + (Join([sep], row[1..]) + [sep]);
    } else {
      assert Cells(row[1..], sep) == "";
    }
  }

  /** With no row empty, toCSV renders each row as its cells joined by the separator and
      terminated by '\n', in table order. */
  lemma {:induction false} CsvJoinsRows(buff: string, rows: seq<seq<string>>, sep: char)
    requires forall i :: 0 <= i < |rows| ==> rows[i] != []
    ensures CsvFrom(buff, rows, sep) == Ok(buff + Suffixed(Lines(rows, sep), "\n"))
    decreases |rows|
  {
    if rows != [] {
      CellsIsJoinThenSeparator(rows[0], sep);
      var line := Join([sep], rows[0]);
      var b := buff + Cells(rows[0], sep);
      assert b == (buff + line) + [sep];
      assert b[..|b| - 1] == buff + line;
      assert CsvFrom(buff, rows, sep) == CsvFrom((buff + line) + "\n", rows[1..], sep);
      CsvJoinsRows((buff + line) + "\n", rows[1..], sep);
      var rest := Suffixed(Lines(rows[1..], sep), "\n");
      assert Lines(rows, sep)[1..] == Lines(rows[1..], sep);
      assert Suffixed(Lines(rows, sep), "\n") == line + "\n" + rest;
      assert (buff + line) + "\n" + rest == buff + (line + "\n" + rest);
    } else {
      assert buff + "" == buff;
    }
  }

  /** Read back line by line, the CSV of rows that are not empty and hold no line break
      gives each row's cells joined by the separator, in table order. */
  lemma CsvReadsBackRows(rows: seq<seq<string>>, sep: char)
    requires sep != '\n' && sep != '\r'
    requires forall i :: 0 <= i < |rows| ==> rows[i] != []
    requires forall i, j :: 0 <= i < |rows| && 0 <= j < |rows[i]| ==> NoneInClass(rows[i][j], LineBreak)
    ensures Csv(rows, sep).Ok? && ReadLines(Csv(rows, sep).value) == Lines(rows, sep)
  {
    CsvJoinsRows("", rows, sep);
    forall i | 0 <= i < |rows| ensures NoneInClass(Lines(rows, sep)[i], LineBreak) {
      JoinNoneInClass([sep], rows[i], LineBreak);
    }
    ReadLinesOfSuffixed(Lines(rows, sep));
    assert "" + Suffixed(Lines(rows, sep), "\n") == Suffixed(Lines(rows, sep), "\n");
  }

  /** An empty row deletes the '\n' before it and puts it back: it adds nothing. */
  lemma EmptyRowAddsNothing(buff: string, rows: seq<seq<string>>, sep: char)
    requires rows != [] && rows[0] == [] && buff != "" && buff[|buff| - 1] == '\n'
    ensures CsvFrom(buff, rows, sep) == CsvFrom(buff, rows[1..], sep)
  {
    assert buff + Cells([], sep) == buff;
    assert buff[..|buff| - 1] + "\n" == buff;
  }

  /** An empty first row has no character to delete. */
  lemma EmptyFirstRowThrows(rows: seq<seq<string>>, sep: char)
    requires rows != [] && rows[0] == []
    ensures Csv(rows, sep) == Err(StringIndexOutOfBounds)
  {
  }

  // ------------------------------------------------------------------ the object

  class GenericReportTable {
    var table: seq<seq<string>>
    var empty: bool

    /** The list constructor: the rows as given, empty when there is at most the header. */
    constructor (rows: seq<seq<string>>)
      ensures table == rows && empty == (|rows| <= 1)
    {
      table := rows;
      empty := |rows| <= 1;
    }

    method ToCSV(sep: char) returns (r: Result<string>)
      ensures r == Csv(table, sep)
    {
      var buff := "";
      var i := 0;
      while i < |table|
        invariant 0 <= i <= |table|
        invariant CsvFrom(buff, table[i..], sep) == Csv(table, sep)
      {
        assert table[i..][0] == table[i] && table[i..][1..] == table[i + 1..];
        var row := table[i];
        ghost var start := buff;
        var j := 0;
        while j < |row|
          invariant 0 <= j <= |row|
          decreases |row| - j
          invariant buff + Cells(row[j..], sep) == start + Cells(row, sep)
        {
          assert row[j..][0] == row[j] && row[j..][1..] == row[j + 1..];
          buff := buff + row[j] + [sep];
          j := j + 1;
        }
        assert row[j..] == [] && buff + "" == buff;
        if buff == "" {
          return Err(StringIndexOutOfBounds);
        }
        buff := buff[..|buff| - 1] + "\n";
        i := i + 1;
      }
      r := Ok(buff);
    }

    /** toCSV(): the comma-separated form. */
    method ToCSVDefault() returns (r: Result<string>)
      ensures r == Csv(table, ',')
    {
      r := ToCSV(',');
    }

    /** The header row's cells in order; a table without rows throws. */
    method GetHeaders() returns (r: Result<seq<string>>)
      ensures table == [] ==> r == Err(ListIndexOutOfBounds)
      ensures table != [] ==> r == Ok(table[0])
    {
      if table == [] {
        return Err(ListIndexOutOfBounds);
      }
      var headers := table[0];
      var l: seq<string> := [];
      for j := 0 to |headers|
        invariant l == headers[..j]
      {
        l := l + [headers[j]];
      }
      assert headers[..|headers|] == headers;
      r := Ok(l);
    }

    /** A new list holding the same rows. */
    method GetTable() returns (r: seq<seq<string>>)
      ensures r == table
    {
      r := table;
    }

    method IsEmpty() returns (r: bool)
      ensures r == empty
    {
      r := empty;
    }

    /** The loop over the other table's rows, skipping the first; the empty flag is not
        updated. */
    method Append(other: GenericReportTable)
      modifies this
      ensures table == Appended(old(table), old(other.table)) && empty == old(empty)
    {
      var rows := other.GetTable();
      var first := true;
      var i := 0;
      while i < |rows|
        invariant 0 <= i <= |rows|
        invariant first <==> i == 0
        invariant empty == old(empty)
        invariant table == old(table) + (if i == 0 then [] else rows[1..i])
      {
        if !first {
          table := table + [rows[i]];
        }
        first := false;
        i := i + 1;
      }
      if |rows| > 0 {
        assert rows[1..i] == rows[1..];
      }
    }
  }
}
