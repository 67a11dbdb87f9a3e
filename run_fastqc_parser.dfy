/** The older FastQC report parser of the run package. It registers the same value types,
    then scans the report line by line; the first module line ends the scan, because the
    handler lookup only finds public methods and every handler is private. The handlers
    themselves read the report again from its start: getModuleBlock concatenates the lines
    of the first module without separators, and a single-pass parseModuleBlock reads it. */
module RunFastQCParser {
  import opened Wrappers
  import opened JavaStrings
  import opened StatsDBUtils
  import opened AnalysisValues
  import opened QCAnalysisModel
  import opened FastQCFormat

  // ------------------------------------------------------------------ the scan

  /** The scan of processFastQCReportFile: lines that name no module are passed over; the
      first one that does is canonicalised (capitalise throws on an empty word) and looked
      up with getMethod, which finds no public parse<Name>(FileInputStream, QCAnalysis). */
  function Scan(lines: seq<string>): (r: Status)
    ensures r.Thrown? ==> r.error == StringIndexOutOfBounds
    ensures r.Abandoned? ==> r.reason.NoSuchParser?
    decreases |lines|
  {
    if lines == [] then Completed
    else
      match ModuleNameGroup(lines[0])
      case None => Scan(lines[1..])
      case Some(group) =>
        match CanonicalName(group)
        case Err(e) => Thrown(e)
        case Ok(name) => Abandoned(NoSuchParser("parse" + name))
  }

  /** The scan ends at the first module line, whatever follows it. */
  lemma {:induction false} ScanStopsAtFirstModuleLine(lines: seq<string>, i: nat)
    requires i < |lines| && ModuleNameGroup(lines[i]).Some?
    requires forall j :: 0 <= j < i ==> ModuleNameGroup(lines[j]).None?
    ensures Scan(lines) ==
              match CanonicalName(ModuleNameGroup(lines[i]).value)
              case Err(e) => Thrown(e)
              case Ok(name) => Abandoned(NoSuchParser("parse" + name))
    decreases i
  {
    if i > 0 {
      assert forall j :: 0 <= j < i - 1 ==> lines[1..][j] == lines[j + 1];
      ScanStopsAtFirstModuleLine(lines[1..], i - 1);
    }
  }

  /** A report completes the scan exactly when no line names a module. */
  lemma {:induction false} ScanCompletesWithoutModules(lines: seq<string>)
    ensures Scan(lines) == Completed <==> forall j :: 0 <= j < |lines| ==> ModuleNameGroup(lines[j]).None?
    decreases |lines|
  {
    if lines != [] {
      ScanCompletesWithoutModules(lines[1..]);
      assert forall j :: 0 <= j < |lines| - 1 ==> lines[1..][j] == lines[j + 1];
    }
  }

  /** parseReport: the tool property and the value types, then a scan that never reaches a
      handler, so nothing else of the analysis changes. */
  function ParsedReport(types: map<string, string>, a: AnalysisState, text: string): (r: (AnalysisState, Status))
    ensures r.0.properties == a.properties["tool" := "FastQC"]
    ensures r.0.valueTypes.Keys == a.valueTypes.Keys + types.Keys
    ensures forall k :: k in types ==> r.0.valueTypes[k] == types[k]
    ensures forall k :: k in a.valueTypes && k !in types ==> r.0.valueTypes[k] == a.valueTypes[k]
    ensures r.0.id == a.id && r.0.valueDescriptions == a.valueDescriptions
    ensures r.0.generalValues == a.generalValues && r.0.partitionValues == a.partitionValues &&
            r.0.positionValues == a.positionValues
    ensures r.1 == Scan(ReadLines(text))
  {
    (Registered(a.AddProperty("tool", "FastQC"), types), Scan(ReadLines(text)))
  }

  // ------------------------------------------------------------------ module blocks

  /** The pattern >>(.*) matched against a whole line. */
  predicate ModuleStart(line: string) {
    StartsWith(line, ">>") && NoLineTerminator(line[2..])
  }

  /** The lines after the first, appended up to the first ">>END_MODULE" line. */
  function BlockRest(lines: seq<string>): string
    decreases |lines|
  {
    if lines == [] || lines[0] == ">>END_MODULE" then ""
    else lines[0] + BlockRest(lines[1..])
  }

  /** getModuleBlock on the lines of the whole report: the first line must start a module,
      and it and the lines of its module are appended with no separator between them. */
  function ModuleBlockText(lines: seq<string>): (r: Result<string>)
    ensures r.Err? <==> lines != [] && !ModuleStart(lines[0])
    ensures r.Err? ==> r.error == BadModuleStart
    ensures r.Ok? && lines != [] ==> StartsWith(r.value, ">>")
  {
    if lines == [] then Ok("")
    else if !ModuleStart(lines[0]) then Err(BadModuleStart)
    else Ok(lines[0] + BlockRest(lines[1..]))
  }

  /** The data rows of lines with no '#' row among them: each split on whitespace runs. */
  function WhitespaceRows(lines: seq<string>): (r: seq<seq<string>>)
    ensures |r| == |lines|
    decreases |lines|
  {
    if lines == [] then [] else [SplitRuns(lines[0], Whitespace)] + WhitespaceRows(lines[1..])
  }

  /** The first line is the only '#' header row. */
  predicate HeaderThenRows(lines: seq<string>) {
    |lines| > 0 && StartsWith(lines[0], "#") && NoHeaderRows(lines[1..])
  }

  /** The single pass of parseModuleBlock: a '#' row (case kept, split on whitespace runs)
      replaces the headers for the rows after it; any other line before the first '#' row
      throws; every other line is a data row split on whitespace runs. Once a header row
      is set, data lines go through exactly when every one of them does, and they then
      append their values in line order. */
  function ModuleRows(a: AnalysisState, headers: Option<seq<JString>>, lines: seq<string>, prefix: string, kind: ValueKind)
    : (r: Outcome)
    ensures Grows(a, r.analysis)
    ensures headers.Some? && NoHeaderRows(lines) ==>
              (r.failure.None? <==> RowsAccepted(kind, headers.value, WhitespaceRows(lines))) &&
              (r.failure.None? ==> r.analysis == WithRows(a, kind, headers.value, WhitespaceRows(lines)))
    decreases |lines|
  {
    if lines == [] then
      WithNoRows(a, kind, if headers.Some? then headers.value else []);
      Outcome(a, None)
    else if StartsWith(lines[0], "#") then
      var hs := SplitRuns(lines[0][1..], Whitespace);
      var a' := HeaderRow(a, hs, MixedCaseHeaderKeys);
      var r := ModuleRows(a', Some(HeaderSlots(hs, MixedCaseHeaderKeys, prefix)), lines[1..], prefix, kind);
      GrowsTransitive(a, a', r.analysis);
      r
    else if headers.None? then Outcome(a, Some(MissingHeaderRow))
    else
      var row := SplitRuns(lines[0], Whitespace);
      assert WhitespaceRows(lines) == [row] + WhitespaceRows(lines[1..]);
      WithRowsCons(a, kind, headers.value, row, WhitespaceRows(lines[1..]));
      assert NoHeaderRows(lines) ==> NoHeaderRows(lines[1..]) by {
        assert forall i :: 0 <= i < |lines[1..]| ==> lines[1..][i] == lines[i + 1];
      }
      var o := RowValues(a, kind, headers.value, row, 1);
      if o.failure.Some? then o
      else
        var r := ModuleRows(o.analysis, headers, lines[1..], prefix, kind);
        GrowsTransitive(a, o.analysis, r.analysis);
        r
  }

  /** One '#' line of parseModuleBlock: it records its general value, if any, and replaces
      the header array. */
  lemma ModuleRowsHeaderLine(a: AnalysisState, headers: Option<seq<JString>>, lines: seq<string>, prefix: string, kind: ValueKind)
    requires |lines| > 0 && StartsWith(lines[0], "#")
    ensures var hs := SplitRuns(lines[0][1..], Whitespace);
            ModuleRows(a, headers, lines, prefix, kind) ==
            ModuleRows(HeaderRow(a, hs, MixedCaseHeaderKeys), Some(HeaderSlots(hs, MixedCaseHeaderKeys, prefix)), lines[1..], prefix, kind)
  {
  }

  /** One data line of parseModuleBlock: without a header array it throws, otherwise its
      values are added and a failure stops the block. */
  lemma ModuleRowsDataLine(a: AnalysisState, headers: Option<seq<JString>>, lines: seq<string>, prefix: string, kind: ValueKind)
    requires |lines| > 0 && !StartsWith(lines[0], "#")
    ensures headers.None? ==> ModuleRows(a, headers, lines, prefix, kind) == Outcome(a, Some(MissingHeaderRow))
    ensures headers.Some? ==>
              var o := RowValues(a, kind, headers.value, SplitRuns(lines[0], Whitespace), 1);
              ModuleRows(a, headers, lines, prefix, kind) ==
              if o.failure.Some? then o else ModuleRows(o.analysis, headers, lines[1..], prefix, kind)
  {
  }

  /** parseModuleBlock on a block whose first line is its only '#' row: that row names the
      columns (case kept, split on whitespace runs) and, when it is a key row, records its
      general value; the block goes through exactly when every data line does, and the
      data lines then append their values in line order. */
  function ModuleBlock(a: AnalysisState, block: string, prefix: string, kind: ValueKind): (r: Outcome)
    ensures Grows(a, r.analysis)
    ensures var lines := SplitOn(block, "\n");
            HeaderThenRows(lines) ==>
              var hs := SplitRuns(lines[0][1..], Whitespace);
              var headers := HeaderSlots(hs, MixedCaseHeaderKeys, prefix);
              (r.failure.None? <==> RowsAccepted(kind, headers, WhitespaceRows(lines[1..]))) &&
              (r.failure.None? ==> r.analysis == WithRows(HeaderRow(a, hs, MixedCaseHeaderKeys), kind, headers, WhitespaceRows(lines[1..])))
  {
    var lines := SplitOn(block, "\n");
    ModuleRows(a, None, lines, prefix, kind)
  }

  /** parsePartition and parsePosition: the module block of the report, then its rows. */
  function ModuleHandler(a: AnalysisState, lines: seq<string>, prefix: string, kind: ValueKind): (r: Outcome)
    ensures Grows(a, r.analysis)
  {
    match ModuleBlockText(lines)
    case Err(e) => Outcome(a, Some(e))
    case Ok(block) => ModuleBlock(a, block, prefix, kind)
  }

  /** The header "#Base<TAB>Mean<TAB>Median" then the row "1-5<TAB>30.2<TAB>31.0": two
      partition values over bases 1 to 5 (offset 1, size 5), named <prefix>_Mean and
      <prefix>_Median with the header's case kept. */
  lemma ModuleBlockExample(a: AnalysisState, prefix: string)
    ensures ModuleBlock(a, "#Base\tMean\tMedian\n1-5\t30.2\t31.0", prefix, Partition) ==
            Outcome(a.(partitionValues := a.partitionValues + [PartitionValue(1, 5, prefix + "_" + "Mean", "30.2"),
                                                              PartitionValue(1, 5, prefix + "_" + "Median", "31.0")]), None)
  {
    var block := "#Base\tMean\tMedian\n1-5\t30.2\t31.0";
    var head, row := "#Base\tMean\tMedian", "1-5\t30.2\t31.0";
    ExampleLines(block, head, row);
    var hs := ExampleTokens(head);
    var headers := ExampleHeaders(a, hs, prefix);
    var fields := ExampleFields(row);
    ExampleRowAdds(headers, fields, prefix);
  }

  lemma ExampleLines(block: string, head: string, row: string)
    requires block == "#Base\tMean\tMedian\n1-5\t30.2\t31.0"
    requires head == "#Base\tMean\tMedian" && row == "1-5\t30.2\t31.0"
    ensures SplitOn(block, "\n") == [head, row] && [head, row][1..] == [row]
    ensures StartsWith(head, "#") && !StartsWith(row, "#") && HeaderThenRows([head, row])
  {
    assert block == head + ['\n'] + row;
    SplitOnPair(head, row, '\n');
    ExampleLineKinds(head, row);
  }

  lemma ExampleLineKinds(head: string, row: string)
    requires head == "#Base\tMean\tMedian" && row == "1-5\t30.2\t31.0"
    ensures [head, row][1..] == [row]
    ensures StartsWith(head, "#") && !StartsWith(row, "#") && HeaderThenRows([head, row])
  {
    assert row[..1] == "1" && head[..1] == "#";
    assert [head, row][1..] == [row];
  }

  lemma ExampleTokens(head: string) returns (hs: seq<string>)
    requires head == "#Base\tMean\tMedian"
    ensures hs == ["Base", "Mean", "Median"] && SplitRuns(head[1..], Whitespace) == hs
  {
    hs := ["Base", "Mean", "Median"];
    assert head[1..] == Join(['\t'], hs) by {
      assert hs[1..] == ["Mean", "Median"] && hs[1..][1..] == ["Median"];
    }
    assert forall j :: 0 <= j < |hs| ==> hs[j] != "" && NoneInClass(hs[j], Whitespace);
    SplitRunsOfJoin(hs, '\t', Whitespace);
  }

  lemma ExampleHeaders(a: AnalysisState, hs: seq<string>, prefix: string) returns (headers: seq<JString>)
    requires hs == ["Base", "Mean", "Median"]
    ensures headers == [Some(prefix + "_" + "Base"), Some(prefix + "_" + "Mean"), Some(prefix + "_" + "Median")]
    ensures HeaderRow(a, hs, MixedCaseHeaderKeys) == a
    ensures HeaderSlots(hs, MixedCaseHeaderKeys, prefix) == headers
  {
    ExampleTokensArePlain(hs);
    ColumnNameOfPlainToken(hs[0], MixedCaseHeaderKeys, prefix);
    ColumnNameOfPlainToken(hs[1], MixedCaseHeaderKeys, prefix);
    ColumnNameOfPlainToken(hs[2], MixedCaseHeaderKeys, prefix);
    headers := [Some(prefix + "_" + "Base"), Some(prefix + "_" + "Mean"), Some(prefix + "_" + "Median")];
    var slots := HeaderSlots(hs, MixedCaseHeaderKeys, prefix);
    assert |slots| == 3 && slots[0] == headers[0] && slots[1] == headers[1] && slots[2] == headers[2];
  }

  lemma ExampleTokensArePlain(hs: seq<string>)
    requires hs == ["Base", "Mean", "Median"]
    ensures !IsKeyedHeaderRow(hs, MixedCaseHeaderKeys)
    ensures forall j :: 0 <= j < |hs| ==> NoneInClass(hs[j], Whitespace) && hs[j] !in MixedCaseHeaderKeys
  {
    assert NoneInClass("Base", Whitespace) && NoneInClass("Mean", Whitespace) && NoneInClass("Median", Whitespace);
    assert "Base"[0] == 'B' && "Mean"[0] == 'M' && "Median"[0] == 'M';
  }

  lemma ExampleFields(row: string) returns (fields: seq<string>)
    requires row == "1-5\t30.2\t31.0"
    ensures fields == ["1-5", "30.2", "31.0"] && SplitRuns(row, Whitespace) == fields
    ensures WhitespaceRows([row]) == [fields]
  {
    assert [row][1..] == [];
    fields := ["1-5", "30.2", "31.0"];
    assert row == Join(['\t'], fields) by {
      assert fields[1..] == ["30.2", "31.0"] && fields[1..][1..] == ["31.0"];
    }
    assert forall j :: 0 <= j < |fields| ==> fields[j] != "" && NoneInClass(fields[j], Whitespace);
    SplitRunsOfJoin(fields, '\t', Whitespace);
  }

  lemma ExampleRowAdds(headers: seq<JString>, fields: seq<string>, prefix: string)
    requires headers == [Some(prefix + "_" + "Base"), Some(prefix + "_" + "Mean"), Some(prefix + "_" + "Median")]
    requires fields == ["1-5", "30.2", "31.0"]
    ensures RowsAccepted(Partition, headers, [fields])
    ensures RowsPartitions(headers, [fields]) ==
              [PartitionValue(1, 5, prefix + "_" + "Mean", "30.2"), PartitionValue(1, 5, prefix + "_" + "Median", "31.0")]
  {
    ParseRangeOfSpan("1", "5");
    assert "1" + "-" + "5" == "1-5";
    assert DecimalValue("1") == 1 && DecimalValue("5") == 5 by {
      assert "1"[..0] == "" && "5"[..0] == "";
    }
    assert |prefix + "_" + "Mean"| > 0 && |prefix + "_" + "Median"| > 0;
    assert ColumnsAccepted(Partition, headers, fields, 1);
    assert [fields][1..] == [];
    assert RowsPartitions(headers, [fields]) == PartitionColumns(headers, fields, 1) + [];
  }

  /** A header row must come first: a block whose first line is not one is refused before
      anything is added, even when a header row follows. */
  lemma ModuleBlockNeedsLeadingHeader(a: AnalysisState, block: string, prefix: string, kind: ValueKind)
    requires |SplitOn(block, "\n")| > 0 && !StartsWith(SplitOn(block, "\n")[0], "#")
    ensures ModuleBlock(a, block, prefix, kind) == Outcome(a, Some(MissingHeaderRow))
  {
  }

  /** Lines read by readLine hold no line break. */
  lemma {:induction false} ReadLinesHaveNoBreaks(text: string)
    ensures forall i :: 0 <= i < |ReadLines(text)| ==> '\n' !in ReadLines(text)[i]
    decreases |text|
  {
    match FirstInClass(text, LineBreak)
    case None =>
    case Some(i) =>
      var next := if text[i] == '\r' && i + 1 < |text| && text[i + 1] == '\n' then i + 2 else i + 1;
      ReadLinesHaveNoBreaks(text[next..]);
      assert NoneInClass(text[..i], LineBreak);
      assert forall j :: 0 <= j < |text[..i]| ==> text[..i][j] != '\n';
  }

  lemma {:induction false} BlockRestHasNoBreaks(lines: seq<string>)
    requires forall i :: 0 <= i < |lines| ==> '\n' !in lines[i]
    ensures '\n' !in BlockRest(lines)
    decreases |lines|
  {
    if lines != [] && lines[0] != ">>END_MODULE" {
      BlockRestHasNoBreaks(lines[1..]);
      assert forall i :: 0 <= i < |lines[1..]| ==> lines[1..][i] == lines[i + 1];
    }
  }

  /** On lines that hold no line break, as readLine gives them, the handlers of
      partition and position modules never add anything: the block they read is one line,
      empty or starting with ">>", so it is either refused at its start or has no header. */
  lemma ModuleHandlerAlwaysFails(a: AnalysisState, lines: seq<string>, prefix: string, kind: ValueKind)
    requires forall i :: 0 <= i < |lines| ==> '\n' !in lines[i]
    ensures ModuleHandler(a, lines, prefix, kind) ==
              Outcome(a, Some(if lines != [] && !ModuleStart(lines[0]) then BadModuleStart else MissingHeaderRow))
  {
    match ModuleBlockText(lines)
    case Err(e) =>
    case Ok(block) =>
      if lines != [] {
        BlockRestHasNoBreaks(lines[1..]);
        assert forall i :: 0 <= i < |lines[1..]| ==> lines[1..][i] == lines[i + 1];
        assert block == lines[0] + BlockRest(lines[1..]);
      }
      assert forall j :: 0 <= j < |block| ==> block[j] != '\n';
      IndexFromMisses(block, '\n', 0);
      assert SplitOn(block, "\n") == [block];
      assert !StartsWith(block, "#") by {
        if lines != [] {
          assert block[0] == '>';
        }
      }
  }

  /** The same for the lines of a whole report. */
  lemma ReportModuleHandlerAlwaysFails(a: AnalysisState, text: string, prefix: string, kind: ValueKind)
    ensures ModuleHandler(a, ReadLines(text), prefix, kind).analysis == a
    ensures ModuleHandler(a, ReadLines(text), prefix, kind).failure.Some?
  {
    ReadLinesHaveNoBreaks(text);
    ModuleHandlerAlwaysFails(a, ReadLines(text), prefix, kind);
  }

  // ------------------------------------------------------------------ the parser object

  /** The parser object, with its table of value types; the methods below are proved
      against the functions above. */
  class FastQCReportParser {
    var values: map<string, string>

    constructor ()
      ensures values == BuiltinValueTypes
    {
      values := BuiltinValueTypes;
    }

    method ParseReport(text: string, qa: DefaultQCAnalysis) returns (status: Status)
      modifies qa
      ensures (qa.State(), status) == ParsedReport(values, old(qa.State()), text)
    {
      qa.AddProperty("tool", "FastQC");
      RegisterValueTypes(qa, values);
      status := ProcessFastQCReportFile(text);
    }

    /** The scan; the handler it looks up never exists, so it changes nothing. */
    method ProcessFastQCReportFile(text: string) returns (status: Status)
      ensures status == Scan(ReadLines(text))
    {
      var lines := ReadLines(text);
      var i := 0;
      while i < |lines|
        invariant 0 <= i <= |lines|
        invariant Scan(lines[i..]) == Scan(lines)
      {
        assert lines[i..][0] == lines[i] && lines[i..][1..] == lines[i + 1..];
        var group := ModuleNameGroup(lines[i]);
        if group.Some? {
          var name := CanonicalModuleName(group.value);
          if name.Err? {
            return Thrown(name.error);
          }
          return Abandoned(NoSuchParser("parse" + name.value));
        }
        i := i + 1;
      }
      status := Completed;
    }

    /** getModuleBlock over the lines of the report, read from its start. */
    method GetModuleBlock(lines: seq<string>) returns (r: Result<string>)
      ensures r == ModuleBlockText(lines)
    {
      var block := "";
      var first := true;
      var i := 0;
      while i < |lines|
        invariant 0 <= i <= |lines|
        invariant first <==> i == 0
        invariant first ==> block == ""
        invariant !first ==> ModuleStart(lines[0]) && lines[0] + BlockRest(lines[1..]) == block + BlockRest(lines[i..])
      {
        if first {
          if !ModuleStart(lines[i]) {
            return Err(BadModuleStart);
          }
          block := lines[i];
          first := false;
          assert lines[1..] == lines[i + 1..];
        } else {
          assert lines[i..][0] == lines[i] && lines[i..][1..] == lines[i + 1..];
          if lines[i] == ">>END_MODULE" {
            assert BlockRest(lines[i..]) == "" && block + "" == block;
            break;
          }
          block := block + lines[i];
        }
        i := i + 1;
      }
      if i == |lines| {
        assert block + BlockRest(lines[i..]) == block;
      }
      r := Ok(block);
    }

    method ParseModuleBlock(block: string, qa: DefaultQCAnalysis, prefix: string, kind: ValueKind)
      returns (failure: Option<Error>)
      modifies qa
      ensures var o := ModuleBlock(old(qa.State()), block, prefix, kind);
              qa.State() == o.analysis && failure == o.failure
    {
      var lines := SplitOn(block, "\n");
      var headers: Option<seq<JString>> := None;
      var i := 0;
      while i < |lines|
        invariant 0 <= i <= |lines|
        invariant ModuleRows(old(qa.State()), None, lines, prefix, kind) == ModuleRows(qa.State(), headers, lines[i..], prefix, kind)
      {
        assert lines[i..][0] == lines[i] && lines[i..][1..] == lines[i + 1..];
        if StartsWith(lines[i], "#") {
          ModuleRowsHeaderLine(qa.State(), headers, lines[i..], prefix, kind);
          var hs := SplitRuns(lines[i][1..], Whitespace);
          var slots := HeaderArray(hs, MixedCaseHeaderKeys, prefix);
          if IsKeyedHeaderRow(hs, MixedCaseHeaderKeys) {
            qa.AddGeneralValue(MixedCaseHeaderKeys[hs[0]], hs[1], Some(""));
          }
          headers := Some(slots[..]);
        } else {
          ModuleRowsDataLine(qa.State(), headers, lines[i..], prefix, kind);
          if headers.None? {
            return Some(MissingHeaderRow);
          }
          failure := AddRowValues(qa, kind, headers.value, SplitRuns(lines[i], Whitespace));
          if failure.Some? {
            return;
          }
        }
        i := i + 1;
      }
      failure := None;
    }

    /** parsePartition (addPartitionValue) and parsePosition (addPositionValue). */
    method ParseModule(lines: seq<string>, qa: DefaultQCAnalysis, prefix: string, kind: ValueKind)
      returns (failure: Option<Error>)
      modifies qa
      ensures var o := ModuleHandler(old(qa.State()), lines, prefix, kind);
              qa.State() == o.analysis && failure == o.failure
    {
      var block := GetModuleBlock(lines);
      if block.Err? {
        return Some(block.error);
      }
      failure := ParseModuleBlock(block.value, qa, prefix, kind);
    }

    /** parseOverrepresentedSequences and parseKmerContent: the module block is read and
      nothing is done with it; only getModuleBlock's refusal escapes. */
    method ParseStub(lines: seq<string>) returns (failure: Option<Error>)
      ensures failure.Some? <==> lines != [] && !ModuleStart(lines[0])
      ensures failure.Some? ==> failure.value == BadModuleStart
    {
      var block := GetModuleBlock(lines);
      failure := if block.Err? then Some(block.error) else None;
    }
  }
}
