/** The working FastQC report parser of the statsdb-api package. The report is read line
    by line: "##" lines become the "FastQC" property, the rest is cut into modules at
    ">>END_MODULE", and each module line names a handler that turns the module's text into
    general values, properties, value types, or partition and position values. The
    functions below say what each step does to the analysis and to the parser's own
    value-type table; the class FastQCReportParser does it in place. */
module StatsdbFastQCParser {
  import opened Wrappers
  import opened JavaStrings
  import opened StatsDBUtils
  import opened AnalysisValues
  import opened QCAnalysisModel
  import opened FastQCFormat

  /** The parser's value-type table, the analysis, and the failure that stopped a handler. */
  datatype Handled = Handled(types: map<string, string>, analysis: AnalysisState, failure: Option<Error>)

  /** Neither a '#' header row nor the ">>" module line. */
  predicate IsBodyLine(line: string) {
    !StartsWith(line, "#") && !StartsWith(line, ">>")
  }

  // ------------------------------------------------------------------ Basic Statistics

  /** One line of the Basic Statistics module; only lines of exactly two tab-separated
      fields count. "Sequence length" stores both bounds as written, re-rendered by
      String.valueOf; the three value keys become general values; anything else a property. */
  function BasicStatisticsLine(a: AnalysisState, line: string): (r: Result<AnalysisState>)
    ensures r.Ok? ==> Grows(a, r.value)
    ensures r.Err? ==> r.error.InvalidRange?
  {
    if !IsBodyLine(line) then Ok(a)
    else
      var tokens := SplitOn(line, "\t");
      if |tokens| != 2 then Ok(a)
      else if tokens[0] == "Sequence length" then
        match ParseRange(Some(tokens[1]))
        case Err(e) => Err(e)
        case Ok((lo, hi)) =>
          Ok(a.AddGeneralValue("general_min_length", NatToString(lo), None)
              .AddGeneralValue("general_max_length", NatToString(hi), None))
      else if tokens[0] in ValueKeys then Ok(a.AddGeneralValue(ValueKeys[tokens[0]], tokens[1], None))
      else Ok(a.AddProperty(tokens[0], tokens[1]))
  }

  function BasicStatistics(a: AnalysisState, lines: seq<string>): (r: Outcome)
    ensures Grows(a, r.analysis)
    decreases |lines|
  {
    if lines == [] then Outcome(a, None)
    else
      match BasicStatisticsLine(a, lines[0])
      case Err(e) => Outcome(a, Some(e))
      case Ok(a') =>
        var r := BasicStatistics(a', lines[1..]);
        GrowsTransitive(a, a', r.analysis);
        r
  }

  lemma BasicStatisticsStep(a: AnalysisState, lines: seq<string>, i: nat)
    requires i < |lines|
    ensures var r := BasicStatisticsLine(a, lines[i]);
            BasicStatistics(a, lines[i..]) ==
              if r.Err? then Outcome(a, Some(r.error)) else BasicStatistics(r.value, lines[i + 1..])
  {
    assert lines[i..][0] == lines[i] && lines[i..][1..] == lines[i + 1..];
  }

  // ------------------------------------------------------------------ module blocks

  /** A '#' row with the '#' dropped, lower-cased and split on tab runs. */
  function HeaderTokens(line: string): seq<string>
    requires |line| > 0
  {
    SplitRuns(ToLower(line[1..]), Tab)
  }

  /** The first pass of parseModuleBlock: every '#' row replaces the header array. */
  function HeaderPass(a: AnalysisState, h: Option<seq<JString>>, lines: seq<string>, prefix: string)
    : (r: (AnalysisState, Option<seq<JString>>))
    ensures Grows(a, r.0)
    ensures r.0 == a.(generalValues := r.0.generalValues)
    ensures (forall i :: 0 <= i < |lines| ==> !StartsWith(lines[i], "#")) ==> r == (a, h)
    decreases |lines|
  {
    if lines == [] then (a, h)
    else if StartsWith(lines[0], "#") then
      var hs := HeaderTokens(lines[0]);
      var a' := HeaderRow(a, hs, LowerCaseHeaderKeys);
      var r := HeaderPass(a', Some(HeaderSlots(hs, LowerCaseHeaderKeys, prefix)), lines[1..], prefix);
      GrowsTransitive(a, a', r.0);
      r
    else
      assert forall i :: 0 <= i < |lines[1..]| ==> lines[1..][i] == lines[i + 1];
      HeaderPass(a, h, lines[1..], prefix)
  }

  /** The last '#' row of a module, if any: a reference that does not mention headers. */
  function LastHeaderRow(lines: seq<string>): (r: Option<string>)
    ensures r.None? <==> NoHeaderRows(lines)
    ensures r.Some? ==> exists i :: IsLastHeaderRow(lines, i) && lines[i] == r.value
    decreases |lines|
  {
    if lines == [] then None
    else
      assert forall j :: 0 <= j < |lines[1..]| ==> lines[1..][j] == lines[j + 1];
      match LastHeaderRow(lines[1..])
      case Some(row) => LastHeaderRowOfTail(lines, row); Some(row)
      case None =>
        if StartsWith(lines[0], "#") then
          assert IsLastHeaderRow(lines, 0);
          Some(lines[0])
        else None
  }

  /** The data rows of a module: its body lines split on tab runs, in order. */
  function BodyRows(lines: seq<string>): seq<seq<string>>
    decreases |lines|
  {
    if lines == [] then []
    else (if IsBodyLine(lines[0]) then [SplitRuns(lines[0], Tab)] else []) + BodyRows(lines[1..])
  }

  /** The second pass: every body line is a data row. It goes through exactly when every
      data row does, and it then appends the rows' values in row order. */
  function DataPass(a: AnalysisState, kind: ValueKind, headers: seq<JString>, lines: seq<string>): (r: Outcome)
    ensures Grows(a, r.analysis)
    ensures r.failure.None? <==> RowsAccepted(kind, headers, BodyRows(lines))
    ensures r.failure.None? ==> r.analysis == WithRows(a, kind, headers, BodyRows(lines))
    decreases |lines|
  {
    if lines == [] then
      WithNoRows(a, kind, headers);
      Outcome(a, None)
    else if !IsBodyLine(lines[0]) then
      assert BodyRows(lines) == [] + BodyRows(lines[1..]) == BodyRows(lines[1..]);
      DataPass(a, kind, headers, lines[1..])
    else
      var row := SplitRuns(lines[0], Tab);
      assert BodyRows(lines) == [row] + BodyRows(lines[1..]);
      WithRowsCons(a, kind, headers, row, BodyRows(lines[1..]));
      var o := RowValues(a, kind, headers, row, 1);
      if o.failure.Some? then o
      else
        var r := DataPass(o.analysis, kind, headers, lines[1..]);
        GrowsTransitive(a, o.analysis, r.analysis);
        r
  }

  lemma HeaderPassStep(a: AnalysisState, h: Option<seq<JString>>, lines: seq<string>, i: nat, prefix: string)
    requires i < |lines|
    ensures HeaderPass(a, h, lines[i..], prefix) ==
            if StartsWith(lines[i], "#") then
              HeaderPass(HeaderRow(a, HeaderTokens(lines[i]), LowerCaseHeaderKeys),
                         Some(HeaderSlots(HeaderTokens(lines[i]), LowerCaseHeaderKeys, prefix)), lines[i + 1..], prefix)
            else HeaderPass(a, h, lines[i + 1..], prefix)
  {
    assert lines[i..][0] == lines[i] && lines[i..][1..] == lines[i + 1..];
  }

  lemma DataPassStep(a: AnalysisState, kind: ValueKind, headers: seq<JString>, lines: seq<string>, i: nat)
    requires i < |lines|
    ensures DataPass(a, kind, headers, lines[i..]) ==
            if !IsBodyLine(lines[i]) then DataPass(a, kind, headers, lines[i + 1..])
            else
              var o := RowValues(a, kind, headers, SplitRuns(lines[i], Tab), 1);
              if o.failure.Some? then o else DataPass(o.analysis, kind, headers, lines[i + 1..])
  {
    assert lines[i..][0] == lines[i] && lines[i..][1..] == lines[i + 1..];
  }

  /** parseModuleBlock: headers from the '#' rows, then one value per data cell; a module
      without a '#' row fails before any data row is read. */
  function ModuleBlock(a: AnalysisState, block: string, prefix: string, kind: ValueKind): (r: Outcome)
    ensures Grows(a, r.analysis)
    ensures var lines := SplitOn(block, "\n");
            match LastHeaderRow(lines)
            case None => r == Outcome(HeaderPass(a, None, lines, prefix).0, Some(MissingHeaderRow))
            case Some(row) =>
              var headers := HeaderSlots(HeaderTokens(row), LowerCaseHeaderKeys, prefix);
              (r.failure.None? <==> RowsAccepted(kind, headers, BodyRows(lines))) &&
              (r.failure.None? ==> r.analysis == WithRows(HeaderPass(a, None, lines, prefix).0, kind, headers, BodyRows(lines)))
  {
    var lines := SplitOn(block, "\n");
    HeaderPassUsesLastHeaderRow(a, None, lines, prefix);
    var (a1, h) := HeaderPass(a, None, lines, prefix);
    if h.None? then Outcome(a1, Some(MissingHeaderRow))
    else
      var r := DataPass(a1, kind, h.value, lines);
      GrowsTransitive(a, a1, r.analysis);
      r
  }

  // ------------------------------------------------------------------ dynamic value types

  /** A row of Overrepresented sequences: at least four tab-separated fields; the sequence
      becomes a value type of scope overrepresented_sequence, in the parser's table and on
      the analysis, with its count as general value and its possible source as description. */
  function OverrepresentedLine(types: map<string, string>, a: AnalysisState, line: string)
    : (r: Result<(map<string, string>, AnalysisState)>)
    ensures r.Ok? ==> types.Keys <= r.value.0.Keys && Grows(a, r.value.1)
    ensures r.Err? ==> r.error == MalformedOverrepresentedSequence
  {
    if !IsBodyLine(line) || line == "" then Ok((types, a))
    else
      var t := SplitRuns(line, Tab);
      if |t| >= 4 then
        var a' := a.AddValueType(t[0], "overrepresented_sequence");
        Ok((types[t[0] := "overrepresented_sequence"], a'.AddGeneralValue(t[0], t[1], Some(t[3]))))
      else Err(MalformedOverrepresentedSequence)
  }

  function OverrepresentedSequences(types: map<string, string>, a: AnalysisState, lines: seq<string>): (r: Handled)
    ensures types.Keys <= r.types.Keys && Grows(a, r.analysis)
    decreases |lines|
  {
    if lines == [] then Handled(types, a, None)
    else
      match OverrepresentedLine(types, a, lines[0])
      case Err(e) => Handled(types, a, Some(e))
      case Ok((types', a')) =>
        var r := OverrepresentedSequences(types', a', lines[1..]);
        GrowsTransitive(a, a', r.analysis);
        r
  }

  /** A row of Kmer Content: at least two fields; the k-mer becomes a value type of scope
      overrepresented_kmer with its count as general value and no description. */
  function KmerLine(types: map<string, string>, a: AnalysisState, line: string)
    : (r: Result<(map<string, string>, AnalysisState)>)
    ensures r.Ok? ==> types.Keys <= r.value.0.Keys && Grows(a, r.value.1)
    ensures r.Err? ==> r.error == MalformedOverrepresentedKmer
  {
    if !IsBodyLine(line) || line == "" then Ok((types, a))
    else
      var t := SplitRuns(line, Tab);
      if |t| >= 2 then
        var a' := a.AddValueType(t[0], "overrepresented_kmer");
        Ok((types[t[0] := "overrepresented_kmer"], a'.AddGeneralValue(t[0], t[1], None)))
      else Err(MalformedOverrepresentedKmer)
  }

  function KmerContent(types: map<string, string>, a: AnalysisState, lines: seq<string>): (r: Handled)
    ensures types.Keys <= r.types.Keys && Grows(a, r.analysis)
    decreases |lines|
  {
    if lines == [] then Handled(types, a, None)
    else
      match KmerLine(types, a, lines[0])
      case Err(e) => Handled(types, a, Some(e))
      case Ok((types', a')) =>
        var r := KmerContent(types', a', lines[1..]);
        GrowsTransitive(a, a', r.analysis);
        r
  }

  // ------------------------------------------------------------------ dispatch

  /** The module handlers the parser declares, with the prefix or kind each passes on. */
  datatype Handler =
    | BasicStatisticsHandler
    | PartitionHandler(prefix: string)
    | PositionHandler(prefix: string)
    | OverrepresentedSequencesHandler
    | KmerContentHandler

  /** The private parse<Name>(String, QCAnalysis) methods getDeclaredMethod can find. */
  function HandlerFor(name: string): Option<Handler> {
    match name
    case "BasicStatistics" => Some(BasicStatisticsHandler)
    case "PerBaseSequenceQuality" => Some(PartitionHandler("quality"))
    case "PerSequenceQualityScores" => Some(PositionHandler("quality_score"))
    case "PerBaseSequenceContent" => Some(PartitionHandler("base_content"))
    case "PerBaseGCContent" => Some(PartitionHandler("gc_content"))
    case "PerSequenceGCContent" => Some(PartitionHandler("gc_content"))
    case "PerBaseNContent" => Some(PartitionHandler("base_content"))
    case "SequenceLengthDistribution" => Some(PartitionHandler("sequence_length"))
    case "SequenceDuplicationLevels" => Some(PositionHandler("duplication_level"))
    case "OverrepresentedSequences" => Some(OverrepresentedSequencesHandler)
    case "KmerContent" => Some(KmerContentHandler)
    case _ => None
  }

  function RunHandler(h: Handler, types: map<string, string>, a: AnalysisState, block: string): (r: Handled)
    ensures types.Keys <= r.types.Keys && Grows(a, r.analysis)
  {
    match h
    case BasicStatisticsHandler =>
      var o := BasicStatistics(a, SplitOn(block, "\n"));
      Handled(types, o.analysis, o.failure)
    case PartitionHandler(prefix) =>
      var o := ModuleBlock(a, block, prefix, Partition);
      Handled(types, o.analysis, o.failure)
    case PositionHandler(prefix) =>
      var o := ModuleBlock(a, block, prefix, Position);
      Handled(types, o.analysis, o.failure)
    case OverrepresentedSequencesHandler => OverrepresentedSequences(types, a, SplitOn(block, "\n"))
    case KmerContentHandler => KmerContent(types, a, SplitOn(block, "\n"))
  }

  // ------------------------------------------------------------------ the report

  datatype Report = Report(types: map<string, string>, analysis: AnalysisState, status: Status)

  /** The report text and the FastQC version property: "##" lines set the property to
      their second whitespace-separated token (a line with fewer tokens throws), every
      other line is kept with a "\n" after it. */
  function CollectReport(a: AnalysisState, lines: seq<string>): (r: (AnalysisState, Result<string>))
    ensures Grows(a, r.0)
    ensures r.1.Err? ==> r.1.error == ArrayIndexOutOfBounds
    decreases |lines|
  {
    if lines == [] then (a, Ok(""))
    else if StartsWith(lines[0], "##") then
      var tokens := SplitRuns(lines[0], Whitespace);
      if |tokens| < 2 then (a, Err(ArrayIndexOutOfBounds))
      else
        var a' := a.AddProperty("FastQC", tokens[1]);
        var r := CollectReport(a', lines[1..]);
        GrowsTransitive(a, a', r.0);
        r
    else
      var (a', body) := CollectReport(a, lines[1..]);
      (a', if body.Ok? then Ok(lines[0] + "\n" + body.value) else body)
  }

  /** A module line whose name has an empty word, so capitalise throws. */
  predicate HasBadModuleName(modlines: seq<string>) {
    exists i :: 0 <= i < |modlines| && ModuleNameGroup(modlines[i]).Some? &&
                CanonicalName(ModuleNameGroup(modlines[i]).value).Err?
  }

  /** The lines of one module: each module line dispatches the whole module text. */
  function ModuleLines(types: map<string, string>, a: AnalysisState, block: string, modlines: seq<string>): (r: Report)
    ensures types.Keys <= r.types.Keys && Grows(a, r.analysis)
    ensures r.status.Thrown? ==> r.status.error == StringIndexOutOfBounds && HasBadModuleName(modlines)
    decreases |modlines|
  {
    if modlines == [] then Report(types, a, Completed)
    else
      match ModuleNameGroup(modlines[0])
      case None =>
        var r := ModuleLines(types, a, block, modlines[1..]);
        assert r.status.Thrown? ==> HasBadModuleName(modlines) by { if r.status.Thrown? { BadNameInTail(modlines); } }
        r
      case Some(group) =>
        match CanonicalName(group)
        case Err(e) => Report(types, a, Thrown(e))
        case Ok(name) =>
          match HandlerFor(name)
          case None => Report(types, a, Abandoned(NoSuchParser("parse" + name)))
          case Some(h) =>
            var o := RunHandler(h, types, a, block);
            if o.failure.Some? then Report(o.types, o.analysis, Abandoned(HandlerFailed(o.failure.value)))
            else
              var r := ModuleLines(o.types, o.analysis, block, modlines[1..]);
              GrowsTransitive(a, o.analysis, r.analysis);
              assert r.status.Thrown? ==> HasBadModuleName(modlines) by { if r.status.Thrown? { BadNameInTail(modlines); } }
              r
  }

  lemma BadNameInTail(modlines: seq<string>)
    requires modlines != [] && HasBadModuleName(modlines[1..])
    ensures HasBadModuleName(modlines)
  {
    var i :| 0 <= i < |modlines[1..]| && ModuleNameGroup(modlines[1..][i]).Some? &&
             CanonicalName(ModuleNameGroup(modlines[1..][i]).value).Err?;
    assert modlines[1..][i] == modlines[i + 1];
  }

  /** A line of a module that is no module line is passed over. */
  lemma ModuleLinesSkipsOtherLines(types: map<string, string>, a: AnalysisState, block: string, modlines: seq<string>)
    requires modlines != [] && ModuleNameGroup(modlines[0]).None?
    ensures ModuleLines(types, a, block, modlines) == ModuleLines(types, a, block, modlines[1..])
  {
  }

  /** A module line with an empty word throws from capitalise before any lookup. */
  lemma ModuleLineWithEmptyWordThrows(types: map<string, string>, a: AnalysisState, block: string, modlines: seq<string>)
    requires modlines != [] && ModuleNameGroup(modlines[0]).Some?
    requires CanonicalName(ModuleNameGroup(modlines[0]).value).Err?
    ensures ModuleLines(types, a, block, modlines) == Report(types, a, Thrown(StringIndexOutOfBounds))
  {
  }

  /** A module line named `name` looks up parse<name>: with no such parser the processing
      is abandoned; otherwise the handler runs on the whole module text, and a handler
      failure abandons the processing with what the handler had already done. */
  lemma ModuleLineDispatches(types: map<string, string>, a: AnalysisState, block: string, modlines: seq<string>, name: string)
    requires modlines != [] && ModuleNameGroup(modlines[0]).Some?
    requires CanonicalName(ModuleNameGroup(modlines[0]).value) == Ok(name)
    ensures HandlerFor(name).None? ==>
              ModuleLines(types, a, block, modlines) == Report(types, a, Abandoned(NoSuchParser("parse" + name)))
    ensures HandlerFor(name).Some? ==>
              var o := RunHandler(HandlerFor(name).value, types, a, block);
              ModuleLines(types, a, block, modlines) ==
                if o.failure.Some? then Report(o.types, o.analysis, Abandoned(HandlerFailed(o.failure.value)))
                else ModuleLines(o.types, o.analysis, block, modlines[1..])
  {
  }

  /** The module line of "Per base sequence quality" runs the partition handler with the
      prefix "quality" on the module text, then goes on with the module's other lines. */
  lemma QualityModuleLineDispatches(types: map<string, string>, a: AnalysisState, block: string,
                                    w: char, status: string, rest: seq<string>)
    requires IsJavaWhitespace(w) && NoneInClass(status, Whitespace)
    ensures var o := RunHandler(PartitionHandler("quality"), types, a, block);
            ModuleLines(types, a, block, [">>" + "Per base sequence quality" + [w] + status] + rest) ==
              if o.failure.Some? then Report(o.types, o.analysis, Abandoned(HandlerFailed(o.failure.value)))
              else ModuleLines(o.types, o.analysis, block, rest)
  {
    var line := ">>" + "Per base sequence quality" + [w] + status;
    QualityTitleHasNoLineTerminator("Per base sequence quality");
    ModuleNameGroupOfLine("Per base sequence quality", w, status);
    CanonicalNameQualityExample();
    assert HandlerFor("PerBaseSequenceQuality") == Some(PartitionHandler("quality"));
    assert ([line] + rest)[0] == line && ([line] + rest)[1..] == rest;
    ModuleLineDispatches(types, a, block, [line] + rest, "PerBaseSequenceQuality");
  }

  lemma QualityTitleHasNoLineTerminator(title: string)
    requires title == "Per base sequence quality"
    ensures NoLineTerminator(title)
  {
  }

  /** The modules in report order; the first one not completed ends the processing. */
  function Modules(types: map<string, string>, a: AnalysisState, chunks: seq<string>): (r: Report)
    ensures types.Keys <= r.types.Keys && Grows(a, r.analysis)
    ensures r.status.Thrown? ==>
              r.status.error == StringIndexOutOfBounds &&
              exists c :: 0 <= c < |chunks| && HasBadModuleName(SplitOn(chunks[c], "\n"))
    decreases |chunks|
  {
    if chunks == [] then Report(types, a, Completed)
    else
      var r := ModuleLines(types, a, chunks[0], SplitOn(chunks[0], "\n"));
      if !r.status.Completed? then r
      else
        var r' := Modules(r.types, r.analysis, chunks[1..]);
        GrowsTransitive(a, r.analysis, r'.analysis);
        assert r'.status.Thrown? ==> exists c :: 0 <= c < |chunks| && HasBadModuleName(SplitOn(chunks[c], "\n")) by {
          if r'.status.Thrown? { BadChunkInTail(chunks); }
        }
        r'
  }

  lemma BadChunkInTail(chunks: seq<string>)
    requires chunks != [] && exists c :: 0 <= c < |chunks[1..]| && HasBadModuleName(SplitOn(chunks[1..][c], "\n"))
    ensures exists c :: 0 <= c < |chunks| && HasBadModuleName(SplitOn(chunks[c], "\n"))
  {
    var c :| 0 <= c < |chunks[1..]| && HasBadModuleName(SplitOn(chunks[1..][c], "\n"));
    assert chunks[1..][c] == chunks[c + 1];
  }

  /** Modules are handled in report order: the later modules run only on what the earlier
      ones left, and only when every earlier one completed. */
  lemma {:induction false} ModulesInOrder(types: map<string, string>, a: AnalysisState, first: seq<string>, later: seq<string>)
    ensures var r := Modules(types, a, first);
            Modules(types, a, first + later) == if r.status.Completed? then Modules(r.types, r.analysis, later) else r
    decreases |first|
  {
    if first == [] {
      assert first + later == later;
    } else {
      assert (first + later)[0] == first[0];
      assert (first + later)[1..] == first[1..] + later;
      var r := ModuleLines(types, a, first[0], SplitOn(first[0], "\n"));
      if r.status.Completed? {
        ModulesInOrder(r.types, r.analysis, first[1..], later);
      }
    }
  }

  /** One line of the report loop: a version line sets the property or throws, any other
      line moves into the text. */
  lemma CollectReportStep(a: AnalysisState, report: string, lines: seq<string>, i: nat)
    requires i < |lines|
    ensures var tokens := SplitRuns(lines[i], Whitespace);
            StartsWith(lines[i], "##") && |tokens| < 2 ==>
              Prefixed(report, CollectReport(a, lines[i..])) == (a, Err(ArrayIndexOutOfBounds))
    ensures var tokens := SplitRuns(lines[i], Whitespace);
            StartsWith(lines[i], "##") && |tokens| >= 2 ==>
              Prefixed(report, CollectReport(a, lines[i..])) ==
              Prefixed(report, CollectReport(a.AddProperty("FastQC", tokens[1]), lines[i + 1..]))
    ensures !StartsWith(lines[i], "##") ==>
              Prefixed(report, CollectReport(a, lines[i..])) ==
              Prefixed(report + lines[i] + "\n", CollectReport(a, lines[i + 1..]))
  {
    assert lines[i..][0] == lines[i] && lines[i..][1..] == lines[i + 1..];
    if !StartsWith(lines[i], "##") {
      var rest := CollectReport(a, lines[i + 1..]);
      assert rest.1.Ok? ==> report + (lines[i] + "\n" + rest.1.value) == report + lines[i] + "\n" + rest.1.value;
    }
  }

  /** processFastQCReportFile on the text of a report file: the version lines and the
      text, then the modules of that text. */
  function ProcessedReport(types: map<string, string>, a: AnalysisState, text: string): (r: Report)
    ensures types.Keys <= r.types.Keys && Grows(a, r.analysis)
    ensures r.status.Thrown? ==> r.status.error == ArrayIndexOutOfBounds || r.status.error == StringIndexOutOfBounds
  {
    var (a1, body) := CollectReport(a, ReadLines(text));
    if body.Err? then Report(types, a1, Thrown(body.error))
    else
      var r := Modules(types, a1, SplitOn(body.value, ">>END_MODULE"));
      GrowsTransitive(a, a1, r.analysis);
      r
  }

  /** parseReport: the tool property set to FastQC and every entry of the parser's table
      registered as a value type, both before any line of the report is read; then the
      report. */
  function ParsedReport(types: map<string, string>, a: AnalysisState, text: string): (r: Report)
    ensures r == ProcessedReport(types, a.(properties := a.properties["tool" := "FastQC"],
                                           valueTypes := a.valueTypes + types), text)
    ensures "tool" in r.analysis.properties
    ensures types.Keys <= r.types.Keys && types.Keys <= r.analysis.valueTypes.Keys
    ensures r.status.Thrown? ==> r.status.error == ArrayIndexOutOfBounds || r.status.error == StringIndexOutOfBounds
  {
    ProcessedReport(types, Registered(a.AddProperty("tool", "FastQC"), types), text)
  }

  /** The text of the report collected so far, in front of what the rest of the lines give. */
  function Prefixed(text: string, r: (AnalysisState, Result<string>)): (AnalysisState, Result<string>) {
    (r.0, if r.1.Ok? then Ok(text + r.1.value) else r.1)
  }

  // ------------------------------------------------------------------ properties

  /** "Sequence length<TAB>x-y" stores x as the minimum length and y as the maximum, each
      rendered back in decimal, in that order whatever their sizes. */
  lemma BasicStatisticsSequenceLength(a: AnalysisState, x: string, y: string)
    requires |x| > 0 && |y| > 0 && AllDigits(x) && AllDigits(y)
    ensures BasicStatisticsLine(a, "Sequence length\t" + x + "-" + y) ==
            Ok(a.AddGeneralValue("general_min_length", NatToString(DecimalValue(x)), None)
                .AddGeneralValue("general_max_length", NatToString(DecimalValue(y)), None))
  {
    SequenceLengthFields(x, y);
    ParseRangeOfSpan(x, y);
  }

  lemma SequenceLengthFields(x: string, y: string)
    requires AllDigits(x) && AllDigits(y)
    ensures var line := "Sequence length\t" + x + "-" + y;
            IsBodyLine(line) && SplitOn(line, "\t") == ["Sequence length", x + "-" + y]
  {
    var v := x + "-" + y;
    forall i | 0 <= i < |v| ensures v[i] != '\t' {
      if i < |x| {
        assert v[i] == x[i];
      } else if i > |x| {
        assert v[i] == y[i - |x| - 1];
      }
    }
    var line := "Sequence length\t" + x + "-" + y;
    assert line == "Sequence length" + ['\t'] + v;
    SplitOnPair("Sequence length", v, '\t');
    assert line[0] == 'S';
  }

  /** Any other "key<TAB>value" line: the three known keys become general values under
      their database names, every other key a property of the analysis. */
  lemma BasicStatisticsKeyValue(a: AnalysisState, key: string, v: string)
    requires key != "" && key[0] != '#' && key[0] != '>' && '\t' !in key
    requires v != "" && '\t' !in v
    ensures key in ValueKeys ==>
              BasicStatisticsLine(a, key + "\t" + v) == Ok(a.AddGeneralValue(ValueKeys[key], v, None))
    ensures key !in ValueKeys && key != "Sequence length" ==>
              BasicStatisticsLine(a, key + "\t" + v) == Ok(a.AddProperty(key, v))
  {
    var line := key + "\t" + v;
    assert line == key + ['\t'] + v;
    SplitOnPair(key, v, '\t');
    assert line[0] == key[0];
  }

  /** A line without a tab is not a key-value pair and changes nothing. */
  lemma BasicStatisticsIgnoresUntabbedLine(a: AnalysisState, line: string)
    requires '\t' !in line
    ensures BasicStatisticsLine(a, line) == Ok(a)
  {
    IndexFromMisses(line, '\t', 0);
  }

  /** The header array the first pass leaves is the one built from the module's last '#'
      row, or the initial one when there is none. */
  lemma {:induction false} HeaderPassUsesLastHeaderRow(a: AnalysisState, h: Option<seq<JString>>, lines: seq<string>, prefix: string)
    ensures HeaderPass(a, h, lines, prefix).1 ==
              match LastHeaderRow(lines)
              case None => h
              case Some(row) => Some(HeaderSlots(HeaderTokens(row), LowerCaseHeaderKeys, prefix))
    decreases |lines|
  {
    if lines != [] {
      if StartsWith(lines[0], "#") {
        var hs := HeaderTokens(lines[0]);
        HeaderPassUsesLastHeaderRow(HeaderRow(a, hs, LowerCaseHeaderKeys),
                                    Some(HeaderSlots(hs, LowerCaseHeaderKeys, prefix)), lines[1..], prefix);
      } else {
        HeaderPassUsesLastHeaderRow(a, h, lines[1..], prefix);
      }
    }
  }

  /** A module without any '#' row is refused, and only its analysis is left as it was. */
  lemma ModuleBlockWithoutHeaderFails(a: AnalysisState, block: string, prefix: string, kind: ValueKind)
    requires NoHeaderRows(SplitOn(block, "\n"))
    ensures ModuleBlock(a, block, prefix, kind) == Outcome(a, Some(MissingHeaderRow))
  {
  }

  /** With a header row, the analysis gains the last header row's effect and then each data
      row's values in order; the module fails only where a row or a cell does. */
  lemma ModuleBlockUsesLastHeaderRow(a: AnalysisState, block: string, prefix: string, kind: ValueKind)
    ensures var lines := SplitOn(block, "\n");
            match LastHeaderRow(lines)
            case None => ModuleBlock(a, block, prefix, kind).failure == Some(MissingHeaderRow)
            case Some(row) =>
              ModuleBlock(a, block, prefix, kind) ==
                DataPass(HeaderPass(a, None, lines, prefix).0, kind,
                         HeaderSlots(HeaderTokens(row), LowerCaseHeaderKeys, prefix), lines)
  {
    HeaderPassUsesLastHeaderRow(a, None, SplitOn(block, "\n"), prefix);
  }

  /** A Per base sequence quality module with the header "#Base<TAB>Mean<TAB>Median" and
      the row "1-5<TAB>30.2<TAB>31.0" adds <prefix>_mean and <prefix>_median (quality_mean
      and quality_median under the module's prefix) over bases 1 to 5: offset 1, size 5. */
  lemma ModuleBlockExample(a: AnalysisState, prefix: string)
    ensures ModuleBlock(a, "#Base\tMean\tMedian\n1-5\t30.2\t31.0", prefix, Partition) ==
            Outcome(a.(partitionValues := a.partitionValues + [PartitionValue(1, 5, prefix + "_" + "mean", "30.2"),
                                                              PartitionValue(1, 5, prefix + "_" + "median", "31.0")]), None)
  {
    var block := "#Base\tMean\tMedian\n1-5\t30.2\t31.0";
    var head, row := "#Base\tMean\tMedian", "1-5\t30.2\t31.0";
    ExampleLines(block, head, row);
    var hs := ExampleTokens(head);
    var headers := ExampleHeaders(hs, prefix);
    var fields := ExampleFields(row);
    ExampleBodyAndHeaderPass(a, head, row, fields, prefix);
    ExampleRowAdds(headers, fields, prefix);
  }

  lemma ExampleLines(block: string, head: string, row: string)
    requires block == "#Base\tMean\tMedian\n1-5\t30.2\t31.0"
    requires head == "#Base\tMean\tMedian" && row == "1-5\t30.2\t31.0"
    ensures SplitOn(block, "\n") == [head, row] && LastHeaderRow([head, row]) == Some(head)
    ensures IsBodyLine(row) && !IsBodyLine(head)
  {
    ExampleLineKinds(head, row);
    assert block == head + ['\n'] + row;
    SplitOnPair(head, row, '\n');
  }

  lemma ExampleLineKinds(head: string, row: string)
    requires head == "#Base\tMean\tMedian" && row == "1-5\t30.2\t31.0"
    ensures IsBodyLine(row) && !IsBodyLine(head) && !StartsWith(row, "#")
    ensures LastHeaderRow([head, row]) == Some(head)
  {
    assert row[..2] == "1-" && row[..1] == "1" && head[..1] == "#";
    assert [head, row][1..] == [row] && [row][1..] == [];
  }

  lemma ExampleBodyAndHeaderPass(a: AnalysisState, head: string, row: string, fields: seq<string>, prefix: string)
    requires head == "#Base\tMean\tMedian" && row == "1-5\t30.2\t31.0"
    requires IsBodyLine(row) && !IsBodyLine(head) && SplitRuns(row, Tab) == fields
    requires HeaderTokens(head) == ["base", "mean", "median"]
    ensures BodyRows([head, row]) == [fields]
    ensures HeaderPass(a, None, [head, row], prefix).0 == a
  {
    var lines := [head, row];
    assert lines[1..] == [row] && [row][1..] == [];
    assert BodyRows([row]) == [fields] + BodyRows([]);
    assert !IsKeyedHeaderRow(HeaderTokens(head), LowerCaseHeaderKeys);
    assert !StartsWith(row, "#");
  }

  lemma ExampleHeaders(hs: seq<string>, prefix: string) returns (headers: seq<JString>)
    requires hs == ["base", "mean", "median"]
    ensures headers == [Some(prefix + "_" + "base"), Some(prefix + "_" + "mean"), Some(prefix + "_" + "median")]
    ensures HeaderSlots(hs, LowerCaseHeaderKeys, prefix) == headers
  {
    ExampleTokensArePlain(hs);
    ColumnNameOfPlainToken(hs[0], LowerCaseHeaderKeys, prefix);
    ColumnNameOfPlainToken(hs[1], LowerCaseHeaderKeys, prefix);
    ColumnNameOfPlainToken(hs[2], LowerCaseHeaderKeys, prefix);
    headers := [Some(prefix + "_" + "base"), Some(prefix + "_" + "mean"), Some(prefix + "_" + "median")];
    var slots := HeaderSlots(hs, LowerCaseHeaderKeys, prefix);
    assert |slots| == 3 && slots[0] == headers[0] && slots[1] == headers[1] && slots[2] == headers[2];
  }

  lemma ExampleTokensArePlain(hs: seq<string>)
    requires hs == ["base", "mean", "median"]
    ensures !IsKeyedHeaderRow(hs, LowerCaseHeaderKeys)
    ensures forall j :: 0 <= j < |hs| ==> NoneInClass(hs[j], Whitespace) && hs[j] !in LowerCaseHeaderKeys
  {
    assert NoneInClass("base", Whitespace) && NoneInClass("mean", Whitespace) && NoneInClass("median", Whitespace);
    assert "base"[0] == 'b' && "mean"[0] == 'm' && "median"[0] == 'm';
  }

  lemma ExampleTokens(head: string) returns (hs: seq<string>)
    requires head == "#Base\tMean\tMedian"
    ensures hs == ["base", "mean", "median"] && HeaderTokens(head) == hs
  {
    hs := ["base", "mean", "median"];
    assert ToLower(head[1..]) == Join(['\t'], hs) by {
      assert hs[1..] == ["mean", "median"] && hs[1..][1..] == ["median"];
    }
    assert forall j :: 0 <= j < |hs| ==> hs[j] != "" && NoneInClass(hs[j], Tab);
    SplitRunsOfJoin(hs, '\t', Tab);
  }

  lemma ExampleFields(row: string) returns (fields: seq<string>)
    requires row == "1-5\t30.2\t31.0"
    ensures fields == ["1-5", "30.2", "31.0"] && SplitRuns(row, Tab) == fields
  {
    fields := ["1-5", "30.2", "31.0"];
    assert row == Join(['\t'], fields) by {
      assert fields[1..] == ["30.2", "31.0"] && fields[1..][1..] == ["31.0"];
    }
    assert forall j :: 0 <= j < |fields| ==> fields[j] != "" && NoneInClass(fields[j], Tab);
    SplitRunsOfJoin(fields, '\t', Tab);
  }

  lemma ExampleRowAdds(headers: seq<JString>, fields: seq<string>, prefix: string)
    requires headers == [Some(prefix + "_" + "base"), Some(prefix + "_" + "mean"), Some(prefix + "_" + "median")]
    requires fields == ["1-5", "30.2", "31.0"]
    ensures RowsAccepted(Partition, headers, [fields])
    ensures RowsPartitions(headers, [fields]) ==
              [PartitionValue(1, 5, prefix + "_" + "mean", "30.2"), PartitionValue(1, 5, prefix + "_" + "median", "31.0")]
  {
    ParseRangeOfSpan("1", "5");
    assert "1" + "-" + "5" == "1-5";
    assert DecimalValue("1") == 1 && DecimalValue("5") == 5 by {
      assert "1"[..0] == "" && "5"[..0] == "";
    }
    assert |prefix + "_" + "mean"| > 0 && |prefix + "_" + "median"| > 0;
    assert ColumnsAccepted(Partition, headers, fields, 1);
    assert [fields][1..] == [];
    assert RowsPartitions(headers, [fields]) == PartitionColumns(headers, fields, 1) + [];
  }

  /** A well-formed row of Overrepresented sequences registers the sequence as a value type
      and stores its count, with its possible source as the description. */
  lemma OverrepresentedRow(types: map<string, string>, a: AnalysisState, fields: seq<string>)
    requires |fields| >= 4
    requires forall j :: 0 <= j < |fields| ==> fields[j] != "" && NoneInClass(fields[j], Tab)
    requires fields[0][0] != '#' && fields[0][0] != '>'
    ensures OverrepresentedLine(types, a, Join("\t", fields)) ==
              Ok((types[fields[0] := "overrepresented_sequence"],
                  a.AddValueType(fields[0], "overrepresented_sequence")
                   .AddGeneralValue(fields[0], fields[1], Some(fields[3]))))
  {
    TabRow(fields);
  }

  /** Fields joined by tabs form a body line that splits back into the same fields. */
  lemma TabRow(fields: seq<string>)
    requires |fields| > 0
    requires forall j :: 0 <= j < |fields| ==> fields[j] != "" && NoneInClass(fields[j], Tab)
    requires fields[0][0] != '#' && fields[0][0] != '>'
    ensures Join("\t", fields) != "" && IsBodyLine(Join("\t", fields))
    ensures SplitRuns(Join("\t", fields), Tab) == fields
  {
    JoinStartsWithFirst(fields, '\t');
    var line := Join("\t", fields);
    assert !StartsWith(line, "#") by {
      assert |line| >= 1 ==> line[..1][0] == line[0];
    }
    assert !StartsWith(line, ">>") by {
      assert |line| >= 2 ==> line[..2][0] == line[0];
    }
    SplitRunsOfJoin(fields, '\t', Tab);
  }

  /** A row with fewer than four fields is refused. */
  lemma OverrepresentedShortRow(types: map<string, string>, a: AnalysisState, fields: seq<string>)
    requires 0 < |fields| < 4
    requires forall j :: 0 <= j < |fields| ==> fields[j] != "" && NoneInClass(fields[j], Tab)
    requires fields[0][0] != '#' && fields[0][0] != '>'
    ensures OverrepresentedLine(types, a, Join("\t", fields)) == Err(MalformedOverrepresentedSequence)
  {
    TabRow(fields);
  }

  /** A well-formed row of Kmer Content registers the k-mer and stores its count. */
  lemma KmerRow(types: map<string, string>, a: AnalysisState, fields: seq<string>)
    requires |fields| >= 2
    requires forall j :: 0 <= j < |fields| ==> fields[j] != "" && NoneInClass(fields[j], Tab)
    requires fields[0][0] != '#' && fields[0][0] != '>'
    ensures KmerLine(types, a, Join("\t", fields)) ==
              Ok((types[fields[0] := "overrepresented_kmer"],
                  a.AddValueType(fields[0], "overrepresented_kmer").AddGeneralValue(fields[0], fields[1], None)))
  {
    TabRow(fields);
  }

  /** A row of a single field is refused. */
  lemma KmerShortRow(types: map<string, string>, a: AnalysisState, field: string)
    requires field != "" && NoneInClass(field, Tab) && field[0] != '#' && field[0] != '>'
    ensures KmerLine(types, a, field) == Err(MalformedOverrepresentedKmer)
  {
    TabRow([field]);
  }

  // ------------------------------------------------------------------ the version lines

  /** Every "##" line has a second whitespace-separated token. */
  predicate WellFormedVersions(lines: seq<string>) {
    forall i :: 0 <= i < |lines| && StartsWith(lines[i], "##") ==> |SplitRuns(lines[i], Whitespace)| >= 2
  }

  /** The FastQC property writes of the "##" lines, in order. */
  function VersionPairs(lines: seq<string>): seq<(string, string)>
    requires WellFormedVersions(lines)
    decreases |lines|
  {
    if lines == [] then []
    else
      assert WellFormedVersions(lines[1..]) by {
        forall i | 0 <= i < |lines[1..]| && StartsWith(lines[1..][i], "##")
          ensures |SplitRuns(lines[1..][i], Whitespace)| >= 2
        {
          assert lines[1..][i] == lines[i + 1];
        }
      }
      if StartsWith(lines[0], "##") then [("FastQC", SplitRuns(lines[0], Whitespace)[1])] + VersionPairs(lines[1..])
      else VersionPairs(lines[1..])
  }

  /** The other lines, each followed by a newline. */
  function BodyText(lines: seq<string>): string
    decreases |lines|
  {
    if lines == [] then ""
    else if StartsWith(lines[0], "##") then BodyText(lines[1..])
    else lines[0] + "\n" + BodyText(lines[1..])
  }

  /** Reading the report separates it exactly: the version lines become property writes,
      the rest the text that is cut into modules; a short version line throws. */
  lemma {:induction false} CollectReportSeparates(a: AnalysisState, lines: seq<string>)
    ensures WellFormedVersions(lines) ==>
              CollectReport(a, lines) == (AddProperties(a, VersionPairs(lines)), Ok(BodyText(lines)))
    ensures !WellFormedVersions(lines) ==> CollectReport(a, lines).1 == Err(ArrayIndexOutOfBounds)
    decreases |lines|
  {
    if lines != [] {
      var tokens := SplitRuns(lines[0], Whitespace);
      assert WellFormedVersions(lines) <==>
             (StartsWith(lines[0], "##") ==> |tokens| >= 2) && WellFormedVersions(lines[1..]) by {
        if (StartsWith(lines[0], "##") ==> |tokens| >= 2) && WellFormedVersions(lines[1..]) {
          forall i | 0 <= i < |lines| && StartsWith(lines[i], "##") ensures |SplitRuns(lines[i], Whitespace)| >= 2 {
            if i > 0 {
              assert lines[1..][i - 1] == lines[i];
            }
          }
        }
        if WellFormedVersions(lines) {
          forall i | 0 <= i < |lines[1..]| && StartsWith(lines[1..][i], "##")
            ensures |SplitRuns(lines[1..][i], Whitespace)| >= 2
          {
            assert lines[1..][i] == lines[i + 1];
          }
        }
      }
      if StartsWith(lines[0], "##") {
        if |tokens| >= 2 {
          CollectReportSeparates(a.AddProperty("FastQC", tokens[1]), lines[1..]);
        }
      } else {
        CollectReportSeparates(a, lines[1..]);
      }
    }
  }

  /** After the report is read, the FastQC property holds the version of the last "##"
      line; with no such line it is whatever it was. */
  lemma VersionPropertyIsLast(a: AnalysisState, lines: seq<string>)
    requires WellFormedVersions(lines)
    ensures LastValueFor(VersionPairs(lines), "FastQC").Some? ==>
              CollectReport(a, lines).0.GetProperty("FastQC") == Ok(LastValueFor(VersionPairs(lines), "FastQC").value)
    ensures LastValueFor(VersionPairs(lines), "FastQC").None? ==>
              CollectReport(a, lines).0.GetProperty("FastQC") == a.GetProperty("FastQC")
  {
    CollectReportSeparates(a, lines);
    GetPropertyReturnsLastWrite(a, VersionPairs(lines), "FastQC");
  }

  // ------------------------------------------------------------------ the parser object

  /** The parser object: its value-type table starts with the built-in types and learns the
      overrepresented sequences and k-mers of every report it reads. Each method is proved
      against the function of the same step above. */
  class FastQCReportParser {
    var values: map<string, string>

    constructor ()
      ensures values == BuiltinValueTypes
    {
      values := BuiltinValueTypes;
    }

    method ParseReport(text: string, qa: DefaultQCAnalysis) returns (status: Status)
      modifies this, qa
      ensures var r := ParsedReport(old(values), old(qa.State()), text);
              values == r.types && qa.State() == r.analysis && status == r.status
    {
      qa.AddProperty("tool", "FastQC");
      RegisterValueTypes(qa, values);
      status := ProcessFastQCReportFile(text, qa);
    }

    method ProcessFastQCReportFile(text: string, qa: DefaultQCAnalysis) returns (status: Status)
      modifies this, qa
      ensures var r := ProcessedReport(old(values), old(qa.State()), text);
              values == r.types && qa.State() == r.analysis && status == r.status
    {
      var lines := ReadLines(text);
      var report := "";
      var i := 0;
      ghost var all := CollectReport(qa.State(), lines);
      assert all.1.Ok? ==> "" + all.1.value == all.1.value;
      assert lines[0..] == lines;
      while i < |lines|
        invariant 0 <= i <= |lines| && values == old(values)
        invariant CollectReport(old(qa.State()), lines) == Prefixed(report, CollectReport(qa.State(), lines[i..]))
      {
        CollectReportStep(qa.State(), report, lines, i);
        if StartsWith(lines[i], "##") {
          var tokens := SplitRuns(lines[i], Whitespace);
          if |tokens| < 2 {
            return Thrown(ArrayIndexOutOfBounds);
          }
          qa.AddProperty("FastQC", tokens[1]);
        } else {
          report := report + lines[i] + "\n";
        }
        i := i + 1;
      }
      assert report + "" == report;
      status := ProcessModules(SplitOn(report, ">>END_MODULE"), qa);
    }

    /** The modules in order, until one does not complete. */
    method ProcessModules(chunks: seq<string>, qa: DefaultQCAnalysis) returns (status: Status)
      modifies this, qa
      ensures var r := Modules(old(values), old(qa.State()), chunks);
              values == r.types && qa.State() == r.analysis && status == r.status
    {
      var c := 0;
      while c < |chunks|
        invariant 0 <= c <= |chunks|
        invariant Modules(old(values), old(qa.State()), chunks) == Modules(values, qa.State(), chunks[c..])
      {
        assert chunks[c..][0] == chunks[c] && chunks[c..][1..] == chunks[c + 1..];
        status := ProcessModule(chunks[c], qa);
        if !status.Completed? {
          return;
        }
        c := c + 1;
      }
      status := Completed;
    }

    /** One module: every module line it holds dispatches the module to its handler. */
    method ProcessModule(block: string, qa: DefaultQCAnalysis) returns (status: Status)
      modifies this, qa
      ensures var r := ModuleLines(old(values), old(qa.State()), block, SplitOn(block, "\n"));
              values == r.types && qa.State() == r.analysis && status == r.status
    {
      var modlines := SplitOn(block, "\n");
      var m := 0;
      while m < |modlines|
        invariant 0 <= m <= |modlines|
        invariant ModuleLines(old(values), old(qa.State()), block, modlines) ==
                  ModuleLines(values, qa.State(), block, modlines[m..])
      {
        assert modlines[m..][0] == modlines[m] && modlines[m..][1..] == modlines[m + 1..];
        var group := ModuleNameGroup(modlines[m]);
        if group.Some? {
          var name := CanonicalModuleName(group.value);
          if name.Err? {
            return Thrown(name.error);
          }
          var handler := HandlerFor(name.value);
          if handler.None? {
            return Abandoned(NoSuchParser("parse" + name.value));
          }
          var failure := Invoke(handler.value, block, qa);
          if failure.Some? {
            return Abandoned(HandlerFailed(failure.value));
          }
        }
        m := m + 1;
      }
      status := Completed;
    }

    /** The handler's own method on the module text. */
    method Invoke(h: Handler, block: string, qa: DefaultQCAnalysis) returns (failure: Option<Error>)
      modifies this, qa
      ensures var o := RunHandler(h, old(values), old(qa.State()), block);
              values == o.types && qa.State() == o.analysis && failure == o.failure
    {
      match h
      case BasicStatisticsHandler =>
        failure := ParseBasicStatistics(block, qa);
      case PartitionHandler(prefix) =>
        failure := ParseModuleBlock(block, qa, prefix, Partition);
      case PositionHandler(prefix) =>
        failure := ParseModuleBlock(block, qa, prefix, Position);
      case OverrepresentedSequencesHandler =>
        failure := ParseOverrepresentedSequences(block, qa);
      case KmerContentHandler =>
        failure := ParseKmerContent(block, qa);
    }

    method ParseBasicStatistics(block: string, qa: DefaultQCAnalysis) returns (failure: Option<Error>)
      modifies qa
      ensures var o := BasicStatistics(old(qa.State()), SplitOn(block, "\n"));
              qa.State() == o.analysis && failure == o.failure
    {
      var lines := SplitOn(block, "\n");
      var i := 0;
      while i < |lines|
        invariant 0 <= i <= |lines|
        invariant BasicStatistics(old(qa.State()), lines) == BasicStatistics(qa.State(), lines[i..])
      {
        BasicStatisticsStep(qa.State(), lines, i);
        if IsBodyLine(lines[i]) {
          var tokens := SplitOn(lines[i], "\t");
          if |tokens| == 2 {
            if tokens[0] == "Sequence length" {
              var range := ParseRange(Some(tokens[1]));
              if range.Err? {
                return Some(range.error);
              }
              qa.AddGeneralValue("general_min_length", NatToString(range.value.0), None);
              qa.AddGeneralValue("general_max_length", NatToString(range.value.1), None);
            } else if tokens[0] in ValueKeys {
              qa.AddGeneralValue(ValueKeys[tokens[0]], tokens[1], None);
            } else {
              qa.AddProperty(tokens[0], tokens[1]);
            }
          }
        }
        i := i + 1;
      }
      failure := None;
    }

    method ParseModuleBlock(block: string, qa: DefaultQCAnalysis, prefix: string, kind: ValueKind)
      returns (failure: Option<Error>)
      modifies qa
      ensures var o := ModuleBlock(old(qa.State()), block, prefix, kind);
              qa.State() == o.analysis && failure == o.failure
    {
      var lines := SplitOn(block, "\n");
      var headers := HeaderRows(lines, qa, prefix);
      if headers.None? {
        return Some(MissingHeaderRow);
      }
      failure := DataRows(lines, qa, kind, headers.value);
    }

    /** The first loop over the module's lines: every '#' line replaces the header row. */
    method HeaderRows(lines: seq<string>, qa: DefaultQCAnalysis, prefix: string) returns (headers: Option<seq<JString>>)
      modifies qa
      ensures HeaderPass(old(qa.State()), None, lines, prefix) == (qa.State(), headers)
    {
      headers := None;
      var i := 0;
      while i < |lines|
        invariant 0 <= i <= |lines|
        invariant HeaderPass(old(qa.State()), None, lines, prefix) == HeaderPass(qa.State(), headers, lines[i..], prefix)
      {
        HeaderPassStep(qa.State(), headers, lines, i, prefix);
        if StartsWith(lines[i], "#") {
          var hs := HeaderTokens(lines[i]);
          var slots := HeaderArray(hs, LowerCaseHeaderKeys, prefix);
          if IsKeyedHeaderRow(hs, LowerCaseHeaderKeys) {
            qa.AddGeneralValue(LowerCaseHeaderKeys[hs[0]], hs[1], Some(""));
          }
          headers := Some(slots[..]);
        }
        i := i + 1;
      }
    }

    /** The second loop over the module's lines: every body line is a row of values. */
    method DataRows(lines: seq<string>, qa: DefaultQCAnalysis, kind: ValueKind, headers: seq<JString>)
      returns (failure: Option<Error>)
      modifies qa
      ensures var o := DataPass(old(qa.State()), kind, headers, lines);
              qa.State() == o.analysis && failure == o.failure
    {
      var i := 0;
      while i < |lines|
        invariant 0 <= i <= |lines|
        invariant DataPass(old(qa.State()), kind, headers, lines) == DataPass(qa.State(), kind, headers, lines[i..])
      {
        DataPassStep(qa.State(), kind, headers, lines, i);
        if IsBodyLine(lines[i]) {
          failure := AddRowValues(qa, kind, headers, SplitRuns(lines[i], Tab));
          if failure.Some? {
            return;
          }
        }
        i := i + 1;
      }
      failure := None;
    }

    method ParseOverrepresentedSequences(block: string, qa: DefaultQCAnalysis) returns (failure: Option<Error>)
      modifies this, qa
      ensures var o := OverrepresentedSequences(old(values), old(qa.State()), SplitOn(block, "\n"));
              values == o.types && qa.State() == o.analysis && failure == o.failure
    {
      var lines := SplitOn(block, "\n");
      var i := 0;
      while i < |lines|
        invariant 0 <= i <= |lines|
        invariant OverrepresentedSequences(old(values), old(qa.State()), lines) ==
                  OverrepresentedSequences(values, qa.State(), lines[i..])
      {
        assert lines[i..][0] == lines[i] && lines[i..][1..] == lines[i + 1..];
        if IsBodyLine(lines[i]) && lines[i] != "" {
          var tokens := SplitRuns(lines[i], Tab);
          if |tokens| < 4 {
            return Some(MalformedOverrepresentedSequence);
          }
          values := values[tokens[0] := "overrepresented_sequence"];
          qa.AddValueType(tokens[0], "overrepresented_sequence");
          qa.AddGeneralValue(tokens[0], tokens[1], Some(tokens[3]));
        }
        i := i + 1;
      }
      failure := None;
    }

    method ParseKmerContent(block: string, qa: DefaultQCAnalysis) returns (failure: Option<Error>)
      modifies this, qa
      ensures var o := KmerContent(old(values), old(qa.State()), SplitOn(block, "\n"));
              values == o.types && qa.State() == o.analysis && failure == o.failure
    {
      var lines := SplitOn(block, "\n");
      var i := 0;
      while i < |lines|
        invariant 0 <= i <= |lines|
        invariant KmerContent(old(values), old(qa.State()), lines) == KmerContent(values, qa.State(), lines[i..])
      {
        assert lines[i..][0] == lines[i] && lines[i..][1..] == lines[i + 1..];
        if IsBodyLine(lines[i]) && lines[i] != "" {
          var tokens := SplitRuns(lines[i], Tab);
          if |tokens| < 2 {
            return Some(MalformedOverrepresentedKmer);
          }
          values := values[tokens[0] := "overrepresented_kmer"];
          qa.AddValueType(tokens[0], "overrepresented_kmer");
          qa.AddGeneralValue(tokens[0], tokens[1], None);
        }
        i := i + 1;
      }
      failure := None;
    }
  }
}
