# statsdb ingestion core, modelled in Dafny

This project models the part of TGAC statsdb that reads FastQC reports into a
QC analysis, together with the small text utilities around it. It covers:

- **Range resolver** (`StatsDBUtils`). Turns `"a-b"` or `"n"` into (min, max), and then into an
  offset and an inclusive size. It also capitalises module-name words.
- **Measurement model** (`AbstractQCAnalysis`, `DefaultQCAnalysis`, `PartitionValue`,
  `PositionValue`). An analysis holds:
  - an id;
  - a property map, a value-type→scope map, a description map and a general-value map;
  - ordered partition and position value lists.

  The model uses a datatype `AnalysisState` for the state and a class `DefaultQCAnalysis` whose
  methods update its fields in place. Every method is tied to a function on `AnalysisState`.
- **FastQC report parser, `tgac` variant** (`statsdb-api/.../tgac/statsdb/run/parser/FastQCReportParser`).
  It works in these steps:
  - it stores the `##` version lines as a property;
  - it splits the report on `>>END_MODULE`;
  - it canonicalises every module name (`Per base GC content` → `PerBaseGCContent`);
  - it dispatches each module to one of eleven handlers. The model replaces Java reflection with
    a closed table, `HandlerFor`.

  The handlers turn `#` header rows and tab-separated rows into partition or position values.
  They turn Basic Statistics into general values and properties. They turn overrepresented
  sequence and k-mer rows into value types, which they register on the fly.
- **FastQC report parser, `run` variant** (`Java/run/.../FastQCReportParser`). It scans line by
  line and uses a single-pass `parseModuleBlock`, in which the header must come first. Its
  `getModuleBlock` concatenates lines. The model proves that in this variant no module handler
  can ever add a value.
- **Metadata table parser** (`AnalysisMetadataParser`, two identical copies). It reads a header
  row and data rows into one analysis per row.
- **Report tables.** This covers `GenericReportTable` (two copies, list constructor, CSV,
  headers, append) and `python/Reports_ReportTable.py` (`New`, `to_csv`, `to_json`).
- **SQL fragment builder** (`python/add_parameters.py`, `selections_conditions`).

Modules:

| file | module | what |
|---|---|---|
| `wrappers.dfy` | `Wrappers` | `Option`, `Result`, the nullable `JString`, the exceptions as an `Error` datatype |
| `java_strings.dfy` | `JavaStrings` | what Java's `String.split`, `BufferedReader.readLine`, `toLowerCase`, `Long.parseLong` and `String.valueOf` do, plus Python 2 `str.split()` |
| `analysis_values.dfy` | `AnalysisValues` | `PartitionValue`, `PositionValue` and their validating constructors |
| `stats_db_utils.dfy` | `StatsDBUtils` | `parseRange`, `rangeToSize`, `capitalise` |
| `qc_analysis.dfy` | `QCAnalysisModel` | `AbstractQCAnalysis` as `AnalysisState`, and the class `DefaultQCAnalysis` |
| `fastqc_format.dfy` | `FastQCFormat` | what both parser variants share: the constructor tables, module-name canonicalisation, header rows, data rows |
| `statsdb_fastqc_parser.dfy` | `StatsdbFastQCParser` | the `tgac` parser |
| `run_fastqc_parser.dfy` | `RunFastQCParser` | the `run` parser |
| `metadata_parser.dfy` | `AnalysisMetadataParser` | the metadata table parser |
| `generic_report_table.dfy` | `ReportTables` | `GenericReportTable` |
| `report_table_py.dfy` | `PyReportTable` | `python/Reports_ReportTable.py` |
| `add_parameters.dfy` | `SqlSelections` | `python/add_parameters.py` |

Java `null` is `None` in a `JString`. A thrown exception is an `Err` value or a returned
failure. Unchecked exceptions are modelled too: `capitalise("")`, `split(...)[1]` on a short
`##` line, and a data row with more fields than headers. A parse loop in the source is a
method with a `while` loop. The method's `ensures` ties its result and the new analysis state
to a recursive specification function, and the lemmas state what that function promises.

Behaviour of the source that a reader might not expect:

- In the `tgac` parser, an unknown module name or a failing handler ends the processing of the
  whole report, but `parseReport` still returns normally. The exception is caught outside the
  module loop. It does not skip the module and continue, and it does not fail the parse.
- The `tgac` `parseModuleBlock` reads headers in a separate first pass. The last `#` row wins,
  wherever it appears. Only the `run` variant requires a header before the first data row.
- The `tgac` parser never checks a module's start line. Only the `run` `getModuleBlock` does.
- The constructors register 22 built-in value types.

## Model

| member | source | states |
|---|---|---|
| StatsDBUtils.SpanGroups | Java/statsdb-api/src/main/java/uk/ac/tgac/statsdb/util/StatsDBUtils.java:21 | a match of `([0-9]+)-([0-9]+)` gives two non-empty digit groups that rebuild the input around the hyphen |
| StatsDBUtils.ParseRange | Java/statsdb-api/src/main/java/uk/ac/tgac/statsdb/util/StatsDBUtils.java:37-57 | null gives the null-range error, and any other failure is the invalid-range error naming the text (the static copy in the `bbsrc` AbstractQCAnalysis.java:142-162 is identical) |
| StatsDBUtils.ParseRangeOfSpan | Java/statsdb-api/src/main/java/uk/ac/tgac/statsdb/util/StatsDBUtils.java:41-45 | `"a-b"` over digits gives exactly (a, b), with no reordering |
| StatsDBUtils.ParseRangeOfPoint | Java/statsdb-api/src/main/java/uk/ac/tgac/statsdb/util/StatsDBUtils.java:46-47 | an all-digit `"n"` gives (n, n) |
| StatsDBUtils.ParseRangeFailsExactly | Java/statsdb-api/src/main/java/uk/ac/tgac/statsdb/util/StatsDBUtils.java:21-26 | parsing fails if and only if the input is null, or matches neither the span form nor the point form |
| StatsDBUtils.ParseRangeRejectsMalformed | Java/statsdb-api/src/main/java/uk/ac/tgac/statsdb/util/StatsDBUtils.java:49-51 | `""`, `"1-"`, `"-1"`, `"abc"` and `"1-2-3"` are rejected |
| StatsDBUtils.RangeToSize | Java/statsdb-api/src/main/java/uk/ac/tgac/statsdb/util/StatsDBUtils.java:66-77 | fails exactly when `parseRange` fails, with the same error (the `bbsrc` copy at AbstractQCAnalysis.java:171-182 is identical) |
| StatsDBUtils.RangeToSizeNormalises | Java/statsdb-api/src/main/java/uk/ac/tgac/statsdb/util/StatsDBUtils.java:68-76 | the offset reads back as min(a, b) and the size as \|b − a\| + 1 |
| StatsDBUtils.RangeToSizeBounds | Java/statsdb-api/src/main/java/uk/ac/tgac/statsdb/util/StatsDBUtils.java:70-76 | the offset is at most both endpoints and the size is at least 1 |
| StatsDBUtils.RangeToSizeSymmetric | Java/statsdb-api/src/main/java/uk/ac/tgac/statsdb/util/StatsDBUtils.java:66-77 | `"a-b"` and `"b-a"` give the same offset and size |
| StatsDBUtils.RangeToSizeOfPoint | Java/statsdb-api/src/main/java/uk/ac/tgac/statsdb/util/StatsDBUtils.java:66-77 | `"n"` gives (n, 1) |
| StatsDBUtils.Capitalise | Java/statsdb-api/src/main/java/uk/ac/tgac/statsdb/util/StatsDBUtils.java:85-87 | succeeds exactly on a non-empty string; the length and tail are kept and only the first character is upper-cased; `""` throws the string-index error |
| StatsDBUtils.CapitaliseIdempotent | Java/statsdb-api/src/main/java/uk/ac/tgac/statsdb/util/StatsDBUtils.java:85-87 | capitalising twice is the same as capitalising once |
| JavaStrings.ParseLongOfNatToString | Java/statsdb-api/src/main/java/uk/ac/bbsrc/tgac/statsdb/analysis/AbstractQCAnalysis.java:69 | `Long.parseLong` reads back exactly the number that `String.valueOf` wrote in `rangeToSize` |
| JavaStrings.DecimalValueOfNatToString | Java/statsdb-api/src/main/java/uk/ac/bbsrc/tgac/statsdb/analysis/AbstractQCAnalysis.java:181 | the decimal text of n has value n |
| JavaStrings.ParseLong | Java/statsdb-api/src/main/java/uk/ac/bbsrc/tgac/statsdb/analysis/AbstractQCAnalysis.java:76 | succeeds exactly on a non-empty digit string |
| JavaStrings.SplitRunsOfJoin | Java/statsdb-api/src/main/java/uk/ac/tgac/statsdb/run/parser/FastQCReportParser.java:116 | splitting on a separator class gives back words that were joined by one separator |
| JavaStrings.SplitOnPair | Java/statsdb-api/src/main/java/uk/ac/tgac/statsdb/run/parser/FastQCReportParser.java:160 | `x\ty` splits on a tab into exactly [x, y] |
| JavaStrings.ReadLinesOfSuffixed | Java/statsdb-api/src/main/java/uk/ac/tgac/statsdb/run/parser/FastQCReportParser.java:102-108 | reading lines back from text built as line + "\n" gives the same lines |
| JavaStrings.ReadLinesAfterLine | Java/statsdb-api/src/main/java/uk/ac/tgac/statsdb/run/parser/FastQCReportParser.java:102 | `readLine` takes the first line off a text and leaves the rest |
| AnalysisValues.NewPartitionValue | Java/statsdb-api/src/main/java/uk/ac/tgac/statsdb/analysis/PartitionValue.java:18-25 | succeeds exactly when key and value are non-null and non-empty, with the key checked first; position and size are stored unchanged, with no range check (also run PartitionValue.java:20-27) |
| AnalysisValues.NewPositionValue | Java/statsdb-api/src/main/java/uk/ac/bbsrc/tgac/statsdb/analysis/PositionValue.java:17-23 | succeeds exactly when key and value are present, with the key checked first; the position is stored unchanged (also run PositionValue.java:19-25) |
| QCAnalysisModel.AnalysisState.GetProperty | Java/statsdb-api/src/main/java/uk/ac/bbsrc/tgac/statsdb/analysis/AbstractQCAnalysis.java:51-59 | returns the stored value, or the no-such-property error carrying the id |
| QCAnalysisModel.AnalysisState.AddPartitionValue | Java/statsdb-api/src/main/java/uk/ac/bbsrc/tgac/statsdb/analysis/AbstractQCAnalysis.java:66-71 | succeeds exactly for a valid range with present key and value; on success, one value is appended with position min(a, b) and size \|a − b\| + 1, and nothing else changes; otherwise the range error comes first, then the key error, then the value error (the `tgac` copy at AbstractQCAnalysis.java:55-60 delegates to StatsDBUtils) |
| QCAnalysisModel.AnalysisState.AddPositionValue | Java/statsdb-api/src/main/java/uk/ac/bbsrc/tgac/statsdb/analysis/AbstractQCAnalysis.java:73-82 | null or any character outside digits and `+` is the invalid-position error; a text of `+` only is the number-format error of `Long.parseLong("")`; then the key error, then the value error; success appends one value at the number the digits spell, and nothing else changes |
| QCAnalysisModel.AnalysisState.AddGeneralValue | Java/statsdb-api/src/main/java/uk/ac/bbsrc/tgac/statsdb/analysis/AbstractQCAnalysis.java:84-90 | overwrites the general value; the description is recorded only when it is non-null and non-empty; nothing else changes |
| QCAnalysisModel.RemovePlusLeavesDigits | Java/statsdb-api/src/main/java/uk/ac/bbsrc/tgac/statsdb/analysis/AbstractQCAnalysis.java:75-76 | removing `+` from a `[\d+]+` string leaves only digits |
| QCAnalysisModel.AddPositionValueStripsPlus | Java/statsdb-api/src/main/java/uk/ac/tgac/statsdb/analysis/AbstractQCAnalysis.java:62-71 | digits followed by any number of `+` (e.g. `12+`) append one value at the number itself |
| QCAnalysisModel.AddPositionValueRefuses | Java/statsdb-api/src/main/java/uk/ac/tgac/statsdb/analysis/AbstractQCAnalysis.java:63-70 | an all-`+` string passes the pattern but fails number parsing; `1-5`, `""` and null are invalid positions |
| QCAnalysisModel.GetPropertyReturnsLastWrite | Java/statsdb-api/src/main/java/uk/ac/bbsrc/tgac/statsdb/analysis/AbstractQCAnalysis.java:52-64 | after a series of `addProperty` calls, `getProperty(k)` returns the last value written for k, or what it returned before if k was not written |
| QCAnalysisModel.AddPropertiesSnoc | Java/statsdb-api/src/main/java/uk/ac/tgac/statsdb/analysis/AbstractQCAnalysis.java:50-53 | adding properties one more at a time is one more `addProperty` |
| QCAnalysisModel.FreshAnalysisIsEmpty | Java/statsdb-api/src/main/java/uk/ac/bbsrc/tgac/statsdb/analysis/DefaultQCAnalysis.java:14-21 | on a fresh analysis, `getProperty` throws for every key and both value lists are empty |
| QCAnalysisModel.DefaultQCAnalysis.constructor | Java/statsdb-api/src/main/java/uk/ac/bbsrc/tgac/statsdb/analysis/DefaultQCAnalysis.java:14-21 | id 0, all four maps empty, both lists empty |
| QCAnalysisModel.DefaultQCAnalysis.SetId | Java/statsdb-api/src/main/java/uk/ac/bbsrc/tgac/statsdb/analysis/AbstractQCAnalysis.java:41-44 | only the id changes |
| QCAnalysisModel.DefaultQCAnalysis.GetId | Java/statsdb-api/src/main/java/uk/ac/bbsrc/tgac/statsdb/analysis/AbstractQCAnalysis.java:46-49 | returns the id |
| QCAnalysisModel.DefaultQCAnalysis.GetProperty | Java/statsdb-api/src/main/java/uk/ac/tgac/statsdb/analysis/AbstractQCAnalysis.java:40-48 | returns the stored value, or throws when the key is absent |
| QCAnalysisModel.DefaultQCAnalysis.AddProperty | Java/statsdb-api/src/main/java/uk/ac/tgac/statsdb/analysis/AbstractQCAnalysis.java:50-53 | only the property entry for the key changes |
| QCAnalysisModel.DefaultQCAnalysis.AddPartitionValue | Java/statsdb-api/src/main/java/uk/ac/tgac/statsdb/analysis/AbstractQCAnalysis.java:55-60 | appends as `AnalysisState.AddPartitionValue` says, or returns its error and leaves the state unchanged |
| QCAnalysisModel.DefaultQCAnalysis.AddPositionValue | Java/statsdb-api/src/main/java/uk/ac/tgac/statsdb/analysis/AbstractQCAnalysis.java:62-71 | appends as `AnalysisState.AddPositionValue` says, or returns its error and leaves the state unchanged |
| QCAnalysisModel.DefaultQCAnalysis.AddGeneralValue | Java/statsdb-api/src/main/java/uk/ac/tgac/statsdb/analysis/AbstractQCAnalysis.java:73-79 | the new state is `AnalysisState.AddGeneralValue` of the old |
| QCAnalysisModel.DefaultQCAnalysis.AddValueType | Java/statsdb-api/src/main/java/uk/ac/tgac/statsdb/analysis/AbstractQCAnalysis.java:81-84 | only the value-type entry for the key changes, and the last write wins |
| QCAnalysisModel.DefaultQCAnalysis.AddValueDescription | Java/statsdb-api/src/main/java/uk/ac/tgac/statsdb/analysis/AbstractQCAnalysis.java:86-89 | only the description entry for the key changes |
| QCAnalysisModel.DefaultQCAnalysis.GetPartitionValues | Java/statsdb-api/src/main/java/uk/ac/tgac/statsdb/analysis/AbstractQCAnalysis.java:101-104 | returns the partition values in insertion order |
| QCAnalysisModel.DefaultQCAnalysis.GetPositionValues | Java/statsdb-api/src/main/java/uk/ac/tgac/statsdb/analysis/AbstractQCAnalysis.java:106-109 | returns the position values in insertion order |
| FastQCFormat.AddValue | Java/statsdb-api/src/main/java/uk/ac/tgac/statsdb/run/parser/FastQCReportParser.java:366-368 | the add call of one column: succeeds exactly when field 0 is accepted (a range `parseRange` resolves, or a position text with digits), the key is present and the field is non-empty; the range or position error comes first, then the key error, then the value error; on success exactly one value is appended, at the range's smaller bound with size \|b − a\| + 1, or at the position's number |
| FastQCFormat.ModuleNameGroup | Java/statsdb-api/src/main/java/uk/ac/tgac/statsdb/run/parser/FastQCReportParser.java:36 | a match of `>>(.*)[\s]+([\S]*)` gives the text between `>>` and the last whitespace, with no whitespace after it |
| FastQCFormat.LastInClass | Java/statsdb-api/src/main/java/uk/ac/tgac/statsdb/run/parser/FastQCReportParser.java:36 | finds the last whitespace, the point where the greedy group stops |
| FastQCFormat.ModuleNameGroupOfLine | Java/statsdb-api/src/main/java/uk/ac/tgac/statsdb/run/parser/FastQCReportParser.java:114-116 | `>>` + name + whitespace + status gives exactly the name |
| FastQCFormat.ModuleNameGroupRejects | Java/statsdb-api/src/main/java/uk/ac/tgac/statsdb/run/parser/FastQCReportParser.java:115 | a line without `>>`, or without whitespace after it, is not a module line |
| FastQCFormat.LastInClassOfSuffix | Java/statsdb-api/src/main/java/uk/ac/tgac/statsdb/run/parser/FastQCReportParser.java:36 | a status without whitespace does not move the last whitespace |
| FastQCFormat.CapitaliseAll | Java/statsdb-api/src/main/java/uk/ac/tgac/statsdb/run/parser/FastQCReportParser.java:117-120 | the concatenation throws exactly when some word is empty |
| FastQCFormat.CapitaliseAllCons | Java/statsdb-api/src/main/java/uk/ac/tgac/statsdb/run/parser/FastQCReportParser.java:118-120 | the name is the capitalised first word followed by the name of the rest |
| FastQCFormat.CanonicalNameOfWords | Java/statsdb-api/src/main/java/uk/ac/tgac/statsdb/run/parser/FastQCReportParser.java:116-120 | a name whose words are separated by single spaces always canonicalises, word by word |
| FastQCFormat.CanonicalNameExample | Java/statsdb-api/src/main/java/uk/ac/tgac/statsdb/run/parser/FastQCReportParser.java:116-120 | `Per base GC content` gives `PerBaseGCContent` |
| FastQCFormat.CapitaliseExamples | Java/statsdb-api/src/main/java/uk/ac/tgac/statsdb/util/StatsDBUtils.java:85-87 | `content` → `Content`, `GC` → `GC`, `base` → `Base`, `Per` → `Per` |
| FastQCFormat.CapitaliseAllExample | Java/statsdb-api/src/main/java/uk/ac/tgac/statsdb/run/parser/FastQCReportParser.java:118-120 | [Per, base, GC, content] gives `PerBaseGCContent` |
| FastQCFormat.CanonicalNameQualityExample | Java/statsdb-api/src/main/java/uk/ac/tgac/statsdb/run/parser/FastQCReportParser.java:116-120 | `Per base sequence quality` gives `PerBaseSequenceQuality` |
| FastQCFormat.CapitaliseAllQualityExample | Java/statsdb-api/src/main/java/uk/ac/tgac/statsdb/run/parser/FastQCReportParser.java:118-120 | [Per, base, sequence, quality] gives `PerBaseSequenceQuality` |
| FastQCFormat.CapitaliseQualityExamples | Java/statsdb-api/src/main/java/uk/ac/tgac/statsdb/util/StatsDBUtils.java:85-87 | `quality` → `Quality`, `sequence` → `Sequence` |
| FastQCFormat.CapitaliseAllOfFour | Java/statsdb-api/src/main/java/uk/ac/tgac/statsdb/run/parser/FastQCReportParser.java:118-120 | four non-empty words give their capitalised forms run together, in order |
| FastQCFormat.JoinOfFour | Java/statsdb-api/src/main/java/uk/ac/tgac/statsdb/run/parser/FastQCReportParser.java:116 | four words joined by single spaces read back as those words in order (the module titles the examples split) |
| FastQCFormat.CanonicalModuleName | Java/statsdb-api/src/main/java/uk/ac/tgac/statsdb/run/parser/FastQCReportParser.java:116-120 | the loop builds exactly the canonical name, or throws on an empty word |
| FastQCFormat.HeaderSlots | Java/statsdb-api/src/main/java/uk/ac/tgac/statsdb/run/parser/FastQCReportParser.java:323-336 | one slot per token; all slots are null for a two-token keyed row, and otherwise slot i holds the column name of token i |
| FastQCFormat.ColumnName | Java/statsdb-api/src/main/java/uk/ac/tgac/statsdb/run/parser/FastQCReportParser.java:329-334 | every column name starts with `<prefix>_`; what follows is stated by the five lemmas below |
| FastQCFormat.ColumnNameRenamesKeys | Java/statsdb-api/src/main/java/uk/ac/tgac/statsdb/run/parser/FastQCReportParser.java:72-73 | `%gc` becomes `<prefix>_percentage` and `n-count` becomes `<prefix>_n_percentage`; under the `run` table (run FastQCReportParser.java:71-72) the same holds for `%GC` |
| FastQCFormat.ColumnNameOfWords | Java/statsdb-api/src/main/java/uk/ac/tgac/statsdb/run/parser/FastQCReportParser.java:329-334 | words separated by a whitespace character become `<prefix>_` followed by the words joined by `_`; a single word that is not a key is kept as it is |
| FastQCFormat.ColumnNameOfPlainToken | Java/statsdb-api/src/main/java/uk/ac/tgac/statsdb/run/parser/FastQCReportParser.java:329-334 | a token with no whitespace that is not a key names the column `<prefix>_<token>` |
| FastQCFormat.ColumnNameOfTwoWords | Java/statsdb-api/src/main/java/uk/ac/tgac/statsdb/run/parser/FastQCReportParser.java:330 | `mean quality` names the column `<prefix>_mean_quality` |
| FastQCFormat.ColumnNameHasNoWhitespace | Java/statsdb-api/src/main/java/uk/ac/tgac/statsdb/run/parser/FastQCReportParser.java:329-334 | a column name holds no whitespace when its prefix holds none, under either key table |
| FastQCFormat.HeaderRow | Java/statsdb-api/src/main/java/uk/ac/tgac/statsdb/run/parser/FastQCReportParser.java:324-325 | a two-token row whose first token is a header key sets exactly that general value; any other row leaves the analysis unchanged |
| FastQCFormat.HeaderArray | Java/statsdb-api/src/main/java/uk/ac/tgac/statsdb/run/parser/FastQCReportParser.java:323-336 | the loop fills a fresh array with exactly the header slots |
| FastQCFormat.PartitionColumns | Java/statsdb-api/src/main/java/uk/ac/tgac/statsdb/run/parser/FastQCReportParser.java:363-379 | the partition values of an accepted row's columns i.. : one per column, value j at field 0's range (smaller bound, size \|b − a\| + 1), keyed by header[i + j] and holding field i + j |
| FastQCFormat.PositionColumns | Java/statsdb-api/src/main/java/uk/ac/tgac/statsdb/run/parser/FastQCReportParser.java:363-379 | the position values of an accepted row's columns i.. : one per column, value j at the number field 0's digits spell, keyed by header[i + j] and holding field i + j |
| FastQCFormat.RowValues | Java/statsdb-api/src/main/java/uk/ac/tgac/statsdb/run/parser/FastQCReportParser.java:363-379 | the row goes through exactly when every column from 1 on has a header slot, field 0 is accepted, and every header and field is present; it then appends one value per column in column order: at field 0's range (smaller bound, size \|b − a\| + 1) or position, keyed by header[i] and holding field i, and nothing else changes; a column past the headers throws the array-index error before anything is added for it |
| FastQCFormat.AddRowValues | Java/statsdb-api/src/main/java/uk/ac/tgac/statsdb/run/parser/FastQCReportParser.java:363-379 | the column loop leaves exactly the state and failure of `RowValues`, so it appends the row's values in column order, at field 0's position and size, exactly when every column is accepted |
| FastQCFormat.Registered | Java/statsdb-api/src/main/java/uk/ac/tgac/statsdb/run/parser/FastQCReportParser.java:85-87 | every table entry becomes a value type with its scope, and nothing else changes |
| FastQCFormat.RegisteredStep | Java/statsdb-api/src/main/java/uk/ac/tgac/statsdb/run/parser/FastQCReportParser.java:86 | registering one more entry is one more `addValueType` |
| FastQCFormat.RegisterValueTypes | Java/statsdb-api/src/main/java/uk/ac/tgac/statsdb/run/parser/FastQCReportParser.java:85-87 | the loop leaves exactly the registered state |
| StatsdbFastQCParser.BasicStatisticsLine | Java/statsdb-api/src/main/java/uk/ac/tgac/statsdb/run/parser/FastQCReportParser.java:159-174 | a line only adds to the analysis, and fails only with a range error |
| StatsdbFastQCParser.BasicStatistics | Java/statsdb-api/src/main/java/uk/ac/tgac/statsdb/run/parser/FastQCReportParser.java:157-178 | the module only adds to the analysis |
| StatsdbFastQCParser.BasicStatisticsStep | Java/statsdb-api/src/main/java/uk/ac/tgac/statsdb/run/parser/FastQCReportParser.java:158-176 | each line either fails the module or passes its result on to the next line |
| StatsdbFastQCParser.BasicStatisticsSequenceLength | Java/statsdb-api/src/main/java/uk/ac/tgac/statsdb/run/parser/FastQCReportParser.java:163-166 | `Sequence length\ta-b` sets `general_min_length` = a and `general_max_length` = b, as written |
| StatsdbFastQCParser.SequenceLengthFields | Java/statsdb-api/src/main/java/uk/ac/tgac/statsdb/run/parser/FastQCReportParser.java:159-161 | that line is a body line with exactly two tab fields |
| StatsdbFastQCParser.BasicStatisticsKeyValue | Java/statsdb-api/src/main/java/uk/ac/tgac/statsdb/run/parser/FastQCReportParser.java:168-173 | the three value keys map to their `general_*` keys, and any other key becomes a property |
| StatsdbFastQCParser.BasicStatisticsIgnoresUntabbedLine | Java/statsdb-api/src/main/java/uk/ac/tgac/statsdb/run/parser/FastQCReportParser.java:161 | a line without a tab changes nothing |
| StatsdbFastQCParser.HeaderPass | Java/statsdb-api/src/main/java/uk/ac/tgac/statsdb/run/parser/FastQCReportParser.java:319-338 | the header pass only adds to the analysis, and without `#` rows it changes nothing |
| StatsdbFastQCParser.LastHeaderRow | Java/statsdb-api/src/main/java/uk/ac/tgac/statsdb/run/parser/FastQCReportParser.java:319-323 | there is no row exactly when no line is a `#` row; otherwise the row is a `#` line of the module after which no line is a `#` row |
| StatsdbFastQCParser.HeaderPassStep | Java/statsdb-api/src/main/java/uk/ac/tgac/statsdb/run/parser/FastQCReportParser.java:320-336 | a `#` row replaces the headers and may add its general value; other rows are skipped |
| StatsdbFastQCParser.HeaderPassUsesLastHeaderRow | Java/statsdb-api/src/main/java/uk/ac/tgac/statsdb/run/parser/FastQCReportParser.java:319-338 | the headers after the first pass are those of the last `#` row |
| StatsdbFastQCParser.DataPass | Java/statsdb-api/src/main/java/uk/ac/tgac/statsdb/run/parser/FastQCReportParser.java:344-382 | the data pass goes through exactly when every body row (neither `#` nor `>>`, split on tab runs) goes through; it then appends the rows' values in row order and column order, each at its row's field-0 position and size, and changes nothing else |
| StatsdbFastQCParser.DataPassStep | Java/statsdb-api/src/main/java/uk/ac/tgac/statsdb/run/parser/FastQCReportParser.java:345-379 | `#` and `>>` rows are skipped; a data row adds its values or fails the module |
| StatsdbFastQCParser.ModuleBlock | Java/statsdb-api/src/main/java/uk/ac/tgac/statsdb/run/parser/FastQCReportParser.java:316-383 | without a `#` row the module fails with the header error after the header pass; otherwise it goes through exactly when every body row does under the column names of the last `#` row, and the analysis is then the header pass's general values plus the rows' values in row order |
| StatsdbFastQCParser.ModuleBlockWithoutHeaderFails | Java/statsdb-api/src/main/java/uk/ac/tgac/statsdb/run/parser/FastQCReportParser.java:340-342 | a module with no `#` row throws the header error and changes nothing |
| StatsdbFastQCParser.ModuleBlockUsesLastHeaderRow | Java/statsdb-api/src/main/java/uk/ac/tgac/statsdb/run/parser/FastQCReportParser.java:316-383 | the data rows are read against the last `#` row, and without one the module fails |
| StatsdbFastQCParser.ModuleBlockExample | Java/statsdb-api/src/main/java/uk/ac/tgac/statsdb/run/parser/FastQCReportParser.java:316-383 | `#Base<TAB>Mean<TAB>Median` then `1-5<TAB>30.2<TAB>31.0` under any prefix (`quality` for this module) adds `<prefix>_mean` = 30.2 and `<prefix>_median` = 31.0, each at offset 1 with size 5, and nothing else |
| StatsdbFastQCParser.OverrepresentedLine | Java/statsdb-api/src/main/java/uk/ac/tgac/statsdb/run/parser/FastQCReportParser.java:252-261 | a row only adds types and values, and fails only as a malformed sequence line |
| StatsdbFastQCParser.OverrepresentedSequences | Java/statsdb-api/src/main/java/uk/ac/tgac/statsdb/run/parser/FastQCReportParser.java:250-265 | the module only adds to the parser's table and to the analysis |
| StatsdbFastQCParser.OverrepresentedRow | Java/statsdb-api/src/main/java/uk/ac/tgac/statsdb/run/parser/FastQCReportParser.java:253-257 | a row of ≥ 4 fields registers field 0 as `overrepresented_sequence` in both tables, with general value field 1 and description field 3 |
| StatsdbFastQCParser.OverrepresentedShortRow | Java/statsdb-api/src/main/java/uk/ac/tgac/statsdb/run/parser/FastQCReportParser.java:259-261 | a row of fewer than 4 fields throws |
| StatsdbFastQCParser.TabRow | Java/statsdb-api/src/main/java/uk/ac/tgac/statsdb/run/parser/FastQCReportParser.java:252-253 | tab-joined fields form a body line that splits back into the fields |
| StatsdbFastQCParser.KmerLine | Java/statsdb-api/src/main/java/uk/ac/tgac/statsdb/run/parser/FastQCReportParser.java:275-284 | a row only adds types and values, and fails only as a malformed k-mer line |
| StatsdbFastQCParser.KmerContent | Java/statsdb-api/src/main/java/uk/ac/tgac/statsdb/run/parser/FastQCReportParser.java:273-288 | the module only adds to the parser's table and to the analysis |
| StatsdbFastQCParser.KmerRow | Java/statsdb-api/src/main/java/uk/ac/tgac/statsdb/run/parser/FastQCReportParser.java:276-280 | a row of ≥ 2 fields registers field 0 as `overrepresented_kmer`, with general value field 1 and no description |
| StatsdbFastQCParser.KmerShortRow | Java/statsdb-api/src/main/java/uk/ac/tgac/statsdb/run/parser/FastQCReportParser.java:282-284 | a one-field row throws |
| StatsdbFastQCParser.RunHandler | Java/statsdb-api/src/main/java/uk/ac/tgac/statsdb/run/parser/FastQCReportParser.java:186-248 | every handler only adds to the parser's table and to the analysis |
| StatsdbFastQCParser.CollectReport | Java/statsdb-api/src/main/java/uk/ac/tgac/statsdb/run/parser/FastQCReportParser.java:102-110 | reading the lines only adds to the analysis, and fails only on a short `##` line |
| StatsdbFastQCParser.CollectReportStep | Java/statsdb-api/src/main/java/uk/ac/tgac/statsdb/run/parser/FastQCReportParser.java:103-108 | a `##` line sets `FastQC` to its second token or throws; any other line is appended with `\n` |
| StatsdbFastQCParser.CollectReportSeparates | Java/statsdb-api/src/main/java/uk/ac/tgac/statsdb/run/parser/FastQCReportParser.java:102-110 | with well-formed version lines, the result is the version properties plus the text of every other line; otherwise it throws |
| StatsdbFastQCParser.VersionPropertyIsLast | Java/statsdb-api/src/main/java/uk/ac/tgac/statsdb/run/parser/FastQCReportParser.java:103-104 | `FastQC` holds the token of the last `##` line |
| StatsdbFastQCParser.ModuleLines | Java/statsdb-api/src/main/java/uk/ac/tgac/statsdb/run/parser/FastQCReportParser.java:113-127 | a module only adds, and it throws only when some module line has an empty name word |
| StatsdbFastQCParser.ModuleLinesSkipsOtherLines | Java/statsdb-api/src/main/java/uk/ac/tgac/statsdb/run/parser/FastQCReportParser.java:113-115 | a line that does not match the module-name pattern is passed over |
| StatsdbFastQCParser.ModuleLineWithEmptyWordThrows | Java/statsdb-api/src/main/java/uk/ac/tgac/statsdb/run/parser/FastQCReportParser.java:116-120 | a module line with an empty name word throws the string-index error before any lookup and changes nothing |
| StatsdbFastQCParser.ModuleLineDispatches | Java/statsdb-api/src/main/java/uk/ac/tgac/statsdb/run/parser/FastQCReportParser.java:113-127 | a module line named n with no `parse`n handler abandons the processing with `NoSuchParser("parse" + n)`; otherwise the handler runs on the whole module text, a handler failure abandons with the handler's partial table and analysis, and success goes on with the module's next line |
| StatsdbFastQCParser.QualityModuleLineDispatches | Java/statsdb-api/src/main/java/uk/ac/tgac/statsdb/run/parser/FastQCReportParser.java:113-127 | the line `>>Per base sequence quality` + whitespace + status runs the partition handler with prefix `quality` (parsePerBaseSequenceQuality) on the module text, then the module's remaining lines |
| StatsdbFastQCParser.BadNameInTail | Java/statsdb-api/src/main/java/uk/ac/tgac/statsdb/run/parser/FastQCReportParser.java:113-119 | a bad name among the later lines is a bad name of the module |
| StatsdbFastQCParser.Modules | Java/statsdb-api/src/main/java/uk/ac/tgac/statsdb/run/parser/FastQCReportParser.java:112-128 | modules only add, and a throw comes from a bad module name |
| StatsdbFastQCParser.BadChunkInTail | Java/statsdb-api/src/main/java/uk/ac/tgac/statsdb/run/parser/FastQCReportParser.java:112 | a bad name in a later module is a bad name of the report |
| StatsdbFastQCParser.ModulesInOrder | Java/statsdb-api/src/main/java/uk/ac/tgac/statsdb/run/parser/FastQCReportParser.java:112-144 | modules run in report order; the first module that does not complete ends processing, keeping earlier values and skipping later modules |
| StatsdbFastQCParser.ProcessedReport | Java/statsdb-api/src/main/java/uk/ac/tgac/statsdb/run/parser/FastQCReportParser.java:96-155 | processing only adds, and the only exceptions that escape are the short-`##` and empty-word ones |
| StatsdbFastQCParser.ParsedReport | Java/statsdb-api/src/main/java/uk/ac/tgac/statsdb/run/parser/FastQCReportParser.java:79-94 | the report is processed on the analysis with `tool` set to `FastQC` and every table entry added as a value type, both before any line is read; the table's keys stay value types, and only the two unchecked errors escape |
| StatsdbFastQCParser.FastQCReportParser.constructor | Java/statsdb-api/src/main/java/uk/ac/tgac/statsdb/run/parser/FastQCReportParser.java:42-77 | the table holds exactly the 22 built-in value types |
| StatsdbFastQCParser.FastQCReportParser.ParseReport | Java/statsdb-api/src/main/java/uk/ac/tgac/statsdb/run/parser/FastQCReportParser.java:79-94 | the parser's table, the analysis and the outcome are those of `ParsedReport`, so `tool` is `FastQC` before any module is read |
| StatsdbFastQCParser.FastQCReportParser.ProcessFastQCReportFile | Java/statsdb-api/src/main/java/uk/ac/tgac/statsdb/run/parser/FastQCReportParser.java:96-155 | the line loop and the module loops leave exactly what `ProcessedReport` specifies |
| StatsdbFastQCParser.FastQCReportParser.ProcessModules | Java/statsdb-api/src/main/java/uk/ac/tgac/statsdb/run/parser/FastQCReportParser.java:112-128 | the loop over modules leaves exactly what `Modules` specifies |
| StatsdbFastQCParser.FastQCReportParser.ProcessModule | Java/statsdb-api/src/main/java/uk/ac/tgac/statsdb/run/parser/FastQCReportParser.java:113-127 | the loop over one module's lines leaves exactly what `ModuleLines` specifies |
| StatsdbFastQCParser.FastQCReportParser.Invoke | Java/statsdb-api/src/main/java/uk/ac/tgac/statsdb/run/parser/FastQCReportParser.java:122-125 | calling a handler leaves exactly what `RunHandler` specifies |
| StatsdbFastQCParser.FastQCReportParser.ParseBasicStatistics | Java/statsdb-api/src/main/java/uk/ac/tgac/statsdb/run/parser/FastQCReportParser.java:157-178 | the loop leaves exactly what `BasicStatistics` specifies |
| StatsdbFastQCParser.FastQCReportParser.ParseModuleBlock | Java/statsdb-api/src/main/java/uk/ac/tgac/statsdb/run/parser/FastQCReportParser.java:316-383 | the two passes leave exactly what `ModuleBlock` specifies: the header error without a `#` row, else the body rows' values in row order exactly when every row is accepted |
| StatsdbFastQCParser.FastQCReportParser.HeaderRows | Java/statsdb-api/src/main/java/uk/ac/tgac/statsdb/run/parser/FastQCReportParser.java:319-338 | the header loop leaves the analysis and headers of `HeaderPass` |
| StatsdbFastQCParser.FastQCReportParser.DataRows | Java/statsdb-api/src/main/java/uk/ac/tgac/statsdb/run/parser/FastQCReportParser.java:344-382 | the data loop leaves exactly what `DataPass` specifies: the body rows' values appended in row order exactly when every row is accepted |
| StatsdbFastQCParser.FastQCReportParser.ParseOverrepresentedSequences | Java/statsdb-api/src/main/java/uk/ac/tgac/statsdb/run/parser/FastQCReportParser.java:250-265 | the loop updates the parser's table and the analysis as `OverrepresentedSequences` specifies |
| StatsdbFastQCParser.FastQCReportParser.ParseKmerContent | Java/statsdb-api/src/main/java/uk/ac/tgac/statsdb/run/parser/FastQCReportParser.java:273-288 | the loop updates the parser's table and the analysis as `KmerContent` specifies |
| RunFastQCParser.Scan | Java/run/src/main/java/uk/ac/bbsrc/tgac/qc/run/parser/FastQCReportParser.java:95-139 | the scan throws only on an empty name word, and otherwise stops only because no public parser method exists |
| RunFastQCParser.ScanStopsAtFirstModuleLine | Java/run/src/main/java/uk/ac/bbsrc/tgac/qc/run/parser/FastQCReportParser.java:100-111 | the first module line ends the scan: it throws on an empty word, and otherwise `getMethod` finds no public handler |
| RunFastQCParser.ScanCompletesWithoutModules | Java/run/src/main/java/uk/ac/bbsrc/tgac/qc/run/parser/FastQCReportParser.java:100-112 | the scan completes exactly when no line is a module line |
| RunFastQCParser.ParsedReport | Java/run/src/main/java/uk/ac/bbsrc/tgac/qc/run/parser/FastQCReportParser.java:78-93 | `tool` = `FastQC`; every table entry becomes a value type with the table's scope, other value types keep theirs; id, descriptions and values are unchanged; the outcome is the scan of the report's lines |
| RunFastQCParser.ModuleBlockText | Java/run/src/main/java/uk/ac/bbsrc/tgac/qc/run/parser/FastQCReportParser.java:283-316 | throws exactly when the first line is not a module start, and otherwise the block starts with `>>` |
| RunFastQCParser.ModuleRows | Java/run/src/main/java/uk/ac/bbsrc/tgac/qc/run/parser/FastQCReportParser.java:221-280 | once a header row is set, data lines (split on whitespace runs) go through exactly when every one of them does, and they then append their values in line order, at each line's field-0 position and size; nothing is removed |
| RunFastQCParser.ModuleBlock | Java/run/src/main/java/uk/ac/bbsrc/tgac/qc/run/parser/FastQCReportParser.java:219-281 | a block whose first line is its only `#` row goes through exactly when every data line does under that row's column names (case kept); the analysis is then the row's general value, if it is a key row, plus the data lines' values in line order |
| RunFastQCParser.ModuleHandler | Java/run/src/main/java/uk/ac/bbsrc/tgac/qc/run/parser/FastQCReportParser.java:211-217 | `parsePartition` and `parsePosition` only add to the analysis |
| RunFastQCParser.ModuleBlockNeedsLeadingHeader | Java/run/src/main/java/uk/ac/bbsrc/tgac/qc/run/parser/FastQCReportParser.java:241-244 | a first line that is not a `#` row throws the header error and changes nothing |
| RunFastQCParser.ModuleBlockExample | Java/run/src/main/java/uk/ac/bbsrc/tgac/qc/run/parser/FastQCReportParser.java:219-281 | `#Base<TAB>Mean<TAB>Median` then `1-5<TAB>30.2<TAB>31.0` under any prefix adds `<prefix>_Mean` = 30.2 and `<prefix>_Median` = 31.0, each at offset 1 with size 5, and nothing else |
| RunFastQCParser.ReadLinesHaveNoBreaks | Java/run/src/main/java/uk/ac/bbsrc/tgac/qc/run/parser/FastQCReportParser.java:289 | lines read have no `\n` |
| RunFastQCParser.BlockRestHasNoBreaks | Java/run/src/main/java/uk/ac/bbsrc/tgac/qc/run/parser/FastQCReportParser.java:300-308 | lines appended without a separator leave no `\n` in the block |
| RunFastQCParser.ModuleHandlerAlwaysFails | Java/run/src/main/java/uk/ac/bbsrc/tgac/qc/run/parser/FastQCReportParser.java:211-217 | on any report, the block is one `>>` line, so the handler throws (bad start or header error) and adds nothing |
| RunFastQCParser.ReportModuleHandlerAlwaysFails | Java/run/src/main/java/uk/ac/bbsrc/tgac/qc/run/parser/FastQCReportParser.java:211-217 | for the lines of any report text, the handler fails and the analysis is unchanged |
| RunFastQCParser.FastQCReportParser.constructor | Java/run/src/main/java/uk/ac/bbsrc/tgac/qc/run/parser/FastQCReportParser.java:41-76 | the table holds exactly the 22 built-in value types |
| RunFastQCParser.FastQCReportParser.ParseReport | Java/run/src/main/java/uk/ac/bbsrc/tgac/qc/run/parser/FastQCReportParser.java:78-93 | the analysis and the outcome are those of `ParsedReport`: `tool` = `FastQC`, the table's value types registered, and the outcome of `Scan` |
| RunFastQCParser.FastQCReportParser.ProcessFastQCReportFile | Java/run/src/main/java/uk/ac/bbsrc/tgac/qc/run/parser/FastQCReportParser.java:95-139 | the line loop ends as `Scan` specifies |
| RunFastQCParser.FastQCReportParser.GetModuleBlock | Java/run/src/main/java/uk/ac/bbsrc/tgac/qc/run/parser/FastQCReportParser.java:283-316 | the loop builds exactly `ModuleBlockText` |
| RunFastQCParser.FastQCReportParser.ParseModuleBlock | Java/run/src/main/java/uk/ac/bbsrc/tgac/qc/run/parser/FastQCReportParser.java:219-281 | the single-pass loop leaves exactly what `ModuleBlock` specifies, including the data lines' values in line order under a leading header row |
| RunFastQCParser.FastQCReportParser.ParseModule | Java/run/src/main/java/uk/ac/bbsrc/tgac/qc/run/parser/FastQCReportParser.java:211-217 | the handler leaves exactly what `ModuleHandler` specifies |
| RunFastQCParser.FastQCReportParser.ParseStub | Java/run/src/main/java/uk/ac/bbsrc/tgac/qc/run/parser/FastQCReportParser.java:187-209 | the stubs add nothing, and fail exactly when the block does not start with a module line |
| AnalysisMetadataParser.Zip | Java/statsdb-api/src/main/java/uk/ac/bbsrc/tgac/statsdb/run/parser/AnalysisMetadataParser.java:71-75 | pairs header i with field i |
| AnalysisMetadataParser.MetadataRows | Java/statsdb-api/src/main/java/uk/ac/bbsrc/tgac/statsdb/run/parser/AnalysisMetadataParser.java:67-75 | one analysis per data row, or the invalid-headers error |
| AnalysisMetadataParser.MetadataRowsFailsExactly | Java/statsdb-api/src/main/java/uk/ac/bbsrc/tgac/statsdb/run/parser/AnalysisMetadataParser.java:68-70 | fails if and only if some row's field count differs from the header count |
| AnalysisMetadataParser.MetadataRowsInOrder | Java/statsdb-api/src/main/java/uk/ac/bbsrc/tgac/statsdb/run/parser/AnalysisMetadataParser.java:67-75 | analysis i is built from data row i |
| AnalysisMetadataParser.ZipLastValue | Java/statsdb-api/src/main/java/uk/ac/bbsrc/tgac/statsdb/run/parser/AnalysisMetadataParser.java:73 | with distinct headers, the last value for header j is field j |
| AnalysisMetadataParser.RowAnalysisProperty | Java/statsdb-api/src/main/java/uk/ac/bbsrc/tgac/statsdb/run/parser/AnalysisMetadataParser.java:71-75 | with distinct headers, property header[j] of the row's analysis is field j |
| AnalysisMetadataParser.AddPropertiesOnlyAddsKeys | Java/statsdb-api/src/main/java/uk/ac/bbsrc/tgac/statsdb/run/parser/AnalysisMetadataParser.java:72-74 | adding properties adds exactly their keys and changes nothing else |
| AnalysisMetadataParser.RowAnalysisKeys | Java/run/src/main/java/uk/ac/bbsrc/tgac/qc/run/parser/AnalysisMetadataParser.java:59-63 | a row's analysis has exactly the headers as property keys, and is otherwise fresh |
| AnalysisMetadataParser.HeaderOnlyTableIsEmpty | Java/statsdb-api/src/main/java/uk/ac/bbsrc/tgac/statsdb/run/parser/AnalysisMetadataParser.java:47-66 | empty or header-only input yields an empty list |
| AnalysisMetadataParser.ParseMetadataCountsRows | Java/run/src/main/java/uk/ac/bbsrc/tgac/qc/run/parser/AnalysisMetadataParser.java:35-63 | a successful parse yields one analysis per line after the header |
| AnalysisMetadataParser.RowsRefuseMismatch | Java/run/src/main/java/uk/ac/bbsrc/tgac/qc/run/parser/AnalysisMetadataParser.java:56-58 | a row with the wrong field count throws the invalid-headers error |
| AnalysisMetadataParser.RowsStep | Java/statsdb-api/src/main/java/uk/ac/bbsrc/tgac/statsdb/run/parser/AnalysisMetadataParser.java:67-75 | a good row adds its analysis and passes on to the next line |
| AnalysisMetadataParser.NewRowAnalysis | Java/statsdb-api/src/main/java/uk/ac/bbsrc/tgac/statsdb/run/parser/AnalysisMetadataParser.java:71-75 | a fresh analysis whose state is the row's analysis |
| AnalysisMetadataParser.ParseMetadataFile | Java/statsdb-api/src/main/java/uk/ac/bbsrc/tgac/statsdb/run/parser/AnalysisMetadataParser.java:47-52 | fails exactly when the parsed text fails, and otherwise returns one newly created analysis per row with the specified states |
| AnalysisMetadataParser.ProcessMetadataFile | Java/statsdb-api/src/main/java/uk/ac/bbsrc/tgac/statsdb/run/parser/AnalysisMetadataParser.java:54-92 | the `first`/`headers` loop yields exactly the table's analyses, each a newly created object, or its error (the `run` copy at AnalysisMetadataParser.java:42-80 is identical) |
| ReportTables.CsvFrom | Java/statsdb-api/src/main/java/uk/ac/tgac/statsdb/run/GenericReportTable.java:69-81 | rendering fails only with the string-index error |
| ReportTables.Lines | Java/statsdb-api/src/main/java/uk/ac/tgac/statsdb/run/GenericReportTable.java:72-78 | line i is row i's cells joined by the separator |
| ReportTables.Appended | Java/statsdb-api/src/main/java/uk/ac/tgac/statsdb/run/GenericReportTable.java:109-118 | the existing rows are kept, followed by every row of the other table except its first, in order |
| ReportTables.CellsIsJoinThenSeparator | Java/statsdb-api/src/main/java/uk/ac/tgac/statsdb/run/GenericReportTable.java:74-76 | a row's cells are joined by the separator with one trailing separator |
| ReportTables.CsvJoinsRows | Java/statsdb-api/src/main/java/uk/ac/tgac/statsdb/run/GenericReportTable.java:69-81 | with no empty row, the CSV is each row's cells joined by the separator and ended by `\n`, in table order |
| ReportTables.CsvReadsBackRows | Java/run/src/main/java/uk/ac/bbsrc/tgac/qc/run/GenericReportTable.java:70-81 | reading the CSV's lines back gives one joined line per row |
| ReportTables.EmptyRowAddsNothing | Java/statsdb-api/src/main/java/uk/ac/tgac/statsdb/run/GenericReportTable.java:77 | an empty row deletes the previous `\n` and then adds it back, so it adds nothing |
| ReportTables.EmptyFirstRowThrows | Java/statsdb-api/src/main/java/uk/ac/tgac/statsdb/run/GenericReportTable.java:77 | an empty first row deletes from an empty buffer and throws |
| ReportTables.GenericReportTable.constructor | Java/statsdb-api/src/main/java/uk/ac/tgac/statsdb/run/GenericReportTable.java:27-30 | the table holds the rows, and is empty exactly when it has at most one row (the copying `run` constructor is at GenericReportTable.java:29-32) |
| ReportTables.GenericReportTable.ToCSV | Java/statsdb-api/src/main/java/uk/ac/tgac/statsdb/run/GenericReportTable.java:69-81 | the nested loops build exactly `Csv` of the table |
| ReportTables.GenericReportTable.ToCSVDefault | Java/statsdb-api/src/main/java/uk/ac/tgac/statsdb/run/GenericReportTable.java:64-67 | `toCSV()` is `toCSV(',')` |
| ReportTables.GenericReportTable.GetHeaders | Java/statsdb-api/src/main/java/uk/ac/tgac/statsdb/run/GenericReportTable.java:89-97 | returns row 0 in order, or the index error on an empty table |
| ReportTables.GenericReportTable.GetTable | Java/statsdb-api/src/main/java/uk/ac/tgac/statsdb/run/GenericReportTable.java:99-102 | returns the rows |
| ReportTables.GenericReportTable.IsEmpty | Java/statsdb-api/src/main/java/uk/ac/tgac/statsdb/run/GenericReportTable.java:104-107 | returns the flag set at construction |
| ReportTables.GenericReportTable.Append | Java/run/src/main/java/uk/ac/bbsrc/tgac/qc/run/GenericReportTable.java:108-118 | the table becomes `Appended(old table, other)` and the empty flag is not updated |
| PyReportTable.UpperNames | python/Reports_ReportTable.py:17-19 | one header per column, each the column name upper-cased |
| PyReportTable.UpperNamesAreUpperCase | python/Reports_ReportTable.py:17-19 | every header has no lower-case letter and is its own upper case |
| PyReportTable.New | python/Reports_ReportTable.py:9-27 | the headers come from the cursor description upper-cased, and the rows are kept in fetch order |
| PyReportTable.CellTexts | python/Reports_ReportTable.py:37-39 | cell j is `str` of column j |
| PyReportTable.CsvLines | python/Reports_ReportTable.py:32-42 | line 0 is the headers joined by `,`, and line i + 1 is row i's texts joined by `,` |
| PyReportTable.CsvLinesHaveNoBreaks | python/Reports_ReportTable.py:32-42 | no line contains a line break when no cell does |
| PyReportTable.CsvHasOneLinePerRow | python/Reports_ReportTable.py:30-44 | the output reads back as the header line followed by exactly one line per row |
| PyReportTable.ToCsv | python/Reports_ReportTable.py:30-44 | the loops build exactly `Csv` |
| PyReportTable.RowRepr | python/Reports_ReportTable.py:66 | `str` of a row is a parenthesised tuple text |
| PyReportTable.Repeated | python/Reports_ReportTable.py:65-66 | n copies of the same text |
| PyReportTable.JsonRow | python/Reports_ReportTable.py:64-67 | an empty row contributes nothing |
| PyReportTable.JsonParts | python/Reports_ReportTable.py:55-69 | part 0 is the headers joined by `,`, and part i + 1 is row i's text |
| PyReportTable.RowsJson | python/Reports_ReportTable.py:62-69 | one text per row |
| PyReportTable.RowsJsonAt | python/Reports_ReportTable.py:62-69 | text i is row i's text |
| PyReportTable.RowJson | python/Reports_ReportTable.py:64-67 | the inner loop builds exactly `JsonRow` |
| PyReportTable.ToJson | python/Reports_ReportTable.py:49-75 | the loops build exactly `Json` |
| PyReportTable.ReplacedLineEnds | python/Reports_ReportTable.py:34-42 | turning the line ends of the CSV into commas gives the lines joined by `,` plus a trailing `,` |
| PyReportTable.JsonIntendedIsCsvOnOneLine | python/Reports_ReportTable.py:49-75 | the intended `to_json` is the CSV on one line |
| PyReportTable.JsonRepeatsRowText | python/Reports_ReportTable.py:65-66 | as written, headers [A] with row (1, 2) give `A,(1, 2),(1, 2)` instead of `A,1,2` |
| SqlSelections.SeparatedAppend | python/add_parameters.py:5 | replacing `:`, `,` and `;` by spaces works piece by piece |
| SqlSelections.ReplaceCharAbsent | python/add_parameters.py:5 | replacing a character that is absent changes nothing |
| SqlSelections.SeparatedCommaList | python/add_parameters.py:5 | a comma list of plain words becomes the words separated by spaces |
| SqlSelections.ElementsOfCommaList | python/add_parameters.py:5 | a comma list of plain words splits back into exactly those words, in order |
| SqlSelections.BlankValueHasNoElements | python/add_parameters.py:5 | a value of separators only has no elements |
| SqlSelections.Clauses | python/add_parameters.py:8-12 | one clause per element, in input order |
| SqlSelections.LastOrCut | python/add_parameters.py:13 | cutting the last four characters leaves the clauses joined by ` or ` |
| SqlSelections.Selected | python/add_parameters.py:15-17 | `run.<name> ,` is always appended; `DISTINCT ` is prefixed exactly when there is more than one element and neither `distinct` nor `DISTINCT` is present |
| SqlSelections.IndexFromExtends | python/add_parameters.py:16 | a substring found stays found when text is appended |
| SqlSelections.ContainsExtends | python/add_parameters.py:16 | `in` stays true when text is appended |
| SqlSelections.DistinctIsNeverDoubled | python/add_parameters.py:16-17 | when `distinct` or `DISTINCT` is already present, nothing is prefixed |
| SqlSelections.DistinctIsAddedOnce | python/add_parameters.py:15-17 | once `DISTINCT ` has been added, a later call never adds it again |
| SqlSelections.SelectionsConditions | python/add_parameters.py:3-18 | the where clause is the element clauses joined by ` or ` in parentheses (`()` for no element), and the selections are `Selected` |

## Left out

- Files, streams and readers: `FileInputStream`, channel rewinds, `BufferedReader` closing and
  the `IOException` paths. Input is the report text, or its lines.
- Logging and `printStackTrace`. A caught exception in `processFastQCReportFile` becomes the
  `Abandoned` status.
- Java reflection. Both variants' `getDeclaredMethod`/`getMethod` are modelled as a closed table
  from canonical name to handler, `HandlerFor`. In the `run` variant no handler is public, so
  there the lookup always fails.
- The `FileInputStream` handler overloads and the `getModuleBlock` of the `tgac` parser
  (FastQCReportParser.java:385-418). Dispatch resolves the `String` overloads, so they are never
  reached. The `run` `getModuleBlock` is the same loop, and it is modelled.
- The `lineFunctions` branch of both `parseModuleBlock`s. The table is never filled, so the
  branch is dead.
- The `tgac` Basic Statistics handler calls `AbstractQCAnalysis.parseRange`, which its
  `AbstractQCAnalysis` does not declare. It is modelled as `StatsDBUtils.parseRange`.
- JavaStrings.ParseLong: digit strings longer than 19 characters overflow a Java `long`; the
  model reads them as unbounded naturals. A sign is not accepted either, because the patterns
  in front of every call admit only digits.
- JavaStrings.ToLower and JavaStrings.ToUpper: only ASCII letters change case. Java and Python
  also map other Unicode letters.
- StatsdbFastQCParser.ModuleLines and StatsdbFastQCParser.Modules: their own contracts state
  where a throw comes from, not every module that an `Abandoned` outcome skips. The lemmas
  beside them state the rest: `ModuleLinesSkipsOtherLines`, `ModuleLineWithEmptyWordThrows`
  and `ModuleLineDispatches` give each step of a module's lines, and `ModulesInOrder` gives
  the skipping of the later modules.
- The getters for properties, general values, value scopes and descriptions only return a
  field. The model reads the fields directly.
- Aliasing. The `tgac` `GenericReportTable` shares the list it is built from, and the `run`
  copy copies it. The model keeps the rows as a value, so later changes to the caller's list
  are not seen. Null cells are not modelled.
- `GenericReportTable`'s `ResultSet` constructors and `toJSON`, which need JDBC and Jackson.
- The MySQL cursor is modelled as the `Cursor` datatype of a column description and fetched
  rows. Python `repr` escaping of quotes inside strings is not modelled. Neither are the
  `long` `L` suffix, floats, `Decimal` and `datetime` cells.
- `get_headers`, `get_table` and `is_empty` in `python/Reports_ReportTable.py` read attributes
  that the class never sets. They would raise, and they are not modelled. Neither is
  `to_doublequote`.
- `python/add_parameters.py`: the `str(option_value)` conversion (the value is already a
  string here) and the `__main__` block.

## Findings

| source | as written | input that shows it | evidently intended | confidence | as-written member | corrected member |
|---|---|---|---|---|---|---|
| python/Reports_ReportTable.py:65-66 | `to_json` appends `str(r)`, the whole row, once per column, instead of `str(x)` | headers `["A"]` with one row `(1, 2)` | `A,1,2`, the CSV on one line | not executed | PyReportTable.JsonRepeatsRowText | PyReportTable.JsonIntendedIsCsvOnOneLine |
