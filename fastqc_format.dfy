/** What both FastQCReportParser variants share: their constant tables, the module-name
    line and its canonical name, one '#' header row, and one data row turned into
    partition or position values on the analysis. */
module FastQCFormat {
  import opened Wrappers
  import opened JavaStrings
  import opened StatsDBUtils
  import opened AnalysisValues
  import opened QCAnalysisModel

  // ------------------------------------------------------------------ tables

  /** The value types every parseReport registers, with their scopes. */
  const BuiltinValueTypes: map<string, string> := map[
    "general_total_sequences" := "analysis",
    "general_filtered_sequences" := "analysis",
    "general_min_length" := "analysis",
    "general_max_length" := "analysis",
    "general_gc_content" := "analysis",
    "total_duplicate_percentage" := "analysis",
    "quality_mean" := "base_partition",
    "quality_median" := "base_partition",
    "quality_lower_quartile" := "base_partition",
    "quality_upper_quartile" := "base_partition",
    "quality_10th_percentile" := "base_partition",
    "quality_90th_percentile" := "base_partition",
    "base_content_a" := "base_partition",
    "base_content_c" := "base_partition",
    "base_content_g" := "base_partition",
    "base_content_t" := "base_partition",
    "gc_content_percentage" := "base_partition",
    "base_content_n_percentage" := "base_partition",
    "quality_score_count" := "sequence_cumulative",
    "gc_content_count" := "sequence_cumulative",
    "sequence_length_count" := "sequence_cumulative",
    "duplication_level_relative_count" := "sequence_cumulative"]

  /** Basic Statistics keys that become general values rather than properties. */
  const ValueKeys: map<string, string> := map[
    "Total Sequences" := "general_total_sequences",
    "Filtered Sequences" := "general_filtered_sequences",
    "%GC" := "general_gc_content"]

  /** Header tokens renamed before prefixing; the statsdb-api parser lower-cases header
      rows and so keys "%gc", the older parser keeps their case and keys "%GC". */
  const LowerCaseHeaderKeys: map<string, string> := map["%gc" := "percentage", "n-count" := "n_percentage"]
  const MixedCaseHeaderKeys: map<string, string> := map["%GC" := "percentage", "n-count" := "n_percentage"]

  /** addPartitionValue or addPositionValue, the two `func` names handed to parseModuleBlock. */
  datatype ValueKind = Partition | Position

  /** Field 0 of a data row as the add call accepts it: a range parseRange resolves, or a
      [\d\+]+ position text holding at least one digit. */
  predicate SpotAccepted(kind: ValueKind, field: string) {
    match kind
    case Partition => ParseRange(Some(field)).Ok?
    case Position => IsPositionText(Some(field)) && RemoveChar(field, '+') != ""
  }

  /** The partition value a range gives: at the smaller bound, as wide as the range with
      both ends counted. */
  function PartitionAt(bounds: (nat, nat), key: string, value: string): PartitionValue {
    var (lo, hi) := bounds;
    PartitionValue(if hi < lo then hi else lo, if hi < lo then lo - hi + 1 else hi - lo + 1, key, value)
  }

  /** The position a position text names: the number its digits spell, every '+' dropped. */
  function PositionOf(field: string): nat
    requires IsPositionText(Some(field))
  {
    assert AllDigits(RemoveChar(field, '+')) by { RemovePlusLeavesDigits(field); }
    DecimalValue(RemoveChar(field, '+'))
  }

  /** qcAnalysis.addPartitionValue(range, key, value) or addPositionValue(range, key, value):
      field 0 is checked first (parseRange, or the position pattern and Long.parseLong),
      then the key, then the value; an accepted call appends exactly one value. */
  function AddValue(a: AnalysisState, kind: ValueKind, range: string, key: JString, value: string): (r: Result<AnalysisState>)
    ensures r.Ok? <==> SpotAccepted(kind, range) && Present(key) && value != ""
    ensures kind == Partition && ParseRange(Some(range)).Err? ==> r == Err(ParseRange(Some(range)).error)
    ensures kind == Position && !IsPositionText(Some(range)) ==> r == Err(InvalidPosition(Some(range)))
    ensures SpotAccepted(kind, range) && !Present(key) ==> r == Err(NullOrEmptyKey)
    ensures SpotAccepted(kind, range) && Present(key) && value == "" ==> r == Err(NullOrEmptyValue)
    ensures r.Ok? && kind == Partition ==>
              r.value == a.(partitionValues := a.partitionValues + [PartitionAt(ParseRange(Some(range)).value, key.value, value)])
    ensures r.Ok? && kind == Position ==>
              r.value == a.(positionValues := a.positionValues + [PositionValue(PositionOf(range), key.value, value)])
  {
    match kind
    case Partition => a.AddPartitionValue(Some(range), key, Some(value))
    case Position => a.AddPositionValue(Some(range), key, Some(value))
  }

  /** Nothing is ever removed: the lists only grow at their ends and the maps only gain
      keys; the id stays. */
  predicate Grows(a: AnalysisState, b: AnalysisState) {
    a.id == b.id &&
    a.properties.Keys <= b.properties.Keys && a.valueTypes.Keys <= b.valueTypes.Keys &&
    a.valueDescriptions.Keys <= b.valueDescriptions.Keys && a.generalValues.Keys <= b.generalValues.Keys &&
    a.partitionValues <= b.partitionValues && a.positionValues <= b.positionValues
  }

  lemma GrowsTransitive(a: AnalysisState, b: AnalysisState, c: AnalysisState)
    requires Grows(a, b) && Grows(b, c)
    ensures Grows(a, c)
  {
  }

  /** An analysis state and the failure, if any, that stopped the work on it. */
  datatype Outcome = Outcome(analysis: AnalysisState, failure: Option<Error>)

  // ------------------------------------------------------------------ module names

  predicate NoLineTerminator(s: string) {
    forall i :: 0 <= i < |s| ==> !IsLineTerminator(s[i])
  }

  /** Index of the last character of s in class k. */
  function LastInClass(s: string, k: CharClass): (r: Option<nat>)
    ensures r.Some? ==> r.value < |s| && InClass(s[r.value], k) && NoneInClass(s[r.value + 1..], k)
    ensures r.None? ==> NoneInClass(s, k)
    decreases |s|
  {
    if s == [] then None
    else if InClass(s[|s| - 1], k) then Some(|s| - 1)
    else
      var r := LastInClass(s[..|s| - 1], k);
      assert r.Some? ==> s[r.value + 1..] == s[..|s| - 1][r.value + 1..] + [s[|s| - 1]];
      r
  }

  /** Group 1 of a full match of >>(.*)[\s]+([\S]*). With greedy (.*) the group ends at the
      last whitespace character; '.' does not cross a line terminator, so one inside the
      group means no match. */
  function ModuleNameGroup(line: string): (r: Option<string>)
    ensures r.Some? ==>
              |line| > 2 + |r.value| && line[..2 + |r.value|] == ">>" + r.value &&
              NoLineTerminator(r.value) && IsJavaWhitespace(line[2 + |r.value|]) &&
              NoneInClass(line[3 + |r.value|..], Whitespace)
  {
    if !StartsWith(line, ">>") then None
    else
      var rest := line[2..];
      match LastInClass(rest, Whitespace)
      case None => None
      case Some(j) =>
        assert line[2 + j + 1..] == rest[j + 1..];
        if NoLineTerminator(rest[..j]) then Some(rest[..j]) else None
  }

  lemma {:induction false} LastInClassOfSuffix(s: string, t: string, k: CharClass)
    requires NoneInClass(t, k)
    ensures LastInClass(s + t, k) == LastInClass(s, k)
    decreases |t|
  {
    if t == [] {
      assert s + t == s;
    } else {
      var t' := t[..|t| - 1];
      assert (s + t)[..|s + t| - 1] == s + t';
      LastInClassOfSuffix(s, t', k);
    }
  }

  /** A FastQC module line ">>" + name + whitespace + status yields exactly the name. */
  lemma ModuleNameGroupOfLine(name: string, w: char, status: string)
    requires NoLineTerminator(name) && IsJavaWhitespace(w) && NoneInClass(status, Whitespace)
    ensures ModuleNameGroup(">>" + name + [w] + status) == Some(name)
  {
    var line := ">>" + name + [w] + status;
    assert line[2..] == (name + [w]) + status;
    LastInClassOfSuffix(name + [w], status, Whitespace);
    assert (name + [w])[..|name + [w]| - 1] == name;
    assert line[2..][..|name|] == name;
  }

  /** Lines that are not module lines: no ">>" prefix, or no whitespace after it. */
  lemma ModuleNameGroupRejects(line: string)
    requires !StartsWith(line, ">>") || NoneInClass(line[2..], Whitespace)
    ensures ModuleNameGroup(line) == None
  {
  }

  /** capitalise applied to each word, the results concatenated; the first empty word
      makes charAt(0) throw. */
  function CapitaliseAll(words: seq<string>): (r: Result<string>)
    ensures r.Err? <==> exists j :: 0 <= j < |words| && words[j] == ""
    ensures r.Err? ==> r.error == StringIndexOutOfBounds
  {
    if words == [] then Ok("")
    else
      match Capitalise(words[0])
      case Err(e) => Err(e)
      case Ok(w) =>
        match CapitaliseAll(words[1..])
        case Err(e) =>
          var j :| 0 <= j < |words[1..]| && words[1..][j] == "";
          assert words[j + 1] == "";
          Err(e)
        case Ok(rest) =>
          assert forall j :: 0 < j < |words| ==> words[j] == words[1..][j - 1];
          Ok(w + rest)
  }

  /** The canonical module name: group 1 split on whitespace runs, each word capitalised. */
  function CanonicalName(group: string): Result<string> {
    CapitaliseAll(SplitRuns(group, Whitespace))
  }

  /** The name of a module is its words, each capitalised, run together. */
  lemma CanonicalNameOfWords(words: seq<string>)
    requires |words| > 0
    requires forall j :: 0 <= j < |words| ==> words[j] != "" && NoneInClass(words[j], Whitespace)
    ensures CanonicalName(Join(" ", words)).Ok?
    ensures CanonicalName(Join(" ", words)) == CapitaliseAll(words)
  {
    SplitRunsOfJoin(words, ' ', Whitespace);
  }

  lemma CapitaliseAllCons(w: string, ws: seq<string>)
    requires w != "" && CapitaliseAll(ws).Ok?
    ensures CapitaliseAll([w] + ws) == Ok(Capitalise(w).value + CapitaliseAll(ws).value)
  {
    assert ([w] + ws)[1..] == ws;
  }

  /** The FastQC module "Per base GC content" is handled by parsePerBaseGCContent. */
  lemma CanonicalNameExample()
    ensures CanonicalName("Per base GC content") == Ok("PerBaseGCContent")
  {
    var words := ["Per", "base", "GC", "content"];
    assert forall j | 0 <= j < |words| :: words[j] != "" && NoneInClass(words[j], Whitespace);
    CanonicalNameOfWords(words);
    JoinExample();
    CapitaliseAllExample();
  }

  lemma JoinExample()
    ensures Join(" ", ["Per", "base", "GC", "content"]) == "Per base GC content"
  {
    JoinOfFour("Per", "base", "GC", "content");
    assert "Per" + " " + "base" + " " + "GC" + " " + "content" == "Per base GC content";
  }

  lemma CapitaliseExamples()
    ensures Capitalise("content") == Ok("Content") && Capitalise("GC") == Ok("GC")
    ensures Capitalise("base") == Ok("Base") && Capitalise("Per") == Ok("Per")
  {
    assert UpperChar('c') == 'C' && "content"[1..] == "ontent" && "Content" == ['C'] + "ontent";
    assert UpperChar('G') == 'G' && "GC" == ['G'] + "GC"[1..];
    assert UpperChar('b') == 'B' && "base"[1..] == "ase" && "Base" == ['B'] + "ase";
    assert UpperChar('P') == 'P' && "Per" == ['P'] + "Per"[1..];
  }

  lemma CapitaliseAllExample()
    ensures CapitaliseAll(["Per", "base", "GC", "content"]) == Ok("PerBaseGCContent")
  {
    CapitaliseAllOfFour("Per", "base", "GC", "content");
    CapitaliseExamples();
    GCNameSpelled();
  }

  lemma GCNameSpelled()
    ensures "Per" + "Base" + "GC" + "Content" == "PerBaseGCContent"
  {
  }

  /** The FastQC module "Per base sequence quality" is handled by parsePerBaseSequenceQuality. */
  lemma CanonicalNameQualityExample()
    ensures CanonicalName("Per base sequence quality") == Ok("PerBaseSequenceQuality")
  {
    var words := ["Per", "base", "sequence", "quality"];
    QualityWordsArePlain(words);
    CanonicalNameOfWords(words);
    JoinQualityExample();
    CapitaliseAllQualityExample();
  }

  lemma QualityWordsArePlain(words: seq<string>)
    requires words == ["Per", "base", "sequence", "quality"]
    ensures |words| > 0
    ensures forall j :: 0 <= j < |words| ==> words[j] != "" && NoneInClass(words[j], Whitespace)
  {
    forall j | 0 <= j < |words|
      ensures words[j] != "" && NoneInClass(words[j], Whitespace)
    {
      assert words[j] in {"Per", "base", "sequence", "quality"};
    }
  }

  lemma JoinQualityExample()
    ensures Join(" ", ["Per", "base", "sequence", "quality"]) == "Per base sequence quality"
  {
    JoinOfFour("Per", "base", "sequence", "quality");
    assert "Per" + " " + "base" + " " + "sequence" + " " + "quality" == "Per base sequence quality";
  }

  lemma CapitaliseAllQualityExample()
    ensures CapitaliseAll(["Per", "base", "sequence", "quality"]) == Ok("PerBaseSequenceQuality")
  {
    CapitaliseAllOfFour("Per", "base", "sequence", "quality");
    CapitaliseExamples();
    CapitaliseQualityExamples();
    QualityNameSpelled();
  }

  lemma QualityNameSpelled()
    ensures "Per" + "Base" + "Sequence" + "Quality" == "PerBaseSequenceQuality"
  {
  }

  lemma JoinOfFour(w1: string, w2: string, w3: string, w4: string)
    ensures Join(" ", [w1, w2, w3, w4]) == w1 + " " + w2 + " " + w3 + " " + w4
  {
    assert [w3, w4][1..] == [w4];
    assert Join(" ", [w3, w4]) == w3 + " " + w4;
    assert [w2, w3, w4][1..] == [w3, w4];
    assert Join(" ", [w2, w3, w4]) == w2 + " " + (w3 + " " + w4);
    assert [w1, w2, w3, w4][1..] == [w2, w3, w4];
    assert Join(" ", [w1, w2, w3, w4]) == w1 + " " + (w2 + " " + (w3 + " " + w4));
  }

  lemma CapitaliseAllOfFour(w1: string, w2: string, w3: string, w4: string)
    requires w1 != "" && w2 != "" && w3 != "" && w4 != ""
    ensures CapitaliseAll([w1, w2, w3, w4]) ==
            Ok(Capitalise(w1).value + Capitalise(w2).value + Capitalise(w3).value + Capitalise(w4).value)
  {
    var c1, c2, c3, c4 := Capitalise(w1).value, Capitalise(w2).value, Capitalise(w3).value, Capitalise(w4).value;
    assert [w4][1..] == [];
    assert CapitaliseAll([w4]) == Ok(c4 + "");
    assert c4 + "" == c4;
    CapitaliseAllCons(w3, [w4]);
    assert [w3] + [w4] == [w3, w4];
    CapitaliseAllCons(w2, [w3, w4]);
    assert [w2] + [w3, w4] == [w2, w3, w4];
    CapitaliseAllCons(w1, [w2, w3, w4]);
    assert [w1] + [w2, w3, w4] == [w1, w2, w3, w4];
    assert c1 + (c2 + (c3 + c4)) == c1 + c2 + c3 + c4;
  }

  lemma CapitaliseQualityExamples()
    ensures Capitalise("quality") == Ok("Quality") && Capitalise("sequence") == Ok("Sequence")
  {
    assert UpperChar('q') == 'Q' && "quality"[1..] == "uality" && "Quality" == ['Q'] + "uality";
    assert UpperChar('s') == 'S' && "sequence"[1..] == "equence" && "Sequence" == ['S'] + "equence";
  }

  /** CapitaliseAll from word i on, one word at a time. */
  lemma CapitaliseAllFrom(words: seq<string>, i: nat)
    requires i < |words|
    ensures Capitalise(words[i]).Err? ==> CapitaliseAll(words[i..]) == Err(StringIndexOutOfBounds)
    ensures Capitalise(words[i]).Ok? && CapitaliseAll(words[i + 1..]).Ok? ==>
              CapitaliseAll(words[i..]) == Ok(Capitalise(words[i]).value + CapitaliseAll(words[i + 1..]).value)
    ensures Capitalise(words[i]).Ok? && CapitaliseAll(words[i + 1..]).Err? ==> CapitaliseAll(words[i..]).Err?
  {
    assert words[i..][0] == words[i] && words[i..][1..] == words[i + 1..];
  }

  /** The module's name computed word by word, as the parser's loop does. */
  method CanonicalModuleName(group: string) returns (r: Result<string>)
    ensures r == CanonicalName(group)
  {
    var words := SplitRuns(group, Whitespace);
    var name := "";
    var i := 0;
    assert words[0..] == words;
    assert CapitaliseAll(words).Ok? ==> name + CapitaliseAll(words).value == CapitaliseAll(words).value;
    while i < |words|
      invariant 0 <= i <= |words|
      invariant CapitaliseAll(words[i..]).Ok? ==> CapitaliseAll(words) == Ok(name + CapitaliseAll(words[i..]).value)
      invariant CapitaliseAll(words[i..]).Err? ==> CapitaliseAll(words).Err?
    {
      CapitaliseAllFrom(words, i);
      var c := Capitalise(words[i]);
      if c.Err? {
        return c;
      }
      if CapitaliseAll(words[i + 1..]).Ok? {
        var rest := CapitaliseAll(words[i + 1..]).value;
        assert name + (c.value + rest) == (name + c.value) + rest;
      }
      name := name + c.value;
      i := i + 1;
    }
    assert words[i..] == [];
    assert name + "" == name;
    r := Ok(name);
  }

  // ------------------------------------------------------------------ header rows

  /** No line is a '#' header row. */
  predicate NoHeaderRows(lines: seq<string>) {
    forall i :: 0 <= i < |lines| ==> !StartsWith(lines[i], "#")
  }

  /** Line i is a '#' header row and no line after it is one. */
  predicate IsLastHeaderRow(lines: seq<string>, i: int) {
    0 <= i < |lines| && StartsWith(lines[i], "#") &&
    forall j :: i < j < |lines| ==> !StartsWith(lines[j], "#")
  }

  /** The last header row of the lines after the first is the last header row of all. */
  lemma LastHeaderRowOfTail(lines: seq<string>, row: string)
    requires |lines| > 0 && exists i :: IsLastHeaderRow(lines[1..], i) && lines[1..][i] == row
    ensures exists i :: IsLastHeaderRow(lines, i) && lines[i] == row
  {
    var i :| IsLastHeaderRow(lines[1..], i) && lines[1..][i] == row;
    assert forall j :: 0 <= j < |lines[1..]| ==> lines[1..][j] == lines[j + 1];
    assert IsLastHeaderRow(lines, i + 1);
  }

  function Renamed(keys: map<string, string>, token: string): string {
    if token in keys then keys[token] else token
  }

  /** A two-token '#' row whose first token is a header key, as "#%GC\t47". */
  predicate IsKeyedHeaderRow(hs: seq<string>, keys: map<string, string>) {
    |hs| == 2 && hs[0] in keys
  }

  /** The header array a '#' row already split into tokens leaves behind: a keyed row
      leaves a fresh array of nulls, any other row names its columns "<prefix>_<token>",
      inner whitespace of each token replaced by '_' and header keys renamed. */
  function HeaderSlots(hs: seq<string>, keys: map<string, string>, prefix: string): (r: seq<JString>)
    ensures |r| == |hs|
    ensures IsKeyedHeaderRow(hs, keys) ==> forall i :: 0 <= i < |r| ==> r[i].None?
    ensures !IsKeyedHeaderRow(hs, keys) ==> forall i :: 0 <= i < |r| ==> r[i] == Some(ColumnName(hs[i], keys, prefix))
  {
    if IsKeyedHeaderRow(hs, keys) then [None, None]
    else seq(|hs|, i requires 0 <= i < |hs| => Some(ColumnName(hs[i], keys, prefix)))
  }

  /** "<prefix>_<token>", inner whitespace of the token replaced by '_' and a header key
      renamed. */
  function ColumnName(h: string, keys: map<string, string>, prefix: string): (r: string)
    ensures StartsWith(r, prefix + "_")
  {
    prefix + "_" + Renamed(keys, ReplaceRuns(h, Whitespace, "_"))
  }

  /** The two header keys are renamed under either table: "%gc" (or "%GC" where case is
      kept) becomes "percentage" and "n-count" becomes "n_percentage". */
  lemma ColumnNameRenamesKeys(prefix: string)
    ensures ColumnName("%gc", LowerCaseHeaderKeys, prefix) == prefix + "_" + "percentage"
    ensures ColumnName("n-count", LowerCaseHeaderKeys, prefix) == prefix + "_" + "n_percentage"
    ensures ColumnName("%GC", MixedCaseHeaderKeys, prefix) == prefix + "_" + "percentage"
    ensures ColumnName("n-count", MixedCaseHeaderKeys, prefix) == prefix + "_" + "n_percentage"
  {
    ReplaceRunsOfPlain("%gc", Whitespace, "_");
    ReplaceRunsOfPlain("%GC", Whitespace, "_");
    ReplaceRunsOfPlain("n-count", Whitespace, "_");
  }

  /** Words separated by whitespace runs are joined by '_' under the prefix; a single
      word that is not a key is kept as it is. */
  lemma ColumnNameOfWords(words: seq<string>, sep: char, keys: map<string, string>, prefix: string)
    requires |words| > 0 && IsJavaWhitespace(sep)
    requires forall j :: 0 <= j < |words| ==> words[j] != "" && NoneInClass(words[j], Whitespace)
    requires Join("_", words) !in keys
    ensures ColumnName(Join([sep], words), keys, prefix) == prefix + "_" + Join("_", words)
  {
    PiecesOfJoin(words, sep, Whitespace);
  }

  /** A token free of whitespace that is not a key names the column "<prefix>_<token>". */
  lemma ColumnNameOfPlainToken(h: string, keys: map<string, string>, prefix: string)
    requires NoneInClass(h, Whitespace) && h !in keys
    ensures ColumnName(h, keys, prefix) == prefix + "_" + h
  {
    ReplaceRunsOfPlain(h, Whitespace, "_");
  }

  /** "mean quality" names the column "<prefix>_mean_quality". */
  lemma ColumnNameOfTwoWords(w1: string, w2: string, prefix: string)
    requires w1 == "mean" && w2 == "quality"
    ensures ColumnName(w1 + " " + w2, LowerCaseHeaderKeys, prefix) == prefix + "_" + w1 + "_" + w2
  {
    var words := [w1, w2];
    assert words[1..] == [w2];
    assert NoneInClass(w1, Whitespace) && NoneInClass(w2, Whitespace);
    assert w1 + "_" + w2 !in LowerCaseHeaderKeys by {
      assert (w1 + "_" + w2)[0] == 'm';
    }
    ColumnNameOfWords(words, ' ', LowerCaseHeaderKeys, prefix);
  }

  /** A column name holds no whitespace when its prefix holds none, under either table. */
  lemma ColumnNameHasNoWhitespace(h: string, keys: map<string, string>, prefix: string)
    requires keys == LowerCaseHeaderKeys || keys == MixedCaseHeaderKeys
    requires NoneInClass(prefix, Whitespace)
    ensures NoneInClass(ColumnName(h, keys, prefix), Whitespace)
  {
    PiecesBetweenRunsNoneInClass(h, Whitespace);
    JoinNoneInClass("_", PiecesBetweenRuns(h, Whitespace), Whitespace);
    var token := ReplaceRuns(h, Whitespace, "_");
    assert NoneInClass("percentage", Whitespace) && NoneInClass("n_percentage", Whitespace);
    assert forall t :: t in keys ==> keys[t] == "percentage" || keys[t] == "n_percentage";
    NoneInClassAppend(prefix, "_");
    NoneInClassAppend(prefix + "_", Renamed(keys, token));
  }

  lemma NoneInClassAppend(x: string, y: string)
    requires NoneInClass(x, Whitespace) && NoneInClass(y, Whitespace)
    ensures NoneInClass(x + y, Whitespace)
  {
    assert forall i :: |x| <= i < |x + y| ==> (x + y)[i] == y[i - |x|];
  }

  /** What a '#' row does to the analysis: a keyed row records one general value (its ""
      description is not recorded); any other row changes nothing. */
  function HeaderRow(a: AnalysisState, hs: seq<string>, keys: map<string, string>): (r: AnalysisState)
    ensures Grows(a, r)
    ensures !IsKeyedHeaderRow(hs, keys) ==> r == a
    ensures IsKeyedHeaderRow(hs, keys) ==>
              r.generalValues == a.generalValues[keys[hs[0]] := hs[1]] &&
              r.valueDescriptions == a.valueDescriptions && r.properties == a.properties
  {
    if IsKeyedHeaderRow(hs, keys) then a.AddGeneralValue(keys[hs[0]], hs[1], Some("")) else a
  }

  /** The header array of one '#' row, filled slot by slot. */
  method HeaderArray(hs: seq<string>, keys: map<string, string>, prefix: string) returns (slots: array<JString>)
    ensures fresh(slots) && slots[..] == HeaderSlots(hs, keys, prefix)
  {
    slots := new JString[|hs|](_ => None);
    if !IsKeyedHeaderRow(hs, keys) {
      for j := 0 to |hs|
        invariant forall m :: 0 <= m < j ==> slots[m] == Some(ColumnName(hs[m], keys, prefix))
      {
        var token := ReplaceRuns(hs[j], Whitespace, "_");
        if token in keys {
          token := keys[token];
        }
        slots[j] := Some(prefix + "_" + token);
      }
    }
  }

  // ------------------------------------------------------------------ data rows

  /** Columns i.. of one data row each add a value: field 0 is accepted, every one of
      these columns has a header slot holding a name, and none of their fields is empty. */
  predicate ColumnsAccepted(kind: ValueKind, headers: seq<JString>, ls: seq<string>, i: nat) {
    i >= |ls| ||
    (|ls| <= |headers| && SpotAccepted(kind, ls[0]) &&
     forall j :: i <= j < |ls| ==> Present(headers[j]) && ls[j] != "")
  }

  /** The partition values columns i.. of an accepted row add, in column order: each at
      field 0's range, keyed by its column's header and holding its field. */
  function PartitionColumns(headers: seq<JString>, ls: seq<string>, i: nat): (r: seq<PartitionValue>)
    requires ColumnsAccepted(Partition, headers, ls, i)
    ensures |r| == if i < |ls| then |ls| - i else 0
    ensures forall j :: 0 <= j < |r| ==>
              r[j] == PartitionAt(ParseRange(Some(ls[0])).value, headers[i + j].value, ls[i + j])
    decreases |ls| - i
  {
    if i >= |ls| then []
    else [PartitionAt(ParseRange(Some(ls[0])).value, headers[i].value, ls[i])] + PartitionColumns(headers, ls, i + 1)
  }

  /** The position values columns i.. of an accepted row add, in column order. */
  function PositionColumns(headers: seq<JString>, ls: seq<string>, i: nat): (r: seq<PositionValue>)
    requires ColumnsAccepted(Position, headers, ls, i)
    ensures |r| == if i < |ls| then |ls| - i else 0
    ensures forall j :: 0 <= j < |r| ==> r[j] == PositionValue(PositionOf(ls[0]), headers[i + j].value, ls[i + j])
    decreases |ls| - i
  {
    if i >= |ls| then []
    else [PositionValue(PositionOf(ls[0]), headers[i].value, ls[i])] + PositionColumns(headers, ls, i + 1)
  }

  /** The analysis after columns i.. of an accepted row: their values appended to the list
      of the row's kind, and nothing else changed. */
  function WithColumns(a: AnalysisState, kind: ValueKind, headers: seq<JString>, ls: seq<string>, i: nat): AnalysisState
    requires ColumnsAccepted(kind, headers, ls, i)
  {
    match kind
    case Partition => a.(partitionValues := a.partitionValues + PartitionColumns(headers, ls, i))
    case Position => a.(positionValues := a.positionValues + PositionColumns(headers, ls, i))
  }

  lemma ColumnsAcceptedStep(kind: ValueKind, headers: seq<JString>, ls: seq<string>, i: nat)
    requires 1 <= i < |ls|
    ensures ColumnsAccepted(kind, headers, ls, i) <==>
              i < |headers| && SpotAccepted(kind, ls[0]) && Present(headers[i]) && ls[i] != "" &&
              ColumnsAccepted(kind, headers, ls, i + 1)
  {
  }

  /** The first column of an accepted run of columns, then the rest. */
  lemma ColumnsStep(a: AnalysisState, kind: ValueKind, headers: seq<JString>, ls: seq<string>, i: nat)
    requires 1 <= i < |ls|
    ensures ColumnsAccepted(kind, headers, ls, i) <==>
              i < |headers| && AddValue(a, kind, ls[0], headers[i], ls[i]).Ok? &&
              ColumnsAccepted(kind, headers, ls, i + 1)
    ensures ColumnsAccepted(kind, headers, ls, i) ==>
              AddValue(a, kind, ls[0], headers[i], ls[i]).Ok? &&
              WithColumns(a, kind, headers, ls, i) == WithColumns(AddValue(a, kind, ls[0], headers[i], ls[i]).value,
                                                                  kind, headers, ls, i + 1)
  {
    ColumnsAcceptedStep(kind, headers, ls, i);
    if ColumnsAccepted(kind, headers, ls, i) {
      if kind == Partition {
        PartitionStep(a, headers, ls, i);
      } else {
        PositionStep(a, headers, ls, i);
      }
    }
  }

  lemma PartitionStep(a: AnalysisState, headers: seq<JString>, ls: seq<string>, i: nat)
    requires 1 <= i < |ls| && i < |headers|
    requires ColumnsAccepted(Partition, headers, ls, i) && ColumnsAccepted(Partition, headers, ls, i + 1)
    requires SpotAccepted(Partition, ls[0]) && Present(headers[i]) && ls[i] != ""
    ensures AddValue(a, Partition, ls[0], headers[i], ls[i]).Ok?
    ensures WithColumns(a, Partition, headers, ls, i) ==
              WithColumns(AddValue(a, Partition, ls[0], headers[i], ls[i]).value, Partition, headers, ls, i + 1)
  {
    var r := AddValue(a, Partition, ls[0], headers[i], ls[i]);
    var pv := PartitionAt(ParseRange(Some(ls[0])).value, headers[i].value, ls[i]);
    var ps, ps' := PartitionColumns(headers, ls, i), PartitionColumns(headers, ls, i + 1);
    assert ps == [pv] + ps';
    assert r.value == a.(partitionValues := a.partitionValues + [pv]);
    assert a.partitionValues + ps == (a.partitionValues + [pv]) + ps';
  }

  lemma PositionStep(a: AnalysisState, headers: seq<JString>, ls: seq<string>, i: nat)
    requires 1 <= i < |ls| && i < |headers|
    requires ColumnsAccepted(Position, headers, ls, i) && ColumnsAccepted(Position, headers, ls, i + 1)
    requires SpotAccepted(Position, ls[0]) && Present(headers[i]) && ls[i] != ""
    ensures AddValue(a, Position, ls[0], headers[i], ls[i]).Ok?
    ensures WithColumns(a, Position, headers, ls, i) ==
              WithColumns(AddValue(a, Position, ls[0], headers[i], ls[i]).value, Position, headers, ls, i + 1)
  {
    var r := AddValue(a, Position, ls[0], headers[i], ls[i]);
    var pv := PositionValue(PositionOf(ls[0]), headers[i].value, ls[i]);
    var ps, ps' := PositionColumns(headers, ls, i), PositionColumns(headers, ls, i + 1);
    assert ps == [pv] + ps';
    assert r.value == a.(positionValues := a.positionValues + [pv]);
    assert a.positionValues + ps == (a.positionValues + [pv]) + ps';
  }

  /** Columns i.. of one data row: each becomes add(fields[0], headers[i], fields[i]); a
      column with no header slot throws ArrayIndexOutOfBounds, a null header or a refused
      range or position fails the add. The row goes through exactly when all its columns
      are accepted, and then its values are appended in column order. */
  function RowValues(a: AnalysisState, kind: ValueKind, headers: seq<JString>, ls: seq<string>, i: nat): (r: Outcome)
    requires 1 <= i
    ensures Grows(a, r.analysis)
    ensures r.failure.None? <==> ColumnsAccepted(kind, headers, ls, i)
    ensures r.failure.None? ==> r.analysis == WithColumns(a, kind, headers, ls, i)
    ensures i < |ls| && |headers| <= i ==> r == Outcome(a, Some(ArrayIndexOutOfBounds))
    decreases |ls| - i
  {
    if i >= |ls| then Outcome(a, None)
    else if i >= |headers| then Outcome(a, Some(ArrayIndexOutOfBounds))
    else
      match AddValue(a, kind, ls[0], headers[i], ls[i])
      case Err(e) =>
        ColumnsStep(a, kind, headers, ls, i);
        Outcome(a, Some(e))
      case Ok(a') =>
        var r := RowValues(a', kind, headers, ls, i + 1);
        GrowsTransitive(a, a', r.analysis);
        ColumnsStep(a, kind, headers, ls, i);
        r
  }

  /** Every row goes through from its column 1 on. */
  predicate RowsAccepted(kind: ValueKind, headers: seq<JString>, rows: seq<seq<string>>) {
    forall k :: 0 <= k < |rows| ==> ColumnsAccepted(kind, headers, rows[k], 1)
  }

  /** The partition values of accepted rows, row after row and column after column. */
  function RowsPartitions(headers: seq<JString>, rows: seq<seq<string>>): seq<PartitionValue>
    requires RowsAccepted(Partition, headers, rows)
    decreases |rows|
  {
    if rows == [] then []
    else PartitionColumns(headers, rows[0], 1) + RowsPartitions(headers, rows[1..])
  }

  /** The position values of accepted rows, row after row and column after column. */
  function RowsPositions(headers: seq<JString>, rows: seq<seq<string>>): seq<PositionValue>
    requires RowsAccepted(Position, headers, rows)
    decreases |rows|
  {
    if rows == [] then []
    else PositionColumns(headers, rows[0], 1) + RowsPositions(headers, rows[1..])
  }

  /** The analysis after accepted rows: their values appended in row order to the list of
      their kind, and nothing else changed. */
  function WithRows(a: AnalysisState, kind: ValueKind, headers: seq<JString>, rows: seq<seq<string>>): AnalysisState
    requires RowsAccepted(kind, headers, rows)
  {
    match kind
    case Partition => a.(partitionValues := a.partitionValues + RowsPartitions(headers, rows))
    case Position => a.(positionValues := a.positionValues + RowsPositions(headers, rows))
  }

  /** One accepted row, then the rest. */
  lemma WithRowsCons(a: AnalysisState, kind: ValueKind, headers: seq<JString>, row: seq<string>, rows: seq<seq<string>>)
    ensures RowsAccepted(kind, headers, [row] + rows) <==>
              ColumnsAccepted(kind, headers, row, 1) && RowsAccepted(kind, headers, rows)
    ensures RowsAccepted(kind, headers, [row] + rows) ==>
              WithRows(a, kind, headers, [row] + rows) == WithRows(WithColumns(a, kind, headers, row, 1), kind, headers, rows)
  {
    var all := [row] + rows;
    assert all[0] == row && all[1..] == rows;
    assert forall k :: 0 <= k < |rows| ==> all[k + 1] == rows[k];
    if RowsAccepted(kind, headers, all) {
      match kind
      case Partition =>
        assert a.partitionValues + RowsPartitions(headers, all) ==
               (a.partitionValues + PartitionColumns(headers, row, 1)) + RowsPartitions(headers, rows);
      case Position =>
        assert a.positionValues + RowsPositions(headers, all) ==
               (a.positionValues + PositionColumns(headers, row, 1)) + RowsPositions(headers, rows);
    }
  }

  /** No rows add nothing. */
  lemma WithNoRows(a: AnalysisState, kind: ValueKind, headers: seq<JString>)
    ensures RowsAccepted(kind, headers, []) && WithRows(a, kind, headers, []) == a
  {
    match kind
    case Partition => assert a.partitionValues + [] == a.partitionValues;
    case Position => assert a.positionValues + [] == a.positionValues;
  }

  /** The column loop, one add call per column. */
  method AddRowValues(qa: DefaultQCAnalysis, kind: ValueKind, headers: seq<JString>, ls: seq<string>)
    returns (failure: Option<Error>)
    modifies qa
    ensures var r := RowValues(old(qa.State()), kind, headers, ls, 1);
            qa.State() == r.analysis && failure == r.failure
  {
    var i := 1;
    while i < |ls|
      invariant 1 <= i
      invariant RowValues(qa.State(), kind, headers, ls, i) == RowValues(old(qa.State()), kind, headers, ls, 1)
      decreases |ls| - i
    {
      if i >= |headers| {
        return Some(ArrayIndexOutOfBounds);
      }
      var f;
      match kind {
        case Partition => f := qa.AddPartitionValue(Some(ls[0]), headers[i], Some(ls[i]));
        case Position => f := qa.AddPositionValue(Some(ls[0]), headers[i], Some(ls[i]));
      }
      if f.Some? {
        return f;
      }
      i := i + 1;
    }
    failure := None;
  }

  // ------------------------------------------------------------------ reports

  /** How processing a report ended: normally; abandoned after a missing or failing
      handler, which is logged and not rethrown; or by an unchecked exception that escapes
      parseReport. */
  datatype Status = Completed | Abandoned(reason: Error) | Thrown(error: Error)

  /** Every entry of a parser's value-type table registered on the analysis. */
  function Registered(a: AnalysisState, types: map<string, string>): (r: AnalysisState)
    ensures r.valueTypes.Keys == a.valueTypes.Keys + types.Keys
    ensures forall k :: k in types ==> r.valueTypes[k] == types[k]
    ensures r.(valueTypes := a.valueTypes) == a
  {
    a.(valueTypes := a.valueTypes + types)
  }

  lemma RegisteredStep(a: AnalysisState, done: map<string, string>, k: string, scope: string)
    ensures Registered(a, done).AddValueType(k, scope) == Registered(a, done[k := scope])
  {
    assert (a.valueTypes + done)[k := scope] == a.valueTypes + done[k := scope];
  }

  /** The loop over values.entrySet() in parseReport: every entry becomes a value type. */
  method RegisterValueTypes(qa: DefaultQCAnalysis, values: map<string, string>)
    modifies qa
    ensures qa.State() == Registered(old(qa.State()), values)
  {
    var pending := values.Keys;
    ghost var done: map<string, string> := map[];
    while pending != {}
      invariant pending <= values.Keys && done.Keys == values.Keys - pending
      invariant forall k :: k in done ==> done[k] == values[k]
      invariant qa.State() == Registered(old(qa.State()), done)
      decreases |pending|
    {
      var k :| k in pending;
      RegisteredStep(old(qa.State()), done, k, values[k]);
      qa.AddValueType(k, values[k]);
      done := done[k := values[k]];
      pending := pending - {k};
    }
    assert done == values;
  }
}
