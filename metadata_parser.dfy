/** AnalysisMetadataParser: a metadata table whose first line names the properties and
    whose every further line describes one analysis. Fields are separated by runs of
    whitespace, '|' or ','; the header line is lower-cased first. */
module AnalysisMetadataParser {
  import opened Wrappers
  import opened JavaStrings
  import opened QCAnalysisModel

  function HeaderFields(line: string): seq<string> {
    SplitRuns(ToLower(line), MetadataSep)
  }

  function RowFields(line: string): seq<string> {
    SplitRuns(line, MetadataSep)
  }

  /** The (header, field) pairs of one row, in column order. */
  function Zip(headers: seq<string>, fields: seq<string>): (r: seq<(string, string)>)
    requires |headers| == |fields|
    ensures |r| == |headers|
    ensures forall j :: 0 <= j < |r| ==> r[j] == (headers[j], fields[j])
  {
    seq(|headers|, j requires 0 <= j < |headers| => (headers[j], fields[j]))
  }

  /** A fresh analysis with property headers[i] = fields[i], written in column order. */
  function RowAnalysis(headers: seq<string>, fields: seq<string>): AnalysisState
    requires |headers| == |fields|
  {
    AddProperties(EmptyAnalysis, Zip(headers, fields))
  }

  /** One analysis per data line, in order; a line whose field count differs from the
      header's makes the whole parse fail. */
  function MetadataRows(headers: seq<string>, lines: seq<string>): (r: Result<seq<AnalysisState>>)
    ensures r.Ok? ==> |r.value| == |lines|
    ensures r.Err? ==> r.error == InvalidHeaders
    decreases |lines|
  {
    if lines == [] then Ok([])
    else
      var fields := RowFields(lines[0]);
      if |headers| != |fields| then Err(InvalidHeaders)
      else
        match MetadataRows(headers, lines[1..])
        case Err(e) => Err(e)
        case Ok(rest) => Ok([RowAnalysis(headers, fields)] + rest)
  }

  /** The lines of a metadata table: the first is the header. */
  function MetadataTable(lines: seq<string>): Result<seq<AnalysisState>> {
    if lines == [] then Ok([]) else MetadataRows(HeaderFields(lines[0]), lines[1..])
  }

  /** parseMetadataFile(String) on the text of a metadata table. */
  function ParseMetadata(csv: string): Result<seq<AnalysisState>> {
    MetadataTable(ReadLines(csv))
  }

  // ------------------------------------------------------------------ properties

  /** The parse fails exactly when some data line has a different field count. */
  lemma {:induction false} MetadataRowsFailsExactly(headers: seq<string>, lines: seq<string>)
    ensures MetadataRows(headers, lines).Err? <==>
              exists i :: 0 <= i < |lines| && |RowFields(lines[i])| != |headers|
    decreases |lines|
  {
    if lines != [] {
      MetadataRowsFailsExactly(headers, lines[1..]);
      if exists i :: 0 <= i < |lines[1..]| && |RowFields(lines[1..][i])| != |headers| {
        var i :| 0 <= i < |lines[1..]| && |RowFields(lines[1..][i])| != |headers|;
        assert lines[1..][i] == lines[i + 1];
      }
      if exists i :: 0 <= i < |lines| && |RowFields(lines[i])| != |headers| {
        var i :| 0 <= i < |lines| && |RowFields(lines[i])| != |headers|;
        if i > 0 {
          assert lines[1..][i - 1] == lines[i];
        }
      }
    }
  }

  /** Analysis i is built from data line i. */
  lemma {:induction false} MetadataRowsInOrder(headers: seq<string>, lines: seq<string>, i: nat)
    requires MetadataRows(headers, lines).Ok? && i < |lines|
    ensures |RowFields(lines[i])| == |headers|
    ensures MetadataRows(headers, lines).value[i] == RowAnalysis(headers, RowFields(lines[i]))
    decreases i
  {
    var fields := RowFields(lines[0]);
    var rest := MetadataRows(headers, lines[1..]);
    assert rest.Ok? && MetadataRows(headers, lines).value == [RowAnalysis(headers, fields)] + rest.value;
    if i > 0 {
      MetadataRowsInOrder(headers, lines[1..], i - 1);
      assert lines[1..][i - 1] == lines[i];
    }
  }

  /** With distinct headers, the last write for header j is field j. */
  lemma {:induction false} ZipLastValue(headers: seq<string>, fields: seq<string>, j: nat)
    requires |headers| == |fields| && j < |headers|
    requires forall p, q :: 0 <= p < q < |headers| ==> headers[p] != headers[q]
    ensures LastValueFor(Zip(headers, fields), headers[j]) == Some(fields[j])
    decreases |headers|
  {
    var n := |headers|;
    if j < n - 1 {
      var h, f := headers[..n - 1], fields[..n - 1];
      assert Zip(headers, fields)[..n - 1] == Zip(h, f);
      ZipLastValue(h, f, j);
    }
  }

  /** Each analysis has property header[i] = field[i] for every column, when the header
      names are distinct (a repeated name keeps its last column's field). */
  lemma RowAnalysisProperty(headers: seq<string>, fields: seq<string>, j: nat)
    requires |headers| == |fields| && j < |headers|
    requires forall p, q :: 0 <= p < q < |headers| ==> headers[p] != headers[q]
    ensures RowAnalysis(headers, fields).GetProperty(headers[j]) == Ok(fields[j])
  {
    ZipLastValue(headers, fields, j);
    GetPropertyReturnsLastWrite(EmptyAnalysis, Zip(headers, fields), headers[j]);
  }

  /** An analysis of the table carries no other property, and nothing else at all. */
  lemma {:induction false} AddPropertiesOnlyAddsKeys(a: AnalysisState, pairs: seq<(string, string)>)
    ensures AddProperties(a, pairs).properties.Keys == a.properties.Keys + set p | p in pairs :: p.0
    ensures AddProperties(a, pairs).(properties := a.properties) == a
    decreases |pairs|
  {
    if pairs != [] {
      AddPropertiesOnlyAddsKeys(a.AddProperty(pairs[0].0, pairs[0].1), pairs[1..]);
      assert (set p | p in pairs :: p.0) == {pairs[0].0} + set p | p in pairs[1..] :: p.0;
    }
  }

  lemma RowAnalysisKeys(headers: seq<string>, fields: seq<string>)
    requires |headers| == |fields|
    ensures RowAnalysis(headers, fields).properties.Keys == set j | 0 <= j < |headers| :: headers[j]
    ensures RowAnalysis(headers, fields).(properties := map[]) == EmptyAnalysis
  {
    var pairs := Zip(headers, fields);
    AddPropertiesOnlyAddsKeys(EmptyAnalysis, pairs);
    var keys := set p | p in pairs :: p.0;
    var named := set j | 0 <= j < |headers| :: headers[j];
    forall k | k in keys ensures k in named {
      var p :| p in pairs && p.0 == k;
      var j :| 0 <= j < |pairs| && pairs[j] == p;
    }
    forall j | 0 <= j < |headers| ensures headers[j] in keys {
      assert pairs[j] in pairs;
    }
    assert keys == named;
  }

  /** A table of a header line alone, or no line at all, describes no analysis. */
  lemma HeaderOnlyTableIsEmpty(csv: string)
    requires |ReadLines(csv)| <= 1
    ensures ParseMetadata(csv) == Ok([])
  {
  }

  /** A successful parse gives one analysis per data line. */
  lemma ParseMetadataCountsRows(csv: string)
    requires ParseMetadata(csv).Ok? && ReadLines(csv) != []
    ensures |ParseMetadata(csv).value| == |ReadLines(csv)| - 1
  {
  }

  // ------------------------------------------------------------------ the method

  /** The rows in front of what the remaining lines give. */
  function Prefixed(done: seq<AnalysisState>, r: Result<seq<AnalysisState>>): Result<seq<AnalysisState>> {
    if r.Ok? then Ok(done + r.value) else r
  }

  /** The body of the loop for one data line: a new analysis, one property per column. */
  method NewRowAnalysis(headers: seq<string>, values: seq<string>) returns (qa: DefaultQCAnalysis)
    requires |headers| == |values|
    ensures fresh(qa) && qa.State() == RowAnalysis(headers, values)
  {
    qa := new DefaultQCAnalysis();
    for j := 0 to |headers|
      invariant qa.State() == AddProperties(EmptyAnalysis, Zip(headers, values)[..j])
    {
      AddPropertiesSnoc(EmptyAnalysis, Zip(headers, values)[..j], (headers[j], values[j]));
      assert Zip(headers, values)[..j + 1] == Zip(headers, values)[..j] + [(headers[j], values[j])];
      qa.AddProperty(headers[j], values[j]);
    }
    assert Zip(headers, values)[..|headers|] == Zip(headers, values);
  }

  /** parseMetadataFile(String): the lines of the text, then processMetadataFile. */
  method ParseMetadataFile(csv: string) returns (r: Result<seq<DefaultQCAnalysis>>)
    ensures r.Err? <==> ParseMetadata(csv).Err?
    ensures r.Err? ==> r.error == InvalidHeaders
    ensures r.Ok? ==> |r.value| == |ParseMetadata(csv).value| &&
                      forall k :: 0 <= k < |r.value| ==> r.value[k].State() == ParseMetadata(csv).value[k]
    ensures r.Ok? ==> forall k :: 0 <= k < |r.value| ==> fresh(r.value[k])
  {
    r := ProcessMetadataFile(ReadLines(csv));
  }

  /** After the first i lines: the headers come from the header line, and the rows built so
      far, followed by what the remaining lines give, are the table's rows. */
  predicate RowsSoFar(lines: seq<string>, headers: seq<string>, states: seq<AnalysisState>, i: nat)
    requires 0 < i <= |lines|
  {
    headers == HeaderFields(lines[0]) &&
    MetadataRows(headers, lines[1..]) == Prefixed(states, MetadataRows(headers, lines[i..]))
  }

  /** processMetadataFile: the reading loop with its first-line flag, one new analysis
      object per data line. */
  method ProcessMetadataFile(lines: seq<string>) returns (r: Result<seq<DefaultQCAnalysis>>)
    ensures r.Err? <==> MetadataTable(lines).Err?
    ensures r.Err? ==> r.error == InvalidHeaders
    ensures r.Ok? ==> |r.value| == |MetadataTable(lines).value| &&
                      forall k :: 0 <= k < |r.value| ==> r.value[k].State() == MetadataTable(lines).value[k]
    ensures r.Ok? ==> forall k :: 0 <= k < |r.value| ==> fresh(r.value[k])
  {
    var qcas: seq<DefaultQCAnalysis> := [];
    ghost var states: seq<AnalysisState> := [];
    var headers: seq<string> := [];
    var first := true;
    var i := 0;
    while i < |lines|
      invariant 0 <= i <= |lines|
      invariant first <==> i == 0
      invariant first ==> qcas == [] && states == []
      invariant !first ==> RowsSoFar(lines, headers, states, i)
      invariant |states| == |qcas| && forall k :: 0 <= k < |qcas| ==> qcas[k].State() == states[k]
      invariant forall k :: 0 <= k < |qcas| ==> fresh(qcas[k])
    {
      if first {
        headers := HeaderFields(lines[i]);
        first := false;
        RowsSoFarStart(lines);
      } else {
        var values := RowFields(lines[i]);
        if |headers| != |values| {
          RowsSoFarMismatch(lines, headers, states, i);
          return Err(InvalidHeaders);
        }
        var qa := NewRowAnalysis(headers, values);
        RowsSoFarStep(lines, headers, states, i);
        qcas := qcas + [qa];
        states := states + [RowAnalysis(headers, values)];
      }
      i := i + 1;
    }
    if !first {
      RowsSoFarEnd(lines, headers, states);
    }
    r := Ok(qcas);
  }

  lemma RowsSoFarStart(lines: seq<string>)
    requires |lines| > 0
    ensures RowsSoFar(lines, HeaderFields(lines[0]), [], 1)
  {
    var all := MetadataRows(HeaderFields(lines[0]), lines[1..]);
    assert all.Ok? ==> [] + all.value == all.value;
  }

  lemma RowsSoFarStep(lines: seq<string>, headers: seq<string>, states: seq<AnalysisState>, i: nat)
    requires 0 < i < |lines| && RowsSoFar(lines, headers, states, i) && |RowFields(lines[i])| == |headers|
    ensures RowsSoFar(lines, headers, states + [RowAnalysis(headers, RowFields(lines[i]))], i + 1)
  {
    RowsStep(states, headers, lines, i);
  }

  lemma RowsSoFarMismatch(lines: seq<string>, headers: seq<string>, states: seq<AnalysisState>, i: nat)
    requires 0 < i < |lines| && RowsSoFar(lines, headers, states, i) && |RowFields(lines[i])| != |headers|
    ensures MetadataTable(lines) == Err(InvalidHeaders)
  {
    RowsRefuseMismatch(headers, lines[i..]);
  }

  lemma RowsSoFarEnd(lines: seq<string>, headers: seq<string>, states: seq<AnalysisState>)
    requires 0 < |lines| && RowsSoFar(lines, headers, states, |lines|)
    ensures MetadataTable(lines) == Ok(states)
  {
    assert lines[|lines|..] == [];
    assert states + [] == states;
  }

  lemma RowsRefuseMismatch(headers: seq<string>, lines: seq<string>)
    requires lines != [] && |RowFields(lines[0])| != |headers|
    ensures MetadataRows(headers, lines) == Err(InvalidHeaders)
  {
  }

  lemma RowsStep(done: seq<AnalysisState>, headers: seq<string>, lines: seq<string>, i: nat)
    requires i < |lines| && |RowFields(lines[i])| == |headers|
    ensures Prefixed(done, MetadataRows(headers, lines[i..])) ==
            Prefixed(done + [RowAnalysis(headers, RowFields(lines[i]))], MetadataRows(headers, lines[i + 1..]))
  {
    assert lines[i..][0] == lines[i] && lines[i..][1..] == lines[i + 1..];
    var rest := MetadataRows(headers, lines[i + 1..]);
    assert rest.Ok? ==> done + ([RowAnalysis(headers, RowFields(lines[i]))] + rest.value) ==
                        (done + [RowAnalysis(headers, RowFields(lines[i]))]) + rest.value;
  }
}
