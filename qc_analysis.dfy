/** The measurement model: AbstractQCAnalysis with DefaultQCAnalysis as its constructor.
    AnalysisState is the value of one analysis at a moment, and its member functions say
    what each operation does to it; the class DefaultQCAnalysis holds the same fields and
    its methods update them in place, each proved against those functions. */
module QCAnalysisModel {
  import opened Wrappers
  import opened JavaStrings
  import opened StatsDBUtils
  import opened AnalysisValues

  datatype AnalysisState = AnalysisState(
    id: int,
    properties: map<string, string>,
    valueTypes: map<string, string>,         // value-type key -> scope
    valueDescriptions: map<string, string>,
    generalValues: map<string, string>,
    partitionValues: seq<PartitionValue>,
    positionValues: seq<PositionValue>)
  {
    /** getProperty: the stored value, or an exception naming the analysis id. */
    function GetProperty(key: string): (r: Result<string>)
      ensures key in properties ==> r == Ok(properties[key])
      ensures key !in properties ==> r == Err(NoSuchProperty(id))
    {
      if key in properties then Ok(properties[key]) else Err(NoSuchProperty(id))
    }

    function AddProperty(key: string, value: string): AnalysisState {
      this.(properties := properties[key := value])
    }

    /** addPartitionValue: the range resolved by rangeToSize, its two strings parsed back
        with Long.parseLong, then one PartitionValue appended. */
    function AddPartitionValue(range: JString, key: JString, value: JString): (r: Result<AnalysisState>)
      ensures r.Ok? <==> ParseRange(range).Ok? && Present(key) && Present(value)
      ensures ParseRange(range).Err? ==> r == Err(ParseRange(range).error)
      ensures ParseRange(range).Ok? && !Present(key) ==> r == Err(NullOrEmptyKey)
      ensures ParseRange(range).Ok? && Present(key) && !Present(value) ==> r == Err(NullOrEmptyValue)
      ensures r.Ok? ==>
                var (lo, hi) := ParseRange(range).value;
                var pv := PartitionValue(if hi < lo then hi else lo, if hi < lo then lo - hi + 1 else hi - lo + 1,
                                         key.value, value.value);
                r.value == this.(partitionValues := partitionValues + [pv])
    {
      match RangeToSize(range)
      case Err(e) => Err(e)
      case Ok((offset, size)) =>
        RangeToSizeNormalises(range);
        match ParseLong(offset)
        case Err(e) => Err(e)
        case Ok(position) =>
          match ParseLong(size)
          case Err(e) => Err(e)
          case Ok(n) =>
            match NewPartitionValue(position, n, key, value)
            case Err(e) => Err(e)
            case Ok(pv) => Ok(this.(partitionValues := partitionValues + [pv]))
    }

    /** addPositionValue: the text must match [\d\+]+; every '+' is dropped and the rest
        parsed with Long.parseLong (which refuses the empty string left by "+", "++", ...). */
    function AddPositionValue(position: JString, key: JString, value: JString): (r: Result<AnalysisState>)
      ensures !IsPositionText(position) ==> r == Err(InvalidPosition(position))
      ensures IsPositionText(position) && RemoveChar(position.value, '+') == "" ==> r == Err(NumberFormat(""))
      ensures IsPositionText(position) && RemoveChar(position.value, '+') != "" && !Present(key) ==>
                r == Err(NullOrEmptyKey)
      ensures IsPositionText(position) && RemoveChar(position.value, '+') != "" && Present(key) && !Present(value) ==>
                r == Err(NullOrEmptyValue)
      ensures r.Ok? <==> IsPositionText(position) && RemoveChar(position.value, '+') != "" &&
                         Present(key) && Present(value)
      ensures r.Ok? ==>
                ParseLong(RemoveChar(position.value, '+')).Ok? &&
                var pv := PositionValue(ParseLong(RemoveChar(position.value, '+')).value, key.value, value.value);
                r.value == this.(positionValues := positionValues + [pv])
    {
      if IsPositionText(position) then
        var digits := RemoveChar(position.value, '+');
        RemovePlusLeavesDigits(position.value);
        match ParseLong(digits)
        case Err(e) => Err(e)
        case Ok(n) =>
          match NewPositionValue(n, key, value)
          case Err(e) => Err(e)
          case Ok(pv) => Ok(this.(positionValues := positionValues + [pv]))
      else
        Err(InvalidPosition(position))
    }

    /** addGeneralValue: the value always overwrites; the description is recorded only
        when it is neither null nor "". */
    function AddGeneralValue(key: string, value: string, description: JString): (r: AnalysisState)
      ensures r.generalValues == generalValues[key := value]
      ensures Present(description) ==> r.valueDescriptions == valueDescriptions[key := description.value]
      ensures !Present(description) ==> r.valueDescriptions == valueDescriptions
      ensures r.properties == properties && r.valueTypes == valueTypes && r.id == id
      ensures r.partitionValues == partitionValues && r.positionValues == positionValues
    {
      var s := this.(generalValues := generalValues[key := value]);
      if Present(description) then s.AddValueDescription(key, description.value) else s
    }

    function AddValueType(key: string, scope: string): AnalysisState {
      this.(valueTypes := valueTypes[key := scope])
    }

    function AddValueDescription(key: string, description: string): AnalysisState {
      this.(valueDescriptions := valueDescriptions[key := description])
    }
  }

  /** What DefaultQCAnalysis's constructor produces: id 0, empty maps and lists. */
  const EmptyAnalysis := AnalysisState(0, map[], map[], map[], map[], [], [])

  /** The pattern [\d\+]+ matched against the whole (non-null) text. */
  predicate IsPositionText(position: JString) {
    position.Some? && |position.value| > 0 &&
    forall i :: 0 <= i < |position.value| ==> IsDigit(position.value[i]) || position.value[i] == '+'
  }

  lemma {:induction false} RemovePlusLeavesDigits(s: string)
    requires forall i :: 0 <= i < |s| ==> IsDigit(s[i]) || s[i] == '+'
    ensures AllDigits(RemoveChar(s, '+'))
  {
    if s != [] {
      RemovePlusLeavesDigits(s[1..]);
    }
  }

  lemma {:induction false} RemoveCharOfAbsent(s: string, c: char)
    requires c !in s
    ensures RemoveChar(s, c) == s
  {
    if s != [] {
      RemoveCharOfAbsent(s[1..], c);
    }
  }

  lemma {:induction false} RemoveCharAppend(s: string, t: string, c: char)
    ensures RemoveChar(s + t, c) == RemoveChar(s, c) + RemoveChar(t, c)
  {
    if s == [] {
      assert s + t == t;
    } else {
      assert (s + t)[1..] == s[1..] + t;
      RemoveCharAppend(s[1..], t, c);
    }
  }

  /** A trailing '+' ("12+", "10++") marks an open end and is dropped: the position is the
      number its digits spell. */
  lemma AddPositionValueStripsPlus(a: AnalysisState, digits: string, pluses: nat, key: string, value: string)
    requires |digits| > 0 && AllDigits(digits) && key != "" && value != ""
    ensures var text := digits + seq(pluses, _ => '+');
            a.AddPositionValue(Some(text), Some(key), Some(value)) ==
            Ok(a.(positionValues := a.positionValues + [PositionValue(DecimalValue(digits), key, value)]))
  {
    var tail := seq(pluses, _ => '+');
    var text := digits + tail;
    assert IsPositionText(Some(text)) by {
      forall i | 0 <= i < |text| ensures IsDigit(text[i]) || text[i] == '+' {
        if i >= |digits| { assert text[i] == tail[i - |digits|]; }
      }
    }
    RemoveCharAppend(digits, tail, '+');
    assert forall i :: 0 <= i < |digits| ==> digits[i] != '+';
    RemoveCharOfAbsent(digits, '+');
    RemoveAllOfRepeated(pluses, '+');
    assert RemoveChar(text, '+') == digits;
    assert ParseLong(digits) == Ok(DecimalValue(digits));
    var pv := PositionValue(DecimalValue(digits), key, value);
    assert NewPositionValue(DecimalValue(digits), Some(key), Some(value)) == Ok(pv);
  }

  lemma {:induction false} RemoveAllOfRepeated(n: nat, c: char)
    ensures RemoveChar(seq(n, _ => c), c) == ""
  {
    if n > 0 {
      assert seq(n, _ => c)[1..] == seq(n - 1, _ => c);
      RemoveAllOfRepeated(n - 1, c);
    }
  }

  /** A text made only of '+' passes the pattern but Long.parseLong("") refuses it; a
      text with any other character (a range "1-5", or "") is refused by the pattern. */
  lemma AddPositionValueRefuses(a: AnalysisState, pluses: nat, key: JString, value: JString)
    requires pluses > 0
    ensures a.AddPositionValue(Some(seq(pluses, _ => '+')), key, value) == Err(NumberFormat(""))
    ensures a.AddPositionValue(Some("1-5"), key, value) == Err(InvalidPosition(Some("1-5")))
    ensures a.AddPositionValue(Some(""), key, value) == Err(InvalidPosition(Some("")))
    ensures a.AddPositionValue(None, key, value) == Err(InvalidPosition(None))
  {
    RemoveAllOfRepeated(pluses, '+');
    assert !IsDigit("1-5"[1]);
  }

  // ------------------------------------------------------------------ properties

  /** addProperty applied to each pair in turn. */
  function AddProperties(a: AnalysisState, pairs: seq<(string, string)>): AnalysisState
    decreases |pairs|
  {
    if pairs == [] then a else AddProperties(a.AddProperty(pairs[0].0, pairs[0].1), pairs[1..])
  }

  /** The value of the last pair with this key, if any: a reference definition that does
      not mention the analysis. */
  function LastValueFor(pairs: seq<(string, string)>, key: string): Option<string>
    decreases |pairs|
  {
    if pairs == [] then None
    else if pairs[|pairs| - 1].0 == key then Some(pairs[|pairs| - 1].1)
    else LastValueFor(pairs[..|pairs| - 1], key)
  }

  /** getProperty returns what the most recent addProperty for that key stored, and
      throws for a key that was never added. */
  lemma {:induction false} GetPropertyReturnsLastWrite(a: AnalysisState, pairs: seq<(string, string)>, key: string)
    ensures LastValueFor(pairs, key).Some? ==> AddProperties(a, pairs).GetProperty(key) == Ok(LastValueFor(pairs, key).value)
    ensures LastValueFor(pairs, key).None? ==> AddProperties(a, pairs).GetProperty(key) == a.GetProperty(key)
    decreases |pairs|
  {
    if pairs != [] {
      var init, last := pairs[..|pairs| - 1], pairs[|pairs| - 1];
      AddPropertiesSnoc(a, init, last);
      GetPropertyReturnsLastWrite(a, init, key);
      assert pairs == init + [last];
    }
  }

  lemma {:induction false} AddPropertiesSnoc(a: AnalysisState, init: seq<(string, string)>, last: (string, string))
    ensures AddProperties(a, init + [last]) == AddProperties(a, init).AddProperty(last.0, last.1)
    decreases |init|
  {
    if init == [] {
      assert init + [last] == [last];
    } else {
      assert (init + [last])[1..] == init[1..] + [last];
      AddPropertiesSnoc(a.AddProperty(init[0].0, init[0].1), init[1..], last);
    }
  }

  /** On a fresh analysis, getProperty throws for every key, and every collection is empty. */
  lemma FreshAnalysisIsEmpty(key: string)
    ensures EmptyAnalysis.GetProperty(key) == Err(NoSuchProperty(0))
    ensures EmptyAnalysis.partitionValues == [] && EmptyAnalysis.positionValues == []
  {
  }

  // ------------------------------------------------------------------ the object

  /** An analysis object. Its methods update its fields exactly as the corresponding
      AnalysisState functions say, and touch nothing else. */
  class DefaultQCAnalysis {
    var id: int
    var properties: map<string, string>
    var valueTypes: map<string, string>
    var valueDescriptions: map<string, string>
    var generalValues: map<string, string>
    var partitionValues: seq<PartitionValue>
    var positionValues: seq<PositionValue>

    function State(): AnalysisState
      reads this
    {
      AnalysisState(id, properties, valueTypes, valueDescriptions, generalValues, partitionValues, positionValues)
    }

    /** new DefaultQCAnalysis(): fresh empty maps and lists; the id field starts at 0. */
    constructor ()
      ensures State() == EmptyAnalysis
    {
      id := 0;
      properties, valueTypes, valueDescriptions, generalValues := map[], map[], map[], map[];
      partitionValues, positionValues := [], [];
    }

    method SetId(newId: int)
      modifies this
      ensures State() == old(State()).(id := newId)
    {
      id := newId;
    }

    method GetId() returns (r: int)
      ensures r == State().id
    {
      r := id;
    }

    method GetProperty(key: string) returns (r: Result<string>)
      ensures r == State().GetProperty(key)
    {
      if key in properties {
        r := Ok(properties[key]);
      } else {
        r := Err(NoSuchProperty(id));
      }
    }

    method AddProperty(key: string, value: string)
      modifies this
      ensures State() == old(State()).AddProperty(key, value)
    {
      properties := properties[key := value];
    }

    /** On failure nothing changes and the error is returned, as the exception would be. */
    method AddPartitionValue(range: JString, key: JString, value: JString) returns (failure: Option<Error>)
      modifies this
      ensures match old(State()).AddPartitionValue(range, key, value)
              case Ok(s) => failure.None? && State() == s
              case Err(e) => failure == Some(e) && State() == old(State())
    {
      var r := RangeToSize(range);
      if r.Err? {
        return Some(r.error);
      }
      var (offset, size) := r.value;
      // String.valueOf always produces text that Long.parseLong accepts.
      RangeToSizeNormalises(range);
      var position := ParseLong(offset).value;
      var n := ParseLong(size).value;
      var pv := NewPartitionValue(position, n, key, value);
      if pv.Err? {
        return Some(pv.error);
      }
      partitionValues := partitionValues + [pv.value];
      failure := None;
    }

    method AddPositionValue(position: JString, key: JString, value: JString) returns (failure: Option<Error>)
      modifies this
      ensures match old(State()).AddPositionValue(position, key, value)
              case Ok(s) => failure.None? && State() == s
              case Err(e) => failure == Some(e) && State() == old(State())
    {
      if !IsPositionText(position) {
        return Some(InvalidPosition(position));
      }
      var n := ParseLong(RemoveChar(position.value, '+'));
      if n.Err? {
        return Some(n.error);
      }
      var pv := NewPositionValue(n.value, key, value);
      if pv.Err? {
        return Some(pv.error);
      }
      positionValues := positionValues + [pv.value];
      failure := None;
    }

    method AddGeneralValue(key: string, value: string, description: JString)
      modifies this
      ensures State() == old(State()).AddGeneralValue(key, value, description)
    {
      generalValues := generalValues[key := value];
      if description.Some? && description.value != "" {
        AddValueDescription(key, description.value);
      }
    }

    method AddValueType(key: string, scope: string)
      modifies this
      ensures State() == old(State()).AddValueType(key, scope)
    {
      valueTypes := valueTypes[key := scope];
    }

    method AddValueDescription(key: string, description: string)
      modifies this
      ensures State() == old(State()).AddValueDescription(key, description)
    {
      valueDescriptions := valueDescriptions[key := description];
    }

    /** The list getters hand out the lists in insertion order. */
    method GetPartitionValues() returns (r: seq<PartitionValue>)
      ensures r == State().partitionValues
    {
      r := partitionValues;
    }

    method GetPositionValues() returns (r: seq<PositionValue>)
      ensures r == State().positionValues
    {
      r := positionValues;
    }
  }
}
