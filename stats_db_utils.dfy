/** The range resolver and the capitalisation helper of StatsDBUtils (duplicated as
    statics in the older AbstractQCAnalysis): "a-b" or "n" becomes (min, max) and then
    (offset, inclusive size). Numbers are unbounded; Long overflow is not modelled. */
module StatsDBUtils {
  import opened Wrappers
  import opened JavaStrings

  /** The two groups of a full match of ([0-9]+)-([0-9]+): both sides of the first '-'. */
  function SpanGroups(s: string): (r: Option<(string, string)>)
    ensures r.Some? ==> |r.value.0| > 0 && |r.value.1| > 0
    ensures r.Some? ==> AllDigits(r.value.0) && AllDigits(r.value.1)
    ensures r.Some? ==> s == r.value.0 + "-" + r.value.1
  {
    match IndexOf(s, "-")
    case None => None
    case Some(i) =>
      var a, b := s[..i], s[i + 1..];
      assert s == a + "-" + b;
      if |a| > 0 && |b| > 0 && AllDigits(a) && AllDigits(b) then Some((a, b)) else None
  }

  /** parseRange: the bounds written in "a-b", or (n, n) for "n"; null or any other text
      fails. No reordering happens here. */
  function ParseRange(range: JString): (r: Result<(nat, nat)>)
    ensures range.None? ==> r == Err(NullRange)
    ensures range.Some? && r.Err? ==> r == Err(InvalidRange(range.value))
  {
    match range
    case None => Err(NullRange)
    case Some(s) =>
      match SpanGroups(s)
      case Some((a, b)) => Ok((DecimalValue(a), DecimalValue(b)))
      case None =>
        if |s| > 0 && AllDigits(s) then Ok((DecimalValue(s), DecimalValue(s))) else Err(InvalidRange(s))
  }

  /** rangeToSize: the smaller bound and the inclusive size |to - from| + 1, both rendered
      with String.valueOf. */
  function RangeToSize(range: JString): (r: Result<(string, string)>)
    ensures r.Err? <==> ParseRange(range).Err?
    ensures r.Err? ==> r.error == ParseRange(range).error
  {
    match ParseRange(range)
    case Err(e) => Err(e)
    case Ok((from, to)) =>
      var length := if to - from < 0 then from - to else to - from;
      var offset := if to < from then to else from;
      Ok((NatToString(offset), NatToString(length + 1)))
  }

  /** capitalise: the first character upper-cased; charAt(0) fails on "". */
  function Capitalise(s: string): (r: Result<string>)
    ensures r.Ok? <==> |s| > 0
    ensures r.Err? ==> r.error == StringIndexOutOfBounds
    ensures r.Ok? ==> |r.value| == |s| && r.value[0] == UpperChar(s[0]) && r.value[1..] == s[1..]
  {
    if |s| == 0 then Err(StringIndexOutOfBounds) else Ok([UpperChar(s[0])] + s[1..])
  }

  // ------------------------------------------------------------------ lemmas

  /** The texts the two patterns accept, described without reference to the parser. */
  ghost predicate IsSpanText(s: string) {
    exists x: string, y: string {:trigger x + "-" + y} ::
      |x| > 0 && |y| > 0 && AllDigits(x) && AllDigits(y) && s == x + "-" + y
  }

  ghost predicate IsPointText(s: string) {
    |s| > 0 && AllDigits(s)
  }

  /** "a-b" gives exactly (a, b), as written, whichever is larger. */
  lemma ParseRangeOfSpan(x: string, y: string)
    requires |x| > 0 && |y| > 0 && AllDigits(x) && AllDigits(y)
    ensures ParseRange(Some(x + "-" + y)) == Ok((DecimalValue(x), DecimalValue(y)))
  {
    var s := x + "-" + y;
    IndexFromFinds(s, '-', |x|, 0);
    assert s[..|x|] == x && s[|x| + 1..] == y;
  }

  /** "n" gives (n, n). */
  lemma ParseRangeOfPoint(x: string)
    requires |x| > 0 && AllDigits(x)
    ensures ParseRange(Some(x)) == Ok((DecimalValue(x), DecimalValue(x)))
  {
    IndexFromMisses(x, '-', 0);
  }

  /** parseRange fails exactly on null and on the texts neither pattern accepts. */
  lemma ParseRangeFailsExactly(range: JString)
    ensures ParseRange(range).Err? <==>
              range.None? || (!IsSpanText(range.value) && !IsPointText(range.value))
  {
    if range.Some? {
      var s := range.value;
      if IsSpanText(s) {
        var x: string, y: string :| |x| > 0 && |y| > 0 && AllDigits(x) && AllDigits(y) && s == x + "-" + y;
        ParseRangeOfSpan(x, y);
      } else if IsPointText(s) {
        ParseRangeOfPoint(s);
      }
    }
  }

  /** Texts such as "", "1-", "-1", "abc" and "1-2-3" are refused. */
  lemma ParseRangeRejectsMalformed()
    ensures ParseRange(Some("")).Err? && ParseRange(Some("1-")).Err? && ParseRange(Some("-1")).Err?
    ensures ParseRange(Some("abc")).Err? && ParseRange(Some("1-2-3")).Err?
  {
    IndexFromFinds("1-", '-', 1, 0);
    IndexFromFinds("-1", '-', 0, 0);
    IndexFromFinds("1-2-3", '-', 1, 0);
    assert !AllDigits("2-3") by { assert !IsDigit("2-3"[1]); }
    IndexFromMisses("abc", '-', 0);
  }

  /** The offset is the smaller bound and the size is |b - a| + 1, so at least 1; both
      strings parse back to those numbers. */
  lemma RangeToSizeNormalises(range: JString)
    requires ParseRange(range).Ok?
    ensures var (a, b) := ParseRange(range).value;
            var (off, size) := RangeToSize(range).value;
            ParseLong(off) == Ok(if b < a then b else a) &&
            ParseLong(size) == Ok(if b < a then a - b + 1 else b - a + 1)
  {
    var (a, b) := ParseRange(range).value;
    ParseLongOfNatToString(if b < a then b else a);
    ParseLongOfNatToString(if b < a then a - b + 1 else b - a + 1);
  }

  /** The offset is no larger than either bound and the size is at least 1. */
  lemma RangeToSizeBounds(range: JString)
    requires ParseRange(range).Ok?
    ensures var (a, b) := ParseRange(range).value;
            var (off, size) := RangeToSize(range).value;
            ParseLong(off).Ok? && ParseLong(off).value <= a && ParseLong(off).value <= b &&
            ParseLong(size).Ok? && ParseLong(size).value >= 1
  {
    RangeToSizeNormalises(range);
  }

  /** A reversed span resolves to the same offset and size. */
  lemma RangeToSizeSymmetric(x: string, y: string)
    requires |x| > 0 && |y| > 0 && AllDigits(x) && AllDigits(y)
    ensures RangeToSize(Some(x + "-" + y)) == RangeToSize(Some(y + "-" + x))
  {
    ParseRangeOfSpan(x, y);
    ParseRangeOfSpan(y, x);
  }

  /** A point "n" resolves to offset n and size 1. */
  lemma RangeToSizeOfPoint(x: string)
    requires |x| > 0 && AllDigits(x)
    ensures RangeToSize(Some(x)) == Ok((NatToString(DecimalValue(x)), "1"))
  {
    ParseRangeOfPoint(x);
    var v := DecimalValue(x);
    RangeToSizeOfBounds(Some(x), v, v);
    assert NatToString(1) == "1";
  }

  lemma RangeToSizeOfBounds(range: JString, a: nat, b: nat)
    requires ParseRange(range) == Ok((a, b))
    ensures RangeToSize(range) == Ok((NatToString(if b < a then b else a), NatToString(if b < a then a - b + 1 else b - a + 1)))
  {
  }

  lemma {:induction false} CapitaliseIdempotent(s: string)
    requires |s| > 0
    ensures Capitalise(Capitalise(s).value) == Capitalise(s)
  {
    var c := Capitalise(s).value;
    assert UpperChar(UpperChar(s[0])) == UpperChar(s[0]);
    assert [UpperChar(c[0])] + c[1..] == c;
  }
}
