/** The pieces of java.lang.String, java.util.regex and java.io.BufferedReader that the
    statsdb code relies on, written out with Java's semantics (and the few Python string
    operations the report scripts use). Case mapping is ASCII only. */
module JavaStrings {
  import opened Wrappers

  /** The character classes the source's regular expressions split on. */
  datatype CharClass =
    | Whitespace     // \s  = [ \t\n\x0B\f\r]
    | Tab            // \t
    | MetadataSep    // [\s|,]
    | LineBreak      // what BufferedReader.readLine ends a line at: \n or \r

  predicate IsJavaWhitespace(c: char) {
    c == ' ' || c == '\t' || c == '\n' || c == '\U{000B}' || c == '\U{000C}' || c == '\r'
  }

  predicate InClass(c: char, k: CharClass) {
    match k
    case Whitespace => IsJavaWhitespace(c)
    case Tab => c == '\t'
    case MetadataSep => IsJavaWhitespace(c) || c == '|' || c == ','
    case LineBreak => c == '\n' || c == '\r'
  }

  /** The characters that the regex '.' does not match (no DOTALL flag). */
  predicate IsLineTerminator(c: char) {
    c == '\n' || c == '\r' || c == '\U{0085}' || c == '\U{2028}' || c == '\U{2029}'
  }

  predicate StartsWith(s: string, prefix: string) {
    |prefix| <= |s| && s[..|prefix|] == prefix
  }

  predicate NoneInClass(s: string, k: CharClass) {
    forall i :: 0 <= i < |s| ==> !InClass(s[i], k)
  }

  // ---------------------------------------------------------------- searching

  /** Index of the first occurrence of d in s at or after k. */
  function IndexFrom(s: string, d: string, k: nat): (r: Option<nat>)
    requires |d| > 0
    ensures r.Some? ==> k <= r.value && r.value + |d| <= |s| && s[r.value..r.value + |d|] == d
    decreases |s| - k
  {
    if k + |d| > |s| then None
    else if s[k..k + |d|] == d then Some(k)
    else IndexFrom(s, d, k + 1)
  }

  function IndexOf(s: string, d: string): Option<nat>
    requires |d| > 0
  {
    IndexFrom(s, d, 0)
  }

  /** Python's `sub in s` and Java's String.contains. */
  predicate Contains(s: string, sub: string) {
    |sub| == 0 || IndexOf(s, sub).Some?
  }

  /** Index of the first character of s in class k. */
  function FirstInClass(s: string, k: CharClass): (r: Option<nat>)
    ensures r.Some? ==> r.value < |s| && InClass(s[r.value], k) && NoneInClass(s[..r.value], k)
    ensures r.None? ==> NoneInClass(s, k)
  {
    if s == [] then None
    else if InClass(s[0], k) then Some(0)
    else
      match FirstInClass(s[1..], k)
      case None => None
      case Some(i) => Some(i + 1)
  }

  /** The end of the maximal run of class-k characters that starts at i. */
  function RunEnd(s: string, i: nat, k: CharClass): (j: nat)
    requires i <= |s|
    ensures i <= j <= |s|
    ensures forall m :: i <= m < j ==> InClass(s[m], k)
    ensures j < |s| ==> !InClass(s[j], k)
    decreases |s| - i
  {
    if i < |s| && InClass(s[i], k) then RunEnd(s, i + 1, k) else i
  }

  // ---------------------------------------------------------------- splitting

  /** The pieces of s between occurrences of d, left to right, keeping every empty piece. */
  function PiecesOn(s: string, d: string): (r: seq<string>)
    requires |d| > 0
    ensures |r| >= 1
    decreases |s|
  {
    match IndexOf(s, d)
    case None => [s]
    case Some(i) => [s[..i]] + PiecesOn(s[i + |d|..], d)
  }

  /** The pieces of s between maximal runs of class-k characters, keeping every empty piece. */
  function PiecesBetweenRuns(s: string, k: CharClass): (r: seq<string>)
    ensures |r| >= 1
    decreases |s|
  {
    match FirstInClass(s, k)
    case None => [s]
    case Some(i) => [s[..i]] + PiecesBetweenRuns(s[RunEnd(s, i, k)..], k)
  }

  function DropTrailingEmpty(pieces: seq<string>): (r: seq<string>)
    ensures |r| <= |pieces| && r == pieces[..|r|]
    ensures |r| > 0 ==> r[|r| - 1] != ""
    ensures forall i :: |r| <= i < |pieces| ==> pieces[i] == ""
  {
    if |pieces| > 0 && pieces[|pieces| - 1] == "" then DropTrailingEmpty(pieces[..|pieces| - 1]) else pieces
  }

  /** Java's s.split(d) for a literal delimiter d (the regexes "\\n", "\\t", ">>END_MODULE"):
      no occurrence gives [s]; otherwise the pieces without their trailing empty ones. */
  function SplitOn(s: string, d: string): seq<string>
    requires |d| > 0
  {
    if IndexOf(s, d).None? then [s] else DropTrailingEmpty(PiecesOn(s, d))
  }

  /** Java's s.split(X+) for a character class X (the regexes "\\s+", "\\t+", "[\\s|,]+"). */
  function SplitRuns(s: string, k: CharClass): seq<string> {
    if FirstInClass(s, k).None? then [s] else DropTrailingEmpty(PiecesBetweenRuns(s, k))
  }

  /** Java's s.replaceAll(X+, rep): every maximal run of class-k characters becomes rep. */
  function ReplaceRuns(s: string, k: CharClass, rep: string): string {
    Join(rep, PiecesBetweenRuns(s, k))
  }

  /** Python 2's s.split() with no argument on a byte string: the non-empty pieces between
      runs of the same six ASCII whitespace characters as Java's \s. */
  function PySplit(s: string): (r: seq<string>)
    ensures forall i :: 0 <= i < |r| ==> r[i] != ""
  {
    NonEmpty(PiecesBetweenRuns(s, Whitespace))
  }

  function NonEmpty(pieces: seq<string>): (r: seq<string>)
    ensures forall i :: 0 <= i < |r| ==> r[i] != ""
  {
    if pieces == [] then []
    else if pieces[0] == "" then NonEmpty(pieces[1..])
    else [pieces[0]] + NonEmpty(pieces[1..])
  }

  // ---------------------------------------------------------------- building

  /** String.join / Python's sep.join. */
  function Join(sep: string, parts: seq<string>): string {
    if parts == [] then ""
    else if |parts| == 1 then parts[0]
    else parts[0] + sep + Join(sep, parts[1..])
  }

  function Concat(parts: seq<string>): string {
    if parts == [] then "" else parts[0] + Concat(parts[1..])
  }

  /** Every part followed by sfx: lines each ended by "\n", clauses each followed by " or ". */
  function Suffixed(parts: seq<string>, sfx: string): string {
    if parts == [] then "" else parts[0] + sfx + Suffixed(parts[1..], sfx)
  }

  /** Every occurrence of character c removed (replaceAll("\\+", "")). */
  function RemoveChar(s: string, c: char): (r: string)
    ensures c !in r
  {
    if s == [] then ""
    else if s[0] == c then RemoveChar(s[1..], c)
    else [s[0]] + RemoveChar(s[1..], c)
  }

  /** Python's s.replace(a, b) for single characters. */
  function ReplaceChar(s: string, a: char, b: char): (r: string)
    ensures |r| == |s|
  {
    seq(|s|, i requires 0 <= i < |s| => if s[i] == a then b else s[i])
  }

  function LowerChar(c: char): char {
    if 'A' <= c <= 'Z' then (c as int - 'A' as int + 'a' as int) as char else c
  }

  function UpperChar(c: char): char {
    if 'a' <= c <= 'z' then (c as int - 'a' as int + 'A' as int) as char else c
  }

  function ToLower(s: string): (r: string)
    ensures |r| == |s|
  {
    seq(|s|, i requires 0 <= i < |s| => LowerChar(s[i]))
  }

  function ToUpper(s: string): (r: string)
    ensures |r| == |s|
  {
    seq(|s|, i requires 0 <= i < |s| => UpperChar(s[i]))
  }

  // ---------------------------------------------------------------- reading lines

  /** The lines BufferedReader.readLine returns one by one: a line ends at "\n", "\r" or
      "\r\n", which is not part of it, and a last line without terminator still counts. */
  function ReadLines(text: string): (r: seq<string>)
    decreases |text|
  {
    match FirstInClass(text, LineBreak)
    case None => if text == "" then [] else [text]
    case Some(i) =>
      var next := if text[i] == '\r' && i + 1 < |text| && text[i + 1] == '\n' then i + 2 else i + 1;
      [text[..i]] + ReadLines(text[next..])
  }

  // ---------------------------------------------------------------- numbers

  predicate IsDigit(c: char) {
    '0' <= c <= '9'
  }

  predicate AllDigits(s: string) {
    forall i :: 0 <= i < |s| ==> IsDigit(s[i])
  }

  function DigitValue(c: char): nat
    requires IsDigit(c)
  {
    c as int - '0' as int
  }

  function DigitChar(d: nat): (c: char)
    requires d < 10
    ensures IsDigit(c) && DigitValue(c) == d
  {
    ('0' as int + d) as char
  }

  /** The number a string of decimal digits denotes. */
  function DecimalValue(s: string): nat
    requires AllDigits(s)
    decreases |s|
  {
    if s == [] then 0 else DecimalValue(s[..|s| - 1]) * 10 + DigitValue(s[|s| - 1])
  }

  /** String.valueOf(long) for a non-negative number. */
  function NatToString(n: nat): (r: string)
    ensures |r| > 0 && AllDigits(r)
  {
    if n < 10 then [DigitChar(n)] else NatToString(n / 10) + [DigitChar(n % 10)]
  }

  /** Python's str(i) for an int. */
  function IntToString(i: int): string {
    if i < 0 then "-" + NatToString(-i) else NatToString(i)
  }

  /** Long.parseLong on the unsigned digit strings the source hands it; any other text
      raises NumberFormatException. */
  function ParseLong(s: string): (r: Result<nat>)
    ensures r.Ok? <==> |s| > 0 && AllDigits(s)
  {
    if |s| > 0 && AllDigits(s) then Ok(DecimalValue(s)) else Err(NumberFormat(s))
  }

  // ---------------------------------------------------------------- lemmas

  /** A single-character delimiter is found at its first occurrence at or after k. */
  lemma {:induction false} IndexFromFinds(s: string, c: char, i: nat, k: nat)
    requires k <= i < |s| && s[i] == c
    requires forall j :: k <= j < i ==> s[j] != c
    ensures IndexFrom(s, [c], k) == Some(i)
    decreases i - k
  {
    assert s[k..k + 1] == [s[k]];
    if k < i {
      IndexFromFinds(s, c, i, k + 1);
    }
  }

  lemma {:induction false} IndexFromMisses(s: string, c: char, k: nat)
    requires k <= |s|
    requires forall j :: k <= j < |s| ==> s[j] != c
    ensures IndexFrom(s, [c], k) == None
    decreases |s| - k
  {
    if k < |s| {
      assert s[k..k + 1] == [s[k]];
      IndexFromMisses(s, c, k + 1);
    }
  }

  /** split on a single character gives back the two sides of its only occurrence. */
  lemma SplitOnPair(x: string, y: string, c: char)
    requires c !in x && c !in y && y != ""
    ensures SplitOn(x + [c] + y, [c]) == [x, y]
  {
    var s := x + [c] + y;
    IndexFromFinds(s, c, |x|, 0);
    assert s[..|x|] == x && s[|x| + 1..] == y;
    IndexFromMisses(y, c, 0);
    assert PiecesOn(y, [c]) == [y];
    assert PiecesOn(s, [c]) == [x] + [y];
    assert DropTrailingEmpty([x, y]) == [x, y];
  }

  lemma {:induction false} FirstInClassAfter(x: string, y: string, k: CharClass)
    requires NoneInClass(x, k) && |y| > 0 && InClass(y[0], k)
    ensures FirstInClass(x + y, k) == Some(|x|)
    decreases |x|
  {
    if x != [] {
      assert (x + y)[1..] == x[1..] + y;
      FirstInClassAfter(x[1..], y, k);
    }
  }

  /** Non-empty words free of class k, joined by one class-k character, come back out of
      the split on runs of k unchanged. */
  lemma {:induction false} PiecesOfJoin(words: seq<string>, sep: char, k: CharClass)
    requires |words| > 0 && InClass(sep, k)
    requires forall j :: 0 <= j < |words| ==> words[j] != "" && NoneInClass(words[j], k)
    ensures PiecesBetweenRuns(Join([sep], words), k) == words
    ensures FirstInClass(Join([sep], words), k).None? <==> |words| == 1
    decreases |words|
  {
    if |words| > 1 {
      var rest := words[1..];
      assert forall j :: 0 <= j < |rest| ==> rest[j] == words[j + 1];
      var r := Join([sep], rest);
      assert Join([sep], words) == words[0] + ([sep] + r);
      JoinStartsWithFirst(rest, sep);
      PiecesAfterSeparator(words[0], sep, r, k);
      PiecesOfJoin(rest, sep, k);
    } else {
      assert Join([sep], words) == words[0];
      assert NoneInClass(words[0], k);
      assert FirstInClass(words[0], k).None?;
    }
  }

  /** One word, one separator, then text that starts outside the class: the word is the
      first piece and the text gives the rest. */
  lemma PiecesAfterSeparator(w: string, sep: char, r: string, k: CharClass)
    requires NoneInClass(w, k) && InClass(sep, k) && |r| > 0 && !InClass(r[0], k)
    ensures FirstInClass(w + ([sep] + r), k) == Some(|w|)
    ensures PiecesBetweenRuns(w + ([sep] + r), k) == [w] + PiecesBetweenRuns(r, k)
  {
    var s := w + ([sep] + r);
    FirstInClassAfter(w, [sep] + r, k);
    RunEndAfterSeparator(w, sep, r, k);
    assert s[|w| + 1..] == r && s[..|w|] == w;
  }

  lemma JoinStartsWithFirst(words: seq<string>, sep: char)
    requires |words| > 0 && words[0] != ""
    ensures |Join([sep], words)| > 0 && Join([sep], words)[0] == words[0][0]
  {
    if |words| > 1 {
      assert Join([sep], words) == words[0] + ([sep] + Join([sep], words[1..]));
    }
  }

  lemma RunEndAfterSeparator(w: string, sep: char, r: string, k: CharClass)
    requires InClass(sep, k) && |r| > 0 && !InClass(r[0], k)
    ensures RunEnd(w + ([sep] + r), |w|, k) == |w| + 1
  {
    var s := w + ([sep] + r);
    assert s[|w|] == sep && s[|w| + 1] == r[0];
    assert RunEnd(s, |w| + 1, k) == |w| + 1;
  }

  lemma SplitRunsOfJoin(words: seq<string>, sep: char, k: CharClass)
    requires |words| > 0 && InClass(sep, k)
    requires forall j :: 0 <= j < |words| ==> words[j] != "" && NoneInClass(words[j], k)
    ensures SplitRuns(Join([sep], words), k) == words
  {
    PiecesOfJoin(words, sep, k);
  }

  /** Lines free of line breaks, each written with its "\n", read back as the same lines. */
  lemma {:induction false} ReadLinesOfSuffixed(lines: seq<string>)
    requires forall i :: 0 <= i < |lines| ==> NoneInClass(lines[i], LineBreak)
    ensures ReadLines(Suffixed(lines, "\n")) == lines
    decreases |lines|
  {
    if lines != [] {
      var rest := Suffixed(lines[1..], "\n");
      assert Suffixed(lines, "\n") == lines[0] + ("\n" + rest);
      ReadLinesAfterLine(lines[0], rest);
      ReadLinesOfSuffixed(lines[1..]);
    }
  }

  /** A line free of line breaks, then "\n": that line, then the lines of what follows. */
  lemma ReadLinesAfterLine(l: string, rest: string)
    requires NoneInClass(l, LineBreak)
    ensures ReadLines(l + ("\n" + rest)) == [l] + ReadLines(rest)
  {
    var s := l + ("\n" + rest);
    FirstInClassAfter(l, "\n" + rest, LineBreak);
    assert s[|l|] == '\n';
    assert s[..|l|] == l && s[|l| + 1..] == rest;
  }

  /** One more part appends it and its suffix. */
  lemma {:induction false} SuffixedSnoc(parts: seq<string>, part: string, sfx: string)
    ensures Suffixed(parts + [part], sfx) == Suffixed(parts, sfx) + part + sfx
    decreases |parts|
  {
    if parts == [] {
      assert [] + [part] == [part];
    } else {
      assert (parts + [part])[1..] == parts[1..] + [part];
      SuffixedSnoc(parts[1..], part, sfx);
    }
  }

  /** Dropping the last suffix leaves the parts joined by it. */
  lemma {:induction false} SuffixedIsJoinThenSuffix(parts: seq<string>, sfx: string)
    requires parts != []
    ensures Suffixed(parts, sfx) == Join(sfx, parts) + sfx
    decreases |parts|
  {
    if |parts| > 1 {
      SuffixedIsJoinThenSuffix(parts[1..], sfx);
      assert Suffixed(parts, sfx) == parts[0] + sfx + (Join(sfx, parts[1..]) + sfx);
    } else {
      assert Suffixed(parts[1..], sfx) == "";
    }
  }

  /** Python's s.replace(a, b) maps each character on its own. */
  lemma ReplaceCharAppend(x: string, y: string, c: char, d: char)
    ensures ReplaceChar(x + y, c, d) == ReplaceChar(x, c, d) + ReplaceChar(y, c, d)
  {
    assert forall k :: 0 <= k < |x + y| ==>
      ReplaceChar(x + y, c, d)[k] == (ReplaceChar(x, c, d) + ReplaceChar(y, c, d))[k];
  }

  /** Python's split() keeps pieces that are all non-empty, in order. */
  lemma {:induction false} NonEmptyKeepsWords(pieces: seq<string>)
    requires forall i :: 0 <= i < |pieces| ==> pieces[i] != ""
    ensures NonEmpty(pieces) == pieces
    decreases |pieces|
  {
    if pieces != [] {
      NonEmptyKeepsWords(pieces[1..]);
    }
  }

  /** The pieces between runs of class k hold no class-k character. */
  lemma {:induction false} PiecesBetweenRunsNoneInClass(s: string, k: CharClass)
    ensures forall i :: 0 <= i < |PiecesBetweenRuns(s, k)| ==> NoneInClass(PiecesBetweenRuns(s, k)[i], k)
    decreases |s|
  {
    match FirstInClass(s, k)
    case None =>
    case Some(i) =>
      var rest := s[RunEnd(s, i, k)..];
      PiecesBetweenRunsNoneInClass(rest, k);
      assert PiecesBetweenRuns(s, k) == [s[..i]] + PiecesBetweenRuns(rest, k);
  }

  /** A text free of class k is one piece, and replacing the runs of k in it changes nothing. */
  lemma ReplaceRunsOfPlain(s: string, k: CharClass, rep: string)
    requires NoneInClass(s, k)
    ensures PiecesBetweenRuns(s, k) == [s] && ReplaceRuns(s, k, rep) == s
  {
  }

  /** Joining pieces free of class k with a separator outside k gives a string free of k. */
  lemma {:induction false} JoinNoneInClass(sep: string, parts: seq<string>, k: CharClass)
    requires NoneInClass(sep, k)
    requires forall i :: 0 <= i < |parts| ==> NoneInClass(parts[i], k)
    ensures NoneInClass(Join(sep, parts), k)
    decreases |parts|
  {
    if |parts| > 1 {
      JoinNoneInClass(sep, parts[1..], k);
      var s := Join(sep, parts);
      assert s == parts[0] + sep + Join(sep, parts[1..]);
      forall i | 0 <= i < |s| ensures !InClass(s[i], k) {
        if i >= |parts[0]| + |sep| {
          assert s[i] == Join(sep, parts[1..])[i - |parts[0]| - |sep|];
        } else if i >= |parts[0]| {
          assert s[i] == sep[i - |parts[0]|];
        } else {
          assert s[i] == parts[0][i];
        }
      }
    }
  }

  lemma {:induction false} DecimalValueOfNatToString(n: nat)
    ensures DecimalValue(NatToString(n)) == n
  {
    if n >= 10 {
      var s := NatToString(n);
      DecimalValueOfNatToString(n / 10);
      assert s[..|s| - 1] == NatToString(n / 10);
    }
  }

  lemma ParseLongOfNatToString(n: nat)
    ensures ParseLong(NatToString(n)) == Ok(n)
  {
    DecimalValueOfNatToString(n);
  }
}
