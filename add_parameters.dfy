/** add_parameters.py: one query option turned into SQL fragments. The option's value is a
    list of elements; each element becomes an equality test on the column run.<name>, the
    tests are OR-ed in parentheses, and the column is added to the selected columns, made
    DISTINCT once several elements are asked for. The script is Python 2. */
module SqlSelections {
  import opened Wrappers
  import opened JavaStrings

  /** The value with ':', ',' and ';' each replaced by a space, one replace after another. */
  function Separated(value: string): string {
    ReplaceChar(ReplaceChar(ReplaceChar(value, ':', ' '), ',', ' '), ';', ' ')
  }

  /** The elements of a value: what split() leaves of it once the separators are spaces. */
  function Elements(value: string): seq<string> {
    PySplit(Separated(value))
  }

  /** The columns whose values are compared as quoted strings (name compared lower-cased). */
  predicate QuotedColumn(name: string) {
    var n := ToLower(name);
    n == "run" || n == "instrument" || n == "barcode" || n == "sample_name"
  }

  /** The equality test for one element: quoted for the text columns, bare otherwise (the
      two branches of the loop body). */
  function Clause(name: string, element: string): string {
    if QuotedColumn(name) then "run." + name + "=\"" + element + "\""
    else "run." + name + "=" + element
  }

  function Clauses(name: string, elements: seq<string>): (r: seq<string>)
    ensures |r| == |elements| && forall i :: 0 <= i < |r| ==> r[i] == Clause(name, elements[i])
    decreases |elements|
  {
    if elements == [] then [] else Clauses(name, elements[..|elements| - 1]) + [Clause(name, elements[|elements| - 1])]
  }

  /** The selections string returned: the column appended, then "DISTINCT " in front when
      there is more than one element and neither spelling of distinct is there yet. */
  function Selected(name: string, value: string, selections: string): (r: string)
    ensures r == selections + "run." + name + " ," || r == "DISTINCT " + selections + "run." + name + " ,"
    ensures r != selections + "run." + name + " ," <==>
              |Elements(value)| > 1 && !Contains(selections + "run." + name + " ,", "distinct") &&
              !Contains(selections + "run." + name + " ,", "DISTINCT")
  {
    var s := selections + "run." + name + " ,";
    if |Elements(value)| > 1 && !Contains(s, "distinct") && !Contains(s, "DISTINCT") then "DISTINCT " + s else s
  }

  // ------------------------------------------------------------------ properties

  lemma ReplaceCharAbsent(x: string, c: char, d: char)
    requires c !in x
    ensures ReplaceChar(x, c, d) == x
  {
  }

  lemma SeparatedAppend(x: string, y: string)
    ensures Separated(x + y) == Separated(x) + Separated(y)
  {
    var a, b := ReplaceChar(x, ':', ' '), ReplaceChar(y, ':', ' ');
    ReplaceCharAppend(x, y, ':', ' ');
    var a', b' := ReplaceChar(a, ',', ' '), ReplaceChar(b, ',', ' ');
    ReplaceCharAppend(a, b, ',', ' ');
    ReplaceCharAppend(a', b', ';', ' ');
  }

  predicate PlainWord(w: string) {
    w != "" && NoneInClass(w, Whitespace) && ':' !in w && ',' !in w && ';' !in w
  }

  lemma {:induction false} SeparatedCommaList(words: seq<string>)
    requires |words| > 0
    requires forall i :: 0 <= i < |words| ==> PlainWord(words[i])
    ensures Separated(Join(",", words)) == Join(" ", words)
    decreases |words|
  {
    var w := words[0];
    ReplaceCharAbsent(w, ':', ' ');
    ReplaceCharAbsent(w, ',', ' ');
    ReplaceCharAbsent(w, ';', ' ');
    if |words| > 1 {
      var rest := Join(",", words[1..]);
      assert Join(",", words) == w + ("," + rest);
      SeparatedAppend(w, "," + rest);
      SeparatedAppend(",", rest);
      assert Separated(",") == " ";
      SeparatedCommaList(words[1..]);
    }
  }

  /** A comma-separated list of plain words gives back those words, in order. */
  lemma ElementsOfCommaList(words: seq<string>)
    requires |words| > 0
    requires forall i :: 0 <= i < |words| ==> PlainWord(words[i])
    ensures Elements(Join(",", words)) == words
  {
    SeparatedCommaList(words);
    PiecesOfJoin(words, ' ', Whitespace);
    NonEmptyKeepsWords(words);
  }

  /** A value made only of separators and whitespace has no element. */
  lemma BlankValueHasNoElements(value: string)
    requires forall i :: 0 <= i < |value| ==> InClass(value[i], Whitespace) || value[i] in ":,;"
    ensures Elements(value) == []
  {
    var s := Separated(value);
    assert forall i :: 0 <= i < |s| ==> InClass(s[i], Whitespace);
    if s == "" {
      assert PiecesBetweenRuns(s, Whitespace) == [""];
    } else {
      assert FirstInClass(s, Whitespace) == Some(0);
      assert RunEnd(s, 0, Whitespace) == |s|;
      assert s[|s|..] == "";
      assert PiecesBetweenRuns(s, Whitespace) == ["", ""];
      assert NonEmpty(["", ""]) == NonEmpty([""]);
    }
    assert NonEmpty([""]) == [];
  }

  lemma {:induction false} IndexFromExtends(s: string, t: string, d: string, k: nat)
    requires |d| > 0 && IndexFrom(s, d, k).Some?
    ensures IndexFrom(s + t, d, k).Some?
    decreases |s| - k
  {
    if s[k..k + |d|] != d {
      IndexFromExtends(s, t, d, k + 1);
    } else {
      assert (s + t)[k..k + |d|] == s[k..k + |d|];
    }
  }

  lemma ContainsExtends(s: string, t: string, d: string)
    requires |d| > 0 && Contains(s, d)
    ensures Contains(s + t, d)
  {
    IndexFromExtends(s, t, d, 0);
  }

  /** Selections that already say DISTINCT (either spelling) only get the column appended. */
  lemma DistinctIsNeverDoubled(name: string, value: string, selections: string)
    requires Contains(selections, "DISTINCT") || Contains(selections, "distinct")
    ensures Selected(name, value, selections) == selections + "run." + name + " ,"
  {
    var t := "run." + name + " ,";
    assert selections + "run." + name + " ," == selections + t;
    if Contains(selections, "DISTINCT") {
      ContainsExtends(selections, t, "DISTINCT");
    } else {
      ContainsExtends(selections, t, "distinct");
    }
  }

  /** Once an option has made the selections DISTINCT, the next option only appends its
      column. */
  lemma DistinctIsAddedOnce(name: string, value: string, selections: string, name': string, value': string)
    requires Selected(name, value, selections) != selections + "run." + name + " ,"
    ensures Selected(name', value', Selected(name, value, selections)) ==
            Selected(name, value, selections) + "run." + name' + " ,"
  {
    var r := Selected(name, value, selections);
    assert r[0..8] == "DISTINCT";
    assert IndexFrom(r, "DISTINCT", 0).Some?;
    DistinctIsNeverDoubled(name', value', r);
  }

  // ------------------------------------------------------------------ the function

  /** selections_conditions(option_name, option_value, selections): the clause loop, then the
      last " or " cut off with [:-4] and the result put in parentheses. */
  method SelectionsConditions(name: string, value: string, selections: string) returns (sel: string, whereClause: string)
    ensures whereClause == "(" + Join(" or ", Clauses(name, Elements(value))) + ")"
    ensures sel == Selected(name, value, selections)
  {
    var elements := Elements(value);
    var length := |elements|;
    var w := "";
    for i := 0 to |elements|
      invariant w == Suffixed(Clauses(name, elements[..i]), " or ")
    {
      assert elements[..i + 1][..i] == elements[..i];
      SuffixedSnoc(Clauses(name, elements[..i]), Clause(name, elements[i]), " or ");
      w := w + Clause(name, elements[i]) + " or ";
    }
    assert elements[..|elements|] == elements;
    LastOrCut(Clauses(name, elements));
    var cut := if |w| >= 4 then w[..|w| - 4] else "";
    whereClause := "(" + cut + ")";
    sel := selections + "run." + name + " ,";
    if length > 1 && !Contains(sel, "distinct") && !Contains(sel, "DISTINCT") {
      sel := "DISTINCT " + sel;
    }
  }

  /** [:-4] takes the last " or " off the clauses, or leaves "" when there is none. */
  lemma LastOrCut(clauses: seq<string>)
    ensures var w := Suffixed(clauses, " or ");
            (if |w| >= 4 then w[..|w| - 4] else "") == Join(" or ", clauses)
  {
    if clauses != [] {
      SuffixedIsJoinThenSuffix(clauses, " or ");
    }
  }
}
