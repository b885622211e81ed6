/**
 * What a generated truth table holds: when no table is produced and why, the
 * shape of the table and the meaning of its rows, and, for a formula written
 * with full parentheses, that the result column is the formula's truth value.
 */
module TableProofs {
  import opened Wrappers
  import opened Parser
  import opened ParserProofs
  import opened Evaluator
  import opened EvaluatorProofs
  import opened Combinations
  import opened Formulas
  import opened TruthTable

  /**
   * Evaluating the rows fails exactly when the first row fails, with the same
   * error: a table is produced whole or not at all.
   */
  lemma TableRowsAllOrNothing(postfix: seq<Token>, variables: seq<char>, combinations: seq<seq<bool>>)
    requires Resolvable(postfix, variables)
    requires forall i :: 0 <= i < |combinations| ==> |combinations[i]| == |variables|
    requires combinations != []
    ensures TableRows(postfix, variables, combinations).Err? <==> Evaluate(postfix, variables, combinations[0]).Err?
    ensures TableRows(postfix, variables, combinations).Err? ==>
      TableRows(postfix, variables, combinations).error == Evaluate(postfix, variables, combinations[0]).error
  {
    TableRowsMeaning(postfix, variables, combinations);
    var r := TableRows(postfix, variables, combinations);
    if r.Err? {
      var i :| FirstFailure(postfix, variables, combinations, i, r.error);
      EvaluateErrorIgnoresValues(postfix, variables, combinations[i], combinations[0]);
    }
  }

  /**
   * No table is produced exactly when the trimmed input is blank (`Empty`),
   * when a character is unknown or the parentheses do not balance (the
   * converter's error), or when the postfix form does not reduce to one value
   * (an operator short of operands, or values left over).
   */
  lemma TruthTableErrors(input: seq<char>)
    ensures TruthTableOf(input) == Err(Empty) <==> Trim(input) == []
    ensures Trim(input) != [] && BalanceCheck(Trim(input), 0).Err? ==>
      TruthTableOf(input) == Err(ParseFailed(BalanceCheck(Trim(input), 0).error))
    ensures BalanceCheck(Trim(input), 0).Ok? ==> ToPostfix(Trim(input)).Ok?
    ensures Trim(input) != [] && BalanceCheck(Trim(input), 0).Ok? ==>
      (TruthTableOf(input).Ok? <==> HeightCheck(ToPostfix(Trim(input)).value, 0) == Ok(1))
    ensures Trim(input) != [] && BalanceCheck(Trim(input), 0).Ok? && HeightCheck(ToPostfix(Trim(input)).value, 0).Err? ==>
      TruthTableOf(input) == Err(EvalFailed(InsufficientOperands))
    ensures (Trim(input) != [] && BalanceCheck(Trim(input), 0).Ok? && HeightCheck(ToPostfix(Trim(input)).value, 0).Ok?
             && HeightCheck(ToPostfix(Trim(input)).value, 0).value != 1) ==>
      TruthTableOf(input) == Err(EvalFailed(Malformed))
  {
    var expression := Trim(input);
    ToPostfixFailsLikeBalanceCheck(expression);
    if expression != [] && Parse(expression).Ok? {
      TableOutcome(input, Parse(expression).value);
    }
  }

  /** A parsed input yields a table exactly when evaluation of its first row succeeds. */
  lemma TableOutcome(input: seq<char>, parsed: Parsed)
    requires Trim(input) != [] && Parse(Trim(input)) == Ok(parsed)
    ensures TruthTableOf(input).Ok? <==> HeightCheck(parsed.postfix, 0) == Ok(1)
    ensures HeightCheck(parsed.postfix, 0).Err? ==> TruthTableOf(input) == Err(EvalFailed(InsufficientOperands))
    ensures HeightCheck(parsed.postfix, 0).Ok? && HeightCheck(parsed.postfix, 0).value != 1 ==>
      TruthTableOf(input) == Err(EvalFailed(Malformed))
  {
    ParseFacts(Trim(input));
    TabulateOutcome(parsed, Trim(input));
  }

  /** Tabulating a parse succeeds exactly when its postfix form reduces to one value. */
  lemma TabulateOutcome(parsed: Parsed, expression: seq<char>)
    requires Resolvable(parsed.postfix, parsed.variables)
    ensures Tabulate(parsed, expression).Ok? <==> HeightCheck(parsed.postfix, 0) == Ok(1)
    ensures HeightCheck(parsed.postfix, 0).Err? ==> Tabulate(parsed, expression) == Err(EvalFailed(InsufficientOperands))
    ensures HeightCheck(parsed.postfix, 0).Ok? && HeightCheck(parsed.postfix, 0).value != 1 ==>
      Tabulate(parsed, expression) == Err(EvalFailed(Malformed))
  {
    var rows := AllRows(|parsed.variables|);
    assert |rows[0]| == |parsed.variables|;
    TableRowsAllOrNothing(parsed.postfix, parsed.variables, rows);
    EvaluateFailsByShape(parsed.postfix, parsed.variables, rows[0]);
  }

  /**
   * A produced table has one header cell per variable, in ascending order,
   * then the trimmed input; it has 2^n rows for n variables, and row `i`
   * holds the n-bit binary form of `i`, most significant bit first, followed
   * by the value of the expression under that assignment.
   */
  lemma TruthTableShape(input: seq<char>)
    requires TruthTableOf(input).Ok?
    ensures Trim(input) != [] && Parse(Trim(input)).Ok?
    ensures Resolvable(Parse(Trim(input)).value.postfix, Parse(Trim(input)).value.variables)
    ensures var variables := Parse(Trim(input)).value.variables;
      var table := TruthTableOf(input).value;
      |table.header| == |variables| + 1 && table.header[|variables|] == Trim(input)
      && (forall j :: 0 <= j < |variables| ==> table.header[j] == [variables[j]])
    ensures var parsed := Parse(Trim(input)).value;
      var n := |parsed.variables|;
      var rows := TruthTableOf(input).value.rows;
      |rows| == Pow2(n)
      && forall i :: 0 <= i < |rows| ==>
        |rows[i]| == n + 1 && Value(rows[i][..n]) == i
        && Evaluate(parsed.postfix, parsed.variables, rows[i][..n]) == Ok(rows[i][n])
  {
    var parsed, rows := TableParts(input);
    TabulatedRows(parsed, rows);
  }

  /** Row `i` of tabulated rows is the binary form of `i` followed by its evaluation. */
  lemma TabulatedRows(parsed: Parsed, rows: seq<seq<bool>>)
    requires Resolvable(parsed.postfix, parsed.variables)
    requires TableRows(parsed.postfix, parsed.variables, AllRows(|parsed.variables|)) == Ok(rows)
    ensures var n := |parsed.variables|;
      |rows| == Pow2(n)
      && forall i :: 0 <= i < |rows| ==>
        |rows[i]| == n + 1 && Value(rows[i][..n]) == i
        && Evaluate(parsed.postfix, parsed.variables, rows[i][..n]) == Ok(rows[i][n])
  {
    var n := |parsed.variables|;
    TableRowsMeaning(parsed.postfix, parsed.variables, AllRows(n));
    forall i | 0 <= i < |rows|
      ensures |rows[i]| == n + 1 && Value(rows[i][..n]) == i
      ensures Evaluate(parsed.postfix, parsed.variables, rows[i][..n]) == Ok(rows[i][n])
    {
      assert rows[i][..n] == Row(i, n);
      ValueOfRow(i, n);
    }
  }

  /** The parse and the rows behind a produced table. */
  lemma TableParts(input: seq<char>) returns (parsed: Parsed, rows: seq<seq<bool>>)
    requires TruthTableOf(input).Ok?
    ensures Trim(input) != [] && Parse(Trim(input)) == Ok(parsed)
    ensures Resolvable(parsed.postfix, parsed.variables)
    ensures TableRows(parsed.postfix, parsed.variables, AllRows(|parsed.variables|)) == Ok(rows)
    ensures TruthTableOf(input) == Ok(Table(Header(parsed.variables, Trim(input)), rows))
  {
    parsed := Parse(Trim(input)).value;
    ParseResolvable(Trim(input));
    assert TruthTableOf(input) == Tabulate(parsed, Trim(input));
    rows := TabulateParts(parsed, Trim(input));
  }

  /** The rows behind a successful tabulation. */
  lemma TabulateParts(parsed: Parsed, expression: seq<char>) returns (rows: seq<seq<bool>>)
    requires Resolvable(parsed.postfix, parsed.variables)
    requires Tabulate(parsed, expression).Ok?
    ensures TableRows(parsed.postfix, parsed.variables, AllRows(|parsed.variables|)) == Ok(rows)
    ensures Tabulate(parsed, expression) == Ok(Table(Header(parsed.variables, expression), rows))
  {
    rows := TableRows(parsed.postfix, parsed.variables, AllRows(|parsed.variables|)).value;
  }

  /**
   * A formula written out with full parentheses has a table, and the result
   * column of that table is the formula's truth value under each row's
   * assignment to its letters in ascending order.
   */
  lemma TableOfFormula(f: Formula)
    requires WellNamed(f)
    ensures TruthTableOf(Print(f)).Ok?
    ensures var variables := SortedLetters(Atoms(f));
      var n := |variables|;
      var rows := TruthTableOf(Print(f)).value.rows;
      |rows| == Pow2(n)
      && forall i :: 0 <= i < Pow2(n) ==>
        Atoms(f) <= Lookup(variables, Row(i, n)).Keys
        && rows[i] == Row(i, n) + [Holds(f, Lookup(variables, Row(i, n)))]
  {
    var rows := FormulaTable(f);
    FormulaRowsByIndex(f, rows);
  }

  /** The rows evaluated for a formula hold its truth value under each row's assignment. */
  lemma FormulaRowsByIndex(f: Formula, rows: seq<seq<bool>>)
    requires WellNamed(f)
    requires Resolvable(Postfix(f), SortedLetters(Atoms(f)))
    requires TableRows(Postfix(f), SortedLetters(Atoms(f)), AllRows(|SortedLetters(Atoms(f))|)) == Ok(rows)
    ensures var variables := SortedLetters(Atoms(f));
      var n := |variables|;
      |rows| == Pow2(n)
      && forall i :: 0 <= i < Pow2(n) ==>
        Atoms(f) <= Lookup(variables, Row(i, n)).Keys
        && rows[i] == Row(i, n) + [Holds(f, Lookup(variables, Row(i, n)))]
  {
    var variables := SortedLetters(Atoms(f));
    var n := |variables|;
    SortedAtomsMembers(f);
    AllRowsWidth(n);
    FormulaRows(f, variables, AllRows(n));
    RowsByIndex(f, variables, rows, n);
  }

  /** Rows given per assignment of the enumeration, restated per row number. */
  lemma RowsByIndex(f: Formula, variables: seq<char>, rows: seq<seq<bool>>, n: nat)
    requires |variables| == n && |rows| == Pow2(n)
    requires forall i :: 0 <= i < Pow2(n) ==>
      Atoms(f) <= Lookup(variables, AllRows(n)[i]).Keys
      && rows[i] == AllRows(n)[i] + [Holds(f, Lookup(variables, AllRows(n)[i]))]
    ensures forall i :: 0 <= i < Pow2(n) ==>
      Atoms(f) <= Lookup(variables, Row(i, n)).Keys
      && rows[i] == Row(i, n) + [Holds(f, Lookup(variables, Row(i, n)))]
  {
    forall i | 0 <= i < Pow2(n)
      ensures Atoms(f) <= Lookup(variables, Row(i, n)).Keys
      ensures rows[i] == Row(i, n) + [Holds(f, Lookup(variables, Row(i, n)))]
    {
      assert AllRows(n)[i] == Row(i, n);
    }
  }

  /** The table of a formula written out is assembled from its letters, its postfix form and its rows. */
  lemma FormulaTable(f: Formula) returns (rows: seq<seq<bool>>)
    requires WellNamed(f)
    ensures Resolvable(Postfix(f), SortedLetters(Atoms(f)))
    ensures TableRows(Postfix(f), SortedLetters(Atoms(f)), AllRows(|SortedLetters(Atoms(f))|)) == Ok(rows)
    ensures TruthTableOf(Print(f)) == Ok(Table(Header(SortedLetters(Atoms(f)), Print(f)), rows))
  {
    rows := FormulaTableRows(f);
    FormulaParsed(f);
    TableFromParts(Print(f), Parsed(SortedLetters(Atoms(f)), Postfix(f)), rows);
  }

  /** The rows of a formula's table, over its sorted atoms, are all computed. */
  lemma FormulaTableRows(f: Formula) returns (rows: seq<seq<bool>>)
    requires WellNamed(f)
    ensures Resolvable(Postfix(f), SortedLetters(Atoms(f)))
    ensures TableRows(Postfix(f), SortedLetters(Atoms(f)), AllRows(|SortedLetters(Atoms(f))|)) == Ok(rows)
  {
    var variables := SortedLetters(Atoms(f));
    var combinations := AllRows(|variables|);
    SortedAtomsMembers(f);
    AllRowsWidth(|variables|);
    FormulaRowsSucceed(f, variables, combinations);
    rows := TableRows(Postfix(f), variables, combinations).value;
  }

  /** A table is assembled from the parse of the trimmed input and the rows evaluated from it. */
  lemma TableFromParts(input: seq<char>, parsed: Parsed, rows: seq<seq<bool>>)
    requires Trim(input) != [] && Parse(Trim(input)) == Ok(parsed)
    requires Resolvable(parsed.postfix, parsed.variables)
    requires TableRows(parsed.postfix, parsed.variables, AllRows(|parsed.variables|)) == Ok(rows)
    ensures TruthTableOf(input) == Ok(Table(Header(parsed.variables, Trim(input)), rows))
  {
    assert TruthTableOf(input) == Tabulate(parsed, Trim(input));
  }

  /**
   * A formula written out with full parentheses is accepted as it stands: it
   * is its own trim, and parses to its letters in ascending order and its
   * postfix form.
   */
  lemma FormulaParses(f: Formula)
    requires WellNamed(f)
    ensures Trim(Print(f)) == Print(f)
    ensures Parse(Print(f)) == Ok(Parsed(SortedLetters(Atoms(f)), Postfix(f)))
    ensures forall c :: c in SortedLetters(Atoms(f)) <==> c in Atoms(f)
    ensures forall values :: |values| == |SortedLetters(Atoms(f))| ==>
      Atoms(f) <= Lookup(SortedLetters(Atoms(f)), values).Keys
  {
    FormulaParsed(f);
    SortedAtoms(f);
  }

  /** `FormulaParses` without the facts about the letters. */
  lemma FormulaParsed(f: Formula)
    requires WellNamed(f)
    ensures Trim(Print(f)) == Print(f)
    ensures Parse(Print(f)) == Ok(Parsed(SortedLetters(Atoms(f)), Postfix(f)))
  {
    PrintIsTrimmed(f);
    ToPostfixOfPrint(f);
    PrintLetterSet(f);
  }

  /** The variables of a formula, in ascending order, are its atoms. */
  lemma SortedAtomsMembers(f: Formula)
    requires WellNamed(f)
    ensures forall c :: c in SortedLetters(Atoms(f)) <==> c in Atoms(f)
  {
    LettersFromLists(Atoms(f), 0);
  }

  /** The variables of a formula, in ascending order, are its atoms, and binding them binds every atom. */
  lemma SortedAtoms(f: Formula)
    requires WellNamed(f)
    ensures forall c :: c in SortedLetters(Atoms(f)) <==> c in Atoms(f)
    ensures forall values :: |values| == |SortedLetters(Atoms(f))| ==>
      Atoms(f) <= Lookup(SortedLetters(Atoms(f)), values).Keys
  {
    var variables := SortedLetters(Atoms(f));
    SortedAtomsMembers(f);
    forall values | |values| == |variables|
      ensures Atoms(f) <= Lookup(variables, values).Keys
    {
      LookupBindsAll(variables, values);
    }
  }

  /** The written form of a formula has no white space to trim. */
  lemma PrintIsTrimmed(f: Formula)
    requires WellNamed(f)
    ensures Trim(Print(f)) == Print(f)
  {
    var s := Print(f);
    PrintEnds(f);
    CleanEnds(s);
  }

  /** A string that starts and ends with a parenthesis or a letter is its own trim. */
  lemma CleanEnds(s: seq<char>)
    requires s != []
    requires s[0] == '(' || IsLetter(s[0])
    requires s[|s| - 1] == ')' || IsLetter(s[|s| - 1])
    ensures Trim(s) == s
  {
    TrimClean(s);
  }

  /** The variables the converter collects from the written form of a formula are its atoms. */
  lemma PrintLetterSet(f: Formula)
    requires WellNamed(f)
    ensures LetterSet(Print(f)) == Atoms(f)
  {
    PrintLetters(f);
  }

  /** Every row of the table of a formula succeeds with the formula's truth value. */
  lemma FormulaRows(f: Formula, variables: seq<char>, combinations: seq<seq<bool>>)
    requires WellNamed(f)
    requires forall c :: c in variables <==> c in Atoms(f)
    requires forall i :: 0 <= i < |combinations| ==> |combinations[i]| == |variables|
    ensures Resolvable(Postfix(f), variables)
    ensures TableRows(Postfix(f), variables, combinations).Ok?
    ensures |TableRows(Postfix(f), variables, combinations).value| == |combinations|
    ensures forall i :: 0 <= i < |combinations| ==>
      Atoms(f) <= Lookup(variables, combinations[i]).Keys
      && TableRows(Postfix(f), variables, combinations).value[i]
        == combinations[i] + [Holds(f, Lookup(variables, combinations[i]))]
  {
    PostfixTokens(f);
    TableRowsMeaning(Postfix(f), variables, combinations);
    forall i | 0 <= i < |combinations|
      ensures Atoms(f) <= Lookup(variables, combinations[i]).Keys
      ensures Evaluate(Postfix(f), variables, combinations[i]) == Ok(Holds(f, Lookup(variables, combinations[i])))
    {
      ParseThenEvaluate(f, variables, combinations[i]);
    }
  }

  /** Evaluating the rows of the table of a formula succeeds. */
  lemma FormulaRowsSucceed(f: Formula, variables: seq<char>, combinations: seq<seq<bool>>)
    requires WellNamed(f)
    requires forall c :: c in variables <==> c in Atoms(f)
    requires forall i :: 0 <= i < |combinations| ==> |combinations[i]| == |variables|
    ensures Resolvable(Postfix(f), variables)
    ensures TableRows(Postfix(f), variables, combinations).Ok?
  {
    FormulaRows(f, variables, combinations);
  }

  /** Surrounding white space changes nothing: the table of the input is the table of its trim. */
  lemma TableOfTrim(input: seq<char>)
    ensures TruthTableOf(input) == TruthTableOf(Trim(input))
  {
    TrimIdempotent(input);
  }
}
