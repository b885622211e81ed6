/**
 * The computational part of `generateTruthTable` (script.js:277-310) and of
 * `isValidExpression` (script.js:38-47): trim the input, parse it, enumerate
 * the assignments and evaluate the postfix form once per assignment, in
 * order. Rendering the header and the rows into the page is not modelled:
 * the result is the header and the rows the page would show.
 */
module TruthTable {
  import opened Wrappers
  import opened Parser
  import opened ParserProofs
  import opened Evaluator
  import opened EvaluatorProofs
  import opened Combinations

  /** The characters `String.prototype.trim` removes: the white space and line terminators of ECMAScript. */
  predicate IsWhitespace(c: char)
  {
    c == '\t' || c == '\n' || c == '\U{000B}' || c == '\U{000C}' || c == '\r' || c == ' '
    || c == '\U{00A0}' || c == '\U{1680}' || ('\U{2000}' <= c <= '\U{200A}')
    || c == '\U{2028}' || c == '\U{2029}' || c == '\U{202F}' || c == '\U{205F}'
    || c == '\U{3000}' || c == '\U{FEFF}'
  }

  /** `s` without its leading white space. */
  function TrimStart(s: seq<char>): (r: seq<char>)
    ensures |r| <= |s| && r == s[|s| - |r|..]
    ensures forall i :: 0 <= i < |s| - |r| ==> IsWhitespace(s[i])
    ensures r != [] ==> !IsWhitespace(r[0])
  {
    if s != [] && IsWhitespace(s[0]) then TrimStart(s[1..]) else s
  }

  /** `s` without its trailing white space. */
  function TrimEnd(s: seq<char>): (r: seq<char>)
    ensures |r| <= |s| && r == s[..|r|]
    ensures forall i :: |r| <= i < |s| ==> IsWhitespace(s[i])
    ensures r != [] ==> !IsWhitespace(r[|r| - 1])
  {
    if s != [] && IsWhitespace(s[|s| - 1]) then TrimEnd(s[..|s| - 1]) else s
  }

  /**
   * `s.trim()`: `s` without its leading and trailing white space. It is empty
   * exactly when `s` is white space only, and otherwise starts and ends with
   * a character that is not white space; `TrimIsSlice` says which slice of
   * `s` it is.
   */
  function Trim(s: seq<char>): (r: seq<char>)
    ensures |r| <= |s|
    ensures r == [] <==> forall i :: 0 <= i < |s| ==> IsWhitespace(s[i])
    ensures r != [] ==> !IsWhitespace(r[0]) && !IsWhitespace(r[|r| - 1])
  {
    var start := TrimStart(s);
    var r := TrimEnd(start);
    assert r != [] ==> r[0] == start[0];
    BlankWhenTrimmedAway(s, start, r);
    r
  }

  /**
   * The trim is the input with white space removed at its two ends only: the
   * slice `s[a..b]`, with nothing but white space before `a` and from `b` on.
   */
  lemma TrimIsSlice(s: seq<char>) returns (a: nat, b: nat)
    ensures a <= b <= |s| && Trim(s) == s[a..b]
    ensures forall i :: 0 <= i < a ==> IsWhitespace(s[i])
    ensures forall i :: b <= i < |s| ==> IsWhitespace(s[i])
  {
    var start := TrimStart(s);
    var r := TrimEnd(start);
    assert Trim(s) == r;
    SliceOfSuffix(s, start, r);
    a, b := |s| - |start|, |s| - |start| + |r|;
  }

  /**
   * A prefix `r` of a suffix `start` of `s` is a slice of `s`; what `start`
   * leaves out after `r` is what `s` has after that slice.
   */
  lemma SliceOfSuffix(s: seq<char>, start: seq<char>, r: seq<char>)
    requires |start| <= |s| && start == s[|s| - |start|..]
    requires |r| <= |start| && r == start[..|r|]
    requires forall i :: |r| <= i < |start| ==> IsWhitespace(start[i])
    ensures r == s[|s| - |start|..|s| - |start| + |r|]
    ensures forall i :: |s| - |start| + |r| <= i < |s| ==> IsWhitespace(s[i])
  {
    var a := |s| - |start|;
    assert forall i :: a + |r| <= i < |s| ==> s[i] == start[i - a];
  }

  /** When trimming both ends leaves nothing, every character was white space. */
  lemma BlankWhenTrimmedAway(s: seq<char>, start: seq<char>, r: seq<char>)
    requires start == TrimStart(s) && r == TrimEnd(start)
    ensures r == [] ==> forall i :: 0 <= i < |s| ==> IsWhitespace(s[i])
  {
  }

  /** A string that starts and ends with a character that is not white space is its own trim. */
  lemma TrimClean(s: seq<char>)
    requires s != [] && !IsWhitespace(s[0]) && !IsWhitespace(s[|s| - 1])
    ensures Trim(s) == s
  {
    assert TrimStart(s) == s;
  }

  /** Trimming twice trims once. */
  lemma TrimIdempotent(s: seq<char>)
    ensures Trim(Trim(s)) == Trim(s)
  {
    if Trim(s) != [] {
      TrimClean(Trim(s));
    }
  }

  /** Leading white space is trimmed away one character at a time. */
  lemma TrimDropsLeading(s: seq<char>)
    requires s != [] && IsWhitespace(s[0])
    ensures Trim(s) == Trim(s[1..])
  {
    assert TrimStart(s) == TrimStart(s[1..]);
  }

  /** Why no table is produced. */
  datatype TableError =
    | Empty                        // the trimmed input is empty
    | ParseFailed(parseError: ParseError)   // `parseExpression` threw
    | EvalFailed(evalError: EvalError)   // `evaluateExpression` threw on some row

  /** What the page shows: the header cells, and each row's truth values with the result last. */
  datatype Table = Table(header: seq<seq<char>>, rows: seq<seq<bool>>)

  /** The header `[...variables, expression]`: one cell per variable, then the expression. */
  function Header(variables: seq<char>, expression: seq<char>): seq<seq<char>>
  {
    seq(|variables|, i requires 0 <= i < |variables| => [variables[i]]) + [expression]
  }

  /** Every token of `postfix` is an operator or one of `variables`. */
  predicate Resolvable(postfix: seq<Token>, variables: seq<char>)
  {
    forall t :: t in postfix ==> t.Operator? || (t.Var? && t.name in variables)
  }

  /** Every token of a parsed postfix form is an operator or one of the parsed variables, of which there are at most 26. */
  lemma ParseResolvable(s: seq<char>)
    requires Parse(s).Ok?
    ensures Resolvable(Parse(s).value.postfix, Parse(s).value.variables)
    ensures |Parse(s).value.variables| <= 26
  {
    ParseFacts(s);
  }

  /** Evaluating under `combinations[i]` throws `e`, and under every earlier assignment succeeds. */
  predicate FirstFailure(postfix: seq<Token>, variables: seq<char>, combinations: seq<seq<bool>>, i: int, e: EvalError)
    requires Resolvable(postfix, variables)
    requires forall i :: 0 <= i < |combinations| ==> |combinations[i]| == |variables|
  {
    0 <= i < |combinations|
    && Evaluate(postfix, variables, combinations[i]) == Err(e)
    && forall k :: 0 <= k < i ==> Evaluate(postfix, variables, combinations[k]).Ok?
  }

  /**
   * The rows of the table for the assignments `combinations`, in order: each
   * assignment followed by the value of `postfix` under it. The first
   * assignment whose evaluation throws ends the loop with that error.
   */
  function TableRows(postfix: seq<Token>, variables: seq<char>, combinations: seq<seq<bool>>): Result<seq<seq<bool>>, EvalError>
    requires Resolvable(postfix, variables)
    requires forall i :: 0 <= i < |combinations| ==> |combinations[i]| == |variables|
  {
    if combinations == [] then Ok([])
    else
      var n := |combinations|;
      match TableRows(postfix, variables, combinations[..n - 1])
      case Err(e) => Err(e)
      case Ok(rows) =>
        match Evaluate(postfix, variables, combinations[n - 1])
        case Err(e) => Err(e)
        case Ok(v) => Ok(rows + [combinations[n - 1] + [v]])
  }

  /**
   * The rows, when produced, are one per assignment, each assignment followed
   * by the value of `postfix` under it; when no rows are produced, the error
   * is that of the first assignment whose evaluation throws.
   */
  lemma {:induction false} TableRowsMeaning(postfix: seq<Token>, variables: seq<char>, combinations: seq<seq<bool>>)
    requires Resolvable(postfix, variables)
    requires forall i :: 0 <= i < |combinations| ==> |combinations[i]| == |variables|
    ensures TableRows(postfix, variables, combinations).Ok? ==>
      |TableRows(postfix, variables, combinations).value| == |combinations|
    ensures TableRows(postfix, variables, combinations).Ok? ==> forall i :: 0 <= i < |combinations| ==>
      Evaluate(postfix, variables, combinations[i]).Ok?
      && TableRows(postfix, variables, combinations).value[i]
        == combinations[i] + [Evaluate(postfix, variables, combinations[i]).value]
    ensures TableRows(postfix, variables, combinations).Err? ==>
      exists i :: FirstFailure(postfix, variables, combinations, i, TableRows(postfix, variables, combinations).error)
    decreases |combinations|
  {
    if combinations != [] {
      var n := |combinations|;
      TableRowsMeaning(postfix, variables, combinations[..n - 1]);
      match TableRows(postfix, variables, combinations[..n - 1])
      case Err(e) =>
        FirstFailureExtends(postfix, variables, combinations, n - 1, e);
      case Ok(rows) =>
        match Evaluate(postfix, variables, combinations[n - 1])
        case Err(e) =>
          assert FirstFailure(postfix, variables, combinations, n - 1, e);
        case Ok(v) =>
      }
  }

  /** A first failure among the first `k` assignments is the first failure among all of them. */
  lemma FirstFailureExtends(postfix: seq<Token>, variables: seq<char>, combinations: seq<seq<bool>>, k: nat, e: EvalError)
    requires Resolvable(postfix, variables)
    requires forall i :: 0 <= i < |combinations| ==> |combinations[i]| == |variables|
    requires k <= |combinations|
    requires exists i :: FirstFailure(postfix, variables, combinations[..k], i, e)
    ensures exists i :: FirstFailure(postfix, variables, combinations, i, e)
  {
    var i :| FirstFailure(postfix, variables, combinations[..k], i, e);
    assert FirstFailure(postfix, variables, combinations, i, e);
  }

  /** What `generateTruthTable` shows for the input `input`, or the error it reports. */
  function TruthTableOf(input: seq<char>): Result<Table, TableError>
  {
    TableOf(Trim(input))
  }

  /** The table for the already trimmed text `expression`, or the error. */
  function TableOf(expression: seq<char>): Result<Table, TableError>
  {
    if expression == [] then Err(Empty)
    else if Parse(expression).Err? then Err(ParseFailed(Parse(expression).error))
    else
      ParseResolvable(expression);
      Tabulate(Parse(expression).value, expression)
  }

  /** The header and the rows for the parse `parsed` of `expression`, or the first evaluation error. */
  function Tabulate(parsed: Parsed, expression: seq<char>): Result<Table, TableError>
    requires Resolvable(parsed.postfix, parsed.variables)
  {
    match TableRows(parsed.postfix, parsed.variables, AllRows(|parsed.variables|))
    case Err(e) => Err(EvalFailed(e))
    case Ok(rows) => Ok(Table(Header(parsed.variables, expression), rows))
  }

  /** An error found for a prefix of the assignments is the error for all of them. */
  lemma {:induction false} TableRowsPrefixError(postfix: seq<Token>, variables: seq<char>, combinations: seq<seq<bool>>, k: nat)
    requires Resolvable(postfix, variables)
    requires forall i :: 0 <= i < |combinations| ==> |combinations[i]| == |variables|
    requires k <= |combinations|
    requires TableRows(postfix, variables, combinations[..k]).Err?
    ensures TableRows(postfix, variables, combinations) == TableRows(postfix, variables, combinations[..k])
    decreases |combinations| - k
  {
    if k < |combinations| {
      var n := k + 1;
      assert combinations[..n][..n - 1] == combinations[..k];
      TableRowsPrefixError(postfix, variables, combinations, k + 1);
    } else {
      assert combinations[..k] == combinations;
    }
  }

  /**
   * `generateTruthTable` (script.js:277-310): trims the input, rejects a
   * blank one, parses it, enumerates the assignments and evaluates each in
   * turn, stopping at the first error.
   */
  method GenerateTruthTable(input: seq<char>) returns (r: Result<Table, TableError>)
    ensures r == TruthTableOf(input)
  {
    var expression := Trim(input);
    if expression == [] {
      return Err(Empty);
    }
    var parsed := ParseExpression(expression);
    if parsed.Err? {
      return Err(ParseFailed(parsed.error));
    }
    var variables, postfix := parsed.value.variables, parsed.value.postfix;
    ParseResolvable(expression);
    assert TruthTableOf(input) == Tabulate(parsed.value, expression);
    var combinations := GenerateCombinations(|variables|);
    var rows := EvaluateRows(postfix, variables, combinations);
    if rows.Err? {
      return Err(EvalFailed(rows.error));
    }
    r := Ok(Table(Header(variables, expression), rows.value));
  }

  /**
   * The `truthCombinations.forEach` loop of `generateTruthTable`
   * (script.js:293-296): one row per assignment, in order; the first
   * evaluation that throws ends the loop.
   */
  method EvaluateRows(postfix: seq<Token>, variables: seq<char>, combinations: seq<seq<bool>>)
    returns (r: Result<seq<seq<bool>>, EvalError>)
    requires Resolvable(postfix, variables)
    requires forall i :: 0 <= i < |combinations| ==> |combinations[i]| == |variables|
    ensures r == TableRows(postfix, variables, combinations)
  {
    var rows: seq<seq<bool>> := [];
    for i := 0 to |combinations|
      invariant TableRows(postfix, variables, combinations[..i]) == Ok(rows)
    {
      var result := EvaluateExpression(postfix, variables, combinations[i]);
      assert combinations[..i + 1][..i] == combinations[..i];
      if result.Err? {
        TableRowsPrefixError(postfix, variables, combinations, i + 1);
        return Err(result.error);
      }
      rows := rows + [combinations[i] + [result.value]];
    }
    assert combinations[..|combinations|] == combinations;
    r := Ok(rows);
  }

  /**
   * `isValidExpression(expression)` (script.js:38-47): false for a blank
   * input, otherwise whether `parseExpression` accepts the input as given,
   * untrimmed. It accepts exactly when every character is one the converter
   * knows and the parentheses balance.
   */
  method IsValidExpression(expression: seq<char>) returns (valid: bool)
    ensures valid <==> Trim(expression) != [] && BalanceCheck(expression, 0).Ok?
  {
    if Trim(expression) == [] {
      return false;
    }
    var parsed := ParseExpression(expression);
    ToPostfixFailsLikeBalanceCheck(expression);
    valid := parsed.Ok?;
  }
}
