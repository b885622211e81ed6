/**
 * The postfix stack machine `evaluateExpression` (script.js:199-241): it
 * evaluates a postfix sequence under one assignment of truth values given
 * positionally, one value per variable.
 *
 * `Evaluate` states what it returns or throws; the method
 * `EvaluateExpression`, with its explicit value stack, is proved equal to it.
 */
module Evaluator {
  import opened Wrappers
  import opened Operators
  import opened Parser

  /** The two ways `evaluateExpression` throws. */
  datatype EvalError =
    | InsufficientOperands  // an operator met fewer operands than it takes
    | Malformed             // the sequence did not reduce to exactly one value

  /**
   * The variable-to-value table built by `variables.forEach` (script.js:204-206):
   * `variables[i]` is bound to `values[i]`, a later binding of a name replacing
   * an earlier one.
   */
  function Lookup(variables: seq<char>, values: seq<bool>): map<char, bool>
    requires |values| == |variables|
  {
    if variables == [] then map[]
    else
      var n := |variables|;
      Lookup(variables[..n - 1], values[..n - 1])[variables[n - 1] := values[n - 1]]
  }

  /** Every token of `postfix` is an operator or a variable that `env` binds. */
  predicate Evaluable(postfix: seq<Token>, env: map<char, bool>)
  {
    forall t :: t in postfix ==> t.Operator? || (t.Var? && t.name in env)
  }

  /** The loop over the tokens (script.js:208-232), from the value stack `stack` (top last). */
  function EvalRun(stack: seq<bool>, postfix: seq<Token>, env: map<char, bool>): Result<seq<bool>, EvalError>
    requires Evaluable(postfix, env)
    decreases |postfix|
  {
    if postfix == [] then Ok(stack)
    else
      var t := postfix[0];
      assert t in postfix;
      var n := |stack|;
      if t.Var? then EvalRun(stack + [env[t.name]], postfix[1..], env)
      else if t.op == Not then
        if n < 1 then Err(InsufficientOperands)
        else EvalRun(stack[..n - 1] + [!stack[n - 1]], postfix[1..], env)
      else
        if n < 2 then Err(InsufficientOperands)
        else EvalRun(stack[..n - 2] + [Apply(t.op, stack[n - 2], stack[n - 1])], postfix[1..], env)
  }

  /** What `evaluateExpression(postfix, variables, values)` returns or throws. */
  function Evaluate(postfix: seq<Token>, variables: seq<char>, values: seq<bool>): Result<bool, EvalError>
    requires |values| == |variables|
    requires forall t :: t in postfix ==> t.Operator? || (t.Var? && t.name in variables)
  {
    var env := Lookup(variables, values);
    LookupBindsAll(variables, values);
    match EvalRun([], postfix, env)
    case Err(e) => Err(e)
    case Ok(stack) => if |stack| != 1 then Err(Malformed) else Ok(stack[0])
  }

  /** The table binds exactly the listed names. */
  lemma {:induction false} LookupBindsAll(variables: seq<char>, values: seq<bool>)
    requires |values| == |variables|
    ensures forall x :: x in Lookup(variables, values) <==> x in variables
  {
    if variables != [] {
      var n := |variables|;
      LookupBindsAll(variables[..n - 1], values[..n - 1]);
      assert forall x :: x in variables <==> x in variables[..n - 1] || x == variables[n - 1];
    }
  }

  /**
   * With names listed without repetition, the lookup is positional: the name
   * `variables[i]` gets the value `values[i]`.
   */
  lemma {:induction false} LookupPositional(variables: seq<char>, values: seq<bool>, i: nat)
    requires |values| == |variables| && i < |variables|
    requires forall j, k :: 0 <= j < k < |variables| ==> variables[j] != variables[k]
    ensures variables[i] in Lookup(variables, values)
    ensures Lookup(variables, values)[variables[i]] == values[i]
  {
    var n := |variables|;
    if i < n - 1 {
      LookupPositional(variables[..n - 1], values[..n - 1], i);
    }
  }

  /**
   * `evaluateExpression(postfix, variables, values)` (script.js:199-241): builds
   * the lookup table, runs the value stack over the tokens, and requires one
   * value to remain.
   */
  method EvaluateExpression(postfix: seq<Token>, variables: seq<char>, values: seq<bool>)
    returns (r: Result<bool, EvalError>)
    requires |values| == |variables|
    requires forall t :: t in postfix ==> t.Operator? || (t.Var? && t.name in variables)
    ensures r == Evaluate(postfix, variables, values)
  {
    var env: map<char, bool> := map[];
    var k := 0;
    while k < |variables|
      invariant 0 <= k <= |variables|
      invariant env == Lookup(variables[..k], values[..k])
    {
      assert variables[..k + 1][..k] == variables[..k] && values[..k + 1][..k] == values[..k];
      env := env[variables[k] := values[k]];
      k := k + 1;
    }
    assert variables[..k] == variables && values[..k] == values;
    LookupBindsAll(variables, values);
    var stack: seq<bool> := [];
    var i := 0;
    while i < |postfix|
      invariant 0 <= i <= |postfix|
      invariant Evaluable(postfix[i..], env)
      invariant EvalRun([], postfix, env) == EvalRun(stack, postfix[i..], env)
    {
      var t := postfix[i];
      ghost var before := stack;
      assert postfix[i..][0] == t && postfix[i..][1..] == postfix[i + 1..];
      if t.Operator? {
        if t.op == Not {
          if |stack| < 1 {
            return Err(InsufficientOperands);
          }
          var a := stack[|stack| - 1];
          stack := stack[..|stack| - 1];
          stack := stack + [!a];
          assert stack == before[..|before| - 1] + [!before[|before| - 1]];
        } else {
          if |stack| < 2 {
            return Err(InsufficientOperands);
          }
          var b := stack[|stack| - 1];
          stack := stack[..|stack| - 1];
          var a := stack[|stack| - 1];
          stack := stack[..|stack| - 1];
          stack := stack + [Apply(t.op, a, b)];
          assert before[..|before| - 1][..|before| - 2] == before[..|before| - 2];
          assert stack == before[..|before| - 2] + [Apply(t.op, before[|before| - 2], before[|before| - 1])];
        }
      } else {
        stack := stack + [env[t.name]];
      }
      i := i + 1;
    }
    if |stack| != 1 {
      return Err(Malformed);
    }
    r := Ok(stack[0]);
  }
}
