/**
 * What the stack machine of module `Evaluator` guarantees: whether it fails,
 * and with which error, depends only on the arities of the tokens and never
 * on the truth values; the lookup of values is positional.
 */
module EvaluatorProofs {
  import opened Wrappers
  import opened Operators
  import opened Parser
  import opened Evaluator

  /** The number of operands an operator token takes. */
  function Arity(op: Op): nat
  {
    if op == Not then 1 else 2
  }

  /**
   * Reference check: the height of the value stack after `postfix`, counting
   * one up for a variable and `Arity - 1` down for an operator, or the error
   * when an operator finds fewer values than it takes.
   */
  function HeightCheck(postfix: seq<Token>, height: nat): Result<nat, EvalError>
  {
    if postfix == [] then Ok(height)
    else if postfix[0].Operator? then
      if height < Arity(postfix[0].op) then Err(InsufficientOperands)
      else HeightCheck(postfix[1..], height - Arity(postfix[0].op) + 1)
    else HeightCheck(postfix[1..], height + 1)
  }

  /** The value stack fails, and grows, exactly as the height count says. */
  lemma {:induction false} EvalRunFollowsHeight(stack: seq<bool>, postfix: seq<Token>, env: map<char, bool>)
    requires Evaluable(postfix, env)
    ensures EvalRun(stack, postfix, env).Err? <==> HeightCheck(postfix, |stack|).Err?
    ensures EvalRun(stack, postfix, env).Err? ==> EvalRun(stack, postfix, env).error == InsufficientOperands
    ensures HeightCheck(postfix, |stack|).Err? ==> HeightCheck(postfix, |stack|).error == InsufficientOperands
    ensures EvalRun(stack, postfix, env).Ok? ==>
      |EvalRun(stack, postfix, env).value| == HeightCheck(postfix, |stack|).value
    decreases |postfix|
  {
    if postfix != [] {
      var t := postfix[0];
      assert t in postfix;
      assert Evaluable(postfix[1..], env) by {
        forall u | u in postfix[1..] ensures u in postfix { }
      }
      var n := |stack|;
      if t.Var? {
        EvalRunFollowsHeight(stack + [env[t.name]], postfix[1..], env);
      } else if t.op == Not {
        if n >= 1 {
          EvalRunFollowsHeight(stack[..n - 1] + [!stack[n - 1]], postfix[1..], env);
        }
      } else if n >= 2 {
        EvalRunFollowsHeight(stack[..n - 2] + [Apply(t.op, stack[n - 2], stack[n - 1])], postfix[1..], env);
      }
    }
  }

  /**
   * Evaluation fails exactly when the height count does (an operator short of
   * operands) or ends at a height other than one (`Malformed`).
   */
  lemma EvaluateFailsByShape(postfix: seq<Token>, variables: seq<char>, values: seq<bool>)
    requires |values| == |variables|
    requires forall t :: t in postfix ==> t.Operator? || (t.Var? && t.name in variables)
    ensures Evaluate(postfix, variables, values).Err? <==>
      HeightCheck(postfix, 0).Err? || HeightCheck(postfix, 0).value != 1
    ensures Evaluate(postfix, variables, values).Err? ==>
      Evaluate(postfix, variables, values).error
        == if HeightCheck(postfix, 0).Err? then InsufficientOperands else Malformed
  {
    var env := Lookup(variables, values);
    LookupBindsAll(variables, values);
    EvalRunFollowsHeight([], postfix, env);
  }

  /**
   * Whether evaluation fails, and with which error, does not depend on the
   * truth values: one row of a truth table fails exactly when every row does.
   */
  lemma EvaluateErrorIgnoresValues(postfix: seq<Token>, variables: seq<char>, values1: seq<bool>, values2: seq<bool>)
    requires |values1| == |variables| && |values2| == |variables|
    requires forall t :: t in postfix ==> t.Operator? || (t.Var? && t.name in variables)
    ensures Evaluate(postfix, variables, values1).Err? <==> Evaluate(postfix, variables, values2).Err?
    ensures Evaluate(postfix, variables, values1).Err? ==>
      Evaluate(postfix, variables, values1).error == Evaluate(postfix, variables, values2).error
  {
    EvaluateFailsByShape(postfix, variables, values1);
    EvaluateFailsByShape(postfix, variables, values2);
  }

  /** `¬ A ¬`, which the converter makes of `¬¬A`, is short of an operand. */
  lemma DoubleNegationPostfixFails()
    ensures Evaluate([Operator(Not), Var('A'), Operator(Not)], ['A'], [true]) == Err(InsufficientOperands)
  {
  }

  /** `A B`, two variables with no operator, leaves two values: malformed. */
  lemma AdjacentVariablesFail(a: bool, b: bool)
    ensures Evaluate([Var('A'), Var('B')], ['A', 'B'], [a, b]) == Err(Malformed)
  {
    var env := TwoVariables(a, b);
    assert [Var('A'), Var('B')][1..] == [Var('B')] && [Var('B')][1..] == [];
    assert [] + [a] == [a] && [a] + [b] == [a, b];
    assert EvalRun([], [Var('A'), Var('B')], env) == EvalRun([a], [Var('B')], env);
    assert EvalRun([a], [Var('B')], env) == Ok([a, b]);
  }

  /** A binary operator takes its left operand from below its right one: `A B →` is `A → B`. */
  lemma OperandOrder(a: bool, b: bool)
    ensures Evaluate([Var('A'), Var('B'), Operator(Implies)], ['A', 'B'], [a, b]) == Ok(!a || b)
  {
    var env := TwoVariables(a, b);
    assert [Var('A'), Var('B'), Operator(Implies)][1..] == [Var('B'), Operator(Implies)];
    assert [Var('B'), Operator(Implies)][1..] == [Operator(Implies)];
    assert [] + [a] == [a] && [a] + [b] == [a, b];
    assert EvalRun([], [Var('A'), Var('B'), Operator(Implies)], env) == EvalRun([a], [Var('B'), Operator(Implies)], env);
    assert EvalRun([a], [Var('B'), Operator(Implies)], env) == EvalRun([a, b], [Operator(Implies)], env);
  }

  /** The table for the variables `A`, `B` with the values `a`, `b`. */
  lemma TwoVariables(a: bool, b: bool) returns (env: map<char, bool>)
    ensures env == Lookup(['A', 'B'], [a, b])
    ensures 'A' in env && env['A'] == a && 'B' in env && env['B'] == b
  {
    env := Lookup(['A', 'B'], [a, b]);
    LookupPositional(['A', 'B'], [a, b], 0);
    LookupPositional(['A', 'B'], [a, b], 1);
  }
}
