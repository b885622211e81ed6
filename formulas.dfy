/**
 * Formula trees, as a reference meaning for the converter and the stack
 * machine together: writing a tree out with every operation in parentheses
 * and handing the text to the converter gives the tree's postfix form, and
 * the stack machine computes the tree's truth value from it.
 */
module Formulas {
  import opened Wrappers
  import opened Operators
  import opened Parser
  import opened Evaluator

  /** A formula over single-letter variables. */
  datatype Formula =
    | Atom(name: char)
    | Neg(arg: Formula)
    | Bin(op: BinaryOp, left: Formula, right: Formula)

  /** The variables of `f`. */
  function Atoms(f: Formula): set<char>
  {
    match f
    case Atom(x) => {x}
    case Neg(a) => Atoms(a)
    case Bin(_, l, r) => Atoms(l) + Atoms(r)
  }

  /** Every variable of `f` is a letter. */
  predicate WellNamed(f: Formula)
  {
    forall x :: x in Atoms(f) ==> IsLetter(x)
  }

  /** The truth value of `f` when `env` gives each variable's value. */
  function Holds(f: Formula, env: map<char, bool>): bool
    requires Atoms(f) <= env.Keys
  {
    match f
    case Atom(x) => env[x]
    case Neg(a) => !Holds(a, env)
    case Bin(op, l, r) => Apply(op, Holds(l, env), Holds(r, env))
  }

  /** `f` written out, each negation and each binary operation inside its own parentheses. */
  function Print(f: Formula): seq<char>
  {
    match f
    case Atom(x) => [x]
    case Neg(a) => "(¬" + Print(a) + ")"
    case Bin(op, l, r) => "(" + Print(l) + [Symbol(op)] + Print(r) + ")"
  }

  /** The letters of the written form of `f` are its variables. */
  lemma {:induction false} PrintLetters(f: Formula)
    requires WellNamed(f)
    ensures forall c :: c in Print(f) && IsLetter(c) <==> c in Atoms(f)
  {
    match f
    case Atom(x) =>
      assert x in Atoms(f);
    case Neg(a) =>
      PrintLetters(a);
      assert Print(f) == "(¬" + Print(a) + ")";
    case Bin(op, l, r) =>
      PrintLetters(l);
      PrintLetters(r);
      SymbolNotLetter(op);
      assert Print(f) == "(" + Print(l) + [Symbol(op)] + Print(r) + ")";
  }

  /** No operator symbol is a letter. */
  lemma SymbolNotLetter(op: Op)
    ensures !IsLetter(Symbol(op))
  {
  }

  /** The written form of `f` is not empty, and starts and ends with a parenthesis or a letter. */
  lemma PrintEnds(f: Formula)
    requires WellNamed(f)
    ensures Print(f) != []
    ensures Print(f)[0] == '(' || IsLetter(Print(f)[0])
    ensures Print(f)[|Print(f)| - 1] == ')' || IsLetter(Print(f)[|Print(f)| - 1])
  {
    if f.Atom? {
      assert f.name in Atoms(f);
    }
  }

  /** The postfix form of `f`: operands first, each operator after them. */
  function Postfix(f: Formula): seq<Token>
  {
    match f
    case Atom(x) => [Var(x)]
    case Neg(a) => Postfix(a) + [Operator(Not)]
    case Bin(op, l, r) => Postfix(l) + Postfix(r) + [Operator(op)]
  }

  /** Scanning starts with the first character. */
  lemma RunCons(st: Shunt, c: char, rest: seq<char>)
    ensures Step(st, c).Err? ==> Run(st, [c] + rest) == Err(Step(st, c).error)
    ensures Step(st, c).Ok? ==> Run(st, [c] + rest) == Run(Step(st, c).value, rest)
  {
    assert ([c] + rest)[0] == c && ([c] + rest)[1..] == rest;
  }

  /**
   * Scanning the written form of `f`, from any state, appends the postfix form
   * of `f` to the output and leaves the stack as it was.
   */
  lemma {:induction false} ScanPrint(f: Formula, st: Shunt, rest: seq<char>)
    requires WellNamed(f)
    ensures Run(st, Print(f) + rest) == Run(Shunt(st.output + Postfix(f), st.stack), rest)
    decreases f, 1
  {
    match f
    case Atom(x) =>
      assert x in Atoms(f);
      RunCons(st, x, rest);
    case Neg(_) => ScanPrintNeg(f, st, rest);
    case Bin(_, _, _) => ScanPrintBin(f, st, rest);
  }

  /** `ScanPrint` for a negation. */
  lemma {:induction false} ScanPrintNeg(f: Formula, st: Shunt, rest: seq<char>)
    requires f.Neg? && WellNamed(f)
    ensures Run(st, Print(f) + rest) == Run(Shunt(st.output + Postfix(f), st.stack), rest)
    decreases f, 0
  {
    var a := f.arg;
    var tail := [')'] + rest;
    ScanPrint(a, Shunt(st.output, st.stack + [LParen, Operator(Not)]), tail);
    assert Print(f) + rest == ['('] + ([Symbol(Not)] + (Print(a) + tail));
    ScanNeg(st, Print(f) + rest, Print(a), Postfix(a), rest);
    assert Postfix(a) + [Operator(Not)] == Postfix(f);
  }

  /** `ScanPrint` for a binary operation. */
  lemma {:induction false} ScanPrintBin(f: Formula, st: Shunt, rest: seq<char>)
    requires f.Bin? && WellNamed(f)
    ensures Run(st, Print(f) + rest) == Run(Shunt(st.output + Postfix(f), st.stack), rest)
    decreases f, 0
  {
    var op, l, r := f.op, f.left, f.right;
    assert WellNamed(l) && WellNamed(r);
    var tail := [')'] + rest;
    var middle := [Symbol(op)] + (Print(r) + tail);
    ScanPrint(l, Shunt(st.output, st.stack + [LParen]), middle);
    ScanPrint(r, Shunt(st.output + Postfix(l), st.stack + [LParen, Operator(op)]), tail);
    PrintBinShape(f, rest);
    ScanBin(st, op, Print(f) + rest, Print(l), Postfix(l), Print(r), Postfix(r), rest);
  }

  /** The written form of a binary operation, followed by `rest`, grouped as the scan reads it. */
  lemma PrintBinShape(f: Formula, rest: seq<char>)
    requires f.Bin?
    ensures Print(f) + rest == ['('] + (Print(f.left) + ([Symbol(f.op)] + (Print(f.right) + ([')'] + rest))))
  {
  }

  /**
   * The step of `ScanPrint` for a negation written `x` with postfix form `p`,
   * given that scanning `x` appends `p`.
   */
  lemma ScanNeg(st: Shunt, s: seq<char>, x: seq<char>, p: seq<Token>, rest: seq<char>)
    requires s == ['('] + ([Symbol(Not)] + (x + ([')'] + rest)))
    requires Run(Shunt(st.output, st.stack + [LParen, Operator(Not)]), x + ([')'] + rest))
      == Run(Shunt(st.output + p, st.stack + [LParen, Operator(Not)]), [')'] + rest)
    ensures Run(st, s) == Run(Shunt(st.output + (p + [Operator(Not)]), st.stack), rest)
  {
    OpenOperator(st, Not, x + ([')'] + rest));
    CloseStep(st.output + p, st.stack, Not, [')'] + rest, rest);
    assert st.output + p + [Operator(Not)] == st.output + (p + [Operator(Not)]);
  }

  /**
   * The step of `ScanPrint` for a binary operation, its operands written `x`
   * and `y` with postfix forms `p` and `q`, given that scanning each appends
   * its postfix form.
   */
  lemma ScanBin(st: Shunt, op: BinaryOp, s: seq<char>, x: seq<char>, p: seq<Token>, y: seq<char>, q: seq<Token>, rest: seq<char>)
    requires s == ['('] + (x + ([Symbol(op)] + (y + ([')'] + rest))))
    requires Run(Shunt(st.output, st.stack + [LParen]), x + ([Symbol(op)] + (y + ([')'] + rest))))
      == Run(Shunt(st.output + p, st.stack + [LParen]), [Symbol(op)] + (y + ([')'] + rest)))
    requires Run(Shunt(st.output + p, st.stack + [LParen, Operator(op)]), y + ([')'] + rest))
      == Run(Shunt(st.output + p + q, st.stack + [LParen, Operator(op)]), [')'] + rest)
    ensures Run(st, s) == Run(Shunt(st.output + (p + q + [Operator(op)]), st.stack), rest)
  {
    OpenStep(st, s, x + ([Symbol(op)] + (y + ([')'] + rest))));
    OperatorStep(Shunt(st.output + p, st.stack + [LParen]), op, [Symbol(op)] + (y + ([')'] + rest)), y + ([')'] + rest));
    assert st.stack + [LParen] + [Operator(op)] == st.stack + [LParen, Operator(op)];
    CloseStep(st.output + p + q, st.stack, op, [')'] + rest, rest);
    assert st.output + p + q + [Operator(op)] == st.output + (p + q + [Operator(op)]);
  }

  /** `(` followed by an operator pushes both. */
  lemma OpenOperator(st: Shunt, op: Op, rest: seq<char>)
    ensures Run(st, ['('] + ([Symbol(op)] + rest)) == Run(Shunt(st.output, st.stack + [LParen, Operator(op)]), rest)
  {
    OpenStep(st, ['('] + ([Symbol(op)] + rest), [Symbol(op)] + rest);
    OperatorStep(Shunt(st.output, st.stack + [LParen]), op, [Symbol(op)] + rest, rest);
    assert st.stack + [LParen] + [Operator(op)] == st.stack + [LParen, Operator(op)];
  }

  /** `(` pushes the marker. */
  lemma OpenStep(st: Shunt, s: seq<char>, rest: seq<char>)
    requires s == ['('] + rest
    ensures Run(st, s) == Run(Shunt(st.output, st.stack + [LParen]), rest)
  {
    RunCons(st, '(', rest);
  }

  /** An operator right after `(` is pushed without popping anything. */
  lemma OperatorStep(st: Shunt, op: Op, s: seq<char>, rest: seq<char>)
    requires st.stack != [] && st.stack[|st.stack| - 1] == LParen
    requires s == [Symbol(op)] + rest
    ensures Run(st, s) == Run(Shunt(st.output, st.stack + [Operator(op)]), rest)
  {
    SymbolRoundTrip(op);
    assert PopWhileHigher(st, Precedence(op)) == st;
    RunCons(st, Symbol(op), rest);
  }

  /** `)` after `( op` sends the operator to the output and removes the marker. */
  lemma CloseStep(output: seq<Token>, stack: seq<Token>, op: Op, s: seq<char>, rest: seq<char>)
    requires s == [')'] + rest
    ensures Run(Shunt(output, stack + [LParen, Operator(op)]), s)
      == Run(Shunt(output + [Operator(op)], stack), rest)
  {
    RunCons(Shunt(output, stack + [LParen, Operator(op)]), ')', rest);
    CloseParen(output, stack, op);
  }

  /** `)` after `( op …` in the stack leaves the operator in the output and removes the marker. */
  lemma CloseParen(output: seq<Token>, stack: seq<Token>, op: Op)
    ensures PopToParen(Shunt(output, stack + [LParen, Operator(op)]))
      == Ok(Shunt(output + [Operator(op)], stack))
  {
    var st := Shunt(output, stack + [LParen, Operator(op)]);
    assert Transfer(st) == Shunt(output + [Operator(op)], stack + [LParen]);
    assert (stack + [LParen])[..|stack|] == stack;
  }

  /** The converter turns the written form of `f` into the postfix form of `f`. */
  lemma ToPostfixOfPrint(f: Formula)
    requires WellNamed(f)
    ensures ToPostfix(Print(f)) == Ok(Postfix(f))
  {
    ScanPrint(f, Shunt([], []), []);
    assert Print(f) + [] == Print(f);
    assert [] + Postfix(f) == Postfix(f);
  }

  /** Every token of the postfix form of `f` is an operator or a variable of `f`. */
  lemma {:induction false} PostfixTokens(f: Formula)
    ensures forall t :: t in Postfix(f) ==> t.Operator? || (t.Var? && t.name in Atoms(f))
  {
    match f
    case Atom(x) =>
    case Neg(a) => PostfixTokens(a);
    case Bin(op, l, r) => PostfixTokens(l); PostfixTokens(r);
  }

  /** Appending keeps every token evaluable. */
  lemma EvaluableAppend(a: seq<Token>, b: seq<Token>, env: map<char, bool>)
    requires Evaluable(a, env) && Evaluable(b, env)
    ensures Evaluable(a + b, env)
  {
  }

  /** A variable pushes its value. */
  lemma EvalVarStep(stack: seq<bool>, x: char, rest: seq<Token>, env: map<char, bool>)
    requires x in env && Evaluable(rest, env)
    ensures Evaluable([Var(x)] + rest, env)
    ensures EvalRun(stack, [Var(x)] + rest, env) == EvalRun(stack + [env[x]], rest, env)
  {
    assert ([Var(x)] + rest)[1..] == rest;
  }

  /** `¬` replaces the top value by its negation. */
  lemma EvalNotStep(stack: seq<bool>, a: bool, rest: seq<Token>, env: map<char, bool>)
    requires Evaluable(rest, env)
    ensures Evaluable([Operator(Not)] + rest, env)
    ensures EvalRun(stack + [a], [Operator(Not)] + rest, env) == EvalRun(stack + [!a], rest, env)
  {
    assert ([Operator(Not)] + rest)[1..] == rest;
    assert (stack + [a])[..|stack|] == stack;
  }

  /** A binary operator replaces the two top values `a` (below) and `b` (top) by `Apply(op, a, b)`. */
  lemma EvalBinaryStep(stack: seq<bool>, op: BinaryOp, a: bool, b: bool, rest: seq<Token>, env: map<char, bool>)
    requires Evaluable(rest, env)
    ensures Evaluable([Operator(op)] + rest, env)
    ensures EvalRun(stack + [a] + [b], [Operator(op)] + rest, env) == EvalRun(stack + [Apply(op, a, b)], rest, env)
  {
    assert ([Operator(op)] + rest)[1..] == rest;
    assert (stack + [a] + [b])[..|stack|] == stack;
  }

  /** The stack machine runs the postfix form of `f` by pushing the truth value of `f`. */
  lemma {:induction false} EvalRunPostfix(f: Formula, stack: seq<bool>, rest: seq<Token>, env: map<char, bool>)
    requires Atoms(f) <= env.Keys && Evaluable(rest, env)
    ensures Evaluable(Postfix(f) + rest, env)
    ensures EvalRun(stack, Postfix(f) + rest, env) == EvalRun(stack + [Holds(f, env)], rest, env)
    decreases f, 1
  {
    match f
    case Atom(x) => EvalVarStep(stack, x, rest, env);
    case Neg(_) => EvalRunNeg(f, stack, rest, env);
    case Bin(_, _, _) => EvalRunBin(f, stack, rest, env);
  }

  /** `EvalRunPostfix` for a negation. */
  lemma {:induction false} EvalRunNeg(f: Formula, stack: seq<bool>, rest: seq<Token>, env: map<char, bool>)
    requires f.Neg? && Atoms(f) <= env.Keys && Evaluable(rest, env)
    ensures Evaluable(Postfix(f) + rest, env)
    ensures EvalRun(stack, Postfix(f) + rest, env) == EvalRun(stack + [Holds(f, env)], rest, env)
    decreases f, 0
  {
    var a := f.arg;
    var tail := [Operator(Not)] + rest;
    EvalNotStep(stack, Holds(a, env), rest, env);
    EvalRunPostfix(a, stack, tail, env);
    assert Postfix(f) + rest == Postfix(a) + tail;
  }

  /** `EvalRunPostfix` for a binary operation. */
  lemma {:induction false} EvalRunBin(f: Formula, stack: seq<bool>, rest: seq<Token>, env: map<char, bool>)
    requires f.Bin? && Atoms(f) <= env.Keys && Evaluable(rest, env)
    ensures Evaluable(Postfix(f) + rest, env)
    ensures EvalRun(stack, Postfix(f) + rest, env) == EvalRun(stack + [Holds(f, env)], rest, env)
    decreases f, 0
  {
    var op, l, r := f.op, f.left, f.right;
    var tail := [Operator(op)] + rest;
    var a, b := Holds(l, env), Holds(r, env);
    EvalBinaryStep(stack, op, a, b, rest, env);
    EvalRunPostfix(r, stack + [a], tail, env);
    EvalRunPostfix(l, stack, Postfix(r) + tail, env);
    PostfixBinShape(f, rest);
  }

  /** The postfix form of a binary operation, followed by `rest`, grouped as the machine reads it. */
  lemma PostfixBinShape(f: Formula, rest: seq<Token>)
    requires f.Bin?
    ensures Postfix(f) + rest == Postfix(f.left) + (Postfix(f.right) + ([Operator(f.op)] + rest))
  {
  }

  /**
   * Written out and converted, every formula evaluates to its truth value
   * under the positional assignment of `values` to `variables`.
   */
  lemma ParseThenEvaluate(f: Formula, variables: seq<char>, values: seq<bool>)
    requires WellNamed(f) && |values| == |variables|
    requires Atoms(f) <= set x | x in variables
    ensures ToPostfix(Print(f)) == Ok(Postfix(f))
    ensures forall t :: t in Postfix(f) ==> t.Operator? || (t.Var? && t.name in variables)
    ensures Atoms(f) <= Lookup(variables, values).Keys
    ensures Evaluate(Postfix(f), variables, values) == Ok(Holds(f, Lookup(variables, values)))
  {
    ToPostfixOfPrint(f);
    var env := Lookup(variables, values);
    LookupBindsAll(variables, values);
    PostfixTokens(f);
    EvalRunPostfix(f, [], [], env);
    assert Postfix(f) + [] == Postfix(f);
  }
}
