/**
 * Worked inputs: what the converter makes of a few expressions, and the
 * tables `generateTruthTable` shows or the errors it reports for them.
 */
module Examples {
  import opened Wrappers
  import opened Operators
  import opened Parser
  import opened ParserProofs
  import opened Evaluator
  import opened EvaluatorProofs
  import opened Combinations
  import opened Formulas
  import opened TruthTable
  import opened TableProofs

  /** A space at index `i` is skipped. */
  lemma SpaceStep(st: Shunt, s: seq<char>, i: nat)
    requires i < |s| && s[i] == ' '
    ensures Run(st, s[i..]) == Run(st, s[i + 1..])
  {
    assert s[i..][1..] == s[i + 1..];
  }

  /** A letter at index `i` goes to the output. */
  lemma LetterStep(st: Shunt, s: seq<char>, i: nat, output: seq<Token>)
    requires i < |s| && IsLetter(s[i]) && output == st.output + [Var(s[i])]
    ensures Run(st, s[i..]) == Run(Shunt(output, st.stack), s[i + 1..])
  {
    assert s[i..][1..] == s[i + 1..];
  }

  /** An operator at index `i` pops what binds at least as tightly, then is pushed. */
  lemma OperatorPush(st: Shunt, s: seq<char>, i: nat, popped: Shunt, stack: seq<Token>)
    requires i < |s| && OpOf(s[i]).Some?
    requires PopWhileHigher(st, Precedence(OpOf(s[i]).op)) == popped
    requires stack == popped.stack + [Operator(OpOf(s[i]).op)]
    ensures Run(st, s[i..]) == Run(Shunt(popped.output, stack), s[i + 1..])
  {
    assert s[i..][1..] == s[i + 1..];
  }

  /** `(` at index `i` is pushed. */
  lemma OpenPush(st: Shunt, s: seq<char>, i: nat, stack: seq<Token>)
    requires i < |s| && s[i] == '(' && stack == st.stack + [LParen]
    ensures Run(st, s[i..]) == Run(Shunt(st.output, stack), s[i + 1..])
  {
    assert s[i..][1..] == s[i + 1..];
  }

  /** `)` at index `i` pops down to its `(`. */
  lemma ClosePop(st: Shunt, s: seq<char>, i: nat, closed: Shunt)
    requires i < |s| && s[i] == ')' && PopToParen(st) == Ok(closed)
    ensures Run(st, s[i..]) == Run(closed, s[i + 1..])
  {
    assert s[i..][1..] == s[i + 1..];
  }

  /**
   * Two binary operators of equal precedence group to the left:
   * `A op1 B op2 C` converts as `(A op1 B) op2 C`, since the second operator
   * sends the first to the output before it is pushed.
   */
  lemma EqualPrecedenceGroupsLeft(s: seq<char>, op1: BinaryOp, op2: BinaryOp)
    requires Precedence(op1) == Precedence(op2)
    requires s == ['A', ' ', Symbol(op1), ' ', 'B', ' ', Symbol(op2), ' ', 'C']
    ensures ToPostfix(s) == Ok([Var('A'), Var('B'), Operator(op1), Var('C'), Operator(op2)])
  {
    var a, b, c, first, second := Var('A'), Var('B'), Var('C'), Operator(op1), Operator(op2);
    FirstOperand(s, op1, op2);
    SecondOperand(s, op1, op2);
    assert Drain(Shunt([a, b, first, c], [second])) == Ok([a, b, first, c, second]) by {
      assert Transfer(Shunt([a, b, first, c], [second])) == Shunt([a, b, first, c, second], []);
    }
    ConvertsTo(s, Shunt([a, b, first, c], [second]), [a, b, first, c, second]);
  }

  /** `A op1 B` outputs `A`, `B` and leaves `op1` waiting. */
  lemma FirstOperand(s: seq<char>, op1: BinaryOp, op2: BinaryOp)
    requires s == ['A', ' ', Symbol(op1), ' ', 'B', ' ', Symbol(op2), ' ', 'C']
    ensures Run(Shunt([], []), s) == Run(Shunt([Var('A'), Var('B')], [Operator(op1)]), s[5..])
  {
    var a, b, first := Var('A'), Var('B'), Operator(op1);
    SymbolRoundTrip(op1);
    assert s[0..] == s;
    LetterStep(Shunt([], []), s, 0, [a]);
    SpaceStep(Shunt([a], []), s, 1);
    OperatorPush(Shunt([a], []), s, 2, Shunt([a], []), [first]);
    SpaceStep(Shunt([a], [first]), s, 3);
    LetterStep(Shunt([a], [first]), s, 4, [a, b]);
  }

  /** ` op2 C` sends `op1` to the output, pushes `op2` and outputs `C`. */
  lemma SecondOperand(s: seq<char>, op1: BinaryOp, op2: BinaryOp)
    requires Precedence(op1) == Precedence(op2)
    requires s == ['A', ' ', Symbol(op1), ' ', 'B', ' ', Symbol(op2), ' ', 'C']
    ensures Run(Shunt([Var('A'), Var('B')], [Operator(op1)]), s[5..])
      == Ok(Shunt([Var('A'), Var('B'), Operator(op1), Var('C')], [Operator(op2)]))
  {
    var a, b, c, first, second := Var('A'), Var('B'), Var('C'), Operator(op1), Operator(op2);
    SymbolRoundTrip(op2);
    SpaceStep(Shunt([a, b], [first]), s, 5);
    assert PopWhileHigher(Shunt([a, b], [first]), Precedence(op2)) == Shunt([a, b, first], []) by {
      assert Transfer(Shunt([a, b], [first])) == Shunt([a, b, first], []);
    }
    OperatorPush(Shunt([a, b], [first]), s, 6, Shunt([a, b, first], []), [second]);
    SpaceStep(Shunt([a, b, first], [second]), s, 7);
    LetterStep(Shunt([a, b, first], [second]), s, 8, [a, b, first, c]);
    assert s[9..] == [];
  }

  /** `A → B → C` is `(A → B) → C`. */
  lemma ImplicationGroupsLeft(s: seq<char>)
    requires s == "A → B → C"
    ensures ToPostfix(s) == Ok([Var('A'), Var('B'), Operator(Implies), Var('C'), Operator(Implies)])
  {
    EqualPrecedenceGroupsLeft(s, Implies, Implies);
  }

  /** `A ∨ B ⊕ C` is `(A ∨ B) ⊕ C`: `∨` and `⊕` share a precedence. */
  lemma DisjunctionXorGroupsLeft(s: seq<char>)
    requires s == "A ∨ B ⊕ C"
    ensures ToPostfix(s) == Ok([Var('A'), Var('B'), Operator(Or), Var('C'), Operator(Xor)])
  {
    EqualPrecedenceGroupsLeft(s, Or, Xor);
  }

  /**
   * A second `¬` pops the first, since precedence ties pop: `¬¬A` becomes
   * `¬ A ¬`, whose first `¬` has no operand.
   */
  lemma DoubleNegationPostfix(s: seq<char>)
    requires s == "¬¬A"
    ensures ToPostfix(s) == Ok([Operator(Not), Var('A'), Operator(Not)])
  {
    var a, not := Var('A'), Operator(Not);
    assert s[0..] == s;
    OperatorPush(Shunt([], []), s, 0, Shunt([], []), [not]);
    assert PopWhileHigher(Shunt([], [not]), 4) == Shunt([not], []) by {
      assert Transfer(Shunt([], [not])) == Shunt([not], []);
    }
    OperatorPush(Shunt([], [not]), s, 1, Shunt([not], []), [not]);
    LetterStep(Shunt([not], [not]), s, 2, [not, a]);
    assert s[3..] == [];
    assert Drain(Shunt([not, a], [not])) == Ok([not, a, not]) by {
      assert Transfer(Shunt([not, a], [not])) == Shunt([not, a, not], []);
    }
    ConvertsTo(s, Shunt([not, a], [not]), [not, a, not]);
  }

  /** The assignment of `a` to `A` and `b` to `B`. */
  lemma LookupTwo(a: bool, b: bool)
    ensures Lookup(['A', 'B'], [a, b]) == map['A' := a, 'B' := b]
  {
    assert ['A', 'B'][..1] == ['A'] && [a, b][..1] == [a];
    assert ['A'][..0] == [] && [a][..0] == [];
    assert Lookup(['A'], [a]) == map['A' := a];
    assert Lookup(['A', 'B'], [a, b]) == map['A' := a][ 'B' := b];
  }

  /** The four assignments to two variables, in the order of the table. */
  lemma FourRows()
    ensures |AllRows(2)| == 4
    ensures AllRows(2)[0] == [false, false] && AllRows(2)[1] == [false, true]
    ensures AllRows(2)[2] == [true, false] && AllRows(2)[3] == [true, true]
  {
    assert Pow2(2) == 4;
    assert |AllRows(2)| == 4;
    assert AllRows(2)[0] == Row(0, 2) && AllRows(2)[1] == Row(1, 2);
    assert AllRows(2)[2] == Row(2, 2) && AllRows(2)[3] == Row(3, 2);
    assert Row(0, 2) == [false, false];
    assert Row(1, 2) == [false, true];
    assert Row(2, 2) == [true, false];
    assert Row(3, 2) == [true, true];
  }

  /**
   * The table for an input over `A` and `B` that converts like the formula
   * `f`: the header, and the four rows with the truth value of `f` last.
   */
  lemma TwoVariableTable(s: seq<char>, f: Formula)
    requires WellNamed(f) && Atoms(f) == {'A', 'B'}
    requires s != [] && Trim(s) == s && LetterSet(s) == {'A', 'B'}
    requires ToPostfix(s) == Ok(Postfix(f))
    ensures TruthTableOf(s) == Ok(Table(["A", "B", s], [
      [false, false, Holds(f, map['A' := false, 'B' := false])],
      [false, true, Holds(f, map['A' := false, 'B' := true])],
      [true, false, Holds(f, map['A' := true, 'B' := false])],
      [true, true, Holds(f, map['A' := true, 'B' := true])]]))
  {
    TwoVariableRows(f);
    TwoVariableAssembly(s, f, TableRows(Postfix(f), ['A', 'B'], AllRows(2)).value);
  }

  /** The table of an input over `A` and `B` that converts like `f`, with the rows left abstract. */
  lemma TwoVariableAssembly(s: seq<char>, f: Formula, rows: seq<seq<bool>>)
    requires s != [] && Trim(s) == s && LetterSet(s) == {'A', 'B'}
    requires ToPostfix(s) == Ok(Postfix(f))
    requires Resolvable(Postfix(f), ['A', 'B'])
    requires TableRows(Postfix(f), ['A', 'B'], AllRows(2)) == Ok(rows)
    ensures TruthTableOf(s) == Ok(Table(["A", "B", s], rows))
  {
    TwoVariableParse(s, f);
    HeaderOfTwo(s);
    TableFromParts(s, Parsed(['A', 'B'], Postfix(f)), rows);
  }

  /** The header for `A`, `B` and the expression `s`. */
  lemma HeaderOfTwo(s: seq<char>)
    ensures Header(['A', 'B'], s) == ["A", "B", s]
  {
  }

  /** An input over `A` and `B` that converts like `f` parses to `A`, `B` and the postfix form of `f`. */
  lemma TwoVariableParse(s: seq<char>, f: Formula)
    requires LetterSet(s) == {'A', 'B'}
    requires ToPostfix(s) == Ok(Postfix(f))
    ensures Parse(s) == Ok(Parsed(['A', 'B'], Postfix(f)))
  {
    SortedLettersUnique({'A', 'B'}, ['A', 'B']);
  }

  /** The rows of the table of a formula over `A` and `B`. */
  lemma TwoVariableRows(f: Formula)
    requires WellNamed(f) && Atoms(f) == {'A', 'B'}
    ensures Resolvable(Postfix(f), ['A', 'B'])
    ensures TableRows(Postfix(f), ['A', 'B'], AllRows(2)) == Ok([
      [false, false, Holds(f, map['A' := false, 'B' := false])],
      [false, true, Holds(f, map['A' := false, 'B' := true])],
      [true, false, Holds(f, map['A' := true, 'B' := false])],
      [true, true, Holds(f, map['A' := true, 'B' := true])]])
  {
    var rows := TwoVariableSucceeds(f);
    FourRows();
    TwoVariableRow(f, rows, 0, false, false);
    TwoVariableRow(f, rows, 1, false, true);
    TwoVariableRow(f, rows, 2, true, false);
    TwoVariableRow(f, rows, 3, true, true);
    assert rows == [rows[0], rows[1], rows[2], rows[3]];
  }

  /** The rows of the table of a formula over `A` and `B` are produced, four of them. */
  lemma TwoVariableSucceeds(f: Formula) returns (rows: seq<seq<bool>>)
    requires WellNamed(f) && Atoms(f) == {'A', 'B'}
    ensures Resolvable(Postfix(f), ['A', 'B'])
    ensures TableRows(Postfix(f), ['A', 'B'], AllRows(2)) == Ok(rows) && |rows| == 4
  {
    assert Pow2(2) == 4;
    FormulaRows(f, ['A', 'B'], AllRows(2));
    rows := TableRows(Postfix(f), ['A', 'B'], AllRows(2)).value;
  }

  /** Row `i` of the table of a formula over `A` and `B`, when its assignment is `a`, `b`. */
  lemma TwoVariableRow(f: Formula, rows: seq<seq<bool>>, i: nat, a: bool, b: bool)
    requires WellNamed(f) && Atoms(f) == {'A', 'B'}
    requires Resolvable(Postfix(f), ['A', 'B'])
    requires TableRows(Postfix(f), ['A', 'B'], AllRows(2)) == Ok(rows)
    requires i < |AllRows(2)| && AllRows(2)[i] == [a, b]
    ensures i < |rows| && rows[i] == [a, b, Holds(f, map['A' := a, 'B' := b])]
  {
    FormulaRows(f, ['A', 'B'], AllRows(2));
    LookupTwo(a, b);
  }

  /** `A ∧ B`: true only in the last row, where both variables are true. */
  lemma ConjunctionTable(s: seq<char>)
    requires s == "A ∧ B"
    ensures TruthTableOf(s) == Ok(Table(["A", "B", s], [
      [false, false, false],
      [false, true, false],
      [true, false, false],
      [true, true, true]]))
  {
    var f := Bin(And, Atom('A'), Atom('B'));
    assert Atoms(f) == {'A', 'B'};
    assert Postfix(f) == [Var('A'), Var('B'), Operator(And)];
    ConjunctionInput(s);
    TwoVariableTable(s, f);
  }

  /** `A ∧ B` is already trimmed, mentions `A` and `B`, and converts to `A B ∧`. */
  lemma ConjunctionInput(s: seq<char>)
    requires s == "A ∧ B"
    ensures s != [] && Trim(s) == s && LetterSet(s) == {'A', 'B'}
    ensures ToPostfix(s) == Ok([Var('A'), Var('B'), Operator(And)])
  {
    ConjunctionPostfix(s);
    assert LetterSet(s) == {'A', 'B'} by {
      assert s == ['A', ' ', '∧', ' ', 'B'];
    }
    TrimClean(s);
  }

  /** The converter on `A ∧ B`. */
  lemma ConjunctionPostfix(s: seq<char>)
    requires s == "A ∧ B"
    ensures ToPostfix(s) == Ok([Var('A'), Var('B'), Operator(And)])
  {
    var a, b, and := Var('A'), Var('B'), Operator(And);
    assert s[0..] == s;
    LetterStep(Shunt([], []), s, 0, [a]);
    SpaceStep(Shunt([a], []), s, 1);
    OperatorPush(Shunt([a], []), s, 2, Shunt([a], []), [and]);
    SpaceStep(Shunt([a], [and]), s, 3);
    LetterStep(Shunt([a], [and]), s, 4, [a, b]);
    assert s[5..] == [];
    assert Drain(Shunt([a, b], [and])) == Ok([a, b, and]) by {
      assert Transfer(Shunt([a, b], [and])) == Shunt([a, b, and], []);
    }
    ConvertsTo(s, Shunt([a, b], [and]), [a, b, and]);
  }

  /** The converter on `(A → B) ↔ (¬A ∨ B)`: the implication, then the disjunction, then `↔`. */
  lemma TautologyPostfix()
    ensures ToPostfix("(A → B) ↔ (¬A ∨ B)") == Ok(TautologyTokens())
  {
    TautologyOutput();
    TautologyDrain();
    ConvertsTo("(A → B) ↔ (¬A ∨ B)", Shunt(TautologyTokens()[..7], [Operator(Iff)]), TautologyTokens());
  }

  /** The postfix form of `(A → B) ↔ (¬A ∨ B)`. */
  function TautologyTokens(): (r: seq<Token>)
    ensures |r| == 8
  {
    [Var('A'), Var('B'), Operator(Implies), Var('A'), Operator(Not), Var('B'), Operator(Or), Operator(Iff)]
  }

  /** The converter yields what the scanning loop leaves, drained. */
  lemma ConvertsTo(s: seq<char>, st: Shunt, out: seq<Token>)
    requires Run(Shunt([], []), s) == Ok(st) && Drain(st) == Ok(out)
    ensures ToPostfix(s) == Ok(out)
  {
  }

  /** Draining the `↔` left on the stack completes the postfix form. */
  lemma TautologyDrain()
    ensures Drain(Shunt(TautologyTokens()[..7], [Operator(Iff)])) == Ok(TautologyTokens())
  {
    var output := TautologyTokens()[..7];
    assert Transfer(Shunt(output, [Operator(Iff)])) == Shunt(output + [Operator(Iff)], []);
    assert output + [Operator(Iff)] == TautologyTokens();
  }

  /** What the scanning loop leaves on `(A → B) ↔ (¬A ∨ B)`: everything but `↔` is output. */
  lemma TautologyOutput()
    ensures Run(Shunt([], []), "(A → B) ↔ (¬A ∨ B)") == Ok(Shunt(TautologyTokens()[..7], [Operator(Iff)]))
  {
    TautologyScan();
    TautologyGroups();
  }

  /** The three groups of output tokens make up all but the last token. */
  lemma TautologyGroups()
    ensures [] + [Var('A'), Var('B'), Operator(Implies)] + [Var('A')] + [Operator(Not), Var('B'), Operator(Or)]
      == TautologyTokens()[..7]
  {
  }

  /** The scanning loop on `(A → B) ↔ (¬A ∨ B)`, one group at a time. */
  lemma TautologyScan()
    ensures Run(Shunt([], []), "(A → B) ↔ (¬A ∨ B)")
      == Ok(Shunt([] + [Var('A'), Var('B'), Operator(Implies)] + [Var('A')] + [Operator(Not), Var('B'), Operator(Or)],
                  [Operator(Iff)]))
  {
    var init := Shunt([], []);
    var x, y, z := "(A → B)", " ↔ ", "(¬A ∨ B)";
    TautologySplit();
    ImplicationGroup(init, x);
    RunAppend(init, x, y);
    BiconditionalJoin(Shunt([] + [Var('A'), Var('B'), Operator(Implies)], []), y);
    RunAppend(init, x + y, z);
    DisjunctionGroup(Shunt([] + [Var('A'), Var('B'), Operator(Implies)], [Operator(Iff)]), z);
  }

  /** `(A → B) ↔ (¬A ∨ B)` in its three groups. */
  lemma TautologySplit()
    ensures "(A → B) ↔ (¬A ∨ B)" == "(A → B)" + " ↔ " + "(¬A ∨ B)"
  {
  }

  /** `(A → B)` on an empty stack appends `A B →`. */
  lemma ImplicationGroup(st: Shunt, s: seq<char>)
    requires st.stack == [] && s == "(A → B)"
    ensures Run(st, s) == Ok(Shunt(st.output + [Var('A'), Var('B'), Operator(Implies)], []))
  {
    ImplicationOpening(st, s);
    ImplicationClosing(st.output, s);
  }

  /** `(A → ` pushes `(` and `→` and outputs `A`. */
  lemma ImplicationOpening(st: Shunt, s: seq<char>)
    requires st.stack == [] && s == "(A → B)"
    ensures Run(st, s) == Run(Shunt(st.output + [Var('A')], [LParen, Operator(Implies)]), s[5..])
  {
    var a, imp := Var('A'), Operator(Implies);
    var out := st.output;
    assert s[0..] == s;
    OpenPush(st, s, 0, [LParen]);
    LetterStep(Shunt(out, [LParen]), s, 1, out + [a]);
    SpaceStep(Shunt(out + [a], [LParen]), s, 2);
    OperatorPush(Shunt(out + [a], [LParen]), s, 3, Shunt(out + [a], [LParen]), [LParen, imp]);
    SpaceStep(Shunt(out + [a], [LParen, imp]), s, 4);
  }

  /** `B)` after `( →` outputs `B`, then `→`, and removes the `(`. */
  lemma ImplicationClosing(out: seq<Token>, s: seq<char>)
    requires s == "(A → B)"
    ensures Run(Shunt(out + [Var('A')], [LParen, Operator(Implies)]), s[5..])
      == Ok(Shunt(out + [Var('A'), Var('B'), Operator(Implies)], []))
  {
    var a, b, imp := Var('A'), Var('B'), Operator(Implies);
    LetterStep(Shunt(out + [a], [LParen, imp]), s, 5, out + [a, b]);
    assert [LParen, imp] == [] + [LParen, imp];
    CloseParen(out + [a, b], [], Implies);
    ClosePop(Shunt(out + [a, b], [LParen, imp]), s, 6, Shunt(out + [a, b] + [imp], []));
    assert s[7..] == [];
    assert out + [a, b] + [imp] == out + [a, b, imp];
  }

  /** ` ↔ ` on an empty stack pushes `↔`. */
  lemma BiconditionalJoin(st: Shunt, s: seq<char>)
    requires st.stack == [] && s == " ↔ "
    ensures Run(st, s) == Ok(Shunt(st.output, [Operator(Iff)]))
  {
    assert s[0..] == s;
    SpaceStep(st, s, 0);
    OperatorPush(st, s, 1, st, [Operator(Iff)]);
    SpaceStep(Shunt(st.output, [Operator(Iff)]), s, 2);
    assert s[3..] == [];
  }

  /** `(¬A ∨ B)` appends `A`, then `¬ B ∨`: `∨` sends `¬` to the output first. */
  lemma DisjunctionGroup(st: Shunt, s: seq<char>)
    requires s == "(¬A ∨ B)"
    ensures Run(st, s)
      == Ok(Shunt(st.output + [Var('A')] + [Operator(Not), Var('B'), Operator(Or)], st.stack))
  {
    NegatedOperand(st, s);
    DisjunctionClosing(st.output + [Var('A')], st.stack, s);
  }

  /** `(¬A` pushes `(` and `¬` and outputs `A`. */
  lemma NegatedOperand(st: Shunt, s: seq<char>)
    requires s == "(¬A ∨ B)"
    ensures Run(st, s) == Run(Shunt(st.output + [Var('A')], st.stack + [LParen, Operator(Not)]), s[3..])
  {
    var inner := Shunt(st.output, st.stack + [LParen]);
    var not := Operator(Not);
    assert s[0..] == s;
    OpenPush(st, s, 0, inner.stack);
    assert PopWhileHigher(inner, 4) == inner;
    OperatorPush(inner, s, 1, inner, inner.stack + [not]);
    LetterStep(Shunt(st.output, inner.stack + [not]), s, 2, st.output + [Var('A')]);
    assert inner.stack + [not] == st.stack + [LParen, not];
  }

  /** ` ∨ B)` after `( ¬`: `∨` pops `¬`, `B` is output, and `)` pops `∨` and the `(`. */
  lemma DisjunctionClosing(out: seq<Token>, below: seq<Token>, s: seq<char>)
    requires s == "(¬A ∨ B)"
    ensures Run(Shunt(out, below + [LParen, Operator(Not)]), s[3..])
      == Ok(Shunt(out + [Operator(Not), Var('B'), Operator(Or)], below))
  {
    var b, not, or := Var('B'), Operator(Not), Operator(Or);
    var st := Shunt(out, below + [LParen, not]);
    SpaceStep(st, s, 3);
    assert PopWhileHigher(st, 2) == Shunt(out + [not], below + [LParen]) by {
      assert Transfer(st) == Shunt(out + [not], below + [LParen]);
    }
    OperatorPush(st, s, 4, Shunt(out + [not], below + [LParen]), below + [LParen, or]);
    SpaceStep(Shunt(out + [not], below + [LParen, or]), s, 5);
    LetterStep(Shunt(out + [not], below + [LParen, or]), s, 6, out + [not, b]);
    CloseParen(out + [not, b], below, Or);
    ClosePop(Shunt(out + [not, b], below + [LParen, or]), s, 7, Shunt(out + [not, b] + [or], below));
    assert s[8..] == [];
    assert out + [not, b] + [or] == out + [not, b, or];
  }

  /** `(A → B) ↔ (¬A ∨ B)` is a tautology: every row of its table ends in true. */
  lemma TautologyTable()
    ensures TruthTableOf("(A → B) ↔ (¬A ∨ B)") == Ok(Table(["A", "B", "(A → B) ↔ (¬A ∨ B)"], [
      [false, false, true],
      [false, true, true],
      [true, false, true],
      [true, true, true]]))
  {
    var s := "(A → B) ↔ (¬A ∨ B)";
    var f := TautologyFormula();
    TautologyInput(s);
    TwoVariableTable(s, f);
  }

  /** `(A → B) ↔ (¬A ∨ B)` is already trimmed, mentions `A` and `B`, and converts. */
  lemma TautologyInput(s: seq<char>)
    requires s == "(A → B) ↔ (¬A ∨ B)"
    ensures s != [] && Trim(s) == s && LetterSet(s) == {'A', 'B'}
    ensures ToPostfix(s) == Ok(TautologyTokens())
  {
    TautologyPostfix();
    TautologyLetters(s);
    TautologyTrimmed(s);
  }

  /** `(A → B) ↔ (¬A ∨ B)` has nothing to trim. */
  lemma TautologyTrimmed(s: seq<char>)
    requires s == "(A → B) ↔ (¬A ∨ B)"
    ensures s != [] && Trim(s) == s
  {
    assert s[0] == '(' && s[|s| - 1] == ')';
    TrimClean(s);
  }

  /** The formula `(A → B) ↔ (¬A ∨ B)` converts to, and its value under each assignment. */
  lemma TautologyFormula() returns (f: Formula)
    ensures WellNamed(f) && Atoms(f) == {'A', 'B'} && Postfix(f) == TautologyTokens()
    ensures Holds(f, map['A' := false, 'B' := false]) && Holds(f, map['A' := false, 'B' := true])
    ensures Holds(f, map['A' := true, 'B' := false]) && Holds(f, map['A' := true, 'B' := true])
  {
    f := Bin(Iff, Bin(Implies, Atom('A'), Atom('B')), Bin(Or, Neg(Atom('A')), Atom('B')));
    assert Atoms(f) == {'A', 'B'};
  }

  /** The variables of `(A → B) ↔ (¬A ∨ B)` are `A` and `B`. */
  lemma TautologyLetters(s: seq<char>)
    requires s == "(A → B) ↔ (¬A ∨ B)"
    ensures LetterSet(s) == {'A', 'B'}
  {
    assert s == ['(', 'A', ' ', '→', ' ', 'B', ')', ' ', '↔', ' ', '(', '¬', 'A', ' ', '∨', ' ', 'B', ')'];
  }

  /** A blank input is reported as empty. */
  lemma BlankInput(s: seq<char>)
    requires s == " \t\n"
    ensures TruthTableOf(s) == Err(Empty)
  {
    TruthTableErrors(s);
  }

  /** `A ∧ (B` leaves a parenthesis open. */
  lemma UnclosedParenthesis(s: seq<char>)
    requires s == "A ∧ (B"
    ensures TruthTableOf(s) == Err(ParseFailed(MismatchedParentheses))
  {
    TrimClean(s);
    UnclosedCount();
    TruthTableErrors(s);
  }

  /** The parenthesis counter ends `A ∧ (B` with one `(` open. */
  lemma UnclosedCount()
    ensures BalanceCheck("A ∧ (B", 0) == Err(MismatchedParentheses)
  {
    assert "A ∧ (B" == ['A', ' ', '∧', ' ', '(', 'B'];
  }

  /** `%` is not a character of the language. */
  lemma UnknownCharacter(s: seq<char>)
    requires s == "A % B"
    ensures TruthTableOf(s) == Err(ParseFailed(InvalidCharacter('%')))
  {
    UnknownCharacterFound(s);
    ParseFailure(s, InvalidCharacter('%'));
  }

  /** The character check stops at `%`. */
  lemma UnknownCharacterFound(s: seq<char>)
    requires s == "A % B"
    ensures s != [] && Trim(s) == s && BalanceCheck(s, 0) == Err(InvalidCharacter('%'))
  {
    TrimClean(s);
    assert !IsAccepted('%');
    assert s == ['A', ' ', '%', ' ', 'B'];
    assert BalanceCheck(s, 0) == BalanceCheck(s[2..], 0);
  }

  /** A trimmed input that fails the character and parenthesis check is reported with that error. */
  lemma ParseFailure(s: seq<char>, e: ParseError)
    requires s != [] && Trim(s) == s && BalanceCheck(s, 0) == Err(e)
    ensures TruthTableOf(s) == Err(ParseFailed(e))
  {
    TruthTableErrors(s);
  }

  /** `A B` converts, but its postfix form leaves two values. */
  lemma AdjacentVariablesTable(s: seq<char>)
    requires s == "A B"
    ensures TruthTableOf(s) == Err(EvalFailed(Malformed))
  {
    var a, b := Var('A'), Var('B');
    TrimClean(s);
    assert s[0..] == s;
    LetterStep(Shunt([], []), s, 0, [a]);
    SpaceStep(Shunt([a], []), s, 1);
    LetterStep(Shunt([a], []), s, 2, [a, b]);
    assert s[3..] == [];
    assert Drain(Shunt([a, b], [])) == Ok([a, b]);
    ConvertsTo(s, Shunt([a, b], []), [a, b]);
    ToPostfixFailsLikeBalanceCheck(s);
    TwoValuesLeft();
    TruthTableErrors(s);
  }

  /** The postfix form `A B` leaves two values. */
  lemma TwoValuesLeft()
    ensures HeightCheck([Var('A'), Var('B')], 0) == Ok(2)
  {
    assert [Var('A'), Var('B')][1..] == [Var('B')];
  }

  /** `¬¬A` converts to `¬ A ¬`, which is short of an operand. */
  lemma DoubleNegationTable(s: seq<char>)
    requires s == "¬¬A"
    ensures TruthTableOf(s) == Err(EvalFailed(InsufficientOperands))
  {
    TrimClean(s);
    DoubleNegationPostfix(s);
    ToPostfixFailsLikeBalanceCheck(s);
    assert HeightCheck([Operator(Not), Var('A'), Operator(Not)], 0).Err?;
    TruthTableErrors(s);
  }

  /**
   * A leading tab: the validity check, which reads the text untrimmed, rejects
   * it, while the table, built from the trimmed text, is that of `A`.
   */
  lemma LeadingTab(s: seq<char>)
    requires s == "\tA"
    ensures Trim(s) != [] && BalanceCheck(s, 0) == Err(InvalidCharacter('\t'))
    ensures TruthTableOf(s) == Ok(Table(["A", "A"], [[false, false], [true, true]]))
  {
    TabTrimmed(s);
    TabRejected(s);
    TableOfTrim(s);
    SingleVariableTable(Trim(s));
  }

  /** Trimming `\tA` leaves `A`. */
  lemma TabTrimmed(s: seq<char>)
    requires s == "\tA"
    ensures Trim(s) == "A"
  {
    assert IsWhitespace(s[0]) && s[1..] == "A";
    TrimDropsLeading(s);
    TrimClean("A");
  }

  /** The tab is not a character of the language. */
  lemma TabRejected(s: seq<char>)
    requires s == "\tA"
    ensures BalanceCheck(s, 0) == Err(InvalidCharacter('\t'))
  {
    assert s[0] == '\t' && !IsAccepted('\t');
  }

  /** The table of `A`: one variable, two rows, the result equal to the variable. */
  lemma SingleVariableTable(s: seq<char>)
    requires s == "A"
    ensures TruthTableOf(s) == Ok(Table(["A", "A"], [[false, false], [true, true]]))
  {
    SingleVariableParse(s);
    var rows := SingleVariableRows();
    assert Header(['A'], s) == ["A", "A"];
    TableFromParts(s, Parsed(['A'], [Var('A')]), rows);
  }

  /** `A` parses to the one variable `A` and the postfix form `A`. */
  lemma SingleVariableParse(s: seq<char>)
    requires s == "A"
    ensures s != [] && Trim(s) == s
    ensures Parse(s) == Ok(Parsed(['A'], [Var('A')]))
  {
    TrimClean(s);
    assert s[0..] == s;
    LetterStep(Shunt([], []), s, 0, [Var('A')]);
    assert s[1..] == [];
    assert Drain(Shunt([Var('A')], [])) == Ok([Var('A')]);
    ConvertsTo(s, Shunt([Var('A')], []), [Var('A')]);
    assert LetterSet(s) == {'A'};
    SortedLettersUnique({'A'}, ['A']);
  }

  /** The two rows of the table of `A`. */
  lemma SingleVariableRows() returns (rows: seq<seq<bool>>)
    ensures Resolvable([Var('A')], ['A'])
    ensures TableRows([Var('A')], ['A'], AllRows(1)) == Ok(rows)
    ensures rows == [[false, false], [true, true]]
  {
    var f := Atom('A');
    assert Postfix(f) == [Var('A')];
    assert Pow2(1) == 2;
    assert Bit(0, 0) == false && Bit(1, 0) == true;
    assert Row(0, 1) == [false] && Row(1, 1) == [true];
    assert AllRows(1)[0] == [false] && AllRows(1)[1] == [true];
    FormulaRows(f, ['A'], AllRows(1));
    rows := TableRows([Var('A')], ['A'], AllRows(1)).value;
    assert Lookup(['A'], [false]) == map['A' := false];
    assert Lookup(['A'], [true]) == map['A' := true];
    assert rows[0] == [false, false] && rows[1] == [true, true];
  }
}
