/**
 * What the shunting-yard converter of module `Parser` guarantees about its
 * output: no parentheses survive, variables keep their input order, every
 * operator symbol is kept, operators waiting on the stack bind more tightly
 * towards the top, and it fails exactly where a simple parenthesis counter
 * fails.
 */
module ParserProofs {
  import opened Wrappers
  import opened Operators
  import opened Parser

  // ---------------------------------------------------------------------------
  // Views of token and character sequences
  // ---------------------------------------------------------------------------

  /** The names of the variable tokens of `ts`, in order. */
  function VarNames(ts: seq<Token>): seq<char>
  {
    if ts == [] then []
    else VarNames(ts[..|ts| - 1]) + (if ts[|ts| - 1].Var? then [ts[|ts| - 1].name] else [])
  }

  /** The operators of the operator tokens of `ts`, in order. */
  function OpsIn(ts: seq<Token>): seq<Op>
  {
    if ts == [] then []
    else OpsIn(ts[..|ts| - 1]) + (if ts[|ts| - 1].Operator? then [ts[|ts| - 1].op] else [])
  }

  /** The number of `(` markers in `ts`. */
  function Opens(ts: seq<Token>): nat
  {
    if ts == [] then 0
    else Opens(ts[..|ts| - 1]) + (if ts[|ts| - 1] == LParen then 1 else 0)
  }

  /** The letters of `s`, in order. */
  function Letters(s: seq<char>): seq<char>
  {
    if s == [] then []
    else (if IsLetter(s[0]) then [s[0]] else []) + Letters(s[1..])
  }

  /** The operators the symbols of `s` denote, in order. */
  function OpSymbols(s: seq<char>): seq<Op>
  {
    if s == [] then []
    else (if OpOf(s[0]).Some? then [OpOf(s[0]).op] else []) + OpSymbols(s[1..])
  }

  /** The state invariant: no `(` in the output and no variable on the stack. */
  predicate Clean(st: Shunt)
  {
    LParen !in st.output && forall t :: t in st.stack ==> !t.Var?
  }

  /** Operators waiting on the stack with nothing between them rise strictly in precedence towards the top. */
  predicate Ordered(stack: seq<Token>)
  {
    forall i :: 0 < i < |stack| && stack[i - 1].Operator? && stack[i].Operator? ==>
      Precedence(stack[i - 1].op) < Precedence(stack[i].op)
  }

  // ---------------------------------------------------------------------------
  // Reference check: a single counter of open parentheses
  // ---------------------------------------------------------------------------

  /**
   * Reads `s` left to right with `open` parentheses unclosed: a character the
   * converter does not accept, a `)` with none open, or parentheses left open
   * at the end is the error.
   */
  function BalanceCheck(s: seq<char>, open: nat): Result<(), ParseError>
  {
    if s == [] then (if open == 0 then Ok(()) else Err(MismatchedParentheses))
    else if !IsAccepted(s[0]) then Err(InvalidCharacter(s[0]))
    else if s[0] == '(' then BalanceCheck(s[1..], open + 1)
    else if s[0] == ')' then (if open == 0 then Err(MismatchedParentheses) else BalanceCheck(s[1..], open - 1))
    else BalanceCheck(s[1..], open)
  }

  // ---------------------------------------------------------------------------
  // The inner pop loops
  // ---------------------------------------------------------------------------

  /** `ts` in reverse order: the order in which popping a stack delivers its entries. */
  function Reversed(ts: seq<Token>): seq<Token>
  {
    if ts == [] then [] else [ts[|ts| - 1]] + Reversed(ts[..|ts| - 1])
  }

  /**
   * An incoming operator of precedence `p` pops entries off the top of the
   * stack only: what is left is a prefix of the stack, and the popped entries
   * reach the output top first.
   */
  lemma {:induction false} PopWhileHigherMoves(st: Shunt, p: nat)
    ensures var r := PopWhileHigher(st, p);
      && |r.stack| <= |st.stack|
      && r.stack == st.stack[..|r.stack|]
      && r.output == st.output + Reversed(st.stack[|r.stack|..])
    decreases |st.stack|
  {
    var n := |st.stack|;
    if n > 0 && st.stack[n - 1].Operator? && Precedence(st.stack[n - 1].op) >= p {
      var next := Transfer(st);
      PopWhileHigherMoves(next, p);
      var m := |PopWhileHigher(next, p).stack|;
      assert st.stack[..n - 1][..m] == st.stack[..m];
      assert st.stack[m..][..n - 1 - m] == next.stack[m..];
    } else {
      assert st.stack[n..] == [];
    }
  }

  /**
   * The operators popped for an incoming operator of precedence `p` are
   * exactly those at the top of the stack with precedence at least `p`: each
   * popped entry is one, and the entry left on top (if any) is a `(` or an
   * operator of lower precedence.
   */
  lemma {:induction false} PopWhileHigherPopsExactly(st: Shunt, p: nat)
    ensures var r := PopWhileHigher(st, p);
      && |r.stack| <= |st.stack|
      && (forall k :: |r.stack| <= k < |st.stack| ==> st.stack[k].Operator? && Precedence(st.stack[k].op) >= p)
      && (|r.stack| > 0 ==> !(r.stack[|r.stack| - 1].Operator? && Precedence(r.stack[|r.stack| - 1].op) >= p))
    decreases |st.stack|
  {
    var n := |st.stack|;
    if n > 0 && st.stack[n - 1].Operator? && Precedence(st.stack[n - 1].op) >= p {
      PopWhileHigherPopsExactly(Transfer(st), p);
      PopWhileHigherMoves(Transfer(st), p);
    }
  }

  // ---------------------------------------------------------------------------
  // What moving tokens around keeps
  // ---------------------------------------------------------------------------

  /** The views of a sequence with one more token at its end. */
  lemma Snoc(ts: seq<Token>, t: Token)
    ensures VarNames(ts + [t]) == VarNames(ts) + (if t.Var? then [t.name] else [])
    ensures OpsIn(ts + [t]) == OpsIn(ts) + (if t.Operator? then [t.op] else [])
    ensures Opens(ts + [t]) == Opens(ts) + (if t == LParen then 1 else 0)
  {
    assert (ts + [t])[..|ts|] == ts;
  }

  /**
   * `b` holds the same variables in its output as `a`, and the same operators
   * across its output and stack.
   */
  predicate Conserves(a: Shunt, b: Shunt)
  {
    VarNames(b.output) == VarNames(a.output) && OpBag(b) == OpBag(a)
  }

  /** The operators held in the output and on the stack together. */
  function OpBag(st: Shunt): multiset<Op>
  {
    multiset(OpsIn(st.output)) + multiset(OpsIn(st.stack))
  }

  /** The operator a character contributes, if it is an operator symbol. */
  function SymbolBag(c: char): multiset<Op>
  {
    if OpOf(c).Some? then multiset{OpOf(c).op} else multiset{}
  }

  /** Moving a stack entry other than `(` to the output keeps the invariant and the counts. */
  lemma TransferConserves(st: Shunt)
    requires Clean(st) && |st.stack| > 0 && st.stack[|st.stack| - 1] != LParen
    ensures Clean(Transfer(st)) && Conserves(st, Transfer(st))
    ensures Opens(Transfer(st).stack) == Opens(st.stack)
  {
    var n := |st.stack|;
    var top := st.stack[n - 1];
    assert top in st.stack;
    Snoc(st.output, top);
    Snoc(st.stack[..n - 1], top);
    assert st.stack[..n - 1] + [top] == st.stack;
  }

  /** The pops for an incoming operator keep the invariant, the counts and the open parentheses. */
  lemma {:induction false} PopWhileHigherConserves(st: Shunt, p: nat)
    requires Clean(st)
    ensures Clean(PopWhileHigher(st, p)) && Conserves(st, PopWhileHigher(st, p))
    ensures Opens(PopWhileHigher(st, p).stack) == Opens(st.stack)
    decreases |st.stack|
  {
    var n := |st.stack|;
    if n > 0 && st.stack[n - 1].Operator? && Precedence(st.stack[n - 1].op) >= p {
      TransferConserves(st);
      PopWhileHigherConserves(Transfer(st), p);
    }
  }

  /** A `)` fails exactly when no `(` is open, and otherwise closes one and keeps the counts. */
  lemma {:induction false} PopToParenFacts(st: Shunt)
    requires Clean(st)
    ensures PopToParen(st).Err? <==> Opens(st.stack) == 0
    ensures PopToParen(st).Err? ==> PopToParen(st).error == MismatchedParentheses
    ensures PopToParen(st).Ok? ==>
      var r := PopToParen(st).value;
      Clean(r) && Conserves(st, r) && Opens(r.stack) + 1 == Opens(st.stack)
    decreases |st.stack|
  {
    var n := |st.stack|;
    if n == 0 {
    } else if st.stack[n - 1] == LParen {
      CloseAtParen(st);
    } else {
      assert PopToParen(st) == PopToParen(Transfer(st));
      TransferConserves(st);
      PopToParenFacts(Transfer(st));
    }
  }

  /** A `(` on top of the stack: the `)` discards it and nothing else. */
  lemma CloseAtParen(st: Shunt)
    requires Clean(st) && |st.stack| > 0 && st.stack[|st.stack| - 1] == LParen
    ensures PopToParen(st) == Ok(Shunt(st.output, st.stack[..|st.stack| - 1]))
    ensures var r := Shunt(st.output, st.stack[..|st.stack| - 1]);
      Clean(r) && Conserves(st, r) && Opens(r.stack) + 1 == Opens(st.stack)
  {
    var n := |st.stack|;
    Snoc(st.stack[..n - 1], LParen);
    assert st.stack[..n - 1] + [LParen] == st.stack;
  }

  /** Emptying the stack at the end fails exactly when a `(` is still open, and otherwise keeps the counts. */
  lemma {:induction false} DrainFacts(st: Shunt)
    requires Clean(st)
    ensures Drain(st).Err? <==> Opens(st.stack) > 0
    ensures Drain(st).Err? ==> Drain(st).error == MismatchedParentheses
    ensures Drain(st).Ok? ==>
      && LParen !in Drain(st).value
      && VarNames(Drain(st).value) == VarNames(st.output)
      && multiset(OpsIn(Drain(st).value)) == multiset(OpsIn(st.output)) + multiset(OpsIn(st.stack))
    decreases |st.stack|
  {
    var n := |st.stack|;
    if n == 0 {
    } else if st.stack[n - 1] == LParen {
      Snoc(st.stack[..n - 1], LParen);
      assert st.stack[..n - 1] + [LParen] == st.stack;
    } else {
      TransferConserves(st);
      DrainFacts(Transfer(st));
    }
  }

  /** One character fails exactly when it is not accepted, or is a `)` with no `(` open. */
  lemma StepFails(st: Shunt, c: char)
    requires Clean(st)
    ensures Step(st, c).Err? <==> !IsAccepted(c) || (c == ')' && Opens(st.stack) == 0)
    ensures Step(st, c).Err? ==>
      Step(st, c).error == if IsAccepted(c) then MismatchedParentheses else InvalidCharacter(c)
  {
    if c == ')' {
      PopToParenFacts(st);
    }
  }

  /** What one character does to the invariant, the counts and the open parentheses. */
  predicate StepKept(st: Shunt, c: char, next: Shunt)
  {
    && Clean(next)
    && VarNames(next.output) == VarNames(st.output) + (if IsLetter(c) then [c] else [])
    && OpBag(next) == OpBag(st) + SymbolBag(c)
    && Opens(next.stack) == Opens(st.stack) + (if c == '(' then 1 else 0) - (if c == ')' then 1 else 0)
  }

  /** The effect of one accepted character on the invariant, the counts and the open parentheses. */
  lemma StepKeeps(st: Shunt, c: char)
    requires Clean(st) && Step(st, c).Ok?
    ensures StepKept(st, c, Step(st, c).value)
  {
    if c == ' ' {
      SpaceKeeps(st, c);
    } else if IsLetter(c) {
      LetterKeeps(st, c);
    } else if OpOf(c).Some? {
      OperatorKeeps(st, c);
    } else if c == '(' {
      OpenKeeps(st, c);
    } else {
      CloseKeeps(st, c);
    }
  }

  lemma SpaceKeeps(st: Shunt, c: char)
    requires Clean(st) && c == ' '
    ensures Step(st, c) == Ok(st) && StepKept(st, c, st)
  {
    assert SymbolBag(c) == multiset{};
  }

  lemma LetterKeeps(st: Shunt, c: char)
    requires Clean(st) && c != ' ' && IsLetter(c)
    ensures Step(st, c) == Ok(Shunt(st.output + [Var(c)], st.stack))
    ensures StepKept(st, c, Shunt(st.output + [Var(c)], st.stack))
  {
    assert OpOf(c).None?;
    assert SymbolBag(c) == multiset{};
    Snoc(st.output, Var(c));
    assert LParen !in st.output + [Var(c)];
  }

  lemma OperatorKeeps(st: Shunt, c: char)
    requires Clean(st) && c != ' ' && !IsLetter(c) && OpOf(c).Some?
    ensures Step(st, c).Ok? && StepKept(st, c, Step(st, c).value)
  {
    var op := OpOf(c).op;
    var popped := PopWhileHigher(st, Precedence(op));
    var next := Shunt(popped.output, popped.stack + [Operator(op)]);
    assert Step(st, c) == Ok(next);
    PushKeeps(st, popped, op);
    assert SymbolBag(c) == multiset{op};
  }

  /** Pushing `op` after the pops for it keeps the invariant and adds `op` to the counts. */
  lemma PushKeeps(st: Shunt, popped: Shunt, op: Op)
    requires Clean(st) && popped == PopWhileHigher(st, Precedence(op))
    ensures var next := Shunt(popped.output, popped.stack + [Operator(op)]);
      && Clean(next)
      && VarNames(next.output) == VarNames(st.output)
      && OpBag(next) == OpBag(st) + multiset{op}
      && Opens(next.stack) == Opens(st.stack)
  {
    PopWhileHigherConserves(st, Precedence(op));
    Snoc(popped.stack, Operator(op));
    assert multiset(OpsIn(popped.stack + [Operator(op)])) == multiset(OpsIn(popped.stack)) + multiset{op};
  }

  lemma OpenKeeps(st: Shunt, c: char)
    requires Clean(st) && c == '('
    ensures Step(st, c) == Ok(Shunt(st.output, st.stack + [LParen]))
    ensures StepKept(st, c, Shunt(st.output, st.stack + [LParen]))
  {
    Snoc(st.stack, LParen);
    assert SymbolBag(c) == multiset{};
    assert OpsIn(st.stack + [LParen]) == OpsIn(st.stack);
  }

  lemma CloseKeeps(st: Shunt, c: char)
    requires Clean(st) && c == ')' && PopToParen(st).Ok?
    ensures Step(st, c) == PopToParen(st) && StepKept(st, c, PopToParen(st).value)
  {
    PopToParenFacts(st);
    assert SymbolBag(c) == multiset{};
  }

  /** The counter after the character `c`, with `open` parentheses open before it. */
  function OpensAfter(c: char, open: nat): nat
  {
    if c == '(' then open + 1 else if c == ')' && open > 0 then open - 1 else open
  }

  /** One character of the parenthesis counter. */
  lemma BalanceCheckStep(s: seq<char>, open: nat)
    requires s != []
    ensures BalanceCheck(s, open)
      == if !IsAccepted(s[0]) then Err(InvalidCharacter(s[0]))
         else if s[0] == ')' && open == 0 then Err(MismatchedParentheses)
         else BalanceCheck(s[1..], OpensAfter(s[0], open))
  {
  }

  // ---------------------------------------------------------------------------
  // The scanning loop
  // ---------------------------------------------------------------------------

  /** The scanning loop fails with the error the parenthesis counter reports. */
  lemma {:induction false} RunFails(st: Shunt, s: seq<char>)
    requires Clean(st)
    ensures Run(st, s).Err? ==> BalanceCheck(s, Opens(st.stack)) == Err(Run(st, s).error)
    decreases |s|
  {
    if s != [] {
      var c := s[0];
      BalanceCheckStep(s, Opens(st.stack));
      StepFails(st, c);
      if Step(st, c).Ok? {
        var next := StepBalance(st, c);
        assert Run(st, s) == Run(next, s[1..]);
        RunFails(next, s[1..]);
      }
    }
  }

  /** `StepKeeps`, keeping only the invariant and the open parentheses. */
  lemma StepBalance(st: Shunt, c: char) returns (next: Shunt)
    requires Clean(st) && Step(st, c).Ok?
    ensures Step(st, c) == Ok(next) && Clean(next) && Opens(next.stack) == OpensAfter(c, Opens(st.stack))
  {
    next := Step(st, c).value;
    StepKeeps(st, c);
  }

  /**
   * A successful scan of a non-empty `s` is a successful step on `s[0]`, with
   * what that step keeps, followed by a successful scan of the rest.
   */
  lemma RunStep(st: Shunt, s: seq<char>) returns (next: Shunt)
    requires Clean(st) && s != [] && Run(st, s).Ok?
    ensures Run(st, s) == Run(next, s[1..])
    ensures StepKept(st, s[0], next)
    ensures IsAccepted(s[0]) && (s[0] == ')' ==> Opens(st.stack) > 0)
  {
    next := Step(st, s[0]).value;
    StepFails(st, s[0]);
    StepKeeps(st, s[0]);
  }

  /** `RunStep`, keeping only the invariant. */
  lemma RunStepClean(st: Shunt, s: seq<char>) returns (next: Shunt)
    requires Clean(st) && s != [] && Run(st, s).Ok?
    ensures Run(st, s) == Run(next, s[1..]) && Clean(next)
  {
    next := RunStep(st, s);
  }

  /** `RunStep`, keeping only the variables. */
  lemma RunStepVariables(st: Shunt, s: seq<char>) returns (next: Shunt)
    requires Clean(st) && s != [] && Run(st, s).Ok?
    ensures Run(st, s) == Run(next, s[1..]) && Clean(next)
    ensures VarNames(next.output) == VarNames(st.output) + (if IsLetter(s[0]) then [s[0]] else [])
  {
    next := RunStep(st, s);
  }

  /** `RunStep`, keeping only the operators. */
  lemma RunStepOperators(st: Shunt, s: seq<char>) returns (next: Shunt)
    requires Clean(st) && s != [] && Run(st, s).Ok?
    ensures Run(st, s) == Run(next, s[1..]) && Clean(next)
    ensures OpBag(next) == OpBag(st) + SymbolBag(s[0])
  {
    next := RunStep(st, s);
  }

  /** `RunStep`, keeping only the open parentheses. */
  lemma RunStepBalance(st: Shunt, s: seq<char>) returns (next: Shunt)
    requires Clean(st) && s != [] && Run(st, s).Ok?
    ensures Run(st, s) == Run(next, s[1..]) && Clean(next)
    ensures IsAccepted(s[0]) && (s[0] == ')' ==> Opens(st.stack) > 0)
    ensures Opens(next.stack) == OpensAfter(s[0], Opens(st.stack))
  {
    next := RunStep(st, s);
  }

  /** A successful scan keeps the invariant. */
  lemma {:induction false} RunKeepsClean(st: Shunt, s: seq<char>)
    requires Clean(st) && Run(st, s).Ok?
    ensures Clean(Run(st, s).value)
    decreases |s|
  {
    if s != [] {
      var next := RunStepClean(st, s);
      RunKeepsClean(next, s[1..]);
    }
  }

  /** After a successful scan the output holds the letters of `s` in order. */
  lemma {:induction false} RunKeepsVariables(st: Shunt, s: seq<char>)
    requires Clean(st) && Run(st, s).Ok?
    ensures VarNames(Run(st, s).value.output) == VarNames(st.output) + Letters(s)
    decreases |s|
  {
    if s != [] {
      var next := RunStepVariables(st, s);
      RunKeepsVariables(next, s[1..]);
      assert Letters(s) == (if IsLetter(s[0]) then [s[0]] else []) + Letters(s[1..]);
    }
  }

  /** A successful scan loses no operator symbol of `s`. */
  lemma {:induction false} RunKeepsOperators(st: Shunt, s: seq<char>)
    requires Clean(st) && Run(st, s).Ok?
    ensures OpBag(Run(st, s).value) == OpBag(st) + multiset(OpSymbols(s))
    decreases |s|
  {
    if s != [] {
      var next := RunStepOperators(st, s);
      RunKeepsOperators(next, s[1..]);
      assert multiset(OpSymbols(s)) == SymbolBag(s[0]) + multiset(OpSymbols(s[1..]));
    }
  }

  /** After a successful scan the parenthesis counter has the scan's open `(` markers still to close. */
  lemma {:induction false} RunKeepsBalance(st: Shunt, s: seq<char>)
    requires Clean(st) && Run(st, s).Ok?
    ensures BalanceCheck(s, Opens(st.stack)) == BalanceCheck([], Opens(Run(st, s).value.stack))
    decreases |s|
  {
    if s != [] {
      var next := RunStepBalance(st, s);
      BalanceCheckStep(s, Opens(st.stack));
      RunKeepsBalance(next, s[1..]);
    }
  }

  /** All that a successful scan keeps. */
  lemma RunKeeps(st: Shunt, s: seq<char>)
    requires Clean(st) && Run(st, s).Ok?
    ensures var f := Run(st, s).value;
      && Clean(f)
      && VarNames(f.output) == VarNames(st.output) + Letters(s)
      && OpBag(f) == OpBag(st) + multiset(OpSymbols(s))
      && BalanceCheck(s, Opens(st.stack)) == BalanceCheck([], Opens(f.stack))
  {
    RunKeepsClean(st, s);
    RunKeepsVariables(st, s);
    RunKeepsOperators(st, s);
    RunKeepsBalance(st, s);
  }

  // ---------------------------------------------------------------------------
  // The converter's guarantees
  // ---------------------------------------------------------------------------

  /**
   * The converter fails exactly when the parenthesis counter does, with the
   * same error: on the first character it does not accept, on a `)` with no
   * `(` open, or on a `(` left open at the end, whichever comes first.
   */
  lemma ToPostfixFailsLikeBalanceCheck(s: seq<char>)
    ensures ToPostfix(s).Err? <==> BalanceCheck(s, 0).Err?
    ensures ToPostfix(s).Err? ==> ToPostfix(s).error == BalanceCheck(s, 0).error
  {
    var init := Shunt([], []);
    RunFails(init, s);
    if Run(init, s).Ok? {
      RunKeeps(init, s);
      DrainFacts(Run(init, s).value);
    }
  }

  /**
   * The postfix output never holds a parenthesis, keeps the variables in the
   * order of the input, and holds each operator symbol of the input as many
   * times as the input does.
   */
  lemma PostfixFacts(s: seq<char>)
    requires ToPostfix(s).Ok?
    ensures LParen !in ToPostfix(s).value
    ensures VarNames(ToPostfix(s).value) == Letters(s)
    ensures multiset(OpsIn(ToPostfix(s).value)) == multiset(OpSymbols(s))
  {
    var init := Shunt([], []);
    RunKeeps(init, s);
    DrainFacts(Run(init, s).value);
    assert OpBag(init) == multiset{};
  }

  /**
   * The variables of a successful parse are listed in ascending order without
   * repetition, are exactly the letters of the input, and name every variable
   * token of the postfix output; every other output token is an operator.
   */
  lemma ParseFacts(s: seq<char>)
    requires Parse(s).Ok?
    ensures StrictlyIncreasing(Parse(s).value.variables)
    ensures forall c :: c in Parse(s).value.variables <==> c in s && IsLetter(c)
    ensures forall t :: t in Parse(s).value.postfix ==>
      t.Operator? || (t.Var? && t.name in Parse(s).value.variables)
    ensures |Parse(s).value.variables| <= 26
  {
    var variables := SortedLetters(LetterSet(s));
    assert Parse(s).value == Parsed(variables, ToPostfix(s).value);
    LettersFromLists(LetterSet(s), 0);
    LettersFromLength(LetterSet(s), 0);
    PostfixNamesLetters(s);
  }

  /** At most one variable per letter from `Letter(k)` on. */
  lemma {:induction false} LettersFromLength(vs: set<char>, k: nat)
    requires k <= 26
    ensures |LettersFrom(vs, k)| <= 26 - k
    decreases 26 - k
  {
    if k < 26 {
      LettersFromLength(vs, k + 1);
    }
  }

  /** Every token of a successful conversion is an operator or a variable named by a letter of the input. */
  lemma PostfixNamesLetters(s: seq<char>)
    requires ToPostfix(s).Ok?
    ensures forall t :: t in ToPostfix(s).value ==> t.Operator? || (t.Var? && t.name in s && IsLetter(t.name))
  {
    var postfix := ToPostfix(s).value;
    PostfixFacts(s);
    forall t | t in postfix
      ensures t.Operator? || (t.Var? && t.name in s && IsLetter(t.name))
    {
      if t.Var? {
        VarNamesMembers(postfix, t);
        LettersMembers(s, t.name);
      }
    }
  }

  /** Every variable token of `ts` has its name in `VarNames(ts)`. */
  lemma {:induction false} VarNamesMembers(ts: seq<Token>, t: Token)
    requires t in ts && t.Var?
    ensures t.name in VarNames(ts)
  {
    var n := |ts|;
    if ts[n - 1] != t {
      assert t in ts[..n - 1];
      VarNamesMembers(ts[..n - 1], t);
    }
  }

  /** `Letters(s)` holds only letters that occur in `s`. */
  lemma {:induction false} LettersMembers(s: seq<char>, c: char)
    ensures c in Letters(s) <==> c in s && IsLetter(c)
  {
    if s != [] {
      LettersMembers(s[1..], c);
      assert c in s <==> c == s[0] || c in s[1..];
    }
  }

  // ---------------------------------------------------------------------------
  // Precedence on the operator stack
  // ---------------------------------------------------------------------------

  /** A `)` removes entries off the top of the stack only. */
  lemma {:induction false} PopToParenShrinks(st: Shunt)
    requires PopToParen(st).Ok?
    ensures |PopToParen(st).value.stack| < |st.stack|
    ensures PopToParen(st).value.stack == st.stack[..|PopToParen(st).value.stack|]
    decreases |st.stack|
  {
    var n := |st.stack|;
    if st.stack[n - 1] != LParen {
      PopToParenShrinks(Transfer(st));
      var m := |PopToParen(st).value.stack|;
      assert st.stack[..n - 1][..m] == st.stack[..m];
    }
  }

  /** Every character keeps the operators waiting on the stack ordered by precedence. */
  lemma StepKeepsOrdered(st: Shunt, c: char)
    requires Ordered(st.stack) && Step(st, c).Ok?
    ensures Ordered(Step(st, c).value.stack)
  {
    if IsLetter(c) || c == ' ' {
    } else if OpOf(c).Some? {
      PushKeepsOrdered(st, OpOf(c).op);
    } else if c == '(' {
    } else {
      PopToParenShrinks(st);
    }
  }

  /** Pushing `op` after the pops for it keeps the stack ordered. */
  lemma PushKeepsOrdered(st: Shunt, op: Op)
    requires Ordered(st.stack)
    ensures Ordered(PopWhileHigher(st, Precedence(op)).stack + [Operator(op)])
  {
    var p := Precedence(op);
    var popped := PopWhileHigher(st, p);
    PopWhileHigherMoves(st, p);
    PopWhileHigherPopsExactly(st, p);
    assert Ordered(popped.stack);
  }

  /**
   * At every point of a successful scan, operators waiting on the stack with
   * nothing between them rise strictly in precedence towards the top: an
   * incoming operator has already sent every operator of equal or higher
   * precedence to the output, so chains of equal precedence group to the left.
   */
  lemma {:induction false} RunKeepsOrdered(st: Shunt, s: seq<char>)
    requires Ordered(st.stack) && Run(st, s).Ok?
    ensures Ordered(Run(st, s).value.stack)
    decreases |s|
  {
    if s != [] {
      StepKeepsOrdered(st, s[0]);
      RunKeepsOrdered(Step(st, s[0]).value, s[1..]);
    }
  }

  /** Scanning `x + y` scans `x`, then scans `y` from the state `x` leaves; an error in `x` ends it. */
  lemma {:induction false} RunAppend(st: Shunt, x: seq<char>, y: seq<char>)
    ensures Run(st, x).Ok? ==> Run(st, x + y) == Run(Run(st, x).value, y)
    ensures Run(st, x).Err? ==> Run(st, x + y) == Run(st, x)
    decreases |x|
  {
    if x == [] {
      assert x + y == y;
    } else {
      assert (x + y)[0] == x[0] && (x + y)[1..] == x[1..] + y;
      if Step(st, x[0]).Ok? {
        RunAppend(Step(st, x[0]).value, x[1..], y);
      }
    }
  }
}
