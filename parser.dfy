/**
 * The shunting-yard converter `parseExpression` (script.js:104-180): it turns
 * an infix formula into a postfix token sequence and collects its variables.
 *
 * The pure functions `Step`, `Run`, `Drain` and `Parse` state what one pass of
 * the converter computes; the methods `ParseExpression` and `SortVariables`
 * are the converter itself, with its explicit stack and output, proved equal
 * to them. The properties of the result are proved in module `ParserProofs`.
 */
module Parser {
  import opened Wrappers
  import opened Operators

  /** A token of the postfix output or of the operator stack; the stack also holds `(` markers. */
  datatype Token = Var(name: char) | Operator(op: Op) | LParen

  /** The two ways `parseExpression` throws. */
  datatype ParseError = InvalidCharacter(c: char) | MismatchedParentheses

  /** A successful parse: the sorted variable names and the postfix sequence. */
  datatype Parsed = Parsed(variables: seq<char>, postfix: seq<Token>)

  /** A variable is one upper-case ASCII letter. */
  predicate IsLetter(c: char)
  {
    'A' <= c <= 'Z'
  }

  /** The characters the converter does not reject: space, letters, operators and parentheses. */
  predicate IsAccepted(c: char)
  {
    c == ' ' || IsLetter(c) || OpOf(c).Some? || c == '(' || c == ')'
  }

  /** The converter's working state: the postfix built so far and the operator stack (top last). */
  datatype Shunt = Shunt(output: seq<Token>, stack: seq<Token>)

  /** Moves the top of the stack to the output. */
  function Transfer(st: Shunt): Shunt
    requires |st.stack| > 0
  {
    Shunt(st.output + [st.stack[|st.stack| - 1]], st.stack[..|st.stack| - 1])
  }

  /**
   * Pops onto the output every stack-top operator whose precedence is at least
   * `p`, stopping at a `(` marker or an empty stack (script.js:129-135).
   */
  function PopWhileHigher(st: Shunt, p: nat): Shunt
    decreases |st.stack|
  {
    if |st.stack| > 0 && st.stack[|st.stack| - 1].Operator?
       && Precedence(st.stack[|st.stack| - 1].op) >= p
    then PopWhileHigher(Transfer(st), p)
    else st
  }

  /**
   * Pops onto the output until a `(` marker, then discards the marker; fails
   * when the stack runs out first (script.js:149-155).
   */
  function PopToParen(st: Shunt): Result<Shunt, ParseError>
    decreases |st.stack|
  {
    if |st.stack| == 0 then Err(MismatchedParentheses)
    else if st.stack[|st.stack| - 1] == LParen then Ok(Shunt(st.output, st.stack[..|st.stack| - 1]))
    else PopToParen(Transfer(st))
  }

  /** One iteration of the scanning loop, for the character `c` (script.js:111-161). */
  function Step(st: Shunt, c: char): Result<Shunt, ParseError>
  {
    if c == ' ' then Ok(st)
    else if IsLetter(c) then Ok(Shunt(st.output + [Var(c)], st.stack))
    else if OpOf(c).Some? then
      var popped := PopWhileHigher(st, Precedence(OpOf(c).op));
      Ok(Shunt(popped.output, popped.stack + [Operator(OpOf(c).op)]))
    else if c == '(' then Ok(Shunt(st.output, st.stack + [LParen]))
    else if c == ')' then PopToParen(st)
    else Err(InvalidCharacter(c))
  }

  /** The scanning loop over `s`, left to right, from the state `st`; the first error ends it. */
  function Run(st: Shunt, s: seq<char>): Result<Shunt, ParseError>
    decreases |s|
  {
    if s == [] then Ok(st)
    else
      match Step(st, s[0])
      case Err(e) => Err(e)
      case Ok(next) => Run(next, s[1..])
  }

  /** The final loop: pops the whole stack onto the output, failing on a `(` marker (script.js:165-171). */
  function Drain(st: Shunt): Result<seq<Token>, ParseError>
    decreases |st.stack|
  {
    if |st.stack| == 0 then Ok(st.output)
    else if st.stack[|st.stack| - 1] == LParen then Err(MismatchedParentheses)
    else Drain(Transfer(st))
  }

  /** The postfix form of `s`, or the error the converter throws on it. */
  function ToPostfix(s: seq<char>): Result<seq<Token>, ParseError>
  {
    match Run(Shunt([], []), s)
    case Err(e) => Err(e)
    case Ok(st) => Drain(st)
  }

  /** The set of variables `s` mentions. */
  function LetterSet(s: seq<char>): set<char>
  {
    set c | c in s && IsLetter(c)
  }

  /** The letter `'A' + k`. */
  function Letter(k: nat): char
    requires k < 26
  {
    ('A' as int + k) as char
  }

  /** The members of `vs` among the letters `Letter(k)` .. `'Z'`, in alphabetical order. */
  function LettersFrom(vs: set<char>, k: nat): seq<char>
    requires k <= 26
    decreases 26 - k
  {
    if k == 26 then []
    else (if Letter(k) in vs then [Letter(k)] else []) + LettersFrom(vs, k + 1)
  }

  /** The letters of `vs` in alphabetical order: what `Array.from(vs).sort()` returns. */
  function SortedLetters(vs: set<char>): seq<char>
  {
    LettersFrom(vs, 0)
  }

  /** What `parseExpression(s)` returns or throws. */
  function Parse(s: seq<char>): Result<Parsed, ParseError>
  {
    match ToPostfix(s)
    case Err(e) => Err(e)
    case Ok(postfix) => Ok(Parsed(SortedLetters(LetterSet(s)), postfix))
  }

  /** `s` is in strictly ascending order (so it has no duplicates). */
  predicate StrictlyIncreasing(s: seq<char>)
  {
    forall i, j :: 0 <= i < j < |s| ==> s[i] < s[j]
  }

  /**
   * `Array.from(vs).sort()` (script.js:174): the variables in ascending order.
   * Each round takes the least of the names not yet placed.
   */
  method SortVariables(vs: set<char>) returns (sorted: seq<char>)
    requires forall c :: c in vs ==> IsLetter(c)
    ensures StrictlyIncreasing(sorted)
    ensures forall c :: c in sorted <==> c in vs
    ensures sorted == SortedLetters(vs)
  {
    sorted := [];
    var rest := vs;
    while rest != {}
      invariant rest <= vs
      invariant StrictlyIncreasing(sorted)
      invariant forall c :: c in sorted <==> c in vs && c !in rest
      invariant forall i, c :: 0 <= i < |sorted| && c in rest ==> sorted[i] < c
      decreases |rest|
    {
      var least :| least in rest;
      var unseen := rest - {least};
      while unseen != {}
        invariant unseen <= rest && least in rest && least !in unseen
        invariant forall c :: c in rest && c !in unseen ==> least <= c
        decreases |unseen|
      {
        var c :| c in unseen;
        if c < least {
          least := c;
        }
        unseen := unseen - {c};
      }
      sorted := sorted + [least];
      rest := rest - {least};
    }
    SortedLettersUnique(vs, sorted);
  }

  /** The alphabetical listing of a set of letters is the only strictly ascending listing of it. */
  lemma SortedLettersUnique(vs: set<char>, s: seq<char>)
    requires forall c :: c in vs ==> IsLetter(c)
    requires StrictlyIncreasing(s)
    requires forall c :: c in s <==> c in vs
    ensures s == SortedLetters(vs)
  {
    LettersFromLists(vs, 0);
    IncreasingUnique(s, SortedLetters(vs));
  }

  /** `LettersFrom(vs, k)` lists, in ascending order, the members of `vs` from `Letter(k)` to `'Z'`. */
  lemma {:induction false} LettersFromLists(vs: set<char>, k: nat)
    requires k <= 26
    ensures StrictlyIncreasing(LettersFrom(vs, k))
    ensures forall c :: c in LettersFrom(vs, k) <==> c in vs && 'A' as int + k <= c as int <= 'Z' as int
    decreases 26 - k
  {
    if k < 26 {
      LettersFromLists(vs, k + 1);
      var rest := LettersFrom(vs, k + 1);
      assert forall i :: 0 <= i < |rest| ==> Letter(k) < rest[i] by {
        forall i | 0 <= i < |rest| ensures Letter(k) < rest[i] {
          assert rest[i] in rest;
        }
      }
    }
  }

  /** A non-empty sequence has a first member. */
  lemma HeadIsMember<T>(s: seq<T>)
    ensures s != [] ==> s[0] in s
  {
  }

  /** Two strictly ascending sequences with the same members are equal. */
  lemma {:induction false} IncreasingUnique(a: seq<char>, b: seq<char>)
    requires StrictlyIncreasing(a) && StrictlyIncreasing(b)
    requires forall c :: c in a <==> c in b
    ensures a == b
    decreases |a|
  {
    HeadIsMember(a);
    HeadIsMember(b);
    if a != [] && b != [] {
      assert a[0] == b[0] by {
        var i :| 0 <= i < |a| && a[i] == b[0];
        var j :| 0 <= j < |b| && b[j] == a[0];
        assert a[0] <= a[i] && b[0] <= b[j];
      }
      forall c ensures c in a[1..] <==> c in b[1..] {
        TailMembers(a, c);
        TailMembers(b, c);
      }
      IncreasingUnique(a[1..], b[1..]);
      assert a == [a[0]] + a[1..] && b == [b[0]] + b[1..];
    }
  }

  /** The members of the tail of a strictly ascending sequence are its members other than the first. */
  lemma TailMembers(a: seq<char>, c: char)
    requires StrictlyIncreasing(a) && a != []
    ensures c in a[1..] <==> c in a && c != a[0]
  {
    if c in a && c != a[0] {
      var i :| 0 <= i < |a| && a[i] == c;
      assert a[1..][i - 1] == c;
    }
    if c in a[1..] {
      var i :| 0 <= i < |a| - 1 && a[1..][i] == c;
      assert a[0] < a[i + 1];
    }
  }

  /**
   * `parseExpression(expression)` (script.js:104-180): scans the input once with an
   * explicit operator stack, then empties the stack and sorts the variables.
   */
  method ParseExpression(s: seq<char>) returns (r: Result<Parsed, ParseError>)
    ensures r == Parse(s)
  {
    var variables: set<char> := {};
    var output: seq<Token> := [];
    var stack: seq<Token> := [];
    var i := 0;
    while i < |s|
      invariant 0 <= i <= |s|
      invariant variables == LetterSet(s[..i])
      invariant Run(Shunt([], []), s) == Run(Shunt(output, stack), s[i..])
    {
      var c := s[i];
      assert s[..i + 1] == s[..i] + [c];
      assert Run(Shunt(output, stack), s[i..])
          == match Step(Shunt(output, stack), c)
             case Err(e) => Err(e)
             case Ok(next) => Run(next, s[i + 1..]);
      if c == ' ' {
        i := i + 1;
        continue;
      }
      if IsLetter(c) {
        variables := variables + {c};
        output := output + [Var(c)];
        i := i + 1;
        continue;
      }
      if OpOf(c).Some? {
        var op := OpOf(c).op;
        ghost var before := Shunt(output, stack);
        while |stack| > 0 && stack[|stack| - 1].Operator? && Precedence(stack[|stack| - 1].op) >= Precedence(op)
          invariant PopWhileHigher(before, Precedence(op)) == PopWhileHigher(Shunt(output, stack), Precedence(op))
          decreases |stack|
        {
          output := output + [stack[|stack| - 1]];
          stack := stack[..|stack| - 1];
        }
        stack := stack + [Operator(op)];
        i := i + 1;
        continue;
      }
      if c == '(' {
        stack := stack + [LParen];
        i := i + 1;
        continue;
      }
      if c == ')' {
        ghost var before := Shunt(output, stack);
        while |stack| > 0 && stack[|stack| - 1] != LParen
          invariant PopToParen(before) == PopToParen(Shunt(output, stack))
          decreases |stack|
        {
          output := output + [stack[|stack| - 1]];
          stack := stack[..|stack| - 1];
        }
        if |stack| == 0 {
          return Err(MismatchedParentheses);
        }
        stack := stack[..|stack| - 1];
        i := i + 1;
        continue;
      }
      return Err(InvalidCharacter(c));
    }
    assert s[..i] == s;
    ghost var scanned := Shunt(output, stack);
    while |stack| > 0
      invariant Drain(scanned) == Drain(Shunt(output, stack))
      decreases |stack|
    {
      var top := stack[|stack| - 1];
      stack := stack[..|stack| - 1];
      if top == LParen {
        return Err(MismatchedParentheses);
      }
      output := output + [top];
    }
    var sorted := SortVariables(variables);
    r := Ok(Parsed(sorted, output));
  }
}
