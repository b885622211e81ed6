# Truth-table generator: a verified model of its logic

The web page `script.js` reads a propositional formula typed with the symbols
`¬ ∧ ∨ ⊕ → ↔`, parentheses and the variables `A`–`Z`, and turns it into a truth
table. The computation behind the page is what this project models. It has five parts:

- the tables of operator precedences and meanings;
- `parseExpression`, a shunting-yard converter from infix text to postfix tokens that also collects the variables in alphabetical order;
- `generateCombinations`, which lists the `2^n` assignments of `n` variables, row `i` being the binary digits of `i` with the most significant first;
- `evaluateExpression`, a stack machine that evaluates a postfix sequence under one assignment;
- `generateTruthTable` without its DOM work: trim the input, reject blank input, parse, then build the header and one row per assignment. `isValidExpression` is modelled with it.

Layout:

| file | module | what it holds |
|---|---|---|
| `wrappers.dfy` | `Wrappers` | `Option` and `Result` |
| `operators.dfy` | `Operators` | the operators, their symbols, precedences and meanings |
| `parser.dfy` | `Parser` | the converter as functions (`Step`, `Run`, `Drain`, `ToPostfix`, `Parse`) and as the method `ParseExpression` with its loops |
| `parser_proofs.dfy` | `ParserProofs` | what the converter keeps, pops and rejects |
| `combinations.dfy` | `Combinations` | `AllRows`/`Row` and the method `GenerateCombinations` |
| `evaluator.dfy` | `Evaluator` | `Evaluate` and the method `EvaluateExpression` with its explicit stack |
| `evaluator_proofs.dfy` | `EvaluatorProofs` | when evaluation fails, and the order of operands |
| `formulas.dfy` | `Formulas` | formula trees, their fully parenthesised text and postfix, and the round trip through the converter and the evaluator |
| `table.dfy` | `TruthTable` | `Trim`, `TruthTableOf`, and the methods `GenerateTruthTable`, `EvaluateRows`, `IsValidExpression` |
| `table_proofs.dfy` | `TableProofs` | the shape of every table, its rows and its error cases |
| `examples.dfy` | `Examples` | concrete inputs worked through the whole pipeline |

Each loop of the JavaScript is a Dafny `method` with a `while` or `for` loop. Each method is proved equal to a function, and the properties are proved about that function.

Behaviour of the code worth knowing, which the model keeps:

- **Row order.** Row `i` of the table is the binary form of `i`, most significant bit first (script.js:187-193). The table therefore starts with the all-false row and ends with the all-true row. `Examples.ConjunctionTable` spells this out for `A ∧ B`: the rows are `FFF, FTF, TFF, TTT`, in that order.
- **Unary `¬`.** The operator loop pops a stacked `¬` when another `¬` arrives, because ties pop. `¬¬A` therefore becomes `¬ A ¬` and fails at evaluation (`Examples.DoubleNegationTable`).
- **`isValidExpression` checks its argument untrimmed.** A leading tab makes it report "invalid" (script.js:38-47), while `generateTruthTable` trims first and builds the table anyway (`Examples.LeadingTab`). On the page, only the example buttons pass untrimmed text to it (script.js:390). The input handler trims first (script.js:426-438), so a leading tab typed by the user never leads to that report.
- **Parse errors have no position.** The code reports only the offending character, or "Mismatched parentheses". `ParseError` carries exactly that.

## Model

| member | source | states |
|---|---|---|
| Operators.OpOf | script.js:26-33 | a character is recognised as an operator only if it is that operator's symbol, and a character that is no operator's symbol is not recognised |
| Operators.SymbolRoundTrip | script.js:26-33 | looking up the symbol of any operator finds that same operator |
| Operators.Precedence | script.js:16-23 | every precedence lies in 1..4, and only `¬` has the highest, 4 |
| Operators.ApplyMeaning | script.js:27-32 | `∧` is conjunction, `∨` disjunction, `→` material implication, `↔` equality and `⊕` inequality of truth values |
| Parser.SortVariables | script.js:174 | the sorted list is strictly ascending and holds exactly the collected letters, so it is the alphabetical listing |
| Parser.SortedLettersUnique | script.js:174 | a strictly ascending list holding exactly a set of letters is that set's alphabetical listing |
| Parser.ParseExpression | script.js:104-180 | the loop-based converter returns exactly `Parse(s)`: the sorted variables with the postfix tokens, or the error it throws |
| ParserProofs.PopWhileHigherMoves | script.js:129-135 | the operator loop pops only from the top of the stack, and the popped entries reach the output top first |
| ParserProofs.PopWhileHigherPopsExactly | script.js:129-135 | the entries popped for an incoming operator are exactly the top run of operators whose precedence is at least the incoming one's; the loop stops at `(` or a lower operator |
| ParserProofs.PopToParenFacts | script.js:148-158 | `)` fails with "Mismatched parentheses" exactly when no `(` is open; otherwise it removes one `(` and loses no token |
| ParserProofs.DrainFacts | script.js:164-171 | the final pop fails with "Mismatched parentheses" exactly when a `(` is still open; otherwise the output holds no `(` and keeps every variable and operator |
| ParserProofs.StepFails | script.js:111-161 | one character fails exactly when it is not a space, a letter, an operator or a parenthesis (invalid character), or when it is `)` with no `(` open (mismatched) |
| ParserProofs.StepKeeps | script.js:111-161 | each accepted character keeps `(` off the output, appends its letter to the variables, adds its operator to the operator count and updates the open-parenthesis count |
| ParserProofs.RunKeeps | script.js:110-162 | after the scan, the output's variables are the input's letters in order, its operators plus the stacked ones are the input's operator symbols, and the open count matches a left-to-right parenthesis count |
| ParserProofs.RunKeepsOrdered | script.js:129-136 | adjacent operators on the stack rise strictly in precedence towards the top, since ties and higher precedences are popped first |
| ParserProofs.RunAppend | script.js:110-162 | scanning `x + y` is scanning `x`, then `y` from where `x` left off; an error in `x` is final |
| ParserProofs.ToPostfixFailsLikeBalanceCheck | script.js:110-171 | conversion fails exactly when a left-to-right check finds an unknown character, a `)` with no `(` open, or a `(` left open, and with the same error |
| ParserProofs.PostfixFacts | script.js:104-171 | the postfix holds no `(`; its variables are the input's letters in input order; its operators are the input's operator symbols, counted with multiplicity |
| ParserProofs.ParseFacts | script.js:104-180 | the variables are strictly ascending, are exactly the letters in the input, and number at most 26; every postfix token is an operator or a listed variable |
| Combinations.GenerateCombinations | script.js:183-196 | the method returns `2^n` rows, row `i` being the `n` binary digits of `i` with the most significant first |
| Combinations.ValueOfRow | script.js:187-193 | reading row `i` back as a binary number gives `i` |
| Combinations.RowOfValue | script.js:187-193 | every assignment of `n` values appears in the list, at the index its binary value names |
| Combinations.RowsDistinct | script.js:187-193 | no assignment is listed twice |
| Combinations.FirstAndLastRows | script.js:187-193 | the first row is all false and the last is all true |
| Evaluator.LookupBindsAll | script.js:204-206 | the variable table binds exactly the listed names |
| Evaluator.LookupPositional | script.js:204-206 | with names listed without repetition, name `i` is bound to value `i` |
| Evaluator.EvaluateExpression | script.js:199-241 | the stack-based method returns exactly `Evaluate`: the single remaining value, or the error it throws |
| EvaluatorProofs.EvalRunFollowsHeight | script.js:208-232 | the value stack runs short ("not enough operands") exactly when counting only stack heights does, and the heights agree otherwise |
| EvaluatorProofs.EvaluateFailsByShape | script.js:208-236 | evaluation fails exactly when the height count runs short or ends at a height other than 1, with the matching error |
| EvaluatorProofs.EvaluateErrorIgnoresValues | script.js:208-236 | whether and how evaluation fails does not depend on the truth values |
| EvaluatorProofs.OperandOrder | script.js:221-226 | a binary operator takes the lower stack value as its left operand: `A B →` is `¬A ∨ B` |
| EvaluatorProofs.DoubleNegationPostfixFails | script.js:212-216 | `¬ A ¬` fails for lack of an operand |
| EvaluatorProofs.AdjacentVariablesFail | script.js:234-236 | `A B` leaves two values and fails with "Invalid expression" |
| Formulas.ScanPrint | script.js:110-162 | scanning the fully parenthesised text of a formula appends exactly its postfix form to the output and leaves the stack as it was |
| Formulas.ToPostfixOfPrint | script.js:104-171 | the fully parenthesised text of any formula converts to that formula's postfix form |
| Formulas.EvalRunPostfix | script.js:208-232 | running a formula's postfix form pushes exactly the formula's truth value |
| Formulas.ParseThenEvaluate | script.js:199-241 | a formula's text, converted and then evaluated under any assignment that covers its variables, gives the formula's truth value |
| TruthTable.Trim | script.js:277 | trimming never lengthens the text; the result is empty exactly when the text is all whitespace, and otherwise starts and ends with a non-whitespace character |
| TruthTable.TrimIsSlice | script.js:277 | the trim is the slice `s[a..b]` of the input, with only whitespace before `a` and from `b` on: whitespace is removed at the two ends only |
| TruthTable.TrimIdempotent | script.js:277 | trimming twice is trimming once |
| TruthTable.ParseResolvable | script.js:287-300 | every postfix token the converter returns is an operator or one of its listed variables, and there are at most 26 of them |
| TruthTable.TableRowsMeaning | script.js:299-302 | on success there is one row per assignment, each being the assignment followed by the formula's value; on failure the error is the one from the first assignment that throws |
| TruthTable.TableRowsPrefixError | script.js:299-302 | once one row throws, later assignments change nothing |
| TruthTable.EvaluateRows | script.js:299-302 | the row loop returns exactly `TableRows` |
| TruthTable.GenerateTruthTable | script.js:276-311 | the method returns exactly `TruthTableOf(input)`: the table, or the first error met |
| TruthTable.IsValidExpression | script.js:38-47 | the text is valid exactly when it is not blank and its untrimmed form passes the converter's character and parenthesis checks |
| TableProofs.TruthTableErrors | script.js:277-311 | blank input alone gives the "empty" error; a character or parenthesis error gives that parse error; otherwise the table exists exactly when the postfix reduces to one value, and the error is "not enough operands" or "Invalid expression" |
| TableProofs.TruthTableShape | script.js:293-302 | the header is the variables followed by the trimmed text; there are `2^n` rows; row `i` is the binary assignment `i` followed by the formula's value under it |
| TableProofs.TableRowsAllOrNothing | script.js:299-302 | the rows fail exactly when the first assignment fails, with its error, because failure ignores the values |
| TableProofs.TableOfFormula | script.js:277-302 | the table of any formula's text has `2^n` rows, row `i` being assignment `i` followed by the formula's value under it |
| TableProofs.FormulaParses | script.js:104-180 | a formula's text is already trimmed and parses to its sorted variables and its postfix form |
| TableProofs.TableOfTrim | script.js:277 | surrounding whitespace does not change the table |
| Examples.EqualPrecedenceGroupsLeft | script.js:129-136 | two binary operators of equal precedence group to the left: `A op1 B op2 C` becomes `A B op1 C op2` |
| Examples.ImplicationGroupsLeft | script.js:129-136 | `A → B → C` converts as `(A → B) → C` |
| Examples.DisjunctionXorGroupsLeft | script.js:129-136 | `A ∨ B ⊕ C` converts as `(A ∨ B) ⊕ C` |
| Examples.DoubleNegationPostfix | script.js:129-136 | `¬¬A` converts to `¬ A ¬` |
| Examples.DoubleNegationTable | script.js:212-216 | the table of `¬¬A` fails for lack of an operand |
| Examples.SingleVariableTable | script.js:276-302 | `A` gives the header `A, A` and the rows `F F` and `T T` |
| Examples.ConjunctionTable | script.js:276-302 | `A ∧ B` gives the header `A, B, A ∧ B` and the rows `FFF, FTF, TFF, TTT`, in that order |
| Examples.TwoVariableTable | script.js:276-302 | any trimmed text over `A` and `B` that converts to a formula's postfix gives the four rows `FF, FT, TF, TT` with that formula's values |
| Examples.TautologyTable | script.js:276-302 | `(A → B) ↔ (¬A ∨ B)` is true in all four rows |
| Examples.BlankInput | script.js:277-283 | input of only spaces, tabs and newlines is rejected as empty |
| Examples.UnclosedParenthesis | script.js:164-169 | `A ∧ (B` fails with "Mismatched parentheses" |
| Examples.UnknownCharacter | script.js:160-161 | `A % B` fails, naming `%` |
| Examples.AdjacentVariablesTable | script.js:234-236 | `A B` passes the converter and then fails with "Invalid expression" |
| Examples.LeadingTab | script.js:38-47 | a tab before `A` fails the untrimmed character check, so the text counts as invalid, while the trimmed table is that of `A` |

## Left out

- The page glue is not modelled: DOM look-ups, buttons and event listeners, `insertAtCursor`, `showError`, `showNotification`, `updateValidationState`, `clearTable`, `createTableHeader`, `createTableRow`, copying to the clipboard and the CSV export. These are browser I/O with no logic to verify.
- TruthTable.GenerateTruthTable: when evaluation throws part way, the page keeps the header and the rows already drawn. The model returns only the error. Failure never depends on the values (`TableProofs.TableRowsAllOrNothing`), so a failing expression fails on its first row and the page shows only the header.
- Error messages are modelled as error constructors (`Empty`, `InvalidCharacter(c)`, `MismatchedParentheses`, `InsufficientOperands`, `Malformed`), not as message strings.
- Combinations.GenerateCombinations requires `n <= 26`. Parsing never yields more than 26 variables (`ParserProofs.ParseFacts`). Within that bound, `Math.pow` is exact and the 32-bit `>>` equals division by a power of two, so neither is modelled separately.
- Evaluator.EvaluateExpression requires every variable token to be listed and one value per variable. The page only calls it that way (`TruthTable.ParseResolvable`). The `undefined` a missing name would produce in JavaScript is not modelled.
- Characters are Dafny `char`s, not UTF-16 code units. Every symbol the program accepts is a single code unit, so accepted input is modelled exactly. For a rejected character outside the Basic Multilingual Plane, the page names a lone surrogate, while the model names the whole character.
- `trim` uses the ECMAScript whitespace and line-terminator set, listed explicitly in `TruthTable.IsWhitespace`.
- `Array.prototype.sort` compares strings. For the single letters `A`–`Z` this is alphabetical order, which is how `Parser.SortedLetters` is defined.
- Operators.Precedence: the contract states only the range 1..4 and that `¬` binds tightest. The full table (`∧` 3, `∨` and `⊕` 2, `→` and `↔` 1) is the function's body, and its effect on grouping is stated by `Examples.EqualPrecedenceGroupsLeft` and the other conversion examples.
