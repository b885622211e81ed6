/**
 * The two lookup tables of the generator: the precedence of each operator
 * symbol and the boolean function each symbol denotes.
 */
module Operators {

  /** The six operator symbols: ¬ ∧ ∨ ⊕ → ↔. */
  datatype Op = Not | And | Or | Xor | Implies | Iff

  /** The symbol that denotes `op` in an expression. */
  function Symbol(op: Op): char
  {
    match op
    case Not => '¬'
    case And => '∧'
    case Or => '∨'
    case Xor => '⊕'
    case Implies => '→'
    case Iff => '↔'
  }

  /** The operator a character denotes, if it is one of the six symbols. */
  function OpOf(c: char): (r: Option)
    ensures r.Some? ==> Symbol(r.op) == c
    ensures (forall op: Op :: Symbol(op) != c) ==> r.None?
  {
    if c == '¬' then Some(Not)
    else if c == '∧' then Some(And)
    else if c == '∨' then Some(Or)
    else if c == '⊕' then Some(Xor)
    else if c == '→' then Some(Implies)
    else if c == '↔' then Some(Iff)
    else None
  }

  /** The lookup result of `OpOf`. */
  datatype Option = None | Some(op: Op)

  /** Reading back a written symbol gives the operator again. */
  lemma SymbolRoundTrip(op: Op)
    ensures OpOf(Symbol(op)) == Some(op)
  {
  }

  /** Binding strength: higher binds tighter. */
  function Precedence(op: Op): (p: nat)
    ensures 1 <= p <= 4
    ensures p == 4 <==> op == Not
  {
    match op
    case Not => 4
    case And => 3
    case Or => 2
    case Xor => 2
    case Implies => 1
    case Iff => 1
  }

  /** The one unary operator is negation; the rest take two operands. */
  predicate IsBinary(op: Op)
  {
    op != Not
  }

  /** The binary operators. */
  type BinaryOp = op: Op | IsBinary(op) witness And

  /** The function a binary symbol denotes, applied to the operands `a` (left) and `b` (right). */
  function Apply(op: BinaryOp, a: bool, b: bool): (r: bool)
  {
    match op
    case And => a && b
    case Or => a || b
    case Implies => !a || b
    case Iff => a == b
    case Xor => a != b
  }

  /**
   * Each binary operator is the connective its symbol names: implication is
   * false only for true ⟹ false, ↔ is equality and ⊕ its negation.
   */
  lemma ApplyMeaning(a: bool, b: bool)
    ensures Apply(And, a, b) <==> a && b
    ensures Apply(Or, a, b) <==> a || b
    ensures Apply(Implies, a, b) <==> (a ==> b)
    ensures Apply(Iff, a, b) <==> (a <==> b)
    ensures Apply(Xor, a, b) <==> !(a <==> b)
  {
  }
}
