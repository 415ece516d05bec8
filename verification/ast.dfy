/** The node model of ast.py: one closed datatype for the five node classes.
    The `accept`/`visit_*` double dispatch becomes an exhaustive `match`. */
module Ast {

  /** An algebraic expression or equation.  Operators are kept as the
      strings the tree builder stores, so a symbol outside the legal sets
      can be represented and the evaluator's defensive error is reachable. */
  datatype Expr =
    | Number(value: int)
    | Variable(name: string)
    | BinOp(op: string, left: Expr, right: Expr)
    | UnaryOp(op: string, operand: Expr)
    | Equation(lhs: Expr, rhs: Expr)

  /** The operator symbols a BinaryOpNode may legally hold. */
  const BinaryOps: set<string> := {"+", "-", "*", "/", "^"}

  /** The operator symbols a UnaryOpNode may legally hold. */
  const UnaryOps: set<string> := {"+", "-"}

  /** Number of nodes in the tree. */
  function NodeCount(e: Expr): (n: nat)
    ensures n >= 1
  {
    match e
    case Number(_) => 1
    case Variable(_) => 1
    case BinOp(_, l, r) => 1 + NodeCount(l) + NodeCount(r)
    case UnaryOp(_, x) => 1 + NodeCount(x)
    case Equation(l, r) => 1 + NodeCount(l) + NodeCount(r)
  }

  /** Number of Equation nodes in the tree. */
  function EquationCount(e: Expr): nat
  {
    match e
    case Number(_) => 0
    case Variable(_) => 0
    case BinOp(_, l, r) => EquationCount(l) + EquationCount(r)
    case UnaryOp(_, x) => EquationCount(x)
    case Equation(l, r) => 1 + EquationCount(l) + EquationCount(r)
  }

  /** The variable names of the tree, left to right (the order in which
      the evaluator looks them up). */
  function Variables(e: Expr): seq<string>
  {
    match e
    case Number(_) => []
    case Variable(n) => [n]
    case BinOp(_, l, r) => Variables(l) + Variables(r)
    case UnaryOp(_, x) => Variables(x)
    case Equation(l, r) => Variables(l) + Variables(r)
  }

  predicate ContainsEquation(e: Expr)
  {
    match e
    case Number(_) => false
    case Variable(_) => false
    case BinOp(_, l, r) => ContainsEquation(l) || ContainsEquation(r)
    case UnaryOp(_, x) => ContainsEquation(x)
    case Equation(_, _) => true
  }

  /** Some binary node of the tree holds operator `op`. */
  predicate ContainsBinOp(e: Expr, op: string)
  {
    match e
    case Number(_) => false
    case Variable(_) => false
    case BinOp(o, l, r) => o == op || ContainsBinOp(l, op) || ContainsBinOp(r, op)
    case UnaryOp(_, x) => ContainsBinOp(x, op)
    case Equation(l, r) => ContainsBinOp(l, op) || ContainsBinOp(r, op)
  }

  /** Some unary node of the tree holds operator `op`. */
  predicate ContainsUnaryOp(e: Expr, op: string)
  {
    match e
    case Number(_) => false
    case Variable(_) => false
    case BinOp(_, l, r) => ContainsUnaryOp(l, op) || ContainsUnaryOp(r, op)
    case UnaryOp(o, x) => o == op || ContainsUnaryOp(x, op)
    case Equation(l, r) => ContainsUnaryOp(l, op) || ContainsUnaryOp(r, op)
  }

  /** Every operator lies in its legal set (the construction invariant). */
  predicate LegalOperators(e: Expr)
  {
    match e
    case Number(_) => true
    case Variable(_) => true
    case BinOp(op, l, r) => op in BinaryOps && LegalOperators(l) && LegalOperators(r)
    case UnaryOp(op, x) => op in UnaryOps && LegalOperators(x)
    case Equation(l, r) => LegalOperators(l) && LegalOperators(r)
  }

  /** A tree the builder can produce: legal operators, and an Equation
      only as the root. */
  predicate WellFormed(e: Expr)
  {
    && LegalOperators(e)
    && match e
       case Equation(l, r) => !ContainsEquation(l) && !ContainsEquation(r)
       case _ => !ContainsEquation(e)
  }
}
