/** A reference semantics for expressions over exact reals, without
    Python's distinction between `int` and `float`.  The evaluator of
    module Evaluation is proved to produce the same numbers and the same
    errors as this one. */
module Reference {
  import opened Wrappers
  import opened Ast
  import opened Values

  /** `x` raised to a natural power; no power of a non-zero base is zero. */
  function RealPow(x: real, n: nat): (r: real)
    ensures x != 0.0 ==> r != 0.0
  {
    if n == 0 then 1.0 else x * RealPow(x, n - 1)
  }

  predicate IsWhole(y: real)
  {
    y == y.Floor as real
  }

  /** `x ^ y` for a whole exponent; a negative exponent takes the
      reciprocal, which does not exist for base zero. */
  function RealPower(x: real, y: real): Result<real, EvalError>
  {
    if !IsWhole(y) then Failure(NonIntegralExponent)
    else if y >= 0.0 then Success(RealPow(x, y.Floor))
    else if x == 0.0 then Failure(PowDomain)
    else Success(1.0 / RealPow(x, -y.Floor))
  }

  function RealBinary(op: string, x: real, y: real): Result<real, EvalError>
  {
    match op
    case "+" => Success(x + y)
    case "-" => Success(x - y)
    case "*" => Success(x * y)
    case "/" => if y == 0.0 then Failure(DivisionByZero) else Success(x / y)
    case "^" => RealPower(x, y)
    case _ => Failure(UnknownOperator(op, false))
  }

  function RealUnary(op: string, x: real): Result<real, EvalError>
  {
    match op
    case "+" => Success(x)
    case "-" => Success(-x)
    case _ => Failure(UnknownOperator(op, true))
  }

  /** Evaluation over reals, operands left to right, first error wins. */
  function RealEval(e: Expr, env: map<string, real>): Result<real, EvalError>
  {
    match e
    case Number(v) => Success(v as real)
    case Variable(n) => if n in env then Success(env[n]) else Failure(UndefinedVariable(n))
    case BinOp(op, l, r) =>
      var x :- RealEval(l, env);
      var y :- RealEval(r, env);
      RealBinary(op, x, y)
    case UnaryOp(op, x) =>
      var v :- RealEval(x, env);
      RealUnary(op, v)
    case Equation(_, _) => Failure(NestedEquation)
  }
}
