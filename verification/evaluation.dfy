/** EvaluateVisitor (ast.py): evaluation of a tree against a variable
    environment.  A raised `ValueError`/`ZeroDivisionError` becomes a
    `Failure` that each step passes on unchanged, as the exception unwinds
    the Python call chain. */
module Evaluation {
  import opened Wrappers
  import opened Ast
  import opened Values
  import opened Reference
  import opened Numbers

  /** The visitor's `variables` mapping. */
  type Env = map<string, Num>

  /** `EvaluateVisitor()`: no environment given means an empty one. */
  const EmptyEnv: Env := map[]

  /** What evaluating a root gives: one number, or the pair of values of an
      equation's two sides. */
  datatype Value = Scalar(n: Num) | Pair(left: Num, right: Num)

  /** `err` is an error that some node of `e` can raise under `env`: an
      unbound variable of `e`, a `/` or `^` of `e`, an illegal operator of
      `e`, or an equation inside `e`. */
  predicate CanRaise(e: Expr, env: Env, err: EvalError)
  {
    match err
    case UndefinedVariable(n) => n in Variables(e) && n !in env
    case DivisionByZero => ContainsBinOp(e, "/")
    case UnknownOperator(s, unary) =>
      if unary then ContainsUnaryOp(e, s) && s !in UnaryOps
      else ContainsBinOp(e, s) && s !in BinaryOps
    case PowDomain => ContainsBinOp(e, "^")
    case NonIntegralExponent => ContainsBinOp(e, "^")
    case NestedEquation => ContainsEquation(e)
  }

  /** The operator step of `visit_binary_op`, after both operands have
      been evaluated.  Numerically it is the real operation, errors
      included; the result is an `int` exactly when Python keeps one. */
  function ApplyBinary(op: string, a: Num, b: Num): (r: Result<Num, EvalError>)
    ensures MapReal(r) == RealBinary(op, a.ToReal(), b.ToReal())
    ensures r.Success? ==>
      (r.value.IntV? <==> a.IntV? && b.IntV? && (op in {"+", "-", "*"} || (op == "^" && b.i >= 0)))
  {
    if op == "+" then Success(Add(a, b))
    else if op == "-" then Success(Sub(a, b))
    else if op == "*" then
      ProductCase(a, b);
      Success(Mul(a, b))
    else if op == "/" then Div(a, b)
    else if op == "^" then Pow(a, b)
    else Failure(UnknownOperator(op, false))
  }

  lemma ProductCase(a: Num, b: Num)
    ensures RealBinary("*", a.ToReal(), b.ToReal()) == MapReal(Success(Mul(a, b)))
  {
  }

  /** The operator step of `visit_unary_op`, after the operand has been
      evaluated. */
  function ApplyUnary(op: string, a: Num): (r: Result<Num, EvalError>)
    ensures MapReal(r) == RealUnary(op, a.ToReal())
    ensures r.Success? ==> (r.value.IntV? <==> a.IntV?)
  {
    if op == "+" then Success(a)
    else if op == "-" then Success(Neg(a))
    else Failure(UnknownOperator(op, true))
  }

  /** `node.accept(visitor)` for a node below the root.  A success means
      every variable of the tree is bound; a failure is an error some node
      of the tree can raise. */
  function Eval(e: Expr, env: Env): (r: Result<Num, EvalError>)
    ensures r.Success? ==> forall n :: n in Variables(e) ==> n in env
    ensures r.Failure? ==> CanRaise(e, env, r.error)
  {
    match e
    case Number(v) => Success(IntV(v))
    case Variable(n) =>
      if n in env then Success(env[n]) else Failure(UndefinedVariable(n))
    case BinOp(op, l, r) =>
      var a :- Eval(l, env);
      var b :- Eval(r, env);
      ApplyBinary(op, a, b)
    case UnaryOp(op, x) =>
      var v :- Eval(x, env);
      ApplyUnary(op, v)
    case Equation(_, _) => Failure(NestedEquation)
  }

  /** `root.accept(EvaluateVisitor(env))`: an equation gives the pair of
      its sides' values, left side first and with no equality check; any
      other root gives one number. */
  function Evaluate(e: Expr, env: Env): (r: Result<Value, EvalError>)
    ensures r.Success? ==> (r.value.Pair? <==> e.Equation?)
    ensures r.Failure? && e.Equation? ==>
      CanRaise(e.lhs, env, r.error) || CanRaise(e.rhs, env, r.error)
    ensures r.Failure? && !e.Equation? ==> CanRaise(e, env, r.error)
  {
    if e.Equation? then
      var a :- Eval(e.lhs, env);
      var b :- Eval(e.rhs, env);
      Success(Pair(a, b))
    else
      var v :- Eval(e, env);
      Success(Scalar(v))
  }

  /** The root step in terms of `Eval`: an equation succeeds exactly when
      both sides do, giving their values in order; any other root gives
      its own value. */
  lemma EvaluateBySides(e: Expr, env: Env)
    ensures e.Equation? ==>
      (Evaluate(e, env).Success? <==> Eval(e.lhs, env).Success? && Eval(e.rhs, env).Success?)
    ensures e.Equation? && Evaluate(e, env).Success? ==>
      Evaluate(e, env).value == Pair(Eval(e.lhs, env).value, Eval(e.rhs, env).value)
    ensures !e.Equation? ==>
      (Evaluate(e, env).Success? <==> Eval(e, env).Success?)
    ensures !e.Equation? && Evaluate(e, env).Success? ==>
      Evaluate(e, env).value == Scalar(Eval(e, env).value)
  {
  }

  // ---- agreement with the real-number semantics ----

  /** The environment's numeric values. */
  function RealEnv(env: Env): (renv: map<string, real>)
    ensures renv.Keys == env.Keys
    ensures forall n :: n in env ==> renv[n] == env[n].ToReal()
  {
    map n | n in env :: env[n].ToReal()
  }

  /** Keeping Python's `int`/`float` distinction never changes an
      evaluation's numbers or its error: the evaluator computes exactly
      the real-number semantics. */
  lemma {:induction false} EvalMatchesReference(e: Expr, env: Env)
    ensures MapReal(Eval(e, env)) == RealEval(e, RealEnv(env))
  {
    match e
    case Number(_) =>
    case Variable(_) =>
    case BinOp(op, l, r) =>
      EvalMatchesReference(l, env);
      EvalMatchesReference(r, env);
    case UnaryOp(op, x) =>
      EvalMatchesReference(x, env);
    case Equation(_, _) =>
  }

  // ---- which error wins ----

  /** A failing left operand decides the result whatever the right operand
      would do. */
  lemma LeftErrorWins(op: string, l: Expr, r: Expr, env: Env)
    requires Eval(l, env).Failure?
    ensures Eval(BinOp(op, l, r), env) == Failure(Eval(l, env).error)
  {
  }

  /** Likewise for the two sides of an equation at the root. */
  lemma EquationLeftErrorWins(l: Expr, r: Expr, env: Env)
    requires Eval(l, env).Failure?
    ensures Evaluate(Equation(l, r), env) == Failure(Eval(l, env).error)
  {
  }

  /** Once the left operand has succeeded, a failing right operand decides
      the result: the operator step runs only after both operands, so no
      operator error hides an operand error. */
  lemma RightErrorNext(op: string, l: Expr, r: Expr, env: Env)
    requires Eval(l, env).Success? && Eval(r, env).Failure?
    ensures Eval(BinOp(op, l, r), env) == Failure(Eval(r, env).error)
  {
  }

  /** Likewise for the right side of an equation at the root. */
  lemma EquationRightErrorNext(l: Expr, r: Expr, env: Env)
    requires Eval(l, env).Success? && Eval(r, env).Failure?
    ensures Evaluate(Equation(l, r), env) == Failure(Eval(r, env).error)
  {
  }

  /** A division reports DivisionByZero of its own only once both operands
      have evaluated successfully and the divisor is zero. */
  lemma DivisionByZeroAfterOperands(l: Expr, r: Expr, env: Env)
    requires Eval(l, env).Success? && Eval(r, env).Success?
    ensures Eval(BinOp("/", l, r), env) == Failure(DivisionByZero)
        <==> Eval(r, env).value.ToReal() == 0.0
  {
  }

  /** The first name of `names` that `env` does not bind. */
  function FirstUnbound(names: seq<string>, env: Env): (r: Option<string>)
    ensures r.Some? ==> r.value in names && r.value !in env
    ensures r.None? <==> forall n :: n in names ==> n in env
  {
    if |names| == 0 then None
    else if names[0] !in env then Some(names[0])
    else FirstUnbound(names[1..], env)
  }

  lemma {:induction false} FirstUnboundAppend(a: seq<string>, b: seq<string>, env: Env)
    ensures FirstUnbound(a + b, env)
         == if FirstUnbound(a, env).Some? then FirstUnbound(a, env) else FirstUnbound(b, env)
  {
    if |a| > 0 {
      assert (a + b)[1..] == a[1..] + b;
      FirstUnboundAppend(a[1..], b, env);
    } else {
      assert a + b == b;
    }
  }

  /** A tree whose only operators are `+ - *` and unary `+ -`, with no
      equation: nothing in it can fail except a variable lookup. */
  predicate Plain(e: Expr)
  {
    match e
    case Number(_) => true
    case Variable(_) => true
    case BinOp(op, l, r) => op in {"+", "-", "*"} && Plain(l) && Plain(r)
    case UnaryOp(op, x) => op in UnaryOps && Plain(x)
    case Equation(_, _) => false
  }

  /** Evaluation order: a plain tree fails exactly when one of its
      variables is unbound, and then names the leftmost unbound one. */
  lemma {:induction false} PlainFailsAtFirstUnbound(e: Expr, env: Env)
    requires Plain(e)
    ensures Eval(e, env).Failure? <==> FirstUnbound(Variables(e), env).Some?
    ensures Eval(e, env).Failure? ==>
      Eval(e, env).error == UndefinedVariable(FirstUnbound(Variables(e), env).value)
  {
    match e
    case Number(_) =>
    case Variable(_) =>
    case BinOp(_, l, r) =>
      PlainFailsAtFirstUnbound(l, env);
      PlainFailsAtFirstUnbound(r, env);
      FirstUnboundAppend(Variables(l), Variables(r), env);
    case UnaryOp(_, x) =>
      PlainFailsAtFirstUnbound(x, env);
  }

  // ---- dependence on the environment ----

  /** Two environments that agree on the tree's variables. */
  predicate AgreeOn(names: seq<string>, env1: Env, env2: Env)
  {
    forall n :: n in names ==> (n in env1 <==> n in env2) && (n in env1 ==> env1[n] == env2[n])
  }

  /** The outcome depends only on the bindings of the tree's own
      variables. */
  lemma {:induction false} EvalDependsOnlyOnVariables(e: Expr, env1: Env, env2: Env)
    requires AgreeOn(Variables(e), env1, env2)
    ensures Eval(e, env1) == Eval(e, env2)
  {
    match e
    case Number(_) =>
    case Variable(_) =>
    case BinOp(_, l, r) =>
      EvalDependsOnlyOnVariables(l, env1, env2);
      EvalDependsOnlyOnVariables(r, env1, env2);
    case UnaryOp(_, x) =>
      EvalDependsOnlyOnVariables(x, env1, env2);
    case Equation(_, _) =>
  }

  /** With the default (empty) environment every tree that mentions a
      variable fails. */
  lemma EmptyEnvRejectsVariables(e: Expr)
    requires |Variables(e)| > 0
    ensures Eval(e, EmptyEnv).Failure?
    ensures Evaluate(e, EmptyEnv).Failure?
  {
    assert Variables(e)[0] in Variables(e);
    if e.Equation? {
      if |Variables(e.lhs)| > 0 {
        assert Variables(e.lhs)[0] in Variables(e.lhs);
      } else {
        assert Variables(e) == Variables(e.rhs);
        assert Variables(e.rhs)[0] in Variables(e.rhs);
      }
    }
  }

  // ---- the int/float domain ----

  /** Every `^` of the tree has an exponent that does not evaluate to a
      negative number. */
  predicate NonNegativeExponents(e: Expr, env: Env)
  {
    match e
    case Number(_) => true
    case Variable(_) => true
    case BinOp(op, l, r) =>
      && NonNegativeExponents(l, env)
      && NonNegativeExponents(r, env)
      && (op == "^" && Eval(r, env).Success? ==> Eval(r, env).value.ToReal() >= 0.0)
    case UnaryOp(_, x) => NonNegativeExponents(x, env)
    case Equation(l, r) => NonNegativeExponents(l, env) && NonNegativeExponents(r, env)
  }

  predicate IntEnv(env: Env)
  {
    forall n :: n in env ==> env[n].IntV?
  }

  /** Without `/` and without negative exponents, integer inputs give an
      integer result: only true division and negative powers leave the
      `int` domain. */
  lemma {:induction false} IntegerClosure(e: Expr, env: Env)
    requires !ContainsBinOp(e, "/") && NonNegativeExponents(e, env) && IntEnv(env)
    requires Eval(e, env).Success?
    ensures Eval(e, env).value.IntV?
  {
    match e
    case Number(_) =>
    case Variable(_) =>
    case BinOp(_, l, r) =>
      IntegerClosure(l, env);
      IntegerClosure(r, env);
    case UnaryOp(_, x) =>
      IntegerClosure(x, env);
  }

  /** A `/` at the root always yields a float, even when the division is
      exact. */
  lemma DivisionGivesFloat(l: Expr, r: Expr, env: Env)
    requires Eval(BinOp("/", l, r), env).Success?
    ensures Eval(BinOp("/", l, r), env).value.FloatV?
  {
  }

  // ---- well-formed trees ----

  /** On a tree the builder can produce, only the runtime errors occur:
      an unbound variable, a zero divisor, or a bad power. */
  lemma WellFormedErrors(e: Expr, env: Env)
    requires WellFormed(e)
    requires Evaluate(e, env).Failure?
    ensures Evaluate(e, env).error.UndefinedVariable?
         || Evaluate(e, env).error == DivisionByZero
         || Evaluate(e, env).error == PowDomain
         || Evaluate(e, env).error == NonIntegralExponent
  {
    var err := Evaluate(e, env).error;
    if err.UnknownOperator? {
      if e.Equation? {
        LegalHasNoUnknown(e.lhs, err.symbol, err.unary);
        LegalHasNoUnknown(e.rhs, err.symbol, err.unary);
      } else {
        LegalHasNoUnknown(e, err.symbol, err.unary);
      }
    }
  }

  lemma {:induction false} LegalHasNoUnknown(e: Expr, s: string, unary: bool)
    requires LegalOperators(e)
    ensures unary ==> !(ContainsUnaryOp(e, s) && s !in UnaryOps)
    ensures !unary ==> !(ContainsBinOp(e, s) && s !in BinaryOps)
  {
    match e
    case Number(_) =>
    case Variable(_) =>
    case BinOp(_, l, r) =>
      LegalHasNoUnknown(l, s, unary);
      LegalHasNoUnknown(r, s, unary);
    case UnaryOp(_, x) =>
      LegalHasNoUnknown(x, s, unary);
    case Equation(l, r) =>
      LegalHasNoUnknown(l, s, unary);
      LegalHasNoUnknown(r, s, unary);
  }
}
