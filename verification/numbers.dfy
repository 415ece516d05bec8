/** Python's arithmetic on `int` and `float` as `visit_binary_op` and
    `visit_unary_op` (ast.py) use it: `+ - *` stay `int` on two ints,
    `/` always gives a `float`, and `**` gives an `int` only for an int
    base and a non-negative int exponent. */
module Numbers {
  import opened Wrappers
  import opened Values
  import opened Reference

  function IntPow(x: int, n: nat): int
  {
    if n == 0 then 1 else x * IntPow(x, n - 1)
  }

  /** Integer powers agree with real powers. */
  lemma {:induction false} IntPowAsReal(x: int, n: nat)
    ensures IntPow(x, n) as real == RealPow(x as real, n)
  {
    if n > 0 {
      IntPowAsReal(x, n - 1);
    }
  }

  function Add(a: Num, b: Num): (r: Num)
    ensures r.ToReal() == a.ToReal() + b.ToReal()
    ensures r.IntV? <==> a.IntV? && b.IntV?
  {
    if a.IntV? && b.IntV? then IntV(a.i + b.i) else FloatV(a.ToReal() + b.ToReal())
  }

  function Sub(a: Num, b: Num): (r: Num)
    ensures r.ToReal() == a.ToReal() - b.ToReal()
    ensures r.IntV? <==> a.IntV? && b.IntV?
  {
    if a.IntV? && b.IntV? then IntV(a.i - b.i) else FloatV(a.ToReal() - b.ToReal())
  }

  function Mul(a: Num, b: Num): (r: Num)
    ensures r.ToReal() == a.ToReal() * b.ToReal()
    ensures r.IntV? <==> a.IntV? && b.IntV?
  {
    if a.IntV? && b.IntV? then IntV(a.i * b.i) else FloatV(a.ToReal() * b.ToReal())
  }

  /** True division: fails on a zero divisor (`0` and `0.0` alike) and
      otherwise gives a float whose product with the divisor is the
      dividend. */
  function Div(a: Num, b: Num): (r: Result<Num, EvalError>)
    ensures r.Failure? <==> b.ToReal() == 0.0
    ensures r.Failure? ==> r.error == DivisionByZero
    ensures r.Success? ==> r.value.FloatV? && r.value.ToReal() * b.ToReal() == a.ToReal()
  {
    if b.ToReal() == 0.0 then Failure(DivisionByZero)
    else Success(FloatV(a.ToReal() / b.ToReal()))
  }

  /** `-a`. */
  function Neg(a: Num): (r: Num)
    ensures r.ToReal() == -a.ToReal()
    ensures r.IntV? <==> a.IntV?
  {
    match a
    case IntV(i) => IntV(-i)
    case FloatV(f) => FloatV(-f)
  }

  /** `a ** b`.  Its numeric outcome, error included, is the real power
      `RealPower`; the result is an `int` exactly when both operands are
      ints and the exponent is non-negative. */
  function Pow(a: Num, b: Num): (r: Result<Num, EvalError>)
    ensures MapReal(r) == RealPower(a.ToReal(), b.ToReal())
    ensures r.Success? ==> (r.value.IntV? <==> a.IntV? && b.IntV? && b.i >= 0)
  {
    var x := a.ToReal();
    match b
    case IntV(n) =>
      assert (n as real).Floor == n;
      if n >= 0 then
        match a
        case IntV(m) =>
          IntPowAsReal(m, n);
          Success(IntV(IntPow(m, n)))
        case FloatV(_) => Success(FloatV(RealPow(x, n)))
      else if x == 0.0 then Failure(PowDomain)
      else Success(FloatV(1.0 / RealPow(x, -n)))
    case FloatV(y) =>
      if !IsWhole(y) then Failure(NonIntegralExponent)
      else if y >= 0.0 then Success(FloatV(RealPow(x, y.Floor)))
      else if x == 0.0 then Failure(PowDomain)
      else Success(FloatV(1.0 / RealPow(x, -y.Floor)))
  }

  /** A negative exponent yields the reciprocal of the positive power. */
  lemma NegativePowerIsReciprocal(a: Num, n: int)
    requires n < 0 && a.ToReal() != 0.0
    ensures Pow(a, IntV(n)).Success?
    ensures Pow(a, IntV(n)).value.ToReal() * RealPow(a.ToReal(), -n) == 1.0
  {
  }
}
