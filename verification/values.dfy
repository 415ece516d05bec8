/** The values and errors of EvaluateVisitor (ast.py). */
module Values {
  import opened Wrappers

  /** A Python number as the evaluator produces it: an `int`, or a `float`.
      Floats are modelled as exact reals. */
  datatype Num = IntV(i: int) | FloatV(f: real) {

    /** The number's mathematical value; Python's `==` compares numbers
        by this value, so `2.0 == 2`. */
    function ToReal(): real
    {
      match this
      case IntV(i) => i as real
      case FloatV(f) => f
    }
  }

  /** Why an evaluation failed.  The first four are the errors the Python
      code raises; the last two mark inputs outside this model. */
  datatype EvalError =
      /** `ValueError("Variable '<name>' is not defined")`. */
    | UndefinedVariable(name: string)
      /** `ValueError("Division by zero")`. */
    | DivisionByZero
      /** `ValueError("Unknown operator: ...")`, or, when `unary` holds,
          `ValueError("Unknown unary operator: ...")`. */
    | UnknownOperator(symbol: string, unary: bool)
      /** Python's `ZeroDivisionError` from raising zero to a negative
          power. */
    | PowDomain
      /** A `^` whose exponent is a float with a fractional part. */
    | NonIntegralExponent
      /** An Equation below the root. */
    | NestedEquation

  /** The numeric content of an evaluation outcome, errors unchanged. */
  function MapReal(r: Result<Num, EvalError>): Result<real, EvalError>
  {
    match r
    case Success(v) => Success(v.ToReal())
    case Failure(err) => Failure(err)
  }
}
