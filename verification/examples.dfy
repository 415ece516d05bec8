/** Worked instances of the renderers and the evaluator on small trees. */
module Examples {
  import opened Wrappers
  import opened Ast
  import opened Values
  import opened Text
  import opened Render
  import opened Printing
  import opened Evaluation

  const Two := Number(2)
  const Three := Number(3)

  /** `2 ^ (3 ^ 2)` is 512 and `(2 ^ 3) ^ 2` is 64: `^` is not
      associative, so the tree's shape decides the value. */
  lemma PowerShapes()
    ensures Eval(BinOp("^", Two, BinOp("^", Three, Two)), EmptyEnv) == Success(IntV(512))
    ensures Eval(BinOp("^", BinOp("^", Two, Three), Two), EmptyEnv) == Success(IntV(64))
  {
  }

  /** `2 + 3 * 4` and `(2 + 3) * 4`. */
  lemma ProductShapes()
    ensures Eval(BinOp("+", Two, BinOp("*", Three, Number(4))), EmptyEnv) == Success(IntV(14))
    ensures Eval(BinOp("*", BinOp("+", Two, Three), Number(4)), EmptyEnv) == Success(IntV(20))
  {
  }

  /** `-(2 ^ 2)` is -4. */
  lemma NegatedPower()
    ensures Eval(UnaryOp("-", BinOp("^", Two, Two)), EmptyEnv) == Success(IntV(-4))
  {
  }

  /** `7 / 2` is the float 3.5 while `7 * 2` stays the int 14; `4 / 2` is
      the float 2.0, not the int 2. */
  lemma DivisionIsTrue()
    ensures Eval(BinOp("/", Number(7), Two), EmptyEnv) == Success(FloatV(3.5))
    ensures Eval(BinOp("*", Number(7), Two), EmptyEnv) == Success(IntV(14))
    ensures Eval(BinOp("/", Number(4), Two), EmptyEnv) == Success(FloatV(2.0))
  {
  }

  /** `2 ^ -1` is the float 0.5; `0 ^ -1` fails. */
  lemma NegativeExponents()
    ensures Eval(BinOp("^", Two, Number(-1)), EmptyEnv) == Success(FloatV(0.5))
    ensures Eval(BinOp("^", Number(0), Number(-1)), EmptyEnv) == Failure(PowDomain)
  {
  }

  /** A variable with no environment, and a zero divisor. */
  lemma Errors()
    ensures Evaluate(Variable("x"), EmptyEnv) == Failure(UndefinedVariable("x"))
    ensures Evaluate(BinOp("/", Number(5), Number(0)), EmptyEnv) == Failure(DivisionByZero)
    ensures Eval(BinOp("%", Two, Two), EmptyEnv) == Failure(UnknownOperator("%", false))
  {
  }

  /** `x / 0` with `x` unbound reports the variable, not the division. */
  lemma OperandErrorFirst()
    ensures Eval(BinOp("/", Variable("x"), Number(0)), EmptyEnv) == Failure(UndefinedVariable("x"))
  {
  }

  /** `a + b = 7` under `a = 3, b = 4` gives both sides' values. */
  lemma EquationPair()
    ensures Evaluate(Equation(BinOp("+", Variable("a"), Variable("b")), Number(7)),
                     map["a" := IntV(3), "b" := IntV(4)])
         == Success(Pair(IntV(7), IntV(7)))
  {
  }

  /** `(1 = 1) / 0`: the nested equation is reported before the zero
      divisor is looked at. */
  lemma NestedBeforeDivisor()
    ensures Eval(BinOp("/", Equation(Number(1), Number(1)), Number(0)), EmptyEnv) == Failure(NestedEquation)
  {
  }

  /** Indentation one level down is two spaces. */
  lemma IndentOne()
    ensures Indent(0) == "" && Indent(1) == "  "
  {
    assert Indent(1) == "  " + Indent(0);
  }

  /** The tree rendering of `x + y`. */
  lemma RenderSum()
    ensures Lines(BinOp("+", Variable("x"), Variable("y")), 0)
         == ["BinaryOp('+'):", "  Variable('x')", "  Variable('y')"]
  {
    var e := BinOp("+", Variable("x"), Variable("y"));
    TreeLeaf("x");
    TreeLeaf("y");
    assert "  Variable('" + "x" + "')" == "  Variable('x')";
    assert "  Variable('" + "y" + "')" == "  Variable('y')";
    IndentOne();
    assert Lines(e, 0) == [Indent(0) + Header(e)] + Lines(Variable("x"), 1) + Lines(Variable("y"), 1);
    assert Header(e) == "BinaryOp('+'):";
    assert "" + "BinaryOp('+'):" == "BinaryOp('+'):";
  }

  /** A variable one level down. */
  lemma TreeLeaf(n: string)
    ensures Lines(Variable(n), 1) == ["  Variable('" + n + "')"]
  {
    IndentOne();
    assert Lines(Variable(n), 1) == [Indent(1) + Header(Variable(n))];
    assert "  " + ("Variable('" + n + "')") == "  Variable('" + n + "')";
  }

  /** What PrintVisitor prints for `x + y`. */
  lemma PrintSum()
    ensures PrintLines(BinOp("+", Variable("x"), Variable("y")), 0)
         == ["Binary Operation: +", "  Variable: x", "  Variable: y"]
  {
    var e := BinOp("+", Variable("x"), Variable("y"));
    PrintLeaf("x");
    PrintLeaf("y");
    assert "  Variable: " + "x" == "  Variable: x";
    assert "  Variable: " + "y" == "  Variable: y";
    IndentOne();
    assert PrintLines(e, 0) == [Indent(0) + PrintHeader(e)] + PrintLines(Variable("x"), 1) + PrintLines(Variable("y"), 1);
    assert PrintHeader(e) == "Binary Operation: +";
    assert "" + "Binary Operation: +" == "Binary Operation: +";
  }

  /** A variable printed one level down. */
  lemma PrintLeaf(n: string)
    ensures PrintLines(Variable(n), 1) == ["  Variable: " + n]
  {
    IndentOne();
    assert PrintLines(Variable(n), 1) == [Indent(1) + PrintHeader(Variable(n))];
    assert "  " + ("Variable: " + n) == "  Variable: " + n;
  }
}
