/** PrintVisitor (ast.py): a second indented rendering, which keeps its
    depth in a mutable `level` counter and writes each line to stdout.
    Here the output sink is the list of lines written so far. */
module Printing {
  import opened Ast
  import opened Text

  /** The text that follows the indentation on a node's printed line. */
  function PrintHeader(e: Expr): string
  {
    match e
    case Number(v) => "Number: " + IntToString(v)
    case Variable(n) => "Variable: " + n
    case BinOp(op, _, _) => "Binary Operation: " + op
    case UnaryOp(op, _) => "Unary Operation: " + op
    case Equation(_, _) => "Equation:"
  }

  /** The lines PrintVisitor prints for `e` when its counter is at `level`,
      with the depth passed explicitly instead of kept in a field.  One
      line per node plus the `Left side:`/`Right side:` labels of each
      equation; the node's own line comes first, at `2*level` spaces. */
  function PrintLines(e: Expr, level: nat): (r: seq<string>)
    ensures |r| == NodeCount(e) + 2 * EquationCount(e)
    ensures r[0] == Indent(level) + PrintHeader(e)
  {
    var indent := Indent(level);
    var head := indent + PrintHeader(e);
    match e
    case Number(_) => [head]
    case Variable(_) => [head]
    case BinOp(_, l, r) =>
      [head] + PrintLines(l, level + 1) + PrintLines(r, level + 1)
    case UnaryOp(_, x) =>
      [head] + PrintLines(x, level + 1)
    case Equation(l, r) =>
      [head, indent + "  Left side:"]
      + PrintLines(l, level + 2)
      + [indent + "  Right side:"]
      + PrintLines(r, level + 2)
  }

  /** The visitor's state: the indentation counter and everything printed
      so far. */
  datatype PrintVisitor = PrintVisitor(level: nat, output: seq<string>)

  /** `PrintVisitor()`: the counter starts at 0 and nothing is printed. */
  function NewPrintVisitor(): PrintVisitor
  {
    PrintVisitor(0, [])
  }

  /** `print(line)`: the line is appended to the output. */
  function Emit(v: PrintVisitor, line: string): (w: PrintVisitor)
    ensures w.level == v.level
    ensures w.output == v.output + [line]
  {
    v.(output := v.output + [line])
  }

  /** `root.accept(PrintVisitor())`: a fresh visitor prints the tree from
      depth 0, and its counter is back at 0 afterwards. */
  method PrintTree(e: Expr) returns (w: PrintVisitor)
    ensures w.level == 0
    ensures w.output == PrintLines(e, 0)
  {
    var v := NewPrintVisitor();
    w := Visit(v, e);
  }

  /** `node.accept(visitor)`: dispatches to the `visit_*` method of the
      node's class.  On return the counter is back at its value on entry,
      and what was printed is the explicit-depth rendering. */
  method Visit(v: PrintVisitor, e: Expr) returns (w: PrintVisitor)
    ensures w.level == v.level
    ensures w.output == v.output + PrintLines(e, v.level)
    decreases e, 1
  {
    match e
    case Number(_) => w := VisitLeaf(v, e);
    case Variable(_) => w := VisitLeaf(v, e);
    case BinOp(_, _, _) => w := VisitBinaryOp(v, e);
    case UnaryOp(_, _) => w := VisitUnaryOp(v, e);
    case Equation(_, _) => w := VisitEquation(v, e);
  }

  /** `visit_number` and `visit_variable`: one line at the current level. */
  method VisitLeaf(v: PrintVisitor, e: Expr) returns (w: PrintVisitor)
    requires e.Number? || e.Variable?
    ensures w.level == v.level
    ensures w.output == v.output + PrintLines(e, v.level)
  {
    var indent := Indent(v.level);
    w := Emit(v, indent + PrintHeader(e));
  }

  /** `visit_binary_op`: the operands print one level deeper; the counter
      is raised before them and lowered after. */
  method VisitBinaryOp(v: PrintVisitor, e: Expr) returns (w: PrintVisitor)
    requires e.BinOp?
    ensures w.level == v.level
    ensures w.output == v.output + PrintLines(e, v.level)
    decreases e, 0
  {
    var indent := Indent(v.level);
    w := Emit(v, indent + PrintHeader(e));
    w := w.(level := w.level + 1);
    w := Visit(w, e.left);
    w := Visit(w, e.right);
    w := w.(level := w.level - 1);
    BinaryLayout(v.output, e, v.level);
  }

  /** `visit_unary_op`: the operand prints one level deeper. */
  method VisitUnaryOp(v: PrintVisitor, e: Expr) returns (w: PrintVisitor)
    requires e.UnaryOp?
    ensures w.level == v.level
    ensures w.output == v.output + PrintLines(e, v.level)
    decreases e, 0
  {
    var indent := Indent(v.level);
    w := Emit(v, indent + PrintHeader(e));
    w := w.(level := w.level + 1);
    w := Visit(w, e.operand);
    w := w.(level := w.level - 1);
    UnaryLayout(v.output, e, v.level);
  }

  /** `visit_equation`: the labels print one level deeper and the sides two
      levels deeper; the counter is raised before the left label, again
      before each side, lowered by one after the left side and by two at
      the end. */
  method VisitEquation(v: PrintVisitor, e: Expr) returns (w: PrintVisitor)
    requires e.Equation?
    ensures w.level == v.level
    ensures w.output == v.output + PrintLines(e, v.level)
    decreases e, 0
  {
    var indent := Indent(v.level);
    w := Emit(v, indent + PrintHeader(e));
    w := w.(level := w.level + 1);
    w := Emit(w, indent + "  Left side:");
    w := w.(level := w.level + 1);
    w := Visit(w, e.lhs);
    w := w.(level := w.level - 1);
    w := Emit(w, indent + "  Right side:");
    w := w.(level := w.level + 1);
    w := Visit(w, e.rhs);
    w := w.(level := w.level - 2);
    EquationLayout(v.output, e, v.level);
  }

  // The next three lemmas regroup what a visit appends into the node's
  // explicit-depth rendering.

  lemma BinaryLayout(x: seq<string>, e: Expr, level: nat)
    requires e.BinOp?
    ensures x + [Indent(level) + PrintHeader(e)] + PrintLines(e.left, level + 1)
            + PrintLines(e.right, level + 1)
         == x + PrintLines(e, level)
  {
  }

  lemma UnaryLayout(x: seq<string>, e: Expr, level: nat)
    requires e.UnaryOp?
    ensures x + [Indent(level) + PrintHeader(e)] + PrintLines(e.operand, level + 1)
         == x + PrintLines(e, level)
  {
  }

  lemma EquationLayout(x: seq<string>, e: Expr, level: nat)
    requires e.Equation?
    ensures x + [Indent(level) + PrintHeader(e)] + [Indent(level) + "  Left side:"]
            + PrintLines(e.lhs, level + 2) + [Indent(level) + "  Right side:"]
            + PrintLines(e.rhs, level + 2)
         == x + PrintLines(e, level)
  {
    var indent := Indent(level);
    FiveParts(x, indent + PrintHeader(e), indent + "  Left side:", PrintLines(e.lhs, level + 2),
              indent + "  Right side:", PrintLines(e.rhs, level + 2));
  }

  lemma FiveParts<T>(x: seq<T>, h: T, p: T, a: seq<T>, q: T, b: seq<T>)
    ensures x + [h] + [p] + a + [q] + b == x + ([h, p] + a + [q] + b)
  {
  }
}
