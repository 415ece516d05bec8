/** The structural rendering `to_string(level)` of every node class
    (ast.py, NumberNode .. EquationNode). */
module Render {
  import opened Ast
  import opened Text

  /** The text that follows the indentation on the first line of a node's
      rendering. */
  function Header(e: Expr): string
  {
    match e
    case Number(v) => "Number(" + IntToString(v) + ")"
    case Variable(n) => "Variable('" + n + "')"
    case BinOp(op, _, _) => "BinaryOp('" + op + "'):"
    case UnaryOp(op, _) => "UnaryOp('" + op + "'):"
    case Equation(_, _) => "Equation:"
  }

  /** `node.to_string(level)`, built by string concatenation as the Python
      methods build it: the indented header, then each child's rendering
      (and, for an equation, its `Left:`/`Right:` labels) after a newline.
      Since its last line always renders a leaf, it ends in `)` and never
      in a newline. */
  function ToString(e: Expr, level: nat): (s: string)
    ensures |s| > 0 && s[|s| - 1] == ')'
  {
    var indent := Indent(level);
    var head := indent + Header(e);
    match e
    case Number(_) =>
      HeaderOfLeaf(e);
      PrefixAndLast(indent, Header(e));
      head
    case Variable(_) =>
      HeaderOfLeaf(e);
      PrefixAndLast(indent, Header(e));
      head
    case BinOp(_, l, r) =>
      var front := head + "\n" + ToString(l, level + 1) + "\n";
      var last := ToString(r, level + 1);
      PrefixAndLast(front, last);
      front + last
    case UnaryOp(_, x) =>
      var front := head + "\n";
      var last := ToString(x, level + 1);
      PrefixAndLast(front, last);
      front + last
    case Equation(l, r) =>
      var front := head + "\n" + (indent + "  Left:") + "\n"
        + ToString(l, level + 2) + "\n" + (indent + "  Right:") + "\n";
      var last := ToString(r, level + 2);
      PrefixAndLast(front, last);
      front + last
  }

  /** A leaf's header ends in `)`. */
  lemma HeaderOfLeaf(e: Expr)
    requires e.Number? || e.Variable?
    ensures |Header(e)| > 0 && Header(e)[|Header(e)| - 1] == ')'
  {
    match e
    case Number(v) => PrefixAndLast("Number(" + IntToString(v), ")");
    case Variable(n) => PrefixAndLast("Variable('" + n, "')");
  }

  /** A string is a prefix of its extensions, and a non-empty extension
      decides the last character. */
  lemma PrefixAndLast(head: string, tail: string)
    ensures head <= head + tail
    ensures |tail| > 0 ==> (head + tail)[|head + tail| - 1] == tail[|tail| - 1]
  {
  }

  /** The same rendering as a list of lines.  There is one line per node
      plus the `Left:`/`Right:` labels of each equation, and the first line
      is the node's header at `2*level` spaces. */
  function Lines(e: Expr, level: nat): (r: seq<string>)
    ensures |r| == NodeCount(e) + 2 * EquationCount(e)
    ensures r[0] == Indent(level) + Header(e)
  {
    var indent := Indent(level);
    var head := indent + Header(e);
    match e
    case Number(_) => [head]
    case Variable(_) => [head]
    case BinOp(_, l, r) => [head] + Lines(l, level + 1) + Lines(r, level + 1)
    case UnaryOp(_, x) => [head] + Lines(x, level + 1)
    case Equation(l, r) =>
      [head, indent + "  Left:"] + Lines(l, level + 2) + [indent + "  Right:"] + Lines(r, level + 2)
  }

  /** Every line after a node's header is indented at least one level
      deeper than the header. */
  lemma {:induction false} LinesIndented(e: Expr, level: nat)
    ensures AllIndented(Lines(e, level)[1..], 2 * (level + 1))
  {
    var head := Indent(level) + Header(e);
    match e
    case Number(_) =>
    case Variable(_) =>
    case BinOp(_, l, r) =>
      var a, b := Lines(l, level + 1), Lines(r, level + 1);
      LinesIndented(l, level + 1);
      LinesIndented(r, level + 1);
      ChildIndented(l, level + 1, a);
      ChildIndented(r, level + 1, b);
      IndentedTail(head, a, b, 2 * (level + 1));
    case UnaryOp(_, x) =>
      var a := Lines(x, level + 1);
      LinesIndented(x, level + 1);
      ChildIndented(x, level + 1, a);
      assert Lines(e, level)[1..] == a;
    case Equation(l, r) =>
      LinesIndented(l, level + 2);
      LinesIndented(r, level + 2);
      EquationIndented(e, level);
  }

  lemma EquationIndented(e: Expr, level: nat)
    requires e.Equation?
    requires AllIndented(Lines(e.lhs, level + 2)[1..], 2 * (level + 3))
    requires AllIndented(Lines(e.rhs, level + 2)[1..], 2 * (level + 3))
    ensures AllIndented(Lines(e, level)[1..], 2 * (level + 1))
  {
    var indent := Indent(level);
    var head := indent + Header(e);
    var left, right := indent + "  Left:", indent + "  Right:";
    var a, b := Lines(e.lhs, level + 2), Lines(e.rhs, level + 2);
    ChildIndented(e.lhs, level + 2, a);
    ChildIndented(e.rhs, level + 2, b);
    LabelledBlock(level, "  Left:", a);
    LabelledBlock(level, "  Right:", b);
    IndentedTail(head, [left] + a, [right] + b, 2 * (level + 1));
    Regroup(head, left, a, right, b);
  }

  /** A label line one level below `level`, followed by lines two levels
      below it. */
  lemma LabelledBlock(level: nat, text: string, a: seq<string>)
    requires StartsWithSpaces(text, 2)
    requires AllIndented(a, 2 * (level + 2))
    ensures AllIndented([Indent(level) + text] + a, 2 * (level + 1))
  {
    LabelIndented(level, text);
    assert ([Indent(level) + text] + a)[1..] == a;
    IndentedCons([Indent(level) + text] + a, 2 * (level + 1), 2 * (level + 2));
  }

  lemma Regroup<T>(h: T, x: T, a: seq<T>, y: T, b: seq<T>)
    ensures [h] + ([x] + a) + ([y] + b) == [h, x] + a + [y] + b
  {
  }

  /** Indentation of the lines after a header line. */
  lemma IndentedTail(head: string, a: seq<string>, b: seq<string>, n: nat)
    requires AllIndented(a, n) && AllIndented(b, n)
    ensures AllIndented(([head] + a + b)[1..], n)
  {
    assert ([head] + a + b)[1..] == a + b;
    IndentedAppend(a, b, n);
  }

  /** All lines of a child rendered at `level` are indented by `2*level`. */
  lemma ChildIndented(e: Expr, level: nat, a: seq<string>)
    requires |a| > 0
    requires a[0] == Indent(level) + Header(e)
    requires AllIndented(a[1..], 2 * (level + 1))
    ensures AllIndented(a, 2 * level)
  {
    IndentedLine(level, Header(e));
    IndentedCons(a, 2 * level, 2 * (level + 1));
  }

  /** An equation's `  Left:`/`  Right:` label sits one level deeper. */
  lemma LabelIndented(level: nat, text: string)
    requires StartsWithSpaces(text, 2)
    ensures StartsWithSpaces(Indent(level) + text, 2 * (level + 1))
  {
  }

  /** The string rendering is the line rendering joined with newlines. */
  lemma {:induction false} ToStringIsJoinedLines(e: Expr, level: nat)
    ensures ToString(e, level) == Join(Lines(e, level))
  {
    match e
    case Number(_) =>
    case Variable(_) =>
    case BinOp(_, l, r) =>
      ToStringIsJoinedLines(l, level + 1);
      ToStringIsJoinedLines(r, level + 1);
      JoinedBinary(e, level);
    case UnaryOp(_, x) =>
      ToStringIsJoinedLines(x, level + 1);
      JoinedUnary(e, level);
    case Equation(l, r) =>
      ToStringIsJoinedLines(l, level + 2);
      ToStringIsJoinedLines(r, level + 2);
      JoinedEquation(e, level);
  }

  lemma JoinedBinary(e: Expr, level: nat)
    requires e.BinOp?
    requires ToString(e.left, level + 1) == Join(Lines(e.left, level + 1))
    requires ToString(e.right, level + 1) == Join(Lines(e.right, level + 1))
    ensures ToString(e, level) == Join(Lines(e, level))
  {
    var head := Indent(level) + Header(e);
    var a, b := Lines(e.left, level + 1), Lines(e.right, level + 1);
    JoinAppend([head], a);
    JoinAppend([head] + a, b);
  }

  lemma JoinedUnary(e: Expr, level: nat)
    requires e.UnaryOp?
    requires ToString(e.operand, level + 1) == Join(Lines(e.operand, level + 1))
    ensures ToString(e, level) == Join(Lines(e, level))
  {
    JoinAppend([Indent(level) + Header(e)], Lines(e.operand, level + 1));
  }

  lemma JoinedEquation(e: Expr, level: nat)
    requires e.Equation?
    requires ToString(e.lhs, level + 2) == Join(Lines(e.lhs, level + 2))
    requires ToString(e.rhs, level + 2) == Join(Lines(e.rhs, level + 2))
    ensures ToString(e, level) == Join(Lines(e, level))
  {
    var indent := Indent(level);
    var head := indent + Header(e);
    var left, right := indent + "  Left:", indent + "  Right:";
    var a, b := Lines(e.lhs, level + 2), Lines(e.rhs, level + 2);
    JoinAppend([head], [left]);
    assert [head] + [left] == [head, left];
    JoinAppend([head, left], a);
    JoinAppend([head, left] + a, [right]);
    JoinAppend([head, left] + a + [right], b);
  }

  /** The first line of the string rendering is the node's header at
      `2*level` spaces. */
  lemma ToStringStartsWithHeader(e: Expr, level: nat)
    ensures Indent(level) + Header(e) <= ToString(e, level)
  {
    ToStringIsJoinedLines(e, level);
    JoinStartsWithFirst(Lines(e, level));
  }

  /** `str(node)`: the rendering at level 0, which begins with the node's
      own header. */
  function Str(e: Expr): (s: string)
    ensures s == Join(Lines(e, 0))
    ensures Header(e) <= s
  {
    ToStringIsJoinedLines(e, 0);
    ToStringStartsWithHeader(e, 0);
    ToString(e, 0)
  }
}
