/** The traversal that `to_string` and PrintVisitor share: a pre-order walk
    that visits a node, then its children left to right, and that puts an
    equation's `Left`/`Right` labels one level below the equation and its
    sides two levels below.  Both renderers are shown to be line-by-line
    images of this one outline, which is how they agree in traversal order
    and depth while differing only in wording. */
module Traversal {
  import opened Ast
  import opened Text
  import opened Render
  import opened Printing

  datatype Item = Node(expr: Expr) | LeftLabel | RightLabel

  /** One rendered line: what it shows and at which depth. */
  datatype Entry = Entry(depth: nat, item: Item)

  /** The outline of `e` rendered at `depth`: one entry per node and per
      equation label, the node itself first. */
  function Outline(e: Expr, depth: nat): (o: seq<Entry>)
    ensures |o| == NodeCount(e) + 2 * EquationCount(e)
    ensures o[0] == Entry(depth, Node(e))
  {
    var self := [Entry(depth, Node(e))];
    match e
    case Number(_) => self
    case Variable(_) => self
    case BinOp(_, l, r) =>
      self + Outline(l, depth + 1) + Outline(r, depth + 1)
    case UnaryOp(_, x) =>
      self + Outline(x, depth + 1)
    case Equation(l, r) =>
      [Entry(depth, Node(e)), Entry(depth + 1, LeftLabel)] + Outline(l, depth + 2)
      + [Entry(depth + 1, RightLabel)] + Outline(r, depth + 2)
  }

  /** Every entry of `o` is deeper than `d`. */
  predicate Below(o: seq<Entry>, d: nat)
  {
    forall i :: 0 <= i < |o| ==> o[i].depth > d
  }

  lemma BelowAppend(a: seq<Entry>, b: seq<Entry>, d: nat)
    requires Below(a, d) && Below(b, d)
    ensures Below(a + b, d)
  {
    forall i | 0 <= i < |a + b|
      ensures (a + b)[i].depth > d
    {
      if i >= |a| {
        assert (a + b)[i] == b[i - |a|];
      }
    }
  }

  /** Everything after a node's own entry lies strictly deeper. */
  lemma {:induction false} OutlineBelow(e: Expr, depth: nat)
    ensures Below(Outline(e, depth)[1..], depth)
  {
    match e
    case Number(_) =>
    case Variable(_) =>
    case BinOp(_, l, r) =>
      OutlineBelow(l, depth + 1);
      OutlineBelow(r, depth + 1);
      ChildBelow(l, depth + 1, depth);
      ChildBelow(r, depth + 1, depth);
      BinaryBelow(e, depth);
    case UnaryOp(_, x) =>
      OutlineBelow(x, depth + 1);
      ChildBelow(x, depth + 1, depth);
      UnaryBelow(e, depth);
    case Equation(l, r) =>
      OutlineBelow(l, depth + 2);
      OutlineBelow(r, depth + 2);
      ChildBelow(l, depth + 2, depth);
      ChildBelow(r, depth + 2, depth);
      EquationBelow(e, depth);
  }

  lemma ChildBelow(e: Expr, c: nat, d: nat)
    requires d < c
    requires Below(Outline(e, c)[1..], c)
    ensures Below(Outline(e, c), d)
  {
    var o := Outline(e, c);
    forall i | 0 <= i < |o|
      ensures o[i].depth > d
    {
      if i > 0 {
        assert o[i] == o[1..][i - 1];
      }
    }
  }

  lemma BinaryBelow(e: Expr, depth: nat)
    requires e.BinOp?
    requires Below(Outline(e.left, depth + 1), depth)
    requires Below(Outline(e.right, depth + 1), depth)
    ensures Below(Outline(e, depth)[1..], depth)
  {
    var a, b := Outline(e.left, depth + 1), Outline(e.right, depth + 1);
    ConsTail(Entry(depth, Node(e)), a, b);
    BelowAppend(a, b, depth);
  }

  lemma PairTail<T>(h: T, x: T, a: seq<T>, y: T, b: seq<T>)
    ensures ([h, x] + a + [y] + b)[1..] == [x] + a + [y] + b
  {
  }

  lemma ConsTail<T>(x: T, a: seq<T>, b: seq<T>)
    ensures ([x] + a + b)[1..] == a + b
  {
  }

  lemma UnaryBelow(e: Expr, depth: nat)
    requires e.UnaryOp?
    requires Below(Outline(e.operand, depth + 1), depth)
    ensures Below(Outline(e, depth)[1..], depth)
  {
    assert Outline(e, depth)[1..] == Outline(e.operand, depth + 1);
  }

  lemma EquationBelow(e: Expr, depth: nat)
    requires e.Equation?
    requires Below(Outline(e.lhs, depth + 2), depth)
    requires Below(Outline(e.rhs, depth + 2), depth)
    ensures Below(Outline(e, depth)[1..], depth)
  {
    var a, b := Outline(e.lhs, depth + 2), Outline(e.rhs, depth + 2);
    var left, right := [Entry(depth + 1, LeftLabel)], [Entry(depth + 1, RightLabel)];
    PairTail(Entry(depth, Node(e)), left[0], a, right[0], b);
    BelowAppend(left, a, depth);
    BelowAppend(left + a, right, depth);
    BelowAppend(left + a + right, b, depth);
  }

  /** How `to_string` words an outline entry. */
  function TreeLine(en: Entry): string
  {
    Indent(en.depth) + match en.item
      case Node(x) => Header(x)
      case LeftLabel => "Left:"
      case RightLabel => "Right:"
  }

  /** How PrintVisitor words an outline entry. */
  function PrintLine(en: Entry): string
  {
    Indent(en.depth) + match en.item
      case Node(x) => PrintHeader(x)
      case LeftLabel => "Left side:"
      case RightLabel => "Right side:"
  }

  /** `lines` is `o` rendered entry by entry. */
  predicate Follows(lines: seq<string>, o: seq<Entry>, render: Entry -> string)
  {
    |lines| == |o| && forall i :: 0 <= i < |o| ==> lines[i] == render(o[i])
  }

  lemma FollowsAppend(a: seq<string>, oa: seq<Entry>, b: seq<string>, ob: seq<Entry>,
                      render: Entry -> string)
    requires Follows(a, oa, render) && Follows(b, ob, render)
    ensures Follows(a + b, oa + ob, render)
  {
    forall i | 0 <= i < |oa + ob|
      ensures (a + b)[i] == render((oa + ob)[i])
    {
      if i >= |oa| {
        assert (a + b)[i] == b[i - |a|];
        assert (oa + ob)[i] == ob[i - |oa|];
      }
    }
  }

  lemma FollowsUnary(h: string, eh: Entry, a: seq<string>, oa: seq<Entry>,
                     render: Entry -> string)
    requires h == render(eh) && Follows(a, oa, render)
    ensures Follows([h] + a, [eh] + oa, render)
  {
    FollowsAppend([h], [eh], a, oa, render);
  }

  lemma FollowsBinary(h: string, eh: Entry, a: seq<string>, oa: seq<Entry>,
                      b: seq<string>, ob: seq<Entry>, render: Entry -> string)
    requires h == render(eh) && Follows(a, oa, render) && Follows(b, ob, render)
    ensures Follows([h] + a + b, [eh] + oa + ob, render)
  {
    FollowsAppend([h], [eh], a, oa, render);
    FollowsAppend([h] + a, [eh] + oa, b, ob, render);
  }

  lemma FollowsEquation(h: string, eh: Entry, l: string, el: Entry, a: seq<string>, oa: seq<Entry>,
                        r: string, er: Entry, b: seq<string>, ob: seq<Entry>,
                        render: Entry -> string)
    requires h == render(eh) && l == render(el) && r == render(er)
    requires Follows(a, oa, render) && Follows(b, ob, render)
    ensures Follows([h, l] + a + [r] + b, [eh, el] + oa + [er] + ob, render)
  {
    assert Follows([h, l], [eh, el], render);
    FollowsAppend([h, l], [eh, el], a, oa, render);
    FollowsAppend([h, l] + a, [eh, el] + oa, [r], [er], render);
    FollowsAppend([h, l] + a + [r], [eh, el] + oa + [er], b, ob, render);
  }

  /** An equation label written at the equation's indentation plus two
      spaces is the same text as the label at one level deeper. */
  lemma LabelShift(level: nat, text: string, spaced: string)
    requires spaced == "  " + text
    ensures Indent(level) + spaced == Indent(level + 1) + text
  {
    IndentSucc(level);
  }

  /** `to_string` renders exactly the outline. */
  lemma {:induction false} LinesFollowOutline(e: Expr, level: nat)
    ensures Follows(Lines(e, level), Outline(e, level), TreeLine)
  {
    match e
    case Number(_) =>
      assert Lines(e, level) == [TreeLine(Entry(level, Node(e)))];
    case Variable(_) =>
      assert Lines(e, level) == [TreeLine(Entry(level, Node(e)))];
    case BinOp(_, l, r) =>
      LinesFollowOutline(l, level + 1);
      LinesFollowOutline(r, level + 1);
      LinesFollowBinary(e, level);
    case UnaryOp(_, x) =>
      LinesFollowOutline(x, level + 1);
      LinesFollowUnary(e, level);
    case Equation(l, r) =>
      LinesFollowOutline(l, level + 2);
      LinesFollowOutline(r, level + 2);
      LinesFollowEquation(e, level);
  }

  lemma LinesFollowBinary(e: Expr, level: nat)
    requires e.BinOp?
    requires Follows(Lines(e.left, level + 1), Outline(e.left, level + 1), TreeLine)
    requires Follows(Lines(e.right, level + 1), Outline(e.right, level + 1), TreeLine)
    ensures Follows(Lines(e, level), Outline(e, level), TreeLine)
  {
    FollowsBinary(Indent(level) + Header(e), Entry(level, Node(e)),
                  Lines(e.left, level + 1), Outline(e.left, level + 1),
                  Lines(e.right, level + 1), Outline(e.right, level + 1), TreeLine);
  }

  lemma LinesFollowUnary(e: Expr, level: nat)
    requires e.UnaryOp?
    requires Follows(Lines(e.operand, level + 1), Outline(e.operand, level + 1), TreeLine)
    ensures Follows(Lines(e, level), Outline(e, level), TreeLine)
  {
    FollowsUnary(Indent(level) + Header(e), Entry(level, Node(e)),
                 Lines(e.operand, level + 1), Outline(e.operand, level + 1), TreeLine);
  }

  lemma LinesFollowEquation(e: Expr, level: nat)
    requires e.Equation?
    requires Follows(Lines(e.lhs, level + 2), Outline(e.lhs, level + 2), TreeLine)
    requires Follows(Lines(e.rhs, level + 2), Outline(e.rhs, level + 2), TreeLine)
    ensures Follows(Lines(e, level), Outline(e, level), TreeLine)
  {
    TreeLabels(level);
    FollowsEquation(Indent(level) + Header(e), Entry(level, Node(e)),
                    Indent(level) + "  Left:", Entry(level + 1, LeftLabel),
                    Lines(e.lhs, level + 2), Outline(e.lhs, level + 2),
                    Indent(level) + "  Right:", Entry(level + 1, RightLabel),
                    Lines(e.rhs, level + 2), Outline(e.rhs, level + 2), TreeLine);
  }

  lemma TreeLabels(level: nat)
    ensures Indent(level) + "  Left:" == TreeLine(Entry(level + 1, LeftLabel))
    ensures Indent(level) + "  Right:" == TreeLine(Entry(level + 1, RightLabel))
  {
    LabelShift(level, "Left:", "  Left:");
    LabelShift(level, "Right:", "  Right:");
  }

  lemma PrintLabels(level: nat)
    ensures Indent(level) + "  Left side:" == PrintLine(Entry(level + 1, LeftLabel))
    ensures Indent(level) + "  Right side:" == PrintLine(Entry(level + 1, RightLabel))
  {
    LabelShift(level, "Left side:", "  Left side:");
    LabelShift(level, "Right side:", "  Right side:");
  }

  /** PrintVisitor prints exactly the outline. */
  lemma {:induction false} PrintLinesFollowOutline(e: Expr, level: nat)
    ensures Follows(PrintLines(e, level), Outline(e, level), PrintLine)
  {
    match e
    case Number(_) =>
      assert PrintLines(e, level) == [PrintLine(Entry(level, Node(e)))];
    case Variable(_) =>
      assert PrintLines(e, level) == [PrintLine(Entry(level, Node(e)))];
    case BinOp(_, l, r) =>
      PrintLinesFollowOutline(l, level + 1);
      PrintLinesFollowOutline(r, level + 1);
      PrintLinesFollowBinary(e, level);
    case UnaryOp(_, x) =>
      PrintLinesFollowOutline(x, level + 1);
      PrintLinesFollowUnary(e, level);
    case Equation(l, r) =>
      PrintLinesFollowOutline(l, level + 2);
      PrintLinesFollowOutline(r, level + 2);
      PrintLinesFollowEquation(e, level);
  }

  lemma PrintLinesFollowBinary(e: Expr, level: nat)
    requires e.BinOp?
    requires Follows(PrintLines(e.left, level + 1), Outline(e.left, level + 1), PrintLine)
    requires Follows(PrintLines(e.right, level + 1), Outline(e.right, level + 1), PrintLine)
    ensures Follows(PrintLines(e, level), Outline(e, level), PrintLine)
  {
    FollowsBinary(Indent(level) + PrintHeader(e), Entry(level, Node(e)),
                  PrintLines(e.left, level + 1), Outline(e.left, level + 1),
                  PrintLines(e.right, level + 1), Outline(e.right, level + 1), PrintLine);
  }

  lemma PrintLinesFollowUnary(e: Expr, level: nat)
    requires e.UnaryOp?
    requires Follows(PrintLines(e.operand, level + 1), Outline(e.operand, level + 1), PrintLine)
    ensures Follows(PrintLines(e, level), Outline(e, level), PrintLine)
  {
    FollowsUnary(Indent(level) + PrintHeader(e), Entry(level, Node(e)),
                 PrintLines(e.operand, level + 1), Outline(e.operand, level + 1), PrintLine);
  }

  lemma PrintLinesFollowEquation(e: Expr, level: nat)
    requires e.Equation?
    requires Follows(PrintLines(e.lhs, level + 2), Outline(e.lhs, level + 2), PrintLine)
    requires Follows(PrintLines(e.rhs, level + 2), Outline(e.rhs, level + 2), PrintLine)
    ensures Follows(PrintLines(e, level), Outline(e, level), PrintLine)
  {
    PrintLabels(level);
    FollowsEquation(Indent(level) + PrintHeader(e), Entry(level, Node(e)),
                    Indent(level) + "  Left side:", Entry(level + 1, LeftLabel),
                    PrintLines(e.lhs, level + 2), Outline(e.lhs, level + 2),
                    Indent(level) + "  Right side:", Entry(level + 1, RightLabel),
                    PrintLines(e.rhs, level + 2), Outline(e.rhs, level + 2), PrintLine);
  }

  /** The two renderers agree line for line: the same number of lines, and
      the i-th line of each shows the same node or label at the same
      depth. */
  lemma RenderersAgree(e: Expr, level: nat)
    ensures |Lines(e, level)| == |PrintLines(e, level)| == |Outline(e, level)|
    ensures forall i :: 0 <= i < |Outline(e, level)| ==>
      && Lines(e, level)[i] == TreeLine(Outline(e, level)[i])
      && PrintLines(e, level)[i] == PrintLine(Outline(e, level)[i])
  {
    LinesFollowOutline(e, level);
    PrintLinesFollowOutline(e, level);
  }

  /** Every printed line after the first is indented at least one level
      deeper than the node that was visited. */
  lemma PrintLinesIndented(e: Expr, level: nat)
    ensures forall i :: 1 <= i < |PrintLines(e, level)| ==>
      StartsWithSpaces(PrintLines(e, level)[i], 2 * (level + 1))
  {
    PrintLinesFollowOutline(e, level);
    OutlineBelow(e, level);
    var o := Outline(e, level);
    forall i | 1 <= i < |o|
      ensures StartsWithSpaces(PrintLine(o[i]), 2 * (level + 1))
    {
      assert o[i] == o[1..][i - 1];
      var p := PrintLine(o[i]);
      assert p[..2 * o[i].depth] == Indent(o[i].depth);
    }
  }
}
