# Algebra AST — a Dafny model

This project models `ast.py` of a small algebra toolkit. That file is the abstract syntax tree which a parser builds for an algebraic expression or equation. It covers three things:

- **The five node kinds.** `NumberNode`, `VariableNode`, `BinaryOpNode`, `UnaryOpNode` and `EquationNode`, each with its indented `to_string(level)` rendering.
- **`PrintVisitor`.** It prints the tree line by line and keeps its depth in a mutable `level` counter.
- **`EvaluateVisitor`.** It evaluates a tree against a variable mapping:
  - operands are evaluated left to right;
  - `+ - * / ^` and unary `+ -` follow Python's `int`/`float` rules;
  - a missing variable, a zero divisor or an unknown operator raises an error;
  - an equation at the root gives the pair of its two sides' values.

Modules:

- `Ast` (`ast.dfy`): the node datatype `Expr` and structural measures of a tree.
- `Text` (`text.dfy`): indentation, newline joining, and the decimal rendering of an int.
- `Render` (`render.dfy`): `to_string`, both as one string (`ToString`, built the way the Python concatenates it) and as a list of lines (`Lines`). Both are proved to be the same text.
- `Printing` (`printing.dfy`): `PrintVisitor`.
  - `PrintLines` passes the depth explicitly.
  - The methods `Visit`, `VisitLeaf`, `VisitBinaryOp`, `VisitUnaryOp` and `VisitEquation` thread a `PrintVisitor(level, output)` record through the tree, changing the counter exactly as the Python does.
- `Traversal` (`traversal.dfy`): the pre-order traversal that both renderers share. Both are proved to be line-by-line images of it, so they agree in order and depth and differ only in wording.
- `Values`, `Numbers` (`values.dfy`, `numbers.dfy`): Python numbers, as `IntV(int) | FloatV(real)`, with the operations on them.
- `Reference` (`reference.dfy`): an independent evaluator over plain reals, with no `int`/`float` distinction.
- `Evaluation` (`evaluation.dfy`): `EvaluateVisitor`. It is proved to compute exactly the reference semantics.
- `Examples` (`examples.dfy`): worked instances.
- `Wrappers` (`wrappers.dfy`): `Option` and `Result`.

A raised exception becomes a `Failure` of `Result`. The failure carries one of these tags:

- `UndefinedVariable(name)`;
- `DivisionByZero`;
- `UnknownOperator(symbol, unary)`;
- `PowDomain`, which is Python's `ZeroDivisionError` from `0 ** -n`.

Printing to stdout becomes appending to the visitor's `output` list.

The two renderers word their lines differently. `PrintVisitor` prints `Binary Operation: +`, `Variable: x`, `Number: 3`, `Unary Operation: -`, `Equation:`, `  Left side:` and `  Right side:` (ast.py:134-164). `to_string` writes `BinaryOp('+'):`, `Variable('x')`, `Number(3)`, `UnaryOp('-'):`, `Equation:`, `  Left:` and `  Right:` (ast.py:36-105). `Examples.RenderSum` and `Examples.PrintSum` state both layouts for `x + y`.

## Model

| member | source | states |
|---|---|---|
| Text.Indent | ast.py:35 | the indentation for `level` is exactly `2*level` characters, all spaces |
| Text.IntToString | ast.py:36 | the decimal text of a number is non-empty, starts with `-` exactly for negative values, and is all digits otherwise |
| Text.IntToStringIsIntText | ast.py:36 | every rendering is canonical: digits after an optional `-`, no leading zero, and never `-0` |
| Text.IntTextUnique | ast.py:36 | every canonical text is the rendering of the integer it reads back as, so with the round trip `str(int)` is fixed exactly: one canonical text per integer |
| Text.IntToStringRoundTrip | ast.py:36 | the rendered value of a `NumberNode` reads back as the same integer, so no two values render alike |
| Render.ToString | ast.py:34-106 | every rendering is non-empty and ends in `)`, because the last line is always a leaf |
| Render.Lines | ast.py:34-106 | a rendering has one line per node plus two label lines per equation, and its first line is the node's header at `2*level` spaces |
| Render.LinesIndented | ast.py:64-106 | every line after a node's header is indented at least one level deeper than the header |
| Render.ToStringIsJoinedLines | ast.py:64-106 | the string built by concatenation with `"\n"` separators is exactly the line list joined with newlines, so the layout has no stray or missing newline |
| Render.ToStringStartsWithHeader | ast.py:34-106 | the rendering starts with the indented header of the node itself |
| Render.Str | ast.py:16-17 | `str(node)` is the level-0 line list joined with newlines, and starts with the node's header |
| Printing.PrintLines | ast.py:132-166 | the printed lines number one per node plus two labels per equation, and the first is the node's line at `2*level` spaces |
| Printing.PrintTree | ast.py:129-166 | a fresh visitor starts its counter at 0, prints exactly the depth-0 rendering of the whole tree, and ends with the counter back at 0 |
| Printing.Visit | ast.py:127-166 | a visit leaves the `level` counter where it found it and appends exactly the node's explicit-depth rendering to the output |
| Printing.VisitLeaf | ast.py:132-138 | a number or variable prints one line and leaves the counter unchanged |
| Printing.VisitBinaryOp | ast.py:140-146 | a binary operation prints its line, then both operands one level deeper, and restores the counter |
| Printing.VisitUnaryOp | ast.py:148-153 | a unary operation prints its line, then the operand one level deeper, and restores the counter |
| Printing.VisitEquation | ast.py:155-166 | an equation prints its line, the labels one level deeper and the sides two levels deeper; the counter, raised three times and lowered by 1 and then 2, ends where it started |
| Traversal.LinesFollowOutline | ast.py:34-106 | the `to_string` line i shows entry i of the shared pre-order outline at that entry's depth |
| Traversal.PrintLinesFollowOutline | ast.py:127-166 | the `PrintVisitor` line i shows entry i of the same outline at that entry's depth |
| Traversal.RenderersAgree | ast.py:34-166 | the two renderers produce the same number of lines, and line i of each shows the same node or label at the same depth |
| Traversal.OutlineBelow | ast.py:64-106 | in the traversal every entry after a node lies strictly deeper than that node |
| Traversal.PrintLinesIndented | ast.py:140-166 | every printed line after the first is indented at least one level deeper than the visited node |
| Numbers.Add | ast.py:187-188 | `+` is real addition, and the result is an int exactly when both operands are ints |
| Numbers.Sub | ast.py:189-190 | `-` is real subtraction, and the result is an int exactly when both operands are ints |
| Numbers.Mul | ast.py:191-192 | `*` is real multiplication, and the result is an int exactly when both operands are ints |
| Numbers.Div | ast.py:193-196 | division fails exactly for a zero divisor (`0` or `0.0`) with DivisionByZero; otherwise the result is a float whose product with the divisor is the dividend |
| Numbers.Neg | ast.py:206-207 | negation negates the value and keeps int-ness |
| Numbers.Pow | ast.py:197-198 | `**` has the value and error of the real power; the result is an int exactly for an int base and a non-negative int exponent |
| Numbers.NegativePowerIsReciprocal | ast.py:197-198 | a non-zero base to a negative int exponent succeeds, with the reciprocal of the positive power |
| Evaluation.ApplyBinary | ast.py:187-200 | the operator step of `visit_binary_op` agrees with the real operator, errors included (an unknown symbol gives UnknownOperator), and gives an int exactly for `+ - *` on ints or `^` on ints with a non-negative exponent |
| Evaluation.ApplyUnary | ast.py:202-209 | unary `+` and `-` agree with the real operation and keep int-ness; any other symbol is an unknown unary operator |
| Evaluation.Eval | ast.py:169-209 | success means every variable of the tree is bound; every failure is an error some node of the tree can raise (an unbound variable of the tree, a `/` or `^` in it, an illegal operator in it) |
| Evaluation.Evaluate | ast.py:211-215 | the root yields a pair exactly when it is an equation; a failure comes from one of the sides, or from the tree itself |
| Evaluation.EvaluateBySides | ast.py:211-215 | an equation root succeeds exactly when both sides evaluate, and then gives the left value and the right value in that order; any other root gives its own value |
| Evaluation.EvalMatchesReference | ast.py:183-209 | evaluation with Python's int/float distinction produces the same numbers and the same errors as the plain real-number evaluator |
| Evaluation.LeftErrorWins | ast.py:184-185 | a failing left operand decides the result of a binary operation, whatever the right operand would do |
| Evaluation.EquationLeftErrorWins | ast.py:213-214 | a failing left side decides the result of an equation |
| Evaluation.RightErrorNext | ast.py:184-200 | when the left operand succeeds and the right one fails, the right operand's error is the result, so no operator error (zero divisor, unknown operator, bad power) hides an operand error |
| Evaluation.EquationRightErrorNext | ast.py:213-215 | when an equation's left side succeeds and its right side fails, the right side's error is the result |
| Evaluation.DivisionByZeroAfterOperands | ast.py:184-196 | once both operands succeed, the division fails with DivisionByZero exactly when the divisor's value is zero |
| Evaluation.PlainFailsAtFirstUnbound | ast.py:177-192 | a tree with only `+ - *` and unary operators fails exactly when a variable is unbound, and then names the leftmost unbound variable |
| Evaluation.EvalDependsOnlyOnVariables | ast.py:177-181 | environments that agree on the tree's variables give the same outcome |
| Evaluation.EmptyEnvRejectsVariables | ast.py:171-172 | with the default empty mapping, every tree that mentions a variable fails |
| Evaluation.IntegerClosure | ast.py:183-198 | with no `/`, no negative exponent and int bindings, a successful result is an int |
| Evaluation.DivisionGivesFloat | ast.py:193-196 | a successful division is always a float, even when the division is exact |
| Evaluation.WellFormedErrors | ast.py:183-209 | a tree with legal operators and no nested equation fails only with an unbound variable, a zero divisor or a bad power |
| Examples.PowerShapes | ast.py:197-198 | `2^(3^2)` is 512 and `(2^3)^2` is 64 |
| Examples.ProductShapes | ast.py:187-192 | `2+3*4` is 14 and `(2+3)*4` is 20 |
| Examples.NegatedPower | ast.py:202-207 | `-(2^2)` is -4 |
| Examples.DivisionIsTrue | ast.py:193-196 | `7/2` is the float 3.5, `4/2` is the float 2.0, and `7*2` is the int 14 |
| Examples.NegativeExponents | ast.py:197-198 | `2^-1` is the float 0.5, and `0^-1` fails |
| Examples.Errors | ast.py:177-200 | an unbound `x`, `5/0` and an unknown `%` each give their error tag |
| Examples.OperandErrorFirst | ast.py:184-196 | `x/0` with `x` unbound reports the variable and not the division |
| Examples.EquationPair | ast.py:211-215 | `a+b = 7` under `a=3, b=4` gives the pair `(7, 7)` |
| Examples.RenderSum | ast.py:64-69 | the `to_string` lines of `x + y` |
| Examples.PrintSum | ast.py:140-146 | the `PrintVisitor` lines of `x + y` |

## Left out

- Base classes: the `ASTNode` base class's generic `to_string` and its `accept` returning `None`, and the no-op methods of `ASTVisitor`, are not modelled. `Expr` is a closed datatype, so no node of another class exists.
- Visitor dispatch: `accept`'s double dispatch is a `match` on the node kind.
- Number construction: `NumberNode`'s `int(value)` conversion happens at construction. A `Number` holds an `int` already; converting text or floats is the tree builder's business, and the builder is not part of this model.
- Floats: a float is an exact real. Rounding, `nan` and float formatting are not modelled. An `IntV` is unbounded, like a Python `int`. Python's float range is not modelled either, so some Python errors become successes here: Python raises `OverflowError` when `int / int` falls outside the float range (ast.py:196, e.g. `10**400 / 3`), when a float `**` overflows (ast.py:198, e.g. `2.0 ** 10000`), and when an int too large for a float meets a float, or must become one. That happens in `+ - *` with a float (ast.py:188-192), in `/` with a float or an int divisor (ast.py:196, e.g. `10**400 / 2.0`), and in `**` (ast.py:198, e.g. `(10**400) ** -1`, `(10**400) ** 2.0`, `2.0 ** 10**400`). Each of these is a success in the model. The zero tests are also decided on exact values, so their outcome can flip either way:
  - an exact zero that Python's floats miss: `1 / (1/10 + 2/10 - 3/10)` is `DivisionByZero` in the model, and `(1/10 + 2/10 - 3/10) ^ -1` is `PowDomain`. Python computes a large float for both, since `0.1 + 0.2 - 0.3` is about `5.6e-17` (ast.py:194, 198);
  - a float that Python rounds to zero: `2 ^ -1100` underflows to `0.0` in Python. So `1 / 2 ^ -1100` raises "Division by zero" (ast.py:194-195), and `(2 ^ -1100) ^ -1` raises `ZeroDivisionError` (ast.py:198). Both succeed in the model.
- Numbers.Pow: a float exponent with a fractional part yields `NonIntegralExponent`. Python does not fail there. It returns a float for a positive base, a complex number for a negative base, and `0.0` for base zero with a positive exponent (`0 ** 0.5`). Base zero with a negative fractional exponent (`0 ** -0.5`) raises `ZeroDivisionError`, which the model also reports as `NonIntegralExponent`, not `PowDomain`. Real roots are outside this model.
- Evaluation.Eval: an equation below the root yields `NestedEquation` at once, without evaluating its sides. Python evaluates the nested equation's sides first (ast.py:213-214). So an error inside them is raised in Python where the model reports `NestedEquation`: with `x` unbound, Python reports the undefined `x` for `(x = 1) + 1`. When both sides succeed, Python carries the pair as a tuple (ast.py:215) into the enclosing node:
  - a tuple `+` a tuple concatenates (ast.py:188);
  - a tuple `*` an int, or an int `*` a tuple, repeats it (ast.py:192);
  - unary `+` returns it unchanged (ast.py:204-205);
  - an equation whose side is an equation gives a nested tuple (ast.py:215);
  - an unknown binary or unary operator still raises its own `ValueError`, because the operands are evaluated before the operator is checked (ast.py:199-200, 208-209);
  - a `/` whose divisor is `0` or `0.0` raises `ValueError("Division by zero")` even when the dividend is a tuple, because the zero test comes before the division (ast.py:194-195);
  - a nested equation on the left does not stop Python from evaluating the right operand (ast.py:185) or the root's right side (ast.py:214). So a failing right operand or right side raises its own error: with `y` unbound, `(1 = 1) + y` and the root `(1 = 1) = y` both report the undefined `y`;
  - every other mix raises `TypeError`. This covers `+` between a tuple and a number, `-` with a tuple, `*` between a tuple and a float or another tuple, `/` with a non-zero divisor and a tuple dividend, `/` with a tuple divisor, `^` with a tuple, and unary `-` on a tuple.

  None of these outcomes is modelled: the model reports `NestedEquation` in each case.
- Environment values: variables are bound to numbers only. Python accepts any value in the mapping.
- I/O: printing to stdout is appending to the visitor's `output` list.
- Text.IntToString: any `int` is rendered. CPython 3.11 and later limit `str` of an int to 4300 digits and raise `ValueError` beyond it, so `to_string` (ast.py:36) and PrintVisitor (ast.py:134) fail for a `Number` of `10**5000` there. The limit is interpreter configuration, not part of this program, and is not modelled.
- Error messages: errors carry the variable name or operator symbol but not the message text. The exception classes are not modelled either (`ValueError`, or `ZeroDivisionError` for `PowDomain`).
- Recursion depth: Python's limit on recursion (`RecursionError` on very deep trees) is not modelled.
- Other code: the lexer, the parser, the tree builder and the test scripts are not part of this model.
