/** String helpers shared by the two renderers: indentation, joining lines
    with newlines, and Python's decimal rendering of an int. */
module Text {

  /** Python's `"  " * level`. */
  function Indent(level: nat): (s: string)
    ensures |s| == 2 * level
    ensures forall j :: 0 <= j < |s| ==> s[j] == ' '
  {
    if level == 0 then "" else "  " + Indent(level - 1)
  }

  /** The first `n` characters of `line` exist and are spaces. */
  predicate StartsWithSpaces(line: string, n: nat)
  {
    n <= |line| && forall j :: 0 <= j < n ==> line[j] == ' '
  }

  /** Every line of `lines` starts with at least `n` spaces. */
  predicate AllIndented(lines: seq<string>, n: nat)
  {
    forall i :: 0 <= i < |lines| ==> StartsWithSpaces(lines[i], n)
  }

  /** A line built by indenting `text` by `level` starts with `2*level`
      spaces. */
  lemma IndentedLine(level: nat, text: string)
    ensures StartsWithSpaces(Indent(level) + text, 2 * level)
  {
  }

  /** A list whose head is indented by `n` and whose tail by at least `n`
      is indented by `n`. */
  lemma IndentedCons(lines: seq<string>, n: nat, m: nat)
    requires |lines| > 0 && n <= m
    requires StartsWithSpaces(lines[0], n)
    requires AllIndented(lines[1..], m)
    ensures AllIndented(lines, n)
  {
    forall i | 0 <= i < |lines|
      ensures StartsWithSpaces(lines[i], n)
    {
      if i > 0 {
        assert lines[i] == lines[1..][i - 1];
      }
    }
  }

  lemma IndentedAppend(a: seq<string>, b: seq<string>, n: nat)
    requires AllIndented(a, n) && AllIndented(b, n)
    ensures AllIndented(a + b, n)
  {
    forall i | 0 <= i < |a + b|
      ensures StartsWithSpaces((a + b)[i], n)
    {
      if i >= |a| {
        assert (a + b)[i] == b[i - |a|];
      }
    }
  }

  /** One more level of indentation is two more spaces at the front. */
  lemma IndentSucc(level: nat)
    ensures Indent(level + 1) == Indent(level) + "  "
  {
    var a, b := Indent(level + 1), Indent(level) + "  ";
    assert |a| == |b|;
    forall j | 0 <= j < |a|
      ensures a[j] == b[j]
    {
    }
  }

  /** Python's `"\n".join(lines)`. */
  function Join(lines: seq<string>): string
  {
    if |lines| == 0 then ""
    else if |lines| == 1 then lines[0]
    else lines[0] + "\n" + Join(lines[1..])
  }

  /** Joining a concatenation puts exactly one newline between the parts. */
  lemma {:induction false} JoinAppend(a: seq<string>, b: seq<string>)
    requires |a| > 0 && |b| > 0
    ensures Join(a + b) == Join(a) + "\n" + Join(b)
  {
    if |a| == 1 {
      assert (a + b)[1..] == b;
    } else {
      assert (a + b)[1..] == a[1..] + b;
      JoinAppend(a[1..], b);
    }
  }

  /** The joined text begins with the first line. */
  lemma JoinStartsWithFirst(lines: seq<string>)
    requires |lines| > 0
    ensures lines[0] <= Join(lines)
  {
  }

  // ---- decimal rendering of integers (Python's `str(int)`) ----

  predicate IsDigit(c: char)
  {
    '0' <= c <= '9'
  }

  function DigitChar(d: nat): (c: char)
    requires d < 10
    ensures IsDigit(c)
    ensures c as int - '0' as int == d
  {
    ('0' as int + d) as char
  }

  /** Decimal digits of `n`, most significant first, no leading zero. */
  function NatToString(n: nat): (s: string)
    ensures |s| >= 1
    ensures forall j :: 0 <= j < |s| ==> IsDigit(s[j])
    ensures |s| > 1 ==> s[0] != '0'
  {
    if n < 10 then [DigitChar(n)] else NatToString(n / 10) + [DigitChar(n % 10)]
  }

  /** `str(v)` for a Python int: a minus sign before the digits of |v|,
      with no leading zero. */
  function IntToString(v: int): (s: string)
    ensures |s| >= 1
    ensures v < 0 <==> s[0] == '-'
    ensures v >= 0 ==> forall j :: 0 <= j < |s| ==> IsDigit(s[j])
  {
    if v < 0 then "-" + NatToString(-v) else NatToString(v)
  }

  /** Reads back a string of decimal digits. */
  function ParseNat(s: string): nat
    requires forall j :: 0 <= j < |s| ==> IsDigit(s[j])
  {
    if |s| == 0 then 0
    else
      assert IsDigit(s[|s| - 1]);
      10 * ParseNat(s[..|s| - 1]) + (s[|s| - 1] as int - '0' as int) as nat
  }

  /** Reads back an optionally signed decimal string. */
  function ParseInt(s: string): int
    requires |s| >= 1
    requires s[0] == '-' || IsDigit(s[0])
    requires forall j :: 1 <= j < |s| ==> IsDigit(s[j])
  {
    if s[0] == '-' then -(ParseNat(s[1..]) as int) else ParseNat(s)
  }

  lemma {:induction false} ParseNatToString(n: nat)
    ensures ParseNat(NatToString(n)) == n
  {
    if n >= 10 {
      var s := NatToString(n);
      assert s[..|s| - 1] == NatToString(n / 10);
      ParseNatToString(n / 10);
    }
  }

  /** The rendering of a Number's value is lossless: distinct values
      render differently. */
  lemma IntToStringRoundTrip(v: int)
    ensures ParseInt(IntToString(v)) == v
  {
    if v < 0 {
      assert IntToString(v)[1..] == NatToString(-v);
      ParseNatToString(-v);
    } else {
      ParseNatToString(v);
    }
  }

  /** Canonical decimal text of a natural number: digits only, and no
      leading zero unless the number is zero itself. */
  predicate IsNatText(t: string)
  {
    && |t| >= 1
    && (forall j :: 0 <= j < |t| ==> IsDigit(t[j]))
    && (|t| > 1 ==> t[0] != '0')
  }

  /** Canonical decimal text of an integer: a natural's text, or a minus
      sign before the text of a positive natural (so never `-0`). */
  predicate IsIntText(s: string)
  {
    || IsNatText(s)
    || (|s| >= 2 && s[0] == '-' && s[1] != '0' && IsNatText(s[1..]))
  }

  /** The leading digit of a number's text is `0` only for zero. */
  lemma {:induction false} NatToStringLead(n: nat)
    ensures NatToString(n)[0] == '0' <==> n == 0
  {
    if n >= 10 {
      NatToStringLead(n / 10);
    }
  }

  /** Every rendering is canonical: no leading zero and no `-0`. */
  lemma IntToStringIsIntText(v: int)
    ensures IsIntText(IntToString(v))
  {
    var s := IntToString(v);
    if v < 0 {
      assert s[1..] == NatToString(-v);
      NatToStringLead(-v);
    }
  }

  /** Digits whose first one is not `0` denote a positive number. */
  lemma {:induction false} ParseNatPositive(t: string)
    requires |t| >= 1 && t[0] != '0'
    requires forall j :: 0 <= j < |t| ==> IsDigit(t[j])
    ensures ParseNat(t) >= 1
  {
    if |t| > 1 {
      ParseNatPositive(t[..|t| - 1]);
    }
  }

  /** A canonical natural text is the rendering of the number it denotes. */
  lemma {:induction false} NatTextUnique(t: string)
    requires IsNatText(t)
    ensures NatToString(ParseNat(t)) == t
  {
    if |t| > 1 {
      var p := t[..|t| - 1];
      assert IsNatText(p);
      ParseNatPositive(p);
      NatTextUnique(p);
      var n := ParseNat(t);
      assert n / 10 == ParseNat(p) && n % 10 == t[|t| - 1] as int - '0' as int;
      assert DigitChar(n % 10) == t[|t| - 1];
      assert t == p + [t[|t| - 1]];
    } else {
      assert ParseNat(t) == ParseNat(t[..0]) * 10 + (t[0] as int - '0' as int);
      assert DigitChar(ParseNat(t)) == t[0];
    }
  }

  /** `str(int)` is fixed exactly: every canonical text is the rendering
      of the integer it denotes, and no other text is a rendering. */
  lemma IntTextUnique(s: string)
    requires IsIntText(s)
    ensures |s| >= 1 && (s[0] == '-' || IsDigit(s[0]))
    ensures forall j :: 1 <= j < |s| ==> IsDigit(s[j])
    ensures IntToString(ParseInt(s)) == s
  {
    if IsNatText(s) {
      NatTextUnique(s);
    } else {
      var t := s[1..];
      assert forall j :: 1 <= j < |s| ==> s[j] == t[j - 1];
      ParseNatPositive(t);
      NatTextUnique(t);
      assert s == "-" + t;
    }
  }
}
