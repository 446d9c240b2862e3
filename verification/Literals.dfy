/** What the numbers and names in an expression stand for: literals in their three bases, the values of
    variables, and the plain `$name` form of the entry point. */
module Literals {
  import opened CNumbers
  import opened ConfEval
  import opened ConfEvalRoundTrip
  import opened Wrappers

  // --- Literals ---

  predicate Digits(ds: string, base: nat) {
    forall i :: 0 <= i < |ds| ==> DigitValue(ds[i]) < base
  }

  function Power(base: nat, n: nat): nat {
    if n == 0 then 1 else base * Power(base, n - 1)
  }

  /** The value of a row of digits, by their places. */
  function Positional(ds: string, base: nat): nat
    requires Digits(ds, base)
  {
    if ds == "" then 0 else DigitValue(ds[0]) * Power(base, |ds| - 1) + Positional(ds[1..], base)
  }

  /** The digits are the usual ones, and nothing else is a digit in any of the bases. */
  lemma DigitsAre(k: nat, c: char)
    requires k < 16
    ensures DigitValue("0123456789abcdef"[k]) == k && DigitValue("0123456789ABCDEF"[k]) == k
    ensures DigitValue(c) < 16 <==> c in "0123456789abcdefABCDEF"
  {
  }

  /** A number's parts: blanks, a sign, the prefix that tells the base, and the digits. */
  datatype Literal = Literal(blank: string, sign: string, prefix: string, ds: string) {
    function Text(): string {
      blank + (sign + (prefix + ds))
    }

    function Base(): nat {
      if prefix == "0" then 8 else if prefix == "" then 10 else 16
    }

    predicate Valid() {
      (forall i :: 0 <= i < |blank| ==> blank[i] in " \t\n\r" || blank[i] as int == 11 || blank[i] as int == 12)
      && sign in ["", "-", "+"] && prefix in ["", "0", "0x", "0X"]
      && Digits(ds, Base())
      && (prefix != "0" ==> ds != "")
      && (prefix == "" ==> ds[0] != '0')
    }

    function Value(): int
      requires Valid()
    {
      if sign == "-" then -(Positional(ds, Base()) as int) else Positional(ds, Base())
    }
  }

  lemma {:induction false} RunAt(s: string, i: nat, ds: string, base: nat, acc: nat)
    requires i + |ds| <= |s| && s[i..i + |ds|] == ds && Digits(ds, base) && base <= 16
    requires !IsDigitAt(s, i + |ds|, base)
    ensures DigitRun(s, i, base, acc) == (acc * Power(base, |ds|) + Positional(ds, base), i + |ds|)
    decreases |ds|
  {
    if ds != "" {
      assert s[i] == ds[0] && s[i + 1..i + 1 + |ds[1..]|] == ds[1..];
      RunAt(s, i + 1, ds[1..], base, acc * base + DigitValue(ds[0]));
      hide DigitRun, Positional;
      Horner(acc, base, DigitValue(ds[0]), Power(base, |ds| - 1));
      assert Positional(ds, base) == DigitValue(ds[0]) * Power(base, |ds| - 1) + Positional(ds[1..], base) by {
        PositionalStep(ds, base);
      }
    }
  }

  lemma PositionalStep(ds: string, base: nat)
    requires ds != "" && Digits(ds, base)
    ensures Positional(ds, base) == DigitValue(ds[0]) * Power(base, |ds| - 1) + Positional(ds[1..], base)
  {
  }

  lemma Horner(acc: nat, base: nat, d: nat, p: nat)
    ensures (acc * base + d) * p == acc * (base * p) + d * p
  {
  }

  lemma {:induction false} BlanksAt(s: string, i: nat, blank: string)
    requires i + |blank| <= |s| && s[i..i + |blank|] == blank
    requires forall k :: 0 <= k < |blank| ==> IsSpace(blank[k])
    requires i + |blank| < |s| ==> !IsSpace(s[i + |blank|])
    ensures SkipSpace(s, i) == i + |blank|
    decreases |blank|
  {
    if blank != "" {
      assert s[i] == blank[0] && s[i + 1..i + 1 + |blank[1..]|] == blank[1..];
      BlanksAt(s, i + 1, blank[1..]);
    }
  }

  /** Where the parts of the text stand. */
  lemma PartsAt(l: Literal)
    requires l.Valid()
    ensures var s, j := l.Text(), |l.blank|;
            var k, start := j + |l.sign|, j + |l.sign| + |l.prefix|;
            |s| == start + |l.ds| && s[..j] == l.blank && s[j..k] == l.sign && s[k..start] == l.prefix
            && s[start..] == l.ds
  {
    var rest := l.sign + (l.prefix + l.ds);
    assert l.Text()[|l.blank|..] == rest;
    assert rest[|l.sign|..] == l.prefix + l.ds;
  }

  /** A literal's text converts to its value, whole, and fails exactly when that does not fit. */
  lemma LiteralValue(l: Literal)
    requires l.Valid()
    ensures StrToLL(l.Text(), 0) == Conversion(l.Value(), |l.Text()|, !InLongLong(l.Value()))
    ensures SafeStrToLL(l.Text()) == if InLongLong(l.Value()) then Ok(ToLong(l.Value())) else Err(-ERANGE)
  {
    hide SkipSpace, Literal.Text, DigitRun, Positional, StrToLL, IsDigitAt, IsSpace;
    var s, j := l.Text(), |l.blank|;
    FirstDigit(l);
    PartsAt(l);
    SpacesAt(l);
    RunOf(l);
    Converts(s, j, j + |l.sign|, l.Base(), Positional(l.ds, l.Base()));
  }

  lemma SpacesAt(l: Literal)
    requires l.Valid()
    ensures SkipSpace(l.Text(), 0) == |l.blank|
  {
    hide SkipSpace, Literal.Text, DigitRun, Positional;
    FirstDigit(l);
    PartsAt(l);
    var s := l.Text();
    assert s[0..0 + |l.blank|] == l.blank;
    BlanksAt(s, 0, l.blank);
  }

  /** The digits, with the zero that an octal literal starts with. */
  lemma RunOf(l: Literal)
    requires l.Valid()
    ensures var s, k := l.Text(), |l.blank| + |l.sign|;
            k <= |s| && (l.Base() == 16 ==> k + 2 <= |s|)
            && DigitRun(s, if l.Base() == 16 then k + 2 else k, l.Base(), 0) == (Positional(l.ds, l.Base()), |s|)
  {
    hide Literal.Text, Positional, StrToLL;
    PartsAt(l);
    var s, k := l.Text(), |l.blank| + |l.sign|;
    var start := k + |l.prefix|;
    assert s[start..start + |l.ds|] == l.ds;
    RunAt(s, start, l.ds, l.Base(), 0);
    if l.prefix == "0" {
      assert s[k] == s[k..start][0] == '0';
      assert DigitRun(s, k, 8, 0) == DigitRun(s, k + 1, 8, 0);
    }
  }

  /** The conversion, given what it finds on its way. */
  lemma Converts(s: string, j: nat, k: nat, base: nat, n: nat)
    requires SkipSpace(s, 0) == j < |s| && k < |s| && base in [8, 10, 16] && (base == 16 ==> k + 2 <= |s|)
    requires k == if s[j] == '-' || s[j] == '+' then j + 1 else j
    requires s[k] == '0' <==> base != 10
    requires base == 16 <==>
               s[k] == '0' && k + 1 < |s| && (s[k + 1] == 'x' || s[k + 1] == 'X') && IsDigitAt(s, k + 2, 16)
    requires DigitRun(s, if base == 16 then k + 2 else k, base, 0) == (n, |s|)
    requires base == 16 ==> k + 2 < |s|
    ensures var v := if s[j] == '-' then -(n as int) else n;
            StrToLL(s, 0) == Conversion(v, |s|, !InLongLong(v))
            && SafeStrToLL(s) == if InLongLong(v) then Ok(ToLong(v)) else Err(-ERANGE)
  {
    hide SkipSpace, DigitRun, IsDigitAt, IsSpace, ToLong;
  }

  /** What the converter sees at the sign and at the prefix. */
  lemma FirstDigit(l: Literal)
    requires l.Valid()
    ensures var s, j := l.Text(), |l.blank|;
            var k := j + |l.sign|;
            j < |s| && k < |s| && !IsSpace(s[j]) && DigitValue(s[k]) < 10
            && ((s[j] == '-' || s[j] == '+') <==> l.sign != "") && (s[j] == '-' <==> l.sign == "-")
            && (s[k] == '0' <==> l.prefix != "")
            && (l.prefix in ["0x", "0X"] <==>
                  s[k] == '0' && k + 1 < |s| && (s[k + 1] == 'x' || s[k + 1] == 'X') && IsDigitAt(s, k + 2, 16))
  {
    PartsAt(l);
    var s, j := l.Text(), |l.blank|;
    var k, start := j + |l.sign|, j + |l.sign| + |l.prefix|;
    hide Literal.Text;
    assert l.sign != "" ==> s[j] == s[j..k][0] == l.sign[0];
    assert l.prefix != "" ==> s[k] == s[k..start][0] == l.prefix[0];
    assert |l.prefix| == 2 ==> s[k + 1] == s[k..start][1] == l.prefix[1];
    assert l.ds != "" ==> s[start] == s[start..][0] == l.ds[0];
  }

  /** And no other text converts. */
  lemma LiteralOnly(s: string) returns (l: Literal)
    requires SafeStrToLL(s).Ok?
    ensures l.Valid() && l.Text() == s
  {
    hide *;
    var j, k, start, base := Parsed(s);
    SkippedAre(s, 0);
    RunIs(s, if base == 16 then start else k, base, 0);
    l := Literal(s[..j], s[j..k], s[k..start], s[start..]);
    Pieces(s, j, k, start);
    Assembled(s, j, k, start, base, l);
  }

  /** How the text of a number is taken apart. */
  lemma Parsed(s: string) returns (j: nat, k: nat, start: nat, base: nat)
    requires SafeStrToLL(s).Ok?
    ensures SkipSpace(s, 0) == j <= k < |s| && start <= |s|
    ensures k == j || (k == j + 1 && (s[j] == '-' || s[j] == '+'))
    ensures (base == 16 && start == k + 2 < |s| && s[k] == '0' && (s[k + 1] == 'x' || s[k + 1] == 'X'))
            || (base == 8 && start == k + 1 && s[k] == '0') || (base == 10 && start == k && s[k] != '0')
    ensures DigitRun(s, if base == 16 then start else k, base, 0).1 == |s|
  {
    hide SkipSpace, DigitRun, ToLong, IsSpace;
    j := SkipSpace(s, 0);
    k := if j < |s| && (s[j] == '-' || s[j] == '+') then j + 1 else j;
    var zero := k < |s| && s[k] == '0';
    var hex := zero && k + 1 < |s| && (s[k + 1] == 'x' || s[k + 1] == 'X') && IsDigitAt(s, k + 2, 16);
    start := if hex then k + 2 else if zero then k + 1 else k;
    base := if hex then 16 else if zero then 8 else 10;
  }

  lemma Assembled(s: string, j: nat, k: nat, start: nat, base: nat, l: Literal)
    requires j <= k < |s| && k <= start <= |s| && l == Literal(s[..j], s[j..k], s[k..start], s[start..])
    requires k == j || (k == j + 1 && (s[j] == '-' || s[j] == '+'))
    requires (base == 16 && start == k + 2 < |s| && s[k] == '0' && (s[k + 1] == 'x' || s[k + 1] == 'X'))
             || (base == 8 && start == k + 1 && s[k] == '0') || (base == 10 && start == k && s[k] != '0')
    requires forall p :: 0 <= p < j ==> IsSpace(s[p])
    requires forall p :: start <= p < |s| ==> DigitValue(s[p]) < base
    requires s[..j] + (s[j..k] + (s[k..start] + s[start..])) == s
    ensures l.Valid() && l.Text() == s
  {
    hide DigitValue;
    assert l.sign == "" || l.sign == "-" || l.sign == "+" by {
      if k == j + 1 { assert s[j..k] == [s[j]]; }
    }
    assert l.prefix == if base == 16 then [s[k], s[k + 1]] else if base == 8 then [s[k]] else "";
    assert l.Base() == base;
  }

  lemma Pieces(s: string, j: nat, k: nat, start: nat)
    requires j <= k <= start <= |s|
    ensures s[..j] + (s[j..k] + (s[k..start] + s[start..])) == s
  {
  }

  lemma {:induction false} SkippedAre(s: string, i: nat)
    requires i <= |s|
    ensures forall p :: i <= p < SkipSpace(s, i) ==> IsSpace(s[p])
    decreases |s| - i
  {
    if i < |s| && IsSpace(s[i]) { SkippedAre(s, i + 1); }
  }

  lemma {:induction false} RunIs(s: string, i: nat, base: nat, acc: nat)
    requires i <= |s| && base <= 16
    ensures forall p :: i <= p < DigitRun(s, i, base, acc).1 ==> DigitValue(s[p]) < base
    decreases |s| - i
  {
    if IsDigitAt(s, i, base) { RunIs(s, i + 1, base, acc * base + DigitValue(s[i])); }
  }

  // --- Names ---

  /** A variable alone stands for what the callback gives: a number, the number a string spells, 0 for no node,
      or the callback's error; any other node is an error. */
  lemma VariableAlone(name: string, fcn: Expand)
    requires forall i :: 0 <= i < |name| ==> IsNameChar(name[i])
    ensures match fcn(name)
            case Expanded(Integer(v)) => Eval("$" + name, fcn) == Ok(Integer(v))
            case Expanded(Integer64(v)) => Stands(Eval("$" + name, fcn), v)
            case Expanded(Str(text)) =>
              (forall l: Literal :: l.Valid() && l.Text() == text && InLongLong(l.Value()) ==>
                 Eval("$" + name, fcn) == Ok(Integer(ToLong(l.Value()))))
              && (!SafeStrToLL(text).Ok? ==> Eval("$" + name, fcn).Err?)
            case Expanded(OtherNode) => Eval("$" + name, fcn) == Err(-EINVAL)
            case NoNode => Eval("$" + name, fcn) == Ok(Integer(0))
            case Failed(code) => Eval("$" + name, fcn) == Err(code)
  {
    var e := Single("", Var(name), "");
    assert Render(e) == "$" + name;
    RoundTrip(e, fcn);
    hide Eval, StrToLL, Render;
    match fcn(name)
    case Expanded(Str(text)) =>
      forall l: Literal | l.Valid() && l.Text() == text && InLongLong(l.Value())
        ensures SafeStrToLL(text) == Ok(ToLong(l.Value()))
      {
        LiteralValue(l);
      }
    case _ =>
  }

  /** The node for a value: 32 bits wide if it fits. */
  predicate Stands(r: Result<Config>, v: LongLong) {
    r == if -0x8000_0000 <= v <= 0x7FFF_FFFF then Ok(Integer(v)) else Ok(Integer64(v))
  }

  /** Whatever the text, a result is a number, and a 64-bit node only when it does not fit 32 bits. */
  lemma ResultIsNumber(s: string, fcn: Expand)
    ensures Eval(s, fcn).Ok? ==>
              exists v: LongLong :: Stands(Eval(s, fcn), v)
  {
    hide AtLeft;
    var r := AtLeft(s, 0, fcn);
    if r.Ok? { assert Stands(Eval(s, fcn), r.value); }
  }

  // --- The entry point ---

  /** A plain name is looked up as it is, a text without a dollar is an error. */
  lemma EntryCases(name: string, fcn: Expand)
    ensures name != "" && name[0] == '[' ==>
              match EvaluateString("$" + name, fcn)
              case Ok(c) => c.Some? && Eval("$" + name, fcn) == Ok(c.value)
              case Err(code) => Eval("$" + name, fcn) == Err(code)
              case Undefined => Eval("$" + name, fcn) == Undefined
    ensures name == "" || name[0] != '[' ==>
              match fcn(name)
              case Expanded(c) => EvaluateString("$" + name, fcn) == Ok(Some(c))
              case NoNode => EvaluateString("$" + name, fcn) == Ok(None)
              case Failed(code) => EvaluateString("$" + name, fcn) == Err(code)
    ensures name == "" || name[0] != '$' ==> EvaluateString(name, fcn) == Err(-EINVAL)
  {
    assert ("$" + name)[1..] == name;
    hide Eval;
  }

  // --- Texts that are no expressions ---

  /** Nothing at all, an operand and then something that is no operator, an operator and then nothing, and more
      after the second operand: all are errors. */
  lemma Rejected(s: string, fcn: Expand, i: nat, j: nat, v: LongLong)
    requires i < |s| && i == SkipBlanks(s, 0) && Operand(s, i, fcn) == Ok((v, j))
    ensures SkipBlanks(s, j) < |s| && s[SkipBlanks(s, j)] !in "+-*/%|&" ==> Eval(s, fcn) == Err(-EINVAL)
    ensures SkipBlanks(s, j) < |s| && SkipBlanks(s, SkipBlanks(s, j) + 1) == |s| ==> Eval(s, fcn) == Err(-EINVAL)
    ensures SkipBlanks(s, j) < |s| ==>
              var m := SkipBlanks(s, SkipBlanks(s, j) + 1);
              m < |s| && Operand(s, m, fcn).Ok? && SkipBlanks(s, Operand(s, m, fcn).value.1) < |s| ==>
                Eval(s, fcn) == Err(-EINVAL)
  {
    hide Operand, Apply, SkipBlanks;
    assert AtLeft(s, 0, fcn) == AtOperator(s, j, v, fcn);
    var o := SkipBlanks(s, j);
    if o < |s| && IsOperator(s[o]) { assert AtOperator(s, j, v, fcn) == AtRight(s, o + 1, v, s[o], fcn); }
  }

  lemma BlankRejected(s: string, fcn: Expand)
    requires SkipBlanks(s, 0) == |s|
    ensures Eval(s, fcn) == Err(-EINVAL)
  {
  }

  /** So are a bracket that is not closed, a number that does not fit, and any other start of an operand. */
  lemma StartRejected(s: string, fcn: Expand, i: nat)
    requires i < |s| && i == SkipBlanks(s, 0)
    ensures s[i] == '(' && FindClose(s, i + 1, 1, '(', ')').None? ==> Eval(s, fcn) == Err(-EINVAL)
    ensures s[i] == '$' && i + 1 < |s| && s[i + 1] == '[' && FindClose(s, i + 2, 1, '[', ']').None? ==>
              Eval(s, fcn) == Err(-EINVAL)
    ensures (s[i] == '-' || '0' <= s[i] <= '9') && StrToLL(s, i).range ==> Eval(s, fcn) == Err(-ERANGE)
    ensures s[i] != '(' && s[i] != '$' && s[i] != '-' && !('0' <= s[i] <= '9') ==> Eval(s, fcn) == Err(-EINVAL)
  {
    hide FindClose, StrToLL, SkipBlanks;
    if s[i] == '(' {
      assert Operand(s, i, fcn) == Bracketed(s, i, 1, '(', ')', fcn);
    } else if s[i] == '$' && i + 1 < |s| && s[i + 1] == '[' {
      assert Operand(s, i, fcn) == Bracketed(s, i, 2, '[', ']', fcn);
    }
    assert Operand(s, i, fcn).Err? ==> AtLeft(s, 0, fcn) == Err(Operand(s, i, fcn).code);
  }
}
