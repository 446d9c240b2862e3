/** Expression trees with their exact layout, the text they render to, what they mean, and what the
    evaluator makes of that text. A layout carries every blank run, so the theorems range over all
    spacings, not over one printer's choice. */
module ConfEvalRoundTrip {
  import opened CNumbers
  import opened ConfEval
  import opened TouchingMinus
  import opened Wrappers

  datatype Bracket = Round | Square

  datatype Expr =
    | Single(pre: string, o: Term, post: string)
    | Binary(pre: string, l: Term, mid1: string, op: char, mid2: string, r: Term, post: string)

  datatype Term =
    | Num(n: LongLong)
    | Var(name: string)
    | Group(kind: Bracket, e: Expr)

  predicate Blank(s: string) {
    forall i :: 0 <= i < |s| ==> '\0' < s[i] <= ' '
  }

  predicate WellFormed(e: Expr) {
    match e
    case Single(pre, o, post) => Blank(pre) && Blank(post) && WellFormedTerm(o)
    case Binary(pre, l, mid1, op, mid2, r, post) =>
      Blank(pre) && Blank(mid1) && Blank(mid2) && Blank(post) && IsOperator(op)
      && WellFormedTerm(l) && WellFormedTerm(r)
  }

  predicate WellFormedTerm(o: Term) {
    match o
    case Num(_) => true
    case Var(name) => forall i :: 0 <= i < |name| ==> IsNameChar(name[i])
    case Group(_, e) => WellFormed(e)
  }

  // --- Rendering ---

  function Decimal(n: nat): (s: string)
    ensures s != "" && forall i :: 0 <= i < |s| ==> '0' <= s[i] <= '9'
    ensures n > 0 ==> s[0] != '0'
  {
    if n < 10 then [Digit(n)] else Decimal(n / 10) + [Digit(n % 10)]
  }

  function Digit(d: nat): (c: char)
    requires d < 10
    ensures '0' <= c <= '9' && DigitValue(c) == d
  {
    '0' + d as char
  }

  function Opening(kind: Bracket): string {
    if kind == Round then "(" else "$["
  }

  function Closing(kind: Bracket): char {
    if kind == Round then ')' else ']'
  }

  function RenderNumber(n: int): string {
    if n < 0 then "-" + Decimal(-n) else Decimal(n)
  }

  function Render(e: Expr): string {
    match e
    case Single(pre, o, post) => pre + (RenderTerm(o) + post)
    case Binary(pre, l, mid1, op, mid2, r, post) =>
      pre + (RenderTerm(l) + (mid1 + ([op] + (mid2 + (RenderTerm(r) + post)))))
  }

  function RenderTerm(o: Term): string {
    match o
    case Num(n) => RenderNumber(n)
    case Var(name) => "$" + name
    case Group(kind, e) => Opening(kind) + (Render(e) + [Closing(kind)])
  }

  // --- Meaning ---

  /** The value of the tree, with C arithmetic and left-to-right evaluation; layout plays no part. */
  function Meaning(e: Expr, fcn: Expand): Result<LongLong> {
    match e
    case Single(_, o, _) => TermMeaning(o, fcn)
    case Binary(_, l, _, op, _, r, _) => Combine(op, TermMeaning(l, fcn), TermMeaning(r, fcn))
  }

  function TermMeaning(o: Term, fcn: Expand): Result<LongLong> {
    match o
    case Num(n) => Ok(n)
    case Var(name) => Variable(name, fcn)
    case Group(_, e) => Meaning(e, fcn)
  }

  function Combine(op: char, l: Result<LongLong>, r: Result<LongLong>): Result<LongLong> {
    if !l.Ok? then l else if !r.Ok? then r else Apply(op, l.value, r.value)
  }

  /** What the evaluator computes from the rendered text. It differs from `Meaning` where a left
      operand in brackets touches its operator: the operator is the one character that gets dropped,
      so the next token is read as the operator, which only a minus sign survives. */
  function Coded(e: Expr, fcn: Expand): Result<LongLong> {
    match e
    case Single(_, o, _) => TermCoded(o, fcn)
    case Binary(_, l, mid1, op, _, r, _) =>
      if Touching(l, mid1) then
        var left := TermCoded(l, fcn);
        if !left.Ok? then left else if !(r.Num? && r.n < 0) then Err(-EINVAL) else Misread(left.value, r.n)
      else Combine(op, TermCoded(l, fcn), TermCoded(r, fcn))
  }

  function TermCoded(o: Term, fcn: Expand): Result<LongLong> {
    match o
    case Num(n) => Ok(n)
    case Var(name) => Variable(name, fcn)
    case Group(_, e) => Coded(e, fcn)
  }

  predicate Touching(l: Term, mid1: string) {
    l.Group? && mid1 == ""
  }

  /** No bracketed left operand touches its operator. */
  predicate Spaced(e: Expr) {
    match e
    case Single(_, o, _) => SpacedTerm(o)
    case Binary(_, l, mid1, _, _, r, _) => !Touching(l, mid1) && SpacedTerm(l) && SpacedTerm(r)
  }

  predicate SpacedTerm(o: Term) {
    o.Group? ==> Spaced(o.e)
  }

  /** Where a bracketed left operand touches its operator, that does no harm: the left operand has no value,
      or the right one is a negative literal for which the lost operator does not matter. */
  predicate Faithful(e: Expr, fcn: Expand) {
    match e
    case Single(_, o, _) => FaithfulTerm(o, fcn)
    case Binary(_, l, mid1, op, _, r, _) =>
      (Touching(l, mid1) ==> NoHarm(op, TermMeaning(l, fcn), r)) && FaithfulTerm(l, fcn) && FaithfulTerm(r, fcn)
  }

  predicate FaithfulTerm(o: Term, fcn: Expand) {
    o.Group? ==> Faithful(o.e, fcn)
  }

  predicate NoHarm(op: char, left: Result<LongLong>, r: Term) {
    !left.Ok? || (r.Num? && r.n < 0 && Harmless(op, left.value, r.n))
  }

  /** Every expression in the tree, itself included, evaluates to its own meaning. */
  predicate AllRight(e: Expr, fcn: Expand) {
    Eval(Render(e), fcn) == Finished(Meaning(e, fcn))
    && match e
       case Single(_, o, _) => AllRightTerm(o, fcn)
       case Binary(_, l, _, _, _, r, _) => AllRightTerm(l, fcn) && AllRightTerm(r, fcn)
  }

  predicate AllRightTerm(o: Term, fcn: Expand) {
    o.Group? ==> AllRight(o.e, fcn)
  }

  /** No touching operator is followed by a negative literal. */
  predicate NoTouchingMinus(e: Expr) {
    match e
    case Single(_, o, _) => NoTouchingMinusTerm(o)
    case Binary(_, l, mid1, _, _, r, _) =>
      !(Touching(l, mid1) && r.Num? && r.n < 0) && NoTouchingMinusTerm(l) && NoTouchingMinusTerm(r)
  }

  predicate NoTouchingMinusTerm(o: Term) {
    o.Group? ==> NoTouchingMinus(o.e)
  }

  // --- Main results ---

  /** The evaluator is characterised on every layout of every tree. */
  lemma EvalRendered(e: Expr, fcn: Expand)
    requires WellFormed(e)
    ensures Eval(Render(e), fcn) == Finished(Coded(e, fcn))
  {
    var s := Render(e);
    EvalLevel(e, s, fcn);
  }

  /** Round trip: a layout in which no touching operator does harm evaluates to the meaning of its tree. */
  lemma RoundTrip(e: Expr, fcn: Expand)
    requires WellFormed(e) && Faithful(e, fcn)
    ensures Eval(Render(e), fcn) == Finished(Meaning(e, fcn))
  {
    EvalRendered(e, fcn);
    FaithfulIsMeaning(e, fcn);
  }

  /** A spaced layout is such a layout, whatever the variables are. */
  lemma {:induction false} SpacedIsFaithful(e: Expr, fcn: Expand)
    requires Spaced(e)
    ensures Faithful(e, fcn)
  {
    match e
    case Single(_, o, _) =>
      if o.Group? { SpacedIsFaithful(o.e, fcn); }
    case Binary(_, l, _, _, _, r, _) =>
      if l.Group? { SpacedIsFaithful(l.e, fcn); }
      if r.Group? { SpacedIsFaithful(r.e, fcn); }
  }

  /** At one node, with all right inside its operands, a defined value comes out right exactly then. */
  lemma RoundTripIffNode(e: Expr, fcn: Expand)
    requires WellFormed(e) && e.Binary? && Meaning(e, fcn).Ok?
    requires FaithfulTerm(e.l, fcn) && FaithfulTerm(e.r, fcn)
    ensures Eval(Render(e), fcn) == Finished(Meaning(e, fcn)) <==> Faithful(e, fcn)
  {
    hide Eval, Render, Apply, Harmless, Finish;
    EvalRendered(e, fcn);
    if e.l.Group? { FaithfulIsMeaning(e.l.e, fcn); }
    if e.r.Group? { FaithfulIsMeaning(e.r.e, fcn); }
    if Touching(e.l, e.mid1) {
      FinishedOnce(Coded(e, fcn), Meaning(e, fcn));
      OperatorsKnown(e.op, TermMeaning(e.l, fcn).value, TermMeaning(e.r, fcn).value);
      if e.r.Num? && e.r.n < 0 { HarmlessIff(e.op, TermMeaning(e.l, fcn).value, e.r.n); }
    }
  }

  lemma FinishedOnce(a: Result<LongLong>, b: Result<LongLong>)
    ensures Finished(a) == Finished(b) <==> a == b
  {
  }

  lemma OperatorsKnown(op: char, l: LongLong, r: LongLong)
    requires IsOperator(op)
    ensures !Apply(op, l, r).Err?
  {
  }

  /** For a whole tree with a value: every expression in it evaluates to its own meaning exactly when no
      touching operator does harm. */
  lemma {:induction false} RoundTripIffFaithful(e: Expr, fcn: Expand)
    requires WellFormed(e) && Meaning(e, fcn).Ok?
    ensures AllRight(e, fcn) <==> Faithful(e, fcn)
  {
    hide Eval, Render, Apply, Harmless, Finished;
    if Faithful(e, fcn) { RoundTrip(e, fcn); }
    match e
    case Single(_, o, _) =>
      if o.Group? { RoundTripIffFaithful(o.e, fcn); }
    case Binary(_, l, _, _, _, r, _) =>
      if l.Group? { RoundTripIffFaithful(l.e, fcn); }
      if r.Group? { RoundTripIffFaithful(r.e, fcn); }
      if FaithfulTerm(l, fcn) && FaithfulTerm(r, fcn) { RoundTripIffNode(e, fcn); }
  }

  /** Where no touching operator is followed by a negative literal, spacing is exactly what the round trip of a
      tree with a value needs. */
  lemma RoundTripIffSpaced(e: Expr, fcn: Expand)
    requires WellFormed(e) && NoTouchingMinus(e) && Meaning(e, fcn).Ok?
    ensures Eval(Render(e), fcn) == Finished(Meaning(e, fcn)) <==> Spaced(e)
    ensures !Spaced(e) ==> Eval(Render(e), fcn) == Err(-EINVAL)
  {
    EvalRendered(e, fcn);
    if Spaced(e) {
      SpacedIsFaithful(e, fcn);
      FaithfulIsMeaning(e, fcn);
    } else {
      UnspacedFails(e, fcn);
    }
  }

  /** With a negative right literal the text can even evaluate to a wrong value: `(6)*-2` gives 4. */
  lemma TouchingMinusGivesWrongValue(fcn: Expand)
    ensures var e := Binary("", Group(Round, Single("", Num(6), "")), "", '*', "", Num(-2), "");
            WellFormed(e) && Render(e) == "(6)*-2" && Meaning(e, fcn) == Ok(-12)
            && Eval(Render(e), fcn) == Ok(Integer(4))
  {
    var e := Binary("", Group(Round, Single("", Num(6), "")), "", '*', "", Num(-2), "");
    assert Decimal(2) == "2" && Decimal(6) == "6";
    calc {
      Render(e);
      "" + (RenderTerm(e.l) + ("" + ("*" + ("" + (RenderTerm(e.r) + "")))));
      { assert RenderTerm(e.r) == "-2"; assert RenderTerm(e.l) == "(6)"; }
      "(6)*-2";
    }
    EvalRendered(e, fcn);
  }

  /** A touching sum is right all the same: `(6)+-2` gives 4. */
  lemma TouchingSumIsRight(fcn: Expand)
    ensures var e := Binary("", Group(Round, Single("", Num(6), "")), "", '+', "", Num(-2), "");
            WellFormed(e) && !Spaced(e) && Faithful(e, fcn) && Eval(Render(e), fcn) == Ok(Integer(4))
  {
    var e := Binary("", Group(Round, Single("", Num(6), "")), "", '+', "", Num(-2), "");
    assert Meaning(e, fcn) == Ok(4);
    RoundTrip(e, fcn);
  }

  /** A wrong value inside a tree can be hidden by what is around it, here a multiplication by 0. */
  lemma ZeroHidesMistakes(e: Expr, fcn: Expand)
    requires WellFormed(e) && Meaning(e, fcn).Ok? && Coded(e, fcn).Ok?
    ensures var outer := Binary("", Group(Round, e), " ", '*', "", Num(0), "");
            WellFormed(outer) && Meaning(outer, fcn) == Ok(0) && Eval(Render(outer), fcn) == Ok(Integer(0))
  {
    hide Render, Eval;
    EvalRendered(Binary("", Group(Round, e), " ", '*', "", Num(0), ""), fcn);
  }

  /** The entry point on a whole `$[...]` expression. */
  lemma EvaluateStringRoundTrip(e: Expr, fcn: Expand)
    requires WellFormed(e) && Faithful(e, fcn)
    ensures EvaluateString("$[" + Render(e) + "]", fcn)
            == match Meaning(e, fcn)
               case Ok(v) => Ok(Some(Finish(v)))
               case Err(code) => Err(code)
               case Undefined => Undefined
  {
    var whole := Single("", Group(Square, e), "");
    assert Render(whole) == "$[" + Render(e) + "]";
    RoundTrip(whole, fcn);
  }

  lemma {:induction false} FaithfulIsMeaning(e: Expr, fcn: Expand)
    requires WellFormed(e) && Faithful(e, fcn)
    ensures Coded(e, fcn) == Meaning(e, fcn)
  {
    hide Apply, Harmless, Misread;
    match e
    case Single(_, o, _) =>
      if o.Group? { FaithfulIsMeaning(o.e, fcn); }
    case Binary(_, l, mid1, op, _, r, _) =>
      if l.Group? { FaithfulIsMeaning(l.e, fcn); }
      if r.Group? { FaithfulIsMeaning(r.e, fcn); }
      var left := TermMeaning(l, fcn);
      if Touching(l, mid1) && left.Ok? { HarmlessAgrees(op, left.value, r.n); }
  }

  lemma {:induction false} UnspacedFails(e: Expr, fcn: Expand)
    requires WellFormed(e) && !Spaced(e) && NoTouchingMinus(e) && Meaning(e, fcn).Ok?
    ensures Coded(e, fcn) == Err(-EINVAL)
  {
    match e
    case Single(_, o, _) =>
      UnspacedFails(o.e, fcn);
    case Binary(_, l, mid1, _, _, r, _) =>
      if !SpacedTerm(l) {
        UnspacedFails(l.e, fcn);
      } else {
        if l.Group? {
          SpacedIsFaithful(l.e, fcn);
          FaithfulIsMeaning(l.e, fcn);
        }
        if !Touching(l, mid1) { UnspacedFails(r.e, fcn); }
      }
  }

  // --- Reading text at a position ---

  /** The text `p` stands in `s` at index `i`. */
  predicate At(s: string, i: nat, p: string)
    decreases |p|
  {
    i + |p| <= |s| && (p == "" || (s[i] == p[0] && At(s, i + 1, p[1..])))
  }

  lemma {:induction false} AtSlice(s: string, i: nat, p: string)
    requires i <= |s|
    ensures At(s, i, p) <==> i + |p| <= |s| && s[i..i + |p|] == p
    decreases |p|
  {
    if p != "" && i < |s| {
      AtSlice(s, i + 1, p[1..]);
      assert p == [p[0]] + p[1..];
      if i + |p| <= |s| { assert s[i..i + |p|] == [s[i]] + s[i + 1..i + |p|]; }
    }
  }

  lemma {:induction false} AtConcat(s: string, i: nat, p: string, q: string)
    requires At(s, i, p + q)
    ensures At(s, i, p) && At(s, i + |p|, q)
    decreases |p|
  {
    if p == "" {
      assert p + q == q;
    } else {
      assert (p + q)[1..] == p[1..] + q;
      AtConcat(s, i + 1, p[1..], q);
    }
  }

  lemma {:induction false} AtChar(s: string, i: nat, p: string, k: nat)
    requires At(s, i, p) && k < |p|
    ensures i + k < |s| && s[i + k] == p[k]
    decreases k
  {
    if k > 0 { AtChar(s, i + 1, p[1..], k - 1); }
  }

  lemma {:induction false} SkipOver(s: string, i: nat, p: string)
    requires At(s, i, p) && Blank(p)
    requires i + |p| < |s| ==> s[i + |p|] > ' '
    ensures SkipBlanks(s, i) == i + |p|
    decreases |p|
  {
    if p != "" {
      SkipOver(s, i + 1, p[1..]);
    }
  }

  lemma {:induction false} NameAt(s: string, i: nat, name: string)
    requires At(s, i, name) && WellFormedTerm(Var(name))
    requires i + |name| < |s| ==> !IsNameChar(s[i + |name|])
    ensures NameEnd(s, i) == i + |name|
    decreases |name|
  {
    if name != "" {
      NameAt(s, i + 1, name[1..]);
    }
  }

  lemma {:induction false} DigitsAt(s: string, i: nat, n: nat)
    requires At(s, i, Decimal(n))
    ensures DigitRun(s, i, 10, 0) == DigitRun(s, i + |Decimal(n)|, 10, n)
    decreases n
  {
    var p := Decimal(n);
    if n < 10 {
      AtChar(s, i, p, 0);
    } else {
      AtConcat(s, i, Decimal(n / 10), [Digit(n % 10)]);
      DigitsAt(s, i, n / 10);
      AtChar(s, i + |Decimal(n / 10)|, [Digit(n % 10)], 0);
    }
  }

  /** A character that can follow an operand: it continues neither a number nor a name. */
  predicate Stops(s: string, i: nat) {
    i < |s| ==> !IsNameChar(s[i]) && s[i] != '[' && DigitValue(s[i]) == 99
  }

  lemma DecimalAt(s: string, i: nat, n: nat)
    requires At(s, i, Decimal(n)) && Stops(s, i + |Decimal(n)|)
    ensures i < |s| && '0' <= s[i] <= '9' && (s[i] == '0' ==> n == 0 && i + 1 <= |s| && Stops(s, i + 1))
    ensures DigitRun(s, i, if s[i] == '0' then 8 else 10, 0) == (n, i + |Decimal(n)|)
  {
    AtChar(s, i, Decimal(n), 0);
    if n == 0 {
      assert Decimal(0) == "0";
      assert DigitRun(s, i, 8, 0) == DigitRun(s, i + 1, 8, 0);
    } else {
      DigitsAt(s, i, n);
    }
  }

  lemma NumberTerm(n: LongLong)
    ensures RenderTerm(Num(n)) == RenderNumber(n)
  {
  }

  lemma NumberAt(s: string, i: nat, n: int)
    requires At(s, i, RenderNumber(n)) && Stops(s, i + |RenderNumber(n)|)
    ensures StrToLL(s, i) == Conversion(n, i + |RenderNumber(n)|, !InLongLong(n))
    ensures i < |s| && (s[i] == '-' <==> n < 0) && (n >= 0 ==> '0' <= s[i] <= '9')
  {
    hide At, Decimal;
    var m: nat := if n < 0 then -n else n;
    if n < 0 {
      AtConcat(s, i, "-", Decimal(m));
      AtChar(s, i, "-", 0);
    }
    DecimalAt(s, if n < 0 then i + 1 else i, m);
    assert SkipSpace(s, i) == i;
  }

  // --- Bracket matching over rendered text ---

  /** Bracket depth after reading `p` from depth `count`; 0 once it has dropped to zero. */
  function Scan(p: string, count: nat, open: char, close: char): nat
    decreases |p|
  {
    if p == "" || count == 0 then count
    else Scan(p[1..], if p[0] == open then count + 1 else if p[0] == close then count - 1 else count, open, close)
  }

  /** Reading `p` at any positive depth comes back to that depth without closing it. */
  ghost predicate Balanced(p: string, open: char, close: char) {
    forall count: nat :: count >= 1 ==> Scan(p, count, open, close) == count
  }

  lemma {:induction false} ScanConcat(p: string, q: string, count: nat, open: char, close: char)
    ensures Scan(p + q, count, open, close) == Scan(q, Scan(p, count, open, close), open, close)
    decreases |p|
  {
    if p == "" {
      assert p + q == q;
    } else if count > 0 {
      assert (p + q)[1..] == p[1..] + q;
      var next := if p[0] == open then count + 1 else if p[0] == close then count - 1 else count;
      ScanConcat(p[1..], q, next, open, close);
    }
  }

  lemma BalancedConcat(p: string, q: string, open: char, close: char)
    requires Balanced(p, open, close) && Balanced(q, open, close)
    ensures Balanced(p + q, open, close)
  {
    forall count: nat | count >= 1 ensures Scan(p + q, count, open, close) == count {
      ScanConcat(p, q, count, open, close);
    }
  }

  lemma BalancedPlain(p: string, open: char, close: char)
    requires forall k :: 0 <= k < |p| ==> p[k] != open && p[k] != close
    ensures Balanced(p, open, close)
  {
    forall count: nat | count >= 1 ensures Scan(p, count, open, close) == count {
      ScanPlain(p, count, open, close);
    }
  }

  lemma {:induction false} ScanPlain(p: string, count: nat, open: char, close: char)
    requires forall k :: 0 <= k < |p| ==> p[k] != open && p[k] != close
    ensures Scan(p, count, open, close) == count
    decreases |p|
  {
    if p != "" { ScanPlain(p[1..], count, open, close); }
  }

  lemma BalancedInBrackets(p: string, open: char, close: char)
    requires Balanced(p, open, close) && open != close
    ensures Balanced([open] + (p + [close]), open, close)
  {
    forall count: nat | count >= 1 ensures Scan([open] + (p + [close]), count, open, close) == count {
      ScanConcat([open], p + [close], count, open, close);
      ScanConcat(p, [close], count + 1, open, close);
    }
  }

  predicate BracketPair(open: char, close: char) {
    (open == '(' && close == ')') || (open == '[' && close == ']')
  }

  /** Rendered text is balanced in both kinds of bracket, whichever one is being matched. */
  lemma {:induction false} RenderBalanced(e: Expr, open: char, close: char)
    requires WellFormed(e) && BracketPair(open, close)
    ensures Balanced(Render(e), open, close)
    decreases e
  {
    match e
    case Single(pre, o, post) =>
      BalancedPlain(pre, open, close);
      BalancedPlain(post, open, close);
      RenderTermBalanced(o, open, close);
      BalancedConcat(RenderTerm(o), post, open, close);
      BalancedConcat(pre, RenderTerm(o) + post, open, close);
    case Binary(pre, l, mid1, op, mid2, r, post) =>
      BalancedPlain(pre, open, close);
      BalancedPlain(mid1, open, close);
      BalancedPlain([op], open, close);
      BalancedPlain(mid2, open, close);
      BalancedPlain(post, open, close);
      RenderTermBalanced(l, open, close);
      RenderTermBalanced(r, open, close);
      var t6 := RenderTerm(r) + post;
      var t5 := mid2 + t6;
      var t4 := [op] + t5;
      var t3 := mid1 + t4;
      BalancedConcat(RenderTerm(r), post, open, close);
      BalancedConcat(mid2, t6, open, close);
      BalancedConcat([op], t5, open, close);
      BalancedConcat(mid1, t4, open, close);
      BalancedConcat(RenderTerm(l), t3, open, close);
      BalancedConcat(pre, RenderTerm(l) + t3, open, close);
  }

  lemma {:induction false} RenderTermBalanced(o: Term, open: char, close: char)
    requires WellFormedTerm(o) && BracketPair(open, close)
    ensures Balanced(RenderTerm(o), open, close)
    decreases o
  {
    match o
    case Num(n) => BalancedPlain(RenderTerm(o), open, close);
    case Var(name) => BalancedPlain(RenderTerm(o), open, close);
    case Group(kind, e) =>
      RenderBalanced(e, open, close);
      if close == Closing(kind) {
        BalancedInBrackets(Render(e), open, close);
        if kind == Square {
          BalancedPlain("$", open, close);
          BalancedConcat("$", "[" + (Render(e) + "]"), open, close);
          assert RenderTerm(o) == "$" + ("[" + (Render(e) + "]"));
        }
      } else {
        BalancedPlain(Opening(kind), open, close);
        BalancedPlain([Closing(kind)], open, close);
        BalancedConcat(Render(e), [Closing(kind)], open, close);
        BalancedConcat(Opening(kind), Render(e) + [Closing(kind)], open, close);
      }
  }

  /** The bracket search runs over a piece of text as `Scan` does. */
  lemma {:induction false} FindCloseOver(s: string, i: nat, p: string, count: nat, open: char, close: char)
    requires At(s, i, p) && count >= 1 && Scan(p, count, open, close) >= 1
    ensures FindClose(s, i, count, open, close) == FindClose(s, i + |p|, Scan(p, count, open, close), open, close)
    decreases |p|
  {
    if p != "" {
      FindCloseOver(s, i + 1, p[1..], if p[0] == open then count + 1 else if p[0] == close then count - 1 else count,
                    open, close);
    }
  }

  /** Where the parts of a bracketed term stand. */
  lemma GroupAt(s: string, i: nat, kind: Bracket, e: Expr) returns (j: nat, k: nat)
    requires At(s, i, RenderTerm(Group(kind, e)))
    ensures j == i + |Opening(kind)| && At(s, i, Opening(kind))
    ensures s[i] == Opening(kind)[0] && (kind == Square ==> s[i + 1] == '[')
    ensures At(s, j, Render(e))
    ensures k == j + |Render(e)| && k + 1 == i + |RenderTerm(Group(kind, e))|
    ensures k < |s| && s[k] == Closing(kind)
  {
    AtConcat(s, i, Opening(kind), Render(e) + [Closing(kind)]);
    j := i + |Opening(kind)|;
    AtConcat(s, j, Render(e), [Closing(kind)]);
    k := j + |Render(e)|;
    AtChar(s, k, [Closing(kind)], 0);
    AtChar(s, i, Opening(kind), 0);
    if kind == Square { AtChar(s, i, Opening(kind), 1); }
  }

  /** Where the parts of a binary expression stand. */
  lemma BinaryAt(s: string, i: nat, e: Expr)
    returns (i1: nat, i2: nat, i3: nat, i4: nat, i5: nat, i6: nat)
    requires e.Binary? && At(s, i, Render(e))
    ensures At(s, i, e.pre) && i1 == i + |e.pre|
    ensures At(s, i1, RenderTerm(e.l)) && i2 == i1 + |RenderTerm(e.l)|
    ensures At(s, i2, e.mid1) && i3 == i2 + |e.mid1|
    ensures At(s, i3, [e.op]) && i3 < |s| && s[i3] == e.op && i4 == i3 + 1
    ensures At(s, i4, e.mid2) && i5 == i4 + |e.mid2|
    ensures At(s, i5, RenderTerm(e.r)) && i6 == i5 + |RenderTerm(e.r)|
    ensures At(s, i6, e.post) && i6 + |e.post| == i + |Render(e)|
  {
    hide At, RenderTerm;
    var last := RenderTerm(e.r) + e.post;
    i1, i2, i3 := ThreeAt(s, i, e.pre, RenderTerm(e.l), e.mid1, [e.op] + (e.mid2 + last));
    i4, i5, i6 := ThreeAt(s, i3, [e.op], e.mid2, RenderTerm(e.r), e.post);
    AtChar(s, i3, [e.op], 0);
  }

  /** Where the first three of several texts stand. */
  lemma ThreeAt(s: string, i: nat, a: string, b: string, c: string, d: string) returns (i1: nat, i2: nat, i3: nat)
    requires At(s, i, a + (b + (c + d)))
    ensures At(s, i, a) && i1 == i + |a|
    ensures At(s, i1, b) && i2 == i1 + |b|
    ensures At(s, i2, c) && i3 == i2 + |c|
    ensures At(s, i3, d)
  {
    hide At;
    AtConcat(s, i, a, b + (c + d));
    i1 := i + |a|;
    AtConcat(s, i1, b, c + d);
    i2 := i1 + |b|;
    AtConcat(s, i2, c, d);
    i3 := i2 + |c|;
  }

  // --- The evaluator on rendered text ---

  /** Where the scan goes on after a term that ends at `end`. */
  function After(s: string, o: Term, end: nat): nat {
    if o.Group? && end < |s| then end + 1 else end
  }

  function With(r: Result<LongLong>, next: nat): Result<(LongLong, nat)> {
    match r
    case Ok(v) => Ok((v, next))
    case Err(code) => Err(code)
    case Undefined => Undefined
  }

  lemma {:induction false} TermAt(s: string, i: nat, o: Term, fcn: Expand)
    requires WellFormedTerm(o) && At(s, i, RenderTerm(o))
    requires Stops(s, i + |RenderTerm(o)|)
    ensures i < |s| && s[i] > ' '
    ensures Operand(s, i, fcn) == With(TermCoded(o, fcn), After(s, o, i + |RenderTerm(o)|))
    decreases o
  {
    hide At, StrToLL, FindClose, RenderTerm, Decimal, Variable, Eval, NameEnd, DigitValue, IsNameChar, Coded, Render;
    match o
    case Num(n) =>
      NumberTerm(n);
      NumberAt(s, i, n);
    case Var(name) => VariableAt(s, i, name, fcn);
    case Group(kind, e) =>
      var j, k := GroupAt(s, i, kind, e);
      GroupClosesAt(s, i, j, k, kind, e);
      EvalLevel(e, s[j..k], fcn);
  }

  lemma VariableAt(s: string, i: nat, name: string, fcn: Expand)
    requires WellFormedTerm(Var(name)) && At(s, i, RenderTerm(Var(name)))
    requires Stops(s, i + |RenderTerm(Var(name))|)
    ensures i < |s| && s[i] == '$'
    ensures Operand(s, i, fcn) == With(Variable(name, fcn), i + |RenderTerm(Var(name))|)
  {
    hide At, Decimal;
    AtConcat(s, i, "$", name);
    AtChar(s, i, "$", 0);
    if name != "" { AtChar(s, i + 1, name, 0); }
    NameAt(s, i + 1, name);
    AtSlice(s, i + 1, name);
  }

  lemma GroupClosesAt(s: string, i: nat, j: nat, k: nat, kind: Bracket, e: Expr)
    requires WellFormed(e) && At(s, j, Render(e)) && k == j + |Render(e)|
    requires k < |s| && s[k] == Closing(kind)
    ensures FindClose(s, j, 1, if kind == Round then '(' else '[', Closing(kind)) == Some(k + 1)
    ensures s[j..k] == Render(e)
  {
    var open := if kind == Round then '(' else '[';
    RenderBalanced(e, open, Closing(kind));
    FindCloseOver(s, j, Render(e), 1, open, Closing(kind));
    AtSlice(s, j, Render(e));
  }

  lemma EndAt(s: string, i: nat, post: string)
    requires At(s, i, post) && Blank(post) && i + |post| == |s|
    ensures Stops(s, i) && SkipBlanks(s, i) == |s|
    ensures i < |s| ==> SkipBlanks(s, i + 1) == |s|
  {
    SkipOver(s, i, post);
    if post != "" {
      AtChar(s, i, post, 0);
      SkipTwice(s, i, i + 1);
    }
  }

  lemma {:induction false} EvalLevel(e: Expr, s: string, fcn: Expand)
    requires WellFormed(e) && s == Render(e)
    ensures Eval(s, fcn) == Finished(Coded(e, fcn))
    decreases e, 1
  {
    AtSlice(s, 0, Render(e));
    match e
    case Single(pre, o, post) =>
      EvalSingle(e, s, fcn);
    case Binary(pre, l, mid1, op, mid2, r, post) =>
      EvalBinary(e, s, fcn);
  }

  lemma {:induction false} EvalSingle(e: Expr, s: string, fcn: Expand)
    requires WellFormed(e) && e.Single? && At(s, 0, Render(e)) && |s| == |Render(e)|
    ensures AtLeft(s, 0, fcn) == Coded(e, fcn)
    decreases e, 0
  {
    hide At, Operand, AtLeft, AtOperator, AtRight, Stops, SkipBlanks, RenderTerm, TermCoded, Decimal;
    AtConcat(s, 0, e.pre, RenderTerm(e.o) + e.post);
    var i := |e.pre|;
    AtConcat(s, i, RenderTerm(e.o), e.post);
    EndAt(s, i + |RenderTerm(e.o)|, e.post);
    TermAt(s, i, e.o, fcn);
    SkipOver(s, 0, e.pre);
    SingleSteps(s, i, After(s, e.o, i + |RenderTerm(e.o)|), TermCoded(e.o, fcn), fcn);
  }

  lemma {:induction false} EvalBinary(e: Expr, s: string, fcn: Expand)
    requires WellFormed(e) && e.Binary? && At(s, 0, Render(e)) && |s| == |Render(e)|
    ensures AtLeft(s, 0, fcn) == Coded(e, fcn)
    decreases e, 0
  {
    hide At, Operand, AtLeft, AtOperator, AtRight, AtEnd, Stops, SkipBlanks, RenderTerm, Render;
    hide TermCoded, IsOperator, Combine;
    var i1, i2, i3, i4, i5, i6 := BinaryAt(s, 0, e);
    MiddleAt(s, i2, e.mid1, e.op);
    TermAt(s, i1, e.l, fcn);
    SkipOver(s, 0, e.pre);
    EndAt(s, i6, e.post);
    TermAt(s, i5, e.r, fcn);
    SkipOver(s, i4, e.mid2);
    var left, right := TermCoded(e.l, fcn), TermCoded(e.r, fcn);
    var j, k := After(s, e.l, i2), After(s, e.r, i6);
    if Touching(e.l, e.mid1) {
      DroppedSteps(s, i1, j, i5, left, fcn);
      if left.Ok? { DroppedOperator(s, i5, e, left.value, fcn); }
    } else {
      BinarySteps(s, i1, j, i3, i5, k, left, right, fcn);
    }
  }

  /** Blanks and an operator after a left operand. */
  lemma MiddleAt(s: string, i: nat, mid: string, op: char)
    requires At(s, i, mid) && Blank(mid) && IsOperator(op)
    requires i + |mid| < |s| && s[i + |mid|] == op
    ensures Stops(s, i) && SkipBlanks(s, i) == i + |mid|
    ensures mid != "" ==> SkipBlanks(s, i + 1) == i + |mid|
  {
    SkipOver(s, i, mid);
    if mid != "" {
      AtChar(s, i, mid, 0);
      SkipTwice(s, i, i + 1);
    }
  }

  lemma SingleSteps(s: string, i: nat, j: nat, left: Result<LongLong>, fcn: Expand)
    requires SkipBlanks(s, 0) == i < |s| && Operand(s, i, fcn) == With(left, j)
    requires j <= |s| && SkipBlanks(s, j) == |s|
    ensures AtLeft(s, 0, fcn) == left
  {
  }

  lemma BinarySteps(s: string, i: nat, j: nat, o: nat, m: nat, k: nat, left: Result<LongLong>, right: Result<LongLong>,
                    fcn: Expand)
    requires SkipBlanks(s, 0) == i < |s| && Operand(s, i, fcn) == With(left, j)
    requires j <= |s| && SkipBlanks(s, j) == o < |s| && IsOperator(s[o])
    requires SkipBlanks(s, o + 1) == m < |s| && Operand(s, m, fcn) == With(right, k)
    requires k <= |s| && SkipBlanks(s, k) == |s|
    ensures AtLeft(s, 0, fcn) == Combine(s[o], left, right)
  {
    if left.Ok? {
      assert AtLeft(s, 0, fcn) == AtRight(s, o + 1, left.value, s[o], fcn);
    }
  }

  lemma DroppedSteps(s: string, i: nat, j: nat, m: nat, left: Result<LongLong>, fcn: Expand)
    requires SkipBlanks(s, 0) == i < |s| && Operand(s, i, fcn) == With(left, j)
    requires j <= |s| && SkipBlanks(s, j) == m < |s|
    ensures AtLeft(s, 0, fcn) == if left.Ok? then AtOperator(s, m, left.value, fcn) else left
  {
    if left.Ok? { SkipTwice(s, j, m); }
  }

  /** The right operand read in operator position. */
  lemma DroppedOperator(s: string, i: nat, e: Expr, left: LongLong, fcn: Expand)
    requires e.Binary? && WellFormed(e) && At(s, i, RenderTerm(e.r)) && i < |s| && s[i] > ' '
    requires var j := i + |RenderTerm(e.r)|; At(s, j, e.post) && j + |e.post| == |s|
    ensures AtOperator(s, i, left, fcn)
            == if !(e.r.Num? && e.r.n < 0) then Err(-EINVAL) else Misread(left, e.r.n)
  {
    hide At, StrToLL, Operand, Decimal;
    assert SkipBlanks(s, i) == i;
    match e.r
    case Num(n) =>
      EndAt(s, i + |RenderTerm(e.r)|, e.post);
      NumberAt(s, i, n);
      if n < 0 { DroppedMinus(s, i, n, left, fcn); }
    case Var(name) =>
      AtConcat(s, i, "$", name);
      AtChar(s, i, "$", 0);
    case Group(kind, inner) =>
      var _, _ := GroupAt(s, i, kind, inner);
  }

  lemma DroppedMinus(s: string, i: nat, n: LongLong, left: LongLong, fcn: Expand)
    requires LLONG_MIN <= n < 0 && At(s, i, RenderTerm(Num(n))) && i < |s| && s[i] == '-'
    requires var j := i + |RenderTerm(Num(n))|; j <= |s| && Stops(s, j) && SkipBlanks(s, j) == |s|
    ensures AtRight(s, i + 1, left, '-', fcn) == Misread(left, n)
  {
    hide At, StrToLL, Decimal;
    var m: int := n;
    AtConcat(s, i, "-", Decimal(-m));
    assert RenderNumber(-m) == Decimal(-m);
    NumberAt(s, i + 1, -m);
    assert SkipBlanks(s, i + 1) == i + 1;
  }
}
