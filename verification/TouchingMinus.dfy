/** A negative literal read as a minus sign and a positive number: what becomes of `v op n` when its
    operator is lost and `v - |n|` is computed instead. */
module TouchingMinus {
  import opened CNumbers

  /** The value computed; the literal's digits alone do not fit if it is the least number. */
  function Misread(v: LongLong, n: LongLong): Result<LongLong>
    requires n < 0
  {
    if n == LLONG_MIN then Err(-ERANGE) else Apply('-', v, -n)
  }

  /** The operands for which the loss of the operator does not matter. */
  predicate Harmless(op: char, v: LongLong, n: LongLong)
    requires n < 0
  {
    n != LLONG_MIN && (op == '+' || (op == '%' && -n <= v < -2 * n) || (op == '|' && BitAnd(v, n) == 0))
  }

  /** A defined value comes out right exactly then: of a sum always, of a remainder when it takes one
      subtraction, of `|` when no bit is shared, and of the other operators never. */
  lemma HarmlessIff(op: char, v: LongLong, n: LongLong)
    requires IsOperator(op) && n < 0 && Apply(op, v, n).Ok?
    ensures Misread(v, n) == Apply(op, v, n) <==> Harmless(op, v, n)
  {
    hide BitAnd, BitOr, TruncDiv, TruncMod;
    match op
    case '*' => TimesDiffers(v, n);
    case '/' => QuotientDiffers(v, n);
    case '%' => RemainderIff(v, n);
    case '|' => AndOrSum(v, n); OrOfNegative(v, n);
    case '&' => AndOrSum(v, n); OrOfNegative(v, n);
    case _ =>
  }

  /** Then the two agree also where the value is undefined. */
  lemma HarmlessAgrees(op: char, v: LongLong, n: LongLong)
    requires n < 0 && Harmless(op, v, n)
    ensures Misread(v, n) == Apply(op, v, n)
  {
    if op != '+' {
      if op == '%' { QuotientOne(v, n); }
      hide BitAnd, BitOr, TruncDiv, TruncMod;
      HarmlessIff(op, v, n);
    }
  }

  lemma QuotientOne(v: int, n: int)
    requires n < 0 && -n <= v < -2 * n
    ensures TruncDiv(v, n) == -1
  {
    assert v == -n * 1 + (v + n);
  }

  lemma TimesDiffers(v: int, n: int)
    requires n < 0
    ensures v * n != v + n
  {
    if v >= 2 {
      assert v * n == 2 * n + (v - 2) * n;
    } else if v < 0 {
      assert v * n == (-v) * (-n);
    }
  }

  lemma QuotientDiffers(v: int, n: int)
    requires n < 0
    ensures TruncDiv(v, n) != v + n
  {
    var q := Abs(v) / Abs(n);
    assert TruncDiv(v, n) == if v < 0 then q else -q;
    NatQuotient(Abs(v), Abs(n));
    hide TruncDiv;
  }

  lemma NatQuotient(v: nat, m: nat)
    requires m > 0
    ensures v / m >= 0 && (v < m ==> v / m == 0) && (v >= m ==> v / m >= 1)
  {
  }

  lemma RemainderIff(v: int, n: int)
    requires n < 0
    ensures TruncMod(v, n) == v + n <==> -n <= v < -2 * n
  {
    var m := -n;
    if m <= v < 2 * m {
      assert v == m * 1 + (v - m);
    }
  }

  /** Every bit of a sum comes from one operand or from both. */
  lemma {:induction false} AndOrSum(a: int, b: int)
    ensures BitAnd(a, b) + BitOr(a, b) == a + b
    decreases Abs(a) + Abs(b)
  {
    if !((a == 0 || a == -1) && (b == 0 || b == -1)) {
      AndOrSum(a / 2, b / 2);
      Halves(a, b);
      hide BitAnd, BitOr;
    }
  }

  lemma Halves(a: int, b: int)
    requires !((a == 0 || a == -1) && (b == 0 || b == -1))
    ensures BitAnd(a, b) == 2 * BitAnd(a / 2, b / 2) + if a % 2 == 1 && b % 2 == 1 then 1 else 0
    ensures BitOr(a, b) == 2 * BitOr(a / 2, b / 2) + if a % 2 == 1 || b % 2 == 1 then 1 else 0
  {
    hide BitAnd;
    AndHalves(a, b);
    AndHalves(-1 - a, -1 - b);
    Complement(a);
    Complement(b);
  }

  lemma Complement(a: int)
    ensures (-1 - a) / 2 == -1 - a / 2 && (-1 - a) % 2 == 1 - a % 2
  {
  }

  lemma OrOfNegative(a: int, b: int)
    requires b < 0
    ensures BitOr(a, b) < 0
  {
    AndOfNat(-1 - a, -1 - b);
  }

  lemma {:induction false} AndOfNat(a: int, b: nat)
    ensures BitAnd(a, b) >= 0
    decreases Abs(a) + Abs(b)
  {
    if !((a == 0 || a == -1) && b == 0) { AndOfNat(a / 2, b / 2); }
  }
}
