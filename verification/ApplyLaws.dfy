/** What C says of the seven operators, stated of the evaluator's own results. */
module ApplyLaws {
  import opened CNumbers

  /** A sum, difference or product is exact, and undefined exactly when it does not fit. */
  lemma ExactOrUndefined(l: LongLong, r: LongLong)
    ensures Apply('+', l, r) == if LLONG_MIN <= l + r <= LLONG_MAX then Ok(l + r) else Undefined
    ensures Apply('-', l, r) == if LLONG_MIN <= l - r <= LLONG_MAX then Ok(l - r) else Undefined
    ensures Apply('*', l, r) == if LLONG_MIN <= l * r <= LLONG_MAX then Ok(l * r) else Undefined
  {
    hide TruncDiv, TruncMod, BitAnd, BitOr;
  }

  /** Division and remainder are undefined exactly for a zero divisor and for the one quotient that does not
      fit, and have a value otherwise. */
  lemma DivisionDefinedIff(l: LongLong, r: LongLong)
    ensures Apply('/', l, r).Ok? <==> r != 0 && !(l == LLONG_MIN && r == -1)
    ensures Apply('%', l, r).Ok? <==> r != 0 && !(l == LLONG_MIN && r == -1)
    ensures !Apply('/', l, r).Ok? ==> Apply('/', l, r) == Undefined
    ensures !Apply('%', l, r).Ok? ==> Apply('%', l, r) == Undefined
  {
    hide TruncMod, BitAnd, BitOr;
    if r != 0 {
      QuotientFitsIff(l, r);
      hide TruncDiv;
    }
  }

  lemma QuotientFitsIff(l: LongLong, r: LongLong)
    requires r != 0
    ensures InLongLong(TruncDiv(l, r)) <==> !(l == LLONG_MIN && r == -1)
  {
    var q := Abs(l) / Abs(r);
    assert TruncDiv(l, r) == if (l < 0) == (r < 0) then q else -q;
    QuotientBound(Abs(l), Abs(r));
    hide TruncDiv;
  }

  lemma QuotientBound(a: nat, b: nat)
    requires b > 0
    ensures a / b <= a && (b == 1 ==> a / b == a) && (b >= 2 ==> 2 * (a / b) <= a)
  {
    assert a == (a / b) * b + a % b;
    if b >= 2 { assert (a / b) * b == (a / b) * 2 + (a / b) * (b - 2); }
  }

  /** The quotient and the remainder belong together: the remainder is smaller than the divisor and has the
      sign of the dividend, so the quotient is rounded towards zero. */
  lemma QuotientAndRemainder(l: LongLong, r: LongLong, q: LongLong, m: LongLong)
    requires Apply('/', l, r) == Ok(q) && Apply('%', l, r) == Ok(m)
    ensures r != 0 && IsDivision(l, r, q, m)
  {
    TruncDivMod(l, r);
    hide TruncDiv, TruncMod;
  }

  /** C's law of `/` and `%`. */
  predicate IsDivision(l: int, r: int, q: int, m: int) {
    l == q * r + m
    && (if r < 0 then r else -r) < m < (if r < 0 then -r else r)
    && (m != 0 ==> (m < 0 <==> l < 0))
  }

  /** No other pair obeys that law. */
  lemma DivisionUnique(l: int, r: int, q: int, m: int, q': int, m': int)
    requires r != 0
    ensures IsDivision(l, r, q, m) && IsDivision(l, r, q', m') ==> q == q' && m == m'
  {
    if IsDivision(l, r, q, m) && IsDivision(l, r, q', m') {
      assert (q - q') * r == m' - m;
      if q != q' { ProductBound(q - q', r); }
    }
  }

  lemma ProductBound(d: int, r: int)
    requires d != 0
    ensures if r < 0 then d * r <= r || d * r >= -r else d * r <= -r || d * r >= r
  {
    if d < 0 { assert d * r == -((-d) * r); }
    var a := if d < 0 then -d else d;
    if r < 0 {
      assert a * r == -(a * (-r));
      AtLeast(a, -r);
    } else {
      AtLeast(a, r);
    }
  }

  lemma AtLeast(a: nat, b: nat)
    requires a >= 1
    ensures a * b >= b
  {
  }

  /** `&` and `|` always have a value, whose bits are those of the operands, taken together. */
  lemma BitsOfResult(l: LongLong, r: LongLong, k: nat)
    ensures Apply('&', l, r).Ok? && (Bit(Apply('&', l, r).value, k) <==> Bit(l, k) && Bit(r, k))
    ensures Apply('|', l, r).Ok? && (Bit(Apply('|', l, r).value, k) <==> Bit(l, k) || Bit(r, k))
  {
    BitwiseLaws(l, r, k);
    hide BitAnd, BitOr, TruncDiv, TruncMod;
  }

  /** The bits are those of the number in base two, with the sign repeated for ever: a number that fits into
      `w` bits and a sign is the sum of its bits' weights, less 2^w if it is negative. */
  lemma {:induction false} BitsWeigh(v: int, w: nat)
    requires -(Pow2(w) as int) <= v < Pow2(w)
    ensures v == Weight(v, w) - if v < 0 then Pow2(w) else 0
    ensures forall k: nat :: k >= w ==> (Bit(v, k) <==> v < 0)
    decreases w
  {
    if w == 0 {
      forall k: nat ensures Bit(v, k) <==> v < 0 { SignBit(v, k); }
    } else {
      BitsWeigh(v / 2, w - 1);
      forall k: nat | k >= w ensures Bit(v, k) <==> v < 0 { assert Bit(v, k) == Bit(v / 2, k - 1); }
      WeightHalf(v, w);
    }
  }

  /** The sum of the weights of the lowest `w` bits. */
  function Weight(v: int, w: nat): nat {
    if w == 0 then 0 else Weight(v, w - 1) + if Bit(v, w - 1) then Pow2(w - 1) else 0
  }

  lemma {:induction false} WeightHalf(v: int, w: nat)
    requires w > 0
    ensures Weight(v, w) == 2 * Weight(v / 2, w - 1) + v % 2
    decreases w
  {
    if w == 1 {
      assert Weight(v, 0) == 0;
    } else {
      WeightHalf(v, w - 1);
      assert Bit(v, w - 1) == Bit(v / 2, w - 2) && Pow2(w - 1) == 2 * Pow2(w - 2);
    }
  }

  /** There are no other operators. */
  lemma OtherCharacters(op: char, l: LongLong, r: LongLong)
    ensures Apply(op, l, r).Err? <==> op !in "+-*/%|&"
    ensures Apply(op, l, r).Err? ==> Apply(op, l, r) == Err(-EINVAL)
  {
    hide TruncDiv, TruncMod, BitAnd, BitOr;
  }
}
