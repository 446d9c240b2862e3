/** C integers and the two library conversions the evaluator relies on: `strtoll` with base 0 and
    the strict wrapper around it. Signed overflow and division by zero are undefined in C, so the
    arithmetic below has an explicit `Undefined` outcome. */
module CNumbers {

  const EINVAL := 22
  const ERANGE := 34

  const LLONG_MIN := -0x8000_0000_0000_0000
  const LLONG_MAX := 0x7FFF_FFFF_FFFF_FFFF
  const INT_MIN := -0x8000_0000
  const INT_MAX := 0x7FFF_FFFF

  /** The outcome of a C function that returns 0 or a negative errno. */
  datatype Result<+T> = Ok(value: T) | Err(code: int) | Undefined

  predicate InLongLong(v: int) {
    LLONG_MIN <= v <= LLONG_MAX
  }

  type LongLong = v: int | LLONG_MIN <= v <= LLONG_MAX

  /** A `long`, 32 bits wide. */
  type Long = v: int | INT_MIN <= v <= INT_MAX

  /** Conversion of a 64-bit value to a 32-bit `long`. */
  function ToLong(v: int): (r: int)
    ensures INT_MIN <= r <= INT_MAX && (r - v) % 0x1_0000_0000 == 0
    ensures INT_MIN <= v <= INT_MAX ==> r == v
  {
    var low := v % 0x1_0000_0000;
    if low > INT_MAX then low - 0x1_0000_0000 else low
  }

  /** C division: the quotient is rounded towards zero. */
  function TruncDiv(a: int, b: int): (q: int)
    requires b != 0
  {
    if (a < 0) == (b < 0) then Abs(a) / Abs(b) else -(Abs(a) / Abs(b))
  }

  /** C remainder: it takes the sign of the dividend. */
  function TruncMod(a: int, b: int): (r: int)
    requires b != 0
  {
    if a < 0 then -(Abs(a) % Abs(b)) else Abs(a) % Abs(b)
  }

  function Abs(a: int): nat {
    if a < 0 then -a else a
  }

  /** The defining property of C's `/` and `%`, which fixes both. */
  lemma TruncDivMod(a: int, b: int)
    requires b != 0
    ensures a == TruncDiv(a, b) * b + TruncMod(a, b)
    ensures Abs(TruncMod(a, b)) < Abs(b)
    ensures TruncMod(a, b) != 0 ==> (TruncMod(a, b) < 0 <==> a < 0)
  {
  }

  /** Two's complement `&`, bit by bit from the least significant one. */
  function BitAnd(a: int, b: int): int
    decreases Abs(a) + Abs(b)
  {
    if (a == 0 || a == -1) && (b == 0 || b == -1) then
      if a == -1 && b == -1 then -1 else 0
    else
      2 * BitAnd(a / 2, b / 2) + (if a % 2 == 1 && b % 2 == 1 then 1 else 0)
  }

  /** Two's complement `|`, by De Morgan's law. */
  function BitOr(a: int, b: int): int {
    -1 - BitAnd(-1 - a, -1 - b)
  }

  /** `&` of two w-bit values is a w-bit value, so the bit operators never overflow. */
  lemma {:induction false} BitAndRange(a: int, b: int, bound: int, w: nat)
    requires bound == Pow2(w)
    requires -bound <= a < bound && -bound <= b < bound
    ensures -bound <= BitAnd(a, b) < bound
    decreases w
  {
    if (a == 0 || a == -1) && (b == 0 || b == -1) {
    } else {
      assert w > 0;
      BitAndRange(a / 2, b / 2, Pow2(w - 1), w - 1);
    }
  }

  function Pow2(n: nat): nat {
    if n == 0 then 1 else 2 * Pow2(n - 1)
  }

  /** Bit `k` of a two's complement number, which has a sign bit at every high position. */
  function Bit(v: int, k: nat): bool
    decreases k
  {
    if k == 0 then v % 2 == 1 else Bit(v / 2, k - 1)
  }

  /** Each bit of `&` is the conjunction of the operands' bits, each bit of `|` their disjunction. */
  lemma BitwiseLaws(a: int, b: int, k: nat)
    ensures Bit(BitAnd(a, b), k) <==> Bit(a, k) && Bit(b, k)
    ensures Bit(BitOr(a, b), k) <==> Bit(a, k) || Bit(b, k)
  {
    AndBit(a, b, k);
    AndBit(-1 - a, -1 - b, k);
    NotBit(a, k);
    NotBit(b, k);
    NotBit(BitAnd(-1 - a, -1 - b), k);
  }

  lemma {:induction false} AndBit(a: int, b: int, k: nat)
    ensures Bit(BitAnd(a, b), k) <==> Bit(a, k) && Bit(b, k)
    decreases k
  {
    if (a == 0 || a == -1) && (b == 0 || b == -1) {
      SignBit(a, k);
      SignBit(b, k);
    } else {
      hide BitAnd;
      AndHalves(a, b);
      HalfAndBit(BitAnd(a / 2, b / 2), a % 2 == 1 && b % 2 == 1);
      if k > 0 { AndBit(a / 2, b / 2, k - 1); }
    }
  }

  lemma AndHalves(a: int, b: int)
    requires !((a == 0 || a == -1) && (b == 0 || b == -1))
    ensures BitAnd(a, b) == 2 * BitAnd(a / 2, b / 2) + if a % 2 == 1 && b % 2 == 1 then 1 else 0
  {
  }

  lemma HalfAndBit(half: int, bit: bool)
    ensures var v := 2 * half + if bit then 1 else 0; v / 2 == half && (v % 2 == 1 <==> bit)
  {
  }

  /** 0 and -1 have the same bit everywhere. */
  lemma {:induction false} SignBit(v: int, k: nat)
    requires v == 0 || v == -1
    ensures Bit(v, k) <==> v == -1
    decreases k
  {
    if k > 0 { SignBit(v, k - 1); }
  }

  lemma {:induction false} NotBit(v: int, k: nat)
    ensures Bit(-1 - v, k) <==> !Bit(v, k)
    decreases k
  {
    if k > 0 {
      assert (-1 - v) / 2 == -1 - v / 2;
      NotBit(v / 2, k - 1);
    }
  }

  /** The bits determine the number, so these laws fix both operators. */
  lemma {:induction false} BitsDetermine(a: int, b: int)
    requires forall k: nat :: Bit(a, k) == Bit(b, k)
    ensures a == b
    decreases Abs(a) + Abs(b)
  {
    assert Bit(a, 0) == Bit(b, 0);
    if (a == 0 || a == -1) && (b == 0 || b == -1) {
    } else {
      forall k: nat ensures Bit(a / 2, k) == Bit(b / 2, k) {
        assert Bit(a, k + 1) == Bit(b, k + 1);
      }
      BitsDetermine(a / 2, b / 2);
    }
  }

  predicate IsOperator(c: char) {
    c == '+' || c == '-' || c == '*' || c == '/' || c == '%' || c == '|' || c == '&'
  }

  /** The seven operators; an undefined C expression is `Undefined`. */
  function Apply(op: char, l: LongLong, r: LongLong): Result<LongLong> {
    match op
    case '+' => Signed(l + r)
    case '-' => Signed(l - r)
    case '*' => Signed(l * r)
    case '/' => if r == 0 then Undefined else Signed(TruncDiv(l, r))
    case '%' => if r == 0 || !InLongLong(TruncDiv(l, r)) then Undefined else Ok(Remainder(l, r))
    case '|' => Ok(Or(l, r))
    case '&' => Ok(And(l, r))
    case _ => Err(-EINVAL)
  }

  function Signed(v: int): Result<LongLong> {
    if InLongLong(v) then Ok(v) else Undefined
  }

  /** The operators that cannot overflow. */
  function Remainder(l: LongLong, r: LongLong): (v: LongLong)
    requires r != 0
    ensures v == TruncMod(l, r)
  {
    RemainderFits(l, r);
    TruncMod(l, r)
  }

  function And(l: LongLong, r: LongLong): (v: LongLong)
    ensures v == BitAnd(l, r)
  {
    AndFits(l, r);
    BitAnd(l, r)
  }

  function Or(l: LongLong, r: LongLong): (v: LongLong)
    ensures v == BitOr(l, r)
  {
    AndFits(-1 - l, -1 - r);
    BitOr(l, r)
  }

  lemma RemainderFits(l: LongLong, r: LongLong)
    requires r != 0
    ensures InLongLong(TruncMod(l, r))
  {
    TruncDivMod(l, r);
    hide TruncMod, TruncDiv;
  }

  lemma AndFits(l: LongLong, r: LongLong)
    ensures InLongLong(BitAnd(l, r))
  {
    hide BitAnd, Pow2;
    PowerOf63();
    BitAndRange(l, r, LLONG_MAX + 1, 63);
  }

  lemma PowerOf63()
    ensures Pow2(63) == LLONG_MAX + 1
  {
    assert Pow2(0) == 1;
    hide Pow2;
    Times512(0, 1);
    Times512(9, 0x200);
    Times512(18, 0x4_0000);
    Times512(27, 0x800_0000);
    Times512(36, 0x10_0000_0000);
    Times512(45, 0x2000_0000_0000);
    Times512(54, 0x40_0000_0000_0000);
  }

  lemma Times512(k: nat, v: nat)
    requires Pow2(k) == v
    ensures Pow2(k + 9) == v * 0x200
  {
    PowerSum(k, 9);
    assert Pow2(9) == 0x200;
    hide Pow2;
  }

  lemma {:induction false} PowerSum(m: nat, n: nat)
    ensures Pow2(m + n) == Pow2(m) * Pow2(n)
    decreases m
  {
    if m > 0 {
      PowerSum(m - 1, n);
      assert Pow2(m) * Pow2(n) == 2 * (Pow2(m - 1) * Pow2(n));
    }
  }

  predicate IsSpace(c: char) {
    c == ' ' || '\t' <= c <= '\r'
  }

  function DigitValue(c: char): int {
    if '0' <= c <= '9' then c as int - '0' as int
    else if 'a' <= c <= 'f' then c as int - 'a' as int + 10
    else if 'A' <= c <= 'F' then c as int - 'A' as int + 10
    else 99
  }

  predicate IsDigitAt(s: string, i: nat, base: nat) {
    i < |s| && DigitValue(s[i]) < base
  }

  /** Reads the longest run of base-`base` digits from `i`; gives its value and the end. */
  function DigitRun(s: string, i: nat, base: nat, acc: nat): (r: (nat, nat))
    requires i <= |s| && base <= 16
    ensures i <= r.1 <= |s|
    decreases |s| - i
  {
    if IsDigitAt(s, i, base) then DigitRun(s, i + 1, base, acc * base + DigitValue(s[i])) else (acc, i)
  }

  function SkipSpace(s: string, i: nat): (r: nat)
    requires i <= |s|
    ensures i <= r <= |s|
    decreases |s| - i
  {
    if i < |s| && IsSpace(s[i]) then SkipSpace(s, i + 1) else i
  }

  /** What `strtoll` leaves behind: the value, where it stopped, and whether errno is ERANGE. */
  datatype Conversion = Conversion(value: int, end: nat, range: bool)

  /** `strtoll(s + i, &end, 0)`: blanks, a sign, then hexadecimal, octal or decimal digits. With no
      digit at all the value is 0 and `end` is `i`. */
  function StrToLL(s: string, i: nat): (r: Conversion)
    requires i <= |s|
    ensures i <= r.end <= |s|
  {
    var j := SkipSpace(s, i);
    var signed := j < |s| && (s[j] == '-' || s[j] == '+');
    var k := if signed then j + 1 else j;
    var zero := k < |s| && s[k] == '0';
    var hex := zero && k + 1 < |s| && (s[k + 1] == 'x' || s[k + 1] == 'X') && IsDigitAt(s, k + 2, 16);
    var start := if hex then k + 2 else k;
    var (v, end) := DigitRun(s, start, if hex then 16 else if zero then 8 else 10, 0);
    if end == start then Conversion(0, i, false)
    else
      var value := if signed && s[j] == '-' then -(v as int) else v;
      Conversion(value, end, !InLongLong(value))
  }

  /** The strict conversion of a whole string; its result passes through a `long`. */
  function SafeStrToLL(s: string): Result<Long> {
    if s == "" then Err(-EINVAL)
    else
      var c := StrToLL(s, 0);
      if c.range then Err(-ERANGE) else if c.end != |s| then Err(-EINVAL) else Ok(ToLong(c.value))
  }
}
