/** The configuration expression evaluator. The methods follow the C loops; the functions are a
    recursive-descent reading of the same grammar, one function per parser position. */
module ConfEval {
  import opened CNumbers
  import opened Wrappers

  /** A configuration node, as far as `_to_integer` can tell nodes apart. */
  datatype Config = Integer(long: Long) | Integer64(longlong: LongLong) | Str(s: string) | OtherNode

  /** What the variable callback answers; `NoNode` is success with a null node. */
  datatype Expansion = Expanded(c: Config) | NoNode | Failed(code: int)

  type Expand = string -> Expansion

  // --- Bracket matching ---

  /** Index just after the bracket that brings the depth, now `count`, to zero. */
  function FindClose(s: string, i: nat, count: nat, open: char, close: char): (r: Option<nat>)
    requires i <= |s| && count >= 1
    ensures r.Some? ==> i < r.value <= |s| && s[r.value - 1] == close
    decreases |s| - i
  {
    if i == |s| then None
    else if s[i] == open then FindClose(s, i + 1, count + 1, open, close)
    else if s[i] == close then
      if count == 1 then Some(i + 1) else FindClose(s, i + 1, count - 1, open, close)
    else FindClose(s, i + 1, count, open, close)
  }

  /** Openings minus closings in s[i..j]. */
  function Depth(s: string, i: nat, j: nat, open: char, close: char): int
    requires i <= j <= |s|
    decreases j - i
  {
    if i == j then 0
    else Depth(s, i, j - 1, open, close)
         + if s[j - 1] == open then 1 else if s[j - 1] == close then -1 else 0
  }

  /** The search finds exactly the first point at which the depth has dropped by `count`. */
  lemma FindCloseIsFirst(s: string, i: nat, count: nat, open: char, close: char)
    requires i <= |s| && count >= 1
    ensures match FindClose(s, i, count, open, close)
            case Some(e) => count + Depth(s, i, e, open, close) == 0
                            && forall j :: i <= j < e ==> count + Depth(s, i, j, open, close) > 0
            case None => forall j :: i <= j <= |s| ==> count + Depth(s, i, j, open, close) > 0
  {
    FindCloseFrom(s, i, i, count, open, close);
  }

  lemma {:induction false} FindCloseFrom(s: string, i: nat, k: nat, count: nat, open: char, close: char)
    requires i <= k <= |s| && count + Depth(s, i, k, open, close) >= 1
    requires forall j :: i <= j <= k ==> count + Depth(s, i, j, open, close) > 0
    ensures match FindClose(s, k, count + Depth(s, i, k, open, close), open, close)
            case Some(e) => count + Depth(s, i, e, open, close) == 0
                            && forall j :: i <= j < e ==> count + Depth(s, i, j, open, close) > 0
            case None => forall j :: i <= j <= |s| ==> count + Depth(s, i, j, open, close) > 0
    decreases |s| - k
  {
    if k < |s| {
      var d := Depth(s, i, k + 1, open, close);
      if count + d > 0 {
        FindCloseFrom(s, i, k + 1, count, open, close);
      }
    }
  }

  method FindEndOfExpression(s: string, from: nat, open: char, close: char) returns (e: Option<nat>)
    requires from <= |s|
    ensures e == FindClose(s, from, 1, open, close)
  {
    var count := 1;
    var p := from;
    while p < |s|
      invariant from <= p <= |s| && count >= 1
      invariant FindClose(s, from, 1, open, close) == FindClose(s, p, count, open, close)
    {
      if s[p] == open {
        count := count + 1;
      } else if s[p] == close {
        count := count - 1;
        if count == 0 {
          return Some(p + 1);
        }
      }
      p := p + 1;
    }
    return None;
  }

  // --- Operands ---

  function SkipBlanks(s: string, i: nat): (r: nat)
    requires i <= |s|
    ensures i <= r <= |s| && (r < |s| ==> s[r] > ' ')
    decreases |s| - i
  {
    if i < |s| && s[i] <= ' ' then SkipBlanks(s, i + 1) else i
  }

  predicate IsNameChar(c: char) {
    'a' <= c <= 'z' || 'A' <= c <= 'Z' || '0' <= c <= '9' || c == '_'
  }

  function NameEnd(s: string, i: nat): (r: nat)
    requires i <= |s|
    ensures i <= r <= |s|
    decreases |s| - i
  {
    if i < |s| && IsNameChar(s[i]) then NameEnd(s, i + 1) else i
  }

  function ToInteger(c: Config): Result<LongLong> {
    match c
    case Integer(v) => Ok(v)
    case Integer64(v) => Ok(v)
    case Str(s) => SafeStrToLL(s)
    case OtherNode => Err(-EINVAL)
  }

  function Variable(name: string, fcn: Expand): Result<LongLong> {
    match fcn(name)
    case Expanded(c) => ToInteger(c)
    case NoNode => Ok(0)
    case Failed(code) => Err(code)
  }

  function Finish(v: LongLong): Config {
    if v > INT_MAX || v < INT_MIN then Integer64(v) else Integer(v)
  }

  function Finished(r: Result<LongLong>): Result<Config> {
    match r
    case Ok(v) => Ok(Finish(v))
    case Err(code) => Err(code)
    case Undefined => Undefined
  }

  // --- The grammar: one operand, or operand operator operand ---

  function Eval(s: string, fcn: Expand): Result<Config>
    decreases |s|, 4
  {
    Finished(AtLeft(s, 0, fcn))
  }

  function AtLeft(s: string, i: nat, fcn: Expand): Result<LongLong>
    requires i <= |s|
    decreases |s|, 3
  {
    var i := SkipBlanks(s, i);
    if i == |s| then Err(-EINVAL)
    else match Operand(s, i, fcn)
      case Ok((left, j)) => AtOperator(s, j, left, fcn)
      case Err(code) => Err(code)
      case Undefined => Undefined
  }

  function AtOperator(s: string, i: nat, left: LongLong, fcn: Expand): Result<LongLong>
    requires i <= |s|
    decreases |s|, 2
  {
    var i := SkipBlanks(s, i);
    if i == |s| then Ok(left)
    else if !IsOperator(s[i]) then Err(-EINVAL)
    else AtRight(s, i + 1, left, s[i], fcn)
  }

  function AtRight(s: string, i: nat, left: LongLong, op: char, fcn: Expand): Result<LongLong>
    requires i <= |s|
    decreases |s|, 1
  {
    var i := SkipBlanks(s, i);
    if i == |s| then Err(-EINVAL)
    else match Operand(s, i, fcn)
      case Ok((right, j)) => AtEnd(s, j, left, op, right)
      case Err(code) => Err(code)
      case Undefined => Undefined
  }

  function AtEnd(s: string, i: nat, left: LongLong, op: char, right: LongLong): Result<LongLong>
    requires i <= |s|
  {
    if SkipBlanks(s, i) < |s| then Err(-EINVAL) else Apply(op, left, right)
  }

  /** Value of the operand at `i` and the index where the scan goes on. After a closing bracket one
      further character is dropped, whatever it is. */
  function Operand(s: string, i: nat, fcn: Expand): (r: Result<(LongLong, nat)>)
    requires i < |s|
    ensures r.Ok? ==> r.value.1 <= |s|
    decreases |s|, 0
  {
    var c := s[i];
    if c == '(' then Bracketed(s, i, 1, '(', ')', fcn)
    else if c == '$' && i + 1 < |s| && s[i + 1] == '[' then Bracketed(s, i, 2, '[', ']', fcn)
    else if c == '$' then
      var e := NameEnd(s, i + 1);
      match Variable(s[i + 1..e], fcn)
      case Ok(v) => Ok((v, e))
      case Err(code) => Err(code)
      case Undefined => Undefined
    else if c == '-' || '0' <= c <= '9' then
      var n := StrToLL(s, i);
      if n.range then Err(-ERANGE) else Ok((n.value, n.end))
    else Err(-EINVAL)
  }

  function Bracketed(s: string, i: nat, off: nat, open: char, close: char, fcn: Expand)
    : (r: Result<(LongLong, nat)>)
    requires 1 <= off && i + off <= |s|
    ensures r.Ok? ==> r.value.1 <= |s|
    decreases |s|, 0, 0
  {
    match FindClose(s, i + off, 1, open, close)
    case None => Err(-EINVAL)
    case Some(e) =>
      match Eval(s[i + off..e - 1], fcn)
      case Err(code) => Err(code)
      case Undefined => Undefined
      case Ok(c) =>
        match ToInteger(c)
        case Err(code) => Err(code)
        case Undefined => Undefined
        case Ok(v) => Ok((v, if e < |s| then e + 1 else e))
  }

  // --- The evaluator as written: one loop, advancing LEFT, OP, RIGHT, END ---

  datatype Position = LEFT | OP | RIGHT | END

  /** What is still to be computed from the loop's state. */
  ghost function Remaining(s: string, i: nat, pos: Position, left: LongLong, op: char, right: LongLong, fcn: Expand)
    : Result<LongLong>
    requires i <= |s|
  {
    match pos
    case LEFT => AtLeft(s, i, fcn)
    case OP => AtOperator(s, i, left, fcn)
    case RIGHT => AtRight(s, i, left, op, fcn)
    case END => AtEnd(s, i, left, op, right)
  }

  lemma SkipTwice(s: string, i: nat, k: nat)
    requires i <= |s| && i <= k <= SkipBlanks(s, i)
    ensures SkipBlanks(s, k) == SkipBlanks(s, i)
    decreases k - i
  {
  }

  method EvalOperand(s: string, i: nat, fcn: Expand) returns (r: Result<(LongLong, nat)>)
    requires i < |s|
    ensures r == Operand(s, i, fcn)
    decreases |s|, 0
  {
    hide Eval, Variable, ToInteger;
    var c := s[i];
    if c == '(' || (c == '$' && i + 1 < |s| && s[i + 1] == '[') {
      var off := if c == '(' then 1 else 2;
      var e := FindEndOfExpression(s, i + off, if c == '(' then '(' else '[', if c == '(' then ')' else ']');
      if e == None {
        return Err(-EINVAL);
      }
      var m := s[i + off..e.value - 1];
      var tmp := EvalString(m, fcn);
      match tmp {
        case Err(code) => return Err(code);
        case Undefined => return Undefined;
        case Ok(node) =>
          var p := e.value;
          if p < |s| {
            p := p + 1;
          }
          var v := ToInteger(node);
          match v {
            case Err(code) => return Err(code);
            case Undefined => return Undefined;
            case Ok(n) => return Ok((n, p));
          }
      }
    } else if c == '$' {
      var e := i + 1;
      while e < |s| && IsNameChar(s[e])
        invariant i + 1 <= e <= |s|
        invariant NameEnd(s, i + 1) == NameEnd(s, e)
      {
        e := e + 1;
      }
      var v := Variable(s[i + 1..e], fcn);
      match v {
        case Err(code) => return Err(code);
        case Undefined => return Undefined;
        case Ok(n) => return Ok((n, e));
      }
    } else if c == '-' || '0' <= c <= '9' {
      var n := StrToLL(s, i);
      if n.range {
        return Err(-ERANGE);
      }
      return Ok((n.value, n.end));
    } else {
      return Err(-EINVAL);
    }
  }

  method EvalString(s: string, fcn: Expand) returns (r: Result<Config>)
    ensures r == Eval(s, fcn)
    decreases |s|, 1
  {
    var p := 0;
    while p < |s| && s[p] <= ' '
      invariant p <= |s| && SkipBlanks(s, p) == SkipBlanks(s, 0)
    {
      p := p + 1;
    }
    var pos := LEFT;
    var op := '\0';
    var left: LongLong, right: LongLong := 0, 0;
    ghost var rank := 3;
    while p < |s|
      invariant p <= |s|
      invariant AtLeft(s, 0, fcn) == Remaining(s, p, pos, left, op, right, fcn)
      invariant (op == '\0') == (pos == LEFT || pos == OP)
      invariant op == '\0' || IsOperator(op)
      invariant rank == match pos case LEFT => 3 case OP => 2 case RIGHT => 1 case END => 0
      decreases rank, |s| - p
    {
      while p < |s| && s[p] <= ' '
        invariant p <= |s|
        invariant AtLeft(s, 0, fcn) == Remaining(s, p, pos, left, op, right, fcn)
      {
        SkipTwice(s, p, p + 1);
        p := p + 1;
      }
      if p == |s| {
        break;
      }
      if pos == END {
        return Err(-EINVAL);
      }
      if pos == OP {
        if !IsOperator(s[p]) {
          return Err(-EINVAL);
        }
        op := s[p];
        pos, rank := RIGHT, 1;
        p := p + 1;
        continue;
      }
      var o := EvalOperand(s, p, fcn);
      match o {
        case Err(code) => return Err(code);
        case Undefined => return Undefined;
        case Ok((v, next)) =>
          if op == '\0' {
            left := v;
            pos, rank := OP, 2;
          } else {
            right := v;
            pos, rank := END, 0;
          }
          p := next;
      }
    }
    if pos != OP && pos != END {
      return Err(-EINVAL);
    }
    if pos == END {
      var v := Apply(op, left, right);
      match v {
        case Err(code) => return Err(code);
        case Undefined => return Undefined;
        case Ok(n) => left := n;
      }
    }
    return Ok(Finish(left));
  }

  /** The entry point: `$[...]` is evaluated, any other `$name` is left to the callback. */
  function EvaluateString(s: string, fcn: Expand): Result<Option<Config>> {
    if s == "" || s[0] != '$' then Err(-EINVAL)
    else if |s| > 1 && s[1] == '[' then
      match Eval(s, fcn)
      case Ok(c) => Ok(Some(c))
      case Err(code) => Err(code)
      case Undefined => Undefined
    else
      match fcn(s[1..])
      case Expanded(c) => Ok(Some(c))
      case NoNode => Ok(None)
      case Failed(code) => Err(code)
  }
}
