/** The filter chain option: a string cut in place into filter names and arguments. The separators are
    overwritten in the very buffer that is being scanned. */
module FilterChain {

  /** Length of the longest prefix of s[i..] without `c` or NUL: strcspn. */
  function Span(s: seq<char>, i: nat, c: char): (n: nat)
    requires i <= |s|
    ensures i + n <= |s|
    ensures forall k :: i <= k < i + n ==> s[k] != c && s[k] != '\0'
    ensures i + n < |s| ==> s[i + n] == c || s[i + n] == '\0'
    decreases |s| - i
  {
    if i < |s| && s[i] != c && s[i] != '\0' then 1 + Span(s, i + 1, c) else 0
  }

  /** The string `t` can be read at index `i`. */
  predicate Reads(b: seq<char>, i: nat, t: string) {
    i + |t| < |b| && b[i + |t|] == '\0' && forall k :: 0 <= k < |t| ==> t[k] == b[i + k] && t[k] != '\0'
  }

  /** A filter call: its name and arguments. */
  datatype Call = Call(name: string, args: string)

  /** The first `:` separates name and arguments. */
  function Parse(token: string): Call {
    var k := Span(token, 0, ':');
    Call(token[..k], if k < |token| then token[k + 1..] else "")
  }

  /** The tokens between slashes; an empty one at the very end is dropped. */
  function Tokens(s: string): seq<string>
    decreases |s|
  {
    if s == "" then []
    else
      var k := Span(s, 0, '/');
      [s[..k]] + Tokens(if k < |s| then s[k + 1..] else "")
  }

  function Calls(tokens: seq<string>): (c: seq<Call>)
    ensures |c| == |tokens| && forall i :: 0 <= i < |c| ==> c[i] == Parse(tokens[i])
  {
    if tokens == [] then [] else [Parse(tokens[0])] + Calls(tokens[1..])
  }

  function Join(tokens: seq<string>): string {
    if tokens == [] then "" else if |tokens| == 1 then tokens[0] else tokens[0] + "/" + Join(tokens[1..])
  }

  /** The rest of a string after its first token and slash. */
  function Rest(s: string): string {
    var k := Span(s, 0, '/');
    if k < |s| then s[k + 1..] else ""
  }

  function First(s: string): string {
    s[..Span(s, 0, '/')]
  }

  lemma TokensCons(s: string)
    requires s != ""
    ensures Tokens(s) == [First(s)] + Tokens(Rest(s)) && |Rest(s)| < |s|
  {
  }

  function TrailingSlash(s: string): string {
    if s != "" && s[|s| - 1] == '/' then "/" else ""
  }

  /** What the tokens are: no slash inside, and joined by slashes they give back the string, less one
      slash at its end. */
  lemma {:induction false} TokensJoin(s: string)
    requires forall i :: 0 <= i < |s| ==> s[i] != '\0'
    ensures forall i :: 0 <= i < |Tokens(s)| ==> '/' !in Tokens(s)[i]
    ensures s == Join(Tokens(s)) + TrailingSlash(s)
    ensures Tokens(s) == [] <==> s == ""
    decreases |s|
  {
    if s != "" {
      assert Tokens("") == [];
      hide Span, First, Rest, Tokens, Join, TrailingSlash;
      TokensCons(s);
      TokensJoin(Rest(s));
      FirstAndRest(s);
      var token, tokens, tail := First(s), Tokens(Rest(s)), TrailingSlash(s);
      JoinCons(token, tokens);
      assert tokens != [] ==> (token + "/" + Join(tokens)) + tail == token + "/" + (Join(tokens) + tail);
    }
  }

  lemma FirstAndRest(s: string)
    requires s != "" && forall i :: 0 <= i < |s| ==> s[i] != '\0'
    ensures '/' !in First(s)
    ensures if Rest(s) == "" then s == First(s) + TrailingSlash(s)
            else s == First(s) + "/" + Rest(s) && TrailingSlash(s) == TrailingSlash(Rest(s)) && Tokens(Rest(s)) != []
  {
    var k := Span(s, 0, '/');
    if k < |s| { assert s == s[..k] + "/" + s[k + 1..]; } else { assert s[..k] == s; }
  }

  lemma JoinCons(token: string, tokens: seq<string>)
    ensures Join([token] + tokens) == if tokens == [] then token else token + "/" + Join(tokens)
  {
    assert ([token] + tokens)[1..] == tokens;
  }

  /** What a call is: its name has no colon, and the token is the name alone or name, colon, arguments. */
  lemma ParseSplits(token: string)
    requires forall i :: 0 <= i < |token| ==> token[i] != '\0'
    ensures var c := Parse(token);
            ':' !in c.name
            && ((token == c.name && c.args == "") || token == c.name + ":" + c.args)
            && (':' in token ==> token == c.name + ":" + c.args)
  {
    var k := Span(token, 0, ':');
    if k < |token| { assert token == token[..k] + ":" + token[k + 1..]; } else { assert token[..k] == token; }
  }

  // --- The loop as written ---

  /** The two pointers passed to a filter read as the call's strings, before index `end`. */
  predicate Holds(b: seq<char>, p: (nat, nat), c: Call, end: nat) {
    Reads(b, p.0, c.name) && Reads(b, p.1, c.args) && p.0 + |c.name| < end && p.1 + |c.args| < end
  }

  /** Writing at or after `end`, or a NUL over a NUL, leaves earlier calls readable. */
  lemma HoldsKept(b: seq<char>, d: seq<char>, p: (nat, nat), c: Call, end: nat, later: nat)
    requires Holds(b, p, c, end) && |d| == |b| && end <= |b| && end <= later
    requires forall k :: 0 <= k < end ==> d[k] == b[k]
    ensures Holds(d, p, c, later)
  {
  }

  lemma ReadsKept(b: seq<char>, d: seq<char>, i: nat, t: string)
    requires Reads(b, i, t) && |d| == |b|
    requires forall k :: i <= k <= i + |t| ==> d[k] == b[k]
    ensures Reads(d, i, t)
  {
  }

  /** Writes a NUL over the slash that ends the token at `p`. */
  method EndToken(a: array<char>, p: nat, ghost rest: string) returns (tokLen: nat)
    requires Reads(a[..], p, rest)
    modifies a
    ensures tokLen == Span(rest, 0, '/') && Reads(a[..], p, First(rest))
    ensures tokLen == |First(rest)| <= |rest|
    ensures if tokLen < |rest| then tokLen + 1 + |Rest(rest)| == |rest| && Reads(a[..], p + tokLen + 1, Rest(rest))
            else Rest(rest) == ""
    ensures forall i :: 0 <= i < a.Length && i != p + tokLen ==> a[i] == old(a[i])
  {
    tokLen := Strcspn(a, p, '/', rest);
    ghost var first, after := First(rest), Rest(rest);
    assert |first| == tokLen && forall i :: 0 <= i < |first| ==> first[i] == rest[i];
    assert tokLen < |rest| ==> tokLen + 1 + |after| == |rest|;
    assert forall i :: 0 <= i < |after| ==> after[i] == rest[tokLen + 1 + i];
    hide Span, First, Rest;
    a[p + tokLen] := '\0';
  }

  /** Writes a NUL over the colon that ends the name of the token at `p`. */
  method EndName(a: array<char>, p: nat, ghost token: string, tokLen: nat) returns (args: nat)
    requires Reads(a[..], p, token) && tokLen == |token|
    modifies a
    ensures args <= p + tokLen
    ensures Reads(a[..], p, Parse(token).name) && Reads(a[..], args, Parse(token).args)
    ensures |Parse(token).name| <= tokLen && args + |Parse(token).args| == p + tokLen
    ensures forall i :: 0 <= i < a.Length && !(p <= i < p + tokLen) ==> a[i] == old(a[i])
  {
    hide Span;
    var nameLen := Strcspn(a, p, ':', token);
    ghost var was, c := a[..], Parse(token);
    assert |c.name| == nameLen && forall i :: 0 <= i < |c.name| ==> c.name[i] == token[i];
    assert forall i :: 0 <= i < |c.args| ==> c.args[i] == token[nameLen + 1 + i];
    assert nameLen < tokLen ==> nameLen + 1 + |c.args| == tokLen;
    assert nameLen == tokLen ==> c.args == "";
    hide Parse;
    a[p + nameLen] := '\0';
    args := p + nameLen + if nameLen != tokLen then 1 else 0;
    assert forall i :: 0 <= i < |c.args| ==> a[args + i] == was[args + i] == c.args[i];
  }

  /** Cuts one token off at `p`. Returns the two pointers and the next position. */
  method CutToken(a: array<char>, p: nat, ghost rest: string)
    returns (call: (nat, nat), next: nat)
    requires rest != "" && Reads(a[..], p, rest)
    modifies a
    ensures next + |Rest(rest)| == p + |rest| && Reads(a[..], next, Rest(rest))
    ensures Holds(a[..], call, Parse(First(rest)), if next < p + |rest| then next else p + |rest| + 1)
    ensures forall i :: 0 <= i < a.Length && i < p ==> a[i] == old(a[i])
  {
    hide Span, Parse, First, Rest;
    var pLen := Strlen(a, p, rest);
    var tokLen := EndToken(a, p, rest);
    ghost var was := a[..];
    var args := EndName(a, p, First(rest), tokLen);
    call := (p, args);
    next := p + if tokLen + 1 < pLen then tokLen + 1 else pLen;
    if tokLen < |rest| {
      ReadsKept(was, a[..], p + tokLen + 1, Rest(rest));
    }
  }

  method Strcspn(a: array<char>, p: nat, c: char, ghost s: string) returns (n: nat)
    requires Reads(a[..], p, s) && c != '\0'
    ensures n == Span(s, 0, c)
  {
    n := 0;
    while a[p + n] != c && a[p + n] != '\0'
      invariant n <= |s| && n + Span(s, n, c) == Span(s, 0, c)
      decreases |s| - n
    {
      assert n < |s| ==> s[n] == a[p + n];
      n := n + 1;
    }
    assert n < |s| ==> s[n] == a[p + n];
  }

  method Strlen(a: array<char>, p: nat, ghost s: string) returns (n: nat)
    requires Reads(a[..], p, s)
    ensures n == |s|
  {
    n := 0;
    while a[p + n] != '\0'
      invariant n <= |s| && (n < |s| ==> a[p + n] == s[n])
      decreases |s| - n
    {
      n := n + 1;
    }
  }

  /** All the calls made so far still read as they should. */
  predicate AllHold(b: seq<char>, calls: seq<(nat, nat)>, tokens: seq<string>, end: nat) {
    |calls| == |tokens| && forall i :: 0 <= i < |calls| ==> Holds(b, calls[i], Parse(tokens[i]), end)
  }

  lemma AllHoldKept(b: seq<char>, d: seq<char>, calls: seq<(nat, nat)>, tokens: seq<string>, end: nat, later: nat)
    requires AllHold(b, calls, tokens, end) && |d| == |b| && end <= |b| && end <= later
    requires forall k :: 0 <= k < end ==> d[k] == b[k]
    ensures AllHold(d, calls, tokens, later)
  {
    forall i | 0 <= i < |calls| ensures Holds(d, calls[i], Parse(tokens[i]), later) {
      HoldsKept(b, d, calls[i], Parse(tokens[i]), end, later);
    }
  }

  /** The loop over the chain. `failing` is the number of the filter call that fails, if it is reached.
      The pointers passed to each filter still read as its name and arguments when the loop is done. */
  method ParseChain(a: array<char>, ghost s: string, failing: nat)
    returns (calls: seq<(nat, nat)>, ok: bool)
    requires Reads(a[..], 0, s)
    modifies a
    ensures var wanted := Calls(Tokens(s));
            ok == (failing >= |wanted|)
            && |calls| == (if ok then |wanted| else failing + 1)
            && forall i :: 0 <= i < |calls| ==> Holds(a[..], calls[i], wanted[i], |s| + 1)
  {
    hide Holds, AllHold, Tokens, First, Rest, Parse, Calls, Span;
    NoTokens(a[..], if |s| > 0 then 0 else 1);
    calls, ok := [], true;
    var p: nat := 0;
    ghost var rest, done := s, [];
    ghost var end: nat := if |s| > 0 then 0 else 1;
    while a[p] != '\0' && ok
      invariant Reads(a[..], p, rest) && p + |rest| == |s| && end == if p < |s| then p else |s| + 1
      invariant done + Tokens(rest) == Tokens(s) && |calls| == |done|
      invariant AllHold(a[..], calls, done, end)
      invariant if ok then |calls| <= failing else |calls| == failing + 1
      decreases |rest|
    {
      calls, p, rest, done, end := ChainTurn(a, p, s, rest, calls, done);
      ok := |calls| <= failing;
    }
    assert |rest| > 0 ==> rest[0] == a[p];
    AllHoldKept(a[..], a[..], calls, done, end, |s| + 1);
    AllHoldWanted(a[..], calls, done, Tokens(rest), |s| + 1);
    SomeTokens(rest);
  }

  lemma NoTokens(b: seq<char>, end: nat)
    ensures Tokens("") == [] && AllHold(b, [], [], end)
  {
  }

  lemma SomeTokens(s: string)
    ensures Tokens(s) == [] <==> s == ""
  {
    if s != "" { TokensCons(s); }
  }

  lemma AllHoldWanted(b: seq<char>, calls: seq<(nat, nat)>, done: seq<string>, more: seq<string>, end: nat)
    requires AllHold(b, calls, done, end)
    ensures forall i :: 0 <= i < |calls| ==> Holds(b, calls[i], Calls(done + more)[i], end)
  {
    assert forall i :: 0 <= i < |done| ==> (done + more)[i] == done[i];
  }

  /** One turn of the loop. */
  method ChainTurn(a: array<char>, p: nat, ghost s: string, ghost rest: string, calls: seq<(nat, nat)>,
                   ghost done: seq<string>)
    returns (calls': seq<(nat, nat)>, next: nat, ghost rest': string, ghost done': seq<string>, ghost end: nat)
    requires rest != "" && Reads(a[..], p, rest) && p + |rest| == |s|
    requires AllHold(a[..], calls, done, p)
    modifies a
    ensures Reads(a[..], next, rest') && next + |rest'| == |s| && |rest'| < |rest|
    ensures end == if next < |s| then next else |s| + 1
    ensures done' + Tokens(rest') == done + Tokens(rest) && |calls'| == |calls| + 1 && |done'| == |done| + 1
    ensures AllHold(a[..], calls', done', end)
  {
    ghost var was := a[..];
    TokensCons(rest);
    var call;
    call, next := CutToken(a, p, rest);
    end := if next < |s| then next else |s| + 1;
    AllHoldKept(was, a[..], calls, done, p, end);
    calls', rest', done' := calls + [call], Rest(rest), done + [First(rest)];
    hide Holds, Tokens, First, Rest, Parse, Reads;
  }
}
