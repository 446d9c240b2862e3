/** The keepalive counter that both ends run: a ping lifts it to at least 1, a tick every five seconds
    takes one off, and a tick that finds it at -5 or below ends the connection. */
module Keepalive {

  const LIMIT := -5

  datatype Beat = Ping | Tick

  function OnPing(ctr: int): int {
    (if ctr < 0 then 0 else ctr) + 1
  }

  function OnTick(ctr: int): int {
    ctr - 1
  }

  predicate TimesOut(ctr: int) {
    ctr <= LIMIT
  }

  function After(ctr: int, trace: seq<Beat>): int {
    if trace == [] then ctr
    else
      var before := After(ctr, trace[..|trace| - 1]);
      if trace[|trace| - 1] == Ping then OnPing(before) else OnTick(before)
  }

  /** Pings minus ticks. */
  function Net(trace: seq<Beat>): int {
    if trace == [] then 0
    else Net(trace[..|trace| - 1]) + if trace[|trace| - 1] == Ping then 1 else -1
  }

  /** Pings minus ticks from index `i` to the end. */
  function NetFrom(trace: seq<Beat>, i: nat): int
    requires i <= |trace|
  {
    Net(trace[i..])
  }

  lemma NetFromSnoc(trace: seq<Beat>, i: nat)
    requires i < |trace|
    ensures NetFrom(trace, i)
            == NetFrom(trace[..|trace| - 1], i) + if trace[|trace| - 1] == Ping then 1 else -1
  {
    var n := |trace| - 1;
    assert trace[i..][..n - i] == trace[..n][i..];
    assert trace[i..][n - i] == trace[n];
  }

  /** The counter in closed form: the maximum of what is left of the initial value and, for each ping,
      the balance from that ping on. */
  lemma {:induction false} ClosedForm(ctr: int, trace: seq<Beat>)
    ensures After(ctr, trace) >= ctr + NetFrom(trace, 0)
    ensures forall i :: 0 <= i < |trace| && trace[i] == Ping ==> After(ctr, trace) >= NetFrom(trace, i)
    ensures After(ctr, trace) == ctr + NetFrom(trace, 0)
            || exists i :: 0 <= i < |trace| && trace[i] == Ping && After(ctr, trace) == NetFrom(trace, i)
    decreases |trace|
  {
    if trace == [] {
      assert trace[0..] == [];
    } else {
      var n := |trace| - 1;
      var before := trace[..n];
      ClosedForm(ctr, before);
      NetFromSnoc(trace, 0);
      forall i | 0 <= i < |trace| && trace[i] == Ping ensures After(ctr, trace) >= NetFrom(trace, i) {
        NetFromSnoc(trace, i);
        if i < n { assert before[i] == Ping; }
        LastPing(trace);
      }
      LastPing(trace);
      if trace[n] == Tick || After(ctr, before) >= 0 {
        if After(ctr, before) != ctr + NetFrom(before, 0) {
          var i :| 0 <= i < n && before[i] == Ping && After(ctr, before) == NetFrom(before, i);
          NetFromSnoc(trace, i);
          assert trace[i] == Ping;
        }
      } else {
        assert trace[n] == Ping && After(ctr, trace) == NetFrom(trace, n);
      }
    }
  }

  lemma LastPing(trace: seq<Beat>)
    requires trace != []
    ensures NetFrom(trace, |trace| - 1) == if trace[|trace| - 1] == Ping then 1 else -1
  {
    NetFromSnoc(trace, |trace| - 1);
    assert trace[..|trace| - 1][|trace| - 1..] == [];
  }

  /** A tick after `trace` ends the connection exactly when the initial value has run down and, since
      every ping, ticks outnumber pings by five. */
  lemma TimeoutIff(ctr: int, trace: seq<Beat>)
    ensures TimesOut(After(ctr, trace))
            <==> ctr + NetFrom(trace, 0) <= LIMIT
                 && forall i :: 0 <= i < |trace| && trace[i] == Ping ==> NetFrom(trace, i) <= LIMIT
  {
    ClosedForm(ctr, trace);
  }

  /** A silent peer, with the counter at `ctr`, is timed out by exactly the ticks from number ctr + 6 on. */
  lemma {:induction false} SilentTimeout(ctr: int, k: nat)
    requires ctr >= LIMIT
    ensures TimesOut(After(ctr, seq(k, _ => Tick))) <==> k + 1 >= ctr + 6
    ensures After(ctr, seq(k, _ => Tick)) == ctr - k
    decreases k
  {
    if k > 0 {
      assert seq(k, _ => Tick)[..k - 1] == seq(k - 1, _ => Tick);
      SilentTimeout(ctr, k - 1);
    }
  }

  /** Between any two ticks there is a ping. */
  predicate Attentive(trace: seq<Beat>) {
    forall i :: 0 < i < |trace| && trace[i] == Tick ==> trace[i - 1] == Ping
  }

  /** Such a peer is never timed out. */
  lemma {:induction false} AttentiveNeverTimesOut(trace: seq<Beat>)
    requires Attentive(trace)
    ensures After(0, trace) >= -1 && !TimesOut(After(0, trace))
    ensures trace != [] && trace[|trace| - 1] == Ping ==> After(0, trace) >= 1
    decreases |trace|
  {
    if trace != [] { AttentiveNeverTimesOut(trace[..|trace| - 1]); }
  }
}
