/** The keepalive counter inside the client: over every run it is what the counting rules make of the pings heard
    and the ticks counted since the connection was made. */
module ClientBeats {
  import opened ClientSpec
  import opened ClientOutcomes
  import K = Keepalive

  /** The client after the key, and after the socket, of a turn. */
  function AfterKey(c: Client, i: Input): Client {
    if i.key.Pressed? then OnKey(c, i.key.key, i.keyOk) else c
  }

  function AfterSocket(c: Client, i: Input): Client {
    OnSocket(AfterKey(c, i), i.socket, i.replyOk, i.pid)
  }

  predicate HearsPing(c: Client, i: Input) {
    var k := AfterKey(c, i);
    k.mode != NO_CONNECTION && k.sock != NONE && i.socket.Data? && i.socket.b0 == 'p'
  }

  predicate Ticks(c: Client, i: Input) {
    var s := AfterSocket(c, i);
    i.clock.ping && s.mode != NO_CONNECTION && s.mode != NO_INTERNET
  }

  /** An attempt to connect succeeds. */
  predicate Connects(c: Client, i: Input) {
    var s := AfterSocket(c, i);
    s.mode == NO_CONNECTION && s.connecting && s.sock != NONE && !i.clock.reconnect && i.clock.poll == Ready
  }

  /** Pings heard and ticks counted since the last connection, before turn `n` and up to its timers. */
  function Trace(states: seq<Client>, inputs: seq<Input>, n: nat): seq<K.Beat>
    requires n <= |inputs| < |states|
    decreases n, 0
  {
    if n == 0 then []
    else if Connects(states[n - 1], inputs[n - 1]) then []
    else AtTimers(states, inputs, n - 1) + if Ticks(states[n - 1], inputs[n - 1]) then [K.Tick] else []
  }

  function AtTimers(states: seq<Client>, inputs: seq<Input>, n: nat): seq<K.Beat>
    requires n < |inputs| < |states|
    decreases n, 1
  {
    Trace(states, inputs, n) + if HearsPing(states[n], inputs[n]) then [K.Ping] else []
  }

  lemma KeyCounts(c: Client, key: Key, ok: bool)
    ensures OnKey(c, key, ok).keepalive == c.keepalive
  {
    forall d, m ensures SwitchMode(d, m).keepalive == d.keepalive { SwitchTo(d, m); }
    hide SwitchMode;
  }

  lemma SocketCounts(c: Client, e: SocketEvent, ok: bool, pid: int)
    ensures OnSocket(c, e, ok, pid).keepalive
            == if c.mode != NO_CONNECTION && c.sock != NONE && e.Data? && e.b0 == 'p' then K.OnPing(c.keepalive)
               else c.keepalive
  {
    hide SwitchMode, OnMessage;
    SwitchTo(c, NO_CONNECTION);
    if e.Data? { OtherOutcome(c, e.b0, e.b1, ok, pid); }
  }

  lemma TimerCounts(c: Client, t: Clock, ok: bool)
    ensures OnTimer(c, t, ok).keepalive
            == if c.mode == NO_CONNECTION then
                 if !t.reconnect && c.connecting && c.sock != NONE && t.poll == Ready then 0 else c.keepalive
               else if t.ping && c.mode != NO_INTERNET then K.OnTick(c.keepalive) else c.keepalive
  {
    forall d, m ensures SwitchMode(d, m).keepalive == d.keepalive { SwitchTo(d, m); }
    hide SwitchMode;
  }

  lemma TurnCounts(c: Client, i: Input)
    ensures var heard := if HearsPing(c, i) then K.OnPing(c.keepalive) else c.keepalive;
            AfterSocket(c, i).keepalive == heard
            && Turn(c, i) == OnTimer(AfterSocket(c, i), i.clock, i.pingOk)
            && Turn(c, i).keepalive == if Connects(c, i) then 0 else if Ticks(c, i) then K.OnTick(heard) else heard
  {
    hide OnKey, OnSocket, OnTimer, SwitchMode, K.OnPing, K.OnTick;
    if i.key.Pressed? { KeyCounts(c, i.key.key, i.keyOk); }
    SocketCounts(AfterKey(c, i), i.socket, i.replyOk, i.pid);
    TimerCounts(AfterSocket(c, i), i.clock, i.pingOk);
  }

  lemma First(states: seq<Client>, inputs: seq<Input>)
    requires Behaviour(states, inputs)
    ensures |states| == |inputs| + 1 && states[0].keepalive == 0
  {
    SwitchTo(Client(IDLE_SCROFF, NONE, NONE, NONE, 0, false, []), NO_CONNECTION);
    hide SwitchMode;
  }

  lemma Step(states: seq<Client>, inputs: seq<Input>, n: nat)
    requires Behaviour(states, inputs) && n < |inputs| < |states|
    ensures states[n + 1] == Turn(states[n], inputs[n])
  {
    hide Turn;
  }

  lemma AfterSnoc(trace: seq<K.Beat>)
    ensures K.After(0, trace + [K.Ping]) == K.OnPing(K.After(0, trace))
    ensures K.After(0, trace + [K.Tick]) == K.OnTick(K.After(0, trace))
  {
    assert (trace + [K.Ping])[..|trace|] == trace && (trace + [K.Tick])[..|trace|] == trace;
  }

  /** Over every run the counter is what the rules make of the pings heard and the ticks counted. */
  lemma {:induction false} CounterIsTrace(states: seq<Client>, inputs: seq<Input>, n: nat)
    requires Behaviour(states, inputs) && n < |states|
    ensures |states| == |inputs| + 1
    ensures states[n].keepalive == K.After(0, Trace(states, inputs, n))
    decreases n
  {
    hide Behaviour, Turn, K.OnPing, K.OnTick, HearsPing, Ticks, Connects, AfterSocket;
    First(states, inputs);
    if n > 0 {
      CounterIsTrace(states, inputs, n - 1);
      Step(states, inputs, n - 1);
      TurnCounts(states[n - 1], inputs[n - 1]);
      var before, heard := Trace(states, inputs, n - 1), AtTimers(states, inputs, n - 1);
      AfterSnoc(before);
      AfterSnoc(heard);
      assert before + [] == before && heard + [] == heard;
      hide K.After;
    }
  }

  /** A connected client whose tick is due, with a working send, gives up exactly if its trace has run down; in
      particular never on a server of which it hears a ping between any two ticks. */
  lemma GivesUpIff(states: seq<Client>, inputs: seq<Input>, n: nat)
    requires Behaviour(states, inputs) && n < |inputs| < |states|
    requires Ticks(states[n], inputs[n]) && inputs[n].pingOk && AfterSocket(states[n], inputs[n]).sock != NONE
    ensures var trace := AtTimers(states, inputs, n);
            (states[n + 1].mode == NO_CONNECTION
             <==> K.NetFrom(trace, 0) <= -5
                  && forall i :: 0 <= i < |trace| && trace[i] == K.Ping ==> K.NetFrom(trace, i) <= -5)
            && (K.Attentive(trace) ==> states[n + 1].mode != NO_CONNECTION)
  {
    hide Behaviour, Turn, K.OnPing, K.OnTick, K.Net, K.Attentive, HearsPing, Connects, AfterSocket, Trace;
    var c, i := states[n], inputs[n];
    CounterIsTrace(states, inputs, n);
    Step(states, inputs, n);
    TurnCounts(c, i);
    AfterSnoc(Trace(states, inputs, n));
    var trace := AtTimers(states, inputs, n);
    assert Trace(states, inputs, n) + [] == Trace(states, inputs, n);
    assert AfterSocket(c, i).keepalive == K.After(0, trace);
    K.TimeoutIff(0, trace);
    if K.Attentive(trace) { K.AttentiveNeverTimesOut(trace); }
    hide K.After;
    EndsIf(AfterSocket(c, i), i.clock);
  }

  lemma EndsIf(c: Client, t: Clock)
    requires c.sock != NONE && t.ping && c.mode != NO_CONNECTION && c.mode != NO_INTERNET
    ensures OnTimer(c, t, true).mode == NO_CONNECTION <==> K.TimesOut(c.keepalive)
  {
  }
}
