/** The keepalive counter inside the server: over every run it is what the counting rules make of the pings read
    and the heartbeats flushed since the session began. */
module ServerBeats {
  import opened ServerSpec
  import opened ServerRuns
  import opened Wrappers
  import K = Keepalive

  /** The session reads a ping, has flushed a heartbeat, or makes way for a new one. */
  predicate ReadsPing(s: Server, e: Event) {
    s.place.Reading? && e.Session? && !e.w.raises && e.w.command == 'p'
  }

  predicate Beats(s: Server, e: Event) {
    s.place.DrainPing? && e.Session? && !e.w.raises
  }

  predicate Begins(s: Server, e: Event) {
    (s.place.Done? || s.place.Crashed?) && e.Session?
  }

  /** Pings and heartbeats of the session that is on before event `n`, in order. */
  function Trace(states: seq<Server>, events: seq<Event>, n: nat): seq<K.Beat>
    requires n <= |events| < |states|
  {
    if n == 0 then []
    else
      var s, e := states[n - 1], events[n - 1];
      if Begins(s, e) then []
      else Trace(states, events, n - 1)
           + if ReadsPing(s, e) then [K.Ping] else if Beats(s, e) then [K.Tick] else []
  }

  /** One event's effect on the counter and on the decision to close. */
  lemma StepCounts(s: Server, e: Event)
    requires Known(s.procs)
    ensures var t := Next(s, e).s;
            t.keepalive == (if Begins(s, e) then 0 else if ReadsPing(s, e) then K.OnPing(s.keepalive)
                            else if Beats(s, e) then K.OnTick(s.keepalive) else s.keepalive)
            && t.closing == (if Begins(s, e) then false else if Beats(s, e) then s.closing || K.TimesOut(s.keepalive)
                             else s.closing)
            && (Beats(s, e) && t.closing ==> t.place.Leaving?)
  {
    hide StopProc, StopAudio, StartVideo, StartAudio, Supervise, Known;
  }

  /** A session in its loop has not decided to close. */
  predicate Open(s: Server) {
    s.closing ==> s.place.Leaving? || s.place.Done? || s.place.Crashed?
  }

  lemma StepOpen(s: Server, e: Event)
    requires Known(s.procs) && Open(s)
    ensures Open(Next(s, e).s)
  {
    hide StopProc, StopAudio, StartVideo, StartAudio, Supervise, Known;
  }

  lemma Step(states: seq<Server>, events: seq<Event>, n: nat)
    requires Behaviour(states, events) && n < |events| < |states|
    ensures Inv(states[n]) && Known(states[n].procs) && states[n + 1] == Next(states[n], events[n]).s
  {
    hide Next, Inv;
    RunInv(states, events, n);
    assert Known(states[n].procs) by { CallPlaces(states[n]); }
  }

  lemma First(states: seq<Server>, events: seq<Event>)
    requires Behaviour(states, events)
    ensures |states| == |events| + 1 && states[0].keepalive == 0 && !states[0].closing
  {
  }

  /** Over every run the counter is what the rules make of the session's pings and heartbeats. */
  lemma {:induction false} CounterIsTrace(states: seq<Server>, events: seq<Event>, n: nat)
    requires Behaviour(states, events) && n < |states|
    ensures |states| == |events| + 1
    ensures states[n].keepalive == K.After(0, Trace(states, events, n)) && Open(states[n])
    decreases n
  {
    hide Behaviour, Next, Inv, ReadsPing, Beats, Begins, Open;
    First(states, events);
    if n == 0 {
      assert Open(states[0]) by { StartsOpen(states[0]); }
    } else {
      CounterIsTrace(states, events, n - 1);
      Step(states, events, n - 1);
      StepCounts(states[n - 1], events[n - 1]);
      StepOpen(states[n - 1], events[n - 1]);
      var before := Trace(states, events, n - 1);
      assert before + [] == before;
      assert (before + [K.Ping])[..|before|] == before && (before + [K.Tick])[..|before|] == before;
    }
  }

  lemma StartsOpen(s: Server)
    requires !s.closing
    ensures Open(s)
  {
  }

  /** A session decides to close only when it has flushed a heartbeat, and then exactly if its trace has run down:
      ticks outnumber pings by five, in all and since every ping. */
  lemma ClosesIff(states: seq<Server>, events: seq<Event>, n: nat)
    requires Behaviour(states, events) && n < |events|
    ensures |states| == |events| + 1
    ensures var trace := Trace(states, events, n);
            Beats(states[n], events[n]) ==>
              (states[n + 1].closing
               <==> K.NetFrom(trace, 0) <= -5
                    && forall i :: 0 <= i < |trace| && trace[i] == K.Ping ==> K.NetFrom(trace, i) <= -5)
              && (states[n + 1].closing ==> states[n + 1].place.Leaving?)
    ensures states[n + 1].closing && !states[n].closing ==> Beats(states[n], events[n])
  {
    hide Behaviour, Next, Inv, ReadsPing, Trace, K.After, K.Net;
    First(states, events);
    CounterIsTrace(states, events, n);
    Step(states, events, n);
    StepCounts(states[n], events[n]);
    K.TimeoutIff(0, Trace(states, events, n));
  }

  /** A client of which a ping is read between any two heartbeats is never given up. */
  lemma {:induction false} AttentiveClient(states: seq<Server>, events: seq<Event>, n: nat)
    requires Behaviour(states, events) && n < |states|
    ensures |states| == |events| + 1
    ensures K.Attentive(Trace(states, events, n)) ==> !states[n].closing
    decreases n
  {
    hide Behaviour, Next, Inv, ReadsPing, Beats, Begins, Open, K.After, K.TimesOut, K.Attentive;
    First(states, events);
    if n > 0 {
      AttentiveClient(states, events, n - 1);
      CounterIsTrace(states, events, n - 1);
      Step(states, events, n - 1);
      StepCounts(states[n - 1], events[n - 1]);
      var before := Trace(states, events, n - 1);
      AttentivePrefix(before, K.Ping);
      AttentivePrefix(before, K.Tick);
      assert before + [] == before;
      if K.Attentive(before) { K.AttentiveNeverTimesOut(before); }
    }
  }

  lemma AttentivePrefix(trace: seq<K.Beat>, b: K.Beat)
    ensures K.Attentive(trace + [b]) ==> K.Attentive(trace)
  {
    forall i | 0 < i < |trace| && K.Attentive(trace + [b]) && trace[i] == K.Tick ensures trace[i - 1] == K.Ping {
      assert (trace + [b])[i] == trace[i] && (trace + [b])[i - 1] == trace[i - 1];
    }
  }
}
