/** Two ways in which the server's sessions go wrong over whole runs: a failed restart that ends the next
    session, and an exception while the audio endpoint is being opened that ends every later one. */
module ServerFailures {
  import opened ServerSpec
  import opened ServerRuns
  import opened Wrappers

  // --- A placeholder left behind ---

  /** Between sessions, or at the start of one, with the placeholder of an endpoint that was never opened. */
  predicate Stuck(s: Server) {
    s.procs.local.Placeholder? && (s.place.Crashed? || s.place.Entering?)
  }

  /** An exception arrives while the endpoint is being opened. */
  predicate OpeningRaises(s: Server, e: Event) {
    s.place.Opening? && e.Session? && e.w.raises
  }

  /** Where the placeholder can be. */
  lemma Placeholders(s: Server)
    requires Inv(s)
    ensures Known(s.procs) && Sound(s.procs)
    ensures s.place.Opening? ==> s.procs.local.Placeholder?
    ensures s.procs.local.Placeholder? ==> s.place.Opening? || Stuck(s)
  {
    hide Sound;
    assert Known(s.procs) by { SoundKnown(s.procs); }
  }

  /** Only such an exception gets the server stuck, and nothing gets it out. */
  lemma StepStuckIff(s: Server, e: Event)
    requires Inv(s)
    ensures Stuck(Next(s, e).s) <==> Stuck(s) || OpeningRaises(s, e)
    ensures Stuck(s) ==> Next(s, e).out == []
  {
    Placeholders(s);
    NextInv(s, e);
    Placeholders(Next(s, e).s);
    match e
    case Session(w) => ResumeStuck(s, w);
    case Supervisor(stream) =>
      hide Supervise, Inv, Sound;
      SuperviseSound(s.procs, stream);
    case Exit(_) =>
  }

  lemma ResumeStuck(s: Server, w: Wake)
    requires Inv(s) && Sound(s.procs)
    requires s.place.Opening? ==> s.procs.local.Placeholder?
    requires s.procs.local.Placeholder? ==> s.place.Opening? || Stuck(s)
    requires var t := Resume(s, w).s; t.procs.local.Placeholder? ==> t.place.Opening? || Stuck(t)
    ensures Stuck(Resume(s, w).s) <==> Stuck(s) || OpeningRaises(s, Session(w))
    ensures Stuck(s) ==> Resume(s, w).out == []
  {
    hide Inv, Sound, StopProc, StopAudio, StartAudio, StartVideo;
    SoundKnown(s.procs);
    StopProcCompletesIff(s.procs);
    StopSound(s.procs);
    StartSound(s.procs);
    StopAudioSound(s.procs);
    StartSound(StopAudio(s.procs).p);
  }

  /** Such an exception has come at one of the first `n` events. */
  predicate OpeningRaised(states: seq<Server>, events: seq<Event>, n: nat)
    requires n <= |events| < |states|
  {
    exists m :: 0 <= m < n && OpeningRaises(states[m], events[m])
  }

  lemma RaisedNext(states: seq<Server>, events: seq<Event>, n: nat)
    requires 0 < n <= |events| < |states|
    ensures OpeningRaised(states, events, n)
            <==> OpeningRaised(states, events, n - 1) || OpeningRaises(states[n - 1], events[n - 1])
  {
    hide OpeningRaises;
    if OpeningRaises(states[n - 1], events[n - 1]) {
      assert 0 <= n - 1 < n;
    }
  }

  /** Over every run: the server is stuck exactly when an exception has ever come while an endpoint was being
      opened. From then on no session gets past its first step, and no client hears anything. */
  lemma {:induction false} StuckIffOpeningRaised(states: seq<Server>, events: seq<Event>, n: nat)
    requires Behaviour(states, events) && n < |states|
    ensures |states| == |events| + 1
    ensures Stuck(states[n]) <==> OpeningRaised(states, events, n)
    decreases n
  {
    if n > 0 {
      hide *;
      Moves(states, events, n - 1);
      var s, e := states[n - 1], events[n - 1];
      StuckIffOpeningRaised(states, events, n - 1);
      RunInv(states, events, n - 1);
      Placeholders(s);
      StepStuckIff(s, e);
      RaisedNext(states, events, n);
    } else {
      NotStuckYet(states, events);
    }
  }

  lemma NotStuckYet(states: seq<Server>, events: seq<Event>)
    requires Behaviour(states, events)
    ensures |states| == |events| + 1 && !Stuck(states[0]) && !OpeningRaised(states, events, 0)
  {
  }

  lemma StuckSaysNothing(states: seq<Server>, events: seq<Event>, m: nat, n: nat)
    requires Behaviour(states, events) && m < n < |events| && OpeningRaises(states[m], events[m])
    ensures Known(states[n].procs) && Stuck(states[n]) && Next(states[n], events[n]).out == []
  {
    assert n < |states|;
    hide Behaviour, Next, Inv, Stuck, OpeningRaises;
    StuckIffOpeningRaised(states, events, n);
    assert OpeningRaised(states, events, n);
    RunInv(states, events, n);
    Placeholders(states[n]);
    StepStuckIff(states[n], events[n]);
  }

  // --- A failed restart ---

  const CALM := Wake(false, true, 'r', true, Calm, false, false)
  const LOST := Wake(false, true, 'r', true, Offline, false, false)

  /** A client asks for the stream on a quiet line, ... */
  function StreamRequested(): seq<Event> {
    seq(10, _ => Session(CALM))
  }

  /** ... one of the two video processes exits, the supervisor finds no stream, and the line is lost. */
  function RestartFails(): seq<Event> {
    StreamRequested() + [Exit(0), Supervisor(false), Session(LOST)]
  }

  /** That run ends in a crash, without any exception from outside, and with the video handle still set. */
  lemma FailedRestartReached() returns (states: seq<Server>)
    ensures Behaviour(states, RestartFails()) && |RestartFails()| == 13
    ensures states[13].place == Crashed && states[13].procs.video == Pair(0, 1)
    ensures forall e :: e in RestartFails() && e.Session? ==> !e.w.raises
  {
    hide Next, Behaviour, RestartFails;
    states := RunOf(RestartFails());
    Steps();
    CalmRun(states, 10);
    Moves(states, RestartFails(), 10);
    Moves(states, RestartFails(), 11);
    Moves(states, RestartFails(), 12);
    Restarted();
  }

  lemma Steps()
    ensures |RestartFails()| == 13
    ensures forall n :: 0 <= n < 10 ==> RestartFails()[n] == Session(CALM)
    ensures RestartFails()[10..] == [Exit(0), Supervisor(false), Session(LOST)]
    ensures RestartFails()[10] == Exit(0) && RestartFails()[11] == Supervisor(false)
    ensures RestartFails()[12] == Session(LOST)
    ensures forall e :: e in RestartFails() && e.Session? ==> !e.w.raises
  {
  }

  lemma Moves(states: seq<Server>, events: seq<Event>, n: nat)
    requires Behaviour(states, events) && n < |events|
    ensures |states| == |events| + 1 && states[0] == Initial()
    ensures Known(states[n].procs) ==> states[n + 1] == Next(states[n], events[n]).s
  {
    hide Next;
  }

  /** The server after `n` of the first ten awaits. */
  function Calmly(n: nat): Server
    requires n <= 10
  {
    var none, two := Procs([], NoVideo, NoAudio, NoLocal), Procs([Running, Running], Pair(0, 1), NoAudio, NoLocal);
    match n
    case 0 => Initial()
    case 1 => Server(DrainEnd, none, Offline, None, 0, false)
    case 2 => Server(DrainFirst, none, Offline, Some(Offline), 0, false)
    case 3 => Server(Polling, none, Offline, Some(Offline), 0, false)
    case 4 => Server(Reading, none, Offline, Some(Offline), 0, false)
    case 5 => Server(Asking, none, Offline, Some(Offline), 0, false)
    case 6 => Server(DrainStatus(Calm), none, Offline, Some(Calm), 0, false)
    case 7 => Server(Polling, none, Calm, Some(Calm), 0, false)
    case 8 => Server(Reading, none, Calm, Some(Calm), 0, false)
    case 9 => Server(DrainVideo, two, Calm, Some(Calm), 0, false)
    case _ =>
      var three := Procs([Running, Running, Running], Pair(0, 1), One(2), NoLocal);
      Server(Asking, three, Calm, Some(Calm), 0, false)
  }

  lemma CalmStep(n: nat)
    requires n < 10
    ensures Known(Calmly(n).procs) && Resume(Calmly(n), CALM).s == Calmly(n + 1)
  {
  }

  lemma {:induction false} CalmRun(states: seq<Server>, n: nat)
    requires Behaviour(states, RestartFails()) && n <= 10
    ensures |states| == 14 && states[n] == Calmly(n)
    decreases n
  {
    hide Behaviour, RestartFails, Resume, Calmly;
    Steps();
    Moves(states, RestartFails(), 0);
    if n == 0 {
      assert Calmly(0) == Initial() by { AtFirst(); }
    } else {
      CalmRun(states, n - 1);
      Moves(states, RestartFails(), n - 1);
      CalmStep(n - 1);
    }
  }

  lemma AtFirst()
    ensures Calmly(0) == Initial()
  {
  }

  /** The last three events. */
  lemma Restarted()
    ensures var s := Calmly(10);
            Known(s.procs) && Known(Next(s, Exit(0)).s.procs)
            && var t := Next(Next(s, Exit(0)).s, Supervisor(false)).s;
               Known(t.procs) && Next(t, Session(LOST)).s.place == Crashed
               && Next(t, Session(LOST)).s.procs.video == Pair(0, 1)
  {
    var p := Calmly(10).procs;
    var q := p.(table := [Zombie, Running, Running]);
    assert Next(Calmly(10), Exit(0)).s.procs == q;
    assert Supervise(q, false) == p.(table := [Reaped, Zombie, Running]);
    hide Supervise;
  }
}
