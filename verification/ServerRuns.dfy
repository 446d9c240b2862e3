/** What every interleaving of the sessions, the supervisor and process exits keeps. */
module ServerRuns {
  import opened ServerSpec
  import opened Wrappers
  import K = Keepalive

  predicate Covered(p: Procs, k: nat) {
    (p.video.Pair? && (k == p.video.i || k == p.video.j)) || (p.audio.One? && k == p.audio.k)
  }

  /** Live processes are covered by the handles, which name distinct processes; the audio process has
      not been collected. */
  predicate Sound(p: Procs) {
    Known(p)
    && (forall k {:trigger p.table[k]} :: 0 <= k < |p.table| && p.table[k] == Running ==> Covered(p, k))
    && (p.video.Pair? ==> p.video.i != p.video.j)
    && (p.video.Pair? && p.audio.One? ==> p.audio.k != p.video.i && p.audio.k != p.video.j)
    && (p.audio.One? ==> p.table[p.audio.k] != Reaped)
  }

  /** The session is past its set-up and has a status. */
  predicate InLoop(place: Place) {
    !(place.Entering? || place.DrainEnd? || place.DrainFirst? || place.Leaving? || place.Done? || place.Crashed?)
  }

  predicate Inv(s: Server) {
    Sound(s.procs)
    && (s.place.DrainEnd? || s.place.DrainFirst? || s.place.Done? ==> NoHandles(s.procs))
    && (InLoop(s.place) || s.place.Leaving? ==>
          (s.prev == Offline ==> NoHandles(s.procs))
          && (!s.procs.local.NoLocal? ==> s.prev == Calling)
          && (s.procs.local.Placeholder? ==> s.place.Opening?))
    && (s.place.Accepting? || s.place.Opening? || s.place.DrainAudio? ==> s.prev == Calling)
    && (s.place.DrainVideo? ==> s.prev != Offline)
    && (s.place.Opening? ==> s.procs.audio.One? && s.procs.local.Placeholder?)
    && (s.place.DrainStatus? ==> (s.place.next != s.prev && (s.place.next != Calling ==> NoHandles(s.procs))))
    && (InLoop(s.place) ==> s.told == Some(s.prev) || (s.prev == Calling && s.told == Some(Calm))
                            || (s.place.DrainStatus? && s.told == Some(s.place.next)))
    && (s.place.Leaving? ==> s.told.Some?)
    && (s.place.DrainStatus? ==> s.told == Some(s.place.next))
    && (s.place.DrainFirst? ==> s.told == Some(Offline))
    && (s.place.Entering? || s.place.DrainEnd? ==> s.told == None)
  }

  // --- The process operations ---

  lemma StopSound(p: Procs)
    requires Sound(p)
    ensures Sound(StopProc(p).p)
    ensures StopProc(p).Fine? ==> NoHandles(StopProc(p).p)
    ensures StopProc(p).Raised? ==> StopProc(p).p.local == p.local
  {
    StopVideoSound(p);
    var v := StopVideo(p);
    if v.Fine? { StopAudioSound(v.p); }
  }

  lemma StopVideoSound(p: Procs)
    requires Sound(p)
    ensures Sound(StopVideo(p).p)
    ensures StopVideo(p).Fine? ==> StopVideo(p).p.video.NoVideo?
    ensures StopVideo(p).p.local == p.local && StopVideo(p).p.audio == p.audio
  {
  }

  lemma StopAudioSound(p: Procs)
    requires Sound(p)
    ensures StopAudio(p).Fine? && Sound(StopAudio(p).p)
    ensures StopAudio(p).p == p.(table := StopAudio(p).p.table, audio := NoAudio)
  {
  }

  lemma StartSound(p: Procs)
    requires Sound(p)
    ensures Sound(StartVideo(p)) && StartVideo(p).video.Pair? && StartVideo(p).local == p.local
    ensures Sound(StartAudio(p)) && StartAudio(p).audio.One? && StartAudio(p).local == p.local
  {
    assert forall k :: 0 <= k < |p.table| ==> StartVideo(p).table[k] == p.table[k];
    assert forall k :: 0 <= k < |p.table| ==> StartAudio(p).table[k] == p.table[k];
  }

  /** The supervisor keeps every handle it finds, in kind, and starts nothing where there was none. */
  lemma SuperviseSound(p: Procs, stream: bool)
    requires Sound(p)
    ensures Sound(Supervise(p, stream))
    ensures var q := Supervise(p, stream);
            q.video.Pair? == p.video.Pair? && q.audio.One? == p.audio.One? && q.local == p.local
  {
    SuperviseVideoSound(p, stream);
    SuperviseAudioSound(SuperviseVideo(p, stream));
  }

  lemma SuperviseVideoSound(p: Procs, stream: bool)
    requires Sound(p)
    ensures Sound(SuperviseVideo(p, stream))
    ensures SuperviseVideo(p, stream).video.Pair? == p.video.Pair?
    ensures SuperviseVideo(p, stream).audio == p.audio && SuperviseVideo(p, stream).local == p.local
  {
    if p.video.Pair? {
      var i, j := p.video.i, p.video.j;
      var t := Polled(Polled(p.table, i), j);
      if t[i] != Running || t[j] != Running {
        var t1 := Killed(Polled(t, i), i);
        var q := p.(table := Killed(Polled(t1, j), j));
        assert Sound(q.(video := NoVideo));
        StartSound(q.(video := NoVideo));
      }
    }
  }

  lemma SuperviseAudioSound(p: Procs)
    requires Sound(p)
    ensures Sound(SuperviseAudio(p))
    ensures SuperviseAudio(p).audio.One? == p.audio.One?
    ensures SuperviseAudio(p).video == p.video && SuperviseAudio(p).local == p.local
  {
    if p.audio.One? {
      var t := Polled(p.table, p.audio.k);
      assert forall k :: 0 <= k < |t| ==> (t + [Running])[k] == t[k];
    }
  }

  // --- The session ---

  lemma NextInv(s: Server, e: Event)
    requires Inv(s)
    ensures Inv(Next(s, e).s)
  {
    match e
    case Session(w) => ResumeInv(s, w);
    case Supervisor(stream) => SuperviseSound(s.procs, stream);
    case Exit(k) => ExitInv(s, k);
  }

  lemma ExitInv(s: Server, k: nat)
    requires Inv(s)
    ensures Inv(Next(s, Exit(k)).s)
  {
  }

  lemma ResumeInv(s: Server, w: Wake)
    requires Inv(s)
    ensures Inv(Resume(s, w).s)
  {
    hide Resume, Inv;
    match s.place
    case Entering => EdgeInv(s, w);
    case DrainEnd => EdgeInv(s, w);
    case DrainFirst => EdgeInv(s, w);
    case Leaving => EdgeInv(s, w);
    case Done => EdgeInv(s, w);
    case Crashed => EdgeInv(s, w);
    case Reading => CommandInv(s, w);
    case DrainVideo => CommandInv(s, w);
    case Accepting => AcceptInv(s, w);
    case Opening => AcceptInv(s, w);
    case Asking => StatusInv(s, w);
    case DrainStatus(next) => FlushedInv(s, w);
    case DrainPing => FlushedInv(s, w);
    case Polling => PlainInv(s, w);
    case DrainRefused => PlainInv(s, w);
    case DrainAudio => PlainInv(s, w);
    case StoppingCalls => PlainInv(s, w);
    case Declining => PlainInv(s, w);
  }

  /** Entering and leaving a session. */
  lemma EdgeInv(s: Server, w: Wake)
    requires Inv(s) && !InLoop(s.place)
    ensures Inv(Resume(s, w).s)
  {
    hide Sound, StopProc, StartVideo, StartAudio;
    StopSound(s.procs);
    StartSound(s.procs);
  }

  lemma CommandInv(s: Server, w: Wake)
    requires Inv(s) && (s.place.Reading? || s.place.DrainVideo?)
    ensures Inv(Resume(s, w).s)
  {
    hide Sound, StartVideo, StartAudio;
    StartSound(s.procs);
  }

  lemma AcceptInv(s: Server, w: Wake)
    requires Inv(s) && (s.place.Accepting? || s.place.Opening?)
    ensures Inv(Resume(s, w).s)
  {
    StopAudioSound(s.procs);
    var p := StopAudio(s.procs).p;
    StartSound(p);
    LocalSound(s.procs, Endpoint);
    LocalSound(StartAudio(p), Placeholder);
    hide Sound, StopAudio, StartAudio;
  }

  lemma LocalSound(p: Procs, local: LocalHandle)
    requires Sound(p)
    ensures Sound(p.(local := local))
  {
  }

  lemma StatusInv(s: Server, w: Wake)
    requires Inv(s) && s.place.Asking?
    ensures Inv(Resume(s, w).s)
  {
    hide Inv, Resume;
    if w.raises || w.status == s.prev || w.status == Calling { NoStopInv(s, w); } else { ReportInv(s, w); }
  }

  lemma NoStopInv(s: Server, w: Wake)
    requires Inv(s) && s.place.Asking? && (w.raises || w.status == s.prev || w.status == Calling)
    ensures Inv(Resume(s, w).s)
  {
    hide Sound, StopProc;
  }

  lemma ReportInv(s: Server, w: Wake)
    requires Inv(s) && s.place.Asking? && !w.raises && w.status != s.prev && w.status != Calling
    ensures Inv(Resume(s, w).s)
  {
    StopSound(s.procs);
    hide Sound, StopProc;
  }

  lemma FlushedInv(s: Server, w: Wake)
    requires Inv(s) && (s.place.DrainStatus? || s.place.DrainPing?)
    ensures Inv(Resume(s, w).s)
  {
    hide Sound, StopProc;
  }

  lemma PlainInv(s: Server, w: Wake)
    requires Inv(s)
    requires s.place.Polling? || s.place.DrainRefused? || s.place.DrainAudio? || s.place.StoppingCalls?
             || s.place.Declining?
    ensures Inv(Resume(s, w).s)
  {
    hide Sound, StopProc;
    StopSound(s.procs);
  }

  /** The states of a run: the first, and one after each event. */
  predicate Behaviour(states: seq<Server>, events: seq<Event>) {
    |states| == |events| + 1 && states[0] == Initial()
    && forall n {:trigger events[n]} :: 0 <= n < |events| ==>
         states[n + 1] == if Known(states[n].procs) then Next(states[n], events[n]).s else states[n]
  }

  /** Every sequence of events has its run. */
  lemma {:induction false} RunOf(events: seq<Event>) returns (states: seq<Server>)
    ensures Behaviour(states, events)
    decreases |events|
  {
    if events == [] {
      states := [Initial()];
    } else {
      var n := |events| - 1;
      hide Next;
      var before := RunOf(events[..n]);
      states := before + [if Known(before[n].procs) then Next(before[n], events[n]).s else before[n]];
      forall k | 0 <= k < |events|
        ensures states[k + 1] == if Known(states[k].procs) then Next(states[k], events[k]).s else states[k]
      {
        if k < n { assert events[..n][k] == events[k]; }
      }
    }
  }

  /** The invariant holds in every state of every run. */
  lemma {:induction false} RunInv(states: seq<Server>, events: seq<Event>, n: nat)
    requires Behaviour(states, events) && n < |states|
    ensures Inv(states[n])
    decreases n
  {
    if n > 0 {
      hide Next;
      RunInv(states, events, n - 1);
      assert Sound(states[n - 1].procs);
      NextInv(states[n - 1], events[n - 1]);
      hide Inv;
    }
  }

  // --- Main results ---

  /** In every interleaving: a session in its loop that reports no network has no handle, hence no live
      process; a local audio endpoint exists only during a call; a session that has left its loop
      leaves nothing behind; and no live process is ever without a handle. */
  lemma HandlesFollowStatus(states: seq<Server>, events: seq<Event>, n: nat)
    requires Behaviour(states, events) && n < |states|
    ensures var s := states[n];
            (InLoop(s.place) && s.prev == Offline ==> NoHandles(s.procs) && Running !in s.procs.table)
            && (InLoop(s.place) && !s.procs.local.NoLocal? ==> s.prev == Calling)
            && (s.place.Done? ==> NoHandles(s.procs) && Running !in s.procs.table)
            && forall k :: 0 <= k < |s.procs.table| && s.procs.table[k] == Running ==> Covered(s.procs, k)
  {
    RunInv(states, events, n);
  }

  /** What the server says on resuming is so: "video on" with a video pair and a line that is up, "audio on"
      with the call's audio and its endpoint, and a quiet or lost line with nothing left running, except
      that a call that could not be accepted is reported as over while it is still pending. */
  predicate Truthful(s: Server, n: Step) {
    |n.out| <= 1
    && (n.out == [VideoOn] ==> n.s.procs.video.Pair? && s.prev != Offline)
    && (n.out == [AudioOn] ==> n.s.procs.audio.One? && n.s.procs.local.Endpoint? && s.prev == Calling)
    && (n.out == [End] || n.out == [Report(Offline)] || (n.out == [Report(Calm)] && !s.place.Accepting?) ==>
          NoHandles(n.s.procs) && Running !in n.s.procs.table)
  }

  lemma SaysWhatIs(states: seq<Server>, events: seq<Event>, n: nat, w: Wake)
    requires Behaviour(states, events) && n < |states|
    ensures Known(states[n].procs) && Truthful(states[n], Resume(states[n], w))
  {
    RunInv(states, events, n);
    var s := states[n];
    assert Sound(s.procs);
    hide Behaviour, Resume, Truthful;
    if Stops(s.place) { SaysAfterStop(s, w); } else { SaysGoingOn(s, w); }
  }

  lemma SaysAfterStop(s: Server, w: Wake)
    requires Inv(s) && Stops(s.place)
    ensures Truthful(s, Resume(s, w))
  {
    hide Sound, StopProc;
    StopProcCompletesIff(s.procs);
  }

  lemma SaysGoingOn(s: Server, w: Wake)
    requires Inv(s) && !Stops(s.place)
    ensures Truthful(s, Resume(s, w))
  {
    hide Inv, Sound, StopAudio, StartVideo, StartAudio;
    CallPlaces(s);
    StartSound(s.procs);
    StopAudioSound(s.procs);
    StartSound(StopAudio(s.procs).p);
    if s.place.DrainEnd? { QuietTable(s.procs); }
  }

  lemma CallPlaces(s: Server)
    requires Inv(s)
    ensures Sound(s.procs) && Known(s.procs)
    ensures s.place == Accepting || s.place == Opening ==> s.prev == Calling
    ensures s.place == Opening ==> s.procs.audio.One?
    ensures s.place == Accepting ==> !s.procs.local.Placeholder?
    ensures s.place == DrainEnd ==> NoHandles(s.procs)
  {
  }

  lemma QuietTable(p: Procs)
    requires Sound(p)
    ensures NoHandles(p) ==> Running !in p.table
  {
  }

  /** A process in the video handle has been collected. */
  predicate Stale(p: Procs)
    requires Known(p)
  {
    p.video.Pair? && (p.table[p.video.i] == Reaped || p.table[p.video.j] == Reaped)
  }

  /** `stop_proc` completes, and then clears every handle and leaves no live process, except exactly when
      the video handle holds a collected process or the local handle is a placeholder. */
  lemma StopProcCompletesIff(p: Procs)
    requires Sound(p)
    ensures StopProc(p).Raised? <==> Stale(p) || p.local.Placeholder?
    ensures StopProc(p).Fine? ==> NoHandles(StopProc(p).p) && Running !in StopProc(p).p.table
    ensures StopProc(p).Raised? && Stale(p) ==> StopProc(p).p.video == p.video
  {
    StopSound(p);
    if p.video.Pair? && !Stale(p) { StopVideoSound(p); StopAudioSound(StopVideo(p).p); }
    if p.video.NoVideo? { StopAudioSound(p); }
  }

  /** The supervisor leaves a stale handle exactly when it finds a dead process and no stream. */
  lemma SupervisorLeavesStaleIff(p: Procs, stream: bool)
    requires Sound(p)
    ensures Known(Supervise(p, stream))
    ensures Stale(Supervise(p, stream)) <==>
              p.video.Pair? && !stream && !(p.table[p.video.i] == Running && p.table[p.video.j] == Running)
  {
    SuperviseVideoSound(p, stream);
    var q := SuperviseVideo(p, stream);
    SuperviseAudioSound(q);
    assert Stale(Supervise(p, stream)) == Stale(q);
  }

  /** Such a handle ends the session that meets it: the next report of a quiet or lost line crashes,
      with the handle still set. */
  lemma FailedRestartCrashes(s: Server, w: Wake)
    requires Inv(s) && s.place == Asking && s.procs.video.Pair?
    requires s.procs.table[s.procs.video.i] != Running || s.procs.table[s.procs.video.j] != Running
    requires !w.raises && w.status != s.prev && w.status != Calling
    ensures var t := Next(s, Supervisor(false)).s;
            Known(t.procs) && Next(t, Session(w)).s.place == Crashed && Next(t, Session(w)).s.procs.video.Pair?
  {
    SupervisorLeavesStaleIff(s.procs, false);
    SuperviseSound(s.procs, false);
    StopProcCompletesIff(Supervise(s.procs, false));
    hide Supervise, StopProc, Sound;
  }

  /** A status is reported exactly when it differs from the last one, unless clearing up before a quiet or
      lost line is reported meets a stale handle, which ends the session without a word. */
  lemma ReportsChangesIff(s: Server, w: Wake)
    requires Inv(s) && s.place == Asking && !w.raises
    ensures var n := Resume(s, w);
            var mute := w.status != Calling && Stale(s.procs);
            (n.out == [Report(w.status)] <==> w.status != s.prev && !mute)
            && (w.status != s.prev && mute ==> n.s.place == Crashed && n.out == [])
            && (w.status == s.prev ==> n.out == if w.pingDue then [Heartbeat] else [])
  {
    StopProcCompletesIff(s.procs);
    hide Sound, StopProc;
  }

  /** An await that brings nothing new but, if the session reads, this command. */
  function Unchanged(s: Server, command: char): Wake {
    Wake(false, true, command, true, s.prev, false, false)
  }

  function Awaited(s: Server, command: char): (n: Step)
    requires Known(s.procs)
    ensures Known(n.s.procs)
  {
    Resume(s, Unchanged(s, command))
  }

  /** From one status request round the loop to the client's next command, and on to the await after it. */
  function Served(s: Server, command: char): (n: Step)
    requires Known(s.procs)
    ensures Known(n.s.procs)
  {
    Awaited(Awaited(Awaited(s, command).s, command).s, command)
  }

  lemma ServedIsCommand(s: Server, command: char)
    requires Known(s.procs) && s.place == Asking && !s.closing
    ensures Served(s, command) == OnCommand(s.(place := Reading), Unchanged(s, command))
  {
    var polling := s.(place := Polling);
    assert Awaited(s, command) == Step(polling, []);
    assert Awaited(polling, command) == Step(s.(place := Reading), []);
    hide OnCommand, OnAccepted, StopThen;
  }

  /** The video goes on, the first audio process has been killed, and another runs beside the endpoint. */
  predicate AudioReplaced(p: Procs, q: Procs)
    requires Known(p) && Known(q)
  {
    p.video.Pair? && p.audio.One? && |q.table| > |p.table| && q.video == p.video && q.local == Endpoint
    && q.audio.One? && q.audio != p.audio && q.table[p.audio.k] == Zombie && q.table[q.audio.k] == Running
    && q.table[q.video.i] == p.table[q.video.i] && q.table[q.video.j] == p.table[q.video.j]
  }

  /** What runs goes on running, and what is missing has been started. */
  predicate Completed(p: Procs, q: Procs)
    requires Known(p) && Known(q)
  {
    q.video.Pair? && q.audio.One? && p.table <= q.table && q.local == p.local
    && (if p.video.Pair? then q.video == p.video else q.table[q.video.i] == q.table[q.video.j] == Running)
    && (if p.audio.One? then q.audio == p.audio else q.table[q.audio.k] == Running)
  }

  /** A call with the stream at hand and accepted, whatever was streaming before: the stream request is
      answered with video, with the missing processes started; the accept command is answered with audio, at
      once if there is an endpoint already, and otherwise when it has been opened; in between the sound so
      far, say the ringtone, is killed and another audio process started. */
  lemma CallServed(s: Server)
    requires Inv(s) && s.place == Asking && s.prev == Calling && !s.closing
    ensures var video := Served(s, 'r');
            var ring := Awaited(video.s, 'r');
            video.out == [VideoOn] && ring.out == [] && Completed(s.procs, ring.s.procs)
    ensures var ring := Awaited(Served(s, 'r').s, 'r').s;
            var accept := Served(ring, 'a');
            var opening := Awaited(accept.s, 'a');
            var audio := if s.procs.local.NoLocal? then Awaited(opening.s, 'a') else opening;
            accept.out == [] && (s.procs.local.NoLocal? ==> opening.out == [])
            && audio.out == [AudioOn] && AudioReplaced(ring.procs, audio.s.procs)
  {
    hide Inv, Served, Awaited, Completed, AudioReplaced;
    CallPlaces(s);
    NoPlaceholder(s);
    StartsMissing(s.procs);
    StreamServed(s);
    var ring := s.(procs := StartAudio(StartVideo(s.procs)));
    AcceptServed(ring);
  }

  lemma StreamServed(s: Server)
    requires Known(s.procs) && s.place == Asking && s.prev == Calling && !s.closing
    ensures Served(s, 'r').out == [VideoOn]
    ensures Awaited(Served(s, 'r').s, 'r') == Step(s.(procs := StartAudio(StartVideo(s.procs))), [])
  {
    hide Served, StartAudio, StartVideo;
    ServedIsCommand(s, 'r');
  }

  lemma AcceptServed(s: Server)
    requires Sound(s.procs) && Known(s.procs) && s.place == Asking && s.prev == Calling && !s.closing
    requires s.procs.video.Pair? && s.procs.audio.One? && !s.procs.local.Placeholder?
    ensures var accept := Served(s, 'a');
            var opening := Awaited(accept.s, 'a');
            var audio := if s.procs.local.NoLocal? then Awaited(opening.s, 'a') else opening;
            accept.out == [] && (s.procs.local.NoLocal? ==> opening.out == [])
            && audio.out == [AudioOn] && AudioReplaced(s.procs, audio.s.procs)
  {
    hide Served, StopAudio, StartAudio, Sound, AudioReplaced;
    ServedIsCommand(s, 'a');
    Replaces(s.procs);
    var p := StartAudio(StopAudio(s.procs).p);
    assert p.(local := Placeholder).(local := Endpoint) == p.(local := Endpoint);
    assert !p.local.NoLocal? ==> p.(local := Endpoint) == p;
  }

  lemma NoPlaceholder(s: Server)
    requires Inv(s) && s.place == Asking
    ensures !s.procs.local.Placeholder?
  {
  }

  lemma StartsMissing(p: Procs)
    requires Sound(p) && Known(p)
    ensures Completed(p, StartAudio(StartVideo(p))) && Sound(StartAudio(StartVideo(p)))
  {
    StartSound(p);
    StartSound(StartVideo(p));
    hide Sound;
  }

  lemma Replaces(p: Procs)
    requires Sound(p) && Known(p) && p.video.Pair? && p.audio.One?
    ensures var r := StopAudio(p);
            r.Fine? && r.p.local == p.local && StartAudio(r.p).local == p.local
            && AudioReplaced(p, StartAudio(r.p).(local := Endpoint))
  {
  }

  /** A call that could not be accepted is reported as over, but the session still takes it for pending. */
  lemma RefusedCallStays(s: Server)
    requires Inv(s) && s.place == Asking && s.prev == Calling && !s.closing
    ensures var refused := Resume(Served(s, 'a').s, Unchanged(s, 'a').(answer := false));
            refused.out == [Report(Calm)] && Known(refused.s.procs)
            && Awaited(refused.s, 'a') == Step(s.(told := Some(Calm)), [])
  {
    ServedIsCommand(s, 'a');
    hide Served;
  }

  /** A denial clears every handle and process, whatever was streaming, and changes nothing else; with a stale
      handle it ends the session instead. */
  lemma DenialClears(s: Server)
    requires Inv(s) && s.place == Asking && !s.closing
    ensures var calls := Awaited(Served(s, 'd').s, 'd');
            var t := if s.prev == Calling then Awaited(calls.s, 'd') else calls;
            t.out == []
            && if Stale(s.procs) then t.s.place == Crashed && t.s.procs.video == s.procs.video
               else NoHandles(t.s.procs) && Running !in t.s.procs.table && t.s == s.(procs := t.s.procs)
  {
    CallPlaces(s);
    NoPlaceholder(s);
    hide Inv, Served, Sound, StopProc;
    ServedIsCommand(s, 'd');
    StopProcCompletesIff(s.procs);
  }

  /** An await with a ping due and nothing from the client. */
  function Silent(s: Server): Wake {
    Wake(false, false, ' ', true, s.prev, false, true)
  }

  /** Five seconds of silence: the session pings, counts, and either polls again or clears up. */
  function SilentTick(s: Server): (t: Server)
    requires Known(s.procs)
    ensures Known(t.procs)
  {
    if s.place != Asking then s
    else Resume(Resume(Resume(s, Silent(s)).s, Silent(s)).s, Silent(s)).s
  }

  function SilentTicks(s: Server, k: nat): (t: Server)
    requires Known(s.procs)
    ensures Known(t.procs)
  {
    if k == 0 then s else SilentTick(SilentTicks(s, k - 1))
  }

  /** A silent client is given up on exactly tick `keepalive` + 6, and nothing is left running then, unless a
      stale handle ends the session on that tick, still set. */
  lemma {:induction false} SilentClient(s: Server, k: nat)
    requires Inv(s) && s.place == Asking && !s.closing && s.keepalive >= K.LIMIT
    ensures var t := SilentTicks(s, k);
            if k < s.keepalive + 6 then t == s.(keepalive := s.keepalive - k)
            else if Stale(s.procs) then t.place == Crashed && t.procs.video == s.procs.video
            else t.place == Done && NoHandles(t.procs) && Running !in t.procs.table
    decreases k
  {
    if k > 0 {
      hide *;
      CallPlaces(s);
      NoPlaceholder(s);
      SilentClient(s, k - 1);
      var before := SilentTicks(s, k - 1);
      TicksNext(s, k);
      StaysAway(before);
      if before.place == Asking {
        SilentStep(before);
        Cleared(before.(place := Leaving, keepalive := before.keepalive - 1, closing := true));
      }
    }
  }

  lemma TicksNext(s: Server, k: nat)
    requires Known(s.procs) && k > 0
    ensures SilentTicks(s, k) == SilentTick(SilentTicks(s, k - 1))
    ensures forall ctr :: K.TimesOut(ctr) <==> ctr <= K.LIMIT
    ensures K.LIMIT == -5
  {
    hide SilentTick;
  }

  lemma Cleared(s: Server)
    requires Sound(s.procs) && Known(s.procs) && !s.procs.local.Placeholder?
    ensures var t := StopThen(s, [], Done).s;
            if Stale(s.procs) then t.place == Crashed && t.procs.video == s.procs.video
            else t.place == Done && NoHandles(t.procs) && Running !in t.procs.table
  {
    hide Sound, StopProc;
    StopProcCompletesIff(s.procs);
  }

  lemma StaysAway(s: Server)
    requires Known(s.procs)
    ensures s.place != Asking ==> SilentTick(s) == s
  {
  }

  lemma SilentStep(s: Server)
    requires Known(s.procs) && s.place == Asking && !s.closing
    ensures var leaving := s.(place := Leaving, keepalive := s.keepalive - 1, closing := true);
            SilentTick(s) == if K.TimesOut(s.keepalive) then StopThen(leaving, [], Done).s
                             else s.(keepalive := s.keepalive - 1)
  {
    hide StopThen;
  }

  /** No exception is thrown into the session and the supervisor always gets its stream. */
  predicate Benign(e: Event) {
    match e
    case Session(w) => !w.raises
    case Supervisor(stream) => stream
    case Exit(_) => true
  }

  /** In every benign run no session crashes, whatever processes exit and when. */
  lemma {:induction false} BenignRunsNeverCrash(states: seq<Server>, events: seq<Event>, n: nat)
    requires Behaviour(states, events) && n < |states|
    requires forall i :: 0 <= i < |events| ==> Benign(events[i])
    ensures Known(states[n].procs) && states[n].place != Crashed && !Stale(states[n].procs)
    ensures states[n].procs.local.Placeholder? ==> states[n].place == Opening
    decreases n
  {
    if n > 0 {
      hide *;
      BehaviourStep(states, events, n - 1);
      BenignRunsNeverCrash(states, events, n - 1);
      RunInv(states, events, n - 1);
      BenignStep(states[n - 1], events[n - 1]);
    } else {
      AtStart(states, events);
    }
  }

  lemma BehaviourStep(states: seq<Server>, events: seq<Event>, n: nat)
    requires Behaviour(states, events) && n < |events|
    ensures |states| == |events| + 1
    ensures Known(states[n].procs) ==> states[n + 1] == Next(states[n], events[n]).s
  {
    hide Next;
  }

  lemma AtStart(states: seq<Server>, events: seq<Event>)
    requires Behaviour(states, events)
    ensures Known(states[0].procs) && states[0].place != Crashed && !Stale(states[0].procs)
    ensures !states[0].procs.local.Placeholder?
  {
  }

  lemma BenignStep(s: Server, e: Event)
    requires Inv(s) && Benign(e) && s.place != Crashed && !Stale(s.procs)
    requires s.procs.local.Placeholder? ==> s.place == Opening
    ensures var t := Next(s, e).s;
            Known(t.procs) && t.place != Crashed && !Stale(t.procs)
            && (t.procs.local.Placeholder? ==> t.place == Opening)
  {
    hide Inv, Sound, Resume, Supervise;
    CallPlaces(s);
    match e
    case Session(w) =>
      ResumeInv(s, w);
      CallPlaces(Resume(s, w).s);
      BenignSession(s, w);
    case Supervisor(stream) =>
      SupervisorLeavesStaleIff(s.procs, stream);
      SuperviseSound(s.procs, stream);
    case Exit(k) =>
  }

  lemma BenignSession(s: Server, w: Wake)
    requires Inv(s) && !w.raises && s.place != Crashed && !Stale(s.procs)
    requires s.procs.local.Placeholder? ==> s.place == Opening
    ensures var t := Resume(s, w).s;
            t.place != Crashed && !Stale(t.procs) && (t.procs.local.Placeholder? ==> t.place == Opening)
  {
    assert Sound(s.procs);
    hide Inv, Resume, Sound;
    if Stops(s.place) { BenignStop(s, w); } else { BenignGoOn(s, w); }
  }

  /** The places at which `stop_proc` may be called on resuming. */
  predicate Stops(place: Place) {
    place == Entering || place == StoppingCalls || place == Declining || place == Asking || place == Leaving
  }

  lemma BenignStop(s: Server, w: Wake)
    requires Sound(s.procs) && !w.raises && Stops(s.place) && !Stale(s.procs) && !s.procs.local.Placeholder?
    ensures var t := Resume(s, w).s;
            t.place != Crashed && !Stale(t.procs) && (t.procs.local.Placeholder? ==> t.place == Opening)
  {
    hide Sound, StopProc;
    StopProcCompletesIff(s.procs);
  }

  lemma BenignGoOn(s: Server, w: Wake)
    requires Sound(s.procs) && !w.raises && !Stops(s.place) && s.place != Crashed && !Stale(s.procs)
    requires s.procs.local.Placeholder? ==> s.place == Opening
    ensures var t := Resume(s, w).s;
            t.place != Crashed && !Stale(t.procs) && (t.procs.local.Placeholder? ==> t.place == Opening)
  {
    SoundKnown(s.procs);
    hide Sound, StopAudio, StartVideo, StartAudio;
    StopAudioSound(s.procs);
    StartStale(s.procs);
    StopAudioStale(s.procs);
    StartStale(StopAudio(s.procs).p);
  }

  lemma SoundKnown(p: Procs)
    requires Sound(p)
    ensures Known(p)
  {
  }

  lemma StopAudioStale(p: Procs)
    requires Known(p)
    ensures Stale(StopAudio(p).p) == Stale(p)
  {
  }

  lemma StartStale(p: Procs)
    requires Known(p) && !Stale(p)
    ensures !Stale(StartVideo(p)) && !Stale(StartAudio(p))
    ensures StartVideo(p).local == p.local && StartAudio(p).local == p.local
  {
  }
}
