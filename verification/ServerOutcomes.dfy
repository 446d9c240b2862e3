/** What a pass of the supervisor restores, and what the awaits of a session lead to where the other results
    leave it open. */
module ServerOutcomes {
  import opened ServerSpec
  import opened ServerRuns
  import opened Wrappers

  // --- The supervisor ---

  predicate BothRun(p: Procs)
    requires Known(p)
  {
    p.video.Pair? && p.table[p.video.i] == Running && p.table[p.video.j] == Running
  }

  predicate AudioRuns(p: Procs)
    requires Known(p)
  {
    p.audio.One? && p.table[p.audio.k] == Running
  }

  /** After a pass the audio process runs, the old one exactly if it still did, else a new one; the video pair
      likewise if the stream can be had, and otherwise a broken pair is left, with nothing of it running. What is
      replaced runs no more, what has no handle is left alone, and a handle that is not set stays so. */
  lemma SupervisorRestores(p: Procs, stream: bool)
    requires Sound(p) && Known(p)
    ensures var q := Supervise(p, stream);
            Known(q) && q.local == p.local && |q.table| >= |p.table|
            && (p.audio.NoAudio? <==> q.audio.NoAudio?) && (p.video.NoVideo? <==> q.video.NoVideo?)
            && (p.audio.One? ==> AudioRestored(p, q))
            && (p.video.Pair? ==> VideoRestored(p, q, stream))
            && forall k :: 0 <= k < |p.table| && !Covered(p, k) ==> q.table[k] == p.table[k]
  {
    hide Sound, SuperviseVideo, SuperviseAudio, AudioRestored, VideoRestored;
    SuperviseVideoSound(p, stream);
    VideoPass(p, stream);
    var q := SuperviseVideo(p, stream);
    AudioPass(q);
    Combined(p, q, SuperviseAudio(q), stream);
  }

  predicate AudioRestored(p: Procs, q: Procs)
    requires Known(p) && Known(q) && p.audio.One?
  {
    AudioRuns(q)
    && (q.audio == p.audio <==> AudioRuns(p))
    && (!AudioRuns(p) ==> q.audio.k >= |p.table| && |q.table| > p.audio.k && q.table[p.audio.k] == Reaped)
  }

  predicate VideoRestored(p: Procs, q: Procs, stream: bool)
    requires Known(p) && Known(q) && p.video.Pair? && |q.table| >= |p.table|
  {
    q.video.Pair?
    && (stream || BothRun(p) ==> BothRun(q))
    && (q.video == p.video <==> BothRun(p) || !stream)
    && (q.video != p.video ==> q.video.i >= |p.table| && q.video.j >= |p.table|)
    && (!BothRun(p) ==> q.table[p.video.i] != Running && q.table[p.video.j] != Running)
  }

  lemma VideoPass(p: Procs, stream: bool)
    requires Sound(p) && Known(p)
    ensures var q := SuperviseVideo(p, stream);
            q.audio == p.audio && q.local == p.local && p.video.Pair? == q.video.Pair? && |q.table| >= |p.table|
            && (p.video.Pair? ==> VideoRestored(p, q, stream))
            && forall k :: 0 <= k < |p.table| && !(p.video.Pair? && (k == p.video.i || k == p.video.j)) ==>
                 q.table[k] == p.table[k]
  {
  }

  lemma AudioPass(p: Procs)
    requires Known(p) && (p.audio.One? ==> p.table[p.audio.k] != Reaped)
    ensures var q := SuperviseAudio(p);
            q.video == p.video && q.local == p.local && p.audio.One? == q.audio.One? && |q.table| >= |p.table|
            && (p.audio.One? ==> AudioRestored(p, q))
            && forall k :: 0 <= k < |p.table| && !(p.audio.One? && k == p.audio.k) ==> q.table[k] == p.table[k]
  {
  }

  /** The two halves of a pass do not disturb each other. */
  lemma Combined(p: Procs, q: Procs, r: Procs, stream: bool)
    requires Sound(p) && Sound(q) && Known(p) && Known(q) && Known(r)
    requires q.audio == p.audio && p.video.Pair? == q.video.Pair? && |q.table| >= |p.table|
    requires p.video.Pair? ==> VideoRestored(p, q, stream)
    requires forall k :: 0 <= k < |p.table| && !(p.video.Pair? && (k == p.video.i || k == p.video.j)) ==>
               q.table[k] == p.table[k]
    requires r.video == q.video && q.audio.One? == r.audio.One? && |r.table| >= |q.table|
    requires q.audio.One? ==> AudioRestored(q, r)
    requires forall k :: 0 <= k < |q.table| && !(q.audio.One? && k == q.audio.k) ==> r.table[k] == q.table[k]
    ensures p.audio.One? ==> AudioRestored(p, r)
    ensures p.video.Pair? ==> VideoRestored(p, r, stream)
    ensures forall k :: 0 <= k < |p.table| && !Covered(p, k) ==> r.table[k] == p.table[k]
  {
    if p.audio.One? { assert q.table[p.audio.k] == p.table[p.audio.k]; }
  }

  // --- The session ---

  /** Between sessions: the next one starts afresh, stops what is left, and says that streams have ended and that
      there is no network, unless stopping cannot be completed. */
  lemma SessionStarts(s: Server, w: Wake, w1: Wake, w2: Wake, w3: Wake)
    requires Inv(s) && (s.place.Done? || s.place.Crashed?) && !w1.raises && !w2.raises && !w3.raises
    ensures var n := Resume(s, w);
            n == Step(s.(place := Entering, told := None, keepalive := 0, closing := false), [])
            && var n1 := Resume(n.s, w1);
               if Stale(s.procs) || s.procs.local.Placeholder? then n1.s.place == Crashed && n1.out == []
               else n1.out == [End] && NoHandles(n1.s.procs) && Running !in n1.s.procs.table
                    && Resume(n1.s, w2).out == [Report(Offline)]
                    && var n3 := Resume(Resume(n1.s, w2).s, w3);
                       n3.out == [] && n3.s == Server(if w3.eof then Leaving else Polling, n1.s.procs, Offline,
                                                      Some(Offline), 0, false)
  {
    CallPlaces(s);
    StopProcCompletesIff(s.procs);
    hide Inv, Sound, StopProc;
  }

  /** At the top of the loop a session goes on exactly if it has not decided to close and the client is there;
      that is where it comes after its set-up, an unchanged status, a flushed report and a flushed heartbeat. */
  lemma LoopTopOutcome(s: Server, w: Wake)
    requires Known(s.procs) && !w.raises
    requires s.place.DrainFirst? || s.place.DrainPing?
             || (!w.pingDue && (s.place.DrainStatus? || (s.place.Asking? && w.status == s.prev)))
    ensures var n := Resume(s, w);
            n.out == [] && n.s.procs == s.procs
            && n.s.place == if s.closing || w.eof || (s.place.DrainPing? && s.keepalive <= -5) then Leaving else Polling
  {
  }

  /** A change of status: a call is reported with everything left running, a quiet or lost line once all is stopped;
      the status itself changes when the report has been flushed. */
  lemma StatusOutcome(s: Server, w: Wake)
    requires Inv(s) && s.place.Asking? && !w.raises && w.status != s.prev
    ensures var n := Resume(s, w);
            w.status == Calling ==>
              n == Step(s.(place := DrainStatus(Calling), told := Some(Calling)), [Report(Calling)])
    ensures var n := Resume(s, w);
            w.status != Calling && !Stale(s.procs) ==>
              n.out == [Report(w.status)] && n.s.place == DrainStatus(w.status) && n.s.prev == s.prev
              && NoHandles(n.s.procs) && Running !in n.s.procs.table
  {
    NoPlaceholder(s);
    CallPlaces(s);
    StopProcCompletesIff(s.procs);
    hide Inv, Sound, StopProc;
  }

  /** A due ping is said first, and a flushed report is then the session's status. */
  lemma PingOutcome(s: Server, w: Wake)
    requires Known(s.procs) && !w.raises
    ensures s.place.DrainStatus? ==> Resume(s, w).s.prev == s.place.next
    ensures w.pingDue && (s.place.DrainStatus? || (s.place.Asking? && w.status == s.prev)) ==>
              Resume(s, w).out == [Heartbeat] && Resume(s, w).s.place == DrainPing && Resume(s, w).s.procs == s.procs
  {
  }

  /** A session that leaves its loop is done, with nothing left running, unless stopping cannot be completed. */
  lemma LeavingOutcome(s: Server, w: Wake)
    requires Inv(s) && s.place.Leaving? && !w.raises
    ensures var n := Resume(s, w);
            n.out == []
            && if Stale(s.procs) then n.s.place == Crashed
               else n.s.place == Done && NoHandles(n.s.procs) && Running !in n.s.procs.table
  {
    NotOpening(s);
    StopProcCompletesIff(s.procs);
    hide Inv, Sound, StopProc;
  }

  lemma NotOpening(s: Server)
    requires Inv(s) && s.place.Leaving?
    ensures Sound(s.procs) && Known(s.procs) && !s.procs.local.Placeholder?
  {
  }

  /** An exception ends the session where it is, with everything left as it was. */
  lemma RaisedOutcome(s: Server, w: Wake)
    requires Known(s.procs) && w.raises && !s.place.Done? && !s.place.Crashed?
    ensures Resume(s, w) == Step(s.(place := Crashed), [])
  {
    hide StopProc, StopAudio, StartVideo, StartAudio;
  }

  /** Data is read, and otherwise the status is asked for. */
  lemma PollingOutcome(s: Server, w: Wake)
    requires Known(s.procs) && s.place.Polling? && !w.raises
    ensures Resume(s, w) == Step(s.(place := if w.data then Reading else Asking), [])
  {
  }

  /** A stream request for which there is no stream: nothing is said, the video is left as it is, and the first
      sound is started if there is none; without network nothing happens at all. */
  lemma StreamRefused(s: Server, w: Wake)
    requires Known(s.procs) && s.place.Reading? && !w.raises && w.command == 'r'
    ensures s.prev == Offline ==> Resume(s, w) == Step(s.(place := Asking), [])
    ensures s.prev != Offline && !w.answer ==>
              var n := Resume(s, w);
              n.out == [] && n.s.place == Asking && n.s.prev == s.prev
              && var p, q := s.procs, n.s.procs;
                 q.video == p.video && q.local == p.local && q.audio.One?
                 && if p.audio.One? then q == p
                    else q.audio.k == |p.table| && q.table == p.table + [Running]
  {
  }

  /** The other commands: a ping counts, an accept without a call and anything unknown do nothing. */
  lemma CommandOutcome(s: Server, w: Wake)
    requires Known(s.procs) && s.place.Reading? && !w.raises
    ensures w.command == 'p' ==>
              Resume(s, w)
              == Step(s.(place := Asking, keepalive := if s.keepalive < 0 then 1 else s.keepalive + 1), [])
    ensures w.command == 'a' && s.prev != Calling ==> Resume(s, w) == Step(s.(place := Asking), [])
    ensures w.command !in "radp" ==> Resume(s, w) == Step(s.(place := Asking), [])
  {
    hide StartVideo, StartAudio;
  }

  /** After a reply has been flushed the status is asked for, with nothing changed. */
  lemma FlushedOutcome(s: Server, w: Wake)
    requires Known(s.procs) && !w.raises && (s.place.DrainRefused? || s.place.DrainAudio?)
    ensures Resume(s, w) == Step(s.(place := Asking), [])
  {
  }
}
