/** One session of the client with the server: two state machines and the two streams between them, with
    every interleaving of keys, timers, deliveries, awaits, supervisor passes and process exits, and with
    sends, forks and the interface's answers free to fail. A delivery takes one message, as when every
    receive returns a single command. */
module Session {
  import C = ClientSpec
  import CR = ClientRuns
  import CO = ClientOutcomes
  import opened SentCommands
  import S = ServerSpec
  import SR = ServerRuns
  import opened Wrappers

  /** The two ends, all messages the server has said, how many the client has heard, and how many of
      the client's commands the server has read. */
  datatype Joint = Joint(c: C.Client, s: S.Server, said: seq<S.Msg>, heard: nat, taken: nat)

  function Bytes(m: S.Msg): (char, char) {
    match m
    case End => ('e', '\n')
    case Report(status) => ('s', match status case Offline => '0' case Calm => '1' case Calling => '2')
    case VideoOn => ('v', '\n')
    case AudioOn => ('a', '\n')
    case Heartbeat => ('p', '\n')
  }

  datatype Event =
    | UserKey(key: C.Key, ok: bool)
    | Deliver(ok: bool, pid: int)
    | Lost
    | ClientTimer(t: C.Clock, ok: bool)
    | ServerEvent(e: S.Event)

  /** A client that has just started and opened its socket, and a server that has accepted it. */
  function Initial(fd: int): Joint {
    Joint(C.Reconnect(C.Initial(), C.Clock(true, fd, true, C.Pending, false, false)), S.Initial(), [], 0, 0)
  }

  /** The session resumes; a read takes the client's next command and waits while there is none. */
  function WakeServer(j: Joint, w: S.Wake): Joint
    requires S.Known(j.s.procs)
  {
    var sent := Commands(j.c.log);
    if j.s.place == S.Done || j.s.place == S.Crashed then j
    else if j.s.place == S.Reading && !w.raises then
      if j.taken >= |sent| then j
      else
        var n := S.Resume(j.s, w.(command := sent[j.taken]));
        j.(s := n.s, said := j.said + n.out, taken := j.taken + 1)
    else
      var n := S.Resume(j.s, w);
      j.(s := n.s, said := j.said + n.out)
  }

  function Next(j: Joint, e: Event): Joint
    requires S.Known(j.s.procs)
  {
    match e
    case UserKey(key, ok) => j.(c := C.OnKey(j.c, key, ok))
    case Deliver(ok, pid) =>
      if j.heard < |j.said| && j.c.mode != C.NO_CONNECTION && j.c.sock != C.NONE then
        var (b0, b1) := Bytes(j.said[j.heard]);
        j.(c := C.OnMessage(j.c, b0, b1, ok, pid), heard := j.heard + 1)
      else j
    case Lost => j.(c := C.OnSocket(j.c, C.HangUp, true, C.NONE))
    case ClientTimer(t, ok) => j.(c := C.OnTimer(j.c, t.(reconnect := false), ok))
    case ServerEvent(Session(w)) => WakeServer(j, w)
    case ServerEvent(other) => j.(s := S.Next(j.s, other).s)
  }

  /** The states of a joint run: the first, and one after each event. */
  predicate Behaviour(fd: int, states: seq<Joint>, events: seq<Event>) {
    |states| == |events| + 1 && states[0] == Initial(fd)
    && forall n {:trigger events[n]} :: 0 <= n < |events| ==>
         states[n + 1] == if S.Known(states[n].s.procs) then Next(states[n], events[n]) else states[n]
  }

  /** Every sequence of events has its run. */
  lemma {:induction false} RunOf(fd: int, events: seq<Event>) returns (states: seq<Joint>)
    ensures Behaviour(fd, states, events)
    decreases |events|
  {
    if events == [] {
      states := [Initial(fd)];
    } else {
      var n := |events| - 1;
      hide Next;
      var before := RunOf(fd, events[..n]);
      states := before + [if S.Known(before[n].s.procs) then Next(before[n], events[n]) else before[n]];
      forall k | 0 <= k < |events|
        ensures states[k + 1] == if S.Known(states[k].s.procs) then Next(states[k], events[k]) else states[k]
      {
        if k < n { assert events[..n][k] == events[k]; }
      }
    }
  }

  // --- Messages in flight ---

  function InFlight(j: Joint): seq<S.Msg> {
    if j.heard <= |j.said| then j.said[j.heard..] else []
  }

  function LastReport(ms: seq<S.Msg>): Option<S.Status> {
    if ms == [] then None
    else if ms[|ms| - 1].Report? then Some(ms[|ms| - 1].status)
    else LastReport(ms[..|ms| - 1])
  }

  function LastNonPing(ms: seq<S.Msg>): Option<S.Msg> {
    if ms == [] then None
    else if ms[|ms| - 1] != S.Heartbeat then Some(ms[|ms| - 1])
    else LastNonPing(ms[..|ms| - 1])
  }

  /** The last message that is not a ping, if there is one, is a report. */
  predicate EndsInReport(ms: seq<S.Msg>) {
    LastNonPing(ms).Some? ==> LastNonPing(ms).value.Report?
  }

  lemma SnocMsg(ms: seq<S.Msg>, m: S.Msg)
    ensures LastReport(ms + [m]) == if m.Report? then Some(m.status) else LastReport(ms)
    ensures LastNonPing(ms + [m]) == if m != S.Heartbeat then Some(m) else LastNonPing(ms)
  {
    assert (ms + [m])[..|ms|] == ms;
  }

  /** Taking the first message off. */
  lemma {:induction false} TailMsg(ms: seq<S.Msg>)
    requires ms != []
    ensures LastReport(ms[1..]).Some? ==> LastReport(ms[1..]) == LastReport(ms)
    ensures LastReport(ms[1..]).None? ==> LastReport(ms) == if ms[0].Report? then Some(ms[0].status) else None
    ensures LastNonPing(ms[1..]).Some? ==> LastNonPing(ms[1..]) == LastNonPing(ms)
    ensures LastNonPing(ms[1..]).None? ==> LastNonPing(ms) == if ms[0] != S.Heartbeat then Some(ms[0]) else None
    decreases |ms|
  {
    if |ms| == 1 {
      assert ms[..0] == [] && ms[1..] == [];
    } else {
      var front := ms[..|ms| - 1];
      TailMsg(front);
      assert ms[1..][..|ms| - 2] == front[1..];
    }
  }

  lemma {:induction false} EndsInReportIsLast(ms: seq<S.Msg>)
    requires EndsInReport(ms)
    ensures LastNonPing(ms) == match LastReport(ms) case Some(t) => Some(S.Report(t)) case None => None
    decreases |ms|
  {
    if ms != [] && ms[|ms| - 1] == S.Heartbeat {
      EndsInReportIsLast(ms[..|ms| - 1]);
    } else if ms != [] {
      assert ms[|ms| - 1].Report?;
    }
  }

  // --- Agreement ---

  /** The modes a client can be in once it has heard the report `t` and nothing newer. */
  predicate Settled(t: S.Status, m: C.Mode) {
    m == C.NO_CONNECTION ||
    match t
    case Offline => m == C.NO_INTERNET
    case Calm => m == C.IDLE || m == C.IDLE_SCROFF || m == C.MANUAL_ACTIVE
    case Calling => m != C.NO_INTERNET
  }

  predicate Agree(j: Joint) {
    var flight := InFlight(j);
    j.heard <= |j.said|
    && LastReport(j.said) == j.s.told
    && (j.c.connecting ==> j.heard == 0 && j.c.mode == C.NO_CONNECTION)
    && (forall i :: 0 <= i < |j.said| && j.said[i] == S.End ==> i == 0)
    && (j.s.place == S.Entering ==> j.said == [])
    && (LastReport(flight).Some? ==> LastReport(flight) == j.s.told)
    && (j.s.told.Some? && LastReport(flight).None? ==> Settled(j.s.told.value, j.c.mode))
    && (j.s.told == Some(S.Offline) ==> EndsInReport(flight))
  }

  // --- Main results ---

  /** The last message in flight to the client that is not a ping is "no network", or there is none and the
      client shows "no internet" or is disconnected. */
  predicate OfflineInFlight(j: Joint) {
    match LastNonPing(InFlight(j))
    case Some(m) => m == S.Report(S.Offline)
    case None => j.c.mode == C.NO_INTERNET || j.c.mode == C.NO_CONNECTION
  }

  /** Whenever the session's status is "no network", this is so, except exactly while a newer report is being
      flushed, when the status lags: then it is so only for a client that is disconnected with nothing but
      pings in flight. */
  lemma OfflineAgreementIff(fd: int, states: seq<Joint>, events: seq<Event>, n: nat)
    requires Behaviour(fd, states, events) && n < |states|
    ensures var j := states[n];
            SR.InLoop(j.s.place) && j.s.prev == S.Offline ==>
              (OfflineInFlight(j)
               <==> (j.s.place.DrainStatus? ==> LastNonPing(InFlight(j)).None? && j.c.mode == C.NO_CONNECTION))
  {
    RunAgrees(fd, states, events, n);
    var j := states[n];
    hide Behaviour, LastReport, LastNonPing, SR.Sound;
    if j.s.told == Some(S.Offline) { EndsInReportIsLast(InFlight(j)); }
    NonPingReport(InFlight(j));
  }

  /** While a report is being flushed it is the last in flight, or the client has heard it and is in one of
      its modes. */
  lemma FlushedReport(fd: int, states: seq<Joint>, events: seq<Event>, n: nat)
    requires Behaviour(fd, states, events) && n < |states|
    ensures var j := states[n];
            j.s.place.DrainStatus? ==>
              match LastReport(InFlight(j))
              case Some(t) => t == j.s.place.next
              case None => Settled(j.s.place.next, j.c.mode)
  {
    RunAgrees(fd, states, events, n);
    hide Behaviour, LastReport, LastNonPing, SR.Sound, Settled;
  }

  /** Five awaits into a session on which the line comes up at once, the status is still "no network", but the
      last message in flight is the report that the line is quiet. */
  lemma FlushingDisagrees(fd: int) returns (states: seq<Joint>, events: seq<Event>)
    ensures Behaviour(fd, states, events) && |events| == 5
    ensures var j := states[5];
            SR.InLoop(j.s.place) && j.s.prev == S.Offline && !OfflineInFlight(j)
  {
    hide *;
    var w := S.Wake(false, false, ' ', true, S.Calm, false, false);
    events := seq(5, _ => ServerEvent(S.Session(w)));
    states := RunOf(fd, events);
    var s1, s2, s3, s4, s5 := CalmLine(w);
    StartsCalm(fd, states, events);
    Woken(fd, states, events, 0, w, s1, [S.End]);
    Woken(fd, states, events, 1, w, s2, [S.Report(S.Offline)]);
    Woken(fd, states, events, 2, w, s3, []);
    Woken(fd, states, events, 3, w, s4, []);
    Woken(fd, states, events, 4, w, s5, [S.Report(S.Calm)]);
    assert [] + [S.End] + [S.Report(S.Offline)] + [] + [] == [S.End, S.Report(S.Offline)];
    LastSays(states[5]);
  }

  /** Once no report is in flight, a client that shows a call is right: the session's status is "call".
      And it shows "no internet" only if that is what was last reported. */
  lemma CallAgreement(fd: int, states: seq<Joint>, events: seq<Event>, n: nat)
    requires Behaviour(fd, states, events) && n < |states|
    ensures var j := states[n];
            SR.InLoop(j.s.place) && LastReport(InFlight(j)).None? ==>
              (CR.InCall(j.c.mode) ==> if j.s.place.DrainStatus? then j.s.place.next == S.Calling
                                       else j.s.prev == S.Calling)
              && (j.c.mode == C.NO_INTERNET ==> if j.s.place.DrainStatus? then j.s.place.next == S.Offline
                                                else j.s.prev == S.Offline)
  {
    RunAgrees(fd, states, events, n);
    hide Behaviour, LastReport, LastNonPing, SR.Sound;
  }

  /** Audio children started by the client, "audio on" replies of the server and accept commands of the
      client: never more of one than of the next. */
  lemma AudioCausality(fd: int, states: seq<Joint>, events: seq<Event>, n: nat)
    requires Behaviour(fd, states, events) && n < |states|
    ensures var j := states[n];
            CountEffect(j.c.log, FORKED_AUDIO) <= CountMsg(j.said, S.AudioOn) <= CountCmd(Commands(j.c.log), 'a')
  {
    RunCausal(fd, states, events, n);
    var j := states[n];
    hide Behaviour;
    CountMsgPrefix(j.said, j.heard, S.AudioOn);
    CountPrefix(Commands(j.c.log), j.taken, 'a');
  }

  /** Over every joint run, each accept command answers a call that the server reported: the client heard
      that report before, and entered no resting mode in between. */
  lemma AcceptAnswersReport(fd: int, states: seq<Joint>, events: seq<Event>, n: nat, i: nat) returns (at: nat, m: nat)
    requires Behaviour(fd, states, events) && n < |states|
    requires i < |states[n].c.log| && states[n].c.log[i] == C.Sent('a')
    ensures var j := states[n];
            at < i && j.c.log[at] == C.Got('s', '2')
            && (forall k :: at < k < i && j.c.log[k].Entered? ==> !CR.Resting(j.c.log[k].mode))
            && m == |Gots(j.c.log[..at])| < j.heard <= |j.said| && j.said[m] == S.Report(S.Calling)
  {
    hide Behaviour, CR.Inv, Gots;
    RunClient(fd, states, events, n);
    RunCausal(fd, states, events, n);
    var j := states[n];
    CR.AcceptAfterCall(j.c, i);
    at :| 0 <= at < i && j.c.log[at] == C.Got('s', '2')
          && forall k :: at < k < i && j.c.log[k].Entered? ==> !CR.Resting(j.c.log[k].mode);
    m := |Gots(j.c.log[..at])|;
    GotsAt(j.c.log, at);
    assert Bytes(j.said[m]) == ('s', '2');
  }

  /** What each message leads to at a client that has a connection, as it is written and read on the wire: the end of
      streams and a quiet line give the idle screen, a lost line "no internet", a call its request or acceptance,
      video and audio their modes when their children run, and a heartbeat counts. */
  lemma HeardOutcome(c: C.Client, pid: int)
    requires CR.Inv(c) && c.sock != C.NONE && c.mode != C.NO_CONNECTION && pid != C.NONE
    ensures Heard(c, S.End, true, pid).mode == C.IDLE && Heard(c, S.Report(S.Calm), true, pid).mode == C.IDLE
    ensures Heard(c, S.Report(S.Offline), true, pid).mode == C.NO_INTERNET
    ensures Heard(c, S.Report(S.Calling), true, pid).mode
            == if c.mode == C.MANUAL_ACTIVE then C.REQUEST_ACTIVE else C.IDLE_REQUEST
    ensures Commands(Heard(c, S.Report(S.Calling), true, pid).log)
            == Commands(c.log) + if c.mode == C.MANUAL_ACTIVE then "a" else "r"
    ensures var d := Heard(c, S.VideoOn, true, pid);
            d.v != C.NONE && d.mode == if c.mode == C.IDLE_REQUEST then C.REQUEST_ACTIVE else C.MANUAL_ACTIVE
    ensures var d := Heard(c, S.AudioOn, true, pid);
            d.mode == (if c.mode == C.REQUEST_ACTIVE then C.REQUEST_RESPONDING else c.mode)
            && (c.mode == C.REQUEST_ACTIVE ==> d.a != C.NONE)
    ensures var d := Heard(c, S.Heartbeat, true, pid); d.mode == c.mode && d.keepalive > c.keepalive && d.keepalive >= 1
  {
    hide C.OnMessage, CR.Inv, Commands;
    CO.ReportOutcome(c, '\n', true, pid);
    CO.CallOutcome(c, pid);
    CO.StreamOutcome(c, '\n', true, pid);
    CO.OtherOutcome(c, 'p', '\n', true, pid);
  }

  // --- How reports settle a client ---

  lemma {:induction false} NoneWithout(ms: seq<S.Msg>, i: nat)
    requires i <= |ms| && LastReport(ms).None?
    ensures LastReport(ms[i..]).None?
    decreases |ms|
  {
    if i < |ms| {
      assert ms[i..][..|ms| - 1 - i] == ms[..|ms| - 1][i..];
      NoneWithout(ms[..|ms| - 1], i);
    }
  }

  /** Keys, lost connections and timers keep a client where its last report put it, and they neither
      start nor finish a connection attempt, except that a ready socket ends one. */
  lemma KeyKeeps(c: C.Client, key: C.Key, ok: bool)
    ensures forall t :: Settled(t, c.mode) ==> Settled(t, C.OnKey(c, key, ok).mode)
    ensures C.OnKey(c, key, ok).connecting == c.connecting
    ensures c.mode == C.NO_CONNECTION ==> C.OnKey(c, key, ok) == c
  {
    forall d, mode ensures C.SwitchMode(d, mode).connecting == d.connecting && C.SwitchMode(d, mode).mode == mode {
      SwitchConnecting(d, mode);
    }
    hide C.SwitchMode;
  }

  lemma LostKeeps(c: C.Client)
    ensures forall t :: Settled(t, c.mode) ==> Settled(t, C.OnSocket(c, C.HangUp, true, C.NONE).mode)
    ensures C.OnSocket(c, C.HangUp, true, C.NONE).connecting == c.connecting
    ensures c.mode == C.NO_CONNECTION ==> C.OnSocket(c, C.HangUp, true, C.NONE) == c
  {
  }

  lemma TimerKeeps(c: C.Client, clock: C.Clock, ok: bool)
    requires !clock.reconnect && (c.connecting ==> c.mode == C.NO_CONNECTION)
    ensures !c.connecting ==> forall t :: Settled(t, c.mode) ==> Settled(t, C.OnTimer(c, clock, ok).mode)
    ensures C.OnTimer(c, clock, ok).connecting ==> c.connecting && C.OnTimer(c, clock, ok).mode == C.NO_CONNECTION
  {
    forall d, mode ensures C.SwitchMode(d, mode).connecting == d.connecting && C.SwitchMode(d, mode).mode == mode {
      SwitchConnecting(d, mode);
    }
    hide C.SwitchMode, C.CloseSocket;
  }

  /** A report puts the client into one of its modes. */
  lemma ReportSettles(c: C.Client, t: S.Status, ok: bool, pid: int)
    ensures var (b0, b1) := Bytes(S.Report(t)); Settled(t, C.OnMessage(c, b0, b1, ok, pid).mode)
  {
  }

  /** Between reports the other messages keep the client there. */
  lemma OtherKeepsSettled(c: C.Client, t: S.Status, m: S.Msg, ok: bool, pid: int)
    requires Settled(t, c.mode) && c.mode != C.NO_CONNECTION && !m.Report? && m != S.End
    requires t == S.Offline ==> m == S.Heartbeat
    ensures var (b0, b1) := Bytes(m); Settled(t, C.OnMessage(c, b0, b1, ok, pid).mode)
  {
  }

  lemma SwitchConnecting(c: C.Client, m: C.Mode)
    ensures C.SwitchMode(c, m).connecting == c.connecting && C.SwitchMode(c, m).mode == m
  {
  }

  lemma MessageConnecting(c: C.Client, m: S.Msg, ok: bool, pid: int)
    ensures var (b0, b1) := Bytes(m); C.OnMessage(c, b0, b1, ok, pid).connecting == c.connecting
  {
    forall d, mode ensures C.SwitchMode(d, mode).connecting == d.connecting {
      SwitchConnecting(d, mode);
    }
    hide C.SwitchMode;
  }

  /** The client after hearing the next message. */
  function Heard(c: C.Client, m: S.Msg, ok: bool, pid: int): C.Client {
    var (b0, b1) := Bytes(m);
    C.OnMessage(c, b0, b1, ok, pid)
  }

  lemma DeliverAgrees(j: Joint, ok: bool, pid: int)
    requires Agree(j) && S.Known(j.s.procs)
    ensures Agree(Next(j, Deliver(ok, pid)))
  {
    if j.heard < |j.said| && j.c.mode != C.NO_CONNECTION && j.c.sock != C.NONE {
      var c := Heard(j.c, j.said[j.heard], ok, pid);
      MessageConnecting(j.c, j.said[j.heard], ok, pid);
      if j.s.told.Some? && LastReport(InFlight(j)[1..]).None? {
        HeardSettles(j, ok, pid);
      }
      assert Next(j, Deliver(ok, pid)) == j.(c := c, heard := j.heard + 1);
      HeardAgrees(j, c);
      hide Agree, Heard, Next;
    }
  }

  lemma HeardAgrees(j: Joint, c: C.Client)
    requires Agree(j) && j.heard < |j.said| && !j.c.connecting && !c.connecting
    requires j.s.told.Some? && LastReport(InFlight(j)[1..]).None? ==> Settled(j.s.told.value, c.mode)
    ensures Agree(j.(c := c, heard := j.heard + 1))
  {
    var flight := InFlight(j);
    assert InFlight(j.(c := c, heard := j.heard + 1)) == flight[1..] == j.said[j.heard + 1..];
    assert flight != [];
    if j.s.told.None? { NoneWithout(j.said, j.heard + 1); }
    hide InFlight, LastReport, LastNonPing, Settled;
    TailMsg(flight);
  }

  lemma HeardSettles(j: Joint, ok: bool, pid: int)
    requires Agree(j) && j.heard < |j.said| && j.c.mode != C.NO_CONNECTION && j.s.told.Some?
    requires LastReport(InFlight(j)[1..]).None?
    ensures Settled(j.s.told.value, Heard(j.c, InFlight(j)[0], ok, pid).mode)
  {
    var flight := InFlight(j);
    var m := flight[0];
    TailMsg(flight);
    if m.Report? {
      ReportSettles(j.c, m.status, ok, pid);
    } else {
      assert j.heard == 0 ==> flight == j.said;
      if j.s.told == Some(S.Offline) { EndsInReportIsLast(flight); }
      OtherKeepsSettled(j.c, j.s.told.value, m, ok, pid);
    }
    hide C.OnMessage, Settled, LastReport, LastNonPing;
  }

  lemma ClientAgrees(j: Joint, e: Event)
    requires Agree(j) && S.Known(j.s.procs) && (e.UserKey? || e.Lost? || e.ClientTimer?)
    ensures Agree(Next(j, e))
  {
    assert j.heard == 0 ==> InFlight(j) == j.said;
    match e {
      case UserKey(key, ok) => KeyKeeps(j.c, key, ok);
      case Lost => LostKeeps(j.c);
      case ClientTimer(t, ok) => TimerKeeps(j.c, t.(reconnect := false), ok);
      case _ =>
    }
    hide C.OnKey, C.OnSocket, C.OnTimer, Settled, LastReport, LastNonPing;
  }

  /** What a resuming session can say, given what it has reported. */
  lemma SaysInTurn(s: S.Server, w: S.Wake)
    requires SR.Inv(s)
    requires s.place != S.Done && s.place != S.Crashed
    ensures var n := S.Resume(s, w);
            |n.out| <= 1
            && (n.out == [] ==> n.s.told == s.told)
            && (n.out != [] ==>
                  var m := n.out[0];
                  n.s.told == (if m.Report? then Some(m.status) else s.told)
                  && (m == S.End ==> s.place == S.Entering)
                  && (m == S.VideoOn || m == S.AudioOn ==> s.told.Some? && s.told != Some(S.Offline)))
            && n.s.place != S.Entering
  {
    hide SR.Sound, S.StopProc, S.StopAudio, S.StartAudio, S.StartVideo;
  }

  lemma WakeAgrees(j: Joint, w: S.Wake)
    requires Agree(j) && SR.Inv(j.s)
    ensures Agree(WakeServer(j, w))
  {
    if j.s.place != S.Done && j.s.place != S.Crashed {
      var sent := Commands(j.c.log);
      var w' := if j.s.place == S.Reading && !w.raises && j.taken < |sent| then w.(command := sent[j.taken]) else w;
      SaysInTurn(j.s, w');
      var n := S.Resume(j.s, w');
      if n.out != [] { SayAgrees(j, n.s, n.out[0]); }
      assert n.out == [] ==> j.said + n.out == j.said;
      assert n.out != [] ==> n.out == [n.out[0]];
      hide S.Resume, Settled, LastReport, LastNonPing, Commands;
    }
  }

  lemma SayAgrees(j: Joint, s: S.Server, m: S.Msg)
    requires Agree(j)
    requires s.told == (if m.Report? then Some(m.status) else j.s.told)
    requires m == S.End ==> j.s.place == S.Entering
    requires m == S.VideoOn || m == S.AudioOn ==> j.s.told.Some? && j.s.told != Some(S.Offline)
    requires s.place != S.Entering
    ensures forall taken :: Agree(j.(s := s, said := j.said + [m], taken := taken))
  {
    var flight := InFlight(j);
    assert (j.said + [m])[j.heard..] == flight + [m];
    SnocMsg(flight, m);
    SnocMsg(j.said, m);
    hide LastReport, LastNonPing, Settled;
  }

  lemma {:induction false} RunAgrees(fd: int, states: seq<Joint>, events: seq<Event>, n: nat)
    requires Behaviour(fd, states, events) && n < |states|
    ensures SR.Inv(states[n].s) && Agree(states[n])
    decreases n
  {
    hide *;
    Starts(fd, states, events);
    if n == 0 {
      InitialAgrees(fd);
    } else {
      RunAgrees(fd, states, events, n - 1);
      Moves(fd, states, events, n - 1);
      StepAgrees(states[n - 1], events[n - 1]);
    }
  }

  lemma InitialAgrees(fd: int)
    ensures SR.Inv(Initial(fd).s) && Agree(Initial(fd))
  {
    assert C.Reconnect(C.Initial(), C.Clock(true, fd, true, C.Pending, false, false)).mode == C.NO_CONNECTION;
    hide C.Initial, C.Reconnect;
  }

  lemma Starts(fd: int, states: seq<Joint>, events: seq<Event>)
    requires Behaviour(fd, states, events)
    ensures |states| == |events| + 1 && states[0] == Initial(fd)
  {
  }

  /** Where the invariant holds, a step is what the event does. */
  lemma Moves(fd: int, states: seq<Joint>, events: seq<Event>, n: nat)
    requires Behaviour(fd, states, events) && n < |events| && n < |states| && SR.Inv(states[n].s)
    ensures S.Known(states[n].s.procs) && n + 1 < |states| && states[n + 1] == Next(states[n], events[n])
  {
    hide Next;
  }

  lemma StepAgrees(j: Joint, e: Event)
    requires SR.Inv(j.s) && Agree(j)
    ensures SR.Inv(Next(j, e).s) && Agree(Next(j, e))
  {
    assert S.Known(j.s.procs);
    hide SR.Inv, Agree, S.Resume;
    match e
    case Deliver(ok, pid) => DeliverAgrees(j, ok, pid);
    case ServerEvent(Session(w)) =>
      WakeAgrees(j, w);
      WakeInv(j, w);
    case ServerEvent(other) =>
      SR.NextInv(j.s, other);
      OtherAgrees(j, other);
    case UserKey(_, _) => ClientAgrees(j, e);
    case Lost => ClientAgrees(j, e);
    case ClientTimer(_, _) => ClientAgrees(j, e);
  }

  lemma WakeInv(j: Joint, w: S.Wake)
    requires SR.Inv(j.s)
    ensures SR.Inv(WakeServer(j, w).s)
  {
    var sent := Commands(j.c.log);
    assert S.Known(j.s.procs);
    SR.ResumeInv(j.s, w);
    if j.taken < |sent| { SR.ResumeInv(j.s, w.(command := sent[j.taken])); }
    hide S.Resume, SR.Inv;
  }

  lemma OtherAgrees(j: Joint, e: S.Event)
    requires Agree(j) && S.Known(j.s.procs) && !e.Session?
    ensures Agree(Next(j, ServerEvent(e)))
  {
    hide S.Supervise, LastReport, LastNonPing, Settled;
  }

  lemma {:induction false} NonPingReport(ms: seq<S.Msg>)
    ensures LastNonPing(ms).Some? && LastNonPing(ms).value.Report? ==>
              LastReport(ms) == Some(LastNonPing(ms).value.status)
    ensures LastNonPing(ms).None? ==> LastReport(ms).None?
    decreases |ms|
  {
    if ms != [] { NonPingReport(ms[..|ms| - 1]); }
  }

  lemma StartsCalm(fd: int, states: seq<Joint>, events: seq<Event>)
    requires Behaviour(fd, states, events)
    ensures |states| == |events| + 1 && states[0].s == S.Initial() && states[0].said == [] && states[0].heard == 0
  {
  }

  lemma LastSays(j: Joint)
    requires j.heard == 0 && j.said == [S.End, S.Report(S.Offline)] + [S.Report(S.Calm)]
    ensures !OfflineInFlight(j)
  {
    assert InFlight(j) == j.said;
    SnocMsg([S.End, S.Report(S.Offline)], S.Report(S.Calm));
    hide LastNonPing, InFlight;
  }

  /** The first five awaits of a session on a quiet line. */
  lemma CalmLine(w: S.Wake) returns (s1: S.Server, s2: S.Server, s3: S.Server, s4: S.Server, s5: S.Server)
    requires w == S.Wake(false, false, ' ', true, S.Calm, false, false)
    ensures Waits(S.Initial()) && Waits(s1) && Waits(s2) && Waits(s3) && Waits(s4)
    ensures S.Resume(S.Initial(), w) == S.Step(s1, [S.End]) && S.Resume(s1, w) == S.Step(s2, [S.Report(S.Offline)])
    ensures S.Resume(s2, w) == S.Step(s3, []) && S.Resume(s3, w) == S.Step(s4, [])
    ensures S.Resume(s4, w) == S.Step(s5, [S.Report(S.Calm)])
    ensures SR.InLoop(s5.place) && s5.prev == S.Offline
  {
    s1 := S.Initial().(place := S.DrainEnd);
    s2 := s1.(place := S.DrainFirst, told := Some(S.Offline));
    s3 := s2.(place := S.Polling);
    s4 := s3.(place := S.Asking);
    s5 := s4.(place := S.DrainStatus(S.Calm), told := Some(S.Calm));
  }

  predicate Waits(s: S.Server) {
    s.place != S.Done && s.place != S.Crashed && s.place != S.Reading && S.Known(s.procs)
  }

  /** The session resumes at event `n`. */
  lemma Woken(fd: int, states: seq<Joint>, events: seq<Event>, n: nat, w: S.Wake, s: S.Server, out: seq<S.Msg>)
    requires Behaviour(fd, states, events) && n < |events| && events[n] == ServerEvent(S.Session(w))
    requires n < |states| && Waits(states[n].s) && S.Resume(states[n].s, w) == S.Step(s, out)
    ensures n + 1 < |states| && states[n + 1] == states[n].(s := s, said := states[n].said + out)
  {
    hide S.Resume, Initial;
  }

  // --- Causality ---

  function CountEffect(log: seq<C.Effect>, e: C.Effect): nat {
    if log == [] then 0 else CountEffect(log[..|log| - 1], e) + if log[|log| - 1] == e then 1 else 0
  }

  function CountMsg(ms: seq<S.Msg>, m: S.Msg): nat {
    if ms == [] then 0 else CountMsg(ms[..|ms| - 1], m) + if ms[|ms| - 1] == m then 1 else 0
  }

  function CountCmd(cmds: seq<char>, c: char): nat {
    if cmds == [] then 0 else CountCmd(cmds[..|cmds| - 1], c) + if cmds[|cmds| - 1] == c then 1 else 0
  }

  const GOT_AUDIO := C.Got('a', '\n')
  const FORKED_AUDIO := C.Forked(C.Audio)

  /** An accept command is being served. */
  predicate Serving(place: S.Place) {
    place == S.Accepting || place == S.Opening
  }

  /** What the client has received, in order. */
  function Gots(log: seq<C.Effect>): seq<(char, char)> {
    if log == [] then []
    else Gots(log[..|log| - 1]) + if log[|log| - 1].Got? then [(log[|log| - 1].b0, log[|log| - 1].b1)] else []
  }

  function AllBytes(ms: seq<S.Msg>): (r: seq<(char, char)>)
    ensures |r| == |ms| && forall i :: 0 <= i < |ms| ==> r[i] == Bytes(ms[i])
  {
    if ms == [] then [] else AllBytes(ms[..|ms| - 1]) + [Bytes(ms[|ms| - 1])]
  }

  predicate Causal(j: Joint) {
    j.heard <= |j.said| && j.taken <= |Commands(j.c.log)|
    && Gots(j.c.log) == AllBytes(j.said[..j.heard])
    && CountEffect(j.c.log, FORKED_AUDIO) <= CountEffect(j.c.log, GOT_AUDIO)
    && CountEffect(j.c.log, GOT_AUDIO) == CountMsg(j.said[..j.heard], S.AudioOn)
    && CountMsg(j.said, S.AudioOn) + (if Serving(j.s.place) then 1 else 0)
       <= CountCmd(Commands(j.c.log)[..j.taken], 'a')
  }

  lemma SnocEffect(log: seq<C.Effect>, e: C.Effect)
    ensures forall f :: CountEffect(log + [e], f) == CountEffect(log, f) + if e == f then 1 else 0
    ensures Gots(log + [e]) == Gots(log) + if e.Got? then [(e.b0, e.b1)] else []
    ensures Commands(log + [e]) == Commands(log) + if e.Sent? then [e.cmd] else []
  {
    assert (log + [e])[..|log|] == log;
  }

  /** `d` follows `c` without audio being forked or a message heard. */
  predicate Follows(c: C.Client, d: C.Client) {
    CountEffect(d.log, FORKED_AUDIO) == CountEffect(c.log, FORKED_AUDIO)
    && CountEffect(d.log, GOT_AUDIO) == CountEffect(c.log, GOT_AUDIO)
    && Gots(d.log) == Gots(c.log)
    && Commands(c.log) <= Commands(d.log)
  }

  lemma NoteFollows(c: C.Client, e: C.Effect)
    requires e != FORKED_AUDIO && !e.Got?
    ensures Follows(c, C.Note(c, [e]))
  {
    SnocEffect(c.log, e);
  }

  lemma SwitchFollows(c: C.Client, m: C.Mode)
    ensures Follows(c, C.SwitchMode(c, m))
  {
    hide CountEffect, Gots, Commands;
    NoteFollows(c, C.Reaped(C.Video));
    NoteFollows(C.StopVideo(c), C.Reaped(C.Audio));
    var s := if C.Stopping(m) then C.StopPrograms(c) else c;
    NoteFollows(s, C.Entered(m));
    NoteFollows(C.Note(s, [C.Entered(m)]), C.SocketClosed);
  }

  lemma SendFollows(c: C.Client, cmd: char, ok: bool)
    ensures Follows(c, C.Send(c, cmd, ok))
  {
    NoteFollows(c, C.Sent(cmd));
    SwitchFollows(c, C.NO_CONNECTION);
  }

  lemma KeyFollows(c: C.Client, key: C.Key, ok: bool)
    ensures Follows(c, C.OnKey(c, key, ok))
  {
    hide CountEffect, Gots, Commands, C.SwitchMode, C.Send;
    SwitchFollows(c, C.IDLE);
    var w := if c.mode == C.IDLE_SCROFF then C.SwitchMode(c, C.IDLE) else c;
    SendFollows(w, 'r', ok);
    SendFollows(w, 'a', ok);
    SendFollows(w, 'o', ok);
    SendFollows(w, 'd', ok);
    SwitchFollows(C.Send(w, 'd', ok), C.IDLE);
  }

  lemma TimerFollows(c: C.Client, t: C.Clock, ok: bool)
    requires !t.reconnect
    ensures Follows(c, C.OnTimer(c, t, ok))
  {
    hide CountEffect, Gots, Commands, C.SwitchMode, C.Send;
    SwitchFollows(c, C.IDLE_SCROFF);
    var s := if c.mode == C.IDLE && t.screenOff then C.SwitchMode(c, C.IDLE_SCROFF) else c;
    SendFollows(s, 'p', ok);
    SwitchFollows(C.Send(s, 'p', ok), C.NO_CONNECTION);
    NoteFollows(c.(connecting := false), C.SocketClosed);
    SwitchFollows(c.(connecting := false), C.NO_INTERNET);
  }

  lemma StatusFollows(c: C.Client, status: char, ok: bool)
    ensures Follows(c, C.OnStatus(c, status, ok))
  {
    hide CountEffect, Gots, Commands, C.SwitchMode, C.Send;
    SwitchFollows(c, C.NO_INTERNET);
    SwitchFollows(c, C.IDLE);
    SwitchFollows(c, C.NO_CONNECTION);
    SwitchFollows(c, C.REQUEST_ACTIVE);
    SendFollows(C.SwitchMode(c, C.REQUEST_ACTIVE), 'a', ok);
    SendFollows(c, 'r', ok);
    SwitchFollows(C.Send(c, 'r', ok), C.IDLE_REQUEST);
  }

  /** Hearing a message counts it, and forks audio at most when it is the audio message. */
  lemma HeardCounts(c: C.Client, m: S.Msg, ok: bool, pid: int)
    ensures var d := Heard(c, m, ok, pid);
            var one := if m == S.AudioOn then 1 else 0;
            CountEffect(d.log, GOT_AUDIO) == CountEffect(c.log, GOT_AUDIO) + one
            && CountEffect(d.log, FORKED_AUDIO) <= CountEffect(c.log, FORKED_AUDIO) + one
            && Gots(d.log) == Gots(c.log) + [Bytes(m)]
            && Commands(c.log) <= Commands(d.log)
  {
    hide CountEffect, Gots, Commands, C.SwitchMode, C.OnStatus;
    var (b0, b1) := Bytes(m);
    SnocEffect(c.log, C.Got(b0, b1));
    var g := C.Note(c, [C.Got(b0, b1)]);
    StatusFollows(g, b1, ok);
    NoteFollows(g, C.Forked(C.Video));
    SnocEffect(g.log, FORKED_AUDIO);
    var v, a := C.StartVideo(g, pid), C.StartAudio(g, pid);
    SwitchFollows(v, C.REQUEST_ACTIVE);
    SwitchFollows(v, C.MANUAL_ACTIVE);
    SwitchFollows(a, C.REQUEST_RESPONDING);
    SwitchFollows(g, C.IDLE);
  }

  lemma {:induction false} CountPrefix(cmds: seq<char>, n: nat, c: char)
    requires n <= |cmds|
    ensures CountCmd(cmds[..n], c) <= CountCmd(cmds, c)
    decreases |cmds|
  {
    if n < |cmds| {
      assert cmds[..|cmds| - 1][..n] == cmds[..n];
      CountPrefix(cmds[..|cmds| - 1], n, c);
    } else {
      assert cmds[..n] == cmds;
    }
  }

  lemma {:induction false} CountMsgPrefix(ms: seq<S.Msg>, n: nat, m: S.Msg)
    requires n <= |ms|
    ensures CountMsg(ms[..n], m) <= CountMsg(ms, m)
    decreases |ms|
  {
    if n < |ms| {
      assert ms[..|ms| - 1][..n] == ms[..n];
      CountMsgPrefix(ms[..|ms| - 1], n, m);
    } else {
      assert ms[..n] == ms;
    }
  }

  lemma ClientCausal(j: Joint, d: C.Client)
    requires Causal(j) && Follows(j.c, d)
    ensures Causal(j.(c := d))
  {
    assert Commands(d.log)[..j.taken] == Commands(j.c.log)[..j.taken];
  }

  lemma DeliverCausal(j: Joint, ok: bool, pid: int)
    requires Causal(j) && S.Known(j.s.procs)
    ensures Causal(Next(j, Deliver(ok, pid)))
  {
    hide *;
    assert j.heard <= |j.said| by { HeardIn(j); }
    if j.heard < |j.said| && j.c.mode != C.NO_CONNECTION && j.c.sock != C.NONE {
      var d := Heard(j.c, j.said[j.heard], ok, pid);
      HeardCounts(j.c, j.said[j.heard], ok, pid);
      HeardCausal(j, d);
      DeliverIs(j, ok, pid);
    } else {
      DeliverIs(j, ok, pid);
    }
  }

  lemma HeardIn(j: Joint)
    requires Causal(j)
    ensures j.heard <= |j.said|
  {
  }

  lemma DeliverIs(j: Joint, ok: bool, pid: int)
    requires S.Known(j.s.procs)
    ensures Next(j, Deliver(ok, pid))
            == if j.heard < |j.said| && j.c.mode != C.NO_CONNECTION && j.c.sock != C.NONE
               then j.(c := Heard(j.c, j.said[j.heard], ok, pid), heard := j.heard + 1) else j
  {
    hide C.OnMessage;
  }

  lemma HeardCausal(j: Joint, d: C.Client)
    requires Causal(j) && j.heard < |j.said|
    requires var m := j.said[j.heard];
             var one := if m == S.AudioOn then 1 else 0;
             CountEffect(d.log, GOT_AUDIO) == CountEffect(j.c.log, GOT_AUDIO) + one
             && CountEffect(d.log, FORKED_AUDIO) <= CountEffect(j.c.log, FORKED_AUDIO) + one
             && Gots(d.log) == Gots(j.c.log) + [Bytes(m)] && Commands(j.c.log) <= Commands(d.log)
    ensures Causal(j.(c := d, heard := j.heard + 1))
  {
    hide CountEffect, Gots, Commands, CountMsg, CountCmd, AllBytes, Bytes;
    OneMoreHeard(j.said, j.heard);
    assert Commands(d.log)[..j.taken] == Commands(j.c.log)[..j.taken];
  }

  lemma OneMoreHeard(said: seq<S.Msg>, n: nat)
    requires n < |said|
    ensures CountMsg(said[..n + 1], S.AudioOn) == CountMsg(said[..n], S.AudioOn) + if said[n] == S.AudioOn then 1 else 0
    ensures AllBytes(said[..n + 1]) == AllBytes(said[..n]) + [Bytes(said[n])]
  {
    assert said[..n + 1][..n] == said[..n];
  }

  /** The server answers "audio on" only when it has taken an accept command and not yet answered it. */
  lemma ServesInTurn(s: S.Server, w: S.Wake)
    requires SR.Inv(s)
    requires s.place != S.Done && s.place != S.Crashed
    ensures var n := S.Resume(s, w);
            |n.out| <= 1
            && (n.out == [S.AudioOn] ==> Serving(s.place) && !Serving(n.s.place))
            && (Serving(n.s.place) ==> Serving(s.place) || (s.place == S.Reading && !w.raises && w.command == 'a'))
  {
    hide SR.Sound, S.StopProc, S.StopAudio, S.StartAudio, S.StartVideo;
  }

  lemma WakeCausal(j: Joint, w: S.Wake)
    requires Causal(j) && SR.Inv(j.s)
    ensures Causal(WakeServer(j, w))
  {
    if j.s.place != S.Done && j.s.place != S.Crashed {
      var sent := Commands(j.c.log);
      var takes := j.s.place == S.Reading && !w.raises;
      if !takes || j.taken < |sent| {
        var w' := if takes then w.(command := sent[j.taken]) else w;
        ServesInTurn(j.s, w');
        var n := S.Resume(j.s, w');
        SaidCausal(j, n.s, n.out, if takes then 1 else 0);
      }
      hide S.Resume, Commands, CountEffect, CountMsg, CountCmd, SR.Inv;
    }
  }

  /** The server has taken `t` commands and said at most one thing. */
  lemma SaidCausal(j: Joint, s: S.Server, out: seq<S.Msg>, t: nat)
    requires Causal(j) && t <= 1 && j.taken + t <= |Commands(j.c.log)| && |out| <= 1
    requires out == [S.AudioOn] ==> Serving(j.s.place) && !Serving(s.place)
    requires Serving(s.place) ==> Serving(j.s.place) || (t == 1 && Commands(j.c.log)[j.taken] == 'a')
    requires t == 1 ==> !Serving(j.s.place)
    ensures Causal(j.(s := s, said := j.said + out, taken := j.taken + t))
  {
    var sent := Commands(j.c.log);
    hide Commands, CountEffect;
    assert out == [] ==> j.said + out == j.said;
    assert out != [] ==> out == [out[0]] && (j.said + out)[..|j.said|] == j.said;
    assert (j.said + out)[..j.heard] == j.said[..j.heard];
    if t == 1 { assert sent[..j.taken + 1][..j.taken] == sent[..j.taken]; }
  }

  lemma {:induction false} RunCausal(fd: int, states: seq<Joint>, events: seq<Event>, n: nat)
    requires Behaviour(fd, states, events) && n < |states|
    ensures Causal(states[n])
    decreases n
  {
    hide *;
    Starts(fd, states, events);
    if n == 0 {
      InitialCausal(fd);
    } else {
      RunCausal(fd, states, events, n - 1);
      RunAgrees(fd, states, events, n - 1);
      Moves(fd, states, events, n - 1);
      StepCausal(states[n - 1], events[n - 1]);
    }
  }

  lemma InitialCausal(fd: int)
    ensures Causal(Initial(fd))
  {
    hide CountEffect, Gots, Commands;
    var c := C.Client(C.IDLE_SCROFF, C.NONE, C.NONE, C.NONE, 0, false, []);
    SwitchFollows(c, C.NO_CONNECTION);
    SnocEffect(C.Initial().log, C.SocketOpened);
    NothingYet();
  }

  lemma NothingYet()
    ensures forall e :: CountEffect([], e) == 0
    ensures Commands([]) == [] && Gots([]) == []
  {
  }

  lemma StepCausal(j: Joint, e: Event)
    requires SR.Inv(j.s) && Causal(j)
    ensures S.Known(j.s.procs) && Causal(Next(j, e))
  {
    assert S.Known(j.s.procs);
    match e
    case UserKey(key, ok) =>
      KeyFollows(j.c, key, ok);
      ClientCausal(j, C.OnKey(j.c, key, ok));
    case Deliver(ok, pid) => DeliverCausal(j, ok, pid);
    case Lost =>
      SwitchFollows(j.c, C.NO_CONNECTION);
      ClientCausal(j, C.OnSocket(j.c, C.HangUp, true, C.NONE));
    case ClientTimer(t, ok) =>
      TimerFollows(j.c, t.(reconnect := false), ok);
      ClientCausal(j, C.OnTimer(j.c, t.(reconnect := false), ok));
    case ServerEvent(Session(w)) => WakeCausal(j, w);
    case ServerEvent(other) =>
      assert S.Next(j.s, other).s.place == j.s.place;
  }

  // --- Joint runs keep what the client keeps ---

  /** The client of a joint run satisfies the client's own invariant. */
  lemma {:induction false} RunClient(fd: int, states: seq<Joint>, events: seq<Event>, n: nat)
    requires Behaviour(fd, states, events) && n < |states|
    ensures CR.Inv(states[n].c)
    decreases n
  {
    hide *;
    Starts(fd, states, events);
    if n == 0 {
      InitialClient(fd);
    } else {
      RunClient(fd, states, events, n - 1);
      RunAgrees(fd, states, events, n - 1);
      Moves(fd, states, events, n - 1);
      StepClient(states[n - 1], events[n - 1]);
    }
  }

  lemma InitialClient(fd: int)
    ensures CR.Inv(Initial(fd).c)
  {
    hide CR.Inv, C.Reconnect, C.SwitchMode;
    StartsWell();
    CR.SwitchInv(C.Client(C.IDLE_SCROFF, C.NONE, C.NONE, C.NONE, 0, false, []), C.NO_CONNECTION);
    CR.ReconnectInv(C.Initial(), C.Clock(true, fd, true, C.Pending, false, false));
  }

  lemma StartsWell()
    ensures var c := C.Client(C.IDLE_SCROFF, C.NONE, C.NONE, C.NONE, 0, false, []);
            CR.Accounts(c) && CR.Allowed(c.log) && CR.Ready(c, C.NO_CONNECTION)
  {
  }

  lemma StepClient(j: Joint, e: Event)
    requires CR.Inv(j.c)
    ensures S.Known(j.s.procs) ==> CR.Inv(Next(j, e).c)
  {
    if S.Known(j.s.procs) {
      hide CR.Inv, C.OnKey, C.OnMessage, C.OnTimer;
      match e
      case UserKey(key, ok) => CR.KeyInv(j.c, key, ok);
      case Deliver(ok, pid) =>
        if j.heard < |j.said| {
          var (b0, b1) := Bytes(j.said[j.heard]);
          CR.SocketInv(j.c, C.Data(b0, b1), ok, pid);
        }
      case Lost => CR.SocketInv(j.c, C.HangUp, true, C.NONE);
      case ClientTimer(t, ok) => CR.TimerInv(j.c, t.(reconnect := false), ok);
      case ServerEvent(_) =>
    }
  }

  lemma {:induction false} GotsAt(log: seq<C.Effect>, i: nat)
    requires i < |log| && log[i].Got?
    ensures |Gots(log[..i])| < |Gots(log)| && Gots(log)[|Gots(log[..i])|] == (log[i].b0, log[i].b1)
    decreases |log|
  {
    if i < |log| - 1 {
      GotsAt(log[..|log| - 1], i);
      assert log[..|log| - 1][..i] == log[..i];
    }
  }

}
