/** What every run of the client keeps, whatever the server, the network and the user do. */
module ClientRuns {
  import opened ClientSpec
  import opened SentCommands
  import K = Keepalive

  // --- The invariant ---

  predicate NeedsVideo(m: Mode) {
    m == MANUAL_ACTIVE || m == REQUEST_ACTIVE || m == REQUEST_RESPONDING
  }

  predicate Resting(m: Mode) {
    m == NO_CONNECTION || m == NO_INTERNET || m == IDLE || m == IDLE_SCROFF
  }

  predicate InCall(m: Mode) {
    m == IDLE_REQUEST || m == REQUEST_ACTIVE || m == REQUEST_RESPONDING
  }

  /** Children of one kind started and not yet reaped. */
  function Live(log: seq<Effect>, child: Child): int {
    if log == [] then 0
    else Live(log[..|log| - 1], child)
         + if log[|log| - 1] == Forked(child) then 1 else if log[|log| - 1] == Reaped(child) then -1 else 0
  }

  function OpenSockets(log: seq<Effect>): int {
    if log == [] then 0
    else OpenSockets(log[..|log| - 1])
         + if log[|log| - 1] == SocketOpened then 1 else if log[|log| - 1] == SocketClosed then -1 else 0
  }

  /** A call was announced and no resting mode has been entered since. */
  predicate Calling(log: seq<Effect>) {
    log != [] &&
    var last := log[|log| - 1];
    last == Got('s', '2') || (Calling(log[..|log| - 1]) && !(last.Entered? && Resting(last.mode)))
  }

  /** The mode the client is in after these effects. */
  function ModeOf(log: seq<Effect>): Mode {
    if log == [] then IDLE_SCROFF
    else if log[|log| - 1].Entered? then log[|log| - 1].mode
    else ModeOf(log[..|log| - 1])
  }

  /** A call has just been announced. */
  predicate Announced(log: seq<Effect>) {
    log != [] && log[|log| - 1] == Got('s', '2')
  }

  /** When each command may be sent: a door is opened only from a talking or viewing mode with live video,
      a call is accepted only while one has been announced, a stream is requested by the user from the
      idle screen or at once in answer to a call, and only an open view is denied. */
  predicate MaySend(before: seq<Effect>, cmd: char) {
    var m := ModeOf(before);
    match cmd
    case 'o' => (m == REQUEST_RESPONDING || m == MANUAL_ACTIVE) && Live(before, Video) == 1
    case 'a' => m == REQUEST_ACTIVE && Calling(before)
    case 'd' => NeedsVideo(m) && Live(before, Video) == 1
    case 'r' => m == IDLE || (m != MANUAL_ACTIVE && m != NO_CONNECTION && Announced(before))
    case 'p' => m != NO_CONNECTION
    case _ => false
  }

  /** Every command so far was sent when it may be, and audio was started only on an accepted call. */
  predicate Allowed(log: seq<Effect>) {
    log == [] ||
    var before, last := log[..|log| - 1], log[|log| - 1];
    Allowed(before)
    && (last.Sent? ==> MaySend(before, last.cmd))
    && (last == Forked(Audio) ==> ModeOf(before) == REQUEST_ACTIVE)
  }

  predicate Inv(c: Client) {
    c.mode == ModeOf(c.log)
    && (Resting(c.mode) ==> c.v == NONE && c.a == NONE)
    && (NeedsVideo(c.mode) ==> c.v != NONE)
    && (c.mode == REQUEST_RESPONDING ==> c.a != NONE)
    && Accounts(c)
    && (c.sock == NONE ==> c.mode == NO_CONNECTION || c.mode == IDLE || c.mode == IDLE_SCROFF)
    && (InCall(c.mode) ==> Calling(c.log))
    && Allowed(c.log)
  }

  /** What the log says of children and sockets is what the variables say. */
  predicate Accounts(c: Client) {
    Live(c.log, Video) == (if c.v == NONE then 0 else 1)
    && Live(c.log, Audio) == (if c.a == NONE then 0 else 1)
    && OpenSockets(c.log) == (if c.sock == NONE then 0 else 1)
  }

  // --- One effect at a time ---

  lemma Snoc(log: seq<Effect>, e: Effect)
    ensures forall child :: Live(log + [e], child)
              == Live(log, child) + (if e == Forked(child) then 1 else if e == Reaped(child) then -1 else 0)
    ensures OpenSockets(log + [e])
            == OpenSockets(log) + (if e == SocketOpened then 1 else if e == SocketClosed then -1 else 0)
    ensures Calling(log + [e]) <==> e == Got('s', '2') || (Calling(log) && !(e.Entered? && Resting(e.mode)))
    ensures Allowed(log + [e]) <==>
              Allowed(log) && (e.Sent? ==> MaySend(log, e.cmd))
              && (e == Forked(Audio) ==> ModeOf(log) == REQUEST_ACTIVE)
    ensures ModeOf(log + [e]) == if e.Entered? then e.mode else ModeOf(log)
  {
    assert (log + [e])[..|log|] == log;
  }

  lemma StopInv(c: Client)
    requires Accounts(c) && Allowed(c.log)
    ensures Accounts(StopPrograms(c)) && Allowed(StopPrograms(c).log)
    ensures Calling(StopPrograms(c).log) == Calling(c.log) && ModeOf(StopPrograms(c).log) == ModeOf(c.log)
    ensures StopPrograms(c).v == NONE && StopPrograms(c).a == NONE
  {
    hide Live, OpenSockets, Calling, Allowed, ModeOf;
    Snoc(c.log, Reaped(Video));
    var s := StopVideo(c);
    Snoc(s.log, Reaped(Audio));
  }

  lemma CloseInv(c: Client)
    requires Accounts(c) && Allowed(c.log)
    ensures Accounts(CloseSocket(c)) && Allowed(CloseSocket(c).log) && Calling(CloseSocket(c).log) == Calling(c.log)
    ensures ModeOf(CloseSocket(c).log) == ModeOf(c.log)
  {
    hide Live, OpenSockets, Calling, Allowed, ModeOf;
    Snoc(c.log, SocketClosed);
  }

  /** What a switch needs so that the mode it enters is backed by children, socket and call. */
  predicate Ready(c: Client, m: Mode) {
    (NeedsVideo(m) ==> c.v != NONE)
    && (m == REQUEST_RESPONDING ==> c.a != NONE)
    && (c.sock == NONE ==> m == NO_CONNECTION || m == IDLE || m == IDLE_SCROFF)
    && (InCall(m) ==> Calling(c.log))
    && (m == IDLE_SCROFF ==> c.v == NONE && c.a == NONE)
  }

  lemma SwitchInv(c: Client, m: Mode)
    requires Accounts(c) && Allowed(c.log) && Ready(c, m)
    requires c.mode == m ==> Inv(c)
    ensures Inv(SwitchMode(c, m)) && SwitchMode(c, m).mode == m
    ensures c.mode != m && Resting(m) ==> !Calling(SwitchMode(c, m).log)
    ensures !Stopping(m) ==> SwitchMode(c, m).v == c.v && SwitchMode(c, m).a == c.a
  {
    hide Live, OpenSockets, Calling, Allowed, ModeOf;
    if c.mode != m {
      StopInv(c);
      var s := if Stopping(m) then StopPrograms(c) else c;
      Snoc(s.log, Entered(m));
      CloseInv(Note(s, [Entered(m)]).(mode := m));
    }
  }

  lemma SendInv(c: Client, cmd: char, ok: bool)
    requires Inv(c)
    requires MaySend(c.log, cmd)
    ensures Inv(Send(c, cmd, ok))
    ensures CanSend(c, ok) ==> Send(c, cmd, ok).mode == c.mode && Send(c, cmd, ok).sock == c.sock
    ensures CanSend(c, ok) ==> Calling(Send(c, cmd, ok).log) == Calling(c.log)
  {
    hide Live, OpenSockets, Calling, Allowed, ModeOf;
    Snoc(c.log, Sent(cmd));
    SwitchInv(c, NO_CONNECTION);
  }

  lemma KeyInv(c: Client, key: Key, ok: bool)
    requires Inv(c)
    ensures Inv(OnKey(c, key, ok))
  {
    hide SwitchMode, Send, Live, Calling, ModeOf, Allowed, OpenSockets;
    SwitchInv(c, IDLE);
    var w := if c.mode == IDLE_SCROFF then SwitchMode(c, IDLE) else c;
    match key
    case ENTER =>
      if w.mode == IDLE { SendInv(w, 'r', ok); }
      else if w.mode == REQUEST_ACTIVE { SendInv(w, 'a', ok); }
      else if w.mode == REQUEST_RESPONDING || w.mode == MANUAL_ACTIVE { SendInv(w, 'o', ok); }
    case MENU =>
      if NeedsVideo(w.mode) {
        SendInv(w, 'd', ok);
        SwitchInv(Send(w, 'd', ok), IDLE);
      }
    case OTHER =>
  }

  lemma StatusInv(c: Client, status: char, ok: bool)
    requires Inv(c) && c.sock != NONE && c.mode != NO_CONNECTION
    requires status == '2' ==> Calling(c.log) && Announced(c.log)
    ensures Inv(OnStatus(c, status, ok))
  {
    hide Accounts, Allowed, Calling, ModeOf, SwitchMode, Send;
    SwitchInv(c, NO_INTERNET);
    SwitchInv(c, IDLE);
    if status == '2' {
      SwitchInv(c, NO_CONNECTION);
      if c.mode == MANUAL_ACTIVE {
        SwitchInv(c, REQUEST_ACTIVE);
        SendInv(SwitchMode(c, REQUEST_ACTIVE), 'a', ok);
      } else if CanSend(c, ok) {
        SendInv(c, 'r', ok);
        SwitchInv(Send(c, 'r', ok), IDLE_REQUEST);
      }
    }
  }

  lemma MessageInv(c: Client, b0: char, b1: char, ok: bool, pid: int)
    requires Inv(c) && c.sock != NONE && c.mode != NO_CONNECTION
    ensures Inv(OnMessage(c, b0, b1, ok, pid))
  {
    hide Live, OpenSockets, Calling, Allowed, ModeOf;
    Snoc(c.log, Got(b0, b1));
    var g := Note(c, [Got(b0, b1)]);
    assert Inv(g);
    hide SwitchMode, OnStatus;
    if b0 == 's' {
      StatusInv(g, b1, ok);
    } else if b0 == 'v' {
      Snoc(g.log, Forked(Video));
      var s := StartVideo(g, pid);
      if s.v != NONE { SwitchInv(s, if g.mode == IDLE_REQUEST then REQUEST_ACTIVE else MANUAL_ACTIVE); }
    } else if b0 == 'a' {
      if g.mode == REQUEST_ACTIVE { Snoc(g.log, Forked(Audio)); }
      var s := StartAudio(g, pid);
      if g.mode == REQUEST_ACTIVE && s.a != NONE { SwitchInv(s, REQUEST_RESPONDING); }
    } else if b0 == 'e' {
      SwitchInv(g, IDLE);
    }
  }

  lemma TimerInv(c: Client, t: Clock, ok: bool)
    requires Inv(c)
    ensures Inv(OnTimer(c, t, ok))
  {
    hide Live, OpenSockets, Calling, Allowed, ModeOf, SwitchMode, Send, Reconnect;
    ReconnectInv(c, t);
    if c.mode == IDLE { SwitchInv(c, IDLE_SCROFF); }
    var s := if c.mode == IDLE && t.screenOff then SwitchMode(c, IDLE_SCROFF) else c;
    if c.mode != NO_CONNECTION {
      SendInv(s, 'p', ok);
      SwitchInv(Send(s, 'p', ok), NO_CONNECTION);
    }
  }

  lemma ReconnectInv(c: Client, t: Clock)
    requires Inv(c)
    ensures c.mode == NO_CONNECTION ==> Inv(Reconnect(c, t))
  {
    hide Live, OpenSockets, Calling, Allowed, ModeOf;
    if c.mode == NO_CONNECTION {
      CloseInv(c);
      Snoc(CloseSocket(c).log, SocketOpened);
      CloseInv(c.(connecting := false));
      if c.sock != NONE { SwitchInv(c.(connecting := false), NO_INTERNET); }
    }
  }

  /** The invariant holds in every state of every run. */
  lemma {:induction false} RunInv(states: seq<Client>, inputs: seq<Input>, n: nat)
    requires Behaviour(states, inputs) && n < |states|
    ensures Inv(states[n])
    decreases n
  {
    if n == 0 {
      var c := Client(IDLE_SCROFF, NONE, NONE, NONE, 0, false, []);
      SwitchInv(c, NO_CONNECTION);
    } else {
      hide Inv, Turn;
      RunInv(states, inputs, n - 1);
      TurnInv(states[n - 1], inputs[n - 1]);
    }
  }

  lemma TurnInv(c: Client, i: Input)
    requires Inv(c)
    ensures Inv(Turn(c, i))
  {
    hide Inv, OnKey, OnMessage, OnTimer, SwitchMode;
    var k := if i.key.Pressed? then OnKey(c, i.key.key, i.keyOk) else c;
    if i.key.Pressed? { KeyInv(c, i.key.key, i.keyOk); }
    SocketInv(k, i.socket, i.replyOk, i.pid);
    TimerInv(OnSocket(k, i.socket, i.replyOk, i.pid), i.clock, i.pingOk);
  }

  lemma SocketInv(c: Client, e: SocketEvent, ok: bool, pid: int)
    requires Inv(c)
    ensures Inv(OnSocket(c, e, ok, pid))
  {
    hide OnMessage, SwitchMode, Accounts;
    SwitchInv(c, NO_CONNECTION);
    if c.sock != NONE && c.mode != NO_CONNECTION && e.Data? { MessageInv(c, e.b0, e.b1, ok, pid); }
  }

  // --- Main results ---

  /** Children match modes, and the numbers of children and sockets started and ended add up. */
  lemma ChildrenAndSockets(states: seq<Client>, inputs: seq<Input>, n: nat)
    requires Behaviour(states, inputs) && n < |states|
    ensures var c := states[n];
            (NeedsVideo(c.mode) ==> Live(c.log, Video) == 1)
            && (c.mode == REQUEST_RESPONDING ==> Live(c.log, Audio) == 1)
            && (Resting(c.mode) ==> Live(c.log, Video) == Live(c.log, Audio) == 0)
            && Live(c.log, Video) == (if c.v == NONE then 0 else 1)
            && Live(c.log, Audio) == (if c.a == NONE then 0 else 1)
            && OpenSockets(c.log) == (if c.sock == NONE then 0 else 1)
            && (c.sock == NONE ==> c.mode == NO_CONNECTION || c.mode == IDLE || c.mode == IDLE_SCROFF)
  {
    RunInv(states, inputs, n);
  }

  /** Every command is sent only when it may be; in particular the door is only ever opened with the video
      child alive. And the audio child is started only from an accepted call. */
  lemma CommandsOnlyWhenAllowed(states: seq<Client>, inputs: seq<Input>, n: nat, i: nat)
    requires Behaviour(states, inputs) && n < |states| && i < |states[n].log|
    ensures var log := states[n].log;
            (log[i].Sent? ==> MaySend(log[..i], log[i].cmd))
            && (log[i] == Forked(Audio) ==> ModeOf(log[..i]) == REQUEST_ACTIVE)
  {
    RunInv(states, inputs, n);
    AllowedAt(states[n].log, i);
  }

  /** Every accept command is preceded by a call announcement with no resting mode entered in between. */
  lemma AcceptAnswersCall(states: seq<Client>, inputs: seq<Input>, n: nat, i: nat)
    requires Behaviour(states, inputs) && n < |states|
    requires i < |states[n].log| && states[n].log[i] == Sent('a')
    ensures var log := states[n].log;
            exists j :: 0 <= j < i && log[j] == Got('s', '2')
                        && forall k :: j < k < i && log[k].Entered? ==> !Resting(log[k].mode)
  {
    RunInv(states, inputs, n);
    AcceptAfterCall(states[n], i);
  }

  lemma AcceptAfterCall(c: Client, i: nat)
    requires Inv(c) && i < |c.log| && c.log[i] == Sent('a')
    ensures exists j :: 0 <= j < i && c.log[j] == Got('s', '2')
                        && forall k :: j < k < i && c.log[k].Entered? ==> !Resting(c.log[k].mode)
  {
    var log := c.log;
    AllowedAt(log, i);
    var j := CallingSince(log[..i]);
    assert log[j] == Got('s', '2');
    forall k | j < k < i && log[k].Entered? ensures !Resting(log[k].mode) {
      assert log[..i][k] == log[k];
    }
  }

  lemma {:induction false} AllowedAt(log: seq<Effect>, n: nat)
    requires Allowed(log) && n < |log|
    ensures log[n].Sent? ==> MaySend(log[..n], log[n].cmd)
    ensures log[n] == Forked(Audio) ==> ModeOf(log[..n]) == REQUEST_ACTIVE
    decreases |log|
  {
    if n < |log| - 1 {
      AllowedAt(log[..|log| - 1], n);
      assert log[..|log| - 1][..n] == log[..n];
    }
  }

  lemma {:induction false} CallingSince(log: seq<Effect>) returns (j: nat)
    requires Calling(log)
    ensures j < |log| && log[j] == Got('s', '2')
    ensures forall k :: j < k < |log| && log[k].Entered? ==> !Resting(log[k].mode)
    decreases |log|
  {
    if log[|log| - 1] == Got('s', '2') {
      j := |log| - 1;
    } else {
      j := CallingSince(log[..|log| - 1]);
    }
  }

  /** One step that keeps the connection: it leads from `c` to `d`, and `cmds` go out. */
  predicate Leads(c: Client, d: Client, m: Mode, cmds: seq<char>) {
    d.mode == m && d.sock == c.sock && Commands(d.log) == Commands(c.log) + cmds
  }

  lemma SwitchLeads(c: Client, m: Mode)
    requires m != NO_CONNECTION
    ensures Leads(c, SwitchMode(c, m), m, [])
    ensures !Stopping(m) ==> SwitchMode(c, m).v == c.v && SwitchMode(c, m).a == c.a
    ensures c.mode != m && Stopping(m) ==> SwitchMode(c, m).v == SwitchMode(c, m).a == NONE
  {
    hide Commands;
    CommandsSnoc(c.log, Reaped(Video));
    CommandsSnoc(StopVideo(c).log, Reaped(Audio));
    CommandsSnoc((if Stopping(m) then StopPrograms(c) else c).log, Entered(m));
  }

  lemma SendLeads(c: Client, cmd: char)
    requires c.sock != NONE
    ensures Send(c, cmd, true) == Note(c, [Sent(cmd)]) && Leads(c, Send(c, cmd, true), c.mode, [cmd])
  {
    hide Commands;
    CommandsSnoc(c.log, Sent(cmd));
  }

  /** A call from its announcement: the client asks for the stream, shows it, and with the user's keys
      accepts the call, opens the door and hangs up, sending exactly the four commands for that. */
  lemma CallFlow(c: Client, pid: int, pid': int)
    requires c.sock != NONE && pid != NONE && pid' != NONE
    requires c.mode != NO_CONNECTION && c.mode != MANUAL_ACTIVE
    ensures var c1 := OnMessage(c, 's', '2', true, pid);
            var c2 := OnMessage(c1, 'v', '\n', true, pid);
            var c3 := OnKey(c2, ENTER, true);
            var c4 := OnMessage(c3, 'a', '\n', true, pid');
            var c5 := OnKey(c4, ENTER, true);
            var c6 := OnKey(c5, MENU, true);
            Leads(c, c1, IDLE_REQUEST, ['r']) && Leads(c1, c2, REQUEST_ACTIVE, [])
            && Leads(c2, c3, REQUEST_ACTIVE, ['a']) && Leads(c3, c4, REQUEST_RESPONDING, [])
            && Leads(c4, c5, REQUEST_RESPONDING, ['o']) && Leads(c5, c6, IDLE, ['d'])
            && c4.v != NONE && c4.a != NONE && c6.v == c6.a == NONE
  {
    hide Commands, SwitchMode, Send;
    var c1 := AnnouncedLeads(c, pid);
    var c2 := VideoLeads(c1, pid);
    SendLeads(c2, 'a');
    var c3 := OnKey(c2, ENTER, true);
    var c4 := AudioLeads(c3, pid');
    SendLeads(c4, 'o');
    var c5 := OnKey(c4, ENTER, true);
    SendLeads(c5, 'd');
    SwitchLeads(Send(c5, 'd', true), IDLE);
  }

  lemma AnnouncedLeads(c: Client, pid: int) returns (d: Client)
    requires c.sock != NONE && c.mode != MANUAL_ACTIVE
    ensures d == OnMessage(c, 's', '2', true, pid) && Leads(c, d, IDLE_REQUEST, ['r'])
  {
    hide Commands, SwitchMode, Send;
    CommandsSnoc(c.log, Got('s', '2'));
    var g := Note(c, [Got('s', '2')]);
    SendLeads(g, 'r');
    SwitchLeads(Send(g, 'r', true), IDLE_REQUEST);
    d := OnMessage(c, 's', '2', true, pid);
  }

  lemma VideoLeads(c: Client, pid: int) returns (d: Client)
    requires pid != NONE
    ensures d == OnMessage(c, 'v', '\n', true, pid) && d.v != NONE
    ensures Leads(c, d, if c.mode == IDLE_REQUEST then REQUEST_ACTIVE else MANUAL_ACTIVE, [])
  {
    hide Commands, SwitchMode;
    CommandsSnoc(c.log, Got('v', '\n'));
    var g := Note(c, [Got('v', '\n')]);
    CommandsSnoc(g.log, Forked(Video));
    SwitchLeads(StartVideo(g, pid), if c.mode == IDLE_REQUEST then REQUEST_ACTIVE else MANUAL_ACTIVE);
    d := OnMessage(c, 'v', '\n', true, pid);
  }

  lemma AudioLeads(c: Client, pid: int) returns (d: Client)
    requires pid != NONE && c.mode == REQUEST_ACTIVE && c.v != NONE
    ensures d == OnMessage(c, 'a', '\n', true, pid) && d.v != NONE && d.a != NONE
    ensures Leads(c, d, REQUEST_RESPONDING, [])
  {
    hide Commands, SwitchMode;
    CommandsSnoc(c.log, Got('a', '\n'));
    var g := Note(c, [Got('a', '\n')]);
    CommandsSnoc(g.log, Forked(Audio));
    SwitchLeads(StartAudio(g, pid), REQUEST_RESPONDING);
    d := OnMessage(c, 'a', '\n', true, pid);
  }

  /** A view the user opened, during which a call comes in: it is accepted at once. */
  lemma ManualFlow(c: Client, pid: int)
    requires c.sock != NONE && pid != NONE && (c.mode == IDLE || c.mode == IDLE_SCROFF)
    ensures var c1 := OnKey(c, ENTER, true);
            var c2 := OnMessage(c1, 'v', '\n', true, pid);
            var c3 := OnMessage(c2, 's', '2', true, pid);
            Leads(c, c1, IDLE, ['r']) && Leads(c1, c2, MANUAL_ACTIVE, []) && Leads(c2, c3, REQUEST_ACTIVE, ['a'])
            && c3.v != NONE
  {
    hide Commands, SwitchMode, Send;
    SwitchLeads(c, IDLE);
    var w := if c.mode == IDLE_SCROFF then SwitchMode(c, IDLE) else c;
    SendLeads(w, 'r');
    var c2 := VideoLeads(OnKey(c, ENTER, true), pid);
    CommandsSnoc(c2.log, Got('s', '2'));
    var g := Note(c2, [Got('s', '2')]);
    SwitchLeads(g, REQUEST_ACTIVE);
    SendLeads(SwitchMode(g, REQUEST_ACTIVE), 'a');
  }

  /** Every mode but NO_CONNECTION has a socket. */
  predicate Connected(c: Client) {
    c.sock == NONE ==> c.mode == NO_CONNECTION
  }

  /** The one thing that breaks this is a denial whose send fails: the client then shows the idle
      screen although the connection is gone. */
  lemma ConnectedUnlessDenialFails(c: Client, key: Key, ok: bool)
    requires Connected(c)
    ensures Connected(OnKey(c, key, ok)) <==> !(key == MENU && NeedsVideo(c.mode) && !CanSend(c, ok))
  {
  }

  /** Only a switch to NO_CONNECTION touches the socket. */
  lemma SwitchKeepsConnected(c: Client, m: Mode)
    ensures m != NO_CONNECTION ==> SwitchMode(c, m).sock == c.sock
    ensures SwitchMode(c, m).mode == m
  {
  }

  lemma SocketKeepsConnected(c: Client, e: SocketEvent, ok: bool, pid: int)
    requires Connected(c)
    ensures Connected(OnSocket(c, e, ok, pid))
  {
    forall d, m ensures m != NO_CONNECTION ==> SwitchMode(d, m).sock == d.sock
                ensures SwitchMode(d, m).mode == m
    {
      SwitchKeepsConnected(d, m);
    }
    hide SwitchMode;
  }

  lemma TimerKeepsConnected(c: Client, t: Clock, ok: bool)
    requires Connected(c)
    ensures Connected(OnTimer(c, t, ok))
  {
  }

  /** Such a state is IDLE or its dark variant with no children, and the next use of the socket ends it. */
  lemma SocketlessIdle(states: seq<Client>, inputs: seq<Input>, n: nat, e: SocketEvent, ok: bool, pid: int, t: Clock)
    requires Behaviour(states, inputs) && n < |states| && !Connected(states[n])
    ensures var c := states[n];
            (c.mode == IDLE || c.mode == IDLE_SCROFF) && c.v == NONE && c.a == NONE
            && OnKey(c, ENTER, ok).mode == NO_CONNECTION
            && (t.ping ==> OnTimer(c, t, ok).mode == NO_CONNECTION)
            && (e != Quiet ==> OnSocket(c, e, ok, pid).mode == NO_CONNECTION)
  {
    RunInv(states, inputs, n);
  }

  /** A turn whose key is a denial that cannot be sent. */
  predicate DenialFails(c: Client, i: Input) {
    i.key == Pressed(MENU) && NeedsVideo(c.mode) && !CanSend(c, i.keyOk)
  }

  /** After its key a turn makes no use of the socket. */
  predicate SocketUnused(i: Input) {
    i.socket == Quiet && !i.clock.ping
  }

  /** At turn `m` a denial failed, and up to turn `n` nothing has used the socket since. */
  predicate LeftBehind(states: seq<Client>, inputs: seq<Input>, m: nat, n: nat)
    requires |inputs| <= |states| && n <= |inputs|
  {
    m < n && DenialFails(states[m], inputs[m])
    && (forall k :: m <= k < n ==> SocketUnused(inputs[k]))
    && (forall k :: m < k < n ==> inputs[k].key != Pressed(ENTER))
  }

  /** Over every run: a client has no socket outside NO_CONNECTION exactly when a denial has failed and the
      socket has not been used since. */
  lemma {:induction false} DisconnectedIff(states: seq<Client>, inputs: seq<Input>, n: nat)
    requires Behaviour(states, inputs) && n < |states|
    ensures !Connected(states[n]) <==> exists m: nat :: LeftBehind(states, inputs, m, n)
    decreases n
  {
    if n > 0 {
      var c, i := states[n - 1], inputs[n - 1];
      assert |states| == |inputs| + 1 && states[n] == Turn(c, i);
      hide *;
      DisconnectedIff(states, inputs, n - 1);
      RunInv(states, inputs, n - 1);
      TurnConnected(c, i);
      if !Connected(states[n]) {
        var m: nat;
        if Connected(c) {
          m := n - 1;
        } else {
          m :| LeftBehind(states, inputs, m, n - 1);
        }
        LeftBehindNext(states, inputs, m, n);
        assert LeftBehind(states, inputs, m, n);
      }
      forall m: nat | LeftBehind(states, inputs, m, n) ensures !Connected(states[n]) {
        LeftBehindNext(states, inputs, m, n);
      }
    }
  }

  lemma LeftBehindNext(states: seq<Client>, inputs: seq<Input>, m: nat, n: nat)
    requires |inputs| <= |states| && 0 < n <= |inputs|
    ensures LeftBehind(states, inputs, m, n) <==>
              SocketUnused(inputs[n - 1])
              && if m == n - 1 then DenialFails(states[m], inputs[m])
                 else LeftBehind(states, inputs, m, n - 1) && inputs[n - 1].key != Pressed(ENTER)
  {
    hide DenialFails, SocketUnused;
  }

  lemma TurnConnected(c: Client, i: Input)
    requires Inv(c)
    ensures DenialFails(c, i) ==> Connected(c)
    ensures Connected(c) ==> (!Connected(Turn(c, i)) <==> DenialFails(c, i) && SocketUnused(i))
    ensures !Connected(c) ==> (!Connected(Turn(c, i)) <==> SocketUnused(i) && i.key != Pressed(ENTER))
  {
    var k := if i.key.Pressed? then OnKey(c, i.key.key, i.keyOk) else c;
    if i.key.Pressed? {
      KeyInv(c, i.key.key, i.keyOk);
      KeyConnected(c, i.key.key, i.keyOk);
    }
    SocketInv(k, i.socket, i.replyOk, i.pid);
    var s := OnSocket(k, i.socket, i.replyOk, i.pid);
    RestConnected(k, i.socket, i.replyOk, i.pid, i.clock, i.pingOk);
    assert Turn(c, i) == OnTimer(s, i.clock, i.pingOk);
    hide OnKey, OnSocket, OnTimer, Inv, Connected;
  }

  lemma KeyConnected(c: Client, key: Key, ok: bool)
    requires Inv(c)
    ensures Connected(c) ==> (Connected(OnKey(c, key, ok)) <==> !(key == MENU && NeedsVideo(c.mode) && !CanSend(c, ok)))
    ensures !Connected(c) ==> (Connected(OnKey(c, key, ok)) <==> key == ENTER)
  {
    if Connected(c) { ConnectedUnlessDenialFails(c, key, ok); }
    hide Accounts, Allowed, Calling, ModeOf;
  }

  lemma RestConnected(c: Client, e: SocketEvent, ok: bool, pid: int, t: Clock, pingOk: bool)
    requires Inv(c) && Inv(OnSocket(c, e, ok, pid))
    ensures var d := OnTimer(OnSocket(c, e, ok, pid), t, pingOk);
            if Connected(c) then Connected(d) else (!Connected(d) <==> e == Quiet && !t.ping)
  {
    var s := OnSocket(c, e, ok, pid);
    hide Accounts, Allowed, Calling, ModeOf;
    if Connected(c) {
      SocketKeepsConnected(c, e, ok, pid);
      TimerKeepsConnected(s, t, pingOk);
    } else if e != Quiet {
      assert Connected(s);
      TimerKeepsConnected(s, t, pingOk);
    }
    hide OnMessage;
  }

  /** One turn in which only the five-second timer fires and the ping goes out. */
  function Silence(c: Client, t: Clock): Client {
    OnTimer(c, t, true)
  }

  function SilentTicks(c: Client, t: Clock, k: nat): Client {
    if k == 0 then c else Silence(SilentTicks(c, t, k - 1), t)
  }

  /** With the server silent, a connected client gives up on exactly tick `keepalive` + 6; but in
      NO_INTERNET it never does, since no ticks are counted there. */
  lemma {:induction false} SilentServer(c: Client, t: Clock, k: nat)
    requires c.mode != NO_CONNECTION && c.sock != NONE && c.keepalive >= K.LIMIT
    requires t.ping && !t.reconnect && t.poll == Pending
    ensures var d := SilentTicks(c, t, k);
            c.mode == NO_INTERNET ==> d.mode == NO_INTERNET && d.sock != NONE
    ensures var d := SilentTicks(c, t, k);
            c.mode != NO_INTERNET ==> (d.mode == NO_CONNECTION <==> k >= c.keepalive + 6)
    ensures var d := SilentTicks(c, t, k);
            c.mode != NO_INTERNET && d.mode != NO_CONNECTION ==>
              d.keepalive == c.keepalive - k && d.mode != NO_INTERNET && d.sock != NONE
    decreases k
  {
    if k > 0 {
      SilentServer(c, t, k - 1);
    }
  }
}
