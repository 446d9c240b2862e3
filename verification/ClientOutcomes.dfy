/** What each input leads to, for every client with a working connection: the mode, the children, the socket
    and the commands that go out. */
module ClientOutcomes {
  import opened ClientSpec
  import opened ClientRuns
  import opened SentCommands
  import K = Keepalive

  /** From `c` to `d`: the mode is now `m`, the socket is kept, and exactly `cmds` have gone out. */
  predicate To(c: Client, d: Client, m: Mode, cmds: seq<char>) {
    d.mode == m && d.sock == c.sock && Commands(d.log) == Commands(c.log) + cmds
  }

  /** The connection is over: no socket, no children, and nothing has gone out. */
  predicate Over(c: Client, d: Client) {
    d.mode == NO_CONNECTION && d.sock == NONE && d.v == NONE && d.a == NONE && Commands(d.log) == Commands(c.log)
  }

  /** A client whose socket is open, in a mode that uses it. */
  predicate Online(c: Client) {
    Inv(c) && c.sock != NONE && c.mode != NO_CONNECTION
  }

  // --- Switching ---

  lemma SwitchTo(c: Client, m: Mode)
    ensures m != NO_CONNECTION ==> To(c, SwitchMode(c, m), m, [])
    ensures c.mode != NO_CONNECTION && m == NO_CONNECTION ==> Over(c, SwitchMode(c, m))
    ensures c.mode == m ==> SwitchMode(c, m) == c
    ensures c.mode != m && Stopping(m) ==> SwitchMode(c, m).v == NONE && SwitchMode(c, m).a == NONE
    ensures !Stopping(m) || c.mode == m ==> SwitchMode(c, m).v == c.v && SwitchMode(c, m).a == c.a
    ensures SwitchMode(c, m).keepalive == c.keepalive && SwitchMode(c, m).connecting == c.connecting
  {
    hide Commands;
    CommandsSnoc(c.log, Reaped(Video));
    CommandsSnoc(StopVideo(c).log, Reaped(Audio));
    var s := if Stopping(m) then StopPrograms(c) else c;
    CommandsSnoc(s.log, Entered(m));
    CommandsSnoc(Note(s, [Entered(m)]).log, SocketClosed);
  }

  lemma SendTo(c: Client, cmd: char)
    requires c.sock != NONE
    ensures To(c, Send(c, cmd, true), c.mode, [cmd])
    ensures Send(c, cmd, true).(log := c.log) == c
  {
    hide Commands;
    CommandsSnoc(c.log, Sent(cmd));
  }

  // --- Keys ---

  /** The commands that a key sends, by the mode it meets. */
  function KeySends(m: Mode, key: Key): seq<char> {
    match key
    case ENTER =>
      (match m
       case IDLE => "r"
       case IDLE_SCROFF => "r"
       case REQUEST_ACTIVE => "a"
       case REQUEST_RESPONDING => "o"
       case MANUAL_ACTIVE => "o"
       case _ => "")
    case MENU =>
      if m == MANUAL_ACTIVE || m == REQUEST_ACTIVE || m == REQUEST_RESPONDING then "d" else ""
    case OTHER => ""
  }

  /** With a working send a key sends exactly those and keeps the mode, but it wakes a dark screen, and a denial
      ends the view and its children. */
  lemma KeyOutcome(c: Client, key: Key)
    requires c.sock != NONE
    ensures var m := if c.mode == IDLE_SCROFF || KeySends(c.mode, key) == "d" then IDLE else c.mode;
            To(c, OnKey(c, key, true), m, KeySends(c.mode, key))
    ensures var d := OnKey(c, key, true);
            if KeySends(c.mode, key) == "d" then d.v == NONE && d.a == NONE
            else c.mode != IDLE_SCROFF ==> d.v == c.v && d.a == c.a
    ensures OnKey(c, key, true).keepalive == c.keepalive
  {
    hide Commands, SwitchMode, Send;
    SwitchTo(c, IDLE);
    var w := if c.mode == IDLE_SCROFF then SwitchMode(c, IDLE) else c;
    SendTo(w, 'r');
    SendTo(w, 'a');
    SendTo(w, 'o');
    SendTo(w, 'd');
    SwitchTo(Send(w, 'd', true), IDLE);
  }

  /** A key whose send fails ends the connection, except that a denial then shows the idle screen. */
  lemma KeyFails(c: Client, key: Key)
    requires Inv(c) && KeySends(c.mode, key) != ""
    ensures var d := OnKey(c, key, false);
            d.sock == NONE && d.v == NONE && d.a == NONE && Commands(d.log) == Commands(c.log)
            && d.mode == if key == MENU then IDLE else NO_CONNECTION
  {
    hide Commands, SwitchMode, Accounts, Calling, Allowed, ModeOf;
    SwitchTo(c, IDLE);
    var w := if c.mode == IDLE_SCROFF then SwitchMode(c, IDLE) else c;
    SwitchTo(w, NO_CONNECTION);
    SwitchTo(SwitchMode(w, NO_CONNECTION), IDLE);
  }

  // --- Messages ---

  lemma GotTo(c: Client, b0: char, b1: char)
    ensures var g := Note(c, [Got(b0, b1)]); To(c, g, c.mode, []) && g.(log := c.log) == c
  {
    CommandsSnoc(c.log, Got(b0, b1));
  }

  /** A lost line, a quiet one and the end of the streams: each has its mode, without children, and nothing is
      sent. In particular none of them ends the connection. */
  lemma ReportOutcome(c: Client, b1: char, ok: bool, pid: int)
    requires Online(c)
    ensures var d := OnMessage(c, 's', '0', ok, pid); To(c, d, NO_INTERNET, []) && d.v == NONE && d.a == NONE
    ensures var d := OnMessage(c, 's', '1', ok, pid); To(c, d, IDLE, []) && d.v == NONE && d.a == NONE
    ensures var d := OnMessage(c, 'e', b1, ok, pid); To(c, d, IDLE, []) && d.v == NONE && d.a == NONE
  {
    hide Commands, SwitchMode, Accounts, Calling, Allowed, ModeOf;
    forall b: char, b': char
      ensures To(c, Note(c, [Got(b, b')]), c.mode, []) && Note(c, [Got(b, b')]).(log := c.log) == c
    {
      GotTo(c, b, b');
    }
    SwitchTo(Note(c, [Got('s', '0')]), NO_INTERNET);
    SwitchTo(Note(c, [Got('s', '1')]), IDLE);
    SwitchTo(Note(c, [Got('e', b1)]), IDLE);
  }

  /** A call: in a view it is accepted at once, otherwise its stream is asked for; with a failing send the
      connection ends. */
  lemma CallOutcome(c: Client, pid: int)
    requires Online(c)
    ensures var d := OnMessage(c, 's', '2', true, pid);
            d.v == c.v && d.a == c.a
            && if c.mode == MANUAL_ACTIVE then To(c, d, REQUEST_ACTIVE, "a") else To(c, d, IDLE_REQUEST, "r")
    ensures Over(c, OnMessage(c, 's', '2', false, pid))
  {
    hide Commands, SwitchMode, Accounts, Calling, Allowed, ModeOf;
    GotTo(c, 's', '2');
    var g := Note(c, [Got('s', '2')]);
    SwitchTo(g, REQUEST_ACTIVE);
    SwitchTo(g, NO_CONNECTION);
    SwitchTo(SwitchMode(g, REQUEST_ACTIVE), NO_CONNECTION);
    SendTo(g, 'r');
    SendTo(SwitchMode(g, REQUEST_ACTIVE), 'a');
    SwitchTo(Send(g, 'r', true), IDLE_REQUEST);
  }

  /** Video comes on if its child runs or can be started; audio likewise, but only in an accepted call. */
  lemma StreamOutcome(c: Client, b1: char, ok: bool, pid: int)
    requires Online(c)
    ensures var d := OnMessage(c, 'v', b1, ok, pid);
            d.v == (if c.v == NONE then pid else c.v) && d.a == c.a
            && To(c, d, if d.v == NONE then c.mode
                        else if c.mode == IDLE_REQUEST then REQUEST_ACTIVE else MANUAL_ACTIVE, [])
    ensures var d := OnMessage(c, 'a', b1, ok, pid);
            d.v == c.v && d.a == (if c.mode == REQUEST_ACTIVE && c.a == NONE then pid else c.a)
            && To(c, d, if c.mode == REQUEST_ACTIVE && d.a != NONE then REQUEST_RESPONDING else c.mode, [])
  {
    hide Commands, SwitchMode, Accounts, Calling, Allowed, ModeOf;
    GotTo(c, 'v', b1);
    GotTo(c, 'a', b1);
    var v, a := Note(c, [Got('v', b1)]), Note(c, [Got('a', b1)]);
    CommandsSnoc(v.log, Forked(Video));
    CommandsSnoc(a.log, Forked(Audio));
    SwitchTo(StartVideo(v, pid), REQUEST_ACTIVE);
    SwitchTo(StartVideo(v, pid), MANUAL_ACTIVE);
    SwitchTo(StartAudio(a, pid), REQUEST_RESPONDING);
  }

  /** A ping counts; an unknown message or status changes nothing. */
  lemma OtherOutcome(c: Client, b0: char, b1: char, ok: bool, pid: int)
    ensures OnMessage(c, 'p', b1, ok, pid)
            == Note(c, [Got('p', b1)]).(keepalive := if c.keepalive < 0 then 1 else c.keepalive + 1)
    ensures b0 !in "svaep" ==> OnMessage(c, b0, b1, ok, pid) == Note(c, [Got(b0, b1)])
    ensures b1 !in "012" ==> OnMessage(c, 's', b1, ok, pid) == Note(c, [Got('s', b1)])
    ensures b0 != 'p' ==> OnMessage(c, b0, b1, ok, pid).keepalive == c.keepalive
  {
    forall d, m ensures SwitchMode(d, m).keepalive == d.keepalive { SwitchTo(d, m); }
    hide SwitchMode;
  }

  /** A hang-up or an error ends the connection, whatever the mode; silence changes nothing. */
  lemma SocketOutcome(c: Client, ok: bool, pid: int)
    ensures c.mode != NO_CONNECTION ==>
              Over(c, OnSocket(c, HangUp, ok, pid)) && Over(c, OnSocket(c, RecvError, ok, pid))
    ensures OnSocket(c, Quiet, ok, pid) == c
    ensures c.mode == NO_CONNECTION ==> forall e :: OnSocket(c, e, ok, pid) == c
  {
    SwitchTo(c, NO_CONNECTION);
    hide SwitchMode, OnMessage;
  }

  // --- Timers ---

  /** What is due is done: a connected client pings, its idle screen goes dark, and after the ping a counter that
      has run out ends the connection. */
  lemma TimerOutcome(c: Client, t: Clock)
    requires Online(c)
    ensures var d := OnTimer(c, t, true);
            var dark := if c.mode == IDLE && t.screenOff then IDLE_SCROFF else c.mode;
            var out := if t.ping then "p" else "";
            if t.ping && c.mode != NO_INTERNET && c.keepalive <= -5
            then d.mode == NO_CONNECTION && d.sock == NONE && d.v == d.a == NONE
                 && Commands(d.log) == Commands(c.log) + out
            else To(c, d, dark, out) && d.v == c.v && d.a == c.a
    ensures OnTimer(c, t, true).keepalive
            == if t.ping && c.mode != NO_INTERNET then c.keepalive - 1 else c.keepalive
    ensures t.ping ==> OnTimer(c, t, false).mode == NO_CONNECTION && OnTimer(c, t, false).sock == NONE
  {
    hide Commands, SwitchMode, Accounts, Calling, Allowed, ModeOf;
    SwitchTo(c, IDLE_SCROFF);
    SwitchTo(c, NO_CONNECTION);
    var s := if c.mode == IDLE && t.screenOff then SwitchMode(c, IDLE_SCROFF) else c;
    SendTo(s, 'p');
    SwitchTo(s, NO_CONNECTION);
    SwitchTo(SwitchMode(s, NO_CONNECTION), NO_CONNECTION);
    SwitchTo(Send(s, 'p', true), NO_CONNECTION);
  }

  /** Connecting: a due attempt replaces the socket; an attempt under way that has succeeded makes the client show
      "no internet" with a fresh counter, one that was refused closes the socket, and otherwise nothing happens. */
  lemma ConnectOutcome(c: Client, t: Clock, ok: bool)
    requires Inv(c) && c.mode == NO_CONNECTION
    ensures var d := OnTimer(c, t, ok);
            Commands(d.log) == Commands(c.log) && d.v == NONE && d.a == NONE
            && if t.reconnect then
                 d.mode == NO_CONNECTION && d.sock == t.fd && (t.fd != NONE ==> d.connecting == t.accepted)
               else if !c.connecting || c.sock == NONE || t.poll == Pending || t.poll == PollFailed then d == c
               else !d.connecting
                    && if t.poll == Ready then d.mode == NO_INTERNET && d.sock == c.sock && d.keepalive == 0
                       else d.mode == NO_CONNECTION && d.sock == NONE
  {
    hide Commands, SwitchMode, Accounts, Calling, Allowed, ModeOf;
    CommandsSnoc(c.log, SocketClosed);
    CommandsSnoc(CloseSocket(c).log, SocketOpened);
    SwitchTo(c.(connecting := false), NO_INTERNET);
  }
}
