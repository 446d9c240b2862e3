/** The intercom client on values: its eight modes, its socket and two child processes, and what each
    of the three parts of its main loop does with one key, one socket event and one timer check. */
module ClientSpec {
  import K = Keepalive

  datatype Mode =
    | IDLE | IDLE_SCROFF | NO_CONNECTION | NO_INTERNET
    | MANUAL_ACTIVE | IDLE_REQUEST | REQUEST_ACTIVE | REQUEST_RESPONDING

  datatype Child = Video | Audio

  datatype Effect =
    | Forked(child: Child) | Reaped(child: Child)
    | SocketOpened | SocketClosed
    | Sent(cmd: char)
    | Got(b0: char, b1: char)
    | Entered(mode: Mode)

  /** `NONE` in `sock`, `v` or `a` is the C value -1. */
  const NONE := -1

  datatype Client = Client(mode: Mode, sock: int, v: int, a: int, keepalive: int, connecting: bool, log: seq<Effect>)

  function Initial(): Client {
    SwitchMode(Client(IDLE_SCROFF, NONE, NONE, NONE, 0, false, []), NO_CONNECTION)
  }

  function Note(c: Client, e: seq<Effect>): Client {
    c.(log := c.log + e)
  }

  function StopVideo(c: Client): Client {
    if c.v == NONE then c else Note(c, [Reaped(Video)]).(v := NONE)
  }

  function StopAudio(c: Client): Client {
    if c.a == NONE then c else Note(c, [Reaped(Audio)]).(a := NONE)
  }

  function StopPrograms(c: Client): Client {
    StopAudio(StopVideo(c))
  }

  function CloseSocket(c: Client): Client {
    if c.sock == NONE then c else Note(c, [SocketClosed]).(sock := NONE)
  }

  /** The modes whose entry stops both children. */
  predicate Stopping(m: Mode) {
    m == NO_CONNECTION || m == NO_INTERNET || m == IDLE
  }

  function SwitchMode(c: Client, m: Mode): Client {
    if c.mode == m then c
    else
      var s := Note(if Stopping(m) then StopPrograms(c) else c, [Entered(m)]).(mode := m);
      if m == NO_CONNECTION then CloseSocket(s) else s
  }

  /** A send fails when the peer is gone, and always on a closed socket. */
  predicate CanSend(c: Client, ok: bool) {
    ok && c.sock != NONE
  }

  /** Sends a command; a failure ends the connection. */
  function Send(c: Client, cmd: char, ok: bool): Client {
    if CanSend(c, ok) then Note(c, [Sent(cmd)]) else SwitchMode(c, NO_CONNECTION)
  }

  datatype Key = ENTER | MENU | OTHER

  function OnKey(c: Client, key: Key, ok: bool): Client {
    var w := if c.mode == IDLE_SCROFF then SwitchMode(c, IDLE) else c;
    match key
    case ENTER =>
      if w.mode == IDLE then Send(w, 'r', ok)
      else if w.mode == REQUEST_ACTIVE then Send(w, 'a', ok)
      else if w.mode == REQUEST_RESPONDING || w.mode == MANUAL_ACTIVE then Send(w, 'o', ok)
      else w
    case MENU =>
      if w.mode == MANUAL_ACTIVE || w.mode == REQUEST_RESPONDING || w.mode == REQUEST_ACTIVE then
        SwitchMode(Send(w, 'd', ok), IDLE)
      else w
    case OTHER => w
  }

  /** Starts a child unless there is one; `pid` is what fork gives, -1 if it fails. */
  function StartVideo(c: Client, pid: int): Client {
    if c.v != NONE || pid == NONE then c else Note(c, [Forked(Video)]).(v := pid)
  }

  function StartAudio(c: Client, pid: int): Client {
    if c.a != NONE || pid == NONE then c else Note(c, [Forked(Audio)]).(a := pid)
  }

  /** One command from the server, by its first two bytes. */
  function OnMessage(c: Client, b0: char, b1: char, ok: bool, pid: int): Client {
    var g := Note(c, [Got(b0, b1)]);
    if b0 == 's' then OnStatus(g, b1, ok)
    else if b0 == 'v' then
      var s := StartVideo(g, pid);
      if s.v == NONE then s
      else SwitchMode(s, if g.mode == IDLE_REQUEST then REQUEST_ACTIVE else MANUAL_ACTIVE)
    else if b0 == 'a' then
      if g.mode != REQUEST_ACTIVE then g
      else
        var s := StartAudio(g, pid);
        if s.a == NONE then s else SwitchMode(s, REQUEST_RESPONDING)
    else if b0 == 'e' then SwitchMode(g, IDLE)
    else if b0 == 'p' then g.(keepalive := K.OnPing(g.keepalive))
    else g
  }

  function OnStatus(c: Client, status: char, ok: bool): Client {
    if status == '0' then SwitchMode(c, NO_INTERNET)
    else if status == '1' then SwitchMode(c, IDLE)
    else if status == '2' then
      if c.mode == MANUAL_ACTIVE then Send(SwitchMode(c, REQUEST_ACTIVE), 'a', ok)
      else if CanSend(c, ok) then SwitchMode(Send(c, 'r', ok), IDLE_REQUEST)
      else SwitchMode(c, NO_CONNECTION)
    else c
  }

  /** What the socket shows: nothing, a hang-up, a receive error or the first two bytes of a chunk. */
  datatype SocketEvent = Quiet | HangUp | RecvError | Data(b0: char, b1: char)

  /** A closed socket is never readable; a stale byte count can still lead to a receive, which fails. */
  function OnSocket(c: Client, e: SocketEvent, ok: bool, pid: int): Client {
    if c.mode == NO_CONNECTION || e == Quiet then c
    else if c.sock == NONE || !e.Data? then SwitchMode(c, NO_CONNECTION)
    else OnMessage(c, e.b0, e.b1, ok, pid)
  }

  /** Which of the five-second timers are due, and what the system calls they lead to give. */
  datatype Clock = Clock(reconnect: bool, fd: int, accepted: bool, poll: PollResult,
                         screenOff: bool, ping: bool)

  datatype PollResult = Pending | PollFailed | Refused | Ready

  function OnTimer(c: Client, t: Clock, ok: bool): Client {
    match c.mode
    case NO_CONNECTION => Reconnect(c, t)
    case NO_INTERNET => if t.ping then Send(c, 'p', ok) else c
    case _ =>
      var s := if c.mode == IDLE && t.screenOff then SwitchMode(c, IDLE_SCROFF) else c;
      if t.ping then CheckAlive(Send(s, 'p', ok)) else s
  }

  function CheckAlive(c: Client): Client {
    (if K.TimesOut(c.keepalive) then SwitchMode(c, NO_CONNECTION) else c).(keepalive := K.OnTick(c.keepalive))
  }

  function Reconnect(c: Client, t: Clock): Client {
    if t.reconnect then
      var closed := CloseSocket(c);
      if t.fd == NONE then closed
      else Note(closed, [SocketOpened]).(sock := t.fd, connecting := t.accepted)
    else if !c.connecting || c.sock == NONE || t.poll == Pending || t.poll == PollFailed then c
    else if t.poll == Refused then CloseSocket(c.(connecting := false))
    else SwitchMode(c.(connecting := false), NO_INTERNET).(keepalive := 0)
  }

  /** The inputs of one turn of the main loop: a key if one is pressed, a socket event, the clock, and
      for each send and fork whether it works. */
  datatype Input = Input(key: KeyPress, keyOk: bool, socket: SocketEvent, pid: int, replyOk: bool,
                         clock: Clock, pingOk: bool)

  datatype KeyPress = NoKey | Pressed(key: Key)

  function Turn(c: Client, i: Input): Client {
    var k := if i.key.Pressed? then OnKey(c, i.key.key, i.keyOk) else c;
    OnTimer(OnSocket(k, i.socket, i.replyOk, i.pid), i.clock, i.pingOk)
  }

  /** The states of a run of the main loop: the first, and one after each turn. */
  predicate Behaviour(states: seq<Client>, inputs: seq<Input>) {
    |states| == |inputs| + 1 && states[0] == Initial()
    && forall n {:trigger inputs[n]} :: 0 <= n < |inputs| ==> states[n + 1] == Turn(states[n], inputs[n])
  }
}
