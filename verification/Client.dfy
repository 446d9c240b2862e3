/** The client as written: globals updated step by step by `switch_mode`, `stop_programs` and the three
    parts of the main loop. */
module ClientProgram {
  import opened ClientSpec
  import K = Keepalive

  class MainVicom {
    var curr_mode: Mode
    var sock_fd: int
    var v_pid: int
    var a_pid: int
    var keepalive_ctr: int
    var connect_success: bool
    /** System calls and mode changes so far. */
    ghost var log: seq<Effect>

    ghost function Value(): Client
      reads this
    {
      Client(curr_mode, sock_fd, v_pid, a_pid, keepalive_ctr, connect_success, log)
    }

    constructor ()
      ensures Value() == Initial()
    {
      curr_mode, sock_fd, v_pid, a_pid := IDLE_SCROFF, NONE, NONE, NONE;
      keepalive_ctr, connect_success, log := 0, false, [];
      new;
      SwitchModeTo(NO_CONNECTION);
    }

    method StopProgramsNow()
      modifies this
      ensures Value() == StopPrograms(old(Value()))
    {
      if v_pid != NONE {
        log := log + [Reaped(Video)];
        v_pid := NONE;
      }
      if a_pid != NONE {
        log := log + [Reaped(Audio)];
        a_pid := NONE;
      }
    }

    method SwitchModeTo(next_mode: Mode)
      modifies this
      ensures Value() == SwitchMode(old(Value()), next_mode)
    {
      if curr_mode == next_mode {
        return;
      }
      match next_mode {
        case NO_CONNECTION =>
          StopProgramsNow();
          curr_mode := NO_CONNECTION;
          log := log + [Entered(next_mode)];
          if sock_fd != NONE {
            log := log + [SocketClosed];
            sock_fd := NONE;
          }
        case NO_INTERNET =>
          StopProgramsNow();
          curr_mode := NO_INTERNET;
          log := log + [Entered(next_mode)];
        case IDLE =>
          StopProgramsNow();
          curr_mode := IDLE;
          log := log + [Entered(next_mode)];
        case _ =>
          curr_mode := next_mode;
          log := log + [Entered(next_mode)];
      }
    }

    /** send(): -1 on failure. */
    method SendCommand(cmd: char, ok: bool) returns (ret: int)
      modifies this`log
      ensures ret == if CanSend(old(Value()), ok) then 1 else -1
      ensures log == if CanSend(old(Value()), ok) then old(log) + [Sent(cmd)] else old(log)
    {
      if sock_fd == NONE || !ok {
        return -1;
      }
      log := log + [Sent(cmd)];
      return 1;
    }

    method HandleKey(code: Key, ok: bool)
      modifies this
      ensures Value() == OnKey(old(Value()), code, ok)
    {
      hide SwitchMode;
      if curr_mode == IDLE_SCROFF {
        SwitchModeTo(IDLE);
      }
      if code == ENTER {
        if curr_mode == IDLE {
          var ret := SendCommand('r', ok);
          if ret < 0 { SwitchModeTo(NO_CONNECTION); }
        } else if curr_mode == REQUEST_ACTIVE {
          var ret := SendCommand('a', ok);
          if ret < 0 { SwitchModeTo(NO_CONNECTION); }
        } else if curr_mode == REQUEST_RESPONDING || curr_mode == MANUAL_ACTIVE {
          var ret := SendCommand('o', ok);
          if ret < 0 { SwitchModeTo(NO_CONNECTION); }
        }
      } else if code == MENU {
        if curr_mode == MANUAL_ACTIVE || curr_mode == REQUEST_RESPONDING || curr_mode == REQUEST_ACTIVE {
          var ret := SendCommand('d', ok);
          if ret < 0 { SwitchModeTo(NO_CONNECTION); }
          SwitchModeTo(IDLE);
        }
      }
    }

    method HandleStatus(status: char, ok: bool)
      modifies this
      ensures Value() == OnStatus(old(Value()), status, ok)
    {
      match status {
        case '0' => SwitchModeTo(NO_INTERNET);
        case '1' => SwitchModeTo(IDLE);
        case '2' =>
          if curr_mode == MANUAL_ACTIVE {
            SwitchModeTo(REQUEST_ACTIVE);
            var ret := SendCommand('a', ok);
            if ret < 0 { SwitchModeTo(NO_CONNECTION); }
          } else {
            var ret := SendCommand('r', ok);
            if ret < 0 { SwitchModeTo(NO_CONNECTION); } else { SwitchModeTo(IDLE_REQUEST); }
          }
        case _ =>
      }
    }

    method HandleMessage(b0: char, b1: char, ok: bool, pid: int)
      modifies this
      ensures Value() == OnMessage(old(Value()), b0, b1, ok, pid)
    {
      hide SwitchMode, OnStatus;
      log := log + [Got(b0, b1)];
      match b0 {
        case 's' => HandleStatus(b1, ok);
        case 'v' =>
          if v_pid == NONE {
            v_pid := pid;
            if pid != NONE { log := log + [Forked(Video)]; }
          }
          if v_pid != NONE {
            if curr_mode == IDLE_REQUEST { SwitchModeTo(REQUEST_ACTIVE); } else { SwitchModeTo(MANUAL_ACTIVE); }
          }
        case 'a' =>
          if curr_mode == REQUEST_ACTIVE {
            if a_pid == NONE {
              a_pid := pid;
              if pid != NONE { log := log + [Forked(Audio)]; }
            }
            if a_pid != NONE { SwitchModeTo(REQUEST_RESPONDING); }
          }
        case 'e' => SwitchModeTo(IDLE);
        case 'p' =>
          if keepalive_ctr < 0 {
            keepalive_ctr := 0;
          }
          keepalive_ctr := keepalive_ctr + 1;
        case _ =>
      }
    }

    method HandleTimers(t: Clock, ok: bool)
      modifies this
      ensures Value() == OnTimer(old(Value()), t, ok)
    {
      hide SwitchMode, CheckAlive, Reconnect;
      if curr_mode == NO_CONNECTION {
        TryConnect(t);
      } else if curr_mode == NO_INTERNET {
        if t.ping {
          var ret := SendCommand('p', ok);
          if ret < 0 { SwitchModeTo(NO_CONNECTION); }
        }
      } else {
        if curr_mode == IDLE && t.screenOff {
          SwitchModeTo(IDLE_SCROFF);
        }
        if t.ping {
          var ret := SendCommand('p', ok);
          if ret < 0 { SwitchModeTo(NO_CONNECTION); }
          TickKeepalive();
        }
      }
    }

    method TickKeepalive()
      modifies this
      ensures Value() == CheckAlive(old(Value()))
    {
      if keepalive_ctr <= -5 { SwitchModeTo(NO_CONNECTION); }
      keepalive_ctr := keepalive_ctr - 1;
    }

    method TryConnect(t: Clock)
      modifies this
      ensures Value() == Reconnect(old(Value()), t)
    {
      if t.reconnect {
        if sock_fd != NONE {
          log := log + [SocketClosed];
          sock_fd := NONE;
        }
        sock_fd := t.fd;
        if sock_fd == NONE {
          return;
        }
        log := log + [SocketOpened];
        connect_success := t.accepted;
      } else if connect_success && sock_fd != NONE && t.poll != Pending && t.poll != PollFailed {
        connect_success := false;
        if t.poll == Refused {
          log := log + [SocketClosed];
          sock_fd := NONE;
        } else {
          SwitchModeTo(NO_INTERNET);
          keepalive_ctr := 0;
        }
      }
    }

    method LoopTurn(i: Input)
      modifies this
      ensures Value() == Turn(old(Value()), i)
    {
      hide OnKey, OnMessage, OnTimer;
      if i.key.Pressed? {
        HandleKey(i.key.key, i.keyOk);
      }
      if curr_mode != NO_CONNECTION {
        match i.socket {
          case Quiet =>
          case HangUp => SwitchModeTo(NO_CONNECTION);
          case RecvError => SwitchModeTo(NO_CONNECTION);
          case Data(b0, b1) =>
            if sock_fd == NONE { SwitchModeTo(NO_CONNECTION); } else { HandleMessage(b0, b1, i.replyOk, i.pid); }
        }
      }
      HandleTimers(i.clock, i.pingOk);
    }

    /** The main loop over any finite run of inputs. */
    method MainLoop(inputs: seq<Input>) returns (ghost states: seq<Client>)
      requires Value() == Initial()
      modifies this
      ensures Behaviour(states, inputs) && Value() == states[|inputs|]
    {
      hide Turn;
      states := [Value()];
      var n := 0;
      while n < |inputs|
        invariant n <= |inputs| && Behaviour(states, inputs[..n]) && Value() == states[n]
      {
        LoopTurn(inputs[n]);
        states := states + [Value()];
        assert forall k :: 0 <= k < n ==> inputs[..n + 1][k] == inputs[..n][k];
        n := n + 1;
      }
      assert inputs[..n] == inputs;
    }
  }
}
