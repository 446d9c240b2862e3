/** The server's process management as written: three global handles and a growing table of processes,
    changed by `stop_proc`, the `start_*` functions and the body of the supervisor's loop. */
module ServerProgram {
  import opened ServerSpec

  class Globals {
    var table: seq<Proc>
    var ffmpeg_v_proc: VideoHandle
    var ffmpeg_a_proc: AudioHandle
    var local_a_proc: LocalHandle

    ghost function Value(): Procs
      reads this
    {
      Procs(table, ffmpeg_v_proc, ffmpeg_a_proc, local_a_proc)
    }

    constructor ()
      ensures Value() == ServerSpec.Initial().procs
    {
      table, ffmpeg_v_proc, ffmpeg_a_proc, local_a_proc := [], NoVideo, NoAudio, NoLocal;
    }

    /** os.killpg(os.getpgid(pid), ...) down to SIGKILL. */
    method KillGroup(k: nat) returns (raised: bool)
      requires k < |table|
      modifies this`table
      ensures raised == (old(table)[k] == Reaped)
      ensures table == if raised then old(table) else Killed(old(table), k)
    {
      if table[k] == Reaped {
        return true;
      }
      if table[k] == Running {
        table := table[k := Zombie];
      }
      return false;
    }

    /** proc.poll(): whether the process is gone, collecting it if so. */
    method Poll(k: nat) returns (gone: bool)
      requires k < |table|
      modifies this`table
      ensures table == Polled(old(table), k) && gone == (table[k] != Running)
    {
      if table[k] == Zombie {
        table := table[k := Reaped];
      }
      gone := table[k] != Running;
    }

    method Popen() returns (k: nat)
      modifies this`table
      ensures k == |old(table)| && table == old(table) + [Running]
    {
      k := |table|;
      table := table + [Running];
    }

    method StopAll() returns (raised: bool)
      requires Known(Value())
      modifies this
      ensures (if raised then Raised(Value()) else Fine(Value())) == StopProc(old(Value()))
    {
      raised := StopVideoPair();
      if raised { return; }
      raised := StopFfmpegA();
      if raised { return; }
      match local_a_proc {
        case NoLocal =>
        case Placeholder => raised := true;
        case Endpoint => local_a_proc := NoLocal;
      }
    }

    method StopVideoPair() returns (raised: bool)
      requires Known(Value())
      modifies this
      ensures (if raised then Raised(Value()) else Fine(Value())) == StopVideo(old(Value()))
    {
      raised := false;
      if ffmpeg_v_proc.Pair? {
        var procs := [ffmpeg_v_proc.i, ffmpeg_v_proc.j];
        ghost var t0 := table;
        var n := 0;
        while n < |procs|
          invariant n <= 2 && |table| == |t0| && Value() == old(Value()).(table := table)
          invariant !raised
          invariant n == 0 ==> table == t0
          invariant n >= 1 ==> t0[procs[0]] != Reaped
          invariant n == 1 ==> table == Killed(t0, procs[0])
          invariant n == 2 ==> Killed(t0, procs[0])[procs[1]] != Reaped
                               && table == Killed(Killed(t0, procs[0]), procs[1])
        {
          raised := KillGroup(procs[n]);
          if raised {
            return;
          }
          n := n + 1;
        }
        ffmpeg_v_proc := NoVideo;
      }
    }

    method StopFfmpegA() returns (raised: bool)
      requires Known(Value())
      modifies this
      ensures (if raised then Raised(Value()) else Fine(Value())) == StopAudio(old(Value()))
    {
      raised := false;
      if ffmpeg_a_proc.One? {
        raised := KillGroup(ffmpeg_a_proc.k);
        if !raised {
          ffmpeg_a_proc := NoAudio;
        }
      }
    }

    method StartFfmpegAV()
      requires Known(Value())
      modifies this
      ensures Value() == StartVideo(old(Value()))
    {
      if ffmpeg_v_proc.NoVideo? {
        var a := Popen();
        var b := Popen();
        ffmpeg_v_proc := Pair(a, b);
        assert table == old(table) + [Running, Running];
      }
    }

    /** Both audio starters: from the video stream and from the ringtone file. */
    method StartFfmpegA()
      requires Known(Value())
      modifies this
      ensures Value() == StartAudio(old(Value()))
    {
      if ffmpeg_a_proc.NoAudio? {
        var k := Popen();
        ffmpeg_a_proc := One(k);
      }
    }

    /** One pass of the supervisor; `stream` says whether the stream request succeeds. */
    method SupervisePass(stream: bool)
      requires Known(Value())
      modifies this
      ensures Value() == Supervise(old(Value()), stream)
    {
      if ffmpeg_v_proc.Pair? {
        var fall := PollPair();
        if fall {
          CollectPair();
          if stream {
            ffmpeg_v_proc := NoVideo;
            StartFfmpegAV();
          }
        }
      }
      hide SuperviseVideo;
      if ffmpeg_a_proc.One? {
        var gone := Poll(ffmpeg_a_proc.k);
        if gone {
          var k := Popen();
          ffmpeg_a_proc := One(k);
        }
      }
    }

    method PollPair() returns (fall: bool)
      requires Known(Value()) && ffmpeg_v_proc.Pair?
      modifies this`table
      ensures var i, j := ffmpeg_v_proc.i, ffmpeg_v_proc.j;
              table == Polled(Polled(old(table), i), j) && fall == !(table[i] == Running && table[j] == Running)
    {
      fall := false;
      var procs := [ffmpeg_v_proc.i, ffmpeg_v_proc.j];
      ghost var t0 := table;
      var n := 0;
      while n < |procs|
        invariant n <= 2 && |table| == |t0|
        invariant n == 0 ==> table == t0 && !fall
        invariant n == 1 ==> table == Polled(t0, procs[0]) && fall == (table[procs[0]] != Running)
        invariant n == 2 ==> table == Polled(Polled(t0, procs[0]), procs[1])
                             && fall == !(table[procs[0]] == Running && table[procs[1]] == Running)
      {
        var gone := Poll(procs[n]);
        if gone {
          fall := true;
        }
        n := n + 1;
      }
    }

    /** Kills what still runs of a pair one of whose processes is gone. */
    method CollectPair()
      requires Known(Value()) && ffmpeg_v_proc.Pair?
      modifies this`table
      ensures var i, j := ffmpeg_v_proc.i, ffmpeg_v_proc.j;
              table == Killed(Polled(Killed(Polled(old(table), i), i), j), j)
    {
      var procs := [ffmpeg_v_proc.i, ffmpeg_v_proc.j];
      ghost var t0 := table;
      var n := 0;
      while n < |procs|
        invariant n <= 2 && |table| == |t0|
        invariant n == 0 ==> table == t0
        invariant n == 1 ==> table == Killed(Polled(t0, procs[0]), procs[0])
        invariant n == 2 ==> table == Killed(Polled(Killed(Polled(t0, procs[0]), procs[0]), procs[1]), procs[1])
      {
        var gone := Poll(procs[n]);
        if !gone {
          var raised := KillGroup(procs[n]);
        }
        n := n + 1;
      }
    }
  }
}
