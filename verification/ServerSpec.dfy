/** The intercom server on values: the table of processes it has started, its three global handles, and
    a client session cut at its `await` points. Between two awaits a coroutine runs undisturbed; at each
    of them the supervisor may run, processes may exit, and an exception may end the session. */
module ServerSpec {
  import K = Keepalive
  import opened Wrappers

  /** A started process; one that has exited stays a zombie until `poll` collects it. */
  datatype Proc = Running | Zombie | Reaped

  datatype VideoHandle = NoVideo | Pair(i: nat, j: nat)
  datatype AudioHandle = NoAudio | One(k: nat)
  /** `Placeholder` is the 1 stored while the endpoint is being created. */
  datatype LocalHandle = NoLocal | Placeholder | Endpoint

  datatype Procs = Procs(table: seq<Proc>, video: VideoHandle, audio: AudioHandle, local: LocalHandle)

  /** Success, or the exception of a call that found no such process or no such attribute. */
  datatype Result = Fine(p: Procs) | Raised(p: Procs)

  predicate Known(p: Procs) {
    (p.video.Pair? ==> p.video.i < |p.table| && p.video.j < |p.table|)
    && (p.audio.One? ==> p.audio.k < |p.table|)
  }

  predicate NoHandles(p: Procs) {
    p.video.NoVideo? && p.audio.NoAudio? && p.local.NoLocal?
  }

  /** killpg and SIGKILL: a running process becomes a zombie, a zombie stays one. */
  function Killed(table: seq<Proc>, k: nat): (t: seq<Proc>)
    requires k < |table|
    ensures |t| == |table|
  {
    table[k := if table[k] == Running then Zombie else table[k]]
  }

  /** `poll` collects a zombie. */
  function Polled(table: seq<Proc>, k: nat): (t: seq<Proc>)
    requires k < |table|
    ensures |t| == |table|
  {
    table[k := if table[k] == Zombie then Reaped else table[k]]
  }

  /** The first third of `stop_proc`: `getpgid` raises for a process already collected. */
  function StopVideo(p: Procs): (r: Result)
    requires Known(p)
    ensures Known(r.p)
  {
    match p.video
    case NoVideo => Fine(p)
    case Pair(i, j) =>
      if p.table[i] == Reaped then Raised(p)
      else
        var t := Killed(p.table, i);
        if t[j] == Reaped then Raised(p.(table := t))
        else Fine(p.(table := Killed(t, j), video := NoVideo))
  }

  /** `stop_ffmpeg_a_proc`, also the second third of `stop_proc`. */
  function StopAudio(p: Procs): (r: Result)
    requires Known(p)
    ensures Known(r.p)
  {
    match p.audio
    case NoAudio => Fine(p)
    case One(k) =>
      if p.table[k] == Reaped then Raised(p) else Fine(p.(table := Killed(p.table, k), audio := NoAudio))
  }

  /** The last third: the placeholder has no transport to close. */
  function StopLocal(p: Procs): Result {
    match p.local
    case NoLocal => Fine(p)
    case Placeholder => Raised(p)
    case Endpoint => Fine(p.(local := NoLocal))
  }

  function StopProc(p: Procs): (r: Result)
    requires Known(p)
    ensures Known(r.p)
  {
    var v := StopVideo(p);
    if v.Raised? then v
    else
      var a := StopAudio(v.p);
      if a.Raised? then a else StopLocal(a.p)
  }

  function StartVideo(p: Procs): (r: Procs)
    requires Known(p)
    ensures Known(r)
  {
    if p.video.Pair? then p
    else p.(table := p.table + [Running, Running], video := Pair(|p.table|, |p.table| + 1))
  }

  function StartAudio(p: Procs): (r: Procs)
    requires Known(p)
    ensures Known(r)
  {
    if p.audio.One? then p else p.(table := p.table + [Running], audio := One(|p.table|))
  }

  /** One pass of `autopendel_ffmpeg` over the video pair: if either process is gone the other is killed,
      and a new pair is started if the stream can be had; otherwise the dead pair stays. */
  function SuperviseVideo(p: Procs, stream: bool): (r: Procs)
    requires Known(p)
    ensures Known(r)
  {
    match p.video
    case NoVideo => p
    case Pair(i, j) =>
      var t := Polled(Polled(p.table, i), j);
      if t[i] == Running && t[j] == Running then p.(table := t)
      else
        var t1 := Killed(Polled(t, i), i);
        var q := p.(table := Killed(Polled(t1, j), j));
        if stream then StartVideo(q.(video := NoVideo)) else q
  }

  function SuperviseAudio(p: Procs): (r: Procs)
    requires Known(p)
    ensures Known(r)
  {
    match p.audio
    case NoAudio => p
    case One(k) =>
      var t := Polled(p.table, k);
      if t[k] == Running then p.(table := t)
      else p.(table := t + [Running], audio := One(|t|))
  }

  function Supervise(p: Procs, stream: bool): (r: Procs)
    requires Known(p)
    ensures Known(r)
  {
    SuperviseAudio(SuperviseVideo(p, stream))
  }

  // --- The session ---

  datatype Status = Offline | Calm | Calling

  datatype Msg = End | Report(status: Status) | VideoOn | AudioOn | Heartbeat

  /** Where the session waits. */
  datatype Place =
    | Entering | DrainEnd | DrainFirst
    | Polling | Reading | DrainVideo
    | Accepting | DrainRefused | Opening | DrainAudio
    | StoppingCalls | Declining
    | Asking | DrainStatus(next: Status) | DrainPing
    | Leaving | Done | Crashed

  /** `told` is the status last reported to the client, if any. */
  datatype Server = Server(place: Place, procs: Procs, prev: Status, told: Option<Status>, keepalive: int,
                           closing: bool)

  /** What an await brings: an exception, whether there is data, the command read, the answers of the
      intercom interface, whether the connection is closing, and whether the ping timer is due. */
  datatype Wake = Wake(raises: bool, data: bool, command: char, answer: bool, status: Status,
                       eof: bool, pingDue: bool)

  datatype Step = Step(s: Server, out: seq<Msg>)

  function Go(s: Server, place: Place): Step {
    Step(s.(place := place), [])
  }

  function Say(s: Server, m: Msg, place: Place): Step {
    Step(s.(place := place, told := if m.Report? then Some(m.status) else s.told), [m])
  }

  /** The loop's condition. */
  function LoopTop(s: Server, w: Wake): Step {
    Go(s, if s.closing || w.eof then Leaving else Polling)
  }

  function AfterStatus(s: Server, w: Wake): Step {
    if w.pingDue then Say(s, Heartbeat, DrainPing) else LoopTop(s, w)
  }

  /** The first audio of a video stream: the stream's own sound, or the ringtone. */
  function AfterVideo(s: Server): Step
    requires Known(s.procs)
  {
    Go(if s.prev == Offline then s else s.(procs := StartAudio(s.procs)), Asking)
  }

  function StopThen(s: Server, m: seq<Msg>, place: Place): Step
    requires Known(s.procs)
  {
    var r := StopProc(s.procs);
    if r.Raised? then Go(s.(procs := r.p), Crashed)
    else if m == [] then Go(s.(procs := r.p), place)
    else Say(s.(procs := r.p), m[0], place)
  }

  function OnCommand(s: Server, w: Wake): Step
    requires Known(s.procs)
  {
    match w.command
    case 'r' =>
      if s.prev == Offline then Go(s, Asking)
      else if w.answer then Say(s.(procs := StartVideo(s.procs)), VideoOn, DrainVideo)
      else AfterVideo(s)
    case 'a' => Go(s, if s.prev == Calling then Accepting else Asking)
    case 'd' => Go(s, StoppingCalls)
    case 'p' => Go(s.(keepalive := K.OnPing(s.keepalive)), Asking)
    case _ => Go(s, Asking)
  }

  function OnAccepted(s: Server, accepted: bool): Step
    requires Known(s.procs)
  {
    if !accepted then Say(s, Report(Calm), DrainRefused)
    else
      var r := StopAudio(s.procs);
      if r.Raised? then Go(s.(procs := r.p), Crashed)
      else
        var p := StartAudio(r.p);
        if p.local == NoLocal then Go(s.(procs := p.(local := Placeholder)), Opening)
        else Say(s.(procs := p), AudioOn, DrainAudio)
  }

  function OnStatus(s: Server, w: Wake): Step
    requires Known(s.procs)
  {
    if w.status == s.prev then AfterStatus(s, w)
    else if w.status == Calling then Say(s, Report(Calling), DrainStatus(Calling))
    else StopThen(s, [Report(w.status)], DrainStatus(w.status))
  }

  /** From one await to the next. */
  function Resume(s: Server, w: Wake): Step
    requires Known(s.procs)
  {
    if s.place == Done || s.place == Crashed then
      Go(s.(told := None, keepalive := 0, closing := false), Entering)
    else if w.raises then Go(s, Crashed)
    else match s.place
      case Entering => StopThen(s, [End], DrainEnd)
      case DrainEnd => Say(s, Report(Offline), DrainFirst)
      case DrainFirst => LoopTop(s.(prev := Offline), w)
      case Polling => Go(s, if w.data then Reading else Asking)
      case Reading => OnCommand(s, w)
      case DrainVideo => AfterVideo(s)
      case Accepting => OnAccepted(s, w.answer)
      case DrainRefused => Go(s, Asking)
      case Opening => Say(s.(procs := s.procs.(local := Endpoint)), AudioOn, DrainAudio)
      case DrainAudio => Go(s, Asking)
      case StoppingCalls => if s.prev == Calling then Go(s, Declining) else StopThen(s, [], Asking)
      case Declining => StopThen(s, [], Asking)
      case Asking => OnStatus(s, w)
      case DrainStatus(next) => AfterStatus(s.(prev := next), w)
      case DrainPing =>
        LoopTop(s.(closing := s.closing || K.TimesOut(s.keepalive), keepalive := K.OnTick(s.keepalive)), w)
      case Leaving => StopThen(s, [], Done)
  }

  /** One event on the server: the session resumes, the supervisor makes a pass, or a process exits. */
  datatype Event = Session(w: Wake) | Supervisor(stream: bool) | Exit(k: nat)

  function Next(s: Server, e: Event): Step
    requires Known(s.procs)
  {
    match e
    case Session(w) => Resume(s, w)
    case Supervisor(stream) => Step(s.(procs := Supervise(s.procs, stream)), [])
    case Exit(k) =>
      if k < |s.procs.table| && s.procs.table[k] == Running
      then Step(s.(procs := s.procs.(table := s.procs.table[k := Zombie])), [])
      else Step(s, [])
  }

  /** The server as it starts, before any client. */
  function Initial(): Server {
    Server(Entering, Procs([], NoVideo, NoAudio, NoLocal), Offline, None, 0, false)
  }
}
