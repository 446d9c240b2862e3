/** The byte FIFO between the network thread, which appends, and the audio thread, which cuts frames off
    its front. Each thread is cut at every access to the shared fields, and all interleavings are
    considered, closing at any moment included. */
module ByteFifo {

  type Bytes = seq<bv8>

  /** 160 samples of two bytes. */
  const FRAME := 320

  // --- The FIFO as written ---

  class Fifo {
    var buf: Bytes
    var running: bool

    constructor ()
      ensures buf == [] && running
    {
      buf, running := [], true;
    }

    method Put(data: Bytes)
      modifies this`buf
      ensures buf == if running then old(buf) + data else old(buf)
    {
      if running {
        buf := buf + data;
      }
    }

    /** Copies a prefix, then deletes it; what is returned and what is left are the old contents. */
    method Get(size: nat) returns (data: Bytes)
      modifies this`buf
      ensures running ==> data + buf == old(buf) && |data| == if |old(buf)| < size then |old(buf)| else size
      ensures !running ==> data == [] && buf == old(buf)
    {
      if running {
        data := Prefix(buf, size);
        buf := buf[|data|..];
        return;
      }
      return [];
    }

    method Length() returns (n: nat)
      ensures n == if running then |buf| else 0
    {
      if running { return |buf|; } else { return 0; }
    }

    method Close()
      modifies this`running
      ensures !running
    {
      running := false;
    }
  }

  /** Python's s[:size]. */
  function Prefix(s: Bytes, size: nat): (p: Bytes)
    ensures p <= s && |p| == if |s| < size then |s| else size
  {
    if |s| < size then s else s[..size]
  }

  // --- Two threads ---

  /** Where the consumer stands in its loop `while running: if len >= 320: q.put(get(320)) else sleep`. */
  datatype Consumer =
    | AtLoop
    | AtLength           // about to look whether the FIFO still runs, for its length
    | Measuring          // about to take the length
    | AtGet              // about to look whether it still runs, inside get
    | Copying            // about to copy the prefix
    | Deleting(data: Bytes)
    | Emitting(frame: Bytes)
    | Finished

  /** `pending` holds the puts that have seen the FIFO running but not yet appended; `accepted` is all
      that has been appended so far. */
  datatype State = State(buf: Bytes, running: bool, consumer: Consumer, frames: seq<Bytes>,
                         pending: seq<Bytes>, accepted: Bytes)

  datatype Action = PutBegins(data: Bytes) | PutAppends(i: nat) | Consume | Close

  function Initial(): State {
    State([], true, AtLoop, [], [], [])
  }

  function ConsumerStep(s: State): State {
    match s.consumer
    case AtLoop => s.(consumer := if s.running then AtLength else Finished)
    case AtLength => s.(consumer := if s.running then Measuring else AtLoop)
    case Measuring => s.(consumer := if |s.buf| >= FRAME then AtGet else AtLoop)
    case AtGet => s.(consumer := if s.running then Copying else Emitting([]))
    case Copying => s.(consumer := Deleting(Prefix(s.buf, FRAME)))
    case Deleting(data) => s.(buf := s.buf[|Prefix(s.buf, FRAME)|..], consumer := Emitting(data))
    case Emitting(frame) => s.(frames := s.frames + [frame], consumer := AtLoop)
    case Finished => s
  }

  function Step(s: State, a: Action): State {
    match a
    case PutBegins(data) => if s.running then s.(pending := s.pending + [data]) else s
    case PutAppends(i) =>
      if i < |s.pending| then
        s.(buf := s.buf + s.pending[i], accepted := s.accepted + s.pending[i],
           pending := s.pending[..i] + s.pending[i + 1..])
      else s
    case Consume => ConsumerStep(s)
    case Close => s.(running := false)
  }

  function Run(actions: seq<Action>): State {
    if actions == [] then Initial() else Step(Run(actions[..|actions| - 1]), actions[|actions| - 1])
  }

  function Flatten(frames: seq<Bytes>): Bytes {
    if frames == [] then [] else Flatten(frames[..|frames| - 1]) + frames[|frames| - 1]
  }

  /** A frame taken off the buffer but not yet queued. */
  function InHand(c: Consumer): Bytes {
    match c case Emitting(frame) => frame case _ => []
  }

  /** A frame the consumer may emit now. */
  predicate Whole(frame: Bytes, running: bool) {
    |frame| == FRAME || (frame == [] && !running)
  }

  predicate Inv(s: State) {
    s.accepted == Flatten(s.frames) + InHand(s.consumer) + s.buf
    && (s.consumer.AtGet? || s.consumer.Copying? ==> |s.buf| >= FRAME)
    && (s.consumer.Deleting? ==> |s.consumer.data| == FRAME && s.consumer.data == Prefix(s.buf, FRAME))
    && (s.consumer.Emitting? ==> Whole(s.consumer.frame, s.running))
    && (forall i :: 0 <= i < |s.frames| ==> Whole(s.frames[i], s.running))
    && (forall i :: 0 <= i < |s.frames| && s.frames[i] == [] ==>
          i == |s.frames| - 1 && (s.consumer.AtLoop? || s.consumer.Finished?))
  }

  lemma StepInv(s: State, a: Action)
    requires Inv(s)
    ensures Inv(Step(s, a))
  {
    if a.Consume? {
      hide Inv, ConsumerStep;
      ConsumerInv(s);
    } else {
      hide Flatten;
      if a.PutAppends? && a.i < |s.pending| {
        var more := s.pending[a.i];
        assert Step(s, a).accepted == Flatten(s.frames) + InHand(s.consumer) + (s.buf + more);
        assert s.consumer.Deleting? ==> Prefix(s.buf + more, FRAME) == Prefix(s.buf, FRAME);
      }
    }
  }

  lemma ConsumerInv(s: State)
    requires Inv(s)
    ensures Inv(ConsumerStep(s))
  {
    match s.consumer
    case Deleting(data) => DeletingInv(s);
    case Emitting(frame) => EmittingInv(s);
    case _ =>
  }

  lemma DeletingInv(s: State)
    requires Inv(s) && s.consumer.Deleting?
    ensures Inv(ConsumerStep(s))
  {
    var d := ConsumerStep(s);
    assert s.buf == s.consumer.data + d.buf;
    assert d.accepted == Flatten(d.frames) + s.consumer.data + d.buf;
    hide Flatten, Prefix;
  }

  lemma EmittingInv(s: State)
    requires Inv(s) && s.consumer.Emitting?
    ensures Inv(ConsumerStep(s))
  {
    var d := ConsumerStep(s);
    assert d.frames[..|d.frames| - 1] == s.frames;
    assert Flatten(d.frames) == Flatten(s.frames) + s.consumer.frame;
    assert d.accepted == Flatten(d.frames) + [] + d.buf;
    hide Flatten, Prefix;
  }

  lemma {:induction false} RunInv(actions: seq<Action>)
    ensures Inv(Run(actions))
    decreases |actions|
  {
    if actions != [] {
      RunInv(actions[..|actions| - 1]);
      StepInv(Run(actions[..|actions| - 1]), actions[|actions| - 1]);
    }
  }

  // --- Main results ---

  /** In every interleaving nothing is lost, repeated or reordered: the frames emitted, the one in hand
      and the buffer, in that order, are the bytes accepted so far. */
  lemma NothingLost(actions: seq<Action>)
    ensures var s := Run(actions); s.accepted == Flatten(s.frames) + InHand(s.consumer) + s.buf
  {
    RunInv(actions);
  }

  /** While the FIFO runs every frame is exactly 320 bytes; closing can add one empty frame, the last. */
  lemma FramesAreWhole(actions: seq<Action>)
    ensures var s := Run(actions);
            forall i :: 0 <= i < |s.frames| ==>
              |s.frames[i]| == 320 || (s.frames[i] == [] && i == |s.frames| - 1 && !s.running)
  {
    RunInv(actions);
  }

  // --- Progress ---

  /** How many steps the consumer needs to its next frame, while the FIFO runs and holds enough. */
  function StepsLeft(c: Consumer): nat {
    match c
    case AtLoop => 7
    case AtLength => 6
    case Measuring => 5
    case AtGet => 4
    case Copying => 3
    case Deleting(_) => 2
    case Emitting(_) => 1
    case Finished => 0
  }

  function Steps(s: State, actions: seq<Action>): State {
    if actions == [] then s else Step(Steps(s, actions[..|actions| - 1]), actions[|actions| - 1])
  }

  function Consumes(actions: seq<Action>): nat {
    if actions == [] then 0
    else Consumes(actions[..|actions| - 1]) + if actions[|actions| - 1].Consume? then 1 else 0
  }

  /** From the top of its loop, with a frame's worth of bytes there and the FIFO running, seven steps of the consumer
      emit exactly the first 320 bytes, whatever is put in meanwhile; before that it emits nothing. */
  lemma {:induction false} FrameComes(s: State, actions: seq<Action>)
    requires s.running && s.consumer == AtLoop && |s.buf| >= 320
    requires Close !in actions && Consumes(actions) <= 7
    ensures var t := Steps(s, actions);
            t.running
            && if Consumes(actions) == 7 then t.frames == s.frames + [s.buf[..320]] && t.consumer == AtLoop
               else t.frames == s.frames && StepsLeft(t.consumer) == 7 - Consumes(actions) && Holding(s, t)
    decreases |actions|
  {
    if actions != [] {
      var before, a := actions[..|actions| - 1], actions[|actions| - 1];
      assert a in actions && forall b :: b in before ==> b in actions;
      FrameComes(s, before);
      if Consumes(before) < 7 { OneStep(s, Steps(s, before), a); }
      hide Step;
    }
  }

  /** The consumer is on its way to the frame at the front of the buffer as it was. */
  predicate Holding(s: State, t: State)
    requires |s.buf| >= FRAME
  {
    match t.consumer
    case Deleting(data) => data == s.buf[..FRAME] && s.buf <= t.buf
    case Emitting(frame) => frame == s.buf[..FRAME]
    case _ => s.buf <= t.buf
  }

  lemma OneStep(s: State, t: State, a: Action)
    requires |s.buf| >= FRAME && t.running && t.frames == s.frames && 1 <= StepsLeft(t.consumer) <= 7
    requires Holding(s, t) && a != Close
    ensures var u := Step(t, a);
            u.running
            && if !a.Consume? then u.frames == s.frames && u.consumer == t.consumer && Holding(s, u)
               else if StepsLeft(t.consumer) == 1 then u.frames == s.frames + [s.buf[..FRAME]] && u.consumer == AtLoop
               else u.frames == s.frames && StepsLeft(u.consumer) == StepsLeft(t.consumer) - 1 && Holding(s, u)
  {
    assert t.consumer.Copying? ==> t.buf[..FRAME] == s.buf[..FRAME];
    assert a.PutAppends? && a.i < |t.pending| && s.buf <= t.buf ==> s.buf <= t.buf + t.pending[a.i];
  }

  /** With too little in the buffer the consumer goes back to the top of its loop, and a closed FIFO ends it there. */
  lemma NoFrameYet(s: State)
    requires s.consumer == AtLoop
    ensures s.running && |s.buf| < 320 ==> ConsumerStep(ConsumerStep(ConsumerStep(s))) == s
    ensures !s.running ==> ConsumerStep(s) == s.(consumer := Finished)
    ensures !s.running ==> ConsumerStep(ConsumerStep(s)) == ConsumerStep(s)
  {
  }
}
