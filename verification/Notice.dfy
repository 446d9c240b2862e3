/** The bouncing notice of the two modes without a connection, whose position outlives the choice of bitmap. */
module BouncingNotice {
  import opened Rows
  import opened Framebuffer

  // --- The screen ---

  datatype Screen = Screen(width: nat, height: nat, bytes: nat) {
    function Size(): nat {
      width * height * bytes
    }

    predicate Holds(fb: array<Byte>) {
      bytes >= 1 && fb.Length == Size()
    }

    /** A rectangle whose clearing stays inside the frame buffer: with one byte a pixel it must not reach the
        last pixel, since the last store is two bytes wide. */
    predicate Clears(w: nat, h: nat, x: nat, y: nat) {
      bytes >= 2 || w == 0 || h == 0 || x + w < width || y + h < height
    }
  }

  datatype Picture = Picture(pixels: array<Byte>, width: nat, height: nat) {
    predicate On(s: Screen) {
      width <= s.width && height <= s.height && pixels.Length == height * width * s.bytes
    }
  }

  /** A rectangle on the screen meets what displaying asks for, and what filling asks for exactly if its
      clearing stays inside. */
  lemma FitsDraws(s: Screen, width: nat, height: nat, x: nat, y: nat)
    requires s.bytes >= 1 && x + width <= s.width && y + height <= s.height
    ensures FillFits(s.Size(), LineStart(s.width, s.bytes, x, y), s.width * s.bytes, s.bytes, width, height)
            <==> s.Clears(width, height, x, y)
    ensures (y + height) * s.width * s.bytes <= s.Size()
    ensures DrawnFits(s.Size(), LineStart(s.width, s.bytes, x, y), s.width * s.bytes, height * width * s.bytes,
                      width * s.bytes, height)
  {
    hide FillFits, LineStart, DrawnFits;
    FillFitsIff(s.width, s.height, s.bytes, width, height, x, y);
    MulLe(y + height, s.height, s.width);
    MulLe((y + height) * s.width, s.height * s.width, s.bytes);
    assert s.height * s.width == s.width * s.height;
    DisplayFits(s.Size(), s.width, s.bytes, width, height, x, y);
    RowStartIsProduct(height, width * s.bytes);
    Assoc(height, width, s.bytes);
  }

  /** The frame buffer after clearing the rectangle at one position and drawing the image at the next. */
  function Redrawn(fb: seq<Byte>, s: Screen, image: seq<Byte>, width: nat, height: nat, color: seq<Byte>,
                   from: (nat, nat), to: (nat, nat)): (r: seq<Byte>)
    requires s.bytes >= 1 && |fb| == s.Size() && |image| == height * width * s.bytes && |color| == 2
    requires from.0 + width <= s.width && from.1 + height <= s.height && s.Clears(width, height, from.0, from.1)
    requires to.0 + width <= s.width && to.1 + height <= s.height
    ensures |r| == |fb|
  {
    FitsDraws(s, width, height, from.0, from.1);
    FitsDraws(s, width, height, to.0, to.1);
    var stride := s.width * s.bytes;
    var cleared := Filled(fb, LineStart(s.width, s.bytes, from.0, from.1), stride, s.bytes, color, width, height);
    Drawn(cleared, LineStart(s.width, s.bytes, to.0, to.1), stride, image, width * s.bytes, height)
  }

  // --- The moving notice ---

  /** Position and speed along one axis. */
  datatype Axis = Axis(pos: int, speed: int)

  /** One move, reflected at 0 and at `limit`, the screen size less the bitmap's. */
  function Moved(a: Axis, limit: int): Axis {
    var b := Axis(a.pos + a.speed, a.speed);
    var c := if b.pos < 0 then Axis(-b.pos, -b.speed) else b;
    if c.pos > limit then Axis(limit, -c.speed) else c
  }

  /** A move that would leave the room turns the notice round, at the near edge by as much as it went over and at the
      far edge on the spot; otherwise it goes on. The speed only ever changes its sign. */
  lemma MovedTurns(a: Axis, limit: int)
    requires 0 <= a.pos <= limit && -limit <= a.speed <= limit
    ensures var b := Moved(a, limit);
            0 <= b.pos <= limit
            && if a.pos + a.speed > limit then b == Axis(limit, -a.speed)
               else if a.pos + a.speed < 0 then b == Axis(-a.pos - a.speed, -a.speed)
               else b == Axis(a.pos + a.speed, a.speed)
  {
  }

  /** Hence it comes away again from the far edge at once. */
  lemma LeavesFarEdge(a: Axis, limit: int)
    requires 0 <= a.pos <= limit && 0 < a.speed <= limit && a.pos + a.speed > limit
    ensures Moved(Moved(a, limit), limit) == Axis(limit - a.speed, -a.speed)
  {
  }

  /** The notice's position and speed, shared by both bitmaps. */
  class Notice {
    var posX: int
    var posY: int
    var speedX: int
    var speedY: int

    constructor ()
      ensures Axis(posX, speedX) == Axis(0, 5) && Axis(posY, speedY) == Axis(3, 7)
    {
      posX, posY, speedX, speedY := 0, 3, 5, 7;
    }

    method Bounce(roomX: int, roomY: int)
      modifies this
      ensures Axis(posX, speedX) == Moved(old(Axis(posX, speedX)), roomX)
      ensures Axis(posY, speedY) == Moved(old(Axis(posY, speedY)), roomY)
    {
      posX := posX + speedX;
      posY := posY + speedY;
      if posX < 0 {
        speedX := -speedX;
        posX := -posX;
      }
      if posY < 0 {
        speedY := -speedY;
        posY := -posY;
      }
      if posX > roomX {
        speedX := -speedX;
        posX := roomX;
      }
      if posY > roomY {
        speedY := -speedY;
        posY := roomY;
      }
    }

    /** One tick: clear, move, draw. */
    method Tick(fb: array<Byte>, s: Screen, p: Picture, color: seq<Byte>)
      requires s.Holds(fb) && p.On(s) && fb != p.pixels && |color| == 2
      requires Stays(Axis(posX, speedX), s.width - p.width) && Stays(Axis(posY, speedY), s.height - p.height)
      requires s.Clears(p.width, p.height, posX, posY)
      modifies this, fb
      ensures Axis(posX, speedX) == Moved(old(Axis(posX, speedX)), s.width - p.width)
      ensures Axis(posY, speedY) == Moved(old(Axis(posY, speedY)), s.height - p.height)
      ensures fb[..] == Redrawn(old(fb[..]), s, p.pixels[..], p.width, p.height, color,
                                (old(posX), old(posY)), (posX, posY))
    {
      hide Filled, Drawn, FillFits, DrawnFits, LineStart, Moved;
      FitsDraws(s, p.width, p.height, posX, posY);
      FillRect(fb, s.width, s.bytes, p.width, p.height, posX, posY, color);
      Bounce(s.width - p.width, s.height - p.height);
      FitsDraws(s, p.width, p.height, posX, posY);
      DisplayBmp(fb, s.width, s.bytes, p.pixels, p.width, p.height, posX, posY);
    }

    /** Any run of ticks with either bitmap, from the client's start: whenever the notice is safe, every fill
        and every draw is within what the frame buffer allows, given on a one-byte screen that no clearing
        reaches the last pixel. */
    method Run(fb: array<Byte>, s: Screen, first: Picture, second: Picture, color: seq<Byte>, run: seq<bool>)
      requires Axis(posX, speedX) == Axis(0, 5) && Axis(posY, speedY) == Axis(3, 7)
      requires s.Holds(fb) && first.On(s) && second.On(s) && fb != first.pixels && fb != second.pixels && |color| == 2
      requires NoticeSafe(RoomX(s, first, second), RoomY(s, first, second))
      requires forall n :: 0 <= n < |run| ==> ClearsAt(s, first, second, run, n)
      modifies this, fb
      ensures Axis(posX, speedX) == After(Axis(0, 5), RoomX(s, first, second), run)
      ensures Axis(posY, speedY) == After(Axis(3, 7), RoomY(s, first, second), run)
    {
      ghost var roomX, roomY := RoomX(s, first, second), RoomY(s, first, second);
      hide Moved, Redrawn;
      var n := 0;
      while n < |run|
        invariant n <= |run|
        invariant Axis(posX, speedX) == After(Axis(0, 5), roomX, run[..n])
        invariant Axis(posY, speedY) == After(Axis(3, 7), roomY, run[..n])
      {
        assert NoticeInBounds(roomX, roomY, run, n) && ClearsAt(s, first, second, run, n);
        AfterNext(Axis(0, 5), roomX, run, n);
        AfterNext(Axis(3, 7), roomY, run, n);
        Tick(fb, s, if run[n] then first else second, color);
        n := n + 1;
      }
      assert run[..n] == run;
    }
  }

  /** The room each bitmap leaves. */
  function RoomX(s: Screen, first: Picture, second: Picture): (int, int) {
    (s.width - first.width, s.width - second.width)
  }

  function RoomY(s: Screen, first: Picture, second: Picture): (int, int) {
    (s.height - first.height, s.height - second.height)
  }

  /** Tick `n` clears a rectangle that stays inside the frame buffer. */
  predicate ClearsAt(s: Screen, first: Picture, second: Picture, run: seq<bool>, n: nat)
    requires n < |run|
  {
    var p := if run[n] then first else second;
    var x := After(Axis(0, 5), RoomX(s, first, second), run[..n]);
    var y := After(Axis(3, 7), RoomY(s, first, second), run[..n]);
    x.pos >= 0 && y.pos >= 0 && s.Clears(p.width, p.height, x.pos, y.pos)
  }

  /** With two bytes a pixel every tick of a safe notice does. */
  lemma WideClears(s: Screen, first: Picture, second: Picture, run: seq<bool>, n: nat)
    requires s.bytes >= 2 && n < |run| && NoticeSafe(RoomX(s, first, second), RoomY(s, first, second))
    ensures ClearsAt(s, first, second, run, n)
  {
    hide After, RoomX, RoomY;
    assert NoticeInBounds(RoomX(s, first, second), RoomY(s, first, second), run, n);
  }

  lemma AfterNext(start: Axis, limits: (int, int), run: seq<bool>, n: nat)
    requires n < |run|
    ensures After(start, limits, run[..n + 1]) == Moved(After(start, limits, run[..n]), Limit(limits, run[n]))
  {
    assert run[..n + 1][..n] == run[..n];
  }

  /** The bitmap fits at this position. */
  predicate Fits(a: Axis, limit: int) {
    0 <= a.pos <= limit
  }

  /** It fits, and still does after one move. */
  predicate Stays(a: Axis, limit: int) {
    Fits(a, limit) && Fits(Moved(a, limit), limit)
  }

  /** The position is kept when the other bitmap takes over; `run` says which limit each tick uses. */
  function After(start: Axis, limits: (int, int), run: seq<bool>): Axis {
    if run == [] then start
    else Moved(After(start, limits, run[..|run| - 1]), Limit(limits, run[|run| - 1]))
  }

  function Limit(limits: (int, int), first: bool): int {
    if first then limits.0 else limits.1
  }

  /** Each tick first clears the bitmap's rectangle at the old position, then draws it at the new one. */
  predicate TickInBounds(start: Axis, limits: (int, int), run: seq<bool>, n: nat)
    requires n < |run|
  {
    var before, limit := After(start, limits, run[..n]), Limit(limits, run[n]);
    Stays(before, limit)
  }

  ghost predicate AxisSafe(start: Axis, limits: (int, int)) {
    forall run: seq<bool>, n: nat :: n < |run| ==> TickInBounds(start, limits, run, n)
  }

  /** Over every sequence of ticks all drawing stays on the screen exactly when the two bitmaps leave the
      same room and the start position fits: otherwise the first clearing after a change of bitmap can
      reach past the edge. */
  lemma BounceInBoundsIff(start: Axis, limits: (int, int))
    requires 0 <= start.pos && 0 < start.speed && 0 <= limits.0 && 0 <= limits.1
    ensures AxisSafe(start, limits) <==> limits.0 == limits.1 && start.pos <= limits.0
  {
    if limits.0 == limits.1 && start.pos <= limits.0 {
      forall run: seq<bool>, n: nat | n < |run| ensures TickInBounds(start, limits, run, n) {
        StaysIn(start, limits, run[..n]);
      }
    } else if start.pos > limits.0 || start.pos > limits.1 {
      var run := [start.pos > limits.0];
      assert run[..0] == [];
      assert !TickInBounds(start, limits, run, 0);
    } else {
      var run, n := Overshoot(start, limits, limits.0 < limits.1);
      assert !TickInBounds(start, limits, run, n);
    }
  }

  /** A run that climbs under the bitmap with more room and then changes to the one with less. */
  lemma Overshoot(start: Axis, limits: (int, int), smallFirst: bool) returns (run: seq<bool>, n: nat)
    requires 0 <= start.pos <= Limit(limits, smallFirst) < Limit(limits, !smallFirst) && 0 < start.speed
    ensures n < |run| && !TickInBounds(start, limits, run, n)
  {
    var small := Limit(limits, smallFirst);
    n := (small - start.pos) / start.speed + 1;
    DivBounds(small - start.pos, start.speed);
    Climbs(start, limits, !smallFirst, n);
    var climb := seq(n, _ => !smallFirst);
    run := climb + [smallFirst];
    assert run[..n] == climb;
  }

  lemma DivBounds(a: nat, b: nat)
    requires b > 0
    ensures (a / b) * b <= a < (a / b + 1) * b
  {
    assert a == (a / b) * b + a % b;
    assert (a / b + 1) * b == (a / b) * b + b;
  }

  lemma {:induction false} StaysIn(start: Axis, limits: (int, int), run: seq<bool>)
    requires limits.0 == limits.1 && 0 <= start.pos <= limits.0
    ensures Fits(After(start, limits, run), limits.0)
    decreases |run|
  {
    if run != [] { StaysIn(start, limits, run[..|run| - 1]); }
  }

  /** Over every run between two equal rooms that are wide enough the notice keeps its pace. */
  lemma {:induction false} PaceKept(start: Axis, limits: (int, int), run: seq<bool>)
    requires limits.0 == limits.1 && 0 <= start.pos <= limits.0 && 0 < start.speed <= limits.0
    ensures var a := After(start, limits, run);
            0 <= a.pos <= limits.0 && (a.speed == start.speed || a.speed == -start.speed)
    decreases |run|
  {
    if run != [] {
      PaceKept(start, limits, run[..|run| - 1]);
      MovedTurns(After(start, limits, run[..|run| - 1]), limits.0);
    }
  }

  /** Under one bitmap alone the position first climbs steadily to its limit. */
  lemma {:induction false} Climbs(start: Axis, limits: (int, int), first: bool, n: nat)
    requires 0 <= start.pos && 0 < start.speed
    requires n > 0 ==> start.pos + (n - 1) * start.speed <= Limit(limits, first)
    ensures var a := After(start, limits, seq(n, _ => first));
            var free := start.pos + n * start.speed;
            a.pos == (if n > 0 && free > Limit(limits, first) then Limit(limits, first) else free)
            && (n == 0 || free <= Limit(limits, first) ==> a.speed == start.speed)
    decreases n
  {
    if n > 0 {
      assert seq(n, _ => first)[..n - 1] == seq(n - 1, _ => first);
      assert start.pos + (n - 1) * start.speed + start.speed == start.pos + n * start.speed;
      if n > 1 { assert start.pos + (n - 2) * start.speed <= start.pos + (n - 1) * start.speed; }
      Climbs(start, limits, first, n - 1);
    }
  }

  /** Both axes of the client's notice, which starts at column 0 and row 3 and moves by 5 and 7. */
  predicate NoticeInBounds(roomX: (int, int), roomY: (int, int), run: seq<bool>, n: nat)
    requires n < |run|
  {
    TickInBounds(Axis(0, 5), roomX, run, n) && TickInBounds(Axis(3, 7), roomY, run, n)
  }

  ghost predicate NoticeSafe(roomX: (int, int), roomY: (int, int)) {
    forall run: seq<bool>, n: nat :: n < |run| ==> NoticeInBounds(roomX, roomY, run, n)
  }

  /** For bitmaps no larger than the screen the notice is always drawn on the screen exactly when the two
      bitmaps have one size and leave three rows. */
  lemma NoticeInBoundsIff(screenW: nat, screenH: nat, w: (nat, nat), h: (nat, nat))
    requires w.0 <= screenW && w.1 <= screenW && h.0 <= screenH && h.1 <= screenH
    ensures NoticeSafe((screenW - w.0, screenW - w.1), (screenH - h.0, screenH - h.1))
            <==> w.0 == w.1 && h.0 == h.1 && h.0 + 3 <= screenH
  {
    hide AxisSafe, NoticeSafe;
    var roomX, roomY := (screenW - w.0, screenW - w.1), (screenH - h.0, screenH - h.1);
    BounceInBoundsIff(Axis(0, 5), roomX);
    BounceInBoundsIff(Axis(3, 7), roomY);
    NoticeSafeByAxis(roomX, roomY);
  }

  lemma NoticeSafeByAxis(roomX: (int, int), roomY: (int, int))
    ensures NoticeSafe(roomX, roomY) <==> AxisSafe(Axis(0, 5), roomX) && AxisSafe(Axis(3, 7), roomY)
  {
    hide TickInBounds;
    if NoticeSafe(roomX, roomY) {
      forall run: seq<bool>, n: nat | n < |run| ensures TickInBounds(Axis(0, 5), roomX, run, n) {
        assert NoticeInBounds(roomX, roomY, run, n);
      }
      forall run: seq<bool>, n: nat | n < |run| ensures TickInBounds(Axis(3, 7), roomY, run, n) {
        assert NoticeInBounds(roomX, roomY, run, n);
      }
    }
  }
}
