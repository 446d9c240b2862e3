/** The timestamps that the command-line encoder gives its pictures: the correction that keeps them
    strictly increasing, and the accumulator of soft pulldown. */
module Pts {

  // --- Correction ---

  function Max(a: int, b: int): int {
    if a > b then a else b
  }

  /** The pts a proposal becomes after `largest`. */
  function Corrected(proposal: int, largest: int, ticks: int): int {
    if proposal <= largest then largest + ticks else proposal
  }

  /** A timestamp is the one proposed, or, if that is not above the last, one frame's ticks above the last, at
      least one. */
  predicate Follows(pts: seq<int>, proposals: seq<int>, ticksPerFrame: int, n: nat)
    requires n < |pts| <= |proposals|
  {
    var last := if n == 0 then -1 else pts[n - 1];
    pts[n] == if proposals[n] > last then proposals[n] else if ticksPerFrame < 1 then last + 1 else last + ticksPerFrame
  }

  /** The pts of picture `n`, for any proposals. */
  function PtsOf(proposals: seq<int>, ticks: int, n: nat): int
    requires n < |proposals|
  {
    Corrected(proposals[n], if n == 0 then -1 else PtsOf(proposals, ticks, n - 1), ticks)
  }

  /** The encoding loop as far as it concerns timestamps. `ticksPerFrame` is the raw quotient, which a
      variable frame rate input may make zero. */
  method Timestamps(proposals: seq<int>, ticksPerFrame: int)
    returns (pts: seq<int>, largest: int, secondLargest: int)
    ensures |pts| == |proposals|
    ensures forall n :: 0 <= n < |pts| ==> pts[n] >= 0
    ensures forall m, n :: 0 <= m < n < |pts| ==> pts[m] < pts[n]
    ensures forall n :: 0 <= n < |pts| ==> pts[n] == PtsOf(proposals, Max(ticksPerFrame, 1), n)
    ensures forall n :: 0 <= n < |pts| ==> Follows(pts, proposals, ticksPerFrame, n)
    ensures largest == (if |pts| == 0 then -1 else pts[|pts| - 1])
    ensures secondLargest == (if |pts| <= 1 then -1 else pts[|pts| - 2])
  {
    hide PtsOf;
    var ticks := if ticksPerFrame < 1 then 1 else ticksPerFrame;
    pts, largest, secondLargest := [], -1, -1;
    var n := 0;
    while n < |proposals|
      invariant n <= |proposals| && |pts| == n
      invariant forall m :: 0 <= m < n ==> pts[m] == PtsOf(proposals, ticks, m)
      invariant forall m :: 0 <= m < n ==> Follows(pts, proposals, ticksPerFrame, m)
      invariant largest == if n == 0 then -1 else pts[n - 1]
      invariant secondLargest == if n <= 1 then -1 else pts[n - 2]
    {
      PtsStep(proposals, ticks, n);
      var p := proposals[n];
      if p <= largest {
        p := largest + ticks;
      }
      secondLargest := largest;
      largest := p;
      ghost var was := pts;
      pts := pts + [p];
      assert forall m :: 0 <= m < n ==> pts[m] == was[m] && Follows(was, proposals, ticksPerFrame, m);
      n := n + 1;
    }
    forall m | 0 <= m < |pts| ensures pts[m] >= 0 { PtsNonNegative(proposals, ticks, m); }
    forall k, m | 0 <= k < m < |pts| ensures pts[k] < pts[m] { PtsIncreases(proposals, ticks, k, m); }
  }

  /** Whatever is proposed, the timestamps are non-negative and strictly increasing. */
  lemma {:induction false} PtsNonNegative(proposals: seq<int>, ticks: int, n: nat)
    requires n < |proposals| && ticks >= 1
    ensures PtsOf(proposals, ticks, n) >= 0
    decreases n
  {
    if n > 0 { PtsNonNegative(proposals, ticks, n - 1); }
  }

  lemma {:induction false} PtsIncreases(proposals: seq<int>, ticks: int, m: nat, n: nat)
    requires m < n < |proposals| && ticks >= 1
    ensures PtsOf(proposals, ticks, m) < PtsOf(proposals, ticks, n)
    decreases n
  {
    if m < n - 1 { PtsIncreases(proposals, ticks, m, n - 1); }
  }

  lemma PtsStep(proposals: seq<int>, ticks: int, n: nat)
    requires n < |proposals|
    ensures PtsOf(proposals, ticks, n)
            == Corrected(proposals[n], if n == 0 then -1 else PtsOf(proposals, ticks, n - 1), ticks)
  {
  }

  /** The proposal is above the one before it; the first must not be negative. */
  predicate Rises(proposals: seq<int>, n: nat)
    requires n < |proposals|
  {
    proposals[n] > if n == 0 then -1 else proposals[n - 1]
  }

  /** The correction never fires exactly when the proposals are non-negative and strictly increasing. */
  lemma UncorrectedIff(proposals: seq<int>, ticks: int)
    requires ticks >= 1
    ensures (forall n :: 0 <= n < |proposals| ==> PtsOf(proposals, ticks, n) == proposals[n])
            <==> (forall n :: 0 <= n < |proposals| ==> Rises(proposals, n))
  {
    if forall n :: 0 <= n < |proposals| ==> Rises(proposals, n) {
      forall n | 0 <= n < |proposals| ensures PtsOf(proposals, ticks, n) == proposals[n] {
        UncorrectedUpTo(proposals, ticks, n);
      }
    } else {
      var n :| 0 <= n < |proposals| && !Rises(proposals, n);
      assert n > 0 && PtsOf(proposals, ticks, n - 1) == proposals[n - 1] ==> PtsOf(proposals, ticks, n) != proposals[n];
    }
  }

  lemma {:induction false} UncorrectedUpTo(proposals: seq<int>, ticks: int, n: nat)
    requires n < |proposals|
    requires forall m :: 0 <= m < |proposals| ==> Rises(proposals, m)
    ensures PtsOf(proposals, ticks, n) == proposals[n]
    decreases n
  {
    assert Rises(proposals, n);
    if n > 0 { UncorrectedUpTo(proposals, ticks, n - 1); }
  }

  // --- Pulldown ---

  datatype PicStruct =
    | AUTO | PROGRESSIVE | TOP | BOTTOM | TOP_BOTTOM | BOTTOM_TOP
    | TOP_BOTTOM_TOP | BOTTOM_TOP_BOTTOM | DOUBLE | TRIPLE

  /** How long a picture is shown, in frames. */
  function Duration(p: PicStruct): real {
    match p
    case AUTO => 0.0
    case PROGRESSIVE => 1.0
    case TOP => 0.5
    case BOTTOM => 0.5
    case TOP_BOTTOM => 1.0
    case BOTTOM_TOP => 1.0
    case TOP_BOTTOM_TOP => 1.5
    case BOTTOM_TOP_BOTTOM => 1.5
    case DOUBLE => 2.0
    case TRIPLE => 3.0
  }

  /** The fields shown by a picture structure; a frame is two fields, a doubled or tripled frame is
      shown whole. */
  function Fields(p: PicStruct): nat {
    match p
    case AUTO => 0
    case PROGRESSIVE => 2
    case TOP => 1
    case BOTTOM => 1
    case TOP_BOTTOM => 2
    case BOTTOM_TOP => 2
    case TOP_BOTTOM_TOP => 3
    case BOTTOM_TOP_BOTTOM => 3
    case DOUBLE => 4
    case TRIPLE => 6
  }

  datatype Mode = P22 | P32 | P64 | PDOUBLE | PTRIPLE | PEURO

  /** The length of a mode's repeating pattern. */
  function Mod(m: Mode): (mod: nat)
    ensures mod > 0
  {
    match m
    case P22 => 1
    case P32 => 4
    case P64 => 2
    case PDOUBLE => 1
    case PTRIPLE => 1
    case PEURO => 24
  }

  /** The pattern's entry at index `r`. */
  function Pattern(m: Mode, r: nat): PicStruct
    requires r < Mod(m)
  {
    match m
    case P22 => TOP_BOTTOM
    case P32 => if r == 0 then TOP_BOTTOM_TOP else if r == 1 then BOTTOM_TOP
                else if r == 2 then BOTTOM_TOP_BOTTOM else TOP_BOTTOM
    case P64 => if r == 0 then DOUBLE else TRIPLE
    case PDOUBLE => DOUBLE
    case PTRIPLE => TRIPLE
    case PEURO => if r == 0 then TOP_BOTTOM_TOP else if r < 12 then BOTTOM_TOP
                  else if r == 12 then BOTTOM_TOP_BOTTOM else TOP_BOTTOM
  }

  function Factor(m: Mode): real {
    match m
    case P22 => 1.0
    case P32 => 1.25
    case P64 => 1.0
    case PDOUBLE => 2.0
    case PTRIPLE => 3.0
    case PEURO => 25.0 / 24.0
  }

  function StructAt(m: Mode, n: nat): PicStruct {
    Pattern(m, n % Mod(m))
  }

  /** The accumulator before picture `n`. */
  function Accumulated(m: Mode, n: nat): real {
    if n == 0 then 0.0 else Accumulated(m, n - 1) + Duration(StructAt(m, n - 1))
  }

  /** The cast of pulldown_pts + 0.5. */
  function Rounded(x: real): int {
    (x + 0.5).Floor
  }

  /** The pulldown branch of the loop, which proposes the timestamps. */
  method PulldownProposals(m: Mode, count: nat) returns (proposals: seq<int>)
    ensures |proposals| == count
    ensures forall n :: 0 <= n < count ==> proposals[n] == Rounded(Accumulated(m, n))
    ensures forall n :: 0 <= n < count ==> -0.5 < proposals[n] as real - Accumulated(m, n) <= 0.5
  {
    hide StructAt, Duration;
    proposals := [];
    var pulldownPts := 0.0;
    var n := 0;
    while n < count
      invariant n <= count && |proposals| == n && pulldownPts == Accumulated(m, n)
      invariant forall k :: 0 <= k < n ==> proposals[k] == Rounded(Accumulated(m, k))
    {
      var picStruct := StructAt(m, n);
      proposals := proposals + [(pulldownPts + 0.5).Floor];
      pulldownPts := pulldownPts + Duration(picStruct);
      n := n + 1;
    }
  }

  lemma StructDuration(m: Mode, n: nat)
    ensures Duration(StructAt(m, n)) >= 1.0
  {
  }

  /** In every pulldown mode the correction never fires. */
  lemma PulldownUncorrected(m: Mode, proposals: seq<int>, ticks: int)
    requires ticks >= 1
    requires forall n :: 0 <= n < |proposals| ==> proposals[n] == Rounded(Accumulated(m, n))
    ensures forall n :: 0 <= n < |proposals| ==> PtsOf(proposals, ticks, n) == proposals[n]
  {
    forall n | 0 <= n < |proposals| ensures Rises(proposals, n) {
      if n > 0 { StructDuration(m, n - 1); }
    }
    UncorrectedIff(proposals, ticks);
  }

  /** A period of the pattern adds its whole length times the factor, and within a period the
      accumulator strays from the steady rate by at most half a frame. */
  predicate Steady(m: Mode) {
    m != P64
  }

  function Drift(m: Mode, n: nat): real {
    Accumulated(m, n) - n as real * Factor(m)
  }

  /** Drift from a period's start, for each position in the period. */
  function DriftAt(m: Mode, r: nat): real {
    match m
    case P22 => 0.0
    case P32 => if r == 1 || r == 3 then 0.25 else 0.0
    case P64 => 0.0
    case PDOUBLE => 0.0
    case PTRIPLE => 0.0
    case PEURO => if r == 0 then 0.0
                  else if r <= 12 then 0.5 - r as real / 24.0
                  else 1.0 - r as real / 24.0
  }

  lemma {:induction false} DriftIsPeriodic(m: Mode, n: nat)
    requires Steady(m)
    ensures Drift(m, n) == DriftAt(m, n % Mod(m))
    decreases n
  {
    if n == 0 {
      assert DriftAt(m, 0) == 0.0 && 0 % Mod(m) == 0;
    } else {
      hide Factor, DriftAt, StructAt, Duration, Mod;
      DriftIsPeriodic(m, n - 1);
      DriftStep(m, n - 1);
      OneMore(n - 1, Factor(m));
    }
  }

  lemma OneMore(n: nat, f: real)
    ensures (n + 1) as real * f == n as real * f + f
  {
  }

  lemma DriftStep(m: Mode, n: nat)
    requires Steady(m)
    ensures DriftAt(m, (n + 1) % Mod(m))
            == DriftAt(m, n % Mod(m)) + Duration(StructAt(m, n)) - Factor(m)
  {
    var r := n % Mod(m);
    ModStep(m, n);
    hide StructAt;
    assert StructAt(m, n) == Pattern(m, r) by { PatternOf(m, n); }
    assert (n + 1) % Mod(m) == if r + 1 == Mod(m) then 0 else r + 1;
  }

  lemma PatternOf(m: Mode, n: nat)
    ensures StructAt(m, n) == Pattern(m, n % Mod(m))
  {
  }

  lemma ModStep(m: Mode, n: nat)
    ensures (n + 1) % Mod(m) == if n % Mod(m) + 1 == Mod(m) then 0 else n % Mod(m) + 1
  {
    NextOf4(n);
    NextOf2(n);
    NextOf24(n);
  }

  lemma NextOf2(n: nat)
    ensures (n + 1) % 2 == if n % 2 == 1 then 0 else n % 2 + 1
  {
  }

  lemma NextOf4(n: nat)
    ensures (n + 1) % 4 == if n % 4 == 3 then 0 else n % 4 + 1
  {
  }

  lemma NextOf24(n: nat)
    ensures (n + 1) % 24 == if n % 24 == 23 then 0 else n % 24 + 1
  {
  }

  /** In the steady modes the accumulator is exact at every multiple of the pattern's length, and the
      timestamps stay within one tick of the steady rate throughout. */
  lemma PulldownRate(m: Mode, n: nat)
    requires Steady(m)
    ensures n % Mod(m) == 0 ==> Accumulated(m, n) == n as real * Factor(m)
    ensures -1.0 < Rounded(Accumulated(m, n)) as real - n as real * Factor(m) <= 1.0
  {
    DriftIsPeriodic(m, n);
    var r := n % Mod(m);
    assert 0.0 <= DriftAt(m, r) <= 0.5;
  }

  /** Mode 64 alternates double and triple frames, two and a half on average, at a factor of 1: its
      timestamps run ahead without bound. */
  lemma {:induction false} SixFourRunsAhead(n: nat)
    ensures Accumulated(P64, 2 * n) == 5.0 * n as real
    ensures Accumulated(P64, 2 * n + 1) == 5.0 * n as real + 2.0
    ensures Drift(P64, 2 * n) == 3.0 * n as real
    decreases n
  {
    assert StructAt(P64, 2 * n) == DOUBLE;
    if n > 0 {
      SixFourRunsAhead(n - 1);
      assert StructAt(P64, 2 * n - 1) == TRIPLE && StructAt(P64, 2 * n - 2) == DOUBLE;
    }
  }

  // --- Fields ---

  datatype Parity = Top | Bottom

  /** The fields of a field picture, in the order shown. */
  function Shown(p: PicStruct): seq<Parity> {
    match p
    case TOP => [Top]
    case BOTTOM => [Bottom]
    case TOP_BOTTOM => [Top, Bottom]
    case BOTTOM_TOP => [Bottom, Top]
    case TOP_BOTTOM_TOP => [Top, Bottom, Top]
    case BOTTOM_TOP_BOTTOM => [Bottom, Top, Bottom]
    case _ => []
  }

  function AllShown(m: Mode, n: nat): seq<Parity> {
    if n == 0 then [] else AllShown(m, n - 1) + Shown(StructAt(m, n - 1))
  }

  /** In the modes that repeat fields, top and bottom fields alternate without a break over all pictures, and
      there are two of them for each frame's time. */
  lemma {:induction false} FieldsAlternate(m: Mode, n: nat)
    requires m == P22 || m == P32 || m == PEURO
    ensures forall k :: 0 <= k < |AllShown(m, n)| ==> AllShown(m, n)[k] == if k % 2 == 0 then Top else Bottom
    ensures |AllShown(m, n)| as real == 2.0 * Accumulated(m, n)
    ensures |AllShown(m, n)| % 2 == if OddAt(m, n % Mod(m)) then 1 else 0
    decreases n
  {
    if n > 0 {
      hide Mod, StructAt;
      FieldsAlternate(m, n - 1);
      NextPicture(m, n - 1, |AllShown(m, n - 1)|);
    }
  }

  /** The positions in a pattern at which an odd number of fields has been shown. */
  predicate OddAt(m: Mode, r: nat) {
    (m == P32 && 1 <= r <= 2) || (m == PEURO && 1 <= r <= 12)
  }

  lemma NextPicture(m: Mode, n: nat, before: nat)
    requires m == P22 || m == P32 || m == PEURO
    requires before % 2 == if OddAt(m, n % Mod(m)) then 1 else 0
    ensures var p := StructAt(m, n);
            |Shown(p)| as real == 2.0 * Duration(p)
            && (forall k :: 0 <= k < |Shown(p)| ==> Shown(p)[k] == if (before + k) % 2 == 0 then Top else Bottom)
            && (before + |Shown(p)|) % 2 == if OddAt(m, (n + 1) % Mod(m)) then 1 else 0
  {
    ModStep(m, n);
    PatternOf(m, n);
    hide StructAt;
  }

  /** Durations are half a frame per field. */
  lemma DurationIsFields(p: PicStruct)
    ensures Duration(p) == Fields(p) as real / 2.0
  {
  }
}
