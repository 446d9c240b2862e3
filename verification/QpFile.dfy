/** The qpfile reader: for each frame it reads lines until it meets the frame's number, and rewinds when
    it has read one line too many. */
module QpFile {
  import opened Wrappers

  const TYPE_AUTO := 0
  const TYPE_IDR := 1
  const TYPE_I := 2
  const TYPE_P := 3
  const TYPE_BREF := 4
  const TYPE_B := 5
  const TYPE_KEYFRAME := 6
  const QP_AUTO := 0
  const QP_MAX := 81

  /** One line: frame number, type letter, and the QP if there is one. */
  datatype Line = Line(num: int, letter: char, qp: Option<int>)

  /** What the encoder is told about one picture. */
  datatype Choice = Choice(picType: int, qpplus1: int)

  const AUTO := Choice(TYPE_AUTO, QP_AUTO)

  function TypeOf(letter: char): Option<int> {
    match letter
    case 'I' => Some(TYPE_IDR)
    case 'i' => Some(TYPE_I)
    case 'K' => Some(TYPE_KEYFRAME)
    case 'P' => Some(TYPE_P)
    case 'B' => Some(TYPE_BREF)
    case 'b' => Some(TYPE_B)
    case _ => None
  }

  /** A line that is accepted when its frame comes. */
  predicate Valid(l: Line) {
    TypeOf(l.letter).Some? && (l.qp.Some? ==> -1 <= l.qp.value <= QP_MAX)
  }

  /** What a line asks for; a line that is not valid still sets what it can before it is rejected. */
  function Asked(l: Line): Choice {
    Choice(if TypeOf(l.letter).Some? then TypeOf(l.letter).value else TYPE_AUTO,
           if l.qp.Some? && l.qp.value >= 0 then l.qp.value + 1 else QP_AUTO)
  }

  /** Each letter's picture type, as the encoder numbers them: IDR, I, P, reference B, B and keyframe. */
  predicate HasType(letter: char, t: int) {
    (letter == 'I' && t == 1) || (letter == 'i' && t == 2) || (letter == 'P' && t == 3)
    || (letter == 'B' && t == 4) || (letter == 'b' && t == 5) || (letter == 'K' && t == 6)
  }

  /** The QP that the encoder uses, its field less one, is the line's; the field is 0, for automatic, exactly if
      the line gives none or -1. */
  predicate HasQp(qp: Option<int>, qpplus1: int) {
    if qp.Some? && qp.value >= 0 then qpplus1 - 1 == qp.value else qpplus1 == 0
  }

  /** The choice is what a line says. */
  predicate Grants(l: Line, c: Choice) {
    HasType(l.letter, c.picType) && HasQp(l.qp, c.qpplus1)
  }

  /** A line is accepted exactly if its letter is one of the six and its QP, if any, from -1 to 81; then it is
      granted what it says. A rejected letter leaves the type automatic. */
  lemma ValidIff(l: Line)
    ensures Valid(l) <==> l.letter in "IiPBbK" && (l.qp.Some? ==> -1 <= l.qp.value <= 81)
    ensures Valid(l) ==> Grants(l, Asked(l))
    ensures l.letter !in "IiPBbK" ==> Asked(l).picType == 0
    ensures HasQp(l.qp, Asked(l).qpplus1)
    ensures AUTO == Choice(0, 0)
  {
  }

  /** Different letters ask for different types, and a line grants one choice alone. */
  lemma GrantsOnce(l: Line, c: Choice, m: Line, d: Choice)
    requires Grants(l, c) && Grants(m, d)
    ensures c.picType == d.picType <==> l.letter == m.letter
    ensures l == m ==> c == d
  {
  }

  /** The first line at or after `pos` whose number is at least `frame`. */
  function FirstFrom(lines: seq<Line>, pos: nat, frame: int): (k: nat)
    requires pos <= |lines|
    ensures pos <= k <= |lines|
    ensures forall i :: pos <= i < k ==> lines[i].num < frame
    ensures k < |lines| ==> lines[k].num >= frame
    decreases |lines| - pos
  {
    if pos < |lines| && lines[pos].num < frame then FirstFrom(lines, pos + 1, frame) else pos
  }

  /** A line that is read when its frame comes: no earlier line has a number as large. */
  predicate Leads(lines: seq<Line>, k: nat)
    requires k < |lines|
  {
    forall i :: 0 <= i < k ==> lines[i].num < lines[k].num
  }

  /** The line a frame is given, if any. */
  function LineFor(lines: seq<Line>, frame: nat): (k: Option<nat>)
    ensures k.Some? ==> k.value < |lines|
  {
    var k := FirstFrom(lines, 0, frame);
    if k < |lines| && lines[k].num == frame then Some(k) else None
  }

  /** It is the one line with the frame's number that leads; in particular there is only one. */
  lemma LineForIff(lines: seq<Line>, frame: nat, k: nat)
    requires k < |lines|
    ensures LineFor(lines, frame) == Some(k) <==> lines[k].num == frame && Leads(lines, k)
  {
  }

  /** No frame before this one has met a line it had to reject. */
  ghost predicate OpenAt(lines: seq<Line>, seek: nat, frame: nat) {
    forall g: nat :: seek <= g < frame && LineFor(lines, g).Some? ==> Valid(lines[LineFor(lines, g).value])
  }

  /** What a frame should be given: the choice of its line, or nothing in particular. */
  ghost function Wanted(lines: seq<Line>, seek: nat, frame: nat): Choice {
    var k := LineFor(lines, frame);
    if OpenAt(lines, seek, frame) && k.Some? then Asked(lines[k.value]) else AUTO
  }

  /** Skipping lines with smaller numbers does not change which line comes first. */
  lemma FirstFromSkip(lines: seq<Line>, pos: nat, frame: int)
    requires pos <= |lines| && forall i :: 0 <= i < pos ==> lines[i].num < frame
    ensures FirstFrom(lines, pos, frame) == FirstFrom(lines, 0, frame)
  {
  }

  /** For a well-formed file, in strictly increasing order, the reader is a map lookup: a frame is granted what the
      line with its number says, or an automatic choice if there is no such line. */
  lemma WellFormedLookup(lines: seq<Line>, seek: nat, frame: nat)
    requires forall i, j :: 0 <= i < j < |lines| ==> lines[i].num < lines[j].num
    requires forall i :: 0 <= i < |lines| ==>
               lines[i].letter in "IiPBbK" && (lines[i].qp.Some? ==> -1 <= lines[i].qp.value <= 81)
    ensures forall k :: 0 <= k < |lines| && lines[k].num == frame ==> Grants(lines[k], Wanted(lines, seek, frame))
    ensures (forall k :: 0 <= k < |lines| ==> lines[k].num != frame) ==> Wanted(lines, seek, frame) == Choice(0, 0)
  {
    forall i | 0 <= i < |lines| ensures Valid(lines[i]) && Grants(lines[i], Asked(lines[i])) { ValidIff(lines[i]); }
    forall k | 0 <= k < |lines| && lines[k].num == frame ensures LineFor(lines, frame) == Some(k) {
      LineForIff(lines, frame, k);
    }
    hide Grants, Asked, Valid;
  }

  /** For any file: a frame whose line is accepted is granted what the line says, a frame without a line, or after
      one that was rejected, has an automatic choice, and a rejected line still sets its QP. */
  lemma WantedIs(lines: seq<Line>, seek: nat, frame: nat)
    ensures var k, c := LineFor(lines, frame), Wanted(lines, seek, frame);
            if k.None? || !OpenAt(lines, seek, frame) then c == Choice(0, 0)
            else HasQp(lines[k.value].qp, c.qpplus1)
                 && if lines[k.value].letter in "IiPBbK" then HasType(lines[k.value].letter, c.picType)
                    else c.picType == 0
  {
    var k := LineFor(lines, frame);
    if k.Some? { ValidIff(lines[k.value]); }
    hide OpenAt, LineFor;
  }

  /** The lines on disk, the file position, whether the file is still open, and lines read so far. */
  class Reader {
    const lines: seq<Line>
    var pos: nat
    var open: bool
    ghost var linesRead: nat

    constructor (lines: seq<Line>)
      ensures this.lines == lines && pos == 0 && open && linesRead == 0
    {
      this.lines := lines;
      pos, open, linesRead := 0, true, 0;
    }

    /** `parse_qpfile` for one frame, on an open file. */
    method Parse(frame: nat) returns (c: Choice)
      requires open && pos <= |lines|
      modifies this
      ensures pos <= |lines|
      ensures var k := FirstFrom(lines, old(pos), frame);
              if k < |lines| && lines[k].num == frame then
                pos == k + 1 && c == Asked(lines[k]) && open == Valid(lines[k])
                && linesRead == old(linesRead) + (pos - old(pos))
                && HasQp(lines[k].qp, c.qpplus1) && (Valid(lines[k]) ==> Grants(lines[k], c))
              else
                pos == k && c == AUTO && open && linesRead == old(linesRead) + (pos - old(pos)) + 1
    {
      var num := -1;
      c := AUTO;
      while num < frame
        invariant old(pos) <= pos <= |lines| && open && num < frame
        invariant forall i :: old(pos) <= i < pos ==> lines[i].num < frame
        invariant linesRead == old(linesRead) + (pos - old(pos)) && c == AUTO
        decreases |lines| - pos
      {
        var filePos := pos;
        linesRead := linesRead + 1;
        if pos == |lines| {
          FirstIs(lines, old(pos), frame, pos);
          return AUTO;
        }
        var line := lines[pos];
        pos := pos + 1;
        num := line.num;
        if num > frame {
          pos := filePos;
          FirstIs(lines, old(pos), frame, pos);
          return AUTO;
        }
        if num < frame {
          continue;
        }
        FirstIs(lines, old(pos), frame, filePos);
        var qp := if line.qp.Some? then line.qp.value else -1;
        if line.qp.Some? && qp >= 0 {
          c := c.(qpplus1 := qp + 1);
        }
        var t := TypeOf(line.letter);
        if t.Some? {
          c := c.(picType := t.value);
        }
        if t.None? || qp < -1 || qp > QP_MAX {
          open := false;
        }
        return;
      }
    }

    /** Where the reader stands before `frame`: still open unless a line was rejected, and past nothing
        that this or a later frame needs. */
    ghost predicate Before(seek: nat, frame: nat)
      reads this
    {
      pos <= |lines| && open == OpenAt(lines, seek, frame)
      && (open ==> forall i :: 0 <= i < pos ==> lines[i].num < frame)
    }

    /** One frame; a file that has been given up is not read any more. */
    method ParseIfOpen(seek: nat, frame: nat) returns (c: Choice)
      requires seek <= frame && Before(seek, frame)
      modifies this
      ensures Before(seek, frame + 1)
      ensures c == Wanted(lines, seek, frame)
      ensures pos >= old(pos) && linesRead <= old(linesRead) + (pos - old(pos)) + 1
    {
      c := AUTO;
      OpenNext(lines, seek, frame);
      hide OpenAt;
      if open {
        FirstFromSkip(lines, pos, frame);
        c := Parse(frame);
      }
    }

    /** The encoder's loop over frames `seek`, `seek` + 1, and so on. */
    method ParseFrames(seek: nat, count: nat) returns (choices: seq<Choice>)
      requires open && pos == 0 && linesRead == 0
      modifies this
      ensures |choices| == count
      ensures forall n :: 0 <= n < count ==> choices[n] == Wanted(lines, seek, seek + n)
      ensures forall n, k :: 0 <= n < count && 0 <= k < |lines| && Reaches(lines, seek, seek + n, k) ==>
                Grants(lines[k], choices[n])
      ensures linesRead <= |lines| + count
    {
      choices := [];
      hide Wanted;
      var n := 0;
      while n < count
        invariant n <= count && |choices| == n && Before(seek, seek + n)
        invariant forall m :: 0 <= m < n ==> choices[m] == Wanted(lines, seek, seek + m)
        invariant linesRead <= pos + n
      {
        var c := ParseIfOpen(seek, seek + n);
        choices := choices + [c];
        n := n + 1;
      }
      forall m, k | 0 <= m < count && 0 <= k < |lines| && Reaches(lines, seek, seek + m, k)
        ensures Grants(lines[k], choices[m])
      {
        WantedGrants(lines, seek, seek + m, k);
      }
    }
  }

  /** The frame's line is this one; it is accepted, and no earlier one was rejected. */
  ghost predicate Reaches(lines: seq<Line>, seek: nat, frame: nat, k: nat)
    requires k < |lines|
  {
    LineFor(lines, frame) == Some(k) && OpenAt(lines, seek, frame) && Valid(lines[k])
  }

  lemma WantedGrants(lines: seq<Line>, seek: nat, frame: nat, k: nat)
    requires k < |lines| && Reaches(lines, seek, frame, k)
    ensures Grants(lines[k], Wanted(lines, seek, frame))
  {
    hide OpenAt, LineFor;
    ValidIff(lines[k]);
  }

  lemma OpenNext(lines: seq<Line>, seek: nat, frame: nat)
    requires seek <= frame
    ensures OpenAt(lines, seek, frame + 1) <==>
              OpenAt(lines, seek, frame)
              && (LineFor(lines, frame).Some? ==> Valid(lines[LineFor(lines, frame).value]))
  {
  }

  lemma FirstIs(lines: seq<Line>, pos: nat, frame: int, k: nat)
    requires pos <= k <= |lines|
    requires forall i :: pos <= i < k ==> lines[i].num < frame
    requires k < |lines| ==> lines[k].num >= frame
    ensures FirstFrom(lines, pos, frame) == k
  {
  }
}
