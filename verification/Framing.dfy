/** Commands on the wire: what the client writes for each command and what the server's line reader and
    printable-character filter make of the byte stream. */
module Framing {

  /** The bytes of one send: letter, newline and a NUL, but only letter and newline for a ping. */
  function Encode(cmd: char): string {
    if cmd == 'p' then [cmd, '\n'] else [cmd, '\n', '\0']
  }

  function EncodeAll(cmds: seq<char>): string {
    if cmds == [] then "" else EncodeAll(cmds[..|cmds| - 1]) + Encode(cmds[|cmds| - 1])
  }

  /** `string.printable` without newline and carriage return. */
  predicate Printable(c: char) {
    ' ' <= c <= '~' || c == '\t' || c as int == 11 || c as int == 12
  }

  function Filter(line: string): string {
    if line == "" then "" else (if Printable(line[0]) then [line[0]] else "") + Filter(line[1..])
  }

  /** What the reader has made of a stream: the filtered complete lines, and the incomplete one. */
  datatype Reader = Reader(lines: seq<string>, partial: string)

  function Feed(r: Reader, c: char): Reader {
    if c == '\n' then Reader(r.lines + [Filter(r.partial + [c])], "") else r.(partial := r.partial + [c])
  }

  function Read(r: Reader, stream: string): Reader
    decreases |stream|
  {
    if stream == "" then r else Read(Feed(r, stream[0]), stream[1..])
  }

  const FRESH := Reader([], "")

  /** However the stream is cut into pieces, the reader ends in the same state. */
  lemma {:induction false} ReadConcat(r: Reader, a: string, b: string)
    ensures Read(r, a + b) == Read(Read(r, a), b)
    decreases |a|
  {
    if a == "" {
      assert a + b == b;
    } else {
      assert (a + b)[1..] == a[1..] + b;
      ReadConcat(Feed(r, a[0]), a[1..], b);
    }
  }

  function Words(cmds: seq<char>): (w: seq<string>)
    ensures |w| == |cmds| && forall i :: 0 <= i < |w| ==> w[i] == [cmds[i]]
  {
    if cmds == [] then [] else Words(cmds[..|cmds| - 1]) + [[cmds[|cmds| - 1]]]
  }

  /** Characters that the filter drops make no difference to a line: control characters other than tabs and feeds,
      and whatever is not ASCII. */
  lemma {:induction false} NoiseDropped(a: string, c: char, b: string)
    requires c == '\n' || c == '\r' || c == '\0' || c > '~' || (c < ' ' && c != '\t' && c as int !in [11, 12])
    ensures Filter(a + [c] + b) == Filter(a + b)
    decreases |a|
  {
    if a == "" {
      assert ([c] + b)[1..] == b && "" + [c] + b == [c] + b && "" + b == b;
    } else {
      assert (a + [c] + b)[1..] == a[1..] + [c] + b && (a + b)[1..] == a[1..] + b;
      NoiseDropped(a[1..], c, b);
    }
  }

  /** One command read after at most one stray NUL is that command, with at most one NUL left behind. */
  lemma OneCommand(r: Reader, cmd: char)
    requires Printable(cmd) && (r.partial == "" || r.partial == "\0")
    ensures Read(r, Encode(cmd)).lines == r.lines + [[cmd]]
    ensures Read(r, Encode(cmd)).partial == if cmd == 'p' then "" else "\0"
  {
    var line := r.partial + [cmd] + ['\n'];
    assert Filter(line) == [cmd] by {
      assert Filter(['\n']) == "";
      assert [cmd, '\n'][1..] == ['\n'];
      assert Filter([cmd, '\n']) == [cmd];
      if r.partial == "" { assert line == [cmd, '\n']; } else { assert line[1..] == [cmd, '\n']; }
    }
    var r1 := Feed(r, cmd);
    var r2 := Feed(r1, '\n');
    ReadOne(r, cmd);
    ReadOne(r1, '\n');
    ReadConcat(r, [cmd], ['\n']);
    assert [cmd] + ['\n'] == [cmd, '\n'];
    if cmd != 'p' {
      ReadOne(r2, '\0');
      ReadConcat(r, [cmd, '\n'], ['\0']);
      assert [cmd, '\n'] + ['\0'] == Encode(cmd);
    }
  }

  lemma ReadOne(r: Reader, c: char)
    ensures Read(r, [c]) == Feed(r, c)
  {
    assert [c][1..] == "";
  }

  /** Framing round trip: from the bytes of any sequence of commands the server recovers exactly that
      sequence, with at most one NUL pending. */
  lemma {:induction false} RoundTrip(cmds: seq<char>)
    requires forall i :: 0 <= i < |cmds| ==> ' ' <= cmds[i] <= '~'
    ensures Read(FRESH, EncodeAll(cmds)).lines == Words(cmds)
    ensures Read(FRESH, EncodeAll(cmds)).partial
            == if cmds == [] || cmds[|cmds| - 1] == 'p' then "" else "\0"
    decreases |cmds|
  {
    if cmds != [] {
      var before, cmd := cmds[..|cmds| - 1], cmds[|cmds| - 1];
      RoundTrip(before);
      ReadConcat(FRESH, EncodeAll(before), Encode(cmd));
      OneCommand(Read(FRESH, EncodeAll(before)), cmd);
    }
  }

  lemma {:induction false} ReadGrows(r: Reader, stream: string)
    ensures r.lines <= Read(r, stream).lines
    decreases |stream|
  {
    if stream != "" { ReadGrows(Feed(r, stream[0]), stream[1..]); }
  }

  /** At every moment, whatever part of the bytes has arrived, the commands read so far are a prefix of
      the commands sent. */
  lemma ArrivedPrefix(cmds: seq<char>, n: nat)
    requires forall i :: 0 <= i < |cmds| ==> ' ' <= cmds[i] <= '~'
    requires n <= |EncodeAll(cmds)|
    ensures Read(FRESH, EncodeAll(cmds)[..n]).lines <= Words(cmds)
  {
    var stream := EncodeAll(cmds);
    assert stream == stream[..n] + stream[n..];
    ReadConcat(FRESH, stream[..n], stream[n..]);
    ReadGrows(Read(FRESH, stream[..n]), stream[n..]);
    RoundTrip(cmds);
  }
}
