/** Rows of bytes that stand a fixed distance apart, and copying into such memory. */
module Rows {

  type Byte = bv8

  /** Where row `i` of an image with this row length starts. */
  function RowStart(i: nat, stride: nat): nat {
    if i == 0 then 0 else RowStart(i - 1, stride) + stride
  }

  lemma RowStartStep(k: nat, stride: nat)
    ensures RowStart(k, stride) == if k == 0 then 0 else RowStart(k - 1, stride) + stride
  {
  }

  lemma {:induction false} RowStartIsProduct(i: nat, stride: nat)
    ensures RowStart(i, stride) == i * stride
    decreases i
  {
    if i > 0 {
      RowStartIsProduct(i - 1, stride);
      assert (i - 1) * stride + stride == i * stride;
    }
  }

  lemma {:induction false} RowsApart(i: nat, j: nat, stride: nat)
    requires i < j
    ensures RowStart(i, stride) + stride <= RowStart(j, stride)
    decreases j
  {
    if i < j - 1 { RowsApart(i, j - 1, stride); }
  }

  lemma Distrib(a: nat, b: nat, c: nat)
    ensures (a + b) * c == a * c + b * c
  {
  }

  lemma Assoc(a: nat, b: nat, c: nat)
    ensures (a * b) * c == a * (b * c)
  {
  }

  lemma MulLe(a: nat, b: nat, c: nat)
    requires a <= b
    ensures a * c <= b * c
  {
  }

  /** `s[at..at + len]`, or nothing if that is not inside. */
  function Slice(s: seq<Byte>, at: nat, len: nat): (r: seq<Byte>)
    ensures at + len <= |s| ==> |r| == len
  {
    if at + len <= |s| then s[at..at + len] else []
  }

  lemma SliceBefore(a: seq<Byte>, s: seq<Byte>)
    ensures Slice(a + s, 0, |a|) == a
  {
  }

  lemma SliceAfter(a: seq<Byte>, s: seq<Byte>, at: nat, len: nat)
    requires at + len <= |s|
    ensures Slice(a + s, at + |a|, len) == Slice(s, at, len)
  {
    assert (a + s)[at + |a|..at + |a| + len] == s[at..at + len];
  }

  /** `dst` with `src` written at `at`. */
  function Write(dst: seq<Byte>, at: nat, src: seq<Byte>): (r: seq<Byte>)
    requires at + |src| <= |dst|
    ensures |r| == |dst|
  {
    dst[..at] + src + dst[at + |src|..]
  }

  /** Writing at `at` over memory that still is as it was up to there. */
  lemma WriteParts(dst: seq<Byte>, at: nat, len: nat, src: seq<Byte>, was: seq<Byte>)
    requires at + len <= |dst| == |was| && |src| == len && dst[..at + len] == was[..at + len]
    ensures dst[at..at + len] == was[at..at + len]
    ensures Write(dst, at, src)[..at] == was[..at] && Write(dst, at, src)[at..] == src + dst[at + len..]
  {
    assert was[..at] == was[..at + len][..at] && dst[..at] == dst[..at + len][..at];
    assert was[at..at + len] == was[..at + len][at..] && dst[at..at + len] == dst[..at + len][at..];
  }

  lemma WriteReads(dst: seq<Byte>, at: nat, src: seq<Byte>, lo: nat, hi: nat)
    requires at + |src| <= |dst| && lo <= hi <= at
    ensures Write(dst, at, src)[at..at + |src|] == src
    ensures Write(dst, at, src)[lo..hi] == dst[lo..hi]
  {
  }

  lemma WriteElsewhere(dst: seq<Byte>, at: nat, src: seq<Byte>, k: nat)
    requires at + |src| <= |dst| && k < |dst| && !(at <= k < at + |src|)
    ensures Write(dst, at, src)[k] == dst[k]
  {
  }

  lemma WriteSlice(dst: seq<Byte>, at: nat, src: seq<Byte>, from: nat)
    requires |src| == 2 && at + 2 <= |dst|
    ensures Slice(Write(dst, at, src), at, 2) == src
    ensures from + 2 <= at ==> Slice(Write(dst, at, src), from, 2) == Slice(dst, from, 2)
  {
    if from + 2 <= at { WriteReads(dst, at, src, from, from + 2); }
  }

  /** memcpy. */
  method Copy(dst: array<Byte>, at: nat, src: seq<Byte>)
    requires at + |src| <= dst.Length
    modifies dst
    ensures dst[..] == Write(old(dst[..]), at, src)
  {
    forall j | at <= j < at + |src| {
      dst[j] := src[j - at];
    }
  }
}
