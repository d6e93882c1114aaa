/** Bytes, big-endian numbers and Python slices. */
module Bytes {
  type Byte = b: int | 0 <= b < 256

  type U16 = n: int | 0 <= n < 65536

  function At(b: seq<Byte>, at: nat): (n: nat)
    requires at < |b|
    ensures n < 256
  {
    b[at] as int
  }

  function ReadU16(b: seq<Byte>, at: nat): (n: nat)
    requires at + 1 < |b|
    ensures n < 65536
  {
    256 * At(b, at) + At(b, at + 1)
  }

  function WriteU16(n: U16): (b: seq<Byte>)
    ensures |b| == 2
  {
    [n / 256, n % 256]
  }

  /** b[at : at + n], clipped to the end of b as Python does. */
  function Slice<T>(b: seq<T>, at: nat, n: nat): seq<T> {
    if at >= |b| then [] else if at + n >= |b| then b[at..] else b[at..at + n]
  }

  /** The bytes found at `at` in `b`. */
  ghost predicate HasAt(b: seq<Byte>, at: nat, x: seq<Byte>) {
    at + |x| <= |b| && forall i :: 0 <= i < |x| ==> b[at + i] == x[i]
  }

  lemma HasAtConcat(b: seq<Byte>, at: nat, x: seq<Byte>, y: seq<Byte>)
    requires HasAt(b, at, x + y)
    ensures HasAt(b, at, x) && HasAt(b, at + |x|, y)
  {
    assert forall i :: 0 <= i < |x| ==> (x + y)[i] == x[i];
    forall i | 0 <= i < |y| ensures b[at + |x| + i] == y[i] {
      assert b[at + (|x| + i)] == (x + y)[|x| + i];
    }
  }

  lemma HasAtMiddle(before: seq<Byte>, x: seq<Byte>, after: seq<Byte>)
    ensures HasAt(before + x + after, |before|, x)
  {
  }

  lemma HasAtU16(b: seq<Byte>, at: nat, n: U16)
    requires HasAt(b, at, WriteU16(n))
    ensures at + 2 <= |b| && ReadU16(b, at) == n
  {
    var w := WriteU16(n);
    assert b[at + 0] == w[0] && b[at + 1] == w[1];
  }

  lemma HasAtByte(b: seq<Byte>, at: nat, x: Byte)
    requires HasAt(b, at, [x])
    ensures at < |b| && b[at] == x && At(b, at) == x
  {
    assert b[at + 0] == [x][0];
  }

  lemma HasAtSlice(b: seq<Byte>, at: nat, x: seq<Byte>)
    requires HasAt(b, at, x)
    ensures Slice(b, at, |x|) == x
  {
    assert forall i :: 0 <= i < |x| ==> Slice(b, at, |x|)[i] == b[at + i];
  }

  lemma SliceOfTail(b: seq<Byte>, k: nat, from: nat, to: nat)
    requires from <= to && k + to <= |b|
    ensures b[k..][from..to] == b[k + from..k + to]
  {
  }

  lemma TailOfTail(b: seq<Byte>, k: nat, from: nat)
    requires k + from <= |b|
    ensures b[k..][from..] == b[k + from..]
  {
  }

  function WriteU16s(ns: seq<U16>): (b: seq<Byte>)
    ensures |b| == 2 * |ns|
  {
    if ns == [] then [] else WriteU16(ns[0]) + WriteU16s(ns[1..])
  }
}
