/** Bytes, and the concatenation of a list of pieces: the vocabulary every layer of the tunnel shares. */
module Bytes {

  type byte = b: int | 0 <= b < 256

  function Min(a: nat, b: nat): nat { if a <= b then a else b }

  function Flatten<T>(pieces: seq<seq<T>>): seq<T> {
    if pieces == [] then [] else pieces[0] + Flatten(pieces[1..])
  }

  lemma Assoc<T>(a: seq<T>, b: seq<T>, c: seq<T>)
    ensures (a + b) + c == a + (b + c)
  {
  }

  lemma {:induction false} FlattenConcat<T>(a: seq<seq<T>>, b: seq<seq<T>>)
    ensures Flatten(a + b) == Flatten(a) + Flatten(b)
  {
    if a == [] {
      assert a + b == b;
    } else {
      FlattenConcat(a[1..], b);
      assert (a + b)[1..] == a[1..] + b;
      Assoc(a[0], Flatten(a[1..]), Flatten(b));
    }
  }

  lemma FlattenSnoc<T>(a: seq<seq<T>>, piece: seq<T>)
    ensures Flatten(a + [piece]) == Flatten(a) + piece
  {
    FlattenConcat(a, [piece]);
    assert Flatten([piece]) == piece + Flatten([]);
  }

  /** The bookkeeping of a reader that takes b off the front of a stream it has already taken a from. */
  lemma TakeMore<T>(stream: seq<T>, a: seq<T>, before: seq<T>, b: seq<T>, after: seq<T>)
    requires stream == a + before
    requires before == b + after
    ensures stream == (a + b) + after
  {
  }

  lemma TakeFront<T>(s: seq<T>, n: nat, tail: seq<T>)
    requires n <= |s|
    ensures s + tail == s[..n] + (s[n..] + tail)
  {
  }

  /** A buffer after got has been written into it at off. */
  function Patch(buf: seq<byte>, off: nat, got: seq<byte>): (r: seq<byte>)
    requires off + |got| <= |buf|
    ensures |r| == |buf|
  {
    buf[..off] + got + buf[off + |got|..]
  }

  lemma PatchNothing(buf: seq<byte>, off: nat)
    requires off <= |buf|
    ensures Patch(buf, off, []) == buf
  {
  }

  lemma PatchFront(buf: seq<byte>, off: nat, got: seq<byte>)
    requires off + |got| <= |buf|
    ensures Patch(buf, off, got)[..off + |got|] == buf[..off] + got
    ensures Patch(buf, off, got)[..off] == buf[..off]
  {
  }

  /** Go's copy into p[off..]: as much of src as fits. */
  method CopyInto(p: array<byte>, off: nat, src: seq<byte>) returns (n: nat)
    requires off <= p.Length
    modifies p
    ensures n == Min(p.Length - off, |src|)
    ensures p[..] == Patch(old(p[..]), off, src[..n])
  {
    n := Min(p.Length - off, |src|);
    forall i | 0 <= i < n {
      p[off + i] := src[i];
    }
  }
}
