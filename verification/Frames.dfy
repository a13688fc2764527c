/** The wire format of the obfuscation layer (t2tunnel/obfs.go): a frame is two big-endian 16-bit lengths,
    the payload, and random padding. This module is the format itself, independent of the connection code. */
module Frames {
  import opened Bytes

  /** One call to obfsConn.Write: the caller's bytes, and the padding drawn for them. */
  datatype Item = Item(payload: seq<byte>, pad: seq<byte>)

  const WORD := 0x1_0000

  /** Both lengths fit the 16-bit header fields. */
  predicate Fits(it: Item) { |it.payload| < WORD && |it.pad| < WORD }

  predicate AllFit(items: seq<Item>) { forall i | 0 <= i < |items| :: Fits(items[i]) }

  /** Go's uint16(n): the conversion silently drops all but the low 16 bits. */
  function ToUint16(n: nat): (v: nat)
    ensures v < WORD && (n < WORD ==> v == n) && v <= n
  {
    n % WORD
  }

  function PutUint16(v: nat): (r: seq<byte>)
    requires v < WORD
    ensures |r| == 2
  {
    [v / 256, v % 256]
  }

  function Uint16(hi: byte, lo: byte): (r: nat)
    ensures r < WORD
  {
    256 * hi + lo
  }

  /** The four header bytes: big-endian uint16(len(p)) and uint16(padLen). */
  function Header(it: Item): (h: seq<byte>)
    ensures |h| == 4
  {
    PutUint16(ToUint16(|it.payload|)) + PutUint16(ToUint16(|it.pad|))
  }

  lemma HeaderBytes(it: Item)
    ensures var h := Header(it);
            && Uint16(h[0], h[1]) == ToUint16(|it.payload|)
            && Uint16(h[2], h[3]) == ToUint16(|it.pad|)
  {
  }

  function FrameOf(it: Item): (f: seq<byte>)
    ensures |f| == 4 + |it.payload| + |it.pad|
  {
    Header(it) + it.payload + it.pad
  }

  /** A frame byte by byte: two big-endian 16-bit lengths, payload first, then the payload and the padding. */
  lemma FrameBytes(it: Item)
    ensures var f, n, m := FrameOf(it), |it.payload|, |it.pad|;
            && f[0] == n / 256 % 256 && f[1] == n % 256 && f[2] == m / 256 % 256 && f[3] == m % 256
            && f[4..4 + n] == it.payload && f[4 + n..] == it.pad
  {
    LowBytes(|it.payload|);
    LowBytes(|it.pad|);
  }

  lemma LowBytes(n: nat)
    ensures n % WORD / 256 == n / 256 % 256 && n % WORD % 256 == n % 256
  {
    var q, r := n / WORD, n % WORD;
    assert n == 256 * (256 * q + r / 256) + r % 256;
    assert n / 256 == 256 * q + r / 256 && r / 256 < 256;
  }

  /** Everything a list of writes puts on the wire. */
  function Wire(items: seq<Item>): seq<byte> {
    if items == [] then [] else FrameOf(items[0]) + Wire(items[1..])
  }

  function Payloads(items: seq<Item>): (ps: seq<seq<byte>>)
    ensures |ps| == |items|
  {
    seq(|items|, i requires 0 <= i < |items| => items[i].payload)
  }

  /** The front of a wire: a whole frame and what follows it, or a wire that ends inside its first frame. */
  datatype Front = Whole(payload: seq<byte>, rest: seq<byte>) | Cut

  function Parse(wire: seq<byte>): (f: Front)
    ensures f.Whole? ==> |f.payload| + |f.rest| + 4 <= |wire|
  {
    if |wire| < 4 then Cut else
    var dataLen := Uint16(wire[0], wire[1]);
    var padLen := Uint16(wire[2], wire[3]);
    if |wire| < 4 + dataLen + padLen then Cut
    else Whole(wire[4..4 + dataLen], wire[4 + dataLen + padLen..])
  }

  /** The payloads of the frames the wire holds completely, in order. */
  function Decode(wire: seq<byte>): seq<seq<byte>>
    decreases |wire|
  {
    match Parse(wire)
    case Cut => []
    case Whole(payload, rest) => [payload] + Decode(rest)
  }

  /** How many frames lie wholly within the first k bytes of Wire(items). */
  function Complete(items: seq<Item>, k: nat): (c: nat)
    ensures c <= |items|
  {
    if items == [] || k < |FrameOf(items[0])| then 0
    else 1 + Complete(items[1..], k - |FrameOf(items[0])|)
  }

  lemma ParseOfParts(h: seq<byte>, data: seq<byte>, pad: seq<byte>, rest: seq<byte>)
    requires |h| == 4
    requires |data| == Uint16(h[0], h[1]) && |pad| == Uint16(h[2], h[3])
    ensures Parse(h + (data + (pad + rest))) == Whole(data, rest)
  {
  }

  /** A frame parses back to its own payload, and nothing after it is disturbed, exactly when both
      lengths fit 16 bits. Write does not check this: a 65536-byte payload is announced as empty. */
  lemma ParseOfFrame(it: Item, rest: seq<byte>)
    ensures Fits(it) <==> Parse(FrameOf(it) + rest) == Whole(it.payload, rest)
  {
  }

  /** The concrete failure of the 16-bit header: the payload is swallowed and its bytes are read as frames. */
  lemma OversizePayloadIsLost(payload: seq<byte>)
    requires |payload| == WORD
    ensures Parse(FrameOf(Item(payload, []))) == Whole([], payload)
  {
    var it := Item(payload, []);
    HeaderBytes(it);
    assert FrameOf(it) == Header(it) + ([] + ([] + payload));
    ParseOfParts(Header(it), [], [], payload);
  }

  /** A strict prefix of one frame never parses: no header, payload or padding byte escapes as data. */
  lemma ParseOfTornFrame(it: Item, k: nat)
    requires Fits(it)
    requires k < |FrameOf(it)|
    ensures Parse(FrameOf(it)[..k]) == Cut
  {
  }

  /** One frame of the decoding of a cut wire: still incomplete, or delivered with the cut moved past it. */
  lemma DecodeOfCutFrame(it: Item, tail: seq<byte>, k: nat)
    requires Fits(it)
    requires k <= |FrameOf(it) + tail|
    ensures k < |FrameOf(it)| ==> Decode((FrameOf(it) + tail)[..k]) == []
    ensures k >= |FrameOf(it)| ==>
              Decode((FrameOf(it) + tail)[..k]) == [it.payload] + Decode(tail[..k - |FrameOf(it)|])
  {
    var f := FrameOf(it);
    if k < |f| {
      assert (f + tail)[..k] == f[..k];
      ParseOfTornFrame(it, k);
    } else {
      assert (f + tail)[..k] == f + tail[..k - |f|];
      ParseOfFrame(it, tail[..k - |f|]);
    }
  }

  lemma PayloadsCons(items: seq<Item>)
    requires items != []
    ensures Payloads(items) == [items[0].payload] + Payloads(items[1..])
  {
  }

  lemma DecodeOne(it: Item, rest: seq<byte>)
    requires Fits(it)
    ensures Decode(FrameOf(it) + rest) == [it.payload] + Decode(rest)
  {
    ParseOfFrame(it, rest);
  }

  lemma {:induction false} DecodeAfter(items: seq<Item>, tail: seq<byte>)
    requires AllFit(items)
    ensures Decode(Wire(items) + tail) == Payloads(items) + Decode(tail)
    decreases |items|
  {
    if items == [] {
      assert [] + tail == tail;
    } else {
      var rest := items[1..];
      Assoc(FrameOf(items[0]), Wire(rest), tail);
      DecodeOne(items[0], Wire(rest) + tail);
      DecodeAfter(rest, tail);
      PayloadsCons(items);
      Assoc([items[0].payload], Payloads(rest), Decode(tail));
    }
  }

  lemma TornFrame(it: Item, j: nat)
    requires Fits(it) && j <= |FrameOf(it)|
    ensures Flatten(Decode(FrameOf(it)[..j])) == if j == |FrameOf(it)| then it.payload else []
  {
    if j < |FrameOf(it)| {
      ParseOfTornFrame(it, j);
    } else {
      ParseOfFrame(it, []);
      assert FrameOf(it)[..j] == FrameOf(it) + [];
      assert Flatten([it.payload]) == it.payload + Flatten([]);
    }
  }

  /** Complete counts the whole frames in a cut: that many fit, and one more would not. */
  lemma {:induction false} CompleteIsLargest(items: seq<Item>, k: nat)
    ensures var c := Complete(items, k);
            |Wire(items[..c])| <= k && (c < |items| ==> k < |Wire(items[..c + 1])|)
    decreases |items|
  {
    if items == [] {
      assert items[..0] == [];
    } else if k < |FrameOf(items[0])| {
      FirstFrame(items);
    } else {
      var k', c := k - |FrameOf(items[0])|, Complete(items[1..], k - |FrameOf(items[0])|);
      CompleteIsLargest(items[1..], k');
      WireTake(items, c);
      if c + 1 < |items| {
        WireTake(items, c + 1);
      }
    }
  }

  lemma FirstFrame(items: seq<Item>)
    requires items != []
    ensures Wire(items[..0]) == [] && |Wire(items[..1])| == |FrameOf(items[0])|
  {
    WireTake(items, 0);
    assert items[1..][..0] == [];
  }

  lemma WireTake(items: seq<Item>, c: nat)
    requires c < |items|
    ensures |Wire(items[..c + 1])| == |FrameOf(items[0])| + |Wire(items[1..][..c])|
  {
    assert items[..c + 1][1..] == items[1..][..c];
  }

  lemma PayloadsTake(items: seq<Item>, c: nat)
    requires items != [] && c < |items|
    ensures Payloads(items)[..c + 1] == [items[0].payload] + Payloads(items[1..])[..c]
  {
  }

  /** Truncation safety of the format: a wire cut after any byte k decodes to exactly the payloads of
      the frames that arrived whole. */
  lemma {:induction false} DecodeOfCutWire(items: seq<Item>, k: nat)
    requires AllFit(items)
    requires k <= |Wire(items)|
    ensures Decode(Wire(items)[..k]) == Payloads(items)[..Complete(items, k)]
    ensures k == |Wire(items)| ==> Complete(items, k) == |items|
    decreases |items|
  {
    if items != [] {
      var n := |FrameOf(items[0])|;
      DecodeOfCutFrame(items[0], Wire(items[1..]), k);
      if n <= k {
        DecodeOfCutWire(items[1..], k - n);
        PayloadsTake(items, Complete(items[1..], k - n));
      }
    }
  }

  lemma {:induction false} DecodedFits(wire: seq<byte>, i: nat)
    requires i < |Decode(wire)|
    ensures |Decode(wire)[i]| < WORD
    decreases |wire|
  {
    if i > 0 {
      DecodedFits(Parse(wire).rest, i - 1);
    }
  }

  /** The round trip of a whole wire holds exactly when every payload fits the 16-bit length. The padding
      of every configuration with maxPadding at most 65536 does. */
  lemma DecodeOfWire(items: seq<Item>)
    requires forall i | 0 <= i < |items| :: |items[i].pad| < WORD
    ensures Decode(Wire(items)) == Payloads(items) <==> forall i | 0 <= i < |items| :: |items[i].payload| < WORD
  {
    if AllFit(items) {
      DecodeOfCutWire(items, |Wire(items)|);
      assert Wire(items)[..|Wire(items)|] == Wire(items);
      assert Payloads(items)[..|items|] == Payloads(items);
    }
    if Decode(Wire(items)) == Payloads(items) {
      forall i | 0 <= i < |items|
        ensures |items[i].payload| < WORD
      {
        DecodedFits(Wire(items), i);
      }
    }
  }

  lemma {:induction false} WireConcat(a: seq<Item>, b: seq<Item>)
    ensures Wire(a + b) == Wire(a) + Wire(b)
  {
    if a == [] {
      assert a + b == b;
    } else {
      WireConcat(a[1..], b);
      assert (a + b)[1..] == a[1..] + b;
      Assoc(FrameOf(a[0]), Wire(a[1..]), Wire(b));
    }
  }

  lemma WireSnoc(a: seq<Item>, it: Item)
    ensures Wire(a + [it]) == Wire(a) + FrameOf(it)
  {
    WireConcat(a, [it]);
    assert Wire([it]) == FrameOf(it) + Wire([]);
  }

  /** Cutting the wire inside its last frame loses at most that frame. */
  lemma {:induction false} CompleteWithinLast(items: seq<Item>, k: nat)
    requires items != []
    requires |Wire(items[..|items| - 1])| <= k
    ensures Complete(items, k) >= |items| - 1
    decreases |items|
  {
    if |items| > 1 {
      var front := items[..|items| - 1];
      assert front[1..] == items[1..][..|items| - 2];
      assert front[0] == items[0];
      CompleteWithinLast(items[1..], k - |FrameOf(items[0])|);
    }
  }
}
