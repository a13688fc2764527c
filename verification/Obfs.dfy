/** The obfuscation layer over a transport (t2tunnel/obfs.go): obfsConn, and what a whole conversation
    through obfsConn and wsConn delivers. */
module Obfs {
  import opened Bytes
  import opened Frames
  import opened WsTransport

  datatype ObfsConfig = ObfsConfig(minPadding: nat, maxPadding: nat)

  const DEFAULT_OBFS_CONFIG := ObfsConfig(16, 256)

  /** The padding lengths Write may draw: the upper bound itself is never drawn. */
  predicate PadLen(cfg: ObfsConfig, n: nat) {
    if cfg.maxPadding > cfg.minPadding then cfg.minPadding <= n < cfg.maxPadding else n == cfg.minPadding
  }

  /** By default any length from 16 to 255 may be drawn, and no other; its header field never wraps. */
  lemma DefaultPaddingFits(n: nat)
    ensures PadLen(DEFAULT_OBFS_CONFIG, n) <==> 16 <= n <= 255
    ensures PadLen(DEFAULT_OBFS_CONFIG, n) ==> n < 65536
  {
  }

  /** The messages a list of successful writes hands to the transport. */
  function SentBy(items: seq<Item>): (msgs: seq<Msg>)
    ensures |msgs| == |items|
  {
    seq(|items|, i requires 0 <= i < |items| => Msg(true, FrameOf(items[i]), false))
  }

  lemma SentByCons(items: seq<Item>)
    requires items != []
    ensures SentBy(items)[0] == Msg(true, FrameOf(items[0]), false) && SentBy(items)[1..] == SentBy(items[1..])
  {
  }

  lemma {:induction false} StreamOfSent(items: seq<Item>)
    ensures StreamOf(SentBy(items)) == Wire(items)
  {
    if items != [] {
      StreamOfSent(items[1..]);
      SentByCons(items);
    }
  }

  /** A write that fails midway leaves a cut of the wire that a full write would have left. */
  lemma StreamOfTornWrite(items: seq<Item>, it: Item, j: nat)
    requires j <= |FrameOf(it)|
    ensures |Wire(items + [it])| == |Wire(items)| + |FrameOf(it)|
    ensures StreamOf(SentBy(items) + [Msg(true, FrameOf(it)[..j], true)])
         == Wire(items + [it])[..|Wire(items)| + j]
  {
    StreamOfSent(items);
    StreamSnoc(SentBy(items), Msg(true, FrameOf(it)[..j], true));
    WireSnoc(items, it);
  }

  // What one Read does -----------------------------------------------------------------------------

  datatype Outcome =
    | Delivered(out: seq<byte>, buf: seq<byte>, wire: seq<byte>)
    | EndOfStream

  /** Read into a buffer of length len, when buf is left over and the transport still holds wire. */
  function ReadStep(buf: seq<byte>, wire: seq<byte>, len: nat): Outcome {
    if buf != [] then
      Delivered(buf[..Min(len, |buf|)], buf[Min(len, |buf|)..], wire)
    else match Parse(wire)
      case Cut => EndOfStream
      case Whole(data, rest) => Delivered(data[..Min(len, |data|)], data[Min(len, |data|)..], rest)
  }

  /** What is still owed to the caller: the leftover buffer and the payloads of the whole frames on the wire. */
  function Pending(buf: seq<byte>, wire: seq<byte>): seq<byte> { buf + Flatten(Decode(wire)) }

  lemma ReadStepConserves(buf: seq<byte>, wire: seq<byte>, len: nat)
    ensures var s := ReadStep(buf, wire, len);
            match s
            case EndOfStream => Pending(buf, wire) == []
            case Delivered(out, buf', wire') =>
              && Pending(buf, wire) == out + Pending(buf', wire')
              && |out| <= len
              && (len > 0 ==> |buf'| + |wire'| < |buf| + |wire|)
  {
    if buf != [] {
      TakeFront(buf, Min(len, |buf|), Flatten(Decode(wire)));
    } else if Parse(wire).Whole? {
      var data := Parse(wire).payload;
      TakeFront(data, Min(len, |data|), Flatten(Decode(Parse(wire).rest)));
      assert Flatten(Decode(wire)) == data + Flatten(Decode(Parse(wire).rest));
    }
  }

  /** A Read hands out as much as fits, of the leftover if there is one, else of the next whole frame, and keeps the
      rest; it fails exactly when there is neither. */
  lemma ReadStepFills(buf: seq<byte>, wire: seq<byte>, len: nat)
    ensures match ReadStep(buf, wire, len)
            case EndOfStream => buf == [] && Decode(wire) == []
            case Delivered(out, buf', wire') =>
              && |out| == Min(len, |out + buf'|)
              && if buf != [] then wire' == wire && out + buf' == buf else Decode(wire) == [out + buf'] + Decode(wire')
  {
    if buf == [] && Parse(wire).Whole? {
      var data := Parse(wire).payload;
      assert data[..Min(len, |data|)] + data[Min(len, |data|)..] == data;
    }
  }

  lemma ParseOfShort(h: seq<byte>, rest: seq<byte>)
    requires |h| == 4
    requires |rest| < Uint16(h[0], h[1]) + Uint16(h[2], h[3])
    ensures Parse(h + rest) == Cut
  {
  }

  class ObfsConn {
    const conn: WsConn
    const cfg: ObfsConfig
    var readBuf: seq<byte>

    constructor (conn: WsConn, cfg: ObfsConfig)
      ensures this.conn == conn && this.cfg == cfg && readBuf == []
    {
      this.conn, this.cfg, readBuf := conn, cfg, [];
    }

    /** One frame per call, in one message, whatever padding is drawn; nothing else is ever sent. */
    method Write(p: seq<byte>) returns (n: nat, ok: bool, ghost it: Item)
      modifies conn`sent, conn`broken
      ensures it.payload == p && PadLen(cfg, |it.pad|)
      ensures n == if ok then |p| else 0
      ensures ok ==> conn.sent == old(conn.sent) + SentBy([it]) && !old(conn.broken) && !conn.broken
      ensures !ok ==> conn.broken
      ensures !ok && old(conn.broken) ==> conn.sent == old(conn.sent)
      ensures !ok && !old(conn.broken) ==>
                exists j | 0 <= j <= |FrameOf(it)| ::
                  conn.sent == old(conn.sent) + [Msg(true, FrameOf(it)[..j], true)]
    {
      var padLen := cfg.minPadding;
      if cfg.maxPadding > cfg.minPadding {
        var draw: nat :| draw < cfg.maxPadding - cfg.minPadding;
        padLen := cfg.minPadding + draw;
      }
      assert |seq(padLen, i => 0 as byte)| == padLen;
      var pad: seq<byte> :| |pad| == padLen;
      it := Item(p, pad);

      var header := PutUint16(ToUint16(|p|)) + PutUint16(ToUint16(padLen));
      var frame := [];
      frame := frame + header;
      frame := frame + p;
      frame := frame + pad;
      assert frame == FrameOf(it);

      var written;
      written, ok := conn.Write(frame);
      n := if ok then |p| else 0;
    }

    /** The part of Read that takes one frame off the transport: header, payload, padding. */
    method ReadFrame() returns (ok: bool, data: seq<byte>)
      modifies conn`inbox, conn`r
      ensures match Parse(old(conn.Content()))
              case Cut => !ok && conn.Content() == []
              case Whole(payload, rest) => ok && data == payload && conn.Content() == rest
    {
      var header := new byte[4];
      ok := ReadFull(conn, header);
      if !ok {
        return false, [];
      }
      ghost var afterHeader := conn.Content();
      var h := header[..];
      var dataLen := Uint16(header[0], header[1]);
      var padLen := Uint16(header[2], header[3]);

      var buf := new byte[dataLen];
      ok := ReadFull(conn, buf);
      if !ok {
        ParseOfShort(h, afterHeader);
        return false, [];
      }
      data := buf[..];
      ghost var p0, afterData := [], conn.Content();

      if padLen > 0 {
        var pad := new byte[padLen];
        ok := ReadFull(conn, pad);
        if !ok {
          ParseOfShort(h, afterHeader);
          return false, [];
        }
        p0 := pad[..];
      }
      assert afterData == p0 + conn.Content();
      ParseOfParts(h, data, p0, conn.Content());
      return true, data;
    }

    /** Read into p[off..]. */
    method Read(p: array<byte>, off: nat) returns (n: nat, ok: bool)
      requires off <= p.Length
      modifies this`readBuf, conn`inbox, conn`r, p
      ensures match ReadStep(old(readBuf), old(conn.Content()), p.Length - off)
              case EndOfStream =>
                !ok && n == 0 && p[..] == old(p[..]) && readBuf == [] && conn.Content() == []
              case Delivered(out, buf, wire) =>
                ok && n == |out| && off + n <= p.Length && p[..] == Patch(old(p[..]), off, out)
                && readBuf == buf && conn.Content() == wire
    {
      if |readBuf| > 0 {
        n := CopyInto(p, off, readBuf);
        readBuf := readBuf[n..];
        return n, true;
      }

      var data;
      ok, data := ReadFrame();
      if !ok {
        return 0, false;
      }
      n := CopyInto(p, off, data);
      if n < |data| {
        readBuf := data[n..];
      }
      return n, true;
    }
  }

  /** A Read in terms of what is owed to the caller. */
  method ReadOwed(o: ObfsConn, p: array<byte>, off: nat) returns (n: nat, ok: bool, ghost out: seq<byte>)
    requires off < p.Length
    modifies o`readBuf, o.conn`inbox, o.conn`r, p
    ensures |out| == n && off + n <= p.Length && p[..] == Patch(old(p[..]), off, out)
    ensures old(Pending(o.readBuf, o.conn.Content())) == out + Pending(o.readBuf, o.conn.Content())
    ensures ok ==> |o.readBuf| + |o.conn.Content()| < old(|o.readBuf| + |o.conn.Content()|)
    ensures !ok ==> |o.readBuf| + |o.conn.Content()| == 0
  {
    ghost var left, wire, len := o.readBuf, o.conn.Content(), p.Length - off;
    PatchNothing(p[..], off);
    n, ok := o.Read(p, off);
    ReadStepConserves(left, wire, len);
    match ReadStep(left, wire, len)
    case EndOfStream => out := [];
    case Delivered(got, _, _) => out := got;
  }

  lemma NothingOwed(left: seq<byte>, wire: seq<byte>)
    requires |left| + |wire| == 0
    ensures Pending(left, wire) == []
  {
  }

  /** io.ReadFull over an obfsConn, which is how smux reads it: the loop ends whatever frames arrive, empty ones
      included, and p is filled exactly when the payloads still owed suffice, with exactly their front. */
  method FillFrom(o: ObfsConn, p: array<byte>) returns (ok: bool)
    modifies o`readBuf, o.conn`inbox, o.conn`r, p
    ensures ok <==> p.Length <= |old(Pending(o.readBuf, o.conn.Content()))|
    ensures ok ==> old(Pending(o.readBuf, o.conn.Content())) == p[..] + Pending(o.readBuf, o.conn.Content())
    ensures !ok ==> Pending(o.readBuf, o.conn.Content()) == []
  {
    var n: nat := 0;
    ok := true;
    ghost var owed := Pending(o.readBuf, o.conn.Content());
    while n < p.Length && ok
      invariant n <= p.Length
      invariant owed == p[..n] + Pending(o.readBuf, o.conn.Content())
      invariant !ok ==> Pending(o.readBuf, o.conn.Content()) == []
      decreases |o.readBuf| + |o.conn.Content()|, ok
    {
      ghost var buf, done, before := p[..], p[..n], Pending(o.readBuf, o.conn.Content());
      var nn;
      ghost var got;
      nn, ok, got := ReadOwed(o, p, n);
      TakeMore(owed, done, before, got, Pending(o.readBuf, o.conn.Content()));
      PatchFront(buf, n, got);
      n := n + nn;
      if !ok {
        NothingOwed(o.readBuf, o.conn.Content());
      }
    }
    ok := n == p.Length;
    assert p[..p.Length] == p[..];
  }

  // Whole conversations -----------------------------------------------------------------------------

  /** A run of Reads with the given buffer lengths, stopping at the first error. */
  datatype Run = Run(out: seq<byte>, buf: seq<byte>, wire: seq<byte>, failed: bool)

  function Reads(buf: seq<byte>, wire: seq<byte>, lens: seq<nat>): Run
    decreases |lens|
  {
    if lens == [] then Run([], buf, wire, false)
    else match ReadStep(buf, wire, lens[0])
      case EndOfStream => Run([], [], [], true)
      case Delivered(out, buf', wire') =>
        var r := Reads(buf', wire', lens[1..]);
        Run(out + r.out, r.buf, r.wire, r.failed)
  }

  /** Nothing is lost, invented or reordered, whatever buffers the caller uses; an error is only ever
      reported once everything owed has been delivered. */
  lemma {:induction false} ReadsConserve(buf: seq<byte>, wire: seq<byte>, lens: seq<nat>)
    ensures var r := Reads(buf, wire, lens);
            && Pending(buf, wire) == r.out + Pending(r.buf, r.wire)
            && (r.failed ==> r.out == Pending(buf, wire))
    decreases |lens|
  {
    if lens != [] {
      ReadStepConserves(buf, wire, lens[0]);
      match ReadStep(buf, wire, lens[0])
      case EndOfStream =>
      case Delivered(out, buf', wire') =>
        var r := Reads(buf', wire', lens[1..]);
        ReadsConserve(buf', wire', lens[1..]);
        Assoc(out, r.out, Pending(r.buf, r.wire));
    }
  }

  /** Draining terminates: with non-empty buffers there are at most as many successful Reads as there are
      bytes on the wire and in the leftover buffer, zero-payload frames included. */
  lemma {:induction false} ReadsTerminate(buf: seq<byte>, wire: seq<byte>, lens: seq<nat>)
    requires forall i | 0 <= i < |lens| :: lens[i] > 0
    ensures var r := Reads(buf, wire, lens);
            r.failed || |lens| + |r.buf| + |r.wire| <= |buf| + |wire|
    decreases |lens|
  {
    if lens != [] {
      ReadStepConserves(buf, wire, lens[0]);
      match ReadStep(buf, wire, lens[0])
      case EndOfStream =>
      case Delivered(out, buf', wire') => ReadsTerminate(buf', wire', lens[1..]);
    }
  }

  /** Truncation safety through both layers: if the messages that reach the receiver carry any prefix of
      what was written, the reader gets a prefix of the payloads of the complete frames, and all of it by
      the time an error is reported. */
  lemma CutStackDelivers(items: seq<Item>, received: seq<Msg>, k: nat, lens: seq<nat>)
    requires AllFit(items)
    requires k <= |Wire(items)| && StreamOf(received) == Wire(items)[..k]
    ensures var whole := Flatten(Payloads(items)[..Complete(items, k)]);
            var r := Reads([], StreamOf(received), lens);
            && whole == r.out + Pending(r.buf, r.wire)
            && (r.failed ==> r.out == whole)
  {
    DecodeOfCutWire(items, k);
    ReadsConserve([], StreamOf(received), lens);
    assert [] + Flatten(Decode(StreamOf(received))) == Flatten(Decode(StreamOf(received)));
  }

  /** The error is reported by the Read after the last byte of the cut at the latest. */
  lemma CutStackEnds(items: seq<Item>, received: seq<Msg>, k: nat, lens: seq<nat>)
    requires AllFit(items)
    requires k <= |Wire(items)| && StreamOf(received) == Wire(items)[..k]
    requires |lens| > k && forall i | 0 <= i < |lens| :: lens[i] > 0
    ensures var r := Reads([], StreamOf(received), lens);
            r.failed && r.out == Flatten(Payloads(items)[..Complete(items, k)])
  {
    ReadsTerminate([], StreamOf(received), lens);
    CutStackDelivers(items, received, k, lens);
  }

  /** A connection that dies while a frame is being written: everything written before is delivered, and of the
      torn payload all or nothing, depending on whether the frame had already gone out whole. */
  lemma TornStackDelivers(items: seq<Item>, it: Item, j: nat, received: seq<Msg>, lens: seq<nat>)
    requires AllFit(items) && Fits(it) && j <= |FrameOf(it)|
    requires Mixed(received, SentBy(items) + [Msg(true, FrameOf(it)[..j], true)])
    ensures var whole := Flatten(Payloads(items)) + if j == |FrameOf(it)| then it.payload else [];
            var r := Reads([], StreamOf(received), lens);
            && whole == r.out + Pending(r.buf, r.wire)
            && (r.failed ==> r.out == whole)
  {
    var sent, torn := SentBy(items), FrameOf(it)[..j];
    NoiseIsInvisible(received, sent + [Msg(true, torn, true)]);
    StreamOfSent(items);
    StreamSnoc(sent, Msg(true, torn, true));
    DecodeAfter(items, torn);
    TornFrame(it, j);
    FlattenConcat(Payloads(items), Decode(torn));
    ReadsConserve([], StreamOf(received), lens);
    assert [] + Flatten(Decode(StreamOf(received))) == Flatten(Decode(StreamOf(received)));
  }

  /** Stack round trip: obfsConn.Write, wsConn.Write, the network's noise, wsConn.Read and obfsConn.Read
      together deliver exactly what was written. */
  lemma StackRoundTrip(items: seq<Item>, received: seq<Msg>, lens: seq<nat>)
    requires AllFit(items)
    requires Mixed(received, SentBy(items))
    ensures var r := Reads([], StreamOf(received), lens);
            && Flatten(Payloads(items)) == r.out + Pending(r.buf, r.wire)
            && (r.failed ==> r.out == Flatten(Payloads(items)))
  {
    NoiseIsInvisible(received, SentBy(items));
    StreamOfSent(items);
    DecodeOfWire(items);
    ReadsConserve([], StreamOf(received), lens);
    assert [] + Flatten(Decode(StreamOf(received))) == Flatten(Decode(StreamOf(received)));
  }
}
