/** The WebSocket transport (t2tunnel/ws_transport.go): wsConn turns a list of messages back into a byte
    stream, and each Write into one binary message. The WebSocket library is not part of this model; what it
    may do (short reads, an end of message reported with or after the last bytes, a connection that
    dies inside a message) is left to nondeterministic choice. */
module WsTransport {
  import opened Bytes

  /** A message as it reaches the receiver. A torn message is one the connection died in. */
  datatype Msg = Msg(binary: bool, data: seq<byte>, torn: bool)

  /** wsConn.r: nil, or the reader of the current message with the bytes it still holds. */
  datatype Reader = NoReader | Reading(left: seq<byte>, torn: bool)

  datatype ReadError = NoError | EndOfMessage | Failure

  /** The byte stream a list of messages carries: the data of its binary messages up to the first torn one. */
  function StreamOf(msgs: seq<Msg>): seq<byte> {
    if msgs == [] then []
    else Data(msgs[0]) + (if msgs[0].torn then [] else StreamOf(msgs[1..]))
  }

  /** What a message adds to the stream. */
  function Data(m: Msg): seq<byte> { if m.binary then m.data else [] }

  predicate Noise(m: Msg) { !m.torn && (!m.binary || m.data == []) }

  /** received is sent with any number of control, text or empty messages mixed in. */
  ghost predicate Mixed(received: seq<Msg>, sent: seq<Msg>) {
    if received == [] then sent == []
    else (Noise(received[0]) && Mixed(received[1..], sent))
         || (sent != [] && received[0] == sent[0] && Mixed(received[1..], sent[1..]))
  }

  lemma {:induction false} NoiseIsInvisible(received: seq<Msg>, sent: seq<Msg>)
    requires Mixed(received, sent)
    ensures StreamOf(received) == StreamOf(sent)
  {
    if received != [] {
      if Noise(received[0]) && Mixed(received[1..], sent) {
        NoiseIsInvisible(received[1..], sent);
      } else {
        NoiseIsInvisible(received[1..], sent[1..]);
      }
    }
  }

  predicate AllWhole(msgs: seq<Msg>) { forall i | 0 <= i < |msgs| :: !msgs[i].torn }

  lemma {:induction false} StreamSnoc(msgs: seq<Msg>, m: Msg)
    requires AllWhole(msgs)
    ensures StreamOf(msgs + [m]) == StreamOf(msgs) + Data(m)
  {
    if msgs == [] {
      assert msgs + [m] == [m];
      assert StreamOf([m]) == Data(m) + [];
    } else {
      StreamSnoc(msgs[1..], m);
      assert (msgs + [m])[1..] == msgs[1..] + [m];
      Assoc(Data(msgs[0]), StreamOf(msgs[1..]), Data(m));
    }
  }

  class WsConn {
    var inbox: seq<Msg>  // messages NextReader has not reached yet
    var r: Reader
    var sent: seq<Msg>   // messages WriteMessage has put on the connection
    var broken: bool     // a WriteMessage has failed; the connection writes no more

    constructor (inbox: seq<Msg>)
      ensures this.inbox == inbox && r == NoReader && sent == [] && !broken
    {
      this.inbox, r, sent, broken := inbox, NoReader, [], false;
    }

    /** Every byte a caller of Read can still get. */
    ghost function Content(): seq<byte>
      reads this
    {
      match r
      case NoReader => StreamOf(inbox)
      case Reading(left, torn) => left + (if torn then [] else StreamOf(inbox))
    }

    /** NextReader of the WebSocket connection; once it has handed out a torn message nothing follows. */
    method NextReader() returns (ok: bool, binary: bool, reader: Reader)
      modifies this`inbox
      ensures !ok ==> old(inbox) == [] && inbox == []
      ensures ok ==> old(inbox) != [] && |inbox| < |old(inbox)|
      ensures ok ==> binary == old(inbox)[0].binary
      ensures ok ==> reader == Reading(old(inbox)[0].data, old(inbox)[0].torn)
      ensures ok ==> inbox == if old(inbox)[0].torn then [] else old(inbox)[1..]
      ensures ok ==> StreamOf(old(inbox)) ==
                     (if binary then reader.left else []) + (if reader.torn then [] else StreamOf(inbox))
    {
      if inbox == [] {
        return false, false, NoReader;
      }
      ok, binary, reader := true, inbox[0].binary, Reading(inbox[0].data, inbox[0].torn);
      inbox := if inbox[0].torn then [] else inbox[1..];
    }

    /** Read of the current message's reader into p[off..]: any non-empty short read while bytes remain. */
    method ReadMessage(p: array<byte>, off: nat) returns (n: nat, err: ReadError, ghost got: seq<byte>)
      requires off <= p.Length
      requires r.Reading?
      modifies this`r, p
      ensures r.Reading? && r.torn == old(r.torn) && off + n <= p.Length
      ensures |got| == n && p[..] == Patch(old(p[..]), off, got)
      ensures old(Content()) == got + Content()
      ensures err == NoError && off < p.Length ==> n > 0
      ensures err == EndOfMessage ==> r.left == [] && !r.torn && Content() == StreamOf(inbox)
      ensures err == Failure ==> r.left == [] && r.torn && Content() == []
    {
      var left := r.left;
      var atEnd := if r.torn then Failure else EndOfMessage;
      PatchNothing(p[..], off);
      if left == [] {
        return 0, atEnd, [];
      }
      var room := Min(p.Length - off, |left|);
      var k :| 0 <= k <= room && (room > 0 ==> k > 0);
      n := CopyInto(p, off, left[..k]);
      got := left[..n];
      r := Reading(left[n..], r.torn);
      assert left[..k][..n] == left[..n];
      TakeFront(left, n, if r.torn then [] else StreamOf(inbox));
      err := NoError;
      if n == |left| && n > 0 {
        err :| err == NoError || err == atEnd;
      }
    }

    /** The part of Read's loop that sets w.r: it skips messages that are not binary. */
    method NextBinary() returns (ok: bool)
      requires r == NoReader
      modifies this`inbox, this`r
      ensures Content() == old(Content())
      ensures ok ==> r.Reading? && |inbox| < |old(inbox)|
      ensures !ok ==> r == NoReader && Content() == []
    {
      while true
        invariant r == NoReader && |inbox| <= |old(inbox)|
        invariant StreamOf(inbox) == StreamOf(old(inbox))
        decreases |inbox|
      {
        var found, binary, reader := NextReader();
        if !found {
          return false;
        }
        if binary {
          r := reader;
          return true;
        }
      }
    }

    method Read(p: array<byte>, off: nat) returns (n: nat, ok: bool, ghost got: seq<byte>)
      requires off <= p.Length
      modifies this`inbox, this`r, p
      ensures off + n <= p.Length
      ensures |got| == n && p[..] == Patch(old(p[..]), off, got)
      ensures old(Content()) == got + Content()
      ensures ok && off < p.Length ==> n > 0
      ensures !ok ==> Content() == []
    {
      PatchNothing(p[..], off);
      while true
        invariant p[..] == old(p[..])
        invariant Content() == old(Content())
        decreases |inbox|, r.Reading?
      {
        if r.NoReader? {
          var found := NextBinary();
          if !found {
            return 0, false, [];
          }
        }
        var err;
        n, err, got := ReadMessage(p, off);
        ok := err == NoError;
        if err == EndOfMessage {
          r := NoReader;
          ok := true;
          if n == 0 {
            continue;
          }
        }
        return;
      }
    }

    /** WriteMessage may fail after any part of the message, and then the connection is dead. */
    method WriteMessage(p: seq<byte>) returns (ok: bool)
      modifies this`sent, this`broken
      ensures ok ==> sent == old(sent) + [Msg(true, p, false)] && !broken && !old(broken)
      ensures !ok ==> broken
      ensures !ok && old(broken) ==> sent == old(sent)
      ensures !ok && !old(broken) ==>
                exists k | 0 <= k <= |p| :: sent == old(sent) + [Msg(true, p[..k], true)]
    {
      if broken {
        return false;
      }
      ok :| ok || !ok;
      if ok {
        sent := sent + [Msg(true, p, false)];
      } else {
        var k: nat :| k <= |p|;
        sent, broken := sent + [Msg(true, p[..k], true)], true;
      }
    }

    method Write(p: seq<byte>) returns (n: nat, ok: bool)
      modifies this`sent, this`broken
      ensures n == if ok then |p| else 0
      ensures ok ==> sent == old(sent) + [Msg(true, p, false)] && !broken && !old(broken)
      ensures !ok ==> broken
      ensures !ok && old(broken) ==> sent == old(sent)
      ensures !ok && !old(broken) ==>
                exists k | 0 <= k <= |p| :: sent == old(sent) + [Msg(true, p[..k], true)]
    {
      ok := WriteMessage(p);
      n := if ok then |p| else 0;
    }
  }

  /** io.ReadFull over a wsConn: it fills p or, when the stream is shorter, uses the stream up and fails. */
  method ReadFull(c: WsConn, p: array<byte>) returns (ok: bool)
    modifies c`inbox, c`r, p
    ensures ok <==> p.Length <= |old(c.Content())|
    ensures ok ==> old(c.Content()) == p[..] + c.Content()
    ensures !ok ==> c.Content() == []
  {
    var n := 0;
    ok := true;
    while n < p.Length && ok
      invariant n <= p.Length
      invariant old(c.Content()) == p[..n] + c.Content()
      invariant !ok ==> c.Content() == []
      decreases p.Length - n, ok
    {
      ghost var buf, done, before := p[..], p[..n], c.Content();
      var nn;
      ghost var got;
      nn, ok, got := c.Read(p, n);
      TakeMore(old(c.Content()), done, before, got, c.Content());
      PatchFront(buf, n, got);
      n := n + nn;
    }
    ok := n == p.Length;
    assert p[..p.Length] == p[..];
  }
}
