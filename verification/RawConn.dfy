/** rawPacketConn (t2tunnel/rawpacketconn.go) as the object it is: the channel end of readLoop, ReadFrom and
    Close against the steps of RawQueue, and the sequence counter of WriteTo. */
module RawConn {
  import opened Bytes
  import opened RawQueue

  const UINT32 := 0x1_0000_0000

  /** Go's uint32(n): arithmetic modulo 2^32. */
  function Mod32(n: int): (r: nat)
    ensures r < UINT32
  {
    n % UINT32
  }

  /** A serialised TCP segment: its Seq field and its payload length. */
  datatype Segment = Segment(seqNo: nat, len: nat)

  function TotalLen(segments: seq<Segment>): nat {
    if segments == [] then 0 else TotalLen(segments[..|segments| - 1]) + segments[|segments| - 1].len
  }

  /** Where segment k's bytes start in the unbounded stream numbered from 1000. */
  function Offset(segments: seq<Segment>, k: nat): nat
    requires k <= |segments|
  {
    1000 + TotalLen(segments[..k])
  }

  /** The k-th segment's Seq is 1000 plus all earlier payload bytes, modulo 2^32. */
  predicate Contiguous(segments: seq<Segment>) {
    forall k | 0 <= k < |segments| :: segments[k].seqNo == Mod32(Offset(segments, k))
  }

  /** The inner select of readLoop may go from s to s'. */
  ghost predicate Selects(s: State, s': State) {
    exists st: Step | st.Send? || st.GiveUp? || st.Default? :: Enabled(s, st) && s' == Apply(s, st)
  }

  /** What Valid says of the segments: their Seq fields number the bytes from 1000, modulo 2^32. */
  lemma SeqNumbers(segments: seq<Segment>, k: nat)
    requires Contiguous(segments) && k < |segments|
    ensures segments[k].seqNo == (1000 + TotalLen(segments[..k])) % 0x1_0000_0000
  {
  }

  class RawPacketConn {
    var recvCh: seq<seq<byte>>
    var closed: bool
    var seqNum: nat
    ghost var serialised: seq<Segment>
    ghost var sent: seq<Segment>

    // Where readLoop stands, and what has become of every packet so far.
    ghost var loop: Loop
    ghost var arrivals: seq<Arrival>
    ghost var taken: seq<seq<byte>>
    ghost var deliveries: seq<Delivery>

    ghost function Queue(): State
      reads this
    {
      State(loop, recvCh, closed, arrivals, taken, deliveries)
    }

    ghost predicate Valid()
      reads this
    {
      Inv(Queue()) && Contiguous(serialised) && seqNum == Mod32(Offset(serialised, |serialised|))
    }

    constructor ()
      ensures Valid() && Queue() == INIT && seqNum == 1000 && serialised == [] && sent == []
    {
      recvCh, closed, seqNum, serialised, sent := [], false, 1000, [], [];
      loop, arrivals, taken, deliveries := Idle, [], [], [];
    }

    /** The outer select of readLoop, when a packet comes: what is left to offer, if anything. */
    method Take(payload: seq<byte>) returns (data: seq<byte>)
      requires Valid() && loop.Idle?
      modifies this`loop
      ensures Valid() && Queue() == Apply(old(Queue()), RawQueue.Take(payload))
      ensures data == payload && (data != [] ==> loop == Holding(data))
    {
      StepInv(Queue(), RawQueue.Take(payload));
      if payload == [] {
        return [];
      }
      data := payload;
      loop := Holding(data);
    }

    /** The inner select of readLoop: any of the ready cases, or the default if none is. Whichever it is, data
        joins the queue unless the connection is closed or 1024 packets are waiting. */
    method Offer(data: seq<byte>) returns (stop: bool)
      requires Valid() && loop == Holding(data)
      modifies this`recvCh, this`loop, this`arrivals
      ensures Valid() && Selects(old(Queue()), Queue()) && stop == loop.Stopped?
      ensures recvCh == old(recvCh) + [data] || (recvCh == old(recvCh) && (closed || |recvCh| == 1024))
    {
      ghost var s := Queue();
      var room, pick := |recvCh| < CAPACITY, true;
      if room && closed {
        pick :| pick || !pick;
      }
      if room && pick {
        StepInv(s, Send);
        recvCh, loop, arrivals := recvCh + [data], Idle, arrivals + [Arrival(data, Kept)];
        assert Queue() == Apply(s, Send);
        return false;
      }
      if closed {
        StepInv(s, GiveUp);
        loop, arrivals := Stopped, arrivals + [Arrival(data, LostToClose)];
        assert Queue() == Apply(s, GiveUp);
        return true;
      }
      StepInv(s, Default);
      loop, arrivals := Idle, arrivals + [Arrival(data, Dropped(|recvCh|))];
      assert Queue() == Apply(s, Default);
      return false;
    }

    /** ReadFrom when data is the case that fires. */
    method Receive(p: array<byte>) returns (n: nat)
      requires Valid() && recvCh != []
      modifies this`recvCh, this`taken, this`deliveries, p
      ensures Valid() && Queue() == Apply(old(Queue()), RawQueue.Receive(p.Length))
      ensures n == |deliveries[|deliveries| - 1].out|
      ensures p[..] == Patch(old(p[..]), 0, deliveries[|deliveries| - 1].out)
    {
      StepInv(Queue(), RawQueue.Receive(p.Length));
      var data := recvCh[0];
      recvCh := recvCh[1..];
      n := CopyInto(p, 0, data);
      taken, deliveries := taken + [data], deliveries + [Delivery(p.Length, data[..n])];
    }

    method Close()
      requires Valid()
      modifies this`closed
      ensures Valid() && Queue() == Apply(old(Queue()), RawQueue.Close) && closed
    {
      StepInv(Queue(), RawQueue.Close);
      if !closed {
        closed := true;
      }
    }

    /** WriteTo: the counter moves on once the packet is serialised, whether or not it can be sent. */
    method WriteTo(p: seq<byte>, serialises: bool, sends: bool) returns (n: nat, ok: bool)
      requires Valid()
      modifies this`seqNum, this`serialised, this`sent
      ensures Valid() && Queue() == old(Queue())
      ensures !serialises ==> serialised == old(serialised) && sent == old(sent) && !ok
      ensures serialises ==> serialised == old(serialised) + [Segment(old(seqNum), |p|)]
      ensures serialises ==> sent == old(sent) + (if sends then [Segment(old(seqNum), |p|)] else []) && ok == sends
      ensures n == if ok then |p| else 0
    {
      if !serialises {
        return 0, false;
      }
      var tcp := Segment(seqNum, |p|);
      ContiguousSnoc(serialised, tcp);
      serialised := serialised + [tcp];
      seqNum := Mod32(seqNum + Mod32(|p|));
      if !sends {
        return 0, false;
      }
      sent := sent + [tcp];
      return |p|, true;
    }
  }

  lemma ContiguousSnoc(segments: seq<Segment>, s: Segment)
    requires Contiguous(segments) && s.seqNo == Mod32(Offset(segments, |segments|))
    ensures var all := segments + [s];
            Contiguous(all) && Mod32(Offset(all, |all|)) == Mod32(s.seqNo + Mod32(s.len))
  {
    var all := segments + [s];
    forall k | 0 <= k <= |segments|
      ensures Offset(all, k) == Offset(segments, k)
    {
      assert all[..k] == segments[..k];
    }
    OffsetSnoc(segments, s);
    SumModulo(Offset(segments, |segments|), s.len);
  }

  lemma OffsetSnoc(segments: seq<Segment>, s: Segment)
    ensures Offset(segments + [s], |segments| + 1) == Offset(segments, |segments|) + s.len
  {
    var all := segments + [s];
    assert all[..|all|] == all && all[..|segments|] == segments && segments[..|segments|] == segments;
  }

  lemma SumModulo(x: int, n: int)
    ensures Mod32(Mod32(x) + Mod32(n)) == Mod32(x + n)
    ensures Mod32(Mod32(x) + n) == Mod32(x + n)
  {
  }

  lemma {:induction false} OffsetsGrow(segments: seq<Segment>, k: nat, m: nat)
    requires k < m <= |segments|
    ensures Offset(segments, k) + segments[k].len <= Offset(segments, m)
    decreases m
  {
    assert segments[..m][..m - 1] == segments[..m - 1];
    if k < m - 1 {
      OffsetsGrow(segments, k, m - 1);
    }
  }

  /** Byte i of segment k carries this number in the sequence space of section 3.4 of RFC 9293. */
  function NumberOf(segments: seq<Segment>, k: nat, i: nat): nat
    requires k < |segments|
  {
    Mod32(segments[k].seqNo + i)
  }

  /** How far segment m starts behind segment k in the sequence space. */
  function Gap(segments: seq<Segment>, k: nat, m: nat): nat
    requires k < |segments| && m < |segments|
  {
    Mod32(Offset(segments, m) - Offset(segments, k))
  }

  lemma SameNumber(a: nat, b: nat, i: nat, j: nat)
    ensures Mod32(Mod32(a) + i) == Mod32(Mod32(b) + j) <==> Mod32(i) == Mod32(Mod32(b - a) + j)
  {
    SumModulo(a, i);
    SumModulo(b, j);
    SumModulo(b - a, j);
    CancelModulo(a, i, b - a + j);
  }

  lemma CancelModulo(a: int, x: int, y: int)
    ensures Mod32(a + x) == Mod32(a + y) <==> Mod32(x) == Mod32(y)
  {
    SumModulo(x, a);
    SumModulo(y, a);
    SumModulo(a + x, -a);
    SumModulo(a + y, -a);
  }

  lemma MeetAtStart(segments: seq<Segment>, k: nat, m: nat)
    requires Contiguous(segments) && k < |segments| && m < |segments|
    ensures NumberOf(segments, k, Gap(segments, k, m)) == NumberOf(segments, m, 0)
  {
    SameNumber(Offset(segments, k), Offset(segments, m), Gap(segments, k, m), 0);
  }

  lemma MeetAround(segments: seq<Segment>, k: nat, m: nat)
    requires Contiguous(segments) && k < |segments| && m < |segments|
    ensures NumberOf(segments, k, 0) == NumberOf(segments, m, UINT32 - Gap(segments, k, m))
  {
    SameNumber(Offset(segments, k), Offset(segments, m), 0, UINT32 - Gap(segments, k, m));
  }

  lemma Apart(segments: seq<Segment>, k: nat, m: nat, i: nat, j: nat)
    requires Contiguous(segments) && k < |segments| && m < |segments|
    requires i < Gap(segments, k, m) <= Gap(segments, k, m) + j < UINT32
    ensures NumberOf(segments, k, i) != NumberOf(segments, m, j)
  {
    SameNumber(Offset(segments, k), Offset(segments, m), i, j);
    SmallMod(i);
    SmallMod(Gap(segments, k, m) + j);
  }

  lemma SmallMod(n: nat)
    requires n < UINT32
    ensures Mod32(n) == n
  {
  }

  /** The byte numbers of two non-empty segments are disjoint exactly when, going round the sequence space from the
      start of the one, it ends before the other starts and the other ends before it starts again. */
  lemma RangesDisjoint(segments: seq<Segment>, k: nat, m: nat)
    requires Contiguous(segments) && k < |segments| && m < |segments|
    requires segments[k].len > 0 && segments[m].len > 0
    ensures (segments[k].len <= Gap(segments, k, m) && Gap(segments, k, m) + segments[m].len <= UINT32) <==>
            forall i, j | 0 <= i < segments[k].len && 0 <= j < segments[m].len ::
              NumberOf(segments, k, i) != NumberOf(segments, m, j)
  {
    var g := Gap(segments, k, m);
    if g < segments[k].len {
      MeetAtStart(segments, k, m);
    } else if UINT32 < g + segments[m].len {
      MeetAround(segments, k, m);
    } else {
      forall i, j | 0 <= i < segments[k].len && 0 <= j < segments[m].len
        ensures NumberOf(segments, k, i) != NumberOf(segments, m, j)
      {
        Apart(segments, k, m, i, j);
      }
    }
  }

  /** Sequence contiguity: the byte numbers of two segments are disjoint while at most 2^32 bytes span them. */
  lemma SpanDisjoint(segments: seq<Segment>, k: nat, m: nat)
    requires Contiguous(segments) && k < m < |segments|
    requires segments[k].len > 0 && segments[m].len > 0
    requires Offset(segments, m) + segments[m].len - Offset(segments, k) <= UINT32
    ensures forall i, j | 0 <= i < segments[k].len && 0 <= j < segments[m].len ::
              NumberOf(segments, k, i) != NumberOf(segments, m, j)
  {
    OffsetsGrow(segments, k, m);
    RangesDisjoint(segments, k, m);
  }
}
