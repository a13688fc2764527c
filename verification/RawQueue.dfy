/** The receive side of the raw packet connection (t2tunnel/rawpacketconn.go): readLoop, any number of
    ReadFrom callers and Close, meeting at a bounded channel. Packet capture is a list of arrivals; which of
    several ready select cases fires is an arbitrary choice. */
module RawQueue {
  import opened Bytes

  const CAPACITY := 1024

  /** readLoop: at its outer select, holding a copied payload before the inner one, or returned. */
  datatype Loop = Idle | Holding(data: seq<byte>) | Stopped

  datatype Fate = Kept | Dropped(queued: nat) | LostToClose

  /** A non-empty payload readLoop has dealt with, and what became of it. */
  datatype Arrival = Arrival(data: seq<byte>, fate: Fate)

  /** One successful ReadFrom: the caller's buffer length and what it received. */
  datatype Delivery = Delivery(room: nat, out: seq<byte>)

  /** queue is recvCh, taken the packets received from it so far, as they were queued. */
  datatype State = State(
    loop: Loop, queue: seq<seq<byte>>, closed: bool,
    arrivals: seq<Arrival>, taken: seq<seq<byte>>, deliveries: seq<Delivery>)

  datatype Step =
    | Take(payload: seq<byte>)   // a packet from the capture; empty ones are skipped
    | LoopEnds                   // closeCh, or the capture, is closed
    | Send                       // inner select: recvCh <- data
    | GiveUp                     // inner select: <-closeCh
    | Default                    // inner select: neither is ready
    | Receive(room: nat)         // ReadFrom: <-recvCh, into a buffer of room bytes
    | Fail                       // ReadFrom: closed or timed out
    | Close

  const INIT := State(Idle, [], false, [], [], [])

  predicate Enabled(s: State, st: Step) {
    match st
    case Take(_) => s.loop.Idle?
    case LoopEnds => s.loop.Idle?
    case Send => s.loop.Holding? && |s.queue| < CAPACITY
    case GiveUp => s.loop.Holding? && s.closed
    case Default => s.loop.Holding? && |s.queue| >= CAPACITY && !s.closed
    case Receive(_) => s.queue != []
    case Fail => true
    case Close => true
  }

  function Apply(s: State, st: Step): State
    requires Enabled(s, st)
  {
    match st
    case Take(payload) => if payload == [] then s else s.(loop := Holding(payload))
    case LoopEnds => s.(loop := Stopped)
    case Send =>
      s.(loop := Idle, queue := s.queue + [s.loop.data], arrivals := s.arrivals + [Arrival(s.loop.data, Kept)])
    case GiveUp => s.(loop := Stopped, arrivals := s.arrivals + [Arrival(s.loop.data, LostToClose)])
    case Default => s.(loop := Idle, arrivals := s.arrivals + [Arrival(s.loop.data, Dropped(|s.queue|))])
    case Receive(room) =>
      s.(queue := s.queue[1..], taken := s.taken + [s.queue[0]],
         deliveries := s.deliveries + [Delivery(room, s.queue[0][..Min(room, |s.queue[0]|)])])
    case Fail => s
    case Close => s.(closed := true)
  }

  ghost predicate Run(states: seq<State>, steps: seq<Step>) {
    |states| == |steps| + 1 && states[0] == INIT
    && forall k | 0 <= k < |steps| :: Enabled(states[k], steps[k]) && states[k + 1] == Apply(states[k], steps[k])
  }

  /** The arrivals that were queued, in order. */
  function KeptOf(arrivals: seq<Arrival>): seq<seq<byte>> {
    if arrivals == [] then []
    else var last := arrivals[|arrivals| - 1];
         KeptOf(arrivals[..|arrivals| - 1]) + if last.fate.Kept? then [last.data] else []
  }

  function DataOf(arrivals: seq<Arrival>): (data: seq<seq<byte>>)
    ensures |data| == |arrivals|
  {
    seq(|arrivals|, i requires 0 <= i < |arrivals| => arrivals[i].data)
  }

  /** xs is ys with some elements left out. */
  ghost predicate Subsequence<T(!new)>(xs: seq<T>, ys: seq<T>)
    decreases |ys|
  {
    if ys == [] then xs == []
    else Subsequence(xs, ys[..|ys| - 1])
         || (xs != [] && xs[|xs| - 1] == ys[|ys| - 1] && Subsequence(xs[..|xs| - 1], ys[..|ys| - 1]))
  }

  lemma {:induction false} KeptIsSubsequence(arrivals: seq<Arrival>)
    ensures Subsequence(KeptOf(arrivals), DataOf(arrivals))
  {
    if arrivals != [] {
      var front := arrivals[..|arrivals| - 1];
      KeptIsSubsequence(front);
      assert DataOf(arrivals)[..|arrivals| - 1] == DataOf(front);
      var kept := KeptOf(arrivals);
      if arrivals[|arrivals| - 1].fate.Kept? {
        assert kept[..|kept| - 1] == KeptOf(front);
      } else {
        assert kept == KeptOf(front);
      }
    }
  }

  predicate CutTo(d: Delivery, packet: seq<byte>) { d.out == packet[..Min(d.room, |packet|)] }

  predicate Inv(s: State) {
    && KeptOf(s.arrivals) == s.taken + s.queue
    && |s.queue| <= CAPACITY
    && (s.loop.Holding? ==> s.loop.data != [])
    && |s.deliveries| == |s.taken|
    && (forall i | 0 <= i < |s.taken| :: CutTo(s.deliveries[i], s.taken[i]))
    && (forall i | 0 <= i < |s.arrivals| ::
          var a := s.arrivals[i];
          && a.data != []
          && (a.fate.Dropped? ==> a.fate.queued == CAPACITY)
          && (a.fate.LostToClose? ==> s.closed && i == |s.arrivals| - 1 && s.loop.Stopped?))
  }

  lemma StepInv(s: State, st: Step)
    requires Inv(s) && Enabled(s, st)
    ensures Inv(Apply(s, st))
  {
  }

  lemma {:induction false} RunInv(states: seq<State>, steps: seq<Step>, k: nat)
    requires Run(states, steps) && k < |states|
    ensures Inv(states[k])
    decreases k
  {
    if k > 0 {
      RunInv(states, steps, k - 1);
      StepInv(states[k - 1], steps[k - 1]);
    }
  }

  /** Over all interleavings: the packets delivered and then those queued are exactly the arrivals that were
      kept, a subsequence of all non-empty arrivals in order; the queue never exceeds 1024; an arrival is
      only ever dropped while 1024 are queued, save at most one, the last, given up because of Close; and
      each delivery is its packet cut to the caller's buffer. */
  lemma QueueKeepsOrder(states: seq<State>, steps: seq<Step>, k: nat)
    requires Run(states, steps) && k < |states|
    ensures var s := states[k];
            && s.taken + s.queue == KeptOf(s.arrivals) && Subsequence(s.taken + s.queue, DataOf(s.arrivals))
            && |s.queue| <= 1024
            && (forall i | 0 <= i < |s.arrivals| ::
                  var a := s.arrivals[i];
                  a.data != []
                  && (a.fate.Kept? || a.fate == Dropped(1024) || (a.fate.LostToClose? && s.closed && i == |s.arrivals| - 1)))
            && |s.deliveries| == |s.taken|
            && (forall i | 0 <= i < |s.taken| ::
                  var d := s.deliveries[i];
                  d.out == if d.room < |s.taken[i]| then s.taken[i][..d.room] else s.taken[i])
  {
    RunInv(states, steps, k);
    KeptIsSubsequence(states[k].arrivals);
  }

  /** The non-empty packets that came, by the steps taken. */
  function Came(steps: seq<Step>): seq<seq<byte>> {
    if steps == [] then []
    else
      var st := steps[|steps| - 1];
      Came(steps[..|steps| - 1]) + if st.Take? && st.payload != [] then [st.payload] else []
  }

  lemma DataOfSnoc(arrivals: seq<Arrival>, a: Arrival)
    ensures DataOf(arrivals + [a]) == DataOf(arrivals) + [a.data]
  {
  }

  lemma CameSnoc(steps: seq<Step>, st: Step)
    ensures Came(steps + [st]) == Came(steps) + if st.Take? && st.payload != [] then [st.payload] else []
  {
    assert (steps + [st])[..|steps|] == steps;
  }

  function InHand(s: State): seq<seq<byte>> { if s.loop.Holding? then [s.loop.data] else [] }

  lemma AccountedStep(s: State, st: Step, came: seq<seq<byte>>)
    requires Enabled(s, st) && came == DataOf(s.arrivals) + InHand(s)
    ensures came + (if st.Take? && st.payload != [] then [st.payload] else []) ==
            DataOf(Apply(s, st).arrivals) + InHand(Apply(s, st))
  {
    if s.loop.Holding? {
      DataOfSnoc(s.arrivals, Arrival(s.loop.data, Kept));
      DataOfSnoc(s.arrivals, Arrival(s.loop.data, LostToClose));
      DataOfSnoc(s.arrivals, Arrival(s.loop.data, Dropped(|s.queue|)));
    }
  }

  /** No packet vanishes: every non-empty one that came is among the arrivals, in order, but for the one readLoop has
      in hand. And once Close has been called the connection stays closed. */
  lemma {:induction false} EveryPacketAccounted(states: seq<State>, steps: seq<Step>, k: nat)
    requires Run(states, steps) && k < |states|
    ensures Came(steps[..k]) == DataOf(states[k].arrivals) + InHand(states[k])
    ensures Close in steps[..k] <==> states[k].closed
    decreases k
  {
    if k > 0 {
      EveryPacketAccounted(states, steps, k - 1);
      assert steps[..k] == steps[..k - 1] + [steps[k - 1]];
      CameSnoc(steps[..k - 1], steps[k - 1]);
      AccountedStep(states[k - 1], steps[k - 1], Came(steps[..k - 1]));
    }
  }
}
