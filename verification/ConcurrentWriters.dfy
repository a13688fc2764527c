/** Goroutines sharing one obfsConn over one wsConn (t2tunnel/obfs.go, t2tunnel/ws_transport.go): each Write
    builds its frame alone, then takes wsConn.wmu for one WriteMessage. The message goes out in pieces, so
    the interleaving is by bytes; wmu is a bare mutex, and that only its taker pushes bytes is proved. */
module ConcurrentWriters {
  import opened Bytes
  import opened Frames

  /** A goroutine outside WriteMessage, or inside it with a number of frame bytes already sent. */
  datatype Pc = Ready | Sending(pushed: nat)

  datatype Entry = Entry(writer: nat, item: Item)

  /** program[i] lists writer i's calls in order, next[i] the number that have returned; log records, in
      order, the calls that reached the network. */
  datatype State = State(
    program: seq<seq<Item>>, next: seq<nat>, pc: seq<Pc>,
    locked: bool, broken: bool, wire: seq<byte>, log: seq<Entry>)

  datatype Step =
    | Lock(i: nat)           // wmu.Lock, and WriteMessage starts
    | Push(i: nat, k: nat)   // k more bytes leave
    | Finish(i: nat)         // WriteMessage succeeds; wmu.Unlock
    | Tear(i: nat)           // WriteMessage fails midway; wmu.Unlock
    | Refuse(i: nat)         // WriteMessage on a connection that already failed

  function Init(program: seq<seq<Item>>): State {
    State(program, seq(|program|, _ => 0), seq(|program|, _ => Ready), false, false, [], [])
  }

  predicate Shape(s: State) {
    |s.next| == |s.program| && |s.pc| == |s.program|
    && forall i | 0 <= i < |s.program| :: s.next[i] <= |s.program[i]| && (s.pc[i].Sending? ==> s.next[i] < |s.program[i]|)
  }

  function Current(s: State, i: nat): Item
    requires Shape(s) && i < |s.program| && s.next[i] < |s.program[i]|
  {
    s.program[i][s.next[i]]
  }

  predicate Enabled(s: State, st: Step) {
    Shape(s) && st.i < |s.program| && s.next[st.i] < |s.program[st.i]| &&
    match st
    case Lock(i) => s.pc[i].Ready? && !s.locked && !s.broken
    case Push(i, k) => s.pc[i].Sending? && s.pc[i].pushed + k <= |FrameOf(Current(s, i))|
    case Finish(i) => s.pc[i].Sending? && s.pc[i].pushed == |FrameOf(Current(s, i))|
    case Tear(i) => s.pc[i].Sending?
    case Refuse(i) => s.pc[i].Ready? && !s.locked && s.broken
  }

  function Apply(s: State, st: Step): State
    requires Enabled(s, st)
  {
    match st
    case Lock(i) =>
      s.(locked := true, pc := s.pc[i := Sending(0)], log := s.log + [Entry(i, Current(s, i))])
    case Push(i, k) =>
      var p := s.pc[i].pushed;
      s.(pc := s.pc[i := Sending(p + k)], wire := s.wire + FrameOf(Current(s, i))[p..p + k])
    case Finish(i) =>
      s.(locked := false, pc := s.pc[i := Ready], next := s.next[i := s.next[i] + 1])
    case Tear(i) =>
      s.(locked := false, pc := s.pc[i := Ready], next := s.next[i := s.next[i] + 1], broken := true)
    case Refuse(i) =>
      s.(next := s.next[i := s.next[i] + 1])
  }

  /** A finite run: any interleaving the mutex allows. */
  ghost predicate Run(program: seq<seq<Item>>, states: seq<State>, steps: seq<Step>) {
    |states| == |steps| + 1 && states[0] == Init(program)
    && forall k | 0 <= k < |steps| :: Enabled(states[k], steps[k]) && states[k + 1] == Apply(states[k], steps[k])
  }

  function Items(log: seq<Entry>): (items: seq<Item>)
    ensures |items| == |log|
  {
    seq(|log|, k requires 0 <= k < |log| => log[k].item)
  }

  /** Writer i's part of the log, in log order. */
  function ByWriter(log: seq<Entry>, i: nat): seq<Item> {
    if log == [] then []
    else ByWriter(log[..|log| - 1], i) + (if log[|log| - 1].writer == i then [log[|log| - 1].item] else [])
  }

  /** How many of writer i's calls have reached the network while the connection is whole. */
  function Begun(s: State, i: nat): nat
    requires Shape(s) && i < |s.program|
  {
    s.next[i] + if s.pc[i].Sending? then 1 else 0
  }

  /** Mutual exclusion: the mutex is held exactly when some goroutine is inside WriteMessage, and only one is. */
  predicate Exclusive(s: State)
    requires Shape(s)
  {
    && (forall i, j | 0 <= i < |s.pc| && 0 <= j < |s.pc| :: s.pc[i].Sending? && s.pc[j].Sending? ==> i == j)
    && (s.locked <==> exists i | 0 <= i < |s.pc| :: s.pc[i].Sending?)
  }

  /** The wire is the log's frames, the last one possibly cut at n bytes. */
  predicate CutAt(wire: seq<byte>, log: seq<Entry>, n: nat) {
    log != [] && n <= |FrameOf(log[|log| - 1].item)|
    && wire == Wire(Items(log[..|log| - 1])) + FrameOf(log[|log| - 1].item)[..n]
  }

  ghost predicate WireMatches(s: State)
    requires Shape(s)
  {
    && (!s.locked && !s.broken ==> s.wire == Wire(Items(s.log)))
    && (s.broken ==> !s.locked && exists n :: CutAt(s.wire, s.log, n))
    && (forall i | 0 <= i < |s.pc| && s.pc[i].Sending? ::
          !s.broken && CutAt(s.wire, s.log, s.pc[i].pushed) && s.log[|s.log| - 1] == Entry(i, Current(s, i)))
  }

  predicate OrderKept(s: State)
    requires Shape(s)
  {
    forall i | 0 <= i < |s.program| ::
      && ByWriter(s.log, i) <= s.program[i]
      && |ByWriter(s.log, i)| <= Begun(s, i)
      && (!s.broken ==> |ByWriter(s.log, i)| == Begun(s, i))
  }

  ghost predicate Inv(s: State) { Shape(s) && Exclusive(s) && WireMatches(s) && OrderKept(s) }

  lemma InitInv(program: seq<seq<Item>>)
    ensures Inv(Init(program))
  {
  }

  lemma ShapeExclusiveStep(s: State, st: Step)
    requires Inv(s) && Enabled(s, st)
    ensures Shape(Apply(s, st)) && Exclusive(Apply(s, st))
  {
    var s' := Apply(s, st);
    if st.Lock? || st.Push? {
      assert s'.pc[st.i].Sending?;
    }
  }

  lemma ByWriterSnoc(log: seq<Entry>, e: Entry, i: nat)
    ensures ByWriter(log + [e], i) == ByWriter(log, i) + if e.writer == i then [e.item] else []
  {
    assert (log + [e])[..|log|] == log;
  }

  lemma NextOfPrefix(was: seq<Item>, program: seq<Item>)
    requires was <= program && |was| < |program|
    ensures was + [program[|was|]] <= program
  {
  }

  lemma LockOrder(s: State, i: nat)
    requires Inv(s) && Enabled(s, Lock(i)) && Shape(Apply(s, Lock(i)))
    ensures OrderKept(Apply(s, Lock(i)))
  {
    forall j | 0 <= j < |s.program| {
      ByWriterSnoc(s.log, Entry(i, Current(s, i)), j);
    }
    NextOfPrefix(ByWriter(s.log, i), s.program[i]);
  }

  lemma OrderStep(s: State, st: Step)
    requires Inv(s) && Enabled(s, st) && Shape(Apply(s, st))
    ensures OrderKept(Apply(s, st))
  {
    if st.Lock? {
      LockOrder(s, st.i);
    }
  }

  /** The others are outside WriteMessage while one is in it; so are all once it has left. */
  lemma OnlyOne(s: State, i: nat)
    requires Shape(s) && Exclusive(s) && i < |s.pc| && s.pc[i].Sending?
    ensures s.locked && forall j | 0 <= j < |s.pc| && j != i :: s.pc[j].Ready?
  {
  }

  lemma LockWire(s: State, i: nat)
    requires Inv(s) && Enabled(s, Lock(i)) && Shape(Apply(s, Lock(i))) && Exclusive(Apply(s, Lock(i)))
    ensures WireMatches(Apply(s, Lock(i)))
  {
    var s', e := Apply(s, Lock(i)), Entry(i, Current(s, i));
    OnlyOne(s', i);
    assert s'.log == s.log + [e] && s'.log[..|s'.log| - 1] == s.log && s'.log[|s'.log| - 1] == e;
    assert CutAt(s'.wire, s'.log, 0);
  }

  lemma CutGrows(wire: seq<byte>, log: seq<Entry>, p: nat, k: nat)
    requires CutAt(wire, log, p) && p + k <= |FrameOf(log[|log| - 1].item)|
    ensures CutAt(wire + FrameOf(log[|log| - 1].item)[p..p + k], log, p + k)
  {
    var f := FrameOf(log[|log| - 1].item);
    Assoc(Wire(Items(log[..|log| - 1])), f[..p], f[p..p + k]);
    assert f[..p] + f[p..p + k] == f[..p + k];
  }

  lemma PushWire(s: State, i: nat, k: nat)
    requires Inv(s) && Enabled(s, Push(i, k)) && Shape(Apply(s, Push(i, k))) && Exclusive(Apply(s, Push(i, k)))
    ensures WireMatches(Apply(s, Push(i, k)))
  {
    var s' := Apply(s, Push(i, k));
    OnlyOne(s', i);
    CutGrows(s.wire, s.log, s.pc[i].pushed, k);
  }

  lemma FinishWire(s: State, i: nat)
    requires Inv(s) && Enabled(s, Finish(i)) && Shape(Apply(s, Finish(i))) && Exclusive(Apply(s, Finish(i)))
    ensures WireMatches(Apply(s, Finish(i)))
  {
    OnlyOne(s, i);
    WholeLastFrame(s.log);
  }

  lemma TearWire(s: State, i: nat)
    requires Inv(s) && Enabled(s, Tear(i)) && Shape(Apply(s, Tear(i))) && Exclusive(Apply(s, Tear(i)))
    ensures WireMatches(Apply(s, Tear(i)))
  {
    OnlyOne(s, i);
    assert CutAt(Apply(s, Tear(i)).wire, Apply(s, Tear(i)).log, s.pc[i].pushed);
  }

  lemma WireStep(s: State, st: Step)
    requires Inv(s) && Enabled(s, st) && Shape(Apply(s, st)) && Exclusive(Apply(s, st))
    ensures WireMatches(Apply(s, st))
  {
    match st
    case Lock(i) => LockWire(s, i);
    case Push(i, k) => PushWire(s, i, k);
    case Finish(i) => FinishWire(s, i);
    case Tear(i) => TearWire(s, i);
    case Refuse(_) =>
  }

  lemma WholeLastFrame(log: seq<Entry>)
    requires log != []
    ensures Wire(Items(log[..|log| - 1])) + FrameOf(log[|log| - 1].item)[..|FrameOf(log[|log| - 1].item)|]
         == Wire(Items(log))
  {
    var front, last := log[..|log| - 1], log[|log| - 1].item;
    assert Items(log) == Items(front) + [last];
    WireSnoc(Items(front), last);
    assert FrameOf(last)[..|FrameOf(last)|] == FrameOf(last);
  }

  lemma {:induction false} RunInv(program: seq<seq<Item>>, states: seq<State>, steps: seq<Step>, k: nat)
    requires Run(program, states, steps) && k < |states|
    ensures Inv(states[k]) && states[k].program == program
  {
    if k == 0 {
      InitInv(program);
    } else {
      RunInv(program, states, steps, k - 1);
      ShapeExclusiveStep(states[k - 1], steps[k - 1]);
      OrderStep(states[k - 1], steps[k - 1]);
      WireStep(states[k - 1], steps[k - 1]);
    }
  }

  lemma CutIsPrefix(wire: seq<byte>, log: seq<Entry>, n: nat)
    requires CutAt(wire, log, n)
    ensures |Wire(Items(log[..|log| - 1]))| <= |wire| <= |Wire(Items(log))| && wire == Wire(Items(log))[..|wire|]
  {
    WholeLastFrame(log);
    var front, last := Wire(Items(log[..|log| - 1])), FrameOf(log[|log| - 1].item);
    assert front + last[..n] == (front + last[..|last|])[..|front| + n];
  }

  /** In every state the wire is a cut of the frames logged, missing at most part of the last one. */
  lemma WireIsCut(s: State) returns (k: nat)
    requires Inv(s)
    ensures k <= |Wire(Items(s.log))| && s.wire == Wire(Items(s.log))[..k]
    ensures s.log != [] ==> |Wire(Items(s.log[..|s.log| - 1]))| <= k
    ensures !s.locked && !s.broken ==> k == |Wire(Items(s.log))|
  {
    k := |s.wire|;
    if s.locked || s.broken {
      var n :| CutAt(s.wire, s.log, n);
      CutIsPrefix(s.wire, s.log, n);
    } else if s.log != [] {
      WholeLastFrame(s.log);
    }
  }

  /** No deadlock: while some writer has calls left, some writer can move. */
  lemma WritersNeverStuck(program: seq<seq<Item>>, states: seq<State>, steps: seq<Step>, k: nat, i: nat)
    returns (st: Step)
    requires Run(program, states, steps) && k < |states| && i < |program| && |states[k].next| == |program|
    requires states[k].next[i] < |program[i]|
    ensures Enabled(states[k], st) && states[k].program == program
  {
    RunInv(program, states, steps, k);
    var s := states[k];
    if s.locked {
      var j :| 0 <= j < |s.pc| && s.pc[j].Sending?;
      var left := |FrameOf(Current(s, j))| - s.pc[j].pushed;
      st := if left > 0 then Push(j, left) else Finish(j);
    } else {
      st := if s.broken then Refuse(i) else Lock(i);
    }
  }

  lemma {:induction false} ByWriterPrefix(log: seq<Entry>, c: nat, i: nat)
    requires c <= |log|
    ensures ByWriter(log[..c], i) <= ByWriter(log, i)
    decreases |log|
  {
    if c < |log| {
      ByWriterPrefix(log[..|log| - 1], c, i);
      assert log[..|log| - 1][..c] == log[..c];
    } else {
      assert log[..c] == log;
    }
  }

  lemma LogItemsFit(s: State)
    requires Inv(s)
    requires forall i | 0 <= i < |s.program| :: AllFit(s.program[i])
    requires forall k | 0 <= k < |s.log| :: s.log[k].writer < |s.program|
    requires forall k | 0 <= k < |s.log| :: s.log[k].item in s.program[s.log[k].writer]
    ensures AllFit(Items(s.log))
  {
  }

  predicate FromPrograms(s: State) {
    forall k | 0 <= k < |s.log| :: s.log[k].writer < |s.program| && s.log[k].item in s.program[s.log[k].writer]
  }

  lemma {:induction false} RunLogsPrograms(program: seq<seq<Item>>, states: seq<State>, steps: seq<Step>, k: nat)
    requires Run(program, states, steps) && k < |states|
    ensures FromPrograms(states[k])
  {
    if k > 0 {
      RunLogsPrograms(program, states, steps, k - 1);
    }
  }

  lemma LastOnlyCut(log: seq<Entry>, cut: nat)
    requires log != [] && |Wire(Items(log[..|log| - 1]))| <= cut
    ensures Complete(Items(log), cut) >= |log| - 1
  {
    assert Items(log)[..|log| - 1] == Items(log[..|log| - 1]);
    CompleteWithinLast(Items(log), cut);
  }

  lemma CutDecodes(log: seq<Entry>, cut: nat)
    requires AllFit(Items(log)) && cut <= |Wire(Items(log))|
    requires log != [] ==> |Wire(Items(log[..|log| - 1]))| <= cut
    ensures var c := Complete(Items(log), cut);
            && Decode(Wire(Items(log))[..cut]) == Payloads(Items(log))[..c]
            && |log| - 1 <= c <= |log| && (cut == |Wire(Items(log))| ==> c == |log|)
  {
    DecodeOfCutWire(Items(log), cut);
    if log != [] {
      LastOnlyCut(log, cut);
    }
  }

  lemma StateDecodes(s: State) returns (c: nat)
    requires Inv(s) && AllFit(Items(s.log))
    ensures |s.log| - 1 <= c <= |s.log| && (!s.locked && !s.broken ==> c == |s.log|)
    ensures Decode(s.wire) == Payloads(Items(s.log))[..c]
  {
    var cut := WireIsCut(s);
    CutDecodes(s.log, cut);
    c := Complete(Items(s.log), cut);
  }

  /** Concurrent writers: at any moment of any interleaving the receiver decodes a merge of the writers'
      payloads. It is the log, in lock order, short of at most the write in progress (or the one the
      connection died in); each writer's payloads appear in that writer's own order; no frame is torn
      across another. With no write in progress on a healthy connection, every returned call is in it. */
  lemma DecodesToMerge(program: seq<seq<Item>>, states: seq<State>, steps: seq<Step>, k: nat) returns (c: nat)
    requires Run(program, states, steps) && k < |states|
    requires forall i | 0 <= i < |program| :: AllFit(program[i])
    ensures |states[k].log| - 1 <= c <= |states[k].log|
    ensures Decode(states[k].wire) == Payloads(Items(states[k].log))[..c]
    ensures forall e | e in states[k].log :: e.writer < |program| && e.item in program[e.writer]
    ensures forall i | 0 <= i < |program| :: ByWriter(states[k].log[..c], i) <= program[i]
    ensures !states[k].locked && !states[k].broken ==>
              c == |states[k].log| && Shape(states[k]) && states[k].program == program
              && forall i | 0 <= i < |program| :: ByWriter(states[k].log, i) == program[i][..states[k].next[i]]
  {
    var s := states[k];
    RunInv(program, states, steps, k);
    RunLogsPrograms(program, states, steps, k);
    LogItemsFit(s);
    c := StateDecodes(s);
    forall i | 0 <= i < |program|
      ensures ByWriter(s.log[..c], i) <= program[i]
    {
      ByWriterPrefix(s.log, c, i);
    }
  }
}
