/** pipe (t2tunnel/engine.go): two goroutines, each an io.Copy between the same two connections, sharing a
    sync.Once that closes both. Modelled as interleaved steps, those of the two peers included: bytes arrive in
    any portions, a peer ends its stream or a connection breaks at any time, a read waits until something
    of the kind has happened, a failing write accepts a part, and a closed end may report EOF even if bytes remain. */
module Pipe {
  import opened Bytes

  /** Whether an end's peer is still there: it may have ended its stream, or the connection may have broken. */
  datatype Peer = Sending | Ended | Broken

  /** One end: everything its peer will ever send, how much of it has arrived and how much has been read, what
      has been accepted from us, and whether pipe has closed it. */
  datatype Conn = Conn(source: seq<byte>, arrived: nat, read: nat, written: seq<byte>, peer: Peer, closed: bool)

  datatype ReadEnd = More | Eof | Error

  /** Where a copier stands: about to read; holding a chunk to write (and what the read said besides);
      io.Copy returned; inside closeBoth, with one Close to go; past once.Do and wg.Done. */
  datatype Pc =
    | Reading
    | Writing(chunk: seq<byte>, end: ReadEnd)
    | Copied(why: ReadEnd)
    | ClosingA
    | ClosingB
    | Finished

  /** sync.Once: not run, being run by a copier, run. */
  datatype Once = Fresh | Running(owner: nat) | Ran(owner: nat)

  /** conns[0] is a, conns[1] is b. Copier c reads conns[1 - c] and writes conns[c]: copier 0 is io.Copy(a, b).
      why[c] is how io.Copy ended, closings the number of times closeBoth was entered. */
  datatype State = State(conns: seq<Conn>, pc: seq<Pc>, why: seq<ReadEnd>, once: Once, closings: nat, returned: bool)

  datatype Step =
    | Arrive(i: nat, k: nat)              // k more bytes from the peer of conns[i]
    | PeerEnds(i: nat)                    // it has sent everything and ends the stream
    | Breaks(i: nat)                      // the connection breaks, at any time
    | Read(c: nat, k: nat, end: ReadEnd)  // k bytes and/or an end
    | Write(c: nat, n: nat, ok: bool)     // n bytes of the chunk accepted
    | Do(c: nat)                          // once.Do(closeBoth)
    | CloseA(c: nat)
    | CloseB(c: nat)
    | Return                              // wg.Wait returns

  function Init(a: seq<byte>, b: seq<byte>): State {
    State([Conn(a, 0, 0, [], Sending, false), Conn(b, 0, 0, [], Sending, false)],
          [Reading, Reading], [More, More], Fresh, 0, false)
  }

  predicate ConnShape(x: Conn) {
    x.read <= x.arrived <= |x.source| && (x.peer.Ended? ==> x.arrived == |x.source|)
  }

  predicate Shape(s: State) {
    |s.conns| == 2 && |s.pc| == 2 && |s.why| == 2 && ConnShape(s.conns[0]) && ConnShape(s.conns[1])
  }

  function From(s: State, c: nat): Conn
    requires Shape(s) && c < 2
  {
    s.conns[1 - c]
  }

  function To(s: State, c: nat): Conn
    requires Shape(s) && c < 2
  {
    s.conns[c]
  }

  /** A step of the peers rather than of the program. */
  predicate ByPeer(st: Step) { st.Arrive? || st.PeerEnds? || st.Breaks? }

  /** A read waits for bytes to arrive. It ends, with or without bytes, only if the peer has ended or the
      connection is broken or closed; a write fails only if the connection is broken or closed. */
  predicate Enabled(s: State, st: Step) {
    Shape(s) && !s.returned &&
    match st
    case Arrive(i, k) => i < 2 && 0 < k && s.conns[i].arrived + k <= |s.conns[i].source| && s.conns[i].peer.Sending?
    case PeerEnds(i) => i < 2 && s.conns[i].arrived == |s.conns[i].source| && s.conns[i].peer.Sending?
    case Breaks(i) => i < 2 && !s.conns[i].peer.Broken?
    case Read(c, k, end) =>
      c < 2 && s.pc[c].Reading? && CanRead(From(s, c), k, end)
    case Write(c, n, ok) =>
      c < 2 && s.pc[c].Writing? && n <= |s.pc[c].chunk|
      && (if ok then n == |s.pc[c].chunk| else To(s, c).closed || To(s, c).peer.Broken?)
    case Do(c) => c < 2 && s.pc[c].Copied? && !s.once.Running?
    case CloseA(c) => c < 2 && s.pc[c].ClosingA?
    case CloseB(c) => c < 2 && s.pc[c].ClosingB?
    case Return => s.pc[0].Finished? && s.pc[1].Finished?
  }

  predicate CanRead(x: Conn, k: nat, end: ReadEnd) {
    x.read + k <= x.arrived &&
    match end
    case More => k > 0
    case Eof => x.closed || (x.peer.Ended? && x.read + k == x.arrived)
    case Error => x.closed || x.peer.Broken?
  }

  /** io.Copy after a read or a whole write: go on, or stop with the read's end. */
  function Next(end: ReadEnd): Pc { if end.More? then Reading else Copied(end) }

  function Apply(s: State, st: Step): State
    requires Enabled(s, st)
  {
    match st
    case Arrive(i, k) => s.(conns := s.conns[i := s.conns[i].(arrived := s.conns[i].arrived + k)])
    case PeerEnds(i) => s.(conns := s.conns[i := s.conns[i].(peer := Ended)])
    case Breaks(i) => s.(conns := s.conns[i := s.conns[i].(peer := Broken)])
    case Read(c, k, end) =>
      var x := From(s, c);
      s.(conns := s.conns[1 - c := x.(read := x.read + k)],
         pc := s.pc[c := if k > 0 then Writing(x.source[x.read..x.read + k], end) else Next(end)],
         why := s.why[c := if k > 0 then s.why[c] else end])
    case Write(c, n, ok) =>
      var y, p := To(s, c), s.pc[c];
      s.(conns := s.conns[c := y.(written := y.written + p.chunk[..n])],
         pc := s.pc[c := if ok then Next(p.end) else Copied(Error)],
         why := s.why[c := if ok then p.end else Error])
    case Do(c) =>
      if s.once.Fresh? then s.(once := Running(c), pc := s.pc[c := ClosingA], closings := s.closings + 1)
      else s.(pc := s.pc[c := Finished])
    case CloseA(c) =>
      s.(conns := s.conns[0 := s.conns[0].(closed := true)], pc := s.pc[c := ClosingB])
    case CloseB(c) =>
      s.(conns := s.conns[1 := s.conns[1].(closed := true)], pc := s.pc[c := Finished], once := Ran(c))
    case Return => s.(returned := true)
  }

  ghost predicate Run(a: seq<byte>, b: seq<byte>, states: seq<State>, steps: seq<Step>) {
    |states| == |steps| + 1 && states[0] == Init(a, b)
    && forall k | 0 <= k < |steps| :: Enabled(states[k], steps[k]) && states[k + 1] == Apply(states[k], steps[k])
  }

  // What every step keeps --------------------------------------------------------------------------------

  /** What copier c has delivered is what it has read, but for a chunk in hand or one that failed to go out. */
  predicate Delivered(s: State, c: nat)
    requires Shape(s) && c < 2
  {
    var got := From(s, c).source[..From(s, c).read];
    match s.pc[c]
    case Writing(chunk, _) => To(s, c).written + chunk == got && chunk != []
    case Reading => To(s, c).written == got
    case _ => To(s, c).written <= got && (s.why[c].Eof? ==> To(s, c).written == got)
  }

  /** Copier c has seen a read end: in a chunk in hand, or as the way io.Copy stopped. */
  predicate SawEof(s: State, c: nat)
    requires Shape(s) && c < 2
  {
    if s.pc[c].Writing? then s.pc[c].end.Eof? else s.why[c].Eof?
  }

  /** The Once, the two closed flags and the program counters agree. */
  predicate OnceInv(s: State)
    requires Shape(s)
  {
    && (match s.once
        case Fresh => s.closings == 0 && !s.conns[0].closed && !s.conns[1].closed
        case Running(owner) =>
          owner < 2 && s.closings == 1 && (s.pc[owner].ClosingA? || s.pc[owner].ClosingB?) && !s.conns[1].closed
          && (s.conns[0].closed <==> s.pc[owner].ClosingB?)
        case Ran(owner) => owner < 2 && s.closings == 1 && s.pc[owner].Finished? && s.conns[0].closed && s.conns[1].closed)
    && (forall c | 0 <= c < 2 ::
          && (s.pc[c].ClosingA? || s.pc[c].ClosingB? ==> s.once == Running(c))
          && (s.pc[c].Finished? ==> s.once.Ran?)
          && (s.pc[c].Copied? ==> s.why[c] == s.pc[c].why)
          && (s.pc[c].Reading? || s.pc[c].Writing? <==> s.why[c].More?))
    && (s.returned ==> s.pc[0].Finished? && s.pc[1].Finished?)
  }

  /** Nothing has been closed behind copier c's back: if anything is, it is closing itself. */
  predicate Undisturbed(s: State, c: nat) { s.once.Fresh? || s.once == Running(c) || s.once == Ran(c) }

  /** An EOF seen before any closing, in particular by the copier that goes on to close, is a real one. */
  predicate EofAt(s: State, c: nat)
    requires Shape(s) && c < 2
  {
    SawEof(s, c) && Undisturbed(s, c) ==> From(s, c).read == |From(s, c).source|
  }

  /** Copier c has been stopped by an error, or the chunk in its hand came with one. */
  predicate SawError(s: State, c: nat)
    requires Shape(s) && c < 2
  {
    if s.pc[c].Writing? then s.pc[c].end.Error? else s.why[c].Error?
  }

  /** And so is an error: one of the connections has broken. */
  predicate ErrorAt(s: State, c: nat)
    requires Shape(s) && c < 2
  {
    SawError(s, c) && Undisturbed(s, c) ==> From(s, c).peer.Broken? || To(s, c).peer.Broken?
  }

  predicate EndsInv(s: State)
    requires Shape(s)
  {
    EofAt(s, 0) && EofAt(s, 1) && ErrorAt(s, 0) && ErrorAt(s, 1)
  }

  predicate Inv(s: State) {
    Shape(s) && Delivered(s, 0) && Delivered(s, 1) && OnceInv(s) && EndsInv(s)
  }

  lemma TakeNext(source: seq<byte>, r: nat, k: nat)
    requires r + k <= |source|
    ensures source[..r] + source[r..r + k] == source[..r + k]
  {
  }

  /** A read, seen from its copier. */
  lemma ReadMoves(s: State, c: nat, k: nat, end: ReadEnd)
    requires Shape(s) && Enabled(s, Read(c, k, end))
    ensures var s', x := Apply(s, Read(c, k, end)), From(s, c);
            && Shape(s') && From(s', c) == x.(read := x.read + k) && To(s', c).written == To(s, c).written
            && (k > 0 ==> s'.pc[c] == Writing(x.source[x.read..x.read + k], end) && s'.why[c] == s.why[c])
            && (k == 0 ==> s'.pc[c] == Copied(end) && s'.why[c] == end)
  {
  }

  lemma ReadDelivers(s: State, c: nat, k: nat, end: ReadEnd)
    requires Enabled(s, Read(c, k, end)) && Delivered(s, c)
    ensures Shape(Apply(s, Read(c, k, end))) && Delivered(Apply(s, Read(c, k, end)), c)
  {
    ReadMoves(s, c, k, end);
    TakeNext(From(s, c).source, From(s, c).read, k);
  }

  lemma WriteDelivers(s: State, c: nat, n: nat, ok: bool)
    requires Enabled(s, Write(c, n, ok)) && Delivered(s, c)
    ensures Shape(Apply(s, Write(c, n, ok))) && Delivered(Apply(s, Write(c, n, ok)), c)
  {
    TakeFront(s.pc[c].chunk, n, []);
    Assoc(To(s, c).written, s.pc[c].chunk[..n], s.pc[c].chunk[n..]);
  }

  /** Copier c's direction as it was: no byte of it has been read or written. */
  predicate SamePath(s: State, s': State, c: nat)
    requires Shape(s) && Shape(s') && c < 2
  {
    && From(s', c).source == From(s, c).source && From(s', c).read == From(s, c).read
    && To(s', c).written == To(s, c).written && s'.why[c] == s.why[c]
  }

  lemma PeerKeepsPaths(s: State, st: Step, c: nat)
    requires Enabled(s, st) && ByPeer(st) && c < 2
    ensures var s' := Apply(s, st);
            Shape(s') && SamePath(s, s', c) && s'.conns[c].closed == s.conns[c].closed
  {
  }

  /** The program's steps that move no byte of c's direction: the other copier's, and all after io.Copy. */
  lemma OthersKeepPath(s: State, st: Step, c: nat)
    requires Enabled(s, st) && !ByPeer(st) && c < 2
    requires st.Read? || st.Write? ==> st.c != c
    ensures Shape(Apply(s, st)) && SamePath(s, Apply(s, st), c)
    ensures var pc := Apply(s, st).pc[c]; pc == s.pc[c] || !(pc.Reading? || pc.Writing? || st.Return?)
  {
  }

  lemma PathDelivers(s: State, s': State, c: nat)
    requires Shape(s) && Shape(s') && c < 2 && Delivered(s, c) && SamePath(s, s', c)
    requires s'.pc[c] == s.pc[c] || !(s.pc[c].Reading? || s.pc[c].Writing? || s'.pc[c].Reading? || s'.pc[c].Writing?)
    ensures Delivered(s', c)
  {
  }

  lemma DeliveredStep(s: State, st: Step, c: nat)
    requires Inv(s) && Enabled(s, st) && c < 2
    ensures Shape(Apply(s, st)) && Delivered(Apply(s, st), c)
  {
    if ByPeer(st) {
      PeerKeepsPaths(s, st, c);
      PathDelivers(s, Apply(s, st), c);
    } else if st.Read? && st.c == c {
      ReadDelivers(s, c, st.k, st.end);
    } else if st.Write? && st.c == c {
      WriteDelivers(s, c, st.n, st.ok);
    } else {
      OthersKeepPath(s, st, c);
      PathDelivers(s, Apply(s, st), c);
    }
  }

  lemma OncePeerStep(s: State, st: Step)
    requires Enabled(s, st) && OnceInv(s) && ByPeer(st)
    ensures Shape(Apply(s, st)) && OnceInv(Apply(s, st))
  {
    PeerKeepsPaths(s, st, 0);
    PeerKeepsPaths(s, st, 1);
  }

  /** A read or a write: nothing is closed, and only the copier itself may leave io.Copy. */
  lemma OnceCopyStep(s: State, st: Step)
    requires Enabled(s, st) && OnceInv(s) && (st.Read? || st.Write?)
    ensures Shape(Apply(s, st)) && OnceInv(Apply(s, st))
  {
    var s', c := Apply(s, st), st.c;
    assert s'.conns[0].closed == s.conns[0].closed && s'.conns[1].closed == s.conns[1].closed;
    assert s'.pc[1 - c] == s.pc[1 - c] && s'.why[1 - c] == s.why[1 - c];
    assert s.why[c].More? && if s'.pc[c].Copied? then s'.why[c] == s'.pc[c].why && !s'.why[c].More? else
      (s'.pc[c].Reading? || s'.pc[c].Writing?) && s'.why[c].More?;
  }

  lemma OnceLateStep(s: State, st: Step)
    requires Enabled(s, st) && OnceInv(s) && !ByPeer(st) && !st.Read? && !st.Write?
    ensures Shape(Apply(s, st)) && OnceInv(Apply(s, st))
  {
  }

  lemma OnceStep(s: State, st: Step)
    requires Enabled(s, st) && OnceInv(s)
    ensures Shape(Apply(s, st)) && OnceInv(Apply(s, st))
  {
    if ByPeer(st) {
      OncePeerStep(s, st);
    } else if st.Read? || st.Write? {
      OnceCopyStep(s, st);
    } else {
      OnceLateStep(s, st);
    }
  }

  /** A broken connection stays broken. */
  lemma BrokenStays(s: State, st: Step, i: nat)
    requires Enabled(s, st) && i < 2
    ensures Shape(Apply(s, st)) && (s.conns[i].peer.Broken? ==> Apply(s, st).conns[i].peer.Broken?)
  {
  }

  lemma PeersShowNothing(s: State, st: Step, c: nat)
    requires Enabled(s, st) && ByPeer(st) && c < 2
    ensures var s' := Apply(s, st);
            && Shape(s') && SawEof(s', c) == SawEof(s, c) && SawError(s', c) == SawError(s, c)
            && Undisturbed(s', c) == Undisturbed(s, c)
  {
    PeerKeepsPaths(s, st, c);
  }

  /** What copier c has seen changes only by its own reads and writes. */
  lemma OthersShowNothing(s: State, st: Step, c: nat)
    requires Enabled(s, st) && OnceInv(s) && !ByPeer(st) && c < 2 && (st.Read? || st.Write? ==> st.c != c)
    ensures var s' := Apply(s, st);
            && Shape(s') && SawEof(s', c) == SawEof(s, c) && SawError(s', c) == SawError(s, c)
            && (SawEof(s, c) || SawError(s, c) ==> (Undisturbed(s', c) ==> Undisturbed(s, c)))
  {
    OthersKeepPath(s, st, c);
  }

  lemma OwnEnd(s: State, st: Step)
    requires Inv(s) && Enabled(s, st) && (st.Read? || st.Write?)
    ensures Shape(Apply(s, st)) && EofAt(Apply(s, st), st.c)
  {
  }

  lemma OwnError(s: State, st: Step)
    requires Inv(s) && Enabled(s, st) && (st.Read? || st.Write?)
    ensures Shape(Apply(s, st)) && ErrorAt(Apply(s, st), st.c)
  {
    BrokenStays(s, st, 0);
    BrokenStays(s, st, 1);
  }

  lemma EofStep(s: State, st: Step, c: nat)
    requires Inv(s) && Enabled(s, st) && c < 2
    ensures Shape(Apply(s, st)) && EofAt(Apply(s, st), c)
  {
    if (st.Read? || st.Write?) && st.c == c {
      OwnEnd(s, st);
    } else if ByPeer(st) {
      PeerKeepsPaths(s, st, c);
      PeersShowNothing(s, st, c);
    } else {
      OthersKeepPath(s, st, c);
      OthersShowNothing(s, st, c);
    }
  }

  lemma ErrorStep(s: State, st: Step, c: nat)
    requires Inv(s) && Enabled(s, st) && c < 2
    ensures Shape(Apply(s, st)) && ErrorAt(Apply(s, st), c)
  {
    BrokenStays(s, st, 0);
    BrokenStays(s, st, 1);
    if (st.Read? || st.Write?) && st.c == c {
      OwnError(s, st);
    } else if ByPeer(st) {
      PeersShowNothing(s, st, c);
    } else {
      OthersShowNothing(s, st, c);
    }
  }

  lemma SourcesStep(s: State, st: Step)
    requires Enabled(s, st)
    ensures Shape(Apply(s, st))
    ensures forall i | 0 <= i < 2 :: Apply(s, st).conns[i].source == s.conns[i].source
  {
  }

  lemma StepInv(s: State, st: Step)
    requires Inv(s) && Enabled(s, st)
    ensures Inv(Apply(s, st))
  {
    DeliveredStep(s, st, 0);
    DeliveredStep(s, st, 1);
    OnceStep(s, st);
    EofStep(s, st, 0);
    EofStep(s, st, 1);
    ErrorStep(s, st, 0);
    ErrorStep(s, st, 1);
  }

  lemma {:induction false} RunInv(a: seq<byte>, b: seq<byte>, states: seq<State>, steps: seq<Step>, k: nat)
    requires Run(a, b, states, steps) && k < |states|
    ensures Inv(states[k]) && states[k].conns[0].source == a && states[k].conns[1].source == b
  {
    if k > 0 {
      RunInv(a, b, states, steps, k - 1);
      SourcesStep(states[k - 1], steps[k - 1]);
      StepInv(states[k - 1], steps[k - 1]);
    }
  }

  // What pipe promises -------------------------------------------------------------------------------------

  /** At every moment of every interleaving, what has been written to each end is a prefix of what the other
      end sent; closeBoth has been entered at most once. */
  lemma PipeIsFaithful(a: seq<byte>, b: seq<byte>, states: seq<State>, steps: seq<Step>, k: nat)
    requires Run(a, b, states, steps) && k < |states|
    ensures |states[k].conns| == 2
    ensures states[k].conns[0].written <= b && states[k].conns[1].written <= a
    ensures states[k].closings <= 1
  {
    RunInv(a, b, states, steps, k);
    DeliveredIsPrefix(states[k], 0);
    DeliveredIsPrefix(states[k], 1);
  }

  lemma DeliveredIsPrefix(s: State, c: nat)
    requires Shape(s) && c < 2 && Delivered(s, c)
    ensures To(s, c).written <= From(s, c).source[..From(s, c).read] <= From(s, c).source
  {
  }

  /** When pipe returns, both copiers are done, closeBoth ran exactly once and both ends are closed. The copier
      that ran it stopped at EOF, having delivered every byte its source ever sent, or at an error, and then one of
      the connections has broken: if neither has, nothing of its direction is lost. */
  lemma PipeReturns(a: seq<byte>, b: seq<byte>, states: seq<State>, steps: seq<Step>, k: nat)
    requires Run(a, b, states, steps) && k < |states| && states[k].returned
    ensures var s := states[k];
            && Shape(s) && s.pc == [Finished, Finished] && s.closings == 1
            && s.conns[0].closed && s.conns[1].closed
            && s.once.Ran? && s.once.owner < 2
            && var c := s.once.owner;
               && (s.why[c].Eof? || s.why[c].Error?)
               && (s.why[c].Eof? ==> To(s, c).written == From(s, c).source)
               && (s.why[c].Error? ==> s.conns[0].peer.Broken? || s.conns[1].peer.Broken?)
               && (!s.conns[0].peer.Broken? && !s.conns[1].peer.Broken? ==> To(s, c).written == From(s, c).source)
  {
    RunInv(a, b, states, steps, k);
    var s := states[k];
    var x := From(s, s.once.owner);
    assert x.source[..|x.source|] == x.source;
  }

  /** A copier leaves io.Copy at EOF, or because a connection has broken, or because the other one has closed them. */
  lemma LeavesForAReason(a: seq<byte>, b: seq<byte>, states: seq<State>, steps: seq<Step>, k: nat, c: nat)
    requires Run(a, b, states, steps) && k < |states| && c < 2
    ensures var s := states[k];
            && Shape(s)
            && (!s.pc[c].Reading? && !s.pc[c].Writing? ==>
                  || To(s, c).written == From(s, c).source
                  || s.conns[0].peer.Broken? || s.conns[1].peer.Broken?
                  || s.once == Running(1 - c) || s.once == Ran(1 - c))
  {
    RunInv(a, b, states, steps, k);
    var x := From(states[k], c);
    assert x.source[..|x.source|] == x.source;
  }

  /** Copier c can only wait for a peer: for bytes or an end to read, or for room to write. */
  predicate Waiting(s: State, c: nat)
    requires Shape(s) && c < 2
  {
    match s.pc[c]
    case Reading => From(s, c).arrived == From(s, c).read && From(s, c).peer.Sending? && !From(s, c).closed
    case Writing(_, _) => !To(s, c).peer.Broken? && !To(s, c).closed
    case _ => false
  }

  /** A step the program takes without any peer's help: no peer acts, and no open connection accepts a write. */
  predicate Ready(s: State, st: Step) { Enabled(s, st) && !ByPeer(st) && !(st.Write? && st.ok) }

  /** What copier c can do when it does not wait, the Once permitting. */
  function Move(s: State, c: nat): Step
    requires Shape(s) && c < 2
  {
    match s.pc[c]
    case Reading =>
      var x := From(s, c);
      if x.arrived > x.read then Read(c, x.arrived - x.read, More)
      else if x.peer.Ended? && !x.closed then Read(c, 0, Eof)
      else Read(c, 0, Error)
    case Writing(_, _) => Write(c, 0, false)
    case Copied(_) => Do(c)
    case ClosingA => CloseA(c)
    case ClosingB => CloseB(c)
    case Finished => Return
  }

  lemma MoveIsReady(s: State, c: nat)
    requires Inv(s) && !s.returned && c < 2 && !Waiting(s, c)
    requires s.pc[c].Copied? ==> !s.once.Running?
    requires s.pc[c].Finished? ==> s.pc[1 - c].Finished?
    ensures Ready(s, Move(s, c))
  {
  }

  /** The copier to move next: whoever is inside closeBoth, else one that is not done. */
  function Mover(s: State): nat
    requires Shape(s)
  {
    if s.once.Running? then s.once.owner
    else if s.pc[0].Finished? || Waiting(s, 0) then 1
    else 0
  }

  lemma MoverIsReady(s: State)
    requires Inv(s) && !s.returned && !(Waiting(s, 0) && Waiting(s, 1))
    ensures Mover(s) < 2 && Ready(s, Move(s, Mover(s)))
  {
    var c := Mover(s);
    MoveIsReady(s, c);
  }

  /** Some copier has left io.Copy. */
  predicate Leaving(s: State)
    requires Shape(s)
  {
    exists c | 0 <= c < 2 :: !s.pc[c].Reading? && !s.pc[c].Writing?
  }

  /** pipe stands still exactly while both copiers wait for their peers. In particular the Once cannot deadlock, and
      a copier that leaves io.Copy, for whatever reason, releases the other one. */
  lemma PipeWaitsOnlyForPeers(a: seq<byte>, b: seq<byte>, states: seq<State>, steps: seq<Step>, k: nat)
    requires Run(a, b, states, steps) && k < |states| && !states[k].returned
    ensures var s := states[k];
            && Shape(s)
            && ((exists st :: Ready(s, st)) <==> !(Waiting(s, 0) && Waiting(s, 1)))
            && (Leaving(s) ==> exists st :: Ready(s, st))
  {
    RunInv(a, b, states, steps, k);
    if !(Waiting(states[k], 0) && Waiting(states[k], 1)) {
      MoverIsReady(states[k]);
    }
  }

  /** Work left for copier c, in steps. */
  function Work(s: State, c: nat): nat
    requires Shape(s) && c < 2
  {
    var left := 2 * (|From(s, c).source| - From(s, c).read);
    match s.pc[c]
    case Reading => left + 5
    case Writing(_, _) => left + 6
    case Copied(_) => 4
    case ClosingA => 3
    case ClosingB => 2
    case Finished => 1
  }

  /** What the peer of an end can still do. */
  function PeerWork(x: Conn): nat
    requires ConnShape(x)
  {
    |x.source| - x.arrived + match x.peer case Sending => 2 case Ended => 1 case Broken => 0
  }

  function TotalWork(s: State): nat
    requires Shape(s)
  {
    Work(s, 0) + Work(s, 1) + PeerWork(s.conns[0]) + PeerWork(s.conns[1]) + if s.returned then 0 else 1
  }

  lemma MoverWorks(s: State, st: Step)
    requires Enabled(s, st) && !ByPeer(st) && !st.Return?
    ensures Shape(Apply(s, st)) && Work(Apply(s, st), st.c) < Work(s, st.c)
  {
  }

  lemma OtherWaits(s: State, st: Step)
    requires Enabled(s, st) && !ByPeer(st) && !st.Return?
    ensures Shape(Apply(s, st)) && Work(Apply(s, st), 1 - st.c) == Work(s, 1 - st.c)
  {
  }

  lemma PeersWait(s: State, st: Step, i: nat)
    requires Enabled(s, st) && !ByPeer(st) && i < 2
    ensures Shape(Apply(s, st)) && PeerWork(Apply(s, st).conns[i]) == PeerWork(s.conns[i])
  {
  }

  lemma PeerWorks(s: State, st: Step)
    requires Enabled(s, st) && ByPeer(st)
    ensures Shape(Apply(s, st)) && PeerWork(Apply(s, st).conns[st.i]) < PeerWork(s.conns[st.i])
    ensures Apply(s, st).conns[1 - st.i] == s.conns[1 - st.i]
  {
  }

  lemma CopiersWait(s: State, st: Step, c: nat)
    requires Enabled(s, st) && ByPeer(st) && c < 2
    ensures Shape(Apply(s, st)) && Work(Apply(s, st), c) == Work(s, c)
  {
    PeerKeepsPaths(s, st, c);
  }

  lemma WorkStep(s: State, st: Step)
    requires Enabled(s, st)
    ensures Shape(Apply(s, st)) && TotalWork(Apply(s, st)) < TotalWork(s)
  {
    if ByPeer(st) {
      PeerWorks(s, st);
      CopiersWait(s, st, 0);
      CopiersWait(s, st, 1);
    } else {
      PeersWait(s, st, 0);
      PeersWait(s, st, 1);
      if !st.Return? {
        MoverWorks(s, st);
        OtherWaits(s, st);
      }
    }
  }

  lemma InitWork(a: seq<byte>, b: seq<byte>)
    ensures Shape(Init(a, b)) && TotalWork(Init(a, b)) == 3 * |a| + 3 * |b| + 15
  {
  }

  /** pipe terminates: every step of every run uses up work, so no run is longer than the bytes allow. */
  lemma {:induction false} PipeTerminates(a: seq<byte>, b: seq<byte>, states: seq<State>, steps: seq<Step>, k: nat)
    requires Run(a, b, states, steps) && k < |states|
    ensures Shape(states[k]) && k + TotalWork(states[k]) <= 3 * |a| + 3 * |b| + 15
    decreases k
  {
    if k == 0 {
      InitWork(a, b);
    } else {
      var s, st := states[k - 1], steps[k - 1];
      assert Enabled(s, st) && states[k] == Apply(s, st);
      PipeTerminates(a, b, states, steps, k - 1);
      WorkStep(s, st);
    }
  }

  lemma StaysLeaving(s: State, st: Step)
    requires Enabled(s, st) && Leaving(s)
    ensures Shape(Apply(s, st)) && Leaving(Apply(s, st))
  {
    var c :| 0 <= c < 2 && !s.pc[c].Reading? && !s.pc[c].Writing?;
    assert !Apply(s, st).pc[c].Reading? && !Apply(s, st).pc[c].Writing?;
  }

  /** One step on the way to returning, with no peer's help. */
  lemma Unaided(s: State) returns (st: Step)
    requires Inv(s) && !s.returned && Leaving(s)
    ensures Ready(s, st) && Inv(Apply(s, st)) && Leaving(Apply(s, st)) && TotalWork(Apply(s, st)) < TotalWork(s)
  {
    MoverIsReady(s);
    st := Move(s, Mover(s));
    StepInv(s, st);
    WorkStep(s, st);
    StaysLeaving(s, st);
  }

  lemma Extend(a: seq<byte>, b: seq<byte>, states: seq<State>, steps: seq<Step>, st: Step)
    requires Run(a, b, states, steps) && Enabled(states[|steps|], st)
    ensures Run(a, b, states + [Apply(states[|steps|], st)], steps + [st])
  {
  }

  /** Closing releases the other copier: once a copier has left io.Copy, pipe returns by its own steps alone,
      even if both peers stay silent from then on. */
  lemma PipeReturnsUnaided(a: seq<byte>, b: seq<byte>, states: seq<State>, steps: seq<Step>)
    returns (states': seq<State>, steps': seq<Step>)
    requires Run(a, b, states, steps) && Shape(states[|steps|]) && Leaving(states[|steps|])
    ensures Run(a, b, states', steps') && states <= states' && steps <= steps' && states'[|steps'|].returned
    ensures forall k | |steps| <= k < |steps'| :: Ready(states'[k], steps'[k])
    decreases TotalWork(states[|steps|])
  {
    RunInv(a, b, states, steps, |steps|);
    if states[|steps|].returned {
      return states, steps;
    }
    var st := Unaided(states[|steps|]);
    Extend(a, b, states, steps, st);
    states', steps' := PipeReturnsUnaided(a, b, states + [Apply(states[|steps|], st)], steps + [st]);
  }
}
