/** fragConn (t2tunnel/tls_transport.go): the first Write is chopped into chunks, every later one goes through
    whole. The connection underneath may stop after any part of a call, with an error, as io.Writer allows. */
module Fragment {
  import opened Bytes

  /** The underlying connection: what each of its Write calls accepted. */
  class Sink {
    var calls: seq<seq<byte>>

    constructor ()
      ensures calls == []
    {
      calls := [];
    }

    method Write(b: seq<byte>) returns (n: nat, ok: bool)
      modifies this
      ensures n <= |b| && (ok ==> n == |b|)
      ensures calls == old(calls) + [b[..n]]
    {
      n :| 0 <= n <= |b|;
      ok := false;
      if n == |b| {
        ok :| ok || !ok;
      }
      calls := calls + [b[..n]];
    }
  }

  /** b in pieces of chunk bytes, the last one possibly shorter. */
  function Chunks(b: seq<byte>, chunk: nat): (pieces: seq<seq<byte>>)
    requires chunk > 0
    decreases |b|
  {
    if b == [] then [] else [b[..Min(chunk, |b|)]] + Chunks(b[Min(chunk, |b|)..], chunk)
  }

  lemma {:induction false} ChunksRejoin(b: seq<byte>, chunk: nat)
    requires chunk > 0
    ensures Flatten(Chunks(b, chunk)) == b
    decreases |b|
  {
    if b != [] {
      ChunksRejoin(b[Min(chunk, |b|)..], chunk);
    }
  }

  /** Every piece but the last is exactly chunk bytes, and the last has between 1 and chunk. */
  lemma {:induction false} ChunksSizes(b: seq<byte>, chunk: nat, i: nat)
    requires chunk > 0
    requires i < |Chunks(b, chunk)|
    ensures 0 < |Chunks(b, chunk)[i]| <= chunk
    ensures i + 1 < |Chunks(b, chunk)| ==> |Chunks(b, chunk)[i]| == chunk
    decreases |b|
  {
    if i > 0 {
      ChunksSizes(b[Min(chunk, |b|)..], chunk, i - 1);
    }
  }

  /** ceil(len / chunk) pieces, in the form that needs no division. */
  lemma {:induction false} ChunksCount(b: seq<byte>, chunk: nat)
    requires chunk > 0
    ensures (|Chunks(b, chunk)| - 1) * chunk < |b| || (b == [] && Chunks(b, chunk) == [])
    ensures |b| <= |Chunks(b, chunk)| * chunk
    decreases |b|
  {
    if b != [] {
      ChunksCount(b[Min(chunk, |b|)..], chunk);
    }
  }

  lemma NextChunk(b: seq<byte>, chunk: nat, i: nat, end: nat)
    requires chunk > 0 && i < |b| && end == Min(i + chunk, |b|)
    ensures Chunks(b[i..], chunk) == [b[i..end]] + Chunks(b[end..], chunk)
  {
    assert b[i..][..end - i] == b[i..end];
    assert b[i..][end - i..] == b[end..];
  }

  /** An error stopped a sequence of calls inside one of them: the earlier ones went out whole. */
  predicate StoppedIn(made: seq<seq<byte>>, planned: seq<seq<byte>>) {
    0 < |made| <= |planned|
    && made[..|made| - 1] == planned[..|made| - 1]
    && made[|made| - 1] <= planned[|made| - 1]
  }

  lemma {:induction false} StoppedIsPrefix(made: seq<seq<byte>>, planned: seq<seq<byte>>)
    requires StoppedIn(made, planned)
    ensures Flatten(made) <= Flatten(planned)
    decreases |made|
  {
    if |made| == 1 {
      assert Flatten(made) == made[0] + Flatten([]);
    } else {
      assert made[0] == made[..|made| - 1][0] == planned[..|made| - 1][0];
      assert made[1..][..|made| - 2] == made[..|made| - 1][1..] == planned[1..][..|made| - 2];
      StoppedIsPrefix(made[1..], planned[1..]);
    }
  }

  /** The connection's own state and what the network has seen. */
  datatype FragState = FragState(firstDone: bool, calls: seq<seq<byte>>)

  /** The calls a Write of b sets out to make. */
  function Planned(chunk: int, firstDone: bool, b: seq<byte>): seq<seq<byte>> {
    if firstDone || chunk <= 0 then [b] else Chunks(b, chunk)
  }

  /** What one Write(b) returning (total, ok) may do. */
  predicate WriteStep(chunk: int, s: FragState, b: seq<byte>, total: nat, ok: bool, s': FragState) {
    && s'.firstDone == (s.firstDone || chunk > 0)
    && s.calls <= s'.calls
    && var made := s'.calls[|s.calls|..];
       var planned := Planned(chunk, s.firstDone, b);
       (if ok then made == planned else StoppedIn(made, planned)) && total == |Flatten(made)|
  }

  lemma WholeCall(chunk: int, s: FragState, b: seq<byte>, n: nat, ok: bool)
    requires s.firstDone || chunk <= 0
    requires n <= |b| && (ok ==> n == |b|)
    ensures WriteStep(chunk, s, b, n, ok, FragState(s.firstDone, s.calls + [b[..n]]))
  {
    assert (s.calls + [b[..n]])[|s.calls|..] == [b[..n]];
    assert Flatten([b[..n]]) == b[..n] + Flatten([]);
    assert b[..|b|] == b;
  }

  /** The loop of a first Write, stopped by an error in the piece after done. */
  lemma StoppedChunk(chunk: int, s: FragState, b: seq<byte>, done: seq<seq<byte>>, piece: seq<byte>, tail: seq<seq<byte>>, n: nat)
    requires !s.firstDone && chunk > 0
    requires Chunks(b, chunk) == done + ([piece] + tail)
    requires n <= |piece|
    ensures WriteStep(chunk, s, b, |Flatten(done)| + n, false, FragState(true, s.calls + (done + [piece[..n]])))
  {
    var made := done + [piece[..n]];
    assert (s.calls + made)[|s.calls|..] == made;
    assert made[..|made| - 1] == done == Chunks(b, chunk)[..|done|];
    FlattenSnoc(done, piece[..n]);
  }

  /** A turn of the loop that goes on. */
  lemma ChunkDone(chunk: int, s: FragState, b: seq<byte>, done: seq<seq<byte>>, i: nat, end: nat)
    requires chunk > 0 && i < |b| && end == Min(i + chunk, |b|)
    requires i == |Flatten(done)| && Chunks(b, chunk) == done + Chunks(b[i..], chunk)
    ensures var piece := b[i..end];
            && (s.calls + done) + [piece[..|piece|]] == s.calls + (done + [piece])
            && |Flatten(done + [piece])| == end
            && Chunks(b, chunk) == (done + [piece]) + Chunks(b[end..], chunk)
  {
    var piece := b[i..end];
    assert piece[..|piece|] == piece;
    Assoc(s.calls, done, [piece]);
    FlattenSnoc(done, piece);
    NextChunk(b, chunk, i, end);
    Assoc(done, [piece], Chunks(b[end..], chunk));
  }

  /** A turn of the loop that an error stops. */
  lemma ChunkStops(chunk: int, s: FragState, b: seq<byte>, done: seq<seq<byte>>, i: nat, end: nat, n: nat)
    requires !s.firstDone && chunk > 0 && i < |b| && end == Min(i + chunk, |b|) && n <= end - i
    requires i == |Flatten(done)| && Chunks(b, chunk) == done + Chunks(b[i..], chunk)
    ensures WriteStep(chunk, s, b, i + n, false, FragState(true, (s.calls + done) + [b[i..end][..n]]))
  {
    NextChunk(b, chunk, i, end);
    StoppedChunk(chunk, s, b, done, b[i..end], Chunks(b[end..], chunk), n);
    Assoc(s.calls, done, [b[i..end][..n]]);
  }

  lemma AllChunks(chunk: int, s: FragState, b: seq<byte>)
    requires !s.firstDone && chunk > 0
    ensures WriteStep(chunk, s, b, |b|, true, FragState(true, s.calls + Chunks(b, chunk)))
  {
  }

  class FragConn {
    const conn: Sink
    const chunk: int
    var firstDone: bool

    constructor (conn: Sink, chunk: int)
      ensures this.conn == conn && this.chunk == chunk && !firstDone
    {
      this.conn, this.chunk, firstDone := conn, chunk, false;
    }

    ghost function State(): FragState
      reads this, conn
    {
      FragState(firstDone, conn.calls)
    }

    method Write(b: seq<byte>) returns (total: nat, ok: bool)
      modifies this, conn
      ensures WriteStep(chunk, old(State()), b, total, ok, State())
    {
      if firstDone || chunk <= 0 {
        ghost var s := State();
        total, ok := conn.Write(b);
        WholeCall(chunk, s, b, total, ok);
        return;
      }
      total, ok := FirstWrite(b);
    }

    /** The rest of Write: the first one, in chunks. */
    method FirstWrite(b: seq<byte>) returns (total: nat, ok: bool)
      requires !firstDone && chunk > 0
      modifies this, conn
      ensures WriteStep(chunk, old(State()), b, total, ok, State())
    {
      ghost var s := State();
      firstDone := true;
      total := 0;
      ghost var done: seq<seq<byte>> := [];
      var i := 0;
      while i < |b|
        invariant total == Min(i, |b|) == |Flatten(done)|
        invariant firstDone && conn.calls == s.calls + done
        invariant Chunks(b, chunk) == done + Chunks(b[total..], chunk)
      {
        var end := i + chunk;
        if end > |b| {
          end := |b|;
        }
        var n;
        n, ok := conn.Write(b[i..end]);
        if !ok {
          ChunkStops(chunk, s, b, done, i, end, n);
          total := total + n;
          return;
        }
        ChunkDone(chunk, s, b, done, i, end);
        total := total + n;
        done := done + [b[i..end]];
        i := i + chunk;
      }
      ok := true;
      assert done == Chunks(b, chunk);
      AllChunks(chunk, s, b);
    }
  }

  // The life of one fragConn ---------------------------------------------------------------------------

  datatype Call = Call(b: seq<byte>, total: nat, ok: bool)

  ghost predicate Life(chunk: int, states: seq<FragState>, calls: seq<Call>) {
    |states| == |calls| + 1 && states[0] == FragState(false, [])
    && forall k | 0 <= k < |calls| ::
         WriteStep(chunk, states[k], calls[k].b, calls[k].total, calls[k].ok, states[k + 1])
  }

  /** What the callers were told had been accepted. */
  function Accepted(calls: seq<Call>): seq<byte> {
    if calls == [] then []
    else var c := calls[|calls| - 1]; Accepted(calls[..|calls| - 1]) + c.b[..Min(c.total, |c.b|)]
  }

  /** One Write hands over exactly b[..total], and all of b when it reports success. */
  lemma StepAccepts(chunk: int, s: FragState, b: seq<byte>, total: nat, ok: bool, s': FragState)
    requires WriteStep(chunk, s, b, total, ok, s')
    ensures total <= |b| && (ok ==> total == |b|)
    ensures Flatten(s'.calls) == Flatten(s.calls) + b[..total]
  {
    var made, planned := s'.calls[|s.calls|..], Planned(chunk, s.firstDone, b);
    if s.firstDone || chunk <= 0 {
      assert Flatten([b]) == b + Flatten([]);
    } else {
      ChunksRejoin(b, chunk);
    }
    if !ok {
      StoppedIsPrefix(made, planned);
    }
    FlattenConcat(s.calls, made);
    assert s.calls + made == s'.calls;
  }

  /** Fragmentation is invisible: whatever errors occur, the network has seen the accepted bytes in order. */
  lemma {:induction false} LifeIsInvisible(chunk: int, states: seq<FragState>, calls: seq<Call>, k: nat)
    requires Life(chunk, states, calls) && k <= |calls|
    ensures Flatten(states[k].calls) == Accepted(calls[..k])
  {
    if k > 0 {
      LifeIsInvisible(chunk, states, calls, k - 1);
      var c := calls[k - 1];
      StepAccepts(chunk, states[k - 1], c.b, c.total, c.ok, states[k]);
      assert calls[..k][..k - 1] == calls[..k - 1];
    }
  }

  /** Only the first Write is split: into ceil(len / chunk) pieces if it succeeds; every other Write,
      successful or not, is one call. */
  lemma {:induction false} OnlyFirstIsSplit(chunk: int, states: seq<FragState>, calls: seq<Call>, k: nat)
    requires Life(chunk, states, calls) && k < |calls|
    ensures states[k].firstDone <==> chunk > 0 && k > 0
    ensures calls[k].total <= |calls[k].b|
    ensures k > 0 || chunk <= 0 ==> states[k + 1].calls == states[k].calls + [calls[k].b[..calls[k].total]]
    ensures k == 0 && chunk > 0 && calls[0].ok ==> states[1].calls == Chunks(calls[0].b, chunk)
  {
    if k > 0 {
      OnlyFirstIsSplit(chunk, states, calls, k - 1);
    }
    var s, c, s' := states[k], calls[k], states[k + 1];
    StepAccepts(chunk, s, c.b, c.total, c.ok, s');
    var made := s'.calls[|s.calls|..];
    assert s'.calls == s.calls + made;
    if k > 0 || chunk <= 0 {
      assert made == [made[0]] && made[0] <= c.b;
      assert Flatten(made) == made[0] + Flatten([]);
      assert made[0] == c.b[..c.total];
    }
  }
}
