/** The multi-path failover client (t2tunnel/multipath.go): what getSession and markFailed compute, on values.
    Times are nanoseconds of a monotone clock; what the network does (does the server answer, when) is an
    argument. */
module MultiPath {

  datatype Maybe<T> = Nothing | Just(value: T)

  const COOL_OFF := 30_000_000_000

  /** lastFail: the zero time.Time lies further back than any cool-off. */
  datatype FailTime = Never | At(t: nat)

  datatype Server = Server(failCount: int, lastFail: FailTime)

  /** A smux session: the server it was dialled on, and its monotone closed flag. */
  datatype Sess = Sess(server: nat, closed: bool)

  /** current is the preferred server; session and sessionSrv are m.session and m.sessionSrv, as positions
      in sessions (every session ever opened) and in servers. */
  datatype Client = Client(
    servers: seq<Server>, current: nat, session: Maybe<nat>, sessionSrv: Maybe<nat>, sessions: seq<Sess>)

  predicate WellFormed(c: Client) {
    && (c.servers != [] ==> c.current < |c.servers|)
    && (c.session.Just? ==> c.session.value < |c.sessions|)
    && (c.sessionSrv.Just? ==> c.sessionSrv.value < |c.servers|)
  }

  function NewClient(n: nat): Client {
    Client(seq(n, _ => Server(0, Never)), 0, Nothing, Nothing, [])
  }

  /** atomic.AddInt32(&x, 1): wraps around. */
  function AddInt32(x: int): int { if x == 0x7fff_ffff then -0x8000_0000 else x + 1 }

  function Charge(s: Server, now: nat): Server { Server(AddInt32(s.failCount), At(now)) }

  /** The skip test of the getSession loop. */
  predicate Quarantined(s: Server, now: nat) {
    s.lastFail.At? && now - s.lastFail.t < COOL_OFF && s.failCount >= 3
  }

  datatype Reach = DialFails | SmuxFails | Connects

  /** What one turn of the loop meets: the clock at the skip test, the outcome of dialling there (consulted
      only if the server is not skipped), and the clock when that outcome is known. */
  datatype Visit = Visit(checkAt: nat, reach: Reach, doneAt: nat)

  // The cyclic order ---------------------------------------------------------------------------------

  /** The i-th server tried, starting at start: (start + i) % n, in the form that needs no division. */
  function Nth(start: nat, i: nat, n: nat): (j: nat)
    requires start < n && i < n
    ensures j < n
  {
    if start + i < n then start + i else start + i - n
  }

  /** When server j is tried. */
  function Turn(start: nat, j: nat, n: nat): (i: nat)
    requires start < n && j < n
    ensures i < n
  {
    if j >= start then j - start else j + n - start
  }

  lemma NthIsMod(start: nat, i: nat, n: nat)
    requires start < n && i < n
    ensures (start + i) % n == Nth(start, i, n)
  {
    var x := start + i;
    var q := x / n;
    assert x == n * q + x % n;
    if q >= 2 {
      MulAtLeast(n, q);
    } else if q == 1 {
      assert n * q == n;
    }
  }

  lemma MulAtLeast(n: nat, q: nat)
    requires q >= 2
    ensures n * q >= 2 * n
  {
    assert n * q == n * (q - 2) + 2 * n;
  }

  /** The loop visits every server exactly once: Turn is the inverse of Nth. */
  lemma EachServerOnce(start: nat, n: nat)
    requires start < n
    ensures forall i | 0 <= i < n :: Turn(start, Nth(start, i, n), n) == i
    ensures forall j | 0 <= j < n :: Nth(start, Turn(start, j, n), n) == j
  {
  }

  // getSession ----------------------------------------------------------------------------------------

  predicate Scannable(c: Client, visits: seq<Visit>) { WellFormed(c) && |visits| == |c.servers| }

  function Tried(c: Client, i: nat): nat
    requires WellFormed(c) && i < |c.servers|
  {
    Nth(c.current, i, |c.servers|)
  }

  /** Turn i dials: its server is not in quarantine. */
  predicate Dials(c: Client, visits: seq<Visit>, i: nat)
    requires Scannable(c, visits) && i < |c.servers|
  {
    !Quarantined(c.servers[Tried(c, i)], visits[i].checkAt)
  }

  /** Turn i yields a session. */
  predicate Usable(c: Client, visits: seq<Visit>, i: nat)
    requires Scannable(c, visits) && i < |c.servers|
  {
    Dials(c, visits, i) && visits[i].reach.Connects?
  }

  /** The first usable turn from i on, or the number of servers if there is none. */
  function FirstUsable(c: Client, visits: seq<Visit>, i: nat): (k: nat)
    requires Scannable(c, visits) && i <= |c.servers|
    ensures i <= k <= |c.servers|
    decreases |c.servers| - i
  {
    if i == |c.servers| || Usable(c, visits, i) then i else FirstUsable(c, visits, i + 1)
  }

  lemma {:induction false} FirstUsableIsFirst(c: Client, visits: seq<Visit>, i: nat)
    requires Scannable(c, visits) && i <= |c.servers|
    ensures var k := FirstUsable(c, visits, i);
            && (k < |c.servers| ==> Usable(c, visits, k))
            && (forall j | i <= j < k :: !Usable(c, visits, j))
    decreases |c.servers| - i
  {
    if i < |c.servers| && !Usable(c, visits, i) {
      FirstUsableIsFirst(c, visits, i + 1);
    }
  }

  /** The servers after the first stop turns, none of which was usable: exactly the dialled ones have been
      charged one failure each. */
  function AfterTurns(c: Client, visits: seq<Visit>, stop: nat): (servers: seq<Server>)
    requires Scannable(c, visits) && stop <= |c.servers|
    ensures |servers| == |c.servers|
  {
    seq(|c.servers|, j requires 0 <= j < |c.servers| =>
      var i := Turn(c.current, j, |c.servers|);
      if i < stop && Dials(c, visits, i) then Charge(c.servers[j], visits[i].doneAt) else c.servers[j])
  }

  datatype Got = Got(session: nat, server: Maybe<nat>) | AllServersDown

  /** m.session is there and not closed. */
  predicate Live(c: Client)
    requires WellFormed(c)
  {
    c.session.Just? && !c.sessions[c.session.value].closed
  }

  /** A new session on server j becomes the current one, and j the preferred server with a clean count. */
  function Adopt(c: Client, j: nat): Client
    requires j < |c.servers|
  {
    Client(c.servers[j := c.servers[j].(failCount := 0)], j, Just(|c.sessions|), Just(j), c.sessions + [Sess(j, false)])
  }

  /** getSession: the live session if there is one; otherwise the first usable server in cyclic order. */
  function GetSession(c: Client, visits: seq<Visit>): (r: (Client, Got))
    requires Scannable(c, visits)
  {
    if Live(c) then (c, Got(c.session.value, c.sessionSrv)) else
    var n := |c.servers|;
    var k := FirstUsable(c, visits, 0);
    var servers := AfterTurns(c, visits, k);
    if k == n then (c.(servers := servers), AllServersDown)
    else (Adopt(c.(servers := servers), Tried(c, k)), Got(|c.sessions|, Just(Tried(c, k))))
  }

  lemma GetStops(c: Client, visits: seq<Visit>, k: nat)
    requires Scannable(c, visits) && !Live(c) && k <= |c.servers|
    requires FirstUsable(c, visits, 0) == FirstUsable(c, visits, k) && (k < |c.servers| ==> Usable(c, visits, k))
    ensures var (c', got) := GetSession(c, visits);
            var tried := c.(servers := AfterTurns(c, visits, k));
            if k < |c.servers|
            then c' == Adopt(tried, Tried(c, k)) && got == Got(|c.sessions|, Just(Tried(c, k)))
            else c' == tried && got == AllServersDown
  {
  }

  /** markFailed: charge the server, close whatever session is current. */
  function MarkFailed(c: Client, server: nat, now: nat): Client
    requires WellFormed(c) && server < |c.servers|
  {
    var charged := c.(servers := c.servers[server := Charge(c.servers[server], now)]);
    if c.session.Nothing? then charged
    else charged.(session := Nothing,
                  sessions := c.sessions[c.session.value := c.sessions[c.session.value].(closed := true)])
  }

  /** One turn of the loop, in terms of what the earlier turns left: its server has not been touched yet. */
  lemma TurnStep(c: Client, visits: seq<Visit>, i: nat)
    requires Scannable(c, visits) && i < |c.servers|
    ensures var j := Tried(c, i);
            && AfterTurns(c, visits, i)[j] == c.servers[j]
            && (!Dials(c, visits, i) ==> AfterTurns(c, visits, i + 1) == AfterTurns(c, visits, i))
            && (Dials(c, visits, i) ==>
                  AfterTurns(c, visits, i + 1) == AfterTurns(c, visits, i)[j := Charge(c.servers[j], visits[i].doneAt)])
  {
    EachServerOnce(c.current, |c.servers|);
  }

  /** getSession with a live session: that session and its server, whatever the servers' state; nothing is dialled
      and nothing changes. */
  lemma LiveSessionReused(c: Client, visits: seq<Visit>)
    requires Scannable(c, visits) && c.session.Just? && !c.sessions[c.session.value].closed
    ensures GetSession(c, visits) == (c, Got(c.session.value, c.sessionSrv))
  {
  }

  /** What the skip test is for: a server rests for 30 s after its latest failure once it has failed three times. */
  predicate Resting(s: Server, now: nat) {
    match s.lastFail
    case Never => false
    case At(t) => now < t + 30_000_000_000 && 3 <= s.failCount
  }

  /** getSession without a live session: the first server in cyclic order that neither rests nor fails to
      connect is returned, preferred from now on and forgiven; every server dialled before it is charged
      once, every other server is left as it was. All servers down is reported exactly when each of
      them was skipped or failed in this very call. */
  lemma FirstUsableInCyclicOrder(c: Client, visits: seq<Visit>)
    requires Scannable(c, visits) && !Live(c)
    ensures var (c', got) := GetSession(c, visits);
            && (got == AllServersDown <==>
                  forall i | 0 <= i < |c.servers| ::
                    Resting(c.servers[Tried(c, i)], visits[i].checkAt) || visits[i].reach != Connects)
            && |c'.servers| == |c.servers|
            && (got == AllServersDown ==> c' == c.(servers := c'.servers))
            && (got == AllServersDown ==> forall j | 0 <= j < |c.servers| ::
                  var i := Turn(c.current, j, |c.servers|);
                  c'.servers[j] == if Resting(c.servers[j], visits[i].checkAt) then c.servers[j]
                                   else Charge(c.servers[j], visits[i].doneAt))
            && (got.Got? ==>
                  && got.session == |c.sessions| && c'.sessions == c.sessions + [Sess(c'.current, false)]
                  && c'.session == Just(got.session) && c'.sessionSrv == got.server == Just(c'.current)
                  && c'.current < |c.servers|
                  && var k := Turn(c.current, c'.current, |c.servers|);
                     && visits[k].reach == Connects && !Resting(c.servers[c'.current], visits[k].checkAt)
                     && (forall i | 0 <= i < k ::
                           Resting(c.servers[Tried(c, i)], visits[i].checkAt) || visits[i].reach != Connects)
                     && c'.servers[c'.current] == c.servers[c'.current].(failCount := 0)
                     && forall j | 0 <= j < |c.servers| && j != c'.current ::
                          var i := Turn(c.current, j, |c.servers|);
                          c'.servers[j] == if i < k && !Resting(c.servers[j], visits[i].checkAt)
                                           then Charge(c.servers[j], visits[i].doneAt) else c.servers[j])
  {
    FirstUsableIsFirst(c, visits, 0);
    forall i | 0 <= i < |c.servers|
      ensures Usable(c, visits, i) <==> visits[i].reach == Connects && !Resting(c.servers[Tried(c, i)], visits[i].checkAt)
    {
    }
    if c.servers != [] {
      EachServerOnce(c.current, |c.servers|);
    }
  }
}
