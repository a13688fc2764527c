/** What the failure counters mean over whole runs of the failover client (t2tunnel/multipath.go): they
    summarise the history, the skip test is a statement about it, and dials are rate-limited. */
module Quarantine {
  import opened Bytes
  import opened MultiPath
  import opened MultiPathRuns

  /** Failures of server j, dials and reports alike, since its last successful connect. */
  function FailsSince(h: seq<Event>, j: nat): nat {
    if h == [] then 0 else
    var rest, e := h[..|h| - 1], h[|h| - 1];
    if e.server != j then FailsSince(rest, j)
    else if e.Dial? && e.ok then 0
    else FailsSince(rest, j) + 1
  }

  function LastFailure(h: seq<Event>, j: nat): FailTime {
    if h == [] then Never else
    var rest, e := h[..|h| - 1], h[|h| - 1];
    if e.server != j || (e.Dial? && e.ok) then LastFailure(rest, j) else At(End(e))
  }

  /** The value of an int32 counter after n increments from zero. */
  function Int32(n: nat): int { (n + 0x8000_0000) % 0x1_0000_0000 - 0x8000_0000 }

  lemma Int32Successor(n: nat)
    ensures Int32(n + 1) == AddInt32(Int32(n))
    ensures n < 0x8000_0000 ==> Int32(n) == n
    ensures Int32(n) >= 3 <==> 3 <= n % 0x1_0000_0000 < 0x8000_0000
  {
  }

  function Summary(h: seq<Event>, j: nat): Server { Server(Int32(FailsSince(h, j)), LastFailure(h, j)) }

  predicate Summarises(servers: seq<Server>, h: seq<Event>) {
    forall j | 0 <= j < |servers| :: servers[j] == Summary(h, j)
  }

  /** No server was ever dialled while in quarantine. */
  predicate Disciplined(h: seq<Event>) {
    forall p | 0 <= p < |h| && h[p].Dial? :: !Quarantined(Summary(h[..p], h[p].server), h[p].startAt)
  }

  /** The history is in time order, and over by now. */
  predicate Ordered(h: seq<Event>, now: nat) {
    && (forall p | 0 <= p < |h| :: Start(h[p]) <= End(h[p]) <= now)
    && (forall p, q | 0 <= p < q < |h| :: End(h[p]) <= Start(h[q]))
  }

  /** One more failure of j is one more charge; a successful connect of j forgives it. */
  lemma SummarySnoc(h: seq<Event>, e: Event, j: nat)
    ensures e.server != j ==> Summary(h + [e], j) == Summary(h, j)
    ensures e.server == j && !(e.Dial? && e.ok) ==> Summary(h + [e], j) == Charge(Summary(h, j), End(e))
    ensures e.server == j && e.Dial? && e.ok ==> Summary(h + [e], j) == Summary(h, j).(failCount := 0)
  {
    assert (h + [e])[..|h|] == h;
    Int32Successor(FailsSince(h, j));
  }

  lemma SummariesSnoc(servers: seq<Server>, h: seq<Event>, e: Event)
    requires Summarises(servers, h) && e.server < |servers|
    ensures e.Dial? && e.ok ==> Summarises(servers[e.server := servers[e.server].(failCount := 0)], h + [e])
    ensures !(e.Dial? && e.ok) ==> Summarises(servers[e.server := Charge(servers[e.server], End(e))], h + [e])
  {
    forall j | 0 <= j < |servers| {
      SummarySnoc(h, e, j);
    }
  }

  lemma DisciplinedSnoc(h: seq<Event>, e: Event)
    requires Disciplined(h)
    requires e.Dial? ==> !Quarantined(Summary(h, e.server), e.startAt)
    ensures Disciplined(h + [e])
  {
    forall p | 0 <= p < |h| + 1 && (h + [e])[p].Dial?
      ensures !Quarantined(Summary((h + [e])[..p], (h + [e])[p].server), (h + [e])[p].startAt)
    {
      assert (h + [e])[..p] == h[..p];
      assert h[..|h|] == h;
    }
  }

  predicate Kept(servers: seq<Server>, h: seq<Event>, now: nat) {
    Summarises(servers, h) && Disciplined(h) && Ordered(h, now)
  }

  /** One more event, allowed by the skip test and later than everything before it. */
  lemma EventKept(servers: seq<Server>, h: seq<Event>, now: nat, e: Event)
    requires Kept(servers, h, now) && e.server < |servers| && now <= Start(e) <= End(e)
    requires e.Dial? ==> !Quarantined(servers[e.server], e.startAt)
    ensures e.Dial? && e.ok ==> Kept(servers[e.server := servers[e.server].(failCount := 0)], h + [e], End(e))
    ensures !(e.Dial? && e.ok) ==> Kept(servers[e.server := Charge(servers[e.server], End(e))], h + [e], End(e))
  {
    SummariesSnoc(servers, h, e);
    DisciplinedSnoc(h, e);
  }

  lemma KeptLater(servers: seq<Server>, h: seq<Event>, now: nat, until: nat)
    requires Kept(servers, h, now) && now <= until
    ensures Kept(servers, h, until)
  {
  }

  /** The clock after the first i turns. */
  function ClockAfter(now: nat, visits: seq<Visit>, i: nat): nat
    requires i <= |visits|
  {
    if i == 0 then now else visits[i - 1].doneAt
  }

  predicate KeptAfter(c: Client, visits: seq<Visit>, h: seq<Event>, now: nat, i: nat)
    requires Scannable(c, visits) && i <= |c.servers|
  {
    Kept(AfterTurns(c, visits, i), h + DialEvents(c, visits, i), ClockAfter(now, visits, i))
  }

  lemma NoTurns(c: Client, visits: seq<Visit>, h: seq<Event>, now: nat)
    requires Scannable(c, visits) && Kept(c.servers, h, now)
    ensures KeptAfter(c, visits, h, now, 0)
  {
    assert h + [] == h;
    assert AfterTurns(c, visits, 0) == c.servers;
  }

  lemma TurnInOrder(c: Client, visits: seq<Visit>, now: nat, until: nat, i: nat)
    requires Scannable(c, visits) && Clocked(now, visits, until) && i < FirstUsable(c, visits, 0)
    ensures !Usable(c, visits, i) && ClockAfter(now, visits, i) <= visits[i].checkAt <= visits[i].doneAt
  {
    FirstUsableIsFirst(c, visits, 0);
  }

  /** The turns of a getSession loop keep counters, history and discipline together. */
  lemma {:induction false} TurnsKeepHistory(c: Client, visits: seq<Visit>, h: seq<Event>, now: nat, until: nat, i: nat)
    requires Scannable(c, visits) && Clocked(now, visits, until) && i <= FirstUsable(c, visits, 0)
    requires Kept(c.servers, h, now)
    ensures KeptAfter(c, visits, h, now, i)
    decreases i
  {
    if i == 0 {
      NoTurns(c, visits, h, now);
    } else {
      TurnsKeepHistory(c, visits, h, now, until, i - 1);
      TurnInOrder(c, visits, now, until, i - 1);
      TurnKeepsHistory(c, visits, h, now, i - 1);
    }
  }

  lemma TurnKeepsHistory(c: Client, visits: seq<Visit>, h: seq<Event>, now: nat, i: nat)
    requires Scannable(c, visits) && i < |c.servers| && !Usable(c, visits, i)
    requires ClockAfter(now, visits, i) <= visits[i].checkAt <= visits[i].doneAt
    requires KeptAfter(c, visits, h, now, i)
    ensures KeptAfter(c, visits, h, now, i + 1)
  {
    if Dials(c, visits, i) {
      FailedTurnKept(c, visits, h, now, i);
    } else {
      SkippedTurnKept(c, visits, h, now, i);
    }
  }

  lemma FailedTurnKept(c: Client, visits: seq<Visit>, h: seq<Event>, now: nat, i: nat)
    requires Scannable(c, visits) && i < |c.servers| && Dials(c, visits, i) && !visits[i].reach.Connects?
    requires ClockAfter(now, visits, i) <= visits[i].checkAt <= visits[i].doneAt
    requires KeptAfter(c, visits, h, now, i)
    ensures KeptAfter(c, visits, h, now, i + 1)
  {
    var e := Dial(Tried(c, i), visits[i].checkAt, visits[i].doneAt, false);
    TurnStep(c, visits, i);
    Assoc(h, DialEvents(c, visits, i), [e]);
    EventKept(AfterTurns(c, visits, i), h + DialEvents(c, visits, i), ClockAfter(now, visits, i), e);
  }

  lemma SkippedTurnKept(c: Client, visits: seq<Visit>, h: seq<Event>, now: nat, i: nat)
    requires Scannable(c, visits) && i < |c.servers| && !Dials(c, visits, i)
    requires ClockAfter(now, visits, i) <= visits[i].checkAt <= visits[i].doneAt
    requires KeptAfter(c, visits, h, now, i)
    ensures KeptAfter(c, visits, h, now, i + 1)
  {
    TurnStep(c, visits, i);
    Assoc(h, DialEvents(c, visits, i), []);
    assert DialEvents(c, visits, i) + [] == DialEvents(c, visits, i);
    KeptLater(AfterTurns(c, visits, i), h + DialEvents(c, visits, i), ClockAfter(now, visits, i), visits[i].doneAt);
  }

  /** The turn that connects. */
  lemma ConnectKeepsHistory(c: Client, visits: seq<Visit>, h: seq<Event>, now: nat, k: nat)
    requires Scannable(c, visits) && k < |c.servers| && Usable(c, visits, k)
    requires ClockAfter(now, visits, k) <= visits[k].checkAt <= visits[k].doneAt
    requires KeptAfter(c, visits, h, now, k)
    ensures Kept(Adopt(c.(servers := AfterTurns(c, visits, k)), Tried(c, k)).servers,
                 h + DialEvents(c, visits, k + 1), visits[k].doneAt)
  {
    var before := h + DialEvents(c, visits, k);
    TurnStep(c, visits, k);
    var e := Dial(Tried(c, k), visits[k].checkAt, visits[k].doneAt, true);
    assert h + DialEvents(c, visits, k + 1) == before + [e];
    EventKept(AfterTurns(c, visits, k), before, ClockAfter(now, visits, k), e);
  }

  /** getSession in terms of its turns. */
  lemma GetIsTurns(c: Client, visits: seq<Visit>)
    requires Scannable(c, visits) && !Live(c)
    ensures var k := FirstUsable(c, visits, 0);
            && (k == |c.servers| ==> GetSession(c, visits).0.servers == AfterTurns(c, visits, k)
                                     && GetEvents(c, visits) == DialEvents(c, visits, k))
            && (k < |c.servers| ==> GetSession(c, visits).0 == Adopt(c.(servers := AfterTurns(c, visits, k)), Tried(c, k))
                                    && GetEvents(c, visits) == DialEvents(c, visits, k + 1) && Usable(c, visits, k))
  {
    FirstUsableIsFirst(c, visits, 0);
  }

  lemma GetKeepsHistory(c: Client, visits: seq<Visit>, h: seq<Event>, now: nat, until: nat)
    requires Scannable(c, visits) && Clocked(now, visits, until)
    requires Kept(c.servers, h, now)
    ensures Kept(GetSession(c, visits).0.servers, h + GetEvents(c, visits), until)
  {
    if Live(c) {
      assert h + [] == h;
      KeptLater(c.servers, h, now, until);
    } else {
      var k := FirstUsable(c, visits, 0);
      GetIsTurns(c, visits);
      TurnsKeepHistory(c, visits, h, now, until, k);
      var last := ClockAfter(now, visits, k);
      if k < |c.servers| {
        ConnectKeepsHistory(c, visits, h, now, k);
        last := visits[k].doneAt;
      }
      KeptLater(GetSession(c, visits).0.servers, h + GetEvents(c, visits), last, until);
    }
  }

  lemma {:induction false} RunHistory(n: nat, worlds: seq<World>, steps: seq<Step>, k: nat)
    requires Run(n, worlds, steps) && k < |worlds|
    ensures Kept(worlds[k].client.servers, worlds[k].history, worlds[k].now)
  {
    if k > 0 {
      var w, st := worlds[k - 1], steps[k - 1];
      RunHistory(n, worlds, steps, k - 1);
      match st
      case Get(visits, until) =>
        GetKeepsHistory(w.client, visits, w.history, w.now, until);
      case ReportFailure(i, at) =>
        EventKept(w.client.servers, w.history, w.now, Report(w.holders[i].server, at));
      case Tick(_) =>
      case Die(_) =>
      case OpenStream(_) =>
    }
  }

  /** Quarantine refines history: in every reachable state the skip test on server j holds exactly when its
      latest failure is under 30 s old and it has failed at least 3 times since its last successful
      connect. The int32 counter adds a proviso: the count is taken modulo 2^32 and must be below 2^31,
      so after 2^31 failures in a row the quarantine is lifted. */
  lemma QuarantineMeansHistory(n: nat, worlds: seq<World>, steps: seq<Step>, k: nat, j: nat, now: nat)
    requires Run(n, worlds, steps) && k < |worlds| && j < |worlds[k].client.servers|
    ensures var w := worlds[k];
            var fails, last := FailsSince(w.history, j), LastFailure(w.history, j);
            && w.client.servers[j].lastFail == last
            && (fails < 0x8000_0000 ==> w.client.servers[j].failCount == fails)
            && (Quarantined(w.client.servers[j], now) <==>
                  last.At? && now - last.t < 30_000_000_000 && 3 <= fails % 0x1_0000_0000 < 0x8000_0000)
  {
    RunHistory(n, worlds, steps, k);
    Int32Successor(FailsSince(worlds[k].history, j));
  }

  /** A failure report counts against the server whose session failed, and against no other. */
  lemma ReportCounts(w: World, i: nat, at: nat, j: nat)
    requires OneLive(w) && Enabled(w, ReportFailure(i, at))
    ensures var h, h' := w.history, Apply(w, ReportFailure(i, at)).history;
            var failed := w.client.sessions[w.holders[i].session].server;
            && FailsSince(h', j) == FailsSince(h, j) + (if j == failed then 1 else 0)
            && LastFailure(h', j) == (if j == failed then At(at) else LastFailure(h, j))
  {
    ReportCloses(w, i, at);
    var e := Report(w.holders[i].server, at);
    assert (w.history + [e])[..|w.history|] == w.history;
  }

  // The dial rate -----------------------------------------------------------------------------------------

  function DialsTo(h: seq<Event>, j: nat): nat {
    if h == [] then 0
    else DialsTo(h[..|h| - 1], j) + if h[|h| - 1].Dial? && h[|h| - 1].server == j then 1 else 0
  }

  lemma {:induction false} FailureIsPast(h: seq<Event>, now: nat, j: nat)
    requires Ordered(h, now)
    ensures LastFailure(h, j).At? ==> LastFailure(h, j).t <= now
    decreases |h|
  {
    if h != [] {
      FailureIsPast(h[..|h| - 1], now, j);
    }
  }

  /** A stretch of events in which no dial of j succeeds, all of its events on j within time t after t0. */
  predicate Window(w: seq<Event>, j: nat, t0: nat, t: nat) {
    forall p | 0 <= p < |w| && w[p].server == j :: t0 <= Start(w[p]) <= t0 + t && !(w[p].Dial? && w[p].ok)
  }

  /** The int32 counter stays non-negative while it counts up from f0 failures to f1. */
  predicate Unwrapped(f0: nat, f1: nat) { forall f | f0 <= f < f1 :: Int32(f) >= 0 }

  lemma {:induction false} CountsUp(f0: nat, f: nat)
    requires f0 <= f && Unwrapped(f0, f + 1)
    ensures Int32(f) == Int32(f0) + (f - f0)
    decreases f
  {
    if f0 < f {
      CountsUp(f0, f - 1);
      Int32Successor(f - 1);
    }
  }

  /** Since the count stood at f0, d dials of a server in a row have failed: each dial after the third came a whole
      cool-off after the failure before it. */
  predicate Pushed(s: Server, f0: nat, fails: nat, d: nat, t0: nat, t: nat) {
    f0 + d <= fails &&
    (d >= 3 ==> s.lastFail.At? && s.lastFail.t >= t0 + COOL_OFF * (d - 3) && COOL_OFF * (d - 3) <= t)
  }

  lemma PushedByFailure(s: Server, f0: nat, fails: nat, d: nat, t0: nat, t: nat, e: Event)
    requires Pushed(s, f0, fails, d, t0, t) && Unwrapped(f0, fails + 1) && s.failCount == Int32(fails)
    requires t0 <= Start(e) <= t0 + t && Start(e) <= End(e) && (s.lastFail.At? ==> s.lastFail.t <= Start(e))
    requires e.Dial? ==> !Quarantined(s, Start(e))
    ensures Pushed(Charge(s, End(e)), f0, fails + 1, if e.Dial? then d + 1 else d, t0, t)
  {
    CountsUp(f0, fails);
  }

  lemma SplitLast(before: seq<Event>, w: seq<Event>)
    requires w != []
    ensures var front, e := w[..|w| - 1], w[|w| - 1];
            w == front + [e] && before + w == (before + front) + [e]
  {
  }

  lemma WindowFront(w: seq<Event>, j: nat, t0: nat, t: nat)
    requires w != [] && Window(w, j, t0, t)
    ensures Window(w[..|w| - 1], j, t0, t)
    ensures var e := w[|w| - 1]; e.server == j ==> t0 <= Start(e) <= t0 + t && !(e.Dial? && e.ok)
  {
  }

  /** The induction behind the dial rate, over the stretch w that follows before. */
  lemma {:induction false} DialsPushFailures(before: seq<Event>, w: seq<Event>, now: nat, j: nat, t0: nat, t: nat)
    requires Disciplined(before + w) && Ordered(before + w, now) && Window(w, j, t0, t)
    requires Unwrapped(FailsSince(before, j), FailsSince(before + w, j))
    ensures Pushed(Summary(before + w, j), FailsSince(before, j), FailsSince(before + w, j), DialsTo(w, j), t0, t)
    decreases |w|
  {
    if w == [] {
      assert before + w == before;
    } else {
      var front, e := w[..|w| - 1], w[|w| - 1];
      SplitLast(before, w);
      WindowFront(w, j, t0, t);
      BeforeEvent(before + front, e, now);
      FailsSnoc(front, before + front, e, j);
      DialsPushFailures(before, front, Start(e), j, t0, t);
      PushedByEvent(before + front, front, e, j, FailsSince(before, j), t0, t);
    }
  }

  lemma BeforeEvent(h: seq<Event>, e: Event, now: nat)
    requires Disciplined(h + [e]) && Ordered(h + [e], now)
    ensures Disciplined(h) && Ordered(h, Start(e)) && Start(e) <= End(e)
    ensures e.Dial? ==> !Quarantined(Summary(h, e.server), e.startAt)
  {
    var all := h + [e];
    assert all[..|h|] == h && all[|h|] == e;
    forall p | 0 <= p < |h| && h[p].Dial?
      ensures !Quarantined(Summary(h[..p], h[p].server), h[p].startAt)
    {
      assert all[..p] == h[..p] && all[p] == h[p];
    }
    assert forall p | 0 <= p < |h| :: all[p] == h[p];
  }

  lemma PushedByEvent(h: seq<Event>, w: seq<Event>, e: Event, j: nat, f0: nat, t0: nat, t: nat)
    requires Pushed(Summary(h, j), f0, FailsSince(h, j), DialsTo(w, j), t0, t)
    requires Unwrapped(f0, FailsSince(h + [e], j)) && Ordered(h, Start(e)) && Start(e) <= End(e)
    requires e.server == j ==> t0 <= Start(e) <= t0 + t && !(e.Dial? && e.ok)
    requires e.Dial? ==> !Quarantined(Summary(h, e.server), e.startAt)
    ensures Pushed(Summary(h + [e], j), f0, FailsSince(h + [e], j), DialsTo(w + [e], j), t0, t)
  {
    SummarySnoc(h, e, j);
    FailsSnoc(w, h, e, j);
    if e.server == j {
      FailureIsPast(h, Start(e), j);
      PushedByFailure(Summary(h, j), f0, FailsSince(h, j), DialsTo(w, j), t0, t, e);
    }
  }

  lemma FailsSnoc(w: seq<Event>, h: seq<Event>, e: Event, j: nat)
    ensures DialsTo(w + [e], j) == DialsTo(w, j) + if e.Dial? && e.server == j then 1 else 0
    ensures e.server != j ==> FailsSince(h + [e], j) == FailsSince(h, j)
    ensures e.server == j && !(e.Dial? && e.ok) ==> FailsSince(h + [e], j) == FailsSince(h, j) + 1
  {
  }

  lemma PrefixKept(h: seq<Event>, now: nat, b: nat)
    requires Disciplined(h) && Ordered(h, now) && b <= |h|
    ensures Disciplined(h[..b]) && Ordered(h[..b], now)
  {
    forall p | 0 <= p < b && h[p].Dial?
      ensures !Quarantined(Summary(h[..b][..p], h[p].server), h[p].startAt)
    {
      assert h[..b][..p] == h[..p];
    }
  }

  lemma SplitStretch(h: seq<Event>, a: nat, b: nat)
    requires a <= b <= |h|
    ensures h[..b] == h[..a] + h[a..b]
  {
  }

  lemma WholeCoolOffs(d: nat, t: nat)
    requires d >= 3 ==> COOL_OFF * (d - 3) <= t
    ensures d <= 3 + t / COOL_OFF
  {
  }

  /** Dial-rate bound: over any stretch h[a..b] of the history of any run, lasting t nanoseconds, in which
      server j never connects, getSession dials it at most 3 + floor(t / 30 s) times, however many
      goroutines call in, provided the int32 counter does not go negative within the stretch. */
  lemma DialRate(n: nat, worlds: seq<World>, steps: seq<Step>, k: nat, j: nat, a: nat, b: nat, t0: nat, t: nat)
    requires Run(n, worlds, steps) && k < |worlds| && a <= b <= |worlds[k].history|
    requires Window(worlds[k].history[a..b], j, t0, t)
    requires Unwrapped(FailsSince(worlds[k].history[..a], j), FailsSince(worlds[k].history[..b], j))
    ensures DialsTo(worlds[k].history[a..b], j) <= 3 + t / 30_000_000_000
  {
    var h := worlds[k].history;
    RunHistory(n, worlds, steps, k);
    PrefixKept(h, worlds[k].now, b);
    SplitStretch(h, a, b);
    DialsPushFailures(h[..a], h[a..b], worlds[k].now, j, t0, t);
    WholeCoolOffs(DialsTo(h[a..b], j), t);
  }
}
