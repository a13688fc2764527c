/** Every run of the failover client (t2tunnel/multipath.go): goroutines call getSession, hold what they got,
    and may much later report a failure; sessions die on their own; time passes. getSession and markFailed
    run under one mutex, so each is one step. */
module MultiPathRuns {
  import opened MultiPath

  /** What happened to the servers: a dial and its outcome, or a failed OpenStream charged by markFailed. */
  datatype Event =
    | Dial(server: nat, startAt: nat, endAt: nat, ok: bool)
    | Report(server: nat, at: nat)

  function Start(e: Event): nat { if e.Dial? then e.startAt else e.at }
  function End(e: Event): nat { if e.Dial? then e.endAt else e.at }

  /** A goroutine in handleConn between getSession and OpenStream's result. */
  datatype Holder = Holder(session: nat, server: nat, waiting: bool)

  datatype World = World(client: Client, now: nat, holders: seq<Holder>, history: seq<Event>)

  datatype Step =
    | Tick(until: nat)
    | Die(session: nat)                             // a session closes by itself
    | Get(visits: seq<Visit>, until: nat)           // getSession, returning at until
    | OpenStream(i: nat)                            // holder i goes on to pipe
    | ReportFailure(i: nat, at: nat)                // holder i's OpenStream failed: markFailed

  function Init(n: nat): World { World(NewClient(n), 0, [], []) }

  predicate Clocked(now: nat, visits: seq<Visit>, until: nat) {
    && now <= until
    && (forall i | 0 <= i < |visits| :: now <= visits[i].checkAt <= visits[i].doneAt <= until)
    && (forall i, j | 0 <= i < j < |visits| :: visits[i].doneAt <= visits[j].checkAt)
  }

  predicate Enabled(w: World, st: Step) {
    match st
    case Tick(until) => w.now <= until
    case Die(s) => s < |w.client.sessions|
    case Get(visits, until) => Scannable(w.client, visits) && Clocked(w.now, visits, until)
    case OpenStream(i) =>
      i < |w.holders| && w.holders[i].waiting && w.holders[i].session < |w.client.sessions|
      && !w.client.sessions[w.holders[i].session].closed
    case ReportFailure(i, at) =>
      i < |w.holders| && w.holders[i].waiting && w.now <= at
      && WellFormed(w.client) && w.holders[i].server < |w.client.servers|
  }

  /** The dials of the first stop turns of a getSession loop. */
  function DialEvents(c: Client, visits: seq<Visit>, stop: nat): seq<Event>
    requires Scannable(c, visits) && stop <= |c.servers|
  {
    if stop == 0 then []
    else DialEvents(c, visits, stop - 1)
         + if Dials(c, visits, stop - 1)
           then [Dial(Tried(c, stop - 1), visits[stop - 1].checkAt, visits[stop - 1].doneAt, visits[stop - 1].reach.Connects?)]
           else []
  }

  /** The dials of one getSession. */
  function GetEvents(c: Client, visits: seq<Visit>): seq<Event>
    requires Scannable(c, visits)
  {
    if Live(c) then []
    else
      var k := FirstUsable(c, visits, 0);
      DialEvents(c, visits, if k < |c.servers| then k + 1 else k)
  }

  function Apply(w: World, st: Step): World
    requires Enabled(w, st)
  {
    match st
    case Tick(until) => w.(now := until)
    case Die(s) => w.(client := w.client.(sessions := w.client.sessions[s := w.client.sessions[s].(closed := true)]))
    case Get(visits, until) =>
      var (c, got) := GetSession(w.client, visits);
      World(c, until,
            if got.Got? && got.server.Just? then w.holders + [Holder(got.session, got.server.value, true)] else w.holders,
            w.history + GetEvents(w.client, visits))
    case OpenStream(i) => w.(holders := w.holders[i := w.holders[i].(waiting := false)])
    case ReportFailure(i, at) =>
      World(MarkFailed(w.client, w.holders[i].server, at), at,
            w.holders[i := w.holders[i].(waiting := false)], w.history + [Report(w.holders[i].server, at)])
  }

  ghost predicate Run(n: nat, worlds: seq<World>, steps: seq<Step>) {
    |worlds| == |steps| + 1 && worlds[0] == Init(n)
    && forall k | 0 <= k < |steps| :: Enabled(worlds[k], steps[k]) && worlds[k + 1] == Apply(worlds[k], steps[k])
  }

  // One live session ------------------------------------------------------------------------------------

  /** Every session ever opened is closed unless it is m.session; while m.session is set, sessionSrv is
      servers[current], the server it was dialled on; and every pair handed out was dialled together. */
  predicate OneLive(w: World) {
    var c := w.client;
    && WellFormed(c)
    && (forall s | 0 <= s < |c.sessions| :: !c.sessions[s].closed ==> c.session == Just(s))
    && (c.session.Just? ==> c.current < |c.servers| && c.sessionSrv == Just(c.current)
                            && c.sessions[c.session.value].server == c.current)
    && (forall i | 0 <= i < |w.holders| ::
          w.holders[i].session < |c.sessions| && w.holders[i].server < |c.servers|
          && w.holders[i].server == c.sessions[w.holders[i].session].server)
  }

  lemma AdoptOneLive(w: World, servers: seq<Server>, j: nat, now: nat, h: seq<Event>)
    requires OneLive(w) && |servers| == |w.client.servers| && j < |servers|
    requires forall s | 0 <= s < |w.client.sessions| :: w.client.sessions[s].closed
    ensures OneLive(World(Adopt(w.client.(servers := servers), j), now,
                          w.holders + [Holder(|w.client.sessions|, j, true)], h))
  {
  }

  lemma OneLiveGet(w: World, visits: seq<Visit>, until: nat)
    requires OneLive(w) && Enabled(w, Get(visits, until))
    ensures OneLive(Apply(w, Get(visits, until)))
    ensures |Apply(w, Get(visits, until)).client.servers| == |w.client.servers|
  {
    if !Live(w.client) {
      var k := FirstUsable(w.client, visits, 0);
      assert forall s | 0 <= s < |w.client.sessions| :: w.client.sessions[s].closed;
      if k == |w.client.servers| {
        assert Apply(w, Get(visits, until)).client == w.client.(servers := AfterTurns(w.client, visits, k));
      } else {
        AdoptOneLive(w, AfterTurns(w.client, visits, k), Tried(w.client, k), until, w.history + GetEvents(w.client, visits));
      }
    }
  }

  lemma OneLiveStep(w: World, st: Step)
    requires OneLive(w) && Enabled(w, st)
    ensures OneLive(Apply(w, st)) && |Apply(w, st).client.servers| == |w.client.servers|
  {
    if st.Get? {
      OneLiveGet(w, st.visits, st.until);
    }
  }

  lemma {:induction false} OneLiveSession(n: nat, worlds: seq<World>, steps: seq<Step>, k: nat)
    requires Run(n, worlds, steps) && k < |worlds|
    ensures OneLive(worlds[k]) && |worlds[k].client.servers| == n
  {
    if k > 0 {
      OneLiveSession(n, worlds, steps, k - 1);
      OneLiveStep(worlds[k - 1], steps[k - 1]);
    }
  }

  /** getSession in any reachable state: if some session is open it hands out that one with the server it was
      dialled on, changes nothing and dials nothing; if it reports that all servers are down, no session is open; and
      whatever it hands out is open, with the server it was dialled on, and that is what the goroutine will hold. */
  lemma GetHandsOutOpenSession(n: nat, worlds: seq<World>, steps: seq<Step>, k: nat, visits: seq<Visit>, until: nat)
    requires Run(n, worlds, steps) && k < |worlds| && Enabled(worlds[k], Get(visits, until))
    ensures var w, w' := worlds[k], Apply(worlds[k], Get(visits, until));
            var (c', got) := GetSession(w.client, visits);
            && w'.client == c' && w'.now == until
            && (forall s | 0 <= s < |w.client.sessions| && !w.client.sessions[s].closed ::
                  got == Got(s, Just(w.client.sessions[s].server)) && c' == w.client && w'.history == w.history)
            && (got.AllServersDown? ==>
                  (forall s | 0 <= s < |c'.sessions| :: c'.sessions[s].closed) && w'.holders == w.holders)
            && (got.Got? ==>
                  && got.session < |c'.sessions| && !c'.sessions[got.session].closed
                  && got.server == Just(c'.sessions[got.session].server)
                  && w'.holders == w.holders + [Holder(got.session, c'.sessions[got.session].server, true)])
  {
    var w := worlds[k];
    OneLiveSession(n, worlds, steps, k);
    if Live(w.client) {
      LiveSessionReused(w.client, visits);
      assert w.history + [] == w.history;
    } else {
      FirstUsableInCyclicOrder(w.client, visits);
    }
  }

  /** The events on server j. */
  function EventsOn(h: seq<Event>, j: nat): seq<Event> {
    if h == [] then []
    else EventsOn(h[..|h| - 1], j) + if h[|h| - 1].server == j then [h[|h| - 1]] else []
  }

  lemma EventsOnSnoc(h: seq<Event>, e: Event, j: nat)
    ensures EventsOn(h + [e], j) == EventsOn(h, j) + if e.server == j then [e] else []
  {
    assert (h + [e])[..|h|] == h;
  }

  /** What turn i puts on record: a dial with its times and outcome, unless its server rests. */
  function Recorded(c: Client, visits: seq<Visit>, i: nat): seq<Event>
    requires Scannable(c, visits) && i < |c.servers|
  {
    var j, v := Tried(c, i), visits[i];
    if Resting(c.servers[j], v.checkAt) then [] else [Dial(j, v.checkAt, v.doneAt, v.reach == Connects)]
  }

  lemma DialEventsSnoc(c: Client, visits: seq<Visit>, stop: nat)
    requires Scannable(c, visits) && 0 < stop <= |c.servers|
    ensures DialEvents(c, visits, stop) == DialEvents(c, visits, stop - 1) + Recorded(c, visits, stop - 1)
  {
  }

  /** Turn i is all that the record says of its server. */
  lemma RecordedOn(c: Client, visits: seq<Visit>, i: nat, h: seq<Event>)
    requires Scannable(c, visits) && i < |c.servers| && EventsOn(h, Tried(c, i)) == []
    ensures EventsOn(h + Recorded(c, visits, i), Tried(c, i)) == Recorded(c, visits, i)
  {
    var r := Recorded(c, visits, i);
    if r == [] {
      assert h + r == h;
    } else {
      EventsOnSnoc(h, r[0], Tried(c, i));
    }
  }

  lemma RecordedElsewhere(c: Client, visits: seq<Visit>, stop: nat, j: nat)
    requires Scannable(c, visits) && 0 < stop <= |c.servers| && Tried(c, stop - 1) != j
    ensures EventsOn(DialEvents(c, visits, stop), j) == EventsOn(DialEvents(c, visits, stop - 1), j)
  {
    var h, r := DialEvents(c, visits, stop - 1), Recorded(c, visits, stop - 1);
    if r == [] {
      assert DialEvents(c, visits, stop) == h + [] == h;
    } else {
      assert DialEvents(c, visits, stop) == h + [r[0]];
      EventsOnSnoc(h, r[0], j);
    }
  }

  lemma TriedOnce(c: Client, i: nat, i': nat)
    requires WellFormed(c) && i < |c.servers| && i' < |c.servers|
    ensures Tried(c, i) == Tried(c, i') <==> i == i'
  {
  }

  /** Of the server of turn i, the record of the first stop turns says what turn i did. */
  predicate OnRecord(c: Client, visits: seq<Visit>, stop: nat, i: nat)
    requires Scannable(c, visits) && stop <= |c.servers| && i < |c.servers|
  {
    EventsOn(DialEvents(c, visits, stop), Tried(c, i)) == if i < stop then Recorded(c, visits, i) else []
  }

  lemma OwnTurnOnRecord(c: Client, visits: seq<Visit>, stop: nat, i: nat)
    requires Scannable(c, visits) && 0 < stop <= |c.servers| && i == stop - 1 && OnRecord(c, visits, stop - 1, i)
    ensures OnRecord(c, visits, stop, i)
  {
    DialEventsSnoc(c, visits, stop);
    RecordedOn(c, visits, i, DialEvents(c, visits, i));
  }

  lemma OtherTurnOnRecord(c: Client, visits: seq<Visit>, stop: nat, i: nat)
    requires Scannable(c, visits) && 0 < stop <= |c.servers| && i < |c.servers| && i != stop - 1
    requires OnRecord(c, visits, stop - 1, i)
    ensures OnRecord(c, visits, stop, i)
  {
    TriedOnce(c, stop - 1, i);
    RecordedElsewhere(c, visits, stop, Tried(c, i));
  }

  lemma {:induction false} TurnsOnRecord(c: Client, visits: seq<Visit>, stop: nat, i: nat)
    requires Scannable(c, visits) && stop <= |c.servers| && i < |c.servers|
    ensures OnRecord(c, visits, stop, i)
    decreases stop
  {
    if stop > 0 {
      TurnsOnRecord(c, visits, stop - 1, i);
      if i == stop - 1 {
        OwnTurnOnRecord(c, visits, stop, i);
      } else {
        OtherTurnOnRecord(c, visits, stop, i);
      }
    }
  }

  /** The record is faithful: without a live session, getSession dials each server at most once, exactly if its turn
      comes and it does not rest, and each dial is on record with its times and outcome. */
  lemma GetOnRecord(c: Client, visits: seq<Visit>, i: nat)
    requires Scannable(c, visits) && !Live(c) && i < |c.servers|
    ensures var (c', got) := GetSession(c, visits);
            && (got.Got? ==> c'.current < |c.servers|)
            && var j, v := Tried(c, i), visits[i];
               var itsTurn := got.Got? ==> i <= Turn(c.current, c'.current, |c.servers|);
               EventsOn(GetEvents(c, visits), j) ==
               if itsTurn && !Resting(c.servers[j], v.checkAt)
               then [Dial(j, v.checkAt, v.doneAt, v.reach == Connects)] else []
  {
    var k := FirstUsable(c, visits, 0);
    var stop := if k < |c.servers| then k + 1 else k;
    TurnsOnRecord(c, visits, stop, i);
    if k < |c.servers| {
      assert Turn(c.current, Tried(c, k), |c.servers|) == k;
    }
    assert GetEvents(c, visits) == DialEvents(c, visits, stop);
  }

  /** A failure report charges the server whose session failed, once, and no other. What it closes is the current
      session, whether or not that is the session that failed. So it leaves every other session alone exactly
      when the failed session is current or no session is live. */
  lemma ReportCloses(w: World, i: nat, at: nat)
    requires OneLive(w) && Enabled(w, ReportFailure(i, at))
    ensures var before, w' := w.client.sessions, Apply(w, ReportFailure(i, at));
            var after, failed := w'.client.sessions, before[w.holders[i].session].server;
            && failed < |w.client.servers| && |w'.client.servers| == |w.client.servers|
            && (forall j | 0 <= j < |w.client.servers| ::
                  w'.client.servers[j] == if j == failed then Charge(w.client.servers[j], at) else w.client.servers[j])
            && w'.history == w.history + [Report(failed, at)] && w'.now == at
            && w'.holders == w.holders[i := w.holders[i].(waiting := false)]
            && w'.client.session == Nothing && w'.client.current == w.client.current
            && |after| == |before|
            && (forall s | 0 <= s < |after| :: after[s].closed && after[s].server == before[s].server)
            && ((forall s | 0 <= s < |after| && s != w.holders[i].session :: after[s] == before[s])
                <==> w.client.session == Just(w.holders[i].session) || !Live(w.client))
  {
  }

  /** A goroutine that opens its stream, a session that dies and the passing of time leave the servers and their history
      alone; and only a dying session changes, by closing. */
  lemma QuietSteps(w: World, st: Step)
    requires Enabled(w, st) && !st.Get? && !st.ReportFailure?
    ensures var w' := Apply(w, st);
            && w'.client.servers == w.client.servers && w'.history == w.history
            && w'.client == w.client.(sessions := w'.client.sessions)
            && |w'.client.sessions| == |w.client.sessions|
            && (forall s | 0 <= s < |w.client.sessions| ::
                  w'.client.sessions[s] == if st == Die(s) then w.client.sessions[s].(closed := true) else w.client.sessions[s])
            && |w'.holders| == |w.holders|
            && (forall i | 0 <= i < |w.holders| ::
                  w'.holders[i] == if st == OpenStream(i) then w.holders[i].(waiting := false) else w.holders[i])
  {
  }

  /** A new client prefers the first server: if it answers, it is the one. */
  lemma FirstServerFirst(n: nat, visits: seq<Visit>)
    requires |visits| == n > 0 && visits[0].reach == Connects
    ensures Scannable(NewClient(n), visits) && GetSession(NewClient(n), visits).1 == Got(0, Just(0))
  {
    assert Usable(NewClient(n), visits, 0);
  }

  lemma ExtendedStep(worlds: seq<World>, steps: seq<Step>, w: World, st: Step, k: nat)
    requires |worlds| == |steps| + 1 && k <= |steps|
    ensures var ws, sts := worlds + [w], steps + [st];
            if k < |steps| then ws[k] == worlds[k] && ws[k + 1] == worlds[k + 1] && sts[k] == steps[k]
            else ws[k] == worlds[k] && ws[k + 1] == w && sts[k] == st
  {
  }

  lemma Extend(n: nat, worlds: seq<World>, steps: seq<Step>, st: Step) returns (w: World)
    requires Run(n, worlds, steps) && Enabled(worlds[|steps|], st)
    ensures w == Apply(worlds[|steps|], st) && Run(n, worlds + [w], steps + [st])
  {
    w := Apply(worlds[|steps|], st);
    forall k | 0 <= k <= |steps|
      ensures Enabled((worlds + [w])[k], (steps + [st])[k])
      ensures (worlds + [w])[k + 1] == Apply((worlds + [w])[k], (steps + [st])[k])
    {
      ExtendedStep(worlds, steps, w, st, k);
    }
  }

  /** Goroutines 0 and 1 get session 0, which then dies. */
  lemma DeadSession() returns (worlds: seq<World>, steps: seq<Step>)
    ensures Run(1, worlds, steps) && |steps| == 3
    ensures worlds[3].client == Client([Server(0, Never)], 0, Just(0), Just(0), [Sess(0, true)])
    ensures worlds[3].holders == [Holder(0, 0, true), Holder(0, 0, true)] && worlds[3].now == 0
  {
    var visit := [Visit(0, Connects, 0)];
    ConnectToOnlyServer(Init(1), visit);
    var w1 := Extend(1, [Init(1)], [], Get(visit, 0));
    var w2 := Extend(1, [Init(1)] + [w1], [] + [Get(visit, 0)], Get(visit, 0));
    worlds, steps := [Init(1)] + [w1] + [w2], [] + [Get(visit, 0)] + [Get(visit, 0)];
    var w3 := Extend(1, worlds, steps, Die(0));
    worlds, steps := worlds + [w3], steps + [Die(0)];
  }

  /** Session 1 then replaces it. */
  lemma ReplacedSession() returns (worlds: seq<World>, steps: seq<Step>)
    ensures Run(1, worlds, steps) && |steps| == 4
    ensures worlds[4].client == Client([Server(0, Never)], 0, Just(1), Just(0), [Sess(0, true), Sess(0, false)])
    ensures worlds[4].holders == [Holder(0, 0, true), Holder(0, 0, true), Holder(1, 0, true)] && worlds[4].now == 0
  {
    var visit := [Visit(0, Connects, 0)];
    worlds, steps := DeadSession();
    ConnectToOnlyServer(worlds[3], visit);
    var w := Extend(1, worlds, steps, Get(visit, 0));
    worlds, steps := worlds + [w], steps + [Get(visit, 0)];
  }

  /** The stale report: goroutine 1 still holds session 0 when session 1 has replaced it, and its report
      closes the healthy session 1. */
  lemma StaleReportClosesNewSession() returns (worlds: seq<World>, steps: seq<Step>)
    ensures Run(1, worlds, steps) && |steps| == 5 && steps[4] == ReportFailure(1, 0)
    ensures |worlds[4].holders| == 3 && worlds[4].holders[1].session == 0
    ensures worlds[4].client.sessions == [Sess(0, true), Sess(0, false)]
    ensures worlds[5].client.sessions == [Sess(0, true), Sess(0, true)]
  {
    worlds, steps := ReplacedSession();
    var w := Extend(1, worlds, steps, ReportFailure(1, 0));
    worlds, steps := worlds + [w], steps + [ReportFailure(1, 0)];
  }

  lemma ConnectToOnlyServer(w: World, visit: seq<Visit>)
    requires WellFormed(w.client) && !Live(w.client) && w.client.servers == [Server(0, Never)] && w.now == 0
    requires visit == [Visit(0, Connects, 0)]
    ensures Enabled(w, Get(visit, 0))
    ensures Apply(w, Get(visit, 0))
         == World(Client(w.client.servers, 0, Just(|w.client.sessions|), Just(0), w.client.sessions + [Sess(0, false)]),
                  0, w.holders + [Holder(|w.client.sessions|, 0, true)], w.history + [Dial(0, 0, 0, true)])
  {
    var c := w.client;
    assert Usable(c, visit, 0) && FirstUsable(c, visit, 0) == 0;
    assert AfterTurns(c, visit, 0) == c.servers;
    assert Adopt(c, 0).servers == c.servers;
    assert DialEvents(c, visit, 0) == [];
    assert DialEvents(c, visit, 1) == [Dial(0, 0, 0, true)];
  }
}
