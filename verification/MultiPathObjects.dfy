/** The failover client as the program has it (t2tunnel/multipath.go): endpoints and sessions are shared
    objects, changed in place under one mutex. Each method is proved to compute the function of the same name
    in MultiPath on View(). */
module MultiPathObjects {
  import opened MultiPath

  ghost predicate Distinct<T>(s: seq<T>) { forall i, j | 0 <= i < j < |s| :: s[i] != s[j] }

  lemma DistinctSnoc<T>(s: seq<T>, x: T)
    requires Distinct(s) && x !in s
    ensures Distinct(s + [x])
  {
  }

  class ServerEndpoint {
    var failCount: int
    var lastFail: FailTime

    constructor ()
      ensures failCount == 0 && lastFail == Never
    {
      failCount, lastFail := 0, Never;
    }
  }

  /** A smux session. It can close on its own at any moment; it never reopens. */
  class Session {
    var closed: bool

    constructor ()
      ensures !closed
    {
      closed := false;
    }

    method Close()
      modifies this
      ensures closed
    {
      closed := true;
    }
  }

  class MultiPathClient {
    const servers: seq<ServerEndpoint>
    var current: nat
    var session: Session?
    var sessionSrv: ServerEndpoint?

    // Every session ever opened, the server each was dialled on, and where session and sessionSrv stand.
    ghost var made: seq<Session>
    ghost var madeOn: seq<nat>
    ghost var sessionAt: Maybe<nat>
    ghost var sessionSrvAt: Maybe<nat>

    ghost predicate Valid()
      reads this
    {
      && Distinct(servers)
      && Distinct(made)
      && |madeOn| == |made|
      && (servers != [] ==> current < |servers|)
      && (sessionAt.Nothing? <==> session == null)
      && (sessionAt.Just? ==> sessionAt.value < |made| && made[sessionAt.value] == session)
      && (sessionSrvAt.Nothing? <==> sessionSrv == null)
      && (sessionSrvAt.Just? ==> sessionSrvAt.value < |servers| && servers[sessionSrvAt.value] == sessionSrv)
    }

    ghost function Servers(): seq<Server>
      reads servers
    {
      seq(|servers|, i requires 0 <= i < |servers| reads servers => Server(servers[i].failCount, servers[i].lastFail))
    }

    ghost function Sessions(): seq<Sess>
      requires |madeOn| == |made|
      reads this, made
    {
      seq(|made|, i requires 0 <= i < |made| && |madeOn| == |made| reads this, made =>
        Sess(madeOn[i], made[i].closed))
    }

    ghost function View(): (c: Client)
      requires Valid()
      reads this, servers, made
      ensures WellFormed(c)
    {
      Client(Servers(), current, sessionAt, sessionSrvAt, Sessions())
    }

    constructor (servers: seq<ServerEndpoint>)
      requires Distinct(servers)
      requires forall i | 0 <= i < |servers| :: servers[i].failCount == 0 && servers[i].lastFail == Never
      ensures Valid() && this.servers == servers && View() == NewClient(|servers|)
    {
      this.servers := servers;
      current, session, sessionSrv := 0, null, null;
      made, madeOn, sessionAt, sessionSrvAt := [], [], Nothing, Nothing;
    }

    method MarkFailedLocked(srv: ServerEndpoint, now: nat, ghost at: nat)
      requires Valid()
      requires at < |servers| && servers[at] == srv
      modifies srv
      ensures Valid()
      ensures View() == old(View()).(servers := old(View()).servers[at := Charge(old(View()).servers[at], now)])
    {
      srv.failCount := AddInt32(srv.failCount);
      srv.lastFail := At(now);
      assert Servers() == old(Servers())[at := Charge(old(Servers())[at], now)];
      assert Sessions() == old(Sessions());
    }

    method MarkFailed(srv: ServerEndpoint, now: nat, ghost at: nat)
      requires Valid()
      requires at < |servers| && servers[at] == srv
      modifies this, srv, session
      ensures Valid() && made == old(made) && madeOn == old(madeOn)
      ensures View() == MultiPath.MarkFailed(old(View()), at, now)
    {
      MarkFailedLocked(srv, now, at);
      if session != null {
        session.Close();
        session, sessionAt := null, Nothing;
      }
    }

    /** A new session on servers[idx] becomes the client's, and servers[idx] the preferred server. */
    method Open(idx: nat) returns (sess: Session)
      requires Valid() && idx < |servers|
      modifies this
      ensures Valid() && fresh(sess) && made == old(made) + [sess] && madeOn == old(madeOn) + [idx]
      ensures View() == MultiPath.Adopt(old(View()), idx).(servers := old(View()).servers)
    {
      sess := new Session();
      DistinctSnoc(made, sess);
      session := sess;
      sessionSrv := servers[idx];
      current := idx;
      made, madeOn := made + [sess], madeOn + [idx];
      sessionAt, sessionSrvAt := Just(|made| - 1), Just(idx);
      assert Sessions() == old(Sessions()) + [Sess(idx, false)];
    }

    method Forgive(idx: nat)
      requires Valid() && idx < |servers|
      modifies servers[idx]
      ensures Valid()
      ensures View() == old(View()).(servers := old(View()).servers[idx := old(View()).servers[idx].(failCount := 0)])
    {
      servers[idx].failCount := 0;
      assert Servers() == old(Servers())[idx := old(Servers())[idx].(failCount := 0)];
    }

    /** The end of a successful turn. */
    method Adopt(idx: nat) returns (sess: Session)
      requires Valid() && idx < |servers|
      modifies this, servers[idx]
      ensures Valid() && fresh(sess) && made == old(made) + [sess] && madeOn == old(madeOn) + [idx]
      ensures View() == MultiPath.Adopt(old(View()), idx)
    {
      sess := Open(idx);
      Forgive(idx);
    }

    /** One turn of getSession's loop; c0 is the view the loop started from. */
    method Turn(start: nat, i: nat, visits: seq<Visit>, ghost c0: Client) returns (s: Session?, srv: ServerEndpoint?)
      requires Valid() && Scannable(c0, visits) && |servers| == |c0.servers| && i < |servers| && start == c0.current
      requires View() == c0.(servers := AfterTurns(c0, visits, i))
      modifies this, servers
      ensures Valid()
      ensures s == null ==> srv == null && !Usable(c0, visits, i) && made == old(made) && madeOn == old(madeOn)
                            && View() == c0.(servers := AfterTurns(c0, visits, i + 1))
      ensures s != null ==> Usable(c0, visits, i) && fresh(s) && made == old(made) + [s]
                            && madeOn == old(madeOn) + [Tried(c0, i)] && srv == servers[Tried(c0, i)]
                            && View() == MultiPath.Adopt(old(View()), Tried(c0, i))
    {
      NthIsMod(start, i, |servers|);
      TurnStep(c0, visits, i);
      var idx := (start + i) % |servers|;
      srv := servers[idx];
      var visit := visits[i];
      assert Server(srv.failCount, srv.lastFail) == c0.servers[idx];

      if srv.lastFail.At? && visit.checkAt - srv.lastFail.t < COOL_OFF && srv.failCount >= 3 {
        return null, null;
      }
      if !visit.reach.Connects? {
        MarkFailedLocked(srv, visit.doneAt, idx);
        return null, null;
      }
      s := Adopt(idx);
    }

    /** The loop of getSession. */
    method Scan(visits: seq<Visit>) returns (s: Session?, srv: ServerEndpoint?)
      requires Valid() && |visits| == |servers| && !Live(View())
      modifies this, servers
      ensures Valid() && old(made) <= made
      ensures Returns(MultiPath.GetSession(old(View()), visits), s, srv)
    {
      ghost var c0 := View();
      var start := current;
      for i := 0 to |servers|
        invariant FirstUsable(c0, visits, 0) == FirstUsable(c0, visits, i)
        invariant Valid() && made == old(made) && madeOn == old(madeOn)
        invariant View() == c0.(servers := AfterTurns(c0, visits, i))
      {
        s, srv := Turn(start, i, visits, c0);
        if s != null {
          GetStops(c0, visits, i);
          return;
        }
      }
      GetStops(c0, visits, |servers|);
      return null, null;
    }

    /** This is the client, and s and srv are the objects, that r speaks of. */
    ghost predicate Returns(r: (Client, Got), s: Session?, srv: ServerEndpoint?)
      requires Valid()
      reads this, servers, made
    {
      View() == r.0 &&
      match r.1
      case AllServersDown => s == null && srv == null
      case Got(k, j) =>
        && k < |made| && s == made[k]
        && (if j.Just? then j.value < |servers| && srv == servers[j.value] else srv == null)
    }

    method GetSession(visits: seq<Visit>) returns (s: Session?, srv: ServerEndpoint?)
      requires Valid() && |visits| == |servers|
      modifies this, servers
      ensures Valid() && old(made) <= made
      ensures Returns(MultiPath.GetSession(old(View()), visits), s, srv)
    {
      if session != null && !session.closed {
        return session, sessionSrv;
      }
      s, srv := Scan(visits);
    }
  }
}
