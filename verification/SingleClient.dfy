/** The one-server client (the getSession closure of runClient, t2tunnel/engine.go): a captured session
    variable under a mutex. A failed OpenStream does not close anything here. */
module SingleClient {
  import opened MultiPath
  import opened MultiPathObjects

  /** closed[s] for every session ever opened; session is the captured variable. */
  datatype Cache = Cache(session: Maybe<nat>, closed: seq<bool>)

  predicate Sound(c: Cache) { c.session.Just? ==> c.session.value < |c.closed| }

  predicate Reusable(c: Cache)
    requires Sound(c)
  {
    c.session.Just? && !c.closed[c.session.value]
  }

  function GetOne(c: Cache, reach: Reach): (r: (Cache, Maybe<nat>))
    requires Sound(c)
  {
    if Reusable(c) then (c, c.session)
    else if !reach.Connects? then (c, Nothing)
    else (Cache(Just(|c.closed|), c.closed + [false]), Just(|c.closed|))
  }

  class Closure {
    var session: Session?
    ghost var made: seq<Session>
    ghost var sessionAt: Maybe<nat>

    ghost predicate Valid()
      reads this
    {
      && Distinct(made)
      && (sessionAt.Nothing? <==> session == null)
      && (sessionAt.Just? ==> sessionAt.value < |made| && made[sessionAt.value] == session)
    }

    ghost function View(): Cache
      reads this, made
    {
      Cache(sessionAt, seq(|made|, i requires 0 <= i < |made| reads this, made => made[i].closed))
    }

    constructor ()
      ensures Valid() && View() == Cache(Nothing, [])
    {
      session, made, sessionAt := null, [], Nothing;
    }

    method GetSession(reach: Reach) returns (s: Session?)
      requires Valid()
      modifies this
      ensures Valid() && old(made) <= made
      ensures var (c, got) := GetOne(old(View()), reach);
              View() == c && s == (if got.Just? then made[got.value] else null)
    {
      if session != null && !session.closed {
        return session;
      }
      if reach.DialFails? {
        return null;
      }
      if reach.SmuxFails? {
        return null;
      }
      s := new Session();
      DistinctSnoc(made, s);
      session, made, sessionAt := s, made + [s], Just(|made|);
    }
  }

  datatype Step = Get(reach: Reach) | Die(s: nat)

  function Apply(c: Cache, st: Step): Cache
    requires Sound(c)
  {
    match st
    case Get(reach) => GetOne(c, reach).0
    case Die(s) => if s < |c.closed| then c.(closed := c.closed[s := true]) else c
  }

  ghost predicate Run(caches: seq<Cache>, steps: seq<Step>) {
    |caches| == |steps| + 1 && caches[0] == Cache(Nothing, [])
    && forall k | 0 <= k < |steps| :: Sound(caches[k]) && caches[k + 1] == Apply(caches[k], steps[k])
  }

  /** Over every interleaving of callers and session deaths, every session but the captured one is closed;
      a caller gets nothing exactly when there is no live session and a new one cannot be made, and what
      it gets is live. */
  lemma {:induction false} OneSession(caches: seq<Cache>, steps: seq<Step>, k: nat, reach: Reach)
    requires Run(caches, steps) && k < |caches|
    ensures var c := caches[k];
            && Sound(c)
            && (forall s | 0 <= s < |c.closed| :: !c.closed[s] ==> c.session == Just(s))
            && var (c', got) := GetOne(c, reach);
               && (got.Nothing? <==> (forall s | 0 <= s < |c.closed| :: c.closed[s]) && !reach.Connects?)
               && (got.Just? ==> got.value < |c'.closed| && !c'.closed[got.value] && c'.session == got)
               && (forall s | 0 <= s < |c.closed| && !c.closed[s] :: got == Just(s) && c' == c)
               && (got.Nothing? ==> c' == c)
               && ((forall s | 0 <= s < |c.closed| :: c.closed[s]) && got.Just? ==> c'.closed == c.closed + [false])
  {
    if k > 0 {
      OneSession(caches, steps, k - 1, reach);
    }
  }
}
