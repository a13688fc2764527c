/** The panel's login sessions (Sessions in t2tunnel/webpanel/panel.go): a map from token to expiry, from which
    expired entries are deleted only when they are next looked up. Times are nanoseconds. */
module SessionStore {

  /** 8 hours. */
  const LIFETIME := 28_800_000_000_000

  type Store = map<string, nat>

  function Create(m: Store, tok: string, now: nat): Store { m[tok := now + LIFETIME] }

  function Drop(m: Store, tok: string): Store { m - {tok} }

  function Valid(m: Store, tok: string, now: nat): (Store, bool) {
    if tok == "" then (m, false)
    else if tok !in m || now > m[tok] then (m - {tok}, false)
    else (m, true)
  }

  class Sessions {
    var m: map<string, nat>

    constructor ()
      ensures m == map[]
    {
      m := map[];
    }

    /** create, with the random token given. */
    method CreateWith(tok: string, now: nat)
      modifies this
      ensures m == Create(old(m), tok, now) == old(m)[tok := now + 28_800_000_000_000]
    {
      m := m[tok := now + LIFETIME];
    }

    method IsValid(tok: string, now: nat) returns (ok: bool)
      modifies this
      ensures (m, ok) == Valid(old(m), tok, now)
      ensures ok <==> tok != "" && tok in old(m) && now <= old(m)[tok]
      ensures m == if ok || tok == "" then old(m) else old(m) - {tok}
    {
      if tok == "" {
        return false;
      }
      var found := tok in m;
      if !found || now > m[tok] {
        m := m - {tok};
        return false;
      }
      return true;
    }

    method DropToken(tok: string)
      modifies this
      ensures m == Drop(old(m), tok) == old(m) - {tok}
    {
      m := m - {tok};
    }
  }

  // The history ----------------------------------------------------------------------------------------

  datatype Event =
    | Created(tok: string, at: nat)
    | Looked(tok: string, at: nat)
    | Dropped(tok: string, at: nat)

  function After(h: seq<Event>): Store {
    if h == [] then map[] else
    var m := After(h[..|h| - 1]);
    match h[|h| - 1]
    case Created(tok, at) => Create(m, tok, at)
    case Looked(tok, at) => Valid(m, tok, at).0
    case Dropped(tok, _) => Drop(m, tok)
  }

  /** A monotone clock, not past now. */
  predicate Clocked(h: seq<Event>, now: nat) {
    && (forall i | 0 <= i < |h| :: h[i].at <= now)
    && (forall i, j | 0 <= i < j < |h| :: h[i].at <= h[j].at)
  }

  datatype Login = LoggedOut | Since(at: nat)

  /** The token's latest create, if it has not been dropped since. Lookups play no part. */
  function Latest(h: seq<Event>, tok: string): Login {
    if h == [] then LoggedOut else
    var e := h[|h| - 1];
    if e.tok != tok || e.Looked? then Latest(h[..|h| - 1], tok)
    else if e.Created? then Since(e.at) else LoggedOut
  }

  /** The store against the history: an entry is the latest login; a login without an entry has expired. */
  predicate Agrees(m: Store, login: Login, tok: string, now: nat) {
    && (tok in m ==> login.Since? && m[tok] == login.at + LIFETIME)
    && (tok !in m && login.Since? ==> now > login.at + LIFETIME)
  }

  lemma {:induction false} StoreAgrees(h: seq<Event>, tok: string, now: nat)
    requires Clocked(h, now)
    ensures Agrees(After(h), Latest(h, tok), tok, now)
    decreases |h|
  {
    if h != [] {
      StoreAgrees(h[..|h| - 1], tok, h[|h| - 1].at);
    }
  }

  /** A lookup succeeds exactly when the token was created, not dropped since, and is at most 8 hours old: the
      answer depends on the creates and drops alone. */
  lemma ValidMeansHistory(h: seq<Event>, tok: string, now: nat)
    requires Clocked(h, now)
    ensures Valid(After(h), tok, now).1 <==>
              tok != "" && Latest(h, tok).Since? && now <= Latest(h, tok).at + 28_800_000_000_000
  {
    StoreAgrees(h, tok, now);
  }

  function WithoutLookups(h: seq<Event>): seq<Event> {
    if h == [] then []
    else WithoutLookups(h[..|h| - 1]) + if h[|h| - 1].Looked? then [] else [h[|h| - 1]]
  }

  lemma {:induction false} LatestWithoutLookups(h: seq<Event>, tok: string)
    ensures Latest(WithoutLookups(h), tok) == Latest(h, tok)
    decreases |h|
  {
    if h != [] {
      var front, e := h[..|h| - 1], h[|h| - 1];
      LatestWithoutLookups(front, tok);
      assert (WithoutLookups(front) + [e])[..|WithoutLookups(front)|] == WithoutLookups(front);
      assert WithoutLookups(front) + [] == WithoutLookups(front);
    }
  }

  lemma {:induction false} ClockedWithoutLookups(h: seq<Event>, now: nat)
    requires Clocked(h, now)
    ensures Clocked(WithoutLookups(h), now)
    decreases |h|
  {
    if h != [] {
      ClockedWithoutLookups(h[..|h| - 1], h[|h| - 1].at);
    }
  }

  /** The deletes done by lookups never change a later answer: a store that had never been looked into would
      give the same one. */
  lemma LookupsAreInvisible(h: seq<Event>, tok: string, now: nat)
    requires Clocked(h, now)
    ensures Valid(After(h), tok, now).1 == Valid(After(WithoutLookups(h)), tok, now).1
  {
    ClockedWithoutLookups(h, now);
    LatestWithoutLookups(h, tok);
    ValidMeansHistory(h, tok, now);
    ValidMeansHistory(WithoutLookups(h), tok, now);
  }
}
