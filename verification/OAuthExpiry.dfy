/** The proxy deletes expired entries late: on lookup, when a map is full, or
    when the sweeper happens to run. Against a store whose entries vanish the
    instant they expire, no client can tell the difference. */
module OAuthExpiry {
  import opened Common
  import opened OAuthModel
  import opened OAuthProtocol

  // ---- The simple store ----

  function SimpleRegister(s: Store, uris: seq<string>, at2: Time, id: string): (Store, bool) {
    if |s.clients| < MAX_CLIENTS then (s.(clients := s.clients[id := Client(uris, at2 + CLIENT_TTL)]), true)
    else (s, false)
  }

  function SimpleLookup(s: Store, id: string): Option<Client> {
    if id in s.clients then Some(s.clients[id]) else None
  }

  function SimpleSession(s: Store, state: string, session: Session): (Store, bool) {
    if |s.sessions| < MAX_SESSIONS then (s.(sessions := s.sessions[state := session]), true) else (s, false)
  }

  /** One step over a store in which everything expired has already gone. No
      stored entry is ever looked at for its age, and the sweeper does nothing;
      a handler still checks the age of the entry it has taken. */
  function SimpleStep(env: Env, a: Core, e: Event): Outcome {
    var s := Prune(a.store, e.at);
    var c := a.(store := s);
    match e
    case Register(uris, at, at2, id) =>
      if uris == [] || exists i :: 0 <= i < |uris| && !AllowedRedirectURI(env, uris[i]) then
        (c, Some(Error(400, "invalid_redirect_uri")))
      else
        var (s', ok) := SimpleRegister(s, uris, at2, id);
        (c.(store := s'), Some(if ok then Registered(id, uris) else Error(503, "server_error")))
    case AuthorizeLookup(h, req, at) =>
      (match AuthorizePrecheck(req)
       case Refuse(resp) => (c, Some(resp))
       case Proceed(id) =>
         match AuthorizeValidate(env, req, SimpleLookup(s, id))
         case Refuse(resp) => (c, Some(resp))
         case Proceed(m) => (Continue(c, h, Authorizing(req, m)), None))
    case AuthorizeStore(h, at, at2, state, verifier) =>
      if h in c.flights && c.flights[h].Authorizing? then
        var f := c.flights[h];
        var (s', ok) := SimpleSession(s, state, SessionOf(f.req, f.challengeMethod, verifier, at2));
        (Finish(c.(store := s'), h),
         Some(if ok then UpstreamRedirect(state, env.s256(verifier)) else Error(503, "temporarily_unavailable")))
      else (c, None)
    case Sweep(at) => (c, None)
    case CallbackTake(h, req, at) => CallbackTakeStep(c, h, req)
    case CallbackCheck(h, at) => CallbackCheckStep(c, h, at)
    case Exchange(h, at, result) => ExchangeStep(c, h, result)
    case Verify(h, at, ok) => VerifyStep(c, h, ok)
    case CallbackGrant(h, at, code) => CallbackGrantStep(c, h, at, code)
    case TokenTake(h, req, at) => TokenTakeStep(c, h, req)
    case TokenFinish(h, at) => TokenFinishStep(env, c, h, at)
  }

  // ---- Simulation ----

  /** A handler took the same thing from both stores, or took from the real
      one something that had already expired. */
  predicate SameFlight(f: Flight, g: Flight, now: Time) {
    || f == g
    || (f.CallbackTaken? && f.found.Some? && Expired(f.found.value.expires, now) && g == CallbackTaken(f.creq, None))
    || (f.TokenTaken? && f.grant.Some? && Expired(f.grant.value.expires, now) && g == TokenTaken(f.treq, None))
  }

  ghost predicate SameFlights(c: map<nat, Flight>, a: map<nat, Flight>, now: Time) {
    c.Keys == a.Keys && forall h | h in c :: SameFlight(c[h], a[h], now)
  }

  ghost predicate Alike(c: Core, a: Core, now: Time) {
    Prune(c.store, now) == Prune(a.store, now) && SameFlights(c.flights, a.flights, now)
  }

  lemma AlikeLater(c: Core, a: Core, now: Time, later: Time)
    requires Alike(c, a, now) && now <= later
    ensures Alike(c, a, later)
  {
    PrunePrune(c.store, now, later);
    PrunePrune(a.store, now, later);
  }

  lemma PruneInsertClient(s: Store, at: Time, later: Time, id: string, v: Client)
    requires at <= later
    ensures Prune(s.(clients := s.clients[id := v]), later)
            == Prune(Prune(s, at).(clients := Prune(s, at).clients[id := v]), later)
  {
    PrunePrune(s, at, later);
    assert LiveClients(s.clients[id := v], later) == LiveClients(LiveClients(s.clients, at)[id := v], later);
  }

  lemma PruneInsertSession(s: Store, at: Time, later: Time, id: string, v: Session)
    requires at <= later
    ensures Prune(s.(sessions := s.sessions[id := v]), later)
            == Prune(Prune(s, at).(sessions := Prune(s, at).sessions[id := v]), later)
  {
    PrunePrune(s, at, later);
    assert LiveSessions(s.sessions[id := v], later) == LiveSessions(LiveSessions(s.sessions, at)[id := v], later);
  }

  lemma PruneInsertGrant(s: Store, at: Time, id: string, v: Grant)
    ensures Prune(s.(grants := s.grants[id := v]), at)
            == Prune(Prune(s, at).(grants := Prune(s, at).grants[id := v]), at)
  {
    PrunePrune(s, at, at);
    assert LiveGrants(s.grants[id := v], at) == LiveGrants(LiveGrants(s.grants, at)[id := v], at);
  }

  lemma TakeSessionAgrees(s: Store, at: Time, key: string)
    ensures Prune(TakeSession(s, key).0, at) == Prune(TakeSession(Prune(s, at), key).0, at)
    ensures var (x, y) := (TakeSession(s, key).1, TakeSession(Prune(s, at), key).1);
            x == y || (x.Some? && Expired(x.value.expires, at) && y.None?)
  {
    var l, r := Prune(TakeSession(s, key).0, at), Prune(TakeSession(Prune(s, at), key).0, at);
    assert l.clients == r.clients && l.sessions == r.sessions && l.grants == r.grants;
  }

  lemma TakeGrantAgrees(s: Store, at: Time, key: string)
    ensures Prune(TakeGrant(s, key).0, at) == Prune(TakeGrant(Prune(s, at), key).0, at)
    ensures var (x, y) := (TakeGrant(s, key).1, TakeGrant(Prune(s, at), key).1);
            x == y || (x.Some? && Expired(x.value.expires, at) && y.None?)
  {
    var l, r := Prune(TakeGrant(s, key).0, at), Prune(TakeGrant(Prune(s, at), key).0, at);
    assert l.clients == r.clients && l.sessions == r.sessions && l.grants == r.grants;
  }

  lemma LookupSectionAgrees(s: Store, at: Time, key: string)
    ensures Prune(LookupSection(s, key, at).0, at) == Prune(s, at)
    ensures LookupSection(s, key, at).1 == SimpleLookup(Prune(s, at), key)
  {
    var l, r := Prune(LookupSection(s, key, at).0, at), Prune(s, at);
    assert l.clients == r.clients && l.sessions == r.sessions && l.grants == r.grants;
  }

  lemma RegisterSectionAgrees(s: Store, uris: seq<string>, at: Time, at2: Time, id: string)
    requires at <= at2
    ensures var (x, ok) := RegisterSection(s, uris, at, at2, id);
            var (y, yes) := SimpleRegister(Prune(s, at), uris, at2, id);
            ok == yes && Prune(x, at2) == Prune(y, at2)
  {
    FewerEntries(Prune(s, at).clients, s.clients);
    PrunePrune(s, at, at2);
    PruneInsertClient(s, at, at2, id, Client(uris, at2 + CLIENT_TTL));
  }

  lemma SessionSectionAgrees(s: Store, state: string, v: Session, at: Time, at2: Time)
    requires at <= at2
    ensures var ((x, ok), (y, yes)) := (SessionSection(s, state, v, at), SimpleSession(Prune(s, at), state, v));
            ok == yes && Prune(x, at2) == Prune(y, at2)
  {
    FewerEntries(Prune(s, at).sessions, s.sessions);
    PrunePrune(s, at, at2);
    PruneInsertSession(s, at, at2, state, v);
  }

  /** The same answer now, and alike ever after. */
  ghost predicate Agree(env: Env, c: Core, a: Core, e: Event) {
    && Step(env, c, e).1 == SimpleStep(env, a, e).1
    && Alike(Step(env, c, e).0, SimpleStep(env, a, e).0, e.End())
  }

  lemma RegisterAgrees(env: Env, c: Core, a: Core, e: Event)
    requires e.Register? && Alike(c, a, e.at) && e.at <= e.End()
    ensures Agree(env, c, a, e)
  {
    AlikeLater(c, a, e.at, e.at2);
    PrunePrune(c.store, e.at, e.at2);
    RegisterSectionAgrees(c.store, e.uris, e.at, e.at2, e.id);
  }

  lemma StoreAgrees(env: Env, c: Core, a: Core, e: Event)
    requires e.AuthorizeStore? && Alike(c, a, e.at) && e.at <= e.End()
    ensures Agree(env, c, a, e)
  {
    AlikeLater(c, a, e.at, e.at2);
    PrunePrune(c.store, e.at, e.at2);
    if e.h in c.flights {
      var f := c.flights[e.h];
      assert SameFlight(f, a.flights[e.h], e.at);
      if f.Authorizing? {
        SessionSectionAgrees(c.store, e.state, SessionOf(f.req, f.challengeMethod, e.verifier, e.at2), e.at, e.at2);
      }
    }
  }

  lemma LookupAgrees(env: Env, c: Core, a: Core, e: Event)
    requires e.AuthorizeLookup? && Alike(c, a, e.at)
    ensures Agree(env, c, a, e)
  {
    var p := Prune(c.store, e.at);
    PrunePrune(c.store, e.at, e.at);
    LookupSectionAgrees(c.store, e.at, e.areq.clientID);
    if AuthorizePrecheck(e.areq).Proceed? {
      var v := AuthorizeValidate(env, e.areq, SimpleLookup(p, e.areq.clientID));
      assert Step(env, c, e).0.store == LookupSection(c.store, e.areq.clientID, e.at).0;
      assert SimpleStep(env, a, e).0.store == p;
      if v.Proceed? {
        assert Step(env, c, e).0.flights == c.flights[e.h := Authorizing(e.areq, v.value)];
      }
    }
  }

  lemma SweepAgrees(env: Env, c: Core, a: Core, e: Event)
    requires e.Sweep? && Alike(c, a, e.at)
    ensures Agree(env, c, a, e)
  {
    PrunePrune(c.store, e.at, e.at);
  }

  lemma TakeCallbackAgrees(env: Env, c: Core, a: Core, e: Event)
    requires e.CallbackTake? && Alike(c, a, e.at)
    ensures Agree(env, c, a, e)
  {
    PrunePrune(c.store, e.at, e.at);
    TakeSessionAgrees(c.store, e.at, e.creq.state);
  }

  lemma TakeTokenAgrees(env: Env, c: Core, a: Core, e: Event)
    requires e.TokenTake? && Alike(c, a, e.at)
    ensures Agree(env, c, a, e)
  {
    PrunePrune(c.store, e.at, e.at);
    TakeGrantAgrees(c.store, e.at, e.treq.code);
    if TokenPrecheck(e.treq).Proceed? {
      assert Step(env, c, e).0.flights == c.flights[e.h := TokenTaken(e.treq, TakeGrant(c.store, e.treq.code).1)];
    }
  }

  lemma CheckAgrees(env: Env, c: Core, a: Core, e: Event)
    requires e.CallbackCheck? && Alike(c, a, e.at)
    ensures Agree(env, c, a, e)
  {
    PrunePrune(c.store, e.at, e.at);
    if e.h in c.flights { assert SameFlight(c.flights[e.h], a.flights[e.h], e.at); }
  }

  lemma ExchangeAgrees(env: Env, c: Core, a: Core, e: Event)
    requires e.Exchange? && Alike(c, a, e.at)
    ensures Agree(env, c, a, e)
  {
    PrunePrune(c.store, e.at, e.at);
    if e.h in c.flights { assert SameFlight(c.flights[e.h], a.flights[e.h], e.at); }
  }

  lemma VerifyAgrees(env: Env, c: Core, a: Core, e: Event)
    requires e.Verify? && Alike(c, a, e.at)
    ensures Agree(env, c, a, e)
  {
    PrunePrune(c.store, e.at, e.at);
    if e.h in c.flights { assert SameFlight(c.flights[e.h], a.flights[e.h], e.at); }
  }

  lemma FinishAgrees(env: Env, c: Core, a: Core, e: Event)
    requires e.TokenFinish? && Alike(c, a, e.at)
    ensures Agree(env, c, a, e)
  {
    PrunePrune(c.store, e.at, e.at);
    if e.h in c.flights { assert SameFlight(c.flights[e.h], a.flights[e.h], e.at); }
  }

  lemma GrantAgrees(env: Env, c: Core, a: Core, e: Event)
    requires e.CallbackGrant? && Alike(c, a, e.at)
    ensures Agree(env, c, a, e)
  {
    PrunePrune(c.store, e.at, e.at);
    if e.h in c.flights {
      var f := c.flights[e.h];
      assert SameFlight(f, a.flights[e.h], e.at);
      if f.CallbackVerified? {
        PruneInsertGrant(c.store, e.at, e.code, GrantOf(f.session, f.token, f.expiresIn, e.at));
      }
    }
  }

  lemma StepAgrees(env: Env, c: Core, a: Core, e: Event)
    requires Alike(c, a, e.at) && e.at <= e.End()
    ensures Agree(env, c, a, e)
  {
    match e
    case Register(_, _, _, _) => RegisterAgrees(env, c, a, e);
    case AuthorizeStore(_, _, _, _, _) => StoreAgrees(env, c, a, e);
    case AuthorizeLookup(_, _, _) => LookupAgrees(env, c, a, e);
    case Sweep(_) => SweepAgrees(env, c, a, e);
    case CallbackTake(_, _, _) => TakeCallbackAgrees(env, c, a, e);
    case TokenTake(_, _, _) => TakeTokenAgrees(env, c, a, e);
    case CallbackGrant(_, _, _) => GrantAgrees(env, c, a, e);
    case CallbackCheck(_, _) => CheckAgrees(env, c, a, e);
    case Exchange(_, _, _) => ExchangeAgrees(env, c, a, e);
    case Verify(_, _, _) => VerifyAgrees(env, c, a, e);
    case TokenFinish(_, _) => FinishAgrees(env, c, a, e);
  }

  // ---- Runs ----

  function Responses(env: Env, c: Core, es: seq<Event>): seq<Option<Response>>
    decreases |es|
  {
    if es == [] then []
    else
      var (c', r) := Step(env, c, es[0]);
      [r] + Responses(env, c', es[1..])
  }

  function SimpleResponses(env: Env, a: Core, es: seq<Event>): seq<Option<Response>>
    decreases |es|
  {
    if es == [] then []
    else
      var (a', r) := SimpleStep(env, a, es[0]);
      [r] + SimpleResponses(env, a', es[1..])
  }

  lemma {:induction false} RunsAgree(env: Env, s: System, a: Core, es: seq<Event>)
    requires ValidRun(env, s, es) && Alike(s.core, a, s.clock)
    ensures Responses(env, s.core, es) == SimpleResponses(env, a, es)
    decreases |es|
  {
    if es != [] {
      var e := es[0];
      AlikeLater(s.core, a, s.clock, e.at);
      StepAgrees(env, s.core, a, e);
      RunsAgree(env, Next(env, s, e), SimpleStep(env, a, e).0, es[1..]);
    }
  }

  /** Whatever the requests, the interleaving and the timing of the sweeps,
      the proxy answers as the simple store would. */
  lemma LazyExpiryIsInvisible(env: Env, es: seq<Event>)
    requires ValidRun(env, INITIAL, es)
    ensures Responses(env, INITIAL.core, es) == SimpleResponses(env, INITIAL.core, es)
  {
    RunsAgree(env, INITIAL, INITIAL.core, es);
  }
}
