/** The proxy as a transition system. A step is one locked section or one
    unlocked stretch of one request handler, or one tick of the sweeper;
    handlers between their steps are in flight and keep their local variables
    there, so every interleaving of the source's lock regions is a run here. */
module OAuthProtocol {
  import opened Common
  import opened OAuthModel

  /** The local variables of a handler that has released the lock. */
  datatype Flight =
    | Authorizing(req: AuthorizeRequest, challengeMethod: string)
    | CallbackTaken(creq: CallbackRequest, found: Option<Session>)
    | CallbackChecked(state: string, session: Session, code: string)
    | CallbackExchanged(state: string, session: Session, token: string, expiresIn: int)
    | CallbackVerified(state: string, session: Session, token: string, expiresIn: int)
    | TokenTaken(treq: TokenRequest, grant: Option<Grant>)

  datatype UpstreamToken = UpstreamToken(token: string, expiresIn: int)

  /** Every choice the environment makes: which handler moves, what was asked,
      what the clock reads, which random values come out, and what the
      upstream provider and the verifier answer. */
  datatype Event =
    | Register(uris: seq<string>, at: Time, at2: Time, id: string)
    | AuthorizeLookup(h: nat, areq: AuthorizeRequest, at: Time)
    | AuthorizeStore(h: nat, at: Time, at2: Time, state: string, verifier: string)
    | CallbackTake(h: nat, creq: CallbackRequest, at: Time)
    | CallbackCheck(h: nat, at: Time)
    | Exchange(h: nat, at: Time, result: Option<UpstreamToken>)
    | Verify(h: nat, at: Time, ok: bool)
    | CallbackGrant(h: nat, at: Time, code: string)
    | TokenTake(h: nat, treq: TokenRequest, at: Time)
    | TokenFinish(h: nat, at: Time)
    | Sweep(at: Time)
  {
    function End(): Time {
      match this
      case Register(_, _, at2, _) => at2
      case AuthorizeStore(_, _, at2, _, _) => at2
      case _ => at
    }
  }

  datatype Core = Core(store: Store, flights: map<nat, Flight>)

  /** What a step may write to the history. The handlers cannot read it. */
  datatype Entry =
    | Created(state: string, req: AuthorizeRequest, session: Session, at: Time)
    | Taken(state: string, h: nat)
    | Checked(state: string, at: Time)
    | Failed(state: string)
    | Exchanged(state: string, upstreamCode: string, verifier: string, token: string)
    | VerifiedOk(state: string, token: string)
    | Issued(state: string, code: string, grant: Grant, at: Time)
    | Burned(code: string, h: nat)
    | Rejected(code: string)
    | Delivered(code: string, treq: TokenRequest, token: string, at: Time)
    | Swept(states: set<string>, codes: set<string>)

  datatype System = System(core: Core, clock: Time, used: set<string>, log: seq<Entry>)

  const INITIAL := System(Core(EMPTY_STORE, map[]), 0, {}, [])

  // ---- Steps ----

  type Outcome = (Core, Option<Response>)

  function Continue(c: Core, h: nat, f: Flight): Core { c.(flights := c.flights[h := f]) }

  function Finish(c: Core, h: nat): Core { c.(flights := c.flights - {h}) }

  function RegisterStep(env: Env, c: Core, uris: seq<string>, at: Time, at2: Time, id: string): Outcome {
    if uris == [] || exists i :: 0 <= i < |uris| && !AllowedRedirectURI(env, uris[i]) then
      (c, Some(Error(400, "invalid_redirect_uri")))
    else
      var (store, ok) := RegisterSection(c.store, uris, at, at2, id);
      (c.(store := store), Some(if ok then Registered(id, uris) else Error(503, "server_error")))
  }

  function AuthorizeLookupStep(env: Env, c: Core, h: nat, req: AuthorizeRequest, at: Time): Outcome {
    match AuthorizePrecheck(req)
    case Refuse(resp) => (c, Some(resp))
    case Proceed(id) =>
      var (store, client) := LookupSection(c.store, id, at);
      var c1 := c.(store := store);
      match AuthorizeValidate(env, req, client)
      case Refuse(resp) => (c1, Some(resp))
      case Proceed(challengeMethod) => (Continue(c1, h, Authorizing(req, challengeMethod)), None)
  }

  function AuthorizeStoreStep(
    env: Env, c: Core, h: nat, at: Time, at2: Time, state: string, verifier: string): Outcome
  {
    if h in c.flights && c.flights[h].Authorizing? then
      var f := c.flights[h];
      var (store, ok) := SessionSection(c.store, state, SessionOf(f.req, f.challengeMethod, verifier, at2), at);
      (Finish(c.(store := store), h),
       Some(if ok then UpstreamRedirect(state, env.s256(verifier)) else Error(503, "temporarily_unavailable")))
    else (c, None)
  }

  function CallbackTakeStep(c: Core, h: nat, req: CallbackRequest): Outcome {
    var (store, found) := TakeSession(c.store, req.state);
    (Continue(c.(store := store), h, CallbackTaken(req, found)), None)
  }

  function CallbackCheckStep(c: Core, h: nat, at: Time): Outcome {
    if h in c.flights && c.flights[h].CallbackTaken? then
      var f := c.flights[h];
      match CallbackVerdict(f.creq, f.found, at)
      case Refuse(resp) => (Finish(c, h), Some(resp))
      case Proceed(session) => (Continue(c, h, CallbackChecked(f.creq.state, session, f.creq.code)), None)
    else (c, None)
  }

  function ExchangeStep(c: Core, h: nat, result: Option<UpstreamToken>): Outcome {
    if h in c.flights && c.flights[h].CallbackChecked? then
      var f := c.flights[h];
      match result
      case None => (Finish(c, h), Some(Error(502, "authorization failed")))
      case Some(t) => (Continue(c, h, CallbackExchanged(f.state, f.session, t.token, t.expiresIn)), None)
    else (c, None)
  }

  function VerifyStep(c: Core, h: nat, ok: bool): Outcome {
    if h in c.flights && c.flights[h].CallbackExchanged? then
      var f := c.flights[h];
      if ok then (Continue(c, h, CallbackVerified(f.state, f.session, f.token, f.expiresIn)), None)
      else (Finish(c, h), Some(Error(502, "token rejected")))
    else (c, None)
  }

  function CallbackGrantStep(c: Core, h: nat, at: Time, code: string): Outcome {
    if h in c.flights && c.flights[h].CallbackVerified? then
      var f := c.flights[h];
      (Finish(c.(store := GrantSection(c.store, code, GrantOf(f.session, f.token, f.expiresIn, at))), h),
       Some(ClientRedirect(f.session.redirectURI, WithState(map["code" := code], f.session.clientState))))
    else (c, None)
  }

  function TokenTakeStep(c: Core, h: nat, req: TokenRequest): Outcome {
    match TokenPrecheck(req)
    case Refuse(resp) => (c, Some(resp))
    case Proceed(code) =>
      var (store, grant) := TakeGrant(c.store, code);
      (Continue(c.(store := store), h, TokenTaken(req, grant)), None)
  }

  function TokenFinishStep(env: Env, c: Core, h: nat, at: Time): Outcome {
    if h in c.flights && c.flights[h].TokenTaken? then
      var f := c.flights[h];
      (Finish(c, h), Some(TokenAnswer(env, f.treq, f.grant, at)))
    else (c, None)
  }

  function Step(env: Env, c: Core, e: Event): Outcome {
    match e
    case Register(uris, at, at2, id) => RegisterStep(env, c, uris, at, at2, id)
    case AuthorizeLookup(h, req, at) => AuthorizeLookupStep(env, c, h, req, at)
    case AuthorizeStore(h, at, at2, state, verifier) => AuthorizeStoreStep(env, c, h, at, at2, state, verifier)
    case CallbackTake(h, req, at) => CallbackTakeStep(c, h, req)
    case CallbackCheck(h, at) => CallbackCheckStep(c, h, at)
    case Exchange(h, at, result) => ExchangeStep(c, h, result)
    case Verify(h, at, ok) => VerifyStep(c, h, ok)
    case CallbackGrant(h, at, code) => CallbackGrantStep(c, h, at, code)
    case TokenTake(h, req, at) => TokenTakeStep(c, h, req)
    case TokenFinish(h, at) => TokenFinishStep(env, c, h, at)
    case Sweep(at) => (c.(store := Prune(c.store, at)), None)
  }

  // ---- History ----

  function SweepEntry(s: Store, now: Time): Entry {
    var r := Prune(s, now);
    Swept(s.sessions.Keys - r.sessions.Keys, s.grants.Keys - r.grants.Keys)
  }

  /** A section sweeps when it found its map full. */
  predicate SweepsFirst(env: Env, c: Core, e: Event) {
    match e
    case Register(uris, _, _, _) =>
      uris != [] && (forall i :: 0 <= i < |uris| ==> AllowedRedirectURI(env, uris[i]))
      && |c.store.clients| >= MAX_CLIENTS
    case AuthorizeStore(h, _, _, _, _) =>
      h in c.flights && c.flights[h].Authorizing? && |c.store.sessions| >= MAX_SESSIONS
    case Sweep(_) => true
    case _ => false
  }

  /** What the step itself adds once any sweep it starts with is done. */
  function ActionEntry(env: Env, c: Core, e: Event): seq<Entry> {
    match e
    case AuthorizeStore(h, at, at2, state, verifier) =>
      if h in c.flights && c.flights[h].Authorizing? && |c.store.sessions| < MAX_SESSIONS then
        var f := c.flights[h];
        [Created(state, f.req, SessionOf(f.req, f.challengeMethod, verifier, at2), at2)]
      else []
    case CallbackTake(h, req, _) =>
      if req.state in c.store.sessions then [Taken(req.state, h)] else []
    case CallbackCheck(h, at) =>
      if h in c.flights && c.flights[h].CallbackTaken? && c.flights[h].found.Some? then
        var f := c.flights[h];
        if CallbackVerdict(f.creq, f.found, at).Proceed? then [Checked(f.creq.state, at)]
        else [Failed(f.creq.state)]
      else []
    case Exchange(h, _, result) =>
      if h in c.flights && c.flights[h].CallbackChecked? then
        var f := c.flights[h];
        if result.Some? then [Exchanged(f.state, f.code, f.session.verifier, result.value.token)]
        else [Failed(f.state)]
      else []
    case Verify(h, _, ok) =>
      if h in c.flights && c.flights[h].CallbackExchanged? then
        var f := c.flights[h];
        if ok then [VerifiedOk(f.state, f.token)] else [Failed(f.state)]
      else []
    case CallbackGrant(h, at, code) =>
      if h in c.flights && c.flights[h].CallbackVerified? then
        var f := c.flights[h];
        [Issued(f.state, code, GrantOf(f.session, f.token, f.expiresIn, at), at)]
      else []
    case TokenTake(h, req, _) =>
      if TokenPrecheck(req).Proceed? && req.code in c.store.grants then [Burned(req.code, h)] else []
    case TokenFinish(h, at) =>
      if h in c.flights && c.flights[h].TokenTaken? && c.flights[h].grant.Some? then
        var f := c.flights[h];
        match TokenAnswer(env, f.treq, f.grant, at)
        case Token(token, _, _) => [Delivered(f.treq.code, f.treq, token, at)]
        case _ => [Rejected(f.treq.code)]
      else []
    case _ => []
  }

  /** The state in which the step's own action happens. */
  function Swept1(env: Env, s: System, e: Event): System {
    if SweepsFirst(env, s.core, e) then
      s.(core := s.core.(store := Prune(s.core.store, e.at)),
         log := s.log + [SweepEntry(s.core.store, e.at)])
    else s
  }

  function Tokens(e: Event): set<string> {
    match e
    case Register(_, _, _, id) => {id}
    case AuthorizeStore(_, _, _, state, _) => {state}
    case CallbackGrant(_, _, code) => {code}
    case _ => {}
  }

  function Next(env: Env, s: System, e: Event): System {
    var s1 := Swept1(env, s, e);
    System(Step(env, s.core, e).0, e.End(), s.used + Tokens(e), s1.log + ActionEntry(env, s1.core, e))
  }

  // ---- Runs ----

  /** Random tokens are fresh over the whole run, the clock never goes back
      (and a section that reads it twice reads it in order), a request gets a
      handler of its own, and a successful exchange has a token in it. */
  predicate Enabled(s: System, e: Event) {
    && s.clock <= e.at <= e.End()
    && Tokens(e) !! s.used
    && (e.AuthorizeLookup? || e.CallbackTake? || e.TokenTake? ==> e.h !in s.core.flights)
    && (e.Exchange? && e.result.Some? ==> e.result.value.token != "")
  }

  predicate ValidRun(env: Env, s: System, es: seq<Event>)
    decreases |es|
  {
    es == [] || (Enabled(s, es[0]) && ValidRun(env, Next(env, s, es[0]), es[1..]))
  }

  function After(env: Env, s: System, es: seq<Event>): System
    decreases |es|
  {
    if es == [] then s else After(env, Next(env, s, es[0]), es[1..])
  }

  ghost predicate Reachable(env: Env, s: System) {
    exists es :: ValidRun(env, INITIAL, es) && After(env, INITIAL, es) == s
  }

  // ---- Capacity and redirect targets ----

  predicate WithinCapacity(c: Core) {
    StoreWithin(c.store)
  }

  predicate StoreWithin(s: Store) { |s.clients| <= MAX_CLIENTS && |s.sessions| <= MAX_SESSIONS }

  lemma PruneWithin(s: Store, at: Time)
    requires StoreWithin(s)
    ensures StoreWithin(Prune(s, at))
  {
    FewerEntries(Prune(s, at).clients, s.clients);
    FewerEntries(Prune(s, at).sessions, s.sessions);
  }

  lemma RegisterWithin(s: Store, uris: seq<string>, at: Time, at2: Time, id: string)
    requires StoreWithin(s)
    ensures StoreWithin(RegisterSection(s, uris, at, at2, id).0)
  {
    PruneWithin(s, at);
  }

  lemma SessionWithin(s: Store, state: string, session: Session, at: Time)
    requires StoreWithin(s)
    ensures StoreWithin(SessionSection(s, state, session, at).0)
  {
    PruneWithin(s, at);
  }

  lemma StoreStepWithin(env: Env, c: Core, e: Event)
    requires WithinCapacity(c) && e.AuthorizeStore?
    ensures WithinCapacity(Step(env, c, e).0)
  {
    if e.h in c.flights && c.flights[e.h].Authorizing? {
      var f := c.flights[e.h];
      SessionWithin(c.store, e.state, SessionOf(f.req, f.challengeMethod, e.verifier, e.at2), e.at);
    }
  }

  /** A step only adds to a map it has found below its limit, or removes. */
  lemma CapacityKept(env: Env, c: Core, e: Event)
    requires WithinCapacity(c)
    ensures WithinCapacity(Step(env, c, e).0)
  {
    match e
    case Register(uris, at, at2, id) => RegisterWithin(c.store, uris, at, at2, id);
    case AuthorizeStore(_, _, _, _, _) => StoreStepWithin(env, c, e);
    case Sweep(at) => PruneWithin(c.store, at);
    case _ => OthersWithin(env, c, e);
  }

  /** The other steps add no clients and no sessions. */
  lemma OthersWithin(env: Env, c: Core, e: Event)
    requires WithinCapacity(c) && !e.Register? && !e.AuthorizeStore? && !e.Sweep?
    ensures WithinCapacity(Step(env, c, e).0)
  {
    OthersOnlyRemove(env, c, e);
    FewerEntries(Step(env, c, e).0.store.clients, c.store.clients);
    FewerEntries(Step(env, c, e).0.store.sessions, c.store.sessions);
  }

  lemma OthersOnlyRemove(env: Env, c: Core, e: Event)
    requires !e.Register? && !e.AuthorizeStore? && !e.Sweep?
    ensures Step(env, c, e).0.store.clients.Keys <= c.store.clients.Keys
    ensures Step(env, c, e).0.store.sessions.Keys <= c.store.sessions.Keys
  {
  }

  /** Registration refuses for capacity exactly when 10000 clients are still
      alive at the moment of the call, however much expired rubbish is
      stored. */
  lemma RegisterRefusesExactlyWhenFull(env: Env, c: Core, uris: seq<string>, at: Time, at2: Time, id: string)
    requires uris != [] && forall i :: 0 <= i < |uris| ==> AllowedRedirectURI(env, uris[i])
    ensures Step(env, c, Register(uris, at, at2, id)).1 == Some(Error(503, "server_error"))
            <==> |Prune(c.store, at).clients| >= MAX_CLIENTS
  {
    FewerEntries(Prune(c.store, at).clients, c.store.clients);
  }

  lemma AuthorizeRefusesExactlyWhenFull(env: Env, c: Core, h: nat, at: Time, at2: Time, state: string, verifier: string)
    requires h in c.flights && c.flights[h].Authorizing?
    ensures Step(env, c, AuthorizeStore(h, at, at2, state, verifier)).1 == Some(Error(503, "temporarily_unavailable"))
            <==> |Prune(c.store, at).sessions| >= MAX_SESSIONS
  {
    FewerEntries(Prune(c.store, at).sessions, c.store.sessions);
  }

  /** The session an in-flight callback holds. */
  function HeldSession(f: Flight): Option<Session> {
    match f
    case CallbackTaken(_, found) => found
    case CallbackChecked(_, session, _) => Some(session)
    case CallbackExchanged(_, session, _, _) => Some(session)
    case CallbackVerified(_, session, _, _) => Some(session)
    case _ => None
  }

  ghost predicate FlightAllowed(env: Env, f: Flight) {
    && (f.Authorizing? ==> AllowedRedirectURI(env, f.req.redirectURI))
    && (HeldSession(f).Some? ==> AllowedRedirectURI(env, HeldSession(f).value.redirectURI))
    && (f.TokenTaken? && f.grant.Some? ==> AllowedRedirectURI(env, f.grant.value.redirectURI))
  }

  ghost predicate ClientAllowed(env: Env, c: Client) {
    forall i :: 0 <= i < |c.redirectURIs| ==> AllowedRedirectURI(env, c.redirectURIs[i])
  }

  /** Every redirect URI anywhere in the proxy was accepted by
      AllowedRedirectURI. */
  ghost predicate RedirectsAllowed(env: Env, c: Core) {
    && (forall k | k in c.store.clients :: ClientAllowed(env, c.store.clients[k]))
    && (forall k | k in c.store.sessions :: AllowedRedirectURI(env, c.store.sessions[k].redirectURI))
    && (forall k | k in c.store.grants :: AllowedRedirectURI(env, c.store.grants[k].redirectURI))
    && (forall h | h in c.flights :: FlightAllowed(env, c.flights[h]))
  }

  lemma PruneKeepsAllowed(env: Env, c: Core, at: Time)
    requires RedirectsAllowed(env, c)
    ensures RedirectsAllowed(env, c.(store := Prune(c.store, at)))
  {
  }

  lemma RegisterKeepsAllowed(env: Env, c: Core, uris: seq<string>, at: Time, at2: Time, id: string)
    requires RedirectsAllowed(env, c)
    ensures RedirectsAllowed(env, RegisterStep(env, c, uris, at, at2, id).0)
  {
    PruneKeepsAllowed(env, c, at);
  }

  lemma AuthorizeKeepsAllowed(env: Env, c: Core, h: nat, req: AuthorizeRequest, at: Time)
    requires RedirectsAllowed(env, c)
    ensures RedirectsAllowed(env, AuthorizeLookupStep(env, c, h, req, at).0)
  {
    var (store, client) := LookupSection(c.store, req.clientID, at);
    if client.Some? && req.redirectURI in client.value.redirectURIs {
      assert ClientAllowed(env, client.value);
      assert AllowedRedirectURI(env, req.redirectURI);
    }
  }

  lemma StoreKeepsAllowed(env: Env, c: Core, h: nat, at: Time, at2: Time, state: string, verifier: string)
    requires RedirectsAllowed(env, c)
    ensures RedirectsAllowed(env, AuthorizeStoreStep(env, c, h, at, at2, state, verifier).0)
  {
    PruneKeepsAllowed(env, c, at);
    if h in c.flights { assert FlightAllowed(env, c.flights[h]); }
  }

  lemma TakeKeepsAllowed(env: Env, c: Core, e: Event)
    requires RedirectsAllowed(env, c)
    requires e.CallbackTake? || e.TokenTake?
    ensures RedirectsAllowed(env, Step(env, c, e).0)
  {
  }

  lemma CallbackKeepsAllowed(env: Env, c: Core, e: Event)
    requires RedirectsAllowed(env, c)
    requires e.CallbackCheck? || e.Exchange? || e.Verify? || e.CallbackGrant?
    ensures RedirectsAllowed(env, Step(env, c, e).0)
    ensures var r := Step(env, c, e).1;
            r.Some? && r.value.ClientRedirect? ==> AllowedRedirectURI(env, r.value.uri)
  {
    if e.h in c.flights {
      assert FlightAllowed(env, c.flights[e.h]);
    }
  }

  lemma RedirectsStayAllowed(env: Env, c: Core, e: Event)
    requires RedirectsAllowed(env, c)
    ensures RedirectsAllowed(env, Step(env, c, e).0)
    ensures var r := Step(env, c, e).1;
            r.Some? && r.value.ClientRedirect? ==> AllowedRedirectURI(env, r.value.uri)
  {
    match e
    case Register(uris, at, at2, id) => RegisterKeepsAllowed(env, c, uris, at, at2, id);
    case AuthorizeLookup(h, req, at) => AuthorizeKeepsAllowed(env, c, h, req, at);
    case AuthorizeStore(h, at, at2, state, verifier) =>
      StoreKeepsAllowed(env, c, h, at, at2, state, verifier);
    case Sweep(at) => PruneKeepsAllowed(env, c, at);
    case TokenTake(_, _, _) => TakeKeepsAllowed(env, c, e);
    case CallbackTake(_, _, _) => TakeKeepsAllowed(env, c, e);
    case TokenFinish(_, _) =>
    case _ => CallbackKeepsAllowed(env, c, e);
  }

  /** In every run both maps stay within their limits, and the browser is only
      ever sent to an allowed redirect URI, also when the client record vanished
      between the two sections of an authorize request. */
  lemma {:induction false} RunsAreSafe(env: Env, s: System, es: seq<Event>)
    requires WithinCapacity(s.core) && RedirectsAllowed(env, s.core)
    ensures WithinCapacity(After(env, s, es).core)
    ensures RedirectsAllowed(env, After(env, s, es).core)
    ensures forall k | 0 <= k < |es| ::
              var r := Step(env, After(env, s, es[..k]).core, es[k]).1;
              r.Some? && r.value.ClientRedirect? ==> AllowedRedirectURI(env, r.value.uri)
    decreases |es|
  {
    forall k | 0 <= k < |es|
      ensures var r := Step(env, After(env, s, es[..k]).core, es[k]).1;
              r.Some? && r.value.ClientRedirect? ==> AllowedRedirectURI(env, r.value.uri)
    {
      RunsAreSafe(env, s, es[..k]);
      RedirectsStayAllowed(env, After(env, s, es[..k]).core, es[k]);
    }
    if es != [] {
      CapacityKept(env, s.core, es[0]);
      RedirectsStayAllowed(env, s.core, es[0]);
      RunsAreSafe(env, Next(env, s, es[0]), es[1..]);
    }
  }

  /** So from the empty proxy: in every reachable state, and for everything
      that may happen next. A proxy as constructed only ever redirects to http
      on a loopback host. */
  lemma ReachableIsSafe(env: Env, s: System, e: Event)
    requires Reachable(env, s)
    ensures |s.core.store.clients| <= MAX_CLIENTS && |s.core.store.sessions| <= MAX_SESSIONS
    ensures RedirectsAllowed(env, s.core)
    ensures var r := Step(env, s.core, e).1;
            r.Some? && r.value.ClientRedirect? ==>
              && AllowedRedirectURI(env, r.value.uri)
              && (env.allowedPrefixes == [] ==> LoopbackHttp(env, r.value.uri))
  {
    var es :| ValidRun(env, INITIAL, es) && After(env, INITIAL, es) == s;
    RunsAreSafe(env, INITIAL, es);
    RedirectsStayAllowed(env, s.core, e);
    var r := Step(env, s.core, e).1;
    if r.Some? && r.value.ClientRedirect? && env.allowedPrefixes == [] {
      OnlyLoopbackHttpAllowed(env, r.value.uri);
    }
  }

  /** A token request, whether or not it succeeds, removes its own code and
      touches nothing else. */
  lemma TokenRequestBurnsOnlyItsCode(env: Env, c: Core, h: nat, req: TokenRequest, at: Time, at2: Time)
    requires h !in c.flights && TokenPrecheck(req).Proceed?
    ensures var c1 := Step(env, c, TokenTake(h, req, at)).0;
            var c2 := Step(env, c1, TokenFinish(h, at2)).0;
            c1.store == c2.store == c.store.(grants := c.store.grants - {req.code})
            && c2.flights == c.flights
  {
    var c2 := Step(env, Step(env, c, TokenTake(h, req, at)).0, TokenFinish(h, at2)).0;
    assert c2.flights == c.flights;
  }
}
