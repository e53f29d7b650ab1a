/** The values of the OAuth authorization-server proxy: its three maps, the
    requests it reads, the responses it writes, and what each locked section
    and each unlocked stretch of a handler computes. Clock readings and random
    tokens are parameters; URL parsing, SHA-256 and IP parsing are functions
    of an Env that nothing here constrains. */
module OAuthModel {
  import opened Common

  /** Nanoseconds, as Go's time.Duration counts them. */
  type Time = int

  const SECOND: int := 1_000_000_000
  const CLIENT_TTL: int := 24 * 3600 * SECOND
  const SESSION_TTL: int := 10 * 60 * SECOND
  const GRANT_TTL: int := 2 * 60 * SECOND
  const MAX_CLIENTS: int := 10000
  const MAX_SESSIONS: int := 10000

  datatype Url = Url(scheme: string, host: string, hostname: string)

  /** Everything the handlers call but do not define, and the two fields of
      the proxy that are fixed at construction. */
  datatype Env = Env(
    parse: string -> Option<Url>,
    loopbackIP: string -> bool,
    s256: string -> string,
    scopes: string,
    allowedPrefixes: seq<string>)

  datatype Client = Client(redirectURIs: seq<string>, expires: Time)

  datatype Session = Session(
    clientID: string,
    redirectURI: string,
    clientState: string,
    challenge: string,
    challengeMethod: string,
    verifier: string,
    expires: Time)

  datatype Grant = Grant(
    accessToken: string,
    expiresIn: int,
    clientID: string,
    redirectURI: string,
    challenge: string,
    challengeMethod: string,
    expires: Time)

  datatype Store = Store(
    clients: map<string, Client>,
    sessions: map<string, Session>,
    grants: map<string, Grant>)

  const EMPTY_STORE := Store(map[], map[], map[])

  // ---- Requests and responses ----

  datatype AuthorizeRequest = AuthorizeRequest(
    responseType: string, clientID: string, redirectURI: string,
    state: string, challenge: string, challengeMethod: string)

  datatype CallbackRequest = CallbackRequest(
    state: string, error: string, errorDescription: string, code: string)

  datatype TokenRequest = TokenRequest(
    grantType: string, formClientID: string, basicID: Option<string>,
    code: string, redirectURI: string, verifier: string)
  {
    /** The form's client_id, or the user name of HTTP basic authentication
        when the form has none. */
    function ClientID(): string {
      if formClientID == "" && basicID.Some? then basicID.value else formClientID
    }
  }

  datatype Response =
    | Error(status: int, code: string)
    | Registered(clientID: string, redirectURIs: seq<string>)
    | UpstreamRedirect(state: string, challenge: string)
    | ClientRedirect(uri: string, params: map<string, string>)
    | Token(accessToken: string, expiresIn: Option<int>, scope: string)

  /** An unlocked stretch either ends the request or carries on with a value. */
  datatype Verdict<+T> = Refuse(response: Response) | Proceed(value: T)

  // ---- Leaf predicates ----

  predicate IsLoopbackHost(env: Env, host: string) {
    host == "localhost" || env.loopbackIP(host)
  }

  predicate AllowedRedirectURI(env: Env, raw: string) {
    match env.parse(raw)
    case None => false
    case Some(u) =>
      if u.scheme == "" || u.host == "" then false
      else if u.scheme == "http" && IsLoopbackHost(env, u.hostname) then true
      else if u.scheme != "https" then false
      else exists i :: 0 <= i < |env.allowedPrefixes| && env.allowedPrefixes[i] <= raw
  }

  predicate PkceMatches(env: Env, challenge: string, verifier: string, challengeMethod: string) {
    if challengeMethod == "S256" then challenge == env.s256(verifier) else challenge == verifier
  }

  predicate LoopbackHttp(env: Env, raw: string) {
    var u := env.parse(raw);
    u.Some? && u.value.scheme == "http" && u.value.host != "" && IsLoopbackHost(env, u.value.hostname)
  }

  /** A constructed proxy has no allowed prefixes, so the https branch can
      never accept: only http on a loopback host gets through, although the
      comment on the source function promises https anywhere. */
  lemma OnlyLoopbackHttpAllowed(env: Env, raw: string)
    requires env.allowedPrefixes == []
    ensures AllowedRedirectURI(env, raw) <==> LoopbackHttp(env, raw)
  {
    if env.parse(raw).Some? {
      var u := env.parse(raw).value;
      if u.scheme == "https" {
        assert "https"[4] == 's' && |"http"| == 4;
      }
    }
  }

  // ---- Expiry ----

  predicate Expired(expires: Time, now: Time) { now > expires }

  function Prune(s: Store, now: Time): (r: Store)
    ensures r.clients.Keys <= s.clients.Keys
    ensures r.sessions.Keys <= s.sessions.Keys
    ensures r.grants.Keys <= s.grants.Keys
  {
    Store(LiveClients(s.clients, now), LiveSessions(s.sessions, now), LiveGrants(s.grants, now))
  }

  function LiveClients(m: map<string, Client>, now: Time): map<string, Client> {
    map k | k in m && !Expired(m[k].expires, now) :: m[k]
  }

  function LiveSessions(m: map<string, Session>, now: Time): map<string, Session> {
    map k | k in m && !Expired(m[k].expires, now) :: m[k]
  }

  function LiveGrants(m: map<string, Grant>, now: Time): map<string, Grant> {
    map k | k in m && !Expired(m[k].expires, now) :: m[k]
  }

  /** An entry that has expired stays expired, so pruning twice is pruning at
      the later moment. */
  lemma PrunePrune(s: Store, t: Time, u: Time)
    requires t <= u
    ensures Prune(Prune(s, t), u) == Prune(s, u)
  {
    var a, b := Prune(Prune(s, t), u), Prune(s, u);
    assert a.clients == b.clients;
    assert a.sessions == b.sessions;
    assert a.grants == b.grants;
  }

  lemma FewerEntries<V>(a: map<string, V>, b: map<string, V>)
    requires a.Keys <= b.Keys
    ensures |a| <= |b|
  {
    SmallerSet(a.Keys, b.Keys);
  }

  lemma SmallerSet<T>(a: set<T>, b: set<T>)
    requires a <= b
    ensures |a| <= |b|
  {
    assert b == a + (b - a);
  }

  // ---- Locked sections ----

  /** registerClient, lines 669-682: on a full map, clean up and look again. The first
      reading of the clock is used by the clean-up, the second stamps the
      new client. */
  function RegisterSection(s: Store, uris: seq<string>, at: Time, at2: Time, id: string): (Store, bool) {
    var s1 := if |s.clients| >= MAX_CLIENTS then Prune(s, at) else s;
    if |s1.clients| >= MAX_CLIENTS then (s1, false)
    else (s1.(clients := s1.clients[id := Client(uris, at2 + CLIENT_TTL)]), true)
  }

  /** The first section of handleAuthorize, lines 278-284: an expired client is deleted on sight. */
  function LookupSection(s: Store, id: string, at: Time): (Store, Option<Client>) {
    if id in s.clients && Expired(s.clients[id].expires, at) then (s.(clients := s.clients - {id}), None)
    else if id in s.clients then (s, Some(s.clients[id]))
    else (s, None)
  }

  /** The second section of handleAuthorize, lines 331-349. */
  function SessionSection(s: Store, state: string, session: Session, at: Time): (Store, bool) {
    var s1 := if |s.sessions| >= MAX_SESSIONS then Prune(s, at) else s;
    if |s1.sessions| >= MAX_SESSIONS then (s1, false)
    else (s1.(sessions := s1.sessions[state := session]), true)
  }

  /** The first section of handleCallback, lines 379-382. */
  function TakeSession(s: Store, state: string): (Store, Option<Session>) {
    (s.(sessions := s.sessions - {state}),
     if state in s.sessions then Some(s.sessions[state]) else None)
  }

  /** The second section of handleCallback, lines 429-439. */
  function GrantSection(s: Store, code: string, grant: Grant): Store {
    s.(grants := s.grants[code := grant])
  }

  /** The section of handleToken, lines 505-510. */
  function TakeGrant(s: Store, code: string): (Store, Option<Grant>) {
    (s.(grants := s.grants - {code}),
     if code in s.grants then Some(s.grants[code]) else None)
  }

  // ---- Unlocked stretches ----

  function AuthorizePrecheck(req: AuthorizeRequest): Verdict<string> {
    if req.responseType != "code" then Refuse(Error(400, "unsupported_response_type"))
    else if req.clientID == "" then Refuse(Error(400, "invalid_client"))
    else Proceed(req.clientID)
  }

  /** handleAuthorize, lines 286-322; carries on with the effective challenge method. */
  function AuthorizeValidate(env: Env, req: AuthorizeRequest, client: Option<Client>): Verdict<string> {
    if client.Some? && req.redirectURI !in client.value.redirectURIs then
      Refuse(Error(400, "invalid_redirect_uri"))
    else if client.None? && !AllowedRedirectURI(env, req.redirectURI) then
      Refuse(Error(400, "invalid_redirect_uri"))
    else if req.challenge == "" then Refuse(Error(400, "invalid_request"))
    else
      var challengeMethod := if req.challengeMethod == "" then "plain" else req.challengeMethod;
      if challengeMethod != "S256" && challengeMethod != "plain" then Refuse(Error(400, "invalid_request"))
      else Proceed(challengeMethod)
  }

  function SessionOf(req: AuthorizeRequest, challengeMethod: string, verifier: string, now: Time): Session {
    Session(req.clientID, req.redirectURI, req.state, req.challenge, challengeMethod, verifier, now + SESSION_TTL)
  }

  function WithState(params: map<string, string>, clientState: string): map<string, string> {
    if clientState == "" then params else params["state" := clientState]
  }

  function ErrorParams(req: CallbackRequest, session: Session): map<string, string> {
    var dest := map["error" := req.error];
    var dest1 := if req.errorDescription == "" then dest
                 else dest["error_description" := req.errorDescription];
    WithState(dest1, session.clientState)
  }

  /** handleCallback, lines 384-409; carries on with the session to exchange. */
  function CallbackVerdict(req: CallbackRequest, session: Option<Session>, now: Time): Verdict<Session> {
    if session.None? || Expired(session.value.expires, now) then
      Refuse(Error(400, "invalid or expired authorization state"))
    else if req.error != "" then
      Refuse(ClientRedirect(session.value.redirectURI, ErrorParams(req, session.value)))
    else if req.code == "" then Refuse(Error(400, "missing authorization code"))
    else Proceed(session.value)
  }

  function GrantOf(session: Session, token: string, expiresIn: int, now: Time): Grant {
    Grant(token, expiresIn, session.clientID, session.redirectURI, session.challenge, session.challengeMethod,
          now + GRANT_TTL)
  }

  function TokenPrecheck(req: TokenRequest): Verdict<string> {
    if req.grantType != "authorization_code" then Refuse(Error(400, "unsupported_grant_type"))
    else Proceed(req.code)
  }

  /** The rest of handleToken, lines 512-542. */
  function TokenAnswer(env: Env, req: TokenRequest, grant: Option<Grant>, now: Time): Response {
    if grant.None? || Expired(grant.value.expires, now) then Error(400, "invalid_grant")
    else if grant.value.clientID != req.ClientID() then Error(400, "invalid_grant")
    else if grant.value.redirectURI != req.redirectURI then Error(400, "invalid_grant")
    else if req.verifier == ""
            || !PkceMatches(env, grant.value.challenge, req.verifier, grant.value.challengeMethod) then
      Error(400, "invalid_grant")
    else
      Token(grant.value.accessToken,
            if grant.value.expiresIn > 0 then Some(grant.value.expiresIn) else None,
            env.scopes)
  }
}
