/** What each step answers and what it leaves behind, spelled out in terms of
    the request, the clock and the maps alone. */
module OAuthAnswers {
  import opened Common
  import opened OAuthModel
  import opened OAuthProtocol
  import opened OAuthBinding

  // ---- Redirect targets ----

  /** Where a browser may be sent: http on this machine, or https under one of
      the prefixes. */
  predicate MayRedirect(env: Env, raw: string) {
    env.parse(raw).Some?
    && var u := env.parse(raw).value;
       && u.host != ""
       && ((u.scheme == "http" && (u.hostname == "localhost" || env.loopbackIP(u.hostname)))
           || (u.scheme == "https" && exists p | p in env.allowedPrefixes :: p <= raw))
  }

  lemma AllowedExactly(env: Env, raw: string)
    ensures AllowedRedirectURI(env, raw) <==> MayRedirect(env, raw)
  {
    assert |"https"| == 5 && |"http"| == 4;
    assert (exists p | p in env.allowedPrefixes :: p <= raw)
           <==> exists i :: 0 <= i < |env.allowedPrefixes| && env.allowedPrefixes[i] <= raw by {
      if i :| 0 <= i < |env.allowedPrefixes| && env.allowedPrefixes[i] <= raw {
        assert env.allowedPrefixes[i] in env.allowedPrefixes;
      }
    }
  }

  // ---- Cleaning up ----

  /** Cleaning up at a moment keeps, unchanged, exactly the entries that have
      not expired by then; an entry is still good at its very last moment. */
  lemma PruneKeepsExactlyTheLive(s: Store, now: Time)
    ensures var r := Prune(s, now);
            && r.clients == (map k | k in s.clients && now <= s.clients[k].expires :: s.clients[k])
            && r.sessions == (map k | k in s.sessions && now <= s.sessions[k].expires :: s.sessions[k])
            && r.grants == (map k | k in s.grants && now <= s.grants[k].expires :: s.grants[k])
  {
  }

  function LiveClientIDs(s: Store, now: Time): set<string> {
    set k | k in s.clients && now <= s.clients[k].expires
  }

  function LiveStates(s: Store, now: Time): set<string> {
    set k | k in s.sessions && now <= s.sessions[k].expires
  }

  lemma LiveCounts(s: Store, now: Time)
    ensures |Prune(s, now).clients| == |LiveClientIDs(s, now)| && LiveClientIDs(s, now) <= s.clients.Keys
    ensures |Prune(s, now).sessions| == |LiveStates(s, now)| && LiveStates(s, now) <= s.sessions.Keys
    ensures |LiveClientIDs(s, now)| <= |s.clients| && |LiveStates(s, now)| <= |s.sessions|
  {
    assert Prune(s, now).clients.Keys == LiveClientIDs(s, now);
    assert Prune(s, now).sessions.Keys == LiveStates(s, now);
    FewerEntries(Prune(s, now).clients, s.clients);
    FewerEntries(Prune(s, now).sessions, s.sessions);
  }

  /** t is s, or s cleaned up at the given moment. */
  predicate MaybePruned(s: Store, t: Store, at: Time) { t == s || t == Prune(s, at) }

  // ---- Registration ----

  predicate AllAllowed(env: Env, uris: seq<string>) {
    uris != [] && forall i | 0 <= i < |uris| :: MayRedirect(env, uris[i])
  }

  /** A registration is refused for a bad redirect URI, or else for capacity
      when 10000 clients are alive, or else stored, for 24 hours, under the
      identifier that the answer names, with the URIs that it asked for. */
  lemma RegisterAnswers(env: Env, c: Core, uris: seq<string>, at: Time, at2: Time, id: string)
    ensures var (c', r) := Step(env, c, Register(uris, at, at2, id));
            var full := |LiveClientIDs(c.store, at)| >= 10000;
            && c'.flights == c.flights
            && (!AllAllowed(env, uris) ==> r == Some(Error(400, "invalid_redirect_uri")) && c' == c)
            && (AllAllowed(env, uris) && full ==>
                  r == Some(Error(503, "server_error")) && c'.store == Prune(c.store, at))
            && (AllAllowed(env, uris) && !full ==>
                  && r == Some(Registered(id, uris))
                  && exists s :: MaybePruned(c.store, s, at)
                       && c'.store == s.(clients := s.clients[id := Client(uris, at2 + 86_400_000_000_000)]))
  {
    LiveCounts(c.store, at);
    forall i | 0 <= i < |uris| ensures AllowedRedirectURI(env, uris[i]) <==> MayRedirect(env, uris[i]) {
      AllowedExactly(env, uris[i]);
    }
    if AllAllowed(env, uris) { RegisterSectionAnswers(c.store, uris, at, at2, id); }
  }

  lemma RegisterSectionAnswers(s: Store, uris: seq<string>, at: Time, at2: Time, id: string)
    ensures var (t, ok) := RegisterSection(s, uris, at, at2, id);
            && (ok <==> |LiveClientIDs(s, at)| < 10000)
            && (!ok ==> t == Prune(s, at))
            && (ok ==> exists u :: MaybePruned(s, u, at)
                         && t == u.(clients := u.clients[id := Client(uris, at2 + 86_400_000_000_000)]))
  {
    LiveCounts(s, at);
    var u := if |s.clients| >= 10000 then Prune(s, at) else s;
    assert MaybePruned(s, u, at);
  }

  // ---- Authorize ----

  /** A client that is registered and has not expired. */
  predicate Known(s: Store, id: string, at: Time) { id in s.clients && at <= s.clients[id].expires }

  /** A registered client may use its registered URIs and no others; anyone
      else may use what registration would accept. */
  predicate FitsClient(env: Env, s: Store, id: string, uri: string, at: Time) {
    if Known(s, id, at) then uri in s.clients[id].redirectURIs else MayRedirect(env, uri)
  }

  predicate GoodMethod(m: string) { m == "" || m == "plain" || m == "S256" }

  function EffectiveMethod(m: string): string { if m == "" then "plain" else m }

  predicate Acceptable(env: Env, s: Store, req: AuthorizeRequest, at: Time) {
    && req.responseType == "code" && req.clientID != ""
    && FitsClient(env, s, req.clientID, req.redirectURI, at)
    && req.challenge != "" && GoodMethod(req.challengeMethod)
  }

  /** The first thing that is wrong with an authorize request. */
  function WhyRefused(env: Env, s: Store, req: AuthorizeRequest, at: Time): string {
    if req.responseType != "code" then "unsupported_response_type"
    else if req.clientID == "" then "invalid_client"
    else if !FitsClient(env, s, req.clientID, req.redirectURI, at) then "invalid_redirect_uri"
    else "invalid_request"
  }

  /** An authorize request goes on exactly when it is acceptable; otherwise it
      is told what is wrong. At most an expired record of its client goes. */
  lemma AuthorizeGoesOnExactly(env: Env, c: Core, h: nat, req: AuthorizeRequest, at: Time)
    ensures var (c', r) := Step(env, c, AuthorizeLookup(h, req, at));
            && (Acceptable(env, c.store, req, at) ==>
                  r == None && c'.flights == c.flights[h := Authorizing(req, EffectiveMethod(req.challengeMethod))])
            && (!Acceptable(env, c.store, req, at) ==>
                  r == Some(Error(400, WhyRefused(env, c.store, req, at))) && c'.flights == c.flights)
            && c'.store.sessions == c.store.sessions && c'.store.grants == c.store.grants
            && (c'.store.clients == c.store.clients
                || (!Known(c.store, req.clientID, at) && c'.store.clients == c.store.clients - {req.clientID}))
  {
    AllowedExactly(env, req.redirectURI);
  }

  /** The session asks for what the request asked for and lives ten minutes. */
  function SessionFor(req: AuthorizeRequest, m: string, verifier: string, now: Time): Session {
    Session(req.clientID, req.redirectURI, req.state, req.challenge, m, verifier, now + 600_000_000_000)
  }

  /** The browser is sent on with the state under which the session is stored
      and with the challenge of the session's own verifier, or the request is
      refused when 10000 sessions are alive. */
  lemma StoreAnswers(env: Env, c: Core, h: nat, at: Time, at2: Time, state: string, verifier: string)
    requires h in c.flights && c.flights[h].Authorizing?
    ensures var (c', r) := Step(env, c, AuthorizeStore(h, at, at2, state, verifier));
            var f := c.flights[h];
            var full := |LiveStates(c.store, at)| >= 10000;
            && c'.flights == c.flights - {h}
            && (full ==> r == Some(Error(503, "temporarily_unavailable")) && c'.store == Prune(c.store, at))
            && (!full ==>
                  && r == Some(UpstreamRedirect(state, env.s256(verifier)))
                  && exists s :: MaybePruned(c.store, s, at)
                       && c'.store.clients == s.clients && c'.store.grants == s.grants
                       && c'.store.sessions
                          == s.sessions[state := SessionFor(f.req, f.challengeMethod, verifier, at2)])
  {
    var f := c.flights[h];
    SessionSectionAnswers(c.store, state, SessionFor(f.req, f.challengeMethod, verifier, at2), at);
  }

  lemma SessionSectionAnswers(s: Store, state: string, v: Session, at: Time)
    ensures var (t, ok) := SessionSection(s, state, v, at);
            && (ok <==> |LiveStates(s, at)| < 10000)
            && (!ok ==> t == Prune(s, at))
            && (ok ==> exists u :: MaybePruned(s, u, at) && t == u.(sessions := u.sessions[state := v]))
  {
    LiveCounts(s, at);
    var u := if |s.sessions| >= 10000 then Prune(s, at) else s;
    assert MaybePruned(s, u, at);
  }

  // ---- Callback ----

  /** The first section takes the session of the state, whatever else the
      request says, and removes it. */
  lemma TakeAnswers(env: Env, c: Core, h: nat, req: CallbackRequest, at: Time)
    ensures var (c', r) := Step(env, c, CallbackTake(h, req, at));
            var found := if req.state in c.store.sessions then Some(c.store.sessions[req.state]) else None;
            && r == None && c'.flights == c.flights[h := CallbackTaken(req, found)]
            && c'.store == c.store.(sessions := c.store.sessions - {req.state})
  {
  }

  /** A parameter of a redirect that is there exactly when it is not empty. */
  predicate HasParam(params: map<string, string>, key: string, value: string) {
    (key in params <==> value != "") && (value != "" ==> params[key] == value)
  }

  /** After that an unknown or expired state is refused; an upstream error is
      forwarded to the session's redirect URI with the client's own state; a
      missing code is refused; anything else goes on with the session. */
  lemma CheckAnswers(env: Env, c: Core, h: nat, at: Time)
    requires h in c.flights && c.flights[h].CallbackTaken?
    ensures var (c', r) := Step(env, c, CallbackCheck(h, at));
            var (req, found) := (c.flights[h].creq, c.flights[h].found);
            var alive := found.Some? && at <= found.value.expires;
            && c'.store == c.store
            && (!alive ==> r == Some(Error(400, "invalid or expired authorization state")))
            && (alive && req.error != "" ==>
                  && r.Some? && r.value.ClientRedirect? && r.value.uri == found.value.redirectURI
                  && r.value.params.Keys <= {"error", "error_description", "state"}
                  && HasParam(r.value.params, "error", req.error)
                  && HasParam(r.value.params, "error_description", req.errorDescription)
                  && HasParam(r.value.params, "state", found.value.clientState))
            && (alive && req.error == "" && req.code == "" ==> r == Some(Error(400, "missing authorization code")))
            && c'.flights == (if alive && req.error == "" && req.code != ""
                              then c.flights[h := CallbackChecked(req.state, found.value, req.code)]
                              else c.flights - {h})
            && (r == None <==> alive && req.error == "" && req.code != "")
  {
    assert |"error"| == 5 && |"state"| == 5 && |"error_description"| == 17 && "error"[0] != "state"[0];
  }

  /** The proxy's code goes to the client of the session, with the client's own
      state, and stands for exactly the grant that has just been stored: the
      verified token, the session's client, URI and challenge, for two
      minutes. */
  lemma GrantAnswers(env: Env, c: Core, h: nat, at: Time, code: string)
    requires h in c.flights && c.flights[h].CallbackVerified?
    ensures var (c', r) := Step(env, c, CallbackGrant(h, at, code));
            var (v, f) := (c.flights[h].session, c.flights[h]);
            && r.Some? && r.value.ClientRedirect? && r.value.uri == v.redirectURI
            && r.value.params.Keys <= {"code", "state"}
            && "code" in r.value.params && r.value.params["code"] == code
            && HasParam(r.value.params, "state", v.clientState)
            && c'.store == c.store.(grants := c.store.grants[r.value.params["code"] :=
                 Grant(f.token, f.expiresIn, v.clientID, v.redirectURI, v.challenge, v.challengeMethod,
                       at + 120_000_000_000)])
            && c'.flights == c.flights - {h}
  {
    assert |"code"| == 4 && |"state"| == 5;
  }

  /** The exchange and the verification end the callback when they fail and
      pass the token on, with the session, when they do not. */
  lemma UpstreamAnswers(env: Env, c: Core, h: nat, at: Time, result: Option<UpstreamToken>, ok: bool)
    requires h in c.flights
    ensures c.flights[h].CallbackChecked? ==>
              var (f, t) := (c.flights[h], result);
              Step(env, c, Exchange(h, at, result)) ==
              if t.None? then (c.(flights := c.flights - {h}), Some(Error(502, "authorization failed")))
              else (c.(flights := c.flights[h :=
                      CallbackExchanged(f.state, f.session, t.value.token, t.value.expiresIn)]), None)
    ensures c.flights[h].CallbackExchanged? ==>
              var f := c.flights[h];
              Step(env, c, Verify(h, at, ok)) ==
              if !ok then (c.(flights := c.flights - {h}), Some(Error(502, "token rejected")))
              else (c.(flights := c.flights[h := CallbackVerified(f.state, f.session, f.token, f.expiresIn)]), None)
  {
  }

  // ---- Token ----

  /** The first section removes the code and nothing else, unless the grant
      type is already wrong. */
  lemma BurnAnswers(env: Env, c: Core, h: nat, req: TokenRequest, at: Time)
    ensures var (c', r) := Step(env, c, TokenTake(h, req, at));
            var grant := if req.code in c.store.grants then Some(c.store.grants[req.code]) else None;
            if req.grantType != "authorization_code" then c' == c && r == Some(Error(400, "unsupported_grant_type"))
            else
              && r == None && c'.flights == c.flights[h := TokenTaken(req, grant)]
              && c'.store == c.store.(grants := c.store.grants - {req.code})
  {
  }

  /** A token request that has taken its grant gets the grant's token exactly
      when the grant is alive and the request proves that it comes from the
      grant's holder; it gets invalid_grant otherwise. */
  lemma FinishAnswers(env: Env, c: Core, h: nat, at: Time)
    requires h in c.flights && c.flights[h].TokenTaken? && c.flights[h].treq.grantType == "authorization_code"
    ensures var (c', r) := Step(env, c, TokenFinish(h, at));
            var (req, g) := (c.flights[h].treq, c.flights[h].grant);
            && c' == c.(flights := c.flights - {h})
            && r == Some(if g.Some? && at <= g.value.expires && Proves(env, req, g.value)
                         then Token(g.value.accessToken,
                                    if g.value.expiresIn > 0 then Some(g.value.expiresIn) else None, env.scopes)
                         else Error(400, "invalid_grant"))
  {
  }

  /** What a token says about proof of possession, in terms of SHA-256 alone
      (section 4.6 of RFC 7636). */
  lemma TokenMeansChallengeAnswered(env: Env, req: TokenRequest, g: Grant, now: Time)
    ensures TokenAnswer(env, req, Some(g), now).Token? ==>
              if g.challengeMethod == "S256" then g.challenge == env.s256(req.verifier) else g.challenge == req.verifier
    ensures now <= g.expires && Presents(req, g.clientID) && req.redirectURI == g.redirectURI && req.verifier != ""
            && (if g.challengeMethod == "S256" then g.challenge == env.s256(req.verifier)
                else g.challenge == req.verifier)
            ==> TokenAnswer(env, req, Some(g), now).Token?
  {
  }
}
