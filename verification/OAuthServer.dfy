/** The proxy object: three maps that the handlers change in place. Each
    method is one region under the lock, or the handler stretch around it, and
    leaves the maps as the section functions of OAuthModel say. */
module OAuthServer {
  import opened Common
  import opened OAuthModel
  import opened OAuthProtocol

  class OAuthProxy {
    const env: Env
    var clients: map<string, Client>
    var sessions: map<string, Session>
    var grants: map<string, Grant>

    function View(): Store
      reads this
    {
      Store(clients, sessions, grants)
    }

    /** The constructor never fills the allowed prefixes. */
    constructor (parse: string -> Option<Url>, loopbackIP: string -> bool, s256: string -> string, scopes: string)
      ensures View() == INITIAL.core.store
      ensures env == Env(parse, loopbackIP, s256, scopes, [])
    {
      env := Env(parse, loopbackIP, s256, scopes, []);
      clients, sessions, grants := map[], map[], map[];
    }

    method CleanupLocked(now: Time)
      modifies this
      ensures View() == Prune(old(View()), now)
    {
      CleanupClients(now);
      CleanupSessions(now);
      CleanupGrants(now);
    }

    method CleanupClients(now: Time)
      modifies this`clients
      ensures clients == Prune(old(View()), now).clients
    {
      ghost var was := clients;
      var todo := clients.Keys;
      while todo != {}
        invariant todo <= was.Keys
        invariant clients == map k | k in was && (k in todo || !Expired(was[k].expires, now)) :: was[k]
        decreases todo
      {
        var id :| id in todo;
        if Expired(clients[id].expires, now) {
          clients := clients - {id};
        }
        todo := todo - {id};
      }
    }

    method CleanupSessions(now: Time)
      modifies this`sessions
      ensures sessions == Prune(old(View()), now).sessions
    {
      ghost var was := sessions;
      var todo := sessions.Keys;
      while todo != {}
        invariant todo <= was.Keys
        invariant sessions == map k | k in was && (k in todo || !Expired(was[k].expires, now)) :: was[k]
        decreases todo
      {
        var state :| state in todo;
        if Expired(sessions[state].expires, now) {
          sessions := sessions - {state};
        }
        todo := todo - {state};
      }
    }

    method CleanupGrants(now: Time)
      modifies this`grants
      ensures grants == Prune(old(View()), now).grants
    {
      ghost var was := grants;
      var todo := grants.Keys;
      while todo != {}
        invariant todo <= was.Keys
        invariant grants == map k | k in was && (k in todo || !Expired(was[k].expires, now)) :: was[k]
        decreases todo
      {
        var code :| code in todo;
        if Expired(grants[code].expires, now) {
          grants := grants - {code};
        }
        todo := todo - {code};
      }
    }

    method RegisterClient(uris: seq<string>, at: Time, at2: Time, id: string) returns (ok: bool)
      modifies this
      ensures (View(), ok) == RegisterSection(old(View()), uris, at, at2, id)
    {
      if |clients| >= MAX_CLIENTS {
        CleanupLocked(at);
        if |clients| >= MAX_CLIENTS {
          return false;
        }
      }
      clients := clients[id := Client(uris, at2 + CLIENT_TTL)];
      return true;
    }

    /** handleRegister, from the parsed request on. */
    method HandleRegister(uris: seq<string>, at: Time, at2: Time, id: string, ghost flights: map<nat, Flight>)
      returns (resp: Response)
      modifies this
      ensures RegisterStep(env, Core(old(View()), flights), uris, at, at2, id) == (Core(View(), flights), Some(resp))
    {
      if |uris| == 0 {
        return Error(400, "invalid_redirect_uri");
      }
      for i := 0 to |uris|
        invariant View() == old(View())
        invariant forall j :: 0 <= j < i ==> AllowedRedirectURI(env, uris[j])
      {
        if !AllowedRedirectURI(env, uris[i]) {
          return Error(400, "invalid_redirect_uri");
        }
      }
      var ok := RegisterClient(uris, at, at2, id);
      return if ok then Registered(id, uris) else Error(503, "server_error");
    }

    /** The first section of handleAuthorize. */
    method LookupClient(id: string, at: Time) returns (client: Option<Client>)
      modifies this`clients
      ensures (View(), client) == LookupSection(old(View()), id, at)
    {
      client := if id in clients then Some(clients[id]) else None;
      if client.Some? && Expired(client.value.expires, at) {
        clients := clients - {id};
        client := None;
      }
    }

    /** handleAuthorize up to the point where it holds the lock again. */
    method AuthorizeFirst(req: AuthorizeRequest, at: Time, ghost h: nat, ghost flights: map<nat, Flight>)
      returns (v: Verdict<string>)
      modifies this`clients
      ensures AuthorizeLookupStep(env, Core(old(View()), flights), h, req, at)
                == if v.Refuse? then (Core(View(), flights), Some(v.response))
                   else (Core(View(), flights[h := Authorizing(req, v.value)]), None)
    {
      if req.responseType != "code" {
        return Refuse(Error(400, "unsupported_response_type"));
      }
      if req.clientID == "" {
        return Refuse(Error(400, "invalid_client"));
      }
      var client := LookupClient(req.clientID, at);
      if client.Some? {
        if req.redirectURI !in client.value.redirectURIs {
          return Refuse(Error(400, "invalid_redirect_uri"));
        }
      } else if !AllowedRedirectURI(env, req.redirectURI) {
        return Refuse(Error(400, "invalid_redirect_uri"));
      }
      if req.challenge == "" {
        return Refuse(Error(400, "invalid_request"));
      }
      var m := req.challengeMethod;
      if m == "" {
        m := "plain";
      }
      if m != "S256" && m != "plain" {
        return Refuse(Error(400, "invalid_request"));
      }
      return Proceed(m);
    }

    /** The locked part of the second section of handleAuthorize. */
    method StoreSession(state: string, session: Session, at: Time) returns (ok: bool)
      modifies this
      ensures (View(), ok) == SessionSection(old(View()), state, session, at)
    {
      if |sessions| >= MAX_SESSIONS {
        CleanupLocked(at);
        if |sessions| >= MAX_SESSIONS {
          return false;
        }
      }
      sessions := sessions[state := session];
      return true;
    }

    /** The rest of handleAuthorize. */
    method AuthorizeSecond(req: AuthorizeRequest, m: string, at: Time, at2: Time, state: string, verifier: string,
                           ghost h: nat, ghost flights: map<nat, Flight>)
      returns (resp: Response)
      requires h in flights && flights[h] == Authorizing(req, m)
      modifies this
      ensures AuthorizeStoreStep(env, Core(old(View()), flights), h, at, at2, state, verifier)
                == (Core(View(), flights - {h}), Some(resp))
    {
      var ok := StoreSession(state, SessionOf(req, m, verifier, at2), at);
      return if ok then UpstreamRedirect(state, env.s256(verifier)) else Error(503, "temporarily_unavailable");
    }

    /** The first section of handleCallback. */
    method PopSession(state: string) returns (session: Option<Session>)
      modifies this`sessions
      ensures (View(), session) == TakeSession(old(View()), state)
    {
      session := if state in sessions then Some(sessions[state]) else None;
      sessions := sessions - {state};
    }

    method CallbackFirst(req: CallbackRequest, ghost h: nat, ghost flights: map<nat, Flight>)
      returns (session: Option<Session>)
      modifies this`sessions
      ensures CallbackTakeStep(Core(old(View()), flights), h, req)
                == (Core(View(), flights[h := CallbackTaken(req, session)]), None)
    {
      session := PopSession(req.state);
    }

    /** handleCallback from there to the exchange with the upstream provider;
        it works on the session it took, whatever became of the maps. */
    method CallbackCheck(req: CallbackRequest, session: Option<Session>, at: Time,
                         ghost h: nat, ghost flights: map<nat, Flight>)
      returns (v: Verdict<Session>)
      requires h in flights && flights[h] == CallbackTaken(req, session)
      ensures CallbackCheckStep(Core(View(), flights), h, at)
                == if v.Refuse? then (Core(View(), flights - {h}), Some(v.response))
                   else (Core(View(), flights[h := CallbackChecked(req.state, v.value, req.code)]), None)
    {
      if session.None? || Expired(session.value.expires, at) {
        return Refuse(Error(400, "invalid or expired authorization state"));
      }
      if req.error != "" {
        var dest := map["error" := req.error];
        if req.errorDescription != "" {
          dest := dest["error_description" := req.errorDescription];
        }
        if session.value.clientState != "" {
          dest := dest["state" := session.value.clientState];
        }
        return Refuse(ClientRedirect(session.value.redirectURI, dest));
      }
      if req.code == "" {
        return Refuse(Error(400, "missing authorization code"));
      }
      return Proceed(session.value);
    }

    /** The second section of handleCallback and the redirect after it. */
    method CallbackSecond(state: string, session: Session, token: string, expiresIn: int, at: Time, code: string,
                          ghost h: nat, ghost flights: map<nat, Flight>)
      returns (resp: Response)
      requires h in flights && flights[h] == CallbackVerified(state, session, token, expiresIn)
      modifies this`grants
      ensures CallbackGrantStep(Core(old(View()), flights), h, at, code)
                == (Core(View(), flights - {h}), Some(resp))
    {
      grants := grants[code := GrantOf(session, token, expiresIn, at)];
      var dest := map["code" := code];
      if session.clientState != "" {
        dest := dest["state" := session.clientState];
      }
      return ClientRedirect(session.redirectURI, dest);
    }

    /** The section of handleToken. */
    method PopGrant(code: string) returns (grant: Option<Grant>)
      modifies this`grants
      ensures (View(), grant) == TakeGrant(old(View()), code)
    {
      grant := if code in grants then Some(grants[code]) else None;
      grants := grants - {code};
    }

    /** handleToken until it releases the lock. */
    method TokenFirst(req: TokenRequest, ghost h: nat, ghost flights: map<nat, Flight>)
      returns (v: Verdict<Option<Grant>>)
      modifies this`grants
      ensures TokenTakeStep(Core(old(View()), flights), h, req)
                == if v.Refuse? then (Core(View(), flights), Some(v.response))
                   else (Core(View(), flights[h := TokenTaken(req, v.value)]), None)
    {
      if req.grantType != "authorization_code" {
        return Refuse(Error(400, "unsupported_grant_type"));
      }
      var grant := PopGrant(req.code);
      return Proceed(grant);
    }

    /** The rest of handleToken; it works on the grant it took. */
    method TokenSecond(req: TokenRequest, grant: Option<Grant>, at: Time, ghost h: nat, ghost flights: map<nat, Flight>)
      returns (resp: Response)
      requires h in flights && flights[h] == TokenTaken(req, grant)
      ensures TokenFinishStep(env, Core(View(), flights), h, at) == (Core(View(), flights - {h}), Some(resp))
    {
      if grant.None? || Expired(grant.value.expires, at) {
        return Error(400, "invalid_grant");
      }
      if grant.value.clientID != req.ClientID() {
        return Error(400, "invalid_grant");
      }
      if grant.value.redirectURI != req.redirectURI {
        return Error(400, "invalid_grant");
      }
      if req.verifier == "" || !PkceMatches(env, grant.value.challenge, req.verifier, grant.value.challengeMethod) {
        return Error(400, "invalid_grant");
      }
      return Token(grant.value.accessToken,
                   if grant.value.expiresIn > 0 then Some(grant.value.expiresIn) else None,
                   env.scopes);
    }
  }
}
