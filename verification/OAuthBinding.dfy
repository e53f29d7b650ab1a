/** Where a delivered token comes from. Every entry of the history of a run is
    justified by earlier entries, so a successful token response can be walked
    back, entry by entry, to the one authorize request it belongs to. */
module OAuthBinding {
  import opened OAuthModel
  import opened OAuthProtocol
  import opened OAuthLifecycle

  predicate IsMethod(m: string) { m == "S256" || m == "plain" }

  /** The session is what this authorize request asked for. */
  predicate Asked(req: AuthorizeRequest, s: Session) {
    && req.responseType == "code" && req.clientID != "" && req.challenge != ""
    && s.clientID == req.clientID && s.redirectURI == req.redirectURI && s.clientState == req.state
    && s.challenge == req.challenge
    && s.challengeMethod == (if req.challengeMethod == "" then "plain" else req.challengeMethod)
    && IsMethod(s.challengeMethod)
  }

  ghost predicate WasCreated(log: seq<Entry>, st: string, s: Session) {
    exists req, at :: Created(st, req, s, at) in log
  }

  ghost predicate WasChecked(log: seq<Entry>, st: string) { exists at :: Checked(st, at) in log }

  ghost predicate WasExchanged(log: seq<Entry>, st: string, verifier: string, token: string) {
    exists code :: Exchanged(st, code, verifier, token) in log
  }

  ghost predicate WasIssued(log: seq<Entry>, c: string, g: Grant) {
    exists st, at :: Issued(st, c, g, at) in log
  }

  predicate Carries(g: Grant, s: Session) {
    g.clientID == s.clientID && g.redirectURI == s.redirectURI
    && g.challenge == s.challenge && g.challengeMethod == s.challengeMethod
  }

  /** The client names itself in the form or, with the form silent, as the user
      of HTTP basic authentication. */
  predicate Presents(req: TokenRequest, clientID: string) {
    if req.formClientID != "" || req.basicID.None? then req.formClientID == clientID
    else req.basicID.value == clientID
  }

  /** The challenge is the S256 transform of the verifier, or the verifier
      itself under any other method (section 4.6 of RFC 7636). */
  predicate MatchesChallenge(env: Env, challenge: string, challengeMethod: string, verifier: string) {
    && verifier != ""
    && (challengeMethod == "S256" ==> challenge == env.s256(verifier))
    && (challengeMethod != "S256" ==> challenge == verifier)
  }

  /** The request proves that it comes from the holder of the grant. */
  predicate Proves(env: Env, req: TokenRequest, g: Grant) {
    && req.grantType == "authorization_code" && Presents(req, g.clientID) && req.redirectURI == g.redirectURI
    && MatchesChallenge(env, g.challenge, g.challengeMethod, req.verifier)
  }

  ghost predicate Justified(env: Env, p: seq<Entry>, e: Entry) {
    match e
    case Created(_, req, s, at) => Asked(req, s) && s.expires == at + SESSION_TTL
    case Checked(st, at) => exists s :: WasCreated(p, st, s) && at <= s.expires
    case Exchanged(st, _, verifier, token) =>
      token != "" && WasChecked(p, st) && exists s :: WasCreated(p, st, s) && verifier == s.verifier
    case VerifiedOk(st, token) => exists s :: WasCreated(p, st, s) && WasExchanged(p, st, s.verifier, token)
    case Issued(st, _, g, at) =>
      && g.expires == at + GRANT_TTL && VerifiedOk(st, g.accessToken) in p
      && exists s :: WasCreated(p, st, s) && Carries(g, s)
    case Delivered(c, req, token, at) =>
      exists g :: WasIssued(p, c, g) && req.code == c && Proves(env, req, g)
                  && token == g.accessToken && at <= g.expires
    case _ => true
  }

  ghost predicate AllJustified(env: Env, log: seq<Entry>) {
    forall k | 0 <= k < |log| :: Justified(env, log[..k], log[k])
  }

  // ---- Local variables of the handlers are backed by the history ----

  ghost predicate FlightBacked(log: seq<Entry>, f: Flight) {
    match f
    case Authorizing(req, m) =>
      && req.responseType == "code" && req.clientID != "" && req.challenge != ""
      && m == (if req.challengeMethod == "" then "plain" else req.challengeMethod) && IsMethod(m)
    case CallbackTaken(req, found) => found.Some? ==> WasCreated(log, req.state, found.value)
    case CallbackChecked(st, s, _) => WasCreated(log, st, s) && WasChecked(log, st)
    case CallbackExchanged(st, s, token, _) => WasCreated(log, st, s) && WasExchanged(log, st, s.verifier, token)
    case CallbackVerified(st, s, token, _) => WasCreated(log, st, s) && VerifiedOk(st, token) in log
    case TokenTaken(req, grant) =>
      req.grantType == "authorization_code" && (grant.Some? ==> WasIssued(log, req.code, grant.value))
  }

  ghost predicate Backed(c: Core, log: seq<Entry>) {
    && (forall st | st in c.store.sessions :: WasCreated(log, st, c.store.sessions[st]))
    && (forall code | code in c.store.grants :: WasIssued(log, code, c.store.grants[code]))
    && (forall h | h in c.flights :: FlightBacked(log, c.flights[h]))
  }

  lemma StillBacked(log: seq<Entry>, more: seq<Entry>, f: Flight)
    requires FlightBacked(log, f)
    ensures FlightBacked(log + more, f)
  {
    match f
    case CallbackTaken(req, found) => if found.Some? { StillCreated(log, more, req.state, found.value); }
    case CallbackChecked(st, s, _) =>
      StillCreated(log, more, st, s);
      var at :| Checked(st, at) in log;
      assert Checked(st, at) in log + more;
    case CallbackExchanged(st, s, token, _) =>
      StillCreated(log, more, st, s);
      var code :| Exchanged(st, code, s.verifier, token) in log;
      assert Exchanged(st, code, s.verifier, token) in log + more;
    case CallbackVerified(st, s, _, _) => StillCreated(log, more, st, s);
    case TokenTaken(req, grant) => if grant.Some? { StillIssued(log, more, req.code, grant.value); }
    case _ =>
  }

  lemma StillCreated(log: seq<Entry>, more: seq<Entry>, st: string, s: Session)
    requires WasCreated(log, st, s)
    ensures WasCreated(log + more, st, s)
  {
    var req, at :| Created(st, req, s, at) in log;
    assert Created(st, req, s, at) in log + more;
  }

  lemma StillIssued(log: seq<Entry>, more: seq<Entry>, c: string, g: Grant)
    requires WasIssued(log, c, g)
    ensures WasIssued(log + more, c, g)
  {
    var st, at :| Issued(st, c, g, at) in log;
    assert Issued(st, c, g, at) in log + more;
  }

  lemma BackedGrows(c: Core, log: seq<Entry>, more: seq<Entry>)
    requires Backed(c, log)
    ensures Backed(c, log + more)
  {
    forall st | st in c.store.sessions ensures WasCreated(log + more, st, c.store.sessions[st]) {
      StillCreated(log, more, st, c.store.sessions[st]);
    }
    forall code | code in c.store.grants ensures WasIssued(log + more, code, c.store.grants[code]) {
      StillIssued(log, more, code, c.store.grants[code]);
    }
    forall h | h in c.flights ensures FlightBacked(log + more, c.flights[h]) {
      StillBacked(log, more, c.flights[h]);
    }
  }

  lemma JustifiedGrows(env: Env, log: seq<Entry>, e: Entry)
    requires AllJustified(env, log) && Justified(env, log, e)
    ensures AllJustified(env, log + [e])
  {
    forall k | 0 <= k < |log + [e]| ensures Justified(env, (log + [e])[..k], (log + [e])[k]) {
      if k < |log| {
        assert (log + [e])[..k] == log[..k];
      } else {
        assert (log + [e])[..k] == log;
      }
    }
  }

  // ---- One step ----

  /** What a step adds is justified, and backs the new local variables. */
  ghost predicate ActsJustly(env: Env, c: Core, log: seq<Entry>, e: Event) {
    var entry := ActionEntry(env, c, e);
    && (entry != [] ==> Justified(env, log, entry[0]))
    && Backed(Step(env, c, e).0, log + entry)
  }

  lemma StoreActs(env: Env, c: Core, log: seq<Entry>, e: Event)
    requires e.AuthorizeStore? && Settled(env, c, e) && Backed(c, log)
    ensures ActsJustly(env, c, log, e)
  {
    var entry, c' := ActionEntry(env, c, e), Step(env, c, e).0;
    BackedGrows(c, log, entry);
    if entry != [] {
      var f := c.flights[e.h];
      assert FlightBacked(log, f);
      var s := SessionOf(f.req, f.challengeMethod, e.verifier, e.at2);
      assert entry[0] == Created(e.state, f.req, s, e.at2) && entry[0] in log + entry;
      assert WasCreated(log + entry, e.state, s);
      assert c'.store == c.store.(sessions := c.store.sessions[e.state := s]);
    } else {
      assert c'.store == c.store;
    }
  }

  lemma LookupActs(env: Env, c: Core, log: seq<Entry>, e: Event)
    requires (e.AuthorizeLookup? || e.Register? || e.Sweep?) && Backed(c, log)
    ensures ActsJustly(env, c, log, e)
  {
    assert log + [] == log;
  }

  lemma TakeActs(env: Env, c: Core, log: seq<Entry>, e: Event)
    requires (e.CallbackTake? || e.TokenTake?) && Backed(c, log)
    ensures ActsJustly(env, c, log, e)
  {
    BackedGrows(c, log, ActionEntry(env, c, e));
  }

  lemma CheckActs(env: Env, c: Core, log: seq<Entry>, e: Event)
    requires e.CallbackCheck? && Backed(c, log)
    ensures ActsJustly(env, c, log, e)
  {
    var entry := ActionEntry(env, c, e);
    BackedGrows(c, log, entry);
    if entry != [] {
      assert FlightBacked(log, c.flights[e.h]);
      assert entry[0] in log + entry;
    }
  }

  lemma ExchangeActs(env: Env, s: System, e: Event)
    requires e.Exchange? && Enabled(s, e) && Backed(s.core, s.log)
    ensures ActsJustly(env, s.core, s.log, e)
  {
    var entry := ActionEntry(env, s.core, e);
    BackedGrows(s.core, s.log, entry);
    if entry != [] {
      assert FlightBacked(s.log, s.core.flights[e.h]);
      assert entry[0] in s.log + entry;
    }
  }

  lemma VerifyActs(env: Env, s: System, e: Event)
    requires e.Verify? && Enabled(s, e) && Backed(s.core, s.log)
    ensures ActsJustly(env, s.core, s.log, e)
  {
    var entry := ActionEntry(env, s.core, e);
    BackedGrows(s.core, s.log, entry);
    if entry != [] {
      assert FlightBacked(s.log, s.core.flights[e.h]);
      assert entry[0] in s.log + entry;
    }
  }

  lemma GrantActs(env: Env, c: Core, log: seq<Entry>, e: Event)
    requires e.CallbackGrant? && Backed(c, log)
    ensures ActsJustly(env, c, log, e)
  {
    var entry := ActionEntry(env, c, e);
    BackedGrows(c, log, entry);
    if entry != [] {
      assert FlightBacked(log, c.flights[e.h]);
      assert entry[0] in log + entry;
    }
  }

  lemma FinishActs(env: Env, c: Core, log: seq<Entry>, e: Event)
    requires e.TokenFinish? && Backed(c, log)
    ensures ActsJustly(env, c, log, e)
  {
    var entry := ActionEntry(env, c, e);
    BackedGrows(c, log, entry);
    if entry != [] {
      assert FlightBacked(log, c.flights[e.h]);
    }
  }

  lemma StepActs(env: Env, s: System, e: Event)
    requires Enabled(s, e) && Settled(env, s.core, e) && Backed(s.core, s.log)
    ensures ActsJustly(env, s.core, s.log, e)
  {
    match e
    case AuthorizeStore(_, _, _, _, _) => StoreActs(env, s.core, s.log, e);
    case CallbackTake(_, _, _) => TakeActs(env, s.core, s.log, e);
    case TokenTake(_, _, _) => TakeActs(env, s.core, s.log, e);
    case CallbackCheck(_, _) => CheckActs(env, s.core, s.log, e);
    case Exchange(_, _, _) => ExchangeActs(env, s, e);
    case Verify(_, _, _) => VerifyActs(env, s, e);
    case CallbackGrant(_, _, _) => GrantActs(env, s.core, s.log, e);
    case TokenFinish(_, _) => FinishActs(env, s.core, s.log, e);
    case _ => LookupActs(env, s.core, s.log, e);
  }

  lemma SweepActs(env: Env, s: System, e: Event)
    requires AllJustified(env, s.log) && Backed(s.core, s.log)
    ensures AllJustified(env, Swept1(env, s, e).log) && Backed(Swept1(env, s, e).core, Swept1(env, s, e).log)
  {
    if SweepsFirst(env, s.core, e) {
      JustifiedGrows(env, s.log, SweepEntry(s.core.store, e.at));
      BackedGrows(s.core, s.log, [SweepEntry(s.core.store, e.at)]);
    }
  }

  lemma EntriesJustified(env: Env, log: seq<Entry>, entry: seq<Entry>)
    requires AllJustified(env, log) && |entry| <= 1 && (entry != [] ==> Justified(env, log, entry[0]))
    ensures AllJustified(env, log + entry)
  {
    if entry == [] {
      assert log + entry == log;
    } else {
      assert entry == [entry[0]];
      JustifiedGrows(env, log, entry[0]);
    }
  }

  lemma NextJustified(env: Env, s: System, e: Event)
    requires Enabled(s, e) && AllJustified(env, s.log) && Backed(s.core, s.log)
    ensures var t := Next(env, s, e); AllJustified(env, t.log) && Backed(t.core, t.log)
  {
    var s1 := Swept1(env, s, e);
    SweepActs(env, s, e);
    SweepThenAct(env, s, e);
    StepActs(env, s1, e);
    StepRecords(env, s1, e);
    EntriesJustified(env, s1.log, ActionEntry(env, s1.core, e));
  }

  lemma {:induction false} RunJustified(env: Env, s: System, es: seq<Event>)
    requires ValidRun(env, s, es) && AllJustified(env, s.log) && Backed(s.core, s.log)
    ensures AllJustified(env, After(env, s, es).log)
    decreases |es|
  {
    if es != [] {
      NextJustified(env, s, es[0]);
      RunJustified(env, Next(env, s, es[0]), es[1..]);
    }
  }

  // ---- The walk back ----

  /** Positions in the history, oldest first: the authorize request, the
      callback's expiry check, the upstream exchange, the verification and the
      grant behind one delivered token. */
  datatype Trail = Trail(created: nat, checked: nat, exchanged: nat, verified: nat, issued: nat)

  ghost predicate Bound(env: Env, log: seq<Entry>, k: nat, t: Trail)
    requires k < |log| && log[k].Delivered?
  {
    && t.created < t.checked < t.exchanged < t.verified < t.issued < k
    && log[t.created].Created? && log[t.checked].Checked? && log[t.exchanged].Exchanged?
    && log[t.verified].VerifiedOk? && log[t.issued].Issued?
    && var st := log[t.created].state;
       var (asked, s, g) := (log[t.created].req, log[t.created].session, log[t.issued].grant);
       var (req, token) := (log[k].treq, log[k].token);
    && st == log[t.checked].state == log[t.exchanged].state == log[t.verified].state == log[t.issued].state
    && req.code == log[k].code == log[t.issued].code
    // the same client, redirect URI and proof key as the authorize request
    && Asked(asked, s) && Carries(g, s)
    && Presents(req, asked.clientID) && req.redirectURI == asked.redirectURI
    && req.verifier != ""
    && (if asked.challengeMethod == "S256" then asked.challenge == env.s256(req.verifier)
        else asked.challenge == req.verifier)
    // the token of the exchange made with this session's own verifier
    && log[t.exchanged].verifier == s.verifier && token != ""
    && token == log[t.exchanged].token == log[t.verified].token == g.accessToken
    // in time
    && log[t.checked].at <= log[t.created].at + SESSION_TTL
    && log[k].at <= log[t.issued].at + GRANT_TTL
  }

  /** A state is created only once, so all mentions of its session are one. */
  lemma SameSession(log: seq<Entry>, i: nat, p: seq<Entry>, st: string, s: Session)
    requires forall x :: StateOf(log, x) != StateBroken
    requires i < |log| && log[i].Created? && log[i].state == st
    requires p <= log && WasCreated(p, st, s)
    ensures log[i].session == s && i < |p|
  {
    var req, at :| Created(st, req, s, at) in p;
    var j :| 0 <= j < |p| && p[j] == Created(st, req, s, at);
    assert log[j] == p[j];
    if i < j { StateOnce(log, i, j, st); }
    if j < i { StateOnce(log, j, i, st); }
  }

  lemma GrantEntryBehind(env: Env, p: seq<Entry>, e: Entry) returns (i: nat)
    requires e.Delivered? && Justified(env, p, e)
    ensures i < |p| && p[i].Issued? && p[i].code == e.code == e.treq.code
    ensures Proves(env, e.treq, p[i].grant) && e.token == p[i].grant.accessToken && e.at <= p[i].grant.expires
  {
    var g :| WasIssued(p, e.code, g) && Proves(env, e.treq, g) && e.token == g.accessToken && e.at <= g.expires;
    var st, at :| Issued(st, e.code, g, at) in p;
    i :| 0 <= i < |p| && p[i] == Issued(st, e.code, g, at);
  }

  lemma GrantBehind(env: Env, log: seq<Entry>, k: nat) returns (issued: nat)
    requires AllJustified(env, log) && k < |log| && log[k].Delivered?
    ensures issued < k && log[issued].Issued? && log[issued].code == log[k].code == log[k].treq.code
    ensures Proves(env, log[k].treq, log[issued].grant) && log[k].token == log[issued].grant.accessToken
    ensures log[k].at <= log[issued].at + GRANT_TTL
  {
    issued := GrantEntryBehind(env, log[..k], log[k]);
    assert Justified(env, log[..issued], log[issued]);
  }

  lemma RequestBehind(env: Env, log: seq<Entry>, issued: nat) returns (created: nat, verified: nat)
    requires AllJustified(env, log) && issued < |log| && log[issued].Issued?
    ensures created < issued && log[created].Created? && log[created].state == log[issued].state
    ensures Asked(log[created].req, log[created].session) && Carries(log[issued].grant, log[created].session)
    ensures log[created].session.expires == log[created].at + SESSION_TTL
    ensures verified < issued && log[verified] == VerifiedOk(log[issued].state, log[issued].grant.accessToken)
  {
    var st, g := log[issued].state, log[issued].grant;
    assert Justified(env, log[..issued], log[issued]);
    var s :| WasCreated(log[..issued], st, s) && Carries(g, s);
    var asked, at0 :| Created(st, asked, s, at0) in log[..issued];
    created :| 0 <= created < issued && log[created] == Created(st, asked, s, at0);
    assert Justified(env, log[..created], log[created]);
    verified :| 0 <= verified < issued && log[verified] == VerifiedOk(st, g.accessToken);
  }

  lemma WalkBack(env: Env, log: seq<Entry>, k: nat) returns (t: Trail)
    requires AllJustified(env, log) && forall x :: StateOf(log, x) != StateBroken
    requires k < |log| && log[k].Delivered?
    ensures Bound(env, log, k, t)
  {
    var issued := GrantBehind(env, log, k);
    var created, verified := RequestBehind(env, log, issued);
    var exchanged := ExchangeBehind(env, log, created, verified);
    var checked := CheckBehind(env, log, created, exchanged);
    t := Trail(created, checked, exchanged, verified, issued);
  }

  lemma ExchangeBehind(env: Env, log: seq<Entry>, created: nat, verified: nat) returns (m: nat)
    requires AllJustified(env, log) && forall x :: StateOf(log, x) != StateBroken
    requires created < |log| && verified < |log| && log[created].Created? && log[verified].VerifiedOk?
    requires log[created].state == log[verified].state
    ensures m < verified && log[m].Exchanged? && log[m].state == log[verified].state
    ensures log[m].verifier == log[created].session.verifier && log[m].token == log[verified].token
  {
    var st, token := log[verified].state, log[verified].token;
    assert Justified(env, log[..verified], log[verified]);
    var s :| WasCreated(log[..verified], st, s) && WasExchanged(log[..verified], st, s.verifier, token);
    SameSession(log, created, log[..verified], st, s);
    var code :| Exchanged(st, code, s.verifier, token) in log[..verified];
    m :| 0 <= m < verified && log[m] == Exchanged(st, code, s.verifier, token);
  }

  lemma CheckBehind(env: Env, log: seq<Entry>, created: nat, exchanged: nat) returns (j: nat)
    requires AllJustified(env, log) && forall x :: StateOf(log, x) != StateBroken
    requires created < |log| && exchanged < |log| && log[created].Created? && log[exchanged].Exchanged?
    requires log[created].state == log[exchanged].state
    ensures log[exchanged].token != ""
    ensures created < j < exchanged && log[j].Checked? && log[j].state == log[exchanged].state
    ensures log[j].at <= log[created].session.expires
  {
    var st := log[exchanged].state;
    assert Justified(env, log[..exchanged], log[exchanged]);
    var at :| Checked(st, at) in log[..exchanged];
    j :| 0 <= j < exchanged && log[j] == Checked(st, at);
    assert Justified(env, log[..j], log[j]);
    var s :| WasCreated(log[..j], st, s) && at <= s.expires;
    SameSession(log, created, log[..j], st, s);
  }

  /** Every successful token response, in every run, leads back to exactly one
      authorize request, as section 4.1.3 of RFC 6749 and section 4.6 of RFC
      7636 ask. */
  lemma DeliveredTokenIsBound(env: Env, s: System, k: nat)
    requires Reachable(env, s) && k < |s.log| && s.log[k].Delivered?
    ensures exists t :: Bound(env, s.log, k, t)
    ensures forall t, u :: Bound(env, s.log, k, t) && Bound(env, s.log, k, u) ==> t.created == u.created
  {
    var es :| ValidRun(env, INITIAL, es) && After(env, INITIAL, es) == s;
    RunJustified(env, INITIAL, es);
    ReachableSound(env, s);
    var t := WalkBack(env, s.log, k);
    forall t, u | Bound(env, s.log, k, t) && Bound(env, s.log, k, u) ensures t.created == u.created {
      OneTrail(env, s.log, k, t, u);
    }
  }

  lemma OneTrail(env: Env, log: seq<Entry>, k: nat, t: Trail, u: Trail)
    requires k < |log| && log[k].Delivered? && Bound(env, log, k, t) && Bound(env, log, k, u)
    requires forall x :: StateOf(log, x) != StateBroken
    requires forall x :: CodeOf(log, x) != CodeBroken
    ensures t.created == u.created
  {
    OneOrigin(log, log[k].code, t.created, t.issued, u.created, u.issued);
  }

  /** A code has one origin: one grant, and for its state one session. */
  lemma OneOrigin(log: seq<Entry>, c: string, a: nat, i: nat, b: nat, j: nat)
    requires a < i < |log| && log[a].Created? && log[i].Issued? && log[i].code == c && log[a].state == log[i].state
    requires b < j < |log| && log[b].Created? && log[j].Issued? && log[j].code == c && log[b].state == log[j].state
    requires forall x :: StateOf(log, x) != StateBroken
    requires forall x :: CodeOf(log, x) != CodeBroken
    ensures a == b
  {
    if i < j { CodeOnce(log, i, j, c); }
    if j < i { CodeOnce(log, j, i, c); }
    if a < b { StateOnce(log, a, b, log[a].state); }
    if b < a { StateOnce(log, b, a, log[a].state); }
  }

  // ---- From the response to the history ----

  /** A step answers with a token exactly when it records a delivery, and it
      records the token it hands out and the time it checked. */
  lemma TokenResponseIsLogged(env: Env, s: System, e: Event)
    requires Step(env, s.core, e).1.Some? && Step(env, s.core, e).1.value.Token?
    ensures var log := Next(env, s, e).log;
            && |log| == |s.log| + 1 && log[|s.log|].Delivered?
            && log[|s.log|].token == Step(env, s.core, e).1.value.accessToken
            && log[|s.log|].at == e.at
  {
  }

  lemma {:induction false} RunExtends(env: Env, s: System, es: seq<Event>, e: Event)
    requires ValidRun(env, s, es) && Enabled(After(env, s, es), e)
    ensures ValidRun(env, s, es + [e]) && After(env, s, es + [e]) == Next(env, After(env, s, es), e)
    decreases |es|
  {
    if es == [] {
      assert es + [e] == [e];
    } else {
      var s1, es1 := Next(env, s, es[0]), es + [e];
      assert es1[0] == es[0] && es1[1..] == es[1..] + [e];
      RunExtends(env, s1, es[1..], e);
    }
  }

  /** The whole claim in terms of what a client sees: whenever, after any run,
      a step answers a token request with a token, that token is bound. */
  lemma SuccessfulTokenResponseIsBound(env: Env, es: seq<Event>, e: Event)
    requires ValidRun(env, INITIAL, es) && Enabled(After(env, INITIAL, es), e)
    requires Step(env, After(env, INITIAL, es).core, e).1.Some?
    requires Step(env, After(env, INITIAL, es).core, e).1.value.Token?
    ensures var s, t := After(env, INITIAL, es), Next(env, After(env, INITIAL, es), e);
            && |t.log| == |s.log| + 1 && t.log[|s.log|].Delivered?
            && t.log[|s.log|].token == Step(env, s.core, e).1.value.accessToken
            && t.log[|s.log|].at == e.at
            && exists trail :: Bound(env, t.log, |s.log|, trail)
  {
    var s := After(env, INITIAL, es);
    TokenResponseIsLogged(env, s, e);
    RunExtends(env, INITIAL, es, e);
    DeliveredTokenIsBound(env, Next(env, s, e), |s.log|);
  }
}
