/** The other side of the bargain: what is accepted, not what is refused. A
    login that follows the protocol in time gets its token in every run,
    however many other handlers and sweeps run between its steps. */
module OAuthCompletion {
  import opened Common
  import opened OAuthModel
  import opened OAuthProtocol
  import opened OAuthBinding
  import opened OAuthAnswers

  // ---- A run with its states ----

  predicate GoesAt(env: Env, tr: seq<System>, es: seq<Event>, k: nat)
    requires k < |es| && |tr| == |es| + 1
  {
    Enabled(tr[k], es[k]) && tr[k + 1] == Next(env, tr[k], es[k])
  }

  /** tr[k] is the state in which event k of the run happens. */
  predicate IsTrace(env: Env, tr: seq<System>, es: seq<Event>) {
    |tr| == |es| + 1 && forall k | 0 <= k < |es| :: GoesAt(env, tr, es, k)
  }

  function TraceOf(env: Env, s: System, es: seq<Event>): (tr: seq<System>)
    ensures |tr| == |es| + 1 && tr[0] == s
    decreases |es|
  {
    if es == [] then [s] else [s] + TraceOf(env, Next(env, s, es[0]), es[1..])
  }

  /** A run is valid exactly when its states follow one another. */
  lemma {:induction false} RunIsTrace(env: Env, s: System, es: seq<Event>)
    ensures ValidRun(env, s, es) <==> IsTrace(env, TraceOf(env, s, es), es)
    ensures TraceOf(env, s, es)[|es|] == After(env, s, es)
    decreases |es|
  {
    if es != [] {
      var tr, tr1 := TraceOf(env, s, es), TraceOf(env, Next(env, s, es[0]), es[1..]);
      RunIsTrace(env, Next(env, s, es[0]), es[1..]);
      assert tr == [s] + tr1;
      LongerTrace(env, s, tr1, es);
    }
  }

  lemma LongerTrace(env: Env, s: System, tr1: seq<System>, es: seq<Event>)
    requires es != [] && |tr1| == |es| && tr1[0] == Next(env, s, es[0])
    ensures IsTrace(env, [s] + tr1, es) <==> Enabled(s, es[0]) && IsTrace(env, tr1, es[1..])
  {
    var tr := [s] + tr1;
    assert GoesAt(env, tr, es, 0) <==> Enabled(s, es[0]);
    assert forall k | 0 < k < |es| :: GoesAt(env, tr, es, k) <==> GoesAt(env, tr1, es[1..], k - 1);
    assert forall k | 0 <= k < |es[1..]| :: GoesAt(env, tr1, es[1..], k) <==> GoesAt(env, tr, es, k + 1);
  }

  function HandlerOf(e: Event): Option<nat> {
    if e.Register? || e.Sweep? then None else Some(e.h)
  }

  predicate Takes(e: Event, st: string) { e.CallbackTake? && e.creq.state == st }

  predicate Burns(e: Event, code: string) { e.TokenTake? && TokenPrecheck(e.treq) == Proceed(code) }

  lemma FlightStays(env: Env, s: System, e: Event, h: nat)
    requires h in s.core.flights && HandlerOf(e) != Some(h)
    ensures var t := Next(env, s, e); h in t.core.flights && t.core.flights[h] == s.core.flights[h]
  {
  }

  lemma RegisterSectionKeeps(s: Store, uris: seq<string>, at: Time, at2: Time, id: string)
    ensures var t := RegisterSection(s, uris, at, at2, id).0;
            && (forall st | st in s.sessions && at <= s.sessions[st].expires ::
                  st in t.sessions && t.sessions[st] == s.sessions[st])
            && (forall c | c in s.grants && at <= s.grants[c].expires :: c in t.grants && t.grants[c] == s.grants[c])
  {
  }

  lemma SessionSectionKeeps(s: Store, state: string, v: Session, at: Time)
    ensures var t := SessionSection(s, state, v, at).0;
            && (forall st | st in s.sessions && st != state && at <= s.sessions[st].expires ::
                  st in t.sessions && t.sessions[st] == s.sessions[st])
            && (forall c | c in s.grants && at <= s.grants[c].expires :: c in t.grants && t.grants[c] == s.grants[c])
  {
  }

  /** The two sections that may sweep. */
  lemma SectionsKeep(env: Env, c: Core, e: Event)
    requires e.Register? || e.AuthorizeStore?
    ensures var t := Step(env, c, e).0.store;
            && (forall st | st in c.store.sessions && st !in Tokens(e) && e.at <= c.store.sessions[st].expires ::
                  st in t.sessions && t.sessions[st] == c.store.sessions[st])
            && (forall k | k in c.store.grants && e.at <= c.store.grants[k].expires ::
                  k in t.grants && t.grants[k] == c.store.grants[k])
  {
    if e.Register? {
      RegisterSectionKeeps(c.store, e.uris, e.at, e.at2, e.id);
    } else if e.h in c.flights && c.flights[e.h].Authorizing? {
      var f := c.flights[e.h];
      SessionSectionKeeps(c.store, e.state, SessionOf(f.req, f.challengeMethod, e.verifier, e.at2), e.at);
    }
  }

  lemma SessionKept(env: Env, c: Core, e: Event, st: string)
    requires st in c.store.sessions && st !in Tokens(e) && !Takes(e, st) && e.at <= c.store.sessions[st].expires
    ensures var t := Step(env, c, e).0.store; st in t.sessions && t.sessions[st] == c.store.sessions[st]
  {
    if e.Register? || e.AuthorizeStore? { SectionsKeep(env, c, e); }
  }

  lemma GrantKept(env: Env, c: Core, e: Event, code: string)
    requires code in c.store.grants && code !in Tokens(e) && !Burns(e, code) && e.at <= c.store.grants[code].expires
    ensures var t := Step(env, c, e).0.store; code in t.grants && t.grants[code] == c.store.grants[code]
  {
    if e.Register? || e.AuthorizeStore? { SectionsKeep(env, c, e); }
  }

  lemma SessionStays(env: Env, s: System, e: Event, st: string, v: Session)
    requires Enabled(s, e) && Pending(s, st, v) && !Takes(e, st) && e.at <= v.expires
    ensures Pending(Next(env, s, e), st, v)
  {
    SessionKept(env, s.core, e, st);
  }

  lemma GrantStays(env: Env, s: System, e: Event, code: string, g: Grant)
    requires Enabled(s, e) && Granted(s, code, g) && !Burns(e, code) && e.at <= g.expires
    ensures Granted(Next(env, s, e), code, g)
  {
    GrantKept(env, s.core, e, code);
  }

  predicate Holds(s: System, h: nat, f: Flight) { h in s.core.flights && s.core.flights[h] == f }

  predicate Pending(s: System, st: string, v: Session) {
    st in s.used && st in s.core.store.sessions && s.core.store.sessions[st] == v
  }

  predicate Granted(s: System, code: string, g: Grant) {
    code in s.used && code in s.core.store.grants && s.core.store.grants[code] == g
  }

  /** A handler keeps its local variables while others run. */
  lemma {:induction false} FlightWaits(env: Env, tr: seq<System>, es: seq<Event>, i: nat, j: nat, h: nat, f: Flight)
    requires IsTrace(env, tr, es) && i <= j <= |es| && Holds(tr[i], h, f)
    requires forall k | i <= k < j :: HandlerOf(es[k]) != Some(h)
    ensures Holds(tr[j], h, f)
    decreases j
  {
    if i < j {
      FlightWaits(env, tr, es, i, j - 1, h, f);
      assert GoesAt(env, tr, es, j - 1);
      FlightStays(env, tr[j - 1], es[j - 1], h);
    }
  }

  lemma ClockStep(env: Env, tr: seq<System>, es: seq<Event>, k: nat)
    requires IsTrace(env, tr, es) && k < |es|
    ensures tr[k].clock <= es[k].at <= tr[k + 1].clock
  {
    assert GoesAt(env, tr, es, k);
  }

  lemma {:induction false} ClockGrows(env: Env, tr: seq<System>, es: seq<Event>, i: nat, j: nat)
    requires IsTrace(env, tr, es) && i <= j <= |es|
    ensures tr[i].clock <= tr[j].clock
    decreases j
  {
    if i < j {
      ClockGrows(env, tr, es, i, j - 1);
      ClockStep(env, tr, es, j - 1);
    }
  }

  /** The clock readings of a run never go back. */
  lemma TimesGrow(env: Env, tr: seq<System>, es: seq<Event>, i: nat, j: nat)
    requires IsTrace(env, tr, es) && i < j < |es|
    ensures es[i].at <= es[j].at
  {
    ClockStep(env, tr, es, i);
    ClockGrows(env, tr, es, i + 1, j);
    ClockStep(env, tr, es, j);
  }

  lemma SessionStep(env: Env, tr: seq<System>, es: seq<Event>, k: nat, st: string, v: Session)
    requires IsTrace(env, tr, es) && k < |es| && Pending(tr[k], st, v)
    requires !Takes(es[k], st) && es[k].at <= v.expires
    ensures Pending(tr[k + 1], st, v)
  {
    assert GoesAt(env, tr, es, k);
    SessionStays(env, tr[k], es[k], st, v);
  }

  lemma GrantStep(env: Env, tr: seq<System>, es: seq<Event>, k: nat, code: string, g: Grant)
    requires IsTrace(env, tr, es) && k < |es| && Granted(tr[k], code, g)
    requires !Burns(es[k], code) && es[k].at <= g.expires
    ensures Granted(tr[k + 1], code, g)
  {
    assert GoesAt(env, tr, es, k);
    GrantStays(env, tr[k], es[k], code, g);
  }

  /** Neither a sweep nor another handler loses a session before its time. */
  lemma {:induction false} SessionWaits(
    env: Env, tr: seq<System>, es: seq<Event>, i: nat, j: nat, st: string, v: Session)
    requires IsTrace(env, tr, es) && i <= j < |es| && Pending(tr[i], st, v)
    requires forall k | i <= k < j :: !Takes(es[k], st)
    requires es[j].at <= v.expires
    ensures Pending(tr[j], st, v)
    decreases j
  {
    if i < j {
      TimesGrow(env, tr, es, j - 1, j);
      SessionWaits(env, tr, es, i, j - 1, st, v);
      SessionStep(env, tr, es, j - 1, st, v);
    }
  }

  lemma {:induction false} GrantWaits(env: Env, tr: seq<System>, es: seq<Event>, i: nat, j: nat, code: string, g: Grant)
    requires IsTrace(env, tr, es) && i <= j < |es| && Granted(tr[i], code, g)
    requires forall k | i <= k < j :: !Burns(es[k], code)
    requires es[j].at <= g.expires
    ensures Granted(tr[j], code, g)
    decreases j
  {
    if i < j {
      TimesGrow(env, tr, es, j - 1, j);
      GrantWaits(env, tr, es, i, j - 1, code, g);
      GrantStep(env, tr, es, j - 1, code, g);
    }
  }

  // ---- One login ----

  /** A token request is answered with a token exactly when its grant is alive
      and the request proves that it comes from the grant's holder. */
  lemma TokenExactlyIfProven(env: Env, req: TokenRequest, grant: Option<Grant>, now: Time)
    requires req.grantType == "authorization_code"
    ensures TokenAnswer(env, req, grant, now).Token?
            <==> grant.Some? && now <= grant.value.expires && Proves(env, req, grant.value)
    ensures TokenAnswer(env, req, grant, now).Token? ==>
              TokenAnswer(env, req, grant, now).accessToken == grant.value.accessToken
    ensures !TokenAnswer(env, req, grant, now).Token? ==>
              TokenAnswer(env, req, grant, now) == Error(400, "invalid_grant")
  {
  }

  /** Where in the run the steps of the login stand. */
  datatype Login = Login(lookup: nat, store: nat, take: nat, check: nat, exchange: nat,
                         verify: nat, grant: nat, redeem: nat, finish: nat)

  predicate InOrder(p: Login, n: nat) {
    p.lookup < p.store < p.take < p.check < p.exchange < p.verify < p.grant < p.redeem < p.finish < n
  }

  predicate AuthorizeLeg(es: seq<Event>, p: Login)
    requires InOrder(p, |es|)
  {
    && es[p.lookup].AuthorizeLookup? && es[p.store].AuthorizeStore? && es[p.store].h == es[p.lookup].h
    && forall k | p.lookup < k < p.store :: HandlerOf(es[k]) != Some(es[p.lookup].h)
  }

  /** The browser comes back once, without an error, and the provider and the
      verifier agree. */
  predicate CallbackLeg(es: seq<Event>, p: Login)
    requires InOrder(p, |es|) && es[p.store].AuthorizeStore?
  {
    && es[p.take].CallbackTake? && es[p.check].CallbackCheck? && es[p.exchange].Exchange?
    && es[p.verify].Verify? && es[p.grant].CallbackGrant?
    && es[p.take].creq.state == es[p.store].state && es[p.take].creq.error == "" && es[p.take].creq.code != ""
    && es[p.exchange].result.Some? && es[p.verify].ok
    && es[p.take].h == es[p.check].h == es[p.exchange].h == es[p.verify].h == es[p.grant].h
    && (forall k | p.store < k < p.take :: !Takes(es[k], es[p.store].state))
    && (forall k | p.take < k < p.grant && k != p.check && k != p.exchange && k != p.verify ::
          HandlerOf(es[k]) != Some(es[p.take].h))
    && es[p.check].at <= es[p.store].at2 + SESSION_TTL
  }

  predicate TokenLeg(es: seq<Event>, p: Login)
    requires InOrder(p, |es|) && es[p.grant].CallbackGrant?
  {
    && es[p.redeem].TokenTake? && es[p.finish].TokenFinish? && es[p.finish].h == es[p.redeem].h
    && es[p.redeem].treq.code == es[p.grant].code
    && (forall k | p.grant < k < p.redeem :: !Burns(es[k], es[p.grant].code))
    && (forall k | p.redeem < k < p.finish :: HandlerOf(es[k]) != Some(es[p.redeem].h))
    && es[p.finish].at <= es[p.grant].at + GRANT_TTL
  }

  /** The authorize request is acceptable when it arrives, and there is room
      for one more session. */
  predicate Admitted(env: Env, tr: seq<System>, es: seq<Event>, p: Login, m: string)
    requires |tr| == |es| + 1 && InOrder(p, |es|) && AuthorizeLeg(es, p)
  {
    var req := es[p.lookup].areq;
    && Acceptable(env, tr[p.lookup].core.store, req, es[p.lookup].at) && m == EffectiveMethod(req.challengeMethod)
    && |LiveStates(tr[p.store].core.store, es[p.store].at)| < 10000
  }

  lemma FinishStep(env: Env, s: System, e: Event, req: TokenRequest, g: Grant)
    requires e.TokenFinish? && Holds(s, e.h, TokenTaken(req, Some(g)))
    requires e.at <= g.expires && Proves(env, req, g)
    ensures var r := Step(env, s.core, e).1; r.Some? && r.value.Token? && r.value.accessToken == g.accessToken
  {
    TokenExactlyIfProven(env, req, Some(g), e.at);
  }

  lemma LookupAt(env: Env, tr: seq<System>, es: seq<Event>, k: nat, m: string)
    requires IsTrace(env, tr, es) && k < |es|
    requires es[k].AuthorizeLookup? && Acceptable(env, tr[k].core.store, es[k].areq, es[k].at)
    requires m == EffectiveMethod(es[k].areq.challengeMethod)
    ensures Holds(tr[k + 1], es[k].h, Authorizing(es[k].areq, m))
  {
    assert GoesAt(env, tr, es, k);
    AuthorizeGoesOnExactly(env, tr[k].core, es[k].h, es[k].areq, es[k].at);
  }

  lemma StoreAt(env: Env, tr: seq<System>, es: seq<Event>, k: nat, req: AuthorizeRequest, m: string)
    requires IsTrace(env, tr, es) && k < |es|
    requires es[k].AuthorizeStore? && Holds(tr[k], es[k].h, Authorizing(req, m))
    requires |LiveStates(tr[k].core.store, es[k].at)| < 10000
    ensures Step(env, tr[k].core, es[k]).1 == Some(UpstreamRedirect(es[k].state, env.s256(es[k].verifier)))
    ensures Pending(tr[k + 1], es[k].state, SessionOf(req, m, es[k].verifier, es[k].at2))
  {
    assert GoesAt(env, tr, es, k);
    LiveCounts(tr[k].core.store, es[k].at);
  }

  lemma TakeAt(env: Env, tr: seq<System>, es: seq<Event>, k: nat, v: Session)
    requires IsTrace(env, tr, es) && k < |es|
    requires es[k].CallbackTake? && Pending(tr[k], es[k].creq.state, v)
    ensures Holds(tr[k + 1], es[k].h, CallbackTaken(es[k].creq, Some(v)))
  {
    assert GoesAt(env, tr, es, k);
  }

  lemma CheckAt(env: Env, tr: seq<System>, es: seq<Event>, k: nat, req: CallbackRequest, v: Session)
    requires IsTrace(env, tr, es) && k < |es|
    requires es[k].CallbackCheck? && Holds(tr[k], es[k].h, CallbackTaken(req, Some(v)))
    requires req.error == "" && req.code != "" && es[k].at <= v.expires
    ensures Holds(tr[k + 1], es[k].h, CallbackChecked(req.state, v, req.code))
  {
    assert GoesAt(env, tr, es, k);
  }

  lemma ExchangedAt(env: Env, tr: seq<System>, es: seq<Event>, k: nat, st: string, v: Session, code: string)
    requires IsTrace(env, tr, es) && k < |es|
    requires es[k].Exchange? && es[k].result.Some? && Holds(tr[k], es[k].h, CallbackChecked(st, v, code))
    ensures Holds(tr[k + 1], es[k].h, CallbackExchanged(st, v, es[k].result.value.token, es[k].result.value.expiresIn))
  {
    assert GoesAt(env, tr, es, k);
  }

  lemma VerifiedAt(
    env: Env, tr: seq<System>, es: seq<Event>, k: nat, st: string, v: Session, token: string, expiresIn: int)
    requires IsTrace(env, tr, es) && k < |es|
    requires es[k].Verify? && es[k].ok && Holds(tr[k], es[k].h, CallbackExchanged(st, v, token, expiresIn))
    ensures Holds(tr[k + 1], es[k].h, CallbackVerified(st, v, token, expiresIn))
  {
    assert GoesAt(env, tr, es, k);
  }

  lemma GrantAt(
    env: Env, tr: seq<System>, es: seq<Event>, k: nat, st: string, v: Session, token: string, expiresIn: int)
    requires IsTrace(env, tr, es) && k < |es|
    requires es[k].CallbackGrant? && Holds(tr[k], es[k].h, CallbackVerified(st, v, token, expiresIn))
    ensures Granted(tr[k + 1], es[k].code, GrantOf(v, token, expiresIn, es[k].at))
  {
    assert GoesAt(env, tr, es, k);
  }

  lemma RedeemAt(env: Env, tr: seq<System>, es: seq<Event>, k: nat, g: Grant)
    requires IsTrace(env, tr, es) && k < |es|
    requires es[k].TokenTake? && TokenPrecheck(es[k].treq).Proceed? && Granted(tr[k], es[k].treq.code, g)
    ensures Holds(tr[k + 1], es[k].h, TokenTaken(es[k].treq, Some(g)))
  {
    assert GoesAt(env, tr, es, k);
  }

  lemma LookupDone(env: Env, tr: seq<System>, es: seq<Event>, p: Login, m: string)
    requires IsTrace(env, tr, es) && InOrder(p, |es|) && AuthorizeLeg(es, p) && Admitted(env, tr, es, p, m)
    ensures Holds(tr[p.store], es[p.lookup].h, Authorizing(es[p.lookup].areq, m))
  {
    LookupAt(env, tr, es, p.lookup, m);
    FlightWaits(env, tr, es, p.lookup + 1, p.store, es[p.lookup].h, Authorizing(es[p.lookup].areq, m));
  }

  lemma AuthorizeLegDone(env: Env, tr: seq<System>, es: seq<Event>, p: Login, m: string)
    requires IsTrace(env, tr, es) && InOrder(p, |es|) && AuthorizeLeg(es, p) && Admitted(env, tr, es, p, m)
    ensures Pending(tr[p.store + 1], es[p.store].state,
                    SessionOf(es[p.lookup].areq, m, es[p.store].verifier, es[p.store].at2))
  {
    LookupDone(env, tr, es, p, m);
    StoreAt(env, tr, es, p.store, es[p.lookup].areq, m);
  }

  lemma TakeDone(env: Env, tr: seq<System>, es: seq<Event>, p: Login, v: Session)
    requires IsTrace(env, tr, es) && InOrder(p, |es|) && es[p.store].AuthorizeStore? && CallbackLeg(es, p)
    requires Pending(tr[p.store + 1], es[p.store].state, v)
    requires v.expires == es[p.store].at2 + SESSION_TTL
    ensures Holds(tr[p.check], es[p.take].h, CallbackTaken(es[p.take].creq, Some(v)))
  {
    TimesGrow(env, tr, es, p.take, p.check);
    SessionWaits(env, tr, es, p.store + 1, p.take, es[p.store].state, v);
    TakeAt(env, tr, es, p.take, v);
    FlightWaits(env, tr, es, p.take + 1, p.check, es[p.take].h, CallbackTaken(es[p.take].creq, Some(v)));
  }

  lemma CheckDone(env: Env, tr: seq<System>, es: seq<Event>, p: Login, v: Session)
    requires IsTrace(env, tr, es) && InOrder(p, |es|) && es[p.store].AuthorizeStore? && CallbackLeg(es, p)
    requires Pending(tr[p.store + 1], es[p.store].state, v)
    requires v.expires == es[p.store].at2 + SESSION_TTL
    ensures Holds(tr[p.exchange], es[p.take].h, CallbackChecked(es[p.store].state, v, es[p.take].creq.code))
  {
    var (h, req) := (es[p.take].h, es[p.take].creq);
    TakeDone(env, tr, es, p, v);
    CheckAt(env, tr, es, p.check, req, v);
    FlightWaits(env, tr, es, p.check + 1, p.exchange, h, CallbackChecked(req.state, v, req.code));
  }

  lemma ExchangeDone(env: Env, tr: seq<System>, es: seq<Event>, p: Login, v: Session)
    requires IsTrace(env, tr, es) && InOrder(p, |es|) && es[p.store].AuthorizeStore? && CallbackLeg(es, p)
    requires Pending(tr[p.store + 1], es[p.store].state, v)
    requires v.expires == es[p.store].at2 + SESSION_TTL
    ensures var tok := es[p.exchange].result.value;
            Holds(tr[p.verify], es[p.take].h,
                  CallbackExchanged(es[p.store].state, v, tok.token, tok.expiresIn))
  {
    var (h, st, tok) := (es[p.take].h, es[p.store].state, es[p.exchange].result.value);
    CheckDone(env, tr, es, p, v);
    ExchangedAt(env, tr, es, p.exchange, st, v, es[p.take].creq.code);
    FlightWaits(env, tr, es, p.exchange + 1, p.verify, h, CallbackExchanged(st, v, tok.token, tok.expiresIn));
  }

  lemma VerifyDone(env: Env, tr: seq<System>, es: seq<Event>, p: Login, v: Session)
    requires IsTrace(env, tr, es) && InOrder(p, |es|) && es[p.store].AuthorizeStore? && CallbackLeg(es, p)
    requires Pending(tr[p.store + 1], es[p.store].state, v)
    requires v.expires == es[p.store].at2 + SESSION_TTL
    ensures var tok := es[p.exchange].result.value;
            Holds(tr[p.grant], es[p.take].h,
                  CallbackVerified(es[p.store].state, v, tok.token, tok.expiresIn))
  {
    var (h, st, tok) := (es[p.take].h, es[p.store].state, es[p.exchange].result.value);
    ExchangeDone(env, tr, es, p, v);
    VerifiedAt(env, tr, es, p.verify, st, v, tok.token, tok.expiresIn);
    FlightWaits(env, tr, es, p.verify + 1, p.grant, h, CallbackVerified(st, v, tok.token, tok.expiresIn));
  }

  lemma CallbackLegDone(env: Env, tr: seq<System>, es: seq<Event>, p: Login, v: Session)
    requires IsTrace(env, tr, es) && InOrder(p, |es|) && es[p.store].AuthorizeStore? && CallbackLeg(es, p)
    requires Pending(tr[p.store + 1], es[p.store].state, v)
    requires v.expires == es[p.store].at2 + SESSION_TTL
    ensures var tok := es[p.exchange].result.value;
            Granted(tr[p.grant + 1], es[p.grant].code, GrantOf(v, tok.token, tok.expiresIn, es[p.grant].at))
  {
    var tok := es[p.exchange].result.value;
    VerifyDone(env, tr, es, p, v);
    GrantAt(env, tr, es, p.grant, es[p.store].state, v, tok.token, tok.expiresIn);
  }

  lemma RedeemDone(env: Env, tr: seq<System>, es: seq<Event>, p: Login, g: Grant)
    requires IsTrace(env, tr, es) && InOrder(p, |es|) && es[p.grant].CallbackGrant? && TokenLeg(es, p)
    requires Granted(tr[p.grant + 1], es[p.grant].code, g)
    requires g.expires == es[p.grant].at + GRANT_TTL
    requires es[p.redeem].treq.grantType == "authorization_code"
    ensures Holds(tr[p.finish], es[p.redeem].h, TokenTaken(es[p.redeem].treq, Some(g)))
  {
    TimesGrow(env, tr, es, p.redeem, p.finish);
    GrantWaits(env, tr, es, p.grant + 1, p.redeem, es[p.grant].code, g);
    RedeemAt(env, tr, es, p.redeem, g);
    FlightWaits(env, tr, es, p.redeem + 1, p.finish, es[p.redeem].h, TokenTaken(es[p.redeem].treq, Some(g)));
  }

  lemma TokenLegDone(env: Env, tr: seq<System>, es: seq<Event>, p: Login, g: Grant)
    requires IsTrace(env, tr, es) && InOrder(p, |es|) && es[p.grant].CallbackGrant? && TokenLeg(es, p)
    requires Granted(tr[p.grant + 1], es[p.grant].code, g)
    requires g.expires == es[p.grant].at + GRANT_TTL
    requires Proves(env, es[p.redeem].treq, g)
    ensures var r := Step(env, tr[p.finish].core, es[p.finish]).1;
            r.Some? && r.value.Token? && r.value.accessToken == g.accessToken
  {
    RedeemDone(env, tr, es, p, g);
    FinishStep(env, tr[p.finish], es[p.finish], es[p.redeem].treq, g);
  }

  /** The client that started the login redeems its code: same client, same
      redirect URI, and a verifier for the challenge it sent. */
  predicate OwnRequest(env: Env, req: TokenRequest, asked: AuthorizeRequest, m: string) {
    && req.grantType == "authorization_code" && Presents(req, asked.clientID) && req.redirectURI == asked.redirectURI
    && MatchesChallenge(env, asked.challenge, m, req.verifier)
  }

  /** What the browser is told at the end of the callback: to take the code
      that is redeemed later, and the client's own state, to the redirect URI
      of the authorize request. */
  predicate BringsCode(r: Option<Response>, asked: AuthorizeRequest, code: string) {
    && r.Some? && r.value.ClientRedirect? && r.value.uri == asked.redirectURI
    && "code" in r.value.params && r.value.params["code"] == code
    && HasParam(r.value.params, "state", asked.state)
  }

  lemma CallbackBringsCode(env: Env, tr: seq<System>, es: seq<Event>, p: Login, m: string)
    requires IsTrace(env, tr, es) && InOrder(p, |es|) && AuthorizeLeg(es, p) && CallbackLeg(es, p)
    requires Admitted(env, tr, es, p, m)
    ensures BringsCode(Step(env, tr[p.grant].core, es[p.grant]).1, es[p.lookup].areq, es[p.grant].code)
  {
    var v := SessionOf(es[p.lookup].areq, m, es[p.store].verifier, es[p.store].at2);
    AuthorizeLegDone(env, tr, es, p, m);
    VerifyDone(env, tr, es, p, v);
    GrantAnswers(env, tr[p.grant].core, es[p.grant].h, es[p.grant].at, es[p.grant].code);
  }

  lemma StoreSendsOn(env: Env, tr: seq<System>, es: seq<Event>, p: Login, m: string)
    requires IsTrace(env, tr, es) && InOrder(p, |es|) && AuthorizeLeg(es, p) && Admitted(env, tr, es, p, m)
    ensures Step(env, tr[p.store].core, es[p.store]).1
            == Some(UpstreamRedirect(es[p.store].state, env.s256(es[p.store].verifier)))
  {
    LookupDone(env, tr, es, p, m);
    StoreAt(env, tr, es, p.store, es[p.lookup].areq, m);
  }

  /** An honest login in time succeeds, whatever else happens in the run. The
      provider is shown the state that the browser brings back; the client is
      brought the code that it redeems, with its own state; and it ends with
      the very token of its own exchange. */
  lemma HonestLoginSucceeds(env: Env, tr: seq<System>, es: seq<Event>, p: Login, m: string)
    requires IsTrace(env, tr, es) && InOrder(p, |es|)
    requires AuthorizeLeg(es, p) && CallbackLeg(es, p) && TokenLeg(es, p)
    requires Admitted(env, tr, es, p, m)
    requires OwnRequest(env, es[p.redeem].treq, es[p.lookup].areq, m)
    ensures Step(env, tr[p.store].core, es[p.store]).1
            == Some(UpstreamRedirect(es[p.take].creq.state, env.s256(es[p.store].verifier)))
    ensures BringsCode(Step(env, tr[p.grant].core, es[p.grant]).1, es[p.lookup].areq, es[p.redeem].treq.code)
    ensures var r := Step(env, tr[p.finish].core, es[p.finish]).1;
            r.Some? && r.value.Token? && r.value.accessToken == es[p.exchange].result.value.token
  {
    var tok := es[p.exchange].result.value;
    var v := SessionOf(es[p.lookup].areq, m, es[p.store].verifier, es[p.store].at2);
    StoreSendsOn(env, tr, es, p, m);
    AuthorizeLegDone(env, tr, es, p, m);
    CallbackBringsCode(env, tr, es, p, m);
    CallbackLegDone(env, tr, es, p, v);
    TokenLegDone(env, tr, es, p, GrantOf(v, tok.token, tok.expiresIn, es[p.grant].at));
  }
}
