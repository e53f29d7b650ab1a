/** Which redirect URIs get into a run at all. A session exists only because an
    authorize request was acceptable when it was looked at, and a client only
    because it registered, so a registered client is served at the URIs of its
    own registration and nowhere else. */
module OAuthAdmission {
  import opened Common
  import opened OAuthModel
  import opened OAuthProtocol
  import opened OAuthCompletion
  import opened OAuthAnswers

  // ---- Authorizing handlers ----

  predicate LookedUp(env: Env, s: System, e: Event, h: nat, f: Flight) {
    && e.AuthorizeLookup? && e.h == h && Acceptable(env, s.core.store, e.areq, e.at)
    && f == Authorizing(e.areq, EffectiveMethod(e.areq.challengeMethod))
  }

  lemma LookupMakesIt(env: Env, s: System, e: Event, h: nat, f: Flight)
    requires e.AuthorizeLookup? && f.Authorizing? && Holds(Next(env, s, e), h, f)
    ensures Holds(s, h, f) || LookedUp(env, s, e, h, f)
  {
    AuthorizeGoesOnExactly(env, s.core, e.h, e.areq, e.at);
  }

  lemma OthersDoNot(env: Env, s: System, e: Event, h: nat, f: Flight)
    requires !e.AuthorizeLookup? && f.Authorizing? && Holds(Next(env, s, e), h, f)
    ensures Holds(s, h, f)
  {
  }

  lemma FlightBefore(env: Env, tr: seq<System>, es: seq<Event>, k: nat, h: nat, f: Flight)
    requires IsTrace(env, tr, es) && k < |es| && f.Authorizing? && Holds(tr[k + 1], h, f)
    ensures Holds(tr[k], h, f) || LookedUp(env, tr[k], es[k], h, f)
  {
    assert GoesAt(env, tr, es, k);
    if es[k].AuthorizeLookup? {
      LookupMakesIt(env, tr[k], es[k], h, f);
    } else {
      OthersDoNot(env, tr[k], es[k], h, f);
    }
  }

  lemma {:induction false} FlightCameFrom(env: Env, tr: seq<System>, es: seq<Event>, k: nat, h: nat, f: Flight)
    returns (j: nat)
    requires IsTrace(env, tr, es) && tr[0].core.flights == map[]
    requires k <= |es| && f.Authorizing? && Holds(tr[k], h, f)
    ensures j < k && LookedUp(env, tr[j], es[j], h, f)
    decreases k
  {
    j := k - 1;
    FlightBefore(env, tr, es, j, h, f);
    if Holds(tr[j], h, f) {
      j := FlightCameFrom(env, tr, es, j, h, f);
    }
  }

  // ---- Clients ----

  predicate RegisteredBy(env: Env, e: Event, id: string, v: Client) {
    && e.Register? && e.id == id && AllAllowed(env, e.uris)
    && v == Client(e.uris, e.at2 + 86_400_000_000_000)
  }

  predicate HasClient(s: System, id: string, v: Client) { id in s.core.store.clients && s.core.store.clients[id] == v }

  lemma RegisterMakesIt(env: Env, s: System, e: Event, id: string, v: Client)
    requires e.Register? && HasClient(Next(env, s, e), id, v)
    ensures HasClient(s, id, v) || RegisteredBy(env, e, id, v)
  {
    RegisterAnswers(env, s.core, e.uris, e.at, e.at2, e.id);
  }

  lemma OthersAddNoClient(env: Env, s: System, e: Event, id: string, v: Client)
    requires !e.Register? && HasClient(Next(env, s, e), id, v)
    ensures HasClient(s, id, v)
  {
    if e.AuthorizeStore? {
      StoreAddsNoClient(env, s.core, e);
    } else if e.AuthorizeLookup? {
      AuthorizeGoesOnExactly(env, s.core, e.h, e.areq, e.at);
    } else {
      RestLeavesClients(env, s.core, e);
    }
  }

  predicate Fewer(m: map<string, Client>, now: map<string, Client>) { forall k | k in now :: k in m && now[k] == m[k] }

  lemma StoreAddsNoClient(env: Env, c: Core, e: Event)
    requires e.AuthorizeStore?
    ensures Fewer(c.store.clients, Step(env, c, e).0.store.clients)
  {
    if e.h in c.flights && c.flights[e.h].Authorizing? {
      StoreAnswers(env, c, e.h, e.at, e.at2, e.state, e.verifier);
    }
  }

  lemma RestLeavesClients(env: Env, c: Core, e: Event)
    requires !e.Register? && !e.AuthorizeLookup? && !e.AuthorizeStore?
    ensures Fewer(c.store.clients, Step(env, c, e).0.store.clients)
  {
  }

  lemma ClientBefore(env: Env, tr: seq<System>, es: seq<Event>, k: nat, id: string, v: Client)
    requires IsTrace(env, tr, es) && k < |es| && HasClient(tr[k + 1], id, v)
    ensures HasClient(tr[k], id, v) || RegisteredBy(env, es[k], id, v)
  {
    assert GoesAt(env, tr, es, k);
    if es[k].Register? {
      RegisterMakesIt(env, tr[k], es[k], id, v);
    } else {
      OthersAddNoClient(env, tr[k], es[k], id, v);
    }
  }

  lemma {:induction false} ClientCameFrom(env: Env, tr: seq<System>, es: seq<Event>, k: nat, id: string, v: Client)
    returns (i: nat)
    requires IsTrace(env, tr, es) && tr[0].core.store.clients == map[]
    requires k <= |es| && HasClient(tr[k], id, v)
    ensures i < k && RegisteredBy(env, es[i], id, v)
    decreases k
  {
    i := k - 1;
    ClientBefore(env, tr, es, i, id, v);
    if HasClient(tr[i], id, v) {
      i := ClientCameFrom(env, tr, es, i, id, v);
    }
  }

  // ---- The result ----

  /** The request behind the session that event k stores, looked at earlier:
      at position j, when its client was either registered, at position i and
      with the URI now asked for, or unknown. */
  predicate AdmittedAt(env: Env, tr: seq<System>, es: seq<Event>, k: nat, j: nat)
    requires |tr| == |es| + 1 && j < k < |es| && es[k].AuthorizeStore?
  {
    && es[j].AuthorizeLookup? && es[j].h == es[k].h
    && var req := es[j].areq;
       && Acceptable(env, tr[j].core.store, req, es[j].at)
       && (Known(tr[j].core.store, req.clientID, es[j].at) ==>
             exists i | 0 <= i < j :: es[i].Register? && es[i].id == req.clientID && req.redirectURI in es[i].uris)
       && es[k].state in tr[k + 1].core.store.sessions
       && tr[k + 1].core.store.sessions[es[k].state]
          == SessionFor(req, EffectiveMethod(req.challengeMethod), es[k].verifier, es[k].at2)
  }

  /** In every run from the empty proxy: whenever a browser is sent on to the
      provider, the session behind it belongs to an earlier authorize request
      that was acceptable then; and if its client was registered and unexpired
      then, the request's redirect URI is one of that registration. */
  lemma SessionsWereAdmitted(env: Env, tr: seq<System>, es: seq<Event>, k: nat)
    requires IsTrace(env, tr, es) && tr[0] == INITIAL && k < |es| && es[k].AuthorizeStore?
    requires var r := Step(env, tr[k].core, es[k]).1; r.Some? && r.value.UpstreamRedirect?
    ensures exists j :: 0 <= j < k && AdmittedAt(env, tr, es, k, j)
  {
    var h := es[k].h;
    assert GoesAt(env, tr, es, k);
    assert h in tr[k].core.flights && tr[k].core.flights[h].Authorizing?;
    StoreAnswers(env, tr[k].core, h, es[k].at, es[k].at2, es[k].state, es[k].verifier);
    var j := FlightCameFrom(env, tr, es, k, h, tr[k].core.flights[h]);
    var id := es[j].areq.clientID;
    if Known(tr[j].core.store, id, es[j].at) {
      var i := ClientCameFrom(env, tr, es, j, id, tr[j].core.store.clients[id]);
      assert es[j].areq.redirectURI in es[i].uris;
    }
    assert AdmittedAt(env, tr, es, k, j);
  }
}
