/** The lazily filled cache of cluster clients, and the per-request path that
    forwards a caller's token without touching it. */
module Clusters {
  import opened Common
  import opened Text
  import opened Kubeconfig

  // ---- Values ----

  /** The fields of a rest.Config that identify the caller. */
  datatype ConfigView = ConfigView(
    host: string,
    bearerToken: string, bearerTokenFile: string,
    certData: string, certFile: string, keyData: string, keyFile: string,
    username: string, password: string,
    authProvider: bool, execProvider: bool,
    impersonate: string, impersonateGroups: seq<string>)

  datatype Auth = Auth(token: string, email: string, subject: string, hasClaims: bool)

  datatype UserInfo = UserInfo(name: string, username: string, hasToken: bool, impersonate: string, groups: seq<string>)

  datatype ClientInfo = ClientInfo(
    context: string, cluster: string, namespace: string, user: UserInfo, config: ConfigView)

  datatype Failure = NotMultiCluster | UnknownCluster(name: string) | BuildFailed

  datatype Result<+T> = Ok(value: T) | Err(failure: Failure)

  function WithToken(c: ConfigView, auth: Option<Auth>): ConfigView {
    if auth.None? || auth.value.token == "" then c
    else
      ConfigView(c.host, auth.value.token, "", "", "", "", "", "", "", false, false,
                 c.impersonate, c.impersonateGroups)
  }

  /** Only the bearer token can identify the caller. */
  predicate SoleCredential(c: ConfigView, token: string) {
    && c.bearerToken == token && c.bearerTokenFile == "" && c.certData == "" && c.certFile == ""
    && c.keyData == "" && c.keyFile == "" && c.username == "" && c.password == ""
    && !c.authProvider && !c.execProvider
  }

  function OIDCUserName(auth: Option<Auth>): string {
    if auth.None? || !auth.value.hasClaims then ""
    else if auth.value.email != "" then auth.value.email
    else auth.value.subject
  }

  function UserOf(c: ConfigView, auth: Option<Auth>): UserInfo {
    UserInfo(if OIDCUserName(auth) != "" then OIDCUserName(auth) else c.username,
             c.username, c.bearerToken != "", c.impersonate, c.impersonateGroups)
  }

  function EffectiveNamespace(flag: string, own: string): string {
    if flag != "" then flag else if own != "" then own else "default"
  }

  /** The client built for a context from the configuration clientcmd gives. */
  function ClientOf(raw: Raw, flag: string, ctx: string, given: ConfigView, auth: Option<Auth>): ClientInfo
    requires ctx in raw.contexts && raw.contexts[ctx].Some?
  {
    var k := raw.contexts[ctx].value;
    var config := WithToken(given, auth);
    ClientInfo(ctx, k.cluster, EffectiveNamespace(flag, k.namespace), UserOf(config, auth), config)
  }

  /** Either a kubeconfig with its representation, or the in-cluster client. */
  datatype Mode =
    | Multi(raw: Raw, contexts: map<string, string>, flag: string)
    | InCluster(client: ClientInfo)

  ghost predicate GoodMode(s: Mode) { s.Multi? ==> IsRepresentation(s.raw, s.contexts) }

  /** What the world answers when a client is built: the configuration read
      at that moment, unless that fails, and whether the clientset could be
      made from it; and the pod's namespace file. */
  datatype World = World(given: Option<ConfigView>, clientset: bool, podNamespace: string)

  datatype Call = Call(cluster: string, auth: Option<Auth>, world: World)

  predicate HasToken(call: Call) { call.auth.Some? && call.auth.value.token != "" }

  type Cache = map<string, ClientInfo>

  function Build(s: Mode, ctx: string, auth: Option<Auth>, w: World): Result<ClientInfo>
    requires s.Multi?
  {
    if !(ctx in s.raw.contexts && s.raw.contexts[ctx].Some?) then Err(BuildFailed)
    else if w.given.None? || !w.clientset then Err(BuildFailed)
    else Ok(ClientOf(s.raw, s.flag, ctx, w.given.value, auth))
  }

  function BuildInCluster(config: ConfigView, auth: Option<Auth>, w: World): Result<ClientInfo> {
    if !w.clientset then Err(BuildFailed)
    else
      var c := WithToken(config, auth);
      Ok(ClientInfo("", "in-cluster", if w.podNamespace != "" then w.podNamespace else "default", UserOf(c, auth), c))
  }

  /** An empty name means the cluster of the current context, if it has one. */
  function Requested(raw: Raw, name: string): string {
    if name == "" && raw.current != "" && raw.current in raw.contexts && raw.contexts[raw.current].Some?
       && raw.contexts[raw.current].value.cluster != ""
    then raw.contexts[raw.current].value.cluster else name
  }

  function Serve(s: Mode, cache: Cache, name: string, w: World): (Cache, Result<ClientInfo>) {
    match s
    case InCluster(client) => (cache, if name == "" then Ok(client) else Err(NotMultiCluster))
    case Multi(raw, contexts, _) =>
      var cluster := Requested(raw, name);
      if cluster in cache then (cache, Ok(cache[cluster]))
      else if cluster !in contexts then (cache, Err(UnknownCluster(cluster)))
      else
        match Build(s, contexts[cluster], None, w)
        case Err(f) => (cache, Err(f))
        case Ok(c) => (cache[cluster := c], Ok(c))
  }

  function ServeRequest(s: Mode, cache: Cache, call: Call): (Cache, Result<ClientInfo>) {
    if !HasToken(call) then Serve(s, cache, call.cluster, call.world)
    else
      match s
      case InCluster(client) =>
        (cache, if call.cluster != "" then Err(NotMultiCluster)
                else BuildInCluster(client.config, call.auth, call.world))
      case Multi(raw, contexts, _) =>
        var cluster := Requested(raw, call.cluster);
        if cluster !in contexts then (cache, Err(UnknownCluster(cluster)))
        else (cache, Build(s, contexts[cluster], call.auth, call.world))
  }

  // ---- Construction ----

  /** One successful newClientForClusterWithToken. */
  datatype Built = Built(context: string, auth: Option<Auth>, world: World)

  /** The clients for contexts that a call constructs: at most one, none on a
      hit, none when the construction fails. */
  function BuildsIn(s: Mode, cache: Cache, call: Call): seq<Built> {
    if !s.Multi? then []
    else
      var cluster := Requested(s.raw, call.cluster);
      var auth := if HasToken(call) then call.auth else None;
      if cluster !in s.contexts || (!HasToken(call) && cluster in cache) then []
      else if Build(s, s.contexts[cluster], auth, call.world).Err? then []
      else [Built(s.contexts[cluster], auth, call.world)]
  }

  // ---- Call sequences ----

  /** Carries the context, the cluster and the namespace of its
      representative; where its configuration comes from is a matter of the
      calls, below. */
  ghost predicate FitsContext(s: Mode, cluster: string, c: ClientInfo)
    requires s.Multi?
  {
    && cluster in s.contexts
    && s.contexts[cluster] in s.raw.contexts && s.raw.contexts[s.contexts[cluster]].Some?
    && c == ClientOf(s.raw, s.flag, s.contexts[cluster], c.config, None)
    && c.context == s.contexts[cluster] && c.cluster == cluster
  }

  ghost predicate Coherent(s: Mode, cache: Cache) {
    if s.Multi? then forall name | name in cache :: FitsContext(s, name, cache[name]) else cache == map[]
  }

  function After(s: Mode, cache: Cache, calls: seq<Call>): Cache
    decreases |calls|
  {
    if calls == [] then cache else After(s, ServeRequest(s, cache, calls[0]).0, calls[1..])
  }

  /** Everything that is constructed in the course of the calls, in order. */
  function LogOf(s: Mode, cache: Cache, calls: seq<Call>): seq<Built>
    decreases |calls|
  {
    if calls == [] then []
    else BuildsIn(s, cache, calls[0]) + LogOf(s, ServeRequest(s, cache, calls[0]).0, calls[1..])
  }

  /** How many clients without a token were constructed for a context. */
  function TokenFreeBuilds(log: seq<Built>, ctx: string): nat {
    if log == [] then 0
    else (if log[0].auth.None? && log[0].context == ctx then 1 else 0) + TokenFreeBuilds(log[1..], ctx)
  }

  lemma {:induction false} TokenFreeBuildsAppend(a: seq<Built>, b: seq<Built>, ctx: string)
    ensures TokenFreeBuilds(a + b, ctx) == TokenFreeBuilds(a, ctx) + TokenFreeBuilds(b, ctx)
  {
    if a == [] {
      assert a + b == b;
    } else {
      assert (a + b)[1..] == a[1..] + b;
      TokenFreeBuildsAppend(a[1..], b, ctx);
    }
  }

  /** What a call that brings no token would construct for the cluster. */
  function DirectBuild(s: Mode, call: Call, cluster: string): Option<ClientInfo> {
    if s.Multi? && !HasToken(call) && Requested(s.raw, call.cluster) == cluster && cluster in s.contexts
       && Build(s, s.contexts[cluster], None, call.world).Ok?
    then Some(Build(s, s.contexts[cluster], None, call.world).value)
    else None
  }

  /** What the first call that brings no token and can construct a client for
      the cluster constructs. No cache is looked at. */
  function FirstBuild(s: Mode, calls: seq<Call>, cluster: string): Option<ClientInfo> {
    if calls == [] then None
    else if DirectBuild(s, calls[0], cluster).Some? then DirectBuild(s, calls[0], cluster)
    else FirstBuild(s, calls[1..], cluster)
  }

  function Cached(cache: Cache, cluster: string): Option<ClientInfo> {
    if cluster in cache then Some(cache[cluster]) else None
  }

  lemma KeepingIsCoherent(s: Mode, cache: Cache, cluster: string, w: World, c: ClientInfo)
    requires GoodMode(s) && Coherent(s, cache) && s.Multi? && cluster in s.contexts
    requires Build(s, s.contexts[cluster], None, w) == Ok(c)
    ensures Coherent(s, cache[cluster := c])
  {
    assert Represents(s.raw, cluster, s.contexts[cluster]);
  }

  /** One call keeps what is cached, and what it adds is its own direct build,
      made without a token. */
  lemma CallKeepsCoherence(s: Mode, cache: Cache, call: Call)
    requires GoodMode(s) && Coherent(s, cache)
    ensures var (next, r) := ServeRequest(s, cache, call);
            && Coherent(s, next)
            && (HasToken(call) ==> next == cache)
            && (!HasToken(call) && s.Multi? && r.Ok? ==>
                  Cached(next, Requested(s.raw, call.cluster)) == Some(r.value))
            && (forall name :: Cached(next, name) ==
                  if name in cache then Some(cache[name]) else DirectBuild(s, call, name))
  {
    if s.Multi? {
      var cluster := Requested(s.raw, call.cluster);
      if cluster in s.contexts {
        assert Represents(s.raw, cluster, s.contexts[cluster]);
      }
    }
    forall name ensures Cached(ServeRequest(s, cache, call).0, name) ==
                        if name in cache then Some(cache[name]) else DirectBuild(s, call, name)
    {
      CachedAfterCall(s, cache, call, name);
    }
  }

  lemma CachedAfterCall(s: Mode, cache: Cache, call: Call, name: string)
    ensures Cached(ServeRequest(s, cache, call).0, name) ==
            if name in cache then Some(cache[name]) else DirectBuild(s, call, name)
  {
  }

  /** Different clusters are represented by different contexts. */
  lemma ContextsDiffer(s: Mode, a: string, b: string)
    requires GoodMode(s) && s.Multi? && a in s.contexts && b in s.contexts && s.contexts[a] == s.contexts[b]
    ensures a == b
  {
    assert Represents(s.raw, a, s.contexts[a]) && Represents(s.raw, b, s.contexts[b]);
  }

  lemma BuildsInCounted(s: Mode, cache: Cache, call: Call, cluster: string)
    requires GoodMode(s) && s.Multi? && cluster in s.contexts
    ensures TokenFreeBuilds(BuildsIn(s, cache, call), s.contexts[cluster])
            == if cluster !in cache && DirectBuild(s, call, cluster).Some? then 1 else 0
  {
    var c := Requested(s.raw, call.cluster);
    if c in s.contexts && s.contexts[c] == s.contexts[cluster] { ContextsDiffer(s, c, cluster); }
    var built := BuildsIn(s, cache, call);
    if built != [] { assert built[1..] == []; }
  }

  /** Over every sequence of calls, in the order the lock admits them, with and
      without tokens: what is cached stays; for any other cluster the cache
      holds exactly the client of the first call without a token that could
      be constructed, and nothing if there was none. */
  lemma {:induction false} CacheCoherent(s: Mode, cache: Cache, calls: seq<Call>, cluster: string)
    requires GoodMode(s) && Coherent(s, cache)
    ensures Coherent(s, After(s, cache, calls))
    ensures Cached(After(s, cache, calls), cluster)
            == if cluster in cache then Some(cache[cluster]) else FirstBuild(s, calls, cluster)
    decreases |calls|
  {
    if calls != [] {
      CallKeepsCoherence(s, cache, calls[0]);
      CacheCoherent(s, ServeRequest(s, cache, calls[0]).0, calls[1..], cluster);
    }
  }

  /** Among all clients constructed in the course of the calls at most one is a
      client without a token for the cluster: exactly one if it was not cached
      and could be constructed at all. */
  lemma {:induction false} BuiltAtMostOnce(s: Mode, cache: Cache, calls: seq<Call>, cluster: string)
    requires GoodMode(s) && Coherent(s, cache) && s.Multi? && cluster in s.contexts
    ensures TokenFreeBuilds(LogOf(s, cache, calls), s.contexts[cluster])
            == if cluster !in cache && FirstBuild(s, calls, cluster).Some? then 1 else 0
    decreases |calls|
  {
    if calls != [] {
      var next := ServeRequest(s, cache, calls[0]).0;
      CallKeepsCoherence(s, cache, calls[0]);
      assert cluster in next <==> Cached(next, cluster).Some?;
      BuildsInCounted(s, cache, calls[0], cluster);
      BuiltAtMostOnce(s, next, calls[1..], cluster);
      TokenFreeBuildsAppend(BuildsIn(s, cache, calls[0]), LogOf(s, next, calls[1..]), s.contexts[cluster]);
    }
  }

  lemma {:induction false} FirstBuildIsEarliest(s: Mode, calls: seq<Call>, cluster: string) returns (i: nat)
    requires FirstBuild(s, calls, cluster).Some?
    ensures i < |calls| && DirectBuild(s, calls[i], cluster) == FirstBuild(s, calls, cluster)
    ensures forall j | 0 <= j < i :: DirectBuild(s, calls[j], cluster).None?
  {
    if DirectBuild(s, calls[0], cluster).Some? {
      i := 0;
    } else {
      var k := FirstBuildIsEarliest(s, calls[1..], cluster);
      i := k + 1;
    }
  }

  /** Every client that the calls have added comes from one of them that
      brought no token: it is the build, without a token, of the
      representative context in the world of that call. */
  lemma CachedWithoutToken(s: Mode, cache: Cache, calls: seq<Call>, name: string)
    requires GoodMode(s) && Coherent(s, cache)
    requires name in After(s, cache, calls) && name !in cache
    ensures s.Multi? && name in s.contexts
    ensures exists i | 0 <= i < |calls| ::
              && !HasToken(calls[i]) && Requested(s.raw, calls[i].cluster) == name
              && Build(s, s.contexts[name], None, calls[i].world) == Ok(After(s, cache, calls)[name])
  {
    CacheCoherent(s, cache, calls, name);
    var i := FirstBuildIsEarliest(s, calls, name);
    assert DirectBuild(s, calls[i], name) == Some(After(s, cache, calls)[name]);
  }

  /** A caller's token is never cached: unless some configuration that was read
      has this very token in it, no cached client carries it. */
  lemma CallersTokenNotCached(s: Mode, calls: seq<Call>, token: string, name: string)
    requires GoodMode(s) && name in After(s, map[], calls)
    requires forall i | 0 <= i < |calls| ::
               calls[i].world.given.Some? ==> calls[i].world.given.value.bearerToken != token
    ensures After(s, map[], calls)[name].config.bearerToken != token
  {
    CachedWithoutToken(s, map[], calls, name);
  }

  /** Two token-free calls for the same cluster that both succeed get the same
      client, whatever happens in between. */
  lemma SameClientAgain(s: Mode, cache: Cache, first: Call, between: seq<Call>, second: Call)
    requires GoodMode(s) && Coherent(s, cache) && s.Multi?
    requires !HasToken(first) && !HasToken(second)
    requires Requested(s.raw, first.cluster) == Requested(s.raw, second.cluster)
    requires ServeRequest(s, cache, first).1.Ok?
    ensures var next := After(s, ServeRequest(s, cache, first).0, between);
            ServeRequest(s, next, second) == (next, ServeRequest(s, cache, first).1)
  {
    CallKeepsCoherence(s, cache, first);
    CacheCoherent(s, ServeRequest(s, cache, first).0, between, Requested(s.raw, first.cluster));
  }

  // ---- The two paths resolve alike ----

  /** Failing to resolve, as opposed to failing to build. */
  predicate ResolutionError(r: Result<ClientInfo>) { r.Err? && !r.failure.BuildFailed? }

  /** With and without a token, a call resolves to the same context and
      cluster or to the same error; with a token the cache is untouched, and
      the client's only credential is that token. */
  lemma RequestResolvesAlike(s: Mode, cache: Cache, call: Call, w: World)
    requires GoodMode(s) && Coherent(s, cache) && HasToken(call)
    ensures var (plain, forwarded) := (Serve(s, cache, call.cluster, w).1, ServeRequest(s, cache, call).1);
            && ServeRequest(s, cache, call).0 == cache
            && (ResolutionError(plain) <==> ResolutionError(forwarded))
            && (ResolutionError(plain) ==> plain == forwarded)
            && (s.Multi? && plain.Ok? && forwarded.Ok? ==>
                  && plain.value.context == forwarded.value.context
                  && plain.value.cluster == forwarded.value.cluster == Requested(s.raw, call.cluster)
                  && plain.value.namespace == forwarded.value.namespace)
            && (forwarded.Ok? ==> SoleCredential(forwarded.value.config, call.auth.value.token)
                                  && forwarded.value.user.hasToken)
  {
    if s.Multi? {
      var cluster := Requested(s.raw, call.cluster);
      if cluster in cache {
        assert FitsContext(s, cluster, cache[cluster]);
      }
      if cluster in s.contexts {
        assert Represents(s.raw, cluster, s.contexts[cluster]);
      }
    }
  }

  // ---- What the answers mean ----

  /** The cluster that a caller means: the one named or, with no name, that of
      the current context; empty if there is none. */
  function Meant(raw: Raw, name: string): string {
    if name != "" then name else if raw.current != "" then ActiveCluster(raw) else ""
  }

  /** A cluster that a context names is answered with a client of that very
      cluster, from the cache or newly built, or with the failure to build it;
      any other with an error that says which is unknown. */
  lemma ServesTheClusterMeant(s: Mode, cache: Cache, name: string, w: World)
    requires GoodMode(s) && Coherent(s, cache) && s.Multi?
    ensures var (next, r) := Serve(s, cache, name, w);
            var cluster := Meant(s.raw, name);
            && (r.Ok? ==> cluster != "" && r.value.cluster == cluster && cluster in next)
            && (r == Err(UnknownCluster(cluster)) <==> ContextsOf(s.raw, cluster) == {})
            && (r.Err? ==> (r.failure == UnknownCluster(cluster) || r.failure == BuildFailed) && next == cache)
            && (cluster in cache ==> r == Ok(cache[cluster]))
  {
    var cluster := Meant(s.raw, name);
    NoEmptyCluster(s, cache);
    if cluster in cache { assert FitsContext(s, cluster, cache[cluster]); }
    if cluster in s.contexts { assert Represents(s.raw, cluster, s.contexts[cluster]); }
  }

  lemma NoEmptyCluster(s: Mode, cache: Cache)
    requires GoodMode(s) && Coherent(s, cache) && s.Multi?
    ensures "" !in s.contexts && "" !in cache && ContextsOf(s.raw, "") == {}
  {
    forall c | c in s.contexts ensures c != "" { assert Represents(s.raw, c, s.contexts[c]); }
    forall c | c in cache ensures c in s.contexts { assert FitsContext(s, c, cache[c]); }
  }

  /** With a token the answer is about the same cluster, and always newly
      built: nothing in the cache can answer for a caller. */
  lemma ForwardsToTheClusterMeant(s: Mode, cache: Cache, call: Call)
    requires GoodMode(s) && Coherent(s, cache) && s.Multi? && call.auth.Some? && call.auth.value.token != ""
    ensures var (next, r) := ServeRequest(s, cache, call);
            var cluster := Meant(s.raw, call.cluster);
            && next == cache
            && (r.Ok? ==> cluster != "" && r.value.cluster == cluster && cluster in s.contexts
                          && r == Build(s, s.contexts[cluster], call.auth, call.world))
            && (r == Err(UnknownCluster(cluster)) <==> ContextsOf(s.raw, cluster) == {})
            && (r.Err? ==> r.failure == UnknownCluster(cluster) || r.failure == BuildFailed)
  {
    var cluster := Meant(s.raw, call.cluster);
    NoEmptyCluster(s, cache);
    if cluster in s.contexts { assert Represents(s.raw, cluster, s.contexts[cluster]); }
  }

  /** In a cluster, and without a kubeconfig, there are no other clusters; the
      one client answers, or a client like it with the caller's token. */
  lemma InClusterHasNoNames(s: Mode, cache: Cache, call: Call)
    requires s.InCluster?
    ensures ServeRequest(s, cache, call).0 == cache
    ensures call.cluster != "" ==> ServeRequest(s, cache, call).1 == Err(NotMultiCluster)
    ensures call.cluster == "" && (call.auth.None? || call.auth.value.token == "") ==>
              ServeRequest(s, cache, call).1 == Ok(s.client)
    ensures call.cluster == "" && call.auth.Some? && call.auth.value.token != "" ==>
              ServeRequest(s, cache, call).1 == BuildInCluster(s.client.config, call.auth, call.world)
  {
  }

  /** With a token, the token and nothing else identifies the caller, and the
      host and the operator's impersonation stay; without one the
      configuration is taken as it is. */
  predicate Identifies(given: ConfigView, auth: Option<Auth>, config: ConfigView) {
    if auth.Some? && auth.value.token != "" then
      && SoleCredential(config, auth.value.token) && config.host == given.host
      && config.impersonate == given.impersonate && config.impersonateGroups == given.impersonateGroups
    else config == given
  }

  /** The user is named by the claims, e-mail first, or else as configured. */
  predicate NamedBy(user: UserInfo, auth: Option<Auth>, config: ConfigView) {
    && (if auth.Some? && auth.value.hasClaims && auth.value.email != "" then user.name == auth.value.email
        else if auth.Some? && auth.value.hasClaims && auth.value.subject != "" then user.name == auth.value.subject
        else user.name == config.username)
    && user.username == config.username && (user.hasToken <==> config.bearerToken != "")
    && user.impersonate == config.impersonate && user.groups == config.impersonateGroups
  }

  /** What a client for a context is made of. */
  lemma BuiltAsConfigured(s: Mode, ctx: string, auth: Option<Auth>, w: World)
    requires s.Multi?
    ensures var r := Build(s, ctx, auth, w);
            && (r.Ok? <==> ctx in s.raw.contexts && s.raw.contexts[ctx].Some? && w.given.Some? && w.clientset)
            && (r.Err? ==> r.failure == BuildFailed)
            && (r.Ok? ==>
                  var (c, k) := (r.value, s.raw.contexts[ctx].value);
                  && c.context == ctx && c.cluster == k.cluster
                  && (s.flag != "" ==> c.namespace == s.flag)
                  && (s.flag == "" && k.namespace != "" ==> c.namespace == k.namespace)
                  && (s.flag == "" && k.namespace == "" ==> c.namespace == "default")
                  && Identifies(w.given.value, auth, c.config) && NamedBy(c.user, auth, c.config))
  {
  }

  /** What an in-cluster client is made of. */
  lemma BuiltInCluster(given: ConfigView, auth: Option<Auth>, w: World)
    ensures var r := BuildInCluster(given, auth, w);
            && (r.Ok? <==> w.clientset)
            && (r.Err? ==> r.failure == BuildFailed)
            && (r.Ok? ==>
                  && r.value.context == "" && r.value.cluster == "in-cluster"
                  && r.value.namespace == (if w.podNamespace != "" then w.podNamespace else "default")
                  && Identifies(given, auth, r.value.config) && NamedBy(r.value.user, auth, r.value.config))
  {
  }

  // ---- Objects ----

  /** A rest.Config: one mutable object, shared by reference. */
  class RestConfig {
    var view: ConfigView

    constructor (v: ConfigView)
      ensures view == v
    {
      view := v;
    }

    /** rest.CopyConfig. */
    method Copy() returns (c: RestConfig)
      ensures fresh(c) && c.view == view
    {
      c := new RestConfig(view);
    }

    /** applyOIDCToken overwrites the fields one by one. */
    method ApplyOIDCToken(auth: Option<Auth>)
      modifies this
      ensures view == WithToken(old(view), auth)
    {
      if auth.None? || auth.value.token == "" {
        return;
      }
      view := view.(bearerToken := auth.value.token, bearerTokenFile := "");
      view := view.(certData := "", certFile := "", keyData := "", keyFile := "");
      view := view.(username := "", password := "", authProvider := false, execProvider := false);
    }
  }

  class Client {
    const context: string
    const cluster: string
    const namespace: string
    const user: UserInfo
    const config: RestConfig

    constructor (context: string, cluster: string, namespace: string, user: UserInfo, config: RestConfig)
      ensures this.context == context && this.cluster == cluster && this.namespace == namespace
      ensures this.user == user && this.config == config
    {
      this.context, this.cluster, this.namespace := context, cluster, namespace;
      this.user, this.config := user, config;
    }

    function Info(): ClientInfo
      reads config
    {
      ClientInfo(context, cluster, namespace, user, config.view)
    }
  }

  class MultiClusterClient {
    const raw: Option<Raw>
    const contexts: map<string, string>
    const flag: string
    const inCluster: Client?
    var clients: map<string, Client>

    /** Every client constructed for a context, written where it is made. */
    ghost var log: seq<Built>

    constructor Multi(raw: Raw, flag: string)
      ensures Valid() && View() == map[] && fresh(Configs()) && inCluster == null
      ensures this.raw == Some(raw) && this.flag == flag && log == []
    {
      this.raw := Some(raw);
      this.flag := flag;
      var m := RepresentativeContexts(raw);
      this.contexts := m;
      this.inCluster := null;
      this.clients := map[];
      this.log := [];
    }

    constructor InCluster(client: Client)
      ensures Valid() && View() == map[] && Settings() == Mode.InCluster(client.Info())
    {
      this.raw := None;
      this.flag := "";
      this.contexts := map[];
      this.inCluster := client;
      this.clients := map[];
      this.log := [];
    }

    ghost function Configs(): set<object>
      reads this
    {
      (set name | name in clients :: clients[name].config)
      + (if inCluster != null then {inCluster.config} else {})
    }

    ghost predicate Valid()
      reads this, Configs()
    {
      && (raw.Some? <==> inCluster == null)
      && (raw.Some? ==> IsRepresentation(raw.value, contexts))
      && Coherent(Settings(), View())
    }

    ghost function Settings(): Mode
      requires raw.Some? <==> inCluster == null
      reads this, Configs()
    {
      if raw.Some? then Mode.Multi(raw.value, contexts, flag) else Mode.InCluster(inCluster.Info())
    }

    ghost function View(): Cache
      reads this, Configs()
    {
      map name | name in clients :: clients[name].Info()
    }

    method NewClientForCluster(ctx: string, auth: Option<Auth>, w: World) returns (r: Result<Client>)
      requires raw.Some?
      modifies this`log
      ensures r.Ok? ==> fresh(r.value) && fresh(r.value.config)
      ensures Build(Mode.Multi(raw.value, contexts, flag), ctx, auth, w)
              == if r.Ok? then Ok(r.value.Info()) else Err(r.failure)
      ensures log == old(log) + if r.Ok? then [Built(ctx, auth, w)] else []
    {
      var k := raw.value;
      if !(ctx in k.contexts && k.contexts[ctx].Some?) {
        return Err(BuildFailed);
      }
      if w.given.None? {
        return Err(BuildFailed);
      }
      var config := new RestConfig(w.given.value);
      config.ApplyOIDCToken(auth);
      if !w.clientset {
        return Err(BuildFailed);
      }
      var kubeCtx := k.contexts[ctx].value;
      var namespace := kubeCtx.namespace;
      if flag != "" {
        namespace := flag;
      }
      if namespace == "" {
        namespace := "default";
      }
      var user := UserOf(config.view, None);
      if OIDCUserName(auth) != "" {
        user := user.(name := OIDCUserName(auth));
      }
      var client := new Client(ctx, kubeCtx.cluster, namespace, user, config);
      log := log + [Built(ctx, auth, w)];
      return Ok(client);
    }

    /** Works on a copy: the shared configuration is not in any frame here. */
    method NewInClusterClient(config: RestConfig, auth: Option<Auth>, w: World) returns (r: Result<Client>)
      ensures r.Ok? ==> fresh(r.value) && fresh(r.value.config)
      ensures config.view == old(config.view)
      ensures BuildInCluster(config.view, auth, w) == if r.Ok? then Ok(r.value.Info()) else Err(r.failure)
    {
      var c := config.Copy();
      c.ApplyOIDCToken(auth);
      if !w.clientset {
        return Err(BuildFailed);
      }
      var namespace := "default";
      if w.podNamespace != "" {
        namespace := w.podNamespace;
      }
      var user := UserOf(c.view, None);
      if OIDCUserName(auth) != "" {
        user := user.(name := OIDCUserName(auth));
      }
      var client := new Client("", "in-cluster", namespace, user, c);
      return Ok(client);
    }

    method Keep(cluster: string, client: Client)
      requires cluster !in clients
      modifies this`clients
      ensures clients == old(clients)[cluster := client]
      ensures View() == old(View())[cluster := client.Info()]
      ensures Configs() == old(Configs()) + {client.config}
    {
      clients := clients[cluster := client];
      assert clients[cluster].config in Configs();
      assert forall name | name in old(clients) :: clients[name] == old(clients)[name];
    }

    /** A cache miss: build the client and, if that works, keep it. */
    method BuildAndKeep(cluster: string, w: World) returns (r: Result<Client>)
      requires Valid() && raw.Some? && cluster !in clients && cluster in contexts
      modifies this`clients, this`log
      ensures Settings() == old(Settings()) && Coherent(Settings(), View())
      ensures fresh(Configs() - old(Configs()))
      ensures Build(Settings(), contexts[cluster], None, w) == if r.Ok? then Ok(r.value.Info()) else Err(r.failure)
      ensures View() == if r.Ok? then old(View())[cluster := r.value.Info()] else old(View())
      ensures clients == if r.Ok? then old(clients)[cluster := r.value] else old(clients)
      ensures log == old(log) + if r.Ok? then [Built(contexts[cluster], None, w)] else []
    {
      ghost var s, was := Settings(), View();
      r := NewClientForCluster(contexts[cluster], None, w);
      assert View() == was && Settings() == s;
      if r.Ok? {
        ghost var info := r.value.Info();
        KeepingIsCoherent(s, was, cluster, w, info);
        Keep(cluster, r.value);
        assert Settings() == s && View() == was[cluster := info];
      }
    }

    /** GetCluster, all of it under the lock but the resolution of the name. */
    method GetCluster(name: string, w: World) returns (r: Result<Client>)
      requires Valid()
      modifies this`clients, this`log
      ensures Valid() && Settings() == old(Settings())
      ensures fresh(Configs() - old(Configs()))
      ensures (View(), if r.Ok? then Ok(r.value.Info()) else Err(r.failure))
              == Serve(Settings(), old(View()), name, w)
      ensures forall c | c in old(clients) :: c in clients && clients[c] == old(clients[c])
      ensures log == old(log) + BuildsIn(Settings(), old(View()), Call(name, None, w))
    {
      if name == "" && inCluster != null {
        return Ok(inCluster);
      }
      if raw.None? {
        return Err(NotMultiCluster);
      }
      var cluster := Requested(raw.value, name);
      if cluster in clients {
        return Ok(clients[cluster]);
      }
      if cluster !in contexts {
        return Err(UnknownCluster(cluster));
      }
      r := BuildAndKeep(cluster, w);
    }

    /** With a token and a kubeconfig: as GetCluster resolves, but nothing is
        looked up in the cache or kept there. */
    method BuildForRequest(call: Call) returns (r: Result<Client>)
      requires Valid() && raw.Some? && HasToken(call)
      modifies this`log
      ensures r.Ok? ==> fresh(r.value) && fresh(r.value.config)
      ensures (if r.Ok? then Ok(r.value.Info()) else Err(r.failure)) == ServeRequest(Settings(), View(), call).1
      ensures log == old(log) + BuildsIn(Settings(), View(), call)
    {
      var cluster := Requested(raw.value, call.cluster);
      if cluster !in contexts {
        return Err(UnknownCluster(cluster));
      }
      r := NewClientForCluster(contexts[cluster], call.auth, call.world);
    }

    method GetClusterForRequest(call: Call) returns (r: Result<Client>)
      requires Valid()
      modifies this`clients, this`log
      ensures Valid() && Settings() == old(Settings())
      ensures (View(), if r.Ok? then Ok(r.value.Info()) else Err(r.failure))
              == ServeRequest(Settings(), old(View()), call)
      ensures HasToken(call) ==> clients == old(clients) && (r.Ok? ==> fresh(r.value))
      ensures log == old(log) + BuildsIn(Settings(), old(View()), call)
    {
      if !HasToken(call) {
        r := GetCluster(call.cluster, call.world);
        return;
      }
      if inCluster != null {
        if call.cluster != "" {
          return Err(NotMultiCluster);
        }
        r := NewInClusterClient(inCluster.config, call.auth, call.world);
      } else {
        r := BuildForRequest(call);
      }
      assert View() == old(View()) && Settings() == old(Settings());
    }
  }
}
