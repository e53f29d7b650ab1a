# Verification model of mimiops-mcp

A Dafny 4.11 model of the stateful and algorithmic core of the repository, with
proofs about it: the OAuth authorization-server proxy, the resolution and
caching of cluster clients, the log sanitizer, the struct-to-markdown
formatter, and the printers and parsers of usage windows, quantities and
scopes. `dafny verify dfyconfig.toml` checks everything.

## What is modelled

**OAuth proxy** (`OAuth*.dfy`). `OAuthModel` holds the values and what each
locked section computes. `OAuthServer.OAuthProxy` is the object: its three maps
are fields, its methods are the source's lock regions with the unlocked code
around them, and each method is proved to do exactly one step of
`OAuthProtocol`. There a step is one locked section or one unlocked stretch of
one handler, or one tick of the sweeper. A handler that has released the lock
is *in flight* and keeps its local variables, so all interleavings of
register, authorize, callback, token and sweep are runs. A history that no
handler can read records what happened.

- `OAuthLifecycle`: every upstream state has one fate, every code is used once,
  and nothing is lost or duplicated. Two small automata read the history and
  break on anything out of order; they never break.
- `OAuthBinding`: a delivered token leads back to one authorize request.
- `OAuthAnswers`: what every step answers and leaves behind, in terms of the
  request, the clock and the maps alone.
- `OAuthAdmission`: a session comes from a request that was acceptable, and a
  registered client is served at the URIs of its own registration only.
- `OAuthCompletion`: the converse; a login that follows the protocol in time
  gets its own token, whatever else runs in between.
- `OAuthExpiry`: deleting expired entries late cannot be told from a store
  whose entries vanish the instant they expire.

What the proofs rest on: random tokens are fresh over the whole run; the clock
never goes back, and a section that reads it twice reads it in order; S256, URL
parsing and the loopback test on IP addresses are functions about which nothing
is assumed; the code exchange and the token verification answer anything, but a
successful exchange has a token in it (lines 658-660 of
`cmd/mimiops-mcp/server_oauth_proxy.go`).

**Cluster clients** (`Kubeconfig.dfy`, `Clusters.dfy`). The map from clusters
to representative contexts is built by the source's loop and proved against a
description that leaves no choice. `Clusters.MultiClusterClient` fills its
cache in place; its clients hold `RestConfig` objects by reference, so "the
shared configuration is never modified" is a statement about the heap. What
clientcmd reads, and whether a clientset can be built, may differ on every call.
Every client is recorded where it is constructed, so what is proved about
sequences of calls speaks of constructions and of the calls they serve.

**Sanitizer** (`Luhn.dfy`, `Pem.dfy`, `PemLines.dfy`, `Spans.dfy`,
`Sanitize.dfy`). The PEM scanner is concrete: leftmost start, shortest end, no
overlap. The other patterns are any functions that return well-placed,
non-overlapping matches and capture parts of them, so the results hold for
every set of patterns.

**Formatter** (`Markdown.dfy`, `Formatter*.dfy`). Go types and values are finite datatypes with struct tags,
pointers, interfaces, nil, embedded fields, slices and maps in iteration order.
`Formatter.Builder` is the shared string builder. A scalar carries the text
that `formatScalar` prints for it. `FormatterText` and `FormatterCells`
say what each line and cell reads; `FormatterHeadings` is about the headings of
the final text; `FormatterRewriting` and `FormatterNesting` are about what may
be rewritten in a value, on one line, at one level and at any depth.

**Usage and configuration** (`Settings.dfy`, `Usage.dfy`). Durations wrap
around at 64 bits as Go's do; quantities are reals, rounded up when shown.

## Where the code and its promises differ

The model follows the code, and each point is a lemma.

- The comment at line 721 of `server_oauth_proxy.go` promises redirect URIs
  with https anywhere. `newOAuthProxy` never fills `allowedRedirectPrefixes`,
  so only http on a loopback host is ever accepted (`OnlyLoopbackHttpAllowed`).
- The representative context of the active cluster is the greatest by name, not
  the current context; the two agree exactly when no context of that cluster
  has a greater name than the current one (`DefaultUsesCurrentContext`).
- Masking a sensitive key replaces the *first* occurrence of the value in the
  match. `token=t` becomes `***oken=t`: the key is damaged and the value stays.
  The promise holds whenever the captured value is the first occurrence, and,
  for a mask whose first character is not in the match, only then
  (`KeyMatchKept`, `ShortValueEscapes`).
- `Sanitize` distributes over a line break only if an empty line stays empty;
  the two early returns leave it out of account (`LineHomomorphism`).
- `docs/logs.md` (lines 155-156) says that keys are masked before values; the
  code masks values first, and so does the model. The two orders differ
  (`OrderOfPassesMatters`).
- `formatMap` depends on the iteration order exactly when two keys print alike
  and their values do not (`OrderIrrelevantExactlyWhenConsistent`).
- A `WindowSeconds` beyond the int64 range of nanoseconds wraps around, and
  then the printed window never means the reported one
  (`WindowMeansSecondsExactlyInRange`).
- Embedded structs are flattened in blocks, but not when a struct is printed on
  one line, as in a table cell: there the text is the same exactly when the
  embedded struct has nothing to print (`InlineKeptExactlyIfNothingPrinted`).
- Flattening inside a nested struct keeps the text exactly when `omitempty`
  judges the struct alike before and after, which fails only for an embedded
  pointer to a zero struct with nothing else beside it (`NestedEmbedding`,
  `ZeroKeptExactly`).

## Model

| member | source | states |
|---|---|---|
| OAuthModel.OnlyLoopbackHttpAllowed | cmd/mimiops-mcp/server_oauth_proxy.go:723-740 | for a proxy as constructed, a redirect URI is allowed if and only if it parses, has a host, and is http on a loopback host |
| OAuthModel.PrunePrune | cmd/mimiops-mcp/server_oauth_proxy.go:685-703 | cleaning up at two moments is cleaning up at the later one |
| OAuthServer.OAuthProxy.constructor | cmd/mimiops-mcp/server_oauth_proxy.go:171-190 | a new proxy has three empty maps and no allowed prefixes |
| OAuthServer.OAuthProxy.CleanupLocked | cmd/mimiops-mcp/server_oauth_proxy.go:685-703 | deletes exactly the expired entries of all three maps |
| OAuthServer.OAuthProxy.CleanupClients | cmd/mimiops-mcp/server_oauth_proxy.go:686-690 | the loop, deleting while it ranges, leaves exactly the unexpired clients |
| OAuthServer.OAuthProxy.CleanupSessions | cmd/mimiops-mcp/server_oauth_proxy.go:692-696 | the same for sessions |
| OAuthServer.OAuthProxy.CleanupGrants | cmd/mimiops-mcp/server_oauth_proxy.go:698-702 | the same for grants |
| OAuthServer.OAuthProxy.RegisterClient | cmd/mimiops-mcp/server_oauth_proxy.go:665-683 | the locked section: clean up only when full, refuse only if still full, otherwise add one client |
| OAuthServer.OAuthProxy.HandleRegister | cmd/mimiops-mcp/server_oauth_proxy.go:225-250 | the handler does the register step of the protocol: answer and maps agree |
| OAuthServer.OAuthProxy.LookupClient | cmd/mimiops-mcp/server_oauth_proxy.go:278-284 | an expired client is deleted and not returned; nothing else changes |
| OAuthServer.OAuthProxy.AuthorizeFirst | cmd/mimiops-mcp/server_oauth_proxy.go:265-322 | everything before the second lock does the lookup step: same refusal, or in flight with the effective challenge method |
| OAuthServer.OAuthProxy.StoreSession | cmd/mimiops-mcp/server_oauth_proxy.go:329-350 | the locked section: clean up only when full, refuse only if still full, otherwise add one session |
| OAuthServer.OAuthProxy.AuthorizeSecond | cmd/mimiops-mcp/server_oauth_proxy.go:324-363 | the rest of the handler does the store step |
| OAuthServer.OAuthProxy.PopSession | cmd/mimiops-mcp/server_oauth_proxy.go:379-382 | returns the session of the state and removes it |
| OAuthServer.OAuthProxy.CallbackFirst | cmd/mimiops-mcp/server_oauth_proxy.go:379-382 | everything under the first lock does the take step |
| OAuthServer.OAuthProxy.CallbackCheck | cmd/mimiops-mcp/server_oauth_proxy.go:384-409 | from there to the exchange the handler does the check step, with whatever maps it finds: same refusal or error redirect, or carries on with the session it took |
| OAuthServer.OAuthProxy.CallbackSecond | cmd/mimiops-mcp/server_oauth_proxy.go:427-447 | stores the grant and redirects with the code, as the grant step |
| OAuthServer.OAuthProxy.PopGrant | cmd/mimiops-mcp/server_oauth_proxy.go:505-510 | returns the grant of the code and removes it |
| OAuthServer.OAuthProxy.TokenFirst | cmd/mimiops-mcp/server_oauth_proxy.go:491-510 | until it releases the lock the handler does the take step: a refusal that leaves the maps alone, or in flight with the grant it took |
| OAuthServer.OAuthProxy.TokenSecond | cmd/mimiops-mcp/server_oauth_proxy.go:512-542 | the rest of the handler does the finish step, with whatever maps it finds |
| OAuthAnswers.AllowedExactly | cmd/mimiops-mcp/server_oauth_proxy.go:723-750 | a redirect URI is allowed if and only if it parses, has a host, and is http on localhost or a loopback address, or https under one of the prefixes |
| OAuthAnswers.PruneKeepsExactlyTheLive | cmd/mimiops-mcp/server_oauth_proxy.go:685-703 | cleaning up keeps, unchanged, exactly the entries whose last moment has not passed |
| OAuthAnswers.RegisterAnswers | cmd/mimiops-mcp/server_oauth_proxy.go:225-250 | a registration is refused for a bad URI, or when 10000 clients are alive, or else stored for 24 hours under the identifier in the answer, with its own URIs |
| OAuthAnswers.AuthorizeGoesOnExactly | cmd/mimiops-mcp/server_oauth_proxy.go:265-322 | an authorize request goes on if and only if response type, client, challenge and method are good and its redirect URI is one of the registered and unexpired client's, or an allowed one if there is no such client; otherwise the answer names the first fault |
| OAuthAnswers.StoreAnswers | cmd/mimiops-mcp/server_oauth_proxy.go:327-363 | the browser is sent on with the state under which the session is stored and the S256 challenge of the session's own verifier; the session has the request's values and ten minutes; refused when 10000 sessions are alive |
| OAuthAnswers.TakeAnswers | cmd/mimiops-mcp/server_oauth_proxy.go:379-382 | takes exactly the session of the state |
| OAuthAnswers.CheckAnswers | cmd/mimiops-mcp/server_oauth_proxy.go:384-409 | dead state refused; upstream error forwarded to the session's URI with exactly error, description and client state; missing code refused; anything else goes on |
| OAuthAnswers.UpstreamAnswers | cmd/mimiops-mcp/server_oauth_proxy.go:411-425 | a failed exchange or verification ends the callback; a good one passes token and session on |
| OAuthAnswers.GrantAnswers | cmd/mimiops-mcp/server_oauth_proxy.go:427-447 | the redirect to the session's URI carries the code under which the grant is stored and, exactly if there is one, the client's own state; the grant has the verified token, the session's client, URI and challenge, and two minutes |
| OAuthAnswers.BurnAnswers | cmd/mimiops-mcp/server_oauth_proxy.go:491-510 | a wrong grant type changes nothing; otherwise exactly the presented code goes |
| OAuthAnswers.FinishAnswers | cmd/mimiops-mcp/server_oauth_proxy.go:512-542 | the grant's token, with its lifetime if positive and the proxy's scopes, if and only if the grant is alive and client, URI and verifier match; invalid_grant otherwise |
| OAuthAnswers.TokenMeansChallengeAnswered | cmd/mimiops-mcp/server_oauth_proxy.go:776-782 | a token means that the challenge is the S256 of the verifier, or the verifier itself under any other method; and such a request is answered with a token |
| OAuthAdmission.SessionsWereAdmitted | cmd/mimiops-mcp/server_oauth_proxy.go:278-350 | in every run from the empty proxy a browser sent on has behind it an earlier request that was acceptable when looked up, and if its client was registered then, the redirect URI is one of that registration |
| OAuthAdmission.FlightCameFrom | cmd/mimiops-mcp/server_oauth_proxy.go:286-322 | every waiting authorize handler holds a request that was acceptable when it was looked up |
| OAuthAdmission.ClientCameFrom | cmd/mimiops-mcp/server_oauth_proxy.go:665-683 | every stored client has the URIs and the lifetime of one earlier registration, all of them allowed |
| OAuthProtocol.CapacityKept | cmd/mimiops-mcp/server_oauth_proxy.go:331-341 | no step brings clients or sessions above 10000 |
| OAuthProtocol.RegisterRefusesExactlyWhenFull | cmd/mimiops-mcp/server_oauth_proxy.go:669-674 | registration is refused for capacity if and only if 10000 unexpired clients exist |
| OAuthProtocol.AuthorizeRefusesExactlyWhenFull | cmd/mimiops-mcp/server_oauth_proxy.go:331-339 | authorize is refused for capacity if and only if 10000 unexpired sessions exist |
| OAuthProtocol.RedirectsStayAllowed | cmd/mimiops-mcp/server_oauth_proxy.go:286-306 | every step keeps all redirect URIs in clients, sessions, grants and in-flight handlers allowed, and redirects only to an allowed one |
| OAuthProtocol.RunsAreSafe | cmd/mimiops-mcp/server_oauth_proxy.go:389-447 | along every run both limits and all redirect URIs keep, and every client redirect, success or upstream error, goes to an allowed URI |
| OAuthProtocol.ReachableIsSafe | cmd/mimiops-mcp/server_oauth_proxy.go:389-447 | so from the empty proxy, in every reachable state and for every next step; a proxy as constructed redirects only to http on a loopback host |
| OAuthProtocol.TokenRequestBurnsOnlyItsCode | cmd/mimiops-mcp/server_oauth_proxy.go:505-510 | a token request, successful or not, removes its own code and changes nothing else |
| OAuthLifecycle.EveryStateHasOneFate | cmd/mimiops-mcp/server_oauth_proxy.go:341-350 | in every reachable state each upstream state is in exactly one of never created, pending, in flight, failed, granted, consumed, swept, and this agrees with the maps and the handlers, of which at most one holds it |
| OAuthLifecycle.FateFromView | cmd/mimiops-mcp/server_oauth_proxy.go:379-382 | the fate read from the history agrees with the keys of the maps and with what the handlers hold |
| OAuthLifecycle.FinalFatesStay | cmd/mimiops-mcp/server_oauth_proxy.go:505-510 | failed, consumed and swept are final in every continuation of a run |
| OAuthLifecycle.OnceOnly | cmd/mimiops-mcp/server_oauth_proxy.go:505-510 | a state is created once and yields at most one grant; a code is issued and burned at most once, gets at most one token, and none after a refusal |
| OAuthLifecycle.DeliveredAtMostIssuedAtMostCreated | cmd/mimiops-mcp/server_oauth_proxy.go:429-439 | tokens delivered never outnumber grants created, nor grants sessions created |
| OAuthLifecycle.NextSound | cmd/mimiops-mcp/server_oauth_proxy.go:341-439 | every enabled step keeps the automata in agreement with the proxy and the tally balanced |
| OAuthLifecycle.RunSound | cmd/mimiops-mcp/server_oauth_proxy.go:341-439 | so does every run |
| OAuthLifecycle.CountBalances | cmd/mimiops-mcp/server_oauth_proxy.go:341-439 | created = pending + in flight + failed + granted + swept, and the same for codes, across every entry of the history |
| OAuthBinding.DeliveredTokenIsBound | cmd/mimiops-mcp/server_oauth_proxy.go:512-531 | every delivered token has a trail of creation, check, exchange, verification and grant with one state: same client and redirect URI, the asked challenge equal to the S256 of the verifier or to the verifier itself, the token of the exchange made with this session's verifier, and both deadlines kept; its authorize request is unique |
| OAuthBinding.SuccessfulTokenResponseIsBound | cmd/mimiops-mcp/server_oauth_proxy.go:533-542 | the same for whatever token response a client sees after any run |
| OAuthBinding.RunJustified | cmd/mimiops-mcp/server_oauth_proxy.go:384-439 | in every run each entry of the history is justified by earlier ones |
| OAuthBinding.WalkBack | cmd/mimiops-mcp/server_oauth_proxy.go:411-439 | finds the trail behind a delivered token |
| OAuthBinding.SameSession | cmd/mimiops-mcp/server_oauth_proxy.go:341-349 | all mentions of a state's session in a history are the one session created |
| OAuthCompletion.HonestLoginSucceeds | cmd/mimiops-mcp/server_oauth_proxy.go:256-543 | a login that is acceptable, comes back in time and answers its challenge succeeds in every interleaving with other handlers and sweeps: the provider is sent the state that comes back, the redirect brings the client the code that it redeems and its own state, and the answer is the token of its own exchange |
| OAuthCompletion.TokenExactlyIfProven | cmd/mimiops-mcp/server_oauth_proxy.go:512-542 | a token is given if and only if the grant is alive and client, redirect URI and verifier match; otherwise the answer is invalid_grant |
| OAuthCompletion.SessionWaits | cmd/mimiops-mcp/server_oauth_proxy.go:692-696 | no sweep and no other handler loses or changes a session before it expires |
| OAuthCompletion.GrantWaits | cmd/mimiops-mcp/server_oauth_proxy.go:698-702 | the same for a grant that nobody redeems |
| OAuthCompletion.RunIsTrace | cmd/mimiops-mcp/server_oauth_proxy.go:705-719 | runs and their sequences of states are the same thing |
| OAuthExpiry.LazyExpiryIsInvisible | cmd/mimiops-mcp/server_oauth_proxy.go:705-719 | for every run the responses are exactly those of the store whose entries vanish when they expire |
| OAuthExpiry.RunsAgree | cmd/mimiops-mcp/server_oauth_proxy.go:705-719 | the same from any two states that are alike |
| OAuthExpiry.StepAgrees | cmd/mimiops-mcp/server_oauth_proxy.go:278-284 | one step gives the same response and leaves the two alike |
| OAuthExpiry.RegisterSectionAgrees | cmd/mimiops-mcp/server_oauth_proxy.go:669-682 | cleaning up only when full refuses exactly as the simple store does |
| OAuthExpiry.SessionSectionAgrees | cmd/mimiops-mcp/server_oauth_proxy.go:331-349 | the same for sessions |
| OAuthExpiry.LookupSectionAgrees | cmd/mimiops-mcp/server_oauth_proxy.go:278-284 | lazy deletion on lookup finds what the simple store finds |
| OAuthExpiry.TakeSessionAgrees | cmd/mimiops-mcp/server_oauth_proxy.go:379-384 | taking a session differs at most by one that has expired |
| OAuthExpiry.TakeGrantAgrees | cmd/mimiops-mcp/server_oauth_proxy.go:505-512 | taking a grant differs at most by one that has expired |
| Kubeconfig.RepresentativeContexts | internal/k8s/multicluster.go:233-257 | the loop maps exactly the non-empty clusters that some context names, to the least context name, or the greatest for the active cluster |
| Kubeconfig.RepresentationUnique | internal/k8s/multicluster.go:251-253 | that description determines the map |
| Kubeconfig.DefaultUsesCurrentContext | internal/k8s/multicluster.go:240-253 | the active cluster is represented by the current context if and only if no context of that cluster has a greater name |
| Kubeconfig.SortedKeys | internal/k8s/multicluster.go:126-130 | gathering in any order and sorting gives the keys ascending, each once |
| Kubeconfig.GroupContexts | internal/k8s/multicluster.go:118-124 | groups every context under its cluster, once, whatever the map order |
| Kubeconfig.ListClusters | internal/k8s/multicluster.go:113-152 | the entries are the clusters in ascending order without repetition, each with its sorted contexts, count, server and current flag |
| Kubeconfig.AtMostOneCurrent | internal/k8s/multicluster.go:147 | at most one entry is current, and it is the active cluster |
| Kubeconfig.ListedAndResolvable | internal/k8s/multicluster.go:179-182 | a listed cluster is in the resolution map if and only if its count is positive |
| Kubeconfig.CountsAddUp | internal/k8s/multicluster.go:146 | the counts sum to the number of contexts that name a known cluster |
| Text.LeMeans | internal/k8s/multicluster.go:130-135 | the order used for sorting and choosing names puts a prefix first and otherwise goes by the first difference |
| Clusters.RestConfig.Copy | internal/k8s/auth.go:107 | a new object with the same contents |
| Clusters.RestConfig.ApplyOIDCToken | internal/k8s/auth.go:148-169 | writes the token and clears every other credential, or does nothing without a token |
| Clusters.MultiClusterClient.Multi | internal/k8s/multicluster.go:64-87 | a client over a kubeconfig starts coherent and with an empty cache |
| Clusters.MultiClusterClient.InCluster | internal/k8s/multicluster.go:95-103 | an in-cluster client starts coherent |
| Clusters.MultiClusterClient.NewClientForCluster | internal/k8s/auth.go:43-94 | builds the client of a context, with fresh objects, and records it, or returns the same error as the direct build |
| Clusters.MultiClusterClient.NewInClusterClient | internal/k8s/auth.go:106-141 | builds from a copy; the shared configuration keeps its contents |
| Clusters.MultiClusterClient.Keep | internal/k8s/multicluster.go:189 | adds one client to the cache |
| Clusters.MultiClusterClient.BuildAndKeep | internal/k8s/multicluster.go:179-191 | a miss caches the token-free build of the representative context, or nothing if it fails |
| Clusters.MultiClusterClient.GetCluster | internal/k8s/multicluster.go:157-192 | result, new cache and constructed clients are those of Serve; cached clients stay the same objects |
| Clusters.MultiClusterClient.BuildForRequest | internal/k8s/multicluster.go:214-230 | with a token and a kubeconfig: resolves as GetCluster does, builds with the token, and leaves the cache out of its frame |
| Clusters.MultiClusterClient.GetClusterForRequest | internal/k8s/multicluster.go:200-231 | result, new cache and constructed clients are those of ServeRequest; with a token the cache is untouched and the client is new |
| Clusters.CallKeepsCoherence | internal/k8s/multicluster.go:172-191 | a call loses nothing that is cached, adds nothing with a token, and otherwise adds only its own token-free build of the representative context |
| Clusters.CacheCoherent | internal/k8s/multicluster.go:157-192 | over every sequence of calls, with and without tokens, the cache holds for each cluster exactly the client of the first call without a token that could be built |
| Clusters.CachedWithoutToken | internal/k8s/multicluster.go:184-189 | every client that was added is the build, without a token, of the representative context in the world of one of the calls, which brought no token |
| Clusters.CallersTokenNotCached | internal/k8s/multicluster.go:194-199 | no cached client carries a caller's token, unless a configuration that was read has it |
| Clusters.BuiltAtMostOnce | internal/k8s/multicluster.go:175-189 | among all clients constructed in the course of the calls, recorded where they are made, there is exactly one without a token for a cluster that was not cached and could be built, and none otherwise |
| Clusters.FirstBuildIsEarliest | internal/k8s/multicluster.go:179-189 | the first build belongs to the earliest call without a token that could build |
| Clusters.SameClientAgain | internal/k8s/multicluster.go:175-177 | two token-free calls for one cluster get the same client, whatever comes between |
| Clusters.RequestResolvesAlike | internal/k8s/multicluster.go:200-231 | with a token a call resolves to the same context, cluster and namespace or the same error, and the token is the only credential of the client |
| Clusters.ServesTheClusterMeant | internal/k8s/multicluster.go:157-192 | without a token a call is answered with a client of the very cluster named, or of the current context's when no name is given, or fails to build it; a cluster that no context names is reported as unknown by that name |
| Clusters.ForwardsToTheClusterMeant | internal/k8s/multicluster.go:206-230 | with a token the same cluster is meant, the client is newly built for it, and the cache stays |
| Clusters.InClusterHasNoNames | internal/k8s/multicluster.go:158-164 | in a cluster a name is an error, and without one the single client answers, or one like it with the caller's token |
| Clusters.BuiltAsConfigured | internal/k8s/auth.go:43-94 | a client has its context's cluster and the namespace of the flag, the context or "default"; with a token only that identifies it while host and impersonation stay, without one the configuration is as read; the user is named by e-mail, subject or configuration |
| Clusters.BuiltInCluster | internal/k8s/auth.go:106-141 | the same for the in-cluster client, with the pod's namespace |
| Luhn.LuhnValid | internal/utils/sanitize.go:290-314 | the two loops equal the recursive checksum over the digits, within 13 to 19 digits |
| Luhn.LuhnMeans | internal/utils/sanitize.go:290-314 | a text passes if and only if it has 13 to 19 digits whose left-to-right textbook sum, every second digit from the last but one doubled and its digits added, is a multiple of ten |
| Luhn.SeparatorsIgnored | internal/utils/sanitize.go:292-297 | inserting separators anywhere never matters |
| Luhn.SumUpdate | internal/utils/sanitize.go:303-312 | changing one digit changes the sum by the difference of the weights |
| Luhn.WrongDigitDetected | internal/utils/sanitize.go:313 | changing one digit of a valid number makes it invalid |
| Luhn.SwapDetected | internal/utils/sanitize.go:303-313 | swapping neighbours keeps a number valid if and only if they are equal or are 0 and 9 |
| Luhn.CheckDigitUnique | internal/utils/sanitize.go:299-313 | each prefix of 12 to 18 digits has exactly one valid check digit |
| Pem.NoBlockSurvives | internal/utils/sanitize.go:98-100 | no complete private-key block is left in the output, for every text and every mask that shares no character with the markers |
| Pem.MaskTwice | internal/utils/sanitize.go:193 | the PEM pass is idempotent |
| Pem.DefaultMaskIsForeign | internal/utils/sanitize.go:124-138 | the default mask is such a mask |
| Pem.UntouchedExactlyWithoutBlock | internal/utils/sanitize.go:193 | the PEM pass leaves a text alone if and only if it holds no complete block |
| Pem.MarkerMeans | internal/utils/sanitize.go:98-100 | a BEGIN or END line is the fixed text around a label of capitals and spaces |
| Pem.BlockMeans | internal/utils/sanitize.go:98-100 | a block is a BEGIN line, anything, and an END line |
| Pem.FirstBlockMasked | internal/utils/sanitize.go:193 | the block that starts first and of those ends first is replaced by the mask, and the scan goes on behind it |
| PemLines.DistributesExactlyUnlessOpen | internal/utils/sanitize.go:98-100 | the PEM pass distributes over a line break if and only if what precedes it has no BEGIN line after its last block, or what follows has no END line |
| Spans.GapsSurvive | internal/utils/sanitize.go:256-267 | text between matches survives in order, and each match becomes its replacement |
| Spans.OnlyPickedMatter | internal/utils/sanitize.go:257-262 | matches returned as they are count as no matches |
| Sanitize.Sanitizer.constructor | internal/utils/sanitize.go:124-138 | starts with the compiled default expressions and the default mask |
| Sanitize.Sanitizer.AddValuePatterns | internal/utils/sanitize.go:167-176 | appends the patterns up to the first that does not compile, and fails exactly if there is one |
| Sanitize.Sanitizer.SetMask | internal/utils/sanitize.go:179-183 | sets the mask unless it is empty |
| Sanitize.Sanitizer.MaskValues | internal/utils/sanitize.go:252-270 | applies the patterns one after the other to a line |
| Sanitize.Sanitizer.MaskKeys | internal/utils/sanitize.go:213-247 | replaces each key match as its captured value says |
| Sanitize.Sanitizer.Sanitize | internal/utils/sanitize.go:187-208 | PEM pass, then each line by values and keys, with both early returns |
| Sanitize.LineHomomorphism | internal/utils/sanitize.go:187-208 | sanitizing distributes over every line break at which the PEM pass does if and only if the empty line stays empty |
| Sanitize.LinesMaskedApart | internal/utils/sanitize.go:187-208 | so wherever no block is open at the break and closed after it |
| Sanitize.EmptyLineStaysEmpty | internal/utils/sanitize.go:188-196 | it does when no pattern matches the empty string |
| Sanitize.OutputLineByLine | internal/utils/sanitize.go:201-207 | output line i is the masked form of line i of the PEM-masked text, and depends on no other |
| Sanitize.MaskingAddsNoBreak | internal/utils/sanitize.go:213-285 | masking a line never breaks it, for every mask without a line break |
| Sanitize.ValuePatternKeepsGaps | internal/utils/sanitize.go:252-270 | one value pattern keeps the text between its matches in order |
| Sanitize.CardsMaskedExactlyIfValid | internal/utils/sanitize.go:256-262 | the line is its text outside the candidates that pass the checksum, in order, with the mask in place of each of those; the others are left as they are |
| Sanitize.UserinfoHidden | internal/utils/sanitize.go:274-285 | two URLs that differ in their credentials only are masked alike: scheme and host stay, the mask stands between |
| Sanitize.PlainMatchHidden | internal/utils/sanitize.go:256-268 | a match of any other pattern is wholly replaced; a URL whose parts are not found stays |
| Sanitize.OneMorePattern | internal/utils/sanitize.go:252-270 | patterns work one after the other, each on what those before it have left |
| Sanitize.QuotesKept | internal/utils/sanitize.go:229-245 | a value in double quotes keeps them, in logfmt one in single quotes too, any other is wholly replaced |
| Sanitize.KeyMatchChoice | internal/utils/sanitize.go:217-246 | nothing captured, nothing changed; a logfmt value goes before a JSON value |
| Sanitize.KeyMatchKept | internal/utils/sanitize.go:229-245 | key, separator and quotes survive when the captured value is its first occurrence in the match, and only then for a mask foreign to the match |
| Sanitize.ShortValueEscapes | internal/utils/sanitize.go:235 | token=t becomes ***oken=t |
| Sanitize.OrderOfPassesMatters | internal/utils/sanitize.go:199-206 | there are settings and a line for which masking keys first gives another result |
| Settings.ParseScopes | internal/config/config.go:83-97 | the loop returns the fields without repetitions |
| Settings.ScopesAreClean | internal/config/config.go:83-97 | scopes hold no separators, do not repeat, and are exactly the fields of the input |
| Settings.DedupKeeps | internal/config/config.go:86-94 | dropping repetitions keeps every token, in the order of first occurrence |
| Settings.FieldsOfJoin | cmd/mimiops-mcp/server_oauth_proxy.go:586 | tokens joined by spaces split into themselves |
| Settings.FieldsApart | internal/config/config.go:84 | white space always separates fields |
| Settings.ScopesRoundTrip | cmd/mimiops-mcp/server_oauth_proxy.go:179 | the joined scopes that the proxy stores split, and parse, into the configured list |
| Settings.ParseEmailDomains | internal/config/config.go:102-120 | empty input gives no domains; otherwise the loop gives the domains, or an error if there are none |
| Settings.DomainsAreClean | internal/config/config.go:107-112 | the domains are exactly the trimmed entries in lower case that are not empty |
| Settings.NoDomainsExactly | internal/config/config.go:103-118 | the error is returned if and only if the value is not blank and every entry of it is empty |
| Settings.DomainsRoundTrip | internal/config/config.go:102-120 | domains hold no commas and no white space at the ends, and joined with commas they read as themselves, all and in order |
| Settings.DecimalReads | internal/tools/usage.go:163 | a printed number reads back as itself and has no leading zero |
| Settings.WindowsAreNumbersWithUnits | internal/config/config.go:78 | a window is exactly a positive number, printed, and one of s, m, h, d |
| Settings.WindowsMean | internal/config/config.go:63-64 | the units stand for 1, 60, 3600 and 86400 seconds |
| Settings.WindowAccepted | internal/config/config.go:65-76 | a value is accepted, without the white space around it, if and only if the rest is empty or a window |
| Settings.TrimSpaceCuts | internal/config/config.go:66 | trimming takes the white space off the ends, all of it, and nothing else |
| Usage.WindowRoundTrip | internal/tools/usage.go:160-169 | a whole positive number of seconds in range prints as a window that the parser accepts unchanged, that means the same duration, and that uses the largest of h, m, s dividing it |
| Usage.WindowMeansSecondsExactlyInRange | internal/tools/usage.go:149-150 | the printed window means the reported seconds if and only if the multiplication does not overflow |
| Usage.SumContainerUsage | internal/tools/usage.go:184-211 | the totals are the rounded exact sums, and each container is listed with its own rounded values when asked |
| Usage.DisplayedIsCeiling | internal/tools/usage.go:171-180 | what is shown is the least whole number of millicores or bytes that is not less |
| Usage.RoundingBound | internal/tools/usage.go:171-180 | quantities rounded up one by one exceed their rounded sum by 0 to n-1 units |
| Usage.ListedValuesAddUp | internal/tools/usage.go:184-211 | the values listed for the containers exceed the total shown with them by 0 to n-1 units, n being the containers that report the resource |
| Usage.FlattenPods | internal/tools/usage.go:235-238 | the containers of all pods in order |
| Usage.FlattenInOrder | internal/tools/usage.go:235-238 | pod after pod, and within a pod container after container |
| Usage.FlatteningKeepsTotals | internal/tools/usage.go:235-240 | summing the flattened containers is summing the exact totals of the pods |
| Markdown.SplitRow | pkg/formatter/formatter.go:176-190 | a row of bar-free cells splits at the bars into exactly its padded cells |
| Markdown.RowShowsWidth | pkg/formatter/formatter.go:176-190 | so it shows its number of cells |
| Markdown.RowInjective | pkg/formatter/formatter.go:190 | bar-free rows with equal text have equal cells |
| Markdown.RowReads | pkg/formatter/formatter.go:176-190 | a row reads cell after cell, each with one space around it between bars, whatever is in the cells |
| Markdown.FormatMap | pkg/formatter/formatter.go:366-390 | the two loops list the sorted keys with the last cell stored for each |
| Markdown.LastCellIsLast | pkg/formatter/formatter.go:371-386 | the cell under a key is that of the last entry printed under it |
| Markdown.OrderIrrelevant | pkg/formatter/formatter.go:366-390 | two iteration orders of the same entries give the same text when equal keys have equal cells |
| Markdown.OrderIrrelevantExactlyWhenConsistent | pkg/formatter/formatter.go:379-386 | all iteration orders agree if and only if entries printed under one key print alike |
| Markdown.EveryPairListed | pkg/formatter/formatter.go:382-389 | with distinct keys each entry is listed once, in ascending order, with its own cell |
| FormatterModel.CollectItems | pkg/formatter/formatter.go:80-118 | the recursive loop returns the flat and the block items |
| FormatterModel.CollectIsStablePartition | pkg/formatter/formatter.go:80-118 | these are the stable partition of the printable fields of the fully inlined field list |
| FormatterModel.InlinedHasNoEmbedded | pkg/formatter/formatter.go:92-100 | inlining leaves no embedded struct without a label |
| FormatterModel.PromotionInvisible | pkg/formatter/formatter.go:94-100 | replacing one embedded struct by its fields changes no item |
| FormatterModel.NilContributesNothing | pkg/formatter/formatter.go:102-104 | a field that holds nil contributes nothing |
| FormatterModel.PrintedExactly | pkg/formatter/formatter.go:83-108 | a field is left out if and only if it is unexported, unlabelled or nil, an empty slice or map, or zero with omitempty in its JSON tag |
| FormatterModel.BlocksExactly | pkg/formatter/formatter.go:122-137 | blocks are structs, and slices or arrays of structs behind any number of pointers |
| FormatterTable.CollectColumns | pkg/formatter/formatter.go:235-276 | the recursive loop returns the columns of a type |
| FormatterTable.ColumnsExactly | pkg/formatter/formatter.go:235-276 | the columns are exactly the paths through exported embedded structs, by pointer or not, to an exported field with a heading, its label or JSON name |
| FormatterTable.ColumnsInOrder | pkg/formatter/formatter.go:235-276 | they stand in declaration order, each once |
| FormatterTable.TableColumnsExactly | pkg/formatter/formatter.go:227-233 | a table shows the labelled fields if there are any, all named ones otherwise |
| FormatterTable.TitleMeans | pkg/formatter/formatter.go:259-290 | a heading is the label, or the part of the JSON tag before its comma, or the field's own name |
| FormatterTable.LookupSteps | pkg/formatter/formatter.go:201-215 | a lookup goes one step of the path at a time and stops at nil |
| FormatterTable.Traverse | pkg/formatter/formatter.go:201-215 | the loop finds the field at the end of a path, nothing behind nil, and panics where reflect would |
| FormatterTable.ColumnsResolve | pkg/formatter/formatter.go:201-215 | every column path of a type resolves without panic in every value of the type, nil embedded pointers included, to the field the column is named after |
| FormatterTable.TableNeverPanics | pkg/formatter/formatter.go:179-188 | no cell of a table over well-typed rows makes reflect panic |
| Formatter.Builder.constructor | pkg/formatter/formatter.go:45 | starts empty |
| Formatter.Builder.WriteLine | pkg/formatter/formatter.go:439-442 | appends a line |
| Formatter.Builder.WriteField | pkg/formatter/formatter.go:446-448 | appends a labelled value without trailing spaces |
| Formatter.Builder.WriteHeading | pkg/formatter/formatter.go:428-437 | appends a heading after a blank line |
| Formatter.Builder.RenderRows | pkg/formatter/formatter.go:179-191 | appends one line per element that is a struct |
| Formatter.Builder.RenderCells | pkg/formatter/formatter.go:185-188 | one cell per column |
| Formatter.Builder.RenderTable | pkg/formatter/formatter.go:153-195 | appends heading, titles, separator and rows, or nothing without columns |
| Formatter.Builder.RenderStruct | pkg/formatter/formatter.go:56-66 | appends the flat fields and then the blocks |
| Formatter.Builder.RenderFlat | pkg/formatter/formatter.go:59-61 | appends one line per flat item |
| Formatter.Builder.RenderBlock | pkg/formatter/formatter.go:141-150 | appends a nested struct one level deeper under its heading, or a table |
| Formatter.Builder.RenderNested | pkg/formatter/formatter.go:142-147 | appends the heading and then the struct one level deeper |
| Formatter.Builder.RenderBlocks | pkg/formatter/formatter.go:63-65 | appends the blocks in order |
| Formatter.Format | pkg/formatter/formatter.go:39-50 | the rendered text without trailing newlines, empty for anything but a struct |
| FormatterText.FlatLinesOfText | pkg/formatter/formatter.go:59-61 | the text begins with the flat items in order, each line a label, a colon and, if there is any, a space and the item's text without trailing spaces |
| FormatterText.FlatLineReads | pkg/formatter/formatter.go:446-448 | what such a line reads, for every label and text |
| FormatterText.TextLines | pkg/formatter/formatter.go:39-50 | blank lines apart, the text has exactly the lines that are written, in order |
| FormatterText.TextEnds | pkg/formatter/formatter.go:40-49 | the text is what was written without the line breaks at its end; anything but a struct has none |
| FormatterText.HeadingReads | pkg/formatter/formatter.go:433-435 | three marks at the top level and one more for each level |
| FormatterCells.StructReads | pkg/formatter/formatter.go:333-359 | a struct on one line is its own printable fields, label, colon and text, with semicolons between |
| FormatterCells.SliceReads | pkg/formatter/formatter.go:321-330 | a slice on one line is its elements in order, nil ones passed over, with commas between |
| FormatterCells.MapReads | pkg/formatter/formatter.go:370-387 | the pairs of a map are its entries, <nil> for a nil key and nothing for a nil value |
| FormatterCells.CellReads | pkg/formatter/formatter.go:185-188 | a cell shows the field that its column's path finds, nothing behind nil |
| FormatterCells.RowsInOrder | pkg/formatter/formatter.go:179-191 | the rows stand in the order of the elements, and what is no struct has none |
| FormatterRewriting.EmbeddingInvisible | pkg/formatter/formatter.go:92-104 | replacing an unlabelled embedded struct by its fields, or dropping a nil field, changes neither what is written for the struct at any depth nor the text |
| FormatterRewriting.InliningKeepsText | pkg/formatter/formatter.go:80-118 | so does writing out all embedded structs of a struct, however deep |
| FormatterNesting.NestedRewriting | pkg/formatter/formatter.go:141-150 | replacing a struct nested at any depth by one that is written alike keeps the whole text if and only if omitempty judges the two alike on the way up, as far as it is printed |
| FormatterNesting.NestedEmbedding | pkg/formatter/formatter.go:92-108 | so for an embedded struct written out in place at any depth |
| FormatterNesting.ZeroKeptExactly | pkg/formatter/formatter.go:299-303 | writing an embedded struct out changes whether a struct is zero if and only if it is embedded by pointer and everything is zero |
| FormatterNesting.JudgedAlikeWithoutPointer | pkg/formatter/formatter.go:288-304 | unless that is so, nothing changes at any depth |
| FormatterNesting.OmittedOnceWrittenOut | pkg/formatter/formatter.go:106-108 | a struct on which the text does change: shown because of a non-nil pointer to a zero struct, omitted once the zero field stands in its place |
| FormatterRewriting.InlineKeptExactlyIfNothingPrinted | pkg/formatter/formatter.go:333-359 | on one line, writing an embedded struct out keeps the text if and only if none of its fields is printed |
| FormatterRewriting.InlineIgnoresEmbedded | pkg/formatter/formatter.go:333-359 | the least struct on which it changes the text |
| FormatterHeadings.HeadingsFollowNesting | pkg/formatter/formatter.go:425-437 | the headings written are the blocks in preorder, each with three marks more than its nesting depth |
| FormatterText.HeadingWritten | pkg/formatter/formatter.go:428-437 | a heading is written as its own line after a blank line and before one |
| FormatterHeadings.TextHeadings | pkg/formatter/formatter.go:39-66 | the lines of the final text that start like a heading are exactly these, in order, provided that no label or value holds a line break and no other line starts like a heading |
| Formatter.TableWellFormed | pkg/formatter/formatter.go:164-194 | every line of a table has exactly as many cells as the header |

## Left out

- HTTP plumbing, CORS, JSON bodies, status pages and method checks: a handler is a typed request to a typed response.
- `newOAuthProxy` beyond its initial state: validation of the configuration is one check after the other.
- `exchangeCode`, token verification, SHA-256, base64 and random numbers: oracles, an unconstrained function and a freshness assumption.
- `redirectWithParams` and `net/url`: a client redirect is a URI and the parameters added to it.
- OAuthProtocol.Enabled: a run in which two random tokens are equal is not modelled.
- Building the combined key expression (`rebuildKeyRegex`, `AddSensitiveKeys`, `AddKeyPatterns`), and the expressions themselves other than the PEM one: patterns are abstract matchers, and the capture of a key match is an abstract function of the match.
- `maskURLCredential`'s capture of scheme and host is a function of the match, for the same reason.
- Pem.NoBlockSurvives: needs a mask without the characters of the marker lines; a mask such as `-` could complete a marker. Expansion of `$` in a mask is not modelled.
- FormatterHeadings.TextHeadings: a value with a line break in it may hold a line that looks like a heading; such values are outside its condition.
- Sanitize.Sanitizer.constructor: the default expressions are given as compiled.
- What `fmt.Sprint` prints for a map key that is not a scalar is given with the key.
- Reflection: types and values are finite trees; recursive embedded types, for which `collectColumns` would not return, are out.
- Markdown.RowInjective: needs cells without `|`, which the formatter does not escape.
- Usage.SumContainerUsage: the numbers shown, not their text: quantities are reals rounded up, and the int64 overflow of a quantity, the rounding away from zero of a negative one and the suffixes of the BinarySI format are not modelled.
- `fetchCustomQuantities` and the metrics calls: requests over libraries outside the repository.
- Clusters.MultiClusterClient.GetCluster: calls are ordered by the lock; what clientcmd and the clientset constructor do is an arbitrary answer per call.
- Kubernetes, Helm, Flux and Karpenter tool handlers, CLI flags, logging, tool registration, age formatting and percentages: API calls, field copying and single branches.
