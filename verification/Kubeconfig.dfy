/** A kubeconfig, the map from cluster to the context that represents it, and
    the cluster listing. */
module Kubeconfig {
  import opened Common
  import opened Text

  datatype KubeContext = KubeContext(cluster: string, namespace: string)

  /** A nil pointer in the source's maps is None here. */
  datatype Raw = Raw(
    servers: map<string, Option<string>>,
    contexts: map<string, Option<KubeContext>>,
    current: string)

  datatype Entry = Entry(name: string, server: string, contexts: seq<string>, count: nat, isCurrent: bool)

  /** The cluster a context names, if it names one. */
  function Names(raw: Raw, ctx: string): Option<string> {
    if ctx in raw.contexts && raw.contexts[ctx].Some? && raw.contexts[ctx].value.cluster != ""
    then Some(raw.contexts[ctx].value.cluster) else None
  }

  function ContextsOf(raw: Raw, cluster: string): set<string> {
    set ctx | ctx in raw.contexts && Names(raw, ctx) == Some(cluster)
  }

  /** The cluster of the current context, or the empty name. */
  function ActiveCluster(raw: Raw): string {
    if raw.current in raw.contexts && raw.contexts[raw.current].Some? then raw.contexts[raw.current].value.cluster
    else ""
  }

  /** Context a is preferred to b. */
  predicate Better(raw: Raw, cluster: string, a: string, b: string) {
    if cluster == ActiveCluster(raw) then Le(b, a) else Le(a, b)
  }

  /** The context that stands for a cluster: the least by name, but the
      greatest for the active cluster. */
  predicate Represents(raw: Raw, cluster: string, ctx: string) {
    && ctx in ContextsOf(raw, cluster)
    && forall other | other in ContextsOf(raw, cluster) :: Better(raw, cluster, ctx, other)
  }

  ghost predicate IsRepresentation(raw: Raw, m: map<string, string>) {
    && (forall cluster | cluster in m :: Represents(raw, cluster, m[cluster]))
    && (forall cluster :: cluster in m <==> ContextsOf(raw, cluster) != {})
  }

  /** The description leaves no choice. */
  lemma RepresentationUnique(raw: Raw, a: map<string, string>, b: map<string, string>)
    requires IsRepresentation(raw, a) && IsRepresentation(raw, b)
    ensures a == b
  {
    forall c | c in a ensures c in b && a[c] == b[c] {
      assert ContextsOf(raw, c) != {};
      LeAntisymmetric(a[c], b[c]);
    }
    forall c | c in b ensures c in a {
      assert ContextsOf(raw, c) != {};
    }
  }

  // ---- Collecting and sorting keys ----

  /** The keys in ascending order, each once. */
  ghost predicate Ascending(s: seq<string>, keys: set<string>) {
    Sorted(s) && Distinct(s) && forall k :: k in s <==> k in keys
  }

  lemma DistinctAppend(s: seq<string>, x: string)
    requires Distinct(s) && x !in s
    ensures Distinct(s + [x])
  {
    assert forall i | 0 <= i < |s| :: s[i] in s;
  }

  lemma CountOnce(s: seq<string>)
    ensures Distinct(s) <==> forall x :: multiset(s)[x] <= 1
  {
    if Distinct(s) {
      forall x ensures multiset(s)[x] <= 1 { DistinctCount(s, x); }
    } else {
      var i, j :| 0 <= i < j < |s| && s[i] == s[j];
      assert s == s[..j] + [s[j]] + s[j + 1..];
      assert s[..j] == s[..i] + [s[i]] + s[i + 1..j];
      assert multiset(s) ==
             multiset(s[..i]) + multiset{s[i]} + multiset(s[i + 1..j]) + multiset{s[j]} + multiset(s[j + 1..]);
      assert multiset(s)[s[i]] >= 2;
    }
  }

  lemma {:induction false} DistinctCount(s: seq<string>, x: string)
    requires Distinct(s)
    ensures multiset(s)[x] <= 1
  {
    if s != [] {
      assert s == [s[0]] + s[1..];
      DistinctCount(s[1..], x);
      if x == s[0] {
        assert x !in s[1..];
        assert multiset(s[1..])[x] == 0;
      }
    }
  }

  lemma SortKeepsAscending(s: seq<string>, keys: set<string>)
    requires Distinct(s) && forall k :: k in s <==> k in keys
    ensures Ascending(Sort(s), keys)
  {
    SortSorts(s);
    CountOnce(s);
    CountOnce(Sort(s));
    forall k ensures k in Sort(s) <==> k in keys {
      assert k in Sort(s) <==> k in multiset(Sort(s));
      assert k in s <==> k in multiset(s);
    }
  }

  /** The loop that gathers the keys of a map, in whatever order Go gives
      them, followed by sort.Strings. */
  method SortedKeys<V>(m: map<string, V>) returns (names: seq<string>)
    ensures Ascending(names, m.Keys)
  {
    names := [];
    var todo := m.Keys;
    while todo != {}
      invariant todo <= m.Keys
      invariant Distinct(names) && forall k :: k in names <==> k in m.Keys - todo
      decreases todo
    {
      var k :| k in todo;
      assert k !in names;
      DistinctAppend(names, k);
      names := names + [k];
      todo := todo - {k};
    }
    SortKeepsAscending(names, m.Keys);
    names := Sort(names);
  }

  // ---- The representative of each cluster ----

  function Lookup(m: map<string, string>, c: string): Option<string> { if c in m then Some(m[c]) else None }

  /** What the loop has found for one cluster after the contexts in done. */
  ghost predicate BestSoFar(raw: Raw, best: Option<string>, done: seq<string>, c: string) {
    && (best.Some? ==> best.value in done && Names(raw, best.value) == Some(c))
    && (forall ctx | ctx in done && Names(raw, ctx) == Some(c) :: best.Some? && Better(raw, c, best.value, ctx))
  }

  lemma OneMoreContext(raw: Raw, was: Option<string>, done: seq<string>, x: string, c: string)
    requires BestSoFar(raw, was, done, c)
    requires Le(x, x) && forall ctx | ctx in done :: Le(ctx, x)
    ensures BestSoFar(raw, if Names(raw, x) == Some(c) && (was.None? || c == ActiveCluster(raw)) then Some(x) else was,
                      done + [x], c)
  {
  }

  lemma EarlierIsLess(names: seq<string>, i: nat)
    requires i < |names| && Sorted(names)
    ensures forall ctx | ctx in names[..i] :: Le(ctx, names[i])
    ensures Le(names[i], names[i])
  {
    LeReflexive(names[i]);
    assert forall k | 0 <= k < i :: names[..i][k] == names[k];
  }

  method RepresentativeContexts(raw: Raw) returns (contexts: map<string, string>)
    ensures IsRepresentation(raw, contexts)
  {
    var contextNames := SortedKeys(raw.contexts);
    var activeCluster := "";
    if raw.current in raw.contexts && raw.contexts[raw.current].Some? {
      activeCluster := raw.contexts[raw.current].value.cluster;
    }
    contexts := map[];
    for i := 0 to |contextNames|
      invariant forall c :: BestSoFar(raw, Lookup(contexts, c), contextNames[..i], c)
    {
      var ctxName := contextNames[i];
      ghost var was := contexts;
      assert contextNames[..i + 1] == contextNames[..i] + [ctxName];
      assert ctxName in raw.contexts;
      var kubeCtx := raw.contexts[ctxName];
      if kubeCtx.Some? && kubeCtx.value.cluster != "" {
        if kubeCtx.value.cluster !in contexts || kubeCtx.value.cluster == activeCluster {
          contexts := contexts[kubeCtx.value.cluster := ctxName];
        }
      }
      EarlierIsLess(contextNames, i);
      forall c ensures BestSoFar(raw, Lookup(contexts, c), contextNames[..i + 1], c) {
        OneMoreContext(raw, Lookup(was, c), contextNames[..i], ctxName, c);
      }
    }
    assert contextNames[..|contextNames|] == contextNames;
    AllContextsSeen(raw, contexts, contextNames);
  }

  lemma AllContextsSeen(raw: Raw, m: map<string, string>, names: seq<string>)
    requires Ascending(names, raw.contexts.Keys)
    requires forall c :: BestSoFar(raw, Lookup(m, c), names, c)
    ensures IsRepresentation(raw, m)
  {
    forall c ensures c in m <==> ContextsOf(raw, c) != {} {
      assert BestSoFar(raw, Lookup(m, c), names, c);
      if c in m {
        assert m[c] in ContextsOf(raw, c);
      }
      if ctx :| ctx in ContextsOf(raw, c) {
        assert ctx in names && Names(raw, ctx) == Some(c);
      }
    }
    forall c | c in m ensures Represents(raw, c, m[c]) {
      assert BestSoFar(raw, Lookup(m, c), names, c);
      forall other | other in ContextsOf(raw, c) ensures Better(raw, c, m[c], other) {
        assert other in names && Names(raw, other) == Some(c);
      }
    }
  }

  /** The default client is built from the current context exactly when no
      other context of its cluster has a greater name: the representative of
      the active cluster is the last one, not the current one. */
  lemma DefaultUsesCurrentContext(raw: Raw, m: map<string, string>)
    requires IsRepresentation(raw, m) && ActiveCluster(raw) != ""
    ensures ActiveCluster(raw) in m
    ensures m[ActiveCluster(raw)] == raw.current
            <==> forall ctx | ctx in ContextsOf(raw, ActiveCluster(raw)) :: Le(ctx, raw.current)
  {
    var c := ActiveCluster(raw);
    assert raw.current in ContextsOf(raw, c);
    assert Represents(raw, c, m[c]);
    if forall ctx | ctx in ContextsOf(raw, c) :: Le(ctx, raw.current) {
      LeAntisymmetric(m[c], raw.current);
    }
  }

  // ---- Listing ----

  ghost predicate IsEntry(raw: Raw, e: Entry) {
    && e.name in raw.servers
    && e.server == (if raw.servers[e.name].Some? then raw.servers[e.name].value else "")
    && Ascending(e.contexts, ContextsOf(raw, e.name))
    && e.count == |e.contexts|
    && (e.isCurrent <==> raw.current in e.contexts)
  }

  ghost predicate IsListing(raw: Raw, es: seq<Entry>) {
    && (forall i | 0 <= i < |es| :: IsEntry(raw, es[i]))
    && (forall i, j | 0 <= i < j < |es| :: Le(es[i].name, es[j].name) && es[i].name != es[j].name)
    && (forall c :: c in raw.servers <==> exists i | 0 <= i < |es| :: es[i].name == c)
  }

  function Group(groups: map<string, seq<string>>, cluster: string): seq<string> {
    if cluster in groups then groups[cluster] else []
  }

  ghost predicate GroupedSoFar(raw: Raw, groups: map<string, seq<string>>, todo: set<string>) {
    && (forall c :: Distinct(Group(groups, c)))
    && (forall c, ctx :: ctx in Group(groups, c) <==> ctx in ContextsOf(raw, c) && ctx !in todo)
  }

  /** The first loop of ListClusters: the contexts of each cluster, in map
      order. */
  method GroupContexts(raw: Raw) returns (groups: map<string, seq<string>>)
    ensures GroupedSoFar(raw, groups, {})
  {
    groups := map[];
    var todo := raw.contexts.Keys;
    while todo != {}
      invariant todo <= raw.contexts.Keys
      invariant GroupedSoFar(raw, groups, todo)
      decreases todo
    {
      var ctxName :| ctxName in todo;
      ghost var was := groups;
      var kubeCtx := raw.contexts[ctxName];
      if kubeCtx.Some? && kubeCtx.value.cluster != "" {
        var cluster := kubeCtx.value.cluster;
        groups := groups[cluster := Group(groups, cluster) + [ctxName]];
      }
      OneMoreGrouped(raw, was, groups, todo, ctxName);
      todo := todo - {ctxName};
    }
  }

  lemma AllGrouped(raw: Raw, groups: map<string, seq<string>>, c: string)
    requires GroupedSoFar(raw, groups, {})
    ensures Distinct(Group(groups, c)) && forall ctx :: ctx in Group(groups, c) <==> ctx in ContextsOf(raw, c)
  {
    var none: set<string> := {};
    forall ctx ensures ctx in Group(groups, c) <==> ctx in ContextsOf(raw, c) {
      assert GroupedSoFar(raw, groups, none);
      assert ctx !in none;
    }
  }

  lemma OneMoreGrouped(
    raw: Raw, was: map<string, seq<string>>, now: map<string, seq<string>>, todo: set<string>, x: string)
    requires GroupedSoFar(raw, was, todo) && x in todo && x in raw.contexts
    requires var c := Names(raw, x); now == if c.Some? then was[c.value := Group(was, c.value) + [x]] else was
    ensures GroupedSoFar(raw, now, todo - {x})
  {
    forall c ensures Distinct(Group(now, c)) {
      assert Distinct(Group(was, c));
      if Names(raw, x) == Some(c) { DistinctAppend(Group(was, c), x); }
    }
    forall c, ctx ensures ctx in Group(now, c) <==> ctx in ContextsOf(raw, c) && ctx !in todo - {x} {
      assert ctx in Group(was, c) <==> ctx in ContextsOf(raw, c) && ctx !in todo;
      assert Group(now, c) == Group(was, c) + if Names(raw, x) == Some(c) then [x] else [];
    }
  }

  method ListClusters(raw: Raw) returns (entries: seq<Entry>)
    ensures IsListing(raw, entries)
  {
    var groups := GroupContexts(raw);
    var clusterNames := SortedKeys(raw.servers);
    entries := [];
    for i := 0 to |clusterNames|
      invariant |entries| == i
      invariant forall j | 0 <= j < i :: entries[j].name == clusterNames[j] && IsEntry(raw, entries[j])
    {
      var name := clusterNames[i];
      assert name in raw.servers;
      var contexts := Group(groups, name);
      AllGrouped(raw, groups, name);
      SortKeepsAscending(contexts, ContextsOf(raw, name));
      contexts := Sort(contexts);
      var server := "";
      if raw.servers[name].Some? {
        server := raw.servers[name].value;
      }
      entries := entries + [Entry(name, server, contexts, |contexts|, raw.current in contexts)];
    }
    forall c ensures c in raw.servers <==> exists i | 0 <= i < |entries| :: entries[i].name == c {
      if c in raw.servers {
        assert c in clusterNames;
        var i :| 0 <= i < |clusterNames| && clusterNames[i] == c;
        assert entries[i].name == c;
      }
    }
  }

  /** At most one entry is current, and it is the active cluster's. */
  lemma AtMostOneCurrent(raw: Raw, es: seq<Entry>, i: nat, j: nat)
    requires IsListing(raw, es) && i < |es| && j < |es| && es[i].isCurrent && es[j].isCurrent
    ensures i == j && es[i].name == ActiveCluster(raw)
  {
    assert IsEntry(raw, es[i]) && IsEntry(raw, es[j]);
    assert raw.current in ContextsOf(raw, es[i].name) && raw.current in ContextsOf(raw, es[j].name);
    assert es[i].name == es[j].name;
  }

  lemma AscendingSize(s: seq<string>, keys: set<string>)
    requires Distinct(s) && forall k :: k in s <==> k in keys
    ensures |s| == |keys|
  {
    if s == [] {
      assert forall k :: k !in keys;
      assert keys == {};
    } else {
      var n := |s| - 1;
      assert s == s[..n] + [s[n]];
      forall k ensures k in s[..n] <==> k in keys - {s[n]} {
        if k in s[..n] { assert k in s; }
        if k in keys - {s[n]} {
          assert k in s;
        }
      }
      AscendingSize(s[..n], keys - {s[n]});
    }
  }

  /** A listed cluster can be resolved exactly when its count is positive. */
  lemma ListedAndResolvable(raw: Raw, es: seq<Entry>, m: map<string, string>, i: nat)
    requires IsListing(raw, es) && IsRepresentation(raw, m) && i < |es|
    ensures es[i].name in m <==> es[i].count > 0
    ensures es[i].count == |ContextsOf(raw, es[i].name)|
  {
    EntryCount(raw, es[i]);
    assert es[i].name in m <==> ContextsOf(raw, es[i].name) != {};
  }

  function TotalCount(es: seq<Entry>): nat {
    if es == [] then 0 else TotalCount(es[..|es| - 1]) + es[|es| - 1].count
  }

  function Clusters(es: seq<Entry>): (r: seq<string>)
    ensures |r| == |es| && forall i | 0 <= i < |es| :: r[i] == es[i].name
  {
    if es == [] then [] else Clusters(es[..|es| - 1]) + [es[|es| - 1].name]
  }

  /** The contexts that name one of the clusters. */
  function Covered(raw: Raw, clusters: seq<string>): set<string> {
    if clusters == [] then {}
    else Covered(raw, clusters[..|clusters| - 1]) + ContextsOf(raw, clusters[|clusters| - 1])
  }

  lemma {:induction false} CoveredMember(raw: Raw, clusters: seq<string>, ctx: string)
    ensures ctx in Covered(raw, clusters) <==> Names(raw, ctx).Some? && Names(raw, ctx).value in clusters
  {
    if clusters != [] {
      var n := |clusters| - 1;
      assert clusters == clusters[..n] + [clusters[n]];
      CoveredMember(raw, clusters[..n], ctx);
    }
  }

  lemma EntryCount(raw: Raw, e: Entry)
    requires IsEntry(raw, e)
    ensures e.count == |ContextsOf(raw, e.name)|
  {
    AscendingSize(e.contexts, ContextsOf(raw, e.name));
  }

  lemma {:induction false} CountsCover(raw: Raw, es: seq<Entry>)
    requires Distinct(Clusters(es))
    requires forall i | 0 <= i < |es| :: es[i].count == |ContextsOf(raw, es[i].name)|
    ensures TotalCount(es) == |Covered(raw, Clusters(es))|
  {
    if es != [] {
      var n := |es| - 1;
      var front, last := Clusters(es[..n]), es[n].name;
      assert Clusters(es) == front + [last];
      assert Clusters(es)[..n] == front && Clusters(es)[n] == last;
      CountsCover(raw, es[..n]);
      forall ctx | ctx in Covered(raw, front) ensures ctx !in ContextsOf(raw, last) {
        CoveredMember(raw, front, ctx);
      }
      assert Covered(raw, front) !! ContextsOf(raw, last);
    }
  }

  lemma ListedOnce(raw: Raw, es: seq<Entry>)
    requires IsListing(raw, es)
    ensures Distinct(Clusters(es))
  {
  }

  lemma ListedAll(raw: Raw, es: seq<Entry>, c: string)
    requires IsListing(raw, es)
    ensures c in raw.servers <==> c in Clusters(es)
  {
    if c in raw.servers {
      var i :| 0 <= i < |es| && es[i].name == c;
      assert Clusters(es)[i] == c;
    }
  }

  function KnownContexts(raw: Raw): set<string> {
    set ctx | ctx in raw.contexts && Names(raw, ctx).Some? && Names(raw, ctx).value in raw.servers
  }

  lemma CoversKnown(raw: Raw, clusters: seq<string>)
    requires forall c :: c in raw.servers <==> c in clusters
    ensures Covered(raw, clusters) == KnownContexts(raw)
  {
    forall ctx ensures ctx in Covered(raw, clusters) <==> ctx in KnownContexts(raw) {
      CoveredMember(raw, clusters, ctx);
    }
  }

  /** The counts add up to the contexts that name a known cluster. */
  lemma CountsAddUp(raw: Raw, es: seq<Entry>)
    requires IsListing(raw, es)
    ensures TotalCount(es) == |KnownContexts(raw)|
  {
    ListedOnce(raw, es);
    forall i | 0 <= i < |es| ensures es[i].count == |ContextsOf(raw, es[i].name)| { EntryCount(raw, es[i]); }
    forall c ensures c in raw.servers <==> c in Clusters(es) { ListedAll(raw, es, c); }
    CountsCover(raw, es);
    CoversKnown(raw, Clusters(es));
  }
}
