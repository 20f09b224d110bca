/** What a rescan reports when the cache answers truthfully about one moment of the live cluster. */
module RescanTruth {
  import opened Kubernetes
  import opened DesiredResources
  import opened MonitoredResources
  import opened Instances
  import opened InstanceProperties
  import opened Rescans
  import opened Pipelines
  import opened ChildTracking

  /** Which object a manifest is of. */
  type Naming = Manifest -> ResourceKey

  /** The live objects that manifests are asked for. */
  function LiveAmong(targets: seq<Manifest>, keyOf: Naming, live: World): set<ResourceKey> {
    set t | t in targets && keyOf(t) in live :: keyOf(t)
  }

  /** The traversal meets what is live, and exactly what is among the keys or has a chain of owners up to them. */
  ghost predicate Walks(discovered: seq<Discovered>, keys: set<ResourceKey>, live: World) {
    && (forall i :: 0 <= i < |discovered| ==>
          Lookup(live, discovered[i].resource.info.key) == Some(discovered[i].resource))
    && (forall k :: Reached(discovered, k) <==> HasChain(keys, live, k))
  }

  ghost predicate TellsTruth(cache: ClusterCache, keyOf: Naming, live: World) {
    && (forall k :: LiveAt(live, k))
    && (forall targets :: cache.managedLiveObjs(targets) == Some(LiveAmong(targets, keyOf, live)))
    && (forall keys :: Walks(cache.hierarchy(keys), keys, live))
  }

  /** The manifest is of the very resource and the cache may be asked for it. */
  predicate Described(desired: DesiredMap, scope: Scope, keyOf: Naming, k: ResourceKey)
    requires k in desired
  {
    var manifest := desired[k].manifest;
    manifest.Some? && keyOf(manifest.value) == k && !scope.Excludes(manifest.value.typeMeta.ToGroupKind())
  }

  lemma TraceIsTrue(desired: DesiredMap, scope: Scope, cache: ClusterCache, discoveryHealthy: bool, trace: Trace,
                    keyOf: Naming, live: World)
    requires IsTrace(desired, scope, cache, discoveryHealthy, trace) && TellsTruth(cache, keyOf, live)
    ensures Walks(trace.discovered, LiveAmong(trace.targets, keyOf, live), live)
  {
    var keys := LiveAmong(trace.targets, keyOf, live);
    assert cache.managedLiveObjs(trace.targets) == Some(keys);
    assert Walks(cache.hierarchy(keys), keys, live);
  }

  /** What is within reach is come across exactly if it is live. */
  lemma ReachedIffLive(desired: DesiredMap, scope: Scope, cache: ClusterCache, discoveryHealthy: bool, trace: Trace,
                       keyOf: Naming, live: World, k: ResourceKey)
    requires IsTrace(desired, scope, cache, discoveryHealthy, trace) && TellsTruth(cache, keyOf, live)
    requires k in desired && Described(desired, scope, keyOf, k) && Searchable(desired[k], scope, cache)
    ensures k in LiveAmong(trace.targets, keyOf, live) <==> k in live
    ensures Reached(trace.discovered, k) <==> k in live
  {
    var t, keys := desired[k].manifest.value, LiveAmong(trace.targets, keyOf, live);
    BatchIsExact(desired, scope, cache, discoveryHealthy, trace, t);
    assert SoughtBy(desired[k], scope, cache, t);
    TraceIsTrue(desired, scope, cache, discoveryHealthy, trace, keyOf, live);
    assert k in live ==> k in keys && Hangs(keys, live, k, 0);
  }

  /** A resource within reach is reported as it is: the live object with its manifest if there is one, and otherwise, if
      its type is readable, as missing. */
  lemma RescanTellsTheTruth(desired: DesiredMap, scope: Scope, cache: ClusterCache, discoveryHealthy: bool,
                            resolver: Resolver, trace: Trace, m: Monitored, keyOf: Naming, live: World, k: ResourceKey)
    requires IsTrace(desired, scope, cache, discoveryHealthy, trace) && TellsTruth(cache, keyOf, live)
    requires Classified(desired, scope, cache, discoveryHealthy, resolver, trace.discovered, m)
    requires k in desired && Described(desired, scope, keyOf, k) && Searchable(desired[k], scope, cache)
    ensures k in live ==>
              var id := desired[k].id;
              && id in m.present && id !in m.missing && id !in m.unknown
              && m.present[id].id == id && m.present[id].ref == live[k].ref
              && m.present[id].manifest == resolver(live[k])
    ensures k !in live && Observable(desired[k], scope, cache) ==>
              desired[k].id in m.missing && desired[k].id !in m.present && desired[k].id !in m.unknown
  {
    ReachedIffLive(desired, scope, cache, discoveryHealthy, trace, keyOf, live, k);
    TraceIsTrue(desired, scope, cache, discoveryHealthy, trace, keyOf, live);
    SoughtIsTarget(desired[k], scope, cache, discoveryHealthy, desired[k].manifest.value);
    WithinReachIsTrue(desired, scope, cache, discoveryHealthy, resolver, trace.discovered, m, live, k);
  }

  lemma WithinReachIsTrue(desired: DesiredMap, scope: Scope, cache: ClusterCache, discoveryHealthy: bool,
                          resolver: Resolver, discovered: seq<Discovered>, m: Monitored, live: World, k: ResourceKey)
    requires k in desired && IsTarget(desired[k], scope, cache, discoveryHealthy)
    requires ClassifiedAt(desired, scope, cache, discoveryHealthy, resolver, discovered, m, k)
    requires forall i :: 0 <= i < |discovered| ==>
               Lookup(live, discovered[i].resource.info.key) == Some(discovered[i].resource)
    requires Reached(discovered, k) <==> k in live
    ensures var id := desired[k].id;
            && (k in live ==>
                  && id in m.present && id !in m.missing && id !in m.unknown && m.present[id].id == id
                  && m.present[id].ref == live[k].ref && m.present[id].manifest == resolver(live[k]))
            && (k !in live && desired[k].typeMeta.ToGroupKind() in cache.readable ==>
                  id in m.missing && id !in m.present && id !in m.unknown)
  {
  }

  /** Every desired resource is described by its manifest, and only known types have live objects. */
  ghost predicate AllDescribed(desired: DesiredMap, scope: Scope, cache: ClusterCache, keyOf: Naming, live: World) {
    forall k :: k in desired ==>
      Described(desired, scope, keyOf, k) && (k in live ==> desired[k].typeMeta.ToGroupKind() in cache.apiResources)
  }

  /** What is asked for and live is what is settled and live. */
  lemma AskedIsSettled(s: Instance, scope: Scope, cache: ClusterCache, discoveryHealthy: bool, resolver: Resolver,
                       trace: Trace, keyOf: Naming, live: World, k: ResourceKey)
    requires IsTrace(s.desired, scope, cache, discoveryHealthy, trace) && TellsTruth(cache, keyOf, live)
    requires IsRescan(s, scope, cache, discoveryHealthy, resolver, trace.discovered)
    requires AllDescribed(s.desired, scope, cache, keyOf, live) && k in live
    ensures k in LiveAmong(trace.targets, keyOf, live) <==> k in SettledKeys(s)
  {
    var m := Monitored(s.present, s.children, s.missing, s.unknown);
    if k in LiveAmong(trace.targets, keyOf, live) {
      AskedIsDesired(s.desired, scope, cache, discoveryHealthy, trace, keyOf, live, k);
    }
    if k in s.desired {
      assert ClassifiedAt(s.desired, scope, cache, discoveryHealthy, resolver, trace.discovered, m, k);
      if Searchable(s.desired[k], scope, cache) {
        ReachedIffLive(s.desired, scope, cache, discoveryHealthy, trace, keyOf, live, k);
        SoughtIsTarget(s.desired[k], scope, cache, discoveryHealthy, s.desired[k].manifest.value);
      } else {
        SoughtIsTarget(s.desired[k], scope, cache, discoveryHealthy, s.desired[k].manifest.value);
      }
    }
  }

  lemma AskedIsDesired(desired: DesiredMap, scope: Scope, cache: ClusterCache, discoveryHealthy: bool, trace: Trace,
                       keyOf: Naming, live: World, k: ResourceKey)
    requires IsTrace(desired, scope, cache, discoveryHealthy, trace) && AllDescribed(desired, scope, cache, keyOf, live)
    requires k in LiveAmong(trace.targets, keyOf, live)
    ensures k in desired && Searchable(desired[k], scope, cache)
  {
    var t :| t in trace.targets && keyOf(t) == k;
    BatchIsExact(desired, scope, cache, discoveryHealthy, trace, t);
    var j :| j in desired && SoughtBy(desired[j], scope, cache, t);
    assert Described(desired, scope, keyOf, j);
  }

  lemma {:induction false} SameRootsSameChains(a: set<ResourceKey>, b: set<ResourceKey>, w: World, k: ResourceKey,
                                               n: nat)
    requires Hangs(a, w, k, n) && forall j :: j in a && j in w ==> j in b
    ensures Hangs(b, w, k, n)
    decreases n
  {
    if k !in a {
      var o :| o in NamedOwners(w[k]) && Hangs(a, w, o, n - 1);
      SameRootsSameChains(a, b, w, o, n - 1);
    }
  }

  /** So over a truthful cache a rescan comes across exactly what hangs from its settled resources. That is what later
      changes are compared with. */
  lemma TruthfulRescanIsComplete(s: Instance, scope: Scope, cache: ClusterCache, discoveryHealthy: bool,
                                 resolver: Resolver, trace: Trace, keyOf: Naming, live: World)
    requires IsTrace(s.desired, scope, cache, discoveryHealthy, trace) && TellsTruth(cache, keyOf, live)
    requires IsRescan(s, scope, cache, discoveryHealthy, resolver, trace.discovered)
    requires AllDescribed(s.desired, scope, cache, keyOf, live)
    ensures Complete(s, trace.discovered, live)
  {
    var asked, settled := LiveAmong(trace.targets, keyOf, live), SettledKeys(s);
    TraceIsTrue(s.desired, scope, cache, discoveryHealthy, trace, keyOf, live);
    forall k | k in live ensures k in asked <==> k in settled {
      AskedIsSettled(s, scope, cache, discoveryHealthy, resolver, trace, keyOf, live, k);
    }
    forall k ensures Reached(trace.discovered, k) <==> HasChain(settled, live, k) {
      if n: nat :| Hangs(asked, live, k, n) {
        SameRootsSameChains(asked, settled, live, k, n);
      }
      if n: nat :| Hangs(settled, live, k, n) {
        SameRootsSameChains(settled, asked, live, k, n);
      }
    }
  }
}
