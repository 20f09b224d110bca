/** Classifying every desired resource against the cluster, and discovering what lives beneath them. */
module Rescans {
  import opened Kubernetes
  import opened DesiredResources
  import opened MonitoredResources
  import opened RootOwners
  import opened Instances
  import opened InstanceProperties

  /** One object met while walking down from the desired resources, with the objects around it. */
  datatype Discovered = Discovered(resource: Resource, namespaceResources: World)

  /** The cluster cache, by the answers it gives. Managed objects are none when the cache reports an error. */
  datatype ClusterCache = ClusterCache(
    apiResources: set<GroupKind>, // every registered type, readable or not
    readable: set<GroupKind>, // the types the service account may list and watch
    managedLiveObjs: seq<Manifest> -> Option<set<ResourceKey>>,
    hierarchy: set<ResourceKey> -> seq<Discovered>)

  /** What the monitor is configured to watch; no target namespaces means all of them. */
  datatype Scope = Scope(
    namespaceScopedMode: bool,
    targetNamespaces: set<string>,
    excluded: Option<GroupKind -> bool>)
  {
    predicate Excludes(gk: GroupKind) {
      excluded.Some? && excluded.value(gk)
    }
  }

  datatype Monitored = Monitored(present: PresentMap, children: ChildMap, missing: MissingMap, unknown: UnknownMap)

  // ---------- classifying one desired resource ----------

  /** The manifest's namespace is what Kubernetes uses; Octopus's is a fallback. */
  function EffectiveNamespace(d: Desired): string {
    if d.manifest.Some? && d.manifest.value.namespace != "" then d.manifest.value.namespace else d.namespace
  }

  /** Why the resource is not looked for at all, if it isn't. A type missing from a full discovery is left to the
      detection of missing resources. */
  function Refusal(d: Desired, scope: Scope, cache: ClusterCache, discoveryHealthy: bool): Option<Reason> {
    var gk := d.typeMeta.ToGroupKind();
    if gk !in cache.apiResources then (if discoveryHealthy then None else Some(Unexplained))
    else if !d.isNamespaceResolved then Some(Unexplained)
    else if scope.namespaceScopedMode && d.isClusterScoped then Some(ClusterScopedInNamespaceMode)
    else if scope.targetNamespaces != {} && !d.isClusterScoped && EffectiveNamespace(d) !in scope.targetNamespaces then
      Some(NamespaceNotMonitored(EffectiveNamespace(d)))
    else if scope.Excludes(gk) then Some(TypeExcluded(gk))
    else None
  }

  /** Registered, but unreadable for want of permissions. */
  predicate Inaccessible(d: Desired, cache: ClusterCache) {
    d.typeMeta.ToGroupKind() in cache.apiResources && d.typeMeta.ToGroupKind() !in cache.readable
  }

  /** Whether the cache is asked for the resource's live object. */
  predicate IsTarget(d: Desired, scope: Scope, cache: ClusterCache, discoveryHealthy: bool) {
    && Refusal(d, scope, cache, discoveryHealthy).None?
    && d.typeMeta.ToGroupKind() in cache.apiResources
    && d.manifest.Some? && !scope.Excludes(d.manifest.value.typeMeta.ToGroupKind())
  }

  // ---------- what a rescan promises ----------

  predicate Reached(discovered: seq<Discovered>, key: ResourceKey) {
    exists i :: 0 <= i < |discovered| && discovered[i].resource.info.key == key
  }

  /** The class of the desired resource at key, and what is recorded about it. */
  ghost predicate ClassifiedAt(desired: DesiredMap, scope: Scope, cache: ClusterCache, discoveryHealthy: bool,
                               resolver: Resolver, discovered: seq<Discovered>, m: Monitored, key: ResourceKey)
    requires key in desired
  {
    var d := desired[key];
    var refusal, reached := Refusal(d, scope, cache, discoveryHealthy), Reached(discovered, key);
    && (d.id in m.present <==> reached)
    && (d.id in m.unknown <==> refusal.Some? || (!reached && Inaccessible(d, cache)))
    && (d.id in m.missing <==> refusal.None? && !reached && !Inaccessible(d, cache))
    && (reached ==> exists i :: 0 <= i < |discovered| && discovered[i].resource.info.key == key
                                && m.present[d.id] == NewPresent(discovered[i].resource, resolver, d.id))
    && (d.id in m.unknown ==>
          m.unknown[d.id] ==
          NewUnknown(d, if refusal.Some? then refusal.value else TypeInaccessible(d.typeMeta.ToGroupKind())))
    && (d.id in m.missing ==> m.missing[d.id] == NewMissing(d))
  }

  /** The children are the discovered objects nobody desires, each with its final root. */
  ghost predicate ChildrenFound(desired: DesiredMap, resolver: Resolver, discovered: seq<Discovered>,
                                children: ChildMap)
  {
    && UniqueUids(children)
    && (forall k :: k in children <==> k !in desired && Reached(discovered, k))
    && (forall k :: k in children ==> ChildAsFound(resolver, discovered, children, k))
  }

  ghost predicate ChildAsFound(resolver: Resolver, discovered: seq<Discovered>, children: ChildMap, k: ResourceKey)
    requires k in children
  {
    var c := children[k];
    && c.ref.Key() == k
    && (exists i ::
          && 0 <= i < |discovered| && discovered[i].resource.ref == c.ref
          && c.manifest == resolver(discovered[i].resource) && IsFirstOwner(discovered[i], c.ownerId))
    && c.rootOwnerId == RootOf(c.ownerId, OwnersAmong(children))
    && c.rootOwnerId !in OwnersAmong(children)
  }

  ghost predicate Classified(desired: DesiredMap, scope: Scope, cache: ClusterCache, discoveryHealthy: bool,
                             resolver: Resolver, discovered: seq<Discovered>, m: Monitored)
  {
    && m.present.Keys + m.missing.Keys + m.unknown.Keys <= Ids(desired)
    && (forall k :: k in desired ==> ClassifiedAt(desired, scope, cache, discoveryHealthy, resolver, discovered, m, k))
    && ChildrenFound(desired, resolver, discovered, m.children)
  }

  // ---------- owners of discovered objects ----------

  /** The UID recorded as an object's owner. An owner without a UID is looked for by name, and any match will do. */
  predicate IsFirstOwner(d: Discovered, owner: Uid) {
    var owners := d.resource.ownerRefs;
    if owners == [] then owner == ""
    else if owners[0].uid != "" then owner == owners[0].uid
    else if forall k :: k in d.namespaceResources ==> !Named(d.namespaceResources[k], owners[0]) then owner == ""
    else exists k ::
           && k in d.namespaceResources && Named(d.namespaceResources[k], owners[0])
           && d.namespaceResources[k].ref.uid == owner
  }

  predicate Named(r: Resource, owner: OwnerRef) {
    r.ref.name == owner.name && r.ref.typeMeta.kind == owner.kind && r.ref.typeMeta.apiVersion == owner.apiVersion
  }

  method GetFirstOwnerId(d: Discovered) returns (owner: Uid)
    ensures IsFirstOwner(d, owner)
  {
    var ownerReferences := d.resource.ownerRefs;
    if |ownerReferences| == 0 {
      return "";
    }
    if ownerReferences[0].uid != "" {
      return ownerReferences[0].uid;
    }
    var owners: seq<Resource> := [];
    var todo := d.namespaceResources.Keys;
    while todo != {}
      invariant todo <= d.namespaceResources.Keys
      invariant forall k ::
                  k in d.namespaceResources && k !in todo && Named(d.namespaceResources[k], ownerReferences[0]) ==>
                    owners != []
      invariant forall r :: r in owners ==>
                  exists k :: k in d.namespaceResources && d.namespaceResources[k] == r && Named(r, ownerReferences[0])
    {
      var k :| k in todo;
      todo := todo - {k};
      var r := d.namespaceResources[k];
      if r.ref.name == ownerReferences[0].name && r.ref.typeMeta.kind == ownerReferences[0].kind
         && r.ref.typeMeta.apiVersion == ownerReferences[0].apiVersion {
        owners := owners + [r];
      }
    }
    if |owners| == 0 {
      return "";
    }
    assert owners[0] in owners;
    return owners[0].ref.uid;
  }

  /** An owner without a UID is any object around with the version, kind and name of the reference. */
  lemma OwnerIsFoundByName(d: Discovered, owner: Uid)
    requires d.resource.ownerRefs != [] && d.resource.ownerRefs[0].uid == "" && IsFirstOwner(d, owner)
    ensures var first := d.resource.ownerRefs[0];
            var around := set k | k in d.namespaceResources
                                  && d.namespaceResources[k].ref.typeMeta == TypeMeta(first.apiVersion, first.kind)
                                  && d.namespaceResources[k].ref.name == first.name :: d.namespaceResources[k].ref.uid;
            if around == {} then owner == "" else owner in around
  {
    var first := d.resource.ownerRefs[0];
    var around := set k | k in d.namespaceResources
                          && d.namespaceResources[k].ref.typeMeta == TypeMeta(first.apiVersion, first.kind)
                          && d.namespaceResources[k].ref.name == first.name :: d.namespaceResources[k].ref.uid;
    forall k | k in d.namespaceResources && Named(d.namespaceResources[k], first)
      ensures d.namespaceResources[k].ref.uid in around
    {
      var ref := d.namespaceResources[k].ref;
      assert ref.typeMeta == TypeMeta(first.apiVersion, first.kind);
    }
  }

  // ---------- classifying the desired resources ----------

  ghost predicate Refused(desired: DesiredMap, scope: Scope, cache: ClusterCache, discoveryHealthy: bool,
                          todo: set<ResourceKey>, unknown: UnknownMap, key: ResourceKey)
    requires key in desired
  {
    var d := desired[key];
    var refusal := Refusal(d, scope, cache, discoveryHealthy);
    && (d.id in unknown <==> key !in todo && refusal.Some?)
    && (d.id in unknown ==> unknown[d.id] == NewUnknown(d, refusal.value))
  }

  /** The resources that can't be looked for. */
  method RefuseResources(desired: DesiredMap, scope: Scope, cache: ClusterCache, discoveryHealthy: bool)
    returns (unknown: UnknownMap)
    requires DistinctIds(desired)
    ensures unknown.Keys <= Ids(desired)
    ensures forall k :: k in desired ==> Refused(desired, scope, cache, discoveryHealthy, {}, unknown, k)
  {
    unknown := map[];
    var todo := desired.Keys;
    while todo != {}
      invariant todo <= desired.Keys && unknown.Keys <= Ids(desired)
      invariant forall k :: k in desired ==> Refused(desired, scope, cache, discoveryHealthy, todo, unknown, k)
    {
      var key :| key in todo;
      var d := desired[key];
      var refusal := Refuse(d, scope, cache, discoveryHealthy);
      ghost var before, left := unknown, todo;
      todo := todo - {key};
      if refusal.Some? {
        unknown := unknown[d.id := NewUnknown(d, refusal.value)];
      }
      forall k | k in desired ensures Refused(desired, scope, cache, discoveryHealthy, todo, unknown, k) {
        assert Refused(desired, scope, cache, discoveryHealthy, left, before, k);
        assert k != key ==> desired[k].id != d.id;
      }
    }
  }

  method Refuse(d: Desired, scope: Scope, cache: ClusterCache, discoveryHealthy: bool) returns (refusal: Option<Reason>)
    ensures refusal == Refusal(d, scope, cache, discoveryHealthy)
  {
    var gk := d.typeMeta.ToGroupKind();
    if gk !in cache.apiResources {
      if !discoveryHealthy {
        return Some(Unexplained);
      }
      return None;
    }
    if !d.isNamespaceResolved {
      return Some(Unexplained);
    }
    if scope.namespaceScopedMode && d.isClusterScoped {
      return Some(ClusterScopedInNamespaceMode);
    }
    if scope.targetNamespaces != {} && !d.isClusterScoped {
      var resourceNamespace := d.namespace;
      if d.manifest.Some? && d.manifest.value.namespace != "" {
        resourceNamespace := d.manifest.value.namespace;
      }
      if resourceNamespace !in scope.targetNamespaces {
        return Some(NamespaceNotMonitored(resourceNamespace));
      }
    }
    if scope.excluded.Some? && scope.excluded.value(gk) {
      return Some(TypeExcluded(gk));
    }
    return None;
  }

  /** The manifests whose live objects are asked for. */
  method TargetObjects(desired: DesiredMap, scope: Scope, cache: ClusterCache, discoveryHealthy: bool,
                       unknown: UnknownMap)
    returns (targets: seq<Manifest>)
    requires forall k :: k in desired ==> Refused(desired, scope, cache, discoveryHealthy, {}, unknown, k)
    ensures forall t :: t in targets <==>
              exists k :: k in desired && IsTarget(desired[k], scope, cache, discoveryHealthy)
                     && desired[k].manifest == Some(t)
  {
    targets := [];
    var todo := desired.Keys;
    while todo != {}
      invariant todo <= desired.Keys
      invariant forall t :: t in targets <==>
                  exists k :: k in desired && k !in todo && IsTarget(desired[k], scope, cache, discoveryHealthy)
                         && desired[k].manifest == Some(t)
    {
      var key :| key in todo;
      todo := todo - {key};
      var d := desired[key];
      assert Refused(desired, scope, cache, discoveryHealthy, {}, unknown, key);
      if d.id in unknown || d.typeMeta.ToGroupKind() !in cache.apiResources || d.manifest.None? {
        continue;
      }
      if scope.excluded.Some? && scope.excluded.value(d.manifest.value.typeMeta.ToGroupKind()) {
        continue;
      }
      targets := targets + [d.manifest.value];
    }
  }

  // ---------- recording what was discovered ----------

  predicate IsChildAt(desired: DesiredMap, discovered: seq<Discovered>, i: int) {
    0 <= i < |discovered| && discovered[i].resource.info.key !in desired
  }

  /** What the cache's traversal guarantees: well-formed objects, each child met once, and parents before children. */
  ghost predicate Traversed(desired: DesiredMap, discovered: seq<Discovered>) {
    && (forall i :: 0 <= i < |discovered| ==> discovered[i].resource.WellFormed())
    && (forall i, j {:trigger InOrder(desired, discovered, i, j)} ::
          0 <= i < |discovered| && 0 <= j < |discovered| ==> InOrder(desired, discovered, i, j))
  }

  lemma DistinctChildren(desired: DesiredMap, discovered: seq<Discovered>, i: nat, j: nat)
    requires Traversed(desired, discovered) && IsChildAt(desired, discovered, i) && IsChildAt(desired, discovered, j)
    requires i != j
    ensures discovered[i].resource.info.key != discovered[j].resource.info.key
    ensures discovered[i].resource.ref.uid != discovered[j].resource.ref.uid
  {
    assert InOrder(desired, discovered, i, j);
  }

  ghost predicate InOrder(desired: DesiredMap, discovered: seq<Discovered>, i: int, j: int)
    requires 0 <= i < |discovered| && 0 <= j < |discovered|
  {
    var a, b := discovered[i].resource, discovered[j].resource;
    IsChildAt(desired, discovered, i) && IsChildAt(desired, discovered, j) ==>
      && (a.info.key == b.info.key || a.ref.uid == b.ref.uid ==> i == j)
      && (IsFirstOwner(discovered[i], b.ref.uid) ==> j < i)
  }

  ghost predicate OwnersFound(discovered: seq<Discovered>, owners: seq<Uid>) {
    |owners| == |discovered| && forall i :: 0 <= i < |owners| ==> IsFirstOwner(discovered[i], owners[i])
  }

  /** The walk only collects; nothing is resolved while the cache is locked. */
  method CollectOwners(discovered: seq<Discovered>) returns (owners: seq<Uid>)
    ensures OwnersFound(discovered, owners)
  {
    owners := [];
    for i := 0 to |discovered|
      invariant |owners| == i && forall j :: 0 <= j < i ==> IsFirstOwner(discovered[j], owners[j])
    {
      var owner := GetFirstOwnerId(discovered[i]);
      owners := owners + [owner];
    }
  }

  /** The children after the first n discovered objects, given each one's owner and root. */
  ghost function ChildrenAfter(desired: DesiredMap, resolver: Resolver, discovered: seq<Discovered>, owners: seq<Uid>,
                               roots: seq<Uid>, n: nat): ChildMap
    requires n <= |discovered| == |owners| == |roots|
  {
    if n == 0 then map[]
    else
      var before := ChildrenAfter(desired, resolver, discovered, owners, roots, n - 1);
      var res := discovered[n - 1].resource;
      if IsChildAt(desired, discovered, n - 1)
      then before[res.ref.Key() := NewChild(res, resolver, owners[n - 1], roots[n - 1])]
      else before
  }

  ghost function RecordingAfter(desired: DesiredMap, discovered: seq<Discovered>, owners: seq<Uid>, n: nat): Recording
    requires n <= |discovered| == |owners|
  {
    if n == 0 then []
    else
      var before := RecordingAfter(desired, discovered, owners, n - 1);
      if IsChildAt(desired, discovered, n - 1)
      then before + [(discovered[n - 1].resource.ref.uid, owners[n - 1])]
      else before
  }

  lemma {:induction false} RecordingEntry(desired: DesiredMap, discovered: seq<Discovered>, owners: seq<Uid>, n: nat,
                                          e: nat)
    returns (i: nat)
    requires n <= |discovered| == |owners| && e < |RecordingAfter(desired, discovered, owners, n)|
    ensures i < n && IsChildAt(desired, discovered, i)
    ensures RecordingAfter(desired, discovered, owners, n)[e] == (discovered[i].resource.ref.uid, owners[i])
  {
    if e < |RecordingAfter(desired, discovered, owners, n - 1)| {
      i := RecordingEntry(desired, discovered, owners, n - 1, e);
    } else {
      i := n - 1;
    }
  }

  /** The recording of a prefix is a prefix of the recording, and the next child's entry follows it. */
  lemma {:induction false} RecordingPrefix(desired: DesiredMap, discovered: seq<Discovered>, owners: seq<Uid>, i: nat,
                                           n: nat)
    requires i < n <= |discovered| == |owners| && IsChildAt(desired, discovered, i)
    ensures var part := RecordingAfter(desired, discovered, owners, i);
            var whole := RecordingAfter(desired, discovered, owners, n);
            |part| < |whole| && whole[..|part|] == part && whole[|part|] == (discovered[i].resource.ref.uid, owners[i])
  {
    if n > i + 1 {
      RecordingPrefix(desired, discovered, owners, i, n - 1);
    }
  }

  lemma {:induction false} RecordingIsParentsFirst(desired: DesiredMap, discovered: seq<Discovered>, owners: seq<Uid>,
                                                   n: nat)
    requires n <= |discovered| && OwnersFound(discovered, owners) && Traversed(desired, discovered)
    ensures ParentsFirst(RecordingAfter(desired, discovered, owners, n))
  {
    if n > 0 {
      RecordingIsParentsFirst(desired, discovered, owners, n - 1);
      if IsChildAt(desired, discovered, n - 1) {
        var before := RecordingAfter(desired, discovered, owners, n - 1);
        var entry := (discovered[n - 1].resource.ref.uid, owners[n - 1]);
        assert InOrder(desired, discovered, n - 1, n - 1);
        forall e | 0 <= e < |before| ensures before[e].0 != entry.0 && before[e].1 != entry.0 {
          var i := RecordingEntry(desired, discovered, owners, n - 1, e);
          assert InOrder(desired, discovered, i, n - 1);
        }
        AppendParentsFirst(before, entry);
      }
    }
  }

  lemma AppendParentsFirst(before: Recording, entry: (Uid, Uid))
    requires ParentsFirst(before) && entry.0 != entry.1
    requires forall e :: 0 <= e < |before| ==> before[e].0 != entry.0 && before[e].1 != entry.0
    ensures ParentsFirst(before + [entry])
  {
  }

  lemma {:induction false} ChildKeyComesFrom(desired: DesiredMap, resolver: Resolver, discovered: seq<Discovered>,
                                             owners: seq<Uid>, roots: seq<Uid>, n: nat, k: ResourceKey)
    returns (i: nat)
    requires n <= |discovered| == |owners| == |roots| && Traversed(desired, discovered)
    requires k in ChildrenAfter(desired, resolver, discovered, owners, roots, n)
    ensures i < n && IsChildAt(desired, discovered, i) && discovered[i].resource.info.key == k
  {
    if k in ChildrenAfter(desired, resolver, discovered, owners, roots, n - 1) {
      i := ChildKeyComesFrom(desired, resolver, discovered, owners, roots, n - 1, k);
    } else {
      i := n - 1;
    }
  }

  /** Each discovered child stays recorded as it was when it was met. */
  lemma {:induction false} ChildStaysRecorded(desired: DesiredMap, resolver: Resolver, discovered: seq<Discovered>,
                                              owners: seq<Uid>, roots: seq<Uid>, n: nat, i: nat)
    requires i < n <= |discovered| == |owners| == |roots| && Traversed(desired, discovered)
    requires IsChildAt(desired, discovered, i)
    ensures RecordedIn(ChildrenAfter(desired, resolver, discovered, owners, roots, n), resolver, discovered[i].resource,
                       owners[i], roots[i])
  {
    if i < n - 1 {
      ChildStaysRecorded(desired, resolver, discovered, owners, roots, n - 1, i);
      if IsChildAt(desired, discovered, n - 1) {
        DistinctChildren(desired, discovered, i, n - 1);
      }
    }
  }

  ghost predicate RecordedIn(children: ChildMap, resolver: Resolver, res: Resource, owner: Uid, root: Uid) {
    res.info.key in children && children[res.info.key] == NewChild(res, resolver, owner, root)
  }

  lemma ChildrenHaveUniqueUids(desired: DesiredMap, resolver: Resolver, discovered: seq<Discovered>, owners: seq<Uid>,
                               roots: seq<Uid>, n: nat)
    requires n <= |discovered| == |owners| == |roots| && Traversed(desired, discovered)
    ensures UniqueUids(ChildrenAfter(desired, resolver, discovered, owners, roots, n))
  {
    var children := ChildrenAfter(desired, resolver, discovered, owners, roots, n);
    forall j, k | j in children && k in children && children[j].ref.uid == children[k].ref.uid ensures j == k {
      var a := ChildKeyComesFrom(desired, resolver, discovered, owners, roots, n, j);
      var b := ChildKeyComesFrom(desired, resolver, discovered, owners, roots, n, k);
      ChildStaysRecorded(desired, resolver, discovered, owners, roots, n, a);
      ChildStaysRecorded(desired, resolver, discovered, owners, roots, n, b);
      if a != b {
        DistinctChildren(desired, discovered, a, b);
      }
    }
  }

  lemma ChildKeyIsNew(desired: DesiredMap, resolver: Resolver, discovered: seq<Discovered>, owners: seq<Uid>,
                      roots: seq<Uid>, n: nat)
    requires n < |discovered| == |owners| == |roots| && Traversed(desired, discovered)
    requires IsChildAt(desired, discovered, n)
    ensures discovered[n].resource.info.key !in ChildrenAfter(desired, resolver, discovered, owners, roots, n)
  {
    var key := discovered[n].resource.info.key;
    if key in ChildrenAfter(desired, resolver, discovered, owners, roots, n) {
      var i := ChildKeyComesFrom(desired, resolver, discovered, owners, roots, n, key);
      DistinctChildren(desired, discovered, i, n);
    }
  }

  /** The owners among the children so far are the recording so far. */
  lemma OwnersAreTheRecording(desired: DesiredMap, resolver: Resolver, discovered: seq<Discovered>, owners: seq<Uid>,
                              roots: seq<Uid>, n: nat)
    requires n <= |discovered| == |owners| == |roots| && Traversed(desired, discovered)
    ensures OwnersAmong(ChildrenAfter(desired, resolver, discovered, owners, roots, n)) ==
            Recorded(RecordingAfter(desired, discovered, owners, n))
  {
    forall i | 0 <= i < n && IsChildAt(desired, discovered, i)
      ensures OwnersExtend(desired, resolver, discovered, owners, roots, i)
    {
      OwnersAfterOneMore(desired, resolver, discovered, owners, roots, i);
    }
    OwnersFollowTheRecording(desired, resolver, discovered, owners, roots, n);
  }

  ghost predicate OwnersExtend(desired: DesiredMap, resolver: Resolver, discovered: seq<Discovered>, owners: seq<Uid>,
                               roots: seq<Uid>, i: int)
    requires 0 <= i < |discovered| == |owners| == |roots|
  {
    OwnersAmong(ChildrenAfter(desired, resolver, discovered, owners, roots, i + 1)) ==
    OwnersAmong(ChildrenAfter(desired, resolver, discovered, owners, roots, i))
      [discovered[i].resource.ref.uid := owners[i]]
  }

  lemma {:induction false} OwnersFollowTheRecording(desired: DesiredMap, resolver: Resolver,
                                                    discovered: seq<Discovered>, owners: seq<Uid>, roots: seq<Uid>,
                                                    n: nat)
    requires n <= |discovered| == |owners| == |roots|
    requires forall i {:trigger OwnersExtend(desired, resolver, discovered, owners, roots, i)} ::
               0 <= i < n && IsChildAt(desired, discovered, i) ==>
                 OwnersExtend(desired, resolver, discovered, owners, roots, i)
    ensures OwnersAmong(ChildrenAfter(desired, resolver, discovered, owners, roots, n)) ==
            Recorded(RecordingAfter(desired, discovered, owners, n))
  {
    if n == 0 {
      NoChildrenNoOwners();
    } else {
      OwnersFollowTheRecording(desired, resolver, discovered, owners, roots, n - 1);
      if IsChildAt(desired, discovered, n - 1) {
        assert OwnersExtend(desired, resolver, discovered, owners, roots, n - 1);
        NextOwnerFollows(desired, resolver, discovered, owners, roots, n - 1);
      }
    }
  }

  lemma NextOwnerFollows(desired: DesiredMap, resolver: Resolver, discovered: seq<Discovered>, owners: seq<Uid>,
                         roots: seq<Uid>, n: nat)
    requires n < |discovered| == |owners| == |roots|
    requires IsChildAt(desired, discovered, n) && OwnersExtend(desired, resolver, discovered, owners, roots, n)
    requires OwnersAmong(ChildrenAfter(desired, resolver, discovered, owners, roots, n)) ==
             Recorded(RecordingAfter(desired, discovered, owners, n))
    ensures OwnersAmong(ChildrenAfter(desired, resolver, discovered, owners, roots, n + 1)) ==
            Recorded(RecordingAfter(desired, discovered, owners, n + 1))
  {
    RecordedOneMore(RecordingAfter(desired, discovered, owners, n), discovered[n].resource.ref.uid, owners[n]);
  }

  lemma OwnersAfterOneMore(desired: DesiredMap, resolver: Resolver, discovered: seq<Discovered>, owners: seq<Uid>,
                           roots: seq<Uid>, n: nat)
    requires n < |discovered| == |owners| == |roots| && Traversed(desired, discovered)
    requires IsChildAt(desired, discovered, n)
    ensures OwnersExtend(desired, resolver, discovered, owners, roots, n)
  {
    ChildrenHaveUniqueUids(desired, resolver, discovered, owners, roots, n);
    ChildrenHaveUniqueUids(desired, resolver, discovered, owners, roots, n + 1);
    ChildKeyIsNew(desired, resolver, discovered, owners, roots, n);
    var res := discovered[n].resource;
    OwnersWithOneMore(ChildrenAfter(desired, resolver, discovered, owners, roots, n), res.ref.Key(),
                      NewChild(res, resolver, owners[n], roots[n]));
  }

  lemma RecordedOneMore(before: Recording, uid: Uid, owner: Uid)
    ensures Recorded(before + [(uid, owner)]) == Recorded(before)[uid := owner]
  {
    var all := before + [(uid, owner)];
    assert all[..|all| - 1] == before;
  }

  ghost function FinalOwners(desired: DesiredMap, discovered: seq<Discovered>, owners: seq<Uid>): OwnerMap
    requires |discovered| == |owners|
  {
    Recorded(RecordingAfter(desired, discovered, owners, |discovered|))
  }

  /** The climb from a child about to be recorded ends, over the children so far and over all of them, at the same
      place. */
  lemma RootsAreFinal(desired: DesiredMap, discovered: seq<Discovered>, owners: seq<Uid>, i: nat)
    requires i < |discovered| && OwnersFound(discovered, owners) && Traversed(desired, discovered)
    requires IsChildAt(desired, discovered, i)
    ensures var sofar := Recorded(RecordingAfter(desired, discovered, owners, i));
            var final := FinalOwners(desired, discovered, owners);
            ReachesRoot(owners[i], sofar) && RootOf(owners[i], sofar) == RootOf(owners[i], final)
            && RootOf(owners[i], final) !in final
  {
    var n := |discovered|;
    RecordingIsParentsFirst(desired, discovered, owners, n);
    RecordingPrefix(desired, discovered, owners, i, n);
    var sofar, final := RecordingAfter(desired, discovered, owners, i), RecordingAfter(desired, discovered, owners, n);
    StoredRootsAreFinal(final, |sofar|);
    RootIsNoChild(owners[i], Recorded(sofar));
    if RootOf(owners[i], Recorded(sofar)) in Recorded(sofar) {
      RecordedGrows(final, |sofar|, RootOf(owners[i], Recorded(sofar)));
    }
  }

  lemma {:induction false} RecordedGrows(entries: Recording, n: nat, u: Uid)
    requires n <= |entries| && u in Recorded(entries[..n])
    ensures u in Recorded(entries)
    decreases |entries| - n
  {
    if n == |entries| {
      assert entries[..n] == entries;
    } else {
      assert entries[..n + 1][..n] == entries[..n];
      RecordedGrows(entries, n + 1, u);
    }
  }

  ghost function FinalRoots(desired: DesiredMap, discovered: seq<Discovered>, owners: seq<Uid>): (roots: seq<Uid>)
    requires |discovered| == |owners|
    ensures |roots| == |discovered|
    ensures forall i :: 0 <= i < |roots| ==> roots[i] == RootOf(owners[i], FinalOwners(desired, discovered, owners))
  {
    seq(|discovered|, i requires 0 <= i < |discovered| => RootOf(owners[i], FinalOwners(desired, discovered, owners)))
  }

  /** Records one more child, with the root its owner has among the children so far, which is its final one. */
  method RecordDiscoveredChild(desired: DesiredMap, resolver: Resolver, discovered: seq<Discovered>, owners: seq<Uid>,
                               ghost roots: seq<Uid>, i: nat, children: ChildMap)
    returns (more: ChildMap)
    requires i < |discovered| && Traversed(desired, discovered) && OwnersFound(discovered, owners)
    requires IsChildAt(desired, discovered, i)
    requires |roots| == |discovered| && roots[i] == RootOf(owners[i], FinalOwners(desired, discovered, owners))
    requires children == ChildrenAfter(desired, resolver, discovered, owners, roots, i)
    ensures more == ChildrenAfter(desired, resolver, discovered, owners, roots, i + 1)
  {
    ChildrenHaveUniqueUids(desired, resolver, discovered, owners, roots, i);
    OwnersAreTheRecording(desired, resolver, discovered, owners, roots, i);
    RootsAreFinal(desired, discovered, owners, i);
    var rootOwnerId := GetRootParentResource(owners[i], children);
    var c := NewChild(discovered[i].resource, resolver, owners[i], rootOwnerId);
    more := children[c.ref.Key() := c];
  }

  /** Records every discovered object: desired ones as present, the rest as children. */
  method RecordDiscovered(desired: DesiredMap, resolver: Resolver, discovered: seq<Discovered>, owners: seq<Uid>)
    returns (present: PresentMap, children: ChildMap)
    requires DistinctIds(desired) && Traversed(desired, discovered) && OwnersFound(discovered, owners)
    ensures AllPresentAfter(desired, resolver, discovered, |discovered|, present)
    ensures children == ChildrenAfter(desired, resolver, discovered, owners, FinalRoots(desired, discovered, owners),
                                      |discovered|)
  {
    present, children := map[], map[];
    ghost var roots := FinalRoots(desired, discovered, owners);
    for i := 0 to |discovered|
      invariant AllPresentAfter(desired, resolver, discovered, i, present)
      invariant children == ChildrenAfter(desired, resolver, discovered, owners, roots, i)
    {
      present, children := RecordOne(desired, resolver, discovered, owners, roots, i, present, children);
    }
  }

  method RecordOne(desired: DesiredMap, resolver: Resolver, discovered: seq<Discovered>, owners: seq<Uid>,
                   ghost roots: seq<Uid>, i: nat, present: PresentMap, children: ChildMap)
    returns (morePresent: PresentMap, moreChildren: ChildMap)
    requires DistinctIds(desired) && Traversed(desired, discovered) && OwnersFound(discovered, owners)
    requires i < |discovered| && roots == FinalRoots(desired, discovered, owners)
    requires AllPresentAfter(desired, resolver, discovered, i, present)
    requires children == ChildrenAfter(desired, resolver, discovered, owners, roots, i)
    ensures AllPresentAfter(desired, resolver, discovered, i + 1, morePresent)
    ensures moreChildren == ChildrenAfter(desired, resolver, discovered, owners, roots, i + 1)
  {
    var res := discovered[i].resource;
    var key := res.info.key;
    AllPresentStep(desired, resolver, discovered, i, present);
    morePresent, moreChildren := present, children;
    if key in desired {
      var p := NewPresent(res, resolver, desired[key].id);
      morePresent := present[p.id := p];
    } else {
      moreChildren := RecordDiscoveredChild(desired, resolver, discovered, owners, roots, i, children);
    }
  }

  ghost predicate AllPresentAfter(desired: DesiredMap, resolver: Resolver, discovered: seq<Discovered>, n: int,
                                  present: PresentMap)
    requires 0 <= n <= |discovered|
  {
    && present.Keys <= Ids(desired)
    && (forall k :: k in desired ==> PresentAfter(desired, resolver, discovered, n, present, k))
  }

  function AddPresent(desired: DesiredMap, resolver: Resolver, res: Resource, present: PresentMap): PresentMap {
    if res.info.key in desired then
      present[desired[res.info.key].id := NewPresent(res, resolver, desired[res.info.key].id)]
    else present
  }

  lemma AllPresentStep(desired: DesiredMap, resolver: Resolver, discovered: seq<Discovered>, i: nat,
                       present: PresentMap)
    requires DistinctIds(desired) && i < |discovered| && AllPresentAfter(desired, resolver, discovered, i, present)
    ensures AllPresentAfter(desired, resolver, discovered, i + 1,
                            AddPresent(desired, resolver, discovered[i].resource, present))
  {
    forall k | k in desired
      ensures PresentAfter(desired, resolver, discovered, i + 1,
                           AddPresent(desired, resolver, discovered[i].resource, present), k)
    {
      PresentStep(desired, resolver, discovered, i, present, k);
    }
  }

  lemma PresentStep(desired: DesiredMap, resolver: Resolver, discovered: seq<Discovered>, i: nat, before: PresentMap,
                    k: ResourceKey)
    requires k in desired && i < |discovered| && PresentAfter(desired, resolver, discovered, i, before, k)
    requires DistinctIds(desired)
    ensures PresentAfter(desired, resolver, discovered, i + 1,
                         AddPresent(desired, resolver, discovered[i].resource, before), k)
  {
    var key := discovered[i].resource.info.key;
    assert k != key && key in desired ==> desired[k].id != desired[key].id;
  }

  /** After n discovered objects, the desired resource at key is present exactly when one of them was it. */
  ghost predicate PresentAfter(desired: DesiredMap, resolver: Resolver, discovered: seq<Discovered>, n: int,
                               present: PresentMap, key: ResourceKey)
    requires key in desired && 0 <= n <= |discovered|
  {
    var id := desired[key].id;
    && (id in present <==> exists i :: 0 <= i < n && discovered[i].resource.info.key == key)
    && (id in present ==>
          exists i :: 0 <= i < n && discovered[i].resource.info.key == key
                 && present[id] == NewPresent(discovered[i].resource, resolver, id))
  }

  lemma ChildrenAreFound(desired: DesiredMap, resolver: Resolver, discovered: seq<Discovered>, owners: seq<Uid>)
    requires Traversed(desired, discovered) && OwnersFound(discovered, owners)
    ensures ChildrenFound(desired, resolver, discovered,
                          ChildrenAfter(desired, resolver, discovered, owners, FinalRoots(desired, discovered, owners),
                                        |discovered|))
  {
    var n, roots := |discovered|, FinalRoots(desired, discovered, owners);
    var children := ChildrenAfter(desired, resolver, discovered, owners, roots, n);
    OwnersAreTheRecording(desired, resolver, discovered, owners, roots, n);
    ChildrenHaveUniqueUids(desired, resolver, discovered, owners, roots, n);
    forall k | k in children
      ensures k !in desired && Reached(discovered, k) && ChildAsFound(resolver, discovered, children, k)
    {
      var i := ChildKeyComesFrom(desired, resolver, discovered, owners, roots, n, k);
      ChildStaysRecorded(desired, resolver, discovered, owners, roots, n, i);
      RootsAreFinal(desired, discovered, owners, i);
      ChildIsFound(resolver, discovered, children, i, owners[i]);
    }
    forall k | k !in desired && Reached(discovered, k) ensures k in children {
      var i :| 0 <= i < n && discovered[i].resource.info.key == k;
      ChildStaysRecorded(desired, resolver, discovered, owners, roots, n, i);
    }
  }

  lemma ChildIsFound(resolver: Resolver, discovered: seq<Discovered>, children: ChildMap, i: nat, owner: Uid)
    requires i < |discovered| && discovered[i].resource.WellFormed() && IsFirstOwner(discovered[i], owner)
    requires RecordedIn(children, resolver, discovered[i].resource, owner, RootOf(owner, OwnersAmong(children)))
    requires RootOf(owner, OwnersAmong(children)) !in OwnersAmong(children)
    ensures ChildAsFound(resolver, discovered, children, discovered[i].resource.info.key)
  {
    var c := children[discovered[i].resource.info.key];
    assert discovered[i].resource.ref == c.ref && c.manifest == resolver(discovered[i].resource)
           && IsFirstOwner(discovered[i], c.ownerId);
  }

  // ---------- detecting missing resources ----------

  ghost predicate Accounted(desired: DesiredMap, cache: ClusterCache, present: PresentMap, refused: UnknownMap,
                            todo: set<ResourceKey>, missing: MissingMap, unknown: UnknownMap, key: ResourceKey)
    requires key in desired
  {
    var d := desired[key];
    var open := d.id !in present && d.id !in refused && key !in todo;
    && (d.id in unknown <==> d.id in refused || (open && Inaccessible(d, cache)))
    && (d.id in missing <==> open && !Inaccessible(d, cache))
    && (d.id in unknown ==>
          unknown[d.id] ==
          if d.id in refused then refused[d.id] else NewUnknown(d, TypeInaccessible(d.typeMeta.ToGroupKind())))
    && (d.id in missing ==> missing[d.id] == NewMissing(d))
  }

  /** Whatever is neither present nor already unknown is missing, unless its type can't be read. */
  method DetectMissing(desired: DesiredMap, cache: ClusterCache, present: PresentMap, refused: UnknownMap)
    returns (missing: MissingMap, unknown: UnknownMap)
    requires DistinctIds(desired) && refused.Keys <= Ids(desired)
    ensures missing.Keys + unknown.Keys <= Ids(desired)
    ensures forall k :: k in desired ==> Accounted(desired, cache, present, refused, {}, missing, unknown, k)
  {
    missing, unknown := map[], refused;
    var accountedFor := present.Keys + refused.Keys;
    var todo := desired.Keys;
    while todo != {}
      invariant todo <= desired.Keys && missing.Keys + unknown.Keys <= Ids(desired)
      invariant forall k :: k in desired ==> Accounted(desired, cache, present, refused, todo, missing, unknown, k)
    {
      var key :| key in todo;
      ghost var left, missingBefore, unknownBefore := todo, missing, unknown;
      todo := todo - {key};
      var d := desired[key];
      if d.id !in accountedFor {
        var gk := d.typeMeta.ToGroupKind();
        if gk in cache.apiResources && gk !in cache.readable {
          unknown := unknown[d.id := NewUnknown(d, TypeInaccessible(gk))];
        } else {
          missing := missing[d.id := NewMissing(d)];
        }
      }
      forall k | k in desired ensures Accounted(desired, cache, present, refused, todo, missing, unknown, k) {
        assert Accounted(desired, cache, present, refused, left, missingBefore, unknownBefore, k);
        assert k != key ==> desired[k].id != d.id;
      }
    }
  }

  // ---------- the whole rescan ----------

  /** The answers a rescan acted on. */
  datatype Trace = Trace(targets: seq<Manifest>, discovered: seq<Discovered>)

  ghost predicate IsTrace(desired: DesiredMap, scope: Scope, cache: ClusterCache, discoveryHealthy: bool, trace: Trace)
  {
    && (forall t :: t in trace.targets <==>
          exists k :: k in desired && IsTarget(desired[k], scope, cache, discoveryHealthy)
                 && desired[k].manifest == Some(t))
    && match cache.managedLiveObjs(trace.targets)
       case None => trace.discovered == []
       case Some(live) => trace.discovered == cache.hierarchy(live)
  }

  /** Fails exactly when the cache does; otherwise classifies every desired resource. */
  method GetMonitoredResources(desired: DesiredMap, scope: Scope, cache: ClusterCache, resolver: Resolver,
                               discoveryHealthy: bool)
    returns (result: Option<Monitored>, ghost trace: Trace)
    requires IsReady(desired, cache)
    ensures IsTrace(desired, scope, cache, discoveryHealthy, trace)
    ensures result.None? <==> cache.managedLiveObjs(trace.targets).None?
    ensures result.Some? ==>
              Classified(desired, scope, cache, discoveryHealthy, resolver, trace.discovered, result.value)
    ensures result.Some? ==> IsTotalFor(Ids(desired), result.value)
  {
    var refused := RefuseResources(desired, scope, cache, discoveryHealthy);
    var targets := TargetObjects(desired, scope, cache, discoveryHealthy, refused);
    var live := cache.managedLiveObjs(targets);
    if live.None? {
      return None, Trace(targets, []);
    }
    var discovered := cache.hierarchy(live.value);
    var owners := CollectOwners(discovered);
    var present, children := RecordDiscovered(desired, resolver, discovered, owners);
    var missing, unknown := DetectMissing(desired, cache, present, refused);
    var m := Monitored(present, children, missing, unknown);
    ChildrenAreFound(desired, resolver, discovered, owners);
    forall k | k in desired ensures ClassifiedAt(desired, scope, cache, discoveryHealthy, resolver, discovered, m, k) {
      assert Refused(desired, scope, cache, discoveryHealthy, {}, refused, k);
      assert PresentAfter(desired, resolver, discovered, |discovered|, present, k);
      assert Accounted(desired, cache, present, refused, {}, missing, unknown, k);
      PutTogether(desired, scope, cache, discoveryHealthy, resolver, discovered, refused, m, k);
    }
    ClassificationIsTotal(desired, scope, cache, discoveryHealthy, resolver, discovered, m);
    return Some(m), Trace(targets, discovered);
  }

  lemma PutTogether(desired: DesiredMap, scope: Scope, cache: ClusterCache, discoveryHealthy: bool, resolver: Resolver,
                    discovered: seq<Discovered>, refused: UnknownMap, m: Monitored, k: ResourceKey)
    requires k in desired
    requires Refused(desired, scope, cache, discoveryHealthy, {}, refused, k)
    requires PresentAfter(desired, resolver, discovered, |discovered|, m.present, k)
    requires Accounted(desired, cache, m.present, refused, {}, m.missing, m.unknown, k)
    ensures ClassifiedAt(desired, scope, cache, discoveryHealthy, resolver, discovered, m, k)
  {
  }

  /** The instance holds exactly what a rescan found. */
  ghost predicate IsRescan(s: Instance, scope: Scope, cache: ClusterCache, discoveryHealthy: bool, resolver: Resolver,
                           discovered: seq<Discovered>)
  {
    && Classified(s.desired, scope, cache, discoveryHealthy, resolver, discovered,
                  Monitored(s.present, s.children, s.missing, s.unknown))
    && s.tracked == PresentKeys(s.present) + ChildKeys(s.children)
  }

  /** What a rescan relies on once namespaces are resolved: ids are distinct, and the cache's traversals are sound. */
  ghost predicate IsReady(desired: DesiredMap, cache: ClusterCache) {
    DistinctIds(desired) && forall live :: Traversed(desired, cache.hierarchy(live))
  }

  /** Whatever namespaces resolve to, the desired resources will be ready. */
  ghost predicate WillBeReady(desired: DesiredMap, namespacedMap: NamespacedMap, cache: ClusterCache) {
    forall after {:trigger Rekeyed(desired, namespacedMap, after)} ::
      Rekeyed(desired, namespacedMap, after) ==> IsReady(after, cache)
  }

  lemma ReadyAfterPass(desired: DesiredMap, namespacedMap: NamespacedMap, cache: ClusterCache, after: DesiredMap)
    requires WillBeReady(desired, namespacedMap, cache) && Rekeyed(desired, namespacedMap, after)
    ensures IsReady(after, cache)
  {
  }

  // ---------- what the classification means ----------

  /** Every desired resource is classified, and nothing missing is also present or unknown. */
  predicate IsTotalFor(ids: set<DesiredResourceId>, m: Monitored) {
    && m.present.Keys + m.missing.Keys + m.unknown.Keys == ids
    && m.missing.Keys !! m.present.Keys && m.missing.Keys !! m.unknown.Keys
  }

  lemma ClassificationIsTotal(desired: DesiredMap, scope: Scope, cache: ClusterCache, discoveryHealthy: bool,
                              resolver: Resolver, discovered: seq<Discovered>, m: Monitored)
    requires Classified(desired, scope, cache, discoveryHealthy, resolver, discovered, m)
    ensures IsTotalFor(Ids(desired), m)
  {
    forall id | id in Ids(desired) ensures CoveredOnce(m, id) {
      var k :| k in desired && desired[k].id == id;
      ClassifiedCovers(desired, scope, cache, discoveryHealthy, resolver, discovered, m, k);
    }
    CoveredMeansTotal(Ids(desired), m);
  }

  lemma CoveredMeansTotal(ids: set<DesiredResourceId>, m: Monitored)
    requires m.present.Keys + m.missing.Keys + m.unknown.Keys <= ids && forall id :: id in ids ==> CoveredOnce(m, id)
    ensures IsTotalFor(ids, m)
  {
    assert forall id :: id in m.missing.Keys ==> id in ids && CoveredOnce(m, id);
  }

  lemma ClassifiedCovers(desired: DesiredMap, scope: Scope, cache: ClusterCache, discoveryHealthy: bool,
                         resolver: Resolver, discovered: seq<Discovered>, m: Monitored, k: ResourceKey)
    requires Classified(desired, scope, cache, discoveryHealthy, resolver, discovered, m) && k in desired
    ensures CoveredOnce(m, desired[k].id)
  {
    assert ClassifiedAt(desired, scope, cache, discoveryHealthy, resolver, discovered, m, k);
  }

  predicate CoveredOnce(m: Monitored, id: DesiredResourceId) {
    && (id in m.present || id in m.missing || id in m.unknown)
    && (id in m.missing ==> id !in m.present && id !in m.unknown)
  }

  /** Within reach: of a known type, resolved, in scope and allowed. */
  predicate Searchable(d: Desired, scope: Scope, cache: ClusterCache) {
    && d.typeMeta.ToGroupKind() in cache.apiResources && d.isNamespaceResolved
    && !(scope.namespaceScopedMode && d.isClusterScoped)
    && (scope.targetNamespaces == {} || d.isClusterScoped || EffectiveNamespace(d) in scope.targetNamespaces)
    && (scope.excluded.Some? ==> !scope.excluded.value(d.typeMeta.ToGroupKind()))
  }

  predicate Observable(d: Desired, scope: Scope, cache: ClusterCache) {
    Searchable(d, scope, cache) && d.typeMeta.ToGroupKind() in cache.readable
  }

  predicate SoughtBy(d: Desired, scope: Scope, cache: ClusterCache, t: Manifest) {
    && Searchable(d, scope, cache) && d.manifest == Some(t)
    && (scope.excluded.Some? ==> !scope.excluded.value(t.typeMeta.ToGroupKind()))
  }

  /** The cache is asked for the live object of every resource within reach that has a manifest of an allowed type,
      cluster-scoped or not, and for nothing else. */
  lemma BatchIsExact(desired: DesiredMap, scope: Scope, cache: ClusterCache, discoveryHealthy: bool, trace: Trace,
                     t: Manifest)
    requires IsTrace(desired, scope, cache, discoveryHealthy, trace)
    ensures t in trace.targets <==> exists k :: k in desired && SoughtBy(desired[k], scope, cache, t)
  {
    forall k | k in desired
      ensures SoughtBy(desired[k], scope, cache, t) <==>
              IsTarget(desired[k], scope, cache, discoveryHealthy) && desired[k].manifest == Some(t)
    {
      SoughtIsTarget(desired[k], scope, cache, discoveryHealthy, t);
    }
    if t in trace.targets {
      var k :| k in desired && IsTarget(desired[k], scope, cache, discoveryHealthy) && desired[k].manifest == Some(t);
    }
  }

  lemma SoughtIsTarget(d: Desired, scope: Scope, cache: ClusterCache, discoveryHealthy: bool, t: Manifest)
    ensures SoughtBy(d, scope, cache, t) <==> IsTarget(d, scope, cache, discoveryHealthy) && d.manifest == Some(t)
  {
  }

  /** What the reason given for an unknown resource says of it. */
  predicate Explains(reason: Reason, d: Desired, scope: Scope, cache: ClusterCache, discoveryHealthy: bool,
                     reached: bool)
  {
    var gk := d.typeMeta.ToGroupKind();
    var known := gk in cache.apiResources;
    var namespace := if d.manifest.Some? && d.manifest.value.namespace != "" then d.manifest.value.namespace
                     else d.namespace;
    var forbidden := scope.namespaceScopedMode && d.isClusterScoped;
    var elsewhere := scope.targetNamespaces != {} && !d.isClusterScoped && namespace !in scope.targetNamespaces;
    match reason
    case Unexplained => if known then !d.isNamespaceResolved else !discoveryHealthy
    case ClusterScopedInNamespaceMode => known && d.isNamespaceResolved && forbidden
    case NamespaceNotMonitored(n) => known && d.isNamespaceResolved && elsewhere && n == namespace
    case TypeExcluded(t) =>
      && known && d.isNamespaceResolved && !forbidden && !elsewhere && t == gk
      && scope.excluded.Some? && scope.excluded.value(gk)
    case TypeInaccessible(t) => Searchable(d, scope, cache) && gk !in cache.readable && !reached && t == gk
  }

  /** A resource is unknown exactly when there is a reason for it, and then that is the one reason there is. */
  lemma UnknownIsExplainedIff(desired: DesiredMap, scope: Scope, cache: ClusterCache, discoveryHealthy: bool,
                              resolver: Resolver, discovered: seq<Discovered>, m: Monitored, k: ResourceKey,
                              reason: Reason)
    requires Classified(desired, scope, cache, discoveryHealthy, resolver, discovered, m) && k in desired
    ensures Explains(reason, desired[k], scope, cache, discoveryHealthy, Reached(discovered, k)) <==>
            desired[k].id in m.unknown && m.unknown[desired[k].id] == UnknownMonitoredResource(desired[k].id, reason)
  {
    assert ClassifiedAt(desired, scope, cache, discoveryHealthy, resolver, discovered, m, k);
    ReasonIsRefusal(desired[k], scope, cache, discoveryHealthy, Reached(discovered, k), reason);
  }

  lemma ReasonIsRefusal(d: Desired, scope: Scope, cache: ClusterCache, discoveryHealthy: bool, reached: bool,
                        reason: Reason)
    ensures Explains(reason, d, scope, cache, discoveryHealthy, reached) <==>
            || Refusal(d, scope, cache, discoveryHealthy) == Some(reason)
            || (&& Refusal(d, scope, cache, discoveryHealthy).None? && !reached && Inaccessible(d, cache)
                && reason == TypeInaccessible(d.typeMeta.ToGroupKind()))
  {
  }

  /** What a rescan reports of a desired resource is true of what it came across. */
  lemma ReportIsTrue(desired: DesiredMap, scope: Scope, cache: ClusterCache, discoveryHealthy: bool, resolver: Resolver,
                     discovered: seq<Discovered>, m: Monitored, k: ResourceKey)
    requires Classified(desired, scope, cache, discoveryHealthy, resolver, discovered, m) && k in desired
    requires WellKeyed(desired) && AllSettled(desired)
    ensures var id := desired[k].id;
            && (id in m.present ==>
                  exists i :: 0 <= i < |discovered| && discovered[i].resource.info.key == k
                              && m.present[id].id == id && m.present[id].ref == discovered[i].resource.ref
                              && m.present[id].manifest == resolver(discovered[i].resource))
            && (id in m.missing ==>
                  && m.missing[id].id == id && m.missing[id].typeMeta == desired[k].typeMeta
                  && m.missing[id].name == desired[k].name
                  && (Names(m.missing[id], k) <==> desired[k].isNamespaceResolved || desired[k].assumedNamespace == ""))
  {
    assert ClassifiedAt(desired, scope, cache, discoveryHealthy, resolver, discovered, m, k);
    assert desired[k].Key() == k && desired[k].NamespaceIsSettled();
  }

  /** A resource is reported missing exactly when it was not reached and either could have been observed or has a
      type that a full discovery no longer lists. */
  lemma MissingIsJustified(desired: DesiredMap, scope: Scope, cache: ClusterCache, discoveryHealthy: bool,
                           resolver: Resolver, discovered: seq<Discovered>, m: Monitored, k: ResourceKey)
    requires Classified(desired, scope, cache, discoveryHealthy, resolver, discovered, m) && k in desired
    ensures desired[k].id in m.missing <==>
            && !Reached(discovered, k)
            && (Observable(desired[k], scope, cache)
                || (discoveryHealthy && desired[k].typeMeta.ToGroupKind() !in cache.apiResources))
  {
    assert ClassifiedAt(desired, scope, cache, discoveryHealthy, resolver, discovered, m, k);
  }

  /** A rescan leaves the instance consistent exactly when none of the resources it refused to look for turned up
      anyway, as a descendant of another: such a resource is both unknown and present. */
  lemma RescanIsConsistentIff(s: Instance, scope: Scope, cache: ClusterCache, discoveryHealthy: bool,
                              resolver: Resolver, discovered: seq<Discovered>, m: Monitored)
    requires DistinctIds(s.desired) && (forall i :: 0 <= i < |discovered| ==> discovered[i].resource.WellFormed())
    requires Classified(s.desired, scope, cache, discoveryHealthy, resolver, discovered, m)
    ensures Consistent(WithMonitored(s, m.present, m.children, m.missing, m.unknown)) <==>
            forall k :: k in s.desired && Refusal(s.desired[k], scope, cache, discoveryHealthy).Some? ==>
                     !Reached(discovered, k)
  {
    var t := WithMonitored(s, m.present, m.children, m.missing, m.unknown);
    if k :| k in s.desired && Refusal(s.desired[k], scope, cache, discoveryHealthy).Some? && Reached(discovered, k) {
      assert ClassifiedAt(s.desired, scope, cache, discoveryHealthy, resolver, discovered, m, k);
      assert !ConsistentAt(t, k);
    } else {
      forall k ensures ConsistentAt(t, k) {
        if k in s.desired {
          assert ClassifiedAt(s.desired, scope, cache, discoveryHealthy, resolver, discovered, m, k);
          ClassifiedOnce(s, scope, cache, discoveryHealthy, resolver, discovered, m, k);
        }
        RescanTracks(s, scope, cache, discoveryHealthy, resolver, discovered, m, k);
      }
    }
  }

  lemma ClassifiedOnce(s: Instance, scope: Scope, cache: ClusterCache, discoveryHealthy: bool, resolver: Resolver,
                       discovered: seq<Discovered>, m: Monitored, k: ResourceKey)
    requires k in s.desired && (forall i :: 0 <= i < |discovered| ==> discovered[i].resource.WellFormed())
    requires ClassifiedAt(s.desired, scope, cache, discoveryHealthy, resolver, discovered, m, k)
    requires Refusal(s.desired[k], scope, cache, discoveryHealthy).Some? ==> !Reached(discovered, k)
    ensures var t := WithMonitored(s, m.present, m.children, m.missing, m.unknown);
            InExactlyOne(t, s.desired[k].id) && RecordedUnder(t, k)
  {
  }

  lemma RescanTracks(s: Instance, scope: Scope, cache: ClusterCache, discoveryHealthy: bool, resolver: Resolver,
                     discovered: seq<Discovered>, m: Monitored, k: ResourceKey)
    requires DistinctIds(s.desired) && (forall i :: 0 <= i < |discovered| ==> discovered[i].resource.WellFormed())
    requires Classified(s.desired, scope, cache, discoveryHealthy, resolver, discovered, m)
    ensures var t := WithMonitored(s, m.present, m.children, m.missing, m.unknown);
            (k in t.tracked <==> IsMonitored(t, k))
            && (k in t.children ==> t.children[k].ref.Key() == k && k !in s.desired)
  {
    RescannedPresentKeys(s, scope, cache, discoveryHealthy, resolver, discovered, m, k);
    RescannedChildKeys(s.desired, resolver, discovered, m.children);
  }

  lemma RescannedChildKeys(desired: DesiredMap, resolver: Resolver, discovered: seq<Discovered>, children: ChildMap)
    requires ChildrenFound(desired, resolver, discovered, children)
    ensures ChildKeys(children) == children.Keys
    ensures forall k :: k in children ==> children[k].ref.Key() == k && k !in desired
  {
    forall k | k in children ensures children[k].ref.Key() == k {
      assert ChildAsFound(resolver, discovered, children, k);
    }
  }

  lemma RescannedPresentKeys(s: Instance, scope: Scope, cache: ClusterCache, discoveryHealthy: bool, resolver: Resolver,
                             discovered: seq<Discovered>, m: Monitored, k: ResourceKey)
    requires forall i :: 0 <= i < |discovered| ==> discovered[i].resource.WellFormed()
    requires Classified(s.desired, scope, cache, discoveryHealthy, resolver, discovered, m)
    ensures k in PresentKeys(m.present) <==> k in s.desired && s.desired[k].id in m.present
  {
    if k in PresentKeys(m.present) {
      var id :| id in m.present && m.present[id].ref.Key() == k;
      var j :| j in s.desired && s.desired[j].id == id;
      assert ClassifiedAt(s.desired, scope, cache, discoveryHealthy, resolver, discovered, m, j);
    }
    if k in s.desired && s.desired[k].id in m.present {
      assert ClassifiedAt(s.desired, scope, cache, discoveryHealthy, resolver, discovered, m, k);
    }
  }

  // ---------- namespace-scoped mode ----------

  /** Configuration drops empty namespaces, and namespace-scoped mode means some are configured. */
  predicate ValidScope(scope: Scope) {
    "" !in scope.targetNamespaces && (scope.namespaceScopedMode ==> scope.targetNamespaces != {})
  }

  /** In namespace-scoped mode one manifest without a namespace would fail the whole batch. None is ever in it: every
      manifest names a configured namespace and belongs to a resource whose type the cluster still knows. */
  lemma BatchIsNamespaced(desired: DesiredMap, scope: Scope, cache: ClusterCache, discoveryHealthy: bool, trace: Trace,
                          t: Manifest)
    requires AllSettled(desired) && ValidScope(scope) && scope.namespaceScopedMode
    requires IsTrace(desired, scope, cache, discoveryHealthy, trace) && t in trace.targets
    ensures t.namespace != "" && t.namespace in scope.targetNamespaces
    ensures exists k ::
              && k in desired && desired[k].manifest == Some(t) && !desired[k].isClusterScoped
              && desired[k].typeMeta.ToGroupKind() in cache.apiResources
  {
    var k :| k in desired && IsTarget(desired[k], scope, cache, discoveryHealthy) && desired[k].manifest == Some(t);
    assert desired[k].NamespaceIsSettled();
  }
}
