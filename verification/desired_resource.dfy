/** The resources Octopus expects, and how each finds out whether it lives in a namespace. */
module DesiredResources {
  import opened Kubernetes

  type DesiredResourceId = string
  type Version = string

  /** Which resource types are namespaced, as discovery reports them. */
  type NamespacedMap = map<TypeMeta, bool>

  /** A snapshot of a desired resource. */
  datatype Desired = Desired(
    id: DesiredResourceId,
    name: string,
    typeMeta: TypeMeta,
    assumedNamespace: string,
    version: Option<Version>,
    namespace: string,
    isNamespaceResolved: bool,
    isClusterScoped: bool,
    manifest: Option<Manifest>)
  {
    /** The assumed namespace stands in until the real one is known. */
    function Key(): ResourceKey {
      var gk := typeMeta.ToGroupKind();
      ResourceKey(gk.group, gk.kind, if isNamespaceResolved then namespace else assumedNamespace, name)
    }

    function Resolve(namespacedMap: NamespacedMap): (r: Desired)
      ensures r.id == id && r.name == name && r.typeMeta == typeMeta
    {
      if isNamespaceResolved || typeMeta !in namespacedMap then this
      else if namespacedMap[typeMeta] then
        this.(namespace := assumedNamespace, isNamespaceResolved := true,
              manifest := if manifest.Some? && manifest.value.namespace == "" && assumedNamespace != ""
                          then Some(manifest.value.(namespace := assumedNamespace)) else manifest)
      else
        this.(isClusterScoped := true, isNamespaceResolved := true)
    }

    /** Whether a pass leaves the namespace resolved. */
    predicate CanResolve(namespacedMap: NamespacedMap) {
      isNamespaceResolved || typeMeta in namespacedMap
    }

    /** As commands deliver it. */
    predicate Fresh() {
      !isNamespaceResolved && !isClusterScoped && namespace == ""
    }

    /** Any namespaced manifest names a namespace, unless none is known at all. */
    predicate NamespaceIsSettled() {
      && (!isNamespaceResolved ==> Fresh())
      && (isClusterScoped ==> namespace == "")
      && (isNamespaceResolved && !isClusterScoped ==>
            namespace == assumedNamespace
            && (manifest.Some? && manifest.value.namespace == "" ==> assumedNamespace == ""))
    }

    predicate MatchesAny(ids: seq<DesiredResourceId>) {
      id in ids
    }

    predicate IsOtherVersion(versionToKeep: Version) {
      version.Some? && version.value != versionToKeep
    }
  }

  /** Once a namespace is resolved no later pass changes the resource; until then nothing has changed at all. */
  lemma ResolutionIsFinal(d: Desired, first: NamespacedMap, second: NamespacedMap)
    ensures d.Resolve(first).isNamespaceResolved ==> d.Resolve(first).Resolve(second) == d.Resolve(first)
    ensures !d.Resolve(first).isNamespaceResolved ==>
              d.Resolve(first) == d && d.Resolve(first).Resolve(second) == d.Resolve(second)
  {
  }

  /** Resolution moves a resource to another key exactly when its type turns out to be cluster-scoped although
      Octopus assumed a namespace for it. */
  lemma ResolutionRekeys(d: Desired, namespacedMap: NamespacedMap)
    requires d.Fresh()
    ensures d.Resolve(namespacedMap).Key() != d.Key() <==>
            d.typeMeta in namespacedMap && !namespacedMap[d.typeMeta] && d.assumedNamespace != ""
  {
  }

  function ResolveThrough(d: Desired, passes: seq<NamespacedMap>): Desired
    decreases |passes|
  {
    if passes == [] then d else ResolveThrough(d.Resolve(passes[0]), passes[1..])
  }

  /** However many passes it takes, a fresh resource ends up settled under the same identity. */
  lemma {:induction false} ResolutionSettles(d: Desired, passes: seq<NamespacedMap>)
    requires d.NamespaceIsSettled()
    ensures var r := ResolveThrough(d, passes);
            && r.NamespaceIsSettled() && r.id == d.id
            && (r.isNamespaceResolved <==> d.isNamespaceResolved || exists p :: p in passes && d.typeMeta in p)
            && (!r.isNamespaceResolved ==> r == d)
    decreases |passes|
  {
    if passes != [] {
      ResolutionSettles(d.Resolve(passes[0]), passes[1..]);
      assert forall p :: p in passes <==> p == passes[0] || p in passes[1..];
    }
  }

  /** A resource is stored under the key of the live object with its type and name, in the namespace it is known to have
      or, until that is known, the assumed one. */
  lemma KeyIsOfObjectIff(d: Desired, obj: ObjectRef)
    requires d.typeMeta.apiVersion.GroupVersion? && obj.typeMeta.apiVersion.GroupVersion?
    ensures d.Key() == obj.Key() <==>
            && d.typeMeta.apiVersion.group == obj.typeMeta.apiVersion.group && d.typeMeta.kind == obj.typeMeta.kind
            && d.name == obj.name
            && obj.namespace == if d.isNamespaceResolved then d.namespace else d.assumedNamespace
  {
  }

  /** The first pass that knows the type of a resource. */
  ghost predicate Decides(d: Desired, passes: seq<NamespacedMap>, i: nat) {
    i < |passes| && d.typeMeta in passes[i] && forall j :: 0 <= j < i ==> d.typeMeta !in passes[j]
  }

  /** What a resource should be once a pass has said whether its type is namespaced: in the assumed namespace, which its
      manifest names too unless it names one itself; or in none. */
  predicate SettledAs(d: Desired, r: Desired, namespaced: bool) {
    && r.isNamespaceResolved && r.isClusterScoped == !namespaced
    && r.namespace == (if namespaced then d.assumedNamespace else "")
    && (r.manifest.Some? <==> d.manifest.Some?)
    && (d.manifest.Some? ==>
          && r.manifest.value.typeMeta == d.manifest.value.typeMeta && r.manifest.value.body == d.manifest.value.body
          && r.manifest.value.namespace ==
             if d.manifest.value.namespace == "" && namespaced then d.assumedNamespace else d.manifest.value.namespace)
  }

  predicate SameIdentity(d: Desired, r: Desired) {
    && r.id == d.id && r.name == d.name && r.typeMeta == d.typeMeta && r.version == d.version
    && r.assumedNamespace == d.assumedNamespace
  }

  /** Nothing happens to a fresh resource until a pass knows its type; that pass settles it for good. */
  lemma {:induction false} FirstKnowingPassDecides(d: Desired, passes: seq<NamespacedMap>)
    requires d.Fresh()
    ensures SameIdentity(d, ResolveThrough(d, passes))
    ensures forall i: nat :: Decides(d, passes, i) ==> SettledAs(d, ResolveThrough(d, passes), passes[i][d.typeMeta])
    ensures (forall i: nat :: !Decides(d, passes, i)) ==> ResolveThrough(d, passes) == d
    decreases |passes|
  {
    if passes != [] {
      var r, rest := d.Resolve(passes[0]), passes[1..];
      if d.typeMeta in passes[0] {
        ResolvedStays(r, rest);
        assert Decides(d, passes, 0);
      } else {
        FirstKnowingPassDecides(d, rest);
        forall i: nat ensures Decides(d, rest, i) <==> Decides(d, passes, i + 1) {
          if i < |rest| {
            assert forall j :: 0 <= j < i ==> rest[j] == passes[j + 1];
            assert forall j :: 1 <= j < i + 1 ==> passes[j] == rest[j - 1];
          }
        }
        forall i: nat | Decides(d, passes, i)
          ensures SettledAs(d, ResolveThrough(d, passes), passes[i][d.typeMeta])
        {
          assert Decides(d, rest, i - 1);
        }
      }
    }
  }

  lemma {:induction false} ResolvedStays(d: Desired, passes: seq<NamespacedMap>)
    requires d.isNamespaceResolved
    ensures ResolveThrough(d, passes) == d
    decreases |passes|
  {
    if passes != [] {
      ResolvedStays(d, passes[1..]);
    }
  }

  class DesiredResource {
    const id: DesiredResourceId
    const name: string
    const typeMeta: TypeMeta
    const assumedNamespace: string
    const version: Option<Version>
    var namespace: string
    var isNamespaceResolved: bool
    var isClusterScoped: bool
    var manifest: Option<Manifest>

    constructor (d: Desired)
      ensures View() == d
    {
      id, name, typeMeta, assumedNamespace, version := d.id, d.name, d.typeMeta, d.assumedNamespace, d.version;
      namespace, isNamespaceResolved, isClusterScoped, manifest :=
        d.namespace, d.isNamespaceResolved, d.isClusterScoped, d.manifest;
    }

    function View(): Desired
      reads this
    {
      Desired(id, name, typeMeta, assumedNamespace, version, namespace, isNamespaceResolved, isClusterScoped, manifest)
    }

    function ResourceKey(): ResourceKey
      reads this
    {
      View().Key()
    }

    method ResolveNamespace(namespacedMap: NamespacedMap) returns (resolved: bool)
      modifies this
      ensures View() == old(View()).Resolve(namespacedMap)
      ensures resolved == isNamespaceResolved
    {
      if !isNamespaceResolved {
        if typeMeta !in namespacedMap {
          return false;
        }
        if namespacedMap[typeMeta] {
          namespace := assumedNamespace;
          if manifest.Some? && manifest.value.namespace == "" && assumedNamespace != "" {
            manifest := Some(manifest.value.(namespace := assumedNamespace));
          }
        } else {
          isClusterScoped := true;
        }
        isNamespaceResolved := true;
      }
      return true;
    }
  }

  // ---------- maps of desired resources ----------

  type DesiredMap = map<ResourceKey, Desired>

  /** The resources as they are now, by value. */
  function Views(desired: map<ResourceKey, DesiredResource>): (views: DesiredMap)
    reads desired.Values
    ensures views.Keys == desired.Keys
  {
    map k | k in desired :: desired[k].View()
  }

  /** The map's entries are among the objects, and views says what they are now. */
  ghost predicate Viewed(desired: map<ResourceKey, DesiredResource>, objects: set<DesiredResource>, views: DesiredMap)
    reads objects
  {
    && views.Keys == desired.Keys
    && (forall k :: k in desired ==> EntryViewed(desired[k], objects, views[k]))
  }

  ghost predicate EntryViewed(entry: DesiredResource, objects: set<DesiredResource>, view: Desired)
    reads objects
  {
    entry in objects && entry.View() == view
  }

  lemma ViewsAre(desired: map<ResourceKey, DesiredResource>, objects: set<DesiredResource>, views: DesiredMap)
    requires Viewed(desired, objects, views)
    ensures Views(desired) == views
  {
  }

  ghost predicate WellKeyed(desired: DesiredMap) {
    forall k :: k in desired ==> desired[k].Key() == k
  }

  ghost predicate DistinctIds(desired: DesiredMap) {
    forall j, k :: j in desired && k in desired && desired[j].id == desired[k].id ==> j == k
  }

  /** The entries a pass can't resolve. */
  function Unresolvable(desired: DesiredMap, namespacedMap: NamespacedMap): set<ResourceKey> {
    set k | k in desired && !desired[k].CanResolve(namespacedMap)
  }

  ghost predicate AllSettled(desired: DesiredMap) {
    forall k :: k in desired ==> desired[k].NamespaceIsSettled()
  }

  /** Where an entry belongs after a pass: under its resolved key, or where it was while unresolved. */
  function KeyAfterPass(key: ResourceKey, d: Desired, namespacedMap: NamespacedMap): ResourceKey {
    var r := d.Resolve(namespacedMap);
    if r.isNamespaceResolved then r.Key() else key
  }

  /** The map after a pass holds the pass's result of some entry wherever any entry belongs, and nothing else; of
      several entries that belong under one key, one survives. */
  ghost predicate Rekeyed(before: DesiredMap, namespacedMap: NamespacedMap, after: DesiredMap) {
    && (forall k :: k in before ==> KeyAfterPass(k, before[k], namespacedMap) in after)
    && (forall k {:trigger ComesFrom(before, namespacedMap, k, after[k])} :: k in after ==>
          ComesFrom(before, namespacedMap, k, after[k]))
  }

  ghost predicate ComesFrom(before: DesiredMap, namespacedMap: NamespacedMap, key: ResourceKey, d: Desired) {
    exists j :: j in before && KeyAfterPass(j, before[j], namespacedMap) == key && before[j].Resolve(namespacedMap) == d
  }

  /** A pass reports that all is resolved exactly if every entry is, and then nothing unresolved is left. */
  lemma AllResolvedIff(before: DesiredMap, namespacedMap: NamespacedMap, after: DesiredMap)
    requires Rekeyed(before, namespacedMap, after)
    ensures Unresolvable(before, namespacedMap) == {} <==>
            forall k :: k in before ==> before[k].isNamespaceResolved || before[k].typeMeta in namespacedMap
    ensures Unresolvable(before, namespacedMap) == {} ==> forall k :: k in after ==> after[k].isNamespaceResolved
  {
    if Unresolvable(before, namespacedMap) == {} {
      forall k | k in before ensures before[k].CanResolve(namespacedMap) {
        assert k !in Unresolvable(before, namespacedMap);
      }
      forall k | k in after ensures after[k].isNamespaceResolved {
        assert ComesFrom(before, namespacedMap, k, after[k]);
      }
    }
  }

  /** A pass keeps the map keyed by its entries' current keys. */
  lemma PassKeepsKeys(before: DesiredMap, namespacedMap: NamespacedMap, after: DesiredMap)
    requires WellKeyed(before) && Rekeyed(before, namespacedMap, after)
    ensures WellKeyed(after)
    ensures AllSettled(before) ==> AllSettled(after)
  {
    forall k | k in after ensures after[k].Key() == k && (AllSettled(before) ==> after[k].NamespaceIsSettled()) {
      assert ComesFrom(before, namespacedMap, k, after[k]);
    }
  }

  /** An entry is lost only to another entry with the same resolved key. */
  lemma LostOnlyToACollision(before: DesiredMap, namespacedMap: NamespacedMap, after: DesiredMap, k: ResourceKey)
    requires WellKeyed(before) && Rekeyed(before, namespacedMap, after) && k in before
    ensures var r := before[k].Resolve(namespacedMap);
            && r.Key() in after
            && (after[r.Key()] != r ==>
                  exists j :: j in before && j != k && before[j].Resolve(namespacedMap).Key() == r.Key()
                              && before[j].Resolve(namespacedMap) == after[r.Key()])
  {
    var r := before[k].Resolve(namespacedMap);
    assert KeyAfterPass(k, before[k], namespacedMap) == r.Key();
    assert ComesFrom(before, namespacedMap, r.Key(), after[r.Key()]);
    var j :| j in before && KeyAfterPass(j, before[j], namespacedMap) == r.Key()
             && before[j].Resolve(namespacedMap) == after[r.Key()];
    assert before[j].Resolve(namespacedMap).Key() == r.Key();
  }

  /** Entries with the same id end up under the same key. */
  ghost predicate SameIdsMeet(before: DesiredMap, namespacedMap: NamespacedMap) {
    forall j, k :: j in before && k in before && before[j].id == before[k].id ==>
      KeyAfterPass(j, before[j], namespacedMap) == KeyAfterPass(k, before[k], namespacedMap)
  }

  /** Ids are distinct after a pass if they were before, because entries are only ever dropped, and also if a resource
      was sent again while still stored under its unresolved key and the pass brings the two together. */
  lemma PassLeavesIdsDistinct(before: DesiredMap, namespacedMap: NamespacedMap, after: DesiredMap)
    requires SameIdsMeet(before, namespacedMap) && Rekeyed(before, namespacedMap, after)
    ensures DistinctIds(after)
  {
    forall j, k | j in after && k in after && after[j].id == after[k].id ensures j == k {
      assert ComesFrom(before, namespacedMap, j, after[j]) && ComesFrom(before, namespacedMap, k, after[k]);
      var j0 :| j0 in before && KeyAfterPass(j0, before[j0], namespacedMap) == j
                && before[j0].Resolve(namespacedMap) == after[j];
      var k0 :| k0 in before && KeyAfterPass(k0, before[k0], namespacedMap) == k
                && before[k0].Resolve(namespacedMap) == after[k];
      assert before[j0].id == before[k0].id;
    }
  }

  /** Each entry has either been through the pass or is still waiting; entries may share an object. */
  ghost predicate PartWay(desired: map<ResourceKey, DesiredResource>, objects: set<DesiredResource>, before: DesiredMap,
                          namespacedMap: NamespacedMap, todo: set<ResourceKey>)
    reads objects
  {
    && before.Keys == desired.Keys
    && (forall k :: k in desired ==>
          desired[k] in objects && PassedAt(desired[k], before[k], namespacedMap, k !in todo))
  }

  ghost predicate PassedAt(entry: DesiredResource, before: Desired, namespacedMap: NamespacedMap, done: bool)
    reads entry
  {
    entry.View() == before.Resolve(namespacedMap) || (!done && entry.View() == before)
  }

  /** Entries that share an object look the same. */
  ghost predicate SharedLookSame(desired: map<ResourceKey, DesiredResource>, before: DesiredMap)
    requires before.Keys == desired.Keys
  {
    forall j, k :: j in desired && k in desired && desired[j] == desired[k] ==> before[j] == before[k]
  }

  /** Puts one entry through the pass, leaving the others where they are, and says where it belongs now. */
  method ResolveEntry(desired: map<ResourceKey, DesiredResource>, ghost objects: set<DesiredResource>,
                      ghost before: DesiredMap, namespacedMap: NamespacedMap, ghost todo: set<ResourceKey>,
                      key: ResourceKey)
    returns (found: bool, newKey: ResourceKey)
    requires key in desired && key in todo
    requires PartWay(desired, objects, before, namespacedMap, todo) && SharedLookSame(desired, before)
    modifies objects
    ensures PartWay(desired, objects, before, namespacedMap, todo - {key})
    ensures found == before[key].CanResolve(namespacedMap)
    ensures newKey == KeyAfterPass(key, before[key], namespacedMap)
  {
    var entry := desired[key];
    assert PassedAt(entry, before[key], namespacedMap, false);
    found := entry.ResolveNamespace(namespacedMap);
    newKey := if found then entry.ResourceKey() else key;
    assert entry.View() == before[key].Resolve(namespacedMap);
    forall k | k in desired ensures PassedAt(desired[k], before[k], namespacedMap, k !in todo - {key}) {
      assert old(PassedAt(desired[k], before[k], namespacedMap, k !in todo));
    }
  }

  /** Every entry processed so far is under the key it belongs under, or was displaced by another that is. Source
      says which entry each key now holds, and after what it looks like. */
  ghost predicate Placed(desired: map<ResourceKey, DesiredResource>, before: DesiredMap, namespacedMap: NamespacedMap,
                         todo: set<ResourceKey>, resolved: map<ResourceKey, DesiredResource>,
                         source: map<ResourceKey, ResourceKey>, after: DesiredMap)
    requires before.Keys == desired.Keys
  {
    && (forall k :: k in desired && k !in todo ==> KeyAfterPass(k, before[k], namespacedMap) in after)
    && source.Keys == resolved.Keys == after.Keys
    && (forall k :: k in source ==> PlacedAt(desired, before, namespacedMap, todo, source[k], k, resolved[k], after[k]))
  }

  ghost predicate PlacedAt(desired: map<ResourceKey, DesiredResource>, before: DesiredMap, namespacedMap: NamespacedMap,
                           todo: set<ResourceKey>, j: ResourceKey, k: ResourceKey, entry: DesiredResource,
                           view: Desired)
    requires before.Keys == desired.Keys
  {
    && j in desired && j !in todo && entry == desired[j]
    && KeyAfterPass(j, before[j], namespacedMap) == k && before[j].Resolve(namespacedMap) == view
  }

  lemma PlaceOne(desired: map<ResourceKey, DesiredResource>, before: DesiredMap, namespacedMap: NamespacedMap,
                 todo: set<ResourceKey>, resolved: map<ResourceKey, DesiredResource>,
                 source: map<ResourceKey, ResourceKey>, after: DesiredMap, key: ResourceKey, newKey: ResourceKey)
    requires before.Keys == desired.Keys && key in todo && key in desired
    requires newKey == KeyAfterPass(key, before[key], namespacedMap)
    requires Placed(desired, before, namespacedMap, todo, resolved, source, after)
    ensures Placed(desired, before, namespacedMap, todo - {key}, resolved[newKey := desired[key]],
                   source[newKey := key],
                   after[newKey := before[key].Resolve(namespacedMap)])
  {
    var source' := source[newKey := key];
    forall k | k in source' && k != newKey
      ensures PlacedAt(desired, before, namespacedMap, todo - {key}, source[k], k, resolved[k], after[k])
    {
      assert PlacedAt(desired, before, namespacedMap, todo, source[k], k, resolved[k], after[k]);
    }
  }

  lemma PlacedIsRekeyed(desired: map<ResourceKey, DesiredResource>, before: DesiredMap, namespacedMap: NamespacedMap,
                        resolved: map<ResourceKey, DesiredResource>, source: map<ResourceKey, ResourceKey>,
                        after: DesiredMap)
    requires before.Keys == desired.Keys && Placed(desired, before, namespacedMap, {}, resolved, source, after)
    ensures Rekeyed(before, namespacedMap, after)
  {
    forall k | k in after ensures ComesFrom(before, namespacedMap, k, after[k]) {
      assert PlacedAt(desired, before, namespacedMap, {}, source[k], k, resolved[k], after[k]);
    }
  }

  lemma PlacedIsViewed(desired: map<ResourceKey, DesiredResource>, objects: set<DesiredResource>, before: DesiredMap,
                       namespacedMap: NamespacedMap, resolved: map<ResourceKey, DesiredResource>,
                       source: map<ResourceKey, ResourceKey>, after: DesiredMap)
    requires PartWay(desired, objects, before, namespacedMap, {})
    requires Placed(desired, before, namespacedMap, {}, resolved, source, after)
    ensures Viewed(resolved, objects, after)
  {
    forall k | k in resolved ensures EntryViewed(resolved[k], objects, after[k]) {
      assert PlacedAt(desired, before, namespacedMap, {}, source[k], k, resolved[k], after[k]);
      EntryIsViewed(desired, objects, before, namespacedMap, source[k]);
    }
  }

  lemma EntryIsViewed(desired: map<ResourceKey, DesiredResource>, objects: set<DesiredResource>, before: DesiredMap,
                      namespacedMap: NamespacedMap, j: ResourceKey)
    requires PartWay(desired, objects, before, namespacedMap, {}) && j in desired
    ensures EntryViewed(desired[j], objects, before[j].Resolve(namespacedMap))
  {
    assert PassedAt(desired[j], before[j], namespacedMap, j !in {});
  }

  lemma NothingDoneYet(desired: map<ResourceKey, DesiredResource>, objects: set<DesiredResource>, before: DesiredMap,
                       namespacedMap: NamespacedMap)
    requires Viewed(desired, objects, before)
    ensures PartWay(desired, objects, before, namespacedMap, desired.Keys) && SharedLookSame(desired, before)
  {
    forall k | k in desired ensures desired[k] in objects && PassedAt(desired[k], before[k], namespacedMap, false) {
      assert EntryViewed(desired[k], objects, before[k]);
    }
    forall j, k | j in desired && k in desired && desired[j] == desired[k] ensures before[j] == before[k] {
      assert EntryViewed(desired[j], objects, before[j]) && EntryViewed(desired[k], objects, before[k]);
    }
  }

  /** Resolves every entry in place and rebuilds the map under the resulting keys. */
  method ResolveNamespaces(desired: map<ResourceKey, DesiredResource>, ghost objects: set<DesiredResource>,
                           ghost before: DesiredMap, namespacedMap: NamespacedMap)
    returns (resolved: map<ResourceKey, DesiredResource>, ghost after: DesiredMap, allResolved: bool)
    requires Viewed(desired, objects, before)
    modifies objects
    ensures Viewed(resolved, objects, after) && Rekeyed(before, namespacedMap, after)
    ensures allResolved <==> Unresolvable(before, namespacedMap) == {}
  {
    resolved, after, allResolved := map[], map[], true;
    ghost var source: map<ResourceKey, ResourceKey> := map[];
    ghost var unresolvable := Unresolvable(before, namespacedMap);
    NothingDoneYet(desired, objects, before, namespacedMap);
    var todo := desired.Keys;
    while todo != {}
      invariant todo <= desired.Keys
      invariant PartWay(desired, objects, before, namespacedMap, todo)
      invariant Placed(desired, before, namespacedMap, todo, resolved, source, after)
      invariant allResolved <==> unresolvable <= todo
    {
      var key :| key in todo;
      var found, newKey := ResolveEntry(desired, objects, before, namespacedMap, todo, key);
      PlaceOne(desired, before, namespacedMap, todo, resolved, source, after, key, newKey);
      todo := todo - {key};
      assert found <==> key !in unresolvable;
      allResolved := allResolved && found;
      resolved, source := resolved[newKey := desired[key]], source[newKey := key];
      after := after[newKey := before[key].Resolve(namespacedMap)];
    }
    PlacedIsRekeyed(desired, before, namespacedMap, resolved, source, after);
    PlacedIsViewed(desired, objects, before, namespacedMap, resolved, source, after);
  }
}
