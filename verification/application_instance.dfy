/** One application deployed by Octopus, as its target's goroutine monitors it. */
module ApplicationInstances {
  import opened Kubernetes
  import opened DesiredResources
  import opened MonitoredResources
  import opened RootOwners
  import opened Instances
  import opened Rescans

  /** The ids of the entries under some of the keys. */
  function IdsOf(desired: map<ResourceKey, DesiredResource>, keys: set<ResourceKey>): set<DesiredResourceId> {
    set k | k in keys && k in desired :: desired[k].id
  }

  function Part(desired: map<ResourceKey, DesiredResource>, keys: set<ResourceKey>): map<ResourceKey, DesiredResource> {
    map k | k in desired && k in keys :: desired[k]
  }

  lemma PartStep(before: map<ResourceKey, DesiredResource>, incoming: map<ResourceKey, DesiredResource>,
                 keys: set<ResourceKey>, key: ResourceKey)
    requires key in incoming
    ensures before + Part(incoming, keys + {key}) == (before + Part(incoming, keys))[key := incoming[key]]
  {
  }

  lemma UnknownStep(before: UnknownMap, incoming: map<ResourceKey, DesiredResource>, keys: set<ResourceKey>,
                    key: ResourceKey)
    requires key in incoming
    ensures before + UnknownIds(IdsOf(incoming, keys + {key})) ==
            (before + UnknownIds(IdsOf(incoming, keys)))
              [incoming[key].id := UnknownMonitoredResource(incoming[key].id, Unexplained)]
  {
    assert IdsOf(incoming, keys + {key}) == IdsOf(incoming, keys) + {incoming[key].id};
  }

  lemma IdsAreViewed(desired: map<ResourceKey, DesiredResource>, objects: set<DesiredResource>, views: DesiredMap)
    requires Viewed(desired, objects, views)
    ensures IdsOf(desired, desired.Keys) == Ids(views)
  {
    assert forall k :: k in desired ==> views[k].id == desired[k].View().id == desired[k].id;
  }

  class ApplicationInstance {
    const applicationInstanceId: ApplicationInstanceId
    var desiredResources: map<ResourceKey, DesiredResource>
    var presentMonitoredResources: PresentMap
    var childMonitoredResources: ChildMap
    var missingMonitoredResources: MissingMap
    var unknownMonitoredResources: UnknownMap
    var trackedResourceKeys: set<ResourceKey>

    ghost var desired: DesiredMap // the desired resources as they are, by value
    ghost var objects: set<DesiredResource>

    ghost predicate Valid()
      reads this, objects
    {
      Viewed(desiredResources, objects, desired)
    }

    ghost function State(): Instance
      reads this
    {
      Instance(desired, presentMonitoredResources, childMonitoredResources,
               missingMonitoredResources, unknownMonitoredResources, trackedResourceKeys)
    }

    constructor (id: ApplicationInstanceId)
      ensures applicationInstanceId == id && desiredResources == map[]
      ensures Valid() && State() == Replace(map[]) && objects == {}
    {
      applicationInstanceId := id;
      desiredResources, desired, objects := map[], map[], {};
      presentMonitoredResources, childMonitoredResources := map[], map[];
      missingMonitoredResources, unknownMonitoredResources := map[], map[];
      trackedResourceKeys := {};
    }

    // ---------- resource changes ----------

    method CalculateResourceChange(change: ResourceChange) returns (kind: UpdateKind)
      requires Valid()
      ensures kind == Kind(State(), change)
    {
      if change.newRes.Some? && change.newRes.value.info.key in desiredResources {
        var id := desiredResources[change.newRes.value.info.key].id;
        if id in missingMonitoredResources {
          return DesiredFound;
        }
        if id in presentMonitoredResources {
          return DesiredUpdated;
        }
      }
      if change.newRes.Some? && change.newRes.value.info.key in childMonitoredResources {
        return ChildUpdated;
      }
      if change.oldRes.Some? && change.oldRes.value.info.key in desiredResources {
        if desiredResources[change.oldRes.value.info.key].id in presentMonitoredResources {
          return DesiredRemoved;
        }
      }
      if change.oldRes.Some? && change.oldRes.value.info.key in childMonitoredResources {
        return ChildRemoved;
      }
      if change.newRes.Some? {
        var tracked := HasTrackedOwner(change.newRes.value.info.ownerRefs, change.newRes.value.ref.namespace);
        if tracked {
          return ChildFound;
        }
      }
      return NoChange;
    }

    method HasTrackedOwner(ownerRefs: seq<OwnerRef>, namespace: string) returns (found: bool)
      ensures found <==> OwnerKeys(ownerRefs, namespace) * trackedResourceKeys != {}
    {
      for i := 0 to |ownerRefs|
        invariant forall j :: 0 <= j < i && OwnerRefKey(ownerRefs[j], namespace).Some? ==>
                    OwnerRefKey(ownerRefs[j], namespace).value !in trackedResourceKeys
      {
        var ownerKey := OwnerRefKey(ownerRefs[i], namespace);
        if ownerKey.None? {
          continue;
        }
        if ownerKey.value in trackedResourceKeys {
          assert ownerKey.value in OwnerKeys(ownerRefs, namespace) * trackedResourceKeys;
          return true;
        }
      }
      return false;
    }

    method GetParentResourceId(info: ResourceInfo) returns (parent: Uid)
      requires Valid()
      ensures parent == ParentId(State(), info.ownerRefs, info.key.namespace)
    {
      for i := 0 to |info.ownerRefs|
        invariant ParentId(State(), info.ownerRefs, info.key.namespace) ==
                  ParentId(State(), info.ownerRefs[i..], info.key.namespace)
      {
        var ownerRef := info.ownerRefs[i];
        assert info.ownerRefs[i..][1..] == info.ownerRefs[i + 1..];
        if ownerRef.uid != "" {
          return ownerRef.uid;
        }
        var ownerKey := OwnerRefKey(ownerRef, info.key.namespace);
        if ownerKey.None? {
          return "";
        }
        if ownerKey.value in desiredResources {
          var id := desiredResources[ownerKey.value].id;
          if id in presentMonitoredResources {
            return presentMonitoredResources[id].ref.uid;
          }
        }
        if ownerKey.value in childMonitoredResources {
          return childMonitoredResources[ownerKey.value].ref.uid;
        }
      }
      return "";
    }

    /** The child record for a live resource; finding its root relies on acyclic owners. */
    method DescribeChild(res: Resource, resolver: Resolver) returns (child: ChildMonitoredResource)
      requires Valid() && CanClimb(State(), res)
      ensures child == ChildFor(State(), resolver, res)
    {
      var ownerId := GetParentResourceId(res.info);
      var rootOwnerId := GetRootParentResource(ownerId, childMonitoredResources);
      child := NewChild(res, resolver, ownerId, rootOwnerId);
    }

    method UpsertPresent(p: PresentMonitoredResource)
      modifies this`presentMonitoredResources, this`trackedResourceKeys
      ensures presentMonitoredResources == old(presentMonitoredResources)[p.id := p]
      ensures trackedResourceKeys == old(trackedResourceKeys) + {p.ref.Key()}
    {
      trackedResourceKeys := trackedResourceKeys + {p.ref.Key()};
      presentMonitoredResources := presentMonitoredResources[p.id := p];
    }

    method DeletePresent(id: DesiredResourceId)
      modifies this`presentMonitoredResources, this`trackedResourceKeys
      ensures presentMonitoredResources == old(presentMonitoredResources) - {id}
      ensures trackedResourceKeys == if id in old(presentMonitoredResources)
                                     then old(trackedResourceKeys) - {old(presentMonitoredResources)[id].ref.Key()}
                                     else old(trackedResourceKeys)
    {
      if id in presentMonitoredResources {
        trackedResourceKeys := trackedResourceKeys - {presentMonitoredResources[id].ref.Key()};
        presentMonitoredResources := presentMonitoredResources - {id};
      }
    }

    method UpsertChild(c: ChildMonitoredResource)
      modifies this`childMonitoredResources, this`trackedResourceKeys
      ensures childMonitoredResources == old(childMonitoredResources)[c.ref.Key() := c]
      ensures trackedResourceKeys == old(trackedResourceKeys) + {c.ref.Key()}
    {
      trackedResourceKeys := trackedResourceKeys + {c.ref.Key()};
      childMonitoredResources := childMonitoredResources[c.ref.Key() := c];
    }

    method DeleteChild(key: ResourceKey)
      modifies this`childMonitoredResources, this`trackedResourceKeys
      ensures childMonitoredResources == old(childMonitoredResources) - {key}
      ensures trackedResourceKeys == if key in old(childMonitoredResources)
                                     then old(trackedResourceKeys) - {old(childMonitoredResources)[key].ref.Key()}
                                     else old(trackedResourceKeys)
    {
      if key in childMonitoredResources {
        trackedResourceKeys := trackedResourceKeys - {childMonitoredResources[key].ref.Key()};
        childMonitoredResources := childMonitoredResources - {key};
      }
    }

    method RecordPresent(resolver: Resolver, change: ResourceChange, kind: UpdateKind) returns (update: InstanceChanges)
      requires Valid() && KindFits(State(), change, kind) && (kind == DesiredFound || kind == DesiredUpdated)
      modifies this`presentMonitoredResources, this`missingMonitoredResources, this`trackedResourceKeys
      ensures Valid() && State() == ApplyKind(old(State()), resolver, change, kind)
      ensures AnnounceKind(old(State()), resolver, change, kind) == Some(update)
    {
      var d := desiredResources[change.newRes.value.info.key];
      var p := NewPresent(change.newRes.value, resolver, d.id);
      UpsertPresent(p);
      if kind == DesiredFound {
        missingMonitoredResources := missingMonitoredResources - {d.id};
      }
      return NOTHING.(present := map[p.id := p]);
    }

    method RecordMissing(resolver: Resolver, change: ResourceChange) returns (update: InstanceChanges)
      requires Valid() && KindFits(State(), change, DesiredRemoved)
      modifies this`presentMonitoredResources, this`missingMonitoredResources, this`trackedResourceKeys
      ensures Valid() && State() == ApplyKind(old(State()), resolver, change, DesiredRemoved)
      ensures AnnounceKind(old(State()), resolver, change, DesiredRemoved) == Some(update)
    {
      var m := NewMissing(desiredResources[change.oldRes.value.info.key].View());
      DeletePresent(m.id);
      missingMonitoredResources := missingMonitoredResources[m.id := m];
      return NOTHING.(missing := map[m.id := m]);
    }

    method RecordChild(resolver: Resolver, change: ResourceChange, kind: UpdateKind) returns (update: InstanceChanges)
      requires Valid() && KindFits(State(), change, kind) && (kind == ChildFound || kind == ChildUpdated)
      requires CanClimb(State(), change.newRes.value)
      modifies this`childMonitoredResources, this`trackedResourceKeys
      ensures Valid() && State() == ApplyKind(old(State()), resolver, change, kind)
      ensures AnnounceKind(old(State()), resolver, change, kind) == Some(update)
    {
      var c := DescribeChild(change.newRes.value, resolver);
      UpsertChild(c);
      return NOTHING.(children := map[change.newRes.value.info.key := c]);
    }

    method ForgetChild(resolver: Resolver, change: ResourceChange) returns (update: InstanceChanges)
      requires Valid() && KindFits(State(), change, ChildRemoved)
      modifies this`childMonitoredResources, this`trackedResourceKeys
      ensures Valid() && State() == ApplyKind(old(State()), resolver, change, ChildRemoved)
      ensures AnnounceKind(old(State()), resolver, change, ChildRemoved) == Some(update)
    {
      var key := change.oldRes.value.info.key;
      DeleteChild(key);
      return NOTHING.(deletedChildren := {key});
    }

    /** Updates the instance to match one change and says what to report, if anything. */
    method GetChangesForUpdatedResource(resolver: Resolver, change: ResourceChange)
      returns (update: Option<InstanceChanges>)
      requires Valid() && RootsReachable(State(), change)
      modifies this`presentMonitoredResources, this`childMonitoredResources, this`missingMonitoredResources,
               this`trackedResourceKeys
      ensures Valid() && State() == Apply(old(State()), resolver, change)
      ensures update == Announce(old(State()), resolver, change)
    {
      var kind := CalculateResourceChange(change);
      var u;
      match kind {
        case NoChange =>
          return None;
        case DesiredFound | DesiredUpdated =>
          u := RecordPresent(resolver, change, kind);
        case DesiredRemoved =>
          u := RecordMissing(resolver, change);
        case ChildFound | ChildUpdated =>
          u := RecordChild(resolver, change, kind);
        case ChildRemoved =>
          u := ForgetChild(resolver, change);
      }
      return Some(u);
    }

    // ---------- commands ----------

    method MergeDesiredResources(incoming: map<ResourceKey, DesiredResource>,
                                 ghost incomingObjects: set<DesiredResource>, ghost views: DesiredMap)
      requires Valid() && Viewed(incoming, incomingObjects, views)
      modifies this`desiredResources, this`desired, this`objects, this`unknownMonitoredResources
      ensures objects == old(objects) + incomingObjects
      ensures Valid() && State() == Merge(old(State()), views)
    {
      UpsertDesired(incoming);
      IdsAreViewed(incoming, incomingObjects, views);
      desired, objects := desired + views, objects + incomingObjects;
      forall k | k in desiredResources ensures EntryViewed(desiredResources[k], objects, desired[k]) {
        assert k !in incoming ==> old(EntryViewed(desiredResources[k], objects, desired[k]));
        assert k in incoming ==> EntryViewed(incoming[k], incomingObjects, views[k]);
      }
    }

    method UpsertDesired(incoming: map<ResourceKey, DesiredResource>)
      modifies this`desiredResources, this`unknownMonitoredResources
      ensures desiredResources == old(desiredResources) + incoming
      ensures unknownMonitoredResources == old(unknownMonitoredResources) + UnknownIds(IdsOf(incoming, incoming.Keys))
    {
      var todo := incoming.Keys;
      while todo != {}
        invariant todo <= incoming.Keys
        invariant desiredResources == old(desiredResources) + Part(incoming, incoming.Keys - todo)
        invariant unknownMonitoredResources ==
                  old(unknownMonitoredResources) + UnknownIds(IdsOf(incoming, incoming.Keys - todo))
      {
        var key :| key in todo;
        PartStep(old(desiredResources), incoming, incoming.Keys - todo, key);
        UnknownStep(old(unknownMonitoredResources), incoming, incoming.Keys - todo, key);
        assert incoming.Keys - (todo - {key}) == (incoming.Keys - todo) + {key};
        todo := todo - {key};
        var id := incoming[key].id;
        unknownMonitoredResources := unknownMonitoredResources[id := UnknownMonitoredResource(id, Unexplained)];
        desiredResources := desiredResources[key := incoming[key]];
      }
      assert Part(incoming, incoming.Keys) == incoming;
    }

    method ReplaceMonitoredResources(m: Monitored)
      modifies this`presentMonitoredResources, this`childMonitoredResources, this`missingMonitoredResources,
               this`unknownMonitoredResources, this`trackedResourceKeys
      ensures presentMonitoredResources == m.present && childMonitoredResources == m.children
      ensures missingMonitoredResources == m.missing && unknownMonitoredResources == m.unknown
      ensures trackedResourceKeys == PresentKeys(m.present) + ChildKeys(m.children)
    {
      presentMonitoredResources, childMonitoredResources := m.present, m.children;
      missingMonitoredResources, unknownMonitoredResources := m.missing, m.unknown;
      var presentKeys := set id | id in presentMonitoredResources :: presentMonitoredResources[id].ref.Key();
      var childKeys := set k | k in childMonitoredResources :: childMonitoredResources[k].ref.Key();
      trackedResourceKeys := presentKeys + childKeys;
    }

    method ReplaceDesiredResources(incoming: map<ResourceKey, DesiredResource>,
                                   ghost incomingObjects: set<DesiredResource>, ghost views: DesiredMap)
      requires Viewed(incoming, incomingObjects, views)
      modifies this
      ensures objects == incomingObjects
      ensures Valid() && State() == Replace(views)
    {
      desiredResources, desired, objects := incoming, views, incomingObjects;
      var unknown := AllUnknown(incoming);
      IdsAreViewed(incoming, incomingObjects, views);
      ReplaceMonitoredResources(Monitored(map[], map[], map[], unknown));
    }

    method AllUnknown(incoming: map<ResourceKey, DesiredResource>) returns (unknown: UnknownMap)
      ensures unknown == UnknownIds(IdsOf(incoming, incoming.Keys))
    {
      unknown := map[];
      var todo := incoming.Keys;
      while todo != {}
        invariant todo <= incoming.Keys
        invariant unknown == map[] + UnknownIds(IdsOf(incoming, incoming.Keys - todo))
      {
        var key :| key in todo;
        UnknownStep(map[], incoming, incoming.Keys - todo, key);
        assert incoming.Keys - (todo - {key}) == (incoming.Keys - todo) + {key};
        todo := todo - {key};
        unknown := unknown[incoming[key].id := UnknownMonitoredResource(incoming[key].id, Unexplained)];
      }
    }

    method DeleteDesiredResources(ids: seq<DesiredResourceId>)
      requires Valid()
      modifies this`desiredResources, this`desired
      ensures Valid() && State() == DeleteIds(old(State()), ids)
    {
      desiredResources := map k | k in desiredResources && desiredResources[k].id !in ids :: desiredResources[k];
      desired := DeleteIds(State(), ids).desired;
      assert forall k :: k in old(desiredResources) ==> old(desired)[k].id == old(desiredResources[k].View()).id;
    }

    method DeleteDesiredResourcesExceptForVersion(versionToKeep: Version)
      requires Valid()
      modifies this`desiredResources, this`desired
      ensures Valid() && State() == DeleteOtherVersions(old(State()), versionToKeep)
    {
      desiredResources := map k | k in desiredResources && Keeps(desiredResources[k].version, versionToKeep)
                              :: desiredResources[k];
      desired := DeleteOtherVersions(State(), versionToKeep).desired;
      assert forall k :: k in old(desiredResources) ==>
               old(desired)[k].version == old(desiredResources[k].View()).version;
    }

    // ---------- rescans ----------

    /** Moves every resource to the key its resolved namespace gives it. */
    method ResolveNamespaces(namespacedMap: NamespacedMap) returns (allResolved: bool)
      requires Valid()
      modifies this`desiredResources, this`desired, objects
      ensures Valid() && Rekeyed(old(desired), namespacedMap, desired)
      ensures allResolved <==> Unresolvable(old(desired), namespacedMap) == {}
    {
      var resolved;
      ghost var after;
      resolved, after, allResolved := DesiredResources.ResolveNamespaces(desiredResources, objects, desired,
                                                                         namespacedMap);
      Store(resolved, after);
    }

    method Store(resolved: map<ResourceKey, DesiredResource>, ghost views: DesiredMap)
      requires Viewed(resolved, objects, views)
      modifies this`desiredResources, this`desired
      ensures Valid() && desiredResources == resolved && desired == views
    {
      desiredResources, desired := resolved, views;
    }

    /** Resolves namespaces again, then replaces everything monitored by what the cluster says. A failure leaves what
        is monitored alone, but not the resolved namespaces. */
    method ReplaceMonitoredResourcesFromCluster(namespacedMap: NamespacedMap, discoveryHealthy: bool, scope: Scope,
                                                cache: ClusterCache, resolver: Resolver)
      returns (ok: bool, ghost trace: Trace)
      requires Valid() && WillBeReady(desired, namespacedMap, cache)
      modifies this, objects
      ensures objects == old(objects)
      ensures Valid() && Rekeyed(old(desired), namespacedMap, desired)
      ensures IsTrace(desired, scope, cache, discoveryHealthy, trace)
      ensures ok <==> cache.managedLiveObjs(trace.targets).Some?
      ensures ok ==> IsRescan(State(), scope, cache, discoveryHealthy, resolver, trace.discovered)
      ensures !ok ==> State() == old(State()).(desired := desired)
    {
      ghost var before := desired;
      var allResolved := ResolveNamespaces(namespacedMap);
      ReadyAfterPass(before, namespacedMap, cache, desired);
      ok, trace := Rescan(discoveryHealthy, scope, cache, resolver);
    }

    method Rescan(discoveryHealthy: bool, scope: Scope, cache: ClusterCache, resolver: Resolver)
      returns (ok: bool, ghost trace: Trace)
      requires Valid() && IsReady(desired, cache)
      modifies this`presentMonitoredResources, this`childMonitoredResources, this`missingMonitoredResources,
               this`unknownMonitoredResources, this`trackedResourceKeys
      ensures IsTrace(desired, scope, cache, discoveryHealthy, trace)
      ensures ok <==> cache.managedLiveObjs(trace.targets).Some?
      ensures ok ==> IsRescan(State(), scope, cache, discoveryHealthy, resolver, trace.discovered)
      ensures !ok ==> State() == old(State())
    {
      ViewsAre(desiredResources, objects, desired);
      var result;
      result, trace := GetMonitoredResources(Views(desiredResources), scope, cache, resolver, discoveryHealthy);
      if result.None? {
        return false, trace;
      }
      ReplaceMonitoredResources(result.value);
      assert result.value ==
             Monitored(presentMonitoredResources, childMonitoredResources, missingMonitoredResources,
                       unknownMonitoredResources);
      return true, trace;
    }

    function MonitoredResourceChanges(): InstanceChanges
      reads this
    {
      InstanceChanges(presentMonitoredResources, childMonitoredResources, missingMonitoredResources,
                      unknownMonitoredResources, {})
    }

    /** Everything tracked, and desired resources wherever they are stored or belong by now. */
    method ResourceKeysOfInterest() returns (keys: set<ResourceKey>)
      requires Valid()
      ensures keys == KeysOfInterest(State())
    {
      keys := {};
      var todo := desiredResources.Keys;
      while todo != {}
        invariant todo <= desiredResources.Keys
        invariant keys == KeysUpTo(desired, desired.Keys - todo)
      {
        var key :| key in todo;
        assert desired[key] == desiredResources[key].View();
        todo := todo - {key};
        keys := keys + {key, desiredResources[key].ResourceKey()};
      }
      keys := keys + trackedResourceKeys;
    }
  }

  /** A resource without a version is never another version's. */
  predicate Keeps(version: Option<Version>, versionToKeep: Version) {
    version.None? || version.value == versionToKeep
  }

  /** The interests of the entries under some of the keys. */
  function KeysUpTo(desired: DesiredMap, keys: set<ResourceKey>): set<ResourceKey> {
    (set k | k in desired && k in keys) + (set k | k in desired && k in keys :: desired[k].Key())
  }
}
