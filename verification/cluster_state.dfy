/** What one target's goroutine keeps, and the commands, sweeps and changes that it serves. */
module ClusterStates {
  import opened Kubernetes
  import opened DesiredResources
  import opened IncomingResources
  import opened MonitoredResources
  import opened InterestIndexes
  import opened Instances
  import opened Rescans
  import opened ApplicationInstances
  import opened Targets

  /** What an operation learns from the shared cluster while it runs. */
  datatype Answers = Answers(
    discovery: Discovery, // for resources a command brings in
    synced: bool,
    namespacedMap: NamespacedMap, // for a rescan
    discoveryHealthy: bool,
    scope: Scope,
    cache: ClusterCache,
    resolver: Resolver)

  /** The desired resources will be ready for a rescan. */
  ghost predicate Suitable(desired: DesiredMap, a: Answers) {
    WillBeReady(desired, a.namespacedMap, a.cache)
  }

  /** However the incoming resources resolve, the instance is ready for a rescan once they are merged. */
  ghost predicate MergeIsSuitable(s: Instance, views: DesiredMap, a: Answers) {
    forall asked, resolved {:trigger Retried(views, a.discovery, asked, resolved)} ::
      Retried(views, a.discovery, asked, resolved) ==> Suitable(Merge(s, resolved).desired, a)
  }

  ghost predicate ReplaceIsSuitable(views: DesiredMap, a: Answers) {
    forall asked, resolved {:trigger Retried(views, a.discovery, asked, resolved)} ::
      Retried(views, a.discovery, asked, resolved) ==> Suitable(resolved, a)
  }

  lemma MergedIsSuitable(s: Instance, views: DesiredMap, a: Answers, asked: map<ResourceKey, nat>, resolved: DesiredMap)
    requires MergeIsSuitable(s, views, a) && Retried(views, a.discovery, asked, resolved)
    ensures Suitable(Merge(s, resolved).desired, a)
  {
  }

  lemma ReplacedIsSuitable(views: DesiredMap, a: Answers, asked: map<ResourceKey, nat>, resolved: DesiredMap)
    requires ReplaceIsSuitable(views, a) && Retried(views, a.discovery, asked, resolved)
    ensures Suitable(Replace(resolved).desired, a)
  {
  }

  /** What becomes of an instance that looks at the cluster: its namespaces are resolved and, unless the cache fails,
      everything monitored is replaced by what the cluster says. */
  ghost predicate LookedAt(before: Instance, a: Answers, after: Instance, ok: bool) {
    Rekeyed(before.desired, a.namespacedMap, after.desired) && exists trace :: FoundBy(before, a, after, ok, trace)
  }

  ghost predicate FoundBy(before: Instance, a: Answers, after: Instance, ok: bool, trace: Trace) {
    && IsTrace(after.desired, a.scope, a.cache, a.discoveryHealthy, trace)
    && (ok <==> a.cache.managedLiveObjs(trace.targets).Some?)
    && if ok then IsRescan(after, a.scope, a.cache, a.discoveryHealthy, a.resolver, trace.discovered)
       else after == before.(desired := after.desired)
  }

  /** What a sweep does to one instance: it is reported, in full, exactly when looking at the cluster succeeded. */
  ghost predicate SweptAt(before: Target, answers: ApplicationInstanceId -> Answers, after: Target, updates: Updates,
                          id: ApplicationInstanceId)
    requires id in before && id in after
  {
    && LookedAt(before[id], answers(id), after[id], id in updates)
    && (id in updates ==> updates[id] == Snapshot(after[id]))
  }

  /** The sweep once only the instances in todo are left. */
  ghost predicate Swept(before: Target, answers: ApplicationInstanceId -> Answers, after: Target, updates: Updates,
                        todo: set<ApplicationInstanceId>)
  {
    && after.Keys == before.Keys && updates.Keys <= after.Keys - todo
    && (forall id :: id in todo && id in after ==> after[id] == before[id])
    && (forall id {:trigger SweptAt(before, answers, after, updates, id)} ::
          id in after && id !in todo ==> SweptAt(before, answers, after, updates, id))
  }

  lemma SweepOne(before: Target, answers: ApplicationInstanceId -> Answers, middle: Target, sofar: Updates,
                 todo: set<ApplicationInstanceId>, after: Target, updates: Updates, id: ApplicationInstanceId)
    requires id in todo && id in middle && id in after && Swept(before, answers, middle, sofar, todo)
    requires after == middle[id := after[id]] && SweptAt(before, answers, after, updates, id)
    requires updates == if id in updates then sofar[id := updates[id]] else sofar
    ensures Swept(before, answers, after, updates, todo - {id})
  {
    assert updates.Keys <= sofar.Keys + {id};
    forall i | i in after && i !in todo - {id} ensures SweptAt(before, answers, after, updates, i) {
      if i != id {
        assert SweptAt(before, answers, middle, sofar, i);
      }
    }
  }

  ghost predicate AllSuitable(t: Target, answers: ApplicationInstanceId -> Answers) {
    forall id {:trigger Suitable(t[id].desired, answers(id))} :: id in t ==> Suitable(t[id].desired, answers(id))
  }

  /** A rescan that cannot even sync changes nothing. */
  ghost predicate RescanLeaves(before: Instance, a: Answers, after: Instance, ok: bool) {
    if a.synced then LookedAt(before, a, after, ok) else after == before && !ok
  }

  /** What a successful merge reports is exact: it says something about each incoming resource still desired and about
      no other, the root of every child in it is a present resource in it and no child, and trees are brought whole. */
  lemma MergeReportIsExact(before: Instance, resolved: DesiredMap, a: Answers, s: Instance)
    requires RescanLeaves(Merge(before, resolved), a, s, true)
    ensures CoversIncoming(s, Ids(resolved)) && RootsAreReported(s, Ids(resolved)) && BringsWholeTrees(s, Ids(resolved))
  {
    var trace :| FoundBy(Merge(before, resolved), a, s, true, trace);
    DeltaIsExact(s, a.scope, a.cache, a.discoveryHealthy, a.resolver, trace.discovered, Ids(resolved));
  }

  /** The instance is one of the target's, under its own id and with its own desired resources, and state says what it
      holds. */
  ghost predicate Holds(inst: ApplicationInstance, id: ApplicationInstanceId, instances: set<ApplicationInstance>,
                        objects: set<DesiredResource>, owned: set<DesiredResource>, state: Instance)
    reads instances, objects
  {
    && inst in instances && inst.applicationInstanceId == id
    && inst.objects == owned && owned <= objects && inst.Valid() && inst.State() == state
  }

  /** No two instances share a desired resource. */
  ghost predicate NothingShared(owned: map<ApplicationInstanceId, set<DesiredResource>>) {
    forall i, j :: i in owned && j in owned && i != j ==> owned[i] !! owned[j]
  }

  ghost predicate SharesNothing(owned: map<ApplicationInstanceId, set<DesiredResource>>, id: ApplicationInstanceId,
                                more: set<DesiredResource>)
  {
    forall i :: i in owned && i != id ==> owned[i] !! more
  }

  lemma StillNothingShared(owned: map<ApplicationInstanceId, set<DesiredResource>>, id: ApplicationInstanceId,
                           more: set<DesiredResource>)
    requires NothingShared(owned) && SharesNothing(owned, id, more)
    ensures NothingShared(owned[id := more])
  {
  }

  class ClusterState {
    const clusterId: ClusterId
    const interests: InterestIndex
    var applicationInstances: map<ApplicationInstanceId, ApplicationInstance>

    ghost var instances: set<ApplicationInstance>
    ghost var objects: set<DesiredResource>
    ghost var owned: map<ApplicationInstanceId, set<DesiredResource>> // each instance's desired resources
    ghost var states: Target // what the instances hold, by value

    ghost predicate Valid()
      reads this, instances, objects, interests
    {
      interests.Valid() && ValidExcept({})
    }

    ghost predicate ValidExcept(ids: set<ApplicationInstanceId>)
      reads this, instances, objects
    {
      && states.Keys == owned.Keys == applicationInstances.Keys && NothingShared(owned)
      && (forall i :: i in applicationInstances && i !in ids ==>
            Holds(applicationInstances[i], i, instances, objects, owned[i], states[i]))
    }

    constructor (clusterId: ClusterId, interests: InterestIndex)
      requires interests.Valid()
      ensures this.clusterId == clusterId && this.interests == interests
      ensures Valid() && states == map[]
    {
      this.clusterId, this.interests := clusterId, interests;
      applicationInstances, instances, objects, owned, states := map[], {}, {}, map[], map[];
    }

    // ---------- publishing ----------

    method ResourceKeysOfInterest() returns (keys: set<ResourceKey>)
      requires Valid()
      ensures keys == TargetKeys(states)
    {
      keys := {};
      var todo := applicationInstances.Keys;
      while todo != {}
        invariant todo <= applicationInstances.Keys
        invariant keys == KeysOfSome(states, applicationInstances.Keys - todo)
      {
        var id :| id in todo;
        assert Holds(applicationInstances[id], id, instances, objects, owned[id], states[id]);
        var more := applicationInstances[id].ResourceKeysOfInterest();
        KeysOfOneMore(states, applicationInstances.Keys - todo, id);
        assert applicationInstances.Keys - (todo - {id}) == applicationInstances.Keys - todo + {id};
        todo, keys := todo - {id}, keys + more;
      }
      assert KeysOfSome(states, applicationInstances.Keys) == TargetKeys(states);
    }

    method PublishInterests()
      requires Valid()
      modifies interests`keysByTarget, interests`targetsByResource
      ensures Valid()
      ensures interests.keysByTarget == Publish(old(interests.keysByTarget), clusterId, TargetKeys(states))
    {
      var keys := ResourceKeysOfInterest();
      interests.Set(clusterId, keys);
    }

    // ---------- resource changes ----------

    method ChangesForUpdatedResource(resolver: Resolver, change: ResourceChange) returns (updates: Updates)
      requires Valid() && AllRootsReachable(states, change)
      modifies this`states, instances
      ensures Valid()
      ensures states == ApplyToAll(old(states), resolver, change)
      ensures updates == AnnounceFromAll(old(states), resolver, change)
    {
      updates := map[];
      ghost var before := states;
      var todo := applicationInstances.Keys;
      while todo != {}
        invariant todo <= applicationInstances.Keys
        invariant ValidExcept({})
        invariant states == ApplyToSome(before, todo, resolver, change)
        invariant updates == AnnounceFromSome(before, todo, resolver, change)
      {
        var id :| id in todo;
        assert Holds(applicationInstances[id], id, instances, objects, owned[id], states[id]);
        OneMoreApplied(before, todo, id, resolver, change);
        var update := ApplyTo(id, resolver, change);
        todo := todo - {id};
        if update.Some? {
          updates := updates[id := update.value];
        }
      }
    }

    method ApplyTo(id: ApplicationInstanceId, resolver: Resolver, change: ResourceChange)
      returns (update: Option<InstanceChanges>)
      requires ValidExcept({}) && id in applicationInstances && RootsReachable(states[id], change)
      modifies this`states, applicationInstances[id]
      ensures ValidExcept({})
      ensures states == old(states)[id := Apply(old(states)[id], resolver, change)]
      ensures update == Announce(old(states)[id], resolver, change)
    {
      var inst := applicationInstances[id];
      assert Holds(inst, id, instances, objects, owned[id], states[id]);
      update := inst.GetChangesForUpdatedResource(resolver, change);
      OthersHold(inst, owned[id]);
      NoteStateOf(id);
    }

    /** Brings the record of one instance up to date. */
    ghost method NoteStateOf(id: ApplicationInstanceId)
      requires id in applicationInstances && ValidExcept({id})
      requires Holds(applicationInstances[id], id, instances, objects, owned[id], applicationInstances[id].State())
      modifies this`states
      ensures ValidExcept({}) && states == old(states)[id := applicationInstances[id].State()]
    {
      states := states[id := applicationInstances[id].State()];
      forall i | i in applicationInstances
        ensures Holds(applicationInstances[i], i, instances, objects, owned[i], states[i])
      {
        assert i != id ==> old(Holds(applicationInstances[i], i, instances, objects, owned[i], states[i]));
      }
    }

    /** Every instance sees the change; the target republishes only if one of them has something to report. */
    method ApplyResourceChange(resolver: Resolver, change: ResourceChange) returns (updates: Updates)
      requires Valid() && AllRootsReachable(states, change)
      modifies this`states, instances, interests`keysByTarget, interests`targetsByResource
      ensures Valid()
      ensures states == ApplyToAll(old(states), resolver, change)
      ensures updates == AnnounceFromAll(old(states), resolver, change)
      ensures interests.keysByTarget == if updates == map[] then old(interests.keysByTarget)
                                        else Publish(old(interests.keysByTarget), clusterId, TargetKeys(states))
    {
      updates := ChangesForUpdatedResource(resolver, change);
      if updates != map[] {
        PublishInterests();
      }
    }

    // ---------- rescans ----------

    method LookAt(id: ApplicationInstanceId, a: Answers) returns (ok: bool)
      requires ValidExcept({}) && id in applicationInstances && Suitable(states[id].desired, a)
      modifies this`states, applicationInstances[id], owned[id]
      ensures ValidExcept({})
      ensures id in states && states == old(states)[id := states[id]]
      ensures LookedAt(old(states)[id], a, states[id], ok)
    {
      var inst := applicationInstances[id];
      assert Holds(inst, id, instances, objects, owned[id], states[id]);
      ghost var trace;
      ok, trace := inst.ReplaceMonitoredResourcesFromCluster(a.namespacedMap, a.discoveryHealthy, a.scope, a.cache,
                                                             a.resolver);
      assert FoundBy(old(inst.State()), a, inst.State(), ok, trace);
      OthersHold(inst, owned[id]);
      NoteStateOf(id);
    }

    method LookAndReport(id: ApplicationInstanceId, a: Answers, updates: Updates) returns (more: Updates)
      requires ValidExcept({}) && id in applicationInstances && Suitable(states[id].desired, a) && id !in updates
      modifies this`states, applicationInstances[id], owned[id]
      ensures ValidExcept({})
      ensures id in states && states == old(states)[id := states[id]]
      ensures LookedAt(old(states)[id], a, states[id], id in more)
      ensures more == if id in more then updates[id := Snapshot(states[id])] else updates
    {
      more := updates;
      var ok := LookAt(id, a);
      if ok {
        assert Holds(applicationInstances[id], id, instances, objects, owned[id], states[id]);
        more := updates[id := applicationInstances[id].MonitoredResourceChanges()];
      }
    }

    method SweepInstance(id: ApplicationInstanceId, answers: ApplicationInstanceId -> Answers, ghost before: Target,
                         ghost todo: set<ApplicationInstanceId>, updates: Updates) returns (more: Updates)
      requires ValidExcept({}) && id in applicationInstances && id in todo
      requires AllSuitable(before, answers) && Swept(before, answers, states, updates, todo)
      modifies this`states, applicationInstances[id], owned[id]
      ensures ValidExcept({}) && Swept(before, answers, states, more, todo - {id})
    {
      ghost var states0 := states;
      assert Suitable(before[id].desired, answers(id));
      more := LookAndReport(id, answers(id), updates);
      SweepOne(before, answers, states0, updates, todo, states, more, id);
    }

    method LookAtAll(answers: ApplicationInstanceId -> Answers) returns (updates: Updates)
      requires ValidExcept({}) && AllSuitable(states, answers)
      modifies this`states, instances, objects
      ensures ValidExcept({}) && Swept(old(states), answers, states, updates, {})
    {
      updates := map[];
      ghost var before := states;
      var todo := applicationInstances.Keys;
      while todo != {}
        invariant todo <= applicationInstances.Keys
        invariant ValidExcept({})
        invariant Swept(before, answers, states, updates, todo)
      {
        var id :| id in todo;
        assert Holds(applicationInstances[id], id, instances, objects, owned[id], states[id]);
        updates := SweepInstance(id, answers, before, todo, updates);
        todo := todo - {id};
      }
    }

    /** The sweep: every instance looks at the cluster, and those that succeed report everything they monitor. */
    method MonitoredResourceUpdates(answers: ApplicationInstanceId -> Answers) returns (updates: Updates)
      requires Valid() && AllSuitable(states, answers)
      modifies this`states, instances, objects, interests`keysByTarget, interests`targetsByResource
      ensures Valid() && Swept(old(states), answers, states, updates, {})
      ensures interests.keysByTarget == Publish(old(interests.keysByTarget), clusterId, TargetKeys(states))
    {
      updates := LookAtAll(answers);
      PublishInterests();
    }

    /** Interests go out twice: before the sync, whose listing decides by them which manifests to keep, and once the
        instance has looked at the cluster. A rescan that fails does not publish what it resolved. */
    method Rescan(id: ApplicationInstanceId, a: Answers) returns (ok: bool)
      requires Valid() && id in applicationInstances && Suitable(states[id].desired, a)
      modifies this`states, applicationInstances[id], owned[id], interests`keysByTarget, interests`targetsByResource
      ensures Valid() && id in states && states == old(states)[id := states[id]]
      ensures RescanLeaves(old(states)[id], a, states[id], ok)
      ensures interests.keysByTarget ==
              Publish(old(interests.keysByTarget), clusterId, TargetKeys(if ok then states else old(states)))
    {
      PublishInterests();
      if !a.synced {
        return false;
      }
      ok := LookAt(id, a);
      if ok {
        PublishTwice(old(interests.keysByTarget), clusterId, TargetKeys(old(states)), TargetKeys(states));
        PublishInterests();
      }
    }

    /** The same for an instance s just put among those the target had before. */
    method RescanUpserted(id: ApplicationInstanceId, a: Answers, ghost before: Target, ghost s: Instance)
      returns (ok: bool)
      requires Valid() && id in applicationInstances && states == before[id := s] && Suitable(s.desired, a)
      modifies this`states, applicationInstances[id], owned[id], interests`keysByTarget, interests`targetsByResource
      ensures Valid() && id in states && states == before[id := states[id]]
      ensures RescanLeaves(s, a, states[id], ok)
      ensures interests.keysByTarget ==
              Publish(old(interests.keysByTarget), clusterId, TargetKeys(if ok then states else before[id := s]))
    {
      ok := Rescan(id, a);
      SetTwice(before, id, s, states[id]);
    }

    // ---------- commands ----------

    method GetOrCreateApplicationInstance(id: ApplicationInstanceId) returns (inst: ApplicationInstance)
      requires ValidExcept({})
      ensures inst.applicationInstanceId == id && inst.Valid() && inst.State() == InstanceOf(states, id)
      ensures if id in applicationInstances
              then inst == applicationInstances[id] && inst.objects == owned[id] && inst in instances
              else fresh(inst) && inst.objects == {}
    {
      if id in applicationInstances {
        inst := applicationInstances[id];
        assert Holds(inst, id, instances, objects, owned[id], states[id]);
      } else {
        inst := new ApplicationInstance(id);
      }
    }

    /** Puts the instance, whose desired resources are nobody else's, among the target's. */
    method UpsertApplicationInstance(inst: ApplicationInstance)
      requires ValidExcept({inst.applicationInstanceId}) && inst.Valid()
      requires SharesNothing(owned, inst.applicationInstanceId, inst.objects)
      modifies this
      ensures ValidExcept({}) && instances == old(instances) + {inst} && objects == old(objects) + inst.objects
      ensures applicationInstances == old(applicationInstances)[inst.applicationInstanceId := inst]
      ensures owned == old(owned)[inst.applicationInstanceId := inst.objects]
      ensures states == old(states)[inst.applicationInstanceId := inst.State()]
    {
      var id := inst.applicationInstanceId;
      applicationInstances := applicationInstances[id := inst];
      instances, objects := instances + {inst}, objects + inst.objects;
      owned, states := owned[id := inst.objects], states[id := inst.State()];
      AllHoldWith(inst);
    }

    twostate lemma AllHoldWith(inst: ApplicationInstance)
      requires old(ValidExcept({inst.applicationInstanceId})) && old(inst.Valid())
      requires SharesNothing(old(owned), inst.applicationInstanceId, inst.objects)
      requires unchanged(old(instances)) && unchanged(old(objects)) && unchanged(inst) && unchanged(inst.objects)
      requires instances == old(instances) + {inst} && objects == old(objects) + inst.objects
      requires var id := inst.applicationInstanceId;
               && applicationInstances == old(applicationInstances)[id := inst]
               && owned == old(owned)[id := inst.objects] && states == old(states)[id := inst.State()]
      ensures ValidExcept({})
    {
      StillNothingShared(old(owned), inst.applicationInstanceId, inst.objects);
      forall i | i in applicationInstances
        ensures Holds(applicationInstances[i], i, instances, objects, owned[i], states[i])
      {
        if i != inst.applicationInstanceId {
          assert old(Holds(applicationInstances[i], i, instances, objects, owned[i], states[i]));
        }
      }
    }

    lemma NothingSharedWith(id: ApplicationInstanceId, more: set<DesiredResource>)
      requires ValidExcept({})
      requires more !! objects - (if id in owned then owned[id] else {})
      ensures SharesNothing(owned, id, more)
    {
      forall i | i in owned && i != id ensures owned[i] !! more {
        assert Holds(applicationInstances[i], i, instances, objects, owned[i], states[i]);
      }
    }

    /** Merges resolved incoming resources into the instance, which is created if there is none. */
    method MergeInto(id: ApplicationInstanceId, incoming: map<ResourceKey, DesiredResource>,
                     ghost incomingObjects: set<DesiredResource>, ghost views: DesiredMap)
      requires ValidExcept({}) && Viewed(incoming, incomingObjects, views) && incomingObjects !! objects
      modifies this, instances
      ensures ValidExcept({}) && id in applicationInstances && owned[id] <= old(objects) + incomingObjects
      ensures applicationInstances[id] in old(instances) || fresh(applicationInstances[id])
      ensures states == old(states)[id := Merge(InstanceOf(old(states), id), views)]
    {
      var inst := GetOrCreateApplicationInstance(id);
      NothingSharedWith(id, inst.objects + incomingObjects);
      label before:
      inst.MergeDesiredResources(incoming, incomingObjects, views);
      OthersHold@before(inst, inst.objects);
      UpsertApplicationInstance(inst);
    }

    method ReplaceInto(id: ApplicationInstanceId, incoming: map<ResourceKey, DesiredResource>,
                       ghost incomingObjects: set<DesiredResource>, ghost views: DesiredMap)
      requires ValidExcept({}) && Viewed(incoming, incomingObjects, views) && incomingObjects !! objects
      modifies this, instances
      ensures ValidExcept({}) && id in applicationInstances && owned[id] <= old(objects) + incomingObjects
      ensures applicationInstances[id] in old(instances) || fresh(applicationInstances[id])
      ensures states == old(states)[id := Replace(views)]
    {
      var inst := GetOrCreateApplicationInstance(id);
      NothingSharedWith(id, incomingObjects);
      label before:
      inst.ReplaceDesiredResources(incoming, incomingObjects, views);
      OthersHold@before(inst, inst.objects);
      UpsertApplicationInstance(inst);
    }

    method ResolveAndMerge(id: ApplicationInstanceId, incoming: map<ResourceKey, DesiredResource>,
                           ghost incomingObjects: set<DesiredResource>, ghost views: DesiredMap, discovery: Discovery)
      returns (incomingIds: set<DesiredResourceId>, ghost asked: map<ResourceKey, nat>, ghost resolved: DesiredMap)
      requires ValidExcept({}) && Viewed(incoming, incomingObjects, views) && NotShared(incoming)
      requires incomingObjects !! objects
      modifies this, instances, incomingObjects
      ensures ValidExcept({}) && Retried(views, discovery, asked, resolved) && incomingIds == Ids(resolved)
      ensures id in applicationInstances && owned[id] <= old(objects) + incomingObjects
      ensures applicationInstances[id] in old(instances) || fresh(applicationInstances[id])
      ensures states == old(states)[id := Merge(InstanceOf(old(states), id), resolved)]
    {
      var resolvedMap;
      resolvedMap, asked, resolved := ResolveIncoming(incoming, incomingObjects, views, discovery);
      incomingIds := set k | k in resolvedMap :: resolvedMap[k].id;
      IdsAreViewed(resolvedMap, incomingObjects, resolved);
      assert incomingIds == IdsOf(resolvedMap, resolvedMap.Keys);
      AllStillHold();
      MergeInto(id, resolvedMap, incomingObjects, resolved);
    }

    method MergeAndRescan(id: ApplicationInstanceId, incoming: map<ResourceKey, DesiredResource>,
                          ghost incomingObjects: set<DesiredResource>, ghost views: DesiredMap, a: Answers)
      returns (ok: bool, incomingIds: set<DesiredResourceId>, ghost asked: map<ResourceKey, nat>,
               ghost resolved: DesiredMap)
      requires Valid() && Viewed(incoming, incomingObjects, views) && NotShared(incoming) && incomingObjects !! objects
      requires MergeIsSuitable(InstanceOf(states, id), views, a)
      modifies this, instances, objects, incomingObjects, interests`keysByTarget, interests`targetsByResource
      ensures Valid() && Retried(views, a.discovery, asked, resolved) && incomingIds == Ids(resolved)
      ensures id in applicationInstances && states == old(states)[id := states[id]]
      ensures RescanLeaves(Merge(InstanceOf(old(states), id), resolved), a, states[id], ok)
      ensures interests.keysByTarget ==
              Publish(old(interests.keysByTarget), clusterId,
                      TargetKeys(if ok then states
                                 else old(states)[id := Merge(InstanceOf(old(states), id), resolved)]))
    {
      incomingIds, asked, resolved := ResolveAndMerge(id, incoming, incomingObjects, views, a.discovery);
      ghost var merged := Merge(InstanceOf(old(states), id), resolved);
      MergedIsSuitable(InstanceOf(old(states), id), views, a, asked, resolved);
      ok := RescanUpserted(id, a, old(states), merged);
    }

    /** Merges a delta of desired resources, rescans the instance, and reports what became of the delta. */
    method MergeDesiredResources(id: ApplicationInstanceId, incoming: map<ResourceKey, DesiredResource>,
                                 ghost incomingObjects: set<DesiredResource>, ghost views: DesiredMap, a: Answers)
      returns (changes: Option<InstanceChanges>, ghost asked: map<ResourceKey, nat>, ghost resolved: DesiredMap)
      requires Valid() && Viewed(incoming, incomingObjects, views) && NotShared(incoming) && incomingObjects !! objects
      requires MergeIsSuitable(InstanceOf(states, id), views, a)
      modifies this, instances, objects, incomingObjects, interests`keysByTarget, interests`targetsByResource
      ensures Valid() && Retried(views, a.discovery, asked, resolved)
      ensures id in states && states == old(states)[id := states[id]]
      ensures RescanLeaves(Merge(InstanceOf(old(states), id), resolved), a, states[id], changes.Some?)
      ensures changes.Some? ==> changes.value == Delta(states[id], Ids(resolved))
      ensures interests.keysByTarget ==
              Publish(old(interests.keysByTarget), clusterId,
                      TargetKeys(if changes.Some? then states
                                 else old(states)[id := Merge(InstanceOf(old(states), id), resolved)]))
    {
      var ok, incomingIds;
      ok, incomingIds, asked, resolved := MergeAndRescan(id, incoming, incomingObjects, views, a);
      changes := None;
      if ok {
        var delta := ReportDelta(id, incomingIds);
        changes := Some(delta);
      }
    }

    method ReportDelta(id: ApplicationInstanceId, incoming: set<DesiredResourceId>) returns (changes: InstanceChanges)
      requires ValidExcept({}) && id in applicationInstances
      ensures changes == Delta(states[id], incoming)
    {
      assert Holds(applicationInstances[id], id, instances, objects, owned[id], states[id]);
      changes := DeltaOf(applicationInstances[id], incoming);
    }

    method ResolveAndReplace(id: ApplicationInstanceId, incoming: map<ResourceKey, DesiredResource>,
                             ghost incomingObjects: set<DesiredResource>, ghost views: DesiredMap, discovery: Discovery)
      returns (ghost asked: map<ResourceKey, nat>, ghost resolved: DesiredMap)
      requires ValidExcept({}) && Viewed(incoming, incomingObjects, views) && NotShared(incoming)
      requires incomingObjects !! objects
      modifies this, instances, incomingObjects
      ensures ValidExcept({}) && Retried(views, discovery, asked, resolved)
      ensures id in applicationInstances && owned[id] <= old(objects) + incomingObjects
      ensures applicationInstances[id] in old(instances) || fresh(applicationInstances[id])
      ensures states == old(states)[id := Replace(resolved)]
    {
      var resolvedMap;
      resolvedMap, asked, resolved := ResolveIncoming(incoming, incomingObjects, views, discovery);
      AllStillHold();
      ReplaceInto(id, resolvedMap, incomingObjects, resolved);
    }

    /** Starts the instance over with what is desired now, rescans it, and reports everything it monitors. */
    method ReplaceDesiredResources(id: ApplicationInstanceId, incoming: map<ResourceKey, DesiredResource>,
                                   ghost incomingObjects: set<DesiredResource>, ghost views: DesiredMap, a: Answers)
      returns (changes: Option<InstanceChanges>, ghost asked: map<ResourceKey, nat>, ghost resolved: DesiredMap)
      requires Valid() && Viewed(incoming, incomingObjects, views) && NotShared(incoming) && incomingObjects !! objects
      requires ReplaceIsSuitable(views, a)
      modifies this, instances, objects, incomingObjects, interests`keysByTarget, interests`targetsByResource
      ensures Valid() && Retried(views, a.discovery, asked, resolved)
      ensures id in states && states == old(states)[id := states[id]]
      ensures RescanLeaves(Replace(resolved), a, states[id], changes.Some?)
      ensures changes.Some? ==> changes.value == Snapshot(states[id])
      ensures interests.keysByTarget == Publish(old(interests.keysByTarget), clusterId,
                TargetKeys(if changes.Some? then states else old(states)[id := Replace(resolved)]))
    {
      asked, resolved := ResolveAndReplace(id, incoming, incomingObjects, views, a.discovery);
      ReplacedIsSuitable(views, a, asked, resolved);
      var ok := RescanUpserted(id, a, old(states), Replace(resolved));
      if !ok {
        return None, asked, resolved;
      }
      assert Holds(applicationInstances[id], id, instances, objects, owned[id], states[id]);
      changes := Some(applicationInstances[id].MonitoredResourceChanges());
    }

    /** Deleting desired resources publishes but does not rescan. */
    method DeleteDesiredResources(id: ApplicationInstanceId, ids: seq<DesiredResourceId>)
      requires Valid()
      modifies this`states, instances, interests`keysByTarget, interests`targetsByResource
      ensures Valid()
      ensures states == if id in old(states) then old(states)[id := DeleteIds(old(states)[id], ids)] else old(states)
      ensures interests.keysByTarget ==
              if id in old(states) then Publish(old(interests.keysByTarget), clusterId, TargetKeys(states))
                                        else old(interests.keysByTarget)
    {
      if id in applicationInstances {
        var inst := applicationInstances[id];
        assert Holds(inst, id, instances, objects, owned[id], states[id]);
        inst.DeleteDesiredResources(ids);
        OthersHold(inst, owned[id]);
        NoteStateOf(id);
        PublishInterests();
      }
    }

    method DeleteDesiredResourcesExceptForVersion(id: ApplicationInstanceId, versionToKeep: Version)
      requires Valid()
      modifies this`states, instances, interests`keysByTarget, interests`targetsByResource
      ensures Valid()
      ensures states == if id in old(states) then old(states)[id := DeleteOtherVersions(old(states)[id], versionToKeep)]
              else old(states)
      ensures interests.keysByTarget ==
              if id in old(states) then Publish(old(interests.keysByTarget), clusterId, TargetKeys(states))
                                        else old(interests.keysByTarget)
    {
      if id in applicationInstances {
        var inst := applicationInstances[id];
        assert Holds(inst, id, instances, objects, owned[id], states[id]);
        inst.DeleteDesiredResourcesExceptForVersion(versionToKeep);
        OthersHold(inst, owned[id]);
        NoteStateOf(id);
        PublishInterests();
      }
    }

    /** Resolving incoming resources touches nothing the target already has. */
    twostate lemma AllStillHold()
      requires old(ValidExcept({})) && unchanged(this) && unchanged(instances) && unchanged(objects)
      ensures ValidExcept({})
    {
      forall i | i in applicationInstances
        ensures Holds(applicationInstances[i], i, instances, objects, owned[i], states[i])
      {
        assert old(Holds(applicationInstances[i], i, instances, objects, owned[i], states[i]));
      }
    }

    /** Instances that share nothing with the one that changed hold what they held. */
    twostate lemma OthersHold(new inst: ApplicationInstance, changed: set<DesiredResource>)
      requires old(ValidExcept({})) && unchanged(this)
      requires unchanged(instances - {inst}) && unchanged(objects - changed)
      requires SharesNothing(owned, inst.applicationInstanceId, changed)
      requires inst.applicationInstanceId in applicationInstances ==>
                 inst == applicationInstances[inst.applicationInstanceId]
      ensures ValidExcept({inst.applicationInstanceId})
    {
      forall i | i in applicationInstances && i != inst.applicationInstanceId
        ensures Holds(applicationInstances[i], i, instances, objects, owned[i], states[i])
      {
        assert old(Holds(applicationInstances[i], i, instances, objects, owned[i], states[i]));
        assert owned[i] !! changed;
      }
    }
  }

  /** Of what the instance monitors, the incoming resources and whatever is rooted at one that is present. */
  method DeltaOf(inst: ApplicationInstance, incoming: set<DesiredResourceId>) returns (changes: InstanceChanges)
    requires inst.Valid()
    ensures changes == Delta(inst.State(), incoming)
  {
    var present, uids := IncomingAndPresent(inst.presentMonitoredResources, incoming);
    var children := map k | k in inst.childMonitoredResources && inst.childMonitoredResources[k].rootOwnerId in uids
                        :: inst.childMonitoredResources[k];
    var missing := map id | id in inst.missingMonitoredResources && id in incoming
                       :: inst.missingMonitoredResources[id];
    var unknown := map id | id in inst.unknownMonitoredResources && id in incoming
                       :: inst.unknownMonitoredResources[id];
    return InstanceChanges(present, children, missing, unknown, {});
  }

  method IncomingAndPresent(all: PresentMap, incoming: set<DesiredResourceId>)
    returns (present: PresentMap, uids: set<Uid>)
    ensures present == map id | id in all && id in incoming :: all[id]
    ensures uids == PresentUids(present)
  {
    present, uids := map[], {};
    var todo := all.Keys;
    while todo != {}
      invariant todo <= all.Keys
      invariant present == map id | id in all && id !in todo && id in incoming :: all[id]
      invariant uids == PresentUids(present)
    {
      var id :| id in todo;
      todo := todo - {id};
      if id in incoming {
        PresentUidsOfOneMore(present, id, all[id]);
        present := present[id := all[id]];
        uids := uids + {all[id].ref.uid};
      }
    }
  }

  lemma PresentUidsOfOneMore(present: PresentMap, id: DesiredResourceId, p: PresentMonitoredResource)
    requires id !in present
    ensures PresentUids(present[id := p]) == PresentUids(present) + {p.ref.uid}
  {
    var more := present[id := p];
    forall i | i in present ensures present[i].ref.uid in PresentUids(more) {
      assert more[i] == present[i];
    }
    assert more[id] == p;
  }

  lemma SetTwice(t: Target, id: ApplicationInstanceId, first: Instance, second: Instance)
    ensures t[id := first][id := second] == t[id := second]
  {
  }

  lemma PublishTwice(m: Interests, target: ClusterId, first: set<ResourceKey>, second: set<ResourceKey>)
    ensures Publish(Publish(m, target, first), target, second) == Publish(m, target, second)
  {
  }

  function KeysOfSome(t: Target, ids: set<ApplicationInstanceId>): set<ResourceKey> {
    set id, k | id in t && id in ids && k in KeysOfInterest(t[id]) :: k
  }

  lemma KeysOfOneMore(t: Target, done: set<ApplicationInstanceId>, id: ApplicationInstanceId)
    requires id in t
    ensures KeysOfSome(t, done + {id}) == KeysOfSome(t, done) + KeysOfInterest(t[id])
  {
  }

  /** The target when the change has yet to reach the instances in todo. */
  ghost function ApplyToSome(t: Target, todo: set<ApplicationInstanceId>, resolver: Resolver,
                             change: ResourceChange): (after: Target)
    ensures after.Keys == t.Keys
    ensures todo == {} ==> after == ApplyToAll(t, resolver, change)
  {
    map id | id in t :: if id in todo then t[id] else Apply(t[id], resolver, change)
  }

  ghost function AnnounceFromSome(t: Target, todo: set<ApplicationInstanceId>, resolver: Resolver,
                                  change: ResourceChange): (updates: Updates)
    ensures todo == {} ==> updates == AnnounceFromAll(t, resolver, change)
  {
    map id | id in t && id !in todo && Announce(t[id], resolver, change).Some?
        :: Announce(t[id], resolver, change).value
  }

  lemma OneMoreApplied(t: Target, todo: set<ApplicationInstanceId>, id: ApplicationInstanceId, resolver: Resolver,
                       change: ResourceChange)
    requires id in t && id in todo
    ensures ApplyToSome(t, todo, resolver, change)[id] == t[id]
    ensures ApplyToSome(t, todo - {id}, resolver, change) ==
            ApplyToSome(t, todo, resolver, change)[id := Apply(t[id], resolver, change)]
    ensures AnnounceFromSome(t, todo - {id}, resolver, change) ==
            var before, update := AnnounceFromSome(t, todo, resolver, change), Announce(t[id], resolver, change);
            if update.Some? then before[id := update.value] else before
  {
  }
}
