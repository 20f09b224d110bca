/** Two runs of a new target that end with something else shown than what is live, each with a single careless step. */
module PipelineRaces {
  import opened Kubernetes
  import opened DesiredResources
  import opened MonitoredResources
  import opened InterestIndexes
  import opened ChangeQueues
  import opened Instances
  import opened InstanceProperties
  import opened Targets
  import opened Pipelines

  const START := NewTarget(map[], map[])

  /** All steps are possible, all but one are careful, the queue ends up drained, and the view is wrong. */
  ghost predicate GoesWrongAt(target: ClusterId, resolver: Resolver, before: seq<Step>, careless: Step,
                              after: seq<Step>)
  {
    && Sound(START) && Possible(START, target, resolver, before) && Careful(START, target, resolver, before)
    && EndsWrongAfter(Pipelines.Run(START, target, resolver, before), target, resolver, careless, after)
  }

  ghost predicate EndsWrongAfter(p: Pipeline, target: ClusterId, resolver: Resolver, careless: Step, after: seq<Step>)
    requires Sound(p)
  {
    && Legal(p, target, resolver, careless) && !CarefulStep(p, target, resolver, careless)
    && Sound(Next(p, target, resolver, careless))
    && Possible(Next(p, target, resolver, careless), target, resolver, after)
    && Careful(Next(p, target, resolver, careless), target, resolver, after)
    && var final := Pipelines.Run(Next(p, target, resolver, careless), target, resolver, after);
       final.queue.order == [] && !AllReflect(final, resolver)
  }

  lemma CarefulStepFirst(p: Pipeline, target: ClusterId, resolver: Resolver, step: Step, rest: seq<Step>)
    requires Sound(p) && Legal(p, target, resolver, step) && CarefulStep(p, target, resolver, step)
    requires Sound(Next(p, target, resolver, step)) && Possible(Next(p, target, resolver, step), target, resolver, rest)
    requires Careful(Next(p, target, resolver, step), target, resolver, rest)
    ensures Possible(p, target, resolver, [step] + rest) && Careful(p, target, resolver, [step] + rest)
    ensures Pipelines.Run(p, target, resolver, [step] + rest) ==
            Pipelines.Run(Next(p, target, resolver, step), target, resolver, rest)
  {
    assert ([step] + rest)[0] == step && ([step] + rest)[1..] == rest;
  }

  /** An instance that desires one resource, which is live as res or missing. */
  function Alone(d: Desired, resolver: Resolver, res: Option<Resource>): Instance {
    match res
    case Some(r) => Instance(map[d.Key() := d], map[d.id := NewPresent(r, resolver, d.id)], map[], map[], map[],
                             {d.Key()})
    case None => Instance(map[d.Key() := d], map[], map[], map[d.id := NewMissing(d)], map[], {})
  }

  lemma AloneReflects(d: Desired, resolver: Resolver, res: Option<Resource>)
    requires res.Some? ==> res.value.ref.Key() == d.Key()
    ensures Consistent(Alone(d, resolver, res))
    ensures Reflects(Alone(d, resolver, res), resolver, Install(map[], d.Key(), res))
  {
    var s := Alone(d, resolver, res);
    assert d.Key() in s.desired && Ids(s.desired) == {d.id};
    forall k ensures ConsistentAt(s, k) && ReflectsAt(s, resolver, Install(map[], d.Key(), res), k) {
    }
  }

  lemma OnlyOne(index: Interests, target: ClusterId, key: ResourceKey, change: ResourceChange)
    requires change.About(key) && change.HasSide()
    requires change.newRes.Some? ==> change.newRes.value.info.ownerRefs == []
    requires change.oldRes.Some? ==> change.oldRes.value.info.ownerRefs == []
    ensures target in Recipients(index, change) <==> key in KeysOf(index, target)
  {
    assert OwnerKeys([], key.namespace) == {};
    assert Concerns(change.newRes) + Concerns(change.oldRes) == {key};
    assert target in index ==> (key in index[target] <==> index[target] * {key} != {});
  }

  lemma CarefulSteps(p: Pipeline, target: ClusterId, resolver: Resolver, a: Step, b: Step)
    requires Sound(p) && Legal(p, target, resolver, a) && CarefulStep(p, target, resolver, a)
    requires Sound(Next(p, target, resolver, a)) && Legal(Next(p, target, resolver, a), target, resolver, b)
    requires CarefulStep(Next(p, target, resolver, a), target, resolver, b)
    ensures Possible(p, target, resolver, [a, b]) && Careful(p, target, resolver, [a, b])
    ensures Pipelines.Run(p, target, resolver, [a, b]) == Next(Next(p, target, resolver, a), target, resolver, b)
  {
    var q := Next(p, target, resolver, a);
    StepStaysSound(q, target, resolver, b);
    CarefulStepFirst(q, target, resolver, b, []);
    assert [b] + [] == [b] && [a] + [b] == [a, b];
    CarefulStepFirst(p, target, resolver, a, [b]);
  }

  /** The target has published the resource and a rescan has found it missing. */
  lemma FoundMissing(target: ClusterId, resolver: Resolver, d: Desired)
    ensures var steps := [Published({d.Key()}), Rescanned("app", Alone(d, resolver, None))];
            && Sound(START) && Possible(START, target, resolver, steps) && Careful(START, target, resolver, steps)
            && Pipelines.Run(START, target, resolver, steps) ==
               Pipeline(map[], map[target := {d.Key()}], EMPTY_QUEUE, map["app" := Alone(d, resolver, None)])
  {
    var published := Pipeline(map[], map[target := {d.Key()}], EMPTY_QUEUE, map[]);
    assert TargetKeys(map[]) + {d.Key()} == {d.Key()};
    assert Next(START, target, resolver, Published({d.Key()})) == published;
    AloneReflects(d, resolver, None);
    assert Install(map[], d.Key(), None) == map[];
    CarefulSteps(START, target, resolver, Published({d.Key()}), Rescanned("app", Alone(d, resolver, None)));
  }

  lemma {:induction false} CarefulStepLast(p: Pipeline, target: ClusterId, resolver: Resolver, steps: seq<Step>,
                                           step: Step)
    requires Sound(p) && Possible(p, target, resolver, steps) && Careful(p, target, resolver, steps)
    requires Legal(Pipelines.Run(p, target, resolver, steps), target, resolver, step)
    requires CarefulStep(Pipelines.Run(p, target, resolver, steps), target, resolver, step)
    ensures Possible(p, target, resolver, steps + [step]) && Careful(p, target, resolver, steps + [step])
    ensures Pipelines.Run(p, target, resolver, steps + [step]) ==
            Next(Pipelines.Run(p, target, resolver, steps), target, resolver, step)
    decreases |steps|
  {
    if steps == [] {
      StepStaysSound(p, target, resolver, step);
      CarefulStepFirst(p, target, resolver, step, []);
      assert steps + [step] == [step] + [];
    } else {
      StepStaysSound(p, target, resolver, steps[0]);
      CarefulStepLast(Next(p, target, resolver, steps[0]), target, resolver, steps[1..], step);
      CarefulStepFirst(p, target, resolver, steps[0], steps[1..] + [step]);
      assert steps + [step] == [steps[0]] + (steps[1..] + [step]);
    }
  }

  /** A rescan in a sweep publishes nothing before it looks. If it re-keys a missing resource, a creation announced
      before the target publishes again is not routed, and publishing afterwards does not bring it back. */
  lemma RekeyingRescanCanMissACreation(target: ClusterId, resolver: Resolver, d: Desired, namespacedMap: NamespacedMap)
    requires d.Resolve(namespacedMap).Key() != d.Key()
    ensures var r := d.Resolve(namespacedMap);
            var found, again := Alone(d, resolver, None), Alone(r, resolver, None);
            && Rekeyed(found.desired, namespacedMap, again.desired)
            && GoesWrongAt(target, resolver,
                           [Published({d.Key()}), Rescanned("app", found)] + [Rescanned("app", again)],
                           Announced(r.Key(), ResourceChange(Some(Unowned(r.Key(), "")), None)), [Published({})])
  {
    var r := d.Resolve(namespacedMap);
    AloneIsRekeyed(d, resolver, namespacedMap);
    FoundMissing(target, resolver, d);
    FoundMissingAgain(target, resolver, d, r);
    UnheardCreation(target, resolver, d.Key(), r);
  }

  lemma AloneIsRekeyed(d: Desired, resolver: Resolver, namespacedMap: NamespacedMap)
    ensures var found, again := Alone(d, resolver, None), Alone(d.Resolve(namespacedMap), resolver, None);
            Rekeyed(found.desired, namespacedMap, again.desired)
  {
    var r := d.Resolve(namespacedMap);
    assert KeyAfterPass(d.Key(), d, namespacedMap) == r.Key();
    OneEntryIsRekeyed(d.Key(), d, namespacedMap, r.Key());
  }

  lemma OneEntryIsRekeyed(key: ResourceKey, d: Desired, namespacedMap: NamespacedMap, newKey: ResourceKey)
    requires KeyAfterPass(key, d, namespacedMap) == newKey
    ensures Rekeyed(map[key := d], namespacedMap, map[newKey := d.Resolve(namespacedMap)])
  {
    var before := map[key := d];
    assert key in before && ComesFrom(before, namespacedMap, newKey, d.Resolve(namespacedMap));
  }

  lemma FoundMissingAgain(target: ClusterId, resolver: Resolver, d: Desired, r: Desired)
    ensures var steps := [Published({d.Key()}), Rescanned("app", Alone(d, resolver, None))];
            var again := Rescanned("app", Alone(r, resolver, None));
            && Sound(START) && Possible(START, target, resolver, steps + [again])
               && Careful(START, target, resolver, steps + [again])
            && Pipelines.Run(START, target, resolver, steps + [again]) ==
               Pipeline(map[], map[target := {d.Key()}], EMPTY_QUEUE, map["app" := Alone(r, resolver, None)])
  {
    FoundMissing(target, resolver, d);
    AloneReflects(r, resolver, None);
    assert Install(map[], r.Key(), None) == map[];
    var steps := [Published({d.Key()}), Rescanned("app", Alone(d, resolver, None))];
    CarefulStepLast(START, target, resolver, steps, Rescanned("app", Alone(r, resolver, None)));
  }

  lemma UnheardCreation(target: ClusterId, resolver: Resolver, published: ResourceKey, r: Desired)
    requires r.Key() != published && Consistent(Alone(r, resolver, None))
    ensures var p := Pipeline(map[], map[target := {published}], EMPTY_QUEUE, map["app" := Alone(r, resolver, None)]);
            Sound(p) && EndsWrongAfter(p, target, resolver,
                                  Announced(r.Key(), ResourceChange(Some(Unowned(r.Key(), "")), None)),
                                  [Published({})])
  {
    var s, key := Alone(r, resolver, None), r.Key();
    var p := Pipeline(map[], map[target := {published}], EMPTY_QUEUE, map["app" := s]);
    var change := ResourceChange(Some(Unowned(key, "")), None);
    OnlyOne(p.index, target, key, change);
    assert Settled(s, key) && !Heard(p, target, key, change) by {
      assert "app" in p.instances && Settled(p.instances["app"], key);
    }
    StepStaysSound(p, target, resolver, Announced(key, change));
    var q := Next(p, target, resolver, Announced(key, change));
    CarefulStepFirst(q, target, resolver, Published({}), []);
    assert [Published({})] + [] == [Published({})];
    var final := Next(q, target, resolver, Published({}));
    assert !ReflectsAt(final.instances["app"], resolver, final.live, key);
  }

  /** If an addition is queued when a rescan finds the resource, a deletion folds into the addition and leaves a change
      with neither side, whose delivery has no effect: the resource stays shown. */
  lemma RescanCanLoseADeletion(target: ClusterId, resolver: Resolver, d: Desired, res: Resource)
    requires res.WellFormed() && res.info.key == d.Key() && res.info.ownerRefs == []
    ensures var added, deleted := ResourceChange(Some(res), None), ResourceChange(None, Some(res));
            GoesWrongAt(target, resolver,
                        [Published({d.Key()}), Rescanned("app", Alone(d, resolver, None))]
                        + [Announced(d.Key(), added)],
                        Rescanned("app", Alone(d, resolver, Some(res))), [Announced(d.Key(), deleted), Delivered])
  {
    var key, s := d.Key(), Alone(d, resolver, None);
    var added := ResourceChange(Some(res), None);
    FoundMissing(target, resolver, d);
    var p := Pipeline(map[], map[target := {key}], EMPTY_QUEUE, map["app" := s]);
    OnlyOne(p.index, target, key, added);
    CarefulStepLast(START, target, resolver, [Published({key}), Rescanned("app", s)], Announced(key, added));
    LostDeletion(target, resolver, d, res);
  }

  lemma LostDeletion(target: ClusterId, resolver: Resolver, d: Desired, res: Resource)
    requires res.WellFormed() && res.info.key == d.Key() && res.info.ownerRefs == []
    ensures var added, deleted := ResourceChange(Some(res), None), ResourceChange(None, Some(res));
            var p := Pipeline(map[d.Key() := res], map[target := {d.Key()}], Accept(EMPTY_QUEUE, added),
                              map["app" := Alone(d, resolver, None)]);
            Sound(p) && EndsWrongAfter(p, target, resolver, Rescanned("app", Alone(d, resolver, Some(res))),
                                  [Announced(d.Key(), deleted), Delivered])
  {
    var key, found := d.Key(), Alone(d, resolver, Some(res));
    var p := Pipeline(map[key := res], map[target := {key}], Accept(EMPTY_QUEUE, ResourceChange(Some(res), None)),
                      map["app" := Alone(d, resolver, None)]);
    AloneReflects(d, resolver, None);
    AloneReflects(d, resolver, Some(res));
    assert map[key := res] == Install(map[], key, Some(res));
    assert !PendingIsSafe(p.live, p.queue, resolver, found, key);
    assert Next(p, target, resolver, Rescanned("app", found)) == p.(instances := map["app" := found]);
    DeletionHasNoEffect(target, resolver, d, res);
  }

  lemma DeletionHasNoEffect(target: ClusterId, resolver: Resolver, d: Desired, res: Resource)
    requires res.WellFormed() && res.info.key == d.Key() && res.info.ownerRefs == []
    ensures var steps := [Announced(d.Key(), ResourceChange(None, Some(res))), Delivered];
            var p := Pipeline(map[d.Key() := res], map[target := {d.Key()}],
                              Accept(EMPTY_QUEUE, ResourceChange(Some(res), None)),
                              map["app" := Alone(d, resolver, Some(res))]);
            && Sound(p) && Possible(p, target, resolver, steps) && Careful(p, target, resolver, steps)
            && Pipelines.Run(p, target, resolver, steps).queue.order == []
            && !AllReflect(Pipelines.Run(p, target, resolver, steps), resolver)
  {
    var key, found, deleted := d.Key(), Alone(d, resolver, Some(res)), ResourceChange(None, Some(res));
    var p := Pipeline(map[key := res], map[target := {key}], Accept(EMPTY_QUEUE, ResourceChange(Some(res), None)),
                      map["app" := found]);
    AloneReflects(d, resolver, Some(res));
    OnlyOne(p.index, target, key, deleted);
    var folded := Pipeline(map[], map[target := {key}], QueueState([key], map[key := ResourceChange(None, None)]),
                           map["app" := found]);
    DeletionFolds(p, target, resolver, key, res, folded);
    StepStaysSound(p, target, resolver, Announced(key, deleted));
    CarefulSteps(p, target, resolver, Announced(key, deleted), Delivered);
    EmptyChangeLeavesStale(target, resolver, d, res, folded);
  }

  lemma DeletionFolds(p: Pipeline, target: ClusterId, resolver: Resolver, key: ResourceKey, res: Resource,
                      folded: Pipeline)
    requires res.WellFormed() && res.info.key == key && Sound(p) && p.live == map[key := res]
    requires p.queue == Accept(EMPTY_QUEUE, ResourceChange(Some(res), None))
    requires target in Recipients(p.index, ResourceChange(None, Some(res)))
    requires folded == p.(live := map[], queue := QueueState([key], map[key := ResourceChange(None, None)]))
    ensures Legal(p, target, resolver, Announced(key, ResourceChange(None, Some(res))))
    ensures Next(p, target, resolver, Announced(key, ResourceChange(None, Some(res)))) == folded
  {
    assert map[key := res] - {key} == map[];
  }

  lemma EmptyChangeLeavesStale(target: ClusterId, resolver: Resolver, d: Desired, res: Resource, folded: Pipeline)
    requires res.info.key == d.Key() && Consistent(Alone(d, resolver, Some(res))) && Sound(folded)
    requires folded == Pipeline(map[], map[target := {d.Key()}],
                                QueueState([d.Key()], map[d.Key() := ResourceChange(None, None)]),
                                map["app" := Alone(d, resolver, Some(res))])
    ensures var final := Next(folded, target, resolver, Delivered);
            final.queue.order == [] && !AllReflect(final, resolver)
  {
    var key, found := d.Key(), Alone(d, resolver, Some(res));
    DeliveryShows(found, resolver, key, ResourceChange(None, None));
    var final := Next(folded, target, resolver, Delivered);
    assert !ReflectsAt(final.instances["app"], resolver, final.live, key);
  }
}
