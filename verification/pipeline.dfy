/** The whole way from the live cluster to what a target reports: changes are announced under the cache's lock, routed
    by the index, folded in the target's queue, and delivered to the target's goroutine, while targets publish,
    resources are listed and instances are rescanned, in any interleaving. */
module Pipelines {
  import opened Kubernetes
  import opened DesiredResources
  import opened MonitoredResources
  import opened InterestIndexes
  import opened ChangeQueues
  import opened Instances
  import opened InstanceProperties
  import opened Rescans
  import opened Targets

  /** The live cluster as the cache holds it, the index, and one target's queue and instances. */
  datatype Pipeline = Pipeline(live: World, index: Interests, queue: QueueState, instances: Target)

  datatype Step =
    | Announced(key: ResourceKey, change: ResourceChange)
    | Listed(info: ResourceInfo, isRoot: bool)
    | PublishedBy(other: ClusterId, keys: set<ResourceKey>)
    | Published(incoming: set<ResourceKey>) // the target's own interests, and those of what it is about to desire
    | Delivered
    | Rescanned(id: ApplicationInstanceId, found: Instance)

  /** What the instance says about a settled desired resource: its record if it is present. */
  function Shown(s: Instance, key: ResourceKey): Option<PresentMonitoredResource>
    requires key in s.desired
  {
    if s.desired[key].id in s.present then Some(s.present[s.desired[key].id]) else None
  }

  /** What it should say when the resource is live as res, or not live. */
  function Expected(resolver: Resolver, id: DesiredResourceId, res: Option<Resource>): Option<PresentMonitoredResource>
  {
    if res.Some? then Some(NewPresent(res.value, resolver, id)) else None
  }

  /** The instance says what is live, or a queued change will make it say so. A queued change without an old side could
      still lose its new side, and would then have no effect, so the resource must not be shown meanwhile. */
  predicate CurrentAt(live: World, queue: QueueState, resolver: Resolver, s: Instance, key: ResourceKey) {
    Settled(s, key) ==>
      var id := s.desired[key].id;
      var expected := Expected(resolver, id, Lookup(live, key));
      if key in queue.queued then
        Expected(resolver, id, queue.queued[key].newRes) == expected
        && (queue.queued[key].oldRes.None? ==> Shown(s, key).None?)
      else
        Shown(s, key) == expected
  }

  ghost predicate InstanceIsCurrent(live: World, queue: QueueState, resolver: Resolver, s: Instance) {
    forall k :: CurrentAt(live, queue, resolver, s, k)
  }

  ghost predicate Current(p: Pipeline, resolver: Resolver) {
    forall id :: id in p.instances ==> InstanceIsCurrent(p.live, p.queue, resolver, p.instances[id])
  }

  predicate LiveAt(live: World, key: ResourceKey) {
    key in live ==> live[key].WellFormed() && live[key].info.key == key
  }

  predicate PendingAt(queue: QueueState, key: ResourceKey) {
    key in queue.queued ==> queue.queued[key].About(key)
  }

  /** Instances are consistent, and live and queued resources are recorded under their own keys. */
  ghost predicate Sound(p: Pipeline) {
    && Indexed(p.queue)
    && (forall k :: LiveAt(p.live, k)) && (forall k :: PendingAt(p.queue, k))
    && (forall id :: id in p.instances ==> Consistent(p.instances[id]))
  }

  /** The target is interested in every desired resource the instance says something about. */
  ghost predicate InstanceIsCovered(index: Interests, target: ClusterId, s: Instance) {
    forall k :: Settled(s, k) ==> k in KeysOf(index, target)
  }

  ghost predicate Covered(p: Pipeline, target: ClusterId) {
    forall id :: id in p.instances ==> InstanceIsCovered(p.index, target, p.instances[id])
  }

  ghost predicate AllReflect(p: Pipeline, resolver: Resolver) {
    forall id :: id in p.instances ==> Reflects(p.instances[id], resolver, p.live)
  }

  /** A rescan reads the cache at one moment. Nothing is asked of what it desires by then, which may have been re-keyed
      since the target last published. */
  ghost predicate Legal(p: Pipeline, target: ClusterId, resolver: Resolver, step: Step) {
    match step
    case Announced(key, change) => change.HasSide() && Announces(p.live, key, change)
    case Listed(_, _) => true
    case PublishedBy(other, _) => other != target
    case Published(_) => true
    case Delivered => p.queue.order != []
    case Rescanned(_, found) => Consistent(found) && Reflects(found, resolver, p.live)
  }

  ghost function Next(p: Pipeline, target: ClusterId, resolver: Resolver, step: Step): Pipeline
    requires Sound(p) && Legal(p, target, resolver, step)
  {
    match step
    case Announced(key, change) =>
      p.(live := Install(p.live, key, change.newRes),
         queue := if target in Recipients(p.index, change) then Accept(p.queue, change) else p.queue)
    case Listed(info, isRoot) => p.(index := Populate(p.index, info, isRoot))
    case PublishedBy(other, keys) => p.(index := Publish(p.index, other, keys))
    case Published(incoming) => p.(index := Publish(p.index, target, TargetKeys(p.instances) + incoming))
    case Delivered =>
      assert p.queue.order[0] in p.queue.order;
      p.(queue := Send(p.queue), instances := ApplyToAll(p.instances, resolver, p.queue.queued[p.queue.order[0]]))
    case Rescanned(id, found) => p.(instances := p.instances[id := found])
  }

  // ---------- what one delivery does to what is shown ----------

  lemma ApplyKeepsDesired(s: Instance, resolver: Resolver, change: ResourceChange)
    ensures Apply(s, resolver, change).desired == s.desired && Apply(s, resolver, change).unknown == s.unknown
  {
    ApplyKindKeepsDesired(s, resolver, change, Kind(s, change));
  }

  lemma ApplyKindKeepsDesired(s: Instance, resolver: Resolver, change: ResourceChange, kind: UpdateKind)
    requires KindFits(s, change, kind)
    ensures ApplyKind(s, resolver, change, kind).desired == s.desired
    ensures ApplyKind(s, resolver, change, kind).unknown == s.unknown
  {
  }

  /** A delivery makes its resource be shown as its new side, except that one with neither side has no effect. */
  lemma DeliveryShows(s: Instance, resolver: Resolver, key: ResourceKey, change: ResourceChange)
    requires Consistent(s) && Settled(s, key) && change.About(key)
    ensures Settled(Apply(s, resolver, change), key)
    ensures Shown(Apply(s, resolver, change), key) ==
            if change.HasSide() then Expected(resolver, s.desired[key].id, change.newRes) else Shown(s, key)
  {
    assert ConsistentAt(s, key);
    SettledChange(s, resolver, key, change);
  }

  lemma DeliveryLeavesOthers(s: Instance, resolver: Resolver, j: ResourceKey, change: ResourceChange, key: ResourceKey)
    requires Consistent(s) && Settled(s, key) && change.About(j) && j != key
    ensures Settled(Apply(s, resolver, change), key) && Shown(Apply(s, resolver, change), key) == Shown(s, key)
  {
    assert ConsistentAt(s, j) && (j in s.desired ==> s.desired[j].id != s.desired[key].id);
    DeliveryLeaves(s, resolver, j, change, key);
  }

  lemma DeliveryLeaves(s: Instance, resolver: Resolver, j: ResourceKey, change: ResourceChange, key: ResourceKey)
    requires ConsistentAt(s, j) && Settled(s, key) && change.About(j)
    requires j in s.desired ==> s.desired[j].id != s.desired[key].id
    ensures Settled(Apply(s, resolver, change), key) && Shown(Apply(s, resolver, change), key) == Shown(s, key)
  {
    if Settled(s, j) {
      SettledChange(s, resolver, j, change);
    } else {
      OtherChange(s, resolver, j, change);
    }
  }

  // ---------- every step keeps the pipeline sound and current ----------

  lemma AcceptKeepsCurrentAt(p: Pipeline, resolver: Resolver, s: Instance, key: ResourceKey, change: ResourceChange,
                             routed: bool, k: ResourceKey)
    requires change.HasSide() && Announces(p.live, key, change) && CurrentAt(p.live, p.queue, resolver, s, k)
    requires !routed ==> !Settled(s, key)
    ensures CurrentAt(Install(p.live, key, change.newRes), if routed then Accept(p.queue, change) else p.queue,
                      resolver, s, k)
  {
  }

  /** What an instance says something about is told of every change. */
  ghost predicate Heard(p: Pipeline, target: ClusterId, key: ResourceKey, change: ResourceChange) {
    forall id :: id in p.instances && Settled(p.instances[id], key) ==> target in Recipients(p.index, change)
  }

  lemma CoveredMeansHeard(p: Pipeline, target: ClusterId, key: ResourceKey, change: ResourceChange)
    requires Covered(p, target) && change.HasSide() && change.About(key)
    ensures Heard(p, target, key, change)
  {
    forall id | id in p.instances && Settled(p.instances[id], key) ensures target in Recipients(p.index, change) {
      assert InstanceIsCovered(p.index, target, p.instances[id]);
      assert key in p.index[target] * (Concerns(change.newRes) + Concerns(change.oldRes));
    }
  }

  lemma AnnouncementKeepsCurrent(p: Pipeline, target: ClusterId, resolver: Resolver, key: ResourceKey,
                                 change: ResourceChange)
    requires Sound(p) && Current(p, resolver) && Legal(p, target, resolver, Announced(key, change))
    requires Heard(p, target, key, change)
    ensures Current(Next(p, target, resolver, Announced(key, change)), resolver)
  {
    var n := Next(p, target, resolver, Announced(key, change));
    forall id | id in p.instances ensures InstanceIsCurrent(n.live, n.queue, resolver, n.instances[id]) {
      var s, routed := p.instances[id], target in Recipients(p.index, change);
      assert InstanceIsCurrent(p.live, p.queue, resolver, s);
      forall k ensures CurrentAt(n.live, n.queue, resolver, s, k) {
        AcceptKeepsCurrentAt(p, resolver, s, key, change, routed, k);
      }
    }
  }

  lemma SendKeepsCurrentAt(live: World, queue: QueueState, resolver: Resolver, s: Instance, k: ResourceKey)
    requires Indexed(queue) && queue.order != [] && PendingAt(queue, queue.order[0])
    requires Consistent(s) && CurrentAt(live, queue, resolver, s, k)
    ensures queue.order[0] in queue.queued
    ensures CurrentAt(live, Send(queue), resolver, Apply(s, resolver, queue.queued[queue.order[0]]), k)
  {
    var j := queue.order[0];
    assert j in queue.order;
    var change := queue.queued[j];
    ApplyKeepsDesired(s, resolver, change);
    if Settled(s, k) {
      if k == j {
        DeliveryShows(s, resolver, k, change);
      } else {
        DeliveryLeavesOthers(s, resolver, j, change, k);
      }
    }
  }

  lemma DeliveryKeepsCurrent(p: Pipeline, target: ClusterId, resolver: Resolver)
    requires Sound(p) && Current(p, resolver) && Legal(p, target, resolver, Delivered)
    ensures Current(Next(p, target, resolver, Delivered), resolver)
  {
    var n := Next(p, target, resolver, Delivered);
    forall id | id in p.instances ensures InstanceIsCurrent(n.live, n.queue, resolver, n.instances[id]) {
      assert InstanceIsCurrent(p.live, p.queue, resolver, p.instances[id]) && Consistent(p.instances[id]);
      assert PendingAt(p.queue, p.queue.order[0]);
      forall k ensures CurrentAt(n.live, n.queue, resolver, n.instances[id], k) {
        SendKeepsCurrentAt(p.live, p.queue, resolver, p.instances[id], k);
      }
    }
  }

  lemma StepStaysSound(p: Pipeline, target: ClusterId, resolver: Resolver, step: Step)
    requires Sound(p) && Legal(p, target, resolver, step)
    ensures Sound(Next(p, target, resolver, step))
  {
    match step
    case Announced(key, change) => AnnouncementStaysSound(p, target, resolver, key, change);
    case Delivered =>
      StepsStayIndexed(p.queue, ReaderReady);
      DeliveryStaysSound(p, target, resolver);
    case Published(_) =>
    case Listed(_, _) =>
    case PublishedBy(_, _) =>
    case Rescanned(_, _) =>
  }

  lemma AnnouncementStaysSound(p: Pipeline, target: ClusterId, resolver: Resolver, key: ResourceKey,
                               change: ResourceChange)
    requires Sound(p) && Legal(p, target, resolver, Announced(key, change))
    ensures Sound(Next(p, target, resolver, Announced(key, change)))
  {
    var n := Next(p, target, resolver, Announced(key, change));
    StepsStayIndexed(p.queue, Arrive(change));
    forall k ensures LiveAt(n.live, k) && PendingAt(n.queue, k) {
      assert LiveAt(p.live, k) && PendingAt(p.queue, k);
    }
  }

  lemma DeliveryStaysSound(p: Pipeline, target: ClusterId, resolver: Resolver)
    requires Sound(p) && Legal(p, target, resolver, Delivered)
    ensures var n := Next(p, target, resolver, Delivered);
            && (forall k :: PendingAt(n.queue, k))
            && (forall id :: id in n.instances ==> Consistent(n.instances[id]))
  {
    var n, key := Next(p, target, resolver, Delivered), p.queue.order[0];
    assert key in p.queue.order && PendingAt(p.queue, key);
    var change := p.queue.queued[key];
    forall k ensures PendingAt(n.queue, k) {
      assert PendingAt(p.queue, k);
    }
    forall id | id in p.instances ensures Consistent(n.instances[id]) {
      ChangeKeepsConsistent(p.instances[id], resolver, key, change);
    }
  }

  // ---------- rescans while changes are pending ----------

  /** The pending change leads to what is live now and, if the resource is live, has an old side. */
  predicate PendingIsSafe(live: World, queue: QueueState, resolver: Resolver, s: Instance, key: ResourceKey) {
    Settled(s, key) && key in queue.queued ==>
      var id := s.desired[key].id;
      && Expected(resolver, id, queue.queued[key].newRes) == Expected(resolver, id, Lookup(live, key))
      && (queue.queued[key].oldRes.None? ==> key !in live)
  }

  ghost predicate AllPendingSafe(live: World, queue: QueueState, resolver: Resolver, s: Instance) {
    forall k :: PendingIsSafe(live, queue, resolver, s, k)
  }

  /** A rescan leaves its instance current exactly when every change pending for what it found is safe: an addition
      still waiting to be delivered is not. */
  lemma RescanIsCurrentIff(live: World, queue: QueueState, resolver: Resolver, found: Instance)
    requires Consistent(found) && Reflects(found, resolver, live)
    ensures InstanceIsCurrent(live, queue, resolver, found) <==> AllPendingSafe(live, queue, resolver, found)
  {
    forall k ensures CurrentAt(live, queue, resolver, found, k) <==> PendingIsSafe(live, queue, resolver, found, k) {
      if Settled(found, k) {
        ReflectedIsShown(found, resolver, live, k);
      }
    }
    if InstanceIsCurrent(live, queue, resolver, found) {
      assert forall k :: CurrentAt(live, queue, resolver, found, k);
    } else {
      assert exists k :: !CurrentAt(live, queue, resolver, found, k);
    }
  }

  lemma ReflectedIsShown(s: Instance, resolver: Resolver, live: World, k: ResourceKey)
    requires Consistent(s) && Settled(s, k)
    ensures ReflectsAt(s, resolver, live, k) <==> Shown(s, k) == Expected(resolver, s.desired[k].id, Lookup(live, k))
  {
    assert ConsistentAt(s, k);
  }

  // ---------- every schedule ----------

  /** Every step is possible when it happens. */
  ghost predicate Possible(p: Pipeline, target: ClusterId, resolver: Resolver, steps: seq<Step>)
    requires Sound(p)
    decreases |steps|
  {
    steps == [] ||
    (&& Legal(p, target, resolver, steps[0])
     && (StepStaysSound(p, target, resolver, steps[0]);
         Possible(Next(p, target, resolver, steps[0]), target, resolver, steps[1..])))
  }

  ghost function Run(p: Pipeline, target: ClusterId, resolver: Resolver, steps: seq<Step>): (final: Pipeline)
    requires Sound(p) && Possible(p, target, resolver, steps)
    ensures Sound(final)
    decreases |steps|
  {
    if steps == [] then p
    else
      StepStaysSound(p, target, resolver, steps[0]);
      Run(Next(p, target, resolver, steps[0]), target, resolver, steps[1..])
  }

  /** A rescan finds only safe changes pending, and an announcement is routed if an instance says something about its
      resource. */
  ghost predicate CarefulStep(p: Pipeline, target: ClusterId, resolver: Resolver, step: Step) {
    match step
    case Announced(key, change) => Heard(p, target, key, change)
    case Rescanned(_, found) => AllPendingSafe(p.live, p.queue, resolver, found)
    case _ => true
  }

  ghost predicate Careful(p: Pipeline, target: ClusterId, resolver: Resolver, steps: seq<Step>)
    requires Sound(p) && Possible(p, target, resolver, steps)
    decreases |steps|
  {
    steps == [] ||
    (&& CarefulStep(p, target, resolver, steps[0])
     && (StepStaysSound(p, target, resolver, steps[0]);
         Careful(Next(p, target, resolver, steps[0]), target, resolver, steps[1..])))
  }

  lemma StepStaysCurrent(p: Pipeline, target: ClusterId, resolver: Resolver, step: Step)
    requires Sound(p) && Current(p, resolver) && Legal(p, target, resolver, step)
    requires CarefulStep(p, target, resolver, step)
    ensures Current(Next(p, target, resolver, step), resolver)
  {
    match step
    case Announced(key, change) => AnnouncementKeepsCurrent(p, target, resolver, key, change);
    case Delivered => DeliveryKeepsCurrent(p, target, resolver);
    case Rescanned(_, found) => RescanIsCurrentIff(p.live, p.queue, resolver, found);
    case Listed(_, _) =>
    case PublishedBy(_, _) =>
    case Published(_) =>
  }

  /** However announcements, listings, publications, deliveries and rescans interleave, careful steps keep the pipeline
      current. */
  lemma {:induction false} CarefulRunsStayCurrent(p: Pipeline, target: ClusterId, resolver: Resolver, steps: seq<Step>)
    requires Sound(p) && Current(p, resolver)
    requires Possible(p, target, resolver, steps) && Careful(p, target, resolver, steps)
    ensures Current(Run(p, target, resolver, steps), resolver)
    decreases |steps|
  {
    if steps != [] {
      StepStaysSound(p, target, resolver, steps[0]);
      StepStaysCurrent(p, target, resolver, steps[0]);
      CarefulRunsStayCurrent(Next(p, target, resolver, steps[0]), target, resolver, steps[1..]);
    }
  }

  /** Whenever the queue has drained, the incrementally maintained view is what a look at the live cluster would
      give. */
  lemma DrainedIsUpToDate(p: Pipeline, resolver: Resolver)
    requires Sound(p) && Current(p, resolver) && p.queue.order == []
    ensures AllReflect(p, resolver)
  {
    forall id | id in p.instances ensures Reflects(p.instances[id], resolver, p.live) {
      var s := p.instances[id];
      assert InstanceIsCurrent(p.live, p.queue, resolver, s);
      forall k ensures ReflectsAt(s, resolver, p.live, k) {
        assert k !in p.queue.order && CurrentAt(p.live, p.queue, resolver, s, k);
        if Settled(s, k) {
          ReflectedIsShown(s, resolver, p.live, k);
        }
      }
    }
  }

  /** Nothing is wrong with a target that has only begun, whatever is live. */
  function NewTarget(live: World, index: Interests): (p: Pipeline)
    ensures (forall k :: LiveAt(live, k)) ==> Sound(p)
  {
    Pipeline(live, index, EMPTY_QUEUE, map[])
  }

  /** A target starts with nothing, so this covers any part of its life whose steps are careful. */
  lemma CarefulLifeIsUpToDate(live: World, index: Interests, target: ClusterId, resolver: Resolver, steps: seq<Step>)
    requires forall k :: LiveAt(live, k)
    requires Possible(NewTarget(live, index), target, resolver, steps)
    requires Careful(NewTarget(live, index), target, resolver, steps)
    requires Run(NewTarget(live, index), target, resolver, steps).queue.order == []
    ensures AllReflect(Run(NewTarget(live, index), target, resolver, steps), resolver)
  {
    CarefulRunsStayCurrent(NewTarget(live, index), target, resolver, steps);
    DrainedIsUpToDate(Run(NewTarget(live, index), target, resolver, steps), resolver);
  }

  // ---------- between rescans, being covered is enough to be careful ----------

  ghost predicate WithoutRescans(steps: seq<Step>) {
    forall step :: step in steps ==> !step.Rescanned?
  }

  lemma StepStaysCovered(p: Pipeline, target: ClusterId, resolver: Resolver, step: Step)
    requires Sound(p) && Covered(p, target) && Legal(p, target, resolver, step) && !step.Rescanned?
    ensures Covered(Next(p, target, resolver, step), target)
  {
    var n := Next(p, target, resolver, step);
    forall id | id in n.instances ensures InstanceIsCovered(n.index, target, n.instances[id]) {
      assert InstanceIsCovered(p.index, target, p.instances[id]);
      if step.Delivered? {
        assert p.queue.order[0] in p.queue.order;
        ApplyKeepsDesired(p.instances[id], resolver, p.queue.queued[p.queue.order[0]]);
      }
      forall k | Settled(n.instances[id], k) ensures k in KeysOf(n.index, target) {
        assert Settled(p.instances[id], k) && k in KeysOfInterest(p.instances[id]);
      }
    }
  }

  lemma {:induction false} CoveredRunsAreCareful(p: Pipeline, target: ClusterId, resolver: Resolver, steps: seq<Step>)
    requires Sound(p) && Covered(p, target) && Possible(p, target, resolver, steps) && WithoutRescans(steps)
    ensures Careful(p, target, resolver, steps) && Covered(Run(p, target, resolver, steps), target)
    decreases |steps|
  {
    if steps != [] {
      assert steps[0] in steps && WithoutRescans(steps[1..]);
      StepStaysSound(p, target, resolver, steps[0]);
      StepStaysCovered(p, target, resolver, steps[0]);
      if steps[0].Announced? {
        CoveredMeansHeard(p, target, steps[0].key, steps[0].change);
      }
      CoveredRunsAreCareful(Next(p, target, resolver, steps[0]), target, resolver, steps[1..]);
    }
  }

  // ---------- draining ----------

  function Deliveries(n: nat): seq<Step> {
    if n == 0 then [] else [Delivered] + Deliveries(n - 1)
  }

  function ShownOnceDrained(queue: QueueState, resolver: Resolver, s: Instance,
                            key: ResourceKey): Option<PresentMonitoredResource>
    requires key in s.desired
  {
    if key in queue.queued && queue.queued[key].HasSide()
    then Expected(resolver, s.desired[key].id, queue.queued[key].newRes)
    else Shown(s, key)
  }

  /** Later is what p becomes by delivering some of its queue, as far as the resource at key is concerned. */
  ghost predicate OnTheWay(p: Pipeline, later: Pipeline, resolver: Resolver, id: ApplicationInstanceId,
                           key: ResourceKey)
    requires id in p.instances && Settled(p.instances[id], key)
  {
    && later.live == p.live && id in later.instances
    && later.instances[id].desired == p.instances[id].desired && later.instances[id].unknown == p.instances[id].unknown
    && ShownOnceDrained(later.queue, resolver, later.instances[id], key) ==
       ShownOnceDrained(p.queue, resolver, p.instances[id], key)
  }

  lemma DeliveryIsOnTheWay(p: Pipeline, target: ClusterId, resolver: Resolver, id: ApplicationInstanceId,
                           key: ResourceKey)
    requires Sound(p) && Legal(p, target, resolver, Delivered) && id in p.instances && Settled(p.instances[id], key)
    ensures OnTheWay(p, Next(p, target, resolver, Delivered), resolver, id, key)
  {
    assert p.queue.order[0] in p.queue.order && PendingAt(p.queue, p.queue.order[0]);
    SendKeepsWhatIsShown(p.queue, resolver, p.instances[id], key);
  }

  lemma SendKeepsWhatIsShown(queue: QueueState, resolver: Resolver, s: Instance, key: ResourceKey)
    requires Consistent(s) && Settled(s, key)
    requires queue.order != [] && queue.order[0] in queue.queued && PendingAt(queue, queue.order[0])
    ensures var t := Apply(s, resolver, queue.queued[queue.order[0]]);
            && t.desired == s.desired && t.unknown == s.unknown
            && ShownOnceDrained(Send(queue), resolver, t, key) == ShownOnceDrained(queue, resolver, s, key)
  {
    var j := queue.order[0];
    ApplyKeepsDesired(s, resolver, queue.queued[j]);
    if j == key {
      DeliveryShows(s, resolver, key, queue.queued[j]);
    } else {
      DeliveryLeavesOthers(s, resolver, j, queue.queued[j], key);
    }
  }

  /** Delivering everything that is queued. */
  ghost function Drain(p: Pipeline, target: ClusterId, resolver: Resolver): (drained: Pipeline)
    requires Sound(p)
    ensures Sound(drained) && drained.queue.order == []
    decreases |p.queue.order|
  {
    if p.queue.order == [] then p
    else
      StepStaysSound(p, target, resolver, Delivered);
      Drain(Next(p, target, resolver, Delivered), target, resolver)
  }

  lemma StepThenSteps(p: Pipeline, target: ClusterId, resolver: Resolver, step: Step, rest: seq<Step>)
    requires Sound(p) && Legal(p, target, resolver, step)
    requires Sound(Next(p, target, resolver, step)) && Possible(Next(p, target, resolver, step), target, resolver, rest)
    ensures Possible(p, target, resolver, [step] + rest)
    ensures Run(p, target, resolver, [step] + rest) == Run(Next(p, target, resolver, step), target, resolver, rest)
  {
    assert ([step] + rest)[0] == step && ([step] + rest)[1..] == rest;
  }

  lemma DeliveryThenDrain(p: Pipeline, target: ClusterId, resolver: Resolver, next: Pipeline, rest: seq<Step>)
    requires Sound(p) && Legal(p, target, resolver, Delivered)
    requires next == Next(p, target, resolver, Delivered) && Sound(next) && Possible(next, target, resolver, rest)
    requires Run(next, target, resolver, rest) == Drain(next, target, resolver)
    ensures Possible(p, target, resolver, [Delivered] + rest)
    ensures Run(p, target, resolver, [Delivered] + rest) == Drain(p, target, resolver)
  {
    StepThenSteps(p, target, resolver, Delivered, rest);
  }

  /** Steps that deliver everything that is queued, and nothing else. */
  ghost predicate Drains(p: Pipeline, target: ClusterId, resolver: Resolver, steps: seq<Step>)
    requires Sound(p)
  {
    Possible(p, target, resolver, steps) && Run(p, target, resolver, steps) == Drain(p, target, resolver)
  }

  lemma {:induction false} DrainIsPossible(p: Pipeline, target: ClusterId, resolver: Resolver)
    requires Sound(p)
    ensures Drains(p, target, resolver, Deliveries(|p.queue.order|))
    decreases |p.queue.order|
  {
    var n := |p.queue.order|;
    if n > 0 {
      StepStaysSound(p, target, resolver, Delivered);
      var next := Next(p, target, resolver, Delivered);
      DrainIsPossible(next, target, resolver);
      DeliveryThenDrain(p, target, resolver, next, Deliveries(n - 1));
      assert Deliveries(n) == [Delivered] + Deliveries(n - 1);
    }
  }

  lemma {:induction false} DeliveriesAreNoRescans(n: nat)
    ensures WithoutRescans(Deliveries(n))
  {
    if n > 0 {
      DeliveriesAreNoRescans(n - 1);
    }
  }

  /** Draining shows each queued resource as its new side, unless it has neither side, and leaves the others. */
  lemma {:induction false} DrainShows(p: Pipeline, target: ClusterId, resolver: Resolver, id: ApplicationInstanceId,
                                      key: ResourceKey)
    requires Sound(p) && id in p.instances && Settled(p.instances[id], key)
    ensures OnTheWay(p, Drain(p, target, resolver), resolver, id, key)
    decreases |p.queue.order|
  {
    if p.queue.order != [] {
      StepStaysSound(p, target, resolver, Delivered);
      DeliveryIsOnTheWay(p, target, resolver, id, key);
      DrainShows(Next(p, target, resolver, Delivered), target, resolver, id, key);
    }
  }

  // ---------- what is needed, exactly ----------

  /** A possible run without rescans that ends with the queue drained. */
  ghost predicate Goes(p: Pipeline, target: ClusterId, resolver: Resolver, steps: seq<Step>)
    requires Sound(p)
  {
    WithoutRescans(steps) && Possible(p, target, resolver, steps) && Run(p, target, resolver, steps).queue.order == []
  }

  ghost predicate CanGoWrong(p: Pipeline, target: ClusterId, resolver: Resolver)
    requires Sound(p)
  {
    exists steps :: EndsWrong(p, target, resolver, steps)
  }

  ghost predicate EndsWrong(p: Pipeline, target: ClusterId, resolver: Resolver, steps: seq<Step>)
    requires Sound(p)
  {
    Goes(p, target, resolver, steps) && !AllReflect(Run(p, target, resolver, steps), resolver)
  }

  lemma GoesOn(p: Pipeline, target: ClusterId, resolver: Resolver, step: Step, next: Pipeline)
    requires Sound(p) && Legal(p, target, resolver, step) && !step.Rescanned?
    requires next == Next(p, target, resolver, step) && Sound(next) && CanGoWrong(next, target, resolver)
    ensures CanGoWrong(p, target, resolver)
  {
    var rest :| EndsWrong(next, target, resolver, rest);
    StepThenWrong(p, target, resolver, step, next, rest);
  }

  lemma StepThenWrong(p: Pipeline, target: ClusterId, resolver: Resolver, step: Step, next: Pipeline, rest: seq<Step>)
    requires Sound(p) && Legal(p, target, resolver, step) && !step.Rescanned?
    requires next == Next(p, target, resolver, step) && Sound(next) && EndsWrong(next, target, resolver, rest)
    ensures EndsWrong(p, target, resolver, [step] + rest)
  {
    StepThenSteps(p, target, resolver, step, rest);
  }

  lemma StaleOnceDrained(p: Pipeline, target: ClusterId, resolver: Resolver, id: ApplicationInstanceId,
                         key: ResourceKey)
    requires Sound(p) && id in p.instances && Settled(p.instances[id], key)
    requires ShownOnceDrained(p.queue, resolver, p.instances[id], key) !=
             Expected(resolver, p.instances[id].desired[key].id, Lookup(p.live, key))
    ensures CanGoWrong(p, target, resolver)
  {
    DrainIsPossible(p, target, resolver);
    DeliveriesAreNoRescans(|p.queue.order|);
    DrainShows(p, target, resolver, id, key);
    var drained := Drain(p, target, resolver);
    assert key !in drained.queue.order;
    ReflectedIsShown(drained.instances[id], resolver, drained.live, key);
    assert !AllReflect(drained, resolver) by {
      assert !ReflectsAt(drained.instances[id], resolver, drained.live, key);
    }
    assert EndsWrong(p, target, resolver, Deliveries(|p.queue.order|));
  }

  /** A resource is shown while the queue holds an addition of it: its deletion leaves a change with neither side. */
  lemma StaleOnceDeleted(p: Pipeline, target: ClusterId, resolver: Resolver, id: ApplicationInstanceId,
                         key: ResourceKey)
    requires Sound(p) && Covered(p, target) && id in p.instances && Settled(p.instances[id], key) && key in p.live
    requires key in p.queue.queued && p.queue.queued[key].oldRes.None? && Shown(p.instances[id], key).Some?
    ensures CanGoWrong(p, target, resolver)
  {
    assert LiveAt(p.live, key);
    var change := ResourceChange(None, Some(p.live[key]));
    CoveredMeansHeard(p, target, key, change);
    StepStaysSound(p, target, resolver, Announced(key, change));
    var next := Next(p, target, resolver, Announced(key, change));
    assert next.queue.queued[key] == ResourceChange(None, None);
    StaleOnceDrained(next, target, resolver, id, key);
    GoesOn(p, target, resolver, Announced(key, change), next);
  }

  lemma NotCurrentCanGoWrong(p: Pipeline, target: ClusterId, resolver: Resolver, id: ApplicationInstanceId,
                             key: ResourceKey)
    requires Sound(p) && Covered(p, target)
    requires id in p.instances && !CurrentAt(p.live, p.queue, resolver, p.instances[id], key)
    ensures CanGoWrong(p, target, resolver)
  {
    var s := p.instances[id];
    if ShownOnceDrained(p.queue, resolver, s, key) != Expected(resolver, s.desired[key].id, Lookup(p.live, key)) {
      StaleOnceDrained(p, target, resolver, id, key);
    } else {
      StaleOnceDeleted(p, target, resolver, id, key);
    }
  }

  /** A resource without owners, so that nobody hears of it but those interested in its own key. */
  function Unowned(key: ResourceKey, uid: Uid): Resource {
    Resource(ObjectRef(TypeMeta(GroupVersion(key.group, ""), key.kind), key.namespace, key.name, uid, ""), [],
             ResourceInfo(key, []), None)
  }

  /** A creation nobody told the target about leaves something else shown than what is live. */
  lemma StaleOnceCreated(p: Pipeline, target: ClusterId, resolver: Resolver, id: ApplicationInstanceId,
                         key: ResourceKey)
    requires Sound(p) && id in p.instances && Settled(p.instances[id], key)
    requires key !in KeysOf(p.index, target) && key !in p.live
    ensures CanGoWrong(p, target, resolver)
  {
    var shown := ShownOnceDrained(p.queue, resolver, p.instances[id], key);
    var res := Unowned(key, if shown.Some? then shown.value.ref.uid + "'" else "");
    var created := Announced(key, ResourceChange(Some(res), None));
    UnownedIsUnheard(p, target, resolver, key, res);
    StepStaysSound(p, target, resolver, created);
    var next := p.(live := p.live[key := res]);
    StaleOnceDrained(next, target, resolver, id, key);
    GoesOn(p, target, resolver, created, next);
  }

  lemma UnownedIsUnheard(p: Pipeline, target: ClusterId, resolver: Resolver, key: ResourceKey, res: Resource)
    requires Sound(p) && key !in KeysOf(p.index, target) && key !in p.live && res == Unowned(key, res.ref.uid)
    ensures var created := Announced(key, ResourceChange(Some(res), None));
            && Legal(p, target, resolver, created)
            && Next(p, target, resolver, created) == p.(live := p.live[key := res])
  {
    var change := ResourceChange(Some(res), None);
    assert Concerns(change.newRes) + Concerns(change.oldRes) == {key};
    assert target !in Recipients(p.index, change);
  }

  lemma NotCoveredCanGoWrong(p: Pipeline, target: ClusterId, resolver: Resolver, id: ApplicationInstanceId,
                             key: ResourceKey)
    requires Sound(p) && id in p.instances && Settled(p.instances[id], key) && key !in KeysOf(p.index, target)
    ensures CanGoWrong(p, target, resolver)
  {
    if key !in p.live {
      StaleOnceCreated(p, target, resolver, id, key);
    } else {
      assert LiveAt(p.live, key);
      var deleted := Announced(key, ResourceChange(None, Some(p.live[key])));
      StepStaysSound(p, target, resolver, deleted);
      var next := Next(p, target, resolver, deleted);
      StaleOnceCreated(next, target, resolver, id, key);
      GoesOn(p, target, resolver, deleted, next);
    }
  }

  /** Until the next rescan nothing can go wrong, whatever the schedule, if and only if the pipeline is current and the
      target is interested in everything its instances say something about. */
  lemma NothingGoesWrongIff(p: Pipeline, target: ClusterId, resolver: Resolver)
    requires Sound(p)
    ensures Current(p, resolver) && Covered(p, target) <==> !CanGoWrong(p, target, resolver)
  {
    if id :| id in p.instances && !InstanceIsCovered(p.index, target, p.instances[id]) {
      var key :| Settled(p.instances[id], key) && key !in KeysOf(p.index, target);
      NotCoveredCanGoWrong(p, target, resolver, id, key);
    } else if id :| id in p.instances && !InstanceIsCurrent(p.live, p.queue, resolver, p.instances[id]) {
      var key :| !CurrentAt(p.live, p.queue, resolver, p.instances[id], key);
      NotCurrentCanGoWrong(p, target, resolver, id, key);
    } else {
      forall steps | Goes(p, target, resolver, steps) ensures !EndsWrong(p, target, resolver, steps) {
        CoveredRunsAreCareful(p, target, resolver, steps);
        CarefulRunsStayCurrent(p, target, resolver, steps);
        DrainedIsUpToDate(Run(p, target, resolver, steps), resolver);
      }
    }
  }

  /** Nothing can go wrong after a rescan, if nothing could before, exactly when what is pending is safe and the target
      had already published what the rescan came to say something about. */
  lemma RescanIsHarmlessIff(p: Pipeline, target: ClusterId, resolver: Resolver, id: ApplicationInstanceId,
                            found: Instance, next: Pipeline)
    requires Sound(p) && Current(p, resolver) && Covered(p, target) && Legal(p, target, resolver, Rescanned(id, found))
    requires next == Next(p, target, resolver, Rescanned(id, found)) && Sound(next)
    ensures !CanGoWrong(next, target, resolver) <==>
            AllPendingSafe(p.live, p.queue, resolver, found) && InstanceIsCovered(p.index, target, found)
  {
    NothingGoesWrongIff(next, target, resolver);
    RescanIsCurrentIff(p.live, p.queue, resolver, found);
    OneInstanceDecides(p, target, resolver, id, found, next);
  }

  lemma OneInstanceDecides(p: Pipeline, target: ClusterId, resolver: Resolver, id: ApplicationInstanceId,
                           found: Instance, next: Pipeline)
    requires Current(p, resolver) && Covered(p, target) && next == p.(instances := p.instances[id := found])
    ensures Current(next, resolver) <==> InstanceIsCurrent(p.live, p.queue, resolver, found)
    ensures Covered(next, target) <==> InstanceIsCovered(p.index, target, found)
  {
    assert next.instances[id] == found;
    assert forall i :: i in next.instances && i != id ==> next.instances[i] == p.instances[i];
  }

  // ---------- a rescan reflects the live cluster ----------

  /** What was discovered is live, and every live desired resource that could be looked for was reached. */
  ghost predicate Faithful(s: Instance, discovered: seq<Discovered>, live: World) {
    && (forall i :: 0 <= i < |discovered| ==>
          Lookup(live, discovered[i].resource.info.key) == Some(discovered[i].resource))
    && (forall k :: Settled(s, k) && k in live ==> Reached(discovered, k))
  }

  lemma RescanReflects(s: Instance, scope: Scope, cache: ClusterCache, discoveryHealthy: bool, resolver: Resolver,
                       discovered: seq<Discovered>, live: World)
    requires IsRescan(s, scope, cache, discoveryHealthy, resolver, discovered) && Faithful(s, discovered, live)
    ensures Reflects(s, resolver, live)
  {
    forall k ensures ReflectsAt(s, resolver, live, k) {
      if Settled(s, k) {
        assert ClassifiedAt(s.desired, scope, cache, discoveryHealthy, resolver, discovered,
                            Monitored(s.present, s.children, s.missing, s.unknown), k);
      }
    }
  }

  /** From one rescan, any run of deliveries leads to the present and missing resources that another rescan finds at the
      end, if the same resources are unknown. */
  lemma RunsAgreeWithRescans(s: Instance, again: Instance, scope: Scope, cache: ClusterCache, discoveryHealthy: bool,
                             resolver: Resolver, discovered: seq<Discovered>, live: World, deliveries: seq<Delivery>,
                             laterCache: ClusterCache, laterHealthy: bool, rediscovered: seq<Discovered>)
    requires Consistent(s) && IsRescan(s, scope, cache, discoveryHealthy, resolver, discovered)
    requires Faithful(s, discovered, live) && FollowsDeliveries(live, deliveries)
    requires Consistent(again) && IsRescan(again, scope, laterCache, laterHealthy, resolver, rediscovered)
    requires Faithful(again, rediscovered, Replay(live, deliveries))
    requires again.desired == s.desired && again.unknown == s.unknown
    ensures ApplyAll(s, resolver, deliveries).present == again.present
    ensures ApplyAll(s, resolver, deliveries).missing == again.missing
  {
    RescanReflects(s, scope, cache, discoveryHealthy, resolver, discovered, live);
    RescanReflects(again, scope, laterCache, laterHealthy, resolver, rediscovered, Replay(live, deliveries));
    EveryRunReflectsTheCluster(s, resolver, live, deliveries);
    RunsKeepDesired(s, resolver, deliveries);
    ReflectionIsUnique(ApplyAll(s, resolver, deliveries), again, resolver, Replay(live, deliveries));
  }
}
