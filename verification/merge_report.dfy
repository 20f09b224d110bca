/** When what a merge reports leaves Octopus knowing what the instance monitors. */
module MergeReports {
  import opened Kubernetes
  import opened DesiredResources
  import opened MonitoredResources
  import opened ChangeQueues
  import opened Instances
  import opened InstanceProperties
  import opened Rescans
  import opened ChildOwners
  import opened Targets
  import opened RootOwners
  import opened ChildTracking
  import opened ClusterStates
  import opened OctopusViews

  /** The desired resources a merge's report says something about. */
  function Reported(resolved: DesiredMap, after: Instance): set<DesiredResourceId> {
    Ids(resolved) * Ids(after.desired)
  }

  /** What is said about the other desired resources is the same. */
  predicate OthersUnchanged(before: Instance, after: Instance, ids: set<DesiredResourceId>) {
    && before.present - ids == after.present - ids
    && before.missing - ids == after.missing - ids
    && before.unknown - ids == after.unknown - ids
  }

  /** Nobody has come to desire an earlier child, and the rescan still came across it. */
  predicate StillChild(after: Instance, discovered: seq<Discovered>, key: ResourceKey) {
    key !in after.desired && Reached(discovered, key)
  }

  /** The child hangs beneath no resource the report calls present, so the report leaves it out. */
  predicate LeftOut(after: Instance, resolved: DesiredMap, key: ResourceKey)
    requires key in after.children
  {
    after.children[key].rootOwnerId !in PresentUids(Delta(after, Ids(resolved)).present)
  }

  /** If the report leaves the child out, it was known as it is. */
  predicate KnownIfLeftOut(before: Instance, resolved: DesiredMap, after: Instance, key: ResourceKey) {
    key in after.children && LeftOut(after, resolved, key) ==>
      key in before.children && before.children[key] == after.children[key]
  }

  /** Earlier children are still children, and children the report leaves out were already known as they are. */
  ghost predicate ChildrenCovered(before: Instance, resolved: DesiredMap, after: Instance,
                                  discovered: seq<Discovered>)
  {
    && (forall k :: k in before.children ==> StillChild(after, discovered, k))
    && (forall k :: KnownIfLeftOut(before, resolved, after, k))
  }

  /** A merge reports the incoming resources and what hangs beneath those that are present, and no deleted children.
      Octopus ends up with what the instance monitors exactly when the rescan found nothing new about the other desired
      resources, came across every earlier child as a child, and found those the report leaves out as they were. */
  lemma MergeReportSufficesIff(before: Instance, resolved: DesiredMap, a: Answers, after: Instance, trace: Trace)
    requires FoundBy(Merge(before, resolved), a, after, true, trace)
    ensures Receive(Snapshot(before), Delta(after, Ids(resolved))) == Snapshot(after) <==>
            && OthersUnchanged(before, after, Reported(resolved, after))
            && ChildrenCovered(before, resolved, after, trace.discovered)
  {
    var incoming := Ids(resolved);
    DeltaIsExact(after, a.scope, a.cache, a.discoveryHealthy, a.resolver, trace.discovered, incoming);
    assert CoversIncoming(after, incoming) && Mentioned(Delta(after, incoming)) == Reported(resolved, after);
    ReceivingIsByParts(before, after, incoming);
    FoundAreStillChildren(after, a.resolver, trace.discovered);
    ChildrenCoveredIff(before, resolved, after, trace.discovered, Delta(after, incoming).children);
  }

  lemma ReceivingIsByParts(before: Instance, after: Instance, incoming: set<DesiredResourceId>)
    ensures var delta := Delta(after, incoming);
            Receive(Snapshot(before), delta) == Snapshot(after) <==>
            OthersUnchanged(before, after, Mentioned(delta)) && before.children + delta.children == after.children
  {
    var delta := Delta(after, incoming);
    var ids := Mentioned(delta);
    PartSufficesIff(before.present, after.present, delta.present, ids);
    PartSufficesIff(before.missing, after.missing, delta.missing, ids);
    PartSufficesIff(before.unknown, after.unknown, delta.unknown, ids);
    assert before.children - {} == before.children;
  }

  lemma ChildrenCoveredIff(before: Instance, resolved: DesiredMap, after: Instance, discovered: seq<Discovered>,
                           part: ChildMap)
    requires part == Delta(after, Ids(resolved)).children
    requires forall k :: k in after.children <==> StillChild(after, discovered, k)
    ensures before.children + part == after.children <==> ChildrenCovered(before, resolved, after, discovered)
  {
    ChildrenSufficeIff(before.children, after.children, part);
    forall k ensures k in after.children ==> (k in part <==> !LeftOut(after, resolved, k)) {
    }
    if before.children + part == after.children {
      forall k ensures KnownIfLeftOut(before, resolved, after, k) {
      }
    }
    if ChildrenCovered(before, resolved, after, discovered) {
      forall k | k in after.children && k !in part
        ensures k in before.children && before.children[k] == after.children[k]
      {
        assert KnownIfLeftOut(before, resolved, after, k);
      }
    }
  }

  lemma FoundAreStillChildren(after: Instance, resolver: Resolver, discovered: seq<Discovered>)
    requires ChildrenFound(after.desired, resolver, discovered, after.children)
    ensures forall k :: k in after.children <==> StillChild(after, discovered, k)
  {
  }

  lemma PartSufficesIff<V>(before: map<DesiredResourceId, V>, after: map<DesiredResourceId, V>,
                           part: map<DesiredResourceId, V>, ids: set<DesiredResourceId>)
    requires part == map id | id in after && id in ids :: after[id]
    ensures (before - ids) + part == after <==> before - ids == after - ids
  {
    if before - ids == after - ids {
      assert (after - ids) + part == after;
    }
    if (before - ids) + part == after {
      assert after - ids == before - ids;
    }
  }

  lemma ChildrenSufficeIff(before: ChildMap, after: ChildMap, part: ChildMap)
    requires forall k :: k in part ==> k in after && part[k] == after[k]
    ensures before + part == after <==>
            && (forall k :: k in before ==> k in after)
            && (forall k :: k in after && k !in part ==> k in before && before[k] == after[k])
  {
  }

  // ---------- what a rescan finds about the other desired resources ----------

  predicate IsOther(s: Instance, ids: set<DesiredResourceId>, k: ResourceKey) {
    k in s.desired && s.desired[k].id !in ids
  }

  /** Merging and resolving namespaces leave the other resource where it is: it is not overwritten or displaced, and
      there is nothing left to resolve. */
  ghost predicate StaysDesired(before: Instance, resolved: DesiredMap, namespacedMap: NamespacedMap, k: ResourceKey)
    requires k in before.desired
  {
    var all := before.desired + resolved;
    && k !in resolved && before.desired[k].Resolve(namespacedMap) == before.desired[k]
    && (forall j :: j in all && j != k ==> KeyAfterPass(j, all[j], namespacedMap) != k)
  }

  /** What is said to be unknown about the other resource is what the rescan refuses or can't read. */
  predicate StillRefused(before: Instance, a: Answers, discovered: seq<Discovered>, k: ResourceKey)
    requires k in before.desired
  {
    var d := before.desired[k];
    var refusal := Refusal(d, a.scope, a.cache, a.discoveryHealthy);
    && (d.id in before.unknown <==> refusal.Some? || (!Reached(discovered, k) && Inaccessible(d, a.cache)))
    && (d.id in before.unknown ==>
          before.unknown[d.id] ==
          NewUnknown(d, if refusal.Some? then refusal.value else TypeInaccessible(d.typeMeta.ToGroupKind())))
  }

  ghost predicate OthersStay(before: Instance, resolved: DesiredMap, a: Answers, discovered: seq<Discovered>) {
    forall k :: IsOther(before, Ids(resolved), k) ==>
      StaysDesired(before, resolved, a.namespacedMap, k) && StillRefused(before, a, discovered, k)
  }

  predicate SameOther(before: Instance, after: Instance, ids: set<DesiredResourceId>, k: ResourceKey) {
    && (IsOther(before, ids, k) <==> IsOther(after, ids, k))
    && (IsOther(before, ids, k) ==> before.desired[k] == after.desired[k])
  }

  lemma OthersAreStillDesired(before: Instance, resolved: DesiredMap, a: Answers, after: Instance,
                              discovered: seq<Discovered>, k: ResourceKey)
    requires WellKeyed(before.desired) && OthersStay(before, resolved, a, discovered)
    requires Rekeyed(Merge(before, resolved).desired, a.namespacedMap, after.desired)
    ensures SameOther(before, after, Ids(resolved), k)
  {
    var ids, all := Ids(resolved), before.desired + resolved;
    if IsOther(before, ids, k) {
      assert KeyAfterPass(k, all[k], a.namespacedMap) == k && k in all;
      assert ComesFrom(all, a.namespacedMap, k, after.desired[k]);
    } else if IsOther(after, ids, k) {
      assert ComesFrom(all, a.namespacedMap, k, after.desired[k]);
      var j :| j in all && KeyAfterPass(j, all[j], a.namespacedMap) == k
               && all[j].Resolve(a.namespacedMap) == after.desired[k];
      assert IsOther(before, ids, j);
      assert false;
    }
  }

  predicate SameUnknown(s: Instance, t: Instance, id: DesiredResourceId) {
    (id in s.unknown <==> id in t.unknown) && (id in s.unknown ==> s.unknown[id] == t.unknown[id])
  }

  lemma OtherIsRecordedAlike(before: Instance, resolved: DesiredMap, a: Answers, after: Instance,
                             discovered: seq<Discovered>, w: World, k: ResourceKey)
    requires Consistent(before) && Consistent(after)
    requires Reflects(before, a.resolver, w) && Reflects(after, a.resolver, w)
    requires IsRescan(after, a.scope, a.cache, a.discoveryHealthy, a.resolver, discovered)
    requires IsOther(before, Ids(resolved), k) && SameOther(before, after, Ids(resolved), k)
    requires StillRefused(before, a, discovered, k)
    ensures SameRecords(before, after, before.desired[k].id) && SameUnknown(before, after, before.desired[k].id)
  {
    assert ClassifiedAt(after.desired, a.scope, a.cache, a.discoveryHealthy, a.resolver, discovered,
                        Monitored(after.present, after.children, after.missing, after.unknown), k);
    assert ConsistentAt(before, k) && ConsistentAt(after, k);
    assert ReflectsAt(before, a.resolver, w, k) && ReflectsAt(after, a.resolver, w, k);
    ReflectionIsUniqueAt(before, after, a.resolver, w, k);
  }

  lemma OthersAreRecordedAlike(before: Instance, resolved: DesiredMap, a: Answers, after: Instance,
                               discovered: seq<Discovered>, w: World, id: DesiredResourceId)
    requires Consistent(before) && Consistent(after)
    requires Reflects(before, a.resolver, w) && Reflects(after, a.resolver, w)
    requires IsRescan(after, a.scope, a.cache, a.discoveryHealthy, a.resolver, discovered)
    requires OthersStay(before, resolved, a, discovered)
    requires forall k :: SameOther(before, after, Ids(resolved), k)
    requires id !in Ids(resolved)
    ensures SameRecords(before, after, id) && SameUnknown(before, after, id)
  {
    if k :| k in before.desired && before.desired[k].id == id {
      assert IsOther(before, Ids(resolved), k) && SameOther(before, after, Ids(resolved), k);
      OtherIsRecordedAlike(before, resolved, a, after, discovered, w, k);
    } else if k :| k in after.desired && after.desired[k].id == id {
      assert IsOther(after, Ids(resolved), k) && SameOther(before, after, Ids(resolved), k);
      assert false;
    } else {
      assert id !in Ids(before.desired) && id !in Ids(after.desired);
    }
  }

  lemma PartUnchangedIff<V>(before: map<DesiredResourceId, V>, after: map<DesiredResourceId, V>,
                            ids: set<DesiredResourceId>, reported: set<DesiredResourceId>)
    requires reported <= ids
    requires forall id :: id !in ids ==>
               (id in before <==> id in after) && (id in before ==> before[id] == after[id])
    requires forall id :: id in after && id in ids ==> id in reported
    ensures before - reported == after - reported <==> before.Keys * ids <= reported
  {
    if before - reported == after - reported {
      forall id | id in before && id in ids ensures id in reported {
        assert id !in reported ==> id in before - reported;
      }
    }
    if before.Keys * ids <= reported {
      forall id | id !in reported
        ensures (id in before <==> id in after) && (id in before ==> before[id] == after[id])
      {
        assert id in ids && id in before ==> id in before.Keys * ids;
      }
    }
  }

  /** Nothing was recorded about incoming resources that lose their place to another. */
  predicate NoneDisplaced(before: Instance, resolved: DesiredMap, after: Instance) {
    (before.present.Keys + before.missing.Keys + before.unknown.Keys) * Ids(resolved) <= Ids(after.desired)
  }

  lemma PartsOfReported(present: set<DesiredResourceId>, missing: set<DesiredResourceId>,
                        unknown: set<DesiredResourceId>, ids: set<DesiredResourceId>, desired: set<DesiredResourceId>,
                        reported: set<DesiredResourceId>)
    requires reported == ids * desired
    ensures (present + missing + unknown) * ids <= desired <==>
            present * ids <= reported && missing * ids <= reported && unknown * ids <= reported
  {
    assert (present + missing + unknown) * ids == present * ids + missing * ids + unknown * ids;
    assert forall part: set<DesiredResourceId> {:trigger part * ids} ::
        part * ids <= desired <==> part * ids <= reported;
  }

  lemma OthersUnchangedIff(before: Instance, resolved: DesiredMap, after: Instance)
    requires forall id :: id !in Ids(resolved) ==> SameRecords(before, after, id) && SameUnknown(before, after, id)
    requires after.present.Keys + after.missing.Keys + after.unknown.Keys <= Ids(after.desired)
    ensures OthersUnchanged(before, after, Reported(resolved, after)) <==> NoneDisplaced(before, resolved, after)
  {
    var ids, reported := Ids(resolved), Reported(resolved, after);
    PartUnchangedIff(before.present, after.present, ids, reported);
    PartUnchangedIff(before.missing, after.missing, ids, reported);
    PartUnchangedIff(before.unknown, after.unknown, ids, reported);
    PartsOfReported(before.present.Keys, before.missing.Keys, before.unknown.Keys, ids, Ids(after.desired), reported);
  }

  /** Where the instance was up to date and the rescan is too, and the other desired resources have kept their places
      and refusals, what a merge reports is enough exactly if no incoming resource that something was recorded about
      lost its place, the rescan came across every earlier child as a child, and found those the report leaves out as
      they were. */
  lemma ReportSufficesWhenCurrentIff(before: Instance, resolved: DesiredMap, a: Answers, after: Instance, trace: Trace,
                                     w: World)
    requires Rekeyed(Merge(before, resolved).desired, a.namespacedMap, after.desired)
    requires FoundBy(Merge(before, resolved), a, after, true, trace)
    requires WellKeyed(before.desired) && Consistent(before) && Consistent(after)
    requires Reflects(before, a.resolver, w) && Reflects(after, a.resolver, w)
    requires OthersStay(before, resolved, a, trace.discovered)
    ensures Receive(Snapshot(before), Delta(after, Ids(resolved))) == Snapshot(after) <==>
            NoneDisplaced(before, resolved, after) && ChildrenCovered(before, resolved, after, trace.discovered)
  {
    MergeReportSufficesIff(before, resolved, a, after, trace);
    forall k ensures SameOther(before, after, Ids(resolved), k) {
      OthersAreStillDesired(before, resolved, a, after, trace.discovered, k);
    }
    forall id | id !in Ids(resolved) ensures SameRecords(before, after, id) && SameUnknown(before, after, id) {
      OthersAreRecordedAlike(before, resolved, a, after, trace.discovered, w, id);
    }
    OthersUnchangedIff(before, resolved, after);
  }

  /** Both instances record their children as what is live, with roots that are right among their own children. */
  ghost predicate BothShowChildren(before: Instance, after: Instance, resolver: Resolver, w: World) {
    && ShowsChildren(before, resolver, w) && RootsAreCurrent(before.children)
    && ShowsChildren(after, resolver, w) && RootsAreCurrent(after.children)
    && Acyclic(after.children) && OwnersAreGiven(after.children, w)
  }

  lemma SameButRoots(before: Instance, after: Instance, resolver: Resolver, w: World, k: ResourceKey)
    requires BothShowChildren(before, after, resolver, w) && k in before.children && k in after.children
    ensures before.children[k] == after.children[k].(rootOwnerId := before.children[k].rootOwnerId)
  {
    assert ShowsChild(before.children, resolver, w, k) && ShowsChild(after.children, resolver, w, k);
  }

  /** The owners among fewer children are part of those among more. */
  lemma OwnersOfFewer(few: ChildMap, more: ChildMap)
    requires UniqueUids(more) && few.Keys <= more.Keys
    requires forall k :: k in few ==> few[k].ref == more[k].ref && few[k].ownerId == more[k].ownerId
    ensures forall v :: v in OwnersAmong(few) ==> v in OwnersAmong(more) && OwnersAmong(more)[v] == OwnersAmong(few)[v]
  {
    forall j, k | j in few && k in few && few[j].ref.uid == few[k].ref.uid ensures j == k {
      assert more[j].ref.uid == more[k].ref.uid;
    }
    forall v | v in OwnersAmong(few) ensures v in OwnersAmong(more) && OwnersAmong(more)[v] == OwnersAmong(few)[v] {
      var k :| k in few && few[k].ref.uid == v;
      OwnersAmongAt(few, k);
      OwnersAmongAt(more, k);
    }
  }

  /** A child that stays one is recorded as it was exactly if what was its root has not become a child. */
  lemma KnownIffRootStays(before: Instance, after: Instance, resolver: Resolver, w: World, k: ResourceKey)
    requires BothShowChildren(before, after, resolver, w) && before.children.Keys <= after.children.Keys
    requires k in before.children
    ensures before.children[k] == after.children[k] <==> before.children[k].rootOwnerId !in Uids(after.children)
  {
    forall j | j in before.children
      ensures before.children[j].ref == after.children[j].ref && before.children[j].ownerId == after.children[j].ownerId
    {
      SameButRoots(before, after, resolver, w, j);
    }
    OwnersOfFewer(before.children, after.children);
    assert RootIsCurrent(before.children, k) && RootIsCurrent(after.children, k);
    RootWhilePartial(before.children[k].ownerId, OwnersAmong(before.children), OwnersAmong(after.children));
    SameButRoots(before, after, resolver, w, k);
  }

  /** If the report leaves the child out, it is no new one, and what was its root is no child now. */
  predicate RootStaysIfLeftOut(before: Instance, resolved: DesiredMap, after: Instance, key: ResourceKey) {
    key in after.children && LeftOut(after, resolved, key) ==>
      key in before.children && before.children[key].rootOwnerId !in Uids(after.children)
  }

  lemma KnownIfRootsStay(before: Instance, resolved: DesiredMap, after: Instance, resolver: Resolver, w: World)
    requires BothShowChildren(before, after, resolver, w) && before.children.Keys <= after.children.Keys
    ensures (forall k :: KnownIfLeftOut(before, resolved, after, k)) <==>
            (forall k :: RootStaysIfLeftOut(before, resolved, after, k))
  {
    forall k ensures KnownIfLeftOut(before, resolved, after, k) <==> RootStaysIfLeftOut(before, resolved, after, k) {
      if k in before.children {
        KnownIffRootStays(before, after, resolver, w, k);
      }
    }
  }

  /** Earlier children are still children, and the roots of those the report leaves out have stayed. */
  ghost predicate RootsStay(before: Instance, resolved: DesiredMap, after: Instance, discovered: seq<Discovered>) {
    && (forall k :: k in before.children ==> StillChild(after, discovered, k))
    && (forall k :: RootStaysIfLeftOut(before, resolved, after, k))
  }

  lemma CoveredIffRootsStay(before: Instance, resolved: DesiredMap, after: Instance, resolver: Resolver,
                            discovered: seq<Discovered>, w: World)
    requires ChildrenFound(after.desired, resolver, discovered, after.children)
    requires BothShowChildren(before, after, resolver, w)
    ensures ChildrenCovered(before, resolved, after, discovered) <==> RootsStay(before, resolved, after, discovered)
  {
    FoundAreStillChildren(after, resolver, discovered);
    if before.children.Keys <= after.children.Keys {
      KnownIfRootsStay(before, resolved, after, resolver, w);
    } else {
      var k :| k in before.children && k !in after.children;
      assert !StillChild(after, discovered, k);
    }
  }

  /** Where the instance was right about its children too, what a merge reports is enough exactly if, besides, every
      child that is new hangs beneath an incoming resource by its first owners, and so does every child whose root has
      become a child. */
  lemma ReportSufficesWhenRightIff(before: Instance, resolved: DesiredMap, a: Answers, after: Instance, trace: Trace,
                                   w: World)
    requires Rekeyed(Merge(before, resolved).desired, a.namespacedMap, after.desired)
    requires FoundBy(Merge(before, resolved), a, after, true, trace)
    requires WellKeyed(before.desired) && Consistent(before) && Consistent(after)
    requires Reflects(before, a.resolver, w) && Reflects(after, a.resolver, w)
    requires BothShowChildren(before, after, a.resolver, w) && OthersStay(before, resolved, a, trace.discovered)
    ensures Receive(Snapshot(before), Delta(after, Ids(resolved))) == Snapshot(after) <==>
            NoneDisplaced(before, resolved, after) && RootsStay(before, resolved, after, trace.discovered)
  {
    ReportSufficesWhenCurrentIff(before, resolved, a, after, trace, w);
    CoveredIffRootsStay(before, resolved, after, a.resolver, trace.discovered, w);
  }

  // ---------- a child that is lost ----------

  /** The resource does not come to live. */
  predicate StaysGone(key: ResourceKey, deliveries: seq<Delivery>) {
    forall d :: d in deliveries && d.key == key ==> d.change.newRes.None?
  }

  lemma GoneStaysSilent(s: Instance, resolver: Resolver, key: ResourceKey, d: Delivery)
    requires d.change.About(d.key) && key !in s.children && (d.key == key ==> d.change.newRes.None?)
    ensures key !in Apply(s, resolver, d.change).children
    ensures match Announce(s, resolver, d.change)
            case None => true
            case Some(u) => key !in u.deletedChildren
  {
    ChildrenAfterChange(s, resolver, d.key, d.change);
    var kind := Kind(s, d.change);
    assert kind.ChildRemoved? ==> d.change.oldRes.value.info.key == d.key;
  }

  /** What the instance no longer counts as a child stays in Octopus's view, whatever is announced afterwards. */
  lemma {:induction false} LostStays(s: Instance, resolver: Resolver, key: ResourceKey, deliveries: seq<Delivery>,
                                     view: InstanceChanges)
    requires AllAbout(deliveries) && StaysGone(key, deliveries) && key !in s.children && key in view.children
    ensures key in ReceiveAll(view, AnnounceAll(s, resolver, deliveries)).children
    ensures key !in ApplyAll(s, resolver, deliveries).children
    decreases |deliveries|
  {
    if deliveries != [] {
      var d, rest := deliveries[0], deliveries[1..];
      assert d in deliveries && AllAbout(rest) && StaysGone(key, rest);
      GoneStaysSilent(s, resolver, key, d);
      var later := AnnounceAll(Apply(s, resolver, d.change), resolver, rest);
      match Announce(s, resolver, d.change)
      case None =>
        assert AnnounceAll(s, resolver, deliveries) == later;
        LostStays(Apply(s, resolver, d.change), resolver, key, rest, view);
      case Some(u) =>
        assert AnnounceAll(s, resolver, deliveries) == [u] + later && ([u] + later)[1..] == later;
        LostStays(Apply(s, resolver, d.change), resolver, key, rest, Receive(view, u));
    }
  }

  /** A child that is gone by the time of the rescan, or that the merge itself makes a desired resource, stays in
      Octopus's view until it is sent everything: its deletion, if still to come, says nothing, and neither does
      anything else. */
  lemma LostChildStays(before: Instance, resolved: DesiredMap, a: Answers, after: Instance, trace: Trace,
                       key: ResourceKey, deliveries: seq<Delivery>)
    requires FoundBy(Merge(before, resolved), a, after, true, trace)
    requires key in before.children && !StillChild(after, trace.discovered, key)
    requires AllAbout(deliveries) && StaysGone(key, deliveries)
    ensures var view := Receive(Snapshot(before), Delta(after, Ids(resolved)));
            && key in ReceiveAll(view, AnnounceAll(after, a.resolver, deliveries)).children
            && key !in ApplyAll(after, a.resolver, deliveries).children
    ensures key !in after.desired ==>
              forall was: Resource :: was.WellFormed() && was.info.key == key ==>
                Announce(after, a.resolver, ResourceChange(None, Some(was))) == None
  {
    FoundAreStillChildren(after, a.resolver, trace.discovered);
    var view := Receive(Snapshot(before), Delta(after, Ids(resolved)));
    assert key in view.children;
    LostStays(after, a.resolver, key, deliveries, view);
  }
}
