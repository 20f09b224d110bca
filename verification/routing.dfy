/** Sending a change only to the targets interested in it does what sending every change to every target would. */
module Routing {
  import opened Kubernetes
  import opened DesiredResources
  import opened MonitoredResources
  import opened InterestIndexes
  import ChangeQueues
  import opened Instances
  import opened InstanceProperties
  import opened Targets

  /** The change would have no effect on any instance of the target and nothing would be reported. */
  ghost predicate Indifferent(t: Target, change: ResourceChange) {
    forall id :: id in t ==> Kind(t[id], change) == NoChange
  }

  /** The keys at which something can happen to an instance: what is known about a desired resource can change, a
      child can, and whatever is tracked can gain a child. */
  function NeededKeys(s: Instance): set<ResourceKey> {
    (set k | k in s.desired && (s.desired[k].id in s.present || s.desired[k].id in s.missing))
    + s.children.Keys + s.tracked
  }

  function AllNeededKeys(t: Target): set<ResourceKey> {
    set id, k | id in t && k in NeededKeys(t[id]) :: k
  }

  lemma IndifferentMeansUntouched(t: Target, resolver: Resolver, change: ResourceChange)
    requires Indifferent(t, change)
    ensures ApplyToAll(t, resolver, change) == t && AnnounceFromAll(t, resolver, change) == map[]
  {
  }

  /** What matters to an instance matters because of a key the change concerns. */
  lemma ReactsToConcerns(s: Instance, key: ResourceKey, change: ResourceChange)
    requires change.About(key) && Kind(s, change) != NoChange
    ensures NeededKeys(s) * (Concerns(change.newRes) + Concerns(change.oldRes)) != {}
  {
    var concerns := Concerns(change.newRes) + Concerns(change.oldRes);
    if key in NeededKeys(s) {
      assert key in NeededKeys(s) * concerns;
    } else {
      var res := change.newRes.value;
      assert Kind(s, change) == ChildFound;
      var owner :| owner in NamedOwners(res) * s.tracked;
      assert res.ref.namespace == res.info.key.namespace;
      assert owner in NeededKeys(s) * concerns;
    }
  }

  /** A change at a needed key that concerns nothing else. */
  lemma SomethingAt(s: Instance, key: ResourceKey) returns (change: ResourceChange)
    requires key in NeededKeys(s)
    ensures change.About(key) && change.HasSide() && Kind(s, change) != NoChange
    ensures Concerns(change.newRes) + Concerns(change.oldRes) == {key}
  {
    var owner := OwnerRef("", GroupVersion(key.group, ""), key.kind, key.name);
    var res := AnyResource(key, [owner]);
    assert OwnerRefKey(res.info.ownerRefs[0], res.ref.namespace) == Some(key);
    assert NamedOwners(res) == {key};
    assert key in s.tracked ==> key in NamedOwners(res) * s.tracked;
    change := ResourceChange(Some(res), None);
  }

  /** Skipping the changes a target is not interested in is harmless, whatever they are, exactly when its interests
      include every key at which something can happen to one of its instances. */
  lemma NothingIsMissedIff(m: Interests, target: ClusterId, t: Target)
    ensures (forall key, change: ResourceChange :: change.About(key) && target !in Recipients(m, change) ==>
               Indifferent(t, change))
            <==> AllNeededKeys(t) <= KeysOf(m, target)
  {
    var interests := KeysOf(m, target);
    if AllNeededKeys(t) <= interests {
      forall key, change: ResourceChange | change.About(key) && target !in Recipients(m, change)
        ensures Indifferent(t, change)
      {
        NeededIsEnough(m, target, t, key, change);
      }
    } else {
      var k :| k in AllNeededKeys(t) && k !in interests;
      var id :| id in t && k in NeededKeys(t[id]);
      var change := SomethingAt(t[id], k);
      assert change.About(k) && target !in Recipients(m, change) && !Indifferent(t, change);
    }
  }

  lemma NeededIsEnough(m: Interests, target: ClusterId, t: Target, key: ResourceKey, change: ResourceChange)
    requires AllNeededKeys(t) <= KeysOf(m, target)
    requires change.About(key) && target !in Recipients(m, change)
    ensures Indifferent(t, change)
  {
    forall id | id in t ensures Kind(t[id], change) == NoChange {
      if Kind(t[id], change) != NoChange {
        ReactingTargetIsRecipient(m, target, t, id, key, change);
      }
    }
  }

  lemma ReactingTargetIsRecipient(m: Interests, target: ClusterId, t: Target, id: ApplicationInstanceId,
                                  key: ResourceKey, change: ResourceChange)
    requires AllNeededKeys(t) <= KeysOf(m, target)
    requires id in t && change.About(key) && Kind(t[id], change) != NoChange
    ensures target in Recipients(m, change)
  {
    ReactsToConcerns(t[id], key, change);
    var k :| k in NeededKeys(t[id]) * (Concerns(change.newRes) + Concerns(change.oldRes));
    assert k in AllNeededKeys(t) && k in m[target] * (Concerns(change.newRes) + Concerns(change.oldRes));
  }

  ghost predicate ChildrenTracked(t: Target) {
    forall id :: id in t ==> t[id].children.Keys <= t[id].tracked
  }

  lemma ConsistentTracksChildren(t: Target)
    requires AllConsistent(t)
    ensures ChildrenTracked(t)
  {
    forall id, k | id in t && k in t[id].children ensures k in t[id].tracked {
      assert ConsistentAt(t[id], k);
    }
  }

  /** With its children tracked an instance needs nothing beyond what the target publishes for it. */
  lemma PublishedIsEnough(t: Target)
    requires ChildrenTracked(t)
    ensures AllNeededKeys(t) <= TargetKeys(t)
  {
    forall id, k | id in t && k in NeededKeys(t[id]) ensures k in TargetKeys(t) {
      assert k in KeysOfInterest(t[id]);
    }
  }

  /** And no more is published for a consistent, well-keyed instance than that and the keys of unknown resources, which
      a rescan may yet find. */
  lemma NothingElseIsPublished(s: Instance, key: ResourceKey)
    requires Consistent(s) && WellKeyed(s.desired)
    ensures key in KeysOfInterest(s) <==>
            key in NeededKeys(s) || (key in s.desired && s.desired[key].id in s.unknown)
  {
    assert ConsistentAt(s, key);
  }

  // ---------- whole runs ----------

  /** A change announced by the cache, or anything else that happens to the index. */
  datatype Event =
    | Announced(key: ResourceKey, change: ResourceChange)
    | Listed(info: ResourceInfo, isRoot: bool)
    | PublishedBy(other: ClusterId, keys: set<ResourceKey>)

  ghost predicate WellFormedEvents(target: ClusterId, events: seq<Event>) {
    forall e :: e in events ==> (e.Announced? ==> e.change.About(e.key)) && (e.PublishedBy? ==> e.other != target)
  }

  datatype Outcome = Outcome(final: Target, reported: seq<Updates>)

  function AlsoReported(updates: Updates, later: Outcome): Outcome {
    if updates == map[] then later else Outcome(later.final, [updates] + later.reported)
  }

  /** Every change reaches the target. */
  ghost function Broadcast(t: Target, resolver: Resolver, events: seq<Event>): Outcome
    decreases |events|
  {
    if events == [] then Outcome(t, [])
    else if !events[0].Announced? then Broadcast(t, resolver, events[1..])
    else
      var change := events[0].change;
      AlsoReported(AnnounceFromAll(t, resolver, change),
                   Broadcast(ApplyToAll(t, resolver, change), resolver, events[1..]))
  }

  /** Only changes that concern something in its interests reach the target, which republishes after each update. */
  ghost function Routed(m: Interests, target: ClusterId, t: Target, resolver: Resolver, events: seq<Event>): Outcome
    decreases |events|
  {
    if events == [] then Outcome(t, [])
    else
      match events[0]
      case Listed(info, isRoot) => Routed(Populate(m, info, isRoot), target, t, resolver, events[1..])
      case PublishedBy(other, keys) => Routed(Publish(m, other, keys), target, t, resolver, events[1..])
      case Announced(_, change) =>
        if target !in Recipients(m, change) then Routed(m, target, t, resolver, events[1..])
        else
          var next, updates := ApplyToAll(t, resolver, change), AnnounceFromAll(t, resolver, change);
          var published := if updates != map[] then Publish(m, target, TargetKeys(next)) else m;
          AlsoReported(updates, Routed(published, target, next, resolver, events[1..]))
  }

  lemma NoUpdatesMeansUntouched(t: Target, resolver: Resolver, change: ResourceChange)
    requires AnnounceFromAll(t, resolver, change) == map[]
    ensures ApplyToAll(t, resolver, change) == t
  {
    forall id | id in t ensures Kind(t[id], change) == NoChange {
      assert id !in AnnounceFromAll(t, resolver, change);
    }
  }

  lemma AllStayConsistent(t: Target, resolver: Resolver, key: ResourceKey, change: ResourceChange)
    requires AllConsistent(t) && change.About(key)
    ensures AllConsistent(ApplyToAll(t, resolver, change))
  {
    forall id | id in t ensures Consistent(Apply(t[id], resolver, change)) {
      ChangeKeepsConsistent(t[id], resolver, key, change);
    }
  }

  /** From consistent instances and up-to-date interests, any run of announcements, listings and other targets'
      publications leaves a target in the same state, having reported the same updates in the same order, as if
      every change had been sent to it. */
  lemma {:induction false} RoutingRefinesBroadcast(m: Interests, target: ClusterId, t: Target, resolver: Resolver,
                                                   events: seq<Event>)
    requires AllConsistent(t) && TargetKeys(t) <= KeysOf(m, target) && WellFormedEvents(target, events)
    ensures Routed(m, target, t, resolver, events) == Broadcast(t, resolver, events)
    decreases |events|
  {
    if events != [] {
      var e, rest := events[0], events[1..];
      assert e in events && WellFormedEvents(target, rest);
      match e
      case Listed(info, isRoot) =>
        RoutingRefinesBroadcast(Populate(m, info, isRoot), target, t, resolver, rest);
      case PublishedBy(other, keys) =>
        RoutingRefinesBroadcast(Publish(m, other, keys), target, t, resolver, rest);
      case Announced(key, change) =>
        var next := ApplyToAll(t, resolver, change);
        if target !in Recipients(m, change) {
          ConsistentTracksChildren(t);
          PublishedIsEnough(t);
          NeededIsEnough(m, target, t, key, change);
          IndifferentMeansUntouched(t, resolver, change);
          RoutingRefinesBroadcast(m, target, t, resolver, rest);
        } else if AnnounceFromAll(t, resolver, change) == map[] {
          NoUpdatesMeansUntouched(t, resolver, change);
          RoutingRefinesBroadcast(m, target, t, resolver, rest);
        } else {
          AllStayConsistent(t, resolver, key, change);
          RoutingRefinesBroadcast(Publish(m, target, TargetKeys(next)), target, next, resolver, rest);
        }
    }
  }

  /** The announcements among the events. */
  function Announcements(events: seq<Event>): seq<ChangeQueues.Delivery> {
    if events == [] then []
    else
      (if events[0].Announced? then [ChangeQueues.Delivery(events[0].key, events[0].change)] else [])
      + Announcements(events[1..])
  }

  /** What was reported about one instance, in order. */
  function ReportedAbout(reported: seq<Updates>, id: ApplicationInstanceId): seq<InstanceChanges> {
    if reported == [] then []
    else (if id in reported[0] then [reported[0][id]] else []) + ReportedAbout(reported[1..], id)
  }

  lemma AlsoReportedAbout(updates: Updates, later: Outcome, id: ApplicationInstanceId)
    ensures AlsoReported(updates, later).final == later.final
    ensures ReportedAbout(AlsoReported(updates, later).reported, id) ==
            (if id in updates then [updates[id]] else []) + ReportedAbout(later.reported, id)
  {
    if updates == map[] {
      assert [] + ReportedAbout(later.reported, id) == ReportedAbout(later.reported, id);
    } else {
      assert ([updates] + later.reported)[1..] == later.reported;
    }
  }

  /** Each instance of a target goes its own way: it ends up where applying the announcements to it alone would take it,
      and what is reported about it is what it alone would announce. No instance comes or goes. */
  lemma {:induction false} InstancesGoTheirOwnWay(t: Target, resolver: Resolver, events: seq<Event>,
                                                  id: ApplicationInstanceId)
    requires id in t
    ensures var outcome := Broadcast(t, resolver, events);
            && outcome.final.Keys == t.Keys
            && outcome.final[id] == ApplyAll(t[id], resolver, Announcements(events))
            && ReportedAbout(outcome.reported, id) == AnnounceAll(t[id], resolver, Announcements(events))
    decreases |events|
  {
    if events != [] {
      var rest := events[1..];
      match events[0]
      case Listed(_, _) =>
        assert Announcements(events) == Announcements(rest);
        InstancesGoTheirOwnWay(t, resolver, rest, id);
      case PublishedBy(_, _) =>
        assert Announcements(events) == Announcements(rest);
        InstancesGoTheirOwnWay(t, resolver, rest, id);
      case Announced(key, change) =>
        var next, updates := ApplyToAll(t, resolver, change), AnnounceFromAll(t, resolver, change);
        assert Announcements(events) == [ChangeQueues.Delivery(key, change)] + Announcements(rest);
        assert Announcements(events)[1..] == Announcements(rest);
        InstancesGoTheirOwnWay(next, resolver, rest, id);
        AlsoReportedAbout(updates, Broadcast(next, resolver, rest), id);
    }
  }

  // ---------- a rescan that fails after resolving namespaces ----------

  /** The target after a rescan of one instance has resolved namespaces and then failed. */
  function AfterFailedRescan(t: Target, id: ApplicationInstanceId, resolved: DesiredMap): Target {
    t[id := InstanceOf(t, id).(desired := resolved)]
  }

  /** The desired resource at key moved there during the pass, and is known to be present or missing. */
  predicate MovedWhileKnown(s: Instance, resolved: DesiredMap, key: ResourceKey) {
    key in resolved && key !in s.desired && (resolved[key].id in s.present || resolved[key].id in s.missing)
  }

  /** A failed rescan keeps the resolved namespaces but does not publish the keys they moved to. Nothing is missed
      until the next publication exactly when the target was already interested in every key to which a resource known
      to be present or missing has moved. */
  lemma FailedRescanMissesNothingIff(m: Interests, target: ClusterId, t: Target, id: ApplicationInstanceId,
                                     resolved: DesiredMap)
    requires id in t && ChildrenTracked(t) && KeysOf(m, target) == TargetKeys(t)
    ensures (forall key, change: ResourceChange :: change.About(key) && target !in Recipients(m, change) ==>
               Indifferent(AfterFailedRescan(t, id, resolved), change))
            <==> forall k :: MovedWhileKnown(t[id], resolved, k) ==> k in TargetKeys(t)
  {
    var failed := AfterFailedRescan(t, id, resolved);
    NothingIsMissedIff(m, target, failed);
    PublishedIsEnough(t);
    forall i, k | i in failed && k in NeededKeys(failed[i]) && k !in TargetKeys(t)
      ensures i == id && MovedWhileKnown(t[id], resolved, k)
    {
      assert i in t && k !in AllNeededKeys(t);
      assert k !in NeededKeys(t[i]) && k !in KeysOfInterest(t[i]);
    }
    forall k | MovedWhileKnown(t[id], resolved, k) ensures k in AllNeededKeys(failed) {
      assert k in NeededKeys(failed[id]);
    }
  }

  /** It does happen: a missing resource whose type turns out to be cluster-scoped moves to a key nobody has published,
      and its creation is not routed to the target although it would be reported as found. */
  lemma FailedRescanCanMissACreation()
    returns (t: Target, namespacedMap: NamespacedMap, resolved: DesiredMap, change: ResourceChange)
    ensures t.Keys == {"app"} && Consistent(t["app"]) && WellKeyed(t["app"].desired)
    ensures Rekeyed(t["app"].desired, namespacedMap, resolved)
    ensures "machine" !in Recipients(map["machine" := TargetKeys(t)], change)
    ensures Kind(AfterFailedRescan(t, "app", resolved)["app"], change) == DesiredFound
  {
    var widget := TypeMeta(GroupVersion("example.com", "v1"), "Widget");
    var d := Desired("id", "w", widget, "default", None, "", false, false, None);
    var s := Instance(map[d.Key() := d], map[], map[], map[d.id := NewMissing(d)], map[], {});
    t, namespacedMap := map["app" := s], map[widget := false];
    var r := d.Resolve(namespacedMap);
    resolved := map[r.Key() := r];
    assert KeyAfterPass(d.Key(), d, namespacedMap) == r.Key();
    assert d.Key() in s.desired && ComesFrom(s.desired, namespacedMap, r.Key(), r);
    forall k ensures ConsistentAt(s, k) {
    }
    change := ResourceChange(Some(AnyResource(r.Key(), [])), None);
    assert KeysOfInterest(s) == {d.Key()};
    assert TargetKeys(t) == {d.Key()} by {
      assert d.Key() in KeysOfInterest(t["app"]) && forall i :: i in t ==> t[i] == s;
    }
    assert OwnerKeys([], "") == {};
    assert Concerns(change.newRes) + Concerns(change.oldRes) == {r.Key()};
  }
}
