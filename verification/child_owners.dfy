/** For which runs the search for a child's root ends, and which changes keep the stored roots right. */
module ChildOwners {
  import opened Kubernetes
  import opened DesiredResources
  import opened MonitoredResources
  import opened RootOwners
  import opened ChangeQueues
  import opened Instances
  import opened InstanceProperties
  import opened Rescans

  /** No two children share a UID, and the search for a root ends wherever it starts. */
  ghost predicate Acyclic(children: ChildMap) {
    UniqueUids(children) && EndsEverywhere(OwnersAmong(children))
  }

  function Others(children: ChildMap, key: ResourceKey): ChildMap {
    children - {key}
  }

  lemma OthersAreUnique(children: ChildMap, key: ResourceKey)
    requires UniqueUids(children)
    ensures UniqueUids(Others(children, key))
    ensures key in children ==> children[key].ref.uid !in OwnersAmong(Others(children, key))
  {
    forall j | j in Others(children, key) ensures Others(children, key)[j] == children[j] {
    }
  }

  /** What an added record does to the owners. */
  lemma OwnersWith(children: ChildMap, key: ResourceKey, c: ChildMonitoredResource)
    requires UniqueUids(children[key := c])
    ensures UniqueUids(Others(children, key)) && c.ref.uid !in OwnersAmong(Others(children, key))
    ensures OwnersAmong(children[key := c]) == OwnersAmong(Others(children, key))[c.ref.uid := c.ownerId]
  {
    var others := Others(children, key);
    assert others[key := c] == children[key := c];
    OthersAreUnique(children[key := c], key);
    assert Others(children[key := c], key) == others;
    OwnersWithOneMore(others, key, c);
  }

  lemma OthersStayAcyclic(children: ChildMap, key: ResourceKey)
    requires Acyclic(children)
    ensures Acyclic(Others(children, key))
  {
    OthersAreUnique(children, key);
    if key in children {
      var c := children[key];
      assert children[key := c] == children;
      OwnersWith(children, key, c);
      var all, others := OwnersAmong(children), OwnersAmong(Others(children, key));
      forall u ensures ReachesRoot(u, others) {
        assert ReachesRoot(u, all);
        RootWhilePartial(u, others, all);
      }
    } else {
      assert Others(children, key) == children;
    }
  }

  /** The record's UID is no other child's, and its owner is not beneath it already. */
  ghost predicate Fits(children: ChildMap, key: ResourceKey, uid: Uid, owner: Uid) {
    && (forall j :: j in children && j != key ==> children[j].ref.uid != uid)
    && RootOf(owner, OwnersAmong(Others(children, key))) != uid
  }

  /** Recording a child keeps every search ending exactly when the record fits. */
  lemma RecordingStaysAcyclicIff(children: ChildMap, key: ResourceKey, c: ChildMonitoredResource)
    requires Acyclic(children)
    ensures Acyclic(children[key := c]) <==> Fits(children, key, c.ref.uid, c.ownerId)
  {
    OthersStayAcyclic(children, key);
    var after := children[key := c];
    if j :| j in children && j != key && children[j].ref.uid == c.ref.uid {
      assert after[j].ref.uid == after[key].ref.uid;
    } else {
      assert UniqueUids(after);
      OwnersWith(children, key, c);
      OneMoreEndsEverywhereIff(OwnersAmong(Others(children, key)), c.ref.uid, c.ownerId);
    }
  }

  /** A rescan leaves the children acyclic and their stored roots right. */
  lemma RescanIsAcyclic(desired: DesiredMap, resolver: Resolver, discovered: seq<Discovered>, children: ChildMap)
    requires ChildrenFound(desired, resolver, discovered, children)
    ensures Acyclic(children) && RootsAreCurrent(children)
  {
    var owners := OwnersAmong(children);
    forall k | k in children ensures RootIsCurrent(children, k) {
      assert ChildAsFound(resolver, discovered, children, k);
    }
    forall u ensures ReachesRoot(u, owners) {
      if u in owners {
        var k :| k in children && children[k].ref.uid == u;
        assert ChildAsFound(resolver, discovered, children, k);
        OwnersAmongAt(children, k);
        RootIsNoChild(owners[u], owners);
        ReachesThroughOwner(u, owners);
      } else {
        assert Climb(u, owners, 0) !in owners;
      }
    }
  }

  // ---------- changes ----------

  /** If the change records a child, the record fits. */
  ghost predicate ChangeFits(s: Instance, change: ResourceChange) {
    Climbs(s, change) ==>
      Fits(s.children, change.newRes.value.info.key, change.newRes.value.ref.uid, OwnerIdOf(s, change.newRes.value))
  }

  lemma ChildrenAfterChange(s: Instance, resolver: Resolver, key: ResourceKey, change: ResourceChange)
    requires change.About(key)
    ensures Apply(s, resolver, change).children ==
            if Climbs(s, change) then s.children[key := ChildFor(s, resolver, change.newRes.value)]
            else if Kind(s, change).ChildRemoved? then Others(s.children, key)
            else s.children
  {
    ChildrenAfterKind(s, resolver, key, change, Kind(s, change));
  }

  lemma ChildrenAfterKind(s: Instance, resolver: Resolver, key: ResourceKey, change: ResourceChange, kind: UpdateKind)
    requires change.About(key) && KindFits(s, change, kind)
    ensures ApplyKind(s, resolver, change, kind).children ==
            if kind.ChildFound? || kind.ChildUpdated? then s.children[key := ChildFor(s, resolver, change.newRes.value)]
            else if kind.ChildRemoved? then Others(s.children, key)
            else s.children
  {
  }

  /** A change keeps every search ending exactly when it fits. */
  lemma ChangeStaysAcyclicIff(s: Instance, resolver: Resolver, key: ResourceKey, change: ResourceChange)
    requires Acyclic(s.children) && change.About(key)
    ensures Acyclic(Apply(s, resolver, change).children) <==> ChangeFits(s, change)
  {
    ChildrenAfterChange(s, resolver, key, change);
    OthersStayAcyclic(s.children, key);
    if Climbs(s, change) {
      RecordingStaysAcyclicIff(s.children, key, ChildFor(s, resolver, change.newRes.value));
    }
  }

  /** The children are acyclic after every change of the run. */
  ghost predicate AcyclicThroughout(s: Instance, resolver: Resolver, deliveries: seq<Delivery>)
    decreases |deliveries|
  {
    Acyclic(s.children) &&
    (deliveries == [] || AcyclicThroughout(Apply(s, resolver, deliveries[0].change), resolver, deliveries[1..]))
  }

  /** Every change of the run fits when it comes. */
  ghost predicate FitsThroughout(s: Instance, resolver: Resolver, deliveries: seq<Delivery>)
    decreases |deliveries|
  {
    deliveries == [] ||
    (ChangeFits(s, deliveries[0].change)
     && FitsThroughout(Apply(s, resolver, deliveries[0].change), resolver, deliveries[1..]))
  }

  /** Every search the run makes ends. */
  ghost predicate ReachableThroughout(s: Instance, resolver: Resolver, deliveries: seq<Delivery>)
    decreases |deliveries|
  {
    deliveries == [] ||
    (RootsReachable(s, deliveries[0].change)
     && ReachableThroughout(Apply(s, resolver, deliveries[0].change), resolver, deliveries[1..]))
  }

  /** A run keeps the children acyclic exactly when each of its changes fits, and then every search it makes ends. */
  lemma {:induction false} RunStaysAcyclicIff(s: Instance, resolver: Resolver, deliveries: seq<Delivery>)
    requires Acyclic(s.children) && AllAbout(deliveries)
    ensures AcyclicThroughout(s, resolver, deliveries) <==> FitsThroughout(s, resolver, deliveries)
    ensures FitsThroughout(s, resolver, deliveries) ==> ReachableThroughout(s, resolver, deliveries)
    decreases |deliveries|
  {
    if deliveries != [] {
      var d := deliveries[0];
      assert d in deliveries && d.change.About(d.key) && AllAbout(deliveries[1..]);
      ChangeStaysAcyclicIff(s, resolver, d.key, d.change);
      if ChangeFits(s, d.change) {
        RunStaysAcyclicIff(Apply(s, resolver, d.change), resolver, deliveries[1..]);
      }
    }
  }

  /** Being acyclic is exactly what it takes for the search to end whatever change comes next, if there is a child at
      all. */
  lemma SearchesEndIff(s: Instance)
    requires Consistent(s) && s.children != map[]
    ensures (forall key, change: ResourceChange :: change.About(key) ==> RootsReachable(s, change)) <==>
            Acyclic(s.children)
  {
    if !Acyclic(s.children) {
      var key :| key in s.children;
      if UniqueUids(s.children) {
        var u :| !ReachesRoot(u, OwnersAmong(s.children));
        UpdateStartsAt(s, key, u);
      } else {
        UpdateStartsAt(s, key, "");
      }
    }
  }

  function OwnedBy(key: ResourceKey, u: Uid): Resource {
    AnyResource(key, if u == "" then [] else [OwnerRef(u, GroupVersion("", ""), "", "")])
  }

  lemma UpdateStartsAt(s: Instance, key: ResourceKey, u: Uid)
    requires Consistent(s) && key in s.children
    ensures var change := ResourceChange(Some(OwnedBy(key, u)), None);
            change.About(key) && Climbs(s, change) && OwnerIdOf(s, change.newRes.value) == u
  {
    assert ConsistentAt(s, key);
  }

  /** An inferred owner reference carries the object's own UID. One update of a child with such a reference, and the
      search for its root no longer ends: the next update of it would not return. */
  lemma SelfOwnedChildIsFatal(s: Instance, resolver: Resolver, key: ResourceKey, res: Resource)
    requires Consistent(s) && key in s.children && res.WellFormed() && res.info.key == key
    requires res.info.ownerRefs != [] && res.info.ownerRefs[0].uid == res.ref.uid != ""
    ensures var change := ResourceChange(Some(res), None);
            && (Acyclic(s.children) ==> RootsReachable(s, change))
            && Climbs(Apply(s, resolver, change), change) && !RootsReachable(Apply(s, resolver, change), change)
  {
    assert ConsistentAt(s, key);
    var change := ResourceChange(Some(res), None);
    assert Kind(s, change) == ChildUpdated;
    var t := Apply(s, resolver, change);
    assert t.children == s.children[key := ChildFor(s, resolver, res)];
    if UniqueUids(t.children) {
      OwnersAmongAt(t.children, key);
      SelfOwnedNeverReachesRoot(res.ref.uid, OwnersAmong(t.children), |OwnersAmong(t.children)|);
    }
  }

  // ---------- stored roots ----------

  /** Every child's stored root is where the search from it ends now. */
  ghost predicate RootsAreCurrent(children: ChildMap) {
    forall k :: k in children ==> RootIsCurrent(children, k)
  }

  ghost predicate RootIsCurrent(children: ChildMap, k: ResourceKey)
    requires k in children
  {
    children[k].rootOwnerId == RootOf(children[k].ownerId, OwnersAmong(children))
  }

  /** Setting the child at key aside, the search from j ends at uid. */
  ghost predicate Beneath(children: ChildMap, key: ResourceKey, j: ResourceKey, uid: Uid) {
    j in children && j != key && RootOf(children[j].ownerId, OwnersAmong(Others(children, key))) == uid
  }

  /** Where a search ends, in terms of the other children. */
  lemma RootAmongOthers(children: ChildMap, key: ResourceKey, x: Uid)
    requires Acyclic(children) && key in children
    ensures var c, others := children[key], OwnersAmong(Others(children, key));
            && RootOf(c.ownerId, others) != c.ref.uid
            && RootOf(x, OwnersAmong(children)) ==
               (if RootOf(x, others) == c.ref.uid then RootOf(c.ownerId, others) else RootOf(x, others))
  {
    var c := children[key];
    assert children[key := c] == children;
    RecordingStaysAcyclicIff(children, key, c);
    OwnersWith(children, key, c);
    OthersStayAcyclic(children, key);
    RootWithOneMore(x, OwnersAmong(Others(children, key)), c.ref.uid, c.ownerId);
  }

  /** Forgetting a child keeps the stored roots right exactly when nothing lies beneath it. */
  lemma ForgettingKeepsRootsIff(children: ChildMap, key: ResourceKey)
    requires Acyclic(children) && RootsAreCurrent(children) && key in children
    ensures RootsAreCurrent(Others(children, key)) <==> forall j :: !Beneath(children, key, j, children[key].ref.uid)
  {
    var others := Others(children, key);
    forall j | j in others ensures RootIsCurrent(others, j) <==> !Beneath(children, key, j, children[key].ref.uid) {
      assert RootIsCurrent(children, j);
      RootAmongOthers(children, key, children[j].ownerId);
    }
    if j :| Beneath(children, key, j, children[key].ref.uid) {
      assert j in others;
    }
  }

  /** What finding or updating a child must leave alone for stored roots to stay right. A newly found child must not be
      the root of another. An updated one must keep its root or have nothing beneath it. One that has come back with
      another UID must have nothing beneath either UID, nor be owned by its former self. */
  ghost predicate LeavesRoots(children: ChildMap, key: ResourceKey, c: ChildMonitoredResource) {
    if key !in children then
      forall j :: !Beneath(children, key, j, c.ref.uid)
    else if children[key].ref.uid == c.ref.uid then
      c.rootOwnerId == children[key].rootOwnerId || forall j :: !Beneath(children, key, j, c.ref.uid)
    else
      && (forall j :: !Beneath(children, key, j, c.ref.uid) && !Beneath(children, key, j, children[key].ref.uid))
      && RootOf(c.ownerId, OwnersAmong(Others(children, key))) != children[key].ref.uid
  }

  /** Where a search ended before c was recorded at key, in terms of the other children. */
  ghost function EndBefore(children: ChildMap, key: ResourceKey, end: Uid): Uid
  {
    if key in children && end == children[key].ref.uid
    then RootOf(children[key].ownerId, OwnersAmong(Others(children, key)))
    else end
  }

  lemma EndsBefore(children: ChildMap, key: ResourceKey, x: Uid)
    requires Acyclic(children)
    ensures RootOf(x, OwnersAmong(children)) == EndBefore(children, key, RootOf(x, OwnersAmong(Others(children, key))))
  {
    if key in children {
      RootAmongOthers(children, key, x);
    } else {
      assert Others(children, key) == children;
    }
  }

  lemma EndsAfter(children: ChildMap, key: ResourceKey, c: ChildMonitoredResource, x: Uid)
    requires Acyclic(children[key := c])
    ensures var others := OwnersAmong(Others(children, key));
            && RootOf(c.ownerId, others) != c.ref.uid
            && RootOf(x, OwnersAmong(children[key := c])) ==
               (if RootOf(x, others) == c.ref.uid then RootOf(c.ownerId, others) else RootOf(x, others))
  {
    var after := children[key := c];
    assert after[key] == c && Others(after, key) == Others(children, key);
    RootAmongOthers(after, key, x);
  }

  /** Recording a child keeps the stored roots right exactly in those cases. */
  lemma RecordingKeepsRootsIff(children: ChildMap, key: ResourceKey, c: ChildMonitoredResource)
    requires Acyclic(children) && Acyclic(children[key := c]) && RootsAreCurrent(children)
    requires c.rootOwnerId == RootOf(c.ownerId, OwnersAmong(children))
    ensures RootsAreCurrent(children[key := c]) <==> LeavesRoots(children, key, c)
  {
    EndsBefore(children, key, c.ownerId);
    EndsAfter(children, key, c, c.ownerId);
    if key in children {
      RootAmongOthers(children, key, c.ownerId);
    }
    forall j | j in children && j != key
      ensures RootIsCurrent(children[key := c], j) <==> OtherKeepsRoot(children, key, c, j)
    {
      OtherKeepsRootIff(children, key, c, j);
    }
    OthersDecide(children, key, c);
  }

  lemma OtherKeepsRootIff(children: ChildMap, key: ResourceKey, c: ChildMonitoredResource, j: ResourceKey)
    requires Acyclic(children) && Acyclic(children[key := c]) && RootsAreCurrent(children)
    requires c.rootOwnerId == RootOf(c.ownerId, OwnersAmong(children)) && j in children && j != key
    ensures RootIsCurrent(children[key := c], j) <==> OtherKeepsRoot(children, key, c, j)
  {
    assert RootIsCurrent(children, j);
    EndsBefore(children, key, children[j].ownerId);
    EndsAfter(children, key, c, children[j].ownerId);
    if key in children {
      UpdateKeepsRootIff(children, key, c, j);
    }
  }

  lemma UpdateKeepsRootIff(children: ChildMap, key: ResourceKey, c: ChildMonitoredResource, j: ResourceKey)
    requires key in children && j in children && j != key && Acyclic(children) && Acyclic(children[key := c])
    requires RootIsCurrent(children, j) && RootIsCurrent(children, key)
    requires c.rootOwnerId == RootOf(c.ownerId, OwnersAmong(children))
    ensures RootIsCurrent(children[key := c], j) <==> OtherKeepsRoot(children, key, c, j)
  {
    EndsAfter(children, key, c, children[j].ownerId);
    RootAmongOthers(children, key, children[j].ownerId);
    RootAmongOthers(children, key, children[key].ownerId);
    RootAmongOthers(children, key, c.ownerId);
  }

  /** The recorded child leaves the root of another alone. */
  ghost predicate OtherKeepsRoot(children: ChildMap, key: ResourceKey, c: ChildMonitoredResource, j: ResourceKey) {
    if key !in children then !Beneath(children, key, j, c.ref.uid)
    else if children[key].ref.uid == c.ref.uid then
      c.rootOwnerId == children[key].rootOwnerId || !Beneath(children, key, j, c.ref.uid)
    else !Beneath(children, key, j, c.ref.uid) && !Beneath(children, key, j, children[key].ref.uid)
  }

  lemma OthersDecide(children: ChildMap, key: ResourceKey, c: ChildMonitoredResource)
    requires forall j :: j in children && j != key ==>
               (RootIsCurrent(children[key := c], j) <==> OtherKeepsRoot(children, key, c, j))
    requires RootIsCurrent(children[key := c], key) <==>
             !(key in children && children[key].ref.uid != c.ref.uid
               && RootOf(c.ownerId, OwnersAmong(Others(children, key))) == children[key].ref.uid)
    ensures RootsAreCurrent(children[key := c]) <==> LeavesRoots(children, key, c)
  {
    var after := children[key := c];
    assert forall j :: !(j in children && j != key) ==> OtherKeepsRoot(children, key, c, j);
    assert RootsAreCurrent(after) <==>
           RootIsCurrent(after, key) && forall j :: j in children && j != key ==> RootIsCurrent(after, j);
  }

  /** A change keeps the stored roots right exactly when it records a child that leaves them alone, forgets one with
      nothing beneath it, or is not about a child. */
  lemma ChangeKeepsRootsIff(s: Instance, resolver: Resolver, key: ResourceKey, change: ResourceChange)
    requires change.About(key) && RootsAreCurrent(s.children)
    requires Acyclic(s.children) && Acyclic(Apply(s, resolver, change).children)
    ensures RootsAreCurrent(Apply(s, resolver, change).children) <==>
            if Climbs(s, change) then LeavesRoots(s.children, key, ChildFor(s, resolver, change.newRes.value))
            else if Kind(s, change).ChildRemoved? then forall j :: !Beneath(s.children, key, j, s.children[key].ref.uid)
            else true
  {
    ChildrenAfterChange(s, resolver, key, change);
    if Climbs(s, change) {
      RecordingKeepsRootsIff(s.children, key, ChildFor(s, resolver, change.newRes.value));
    } else if Kind(s, change).ChildRemoved? {
      ForgettingKeepsRootsIff(s.children, key);
    }
  }
}
