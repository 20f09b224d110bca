/** What folding does to children: unlike desired resources, they are recognised by their owners at each version. */
module ChildFolding {
  import opened Kubernetes
  import opened DesiredResources
  import opened MonitoredResources
  import opened RootOwners
  import opened ChangeQueues
  import opened Instances
  import opened InstanceProperties
  import opened ChildOwners

  /** The resource has a tracked owner, other than itself. */
  predicate Owned(s: Instance, key: ResourceKey, res: Resource) {
    NamedOwners(res) * (s.tracked - {key}) != {}
  }

  /** The resource is live in every version from the i-th on. */
  predicate LiveSince(deliveries: seq<Delivery>, i: int)
    requires 0 <= i <= |deliveries|
  {
    forall j :: i <= j < |deliveries| ==> deliveries[j].change.newRes.Some?
  }

  /** Since it was last deleted, some version of the resource had a tracked owner. */
  predicate SeenOwned(s: Instance, key: ResourceKey, deliveries: seq<Delivery>) {
    exists i {:trigger LiveSince(deliveries, i)} ::
      0 <= i < |deliveries| && LiveSince(deliveries, i) && Owned(s, key, deliveries[i].change.newRes.value)
  }

  /** Some change says that the resource, which was live, is gone. */
  predicate EverDeleted(deliveries: seq<Delivery>) {
    exists d :: d in deliveries && d.change.oldRes.Some? && d.change.newRes.None?
  }

  predicate ChildInTurn(s: Instance, key: ResourceKey, deliveries: seq<Delivery>) {
    (key in s.children && !EverDeleted(deliveries)) || SeenOwned(s, key, deliveries)
  }

  /** The instances differ in nothing but the child at key. */
  ghost predicate SameButForChild(s: Instance, t: Instance, key: ResourceKey) {
    && t == s.(children := t.children, tracked := t.tracked)
    && t.children - {key} == s.children - {key} && t.tracked - {key} == s.tracked - {key}
  }

  lemma WithChildIsSameButForChild(s: Instance, key: ResourceKey, child: Option<ChildMonitoredResource>)
    ensures SameButForChild(s, s, key) && SameButForChild(s, WithChild(s, key, child), key)
    ensures key in WithChild(s, key, child).children <==> child.Some?
  {
  }

  /** One change keeps a live child and finds one with a tracked owner. It forgets a child only if it tells that the
      resource was live before it was gone. */
  lemma OneChange(s: Instance, resolver: Resolver, key: ResourceKey, change: ResourceChange)
    requires Consistent(s) && !Settled(s, key) && change.About(key)
    ensures var t := Apply(s, resolver, change);
            && SameButForChild(s, t, key) && !Settled(t, key)
            && (key in t.children <==>
                if change.newRes.Some? then key in s.children || Owned(s, key, change.newRes.value)
                else key in s.children && change.oldRes.None?)
  {
    assert ConsistentAt(s, key);
    KindOfUnsettled(s, key, change);
    UnsettledKindDoes(s, resolver, key, change);
    WithChildIsSameButForChild(s, key, OtherChangeChild(s, resolver, change));
    if key !in s.children {
      assert s.tracked - {key} == s.tracked;
    }
  }

  lemma EverDeletedFromNext(deliveries: seq<Delivery>)
    requires deliveries != []
    ensures EverDeleted(deliveries) <==>
            || (deliveries[0].change.oldRes.Some? && deliveries[0].change.newRes.None?)
            || EverDeleted(deliveries[1..])
  {
    assert deliveries == [deliveries[0]] + deliveries[1..];
  }

  lemma SeenOwnedFromNext(s: Instance, t: Instance, key: ResourceKey, deliveries: seq<Delivery>)
    requires deliveries != [] && t.tracked - {key} == s.tracked - {key}
    ensures SeenOwned(s, key, deliveries) <==>
            || SeenOwned(t, key, deliveries[1..])
            || (LiveSince(deliveries, 0) && Owned(s, key, deliveries[0].change.newRes.value))
  {
    var rest := deliveries[1..];
    forall i | 0 <= i <= |rest| ensures LiveSince(rest, i) <==> LiveSince(deliveries, i + 1) {
      assert forall j :: i <= j < |rest| ==> rest[j] == deliveries[j + 1];
      assert forall j :: i + 1 <= j < |deliveries| ==> deliveries[j] == rest[j - 1];
    }
    if i :| 0 <= i < |rest| && LiveSince(rest, i) && Owned(t, key, rest[i].change.newRes.value) {
      assert LiveSince(deliveries, i + 1);
    }
    if i :| 0 < i < |deliveries| && LiveSince(deliveries, i) && Owned(s, key, deliveries[i].change.newRes.value) {
      assert LiveSince(rest, i - 1) && rest[i - 1] == deliveries[i];
    }
  }

  /** In a chain, a resource that starts out live is live throughout or deleted at some point. */
  lemma {:induction false} LiveUnlessDeleted(key: ResourceKey, was: Option<Resource>, deliveries: seq<Delivery>)
    requires ChainFor(key, was, deliveries)
    ensures was.Some? ==> (LiveSince(deliveries, 0) <==> !EverDeleted(deliveries))
    decreases |deliveries|
  {
    if deliveries != [] {
      LiveUnlessDeleted(key, deliveries[0].change.newRes, deliveries[1..]);
      EverDeletedFromNext(deliveries);
    }
  }

  /** Applied in turn, changes leave a child if it was one and none of them deletes it, or if it was seen owned since
      its last deletion, and leave everything else alone. */
  lemma {:induction false} ChainLeavesChildIff(s: Instance, resolver: Resolver, key: ResourceKey,
                                               was: Option<Resource>, deliveries: seq<Delivery>)
    requires Consistent(s) && !Settled(s, key) && ChainFor(key, was, deliveries)
    ensures SameButForChild(s, ApplyAll(s, resolver, deliveries), key)
    ensures key in ApplyAll(s, resolver, deliveries).children <==> ChildInTurn(s, key, deliveries)
    decreases |deliveries|
  {
    if deliveries != [] {
      var change, rest := deliveries[0].change, deliveries[1..];
      OneChange(s, resolver, key, change);
      ChangeKeepsConsistent(s, resolver, key, change);
      var t := Apply(s, resolver, change);
      ChainLeavesChildIff(t, resolver, key, change.newRes, rest);
      LiveUnlessDeleted(key, change.newRes, rest);
      SeenOwnedFromNext(s, t, key, deliveries);
      EverDeletedFromNext(deliveries);
    }
  }

  /** What it takes for one folded change to leave a child exactly when the changes in turn do. A child that is deleted
      must have been live to begin with if it ends up gone, and must have been seen owned since if it ends up live. What
      is no child must still be owned if it ever was since its last deletion. */
  predicate FoldsAlike(s: Instance, key: ResourceKey, was: Option<Resource>, deliveries: seq<Delivery>) {
    var last := LastNew(was, deliveries);
    if key in s.children then
      EverDeleted(deliveries) ==> if last.None? then was.Some? else SeenOwned(s, key, deliveries)
    else
      SeenOwned(s, key, deliveries) ==> last.Some? && Owned(s, key, last.value)
  }

  /** That is decided by the versions alone. Everything else agrees in any case. */
  lemma FoldingAgreesOnChildIff(s: Instance, resolver: Resolver, key: ResourceKey, was: Option<Resource>,
                                deliveries: seq<Delivery>)
    requires Consistent(s) && !Settled(s, key) && ChainFor(key, was, deliveries) && deliveries != []
    ensures var last := LastNew(was, deliveries);
            var folded, inTurn := Apply(s, resolver, ResourceChange(last, was)), ApplyAll(s, resolver, deliveries);
            && SameButForChild(folded, inTurn, key)
            && ((key in folded.children <==> key in inTurn.children) <==> FoldsAlike(s, key, was, deliveries))
  {
    var last := LastNew(was, deliveries);
    ChainLeavesChildIff(s, resolver, key, was, deliveries);
    LiveUnlessDeleted(key, was, deliveries);
    LastIsAbout(key, was, deliveries);
    OneChange(s, resolver, key, ResourceChange(last, was));
    var n := |deliveries| - 1;
    if last.Some? {
      assert LiveSince(deliveries, n);
    } else {
      assert !SeenOwned(s, key, deliveries);
    }
  }

  /** It can miss a child: one that was owned when it was found and lost its owner before the change was delivered. */
  lemma FoldingCanMissAChild(s: Instance, resolver: Resolver, key: ResourceKey, first: Resource, second: Resource,
                             deliveries: seq<Delivery>)
    requires Consistent(s) && !Settled(s, key) && key !in s.children
    requires ResourceChange(Some(second), Some(first)).About(key)
    requires Owned(s, key, first) && !Owned(s, key, second)
    requires deliveries == [Delivery(key, ResourceChange(Some(first), None)),
                            Delivery(key, ResourceChange(Some(second), Some(first)))]
    ensures key in ApplyAll(s, resolver, deliveries).children
    ensures key !in Apply(s, resolver, ResourceChange(Some(second), None)).children
  {
    assert deliveries[1..][1..] == [] && ChainFor(key, Some(first), deliveries[1..]);
    ChainLeavesChildIff(s, resolver, key, None, deliveries);
    assert LiveSince(deliveries, 0);
    OneChange(s, resolver, key, ResourceChange(Some(second), None));
  }

  /** It can keep one: a child that was deleted and came back unowned. */
  lemma FoldingCanKeepAChild(s: Instance, resolver: Resolver, key: ResourceKey, first: Resource, second: Resource,
                             deliveries: seq<Delivery>)
    requires Consistent(s) && !Settled(s, key) && key in s.children
    requires ResourceChange(Some(second), Some(first)).About(key) && !Owned(s, key, second)
    requires deliveries == [Delivery(key, ResourceChange(None, Some(first))),
                            Delivery(key, ResourceChange(Some(second), None))]
    ensures key !in ApplyAll(s, resolver, deliveries).children
    ensures key in Apply(s, resolver, ResourceChange(Some(second), Some(first))).children
  {
    assert deliveries[1..][1..] == [] && ChainFor(key, None, deliveries[1..]);
    ChainLeavesChildIff(s, resolver, key, Some(first), deliveries);
    assert deliveries[0] in deliveries;
    OneChange(s, resolver, key, ResourceChange(Some(second), Some(first)));
  }

  /** And it can keep one that is gone: a rescan recorded it while its addition was still queued, so that its deletion
      folds into the addition and leaves a change with neither side. */
  lemma FoldingCanKeepAGoneChild(s: Instance, resolver: Resolver, key: ResourceKey, res: Resource,
                                 deliveries: seq<Delivery>)
    requires Consistent(s) && !Settled(s, key) && key in s.children && ResourceChange(Some(res), None).About(key)
    requires deliveries == [Delivery(key, ResourceChange(Some(res), None)),
                            Delivery(key, ResourceChange(None, Some(res)))]
    ensures key !in ApplyAll(s, resolver, deliveries).children
    ensures key in Apply(s, resolver, ResourceChange(None, None)).children
  {
    assert deliveries[1..][1..] == [] && ChainFor(key, Some(res), deliveries[1..]);
    ChainLeavesChildIff(s, resolver, key, None, deliveries);
    assert deliveries[1] in deliveries && !LiveSince(deliveries, 1);
    OneChange(s, resolver, key, ResourceChange(None, None));
  }

  // ---------- the record left ----------

  /** The owner a version is recorded with does not hang on what is recorded about the resource itself. */
  lemma {:induction false} OwnerStays(s: Instance, t: Instance, key: ResourceKey, owners: seq<OwnerRef>,
                                      namespace: string)
    requires SameButForChild(s, t, key) && !Settled(s, key) && key !in OwnerKeys(owners, namespace)
    ensures ParentId(s, owners, namespace) == ParentId(t, owners, namespace)
    decreases |owners|
  {
    if owners != [] && owners[0].uid == "" {
      var first := OwnerRefKey(owners[0], namespace);
      assert owners[0] in owners;
      if first.Some? {
        assert first.value != key;
        assert first.value in s.children - {key} <==> first.value in t.children - {key};
        assert KnownUid(s, first.value) == KnownUid(t, first.value);
        assert OwnerKeys(owners[1..], namespace) <= OwnerKeys(owners, namespace);
        OwnerStays(s, t, key, owners[1..], namespace);
      }
    }
  }

  /** No version of the resource, nor what is recorded about it, has another child's UID or is what the last version is
      owned by through other children. */
  ghost predicate VersionsFit(s: Instance, key: ResourceKey, last: Resource, deliveries: seq<Delivery>) {
    && (key in s.children ==> Fits(s.children, key, s.children[key].ref.uid, OwnerIdOf(s, last)))
    && (forall d :: d in deliveries && d.change.newRes.Some? ==>
          Fits(s.children, key, d.change.newRes.value.ref.uid, OwnerIdOf(s, last)))
  }

  /** The record of a version in terms of the other children. */
  ghost function RecordOf(s: Instance, resolver: Resolver, key: ResourceKey, res: Resource): ChildMonitoredResource {
    NewChild(res, resolver, OwnerIdOf(s, res), RootOf(OwnerIdOf(s, res), OwnersAmong(Others(s.children, key))))
  }

  lemma RecordIsOf(s: Instance, resolver: Resolver, key: ResourceKey, res: Resource)
    requires Acyclic(Others(s.children, key))
    requires key in s.children ==> Fits(s.children, key, s.children[key].ref.uid, OwnerIdOf(s, res))
    ensures ChildFor(s, resolver, res) == RecordOf(s, resolver, key, res)
  {
    var others := Others(s.children, key);
    if key in s.children {
      var c := s.children[key];
      assert s.children[key := c] == s.children;
      forall i, j | i in s.children && j in s.children && s.children[i].ref.uid == s.children[j].ref.uid
        ensures i == j
      {
        assert i != key && j != key ==> others[i].ref.uid == others[j].ref.uid;
      }
      OwnersWith(s.children, key, c);
      assert ReachesRoot(OwnerIdOf(s, res), OwnersAmong(others));
      var n: nat :| Climb(OwnerIdOf(s, res), OwnersAmong(others), n) !in OwnersAmong(others);
      ClimbWithOneMore(OwnerIdOf(s, res), OwnersAmong(others), c.ref.uid, c.ownerId, n);
    } else {
      assert others == s.children;
    }
  }

  /** One change leaves a record of its new version, if any. */
  lemma OneRecord(s: Instance, resolver: Resolver, key: ResourceKey, change: ResourceChange)
    requires Consistent(s) && !Settled(s, key) && change.About(key) && key in Apply(s, resolver, change).children
    ensures Apply(s, resolver, change).children[key] ==
            if change.newRes.Some? then ChildFor(s, resolver, change.newRes.value) else s.children[key]
  {
    assert ConsistentAt(s, key);
    KindOfUnsettled(s, key, change);
    UnsettledKindDoes(s, resolver, key, change);
  }

  lemma RecordStays(s: Instance, t: Instance, resolver: Resolver, key: ResourceKey, res: Resource)
    requires SameButForChild(s, t, key) && !Settled(s, key) && res.WellFormed() && key !in NamedOwners(res)
    ensures OwnerIdOf(s, res) == OwnerIdOf(t, res) && Others(s.children, key) == Others(t.children, key)
    ensures RecordOf(s, resolver, key, res) == RecordOf(t, resolver, key, res)
  {
    OwnerStays(s, t, key, res.info.ownerRefs, res.info.key.namespace);
  }

  lemma FitsAmongOthers(children: ChildMap, key: ResourceKey, uid: Uid, owner: Uid)
    ensures Fits(children, key, uid, owner) <==> Fits(Others(children, key), key, uid, owner)
  {
    var others := Others(children, key);
    assert Others(others, key) == others;
    assert forall j :: j in children && j != key <==> j in others && j != key;
    assert forall j :: j in others ==> others[j] == children[j];
  }

  lemma VersionsStillFit(s: Instance, resolver: Resolver, key: ResourceKey, last: Resource, deliveries: seq<Delivery>)
    requires Consistent(s) && !Settled(s, key) && deliveries != [] && deliveries[0].change.About(key)
    requires last.WellFormed() && key !in NamedOwners(last) && VersionsFit(s, key, last, deliveries)
    ensures VersionsFit(Apply(s, resolver, deliveries[0].change), key, last, deliveries[1..])
  {
    var change := deliveries[0].change;
    var t := Apply(s, resolver, change);
    OneChange(s, resolver, key, change);
    RecordStays(s, t, resolver, key, last);
    assert deliveries[0] in deliveries;
    forall uid
      ensures Fits(s.children, key, uid, OwnerIdOf(s, last)) <==> Fits(t.children, key, uid, OwnerIdOf(t, last))
    {
      FitsAmongOthers(s.children, key, uid, OwnerIdOf(s, last));
      FitsAmongOthers(t.children, key, uid, OwnerIdOf(t, last));
    }
    if key in t.children {
      OneRecord(s, resolver, key, change);
    }
  }

  /** Applied in turn, changes leave the last version's record. */
  lemma {:induction false} ChainLeavesRecord(s: Instance, resolver: Resolver, key: ResourceKey, was: Option<Resource>,
                                             deliveries: seq<Delivery>, last: Resource)
    requires Consistent(s) && !Settled(s, key) && Acyclic(Others(s.children, key))
    requires ChainFor(key, was, deliveries) && deliveries != [] && LastNew(was, deliveries) == Some(last)
    requires last.WellFormed() && key !in NamedOwners(last) && VersionsFit(s, key, last, deliveries)
    requires key in ApplyAll(s, resolver, deliveries).children
    ensures ApplyAll(s, resolver, deliveries).children[key] == RecordOf(s, resolver, key, last)
    decreases |deliveries|
  {
    var change, rest := deliveries[0].change, deliveries[1..];
    var t := Apply(s, resolver, change);
    if rest == [] {
      assert ApplyAll(t, resolver, rest) == t;
      OneRecord(s, resolver, key, change);
      RecordIsOf(s, resolver, key, last);
    } else {
      OneChange(s, resolver, key, change);
      ChangeKeepsConsistent(s, resolver, key, change);
      VersionsStillFit(s, resolver, key, last, deliveries);
      RecordStays(s, t, resolver, key, last);
      ChainLeavesRecord(t, resolver, key, change.newRes, rest, last);
    }
  }

  lemma SameOnceChildIs(s: Instance, t: Instance, key: ResourceKey)
    requires Consistent(s) && Consistent(t) && SameButForChild(s, t, key) && !Settled(s, key)
    requires key in s.children <==> key in t.children
    requires key in s.children ==> s.children[key] == t.children[key]
    ensures s == t
  {
    assert ConsistentAt(s, key) && ConsistentAt(t, key);
    forall k ensures (k in s.children <==> k in t.children) && (k in s.children ==> s.children[k] == t.children[k]) {
      if k != key {
        assert k in s.children - {key} <==> k in t.children - {key};
        assert k in s.children ==> (s.children - {key})[k] == (t.children - {key})[k];
      }
    }
    assert s.children == t.children;
    forall k ensures k in s.tracked <==> k in t.tracked {
      assert k != key ==> (k in s.tracked - {key} <==> k in t.tracked - {key});
    }
    assert s.tracked == t.tracked;
  }

  /** Where the resource ends up live, one folded change leaves the very instance that the changes in turn leave, with
      the same owner and root in the record, exactly under that condition on the versions; given acyclic owners,
      versions that fit among them, and a last version that does not name itself as its owner. */
  lemma FoldingIsConfluentForChildIff(s: Instance, resolver: Resolver, key: ResourceKey, was: Option<Resource>,
                                      deliveries: seq<Delivery>, last: Resource)
    requires Consistent(s) && !Settled(s, key) && Acyclic(s.children)
    requires ChainFor(key, was, deliveries) && deliveries != [] && LastNew(was, deliveries) == Some(last)
    requires key !in NamedOwners(last) && VersionsFit(s, key, last, deliveries)
    ensures Apply(s, resolver, ResourceChange(Some(last), was)) == ApplyAll(s, resolver, deliveries) <==>
            FoldsAlike(s, key, was, deliveries)
  {
    var change := ResourceChange(Some(last), was);
    var folded, inTurn := Apply(s, resolver, change), ApplyAll(s, resolver, deliveries);
    FoldingAgreesOnChildIff(s, resolver, key, was, deliveries);
    LastIsAbout(key, was, deliveries);
    OthersStayAcyclic(s.children, key);
    if FoldsAlike(s, key, was, deliveries) {
      if key in folded.children {
        OneRecord(s, resolver, key, change);
        RecordIsOf(s, resolver, key, last);
        ChainLeavesRecord(s, resolver, key, was, deliveries, last);
      }
      ChangeKeepsConsistent(s, resolver, key, change);
      ChainKeepsConsistent(s, resolver, key, was, deliveries);
      ChainLeavesChildIff(s, resolver, key, was, deliveries);
      OneChange(s, resolver, key, change);
      SameOnceChildIs(folded, inTurn, key);
    }
  }

  lemma {:induction false} ChainKeepsConsistent(s: Instance, resolver: Resolver, key: ResourceKey,
                                                was: Option<Resource>, deliveries: seq<Delivery>)
    requires Consistent(s) && ChainFor(key, was, deliveries)
    ensures Consistent(ApplyAll(s, resolver, deliveries))
    decreases |deliveries|
  {
    if deliveries != [] {
      ChangeKeepsConsistent(s, resolver, key, deliveries[0].change);
      ChainKeepsConsistent(Apply(s, resolver, deliveries[0].change), resolver, key, deliveries[0].change.newRes,
                           deliveries[1..]);
    }
  }
}
