/** Which resources an instance tracks as changes arrive, and when they are those a rescan would find. */
module ChildTracking {
  import opened Kubernetes
  import opened DesiredResources
  import opened MonitoredResources
  import opened RootOwners
  import opened ChangeQueues
  import opened Instances
  import opened InstanceProperties
  import opened Rescans
  import opened ChildOwners
  import opened Pipelines

  // ---------- chains of owners ----------

  /** At most n live owners lead from the live resource up to a root. */
  ghost predicate Hangs(roots: set<ResourceKey>, w: World, k: ResourceKey, n: nat)
    decreases n
  {
    k in w && (k in roots || (n > 0 && exists o :: o in NamedOwners(w[k]) && Hangs(roots, w, o, n - 1)))
  }

  ghost predicate HasChain(roots: set<ResourceKey>, w: World, k: ResourceKey) {
    exists n: nat :: Hangs(roots, w, k, n)
  }

  lemma {:induction false} HangsWithMore(roots: set<ResourceKey>, w: World, k: ResourceKey, n: nat, m: nat)
    requires Hangs(roots, w, k, n) && n <= m
    ensures Hangs(roots, w, k, m)
    decreases n
  {
    if k !in roots {
      var o :| o in NamedOwners(w[k]) && Hangs(roots, w, o, n - 1);
      HangsWithMore(roots, w, o, n - 1, m - 1);
    }
  }

  lemma ChainThrough(roots: set<ResourceKey>, w: World, k: ResourceKey, o: ResourceKey)
    requires k in w && o in NamedOwners(w[k]) && HasChain(roots, w, o)
    ensures HasChain(roots, w, k)
  {
    var n: nat :| Hangs(roots, w, o, n);
    assert Hangs(roots, w, k, n + 1);
  }

  /** A set with the live roots, and with whatever is owned from within it, has everything with a chain. */
  ghost predicate Closed(roots: set<ResourceKey>, w: World, keys: set<ResourceKey>) {
    forall k :: k in w && (k in roots || NamedOwners(w[k]) * keys != {}) ==> k in keys
  }

  lemma {:induction false} ChainsStayWithin(roots: set<ResourceKey>, w: World, keys: set<ResourceKey>, k: ResourceKey,
                                            n: nat)
    requires Closed(roots, w, keys) && Hangs(roots, w, k, n)
    ensures k in keys
    decreases n
  {
    if k !in roots {
      var o :| o in NamedOwners(w[k]) && Hangs(roots, w, o, n - 1);
      ChainsStayWithin(roots, w, keys, o, n - 1);
      assert o in NamedOwners(w[k]) * keys;
    }
  }

  /** What hangs from a root without the resource at key, whatever is there. */
  lemma {:induction false} ChainAvoids(roots: set<ResourceKey>, w: World, key: ResourceKey, k: ResourceKey, n: nat)
    requires Hangs(roots, w, k, n) && !Hangs(roots, w, key, n)
    ensures Hangs(roots, w - {key}, k, n)
    decreases n
  {
    if k !in roots {
      var o :| o in NamedOwners(w[k]) && Hangs(roots, w, o, n - 1);
      if Hangs(roots, w, key, n - 1) {
        HangsWithMore(roots, w, key, n - 1, n);
      }
      ChainAvoids(roots, w, key, o, n - 1);
      assert k != key && (w - {key})[k] == w[k];
    }
  }

  /** Chains that do not pass through key survive whatever happens there. */
  lemma {:induction false} ChainWithout(roots: set<ResourceKey>, w: World, key: ResourceKey, res: Option<Resource>,
                                        k: ResourceKey, n: nat)
    requires Hangs(roots, w - {key}, k, n)
    ensures Hangs(roots, Install(w, key, res), k, n) && Hangs(roots, w, k, n)
    decreases n
  {
    if k !in roots {
      var o :| o in NamedOwners(w[k]) && Hangs(roots, w - {key}, o, n - 1);
      ChainWithout(roots, w, key, res, o, n - 1);
    }
  }

  lemma HasChainWithout(roots: set<ResourceKey>, w: World, key: ResourceKey, res: Option<Resource>, k: ResourceKey)
    requires HasChain(roots, w - {key}, k)
    ensures HasChain(roots, Install(w, key, res), k) && HasChain(roots, w, k)
  {
    var n: nat :| Hangs(roots, w - {key}, k, n);
    ChainWithout(roots, w, key, res, k, n);
  }

  /** Without a chain of its own, nothing is on another's. */
  lemma HasChainAvoiding(roots: set<ResourceKey>, w: World, key: ResourceKey, k: ResourceKey)
    requires HasChain(roots, w, k) && !HasChain(roots, w, key)
    ensures HasChain(roots, w - {key}, k)
  {
    var n: nat :| Hangs(roots, w, k, n);
    ChainAvoids(roots, w, key, k, n);
  }

  /** What has a chain and is no root itself has an owner whose chain avoids it. */
  lemma {:induction false} OwnerAvoids(roots: set<ResourceKey>, w: World, key: ResourceKey, n: nat)
    requires Hangs(roots, w, key, n) && key !in roots
    ensures exists o :: o in NamedOwners(w[key]) && HasChain(roots, w - {key}, o)
    decreases n
  {
    if Hangs(roots, w, key, n - 1) {
      OwnerAvoids(roots, w, key, n - 1);
    } else {
      var o :| o in NamedOwners(w[key]) && Hangs(roots, w, o, n - 1);
      ChainAvoids(roots, w, key, o, n - 1);
    }
  }

  /** With a chain of its own, the resource at key may be on anybody's. */
  lemma {:induction false} ChainSurvives(roots: set<ResourceKey>, w: World, key: ResourceKey, res: Resource,
                                         k: ResourceKey, n: nat)
    requires Hangs(roots, w, k, n) && HasChain(roots, w[key := res], key)
    ensures HasChain(roots, w[key := res], k)
    decreases n
  {
    var next := w[key := res];
    if k != key {
      if k in roots {
        assert Hangs(roots, next, k, 0);
      } else {
        var o :| o in NamedOwners(w[k]) && Hangs(roots, w, o, n - 1);
        ChainSurvives(roots, w, key, res, o, n - 1);
        ChainThrough(roots, next, k, o);
      }
    }
  }

  // ---------- keys kept as the cluster changes ----------

  /** The keys are exactly those of the live resources with a chain. */
  ghost predicate AreChained(roots: set<ResourceKey>, w: World, keys: set<ResourceKey>) {
    forall k :: k in keys <==> HasChain(roots, w, k)
  }

  lemma ChainedAreClosed(roots: set<ResourceKey>, w: World, keys: set<ResourceKey>)
    requires AreChained(roots, w, keys)
    ensures Closed(roots, w, keys)
  {
    forall k | k in w && (k in roots || NamedOwners(w[k]) * keys != {}) ensures k in keys {
      if k in roots {
        assert Hangs(roots, w, k, 0);
      } else {
        var o :| o in NamedOwners(w[k]) * keys;
        ChainThrough(roots, w, k, o);
      }
    }
  }

  lemma ClosedAndChainedAre(roots: set<ResourceKey>, w: World, keys: set<ResourceKey>)
    requires Closed(roots, w, keys) && forall k :: k in keys ==> HasChain(roots, w, k)
    ensures AreChained(roots, w, keys)
  {
    forall k | HasChain(roots, w, k) ensures k in keys {
      var n: nat :| Hangs(roots, w, k, n);
      ChainsStayWithin(roots, w, keys, k, n);
    }
  }

  lemma RemovalKeepsIff(roots: set<ResourceKey>, w: World, keys: set<ResourceKey>, key: ResourceKey)
    requires AreChained(roots, w, keys)
    ensures AreChained(roots, w - {key}, keys - {key}) <==>
            forall j :: j in keys && j != key ==> HasChain(roots, w - {key}, j)
    ensures key !in keys ==> AreChained(roots, w - {key}, keys - {key})
  {
    forall j | HasChain(roots, w - {key}, j) ensures j in keys && j != key {
      HasChainWithout(roots, w, key, None, j);
    }
    if key !in keys {
      forall j | j in keys ensures HasChain(roots, w - {key}, j) {
        HasChainAvoiding(roots, w, key, j);
      }
    }
  }

  /** The resource at key is a root or owned by something with a chain that does not need it. */
  ghost predicate Anchored(roots: set<ResourceKey>, w: World, key: ResourceKey, res: Resource) {
    key in roots || exists o :: o in NamedOwners(res) && HasChain(roots, w - {key}, o)
  }

  lemma AnchoredIffChained(roots: set<ResourceKey>, w: World, key: ResourceKey, res: Resource)
    ensures Anchored(roots, w, key, res) <==> HasChain(roots, w[key := res], key)
  {
    var next := w[key := res];
    assert next - {key} == w - {key} && Install(w, key, Some(res)) == next;
    if key in roots {
      assert Hangs(roots, next, key, 0);
    } else if HasChain(roots, next, key) {
      var n: nat :| Hangs(roots, next, key, n);
      OwnerAvoids(roots, next, key, n);
    } else if o :| o in NamedOwners(res) && HasChain(roots, w - {key}, o) {
      HasChainWithout(roots, w, key, Some(res), o);
      ChainThrough(roots, next, key, o);
    }
  }

  lemma UpdateKeepsIff(roots: set<ResourceKey>, w: World, keys: set<ResourceKey>, key: ResourceKey, res: Resource)
    requires AreChained(roots, w, keys) && key in keys
    ensures AreChained(roots, w[key := res], keys) <==> Anchored(roots, w, key, res)
  {
    var next := w[key := res];
    AnchoredIffChained(roots, w, key, res);
    ChainedAreClosed(roots, w, keys);
    assert Closed(roots, next, keys);
    if HasChain(roots, next, key) {
      forall j | j in keys ensures HasChain(roots, next, j) {
        var n: nat :| Hangs(roots, w, j, n);
        ChainSurvives(roots, w, key, res, j, n);
      }
      ClosedAndChainedAre(roots, next, keys);
    }
  }

  lemma AdditionKeepsIff(roots: set<ResourceKey>, w: World, keys: set<ResourceKey>, key: ResourceKey, res: Resource)
    requires AreChained(roots, w, keys) && key !in keys
    requires key in roots || NamedOwners(res) * keys != {}
    ensures AreChained(roots, w[key := res], keys + {key}) <==>
            forall j :: j in w - {key} && key in NamedOwners(w[j]) ==> j in keys
  {
    var next, more := w[key := res], keys + {key};
    AnchoredByOwner(roots, w, keys, key, res);
    AnchoredIffChained(roots, w, key, res);
    ChainedAreClosed(roots, w, keys);
    if forall j :: j in w - {key} && key in NamedOwners(w[j]) ==> j in keys {
      assert Closed(roots, next, more);
      forall j | j in more ensures HasChain(roots, next, j) {
        if j != key {
          var n: nat :| Hangs(roots, w, j, n);
          ChainSurvives(roots, w, key, res, j, n);
        }
      }
      ClosedAndChainedAre(roots, next, more);
    }
    if AreChained(roots, next, more) {
      forall j | j in w - {key} && key in NamedOwners(w[j]) ensures j in keys {
        ChainThrough(roots, next, j, key);
      }
    }
  }

  lemma AnchoredByOwner(roots: set<ResourceKey>, w: World, keys: set<ResourceKey>, key: ResourceKey, res: Resource)
    requires AreChained(roots, w, keys) && key !in keys
    requires key in roots || NamedOwners(res) * keys != {}
    ensures Anchored(roots, w, key, res)
  {
    if key !in roots {
      var o :| o in NamedOwners(res) * keys;
      HasChainAvoiding(roots, w, key, o);
    }
  }

  /** A resource that comes to live untracked leaves everything as it was. */
  lemma StrangerChangesNothing(roots: set<ResourceKey>, w: World, keys: set<ResourceKey>, key: ResourceKey,
                               res: Resource)
    requires AreChained(roots, w, keys) && key !in keys && key !in roots && NamedOwners(res) * keys == {}
    ensures AreChained(roots, w[key := res], keys)
  {
    var next := w[key := res];
    ChainedAreClosed(roots, w, keys);
    assert Closed(roots, next, keys);
    forall j | j in keys ensures HasChain(roots, next, j) {
      HasChainAvoiding(roots, w, key, j);
      HasChainWithout(roots, w, key, Some(res), j);
    }
    ClosedAndChainedAre(roots, next, keys);
  }

  // ---------- what an instance tracks ----------

  /** The desired resources that are not unknown. */
  function SettledKeys(s: Instance): set<ResourceKey> {
    set k | k in s.desired && s.desired[k].id !in s.unknown
  }

  /** The tracked keys are exactly those of the live resources with a chain of owners up to a settled desired resource
      that is live. */
  ghost predicate Tracks(s: Instance, w: World) {
    AreChained(SettledKeys(s), w, s.tracked)
  }

  /** What is tracked after a change. */
  function TrackedAfter(s: Instance, key: ResourceKey, res: Option<Resource>): set<ResourceKey> {
    if res.None? then s.tracked - {key}
    else if Settled(s, key) || NamedOwners(res.value) * s.tracked != {} then s.tracked + {key}
    else s.tracked
  }

  lemma SettledChangeTracks(s: Instance, resolver: Resolver, w: World, key: ResourceKey, change: ResourceChange)
    requires Consistent(s) && ReflectsAt(s, resolver, w, key) && Announces(w, key, change) && Settled(s, key)
    ensures Apply(s, resolver, change).tracked == TrackedAfter(s, key, change.newRes)
  {
    AgreedChangeSettles(s, resolver, key, change);
  }

  lemma UnsettledChangeTracks(s: Instance, resolver: Resolver, key: ResourceKey, change: ResourceChange)
    requires ConsistentAt(s, key) && !Settled(s, key) && change.About(key)
    requires key in s.tracked ==> change.oldRes.Some?
    ensures Apply(s, resolver, change).tracked == TrackedAfter(s, key, change.newRes)
  {
    KindOfUnsettled(s, key, change);
    UnsettledKindDoes(s, resolver, key, change);
  }

  lemma ChangeTracks(s: Instance, resolver: Resolver, w: World, key: ResourceKey, change: ResourceChange)
    requires Consistent(s) && Reflects(s, resolver, w) && Announces(w, key, change) && Tracks(s, w)
    ensures Apply(s, resolver, change).tracked == TrackedAfter(s, key, change.newRes)
    ensures SettledKeys(Apply(s, resolver, change)) == SettledKeys(s)
  {
    assert ConsistentAt(s, key) && ReflectsAt(s, resolver, w, key);
    if Settled(s, key) {
      SettledChangeTracks(s, resolver, w, key, change);
    } else {
      assert key in s.tracked ==> HasChain(SettledKeys(s), w, key);
      UnsettledChangeTracks(s, resolver, key, change);
    }
    ChangeKeepsDesired(s, resolver, change);
  }

  /** A newly tracked resource must not own anything live already, unless that is tracked. What stops being tracked must
      leave everything else that is tracked a chain. What stays tracked must be a root or have an owner with a chain
      that does not need it. */
  ghost predicate KeepsTrack(s: Instance, w: World, key: ResourceKey, res: Option<Resource>) {
    if key !in s.tracked then
      key in TrackedAfter(s, key, res) ==>
        forall j :: j in w - {key} && key in NamedOwners(w[j]) ==> j in s.tracked
    else if res.None? then
      forall j :: j in s.tracked && j != key ==> HasChain(SettledKeys(s), w - {key}, j)
    else
      Anchored(SettledKeys(s), w, key, res.value)
  }

  /** A change leaves the right resources tracked exactly in those cases. */
  lemma ChangeKeepsTrackIff(s: Instance, resolver: Resolver, w: World, key: ResourceKey, change: ResourceChange)
    requires Consistent(s) && Reflects(s, resolver, w) && Announces(w, key, change) && Tracks(s, w)
    ensures Tracks(Apply(s, resolver, change), Install(w, key, change.newRes)) <==> KeepsTrack(s, w, key, change.newRes)
  {
    var roots, keys := SettledKeys(s), s.tracked;
    ChangeTracks(s, resolver, w, key, change);
    if change.newRes.None? {
      RemovalKeepsIff(roots, w, keys, key);
    } else if key in keys {
      assert keys + {key} == keys;
      UpdateKeepsIff(roots, w, keys, key, change.newRes.value);
    } else if key in TrackedAfter(s, key, change.newRes) {
      AdditionKeepsIff(roots, w, keys, key, change.newRes.value);
    } else {
      StrangerChangesNothing(roots, w, keys, key, change.newRes.value);
    }
  }

  /** A child that is announced before its owner is tracked is missed: its owner's coming does not bring it in. */
  lemma ChildBeforeOwnerIsMissed(s: Instance, resolver: Resolver, w: World, key: ResourceKey, change: ResourceChange,
                                 child: ResourceKey)
    requires Consistent(s) && Reflects(s, resolver, w) && Announces(w, key, change) && Tracks(s, w)
    requires key !in s.tracked && key in TrackedAfter(s, key, change.newRes)
    requires child in w - {key} && key in NamedOwners(w[child]) && child !in s.tracked
    ensures child !in Apply(s, resolver, change).children
    ensures HasChain(SettledKeys(s), Install(w, key, change.newRes), child)
  {
    var next := Install(w, key, change.newRes);
    ChangeTracks(s, resolver, w, key, change);
    ChangeKeepsConsistent(s, resolver, key, change);
    assert ConsistentAt(Apply(s, resolver, change), child);
    AnchoredByOwner(SettledKeys(s), w, s.tracked, key, change.newRes.value);
    AnchoredIffChained(SettledKeys(s), w, key, change.newRes.value);
    ChainThrough(SettledKeys(s), next, child, key);
  }

  /** A child that outlives its owner is kept, although nothing leads from it to a desired resource any more. */
  lemma ChildAfterOwnerIsKept(s: Instance, resolver: Resolver, w: World, key: ResourceKey, change: ResourceChange,
                              child: ResourceKey)
    requires Consistent(s) && Announces(w, key, change)
    requires change.newRes.None? && child in s.children && child in w - {key}
    requires NamedOwners(w[child]) <= {key}
    ensures child in Apply(s, resolver, change).children
    ensures !HasChain(SettledKeys(s), Install(w, key, None), child)
  {
    assert ConsistentAt(s, child);
    ChildrenAfterChange(s, resolver, key, change);
    if n: nat :| Hangs(SettledKeys(s), w - {key}, child, n) {
      assert (w - {key})[child] == w[child];
      var o :| o in NamedOwners(w[child]) && Hangs(SettledKeys(s), w - {key}, o, n - 1);
      assert false;
    }
  }

  /** Nothing else that is live names the resource as its owner when it comes or goes, and it keeps its owners while it
      lives. */
  predicate Orderly(w: World, key: ResourceKey, change: ResourceChange) {
    if change.oldRes.Some? && change.newRes.Some?
    then NamedOwners(change.newRes.value) == NamedOwners(change.oldRes.value)
    else forall j :: j in w - {key} ==> key !in NamedOwners(w[j])
  }

  lemma {:induction false} ChainWithoutUnnamed(roots: set<ResourceKey>, w: World, key: ResourceKey, k: ResourceKey,
                                               n: nat)
    requires Hangs(roots, w, k, n) && k != key && forall j :: j in w - {key} ==> key !in NamedOwners(w[j])
    ensures Hangs(roots, w - {key}, k, n)
    decreases n
  {
    if k !in roots {
      var o :| o in NamedOwners(w[k]) && Hangs(roots, w, o, n - 1);
      assert k in w - {key} && (w - {key})[k] == w[k];
      ChainWithoutUnnamed(roots, w, key, o, n - 1);
    }
  }

  /** Owners that come before what they own, go after it and are never exchanged keep the tracked resources right. */
  lemma OrderlyChangesKeepTrack(s: Instance, w: World, key: ResourceKey, change: ResourceChange)
    requires Announces(w, key, change) && Tracks(s, w) && Orderly(w, key, change)
    ensures KeepsTrack(s, w, key, change.newRes)
  {
    var roots := SettledKeys(s);
    ChainedAreClosed(roots, w, s.tracked);
    if key in s.tracked {
      assert HasChain(roots, w, key);
      if change.newRes.Some? {
        if key !in roots {
          var n: nat :| Hangs(roots, w, key, n);
          OwnerAvoids(roots, w, key, n);
        }
      } else {
        forall j | j in s.tracked && j != key ensures HasChain(roots, w - {key}, j) {
          var n: nat :| Hangs(roots, w, j, n);
          ChainWithoutUnnamed(roots, w, key, j, n);
        }
      }
    }
  }

  // ---------- whole runs ----------

  /** The right resources are tracked after every change of the run. */
  ghost predicate TracksThroughout(s: Instance, resolver: Resolver, w: World, deliveries: seq<Delivery>)
    decreases |deliveries|
  {
    Tracks(s, w) &&
    (deliveries == [] ||
     (var d := deliveries[0];
      TracksThroughout(Apply(s, resolver, d.change), resolver, Install(w, d.key, d.change.newRes), deliveries[1..])))
  }

  /** Every change of the run keeps the right resources tracked when it comes. */
  ghost predicate KeepsTrackThroughout(s: Instance, resolver: Resolver, w: World, deliveries: seq<Delivery>)
    decreases |deliveries|
  {
    deliveries == [] ||
    (var d := deliveries[0];
     && KeepsTrack(s, w, d.key, d.change.newRes)
     && KeepsTrackThroughout(Apply(s, resolver, d.change), resolver, Install(w, d.key, d.change.newRes),
                             deliveries[1..]))
  }

  lemma {:induction false} RunKeepsTrackIff(s: Instance, resolver: Resolver, w: World, deliveries: seq<Delivery>)
    requires Consistent(s) && Reflects(s, resolver, w) && Tracks(s, w) && FollowsDeliveries(w, deliveries)
    ensures TracksThroughout(s, resolver, w, deliveries) <==> KeepsTrackThroughout(s, resolver, w, deliveries)
    ensures KeepsTrackThroughout(s, resolver, w, deliveries) ==>
              Tracks(ApplyAll(s, resolver, deliveries), Replay(w, deliveries))
    decreases |deliveries|
  {
    if deliveries != [] {
      var d := deliveries[0];
      ChangeKeepsTrackIff(s, resolver, w, d.key, d.change);
      ChangeKeepsConsistent(s, resolver, d.key, d.change);
      ChangeKeepsReflection(s, resolver, w, d.key, d.change);
      if KeepsTrack(s, w, d.key, d.change.newRes) {
        RunKeepsTrackIff(Apply(s, resolver, d.change), resolver, Install(w, d.key, d.change.newRes), deliveries[1..]);
      }
    }
  }

  // ---------- what is recorded about children ----------

  /** Kubernetes and the monitor see the same first owner, and it has a UID. */
  predicate OwnerIsGiven(res: Resource) {
    && res.ownerRefs != [] && res.info.ownerRefs != []
    && res.info.ownerRefs[0].uid == res.ownerRefs[0].uid != ""
  }

  predicate ShowsChild(children: ChildMap, resolver: Resolver, w: World, k: ResourceKey) {
    k in children ==>
      && k in w && children[k].ref == w[k].ref && children[k].manifest == resolver(w[k])
      && (OwnerIsGiven(w[k]) ==> children[k].ownerId == w[k].ownerRefs[0].uid)
  }

  /** Every child is recorded as what is live under its key, with the owner that gives. */
  ghost predicate ShowsChildren(s: Instance, resolver: Resolver, w: World) {
    forall k :: ShowsChild(s.children, resolver, w, k)
  }

  lemma ChangeKeepsShowingChildren(s: Instance, resolver: Resolver, w: World, key: ResourceKey, change: ResourceChange)
    requires Consistent(s) && ShowsChildren(s, resolver, w) && Announces(w, key, change)
    ensures ShowsChildren(Apply(s, resolver, change), resolver, Install(w, key, change.newRes))
  {
    assert ConsistentAt(s, key) && ShowsChild(s.children, resolver, w, key);
    var t, next := Apply(s, resolver, change), Install(w, key, change.newRes);
    ChildrenAfterChange(s, resolver, key, change);
    forall k ensures ShowsChild(t.children, resolver, next, k) {
      assert ShowsChild(s.children, resolver, w, k);
      if k == key {
        ChildAfterChange(s, resolver, w, key, change);
      }
    }
  }

  lemma ChildAfterChange(s: Instance, resolver: Resolver, w: World, key: ResourceKey, change: ResourceChange)
    requires ConsistentAt(s, key) && ShowsChild(s.children, resolver, w, key) && Announces(w, key, change)
    ensures ShowsChild(Apply(s, resolver, change).children, resolver, Install(w, key, change.newRes), key)
  {
    ChildrenAfterChange(s, resolver, key, change);
    if !Settled(s, key) {
      KindOfUnsettled(s, key, change);
    }
  }

  lemma {:induction false} RunsKeepShowingChildren(s: Instance, resolver: Resolver, w: World, deliveries: seq<Delivery>)
    requires Consistent(s) && ShowsChildren(s, resolver, w) && FollowsDeliveries(w, deliveries)
    ensures ShowsChildren(ApplyAll(s, resolver, deliveries), resolver, Replay(w, deliveries))
    decreases |deliveries|
  {
    if deliveries != [] {
      var d := deliveries[0];
      ChangeKeepsConsistent(s, resolver, d.key, d.change);
      ChangeKeepsShowingChildren(s, resolver, w, d.key, d.change);
      RunsKeepShowingChildren(Apply(s, resolver, d.change), resolver, Install(w, d.key, d.change.newRes),
                              deliveries[1..]);
    }
  }

  /** Nothing can be told from the reference: it has no UID, and refers to nothing tracked. */
  predicate TellsNothing(s: Instance, owner: OwnerRef, namespace: string) {
    && owner.uid == "" && owner.apiVersion.GroupVersion?
    && OwnerRefKey(owner, namespace).value !in s.tracked
  }

  /** The owner recorded with a child comes from the first reference that tells one: its UID if it carries one,
      otherwise that of the live object it refers to. A malformed reference without a UID before that means no owner. */
  lemma OwnerIsFirstThatTells(s: Instance, resolver: Resolver, w: World, res: Resource, i: nat, obj: ObjectRef)
    requires Consistent(s) && Reflects(s, resolver, w) && ShowsChildren(s, resolver, w)
    requires var owners, namespace := res.info.ownerRefs, res.info.key.namespace;
             && i < |owners| && (forall j :: 0 <= j < i ==> TellsNothing(s, owners[j], namespace))
             && (owners[i].uid == "" && owners[i].apiVersion.GroupVersion? ==>
                   RefersTo(owners[i], namespace, obj) && obj.Key() in s.tracked)
    ensures var owner := res.info.ownerRefs[i];
            if owner.uid != "" then OwnerIdOf(s, res) == owner.uid
            else if owner.apiVersion.Malformed? then OwnerIdOf(s, res) == ""
            else obj.Key() in w && OwnerIdOf(s, res) == w[obj.Key()].ref.uid
  {
    var owners, namespace := res.info.ownerRefs, res.info.key.namespace;
    SkipsWhatTellsNothing(s, owners, namespace, i);
    if owners[i].uid == "" && owners[i].apiVersion.GroupVersion? {
      assert OwnerRefKey(owners[i], namespace) == Some(obj.Key());
      KnownUidIsLive(s, resolver, w, obj.Key());
    }
  }

  /** If no reference tells one, there is no owner. */
  lemma NoOwnerIfNoneTells(s: Instance, res: Resource)
    requires Consistent(s)
    requires forall j :: 0 <= j < |res.info.ownerRefs| ==>
               TellsNothing(s, res.info.ownerRefs[j], res.info.key.namespace)
    ensures OwnerIdOf(s, res) == ""
  {
    var owners := res.info.ownerRefs;
    SkipsWhatTellsNothing(s, owners, res.info.key.namespace, |owners|);
    assert owners[|owners|..] == [];
  }

  lemma {:induction false} SkipsWhatTellsNothing(s: Instance, owners: seq<OwnerRef>, namespace: string, i: nat)
    requires Consistent(s) && i <= |owners| && forall j :: 0 <= j < i ==> TellsNothing(s, owners[j], namespace)
    ensures ParentId(s, owners, namespace) == ParentId(s, owners[i..], namespace)
    decreases i
  {
    if i > 0 {
      assert owners[1..][i - 1..] == owners[i..];
      assert forall j :: 0 <= j < i - 1 ==> owners[1..][j] == owners[j + 1];
      SkipsWhatTellsNothing(s, owners[1..], namespace, i - 1);
      assert ConsistentAt(s, OwnerRefKey(owners[0], namespace).value);
    } else {
      assert owners[0..] == owners;
    }
  }

  lemma KnownUidIsLive(s: Instance, resolver: Resolver, w: World, key: ResourceKey)
    requires Consistent(s) && Reflects(s, resolver, w) && ShowsChildren(s, resolver, w) && key in s.tracked
    ensures key in w && KnownUid(s, key) == Some(w[key].ref.uid)
  {
    assert ConsistentAt(s, key) && ReflectsAt(s, resolver, w, key) && ShowsChild(s.children, resolver, w, key);
  }

  // ---------- agreement with rescans ----------

  /** The traversal meets what is live, and exactly what has a chain of owners up to a settled desired resource. */
  ghost predicate Complete(s: Instance, discovered: seq<Discovered>, live: World) {
    && (forall k :: LiveAt(live, k))
    && (forall i :: 0 <= i < |discovered| ==>
          Lookup(live, discovered[i].resource.info.key) == Some(discovered[i].resource))
    && (forall k :: Reached(discovered, k) <==> HasChain(SettledKeys(s), live, k))
  }

  lemma CompleteIsFaithful(s: Instance, discovered: seq<Discovered>, live: World)
    requires Complete(s, discovered, live)
    ensures Faithful(s, discovered, live)
  {
    forall k | Settled(s, k) && k in live ensures Reached(discovered, k) {
      assert Hangs(SettledKeys(s), live, k, 0);
    }
  }

  /** A consistent rescan over a complete traversal tracks the right resources and shows the children there are. */
  lemma RescanTracks(s: Instance, scope: Scope, cache: ClusterCache, discoveryHealthy: bool, resolver: Resolver,
                     discovered: seq<Discovered>, live: World)
    requires IsRescan(s, scope, cache, discoveryHealthy, resolver, discovered) && Consistent(s)
    requires Complete(s, discovered, live)
    ensures Tracks(s, live) && ShowsChildren(s, resolver, live)
  {
    var m := Monitored(s.present, s.children, s.missing, s.unknown);
    forall k ensures k in s.tracked <==> Reached(discovered, k) {
      TrackedAt(s, k);
      PresentKeysAreDesired(s, k);
      assert ConsistentAt(s, k);
      if k in s.desired {
        assert ClassifiedAt(s.desired, scope, cache, discoveryHealthy, resolver, discovered, m, k);
      }
    }
    forall k ensures ShowsChild(s.children, resolver, live, k) {
      if k in s.children {
        assert ChildAsFound(resolver, discovered, s.children, k);
        FoundChildIsShown(resolver, discovered, s.children, live, k);
      }
    }
  }

  lemma FoundChildIsShown(resolver: Resolver, discovered: seq<Discovered>, children: ChildMap, live: World,
                          k: ResourceKey)
    requires k in children && ChildAsFound(resolver, discovered, children, k)
    requires forall j :: LiveAt(live, j)
    requires forall i :: 0 <= i < |discovered| ==>
               Lookup(live, discovered[i].resource.info.key) == Some(discovered[i].resource)
    ensures ShowsChild(children, resolver, live, k)
  {
    var i :| 0 <= i < |discovered| && discovered[i].resource.ref == children[k].ref
             && children[k].manifest == resolver(discovered[i].resource)
             && IsFirstOwner(discovered[i], children[k].ownerId);
    assert LiveAt(live, discovered[i].resource.info.key);
  }

  /** Two instances that are right about the desired resources have the same children exactly if they track the same. */
  lemma SameTrackedSameChildren(s: Instance, t: Instance)
    requires Consistent(s) && Consistent(t) && s.present == t.present
    ensures s.tracked == t.tracked <==> s.children.Keys == t.children.Keys
  {
    TrackedIsPresentAndChildren(s);
    TrackedIsPresentAndChildren(t);
    ChildKeysAreKeys(s);
    ChildKeysAreKeys(t);
    assert s.tracked == t.tracked ==> s.children.Keys == s.tracked - PresentKeys(s.present)
                                      && t.children.Keys == t.tracked - PresentKeys(t.present);
  }

  /** The instances record the same children as the same live objects. */
  predicate SameObjects(s: Instance, t: Instance) {
    && s.children.Keys == t.children.Keys
    && (forall k :: k in s.children ==>
          s.children[k].ref == t.children[k].ref && s.children[k].manifest == t.children[k].manifest)
  }

  /** An instance that has followed the cluster has the children that one fresh from a rescan has, exactly if it tracks
      the right resources. */
  lemma SameObjectsIff(s: Instance, again: Instance, resolver: Resolver, w: World)
    requires Consistent(s) && Consistent(again) && s.desired == again.desired && s.unknown == again.unknown
    requires Reflects(s, resolver, w) && Reflects(again, resolver, w)
    requires ShowsChildren(s, resolver, w) && ShowsChildren(again, resolver, w) && Tracks(again, w)
    ensures SameObjects(s, again) <==> Tracks(s, w)
    ensures s.tracked == again.tracked <==> Tracks(s, w)
    ensures s.present == again.present && s.missing == again.missing
  {
    ReflectionIsUnique(s, again, resolver, w);
    SameTrackedSameChildren(s, again);
    assert SettledKeys(s) == SettledKeys(again);
    if Tracks(s, w) {
      assert forall k :: k in s.tracked <==> k in again.tracked;
    }
    forall k | k in s.children && k in again.children
      ensures s.children[k].ref == again.children[k].ref && s.children[k].manifest == again.children[k].manifest
    {
      assert ShowsChild(s.children, resolver, w, k) && ShowsChild(again.children, resolver, w, k);
    }
  }

  ghost predicate OwnersAreGiven(children: ChildMap, w: World) {
    forall k :: k in children && k in w ==> OwnerIsGiven(w[k])
  }

  lemma SameOwners(a: ChildMap, b: ChildMap)
    requires UniqueUids(b) && a.Keys == b.Keys
    requires forall k :: k in a ==> a[k].ref == b[k].ref && a[k].ownerId == b[k].ownerId
    ensures UniqueUids(a) && OwnersAmong(a) == OwnersAmong(b)
  {
    forall j, k | j in a && k in a && a[j].ref.uid == a[k].ref.uid ensures j == k {
      assert b[j].ref.uid == b[k].ref.uid;
    }
    assert forall u :: u in Uids(a) <==> u in Uids(b);
    forall u | u in Uids(a) ensures OwnerOf(a, u) == OwnerOf(b, u) {
      var k :| k in a && a[k].ref.uid == u;
      OwnersAmongAt(a, k);
      OwnersAmongAt(b, k);
    }
  }

  /** Where first owners have UIDs, the two are then equal in every respect exactly if the roots that were stored along
      the way are still right. */
  lemma SameInstanceIff(s: Instance, again: Instance, resolver: Resolver, w: World)
    requires Consistent(s) && Consistent(again) && s.desired == again.desired && s.unknown == again.unknown
    requires Reflects(s, resolver, w) && Reflects(again, resolver, w)
    requires ShowsChildren(s, resolver, w) && ShowsChildren(again, resolver, w) && Tracks(s, w) && Tracks(again, w)
    requires Acyclic(again.children) && RootsAreCurrent(again.children) && OwnersAreGiven(again.children, w)
    ensures s == again <==> RootsAreCurrent(s.children)
  {
    SameObjectsIff(s, again, resolver, w);
    forall k | k in s.children ensures s.children[k].ownerId == again.children[k].ownerId {
      assert ShowsChild(s.children, resolver, w, k) && ShowsChild(again.children, resolver, w, k);
    }
    SameOwners(s.children, again.children);
    if RootsAreCurrent(s.children) {
      forall k | k in s.children ensures s.children[k] == again.children[k] {
        assert RootIsCurrent(s.children, k) && RootIsCurrent(again.children, k);
      }
      assert s.children == again.children;
    }
  }

  lemma RescanIsRight(s: Instance, scope: Scope, cache: ClusterCache, discoveryHealthy: bool, resolver: Resolver,
                      discovered: seq<Discovered>, live: World)
    requires IsRescan(s, scope, cache, discoveryHealthy, resolver, discovered) && Consistent(s)
    requires Complete(s, discovered, live)
    ensures Reflects(s, resolver, live) && Tracks(s, live) && ShowsChildren(s, resolver, live)
    ensures Acyclic(s.children) && RootsAreCurrent(s.children)
  {
    CompleteIsFaithful(s, discovered, live);
    RescanReflects(s, scope, cache, discoveryHealthy, resolver, discovered, live);
    RescanTracks(s, scope, cache, discoveryHealthy, resolver, discovered, live);
    RescanIsAcyclic(s.desired, resolver, discovered, s.children);
  }

  lemma RunIsRight(s: Instance, resolver: Resolver, live: World, deliveries: seq<Delivery>)
    requires Consistent(s) && Reflects(s, resolver, live) && Tracks(s, live) && ShowsChildren(s, resolver, live)
    requires FollowsDeliveries(live, deliveries)
    ensures var t, end := ApplyAll(s, resolver, deliveries), Replay(live, deliveries);
            && Consistent(t) && Reflects(t, resolver, end) && ShowsChildren(t, resolver, end)
            && t.desired == s.desired && t.unknown == s.unknown
            && (KeepsTrackThroughout(s, resolver, live, deliveries) ==> Tracks(t, end))
  {
    EveryRunReflectsTheCluster(s, resolver, live, deliveries);
    RunsKeepDesired(s, resolver, deliveries);
    RunsKeepShowingChildren(s, resolver, live, deliveries);
    RunKeepsTrackIff(s, resolver, live, deliveries);
  }

  /** A run of deliveries from one rescan to the next: both are consistent, and over complete traversals of what is live
      when they are made. */
  ghost predicate FromRescanToRescan(s: Instance, again: Instance, scope: Scope, cache: ClusterCache,
                                     discoveryHealthy: bool, resolver: Resolver, discovered: seq<Discovered>,
                                     live: World, deliveries: seq<Delivery>, laterCache: ClusterCache,
                                     laterHealthy: bool, rediscovered: seq<Discovered>)
  {
    && Consistent(s) && IsRescan(s, scope, cache, discoveryHealthy, resolver, discovered)
    && Complete(s, discovered, live) && FollowsDeliveries(live, deliveries)
    && Consistent(again) && IsRescan(again, scope, laterCache, laterHealthy, resolver, rediscovered)
    && Complete(again, rediscovered, Replay(live, deliveries))
  }

  /** A run that keeps the right resources tracked leads to the very children a rescan would find at the end, and to the
      very instance it would leave exactly if the stored roots are right; given the same unknown resources, and owners
      with UIDs. */
  lemma RunsAgreeOnChildren(s: Instance, again: Instance, scope: Scope, cache: ClusterCache, discoveryHealthy: bool,
                            resolver: Resolver, discovered: seq<Discovered>, live: World, deliveries: seq<Delivery>,
                            laterCache: ClusterCache, laterHealthy: bool, rediscovered: seq<Discovered>)
    requires FromRescanToRescan(s, again, scope, cache, discoveryHealthy, resolver, discovered, live, deliveries,
                                laterCache, laterHealthy, rediscovered)
    requires again.desired == s.desired && again.unknown == s.unknown
    ensures var t, end := ApplyAll(s, resolver, deliveries), Replay(live, deliveries);
            && (SameObjects(t, again) <==> Tracks(t, end))
            && (KeepsTrackThroughout(s, resolver, live, deliveries) ==> Tracks(t, end))
            && (Tracks(t, end) && OwnersAreGiven(again.children, end) ==>
                  (t == again <==> RootsAreCurrent(t.children)))
  {
    var t, end := ApplyAll(s, resolver, deliveries), Replay(live, deliveries);
    RescanIsRight(s, scope, cache, discoveryHealthy, resolver, discovered, live);
    RescanIsRight(again, scope, laterCache, laterHealthy, resolver, rediscovered, end);
    RunIsRight(s, resolver, live, deliveries);
    SameObjectsIff(t, again, resolver, end);
    if Tracks(t, end) && OwnersAreGiven(again.children, end) {
      SameInstanceIff(t, again, resolver, end);
    }
  }
}
