/** What every run of resource changes keeps true of an application instance. */
module InstanceProperties {
  import opened Kubernetes
  import opened DesiredResources
  import opened MonitoredResources
  import opened RootOwners
  import opened ChangeQueues
  import opened Instances

  // ---------- consistency ----------

  predicate InExactlyOne(s: Instance, id: DesiredResourceId) {
    || (id in s.present && id !in s.missing && id !in s.unknown)
    || (id !in s.present && id in s.missing && id !in s.unknown)
    || (id !in s.present && id !in s.missing && id in s.unknown)
  }

  /** What is recorded about one desired resource is about that resource. */
  predicate RecordedUnder(s: Instance, key: ResourceKey)
    requires key in s.desired
  {
    var d := s.desired[key];
    && (d.id in s.present ==> s.present[d.id].id == d.id && s.present[d.id].ref.Key() == key)
    && (d.id in s.missing ==> s.missing[d.id] == NewMissing(d))
  }

  /** Children are recorded under their own keys; a desired resource is a child only while unknown. */
  predicate ChildUnder(s: Instance, key: ResourceKey)
    requires key in s.children
  {
    && s.children[key].ref.Key() == key
    && (key in s.desired ==> s.desired[key].id in s.unknown)
  }

  predicate ConsistentAt(s: Instance, key: ResourceKey) {
    && (key in s.desired ==> InExactlyOne(s, s.desired[key].id) && RecordedUnder(s, key))
    && (key in s.children ==> ChildUnder(s, key))
    && (key in s.tracked <==> IsMonitored(s, key))
  }

  /** Each desired resource is in exactly one of present, missing and unknown, nothing else is, and the tracked
      keys are exactly those of the present resources and the children. */
  ghost predicate Consistent(s: Instance) {
    && DistinctIds(s.desired)
    && s.present.Keys + s.missing.Keys + s.unknown.Keys <= Ids(s.desired)
    && (forall k :: ConsistentAt(s, k))
  }

  predicate IsMonitored(s: Instance, key: ResourceKey) {
    (key in s.desired && s.desired[key].id in s.present) || key in s.children
  }

  /** Only the key of a present desired resource is a present key. */
  lemma PresentKeysAreDesired(s: Instance, key: ResourceKey)
    requires Consistent(s)
    ensures key in PresentKeys(s.present) <==> key in s.desired && s.desired[key].id in s.present
  {
    if key in PresentKeys(s.present) {
      var id :| id in s.present && s.present[id].ref.Key() == key;
      var k :| k in s.desired && s.desired[k].id == id;
      assert ConsistentAt(s, k);
    }
    assert ConsistentAt(s, key);
  }

  lemma ChildKeysAreKeys(s: Instance)
    requires Consistent(s)
    ensures ChildKeys(s.children) == s.children.Keys
  {
    forall k | k in s.children ensures s.children[k].ref.Key() == k {
      assert ConsistentAt(s, k);
    }
  }

  lemma TrackedAt(s: Instance, k: ResourceKey)
    requires Consistent(s)
    ensures k in s.tracked <==> k in PresentKeys(s.present) || k in s.children
    ensures k in PresentKeys(s.present) ==> k !in s.children
  {
    PresentKeysAreDesired(s, k);
    assert ConsistentAt(s, k);
  }

  /** No key is both a present resource's and a child's, and the tracked keys are exactly both together. */
  lemma TrackedIsPresentAndChildren(s: Instance)
    requires Consistent(s)
    ensures PresentKeys(s.present) !! ChildKeys(s.children)
    ensures s.tracked == PresentKeys(s.present) + ChildKeys(s.children)
  {
    ChildKeysAreKeys(s);
    var present, children := PresentKeys(s.present), s.children.Keys;
    forall k ensures (k in s.tracked <==> k in present || k in children) && !(k in present && k in children) {
      TrackedAt(s, k);
    }
  }

  // ---------- one resource's part of the state ----------

  predicate Settled(s: Instance, key: ResourceKey) {
    key in s.desired && s.desired[key].id !in s.unknown
  }

  /** The state once the desired resource at key is known to be live as res, or not to be live. */
  function Settle(s: Instance, resolver: Resolver, key: ResourceKey, res: Option<Resource>): Instance
    requires key in s.desired
  {
    var d := s.desired[key];
    match res
    case Some(r) =>
      s.(present := s.present[d.id := NewPresent(r, resolver, d.id)], missing := s.missing - {d.id},
         tracked := s.tracked + {key})
    case None =>
      s.(present := s.present - {d.id}, missing := s.missing[d.id := NewMissing(d)], tracked := s.tracked - {key})
  }

  /** The instance and the change agree on whether the resource was live. */
  predicate StatusAgrees(s: Instance, key: ResourceKey, oldRes: Option<Resource>)
    requires key in s.desired
  {
    s.desired[key].id in (if oldRes.Some? then s.present.Keys else s.missing.Keys)
  }

  /** A change to a desired resource that agrees with the instance takes it to the new side, whatever the kind of
      change; a folded change with neither side leaves it missing. */
  lemma AgreedChangeSettles(s: Instance, resolver: Resolver, key: ResourceKey, change: ResourceChange)
    requires Consistent(s) && Settled(s, key) && change.About(key) && StatusAgrees(s, key, change.oldRes)
    ensures Apply(s, resolver, change) == Settle(s, resolver, key, change.newRes)
  {
    var d := s.desired[key];
    assert ConsistentAt(s, key);
    if change.newRes.None? && change.oldRes.None? {
      assert s.missing[d.id := NewMissing(d)] == s.missing;
      assert s.present - {d.id} == s.present;
      assert s.tracked - {key} == s.tracked;
    } else if change.newRes.Some? && change.oldRes.Some? {
      assert s.missing - {d.id} == s.missing;
    }
  }

  lemma SettleTwice(s: Instance, resolver: Resolver, key: ResourceKey, first: Option<Resource>,
                    second: Option<Resource>)
    requires key in s.desired
    ensures Settle(Settle(s, resolver, key, first), resolver, key, second) == Settle(s, resolver, key, second)
  {
    var d := s.desired[key];
    var mid := Settle(s, resolver, key, first);
    if second.Some? {
      assert mid.present[d.id := NewPresent(second.value, resolver, d.id)] ==
             s.present[d.id := NewPresent(second.value, resolver, d.id)];
      assert mid.missing - {d.id} == s.missing - {d.id};
      assert mid.tracked + {key} == s.tracked + {key};
    } else {
      assert mid.present - {d.id} == s.present - {d.id};
      assert mid.missing[d.id := NewMissing(d)] == s.missing[d.id := NewMissing(d)];
      assert mid.tracked - {key} == s.tracked - {key};
    }
  }

  // ---------- every change keeps the instance consistent ----------

  lemma SettleKeepsConsistent(s: Instance, resolver: Resolver, key: ResourceKey, res: Option<Resource>)
    requires Consistent(s) && Settled(s, key)
    requires res.Some? ==> res.value.ref.Key() == key
    ensures Consistent(Settle(s, resolver, key, res))
  {
    var t := Settle(s, resolver, key, res);
    forall k ensures ConsistentAt(t, k) {
      assert ConsistentAt(s, k) && ConsistentAt(s, key);
      SettleAt(s, resolver, key, res, k);
    }
  }

  lemma SettleAt(s: Instance, resolver: Resolver, key: ResourceKey, res: Option<Resource>, k: ResourceKey)
    requires Settled(s, key) && ConsistentAt(s, key) && ConsistentAt(s, k)
    requires k != key && k in s.desired ==> s.desired[k].id != s.desired[key].id
    requires res.Some? ==> res.value.ref.Key() == key
    ensures ConsistentAt(Settle(s, resolver, key, res), k)
  {
  }

  /** Recording, updating or forgetting the child at key. */
  function WithChild(s: Instance, key: ResourceKey, child: Option<ChildMonitoredResource>): Instance {
    match child
    case Some(c) => s.(children := s.children[key := c], tracked := s.tracked + {key})
    case None => s.(children := s.children - {key}, tracked := s.tracked - {key})
  }

  lemma WithChildAt(s: Instance, key: ResourceKey, child: Option<ChildMonitoredResource>, k: ResourceKey)
    requires !Settled(s, key) && ConsistentAt(s, key) && ConsistentAt(s, k)
    requires child.Some? ==> child.value.ref.Key() == key
    ensures ConsistentAt(WithChild(s, key, child), k)
  {
  }

  /** A change to a settled desired resource settles it again or does nothing. */
  lemma SettledChange(s: Instance, resolver: Resolver, key: ResourceKey, change: ResourceChange)
    requires ConsistentAt(s, key) && Settled(s, key) && change.About(key)
    ensures Apply(s, resolver, change) == s || Apply(s, resolver, change) == Settle(s, resolver, key, change.newRes)
  {
    var t, id := Apply(s, resolver, change), s.desired[key].id;
    if change.newRes.Some? {
      assert Kind(s, change) == if id in s.missing then DesiredFound else DesiredUpdated;
      assert id !in s.missing ==> s.missing - {id} == s.missing;
      assert t == Settle(s, resolver, key, change.newRes);
    }
  }

  /** Any other change touches only the child at its key. */
  ghost function OtherChangeChild(s: Instance, resolver: Resolver,
                                  change: ResourceChange): Option<ChildMonitoredResource>
  {
    if change.newRes.Some? then Some(ChildFor(s, resolver, change.newRes.value)) else None
  }

  /** The kind of a change to anything but a settled desired resource. */
  function UnsettledKind(s: Instance, key: ResourceKey, change: ResourceChange): UpdateKind {
    if change.newRes.Some? then
      if key in s.children then ChildUpdated
      else if NamedOwners(change.newRes.value) * s.tracked != {} then ChildFound
      else NoChange
    else if change.oldRes.Some? && key in s.children then ChildRemoved
    else NoChange
  }

  lemma KindOfUnsettled(s: Instance, key: ResourceKey, change: ResourceChange)
    requires ConsistentAt(s, key) && !Settled(s, key) && change.About(key)
    ensures Kind(s, change) == UnsettledKind(s, key, change)
  {
  }

  /** What that kind does to the child at key. */
  lemma UnsettledKindDoes(s: Instance, resolver: Resolver, key: ResourceKey, change: ResourceChange)
    requires ConsistentAt(s, key) && change.About(key) && KindFits(s, change, UnsettledKind(s, key, change))
    ensures ApplyKind(s, resolver, change, UnsettledKind(s, key, change)) ==
            if UnsettledKind(s, key, change).NoChange? then s
            else WithChild(s, key, OtherChangeChild(s, resolver, change))
  {
  }

  lemma OtherChange(s: Instance, resolver: Resolver, key: ResourceKey, change: ResourceChange)
    requires ConsistentAt(s, key) && !Settled(s, key) && change.About(key)
    ensures Apply(s, resolver, change) == s
            || Apply(s, resolver, change) == WithChild(s, key, OtherChangeChild(s, resolver, change))
  {
    KindOfUnsettled(s, key, change);
    UnsettledKindDoes(s, resolver, key, change);
  }

  /** Every change keeps the instance consistent. */
  lemma ChangeKeepsConsistent(s: Instance, resolver: Resolver, key: ResourceKey, change: ResourceChange)
    requires Consistent(s) && change.About(key)
    ensures Consistent(Apply(s, resolver, change))
  {
    assert ConsistentAt(s, key);
    if Settled(s, key) {
      SettledChange(s, resolver, key, change);
      SettleKeepsConsistent(s, resolver, key, change.newRes);
    } else {
      OtherChange(s, resolver, key, change);
      var child := OtherChangeChild(s, resolver, change);
      forall k ensures ConsistentAt(WithChild(s, key, child), k) {
        assert ConsistentAt(s, k);
        WithChildAt(s, key, child, k);
      }
    }
  }

  /** From a consistent rescan, every run of changes keeps each desired resource in exactly one of present, missing
      and unknown, and the tracked keys exact. */
  lemma {:induction false} EveryRunKeepsConsistent(s: Instance, resolver: Resolver, deliveries: seq<Delivery>)
    requires Consistent(s) && AllAbout(deliveries)
    ensures Consistent(ApplyAll(s, resolver, deliveries))
    decreases |deliveries|
  {
    if deliveries != [] {
      var d := deliveries[0];
      assert d in deliveries && d.change.About(d.key);
      ChangeKeepsConsistent(s, resolver, d.key, d.change);
      assert AllAbout(deliveries[1..]);
      EveryRunKeepsConsistent(Apply(s, resolver, d.change), resolver, deliveries[1..]);
    }
  }

  // ---------- folding is confluent with the state machine ----------

  /** Changes to one resource, each taking up where the one before left off. */
  ghost predicate ChainFor(key: ResourceKey, was: Option<Resource>, deliveries: seq<Delivery>)
    decreases |deliveries|
  {
    deliveries == [] ||
    (var d := deliveries[0];
     d.key == key && d.change.About(key) && d.change.oldRes == was && ChainFor(key, d.change.newRes, deliveries[1..]))
  }

  function LastNew(was: Option<Resource>, deliveries: seq<Delivery>): Option<Resource> {
    if deliveries == [] then was else deliveries[|deliveries| - 1].change.newRes
  }

  lemma {:induction false} ChainSettles(s: Instance, resolver: Resolver, key: ResourceKey, was: Option<Resource>,
                                        deliveries: seq<Delivery>)
    requires Consistent(s) && Settled(s, key) && StatusAgrees(s, key, was)
    requires ChainFor(key, was, deliveries) && deliveries != []
    ensures ApplyAll(s, resolver, deliveries) == Settle(s, resolver, key, LastNew(was, deliveries))
    decreases |deliveries|
  {
    var change, rest := deliveries[0].change, deliveries[1..];
    AgreedChangeSettles(s, resolver, key, change);
    SettleKeepsConsistent(s, resolver, key, change.newRes);
    var next := Apply(s, resolver, change);
    if rest == [] {
      assert ApplyAll(next, resolver, rest) == next;
    } else {
      ChainSettles(next, resolver, key, change.newRes, rest);
      SettleTwice(s, resolver, key, change.newRes, LastNew(was, deliveries));
    }
  }

  /** Applying one folded change leaves the instance exactly as applying every change folded into it would. */
  lemma FoldingIsConfluent(s: Instance, resolver: Resolver, key: ResourceKey, was: Option<Resource>,
                           deliveries: seq<Delivery>)
    requires Consistent(s) && Settled(s, key) && StatusAgrees(s, key, was)
    requires ChainFor(key, was, deliveries) && deliveries != []
    ensures Apply(s, resolver, ResourceChange(LastNew(was, deliveries), was)) == ApplyAll(s, resolver, deliveries)
  {
    ChainSettles(s, resolver, key, was, deliveries);
    LastIsAbout(key, was, deliveries);
    AgreedChangeSettles(s, resolver, key, ResourceChange(LastNew(was, deliveries), was));
  }

  lemma {:induction false} LastIsAbout(key: ResourceKey, was: Option<Resource>, deliveries: seq<Delivery>)
    requires ChainFor(key, was, deliveries) && deliveries != []
    ensures ResourceChange(LastNew(was, deliveries), was).About(key)
    decreases |deliveries|
  {
    if |deliveries| > 1 {
      LastIsAbout(key, deliveries[0].change.newRes, deliveries[1..]);
    }
  }

  function AcceptAll(q: QueueState, deliveries: seq<Delivery>): QueueState
    requires forall d :: d in deliveries ==> d.change.HasSide()
    decreases |deliveries|
  {
    if deliveries == [] then q
    else
      assert deliveries[0] in deliveries;
      AcceptAll(Accept(q, deliveries[0].change), deliveries[1..])
  }

  /** That folded change is the one the queue holds after accepting the chain. */
  lemma {:induction false} QueueFoldsTheChain(q: QueueState, key: ResourceKey, was: Option<Resource>,
                                              deliveries: seq<Delivery>)
    requires forall d :: d in deliveries ==> d.change.HasSide()
    requires ChainFor(key, was, deliveries)
    requires key in q.queued || deliveries != []
    ensures key in AcceptAll(q, deliveries).queued
    ensures AcceptAll(q, deliveries).queued[key] ==
            if key in q.queued then
              if deliveries == [] then q.queued[key] else q.queued[key].(newRes := LastNew(was, deliveries))
            else ResourceChange(LastNew(was, deliveries), was)
    decreases |deliveries|
  {
    if deliveries != [] {
      assert deliveries[0] in deliveries;
      QueueFoldsTheChain(Accept(q, deliveries[0].change), key, deliveries[0].change.newRes, deliveries[1..]);
    }
  }

  // ---------- the incremental view agrees with the live cluster ----------

  /** A settled desired resource is present as what is live under its key, or missing when nothing is. */
  predicate ReflectsAt(s: Instance, resolver: Resolver, w: World, key: ResourceKey) {
    Settled(s, key) ==>
      var id := s.desired[key].id;
      if key in w then id in s.present && s.present[id] == NewPresent(w[key], resolver, id) else id in s.missing
  }

  ghost predicate Reflects(s: Instance, resolver: Resolver, w: World) {
    forall k :: ReflectsAt(s, resolver, w, k)
  }

  lemma ChangeKeepsReflectionAt(s: Instance, resolver: Resolver, w: World, key: ResourceKey, change: ResourceChange,
                                k: ResourceKey)
    requires Announces(w, key, change)
    requires ConsistentAt(s, key) && ReflectsAt(s, resolver, w, key) && ReflectsAt(s, resolver, w, k)
    requires k != key && k in s.desired && key in s.desired ==> s.desired[k].id != s.desired[key].id
    ensures ReflectsAt(Apply(s, resolver, change), resolver, Install(w, key, change.newRes), k)
  {
    if Settled(s, key) {
      SettledChange(s, resolver, key, change);
    } else {
      OtherChange(s, resolver, key, change);
    }
  }

  lemma ChangeKeepsReflection(s: Instance, resolver: Resolver, w: World, key: ResourceKey, change: ResourceChange)
    requires Consistent(s) && Reflects(s, resolver, w) && Announces(w, key, change)
    ensures Reflects(Apply(s, resolver, change), resolver, Install(w, key, change.newRes))
  {
    assert ConsistentAt(s, key) && ReflectsAt(s, resolver, w, key);
    forall k ensures ReflectsAt(Apply(s, resolver, change), resolver, Install(w, key, change.newRes), k) {
      assert ReflectsAt(s, resolver, w, k);
      ChangeKeepsReflectionAt(s, resolver, w, key, change, k);
    }
  }

  /** However long the run, the incrementally updated view of the desired resources is what looking at the live
      cluster would give: folded deliveries included, and whatever happens to children in between. */
  lemma {:induction false} EveryRunReflectsTheCluster(s: Instance, resolver: Resolver, w: World,
                                                      deliveries: seq<Delivery>)
    requires Consistent(s) && Reflects(s, resolver, w) && FollowsDeliveries(w, deliveries)
    ensures Consistent(ApplyAll(s, resolver, deliveries))
    ensures Reflects(ApplyAll(s, resolver, deliveries), resolver, Replay(w, deliveries))
    decreases |deliveries|
  {
    if deliveries != [] {
      var d := deliveries[0];
      ChangeKeepsConsistent(s, resolver, d.key, d.change);
      ChangeKeepsReflection(s, resolver, w, d.key, d.change);
      EveryRunReflectsTheCluster(Apply(s, resolver, d.change), resolver, Install(w, d.key, d.change.newRes),
                                 deliveries[1..]);
    }
  }

  /** No change alters what is desired or unknown. */
  lemma ChangeKeepsDesired(s: Instance, resolver: Resolver, change: ResourceChange)
    ensures Apply(s, resolver, change).desired == s.desired && Apply(s, resolver, change).unknown == s.unknown
  {
  }

  lemma {:induction false} RunsKeepDesired(s: Instance, resolver: Resolver, deliveries: seq<Delivery>)
    ensures ApplyAll(s, resolver, deliveries).desired == s.desired
    ensures ApplyAll(s, resolver, deliveries).unknown == s.unknown
    decreases |deliveries|
  {
    if deliveries != [] {
      RunsKeepDesired(Apply(s, resolver, deliveries[0].change), resolver, deliveries[1..]);
    }
  }

  /** The live cluster determines the present and missing resources. */
  lemma ReflectionIsUnique(s: Instance, t: Instance, resolver: Resolver, w: World)
    requires Consistent(s) && Consistent(t) && Reflects(s, resolver, w) && Reflects(t, resolver, w)
    requires s.desired == t.desired && s.unknown == t.unknown
    ensures s.present == t.present && s.missing == t.missing
  {
    forall id | id in Ids(s.desired) ensures SameRecords(s, t, id) {
      var k :| k in s.desired && s.desired[k].id == id;
      assert ConsistentAt(s, k) && ConsistentAt(t, k);
      assert ReflectsAt(s, resolver, w, k) && ReflectsAt(t, resolver, w, k);
      ReflectionIsUniqueAt(s, t, resolver, w, k);
    }
    SameRecordsMeansEqual(s, t);
  }

  lemma SameRecordsMeansEqual(s: Instance, t: Instance)
    requires s.present.Keys + s.missing.Keys <= Ids(s.desired) && t.present.Keys + t.missing.Keys <= Ids(s.desired)
    requires forall id :: id in Ids(s.desired) ==> SameRecords(s, t, id)
    ensures s.present == t.present && s.missing == t.missing
  {
    assert forall id :: id in s.present || id in t.present ==> SameRecords(s, t, id);
    assert forall id :: id in s.missing || id in t.missing ==> SameRecords(s, t, id);
  }

  predicate SameRecords(s: Instance, t: Instance, id: DesiredResourceId) {
    && (id in s.present <==> id in t.present) && (id in s.present ==> s.present[id] == t.present[id])
    && (id in s.missing <==> id in t.missing) && (id in s.missing ==> s.missing[id] == t.missing[id])
  }

  lemma ReflectionIsUniqueAt(s: Instance, t: Instance, resolver: Resolver, w: World, k: ResourceKey)
    requires k in s.desired && k in t.desired && s.desired[k] == t.desired[k]
    requires s.desired[k].id in s.unknown <==> s.desired[k].id in t.unknown
    requires ConsistentAt(s, k) && ConsistentAt(t, k) && ReflectsAt(s, resolver, w, k) && ReflectsAt(t, resolver, w, k)
    ensures SameRecords(s, t, s.desired[k].id)
  {
  }

  // ---------- what is reported about desired resources ----------

  /** Type, namespace and name in the report make up the key. */
  predicate Names(m: MissingMonitoredResource, key: ResourceKey) {
    var gk := m.typeMeta.ToGroupKind();
    ResourceKey(gk.group, gk.kind, m.namespace, m.name) == key
  }

  /** What is said about the desired resource at key is true of the live cluster: the live object with its manifest is
      reported if there is one, and otherwise a resource is missing that goes by this key. Only a resource whose
      namespace is still to be found out is reported without it. */
  predicate TrueAt(s: Instance, resolver: Resolver, w: World, key: ResourceKey)
    requires key in s.desired
  {
    var d := s.desired[key];
    if key in w then
      && d.id in s.present && d.id !in s.missing
      && s.present[d.id].id == d.id && s.present[d.id].ref == w[key].ref && s.present[d.id].manifest == resolver(w[key])
    else
      && d.id in s.missing && d.id !in s.present
      && s.missing[d.id].id == d.id && s.missing[d.id].typeMeta == d.typeMeta && s.missing[d.id].name == d.name
      && (Names(s.missing[d.id], key) <==> d.isNamespaceResolved || d.assumedNamespace == "")
  }

  lemma ReflectionIsTrue(s: Instance, resolver: Resolver, w: World, key: ResourceKey)
    requires Consistent(s) && Reflects(s, resolver, w) && Settled(s, key)
    requires WellKeyed(s.desired) && AllSettled(s.desired)
    ensures TrueAt(s, resolver, w, key)
  {
    assert ConsistentAt(s, key) && ReflectsAt(s, resolver, w, key);
    assert s.desired[key].Key() == key && s.desired[key].NamespaceIsSettled();
  }

  /** After any run of changes every report about a desired resource is true of the cluster by then. */
  lemma EveryRunTellsTheTruth(s: Instance, resolver: Resolver, w: World, deliveries: seq<Delivery>, key: ResourceKey)
    requires Consistent(s) && Reflects(s, resolver, w) && FollowsDeliveries(w, deliveries)
    requires WellKeyed(s.desired) && AllSettled(s.desired) && Settled(s, key)
    ensures var t := ApplyAll(s, resolver, deliveries);
            key in t.desired && TrueAt(t, resolver, Replay(w, deliveries), key)
  {
    EveryRunReflectsTheCluster(s, resolver, w, deliveries);
    RunsKeepDesired(s, resolver, deliveries);
    ReflectionIsTrue(ApplyAll(s, resolver, deliveries), resolver, Replay(w, deliveries), key);
  }

  /** At first sight a resource is a child exactly if one of its owner references is to something tracked; one that
      names nobody never is. */
  lemma FirstSightOfChildIff(s: Instance, key: ResourceKey, change: ResourceChange)
    requires change.About(key) && change.newRes.Some? && key !in s.desired && key !in s.children
    ensures Kind(s, change) == ChildFound <==>
            exists obj: ObjectRef :: IsOwnedBy(change.newRes.value.info, obj) && obj.Key() in s.tracked
    ensures Kind(s, change) == ChildFound || Kind(s, change) == NoChange
  {
    var res := change.newRes.value;
    assert NamedOwners(res) == Owners(res.info);
    if owner :| owner in Owners(res.info) && owner in s.tracked {
      assert owner in NamedOwners(res) * s.tracked;
      OwnerKeyHasObject(res.info, owner);
    }
    if obj: ObjectRef :| IsOwnedBy(res.info, obj) && obj.Key() in s.tracked {
      OwnersAreReferredToIff(res.info, obj);
      assert obj.Key() in NamedOwners(res) * s.tracked;
    }
  }

  // ---------- no resurrection ----------

  ghost predicate Within(s: Instance, keys: set<ResourceKey>) {
    s.desired.Keys + s.children.Keys + s.tracked <= keys
  }

  /** A resource owned by something in the set is in the set. */
  ghost predicate ClosedUnderOwnership(keys: set<ResourceKey>, deliveries: seq<Delivery>) {
    forall d :: d in deliveries && d.change.newRes.Some?
                && NamedOwners(d.change.newRes.value) * keys != {}
                ==> d.key in keys
  }

  /** The resources an update names, by key; missing ones are named by the desired resource's id. */
  function Mentions(u: InstanceChanges): set<ResourceKey> {
    PresentKeys(u.present) + u.children.Keys + ChildKeys(u.children) + u.deletedChildren
  }

  ghost function AnnounceAll(s: Instance, resolver: Resolver, deliveries: seq<Delivery>): seq<InstanceChanges>
    decreases |deliveries|
  {
    if deliveries == [] then []
    else
      var update := Announce(s, resolver, deliveries[0].change);
      (if update.Some? then [update.value] else [])
      + AnnounceAll(Apply(s, resolver, deliveries[0].change), resolver, deliveries[1..])
  }

  /** An update for a change at key names nothing but key, or marks the desired resource there missing. */
  ghost predicate OnlyAbout(u: InstanceChanges, s: Instance, key: ResourceKey) {
    && Mentions(u) <= {key} && u.unknown == map[]
    && (u.missing == map[] || (key in s.desired && u.missing.Keys == {s.desired[key].id}))
  }

  lemma UpdateIsOnlyAboutItsKey(s: Instance, resolver: Resolver, key: ResourceKey, change: ResourceChange)
    requires change.About(key) && Announce(s, resolver, change).Some?
    ensures OnlyAbout(Announce(s, resolver, change).value, s, key)
  {
    var u := Announce(s, resolver, change).value;
    match Kind(s, change)
    case DesiredFound | DesiredUpdated =>
      assert u.children == map[] && u.deletedChildren == {};
      assert PresentKeys(u.present) <= {key};
    case DesiredRemoved =>
      assert u.present == map[] && u.children == map[] && u.deletedChildren == {};
    case ChildFound | ChildUpdated =>
      assert u.present == map[] && u.deletedChildren == {};
      assert u.children.Keys <= {key} && ChildKeys(u.children) <= {key};
    case ChildRemoved =>
      assert u.present == map[] && u.children == map[] && u.deletedChildren == {key};
  }

  /** Whatever is reported concerns a key that is desired, a child, or owned by something tracked. */
  lemma ReportedKeyIsKnown(s: Instance, key: ResourceKey, change: ResourceChange)
    requires change.About(key) && Kind(s, change) != NoChange
    ensures key in s.desired || key in s.children
            || (change.newRes.Some? && NamedOwners(change.newRes.value) * s.tracked != {})
  {
  }

  lemma ChangeStaysWithin(s: Instance, resolver: Resolver, key: ResourceKey, change: ResourceChange,
                          keys: set<ResourceKey>)
    requires Within(s, keys) && change.About(key)
    requires change.newRes.Some? && NamedOwners(change.newRes.value) * keys != {} ==> key in keys
    ensures Kind(s, change) != NoChange ==> key in keys
    ensures Within(Apply(s, resolver, change), keys)
  {
    if change.newRes.Some? {
      var owners := NamedOwners(change.newRes.value);
      assert owners * s.tracked <= owners * keys;
    }
    if Kind(s, change) != NoChange {
      ReportedKeyIsKnown(s, key, change);
      var t := Apply(s, resolver, change);
      forall x | x in t.desired.Keys + t.children.Keys + t.tracked ensures x in keys {
        if x != key {
          ChangeAddsOnlyItsKey(s, resolver, key, change, Kind(s, change), x);
        }
      }
    }
  }

  lemma ChangeAddsOnlyItsKey(s: Instance, resolver: Resolver, key: ResourceKey, change: ResourceChange,
                             kind: UpdateKind, x: ResourceKey)
    requires change.About(key) && KindFits(s, change, kind) && x != key
    ensures x in ApplyKind(s, resolver, change, kind).children ==> x in s.children
    ensures x in ApplyKind(s, resolver, change, kind).tracked ==> x in s.tracked
  {
  }

  /** Nothing outside the desired keys, the current children and what they come to own is ever reported. */
  lemma {:induction false} NoResurrection(s: Instance, resolver: Resolver, deliveries: seq<Delivery>,
                                          keys: set<ResourceKey>)
    requires Within(s, keys) && AllAbout(deliveries) && ClosedUnderOwnership(keys, deliveries)
    ensures forall u :: u in AnnounceAll(s, resolver, deliveries) ==> MentionsOnly(u, s.desired, keys)
    decreases |deliveries|
  {
    if deliveries != [] {
      var d, rest := deliveries[0], deliveries[1..];
      assert d in deliveries && d.change.About(d.key);
      assert AllAbout(rest) && ClosedUnderOwnership(keys, rest);
      FirstUpdateStaysWithin(s, resolver, d.key, d.change, keys);
      ChangeKeepsDesired(s, resolver, d.change);
      NoResurrection(Apply(s, resolver, d.change), resolver, rest, keys);
      var update := Announce(s, resolver, d.change);
      forall u | u in AnnounceAll(s, resolver, deliveries) ensures MentionsOnly(u, s.desired, keys) {
        assert u in AnnounceAll(Apply(s, resolver, d.change), resolver, rest) || update == Some(u);
      }
    }
  }

  lemma FirstUpdateStaysWithin(s: Instance, resolver: Resolver, key: ResourceKey, change: ResourceChange,
                               keys: set<ResourceKey>)
    requires Within(s, keys) && change.About(key)
    requires change.newRes.Some? && NamedOwners(change.newRes.value) * keys != {} ==> key in keys
    ensures Within(Apply(s, resolver, change), keys)
    ensures Announce(s, resolver, change).Some? ==> MentionsOnly(Announce(s, resolver, change).value, s.desired, keys)
  {
    ChangeStaysWithin(s, resolver, key, change, keys);
    if Announce(s, resolver, change).Some? {
      UpdateIsOnlyAboutItsKey(s, resolver, key, change);
      OnlyAboutIsWithin(Announce(s, resolver, change).value, s, key, keys);
    }
  }

  predicate MentionsOnly(u: InstanceChanges, desired: DesiredMap, keys: set<ResourceKey>) {
    Mentions(u) <= keys && u.missing.Keys <= Ids(desired) && u.unknown == map[]
  }

  lemma OnlyAboutIsWithin(u: InstanceChanges, s: Instance, key: ResourceKey, keys: set<ResourceKey>)
    requires OnlyAbout(u, s, key) && key in keys
    ensures MentionsOnly(u, s.desired, keys)
  {
  }

  /** Right after a replacement only the new desired keys, and what they come to own, can be reported. */
  lemma ReplacementForgetsTheRest(incoming: DesiredMap, resolver: Resolver, deliveries: seq<Delivery>,
                                  keys: set<ResourceKey>)
    requires incoming.Keys <= keys && AllAbout(deliveries) && ClosedUnderOwnership(keys, deliveries)
    ensures forall u :: u in AnnounceAll(Replace(incoming), resolver, deliveries) ==> MentionsOnly(u, incoming, keys)
  {
    NoResurrection(Replace(incoming), resolver, deliveries, keys);
  }

  /** No change whatever would be reported. */
  ghost predicate Silent(s: Instance) {
    forall change :: Kind(s, change) == NoChange
  }

  ghost predicate NothingMonitored(s: Instance) {
    && s.tracked == {} && s.children == map[]
    && (forall k :: k in s.desired ==> s.desired[k].id !in s.present && s.desired[k].id !in s.missing)
  }

  /** An instance reports nothing ever again exactly when nothing is tracked and nothing desired is present or
      missing. */
  lemma SilentIffNothingMonitored(s: Instance)
    ensures Silent(s) <==> NothingMonitored(s)
  {
    if !NothingMonitored(s) {
      var change := SomethingToReport(s);
    }
  }

  lemma SomethingToReport(s: Instance) returns (change: ResourceChange)
    requires !NothingMonitored(s)
    ensures Kind(s, change) != NoChange
  {
    if k :| k in s.desired && (s.desired[k].id in s.present || s.desired[k].id in s.missing) {
      change := ResourceChange(Some(AnyResource(k, [])), None);
    } else if k :| k in s.children {
      change := ResourceChange(Some(AnyResource(k, [])), None);
    } else {
      var k :| k in s.tracked;
      var owner := OwnerRef("", GroupVersion(k.group, ""), k.kind, k.name);
      var res := AnyResource(k, [owner]);
      assert OwnerRefKey(res.info.ownerRefs[0], res.ref.namespace) == Some(k);
      assert k in NamedOwners(res) * s.tracked;
      change := ResourceChange(Some(res), None);
    }
  }

  function AnyResource(key: ResourceKey, owners: seq<OwnerRef>): Resource {
    Resource(ObjectRef(TypeMeta(GroupVersion(key.group, ""), key.kind), key.namespace, key.name, "", ""), owners,
             ResourceInfo(key, owners), None)
  }

  /** After an empty replacement no run of changes, of any length, produces an update. */
  lemma {:induction false} EmptyReplacementIsFinal(resolver: Resolver, deliveries: seq<Delivery>)
    ensures ApplyAll(Replace(map[]), resolver, deliveries) == Replace(map[])
    ensures AnnounceAll(Replace(map[]), resolver, deliveries) == []
    decreases |deliveries|
  {
    if deliveries != [] {
      SilentIffNothingMonitored(Replace(map[]));
      assert Kind(Replace(map[]), deliveries[0].change) == NoChange;
      EmptyReplacementIsFinal(resolver, deliveries[1..]);
    }
  }

  // ---------- deletions leave monitored resources behind ----------

  /** Whatever is recorded about a resource that is no longer desired stays, so the instance is consistent only if
      nothing was dropped. */
  lemma DroppingLeavesRecordsBehind(s: Instance, kept: DesiredMap)
    requires Consistent(s) && forall k :: k in kept ==> k in s.desired && kept[k] == s.desired[k]
    ensures Consistent(s.(desired := kept)) <==> kept == s.desired
  {
    if k :| k in s.desired && k !in kept {
      assert ConsistentAt(s, k);
      assert s.desired[k].id !in Ids(kept);
    } else {
      assert kept == s.desired;
    }
  }

  /** Nothing but what is no longer desired differs. */
  predicate SameButForDesired(s: Instance, t: Instance) {
    t == s.(desired := t.desired)
  }

  /** Exactly the listed ids are no longer desired, and the rest is stored as it was. */
  lemma DeletingLeavesTheRest(s: Instance, ids: seq<DesiredResourceId>)
    ensures var t := DeleteIds(s, ids);
            && SameButForDesired(s, t) && (forall id :: id in Ids(t.desired) <==> id in Ids(s.desired) && id !in ids)
            && (forall k :: k in s.desired && s.desired[k].id !in ids ==>
                  k in t.desired && t.desired[k] == s.desired[k])
            && (forall k :: k in t.desired ==> k in s.desired)
  {
    var t := DeleteIds(s, ids);
    forall id | id in Ids(s.desired) && id !in ids ensures id in Ids(t.desired) {
      var k :| k in s.desired && s.desired[k].id == id;
      assert k in t.desired;
    }
  }

  /** A resource stays exactly if it was last applied by the version to keep, or by no version. */
  lemma PruningLeavesTheRest(s: Instance, versionToKeep: Version)
    ensures var t := DeleteOtherVersions(s, versionToKeep);
            && SameButForDesired(s, t)
            && (forall k :: k in t.desired <==>
                  k in s.desired && (s.desired[k].version == None || s.desired[k].version == Some(versionToKeep)))
            && (forall k :: k in t.desired ==> t.desired[k] == s.desired[k])
  {
  }

  /** Deleting in two goes is deleting at once, and the order does not matter. */
  lemma DeletionsCombine(s: Instance, a: seq<DesiredResourceId>, b: seq<DesiredResourceId>)
    ensures DeleteIds(DeleteIds(s, a), b) == DeleteIds(s, a + b) == DeleteIds(DeleteIds(s, b), a)
  {
  }

  /** Until the next rescan, deleting keeps the instance consistent exactly when it deletes nothing. */
  lemma DeletionLeavesRecordsBehind(s: Instance, ids: seq<DesiredResourceId>)
    requires Consistent(s)
    ensures Consistent(DeleteIds(s, ids)) <==> forall k :: k in s.desired ==> s.desired[k].id !in ids
  {
    var kept := DeleteIds(s, ids).desired;
    DroppingLeavesRecordsBehind(s, kept);
    assert kept == s.desired <==> forall k :: k in s.desired ==> !s.desired[k].MatchesAny(ids);
  }

  /** The same goes for deleting what carries another version. */
  lemma VersionDeletionLeavesRecordsBehind(s: Instance, versionToKeep: Version)
    requires Consistent(s)
    ensures Consistent(DeleteOtherVersions(s, versionToKeep)) <==>
            forall k :: k in s.desired && s.desired[k].version.Some? ==> s.desired[k].version.value == versionToKeep
  {
    var kept := DeleteOtherVersions(s, versionToKeep).desired;
    DroppingLeavesRecordsBehind(s, kept);
    assert kept == s.desired <==> forall k :: k in s.desired ==> !s.desired[k].IsOtherVersion(versionToKeep);
  }

  /** Meanwhile the deleted resource can also become a child, so a key is present and a child at once. */
  lemma DeletedResourceCanReturnAsChild(s: Instance, resolver: Resolver, key: ResourceKey, res: Resource)
    requires Consistent(s) && key in s.desired && s.desired[key].id in s.present
    requires res.WellFormed() && res.info.key == key
    requires NamedOwners(res) * s.tracked != {}
    ensures var t := Apply(DeleteIds(s, [s.desired[key].id]), resolver, ResourceChange(Some(res), None));
            key in PresentKeys(t.present) && key in t.children
  {
    PresentKeysAreDesired(s, key);
    assert ConsistentAt(s, key);
    var deleted := DeleteIds(s, [s.desired[key].id]);
    assert s.desired[key].id in [s.desired[key].id];
    assert key !in deleted.desired;
    var t := Apply(deleted, resolver, ResourceChange(Some(res), None));
    assert t.present == s.present;
  }

  // ---------- so do merges that are not followed by a rescan ----------

  /** Distinct resources still have distinct ids, every old id still stands for something, and nothing incoming was
      known to be present or missing. */
  ghost predicate MergesCleanly(s: Instance, incoming: DesiredMap) {
    && DistinctIds(s.desired + incoming) && Ids(s.desired) <= Ids(s.desired + incoming)
    && (forall id :: id in Ids(incoming) ==> id !in s.present && id !in s.missing)
  }

  /** Incoming resources are made unknown without forgetting what was known of them. Where syncing fails they stay so,
      and the instance is consistent exactly when the merge was clean. */
  lemma MergeLeavesRecordsBehind(s: Instance, incoming: DesiredMap)
    requires Consistent(s)
    ensures Consistent(Merge(s, incoming)) <==> MergesCleanly(s, incoming)
  {
    var t := Merge(s, incoming);
    if MergesCleanly(s, incoming) {
      forall k ensures ConsistentAt(t, k) {
        assert ConsistentAt(s, k);
        OverwrittenIsNotPresent(s, incoming, k);
        MergedAt(s, incoming, k);
      }
    }
    if Consistent(t) {
      ConsistentMergeIsClean(s, incoming);
    }
  }

  lemma ConsistentMergeIsClean(s: Instance, incoming: DesiredMap)
    requires Consistent(s) && Consistent(Merge(s, incoming))
    ensures MergesCleanly(s, incoming)
  {
    var t := Merge(s, incoming);
    forall id | id in Ids(incoming) ensures id !in s.present && id !in s.missing {
      var k :| k in incoming && incoming[k].id == id;
      assert t.desired[k] == incoming[k] && ConsistentAt(t, k);
    }
    forall id | id in Ids(s.desired) ensures id in Ids(t.desired) {
      var k :| k in s.desired && s.desired[k].id == id;
      assert ConsistentAt(s, k);
    }
  }

  /** A resource that is overwritten was not present, and one that is not keeps what is recorded about it. */
  lemma OverwrittenIsNotPresent(s: Instance, incoming: DesiredMap, k: ResourceKey)
    requires DistinctIds(s.desired) && MergesCleanly(s, incoming)
    ensures k in s.desired && k in incoming ==> s.desired[k].id !in s.present
    ensures k in s.desired && k !in incoming ==> s.desired[k].id !in Ids(incoming)
  {
    assert k in s.desired ==> s.desired[k].id in Ids(s.desired);
  }

  lemma MergedAt(s: Instance, incoming: DesiredMap, k: ResourceKey)
    requires ConsistentAt(s, k)
    requires k in s.desired && k in incoming ==> s.desired[k].id !in s.present
    requires k in s.desired && k !in incoming ==> s.desired[k].id !in Ids(incoming)
    requires k in incoming ==> incoming[k].id !in s.present && incoming[k].id !in s.missing
    ensures ConsistentAt(Merge(s, incoming), k)
  {
    assert Merge(s, incoming).unknown.Keys == s.unknown.Keys + Ids(incoming);
    assert k in incoming ==> incoming[k].id in Ids(incoming);
  }

  // ---------- desired maps stay well keyed ----------

  lemma MergeStaysWellKeyed(s: Instance, incoming: DesiredMap)
    requires WellKeyed(s.desired) && WellKeyed(incoming)
    ensures WellKeyed(Merge(s, incoming).desired)
    ensures AllSettled(s.desired) && AllSettled(incoming) ==> AllSettled(Merge(s, incoming).desired)
    ensures forall k :: k in s.desired && k !in incoming ==>
              k in Merge(s, incoming).desired && Merge(s, incoming).desired[k] == s.desired[k]
    ensures forall k :: k in incoming ==>
              k in Merge(s, incoming).desired && Merge(s, incoming).desired[k] == incoming[k]
    ensures forall k :: k in Merge(s, incoming).desired ==> k in s.desired || k in incoming
  {
    forall k | k in Merge(s, incoming).desired
      ensures Merge(s, incoming).desired[k] == if k in incoming then incoming[k] else s.desired[k]
    {
    }
  }

  /** What is incoming is unknown for no reason given, what else is known to be unknown stays so, and nothing that is
      monitored changes. */
  lemma MergeMakesUnknown(s: Instance, incoming: DesiredMap, id: DesiredResourceId)
    ensures var t := Merge(s, incoming);
            && t.present == s.present && t.missing == s.missing && t.children == s.children && t.tracked == s.tracked
            && (id in t.unknown <==> id in s.unknown || id in Ids(incoming))
            && (id in Ids(incoming) ==> t.unknown[id].id == id && t.unknown[id].reason == Unexplained)
            && (id in s.unknown && id !in Ids(incoming) ==> t.unknown[id] == s.unknown[id])
  {
  }

  /** A replacement is a merge into nothing, and is consistent whatever it brings, if ids are distinct. */
  lemma ReplacingIsMergingAfresh(incoming: DesiredMap)
    ensures Replace(incoming) == Merge(Replace(map[]), incoming)
    ensures Replace(incoming).desired == incoming
    ensures DistinctIds(incoming) ==> Consistent(Replace(incoming))
  {
    assert map[] + incoming == incoming;
    assert UnknownFor(map[]) + UnknownFor(incoming) == UnknownFor(incoming);
    if DistinctIds(incoming) {
      forall k ensures ConsistentAt(Replace(incoming), k) {
        assert k in incoming ==> incoming[k].id in Ids(incoming);
      }
    }
  }
}
