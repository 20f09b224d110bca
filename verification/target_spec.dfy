/** A target's application instances together, and what its operations do to all of them. */
module Targets {
  import opened Kubernetes
  import opened DesiredResources
  import opened MonitoredResources
  import opened RootOwners
  import opened Instances
  import opened InstanceProperties
  import opened Rescans

  type Target = map<ApplicationInstanceId, Instance>

  type Updates = map<ApplicationInstanceId, InstanceChanges>

  function InstanceOf(t: Target, id: ApplicationInstanceId): Instance {
    if id in t then t[id] else Replace(map[])
  }

  /** Everything the target is interested in, which is what it publishes. */
  function TargetKeys(t: Target): set<ResourceKey> {
    set id, k | id in t && k in KeysOfInterest(t[id]) :: k
  }

  ghost function ApplyToAll(t: Target, resolver: Resolver, change: ResourceChange): Target {
    map id | id in t :: Apply(t[id], resolver, change)
  }

  ghost function AnnounceFromAll(t: Target, resolver: Resolver, change: ResourceChange): Updates {
    map id | id in t && Announce(t[id], resolver, change).Some? :: Announce(t[id], resolver, change).value
  }

  ghost predicate AllRootsReachable(t: Target, change: ResourceChange) {
    forall id :: id in t ==> RootsReachable(t[id], change)
  }

  ghost predicate AllConsistent(t: Target) {
    forall id :: id in t ==> Consistent(t[id])
  }

  // ---------- what a merge reports ----------

  /** Of what the instance monitors, the incoming resources and whatever is rooted at one that is present. */
  function Delta(s: Instance, incoming: set<DesiredResourceId>): InstanceChanges {
    var present := map id | id in s.present && id in incoming :: s.present[id];
    InstanceChanges(
      present,
      map k | k in s.children && s.children[k].rootOwnerId in PresentUids(present) :: s.children[k],
      map id | id in s.missing && id in incoming :: s.missing[id],
      map id | id in s.unknown && id in incoming :: s.unknown[id],
      {})
  }

  function PresentUids(present: PresentMap): set<Uid> {
    set id | id in present :: present[id].ref.uid
  }

  /** Every desired resource is classified, and nothing missing is also present or unknown. */
  predicate IsTotal(s: Instance) {
    IsTotalFor(Ids(s.desired), Monitored(s.present, s.children, s.missing, s.unknown))
  }

  /** The delta says something about every incoming resource that is still desired and nothing about any other, and
      never calls a resource missing that it also calls present or unknown. */
  predicate CoversIncoming(s: Instance, incoming: set<DesiredResourceId>) {
    var u := Delta(s, incoming);
    && u.present.Keys + u.missing.Keys + u.unknown.Keys == incoming * Ids(s.desired)
    && u.missing.Keys !! u.present.Keys && u.missing.Keys !! u.unknown.Keys
  }

  lemma RescanIsTotal(s: Instance, scope: Scope, cache: ClusterCache, discoveryHealthy: bool, resolver: Resolver,
                      discovered: seq<Discovered>)
    requires IsRescan(s, scope, cache, discoveryHealthy, resolver, discovered)
    ensures IsTotal(s)
  {
    ClassificationIsTotal(s.desired, scope, cache, discoveryHealthy, resolver, discovered,
                          Monitored(s.present, s.children, s.missing, s.unknown));
  }

  /** The delta covers the incoming resources, whichever they are, exactly when the instance is total, as a rescan
      leaves it. */
  lemma DeltaCoversIncomingIff(s: Instance)
    ensures (forall incoming :: CoversIncoming(s, incoming)) <==> IsTotal(s)
  {
    if IsTotal(s) {
      forall incoming ensures CoversIncoming(s, incoming) {
        TotalCovers(s, incoming);
      }
    }
    var all := Ids(s.desired) + s.present.Keys + s.missing.Keys + s.unknown.Keys;
    if CoversIncoming(s, all) {
      CoveredIsTotal(s, all);
    }
  }

  lemma TotalCovers(s: Instance, incoming: set<DesiredResourceId>)
    requires IsTotal(s)
    ensures CoversIncoming(s, incoming)
  {
    assert forall id :: id in s.present.Keys + s.missing.Keys + s.unknown.Keys <==> id in Ids(s.desired);
  }

  lemma CoveredIsTotal(s: Instance, all: set<DesiredResourceId>)
    requires Ids(s.desired) + s.present.Keys + s.missing.Keys + s.unknown.Keys <= all && CoversIncoming(s, all)
    ensures IsTotal(s)
  {
    var u := Delta(s, all);
    assert u.present.Keys == s.present.Keys && u.missing.Keys == s.missing.Keys && u.unknown.Keys == s.unknown.Keys;
    assert all * Ids(s.desired) == Ids(s.desired);
  }

  /** Every child the delta brings has a root that the delta reports as present and that is no child itself. */
  ghost predicate RootsAreReported(s: Instance, incoming: set<DesiredResourceId>) {
    var u := Delta(s, incoming);
    forall k :: k in u.children ==>
      && u.children[k].rootOwnerId !in OwnersAmong(s.children)
      && exists id :: id in u.present && u.present[id].ref.uid == u.children[k].rootOwnerId
  }

  /** The delta brings whole trees: a child together with what it owns, or neither. */
  ghost predicate BringsWholeTrees(s: Instance, incoming: set<DesiredResourceId>) {
    forall parent, child ::
      parent in s.children && child in s.children && s.children[child].ownerId == s.children[parent].ref.uid ==>
        (child in Delta(s, incoming).children <==> parent in Delta(s, incoming).children)
  }

  /** The delta of any incoming resources after a rescan covers them, reports every root and brings whole trees. */
  lemma DeltaIsExact(s: Instance, scope: Scope, cache: ClusterCache, discoveryHealthy: bool, resolver: Resolver,
                     discovered: seq<Discovered>, incoming: set<DesiredResourceId>)
    requires IsRescan(s, scope, cache, discoveryHealthy, resolver, discovered)
    ensures CoversIncoming(s, incoming) && RootsAreReported(s, incoming) && BringsWholeTrees(s, incoming)
  {
    RescanIsTotal(s, scope, cache, discoveryHealthy, resolver, discovered);
    TotalCovers(s, incoming);
    ChildrenAreExact(s, resolver, discovered, incoming);
  }

  lemma ChildrenAreExact(s: Instance, resolver: Resolver, discovered: seq<Discovered>, incoming: set<DesiredResourceId>)
    requires ChildrenFound(s.desired, resolver, discovered, s.children)
    ensures RootsAreReported(s, incoming) && BringsWholeTrees(s, incoming)
  {
    var u := Delta(s, incoming);
    forall k | k in u.children
      ensures u.children[k].rootOwnerId !in OwnersAmong(s.children)
      ensures exists id :: id in u.present && u.present[id].ref.uid == u.children[k].rootOwnerId
    {
      assert ChildAsFound(resolver, discovered, s.children, k);
      assert s.children[k].rootOwnerId in PresentUids(u.present);
    }
    forall parent, child |
      parent in s.children && child in s.children && s.children[child].ownerId == s.children[parent].ref.uid
      ensures child in u.children <==> parent in u.children
    {
      SameRoot(s, resolver, discovered, parent, child);
    }
  }

  lemma SameRoot(s: Instance, resolver: Resolver, discovered: seq<Discovered>, parent: ResourceKey, child: ResourceKey)
    requires ChildrenFound(s.desired, resolver, discovered, s.children)
    requires parent in s.children && child in s.children && s.children[child].ownerId == s.children[parent].ref.uid
    ensures s.children[child].rootOwnerId == s.children[parent].rootOwnerId
  {
    var owners := OwnersAmong(s.children);
    assert ChildAsFound(resolver, discovered, s.children, parent);
    assert ChildAsFound(resolver, discovered, s.children, child);
    OwnersAmongAt(s.children, parent);
    RootIsNoChild(s.children[child].ownerId, owners);
    RootThroughOwner(s.children[child].ownerId, owners);
  }
}
