/** What one resource change does to an application instance. */
module Instances {
  import opened Kubernetes
  import opened DesiredResources
  import opened MonitoredResources
  import opened RootOwners
  import opened ChangeQueues

  type ApplicationInstanceId = string

  datatype Instance = Instance(
    desired: DesiredMap,
    present: PresentMap,
    children: ChildMap,
    missing: MissingMap,
    unknown: UnknownMap,
    tracked: set<ResourceKey>) // the keys of everything present or a child

  datatype UpdateKind =
    | NoChange
    | DesiredFound
    | DesiredUpdated
    | DesiredRemoved
    | ChildFound
    | ChildUpdated
    | ChildRemoved

  /** What is sent to Octopus. */
  datatype InstanceChanges = InstanceChanges(
    present: PresentMap,
    children: ChildMap,
    missing: MissingMap,
    unknown: UnknownMap,
    deletedChildren: set<ResourceKey>)

  const NOTHING := InstanceChanges(map[], map[], map[], map[], {})

  function Ids(desired: DesiredMap): set<DesiredResourceId> {
    set k | k in desired :: desired[k].id
  }

  function PresentKeys(present: PresentMap): set<ResourceKey> {
    set id | id in present :: present[id].ref.Key()
  }

  function ChildKeys(children: ChildMap): set<ResourceKey> {
    set k | k in children :: children[k].ref.Key()
  }

  /** The owners of a live resource that can be named. */
  function NamedOwners(res: Resource): set<ResourceKey> {
    OwnerKeys(res.info.ownerRefs, res.ref.namespace)
  }

  /** Unknown resources are left for the next rescan, unless they look like children. */
  function Kind(s: Instance, change: ResourceChange): (kind: UpdateKind)
    ensures KindFits(s, change, kind)
  {
    var newKey := if change.newRes.Some? then Some(change.newRes.value.info.key) else None;
    var oldKey := if change.oldRes.Some? then Some(change.oldRes.value.info.key) else None;
    if newKey.Some? && newKey.value in s.desired && s.desired[newKey.value].id in s.missing then DesiredFound
    else if newKey.Some? && newKey.value in s.desired && s.desired[newKey.value].id in s.present then DesiredUpdated
    else if newKey.Some? && newKey.value in s.children then ChildUpdated
    else if oldKey.Some? && oldKey.value in s.desired && s.desired[oldKey.value].id in s.present then DesiredRemoved
    else if oldKey.Some? && oldKey.value in s.children then ChildRemoved
    else if newKey.Some? && NamedOwners(change.newRes.value) * s.tracked != {} then ChildFound
    else NoChange
  }

  /** The UID of a known resource, by key: present ones first. */
  function KnownUid(s: Instance, key: ResourceKey): Option<Uid> {
    if key in s.desired && s.desired[key].id in s.present then Some(s.present[s.desired[key].id].ref.uid)
    else if key in s.children then Some(s.children[key].ref.uid)
    else None
  }

  /** The first owner with a UID, or with a key whose UID is known; an owner that cannot be named ends the search. */
  function ParentId(s: Instance, owners: seq<OwnerRef>, namespace: string): Uid {
    if owners == [] then ""
    else if owners[0].uid != "" then owners[0].uid
    else
      var key := OwnerRefKey(owners[0], namespace);
      if key.None? then ""
      else
        var known := KnownUid(s, key.value);
        if known.Some? then known.value else ParentId(s, owners[1..], namespace)
  }

  ghost function ChildFor(s: Instance, resolver: Resolver, res: Resource): ChildMonitoredResource {
    var ownerId := OwnerIdOf(s, res);
    NewChild(res, resolver, ownerId, RootOf(ownerId, OwnersAmong(s.children)))
  }

  /** Whether the change makes the instance look for the root above a child. */
  predicate Climbs(s: Instance, change: ResourceChange) {
    Kind(s, change).ChildFound? || Kind(s, change).ChildUpdated?
  }

  /** The UID from which the search for the child's root starts. */
  function OwnerIdOf(s: Instance, res: Resource): Uid {
    ParentId(s, res.info.ownerRefs, res.info.key.namespace)
  }

  /** If the change makes the instance look for a root, the search ends, as it does for acyclic owners. */
  ghost predicate RootsReachable(s: Instance, change: ResourceChange) {
    Climbs(s, change) ==> CanClimb(s, change.newRes.value)
  }

  ghost predicate CanClimb(s: Instance, res: Resource) {
    UniqueUids(s.children) && ReachesRoot(OwnerIdOf(s, res), OwnersAmong(s.children))
  }

  /** What a kind of change says about the instance and the change it was computed for. */
  predicate KindFits(s: Instance, change: ResourceChange, kind: UpdateKind) {
    match kind
    case NoChange => true
    case DesiredFound | DesiredUpdated => change.newRes.Some? && change.newRes.value.info.key in s.desired
    case DesiredRemoved =>
      && change.oldRes.Some? && change.oldRes.value.info.key in s.desired
      && s.desired[change.oldRes.value.info.key].id in s.present
    case ChildFound | ChildUpdated => change.newRes.Some?
    case ChildRemoved => change.oldRes.Some? && change.oldRes.value.info.key in s.children
  }

  ghost function Apply(s: Instance, resolver: Resolver, change: ResourceChange): Instance {
    ApplyKind(s, resolver, change, Kind(s, change))
  }

  ghost function ApplyKind(s: Instance, resolver: Resolver, change: ResourceChange, kind: UpdateKind): Instance
    requires KindFits(s, change, kind)
  {
    match kind
    case NoChange => s
    case DesiredFound =>
      var p := NewPresent(change.newRes.value, resolver, s.desired[change.newRes.value.info.key].id);
      s.(present := s.present[p.id := p], missing := s.missing - {p.id}, tracked := s.tracked + {p.ref.Key()})
    case DesiredUpdated =>
      var p := NewPresent(change.newRes.value, resolver, s.desired[change.newRes.value.info.key].id);
      s.(present := s.present[p.id := p], tracked := s.tracked + {p.ref.Key()})
    case DesiredRemoved =>
      var d := s.desired[change.oldRes.value.info.key];
      s.(present := s.present - {d.id}, missing := s.missing[d.id := NewMissing(d)],
         tracked := s.tracked - {s.present[d.id].ref.Key()})
    case ChildFound | ChildUpdated =>
      var c := ChildFor(s, resolver, change.newRes.value);
      s.(children := s.children[c.ref.Key() := c], tracked := s.tracked + {c.ref.Key()})
    case ChildRemoved =>
      var key := change.oldRes.value.info.key;
      s.(children := s.children - {key}, tracked := s.tracked - {s.children[key].ref.Key()})
  }

  /** What Octopus is told. It works out moves between present and missing itself, but not deleted children. */
  ghost function Announce(s: Instance, resolver: Resolver, change: ResourceChange): Option<InstanceChanges> {
    AnnounceKind(s, resolver, change, Kind(s, change))
  }

  ghost function AnnounceKind(s: Instance, resolver: Resolver, change: ResourceChange,
                              kind: UpdateKind): Option<InstanceChanges>
    requires KindFits(s, change, kind)
  {
    match kind
    case NoChange => None
    case DesiredFound | DesiredUpdated =>
      var p := NewPresent(change.newRes.value, resolver, s.desired[change.newRes.value.info.key].id);
      Some(NOTHING.(present := map[p.id := p]))
    case DesiredRemoved =>
      var d := s.desired[change.oldRes.value.info.key];
      Some(NOTHING.(missing := map[d.id := NewMissing(d)]))
    case ChildFound | ChildUpdated =>
      Some(NOTHING.(children := map[change.newRes.value.info.key := ChildFor(s, resolver, change.newRes.value)]))
    case ChildRemoved =>
      Some(NOTHING.(deletedChildren := {change.oldRes.value.info.key}))
  }

  /** Applies deliveries one after another. */
  ghost function ApplyAll(s: Instance, resolver: Resolver, deliveries: seq<Delivery>): Instance
    decreases |deliveries|
  {
    if deliveries == [] then s else ApplyAll(Apply(s, resolver, deliveries[0].change), resolver, deliveries[1..])
  }

  ghost predicate AllAbout(deliveries: seq<Delivery>) {
    forall d :: d in deliveries ==> d.change.About(d.key)
  }

  // ---------- commands ----------

  function UnknownIds(ids: set<DesiredResourceId>): UnknownMap {
    map id | id in ids :: UnknownMonitoredResource(id, Unexplained)
  }

  function UnknownFor(desired: DesiredMap): UnknownMap {
    UnknownIds(Ids(desired))
  }

  /** Incoming resources are unknown until a rescan, whatever was known about them before. */
  function Merge(s: Instance, incoming: DesiredMap): Instance {
    s.(desired := s.desired + incoming, unknown := s.unknown + UnknownFor(incoming))
  }

  /** A replacement starts from nothing. */
  function Replace(incoming: DesiredMap): Instance {
    Instance(incoming, map[], map[], map[], UnknownFor(incoming), {})
  }

  function WithMonitored(s: Instance, present: PresentMap, children: ChildMap, missing: MissingMap,
                         unknown: UnknownMap): Instance
  {
    Instance(s.desired, present, children, missing, unknown, PresentKeys(present) + ChildKeys(children))
  }

  /** Deleting desired resources leaves everything monitored in place. */
  function DeleteIds(s: Instance, ids: seq<DesiredResourceId>): Instance {
    s.(desired := map k | k in s.desired && !s.desired[k].MatchesAny(ids) :: s.desired[k])
  }

  function DeleteOtherVersions(s: Instance, versionToKeep: Version): Instance {
    s.(desired := map k | k in s.desired && !s.desired[k].IsOtherVersion(versionToKeep) :: s.desired[k])
  }

  function KeysOfInterest(s: Instance): set<ResourceKey> {
    s.desired.Keys + (set k | k in s.desired :: s.desired[k].Key()) + s.tracked
  }

  function Snapshot(s: Instance): InstanceChanges {
    InstanceChanges(s.present, s.children, s.missing, s.unknown, {})
  }
}
