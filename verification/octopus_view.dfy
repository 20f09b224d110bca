/** What Octopus knows from the updates it has been sent. */
module OctopusViews {
  import opened Kubernetes
  import opened DesiredResources
  import opened MonitoredResources
  import opened ChangeQueues
  import opened Instances
  import opened InstanceProperties

  /** The desired resources an update says something about. */
  function Mentioned(u: InstanceChanges): set<DesiredResourceId> {
    u.present.Keys + u.missing.Keys + u.unknown.Keys
  }

  /** Octopus replaces what it knew about everything an update mentions; deleted children it has to be told about. */
  function Receive(view: InstanceChanges, u: InstanceChanges): InstanceChanges {
    InstanceChanges(
      (view.present - Mentioned(u)) + u.present,
      (view.children - u.deletedChildren) + u.children,
      (view.missing - Mentioned(u)) + u.missing,
      (view.unknown - Mentioned(u)) + u.unknown,
      {})
  }

  function ReceiveAll(view: InstanceChanges, updates: seq<InstanceChanges>): InstanceChanges
    decreases |updates|
  {
    if updates == [] then view else ReceiveAll(Receive(view, updates[0]), updates[1..])
  }

  /** An update says exactly what changed; when there is none, nothing changed. */
  lemma UpdateSaysWhatChanged(s: Instance, resolver: Resolver, key: ResourceKey, change: ResourceChange)
    requires Consistent(s) && change.About(key)
    ensures match Announce(s, resolver, change)
            case None => Apply(s, resolver, change) == s
            case Some(u) => Receive(Snapshot(s), u) == Snapshot(Apply(s, resolver, change))
  {
    assert ConsistentAt(s, key);
    KindSaysWhatChanged(s, resolver, key, change, Kind(s, change));
  }

  lemma KindSaysWhatChanged(s: Instance, resolver: Resolver, key: ResourceKey, change: ResourceChange, kind: UpdateKind)
    requires change.About(key) && KindFits(s, change, kind)
    requires kind == DesiredUpdated ==> s.desired[key].id !in s.missing
    requires kind == DesiredFound || kind == DesiredUpdated || kind == DesiredRemoved ==>
               s.desired[key].id !in s.unknown
    ensures match AnnounceKind(s, resolver, change, kind)
            case None => ApplyKind(s, resolver, change, kind) == s
            case Some(u) => Receive(Snapshot(s), u) == Snapshot(ApplyKind(s, resolver, change, kind))
  {
    match kind
    case NoChange =>
    case DesiredFound | DesiredUpdated =>
      var id := s.desired[key].id;
      ReceivePresent(Snapshot(s), NewPresent(change.newRes.value, resolver, id));
      assert kind == DesiredUpdated ==> s.missing - {id} == s.missing;
    case DesiredRemoved => ReceiveMissing(Snapshot(s), NewMissing(s.desired[key]));
    case ChildFound | ChildUpdated => ReceiveChild(Snapshot(s), key, ChildFor(s, resolver, change.newRes.value));
    case ChildRemoved => ReceiveDeletion(Snapshot(s), key);
  }

  lemma ReceivePresent(view: InstanceChanges, p: PresentMonitoredResource)
    requires view.deletedChildren == {} && p.id !in view.unknown
    ensures Receive(view, NOTHING.(present := map[p.id := p])) ==
            view.(present := view.present[p.id := p], missing := view.missing - {p.id})
  {
    var u := NOTHING.(present := map[p.id := p]);
    assert Mentioned(u) == {p.id} && view.unknown - {p.id} == view.unknown && view.children - {} == view.children;
  }

  lemma ReceiveMissing(view: InstanceChanges, m: MissingMonitoredResource)
    requires view.deletedChildren == {} && m.id !in view.unknown
    ensures Receive(view, NOTHING.(missing := map[m.id := m])) ==
            view.(present := view.present - {m.id}, missing := view.missing[m.id := m])
  {
    var u := NOTHING.(missing := map[m.id := m]);
    assert Mentioned(u) == {m.id} && view.unknown - {m.id} == view.unknown && view.children - {} == view.children;
  }

  lemma ReceiveChild(view: InstanceChanges, key: ResourceKey, c: ChildMonitoredResource)
    requires view.deletedChildren == {}
    ensures Receive(view, NOTHING.(children := map[key := c])) == view.(children := view.children[key := c])
  {
    ReceiveChildren(view, NOTHING.(children := map[key := c]));
    assert (view.children - {}) + map[key := c] == view.children[key := c];
  }

  lemma ReceiveDeletion(view: InstanceChanges, key: ResourceKey)
    requires view.deletedChildren == {}
    ensures Receive(view, NOTHING.(deletedChildren := {key})) == view.(children := view.children - {key})
  {
    ReceiveChildren(view, NOTHING.(deletedChildren := {key}));
    assert (view.children - {key}) + map[] == view.children - {key};
  }

  lemma ReceiveChildren(view: InstanceChanges, u: InstanceChanges)
    requires view.deletedChildren == {} && u == NOTHING.(children := u.children, deletedChildren := u.deletedChildren)
    ensures Receive(view, u) == view.(children := (view.children - u.deletedChildren) + u.children)
  {
    assert Mentioned(u) == {};
    assert view.present - {} == view.present && view.missing - {} == view.missing && view.unknown - {} == view.unknown;
  }

  /** Starting from a full report, the updates of any run of changes keep Octopus's view equal to what the instance
      monitors. */
  lemma {:induction false} UpdatesKeepTheViewFaithful(s: Instance, resolver: Resolver, deliveries: seq<Delivery>)
    requires Consistent(s) && AllAbout(deliveries)
    ensures ReceiveAll(Snapshot(s), AnnounceAll(s, resolver, deliveries)) == Snapshot(ApplyAll(s, resolver, deliveries))
    decreases |deliveries|
  {
    if deliveries != [] {
      var d, rest := deliveries[0], deliveries[1..];
      assert d in deliveries && d.change.About(d.key) && AllAbout(rest);
      ChangeKeepsConsistent(s, resolver, d.key, d.change);
      UpdateSaysWhatChanged(s, resolver, d.key, d.change);
      UpdatesKeepTheViewFaithful(Apply(s, resolver, d.change), resolver, rest);
      var later := AnnounceAll(Apply(s, resolver, d.change), resolver, rest);
      match Announce(s, resolver, d.change)
      case None => assert AnnounceAll(s, resolver, deliveries) == later;
      case Some(u) =>
        assert AnnounceAll(s, resolver, deliveries) == [u] + later;
        assert ([u] + later)[1..] == later;
    }
  }
}
