/** What the monitor reports about each desired resource and each resource found beneath one. */
module MonitoredResources {
  import opened Kubernetes
  import opened DesiredResources

  /** A desired resource that is live. */
  datatype PresentMonitoredResource = PresentMonitoredResource(id: DesiredResourceId, ref: ObjectRef,
                                                               manifest: Option<Manifest>)

  /** A live resource beneath a desired one. */
  datatype ChildMonitoredResource = ChildMonitoredResource(ownerId: Uid, rootOwnerId: Uid, ref: ObjectRef,
                                                           manifest: Option<Manifest>)

  datatype MissingMonitoredResource = MissingMonitoredResource(id: DesiredResourceId, typeMeta: TypeMeta, name: string,
                                                               namespace: string)

  /** Why the state of a resource can't be told; each stands for one of the messages shown to users. */
  datatype Reason =
    | Unexplained
    | ClusterScopedInNamespaceMode
    | NamespaceNotMonitored(namespace: string)
    | TypeExcluded(groupKind: GroupKind)
    | TypeInaccessible(groupKind: GroupKind)

  datatype UnknownMonitoredResource = UnknownMonitoredResource(id: DesiredResourceId, reason: Reason)

  type PresentMap = map<DesiredResourceId, PresentMonitoredResource>
  type MissingMap = map<DesiredResourceId, MissingMonitoredResource>
  type UnknownMap = map<DesiredResourceId, UnknownMonitoredResource>
  type ChildMap = map<ResourceKey, ChildMonitoredResource>

  /** Finds the manifest of a live resource; the answer is a parameter because it may come from the API server. */
  type Resolver = Resource -> Option<Manifest>

  function NewPresent(res: Resource, resolver: Resolver, id: DesiredResourceId): PresentMonitoredResource {
    PresentMonitoredResource(id, res.ref, resolver(res))
  }

  function NewChild(res: Resource, resolver: Resolver, ownerId: Uid, rootOwnerId: Uid): ChildMonitoredResource {
    ChildMonitoredResource(ownerId, rootOwnerId, res.ref, resolver(res))
  }

  function NewMissing(d: Desired): MissingMonitoredResource {
    MissingMonitoredResource(d.id, d.typeMeta, d.name, d.namespace)
  }

  function NewUnknown(d: Desired, reason: Reason): UnknownMonitoredResource {
    UnknownMonitoredResource(d.id, reason)
  }
}
