/** What holds of an application instance however commands, looks at the cluster and changes follow one another. */
module InstanceLives {
  import opened Kubernetes
  import opened DesiredResources
  import opened IncomingResources
  import opened MonitoredResources
  import opened Instances
  import opened InstanceProperties
  import opened Rescans
  import opened ClusterStates

  datatype LifeStep =
    | Merged(sent: DesiredMap, discovery: Discovery, resolved: DesiredMap)
    | Replaced(sent: DesiredMap, discovery: Discovery, resolved: DesiredMap)
    | Looked(answers: Answers, ok: bool)
    | Deleted(ids: seq<DesiredResourceId>)
    | Pruned(versionToKeep: Version)
    | Changed(resolver: Resolver, change: ResourceChange)

  /** Commands bring in fresh resources and try to resolve their namespaces. */
  ghost predicate BroughtIn(sent: DesiredMap, discovery: Discovery, resolved: DesiredMap) {
    && (forall k :: k in sent ==> sent[k].Fresh())
    && exists asked :: Retried(sent, discovery, asked, resolved)
  }

  ghost predicate Becomes(s: Instance, step: LifeStep, t: Instance) {
    match step
    case Merged(sent, discovery, resolved) => BroughtIn(sent, discovery, resolved) && t == Merge(s, resolved)
    case Replaced(sent, discovery, resolved) => BroughtIn(sent, discovery, resolved) && t == Replace(resolved)
    case Looked(answers, ok) => LookedAt(s, answers, t, ok)
    case Deleted(ids) => t == DeleteIds(s, ids)
    case Pruned(versionToKeep) => t == DeleteOtherVersions(s, versionToKeep)
    case Changed(resolver, change) => t == Apply(s, resolver, change)
  }

  /** The states of an instance from its creation on. */
  ghost predicate IsLife(states: seq<Instance>, steps: seq<LifeStep>) {
    && |states| == |steps| + 1 && states[0] == Replace(map[])
    && forall i {:trigger steps[i]} :: 0 <= i < |steps| ==> Becomes(states[i], steps[i], states[i + 1])
  }

  /** Stored under their own keys, with their namespaces settled as far as they are known. */
  ghost predicate KeyedAndSettled(desired: DesiredMap) {
    WellKeyed(desired) && AllSettled(desired)
  }

  lemma BroughtInIsKeyed(sent: DesiredMap, discovery: Discovery, resolved: DesiredMap)
    requires BroughtIn(sent, discovery, resolved)
    ensures KeyedAndSettled(resolved)
  {
    var asked :| Retried(sent, discovery, asked, resolved);
    RetriedIsWellKeyed(sent, discovery, asked, resolved);
  }

  lemma StepStaysKeyed(s: Instance, step: LifeStep, t: Instance)
    requires KeyedAndSettled(s.desired) && Becomes(s, step, t)
    ensures KeyedAndSettled(t.desired)
  {
    match step
    case Merged(sent, discovery, resolved) =>
      BroughtInIsKeyed(sent, discovery, resolved);
      MergeStaysWellKeyed(s, resolved);
    case Replaced(sent, discovery, resolved) => BroughtInIsKeyed(sent, discovery, resolved);
    case Looked(answers, _) => PassKeepsKeys(s.desired, answers.namespacedMap, t.desired);
    case Deleted(_) =>
    case Pruned(_) =>
    case Changed(resolver, change) => ChangeKeepsDesired(s, resolver, change);
  }

  /** At every moment of its life an instance stores its desired resources under their own keys, and what it has
      resolved agrees with its namespace. */
  lemma {:induction false} LivesStayKeyed(states: seq<Instance>, steps: seq<LifeStep>, i: nat)
    requires IsLife(states, steps) && i < |states|
    ensures KeyedAndSettled(states[i].desired)
    decreases i
  {
    if i > 0 {
      LivesStayKeyed(states, steps, i - 1);
      StepStaysKeyed(states[i - 1], steps[i - 1], states[i]);
    }
  }

  /** So in namespace-scoped mode no look at the cluster, whenever in its life, can put a manifest without a configured
      namespace into the batch. */
  lemma EveryBatchIsNamespaced(states: seq<Instance>, steps: seq<LifeStep>, i: nat, trace: Trace, t: Manifest)
    requires IsLife(states, steps) && i < |steps| && steps[i].Looked?
    requires var a := steps[i].answers;
             && ValidScope(a.scope) && a.scope.namespaceScopedMode
             && FoundBy(states[i], a, states[i + 1], steps[i].ok, trace)
    requires t in trace.targets
    ensures t.namespace != "" && t.namespace in steps[i].answers.scope.targetNamespaces
  {
    var a := steps[i].answers;
    LivesStayKeyed(states, steps, i + 1);
    BatchIsNamespaced(states[i + 1].desired, a.scope, a.cache, a.discoveryHealthy, trace, t);
  }
}
