# Kubernetes monitor: a verified model of its resource tracking

The Octopus Kubernetes monitor tells Octopus what has become of the resources it deployed. Many Octopus machines
("targets") share one connection to a Kubernetes cluster. For each target the monitor keeps an incrementally updated
view: which desired resources are present, missing or in an unknown state, and which live resources hang beneath them.
The view is cheap to keep because the cluster cache's changes are routed only to targets that care, folded in a queue,
and applied one at a time on the target's goroutine. A slow, complete rescan exists beside it. This project models that
machinery in Dafny and proves when the cheap view agrees with the complete one, and exactly where it does not.

Run `dafny verify dfyconfig.toml`, or pass all `.dfy` files to `dafny verify`.

## How the model is laid out

| file | what it models |
|---|---|
| `kubernetes.dfy` | keys, owner references, cached resources, changes, the live cluster as a map |
| `interest_index.dfy`, `interest_closure.dfy` | the two-way index of targets and keys as a class, and the ownership closure it computes online |
| `change_queue.dfy` | the folding queue: its loop, fairness, and replay of what it delivered |
| `desired_resource.dfy`, `incoming_resources.dfy` | desired resources as mutable objects, and namespace resolution that re-keys them |
| `monitored_resources.dfy`, `root_owner.dfy` | the records reported, and the search for the root owner |
| `instance_spec.dfy`, `application_instance.dfy` | one application instance: specification functions, and the class whose methods refine them |
| `instance_properties.dfy` | what every run of changes keeps true of an instance, and folding of desired resources |
| `child_folding.dfy`, `child_owners.dfy` | what folding does to children; for which runs the search for roots ends and stored roots stay right |
| `child_tracking.dfy` | when the children an instance has come to track are those a rescan would find |
| `octopus_view.dfy`, `merge_report.dfy` | what Octopus learns from updates, and when what a merge reports is enough |
| `rescan_truth.dfy` | what a rescan reports when the cache tells the truth about one moment |
| `rescan.dfy` | the classification of every desired resource, parent and child discovery, missing detection |
| `target_spec.dfy`, `cluster_state.dfy` | all instances of a target: specification functions, and the class with every command |
| `instance_life.dfy` | desired resources over an instance's whole life: commands, looks and changes in any order |
| `routing.dfy` | routing a change only to interested targets refines broadcasting it |
| `pipeline.dfy`, `pipeline_races.dfy` | cluster, index, queue and target together, in any interleaving; two runs that go wrong |
| `actor_topology.dfy` | goroutines, mailboxes, the cache lock and queues as steps: who waits for whom |
| `circular_buffer.dfy`, `log_lines.dfy` | the circular log buffer and the log parser on top of it |
| `finite_sets.dfy` | one counting lemma |

Objects the original mutates are classes here (`InterestIndex`, `DesiredResource`, `ApplicationInstance`,
`ClusterState`, `CircularBuffer`); each method is proved equal to a specification function on values, and the theorems
are about those functions. Loops over Go maps pick an arbitrary remaining key, so nothing depends on iteration order.
Names below are qualified by module and, where there is one, class.

## What was found

These are statements one would expect to hold but that fail. Each has a lemma showing the failure and one saying exactly
when the statement does hold.

- **A rescan can make a later deletion disappear.** If an addition is still queued when a rescan finds the resource, a
  deletion then folds into the addition and leaves a change with neither side, which has no effect: the resource stays
  "present" until the next sweep. `PipelineRaces.RescanCanLoseADeletion` is a run of a new target in which only that
  rescan is careless. `Pipelines.RescanIsCurrentIff` gives the condition on what is pending.
- **A rescan can make a target miss a creation.** Looking at the cluster can move a resource to a key the target has not
  published; a sweep publishes nothing before it looks. A creation announced before the next publication is not routed,
  and publishing later does not bring it back (`PipelineRaces.RekeyingRescanCanMissACreation`).
  `Pipelines.NothingGoesWrongIff` says exactly when no schedule can go wrong until the next rescan: the pipeline is
  current, and everything its instances say something about is published. `Pipelines.RescanIsHarmlessIff` says which
  rescans keep it so.
- **A failed rescan can leave a target deaf.** It keeps the keys that namespace resolution moved resources to but does
  not publish them (`Routing.FailedRescanCanMissACreation`, exact in `Routing.FailedRescanMissesNothingIff`).
- **A refused resource can still turn up.** A resource ruled unknown may be reached as somebody's descendant and then is
  present as well; a rescan is consistent exactly when that does not happen (`Rescans.RescanIsConsistentIff`). The
  comment at internal/cluster/shared_cluster.go:265-266 says unknown resources are not processed further; the model
  follows the code, where lines 421-435 still record them as present.
- **Deletion leaves records behind**, and the deleted resource can come back as a child while still recorded as present
  (`InstanceProperties.DeletedResourceCanReturnAsChild`); exact in `InstanceProperties.DeletionLeavesRecordsBehind` and
  `InstanceProperties.VersionDeletionLeavesRecordsBehind`.
- **A failed sync after a merge leaves records behind**: a resource that was present is then unknown as well. The
  instance is consistent exactly when the merge was clean (`InstanceProperties.MergeLeavesRecordsBehind`).
- **Folding is confluent for desired resources but not for children.** It can miss a child that lost its owner before
  the change was delivered (`ChildFolding.FoldingCanMissAChild`), keep one that was deleted and came back unowned
  (`ChildFolding.FoldingCanKeepAChild`), and keep one that is gone, if a rescan recorded it while its addition was still
  queued (`ChildFolding.FoldingCanKeepAGoneChild`). Which children are left is decided by the versions alone, exactly as
  `ChildFolding.FoldingAgreesOnChildIff` says for every chain of changes; `ChildFolding.FoldingIsConfluentForChildIff`
  extends that to the whole instance, owners and roots included.
- **A child announced before its owner is tracked is missed, and one that outlives its owner is kept**, until the next
  rescan (`ChildTracking.ChildBeforeOwnerIsMissed`, `ChildTracking.ChildAfterOwnerIsKept`). Which changes keep the right
  resources tracked is exact in `ChildTracking.ChangeKeepsTrackIff`; runs of such changes lead to the very children a
  rescan finds, and to the very instance exactly if the stored roots are right (`ChildTracking.RunsAgreeOnChildren`).
- **Closure holds for the index, not for each target** (`InterestClosure.ClosureIsNotPerTarget`). One population closes
  for a target exactly unless it stops at somebody else's key (`InterestClosure.PopulateClosesForTargetIff`); over runs
  see `InterestClosure.ClosedThroughoutIffNeverSkipped` and `InterestClosure.ClosedForIff`.
- **An inferred owner reference that carries the object's own UID is fatal**: after one update of such a child, the
  search for its root at the next update would not end (`ChildOwners.SelfOwnedChildIsFatal`). Searches end for every
  change exactly while the children are acyclic (`ChildOwners.SearchesEndIff`), and a run keeps them so exactly when
  each change fits (`ChildOwners.RunStaysAcyclicIff`).
- **Stored roots go stale** when a child's ancestor gets another owner, or when the parent of an orphan turns up; exact
  in `ChildOwners.ChangeKeepsRootsIff`.
- **What a merge reports can leave Octopus with a child that is gone**, and no later change puts that right: it names no
  deleted children, and the deletion itself, if still to come, is announced as nothing (`MergeReports.LostChildStays`).
  Nor does it mention an incoming resource that loses its place to another, or a new child whose first owner is not
  beneath what came in. When it is enough is exact in `MergeReports.MergeReportSufficesIff`, and for an instance that
  was right before the merge in `MergeReports.ReportSufficesWhenCurrentIff` and
  `MergeReports.ReportSufficesWhenRightIff`.
- **A namespaced child of a cluster-scoped owner is never tracked by changes**: references are looked up in the
  dependant's own namespace (`Kubernetes.OwnersElsewhereAreNotNamed`), while a rescan's traversal may still meet it.
- **A missing resource of a vanished type may be reported without its namespace**, if that was never resolved
  (`Rescans.ReportIsTrue` and `InstanceProperties.EveryRunTellsTheTruth` say exactly when the report makes up its key).
- **A buffer never written to yields its capacity in zero bytes** (`CircularBuffers.CircularBuffer.Bytes`, which is exact
  in both cases); the log parser is right on an empty stream only because those zeros form one malformed first line
  (`LogLines.ZerosAreOneMalformedLine`).

## What the model takes for granted

These are relied on, unchecked, by the original too; they appear as `requires` clauses or as data.

- Both sides of a change describe the same key, and a resource's reference and attached information agree
  (`ResourceChange.About`, `Resource.WellFormed`). What the cache announces has at least one side
  (`ChangeQueues.FromCache`); a folded change may have none.
- Distinct desired resources carry distinct ids by the time a rescan has resolved namespaces (`Rescans.IsReady`).
- When a change finds or updates a child, UIDs among the children are unique and the owners above it are acyclic
  (`Instances.RootsReachable`). A rescan establishes this for every change (`ChildOwners.RescanIsAcyclic`), and which
  changes keep it is proved.
- The cache's traversal meets well-formed objects, each child once, parents before children (`Rescans.Traversed`).
  Where an incremental view is compared with a rescan, the traversal meets exactly what is live and has a chain of named
  owners up to a live desired resource (`ChildTracking.Complete`, or `Pipelines.Faithful` for desired resources alone); `RescanTruth` derives this from what is
  assumed of the cache's two answers there (`RescanTruth.TellsTruth`).
- Octopus itself is not part of this model. It is taken to replace what it knew about every desired resource an update
  mentions, to add or replace the children in it, to drop the deleted children it names, and to keep everything else
  (`OctopusViews.Receive`); that is how the comments at internal/cluster/application_instance.go:238-239 describe it.
- The target's desired resources are not shared between instances or between entries of one command
  (`ClusterStates.NothingShared`, `IncomingResources.NotShared`).
- Empty target namespaces have been dropped by configuration (`Rescans.ValidScope`; internal/config/config.go:79-89).
- In `Pipelines`, a rescan reads the cache at one moment.

Oracles are parameters: discovery answers, the set of API resources and readable types, the managed live objects, the
hierarchy traversal, manifest resolution, the resource filter, the timestamp parser and the log stream.

## Model

| member | source | states |
|---|---|---|
| InterestIndexes.InterestIndex.Set | internal/cluster/resource_interests.go:84-94 | the target is interested in exactly the published keys, nobody else's interests change, the two maps stay mutual inverses and no key maps to an empty set |
| InterestIndexes.InterestIndex.InheritInterestFromOwners | internal/cluster/resource_interests.go:138-151 | exactly the targets interested in some nameable owner gain the resource; the loop that gives while it reads equals giving to the owners' targets as they were at the start |
| InterestIndexes.InterestIndex.PopulateResourceInfo | internal/cluster/resource_interests.go:56-71 | a resource already in the index is left alone; roots inherit nothing; the manifest is kept exactly when the resource is in the index or inheritable |
| InterestIndexes.InterestIndex.Route | internal/cluster/resource_interests.go:153-185 | unless stopped part-way, the change goes to exactly the subscribed targets interested in either side's resource or one of its owners |
| InterestIndexes.InterestIndex.IsResourceInIndex | internal/cluster/resource_interests.go:127-129 | looking a key up in one map answers whether any target in the other map holds it |
| InterestIndexes.LookupIsSearch | internal/cluster/resource_interests.go:19-24 | the targets stored under a key are the targets whose key sets contain it |
| InterestIndexes.GiveInTurn | internal/cluster/resource_interests.go:138-151 | taking owners one at a time while updating gives the same result as taking them together |
| Kubernetes.SameKeyIff | internal/cluster/missing_monitored_resource.go:20-27 | keys tell objects apart by exactly group, kind, namespace and name; an unparsed version counts as the core group |
| Kubernetes.OwnersAreReferredToIff | internal/cluster/cluster_state.go:333-336 | an object's key is among the keys of a dependant's owners if and only if one of the references, in the dependant's namespace, is to it |
| Kubernetes.OwnersElsewhereAreNotNamed | internal/cluster/cluster_state.go:333-336 | an owner in another namespace, or in none, is never named |
| InterestIndexes.HeirsHoldOwnerIff | internal/cluster/resource_interests.go:138-151 | a target inherits interest if and only if it holds the key of an object that one of the references is to |
| InterestIndexes.RecipientsAreConcernedIff | internal/cluster/resource_interests.go:153-185 | a target receives a change if and only if it holds, for either side, the resource's key or that of an object it is owned by |
| InterestClosure.WithdrawnTargetLeavesNoTrace | internal/cluster/resource_interests.go:84-94 | after publishing nothing a target receives no change, and every other target receives what it did |
| InterestClosure.PublishingIsPrivate | internal/cluster/resource_interests.go:84-94 | one target's publication never changes what another receives |
| InterestClosure.PopulateGrowsTheIndex | internal/cluster/resource_interests.go:58-71 | as a whole the index gains a resource exactly when it holds one of its owners, and that is when its manifest is kept; a root inherits nothing |
| InterestClosure.GrownKeysHaveChains | internal/cluster/resource_interests.go:131-151 | after any listing in any order, a key is held if and only if it was published or a chain of owners, in listing order, leads back to something published |
| InterestClosure.PassesReachDepth | internal/cluster/resource_interests.go:131-137 | after d complete listings, each in any order, everything at owner depth at most d is in the index |
| InterestClosure.ListingsConverge | internal/cluster/resource_interests.go:131-151 | as many complete listings as there are objects leave exactly the ownership closure of what was published, never more |
| InterestClosure.OwnersFirstConvergesAtOnce | internal/cluster/resource_interests.go:131-137 | one listing suffices when owners come first |
| InterestClosure.InterestIsJustified | internal/cluster/resource_interests.go:84-151 | in any run of publications and populations, all a target published last is kept, and anything more has an owner chain back to it through what was populated since |
| InterestClosure.ClosureIsNotPerTarget | internal/cluster/resource_interests.go:58-66 | a concrete run in which a target holds an owner but not the listed child, because another target held the child already |
| InterestClosure.PopulateClosesForTargetIff | internal/cluster/resource_interests.go:58-66 | for every index and target, a population takes the target's closure step if and only if it does not stop at a key somebody else holds while the target holds an owner |
| InterestClosure.ClosedThroughoutIffNeverSkipped | internal/cluster/resource_interests.go:58-71 | in any run, a target has held its whole closure ever since it last published if and only if no population since has skipped it |
| InterestClosure.HeldIsClosureOverTaken | internal/cluster/resource_interests.go:58-71 | in any run, a target holds exactly the closure of what it last published over the populations of resources nobody held at the time |
| InterestClosure.ClosedForIff | internal/cluster/resource_interests.go:131-151 | at the end of a run a target holds its whole closure if and only if every owner chain is matched by one through populations of resources nobody held at the time |
| ChangeQueues.Run | internal/cluster/resource_changes.go:40-78 | the loop over order and queued computes the specified service of any sequence of arrivals and reads |
| ChangeQueues.QueueStaysIndexed | internal/cluster/resource_changes.go:41-44 | however arrivals and reads interleave, order lists exactly the queued keys, each once |
| ChangeQueues.CancellingEndsService | internal/cluster/resource_changes.go:55-58 | nothing that comes after the cancellation is accepted or delivered |
| ChangeQueues.DeliveredInTurn | internal/cluster/resource_changes.go:46-76 | a key waiting at position i is delivered by exactly the (i+1)-th send, whatever arrives meanwhile |
| ChangeQueues.FoldingLosesNothing | internal/cluster/resource_changes.go:60-76 | at every point deliveries form a run of announcements, and what the reader has seen differs from the live cluster by exactly the pending folds |
| ChangeQueues.DrainedReaderIsUpToDate | internal/cluster/resource_changes.go:60-76 | a drained queue has delivered the live cluster |
| DesiredResources.DesiredResource.ResolveNamespace | internal/cluster/desired_resource.go:65-89 | resolves in place exactly as specified, including the manifest's namespace, and says whether the namespace is resolved |
| DesiredResources.KeyIsOfObjectIff | internal/cluster/desired_resource.go:53-63 | a resource's key is that of exactly the live objects with its group, kind and name, in its namespace or, until that is known, the assumed one |
| DesiredResources.FirstKnowingPassDecides | internal/cluster/desired_resource.go:65-89 | nothing happens to a fresh resource until a pass knows its type; that pass settles namespace, scope and manifest for good, keeping a namespace the manifest names itself, and its type and body |
| DesiredResources.ResolutionIsFinal | internal/cluster/desired_resource.go:65-89 | once resolved, no later pass changes the resource; until then nothing has changed |
| DesiredResources.ResolutionRekeys | internal/cluster/desired_resource.go:53-89 | a fresh resource moves to another key if and only if its type turns out cluster-scoped while a namespace was assumed |
| DesiredResources.ResolutionSettles | internal/cluster/desired_resource.go:65-89 | after any number of passes the id is unchanged, the resource is resolved exactly if some pass knew its type, and a namespaced manifest names its namespace |
| DesiredResources.ResolveNamespaces | internal/cluster/application_instance.go:316-333 | the rebuilt map holds every entry's result under its current key, colliding entries losing to each other, and reports whether all were resolved |
| DesiredResources.AllResolvedIff | internal/cluster/application_instance.go:316-333 | the pass reports that all was resolved if and only if every entry already was or is of a known type |
| DesiredResources.PassKeepsKeys | internal/cluster/application_instance.go:316-333 | every stored key stays its entry's current key |
| DesiredResources.LostOnlyToACollision | internal/cluster/application_instance.go:319-330 | an entry disappears only in favour of another with the same resolved key |
| DesiredResources.PassLeavesIdsDistinct | internal/cluster/application_instance.go:316-333 | ids are distinct after a pass that brings entries with the same id together, so also for a resource sent again while stored under its unresolved key |
| IncomingResources.ResolveIncoming | internal/cluster/cluster_state.go:287-306 | each incoming resource is tried against the latest discovery answer and once more against a fresh one, and stored under its current key even if unresolved; discovery is asked afresh once for each resource the latest answer leaves unresolved, and not otherwise |
| IncomingResources.RetriedIsSettled | internal/cluster/cluster_state.go:287-306 | a fresh resource whose type either of two answers knows comes in settled by the first that does, any other as it was sent, and each has a place under the key this gives it |
| IncomingResources.RetriedIsWellKeyed | internal/cluster/cluster_state.go:287-306 | the result is well keyed, ids stay distinct and settled resources stay settled, whatever discovery answers |
| RootOwners.GetRootParentResource | internal/cluster/cluster.go:237-245 | terminates when the owners above reach a root, and returns that root |
| RootOwners.RootIsNoChild | internal/cluster/cluster.go:237-245 | the climb ends if and only if its end is no child's UID |
| RootOwners.RootThroughOwner | internal/cluster/cluster.go:237-245 | a child and its owner have the same root |
| RootOwners.EndsEverywhereIffAcyclic | internal/cluster/cluster.go:237-245 | the recursion ends from everywhere if and only if ranks exist that fall along every ownership |
| RootOwners.OneMoreEndsEverywhereIff | internal/cluster/cluster.go:237-245 | giving one more UID an owner keeps every search ending if and only if the owner is not beneath it already |
| RootOwners.SelfOwnedNeverReachesRoot | internal/cluster/cluster.go:237-245 | the search from a child that is its own owner never ends, in any owner relation |
| ChildOwners.SelfOwnedChildIsFatal | internal/cluster/references.go:18-26 | one update of a recorded child whose first owner reference carries its own UID, and the search at its next update does not end, although the first one did |
| ChildOwners.RecordingStaysAcyclicIff | internal/cluster/application_instance.go:210-224 | recording a child keeps every search ending if and only if its UID is no other child's and its owner is not beneath it already |
| ChildOwners.RunStaysAcyclicIff | internal/cluster/application_instance.go:210-231 | a run keeps the children acyclic throughout if and only if each of its changes fits when it comes, and then every search it makes ends |
| ChildOwners.SearchesEndIff | internal/cluster/application_instance.go:212-213 | with a child recorded, the search ends whatever change comes next if and only if the children are acyclic |
| ChildOwners.RescanIsAcyclic | internal/cluster/shared_cluster.go:411-450 | a rescan leaves the children acyclic and every stored root where the search ends |
| ChildOwners.ChangeKeepsRootsIff | internal/cluster/application_instance.go:210-231 | a change keeps all stored roots right if and only if a found child was nobody's root, an updated one kept its root or has nothing beneath it, a re-created one has nothing beneath either UID, and a forgotten one had nothing beneath it |
| RootOwners.RootWhilePartial | internal/cluster/shared_cluster.go:411-450 | a root found while children are still being recorded is final if and only if no child recorded later has its UID |
| RootOwners.StoredRootsAreFinal | internal/cluster/shared_cluster.go:411-450 | with parents recorded first, each stored root equals the root over all children and is no child |
| ApplicationInstances.ApplicationInstance.CalculateResourceChange | internal/cluster/application_instance.go:347-414 | the branches classify a change as specified, for every pair of sides |
| ApplicationInstances.ApplicationInstance.GetParentResourceId | internal/cluster/application_instance.go:105-131 | the loop finds the first owner with a UID or a known key, and gives up at one that cannot be named |
| ApplicationInstances.ApplicationInstance.GetChangesForUpdatedResource | internal/cluster/application_instance.go:138-248 | updates every map as specified for the kind of change and reports exactly the specified update |
| ApplicationInstances.ApplicationInstance.MergeDesiredResources | internal/cluster/application_instance.go:53-67 | incoming resources are added and unknown; everything else is unchanged |
| ApplicationInstances.ApplicationInstance.ReplaceDesiredResources | internal/cluster/application_instance.go:69-87 | only the incoming resources remain, all unknown; nothing monitored carries over |
| ApplicationInstances.ApplicationInstance.ReplaceMonitoredResources | internal/cluster/application_instance.go:277-295 | tracked keys become exactly those of the present resources and the children |
| ApplicationInstances.ApplicationInstance.DeleteDesiredResources | internal/cluster/application_instance.go:97-103 | removes exactly the listed ids from the desired resources and leaves all monitored ones |
| ApplicationInstances.ApplicationInstance.DeleteDesiredResourcesExceptForVersion | internal/cluster/application_instance.go:89-95 | removes exactly the resources that carry another version |
| ApplicationInstances.ApplicationInstance.ReplaceMonitoredResourcesFromCluster | internal/cluster/application_instance.go:250-275 | resolves namespaces, then holds exactly what a rescan finds; a cache failure leaves monitored resources alone but keeps resolved namespaces |
| ApplicationInstances.ApplicationInstance.ResourceKeysOfInterest | internal/cluster/application_instance.go:421-436 | yields desired resources under stored and current key, and everything tracked |
| InstanceProperties.EveryRunKeepsConsistent | internal/cluster/application_instance.go:138-248 | every run of changes keeps each desired id in exactly one of present, missing and unknown, records about the right resource, and tracked keys exact |
| InstanceProperties.TrackedIsPresentAndChildren | internal/cluster/application_instance.go:438-468 | in a consistent instance present and child keys are disjoint and the tracked keys are their union |
| InstanceProperties.FoldingIsConfluent | internal/cluster/resource_changes.go:60-66 | for a desired resource whose status agrees with the fold's old side, the folded change does what the changes in turn do, create-then-delete included |
| InstanceProperties.QueueFoldsTheChain | internal/cluster/resource_changes.go:58-67 | the queue holds for a key the first old and last new side of the chain it accepted |
| ChildFolding.FoldingAgreesOnChildIff | internal/cluster/resource_changes.go:60-66 | for every chain of changes, the folded change and the changes in turn agree on a child if and only if one that is deleted was live to begin with if it ends up gone and seen owned since if it ends up live, and what is no child is still owned if it was since its last deletion; everything else always agrees |
| ChildFolding.FoldingIsConfluentForChildIff | internal/cluster/resource_changes.go:60-66 | where the resource ends up live the two leave the same instance, with the same owner and root recorded, under exactly that condition, given acyclic children among which every version fits |
| ChildFolding.ChainLeavesChildIff | internal/cluster/application_instance.go:381-411 | applied in turn, changes leave a child if and only if it was one and none deletes it, or it was seen with a tracked owner since its last deletion |
| ChildFolding.FoldingCanMissAChild | internal/cluster/resource_changes.go:60-66 | a child found and then disowned is kept when applied in turn but never seen when folded |
| ChildFolding.FoldingCanKeepAChild | internal/cluster/resource_changes.go:60-66 | a child deleted and re-created unowned is gone when applied in turn but kept when folded |
| ChildFolding.FoldingCanKeepAGoneChild | internal/cluster/resource_changes.go:60-66 | a child recorded while its addition was queued is gone when its deletion is applied in turn but kept when the two fold into nothing |
| ChildTracking.ChangeKeepsTrackIff | internal/cluster/application_instance.go:395-411 | what is tracked stays exactly what has an owner chain up to a live desired resource if and only if a newly tracked resource owns nothing live and untracked, a removed one leaves all others a chain, and an updated one keeps a chain that does not need it |
| ChildTracking.OrderlyChangesKeepTrack | internal/cluster/application_instance.go:395-411 | that holds when owners come before what they own, go after it and are never exchanged |
| ChildTracking.RunKeepsTrackIff | internal/cluster/application_instance.go:138-247 | the condition lifted to runs of any length |
| ChildTracking.ChildBeforeOwnerIsMissed | internal/cluster/application_instance.go:395-411 | a live child announced before its owner is tracked is no child once the owner is, although a chain leads from it to a desired resource |
| ChildTracking.ChildAfterOwnerIsKept | internal/cluster/application_instance.go:392-396 | a child whose only owner is deleted first stays one, although no chain leads from it any more |
| ChildTracking.OwnerIsFirstThatTells | internal/cluster/application_instance.go:105-131 | the owner recorded with a child is the UID of the first reference that carries one, or of the live object the first reference to something tracked is to, unless a malformed one comes before |
| ChildTracking.NoOwnerIfNoneTells | internal/cluster/application_instance.go:105-131 | if every reference is without a UID and to nothing tracked, no owner is recorded |
| ChildTracking.SameInstanceIff | internal/cluster/application_instance.go:209-224 | an instance that tracks and shows the right children is the one a rescan leaves if and only if its stored roots are right |
| ChildTracking.RunsAgreeOnChildren | internal/cluster/application_instance.go:138-275 | from one rescan, a run of deliveries leads to the children another rescan finds at the end if and only if the right resources are tracked, which follows if every change keeps track; the instances are then equal if and only if the stored roots are right, where first owners have UIDs |
| InstanceProperties.EveryRunReflectsTheCluster | internal/cluster/application_instance.go:347-414 | along any run the settled desired resources are present as what is live under their key and missing otherwise |
| InstanceProperties.EveryRunTellsTheTruth | internal/cluster/missing_monitored_resource.go:20-42 | after any run of changes a desired resource is reported with the live object's reference and manifest, or as missing with its own id, type and name, and under its own key exactly if its namespace is resolved or none was assumed |
| InstanceProperties.FirstSightOfChildIff | internal/cluster/application_instance.go:398-411 | a resource not known before is found to be a child if and only if one of its references is to an object that is tracked |
| InstanceProperties.ReflectionIsUnique | internal/cluster/application_instance.go:250-275 | the live cluster determines present and missing, so an incremental and a rescanned view that both reflect it are equal |
| InstanceProperties.NoResurrection | internal/cluster/application_instance.go:347-414 | every update of any run mentions only keys in a set closed under ownership that contains the desired and child keys |
| InstanceProperties.ReplacementForgetsTheRest | internal/cluster/application_instance.go:69-87 | after a replacement nothing outside the new desired keys and what they come to own is ever reported |
| InstanceProperties.SilentIffNothingMonitored | internal/cluster/application_instance.go:347-414 | no change whatever is reported if and only if nothing is tracked and nothing desired is present or missing |
| InstanceProperties.EmptyReplacementIsFinal | internal/cluster/application_instance.go:69-87 | after an empty replacement no run of any length produces an update |
| InstanceProperties.DeletingLeavesTheRest | internal/cluster/application_instance.go:97-103 | exactly the listed ids are no longer desired; every other entry and all that is monitored stays as it was |
| InstanceProperties.DeletionsCombine | internal/cluster/application_instance.go:97-103 | deleting in two goes, in either order, is deleting both lists at once |
| InstanceProperties.PruningLeavesTheRest | internal/cluster/application_instance.go:89-95 | an entry stays if and only if it carries the version to keep or none |
| InstanceProperties.DeletionLeavesRecordsBehind | internal/cluster/application_instance.go:97-103 | deletion keeps the instance consistent if and only if it deletes nothing |
| InstanceProperties.VersionDeletionLeavesRecordsBehind | internal/cluster/application_instance.go:89-95 | deleting other versions keeps the instance consistent if and only if nothing carries another version |
| InstanceProperties.DeletedResourceCanReturnAsChild | internal/cluster/application_instance.go:381-411 | after deletion a key can be present and a child at once |
| InstanceProperties.MergeStaysWellKeyed | internal/cluster/application_instance.go:53-67 | merging well-keyed maps stays well keyed and settled; incoming entries win, nothing else is lost and nothing added |
| InstanceProperties.MergeMakesUnknown | internal/cluster/application_instance.go:53-67 | the ids unknown after a merge are those that were and the incoming ones, which lose any earlier reason; what is monitored is untouched |
| InstanceProperties.ReplacingIsMergingAfresh | internal/cluster/application_instance.go:69-87 | a replacement is a merge into an instance with nothing, and consistent if ids are distinct |
| InstanceProperties.MergeLeavesRecordsBehind | internal/cluster/application_instance.go:53-67 | a merge that no rescan follows keeps the instance consistent if and only if ids stay distinct, no known id is lost and no incoming id was present or missing |
| InstanceLives.LivesStayKeyed | internal/cluster/application_instance.go:53-103 | through any sequence of merges, replacements, looks, deletions and changes since its creation, an instance's desired resources are stored under their own keys with manifests that agree with their namespaces |
| InstanceLives.EveryBatchIsNamespaced | internal/cluster/shared_cluster.go:276-367 | so in namespace-scoped mode no look at any moment of its life puts a manifest outside the configured namespaces into the batch |
| OctopusViews.UpdateSaysWhatChanged | internal/cluster/application_instance.go:238-247 | receiving an update turns the old full report into the new one; no update means no change |
| OctopusViews.UpdatesKeepTheViewFaithful | internal/cluster/application_instance.go:238-247 | from a full report on, the updates of any run keep Octopus's view equal to what the instance monitors |
| MergeReports.MergeReportSufficesIff | internal/cluster/cluster_state.go:80-144 | what a successful merge reports brings Octopus's view up to date if and only if the rescan found the resources it leaves out as before, reached every earlier child undesired, and found the children it leaves out as they were |
| MergeReports.ReportSufficesWhenCurrentIff | internal/cluster/cluster_state.go:80-144 | for an instance reflecting the cluster whose other desired resources keep their places and refusals, nothing changes about those, so the report is enough if and only if no recorded incoming resource is displaced and the children are as said |
| MergeReports.ReportSufficesWhenRightIff | internal/cluster/cluster_state.go:111-118 | for an instance also right about its children, if and only if, besides, children the report leaves out are no new ones and what was their root has not become a child |
| MergeReports.LostChildStays | internal/cluster/cluster_state.go:136-143 | an earlier child that the merge's rescan does not reach, or that is now desired, stays in Octopus's view through any run of changes in which it does not come back, and its own deletion is announced as nothing |
| Rescans.GetFirstOwnerId | internal/cluster/shared_cluster.go:500-531 | the first owner's UID, else that of some namespace resource matching it by name, kind and version, else none |
| Rescans.OwnerIsFoundByName | internal/cluster/shared_cluster.go:512-531 | without a UID the owner is one of the objects in the namespace with the reference's version, kind and name, if there are any |
| Rescans.RefuseResources | internal/cluster/shared_cluster.go:251-333 | exactly the refused resources are unknown, each for the first reason that applies |
| Rescans.TargetObjects | internal/cluster/shared_cluster.go:335-367 | exactly the manifests of resources that are known, not refused and not excluded are asked for |
| Rescans.BatchIsExact | internal/cluster/shared_cluster.go:335-367 | the cache is asked for a manifest if and only if it is that of a resource of a known and allowed type, with its namespace resolved and in scope, and is of an allowed type itself; cluster-scoped ones included |
| Rescans.UnknownIsExplainedIff | internal/cluster/shared_cluster.go:251-333 | a resource is unknown with a given reason if and only if that reason holds of it, and no two reasons ever do |
| Rescans.ReportIsTrue | internal/cluster/shared_cluster.go:411-497 | what is present carries the reference and manifest of an object met under its key; what is missing carries its own id, type and name, and its key exactly if its namespace is resolved or none was assumed |
| Rescans.RecordDiscovered | internal/cluster/shared_cluster.go:411-451 | desired objects become present, all others children, each child with its final root although the map is still partial |
| Rescans.DetectMissing | internal/cluster/shared_cluster.go:453-495 | what is neither present nor refused is unknown if its type is unreadable and missing otherwise |
| Rescans.GetMonitoredResources | internal/cluster/shared_cluster.go:234-498 | fails exactly when the cache does; otherwise classifies every desired resource and finds every child as specified |
| Rescans.RootsAreFinal | internal/cluster/shared_cluster.go:411-450 | in traversal order the root found for a child is its root over all children, and no child |
| Rescans.ClassificationIsTotal | internal/cluster/shared_cluster.go:453-497 | present, missing and unknown cover every desired id, and missing is disjoint from the others |
| Rescans.MissingIsJustified | internal/cluster/shared_cluster.go:251-333 | a resource is missing if and only if it was not reached and was observable, or its type is gone from a full discovery |
| Rescans.RescanIsConsistentIff | internal/cluster/shared_cluster.go:421-435 | a rescan leaves the instance consistent if and only if no refused resource was reached anyway |
| Rescans.BatchIsNamespaced | internal/cluster/shared_cluster.go:276-367 | in namespace-scoped mode every manifest in the batch names a configured namespace and has a known type |
| RescanTruth.RescanTellsTheTruth | internal/cluster/shared_cluster.go:335-497 | over a cache that answers truthfully, a resource within reach is present as its live object if there is one, and missing if there is none and its type is readable |
| RescanTruth.TruthfulRescanIsComplete | internal/cluster/shared_cluster.go:369-451 | over such a cache a rescan meets exactly what hangs from its settled resources, which is what the agreement of runs with rescans relies on |
| Targets.DeltaCoversIncomingIff | internal/cluster/cluster_state.go:102-134 | the merge delta speaks of exactly the incoming ids still desired, for every set of incoming ids, if and only if the instance is totally classified |
| Targets.RescanIsTotal | internal/cluster/cluster_state.go:96-100 | which is how a successful rescan leaves it |
| ClusterStates.MergeReportIsExact | internal/cluster/cluster_state.go:80-144 | after any successful merge the report covers exactly the incoming ids still desired, the root of every child in it is a present resource in it and no child, and whole trees are brought |
| ClusterStates.ClusterState.PublishInterests | internal/cluster/cluster_state.go:308-322 | the index then holds for the target exactly the keys of interest of all its instances |
| ClusterStates.ClusterState.ApplyResourceChange | internal/cluster/cluster_state.go:192-257 | every instance sees the change, updates are exactly the instances', and the target republishes only if there are any |
| ClusterStates.ClusterState.Rescan | internal/cluster/cluster_state.go:259-277 | publishes before syncing and again on success; a failed sync changes nothing; a failed look keeps only resolved namespaces, unpublished |
| ClusterStates.ClusterState.MonitoredResourceUpdates | internal/cluster/cluster_state.go:167-190 | each instance that could look reports everything it monitors, the others nothing, and the target republishes |
| ClusterStates.ClusterState.MergeDesiredResources | internal/cluster/cluster_state.go:80-144 | only the named instance changes: merged, then rescanned; the answer is the delta of the incoming ids, or none on failure |
| ClusterStates.ClusterState.ReplaceDesiredResources | internal/cluster/cluster_state.go:146-165 | only the named instance changes: replaced, then rescanned; the answer is everything it monitors, or none on failure |
| ClusterStates.ClusterState.DeleteDesiredResources | internal/cluster/cluster_state.go:71-78 | an unknown instance is ignored and not published; a known one loses the ids and is published |
| ClusterStates.ClusterState.DeleteDesiredResourcesExceptForVersion | internal/cluster/cluster_state.go:62-69 | the same for the resources of other versions |
| ClusterStates.DeltaOf | internal/cluster/cluster_state.go:102-143 | the loops compute the specified delta |
| Routing.NothingIsMissedIff | internal/cluster/resource_interests.go:153-185 | for every set of interests: no change that is not routed would have mattered to the target, if and only if its interests include every key at which something can happen |
| Routing.PublishedIsEnough | internal/cluster/application_instance.go:421-436 | while children are tracked, what a target publishes includes every such key |
| Routing.RoutingRefinesBroadcast | internal/cluster/cluster_state.go:192-210 | in any run, routing with republication after updates leaves the same state and reports the same updates in the same order as sending every change to the target |
| Routing.NothingElseIsPublished | internal/cluster/application_instance.go:421-436 | a consistent, well-keyed instance publishes exactly those keys and the keys of unknown resources |
| Routing.InstancesGoTheirOwnWay | internal/cluster/cluster_state.go:212-257 | in any run each instance of a target ends where the announcements alone take it, and exactly its own updates are reported about it, in order |
| Routing.FailedRescanMissesNothingIff | internal/cluster/cluster_state.go:265-275 | after a failed rescan nothing is missed if and only if every key to which a present or missing resource moved was already of interest |
| Routing.FailedRescanCanMissACreation | internal/cluster/cluster_state.go:270-275 | a concrete missing resource whose creation is not routed after a failed rescan |
| Pipelines.CarefulRunsStayCurrent | internal/cluster/cluster.go:105-117 | however announcements, listings, publications, deliveries and rescans interleave, the pipeline stays current as long as rescans find only safe changes pending and announcements about what instances report are routed |
| Pipelines.CoveredRunsAreCareful | internal/cluster/cluster_state.go:308-322 | between rescans it is enough that everything the instances say something about is published |
| Pipelines.DrainedIsUpToDate | internal/cluster/resource_changes.go:40-78 | once the queue has drained, every instance reflects the live cluster |
| Pipelines.CarefulLifeIsUpToDate | internal/cluster/cluster.go:80-106 | any careful part of a target's life, from its creation, ends with every instance reflecting the live cluster once the queue has drained |
| Pipelines.NothingGoesWrongIff | internal/cluster/resource_changes.go:60-76 | no schedule up to the next rescan can drain the queue and leave an instance not reflecting the live cluster, if and only if the pipeline is current and everything its instances say something about is published |
| Pipelines.RescanIsHarmlessIff | internal/cluster/cluster_state.go:259-277 | if nothing could go wrong before a rescan, nothing can after it if and only if what is pending is safe and what it came to say something about had been published |
| Pipelines.RunsAgreeWithRescans | internal/cluster/application_instance.go:138-275 | from one rescan, any run of deliveries leads to the present and missing resources another rescan finds at the end, if the same resources are unknown |
| Pipelines.RescanIsCurrentIff | internal/cluster/application_instance.go:250-275 | a rescan leaves its instance current if and only if every change pending for what it found leads to what is live and, where something is live, has an old side |
| PipelineRaces.RescanCanLoseADeletion | internal/cluster/resource_changes.go:60-66 | for every desired resource, a run of a new target, careful but for one rescan while an addition is queued, that ends with a deleted resource still shown |
| PipelineRaces.RekeyingRescanCanMissACreation | internal/cluster/cluster_state.go:167-190 | for every desired resource that resolution re-keys, a run of a new target, careful but for one announcement between a rescan and the next publication, that ends with a live resource not shown |
| Pipelines.RescanReflects | internal/cluster/shared_cluster.go:374-451 | a rescan over a faithful traversal reflects the live cluster |
| ActorTopology.StepStaysSound | internal/cluster/mailbox.go:22-47 | every step keeps each goroutine within its rules and each asker waiting exactly for the one that works on its behalf |
| ActorTopology.EveryWaitLeadsToProgress | internal/cluster/resource_interests.go:56-82 | whoever waits, waits through a chain of falling levels for a goroutine that can go on by itself |
| ActorTopology.StuckMeansFinished | internal/cluster/resource_changes.go:23-25 | nothing can go on by itself if and only if every goroutine is idle and every queue ready; then the lock is free |
| ActorTopology.EverythingBegunFinishes | internal/cluster/mailbox.go:33-47 | from anything reachable, in whatever order goroutines run, a bounded number of steps finishes everything begun, without help from cancellation |
| ActorTopology.EachOperationRunsOnce | internal/cluster/mailbox.go:10-47 | in every run each accepted operation begins once, its goroutine runs one at a time, and once the goroutine is idle the operation has ended |
| ActorTopology.OperationsAreAllowed | internal/cluster/cluster_list.go:115-178 | commands that bring in or delete resources, sweeps, watch events and deliveries keep to the rules for any number of targets, instances and resources, and wherever they fail on the way |
| ActorTopology.RescanUses | internal/cluster/cluster_state.go:259-277 | a rescan's script publishes twice, populates each listed resource, and takes and releases the cache's lock four times |
| ActorTopology.EveryTargetIsAsked | internal/cluster/cluster_list.go:147-163 | a sweep's script asks every target |
| ActorTopology.EveryRecipientIsHanded | internal/cluster/resource_interests.go:174-182 | routing's script hands the change to every recipient |
| ActorTopology.CallingBackWouldDeadlock | internal/cluster/resource_interests.go:56-57 | were the index to call back into the cache, it and a watch event could wait for each other for ever |
| CircularBuffers.CircularBuffer.Write | internal/cluster/buffer.go:18-29 | whatever the chunks, the buffer stands for the concatenation of everything written |
| CircularBuffers.CircularBuffer.Bytes | internal/cluster/buffer.go:31-40 | the last min(total, capacity) bytes of everything written, or capacity zero bytes if nothing was |
| LogLines.SplitThenJoin | internal/cluster/cluster.go:347-347 | splitting loses nothing and leaves no newline inside a line |
| LogLines.SplitAcrossCut | internal/cluster/cluster.go:345-347 | cutting a text touches only the line that straddles the cut |
| LogLines.JoinThenSplit | internal/cluster/cluster.go:347-347 | lines without newlines survive being joined and split again |
| LogLines.ReceivedToFirstError | internal/cluster/cluster.go:325-343 | what is kept of a stream is all data up to and including the first read with an error, and the log can't be had if and only if that error is not the end of the file |
| LogLines.TruncationKeepsWholeLines | internal/cluster/cluster.go:325-347 | the retained lines are a suffix of the stream's, except that the first may have lost its beginning |
| LogLines.ParseLines | internal/cluster/cluster.go:351-372 | the loop skips empty lines, forgives a malformed first one and stops at any other |
| LogLines.LineReadsIff | internal/cluster/cluster.go:375-382 | a line yields a timestamp and message if and only if it is a parseable stamp without a space, a space, and that message |
| LogLines.ParseSucceedsIff | internal/cluster/cluster.go:351-372 | a parse succeeds if and only if every line is empty or can be read |
| LogLines.ParseStopsAt | internal/cluster/cluster.go:360-366 | otherwise it stops at the first line that can't be read, with the lines before it |
| LogLines.ParseInOrder | internal/cluster/cluster.go:351-372 | parsing two texts' lines is parsing the second after the first, unless the first fails |
| LogLines.FirstIsLenient | internal/cluster/cluster.go:351-363 | only a first line that can't be read is passed over |
| LogLines.WrittenLogIsReadBack | internal/cluster/cluster.go:325-373 | a log of stamped and blank lines that fits the buffer is read back entry by entry, for any clock |
| LogLines.ParseLogs | internal/cluster/cluster.go:325-373 | the lines of the last bytes of the stream, whole and in order after the first, whatever the read sizes; an error of the stream yields no lines |
| LogLines.ZerosAreOneMalformedLine | internal/cluster/buffer.go:31-40 | the zero bytes of an unwritten buffer are one line that yields nothing |

## Left out

- ClusterStates.ClusterState.MergeDesiredResources: does not cover an id sent again under another key while its stored twin stays unresolved, because the rescan's contract relies on distinct ids; if the pass resolves the twin to the same key it is covered.
- Publication failures: a publication refused because its context ended is only logged by the original; here every publication is accepted.
- Stopping: the whole monitor's shutdown is modelled only where `Route` and the queue's loop return early.
- Fairness between goroutines: `ActorTopology` bounds internal steps and shows no deadlock, but does not say which ready goroutine runs first or that new requests leave room.
- Children in the pipeline: `Pipelines` speaks of desired resources; `ChildTracking` speaks of children along the deliveries themselves, not of the index and queue before them.
- Shared names of owners: `ChildTracking` compares stored owners only where the first owner has a UID, since a rescan and an update look for one without a UID in different places.
- Deletions in the pipeline: after a deletion an instance is inconsistent until its next rescan, so `Pipelines` has no such step; the deletion lemmas of `InstanceProperties` say what holds meanwhile.
- The cache's two reads during a rescan are one step in `Pipelines`; `ActorTopology` keeps them apart.
- Ownership of published Go maps: the index's nested maps are values here, so the original's aliasing hazard when a caller keeps a published map is not expressible.
- Subscribers are a set of targets; that each channel belongs to one queue is not modelled.
- Slices of updates are maps by id or key, since their order is that of Go map iteration.
- API versions are modelled by what parsing them yields; only group, version and well-formedness matter to the code modelled.
- Health, sync status, sanitised manifests, salts, ignored fields and orphan timestamps: copied into reports without affecting which resources are reported.
- Messages of unknown resources are modelled by their reason.
- `NewPresentMonitoredResource` and `NewChildMonitoredResource` never fail here, so the branches that skip a resource on their error are absent.
- `Cluster.MergeDesiredResources` ignoring an empty delta, and the hand-over of updates to the updater: one-branch wrappers.
- Integers of the circular buffer are unbounded; a Go slice cannot be long enough for its indices to overflow.
- `ClusterList` beyond its waits, gRPC streams, configuration, certificates, profiling, tracing and logging: wiring around libraries that are not part of this model.
- The gitops-engine cache, discovery client, dynamic client and diffing are not part of this model; they are the oracles above.
