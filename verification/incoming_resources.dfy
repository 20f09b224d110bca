/** Finding out which of the resources a command brings in live in a namespace. */
module IncomingResources {
  import opened Kubernetes
  import opened DesiredResources
  import opened Instances

  /** What discovery answers each time it is asked afresh. */
  type Discovery = nat -> NamespacedMap

  /** An incoming resource is tried against one answer and, if that leaves it unresolved, against the next. */
  function ResolveTwice(d: Desired, discovery: Discovery, n: nat): Desired {
    d.Resolve(discovery(n)).Resolve(discovery(n + 1))
  }

  function ResolveEach(before: DesiredMap, discovery: Discovery, asked: map<ResourceKey, nat>): DesiredMap {
    map k | k in before && k in asked :: ResolveTwice(before[k], discovery, asked[k])
  }

  /** The entries under their current keys, resolved or not; of several with the same key one survives. */
  ghost predicate KeyedAfresh(entries: DesiredMap, after: DesiredMap) {
    && (forall j {:trigger HasPlace(entries, after.Keys, j)} :: j in entries ==> HasPlace(entries, after.Keys, j))
    && (forall k {:trigger IsEntry(entries, after[k], k)} :: k in after ==> IsEntry(entries, after[k], k))
  }

  predicate HasPlace(entries: DesiredMap, keys: set<ResourceKey>, j: ResourceKey)
    requires j in entries
  {
    entries[j].Key() in keys
  }

  ghost predicate IsEntry(entries: DesiredMap, d: Desired, key: ResourceKey) {
    d.Key() == key && exists j :: j in entries && entries[j] == d
  }

  ghost predicate Retried(before: DesiredMap, discovery: Discovery, asked: map<ResourceKey, nat>, after: DesiredMap) {
    asked.Keys == before.Keys && KeyedAfresh(ResolveEach(before, discovery, asked), after)
  }

  /** Incoming resources end up keyed by their current keys, as settled as they came and with ids as distinct. */
  lemma RetriedIsWellKeyed(before: DesiredMap, discovery: Discovery, asked: map<ResourceKey, nat>, after: DesiredMap)
    requires Retried(before, discovery, asked, after)
    ensures WellKeyed(after) && Ids(after) <= Ids(before)
    ensures AllSettled(before) ==> AllSettled(after)
    ensures DistinctIds(before) ==> DistinctIds(after)
  {
    var entries := ResolveEach(before, discovery, asked);
    forall j | j in entries
      ensures entries[j].id == before[j].id && (before[j].NamespaceIsSettled() ==> entries[j].NamespaceIsSettled())
    {
      ResolveTwiceKeeps(before[j], discovery, asked[j]);
    }
    KeyedAfreshKeeps(before, entries, after);
  }

  lemma ResolveTwiceKeeps(d: Desired, discovery: Discovery, n: nat)
    ensures ResolveTwice(d, discovery, n).id == d.id
    ensures d.NamespaceIsSettled() ==> ResolveTwice(d, discovery, n).NamespaceIsSettled()
  {
  }

  lemma KeyedAfreshKeeps(before: DesiredMap, entries: DesiredMap, after: DesiredMap)
    requires entries.Keys == before.Keys && KeyedAfresh(entries, after)
    requires forall j :: j in entries ==> entries[j].id == before[j].id
    requires forall j :: j in entries && before[j].NamespaceIsSettled() ==> entries[j].NamespaceIsSettled()
    ensures WellKeyed(after) && Ids(after) <= Ids(before)
    ensures AllSettled(before) ==> AllSettled(after)
    ensures DistinctIds(before) ==> DistinctIds(after)
  {
    forall k | k in after
      ensures after[k].Key() == k && exists j :: j in before && entries[j] == after[k] && before[j].id == after[k].id
    {
      assert IsEntry(entries, after[k], k);
    }
  }

  /** The first of the two answers that knows the entry's type. */
  function Deciding(d: Desired, discovery: Discovery, n: nat): Option<NamespacedMap> {
    if d.typeMeta in discovery(n) then Some(discovery(n))
    else if d.typeMeta in discovery(n + 1) then Some(discovery(n + 1))
    else None
  }

  /** The entry as it should be once it has been tried against the n-th answer and, if need be, the next. */
  predicate EndsAs(d: Desired, discovery: Discovery, n: nat, r: Desired) {
    SettledBy(d, Deciding(d, discovery, n), r)
  }

  ghost predicate WasSent(before: DesiredMap, discovery: Discovery, asked: map<ResourceKey, nat>, r: Desired)
    requires asked.Keys == before.Keys
  {
    exists j :: j in before && EndsAs(before[j], discovery, asked[j], r)
  }

  ghost predicate HasCome(d: Desired, discovery: Discovery, n: nat, after: DesiredMap) {
    exists r: Desired :: EndsAs(d, discovery, n, r) && r.Key() in after
  }

  /** What is brought in: each entry is one that was sent, settled if either answer knows its type and otherwise as it
      was, and every entry that was sent has a place under the key this gives it. */
  lemma RetriedIsSettled(before: DesiredMap, discovery: Discovery, asked: map<ResourceKey, nat>, after: DesiredMap)
    requires Retried(before, discovery, asked, after) && forall j :: j in before ==> before[j].Fresh()
    ensures forall k :: k in after ==> WasSent(before, discovery, asked, after[k])
    ensures forall j :: j in before ==> HasCome(before[j], discovery, asked[j], after)
  {
    var entries := ResolveEach(before, discovery, asked);
    forall j | j in before ensures HasCome(before[j], discovery, asked[j], after) {
      TriedTwiceIsSettled(before[j], discovery, asked[j]);
      assert HasPlace(entries, after.Keys, j);
    }
    forall k | k in after ensures WasSent(before, discovery, asked, after[k]) {
      assert IsEntry(entries, after[k], k);
      var j :| j in entries && entries[j] == after[k];
      TriedTwiceIsSettled(before[j], discovery, asked[j]);
    }
  }

  predicate SettledBy(d: Desired, answer: Option<NamespacedMap>, r: Desired)
    requires answer.Some? ==> d.typeMeta in answer.value
  {
    SameIdentity(d, r) && if answer.Some? then SettledAs(d, r, answer.value[d.typeMeta]) else r == d
  }

  lemma TriedTwiceIsSettled(d: Desired, discovery: Discovery, n: nat)
    requires d.Fresh()
    ensures EndsAs(d, discovery, n, ResolveTwice(d, discovery, n))
  {
    var passes, first := [discovery(n), discovery(n + 1)], d.Resolve(discovery(n));
    assert passes[1..] == [discovery(n + 1)] && passes[1..][1..] == [];
    assert ResolveThrough(first, passes[1..]) == first.Resolve(discovery(n + 1));
    FirstKnowingPassDecides(d, passes);
    if d.typeMeta in discovery(n) {
      assert Decides(d, passes, 0);
    } else if d.typeMeta in discovery(n + 1) {
      assert Decides(d, passes, 1);
    }
  }

  /** The entry was left unresolved by the n-th answer, so that another was asked for. */
  predicate UnresolvedBy(before: DesiredMap, discovery: Discovery, asked: map<ResourceKey, nat>, k: ResourceKey,
                         n: nat)
  {
    k in before && k in asked && asked[k] == n && !before[k].CanResolve(discovery(n))
  }

  ghost predicate OnlyUnresolved(before: DesiredMap, discovery: Discovery, asked: map<ResourceKey, nat>, n: nat,
                                 k: ResourceKey)
  {
    forall j :: UnresolvedBy(before, discovery, asked, j, n) <==> j == k
  }

  ghost predicate Replaced(before: DesiredMap, discovery: Discovery, asked: map<ResourceKey, nat>, n: nat) {
    exists k :: OnlyUnresolved(before, discovery, asked, n, k)
  }

  /** Discovery was asked afresh once for each entry the latest answer left unresolved, and not otherwise. */
  ghost predicate AskedInTurn(before: DesiredMap, discovery: Discovery, asked: map<ResourceKey, nat>, answers: nat) {
    && (forall n: nat :: n < answers ==> Replaced(before, discovery, asked, n))
    && (forall k :: k in asked ==> asked[k] <= answers && !UnresolvedBy(before, discovery, asked, k, answers))
  }

  lemma OneMoreAsked(before: DesiredMap, discovery: Discovery, asked: map<ResourceKey, nat>, answers: nat,
                     key: ResourceKey)
    requires key in before && key !in asked && AskedInTurn(before, discovery, asked, answers)
    ensures AskedInTurn(before, discovery, asked[key := answers],
                        if before[key].CanResolve(discovery(answers)) then answers else answers + 1)
  {
    var now := asked[key := answers];
    forall n: nat | n < answers ensures Replaced(before, discovery, now, n) {
      assert Replaced(before, discovery, asked, n);
      var k :| OnlyUnresolved(before, discovery, asked, n, k);
      assert UnresolvedBy(before, discovery, asked, k, n);
      forall j ensures UnresolvedBy(before, discovery, now, j, n) <==> UnresolvedBy(before, discovery, asked, j, n) {
      }
      assert OnlyUnresolved(before, discovery, now, n, k);
    }
    if !before[key].CanResolve(discovery(answers)) {
      forall j ensures UnresolvedBy(before, discovery, now, j, answers) <==> j == key {
        assert j in asked ==> !UnresolvedBy(before, discovery, asked, j, answers);
      }
      assert OnlyUnresolved(before, discovery, now, answers, key) && Replaced(before, discovery, now, answers);
    }
  }

  /** Where each incoming entry has got to. */
  ghost predicate Tried(desired: map<ResourceKey, DesiredResource>, objects: set<DesiredResource>, before: DesiredMap,
                        discovery: Discovery, asked: map<ResourceKey, nat>)
    reads objects
  {
    && before.Keys == desired.Keys && asked.Keys <= before.Keys
    && (forall k :: k in desired ==>
          TriedAt(desired[k], objects, before[k], discovery, if k in asked then Some(asked[k]) else None))
  }

  ghost predicate TriedAt(entry: DesiredResource, objects: set<DesiredResource>, before: Desired, discovery: Discovery,
                          at: Option<nat>)
    reads objects
  {
    entry in objects && entry.View() == if at.Some? then ResolveTwice(before, discovery, at.value) else before
  }

  ghost predicate NotShared(desired: map<ResourceKey, DesiredResource>) {
    forall j, k :: j in desired && k in desired && desired[j] == desired[k] ==> j == k
  }

  /** The resolved map so far: each entry tried is under its own key, or lost its place to another. */
  ghost predicate Collected(desired: map<ResourceKey, DesiredResource>, entries: DesiredMap,
                            source: map<ResourceKey, ResourceKey>, resolved: map<ResourceKey, DesiredResource>)
  {
    && source.Keys == resolved.Keys && entries.Keys <= desired.Keys
    && (forall j {:trigger HasPlace(entries, resolved.Keys, j)} :: j in entries ==> HasPlace(entries, resolved.Keys, j))
    && (forall k {:trigger CollectedAt(desired, entries, source[k], resolved[k], k)} ::
          k in resolved ==> CollectedAt(desired, entries, source[k], resolved[k], k))
  }

  ghost function AsResolved(entries: DesiredMap, source: map<ResourceKey, ResourceKey>): DesiredMap {
    map k | k in source && source[k] in entries :: entries[source[k]]
  }

  ghost predicate CollectedAt(desired: map<ResourceKey, DesiredResource>, entries: DesiredMap, from: ResourceKey,
                              entry: DesiredResource, key: ResourceKey)
  {
    from in entries && from in desired && entry == desired[from] && entries[from].Key() == key
  }

  /** Tries one entry against the latest answer, and once more against a fresh one. */
  method ResolveOrRetry(desired: map<ResourceKey, DesiredResource>, ghost objects: set<DesiredResource>,
                        ghost before: DesiredMap, discovery: Discovery, ghost asked: map<ResourceKey, nat>,
                        key: ResourceKey, answers: nat)
    returns (newKey: ResourceKey, nowAnswers: nat)
    requires key in desired && key !in asked && NotShared(desired) && Tried(desired, objects, before, discovery, asked)
    modifies objects
    ensures Tried(desired, objects, before, discovery, asked[key := answers])
    ensures newKey == ResolveTwice(before[key], discovery, answers).Key()
    ensures nowAnswers == if before[key].CanResolve(discovery(answers)) then answers else answers + 1
  {
    var entry := desired[key];
    assert TriedAt(entry, objects, before[key], discovery, None);
    var found := entry.ResolveNamespace(discovery(answers));
    ResolutionIsFinal(before[key], discovery(answers), discovery(answers + 1));
    nowAnswers := answers;
    if !entry.isNamespaceResolved {
      nowAnswers := answers + 1;
      found := entry.ResolveNamespace(discovery(nowAnswers));
    }
    newKey := entry.ResourceKey();
    var now := asked[key := answers];
    forall k | k in desired
      ensures TriedAt(desired[k], objects, before[k], discovery, if k in now then Some(now[k]) else None)
    {
      assert old(TriedAt(desired[k], objects, before[k], discovery, if k in asked then Some(asked[k]) else None));
      assert k != key ==> desired[k] != entry;
    }
  }

  /** Tries the entries one after another, and puts each under its own key. */
  method TryEach(desired: map<ResourceKey, DesiredResource>, ghost objects: set<DesiredResource>,
                 ghost before: DesiredMap, discovery: Discovery)
    returns (resolved: map<ResourceKey, DesiredResource>, ghost asked: map<ResourceKey, nat>,
             ghost source: map<ResourceKey, ResourceKey>, answers: nat)
    requires NotShared(desired) && Tried(desired, objects, before, discovery, map[])
    modifies objects
    ensures asked.Keys == desired.Keys && Tried(desired, objects, before, discovery, asked)
    ensures Collected(desired, ResolveEach(before, discovery, asked), source, resolved)
    ensures AskedInTurn(before, discovery, asked, answers)
  {
    resolved, asked, source, answers := map[], map[], map[], 0;
    var todo := desired.Keys;
    ghost var entries: DesiredMap := map[];
    assert ResolveEach(before, discovery, asked) == entries;
    while todo != {}
      invariant todo <= desired.Keys && asked.Keys == desired.Keys - todo
      invariant Tried(desired, objects, before, discovery, asked)
      invariant entries == ResolveEach(before, discovery, asked)
      invariant AskedInTurn(before, discovery, asked, answers)
      invariant Collected(desired, entries, source, resolved)
    {
      var key :| key in todo;
      ghost var at, result := answers, ResolveTwice(before[key], discovery, answers);
      OneMoreAsked(before, discovery, asked, answers, key);
      var newKey;
      newKey, answers := ResolveOrRetry(desired, objects, before, discovery, asked, key, answers);
      OneMore(before, discovery, asked, key, at);
      CollectOne(desired, entries, source, resolved, key, result);
      todo, asked, entries := todo - {key}, asked[key := at], entries[key := result];
      resolved, source := resolved[newKey := desired[key]], source[newKey := key];
    }
  }

  /** Resolves incoming resources in place, asking discovery again for each one it does not know. */
  method ResolveIncoming(desired: map<ResourceKey, DesiredResource>, ghost objects: set<DesiredResource>,
                         ghost before: DesiredMap, discovery: Discovery)
    returns (resolved: map<ResourceKey, DesiredResource>, ghost asked: map<ResourceKey, nat>, ghost after: DesiredMap)
    requires Viewed(desired, objects, before) && NotShared(desired)
    modifies objects
    ensures Viewed(resolved, objects, after) && Retried(before, discovery, asked, after)
    ensures exists answers: nat :: AskedInTurn(before, discovery, asked, answers)
  {
    forall k | k in desired ensures TriedAt(desired[k], objects, before[k], discovery, None) {
      assert EntryViewed(desired[k], objects, before[k]);
    }
    ghost var source;
    var answers;
    resolved, asked, source, answers := TryEach(desired, objects, before, discovery);
    after := AsResolved(ResolveEach(before, discovery, asked), source);
    AllCollected(desired, ResolveEach(before, discovery, asked), source, resolved);
    CollectedIsViewed(desired, objects, before, discovery, asked, source, resolved);
  }

  lemma OneMore(before: DesiredMap, discovery: Discovery, asked: map<ResourceKey, nat>, key: ResourceKey, at: nat)
    requires key in before
    ensures ResolveEach(before, discovery, asked[key := at]) ==
            ResolveEach(before, discovery, asked)[key := ResolveTwice(before[key], discovery, at)]
  {
  }

  lemma CollectOne(desired: map<ResourceKey, DesiredResource>, entries: DesiredMap,
                   source: map<ResourceKey, ResourceKey>, resolved: map<ResourceKey, DesiredResource>, key: ResourceKey,
                   d: Desired)
    requires key in desired && key !in entries && Collected(desired, entries, source, resolved)
    ensures Collected(desired, entries[key := d], source[d.Key() := key], resolved[d.Key() := desired[key]])
  {
    var moreEntries, moreSource, more := entries[key := d], source[d.Key() := key], resolved[d.Key() := desired[key]];
    forall k | k in more ensures CollectedAt(desired, moreEntries, moreSource[k], more[k], k) {
      assert k != d.Key() ==> CollectedAt(desired, entries, source[k], resolved[k], k);
    }
    forall j | j in moreEntries ensures HasPlace(moreEntries, more.Keys, j) {
      assert j != key ==> HasPlace(entries, resolved.Keys, j);
    }
  }

  lemma AllCollected(desired: map<ResourceKey, DesiredResource>, entries: DesiredMap,
                     source: map<ResourceKey, ResourceKey>, resolved: map<ResourceKey, DesiredResource>)
    requires Collected(desired, entries, source, resolved)
    ensures AsResolved(entries, source).Keys == resolved.Keys && KeyedAfresh(entries, AsResolved(entries, source))
  {
    var after := AsResolved(entries, source);
    forall k | k in resolved ensures k in after && IsEntry(entries, after[k], k) {
      assert CollectedAt(desired, entries, source[k], resolved[k], k);
      assert entries[source[k]] == after[k];
    }
    forall j | j in entries ensures HasPlace(entries, after.Keys, j) {
      assert HasPlace(entries, resolved.Keys, j);
    }
  }

  lemma CollectedIsViewed(desired: map<ResourceKey, DesiredResource>, objects: set<DesiredResource>, before: DesiredMap,
                          discovery: Discovery, asked: map<ResourceKey, nat>, source: map<ResourceKey, ResourceKey>,
                          resolved: map<ResourceKey, DesiredResource>)
    requires Tried(desired, objects, before, discovery, asked)
    requires Collected(desired, ResolveEach(before, discovery, asked), source, resolved)
    requires AsResolved(ResolveEach(before, discovery, asked), source).Keys == resolved.Keys
    ensures Viewed(resolved, objects, AsResolved(ResolveEach(before, discovery, asked), source))
  {
    var entries := ResolveEach(before, discovery, asked);
    forall k | k in resolved ensures EntryViewed(resolved[k], objects, AsResolved(entries, source)[k]) {
      var j := source[k];
      assert CollectedAt(desired, entries, j, resolved[k], k);
      assert TriedAt(desired[j], objects, before[j], discovery, Some(asked[j]));
    }
  }
}
