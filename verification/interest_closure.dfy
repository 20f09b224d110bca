/** What the index holds after any run of publications and populations: an ownership closure computed online. */
module InterestClosure {
  import opened FiniteSets
  import opened Kubernetes
  import opened InterestIndexes

  // ---------- isolation between targets ----------

  /** Publishing nothing leaves no trace of the target in routing, and everyone else is routed to as before. */
  lemma WithdrawnTargetLeavesNoTrace(m: Interests, target: ClusterId, change: ResourceChange)
    ensures Recipients(Publish(m, target, {}), change) == Recipients(m, change) - {target}
  {
    var concerns := Concerns(change.newRes) + Concerns(change.oldRes);
    forall t | t in m && t != target
      ensures t in InterestedIn(Publish(m, target, {}), concerns) <==> t in InterestedIn(m, concerns)
    {
      assert Publish(m, target, {})[t] == m[t];
    }
  }

  /** A target's publication never changes what another target receives. */
  lemma PublishingIsPrivate(m: Interests, target: ClusterId, keys: set<ResourceKey>, change: ResourceChange)
    ensures Recipients(Publish(m, target, keys), change) - {target} == Recipients(m, change) - {target}
  {
    var concerns := Concerns(change.newRes) + Concerns(change.oldRes);
    forall t | t in m && t != target
      ensures t in InterestedIn(Publish(m, target, keys), concerns) <==> t in InterestedIn(m, concerns)
    {
      assert Publish(m, target, keys)[t] == m[t];
    }
  }

  // ---------- the index as a whole ----------

  /** The closure step: a resource joins when one of its owners is in. */
  function Grow(keys: set<ResourceKey>, info: ResourceInfo): set<ResourceKey> {
    if Owners(info) * keys != {} then keys + {info.key} else keys
  }

  function GrowAll(keys: set<ResourceKey>, infos: seq<ResourceInfo>): set<ResourceKey>
    decreases |infos|
  {
    if infos == [] then keys else GrowAll(Grow(keys, infos[0]), infos[1..])
  }

  function PopulateAll(m: Interests, infos: seq<ResourceInfo>): Interests {
    if infos == [] then m else PopulateAll(Populate(m, infos[0], false), infos[1..])
  }

  /** Although a population stops at a key some target already holds, the index as a whole grows as if it did not. */
  lemma PopulateGrowsTheIndex(m: Interests, info: ResourceInfo)
    ensures AllKeys(Populate(m, info, false)) == Grow(AllKeys(m), info)
    ensures KeepsManifest(m, info, false) <==> info.key in Grow(AllKeys(m), info)
    ensures Populate(m, info, true) == m && (KeepsManifest(m, info, true) <==> info.key in AllKeys(m))
  {
    var heirs := InterestedIn(m, Owners(info));
    if t :| t in heirs {
      var k :| k in m[t] * Owners(info);
      assert k in Owners(info) * AllKeys(m);
    }
    if k :| k in Owners(info) * AllKeys(m) {
      var t :| t in m && k in m[t];
      assert k in m[t] * Owners(info);
      assert t in heirs;
    }
    var inherited := Inherit(m, info);
    forall k | k in AllKeys(inherited) ensures k in Grow(AllKeys(m), info) {
      var t :| t in inherited && k in inherited[t];
      assert k in m[t] || (t in heirs && k == info.key);
    }
    forall k | k in AllKeys(m) ensures k in AllKeys(inherited) {
      var t :| t in m && k in m[t];
      assert k in inherited[t];
    }
    if t :| t in heirs {
      assert info.key in inherited[t];
    }
  }

  lemma {:induction false} PopulateAllGrowsTheIndex(m: Interests, infos: seq<ResourceInfo>)
    ensures AllKeys(PopulateAll(m, infos)) == GrowAll(AllKeys(m), infos)
  {
    if infos != [] {
      PopulateGrowsTheIndex(m, infos[0]);
      PopulateAllGrowsTheIndex(Populate(m, infos[0], false), infos[1..]);
    }
  }

  lemma {:induction false} GrowAllAppend(keys: set<ResourceKey>, a: seq<ResourceInfo>, b: seq<ResourceInfo>)
    ensures GrowAll(keys, a + b) == GrowAll(GrowAll(keys, a), b)
    decreases |a|
  {
    if a == [] {
      assert a + b == b;
    } else {
      assert (a + b)[1..] == a[1..] + b;
      GrowAllAppend(Grow(keys, a[0]), a[1..], b);
    }
  }

  lemma {:induction false} GrowAllKeeps(keys: set<ResourceKey>, infos: seq<ResourceInfo>)
    ensures keys <= GrowAll(keys, infos)
    decreases |infos|
  {
    if infos != [] {
      GrowAllKeeps(Grow(keys, infos[0]), infos[1..]);
    }
  }

  // ---------- chains of owners ----------

  /** A chain of populations, in the order they happened, from a resource with an owner in base to key. */
  ghost predicate Chain(base: set<ResourceKey>, infos: seq<ResourceInfo>, links: seq<nat>, key: ResourceKey) {
    && links != []
    && (forall i, j :: 0 <= i < j < |links| ==> links[i] < links[j])
    && (forall i :: 0 <= i < |links| ==> links[i] < |infos|)
    && Owners(infos[links[0]]) * base != {}
    && (forall i :: 0 < i < |links| ==> infos[links[i - 1]].key in Owners(infos[links[i]]))
    && infos[links[|links| - 1]].key == key
  }

  lemma ExtendChain(base: set<ResourceKey>, infos: seq<ResourceInfo>, links: seq<nat>, key: ResourceKey, i: nat)
    requires Chain(base, infos, links, key)
    requires links[|links| - 1] < i < |infos| && key in Owners(infos[i])
    ensures Chain(base, infos, links + [i], infos[i].key)
  {
    var longer := links + [i];
    assert forall j :: 0 <= j < |links| ==> longer[j] == links[j] <= links[|links| - 1];
  }

  /** The online computation holds exactly the keys with a chain back to base. */
  lemma {:induction false} GrownKeysHaveChains(base: set<ResourceKey>, infos: seq<ResourceInfo>, key: ResourceKey)
    ensures key in GrowAll(base, infos) <==> key in base || exists links :: Chain(base, infos, links, key)
    decreases |infos|
  {
    if infos == [] {
      forall links ensures !Chain(base, infos, links, key) {
      }
    } else {
      var n := |infos| - 1;
      var before, last := infos[..n], infos[n];
      assert infos == before + [last];
      GrowAllAppend(base, before, [last]);
      assert [last][1..] == [] && GrowAll(GrowAll(base, before), [last]) == Grow(GrowAll(base, before), last);
      GrownKeysHaveChains(base, before, key);
      if links :| Chain(base, before, links, key) {
        assert Chain(base, infos, links, key);
      }
      if key == last.key {
        if owner :| owner in Owners(last) * GrowAll(base, before) {
          ChainThrough(base, infos, owner, key);
        }
      }
      forall links | Chain(base, infos, links, key) ensures key in GrowAll(base, infos) {
        ChainEndsInGrown(base, infos, links, key);
      }
    }
  }

  /** An owner reached earlier extends to a chain ending in the last population. */
  lemma ChainThrough(base: set<ResourceKey>, infos: seq<ResourceInfo>, owner: ResourceKey, key: ResourceKey)
    requires infos != [] && key == infos[|infos| - 1].key
    requires var n := |infos| - 1; owner in Owners(infos[n]) && owner in GrowAll(base, infos[..n])
    ensures exists links :: Chain(base, infos, links, key)
    decreases |infos|, 1
  {
    var n := |infos| - 1;
    GrownKeysHaveChains(base, infos[..n], owner);
    if owner in base {
      assert owner in Owners(infos[n]) * base;
      assert Chain(base, infos, [n], key);
    } else {
      var links :| Chain(base, infos[..n], links, owner);
      assert forall i :: 0 <= i < |links| ==> links[i] < n && infos[..n][links[i]] == infos[links[i]];
      assert Chain(base, infos, links, owner);
      ExtendChain(base, infos, links, owner, n);
    }
  }

  /** The end of a chain is in the closure. */
  lemma {:induction false} ChainEndsInGrown(base: set<ResourceKey>, infos: seq<ResourceInfo>, links: seq<nat>,
                                            key: ResourceKey)
    requires Chain(base, infos, links, key)
    ensures key in GrowAll(base, infos)
    decreases |links|
  {
    var l := |links| - 1;
    var at := links[l];
    var upTo := infos[..at];
    if l == 0 {
      GrowAllKeeps(base, upTo);
      assert Owners(infos[at]) * base <= Owners(infos[at]) * GrowAll(base, upTo);
    } else {
      var shorter := links[..l];
      var owner := infos[links[l - 1]].key;
      assert forall i :: 0 <= i < l ==> shorter[i] < at && upTo[shorter[i]] == infos[links[i]];
      assert Chain(base, upTo, shorter, owner);
      ChainEndsInGrown(base, upTo, shorter, owner);
      assert owner in Owners(infos[at]) * GrowAll(base, upTo);
    }
    assert infos == upTo + [infos[at]] + infos[at + 1..];
    GrowAllAppend(base, upTo + [infos[at]], infos[at + 1..]);
    GrowAllAppend(base, upTo, [infos[at]]);
    assert [infos[at]][1..] == [] && GrowAll(GrowAll(base, upTo), [infos[at]]) == Grow(GrowAll(base, upTo), infos[at]);
    GrowAllKeeps(GrowAll(base, upTo + [infos[at]]), infos[at + 1..]);
  }

  // ---------- a fixed set of objects, listed again and again ----------

  /** The keys at most d ownership steps below base. */
  function WithinDepth(base: set<ResourceKey>, objects: set<ResourceInfo>, d: nat): set<ResourceKey> {
    if d == 0 then base else OneDeeper(WithinDepth(base, objects, d - 1), objects)
  }

  function OneDeeper(above: set<ResourceKey>, objects: set<ResourceInfo>): set<ResourceKey> {
    above + set o | o in objects && Owners(o) * above != {} :: o.key
  }

  function KeysOfObjects(objects: set<ResourceInfo>): set<ResourceKey> {
    set o | o in objects :: o.key
  }

  ghost predicate Closed(keys: set<ResourceKey>, objects: set<ResourceInfo>) {
    forall o :: o in objects && Owners(o) * keys != {} ==> o.key in keys
  }

  /** A listing: every object at least once, in some order. */
  ghost predicate Lists(pass: seq<ResourceInfo>, objects: set<ResourceInfo>) {
    forall o :: o in pass <==> o in objects
  }

  /** Populating an object grows the closure whatever comes before or after it in the listing. */
  lemma ListedObjectJoins(keys: set<ResourceKey>, pass: seq<ResourceInfo>, o: ResourceInfo)
    requires o in pass && Owners(o) * keys != {}
    ensures o.key in GrowAll(keys, pass)
  {
    var i :| 0 <= i < |pass| && pass[i] == o;
    var owner :| owner in Owners(o) * keys;
    assert owner in Owners(pass[i]) * keys;
    assert Chain(keys, pass, [i], o.key);
    ChainEndsInGrown(keys, pass, [i], o.key);
  }

  function Flatten(passes: seq<seq<ResourceInfo>>): seq<ResourceInfo> {
    if passes == [] then [] else Flatten(passes[..|passes| - 1]) + passes[|passes| - 1]
  }

  /** Each complete listing, in any order, reaches at least one ownership step further. */
  lemma {:induction false} PassesReachDepth(base: set<ResourceKey>, objects: set<ResourceInfo>,
                                            passes: seq<seq<ResourceInfo>>)
    requires forall p :: p in passes ==> Lists(p, objects)
    ensures WithinDepth(base, objects, |passes|) <= GrowAll(base, Flatten(passes))
    decreases |passes|
  {
    if passes != [] {
      var d := |passes| - 1;
      var last := passes[d];
      assert last in passes && forall p :: p in passes[..d] ==> p in passes;
      PassesReachDepth(base, objects, passes[..d]);
      var reached := GrowAll(base, Flatten(passes[..d]));
      GrowAllAppend(base, Flatten(passes[..d]), last);
      GrowAllKeeps(reached, last);
      var above := WithinDepth(base, objects, d);
      forall o | o in objects && Owners(o) * above != {} ensures o.key in GrowAll(reached, last) {
        assert Owners(o) * above <= Owners(o) * reached;
        ListedObjectJoins(reached, last, o);
      }
    }
  }

  /** Nothing outside a closed set is ever reached. */
  lemma {:induction false} GrowthStaysClosed(keys: set<ResourceKey>, bound: set<ResourceKey>,
                                             objects: set<ResourceInfo>, infos: seq<ResourceInfo>)
    requires keys <= bound && Closed(bound, objects)
    requires forall o :: o in infos ==> o in objects
    ensures GrowAll(keys, infos) <= bound
    decreases |infos|
  {
    if infos != [] {
      assert infos[0] in infos && Owners(infos[0]) * keys <= Owners(infos[0]) * bound;
      assert forall o :: o in infos[1..] ==> o in infos;
      GrowthStaysClosed(Grow(keys, infos[0]), bound, objects, infos[1..]);
    }
  }

  lemma {:induction false} FlattenFrom(passes: seq<seq<ResourceInfo>>, objects: set<ResourceInfo>)
    requires forall p :: p in passes ==> Lists(p, objects)
    ensures forall o :: o in Flatten(passes) ==> o in objects
    decreases |passes|
  {
    if passes != [] {
      var d := |passes| - 1;
      assert passes[d] in passes && forall p :: p in passes[..d] ==> p in passes;
      FlattenFrom(passes[..d], objects);
    }
  }

  /** Ownership is never deeper than there are objects. */
  lemma DepthIsBounded(base: set<ResourceKey>, objects: set<ResourceInfo>)
    ensures Closed(WithinDepth(base, objects, |objects|), objects)
  {
    StepsAddOrStop(base, objects, |objects|);
    var all := WithinDepth(base, objects, |objects|);
    if !Closed(all, objects) {
      var keys := KeysOfObjects(objects);
      ImageNoLarger(objects);
      var o :| o in objects && Owners(o) * all != {} && o.key !in all;
      assert all - base <= keys - {o.key};
      SubsetNoLarger(all - base, keys - {o.key});
      assert false;
    }
  }

  /** Until the closure is complete, every step adds a key. */
  lemma {:induction false} StepsAddOrStop(base: set<ResourceKey>, objects: set<ResourceInfo>, d: nat)
    ensures var within := WithinDepth(base, objects, d);
            && base <= within
            && within - base <= KeysOfObjects(objects)
            && (Closed(within, objects) || |within - base| >= d)
  {
    if d > 0 {
      StepsAddOrStop(base, objects, d - 1);
      CountGrows(base, WithinDepth(base, objects, d - 1), objects, d);
    }
  }

  lemma CountGrows(base: set<ResourceKey>, above: set<ResourceKey>, objects: set<ResourceInfo>, d: nat)
    requires d > 0 && base <= above && above - base <= KeysOfObjects(objects)
    requires Closed(above, objects) || |above - base| >= d - 1
    ensures var within := OneDeeper(above, objects);
            && base <= within
            && within - base <= KeysOfObjects(objects)
            && (Closed(within, objects) || |within - base| >= d)
  {
    StepAddsOrStops(above, objects);
    if !Closed(above, objects) {
      var within := OneDeeper(above, objects);
      var k :| k in within && k !in above;
      assert |(above - base) + {k}| == |above - base| + 1;
      SubsetNoLarger((above - base) + {k}, within - base);
    }
  }

  lemma StepAddsOrStops(above: set<ResourceKey>, objects: set<ResourceInfo>)
    ensures above <= OneDeeper(above, objects) <= above + KeysOfObjects(objects)
    ensures if Closed(above, objects) then OneDeeper(above, objects) == above
            else exists k :: k in OneDeeper(above, objects) && k !in above
  {
    if !Closed(above, objects) {
      var o :| o in objects && Owners(o) * above != {} && o.key !in above;
      assert o.key in OneDeeper(above, objects);
    }
  }

  lemma {:induction false} ImageNoLarger(objects: set<ResourceInfo>)
    ensures |KeysOfObjects(objects)| <= |objects|
  {
    if x :| x in objects {
      var rest := objects - {x};
      ImageNoLarger(rest);
      assert KeysOfObjects(objects) == KeysOfObjects(rest) + {x.key};
    }
  }

  /** With no publication in between, as many complete listings as there are objects, each in any order, leave in
      the index exactly the ownership closure of what was published. */
  lemma ListingsConverge(m: Interests, objects: set<ResourceInfo>, passes: seq<seq<ResourceInfo>>)
    requires forall p :: p in passes ==> Lists(p, objects)
    ensures WithinDepth(AllKeys(m), objects, |passes|) <= AllKeys(PopulateAll(m, Flatten(passes)))
    ensures AllKeys(PopulateAll(m, Flatten(passes))) <= WithinDepth(AllKeys(m), objects, |objects|)
    ensures |passes| == |objects| ==>
              AllKeys(PopulateAll(m, Flatten(passes))) == WithinDepth(AllKeys(m), objects, |objects|)
  {
    var base := AllKeys(m);
    PopulateAllGrowsTheIndex(m, Flatten(passes));
    PassesReachDepth(base, objects, passes);
    DepthIsBounded(base, objects);
    StepsAddOrStop(base, objects, |objects|);
    FlattenFrom(passes, objects);
    GrowthStaysClosed(base, WithinDepth(base, objects, |objects|), objects, Flatten(passes));
  }

  /** Owners come first: whatever a listed object is owned by is not listed after it. */
  ghost predicate OwnersFirst(pass: seq<ResourceInfo>) {
    forall i, j :: 0 <= i < |pass| && 0 <= j < |pass| && pass[j].key in Owners(pass[i]) ==> j <= i
  }

  /** One listing suffices when owners come first. */
  lemma OwnersFirstConvergesAtOnce(m: Interests, objects: set<ResourceInfo>, pass: seq<ResourceInfo>)
    requires Lists(pass, objects) && OwnersFirst(pass)
    ensures AllKeys(PopulateAll(m, pass)) == WithinDepth(AllKeys(m), objects, |objects|)
  {
    var base := AllKeys(m);
    PopulateAllGrowsTheIndex(m, pass);
    DepthIsBounded(base, objects);
    StepsAddOrStop(base, objects, |objects|);
    GrowthStaysClosed(base, WithinDepth(base, objects, |objects|), objects, pass);
    var reached := GrowAll(base, pass);
    forall i | 0 <= i < |pass| && Owners(pass[i]) * reached != {} ensures pass[i].key in reached {
      OwnersFirstJoin(base, pass, i);
    }
    GrowAllKeeps(base, pass);
    DepthStaysClosed(base, reached, objects, |objects|);
  }

  lemma OwnersFirstJoin(base: set<ResourceKey>, pass: seq<ResourceInfo>, i: nat)
    requires OwnersFirst(pass) && i < |pass| && Owners(pass[i]) * GrowAll(base, pass) != {}
    ensures pass[i].key in GrowAll(base, pass)
  {
    var owner :| owner in Owners(pass[i]) * GrowAll(base, pass);
    GrownKeysHaveChains(base, pass, owner);
    if owner in base {
      assert owner in Owners(pass[i]) * base;
      ListedObjectJoins(base, pass, pass[i]);
    } else {
      var links :| Chain(base, pass, links, owner);
      assert links[|links| - 1] <= i;
      if links[|links| - 1] < i {
        ExtendChain(base, pass, links, owner, i);
        ChainEndsInGrown(base, pass, links + [i], pass[i].key);
      }
    }
  }

  lemma {:induction false} DepthStaysClosed(base: set<ResourceKey>, bound: set<ResourceKey>, objects: set<ResourceInfo>,
                                            d: nat)
    requires base <= bound && Closed(bound, objects)
    ensures WithinDepth(base, objects, d) <= bound
  {
    if d > 0 {
      DepthStaysClosed(base, bound, objects, d - 1);
      var above := WithinDepth(base, objects, d - 1);
      forall o | o in objects && Owners(o) * above != {} ensures o.key in bound {
        assert Owners(o) * above <= Owners(o) * bound;
      }
    }
  }

  // ---------- runs with publications ----------

  datatype IndexOp = PublishOp(target: ClusterId, keys: set<ResourceKey>) | PopulateOp(info: ResourceInfo, isRoot: bool)

  function RunIndex(ops: seq<IndexOp>): Interests {
    if ops == [] then map[]
    else
      var before := RunIndex(ops[..|ops| - 1]);
      match ops[|ops| - 1]
      case PublishOp(target, keys) => Publish(before, target, keys)
      case PopulateOp(info, isRoot) => Populate(before, info, isRoot)
  }

  /** What a target last published, and what was populated since. */
  function LastPublished(ops: seq<IndexOp>, target: ClusterId): (set<ResourceKey>, seq<ResourceInfo>) {
    if ops == [] then ({}, [])
    else
      var (keys, since) := LastPublished(ops[..|ops| - 1], target);
      match ops[|ops| - 1]
      case PublishOp(t, ks) => if t == target then (ks, []) else (keys, since)
      case PopulateOp(info, isRoot) => (keys, if isRoot then since else since + [info])
  }

  /** In any run, whatever a target is interested in has a chain of owners back to what it last published, through
      resources populated since; and nothing it published is forgotten. */
  lemma {:induction false} InterestIsJustified(ops: seq<IndexOp>, target: ClusterId, key: ResourceKey)
    ensures var (published, since) := LastPublished(ops, target);
            && published <= KeysOf(RunIndex(ops), target)
            && (key in KeysOf(RunIndex(ops), target) ==>
                  key in published || exists links :: Chain(published, since, links, key))
    decreases |ops|
  {
    InterestStaysGrown(ops, target);
    var (published, since) := LastPublished(ops, target);
    GrownKeysHaveChains(published, since, key);
  }

  lemma {:induction false} InterestStaysGrown(ops: seq<IndexOp>, target: ClusterId)
    ensures var (published, since) := LastPublished(ops, target);
            published <= KeysOf(RunIndex(ops), target) <= GrowAll(published, since)
    decreases |ops|
  {
    if ops != [] {
      var earlier, op := ops[..|ops| - 1], ops[|ops| - 1];
      InterestStaysGrown(earlier, target);
      var (published, since) := LastPublished(earlier, target);
      var held := KeysOf(RunIndex(earlier), target);
      if op.PopulateOp? && !op.isRoot {
        GrowAllAppend(published, since, [op.info]);
        var grown := GrowAll(published, since);
        assert [op.info][1..] == [] && GrowAll(grown, [op.info]) == Grow(grown, op.info);
        assert held * Owners(op.info) <= Owners(op.info) * grown;
      }
    }
  }

  // ---------- closure for one target ----------

  /** The target holds an owner of the resource and somebody else, but not the target, holds the resource itself: the
      population stops, and the target goes without. */
  predicate Skips(m: Interests, target: ClusterId, info: ResourceInfo) {
    && info.key in AllKeys(m) && info.key !in KeysOf(m, target)
    && Owners(info) * KeysOf(m, target) != {}
  }

  /** A population takes the closure step for a target exactly when it does not skip it. */
  lemma PopulateClosesForTargetIff(m: Interests, target: ClusterId, info: ResourceInfo)
    ensures KeysOf(Populate(m, info, false), target) == Grow(KeysOf(m, target), info) <==> !Skips(m, target, info)
  {
    if target in m {
      assert Owners(info) * m[target] == m[target] * Owners(info);
      assert info.key in m[target] ==> m[target] + {info.key} == m[target];
    }
  }

  /** The target holds the whole closure of what it published over what was listed since. */
  ghost predicate ClosedFor(ops: seq<IndexOp>, target: ClusterId) {
    var (published, since) := LastPublished(ops, target);
    KeysOf(RunIndex(ops), target) == GrowAll(published, since)
  }

  /** Nothing has happened since the target's last publication. */
  predicate JustPublished(ops: seq<IndexOp>, target: ClusterId) {
    ops == [] || (ops[|ops| - 1].PublishOp? && ops[|ops| - 1].target == target)
  }

  /** It held that closure after every step since its last publication. */
  ghost predicate ClosedThroughout(ops: seq<IndexOp>, target: ClusterId)
    decreases |ops|
  {
    ClosedFor(ops, target) && (JustPublished(ops, target) || ClosedThroughout(ops[..|ops| - 1], target))
  }

  /** The last operation is a population that skips the target. */
  predicate EndsInSkip(ops: seq<IndexOp>, target: ClusterId) {
    && ops != [] && ops[|ops| - 1].PopulateOp? && !ops[|ops| - 1].isRoot
    && Skips(RunIndex(ops[..|ops| - 1]), target, ops[|ops| - 1].info)
  }

  /** No population since its last publication skipped the target. */
  predicate NeverSkipped(ops: seq<IndexOp>, target: ClusterId)
    decreases |ops|
  {
    JustPublished(ops, target) || (!EndsInSkip(ops, target) && NeverSkipped(ops[..|ops| - 1], target))
  }

  lemma ClosedForNext(ops: seq<IndexOp>, target: ClusterId)
    requires !JustPublished(ops, target) && ClosedFor(ops[..|ops| - 1], target)
    ensures ClosedFor(ops, target) <==> !EndsInSkip(ops, target)
  {
    var earlier, op := ops[..|ops| - 1], ops[|ops| - 1];
    var (published, since) := LastPublished(earlier, target);
    if op.PopulateOp? && !op.isRoot {
      PopulateClosesForTargetIff(RunIndex(earlier), target, op.info);
      GrowAllAppend(published, since, [op.info]);
      var grown := GrowAll(published, since);
      assert [op.info][1..] == [] && GrowAll(grown, [op.info]) == Grow(grown, op.info);
    }
  }

  /** Since its last publication the target held its closure all along exactly when no population skipped it. */
  lemma {:induction false} ClosedThroughoutIffNeverSkipped(ops: seq<IndexOp>, target: ClusterId)
    ensures ClosedThroughout(ops, target) <==> NeverSkipped(ops, target)
    decreases |ops|
  {
    if !JustPublished(ops, target) {
      var earlier := ops[..|ops| - 1];
      ClosedThroughoutIffNeverSkipped(earlier, target);
      if ClosedFor(earlier, target) {
        ClosedForNext(ops, target);
      }
    }
  }

  /** The populations since its last publication of resources nobody held at the time. */
  function Taken(ops: seq<IndexOp>, target: ClusterId): seq<ResourceInfo> {
    if ops == [] then []
    else
      var earlier := ops[..|ops| - 1];
      match ops[|ops| - 1]
      case PublishOp(t, _) => if t == target then [] else Taken(earlier, target)
      case PopulateOp(info, isRoot) =>
        if isRoot || info.key in AllKeys(RunIndex(earlier)) then Taken(earlier, target)
        else Taken(earlier, target) + [info]
  }

  /** In any run a target holds the closure of what it published over exactly those populations. */
  lemma {:induction false} HeldIsClosureOverTaken(ops: seq<IndexOp>, target: ClusterId)
    ensures KeysOf(RunIndex(ops), target) == GrowAll(LastPublished(ops, target).0, Taken(ops, target))
    decreases |ops|
  {
    if ops != [] {
      var earlier, op := ops[..|ops| - 1], ops[|ops| - 1];
      HeldIsClosureOverTaken(earlier, target);
      if op.PopulateOp? && !op.isRoot && op.info.key !in AllKeys(RunIndex(earlier)) {
        PopulateClosesForTargetIff(RunIndex(earlier), target, op.info);
        GrowAllAppend(LastPublished(earlier, target).0, Taken(earlier, target), [op.info]);
        var grown := GrowAll(LastPublished(earlier, target).0, Taken(earlier, target));
        assert [op.info][1..] == [] && GrowAll(grown, [op.info]) == Grow(grown, op.info);
      }
    }
  }

  /** At the end of a run a target holds its closure exactly when leaving out the populations of resources somebody
      held already breaks no chain without leaving another. */
  lemma ClosedForIff(ops: seq<IndexOp>, target: ClusterId)
    ensures var (published, since) := LastPublished(ops, target);
            ClosedFor(ops, target) <==>
            forall key, links :: Chain(published, since, links, key) ==>
              key in published || exists others :: Chain(published, Taken(ops, target), others, key)
  {
    var (published, since) := LastPublished(ops, target);
    HeldIsClosureOverTaken(ops, target);
    InterestStaysGrown(ops, target);
    var taken := Taken(ops, target);
    forall key, links | Chain(published, since, links, key)
      ensures key in GrowAll(published, since)
      ensures key in GrowAll(published, taken) <==>
              key in published || exists others :: Chain(published, taken, others, key)
    {
      GrownKeysHaveChains(published, since, key);
      GrownKeysHaveChains(published, taken, key);
    }
    if !ClosedFor(ops, target) {
      var key :| key in GrowAll(published, since) && key !in GrowAll(published, taken);
      GrowAllKeeps(published, taken);
      GrownKeysHaveChains(published, since, key);
      var links :| Chain(published, since, links, key);
      assert key !in published;
    }
  }

  /** Closure holds for the index as a whole and not for each target: a population stops at the first target that
      already holds the key, so another target interested in the owner is left without the child. */
  lemma ClosureIsNotPerTarget() returns (ops: seq<IndexOp>, owner: ResourceKey, child: ResourceKey)
    ensures owner in KeysOf(RunIndex(ops), "a") && child !in KeysOf(RunIndex(ops), "a")
    ensures child in KeysOf(RunIndex(ops), "b")
    ensures var (published, since) := LastPublished(ops, "a"); child in GrowAll(published, since)
  {
    owner := ResourceKey("apps", "Deployment", "default", "web");
    child := ResourceKey("apps", "ReplicaSet", "default", "web-123");
    var ref := OwnerRef("", GroupVersion("apps", "v1"), "Deployment", "web");
    var info := ResourceInfo(child, [ref]);
    ops := [PublishOp("a", {owner}), PublishOp("b", {child}), PopulateOp(info, false)];
    var one, two := ops[..1], ops[..2];
    assert ops[..|ops| - 1] == two && two[..|two| - 1] == one && one[..|one| - 1] == [];
    assert RunIndex(one) == map["a" := {owner}];
    var m := RunIndex(two);
    assert m == map["a" := {owner}, "b" := {child}];
    assert "b" in m && child in m["b"] && child in AllKeys(m);
    assert RunIndex(ops) == m;
    assert LastPublished(two, "a") == ({owner}, []) by {
      assert LastPublished(one, "a") == ({owner}, []);
    }
    assert OwnerRefKey(info.ownerRefs[0], "default") == Some(owner);
    assert owner in Owners(info) * {owner};
    assert [info][1..] == [] && GrowAll({owner}, [info]) == Grow({owner}, info);
  }
}
