/** Which targets are interested in which resources: the index that routes cache changes to targets and decides
    which manifests the cache keeps. */
module InterestIndexes {
  import opened Kubernetes

  /** What the index means: the keys each target is interested in. */
  type Interests = map<ClusterId, set<ResourceKey>>

  function KeysOf(m: Interests, target: ClusterId): set<ResourceKey> {
    if target in m then m[target] else {}
  }

  /** Every key some target is interested in. */
  function AllKeys(m: Interests): set<ResourceKey> {
    set t, k | t in m && k in m[t] :: k
  }

  /** The targets interested in one of the given keys. */
  function InterestedIn(m: Interests, keys: set<ResourceKey>): set<ClusterId> {
    set t | t in m && m[t] * keys != {}
  }

  function Publish(m: Interests, target: ClusterId, keys: set<ResourceKey>): Interests {
    m[target := keys]
  }

  /** Makes the given targets interested in one more key. */
  function GiveTo(m: Interests, heirs: set<ClusterId>, key: ResourceKey): Interests {
    map t | t in m :: if t in heirs then m[t] + {key} else m[t]
  }

  /** Whoever is interested in an owner becomes interested in what it owns. */
  function Inherit(m: Interests, info: ResourceInfo): Interests {
    GiveTo(m, InterestedIn(m, Owners(info)), info.key)
  }

  predicate Inheritable(m: Interests, info: ResourceInfo) {
    InterestedIn(m, Owners(info)) != {}
  }

  /** A resource already in the index is left alone, whoever it is there for; roots inherit nothing. */
  function Populate(m: Interests, info: ResourceInfo, isRoot: bool): Interests {
    if info.key in AllKeys(m) || isRoot then m else Inherit(m, info)
  }

  predicate KeepsManifest(m: Interests, info: ResourceInfo, isRoot: bool) {
    info.key in AllKeys(m) || (!isRoot && Inheritable(m, info))
  }

  /** A resource concerns whoever is interested in it or in one of its owners. */
  function Concerns(res: Option<Resource>): set<ResourceKey> {
    match res
    case None => {}
    case Some(r) => {r.info.key} + Owners(r.info)
  }

  function Recipients(m: Interests, change: ResourceChange): set<ClusterId> {
    InterestedIn(m, Concerns(change.newRes) + Concerns(change.oldRes))
  }

  /** A target that holds the key of an object which the references are to. */
  ghost predicate HoldsOwner(keys: set<ResourceKey>, info: ResourceInfo) {
    exists obj: ObjectRef :: IsOwnedBy(info, obj) && obj.Key() in keys
  }

  /** Interest is inherited exactly from the objects the references are to. */
  lemma HeirsHoldOwnerIff(m: Interests, info: ResourceInfo, target: ClusterId)
    ensures target in InterestedIn(m, Owners(info)) <==> target in m && HoldsOwner(m[target], info)
  {
    if target in InterestedIn(m, Owners(info)) {
      var key :| key in m[target] * Owners(info);
      OwnerKeyHasObject(info, key);
    }
    if target in m && HoldsOwner(m[target], info) {
      var obj: ObjectRef :| IsOwnedBy(info, obj) && obj.Key() in m[target];
      OwnersAreReferredToIff(info, obj);
      assert obj.Key() in m[target] * Owners(info);
    }
  }

  ghost predicate ConcernsHolder(keys: set<ResourceKey>, res: Option<Resource>) {
    res.Some? && (res.value.info.key in keys || HoldsOwner(keys, res.value.info))
  }

  /** A change goes to exactly the targets that hold, for either side of it, the resource or an object it is owned by.
      */
  lemma RecipientsAreConcernedIff(m: Interests, change: ResourceChange, target: ClusterId)
    ensures target in Recipients(m, change) <==>
            target in m && (ConcernsHolder(m[target], change.newRes) || ConcernsHolder(m[target], change.oldRes))
  {
    if target in m {
      assert target in Recipients(m, change) <==>
             m[target] * Concerns(change.newRes) != {} || m[target] * Concerns(change.oldRes) != {} by {
        InterestedInUnion(m, Concerns(change.newRes), Concerns(change.oldRes));
      }
      SideConcernsIff(m, change.newRes, target);
      SideConcernsIff(m, change.oldRes, target);
    }
  }

  lemma SideConcernsIff(m: Interests, res: Option<Resource>, target: ClusterId)
    requires target in m
    ensures m[target] * Concerns(res) != {} <==> ConcernsHolder(m[target], res)
  {
    if res.Some? {
      HeirsHoldOwnerIff(m, res.value.info, target);
      assert Concerns(res) == {res.value.info.key} + Owners(res.value.info);
      assert res.value.info.key in m[target] ==> res.value.info.key in m[target] * Concerns(res);
      if key :| key in m[target] * Owners(res.value.info) {
        assert key in m[target] * Concerns(res);
      }
    }
  }

  // ---------- the two maps ----------

  type TargetsByResource = map<ResourceKey, set<ClusterId>>

  function TargetsOf(targets: TargetsByResource, key: ResourceKey): set<ClusterId> {
    if key in targets then targets[key] else {}
  }

  ghost predicate NoEmptyEntries(targets: TargetsByResource) {
    forall k :: k in targets ==> targets[k] != {}
  }

  /** The two maps record the same relation between targets and keys. */
  ghost predicate MutualInverses(keys: Interests, targets: TargetsByResource) {
    forall t, k :: t in TargetsOf(targets, k) <==> k in KeysOf(keys, t)
  }

  lemma InterestedInUnion(m: Interests, a: set<ResourceKey>, b: set<ResourceKey>)
    ensures InterestedIn(m, a + b) == InterestedIn(m, a) + InterestedIn(m, b)
  {
    assert forall t :: t in m ==> m[t] * (a + b) == m[t] * a + m[t] * b;
  }

  /** One map gives by lookup what the other gives by search. */
  lemma LookupIsSearch(keys: Interests, targets: TargetsByResource, key: ResourceKey)
    requires MutualInverses(keys, targets)
    ensures TargetsOf(targets, key) == InterestedIn(keys, {key})
  {
    forall t ensures t in TargetsOf(targets, key) <==> t in InterestedIn(keys, {key}) {
      assert t in TargetsOf(targets, key) <==> key in KeysOf(keys, t);
      if t in keys {
        assert key in keys[t] <==> key in keys[t] * {key};
      }
    }
  }

  /** Owners can be taken one at a time: what earlier owners gave away adds nothing for a later one. */
  lemma GiveInTurn(m: Interests, heirs: set<ClusterId>, key: ResourceKey, owner: ResourceKey)
    requires heirs <= m.Keys
    ensures var given := GiveTo(m, heirs, key);
            && GiveTo(given, InterestedIn(given, {owner}), key) == GiveTo(m, heirs + InterestedIn(m, {owner}), key)
            && heirs + InterestedIn(given, {owner}) == heirs + InterestedIn(m, {owner})
  {
    var given := GiveTo(m, heirs, key);
    forall t | t in m && t !in heirs
      ensures t in InterestedIn(given, {owner}) <==> t in InterestedIn(m, {owner})
    {
      assert given[t] == m[t];
    }
    forall t | t in InterestedIn(m, {owner}) ensures t in InterestedIn(given, {owner}) {
      assert owner in m[t] * {owner} && owner in given[t] * {owner};
    }
  }

  class InterestIndex {
    var keysByTarget: Interests
    var targetsByResource: TargetsByResource
    var subscribers: set<ClusterId> // the targets whose queues the index can send to

    ghost predicate Valid()
      reads this
    {
      MutualInverses(keysByTarget, targetsByResource) && NoEmptyEntries(targetsByResource)
    }

    constructor ()
      ensures Valid() && keysByTarget == map[] && subscribers == {}
    {
      keysByTarget, targetsByResource, subscribers := map[], map[], {};
    }

    method Subscribe(target: ClusterId)
      modifies this`subscribers
      ensures subscribers == old(subscribers) + {target}
    {
      subscribers := subscribers + {target};
    }

    method AddKeyToTarget(key: ResourceKey, target: ClusterId)
      modifies this`keysByTarget
      ensures keysByTarget == Publish(old(keysByTarget), target, KeysOf(old(keysByTarget), target) + {key})
    {
      var keys := KeysOf(keysByTarget, target);
      keysByTarget := keysByTarget[target := keys + {key}];
    }

    method AddTargetToKey(key: ResourceKey, target: ClusterId)
      modifies this`targetsByResource
      ensures TargetsOf(targetsByResource, key) == TargetsOf(old(targetsByResource), key) + {target}
      ensures forall k :: k != key ==> TargetsOf(targetsByResource, k) == TargetsOf(old(targetsByResource), k)
      ensures old(NoEmptyEntries(targetsByResource)) ==> NoEmptyEntries(targetsByResource)
    {
      var targets := TargetsOf(targetsByResource, key);
      targetsByResource := targetsByResource[key := targets + {target}];
    }

    method RemoveTargetFromKey(key: ResourceKey, target: ClusterId)
      modifies this`targetsByResource
      ensures TargetsOf(targetsByResource, key) == TargetsOf(old(targetsByResource), key) - {target}
      ensures forall k :: k != key ==> TargetsOf(targetsByResource, k) == TargetsOf(old(targetsByResource), k)
      ensures old(NoEmptyEntries(targetsByResource)) ==> NoEmptyEntries(targetsByResource)
    {
      var targets := TargetsOf(targetsByResource, key) - {target};
      if targets == {} {
        targetsByResource := targetsByResource - {key};
      } else {
        targetsByResource := targetsByResource[key := targets];
      }
    }

    /** Replaces everything the target was interested in. */
    method Set(target: ClusterId, keys: set<ResourceKey>)
      requires Valid()
      modifies this`keysByTarget, this`targetsByResource
      ensures Valid()
      ensures keysByTarget == Publish(old(keysByTarget), target, keys)
    {
      var previous := KeysOf(keysByTarget, target);
      var todo := previous;
      while todo != {}
        invariant todo <= previous && keysByTarget == old(keysByTarget)
        invariant NoEmptyEntries(targetsByResource)
        invariant forall k :: TargetsOf(targetsByResource, k) ==
                              if k in previous - todo - keys then TargetsOf(old(targetsByResource), k) - {target}
                              else TargetsOf(old(targetsByResource), k)
      {
        var key :| key in todo;
        todo := todo - {key};
        if key !in keys {
          RemoveTargetFromKey(key, target);
        }
      }
      todo := keys;
      while todo != {}
        invariant todo <= keys && keysByTarget == old(keysByTarget)
        invariant NoEmptyEntries(targetsByResource)
        invariant forall k :: TargetsOf(targetsByResource, k) ==
                              if k in keys - todo then TargetsOf(old(targetsByResource), k) + {target}
                              else if k in previous - keys then TargetsOf(old(targetsByResource), k) - {target}
                              else TargetsOf(old(targetsByResource), k)
      {
        var key :| key in todo;
        todo := todo - {key};
        AddTargetToKey(key, target);
      }
      keysByTarget := keysByTarget[target := keys];
      forall t, k ensures t in TargetsOf(targetsByResource, k) <==> k in KeysOf(keysByTarget, t) {
        assert t in TargetsOf(old(targetsByResource), k) <==> k in KeysOf(old(keysByTarget), t);
      }
    }

    method Remember(target: ClusterId, key: ResourceKey)
      requires Valid()
      modifies this`keysByTarget, this`targetsByResource
      ensures Valid()
      ensures keysByTarget == Publish(old(keysByTarget), target, KeysOf(old(keysByTarget), target) + {key})
    {
      AddKeyToTarget(key, target);
      AddTargetToKey(key, target);
      forall t, k ensures t in TargetsOf(targetsByResource, k) <==> k in KeysOf(keysByTarget, t) {
        assert t in TargetsOf(old(targetsByResource), k) <==> k in KeysOf(old(keysByTarget), t);
      }
    }

    method IsResourceInIndex(key: ResourceKey) returns (found: bool)
      requires Valid()
      ensures found <==> key in AllKeys(keysByTarget)
    {
      found := TargetsOf(targetsByResource, key) != {};
      LookupIsSearch(keysByTarget, targetsByResource, key);
      assert forall t :: t in InterestedIn(keysByTarget, {key}) <==>
             t in keysByTarget && key in keysByTarget[t] * {key};
    }

    /** Gives the resource to every target in heirs. */
    method RememberForAll(heirs: set<ClusterId>, key: ResourceKey)
      requires Valid() && heirs <= keysByTarget.Keys
      modifies this`keysByTarget, this`targetsByResource
      ensures Valid()
      ensures keysByTarget == GiveTo(old(keysByTarget), heirs, key)
    {
      var todo := heirs;
      while todo != {}
        invariant todo <= heirs && Valid()
        invariant keysByTarget == GiveTo(old(keysByTarget), heirs - todo, key)
      {
        var target :| target in todo;
        todo := todo - {target};
        Remember(target, key);
      }
    }

    method InheritInterestFromOwners(info: ResourceInfo) returns (inherited: bool)
      requires Valid()
      modifies this`keysByTarget, this`targetsByResource
      ensures Valid()
      ensures keysByTarget == Inherit(old(keysByTarget), info)
      ensures inherited == Inheritable(old(keysByTarget), info)
    {
      inherited := false;
      ghost var before, namespace := keysByTarget, info.key.namespace;
      ghost var heirsSoFar: set<ClusterId> := {};
      for i := 0 to |info.ownerRefs|
        invariant Valid()
        invariant heirsSoFar == InterestedIn(before, OwnerKeys(info.ownerRefs[..i], namespace))
        invariant keysByTarget == GiveTo(before, heirsSoFar, info.key)
        invariant inherited == (heirsSoFar != {})
      {
        OwnerKeysNext(info.ownerRefs, i, namespace);
        var ownerKey := OwnerRefKey(info.ownerRefs[i], info.key.namespace);
        if ownerKey.None? {
          continue;
        }
        LookupIsSearch(keysByTarget, targetsByResource, ownerKey.value);
        GiveInTurn(before, heirsSoFar, info.key, ownerKey.value);
        InterestedInUnion(before, OwnerKeys(info.ownerRefs[..i], namespace), {ownerKey.value});
        var heirs := TargetsOf(targetsByResource, ownerKey.value);
        RememberForAll(heirs, info.key);
        inherited := inherited || heirs != {};
        heirsSoFar := heirsSoFar + heirs;
      }
      assert info.ownerRefs[..|info.ownerRefs|] == info.ownerRefs;
    }

    method PopulateResourceInfo(info: ResourceInfo, isRoot: bool) returns (cacheManifest: bool)
      requires Valid()
      modifies this`keysByTarget, this`targetsByResource
      ensures Valid()
      ensures keysByTarget == Populate(old(keysByTarget), info, isRoot)
      ensures cacheManifest == KeepsManifest(old(keysByTarget), info, isRoot)
    {
      var known := IsResourceInIndex(info.key);
      if known {
        return true;
      }
      if isRoot {
        return false;
      }
      cacheManifest := InheritInterestFromOwners(info);
    }

    /** Hands the change to every interested subscriber, unless the index is stopped part-way through. */
    method Route(change: ResourceChange) returns (delivered: set<ClusterId>, stopped: bool)
      requires Valid()
      ensures delivered <= Recipients(keysByTarget, change) * subscribers
      ensures !stopped ==> delivered == Recipients(keysByTarget, change) * subscribers
    {
      var newSide := InterestedInSide(change.newRes);
      var oldSide := InterestedInSide(change.oldRes);
      var recipients := newSide + oldSide;
      InterestedInUnion(keysByTarget, Concerns(change.newRes), Concerns(change.oldRes));
      delivered, stopped := {}, false;
      var todo := recipients;
      while todo != {}
        invariant todo <= recipients
        invariant delivered == (recipients - todo) * subscribers
      {
        var target :| target in todo;
        todo := todo - {target};
        if target !in subscribers {
          continue;
        }
        if * {
          return delivered, true;
        }
        delivered := delivered + {target};
      }
    }

    method InterestedInSide(res: Option<Resource>) returns (recipients: set<ClusterId>)
      requires Valid()
      ensures recipients == InterestedIn(keysByTarget, Concerns(res))
    {
      if res.None? {
        return {};
      }
      var info := res.value.info;
      recipients := TargetsOf(targetsByResource, info.key);
      LookupIsSearch(keysByTarget, targetsByResource, info.key);
      ghost var concerns := {info.key};
      for i := 0 to |info.ownerRefs|
        invariant concerns == {info.key} + OwnerKeys(info.ownerRefs[..i], info.key.namespace)
        invariant recipients == InterestedIn(keysByTarget, concerns)
      {
        OwnerKeysNext(info.ownerRefs, i, info.key.namespace);
        var ownerKey := OwnerRefKey(info.ownerRefs[i], info.key.namespace);
        if ownerKey.None? {
          continue;
        }
        LookupIsSearch(keysByTarget, targetsByResource, ownerKey.value);
        InterestedInUnion(keysByTarget, concerns, {ownerKey.value});
        recipients := recipients + TargetsOf(targetsByResource, ownerKey.value);
        concerns := concerns + {ownerKey.value};
      }
      assert info.ownerRefs[..|info.ownerRefs|] == info.ownerRefs;
    }
  }

  lemma OwnerKeysNext(owners: seq<OwnerRef>, i: nat, namespace: string)
    requires i < |owners|
    ensures OwnerKeys(owners[..i + 1], namespace) ==
            OwnerKeys(owners[..i], namespace) +
            (if OwnerRefKey(owners[i], namespace).Some? then {OwnerRefKey(owners[i], namespace).value} else {})
  {
    var next, prev := owners[..i + 1], owners[..i];
    forall k | k in OwnerKeys(next, namespace)
      ensures k in OwnerKeys(prev, namespace) || OwnerRefKey(owners[i], namespace) == Some(k)
    {
      var j :| 0 <= j < |next| && OwnerRefKey(next[j], namespace) == Some(k);
      if j < i {
        assert prev[j] == next[j];
      }
    }
    forall k | k in OwnerKeys(prev, namespace) ensures k in OwnerKeys(next, namespace) {
      var j :| 0 <= j < |prev| && OwnerRefKey(prev[j], namespace) == Some(k);
      assert next[j] == prev[j];
    }
    assert next[i] == owners[i];
  }
}
