/** The Kubernetes vocabulary shared by every other module: resource keys, owner references, cached
    resources and the changes the cluster cache announces. */
module Kubernetes {

  datatype Option<+T> = None | Some(value: T)

  /** The empty string stands for "no UID", as in the original. */
  type Uid = string

  type ClusterId = string

  /** An API version string, by what parsing it into a group and a version yields. */
  datatype ApiVersion = GroupVersion(group: string, version: string) | Malformed(text: string)

  datatype GroupKind = GroupKind(group: string, kind: string)

  datatype TypeMeta = TypeMeta(apiVersion: ApiVersion, kind: string) {
    /** A malformed API version contributes an empty group. */
    function ToGroupKind(): GroupKind {
      GroupKind(if apiVersion.GroupVersion? then apiVersion.group else "", kind)
    }
  }

  datatype ResourceKey = ResourceKey(group: string, kind: string, namespace: string, name: string)

  datatype OwnerRef = OwnerRef(uid: Uid, apiVersion: ApiVersion, kind: string, name: string)

  datatype ObjectRef =
    ObjectRef(typeMeta: TypeMeta, namespace: string, name: string, uid: Uid, resourceVersion: string)
  {
    function Key(): ResourceKey {
      var gk := typeMeta.ToGroupKind();
      ResourceKey(gk.group, gk.kind, namespace, name)
    }
  }

  datatype Manifest = Manifest(typeMeta: TypeMeta, namespace: string, body: string)

  /** What the monitor attaches to each cached resource; its owner references include inferred ones. */
  datatype ResourceInfo = ResourceInfo(key: ResourceKey, ownerRefs: seq<OwnerRef>)

  datatype Resource =
    Resource(ref: ObjectRef, ownerRefs: seq<OwnerRef>, info: ResourceInfo, manifest: Option<Manifest>)
  {
    /** The monitor computes the attached key from the same object as the reference. */
    predicate WellFormed() {
      ref.Key() == info.key
    }
  }

  /** A creation has no old side, a deletion no new one, and a folded change may have neither. */
  datatype ResourceChange = ResourceChange(newRes: Option<Resource>, oldRes: Option<Resource>) {
    predicate HasSide() {
      newRes.Some? || oldRes.Some?
    }

    function Key(): ResourceKey
      requires HasSide()
    {
      if newRes.Some? then newRes.value.ref.Key() else oldRes.value.ref.Key()
    }

    /** Both sides describe the resource named by key. */
    predicate About(key: ResourceKey) {
      && (newRes.Some? ==> newRes.value.WellFormed() && newRes.value.info.key == key)
      && (oldRes.Some? ==> oldRes.value.WellFormed() && oldRes.value.info.key == key)
    }
  }

  /** An owner is looked up in the dependant's namespace; a malformed API version names no owner. */
  function OwnerRefKey(owner: OwnerRef, namespace: string): Option<ResourceKey> {
    match owner.apiVersion
    case GroupVersion(group, _) => Some(ResourceKey(group, owner.kind, namespace, owner.name))
    case Malformed(_) => None
  }

  /** The keys of every owner that can be named. */
  function OwnerKeys(owners: seq<OwnerRef>, namespace: string): set<ResourceKey> {
    set i | 0 <= i < |owners| && OwnerRefKey(owners[i], namespace).Some? :: OwnerRefKey(owners[i], namespace).value
  }

  function Owners(info: ResourceInfo): set<ResourceKey> {
    OwnerKeys(info.ownerRefs, info.key.namespace)
  }

  /** The reference, in the dependant's namespace, is to this object. Versions of a group are one type. */
  predicate RefersTo(owner: OwnerRef, namespace: string, obj: ObjectRef) {
    && owner.apiVersion.GroupVersion? && obj.typeMeta.apiVersion.GroupVersion?
    && owner.apiVersion.group == obj.typeMeta.apiVersion.group
    && owner.kind == obj.typeMeta.kind && owner.name == obj.name && namespace == obj.namespace
  }

  predicate IsOwnedBy(info: ResourceInfo, obj: ObjectRef) {
    exists i :: 0 <= i < |info.ownerRefs| && RefersTo(info.ownerRefs[i], info.key.namespace, obj)
  }

  /** Keys tell objects apart by group, kind, namespace and name, and by nothing else. An unparsed version counts as the
      core group's. */
  lemma SameKeyIff(a: ObjectRef, b: ObjectRef)
    requires a.typeMeta.apiVersion.GroupVersion?
    ensures b.typeMeta.apiVersion.GroupVersion? ==>
              (a.Key() == b.Key() <==>
               && a.typeMeta.apiVersion.group == b.typeMeta.apiVersion.group && a.typeMeta.kind == b.typeMeta.kind
               && a.namespace == b.namespace && a.name == b.name)
    ensures b.typeMeta.apiVersion.Malformed? ==>
              (a.Key() == b.Key() <==>
               && a.typeMeta.apiVersion.group == "" && a.typeMeta.kind == b.typeMeta.kind
               && a.namespace == b.namespace && a.name == b.name)
  {
  }

  /** An object's key is among those of the owners exactly if one of the references is to it. So nothing is owned by a
      malformed reference, or from another namespace. */
  lemma OwnersAreReferredToIff(info: ResourceInfo, obj: ObjectRef)
    requires obj.typeMeta.apiVersion.GroupVersion?
    ensures obj.Key() in Owners(info) <==> IsOwnedBy(info, obj)
  {
    if obj.Key() in Owners(info) {
      var i :| 0 <= i < |info.ownerRefs| && OwnerRefKey(info.ownerRefs[i], info.key.namespace) == Some(obj.Key());
      assert RefersTo(info.ownerRefs[i], info.key.namespace, obj);
    }
    if IsOwnedBy(info, obj) {
      var i :| 0 <= i < |info.ownerRefs| && RefersTo(info.ownerRefs[i], info.key.namespace, obj);
      assert OwnerRefKey(info.ownerRefs[i], info.key.namespace) == Some(obj.Key());
    }
  }

  /** An owner that is not in the dependant's own namespace is never named, not even one that has no namespace. */
  lemma OwnersElsewhereAreNotNamed(info: ResourceInfo, obj: ObjectRef)
    requires obj.namespace != info.key.namespace
    ensures obj.Key() !in Owners(info)
  {
  }

  /** Every owner key is that of an object one of the references is to. */
  lemma OwnerKeyHasObject(info: ResourceInfo, key: ResourceKey)
    requires key in Owners(info)
    ensures exists obj: ObjectRef :: IsOwnedBy(info, obj) && obj.Key() == key
  {
    var i :| 0 <= i < |info.ownerRefs| && OwnerRefKey(info.ownerRefs[i], info.key.namespace) == Some(key);
    var owner := info.ownerRefs[i];
    var obj := ObjectRef(TypeMeta(owner.apiVersion, owner.kind), info.key.namespace, owner.name, "", "");
    assert RefersTo(owner, info.key.namespace, obj);
    assert IsOwnedBy(info, obj) && obj.Key() == key;
  }

  /** The live resources, by key. */
  type World = map<ResourceKey, Resource>

  function Lookup(w: World, key: ResourceKey): Option<Resource> {
    if key in w then Some(w[key]) else None
  }

  function Install(w: World, key: ResourceKey, res: Option<Resource>): World {
    match res
    case Some(r) => w[key := r]
    case None => w - {key}
  }

  /** A change the cluster could announce when the live resources are w. */
  predicate Announces(w: World, key: ResourceKey, change: ResourceChange) {
    change.About(key) && change.oldRes == Lookup(w, key)
  }
}
