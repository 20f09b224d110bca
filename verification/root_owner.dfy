/** Finding the resource at the top of a chain of owners. */
module RootOwners {
  import opened FiniteSets
  import opened Kubernetes
  import opened MonitoredResources

  /** Each child's owner, by UID. */
  type OwnerMap = map<Uid, Uid>

  /** Up to steps owners above u; the climb stops where no owner is recorded. */
  function Climb(u: Uid, owners: OwnerMap, steps: nat): Uid
    decreases steps
  {
    if u !in owners || steps == 0 then u else Climb(owners[u], owners, steps - 1)
  }

  /** The recursion ends: some number of steps leads out of the recorded children. */
  ghost predicate ReachesRoot(u: Uid, owners: OwnerMap) {
    exists n :: Climb(u, owners, n) !in owners
  }

  /** Where the climb ends when it does; as many steps as there are children are always enough. */
  function RootOf(u: Uid, owners: OwnerMap): Uid {
    Climb(u, owners, |owners|)
  }

  lemma {:induction false} ClimbInStages(u: Uid, owners: OwnerMap, a: nat, b: nat)
    ensures Climb(u, owners, a + b) == Climb(Climb(u, owners, a), owners, b)
    decreases a
  {
    if u in owners && a > 0 {
      ClimbInStages(owners[u], owners, a - 1, b);
    }
  }

  function Visited(u: Uid, owners: OwnerMap, n: nat): set<Uid> {
    if n == 0 then {} else Visited(u, owners, n - 1) + {Climb(u, owners, n - 1)}
  }

  /** A climb that ever gets out meets a different child at every step until it does. */
  lemma {:induction false} VisitsAreDistinct(u: Uid, owners: OwnerMap, n: nat, out: nat)
    requires n <= out && Climb(u, owners, out) !in owners
    requires forall i :: 0 <= i < out ==> Climb(u, owners, i) in owners
    ensures |Visited(u, owners, n)| == n && Visited(u, owners, n) <= owners.Keys
  {
    if n > 0 {
      VisitsAreDistinct(u, owners, n - 1, out);
      var at := Climb(u, owners, n - 1);
      if at in Visited(u, owners, n - 1) {
        var i := VisitStep(u, owners, n - 1, at);
        ClimbInStages(u, owners, n - 1, out - (n - 1));
        ClimbInStages(u, owners, i, out - (n - 1));
        assert false;
      }
    }
  }

  lemma {:induction false} VisitStep(u: Uid, owners: OwnerMap, n: nat, v: Uid) returns (i: nat)
    requires v in Visited(u, owners, n)
    ensures i < n && Climb(u, owners, i) == v
  {
    if v in Visited(u, owners, n - 1) {
      i := VisitStep(u, owners, n - 1, v);
    } else {
      i := n - 1;
    }
  }

  /** The first step that leads out comes no later than the number of children. */
  lemma {:induction false} FirstExit(u: Uid, owners: OwnerMap, n: nat) returns (out: nat)
    requires Climb(u, owners, n) !in owners
    ensures out <= n && Climb(u, owners, out) !in owners
    ensures forall i :: 0 <= i < out ==> Climb(u, owners, i) in owners
    ensures out <= |owners|
  {
    if j: nat :| j < n && Climb(u, owners, j) !in owners {
      out := FirstExit(u, owners, j);
    } else {
      out := n;
      VisitsAreDistinct(u, owners, n, n);
      SubsetNoLarger(Visited(u, owners, n), owners.Keys);
      assert |owners.Keys| == |owners|;
    }
  }

  /** Once out, more steps change nothing. */
  lemma ClimbIsStable(u: Uid, owners: OwnerMap, n: nat)
    requires Climb(u, owners, n) !in owners
    ensures RootOf(u, owners) == Climb(u, owners, n)
  {
    var out := FirstExit(u, owners, n);
    ClimbInStages(u, owners, out, |owners| - out);
    ClimbInStages(u, owners, out, n - out);
  }

  /** The recursion ends exactly when its result is no child's UID. */
  lemma RootIsNoChild(u: Uid, owners: OwnerMap)
    ensures ReachesRoot(u, owners) <==> RootOf(u, owners) !in owners
  {
    if n: nat :| Climb(u, owners, n) !in owners {
      ClimbIsStable(u, owners, n);
    }
  }

  /** One step up leads to the same root. */
  lemma RootThroughOwner(u: Uid, owners: OwnerMap)
    requires u in owners && ReachesRoot(u, owners)
    ensures ReachesRoot(owners[u], owners) && RootOf(owners[u], owners) == RootOf(u, owners)
  {
    var n: nat :| Climb(u, owners, n) !in owners;
    assert n > 0 && Climb(owners[u], owners, n - 1) == Climb(u, owners, n);
    ClimbIsStable(u, owners, n);
    ClimbIsStable(owners[u], owners, n - 1);
  }

  lemma ReachesThroughOwner(u: Uid, owners: OwnerMap)
    requires u in owners
    ensures ReachesRoot(u, owners) <==> ReachesRoot(owners[u], owners)
  {
    if n: nat :| Climb(owners[u], owners, n) !in owners {
      assert Climb(u, owners, n + 1) == Climb(owners[u], owners, n);
    }
    if ReachesRoot(u, owners) {
      RootThroughOwner(u, owners);
    }
  }

  // ---------- when the recursion ends ----------

  /** Ranks that fall along every recorded ownership, which is what being acyclic means. */
  ghost predicate Ranked(owners: OwnerMap, rank: map<Uid, nat>) {
    && owners.Keys <= rank.Keys
    && (forall u :: u in owners && owners[u] in owners ==> rank[owners[u]] < rank[u])
  }

  lemma {:induction false} RankedReachesRoot(u: Uid, owners: OwnerMap, rank: map<Uid, nat>)
    requires Ranked(owners, rank)
    ensures ReachesRoot(u, owners)
    decreases if u in owners then rank[u] + 1 else 0
  {
    if u in owners {
      RankedReachesRoot(owners[u], owners, rank);
      var n: nat :| Climb(owners[u], owners, n) !in owners;
      assert Climb(u, owners, n + 1) == Climb(owners[u], owners, n);
    } else {
      assert Climb(u, owners, 0) !in owners;
    }
  }

  /** How many owners a climb passes within a limit. */
  function Height(u: Uid, owners: OwnerMap, limit: nat): nat
    decreases limit
  {
    if u !in owners || limit == 0 then 0 else 1 + Height(owners[u], owners, limit - 1)
  }

  lemma {:induction false} HeightIsStable(u: Uid, owners: OwnerMap, limit: nat, more: nat)
    requires Climb(u, owners, limit) !in owners && limit <= more
    ensures Height(u, owners, limit) == Height(u, owners, more)
    decreases limit
  {
    if u in owners && limit > 0 {
      HeightIsStable(owners[u], owners, limit - 1, more - 1);
    }
  }

  lemma HeightFalls(u: Uid, owners: OwnerMap)
    requires u in owners && ReachesRoot(u, owners)
    ensures Height(owners[u], owners, |owners|) < Height(u, owners, |owners|)
  {
    RootIsNoChild(u, owners);
    assert |owners| > 0 by {
      assert u in owners.Keys;
    }
    HeightIsStable(owners[u], owners, |owners| - 1, |owners|);
  }

  ghost predicate EndsEverywhere(owners: OwnerMap) {
    forall u :: ReachesRoot(u, owners)
  }

  /** The recursion ends from every starting point exactly when the owner relation is acyclic. */
  lemma EndsEverywhereIffAcyclic(owners: OwnerMap)
    ensures EndsEverywhere(owners) <==> exists rank :: Ranked(owners, rank)
  {
    if rank :| Ranked(owners, rank) {
      forall u ensures ReachesRoot(u, owners) {
        RankedReachesRoot(u, owners, rank);
      }
    }
    if EndsEverywhere(owners) {
      var rank := map u | u in owners :: Height(u, owners, |owners|);
      forall u | u in owners && owners[u] in owners ensures rank[owners[u]] < rank[u] {
        assert ReachesRoot(u, owners);
        HeightFalls(u, owners);
      }
      assert Ranked(owners, rank);
    }
  }

  /** A child recorded as its own owner, as an inferred owner reference that carries the object's own UID makes
      it, has no root at all. */
  lemma {:induction false} SelfOwnedNeverReachesRoot(u: Uid, owners: OwnerMap, n: nat)
    requires u in owners && owners[u] == u
    ensures Climb(u, owners, n) == u
    ensures n == |owners| ==> !ReachesRoot(u, owners)
  {
    if n > 0 {
      SelfOwnedNeverReachesRoot(u, owners, n - 1);
    }
    if n == |owners| {
      RootIsNoChild(u, owners);
    }
  }

  // ---------- giving one more UID an owner ----------

  /** A climb that did not end at u is unaffected by giving u an owner; one that did goes on from there. */
  lemma {:induction false} ClimbWithOneMore(x: Uid, owners: OwnerMap, u: Uid, o: Uid, n: nat)
    requires u !in owners && Climb(x, owners, n) !in owners
    ensures RootOf(x, owners) != u ==>
              ReachesRoot(x, owners[u := o]) && RootOf(x, owners[u := o]) == RootOf(x, owners)
    ensures RootOf(x, owners) == u ==>
              && (ReachesRoot(x, owners[u := o]) <==> ReachesRoot(u, owners[u := o]))
              && (ReachesRoot(u, owners[u := o]) ==>
                    && RootOf(x, owners[u := o]) == RootOf(u, owners[u := o])
                    && HeightIn(u, owners[u := o]) <= HeightIn(x, owners[u := o]))
    decreases n
  {
    var more := owners[u := o];
    if x !in owners {
      assert Climb(x, owners, 0) !in owners;
      ClimbIsStable(x, owners, 0);
      if x != u {
        assert Climb(x, more, 0) !in more;
        ClimbIsStable(x, more, 0);
      }
    } else {
      assert ReachesRoot(x, owners);
      RootThroughOwner(x, owners);
      ClimbWithOneMore(owners[x], owners, u, o, n - 1);
      ReachesThroughOwner(x, more);
      if ReachesRoot(x, more) {
        RootThroughOwner(x, more);
        HeightFalls(x, more);
      }
    }
  }

  function HeightIn(u: Uid, owners: OwnerMap): nat {
    Height(u, owners, |owners|)
  }

  /** Giving u an owner leaves every climb ending exactly when the owner is not beneath u already. */
  lemma OneMoreEndsEverywhereIff(owners: OwnerMap, u: Uid, o: Uid)
    requires u !in owners && EndsEverywhere(owners)
    ensures EndsEverywhere(owners[u := o]) <==> RootOf(o, owners) != u
    ensures ReachesRoot(u, owners[u := o]) <==> RootOf(o, owners) != u
    ensures RootOf(o, owners) != u ==> RootOf(u, owners[u := o]) == RootOf(o, owners)
  {
    var more := owners[u := o];
    assert ReachesRoot(o, owners);
    var n: nat :| Climb(o, owners, n) !in owners;
    ClimbWithOneMore(o, owners, u, o, n);
    ReachesThroughOwner(u, more);
    if ReachesRoot(u, more) {
      RootThroughOwner(u, more);
      HeightFalls(u, more);
      forall x ensures ReachesRoot(x, more) {
        assert ReachesRoot(x, owners);
        var k: nat :| Climb(x, owners, k) !in owners;
        ClimbWithOneMore(x, owners, u, o, k);
      }
    }
  }

  /** Where climbs end once u has an owner. */
  lemma RootWithOneMore(x: Uid, owners: OwnerMap, u: Uid, o: Uid)
    requires u !in owners && EndsEverywhere(owners) && RootOf(o, owners) != u
    ensures RootOf(x, owners[u := o]) == if RootOf(x, owners) == u then RootOf(o, owners) else RootOf(x, owners)
  {
    assert ReachesRoot(x, owners);
    var k: nat :| Climb(x, owners, k) !in owners;
    ClimbWithOneMore(x, owners, u, o, k);
    OneMoreEndsEverywhereIff(owners, u, o);
  }

  // ---------- roots found while children are still being recorded ----------

  /** A root found before every child is recorded is one stage of the final climb, and is final exactly when no
      child recorded later has its UID. */
  lemma RootWhilePartial(u: Uid, partial: OwnerMap, final: OwnerMap)
    requires ReachesRoot(u, final)
    requires forall v :: v in partial ==> v in final && final[v] == partial[v]
    ensures ReachesRoot(u, partial)
    ensures RootOf(u, partial) == RootOf(u, final) <==> RootOf(u, partial) !in final
    ensures ReachesRoot(RootOf(u, partial), final) && RootOf(RootOf(u, partial), final) == RootOf(u, final)
  {
    var n: nat :| Climb(u, final, n) !in final;
    PartialClimb(u, partial, final, n);
    RootIsNoChild(u, final);
  }

  lemma {:induction false} PartialClimb(u: Uid, partial: OwnerMap, final: OwnerMap, n: nat)
    requires Climb(u, final, n) !in final
    requires forall v :: v in partial ==> v in final && final[v] == partial[v]
    ensures ReachesRoot(u, partial) && ReachesRoot(u, final)
    ensures RootOf(u, partial) !in final ==> RootOf(u, partial) == RootOf(u, final)
    ensures ReachesRoot(RootOf(u, partial), final) && RootOf(RootOf(u, partial), final) == RootOf(u, final)
    decreases n
  {
    if u in partial {
      PartialClimb(partial[u], partial, final, n - 1);
      var k: nat :| Climb(partial[u], partial, k) !in partial;
      assert Climb(u, partial, k + 1) !in partial;
      RootThroughOwner(u, partial);
      RootThroughOwner(u, final);
    } else {
      assert Climb(u, partial, 0) !in partial;
      ClimbIsStable(u, partial, 0);
      if u !in final {
        ClimbIsStable(u, final, 0);
      }
    }
  }

  /** Children in the order they are recorded: UID and owner. */
  type Recording = seq<(Uid, Uid)>

  function Recorded(entries: Recording): OwnerMap {
    if entries == [] then map[]
    else Recorded(entries[..|entries| - 1])[entries[|entries| - 1].0 := entries[|entries| - 1].1]
  }

  /** UIDs are unique and whatever a child is owned by is recorded before it, or is no child at all. */
  ghost predicate ParentsFirst(entries: Recording) {
    forall i, j :: 0 <= i < |entries| && 0 <= j < |entries| ==>
      && (entries[i].0 == entries[j].0 ==> i == j)
      && (entries[i].1 == entries[j].0 ==> j < i)
  }

  lemma {:induction false} RecordedContents(entries: Recording, u: Uid)
    requires ParentsFirst(entries)
    ensures u in Recorded(entries) <==> exists i :: 0 <= i < |entries| && entries[i].0 == u
    ensures forall i :: 0 <= i < |entries| ==>
              entries[i].0 in Recorded(entries) && Recorded(entries)[entries[i].0] == entries[i].1
    decreases |entries|
  {
    if entries != [] {
      var n := |entries| - 1;
      RecordedContents(entries[..n], u);
      assert forall i :: 0 <= i < n ==> entries[..n][i] == entries[i];
      if u in Recorded(entries[..n]) {
        var i :| 0 <= i < n && entries[..n][i].0 == u;
        assert entries[i].0 == u;
      }
    }
  }

  /** With parents recorded first the relation is acyclic, and the root stored for each child while the recording
      is still partial is its root over the final children, and no child itself. */
  lemma StoredRootsAreFinal(entries: Recording, i: nat)
    requires ParentsFirst(entries) && i < |entries|
    ensures var owner, final := entries[i].1, Recorded(entries);
            && ReachesRoot(owner, final)
            && RootOf(owner, Recorded(entries[..i])) == RootOf(owner, final)
            && RootOf(owner, final) !in final
  {
    var owner, partial, final := entries[i].1, Recorded(entries[..i]), Recorded(entries);
    RecordedContents(entries, owner);
    if owner in final {
      var j :| 0 <= j < |entries| && entries[j].0 == owner;
      assert j < i;
      ClimbStaysRecorded(entries, i, j);
    } else {
      RecordedContents(entries[..i], owner);
      assert forall k :: 0 <= k < i ==> entries[..i][k] == entries[k];
      assert owner !in partial;
      assert Climb(owner, final, 0) !in final;
      ClimbIsStable(owner, final, 0);
      ClimbIsStable(owner, partial, 0);
    }
  }

  lemma {:induction false} ClimbStaysRecorded(entries: Recording, i: nat, j: nat)
    requires ParentsFirst(entries) && j < i <= |entries|
    ensures var u, partial, final := entries[j].0, Recorded(entries[..i]), Recorded(entries);
            ReachesRoot(u, final) && ReachesRoot(u, partial) && RootOf(u, partial) == RootOf(u, final)
            && RootOf(u, final) !in final
    decreases j
  {
    var u, partial, final := entries[j].0, Recorded(entries[..i]), Recorded(entries);
    var owner := entries[j].1;
    RecordedContents(entries, owner);
    assert forall k :: 0 <= k < i ==> entries[..i][k] == entries[k];
    RecordedContents(entries[..i], owner);
    assert entries[..i][j].0 in partial && partial[u] == owner && final[u] == owner;
    if owner in final {
      var k :| 0 <= k < |entries| && entries[k].0 == owner;
      ClimbStaysRecorded(entries, i, k);
    } else {
      assert Climb(owner, final, 0) !in final && Climb(owner, partial, 0) !in partial;
      ClimbIsStable(owner, final, 0);
      ClimbIsStable(owner, partial, 0);
    }
    var n: nat :| Climb(owner, final, n) !in final;
    assert Climb(u, final, n + 1) !in final;
    var m: nat :| Climb(owner, partial, m) !in partial;
    assert Climb(u, partial, m + 1) !in partial;
    RootThroughOwner(u, final);
    RootThroughOwner(u, partial);
    RootIsNoChild(u, final);
  }

  // ---------- the children of an application instance ----------

  ghost predicate UniqueUids(children: ChildMap) {
    forall j, k :: j in children && k in children && children[j].ref.uid == children[k].ref.uid ==> j == k
  }

  function Uids(children: ChildMap): set<Uid> {
    set k | k in children :: children[k].ref.uid
  }

  ghost function OwnerOf(children: ChildMap, u: Uid): Uid
    requires u in Uids(children)
  {
    var k :| k in children && children[k].ref.uid == u;
    children[k].ownerId
  }

  ghost function OwnersAmong(children: ChildMap): OwnerMap {
    map u | u in Uids(children) :: OwnerOf(children, u)
  }

  lemma OwnersAmongAt(children: ChildMap, k: ResourceKey)
    requires UniqueUids(children) && k in children
    ensures children[k].ref.uid in OwnersAmong(children)
    ensures OwnersAmong(children)[children[k].ref.uid] == children[k].ownerId
  {
    assert children[k].ref.uid in Uids(children);
  }

  lemma NoChildrenNoOwners()
    ensures OwnersAmong(map[]) == map[]
  {
    assert Uids(map[]) == {};
  }

  lemma OwnersWithOneMore(before: ChildMap, key: ResourceKey, child: ChildMonitoredResource)
    requires key !in before && UniqueUids(before) && UniqueUids(before[key := child])
    ensures OwnersAmong(before[key := child]) == OwnersAmong(before)[child.ref.uid := child.ownerId]
  {
    var after := before[key := child];
    assert after[key] == child;
    OwnersAmongAt(after, key);
    forall u | u in OwnersAmong(after) && u != child.ref.uid
      ensures u in OwnersAmong(before) && OwnersAmong(before)[u] == OwnersAmong(after)[u]
    {
      var k :| k in after && after[k].ref.uid == u;
      assert after[k] == before[k];
      OwnersAmongAt(after, k);
      OwnersAmongAt(before, k);
    }
    forall u | u in OwnersAmong(before) ensures u in OwnersAmong(after) {
      var k :| k in before && before[k].ref.uid == u;
      assert after[k] == before[k];
      OwnersAmongAt(after, k);
    }
  }

  /** The top-level owner above ownerId. Without the acyclicity its callers rely on, it would not return. */
  method GetRootParentResource(ownerId: Uid, children: ChildMap) returns (root: Uid)
    requires UniqueUids(children) && ReachesRoot(ownerId, OwnersAmong(children))
    ensures root == RootOf(ownerId, OwnersAmong(children))
    decreases Height(ownerId, OwnersAmong(children), |OwnersAmong(children)|)
  {
    ghost var owners := OwnersAmong(children);
    var todo := children.Keys;
    while todo != {}
      invariant todo <= children.Keys
      invariant forall k :: k in children && k !in todo ==> children[k].ref.uid != ownerId
      decreases |todo|
    {
      var key :| key in todo;
      todo := todo - {key};
      if children[key].ref.uid == ownerId {
        OwnersAmongAt(children, key);
        RootThroughOwner(ownerId, owners);
        HeightFalls(ownerId, owners);
        root := GetRootParentResource(children[key].ownerId, children);
        return;
      }
    }
    assert ownerId !in owners;
    ClimbIsStable(ownerId, owners, 0);
    return ownerId;
  }
}
