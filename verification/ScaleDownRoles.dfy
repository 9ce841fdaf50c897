/**
 Who is kept and who is removed when the cluster shrinks, and what happens to the slots:
 internal/reconciler/scale_reconciler.go. Pods are listed by ordinal.
 */
module ScaleDownRoles {
  import opened Lists
  import opened ScaleUpRoles

  datatype Split = Split(keepPrimaries: seq<Pod>, drainPrimaries: seq<Pod>, keepReplicas: seq<Pod>, removeReplicas: seq<Pod>)

  datatype Outcome = AlreadySmall | Retry | Removed(split: Split)

  /** What the drain did: the slots as redistributed, and whether it succeeded and left no slot in flight. */
  datatype Drain = Drain(slots: Ownership, complete: bool)

  predicate IsPrimaryPod(n: Pod) {
    !n.replica
  }

  predicate IsReplicaPod(n: Pod) {
    n.replica
  }

  function Take(xs: seq<Pod>, k: nat): seq<Pod> {
    if |xs| > k then xs[..k] else xs
  }

  function Beyond(xs: seq<Pod>, k: nat): seq<Pod> {
    if |xs| > k then xs[k..] else []
  }

  /** The first pods of each role, up to the target number, are kept. */
  function SplitOf(nodes: seq<Pod>, primaries: nat, quota: nat): Split {
    var ps, rs := Filter(IsPrimaryPod, nodes), Filter(IsReplicaPod, nodes);
    Split(Take(ps, primaries), Beyond(ps, primaries), Take(rs, primaries * quota), Beyond(rs, primaries * quota))
  }

  function Keep(s: Split): seq<Pod> {
    s.keepPrimaries + s.keepReplicas
  }

  function Remove(s: Split): seq<Pod> {
    s.removeReplicas + s.drainPrimaries
  }

  method SplitPods(nodes: seq<Pod>, targetPrimaries: nat, replicasPerPrimary: nat) returns (s: Split)
    ensures s == SplitOf(nodes, targetPrimaries, replicasPerPrimary)
  {
    var currentPrimaries: seq<Pod>, currentReplicas: seq<Pod> := [], [];
    for i := 0 to |nodes|
      invariant currentPrimaries == Filter(IsPrimaryPod, nodes[..i]) && currentReplicas == Filter(IsReplicaPod, nodes[..i])
    {
      FilterSnoc(IsPrimaryPod, nodes, i);
      FilterSnoc(IsReplicaPod, nodes, i);
      if !nodes[i].replica {
        currentPrimaries := currentPrimaries + [nodes[i]];
      } else {
        currentReplicas := currentReplicas + [nodes[i]];
      }
    }
    assert nodes[..|nodes|] == nodes;
    var keepPrimaries, drainPrimaries := currentPrimaries, [];
    if |currentPrimaries| > targetPrimaries {
      keepPrimaries, drainPrimaries := currentPrimaries[..targetPrimaries], currentPrimaries[targetPrimaries..];
    }
    var targetReplicaCount := targetPrimaries * replicasPerPrimary;
    var keepReplicas, removeReplicas := currentReplicas, [];
    if |currentReplicas| > targetReplicaCount {
      keepReplicas, removeReplicas := currentReplicas[..targetReplicaCount], currentReplicas[targetReplicaCount..];
    }
    return Split(keepPrimaries, drainPrimaries, keepReplicas, removeReplicas);
  }

  lemma {:induction false} TwoRoles(nodes: seq<Pod>)
    ensures multiset(nodes) == multiset(Filter(IsPrimaryPod, nodes)) + multiset(Filter(IsReplicaPod, nodes))
  {
    if nodes != [] {
      var n := |nodes| - 1;
      TwoRoles(nodes[..n]);
      assert nodes == nodes[..n] + [nodes[n]];
    }
  }

  lemma TakeAndBeyond(xs: seq<Pod>, k: nat)
    ensures multiset(Take(xs, k)) + multiset(Beyond(xs, k)) == multiset(xs) && |Take(xs, k)| <= k
    ensures |Take(xs, k)| + |Beyond(xs, k)| == |xs|
  {
    if |xs| > k {
      assert xs == xs[..k] + xs[k..];
    }
  }

  /** Every pod is kept or removed, no more are kept than wanted, and from too many pods at least one is removed. */
  lemma SplitExact(nodes: seq<Pod>, primaries: nat, quota: nat)
    ensures var s := SplitOf(nodes, primaries, quota);
            multiset(Keep(s)) + multiset(Remove(s)) == multiset(nodes) &&
            |Keep(s)| <= primaries + primaries * quota &&
            (|nodes| > primaries + primaries * quota ==> Remove(s) != [])
  {
    var s := SplitOf(nodes, primaries, quota);
    SplitWhole(nodes, primaries, quota);
    TakeAndBeyond(Filter(IsPrimaryPod, nodes), primaries);
    TakeAndBeyond(Filter(IsReplicaPod, nodes), primaries * quota);
    assert |multiset(nodes)| == |multiset(Keep(s)) + multiset(Remove(s))| == |Keep(s)| + |Remove(s)|;
  }

  lemma SplitWhole(nodes: seq<Pod>, primaries: nat, quota: nat)
    ensures var s := SplitOf(nodes, primaries, quota); multiset(Keep(s)) + multiset(Remove(s)) == multiset(nodes)
  {
    TwoRoles(nodes);
    Dealt(Filter(IsPrimaryPod, nodes), Filter(IsReplicaPod, nodes), primaries, primaries * quota);
  }

  lemma Dealt(ps: seq<Pod>, rs: seq<Pod>, k: nat, m: nat)
    ensures multiset(Take(ps, k) + Take(rs, m)) + multiset(Beyond(rs, m) + Beyond(ps, k)) == multiset(ps) + multiset(rs)
  {
    TakeAndBeyond(ps, k);
    TakeAndBeyond(rs, m);
    Regroup(Split(Take(ps, k), Beyond(ps, k), Take(rs, m), Beyond(rs, m)));
  }

  lemma SplitRoles(nodes: seq<Pod>, primaries: nat, quota: nat)
    ensures var s := SplitOf(nodes, primaries, quota);
            (forall n <- s.removeReplicas :: n.replica && n in nodes) &&
            (forall n <- s.keepReplicas :: n.replica && n in nodes) &&
            (forall n <- s.drainPrimaries :: !n.replica && n in nodes) &&
            (forall n <- s.keepPrimaries :: !n.replica && n in nodes)
  {
    var ps, rs := Filter(IsPrimaryPod, nodes), Filter(IsReplicaPod, nodes);
    forall n | n in ps ensures !n.replica && n in nodes {
      FilterMember(IsPrimaryPod, nodes, n);
    }
    forall n | n in rs ensures n.replica && n in nodes {
      FilterMember(IsReplicaPod, nodes, n);
    }
  }

  lemma Regroup(s: Split)
    ensures multiset(Keep(s)) + multiset(Remove(s)) ==
            (multiset(s.keepPrimaries) + multiset(s.drainPrimaries)) + (multiset(s.keepReplicas) + multiset(s.removeReplicas))
  {}

  // ----- Draining and removing -----

  function IdOf(n: Pod): string {
    n.id
  }

  function IdSet(pods: seq<Pod>): set<string> {
    set n <- pods :: n.id
  }

  /** The slots that each node serves. */
  type Ownership = map<string, set<int>>

  ghost predicate Owned(own: Ownership, slot: int) {
    exists id | id in own :: slot in own[id]
  }

  ghost predicate SameSlots(a: Ownership, b: Ownership) {
    forall slot :: Owned(a, slot) <==> Owned(b, slot)
  }

  /** No slot has two owners. */
  ghost predicate Apart(own: Ownership) {
    forall a, b | a in own && b in own && a != b :: own[a] !! own[b]
  }

  /** A weighted rebalance: the drained nodes only give slots away, only the keepers receive any, and none is lost. */
  ghost predicate Redistributed(own: Ownership, next: Ownership, s: Split) {
    next.Keys == own.Keys && Apart(next) && SameSlots(own, next) &&
    forall id | id in own && id !in IdSet(s.keepPrimaries) :: next[id] <= own[id]
  }

  /** The listed pods are the cluster, as they report themselves, and replicas own nothing. */
  ghost predicate Reports(nodes: seq<Pod>, own: Ownership) {
    DistinctPods(nodes) && own.Keys == IdSet(nodes) && Apart(own) &&
    forall n <- nodes :: own[n.id] == n.slots && (n.replica ==> n.slots == {})
  }

  /** What the drain leaves: it is not asked for while the primaries to be removed report no slots. */
  function Drained(own: Ownership, s: Split, drain: Drain): Ownership {
    if exists i | 0 <= i < |s.drainPrimaries| :: s.drainPrimaries[i].slots != {} then drain.slots else own
  }

  function Reaches(target: int): Pod -> bool {
    (n: Pod) => n.ordinal >= target
  }

  /** What is served once the pods from the target ordinal on are gone. */
  function Spared(own: Ownership, nodes: seq<Pod>, target: int): Ownership {
    own - IdSet(Filter(Reaches(target), nodes))
  }

  lemma SparedNext(own: Ownership, nodes: seq<Pod>, target: int, i: nat)
    requires i < |nodes|
    ensures Spared(own, nodes[..i + 1], target) ==
            Spared(own, nodes[..i], target) - if nodes[i].ordinal >= target then {nodes[i].id} else {}
  {
    FilterSnoc(Reaches(target), nodes, i);
  }

  /** Of the listed pods, those that own slots have ordinals below the target. */
  ghost predicate OwnersBelow(pods: seq<Pod>, own: Ownership, target: int) {
    forall n | n in pods && n.id in own && own[n.id] != {} :: n.ordinal < target
  }

  class Fleet {
    /** The slots of each node the cluster knows, and the nodes removed from it, in order. */
    var own: Ownership
    var removed: seq<string>

    constructor (initial: Ownership)
      ensures own == initial && removed == []
    {
      own, removed := initial, [];
    }

    /** Removes replicas before primaries; the cluster forgets each node, with whatever it owns. */
    method RemoveNodes(remove: seq<Pod>)
      modifies this
      ensures own == old(own) - IdSet(remove)
      ensures removed == old(removed) + Map(IdOf, Filter(IsReplicaPod, remove) + Filter(IsPrimaryPod, remove))
    {
      var ordered: seq<Pod> := [];
      for i := 0 to |remove|
        invariant own == old(own) && removed == old(removed) && ordered == Filter(IsReplicaPod, remove[..i])
      {
        FilterSnoc(IsReplicaPod, remove, i);
        if remove[i].replica {
          ordered := ordered + [remove[i]];
        }
      }
      assert remove[..|remove|] == remove;
      var replicas := ordered;
      for i := 0 to |remove|
        invariant own == old(own) && removed == old(removed)
        invariant ordered == replicas + Filter(IsPrimaryPod, remove[..i])
      {
        FilterSnoc(IsPrimaryPod, remove, i);
        if !remove[i].replica {
          ordered := ordered + [remove[i]];
        }
      }
      assert ordered == Filter(IsReplicaPod, remove) + Filter(IsPrimaryPod, remove);
      ForgetAll(ordered);
      OrderedIds(remove);
    }

    method ForgetAll(ordered: seq<Pod>)
      modifies this
      ensures own == old(own) - IdSet(ordered) && removed == old(removed) + Map(IdOf, ordered)
    {
      for i := 0 to |ordered|
        invariant own == old(own) - IdSet(ordered[..i]) && removed == old(removed) + Map(IdOf, ordered[..i])
      {
        IdsNext(ordered, i);
        own, removed := own - {ordered[i].id}, removed + [ordered[i].id];
      }
      assert ordered[..|ordered|] == ordered;
    }

    /** The StatefulSet keeps the pods of ordinals below the target; the slots of the others are not served any more. */
    method ShrinkStatefulSet(nodes: seq<Pod>, target: nat, shrinks: bool)
      modifies this`own
      ensures own == if shrinks then Spared(old(own), nodes, target) else old(own)
    {
      if !shrinks {
        return;
      }
      for i := 0 to |nodes|
        invariant own == Spared(old(own), nodes[..i], target)
      {
        SparedNext(old(own), nodes, target, i);
        if nodes[i].ordinal >= target {
          own := own - {nodes[i].id};
        }
      }
      assert nodes[..|nodes|] == nodes;
    }

    /** One pass; `shrinks` says whether resizing the StatefulSet takes effect. */
    method HandleScalingDown(nodes: seq<Pod>, targetPrimaries: nat, replicasPerPrimary: nat, drain: Drain, shrinks: bool)
      returns (outcome: Outcome)
      requires Reports(nodes, own)
      requires Redistributed(own, drain.slots, SplitOf(nodes, targetPrimaries, replicasPerPrimary))
      modifies this
      ensures outcome.AlreadySmall? <==> |nodes| <= TotalNodes(targetPrimaries, replicasPerPrimary)
      ensures outcome.Retry? || !shrinks ==> SameSlots(old(own), own)
      ensures !outcome.Removed? ==> removed == old(removed)
      ensures outcome.Retry? ==> own.Keys == old(own).Keys
      ensures outcome.AlreadySmall? && shrinks ==>
                (SameSlots(old(own), own) <==>
                 OwnersBelow(nodes, old(own), TotalNodes(targetPrimaries, replicasPerPrimary)))
      ensures outcome.Removed? ==>
                outcome.split == SplitOf(nodes, targetPrimaries, replicasPerPrimary) &&
                removed == old(removed) + Map(IdOf, outcome.split.removeReplicas + outcome.split.drainPrimaries)
      ensures outcome.Removed? && !shrinks ==> own.Keys == IdSet(Keep(outcome.split))
      ensures outcome.Removed? && shrinks ==>
                (SameSlots(old(own), own) <==>
                 OwnersBelow(outcome.split.keepPrimaries, Drained(old(own), outcome.split, drain),
                             TotalNodes(targetPrimaries, replicasPerPrimary)))
    {
      var targetTotal := TotalNodes(targetPrimaries, replicasPerPrimary);
      if |nodes| <= targetTotal {
        ShrinkExact(nodes, own, targetTotal);
        ShrinkStatefulSet(nodes, targetTotal, shrinks);
        return AlreadySmall;
      }
      var s := SplitPods(nodes, targetPrimaries, replicasPerPrimary);
      SplitRoles(nodes, targetPrimaries, replicasPerPrimary);
      var ready := DrainPrimaries(nodes, s, drain);
      if !ready {
        return Outcome.Retry;
      }
      RemovalLosesNothing(nodes, targetPrimaries, replicasPerPrimary, old(own), own);
      RemovalOrder(nodes, targetPrimaries, replicasPerPrimary);
      ShrinkAfterRemoval(nodes, targetPrimaries, replicasPerPrimary, old(own), own, targetTotal);
      RemoveNodes(Remove(s));
      ShrinkStatefulSet(nodes, targetTotal, shrinks);
      return Removed(s);
    }

    /** Empties the primaries to be removed, unless they are empty already; false means to try again later. */
    method DrainPrimaries(ghost nodes: seq<Pod>, s: Split, drain: Drain) returns (ready: bool)
      requires Reports(nodes, own) && Redistributed(own, drain.slots, s)
      requires forall n <- s.drainPrimaries :: n in nodes
      modifies this`own
      ensures Redistributed(old(own), own, s) && own == Drained(old(own), s, drain)
      ensures ready ==> forall n <- s.drainPrimaries :: n.id in own && own[n.id] == {}
    {
      var drainHasSlots := false;
      for i := 0 to |s.drainPrimaries|
        invariant drainHasSlots <==> exists j | 0 <= j < i :: s.drainPrimaries[j].slots != {}
      {
        if s.drainPrimaries[i].slots != {} {
          drainHasSlots := true;
        }
      }
      if !drainHasSlots {
        return true;
      }
      own := drain.slots;
      if !drain.complete {
        return false;
      }
      for i := 0 to |s.drainPrimaries|
        invariant forall j | 0 <= j < i :: s.drainPrimaries[j].id in own && own[s.drainPrimaries[j].id] == {}
      {
        assert s.drainPrimaries[i] in s.drainPrimaries;
        if own[s.drainPrimaries[i].id] != {} {
          return false;
        }
      }
      return true;
    }
  }

  lemma IdsNext(pods: seq<Pod>, i: nat)
    requires i < |pods|
    ensures IdSet(pods[..i + 1]) == IdSet(pods[..i]) + {pods[i].id}
    ensures Map(IdOf, pods[..i + 1]) == Map(IdOf, pods[..i]) + [pods[i].id]
  {
    assert pods[..i + 1] == pods[..i] + [pods[i]];
    assert forall n :: n in pods[..i + 1] <==> n in pods[..i] || n == pods[i];
  }

  lemma OrderedIds(remove: seq<Pod>)
    ensures IdSet(Filter(IsReplicaPod, remove) + Filter(IsPrimaryPod, remove)) == IdSet(remove)
  {
    var ordered := Filter(IsReplicaPod, remove) + Filter(IsPrimaryPod, remove);
    forall n ensures n in ordered <==> n in remove {
      FilterMember(IsReplicaPod, remove, n);
      FilterMember(IsPrimaryPod, remove, n);
    }
  }

  lemma {:induction false} FilterAll(keep: Pod -> bool, xs: seq<Pod>)
    requires forall n <- xs :: keep(n)
    ensures Filter(keep, xs) == xs
  {
    if xs != [] {
      FilterAll(keep, xs[..|xs| - 1]);
      assert xs == xs[..|xs| - 1] + [xs[|xs| - 1]];
    }
  }

  lemma {:induction false} FilterAppend(keep: Pod -> bool, a: seq<Pod>, b: seq<Pod>)
    ensures Filter(keep, a + b) == Filter(keep, a) + Filter(keep, b)
  {
    if b == [] {
      assert a + b == a;
    } else {
      FilterAppend(keep, a, b[..|b| - 1]);
      assert (a + b)[..|a + b| - 1] == a + b[..|b| - 1];
    }
  }

  lemma FilterNone(keep: Pod -> bool, xs: seq<Pod>)
    requires forall n <- xs :: !keep(n)
    ensures Filter(keep, xs) == []
  {
    EmptyFilter(keep, xs);
  }

  /** The list of nodes to remove names the replicas first already. */
  lemma RemovalOrder(nodes: seq<Pod>, primaries: nat, quota: nat)
    ensures var remove := Remove(SplitOf(nodes, primaries, quota));
            Filter(IsReplicaPod, remove) + Filter(IsPrimaryPod, remove) == remove
  {
    var s := SplitOf(nodes, primaries, quota);
    SplitRoles(nodes, primaries, quota);
    RolesFilter(s.removeReplicas, s.drainPrimaries);
  }

  lemma RolesFilter(rs: seq<Pod>, ps: seq<Pod>)
    requires (forall n <- rs :: n.replica) && forall n <- ps :: !n.replica
    ensures Filter(IsReplicaPod, rs + ps) == rs && Filter(IsPrimaryPod, rs + ps) == ps
  {
    FilterAppend(IsReplicaPod, rs, ps);
    FilterAppend(IsPrimaryPod, rs, ps);
    FilterAll(IsReplicaPod, rs);
    FilterNone(IsReplicaPod, ps);
    FilterNone(IsPrimaryPod, rs);
    FilterAll(IsPrimaryPod, ps);
  }

  lemma {:induction false} ListedOnce(nodes: seq<Pod>, n: Pod)
    requires DistinctPods(nodes)
    ensures multiset(nodes)[n] <= 1
  {
    if nodes != [] {
      var k := |nodes| - 1;
      ListedOnce(nodes[..k], n);
      assert nodes == nodes[..k] + [nodes[k]];
      assert nodes[k] !in nodes[..k];
    }
  }

  lemma KeptOrRemoved(nodes: seq<Pod>, primaries: nat, quota: nat, n: Pod, m: Pod)
    requires DistinctPods(nodes)
    requires n in Keep(SplitOf(nodes, primaries, quota)) && m in Remove(SplitOf(nodes, primaries, quota))
    ensures n.id != m.id
  {
    var s := SplitOf(nodes, primaries, quota);
    SplitExact(nodes, primaries, quota);
    assert n in multiset(Keep(s)) && m in multiset(Remove(s));
    assert n in multiset(nodes) && m in multiset(nodes);
    ListedOnce(nodes, n);
    assert n.id == m.id ==> n == m;
  }

  lemma KeptIds(nodes: seq<Pod>, primaries: nat, quota: nat)
    requires DistinctPods(nodes)
    ensures var s := SplitOf(nodes, primaries, quota);
            IdSet(nodes) - IdSet(Remove(s)) == IdSet(Keep(s))
  {
    var s := SplitOf(nodes, primaries, quota);
    SplitExact(nodes, primaries, quota);
    forall n ensures n in nodes <==> n in Keep(s) || n in Remove(s) {
      assert n in nodes <==> n in multiset(Keep(s)) + multiset(Remove(s));
    }
    forall id | id in IdSet(Keep(s)) ensures id !in IdSet(Remove(s)) {
      var n :| n in Keep(s) && n.id == id;
      if id in IdSet(Remove(s)) {
        var m :| m in Remove(s) && m.id == id;
        KeptOrRemoved(nodes, primaries, quota, n, m);
      }
    }
  }

  lemma RemovedReplicaEmpty(nodes: seq<Pod>, primaries: nat, quota: nat, own: Ownership,
                            next: Ownership, n: Pod)
    requires Reports(nodes, own) && Redistributed(own, next, SplitOf(nodes, primaries, quota))
    requires n in SplitOf(nodes, primaries, quota).removeReplicas
    ensures n.id in next && next[n.id] == {}
  {
    var s := SplitOf(nodes, primaries, quota);
    SplitRoles(nodes, primaries, quota);
    assert n.id !in IdSet(s.keepPrimaries);
  }

  /** Once the drained primaries are empty, removing the surplus nodes leaves every slot with the keepers. */
  lemma RemovalLosesNothing(nodes: seq<Pod>, primaries: nat, quota: nat, own: Ownership,
                            next: Ownership)
    requires Reports(nodes, own) && Redistributed(own, next, SplitOf(nodes, primaries, quota))
    requires forall n <- SplitOf(nodes, primaries, quota).drainPrimaries :: n.id in next && next[n.id] == {}
    ensures var s := SplitOf(nodes, primaries, quota);
            (next - IdSet(Remove(s))).Keys == IdSet(Keep(s)) &&
            forall slot :: Owned(own, slot) <==> Owned(next - IdSet(Remove(s)), slot)
  {
    var s := SplitOf(nodes, primaries, quota);
    KeptIds(nodes, primaries, quota);
    forall id | id in IdSet(Remove(s)) ensures id in next && next[id] == {} {
      var n :| n in Remove(s) && n.id == id;
      if n in s.removeReplicas {
        RemovedReplicaEmpty(nodes, primaries, quota, own, next, n);
      }
    }
    WithoutEmpty(next, IdSet(Remove(s)));
  }

  lemma WithoutEmpty(own: Ownership, gone: set<string>)
    requires forall id | id in gone :: id in own && own[id] == {}
    ensures forall slot :: Owned(own, slot) <==> Owned(own - gone, slot)
  {
    forall slot ensures Owned(own, slot) <==> Owned(own - gone, slot) {
      if id :| id in own && slot in own[id] {
        assert id in own - gone;
      }
    }
  }

  // ----- Shrinking the StatefulSet -----

  lemma NamedOnce(nodes: seq<Pod>, n: Pod, m: Pod)
    requires DistinctPods(nodes) && n in nodes && m in nodes && n.id == m.id
    ensures n == m
  {}

  lemma SparedHas(nodes: seq<Pod>, own: Ownership, target: int, n: Pod)
    requires DistinctPods(nodes) && n in nodes && n.id in own
    ensures n.id in Spared(own, nodes, target) <==> n.ordinal < target
  {
    FilterMember(Reaches(target), nodes, n);
    if n.id in IdSet(Filter(Reaches(target), nodes)) {
      var m :| m in Filter(Reaches(target), nodes) && m.id == n.id;
      FilterMember(Reaches(target), nodes, m);
      NamedOnce(nodes, n, m);
    }
  }

  /** Shrinking the StatefulSet loses no slot exactly when all slot owners sit below the target ordinal. */
  lemma ShrinkExact(nodes: seq<Pod>, own: Ownership, target: int)
    requires DistinctPods(nodes) && Apart(own) && own.Keys <= IdSet(nodes)
    ensures SameSlots(own, Spared(own, nodes, target)) <==> OwnersBelow(nodes, own, target)
  {
    var next := Spared(own, nodes, target);
    if OwnersBelow(nodes, own, target) {
      forall slot | Owned(own, slot) ensures Owned(next, slot) {
        var id :| id in own && slot in own[id];
        var n :| n in nodes && n.id == id;
        SparedHas(nodes, own, target, n);
      }
    }
    if SameSlots(own, next) {
      forall n | n in nodes && n.id in own && n.ordinal >= target ensures own[n.id] == {} {
        forall slot ensures slot !in own[n.id] {
          SparedHas(nodes, own, target, n);
          assert Owned(next, slot) ==> slot !in own[n.id];
        }
      }
    }
  }

  lemma KeptReplicaEmpty(nodes: seq<Pod>, primaries: nat, quota: nat, own: Ownership, next: Ownership, n: Pod)
    requires Reports(nodes, own) && Redistributed(own, next, SplitOf(nodes, primaries, quota))
    requires n in SplitOf(nodes, primaries, quota).keepReplicas
    ensures n.id in next && next[n.id] == {}
  {
    var s := SplitOf(nodes, primaries, quota);
    SplitRoles(nodes, primaries, quota);
    forall m | m in s.keepPrimaries ensures m.id != n.id {
      assert n.replica && !m.replica && DistinctPods(nodes);
    }
  }

  lemma KeptOwners(nodes: seq<Pod>, primaries: nat, quota: nat, own: Ownership, next: Ownership, n: Pod)
    requires Reports(nodes, own) && Redistributed(own, next, SplitOf(nodes, primaries, quota))
    requires forall m <- SplitOf(nodes, primaries, quota).drainPrimaries :: m.id in next && next[m.id] == {}
    requires n in nodes && n.id in next && next[n.id] != {}
    ensures n in SplitOf(nodes, primaries, quota).keepPrimaries
    ensures n.id !in IdSet(Remove(SplitOf(nodes, primaries, quota)))
  {
    var s := SplitOf(nodes, primaries, quota);
    SplitExact(nodes, primaries, quota);
    SplitRoles(nodes, primaries, quota);
    assert n in multiset(Keep(s)) + multiset(Remove(s));
    if n in s.removeReplicas {
      RemovedReplicaEmpty(nodes, primaries, quota, own, next, n);
    } else if n in s.keepReplicas {
      KeptReplicaEmpty(nodes, primaries, quota, own, next, n);
    }
    assert n in Keep(s);
    forall m | m in Remove(s) ensures m.id != n.id {
      KeptOrRemoved(nodes, primaries, quota, n, m);
    }
  }

  /** After draining and removing, no slot is lost exactly when the kept slot owners sit below the target ordinal. */
  lemma ShrinkAfterRemoval(nodes: seq<Pod>, primaries: nat, quota: nat, own: Ownership, next: Ownership, target: int)
    requires Reports(nodes, own) && Redistributed(own, next, SplitOf(nodes, primaries, quota))
    requires forall n <- SplitOf(nodes, primaries, quota).drainPrimaries :: n.id in next && next[n.id] == {}
    ensures var s := SplitOf(nodes, primaries, quota);
            SameSlots(own, Spared(next - IdSet(Remove(s)), nodes, target)) <==> OwnersBelow(s.keepPrimaries, next, target)
  {
    var s := SplitOf(nodes, primaries, quota);
    var left := next - IdSet(Remove(s));
    RemovalLosesNothing(nodes, primaries, quota, own, next);
    SplitRoles(nodes, primaries, quota);
    ShrinkExact(nodes, left, target);
    SameTwice(own, left, Spared(left, nodes, target));
    forall n | n in nodes && n.id in next && next[n.id] != {} ensures n in s.keepPrimaries && n.id in left {
      KeptOwners(nodes, primaries, quota, own, next, n);
    }
  }

  lemma SameTwice(a: Ownership, b: Ownership, c: Ownership)
    requires SameSlots(a, b)
    ensures SameSlots(b, c) <==> SameSlots(a, c)
  {}

  /** The pods are listed by ordinal. */
  ghost predicate ByOrdinal(nodes: seq<Pod>) {
    forall i, j | 0 <= i < j < |nodes| :: nodes[i].ordinal < nodes[j].ordinal
  }

  function PrimaryBelow(target: int): Pod -> bool {
    (n: Pod) => !n.replica && n.ordinal < target
  }

  ghost predicate BelowFirst(ps: seq<Pod>, near: nat, target: int) {
    near <= |ps| && forall i | 0 <= i < |ps| :: ps[i].ordinal < target <==> i < near
  }

  lemma BelowNext(ps: seq<Pod>, near: nat, n: Pod, target: int)
    requires BelowFirst(ps, near, target) && (n.ordinal < target ==> forall m <- ps :: m.ordinal < target)
    ensures BelowFirst(ps + [n], if n.ordinal < target then near + 1 else near, target)
  {
    assert n.ordinal < target && ps != [] ==> ps[|ps| - 1].ordinal < target;
  }

  /** The primaries in order hold those below the target first. */
  lemma {:induction false} FilterByOrdinal(nodes: seq<Pod>, target: int)
    requires ByOrdinal(nodes)
    ensures BelowFirst(Filter(IsPrimaryPod, nodes), |Filter(PrimaryBelow(target), nodes)|, target)
  {
    if nodes != [] {
      var n := |nodes| - 1;
      var ps := Filter(IsPrimaryPod, nodes[..n]);
      FilterByOrdinal(nodes[..n], target);
      forall m | m in ps && nodes[n].ordinal < target ensures m.ordinal < target {
        FilterMember(IsPrimaryPod, nodes[..n], m);
      }
      BelowNext(ps, |Filter(PrimaryBelow(target), nodes[..n])|, nodes[n], target);
    }
  }

  /**
   The StatefulSet keeps the pods of the lowest ordinals, whatever their roles. All primaries that were kept
   survive exactly when there are at least as many primaries below the target ordinal as were kept.
   */
  lemma KeptPrimariesSurvive(nodes: seq<Pod>, primaries: nat, quota: nat, target: int)
    requires ByOrdinal(nodes)
    ensures var kept := SplitOf(nodes, primaries, quota).keepPrimaries;
            (forall n <- kept :: n.ordinal < target) <==> |Filter(PrimaryBelow(target), nodes)| >= |kept|
  {
    var ps, near := Filter(IsPrimaryPod, nodes), |Filter(PrimaryBelow(target), nodes)|;
    var kept := SplitOf(nodes, primaries, quota).keepPrimaries;
    FilterByOrdinal(nodes, target);
    assert forall i | 0 <= i < |kept| :: kept[i] == ps[i];
    if near < |kept| {
      assert kept[near] in kept;
    }
  }

  /**
   Where the drain leaves every kept primary with slots, the whole scale-down loses none exactly when at least as
   many primaries sit below the target ordinal as are kept: the roles and ordinals before the call decide.
   */
  lemma ShrinkDecidedBefore(nodes: seq<Pod>, primaries: nat, quota: nat, own: Ownership, next: Ownership, target: int)
    requires Reports(nodes, own) && Redistributed(own, next, SplitOf(nodes, primaries, quota)) && ByOrdinal(nodes)
    requires forall n <- SplitOf(nodes, primaries, quota).drainPrimaries :: n.id in next && next[n.id] == {}
    requires forall n <- SplitOf(nodes, primaries, quota).keepPrimaries :: n.id in next && next[n.id] != {}
    ensures var s := SplitOf(nodes, primaries, quota);
            SameSlots(own, Spared(next - IdSet(Remove(s)), nodes, target)) <==>
            |Filter(PrimaryBelow(target), nodes)| >= |s.keepPrimaries|
  {
    ShrinkAfterRemoval(nodes, primaries, quota, own, next, target);
    KeptPrimariesSurvive(nodes, primaries, quota, target);
  }

  const LOWER_HALF := set s: int | 0 <= s < 8192
  const UPPER_HALF := set s: int | 8192 <= s < 16384

  /** After a failover moved the primaries to the last ordinals: the primary that is kept, with all slots, goes. */
  const SHUFFLED := [
    Pod(0, "a", "10.0.0.1", true, {}), Pod(1, "b", "10.0.0.2", true, {}),
    Pod(2, "c", "10.0.0.3", false, LOWER_HALF), Pod(3, "d", "10.0.0.4", false, UPPER_HALF)]

  lemma ShuffledSplit()
    ensures SplitOf(SHUFFLED, 1, 1).keepPrimaries == [SHUFFLED[2]]
    ensures SplitOf(SHUFFLED, 1, 1).drainPrimaries == [SHUFFLED[3]]
  {
    assert SHUFFLED[..3][..2] == SHUFFLED[..2] && SHUFFLED[..2][..1] == SHUFFLED[..1] && SHUFFLED[..1][..0] == [];
    FilterSnoc(IsPrimaryPod, SHUFFLED, 0);
    FilterSnoc(IsPrimaryPod, SHUFFLED, 1);
    FilterSnoc(IsPrimaryPod, SHUFFLED, 2);
    FilterSnoc(IsPrimaryPod, SHUFFLED, 3);
    assert SHUFFLED[..0] == [] && SHUFFLED[..4] == SHUFFLED;
    assert Filter(IsPrimaryPod, SHUFFLED) == [SHUFFLED[2], SHUFFLED[3]];
  }

  lemma ShuffledPods()
    ensures forall n <- SHUFFLED :: n == SHUFFLED[0] || n == SHUFFLED[1] || n == SHUFFLED[2] || n == SHUFFLED[3]
    ensures SHUFFLED[0] in SHUFFLED && SHUFFLED[1] in SHUFFLED && SHUFFLED[2] in SHUFFLED && SHUFFLED[3] in SHUFFLED
  {}

  lemma HalvesApart()
    ensures LOWER_HALF !! UPPER_HALF && 0 in LOWER_HALF
  {}

  /** Such a cluster exists. */
  lemma ShuffledReports(own: Ownership)
    requires own == map["a" := {}, "b" := {}, "c" := LOWER_HALF, "d" := UPPER_HALF]
    ensures Reports(SHUFFLED, own)
  {
    ShuffledPods();
    ShuffledApart(own);
    ShuffledIds();
  }

  lemma ShuffledApart(own: Ownership)
    requires own == map["a" := {}, "b" := {}, "c" := LOWER_HALF, "d" := UPPER_HALF]
    ensures Apart(own)
  {
    HalvesApart();
  }

  lemma ShuffledIds()
    ensures DistinctPods(SHUFFLED) && IdSet(SHUFFLED) == {"a", "b", "c", "d"}
  {
    ShuffledPods();
  }

  /** And it can be drained. */
  lemma ShuffledDrains(own: Ownership, next: Ownership)
    requires own == map["a" := {}, "b" := {}, "c" := LOWER_HALF, "d" := UPPER_HALF]
    requires next == map["a" := {}, "b" := {}, "c" := LOWER_HALF + UPPER_HALF, "d" := {}]
    ensures Redistributed(own, next, SplitOf(SHUFFLED, 1, 1))
  {
    ShuffledSplit();
    assert SHUFFLED[2] in SplitOf(SHUFFLED, 1, 1).keepPrimaries;
    forall slot ensures Owned(own, slot) <==> Owned(next, slot) {
      assert slot in next["c"] <==> slot in own["c"] || slot in own["d"];
    }
  }

  lemma OnlyOwner(own: Ownership, next: Ownership, slot: int)
    requires next.Keys == {"a", "b", "c", "d"} && Owned(next, slot)
    requires slot !in next["a"] && slot !in next["b"] && slot !in next["d"]
    ensures slot in next["c"]
  {}

  lemma ShuffledOwner(own: Ownership, next: Ownership)
    requires Reports(SHUFFLED, own) && Redistributed(own, next, SplitOf(SHUFFLED, 1, 1))
    requires "d" in next && next["d"] == {}
    ensures "c" in next && next["c"] != {}
  {
    ShuffledSplit();
    ShuffledPods();
    HalvesApart();
    ShuffledKeys(own);
    assert Owned(own, 0) && Owned(next, 0);
    assert next["a"] <= own["a"] && next["b"] <= own["b"];
    OnlyOwner(own, next, 0);
  }

  lemma ShuffledKeys(own: Ownership)
    requires Reports(SHUFFLED, own)
    ensures own.Keys == {"a", "b", "c", "d"} && own["a"] == own["b"] == {} && 0 in own["c"]
  {
    ShuffledPods();
    HalvesApart();
  }

  /** From this cluster of all slots, scaling down to one primary with one replica loses slots, however it drains. */
  lemma ShrinkTakesKeeper(own: Ownership, next: Ownership)
    requires Reports(SHUFFLED, own) && Redistributed(own, next, SplitOf(SHUFFLED, 1, 1))
    requires "d" in next && next["d"] == {}
    ensures !SameSlots(own, Spared(next - IdSet(Remove(SplitOf(SHUFFLED, 1, 1))), SHUFFLED, TotalNodes(1, 1)))
  {
    ShuffledSplit();
    ShuffledOwner(own, next);
    ShrinkAfterRemoval(SHUFFLED, 1, 1, own, next, TotalNodes(1, 1));
    assert SHUFFLED[2] in SplitOf(SHUFFLED, 1, 1).keepPrimaries;
  }

  // ----- Who is kept -----

  lemma {:induction false} FilterOrdered(keep: Pod -> bool, nodes: seq<Pod>)
    requires ByOrdinal(nodes)
    ensures ByOrdinal(Filter(keep, nodes))
  {
    if nodes != [] {
      var n := |nodes| - 1;
      FilterOrdered(keep, nodes[..n]);
      forall m | m in Filter(keep, nodes[..n]) ensures m.ordinal < nodes[n].ordinal {
        FilterMember(keep, nodes[..n], m);
      }
      OrderedSnoc(Filter(keep, nodes[..n]), nodes[n]);
    }
  }

  lemma OrderedSnoc(nodes: seq<Pod>, n: Pod)
    requires ByOrdinal(nodes) && forall m <- nodes :: m.ordinal < n.ordinal
    ensures ByOrdinal(nodes + [n])
  {
    assert forall i | 0 <= i < |nodes| :: nodes[i] in nodes;
  }

  lemma KeptBelow(pods: seq<Pod>, k: nat, kept: Pod, gone: Pod)
    requires ByOrdinal(pods) && kept in Take(pods, k) && gone in Beyond(pods, k)
    ensures kept.ordinal < gone.ordinal
  {
    var i :| 0 <= i < |Take(pods, k)| && Take(pods, k)[i] == kept;
    var j :| 0 <= j < |Beyond(pods, k)| && Beyond(pods, k)[j] == gone;
    assert pods[i] == kept && pods[k + j] == gone;
  }

  /** Of each role the pods of the lowest ordinals are kept, as many as the target asks for or there are. */
  lemma KeepsLowest(nodes: seq<Pod>, primaries: nat, quota: nat)
    requires ByOrdinal(nodes)
    ensures var s := SplitOf(nodes, primaries, quota);
            (forall kept, gone | kept in s.keepPrimaries && gone in s.drainPrimaries :: kept.ordinal < gone.ordinal) &&
            (forall kept, gone | kept in s.keepReplicas && gone in s.removeReplicas :: kept.ordinal < gone.ordinal) &&
            (s.drainPrimaries != [] ==> |s.keepPrimaries| == primaries) &&
            (s.removeReplicas != [] ==> |s.keepReplicas| == primaries * quota)
  {
    var s := SplitOf(nodes, primaries, quota);
    FilterOrdered(IsPrimaryPod, nodes);
    FilterOrdered(IsReplicaPod, nodes);
    forall kept, gone | kept in s.keepPrimaries && gone in s.drainPrimaries ensures kept.ordinal < gone.ordinal {
      KeptBelow(Filter(IsPrimaryPod, nodes), primaries, kept, gone);
    }
    forall kept, gone | kept in s.keepReplicas && gone in s.removeReplicas ensures kept.ordinal < gone.ordinal {
      KeptBelow(Filter(IsReplicaPod, nodes), primaries * quota, kept, gone);
    }
  }
}
