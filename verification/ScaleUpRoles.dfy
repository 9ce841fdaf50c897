/**
 Who becomes what when the cluster grows: internal/reconciler/scale_reconciler.go, and how replicas are then
 attached: internal/reconciler/cluster_reconciler.go. Pods are listed by ordinal.
 */
module ScaleUpRoles {
  import opened Lists
  import Ordinals
  import opened ReplicaTopology
  import opened TopologyConvergence
  import opened TopologyCounting

  /** A pod with its ordinal in the StatefulSet, and its Redis node as it reports itself. */
  datatype Pod = Pod(ordinal: int, id: string, ip: string, replica: bool, slots: set<int>)

  function TotalNodes(primaries: nat, quota: nat): nat {
    primaries + primaries * quota
  }

  datatype Classification =
    | Assign(primaries: seq<Pod>, replicas: seq<Pod>)
    | PromoteSurplus
    | Retry

  /** How a pass ends: too few nodes, surplus replicas to promote, no way on, a refused replica, or all attached. */
  datatype UpOutcome = Waiting | Promoting | Stalled | Refused | Attached(primaries: seq<Pod>, replicas: seq<Pod>)

  // ----- Classification -----

  function OwnsAsMember(members: set<string>): Pod -> bool {
    (n: Pod) => n.id in members && !n.replica && n.slots != {}
  }

  function ReplicaMember(members: set<string>): Pod -> bool {
    (n: Pod) => n.id in members && n.replica
  }

  function EmptyMember(members: set<string>): Pod -> bool {
    (n: Pod) => n.id in members && !n.replica && n.slots == {}
  }

  function NotMember(members: set<string>): Pod -> bool {
    (n: Pod) => n.id !in members
  }

  /** Nodes without a role, those already in the cluster first. */
  function Available(nodes: seq<Pod>, members: set<string>): seq<Pod> {
    Filter(EmptyMember(members), nodes) + Filter(NotMember(members), nodes)
  }

  function Needed(nodes: seq<Pod>, members: set<string>, primaries: nat): nat {
    var existing := |Filter(OwnsAsMember(members), nodes)|;
    if existing >= primaries then 0 else primaries - existing
  }

  /** Slot owners stay primaries, the first nodes without a role join them, and all others become or stay replicas. */
  ghost predicate IsClassification(nodes: seq<Pod>, members: set<string>, primaries: nat, quota: nat, c: Classification) {
    var available, needed := Available(nodes, members), Needed(nodes, members, primaries);
    var existingReplicas := Filter(ReplicaMember(members), nodes);
    if needed > |available| then
      c == if |existingReplicas| > primaries * quota then PromoteSurplus else Retry
    else
      c == Assign(Filter(OwnsAsMember(members), nodes) + available[..needed], existingReplicas + available[needed..])
  }

  method ClassifyPods(nodes: seq<Pod>, members: set<string>, primaryCount: nat, replicasPerPrimary: nat)
    returns (c: Classification)
    ensures IsClassification(nodes, members, primaryCount, replicasPerPrimary, c)
  {
    var existingPrimaries: seq<Pod>, existingReplicas: seq<Pod>, pendingNodes: seq<Pod>, newNodes: seq<Pod> := [], [], [], [];
    for i := 0 to |nodes|
      invariant existingPrimaries == Filter(OwnsAsMember(members), nodes[..i])
      invariant existingReplicas == Filter(ReplicaMember(members), nodes[..i])
      invariant pendingNodes == Filter(EmptyMember(members), nodes[..i])
      invariant newNodes == Filter(NotMember(members), nodes[..i])
    {
      FilterSnoc(OwnsAsMember(members), nodes, i);
      FilterSnoc(ReplicaMember(members), nodes, i);
      FilterSnoc(EmptyMember(members), nodes, i);
      FilterSnoc(NotMember(members), nodes, i);
      if nodes[i].id in members {
        if nodes[i].replica {
          existingReplicas := existingReplicas + [nodes[i]];
        } else if nodes[i].slots != {} {
          existingPrimaries := existingPrimaries + [nodes[i]];
        } else {
          pendingNodes := pendingNodes + [nodes[i]];
        }
      } else {
        newNodes := newNodes + [nodes[i]];
      }
    }
    assert nodes[..|nodes|] == nodes;
    var availableNodes := pendingNodes + newNodes;
    var newPrimariesNeeded := primaryCount - |existingPrimaries|;
    if newPrimariesNeeded < 0 {
      newPrimariesNeeded := 0;
    }
    if newPrimariesNeeded > |availableNodes| {
      var surplusReplicas := |existingReplicas| - primaryCount * replicasPerPrimary;
      if surplusReplicas > 0 {
        return PromoteSurplus;
      }
      return Retry;
    }
    var futurePrimaries := availableNodes[..newPrimariesNeeded];
    var futureReplicas := availableNodes[newPrimariesNeeded..];
    return Assign(existingPrimaries + futurePrimaries, existingReplicas + futureReplicas);
  }

  function One(keep: Pod -> bool, n: Pod): multiset<Pod> {
    if keep(n) then multiset{n} else multiset{}
  }

  lemma FilterParts(keep: Pod -> bool, nodes: seq<Pod>)
    requires nodes != []
    ensures multiset(Filter(keep, nodes)) ==
            multiset(Filter(keep, nodes[..|nodes| - 1])) + One(keep, nodes[|nodes| - 1])
  {}

  lemma OneRole(n: Pod, members: set<string>)
    ensures One(OwnsAsMember(members), n) + One(ReplicaMember(members), n) + One(EmptyMember(members), n) +
            One(NotMember(members), n) == multiset{n}
  {}

  lemma {:induction false} FourParts(nodes: seq<Pod>, members: set<string>)
    ensures multiset(nodes) ==
            multiset(Filter(OwnsAsMember(members), nodes)) + multiset(Filter(ReplicaMember(members), nodes)) +
            multiset(Filter(EmptyMember(members), nodes)) + multiset(Filter(NotMember(members), nodes))
  {
    if nodes != [] {
      var n := |nodes| - 1;
      FourParts(nodes[..n], members);
      assert nodes == nodes[..n] + [nodes[n]];
      FilterParts(OwnsAsMember(members), nodes);
      FilterParts(ReplicaMember(members), nodes);
      FilterParts(EmptyMember(members), nodes);
      FilterParts(NotMember(members), nodes);
      OneRole(nodes[n], members);
    }
  }

  lemma Exchange<A>(a: multiset<A>, b: multiset<A>, c: multiset<A>, d: multiset<A>, e: multiset<A>, f: multiset<A>)
    requires b + d == e + f
    ensures (a + b) + (c + d) == a + c + e + f
  {
    assert (a + b) + (c + d) == a + c + (b + d);
  }

  /** Dealing out a prefix of the third and fourth list to the first, and the rest to the second, keeps the whole. */
  lemma DealsOut(first: seq<Pod>, second: seq<Pod>, third: seq<Pod>, fourth: seq<Pod>, k: nat)
    requires k <= |third + fourth|
    ensures multiset((first + (third + fourth)[..k]) + (second + (third + fourth)[k..])) ==
            multiset(first) + multiset(second) + multiset(third) + multiset(fourth)
  {
    var rest := third + fourth;
    var head, tail := rest[..k], rest[k..];
    assert rest == head + tail;
    assert multiset(head + tail) == multiset(head) + multiset(tail);
    assert multiset(rest) == multiset(third) + multiset(fourth);
    assert multiset((first + head) + (second + tail)) ==
           (multiset(first) + multiset(head)) + (multiset(second) + multiset(tail));
    Exchange(multiset(first), multiset(head), multiset(second), multiset(tail), multiset(third), multiset(fourth));
  }

  lemma AssignPermutes(nodes: seq<Pod>, members: set<string>, primaries: nat, quota: nat, c: Classification)
    requires IsClassification(nodes, members, primaries, quota, c) && c.Assign?
    ensures multiset(c.primaries + c.replicas) == multiset(nodes)
  {
    FourParts(nodes, members);
    DealsOut(Filter(OwnsAsMember(members), nodes), Filter(ReplicaMember(members), nodes),
             Filter(EmptyMember(members), nodes), Filter(NotMember(members), nodes), Needed(nodes, members, primaries));
  }

  /**
   With as many pods as the target topology has nodes, no more slot owners than target primaries and enough
   nodes without a role, every pod gets exactly one role, in the right numbers, and nobody that owns slots in
   the cluster becomes a replica.
   */
  lemma RolesExact(nodes: seq<Pod>, members: set<string>, primaries: nat, quota: nat, c: Classification)
    requires IsClassification(nodes, members, primaries, quota, c) && |nodes| == primaries + primaries * quota
    requires |Filter(OwnsAsMember(members), nodes)| <= primaries
    requires Needed(nodes, members, primaries) <= |Available(nodes, members)|
    ensures c.Assign? && |c.primaries| == primaries && |c.replicas| == primaries * quota
    ensures multiset(c.primaries + c.replicas) == multiset(nodes)
    ensures forall n <- c.replicas :: !OwnsAsMember(members)(n)
  {
    AssignPermutes(nodes, members, primaries, quota, c);
    assert |multiset(c.primaries + c.replicas)| == |c.primaries| + |c.replicas|;
    assert |multiset(nodes)| == |nodes|;
    forall n <- c.replicas ensures !OwnsAsMember(members)(n) {
      FilterMember(ReplicaMember(members), nodes, n);
      AvailableOwnNothing(nodes, members, n);
    }
  }

  lemma AvailableOwnNothing(nodes: seq<Pod>, members: set<string>, n: Pod)
    ensures n in Available(nodes, members) ==> !OwnsAsMember(members)(n)
  {
    FilterMember(EmptyMember(members), nodes, n);
    FilterMember(NotMember(members), nodes, n);
  }

  /** The listed nodes are addressed and distinct; the followers are the replicas among them, all in the cluster. */
  ghost predicate Joining(nodes: seq<Pod>, members: set<string>, follows: map<string, string>) {
    DistinctPods(nodes) &&
    forall n <- nodes :: n.ip != "" && (n.id in follows <==> n.replica) && (n.replica ==> n.id in members)
  }

  // ----- Attaching replicas -----

  /** The primary that the i-th replica is attached to. */
  function TargetOf(primaries: seq<Pod>, quota: nat, i: nat): Pod
    requires primaries != [] && quota > 0
  {
    primaries[if i / quota >= |primaries| then |primaries| - 1 else i / quota]
  }

  ghost predicate DistinctPods(pods: seq<Pod>) {
    forall i, j | 0 <= i < |pods| && 0 <= j < |pods| && pods[i].id == pods[j].id :: i == j
  }

  /** The first i replicas follow their targets. */
  ghost predicate AttachedUpTo(follows: map<string, string>, primaries: seq<Pod>, replicas: seq<Pod>, quota: nat, i: nat)
    requires primaries != [] && quota > 0 && i <= |replicas|
  {
    forall j | 0 <= j < i :: replicas[j].id in follows && follows[replicas[j].id] == TargetOf(primaries, quota, j).id
  }

  ghost predicate AmongFirst(replicas: seq<Pod>, i: nat, id: string)
    requires i <= |replicas|
  {
    exists j | 0 <= j < i :: replicas[j].id == id
  }

  /** Nobody else follows anyone new. */
  ghost predicate OthersKept(before: map<string, string>, now: map<string, string>, replicas: seq<Pod>, i: nat)
    requires i <= |replicas|
  {
    forall id | !AmongFirst(replicas, i, id) :: (id in now <==> id in before) && (id in now ==> now[id] == before[id])
  }

  lemma AttachesNext(before: map<string, string>, now: map<string, string>, next: map<string, string>,
                     primaries: seq<Pod>, replicas: seq<Pod>, quota: nat, i: nat)
    requires primaries != [] && quota > 0 && i < |replicas|
    requires DistinctPods(replicas)
    requires AttachedUpTo(now, primaries, replicas, quota, i) && OthersKept(before, now, replicas, i)
    requires next == now[replicas[i].id := TargetOf(primaries, quota, i).id]
    ensures AttachedUpTo(next, primaries, replicas, quota, i + 1) && OthersKept(before, next, replicas, i + 1)
  {
    forall id | !AmongFirst(replicas, i + 1, id)
      ensures (id in next <==> id in before) && (id in next ==> next[id] == before[id])
    {
      assert replicas[i].id != id;
      assert !AmongFirst(replicas, i, id);
    }
  }

  class Replication {
    /** Whom each replica follows. */
    var follows: map<string, string>

    constructor (initial: map<string, string>)
      ensures follows == initial
    {
      follows := initial;
    }

    method ClusterReplicate(replica: string, primary: string, refused: bool) returns (ok: bool)
      modifies this
      ensures ok == !refused
      ensures follows == if ok then old(follows)[replica := primary] else old(follows)
    {
      if refused {
        return false;
      }
      follows := follows[replica := primary];
      return true;
    }

    /** Skips a replica that already follows the primary. */
    method AttachReplica(replica: string, primary: string, refused: bool) returns (ok: bool)
      modifies this
      ensures !ok ==> refused
      ensures follows == if ok then old(follows)[replica := primary] else old(follows)
    {
      if replica in follows && follows[replica] == primary {
        SameAlready(follows, replica, primary);
        return true;
      }
      ok := ClusterReplicate(replica, primary, refused);
    }

    method SetReplicas(primaries: seq<Pod>, replicas: seq<Pod>, replicasPerPrimary: nat, refusing: set<string>)
      returns (ok: bool)
      requires primaries != [] && replicasPerPrimary > 0
      requires DistinctPods(replicas)
      modifies this
      ensures ok ==> AttachedUpTo(follows, primaries, replicas, replicasPerPrimary, |replicas|)
      ensures !ok ==> exists i | 0 <= i < |replicas| :: replicas[i].id in refusing
      ensures OthersKept(old(follows), follows, replicas, |replicas|)
    {
      for i := 0 to |replicas|
        invariant AttachedUpTo(follows, primaries, replicas, replicasPerPrimary, i)
        invariant OthersKept(old(follows), follows, replicas, i)
      {
        var before := follows;
        var primaryIdx := i / replicasPerPrimary;
        if primaryIdx >= |primaries| {
          primaryIdx := |primaries| - 1;
        }
        var id := replicas[i].id;
        ok := AttachReplica(id, primaries[primaryIdx].id, id in refusing);
        if !ok {
          KeptLonger(old(follows), follows, replicas, i);
          return false;
        }
        AttachesNext(old(follows), before, follows, primaries, replicas, replicasPerPrimary, i);
      }
      return true;
    }

    /**
     One pass over the pods of the target topology. Meeting, healing and the rebalance in between are left out:
     `slots` is whatever they leave each primary with.
     */
    method HandleScalingUp(nodes: seq<Pod>, members: set<string>, primaryCount: nat, replicasPerPrimary: nat,
                           refusing: set<string>, slots: string -> set<int>)
      returns (outcome: UpOutcome)
      requires primaryCount >= 1 && |nodes| <= TotalNodes(primaryCount, replicasPerPrimary)
      requires Joining(nodes, members, follows)
      modifies this
      ensures outcome.Waiting? <==> |nodes| < TotalNodes(primaryCount, replicasPerPrimary)
      ensures outcome.Promoting? || outcome.Stalled? <==>
                !outcome.Waiting? && Needed(nodes, members, primaryCount) > |Available(nodes, members)|
      ensures outcome.Promoting? <==>
                !outcome.Waiting? && Needed(nodes, members, primaryCount) > |Available(nodes, members)| &&
                |Filter(ReplicaMember(members), nodes)| > primaryCount * replicasPerPrimary
      ensures outcome.Refused? ==> exists n <- nodes :: n.id in refusing
      ensures !outcome.Refused? && !outcome.Attached? ==> follows == old(follows)
      ensures forall n <- nodes | OwnsAsMember(members)(n) :: n.id !in follows
      ensures outcome.Attached? ==>
                (SpreadOK(ViewOf(nodes, follows, slots), primaryCount, replicasPerPrimary) <==>
                 |Filter(OwnsAsMember(members), nodes)| <= primaryCount)
    {
      if |nodes| < TotalNodes(primaryCount, replicasPerPrimary) {
        return Waiting;
      }
      var c := ClassifyPods(nodes, members, primaryCount, replicasPerPrimary);
      match c {
        case PromoteSurplus => return Promoting;
        case Retry => return Stalled;
        case Assign(primaries, replicas) =>
          AssignFacts(nodes, members, primaryCount, replicasPerPrimary, c, follows);
          if replicasPerPrimary > 0 && |replicas| > 0 {
            var ok := SetReplicas(primaries, replicas, replicasPerPrimary, refusing);
            OwnersFollowNobody(nodes, members, primaries, replicas, old(follows), follows);
            if !ok {
              return Refused;
            }
          }
          SpreadExactly(nodes, members, primaryCount, replicasPerPrimary, c, old(follows), follows, slots);
          return Attached(primaries, replicas);
      }
    }
  }

  lemma SameAlready(m: map<string, string>, key: string, value: string)
    requires key in m && m[key] == value
    ensures m == m[key := value]
  {}

  lemma KeptLonger(before: map<string, string>, now: map<string, string>, replicas: seq<Pod>, i: nat)
    requires i <= |replicas| && OthersKept(before, now, replicas, i)
    ensures OthersKept(before, now, replicas, |replicas|)
  {
    assert forall id | AmongFirst(replicas, i, id) :: AmongFirst(replicas, |replicas|, id);
  }

  // ----- The view that the pods then give -----

  /** A pod's entry: it follows somebody, or is a primary with whatever slots the rebalance left it. */
  function EntryOf(follows: map<string, string>, slots: string -> set<int>): Pod -> Entry {
    (n: Pod) => Entry(n.id, n.ip, if n.id in follows then Replica(follows[n.id]) else Role.Primary(slots(n.id), false))
  }

  function ViewOf(pods: seq<Pod>, follows: map<string, string>, slots: string -> set<int>): (view: seq<Entry>)
    ensures |view| == |pods| && forall i | 0 <= i < |pods| :: view[i] == EntryOf(follows, slots)(pods[i])
  {
    Map(EntryOf(follows, slots), pods)
  }

  lemma DistinctView(view: seq<Entry>)
    requires forall i, j | 0 <= i < |view| && 0 <= j < |view| && view[i].id == view[j].id :: i == j
    ensures Distinct(view)
  {
    forall id ensures Sum(HasId(id), view) <= 1 {
      if j: nat :| j < |view| && view[j].id == id {
        SumSingle(HasId(id), view, j);
      } else {
        SumZero(HasId(id), view);
      }
    }
  }

  lemma DistinctPermuted(a: seq<Entry>, b: seq<Entry>)
    requires Distinct(a) && multiset(a) == multiset(b)
    ensures Distinct(b)
  {
    forall id ensures Sum(HasId(id), b) <= 1 {
      SumPermuted(HasId(id), a, b);
    }
  }

  /** Dealing the pods out differently keeps their ids distinct. */
  lemma PodsPermuted(a: seq<Pod>, b: seq<Pod>)
    requires DistinctPods(a) && multiset(a) == multiset(b)
    ensures DistinctPods(b)
  {
    var va, vb := ViewOf(a, map[], _ => {}), ViewOf(b, map[], _ => {});
    DistinctView(va);
    MapPermuted(EntryOf(map[], _ => {}), a, b);
    DistinctPermuted(va, vb);
    forall i, j | 0 <= i < |b| && 0 <= j < |b| && b[i].id == b[j].id ensures i == j {
      DistinctAt(vb, i, j);
    }
  }

  // ----- The topology check then passes -----

  /** The view once the roles are assigned and the replicas attached, with any slots for the primaries. */
  ghost predicate Formed(primaries: seq<Pod>, replicas: seq<Pod>, quota: nat, view: seq<Entry>) {
    primaries != [] && quota > 0 &&
    |view| == |primaries| + |replicas| &&
    (forall p | 0 <= p < |primaries| ::
       view[p].id == primaries[p].id && view[p].ip == primaries[p].ip && view[p].role.Primary? && !view[p].role.moving) &&
    forall i | 0 <= i < |replicas| ::
      view[|primaries| + i] == Entry(replicas[i].id, replicas[i].ip, Replica(TargetOf(primaries, quota, i).id))
  }

  /** As many replicas of primary p as the first q blocks of the view hold. */
  lemma {:induction false} BlockFollowers(primaries: seq<Pod>, quota: nat, entries: seq<Entry>, q: nat, p: nat)
    requires p < |primaries| && quota > 0 && q <= |primaries| && |entries| == q * quota
    requires DistinctPods(primaries)
    requires forall i | 0 <= i < |entries| ::
               entries[i].role == Replica(TargetOf(primaries, quota, i).id)
    ensures Followers(entries, primaries[p].id) == if p < q then quota else 0
  {
    if q > 0 {
      assert q * quota == (q - 1) * quota + quota;
      Ordinals.Scales(0, q - 1, quota);
      var init, block := entries[..(q - 1) * quota], entries[(q - 1) * quota..];
      BlockFollowers(primaries, quota, init, q - 1, p);
      forall r | 0 <= r < quota ensures block[r].role == Replica(primaries[q - 1].id) {
        assert block[r] == entries[(q - 1) * quota + r];
        TargetInBlock(primaries, quota, q - 1, r);
      }
      LastBlock(primaries, quota, block, q - 1, p);
      assert entries == init + block;
      SumAppend(Follows(primaries[p].id), init, block);
    }
  }

  lemma TargetInBlock(primaries: seq<Pod>, quota: nat, q: nat, r: nat)
    requires q < |primaries| && r < quota
    ensures q * quota + r >= 0 && TargetOf(primaries, quota, q * quota + r) == primaries[q]
  {
    Ordinals.Scales(0, q, quota);
    Ordinals.QuotientUnique(q, quota, r);
  }

  lemma LastBlock(primaries: seq<Pod>, quota: nat, block: seq<Entry>, q: nat, p: nat)
    requires p < |primaries| && q < |primaries| && |block| == quota
    requires DistinctPods(primaries)
    requires forall r | 0 <= r < quota :: block[r].role == Replica(primaries[q].id)
    ensures Followers(block, primaries[p].id) == if p == q then quota else 0
  {
    if p == q {
      SumOnes(Follows(primaries[p].id), block);
    } else {
      SumZero(Follows(primaries[p].id), block);
    }
  }

  lemma FormedFollowers(primaries: seq<Pod>, replicas: seq<Pod>, quota: nat, view: seq<Entry>, p: nat)
    requires Formed(primaries, replicas, quota, view) && |replicas| == |primaries| * quota && p < |primaries|
    requires DistinctPods(primaries)
    ensures Followers(view, primaries[p].id) == quota
  {
    var n := |primaries|;
    var f := Follows(primaries[p].id);
    SumZero(f, view[..n]);
    BlockFollowers(primaries, quota, view[n..], n, p);
    assert view == view[..n] + view[n..];
    SumAppend(f, view[..n], view[n..]);
  }

  ghost predicate Exact(view: seq<Entry>, primaries: nat, quota: nat) {
    Sane(view, primaries, quota) && Primaries(view) == primaries &&
    forall id :: id in PrimaryIds(view) ==> Followers(view, id) == quota
  }

  /** With the counts of the classification and every replica attached, the topology is as desired. */
  lemma FormedIsExact(primaries: seq<Pod>, replicas: seq<Pod>, quota: nat, view: seq<Entry>)
    requires Formed(primaries, replicas, quota, view) && |replicas| == |primaries| * quota && Distinct(view)
    requires forall n <- primaries + replicas :: n.ip != ""
    ensures Exact(view, |primaries|, quota)
  {
    var n := |primaries|;
    DistinctPrimaries(primaries, replicas, quota, view);
    assert forall i | 0 <= i < |view| :: Settled(view[i]) by {
      FormedSettled(primaries, replicas, quota, view);
    }
    PrimariesFormed(primaries, replicas, quota, view);
    assert |view| == n * (quota + 1);
    forall id | id in PrimaryIds(view) ensures Followers(view, id) == quota {
      var p := PrimaryNamed(primaries, replicas, quota, view, id);
      FormedFollowers(primaries, replicas, quota, view, p);
    }
  }

  lemma PrimaryIdsPermuted(a: seq<Entry>, b: seq<Entry>, id: string)
    requires multiset(a) == multiset(b) && id in PrimaryIds(b)
    ensures id in PrimaryIds(a)
  {
    var e :| e in Filter(IsPrimaryEntry, b) && e.id == id;
    FilterMember(IsPrimaryEntry, b, e);
    assert e in multiset(a);
    FilterMember(IsPrimaryEntry, a, e);
  }

  lemma SettledPermuted(a: seq<Entry>, b: seq<Entry>, i: nat)
    requires multiset(a) == multiset(b) && i < |b| && forall j | 0 <= j < |a| :: Settled(a[j])
    ensures Settled(b[i])
  {
    assert b[i] in multiset(a);
    var j: nat :| j < |a| && a[j] == b[i];
  }

  /** Whatever the order of the entries. */
  lemma ExactPermuted(a: seq<Entry>, b: seq<Entry>, primaries: nat, quota: nat)
    requires Exact(a, primaries, quota) && multiset(a) == multiset(b)
    ensures Exact(b, primaries, quota)
  {
    assert |multiset(a)| == |multiset(b)|;
    DistinctPermuted(a, b);
    SumPermuted(PrimaryOne, a, b);
    forall i | 0 <= i < |b| ensures Settled(b[i]) {
      SettledPermuted(a, b, i);
    }
    forall id | id in PrimaryIds(b) ensures Followers(b, id) == quota {
      PrimaryIdsPermuted(a, b, id);
      SumPermuted(Follows(id), a, b);
    }
  }

  lemma PrimariesNamed(view: seq<Entry>)
    requires Distinct(view)
    ensures |PrimaryIds(view)| == Primaries(view)
  {
    FilterDistinct(IsPrimaryEntry, view);
    IdsSize(Filter(IsPrimaryEntry, view));
    SumLength(PrimaryOne, IsPrimaryEntry, view);
  }

  lemma DistinctPrimaries(primaries: seq<Pod>, replicas: seq<Pod>, quota: nat, view: seq<Entry>)
    requires Formed(primaries, replicas, quota, view) && Distinct(view)
    ensures DistinctPods(primaries)
  {
    forall i, j | 0 <= i < |primaries| && 0 <= j < |primaries| && primaries[i].id == primaries[j].id ensures i == j {
      assert view[i].id == view[j].id;
      DistinctAt(view, i, j);
    }
  }

  lemma FormedSettled(primaries: seq<Pod>, replicas: seq<Pod>, quota: nat, view: seq<Entry>)
    requires Formed(primaries, replicas, quota, view) && forall n <- primaries + replicas :: n.ip != ""
    ensures forall i | 0 <= i < |view| :: Settled(view[i])
  {
    forall i | 0 <= i < |view| ensures Settled(view[i]) {
      if i < |primaries| {
        assert primaries[i] in primaries + replicas;
      } else {
        assert view[|primaries| + (i - |primaries|)] == view[i];
        assert replicas[i - |primaries|] in primaries + replicas;
      }
    }
  }

  lemma ReplicaInView(primaries: seq<Pod>, replicas: seq<Pod>, quota: nat, view: seq<Entry>, i: nat)
    requires Formed(primaries, replicas, quota, view) && i < |replicas|
    ensures view[|primaries| + i].role.Replica?
  {
    var r := replicas[i];
  }

  lemma PrimariesFormed(primaries: seq<Pod>, replicas: seq<Pod>, quota: nat, view: seq<Entry>)
    requires Formed(primaries, replicas, quota, view)
    ensures Primaries(view) == |primaries|
  {
    var n := |primaries|;
    assert view == view[..n] + view[n..];
    SumAppend(PrimaryOne, view[..n], view[n..]);
    SumOnes(PrimaryOne, view[..n]);
    forall i | 0 <= i < |view[n..]| ensures PrimaryOne(view[n..][i]) == 0 {
      ReplicaInView(primaries, replicas, quota, view, i);
    }
    SumZero(PrimaryOne, view[n..]);
  }

  lemma PrimaryNamed(primaries: seq<Pod>, replicas: seq<Pod>, quota: nat, view: seq<Entry>, id: string) returns (p: nat)
    requires Formed(primaries, replicas, quota, view) && id in PrimaryIds(view)
    ensures p < |primaries| && primaries[p].id == id
  {
    IdsOfFilter(IsPrimaryEntry, view, id);
    p :| 0 <= p < |view| && IsPrimaryEntry(view[p]) && view[p].id == id;
    if p >= |primaries| {
      ReplicaInView(primaries, replicas, quota, view, p - |primaries|);
    }
  }

  // ----- The whole pass -----

  lemma RolesDisjoint(primaries: seq<Pod>, replicas: seq<Pod>, n: Pod)
    requires DistinctPods(primaries + replicas) && n in primaries
    ensures !AmongFirst(replicas, |replicas|, n.id)
  {
    var all := primaries + replicas;
    var i: nat :| i < |primaries| && primaries[i] == n;
    forall j | 0 <= j < |replicas| ensures replicas[j].id != n.id {
      assert all[i] == n && all[|primaries| + j] == replicas[j];
    }
  }

  /** Who becomes or stays a primary is a primary now. */
  lemma PrimariesUnattached(nodes: seq<Pod>, members: set<string>, primaries: nat, quota: nat, c: Classification, n: Pod)
    requires IsClassification(nodes, members, primaries, quota, c) && c.Assign? && n in c.primaries
    requires forall m <- nodes :: m.replica ==> m.id in members
    ensures n in nodes && !n.replica
  {
    FilterMember(OwnsAsMember(members), nodes, n);
    FilterMember(EmptyMember(members), nodes, n);
    FilterMember(NotMember(members), nodes, n);
  }

  lemma AssignFacts(nodes: seq<Pod>, members: set<string>, primaries: nat, quota: nat, c: Classification,
                    follows: map<string, string>)
    requires IsClassification(nodes, members, primaries, quota, c) && c.Assign? && Joining(nodes, members, follows)
    requires primaries >= 1
    ensures DistinctPods(c.primaries + c.replicas) && DistinctPods(c.replicas) && c.primaries != []
    ensures forall n <- c.primaries :: n.id !in follows
    ensures forall n <- c.primaries + c.replicas :: n in nodes
    ensures forall n <- nodes | OwnsAsMember(members)(n) :: n in c.primaries
  {
    AssignPermutes(nodes, members, primaries, quota, c);
    PodsPermuted(nodes, c.primaries + c.replicas);
    TailDistinct(c.primaries, c.replicas);
    forall n | n in c.primaries ensures n.id !in follows {
      PrimariesUnattached(nodes, members, primaries, quota, c, n);
    }
    forall n | n in c.primaries + c.replicas ensures n in nodes {
      assert n in multiset(nodes);
    }
    forall n | n in nodes && OwnsAsMember(members)(n) ensures n in c.primaries {
      FilterMember(OwnsAsMember(members), nodes, n);
    }
  }

  lemma TailDistinct(a: seq<Pod>, b: seq<Pod>)
    requires DistinctPods(a + b)
    ensures DistinctPods(b)
  {
    forall i, j | 0 <= i < |b| && 0 <= j < |b| && b[i].id == b[j].id ensures i == j {
      assert (a + b)[|a| + i] == b[i] && (a + b)[|a| + j] == b[j];
    }
  }

  lemma OwnersFollowNobody(nodes: seq<Pod>, members: set<string>, primaries: seq<Pod>, replicas: seq<Pod>,
                           before: map<string, string>, now: map<string, string>)
    requires DistinctPods(primaries + replicas) && OthersKept(before, now, replicas, |replicas|)
    requires forall n <- primaries :: n.id !in before
    requires forall n <- nodes | OwnsAsMember(members)(n) :: n in primaries
    ensures forall n <- primaries :: n.id !in now
    ensures forall n <- nodes | OwnsAsMember(members)(n) :: n.id !in now
  {
    forall n | n in primaries ensures n.id !in now {
      RolesDisjoint(primaries, replicas, n);
    }
  }

  /** The pods in the order of their roles give a formed view. */
  lemma AttachedIsFormed(primaries: seq<Pod>, replicas: seq<Pod>, quota: nat, follows: map<string, string>,
                         slots: string -> set<int>)
    requires primaries != [] && quota > 0 && AttachedUpTo(follows, primaries, replicas, quota, |replicas|)
    requires forall n <- primaries :: n.id !in follows
    ensures Formed(primaries, replicas, quota, ViewOf(primaries + replicas, follows, slots))
  {
    var all := primaries + replicas;
    forall p | 0 <= p < |primaries| ensures all[p] == primaries[p] && primaries[p].id !in follows {
      assert primaries[p] in primaries;
    }
    assert forall i | 0 <= i < |replicas| :: all[|primaries| + i] == replicas[i];
  }

  /** What the classification and the attachment make of the listed pods. */
  lemma PodsAreFormed(nodes: seq<Pod>, primaries: seq<Pod>, replicas: seq<Pod>, quota: nat,
                      follows: map<string, string>, slots: string -> set<int>)
    requires DistinctPods(nodes) && multiset(primaries + replicas) == multiset(nodes)
    requires primaries != [] && quota > 0 && AttachedUpTo(follows, primaries, replicas, quota, |replicas|)
    requires forall n <- primaries :: n.id !in follows
    requires forall n <- nodes :: n.ip != ""
    ensures var view := ViewOf(nodes, follows, slots);
            Distinct(view) && Primaries(view) == |primaries| &&
            (|replicas| == |primaries| * quota ==> Exact(view, |primaries|, quota))
  {
    var view, formed := ViewOf(nodes, follows, slots), ViewOf(primaries + replicas, follows, slots);
    AttachedIsFormed(primaries, replicas, quota, follows, slots);
    DistinctView(view);
    MapPermuted(EntryOf(follows, slots), primaries + replicas, nodes);
    DistinctPermuted(view, formed);
    PrimariesFormed(primaries, replicas, quota, formed);
    SumPermuted(PrimaryOne, formed, view);
    if |replicas| == |primaries| * quota {
      forall n | n in primaries + replicas ensures n.ip != "" {
        assert n in multiset(nodes);
      }
      FormedIsExact(primaries, replicas, quota, formed);
      ExactPermuted(formed, view, |primaries|, quota);
    }
  }

  lemma AssignCounts(nodes: seq<Pod>, members: set<string>, primaries: nat, quota: nat, c: Classification)
    requires IsClassification(nodes, members, primaries, quota, c) && c.Assign? && |nodes| >= primaries
    ensures |c.primaries| >= primaries && |c.primaries| + |c.replicas| == |nodes|
    ensures |c.primaries| == primaries <==> |Filter(OwnsAsMember(members), nodes)| <= primaries
  {
    AssignPermutes(nodes, members, primaries, quota, c);
    assert |multiset(c.primaries + c.replicas)| == |c.primaries| + |c.replicas|;
    assert |multiset(nodes)| == |nodes|;
  }

  lemma NoReplicas(nodes: seq<Pod>, follows: map<string, string>, slots: string -> set<int>, primaries: nat)
    requires forall n <- nodes :: n.id !in follows
    ensures SpreadOK(ViewOf(nodes, follows, slots), primaries, 0)
  {}

  /** The topology check passes exactly when there were no more slot owners than desired primaries. */
  lemma SpreadExactly(nodes: seq<Pod>, members: set<string>, primaries: nat, quota: nat, c: Classification,
                      before: map<string, string>, follows: map<string, string>, slots: string -> set<int>)
    requires IsClassification(nodes, members, primaries, quota, c) && c.Assign? && primaries >= 1
    requires |nodes| == TotalNodes(primaries, quota) && Joining(nodes, members, before)
    requires OthersKept(before, follows, c.replicas, |c.replicas|)
    requires quota > 0 && c.primaries != [] ==> AttachedUpTo(follows, c.primaries, c.replicas, quota, |c.replicas|)
    ensures SpreadOK(ViewOf(nodes, follows, slots), primaries, quota) <==>
            |Filter(OwnsAsMember(members), nodes)| <= primaries
  {
    AssignCounts(nodes, members, primaries, quota, c);
    SpreadByCount(nodes, members, primaries, quota, c, before, follows, slots);
  }

  lemma CountsSettle(p: nat, r: nat, primaries: nat, quota: nat)
    requires p >= primaries && p + r == TotalNodes(primaries, quota)
    ensures p == primaries ==> r == primaries * quota
    ensures quota == 0 ==> p == primaries
  {}

  lemma SpreadByCount(nodes: seq<Pod>, members: set<string>, primaries: nat, quota: nat, c: Classification,
                      before: map<string, string>, follows: map<string, string>, slots: string -> set<int>)
    requires IsClassification(nodes, members, primaries, quota, c) && c.Assign? && primaries >= 1
    requires Joining(nodes, members, before) && OthersKept(before, follows, c.replicas, |c.replicas|)
    requires quota > 0 && c.primaries != [] ==> AttachedUpTo(follows, c.primaries, c.replicas, quota, |c.replicas|)
    requires |c.primaries| >= primaries && |c.primaries| + |c.replicas| == TotalNodes(primaries, quota)
    ensures SpreadOK(ViewOf(nodes, follows, slots), primaries, quota) <==> |c.primaries| == primaries
  {
    AssignedPods(nodes, members, primaries, quota, c, before, follows);
    CountsSettle(|c.primaries|, |c.replicas|, primaries, quota);
    PodsDecide(nodes, c.primaries, c.replicas, quota, follows, slots, primaries);
  }

  lemma AssignedPods(nodes: seq<Pod>, members: set<string>, primaries: nat, quota: nat, c: Classification,
                     before: map<string, string>, follows: map<string, string>)
    requires IsClassification(nodes, members, primaries, quota, c) && c.Assign? && primaries >= 1
    requires Joining(nodes, members, before) && OthersKept(before, follows, c.replicas, |c.replicas|)
    ensures DistinctPods(nodes) && multiset(c.primaries + c.replicas) == multiset(nodes) && c.primaries != []
    ensures (forall n <- c.primaries :: n.id !in follows) && forall n <- nodes :: n.ip != ""
  {
    AssignFacts(nodes, members, primaries, quota, c, before);
    OwnersFollowNobody(nodes, members, c.primaries, c.replicas, before, follows);
    AssignPermutes(nodes, members, primaries, quota, c);
  }

  lemma PodsDecide(nodes: seq<Pod>, primaries: seq<Pod>, replicas: seq<Pod>, quota: nat,
                   follows: map<string, string>, slots: string -> set<int>, desired: nat)
    requires DistinctPods(nodes) && multiset(primaries + replicas) == multiset(nodes)
    requires primaries != [] && (quota > 0 ==> AttachedUpTo(follows, primaries, replicas, quota, |replicas|))
    requires forall n <- primaries :: n.id !in follows
    requires forall n <- nodes :: n.ip != ""
    requires |primaries| == desired ==> |replicas| == desired * quota
    requires quota == 0 ==> |primaries| == desired
    ensures SpreadOK(ViewOf(nodes, follows, slots), desired, quota) <==> |primaries| == desired
  {
    if quota == 0 {
      AllPrimaries(nodes, primaries, replicas);
      NoReplicas(nodes, follows, slots, desired);
    } else {
      FormedDecides(nodes, primaries, replicas, quota, follows, slots, desired);
    }
  }

  lemma FormedDecides(nodes: seq<Pod>, primaries: seq<Pod>, replicas: seq<Pod>, quota: nat,
                      follows: map<string, string>, slots: string -> set<int>, desired: nat)
    requires DistinctPods(nodes) && multiset(primaries + replicas) == multiset(nodes)
    requires primaries != [] && quota > 0 && AttachedUpTo(follows, primaries, replicas, quota, |replicas|)
    requires forall n <- primaries :: n.id !in follows
    requires forall n <- nodes :: n.ip != ""
    requires |primaries| == desired ==> |replicas| == |primaries| * quota
    ensures SpreadOK(ViewOf(nodes, follows, slots), desired, quota) <==> |primaries| == desired
  {
    var view := ViewOf(nodes, follows, slots);
    PodsAreFormed(nodes, primaries, replicas, quota, follows, slots);
    PrimariesNamed(view);
    if |primaries| == desired {
      SpreadFromCounts(view, desired, quota);
    }
  }

  lemma AllPrimaries(nodes: seq<Pod>, primaries: seq<Pod>, replicas: seq<Pod>)
    requires multiset(primaries + replicas) == multiset(nodes) && replicas == []
    ensures forall n <- nodes :: n in primaries
  {
    forall n | n in nodes ensures n in primaries {
      assert n in multiset(primaries + replicas);
      assert primaries + replicas == primaries;
    }
  }

  // ----- Who gets which role -----

  /**
   Members of the cluster that own slots stay primaries, its replicas stay replicas, and no node from outside becomes a
   primary while an empty member of the cluster becomes a replica.
   */
  lemma RolesInFields(nodes: seq<Pod>, members: set<string>, primaries: nat, quota: nat, c: Classification, n: Pod)
    requires IsClassification(nodes, members, primaries, quota, c) && c.Assign? && n in nodes
    ensures n.id in members && !n.replica && n.slots != {} ==> n in c.primaries
    ensures n.id in members && n.replica ==> n in c.replicas
    ensures n.id in members && !n.replica && n.slots == {} && n !in c.primaries ==>
              forall m <- c.primaries :: m.id in members
  {
    var empties, outside := Filter(EmptyMember(members), nodes), Filter(NotMember(members), nodes);
    FilterMember(OwnsAsMember(members), nodes, n);
    FilterMember(ReplicaMember(members), nodes, n);
    FilterMember(EmptyMember(members), nodes, n);
    var needed := Needed(nodes, members, primaries);
    if n in empties && n !in c.primaries {
      PrefixOfFirst(empties, outside, needed, n);
      forall m <- c.primaries ensures m.id in members {
        FilterMember(OwnsAsMember(members), nodes, m);
        FilterMember(EmptyMember(members), nodes, m);
      }
    }
  }

  lemma PrefixOfFirst(first: seq<Pod>, second: seq<Pod>, k: nat, n: Pod)
    requires k <= |first + second| && n in first && n !in (first + second)[..k]
    ensures forall m <- (first + second)[..k] :: m in first
  {
    var i :| 0 <= i < |first| && first[i] == n;
    forall j | 0 <= j < k ensures (first + second)[j] != n {
      assert (first + second)[..k][j] == (first + second)[j];
    }
    assert (first + second)[i] == n;
  }
}
