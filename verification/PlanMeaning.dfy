/**
 What the topology check and the plans of its repair mean, entry by entry: whom they concern, who comes first, and
 who is left alone.
 */
module PlanMeaning {
  import opened Lists
  import opened ReplicaTopology
  import opened TopologyConvergence
  import opened TopologyCounting

  // ----- The check -----

  function FollowerOf(id: string): Entry -> bool {
    (e: Entry) => e.role.Replica? && e.role.of == id
  }

  lemma FollowersAreCounted(view: seq<Entry>, id: string)
    ensures Followers(view, id) == |Filter(FollowerOf(id), view)|
  {
    SumLength(Follows(id), FollowerOf(id), view);
  }

  lemma PrimaryIdsMean(view: seq<Entry>, id: string)
    ensures id in PrimaryIds(view) <==> exists q <- view :: q.role.Primary? && q.id == id
  {
    IdsOfFilter(IsPrimaryEntry, view, id);
    if q :| q in view && q.role.Primary? && q.id == id {
      var i :| 0 <= i < |view| && view[i] == q;
    }
  }

  /** No replica follows a node that is no primary in the view. */
  ghost predicate NoStray(view: seq<Entry>) {
    forall e | e in view && e.role.Replica? :: exists q <- view :: q.role.Primary? && q.id == e.role.of
  }

  lemma NoStrayMeans(view: seq<Entry>)
    ensures NoStray(view) <==> forall i | 0 <= i < |view| && view[i].role.Replica? :: view[i].role.of in PrimaryIds(view)
  {
    forall id ensures id in PrimaryIds(view) <==> exists q <- view :: q.role.Primary? && q.id == id {
      PrimaryIdsMean(view, id);
    }
  }

  /**
   The check, entry by entry: without replicas wanted, no node is one; else as many ids of primaries as wanted, no
   stray replica, and on every primary exactly its number of followers.
   */
  lemma SpreadMeans(view: seq<Entry>, primaries: int, replicas: int)
    ensures replicas == 0 ==> (SpreadOK(view, primaries, replicas) <==> forall e <- view :: !e.role.Replica?)
    ensures replicas != 0 ==>
              (SpreadOK(view, primaries, replicas) <==>
               |set q <- view | q.role.Primary? :: q.id| == primaries && NoStray(view) &&
               forall q <- view | q.role.Primary? :: |Filter(FollowerOf(q.id), view)| == replicas)
  {
    NoStrayMeans(view);
    IdsOfPrimaries(view);
    forall q <- view | q.role.Primary? ensures Followers(view, q.id) == |Filter(FollowerOf(q.id), view)| {
      FollowersAreCounted(view, q.id);
    }
    if replicas == 0 {
      assert forall i | 0 <= i < |view| :: view[i] in view;
    }
  }

  lemma IdsOfPrimaries(view: seq<Entry>)
    ensures PrimaryIds(view) == set q <- view | q.role.Primary? :: q.id
  {
    forall id ensures id in PrimaryIds(view) <==> id in (set q <- view | q.role.Primary? :: q.id) {
      PrimaryIdsMean(view, id);
    }
  }

  // ----- Who is drained -----

  predicate OwnsOrMoves(e: Entry) {
    e.ip != "" && e.role.Primary? && (e.role.moving || e.role.slots != {})
  }

  lemma InSorted(sorted: seq<Entry>, owners: seq<Entry>, n: nat, e: Entry)
    requires multiset(sorted) == multiset(owners) && n <= |sorted| && e in owners && e !in sorted[..n]
    ensures e in sorted[n..]
  {
    assert e in multiset(sorted);
    assert sorted == sorted[..n] + sorted[n..];
  }

  lemma DrainSorted(view: seq<Entry>, primaries: int, plan: Plan) returns (sorted: seq<Entry>, n: nat)
    requires DrainPlan(view, primaries, plan) && plan.Drain?
    ensures multiset(sorted) == multiset(Filter(IsOwner, view)) && BySlots(sorted)
    ensures 0 < n <= |sorted| && plan.nodes == sorted[..n] && plan.seed in AddressedPrimaryIds(view) - Ids(plan.nodes)
    ensures n == Least(|AddressedPrimaryIds(view)| - primaries, |Filter(IsOwner, view)| - 1)
  {
    var owners := Filter(IsOwner, view);
    n := Least(|AddressedPrimaryIds(view)| - primaries, |owners| - 1);
    sorted :| DrainsFirst(view, sorted, n, plan);
  }

  /**
   Of two slot owners the drained one has no more slots than the one that stays, unless it has one in flight; owners
   with slots in flight are drained before all others.
   */
  lemma DrainsSmallest(view: seq<Entry>, primaries: int, plan: Plan, drained: Entry, kept: Entry)
    requires DrainPlan(view, primaries, plan) && plan.Drain? && drained in plan.nodes
    requires kept in view && OwnsOrMoves(kept) && kept !in plan.nodes
    ensures drained in view && OwnsOrMoves(drained)
    ensures drained.role.moving || (!kept.role.moving && |drained.role.slots| <= |kept.role.slots|)
  {
    var sorted, n := DrainSorted(view, primaries, plan);
    var owners := Filter(IsOwner, view);
    FilterMember(IsOwner, view, kept);
    InSorted(sorted, owners, n, kept);
    DrainedIsOwner(view, sorted, n, drained);
    var i: nat :| i < n && sorted[i] == drained;
    var j: nat :| n <= j < |sorted| && sorted[j] == kept;
    assert SlotCount(sorted[i]) <= SlotCount(sorted[j]);
    if !drained.role.moving {
      SomeSlots(drained.role.slots);
    }
  }

  lemma SomeSlots(slots: set<int>)
    requires slots != {}
    ensures |slots| > 0
  {}

  lemma DrainedIsOwner(view: seq<Entry>, sorted: seq<Entry>, n: nat, e: Entry)
    requires multiset(sorted) == multiset(Filter(IsOwner, view)) && n <= |sorted| && e in sorted[..n]
    ensures e in view && OwnsOrMoves(e)
  {
    assert e in multiset(sorted);
    FilterMember(IsOwner, view, e);
  }

  /** A drain concerns at most the primaries in excess and never all owners; its seed is a primary that stays. */
  lemma DrainBounded(view: seq<Entry>, primaries: int, plan: Plan)
    requires DrainPlan(view, primaries, plan) && plan.Drain?
    ensures 0 < |plan.nodes| <= |AddressedPrimaryIds(view)| - primaries && |plan.nodes| < |Filter(OwnsOrMoves, view)|
    ensures exists q <- view :: q.ip != "" && q.role.Primary? && q.id == plan.seed
    ensures forall d <- plan.nodes :: d.id != plan.seed
  {
    var sorted, n := DrainSorted(view, primaries, plan);
    FilterSame(IsOwner, OwnsOrMoves, view);
    IdsOfFilter(IsAddressedPrimary, view, plan.seed);
    forall d <- plan.nodes ensures d.id != plan.seed {
      assert d.id in Ids(plan.nodes);
    }
  }

  // ----- Who is moved, demoted and promoted -----

  ghost predicate AddressedPrimaryNamed(view: seq<Entry>, id: string) {
    exists q <- view :: q.ip != "" && q.role.Primary? && q.id == id
  }

  lemma AddressedIdsMean(view: seq<Entry>, id: string)
    ensures id in AddressedPrimaryIds(view) <==> AddressedPrimaryNamed(view, id)
  {
    IdsOfFilter(IsAddressedPrimary, view, id);
    if q :| q in view && q.ip != "" && q.role.Primary? && q.id == id {
      var i :| 0 <= i < |view| && view[i] == q;
    }
  }

  /** How many replicas with an address follow a node. */
  function AddressedFollower(id: string): Entry -> bool {
    (e: Entry) => e.ip != "" && e.role.Replica? && e.role.of == id
  }

  function AddressedFollows(id: string): Entry -> int {
    (e: Entry) => if AddressedFollower(id)(e) then 1 else 0
  }

  lemma AddressedFollowersCounted(view: seq<Entry>, id: string)
    ensures Followers(Replicas(view), id) == |Filter(AddressedFollower(id), view)|
  {
    SumLength(AddressedFollows(id), AddressedFollower(id), view);
    SumFilter(AddressedFollows(id), IsAddressedReplica, view);
    var replicas := Replicas(view);
    forall i | 0 <= i < |replicas| ensures Follows(id)(replicas[i]) == AddressedFollows(id)(replicas[i]) {
      FilterMember(IsAddressedReplica, view, replicas[i]);
    }
    SumSame(Follows(id), AddressedFollows(id), replicas);
  }

  lemma NeedIsShort(needs: seq<string>, ids: set<string>, replicas: seq<Entry>, quota: int, k: nat)
    requires FillsDeficits(needs, ids, replicas, quota) && k < |needs|
    ensures needs[k] in ids && Followers(replicas, needs[k]) < quota
  {
    OccursPositive(needs, k);
  }

  lemma {:induction false} ExtraIsOver(replicas: seq<Entry>, ids: set<string>, quota: int, e: Entry)
    requires e in Extras(replicas, ids, quota)
    ensures e in replicas && e.role.Replica? && e.role.of in ids && Followers(replicas, e.role.of) > quota
  {
    if e !in Extras(replicas[1..], ids, quota) {
      assert e == replicas[0];
    } else {
      ExtraIsOver(replicas[1..], ids, quota, e);
    }
  }

  /**
   A reassigned node is an addressed replica of nobody known, or of a primary with replicas beyond its quota; it goes
   to a known primary that is short of some.
   */
  lemma ReassignsInFields(view: seq<Entry>, quota: int, plan: Plan, m: Move)
    requires ReassignPlan(view, quota, plan) && m in plan.moves
    ensures m.node in view && m.node.ip != "" && m.node.role.Replica?
    ensures AddressedPrimaryNamed(view, m.node.role.of) ==>
              |Filter(AddressedFollower(m.node.role.of), view)| > quota
    ensures AddressedPrimaryNamed(view, m.target) && |Filter(AddressedFollower(m.target), view)| < quota
  {
    var ids, replicas := AddressedPrimaryIds(view), Replicas(view);
    var available := Strays(replicas, ids) + Extras(replicas, ids, quota);
    var needs :| FillsDeficits(needs, ids, replicas, quota) &&
                 Pairs(plan.moves, available, needs, Least(|available|, |needs|));
    var k: nat :| k < |plan.moves| && plan.moves[k] == m;
    assert m.node == available[k] && m.target == needs[k];
    NeedIsShort(needs, ids, replicas, quota, k);
    AddressedIdsMean(view, m.target);
    AddressedFollowersCounted(view, m.target);
    AvailableMeans(view, ids, quota, m.node);
    AddressedIdsMean(view, m.node.role.of);
    AddressedFollowersCounted(view, m.node.role.of);
  }

  lemma AvailableMeans(view: seq<Entry>, ids: set<string>, quota: int, e: Entry)
    requires e in Strays(Replicas(view), ids) + Extras(Replicas(view), ids, quota)
    ensures e in view && e.ip != "" && e.role.Replica?
    ensures e.role.of in ids ==> Followers(Replicas(view), e.role.of) > quota
  {
    var replicas := Replicas(view);
    StraysMember(replicas, ids, e);
    if e in Extras(replicas, ids, quota) {
      ExtraIsOver(replicas, ids, quota, e);
    }
    FilterMember(IsAddressedReplica, view, e);
  }

  /** A demoted node is an addressed primary without slots and without any in flight; it goes to another primary. */
  lemma DemotesInFields(view: seq<Entry>, primaries: int, quota: int, plan: Plan, m: Move)
    requires DemotePlan(view, primaries, quota, plan) && m in plan.moves
    ensures m.node in view && m.node.ip != "" && m.node.role == Role.Primary({}, false)
    ensures AddressedPrimaryNamed(view, m.target) && |Filter(AddressedFollower(m.target), view)| < quota
    ensures forall e <- view | e.ip != "" && e.role == Role.Primary({}, false) :: e.id != m.target
  {
    var empties := Filter(IsEmptyPrimary, view);
    var ids := AddressedPrimaryIds(view) - Ids(empties);
    var needs :| FillsDeficits(needs, ids, Replicas(view), quota) &&
                 Pairs(plan.moves, empties, needs, Least(Least(|AddressedPrimaryIds(view)| - primaries, |empties|), |needs|));
    var k: nat :| k < |plan.moves| && plan.moves[k] == m;
    assert m.node == empties[k] && m.target == needs[k];
    FilterMember(IsEmptyPrimary, view, m.node);
    NeedIsShort(needs, ids, Replicas(view), quota, k);
    AddressedIdsMean(view, m.target);
    AddressedFollowersCounted(view, m.target);
    forall e <- view | e.ip != "" && e.role == Role.Primary({}, false) ensures e.id != m.target {
      FilterMember(IsEmptyPrimary, view, e);
      assert e.id in Ids(empties);
    }
  }

  /** A promoted node is an addressed replica, and only replicas that are too many in all are promoted. */
  lemma PromotesInFields(view: seq<Entry>, primaries: nat, quota: nat, plan: Plan, e: Entry)
    requires PromotePlan(view, primaries, quota, plan) && plan.Promote? && e in plan.nodes
    ensures e in view && e.ip != "" && e.role.Replica?
    ensures |plan.nodes| + primaries * quota <= |Filter(IsAddressedReplica, view)|
  {
    FilterMember(IsAddressedReplica, view, e);
  }

  // ----- Which replicas are surplus -----

  lemma {:induction false} ExtrasFrom(replicas: seq<Entry>, ids: set<string>, quota: int, i: nat)
    requires i < |replicas| && replicas[i].role.Replica? && replicas[i].role.of in ids
    requires Followers(replicas[i..], replicas[i].role.of) > quota
    ensures replicas[i] in Extras(replicas, ids, quota)
  {
    if i > 0 {
      assert replicas[1..][i - 1..] == replicas[i..];
      ExtrasFrom(replicas[1..], ids, quota, i - 1);
    } else {
      assert replicas[0..] == replicas;
    }
  }

  lemma {:induction false} ExtrasAt(replicas: seq<Entry>, ids: set<string>, quota: int, e: Entry) returns (i: nat)
    requires e in Extras(replicas, ids, quota)
    ensures i < |replicas| && replicas[i] == e && e.role.Replica? && Followers(replicas[i..], e.role.of) > quota
  {
    if e in Extras(replicas[1..], ids, quota) {
      var k := ExtrasAt(replicas[1..], ids, quota, e);
      i := k + 1;
      assert replicas[1..][k..] == replicas[i..];
    } else {
      i := 0;
      assert replicas[0..] == replicas;
    }
  }

  /** Of the replicas of one primary, the earliest in view order are the surplus ones. */
  lemma EarliestAreExtra(replicas: seq<Entry>, ids: set<string>, quota: int, i: nat, j: nat)
    requires i < j < |replicas| && replicas[i].role.Replica? && replicas[i].role == replicas[j].role
    requires replicas[i].role.of in ids && Distinct(replicas) && replicas[j] in Extras(replicas, ids, quota)
    ensures replicas[i] in Extras(replicas, ids, quota)
  {
    var p := replicas[i].role.of;
    var k := ExtrasAt(replicas, ids, quota, replicas[j]);
    DistinctAt(replicas, k, j);
    assert replicas[i..] == replicas[i..j] + replicas[j..];
    SumAppend(Follows(p), replicas[i..j], replicas[j..]);
    SumNonNegative(Follows(p), replicas[i..j]);
    ExtrasFrom(replicas, ids, quota, i);
  }
}
