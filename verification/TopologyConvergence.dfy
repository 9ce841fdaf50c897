/**
 What repeated repair passes achieve. A state is the cluster as one view shows it; the order of the
 entries is free in every pass. Redis commands enter only through what they do once effective.
 */
module TopologyConvergence {
  import opened Lists
  import opened ReplicaTopology
  import opened TopologyCounting

  // ----- Measures of a view -----

  function PrimaryOne(e: Entry): int {
    if e.role.Primary? then 1 else 0
  }

  function OwnerOne(e: Entry): int {
    if e.role.Primary? && (e.role.moving || e.role.slots != {}) then 1 else 0
  }

  function OwnsSlot(s: int): Entry -> int {
    (e: Entry) => if e.role.Primary? && s in e.role.slots then 1 else 0
  }

  function Primaries(view: seq<Entry>): int {
    Sum(PrimaryOne, view)
  }

  /** The primaries that own slots or have some in flight. */
  function Owners(view: seq<Entry>): int {
    Sum(OwnerOne, view)
  }

  /** An addressed primary or replica. */
  ghost predicate Settled(e: Entry) {
    e.ip != "" && !e.role.Unassigned?
  }

  ghost predicate Sane(view: seq<Entry>, primaries: nat, quota: nat) {
    primaries >= 1 && |view| == primaries * (quota + 1) && Distinct(view) &&
    forall i | 0 <= i < |view| :: Settled(view[i])
  }

  /** The replicas that the given entry lacks, when it is a primary that owns slots. */
  function OwnerGap(view: seq<Entry>, quota: int): Entry -> int {
    (e: Entry) => if OwnerOne(e) == 1 && quota > Followers(view, e.id) then quota - Followers(view, e.id) else 0
  }

  /** The replicas missing on all slot-owning primaries together. */
  function OwnerDeficit(view: seq<Entry>, quota: int): int {
    Sum(OwnerGap(view, quota), view)
  }

  // ----- Effects of commands -----

  /** The view with the entries `before` replaced by `after`, in some order. */
  ghost predicate Swaps(view: seq<Entry>, before: seq<Entry>, after: seq<Entry>, next: seq<Entry>) {
    multiset(next) + multiset(before) == multiset(view) + multiset(after)
  }

  function NodeOf(m: Move): Entry {
    m.node
  }

  function MovedNode(m: Move): Entry {
    m.node.(role := Replica(m.target))
  }

  function Promoted(e: Entry): Entry {
    e.(role := Primary({}, false))
  }

  /**
   A rebalance away from the drained nodes, complete or not: the same primaries, every slot with as many owners as
   before, and only drained nodes lose slots.
   */
  ghost predicate Redistributes(before: seq<Entry>, drained: seq<Entry>, after: seq<Entry>) {
    |after| == |before| &&
    (forall i | 0 <= i < |before| :: Rebalanced(before[i], before[i] in drained, after[i])) &&
    forall s: int :: Sum(OwnsSlot(s), after) == Sum(OwnsSlot(s), before)
  }

  ghost predicate Rebalanced(a: Entry, drained: bool, b: Entry) {
    b.id == a.id && b.ip == a.ip && b.role.Primary? &&
    (!drained && a.role.Primary? ==> a.role.slots <= b.role.slots && (OwnerOne(a) == 1 ==> OwnerOne(b) == 1))
  }

  /** A complete one: the drained nodes end empty, and nobody else starts or ceases to be a slot owner. */
  ghost predicate Drains(before: seq<Entry>, drained: seq<Entry>, after: seq<Entry>) {
    Redistributes(before, drained, after) &&
    forall i | 0 <= i < |before| :: OwnerOne(after[i]) == 1 <==> OwnerOne(before[i]) == 1 && before[i] !in drained
  }

  /** The plan's first `k` commands took effect, and the rest did not. */
  ghost predicate Effect(view: seq<Entry>, plan: Plan, k: nat, next: seq<Entry>) {
    match plan
    case Reassign(moves) => k <= |moves| && Swaps(view, Map(NodeOf, moves[..k]), Map(MovedNode, moves[..k]), next)
    case Demote(moves) => k <= |moves| && Swaps(view, Map(NodeOf, moves[..k]), Map(MovedNode, moves[..k]), next)
    case Promote(nodes) => k <= |nodes| && Swaps(view, nodes[..k], Map(Promoted, nodes[..k]), next)
    case Drain(drained, _) =>
      exists after :: Redistributes(Filter(IsPrimaryEntry, view), drained, after) &&
                      (k > 0 ==> Drains(Filter(IsPrimaryEntry, view), drained, after)) &&
                      Swaps(view, Filter(IsPrimaryEntry, view), after, next)
    case NoKeeper => multiset(next) == multiset(view)
    case Skip => multiset(next) == multiset(view)
  }

  function Commands(plan: Plan): nat {
    match plan
    case Reassign(moves) => |moves|
    case Demote(moves) => |moves|
    case Promote(nodes) => |nodes|
    case Drain(_, _) => 1
    case _ => 0
  }

  /** One repair pass, of which any number of commands may have taken effect. */
  ghost predicate Pass(view: seq<Entry>, next: seq<Entry>, primaries: nat, quota: nat) {
    exists plan, k: nat :: IsPlan(view, primaries, quota, plan) && Effect(view, plan, k, next)
  }

  /** One repair pass whose commands all took effect. */
  ghost predicate FullPass(view: seq<Entry>, next: seq<Entry>, primaries: nat, quota: nat) {
    exists plan :: IsPlan(view, primaries, quota, plan) && Effect(view, plan, Commands(plan), next)
  }

  lemma SwapsSum(f: Entry -> int, view: seq<Entry>, before: seq<Entry>, after: seq<Entry>, next: seq<Entry>)
    requires Swaps(view, before, after, next)
    ensures Sum(f, next) + Sum(f, before) == Sum(f, view) + Sum(f, after)
  {
    assert multiset(next + before) == multiset(view + after);
    SumPermuted(f, next + before, view + after);
    SumAppend(f, next, before);
    SumAppend(f, view, after);
  }

  lemma SwapsLength(view: seq<Entry>, before: seq<Entry>, after: seq<Entry>, next: seq<Entry>)
    requires Swaps(view, before, after, next)
    ensures |next| + |before| == |view| + |after|
  {
    assert |multiset(next) + multiset(before)| == |next| + |before|;
    assert |multiset(view) + multiset(after)| == |view| + |after|;
  }

  lemma SwapsMembers(view: seq<Entry>, before: seq<Entry>, after: seq<Entry>, next: seq<Entry>)
    requires Swaps(view, before, after, next)
    ensures forall i | 0 <= i < |next| :: next[i] in view || next[i] in after
  {
    forall i | 0 <= i < |next| ensures next[i] in view || next[i] in after {
      assert next[i] in multiset(next);
      assert next[i] in multiset(view) + multiset(after);
    }
  }

  // ----- Slots are conserved by every pass, complete or not -----

  /** The plan touches only replicas and empty primaries, except that it may rebalance. */
  ghost predicate Weightless(plan: Plan) {
    match plan
    case Reassign(moves) => forall m <- moves :: OwnsNothing(m.node)
    case Demote(moves) => forall m <- moves :: OwnsNothing(m.node)
    case Promote(nodes) => forall e <- nodes :: OwnsNothing(e)
    case _ => true
  }

  predicate OwnsNothing(e: Entry) {
    e.role.Primary? ==> e.role.slots == {}
  }

  lemma StraysMember(replicas: seq<Entry>, ids: set<string>, e: Entry)
    ensures e in Strays(replicas, ids) <==> e in replicas && StrayFrom(ids)(e)
  {
    FilterMember(StrayFrom(ids), replicas, e);
  }

  lemma {:induction false} ExtrasMember(replicas: seq<Entry>, ids: set<string>, quota: int, e: Entry)
    ensures e in Extras(replicas, ids, quota) ==> e in replicas && e.role.Replica? && e.role.of in ids
  {
    if replicas != [] {
      ExtrasMember(replicas[1..], ids, quota, e);
    }
  }

  lemma ReassignWeightless(view: seq<Entry>, quota: int, plan: Plan)
    requires ReassignPlan(view, quota, plan)
    ensures Weightless(plan)
  {
    var ids, replicas := AddressedPrimaryIds(view), Replicas(view);
    forall m <- plan.moves ensures OwnsNothing(m.node) {
      StraysMember(replicas, ids, m.node);
      ExtrasMember(replicas, ids, quota, m.node);
    }
  }

  lemma DemoteWeightless(view: seq<Entry>, primaries: int, quota: int, plan: Plan)
    requires DemotePlan(view, primaries, quota, plan)
    ensures Weightless(plan)
  {
    forall m <- plan.moves ensures OwnsNothing(m.node) {
      FilterMember(IsEmptyPrimary, view, m.node);
    }
  }

  lemma PlansWeightless(view: seq<Entry>, primaries: nat, quota: nat, plan: Plan)
    requires IsPlan(view, primaries, quota, plan)
    ensures Weightless(plan)
  {
    if plan.Reassign? {
      ReassignWeightless(view, quota, plan);
    } else if plan.Demote? {
      DemoteWeightless(view, primaries, quota, plan);
    } else if plan.Promote? {
      forall e <- plan.nodes ensures OwnsNothing(e) {
        FilterMember(IsAddressedReplica, view, e);
      }
    }
  }

  lemma NothingSums(entries: seq<Entry>, s: int)
    requires forall i | 0 <= i < |entries| :: OwnsNothing(entries[i])
    ensures Sum(OwnsSlot(s), entries) == 0
  {
    SumZero(OwnsSlot(s), entries);
  }

  lemma WeightlessSwap(view: seq<Entry>, before: seq<Entry>, after: seq<Entry>, next: seq<Entry>, s: int)
    requires Swaps(view, before, after, next)
    requires forall i | 0 <= i < |before| :: OwnsNothing(before[i])
    requires forall i | 0 <= i < |after| :: OwnsNothing(after[i])
    ensures Sum(OwnsSlot(s), next) == Sum(OwnsSlot(s), view)
  {
    SwapsSum(OwnsSlot(s), view, before, after, next);
    NothingSums(before, s);
    NothingSums(after, s);
  }

  lemma EffectConservesSlots(view: seq<Entry>, plan: Plan, k: nat, next: seq<Entry>, s: int)
    requires Effect(view, plan, k, next) && Weightless(plan)
    ensures Sum(OwnsSlot(s), next) == Sum(OwnsSlot(s), view)
  {
    match plan {
      case Reassign(moves) => WeightlessSwap(view, Map(NodeOf, moves[..k]), Map(MovedNode, moves[..k]), next, s);
      case Demote(moves) => WeightlessSwap(view, Map(NodeOf, moves[..k]), Map(MovedNode, moves[..k]), next, s);
      case Promote(nodes) => WeightlessSwap(view, nodes[..k], Map(Promoted, nodes[..k]), next, s);
      case Drain(drained, _) =>
        var before := Filter(IsPrimaryEntry, view);
        var after :| Redistributes(before, drained, after) && Swaps(view, before, after, next);
        SwapsSum(OwnsSlot(s), view, before, after, next);
      case _ => SumPermuted(OwnsSlot(s), next, view);
    }
  }

  /** No pass, whatever part of it took effect, changes how many owners any slot has. */
  lemma PassConservesSlots(view: seq<Entry>, next: seq<Entry>, primaries: nat, quota: nat, s: int)
    requires Pass(view, next, primaries, quota)
    ensures Sum(OwnsSlot(s), next) == Sum(OwnsSlot(s), view)
  {
    var plan, k: nat :| IsPlan(view, primaries, quota, plan) && Effect(view, plan, k, next);
    PlansWeightless(view, primaries, quota, plan);
    EffectConservesSlots(view, plan, k, next, s);
  }

  // ----- Sane views -----

  function QuotaAt(quota: int): Entry -> int {
    (e: Entry) => if IsPrimaryEntry(e) then quota else 0
  }

  lemma {:induction false} QuotaTotal(view: seq<Entry>, quota: int)
    ensures Sum(QuotaAt(quota), view) == quota * Primaries(view)
  {
    if view != [] {
      QuotaTotal(view[1..], quota);
      assert PrimaryOne(view[0]) == 1 ==>
               quota * (1 + Primaries(view[1..])) == quota + quota * Primaries(view[1..]);
    }
  }

  lemma SaneCounts(view: seq<Entry>, primaries: nat, quota: nat)
    requires Sane(view, primaries, quota)
    ensures AddressedPrimaryIds(view) == PrimaryIds(view) && |PrimaryIds(view)| == Primaries(view)
    ensures |Replicas(view)| + Primaries(view) == |view|
    ensures forall p :: Followers(Replicas(view), p) == Followers(view, p)
  {
    FilterSame(IsAddressedPrimary, IsPrimaryEntry, view);
    FilterDistinct(IsPrimaryEntry, view);
    IdsSize(Filter(IsPrimaryEntry, view));
    SumLength(PrimaryOne, IsPrimaryEntry, view);
    FilterParts(IsAddressedReplica, IsPrimaryEntry, view);
    forall p ensures Followers(Replicas(view), p) == Followers(view, p) {
      SumFilter(Follows(p), IsAddressedReplica, view);
    }
  }

  lemma ReplicasAreReplicas(view: seq<Entry>)
    ensures forall i | 0 <= i < |Replicas(view)| ::
              IsAddressedReplica(Replicas(view)[i]) && Replicas(view)[i] in view
  {
    forall i | 0 <= i < |Replicas(view)|
      ensures IsAddressedReplica(Replicas(view)[i]) && Replicas(view)[i] in view
    {
      FilterMember(IsAddressedReplica, view, Replicas(view)[i]);
    }
  }

  /** The same nodes, in new and settled roles. */
  ghost predicate KeepsIds(before: seq<Entry>, after: seq<Entry>) {
    |before| == |after| && forall i | 0 <= i < |after| :: after[i].id == before[i].id && Settled(after[i])
  }

  lemma KeepsSane(view: seq<Entry>, before: seq<Entry>, after: seq<Entry>, next: seq<Entry>,
                  primaries: nat, quota: nat)
    requires Sane(view, primaries, quota) && Swaps(view, before, after, next)
    requires KeepsIds(before, after)
    ensures Sane(next, primaries, quota)
  {
    SwapsLength(view, before, after, next);
    SwapsMembers(view, before, after, next);
    forall i | 0 <= i < |next| ensures Settled(next[i]) {
      assert next[i] in view || next[i] in after;
    }
    forall id ensures Sum(HasId(id), next) <= 1 {
      SwapsSum(HasId(id), view, before, after, next);
      SumAligned(HasId(id), before, after);
      assert Sum(HasId(id), view) <= 1;
    }
  }

  // ----- As many primaries as desired: one pass is enough -----

  lemma NeedsNamed(needs: seq<string>, ids: set<string>, replicas: seq<Entry>, quota: int)
    requires FillsDeficits(needs, ids, replicas, quota)
    ensures forall i | 0 <= i < |needs| :: needs[i] in ids
  {
    forall i | 0 <= i < |needs| ensures needs[i] in ids {
      OccursPositive(needs, i);
    }
  }

  lemma ReassignmentPointwise(view: seq<Entry>, quota: nat, needs: seq<string>)
    requires FillsDeficits(needs, PrimaryIds(view), Replicas(view), quota)
    ensures var extras := Extras(Replicas(view), PrimaryIds(view), quota);
            Sum(FollowersAt(IsPrimaryEntry, Replicas(view)), view) + Sum(NamedAt(IsPrimaryEntry, needs), view) ==
            Sum(FollowersAt(IsPrimaryEntry, extras), view) + quota * Primaries(view)
  {
    var keep, ids, replicas := IsPrimaryEntry, PrimaryIds(view), Replicas(view);
    var extras := Extras(replicas, ids, quota);
    ReplicasAreReplicas(view);
    var have := Plus(FollowersAt(keep, replicas), NamedAt(keep, needs));
    var want := Plus(FollowersAt(keep, extras), QuotaAt(quota));
    forall i | 0 <= i < |view| ensures have(view[i]) == want(view[i]) {
      if IsPrimaryEntry(view[i]) {
        IdsOfFilter(IsPrimaryEntry, view, view[i].id);
        ExtrasFollowers(replicas, ids, quota, view[i].id);
      }
    }
    SumSame(have, want, view);
    SumPlus(FollowersAt(keep, replicas), NamedAt(keep, needs), view);
    SumPlus(FollowersAt(keep, extras), QuotaAt(quota), view);
    QuotaTotal(view, quota);
  }

  lemma ExactFollowersTotal(view: seq<Entry>, quota: nat)
    requires forall id <- PrimaryIds(view) :: Followers(Replicas(view), id) == quota
    ensures Sum(FollowersAt(IsPrimaryEntry, Replicas(view)), view) == quota * Primaries(view)
  {
    var f := FollowersAt(IsPrimaryEntry, Replicas(view));
    forall i | 0 <= i < |view| ensures f(view[i]) == QuotaAt(quota)(view[i]) {
      if IsPrimaryEntry(view[i]) {
        IdsOfFilter(IsPrimaryEntry, view, view[i].id);
      }
    }
    SumSame(f, QuotaAt(quota), view);
    QuotaTotal(view, quota);
  }

  lemma ExtrasCounted(view: seq<Entry>, quota: nat)
    requires Distinct(view)
    ensures var extras := Extras(Replicas(view), PrimaryIds(view), quota);
            Sum(FollowersAt(IsPrimaryEntry, extras), view) == |extras|
  {
    var extras := Extras(Replicas(view), PrimaryIds(view), quota);
    forall i | 0 <= i < |extras| ensures extras[i].role.Replica? && extras[i].role.of in PrimaryIds(view) {
      ExtrasMember(Replicas(view), PrimaryIds(view), quota, extras[i]);
    }
    FollowersCounted(view, IsPrimaryEntry, extras);
  }

  lemma StraysCounted(view: seq<Entry>)
    requires Distinct(view)
    ensures Sum(FollowersAt(IsPrimaryEntry, Replicas(view)), view) + |Strays(Replicas(view), PrimaryIds(view))| ==
            |Replicas(view)|
  {
    ReplicasAreReplicas(view);
    AttachedCounted(view, IsPrimaryEntry, Replicas(view));
    FilterParts(Attached(IsPrimaryEntry, view), StrayFrom(PrimaryIds(view)), Replicas(view));
  }

  /** Exact replica numbers leave no replica over. */
  lemma SpreadFromCounts(view: seq<Entry>, primaries: nat, quota: nat)
    requires Sane(view, primaries, quota) && Primaries(view) == primaries
    requires forall id <- PrimaryIds(view) :: Followers(view, id) == quota
    ensures SpreadOK(view, primaries, quota)
  {
    SaneCounts(view, primaries, quota);
    ExactFollowersTotal(view, quota);
    StraysCounted(view);
    assert |Replicas(view)| == quota * primaries;
    assert Strays(Replicas(view), PrimaryIds(view)) == [];
    forall i | 0 <= i < |view| && view[i].role.Replica? ensures view[i].role.of in PrimaryIds(view) && quota > 0 {
      assert Settled(view[i]);
      FilterMember(IsAddressedReplica, view, view[i]);
      StraysMember(Replicas(view), PrimaryIds(view), view[i]);
    }
  }

  /** Strays and extras together are exactly the missing replicas. */
  lemma ReassignmentExact(view: seq<Entry>, primaries: nat, quota: nat, needs: seq<string>)
    requires Sane(view, primaries, quota) && Primaries(view) == primaries
    requires FillsDeficits(needs, PrimaryIds(view), Replicas(view), quota)
    ensures |needs| == |Strays(Replicas(view), PrimaryIds(view))| + |Extras(Replicas(view), PrimaryIds(view), quota)|
  {
    SaneCounts(view, primaries, quota);
    StraysCounted(view);
    ExtrasCounted(view, quota);
    NeedsNamed(needs, PrimaryIds(view), Replicas(view), quota);
    NamesCounted(view, IsPrimaryEntry, needs);
    ReassignmentPointwise(view, quota, needs);
  }
}
