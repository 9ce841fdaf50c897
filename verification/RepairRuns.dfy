/**
 Runs of repair passes: each kind of pass brings the topology one stage nearer, at most four passes
 are needed, and when exactly they succeed.
 */
module RepairRuns {
  import opened ClusterView
  import opened Lists
  import opened ReplicaTopology
  import opened TopologyCounting
  import opened TopologyConvergence

  // ----- What CLUSTER REPLICATE moves do to the counts -----

  function TargetOf(m: Move): string {
    m.target
  }

  function TargetIs(p: string): Move -> int {
    (m: Move) => if m.target == p then 1 else 0
  }

  lemma MovesFollowers(view: seq<Entry>, moves: seq<Move>, next: seq<Entry>, p: string)
    requires Swaps(view, Map(NodeOf, moves), Map(MovedNode, moves), next)
    ensures Followers(next, p) ==
            Followers(view, p) - Followers(Map(NodeOf, moves), p) + Occurs(Map(TargetOf, moves), p)
  {
    SwapsSum(Follows(p), view, Map(NodeOf, moves), Map(MovedNode, moves), next);
    SumMap(MovedNode, Follows(p), TargetIs(p), moves);
    SumMap(TargetOf, Is(p), TargetIs(p), moves);
  }

  function PrimaryNamed(id: string): Entry -> int {
    (e: Entry) => if IsPrimaryEntry(e) && e.id == id then 1 else 0
  }

  lemma PrimaryIdsBySum(view: seq<Entry>, id: string)
    ensures id in PrimaryIds(view) <==> Sum(PrimaryNamed(id), view) > 0
  {
    IdsOfFilter(IsPrimaryEntry, view, id);
    SumNonNegative(PrimaryNamed(id), view);
    if Sum(PrimaryNamed(id), view) > 0 {
      SumPositive(PrimaryNamed(id), view);
    }
  }

  lemma SamePrimaries(view: seq<Entry>, before: seq<Entry>, after: seq<Entry>, next: seq<Entry>)
    requires Swaps(view, before, after, next)
    requires forall i | 0 <= i < |before| :: !before[i].role.Primary?
    requires forall i | 0 <= i < |after| :: !after[i].role.Primary?
    ensures PrimaryIds(next) == PrimaryIds(view) && Primaries(next) == Primaries(view)
  {
    forall id ensures id in PrimaryIds(next) <==> id in PrimaryIds(view) {
      PrimaryIdsBySum(view, id);
      PrimaryIdsBySum(next, id);
      SwapsSum(PrimaryNamed(id), view, before, after, next);
      SumZero(PrimaryNamed(id), before);
      SumZero(PrimaryNamed(id), after);
    }
    SwapsSum(PrimaryOne, view, before, after, next);
    SumZero(PrimaryOne, before);
    SumZero(PrimaryOne, after);
  }

  lemma MovedSettled(moves: seq<Move>)
    requires forall i | 0 <= i < |moves| :: moves[i].node.ip != ""
    ensures KeepsIds(Map(NodeOf, moves), Map(MovedNode, moves))
  {}

  // ----- Reassignment -----

  lemma AvailableReplicas(view: seq<Entry>, quota: nat)
    ensures var ids, replicas := PrimaryIds(view), Replicas(view);
            forall e <- Strays(replicas, ids) + Extras(replicas, ids, quota) :: IsAddressedReplica(e)
  {
    var ids, replicas := PrimaryIds(view), Replicas(view);
    forall e <- Strays(replicas, ids) + Extras(replicas, ids, quota) ensures IsAddressedReplica(e) {
      StraysMember(replicas, ids, e);
      ExtrasMember(replicas, ids, quota, e);
      FilterMember(IsAddressedReplica, view, e);
    }
  }

  lemma AvailableFollowers(view: seq<Entry>, quota: nat, p: string)
    requires p in PrimaryIds(view)
    ensures var ids, replicas := PrimaryIds(view), Replicas(view);
            Followers(Strays(replicas, ids) + Extras(replicas, ids, quota), p) ==
            if Followers(replicas, p) > quota then Followers(replicas, p) - quota else 0
  {
    var ids, replicas := PrimaryIds(view), Replicas(view);
    var strays := Strays(replicas, ids);
    ReplicasAreReplicas(view);
    forall i | 0 <= i < |strays| ensures Follows(p)(strays[i]) == 0 {
      StraysMember(replicas, ids, strays[i]);
    }
    SumZero(Follows(p), strays);
    ExtrasFollowers(replicas, ids, quota, p);
    SumAppend(Follows(p), strays, Extras(replicas, ids, quota));
  }

  lemma ReassignFollowers(view: seq<Entry>, quota: nat, moves: seq<Move>, needs: seq<string>, next: seq<Entry>,
                          p: string)
    requires FillsDeficits(needs, PrimaryIds(view), Replicas(view), quota)
    requires forall q :: Followers(Replicas(view), q) == Followers(view, q)
    requires Map(NodeOf, moves) == Strays(Replicas(view), PrimaryIds(view)) + Extras(Replicas(view), PrimaryIds(view), quota)
    requires Map(TargetOf, moves) == needs
    requires Swaps(view, Map(NodeOf, moves), Map(MovedNode, moves), next)
    requires p in PrimaryIds(view)
    ensures Followers(next, p) == quota
  {
    MovesFollowers(view, moves, next, p);
    AvailableFollowers(view, quota, p);
  }

  /** A reassignment moves every stray and extra replica, one onto each missing place. */
  lemma ReassignMoves(view: seq<Entry>, primaries: nat, quota: nat, plan: Plan) returns (needs: seq<string>)
    requires Sane(view, primaries, quota) && Primaries(view) == primaries && ReassignPlan(view, quota, plan)
    ensures FillsDeficits(needs, PrimaryIds(view), Replicas(view), quota)
    ensures Map(TargetOf, plan.moves) == needs
    ensures Map(NodeOf, plan.moves) ==
            Strays(Replicas(view), PrimaryIds(view)) + Extras(Replicas(view), PrimaryIds(view), quota)
    ensures forall i | 0 <= i < |plan.moves| :: IsAddressedReplica(plan.moves[i].node)
  {
    SaneCounts(view, primaries, quota);
    var ids, replicas, moves := PrimaryIds(view), Replicas(view), plan.moves;
    var available := Strays(replicas, ids) + Extras(replicas, ids, quota);
    needs :| FillsDeficits(needs, ids, replicas, quota) &&
             Pairs(moves, available, needs, Least(|available|, |needs|));
    ReassignmentExact(view, primaries, quota, needs);
    AvailableReplicas(view, quota);
    forall i | 0 <= i < |moves| ensures IsAddressedReplica(moves[i].node) {
      assert moves[i].node == available[i];
    }
  }

  /** With as many primaries as desired, one complete pass makes the spread exact. */
  lemma ReassignReaches(view: seq<Entry>, primaries: nat, quota: nat, plan: Plan, next: seq<Entry>)
    requires Sane(view, primaries, quota) && Primaries(view) == primaries
    requires ReassignPlan(view, quota, plan) && Effect(view, plan, Commands(plan), next)
    ensures Sane(next, primaries, quota) && Primaries(next) == primaries && SpreadOK(next, primaries, quota)
  {
    var needs := ReassignMoves(view, primaries, quota, plan);
    var moves := plan.moves;
    assert moves[..|moves|] == moves;
    MovedSettled(moves);
    KeepsSane(view, Map(NodeOf, moves), Map(MovedNode, moves), next, primaries, quota);
    SamePrimaries(view, Map(NodeOf, moves), Map(MovedNode, moves), next);
    SaneCounts(view, primaries, quota);
    forall id <- PrimaryIds(next) ensures Followers(next, id) == quota {
      ReassignFollowers(view, quota, moves, needs, next, id);
    }
    SpreadFromCounts(next, primaries, quota);
  }

  // ----- No reassignment is cheaper -----

  function First(pair: (Entry, Entry)): Entry {
    pair.0
  }

  function Second(pair: (Entry, Entry)): Entry {
    pair.1
  }

  predicate Unmoved(pair: (Entry, Entry)) {
    pair.0 == pair.1
  }

  predicate Moved(pair: (Entry, Entry)) {
    pair.0 != pair.1
  }

  function FirstFollows(p: string): ((Entry, Entry)) -> int {
    (pair: (Entry, Entry)) => Follows(p)(pair.0)
  }

  function SecondFollows(p: string): ((Entry, Entry)) -> int {
    (pair: (Entry, Entry)) => Follows(p)(pair.1)
  }

  /** A primary keeps at most what it has, and at most what it shall have. */
  lemma KeptAtMost(pairs: seq<(Entry, Entry)>, p: string)
    ensures Followers(Map(First, Filter(Unmoved, pairs)), p) <= Followers(Map(First, pairs), p)
    ensures Followers(Map(First, Filter(Unmoved, pairs)), p) <= Followers(Map(Second, pairs), p)
  {
    var kept := Filter(Unmoved, pairs);
    SumMap(First, Follows(p), FirstFollows(p), kept);
    SumMap(First, Follows(p), FirstFollows(p), pairs);
    SumMap(Second, Follows(p), SecondFollows(p), pairs);
    SumFilterAtMost(FirstFollows(p), Unmoved, pairs);
    SumFilterAtMost(SecondFollows(p), Unmoved, pairs);
    forall i | 0 <= i < |kept| ensures FirstFollows(p)(kept[i]) == SecondFollows(p)(kept[i]) {
      FilterMember(Unmoved, pairs, kept[i]);
    }
    SumSame(FirstFollows(p), SecondFollows(p), kept);
  }

  /** `pairs` lists every replica with the role it shall have, so that each primary ends with its quota. */
  ghost predicate Plans(view: seq<Entry>, quota: nat, pairs: seq<(Entry, Entry)>) {
    Map(First, pairs) == Replicas(view) &&
    (forall i | 0 <= i < |pairs| :: pairs[i].1.role.Replica? && pairs[i].1.role.of in PrimaryIds(view)) &&
    forall p <- PrimaryIds(view) :: Followers(Map(Second, pairs), p) == quota
  }

  lemma KeptCounted(view: seq<Entry>, quota: nat, pairs: seq<(Entry, Entry)>)
    requires Distinct(view) && Plans(view, quota, pairs)
    ensures Sum(FollowersAt(IsPrimaryEntry, Map(First, Filter(Unmoved, pairs))), view) == |Filter(Unmoved, pairs)|
  {
    var kept := Filter(Unmoved, pairs);
    forall i | 0 <= i < |kept| ensures kept[i].0.role.Replica? && kept[i].0.role.of in PrimaryIds(view) {
      FilterMember(Unmoved, pairs, kept[i]);
    }
    FollowersCounted(view, IsPrimaryEntry, Map(First, kept));
  }

  lemma KeptPointwise(view: seq<Entry>, quota: nat, pairs: seq<(Entry, Entry)>)
    requires Plans(view, quota, pairs)
    ensures var extras := Extras(Replicas(view), PrimaryIds(view), quota);
            var kept := Map(First, Filter(Unmoved, pairs));
            Sum(FollowersAt(IsPrimaryEntry, kept), view) + Sum(FollowersAt(IsPrimaryEntry, extras), view) <=
            Sum(FollowersAt(IsPrimaryEntry, Replicas(view)), view)
  {
    var keep, replicas := IsPrimaryEntry, Replicas(view);
    var extras, kept := Extras(replicas, PrimaryIds(view), quota), Map(First, Filter(Unmoved, pairs));
    var both := Plus(FollowersAt(keep, kept), FollowersAt(keep, extras));
    ReplicasAreReplicas(view);
    forall i | 0 <= i < |view| ensures both(view[i]) <= FollowersAt(keep, replicas)(view[i]) {
      if keep(view[i]) {
        IdsOfFilter(keep, view, view[i].id);
        KeptAtMost(pairs, view[i].id);
        ExtrasFollowers(replicas, PrimaryIds(view), quota, view[i].id);
      }
    }
    SumAtMost(both, FollowersAt(keep, replicas), view);
    SumPlus(FollowersAt(keep, kept), FollowersAt(keep, extras), view);
  }

  lemma {:induction false} MovedOrUnmoved(pairs: seq<(Entry, Entry)>)
    ensures |Filter(Moved, pairs)| + |Filter(Unmoved, pairs)| == |pairs|
  {
    if pairs != [] {
      MovedOrUnmoved(pairs[..|pairs| - 1]);
    }
  }

  /** Whatever way of giving every primary its quota is chosen, it moves at least the strays and extras. */
  lemma ReassignmentMinimal(view: seq<Entry>, quota: nat, pairs: seq<(Entry, Entry)>)
    requires Distinct(view) && Plans(view, quota, pairs)
    ensures |Filter(Moved, pairs)| >=
            |Strays(Replicas(view), PrimaryIds(view))| + |Extras(Replicas(view), PrimaryIds(view), quota)|
  {
    MovedOrUnmoved(pairs);
    KeptCounted(view, quota, pairs);
    KeptPointwise(view, quota, pairs);
    ExtrasCounted(view, quota);
    StraysCounted(view);
  }

  // ----- Demotion -----

  function EmptyOne(e: Entry): int {
    if IsEmptyPrimary(e) then 1 else 0
  }

  function Empties(view: seq<Entry>): seq<Entry> {
    Filter(IsEmptyPrimary, view)
  }

  lemma OwnersAndEmpties(view: seq<Entry>, primaries: nat, quota: nat)
    requires Sane(view, primaries, quota)
    ensures Primaries(view) == Owners(view) + |Empties(view)|
    ensures Owners(view) == |Filter(IsOwner, view)|
    ensures forall i | 0 <= i < |view| :: (OwnerOne(view[i]) == 1 <==> IsOwner(view[i]))
  {
    forall i | 0 <= i < |view| ensures PrimaryOne(view[i]) == OwnerOne(view[i]) + EmptyOne(view[i]) {
      assert Settled(view[i]);
    }
    forall i | 0 <= i < |view| ensures OwnerOne(view[i]) == if IsOwner(view[i]) then 1 else 0 {
      assert Settled(view[i]);
    }
    SumCombine(OwnerOne, EmptyOne, PrimaryOne, view);
    SumLength(EmptyOne, IsEmptyPrimary, view);
    SumLength(OwnerOne, IsOwner, view);
  }

  lemma OwnerIds(view: seq<Entry>, primaries: nat, quota: nat)
    requires Sane(view, primaries, quota)
    ensures AddressedPrimaryIds(view) - Ids(Empties(view)) == Ids(Filter(IsOwner, view))
  {
    forall id
      ensures id in AddressedPrimaryIds(view) && id !in Ids(Empties(view)) <==> id in Ids(Filter(IsOwner, view))
    {
      IdsOfFilter(IsAddressedPrimary, view, id);
      IdsOfFilter(IsEmptyPrimary, view, id);
      IdsOfFilter(IsOwner, view, id);
      if i: nat :| i < |view| && IsOwner(view[i]) && view[i].id == id {
        if j: nat :| j < |view| && IsEmptyPrimary(view[j]) && view[j].id == id {
          DistinctAt(view, i, j);
        }
      }
    }
  }

  lemma NeedIsGap(view: seq<Entry>, quota: nat, needs: seq<string>, owners: set<string>, e: Entry)
    requires FillsDeficits(needs, owners, Replicas(view), quota)
    requires Followers(Replicas(view), e.id) == Followers(view, e.id)
    requires (OwnerOne(e) == 1 <==> IsOwner(e)) && (IsOwner(e) ==> e.id in owners)
    ensures NamedAt(IsOwner, needs)(e) == OwnerGap(view, quota)(e)
  {}

  /** The shortage list is as long as the shortage of the slot owners. */
  lemma NeedsAreOwnerDeficit(view: seq<Entry>, primaries: nat, quota: nat, needs: seq<string>)
    requires Sane(view, primaries, quota)
    requires FillsDeficits(needs, Ids(Filter(IsOwner, view)), Replicas(view), quota)
    ensures |needs| == OwnerDeficit(view, quota)
    ensures forall i | 0 <= i < |view| :: NamedAt(IsOwner, needs)(view[i]) == OwnerGap(view, quota)(view[i])
  {
    var owners := Ids(Filter(IsOwner, view));
    forall i | 0 <= i < |view| ensures NamedAt(IsOwner, needs)(view[i]) == OwnerGap(view, quota)(view[i]) {
      SaneCounts(view, primaries, quota);
      OwnersAndEmpties(view, primaries, quota);
      IdsOfFilter(IsOwner, view, view[i].id);
      NeedIsGap(view, quota, needs, owners, view[i]);
    }
    NeedsNamed(needs, owners, Replicas(view), quota);
    NamesCounted(view, IsOwner, needs);
    SumSame(NamedAt(IsOwner, needs), OwnerGap(view, quota), view);
  }

  /** When enough primaries own slots, the owners lack at least one replica per empty primary. */
  lemma OwnersLackEnough(view: seq<Entry>, primaries: nat, quota: nat)
    requires Sane(view, primaries, quota) && Owners(view) >= primaries
    ensures OwnerDeficit(view, quota) >= |Empties(view)|
  {
    SaneCounts(view, primaries, quota);
    OwnersAndEmpties(view, primaries, quota);
    AttachedCounted(view, IsOwner, Replicas(view));
    FilterShorter(Attached(IsOwner, view), Replicas(view));
    OwnerPlaces(view, primaries, quota);
    PlacesLeft(quota, primaries, Owners(view));
  }

  lemma PlacesLeft(quota: nat, primaries: nat, owners: int)
    requires owners >= primaries
    ensures quota * owners + primaries >= primaries * (quota + 1)
  {
    assert quota * owners == quota * primaries + quota * (owners - primaries);
    assert quota * (owners - primaries) >= 0;
  }

  function OwnerQuota(quota: int): Entry -> int {
    (e: Entry) => if IsOwner(e) then quota else 0
  }

  lemma {:induction false} OwnerQuotaTotal(view: seq<Entry>, quota: int)
    ensures Sum(OwnerQuota(quota), view) == quota * |Filter(IsOwner, view)|
  {
    if view != [] {
      var n := |view| - 1;
      assert view == view[..n] + [view[n]];
      SumSnoc(OwnerQuota(quota), view[..n], view[n]);
      OwnerQuotaTotal(view[..n], quota);
      assert quota * (|Filter(IsOwner, view[..n])| + 1) == quota * |Filter(IsOwner, view[..n])| + quota;
    }
  }

  lemma OwnerPlaces(view: seq<Entry>, primaries: nat, quota: nat)
    requires Sane(view, primaries, quota)
    ensures quota * Owners(view) <= Sum(FollowersAt(IsOwner, Replicas(view)), view) + OwnerDeficit(view, quota)
  {
    SaneCounts(view, primaries, quota);
    OwnersAndEmpties(view, primaries, quota);
    var have := Plus(FollowersAt(IsOwner, Replicas(view)), OwnerGap(view, quota));
    forall i | 0 <= i < |view| ensures OwnerQuota(quota)(view[i]) <= have(view[i]) {}
    SumAtMost(OwnerQuota(quota), have, view);
    SumPlus(FollowersAt(IsOwner, Replicas(view)), OwnerGap(view, quota), view);
    OwnerQuotaTotal(view, quota);
  }

  lemma PrefixOccurs(names: seq<string>, k: nat, p: string)
    requires k <= |names|
    ensures 0 <= Occurs(names[..k], p) <= Occurs(names, p)
  {
    SumAppend(Is(p), names[..k], names[k..]);
    assert names == names[..k] + names[k..];
    SumNonNegative(Is(p), names[..k]);
    SumNonNegative(Is(p), names[k..]);
  }

  /** Empty primaries that become replicas, each of the primary listed for it. */
  ghost predicate Demotion(before: seq<Entry>, after: seq<Entry>, targets: seq<string>) {
    |before| == |after| == |targets| && KeepsIds(before, after) &&
    (forall i | 0 <= i < |before| :: IsEmptyPrimary(before[i])) &&
    (forall i | 0 <= i < |after| :: after[i].role.Replica?) &&
    forall p {:trigger Followers(after, p)} :: Followers(after, p) == Occurs(targets, p)
  }

  lemma MovesDemote(moves: seq<Move>)
    requires forall i | 0 <= i < |moves| :: IsEmptyPrimary(moves[i].node)
    ensures Demotion(Map(NodeOf, moves), Map(MovedNode, moves), Map(TargetOf, moves))
  {
    MovedSettled(moves);
    forall p ensures Followers(Map(MovedNode, moves), p) == Occurs(Map(TargetOf, moves), p) {
      SumMap(MovedNode, Follows(p), TargetIs(p), moves);
      SumMap(TargetOf, Is(p), TargetIs(p), moves);
    }
  }

  lemma PairedNodes(moves: seq<Move>, empties: seq<Entry>, needs: seq<string>, k: int)
    requires Pairs(moves, empties, needs, k) && forall i | 0 <= i < |empties| :: IsEmptyPrimary(empties[i])
    ensures Map(TargetOf, moves) == needs[..k] && forall i | 0 <= i < |moves| :: IsEmptyPrimary(moves[i].node)
  {}

  lemma EmptiesAreEmpty(view: seq<Entry>)
    ensures forall i | 0 <= i < |Empties(view)| :: IsEmptyPrimary(Empties(view)[i])
  {
    forall i | 0 <= i < |Empties(view)| ensures IsEmptyPrimary(Empties(view)[i]) {
      FilterMember(IsEmptyPrimary, view, Empties(view)[i]);
    }
  }

  lemma DemotionNeeds(view: seq<Entry>, primaries: nat, quota: nat, plan: Plan) returns (needs: seq<string>)
    requires DemotePlan(view, primaries, quota, plan)
    ensures FillsDeficits(needs, AddressedPrimaryIds(view) - Ids(Empties(view)), Replicas(view), quota)
    ensures Pairs(plan.moves, Empties(view), needs,
                  Least(Least(|AddressedPrimaryIds(view)| - primaries, |Empties(view)|), |needs|))
  {
    var excess := |AddressedPrimaryIds(view)| - primaries;
    var empties := Filter(IsEmptyPrimary, view);
    needs :| FillsDeficits(needs, AddressedPrimaryIds(view) - Ids(empties), Replicas(view), quota) &&
             Pairs(plan.moves, empties, needs, Least(Least(excess, |empties|), |needs|));
  }

  /** The first k moves of a demotion take the first empty primaries, each onto the first missing places. */
  lemma DemotionMoves(view: seq<Entry>, primaries: nat, quota: nat, plan: Plan, k: nat) returns (needs: seq<string>)
    requires Sane(view, primaries, quota) && DemotePlan(view, primaries, quota, plan) && k <= |plan.moves|
    ensures FillsDeficits(needs, Ids(Filter(IsOwner, view)), Replicas(view), quota)
    ensures |needs| == OwnerDeficit(view, quota)
    ensures |plan.moves| == Least(Least(Primaries(view) - primaries, |Empties(view)|), |needs|) <= |needs|
    ensures Demotion(Map(NodeOf, plan.moves[..k]), Map(MovedNode, plan.moves[..k]), needs[..k])
  {
    needs := DemotionNeeds(view, primaries, quota, plan);
    SaneCounts(view, primaries, quota);
    OwnerIds(view, primaries, quota);
    NeedsAreOwnerDeficit(view, primaries, quota, needs);
    EmptiesAreEmpty(view);
    PairedNodes(plan.moves[..k], Empties(view), needs, k);
    MovesDemote(plan.moves[..k]);
  }

  lemma DemotionFollowers(view: seq<Entry>, before: seq<Entry>, after: seq<Entry>, targets: seq<string>,
                          next: seq<Entry>, p: string)
    requires Swaps(view, before, after, next) && Demotion(before, after, targets)
    ensures Followers(next, p) == Followers(view, p) + Occurs(targets, p)
  {
    SwapsSum(Follows(p), view, before, after, next);
    SumZero(Follows(p), before);
    assert Followers(after, p) == Occurs(targets, p);
  }

  lemma DemotionGap(view: seq<Entry>, primaries: nat, quota: nat, needs: seq<string>, k: nat, next: seq<Entry>, e: Entry)
    requires Sane(view, primaries, quota) && e in view && k <= |needs|
    requires FillsDeficits(needs, Ids(Filter(IsOwner, view)), Replicas(view), quota)
    requires Followers(next, e.id) == Followers(view, e.id) + Occurs(needs[..k], e.id)
    ensures OwnerGap(next, quota)(e) + NamedAt(IsOwner, needs[..k])(e) == OwnerGap(view, quota)(e)
  {
    var i: nat :| i < |view| && view[i] == e;
    NeedsAreOwnerDeficit(view, primaries, quota, needs);
    PrefixOccurs(needs, k, e.id);
    OwnersAndEmpties(view, primaries, quota);
  }

  lemma DemotionGapsTotal(view: seq<Entry>, primaries: nat, quota: nat, needs: seq<string>, k: nat, next: seq<Entry>)
    requires Sane(view, primaries, quota) && k <= |needs|
    requires FillsDeficits(needs, Ids(Filter(IsOwner, view)), Replicas(view), quota)
    requires forall p {:trigger Followers(next, p)} :: Followers(next, p) == Followers(view, p) + Occurs(needs[..k], p)
    ensures Sum(OwnerGap(next, quota), view) + k == OwnerDeficit(view, quota)
  {
    var named := NamedAt(IsOwner, needs[..k]);
    forall i | 0 <= i < |view| ensures OwnerGap(view, quota)(view[i]) == OwnerGap(next, quota)(view[i]) + named(view[i]) {
      assert Followers(next, view[i].id) == Followers(view, view[i].id) + Occurs(needs[..k], view[i].id);
      DemotionGap(view, primaries, quota, needs, k, next, view[i]);
    }
    SumCombine(OwnerGap(next, quota), named, OwnerGap(view, quota), view);
    NeedsNamed(needs, Ids(Filter(IsOwner, view)), Replicas(view), quota);
    NamesCounted(view, IsOwner, needs[..k]);
  }

  /** A demotion changes neither the slot owners nor which of them lacks how much, but for the places it fills. */
  lemma DemotionKeeps(f: Entry -> int, view: seq<Entry>, before: seq<Entry>, after: seq<Entry>, next: seq<Entry>)
    requires Swaps(view, before, after, next)
    requires forall i | 0 <= i < |before| :: f(before[i]) == 0
    requires forall i | 0 <= i < |after| :: f(after[i]) == 0
    ensures Sum(f, next) == Sum(f, view)
  {
    SwapsSum(f, view, before, after, next);
    SumZero(f, before);
    SumZero(f, after);
  }

  lemma DemotionCounts(view: seq<Entry>, before: seq<Entry>, after: seq<Entry>, targets: seq<string>,
                       next: seq<Entry>, quota: nat)
    requires Swaps(view, before, after, next) && Demotion(before, after, targets)
    ensures Primaries(next) == Primaries(view) - |before| && Owners(next) == Owners(view)
    ensures OwnerDeficit(next, quota) == Sum(OwnerGap(next, quota), view)
  {
    SwapsSum(PrimaryOne, view, before, after, next);
    SumOnes(PrimaryOne, before);
    SumZero(PrimaryOne, after);
    DemotionKeeps(OwnerOne, view, before, after, next);
    DemotionKeeps(OwnerGap(next, quota), view, before, after, next);
  }

  lemma DemotionSteps(view: seq<Entry>, primaries: nat, quota: nat, before: seq<Entry>, after: seq<Entry>,
                      needs: seq<string>, next: seq<Entry>)
    requires Sane(view, primaries, quota) && |before| <= |needs|
    requires FillsDeficits(needs, Ids(Filter(IsOwner, view)), Replicas(view), quota)
    requires Swaps(view, before, after, next) && Demotion(before, after, needs[..|before|])
    ensures Sane(next, primaries, quota) && Owners(next) == Owners(view)
    ensures Primaries(next) == Primaries(view) - |before|
    ensures OwnerDeficit(next, quota) == OwnerDeficit(view, quota) - |before|
  {
    KeepsSane(view, before, after, next, primaries, quota);
    DemotionCounts(view, before, after, needs[..|before|], next, quota);
    forall p ensures Followers(next, p) == Followers(view, p) + Occurs(needs[..|before|], p) {
      DemotionFollowers(view, before, after, needs[..|before|], next, p);
    }
    DemotionGapsTotal(view, primaries, quota, needs, |before|, next);
  }

  /** A demotion cut short after k moves turns k empty primaries into missing replicas. */
  lemma DemoteCut(view: seq<Entry>, primaries: nat, quota: nat, plan: Plan, k: nat, next: seq<Entry>)
    requires Sane(view, primaries, quota)
    requires DemotePlan(view, primaries, quota, plan) && Effect(view, plan, k, next)
    ensures k <= |plan.moves| == Least(Least(Primaries(view) - primaries, |Empties(view)|), OwnerDeficit(view, quota))
    ensures Primaries(next) == Primaries(view) - k && OwnerDeficit(next, quota) == OwnerDeficit(view, quota) - k
    ensures Sane(next, primaries, quota) && Owners(next) == Owners(view)
  {
    var needs := DemotionMoves(view, primaries, quota, plan, k);
    var moves := plan.moves[..k];
    DemotionSteps(view, primaries, quota, Map(NodeOf, moves), Map(MovedNode, moves), needs, next);
  }

  /** A complete demotion turns as many empty primaries into missing replicas as there are of both. */
  lemma DemoteEffect(view: seq<Entry>, primaries: nat, quota: nat, plan: Plan, next: seq<Entry>)
    requires Sane(view, primaries, quota)
    requires DemotePlan(view, primaries, quota, plan) && Effect(view, plan, Commands(plan), next)
    ensures var k := Least(Least(Primaries(view) - primaries, |Empties(view)|), OwnerDeficit(view, quota));
            Primaries(next) == Primaries(view) - k && OwnerDeficit(next, quota) == OwnerDeficit(view, quota) - k
    ensures Sane(next, primaries, quota) && Owners(next) == Owners(view)
  {
    DemoteCut(view, primaries, quota, plan, |plan.moves|, next);
  }

  // ----- Promotion -----

  lemma PromotedSettled(nodes: seq<Entry>)
    requires forall i | 0 <= i < |nodes| :: IsAddressedReplica(nodes[i])
    ensures KeepsIds(nodes, Map(Promoted, nodes))
  {}

  /** A promotion cut short after k commands supplies k of the missing primaries. */
  lemma PromoteCut(view: seq<Entry>, primaries: nat, quota: nat, plan: Plan, k: nat, next: seq<Entry>)
    requires Sane(view, primaries, quota) && Primaries(view) < primaries
    requires PromotePlan(view, primaries, quota, plan) && Effect(view, plan, k, next)
    ensures plan.Promote? && k <= |plan.nodes| == primaries - Primaries(view)
    ensures Sane(next, primaries, quota) && Primaries(next) == Primaries(view) + k && Owners(next) == Owners(view)
  {
    SaneCounts(view, primaries, quota);
    ReplicasAreReplicas(view);
    assert |Replicas(view)| - primaries * quota == primaries - Primaries(view);
    var nodes := plan.nodes[..k];
    PromotedSettled(nodes);
    KeepsSane(view, nodes, Map(Promoted, nodes), next, primaries, quota);
    SwapsSum(PrimaryOne, view, nodes, Map(Promoted, nodes), next);
    SumZero(PrimaryOne, nodes);
    SumMapOnes(Promoted, PrimaryOne, nodes);
    SwapsSum(OwnerOne, view, nodes, Map(Promoted, nodes), next);
    SumZero(OwnerOne, nodes);
    SumZero(OwnerOne, Map(Promoted, nodes));
  }

  /** A complete promotion supplies exactly the missing primaries. */
  lemma PromoteEffect(view: seq<Entry>, primaries: nat, quota: nat, plan: Plan, next: seq<Entry>)
    requires Sane(view, primaries, quota) && Primaries(view) < primaries
    requires PromotePlan(view, primaries, quota, plan) && Effect(view, plan, Commands(plan), next)
    ensures Sane(next, primaries, quota) && Primaries(next) == primaries
  {
    PromoteCut(view, primaries, quota, plan, Commands(plan), next);
  }

  // ----- Drain -----

  /** A slot owner that is not drained. */
  function KeptOwner(drained: seq<Entry>): Entry -> int {
    (e: Entry) => if OwnerOne(e) == 1 && e !in drained then 1 else 0
  }

  lemma IdsAtMost(view: seq<Entry>)
    ensures |Ids(view)| <= |view|
  {
    if view != [] {
      var n := |view| - 1;
      assert view == view[..n] + [view[n]];
      IdsSnoc(view[..n], view[n]);
      IdsAtMost(view[..n]);
    }
  }

  lemma SortedDistinct(view: seq<Entry>, sorted: seq<Entry>)
    requires Distinct(view) && multiset(sorted) == multiset(Filter(IsOwner, view))
    ensures Distinct(sorted)
  {
    FilterDistinct(IsOwner, view);
    forall id ensures Sum(HasId(id), sorted) <= 1 {
      SumPermuted(HasId(id), sorted, Filter(IsOwner, view));
    }
  }

  lemma KeptOfParts(head: seq<Entry>, tail: seq<Entry>)
    requires forall e <- tail :: OwnerOne(e) == 1 && e !in head
    ensures Sum(KeptOwner(head), head + tail) == |tail|
  {
    SumAppend(KeptOwner(head), head, tail);
    SumZero(KeptOwner(head), head);
    SumOnes(KeptOwner(head), tail);
  }

  lemma LaterNotEarlier(head: seq<Entry>, tail: seq<Entry>, e: Entry)
    requires Distinct(head + tail) && e in tail
    ensures e !in head
  {
    if e in head {
      var i: nat, j: nat :| i < |head| && head[i] == e && j < |tail| && tail[j] == e;
      assert (head + tail)[i] == (head + tail)[|head| + j];
      DistinctAt(head + tail, i, |head| + j);
    }
  }

  lemma KeptOfSorted(head: seq<Entry>, tail: seq<Entry>)
    requires Distinct(head + tail) && forall e <- tail :: OwnerOne(e) == 1
    ensures Sum(KeptOwner(head), head + tail) == |tail|
  {
    forall e <- tail ensures e !in head {
      LaterNotEarlier(head, tail, e);
    }
    KeptOfParts(head, tail);
  }

  lemma KeptOwners(view: seq<Entry>, primaries: nat, quota: nat, sorted: seq<Entry>, n: nat)
    requires Sane(view, primaries, quota) && multiset(sorted) == multiset(Filter(IsOwner, view))
    requires n <= |sorted| == |Filter(IsOwner, view)|
    ensures Sum(KeptOwner(sorted[..n]), view) == Owners(view) - n
  {
    var f, owners := KeptOwner(sorted[..n]), Filter(IsOwner, view);
    OwnersAndEmpties(view, primaries, quota);
    SumFilter(f, IsOwner, view);
    SumPermuted(f, sorted, owners);
    SortedDistinct(view, sorted);
    forall e <- sorted ensures OwnerOne(e) == 1 {
      assert e in multiset(sorted);
      FilterMember(IsOwner, view, e);
    }
    assert sorted == sorted[..n] + sorted[n..];
    KeptOfSorted(sorted[..n], sorted[n..]);
  }

  lemma {:induction false} DrainedOwners(before: seq<Entry>, after: seq<Entry>, drained: seq<Entry>)
    requires |before| == |after|
    requires forall i | 0 <= i < |before| ::
               OwnerOne(after[i]) == 1 <==> OwnerOne(before[i]) == 1 && before[i] !in drained
    ensures Sum(OwnerOne, after) == Sum(KeptOwner(drained), before)
  {
    if before != [] {
      DrainedOwners(before[1..], after[1..], drained);
    }
  }

  lemma KeepersLeft(ids: set<string>, drained: seq<Entry>)
    requires |drained| < |ids|
    ensures ids - Ids(drained) != {}
  {
    IdsAtMost(drained);
    if ids <= Ids(drained) {
      SubsetSize(ids, Ids(drained));
    } else {
      var id :| id in ids && id !in Ids(drained);
      assert id in ids - Ids(drained);
    }
  }

  lemma DrainNumber(view: seq<Entry>, primaries: nat, quota: nat)
    requires Sane(view, primaries, quota) && Primaries(view) > primaries && Empties(view) == []
    ensures |AddressedPrimaryIds(view)| == Primaries(view) == |Filter(IsOwner, view)|
    ensures Primaries(view) - primaries == Least(Primaries(view) - primaries, |Filter(IsOwner, view)| - 1) > 0
    ensures Primaries(view) - primaries < Primaries(view)
  {
    SaneCounts(view, primaries, quota);
    OwnersAndEmpties(view, primaries, quota);
  }

  lemma DrainNames(view: seq<Entry>, sorted: seq<Entry>, n: nat, plan: Plan)
    requires DrainsFirst(view, sorted, n, plan) && n < |AddressedPrimaryIds(view)|
    ensures multiset(sorted) == multiset(Filter(IsOwner, view)) && n <= |sorted| == |Filter(IsOwner, view)|
    ensures plan.Drain? && plan.nodes == sorted[..n]
  {
    KeepersLeft(AddressedPrimaryIds(view), sorted[..n]);
  }

  lemma RebalancedSettled(view: seq<Entry>, primaries: nat, quota: nat, drained: seq<Entry>, after: seq<Entry>)
    requires Sane(view, primaries, quota) && Redistributes(Filter(IsPrimaryEntry, view), drained, after)
    ensures KeepsIds(Filter(IsPrimaryEntry, view), after)
    ensures Sum(PrimaryOne, after) == Sum(PrimaryOne, Filter(IsPrimaryEntry, view))
  {
    var before := Filter(IsPrimaryEntry, view);
    forall i | 0 <= i < |before| ensures Settled(after[i]) && PrimaryOne(before[i]) == 1 {
      FilterMember(IsPrimaryEntry, view, before[i]);
      assert Rebalanced(before[i], before[i] in drained, after[i]);
    }
    forall i | 0 <= i < |after| ensures PrimaryOne(after[i]) == 1 {
      assert Rebalanced(before[i], before[i] in drained, after[i]);
    }
    SumOnes(PrimaryOne, before);
    SumOnes(PrimaryOne, after);
  }

  lemma DrainOwners(view: seq<Entry>, drained: seq<Entry>, after: seq<Entry>, next: seq<Entry>)
    requires Drains(Filter(IsPrimaryEntry, view), drained, after)
    requires Swaps(view, Filter(IsPrimaryEntry, view), after, next)
    ensures Owners(next) == Sum(KeptOwner(drained), view)
  {
    var before := Filter(IsPrimaryEntry, view);
    SwapsSum(OwnerOne, view, before, after, next);
    SumFilter(OwnerOne, IsPrimaryEntry, view);
    SumFilter(KeptOwner(drained), IsPrimaryEntry, view);
    DrainedOwners(before, after, drained);
  }

  lemma DrainedSane(view: seq<Entry>, primaries: nat, quota: nat, drained: seq<Entry>, after: seq<Entry>,
                    next: seq<Entry>)
    requires Sane(view, primaries, quota) && Redistributes(Filter(IsPrimaryEntry, view), drained, after)
    requires Swaps(view, Filter(IsPrimaryEntry, view), after, next)
    ensures Sane(next, primaries, quota) && Primaries(next) == Primaries(view)
  {
    RebalancedSettled(view, primaries, quota, drained, after);
    KeepsSane(view, Filter(IsPrimaryEntry, view), after, next, primaries, quota);
    SwapsSum(PrimaryOne, view, Filter(IsPrimaryEntry, view), after, next);
  }

  lemma DrainAfter(view: seq<Entry>, plan: Plan, next: seq<Entry>) returns (after: seq<Entry>)
    requires plan.Drain? && Effect(view, plan, 1, next)
    ensures Drains(Filter(IsPrimaryEntry, view), plan.nodes, after)
    ensures Swaps(view, Filter(IsPrimaryEntry, view), after, next)
  {
    after :| Redistributes(Filter(IsPrimaryEntry, view), plan.nodes, after) &&
             Drains(Filter(IsPrimaryEntry, view), plan.nodes, after) &&
             Swaps(view, Filter(IsPrimaryEntry, view), after, next);
  }

  lemma DrainLeaves(view: seq<Entry>, primaries: nat, quota: nat, sorted: seq<Entry>, n: nat, after: seq<Entry>,
                    next: seq<Entry>)
    requires Sane(view, primaries, quota) && multiset(sorted) == multiset(Filter(IsOwner, view))
    requires n <= |sorted| == |Filter(IsOwner, view)|
    requires Drains(Filter(IsPrimaryEntry, view), sorted[..n], after)
    requires Swaps(view, Filter(IsPrimaryEntry, view), after, next)
    ensures Sane(next, primaries, quota) && Primaries(next) == Primaries(view) && Owners(next) == Owners(view) - n
  {
    DrainedSane(view, primaries, quota, sorted[..n], after, next);
    DrainOwners(view, sorted[..n], after, next);
    KeptOwners(view, primaries, quota, sorted, n);
  }

  /** What a drain of `n` owners does, whichever they are. */
  ghost predicate DrainsSome(view: seq<Entry>, n: nat, next: seq<Entry>) {
    exists sorted: seq<Entry>, after: seq<Entry> ::
      multiset(sorted) == multiset(Filter(IsOwner, view)) && n <= |sorted| == |Filter(IsOwner, view)| &&
      Drains(Filter(IsPrimaryEntry, view), sorted[..n], after) &&
      Swaps(view, Filter(IsPrimaryEntry, view), after, next)
  }

  lemma DrainsFirstDrains(view: seq<Entry>, sorted: seq<Entry>, n: nat, plan: Plan, next: seq<Entry>)
    requires DrainsFirst(view, sorted, n, plan) && n < |AddressedPrimaryIds(view)|
    requires Effect(view, plan, Commands(plan), next)
    ensures DrainsSome(view, n, next)
  {
    DrainNames(view, sorted, n, plan);
    var after := DrainAfter(view, plan, next);
  }

  lemma DrainPlanDrains(view: seq<Entry>, primaries: nat, plan: Plan, n: nat, next: seq<Entry>)
    requires DrainPlan(view, primaries, plan) && Effect(view, plan, Commands(plan), next)
    requires 0 < n < |AddressedPrimaryIds(view)|
    requires n == Least(|AddressedPrimaryIds(view)| - primaries, |Filter(IsOwner, view)| - 1)
    ensures DrainsSome(view, n, next)
  {
    var sorted: seq<Entry> :| DrainsFirst(view, sorted, n, plan);
    DrainsFirstDrains(view, sorted, n, plan, next);
  }

  lemma DrainsSomeLeaves(view: seq<Entry>, primaries: nat, quota: nat, n: nat, next: seq<Entry>)
    requires Sane(view, primaries, quota) && DrainsSome(view, n, next)
    ensures Sane(next, primaries, quota) && Primaries(next) == Primaries(view) && Owners(next) == Owners(view) - n
  {
    var sorted: seq<Entry>, after: seq<Entry> :|
      multiset(sorted) == multiset(Filter(IsOwner, view)) && n <= |sorted| == |Filter(IsOwner, view)| &&
      Drains(Filter(IsPrimaryEntry, view), sorted[..n], after) &&
      Swaps(view, Filter(IsPrimaryEntry, view), after, next);
    DrainLeaves(view, primaries, quota, sorted, n, after, next);
  }

  /** A complete drain leaves exactly the desired number of slot owners. */
  lemma DrainEffect(view: seq<Entry>, primaries: nat, quota: nat, plan: Plan, next: seq<Entry>)
    requires Sane(view, primaries, quota) && Primaries(view) > primaries && Empties(view) == []
    requires DrainPlan(view, primaries, plan) && Effect(view, plan, Commands(plan), next)
    ensures Sane(next, primaries, quota) && Primaries(next) == Primaries(view) && Owners(next) == primaries
  {
    var n := Primaries(view) - primaries;
    DrainNumber(view, primaries, quota);
    DrainPlanDrains(view, primaries, plan, n, next);
    DrainsSomeLeaves(view, primaries, quota, n, next);
    OwnersAndEmpties(view, primaries, quota);
  }

  // ----- Runs -----

  /** Repair by complete passes can succeed: there is room for every primary in excess. */
  ghost predicate Curable(view: seq<Entry>, primaries: nat, quota: nat) {
    Primaries(view) <= primaries || Owners(view) >= primaries ||
    OwnerDeficit(view, quota) >= Primaries(view) - primaries
  }

  /** One cycle: the gate passes and nothing changes, or one complete pass of repair. */
  ghost predicate Cycle(view: seq<Entry>, next: seq<Entry>, primaries: nat, quota: nat) {
    if SpreadOK(view, primaries, quota) then next == view else FullPass(view, next, primaries, quota)
  }

  ghost predicate Run(run: seq<seq<Entry>>, primaries: nat, quota: nat) {
    run != [] && forall i | 0 <= i < |run| - 1 :: CycleAt(run, primaries, quota, i)
  }

  ghost predicate CycleAt(run: seq<seq<Entry>>, primaries: nat, quota: nat, i: nat)
    requires i + 1 < |run|
  {
    Cycle(run[i], run[i + 1], primaries, quota)
  }

  /** How many complete passes a curable view still needs. */
  ghost function PassesLeft(view: seq<Entry>, primaries: nat, quota: nat): nat {
    if SpreadOK(view, primaries, quota) then 0
    else if Primaries(view) == primaries then 1
    else if Primaries(view) < primaries then 2
    else if Empties(view) == [] then 3
    else if Owners(view) > primaries then 4
    else 2
  }

  lemma NoReplicaNoFollower(view: seq<Entry>)
    requires forall i | 0 <= i < |view| :: Settled(view[i]) && !view[i].role.Replica?
    ensures Primaries(view) == |view|
  {
    SumOnes(PrimaryOne, view);
  }

  lemma SpreadHasPrimaries(view: seq<Entry>, primaries: nat, quota: nat)
    requires Sane(view, primaries, quota) && SpreadOK(view, primaries, quota)
    ensures Primaries(view) == primaries
  {
    SaneCounts(view, primaries, quota);
    if quota == 0 {
      NoReplicaNoFollower(view);
    }
  }

  lemma FullPassPlan(view: seq<Entry>, next: seq<Entry>, primaries: nat, quota: nat) returns (plan: Plan)
    requires Sane(view, primaries, quota) && FullPass(view, next, primaries, quota)
    ensures Effect(view, plan, Commands(plan), next)
    ensures Primaries(view) > primaries && Empties(view) != [] ==> DemotePlan(view, primaries, quota, plan)
    ensures Primaries(view) > primaries && Empties(view) == [] ==> DrainPlan(view, primaries, plan)
    ensures Primaries(view) < primaries ==> PromotePlan(view, primaries, quota, plan)
    ensures Primaries(view) == primaries ==> ReassignPlan(view, quota, plan)
  {
    SaneCounts(view, primaries, quota);
    plan :| IsPlan(view, primaries, quota, plan) && Effect(view, plan, Commands(plan), next);
  }

  lemma DemotePass(view: seq<Entry>, next: seq<Entry>, primaries: nat, quota: nat)
    requires Sane(view, primaries, quota) && Primaries(view) > primaries && Empties(view) != []
    requires FullPass(view, next, primaries, quota)
    ensures Sane(next, primaries, quota) && Owners(next) == Owners(view)
    ensures Owners(view) >= primaries ==> Primaries(next) == Owners(view)
    ensures Owners(view) < primaries && Curable(view, primaries, quota) ==> Primaries(next) == primaries
    ensures !Curable(view, primaries, quota) ==> !Curable(next, primaries, quota)
  {
    var plan := FullPassPlan(view, next, primaries, quota);
    DemoteEffect(view, primaries, quota, plan, next);
    OwnersAndEmpties(view, primaries, quota);
    if Owners(view) >= primaries {
      OwnersLackEnough(view, primaries, quota);
    }
  }

  /** A complete pass over a curable view brings it nearer, and over any other one leaves it incurable. */
  lemma PassProgress(view: seq<Entry>, next: seq<Entry>, primaries: nat, quota: nat)
    requires Sane(view, primaries, quota) && !SpreadOK(view, primaries, quota)
    requires FullPass(view, next, primaries, quota)
    ensures Sane(next, primaries, quota) && (Curable(next, primaries, quota) <==> Curable(view, primaries, quota))
    ensures Curable(view, primaries, quota) ==> PassesLeft(next, primaries, quota) < PassesLeft(view, primaries, quota)
  {
    var plan := FullPassPlan(view, next, primaries, quota);
    OwnersAndEmpties(view, primaries, quota);
    if Primaries(view) == primaries {
      ReassignReaches(view, primaries, quota, plan, next);
    } else if Primaries(view) < primaries {
      PromoteEffect(view, primaries, quota, plan, next);
    } else if Empties(view) == [] {
      DrainEffect(view, primaries, quota, plan, next);
      OwnersAndEmpties(next, primaries, quota);
    } else {
      DemotePass(view, next, primaries, quota);
      OwnersAndEmpties(next, primaries, quota);
    }
  }

  lemma CycleProgress(view: seq<Entry>, next: seq<Entry>, primaries: nat, quota: nat)
    requires Sane(view, primaries, quota) && Cycle(view, next, primaries, quota)
    ensures Sane(next, primaries, quota) && (Curable(next, primaries, quota) <==> Curable(view, primaries, quota))
    ensures Curable(view, primaries, quota) ==>
              PassesLeft(next, primaries, quota) == 0 ||
              PassesLeft(next, primaries, quota) < PassesLeft(view, primaries, quota)
  {
    if !SpreadOK(view, primaries, quota) {
      PassProgress(view, next, primaries, quota);
    }
  }

  /** What matters about a view in a run. */
  datatype Status = Status(sane: bool, curable: bool, left: nat)

  ghost predicate Nears(a: Status, b: Status) {
    a.sane ==> b.sane && b.curable == a.curable && (a.curable ==> b.left == 0 || b.left < a.left)
  }

  ghost predicate NearsAt(states: seq<Status>, j: nat)
    requires j + 1 < |states|
  {
    Nears(states[j], states[j + 1])
  }

  lemma {:induction false} Countdown(states: seq<Status>, i: nat)
    requires i < |states| && states[0].sane && forall j | 0 <= j < |states| - 1 :: NearsAt(states, j)
    ensures states[i].sane && states[i].curable == states[0].curable
    ensures states[0].curable ==> states[i].left == 0 || states[i].left + i <= states[0].left
  {
    if i > 0 {
      Countdown(states, i - 1);
      assert NearsAt(states, i - 1);
    }
  }

  ghost function StatusOf(view: seq<Entry>, primaries: nat, quota: nat): Status {
    Status(Sane(view, primaries, quota), Curable(view, primaries, quota), PassesLeft(view, primaries, quota))
  }

  ghost function Statuses(run: seq<seq<Entry>>, primaries: nat, quota: nat): seq<Status> {
    seq(|run|, j requires 0 <= j < |run| => StatusOf(run[j], primaries, quota))
  }

  lemma CycleNears(view: seq<Entry>, next: seq<Entry>, primaries: nat, quota: nat)
    requires Cycle(view, next, primaries, quota)
    ensures Nears(StatusOf(view, primaries, quota), StatusOf(next, primaries, quota))
  {
    if Sane(view, primaries, quota) {
      CycleProgress(view, next, primaries, quota);
    }
  }

  lemma RunNears(run: seq<seq<Entry>>, primaries: nat, quota: nat, j: nat)
    requires j + 1 < |run| && CycleAt(run, primaries, quota, j)
    ensures NearsAt(Statuses(run, primaries, quota), j)
  {
    CycleNears(run[j], run[j + 1], primaries, quota);
  }

  lemma RunProgress(run: seq<seq<Entry>>, primaries: nat, quota: nat, i: nat)
    requires Run(run, primaries, quota) && i < |run| && Statuses(run, primaries, quota)[0].sane
    ensures var states := Statuses(run, primaries, quota);
            states[i].sane && states[i].curable == states[0].curable &&
            (states[0].curable ==> states[i].left == 0 || states[i].left + i <= states[0].left)
  {
    var states := Statuses(run, primaries, quota);
    forall j | 0 <= j < |run| - 1 ensures NearsAt(states, j) {
      assert CycleAt(run, primaries, quota, j);
      RunNears(run, primaries, quota, j);
    }
    Countdown(states, i);
  }

  /** Four complete passes make the topology right if it is curable; otherwise it is never right. */
  lemma RepairConverges(run: seq<seq<Entry>>, primaries: nat, quota: nat, i: nat)
    requires Run(run, primaries, quota) && Sane(run[0], primaries, quota) && i < |run|
    ensures 4 <= i && Curable(run[0], primaries, quota) ==> SpreadOK(run[i], primaries, quota)
    ensures !Curable(run[0], primaries, quota) ==> !SpreadOK(run[i], primaries, quota)
  {
    RunProgress(run, primaries, quota, i);
    if SpreadOK(run[i], primaries, quota) {
      SpreadHasPrimaries(run[i], primaries, quota);
    }
  }

  /** Nothing, or one pass of which any part took effect. */
  ghost predicate PartialCycle(view: seq<Entry>, next: seq<Entry>, primaries: nat, quota: nat) {
    next == view || Pass(view, next, primaries, quota)
  }

  lemma PartialCycleConserves(view: seq<Entry>, next: seq<Entry>, primaries: nat, quota: nat, s: int)
    requires PartialCycle(view, next, primaries, quota)
    ensures Sum(OwnsSlot(s), next) == Sum(OwnsSlot(s), view)
  {
    if next != view {
      PassConservesSlots(view, next, primaries, quota, s);
    }
  }

  ghost predicate PartialAt(run: seq<seq<Entry>>, primaries: nat, quota: nat, j: nat)
    requires j + 1 < |run|
  {
    PartialCycle(run[j], run[j + 1], primaries, quota)
  }

  /** Along a run of passes, complete or cut short anywhere, every slot keeps its number of owners. */
  lemma {:induction false} RunConservesSlots(run: seq<seq<Entry>>, primaries: nat, quota: nat, s: int, i: nat)
    requires i < |run| && forall j | 0 <= j < |run| - 1 :: PartialAt(run, primaries, quota, j)
    ensures Sum(OwnsSlot(s), run[i]) == Sum(OwnsSlot(s), run[0])
  {
    if i > 0 {
      RunConservesSlots(run, primaries, quota, s, i - 1);
      assert PartialAt(run, primaries, quota, i - 1);
      PartialCycleConserves(run[i - 1], run[i], primaries, quota, s);
    }
  }

  // ----- A view that no number of passes repairs -----

  const EVERY_SLOT := set s: int | 0 <= s < TOTAL_SLOTS

  /** All slots on one owner with its one replica, beside two empty primaries: nobody lacks a replica. */
  const STUCK := [
    Entry("a", "10.0.0.1", Role.Primary(EVERY_SLOT, false)), Entry("b", "10.0.0.2", Replica("a")),
    Entry("c", "10.0.0.3", Role.Primary({}, false)), Entry("d", "10.0.0.4", Role.Primary({}, false))]

  lemma SumOfFour(f: Entry -> int, view: seq<Entry>)
    requires |view| == 4
    ensures Sum(f, view) == f(view[0]) + f(view[1]) + f(view[2]) + f(view[3])
  {
    var v1 := view[1..];
    var v2 := v1[1..];
    var v3 := v2[1..];
    assert v1[0] == view[1] && v2[0] == view[2] && v3[0] == view[3] && v3[1..] == [];
    assert Sum(f, v3) == f(v3[0]);
    assert Sum(f, v2) == f(v2[0]) + Sum(f, v3);
    assert Sum(f, v1) == f(v1[0]) + Sum(f, v2);
  }

  lemma StuckIsSane()
    ensures Sane(STUCK, 2, 1)
  {
    forall id ensures Sum(HasId(id), STUCK) <= 1 {
      SumOfFour(HasId(id), STUCK);
    }
  }

  /** The two desired primaries with one replica each are never reached from here. */
  lemma StuckForever(run: seq<seq<Entry>>, i: nat)
    requires Run(run, 2, 1) && run[0] == STUCK && i < |run|
    ensures !SpreadOK(run[i], 2, 1)
  {
    StuckIsSane();
    assert 0 in EVERY_SLOT;
    SumOfFour(PrimaryOne, STUCK);
    SumOfFour(OwnerOne, STUCK);
    SumOfFour(Follows("a"), STUCK);
    SumOfFour(OwnerGap(STUCK, 1), STUCK);
    RepairConverges(run, 2, 1, i);
  }
}
