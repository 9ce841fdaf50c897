/**
 Repair passes that are cut short: what they keep, and how many complete passes a run still needs whatever happens
 in between.
 */
module RepairProgress {
  import opened Lists
  import opened RepairRuns
  import opened ReplicaTopology
  import opened TopologyConvergence
  import opened TopologyCounting

  // ----- One pass, cut short anywhere -----

  lemma PassPlan(view: seq<Entry>, next: seq<Entry>, primaries: nat, quota: nat) returns (plan: Plan, k: nat)
    requires Sane(view, primaries, quota) && Pass(view, next, primaries, quota)
    ensures Effect(view, plan, k, next)
    ensures Primaries(view) > primaries && Empties(view) != [] ==> DemotePlan(view, primaries, quota, plan)
    ensures Primaries(view) > primaries && Empties(view) == [] ==> DrainPlan(view, primaries, plan)
    ensures Primaries(view) < primaries ==> PromotePlan(view, primaries, quota, plan)
    ensures Primaries(view) == primaries ==> ReassignPlan(view, quota, plan)
  {
    SaneCounts(view, primaries, quota);
    plan, k :| IsPlan(view, primaries, quota, plan) && Effect(view, plan, k, next);
  }

  /** Reassignments change no primary. */
  lemma ReassignCut(view: seq<Entry>, primaries: nat, quota: nat, plan: Plan, k: nat, next: seq<Entry>)
    requires Sane(view, primaries, quota) && Primaries(view) == primaries
    requires ReassignPlan(view, quota, plan) && Effect(view, plan, k, next)
    ensures Sane(next, primaries, quota) && Primaries(next) == primaries
  {
    var needs := ReassignMoves(view, primaries, quota, plan);
    var moves := plan.moves[..k];
    MovedSettled(moves);
    KeepsSane(view, Map(NodeOf, moves), Map(MovedNode, moves), next, primaries, quota);
    SamePrimaries(view, Map(NodeOf, moves), Map(MovedNode, moves), next);
  }

  /** The drained nodes and the primaries after a drain that was cut short. */
  lemma DrainCutAfter(view: seq<Entry>, plan: Plan, k: nat, next: seq<Entry>) returns (after: seq<Entry>)
    requires plan.Drain? && Effect(view, plan, k, next)
    ensures Redistributes(Filter(IsPrimaryEntry, view), plan.nodes, after)
    ensures Swaps(view, Filter(IsPrimaryEntry, view), after, next)
  {
    after :| Redistributes(Filter(IsPrimaryEntry, view), plan.nodes, after) &&
             Swaps(view, Filter(IsPrimaryEntry, view), after, next);
  }

  lemma {:induction false} KeptOwnersStay(before: seq<Entry>, after: seq<Entry>, drained: seq<Entry>)
    requires |before| == |after| && forall i | 0 <= i < |before| :: Rebalanced(before[i], before[i] in drained, after[i])
    ensures Sum(OwnerOne, after) >= Sum(KeptOwner(drained), before)
  {
    if before != [] {
      assert Rebalanced(before[0], before[0] in drained, after[0]);
      KeptOwnersStay(before[1..], after[1..], drained);
    }
  }

  lemma DrainCutOwners(view: seq<Entry>, drained: seq<Entry>, after: seq<Entry>, next: seq<Entry>)
    requires Redistributes(Filter(IsPrimaryEntry, view), drained, after)
    requires Swaps(view, Filter(IsPrimaryEntry, view), after, next)
    ensures Owners(next) >= Sum(KeptOwner(drained), view)
  {
    var before := Filter(IsPrimaryEntry, view);
    SwapsSum(OwnerOne, view, before, after, next);
    SumFilter(OwnerOne, IsPrimaryEntry, view);
    SumFilter(KeptOwner(drained), IsPrimaryEntry, view);
    KeptOwnersStay(before, after, drained);
  }

  lemma DrainPlanNodes(view: seq<Entry>, primaries: nat, quota: nat, plan: Plan) returns (sorted: seq<Entry>)
    requires Sane(view, primaries, quota) && Primaries(view) > primaries && Empties(view) == []
    requires DrainPlan(view, primaries, plan)
    ensures multiset(sorted) == multiset(Filter(IsOwner, view))
    ensures Primaries(view) - primaries <= |sorted| == |Filter(IsOwner, view)| == Primaries(view)
    ensures plan.Drain? && plan.nodes == sorted[..Primaries(view) - primaries]
  {
    var n := Primaries(view) - primaries;
    DrainNumber(view, primaries, quota);
    sorted :| DrainsFirst(view, sorted, n, plan);
    DrainNames(view, sorted, n, plan);
  }

  /** A drain, complete or not, leaves at least the desired number of slot owners, and all primaries. */
  lemma DrainCut(view: seq<Entry>, primaries: nat, quota: nat, plan: Plan, k: nat, next: seq<Entry>)
    requires Sane(view, primaries, quota) && Primaries(view) > primaries && Empties(view) == []
    requires DrainPlan(view, primaries, plan) && Effect(view, plan, k, next)
    ensures Sane(next, primaries, quota) && Primaries(next) == Primaries(view) == Owners(view)
    ensures primaries <= Owners(next) <= Primaries(next)
  {
    var n := Primaries(view) - primaries;
    var sorted := DrainPlanNodes(view, primaries, quota, plan);
    var after := DrainCutAfter(view, plan, k, next);
    DrainedSane(view, primaries, quota, sorted[..n], after, next);
    DrainCutOwners(view, sorted[..n], after, next);
    KeptOwners(view, primaries, quota, sorted, n);
    OwnersAndEmpties(view, primaries, quota);
    OwnersAndEmpties(next, primaries, quota);
  }

  /** How far a view is from the desired topology: primaries too many or too few, and slot owners too many. */
  ghost function Distance(view: seq<Entry>, primaries: nat, quota: nat): nat {
    if SpreadOK(view, primaries, quota) then 0
    else 1 + Apart(Primaries(view), primaries) + Excess(Owners(view), primaries)
  }

  function Apart(a: int, b: int): nat {
    if a < b then b - a else a - b
  }

  function Excess(a: int, b: int): nat {
    if a < b then 0 else a - b
  }

  lemma ExcessCutKeeps(view: seq<Entry>, next: seq<Entry>, primaries: nat, quota: nat, plan: Plan, k: nat)
    requires Sane(view, primaries, quota) && Primaries(view) > primaries && Effect(view, plan, k, next)
    requires if Empties(view) == [] then DrainPlan(view, primaries, plan) else DemotePlan(view, primaries, quota, plan)
    ensures Sane(next, primaries, quota) && (Curable(next, primaries, quota) <==> Curable(view, primaries, quota))
    ensures primaries <= Primaries(next) <= Primaries(view) && Owners(next) <= Owners(view)
  {
    if Empties(view) == [] {
      DrainCut(view, primaries, quota, plan, k, next);
    } else {
      DemoteCut(view, primaries, quota, plan, k, next);
    }
  }

  lemma DeficitCutKeeps(view: seq<Entry>, next: seq<Entry>, primaries: nat, quota: nat, plan: Plan, k: nat)
    requires Sane(view, primaries, quota) && Primaries(view) <= primaries && Effect(view, plan, k, next)
    requires if Primaries(view) < primaries then PromotePlan(view, primaries, quota, plan) else ReassignPlan(view, quota, plan)
    ensures Sane(next, primaries, quota)
    ensures Owners(next) <= Primaries(next) && Primaries(view) <= Primaries(next) <= primaries
  {
    if Primaries(view) == primaries {
      ReassignCut(view, primaries, quota, plan, k, next);
    } else {
      PromoteCut(view, primaries, quota, plan, k, next);
    }
    OwnersAndEmpties(next, primaries, quota);
  }

  lemma NoFurther(view: seq<Entry>, next: seq<Entry>, primaries: nat, quota: nat)
    requires !SpreadOK(view, primaries, quota)
    requires Apart(Primaries(next), primaries) <= Apart(Primaries(view), primaries)
    requires Excess(Owners(next), primaries) <= Excess(Owners(view), primaries)
    ensures Distance(next, primaries, quota) <= Distance(view, primaries, quota)
  {}

  /** A pass cut short anywhere keeps whether the view is curable, and takes it no further away. */
  lemma CutShortKeeps(view: seq<Entry>, next: seq<Entry>, primaries: nat, quota: nat)
    requires Sane(view, primaries, quota) && !SpreadOK(view, primaries, quota) && Pass(view, next, primaries, quota)
    ensures Sane(next, primaries, quota) && (Curable(next, primaries, quota) <==> Curable(view, primaries, quota))
    ensures Distance(next, primaries, quota) <= Distance(view, primaries, quota)
  {
    var plan, k := PassPlan(view, next, primaries, quota);
    if Primaries(view) <= primaries {
      DeficitCutKeeps(view, next, primaries, quota, plan, k);
    } else {
      ExcessCutKeeps(view, next, primaries, quota, plan, k);
    }
    NoFurther(view, next, primaries, quota);
  }

  lemma DemoteNearer(view: seq<Entry>, primaries: nat, quota: nat, plan: Plan, next: seq<Entry>)
    requires Sane(view, primaries, quota) && Primaries(view) > primaries && Empties(view) != []
    requires Curable(view, primaries, quota)
    requires DemotePlan(view, primaries, quota, plan) && Effect(view, plan, Commands(plan), next)
    ensures primaries <= Primaries(next) < Primaries(view) && Owners(next) == Owners(view)
  {
    DemoteEffect(view, primaries, quota, plan, next);
    if Owners(view) >= primaries {
      OwnersLackEnough(view, primaries, quota);
    }
  }

  /** A complete pass over a curable view brings it nearer. */
  lemma CompleteNearer(view: seq<Entry>, next: seq<Entry>, primaries: nat, quota: nat)
    requires Sane(view, primaries, quota) && !SpreadOK(view, primaries, quota)
    requires FullPass(view, next, primaries, quota) && Curable(view, primaries, quota)
    ensures Distance(next, primaries, quota) < Distance(view, primaries, quota)
  {
    var plan := FullPassPlan(view, next, primaries, quota);
    OwnersAndEmpties(view, primaries, quota);
    if Primaries(view) == primaries {
      ReassignReaches(view, primaries, quota, plan, next);
    } else if Primaries(view) < primaries {
      PromoteCut(view, primaries, quota, plan, Commands(plan), next);
    } else if Empties(view) == [] {
      DrainEffect(view, primaries, quota, plan, next);
    } else {
      DemoteNearer(view, primaries, quota, plan, next);
    }
  }

  lemma FullIsPass(view: seq<Entry>, next: seq<Entry>, primaries: nat, quota: nat)
    requires FullPass(view, next, primaries, quota)
    ensures Pass(view, next, primaries, quota)
  {
    var plan :| IsPlan(view, primaries, quota, plan) && Effect(view, plan, Commands(plan), next);
  }

  // ----- Runs of passes, complete or not -----

  /** One cycle: nothing once the spread is right, else a pass, complete or cut short anywhere. */
  ghost predicate MixedCycle(view: seq<Entry>, next: seq<Entry>, primaries: nat, quota: nat, complete: bool) {
    if SpreadOK(view, primaries, quota) then next == view
    else if complete then FullPass(view, next, primaries, quota)
    else Pass(view, next, primaries, quota)
  }

  ghost predicate MixedAt(run: seq<seq<Entry>>, complete: seq<bool>, primaries: nat, quota: nat, i: nat)
    requires i < |complete| && |run| == |complete| + 1
  {
    MixedCycle(run[i], run[i + 1], primaries, quota, complete[i])
  }

  /** A run and which of its passes are complete. */
  ghost predicate MixedRun(run: seq<seq<Entry>>, complete: seq<bool>, primaries: nat, quota: nat) {
    |run| == |complete| + 1 && forall i | 0 <= i < |complete| :: MixedAt(run, complete, primaries, quota, i)
  }

  function CompleteOne(complete: bool): int {
    if complete then 1 else 0
  }

  /** What matters about a view in a run. */
  datatype Place = Place(sane: bool, curable: bool, distance: nat)

  ghost function PlaceOf(view: seq<Entry>, primaries: nat, quota: nat): Place {
    Place(Sane(view, primaries, quota), Curable(view, primaries, quota), Distance(view, primaries, quota))
  }

  ghost predicate Advances(a: Place, b: Place, complete: bool) {
    a.sane ==>
      b.sane && b.curable == a.curable && b.distance <= a.distance &&
      (complete && a.curable && a.distance > 0 ==> b.distance < a.distance)
  }

  lemma MixedAdvances(view: seq<Entry>, next: seq<Entry>, primaries: nat, quota: nat, complete: bool)
    requires MixedCycle(view, next, primaries, quota, complete)
    ensures Advances(PlaceOf(view, primaries, quota), PlaceOf(next, primaries, quota), complete)
  {
    if Sane(view, primaries, quota) && !SpreadOK(view, primaries, quota) {
      if complete {
        FullIsPass(view, next, primaries, quota);
        if Curable(view, primaries, quota) {
          CompleteNearer(view, next, primaries, quota);
        }
      }
      CutShortKeeps(view, next, primaries, quota);
    }
  }

  ghost predicate AdvancesAt(places: seq<Place>, complete: seq<bool>, i: nat)
    requires i < |complete| && |places| == |complete| + 1
  {
    Advances(places[i], places[i + 1], complete[i])
  }

  lemma {:induction false} PlacesAdvance(places: seq<Place>, complete: seq<bool>, i: nat)
    requires |places| == |complete| + 1 && i <= |complete| && places[0].sane
    requires forall j | 0 <= j < |complete| :: AdvancesAt(places, complete, j)
    ensures places[i].sane && places[i].curable == places[0].curable
    ensures places[0].curable ==>
              places[i].distance == 0 || places[i].distance + Sum(CompleteOne, complete[..i]) <= places[0].distance
  {
    if i == 0 {
      assert complete[..0] == [];
    } else {
      PlacesAdvance(places, complete, i - 1);
      assert AdvancesAt(places, complete, i - 1);
      assert complete[..i] == complete[..i - 1] + [complete[i - 1]];
      SumSnoc(CompleteOne, complete[..i - 1], complete[i - 1]);
    }
  }

  ghost function Places(run: seq<seq<Entry>>, primaries: nat, quota: nat): (places: seq<Place>)
    ensures |places| == |run| && forall i | 0 <= i < |run| :: places[i] == PlaceOf(run[i], primaries, quota)
  {
    seq(|run|, i requires 0 <= i < |run| => PlaceOf(run[i], primaries, quota))
  }

  lemma RunAdvances(run: seq<seq<Entry>>, complete: seq<bool>, primaries: nat, quota: nat, i: nat)
    requires MixedRun(run, complete, primaries, quota) && i < |complete|
    ensures AdvancesAt(Places(run, primaries, quota), complete, i)
  {
    assert MixedAt(run, complete, primaries, quota, i);
    MixedAdvances(run[i], run[i + 1], primaries, quota, complete[i]);
  }

  lemma RightHasNoExcess(view: seq<Entry>, primaries: nat, quota: nat)
    requires Sane(view, primaries, quota) && SpreadOK(view, primaries, quota)
    ensures Curable(view, primaries, quota)
  {
    SpreadHasPrimaries(view, primaries, quota);
  }

  /**
   Among any number of passes cut short anywhere, as many complete ones as the first view is away make the topology
   right if it was curable; otherwise it is never right.
   */
  lemma MixedRunSettles(run: seq<seq<Entry>>, complete: seq<bool>, primaries: nat, quota: nat, i: nat)
    requires MixedRun(run, complete, primaries, quota) && i <= |complete| && Sane(run[0], primaries, quota)
    ensures Curable(run[0], primaries, quota) && Sum(CompleteOne, complete[..i]) >= Distance(run[0], primaries, quota) ==>
              SpreadOK(run[i], primaries, quota)
    ensures !Curable(run[0], primaries, quota) ==> !SpreadOK(run[i], primaries, quota)
  {
    var places := Places(run, primaries, quota);
    forall j | 0 <= j < |complete| ensures AdvancesAt(places, complete, j) {
      RunAdvances(run, complete, primaries, quota, j);
    }
    PlacesAdvance(places, complete, i);
    if SpreadOK(run[i], primaries, quota) {
      RightHasNoExcess(run[i], primaries, quota);
    }
  }
}
