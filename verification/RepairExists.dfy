/**
 That repair can be carried out: from which views a complete pass exists, and that a run of complete passes can
 reach the desired topology.
 */
module RepairExists {
  import opened Lists
  import opened RepairProgress
  import opened RepairRuns
  import opened ReplicaTopology
  import opened TopologyConvergence
  import opened TopologyCounting

  // ----- Views from their entries -----

  lemma SeqOf(entries: multiset<Entry>) returns (view: seq<Entry>)
    ensures multiset(view) == entries
    decreases |entries|
  {
    if entries == multiset{} {
      view := [];
    } else {
      var e :| e in entries;
      var rest := SeqOf(entries - multiset{e});
      view := rest + [e];
    }
  }

  lemma SwapExists(view: seq<Entry>, before: seq<Entry>, after: seq<Entry>) returns (next: seq<Entry>)
    requires multiset(before) <= multiset(view)
    ensures Swaps(view, before, after, next)
  {
    next := SeqOf(multiset(view) - multiset(before) + multiset(after));
  }

  lemma {:induction false} FilterWithin(keep: Entry -> bool, view: seq<Entry>)
    ensures multiset(Filter(keep, view)) <= multiset(view)
  {
    if view != [] {
      FilterWithin(keep, view[..|view| - 1]);
      assert view == view[..|view| - 1] + [view[|view| - 1]];
    }
  }

  lemma PrefixWithin(view: seq<Entry>, k: nat)
    requires k <= |view|
    ensures multiset(view[..k]) <= multiset(view)
  {
    assert view == view[..k] + view[k..];
  }

  lemma {:induction false} ExtrasWithin(replicas: seq<Entry>, ids: set<string>, quota: int)
    ensures multiset(Extras(replicas, ids, quota)) <= multiset(replicas)
  {
    if replicas != [] {
      ExtrasWithin(replicas[1..], ids, quota);
      assert replicas == [replicas[0]] + replicas[1..];
    }
  }

  lemma AvailableWithin(replicas: seq<Entry>, ids: set<string>, quota: int)
    ensures multiset(Strays(replicas, ids) + Extras(replicas, ids, quota)) <= multiset(replicas)
  {
    var strays, extras := Strays(replicas, ids), Extras(replicas, ids, quota);
    FilterWithin(StrayFrom(ids), replicas);
    ExtrasWithin(replicas, ids, quota);
    forall e ensures multiset(strays)[e] + multiset(extras)[e] <= multiset(replicas)[e] {
      StraysMember(replicas, ids, e);
      ExtrasMember(replicas, ids, quota, e);
    }
  }

  // ----- Plans -----

  lemma OccursRepeated(id: string, n: nat, p: string)
    ensures Occurs(seq(n, _ => id), p) == if p == id then n else 0
  {
    var names := seq(n, _ => id);
    if p == id {
      SumOnes(Is(p), names);
    } else {
      SumZero(Is(p), names);
    }
  }

  lemma NeedsGrow(needs: seq<string>, ids: set<string>, id: string, replicas: seq<Entry>, quota: int, lacking: nat)
    requires id in ids && FillsDeficits(needs, ids - {id}, replicas, quota)
    requires lacking == if quota > Followers(replicas, id) then quota - Followers(replicas, id) else 0
    ensures FillsDeficits(needs + seq(lacking, _ => id), ids, replicas, quota)
  {
    var more := seq(lacking, _ => id);
    forall p
      ensures Occurs(needs + more, p) ==
              if p in ids && quota > Followers(replicas, p) then quota - Followers(replicas, p) else 0
    {
      SumAppend(Is(p), needs, more);
      OccursRepeated(id, lacking, p);
      assert Occurs(needs, p) ==
             if p in ids - {id} && quota > Followers(replicas, p) then quota - Followers(replicas, p) else 0;
    }
  }

  lemma NeedsExist(ids: set<string>, replicas: seq<Entry>, quota: int) returns (needs: seq<string>)
    ensures FillsDeficits(needs, ids, replicas, quota)
    decreases |ids|
  {
    if ids == {} {
      needs := [];
    } else {
      var id :| id in ids;
      var rest := NeedsExist(ids - {id}, replicas, quota);
      var lacking := if quota > Followers(replicas, id) then quota - Followers(replicas, id) else 0;
      needs := rest + seq(lacking, _ => id);
      NeedsGrow(rest, ids, id, replicas, quota, lacking);
    }
  }

  function Paired(nodes: seq<Entry>, targets: seq<string>, k: nat): (moves: seq<Move>)
    requires k <= |nodes| && k <= |targets|
    ensures Pairs(moves, nodes, targets, k)
  {
    seq(k, i requires 0 <= i < k => Move(nodes[i], targets[i]))
  }

  lemma MovesExist(view: seq<Entry>, nodes: seq<Entry>, moves: seq<Move>, targets: seq<string>, k: nat)
    returns (next: seq<Entry>)
    requires multiset(nodes) <= multiset(view) && Pairs(moves, nodes, targets, k)
    ensures Swaps(view, Map(NodeOf, moves), Map(MovedNode, moves), next)
  {
    assert Map(NodeOf, moves) == nodes[..k];
    PrefixWithin(nodes, k);
    next := SwapExists(view, Map(NodeOf, moves), Map(MovedNode, moves));
  }

  lemma ReassignExists(view: seq<Entry>, quota: nat) returns (plan: Plan, next: seq<Entry>)
    ensures ReassignPlan(view, quota, plan) && Effect(view, plan, Commands(plan), next)
  {
    var ids, replicas := AddressedPrimaryIds(view), Replicas(view);
    var available := Strays(replicas, ids) + Extras(replicas, ids, quota);
    var needs := NeedsExist(ids, replicas, quota);
    var k := Least(|available|, |needs|);
    var moves := Paired(available, needs, k);
    AvailableWithin(replicas, ids, quota);
    FilterWithin(IsAddressedReplica, view);
    next := MovesExist(view, available, moves, needs, k);
    plan := Reassign(moves);
    assert moves[..|moves|] == moves;
  }

  lemma DemoteExists(view: seq<Entry>, primaries: nat, quota: nat) returns (plan: Plan, next: seq<Entry>)
    requires |AddressedPrimaryIds(view)| >= primaries
    ensures DemotePlan(view, primaries, quota, plan) && Effect(view, plan, Commands(plan), next)
  {
    var empties := Filter(IsEmptyPrimary, view);
    var needs := NeedsExist(AddressedPrimaryIds(view) - Ids(empties), Replicas(view), quota);
    var k := Least(Least(|AddressedPrimaryIds(view)| - primaries, |empties|), |needs|);
    var moves := Paired(empties, needs, k);
    FilterWithin(IsEmptyPrimary, view);
    next := MovesExist(view, empties, moves, needs, k);
    plan := Demote(moves);
    assert moves[..|moves|] == moves;
  }

  lemma PromoteExists(view: seq<Entry>, primaries: nat, quota: nat) returns (plan: Plan, next: seq<Entry>)
    requires |AddressedPrimaryIds(view)| <= primaries
    ensures PromotePlan(view, primaries, quota, plan) && Effect(view, plan, Commands(plan), next)
  {
    var replicas := Replicas(view);
    var surplus := |replicas| - primaries * quota;
    if surplus <= 0 {
      plan, next := Skip, view;
    } else {
      SurplusBound(|replicas|, primaries, quota);
      var k := Least(primaries - |AddressedPrimaryIds(view)|, surplus);
      FilterWithin(IsAddressedReplica, view);
      PrefixWithin(replicas, k);
      next := SwapExists(view, replicas[..k], Map(Promoted, replicas[..k]));
      plan := Promote(replicas[..k]);
      assert replicas[..k][..k] == replicas[..k];
    }
  }

  lemma SurplusBound(n: nat, primaries: nat, quota: nat)
    ensures n - primaries * quota <= n
  {
    assert primaries * quota >= 0;
  }

  // ----- A complete drain -----

  function SlotsOf(e: Entry): set<int> {
    if e.role.Primary? then e.role.slots else {}
  }

  function AllSlots(before: seq<Entry>): set<int> {
    set e <- before, s <- SlotsOf(e) :: s
  }

  /** A node that is not drained and owns the slot. */
  function KeepsOne(drained: seq<Entry>, s: int): Entry -> int {
    (e: Entry) => if e !in drained && s in SlotsOf(e) then 1 else 0
  }

  /** A node that is not drained and does not own the slot. */
  function SpareOne(drained: seq<Entry>, s: int): Entry -> int {
    (e: Entry) => if e !in drained && s !in SlotsOf(e) then 1 else 0
  }

  /** A drained node that owns the slot. */
  function LosesOne(drained: seq<Entry>, s: int): Entry -> int {
    (e: Entry) => if e in drained && s in SlotsOf(e) then 1 else 0
  }

  function StaysOne(drained: seq<Entry>): Entry -> int {
    (e: Entry) => if e !in drained then 1 else 0
  }

  /** The first nodes with room for the slot get it, one for each owner that loses it. */
  predicate Gets(before: seq<Entry>, drained: seq<Entry>, s: int, j: nat)
    requires j < |before|
  {
    SpareOne(drained, s)(before[j]) == 1 &&
    Sum(SpareOne(drained, s), before[..j]) < Sum(LosesOne(drained, s), before)
  }

  function DrainedAt(before: seq<Entry>, drained: seq<Entry>, j: nat): Entry
    requires j < |before|
  {
    var e := before[j];
    if e in drained || !e.role.Primary? then e.(role := Role.Primary({}, false))
    else e.(role := Role.Primary(e.role.slots + (set s | s in AllSlots(before) && Gets(before, drained, s, j)), e.role.moving))
  }

  function DrainedAll(before: seq<Entry>, drained: seq<Entry>): (after: seq<Entry>)
    ensures |after| == |before| && forall j | 0 <= j < |before| :: after[j] == DrainedAt(before, drained, j)
  {
    seq(|before|, j requires 0 <= j < |before| => DrainedAt(before, drained, j))
  }

  lemma LosersOwn(before: seq<Entry>, drained: seq<Entry>, s: int)
    ensures Sum(LosesOne(drained, s), before) > 0 ==> s in AllSlots(before)
  {
    if Sum(LosesOne(drained, s), before) > 0 {
      SumPositive(LosesOne(drained, s), before);
    }
  }

  lemma DrainedOwns(before: seq<Entry>, drained: seq<Entry>, s: int, j: nat)
    requires j < |before| && before[j].role.Primary?
    ensures OwnsSlot(s)(DrainedAt(before, drained, j)) ==
            KeepsOne(drained, s)(before[j]) + if Gets(before, drained, s, j) then 1 else 0
  {
    LosersOwn(before, drained, s);
    SumNonNegative(SpareOne(drained, s), before[..j]);
  }

  lemma {:induction false} DrainedPrefix(before: seq<Entry>, drained: seq<Entry>, s: int, j: nat)
    requires j <= |before| && forall i | 0 <= i < |before| :: before[i].role.Primary?
    ensures Sum(OwnsSlot(s), DrainedAll(before, drained)[..j]) ==
            Sum(KeepsOne(drained, s), before[..j]) +
            Least(Sum(SpareOne(drained, s), before[..j]), Sum(LosesOne(drained, s), before))
  {
    var after := DrainedAll(before, drained);
    if j == 0 {
      assert after[..0] == [] && before[..0] == [];
      SumNonNegative(LosesOne(drained, s), before);
    } else {
      DrainedPrefix(before, drained, s, j - 1);
      DrainedOwns(before, drained, s, j - 1);
      assert after[..j] == after[..j - 1] + [after[j - 1]];
      assert before[..j] == before[..j - 1] + [before[j - 1]];
      SumSnoc(OwnsSlot(s), after[..j - 1], after[j - 1]);
      SumSnoc(KeepsOne(drained, s), before[..j - 1], before[j - 1]);
      SumSnoc(SpareOne(drained, s), before[..j - 1], before[j - 1]);
    }
  }

  lemma DrainedConserves(before: seq<Entry>, drained: seq<Entry>, s: int)
    requires forall i | 0 <= i < |before| :: before[i].role.Primary?
    requires Sum(OwnsSlot(s), before) <= Sum(StaysOne(drained), before)
    ensures Sum(OwnsSlot(s), DrainedAll(before, drained)) == Sum(OwnsSlot(s), before)
  {
    DrainedPrefix(before, drained, s, |before|);
    assert before[..|before|] == before;
    assert DrainedAll(before, drained)[..|before|] == DrainedAll(before, drained);
    SumCombine(KeepsOne(drained, s), SpareOne(drained, s), StaysOne(drained), before);
    SumCombine(KeepsOne(drained, s), LosesOne(drained, s), OwnsSlot(s), before);
  }

  lemma DrainedIsDrain(before: seq<Entry>, drained: seq<Entry>)
    requires forall i | 0 <= i < |before| :: OwnerOne(before[i]) == 1
    requires forall s: int {:trigger OwnsSlot(s)} :: Sum(OwnsSlot(s), before) <= Sum(StaysOne(drained), before)
    ensures Drains(before, drained, DrainedAll(before, drained))
  {
    var after := DrainedAll(before, drained);
    forall i | 0 <= i < |before| ensures Rebalanced(before[i], before[i] in drained, after[i]) {
      assert after[i] == DrainedAt(before, drained, i);
    }
    forall s: int ensures Sum(OwnsSlot(s), after) == Sum(OwnsSlot(s), before) {
      DrainedConserves(before, drained, s);
    }
  }

  /** No slot has more owners than there shall be primaries. */
  ghost predicate Fits(view: seq<Entry>, primaries: nat) {
    forall s: int {:trigger OwnsSlot(s)} :: Sum(OwnsSlot(s), view) <= primaries
  }

  lemma AllOwners(view: seq<Entry>, primaries: nat, quota: nat)
    requires Sane(view, primaries, quota) && Empties(view) == []
    ensures forall i | 0 <= i < |Filter(IsPrimaryEntry, view)| :: OwnerOne(Filter(IsPrimaryEntry, view)[i]) == 1
  {
    var before := Filter(IsPrimaryEntry, view);
    forall i | 0 <= i < |before| ensures OwnerOne(before[i]) == 1 {
      FilterMember(IsPrimaryEntry, view, before[i]);
      assert Settled(before[i]);
      FilterMember(IsEmptyPrimary, view, before[i]);
    }
  }

  lemma StayersCounted(view: seq<Entry>, primaries: nat, quota: nat, drained: seq<Entry>)
    requires Sane(view, primaries, quota) && Empties(view) == []
    ensures Sum(StaysOne(drained), Filter(IsPrimaryEntry, view)) == Sum(KeptOwner(drained), view)
  {
    AllOwners(view, primaries, quota);
    SumFilter(KeptOwner(drained), IsPrimaryEntry, view);
    SumSame(StaysOne(drained), KeptOwner(drained), Filter(IsPrimaryEntry, view));
  }

  lemma DrainFits(view: seq<Entry>, primaries: nat, quota: nat, sorted: seq<Entry>, n: nat)
    requires Sane(view, primaries, quota) && Empties(view) == [] && Fits(view, primaries)
    requires multiset(sorted) == multiset(Filter(IsOwner, view)) && n <= |sorted| == |Filter(IsOwner, view)|
    requires Owners(view) - n == primaries
    ensures var before := Filter(IsPrimaryEntry, view);
            Drains(before, sorted[..n], DrainedAll(before, sorted[..n]))
  {
    var before := Filter(IsPrimaryEntry, view);
    AllOwners(view, primaries, quota);
    StayersCounted(view, primaries, quota, sorted[..n]);
    KeptOwners(view, primaries, quota, sorted, n);
    forall s: int ensures Sum(OwnsSlot(s), before) <= Sum(StaysOne(sorted[..n]), before) {
      SumFilter(OwnsSlot(s), IsPrimaryEntry, view);
    }
    DrainedIsDrain(before, sorted[..n]);
  }

  lemma SmallerIsOrder()
    ensures IsOrder(Smaller)
  {}

  lemma DrainPlanExists(view: seq<Entry>, primaries: nat, quota: nat) returns (plan: Plan, sorted: seq<Entry>)
    requires Sane(view, primaries, quota) && Primaries(view) > primaries && Empties(view) == []
    ensures multiset(sorted) == multiset(Filter(IsOwner, view))
    ensures Primaries(view) - primaries <= |sorted| == |Filter(IsOwner, view)| == Owners(view) == Primaries(view)
    ensures DrainPlan(view, primaries, plan) && plan.Drain? && plan.nodes == sorted[..Primaries(view) - primaries]
  {
    var n := Primaries(view) - primaries;
    DrainNumber(view, primaries, quota);
    OwnersAndEmpties(view, primaries, quota);
    SmallerIsOrder();
    SortSorts(Smaller, Filter(IsOwner, view));
    sorted := Sort(Smaller, Filter(IsOwner, view));
    KeepersLeft(AddressedPrimaryIds(view), sorted[..n]);
    var seed :| seed in AddressedPrimaryIds(view) - Ids(sorted[..n]);
    plan := Drain(sorted[..n], seed);
    assert DrainsFirst(view, sorted, n, plan);
  }

  lemma DrainPlanFits(view: seq<Entry>, primaries: nat, quota: nat) returns (plan: Plan)
    requires Sane(view, primaries, quota) && Primaries(view) > primaries && Empties(view) == []
    requires Fits(view, primaries)
    ensures DrainPlan(view, primaries, plan) && plan.Drain?
    ensures var before := Filter(IsPrimaryEntry, view); Drains(before, plan.nodes, DrainedAll(before, plan.nodes))
  {
    var sorted;
    plan, sorted := DrainPlanExists(view, primaries, quota);
    DrainFits(view, primaries, quota, sorted, Primaries(view) - primaries);
  }

  lemma DrainExists(view: seq<Entry>, primaries: nat, quota: nat) returns (plan: Plan, next: seq<Entry>)
    requires Sane(view, primaries, quota) && Primaries(view) > primaries && Empties(view) == []
    requires Fits(view, primaries)
    ensures DrainPlan(view, primaries, plan) && Effect(view, plan, Commands(plan), next)
  {
    plan := DrainPlanFits(view, primaries, quota);
    next := DrainNext(view, DrainedAll(Filter(IsPrimaryEntry, view), plan.nodes));
    DrainTakesEffect(view, plan, DrainedAll(Filter(IsPrimaryEntry, view), plan.nodes), next);
  }

  lemma DrainNext(view: seq<Entry>, after: seq<Entry>) returns (next: seq<Entry>)
    ensures Swaps(view, Filter(IsPrimaryEntry, view), after, next)
  {
    FilterWithin(IsPrimaryEntry, view);
    next := SwapExists(view, Filter(IsPrimaryEntry, view), after);
  }

  lemma DrainTakesEffect(view: seq<Entry>, plan: Plan, after: seq<Entry>, next: seq<Entry>)
    requires plan.Drain? && Drains(Filter(IsPrimaryEntry, view), plan.nodes, after)
    requires Swaps(view, Filter(IsPrimaryEntry, view), after, next)
    ensures Effect(view, plan, Commands(plan), next)
  {}

  /** A drain is next: too many primaries, all of which own slots. */
  ghost predicate MustDrain(view: seq<Entry>, primaries: nat) {
    Primaries(view) > primaries && Empties(view) == []
  }

  lemma CompletePass(view: seq<Entry>, primaries: nat, quota: nat) returns (next: seq<Entry>)
    requires Sane(view, primaries, quota) && (MustDrain(view, primaries) ==> Fits(view, primaries))
    ensures FullPass(view, next, primaries, quota)
  {
    var plan;
    SaneCounts(view, primaries, quota);
    if Primaries(view) == primaries {
      plan, next := ReassignExists(view, quota);
    } else if Primaries(view) < primaries {
      plan, next := PromoteExists(view, primaries, quota);
    } else if Empties(view) == [] {
      plan, next := DrainExists(view, primaries, quota);
    } else {
      plan, next := DemoteExists(view, primaries, quota);
    }
    assert IsPlan(view, primaries, quota, plan);
  }

  lemma DrainedFits(view: seq<Entry>, next: seq<Entry>, primaries: nat, quota: nat)
    requires Sane(view, primaries, quota) && MustDrain(view, primaries) && FullPass(view, next, primaries, quota)
    ensures Fits(view, primaries)
  {
    var plan := FullPassPlan(view, next, primaries, quota);
    DrainEffect(view, primaries, quota, plan, next);
    FullIsPass(view, next, primaries, quota);
    forall s: int ensures Sum(OwnsSlot(s), view) <= primaries {
      PassConservesSlots(view, next, primaries, quota, s);
      SumAtMost(OwnsSlot(s), OwnerOne, next);
    }
  }

  /** A complete pass exists from every sane view, except for a drain of slots that have too many owners. */
  lemma CompletePassExactly(view: seq<Entry>, primaries: nat, quota: nat)
    requires Sane(view, primaries, quota)
    ensures (exists next: seq<Entry> :: FullPass(view, next, primaries, quota)) <==>
            (MustDrain(view, primaries) ==> Fits(view, primaries))
  {
    if MustDrain(view, primaries) ==> Fits(view, primaries) {
      var next := CompletePass(view, primaries, quota);
    }
    if next: seq<Entry> :| FullPass(view, next, primaries, quota) {
      if MustDrain(view, primaries) {
        DrainedFits(view, next, primaries, quota);
      }
    }
  }

  // ----- The desired topology can be reached -----

  lemma FitsNext(view: seq<Entry>, next: seq<Entry>, primaries: nat, quota: nat)
    requires Fits(view, primaries) && FullPass(view, next, primaries, quota)
    ensures Fits(next, primaries)
  {
    FullIsPass(view, next, primaries, quota);
    forall s: int ensures Sum(OwnsSlot(s), next) <= primaries {
      PassConservesSlots(view, next, primaries, quota, s);
    }
  }

  lemma PrependAt(view: seq<Entry>, rest: seq<seq<Entry>>, primaries: nat, quota: nat, i: nat)
    requires i < |rest|
    requires if i == 0 then Cycle(view, rest[0], primaries, quota) else CycleAt(rest, primaries, quota, i - 1)
    ensures CycleAt([view] + rest, primaries, quota, i)
  {
    var run := [view] + rest;
    assert run[i + 1] == rest[i] && run[i] == if i == 0 then view else rest[i - 1];
  }

  lemma RunPrepend(view: seq<Entry>, rest: seq<seq<Entry>>, primaries: nat, quota: nat)
    requires Run(rest, primaries, quota) && Cycle(view, rest[0], primaries, quota)
    ensures Run([view] + rest, primaries, quota)
  {
    forall i | 0 <= i < |rest| ensures CycleAt([view] + rest, primaries, quota, i) {
      if i > 0 {
        assert CycleAt(rest, primaries, quota, i - 1);
      }
      PrependAt(view, rest, primaries, quota, i);
    }
  }

  /** From every curable view whose slots have no more owners than wanted, complete passes lead to the right spread. */
  lemma {:induction false} RepairCanComplete(view: seq<Entry>, primaries: nat, quota: nat) returns (run: seq<seq<Entry>>)
    requires Sane(view, primaries, quota) && Curable(view, primaries, quota) && Fits(view, primaries)
    ensures Run(run, primaries, quota) && run[0] == view && |run| <= 5
    ensures SpreadOK(run[|run| - 1], primaries, quota)
    ensures |run| <= PassesLeft(view, primaries, quota) + 1
    decreases PassesLeft(view, primaries, quota)
  {
    if SpreadOK(view, primaries, quota) {
      run := [view];
    } else {
      var next := CompletePass(view, primaries, quota);
      PassProgress(view, next, primaries, quota);
      FitsNext(view, next, primaries, quota);
      var rest := RepairCanComplete(next, primaries, quota);
      run := [view] + rest;
      RunPrepend(view, rest, primaries, quota);
    }
  }
}
