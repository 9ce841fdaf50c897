/**
 The replica topology check and one pass of its repair, as decided from one view of the cluster:
 internal/health/checker.go and internal/reconciler/health_reconciler.go. A pass yields the list of
 commands to issue; TopologyConvergence says what a run of passes achieves.
 */
module ReplicaTopology {
  import opened Lists

  /** A node's role, with the slots a primary owns and whether one of them is in flight. */
  datatype Role = Primary(slots: set<int>, moving: bool) | Replica(of: string) | Unassigned

  datatype Entry = Entry(id: string, ip: string, role: Role)

  datatype Move = Move(node: Entry, target: string)

  /** What a pass does: CLUSTER REPLICATE moves, resets to empty primaries, a weight-0 rebalance, or nothing. */
  datatype Plan =
    | Reassign(moves: seq<Move>)
    | Demote(moves: seq<Move>)
    | Promote(nodes: seq<Entry>)
    | Drain(nodes: seq<Entry>, seed: string)
    | NoKeeper
    | Skip

  /** What the topology gate finds: nobody to ask, the right topology, or one repair pass that may reshape it. */
  datatype Gate = NoView | Passed | Repaired(plan: Plan, changed: bool)

  // ----- Counting -----

  function Follows(p: string): Entry -> int {
    (e: Entry) => if e.role == Replica(p) then 1 else 0
  }

  function Followers(view: seq<Entry>, p: string): int {
    Sum(Follows(p), view)
  }

  function Is(p: string): string -> int {
    (q: string) => if q == p then 1 else 0
  }

  function Occurs(names: seq<string>, p: string): int {
    Sum(Is(p), names)
  }

  predicate IsPrimaryEntry(e: Entry) {
    e.role.Primary?
  }

  predicate IsReplicaEntry(e: Entry) {
    e.role.Replica?
  }

  predicate IsAddressedPrimary(e: Entry) {
    e.ip != "" && e.role.Primary?
  }

  predicate IsAddressedReplica(e: Entry) {
    e.ip != "" && e.role.Replica?
  }

  /** A primary that owns no slot and has none in flight. */
  predicate IsEmptyPrimary(e: Entry) {
    e.ip != "" && e.role.Primary? && !e.role.moving && e.role.slots == {}
  }

  predicate IsOwner(e: Entry) {
    e.ip != "" && e.role.Primary? && (e.role.moving || e.role.slots != {})
  }

  function Ids(view: seq<Entry>): set<string> {
    set e <- view :: e.id
  }

  function PrimaryIds(view: seq<Entry>): set<string> {
    Ids(Filter(IsPrimaryEntry, view))
  }

  function AddressedPrimaryIds(view: seq<Entry>): set<string> {
    Ids(Filter(IsAddressedPrimary, view))
  }

  lemma IdsSnoc(view: seq<Entry>, e: Entry)
    ensures Ids(view + [e]) == Ids(view) + {e.id}
  {
    assert forall x :: x in view + [e] <==> x in view || x == e;
    assert e in view + [e];
  }

  // ----- The check -----

  /** As many primaries as desired, no stray replica, and every primary with its exact number of replicas. */
  ghost predicate SpreadOK(view: seq<Entry>, primaries: int, replicas: int) {
    if replicas == 0 then forall i | 0 <= i < |view| :: !view[i].role.Replica?
    else
      |PrimaryIds(view)| == primaries &&
      (forall i | 0 <= i < |view| && view[i].role.Replica? :: view[i].role.of in PrimaryIds(view)) &&
      forall id <- PrimaryIds(view) :: Followers(view, id) == replicas
  }

  function Count(counts: map<string, int>, p: string): int {
    if p in counts then counts[p] else 0
  }

  method ReplicaSpreadOK(view: seq<Entry>, primaries: int, replicasPerPrimary: int) returns (ok: bool)
    ensures ok <==> SpreadOK(view, primaries, replicasPerPrimary)
  {
    if replicasPerPrimary == 0 {
      for i := 0 to |view|
        invariant forall j | 0 <= j < i :: !view[j].role.Replica?
      {
        if view[i].role.Replica? {
          return false;
        }
      }
      return true;
    }
    var primaryIDs, replicas := Classify(view);
    if |primaryIDs| != primaries {
      return false;
    }
    var replicaCount: map<string, int> := map[];
    for i := 0 to |replicas|
      invariant forall j | 0 <= j < i :: replicas[j].role.of in primaryIDs
      invariant forall p :: Count(replicaCount, p) == Followers(replicas[..i], p)
    {
      var of := replicas[i].role.of;
      if of !in primaryIDs {
        assert replicas[i] in view;
        return false;
      }
      FollowersSnoc(replicas, i);
      replicaCount := replicaCount[of := Count(replicaCount, of) + 1];
    }
    assert replicas[..|replicas|] == replicas;
    FollowersOfReplicas(view);
    var rest := primaryIDs;
    while rest != {}
      invariant rest <= primaryIDs
      invariant forall id <- primaryIDs - rest :: Followers(view, id) == replicasPerPrimary
    {
      var id :| id in rest;
      if Count(replicaCount, id) != replicasPerPrimary {
        assert Followers(view, id) != replicasPerPrimary;
        return false;
      }
      rest := rest - {id};
    }
    forall i | 0 <= i < |view| && view[i].role.Replica? ensures view[i].role.of in primaryIDs {
      FilterMember(IsReplicaEntry, view, view[i]);
    }
    return true;
  }

  lemma FollowersSnoc(view: seq<Entry>, i: nat)
    requires i < |view|
    ensures forall p :: Followers(view[..i + 1], p) == Followers(view[..i], p) + Follows(p)(view[i])
  {
    assert view[..i + 1] == view[..i] + [view[i]];
    forall p ensures Followers(view[..i + 1], p) == Followers(view[..i], p) + Follows(p)(view[i]) {
      SumSnoc(Follows(p), view[..i], view[i]);
    }
  }

  lemma FollowersOfReplicas(view: seq<Entry>)
    ensures forall p :: Followers(Filter(IsReplicaEntry, view), p) == Followers(view, p)
  {
    forall p ensures Followers(Filter(IsReplicaEntry, view), p) == Followers(view, p) {
      SumFilter(Follows(p), IsReplicaEntry, view);
    }
  }

  method Classify(view: seq<Entry>) returns (primaryIDs: set<string>, replicas: seq<Entry>)
    ensures primaryIDs == PrimaryIds(view) && replicas == Filter(IsReplicaEntry, view)
    ensures forall i | 0 <= i < |replicas| :: replicas[i] in view && replicas[i].role.Replica?
  {
    primaryIDs, replicas := {}, [];
    for i := 0 to |view|
      invariant primaryIDs == PrimaryIds(view[..i]) && replicas == Filter(IsReplicaEntry, view[..i])
    {
      FilterSnoc(IsPrimaryEntry, view, i);
      FilterSnoc(IsReplicaEntry, view, i);
      if view[i].role.Primary? {
        IdsSnoc(Filter(IsPrimaryEntry, view[..i]), view[i]);
        primaryIDs := primaryIDs + {view[i].id};
      } else if view[i].role.Replica? {
        replicas := replicas + [view[i]];
      }
    }
    assert view[..|view|] == view;
    forall i | 0 <= i < |replicas| ensures replicas[i] in view && replicas[i].role.Replica? {
      FilterMember(IsReplicaEntry, view, replicas[i]);
    }
  }

  // ----- What a pass decides -----

  function Replicas(view: seq<Entry>): seq<Entry> {
    Filter(IsAddressedReplica, view)
  }

  function Least(a: int, b: int): int {
    if a < b then a else b
  }

  /** `needs` lists every id of `ids` once per missing replica, in any order. */
  ghost predicate FillsDeficits(needs: seq<string>, ids: set<string>, replicas: seq<Entry>, quota: int) {
    forall p :: Occurs(needs, p) ==
                if p in ids && quota > Followers(replicas, p) then quota - Followers(replicas, p) else 0
  }

  /** The first moves of `nodes`, pairwise, to the first `targets`. */
  ghost predicate Pairs(moves: seq<Move>, nodes: seq<Entry>, targets: seq<string>, k: int) {
    0 <= k <= |nodes| && k <= |targets| && |moves| == k &&
    forall i | 0 <= i < k :: moves[i] == Move(nodes[i], targets[i])
  }

  function Strays(replicas: seq<Entry>, ids: set<string>): seq<Entry> {
    Filter(StrayFrom(ids), replicas)
  }

  /** A replica of none of the given primaries. */
  function StrayFrom(ids: set<string>): Entry -> bool {
    (e: Entry) => e.role.Replica? && e.role.of !in ids
  }

  predicate IsExtra(replicas: seq<Entry>, ids: set<string>, quota: int)
    requires replicas != []
  {
    replicas[0].role.Replica? && replicas[0].role.of in ids && Followers(replicas, replicas[0].role.of) > quota
  }

  /** The replicas that their primary has beyond its quota: the earliest ones in view order. */
  function Extras(replicas: seq<Entry>, ids: set<string>, quota: int): seq<Entry> {
    if replicas == [] then []
    else (if IsExtra(replicas, ids, quota) then [replicas[0]] else []) + Extras(replicas[1..], ids, quota)
  }

  ghost predicate ReassignPlan(view: seq<Entry>, quota: int, plan: Plan) {
    var ids, replicas := AddressedPrimaryIds(view), Replicas(view);
    var available := Strays(replicas, ids) + Extras(replicas, ids, quota);
    plan.Reassign? &&
    exists needs :: FillsDeficits(needs, ids, replicas, quota) &&
                    Pairs(plan.moves, available, needs, Least(|available|, |needs|))
  }

  function SlotCount(e: Entry): int {
    if e.role.Primary? && !e.role.moving then |e.role.slots| else 0
  }

  ghost predicate BySlots(nodes: seq<Entry>) {
    forall i, j | 0 <= i < j < |nodes| :: SlotCount(nodes[i]) <= SlotCount(nodes[j])
  }

  ghost predicate DemotePlan(view: seq<Entry>, primaries: int, quota: int, plan: Plan) {
    var empties := Filter(IsEmptyPrimary, view);
    var excess := |AddressedPrimaryIds(view)| - primaries;
    plan.Demote? &&
    exists needs ::
      FillsDeficits(needs, AddressedPrimaryIds(view) - Ids(empties), Replicas(view), quota) &&
      Pairs(plan.moves, empties, needs, Least(Least(excess, |empties|), |needs|))
  }

  /** The plan drains the first `n` of the slot owners in ascending order of slots. */
  ghost predicate DrainsFirst(view: seq<Entry>, sorted: seq<Entry>, n: int, plan: Plan) {
    var owners := Filter(IsOwner, view);
    multiset(sorted) == multiset(owners) && BySlots(sorted) && 0 <= n <= |sorted| == |owners| &&
    var keepers := AddressedPrimaryIds(view) - Ids(sorted[..n]);
    if keepers == {} then plan.NoKeeper? else plan.Drain? && plan.nodes == sorted[..n] && plan.seed in keepers
  }

  ghost predicate DrainPlan(view: seq<Entry>, primaries: int, plan: Plan) {
    var owners := Filter(IsOwner, view);
    var excess := |AddressedPrimaryIds(view)| - primaries;
    var n := Least(excess, |owners| - 1);
    if n <= 0 then plan.Skip?
    else exists sorted: seq<Entry> :: DrainsFirst(view, sorted, n, plan)
  }

  ghost predicate PromotePlan(view: seq<Entry>, primaries: int, quota: int, plan: Plan) {
    var replicas := Replicas(view);
    var surplus := |replicas| - primaries * quota;
    if surplus <= 0 then plan.Skip?
    else
      var k := Least(primaries - |AddressedPrimaryIds(view)|, surplus);
      0 <= k <= |replicas| && plan == Promote(replicas[..k])
  }

  /** The plan that a pass over `view` may make. */
  ghost predicate IsPlan(view: seq<Entry>, primaries: nat, quota: nat, plan: Plan) {
    var actual := |AddressedPrimaryIds(view)|;
    if actual > primaries then
      if Filter(IsEmptyPrimary, view) != [] then DemotePlan(view, primaries, quota, plan)
      else DrainPlan(view, primaries, plan)
    else if actual < primaries then PromotePlan(view, primaries, quota, plan)
    else ReassignPlan(view, quota, plan)
  }

  /** Whether the plan changes who is a primary, so that later checks must wait for a fresh view. */
  predicate Reshapes(plan: Plan) {
    (plan.Demote? && plan.moves != []) || (plan.Promote? && plan.nodes != []) || plan.Drain?
  }

  // ----- The pass -----

  method ClassifyAddressed(view: seq<Entry>) returns (primaryIDs: set<string>, replicas: seq<Entry>)
    ensures primaryIDs == AddressedPrimaryIds(view) && replicas == Replicas(view)
    ensures forall i | 0 <= i < |replicas| :: replicas[i].role.Replica?
  {
    primaryIDs, replicas := {}, [];
    for i := 0 to |view|
      invariant primaryIDs == AddressedPrimaryIds(view[..i]) && replicas == Replicas(view[..i])
    {
      FilterSnoc(IsAddressedPrimary, view, i);
      FilterSnoc(IsAddressedReplica, view, i);
      if view[i].ip == "" {
        continue;
      }
      if view[i].role.Primary? {
        IdsSnoc(Filter(IsAddressedPrimary, view[..i]), view[i]);
        primaryIDs := primaryIDs + {view[i].id};
      } else if view[i].role.Replica? {
        replicas := replicas + [view[i]];
      }
    }
    assert view[..|view|] == view;
    forall i | 0 <= i < |replicas| ensures replicas[i].role.Replica? {
      FilterMember(IsAddressedReplica, view, replicas[i]);
    }
  }

  /** The followers of each primary in `ids`, and of nobody else. */
  ghost predicate CountsFollowers(counts: map<string, int>, replicas: seq<Entry>, ids: set<string>) {
    forall p :: Count(counts, p) == if p in ids then Followers(replicas, p) else 0
  }

  /** Counts the replicas of each primary in `ids`, setting aside the replicas of anyone else. */
  method CountReplicas(replicas: seq<Entry>, ids: set<string>)
    returns (counts: map<string, int>, strays: seq<Entry>)
    requires forall i | 0 <= i < |replicas| :: replicas[i].role.Replica?
    ensures CountsFollowers(counts, replicas, ids) && strays == Strays(replicas, ids)
  {
    counts, strays := map[], [];
    for i := 0 to |replicas|
      invariant forall p :: Count(counts, p) == if p in ids then Followers(replicas[..i], p) else 0
      invariant strays == Strays(replicas[..i], ids)
    {
      var of := replicas[i].role.of;
      FollowersSnoc(replicas, i);
      FilterSnoc(StrayFrom(ids), replicas, i);
      if of !in ids {
        strays := strays + [replicas[i]];
      } else {
        counts := counts[of := Count(counts, of) + 1];
      }
    }
    assert replicas[..|replicas|] == replicas;
  }

  /** One entry per replica that a primary in `ids` lacks; the order is the map's own. */
  method ListDeficits(ids: set<string>, counts: map<string, int>, quota: int) returns (needs: seq<string>)
    ensures forall p :: Occurs(needs, p) ==
                        if p in ids && quota > Count(counts, p) then quota - Count(counts, p) else 0
  {
    needs := [];
    var rest := ids;
    while rest != {}
      invariant rest <= ids
      invariant forall p :: Occurs(needs, p) ==
                            if p in ids - rest && quota > Count(counts, p) then quota - Count(counts, p) else 0
    {
      var id :| id in rest;
      var deficit := quota - Count(counts, id);
      ghost var before := needs;
      for k := 0 to if deficit > 0 then deficit else 0
        invariant forall p :: Occurs(needs, p) == Occurs(before, p) + if p == id then k else 0
      {
        forall p ensures Occurs(needs + [id], p) == Occurs(needs, p) + Is(p)(id) {
          SumSnoc(Is(p), needs, id);
        }
        needs := needs + [id];
      }
      rest := rest - {id};
    }
  }

  method PairUp(nodes: seq<Entry>, targets: seq<string>, k: int) returns (moves: seq<Move>)
    requires 0 <= k <= |nodes| && k <= |targets|
    ensures Pairs(moves, nodes, targets, k)
  {
    moves := [];
    for i := 0 to k
      invariant Pairs(moves, nodes, targets, i)
    {
      moves := moves + [Move(nodes[i], targets[i])];
    }
  }

  method RemediateReplicaSpread(view: seq<Entry>, primaries: nat, replicasPerPrimary: nat)
    returns (plan: Plan, changed: bool)
    ensures IsPlan(view, primaries, replicasPerPrimary, plan)
    ensures changed <==> Reshapes(plan)
  {
    var primaryIDs, replicas := ClassifyAddressed(view);
    if |primaryIDs| != primaries {
      if |primaryIDs| > primaries {
        plan := RemediateExcessPrimaries(view, primaryIDs, replicas, primaries, replicasPerPrimary);
      } else {
        plan := RemediatePrimaryDeficit(view, |primaryIDs|, replicas, primaries, replicasPerPrimary);
      }
      return plan, Reshapes(plan);
    }
    var replicaCount, orphaned := CountReplicas(replicas, primaryIDs);
    var overAssigned;
    replicaCount, overAssigned := TakeExtras(replicas, primaryIDs, replicaCount, replicasPerPrimary);
    var needsReplicas := ListDeficits(primaryIDs, replicaCount, replicasPerPrimary);
    assert FillsDeficits(needsReplicas, primaryIDs, replicas, replicasPerPrimary);
    var available := orphaned + overAssigned;
    var moves := PairUp(available, needsReplicas, Least(|available|, |needsReplicas|));
    return Reassign(moves), false;
  }

  /** Sets aside, for each primary, the replicas beyond its quota, and lowers its count to the quota. */
  method TakeExtras(replicas: seq<Entry>, ids: set<string>, counts0: map<string, int>, quota: nat)
    returns (counts: map<string, int>, extras: seq<Entry>)
    requires forall i | 0 <= i < |replicas| :: replicas[i].role.Replica?
    requires CountsFollowers(counts0, replicas, ids)
    ensures extras == Extras(replicas, ids, quota)
    ensures forall p | p in ids :: Count(counts, p) == Least(Followers(replicas, p), quota)
  {
    counts, extras := counts0, [];
    assert replicas[0..] == replicas;
    for i := 0 to |replicas|
      invariant forall p :: Followers(replicas[i..], p) <= Followers(replicas, p)
      invariant extras + Extras(replicas[i..], ids, quota) == Extras(replicas, ids, quota)
      invariant forall p | p in ids ::
                  Count(counts, p) == if Followers(replicas[i..], p) > Least(Followers(replicas, p), quota)
                                      then Followers(replicas[i..], p) else Least(Followers(replicas, p), quota)
    {
      var of, rest := replicas[i].role.of, replicas[i..];
      assert rest[1..] == replicas[i + 1..];
      assert forall p :: Followers(rest, p) == Follows(p)(replicas[i]) + Followers(replicas[i + 1..], p);
      if of in ids && Count(counts, of) > quota {
        assert IsExtra(rest, ids, quota);
        assert forall t :: extras + ([replicas[i]] + t) == extras + [replicas[i]] + t;
        extras := extras + [replicas[i]];
        counts := counts[of := Count(counts, of) - 1];
      } else {
        assert forall t: seq<Entry> :: [] + t == t;
      }
    }
    assert extras + [] == extras;
    FollowersNonNegative(replicas);
  }

  method RemediateExcessPrimaries(view: seq<Entry>, primaryIDs: set<string>, replicas: seq<Entry>,
                                  primaries: nat, replicasPerPrimary: nat)
    returns (plan: Plan)
    requires primaryIDs == AddressedPrimaryIds(view) && replicas == Replicas(view)
    requires forall i | 0 <= i < |replicas| :: replicas[i].role.Replica?
    requires |primaryIDs| > primaries
    ensures IsPlan(view, primaries, replicasPerPrimary, plan)
  {
    var excess := |primaryIDs| - primaries;
    var emptyPrimaries, nonEmptyPrimaries := SplitByOwnership(view);
    if |emptyPrimaries| > 0 {
      plan := DemoteEmptyPrimaries(primaryIDs, emptyPrimaries, replicas, excess, replicasPerPrimary);
    } else {
      plan := DrainSurplus(view, primaryIDs, nonEmptyPrimaries, excess);
    }
  }

  /** Demotes empty primaries to replicas of primaries with slots that lack some. */
  method DemoteEmptyPrimaries(primaryIDs: set<string>, emptyPrimaries: seq<Entry>, replicas: seq<Entry>, excess: nat,
                              replicasPerPrimary: nat)
    returns (plan: Plan)
    requires forall i | 0 <= i < |replicas| :: replicas[i].role.Replica?
    ensures plan.Demote? &&
            exists needs ::
              FillsDeficits(needs, primaryIDs - Ids(emptyPrimaries), replicas, replicasPerPrimary) &&
              Pairs(plan.moves, emptyPrimaries, needs, Least(Least(excess, |emptyPrimaries|), |needs|))
  {
    var emptyIDs := Ids(emptyPrimaries);
    var replicaCount, _ := CountReplicas(replicas, primaryIDs);
    var needsReplicas := ListDeficits(primaryIDs - emptyIDs, replicaCount, replicasPerPrimary);
    assert FillsDeficits(needsReplicas, primaryIDs - emptyIDs, replicas, replicasPerPrimary);
    var demoteEmpty := Least(excess, |emptyPrimaries|);
    var moves := PairUp(emptyPrimaries, needsReplicas, Least(demoteEmpty, |needsReplicas|));
    return Demote(moves);
  }

  /** Drains the slot owners with the fewest slots, as many as there are too many, but never all of them. */
  method DrainSurplus(view: seq<Entry>, primaryIDs: set<string>, nonEmptyPrimaries: seq<Entry>, excess: nat)
    returns (plan: Plan)
    requires primaryIDs == AddressedPrimaryIds(view) && nonEmptyPrimaries == Filter(IsOwner, view)
    ensures DrainPlan(view, |primaryIDs| - excess, plan)
  {
    var sorted := SortBySlots(nonEmptyPrimaries);
    var drainCount := excess;
    if drainCount > |sorted| - 1 {
      drainCount := |sorted| - 1;
    }
    if drainCount <= 0 {
      return Skip;
    }
    var keepers := primaryIDs - Ids(sorted[..drainCount]);
    if keepers == {} {
      assert DrainsFirst(view, sorted, drainCount, NoKeeper);
      return NoKeeper;
    }
    var seed :| seed in keepers;
    assert DrainsFirst(view, sorted, drainCount, Drain(sorted[..drainCount], seed));
    return Drain(sorted[..drainCount], seed);
  }

  method SplitByOwnership(view: seq<Entry>) returns (empties: seq<Entry>, owners: seq<Entry>)
    ensures empties == Filter(IsEmptyPrimary, view) && owners == Filter(IsOwner, view)
  {
    empties, owners := [], [];
    for i := 0 to |view|
      invariant empties == Filter(IsEmptyPrimary, view[..i]) && owners == Filter(IsOwner, view[..i])
    {
      FilterSnoc(IsEmptyPrimary, view, i);
      FilterSnoc(IsOwner, view, i);
      if view[i].ip == "" || !view[i].role.Primary? {
        continue;
      }
      if view[i].role.moving {
        owners := owners + [view[i]];
        continue;
      }
      if |view[i].role.slots| > 0 {
        owners := owners + [view[i]];
      } else {
        empties := empties + [view[i]];
      }
    }
    assert view[..|view|] == view;
  }

  predicate Smaller(a: Entry, b: Entry) {
    SlotCount(a) <= SlotCount(b)
  }

  /** By slot count, ascending. */
  method SortBySlots(nodes: seq<Entry>) returns (sorted: seq<Entry>)
    ensures BySlots(sorted) && multiset(sorted) == multiset(nodes) && |sorted| == |nodes|
  {
    SortSorts(Smaller, nodes);
    sorted := Sort(Smaller, nodes);
  }

  method RemediatePrimaryDeficit(view: seq<Entry>, actual: nat, replicas: seq<Entry>,
                                 primaries: nat, replicasPerPrimary: nat)
    returns (plan: Plan)
    requires actual == |AddressedPrimaryIds(view)| && replicas == Replicas(view)
    requires actual < primaries
    ensures IsPlan(view, primaries, replicasPerPrimary, plan)
  {
    var deficit := primaries - actual;
    var desiredReplicaTotal := primaries * replicasPerPrimary;
    var surplus := |replicas| - desiredReplicaTotal;
    if surplus <= 0 {
      return Skip;
    }
    var promoteCount := Least(deficit, surplus);
    var promoted: seq<Entry> := [];
    var i := 0;
    while i < promoteCount && i < |replicas|
      invariant 0 <= i <= promoteCount && i <= |replicas| && promoted == replicas[..i]
    {
      promoted := promoted + [replicas[i]];
      i := i + 1;
    }
    return Promote(promoted);
  }

  predicate IsView(answer: Option<seq<Entry>>) {
    answer.Some? && answer.value != []
  }

  /** The first view that is not empty, of the nodes asked in order; nothing if none answers with one. */
  method FirstView(answers: seq<Option<seq<Entry>>>) returns (view: seq<Entry>)
    ensures view == match First(IsView, answers) case Some(answer) => answer.value case None => []
  {
    view := [];
    var i := 0;
    while i < |answers|
      invariant i <= |answers| && First(IsView, answers) == First(IsView, answers[i..]) && view == []
    {
      if answers[i].Some? && |answers[i].value| > 0 {
        return answers[i].value;
      }
      i := i + 1;
    }
  }

  /** The gate of the scaling and upgrade flows: an error without a view; else it passes exactly when the spread is right, or repairs once. */
  method RemediateReplicaTopology(answers: seq<Option<seq<Entry>>>, primaries: nat, replicasPerPrimary: nat)
    returns (result: Gate)
    ensures result.NoView? <==> forall a <- answers :: !IsView(a)
    ensures !result.NoView? ==>
              var view := First(IsView, answers).value.value;
              (result.Passed? <==> SpreadOK(view, primaries, replicasPerPrimary)) &&
              (result.Repaired? ==>
                 IsPlan(view, primaries, replicasPerPrimary, result.plan) && (result.changed <==> Reshapes(result.plan)))
  {
    var view := FirstView(answers);
    if |view| == 0 {
      return NoView;
    }
    var ok := ReplicaSpreadOK(view, primaries, replicasPerPrimary);
    if ok {
      return Passed;
    }
    var plan, changed := RemediateReplicaSpread(view, primaries, replicasPerPrimary);
    return Repaired(plan, changed);
  }

  lemma FollowersNonNegative(view: seq<Entry>)
    ensures forall p :: Followers(view, p) >= 0
  {
    forall p ensures Followers(view, p) >= 0 {
      SumNonNegative(Follows(p), view);
    }
  }
}
