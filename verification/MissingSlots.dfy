/** Handing the slots that nobody owns to the primaries with room: internal/reconciler/health_reconciler.go. */
module MissingSlots {
  import opened ClusterView
  import opened Coverage
  import opened Lists
  import OwnerDisputes
  import opened SlotAssignment
  import opened SlotRanges

  /** A primary with an address and a readable slot column. */
  datatype PrimaryInfo = PrimaryInfo(id: string, numSlots: int)

  datatype Grant = Grant(primary: PrimaryInfo, slots: seq<int>)

  /** What a primary answers to ADDSLOTS. */
  datatype Reply = Accepted | Busy | Refused

  datatype Outcome =
    | NoPrimaries
    | Filled
    | Disagreement
    | Failed
    | Resolved(owners: map<int, OwnerDisputes.Candidate>, added: seq<int>)

  // ----- The plan -----

  function InfoOf(node: ClusterNode): Option<PrimaryInfo> {
    if IsPrimary(node) && node.ip != "" then
      match Ranges(node.slots)
      case Some(ranges) => Some(PrimaryInfo(node.id, Total(ranges)))
      case None => None
    else None
  }

  function SeenRanges(node: ClusterNode): seq<SlotRange> {
    if IsPrimary(node) && node.ip != "" then
      match Ranges(node.slots)
      case Some(ranges) => ranges
      case None => []
    else []
  }

  /** Some addressed primary with a readable slot column holds the slot. */
  ghost predicate Taken(nodes: seq<ClusterNode>, s: int) {
    exists i | 0 <= i < |nodes| :: InSome(SeenRanges(nodes[i]), s)
  }

  ghost function MissingBelow(nodes: seq<ClusterNode>, m: nat): seq<int> {
    if m == 0 then [] else MissingBelow(nodes, m - 1) + if Taken(nodes, m - 1) then [] else [m - 1]
  }

  ghost predicate Ascending(ps: seq<PrimaryInfo>) {
    forall i, j | 0 <= i < j < |ps| :: ps[i].numSlots <= ps[j].numSlots
  }

  /** Each primary below the average takes what it lacks, in the given order; the last one takes all that is left. */
  function Fill(ps: seq<PrimaryInfo>, average: int, missing: seq<int>): seq<Grant> {
    if ps == [] || missing == [] then []
    else
      var room := average - ps[0].numSlots;
      if room <= 0 then Fill(ps[1..], average, missing)
      else
        var k := if |ps| == 1 || room > |missing| then |missing| else room;
        [Grant(ps[0], missing[..k])] + Fill(ps[1..], average, missing[k..])
  }

  function SlotsOf(g: Grant): seq<int> {
    g.slots
  }

  function AnswerTo(g: Grant, replies: map<string, Reply>): Reply {
    if g.primary.id in replies then replies[g.primary.id] else Accepted
  }

  /** The grants of the plan that were accepted before the first one that was not, and how the pass ends. */
  ghost predicate Carried(plan: seq<Grant>, replies: map<string, Reply>, grants: seq<Grant>, outcome: Outcome) {
    |grants| <= |plan| && grants == plan[..|grants|] &&
    (forall i | 0 <= i < |grants| :: AnswerTo(grants[i], replies).Accepted?) &&
    if |grants| == |plan| then outcome.Filled?
    else if AnswerTo(plan[|grants|], replies).Busy? then outcome.Disagreement?
    else AnswerTo(plan[|grants|], replies).Refused? && outcome.Failed?
  }

  // ----- The pass -----

  ghost predicate AreTaken(slots: set<int>, nodes: seq<ClusterNode>) {
    forall s :: s in slots <==> Taken(nodes, s)
  }

  method CollectPrimaries(nodes: seq<ClusterNode>) returns (primaries: seq<PrimaryInfo>, assignedSlots: set<int>)
    ensures primaries == Collect(InfoOf, nodes) && AreTaken(assignedSlots, nodes)
  {
    primaries, assignedSlots := [], {};
    for i := 0 to |nodes|
      invariant primaries == Collect(InfoOf, nodes[..i]) && AreTaken(assignedSlots, nodes[..i])
    {
      CollectGrows(InfoOf, nodes, i);
      if !IsPrimary(nodes[i]) || nodes[i].ip == "" {
        TakenGrows(assignedSlots, assignedSlots, nodes, i);
        continue;
      }
      var ranges := ParseSlotRanges(nodes[i].slots);
      if ranges.None? {
        TakenGrows(assignedSlots, assignedSlots, nodes, i);
        continue;
      }
      var count := CountSlots(ranges.value);
      primaries := primaries + [PrimaryInfo(nodes[i].id, count)];
      var grown := AddRanges(assignedSlots, ranges.value);
      TakenGrows(assignedSlots, grown, nodes, i);
      assignedSlots := grown;
    }
    assert nodes[..|nodes|] == nodes;
  }

  lemma TakenSnocAt(init: seq<ClusterNode>, last: ClusterNode, s: int)
    ensures Taken(init + [last], s) <==> Taken(init, s) || InSome(SeenRanges(last), s)
  {
    var grown := init + [last];
    assert grown[|init|] == last;
    assert forall j | 0 <= j < |init| :: grown[j] == init[j];
    if Taken(init, s) {
      var j :| 0 <= j < |init| && InSome(SeenRanges(init[j]), s);
      assert InSome(SeenRanges(grown[j]), s);
    }
  }

  lemma TakenGrows(slots: set<int>, grown: set<int>, nodes: seq<ClusterNode>, i: nat)
    requires i < |nodes| && AreTaken(slots, nodes[..i])
    requires forall s :: s in grown <==> s in slots || InSome(SeenRanges(nodes[i]), s)
    ensures AreTaken(grown, nodes[..i + 1])
  {
    assert nodes[..i + 1] == nodes[..i] + [nodes[i]];
    forall s ensures s in grown <==> Taken(nodes[..i + 1], s) {
      TakenSnocAt(nodes[..i], nodes[i], s);
    }
  }

  method AddRanges(slots: set<int>, ranges: seq<SlotRange>) returns (grown: set<int>)
    ensures forall s :: s in grown <==> s in slots || InSome(ranges, s)
  {
    grown := slots;
    for k := 0 to |ranges|
      invariant forall s :: s in grown <==> s in slots || InSome(ranges[..k], s)
    {
      InSomeSnoc(ranges, k);
      grown := AddRange(grown, ranges[k]);
    }
    assert ranges[..|ranges|] == ranges;
  }

  method AddRange(slots: set<int>, r: SlotRange) returns (grown: set<int>)
    ensures forall s :: s in grown <==> s in slots || r.start <= s <= r.end
  {
    grown := slots;
    var s := r.start;
    while s <= r.end
      invariant r.start <= s
      invariant s <= r.end + 1 || s == r.start
      invariant forall x :: x in grown <==> x in slots || r.start <= x < s
    {
      grown := grown + {s};
      s := s + 1;
    }
  }

  method FindMissing(nodes: seq<ClusterNode>, assignedSlots: set<int>) returns (missing: seq<int>)
    requires AreTaken(assignedSlots, nodes)
    ensures missing == MissingBelow(nodes, TOTAL_SLOTS)
  {
    missing := [];
    for s := 0 to TOTAL_SLOTS
      invariant missing == MissingBelow(nodes, s)
    {
      if s !in assignedSlots {
        missing := missing + [s];
      }
    }
  }

  predicate Emptier(a: PrimaryInfo, b: PrimaryInfo) {
    a.numSlots <= b.numSlots
  }

  method SortPrimaries(ps: seq<PrimaryInfo>) returns (sorted: seq<PrimaryInfo>)
    ensures Ascending(sorted) && multiset(sorted) == multiset(ps)
  {
    SortSorts(Emptier, ps);
    sorted := Sort(Emptier, ps);
  }

  method Distribute(primaries: seq<PrimaryInfo>, slotsPerPrimary: int, missingSlots: seq<int>,
                    replies: map<string, Reply>)
    returns (outcome: Outcome, grants: seq<Grant>)
    ensures Carried(Fill(primaries, slotsPerPrimary, missingSlots), replies, grants, outcome)
  {
    grants := [];
    ghost var plan := Fill(primaries, slotsPerPrimary, missingSlots);
    var slotIdx := 0;
    assert primaries[0..] == primaries && missingSlots[0..] == missingSlots;
    for i := 0 to |primaries|
      invariant 0 <= slotIdx <= |missingSlots|
      invariant plan == grants + Fill(primaries[i..], slotsPerPrimary, missingSlots[slotIdx..])
      invariant forall k | 0 <= k < |grants| :: AnswerTo(grants[k], replies).Accepted?
    {
      if slotIdx >= |missingSlots| {
        return Filled, grants;
      }
      var needed := slotsPerPrimary - primaries[i].numSlots;
      if needed <= 0 {
        FillSkips(primaries, i, slotsPerPrimary, missingSlots[slotIdx..]);
        continue;
      }
      var end := slotIdx + needed;
      if i == |primaries| - 1 || end > |missingSlots| {
        end := |missingSlots|;
      }
      var grant := Grant(primaries[i], missingSlots[slotIdx..end]);
      FillGrants(primaries, i, slotsPerPrimary, missingSlots, slotIdx, end);
      Regroups(grants, grant, Fill(primaries[i + 1..], slotsPerPrimary, missingSlots[end..]));
      match AnswerTo(grant, replies) {
        case Busy => return Disagreement, grants;
        case Refused => return Failed, grants;
        case Accepted =>
          grants, slotIdx := grants + [grant], end;
      }
    }
    return Filled, grants;
  }

  lemma FillSkips(ps: seq<PrimaryInfo>, i: nat, average: int, missing: seq<int>)
    requires i < |ps| && average <= ps[i].numSlots
    ensures Fill(ps[i..], average, missing) == Fill(ps[i + 1..], average, missing)
  {
    assert ps[i..][1..] == ps[i + 1..];
  }

  lemma FillGrants(ps: seq<PrimaryInfo>, i: nat, average: int, missing: seq<int>, from: nat, end: nat)
    requires i < |ps| && from < |missing| && average > ps[i].numSlots
    requires end == if i == |ps| - 1 || from + (average - ps[i].numSlots) > |missing| then |missing|
                    else from + (average - ps[i].numSlots)
    ensures from <= end <= |missing|
    ensures Fill(ps[i..], average, missing[from..]) ==
            [Grant(ps[i], missing[from..end])] + Fill(ps[i + 1..], average, missing[end..])
  {
    assert ps[i..][1..] == ps[i + 1..];
    assert missing[from..][end - from..] == missing[end..];
    assert missing[from..][..end - from] == missing[from..end];
  }

  lemma Regroups<A>(xs: seq<A>, x: A, rest: seq<A>)
    ensures xs + ([x] + rest) == xs + [x] + rest
    ensures (xs + [x] + rest)[..|xs|] == xs && (xs + [x] + rest)[|xs|] == x
  {}

  /** How a pass ends whose grants were carried so far: a busy slot has the missing ones settled by the vote. */
  ghost predicate Ends(carried: Outcome, missing: seq<int>, views: seq<OwnerDisputes.View>, addRefused: bool, outcome: Outcome) {
    if !carried.Disagreement? then outcome == carried
    else if !OwnerDisputes.SomeClaimed(views, missing) || (addRefused && OwnerDisputes.SomeUnclaimed(views, missing))
    then outcome.Failed?
    else
      outcome.Resolved? && OwnerDisputes.Settled(views, missing, outcome.owners) &&
      forall s :: s in outcome.added <==> s in missing && OwnerDisputes.AllClaims(views, s) == []
  }

  method RemediateSlotCoverage(nodes: seq<ClusterNode>, replies: map<string, Reply>, views: seq<OwnerDisputes.View>,
                               addRefused: bool)
    returns (outcome: Outcome, grants: seq<Grant>)
    ensures outcome.NoPrimaries? <==> Collect(InfoOf, nodes) == []
    ensures outcome.NoPrimaries? ==> grants == []
    ensures !outcome.NoPrimaries? ==>
              exists ps: seq<PrimaryInfo>, carried ::
                SortedPrimaries(nodes, ps) && Carried(PlanFor(nodes, ps), replies, grants, carried) &&
                Ends(carried, MissingBelow(nodes, TOTAL_SLOTS), views, addRefused, outcome)
  {
    var primaries, assignedSlots := CollectPrimaries(nodes);
    if |primaries| == 0 {
      return NoPrimaries, [];
    }
    var missingSlots := FindMissing(nodes, assignedSlots);
    var sorted := SortPrimaries(primaries);
    assert |sorted| == |multiset(sorted)| == |primaries|;
    var slotsPerPrimary := (TOTAL_SLOTS + |sorted| - 1) / |sorted|;
    var carried;
    carried, grants := Distribute(sorted, slotsPerPrimary, missingSlots, replies);
    outcome := Conclude(carried, missingSlots, views, addRefused);
    assert SortedPrimaries(nodes, sorted) && Carried(PlanFor(nodes, sorted), replies, grants, carried);
  }

  /** After a busy reply the missing slots are settled by the vote of all nodes. */
  method Conclude(carried: Outcome, missingSlots: seq<int>, views: seq<OwnerDisputes.View>, addRefused: bool)
    returns (outcome: Outcome)
    requires !carried.NoPrimaries?
    ensures Ends(carried, missingSlots, views, addRefused, outcome) && !outcome.NoPrimaries?
  {
    if !carried.Disagreement? {
      return carried;
    }
    var ok, owners, added := OwnerDisputes.ResolveSlotDisagreement(views, missingSlots, addRefused);
    return if ok then Resolved(owners, added) else Failed;
  }

  ghost predicate SortedPrimaries(nodes: seq<ClusterNode>, ps: seq<PrimaryInfo>) {
    Ascending(ps) && multiset(ps) == multiset(Collect(InfoOf, nodes)) && ps != []
  }

  ghost function PlanFor(nodes: seq<ClusterNode>, ps: seq<PrimaryInfo>): seq<Grant>
    requires ps != []
  {
    Fill(ps, SlotsPerPrimary(|ps|), MissingBelow(nodes, TOTAL_SLOTS))
  }

  // ----- What the plan achieves -----

  function NumOf(p: PrimaryInfo): int {
    p.numSlots
  }

  function Room(average: int): PrimaryInfo -> int {
    (p: PrimaryInfo) => if p.numSlots < average then average - p.numSlots else 0
  }

  /** All slots that the plan hands out, in order. */
  function Given(plan: seq<Grant>): seq<int> {
    Flatten(Map(SlotsOf, plan))
  }

  /** Where the primaries have room for all missing slots, the plan hands out exactly these. */
  lemma {:induction false} FillGivesAll(ps: seq<PrimaryInfo>, average: int, missing: seq<int>)
    requires |missing| <= Sum(Room(average), ps)
    ensures Given(Fill(ps, average, missing)) == missing
  {
    if ps != [] && missing != [] {
      var room := average - ps[0].numSlots;
      if room <= 0 {
        FillGivesAll(ps[1..], average, missing);
      } else {
        var k := if |ps| == 1 || room > |missing| then |missing| else room;
        RestFits(ps, average, missing, k);
        FillGivesAll(ps[1..], average, missing[k..]);
        var rest := Fill(ps[1..], average, missing[k..]);
        assert ([Grant(ps[0], missing[..k])] + rest)[1..] == rest;
        assert missing == missing[..k] + missing[k..];
      }
    }
  }

  lemma RestFits(ps: seq<PrimaryInfo>, average: int, missing: seq<int>, k: nat)
    requires ps != [] && |missing| <= Sum(Room(average), ps) && average > ps[0].numSlots
    requires k == if |ps| == 1 || average - ps[0].numSlots > |missing| then |missing| else average - ps[0].numSlots
    ensures k <= |missing| && |missing[k..]| <= Sum(Room(average), ps[1..]) && k <= average - ps[0].numSlots
  {
    SumNonNegative(Room(average), ps[1..]);
    if |ps| == 1 {
      assert ps[1..] == [];
    }
  }

  /** No primary is filled beyond the average, not even the last one, which takes all that is left. */
  lemma {:induction false} FillStaysBelow(ps: seq<PrimaryInfo>, average: int, missing: seq<int>, i: nat)
    requires |missing| <= Sum(Room(average), ps) && i < |Fill(ps, average, missing)|
    ensures var g := Fill(ps, average, missing)[i];
            g.primary in ps && g.primary.numSlots + |g.slots| <= average
  {
    var room := average - ps[0].numSlots;
    if room <= 0 {
      FillStaysBelow(ps[1..], average, missing, i);
    } else {
      var k := if |ps| == 1 || room > |missing| then |missing| else room;
      RestFits(ps, average, missing, k);
      if i > 0 {
        FillStaysBelow(ps[1..], average, missing[k..], i - 1);
      }
    }
  }

  function PrimaryIs(id: string): PrimaryInfo -> int {
    (p: PrimaryInfo) => if p.id == id then 1 else 0
  }

  function GrantIs(id: string): Grant -> int {
    (g: Grant) => if g.primary.id == id then 1 else 0
  }

  /** Nobody is served more often than it is listed. */
  lemma {:induction false} FillServesOnce(ps: seq<PrimaryInfo>, average: int, missing: seq<int>, id: string)
    ensures Sum(GrantIs(id), Fill(ps, average, missing)) <= Sum(PrimaryIs(id), ps)
  {
    if ps == [] || missing == [] {
      SumNonNegative(PrimaryIs(id), ps);
    } else if average <= ps[0].numSlots {
      FillServesOnce(ps[1..], average, missing, id);
    } else {
      var room := average - ps[0].numSlots;
      var k := if |ps| == 1 || room > |missing| then |missing| else room;
      var rest := Fill(ps[1..], average, missing[k..]);
      FillServesOnce(ps[1..], average, missing[k..], id);
      assert ([Grant(ps[0], missing[..k])] + rest)[1..] == rest;
    }
  }

  // ----- The room suffices -----

  /** Every primary has an address and a readable slot column, and no slot is claimed twice or out of range. */
  ghost predicate Consistent(nodes: seq<ClusterNode>) {
    PrimaryRanges(nodes).Some? &&
    (forall i | 0 <= i < |nodes| && IsPrimary(nodes[i]) :: nodes[i].ip != "") &&
    forall s: int {:trigger Claims(PrimaryRanges(nodes).value, s)} ::
      Claims(PrimaryRanges(nodes).value, s) <= if 0 <= s < TOTAL_SLOTS then 1 else 0
  }

  lemma SeenIsClaimed(nodes: seq<ClusterNode>, i: nat, r: SlotRange, s: int)
    requires PrimaryRanges(nodes).Some? && i < |nodes| && r in SeenRanges(nodes[i]) && r.start <= s <= r.end
    ensures Claims(PrimaryRanges(nodes).value, s) >= 1
  {
    var ranges := PrimaryRanges(nodes).value;
    GatherMember(RangesIfPrimary, nodes, r);
    assert r in RangesIfPrimary(nodes[i]).value;
    var j :| 0 <= j < |ranges| && ranges[j] == r;
    ClaimsBounds(ranges, s);
  }

  lemma TakenIsClaimed(nodes: seq<ClusterNode>, s: int)
    requires PrimaryRanges(nodes).Some? && Taken(nodes, s)
    ensures Claims(PrimaryRanges(nodes).value, s) >= 1
  {
    var i :| 0 <= i < |nodes| && InSome(SeenRanges(nodes[i]), s);
    var seen := SeenRanges(nodes[i]);
    var k :| 0 <= k < |seen| && seen[k].start <= s <= seen[k].end;
    SeenIsClaimed(nodes, i, seen[k], s);
  }

  lemma SeenByNode(node: ClusterNode, r: SlotRange, s: int)
    requires RangesIfPrimary(node).Some? && (IsPrimary(node) ==> node.ip != "")
    requires r in RangesIfPrimary(node).value && r.start <= s <= r.end
    ensures InSome(SeenRanges(node), s)
  {}

  lemma ClaimedIsTaken(nodes: seq<ClusterNode>, s: int)
    requires PrimaryRanges(nodes).Some? && Claims(PrimaryRanges(nodes).value, s) >= 1
    requires forall i | 0 <= i < |nodes| && IsPrimary(nodes[i]) :: nodes[i].ip != ""
    ensures Taken(nodes, s)
  {
    var ranges := PrimaryRanges(nodes).value;
    ClaimsBounds(ranges, s);
    var j :| 0 <= j < |ranges| && ranges[j].start <= s <= ranges[j].end;
    GatherMember(RangesIfPrimary, nodes, ranges[j]);
    var i :| 0 <= i < |nodes| && ranges[j] in RangesIfPrimary(nodes[i]).value;
    SeenByNode(nodes[i], ranges[j], s);
  }

  lemma TakenIffClaimed(nodes: seq<ClusterNode>, s: int)
    requires Consistent(nodes)
    ensures Taken(nodes, s) <==> Claims(PrimaryRanges(nodes).value, s) == 1
    ensures !Taken(nodes, s) <==> Claims(PrimaryRanges(nodes).value, s) == 0
  {
    var claims := Claims(PrimaryRanges(nodes).value, s);
    ClaimsBounds(PrimaryRanges(nodes).value, s);
    if Taken(nodes, s) {
      TakenIsClaimed(nodes, s);
    }
    if claims == 1 {
      ClaimedIsTaken(nodes, s);
    }
  }

  lemma {:induction false} MissingCounted(nodes: seq<ClusterNode>, ranges: seq<SlotRange>, m: nat)
    requires forall s {:trigger Claims(ranges, s)} | 0 <= s < m :: Claims(ranges, s) == if Taken(nodes, s) then 1 else 0
    ensures |MissingBelow(nodes, m)| + ClaimsBelow(ranges, m) == m
  {
    if m > 0 {
      MissingCounted(nodes, ranges, m - 1);
    }
  }

  lemma RangesSnoc(init: seq<ClusterNode>, last: ClusterNode)
    requires PrimaryRanges(init + [last]).Some?
    ensures PrimaryRanges(init).Some? && RangesIfPrimary(last).Some?
    ensures PrimaryRanges(init + [last]).value == PrimaryRanges(init).value + RangesIfPrimary(last).value
  {
    assert (init + [last])[..|init|] == init;
  }

  lemma {:induction false} NumsAreTotal(nodes: seq<ClusterNode>)
    requires PrimaryRanges(nodes).Some?
    requires forall i | 0 <= i < |nodes| && IsPrimary(nodes[i]) :: nodes[i].ip != ""
    ensures Sum(NumOf, Collect(InfoOf, nodes)) == Total(PrimaryRanges(nodes).value)
  {
    if nodes != [] {
      var n := |nodes| - 1;
      assert nodes == nodes[..n] + [nodes[n]];
      RangesSnoc(nodes[..n], nodes[n]);
      NumsAreTotal(nodes[..n]);
      NumsSnoc(nodes[..n], nodes[n]);
    }
  }

  lemma NumsSnoc(init: seq<ClusterNode>, last: ClusterNode)
    requires PrimaryRanges(init).Some? && RangesIfPrimary(last).Some? && (IsPrimary(last) ==> last.ip != "")
    requires Sum(NumOf, Collect(InfoOf, init)) == Total(PrimaryRanges(init).value)
    ensures Sum(NumOf, Collect(InfoOf, init + [last])) ==
            Total(PrimaryRanges(init).value + RangesIfPrimary(last).value)
  {
    CollectSnoc(InfoOf, init, last);
    SumAppend(NumOf, Collect(InfoOf, init), AsSeq(InfoOf(last)));
    SumAppend(Size, PrimaryRanges(init).value, RangesIfPrimary(last).value);
    LastNum(last);
  }

  lemma LastNum(node: ClusterNode)
    requires RangesIfPrimary(node).Some? && (IsPrimary(node) ==> node.ip != "")
    ensures Sum(NumOf, AsSeq(InfoOf(node))) == Total(RangesIfPrimary(node).value)
  {}

  lemma {:induction false} RoomTotal(ps: seq<PrimaryInfo>, average: int)
    ensures Sum(Room(average), ps) >= average * |ps| - Sum(NumOf, ps)
  {
    if ps != [] {
      RoomTotal(ps[1..], average);
      assert average * |ps| == average * |ps[1..]| + average;
    }
  }

  lemma AverageCovers(n: nat)
    requires n > 0
    ensures SlotsPerPrimary(n) * n >= TOTAL_SLOTS
  {
    var a := TOTAL_SLOTS + n - 1;
    assert a == (a / n) * n + a % n;
  }

  lemma RangesEndBelow(nodes: seq<ClusterNode>)
    requires Consistent(nodes)
    ensures var ranges := PrimaryRanges(nodes).value;
            WellFormed(ranges) && forall i | 0 <= i < |ranges| :: ranges[i].end < TOTAL_SLOTS
  {
    var ranges := PrimaryRanges(nodes).value;
    PrimaryRangesWellFormed(nodes);
    forall i | 0 <= i < |ranges| ensures ranges[i].end < TOTAL_SLOTS {
      ClaimsBounds(ranges, ranges[i].end);
    }
  }

  lemma RoomSuffices(nodes: seq<ClusterNode>, ps: seq<PrimaryInfo>)
    requires Consistent(nodes) && SortedPrimaries(nodes, ps)
    ensures |MissingBelow(nodes, TOTAL_SLOTS)| <= Sum(Room(SlotsPerPrimary(|ps|)), ps)
  {
    var ranges := PrimaryRanges(nodes).value;
    RangesEndBelow(nodes);
    ClaimsBelowTotal(ranges, TOTAL_SLOTS);
    forall s | 0 <= s < TOTAL_SLOTS ensures Claims(ranges, s) == if Taken(nodes, s) then 1 else 0 {
      TakenIffClaimed(nodes, s);
    }
    MissingCounted(nodes, ranges, TOTAL_SLOTS);
    NumsAreTotal(nodes);
    SumPermuted(NumOf, ps, Collect(InfoOf, nodes));
    RoomTotal(ps, SlotsPerPrimary(|ps|));
    AverageCovers(|ps|);
  }

  lemma {:induction false} MissingHas(nodes: seq<ClusterNode>, m: nat, s: int)
    ensures s in MissingBelow(nodes, m) <==> 0 <= s < m && !Taken(nodes, s)
  {
    if m > 0 {
      MissingHas(nodes, m - 1, s);
    }
  }

  lemma {:induction false} MissingOnce(nodes: seq<ClusterNode>, m: nat)
    ensures forall i | 0 <= i < |MissingBelow(nodes, m)| :: MissingBelow(nodes, m)[i] < m
    ensures NoRepeats(MissingBelow(nodes, m))
  {
    if m > 0 {
      MissingOnce(nodes, m - 1);
      AddsLarger(MissingBelow(nodes, m - 1), m - 1);
    }
  }

  lemma AddsLarger(xs: seq<int>, m: int)
    requires NoRepeats(xs) && forall i | 0 <= i < |xs| :: xs[i] < m
    ensures NoRepeats(xs + [m]) && NoRepeats(xs + [])
  {
    NoRepeatsSnoc(xs, m);
    assert xs + [] == xs;
  }

  /**
   From consistent slot columns, the plan hands every missing slot out exactly once: afterwards each slot of
   the slot space has exactly one owner, and no primary got above the rounded-up average.
   */
  lemma FillCompletes(nodes: seq<ClusterNode>, ps: seq<PrimaryInfo>)
    requires Consistent(nodes) && SortedPrimaries(nodes, ps)
    ensures var given := Given(PlanFor(nodes, ps));
            NoRepeats(given) &&
            forall s: int {:trigger Claims(PrimaryRanges(nodes).value, s)} ::
              (s in given <==> 0 <= s < TOTAL_SLOTS && Claims(PrimaryRanges(nodes).value, s) == 0)
    ensures forall i | 0 <= i < |PlanFor(nodes, ps)| ::
              var g := PlanFor(nodes, ps)[i];
              g.primary in ps && g.primary.numSlots + |g.slots| <= SlotsPerPrimary(|ps|)
  {
    var average, missing := SlotsPerPrimary(|ps|), MissingBelow(nodes, TOTAL_SLOTS);
    RoomSuffices(nodes, ps);
    FillGivesAll(ps, average, missing);
    MissingOnce(nodes, TOTAL_SLOTS);
    forall s: int ensures s in missing <==> 0 <= s < TOTAL_SLOTS && Claims(PrimaryRanges(nodes).value, s) == 0 {
      MissingHas(nodes, TOTAL_SLOTS, s);
      TakenIffClaimed(nodes, s);
    }
    forall i | 0 <= i < |PlanFor(nodes, ps)|
      ensures var g := PlanFor(nodes, ps)[i];
              g.primary in ps && g.primary.numSlots + |g.slots| <= average
    {
      FillStaysBelow(ps, average, missing, i);
    }
  }

  // ----- Who takes part, and who comes first -----

  /** The primaries that take part: flagged as such, addressed and readable, with the slots they name. */
  lemma TakesPart(nodes: seq<ClusterNode>, p: PrimaryInfo)
    ensures p in Collect(InfoOf, nodes) <==>
            exists node <- nodes ::
              Master in node.flags && node.ip != "" && Ranges(node.slots).Some? &&
              p == PrimaryInfo(node.id, Total(Ranges(node.slots).value))
  {
    CollectMember(InfoOf, nodes, p);
    if node :| node in nodes && Master in node.flags && node.ip != "" && Ranges(node.slots).Some? &&
               p == PrimaryInfo(node.id, Total(Ranges(node.slots).value)) {
      var i :| 0 <= i < |nodes| && nodes[i] == node;
      assert InfoOf(nodes[i]) == Some(p);
    }
  }

  /** A primary that takes part names the slot. */
  ghost predicate Names(node: ClusterNode, s: int) {
    Master in node.flags && node.ip != "" && Ranges(node.slots).Some? &&
    exists r <- Ranges(node.slots).value :: r.start <= s <= r.end
  }

  lemma SeenMeans(node: ClusterNode, s: int)
    ensures InSome(SeenRanges(node), s) <==> Names(node, s)
  {
    var ranges := SeenRanges(node);
    if k: nat :| k < |ranges| && ranges[k].start <= s <= ranges[k].end {
      assert ranges[k] in Ranges(node.slots).value;
    }
    if Names(node, s) {
      var r :| r in Ranges(node.slots).value && r.start <= s <= r.end;
      var k :| 0 <= k < |ranges| && ranges[k] == r;
    }
  }

  /** The slots that are taken: those that one of these names. */
  lemma TakenMeans(nodes: seq<ClusterNode>, s: int)
    ensures Taken(nodes, s) <==> exists node <- nodes :: Names(node, s)
  {
    forall node ensures InSome(SeenRanges(node), s) <==> Names(node, s) {
      SeenMeans(node, s);
    }
    if i: nat :| i < |nodes| && InSome(SeenRanges(nodes[i]), s) {
      assert nodes[i] in nodes;
    }
    if node :| node in nodes && Names(node, s) {
      var i :| 0 <= i < |nodes| && nodes[i] == node;
    }
  }

  /** The primary got a grant before position k, and it brought the primary exactly to the average. */
  ghost predicate FilledBefore(plan: seq<Grant>, k: nat, p: PrimaryInfo, average: int)
    requires k <= |plan|
  {
    exists j | 0 <= j < k :: plan[j].primary == p && p.numSlots + |plan[j].slots| == average
  }

  lemma FilledLater(head: Grant, rest: seq<Grant>, k: nat, p: PrimaryInfo, average: int)
    requires k <= |rest| && FilledBefore(rest, k, p, average)
    ensures FilledBefore([head] + rest, k + 1, p, average)
  {
    var j: nat :| j < k && rest[j].primary == p && p.numSlots + |rest[j].slots| == average;
    assert ([head] + rest)[j + 1] == rest[j];
  }

  /** No primary is served while an emptier one that is listed stays below the average. */
  lemma {:induction false} FillServesEmptiest(ps: seq<PrimaryInfo>, average: int, missing: seq<int>, k: nat, p: PrimaryInfo)
    requires Ascending(ps) && k < |Fill(ps, average, missing)| && p in ps
    requires p.numSlots < Fill(ps, average, missing)[k].primary.numSlots
    ensures FilledBefore(Fill(ps, average, missing), k, p, average)
  {
    var plan := Fill(ps, average, missing);
    var room := average - ps[0].numSlots;
    FillListed(ps, average, missing, k);
    if room <= 0 {
      FillRoom(ps, average, missing, k);
      assert plan[k].primary.numSlots < average <= ps[0].numSlots;
      EmptiestFirst(ps, plan[k].primary);
    } else {
      var n := if |ps| == 1 || room > |missing| then |missing| else room;
      var rest := Fill(ps[1..], average, missing[n..]);
      assert plan == [Grant(ps[0], missing[..n])] + rest;
      if k > 0 {
        assert rest != [] && missing[n..] != [] && n == room;
        if p in ps[1..] {
          FillServesEmptiest(ps[1..], average, missing[n..], k - 1, p);
          FilledLater(Grant(ps[0], missing[..n]), rest, k - 1, p, average);
        } else {
          assert p == ps[0] && plan[0].primary == p && p.numSlots + |plan[0].slots| == average;
        }
      } else {
        EmptiestFirst(ps, p);
      }
    }
  }

  lemma EmptiestFirst(ps: seq<PrimaryInfo>, p: PrimaryInfo)
    requires Ascending(ps) && p in ps
    ensures ps[0].numSlots <= p.numSlots
  {
    var i :| 0 <= i < |ps| && ps[i] == p;
    assert i == 0 || ps[0].numSlots <= ps[i].numSlots;
  }

  lemma {:induction false} FillListed(ps: seq<PrimaryInfo>, average: int, missing: seq<int>, k: nat)
    requires k < |Fill(ps, average, missing)|
    ensures Fill(ps, average, missing)[k].primary in ps
  {
    var room := average - ps[0].numSlots;
    if room <= 0 {
      FillListed(ps[1..], average, missing, k);
    } else if k > 0 {
      var n := if |ps| == 1 || room > |missing| then |missing| else room;
      FillListed(ps[1..], average, missing[n..], k - 1);
    }
  }

  lemma {:induction false} FillRoom(ps: seq<PrimaryInfo>, average: int, missing: seq<int>, k: nat)
    requires k < |Fill(ps, average, missing)|
    ensures Fill(ps, average, missing)[k].primary.numSlots < average
  {
    var room := average - ps[0].numSlots;
    if room <= 0 {
      FillRoom(ps[1..], average, missing, k);
    } else if k > 0 {
      var n := if |ps| == 1 || room > |missing| then |missing| else room;
      FillRoom(ps[1..], average, missing[n..], k - 1);
    }
  }

  /** Where the last primary in line has room, it takes whatever the others left, however much that is. */
  lemma {:induction false} LastTakesRest(ps: seq<PrimaryInfo>, average: int, missing: seq<int>)
    requires ps != [] && ps[|ps| - 1].numSlots < average
    ensures Given(Fill(ps, average, missing)) == missing
  {
    if missing != [] {
      var room := average - ps[0].numSlots;
      if room <= 0 {
        LastTakesRest(ps[1..], average, missing);
      } else {
        var k := if |ps| == 1 || room > |missing| then |missing| else room;
        var rest := Fill(ps[1..], average, missing[k..]);
        if |ps| > 1 {
          LastTakesRest(ps[1..], average, missing[k..]);
        } else {
          assert rest == [] && missing[k..] == [];
        }
        assert Given(rest) == missing[k..];
        assert ([Grant(ps[0], missing[..k])] + rest)[1..] == rest;
        assert missing == missing[..k] + missing[k..];
      }
    }
  }
}
