/**
 The initial assignment of slots to primaries (internal/reconciler/cluster_reconciler.go) and the balance
 check that the result must satisfy later (internal/health/checker.go).
 */
module SlotAssignment {
  import opened ClusterView
  import opened Coverage
  import opened Lists
  import Ordinals
  import opened SlotRanges

  // ----- Shares -----

  /** The first slot of the i-th of n contiguous shares, of which the first ones are larger by one. */
  function Begin(n: nat, i: nat): int
    requires n > 0
  {
    i * (TOTAL_SLOTS / n) + if i < TOTAL_SLOTS % n then i else TOTAL_SLOTS % n
  }

  function Interval(from: int, end: int): (slots: set<int>)
    ensures forall s :: s in slots <==> from <= s < end
    decreases end - from
  {
    if from >= end then {} else Interval(from, end - 1) + {end - 1}
  }

  function Share(n: nat, i: nat): set<int>
    requires n > 0
  {
    Interval(Begin(n, i), Begin(n, i + 1))
  }

  function ShareSize(n: nat, i: nat): int
    requires n > 0
  {
    TOTAL_SLOTS / n + if i < TOTAL_SLOTS % n then 1 else 0
  }

  lemma BeginNext(n: nat, i: nat)
    requires n > 0
    ensures Begin(n, 0) == 0 && Begin(n, i + 1) == Begin(n, i) + ShareSize(n, i)
  {
    assert (i + 1) * (TOTAL_SLOTS / n) == i * (TOTAL_SLOTS / n) + TOTAL_SLOTS / n;
  }

  lemma BeginEnds(n: nat)
    requires n > 0
    ensures Begin(n, n) == TOTAL_SLOTS
  {}

  lemma {:induction false} BeginGrows(n: nat, i: nat, j: nat)
    requires n > 0 && i <= j
    ensures Begin(n, i) <= Begin(n, j)
    decreases j
  {
    if i < j {
      BeginGrows(n, i, j - 1);
      BeginNext(n, j - 1);
    }
  }

  lemma SharesApart(n: nat, i: nat, j: nat)
    requires n > 0 && i < j
    ensures Share(n, i) !! Share(n, j)
  {
    BeginGrows(n, i + 1, j);
  }

  lemma {:induction false} ShareOfSlot(n: nat, k: nat, s: int) returns (i: nat)
    requires n > 0 && 0 <= s < Begin(n, k)
    ensures i < k && s in Share(n, i)
    decreases k
  {
    BeginNext(n, 0);
    if s >= Begin(n, k - 1) {
      i := k - 1;
    } else {
      i := ShareOfSlot(n, k - 1, s);
    }
  }

  /** The shares lie in the slot space, and every slot lies in exactly one. */
  lemma SharesPartition(n: nat, s: int)
    requires n > 0
    ensures 0 <= s < TOTAL_SLOTS <==> exists i: nat :: i < n && s in Share(n, i)
    ensures forall i: nat, j: nat | i < n && j < n && s in Share(n, i) && s in Share(n, j) :: i == j
  {
    BeginEnds(n);
    if 0 <= s < TOTAL_SLOTS {
      var i := ShareOfSlot(n, n, s);
    }
    if i: nat :| i < n && s in Share(n, i) {
      BeginGrows(n, 0, i);
      BeginGrows(n, i + 1, n);
      BeginNext(n, 0);
    }
    forall i: nat, j: nat | i < n && j < n && s in Share(n, i) && s in Share(n, j) ensures i == j {
      if i < j {
        SharesApart(n, i, j);
      } else if j < i {
        SharesApart(n, j, i);
      }
    }
  }

  /** The sizes differ by at most one, and no share is empty as long as there are no more primaries than slots. */
  lemma ShareSizes(n: nat, i: nat)
    requires n > 0
    ensures TOTAL_SLOTS / n <= ShareSize(n, i) <= TOTAL_SLOTS / n + 1
    ensures |Share(n, i)| == ShareSize(n, i)
    ensures i < n ==> (Share(n, i) == {} <==> n > TOTAL_SLOTS && i >= TOTAL_SLOTS)
  {
    BeginNext(n, i);
    IntervalSize(Begin(n, i), Begin(n, i + 1));
    SlotsPerNode(n);
  }

  /** Shares follow one another in the order of the primaries, the larger ones first. */
  lemma SharesInOrder(n: nat, i: nat, j: nat)
    requires n > 0 && i < j < n
    ensures forall x, y | x in Share(n, i) && y in Share(n, j) :: x < y
    ensures |Share(n, i)| >= |Share(n, j)|
    ensures 0 in Share(n, 0)
  {
    BeginGrows(n, i + 1, j);
    ShareSizes(n, i);
    ShareSizes(n, j);
    BeginNext(n, 0);
    SlotsPerNode(n);
  }

  lemma SlotsPerNode(n: nat)
    requires n > 0
    ensures if n > TOTAL_SLOTS then TOTAL_SLOTS / n == 0 && TOTAL_SLOTS % n == TOTAL_SLOTS else TOTAL_SLOTS / n >= 1
  {}

  lemma {:induction false} IntervalSize(from: int, end: int)
    requires from <= end
    ensures |Interval(from, end)| == end - from
    decreases end - from
  {
    if from < end {
      IntervalSize(from, end - 1);
    }
  }

  // ----- Assigning them -----

  /** Which primaries cannot be asked for their slots, and which do not get the ADDSLOTS command through. */
  datatype Faults = Faults(unreachable: set<int>, refusing: set<int>)

  /** What every primary holds when its share can still be given to it, and it is not yet among the owners. */
  ghost predicate CanAssign(own: seq<set<int>>, faults: Faults, i: nat)
    requires i < |own|
  {
    i !in faults.unreachable &&
    (own[i] == {} ==>
       i !in faults.refusing && Share(|own|, i) != {} && forall j | 0 <= j < |own| :: own[j] !! Share(|own|, i))
  }

  function Assigned(own: seq<set<int>>, i: nat): set<int>
    requires i < |own|
  {
    if own[i] == {} then Share(|own|, i) else own[i]
  }

  class Formation {
    /** The slots that each primary owns. */
    var own: seq<set<int>>

    constructor (initial: seq<set<int>>)
      ensures own == initial
    {
      own := initial;
    }

    /** CLUSTER ADDSLOTS: all of the slots, or none if one of them is out of range or taken, or none is given. */
    method ClusterAddSlots(i: nat, slots: seq<int>, refused: bool) returns (ok: bool)
      requires i < |own|
      modifies this
      ensures ok <==> !refused && slots != [] && ToSet(slots) <= Interval(0, TOTAL_SLOTS) &&
                      forall j | 0 <= j < |old(own)| :: old(own)[j] !! ToSet(slots)
      ensures own == if ok then old(own)[i := old(own)[i] + ToSet(slots)] else old(own)
    {
      if refused || slots == [] || !(ToSet(slots) <= Interval(0, TOTAL_SLOTS)) {
        return false;
      }
      for j := 0 to |own|
        invariant own == old(own) && forall k | 0 <= k < j :: own[k] !! ToSet(slots)
      {
        if own[j] * ToSet(slots) != {} {
          return false;
        }
      }
      own := own[i := own[i] + ToSet(slots)];
      return true;
    }

    method AssignSlots(faults: Faults) returns (ok: bool)
      requires own != []
      modifies this
      ensures |own| == |old(own)|
      ensures ok <==> forall i | 0 <= i < |own| :: CanAssign(old(own), faults, i)
      ensures ok ==> forall i | 0 <= i < |own| :: own[i] == Assigned(old(own), i)
      ensures !ok ==> exists k | 0 <= k < |own| ::
                !CanAssign(old(own), faults, k) &&
                forall i | 0 <= i < |own| :: own[i] == if i < k then Assigned(old(own), i) else old(own)[i]
    {
      var n := |own|;
      var slotsPerNode := TOTAL_SLOTS / n;
      var remainder := TOTAL_SLOTS % n;
      var slotStart := 0;
      BeginNext(n, 0);
      for i := 0 to n
        invariant slotStart == Begin(n, i) && Reached(old(own), own, i)
        invariant forall j | 0 <= j < i :: CanAssign(old(own), faults, j)
      {
        BeginNext(n, i);
        var count := slotsPerNode;
        if i < remainder {
          count := count + 1;
        }
        ok := AssignShare(old(own), i, slotStart, count, faults);
        if !ok {
          return false;
        }
        slotStart := slotStart + count;
      }
      return true;
    }

    /** One primary's turn: skipped if it owns slots, else it gets `count` slots from `slotStart` on. */
    method AssignShare(ghost before: seq<set<int>>, i: nat, slotStart: int, count: nat, faults: Faults)
      returns (ok: bool)
      requires i < |own| && Reached(before, own, i)
      requires slotStart == Begin(|own|, i) && count == ShareSize(|own|, i)
      modifies this
      ensures ok <==> CanAssign(before, faults, i)
      ensures Reached(before, own, if ok then i + 1 else i)
    {
      ghost var now := own;
      BeginNext(|own|, i);
      WhenAssignable(before, own, faults, i);
      if i in faults.unreachable {
        return false;
      }
      if own[i] == {} {
        var slots := SlotsFrom(slotStart, count);
        ok := ClusterAddSlots(i, slots, i in faults.refusing);
        if !ok {
          return false;
        }
      }
      ReachesNext(before, now, own, i);
      return true;
    }
  }

  /** The first i primaries are done, and the others are as before. */
  ghost predicate Reached(before: seq<set<int>>, now: seq<set<int>>, i: nat) {
    |now| == |before| && forall j | 0 <= j < |now| :: now[j] == if j < i then Assigned(before, j) else before[j]
  }

  lemma WhenAssignable(before: seq<set<int>>, now: seq<set<int>>, faults: Faults, i: nat)
    requires i < |before| && Reached(before, now, i)
    ensures now[i] == before[i] && Share(|now|, i) <= Interval(0, TOTAL_SLOTS)
    ensures Share(|now|, i) == {} <==> ShareSize(|now|, i) == 0
    ensures CanAssign(before, faults, i) <==>
            i !in faults.unreachable &&
            (now[i] == {} ==> i !in faults.refusing && Share(|now|, i) != {} &&
                              forall j | 0 <= j < |now| :: now[j] !! Share(|now|, i))
  {
    ShareInRange(|now|, i);
    ApartFromAssigned(before, now, i);
  }

  lemma ReachesNext(before: seq<set<int>>, now: seq<set<int>>, next: seq<set<int>>, i: nat)
    requires i < |before| && Reached(before, now, i)
    requires next == if now[i] == {} then now[i := now[i] + Share(|now|, i)] else now
    ensures Reached(before, next, i + 1)
  {}

  method SlotsFrom(start: int, count: nat) returns (slots: seq<int>)
    ensures ToSet(slots) == Interval(start, start + count) && (slots == [] <==> count == 0)
  {
    slots := [];
    for s := 0 to count
      invariant |slots| == s && ToSet(slots) == Interval(start, start + s)
    {
      SetSnoc(slots, start + s);
      slots := slots + [start + s];
    }
  }

  lemma SetSnoc(slots: seq<int>, s: int)
    ensures ToSet(slots + [s]) == ToSet(slots) + {s}
  {
    assert forall x :: x in slots + [s] <==> x in slots || x == s;
  }

  lemma ShareInRange(n: nat, i: nat)
    requires i < n
    ensures Share(n, i) <= Interval(0, TOTAL_SLOTS) && (Share(n, i) == {} <==> ShareSize(n, i) == 0)
  {
    forall s | s in Share(n, i) ensures s in Interval(0, TOTAL_SLOTS) {
      SharesPartition(n, s);
    }
    ShareSizes(n, i);
  }

  lemma ApartFromAssigned(before: seq<set<int>>, now: seq<set<int>>, i: nat)
    requires i < |before| == |now|
    requires forall j | 0 <= j < |now| :: now[j] == if j < i then Assigned(before, j) else before[j]
    ensures (forall j | 0 <= j < |now| :: now[j] !! Share(|now|, i)) <==>
            (forall j | 0 <= j < |now| :: before[j] !! Share(|now|, i))
  {
    forall j | 0 <= j < |now| ensures now[j] !! Share(|now|, i) <==> before[j] !! Share(|now|, i) {
      if j < i {
        SharesApart(|now|, j, i);
      }
    }
  }

  /** One primary's turn, in fields: who is asked, who keeps its slots, and who gets which. */
  lemma TurnInFields(own: seq<set<int>>, faults: Faults, i: nat)
    requires i < |own| && CanAssign(own, faults, i)
    ensures i !in faults.unreachable && Assigned(own, i) != {}
    ensures own[i] != {} ==> Assigned(own, i) == own[i]
    ensures own[i] == {} ==> i !in faults.refusing && Assigned(own, i) == Share(|own|, i)
    ensures own[i] == {} ==> forall j, s | 0 <= j < |own| && s in Share(|own|, i) :: s !in own[j]
  {}

  /** Each primary holds nothing, or exactly its share. */
  ghost predicate Resumable(own: seq<set<int>>) {
    forall i | 0 <= i < |own| :: own[i] == {} || own[i] == Share(|own|, i)
  }

  /** However often it was interrupted, the assignment ends with everyone's share, if no primary is one too many. */
  lemma ResumesToShares(own: seq<set<int>>)
    requires own != [] && Resumable(own)
    ensures (forall i | 0 <= i < |own| :: CanAssign(own, Faults({}, {}), i)) <==> |own| <= TOTAL_SLOTS
    ensures forall i | 0 <= i < |own| :: Assigned(own, i) == Share(|own|, i)
  {
    var n := |own|;
    if n <= TOTAL_SLOTS {
      forall i | 0 <= i < n ensures CanAssign(own, Faults({}, {}), i) {
        ResumeStep(own, i);
      }
    } else {
      ShareSizes(n, n - 1);
      assert own[n - 1] == {};
      assert !CanAssign(own, Faults({}, {}), n - 1);
    }
  }

  lemma ResumeStep(own: seq<set<int>>, i: nat)
    requires i < |own| <= TOTAL_SLOTS && Resumable(own)
    ensures CanAssign(own, Faults({}, {}), i)
  {
    ShareSizes(|own|, i);
    if own[i] == {} {
      forall j | 0 <= j < |own| ensures own[j] !! Share(|own|, i) {
        if j < i {
          SharesApart(|own|, j, i);
        } else if j > i {
          SharesApart(|own|, i, j);
        }
      }
    }
  }

  // ----- Balance -----

  const UNBALANCED_THRESHOLD_PCT := 2

  function PrimaryCount(node: ClusterNode): Option<int> {
    match RangesIfPrimary(node)
    case Some(ranges) => Some(Total(ranges))
    case None => None
  }

  predicate IsPrimaryNode(node: ClusterNode) {
    IsPrimary(node)
  }

  /** The slots of each primary in view order, or nothing if a slot column cannot be read. */
  function PrimaryCounts(nodes: seq<ClusterNode>): Option<seq<int>> {
    Traverse(PrimaryCount, Filter(IsPrimaryNode, nodes))
  }

  /** The average, rounded up. */
  function SlotsPerPrimary(n: nat): int
    requires n > 0
  {
    (TOTAL_SLOTS + n - 1) / n
  }

  /** Every primary owns slots, and nobody is further from the rounded-up average than the threshold. */
  ghost predicate InBalance(counts: seq<int>) {
    counts != [] &&
    var average := SlotsPerPrimary(|counts|);
    var slack := average * UNBALANCED_THRESHOLD_PCT / 100;
    forall i | 0 <= i < |counts| :: counts[i] != 0 && average - slack <= counts[i] <= average + slack
  }

  lemma TraverseSnoc<A, B>(f: A -> Option<B>, xs: seq<A>, x: A)
    ensures Traverse(f, xs + [x]) ==
            if Traverse(f, xs).Some? && f(x).Some? then Some(Traverse(f, xs).value + [f(x).value]) else None
  {
    TraverseCollects(f, xs);
    TraverseCollects(f, xs + [x]);
    CollectSnoc(f, xs, x);
    assert (xs + [x])[|xs|] == x;
    assert forall i | 0 <= i < |xs| :: (xs + [x])[i] == xs[i];
  }

  /** Every slot column of a primary can be read, and counts some slot. */
  ghost predicate AllServe(nodes: seq<ClusterNode>) {
    PrimaryCounts(nodes).Some? &&
    forall i | 0 <= i < |PrimaryCounts(nodes).value| :: PrimaryCounts(nodes).value[i] != 0
  }

  lemma CountsSnoc(nodes: seq<ClusterNode>, i: nat)
    requires i < |nodes|
    ensures PrimaryCounts(nodes[..i + 1]) ==
            if !IsPrimary(nodes[i]) then PrimaryCounts(nodes[..i])
            else if PrimaryCounts(nodes[..i]).Some? && PrimaryCount(nodes[i]).Some? then
              Some(PrimaryCounts(nodes[..i]).value + [PrimaryCount(nodes[i]).value])
            else None
  {
    FilterSnoc(IsPrimaryNode, nodes, i);
    TraverseSnoc(PrimaryCount, Filter(IsPrimaryNode, nodes[..i]), nodes[i]);
  }

  lemma {:induction false} PrefixServes(nodes: seq<ClusterNode>, i: nat)
    requires i <= |nodes| && AllServe(nodes)
    ensures AllServe(nodes[..i])
    decreases |nodes| - i
  {
    if i == |nodes| {
      assert nodes[..i] == nodes;
    } else {
      PrefixServes(nodes, i + 1);
      CountsSnoc(nodes, i);
      ServesSnoc(nodes[..i], nodes[..i + 1], nodes[i]);
    }
  }

  lemma ServesSnoc(init: seq<ClusterNode>, nodes: seq<ClusterNode>, last: ClusterNode)
    requires PrimaryCounts(nodes) ==
             if !IsPrimary(last) then PrimaryCounts(init)
             else if PrimaryCounts(init).Some? && PrimaryCount(last).Some? then
               Some(PrimaryCounts(init).value + [PrimaryCount(last).value])
             else None
    ensures AllServe(nodes) <==>
            AllServe(init) && (IsPrimary(last) ==> PrimaryCount(last).Some? && PrimaryCount(last).value != 0)
  {
    if PrimaryCounts(nodes).Some? && IsPrimary(last) {
      var cs := PrimaryCounts(init).value;
      assert PrimaryCounts(nodes).value[|cs|] == PrimaryCount(last).value;
      assert forall k | 0 <= k < |cs| :: PrimaryCounts(nodes).value[k] == cs[k];
    }
  }

  lemma ServesUpTo(nodes: seq<ClusterNode>, i: nat)
    requires i < |nodes|
    ensures AllServe(nodes[..i + 1]) <==>
            AllServe(nodes[..i]) &&
            (IsPrimary(nodes[i]) ==> PrimaryCount(nodes[i]).Some? && PrimaryCount(nodes[i]).value != 0)
    ensures !AllServe(nodes[..i + 1]) ==> !AllServe(nodes)
  {
    CountsSnoc(nodes, i);
    ServesSnoc(nodes[..i], nodes[..i + 1], nodes[i]);
    if AllServe(nodes) {
      PrefixServes(nodes, i + 1);
    }
  }

  /** The slot counts of the primaries, or nothing if one of them cannot be read or is zero. */
  method GatherCounts(nodes: seq<ClusterNode>) returns (counts: Option<seq<int>>)
    ensures counts == if AllServe(nodes) then PrimaryCounts(nodes) else None
  {
    var primaryCounts: seq<int> := [];
    for i := 0 to |nodes|
      invariant AllServe(nodes[..i]) && PrimaryCounts(nodes[..i]) == Some(primaryCounts)
    {
      ServesUpTo(nodes, i);
      if !IsPrimary(nodes[i]) {
        CountsSnoc(nodes, i);
        continue;
      }
      var parsed := ParseSlotRanges(nodes[i].slots);
      if parsed.None? {
        return None;
      }
      var slotCount := CountSlots(parsed.value);
      if slotCount == 0 {
        return None;
      }
      CountsSnoc(nodes, i);
      primaryCounts := primaryCounts + [slotCount];
    }
    assert nodes[..|nodes|] == nodes;
    return Some(primaryCounts);
  }

  method AllWithin(counts: seq<int>, minimum: int, maximum: int) returns (ok: bool)
    ensures ok <==> forall i | 0 <= i < |counts| :: minimum <= counts[i] <= maximum
  {
    for i := 0 to |counts|
      invariant forall k | 0 <= k < i :: minimum <= counts[k] <= maximum
    {
      if counts[i] < minimum || counts[i] > maximum {
        return false;
      }
    }
    return true;
  }

  method Balanced(nodes: seq<ClusterNode>) returns (ok: bool)
    ensures ok <==> PrimaryCounts(nodes).Some? && InBalance(PrimaryCounts(nodes).value)
  {
    var gathered := GatherCounts(nodes);
    if gathered.None? {
      return false;
    }
    var primaryCounts := gathered.value;
    if |primaryCounts| == 0 {
      return false;
    }
    var slotsPerPrimary := (TOTAL_SLOTS + |primaryCounts| - 1) / |primaryCounts|;
    var maximumSlots := slotsPerPrimary + slotsPerPrimary * UNBALANCED_THRESHOLD_PCT / 100;
    var minimumSlots := slotsPerPrimary - slotsPerPrimary * UNBALANCED_THRESHOLD_PCT / 100;
    ok := AllWithin(primaryCounts, minimumSlots, maximumSlots);
  }

  lemma AverageOfShares(n: nat)
    requires 0 < n <= TOTAL_SLOTS
    ensures SlotsPerPrimary(n) == TOTAL_SLOTS / n + if TOTAL_SLOTS % n == 0 then 0 else 1
  {
    var q, r := TOTAL_SLOTS / n, TOTAL_SLOTS % n;
    assert TOTAL_SLOTS + n - 1 == q * n + (r + n - 1);
    if r == 0 {
      QuotientIs(TOTAL_SLOTS + n - 1, n, q, n - 1);
    } else {
      assert (q + 1) * n == q * n + n;
      QuotientIs(TOTAL_SLOTS + n - 1, n, q + 1, r - 1);
    }
  }

  lemma QuotientIs(a: int, n: nat, q: int, r: int)
    requires 0 <= r < n && a == q * n + r
    ensures a / n == q
  {
    Ordinals.QuotientUnique(q, n, r);
  }

  /** Rounding up gives at least 50 exactly for up to 334 primaries. */
  lemma LargeAverage(n: nat)
    requires 0 < n <= TOTAL_SLOTS
    ensures SlotsPerPrimary(n) >= 50 <==> n <= 334
  {
    var a := TOTAL_SLOTS + n - 1;
    var c := a / n;
    assert a == c * n + a % n;
    if c >= 50 {
      Ordinals.Scales(50, c, n);
    } else {
      Ordinals.Scales(c, 49, n);
    }
  }

  /**
   The initial assignment satisfies the balance check exactly for divisors of the slot count and up to 334
   primaries.
   */
  lemma FormationInBalance(counts: seq<int>)
    requires 0 < |counts| <= TOTAL_SLOTS && forall i | 0 <= i < |counts| :: counts[i] == ShareSize(|counts|, i)
    ensures InBalance(counts) <==> TOTAL_SLOTS % |counts| == 0 || |counts| <= 334
  {
    var n := |counts|;
    AverageOfShares(n);
    LargeAverage(n);
    SlotsPerNode(n);
    var average := SlotsPerPrimary(n);
    assert average * 2 / 100 == 0 <==> average < 50;
    if TOTAL_SLOTS % n != 0 && n > 334 {
      assert counts[n - 1] == average - 1;
    }
  }

  lemma WithinSlack(count: int, average: int)
    requires average >= 0
    ensures average - average * 2 / 100 <= count <= average + average * 2 / 100 <==>
            100 * (count - average) <= 2 * average && 100 * (average - count) <= 2 * average
  {}

  lemma RoundedUp(n: nat, average: int)
    requires n > 0 && (average - 1) * n < 16384 <= average * n
    ensures average == (16384 + n - 1) / n && average >= 0
  {
    var r := 16384 + n - 1 - average * n;
    assert (average - 1) * n == average * n - n;
    Ordinals.QuotientUnique(average, n, r);
    assert average * n + r == 16384 + n - 1;
    if average < 0 {
      Ordinals.Scales(average, 0, n);
    }
  }

  /**
   In balance means: every primary serves slots, and their number is within two percent of the share that each of
   them would have to serve at least.
   */
  lemma InBalanceMeans(counts: seq<int>, average: int)
    requires counts != [] && (average - 1) * |counts| < 16384 <= average * |counts|
    ensures InBalance(counts) <==>
            forall i | 0 <= i < |counts| ::
              counts[i] != 0 && 100 * (counts[i] - average) <= 2 * average && 100 * (average - counts[i]) <= 2 * average
  {
    RoundedUp(|counts|, average);
    forall i | 0 <= i < |counts|
      ensures average - average * 2 / 100 <= counts[i] <= average + average * 2 / 100 <==>
              100 * (counts[i] - average) <= 2 * average && 100 * (average - counts[i]) <= 2 * average
    {
      WithinSlack(counts[i], average);
    }
  }
}
