/**
 The cluster after slots were handed out: what the coverage and the balance check then say of a view that shows
 the new owners. Slots are handed out at formation (internal/reconciler/cluster_reconciler.go) and when some
 were missing (internal/reconciler/health_reconciler.go).
 */
module SlotsAfter {
  import opened ClusterView
  import opened Coverage
  import opened Lists
  import opened MissingSlots
  import opened SlotAssignment
  import opened SlotRanges
  import opened Tokens

  // ----- Views and owners -----

  function Has(s: int): set<int> -> int {
    (slots: set<int>) => if s in slots then 1 else 0
  }

  /** How often a node's slot column claims a slot, if it is a primary's. */
  function ColumnClaims(s: int): ClusterNode -> int {
    (node: ClusterNode) => match RangesIfPrimary(node) case Some(ranges) => Claims(ranges, s) case None => 0
  }

  /** A primary whose slot column reads as the given slots, each named once. */
  ghost predicate Shows(node: ClusterNode, slots: set<int>) {
    IsPrimary(node) && RangesIfPrimary(node).Some? && forall s :: ColumnClaims(s)(node) == Has(s)(slots)
  }

  ghost predicate ShowsAll(nodes: seq<ClusterNode>, shown: seq<set<int>>) {
    |nodes| == |shown| && forall i | 0 <= i < |nodes| :: Shows(nodes[i], shown[i])
  }

  /** The primaries in the view, in any order, show the given slots. */
  ghost predicate SeenAs(view: seq<ClusterNode>, own: seq<set<int>>) {
    exists shown :: multiset(shown) == multiset(own) && ShowsAll(Filter(IsPrimaryNode, view), shown)
  }

  lemma ClaimsNext(init: seq<ClusterNode>, last: ClusterNode, s: int)
    requires PrimaryRanges(init).Some? && RangesIfPrimary(last).Some?
    ensures Claims(PrimaryRanges(init).value + RangesIfPrimary(last).value, s) ==
            Claims(PrimaryRanges(init).value, s) + ColumnClaims(s)(last)
  {
    SumAppend(Holds(s), PrimaryRanges(init).value, RangesIfPrimary(last).value);
  }

  lemma {:induction false} ClaimsByNode(nodes: seq<ClusterNode>, s: int)
    requires PrimaryRanges(nodes).Some?
    ensures Claims(PrimaryRanges(nodes).value, s) == Sum(ColumnClaims(s), nodes)
  {
    if nodes != [] {
      var n := |nodes| - 1;
      assert nodes == nodes[..n] + [nodes[n]];
      RangesSnoc(nodes[..n], nodes[n]);
      ClaimsByNode(nodes[..n], s);
      ClaimsNext(nodes[..n], nodes[n], s);
      SumSnoc(ColumnClaims(s), nodes[..n], nodes[n]);
    }
  }

  lemma {:induction false} ShownClaims(nodes: seq<ClusterNode>, shown: seq<set<int>>, s: int)
    requires ShowsAll(nodes, shown)
    ensures Sum(ColumnClaims(s), nodes) == Sum(Has(s), shown)
  {
    if nodes != [] {
      assert Shows(nodes[0], shown[0]);
      ShownClaims(nodes[1..], shown[1..], s);
    }
  }

  lemma OthersClaimNothing(view: seq<ClusterNode>, s: int)
    ensures Sum(ColumnClaims(s), Filter(IsPrimaryNode, view)) == Sum(ColumnClaims(s), view)
  {
    SumFilter(ColumnClaims(s), IsPrimaryNode, view);
  }

  lemma ShownReadable(view: seq<ClusterNode>, shown: seq<set<int>>)
    requires ShowsAll(Filter(IsPrimaryNode, view), shown)
    ensures PrimaryRanges(view).Some?
  {
    var primaries := Filter(IsPrimaryNode, view);
    forall i | 0 <= i < |view| ensures RangesIfPrimary(view[i]).Some? {
      FilterMember(IsPrimaryNode, view, view[i]);
      if IsPrimary(view[i]) {
        var k :| 0 <= k < |primaries| && primaries[k] == view[i];
        assert Shows(primaries[k], shown[k]);
      }
    }
  }

  /** A view claims each slot as often as there are owners. */
  lemma SeenClaims(view: seq<ClusterNode>, own: seq<set<int>>, s: int)
    requires SeenAs(view, own)
    ensures PrimaryRanges(view).Some? && Claims(PrimaryRanges(view).value, s) == Sum(Has(s), own)
  {
    var shown :| multiset(shown) == multiset(own) && ShowsAll(Filter(IsPrimaryNode, view), shown);
    ShownReadable(view, shown);
    ClaimsByNode(view, s);
    OthersClaimNothing(view, s);
    ShownClaims(Filter(IsPrimaryNode, view), shown, s);
    SumPermuted(Has(s), shown, own);
  }

  /** Each slot of the slot space has exactly one owner, and there are no other slots. */
  ghost predicate OwnedOnce(own: seq<set<int>>) {
    forall s: int {:trigger Has(s)} :: Sum(Has(s), own) == Quota(s)
  }

  lemma SeenCovers(view: seq<ClusterNode>, own: seq<set<int>>)
    requires SeenAs(view, own)
    ensures ExactCover(view) <==> OwnedOnce(own)
  {
    SeenClaims(view, own, 0);
    forall s: int ensures Claims(PrimaryRanges(view).value, s) == Sum(Has(s), own) {
      SeenClaims(view, own, s);
    }
  }

  // ----- After the initial assignment -----

  function AllShares(n: nat): (shares: seq<set<int>>)
    requires n > 0
    ensures |shares| == n && forall i | 0 <= i < n :: shares[i] == Share(n, i)
  {
    seq(n, i requires 0 <= i < n => Share(n, i))
  }

  /** The shares of those primaries that own slots already; nothing for the others. */
  function HolderShares(own: seq<set<int>>): (shares: seq<set<int>>)
    requires own != []
    ensures |shares| == |own| && forall i | 0 <= i < |own| :: shares[i] == if own[i] == {} then {} else Share(|own|, i)
  {
    seq(|own|, i requires 0 <= i < |own| => if own[i] == {} then {} else Share(|own|, i))
  }

  lemma SharesOwnedOnce(n: nat, s: int)
    requires n > 0
    ensures Sum(Has(s), AllShares(n)) == Quota(s)
  {
    var shares := AllShares(n);
    SharesPartition(n, s);
    if i: nat :| i < n && s in Share(n, i) {
      forall j | 0 <= j < n && j != i ensures Has(s)(shares[j]) == 0 {
        assert s !in Share(n, j);
      }
      SumSingle(Has(s), shares, i);
    } else {
      SumZero(Has(s), shares);
    }
  }

  lemma {:induction false} SumsBalance<A>(f: A -> int, a: seq<A>, b: seq<A>, c: seq<A>, d: seq<A>)
    requires |a| == |b| == |c| == |d| && forall i | 0 <= i < |a| :: f(a[i]) + f(b[i]) == f(c[i]) + f(d[i])
    ensures Sum(f, a) + Sum(f, b) == Sum(f, c) + Sum(f, d)
  {
    if a != [] {
      SumsBalance(f, a[1..], b[1..], c[1..], d[1..]);
    }
  }

  ghost predicate AllAssigned(before: seq<set<int>>, own: seq<set<int>>) {
    |own| == |before| && forall i | 0 <= i < |own| :: own[i] == Assigned(before, i)
  }

  lemma AssignedClaims(before: seq<set<int>>, own: seq<set<int>>, s: int)
    requires before != [] && AllAssigned(before, own)
    ensures Sum(Has(s), own) + Sum(Has(s), HolderShares(before)) == Sum(Has(s), before) + Quota(s)
  {
    SharesOwnedOnce(|before|, s);
    SumsBalance(Has(s), own, HolderShares(before), before, AllShares(|before|));
  }

  /** Each slot had as many owners as its share had holders. */
  ghost predicate HeldAsShared(before: seq<set<int>>)
    requires before != []
  {
    forall s: int {:trigger Has(s)} :: Sum(Has(s), before) == Sum(Has(s), HolderShares(before))
  }

  /**
   A completed assignment passes the coverage check exactly when those who owned slots before owned, taken
   together, their own shares: the assignment itself only asks that the other shares are free.
   */
  lemma AssignmentCovers(before: seq<set<int>>, own: seq<set<int>>, view: seq<ClusterNode>)
    requires before != [] && AllAssigned(before, own) && SeenAs(view, own)
    ensures ExactCover(view) <==> HeldAsShared(before)
  {
    SeenCovers(view, own);
    forall s: int
      ensures Sum(Has(s), own) == Quota(s) <==> Sum(Has(s), before) == Sum(Has(s), HolderShares(before))
    {
      AssignedClaims(before, own, s);
    }
  }

  lemma SecondShare()
    ensures 1 in Share(2, 0) && Share(2, 1) != {} && Share(2, 1) !! {0}
  {
    assert 0 in Share(2, 0);
    SharesApart(2, 0, 1);
    ShareSizes(2, 1);
  }

  lemma SharedButNotHeld(own: seq<set<int>>)
    requires |own| == 2 && own[0] == {0} && own[1] == {} && 1 in Share(2, 0)
    ensures !HeldAsShared(own)
  {
    SumSingle(Has(1), HolderShares(own), 0);
    SumZero(Has(1), own);
    assert Sum(Has(1), own) != Sum(Has(1), HolderShares(own));
  }

  /** One primary of two holds slot 0 alone: the assignment completes, and leaves slots without an owner. */
  lemma AssignmentUncovered(before: seq<set<int>>)
    requires |before| == 2 && before[0] == {0} && before[1] == {}
    ensures CanAssign(before, Faults({}, {}), 0) && CanAssign(before, Faults({}, {}), 1) && !HeldAsShared(before)
  {
    SecondShare();
    SharedButNotHeld(before);
  }

  function Card(slots: set<int>): int {
    |slots|
  }

  function Below(slots: set<int>, m: nat): set<int> {
    set s | s in slots && 0 <= s < m
  }

  lemma BelowNext(slots: set<int>, m: nat)
    ensures |Below(slots, m + 1)| == |Below(slots, m)| + Has(m)(slots)
  {
    if m in slots {
      assert Below(slots, m + 1) == Below(slots, m) + {m};
    } else {
      assert Below(slots, m + 1) == Below(slots, m);
    }
  }

  lemma {:induction false} ClaimsCounted(ranges: seq<SlotRange>, slots: set<int>, m: nat)
    requires forall s: int {:trigger Claims(ranges, s)} :: Claims(ranges, s) == Has(s)(slots)
    ensures ClaimsBelow(ranges, m) == |Below(slots, m)|
  {
    if m > 0 {
      ClaimsCounted(ranges, slots, m - 1);
      BelowNext(slots, m - 1);
    }
  }

  lemma TotalIsCard(ranges: seq<SlotRange>, slots: set<int>)
    requires WellFormed(ranges)
    requires forall s: int {:trigger Claims(ranges, s)} :: Claims(ranges, s) == Has(s)(slots)
    ensures Total(ranges) == |slots|
  {
    var m := MAX_INT + 1;
    ClaimsBelowTotal(ranges, m);
    ClaimsCounted(ranges, slots, m);
    forall s | s in slots ensures 0 <= s < m {
      assert Claims(ranges, s) == 1;
      ClaimsBounds(ranges, s);
    }
    assert Below(slots, m) == slots;
  }

  lemma ShownCount(node: ClusterNode, slots: set<int>)
    requires Shows(node, slots)
    ensures PrimaryCount(node) == Some(|slots|)
  {
    var ranges := RangesIfPrimary(node).value;
    forall s: int ensures Claims(ranges, s) == Has(s)(slots) {
      assert ColumnClaims(s)(node) == Has(s)(slots);
    }
    TotalIsCard(ranges, slots);
  }

  lemma ShownCounts(view: seq<ClusterNode>, shown: seq<set<int>>)
    requires ShowsAll(Filter(IsPrimaryNode, view), shown)
    ensures PrimaryCounts(view) == Some(Map(Card, shown))
  {
    var primaries := Filter(IsPrimaryNode, view);
    forall i | 0 <= i < |primaries| ensures PrimaryCount(primaries[i]) == Some(Map(Card, shown)[i]) {
      ShownCount(primaries[i], shown[i]);
    }
    assert Traverse(PrimaryCount, primaries).Some?;
    assert PrimaryCounts(view).value == Map(Card, shown);
  }

  lemma InBalancePermuted(a: seq<int>, b: seq<int>)
    requires multiset(a) == multiset(b) && InBalance(a)
    ensures InBalance(b)
  {
    assert |multiset(a)| == |multiset(b)|;
    var average := SlotsPerPrimary(|a|);
    var slack := average * UNBALANCED_THRESHOLD_PCT / 100;
    forall i | 0 <= i < |b| ensures b[i] != 0 && average - slack <= b[i] <= average + slack {
      assert b[i] in multiset(a);
    }
  }

  ghost predicate BalancedView(view: seq<ClusterNode>) {
    PrimaryCounts(view).Some? && InBalance(PrimaryCounts(view).value)
  }

  lemma SeenBalance(view: seq<ClusterNode>, own: seq<set<int>>)
    requires SeenAs(view, own)
    ensures BalancedView(view) <==> InBalance(Map(Card, own))
  {
    var shown :| multiset(shown) == multiset(own) && ShowsAll(Filter(IsPrimaryNode, view), shown);
    ShownCounts(view, shown);
    MapPermuted(Card, shown, own);
    if InBalance(Map(Card, shown)) {
      InBalancePermuted(Map(Card, shown), Map(Card, own));
    }
    if InBalance(Map(Card, own)) {
      InBalancePermuted(Map(Card, own), Map(Card, shown));
    }
  }

  lemma ResumableHeld(before: seq<set<int>>)
    requires before != [] && Resumable(before)
    ensures HeldAsShared(before)
  {
    assert before == HolderShares(before);
  }

  /**
   The formed cluster: whatever part of it was assigned before, once the assignment completes the coverage check
   passes, and the balance check passes exactly for divisors of the slot count and up to 334 primaries.
   */
  lemma FormationOutcome(before: seq<set<int>>, own: seq<set<int>>, view: seq<ClusterNode>)
    requires 0 < |before| <= TOTAL_SLOTS && Resumable(before) && AllAssigned(before, own) && SeenAs(view, own)
    ensures ExactCover(view)
    ensures BalancedView(view) <==> TOTAL_SLOTS % |before| == 0 || |before| <= 334
  {
    ResumableHeld(before);
    AssignmentCovers(before, own, view);
    ResumesToShares(before);
    SeenBalance(view, own);
    forall i | 0 <= i < |own| ensures Map(Card, own)[i] == ShareSize(|own|, i) {
      ShareSizes(|own|, i);
    }
    FormationInBalance(Map(Card, own));
  }

  // ----- After the missing slots were granted -----

  function GrantHas(s: int): Grant -> int {
    (g: Grant) => if s in g.slots then 1 else 0
  }

  /** Whether a grant gives a slot to a node. */
  function Gives(s: int): (ClusterNode, Grant) -> int {
    (node: ClusterNode, g: Grant) => if IsPrimary(node) && g.primary.id == node.id && s in g.slots then 1 else 0
  }

  /** The node's column afterwards: each slot as often as before, and once more for each grant of it. */
  ghost predicate Extended(node: ClusterNode, after: ClusterNode, grants: seq<Grant>) {
    RangesIfPrimary(after).Some? &&
    forall s :: ColumnClaims(s)(after) == ColumnClaims(s)(node) + RowSum(Gives(s), grants)(node)
  }

  /** The view once all grants took effect. */
  ghost predicate AllExtended(nodes: seq<ClusterNode>, after: seq<ClusterNode>, grants: seq<Grant>) {
    |after| == |nodes| && forall i | 0 <= i < |nodes| :: Extended(nodes[i], after[i], grants)
  }

  ghost predicate DistinctIds(nodes: seq<ClusterNode>) {
    forall i, j | 0 <= i < |nodes| && 0 <= j < |nodes| && nodes[i].id == nodes[j].id :: i == j
  }

  lemma {:induction false} ExtendedClaims(nodes: seq<ClusterNode>, after: seq<ClusterNode>, grants: seq<Grant>, s: int)
    requires AllExtended(nodes, after, grants)
    ensures Sum(ColumnClaims(s), after) == Sum(ColumnClaims(s), nodes) + Sum(RowSum(Gives(s), grants), nodes)
  {
    if nodes != [] {
      assert Extended(nodes[0], after[0], grants);
      ExtendedClaims(nodes[1..], after[1..], grants, s);
    }
  }

  lemma GrantReachesOne(nodes: seq<ClusterNode>, g: Grant, i: nat, s: int)
    requires DistinctIds(nodes) && i < |nodes| && IsPrimary(nodes[i]) && nodes[i].id == g.primary.id
    ensures RowSum(Flip(Gives(s)), nodes)(g) == GrantHas(s)(g)
  {
    SumSingle(Fix(Flip(Gives(s)), g), nodes, i);
  }

  lemma ListedPrimary(nodes: seq<ClusterNode>, ps: seq<PrimaryInfo>, p: PrimaryInfo) returns (i: nat)
    requires SortedPrimaries(nodes, ps) && p in ps
    ensures i < |nodes| && IsPrimary(nodes[i]) && nodes[i].id == p.id
  {
    assert p in multiset(ps);
    CollectMember(InfoOf, nodes, p);
    i :| i < |nodes| && InfoOf(nodes[i]) == Some(p);
  }

  lemma GrantsReach(nodes: seq<ClusterNode>, ps: seq<PrimaryInfo>, grants: seq<Grant>, s: int)
    requires DistinctIds(nodes) && SortedPrimaries(nodes, ps)
    requires forall k | 0 <= k < |grants| :: grants[k].primary in ps
    ensures Sum(RowSum(Gives(s), grants), nodes) == Sum(GrantHas(s), grants)
  {
    SumSwap(Gives(s), nodes, grants);
    forall k | 0 <= k < |grants| ensures RowSum(Flip(Gives(s)), nodes)(grants[k]) == GrantHas(s)(grants[k]) {
      var i := ListedPrimary(nodes, ps, grants[k].primary);
      GrantReachesOne(nodes, grants[k], i, s);
    }
    SumSame(RowSum(Flip(Gives(s)), nodes), GrantHas(s), grants);
  }

  function Equals(s: int): int -> int {
    (x: int) => if x == s then 1 else 0
  }

  function Occurrences(s: int): Grant -> int {
    (g: Grant) => Sum(Equals(s), g.slots)
  }

  lemma OccursOnce(xs: seq<int>, s: int)
    requires NoRepeats(xs)
    ensures Sum(Equals(s), xs) == if s in xs then 1 else 0
  {
    SumNonNegative(Equals(s), xs);
    SumOnce(Equals(s), xs, s);
    if s in xs {
      var i :| 0 <= i < |xs| && xs[i] == s;
      assert Equals(s)(xs[i]) == 1;
    } else {
      SumZero(Equals(s), xs);
    }
  }

  lemma OccursIfPresent(xs: seq<int>, s: int)
    ensures Sum(Equals(s), xs) >= 0 && (Sum(Equals(s), xs) >= 1 <==> s in xs)
  {
    SumNonNegative(Equals(s), xs);
    if s in xs {
      var i :| 0 <= i < |xs| && xs[i] == s;
      assert Equals(s)(xs[i]) == 1;
    } else {
      SumZero(Equals(s), xs);
    }
  }

  /** Without repeats, as many grants hold a slot as it is given out. */
  lemma GrantsOnce(grants: seq<Grant>, s: int)
    requires NoRepeats(Given(grants))
    ensures Sum(GrantHas(s), grants) == if s in Given(grants) then 1 else 0
  {
    SumFlatten(Equals(s), SlotsOf, Occurrences(s), grants);
    OccursOnce(Given(grants), s);
    forall k | 0 <= k < |grants| ensures Occurrences(s)(grants[k]) >= 0 {
      OccursIfPresent(grants[k].slots, s);
    }
    SumNonNegative(Occurrences(s), grants);
    forall k | 0 <= k < |grants| ensures Occurrences(s)(grants[k]) == GrantHas(s)(grants[k]) {
      OccursIfPresent(grants[k].slots, s);
    }
    SumSame(Occurrences(s), GrantHas(s), grants);
  }

  lemma ExtendedReadable(nodes: seq<ClusterNode>, after: seq<ClusterNode>, grants: seq<Grant>)
    requires AllExtended(nodes, after, grants)
    ensures PrimaryRanges(after).Some?
  {
    assert forall i | 0 <= i < |after| :: Extended(nodes[i], after[i], grants);
  }

  /**
   From consistent slot columns, once every grant of the plan was accepted and took effect, every slot has exactly
   one owner: the coverage check passes.
   */
  lemma FillCovers(nodes: seq<ClusterNode>, ps: seq<PrimaryInfo>, replies: map<string, Reply>, grants: seq<Grant>,
                   after: seq<ClusterNode>)
    requires Consistent(nodes) && DistinctIds(nodes) && SortedPrimaries(nodes, ps)
    requires Carried(PlanFor(nodes, ps), replies, grants, Filled) && AllExtended(nodes, after, grants)
    ensures ExactCover(after)
  {
    assert grants == PlanFor(nodes, ps);
    FillCompletes(nodes, ps);
    ExtendedReadable(nodes, after, grants);
    forall s: int ensures Claims(PrimaryRanges(after).value, s) == Quota(s) {
      ClaimsBounds(PrimaryRanges(nodes).value, s);
      FilledOnce(nodes, ps, grants, after, s);
    }
  }

  lemma FilledOnce(nodes: seq<ClusterNode>, ps: seq<PrimaryInfo>, grants: seq<Grant>, after: seq<ClusterNode>, s: int)
    requires Consistent(nodes) && DistinctIds(nodes) && SortedPrimaries(nodes, ps)
    requires AllExtended(nodes, after, grants) && PrimaryRanges(after).Some?
    requires NoRepeats(Given(grants)) && forall k | 0 <= k < |grants| :: grants[k].primary in ps
    requires s in Given(grants) <==> 0 <= s < TOTAL_SLOTS && Claims(PrimaryRanges(nodes).value, s) == 0
    ensures Claims(PrimaryRanges(after).value, s) == Quota(s)
  {
    ClaimsByNode(after, s);
    ClaimsByNode(nodes, s);
    ExtendedClaims(nodes, after, grants, s);
    GrantsReach(nodes, ps, grants, s);
    GrantsOnce(grants, s);
    ClaimsBounds(PrimaryRanges(nodes).value, s);
  }
}
