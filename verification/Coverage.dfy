/**
 Slot coverage: the sort-and-sweep check of internal/health/checker.go and the bitmap check of
 internal/redis/client.go, both against "every slot has exactly one owner".
 */
module Coverage {
  import opened Lists
  import opened Tokens
  import opened SlotRanges
  import opened ClusterView

  // ----- What it means to cover the slots -----

  function RangesIfPrimary(node: ClusterNode): (r: Option<seq<SlotRange>>)
    ensures r.Some? ==> WellFormed(r.value)
  {
    if IsPrimary(node) then Ranges(node.slots) else Some([])
  }

  /** The ranges of all primaries, or nothing if the slot column of one of them cannot be read. */
  function PrimaryRanges(nodes: seq<ClusterNode>): Option<seq<SlotRange>> {
    Gather(RangesIfPrimary, nodes)
  }

  function Holds(s: int): SlotRange -> int {
    (r: SlotRange) => if r.start <= s <= r.end then 1 else 0
  }

  /** How many of the ranges hold slot `s`. */
  function Claims(ranges: seq<SlotRange>, s: int): int {
    Sum(Holds(s), ranges)
  }

  ghost predicate ExactlyOnce(ranges: seq<SlotRange>) {
    forall s: int {:trigger Claims(ranges, s)} :: Claims(ranges, s) == if 0 <= s < TOTAL_SLOTS then 1 else 0
  }

  /** Every slot is held exactly once, and nothing outside the slot space is held. */
  ghost predicate ExactCover(nodes: seq<ClusterNode>) {
    PrimaryRanges(nodes).Some? && ExactlyOnce(PrimaryRanges(nodes).value)
  }

  lemma PrimaryRangesWellFormed(nodes: seq<ClusterNode>)
    requires PrimaryRanges(nodes).Some?
    ensures WellFormed(PrimaryRanges(nodes).value)
  {
    var ranges := PrimaryRanges(nodes).value;
    forall k | 0 <= k < |ranges| ensures 0 <= ranges[k].start <= ranges[k].end <= MAX_INT {
      GatherMember(RangesIfPrimary, nodes, ranges[k]);
      var i :| 0 <= i < |nodes| && ranges[k] in RangesIfPrimary(nodes[i]).value;
    }
  }

  lemma ClaimsBounds(ranges: seq<SlotRange>, s: int)
    ensures Claims(ranges, s) >= 0
    ensures forall i | 0 <= i < |ranges| && ranges[i].start <= s <= ranges[i].end :: Claims(ranges, s) >= 1
    ensures Claims(ranges, s) >= 1 ==> exists i | 0 <= i < |ranges| :: ranges[i].start <= s <= ranges[i].end
  {
    SumNonNegative(Holds(s), ranges);
    if Claims(ranges, s) >= 1 {
      SumPositive(Holds(s), ranges);
    }
  }

  // ----- The sweep -----

  predicate Before(a: SlotRange, b: SlotRange) {
    a.start < b.start || (a.start == b.start && a.end <= b.end)
  }

  ghost predicate Sorted(ranges: seq<SlotRange>) {
    InOrder(Before, ranges)
  }

  /** By start and then by end. */
  method SortRanges(ranges: seq<SlotRange>) returns (sorted: seq<SlotRange>)
    ensures Sorted(sorted) && multiset(sorted) == multiset(ranges)
  {
    SortSorts(Before, ranges);
    sorted := Sort(Before, ranges);
  }

  function EndOf(ranges: seq<SlotRange>, i: nat): int
    requires i <= |ranges|
  {
    if i == 0 then -1 else ranges[i - 1].end
  }

  /** The first `i` ranges follow one another without gap or overlap, from slot 0 on. */
  ghost predicate Tiles(ranges: seq<SlotRange>, i: nat)
    requires i <= |ranges|
  {
    forall k {:trigger EndOf(ranges, k)} | 0 <= k < i :: ranges[k].start == EndOf(ranges, k) + 1
  }

  lemma {:induction false} TilesClaims(ranges: seq<SlotRange>, i: nat, s: int)
    requires i <= |ranges| && WellFormed(ranges) && Tiles(ranges, i)
    ensures Claims(ranges[..i], s) == if 0 <= s <= EndOf(ranges, i) then 1 else 0
    ensures EndOf(ranges, i) >= -1
  {
    if i > 0 {
      TilesClaims(ranges, i - 1, s);
      SumSnoc(Holds(s), ranges[..i - 1], ranges[i - 1]);
      assert ranges[..i] == ranges[..i - 1] + [ranges[i - 1]];
    } else {
      assert ranges[..0] == [];
    }
  }

  lemma ClaimsSplit(ranges: seq<SlotRange>, i: nat, s: int)
    requires i <= |ranges|
    ensures Claims(ranges, s) == Claims(ranges[..i], s) + Claims(ranges[i..], s)
  {
    SumAppend(Holds(s), ranges[..i], ranges[i..]);
    assert ranges == ranges[..i] + ranges[i..];
  }

  /** Where ranges cover every slot exactly once, the next range in sorted order starts right after the last. */
  lemma NextStart(ranges: seq<SlotRange>, i: nat)
    requires i < |ranges| && WellFormed(ranges) && Sorted(ranges) && ExactlyOnce(ranges) && Tiles(ranges, i)
    ensures ranges[i].start == EndOf(ranges, i) + 1
  {
    var e, start, rest := EndOf(ranges, i), ranges[i].start, ranges[i..];
    TilesClaims(ranges, i, start);
    ClaimsSplit(ranges, i, start);
    ClaimsBounds(rest, start);
    assert rest[0].start <= start <= rest[0].end;
    forall k | 0 <= k < |rest| ensures rest[k].start >= start {
      assert rest[k] == ranges[i + k];
    }
    TilesClaims(ranges, i, e + 1);
    ClaimsSplit(ranges, i, e + 1);
    ClaimsBounds(rest, e + 1);
  }

  lemma {:induction false} ExactTiles(ranges: seq<SlotRange>, i: nat)
    requires i <= |ranges| && WellFormed(ranges) && Sorted(ranges) && ExactlyOnce(ranges)
    ensures Tiles(ranges, i)
  {
    if i > 0 {
      ExactTiles(ranges, i - 1);
      NextStart(ranges, i - 1);
    }
  }

  lemma TilesIffExact(ranges: seq<SlotRange>)
    requires WellFormed(ranges) && Sorted(ranges)
    ensures ExactlyOnce(ranges) <==> Tiles(ranges, |ranges|) && EndOf(ranges, |ranges|) == TOTAL_SLOTS - 1
  {
    var n := |ranges|;
    assert ranges[..n] == ranges;
    if Tiles(ranges, n) && EndOf(ranges, n) == TOTAL_SLOTS - 1 {
      forall s: int ensures Claims(ranges, s) == if 0 <= s < TOTAL_SLOTS then 1 else 0 {
        TilesClaims(ranges, n, s);
      }
    }
    if ExactlyOnce(ranges) {
      ExactTiles(ranges, n);
      TilesClaims(ranges, n, TOTAL_SLOTS - 1);
      TilesClaims(ranges, n, TOTAL_SLOTS);
    }
  }

  lemma ExactlyOncePermuted(a: seq<SlotRange>, b: seq<SlotRange>)
    requires multiset(a) == multiset(b)
    ensures ExactlyOnce(a) <==> ExactlyOnce(b)
  {
    forall s: int ensures Claims(a, s) == Claims(b, s) {
      SumPermuted(Holds(s), a, b);
    }
  }

  lemma WellFormedPermuted(a: seq<SlotRange>, b: seq<SlotRange>)
    requires multiset(a) == multiset(b) && WellFormed(a)
    ensures WellFormed(b)
  {
    forall i | 0 <= i < |b| ensures 0 <= b[i].start <= b[i].end <= MAX_INT {
      assert b[i] in multiset(a);
    }
  }

  method GatherRanges(nodes: seq<ClusterNode>) returns (ranges: Option<seq<SlotRange>>)
    ensures ranges == PrimaryRanges(nodes)
  {
    var found: seq<SlotRange> := [];
    assert nodes[..0] == [];
    for i := 0 to |nodes|
      invariant PrimaryRanges(nodes[..i]) == Some(found)
    {
      var init := nodes[..i + 1];
      assert init[..i] == nodes[..i];
      if !IsPrimary(nodes[i]) {
        assert found + [] == found;
        continue;
      }
      var parsed := ParseSlotRanges(nodes[i].slots);
      match parsed {
        case None => return None;
        case Some(more) => found := found + more;
      }
    }
    assert nodes[..|nodes|] == nodes;
    return Some(found);
  }

  /** The health check's coverage test is true exactly when every slot has exactly one owner. */
  method SlotsCovered(nodes: seq<ClusterNode>) returns (ok: bool)
    ensures ok <==> ExactCover(nodes)
  {
    var gathered := GatherRanges(nodes);
    if gathered.None? {
      return false;
    }
    var ranges := gathered.value;
    PrimaryRangesWellFormed(nodes);
    if |ranges| == 0 {
      assert Claims(ranges, 0) == 0;
      return false;
    }
    var sorted := SortRanges(ranges);
    WellFormedPermuted(ranges, sorted);
    ExactlyOncePermuted(ranges, sorted);
    TilesIffExact(sorted);
    assert |sorted| == |multiset(sorted)| == |ranges|;
    if sorted[0].start != 0 {
      return false;
    }
    var currentEnd := -1;
    for i := 0 to |sorted|
      invariant Tiles(sorted, i) && currentEnd == EndOf(sorted, i)
    {
      if sorted[i].start <= currentEnd {
        return false;
      }
      if sorted[i].start != currentEnd + 1 {
        return false;
      }
      currentEnd := sorted[i].end;
    }
    return currentEnd == TOTAL_SLOTS - 1;
  }

  // ----- The bitmap -----

  ghost predicate InSome(ranges: seq<SlotRange>, s: int) {
    exists k | 0 <= k < |ranges| :: ranges[k].start <= s <= ranges[k].end
  }

  /** The token is readable, is not a marker, and names slot `s`. */
  ghost predicate TokenNames(t: string, s: int) {
    t != "" && t[0] != '[' && Ranges(t).Some? && InSome(Ranges(t).value, s)
  }

  ghost predicate NamedBy(tokens: seq<string>, s: int) {
    exists j | 0 <= j < |tokens| :: TokenNames(tokens[j], s)
  }

  /** Slot `s` is named in the slot column of some primary. */
  ghost predicate Owned(nodes: seq<ClusterNode>, s: int) {
    exists i | 0 <= i < |nodes| :: PrimaryNames(nodes[i], s)
  }

  ghost predicate PrimaryNames(node: ClusterNode, s: int) {
    IsPrimary(node) && NamedBy(Fields(node.slots, IsSpace), s)
  }

  lemma InSomeSnoc(ranges: seq<SlotRange>, k: nat)
    requires k < |ranges|
    ensures forall s :: InSome(ranges[..k + 1], s) <==>
                        InSome(ranges[..k], s) || ranges[k].start <= s <= ranges[k].end
  {
    forall s ensures InSome(ranges[..k + 1], s) <==>
                     InSome(ranges[..k], s) || ranges[k].start <= s <= ranges[k].end
    {
      assert forall j | 0 <= j < k :: ranges[..k + 1][j] == ranges[..k][j];
      assert ranges[..k + 1][k] == ranges[k];
    }
  }

  lemma NamedBySnoc(tokens: seq<string>, j: nat)
    requires j < |tokens|
    ensures forall s :: NamedBy(tokens[..j + 1], s) <==> NamedBy(tokens[..j], s) || TokenNames(tokens[j], s)
  {
    forall s ensures NamedBy(tokens[..j + 1], s) <==> NamedBy(tokens[..j], s) || TokenNames(tokens[j], s) {
      assert forall k | 0 <= k < j :: tokens[..j + 1][k] == tokens[..j][k];
      assert tokens[..j + 1][j] == tokens[j];
    }
  }

  method MarkRange(covered: array<bool>, r: SlotRange)
    requires covered.Length == TOTAL_SLOTS
    modifies covered
    ensures forall s | 0 <= s < TOTAL_SLOTS :: covered[s] == (old(covered[s]) || r.start <= s <= r.end)
  {
    var s := r.start;
    while s <= r.end && s < TOTAL_SLOTS
      invariant r.start <= s
      invariant forall t | 0 <= t < TOTAL_SLOTS ::
                  covered[t] == (old(covered[t]) || (r.start <= t <= r.end && t < s))
      decreases TOTAL_SLOTS - s
    {
      if s >= 0 {
        covered[s] := true;
      }
      s := s + 1;
    }
  }

  method MarkRanges(covered: array<bool>, ranges: seq<SlotRange>)
    requires covered.Length == TOTAL_SLOTS
    modifies covered
    ensures forall s | 0 <= s < TOTAL_SLOTS :: covered[s] == (old(covered[s]) || InSome(ranges, s))
  {
    for k := 0 to |ranges|
      invariant forall s | 0 <= s < TOTAL_SLOTS :: covered[s] == (old(covered[s]) || InSome(ranges[..k], s))
    {
      InSomeSnoc(ranges, k);
      MarkRange(covered, ranges[k]);
    }
    assert ranges[..|ranges|] == ranges;
  }

  method MarkToken(covered: array<bool>, token: string)
    requires covered.Length == TOTAL_SLOTS && token != ""
    modifies covered
    ensures forall s | 0 <= s < TOTAL_SLOTS :: covered[s] == (old(covered[s]) || TokenNames(token, s))
  {
    if token[0] == '[' {
      return;
    }
    var parsed := ParseSlotRanges(token);
    if parsed.None? {
      return;
    }
    MarkRanges(covered, parsed.value);
  }

  /** The bitmap after the given tokens. */
  ghost predicate MarkedBy(now: seq<bool>, start: seq<bool>, tokens: seq<string>) {
    |now| == |start| && forall s | 0 <= s < |now| :: now[s] == (start[s] || NamedBy(tokens, s))
  }

  lemma MarkedNext(start: seq<bool>, before: seq<bool>, now: seq<bool>, tokens: seq<string>, j: nat)
    requires j < |tokens| && MarkedBy(before, start, tokens[..j]) && |now| == |before|
    requires forall s | 0 <= s < |now| :: now[s] == (before[s] || TokenNames(tokens[j], s))
    ensures MarkedBy(now, start, tokens[..j + 1])
  {
    NamedBySnoc(tokens, j);
  }

  method MarkTokens(covered: array<bool>, tokens: seq<string>)
    requires covered.Length == TOTAL_SLOTS
    requires forall j | 0 <= j < |tokens| :: tokens[j] != ""
    modifies covered
    ensures forall s | 0 <= s < TOTAL_SLOTS :: covered[s] == (old(covered[s]) || NamedBy(tokens, s))
  {
    for j := 0 to |tokens|
      invariant MarkedBy(covered[..], old(covered[..]), tokens[..j])
    {
      ghost var before := covered[..];
      MarkToken(covered, tokens[j]);
      MarkedNext(old(covered[..]), before, covered[..], tokens, j);
    }
    assert tokens[..|tokens|] == tokens;
  }

  method MarkNode(covered: array<bool>, node: ClusterNode)
    requires covered.Length == TOTAL_SLOTS
    modifies covered
    ensures forall s | 0 <= s < TOTAL_SLOTS :: covered[s] == (old(covered[s]) || PrimaryNames(node, s))
  {
    if !IsPrimary(node) {
      return;
    }
    SplitTokensClean(node.slots, IsSpace, "");
    MarkTokens(covered, Fields(node.slots, IsSpace));
  }

  /** The rebalance guard's coverage test is true exactly when every slot is named by some primary. */
  method SlotsFullyCovered(nodes: seq<ClusterNode>) returns (full: bool)
    ensures full <==> forall s | 0 <= s < TOTAL_SLOTS :: Owned(nodes, s)
  {
    var covered := new bool[TOTAL_SLOTS](i => false);
    for i := 0 to |nodes|
      invariant forall s | 0 <= s < TOTAL_SLOTS :: covered[s] == Owned(nodes[..i], s)
    {
      OwnedSnoc(nodes, i);
      MarkNode(covered, nodes[i]);
    }
    assert nodes[..|nodes|] == nodes;
    assert forall s | 0 <= s < TOTAL_SLOTS :: covered[s] == Owned(nodes, s);
    full := AllMarked(covered);
    if full {
      forall s | 0 <= s < TOTAL_SLOTS ensures Owned(nodes, s) {
        assert covered[s];
      }
    }
  }

  method AllMarked(covered: array<bool>) returns (all: bool)
    ensures all <==> forall s | 0 <= s < covered.Length :: covered[s]
  {
    for s := 0 to covered.Length
      invariant forall t | 0 <= t < s :: covered[t]
    {
      if !covered[s] {
        return false;
      }
    }
    return true;
  }

  lemma OwnedSnoc(nodes: seq<ClusterNode>, i: nat)
    requires i < |nodes|
    ensures forall s :: Owned(nodes[..i + 1], s) <==>
              Owned(nodes[..i], s) || PrimaryNames(nodes[i], s)
  {
    assert forall k | 0 <= k < i :: nodes[..i + 1][k] == nodes[..i][k];
    assert nodes[..i + 1][i] == nodes[i];
  }

  // ----- The two tests compared -----

  lemma FineTokens(slots: string, u: string)
    ensures u in Fields(slots, IsSlotSeparator) <==>
            exists j | 0 <= j < |Fields(slots, IsSpace)| :: u in Fields(Fields(slots, IsSpace)[j], IsSlotSeparator)
  {
    var coarse := Fields(slots, IsSpace);
    var each := Map(t => Fields(t, IsSlotSeparator), coarse);
    RefineFields(slots, IsSpace, IsSlotSeparator, "");
    assert "" + slots == slots;
    FlattenMember(each, u);
    assert forall j | 0 <= j < |coarse| :: each[j] == Fields(coarse[j], IsSlotSeparator);
  }

  lemma CoarseTokenReads(slots: string, j: nat)
    requires Ranges(slots).Some? && j < |Fields(slots, IsSpace)|
    ensures Fields(slots, IsSpace)[j] != "" && Fields(slots, IsSpace)[j][0] != '['
    ensures Ranges(Fields(slots, IsSpace)[j]).Some?
  {
    var t := Fields(slots, IsSpace)[j];
    var fine := Fields(t, IsSlotSeparator);
    SplitTokensClean(slots, IsSpace, "");
    forall i | 0 <= i < |fine| ensures ParseSlotToken(fine[i]).Some? {
      FineTokens(slots, fine[i]);
      var m :| 0 <= m < |Fields(slots, IsSlotSeparator)| && Fields(slots, IsSlotSeparator)[m] == fine[i];
    }
    if t[0] == '[' {
      BracketUnread(t);
    }
  }

  /** The `m`-th range comes from the `m`-th token. */
  lemma TokenOfRange(slots: string, m: nat)
    requires Ranges(slots).Some?
    ensures |Ranges(slots).value| == |Fields(slots, IsSlotSeparator)|
    ensures m < |Ranges(slots).value| ==>
              ParseSlotToken(Fields(slots, IsSlotSeparator)[m]) == Some(Ranges(slots).value[m])
  {}

  lemma HeldIsNamed(slots: string, s: int, m: nat)
    requires Ranges(slots).Some? && m < |Ranges(slots).value|
    requires Ranges(slots).value[m].start <= s <= Ranges(slots).value[m].end
    ensures NamedBy(Fields(slots, IsSpace), s)
  {
    TokenOfRange(slots, m);
    var coarse, u := Fields(slots, IsSpace), Fields(slots, IsSlotSeparator)[m];
    FineTokens(slots, u);
    var j :| 0 <= j < |coarse| && u in Fields(coarse[j], IsSlotSeparator);
    CoarseTokenReads(slots, j);
    var k :| 0 <= k < |Fields(coarse[j], IsSlotSeparator)| && Fields(coarse[j], IsSlotSeparator)[k] == u;
    TokenOfRange(coarse[j], k);
    assert Ranges(coarse[j]).value[k] == Ranges(slots).value[m];
    assert InSome(Ranges(coarse[j]).value, s);
  }

  lemma NamedIsHeld(slots: string, s: int, j: nat)
    requires Ranges(slots).Some? && j < |Fields(slots, IsSpace)| && TokenNames(Fields(slots, IsSpace)[j], s)
    ensures InSome(Ranges(slots).value, s)
  {
    var t, fine := Fields(slots, IsSpace)[j], Fields(slots, IsSlotSeparator);
    var k :| 0 <= k < |Ranges(t).value| && Ranges(t).value[k].start <= s <= Ranges(t).value[k].end;
    TokenOfRange(t, k);
    var u := Fields(t, IsSlotSeparator)[k];
    FineTokens(slots, u);
    var m :| 0 <= m < |fine| && fine[m] == u;
    TokenOfRange(slots, m);
    assert Ranges(slots).value[m] == Ranges(t).value[k];
  }

  lemma NamedIffHeld(slots: string, s: int)
    requires Ranges(slots).Some?
    ensures NamedBy(Fields(slots, IsSpace), s) <==> InSome(Ranges(slots).value, s)
  {
    var ranges, coarse := Ranges(slots).value, Fields(slots, IsSpace);
    if InSome(ranges, s) {
      var m :| 0 <= m < |ranges| && ranges[m].start <= s <= ranges[m].end;
      HeldIsNamed(slots, s, m);
    }
    if NamedBy(coarse, s) {
      var j :| 0 <= j < |coarse| && TokenNames(coarse[j], s);
      NamedIsHeld(slots, s, j);
    }
  }

  lemma ClaimedIffHeldBySome(nodes: seq<ClusterNode>, s: int)
    requires PrimaryRanges(nodes).Some?
    ensures Claims(PrimaryRanges(nodes).value, s) >= 1 <==>
            exists i | 0 <= i < |nodes| :: InSome(RangesIfPrimary(nodes[i]).value, s)
  {
    var ranges := PrimaryRanges(nodes).value;
    ClaimsBounds(ranges, s);
    if i: nat :| i < |nodes| && InSome(RangesIfPrimary(nodes[i]).value, s) {
      var mine := RangesIfPrimary(nodes[i]).value;
      var k :| 0 <= k < |mine| && mine[k].start <= s <= mine[k].end;
      GatherMember(RangesIfPrimary, nodes, mine[k]);
    }
    if Claims(ranges, s) >= 1 {
      var k :| 0 <= k < |ranges| && ranges[k].start <= s <= ranges[k].end;
      GatherMember(RangesIfPrimary, nodes, ranges[k]);
    }
  }

  lemma OwnedIffClaimed(nodes: seq<ClusterNode>, s: int)
    requires PrimaryRanges(nodes).Some?
    ensures Owned(nodes, s) <==> Claims(PrimaryRanges(nodes).value, s) >= 1
  {
    ClaimedIffHeldBySome(nodes, s);
    forall i | 0 <= i < |nodes|
      ensures InSome(RangesIfPrimary(nodes[i]).value, s) <==>
              PrimaryNames(nodes[i], s)
    {
      if IsPrimary(nodes[i]) {
        NamedIffHeld(nodes[i].slots, s);
      }
    }
  }

  // Counting by range and counting by slot give the same total.

  function ClaimsBelow(ranges: seq<SlotRange>, m: nat): int {
    if m == 0 then 0 else ClaimsBelow(ranges, m - 1) + Claims(ranges, m - 1)
  }

  lemma {:induction false} ClaimsBelowCons(r: SlotRange, rest: seq<SlotRange>, m: nat)
    requires 0 <= r.start <= r.end
    ensures ClaimsBelow([r] + rest, m) ==
            ClaimsBelow(rest, m) + (if m <= r.start then 0 else if m <= r.end then m - r.start else Size(r))
  {
    if m > 0 {
      ClaimsBelowCons(r, rest, m - 1);
      assert ([r] + rest)[1..] == rest;
    }
  }

  lemma {:induction false} ClaimsBelowEmpty(m: nat)
    ensures ClaimsBelow([], m) == 0
  {
    if m > 0 {
      ClaimsBelowEmpty(m - 1);
    }
  }

  lemma {:induction false} ClaimsBelowTotal(ranges: seq<SlotRange>, m: nat)
    requires WellFormed(ranges) && forall i | 0 <= i < |ranges| :: ranges[i].end < m
    ensures ClaimsBelow(ranges, m) == Total(ranges)
  {
    if ranges == [] {
      ClaimsBelowEmpty(m);
    } else {
      assert ranges == [ranges[0]] + ranges[1..];
      ClaimsBelowCons(ranges[0], ranges[1..], m);
      ClaimsBelowTotal(ranges[1..], m);
    }
  }

  function Quota(s: int): int {
    if 0 <= s < TOTAL_SLOTS then 1 else 0
  }

  /** Where every slot has at least its quota, one extra claim anywhere shows in the total. */
  lemma {:induction false} ExtraClaimShows(ranges: seq<SlotRange>, m: nat, t: int)
    requires forall s | 0 <= s < m :: Claims(ranges, s) >= Quota(s)
    ensures ClaimsBelow(ranges, m) >= if m < TOTAL_SLOTS then m else TOTAL_SLOTS
    ensures 0 <= t < m && Claims(ranges, t) > Quota(t) ==>
              ClaimsBelow(ranges, m) > if m < TOTAL_SLOTS then m else TOTAL_SLOTS
  {
    if m > 0 {
      ExtraClaimShows(ranges, m - 1, t);
    }
  }

  lemma {:induction false} ExactClaimsBelow(ranges: seq<SlotRange>, m: nat)
    requires ExactlyOnce(ranges)
    ensures ClaimsBelow(ranges, m) == if m < TOTAL_SLOTS then m else TOTAL_SLOTS
  {
    if m > 0 {
      ExactClaimsBelow(ranges, m - 1);
    }
  }

  lemma ExactIffFullAndCounted(ranges: seq<SlotRange>, m: nat)
    requires WellFormed(ranges) && m >= TOTAL_SLOTS && forall i | 0 <= i < |ranges| :: ranges[i].end < m
    ensures ExactlyOnce(ranges) <==>
            Total(ranges) == TOTAL_SLOTS && forall s | 0 <= s < TOTAL_SLOTS :: Claims(ranges, s) >= 1
  {
    ClaimsBelowTotal(ranges, m);
    if ExactlyOnce(ranges) {
      ExactClaimsBelow(ranges, m);
    }
    if Total(ranges) == TOTAL_SLOTS && forall s | 0 <= s < TOTAL_SLOTS :: Claims(ranges, s) >= 1 {
      forall s: int ensures Claims(ranges, s) >= Quota(s) && (!(0 <= s < m) ==> Claims(ranges, s) == 0) {
        ClaimsBounds(ranges, s);
      }
      forall t: int ensures Claims(ranges, t) == Quota(t) {
        ExtraClaimShows(ranges, m, t);
      }
    }
  }

  /**
   The sweep and the bitmap agree up to double ownership: slots are covered exactly once if and only
   if the slot columns of all primaries can be read, they list exactly as many slots as there are, and
   the bitmap is full.
   */
  lemma CoverageTestsAgree(nodes: seq<ClusterNode>)
    ensures ExactCover(nodes) <==>
            PrimaryRanges(nodes).Some? && Total(PrimaryRanges(nodes).value) == TOTAL_SLOTS &&
            forall s | 0 <= s < TOTAL_SLOTS :: Owned(nodes, s)
  {
    if PrimaryRanges(nodes).Some? {
      var ranges := PrimaryRanges(nodes).value;
      PrimaryRangesWellFormed(nodes);
      ExactIffFullAndCounted(ranges, MAX_INT + 1);
      forall s: int ensures Owned(nodes, s) <==> Claims(ranges, s) >= 1 {
        OwnedIffClaimed(nodes, s);
      }
    }
  }

  // ----- Coverage of rendered columns -----

  /** Some stable range of the column holds the slot; markers hold none. */
  ghost predicate StableHolds(items: seq<SlotItem>, s: int) {
    exists k | 0 <= k < |items| :: items[k].Stable? && items[k].range.start <= s <= items[k].range.end
  }

  ghost predicate AllValid(items: seq<SlotItem>) {
    forall k | 0 <= k < |items| :: ValidItem(items[k])
  }

  lemma SpacesSeparate(t: string)
    requires Clean(t, IsSlotSeparator)
    ensures Clean(t, IsSpace)
  {
    forall c <- t ensures !IsSpace(c) {
      assert !IsSlotSeparator(c);
    }
  }

  lemma RenderedPieces(items: seq<SlotItem>)
    requires AllValid(items)
    ensures Fields(Render(items), IsSpace) == Map(RenderItem, items)
  {
    var ts := Map(RenderItem, items);
    forall i | 0 <= i < |items| ensures ts[i] != "" && Clean(ts[i], IsSpace) {
      ItemReads(items[i]);
      SpacesSeparate(ts[i]);
    }
    FieldsOfJoin(ts, IsSpace);
  }

  lemma StableNames(t: string, r: SlotRange, s: int)
    requires t != "" && t[0] != '[' && Clean(t, IsSlotSeparator) && ParseSlotToken(t) == Some(r)
    ensures TokenNames(t, s) <==> r.start <= s <= r.end
  {
    SplitClean(t, IsSlotSeparator, "");
    assert "" + t == t;
    assert Fields(t, IsSlotSeparator) == [t];
    assert Ranges(t).Some? && Ranges(t).value == [r];
  }

  lemma ItemNames(item: SlotItem, s: int)
    requires ValidItem(item)
    ensures TokenNames(RenderItem(item), s) <==> item.Stable? && item.range.start <= s <= item.range.end
  {
    if item.Stable? {
      RangeReads(item.range);
      StableNames(RenderItem(item), item.range, s);
    } else {
      MarkerItemReads(item);
    }
  }

  /** A rendered column names exactly the slots of its stable ranges. */
  lemma ColumnNames(items: seq<SlotItem>, s: int)
    requires AllValid(items)
    ensures NamedBy(Fields(Render(items), IsSpace), s) <==> StableHolds(items, s)
  {
    RenderedPieces(items);
    forall k | 0 <= k < |items|
      ensures TokenNames(Map(RenderItem, items)[k], s) <==>
              items[k].Stable? && items[k].range.start <= s <= items[k].range.end
    {
      ItemNames(items[k], s);
    }
  }

  /** The slot columns of all primaries are these lists of ranges and markers, written out. */
  ghost predicate Written(nodes: seq<ClusterNode>, columns: seq<seq<SlotItem>>) {
    |columns| == |nodes| &&
    forall i | 0 <= i < |nodes| && Master in nodes[i].flags :: AllValid(columns[i]) && nodes[i].slots == Render(columns[i])
  }

  ghost predicate StablyOwned(nodes: seq<ClusterNode>, columns: seq<seq<SlotItem>>, s: int)
    requires |columns| == |nodes|
  {
    exists i | 0 <= i < |nodes| :: Master in nodes[i].flags && StableHolds(columns[i], s)
  }

  /** The bitmap marks exactly the slots in stable ranges of primaries; a slot in flight to one does not count. */
  lemma OnlyStableCounts(nodes: seq<ClusterNode>, columns: seq<seq<SlotItem>>, s: int)
    requires Written(nodes, columns)
    ensures Owned(nodes, s) <==> StablyOwned(nodes, columns, s)
  {
    forall i | 0 <= i < |nodes| && Master in nodes[i].flags
      ensures PrimaryNames(nodes[i], s) <==> StableHolds(columns[i], s)
    {
      ColumnNames(columns[i], s);
    }
  }

  /** So the bitmap check asks exactly that every slot lies in a stable range of some primary. */
  lemma FullMeansStable(nodes: seq<ClusterNode>, columns: seq<seq<SlotItem>>)
    requires Written(nodes, columns)
    ensures (forall s | 0 <= s < TOTAL_SLOTS :: Owned(nodes, s)) <==>
            (forall s | 0 <= s < TOTAL_SLOTS :: StablyOwned(nodes, columns, s))
  {
    forall s | 0 <= s < TOTAL_SLOTS ensures Owned(nodes, s) <==> StablyOwned(nodes, columns, s) {
      OnlyStableCounts(nodes, columns, s);
    }
  }

  /** The sweep fails as soon as some primary shows a slot in flight. */
  lemma MarkerFailsSweep(nodes: seq<ClusterNode>, columns: seq<seq<SlotItem>>, i: nat, k: nat)
    requires Written(nodes, columns) && i < |nodes| && Master in nodes[i].flags
    requires k < |columns[i]| && !columns[i][k].Stable?
    ensures !ExactCover(nodes)
  {
    RenderedRanges(columns[i]);
    assert RangesIfPrimary(nodes[i]).None?;
  }

  /** A token with any piece that cannot be read names no slot at all. */
  lemma MalformedNamesNothing(t: string, u: string, s: int)
    requires u in Fields(t, IsSlotSeparator) && ParseSlotToken(u).None?
    ensures !TokenNames(t, s)
  {
    var us := Fields(t, IsSlotSeparator);
    var i: nat :| i < |us| && us[i] == u;
    assert ParseSlotToken(us[i]).None?;
  }
}
