/**
 The two ways in which Robin settles who owns a slot when the nodes' views differ, both in
 internal/reconciler/health_reconciler.go: a one-pass vote over disputed slots, and a full tally.
 */
module OwnerDisputes {
  import opened ClusterView
  import opened Lists
  import opened SlotRanges

  /** A primary's claim to a slot, as one view shows it. */
  datatype Claim = Claim(id: string, epoch: int)

  datatype Candidate = Candidate(id: string, epoch: int, votes: int)

  datatype SlotFix = SlotFix(slot: int, owner: string)

  /** What one node answered to CLUSTER NODES, if it did. */
  type View = Option<seq<ClusterNode>>

  // ----- The claims to a slot, in query order -----

  function ClaimIn(node: ClusterNode, s: int): SlotRange -> Option<Claim> {
    (r: SlotRange) => if r.start <= s <= r.end then Some(Claim(node.id, node.epoch)) else None
  }

  function RangesOf(node: ClusterNode): seq<SlotRange> {
    if IsPrimary(node) then
      match Ranges(node.slots)
      case Some(ranges) => ranges
      case None => []
    else []
  }

  function NodeClaims(node: ClusterNode, s: int): seq<Claim> {
    Collect(ClaimIn(node, s), RangesOf(node))
  }

  function NodeClaimsTo(s: int): ClusterNode -> seq<Claim> {
    (node: ClusterNode) => NodeClaims(node, s)
  }

  function ListClaims(nodes: seq<ClusterNode>, s: int): seq<Claim> {
    FlatMap(NodeClaimsTo(s), nodes)
  }

  function ViewClaims(view: View, s: int): seq<Claim> {
    match view
    case Some(nodes) => ListClaims(nodes, s)
    case None => []
  }

  function ViewClaimsTo(s: int): View -> seq<Claim> {
    (view: View) => ViewClaims(view, s)
  }

  function AllClaims(views: seq<View>, s: int): seq<Claim> {
    FlatMap(ViewClaimsTo(s), views)
  }

  lemma ListClaimsNext(nodes: seq<ClusterNode>, i: nat, s: int)
    requires i < |nodes|
    ensures ListClaims(nodes[..i + 1], s) == ListClaims(nodes[..i], s) + NodeClaims(nodes[i], s)
  {
    FlatMapNext(NodeClaimsTo(s), nodes, i);
  }

  lemma AllClaimsNext(views: seq<View>, i: nat, s: int)
    requires i < |views|
    ensures AllClaims(views[..i + 1], s) == AllClaims(views[..i], s) + ViewClaims(views[i], s)
  {
    FlatMapNext(ViewClaimsTo(s), views, i);
  }

  // ----- The one-pass vote -----

  /** The best candidate after one more claim. */
  function Vote(best: Option<Candidate>, c: Claim): Option<Candidate> {
    match best
    case None => Some(Candidate(c.id, c.epoch, 1))
    case Some(b) =>
      if c.id == b.id then Some(Candidate(b.id, if c.epoch > b.epoch then c.epoch else b.epoch, b.votes + 1))
      else if c.epoch > b.epoch || (c.epoch == b.epoch && 1 > b.votes) then Some(Candidate(c.id, c.epoch, 1))
      else best
  }

  function Elect(best: Option<Candidate>, claims: seq<Claim>): Option<Candidate> {
    if claims == [] then best else Vote(Elect(best, claims[..|claims| - 1]), claims[|claims| - 1])
  }

  lemma {:induction false} ElectAppend(best: Option<Candidate>, a: seq<Claim>, b: seq<Claim>)
    ensures Elect(best, a + b) == Elect(Elect(best, a), b)
  {
    if b == [] {
      assert a + b == a;
    } else {
      ElectAppend(best, a, b[..|b| - 1]);
      assert (a + b)[..|a + b| - 1] == a + b[..|b| - 1];
    }
  }

  function Lookup(owners: map<int, Candidate>, s: int): Option<Candidate> {
    if s in owners then Some(owners[s]) else None
  }

  /** Every disputed slot's candidate has heard the given claims, and no other slot has one. */
  ghost predicate Heard(owners: map<int, Candidate>, disputed: set<int>, views: seq<View>) {
    forall s {:trigger Lookup(owners, s)} ::
      Lookup(owners, s) == if s in disputed then Elect(None, AllClaims(views, s)) else None
  }

  method VoteSlot(owners: map<int, Candidate>, slot: int, node: ClusterNode) returns (next: map<int, Candidate>)
    ensures forall s {:trigger Lookup(next, s)} :: Lookup(next, s) ==
              if s == slot then Vote(Lookup(owners, s), Claim(node.id, node.epoch)) else Lookup(owners, s)
  {
    if slot !in owners {
      return owners[slot := Candidate(node.id, node.epoch, 1)];
    }
    var existing := owners[slot];
    if node.id == existing.id {
      existing := existing.(votes := existing.votes + 1);
      if node.epoch > existing.epoch {
        existing := existing.(epoch := node.epoch);
      }
      return owners[slot := existing];
    }
    if node.epoch > existing.epoch || (node.epoch == existing.epoch && 1 > existing.votes) {
      return owners[slot := Candidate(node.id, node.epoch, 1)];
    }
    return owners;
  }

  method VoteRange(owners: map<int, Candidate>, disputed: set<int>, node: ClusterNode, r: SlotRange)
    returns (next: map<int, Candidate>)
    ensures forall s {:trigger Lookup(next, s)} :: Lookup(next, s) ==
              if s in disputed && r.start <= s <= r.end then Vote(Lookup(owners, s), Claim(node.id, node.epoch))
              else Lookup(owners, s)
  {
    next := owners;
    var slot := r.start;
    while slot <= r.end
      invariant r.start <= slot
      invariant forall s {:trigger Lookup(next, s)} :: Lookup(next, s) ==
                  if s in disputed && r.start <= s < slot then Vote(Lookup(owners, s), Claim(node.id, node.epoch))
                  else Lookup(owners, s)
      invariant slot <= r.end + 1 || slot == r.start
    {
      if slot in disputed {
        next := VoteSlot(next, slot, node);
      }
      slot := slot + 1;
    }
  }

  method VoteNode(owners: map<int, Candidate>, disputed: set<int>, node: ClusterNode)
    returns (next: map<int, Candidate>)
    ensures forall s {:trigger Lookup(next, s)} :: Lookup(next, s) ==
              if s in disputed then Elect(Lookup(owners, s), NodeClaims(node, s)) else Lookup(owners, s)
  {
    next := owners;
    if !IsPrimary(node) {
      return;
    }
    var parsed := ParseSlotRanges(node.slots);
    if parsed.None? {
      return;
    }
    var ranges := parsed.value;
    for k := 0 to |ranges|
      invariant forall s {:trigger Lookup(next, s)} :: Lookup(next, s) ==
                  if s in disputed then Elect(Lookup(owners, s), Collect(ClaimIn(node, s), ranges[..k]))
                  else Lookup(owners, s)
    {
      var before := next;
      next := VoteRange(next, disputed, node, ranges[k]);
      forall s
        ensures Lookup(next, s) ==
                if s in disputed then Elect(Lookup(owners, s), Collect(ClaimIn(node, s), ranges[..k + 1]))
                else Lookup(owners, s)
      {
        assert Lookup(before, s) == if s in disputed then Elect(Lookup(owners, s), Collect(ClaimIn(node, s), ranges[..k]))
                                    else Lookup(owners, s);
        ElectRange(Lookup(owners, s), node, s, ranges, k);
      }
    }
    assert ranges[..|ranges|] == ranges;
  }

  lemma ElectRange(best: Option<Candidate>, node: ClusterNode, s: int, ranges: seq<SlotRange>, k: nat)
    requires k < |ranges|
    ensures Elect(best, Collect(ClaimIn(node, s), ranges[..k + 1])) ==
            if ranges[k].start <= s <= ranges[k].end then
              Vote(Elect(best, Collect(ClaimIn(node, s), ranges[..k])), Claim(node.id, node.epoch))
            else Elect(best, Collect(ClaimIn(node, s), ranges[..k]))
  {
    CollectGrows(ClaimIn(node, s), ranges, k);
    var so := Collect(ClaimIn(node, s), ranges[..k]);
    assert (so + [Claim(node.id, node.epoch)])[..|so|] == so;
    assert so + [] == so;
  }

  method VoteView(owners: map<int, Candidate>, disputed: set<int>, nodes: seq<ClusterNode>)
    returns (next: map<int, Candidate>)
    ensures forall s {:trigger Lookup(next, s)} :: Lookup(next, s) ==
              if s in disputed then Elect(Lookup(owners, s), ListClaims(nodes, s)) else Lookup(owners, s)
  {
    next := owners;
    for i := 0 to |nodes|
      invariant forall s {:trigger Lookup(next, s)} :: Lookup(next, s) ==
                  if s in disputed then Elect(Lookup(owners, s), ListClaims(nodes[..i], s)) else Lookup(owners, s)
    {
      var before := next;
      next := VoteNode(next, disputed, nodes[i]);
      forall s
        ensures Lookup(next, s) ==
                if s in disputed then Elect(Lookup(owners, s), ListClaims(nodes[..i + 1], s)) else Lookup(owners, s)
      {
        assert Lookup(before, s) == if s in disputed then Elect(Lookup(owners, s), ListClaims(nodes[..i], s))
                                    else Lookup(owners, s);
        ListClaimsNext(nodes, i, s);
        ElectAppend(Lookup(owners, s), ListClaims(nodes[..i], s), NodeClaims(nodes[i], s));
      }
    }
    assert nodes[..|nodes|] == nodes;
  }

  method VoteAll(disputed: set<int>, views: seq<View>) returns (owners: map<int, Candidate>)
    ensures Heard(owners, disputed, views)
  {
    owners := map[];
    for i := 0 to |views|
      invariant Heard(owners, disputed, views[..i])
    {
      var before := owners;
      if views[i].Some? {
        owners := VoteView(owners, disputed, views[i].value);
      }
      HeardNext(before, owners, disputed, views, i);
    }
    assert views[..|views|] == views;
  }

  lemma HeardNext(owners: map<int, Candidate>, next: map<int, Candidate>, disputed: set<int>, views: seq<View>, i: nat)
    requires i < |views| && Heard(owners, disputed, views[..i])
    requires forall s {:trigger Lookup(next, s)} :: Lookup(next, s) ==
               if s in disputed then Elect(Lookup(owners, s), ViewClaims(views[i], s)) else Lookup(owners, s)
    ensures Heard(next, disputed, views[..i + 1])
  {
    forall s ensures Lookup(next, s) == if s in disputed then Elect(None, AllClaims(views[..i + 1], s)) else None {
      assert Lookup(owners, s) == if s in disputed then Elect(None, AllClaims(views[..i], s)) else None;
      AllClaimsNext(views, i, s);
      ElectAppend(None, AllClaims(views[..i], s), ViewClaims(views[i], s));
    }
  }

  // ----- Who wins the vote -----

  /** The first claim of the highest epoch. */
  function FirstMax(claims: seq<Claim>): (k: nat)
    requires claims != []
    ensures k < |claims| && (forall i | 0 <= i < |claims| :: claims[i].epoch <= claims[k].epoch)
    ensures forall i | 0 <= i < k :: claims[i].epoch < claims[k].epoch
  {
    var n := |claims| - 1;
    if n == 0 then 0
    else
      var k := FirstMax(claims[..n]);
      assert forall i | 0 <= i < n :: claims[..n][i] == claims[i];
      if claims[n].epoch > claims[k].epoch then n else k
  }

  /** The vote goes to the owner of the first claim of the highest epoch. */
  lemma {:induction false} VoteGoesToFirstMax(claims: seq<Claim>)
    ensures claims == [] ==> Elect(None, claims).None?
    ensures claims != [] ==>
              Elect(None, claims).Some? && Elect(None, claims).value.votes >= 1 &&
              Elect(None, claims).value.id == claims[FirstMax(claims)].id &&
              Elect(None, claims).value.epoch == claims[FirstMax(claims)].epoch
  {
    if claims != [] {
      VoteGoesToFirstMax(claims[..|claims| - 1]);
    }
  }

  // ----- The full tally -----

  type Tally = map<string, Candidate>

  function Add(tally: Tally, c: Claim): Tally {
    if c.id in tally then
      var t := tally[c.id];
      tally[c.id := Candidate(t.id, if c.epoch > t.epoch then c.epoch else t.epoch, t.votes + 1)]
    else tally[c.id := Candidate(c.id, c.epoch, 1)]
  }

  function Count(tally: Tally, claims: seq<Claim>): Tally {
    if claims == [] then tally else Add(Count(tally, claims[..|claims| - 1]), claims[|claims| - 1])
  }

  lemma {:induction false} CountAppend(tally: Tally, a: seq<Claim>, b: seq<Claim>)
    ensures Count(tally, a + b) == Count(Count(tally, a), b)
  {
    if b == [] {
      assert a + b == a;
    } else {
      CountAppend(tally, a, b[..|b| - 1]);
      assert (a + b)[..|a + b| - 1] == a + b[..|b| - 1];
    }
  }

  function TallyOf(tallies: map<int, Tally>, s: int): Tally {
    if s in tallies then tallies[s] else map[]
  }

  method TallySlot(tallies: map<int, Tally>, slot: int, node: ClusterNode) returns (next: map<int, Tally>)
    ensures forall s {:trigger TallyOf(next, s)} :: TallyOf(next, s) ==
              if s == slot then Add(TallyOf(tallies, s), Claim(node.id, node.epoch)) else TallyOf(tallies, s)
  {
    var candidates: Tally := map[];
    if slot in tallies {
      candidates := tallies[slot];
    }
    if node.id !in candidates {
      candidates := candidates[node.id := Candidate(node.id, node.epoch, 0)];
    }
    var candidate := candidates[node.id];
    candidate := candidate.(votes := candidate.votes + 1);
    if node.epoch > candidate.epoch {
      candidate := candidate.(epoch := node.epoch);
    }
    return tallies[slot := candidates[node.id := candidate]];
  }

  method TallyRange(tallies: map<int, Tally>, node: ClusterNode, r: SlotRange) returns (next: map<int, Tally>)
    ensures forall s {:trigger TallyOf(next, s)} :: TallyOf(next, s) ==
              if r.start <= s <= r.end then Add(TallyOf(tallies, s), Claim(node.id, node.epoch)) else TallyOf(tallies, s)
  {
    next := tallies;
    var slot := r.start;
    while slot <= r.end
      invariant r.start <= slot && (slot <= r.end + 1 || slot == r.start)
      invariant forall s {:trigger TallyOf(next, s)} :: TallyOf(next, s) ==
                  if r.start <= s < slot then Add(TallyOf(tallies, s), Claim(node.id, node.epoch))
                  else TallyOf(tallies, s)
    {
      next := TallySlot(next, slot, node);
      slot := slot + 1;
    }
  }

  lemma CountRange(tally: Tally, node: ClusterNode, s: int, ranges: seq<SlotRange>, k: nat)
    requires k < |ranges|
    ensures Count(tally, Collect(ClaimIn(node, s), ranges[..k + 1])) ==
            if ranges[k].start <= s <= ranges[k].end then
              Add(Count(tally, Collect(ClaimIn(node, s), ranges[..k])), Claim(node.id, node.epoch))
            else Count(tally, Collect(ClaimIn(node, s), ranges[..k]))
  {
    CollectGrows(ClaimIn(node, s), ranges, k);
    var so := Collect(ClaimIn(node, s), ranges[..k]);
    assert (so + [Claim(node.id, node.epoch)])[..|so|] == so;
    assert so + [] == so;
  }

  /** The tallies after the claims of the given ranges of one node. */
  ghost predicate RangesTallied(tallies: map<int, Tally>, next: map<int, Tally>, node: ClusterNode, ranges: seq<SlotRange>) {
    forall s {:trigger TallyOf(next, s)} ::
      TallyOf(next, s) == Count(TallyOf(tallies, s), Collect(ClaimIn(node, s), ranges))
  }

  lemma RangesTalliedNext(tallies: map<int, Tally>, before: map<int, Tally>, next: map<int, Tally>, node: ClusterNode,
                          ranges: seq<SlotRange>, k: nat)
    requires k < |ranges| && RangesTallied(tallies, before, node, ranges[..k])
    requires forall s {:trigger TallyOf(next, s)} :: TallyOf(next, s) ==
               if ranges[k].start <= s <= ranges[k].end then Add(TallyOf(before, s), Claim(node.id, node.epoch))
               else TallyOf(before, s)
    ensures RangesTallied(tallies, next, node, ranges[..k + 1])
  {
    forall s ensures TallyOf(next, s) == Count(TallyOf(tallies, s), Collect(ClaimIn(node, s), ranges[..k + 1])) {
      assert TallyOf(before, s) == Count(TallyOf(tallies, s), Collect(ClaimIn(node, s), ranges[..k]));
      CountRange(TallyOf(tallies, s), node, s, ranges, k);
    }
  }

  method TallyNode(tallies: map<int, Tally>, node: ClusterNode) returns (next: map<int, Tally>)
    ensures forall s {:trigger TallyOf(next, s)} :: TallyOf(next, s) == Count(TallyOf(tallies, s), NodeClaims(node, s))
  {
    next := tallies;
    if !IsPrimary(node) {
      return;
    }
    var parsed := ParseSlotRanges(node.slots);
    if parsed.None? {
      return;
    }
    next := TallyRanges(next, node, parsed.value);
  }

  method TallyRanges(tallies: map<int, Tally>, node: ClusterNode, ranges: seq<SlotRange>) returns (next: map<int, Tally>)
    ensures RangesTallied(tallies, next, node, ranges)
  {
    next := tallies;
    for k := 0 to |ranges|
      invariant RangesTallied(tallies, next, node, ranges[..k])
    {
      var before := next;
      next := TallyRange(next, node, ranges[k]);
      RangesTalliedNext(tallies, before, next, node, ranges, k);
    }
    assert ranges[..|ranges|] == ranges;
  }

  method TallyView(tallies: map<int, Tally>, nodes: seq<ClusterNode>) returns (next: map<int, Tally>)
    ensures forall s {:trigger TallyOf(next, s)} :: TallyOf(next, s) == Count(TallyOf(tallies, s), ListClaims(nodes, s))
  {
    next := tallies;
    for i := 0 to |nodes|
      invariant forall s {:trigger TallyOf(next, s)} ::
                  TallyOf(next, s) == Count(TallyOf(tallies, s), ListClaims(nodes[..i], s))
    {
      var before := next;
      next := TallyNode(next, nodes[i]);
      forall s ensures TallyOf(next, s) == Count(TallyOf(tallies, s), ListClaims(nodes[..i + 1], s)) {
        assert TallyOf(before, s) == Count(TallyOf(tallies, s), ListClaims(nodes[..i], s));
        ListClaimsNext(nodes, i, s);
        CountAppend(TallyOf(tallies, s), ListClaims(nodes[..i], s), NodeClaims(nodes[i], s));
      }
    }
    assert nodes[..|nodes|] == nodes;
  }

  ghost predicate Tallied(tallies: map<int, Tally>, views: seq<View>) {
    forall s {:trigger TallyOf(tallies, s)} :: TallyOf(tallies, s) == Count(map[], AllClaims(views, s))
  }

  method TallyAll(views: seq<View>) returns (tallies: map<int, Tally>)
    ensures Tallied(tallies, views)
  {
    tallies := map[];
    for i := 0 to |views|
      invariant Tallied(tallies, views[..i])
    {
      var before := tallies;
      if views[i].Some? {
        tallies := TallyView(tallies, views[i].value);
      }
      forall s ensures TallyOf(tallies, s) == Count(map[], AllClaims(views[..i + 1], s)) {
        assert TallyOf(before, s) == Count(map[], AllClaims(views[..i], s));
        AllClaimsNext(views, i, s);
        CountAppend(map[], AllClaims(views[..i], s), ViewClaims(views[i], s));
      }
    }
    assert views[..|views|] == views;
  }

  // ----- What the tally says -----

  function VoteFor(id: string): Claim -> int {
    (c: Claim) => if c.id == id then 1 else 0
  }

  function Votes(claims: seq<Claim>, id: string): int {
    Sum(VoteFor(id), claims)
  }

  /** The highest epoch with which `id` claims, given that it does. */
  ghost predicate HighestClaim(claims: seq<Claim>, id: string, e: int) {
    (exists i | 0 <= i < |claims| :: claims[i] == Claim(id, e)) &&
    forall i | 0 <= i < |claims| && claims[i].id == id :: claims[i].epoch <= e
  }

  /** Every claimant is tallied with its votes and its highest epoch. */
  ghost predicate Counted(tally: Tally, claims: seq<Claim>) {
    (forall i | 0 <= i < |claims| :: claims[i].id in tally) &&
    forall id | id in tally ::
      tally[id].id == id && tally[id].votes == Votes(claims, id) && HighestClaim(claims, id, tally[id].epoch)
  }

  lemma AddCounted(tally: Tally, claims: seq<Claim>, c: Claim)
    requires Counted(tally, claims)
    ensures Counted(Add(tally, c), claims + [c])
  {
    var next, more := Add(tally, c), claims + [c];
    assert more[|claims|] == c;
    assert forall i | 0 <= i < |claims| :: more[i] == claims[i];
    forall id | id in next
      ensures next[id].id == id && next[id].votes == Votes(more, id) && HighestClaim(more, id, next[id].epoch)
    {
      SumSnoc(VoteFor(id), claims, c);
      AddedClaim(tally, claims, c, id);
    }
  }

  lemma AddedClaim(tally: Tally, claims: seq<Claim>, c: Claim, id: string)
    requires Counted(tally, claims) && id in Add(tally, c)
    ensures HighestClaim(claims + [c], id, Add(tally, c)[id].epoch)
    ensures id !in tally ==> Votes(claims, id) == 0
  {
    var more := claims + [c];
    assert more[|claims|] == c;
    assert forall i | 0 <= i < |claims| :: more[i] == claims[i];
    if id in tally {
      var i :| 0 <= i < |claims| && claims[i] == Claim(id, tally[id].epoch);
      assert more[i] == Claim(id, tally[id].epoch);
    } else {
      SumZero(VoteFor(id), claims);
    }
  }

  lemma {:induction false} CountIsCounted(claims: seq<Claim>)
    ensures Counted(Count(map[], claims), claims)
  {
    if claims != [] {
      var n := |claims| - 1;
      CountIsCounted(claims[..n]);
      AddCounted(Count(map[], claims[..n]), claims[..n], claims[n]);
      assert claims[..n] + [claims[n]] == claims;
    }
  }

  /** The candidate is of the highest epoch, and among those of the highest epoch nobody has more votes. */
  ghost predicate IsBest(tally: Tally, id: string) {
    id in tally && forall other | other in tally ::
      tally[other].epoch < tally[id].epoch ||
      (tally[other].epoch == tally[id].epoch && tally[other].votes <= tally[id].votes)
  }

  /** Picks a best candidate, whatever the order in which the map yields them. */
  method PickBest(candidates: Tally) returns (best: string)
    requires candidates != map[]
    ensures IsBest(candidates, best)
  {
    var rest := candidates.Keys;
    assert exists id :: id in rest;
    var first :| first in rest;
    best := first;
    rest := rest - {first};
    while rest != {}
      invariant rest <= candidates.Keys && best in candidates
      invariant forall other | other in candidates && other !in rest ::
                  candidates[other].epoch < candidates[best].epoch ||
                  (candidates[other].epoch == candidates[best].epoch && candidates[other].votes <= candidates[best].votes)
    {
      var c :| c in rest;
      rest := rest - {c};
      if candidates[c].epoch > candidates[best].epoch ||
         (candidates[c].epoch == candidates[best].epoch && candidates[c].votes > candidates[best].votes)
      {
        best := c;
      }
    }
  }

  // ----- The two resolvers -----

  /**
   Settles disputed slots by the one-pass vote: sets the owner of each of them that anybody claims, and adds those
   that nobody claims to the first node; an error without any claim at all, or if adding is refused.
   */
  method ResolveSlotDisagreement(views: seq<View>, disputedSlots: seq<int>, addRefused: bool)
    returns (ok: bool, owners: map<int, Candidate>, added: seq<int>)
    ensures Settled(views, disputedSlots, owners)
    ensures ok <==> SomeClaimed(views, disputedSlots) && !(addRefused && SomeUnclaimed(views, disputedSlots))
    ensures forall s :: s in added <==> ok && s in disputedSlots && AllClaims(views, s) == []
  {
    var slotOwners := VoteAll(ToSet(disputedSlots), views);
    HeardMeans(slotOwners, ToSet(disputedSlots), views);
    SettledMeans(views, disputedSlots, slotOwners);
    if |slotOwners| == 0 {
      return false, slotOwners, [];
    }
    var trulyMissing := SlotsWithoutOwner(slotOwners, disputedSlots);
    SomeWithoutOwner(views, disputedSlots, slotOwners, trulyMissing);
    if |trulyMissing| > 0 && addRefused {
      return false, slotOwners, [];
    }
    return true, slotOwners, trulyMissing;
  }

  method SlotsWithoutOwner(owners: map<int, Candidate>, disputedSlots: seq<int>) returns (missing: seq<int>)
    ensures forall s :: s in missing <==> s in disputedSlots && s !in owners
  {
    missing := [];
    for i := 0 to |disputedSlots|
      invariant forall s :: s in missing <==> s in disputedSlots[..i] && s !in owners
    {
      if disputedSlots[i] !in owners {
        missing := missing + [disputedSlots[i]];
      }
    }
    assert disputedSlots[..|disputedSlots|] == disputedSlots;
  }

  /** Exactly the disputed slots that somebody claims have an owner, the winner of the vote. */
  ghost predicate Settled(views: seq<View>, disputedSlots: seq<int>, owners: map<int, Candidate>) {
    (forall s :: s in owners <==> s in disputedSlots && AllClaims(views, s) != []) &&
    forall s | s in owners :: owners[s].id == Winner(AllClaims(views, s))
  }

  ghost predicate SomeClaimed(views: seq<View>, slots: seq<int>) {
    exists s :: s in slots && AllClaims(views, s) != []
  }

  ghost predicate SomeUnclaimed(views: seq<View>, slots: seq<int>) {
    exists s :: s in slots && AllClaims(views, s) == []
  }

  lemma SettledMeans(views: seq<View>, slots: seq<int>, owners: map<int, Candidate>)
    requires Settled(views, slots, owners)
    ensures |owners| == 0 <==> !SomeClaimed(views, slots)
  {
    if s :| s in slots && AllClaims(views, s) != [] {
      assert s in owners;
    }
    if |owners| != 0 {
      NonEmptyMap(owners);
      var s :| s in owners;
      assert s in slots && AllClaims(views, s) != [];
    }
  }

  lemma NonEmptyMap(m: map<int, Candidate>)
    requires |m| != 0
    ensures exists s :: s in m
  {
    if forall s :: s !in m {
      assert false;
    }
  }

  lemma SomeWithoutOwner(views: seq<View>, slots: seq<int>, owners: map<int, Candidate>, missing: seq<int>)
    requires Settled(views, slots, owners) && forall s :: s in missing <==> s in slots && s !in owners
    ensures |missing| > 0 <==> SomeUnclaimed(views, slots)
    ensures forall s :: s in missing <==> s in slots && AllClaims(views, s) == []
  {
    forall s ensures s in missing <==> s in slots && AllClaims(views, s) == [] {
      assert s in owners <==> s in slots && AllClaims(views, s) != [];
    }
    if |missing| > 0 {
      var first := missing[0];
      assert first in missing;
      assert first in slots && AllClaims(views, first) == [];
    }
  }

  /** The owner of the first claim of the highest epoch. */
  function Winner(claims: seq<Claim>): string {
    if claims == [] then "" else claims[FirstMax(claims)].id
  }

  lemma HeardMeans(owners: map<int, Candidate>, disputed: set<int>, views: seq<View>)
    requires Heard(owners, disputed, views)
    ensures forall s :: s in owners <==> s in disputed && AllClaims(views, s) != []
    ensures forall s | s in owners :: owners[s].id == Winner(AllClaims(views, s))
  {
    forall s
      ensures s in owners <==> s in disputed && AllClaims(views, s) != []
      ensures s in owners ==> owners[s].id == Winner(AllClaims(views, s))
    {
      assert Lookup(owners, s) == if s in disputed then Elect(None, AllClaims(views, s)) else None;
      VoteGoesToFirstMax(AllClaims(views, s));
    }
  }

  function Answered(view: View): int {
    if view.Some? then 1 else 0
  }

  /** Several nodes claim the slot. */
  ghost predicate Disputed(views: seq<View>, s: int) {
    |Count(map[], AllClaims(views, s))| > 1
  }

  ghost predicate NamesBest(views: seq<View>, fix: SlotFix) {
    IsBest(Count(map[], AllClaims(views, fix.slot)), fix.owner)
  }

  ghost predicate Fixed(fixes: seq<SlotFix>, s: int) {
    exists i | 0 <= i < |fixes| :: fixes[i].slot == s
  }

  /** The fixes are for exactly the disputed slots below `m`, in order, and name a best claimant each. */
  ghost predicate FixesBelow(fixes: seq<SlotFix>, views: seq<View>, m: int) {
    (forall i | 0 <= i < |fixes| :: 0 <= fixes[i].slot < m && NamesBest(views, fixes[i])) &&
    (forall i, j | 0 <= i < j < |fixes| :: fixes[i].slot < fixes[j].slot) &&
    forall s | 0 <= s < m :: Disputed(views, s) <==> Fixed(fixes, s)
  }

  lemma FixedSnoc(fixes: seq<SlotFix>, fix: SlotFix, s: int)
    ensures Fixed(fixes + [fix], s) <==> Fixed(fixes, s) || fix.slot == s
  {
    var more := fixes + [fix];
    assert more[|fixes|] == fix;
    if i :| 0 <= i < |fixes| && fixes[i].slot == s {
      assert more[i] == fixes[i];
    }
  }

  lemma FixesSkip(fixes: seq<SlotFix>, views: seq<View>, m: nat)
    requires FixesBelow(fixes, views, m) && !Disputed(views, m)
    ensures FixesBelow(fixes, views, m + 1)
  {
    assert !Fixed(fixes, m);
  }

  lemma FixesGrow(fixes: seq<SlotFix>, views: seq<View>, m: nat, owner: string)
    requires FixesBelow(fixes, views, m) && Disputed(views, m) && NamesBest(views, SlotFix(m, owner))
    ensures FixesBelow(fixes + [SlotFix(m, owner)], views, m + 1)
  {
    forall s | 0 <= s < m + 1 ensures Disputed(views, s) <==> Fixed(fixes + [SlotFix(m, owner)], s) {
      FixedSnoc(fixes, SlotFix(m, owner), s);
    }
  }

  /**
   Settles every slot that several nodes claim by the full tally; an error if too few nodes answer or none is
   disputed.
   */
  method ResolveConfigDisagreement(views: seq<View>) returns (fixes: Option<seq<SlotFix>>)
    ensures fixes.None? <==> Sum(Answered, views) < 2 ||
                             forall s | 0 <= s < TOTAL_SLOTS :: !Disputed(views, s)
    ensures fixes.Some? ==> FixesBelow(fixes.value, views, TOTAL_SLOTS)
  {
    var answered := 0;
    for i := 0 to |views|
      invariant answered == Sum(Answered, views[..i])
    {
      SumSnoc(Answered, views[..i], views[i]);
      assert views[..i + 1] == views[..i] + [views[i]];
      if views[i].Some? {
        answered := answered + 1;
      }
    }
    assert views[..|views|] == views;
    if answered < 2 {
      return None;
    }
    var slotCandidates := TallyAll(views);
    var found := ListFixes(views, slotCandidates);
    if |found| == 0 {
      assert forall s :: !Fixed(found, s);
      return None;
    }
    assert Fixed(found, found[0].slot);
    return Some(found);
  }

  method ListFixes(views: seq<View>, slotCandidates: map<int, Tally>) returns (fixes: seq<SlotFix>)
    requires Tallied(slotCandidates, views)
    ensures FixesBelow(fixes, views, TOTAL_SLOTS)
  {
    fixes := [];
    for slot := 0 to TOTAL_SLOTS
      invariant FixesBelow(fixes, views, slot)
    {
      var candidates: Tally := map[];
      if slot in slotCandidates {
        candidates := slotCandidates[slot];
      }
      assert candidates == TallyOf(slotCandidates, slot) == Count(map[], AllClaims(views, slot));
      if |candidates| <= 1 {
        FixesSkip(fixes, views, slot);
        continue;
      }
      var best := PickBest(candidates);
      FixesGrow(fixes, views, slot, best);
      fixes := fixes + [SlotFix(slot, best)];
    }
  }

  // ----- When the resolvers agree -----

  lemma SomeBest(tally: Tally) returns (id: string)
    requires tally != map[]
    ensures IsBest(tally, id)
    decreases |tally|
  {
    assert tally.Keys != {};
    id :| id in tally;
    var rest := tally - {id};
    assert |rest| < |tally| by {
      assert rest.Keys == tally.Keys - {id};
      assert |rest| == |rest.Keys| && |tally| == |tally.Keys|;
    }
    assert forall x | x in tally && x != id :: x in rest && rest[x] == tally[x];
    if rest == map[] {
      assert forall x | x in tally :: x == id;
    } else {
      var other := SomeBest(rest);
      if tally[other].epoch > tally[id].epoch ||
         (tally[other].epoch == tally[id].epoch && tally[other].votes > tally[id].votes)
      {
        id := other;
      }
    }
  }

  /** Claims the slot with the highest epoch of all. */
  ghost predicate ClaimsHighest(claims: seq<Claim>, id: string)
    requires claims != []
  {
    exists i | 0 <= i < |claims| :: claims[i] == Claim(id, claims[FirstMax(claims)].epoch)
  }

  lemma HighestInTally(tally: Tally, claims: seq<Claim>, id: string)
    requires claims != [] && Counted(tally, claims)
    ensures ClaimsHighest(claims, id) <==> id in tally && tally[id].epoch == claims[FirstMax(claims)].epoch
    ensures id in tally ==> tally[id].epoch <= claims[FirstMax(claims)].epoch
  {
    if id in tally {
      var i :| 0 <= i < |claims| && claims[i] == Claim(id, tally[id].epoch);
    }
  }

  lemma WinnerClaimsHighest(claims: seq<Claim>)
    requires claims != []
    ensures ClaimsHighest(claims, Winner(claims))
  {
    assert claims[FirstMax(claims)] == Claim(Winner(claims), claims[FirstMax(claims)].epoch);
  }

  lemma BestMeans(tally: Tally, claims: seq<Claim>, id: string)
    requires claims != [] && Counted(tally, claims)
    ensures IsBest(tally, id) <==>
            ClaimsHighest(claims, id) &&
            forall other | ClaimsHighest(claims, other) :: Votes(claims, other) <= Votes(claims, id)
  {
    forall other ensures ClaimsHighest(claims, other) <==> other in tally && tally[other].epoch == claims[FirstMax(claims)].epoch
      ensures other in tally ==> tally[other].epoch <= claims[FirstMax(claims)].epoch
    {
      HighestInTally(tally, claims, other);
    }
    WinnerClaimsHighest(claims);
    assert Winner(claims) in tally;
  }

  /** Whatever the order in which the tally is read, it names the winner of the one-pass vote. */
  ghost predicate Agree(claims: seq<Claim>) {
    forall id | IsBest(Count(map[], claims), id) :: id == Winner(claims)
  }

  /** The winner of the one-pass vote has strictly more votes than any other claimant of the highest epoch. */
  ghost predicate WinnerHasMostVotes(claims: seq<Claim>)
    requires claims != []
  {
    forall other | other != Winner(claims) && ClaimsHighest(claims, other) ::
      Votes(claims, other) < Votes(claims, Winner(claims))
  }

  lemma AgreeMeansMostVotes(claims: seq<Claim>, other: string)
    requires claims != [] && other != Winner(claims) && ClaimsHighest(claims, other) && Agree(claims)
    ensures Votes(claims, other) < Votes(claims, Winner(claims))
  {
    var tally := Count(map[], claims);
    CountIsCounted(claims);
    HighestInTally(tally, claims, other);
    var best := SomeBest(tally);
    BestMeans(tally, claims, best);
    BestMeans(tally, claims, other);
  }

  lemma MostVotesMeansAgree(claims: seq<Claim>, id: string)
    requires claims != [] && IsBest(Count(map[], claims), id) && WinnerHasMostVotes(claims)
    ensures id == Winner(claims)
  {
    CountIsCounted(claims);
    BestMeans(Count(map[], claims), claims, id);
    WinnerClaimsHighest(claims);
  }

  /** The resolvers name the same owner exactly when the vote's winner has most votes of its epoch. */
  lemma ResolversAgree(claims: seq<Claim>)
    requires claims != []
    ensures Agree(claims) <==> WinnerHasMostVotes(claims)
  {
    if Agree(claims) {
      forall other | other != Winner(claims) && ClaimsHighest(claims, other)
        ensures Votes(claims, other) < Votes(claims, Winner(claims))
      {
        AgreeMeansMostVotes(claims, other);
      }
    }
    if WinnerHasMostVotes(claims) {
      forall id | IsBest(Count(map[], claims), id) ensures id == Winner(claims) {
        MostVotesMeansAgree(claims, id);
      }
    }
  }

  /** In particular they agree when one node alone claims with the highest epoch. */
  lemma SoleClaimantWins(claims: seq<Claim>)
    requires claims != [] && forall other | ClaimsHighest(claims, other) :: other == Winner(claims)
    ensures Agree(claims)
  {
    ResolversAgree(claims);
  }

  /** Two nodes of one epoch, of which the second has more votes: here the resolvers name different owners. */
  lemma ResolversDiffer()
    ensures var claims := [Claim("a", 3), Claim("b", 3), Claim("b", 3)];
            Winner(claims) == "a" && !IsBest(Count(map[], claims), "a")
  {
    var claims := [Claim("a", 3), Claim("b", 3), Claim("b", 3)];
    CountIsCounted(claims);
    BestMeans(Count(map[], claims), claims, "a");
    assert claims[1] == Claim("b", claims[FirstMax(claims)].epoch);
    assert ClaimsHighest(claims, "b");
    VotesOfThree("a", claims);
    VotesOfThree("b", claims);
  }

  lemma VotesOfThree(id: string, claims: seq<Claim>)
    requires |claims| == 3
    ensures Votes(claims, id) == VoteFor(id)(claims[0]) + VoteFor(id)(claims[1]) + VoteFor(id)(claims[2])
  {
    assert claims[1..][0] == claims[1] && claims[1..][1..][0] == claims[2] && claims[1..][1..][1..] == [];
    assert Sum(VoteFor(id), claims[1..][1..]) == VoteFor(id)(claims[2]);
    assert Sum(VoteFor(id), claims[1..]) == VoteFor(id)(claims[1]) + Sum(VoteFor(id), claims[1..][1..]);
  }

  // ----- After the fixes -----

  /** The nodes that a view names as owners of a slot. */
  function Named(view: View, s: int): set<string> {
    set c <- ViewClaims(view, s) :: c.id
  }

  /** The same after CLUSTER SETSLOT NODE took effect on the node for every fix. */
  ghost function NamedAfter(view: View, fixes: seq<SlotFix>, s: int): set<string> {
    if Fixed(fixes, s) then
      var i :| 0 <= i < |fixes| && fixes[i].slot == s;
      {fixes[i].owner}
    else Named(view, s)
  }

  /** The same after CLUSTER SETSLOT NODE took effect for every owner that the vote found. */
  function NamedAfterVote(view: View, owners: map<int, Candidate>, s: int): set<string> {
    if s in owners then {owners[s].id} else Named(view, s)
  }

  /** What the nodes know, and what they answered, if they did. */
  ghost predicate Answers(views: seq<View>, known: seq<View>) {
    |views| == |known| && forall i | 0 <= i < |views| && views[i].Some? :: known[i] == views[i]
  }

  lemma ClaimOfView(views: seq<View>, v: nat, s: int, c: Claim)
    requires v < |views| && c in ViewClaims(views[v], s)
    ensures c in AllClaims(views, s)
  {
    FlatMapHas(ViewClaimsTo(s), views, v, c);
  }

  lemma OneClaimant(views: seq<View>, s: int, a: Claim, b: Claim)
    requires a in AllClaims(views, s) && b in AllClaims(views, s) && !Disputed(views, s)
    ensures a.id == b.id
  {
    var claims := AllClaims(views, s);
    CountIsCounted(claims);
    var keys := Count(map[], claims).Keys;
    assert |keys| <= 1 && a.id in keys && b.id in keys;
    if a.id != b.id {
      SubsetSize({a.id, b.id}, keys);
    }
  }

  lemma NamesAgree(views: seq<View>, fixes: seq<SlotFix>, s: int, v: nat, w: nat, a: string, b: string)
    requires v < |views| && w < |views| && !Disputed(views, s)
    requires a in Named(views[v], s) && b in Named(views[w], s)
    ensures a == b
  {
    var c :| c in ViewClaims(views[v], s) && c.id == a;
    var d :| d in ViewClaims(views[w], s) && d.id == b;
    ClaimOfView(views, v, s, c);
    ClaimOfView(views, w, s, d);
    OneClaimant(views, s, c, d);
  }

  /**
   Once the fixes took effect everywhere, no two nodes name different owners for a fixed slot, and no two nodes
   that had answered name different owners for any slot.
   */
  lemma NoDisputeLeft(views: seq<View>, known: seq<View>, fixes: seq<SlotFix>, s: int, v: nat, w: nat, a: string, b: string)
    requires FixesBelow(fixes, views, TOTAL_SLOTS) && 0 <= s < TOTAL_SLOTS && Answers(views, known)
    requires v < |views| && w < |views| && (Fixed(fixes, s) || (views[v].Some? && views[w].Some?))
    requires a in NamedAfter(known[v], fixes, s) && b in NamedAfter(known[w], fixes, s)
    ensures a == b
  {
    if !Fixed(fixes, s) {
      NamesAgree(views, fixes, s, v, w, a, b);
    }
  }

  /** The vote settles the slots it was asked about: no two nodes that had answered name different owners. */
  lemma VoteLeavesNoDispute(views: seq<View>, known: seq<View>, disputedSlots: seq<int>, owners: map<int, Candidate>,
                            s: int, v: nat, w: nat, a: string, b: string)
    requires Settled(views, disputedSlots, owners) && s in disputedSlots && Answers(views, known)
    requires v < |views| && w < |views| && (s in owners || (views[v].Some? && views[w].Some?))
    requires a in NamedAfterVote(known[v], owners, s) && b in NamedAfterVote(known[w], owners, s)
    ensures s in owners && a == b
  {
    if c :| c in ViewClaims(known[v], s) && views[v].Some? {
      ClaimOfView(views, v, s, c);
    }
  }

  // ----- What a claim is -----

  /** An answering node shows a primary of this id and epoch, with a readable slot column that holds the slot. */
  ghost predicate Shown(views: seq<View>, s: int, c: Claim) {
    exists v, node | 0 <= v < |views| && views[v].Some? && node in views[v].value :: ClaimsIn(node, s, c)
  }

  ghost predicate ClaimsIn(node: ClusterNode, s: int, c: Claim) {
    Master in node.flags && c == Claim(node.id, node.epoch) && Ranges(node.slots).Some? &&
    exists r <- Ranges(node.slots).value :: r.start <= s <= r.end
  }

  lemma NodeClaimsMean(node: ClusterNode, s: int, c: Claim)
    ensures c in NodeClaims(node, s) <==> ClaimsIn(node, s, c)
  {
    var ranges := RangesOf(node);
    CollectMember(ClaimIn(node, s), ranges, c);
    if ClaimsIn(node, s, c) {
      var r :| r in Ranges(node.slots).value && r.start <= s <= r.end;
      var i :| 0 <= i < |ranges| && ranges[i] == r;
      assert ClaimIn(node, s)(ranges[i]) == Some(c);
    }
  }

  lemma ListClaimsMean(nodes: seq<ClusterNode>, s: int, c: Claim)
    ensures c in ListClaims(nodes, s) <==> exists node <- nodes :: ClaimsIn(node, s, c)
  {
    FlatMapMember(NodeClaimsTo(s), nodes, c);
    forall node ensures c in NodeClaimsTo(s)(node) <==> ClaimsIn(node, s, c) {
      NodeClaimsMean(node, s, c);
    }
  }

  /** The claims to a slot are exactly those that some answer shows. */
  lemma ClaimsMean(views: seq<View>, s: int, c: Claim)
    ensures c in AllClaims(views, s) <==> Shown(views, s, c)
  {
    FlatMapMember(ViewClaimsTo(s), views, c);
    forall view: View | view.Some?
      ensures c in ViewClaimsTo(s)(view) <==> exists node <- view.value :: ClaimsIn(node, s, c)
    {
      ListClaimsMean(view.value, s, c);
    }
    if c in AllClaims(views, s) {
      var view :| view in views && c in ViewClaimsTo(s)(view);
      var v :| 0 <= v < |views| && views[v] == view;
      var node :| node in view.value && ClaimsIn(node, s, c);
    }
    if v, node :| 0 <= v < |views| && views[v].Some? && node in views[v].value && ClaimsIn(node, s, c) {
      assert c in ViewClaimsTo(s)(views[v]);
    }
  }

  lemma CountedIds(claims: seq<Claim>, id: string)
    ensures id in Count(map[], claims).Keys <==> exists c <- claims :: c.id == id
  {
    CountIsCounted(claims);
    if c :| c in claims && c.id == id {
      var i :| 0 <= i < |claims| && claims[i] == c;
    }
  }

  lemma SeveralIds(claims: seq<Claim>, a: Claim, b: Claim)
    requires a in claims && b in claims && a.id != b.id
    ensures |Count(map[], claims).Keys| > 1
  {
    CountedIds(claims, a.id);
    CountedIds(claims, b.id);
    SubsetSize({a.id, b.id}, Count(map[], claims).Keys);
  }

  lemma SeveralCounted(claims: seq<Claim>) returns (a: Claim, b: Claim)
    requires |Count(map[], claims).Keys| > 1
    ensures a in claims && b in claims && a.id != b.id
  {
    var x, y := TwoOf(Count(map[], claims).Keys);
    CountedIds(claims, x);
    CountedIds(claims, y);
    a :| a in claims && a.id == x;
    b :| b in claims && b.id == y;
  }

  /** A slot is disputed exactly when nodes of different ids claim it. */
  lemma DisputedMeans(views: seq<View>, s: int)
    ensures Disputed(views, s) <==>
            exists a, b :: a in AllClaims(views, s) && b in AllClaims(views, s) && a.id != b.id
  {
    var claims := AllClaims(views, s);
    assert |Count(map[], claims)| == |Count(map[], claims).Keys|;
    if a, b :| a in claims && b in claims && a.id != b.id {
      SeveralIds(claims, a, b);
    }
    if |Count(map[], claims).Keys| > 1 {
      var a, b := SeveralCounted(claims);
    }
  }

  lemma TwoOf(keys: set<string>) returns (x: string, y: string)
    requires |keys| > 1
    ensures x in keys && y in keys && x != y
  {
    x :| x in keys;
    var rest := keys - {x};
    assert |rest| > 0;
    y :| y in rest;
  }
}
