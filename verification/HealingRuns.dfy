/** What passes of membership healing do to the slots that are owned, and why they come to an end. */
module HealingRuns {
  import opened ClusterView
  import opened Lists
  import opened Membership

  // ----- What a pass does to the cluster -----

  ghost predicate Unique(view: seq<Member>) {
    forall i, j | 0 <= i < |view| && 0 <= j < |view| && view[i].id == view[j].id :: i == j
  }

  function Named(id: string): Member -> bool {
    (m: Member) => m.id == id
  }

  /** The slots that a member receives by its own takeover. */
  function Inherits(view: seq<Member>, s: Setting, m: Member): set<int> {
    match First(Named(m.primary), view)
    case Some(d) => if Takes(view, s)(d) == Some(Takeover(m.id, d.id)) then d.slots else {}
    case None => {}
  }

  /** A takeover moves all slots of the dead node to the replica, which becomes a primary. */
  function After(view: seq<Member>, s: Setting): Member -> Member {
    (m: Member) =>
      var gained := Inherits(view, s, m);
      if Takes(view, s)(m).Some? then m.(slots := {})
      else if gained != {} then Member(m.id, m.ip, m.flags - {Slave} + {Master}, "", m.slots + gained)
      else m
  }

  /**
   As `a`, but a cluster fix may have given a live member more slots, and after a takeover a live replica may
   follow somebody else.
   */
  ghost predicate Extended(a: Member, b: Member, s: Setting, h: Healing) {
    a.(slots := {}, primary := "") == b.(slots := {}, primary := "") && a.slots <= b.slots &&
    (a.primary != b.primary ==> Live(a, s.pods)) &&
    (a.slots != b.slots ==> h.fixed && Live(a, s.pods))
  }

  function Remains(gone: set<string>): Member -> bool {
    (m: Member) => m.id !in gone
  }

  function IdsOf(ms: seq<Member>): set<string> {
    set m <- ms :: m.id
  }

  /** The nodes in `gone` were dropped, those in `joined` joined, and `become` says what became of the others. */
  datatype Outcome = Outcome(gone: set<string>, joined: seq<Member>, become: Member -> Member)

  ghost predicate Happens(view: seq<Member>, s: Setting, h: Healing, o: Outcome, next: seq<Member>) {
    o.gone <= IdsOf(h.forgotten) &&
    (forall m <- view :: Extended(After(view, s)(m), o.become(m), s, h)) &&
    (forall m <- o.joined :: Live(m, s.pods) && m.slots == {} && m.ip in h.met) &&
    multiset(next) == multiset(Map(o.become, Filter(Remains(o.gone), view))) + multiset(o.joined) &&
    Unique(next)
  }

  ghost predicate Owned(view: seq<Member>, t: int) {
    exists m | m in view :: t in m.slots
  }

  // ----- Slots -----

  lemma NextMembers(view: seq<Member>, o: Outcome, next: seq<Member>, m: Member)
    requires multiset(next) == multiset(Map(o.become, Filter(Remains(o.gone), view))) + multiset(o.joined)
    ensures m in next <==> m in o.joined || exists d | d in view :: d.id !in o.gone && o.become(d) == m
  {
    assert m in next <==> m in multiset(next);
    MapFilterMember(o.become, Remains(o.gone), view, m);
  }

  lemma UniqueMember(view: seq<Member>, a: Member, b: Member)
    requires Unique(view) && a in view && b in view && a.id == b.id
    ensures a == b
  {}

  /** Only a live replica of a stale owner inherits, and exactly that owner's slots. */
  lemma InheritsFrom(view: seq<Member>, s: Setting, m: Member) returns (d: Member)
    requires Unique(view) && m in view && Inherits(view, s, m) != {}
    ensures d in view && Takes(view, s)(d) == Some(Takeover(m.id, d.id)) && d.slots == Inherits(view, s, m)
    ensures Live(m, s.pods)
  {
    d := First(Named(m.primary), view).value;
    var r := First(Successor(s, d.id), view).value;
    UniqueMember(view, r, m);
  }

  lemma TakeoverInherits(view: seq<Member>, s: Setting, d: Member) returns (r: Member)
    requires Unique(view) && d in view && Takes(view, s)(d).Some?
    ensures r in view && Live(r, s.pods) && Inherits(view, s, r) == d.slots
    ensures After(view, s)(r).slots == r.slots + d.slots
  {
    r := First(Successor(s, d.id), view).value;
    UniqueMember(view, First(Named(r.primary), view).value, d);
  }

  lemma ForgottenIds(view: seq<Member>, s: Setting, h: Healing, m: Member)
    requires IsHealing(view, s, h) && Unique(view) && m in view
    ensures m.id in IdsOf(h.forgotten) <==> Forgets(view, s)(m)
  {
    FilterMember(Forgets(view, s), view, m);
    if m.id in IdsOf(h.forgotten) {
      var d :| d in h.forgotten && d.id == m.id;
      FilterMember(Forgets(view, s), view, d);
      UniqueMember(view, d, m);
    }
  }

  /**
   The one way a slot becomes unowned: an ephemeral cluster forgets an owner that nobody succeeds, and then
   runs fix.
   */
  ghost predicate Abandoned(view: seq<Member>, s: Setting, h: Healing, m: Member) {
    m in view && Stale(m, s.pods) && s.ephemeral && First(Successor(s, m.id), view).None? && h.fixed
  }

  lemma OwnerForgotten(view: seq<Member>, s: Setting, h: Healing, m: Member)
    requires IsHealing(view, s, h) && m in view && m.slots != {} && Forgets(view, s)(m)
    ensures Abandoned(view, s, h, m)
  {
    FilterMember(Forgets(view, s), view, m);
    var i :| 0 <= i < |h.forgotten| && h.forgotten[i] == m;
    assert h.forgotten[i].slots != {};
  }

  /** Who owns a slot after the pass, given its owner before. */
  lemma NextOwner(view: seq<Member>, s: Setting, h: Healing, o: Outcome, next: seq<Member>, m: Member, t: int)
    requires Unique(view) && IsHealing(view, s, h) && Happens(view, s, h, o, next)
    requires m in view && t in m.slots && !Abandoned(view, s, h, m)
    ensures Owned(next, t)
  {
    var keeper := m;
    if Takes(view, s)(m).Some? {
      keeper := TakeoverInherits(view, s, m);
    }
    ForgottenIds(view, s, h, keeper);
    if Forgets(view, s)(keeper) {
      OwnerForgotten(view, s, h, m);
    }
    assert t in After(view, s)(keeper).slots;
    assert Extended(After(view, s)(keeper), o.become(keeper), s, h);
    NextMembers(view, o, next, o.become(keeper));
  }

  lemma PreviousHolder(view: seq<Member>, s: Setting, h: Healing, o: Outcome, next: seq<Member>, t: int)
    returns (d: Member)
    requires Happens(view, s, h, o, next) && Owned(next, t)
    ensures d in view && t in o.become(d).slots
  {
    var m :| m in next && t in m.slots;
    NextMembers(view, o, next, m);
    d :| d in view && d.id !in o.gone && o.become(d) == m;
  }

  lemma PreviousOwner(view: seq<Member>, s: Setting, h: Healing, o: Outcome, next: seq<Member>, t: int)
    requires Unique(view) && Happens(view, s, h, o, next) && Owned(next, t) && !h.fixed
    ensures Owned(view, t)
  {
    var d := PreviousHolder(view, s, h, o, next, t);
    assert Extended(After(view, s)(d), o.become(d), s, h);
    if t !in d.slots {
      var owner := InheritsFrom(view, s, d);
    }
  }

  /**
   Whatever part of the pass takes effect: a slot loses its owner only when an ephemeral cluster forgets an
   owner that no replica succeeds, and then a cluster fix runs; a slot gains an owner only by a cluster fix.
   */
  lemma SlotsKept(view: seq<Member>, s: Setting, h: Healing, o: Outcome, next: seq<Member>, t: int)
    requires Unique(view) && IsHealing(view, s, h) && Happens(view, s, h, o, next)
    ensures Owned(view, t) ==> Owned(next, t) || exists m: Member :: t in m.slots && Abandoned(view, s, h, m)
    ensures Owned(next, t) ==> Owned(view, t) || h.fixed
    ensures h.fixed ==> s.ephemeral
  {
    if Owned(view, t) {
      var m :| m in view && t in m.slots;
      if !Abandoned(view, s, h, m) {
        NextOwner(view, s, h, o, next, m, t);
      }
    }
    if Owned(next, t) && !h.fixed {
      PreviousOwner(view, s, h, o, next, t);
    }
    if h.fixed {
      var i :| 0 <= i < |h.forgotten| && h.forgotten[i].slots != {};
      FilterMember(Forgets(view, s), view, h.forgotten[i]);
    }
  }

  /** One pass of a persistent cluster, of which any part took effect. */
  ghost predicate PersistentPass(view: seq<Member>, next: seq<Member>) {
    exists s: Setting, h: Healing, o: Outcome :: !s.ephemeral && IsHealing(view, s, h) && Happens(view, s, h, o, next)
  }

  ghost predicate Keeps(id: string, slots: set<int>, view: seq<Member>) {
    exists m | m in view :: m.id == id && m.slots == slots
  }

  /**
   What happens between passes: slot owners keep their ids and slots, and everything else may change. Pods come
   and go, addresses, flags and the primaries of replicas change, nodes without slots appear and vanish.
   */
  ghost predicate Drifts(view: seq<Member>, next: seq<Member>) {
    Unique(next) &&
    (forall m | m in view && m.slots != {} :: Keeps(m.id, m.slots, next)) &&
    forall n | n in next && n.slots != {} :: Keeps(n.id, n.slots, view)
  }

  lemma DriftKeepsSlots(view: seq<Member>, next: seq<Member>, t: int)
    requires Drifts(view, next)
    ensures Owned(next, t) <==> Owned(view, t)
  {
    if m :| m in view && t in m.slots {
      assert Keeps(m.id, m.slots, next);
    }
    if n :| n in next && t in n.slots {
      assert Keeps(n.id, n.slots, view);
    }
  }

  ghost predicate PersistentAt(run: seq<seq<Member>>, j: nat)
    requires j + 1 < |run|
  {
    PersistentPass(run[j], run[j + 1]) || Drifts(run[j], run[j + 1])
  }

  lemma PersistentStep(view: seq<Member>, next: seq<Member>, t: int)
    requires Unique(view) && (PersistentPass(view, next) || Drifts(view, next))
    ensures Unique(next) && (Owned(next, t) <==> Owned(view, t))
  {
    if Drifts(view, next) {
      DriftKeepsSlots(view, next, t);
      return;
    }
    var s: Setting, h: Healing, o: Outcome :| !s.ephemeral && IsHealing(view, s, h) && Happens(view, s, h, o, next);
    SlotsKept(view, s, h, o, next, t);
  }

  /** What matters about a view for one slot. */
  datatype SlotState = SlotState(unique: bool, owned: bool)

  ghost function StateFor(t: int, view: seq<Member>): SlotState {
    SlotState(Unique(view), Owned(view, t))
  }

  ghost function StatesFor(t: int, run: seq<seq<Member>>): seq<SlotState> {
    seq(|run|, j requires 0 <= j < |run| => StateFor(t, run[j]))
  }

  ghost predicate SameAt(states: seq<SlotState>, j: nat)
    requires j + 1 < |states|
  {
    states[j].unique ==> states[j + 1] == states[j]
  }

  lemma {:induction false} SameAlong(states: seq<SlotState>, i: nat)
    requires i < |states| && states[0].unique && forall j | 0 <= j < |states| - 1 :: SameAt(states, j)
    ensures states[i] == states[0]
  {
    if i > 0 {
      SameAlong(states, i - 1);
      assert SameAt(states, i - 1);
    }
  }

  lemma PersistentSame(run: seq<seq<Member>>, t: int, j: nat)
    requires j + 1 < |run| && PersistentAt(run, j)
    ensures SameAt(StatesFor(t, run), j)
  {
    if Unique(run[j]) {
      PersistentStep(run[j], run[j + 1], t);
    }
  }

  /** On a persistent cluster no run of passes, whatever happens between them, changes which slots are owned. */
  lemma PersistentSlotsKept(run: seq<seq<Member>>, t: int, i: nat)
    requires i < |run| && Unique(run[0]) && forall j | 0 <= j < |run| - 1 :: PersistentAt(run, j)
    ensures Unique(run[i]) && (Owned(run[i], t) <==> Owned(run[0], t))
  {
    var states := StatesFor(t, run);
    forall j | 0 <= j < |states| - 1 ensures SameAt(states, j) {
      assert PersistentAt(run, j);
      PersistentSame(run, t, j);
    }
    SameAlong(states, i);
    assert states[i] == StateFor(t, run[i]) && states[0] == StateFor(t, run[0]);
  }

  // ----- Passes come to an end -----

  function Weight(m: Member, pods: seq<string>): int {
    if Ghost(m) then 2 else if Stale(m, pods) then if m.slots == {} then 2 else 3 else 0
  }

  function WeightIn(pods: seq<string>): Member -> int {
    (m: Member) => Weight(m, pods)
  }

  function MissingOne(view: seq<Member>, seed: string): string -> int {
    (p: string) => if p in Addresses(view, seed) then 0 else 1
  }

  /** Two for each ghost or stale entry, one more if it owns slots, and one for each live pod out of view. */
  function Measure(view: seq<Member>, pods: seq<string>): int
    requires pods != []
  {
    Sum(WeightIn(pods), view) + Sum(MissingOne(view, pods[0]), pods)
  }

  /** Everything the pass decided took effect. */
  ghost predicate Completed(h: Healing, o: Outcome) {
    o.gone == IdsOf(h.forgotten) &&
    forall i | 0 <= i < |h.met| :: exists m | m in o.joined :: m.ip == h.met[i]
  }

  function TakenOne(view: seq<Member>, s: Setting): Member -> int {
    (m: Member) => if Takes(view, s)(m).Some? then 1 else 0
  }

  function GoneOne(view: seq<Member>, s: Setting): Member -> int {
    (m: Member) => if Forgets(view, s)(m) then 1 else 0
  }

  /** What an entry still weighs after the pass. */
  function LeftWeight(view: seq<Member>, s: Setting, o: Outcome): Member -> int {
    (m: Member) => if m.id in o.gone then 0 else Weight(o.become(m), s.pods)
  }

  lemma LiveStays(view: seq<Member>, s: Setting, h: Healing, o: Outcome, m: Member)
    requires Unique(view) && m in view && Extended(After(view, s)(m), o.become(m), s, h)
    ensures o.become(m).ip == m.ip && o.become(m).id == m.id
    ensures Live(m, s.pods) ==> Weight(o.become(m), s.pods) == 0
    ensures !Live(m, s.pods) ==> o.become(m) == if Takes(view, s)(m).Some? then m.(slots := {}) else m
  {
    if Inherits(view, s, m) != {} {
      var d := InheritsFrom(view, s, m);
    }
  }

  lemma EntryLightens(view: seq<Member>, s: Setting, h: Healing, o: Outcome, m: Member)
    requires Unique(view) && IsHealing(view, s, h) && Extended(After(view, s)(m), o.become(m), s, h)
    requires o.gone == IdsOf(h.forgotten) && m in view
    ensures LeftWeight(view, s, o)(m) + 2 * GoneOne(view, s)(m) + TakenOne(view, s)(m) <= WeightIn(s.pods)(m)
  {
    LiveStays(view, s, h, o, m);
    ForgottenIds(view, s, h, m);
  }

  lemma EntriesLighten(view: seq<Member>, s: Setting, h: Healing, o: Outcome)
    requires Unique(view) && IsHealing(view, s, h) && o.gone == IdsOf(h.forgotten)
    requires forall m <- view :: Extended(After(view, s)(m), o.become(m), s, h)
    ensures Sum(LeftWeight(view, s, o), view) + 2 * |h.forgotten| + |h.takeovers| <= Sum(WeightIn(s.pods), view)
  {
    var left, gone, taken := LeftWeight(view, s, o), GoneOne(view, s), TakenOne(view, s);
    var all := Plus(Plus(left, taken), Plus(gone, gone));
    forall i | 0 <= i < |view| ensures all(view[i]) <= WeightIn(s.pods)(view[i]) {
      EntryLightens(view, s, h, o, view[i]);
    }
    SumAtMost(all, WeightIn(s.pods), view);
    SumPlus(Plus(left, taken), Plus(gone, gone), view);
    SumPlus(left, taken, view);
    SumPlus(gone, gone, view);
    SumLength(gone, Forgets(view, s), view);
    SumCollectLength(Takes(view, s), taken, view);
  }

  lemma JoinedWeighNothing(joined: seq<Member>, pods: seq<string>)
    requires forall m <- joined :: Live(m, pods)
    ensures Sum(WeightIn(pods), joined) == 0
  {
    forall i | 0 <= i < |joined| ensures WeightIn(pods)(joined[i]) == 0 {
      assert joined[i] in joined;
    }
    SumZero(WeightIn(pods), joined);
  }

  lemma RemainingWeights(view: seq<Member>, s: Setting, o: Outcome)
    ensures Sum(WeightIn(s.pods), Map(o.become, Filter(Remains(o.gone), view))) == Sum(LeftWeight(view, s, o), view)
  {
    var kept, left := Filter(Remains(o.gone), view), LeftWeight(view, s, o);
    forall i | 0 <= i < |kept| ensures WeightIn(s.pods)(o.become(kept[i])) == left(kept[i]) {
      FilterMember(Remains(o.gone), view, kept[i]);
    }
    SumMap(o.become, WeightIn(s.pods), left, kept);
    SumFilter(left, Remains(o.gone), view);
  }

  lemma NextWeights(view: seq<Member>, s: Setting, o: Outcome, next: seq<Member>)
    requires multiset(next) == multiset(Map(o.become, Filter(Remains(o.gone), view))) + multiset(o.joined)
    requires forall m <- o.joined :: Live(m, s.pods)
    ensures Sum(WeightIn(s.pods), next) == Sum(LeftWeight(view, s, o), view)
  {
    var stayed := Map(o.become, Filter(Remains(o.gone), view));
    assert multiset(next) == multiset(stayed + o.joined);
    SumPermuted(WeightIn(s.pods), next, stayed + o.joined);
    SumAppend(WeightIn(s.pods), stayed, o.joined);
    JoinedWeighNothing(o.joined, s.pods);
    RemainingWeights(view, s, o);
  }

  // ----- Missing pods -----

  function LostBy(view: seq<Member>, s: Setting, seed: string): (string, Member) -> int {
    (p: string, m: Member) => if Forgets(view, s)(m) && Resolve(m, seed) == p then 1 else 0
  }

  function MetOne(view: seq<Member>, s: Setting, seed: string): string -> int {
    (p: string) => if s.meetMissing && p !in Addresses(view, seed) then 1 else 0
  }

  lemma LostTotal(view: seq<Member>, s: Setting, seed: string)
    requires NoRepeats(s.pods)
    ensures Sum(RowSum(LostBy(view, s, seed), view), s.pods) <= |Filter(Forgets(view, s), view)|
  {
    var lost := LostBy(view, s, seed);
    SumSwap(lost, s.pods, view);
    forall i | 0 <= i < |view| ensures RowSum(Flip(lost), s.pods)(view[i]) <= GoneOne(view, s)(view[i]) {
      if Forgets(view, s)(view[i]) {
        SumOnce(Fix(Flip(lost), view[i]), s.pods, Resolve(view[i], seed));
      } else {
        SumZero(Fix(Flip(lost), view[i]), s.pods);
      }
    }
    SumAtMost(RowSum(Flip(lost), s.pods), GoneOne(view, s), view);
    SumLength(GoneOne(view, s), Forgets(view, s), view);
  }

  lemma LostFrom(view: seq<Member>, s: Setting, seed: string, p: string)
    ensures RowSum(LostBy(view, s, seed), view)(p) >= 0
    ensures forall m | m in view && Forgets(view, s)(m) && Resolve(m, seed) == p ::
              RowSum(LostBy(view, s, seed), view)(p) >= 1
  {
    SumNonNegative(Fix(LostBy(view, s, seed), p), view);
    forall m | m in view && Forgets(view, s)(m) && Resolve(m, seed) == p
      ensures RowSum(LostBy(view, s, seed), view)(p) >= 1
    {
      var i :| 0 <= i < |view| && view[i] == m;
      assert Fix(LostBy(view, s, seed), p)(view[i]) == 1;
    }
  }

  lemma StaysInView(view: seq<Member>, s: Setting, h: Healing, o: Outcome, next: seq<Member>, m: Member, seed: string)
    requires Unique(view) && IsHealing(view, s, h) && Happens(view, s, h, o, next)
    requires m in view && !Forgets(view, s)(m)
    ensures Resolve(m, seed) in Addresses(next, seed)
  {
    ForgottenIds(view, s, h, m);
    assert Extended(After(view, s)(m), o.become(m), s, h);
    LiveStays(view, s, h, o, m);
    NextMembers(view, o, next, o.become(m));
  }

  lemma MetIsJoined(view: seq<Member>, s: Setting, h: Healing, o: Outcome, p: string) returns (m: Member)
    requires IsHealing(view, s, h) && Completed(h, o) && p in s.pods && MetOne(view, s, s.pods[0])(p) == 1
    ensures m in o.joined && m.ip == p
  {
    FilterMember(MissingFrom(view, s.pods[0]), s.pods, p);
    var i :| 0 <= i < |h.met| && h.met[i] == p;
    m :| m in o.joined && m.ip == h.met[i];
  }

  lemma JoinedInView(view: seq<Member>, s: Setting, h: Healing, o: Outcome, next: seq<Member>, m: Member, seed: string)
    requires Happens(view, s, h, o, next) && m in o.joined
    ensures m.ip in Addresses(next, seed)
  {
    assert Live(m, s.pods);
    NextMembers(view, o, next, m);
    assert Resolve(m, seed) == m.ip;
  }

  lemma PodMissing(view: seq<Member>, s: Setting, h: Healing, o: Outcome, next: seq<Member>, p: string)
    requires Unique(view) && IsHealing(view, s, h) && Happens(view, s, h, o, next) && Completed(h, o)
    requires p in s.pods
    ensures var seed := s.pods[0];
            MissingOne(next, seed)(p) + MetOne(view, s, seed)(p) <=
            MissingOne(view, seed)(p) + RowSum(LostBy(view, s, seed), view)(p)
  {
    var seed := s.pods[0];
    LostFrom(view, s, seed, p);
    if p !in Addresses(next, seed) {
      if MetOne(view, s, seed)(p) == 1 {
        var m := MetIsJoined(view, s, h, o, p);
        JoinedInView(view, s, h, o, next, m, seed);
      }
      if p in Addresses(view, seed) {
        var m :| m in view && Resolve(m, seed) == p;
        if !Forgets(view, s)(m) {
          StaysInView(view, s, h, o, next, m, seed);
        }
      }
    }
  }

  lemma MetCounted(view: seq<Member>, s: Setting, h: Healing)
    requires IsHealing(view, s, h)
    ensures Sum(MetOne(view, s, s.pods[0]), s.pods) == |h.met|
  {
    if s.meetMissing {
      var met, missing := MetOne(view, s, s.pods[0]), MissingFrom(view, s.pods[0]);
      forall i | 0 <= i < |s.pods| ensures met(s.pods[i]) == if missing(s.pods[i]) then 1 else 0 {}
      SumLength(met, missing, s.pods);
    } else {
      SumZero(MetOne(view, s, s.pods[0]), s.pods);
    }
  }

  lemma PodsMissing(view: seq<Member>, s: Setting, h: Healing, o: Outcome, next: seq<Member>)
    requires Unique(view) && IsHealing(view, s, h) && Happens(view, s, h, o, next) && Completed(h, o)
    requires NoRepeats(s.pods)
    ensures Sum(MissingOne(next, s.pods[0]), s.pods) + |h.met| <=
            Sum(MissingOne(view, s.pods[0]), s.pods) + |h.forgotten|
  {
    var seed := s.pods[0];
    var lost := RowSum(LostBy(view, s, seed), view);
    var after := Plus(MissingOne(next, seed), MetOne(view, s, seed));
    var before := Plus(MissingOne(view, seed), lost);
    forall i | 0 <= i < |s.pods| ensures after(s.pods[i]) <= before(s.pods[i]) {
      PodMissing(view, s, h, o, next, s.pods[i]);
    }
    SumAtMost(after, before, s.pods);
    SumPlus(MissingOne(next, seed), MetOne(view, s, seed), s.pods);
    SumPlus(MissingOne(view, seed), lost, s.pods);
    MetCounted(view, s, h);
    LostTotal(view, s, seed);
  }

  /** A pass that takes full effect lowers the measure by at least one for each thing it does. */
  lemma PassesSettle(view: seq<Member>, s: Setting, h: Healing, o: Outcome, next: seq<Member>)
    requires Unique(view) && IsHealing(view, s, h) && Happens(view, s, h, o, next) && Completed(h, o)
    requires NoRepeats(s.pods)
    ensures Measure(next, s.pods) + |h.forgotten| + |h.takeovers| + |h.met| <= Measure(view, s.pods)
  {
    EntriesLighten(view, s, h, o);
    NextWeights(view, s, o, next);
    PodsMissing(view, s, h, o, next);
  }

  lemma MeasureNonNegative(view: seq<Member>, pods: seq<string>)
    requires pods != []
    ensures Measure(view, pods) >= 0
  {
    SumNonNegative(WeightIn(pods), view);
    SumNonNegative(MissingOne(view, pods[0]), pods);
  }

  /** One pass of full effect over a fixed set of live pods, in any mode. */
  ghost predicate CompletePass(view: seq<Member>, pods: seq<string>, next: seq<Member>, changed: bool) {
    exists s: Setting, h: Healing, o: Outcome ::
      s.pods == pods && IsHealing(view, s, h) && Happens(view, s, h, o, next) && Completed(h, o) && changed == Changes(h)
  }

  lemma CompletePassSettles(view: seq<Member>, pods: seq<string>, next: seq<Member>, changed: bool)
    requires Unique(view) && CompletePass(view, pods, next, changed) && NoRepeats(pods)
    ensures pods != [] && Unique(next)
    ensures Measure(next, pods) + (if changed then 1 else 0) <= Measure(view, pods)
  {
    var s: Setting, h: Healing, o: Outcome :|
      s.pods == pods && IsHealing(view, s, h) && Happens(view, s, h, o, next) && Completed(h, o) && changed == Changes(h);
    PassesSettle(view, s, h, o, next);
  }

  ghost predicate CompleteAt(run: seq<seq<Member>>, pods: seq<string>, changes: seq<bool>, j: nat)
    requires j + 1 < |run| == |changes| + 1
  {
    CompletePass(run[j], pods, run[j + 1], changes[j])
  }

  function ChangedOne(changed: bool): int {
    if changed then 1 else 0
  }

  /** What a run has left: the measure, and the changes already made. */
  ghost predicate Spent(run: seq<seq<Member>>, pods: seq<string>, changes: seq<bool>, i: nat)
    requires i < |run| == |changes| + 1 && pods != []
  {
    Unique(run[i]) && Measure(run[i], pods) + Sum(ChangedOne, changes[..i]) <= Measure(run[0], pods)
  }

  /** The j-th pass costs at least one unit of the measure if it changed anything. */
  ghost predicate SpendsAt(run: seq<seq<Member>>, pods: seq<string>, changes: seq<bool>, j: nat)
    requires j + 1 < |run| == |changes| + 1 && pods != []
  {
    Unique(run[j]) ==>
      Unique(run[j + 1]) && Measure(run[j + 1], pods) + ChangedOne(changes[j]) <= Measure(run[j], pods)
  }

  lemma CompleteSpends(run: seq<seq<Member>>, pods: seq<string>, changes: seq<bool>, j: nat)
    requires j + 1 < |run| == |changes| + 1 && pods != [] && NoRepeats(pods) && CompleteAt(run, pods, changes, j)
    ensures SpendsAt(run, pods, changes, j)
  {
    if Unique(run[j]) {
      CompletePassSettles(run[j], pods, run[j + 1], changes[j]);
    }
  }

  lemma SpentNext(run: seq<seq<Member>>, pods: seq<string>, changes: seq<bool>, i: nat)
    requires i + 1 < |run| == |changes| + 1 && pods != []
    requires Spent(run, pods, changes, i) && SpendsAt(run, pods, changes, i)
    ensures Spent(run, pods, changes, i + 1)
  {
    assert changes[..i + 1] == changes[..i] + [changes[i]];
    SumSnoc(ChangedOne, changes[..i], changes[i]);
  }

  lemma SpentStart(run: seq<seq<Member>>, pods: seq<string>, changes: seq<bool>)
    requires |run| == |changes| + 1 && pods != [] && Unique(run[0])
    ensures Spent(run, pods, changes, 0)
  {
    assert changes[..0] == [];
  }

  lemma {:induction false} RunSpends(run: seq<seq<Member>>, pods: seq<string>, changes: seq<bool>, i: nat)
    requires i < |run| == |changes| + 1 && pods != [] && Unique(run[0])
    requires forall j | 0 <= j < |changes| :: SpendsAt(run, pods, changes, j)
    ensures Spent(run, pods, changes, i)
  {
    if i == 0 {
      SpentStart(run, pods, changes);
    } else {
      RunSpends(run, pods, changes, i - 1);
      assert SpendsAt(run, pods, changes, i - 1);
      SpentNext(run, pods, changes, i - 1);
    }
  }

  /**
   However long healing runs over the same live pods, at most as many passes change anything as the first view
   weighs.
   */
  lemma ChangesBounded(run: seq<seq<Member>>, pods: seq<string>, changes: seq<bool>)
    requires |run| == |changes| + 1 && pods != [] && NoRepeats(pods) && Unique(run[0])
    requires forall j | 0 <= j < |changes| :: CompleteAt(run, pods, changes, j)
    ensures Sum(ChangedOne, changes) <= Measure(run[0], pods)
  {
    forall j | 0 <= j < |changes| ensures SpendsAt(run, pods, changes, j) {
      CompleteSpends(run, pods, changes, j);
    }
    RunSpends(run, pods, changes, |changes|);
    assert changes[..|changes|] == changes;
    MeasureNonNegative(run[|changes|], pods);
  }
}
