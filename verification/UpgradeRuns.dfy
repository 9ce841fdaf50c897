/**
 What every run of the rolling upgrade keeps and reaches, with partial reshards, early returns and lost status
 writes anywhere, and pods coming back at any time, as long as nobody else deletes pods.
 */
module UpgradeRuns {
  import opened Lists
  import opened Ordinals
  import opened RollingUpgrade

  // ----- Steps and runs -----

  /** The StatefulSet recreates a deleted pod from the new template. */
  ghost predicate Returns(l: Layout, s: State, t: State) {
    exists o | 0 <= o < s.size && o < |s.pods| && s.pods[o].Gone? :: t == s.(pods := s.pods[o := New])
  }

  /** A deleted pod stops. */
  ghost predicate Stops(l: Layout, s: State, t: State) {
    exists o | 0 <= o < |s.pods| && s.pods[o].Terminating? :: t == s.(pods := s.pods[o := Gone])
  }

  ghost predicate Next(l: Layout, s: State, t: State) {
    Shaped(l, s) && ((exists input :: t == Cycle(l, s, input)) || Returns(l, s, t) || Stops(l, s, t))
  }

  ghost predicate NextAt(l: Layout, run: seq<State>, i: nat)
    requires i + 1 < |run|
  {
    Next(l, run[i], run[i + 1])
  }

  /** Before the upgrade: primary j owns init[j], nobody else owns anything, and only the original pods exist. */
  ghost predicate Initial(l: Layout, s: State, init: seq<set<int>>) {
    Shaped(l, s) && |init| == l.primaries && s.phase.Starting? && s.size == Original(l) && s.deleted == [] &&
    Unrotated(l, s.own, init) && forall o | 0 <= o < All(l) :: s.pods[o].Gone? <==> o >= Original(l)
  }

  ghost predicate Run(l: Layout, run: seq<State>, init: seq<set<int>>) {
    run != [] && Initial(l, run[0], init) && forall i | 0 <= i < |run| - 1 :: NextAt(l, run, i)
  }

  // ----- Who owns what -----

  ghost predicate OthersEmpty(l: Layout, own: seq<set<int>>)
    requires |own| == All(l)
  {
    forall o | l.primaries <= o < All(l) && o != PivotOf(l) :: own[o] == {}
  }

  ghost predicate Unrotated(l: Layout, own: seq<set<int>>, init: seq<set<int>>)
    requires |own| == All(l) && |init| == l.primaries <= All(l)
  {
    (forall o | 0 <= o < l.primaries :: own[o] == init[o]) && forall o | l.primaries <= o < All(l) :: own[o] == {}
  }

  /** `a` and `b` split `whole` between them. */
  ghost predicate Share(a: set<int>, b: set<int>, whole: set<int>) {
    a !! b && a + b == whole
  }

  /**
   Below p nothing has moved; above p + 1 every node holds what its predecessor held, the pivot what the last
   one held.
   */
  ghost predicate Around(l: Layout, own: seq<set<int>>, init: seq<set<int>>, p: int)
    requires |own| == All(l) && |init| == l.primaries && 0 <= PivotOf(l) < All(l) && 0 <= p < l.primaries <= All(l)
  {
    (forall o | 0 <= o < p :: own[o] == init[o]) && (forall o | p + 1 < o < l.primaries :: own[o] == init[o - 1]) &&
    (p < l.primaries - 1 ==> own[PivotOf(l)] == init[l.primaries - 1]) && OthersEmpty(l, own)
  }

  /** Every primary but the first holds what its predecessor held. */
  ghost predicate Shifted(l: Layout, own: seq<set<int>>, init: seq<set<int>>)
    requires |own| == All(l) && |init| == l.primaries <= All(l)
  {
    (forall o | 1 <= o < l.primaries :: own[o] == init[o - 1]) && OthersEmpty(l, own)
  }

  /** The slots rotated by one: primary 0 holds what the last one held, and the pivot nothing. */
  ghost predicate Rotated(l: Layout, own: seq<set<int>>, init: seq<set<int>>)
    requires |own| == All(l) && |init| == l.primaries <= All(l)
  {
    l.primaries >= 1 && Shifted(l, own, init) && own[0] == init[l.primaries - 1] &&
    forall o | l.primaries <= o < All(l) :: own[o] == {}
  }

  ghost predicate OwnsOK(l: Layout, s: State, init: seq<set<int>>)
    requires Shaped(l, s) && |init| == l.primaries
  {
    OrdinalsInRange(l);
    match s.phase
    case Starting => Unrotated(l, s.own, init)
    case ScalingUp => Unrotated(l, s.own, init)
    case Resharding =>
      Around(l, s.own, init, s.partition) &&
      Share(s.own[s.partition], s.own[Destination(l, s.partition)], init[s.partition])
    case RollingUpdate =>
      Around(l, s.own, init, s.partition) &&
      s.own[s.partition] == {} && s.own[Destination(l, s.partition)] == init[s.partition]
    case Ending => Shifted(l, s.own, init) && Share(s.own[PivotOf(l)], s.own[0], init[l.primaries - 1])
    case ScalingDown => Rotated(l, s.own, init)
    case Ready => Rotated(l, s.own, init)
  }

  lemma MoveShares(own: seq<set<int>>, from: int, to: int, moved: set<int>, whole: set<int>)
    requires 0 <= from < |own| && 0 <= to < |own| && from != to && Share(own[from], own[to], whole)
    ensures var next := MoveSlots(own, from, to, moved);
            Share(next[from], next[to], whole) && (next[from] == {} ==> next[to] == whole) &&
            |next| == |own| && forall o | 0 <= o < |own| && o != from && o != to :: next[o] == own[o]
  {}

  lemma ScaleUpOwns(l: Layout, s: State, init: seq<set<int>>, input: Input)
    requires Shaped(l, s) && |init| == l.primaries && s.phase.ScalingUp? && OwnsOK(l, s, init)
    ensures Shaped(l, ScaleUp(l, s, input)) && OwnsOK(l, ScaleUp(l, s, input), init)
  {
    OrdinalsInRange(l);
  }

  lemma ReshardOwns(l: Layout, s: State, init: seq<set<int>>, input: Input)
    requires Shaped(l, s) && |init| == l.primaries && s.phase.Resharding? && OwnsOK(l, s, init)
    ensures Shaped(l, Reshard(l, s, input)) && OwnsOK(l, Reshard(l, s, input), init)
  {
    OrdinalsInRange(l);
    MoveShares(s.own, s.partition, Destination(l, s.partition), input.moved, init[s.partition]);
  }

  /** Recycling a node that owns nothing changes nobody's slots. */
  lemma RecycleOwns(l: Layout, s: State, o: int, input: Input)
    requires Shaped(l, s) && 0 <= o < All(l) && s.own[o] == {}
    ensures var t := Recycle(l, s, o, input);
            t.own == s.own && t.phase == s.phase && t.partition == s.partition && Shaped(l, t)
  {
    assert s.own[o := {}] == s.own;
  }

  lemma UnsettledReplica(l: Layout, s: State, input: Input)
    requires Shaped(l, s) && s.phase.RollingUpdate? && OthersEmpty(l, s.own)
    requires Unsettled(l, s.pods, s.partition, input.attached, 0) < l.replicas
    ensures var o := ReplicaOf(l, s.partition, Unsettled(l, s.pods, s.partition, input.attached, 0));
            l.primaries <= o < Original(l) < All(l) && s.own[o] == {}
  {
    ReplicaInRange(l, s.partition, Unsettled(l, s.pods, s.partition, input.attached, 0));
    OrdinalsInRange(l);
  }

  lemma UpdateOwns(l: Layout, s: State, init: seq<set<int>>, input: Input)
    requires Shaped(l, s) && |init| == l.primaries && s.phase.RollingUpdate? && OwnsOK(l, s, init)
    ensures Shaped(l, Update(l, s, input)) && OwnsOK(l, Update(l, s, input), init)
  {
    OrdinalsInRange(l);
    var k := Unsettled(l, s.pods, s.partition, input.attached, 0);
    RecycleOwns(l, s, s.partition, input);
    if k < l.replicas {
      UnsettledReplica(l, s, input);
      RecycleOwns(l, s, ReplicaOf(l, s.partition, k), input);
    }
  }

  lemma EndOwns(l: Layout, s: State, init: seq<set<int>>, input: Input)
    requires Shaped(l, s) && |init| == l.primaries && s.phase.Ending? && OwnsOK(l, s, init)
    ensures Shaped(l, End(l, s, input)) && OwnsOK(l, End(l, s, input), init)
  {
    OrdinalsInRange(l);
    MoveShares(s.own, PivotOf(l), 0, input.moved, init[l.primaries - 1]);
  }

  lemma ShrinkOwns(l: Layout, s: State)
    requires Shaped(l, s) && forall o | Original(l) <= o < All(l) :: s.own[o] == {}
    ensures Shrink(l, s).own == s.own
  {}

  lemma ScaleDownOwns(l: Layout, s: State, init: seq<set<int>>, input: Input)
    requires Shaped(l, s) && |init| == l.primaries && s.phase.ScalingDown? && OwnsOK(l, s, init)
    ensures Shaped(l, ScaleDown(l, s, input)) && OwnsOK(l, ScaleDown(l, s, input), init)
  {
    OrdinalsInRange(l);
    ShrinkOwns(l, s);
  }

  lemma CycleOwns(l: Layout, s: State, init: seq<set<int>>, input: Input)
    requires Shaped(l, s) && |init| == l.primaries && OwnsOK(l, s, init)
    ensures Shaped(l, Cycle(l, s, input)) && OwnsOK(l, Cycle(l, s, input), init)
  {
    match s.phase {
      case Starting =>
      case ScalingUp => ScaleUpOwns(l, s, init, input);
      case Resharding => ReshardOwns(l, s, init, input);
      case RollingUpdate => UpdateOwns(l, s, init, input);
      case Ending => EndOwns(l, s, init, input);
      case ScalingDown => ScaleDownOwns(l, s, init, input);
      case Ready =>
    }
  }

  // ----- Which pods run the new template -----

  /** Every primary above p, its replicas, and the extra pods run the new template. */
  ghost predicate Fresh(l: Layout, pods: seq<Pod>, p: int)
    requires |pods| == All(l)
  {
    (forall o | p < o < l.primaries && 0 <= o < All(l) :: pods[o].New?) &&
    forall o | ReplicaOf(l, p + 1, 0) <= o < All(l) && 0 <= o :: pods[o].New?
  }

  ghost predicate ExtrasGone(l: Layout, s: State)
    requires Shaped(l, s)
  {
    s.size == Original(l) && forall o | Original(l) <= o < All(l) :: s.pods[o].Gone?
  }

  ghost predicate ExtrasNotOld(l: Layout, s: State)
    requires Shaped(l, s)
  {
    s.size == All(l) && forall o | Original(l) <= o < All(l) :: !Outdated(s.pods[o])
  }

  ghost predicate PodsOK(l: Layout, s: State)
    requires Shaped(l, s)
  {
    match s.phase
    case Starting => ExtrasGone(l, s) || ExtrasNotOld(l, s)
    case ScalingUp => ExtrasNotOld(l, s)
    case Resharding => s.size == All(l) && Fresh(l, s.pods, s.partition)
    case RollingUpdate => s.size == All(l) && Fresh(l, s.pods, s.partition)
    case Ending => s.size == All(l) && Fresh(l, s.pods, -1)
    case ScalingDown =>
      (forall o | 0 <= o < Original(l) :: s.pods[o].New?) && (ExtrasGone(l, s) || ExtrasNotOld(l, s))
    case Ready => (forall o | 0 <= o < Original(l) :: s.pods[o].New?) && ExtrasGone(l, s)
  }

  lemma BlockEnd(l: Layout, p: int)
    ensures ReplicaOf(l, p + 1, 0) == ReplicaOf(l, p, 0) + l.replicas
    ensures ReplicaOf(l, l.primaries, 0) == Original(l) && ReplicaOf(l, 0, 0) == l.primaries
  {
    assert (p + 1) * l.replicas == p * l.replicas + l.replicas;
  }

  lemma ReplicaOffset(l: Layout, p: int, r: int)
    ensures ReplicaOf(l, p, r) == ReplicaOf(l, p, 0) + r
  {}

  /** Once a primary and all its replicas are recycled, the fresh part grows by them. */
  lemma FreshGrows(l: Layout, pods: seq<Pod>, p: int, attached: set<int>)
    requires |pods| == All(l) && 0 <= p < l.primaries <= All(l) && Fresh(l, pods, p) && pods[p].New?
    requires Unsettled(l, pods, p, attached, 0) == l.replicas
    ensures Fresh(l, pods, p - 1)
  {
    BlockEnd(l, p);
    forall o | ReplicaOf(l, p, 0) <= o < All(l) && 0 <= o ensures pods[o].New? {
      if o < ReplicaOf(l, p + 1, 0) {
        var r := o - ReplicaOf(l, p, 0);
        ReplicaOffset(l, p, r);
        assert Settled(l, pods, p, attached, r);
      }
    }
  }

  lemma RecyclePods(l: Layout, s: State, o: int, input: Input)
    requires Shaped(l, s) && s.phase.RollingUpdate? && PodsOK(l, s) && 0 <= o < All(l) && Outdated(s.pods[o])
    ensures var t := Recycle(l, s, o, input);
            Shaped(l, t) && PodsOK(l, t)
  {}

  lemma UpdatePods(l: Layout, s: State, input: Input)
    requires Shaped(l, s) && s.phase.RollingUpdate? && PodsOK(l, s)
    ensures Shaped(l, Update(l, s, input)) && PodsOK(l, Update(l, s, input))
  {
    OrdinalsInRange(l);
    var p, k := s.partition, Unsettled(l, s.pods, s.partition, input.attached, 0);
    if Outdated(s.pods[p]) {
      RecyclePods(l, s, p, input);
    } else if s.pods[p].New? && k == l.replicas {
      FreshGrows(l, s.pods, p, input.attached);
    } else if k < l.replicas {
      ReplicaInRange(l, p, k);
      if Outdated(s.pods[ReplicaOf(l, p, k)]) {
        RecyclePods(l, s, ReplicaOf(l, p, k), input);
      }
    }
  }

  lemma ScaleUpPods(l: Layout, s: State, input: Input)
    requires Shaped(l, s) && s.phase.ScalingUp? && PodsOK(l, s)
    ensures Shaped(l, ScaleUp(l, s, input)) && PodsOK(l, ScaleUp(l, s, input))
  {
    BlockEnd(l, l.primaries - 1);
  }

  lemma AllFresh(l: Layout, pods: seq<Pod>)
    requires l.primaries >= 1 && |pods| == All(l) && Fresh(l, pods, -1)
    ensures forall o | 0 <= o < All(l) :: pods[o].New?
  {
    BlockEnd(l, 0);
    OrdinalsInRange(l);
  }

  lemma EndPods(l: Layout, s: State, input: Input)
    requires Shaped(l, s) && s.phase.Ending? && PodsOK(l, s)
    ensures Shaped(l, End(l, s, input)) && PodsOK(l, End(l, s, input))
  {
    AllFresh(l, s.pods);
    OrdinalsInRange(l);
  }

  lemma ScaleDownPods(l: Layout, s: State, input: Input)
    requires Shaped(l, s) && s.phase.ScalingDown? && PodsOK(l, s)
    ensures Shaped(l, ScaleDown(l, s, input)) && PodsOK(l, ScaleDown(l, s, input))
  {
    OrdinalsInRange(l);
  }

  lemma StartPods(l: Layout, s: State, input: Input)
    requires Shaped(l, s) && s.phase.Starting? && PodsOK(l, s)
    ensures Shaped(l, Start(l, s, input)) && PodsOK(l, Start(l, s, input))
  {}

  lemma ReshardPods(l: Layout, s: State, input: Input)
    requires Shaped(l, s) && s.phase.Resharding? && PodsOK(l, s)
    ensures Shaped(l, Reshard(l, s, input)) && PodsOK(l, Reshard(l, s, input))
  {}

  lemma CyclePods(l: Layout, s: State, input: Input)
    requires Shaped(l, s) && PodsOK(l, s)
    ensures Shaped(l, Cycle(l, s, input)) && PodsOK(l, Cycle(l, s, input))
  {
    match s.phase {
      case Starting => StartPods(l, s, input);
      case ScalingUp => ScaleUpPods(l, s, input);
      case Resharding => ReshardPods(l, s, input);
      case RollingUpdate => UpdatePods(l, s, input);
      case Ending => EndPods(l, s, input);
      case ScalingDown => ScaleDownPods(l, s, input);
      case Ready =>
    }
  }

  // ----- What was deleted -----

  ghost predicate Finishing(s: State) {
    s.phase.ScalingDown? || s.phase.Ready?
  }

  /** No ordinal was deleted twice, and what was deleted no longer runs the outdated template. */
  ghost predicate LogOK(l: Layout, s: State)
    requires Shaped(l, s)
  {
    NoRepeats(s.deleted) &&
    forall o <- s.deleted ::
      0 <= o < All(l) && !s.pods[o].Old? && (o >= Original(l) ==> Finishing(s) && s.size == Original(l))
  }

  lemma RecycleLog(l: Layout, s: State, o: int, input: Input)
    requires Shaped(l, s) && LogOK(l, s) && 0 <= o < Original(l) <= All(l) && Outdated(s.pods[o])
    ensures var t := Recycle(l, s, o, input);
            Shaped(l, t) && LogOK(l, t)
  {
    if s.pods[o].Old? {
      NoRepeatsSnoc(s.deleted, o);
    }
  }

  lemma {:induction false} FilterNoRepeats<A>(keep: A -> bool, xs: seq<A>)
    requires NoRepeats(xs)
    ensures NoRepeats(Filter(keep, xs))
  {
    if xs != [] {
      var n := |xs| - 1;
      FilterNoRepeats(keep, xs[..n]);
      FilterMember(keep, xs[..n], xs[n]);
      if keep(xs[n]) && xs[n] !in Filter(keep, xs[..n]) {
        NoRepeatsSnoc(Filter(keep, xs[..n]), xs[n]);
      }
    }
  }

  lemma NoRepeatsAppend<A>(a: seq<A>, b: seq<A>)
    requires NoRepeats(a) && NoRepeats(b) && forall x <- b :: x !in a
    ensures NoRepeats(a + b)
  {
    assert forall i | 0 <= i < |a| :: a[i] in a;
    assert forall i | 0 <= i < |b| :: b[i] in b;
  }

  function Extras(l: Layout): seq<int> {
    seq(1 + l.replicas, i => Original(l) + i)
  }

  lemma ShrinkDeletes(l: Layout, s: State, o: int)
    ensures o in Filter(IsPresent(s.pods), Extras(l)) ==>
              Original(l) <= o < All(l) && IsPresent(s.pods)(o)
    ensures NoRepeats(Filter(IsPresent(s.pods), Extras(l)))
  {
    FilterMember(IsPresent(s.pods), Extras(l), o);
    FilterNoRepeats(IsPresent(s.pods), Extras(l));
  }

  lemma ShrinkLog(l: Layout, s: State)
    requires Shaped(l, s) && LogOK(l, s) && PodsOK(l, s) && s.phase.ScalingDown?
    ensures Shaped(l, Shrink(l, s)) && LogOK(l, Shrink(l, s))
  {
    OrdinalsInRange(l);
    var gone := Filter(IsPresent(s.pods), Extras(l));
    assert Shrink(l, s).deleted == s.deleted + gone;
    ShrinkDeletes(l, s, 0);
    forall o <- gone ensures o !in s.deleted && Original(l) <= o < All(l) {
      ShrinkDeletes(l, s, o);
    }
    NoRepeatsAppend(s.deleted, gone);
  }

  lemma UpdateLog(l: Layout, s: State, input: Input)
    requires Shaped(l, s) && s.phase.RollingUpdate? && LogOK(l, s)
    ensures Shaped(l, Update(l, s, input)) && LogOK(l, Update(l, s, input))
  {
    OrdinalsInRange(l);
    var p, k := s.partition, Unsettled(l, s.pods, s.partition, input.attached, 0);
    if Outdated(s.pods[p]) {
      RecycleLog(l, s, p, input);
    } else if k < l.replicas {
      ReplicaInRange(l, p, k);
      if Outdated(s.pods[ReplicaOf(l, p, k)]) {
        RecycleLog(l, s, ReplicaOf(l, p, k), input);
      }
    }
  }

  lemma SameLog(l: Layout, s: State, t: State)
    requires Shaped(l, s) && Shaped(l, t) && LogOK(l, s) && t.deleted == s.deleted && t.pods == s.pods
    requires Finishing(s) ==> Finishing(t) && t.size == s.size
    ensures LogOK(l, t)
  {}

  lemma ReshardKeeps(l: Layout, s: State, input: Input)
    requires Shaped(l, s) && s.phase.Resharding?
    ensures var t := Reshard(l, s, input);
            Shaped(l, t) && t.deleted == s.deleted && t.pods == s.pods && t.size == s.size
  {}

  lemma EndKeeps(l: Layout, s: State, input: Input)
    requires Shaped(l, s) && s.phase.Ending?
    ensures var t := End(l, s, input);
            Shaped(l, t) && t.deleted == s.deleted && t.pods == s.pods && t.size == s.size
  {}

  lemma ScaleDownLog(l: Layout, s: State, input: Input)
    requires Shaped(l, s) && LogOK(l, s) && PodsOK(l, s) && s.phase.ScalingDown?
    ensures Shaped(l, ScaleDown(l, s, input)) && LogOK(l, ScaleDown(l, s, input))
  {
    if input.reached {
      ShrinkLog(l, s);
      SameLog(l, Shrink(l, s), ScaleDown(l, s, input));
    }
  }

  lemma CycleLog(l: Layout, s: State, input: Input)
    requires Shaped(l, s) && LogOK(l, s) && PodsOK(l, s)
    ensures Shaped(l, Cycle(l, s, input)) && LogOK(l, Cycle(l, s, input))
  {
    match s.phase {
      case Starting => SameLog(l, s, Start(l, s, input));
      case ScalingUp => SameLog(l, s, ScaleUp(l, s, input));
      case Resharding =>
        ReshardKeeps(l, s, input);
        SameLog(l, s, Reshard(l, s, input));
      case RollingUpdate => UpdateLog(l, s, input);
      case Ending =>
        EndKeeps(l, s, input);
        SameLog(l, s, End(l, s, input));
      case ScalingDown => ScaleDownLog(l, s, input);
      case Ready =>
    }
  }

  // ----- Every run -----

  ghost predicate Safe(l: Layout, s: State, init: seq<set<int>>) {
    Shaped(l, s) && |init| == l.primaries && OwnsOK(l, s, init) && PodsOK(l, s) && LogOK(l, s)
  }

  lemma ReturnSafe(l: Layout, s: State, t: State, init: seq<set<int>>)
    requires Safe(l, s, init) && (Returns(l, s, t) || Stops(l, s, t))
    ensures Safe(l, t, init)
  {}

  lemma NextSafe(l: Layout, s: State, t: State, init: seq<set<int>>)
    requires Safe(l, s, init) && Next(l, s, t)
    ensures Safe(l, t, init)
  {
    if input :| t == Cycle(l, s, input) {
      CycleOwns(l, s, init, input);
      CyclePods(l, s, input);
      CycleLog(l, s, input);
    } else {
      ReturnSafe(l, s, t, init);
    }
  }

  lemma InitialSafe(l: Layout, s: State, init: seq<set<int>>)
    requires Initial(l, s, init)
    ensures Safe(l, s, init)
  {
    OrdinalsInRange(l);
  }

  lemma {:induction false} RunSafe(l: Layout, run: seq<State>, init: seq<set<int>>, i: nat)
    requires Run(l, run, init) && i < |run|
    ensures Safe(l, run[i], init)
  {
    if i == 0 {
      InitialSafe(l, run[0], init);
    } else {
      RunSafe(l, run, init, i - 1);
      assert NextAt(l, run, i - 1);
      NextSafe(l, run[i - 1], run[i], init);
    }
  }

  // ----- No slot is lost or shared -----

  /** The primary whose slots an ordinal holds, wholly or in part. */
  function Origin(l: Layout, s: State, o: int): int {
    if s.phase.Starting? || s.phase.ScalingUp? then o
    else if s.phase.Resharding? || s.phase.RollingUpdate? then
      if o <= s.partition then o else if o < l.primaries then o - 1 else l.primaries - 1
    else if 0 < o < l.primaries then o - 1 else l.primaries - 1
  }

  lemma HoldsOrigin(l: Layout, s: State, init: seq<set<int>>, o: int)
    requires Shaped(l, s) && |init| == l.primaries && OwnsOK(l, s, init) && 0 <= o < All(l) && s.own[o] != {}
    ensures 0 <= Origin(l, s, o) < l.primaries && s.own[o] <= init[Origin(l, s, o)]
  {
    OrdinalsInRange(l);
  }

  lemma OriginsApart(l: Layout, s: State, init: seq<set<int>>, o: int, other: int)
    requires Shaped(l, s) && |init| == l.primaries && OwnsOK(l, s, init)
    requires 0 <= o < other < All(l) && Origin(l, s, o) == Origin(l, s, other)
    ensures s.own[o] !! s.own[other]
  {
    OrdinalsInRange(l);
  }

  lemma OriginHeld(l: Layout, s: State, init: seq<set<int>>, j: int, slot: int) returns (o: int)
    requires Shaped(l, s) && |init| == l.primaries && OwnsOK(l, s, init) && 0 <= j < l.primaries && slot in init[j]
    ensures 0 <= o < All(l) && slot in s.own[o]
  {
    OrdinalsInRange(l);
    var pivot := PivotOf(l);
    match s.phase {
      case Starting => o := j;
      case ScalingUp => o := j;
      case Resharding =>
        if j == s.partition {
          o := if slot in s.own[j] then j else Destination(l, j);
        } else {
          o := if j < s.partition then j else Destination(l, j);
        }
      case RollingUpdate => o := if j < s.partition then j else Destination(l, j);
      case Ending =>
        if j < l.primaries - 1 {
          o := j + 1;
        } else {
          o := if slot in s.own[0] then 0 else pivot;
        }
      case _ => o := if j < l.primaries - 1 then j + 1 else 0;
    }
  }

  ghost predicate Apart(own: seq<set<int>>) {
    forall o, other | 0 <= o < other < |own| :: own[o] !! own[other]
  }

  /** Wherever a run stands, the slots owned are those owned at the start, and no slot has two owners. */
  lemma SlotsStayPartitioned(l: Layout, run: seq<State>, init: seq<set<int>>, i: nat, slot: int)
    requires Run(l, run, init) && i < |run|
    ensures (exists o :: 0 <= o < |run[i].own| && slot in run[i].own[o]) <==>
            (exists j :: 0 <= j < |init| && slot in init[j])
    ensures Apart(init) ==> Apart(run[i].own)
  {
    RunSafe(l, run, init, i);
    SafePartition(l, run[i], init, slot);
  }

  lemma SafePartition(l: Layout, s: State, init: seq<set<int>>, slot: int)
    requires Safe(l, s, init)
    ensures (exists o :: 0 <= o < |s.own| && slot in s.own[o]) <==> (exists j :: 0 <= j < |init| && slot in init[j])
    ensures Apart(init) ==> Apart(s.own)
  {
    if o :| 0 <= o < |s.own| && slot in s.own[o] {
      HoldsOrigin(l, s, init, o);
    }
    if j :| 0 <= j < |init| && slot in init[j] {
      var o := OriginHeld(l, s, init, j, slot);
    }
    if Apart(init) {
      forall o, other | 0 <= o < other < |s.own| ensures s.own[o] !! s.own[other] {
        ApartAt(l, s, init, o, other);
      }
    }
  }

  lemma ApartAt(l: Layout, s: State, init: seq<set<int>>, o: int, other: int)
    requires Safe(l, s, init) && Apart(init) && 0 <= o < other < |s.own|
    ensures s.own[o] !! s.own[other]
  {
    if s.own[o] != {} && s.own[other] != {} {
      HoldsOrigin(l, s, init, o);
      HoldsOrigin(l, s, init, other);
      if Origin(l, s, o) == Origin(l, s, other) {
        OriginsApart(l, s, init, o, other);
      }
    }
  }

  lemma DeletionSource(l: Layout, s: State, input: Input, o: int)
    requires Shaped(l, s) && o in Cycle(l, s, input).deleted && o !in s.deleted
    ensures s.phase.RollingUpdate? || (s.phase.ScalingDown? && Original(l) <= o < All(l))
  {
    OrdinalsInRange(l);
    match s.phase {
      case ScalingDown =>
        assert Shrink(l, s).deleted == s.deleted + Filter(IsPresent(s.pods), Extras(l));
        ShrinkDeletes(l, s, o);
      case _ =>
    }
  }

  lemma UpdateDeletes(l: Layout, s: State, input: Input, o: int)
    requires Shaped(l, s) && s.phase.RollingUpdate? && o in Update(l, s, input).deleted && o !in s.deleted
    ensures o == s.partition || l.primaries <= o < Original(l) < All(l)
  {
    OrdinalsInRange(l);
    var k := Unsettled(l, s.pods, s.partition, input.attached, 0);
    if k < l.replicas {
      ReplicaInRange(l, s.partition, k);
    }
  }

  /** A pod is deleted only while its node owns no slot. */
  lemma DeletesOnlyEmpty(l: Layout, s: State, t: State, init: seq<set<int>>, o: int)
    requires Safe(l, s, init) && Next(l, s, t) && o in t.deleted && o !in s.deleted
    ensures 0 <= o < All(l) && s.own[o] == {}
  {
    OrdinalsInRange(l);
    var input :| t == Cycle(l, s, input);
    DeletionSource(l, s, input, o);
    if s.phase.RollingUpdate? {
      UpdateDeletes(l, s, input, o);
    }
  }

  /** A node is reset only while it owns no slot and its pod is to be replaced. */
  lemma FlushesOnlyEmpty(l: Layout, s: State, init: seq<set<int>>, input: Input, o: int)
    requires Safe(l, s, init) && o in FlushedIn(l, s, input)
    ensures 0 <= o < All(l) && s.own[o] == {} && Outdated(s.pods[o])
  {
    OrdinalsInRange(l);
    var k := Unsettled(l, s.pods, s.partition, input.attached, 0);
    if k < l.replicas {
      UnsettledReplica(l, s, input);
    }
  }

  /** A finished upgrade: slots rotated by one, every original pod on the new template, the extra ones gone. */
  lemma OutcomeWhenReady(l: Layout, run: seq<State>, init: seq<set<int>>, i: nat)
    requires Run(l, run, init) && i < |run| && run[i].phase.Ready?
    ensures Shaped(l, run[i]) && Rotated(l, run[i].own, init) && run[i].size == Original(l)
    ensures forall o | 0 <= o < All(l) :: if o < Original(l) then run[i].pods[o].New? else run[i].pods[o].Gone?
  {
    RunSafe(l, run, init, i);
  }

  /** In every run each ordinal is deleted at most once. */
  lemma DeletedOnce(l: Layout, run: seq<State>, init: seq<set<int>>, i: nat)
    requires Run(l, run, init) && i < |run|
    ensures NoRepeats(run[i].deleted)
  {
    RunSafe(l, run, init, i);
  }

  // ----- Every step that does something brings the end nearer -----

  /** Phases and partitions still to come. */
  function StagesLeft(l: Layout, s: State): int {
    match s.phase
    case Starting => 2 * l.primaries + 4
    case ScalingUp => 2 * l.primaries + 3
    case Resharding => 2 * s.partition + 4
    case RollingUpdate => 2 * s.partition + 3
    case Ending => 2
    case ScalingDown => 1
    case Ready => 0
  }

  /** What the current phase has left to do besides recycling pods: slots to move, or a StatefulSet to resize. */
  function WorkLeft(l: Layout, s: State): int
    requires Shaped(l, s)
  {
    OrdinalsInRange(l);
    match s.phase
    case Starting => if s.size == All(l) then 0 else 1
    case Resharding => |s.own[s.partition]|
    case Ending => |s.own[PivotOf(l)]|
    case ScalingDown => if s.size == Original(l) then 0 else 1
    case _ => 0
  }

  function PodWork(pod: Pod): int {
    match pod
    case Old => 3
    case Terminating => 2
    case Gone => 1
    case New => 0
  }

  function PodsLeft(s: State): int {
    Sum(PodWork, s.pods)
  }

  ghost predicate Lower(l: Layout, t: State, s: State)
    requires Shaped(l, s) && Shaped(l, t)
  {
    StagesLeft(l, t) < StagesLeft(l, s) ||
    (StagesLeft(l, t) == StagesLeft(l, s) &&
     (WorkLeft(l, t) < WorkLeft(l, s) || (WorkLeft(l, t) == WorkLeft(l, s) && PodsLeft(t) < PodsLeft(s))))
  }

  lemma PodChange(s: State, o: int, pod: Pod)
    requires 0 <= o < |s.pods| && PodWork(pod) < PodWork(s.pods[o])
    ensures Sum(PodWork, s.pods[o := pod]) < PodsLeft(s)
  {
    SumReplace(PodWork, s.pods, o, pod);
  }

  lemma RecycleLowers(l: Layout, s: State, o: int, input: Input)
    requires Shaped(l, s) && s.phase.RollingUpdate? && 0 <= o < All(l) && s.own[o] == {} && Outdated(s.pods[o])
    ensures var t := Recycle(l, s, o, input);
            Shaped(l, t) && (t == s || Lower(l, t, s))
  {
    RecycleOwns(l, s, o, input);
    if s.pods[o].Old? {
      PodChange(s, o, Terminating);
    }
  }

  lemma UpdateLowers(l: Layout, s: State, init: seq<set<int>>, input: Input)
    requires Safe(l, s, init) && s.phase.RollingUpdate?
    ensures var t := Update(l, s, input);
            Shaped(l, t) && (t == s || Lower(l, t, s))
  {
    OrdinalsInRange(l);
    var k := Unsettled(l, s.pods, s.partition, input.attached, 0);
    if Outdated(s.pods[s.partition]) {
      RecycleLowers(l, s, s.partition, input);
    } else if k < l.replicas {
      UnsettledReplica(l, s, input);
      if Outdated(s.pods[ReplicaOf(l, s.partition, k)]) {
        RecycleLowers(l, s, ReplicaOf(l, s.partition, k), input);
      }
    }
  }

  lemma TakesNothing(a: set<int>, b: set<int>)
    requires a * b == {}
    ensures a - b == a
  {
    assert forall x <- a :: x !in a * b;
  }

  lemma MoveLowers(own: seq<set<int>>, from: int, to: int, moved: set<int>)
    requires 0 <= from < |own| && 0 <= to < |own| && from != to
    ensures var next := MoveSlots(own, from, to, moved);
            next == own || |next[from]| < |own[from]|
  {
    var next := MoveSlots(own, from, to, moved);
    if own[from] * moved == {} {
      TakesNothing(own[from], moved);
      assert own[to] + own[from] * moved == own[to];
      assert next == own;
    } else {
      assert own[from] == next[from] + own[from] * moved;
    }
  }

  lemma ReshardLowers(l: Layout, s: State, input: Input)
    requires Shaped(l, s) && s.phase.Resharding?
    ensures var t := Reshard(l, s, input);
            Shaped(l, t) && (t == s || Lower(l, t, s))
  {
    OrdinalsInRange(l);
    MoveLowers(s.own, s.partition, Destination(l, s.partition), input.moved);
  }

  lemma EndLowers(l: Layout, s: State, input: Input)
    requires Shaped(l, s) && s.phase.Ending?
    ensures var t := End(l, s, input);
            Shaped(l, t) && (t == s || Lower(l, t, s))
  {
    OrdinalsInRange(l);
    MoveLowers(s.own, PivotOf(l), 0, input.moved);
  }

  lemma ShrunkAlready(l: Layout, s: State, init: seq<set<int>>)
    requires Safe(l, s, init) && s.phase.ScalingDown? && s.size == Original(l)
    ensures Shrink(l, s) == s
  {
    OrdinalsInRange(l);
    ShrinkOwns(l, s);
    assert Shrink(l, s).pods == s.pods;
    var gone := Filter(IsPresent(s.pods), Extras(l));
    assert Shrink(l, s).deleted == s.deleted + gone;
    if gone != [] {
      ShrinkDeletes(l, s, gone[0]);
    }
  }

  lemma ScaleDownLowers(l: Layout, s: State, init: seq<set<int>>, input: Input)
    requires Safe(l, s, init) && s.phase.ScalingDown?
    ensures var t := ScaleDown(l, s, input);
            Shaped(l, t) && (t == s || Lower(l, t, s))
  {
    if s.size == Original(l) {
      ShrunkAlready(l, s, init);
    }
  }

  lemma CycleLowers(l: Layout, s: State, init: seq<set<int>>, input: Input)
    requires Safe(l, s, init)
    ensures var t := Cycle(l, s, input);
            Shaped(l, t) && (t == s || Lower(l, t, s))
  {
    match s.phase {
      case Starting => OrdinalsInRange(l);
      case ScalingUp =>
      case Resharding => ReshardLowers(l, s, input);
      case RollingUpdate => UpdateLowers(l, s, init, input);
      case Ending => EndLowers(l, s, input);
      case ScalingDown => ScaleDownLowers(l, s, init, input);
      case Ready =>
    }
  }

  lemma ReturnLowers(l: Layout, s: State, t: State)
    requires Shaped(l, s) && (Returns(l, s, t) || Stops(l, s, t))
    ensures Shaped(l, t) && Lower(l, t, s)
  {
    if Stops(l, s, t) {
      var o :| 0 <= o < |s.pods| && s.pods[o].Terminating? && t == s.(pods := s.pods[o := Gone]);
      PodChange(s, o, Gone);
      return;
    }
    var o :| 0 <= o < s.size && o < |s.pods| && s.pods[o].Gone? && t == s.(pods := s.pods[o := New]);
    PodChange(s, o, New);
  }

  /** A step of a run changes nothing, or lowers the stages, the work of the stage, or the pods left. */
  lemma StepLowers(l: Layout, s: State, t: State, init: seq<set<int>>)
    requires Safe(l, s, init) && Next(l, s, t)
    ensures Shaped(l, t) && (t == s || Lower(l, t, s))
  {
    if input :| t == Cycle(l, s, input) {
      CycleLowers(l, s, init, input);
    } else {
      ReturnLowers(l, s, t);
    }
  }

  lemma MeasureBounded(l: Layout, s: State)
    requires Shaped(l, s)
    ensures StagesLeft(l, s) >= 0 && WorkLeft(l, s) >= 0 && PodsLeft(s) >= 0
  {
    SumNonNegative(PodWork, s.pods);
  }

  // ----- The upgrade can always be completed -----

  /** Everything asked of the world in one cycle succeeds. */
  function AllWell(moved: set<int>, attached: set<int>): Input {
    Input(true, moved, true, true, Flushed, true, attached, true, true)
  }

  function UpTo(n: nat): (all: set<int>)
    ensures forall r | 0 <= r < n :: r in all
  {
    if n == 0 then {} else UpTo(n - 1) + {n - 1}
  }

  lemma UpdateProgress(l: Layout, s: State, init: seq<set<int>>)
    requires Safe(l, s, init) && s.phase.RollingUpdate? && forall o | 0 <= o < All(l) :: !s.pods[o].Gone? && !s.pods[o].Terminating?
    ensures Update(l, s, AllWell({}, UpTo(l.replicas))) != s
  {
    OrdinalsInRange(l);
    var k := Unsettled(l, s.pods, s.partition, UpTo(l.replicas), 0);
    if s.pods[s.partition].New? && k < l.replicas {
      ReplicaInRange(l, s.partition, k);
      assert !Settled(l, s.pods, s.partition, UpTo(l.replicas), k);
      assert s.pods[ReplicaOf(l, s.partition, k)].Old?;
    }
  }

  lemma ReshardProgress(l: Layout, s: State)
    requires Shaped(l, s) && s.phase.Resharding? && forall o | 0 <= o < All(l) :: !s.pods[o].Gone? && !s.pods[o].Terminating?
    ensures Reshard(l, s, AllWell(s.own[s.partition], {})) != s
  {
    OrdinalsInRange(l);
  }

  lemma EndProgress(l: Layout, s: State)
    requires Shaped(l, s) && s.phase.Ending? && forall o | 0 <= o < All(l) :: !s.pods[o].Gone? && !s.pods[o].Terminating?
    ensures 0 <= PivotOf(l) < All(l) && End(l, s, AllWell(s.own[PivotOf(l)], {})) != s
  {
    OrdinalsInRange(l);
  }

  ghost predicate Away(s: State) {
    exists o :: 0 <= o < s.size && o < |s.pods| && (s.pods[o].Gone? || s.pods[o].Terminating?)
  }

  lemma SomeAway(l: Layout, s: State) returns (t: State)
    requires Shaped(l, s) && Away(s)
    ensures Next(l, s, t) && t != s
  {
    var o :| 0 <= o < s.size && o < |s.pods| && (s.pods[o].Gone? || s.pods[o].Terminating?);
    t := s.(pods := s.pods[o := if s.pods[o].Gone? then New else Gone]);
    assert t.pods[o] != s.pods[o];
    assert if s.pods[o].Gone? then Returns(l, s, t) else Stops(l, s, t);
  }

  /** As long as the upgrade is not finished, some step brings it forward. */
  lemma CanProgress(l: Layout, s: State, init: seq<set<int>>) returns (t: State)
    requires Safe(l, s, init) && !s.phase.Ready?
    ensures Next(l, s, t) && t != s
  {
    OrdinalsInRange(l);
    if Away(s) {
      t := SomeAway(l, s);
    } else {
      var input := AllWell({}, UpTo(l.replicas));
      match s.phase {
        case Resharding =>
          input := AllWell(s.own[s.partition], {});
          ReshardProgress(l, s);
        case RollingUpdate => UpdateProgress(l, s, init);
        case Ending =>
          input := AllWell(s.own[PivotOf(l)], {});
          EndProgress(l, s);
        case _ =>
      }
      t := Cycle(l, s, input);
    }
  }

  /** From every state a run can reach, the upgrade can still be completed. */
  lemma {:induction false} CanComplete(l: Layout, s: State, init: seq<set<int>>) returns (run: seq<State>)
    requires Safe(l, s, init)
    ensures run != [] && run[0] == s && run[|run| - 1].phase.Ready?
    ensures forall i | 0 <= i < |run| - 1 :: NextAt(l, run, i)
    decreases StagesLeft(l, s), if Shaped(l, s) then WorkLeft(l, s) else 0, PodsLeft(s)
  {
    if s.phase.Ready? {
      run := [s];
    } else {
      var t := CanProgress(l, s, init);
      NextSafe(l, s, t, init);
      StepLowers(l, s, t, init);
      MeasureBounded(l, s);
      MeasureBounded(l, t);
      var rest := CanComplete(l, t, init);
      run := [s] + rest;
      RunPrepend(l, s, rest);
    }
  }

  lemma RunPrepend(l: Layout, s: State, rest: seq<State>)
    requires rest != [] && Next(l, s, rest[0]) && forall i | 0 <= i < |rest| - 1 :: NextAt(l, rest, i)
    ensures forall i | 0 <= i < |[s] + rest| - 1 :: NextAt(l, [s] + rest, i)
  {
    forall i | 0 <= i < |rest| ensures NextAt(l, [s] + rest, i) {
      if i > 0 {
        assert NextAt(l, rest, i - 1);
      }
    }
  }
}
