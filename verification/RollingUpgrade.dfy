/**
 The rolling N+1 upgrade as the state machine that Robin persists: internal/reconciler/upgrade_reconciler.go.
 One handler runs per cycle, on the substatus and partition as last written; a write may be lost, a reshard may
 move only some slots, and a cycle may end early anywhere. UpgradeRuns says what every run keeps and reaches.
 */
module RollingUpgrade {
  import opened Lists
  import opened Ordinals

  datatype Layout = Layout(primaries: nat, replicas: nat, ephemeral: bool)

  datatype Phase = Starting | ScalingUp | Resharding | RollingUpdate | Ending | ScalingDown | Ready

  /**
   A pod on the outdated template, the same once it was deleted and has not stopped yet, deleted and not yet back,
   or on the new template.
   */
  datatype Pod = Old | Terminating | Gone | New

  predicate Outdated(pod: Pod) {
    pod.Old? || pod.Terminating?
  }

  /** How far flushing a node before its deletion came: CLUSTER RESET drops its slot assignment, SAVE comes last. */
  datatype Flush = NotReset | ResetOnly | Flushed

  /**
   What the world answers in one cycle: whether the preparations (healing, addresses, queries) let the handler
   proceed; which slots the reshard moved and whether it returned without error; whether the replicas of the
   emptied node were forgotten; how the flush went and whether the delete was accepted; which replicas could be
   attached; whether the final checks passed; and whether the status write got through.
   */
  datatype Input = Input(
    reached: bool, moved: set<int>, complete: bool, settled: bool, flush: Flush, deletes: bool,
    attached: set<int>, checked: bool, written: bool)

  /**
   The persisted substatus and partition, the StatefulSet's size, its pods and slot owners by ordinal, and a log of
   the pods that were deleted; deleting a pod that is terminating already has no effect.
   */
  datatype State = State(
    phase: Phase, partition: int, size: int, own: seq<set<int>>, pods: seq<Pod>, deleted: seq<int>)

  function All(l: Layout): nat {
    Target(l.primaries, l.replicas)
  }

  function Original(l: Layout): nat {
    Total(l.primaries, l.replicas)
  }

  function PivotOf(l: Layout): int {
    Ordinal(l.primaries, l.replicas, Pivot)
  }

  function ReplicaOf(l: Layout, p: int, r: int): int {
    Ordinal(l.primaries, l.replicas, ReplicaAt(p, r))
  }

  predicate Shaped(l: Layout, s: State) {
    l.primaries >= 1 && |s.own| == All(l) && |s.pods| == All(l) &&
    (s.phase.Resharding? || s.phase.RollingUpdate? ==> 0 <= s.partition < l.primaries)
  }

  predicate Present(pods: seq<Pod>, n: int) {
    forall o | 0 <= o < n && o < |pods| :: !pods[o].Gone?
  }

  // ----- What one cycle does -----

  function Start(l: Layout, s: State, input: Input): State {
    if input.reached then s.(size := All(l), phase := if input.written then ScalingUp else s.phase) else s
  }

  function ScaleUp(l: Layout, s: State, input: Input): State {
    if input.reached && Present(s.pods, All(l)) && input.written then
      s.(phase := Resharding, partition := l.primaries - 1)
    else s
  }

  /** The last primary hands its slots to the pivot, any other one to the next primary. */
  function Destination(l: Layout, p: int): int {
    if p == l.primaries - 1 then PivotOf(l) else p + 1
  }

  function MoveSlots(own: seq<set<int>>, from: int, to: int, moved: set<int>): seq<set<int>>
    requires 0 <= from < |own| && 0 <= to < |own|
  {
    own[to := own[to] + own[from] * moved][from := own[from] - moved]
  }

  lemma OrdinalsInRange(l: Layout)
    requires l.primaries >= 1
    ensures l.primaries <= Original(l) == PivotOf(l) < All(l)
    ensures forall p, r | 0 <= p < l.primaries && 0 <= r < l.replicas ::
              l.primaries <= ReplicaOf(l, p, r) < Original(l)
  {
    Scales(0, l.primaries, l.replicas);
    forall p, r | 0 <= p < l.primaries && 0 <= r < l.replicas
      ensures l.primaries <= ReplicaOf(l, p, r) < Original(l)
    {
      BlockWithin(p, l.primaries, l.replicas, r);
    }
  }

  function Reshard(l: Layout, s: State, input: Input): State
    requires Shaped(l, s) && s.phase.Resharding?
  {
    OrdinalsInRange(l);
    var p, to := s.partition, Destination(l, s.partition);
    if !input.reached || s.pods[to].Gone? || s.pods[p].Gone? then s
    else if s.own[p] == {} then s.(phase := if input.written then RollingUpdate else s.phase)
    else
      var own := MoveSlots(s.own, p, to, input.moved);
      var done := input.complete && own[p] == {} && (l.replicas == 0 || input.settled) && input.written;
      s.(own := own, phase := if done then RollingUpdate else s.phase)
  }

  /** Flushes a node of a persistent cluster and deletes its pod; either drops whatever the node still owns. */
  function Recycle(l: Layout, s: State, o: int, input: Input): State
    requires Shaped(l, s) && 0 <= o < All(l)
  {
    if !l.ephemeral && input.flush.NotReset? then s
    else if (!l.ephemeral && !input.flush.Flushed?) || !input.deletes then
      if l.ephemeral then s else s.(own := s.own[o := {}])
    else if s.pods[o].Old? then
      s.(own := s.own[o := {}], pods := s.pods[o := Terminating], deleted := s.deleted + [o])
    else s.(own := s.own[o := {}])
  }

  lemma ReplicaInRange(l: Layout, p: int, r: int)
    requires 0 <= p < l.primaries && 0 <= r < l.replicas
    ensures l.primaries <= ReplicaOf(l, p, r) < Original(l) < All(l)
  {
    BlockWithin(p, l.primaries, l.replicas, r);
  }

  /** Whether a replica of the primary is recycled and attached. */
  predicate Settled(l: Layout, pods: seq<Pod>, p: int, attached: set<int>, r: int)
    requires |pods| == All(l) && 0 <= p < l.primaries && 0 <= r < l.replicas
  {
    ReplicaInRange(l, p, r);
    pods[ReplicaOf(l, p, r)].New? && r in attached
  }

  /** The first replica of the primary, from `r` on, that is not settled. */
  function Unsettled(l: Layout, pods: seq<Pod>, p: int, attached: set<int>, r: nat): (k: nat)
    requires |pods| == All(l) && 0 <= p < l.primaries && r <= l.replicas
    ensures r <= k <= l.replicas
    ensures k < l.replicas ==> !Settled(l, pods, p, attached, k)
    ensures forall i | r <= i < k :: Settled(l, pods, p, attached, i)
    decreases l.replicas - r
  {
    if r < l.replicas && Settled(l, pods, p, attached, r) then Unsettled(l, pods, p, attached, r + 1) else r
  }

  function RecycleReplicas(l: Layout, s: State, p: int, input: Input): State
    requires Shaped(l, s) && 0 <= p < l.primaries
  {
    OrdinalsInRange(l);
    var k := Unsettled(l, s.pods, p, input.attached, 0);
    if k < l.replicas && Outdated(s.pods[ReplicaOf(l, p, k)]) then Recycle(l, s, ReplicaOf(l, p, k), input) else s
  }

  function Update(l: Layout, s: State, input: Input): State
    requires Shaped(l, s) && s.phase.RollingUpdate?
  {
    OrdinalsInRange(l);
    var p := s.partition;
    if !input.reached || s.pods[p].Gone? then s
    else if Outdated(s.pods[p]) then Recycle(l, s, p, input)
    else if !input.settled || s.pods[PivotOf(l)].Gone? then s
    else if Unsettled(l, s.pods, p, input.attached, 0) < l.replicas then RecycleReplicas(l, s, p, input)
    else if !input.checked || !input.written then s
    else if p > 0 then s.(phase := Resharding, partition := p - 1)
    else s.(phase := Ending)
  }

  function End(l: Layout, s: State, input: Input): State
    requires Shaped(l, s)
  {
    OrdinalsInRange(l);
    var pivot := PivotOf(l);
    if !input.reached || s.pods[pivot].Gone? then s
    else if s.own[pivot] == {} then s.(phase := if input.settled && input.written then ScalingDown else s.phase)
    else if s.pods[0].Gone? then s
    else
      var own := MoveSlots(s.own, pivot, 0, input.moved);
      var done := input.complete && own[pivot] == {} && input.settled && input.written;
      s.(own := own, phase := if done then ScalingDown else s.phase)
  }

  /** Scaling the StatefulSet back deletes the pods beyond the original ones, with whatever they own. */
  function Shrink(l: Layout, s: State): State
    requires Shaped(l, s)
  {
    OrdinalsInRange(l);
    s.(size := Original(l),
       own := seq(All(l), o requires 0 <= o < |s.own| => if o < Original(l) then s.own[o] else {}),
       pods := seq(All(l), o requires 0 <= o < |s.pods| => if o < Original(l) then s.pods[o] else Gone),
       deleted := s.deleted + Filter(IsPresent(s.pods), seq(1 + l.replicas, i => Original(l) + i)))
  }

  function IsPresent(pods: seq<Pod>): int -> bool {
    (o: int) => 0 <= o < |pods| && !pods[o].Gone?
  }

  function ScaleDown(l: Layout, s: State, input: Input): State
    requires Shaped(l, s)
  {
    OrdinalsInRange(l);
    if !input.reached then s
    else
      var t := Shrink(l, s);
      if Present(t.pods, Original(l)) && input.checked && input.written then t.(phase := Ready, partition := 0) else t
  }

  /** One cycle of the rolling upgrade. */
  function Cycle(l: Layout, s: State, input: Input): State
    requires Shaped(l, s)
  {
    match s.phase
    case Starting => Start(l, s, input)
    case ScalingUp => ScaleUp(l, s, input)
    case Resharding => Reshard(l, s, input)
    case RollingUpdate => Update(l, s, input)
    case Ending => End(l, s, input)
    case ScalingDown => ScaleDown(l, s, input)
    case Ready => s
  }

  // ----- What one cycle resets and deletes -----

  function RecycledReplica(l: Layout, s: State, p: int, input: Input): Option<int>
    requires Shaped(l, s) && 0 <= p < l.primaries
  {
    OrdinalsInRange(l);
    var k := Unsettled(l, s.pods, p, input.attached, 0);
    if k < l.replicas && Outdated(s.pods[ReplicaOf(l, p, k)]) then Some(ReplicaOf(l, p, k)) else None
  }

  function RecycledInUpdate(l: Layout, s: State, input: Input): Option<int>
    requires Shaped(l, s) && s.phase.RollingUpdate?
  {
    OrdinalsInRange(l);
    var p := s.partition;
    if !input.reached || s.pods[p].Gone? then None
    else if Outdated(s.pods[p]) then Some(p)
    else if !input.settled || s.pods[PivotOf(l)].Gone? then None
    else RecycledReplica(l, s, p, input)
  }

  /** The ordinal that a cycle recycles. */
  function Recycled(l: Layout, s: State, input: Input): Option<int>
    requires Shaped(l, s)
  {
    if s.phase.RollingUpdate? then RecycledInUpdate(l, s, input) else None
  }

  /** The node that is reset when the given one is recycled. */
  function FlushedBy(l: Layout, o: Option<int>, input: Input): seq<int> {
    if !l.ephemeral && !input.flush.NotReset? then AsSeq(o) else []
  }

  /** The pod whose deletion is accepted when the given one is recycled. */
  function IssuedBy(l: Layout, o: Option<int>, input: Input): seq<int> {
    if input.deletes && (l.ephemeral || input.flush.Flushed?) then AsSeq(o) else []
  }

  /** The nodes that a cycle resets. */
  function FlushedIn(l: Layout, s: State, input: Input): seq<int>
    requires Shaped(l, s)
  {
    FlushedBy(l, Recycled(l, s, input), input)
  }

  /** The pods that a cycle deletes, those that terminate already included. */
  function IssuedIn(l: Layout, s: State, input: Input): seq<int>
    requires Shaped(l, s)
  {
    IssuedBy(l, Recycled(l, s, input), input)
  }

  // ----- The handlers -----

  class Reconciler {
    const layout: Layout
    var phase: Phase
    var partition: int
    var size: int
    var own: seq<set<int>>
    var pods: seq<Pod>
    var deleted: seq<int>
    /** The nodes that were reset, and the deletions that were accepted, in order. */
    var flushes: seq<int>
    var issued: seq<int>

    constructor (l: Layout, s: State)
      ensures layout == l && Current() == s && flushes == issued == []
    {
      layout := l;
      flushes, issued := [], [];
      phase, partition, size, own, pods, deleted := s.phase, s.partition, s.size, s.own, s.pods, s.deleted;
    }

    function Current(): State
      reads this
    {
      State(phase, partition, size, own, pods, deleted)
    }

    /** Writes substatus and partition together, unless the substatus is unchanged; a failed write is only logged. */
    method UpdateSubstatus(next: Phase, nextPartition: int, written: bool)
      modifies this`phase, this`partition
      ensures Current() == if written && next != old(phase) then
                old(Current()).(phase := next, partition := nextPartition) else old(Current())
    {
      if phase == next {
        return;
      }
      if written {
        phase, partition := next, nextPartition;
      }
    }

    method HandleUpgradeStart(input: Input)
      requires Shaped(layout, Current()) && phase.Starting?
      modifies this
      ensures Current() == Start(layout, old(Current()), input) && flushes == old(flushes) && issued == old(issued)
    {
      if !input.reached {
        return;
      }
      var currentTotal := layout.primaries + layout.primaries * layout.replicas;
      var extra := 1 + layout.replicas;
      size := currentTotal + extra;
      UpdateSubstatus(ScalingUp, partition, input.written);
    }

    method HandleUpgradeScalingUp(input: Input)
      requires Shaped(layout, Current()) && phase.ScalingUp?
      modifies this
      ensures Current() == ScaleUp(layout, old(Current()), input) && flushes == old(flushes) && issued == old(issued)
    {
      var ready := AllPodsPresent(All(layout));
      if !ready || !input.reached {
        return;
      }
      UpdateSubstatus(Resharding, layout.primaries - 1, input.written);
    }

    method AllPodsPresent(count: nat) returns (ready: bool)
      requires count <= |pods|
      ensures ready <==> Present(pods, count)
    {
      for o := 0 to count
        invariant Present(pods, o)
      {
        if pods[o].Gone? {
          return false;
        }
      }
      return true;
    }

    method HandleUpgradeResharding(input: Input)
      requires Shaped(layout, Current()) && phase.Resharding?
      modifies this
      ensures Current() == Reshard(layout, old(Current()), input) && flushes == old(flushes) && issued == old(issued)
    {
      OrdinalsInRange(layout);
      var destOrdinal;
      if partition == layout.primaries - 1 {
        destOrdinal := layout.primaries + layout.primaries * layout.replicas;
      } else {
        destOrdinal := partition + 1;
      }
      if !input.reached || pods[destOrdinal].Gone? || pods[partition].Gone? {
        return;
      }
      if own[partition] == {} {
        UpdateSubstatus(RollingUpdate, partition, input.written);
        return;
      }
      own := MoveSlots(own, partition, destOrdinal, input.moved);
      if !input.complete || own[partition] != {} {
        return;
      }
      if layout.replicas > 0 && !input.settled {
        return;
      }
      UpdateSubstatus(RollingUpdate, partition, input.written);
    }

    /** Returns whether the node was flushed; a hard reset drops its slots even when saving then fails. */
    method FlushAndPersistNode(o: int, input: Input) returns (ok: bool)
      requires 0 <= o < |own|
      modifies this`own, this`flushes
      ensures ok == input.flush.Flushed?
      ensures own == if input.flush.NotReset? then old(own) else old(own)[o := {}]
      ensures flushes == if input.flush.NotReset? then old(flushes) else old(flushes) + [o]
    {
      if input.flush.NotReset? {
        return false;
      }
      own, flushes := own[o := {}], flushes + [o];
      return input.flush.Flushed?;
    }

    method DeletePod(o: int, input: Input)
      requires 0 <= o < |own| && |pods| == |own|
      modifies this`own, this`pods, this`deleted, this`issued
      ensures issued == old(issued) + if input.deletes then [o] else []
      ensures own == if input.deletes then old(own)[o := {}] else old(own)
      ensures pods == if input.deletes && old(pods)[o].Old? then old(pods)[o := Terminating] else old(pods)
      ensures deleted == if input.deletes && old(pods)[o].Old? then old(deleted) + [o] else old(deleted)
    {
      if !input.deletes {
        return;
      }
      own, issued := own[o := {}], issued + [o];
      if pods[o].Old? {
        pods, deleted := pods[o := Terminating], deleted + [o];
      }
    }

    method FlushAndDelete(o: int, input: Input)
      requires Shaped(layout, Current()) && 0 <= o < All(layout)
      modifies this`own, this`pods, this`deleted, this`flushes, this`issued
      ensures Current() == Recycle(layout, old(Current()), o, input)
      ensures flushes == old(flushes) + FlushedBy(layout, Some(o), input)
      ensures issued == old(issued) + IssuedBy(layout, Some(o), input)
    {
      if !layout.ephemeral {
        var ok := FlushAndPersistNode(o, input);
        if !ok {
          return;
        }
      }
      DeletePod(o, input);
    }

    /** Succeeds once every replica of the primary runs the new template and is attached. */
    method RecycleReplicasForPrimary(p: int, input: Input) returns (ok: bool)
      requires Shaped(layout, Current()) && 0 <= p < layout.primaries
      modifies this`own, this`pods, this`deleted, this`flushes, this`issued
      ensures ok <==> Unsettled(layout, old(pods), p, input.attached, 0) == layout.replicas
      ensures Current() == RecycleReplicas(layout, old(Current()), p, input)
      ensures flushes == old(flushes) + FlushedBy(layout, RecycledReplica(layout, old(Current()), p, input), input)
      ensures issued == old(issued) + IssuedBy(layout, RecycledReplica(layout, old(Current()), p, input), input)
    {
      OrdinalsInRange(layout);
      for r := 0 to layout.replicas
        invariant Current() == old(Current()) && flushes == old(flushes) && issued == old(issued)
        invariant Unsettled(layout, pods, p, input.attached, 0) == Unsettled(layout, pods, p, input.attached, r)
      {
        var replicaOrdinal := layout.primaries + p * layout.replicas + r;
        if pods[replicaOrdinal].Gone? {
          return false;
        }
        if Outdated(pods[replicaOrdinal]) {
          FlushAndDelete(replicaOrdinal, input);
          return false;
        }
        if r !in input.attached {
          return false;
        }
      }
      return true;
    }

    method HandleUpgradeRollingUpdate(input: Input)
      requires Shaped(layout, Current()) && phase.RollingUpdate?
      modifies this
      ensures Current() == Update(layout, old(Current()), input)
      ensures flushes == old(flushes) + FlushedBy(layout, RecycledInUpdate(layout, old(Current()), input), input)
      ensures issued == old(issued) + IssuedBy(layout, RecycledInUpdate(layout, old(Current()), input), input)
    {
      OrdinalsInRange(layout);
      if !input.reached || pods[partition].Gone? {
        return;
      }
      if Outdated(pods[partition]) {
        FlushAndDelete(partition, input);
        return;
      }
      var seedOrdinal := layout.primaries + layout.primaries * layout.replicas;
      if !input.settled || pods[seedOrdinal].Gone? {
        return;
      }
      if layout.replicas > 0 {
        var ok := RecycleReplicasForPrimary(partition, input);
        if !ok {
          return;
        }
      }
      if !input.checked {
        return;
      }
      if partition > 0 {
        UpdateSubstatus(Resharding, partition - 1, input.written);
        return;
      }
      UpdateSubstatus(Ending, partition, input.written);
    }

    method HandleUpgradeEnding(input: Input)
      requires Shaped(layout, Current()) && phase.Ending?
      modifies this
      ensures Current() == End(layout, old(Current()), input) && flushes == old(flushes) && issued == old(issued)
    {
      OrdinalsInRange(layout);
      var extraOrdinal := layout.primaries + layout.primaries * layout.replicas;
      if !input.reached || pods[extraOrdinal].Gone? {
        return;
      }
      if own[extraOrdinal] != {} {
        if pods[0].Gone? {
          return;
        }
        own := MoveSlots(own, extraOrdinal, 0, input.moved);
        if !input.complete || own[extraOrdinal] != {} {
          return;
        }
      }
      if !input.settled {
        return;
      }
      UpdateSubstatus(ScalingDown, partition, input.written);
    }

    method HandleUpgradeScalingDown(input: Input)
      requires Shaped(layout, Current()) && phase.ScalingDown?
      modifies this
      ensures Current() == ScaleDown(layout, old(Current()), input) && flushes == old(flushes) && issued == old(issued)
    {
      OrdinalsInRange(layout);
      if !input.reached {
        return;
      }
      var shrunk := Shrink(layout, Current());
      size, own, pods, deleted := shrunk.size, shrunk.own, shrunk.pods, shrunk.deleted;
      var ready := AllPodsPresent(Original(layout));
      if !ready || !input.checked {
        return;
      }
      if input.written {
        phase, partition := Ready, 0;
      }
    }

    method HandleRollingUpgrade(input: Input)
      requires Shaped(layout, Current())
      modifies this
      ensures Current() == Cycle(layout, old(Current()), input)
      ensures flushes == old(flushes) + FlushedIn(layout, old(Current()), input)
      ensures issued == old(issued) + IssuedIn(layout, old(Current()), input)
    {
      match phase {
        case Starting => HandleUpgradeStart(input);
        case ScalingUp => HandleUpgradeScalingUp(input);
        case Resharding => HandleUpgradeResharding(input);
        case RollingUpdate => HandleUpgradeRollingUpdate(input);
        case Ending => HandleUpgradeEnding(input);
        case ScalingDown => HandleUpgradeScalingDown(input);
        case Ready =>
      }
    }
  }
}
