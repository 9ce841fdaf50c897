/**
 When each phase of the rolling upgrade ends, condition by condition, and that a persistent cluster's nodes are reset
 before their pods are deleted.
 */
module UpgradeGates {
  import opened Lists
  import opened Ordinals
  import opened RollingUpgrade
  import opened UpgradeRuns
  import opened UpgradeDeletes

  // ----- When a phase ends -----

  /** Growing the StatefulSet ends the first phase, if the status write gets through. */
  lemma StartEnds(l: Layout, s: State, input: Input)
    requires Shaped(l, s) && s.phase.Starting?
    ensures var t := Cycle(l, s, input);
            t.phase == (if input.reached && input.written then ScalingUp else Starting) &&
            t.size == (if input.reached then All(l) else s.size)
  {}

  /** Scaling up ends once all pods are there, and resharding begins with the last primary. */
  lemma ScaleUpEnds(l: Layout, s: State, input: Input)
    requires Shaped(l, s) && s.phase.ScalingUp?
    ensures var t := Cycle(l, s, input);
            if input.reached && input.written && forall o | 0 <= o < All(l) :: !s.pods[o].Gone?
            then t.phase.Resharding? && t.partition == l.primaries - 1 else t == s
  {}

  lemma NothingLeft(slots: set<int>, moved: set<int>)
    ensures slots - moved == {} <==> slots <= moved
  {
    if slots - moved == {} {
      forall x <- slots ensures x in moved {
        assert x !in slots - moved;
      }
    }
  }

  /** The primary that takes the slots: the next one, or the extra one beside the last. */
  function TakerOf(l: Layout, p: int): int {
    if p + 1 == l.primaries then l.primaries + l.primaries * l.replicas else p + 1
  }

  /**
   Resharding one primary ends once nothing is left on it: it was empty, or all its slots moved without error and,
   where it has replicas, these were forgotten.
   */
  lemma ReshardEnds(l: Layout, s: State, input: Input)
    requires Shaped(l, s) && s.phase.Resharding?
    ensures 0 <= TakerOf(l, s.partition) < All(l) && s.partition < All(l)
    ensures var t, p, to := Cycle(l, s, input), s.partition, TakerOf(l, s.partition);
            t.partition == p &&
            (t.phase != Resharding <==>
             input.reached && input.written && !s.pods[p].Gone? && !s.pods[to].Gone? &&
             (s.own[p] == {} || (s.own[p] <= input.moved && input.complete && (l.replicas == 0 || input.settled)))) &&
            (t.phase != Resharding ==> t.phase == RollingUpdate && t.own[p] == {})
  {
    OrdinalsInRange(l);
    NothingLeft(s.own[s.partition], input.moved);
  }

  /** All replicas of the primary run the new template and are attached. */
  ghost predicate ReplicasDone(l: Layout, s: State, p: int, attached: set<int>, n: int) {
    forall r | 0 <= r < n && r < l.replicas ::
      0 <= ReplicaOf(l, p, r) < |s.pods| && s.pods[ReplicaOf(l, p, r)].New? && r in attached
  }

  lemma UnsettledMeans(l: Layout, s: State, p: int, attached: set<int>, n: nat)
    requires Shaped(l, s) && 0 <= p < l.primaries && n <= l.replicas
    ensures ReplicasDone(l, s, p, attached, n) <==> n <= Unsettled(l, s.pods, p, attached, 0)
  {
    var k := Unsettled(l, s.pods, p, attached, 0);
    forall r | 0 <= r < l.replicas
      ensures Settled(l, s.pods, p, attached, r) <==>
              0 <= ReplicaOf(l, p, r) < |s.pods| && s.pods[ReplicaOf(l, p, r)].New? && r in attached
    {
      ReplicaInRange(l, p, r);
    }
  }

  /** What must hold before the upgrade of one primary counts as done. */
  ghost predicate PrimaryDone(l: Layout, s: State, input: Input)
    requires Shaped(l, s) && s.phase.RollingUpdate?
  {
    OrdinalsInRange(l);
    input.reached && s.pods[s.partition].New? && input.settled && !s.pods[PivotOf(l)].Gone? &&
    ReplicasDone(l, s, s.partition, input.attached, l.replicas) && input.checked && input.written
  }

  /**
   The upgrade of one primary ends once its pod and those of its replicas are new, these are attached, and the cluster
   check passed; then it is the turn of the primary before it, or of the ending.
   */
  lemma UpdateEnds(l: Layout, s: State, input: Input)
    requires Shaped(l, s) && s.phase.RollingUpdate?
    ensures var t := Cycle(l, s, input);
            if !PrimaryDone(l, s, input) then t.phase == s.phase && t.partition == s.partition
            else if s.partition == 0 then t == s.(phase := Ending)
            else t == s.(phase := Resharding, partition := s.partition - 1)
  {
    OrdinalsInRange(l);
    UnsettledMeans(l, s, s.partition, input.attached, l.replicas);
  }

  /** The extra primary is given up once nothing is left on it and the cluster settled. */
  lemma EndingEnds(l: Layout, s: State, input: Input)
    requires Shaped(l, s) && s.phase.Ending?
    ensures 0 <= PivotOf(l) < All(l)
    ensures var t, pivot := Cycle(l, s, input), PivotOf(l);
            (t.phase != Ending <==>
             input.reached && input.written && input.settled && !s.pods[pivot].Gone? &&
             (s.own[pivot] == {} || (!s.pods[0].Gone? && s.own[pivot] <= input.moved && input.complete))) &&
            (t.phase != Ending ==> t.phase == ScalingDown && t.own[pivot] == {})
  {
    OrdinalsInRange(l);
    NothingLeft(s.own[PivotOf(l)], input.moved);
  }

  /** The upgrade is ready once the original pods are there and the checks passed. */
  lemma ScaleDownEnds(l: Layout, s: State, input: Input)
    requires Shaped(l, s) && s.phase.ScalingDown?
    ensures Original(l) <= All(l)
    ensures var t := Cycle(l, s, input);
            (t.phase == Ready <==>
             input.reached && input.checked && input.written && forall o | 0 <= o < Original(l) :: !s.pods[o].Gone?) &&
            (t.phase == Ready || t.phase == ScalingDown) && t.size == (if input.reached then Original(l) else s.size)
  {
    OrdinalsInRange(l);
    if input.reached {
      ShrinkPods(l, s);
    }
  }

  lemma ShrinkPods(l: Layout, s: State)
    requires Shaped(l, s)
    ensures Original(l) <= All(l) == |Shrink(l, s).pods|
    ensures forall o | 0 <= o < Original(l) :: Shrink(l, s).pods[o] == s.pods[o]
  {
    OrdinalsInRange(l);
  }

  // ----- Which pod is recycled -----

  /**
   The pod that a cycle recycles: the primary's own while it is outdated, and then the first of its replicas' that is
   not done, if that is outdated.
   */
  lemma RecycledExactly(l: Layout, s: State, input: Input, o: int)
    requires Shaped(l, s) && s.phase.RollingUpdate?
    ensures 0 <= PivotOf(l) < All(l) && s.partition < All(l)
    ensures var p := s.partition;
            Recycled(l, s, input) == Some(o) <==>
            input.reached && !s.pods[p].Gone? &&
            ((Outdated(s.pods[p]) && o == p) ||
             (s.pods[p].New? && input.settled && !s.pods[PivotOf(l)].Gone? &&
              exists r | 0 <= r < l.replicas ::
                o == ReplicaOf(l, p, r) && 0 <= o < All(l) && Outdated(s.pods[o]) &&
                ReplicasDone(l, s, p, input.attached, r)))
  {
    OrdinalsInRange(l);
    var p := s.partition;
    var k := Unsettled(l, s.pods, p, input.attached, 0);
    UnsettledMeans(l, s, p, input.attached, k);
    if k < l.replicas {
      ReplicaInRange(l, p, k);
    }
    if r: nat :| r < l.replicas && o == ReplicaOf(l, p, r) && 0 <= o < All(l) && Outdated(s.pods[o]) &&
                 ReplicasDone(l, s, p, input.attached, r) {
      UnsettledMeans(l, s, p, input.attached, r);
      NotSettled(l, s, p, input.attached, r);
    }
  }

  lemma NotSettled(l: Layout, s: State, p: int, attached: set<int>, r: nat)
    requires Shaped(l, s) && 0 <= p < l.primaries && r < l.replicas && r <= Unsettled(l, s.pods, p, attached, 0)
    requires 0 <= ReplicaOf(l, p, r) < All(l) && Outdated(s.pods[ReplicaOf(l, p, r)])
    ensures r == Unsettled(l, s.pods, p, attached, 0)
  {
    assert !Settled(l, s.pods, p, attached, r);
  }

  // ----- A persistent node is reset before its pod is deleted -----

  /** Which deletes are issued and which nodes are reset, given the recycled pod. */
  lemma LogsExactly(l: Layout, s: State, input: Input, o: int)
    requires Shaped(l, s)
    ensures o in IssuedIn(l, s, input) <==>
            Recycled(l, s, input) == Some(o) && input.deletes && (l.ephemeral || input.flush == Flushed)
    ensures o in FlushedIn(l, s, input) <==>
            Recycled(l, s, input) == Some(o) && !l.ephemeral && input.flush != NotReset
  {}

  /** A persistent cluster's pod is deleted only in a cycle that reset and saved its node before. */
  lemma ResetBeforeDelete(l: Layout, s: State, input: Input, o: int)
    requires Shaped(l, s) && !l.ephemeral && o in IssuedIn(l, s, input)
    ensures o in FlushedIn(l, s, input) && input.flush == Flushed
  {
    LogsExactly(l, s, input, o);
  }

  /** Without a complete flush, no pod of a persistent cluster changes. */
  lemma NoFlushNoDelete(l: Layout, s: State, input: Input)
    requires Shaped(l, s) && s.phase.RollingUpdate? && !l.ephemeral && input.flush != Flushed
    ensures IssuedIn(l, s, input) == [] && Cycle(l, s, input).pods == s.pods && Cycle(l, s, input).deleted == s.deleted
  {
    OrdinalsInRange(l);
  }

  /** An ephemeral cluster resets nothing, and nothing it does depends on how a flush would fare. */
  lemma EphemeralNeverResets(l: Layout, s: State, input: Input, other: Flush)
    requires Shaped(l, s) && l.ephemeral
    ensures FlushedIn(l, s, input) == []
    ensures Cycle(l, s, input.(flush := other)) == Cycle(l, s, input)
    ensures IssuedIn(l, s, input.(flush := other)) == IssuedIn(l, s, input)
  {
    match s.phase {
      case RollingUpdate => OrdinalsInRange(l);
      case _ =>
    }
  }

  /** The nodes reset in one step. */
  function ResetAt(l: Layout, s: State, input: Option<Input>): seq<int> {
    match input
    case Some(answers) => if Shaped(l, s) then FlushedIn(l, s, answers) else []
    case None => []
  }

  /** The nodes reset in the first n steps. */
  function ResetLog(l: Layout, run: seq<State>, inputs: seq<Option<Input>>, n: nat): seq<int>
    requires n <= |inputs| <= |run|
  {
    if n == 0 then [] else ResetLog(l, run, inputs, n - 1) + ResetAt(l, run[n - 1], inputs[n - 1])
  }

  lemma IssuedWasReset(l: Layout, s: State, input: Option<Input>, o: int)
    requires !l.ephemeral && o in IssuedAt(l, s, input)
    ensures o in ResetAt(l, s, input)
  {
    ResetBeforeDelete(l, s, input.value, o);
  }

  lemma {:induction false} LoggedWasReset(l: Layout, run: seq<State>, inputs: seq<Option<Input>>, n: nat, o: int)
    requires n <= |inputs| <= |run| && !l.ephemeral && o in IssuedLog(l, run, inputs, n)
    ensures o in ResetLog(l, run, inputs, n)
  {
    if o in IssuedLog(l, run, inputs, n - 1) {
      LoggedWasReset(l, run, inputs, n - 1, o);
    } else {
      IssuedWasReset(l, run[n - 1], inputs[n - 1], o);
    }
  }

  /** In every run on a persistent cluster, each original pod that was deleted had its node reset by then. */
  lemma DeletedWasReset(l: Layout, run: seq<State>, inputs: seq<Option<Input>>, init: seq<set<int>>, n: nat, o: int)
    requires LoggedRun(l, run, inputs, init) && n <= |inputs| && !l.ephemeral
    requires 0 <= o < Original(l) && o in run[n].deleted
    ensures o in ResetLog(l, run, inputs, n)
  {
    ToldFirst(l, run, inputs, init);
    RunTold(l, run, inputs, init, n);
    OrdinalsInRange(l);
    LoggedWasReset(l, run, inputs, n, o);
  }
}
