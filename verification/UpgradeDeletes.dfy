/**
 The pods that the rolling upgrade deletes: when the delete of a pod is issued again, exactly, and a run in which it
 is.
 */
module UpgradeDeletes {
  import opened Lists
  import opened Ordinals
  import opened RollingUpgrade
  import opened UpgradeRuns

  // ----- One cycle -----

  /** What is recycled in one cycle runs the outdated template, below the extra pods. */
  lemma RecycledPod(l: Layout, s: State, input: Input)
    requires Shaped(l, s) && Recycled(l, s, input).Some?
    ensures var o := Recycled(l, s, input).value;
            0 <= o < Original(l) < All(l) && Outdated(s.pods[o]) && Cycle(l, s, input) == Recycle(l, s, o, input)
  {
    OrdinalsInRange(l);
    var k := Unsettled(l, s.pods, s.partition, input.attached, 0);
    if k < l.replicas {
      ReplicaInRange(l, s.partition, k);
    }
  }

  /** An issued delete takes effect exactly on a pod that does not terminate yet. */
  lemma IssueExact(l: Layout, s: State, init: seq<set<int>>, input: Input, o: int)
    requires Safe(l, s, init) && o in IssuedIn(l, s, input)
    ensures 0 <= o < Original(l) < All(l) && IssuedIn(l, s, input) == [o]
    ensures Outdated(s.pods[o]) && (o in s.deleted ==> s.pods[o].Terminating?)
    ensures s.pods[o].Old? <==> Cycle(l, s, input).deleted == s.deleted + [o]
    ensures s.pods[o].Terminating? <==> Cycle(l, s, input).deleted == s.deleted
  {
    RecycledPod(l, s, input);
    assert s.deleted != s.deleted + [o];
  }

  /** Only an issued delete makes a pod terminate, or is logged below the extra pods. */
  lemma WithoutIssue(l: Layout, s: State, init: seq<set<int>>, input: Input, o: int)
    requires Safe(l, s, init) && IssuedIn(l, s, input) == [] && 0 <= o < All(l)
    ensures var t := Cycle(l, s, input);
            Shaped(l, t) && (t.pods[o] == s.pods[o] || !t.pods[o].Terminating?) &&
            (o < Original(l) ==> (o in t.deleted <==> o in s.deleted))
  {
    NextSafe(l, s, Cycle(l, s, input), init);
    if s.phase.RollingUpdate? {
      OrdinalsInRange(l);
      if Recycled(l, s, input).Some? {
        RecycledPod(l, s, input);
      }
    } else {
      OtherPhases(l, s, input, o);
    }
  }

  lemma OtherPhases(l: Layout, s: State, input: Input, o: int)
    requires Shaped(l, s) && Shaped(l, Cycle(l, s, input)) && !s.phase.RollingUpdate? && 0 <= o < All(l)
    ensures var t := Cycle(l, s, input);
            (t.pods[o] == s.pods[o] || t.pods[o].Gone?) && (o < Original(l) ==> (o in t.deleted <==> o in s.deleted))
  {
    if s.phase.ScalingDown? {
      assert Shrink(l, s).deleted == s.deleted + Filter(IsPresent(s.pods), Extras(l));
      ShrinkDeletes(l, s, o);
    }
  }

  // ----- Runs with their inputs -----

  /** One step: a cycle under the given answers, or without any a pod that stops or comes back. */
  ghost predicate Takes(l: Layout, s: State, input: Option<Input>, t: State) {
    Shaped(l, s) &&
    match input
    case Some(answers) => t == Cycle(l, s, answers)
    case None => Returns(l, s, t) || Stops(l, s, t)
  }

  ghost predicate TakesAt(l: Layout, run: seq<State>, inputs: seq<Option<Input>>, i: nat)
    requires i < |inputs| && |run| == |inputs| + 1
  {
    Takes(l, run[i], inputs[i], run[i + 1])
  }

  /** A run of the upgrade that starts without terminating pods. */
  ghost predicate LoggedRun(l: Layout, run: seq<State>, inputs: seq<Option<Input>>, init: seq<set<int>>) {
    |run| == |inputs| + 1 && Initial(l, run[0], init) && (forall o | 0 <= o < All(l) :: !run[0].pods[o].Terminating?) &&
    forall i | 0 <= i < |inputs| :: TakesAt(l, run, inputs, i)
  }

  /** The deletes issued in one step. */
  function IssuedAt(l: Layout, s: State, input: Option<Input>): seq<int> {
    match input
    case Some(answers) => if Shaped(l, s) then IssuedIn(l, s, answers) else []
    case None => []
  }

  /** The deletes issued in the first n steps. */
  function IssuedLog(l: Layout, run: seq<State>, inputs: seq<Option<Input>>, n: nat): seq<int>
    requires n <= |inputs| <= |run|
  {
    if n == 0 then [] else IssuedLog(l, run, inputs, n - 1) + IssuedAt(l, run[n - 1], inputs[n - 1])
  }

  /** The step deletes a pod that terminates already. */
  ghost predicate Reissues(l: Layout, s: State, input: Option<Input>) {
    exists o | 0 <= o < |s.pods| && o in IssuedAt(l, s, input) :: s.pods[o].Terminating?
  }

  ghost predicate ReissuesAt(l: Layout, run: seq<State>, inputs: seq<Option<Input>>, i: nat)
    requires i < |inputs| <= |run|
  {
    Reissues(l, run[i], inputs[i])
  }

  /** The log names the pods that were deleted, but for the extra ones, and whatever terminates was deleted. */
  ghost predicate Traced(l: Layout, s: State, log: seq<int>)
    requires Shaped(l, s)
  {
    (forall o | 0 <= o < Original(l) && o < All(l) :: o in log <==> o in s.deleted) &&
    (forall o <- log :: 0 <= o < Original(l)) &&
    forall o | 0 <= o < All(l) && s.pods[o].Terminating? :: o < Original(l) && o in s.deleted
  }

  lemma TakesNext(l: Layout, s: State, input: Option<Input>, t: State, init: seq<set<int>>)
    requires Safe(l, s, init) && Takes(l, s, input, t)
    ensures Next(l, s, t) && Safe(l, t, init)
  {
    NextSafe(l, s, t, init);
  }

  lemma TracedIssue(l: Layout, s: State, init: seq<set<int>>, input: Input, log: seq<int>, o: int)
    requires Safe(l, s, init) && Traced(l, s, log) && o in IssuedIn(l, s, input)
    ensures Shaped(l, Cycle(l, s, input)) && Traced(l, Cycle(l, s, input), log + [o])
    ensures 0 <= o < All(l) && (o in log <==> s.pods[o].Terminating?)
  {
    IssueExact(l, s, init, input, o);
    RecycledPod(l, s, input);
    NextSafe(l, s, Cycle(l, s, input), init);
  }

  lemma TracedQuiet(l: Layout, s: State, init: seq<set<int>>, input: Input, log: seq<int>)
    requires Safe(l, s, init) && Traced(l, s, log) && IssuedIn(l, s, input) == []
    ensures Shaped(l, Cycle(l, s, input)) && Traced(l, Cycle(l, s, input), log)
  {
    NextSafe(l, s, Cycle(l, s, input), init);
    forall o | 0 <= o < All(l)
      ensures var t := Cycle(l, s, input);
              (t.pods[o] == s.pods[o] || !t.pods[o].Terminating?) && (o < Original(l) ==> (o in t.deleted <==> o in s.deleted))
    {
      WithoutIssue(l, s, init, input, o);
    }
  }

  lemma AddsRepeat(log: seq<int>, o: int)
    ensures NoRepeats(log + [o]) <==> NoRepeats(log) && o !in log
  {
    var more := log + [o];
    assert more[|log|] == o && forall i | 0 <= i < |log| :: more[i] == log[i];
    if NoRepeats(log) && o !in log {
      NoRepeatsSnoc(log, o);
    }
  }

  lemma IssuedOne(l: Layout, s: State, input: Input)
    requires Shaped(l, s) && IssuedIn(l, s, input) != []
    ensures IssuedIn(l, s, input) == [IssuedIn(l, s, input)[0]]
  {}

  lemma CycleTraced(l: Layout, s: State, init: seq<set<int>>, input: Input, log: seq<int>)
    requires Safe(l, s, init) && Traced(l, s, log)
    ensures var more := log + IssuedIn(l, s, input);
            Shaped(l, Cycle(l, s, input)) && Traced(l, Cycle(l, s, input), more) &&
            (NoRepeats(more) <==> NoRepeats(log) && !Reissues(l, s, Some(input)))
  {
    if IssuedIn(l, s, input) == [] {
      assert log + IssuedIn(l, s, input) == log;
      TracedQuiet(l, s, init, input, log);
    } else {
      var o := IssuedIn(l, s, input)[0];
      IssuedOne(l, s, input);
      TracedIssue(l, s, init, input, log, o);
      AddsRepeat(log, o);
    }
  }

  lemma PodTraced(l: Layout, s: State, t: State, log: seq<int>)
    requires Shaped(l, s) && Traced(l, s, log) && (Returns(l, s, t) || Stops(l, s, t))
    ensures Shaped(l, t) && Traced(l, t, log)
  {}

  lemma StepTraced(l: Layout, s: State, init: seq<set<int>>, input: Option<Input>, t: State, log: seq<int>)
    requires Safe(l, s, init) && Traced(l, s, log) && Takes(l, s, input, t)
    ensures var more := log + IssuedAt(l, s, input);
            Safe(l, t, init) && Traced(l, t, more) &&
            (NoRepeats(more) <==> NoRepeats(log) && !Reissues(l, s, input))
  {
    TakesNext(l, s, input, t, init);
    match input {
      case Some(answers) => CycleTraced(l, s, init, answers, log);
      case None =>
        assert log + IssuedAt(l, s, input) == log;
        PodTraced(l, s, t, log);
    }
  }

  ghost predicate Told(l: Layout, run: seq<State>, inputs: seq<Option<Input>>, init: seq<set<int>>, n: nat)
    requires n <= |inputs| < |run|
  {
    Safe(l, run[n], init) && Traced(l, run[n], IssuedLog(l, run, inputs, n)) &&
    (NoRepeats(IssuedLog(l, run, inputs, n)) <==> forall i: nat | i < n :: !ReissuesAt(l, run, inputs, i))
  }

  lemma NoneReissued(l: Layout, run: seq<State>, inputs: seq<Option<Input>>, n: nat)
    requires n < |inputs| <= |run|
    ensures (forall i: nat | i < n + 1 :: !ReissuesAt(l, run, inputs, i)) <==>
            (forall i: nat | i < n :: !ReissuesAt(l, run, inputs, i)) && !Reissues(l, run[n], inputs[n])
  {
    assert ReissuesAt(l, run, inputs, n) <==> Reissues(l, run[n], inputs[n]);
  }

  lemma ToldNext(l: Layout, run: seq<State>, inputs: seq<Option<Input>>, init: seq<set<int>>, n: nat)
    requires n < |inputs| && |run| == |inputs| + 1 && Told(l, run, inputs, init, n) && TakesAt(l, run, inputs, n)
    ensures Told(l, run, inputs, init, n + 1)
  {
    StepTraced(l, run[n], init, inputs[n], run[n + 1], IssuedLog(l, run, inputs, n));
    NoneReissued(l, run, inputs, n);
  }

  lemma ToldFirst(l: Layout, run: seq<State>, inputs: seq<Option<Input>>, init: seq<set<int>>)
    requires LoggedRun(l, run, inputs, init)
    ensures Told(l, run, inputs, init, 0)
  {
    InitialSafe(l, run[0], init);
  }

  lemma RunTold(l: Layout, run: seq<State>, inputs: seq<Option<Input>>, init: seq<set<int>>, n: nat)
    requires n <= |inputs| && |run| == |inputs| + 1 && Told(l, run, inputs, init, 0)
    requires forall i | 0 <= i < |inputs| :: TakesAt(l, run, inputs, i)
    ensures Told(l, run, inputs, init, n)
  {
    var told := (k: nat) => k <= |inputs| && Told(l, run, inputs, init, k);
    forall k: nat | 0 <= k < n ensures PassesOn(told, k) {
      assert TakesAt(l, run, inputs, k);
      if told(k) {
        ToldNext(l, run, inputs, init, k);
      }
    }
    Along(told, 0, n);
  }

  /** In a run, no pod is deleted twice exactly when no cycle deletes a pod that terminates already. */
  lemma IssuedOnceExactly(l: Layout, run: seq<State>, inputs: seq<Option<Input>>, init: seq<set<int>>, n: nat)
    requires LoggedRun(l, run, inputs, init) && n <= |inputs|
    ensures NoRepeats(IssuedLog(l, run, inputs, n)) <==> forall i: nat | i < n :: !ReissuesAt(l, run, inputs, i)
  {
    ToldFirst(l, run, inputs, init);
    RunTold(l, run, inputs, init, n);
  }

  // ----- A run that deletes a pod twice -----

  /** One primary without replicas, on an ephemeral cluster. */
  const SMALL := Layout(1, 0, true)

  function At(phase: Phase, size: int, own: seq<set<int>>, pods: seq<Pod>, deleted: seq<int>): State {
    State(phase, 0, size, own, pods, deleted)
  }

  lemma SmallSizes()
    ensures Original(SMALL) == 1 && All(SMALL) == 2 && PivotOf(SMALL) == 1
  {}

  lemma SmallStarts(slots: set<int>)
    ensures Initial(SMALL, At(Starting, 1, [slots, {}], [Old, Gone], []), [slots])
    ensures Takes(SMALL, At(Starting, 1, [slots, {}], [Old, Gone], []), Some(AllWell(slots, {})),
                  At(ScalingUp, 2, [slots, {}], [Old, Gone], []))
  {
    SmallSizes();
  }

  lemma SmallGrows(slots: set<int>)
    ensures Takes(SMALL, At(ScalingUp, 2, [slots, {}], [Old, Gone], []), None,
                  At(ScalingUp, 2, [slots, {}], [Old, New], []))
    ensures Takes(SMALL, At(ScalingUp, 2, [slots, {}], [Old, New], []), Some(AllWell(slots, {})),
                  At(Resharding, 2, [slots, {}], [Old, New], []))
  {
    SmallSizes();
    var s, t := At(ScalingUp, 2, [slots, {}], [Old, Gone], []), At(ScalingUp, 2, [slots, {}], [Old, New], []);
    assert s.pods[1 := New] == t.pods;
    assert s.pods[1].Gone? && t == s.(pods := s.pods[1 := New]);
    assert Returns(SMALL, s, t);
  }

  lemma SmallMoves(slots: set<int>)
    ensures Takes(SMALL, At(Resharding, 2, [slots, {}], [Old, New], []), Some(AllWell(slots, {})),
                  At(RollingUpdate, 2, [{}, slots], [Old, New], []))
  {
    SmallSizes();
    var own: seq<set<int>> := [slots, {}];
    assert own[1] + own[0] * slots == slots && own[0] - slots == {};
    assert MoveSlots(own, 0, 1, slots) == [{}, slots];
  }

  lemma SmallDeletes(slots: set<int>)
    ensures var s, t := At(RollingUpdate, 2, [{}, slots], [Old, New], []), At(RollingUpdate, 2, [{}, slots], [Terminating, New], [0]);
            Takes(SMALL, s, Some(AllWell(slots, {})), t) && IssuedAt(SMALL, s, Some(AllWell(slots, {}))) == [0] &&
            Takes(SMALL, t, Some(AllWell(slots, {})), t) && IssuedAt(SMALL, t, Some(AllWell(slots, {}))) == [0]
  {
    SmallSizes();
    assert [{}, slots][0 := {}] == [{}, slots];
    assert [Old, New][0 := Terminating] == [Terminating, New];
    assert [] + [0] == [0];
  }

  lemma QuietBefore(slots: set<int>, phase: Phase, size: int, own: seq<set<int>>, pods: seq<Pod>)
    requires !phase.RollingUpdate?
    ensures IssuedAt(SMALL, At(phase, size, own, pods, []), Some(AllWell(slots, {}))) == []
  {}

  /** The states of a run that comes as far as deleting the primary's pod, and does so once more while it terminates. */
  function SmallRun(slots: set<int>): seq<State> {
    [At(Starting, 1, [slots, {}], [Old, Gone], []), At(ScalingUp, 2, [slots, {}], [Old, Gone], []),
     At(ScalingUp, 2, [slots, {}], [Old, New], []), At(Resharding, 2, [slots, {}], [Old, New], []),
     At(RollingUpdate, 2, [{}, slots], [Old, New], []), At(RollingUpdate, 2, [{}, slots], [Terminating, New], [0]),
     At(RollingUpdate, 2, [{}, slots], [Terminating, New], [0])]
  }

  function SmallInputs(slots: set<int>): seq<Option<Input>> {
    var well := Some(AllWell(slots, {}));
    [well, None, well, well, well, well]
  }

  lemma SmallRuns(slots: set<int>)
    ensures LoggedRun(SMALL, SmallRun(slots), SmallInputs(slots), [slots])
  {
    var run, inputs := SmallRun(slots), SmallInputs(slots);
    SmallSizes();
    SmallStarts(slots);
    forall i | 0 <= i < |inputs| ensures TakesAt(SMALL, run, inputs, i) {
      SmallStep(slots, i);
    }
  }

  lemma SmallStep(slots: set<int>, i: nat)
    requires i < 6
    ensures TakesAt(SMALL, SmallRun(slots), SmallInputs(slots), i)
  {
    match i {
      case 0 => SmallStarts(slots);
      case 1 => SmallGrows(slots);
      case 2 => SmallGrows(slots);
      case 3 => SmallMoves(slots);
      case _ => SmallDeletes(slots);
    }
  }

  lemma SmallQuiet(slots: set<int>)
    ensures IssuedLog(SMALL, SmallRun(slots), SmallInputs(slots), 4) == []
  {
    var run, inputs := SmallRun(slots), SmallInputs(slots);
    QuietBefore(slots, Starting, 1, [slots, {}], [Old, Gone]);
    QuietBefore(slots, ScalingUp, 2, [slots, {}], [Old, New]);
    QuietBefore(slots, Resharding, 2, [slots, {}], [Old, New]);
    assert IssuedLog(SMALL, run, inputs, 1) == [];
    assert IssuedLog(SMALL, run, inputs, 2) == [];
    assert IssuedLog(SMALL, run, inputs, 3) == [];
  }

  /** Here the delete of one pod is issued twice, although it is logged as deleted once. */
  lemma DeleteRepeats(slots: set<int>)
    ensures LoggedRun(SMALL, SmallRun(slots), SmallInputs(slots), [slots])
    ensures IssuedLog(SMALL, SmallRun(slots), SmallInputs(slots), 6) == [0, 0]
    ensures SmallRun(slots)[6].deleted == [0]
  {
    var run, inputs := SmallRun(slots), SmallInputs(slots);
    SmallRuns(slots);
    SmallQuiet(slots);
    SmallDeletes(slots);
    assert IssuedLog(SMALL, run, inputs, 5) == [0];
    assert IssuedLog(SMALL, run, inputs, 6) == IssuedLog(SMALL, run, inputs, 5) + [0];
  }
}
