/**
 The queue of configurations: which one is processed next, which ones are superseded, and how one reconcile
 cycle drives their phases: internal/reconciler/config_plan.go, config_superseding.go and reconciler.go.
 Configurations are listed by ascending sequence; a pointer into the list is an index.
 */
module ConfigQueue {
  import opened Lists

  datatype Phase = Unset | Pending | InProgress | Applied | Superseded

  /** A configuration's specification; `rest` stands for every field but sequence, skip flag and topology. */
  datatype Spec = Spec(sequence: int, skipIfSuperseded: bool, primaries: int, replicasPerPrimary: int, rest: string)

  datatype Config = Config(spec: Spec, phase: Phase)

  /** A status write gets through, is lost, or gets through although an error is reported. */
  datatype Write = Done | Lost | Unseen

  predicate Terminal(c: Config) {
    c.phase.Applied? || c.phase.Superseded?
  }

  ghost predicate Ordered(configs: seq<Config>) {
    forall i, j | 0 <= i < j < |configs| :: configs[i].spec.sequence < configs[j].spec.sequence
  }

  // ----- Selection -----

  /** The first configuration that is not finished, or the length of the list. */
  function FirstOpen(configs: seq<Config>): (k: nat)
    ensures k <= |configs| && (forall i | 0 <= i < k :: Terminal(configs[i]))
    ensures k < |configs| ==> !Terminal(configs[k])
  {
    if configs == [] || !Terminal(configs[0]) then 0 else 1 + FirstOpen(configs[1..])
  }

  /** The last applied configuration before index i. */
  ghost predicate IsLastApplied(configs: seq<Config>, i: int, r: Option<nat>) {
    match r
    case None => forall j | 0 <= j < i && j < |configs| :: !configs[j].phase.Applied?
    case Some(k) =>
      k < i && k < |configs| && configs[k].phase.Applied? &&
      forall j | k < j < i && j < |configs| :: !configs[j].phase.Applied?
  }

  function PreviousApplied(configs: seq<Config>, i: nat): (r: Option<nat>)
    requires i <= |configs|
    ensures IsLastApplied(configs, i, r)
  {
    if i == 0 then None
    else if configs[i - 1].phase.Applied? then Some(i - 1) else PreviousApplied(configs, i - 1)
  }

  method LastAppliedBefore(configs: seq<Config>, i: nat) returns (r: Option<nat>)
    requires i <= |configs|
    ensures IsLastApplied(configs, i, r)
  {
    var j := i;
    while j > 0
      invariant 0 <= j <= i && forall k | j <= k < i :: !configs[k].phase.Applied?
    {
      j := j - 1;
      if configs[j].phase.Applied? {
        return Some(j);
      }
    }
    return None;
  }

  /** The next configuration to process, with the last applied one before it. */
  method SelectConfig(configs: seq<Config>) returns (previous: Option<nat>, target: Option<nat>)
    ensures target.None? <==> configs == []
    ensures target.None? ==> previous.None?
    ensures FirstOpen(configs) < |configs| ==> target == Some(FirstOpen(configs))
    ensures configs != [] && FirstOpen(configs) == |configs| ==>
              target.Some? && (IsLastApplied(configs, |configs|, target) ||
                               (IsLastApplied(configs, |configs|, None) && target.value == |configs| - 1))
    ensures target.Some? ==> target.value < |configs| && IsLastApplied(configs, target.value, previous)
  {
    if |configs| == 0 {
      return None, None;
    }
    for i := 0 to |configs|
      invariant forall j | 0 <= j < i :: Terminal(configs[j])
    {
      if !configs[i].phase.Applied? && !configs[i].phase.Superseded? {
        previous := LastAppliedBefore(configs, i);
        return previous, Some(i);
      }
    }
    var last := LastAppliedBefore(configs, |configs|);
    if last.None? {
      return None, Some(|configs| - 1);
    }
    previous := LastAppliedBefore(configs, last.value);
    return previous, last;
  }

  // ----- Superseding -----

  predicate OnlyTopologyChange(a: Spec, b: Spec) {
    a.(sequence := 0, skipIfSuperseded := false, primaries := 0, replicasPerPrimary := 0) ==
    b.(sequence := 0, skipIfSuperseded := false, primaries := 0, replicasPerPrimary := 0)
  }

  /** Of all fields, exactly those outside the topology, the sequence and the skip flag must be the same. */
  lemma SameOutsideTopology(a: Spec, b: Spec)
    ensures OnlyTopologyChange(a, b) <==> a.rest == b.rest
  {}

  /** Scans forward for the last applied configuration of a lower sequence than the selected one. */
  method FindBaseline(configs: seq<Config>, selected: nat) returns (baseline: Option<nat>)
    requires selected < |configs| && Ordered(configs)
    ensures IsLastApplied(configs, selected, baseline)
  {
    baseline := None;
    for i := 0 to |configs|
      invariant i <= selected && IsLastApplied(configs, i, baseline)
    {
      if configs[i].spec.sequence >= configs[selected].spec.sequence {
        return;
      }
      if configs[i].phase.Applied? {
        baseline := Some(i);
      }
    }
  }

  method IndexOfConfig(configs: seq<Config>, sequence: int) returns (i: int)
    ensures -1 <= i < |configs|
    ensures i == -1 ==> forall k | 0 <= k < |configs| :: configs[k].spec.sequence != sequence
    ensures i >= 0 ==> configs[i].spec.sequence == sequence && forall k | 0 <= k < i :: configs[k].spec.sequence != sequence
  {
    for k := 0 to |configs|
      invariant forall j | 0 <= j < k :: configs[j].spec.sequence != sequence
    {
      if configs[k].spec.sequence == sequence {
        return k;
      }
    }
    return -1;
  }

  /**
   The run of configurations from `from` to `final` may collapse: all but the last may be skipped, and nothing
   but the topology changes.
   */
  ghost predicate Collapses(configs: seq<Config>, baseline: Option<nat>, from: int, final: int)
    requires 0 <= from <= final < |configs| && (baseline.Some? ==> baseline.value < |configs|)
  {
    (forall i | from <= i < final :: configs[i].spec.skipIfSuperseded) &&
    (forall i | from <= i <= final :: OnlyTopologyChange(configs[i].spec, configs[final].spec)) &&
    (baseline.Some? ==> OnlyTopologyChange(configs[baseline.value].spec, configs[final].spec))
  }

  /** The selected configuration is not started and may be skipped, and differs from the baseline in topology only. */
  predicate MayYield(configs: seq<Config>, baseline: Option<nat>, selected: nat)
    requires selected < |configs| && (baseline.Some? ==> baseline.value < |configs|)
  {
    !configs[selected].phase.InProgress? && !configs[selected].phase.Applied? &&
    configs[selected].spec.skipIfSuperseded &&
    (baseline.Some? ==> OnlyTopologyChange(configs[baseline.value].spec, configs[selected].spec))
  }

  /** What superseding decides: the longest run from the selected configuration that may collapse. */
  ghost predicate IsSuperseding(configs: seq<Config>, baseline: Option<nat>, selected: nat, final: nat)
    requires selected < |configs| && (baseline.Some? ==> baseline.value < |configs|)
  {
    selected <= final < |configs| &&
    (final > selected ==> MayYield(configs, baseline, selected) && Collapses(configs, baseline, selected, final)) &&
    (MayYield(configs, baseline, selected) && configs[final].spec.skipIfSuperseded && final + 1 < |configs| ==>
       !OnlyTopologyChange(configs[final].spec, configs[final + 1].spec))
  }

  /** How far the walk forward gets from the current configuration. */
  function Reach(configs: seq<Config>, baseline: Option<nat>, current: nat): (final: nat)
    requires current < |configs| && (baseline.Some? ==> baseline.value < |configs|)
    ensures current <= final < |configs|
    decreases |configs| - current
  {
    if configs[current].spec.skipIfSuperseded && current + 1 < |configs| &&
       OnlyTopologyChange(configs[if baseline.Some? then baseline.value else current].spec, configs[current + 1].spec)
    then Reach(configs, baseline, current + 1) else current
  }

  /** The configuration that is processed instead of the selected one. */
  function Final(configs: seq<Config>, selected: nat): (final: nat)
    requires selected < |configs|
    ensures selected <= final < |configs|
  {
    var baseline := PreviousApplied(configs, selected);
    if MayYield(configs, baseline, selected) then Reach(configs, baseline, selected) else selected
  }

  lemma {:induction false} ReachIsLongest(configs: seq<Config>, baseline: Option<nat>, selected: nat, current: nat)
    requires selected <= current < |configs| && (baseline.Some? ==> baseline.value < |configs|)
    requires MayYield(configs, baseline, selected) && Collapses(configs, baseline, selected, current)
    ensures IsSuperseding(configs, baseline, selected, Reach(configs, baseline, current))
    decreases |configs| - current
  {
    if Reach(configs, baseline, current) != current {
      ReachIsLongest(configs, baseline, selected, current + 1);
    }
  }

  /** The walk ends at the end of the longest run that may collapse. */
  lemma FinalIsLongest(configs: seq<Config>, selected: nat)
    requires selected < |configs|
    ensures IsSuperseding(configs, PreviousApplied(configs, selected), selected, Final(configs, selected))
  {
    var baseline := PreviousApplied(configs, selected);
    if MayYield(configs, baseline, selected) {
      ReachIsLongest(configs, baseline, selected, selected);
    }
  }

  predicate NotStarted(c: Config) {
    !c.phase.InProgress? && !c.phase.Applied?
  }

  /** The last applied configuration before the selected one, if any, has the same fields outside the topology. */
  ghost predicate BaselineAgrees(configs: seq<Config>, selected: nat)
    requires selected < |configs|
  {
    forall b: nat | b < selected && IsLastApplied(configs, selected, Some(b)) ::
      configs[b].spec.rest == configs[selected].spec.rest
  }

  /** What is passed over, field by field, and what stops the walk. */
  ghost predicate SupersedesUpTo(configs: seq<Config>, selected: nat, final: nat)
    requires selected <= final < |configs|
  {
    (forall i | selected <= i <= final :: configs[i].spec.rest == configs[final].spec.rest) &&
    (forall i | selected <= i < final :: configs[i].spec.skipIfSuperseded) &&
    (final > selected ==> NotStarted(configs[selected]) && BaselineAgrees(configs, selected)) &&
    !((NotStarted(configs[selected]) && BaselineAgrees(configs, selected) && configs[final].spec.skipIfSuperseded) &&
      final + 1 < |configs| && configs[final + 1].spec.rest == configs[final].spec.rest)
  }

  lemma BaselineByPrevious(configs: seq<Config>, selected: nat)
    requires selected < |configs|
    ensures var b := PreviousApplied(configs, selected);
            BaselineAgrees(configs, selected) <==> (b.Some? ==> configs[b.value].spec.rest == configs[selected].spec.rest)
  {
    var previous := PreviousApplied(configs, selected);
    forall b: nat | b < selected && IsLastApplied(configs, selected, Some(b)) ensures previous == Some(b) {
      BaselineIsPrevious(configs, selected, previous, Some(b));
    }
  }

  /** The walk passes exactly the skippable configurations that agree outside the topology, as far as they go. */
  lemma SupersedingInFields(configs: seq<Config>, selected: nat)
    requires selected < |configs|
    ensures SupersedesUpTo(configs, selected, Final(configs, selected))
  {
    FinalIsLongest(configs, selected);
    BaselineByPrevious(configs, selected);
  }

  /** The configuration to process instead of the selected one; those before it are superseded. */
  method ApplySuperseding(configs: seq<Config>, selected: nat)
    returns (final: nat, superseded: seq<nat>)
    requires selected < |configs| && Ordered(configs)
    ensures final == Final(configs, selected)
    ensures IsSuperseding(configs, PreviousApplied(configs, selected), selected, final)
    ensures SupersedesUpTo(configs, selected, final)
    ensures |superseded| == final - selected && forall i | 0 <= i < |superseded| :: superseded[i] == selected + i
  {
    FinalIsLongest(configs, selected);
    SupersedingInFields(configs, selected);
    final, superseded := selected, [];
    if configs[selected].phase.InProgress? || configs[selected].phase.Applied? {
      return;
    }
    if !configs[selected].spec.skipIfSuperseded {
      return;
    }
    var base := FindBaseline(configs, selected);
    BaselineIsPrevious(configs, selected, base, PreviousApplied(configs, selected));
    if base.Some? && !OnlyTopologyChange(configs[base.value].spec, configs[selected].spec) {
      return;
    }
    var selectedIdx := IndexOfConfig(configs, configs[selected].spec.sequence);
    assert selectedIdx == selected;
    final, superseded := WalkForward(configs, base, selectedIdx);
  }

  /** From a selected configuration that may be skipped, walks forward as far as only the topology changes. */
  method WalkForward(configs: seq<Config>, base: Option<nat>, selected: nat) returns (final: nat, superseded: seq<nat>)
    requires selected < |configs| && configs[selected].spec.skipIfSuperseded
    requires base.Some? ==> base.value < |configs|
    ensures final == Reach(configs, base, selected)
    ensures |superseded| == final - selected && forall i | 0 <= i < |superseded| :: superseded[i] == selected + i
  {
    final, superseded := selected, [];
    var next := selected + 1;
    while next < |configs|
      invariant next == final + 1 <= |configs| && selected <= final
      invariant Reach(configs, base, final) == Reach(configs, base, selected) && configs[final].spec.skipIfSuperseded
      invariant |superseded| == final - selected && forall i | 0 <= i < |superseded| :: superseded[i] == selected + i
    {
      if base.Some? && !OnlyTopologyChange(configs[base.value].spec, configs[next].spec) {
        return;
      }
      if base.None? && !OnlyTopologyChange(configs[final].spec, configs[next].spec) {
        return;
      }
      superseded := superseded + [final];
      final := next;
      if !configs[final].spec.skipIfSuperseded {
        return;
      }
      next := next + 1;
    }
  }

  /** The forward and the backward search find the same configuration. */
  lemma BaselineIsPrevious(configs: seq<Config>, i: int, a: Option<nat>, b: Option<nat>)
    requires IsLastApplied(configs, i, a) && IsLastApplied(configs, i, b) && 0 <= i <= |configs|
    ensures a == b
  {}

  // ----- The shape of the queue -----

  /** Finished configurations first, then at most one that is in progress, then those that were not started. */
  ghost predicate Shaped(configs: seq<Config>) {
    forall i | FirstOpen(configs) < i < |configs| :: configs[i].phase.Pending? || configs[i].phase.Unset?
  }

  /** The shape, said of every two configurations. */
  lemma ShapedByPairs(configs: seq<Config>)
    ensures Shaped(configs) <==>
            forall i, j | 0 <= i < j < |configs| :: Terminal(configs[j]) || configs[j].phase.InProgress? ==> Terminal(configs[i])
  {
    var k := FirstOpen(configs);
    if Shaped(configs) {
      forall i, j | 0 <= i < j < |configs| && (Terminal(configs[j]) || configs[j].phase.InProgress?)
        ensures Terminal(configs[i])
      {
        assert j <= k;
      }
    }
  }

  /** A phase that Robin may write for the configuration at index i. */
  ghost predicate MayWrite(configs: seq<Config>, i: int, phase: Phase) {
    0 <= i < |configs| &&
    (phase == configs[i].phase ||
     (configs[i].phase.Unset? && phase.Pending?) ||
     (i == FirstOpen(configs) && !phase.Unset? && !(configs[i].phase.InProgress? && !phase.Applied?)))
  }

  /** The same configurations; finished ones keep their phase. */
  ghost predicate Advanced(before: seq<Config>, after: seq<Config>) {
    |after| == |before| &&
    forall i | 0 <= i < |before| ::
      after[i].spec == before[i].spec && (Terminal(before[i]) ==> after[i].phase == before[i].phase) &&
      (before[i].phase.InProgress? ==> after[i].phase.InProgress? || after[i].phase.Applied?) &&
      (after[i].phase.Unset? ==> before[i].phase.Unset?)
  }

  lemma FirstOpenIs(configs: seq<Config>, k: nat)
    requires k <= |configs| && (forall i | 0 <= i < k :: Terminal(configs[i])) && (k < |configs| ==> !Terminal(configs[k]))
    ensures FirstOpen(configs) == k
  {}

  /** Every such write keeps the shape. */
  lemma WriteKeepsShape(configs: seq<Config>, i: int, phase: Phase)
    requires Shaped(configs) && MayWrite(configs, i, phase)
    ensures var next := configs[i := configs[i].(phase := phase)];
            Shaped(next) && Advanced(configs, next) && FirstOpen(next) >= FirstOpen(configs)
  {
    var next := configs[i := configs[i].(phase := phase)];
    assert forall j | 0 <= j < FirstOpen(configs) :: Terminal(next[j]);
  }

  lemma AdvancedTwice(a: seq<Config>, b: seq<Config>, c: seq<Config>)
    requires Advanced(a, b) && Advanced(b, c)
    ensures Advanced(a, c)
  {}

  lemma {:induction false} SameTerminal(a: seq<Config>, b: seq<Config>)
    requires |a| == |b| && forall j | 0 <= j < |a| :: Terminal(b[j]) <==> Terminal(a[j])
    ensures FirstOpen(a) == FirstOpen(b)
  {
    if a != [] && Terminal(a[0]) {
      SameTerminal(a[1..], b[1..]);
    }
  }

  /** Each superseded configuration could be skipped, and its successor differs from it in topology only. */
  ghost predicate Meaningful(configs: seq<Config>) {
    forall i | 0 <= i < |configs| && configs[i].phase.Superseded? :: Yields(configs, i)
  }

  ghost predicate Yields(configs: seq<Config>, i: nat)
    requires i < |configs|
  {
    i + 1 < |configs| && configs[i].spec.skipIfSuperseded && OnlyTopologyChange(configs[i].spec, configs[i + 1].spec)
  }

  // ----- What one cycle does -----

  /**
   What the world answers in one cycle: how the writes of initial and of superseded phases fare, listed by
   configuration, how the start of a configuration is written, and whether the cluster work then finished and
   how its write fares.
   */
  datatype Input = Input(initial: seq<Write>, superseding: seq<Write>, start: Write, finished: bool, finish: Write)

  function WriteAt(writes: seq<Write>, i: nat): Write {
    if i < |writes| then writes[i] else Done
  }

  /** The stored list after one status write. */
  function Put(stored: seq<Config>, i: nat, phase: Phase, w: Write): (r: seq<Config>)
    requires i < |stored|
    ensures |r| == |stored|
  {
    if w.Lost? then stored else stored[i := stored[i].(phase := phase)]
  }

  function Initialise(c: Config): Config {
    if c.phase.Unset? then c.(phase := Pending) else c
  }

  /** The list in memory once new configurations have their initial phase. */
  function Remembered(configs: seq<Config>): (r: seq<Config>)
    ensures |r| == |configs| && forall i | 0 <= i < |configs| :: r[i] == Initialise(configs[i])
  {
    seq(|configs|, i requires 0 <= i < |configs| => Initialise(configs[i]))
  }

  function Initialised(configs: seq<Config>, writes: seq<Write>): (r: seq<Config>)
    ensures |r| == |configs|
    ensures forall i | 0 <= i < |configs| :: r[i] == if WriteAt(writes, i).Lost? then configs[i] else Initialise(configs[i])
  {
    seq(|configs|, i requires 0 <= i < |configs| =>
      if WriteAt(writes, i).Lost? then configs[i] else Initialise(configs[i]))
  }

  /** The configurations from `at` up to `final` marked as superseded, as far as the first write that fails. */
  function Marked(stored: seq<Config>, at: nat, final: nat, writes: seq<Write>): (r: seq<Config>)
    requires at <= final < |stored|
    ensures |r| == |stored|
    decreases final - at
  {
    if at == final then stored
    else
      var next := Put(stored, at, Superseded, WriteAt(writes, at));
      if WriteAt(writes, at).Done? then Marked(next, at + 1, final, writes) else next
  }

  predicate AllMarked(at: nat, final: nat, writes: seq<Write>) {
    forall i | at <= i < final :: WriteAt(writes, i).Done?
  }

  function Finished(stored: seq<Config>, target: nat, input: Input): (r: seq<Config>)
    requires target < |stored|
    ensures |r| == |stored|
  {
    if input.finished then Put(stored, target, Applied, input.finish) else stored
  }

  /** Starts a pending configuration and works on one in progress, which may finish it. */
  function Processed(stored: seq<Config>, target: nat, phase: Phase, input: Input): (r: seq<Config>)
    requires target < |stored|
    ensures |r| == |stored|
  {
    match phase
    case Pending =>
      var started := Put(stored, target, InProgress, input.start);
      if input.start.Done? then Finished(started, target, input) else started
    case InProgress => Finished(stored, target, input)
    case _ => stored
  }

  /** The configuration that is worked on unless a write fails. */
  function Chosen(configs: seq<Config>): (final: nat)
    requires FirstOpen(configs) < |configs|
    ensures FirstOpen(configs) <= final < |configs|
  {
    Final(Remembered(configs), FirstOpen(configs))
  }

  /** The stored list after one cycle. */
  function Cycle(configs: seq<Config>, input: Input): (r: seq<Config>)
    ensures |r| == |configs|
  {
    var stored := Initialised(configs, input.initial);
    var open := FirstOpen(configs);
    if open == |configs| then stored
    else
      var final := Chosen(configs);
      var marked := Marked(stored, open, final, input.superseding);
      if AllMarked(open, final, input.superseding)
      then Processed(marked, final, Initialise(configs[final]).phase, input) else marked
  }

  /** The configuration whose cluster work one cycle does. */
  function Target(configs: seq<Config>, input: Input): (r: Option<nat>) {
    var open := FirstOpen(configs);
    if open == |configs| then PreviousApplied(Remembered(configs), |configs|)
    else
      var final := Chosen(configs);
      if !AllMarked(open, final, input.superseding) then None
      else
        match Initialise(configs[final]).phase
        case Pending => if input.start.Done? then Some(final) else None
        case InProgress => Some(final)
        case Applied => Some(final)
        case _ => None
  }

  class Queue {
    /** The configurations with their phases as stored. */
    var stored: seq<Config>

    constructor (initial: seq<Config>)
      ensures stored == initial
    {
      stored := initial;
    }

    /** Writes a phase; the error is reported unless the write is done. */
    method WritePhase(i: nat, phase: Phase, w: Write) returns (ok: bool)
      requires i < |stored|
      modifies this
      ensures ok == w.Done? && stored == Put(old(stored), i, phase, w)
    {
      if !w.Lost? {
        stored := stored[i := stored[i].(phase := phase)];
      }
      return w.Done?;
    }

    /** Gives every new configuration the phase Pending; the list in memory has it even where the write failed. */
    method InitPhases(input: Input) returns (configs: seq<Config>)
      modifies this
      ensures stored == Initialised(old(stored), input.initial) && configs == Remembered(old(stored))
    {
      configs := stored;
      for i := 0 to |configs|
        invariant |stored| == |configs| == |old(stored)|
        invariant forall j | i <= j < |configs| :: configs[j] == stored[j] == old(stored)[j]
        invariant forall j | 0 <= j < i :: configs[j] == Remembered(old(stored))[j]
        invariant forall j | 0 <= j < i :: stored[j] == Initialised(old(stored), input.initial)[j]
      {
        if configs[i].phase.Unset? {
          configs := configs[i := configs[i].(phase := Pending)];
          var _ := WritePhase(i, Pending, WriteAt(input.initial, i));
        }
      }
    }

    /**
     Marks the superseded configurations one after the other. If a write reports an error, that configuration is
     the one to process, although it already counts as superseded in memory.
     */
    method ApplySupersedingStatus(loaded: seq<Config>, superseded: seq<nat>, from: nat, final: nat, input: Input)
      returns (configs: seq<Config>, target: nat)
      requires from + |superseded| == final < |stored| == |loaded|
      requires forall i | 0 <= i < |superseded| :: superseded[i] == from + i
      modifies this
      ensures stored == Marked(old(stored), from, final, input.superseding)
      ensures target < |configs| == |loaded| && (target == final <==> AllMarked(from, final, input.superseding))
      ensures target == final ==> configs[target] == loaded[target]
      ensures target != final ==> configs[target].phase.Superseded?
    {
      configs := loaded;
      for i := 0 to |superseded|
        invariant |stored| == |configs| == |loaded| && AllMarked(from, from + i, input.superseding)
        invariant Marked(stored, from + i, final, input.superseding) == Marked(old(stored), from, final, input.superseding)
        invariant configs[final] == loaded[final]
      {
        var cfg := superseded[i];
        configs := configs[cfg := configs[cfg].(phase := Superseded)];
        var ok := WritePhase(cfg, Superseded, WriteAt(input.superseding, cfg));
        if !ok {
          return configs, cfg;
        }
      }
      return configs, final;
    }

    /** Starts a pending configuration; works on it, which may finish it. */
    method Process(target: nat, phase: Phase, input: Input) returns (ok: bool)
      requires target < |stored|
      modifies this
      ensures stored == Processed(old(stored), target, phase, input)
      ensures ok <==> (phase.Pending? && input.start.Done?) || phase.InProgress? || phase.Applied?
    {
      if !phase.Pending? && !phase.InProgress? && !phase.Applied? {
        return false;
      }
      if phase.Applied? {
        return true;
      }
      if phase.Pending? {
        ok := WritePhase(target, InProgress, input.start);
        if !ok {
          return false;
        }
      }
      if input.finished {
        var _ := WritePhase(target, Applied, input.finish);
      }
      return true;
    }

    /** One reconcile cycle; reports the configuration that was worked on, if any. */
    method Reconcile(input: Input) returns (worked: Option<nat>)
      requires Ordered(stored)
      modifies this
      ensures stored == Cycle(old(stored), input) && worked == Target(old(stored), input)
    {
      var configs := InitPhases(input);
      RememberedOrdered(old(stored));
      RememberedOpen(old(stored));
      var previous, selected := SelectConfig(configs);
      if selected.None? {
        return None;
      }
      var t := selected.value;
      var final, superseded := ApplySuperseding(configs, t);
      if FirstOpen(configs) == |configs| {
        NothingOpen(configs, t);
      }
      if |superseded| > 0 {
        configs, t := ApplySupersedingStatus(configs, superseded, t, final, input);
      }
      var ok := Process(t, configs[t].phase, input);
      return if ok then Some(t) else None;
    }
  }

  lemma RememberedOrdered(configs: seq<Config>)
    requires Ordered(configs)
    ensures Ordered(Remembered(configs))
  {}

  /** With nothing open, the selected configuration is applied, or all are superseded. */
  lemma NothingOpen(configs: seq<Config>, selected: nat)
    requires selected < |configs| && FirstOpen(configs) == |configs|
    requires IsLastApplied(configs, |configs|, Some(selected)) ||
             (IsLastApplied(configs, |configs|, None) && selected == |configs| - 1)
    ensures Final(configs, selected) == selected
    ensures PreviousApplied(configs, |configs|) == if configs[selected].phase.Applied? then Some(selected) else None
    ensures !configs[selected].phase.Pending? && !configs[selected].phase.InProgress?
  {
    if configs[selected].phase.Applied? {
      BaselineIsPrevious(configs, |configs|, PreviousApplied(configs, |configs|), Some(selected));
    } else {
      BaselineIsPrevious(configs, |configs|, PreviousApplied(configs, |configs|), None);
    }
    assert Terminal(configs[selected]);
  }

  // ----- What one cycle keeps -----

  lemma InitialisedKeeps(configs: seq<Config>, writes: seq<Write>)
    requires Shaped(configs)
    ensures Shaped(Initialised(configs, writes)) && Advanced(configs, Initialised(configs, writes))
    ensures FirstOpen(Initialised(configs, writes)) == FirstOpen(configs)
  {
    SameTerminal(configs, Initialised(configs, writes));
  }

  lemma RememberedOpen(configs: seq<Config>)
    ensures FirstOpen(Remembered(configs)) == FirstOpen(configs)
  {
    SameTerminal(configs, Remembered(configs));
  }

  lemma PutKeeps(stored: seq<Config>, i: nat, phase: Phase, w: Write)
    requires Shaped(stored) && MayWrite(stored, i, phase)
    ensures Shaped(Put(stored, i, phase, w)) && Advanced(stored, Put(stored, i, phase, w))
  {
    WriteKeepsShape(stored, i, phase);
  }

  lemma OpenMoves(stored: seq<Config>, at: nat)
    requires Shaped(stored) && FirstOpen(stored) == at && at + 1 < |stored|
    ensures FirstOpen(Put(stored, at, Superseded, Done)) == at + 1
  {
    FirstOpenIs(Put(stored, at, Superseded, Done), at + 1);
  }

  /** Marking keeps the shape; when every write is done, the final configuration is the first one open. */
  lemma {:induction false} MarkedKeeps(stored: seq<Config>, at: nat, final: nat, writes: seq<Write>)
    requires Shaped(stored) && FirstOpen(stored) == at <= final < |stored|
    requires at < final ==> !stored[at].phase.InProgress?
    ensures var marked := Marked(stored, at, final, writes);
            Shaped(marked) && Advanced(stored, marked) && marked[final..] == stored[final..] &&
            (AllMarked(at, final, writes) ==> FirstOpen(marked) == final)
    decreases final - at
  {
    if at < final {
      var w := WriteAt(writes, at);
      var next := Put(stored, at, Superseded, w);
      PutKeeps(stored, at, Superseded, w);
      if w.Done? {
        OpenMoves(stored, at);
        MarkedKeeps(next, at + 1, final, writes);
        AdvancedTwice(stored, next, Marked(next, at + 1, final, writes));
      }
    }
  }

  lemma FinishedKeeps(stored: seq<Config>, target: nat, input: Input)
    requires Shaped(stored) && FirstOpen(stored) == target < |stored|
    ensures Shaped(Finished(stored, target, input)) && Advanced(stored, Finished(stored, target, input))
  {
    if input.finished {
      PutKeeps(stored, target, Applied, input.finish);
    }
  }

  lemma ProcessedKeeps(stored: seq<Config>, target: nat, phase: Phase, input: Input)
    requires Shaped(stored) && FirstOpen(stored) == target < |stored| && Initialise(stored[target]).phase == phase
    ensures Shaped(Processed(stored, target, phase, input)) && Advanced(stored, Processed(stored, target, phase, input))
  {
    if phase.Pending? {
      var started := Put(stored, target, InProgress, input.start);
      PutKeeps(stored, target, InProgress, input.start);
      if input.start.Done? {
        FirstOpenIs(started, target);
        FinishedKeeps(started, target, input);
        AdvancedTwice(stored, started, Finished(started, target, input));
      }
    } else {
      FinishedKeeps(stored, target, input);
    }
  }

  lemma FinalStarted(configs: seq<Config>, open: nat)
    requires open < |configs| && open < Final(configs, open)
    ensures !configs[open].phase.InProgress?
  {}

  /** One cycle, whatever writes fail, keeps the shape and moves every phase forward only. */
  lemma CycleKeepsShape(configs: seq<Config>, input: Input)
    requires Shaped(configs)
    ensures Shaped(Cycle(configs, input)) && Advanced(configs, Cycle(configs, input))
  {
    var stored, open := Initialised(configs, input.initial), FirstOpen(configs);
    InitialisedKeeps(configs, input.initial);
    if open < |configs| {
      var final := Chosen(configs);
      if open < final {
        FinalStarted(Remembered(configs), open);
      }
      var marked := Marked(stored, open, final, input.superseding);
      MarkedKeeps(stored, open, final, input.superseding);
      AdvancedTwice(configs, stored, marked);
      if AllMarked(open, final, input.superseding) {
        assert marked[final] == marked[final..][0] == stored[final];
        ProcessedKeeps(marked, final, Initialise(configs[final]).phase, input);
        AdvancedTwice(configs, marked, Processed(marked, final, Initialise(configs[final]).phase, input));
      }
    }
  }

  ghost predicate SameSpecs(a: seq<Config>, b: seq<Config>) {
    |a| == |b| && forall i | 0 <= i < |a| :: a[i].spec == b[i].spec
  }

  lemma YieldsBySpecs(a: seq<Config>, b: seq<Config>, i: nat)
    requires SameSpecs(a, b) && i < |a| && Yields(a, i)
    ensures Yields(b, i)
  {}

  lemma MarkingMeans(stored: seq<Config>, at: nat, w: Write)
    requires Meaningful(stored) && at < |stored| && Yields(stored, at)
    ensures Meaningful(Put(stored, at, Superseded, w)) && SameSpecs(stored, Put(stored, at, Superseded, w))
  {
    var next := Put(stored, at, Superseded, w);
    assert forall i | 0 <= i < |next| && next[i].phase.Superseded? :: Yields(stored, i);
  }

  lemma WorkMeans(stored: seq<Config>, target: nat, phase: Phase, w: Write)
    requires Meaningful(stored) && target < |stored| && !phase.Superseded?
    ensures Meaningful(Put(stored, target, phase, w)) && SameSpecs(stored, Put(stored, target, phase, w))
  {
    var next := Put(stored, target, phase, w);
    assert forall i | 0 <= i < |next| && next[i].phase.Superseded? :: Yields(stored, i);
  }

  lemma {:induction false} MarkedMeans(stored: seq<Config>, at: nat, final: nat, writes: seq<Write>)
    requires Meaningful(stored) && at <= final < |stored| && forall i | at <= i < final :: Yields(stored, i)
    ensures Meaningful(Marked(stored, at, final, writes)) && SameSpecs(stored, Marked(stored, at, final, writes))
    decreases final - at
  {
    if at < final {
      var next := Put(stored, at, Superseded, WriteAt(writes, at));
      MarkingMeans(stored, at, WriteAt(writes, at));
      if WriteAt(writes, at).Done? {
        forall i | at + 1 <= i < final ensures Yields(next, i) {
          YieldsBySpecs(stored, next, i);
        }
        MarkedMeans(next, at + 1, final, writes);
      }
    }
  }

  lemma ProcessedMeans(stored: seq<Config>, target: nat, phase: Phase, input: Input)
    requires Meaningful(stored) && target < |stored|
    ensures Meaningful(Processed(stored, target, phase, input)) && SameSpecs(stored, Processed(stored, target, phase, input))
  {
    WorkMeans(stored, target, InProgress, input.start);
    WorkMeans(stored, target, Applied, input.finish);
    WorkMeans(Put(stored, target, InProgress, input.start), target, Applied, input.finish);
  }

  lemma InitialisedMeans(configs: seq<Config>, writes: seq<Write>)
    requires Meaningful(configs)
    ensures Meaningful(Initialised(configs, writes)) && SameSpecs(configs, Initialised(configs, writes))
  {
    var next := Initialised(configs, writes);
    assert forall i | 0 <= i < |next| && next[i].phase.Superseded? :: Yields(configs, i);
  }

  /** Whatever the walk passes over yields to its successor. */
  lemma PassedYields(configs: seq<Config>, selected: nat)
    requires selected < |configs|
    ensures forall i | selected <= i < Final(configs, selected) :: Yields(configs, i)
  {
    FinalIsLongest(configs, selected);
  }

  /** Also where the writes fail half-way. */
  lemma CycleKeepsMeaning(configs: seq<Config>, input: Input)
    requires Meaningful(configs)
    ensures Meaningful(Cycle(configs, input)) && SameSpecs(configs, Cycle(configs, input))
  {
    var stored, open := Initialised(configs, input.initial), FirstOpen(configs);
    InitialisedMeans(configs, input.initial);
    if open < |configs| {
      var final := Chosen(configs);
      PassedYields(Remembered(configs), open);
      forall i | open <= i < final ensures Yields(stored, i) {
        YieldsBySpecs(Remembered(configs), stored, i);
      }
      MarkedMeans(stored, open, final, input.superseding);
      ProcessedMeans(Marked(stored, open, final, input.superseding), final, Initialise(configs[final]).phase, input);
    }
  }

  /**
   The configuration is in progress or applied, everything before it is finished, and what was not finished
   before the cycle was superseded: each of these may be skipped, and differs from the target in topology only.
   */
  ghost predicate Worked(before: seq<Config>, after: seq<Config>, target: nat) {
    target < |after| == |before| && (after[target].phase.InProgress? || after[target].phase.Applied?) &&
    (forall i | 0 <= i < target :: Terminal(after[i])) &&
    forall i | FirstOpen(before) <= i < target ::
      after[i].phase.Superseded? && before[i].spec.skipIfSuperseded &&
      OnlyTopologyChange(before[i].spec, before[target].spec)
  }

  lemma {:induction false} MarkedAt(stored: seq<Config>, at: nat, final: nat, writes: seq<Write>, i: nat)
    requires at <= final < |stored| && AllMarked(at, final, writes) && i < |stored|
    ensures Marked(stored, at, final, writes)[i] == if at <= i < final then stored[i].(phase := Superseded) else stored[i]
    decreases final - at
  {
    if at < final {
      MarkedAt(Put(stored, at, Superseded, WriteAt(writes, at)), at + 1, final, writes, i);
    }
  }

  lemma OpenPhase(configs: seq<Config>)
    requires Shaped(configs) && FirstOpen(configs) < |configs|
    ensures Initialise(configs[Chosen(configs)]).phase.Pending? || Initialise(configs[Chosen(configs)]).phase.InProgress?
  {}

  lemma ProcessedElsewhere(stored: seq<Config>, target: nat, phase: Phase, input: Input, i: nat)
    requires target < |stored| && i < |stored| && i != target
    ensures Processed(stored, target, phase, input)[i] == stored[i]
  {}

  /** What a cycle leaves of the configurations other than the chosen one. */
  lemma CycleElsewhere(configs: seq<Config>, input: Input, i: nat)
    requires FirstOpen(configs) < |configs| && i < |configs| && i != Chosen(configs)
    ensures Cycle(configs, input)[i] ==
            Marked(Initialised(configs, input.initial), FirstOpen(configs), Chosen(configs), input.superseding)[i]
  {
    var open, final := FirstOpen(configs), Chosen(configs);
    ProcessedElsewhere(Marked(Initialised(configs, input.initial), open, final, input.superseding), final,
                       Initialise(configs[final]).phase, input, i);
  }

  /** The configurations before the target, after the cycle that works on it. */
  lemma PassedOver(configs: seq<Config>, input: Input, i: nat)
    requires FirstOpen(configs) < |configs| && AllMarked(FirstOpen(configs), Chosen(configs), input.superseding)
    requires i < Chosen(configs)
    ensures Cycle(configs, input)[i] == if FirstOpen(configs) <= i then configs[i].(phase := Superseded) else configs[i]
  {
    CycleElsewhere(configs, input, i);
    MarkedAt(Initialised(configs, input.initial), FirstOpen(configs), Chosen(configs), input.superseding, i);
    InitialisedAt(configs, input.initial, i);
  }

  lemma InitialisedAt(configs: seq<Config>, writes: seq<Write>, i: nat)
    requires i < |configs|
    ensures Initialised(configs, writes)[i].(phase := Superseded) == configs[i].(phase := Superseded)
    ensures i < FirstOpen(configs) ==> Initialised(configs, writes)[i] == configs[i]
  {
    assert i < FirstOpen(configs) ==> Terminal(configs[i]);
  }

  lemma PassedFinished(configs: seq<Config>, input: Input, i: nat)
    requires FirstOpen(configs) < |configs| && AllMarked(FirstOpen(configs), Chosen(configs), input.superseding)
    requires i < Chosen(configs)
    ensures Terminal(Cycle(configs, input)[i])
  {
    PassedOver(configs, input, i);
  }

  lemma ProcessedPhase(stored: seq<Config>, target: nat, phase: Phase, input: Input)
    requires target < |stored| && Initialise(stored[target]).phase == phase
    requires phase.InProgress? || (phase.Pending? && input.start.Done?)
    ensures var after := Processed(stored, target, phase, input)[target];
            after.phase.Applied? || (after.phase.InProgress? && !(input.finished && !input.finish.Lost?))
  {}

  /** The target, after the cycle that works on it. */
  lemma TargetPhase(configs: seq<Config>, input: Input)
    requires Shaped(configs) && FirstOpen(configs) < |configs| && Target(configs, input).Some?
    ensures AllMarked(FirstOpen(configs), Chosen(configs), input.superseding)
    ensures Target(configs, input).value == Chosen(configs)
    ensures var after := Cycle(configs, input)[Chosen(configs)];
            after.phase.Applied? || (after.phase.InProgress? && !(input.finished && !input.finish.Lost?))
  {
    var stored, open, final := Initialised(configs, input.initial), FirstOpen(configs), Chosen(configs);
    OpenPhase(configs);
    MarkedAt(stored, open, final, input.superseding, final);
    ProcessedPhase(Marked(stored, open, final, input.superseding), final, Initialise(configs[final]).phase, input);
  }

  /** What is passed over collapses into the target. */
  lemma PassedCollapses(configs: seq<Config>, i: nat)
    requires FirstOpen(configs) < |configs| && FirstOpen(configs) <= i < Chosen(configs)
    ensures configs[i].spec.skipIfSuperseded && OnlyTopologyChange(configs[i].spec, configs[Chosen(configs)].spec)
  {
    FinalIsLongest(Remembered(configs), FirstOpen(configs));
    assert Remembered(configs)[i].spec == configs[i].spec;
  }

  /** What the configuration means that a cycle works on. */
  lemma TargetIsWorked(configs: seq<Config>, input: Input)
    requires Shaped(configs) && Target(configs, input).Some?
    ensures Worked(configs, Cycle(configs, input), Target(configs, input).value)
  {
    var open, target := FirstOpen(configs), Target(configs, input).value;
    if open < |configs| {
      TargetPhase(configs, input);
      forall i | 0 <= i < target
        ensures Terminal(Cycle(configs, input)[i]) && (open <= i ==> Cycle(configs, input)[i].phase.Superseded?)
      {
        PassedOver(configs, input, i);
      }
      forall i | open <= i < target
        ensures configs[i].spec.skipIfSuperseded && OnlyTopologyChange(configs[i].spec, configs[target].spec)
      {
        PassedCollapses(configs, i);
      }
    } else {
      NothingChanges(configs, input);
    }
  }

  lemma NothingChanges(configs: seq<Config>, input: Input)
    requires FirstOpen(configs) == |configs|
    ensures Cycle(configs, input) == configs == Remembered(configs)
  {
    assert forall i | 0 <= i < |configs| :: Terminal(configs[i]);
  }

  ghost predicate Actionable(configs: seq<Config>) {
    FirstOpen(configs) < |configs| || exists i | 0 <= i < |configs| :: configs[i].phase.Applied?
  }

  /** No write that the cycle depends on fails; the initial phases may be lost. */
  predicate NoneFails(input: Input) {
    (forall w <- input.superseding :: w.Done?) && input.start.Done?
  }

  lemma ActionableIsWorked(configs: seq<Config>, input: Input)
    requires Shaped(configs) && Actionable(configs) && NoneFails(input)
    ensures Target(configs, input).Some?
  {
    if FirstOpen(configs) < |configs| {
      OpenPhase(configs);
    } else {
      var i :| 0 <= i < |configs| && configs[i].phase.Applied?;
      assert Remembered(configs)[i].phase.Applied?;
    }
  }

  // ----- Which phases change, and how -----

  lemma {:induction false} MarkedOrKept(stored: seq<Config>, at: nat, final: nat, writes: seq<Write>, i: nat)
    requires at <= final < |stored| && i < |stored|
    ensures var marked := Marked(stored, at, final, writes);
            marked[i] == stored[i] || (at <= i < final && marked[i] == stored[i].(phase := Superseded))
    decreases final - at
  {
    if at < final {
      MarkedOrKept(Put(stored, at, Superseded, WriteAt(writes, at)), at + 1, final, writes, i);
    }
  }

  /** What may become of a configuration that is worked on. */
  ghost predicate WorkedOn(before: Config, after: Config, input: Input) {
    after.spec == before.spec &&
    (after.phase == before.phase || (before.phase.Unset? && after.phase.Pending?) ||
     ((before.phase.Unset? || before.phase.Pending?) && after.phase.InProgress? && !input.start.Lost?) ||
     ((before.phase.Unset? || before.phase.Pending?) && after.phase.Applied? && input.start.Done? && input.finished) ||
     (before.phase.InProgress? && after.phase.Applied? && input.finished))
  }

  lemma ProcessedWorks(before: Config, stored: seq<Config>, target: nat, input: Input)
    requires target < |stored| && (stored[target] == before || stored[target] == Initialise(before))
    ensures WorkedOn(before, Processed(stored, target, Initialise(before).phase, input)[target], input)
  {}

  /** What may become of any other configuration. */
  ghost predicate LeftAlone(configs: seq<Config>, i: nat, after: Config)
    requires i < |configs|
  {
    after == configs[i] || (configs[i].phase.Unset? && after == configs[i].(phase := Pending)) ||
    (after == configs[i].(phase := Superseded) && (configs[i].phase.Unset? || configs[i].phase.Pending?) &&
     i + 1 < |configs| && configs[i].spec.skipIfSuperseded && configs[i].spec.rest == configs[i + 1].spec.rest)
  }

  lemma OpenIsNotStarted(configs: seq<Config>, i: nat)
    requires Shaped(configs) && FirstOpen(configs) < |configs| && FirstOpen(configs) <= i < Chosen(configs)
    ensures configs[i].phase.Unset? || configs[i].phase.Pending?
  {
    FinalStarted(Remembered(configs), FirstOpen(configs));
  }

  lemma OthersLeftAlone(configs: seq<Config>, input: Input, i: nat)
    requires Shaped(configs) && FirstOpen(configs) < |configs| && i < |configs| && i != Chosen(configs)
    ensures LeftAlone(configs, i, Cycle(configs, input)[i])
  {
    CycleElsewhere(configs, input, i);
    MarkedOrKept(Initialised(configs, input.initial), FirstOpen(configs), Chosen(configs), input.superseding, i);
    if FirstOpen(configs) <= i < Chosen(configs) {
      OpenIsNotStarted(configs, i);
      PassedYields(Remembered(configs), FirstOpen(configs));
      assert Yields(Remembered(configs), i);
    }
  }

  lemma ChosenWorked(configs: seq<Config>, input: Input)
    requires FirstOpen(configs) < |configs|
    ensures WorkedOn(configs[Chosen(configs)], Cycle(configs, input)[Chosen(configs)], input)
  {
    var stored, open, final := Initialised(configs, input.initial), FirstOpen(configs), Chosen(configs);
    MarkedOrKept(stored, open, final, input.superseding, final);
    ProcessedWorks(configs[final], Marked(stored, open, final, input.superseding), final, input);
  }

  ghost predicate OnlyWorksOn(configs: seq<Config>, after: seq<Config>, target: nat, input: Input)
    requires |after| == |configs|
  {
    forall i: nat | i < |configs| ::
      if i == target then WorkedOn(configs[i], after[i], input) else LeftAlone(configs, i, after[i])
  }

  /**
   In one cycle a configuration is started only once this is written, applied only once it was in progress and its
   work finished, and superseded only by one that agrees with it outside the topology; at most one is worked on.
   */
  lemma CycleTransitions(configs: seq<Config>, input: Input)
    requires Shaped(configs)
    ensures exists target: nat :: OnlyWorksOn(configs, Cycle(configs, input), target, input)
  {
    var after := Cycle(configs, input);
    if FirstOpen(configs) == |configs| {
      NothingChanges(configs, input);
      assert OnlyWorksOn(configs, after, |configs|, input);
    } else {
      forall i: nat | i < |configs|
        ensures if i == Chosen(configs) then WorkedOn(configs[i], after[i], input) else LeftAlone(configs, i, after[i])
      {
        if i == Chosen(configs) {
          ChosenWorked(configs, input);
        } else {
          OthersLeftAlone(configs, input, i);
        }
      }
      assert OnlyWorksOn(configs, after, Chosen(configs), input);
    }
  }

  /** Every superseding write for the configurations from `from` up to `end` got through without an error. */
  ghost predicate NoneFailed(writes: seq<Write>, from: nat, end: nat) {
    forall j: nat | from <= j < end :: WriteAt(writes, j) == Done
  }

  lemma {:induction false} MarkedStops(stored: seq<Config>, at: nat, final: nat, writes: seq<Write>, i: nat)
    requires at <= final < |stored| && i < |stored| && Marked(stored, at, final, writes)[i] != stored[i]
    ensures at <= i < final && NoneFailed(writes, at, i) && WriteAt(writes, i) != Lost
    decreases final - at
  {
    var next := Put(stored, at, Superseded, WriteAt(writes, at));
    if next[i] == stored[i] {
      MarkedStops(next, at + 1, final, writes, i);
    } else {
      assert i == at;
    }
  }

  /**
   Superseding stops at the first write that reports an error: nothing behind it is superseded, and nothing is
   worked on in that cycle.
   */
  lemma FailureStops(configs: seq<Config>, input: Input, i: nat)
    requires Shaped(configs) && i < |configs| && FirstOpen(configs) < |configs|
    ensures !configs[i].phase.Superseded? && Cycle(configs, input)[i].phase.Superseded? ==>
              FirstOpen(configs) <= i < Chosen(configs) && NoneFailed(input.superseding, FirstOpen(configs), i)
    ensures Target(configs, input) == Some(i) ==>
              i == Chosen(configs) && NoneFailed(input.superseding, FirstOpen(configs), i)
    ensures !NoneFailed(input.superseding, FirstOpen(configs), Chosen(configs)) ==>
              !Cycle(configs, input)[Chosen(configs)].phase.InProgress? || configs[Chosen(configs)].phase.InProgress?
  {
    var stored, open, final := Initialised(configs, input.initial), FirstOpen(configs), Chosen(configs);
    if i != final {
      CycleElsewhere(configs, input, i);
      if Marked(stored, open, final, input.superseding)[i] != stored[i] {
        MarkedStops(stored, open, final, input.superseding, i);
      }
    } else {
      ChosenWorked(configs, input);
    }
    MarkedOrKept(stored, open, final, input.superseding, final);
  }

  /** Between the last applied configuration and the one worked on, everything was superseded. */
  lemma SupersededBetween(before: seq<Config>, after: seq<Config>, target: nat, baseline: nat, i: nat)
    requires Worked(before, after, target) && IsLastApplied(after, target, Some(baseline)) && baseline < i < target
    ensures after[i].phase.Superseded?
  {
    assert Terminal(after[i]);
  }

  // ----- Every run -----

  /** The operator adds configurations of higher sequence, without a phase. */
  ghost predicate Added(before: seq<Config>, after: seq<Config>) {
    |before| <= |after| && after[..|before|] == before && Ordered(after) &&
    forall i | |before| <= i < |after| :: after[i].phase.Unset?
  }

  /** One step of the system: a cycle under some answers of the world, or new configurations. */
  ghost predicate Step(before: seq<Config>, after: seq<Config>) {
    (exists input :: after == Cycle(before, input)) || Added(before, after)
  }

  ghost predicate StepAt(run: seq<seq<Config>>, i: nat)
    requires i + 1 < |run|
  {
    Step(run[i], run[i + 1])
  }

  ghost predicate Healthy(configs: seq<Config>) {
    Ordered(configs) && Shaped(configs) && Meaningful(configs)
  }

  /** Every configuration is still there, in the same place; finished ones are as they were. */
  ghost predicate Preserved(before: seq<Config>, after: seq<Config>) {
    |before| <= |after| &&
    forall i | 0 <= i < |before| ::
      after[i].spec == before[i].spec && (Terminal(before[i]) ==> after[i] == before[i])
  }

  lemma AddingKeeps(before: seq<Config>, after: seq<Config>)
    requires Healthy(before) && Added(before, after)
    ensures Healthy(after) && Preserved(before, after)
  {
    assert forall i | 0 <= i < |before| :: after[i] == before[i];
    assert forall i | 0 <= i < |before| && after[i].phase.Superseded? :: Yields(before, i) && Yields(after, i);
    var k := FirstOpen(before);
    if k < |after| {
      FirstOpenIs(after, k);
    }
  }

  lemma CycleKeeps(configs: seq<Config>, input: Input)
    requires Healthy(configs)
    ensures Healthy(Cycle(configs, input)) && Preserved(configs, Cycle(configs, input))
  {
    CycleKeepsShape(configs, input);
    CycleKeepsMeaning(configs, input);
  }

  lemma StepKeeps(before: seq<Config>, after: seq<Config>)
    requires Healthy(before) && Step(before, after)
    ensures Healthy(after) && Preserved(before, after)
  {
    if Added(before, after) {
      AddingKeeps(before, after);
    } else {
      var input :| after == Cycle(before, input);
      CycleKeeps(before, input);
    }
  }

  ghost predicate Kept(run: seq<seq<Config>>, i: nat, j: nat)
    requires i <= j < |run|
  {
    Healthy(run[j]) && Preserved(run[i], run[j])
  }

  lemma KeptNext(run: seq<seq<Config>>, i: nat, j: nat)
    requires i <= j && j + 1 < |run| && Kept(run, i, j) && StepAt(run, j)
    ensures Kept(run, i, j + 1)
  {
    StepKeeps(run[j], run[j + 1]);
  }

  lemma KeptAlong(run: seq<seq<Config>>, i: nat, j: nat)
    requires i <= j < |run| && Kept(run, i, i)
    requires forall k | i <= k < |run| - 1 :: StepAt(run, k)
    ensures Kept(run, i, j)
  {
    var kept := (k: nat) => i <= k < |run| && Kept(run, i, k);
    forall k: nat | i <= k < j ensures PassesOn(kept, k) {
      assert StepAt(run, k);
      if kept(k) {
        KeptNext(run, i, k);
      }
    }
    Along(kept, i, j);
  }

  /**
   In every run, whatever writes fail: the queue keeps its order and shape, whatever is superseded yields to its
   successor, and a finished configuration stays as it is.
   */
  lemma RunKeepsQueue(run: seq<seq<Config>>, i: nat, j: nat)
    requires i <= j < |run| && Healthy(run[i])
    requires forall k | i <= k < |run| - 1 :: StepAt(run, k)
    ensures Healthy(run[j]) && Preserved(run[i], run[j])
  {
    KeptAlong(run, i, j);
  }

  /** A queue of configurations without a phase is healthy. */
  lemma FreshIsHealthy(configs: seq<Config>)
    requires Ordered(configs) && forall i | 0 <= i < |configs| :: configs[i].phase.Unset?
    ensures Healthy(configs)
  {}

  /** In every run, each superseded configuration has a later one that is not, and agrees with it outside the topology. */
  lemma RunReplaces(run: seq<seq<Config>>, i: nat, j: nat, k: nat)
    requires i <= j < |run| && Healthy(run[i]) && k < |run[j]| && run[j][k].phase.Superseded?
    requires forall step | i <= step < |run| - 1 :: StepAt(run, step)
    ensures exists m | k < m < |run[j]| ::
              !run[j][m].phase.Superseded? && run[j][m].spec.rest == run[j][k].spec.rest &&
              forall between | k <= between < m :: run[j][between].phase.Superseded?
  {
    RunKeepsQueue(run, i, j);
    SupersededIsReplaced(run[j], k);
  }

  /** No configuration is superseded in vain: a later one that is not replaces it, and differs in topology only. */
  lemma {:induction false} SupersededIsReplaced(configs: seq<Config>, i: nat)
    requires Meaningful(configs) && i < |configs| && configs[i].phase.Superseded?
    ensures exists j | i < j < |configs| ::
              !configs[j].phase.Superseded? && OnlyTopologyChange(configs[i].spec, configs[j].spec) &&
              forall k | i <= k < j :: configs[k].phase.Superseded?
    decreases |configs| - i
  {
    assert Yields(configs, i);
    if configs[i + 1].phase.Superseded? {
      SupersededIsReplaced(configs, i + 1);
    }
  }

  // ----- Progress -----

  /** Nothing fails and the cluster work of the configuration finishes. */
  predicate Finishes(input: Input) {
    NoneFails(input) && input.finished && !input.finish.Lost?
  }

  lemma ChosenApplied(configs: seq<Config>, input: Input)
    requires Shaped(configs) && Finishes(input) && FirstOpen(configs) < |configs|
    ensures AllMarked(FirstOpen(configs), Chosen(configs), input.superseding)
    ensures Cycle(configs, input)[Chosen(configs)].phase.Applied?
  {
    ActionableIsWorked(configs, input);
    TargetPhase(configs, input);
  }

  lemma OpenBehind(configs: seq<Config>, k: nat)
    requires k < |configs| && (forall i | 0 <= i < k :: Terminal(configs[i])) && Terminal(configs[k])
    requires k + 1 < |configs| ==> !Terminal(configs[k + 1])
    ensures FirstOpen(configs) == k + 1
  {
    FirstOpenIs(configs, k + 1);
  }

  /** Such a cycle finishes everything up to the target. */
  lemma CycleFinishes(configs: seq<Config>, input: Input)
    requires Shaped(configs) && Finishes(input) && FirstOpen(configs) < |configs|
    ensures FirstOpen(Cycle(configs, input)) == Chosen(configs) + 1
  {
    ChosenApplied(configs, input);
    var final := Chosen(configs);
    forall i | 0 <= i < final ensures Terminal(Cycle(configs, input)[i]) {
      PassedFinished(configs, input, i);
    }
    if final + 1 < |configs| {
      TargetRest(configs, input, final + 1);
    }
    OpenBehind(Cycle(configs, input), final);
  }

  /** Nothing behind the target is finished. */
  lemma TargetRest(configs: seq<Config>, input: Input, i: nat)
    requires Shaped(configs) && FirstOpen(configs) < |configs| && Chosen(configs) < i < |configs|
    ensures !Terminal(Cycle(configs, input)[i])
  {
    CycleElsewhere(configs, input, i);
    MarkedBehind(Initialised(configs, input.initial), FirstOpen(configs), Chosen(configs), input.superseding, i);
    InitialisedBehind(configs, input.initial, i);
  }

  lemma InitialisedBehind(configs: seq<Config>, writes: seq<Write>, i: nat)
    requires Shaped(configs) && FirstOpen(configs) < i < |configs|
    ensures !Terminal(Initialised(configs, writes)[i])
  {}

  lemma {:induction false} MarkedBehind(stored: seq<Config>, at: nat, final: nat, writes: seq<Write>, i: nat)
    requires at <= final < i < |stored|
    ensures Marked(stored, at, final, writes)[i] == stored[i]
    decreases final - at
  {
    if at < final {
      MarkedBehind(Put(stored, at, Superseded, WriteAt(writes, at)), at + 1, final, writes, i);
    }
  }

  ghost predicate GoodStepAt(run: seq<seq<Config>>, i: nat)
    requires i + 1 < |run|
  {
    exists input :: Finishes(input) && run[i + 1] == Cycle(run[i], input)
  }

  ghost predicate Served(run: seq<seq<Config>>, i: nat)
    requires i < |run|
  {
    Healthy(run[i]) && |run[i]| == |run[0]| && (i <= FirstOpen(run[i]) || FirstOpen(run[i]) == |run[i]|)
  }

  lemma ServedNext(run: seq<seq<Config>>, i: nat)
    requires i + 1 < |run| && Served(run, i) && GoodStepAt(run, i)
    ensures Served(run, i + 1)
  {
    var input :| Finishes(input) && run[i + 1] == Cycle(run[i], input);
    CycleKeeps(run[i], input);
    if FirstOpen(run[i]) < |run[i]| {
      CycleFinishes(run[i], input);
    } else {
      NothingChanges(run[i], input);
    }
  }

  lemma RunServes(run: seq<seq<Config>>, i: nat)
    requires i < |run| && Healthy(run[0])
    requires forall k | 0 <= k < |run| - 1 :: GoodStepAt(run, k)
    ensures Served(run, i)
  {
    var served := (k: nat) => k < |run| && Served(run, k);
    forall k: nat | 0 <= k < i ensures PassesOn(served, k) {
      assert GoodStepAt(run, k);
      if served(k) {
        ServedNext(run, k);
      }
    }
    Along(served, 0, i);
  }

  /** After as many good cycles as there are configurations all are finished, and the newest one is applied. */
  lemma QueueEmpties(run: seq<seq<Config>>, i: nat)
    requires i < |run| && Healthy(run[0]) && 0 < |run[0]| <= i
    requires forall k | 0 <= k < |run| - 1 :: GoodStepAt(run, k)
    ensures |run[i]| == |run[0]| && forall k | 0 <= k < |run[i]| :: Terminal(run[i][k])
    ensures run[i][|run[i]| - 1].phase.Applied?
  {
    RunServes(run, i);
    var last := |run[i]| - 1;
    assert Terminal(run[i][last]) && !Yields(run[i], last);
  }
}
