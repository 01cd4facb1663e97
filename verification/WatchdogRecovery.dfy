// A loop that recovered by itself is left alone: what an earlier cycle decided and
// did not get to is dropped as soon as the heartbeat moves or the unit is started anew.
module WatchdogRecovery {
  import opened Common
  import opened Watchdog
  import opened WatchdogCycle
  import opened WatchdogClock
  import opened WatchdogDecision

  // A reading of clocks and counts, none of which is negative.
  predicate Sensible(sample: Sample) {
    sample.now >= 0 && sample.monotonic >= 0.0 && sample.heartbeats >= 0
  }

  // A cycle on a record of an earlier one that saves its own.
  ghost predicate Saves(h: Host, input: CycleInput) {
    && h.disk.Some? && ValidState(h.disk.value) && Anchored(h.disk.value)
    && !input.dryRun && input.decisionSave.Saved? && Sensible(input.sample)
  }

  // What a cycle printed.
  function Printed(h: Host, after: Host): seq<Signal> {
    if |h.printed| <= |after.printed| then after.printed[|h.printed|..] else []
  }

  // A saved cycle that names no unit leaves exactly its decision behind.
  lemma QuietCycle(h: Host, input: CycleInput, config: Config)
    requires Saves(h, input) && Evaluate(input.sample, h.disk, config).units == []
    ensures
      var after, d := Cycle(h, input, config), Evaluate(input.sample, h.disk, config);
      after.disk == Some(d.state) && after.log == h.log && Printed(h, after) == d.lines
  {
    hide Evaluate, ValidState, Anchored;
    var d := Evaluate(input.sample, h.disk, config);
    var h1 := Say(Persist(h, d.state, Saved), d.lines);
    assert Actuate(h1, d.state, [], [], input.steps, config) == Actuation(h1, [], false);
    assert h1.printed + [] == h1.printed;
  }

  lemma {:induction false} RecentNonNegative(xs: seq<int>, now: int, window: int)
    requires AllNonNegative(xs)
    ensures AllNonNegative(Recent(xs, now, window))
  {
    hide Recent;
    forall x | x in Recent(xs, now, window) ensures x >= 0 {
      InRecent(xs, now, window, x);
    }
  }

  lemma MovedIsValid(s: State, sample: Sample, config: Config)
    requires ValidState(s) && Sensible(sample)
    ensures ValidState(Carry(s, sample, config).(progressAt := Some(sample.now), pending := []))
  {
    hide Recent;
    RecentNonNegative(s.restarts, sample.now, config.window);
    RecentNonNegative(s.dependencyRestarts, sample.now, config.window);
    RecentNonNegative(s.decisions, sample.now, config.window);
  }

  lemma RebaseIsValid(s: State, mode: string)
    requires ValidState(s)
    ensures ValidState(Rebase(s, mode))
  {
  }

  // A decision on a heartbeat that moved is the carried record with a new clock.
  lemma MovedRecord(sample: Sample, s: State, config: Config)
    requires ValidState(s) && Anchored(s) && Moved(s, sample, config)
    ensures Evaluate(sample, Some(s), config).state
         == Carry(Rebase(s, sample.producerMode), sample, config).(progressAt := Some(sample.now), pending := [])
  {
    hide Trusted, Evaluate, ValidState, Anchored, Carry;
    TrustedIsProgress(sample, Some(s), config);
    GuardsMean(s, sample);
  }

  /** A cycle that sees a new heartbeat, or the unit started anew, restarts nothing and
      leaves nothing to restart; it reports health unless the new start has yet to beat. */
  lemma MovedForgetsPending(h: Host, input: CycleInput, config: Config)
    requires Saves(h, input) && Moved(h.disk.value, input.sample, config)
    ensures
      var s, after := h.disk.value, Cycle(h, input, config);
      && after.log == h.log && after.disk.Some? && after.disk.value.pending == []
      && after.disk.value.progressAt == Some(input.sample.now)
      && after.disk.value.heartbeats == Some(input.sample.heartbeats)
      && after.disk.value.producerMode == input.sample.producerMode
      && ValidState(after.disk.value) && Anchored(after.disk.value)
      && (CycleOk in Printed(h, after) <==>
            !StartedAnew(s, input.sample) || input.sample.heartbeats > SeenBefore(s, input.sample))
      && RestartAttempt !in Printed(h, after)
  {
    hide Evaluate, Trusted, Cycle, ValidState, Anchored, Carry;
    var s := h.disk.value;
    DecisionMeans(input.sample, h.disk, config);
    QuietCycle(h, input, config);
    MovedRecord(input.sample, s, config);
    RebaseIsValid(s, input.sample.producerMode);
    MovedIsValid(Rebase(s, input.sample.producerMode), input.sample, config);
    EvaluateAdvances(input.sample, h.disk, config);
  }

  /** And the next cycle that may judge the heartbeat, no later than the stale
      threshold, names no unit either and reports health, whatever had been decided
      before the loop moved. */
  lemma RecoveredIsLeftAlone(h: Host, first: CycleInput, second: CycleInput, config: Config)
    requires Saves(h, first) && Moved(h.disk.value, first.sample, config)
    requires
      var between := Cycle(h, first, config);
      && Saves(between, second) && Trusted(between.disk.value, second.sample, config)
      && second.sample.producerMode == first.sample.producerMode
      && second.sample.heartbeats == first.sample.heartbeats && !StartedAnew(between.disk.value, second.sample)
      && second.sample.now <= first.sample.now + config.staleSeconds
    ensures
      var between := Cycle(h, first, config);
      var after := Cycle(between, second, config);
      && after.log == h.log && after.disk.Some? && after.disk.value.pending == []
      && CycleOk in Printed(between, after) && RestartAttempt !in Printed(between, after)
  {
    hide Evaluate, Trusted, Cycle, ValidState, Anchored;
    var between := Cycle(h, first, config);
    MovedForgetsPending(h, first, config);
    DecisionMeans(second.sample, between.disk, config);
    QuietCycle(between, second, config);
  }
}
