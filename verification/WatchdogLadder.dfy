// Reachability of the top of the recovery ladder: a loop that stays wedged is
// not restarted for ever, it reaches the escalation or the give-up rung.
module WatchdogLadder {
  import opened Common
  import opened Watchdog
  import opened WatchdogCycle
  import opened WatchdogBudget
  import opened WatchdogClock

  // ------------------------------------------------------- the wedged host

  /** The loop shows `beats` heartbeats and everything recovery needs is in order. */
  predicate Frozen(sample: Sample, mode: string, beats: int, config: Config) {
    && !sample.logError && sample.producerMode == mode && sample.heartbeats == beats
    && SupervisionSafe(sample, config)
  }

  /** Every write lands and every command is confirmed. */
  predicate Clean(input: CycleInput, config: Config) {
    && !input.dryRun && input.decisionSave.Saved?
    && |input.steps| > |config.dependencies|
    && (forall i :: 0 <= i < |input.steps| ==>
          input.steps[i].budgetLeft && input.steps[i].save.Saved? && input.steps[i].command.Confirmed?)
  }

  // The monotonic clock does not lag the wall clock enough to look like a jump.
  predicate ClocksAgree(wall: int, monotonic: real, sample: Sample) {
    sample.monotonic - monotonic >= (sample.now - wall) as real - FORWARD_JUMP_TOLERANCE
  }

  /** A supervised record with a baseline and nothing pending. */
  predicate Armed(s: State, mode: string, beats: int) {
    && ValidState(s) && s.producerMode == mode && s.heartbeats == Some(beats)
    && (s.everSeen || mode != "legacy")
    && s.progressAt.Some? && s.lastObservedAt.Some? && s.monotonicAt.Some?
    && s.progressAt.value <= s.lastObservedAt.value
    && s.pending == []
  }

  /** One observation after `s`, at most `d` seconds later and done within `d`. */
  predicate NextSample(s: State, input: CycleInput, d: nat, mode: string, beats: int, config: Config) {
    && Frozen(input.sample, mode, beats, config) && Clean(input, config)
    && StepsOrdered(input.sample.now, input.steps)
    && s.lastObservedAt.Some? && s.monotonicAt.Some?
    && Latest(s) <= input.sample.now <= s.lastObservedAt.value + d
    && CycleEnd(input) <= input.sample.now + d
    && ClocksAgree(s.lastObservedAt.value, s.monotonicAt.value, input.sample)
    && input.sample.monotonic >= 0.0
  }

  /** Escalation where there is a dependency to escalate to, else giving up. */
  predicate TopRung(d: Decision, config: Config) {
    GivingUp in d.lines || (config.dependencies != [] && d.units == config.dependencies + [config.unit])
  }

  // ------------------------------------------------------- one cycle

  lemma EvaluateArmed(s: State, input: CycleInput, d: nat, mode: string, beats: int, config: Config)
    requires config.usable && Armed(s, mode, beats) && NextSample(s, input, d, mode, beats, config)
    ensures
      var sample := input.sample;
      Evaluate(sample, Some(s), config) == EvaluateProgress(sample, s, Carry(s, sample, config), config)
  {
    assert Base(input.sample, Some(s)) == s;
    hide Latest, EvaluateProgress, Carry, SupervisionSafe, ValidState, StepsOrdered, StepsEnd, Clean;
  }

  lemma RecentPast(xs: seq<int>, now: int, window: int)
    requires AllNonNegative(xs)
    ensures AllNonNegative(Recent(xs, now, window))
  {
    forall x | x in Recent(xs, now, window) ensures x >= 0 {
      InRecent(xs, now, window, x);
    }
  }

  lemma CarryArmed(s: State, sample: Sample, mode: string, beats: int, config: Config)
    requires Armed(s, mode, beats) && Latest(s) <= sample.now
    requires sample.producerMode == mode && sample.heartbeats == beats && sample.monotonic >= 0.0
    ensures
      var c := Carry(s, sample, config);
      && Armed(c, mode, beats)
      && c.lastObservedAt == Some(sample.now)
  {
    hide Latest;
    var now := sample.now;
    var c := Carry(s, sample, config);
    HighWaterMarks(sample, s);
    RecentPast(s.restarts, now, config.window);
    RecentPast(s.dependencyRestarts, now, config.window);
    RecentPast(s.decisions, now, config.window);
    LatestCovers(s);
    assert Carries(s, s.lastObservedAt.value);
  }

  // What an armed, wedged loop leads to in one decision.
  predicate Waits(d: Decision, s: State, sample: Sample, config: Config) {
    && d.units == []
    && d.state == Carry(s, sample, config).(progressAt := d.state.progressAt, pending := [])
    && (if UnitReentered(s, sample) then d.state.progressAt == Some(sample.now)
        else d.state.progressAt == s.progressAt && s.progressAt.Some?
             && sample.now - s.progressAt.value <= config.staleSeconds)
  }

  predicate RestartsLoop(d: Decision, s: State, sample: Sample, config: Config) {
    var c := Carry(s, sample, config);
    && d.units == [config.unit] && d.state == Decide(c, sample.now, [config.unit])
    && |c.restarts| < config.maxRestarts
  }

  predicate Tops(d: Decision, s: State, config: Config) {
    && TopRung(d, config)
    && (config.dependencies == [] ==> GivingUp in d.lines)
    && (config.dependencies != [] && s.dependencyRestarts == [] ==> d.units == config.dependencies + [config.unit])
  }

  lemma WedgedDecision(s: State, input: CycleInput, d: nat, mode: string, beats: int, config: Config)
    requires config.usable && config.maxRestarts >= 1
    requires Armed(s, mode, beats) && NextSample(s, input, d, mode, beats, config)
    ensures
      var sample := input.sample;
      var decision := Evaluate(sample, Some(s), config);
      Waits(decision, s, sample, config) || RestartsLoop(decision, s, sample, config) || Tops(decision, s, config)
  {
    hide Latest, SupervisionSafe, ValidState, StepsOrdered, StepsEnd, Clean, Recent, MaxOf, StateTimes, Evaluate,
         ClocksAgree;
    EvaluateArmed(s, input, d, mode, beats, config);
    NothingRecent(input.sample.now, config.window);
  }

  lemma NothingRecent(now: int, window: int)
    ensures Recent([], now, window) == []
  {
  }

  // ------------------------------------------------------- one clean cycle

  lemma ActuateOne(h: Host, s: State, outcome: seq<Signal>, unit: string, steps: seq<UnitStep>, config: Config)
    requires steps != [] && steps[0].budgetLeft && steps[0].save.Saved? && steps[0].command.Confirmed?
    ensures
      var a := Actuate(h, s, outcome, [unit], steps, config);
      && !a.killed
      && a.host.disk == Some(Charge(s, unit, steps[0].attemptAt, config))
      && a.host.log == h.log + [Attempt(unit, steps[0].attemptAt, true, true)]
  {
    hide Charge;
    var turn := TakeTurn(h, s, [unit], steps[0], config);
    assert turn.go;
    assert [unit][1..] == [];
  }

  lemma CleanCycle(h: Host, input: CycleInput, config: Config)
    requires Clean(input, config) && h.disk.Some? && ValidState(h.disk.value)
    ensures
      var d := Evaluate(input.sample, h.disk, config);
      var after := Cycle(h, input, config);
      && (d.units == [] ==> after.disk == Some(d.state) && after.log == h.log)
      && (d.units == [config.unit] ==>
            && after.disk == Some(Charge(d.state, config.unit, input.steps[0].attemptAt, config))
            && after.log == h.log + [Attempt(config.unit, input.steps[0].attemptAt, true, true)])
  {
    hide Evaluate, Charge, ValidState;
    var d := Evaluate(input.sample, h.disk, config);
    var h1 := Say(Persist(h, d.state, input.decisionSave), d.lines);
    if d.units == [config.unit] {
      ActuateOne(h1, d.state, [], config.unit, input.steps, config);
    }
  }

  lemma WaitArmed(d: Decision, s: State, sample: Sample, mode: string, beats: int, config: Config)
    requires Waits(d, s, sample, config) && Armed(s, mode, beats) && Latest(s) <= sample.now
    requires sample.producerMode == mode && sample.heartbeats == beats && sample.monotonic >= 0.0
    ensures Armed(d.state, mode, beats) && d.state.lastObservedAt == Some(sample.now)
  {
    hide Latest;
    CarryArmed(s, sample, mode, beats, config);
    LatestCovers(s);
    assert Carries(s, s.lastObservedAt.value);
  }

  lemma RestartArmed(d: Decision, s: State, sample: Sample, at: int, mode: string, beats: int, config: Config)
    requires RestartsLoop(d, s, sample, config) && Armed(s, mode, beats)
    requires Latest(s) <= sample.now <= at
    requires sample.producerMode == mode && sample.heartbeats == beats && sample.monotonic >= 0.0
    ensures
      var next := Charge(d.state, config.unit, at, config);
      Armed(next, mode, beats) && next.progressAt == next.lastObservedAt == Some(sample.now)
  {
    hide Latest, Recent;
    var c := Carry(s, sample, config);
    CarryArmed(s, sample, mode, beats, config);
    RecentPast(c.restarts, at, config.window);
    LatestCovers(s);
    assert Carries(s, s.lastObservedAt.value);
  }

  // ------------------------------------------------------- counting restarts

  /** How many of the times are `b` or later. */
  function CountFrom(xs: seq<int>, b: int): nat {
    if xs == [] then 0 else (if xs[0] >= b then 1 else 0) + CountFrom(xs[1..], b)
  }

  lemma {:induction false} CountInsert(x: int, xs: seq<int>, b: int)
    ensures CountFrom(Insert(x, xs), b) == CountFrom([x] + xs, b)
  {
    assert ([x] + xs)[1..] == xs;
    if xs != [] && x > xs[0] {
      CountInsert(x, xs[1..], b);
      assert ([x] + xs[1..])[1..] == xs[1..];
      assert ([xs[0]] + Insert(x, xs[1..]))[1..] == Insert(x, xs[1..]);
    }
  }

  lemma {:induction false} CountSort(xs: seq<int>, b: int)
    ensures CountFrom(Sort(xs), b) == CountFrom(xs, b)
  {
    if xs != [] {
      CountSort(xs[1..], b);
      CountInsert(xs[0], Sort(xs[1..]), b);
      assert ([xs[0]] + Sort(xs[1..]))[1..] == Sort(xs[1..]);
    }
  }

  /** Trimming to a window that still reaches back to `b` loses nothing from `b` on. */
  lemma {:induction false} CountKeepRecent(xs: seq<int>, now: int, window: int, b: int)
    requires now - b < window
    ensures CountFrom(KeepRecent(xs, now, window), b) == CountFrom(xs, b)
  {
    if xs != [] {
      CountKeepRecent(xs[1..], now, window, b);
      assert ([xs[0]] + KeepRecent(xs[1..], now, window))[1..] == KeepRecent(xs[1..], now, window);
    }
  }

  lemma CountRecent(xs: seq<int>, now: int, window: int, b: int)
    requires now - b < window
    ensures CountFrom(Recent(xs, now, window), b) == CountFrom(xs, b)
  {
    CountKeepRecent(xs, now, window, b);
    CountSort(KeepRecent(xs, now, window), b);
  }

  lemma {:induction false} CountAppend(xs: seq<int>, x: int, b: int)
    ensures CountFrom(xs + [x], b) == CountFrom(xs, b) + (if x >= b then 1 else 0)
  {
    if xs != [] {
      assert (xs + [x])[1..] == xs[1..] + [x];
      CountAppend(xs[1..], x, b);
    }
  }

  lemma {:induction false} CountAtMost(xs: seq<int>, b: int)
    ensures CountFrom(xs, b) <= |xs|
  {
    if xs != [] {
      CountAtMost(xs[1..], b);
    }
  }

  // ------------------------------------------------------- the climb

  /** How a wedged run goes on: every sample comes within `d` of the one before, and
      the unit re-enters `active` only where this run restarted it. */
  predicate WedgedRun(trace: seq<Host>, inputs: seq<CycleInput>, d: nat, mode: string, beats: int, config: Config) {
    && Follows(trace, inputs, config)
    && (forall i :: 0 <= i < |inputs| && trace[i].disk.Some? ==>
          NextSample(trace[i].disk.value, inputs[i], d, mode, beats, config))
    && (forall i :: 0 < i < |inputs| && trace[i].log == trace[i - 1].log ==>
          inputs[i].sample.unitStartedAt == inputs[i - 1].sample.unitStartedAt)
  }

  /** Where a climb stands: the next rung is due at sample time `due` at the latest. */
  predicate DueBy(s: State, due: int, restarted: bool, d: nat, config: Config) {
    && s.progressAt.Some? && s.lastObservedAt.Some?
    && (if restarted
        then s.progressAt == s.lastObservedAt && s.lastObservedAt.value + config.staleSeconds + 2 * d <= due
        else s.progressAt.value + config.staleSeconds + d <= due && s.lastObservedAt.value + d <= due)
  }

  lemma WaitStillDue(decision: Decision, s: State, input: CycleInput, due: int, restarted: bool, d: nat,
                     mode: string, beats: int, config: Config)
    requires Armed(s, mode, beats) && NextSample(s, input, d, mode, beats, config)
    requires Waits(decision, s, input.sample, config) && DueBy(s, due, restarted, d, config)
    requires config.staleSeconds >= 0
    requires !restarted ==> input.sample.unitStartedAt == s.unitStartedAt
    ensures Armed(decision.state, mode, beats)
    ensures decision.state.lastObservedAt == Some(input.sample.now)
    ensures DueBy(decision.state, due, false, d, config)
  {
    hide Latest, Carry, SupervisionSafe, ValidState, StepsOrdered, StepsEnd;
    WaitArmed(decision, s, input.sample, mode, beats, config);
  }

  lemma StepWithin(input: CycleInput)
    requires StepsOrdered(input.sample.now, input.steps) && input.steps != []
    ensures input.sample.now <= input.steps[0].attemptAt <= CycleEnd(input)
  {
    StepsEndLater(input.steps[0].attemptAt, input.steps[1..]);
  }

  lemma RestartCounts(c: State, now: int, at: int, b: int, n: nat, config: Config)
    requires CountFrom(c.restarts, b) >= n && b <= now <= at && at - b < config.window
    ensures CountFrom(Charge(Decide(c, now, [config.unit]), config.unit, at, config).restarts, b) >= n + 1
  {
    hide Recent;
    CountRecent(c.restarts, at, config.window, b);
    CountAppend(Recent(c.restarts, at, config.window), at, b);
  }

  // `n` restarts since `b` are on record, the next rung is due by `due`, and each
  // rung after that costs at most one stale threshold and two samples.
  predicate Climbing(s: State, n: int, b: int, due: int, cap: int, restarted: bool, d: nat, mode: string, beats: int,
                     config: Config) {
    && Armed(s, mode, beats) && DueBy(s, due, restarted, d, config)
    && 0 <= n <= config.maxRestarts
    && due + (config.maxRestarts - n) * (config.staleSeconds + 2 * d) <= cap
    && (n > 0 ==> cap - b < config.window && b <= s.lastObservedAt.value && CountFrom(s.restarts, b) >= n)
  }

  predicate Patient(d: nat, config: Config) {
    && config.usable && config.maxRestarts >= 1 && config.staleSeconds >= 0
    && config.maxRestarts * (config.staleSeconds + 2 * d) < config.window
  }

  lemma RungCost(n: int, k: nat, config: Config)
    requires 0 <= n <= config.maxRestarts
    ensures (config.maxRestarts - n) * k >= 0
    ensures n < config.maxRestarts ==> (config.maxRestarts - n) * k == (config.maxRestarts - n - 1) * k + k
  {
  }

  lemma CarryCounts(s: State, sample: Sample, n: int, b: int, config: Config)
    requires n > 0 ==> sample.now - b < config.window && CountFrom(s.restarts, b) >= n
    ensures CountFrom(Carry(s, sample, config).restarts, b) >= n
    ensures |Carry(s, sample, config).restarts| >= n
  {
    hide Recent;
    var c := Carry(s, sample, config);
    if n > 0 {
      CountRecent(s.restarts, sample.now, config.window, b);
    }
    CountAtMost(c.restarts, b);
  }

  lemma SampleIsDue(s: State, input: CycleInput, n: int, b: int, due: int, cap: int, restarted: bool, d: nat,
                    mode: string, beats: int, config: Config)
    requires Patient(d, config) && Climbing(s, n, b, due, cap, restarted, d, mode, beats, config)
    requires NextSample(s, input, d, mode, beats, config)
    ensures input.sample.now <= due <= cap
    ensures s.lastObservedAt.value <= input.sample.now
  {
    hide Latest, CountFrom, SupervisionSafe;
    RungCost(n, config.staleSeconds + 2 * d, config);
    LatestCovers(s);
    assert Carries(s, s.lastObservedAt.value);
  }

  lemma ClimbWait(decision: Decision, s: State, input: CycleInput, n: int, b: int, due: int, cap: int,
                  restarted: bool, d: nat, mode: string, beats: int, config: Config)
    requires Patient(d, config) && Climbing(s, n, b, due, cap, restarted, d, mode, beats, config)
    requires NextSample(s, input, d, mode, beats, config)
    requires Waits(decision, s, input.sample, config)
    requires !restarted ==> input.sample.unitStartedAt == s.unitStartedAt
    ensures Climbing(decision.state, n, b, due, cap, false, d, mode, beats, config)
    ensures decision.state.lastObservedAt == Some(input.sample.now)
  {
    hide Latest, CountFrom, Carry, Recent, NextSample, Armed, DueBy;
    SampleIsDue(s, input, n, b, due, cap, restarted, d, mode, beats, config);
    WaitStillDue(decision, s, input, due, restarted, d, mode, beats, config);
    CarryCounts(s, input.sample, n, b, config);
  }

  // The arithmetic of one restart, sampled at `now` and charged at `at`.
  lemma RestartFits(now: int, at: int, n: int, b: int, due: int, cap: int, d: nat, config: Config)
    returns (b': int, cap': int)
    requires Patient(d, config) && 0 <= n < config.maxRestarts
    requires now <= due && now <= at <= now + d
    requires due + (config.maxRestarts - n) * (config.staleSeconds + 2 * d) <= cap
    requires n > 0 ==> cap - b < config.window && b <= now
    ensures n > 0 ==> b' == b
    ensures cap' <= cap && b' <= now && at - b' < config.window && cap' - b' < config.window
    ensures now + config.staleSeconds + 2 * d
         + (config.maxRestarts - (n + 1)) * (config.staleSeconds + 2 * d) <= cap'
  {
    var k := config.staleSeconds + 2 * d;
    b' := if n == 0 then now else b;
    cap' := if n == 0 then now + config.maxRestarts * k else cap;
    RungCost(n, k, config);
    RungCost(n + 1, k, config);
    RungCost(0, k, config);
  }

  lemma ClimbRestart(decision: Decision, s: State, input: CycleInput, n: int, b: int, due: int, cap: int,
                     restarted: bool, d: nat, mode: string, beats: int, config: Config)
    returns (b': int, due': int, cap': int)
    requires Patient(d, config) && Climbing(s, n, b, due, cap, restarted, d, mode, beats, config)
    requires NextSample(s, input, d, mode, beats, config)
    requires RestartsLoop(decision, s, input.sample, config)
    ensures
      var next := Charge(decision.state, config.unit, input.steps[0].attemptAt, config);
      && cap' <= cap
      && Climbing(next, n + 1, b', due', cap', true, d, mode, beats, config)
      && next.lastObservedAt == Some(input.sample.now)
  {
    hide Latest, CountFrom, SupervisionSafe, Recent, Armed, Charge, Carry, StepsEnd, StepsOrdered;
    var now, at := input.sample.now, input.steps[0].attemptAt;
    var c := Carry(s, input.sample, config);
    SampleIsDue(s, input, n, b, due, cap, restarted, d, mode, beats, config);
    StepWithin(input);
    CarryCounts(s, input.sample, n, b, config);
    b', cap' := RestartFits(now, at, n, b, due, cap, d, config);
    due' := now + config.staleSeconds + 2 * d;
    CarryCounts(s, input.sample, n, b', config);
    RestartCounts(c, now, at, b', n, config);
    RestartArmed(decision, s, input.sample, at, mode, beats, config);
  }

  lemma DependenciesKept(decision: Decision, s: State, sample: Sample, at: int, config: Config)
    requires Waits(decision, s, sample, config) || RestartsLoop(decision, s, sample, config)
    requires s.dependencyRestarts == []
    ensures decision.state.dependencyRestarts == []
    ensures Charge(decision.state, config.unit, at, config).dependencyRestarts == []
  {
    hide MaxOf, StateTimes;
    NothingRecent(sample.now, config.window);
  }

  // One cycle short of the top: the record it leaves still climbs.
  lemma ClimbStep(h: Host, input: CycleInput, n: int, b: int, due: int, cap: int, restarted: bool, d: nat,
                  mode: string, beats: int, config: Config)
    returns (n': int, b': int, due': int, cap': int, restarted': bool)
    requires Patient(d, config) && h.disk.Some?
    requires Climbing(h.disk.value, n, b, due, cap, restarted, d, mode, beats, config)
    requires NextSample(h.disk.value, input, d, mode, beats, config)
    requires !restarted ==> input.sample.unitStartedAt == h.disk.value.unitStartedAt
    requires !Tops(Evaluate(input.sample, h.disk, config), h.disk.value, config)
    ensures
      var after := Cycle(h, input, config);
      && after.disk.Some? && cap' <= cap
      && Climbing(after.disk.value, n', b', due', cap', restarted', d, mode, beats, config)
      && after.disk.value.lastObservedAt == Some(input.sample.now)
      && (h.disk.value.dependencyRestarts == [] ==> after.disk.value.dependencyRestarts == [])
      && (!restarted' ==> after.log == h.log && after.disk.value.unitStartedAt == input.sample.unitStartedAt)
  {
    hide Latest, CountFrom, SupervisionSafe, Recent, Charge, StepsEnd, StepsOrdered, Evaluate, Cycle, ValidState, Tops,
      MaxOf, StateTimes, DueBy, Patient;
    var s := h.disk.value;
    var decision := Evaluate(input.sample, h.disk, config);
    assert Patient(d, config) ==> config.usable && config.maxRestarts >= 1 by { PatientLadder(d, config); }
    WedgedDecision(s, input, d, mode, beats, config);
    CleanCycle(h, input, config);
    if s.dependencyRestarts == [] {
      DependenciesKept(decision, s, input.sample, input.steps[0].attemptAt, config);
    }
    if Waits(decision, s, input.sample, config) {
      n', b', due', cap', restarted' := n, b, due, cap, false;
      ClimbWait(decision, s, input, n, b, due, cap, restarted, d, mode, beats, config);
    } else {
      n', restarted' := n + 1, true;
      b', due', cap' := ClimbRestart(decision, s, input, n, b, due, cap, restarted, d, mode, beats, config);
    }
  }

  lemma PatientLadder(d: nat, config: Config)
    ensures Patient(d, config) ==> config.usable && config.maxRestarts >= 1 && config.staleSeconds >= 0
  {
  }

  lemma NotPastDue(s: State, n: int, b: int, due: int, cap: int, restarted: bool, d: nat, mode: string, beats: int,
                   config: Config)
    requires Patient(d, config) && Climbing(s, n, b, due, cap, restarted, d, mode, beats, config)
    ensures s.lastObservedAt.value <= cap
  {
    hide CountFrom, Armed;
    RungCost(n, config.staleSeconds + 2 * d, config);
  }

  lemma {:induction false} Climb(trace: seq<Host>, inputs: seq<CycleInput>, i: nat, n: int, b: int, due: int, cap: int,
                                 restarted: bool, d: nat, mode: string, beats: int, config: Config)
    returns (k: nat)
    requires Patient(d, config) && WedgedRun(trace, inputs, d, mode, beats, config)
    requires i <= |inputs| && trace[i].disk.Some?
    requires Climbing(trace[i].disk.value, n, b, due, cap, restarted, d, mode, beats, config)
    requires i < |inputs| && !restarted ==> inputs[i].sample.unitStartedAt == trace[i].disk.value.unitStartedAt
    requires i > 0 ==> trace[i].disk.value.lastObservedAt == Some(inputs[i - 1].sample.now)
    requires inputs != [] && inputs[|inputs| - 1].sample.now > cap
    ensures i <= k < |inputs| && trace[k].disk.Some?
    ensures Tops(Evaluate(inputs[k].sample, trace[k].disk, config), trace[k].disk.value, config)
    ensures trace[i].disk.value.dependencyRestarts == [] ==> trace[k].disk.value.dependencyRestarts == []
    decreases |inputs| - i
  {
    hide Climbing, Cycle, Evaluate, Tops, NextSample, Patient;
    NotPastDue(trace[i].disk.value, n, b, due, cap, restarted, d, mode, beats, config);
    assert i < |inputs|;
    var h, input := trace[i], inputs[i];
    assert NextSample(h.disk.value, input, d, mode, beats, config);
    if Tops(Evaluate(input.sample, h.disk, config), h.disk.value, config) {
      k := i;
    } else {
      var n', b', due', cap', restarted' :=
        ClimbStep(h, input, n, b, due, cap, restarted, d, mode, beats, config);
      assert trace[i + 1] == Cycle(h, input, config);
      k := Climb(trace, inputs, i + 1, n', b', due', cap', restarted', d, mode, beats, config);
    }
  }

  /** A wedged loop reaches the top of the ladder: from any armed record, once samples
      have gone on for the threshold plus `maxRestarts` rungs, some cycle escalates to
      the dependencies, or gives up when there are none. */
  lemma WedgedLoopReachesTop(trace: seq<Host>, inputs: seq<CycleInput>, d: nat, mode: string, beats: int,
                             config: Config)
    returns (k: nat)
    requires config.usable && config.maxRestarts >= 1 && config.staleSeconds >= 0
    requires 2 * d * config.maxRestarts < config.staleSeconds
    requires (config.maxRestarts + 1) * config.staleSeconds <= config.window
    requires WedgedRun(trace, inputs, d, mode, beats, config)
    requires inputs != [] && trace[0].disk.Some? && Armed(trace[0].disk.value, mode, beats)
    requires inputs[0].sample.unitStartedAt == trace[0].disk.value.unitStartedAt
    requires inputs[|inputs| - 1].sample.now
           > trace[0].disk.value.lastObservedAt.value + config.staleSeconds + d
             + config.maxRestarts * (config.staleSeconds + 2 * d)
    ensures k < |inputs| && trace[k].disk.Some?
    ensures TopRung(Evaluate(inputs[k].sample, trace[k].disk, config), config)
    ensures config.dependencies == [] ==> GivingUp in Evaluate(inputs[k].sample, trace[k].disk, config).lines
    ensures config.dependencies != [] && trace[0].disk.value.dependencyRestarts == []
        ==> Evaluate(inputs[k].sample, trace[k].disk, config).units == config.dependencies + [config.unit]
  {
    hide Evaluate, Cycle, NextSample, Armed, Latest, CountFrom;
    var s := trace[0].disk.value;
    ArmedOrder(s, mode, beats);
    var due := s.lastObservedAt.value + config.staleSeconds + d;
    var cap := due + config.maxRestarts * (config.staleSeconds + 2 * d);
    WindowHoldsLadder(d, config);
    k := Climb(trace, inputs, 0, 0, 0, due, cap, false, d, mode, beats, config);
  }

  lemma ArmedOrder(s: State, mode: string, beats: int)
    requires Armed(s, mode, beats)
    ensures s.progressAt.Some? && s.lastObservedAt.Some? && s.progressAt.value <= s.lastObservedAt.value
  {
  }

  // The window `load_config` insists on is wide enough for a full climb.
  lemma WindowHoldsLadder(d: nat, config: Config)
    requires config.usable && config.maxRestarts >= 1 && config.staleSeconds >= 0
    requires 2 * d * config.maxRestarts < config.staleSeconds
    requires (config.maxRestarts + 1) * config.staleSeconds <= config.window
    ensures Patient(d, config)
  {
    var m, s := config.maxRestarts, config.staleSeconds;
    assert m * (s + 2 * d) == m * s + 2 * d * m;
    assert (m + 1) * s == m * s + s;
  }
}
