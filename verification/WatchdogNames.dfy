// When the restart budget holds at all: exactly when the configured dependency
// names and the loop unit are pairwise distinct. The code does not check this; a
// list that repeats a name, or names the loop itself, has a run that overspends.
module WatchdogNames {
  import opened Common
  import opened Text
  import opened Watchdog
  import opened WatchdogCycle
  import opened WatchdogBudget
  import opened WatchdogClock
  import opened WatchdogLadder

  // ------------------------------------------------------- a loop wedged from the start

  // A sample of a host whose loop printed one heartbeat and then stopped, `rung`
  // periods after the first and with the unit started anew `starts` times since.
  function WedgedSample(rung: nat, starts: nat, config: Config): Sample {
    var now := rung * Period(config);
    Sample(now, now as real, 1, false, Yes, NoHang, "active", Some(Decimal(starts)), Yes, "legacy", true)
  }

  function WedgedInput(rung: nat, starts: nat, config: Config): CycleInput {
    var step := UnitStep(true, rung * Period(config), Saved, Confirmed);
    CycleInput(false, WedgedSample(rung, starts, config), Saved, seq(|config.dependencies| + 1, _ => step))
  }

  // Two cycles a period: one that restarts the loop, one that sees it re-entered.
  function WedgedAt(i: nat, config: Config): CycleInput {
    WedgedInput((i + 1) / 2, i / 2, config)
  }

  function WedgedInputs(n: nat, config: Config): seq<CycleInput> {
    seq(n, i requires 0 <= i < n => WedgedAt(i, config))
  }

  function WedgedHost(i: nat, config: Config): Host {
    if i == 0 then FreshHost else Cycle(WedgedHost(i - 1, config), WedgedAt(i - 1, config), config)
  }

  function WedgedTrace(n: nat, config: Config): seq<Host> {
    seq(n + 1, i requires 0 <= i < n + 1 => WedgedHost(i, config))
  }

  lemma WedgedIsRun(n: nat, config: Config)
    ensures IsRun(WedgedTrace(n, config), WedgedInputs(n, config), config)
  {
    hide Cycle, WedgedAt;
  }

  lemma {:induction false} ConstantStepsEnd(t: int, steps: seq<UnitStep>)
    requires forall i :: 0 <= i < |steps| ==> steps[i].attemptAt == t
    ensures StepsOrdered(t, steps) && StepsEnd(t, steps) == t
    decreases |steps|
  {
    if steps != [] {
      ConstantStepsEnd(t, steps[1..]);
    }
  }

  lemma Scaled(a: int, b: int, p: int)
    requires a <= b && p >= 0
    ensures a * p <= b * p
  {
  }

  lemma WedgedClock(n: nat, config: Config)
    requires config.staleSeconds >= 0
    ensures ClockNeverGoesBack(WedgedInputs(n, config))
  {
    var inputs := WedgedInputs(n, config);
    forall i | 0 <= i < n
      ensures StepsOrdered(inputs[i].sample.now, inputs[i].steps) && CycleEnd(inputs[i]) == inputs[i].sample.now
    {
      ConstantStepsEnd(inputs[i].sample.now, inputs[i].steps);
    }
    forall i | 0 < i < n ensures CycleEnd(inputs[i - 1]) <= inputs[i].sample.now {
      Scaled(i / 2, (i + 1) / 2, Period(config));
    }
  }

  // ------------------------------------------------------- restarting every unit at once

  function AttemptsAt(units: seq<string>, at: int): seq<Attempt> {
    seq(|units|, i requires 0 <= i < |units| => Attempt(units[i], at, true, true))
  }

  lemma {:induction false} ActuateAll(h: Host, s: State, outcome: seq<Signal>, units: seq<string>,
                                      steps: seq<UnitStep>, at: int, config: Config)
    requires |units| <= |steps|
    requires forall i :: 0 <= i < |steps| ==> steps[i] == UnitStep(true, at, Saved, Confirmed)
    ensures Actuate(h, s, outcome, units, steps, config).host.log == h.log + AttemptsAt(units, at)
    decreases |units|
  {
    hide Charge;
    if units != [] {
      var turn := TakeTurn(h, s, units, steps[0], config);
      assert turn.go && turn.host.log == h.log + [Attempt(units[0], at, true, true)];
      ActuateAll(turn.host, turn.state, outcome + turn.lines, units[1..], steps[1..], at, config);
      assert AttemptsAt(units, at) == [Attempt(units[0], at, true, true)] + AttemptsAt(units[1..], at);
    }
  }

  // ------------------------------------------------------- the state after each period

  function Ticks(n: nat, config: Config): seq<int> {
    seq(n, i requires 0 <= i < n => (i + 1) * Period(config))
  }

  function LoopLog(n: nat, config: Config): seq<Attempt> {
    seq(n, i requires 0 <= i < n => Attempt(config.unit, (i + 1) * Period(config), true, true))
  }

  // The loop was restarted once per period since the first sample, and the record
  // knows of `starts` of these restarts.
  predicate Climbed(h: Host, i: nat, starts: nat, config: Config) {
    && h.disk.Some?
    && var s := h.disk.value;
       && Armed(s, "legacy", 1)
       && s.progressAt == s.lastObservedAt == Some(i * Period(config))
       && s.monotonicAt == Some((i * Period(config)) as real)
       && Latest(s) <= i * Period(config)
       && s.unitStartedAt == Some(Decimal(starts))
       && s.restarts == Ticks(i, config) && s.dependencyRestarts == []
       && h.log == LoopLog(i, config)
  }

  lemma FirstDecision(sample: Sample, config: Config)
    requires Climbable(config) && sample == WedgedSample(0, 0, config)
    ensures Evaluate(sample, None, config)
         == Decision([CycleOk], Carry(EmptyState, sample, config).(progressAt := Some(0)), [])
  {
    hide Carry, Latest;
    assert StateTimes(EmptyState) == [];
  }

  lemma FirstRecord(sample: Sample, config: Config)
    requires sample == WedgedSample(0, 0, config)
    ensures
      var s := Carry(EmptyState, sample, config).(progressAt := Some(0));
      && Armed(s, "legacy", 1) && s.lastObservedAt == Some(0) && s.monotonicAt == Some(0.0)
      && Latest(s) <= 0 && s.unitStartedAt == Some(Decimal(0)) && s.restarts == [] && s.dependencyRestarts == []
  {
    assert StateTimes(EmptyState) == [];
    NothingRecent(0, config.window);
    LatestCovers(Carry(EmptyState, sample, config).(progressAt := Some(0)));
  }

  lemma ClimbedFresh(config: Config)
    requires Climbable(config)
    ensures Climbed(Cycle(FreshHost, WedgedInput(0, 0, config), config), 0, 0, config)
  {
    hide Evaluate, Carry, Latest, Armed;
    var input := WedgedInput(0, 0, config);
    FirstDecision(input.sample, config);
    FirstRecord(input.sample, config);
  }

  lemma PeriodsAdd(i: nat, config: Config)
    requires Climbable(config)
    ensures (i + 1) * Period(config) == i * Period(config) + Period(config)
    ensures i * Period(config) >= 0
    ensures i <= config.maxRestarts ==> i * Period(config) < config.window
  {
    if i <= config.maxRestarts {
      var more := config.maxRestarts - i;
      assert config.maxRestarts * Period(config) == i * Period(config) + more * Period(config);
    }
  }

  lemma TicksStay(i: nat, rung: nat, config: Config)
    requires Climbable(config) && i <= config.maxRestarts && i <= rung <= i + 1
    ensures Recent(Ticks(i, config), rung * Period(config), config.window) == Ticks(i, config)
  {
    var ticks, now := Ticks(i, config), rung * Period(config);
    PeriodsAdd(i, config);
    Scaled(rung, i + 1, Period(config));
    forall k | 0 <= k < i ensures Period(config) <= ticks[k] <= now {
      Scaled(1, k + 1, Period(config));
      Scaled(k + 1, rung, Period(config));
    }
    forall k, j | 0 <= k < j < i ensures ticks[k] <= ticks[j] {
      Scaled(k + 1, j + 1, Period(config));
    }
    var cut := RecentIsTail(ticks, now, config.window);
  }

  lemma WedgedIsNext(h: Host, i: nat, rung: nat, known: nat, starts: nat, config: Config)
    requires Climbable(config) && Climbed(h, i, known, config) && i <= rung <= i + 1
    ensures NextSample(h.disk.value, WedgedInput(rung, starts, config), Period(config), "legacy", 1, config)
  {
    hide Latest, Armed, Ticks, LoopLog;
    var input := WedgedInput(rung, starts, config);
    PeriodsAdd(i, config);
    ConstantStepsEnd(input.sample.now, input.steps);
  }

  lemma NextIsPast(s: State, sample: Sample, at: int, config: Config)
    requires Latest(s) <= sample.now <= at && 0 <= at
    ensures Latest(Charge(Decide(Carry(s, sample, config), sample.now, [config.unit]), config.unit, at, config)) <= at
  {
    hide Latest, Recent;
    var c := Carry(s, sample, config);
    var next := Charge(Decide(c, sample.now, [config.unit]), config.unit, at, config);
    HighWaterMarks(sample, s);
    LatestCovers(s);
    LatestCovers(next);
    var x := Latest(next);
    InRecent(c.restarts, at, config.window, x);
    InRecent(s.restarts, sample.now, config.window, x);
    InRecent(s.dependencyRestarts, sample.now, config.window, x);
    InRecent(s.decisions, sample.now, config.window, x);
    if x != -1 && s.progressAt != Some(x) {
      assert x == at || x == sample.now || next.clockHighWater == Some(x) || Carries(s, x);
    }
  }

  // The decision of sample `i + 1`: restart the loop, or climb past it.
  lemma WedgedDecides(h: Host, i: nat, config: Config)
    requires Climbable(config) && Climbed(h, i, i, config) && i <= config.maxRestarts
    ensures
      var s := h.disk.value;
      var sample := WedgedSample(i + 1, i, config);
      var c := Carry(s, sample, config);
      && c.restarts == Ticks(i, config) && c.dependencyRestarts == []
      && Evaluate(sample, Some(s), config) == EvaluateStale(sample, c, config)
      && c.everSeen
  {
    hide Latest, Armed, Ticks, LoopLog, Carry, EvaluateStale, Evaluate, NextSample;
    var s := h.disk.value;
    var input := WedgedInput(i + 1, i, config);
    WedgedIsNext(h, i, i + 1, i, i, config);
    EvaluateArmed(s, input, Period(config), "legacy", 1, config);
    PeriodsAdd(i, config);
    TicksStay(i, i + 1, config);
    CarriesOver(s, input.sample, config);
    ArmedFields(s);
  }

  lemma ArmedFields(s: State)
    requires Armed(s, "legacy", 1)
    ensures s.heartbeats == Some(1) && s.pending == [] && s.everSeen && ValidState(s)
  {
  }

  lemma CarriesOver(s: State, sample: Sample, config: Config)
    ensures
      var c := Carry(s, sample, config);
      && c.restarts == Recent(s.restarts, sample.now, config.window)
      && (s.dependencyRestarts == [] ==> c.dependencyRestarts == [])
      && (s.everSeen ==> c.everSeen)
  {
    NothingRecent(sample.now, config.window);
  }

  lemma StaleRestarts(sample: Sample, c: State, config: Config)
    requires c.everSeen && |c.restarts| < config.maxRestarts
    ensures
      var d := EvaluateStale(sample, c, config);
      d.units == [config.unit] && d.state == Decide(c, sample.now, [config.unit])
  {
  }

  lemma StaleEscalates(sample: Sample, c: State, config: Config)
    requires c.everSeen && |c.restarts| >= config.maxRestarts >= 1
    requires config.dependencies != [] && c.dependencyRestarts == []
    ensures EvaluateStale(sample, c, config).units == config.dependencies + [config.unit]
  {
  }

  lemma ChargedTicks(c: State, i: nat, config: Config)
    requires Climbable(config) && i < config.maxRestarts && c.restarts == Ticks(i, config)
    ensures
      var now := (i + 1) * Period(config);
      Charge(Decide(c, now, [config.unit]), config.unit, now, config).restarts == Ticks(i + 1, config)
  {
    hide Recent;
    TicksStay(i, i + 1, config);
  }

  lemma ClimbedNext(h: Host, i: nat, config: Config)
    requires Climbable(config) && Climbed(h, i, i, config) && i < config.maxRestarts
    ensures Climbed(Cycle(h, WedgedInput(i + 1, i, config), config), i + 1, i, config)
  {
    hide Latest, Armed, Ticks, Carry, Cycle, Evaluate, EvaluateStale, Recent;
    var s := h.disk.value;
    var input := WedgedInput(i + 1, i, config);
    var now := input.sample.now;
    var c := Carry(s, input.sample, config);
    WedgedDecides(h, i, config);
    TicksLength(i, config);
    StaleRestarts(input.sample, c, config);
    ArmedFields(s);
    CleanCycle(h, input, config);
    PeriodsAdd(i, config);
    RestartArmed(Evaluate(input.sample, Some(s), config), s, input.sample, now, "legacy", 1, config);
    ChargedTicks(c, i, config);
    NextIsPast(s, input.sample, now, config);
    CarriedFields(s, input.sample, config);
    assert LoopLog(i + 1, config) == LoopLog(i, config) + [Attempt(config.unit, now, true, true)];
  }

  lemma TicksLength(i: nat, config: Config)
    ensures |Ticks(i, config)| == i
  {
  }

  lemma CarriedFields(s: State, sample: Sample, config: Config)
    ensures
      var c := Carry(s, sample, config);
      c.monotonicAt == Some(sample.monotonic) && c.unitStartedAt == sample.unitStartedAt
  {
  }

  /** The escalating cycle of the wedged run charges every configured unit at once. */
  lemma ClimbedEscalates(h: Host, config: Config)
    requires Climbable(config) && config.dependencies != []
    requires Climbed(h, config.maxRestarts, config.maxRestarts, config)
    ensures
      var m := config.maxRestarts;
      Cycle(h, WedgedInput(m + 1, m, config), config).log
        == LoopLog(m, config) + AttemptsAt(config.dependencies + [config.unit], (m + 1) * Period(config))
  {
    hide Latest, Armed, Ticks, Carry, Evaluate, EvaluateStale, Recent, Actuate, LoopLog, AttemptsAt;
    var s := h.disk.value;
    var m := config.maxRestarts;
    var input := WedgedInput(m + 1, m, config);
    WedgedDecides(h, m, config);
    TicksLength(m, config);
    StaleEscalates(input.sample, Carry(s, input.sample, config), config);
    ArmedFields(s);
    var d := Evaluate(input.sample, h.disk, config);
    ActuateAll(Say(Persist(h, d.state, Saved), d.lines), d.state, [], d.units, input.steps, input.sample.now, config);
  }

  // The next cycle sees the loop started anew, and waits for it afresh.
  lemma ReentryDecision(h: Host, i: nat, config: Config)
    requires Climbable(config) && Climbed(h, i + 1, i, config)
    ensures
      var s := h.disk.value;
      var sample := WedgedSample(i + 1, i + 1, config);
      var d := Evaluate(sample, Some(s), config);
      d.units == [] && d.state == Carry(s, sample, config).(progressAt := Some(sample.now), pending := [])
  {
    hide Latest, Armed, Ticks, LoopLog, Carry, Evaluate, NextSample, Decimal;
    var s := h.disk.value;
    var input := WedgedInput(i + 1, i + 1, config);
    WedgedIsNext(h, i + 1, i + 1, i, i + 1, config);
    EvaluateArmed(s, input, Period(config), "legacy", 1, config);
    DecimalDenotes(i);
    DecimalDenotes(i + 1);
    assert UnitReentered(s, input.sample);
  }

  lemma WaitIsPast(s: State, sample: Sample, config: Config)
    requires Latest(s) <= sample.now && 0 <= sample.now
    ensures Latest(Carry(s, sample, config).(progressAt := Some(sample.now), pending := [])) <= sample.now
  {
    hide Latest, Recent;
    var next := Carry(s, sample, config).(progressAt := Some(sample.now), pending := []);
    HighWaterMarks(sample, s);
    LatestCovers(s);
    LatestCovers(next);
    var x := Latest(next);
    InRecent(s.restarts, sample.now, config.window, x);
    InRecent(s.dependencyRestarts, sample.now, config.window, x);
    InRecent(s.decisions, sample.now, config.window, x);
    if x != -1 {
      assert x == sample.now || next.clockHighWater == Some(x) || Carries(s, x);
    }
  }

  lemma ClimbedReenters(h: Host, i: nat, config: Config)
    requires Climbable(config) && Climbed(h, i + 1, i, config) && i < config.maxRestarts
    ensures Climbed(Cycle(h, WedgedInput(i + 1, i + 1, config), config), i + 1, i + 1, config)
  {
    hide Latest, Ticks, Carry, Cycle, Evaluate, EvaluateStale, Recent, Decimal, LoopLog, Armed;
    var s := h.disk.value;
    var input := WedgedInput(i + 1, i + 1, config);
    var sample := input.sample;
    ReentryDecision(h, i, config);
    ArmedFields(s);
    CleanCycle(h, input, config);
    PeriodsAdd(i, config);
    TicksStay(i + 1, i + 1, config);
    CarryArmed(s, sample, "legacy", 1, config);
    StillArmed(Carry(s, sample, config), sample.now);
    CarriesOver(s, sample, config);
    CarriedFields(s, sample, config);
    WaitIsPast(s, sample, config);
  }

  lemma StillArmed(c: State, now: int)
    requires Armed(c, "legacy", 1) && c.lastObservedAt == Some(now) && now >= 0
    ensures Armed(c.(progressAt := Some(now), pending := []), "legacy", 1)
  {
  }

  lemma {:induction false} WedgedClimbs(i: nat, config: Config)
    requires Climbable(config) && i <= config.maxRestarts
    ensures Climbed(WedgedHost(2 * i + 1, config), i, i, config)
  {
    hide Climbed, Cycle, WedgedInput;
    if i == 0 {
      ClimbedFresh(config);
      assert WedgedHost(1, config) == Cycle(WedgedHost(0, config), WedgedAt(0, config), config);
    } else {
      WedgedClimbs(i - 1, config);
      ClimbedNext(WedgedHost(2 * i - 1, config), i - 1, config);
      assert WedgedAt(2 * i - 1, config) == WedgedInput(i, i - 1, config);
      ClimbedReenters(WedgedHost(2 * i, config), i - 1, config);
      assert WedgedAt(2 * i, config) == WedgedInput(i, i, config);
    }
  }

  // ------------------------------------------------------- overspending

  lemma {:induction false} LoopTimesSplit(a: seq<Attempt>, b: seq<Attempt>, unit: string)
    ensures LoopTimes(a + b, unit) == LoopTimes(a, unit) + LoopTimes(b, unit)
    ensures DependencyAttempts(a + b, unit) == DependencyAttempts(a, unit) + DependencyAttempts(b, unit)
    decreases |b|
  {
    if b == [] {
      assert a + b == a;
    } else {
      var front := b[..|b| - 1];
      assert (a + b)[..|a + b| - 1] == a + front;
      LoopTimesSplit(a, front, unit);
    }
  }

  lemma {:induction false} LoopLogTimes(n: nat, config: Config)
    ensures LoopTimes(LoopLog(n, config), config.unit) == Ticks(n, config)
  {
    if n > 0 {
      assert LoopLog(n, config)[..n - 1] == LoopLog(n - 1, config);
      LoopLogTimes(n - 1, config);
      assert Ticks(n, config) == Ticks(n - 1, config) + [n * Period(config)];
    }
  }

  lemma {:induction false} SameTime(units: seq<string>, at: int, unit: string)
    ensures
      var l := LoopTimes(AttemptsAt(units, at), unit);
      && (forall i :: 0 <= i < |l| ==> l[i] == at)
      && (unit in units ==> |l| >= 1)
  {
    if units != [] {
      var all, front, last := AttemptsAt(units, at), units[..|units| - 1], units[|units| - 1];
      assert all[..|units| - 1] == AttemptsAt(front, at) && all[|all| - 1] == Attempt(last, at, true, true);
      assert units == front + [last];
      SameTime(front, at, unit);
      assert LoopTimes(all, unit) == LoopTimes(AttemptsAt(front, at), unit) + if last == unit then [at] else [];
    }
  }

  lemma {:induction false} RepeatedDependency(units: seq<string>, at: int, unit: string, i: nat, j: nat)
    returns (p: nat, q: nat)
    requires i < j < |units| && units[i] == units[j] != unit
    ensures
      var d := DependencyAttempts(AttemptsAt(units, at), unit);
      p < q < |d| && d[p].unit == d[q].unit && d[p].at == d[q].at
  {
    var a := AttemptsAt(units[..i + 1], at);
    var b := AttemptsAt(units[i + 1..j + 1], at);
    var c := AttemptsAt(units[j + 1..], at);
    assert AttemptsAt(units, at) == a + b + c;
    LoopTimesSplit(a + b, c, unit);
    LoopTimesSplit(a, b, unit);
    p := |DependencyAttempts(a, unit)| - 1;
    q := p + |DependencyAttempts(b, unit)|;
    assert a[i] == Attempt(units[i], at, true, true) && b[j - i - 1] == Attempt(units[j], at, true, true);
  }

  /** With a name repeated, or the loop listed among its own dependencies, the wedged
      run spends more than the budget allows. */
  lemma RepeatedNameOverspends(config: Config)
    requires Climbable(config) && !Distinct(config.dependencies + [config.unit])
    ensures
      var n := 2 * config.maxRestarts + 2;
      !WithinBudget(WedgedTrace(n, config)[n].log, config)
  {
    hide Climbed, Cycle, WedgedInput, WithinBudget;
    var m := config.maxRestarts;
    var units := config.dependencies + [config.unit];
    var at := (m + 1) * Period(config);
    WedgedClimbs(m, config);
    ClimbedEscalates(WedgedHost(2 * m + 1, config), config);
    assert WedgedAt(2 * m + 1, config) == WedgedInput(m + 1, m, config);
    assert WedgedHost(2 * m + 2, config) == Cycle(WedgedHost(2 * m + 1, config), WedgedAt(2 * m + 1, config), config);
    Overspends(LoopLog(m, config) + AttemptsAt(units, at), config);
  }

  lemma Overspends(log: seq<Attempt>, config: Config)
    requires Climbable(config) && !Distinct(config.dependencies + [config.unit])
    requires log == LoopLog(config.maxRestarts, config)
                  + AttemptsAt(config.dependencies + [config.unit], (config.maxRestarts + 1) * Period(config))
    ensures !WithinBudget(log, config)
  {
    hide LoopTimes, DependencyAttempts, AttemptsAt, LoopLog, AtMostPerWindow, SpacedPerUnit;
    var m, unit := config.maxRestarts, config.unit;
    var units, at := config.dependencies + [unit], (m + 1) * Period(config);
    LoopTimesSplit(LoopLog(m, config), AttemptsAt(units, at), unit);
    if unit in config.dependencies {
      LoopOverspends(config);
    } else {
      var i, j :| 0 <= i < j < |units| && units[i] == units[j];
      assert units[i] in config.dependencies;
      var p, q := RepeatedDependency(units, at, unit, i, j);
      var before := DependencyAttempts(LoopLog(m, config), unit);
      var burst := DependencyAttempts(AttemptsAt(units, at), unit);
      NotSpaced(before, burst, p, q, config);
    }
  }

  lemma NotSpaced(before: seq<Attempt>, d: seq<Attempt>, p: nat, q: nat, config: Config)
    requires Climbable(config)
    requires p < q < |d| && d[p].unit == d[q].unit && d[p].at == d[q].at
    ensures !SpacedPerUnit(before + d, config.window)
  {
    var all := before + d;
    assert all[|before| + p] == d[p] && all[|before| + q] == d[q];
    PeriodsAdd(config.maxRestarts, config);
  }

  lemma LoopOverspends(config: Config)
    requires Climbable(config) && config.unit in config.dependencies
    ensures
      var m, unit := config.maxRestarts, config.unit;
      var burst := AttemptsAt(config.dependencies + [unit], (m + 1) * Period(config));
      !AtMostPerWindow(LoopTimes(LoopLog(m, config), unit) + LoopTimes(burst, unit), m + 1, config.window)
  {
    var m, deps, unit := config.maxRestarts, config.dependencies, config.unit;
    var at := (m + 1) * Period(config);
    LoopLogTimes(m, config);
    assert AttemptsAt(deps + [unit], at) == AttemptsAt(deps, at) + AttemptsAt([unit], at);
    LoopTimesSplit(AttemptsAt(deps, at), AttemptsAt([unit], at), unit);
    SameTime(deps, at, unit);
    SameTime([unit], at, unit);
    PeriodsAdd(m, config);
    TooMany(LoopTimes(AttemptsAt(deps, at), unit) + LoopTimes(AttemptsAt([unit], at), unit), at, config);
  }

  lemma TooMany(burst: seq<int>, at: int, config: Config)
    requires Climbable(config) && at == (config.maxRestarts + 1) * Period(config)
    requires |burst| >= 2 && forall i :: 0 <= i < |burst| ==> burst[i] == at
    ensures !AtMostPerWindow(Ticks(config.maxRestarts, config) + burst, config.maxRestarts + 1, config.window)
  {
    var m := config.maxRestarts;
    var l := Ticks(m, config) + burst;
    PeriodsAdd(m, config);
    assert l[0] == Period(config) && l[m + 1] == at;
  }

  lemma DistinctNames(config: Config)
    requires Distinct(config.dependencies + [config.unit])
    ensures Distinct(config.dependencies) && config.unit !in config.dependencies
  {
    var all := config.dependencies + [config.unit];
    forall i, j | 0 <= i < j < |config.dependencies| ensures config.dependencies[i] != config.dependencies[j] {
      assert all[i] != all[j];
    }
    forall i | 0 <= i < |config.dependencies| ensures config.dependencies[i] != config.unit {
      assert all[i] != all[|config.dependencies|];
    }
  }

  /** The budget holds of every run exactly when no name is repeated in the list of
      dependencies followed by the loop unit itself. */
  lemma BudgetHoldsExactlyWhenDistinct(config: Config)
    requires Climbable(config)
    ensures (forall trace: seq<Host>, inputs: seq<CycleInput> ::
               IsRun(trace, inputs, config) && ClockNeverGoesBack(inputs) ==> WithinBudget(trace[|inputs|].log, config))
        <==> Distinct(config.dependencies + [config.unit])
  {
    hide Cycle, WithinBudget, ClockNeverGoesBack;
    if Distinct(config.dependencies + [config.unit]) {
      DistinctNames(config);
      PeriodsAdd(config.maxRestarts, config);
      forall trace: seq<Host>, inputs: seq<CycleInput> | IsRun(trace, inputs, config) && ClockNeverGoesBack(inputs)
        ensures WithinBudget(trace[|inputs|].log, config)
      {
        RestartBudget(trace, inputs, config);
      }
    } else {
      var n := 2 * config.maxRestarts + 2;
      WedgedIsRun(n, config);
      WedgedClock(n, config);
      RepeatedNameOverspends(config);
      assert |WedgedInputs(n, config)| == n;
    }
  }
}
