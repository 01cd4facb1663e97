// The restart budget over every run: arbitrary samples, failed writes and kills
// at any point, under one configuration and a wall clock that never goes back.
module WatchdogBudget {
  import opened Common
  import opened Watchdog
  import opened WatchdogCycle

  // ------------------------------------------------------- wall-clock order

  function StepsEnd(t: int, steps: seq<UnitStep>): int
    decreases |steps|
  {
    if steps == [] then t else StepsEnd(steps[0].attemptAt, steps[1..])
  }

  predicate StepsOrdered(t: int, steps: seq<UnitStep>)
    decreases |steps|
  {
    steps == [] || (t <= steps[0].attemptAt && StepsOrdered(steps[0].attemptAt, steps[1..]))
  }

  // The last wall-clock reading of one cycle.
  function CycleEnd(input: CycleInput): int {
    StepsEnd(input.sample.now, input.steps)
  }

  /** No reading of the wall clock is before an earlier one. */
  predicate ClockNeverGoesBack(inputs: seq<CycleInput>) {
    && (forall i :: 0 <= i < |inputs| ==> StepsOrdered(inputs[i].sample.now, inputs[i].steps))
    && (forall i :: 0 < i < |inputs| ==> CycleEnd(inputs[i - 1]) <= inputs[i].sample.now)
  }

  // ------------------------------------------------------- attempts by kind

  function LoopTimes(log: seq<Attempt>, unit: string): seq<int> {
    if log == [] then []
    else
      var last := log[|log| - 1];
      LoopTimes(log[..|log| - 1], unit) + (if last.unit == unit then [last.at] else [])
  }

  function DependencyAttempts(log: seq<Attempt>, unit: string): seq<Attempt> {
    if log == [] then []
    else
      var last := log[|log| - 1];
      DependencyAttempts(log[..|log| - 1], unit) + (if last.unit == unit then [] else [last])
  }

  function Times(attempts: seq<Attempt>): seq<int> {
    seq(|attempts|, i requires 0 <= i < |attempts| => attempts[i].at)
  }

  // ------------------------------------------------------- what a run promises

  /** Any `window` seconds hold at most `most` of the times. */
  predicate AtMostPerWindow(times: seq<int>, most: int, window: int) {
    forall i, j :: 0 <= i < |times| && 0 <= j < |times| && i + most <= j ==> times[j] - times[i] >= window
  }

  /** Attempts of the same unit are at least `window` seconds apart. */
  predicate SpacedPerUnit(attempts: seq<Attempt>, window: int) {
    forall i, j :: 0 <= i < j < |attempts| && attempts[i].unit == attempts[j].unit
      ==> attempts[j].at - attempts[i].at >= window
  }

  // ------------------------------------------------------- facts about Recent

  lemma {:induction false} InsertIntoSorted(x: int, xs: seq<int>)
    requires forall y :: y in xs ==> x <= y
    ensures Insert(x, xs) == [x] + xs
  {
    if xs != [] {
      assert xs[0] in xs;
    }
  }

  lemma {:induction false} SortSorted(xs: seq<int>)
    requires Sorted(xs)
    ensures Sort(xs) == xs
  {
    if xs != [] {
      SortSorted(xs[1..]);
      InsertIntoSorted(xs[0], xs[1..]);
      assert [xs[0]] + xs[1..] == xs;
    }
  }

  /** On a sorted list of past times, Recent keeps exactly a tail: the times inside the window. */
  lemma {:induction false} RecentIsTail(xs: seq<int>, now: int, window: int) returns (k: nat)
    requires Sorted(xs)
    requires forall x :: x in xs ==> x <= now
    requires window > 0
    ensures k <= |xs| && Recent(xs, now, window) == xs[k..]
    ensures forall i :: 0 <= i < k ==> xs[i] <= now - window
    ensures forall i :: k <= i < |xs| ==> xs[i] > now - window
  {
    k := KeepRecentIsTail(xs, now, window);
    SortSorted(xs[k..]);
  }

  lemma {:induction false} KeepAll(xs: seq<int>, now: int, window: int)
    requires forall i :: 0 <= i < |xs| ==> now - xs[i] < window
    ensures KeepRecent(xs, now, window) == xs
  {
    if xs != [] {
      KeepAll(xs[1..], now, window);
      assert [xs[0]] + xs[1..] == xs;
    }
  }

  lemma {:induction false} KeepRecentIsTail(xs: seq<int>, now: int, window: int) returns (k: nat)
    requires Sorted(xs)
    requires forall x :: x in xs ==> x <= now
    requires window > 0
    ensures k <= |xs| && KeepRecent(xs, now, window) == xs[k..]
    ensures forall i :: 0 <= i < k ==> xs[i] <= now - window
    ensures forall i :: k <= i < |xs| ==> xs[i] > now - window
  {
    if xs == [] || now - xs[0] < window {
      KeepAll(xs, now, window);
      k := 0;
    } else {
      var rest := xs[1..];
      assert forall x :: x in rest ==> x in xs;
      var k' := KeepRecentIsTail(rest, now, window);
      k := k' + 1;
      assert forall i :: 0 <= i < |rest| ==> xs[i + 1] == rest[i];
      forall i | 0 <= i < |xs| ensures i < k ==> xs[i] <= now - window
                               ensures i >= k ==> xs[i] > now - window
      {
        if i > 0 { assert xs[i] == rest[i - 1]; }
      }
      assert rest[k'..] == xs[k..];
    }
  }

  // ------------------------------------------------------- the run invariant

  predicate Ordered(times: seq<int>, t: int) {
    Sorted(times) && (forall x :: x in times ==> x <= t)
  }

  /** `kept` is what remains of `times` after dropping only entries a whole window old. */
  predicate Tracks(kept: seq<int>, times: seq<int>, t: int, window: int) {
    && |kept| <= |times|
    && kept == times[|times| - |kept|..]
    && (forall i :: 0 <= i < |times| - |kept| ==> times[i] <= t - window)
  }

  // At most `n` of the times are later than `cutoff`.
  predicate AtMostAfter(times: seq<int>, n: int, cutoff: int) {
    |times| <= n || (n >= 0 && times[|times| - 1 - n] <= cutoff)
  }

  function LastOr(times: seq<int>, default: int): int {
    if times == [] then default else times[|times| - 1]
  }

  // The loop may sit one above its budget only while the dependency attempt
  // that authorised the extra one is the later event.
  predicate LoopWithin(l: seq<int>, d: seq<int>, t: int, config: Config) {
    AtMostAfter(l, config.maxRestarts, Max(t - config.window, LastOr(d, t - config.window)))
  }

  predicate PendingLoop(pending: seq<string>, l: seq<int>, t: int, config: Config) {
    pending == [config.unit] && AtMostAfter(l, config.maxRestarts - 1, t - config.window)
  }

  /** The last `j` attempts are of the first `j` names; all others are at `cutoff` or earlier. */
  predicate EndsWith(deps: seq<Attempt>, names: seq<string>, j: nat, cutoff: int) {
    && j <= |deps| && j <= |names|
    && (forall i :: 0 <= i < |deps| - j ==> deps[i].at <= cutoff)
    && (forall i :: |deps| - j <= i < |deps| ==> deps[i].unit == names[i + j - |deps|])
  }

  // A pending escalation: `j` dependencies are done, all in this decision.
  predicate PendingEscalation(pending: seq<string>, l: seq<int>, deps: seq<Attempt>, t: int, config: Config) {
    var j := |config.dependencies| + 1 - |pending|;
    && 0 <= j <= |config.dependencies| && config.dependencies != []
    && pending == (config.dependencies + [config.unit])[j..]
    && AtMostAfter(l, config.maxRestarts, t - config.window)
    && EndsWith(deps, config.dependencies, j, t - config.window)
    && (j > 0 ==> forall x :: x in l ==> x <= deps[|deps| - 1].at)
  }

  // Dependency attempts in the same decision are distinct units when the
  // configured names are; earlier decisions are a window older.
  predicate Fits(s: State, l: seq<int>, deps: seq<Attempt>, t: int, config: Config) {
    var d := Times(deps);
    && Ordered(l, t) && Ordered(d, t)
    && Tracks(s.restarts, l, t, config.window)
    && Tracks(s.dependencyRestarts, d, t, config.window)
    && AtMostPerWindow(l, config.maxRestarts + 1, config.window)
    && (Distinct(config.dependencies) ==> SpacedPerUnit(deps, config.window))
    && LoopWithin(l, d, t, config)
    && (s.pending == [] || PendingLoop(s.pending, l, t, config) || PendingEscalation(s.pending, l, deps, t, config))
  }

  predicate Budgeted(s: State, log: seq<Attempt>, t: int, config: Config) {
    Fits(s, LoopTimes(log, config.unit), DependencyAttempts(log, config.unit), t, config)
  }

  predicate Sane(config: Config) {
    && config.maxRestarts >= 1
    && config.window > 0
    && config.unit !in config.dependencies
  }

  predicate HostBudgeted(h: Host, t: int, config: Config) {
    if h.disk.None? then h.log == [] else Budgeted(h.disk.value, h.log, t, config)
  }

  // ------------------------------------------------------- time passes

  lemma LaterIsBudgeted(s: State, log: seq<Attempt>, t: int, t': int, config: Config)
    requires Budgeted(s, log, t, config) && t <= t'
    ensures Budgeted(s, log, t', config)
  {
    hide Times, LoopTimes, DependencyAttempts, AtMostPerWindow, SpacedPerUnit, Distinct, Sorted;
  }

  lemma TrackRecent(kept: seq<int>, times: seq<int>, t: int, now: int, window: int)
    requires Ordered(times, t) && Tracks(kept, times, t, window) && t <= now && window > 0
    ensures Tracks(Recent(kept, now, window), times, now, window)
    ensures forall x :: x in Recent(kept, now, window) ==> x > now - window
  {
    forall x | x in kept ensures x <= now { assert x in times; }
    var k := RecentIsTail(kept, now, window);
    var r := kept[k..];
    assert r == times[|times| - |r|..];
    forall i | 0 <= i < |times| - |r| ensures times[i] <= now - window {
      if i >= |times| - |kept| {
        assert times[i] == kept[i - (|times| - |kept|)];
      }
    }
  }

  // ------------------------------------------------------- the decision step

  /** What a decision may do to the carried record and which units it may name. */
  predicate KeepsBudgets(d: Decision, state: State, config: Config) {
    && d.state.restarts == state.restarts
    && d.state.dependencyRestarts == state.dependencyRestarts
    && (|| (d.units == [] && (d.state.pending == [] || d.state.pending == state.pending))
        || (d.units == d.state.pending == state.pending)
        || (d.units == d.state.pending == [config.unit] && |state.restarts| < Max(0, config.maxRestarts))
        || (d.units == d.state.pending == config.dependencies + [config.unit]
            && config.dependencies != [] && state.dependencyRestarts == []))
  }

  lemma ProgressKeepsBudgets(sample: Sample, base: State, state: State, config: Config)
    requires state.pending == base.pending
    ensures KeepsBudgets(EvaluateProgress(sample, base, state, config), state, config)
  {
  }

  // A decision that only reports: no unit, and budgets and pending as carried.
  predicate Quiet(d: Decision, state: State) {
    && d.units == []
    && d.state.restarts == state.restarts
    && d.state.dependencyRestarts == state.dependencyRestarts
    && d.state.pending == state.pending
  }

  lemma EvaluateIsQuietOrProgress(sample: Sample, previous: Option<State>, config: Config)
    ensures
      var base := Base(sample, previous);
      var state := Carry(base, sample, config);
      var d := Evaluate(sample, previous, config);
      Quiet(d, state) || d == EvaluateProgress(sample, base, state, config)
  {
    hide Carry, Base, EvaluateProgress, SupervisionSafe, ClockForwardJump, Latest;
  }

  lemma EvaluateKeepsBudgets(sample: Sample, previous: Option<State>, config: Config)
    ensures KeepsBudgets(Evaluate(sample, previous, config), Carry(Base(sample, previous), sample, config), config)
  {
    var base := Base(sample, previous);
    var state := Carry(base, sample, config);
    assert state.pending == base.pending;
    hide Carry, Base, Evaluate, EvaluateProgress;
    ProgressKeepsBudgets(sample, base, state, config);
    EvaluateIsQuietOrProgress(sample, previous, config);
  }

  lemma CountInWindow(kept: seq<int>, times: seq<int>, now: int, window: int, n: int)
    requires Tracks(kept, times, now, window) && |kept| <= n
    ensures AtMostAfter(times, n, now - window)
  {
  }

  function Read(disk: Option<State>): State {
    if disk.Some? then disk.value else EmptyState
  }

  lemma RebaseIsBudgeted(s: State, mode: string, log: seq<Attempt>, t: int, config: Config)
    requires Budgeted(s, log, t, config)
    ensures Budgeted(Rebase(s, mode), log, t, config)
  {
    hide Times, LoopTimes, DependencyAttempts, AtMostPerWindow, SpacedPerUnit, Distinct, Ordered, Tracks, LoopWithin;
  }

  lemma DecisionIsBudgeted(sample: Sample, disk: Option<State>, log: seq<Attempt>, t: int, config: Config)
    requires Sane(config) && Budgeted(Read(disk), log, t, config) && t <= sample.now
    ensures Budgeted(Evaluate(sample, disk, config).state, log, sample.now, config)
  {
    hide Budgeted, Evaluate, Carry, KeepsBudgets, Rebase;
    var now := sample.now;
    var base := Base(sample, disk);
    LaterIsBudgeted(Read(disk), log, t, now, config);
    RebaseIsBudgeted(Read(disk), sample.producerMode, log, now, config);
    CarryIsBudgeted(sample, base, log, now, config);
    EvaluateKeepsBudgets(sample, disk, config);
    DecidedIsBudgeted(Evaluate(sample, disk, config), Carry(base, sample, config), log, now, config);
  }

  lemma CarryIsBudgeted(sample: Sample, base: State, log: seq<Attempt>, t: int, config: Config)
    requires Sane(config) && Budgeted(base, log, t, config) && t <= sample.now
    ensures Budgeted(Carry(base, sample, config), log, sample.now, config)
  {
    var c := Carry(base, sample, config);
    assert c.pending == base.pending
        && c.restarts == Recent(base.restarts, sample.now, config.window)
        && c.dependencyRestarts == Recent(base.dependencyRestarts, sample.now, config.window);
    TrimmedIsBudgeted(base, c, log, t, sample.now, config);
  }

  lemma TrimmedIsBudgeted(s: State, c: State, log: seq<Attempt>, t: int, now: int, config: Config)
    requires Sane(config) && Budgeted(s, log, t, config) && t <= now
    requires c.pending == s.pending
    requires c.restarts == Recent(s.restarts, now, config.window)
    requires c.dependencyRestarts == Recent(s.dependencyRestarts, now, config.window)
    ensures Budgeted(c, log, now, config)
  {
    var deps := DependencyAttempts(log, config.unit);
    TrackRecent(s.restarts, LoopTimes(log, config.unit), t, now, config.window);
    TrackRecent(s.dependencyRestarts, Times(deps), t, now, config.window);
    LaterIsBudgeted(s, log, t, now, config);
  }

  lemma DecidedIsBudgeted(d: Decision, state: State, log: seq<Attempt>, now: int, config: Config)
    requires Sane(config) && Budgeted(state, log, now, config)
    requires KeepsBudgets(d, state, config)
    ensures Budgeted(d.state, log, now, config)
  {
    if d.state.pending == [] || d.state.pending == state.pending {
    } else if d.state.pending == [config.unit] && |state.restarts| < config.maxRestarts {
      CountInWindow(d.state.restarts, LoopTimes(log, config.unit), now, config.window, config.maxRestarts - 1);
    } else {
      EscalationIsBudgeted(d.state, log, now, config);
    }
  }

  lemma EscalationIsBudgeted(s: State, log: seq<Attempt>, now: int, config: Config)
    requires Sane(config)
    requires config.dependencies != [] && s.pending == config.dependencies + [config.unit]
    requires s.dependencyRestarts == []
    requires
      var deps := DependencyAttempts(log, config.unit);
      Tracks([], Times(deps), now, config.window)
      && LoopWithin(LoopTimes(log, config.unit), Times(deps), now, config)
    ensures PendingEscalation(s.pending, LoopTimes(log, config.unit), DependencyAttempts(log, config.unit), now, config)
  {
    var deps := DependencyAttempts(log, config.unit);
    forall i | 0 <= i < |deps| ensures deps[i].at <= now - config.window {
      assert Times(deps)[i] == deps[i].at;
    }
  }

  // ------------------------------------------------------- charging an attempt

  lemma TrackCharge(kept: seq<int>, times: seq<int>, t: int, at: int, window: int)
    requires Ordered(times, t) && Tracks(kept, times, t, window) && t <= at && window > 0
    ensures Ordered(times + [at], at)
    ensures Tracks(Recent(kept, at, window) + [at], times + [at], at, window)
  {
    TrackRecent(kept, times, t, at, window);
    forall i | 0 <= i < |times| ensures times[i] <= at { assert times[i] in times; }
  }

  lemma TrackLater(kept: seq<int>, times: seq<int>, t: int, at: int, window: int)
    requires Ordered(times, t) && Tracks(kept, times, t, window) && t <= at
    ensures Ordered(times, at) && Tracks(kept, times, at, window)
  {
  }

  lemma WindowCharge(times: seq<int>, at: int, n: nat, window: int)
    requires Ordered(times, at) && AtMostPerWindow(times, n + 1, window)
    requires AtMostAfter(times, n, at - window)
    ensures AtMostPerWindow(times + [at], n + 1, window)
  {
  }

  lemma LoopWithinCharge(pending: seq<string>, l: seq<int>, deps: seq<Attempt>, t: int, at: int, config: Config)
    requires Sane(config) && Ordered(l, t) && t <= at
    requires PendingLoop(pending, l, t, config)
          || (PendingEscalation(pending, l, deps, t, config) && |pending| == 1)
    ensures LoopWithin(l + [at], Times(deps), at, config)
  {
    if |l| >= config.maxRestarts {
      var i := |l| - config.maxRestarts;
      assert (l + [at])[i] == l[i] && l[i] in l;
      if !PendingLoop(pending, l, t, config) {
        assert |deps| > 0 && Times(deps)[|deps| - 1] == deps[|deps| - 1].at;
      }
    }
  }

  // Only the last entry of an escalation is the loop unit itself.
  lemma LoopIsLast(pending: seq<string>, l: seq<int>, deps: seq<Attempt>, t: int, config: Config)
    requires Sane(config) && PendingEscalation(pending, l, deps, t, config)
    requires pending != []
    ensures pending[0] == config.unit <==> |pending| == 1
  {
    var j := |config.dependencies| + 1 - |pending|;
    TailHead(config.dependencies, config.unit, j, pending);
    if j < |config.dependencies| {
      assert config.dependencies[j] in config.dependencies;
    }
  }

  lemma TailHead<T>(xs: seq<T>, last: T, j: nat, tail: seq<T>)
    requires j <= |xs| && tail == (xs + [last])[j..]
    ensures |tail| == |xs| + 1 - j && tail[0] == (if j < |xs| then xs[j] else last)
    ensures tail[1..] == (xs + [last])[j + 1..]
  {
  }

  lemma ChargeLoopFits(s: State, l: seq<int>, deps: seq<Attempt>, t: int, at: int, config: Config)
    requires Sane(config) && Fits(s, l, deps, t, config) && t <= at
    requires s.pending != [] && s.pending[0] == config.unit
    ensures Fits(Charge(s, config.unit, at, config), l + [at], deps, at, config)
    ensures s.pending[1..] == []
  {
    hide Recent, EndsWith, AtMostPerWindow, SpacedPerUnit, Distinct;
    if PendingEscalation(s.pending, l, deps, t, config) {
      LoopIsLast(s.pending, l, deps, t, config);
    }
    TrackCharge(s.restarts, l, t, at, config.window);
    LoopWithinCharge(s.pending, l, deps, t, at, config);
    assert AtMostAfter(l, config.maxRestarts, at - config.window);
    WindowCharge(l, at, config.maxRestarts, config.window);
  }

  lemma LoopWithinDependency(l: seq<int>, deps: seq<Attempt>, t: int, a: Attempt, config: Config)
    requires LoopWithin(l, Times(deps), t, config) && Ordered(Times(deps), t) && t <= a.at
    requires config.window > 0
    ensures LoopWithin(l, Times(deps + [a]), a.at, config)
    ensures Times(deps + [a]) == Times(deps) + [a.at]
  {
    assert Times(deps + [a]) == Times(deps) + [a.at];
    assert deps != [] ==> LastOr(Times(deps), t) in Times(deps);
  }

  // A dependency is only ever pending as part of an escalation.
  lemma OnlyEscalates(s: State, l: seq<int>, deps: seq<Attempt>, t: int, config: Config)
    requires Fits(s, l, deps, t, config) && s.pending != [] && s.pending[0] != config.unit
    ensures PendingEscalation(s.pending, l, deps, t, config)
  {
    hide EndsWith, AtMostAfter, LoopWithin, Times, AtMostPerWindow, SpacedPerUnit, Distinct, Tracks, Ordered;
  }

  lemma ChargeDependencyFits(s: State, l: seq<int>, deps: seq<Attempt>, t: int, a: Attempt, config: Config)
    requires Sane(config) && Fits(s, l, deps, t, config) && t <= a.at
    requires s.pending != [] && s.pending[0] == a.unit != config.unit
    ensures Fits(Charge(s, a.unit, a.at, config).(pending := s.pending[1..]), l, deps + [a], a.at, config)
  {
    hide Recent, EndsWith, AtMostAfter, LoopWithin, Times, AtMostPerWindow, SpacedPerUnit, Distinct, Tracks, Ordered,
      PendingEscalation, PendingLoop;
    OnlyEscalates(s, l, deps, t, config);
    TrackCharge(s.dependencyRestarts, Times(deps), t, a.at, config.window);
    TrackLater(s.restarts, l, t, a.at, config.window);
    LoopWithinDependency(l, deps, t, a, config);
    LoopIsLast(s.pending, l, deps, t, config);
    if Distinct(config.dependencies) {
      SpacingCharge(s.pending, l, deps, t, a, config);
    }
    PendingCharge(s.pending, l, deps, t, a, config);
  }

  lemma PendingCharge(pending: seq<string>, l: seq<int>, deps: seq<Attempt>, t: int, a: Attempt, config: Config)
    requires Sane(config) && PendingEscalation(pending, l, deps, t, config) && Ordered(l, t) && t <= a.at
    requires pending != [] && pending[0] == a.unit != config.unit
    ensures PendingEscalation(pending[1..], l, deps + [a], a.at, config)
  {
    hide EndsWith, AtMostPerWindow, SpacedPerUnit, Distinct;
    var j := |config.dependencies| + 1 - |pending|;
    LoopIsLast(pending, l, deps, t, config);
    TailHead(config.dependencies, config.unit, j, pending);
    EndsWithOneMore(deps, config.dependencies, j, t - config.window, a, a.at - config.window);
  }

  lemma EndsWithOneMore(deps: seq<Attempt>, names: seq<string>, j: nat, cutoff: int, a: Attempt, later: int)
    requires EndsWith(deps, names, j, cutoff) && j < |names| && a.unit == names[j] && cutoff <= later
    ensures EndsWith(deps + [a], names, j + 1, later)
  {
  }

  lemma ChargeIsBudgeted(s: State, log: seq<Attempt>, t: int, a: Attempt, config: Config)
    requires Sane(config) && Budgeted(s, log, t, config) && t <= a.at
    requires s.pending != [] && s.pending[0] == a.unit
    ensures Budgeted(Charge(s, a.unit, a.at, config).(pending := s.pending[1..]), log + [a], a.at, config)
  {
    var l := LoopTimes(log, config.unit);
    var deps := DependencyAttempts(log, config.unit);
    assert (log + [a])[..|log|] == log;
    if a.unit == config.unit {
      ChargeLoopFits(s, l, deps, t, a.at, config);
      assert LoopTimes(log + [a], config.unit) == l + [a.at];
      assert DependencyAttempts(log + [a], config.unit) == deps;
    } else {
      ChargeDependencyFits(s, l, deps, t, a, config);
      assert LoopTimes(log + [a], config.unit) == l;
      assert DependencyAttempts(log + [a], config.unit) == deps + [a];
    }
  }

  lemma SpacingCharge(pending: seq<string>, l: seq<int>, deps: seq<Attempt>, t: int, a: Attempt, config: Config)
    requires PendingEscalation(pending, l, deps, t, config) && t <= a.at
    requires |pending| > 1 && pending[0] == a.unit
    requires Distinct(config.dependencies) && SpacedPerUnit(deps, config.window)
    ensures SpacedPerUnit(deps + [a], config.window)
  {
    hide EndsWith, AtMostPerWindow, SpacedPerUnit, Distinct, AtMostAfter;
    var j := |config.dependencies| + 1 - |pending|;
    TailHead(config.dependencies, config.unit, j, pending);
    SpacedOneMore(deps, config.dependencies, j, t - config.window, a, config.window);
  }

  lemma SpacedOneMore(deps: seq<Attempt>, names: seq<string>, j: nat, cutoff: int, a: Attempt, window: int)
    requires EndsWith(deps, names, j, cutoff) && j < |names| && a.unit == names[j]
    requires Distinct(names) && cutoff + window <= a.at
    requires SpacedPerUnit(deps, window)
    ensures SpacedPerUnit(deps + [a], window)
  {
    forall i | |deps| - j <= i < |deps| ensures deps[i].unit != a.unit {
    }
  }

  // ------------------------------------------------------- whole runs

  lemma {:induction false} StepsEndLater(t: int, steps: seq<UnitStep>)
    requires StepsOrdered(t, steps)
    ensures t <= StepsEnd(t, steps)
    decreases |steps|
  {
    if steps != [] {
      StepsEndLater(steps[0].attemptAt, steps[1..]);
    }
  }

  lemma ChargedTurnIsBudgeted(s: State, units: seq<string>, a: Attempt, log: seq<Attempt>, t: int, config: Config)
    requires Sane(config) && t <= a.at && units != [] && a.unit == units[0]
    requires Budgeted(s.(pending := units), log, t, config)
    ensures
      var charged := Charge(s, a.unit, a.at, config);
      && Budgeted(charged, log + [a], a.at, config)
      && Budgeted(charged.(pending := units[1..]), log + [a], a.at, config)
  {
    var charged := Charge(s, a.unit, a.at, config);
    ChargeIsBudgeted(s.(pending := units), log, t, a, config);
    assert Charge(s.(pending := units), a.unit, a.at, config).(pending := units[1..])
        == charged.(pending := units[1..]);
    NothingPendingIsBudgeted(charged, units[1..], log + [a], a.at, config);
  }

  lemma TurnIsBudgeted(h: Host, s: State, units: seq<string>, step: UnitStep, t: int, config: Config)
    requires Sane(config) && h.disk.Some? && t <= step.attemptAt && units != []
    requires Budgeted(h.disk.value, h.log, t, config)
    requires Budgeted(s.(pending := units), h.log, t, config)
    ensures
      var turn := TakeTurn(h, s, units, step, config);
      && turn.host.disk.Some?
      && Budgeted(turn.host.disk.value, turn.host.log, step.attemptAt, config)
      && (turn.go ==> Budgeted(turn.state.(pending := units[1..]), turn.host.log, step.attemptAt, config))
  {
    var turn := TakeTurn(h, s, units, step, config);
    if step.budgetLeft && Lands(step.save) {
      var a := Attempt(units[0], step.attemptAt, step.save.Saved?, turn.go);
      ChargedTurnIsBudgeted(s, units, a, h.log, t, config);
      assert turn.host.disk.value == Charge(s, a.unit, a.at, config);
      assert turn.host.log == h.log + [a];
    } else {
      assert turn.host.log == h.log && !turn.go;
      assert turn.host.disk.value == h.disk.value || turn.host.disk.value == s.(pending := units);
      LaterIsBudgeted(turn.host.disk.value, h.log, t, step.attemptAt, config);
    }
  }

  lemma {:induction false} ActuateIsBudgeted(h: Host, s: State, outcome: seq<Signal>, units: seq<string>,
                                            steps: seq<UnitStep>, t: int, config: Config)
    requires Sane(config) && h.disk.Some? && StepsOrdered(t, steps)
    requires Budgeted(h.disk.value, h.log, t, config)
    requires Budgeted(s.(pending := units), h.log, t, config)
    ensures
      var after := Actuate(h, s, outcome, units, steps, config).host;
      after.disk.Some? && Budgeted(after.disk.value, after.log, StepsEnd(t, steps), config)
    decreases |units|
  {
    if units == [] || steps == [] {
      StepsEndLater(t, steps);
      LaterIsBudgeted(h.disk.value, h.log, t, StepsEnd(t, steps), config);
    } else {
      var turn := TakeTurn(h, s, units, steps[0], config);
      var at := steps[0].attemptAt;
      TurnIsBudgeted(h, s, units, steps[0], t, config);
      if turn.go {
        ActuateIsBudgeted(turn.host, turn.state, outcome + turn.lines, units[1..], steps[1..], at, config);
      } else {
        StepsEndLater(at, steps[1..]);
        LaterIsBudgeted(turn.host.disk.value, turn.host.log, at, StepsEnd(t, steps), config);
      }
    }
  }

  lemma NothingPendingIsBudgeted(s: State, units: seq<string>, log: seq<Attempt>, t: int, config: Config)
    requires Budgeted(s.(pending := units), log, t, config) && s.pending == []
    ensures Budgeted(s, log, t, config)
  {
  }

  lemma DecidedCycleIsBudgeted(h: Host, d: Decision, input: CycleInput, config: Config)
    requires Sane(config) && Budgeted(d.state, h.log, input.sample.now, config)
    requires d.units == [] || d.units == d.state.pending
    requires StepsOrdered(input.sample.now, input.steps)
    ensures
      var end := StepsEnd(input.sample.now, input.steps);
      var h1 := Say(Persist(h, d.state, Saved), d.lines);
      var after := Actuate(h1, d.state, [], d.units, input.steps, config).host;
      && Budgeted(d.state, h.log, end, config)
      && after.disk.Some? && Budgeted(after.disk.value, after.log, end, config)
  {
    var h1 := Say(Persist(h, d.state, Saved), d.lines);
    StepsEndLater(input.sample.now, input.steps);
    LaterIsBudgeted(d.state, h.log, input.sample.now, StepsEnd(input.sample.now, input.steps), config);
    if d.units != [] {
      assert d.state.(pending := d.units) == d.state;
      ActuateIsBudgeted(h1, d.state, [], d.units, input.steps, input.sample.now, config);
    }
  }

  lemma EvaluatedCycleIsBudgeted(h: Host, t: int, input: CycleInput, config: Config)
    requires Sane(config) && Budgeted(Read(h.disk), h.log, t, config)
    requires t <= input.sample.now && StepsOrdered(input.sample.now, input.steps)
    ensures
      var d := Evaluate(input.sample, h.disk, config);
      var end := StepsEnd(input.sample.now, input.steps);
      var h1 := Say(Persist(h, d.state, Saved), d.lines);
      var after := Actuate(h1, d.state, [], d.units, input.steps, config).host;
      && Budgeted(d.state, h.log, end, config)
      && after.disk.Some? && Budgeted(after.disk.value, after.log, end, config)
  {
    DecisionIsBudgeted(input.sample, h.disk, h.log, t, config);
    EvaluateKeepsBudgets(input.sample, h.disk, config);
    DecidedCycleIsBudgeted(h, Evaluate(input.sample, h.disk, config), input, config);
  }

  // A cycle that refuses its record, only rehearses, or cannot save changes nothing durable.
  predicate Idle(h: Host, input: CycleInput) {
    (h.disk.Some? && !ValidState(h.disk.value)) || input.dryRun || !Lands(input.decisionSave)
  }

  lemma CycleShape(h: Host, input: CycleInput, config: Config)
    ensures
      var after := Cycle(h, input, config);
      var d := Evaluate(input.sample, h.disk, config);
      var h1 := Say(Persist(h, d.state, Saved), d.lines);
      var acted := Actuate(h1, d.state, [], d.units, input.steps, config).host;
      if Idle(h, input) then after.disk == h.disk && after.log == h.log
      else if input.decisionSave.Saved? then after.disk == acted.disk && after.log == acted.log
      else after.disk == Some(d.state) && after.log == h.log
  {
    hide Evaluate, Actuate;
  }

  lemma CycleIsBudgeted(h: Host, t: int, input: CycleInput, config: Config)
    requires Sane(config) && HostBudgeted(h, t, config)
    requires t <= input.sample.now && StepsOrdered(input.sample.now, input.steps)
    ensures HostBudgeted(Cycle(h, input, config), StepsEnd(input.sample.now, input.steps), config)
  {
    CycleShape(h, input, config);
    NothingChargedIsBudgeted(t, config);
    if Idle(h, input) {
      StepsEndLater(input.sample.now, input.steps);
      LaterIsBudgeted(Read(h.disk), h.log, t, StepsEnd(input.sample.now, input.steps), config);
    } else {
      EvaluatedCycleIsBudgeted(h, t, input, config);
    }
  }

  lemma NothingChargedIsBudgeted(t: int, config: Config)
    requires Sane(config)
    ensures Budgeted(EmptyState, [], t, config)
  {
  }

  lemma FreshIsBudgeted(t: int, config: Config)
    ensures HostBudgeted(FreshHost, t, config)
  {
  }

  lemma {:induction false} RunIsBudgeted(trace: seq<Host>, inputs: seq<CycleInput>, n: nat, config: Config)
    requires Sane(config) && IsRun(trace, inputs, config) && ClockNeverGoesBack(inputs)
    requires n < |inputs|
    ensures HostBudgeted(trace[n + 1], CycleEnd(inputs[n]), config)
  {
    hide Cycle, HostBudgeted, StepsEnd, StepsOrdered, Sane;
    if n == 0 {
      FreshIsBudgeted(inputs[0].sample.now, config);
      CycleIsBudgeted(trace[0], inputs[0].sample.now, inputs[0], config);
    } else {
      RunIsBudgeted(trace, inputs, n - 1, config);
      assert CycleEnd(inputs[n - 1]) <= inputs[n].sample.now;
      CycleIsBudgeted(trace[n], CycleEnd(inputs[n - 1]), inputs[n], config);
    }
  }

  /** What the ladder promises of everything a run ever charged. */
  predicate WithinBudget(log: seq<Attempt>, config: Config) {
    && AtMostPerWindow(LoopTimes(log, config.unit), config.maxRestarts + 1, config.window)
    && SpacedPerUnit(DependencyAttempts(log, config.unit), config.window)
  }

  lemma BudgetedHostWithinBudget(h: Host, t: int, config: Config)
    requires HostBudgeted(h, t, config) && Distinct(config.dependencies)
    ensures WithinBudget(h.log, config)
  {
  }

  /** No run exceeds the budget: at most one loop attempt over the maximum in any
      window, and a whole window between two attempts of one dependency. */
  lemma RestartBudget(trace: seq<Host>, inputs: seq<CycleInput>, config: Config)
    requires Sane(config) && Distinct(config.dependencies)
    requires IsRun(trace, inputs, config) && ClockNeverGoesBack(inputs)
    ensures WithinBudget(trace[|inputs|].log, config)
  {
    hide Cycle, HostBudgeted, WithinBudget, ClockNeverGoesBack, Sane;
    if inputs == [] {
      FreshIsBudgeted(0, config);
      BudgetedHostWithinBudget(FreshHost, 0, config);
    } else {
      var n := |inputs| - 1;
      RunIsBudgeted(trace, inputs, n, config);
      BudgetedHostWithinBudget(trace[n + 1], CycleEnd(inputs[n]), config);
    }
  }
}
