// Clock safety over every run, for an arbitrary wall clock: nothing the watchdog
// ever saved can be undone by a clock that goes back, jumps or stands still.
module WatchdogClock {
  import opened Common
  import opened Watchdog
  import opened WatchdogCycle

  // ------------------------------------------------------- membership facts

  lemma {:induction false} InNonNegative(xs: seq<int>, x: int)
    ensures x in NonNegative(xs) <==> x in xs && x >= 0
  {
    if xs != [] {
      InNonNegative(xs[1..], x);
      assert xs == [xs[0]] + xs[1..];
    }
  }

  lemma {:induction false} InInsert(y: int, xs: seq<int>, x: int)
    ensures x in Insert(y, xs) <==> x == y || x in xs
  {
    if xs != [] && y > xs[0] {
      InInsert(y, xs[1..], x);
      assert xs == [xs[0]] + xs[1..];
    }
  }

  lemma {:induction false} InSort(xs: seq<int>, x: int)
    ensures x in Sort(xs) <==> x in xs
  {
    if xs != [] {
      InSort(xs[1..], x);
      InInsert(xs[0], Sort(xs[1..]), x);
      assert xs == [xs[0]] + xs[1..];
    }
  }

  lemma {:induction false} InKeepRecent(xs: seq<int>, now: int, window: int, x: int)
    ensures x in KeepRecent(xs, now, window) <==> x in xs && (x > now || now - x < window)
  {
    if xs != [] {
      InKeepRecent(xs[1..], now, window, x);
      assert xs == [xs[0]] + xs[1..];
    }
  }

  /** Recent forgets an entry only when it is both past and at least a window old. */
  lemma InRecent(xs: seq<int>, now: int, window: int, x: int)
    ensures x in Recent(xs, now, window) <==> x in xs && (x > now || now - x < window)
  {
    InKeepRecent(xs, now, window, x);
    InSort(KeepRecent(xs, now, window), x);
  }

  /** The timestamps of a record, by field. */
  predicate Carries(s: State, x: int) {
    x >= 0 &&
    (|| s.progressAt == Some(x) || s.lastObservedAt == Some(x) || s.clockHighWater == Some(x)
     || x in s.restarts || x in s.dependencyRestarts || x in s.decisions)
  }

  lemma InStateTimes(s: State, x: int)
    ensures x in StateTimes(s) <==> Carries(s, x)
  {
    InNonNegative(s.restarts, x);
    InNonNegative(s.dependencyRestarts, x);
    InNonNegative(s.decisions, x);
  }

  lemma LatestCovers(s: State)
    ensures forall x :: Carries(s, x) ==> x <= Latest(s)
    ensures Latest(s) == -1 || Carries(s, Latest(s))
  {
    forall x | Carries(s, x) ensures x <= Latest(s) {
      InStateTimes(s, x);
    }
    InStateTimes(s, Latest(s));
  }

  // ------------------------------------------------------- one record to the next

  // Holds of every record the watchdog saves.
  predicate Anchored(s: State) {
    s.clockHighWater.Some? && (s.progressAt.Some? ==> s.progressAt.value <= s.clockHighWater.value)
  }

  /** `next` forgets no timestamp and moves no clock back. */
  predicate Advances(s: State, next: State) {
    && Latest(s) <= Latest(next)
    && (s.clockHighWater.Some? && next.clockHighWater.Some?
        ==> s.clockHighWater.value <= next.clockHighWater.value)
  }

  lemma RebaseKeepsLatest(s: State, mode: string)
    requires s == EmptyState || (ValidState(s) && Anchored(s))
    ensures Latest(Rebase(s, mode)) == Latest(s)
  {
    var r := Rebase(s, mode);
    LatestCovers(s);
    LatestCovers(r);
    assert forall x :: Carries(r, x) ==> Carries(s, x);
    if s != EmptyState {
      assert Carries(r, s.clockHighWater.value);
      assert Carries(s, Latest(s));
      assert Carries(r, Latest(s)) || Latest(s) <= s.clockHighWater.value;
    }
  }

  lemma HighWaterMarks(sample: Sample, base: State)
    ensures
      var top := MaxOf(sample.now, StateTimes(base));
      sample.now <= top && Latest(base) <= Max(-1, top) && (top == sample.now || top == Latest(base))
  {
    var top := MaxOf(sample.now, StateTimes(base));
    if Latest(base) != -1 { assert Latest(base) in StateTimes(base); }
    if top != sample.now { assert top in StateTimes(base); InStateTimes(base, top); LatestCovers(base); }
  }

  // What every branch does to the clock fields.
  predicate Clocked(d: Decision, now: int, base: State) {
    && d.state.clockHighWater.Some?
    && now <= d.state.clockHighWater.value
    && Latest(base) <= Max(-1, d.state.clockHighWater.value)
    && (d.state.progressAt == base.progressAt || d.state.progressAt == Some(now))
    && (d.units != [] && StateTimes(base) != [] ==> Latest(base) <= now)
  }

  lemma ProgressIsClocked(sample: Sample, base: State, state: State, config: Config)
    requires state.clockHighWater.Some? && state.progressAt == base.progressAt
    requires Max(sample.now, Latest(base)) <= Max(-1, state.clockHighWater.value)
    requires sample.now <= state.clockHighWater.value
    requires Latest(base) <= sample.now || StateTimes(base) == []
    ensures Clocked(EvaluateProgress(sample, base, state, config), sample.now, base)
  {
    hide Latest, StateTimes, Present;
  }

  lemma HoldIsClocked(sample: Sample, base: State, state: State)
    requires state.clockHighWater.Some? && state.progressAt == base.progressAt
    requires ClockRollback(base, sample.now) || ClockForwardJump(base, sample.now, sample.monotonic)
    ensures Clocked(EvaluateClock(sample, base, state), sample.now, base)
  {
  }

  lemma CarryMarks(sample: Sample, base: State, config: Config)
    ensures
      var state := Carry(base, sample, config);
      && state.clockHighWater.Some? && state.progressAt == base.progressAt
      && Max(sample.now, Latest(base)) <= Max(-1, state.clockHighWater.value)
      && sample.now <= state.clockHighWater.value
      && (!ClockRollback(base, sample.now) ==> Latest(base) <= sample.now || StateTimes(base) == [])
  {
    hide StateTimes, Recent;
    HighWaterMarks(sample, base);
  }

  lemma EvaluateIsClocked(sample: Sample, previous: Option<State>, config: Config)
    ensures Clocked(Evaluate(sample, previous, config), sample.now, Base(sample, previous))
  {
    hide Base, Carry, Latest, StateTimes, EvaluateProgress, EvaluateClock, ClockRollback, ClockForwardJump,
         SupervisionSafe;
    var base := Base(sample, previous);
    var state := Carry(base, sample, config);
    CarryMarks(sample, base, config);
    if ClockRollback(base, sample.now) || ClockForwardJump(base, sample.now, sample.monotonic) {
      HoldIsClocked(sample, base, state);
    } else {
      ProgressIsClocked(sample, base, state, config);
    }
  }

  predicate Readable(disk: Option<State>) {
    disk.Some? ==> ValidState(disk.value) && Anchored(disk.value)
  }

  lemma NoTimes(s: State)
    ensures StateTimes(s) == [] ==> Latest(s) == -1
  {
  }

  lemma ClockedAdvances(d: Decision, s: State, base: State, now: int)
    requires Clocked(d, now, base) && Latest(base) == Latest(s)
    requires base.progressAt == s.progressAt || base.progressAt.None?
    requires s == EmptyState || (ValidState(s) && Anchored(s))
    ensures Anchored(d.state) && Advances(s, d.state)
    ensures d.units != [] ==> Latest(s) <= Max(-1, now)
  {
    hide Latest, StateTimes;
    NoTimes(base);
    LatestCovers(s);
    LatestCovers(d.state);
    assert d.state.clockHighWater.value >= 0 ==> Carries(d.state, d.state.clockHighWater.value);
    assert s.clockHighWater.Some? ==> Carries(s, s.clockHighWater.value);
  }

  lemma EvaluateAdvances(sample: Sample, disk: Option<State>, config: Config)
    requires Readable(disk)
    ensures
      var d := Evaluate(sample, disk, config);
      var s := if disk.Some? then disk.value else EmptyState;
      && Anchored(d.state) && Advances(s, d.state)
      && (d.units != [] ==> Latest(s) <= Max(-1, sample.now))
  {
    hide Evaluate, Clocked, Latest, Anchored, Advances, ValidState;
    var s := if disk.Some? then disk.value else EmptyState;
    EvaluateIsClocked(sample, disk, config);
    RebaseKeepsLatest(s, sample.producerMode);
    ClockedAdvances(Evaluate(sample, disk, config), s, Base(sample, disk), sample.now);
  }

  lemma ChargeAdvances(s: State, unit: string, at: int, config: Config)
    requires Anchored(s) && config.window > 0
    ensures Anchored(Charge(s, unit, at, config)) && Advances(s, Charge(s, unit, at, config))
  {
    var c := Charge(s, unit, at, config);
    LatestCovers(s);
    LatestCovers(c);
    var x := Latest(s);
    if x != -1 {
      InRecent(s.restarts, at, config.window, x);
      InRecent(s.dependencyRestarts, at, config.window, x);
      assert Carries(c, x) || (at >= x && Carries(c, at));
    }
  }

  // ------------------------------------------------------- everything ever saved

  /** The saved records form a chain along which no clock ever goes back. */
  predicate Chained(writes: seq<State>) {
    && (forall i :: 0 <= i < |writes| ==> Anchored(writes[i]))
    && (forall i, j :: 0 <= i < j < |writes| ==> Advances(writes[i], writes[j]))
  }

  predicate ClockKept(h: Host) {
    && Chained(h.writes)
    && (if h.writes == [] then h.disk.None? else h.disk == Some(h.writes[|h.writes| - 1]))
  }

  lemma ChainGrows(h: Host, s: State, save: Save)
    requires ClockKept(h) && Anchored(s)
    requires h.disk.Some? ==> Advances(h.disk.value, s)
    ensures ClockKept(Persist(h, s, save))
  {
    hide Latest;
    var n := |h.writes|;
    forall i | 0 <= i < n ensures Advances(h.writes[i], s) {
      assert i < n - 1 ==> Advances(h.writes[i], h.writes[n - 1]);
      assert Anchored(h.writes[i]);
    }
  }

  lemma SameTimes(s: State, kept: State)
    requires kept == s.(pending := kept.pending)
    ensures Latest(kept) == Latest(s)
  {
  }

  lemma TurnKeepsClock(h: Host, s: State, units: seq<string>, step: UnitStep, config: Config)
    requires config.window > 0 && units != []
    requires ClockKept(h) && h.disk.Some? && Anchored(s) && Advances(h.disk.value, s)
    ensures
      var turn := TakeTurn(h, s, units, step, config);
      && ClockKept(turn.host) && turn.host.disk.Some?
      && Anchored(turn.state) && (turn.go ==> turn.host.disk == Some(turn.state))
  {
    hide Latest;
    var charged := Charge(s, units[0], step.attemptAt, config);
    var kept := s.(pending := units);
    ChargeAdvances(s, units[0], step.attemptAt, config);
    assert Latest(kept) == Latest(s) by { SameTimes(s, kept); }
    var next := if step.budgetLeft then charged else kept;
    assert Anchored(h.disk.value);
    ChainGrows(h, next, step.save);
  }

  lemma {:induction false} ActuateKeepsClock(h: Host, s: State, outcome: seq<Signal>, units: seq<string>,
                                            steps: seq<UnitStep>, config: Config)
    requires config.window > 0
    requires ClockKept(h) && h.disk.Some? && Anchored(s) && Advances(h.disk.value, s)
    ensures ClockKept(Actuate(h, s, outcome, units, steps, config).host)
    decreases |units|
  {
    hide Latest;
    if units != [] && steps != [] {
      var turn := TakeTurn(h, s, units, steps[0], config);
      TurnKeepsClock(h, s, units, steps[0], config);
      if turn.go {
        ActuateKeepsClock(turn.host, turn.state, outcome + turn.lines, units[1..], steps[1..], config);
      }
    }
  }

  lemma CycleKeepsClock(h: Host, input: CycleInput, config: Config)
    requires config.window > 0 && ClockKept(h)
    ensures ClockKept(Cycle(h, input, config))
  {
    hide Latest, Evaluate, Actuate;
    if h.disk.None? || ValidState(h.disk.value) {
      var d := Evaluate(input.sample, h.disk, config);
      assert Readable(h.disk);
      EvaluateAdvances(input.sample, h.disk, config);
      ChainGrows(h, d.state, input.decisionSave);
      var h1 := Persist(h, d.state, input.decisionSave);
      if input.decisionSave.Saved? {
        ActuateKeepsClock(Say(h1, d.lines), d.state, [], d.units, input.steps, config);
      }
    }
  }

  lemma {:induction false} RunKeepsClock(trace: seq<Host>, inputs: seq<CycleInput>, n: nat, config: Config)
    requires config.window > 0 && IsRun(trace, inputs, config) && n <= |inputs|
    ensures ClockKept(trace[n])
  {
    hide Latest, Cycle, Advances, Anchored;
    if n > 0 {
      RunKeepsClock(trace, inputs, n - 1, config);
      CycleKeepsClock(trace[n - 1], inputs[n - 1], config);
    }
  }

  // ------------------------------------------------------- main results

  /** `clock_high_water` never decreases from one saved record to a later one. */
  lemma HighWaterNeverFalls(trace: seq<Host>, inputs: seq<CycleInput>, i: nat, j: nat, config: Config)
    requires config.window > 0 && IsRun(trace, inputs, config)
    requires i <= j < |trace[|inputs|].writes|
    ensures
      var writes := trace[|inputs|].writes;
      && writes[i].clockHighWater.Some? && writes[j].clockHighWater.Some?
      && writes[i].clockHighWater.value <= writes[j].clockHighWater.value
  {
    hide Latest, Cycle;
    RunKeepsClock(trace, inputs, |inputs|, config);
    var writes := trace[|inputs|].writes;
    assert Anchored(writes[i]) && Anchored(writes[j]);
    assert i < j ==> Advances(writes[i], writes[j]);
  }

  lemma KeptClockCovers(h: Host, w: nat, x: int)
    requires ClockKept(h) && w < |h.writes| && Carries(h.writes[w], x)
    ensures h.disk.Some? && Anchored(h.disk.value) && 0 <= x <= Latest(h.disk.value)
  {
    hide Latest;
    LatestCovers(h.writes[w]);
    var last := |h.writes| - 1;
    assert w < last ==> Advances(h.writes[w], h.writes[last]);
    assert Anchored(h.writes[last]);
  }

  /** Whether cycle `n` of a run decides or resumes a restart. */
  predicate Restarts(trace: seq<Host>, inputs: seq<CycleInput>, n: nat, config: Config)
    requires n < |trace| && n < |inputs|
  {
    && (trace[n].disk.Some? ==> ValidState(trace[n].disk.value))
    && Evaluate(inputs[n].sample, trace[n].disk, config).units != []
  }

  /** A cycle that decides or resumes a restart has a sample no earlier than any
      timestamp the run ever saved, whatever the wall clock did in between. */
  lemma NoRestartBeforeSavedTime(trace: seq<Host>, inputs: seq<CycleInput>, n: nat, w: nat, x: int, config: Config)
    requires config.window > 0 && IsRun(trace, inputs, config) && n < |inputs|
    requires Restarts(trace, inputs, n, config)
    requires w < |trace[n].writes| && Carries(trace[n].writes[w], x)
    ensures x <= inputs[n].sample.now
  {
    hide Latest, Cycle, Evaluate;
    RunKeepsClock(trace, inputs, n, config);
    KeptClockCovers(trace[n], w, x);
    EvaluateAdvances(inputs[n].sample, trace[n].disk, config);
  }
}
