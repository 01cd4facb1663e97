// The decision half of the credit watchdog: the persisted record, one sample of
// the host, and the pure evaluator that turns both into the next record, the
// signals to print and the ordered list of units to restart.
module Watchdog {
  import opened Common

  const FORWARD_JUMP_SECONDS := 3600
  const FORWARD_JUMP_TOLERANCE := 600.0

  // `usable` is the absence of configuration errors; `ceilingConflict` says the
  // stale threshold is below the loop's own longest legitimate silence.
  datatype Config = Config(
    staleSeconds: int,
    maxRestarts: int,
    window: int,
    unit: string,
    dependencies: seq<string>,
    usable: bool,
    ceilingConflict: bool)

  // The least silence that is stale.
  function Period(config: Config): int {
    config.staleSeconds + 1
  }

  // A usable configuration whose window holds a whole climb.
  predicate Climbable(config: Config) {
    && config.usable && !config.ceilingConflict
    && config.maxRestarts >= 1 && config.staleSeconds >= 0
    && config.maxRestarts * Period(config) < config.window
  }

  datatype State = State(
    heartbeats: Option<int>,
    producerMode: string,
    progressAt: Option<int>,
    restarts: seq<int>,
    dependencyRestarts: seq<int>,
    decisions: seq<int>,
    pending: seq<string>,
    everSeen: bool,
    unitStartedAt: Option<string>,
    lastObservedAt: Option<int>,
    clockHighWater: Option<int>,
    monotonicAt: Option<real>,
    rollbackSeen: bool,
    forwardJumpSeen: bool)

  datatype Evidence = Yes | No | Unknown

  datatype Hang = NoHang | DatabaseHang | OtherHang

  datatype Sample = Sample(
    now: int,
    monotonic: real,
    heartbeats: int,
    logError: bool,
    atomicCode: Evidence,
    hang: Hang,
    unitState: string,
    unitStartedAt: Option<string>,
    loopBounds: Evidence,
    producerMode: string,
    producerReady: bool)

  datatype Signal = CycleOk | RestartAttempt | Restarted | GivingUp | Impaired

  datatype Decision = Decision(lines: seq<Signal>, state: State, units: seq<string>)

  // What a missing state file reads as.
  const EmptyState := State(
    None, "legacy", None, [], [], [], [], false, None, None, None, None, false, false)

  // ---------------------------------------------------------------- timestamps

  function Insert(x: int, xs: seq<int>): seq<int> {
    if xs == [] || x <= xs[0] then [x] + xs else [xs[0]] + Insert(x, xs[1..])
  }

  function Sort(xs: seq<int>): seq<int> {
    if xs == [] then [] else Insert(xs[0], Sort(xs[1..]))
  }

  function KeepRecent(xs: seq<int>, now: int, window: int): seq<int> {
    if xs == [] then []
    else if xs[0] > now || now - xs[0] < window then [xs[0]] + KeepRecent(xs[1..], now, window)
    else KeepRecent(xs[1..], now, window)
  }

  /** Restart timestamps still inside the window; future ones are kept as evidence of a rollback. */
  function Recent(xs: seq<int>, now: int, window: int): seq<int> {
    Sort(KeepRecent(xs, now, window))
  }

  function Stamp(at: Option<int>): seq<int> {
    if at.Some? && at.value >= 0 then [at.value] else []
  }

  function NonNegative(xs: seq<int>): seq<int> {
    if xs == [] then []
    else if xs[0] >= 0 then [xs[0]] + NonNegative(xs[1..])
    else NonNegative(xs[1..])
  }

  /** Every wall-clock timestamp a record carries. */
  function StateTimes(s: State): seq<int> {
    Stamp(s.progressAt) + Stamp(s.lastObservedAt) + Stamp(s.clockHighWater)
    + NonNegative(s.restarts) + NonNegative(s.dependencyRestarts) + NonNegative(s.decisions)
  }

  /** The latest timestamp a record carries, or -1 when it carries none. */
  function Latest(s: State): int {
    MaxOf(-1, StateTimes(s))
  }

  predicate ClockRollback(s: State, now: int) {
    StateTimes(s) != [] && now < Latest(s)
  }

  predicate ClockForwardJump(s: State, now: int, monotonic: real) {
    && s.lastObservedAt.Some?
    && s.monotonicAt.Some?
    && var wallDelta := now - s.lastObservedAt.value;
       var monotonicDelta := monotonic - s.monotonicAt.value;
       wallDelta > FORWARD_JUMP_SECONDS
       && 0.0 <= monotonicDelta < wallDelta as real - FORWARD_JUMP_TOLERANCE
  }

  // ----------------------------------------------------------------- validation

  predicate StampValid(at: Option<int>) {
    at.None? || at.value >= 0
  }

  predicate AllNonNegative(xs: seq<int>) {
    forall x :: x in xs ==> x >= 0
  }

  /** The shape check made on every record read back; a record that fails it is never acted on. */
  predicate ValidState(s: State) {
    && StampValid(s.heartbeats) && StampValid(s.progressAt)
    && StampValid(s.lastObservedAt) && StampValid(s.clockHighWater)
    && AllNonNegative(s.restarts) && AllNonNegative(s.dependencyRestarts) && AllNonNegative(s.decisions)
    && (forall u :: u in s.pending ==> u != "")
    && (s.monotonicAt.Some? ==> s.monotonicAt.value >= 0.0)
  }

  // ----------------------------------------------------------------- evaluation

  predicate SupervisionSafe(sample: Sample, config: Config) {
    && sample.producerMode in ["legacy", "paymentd", "invalid"]
    && sample.producerReady
    && sample.unitState in ["active", "activating", "reloading"]
    && sample.loopBounds.Yes?
    && sample.atomicCode.Yes?
    && !config.ceilingConflict
  }

  // A heartbeat count of one producer is not a baseline for another, so a change
  // of producer forgets progress but keeps every restart budget.
  function Rebase(s: State, mode: string): State {
    if s.producerMode == mode then s
    else s.(heartbeats := None, progressAt := None, everSeen := false, pending := [])
  }

  function Present(text: Option<string>): bool {
    text.Some? && text.value != ""
  }

  predicate UnitReentered(s: State, sample: Sample) {
    Present(sample.unitStartedAt) && Present(s.unitStartedAt) && sample.unitStartedAt != s.unitStartedAt
  }

  function OrNow(at: Option<int>, now: int): Option<int> {
    if at.None? || at.value == 0 then Some(now) else at
  }

  // The record every branch starts from.
  function Carry(base: State, sample: Sample, config: Config): State {
    var now := sample.now;
    var highWater := MaxOf(now, StateTimes(base));
    State(
      Some(sample.heartbeats),
      sample.producerMode,
      base.progressAt,
      Recent(base.restarts, now, config.window),
      Recent(base.dependencyRestarts, now, config.window),
      Recent(base.decisions, now, config.window),
      base.pending,
      base.everSeen || sample.heartbeats > 0,
      sample.unitStartedAt,
      Some(highWater),
      Some(highWater),
      Some(sample.monotonic),
      false,
      false)
  }

  // The record one cycle reasons from: nothing persisted reads as empty.
  function Base(sample: Sample, previous: Option<State>): State {
    Rebase(if previous.Some? then previous.value else EmptyState, sample.producerMode)
  }

  /** One decision from one sample and the record of the previous cycle. */
  function Evaluate(sample: Sample, previous: Option<State>, config: Config): Decision {
    var base := Base(sample, previous);
    var state := Carry(base, sample, config);
    if !config.usable then
      Decision([Impaired], state.(progressAt := OrNow(state.progressAt, sample.now)), [])
    else if sample.logError then
      var absent := previous.None? && EmptyState.producerMode == sample.producerMode;
      var kept := if absent then Some(sample.heartbeats) else base.heartbeats;
      Decision([Impaired], state.(heartbeats := kept, progressAt := OrNow(state.progressAt, sample.now)), [])
    else if ClockRollback(base, sample.now) || ClockForwardJump(base, sample.now, sample.monotonic) then
      EvaluateClock(sample, base, state)
    else if !SupervisionSafe(sample, config) then
      Decision([Impaired], state, [])
    else
      EvaluateProgress(sample, base, state, config)
  }

  // The wall clock is not where the record left it: hold still, or re-arm.
  function EvaluateClock(sample: Sample, base: State, state: State): Decision {
    if ClockRollback(base, sample.now) then
      var latest := Some(Latest(base));
      Decision([Impaired],
               state.(lastObservedAt := latest, clockHighWater := latest, rollbackSeen := true), [])
    else
      var now := Some(sample.now);
      Decision([Impaired],
               state.(progressAt := now, lastObservedAt := now, clockHighWater := now, forwardJumpSeen := true), [])
  }

  // Supervision is safe: look for progress, then resume, wait or climb the ladder.
  function EvaluateProgress(sample: Sample, base: State, state: State, config: Config): Decision {
    var armed := state.(progressAt := Some(sample.now));
    if UnitReentered(base, sample) then
      var seen := if base.heartbeats.Some? then base.heartbeats.value else 0;
      Decision([if sample.heartbeats <= seen then Impaired else CycleOk], armed.(pending := []), [])
    else if base.progressAt.None? then
      Decision([CycleOk], armed, [])
    else if base.heartbeats != Some(sample.heartbeats) then
      Decision([CycleOk], armed.(pending := []), [])
    else if base.pending != [] then
      Decision([Impaired], state, base.pending)
    else if sample.now - base.progressAt.value <= config.staleSeconds then
      Decision([CycleOk], state, [])
    else
      EvaluateStale(sample, state, config)
  }

  // The escalation ladder, once the heartbeat is known to be stale.
  function EvaluateStale(sample: Sample, state: State, config: Config): Decision {
    var now := sample.now;
    if !state.everSeen && sample.producerMode == "legacy" then
      Decision([Impaired], state, [])
    else if |state.restarts| >= Max(0, config.maxRestarts) then
      if config.dependencies != [] && state.dependencyRestarts == [] then
        var units := config.dependencies + [config.unit];
        Decision([RestartAttempt] + (if sample.hang.OtherHang? then [Impaired] else []),
                 Decide(state, now, units), units)
      else
        Decision([GivingUp], state, [])
    else
      Decision([RestartAttempt], Decide(state, now, [config.unit]), [config.unit])
  }

  function Decide(state: State, now: int, units: seq<string>): State {
    state.(progressAt := Some(now), decisions := state.decisions + [now], pending := units)
  }

  /** A loop is only ever restarted on the evidence of its own stale heartbeat: under a
      usable configuration, with the log readable and recovery safe, by the same
      producer, with no new heartbeat and no re-entry of the unit since the record. */
  lemma RestartsOnlyWedgedLoop(sample: Sample, previous: Option<State>, config: Config)
    requires Evaluate(sample, previous, config).units != []
    ensures config.usable && !config.ceilingConflict && !sample.logError
    ensures sample.atomicCode == Yes && sample.loopBounds == Yes && sample.producerReady
    ensures sample.unitState in ["active", "activating", "reloading"]
    ensures sample.producerMode in ["legacy", "paymentd", "invalid"]
    ensures previous.Some? && previous.value.producerMode == sample.producerMode
    ensures previous.value.heartbeats == Some(sample.heartbeats) && !UnitReentered(previous.value, sample)
    ensures || Evaluate(sample, previous, config).units == previous.value.pending
            || (previous.value.progressAt.Some?
                && sample.now - previous.value.progressAt.value > config.staleSeconds)
  {
    hide Carry, Latest, ClockForwardJump, EvaluateStale;
    var base := Base(sample, previous);
    assert base.heartbeats == Some(sample.heartbeats);
  }
}
