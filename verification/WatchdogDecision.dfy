// What one decision of the watchdog says, saves and restarts, each output as an
// equivalence on the fields of the sample and of the record before it.
module WatchdogDecision {
  import opened Common
  import opened Watchdog
  import opened WatchdogClock

  // ------------------------------------------------------- what a cycle looks at

  /** Recovery is supervised: a known producer that is ready, a unit that is up or
      coming up, bounded loop code that commits atomically, and no conflict of
      thresholds. */
  predicate Supervised(sample: Sample, config: Config) {
    && (sample.producerMode == "legacy" || sample.producerMode == "paymentd" || sample.producerMode == "invalid")
    && sample.producerReady
    && (sample.unitState == "active" || sample.unitState == "activating" || sample.unitState == "reloading")
    && sample.loopBounds == Yes && sample.atomicCode == Yes
    && !config.ceilingConflict
  }

  /** No time in the record lies ahead of the wall clock. */
  ghost predicate NotBehind(s: State, now: int) {
    forall x :: Carries(s, x) ==> x <= now
  }

  /** Since the last observation the wall clock moved over an hour, and ten minutes
      more than the monotonic clock did. */
  predicate Jumped(s: State, sample: Sample) {
    && s.lastObservedAt.Some? && s.monotonicAt.Some?
    && sample.now - s.lastObservedAt.value > 3600
    && 0.0 <= sample.monotonic - s.monotonicAt.value
    && sample.monotonic - s.monotonicAt.value < (sample.now - s.lastObservedAt.value) as real - 600.0
  }

  /** The cycle may judge the heartbeat. */
  ghost predicate Trusted(s: State, sample: Sample, config: Config) {
    && config.usable && !sample.logError
    && NotBehind(s, sample.now) && !Jumped(s, sample)
    && Supervised(sample, config)
  }

  /** The unit was started anew since the record. */
  predicate StartedAnew(s: State, sample: Sample) {
    && s.unitStartedAt.Some? && s.unitStartedAt.value != ""
    && sample.unitStartedAt.Some? && sample.unitStartedAt.value != ""
    && s.unitStartedAt.value != sample.unitStartedAt.value
  }

  /** The record holds a baseline of the same producer. */
  predicate Baselined(s: State, sample: Sample) {
    s.producerMode == sample.producerMode && s.progressAt.Some?
  }

  /** The heartbeats the record has seen of this producer. */
  function SeenBefore(s: State, sample: Sample): int {
    if s.producerMode == sample.producerMode && s.heartbeats.Some? then s.heartbeats.value else 0
  }

  predicate Progressed(s: State, sample: Sample) {
    Baselined(s, sample) && s.heartbeats != Some(sample.heartbeats)
  }

  /** No heartbeat and no restart since the record. */
  predicate Stalled(s: State, sample: Sample) {
    Baselined(s, sample) && s.heartbeats == Some(sample.heartbeats) && !StartedAnew(s, sample)
  }

  predicate Overdue(s: State, sample: Sample, config: Config) {
    Stalled(s, sample) && s.pending == [] && sample.now - s.progressAt.value > config.staleSeconds
  }

  /** A loop that never printed a heartbeat is not restarted, except for a new producer. */
  predicate EverRan(s: State, sample: Sample) {
    s.everSeen || sample.heartbeats > 0 || sample.producerMode != "legacy"
  }

  predicate HasBudget(s: State, sample: Sample, config: Config) {
    |Recent(s.restarts, sample.now, config.window)| < config.maxRestarts
  }

  predicate MayEscalate(s: State, sample: Sample, config: Config) {
    config.dependencies != [] && Recent(s.dependencyRestarts, sample.now, config.window) == []
  }

  function Before(previous: Option<State>): State {
    if previous.Some? then previous.value else EmptyState
  }

  // ------------------------------------------------------- the guards of the code

  lemma RollbackMeans(s: State, mode: string, now: int)
    requires s == EmptyState || (ValidState(s) && Anchored(s))
    ensures ClockRollback(Rebase(s, mode), now) <==> !NotBehind(s, now)
  {
    hide Latest, StateTimes;
    var base := Rebase(s, mode);
    RebaseKeepsLatest(s, mode);
    LatestCovers(s);
    LatestCovers(base);
    NoTimes(base);
    TimesAreCarried(base);
    if !NotBehind(s, now) {
      var x :| Carries(s, x) && x > now;
      assert now < Latest(s);
    }
  }

  lemma TimesAreCarried(s: State)
    ensures StateTimes(s) != [] ==> Latest(s) >= 0
  {
    hide Latest, StateTimes;
    if StateTimes(s) != [] {
      var x := StateTimes(s)[0];
      assert x in StateTimes(s);
      InStateTimes(s, x);
      LatestCovers(s);
    }
  }

  lemma TrustedMeans(s: State, sample: Sample, config: Config)
    requires s == EmptyState || (ValidState(s) && Anchored(s))
    ensures var base := Rebase(s, sample.producerMode);
      Trusted(s, sample, config)
      <==> && config.usable && !sample.logError
           && !ClockRollback(base, sample.now) && !ClockForwardJump(base, sample.now, sample.monotonic)
           && SupervisionSafe(sample, config)
  {
    hide ClockRollback, NotBehind, ValidState, Anchored;
    RollbackMeans(s, sample.producerMode, sample.now);
  }

  // ------------------------------------------------------- the outputs

  // A cycle that may not judge the heartbeat leaves its clock alone, but starts one
  // that is missing and starts over after a jump.
  ghost function UntrustedProgress(s: State, sample: Sample, config: Config): Option<int> {
    var known := if s.producerMode == sample.producerMode then s.progressAt else None;
    if !config.usable || sample.logError then if known.None? || known == Some(0) then Some(sample.now) else known
    else if NotBehind(s, sample.now) && Jumped(s, sample) then Some(sample.now)
    else known
  }

  // The decision of a cycle that may not judge the heartbeat.
  lemma UntrustedIsImpaired(sample: Sample, previous: Option<State>, config: Config)
    requires var s := Before(previous); s == EmptyState || (ValidState(s) && Anchored(s))
    requires !Trusted(Before(previous), sample, config)
    ensures var d := Evaluate(sample, previous, config);
      var base := Base(sample, previous);
      && d.lines == [Impaired] && d.units == [] && d.state.pending == base.pending
      && d.state.decisions == Recent(base.decisions, sample.now, config.window)
      && d.state.progressAt == UntrustedProgress(Before(previous), sample, config)
      && d.state.producerMode == sample.producerMode && d.state.unitStartedAt == sample.unitStartedAt
  {
    hide Trusted, Latest, SupervisionSafe, ValidState, Anchored, Recent, MaxOf, ClockRollback;
    RollbackMeans(Before(previous), sample.producerMode, sample.now);
    TrustedMeans(Before(previous), sample, config);
  }

  lemma TrustedIsProgress(sample: Sample, previous: Option<State>, config: Config)
    requires var s := Before(previous); s == EmptyState || (ValidState(s) && Anchored(s))
    requires Trusted(Before(previous), sample, config)
    ensures var base := Base(sample, previous);
      Evaluate(sample, previous, config) == EvaluateProgress(sample, base, Carry(base, sample, config), config)
  {
    hide Trusted, Latest, ClockRollback, ClockForwardJump, SupervisionSafe, ValidState, Anchored, Carry,
         EvaluateProgress;
    TrustedMeans(Before(previous), sample, config);
  }

  // A new recovery is called for: of the loop while its budget lasts, else of the
  // dependencies and the loop.
  ghost predicate Due(s: State, sample: Sample, config: Config) {
    Trusted(s, sample, config) && Overdue(s, sample, config) && EverRan(s, sample)
  }

  ghost predicate RestartsLoop(s: State, sample: Sample, config: Config) {
    Due(s, sample, config) && HasBudget(s, sample, config)
  }

  ghost predicate Escalates(s: State, sample: Sample, config: Config) {
    Due(s, sample, config) && !HasBudget(s, sample, config) && MayEscalate(s, sample, config)
  }

  // A decision saved earlier is resumed.
  ghost predicate Resumes(s: State, sample: Sample, config: Config) {
    Trusted(s, sample, config) && Stalled(s, sample) && s.pending != []
  }

  // The loop moved, or was started anew: whatever was decided before is void.
  ghost predicate Moved(s: State, sample: Sample, config: Config) {
    Trusted(s, sample, config) && (StartedAnew(s, sample) || Progressed(s, sample))
  }

  // Which units are named.
  ghost predicate UnitsRight(d: Decision, s: State, sample: Sample, config: Config) {
    d.units == if Resumes(s, sample, config) then s.pending
               else if RestartsLoop(s, sample, config) then [config.unit]
               else if Escalates(s, sample, config) then config.dependencies + [config.unit]
               else []
  }

  // Which signals are given.
  ghost predicate SignalsRight(d: Decision, s: State, sample: Sample, config: Config) {
    var trusted := Trusted(s, sample, config);
    && (RestartAttempt in d.lines <==> RestartsLoop(s, sample, config) || Escalates(s, sample, config))
    && (GivingUp in d.lines <==>
          Due(s, sample, config) && !HasBudget(s, sample, config) && !MayEscalate(s, sample, config))
    && (CycleOk in d.lines <==>
          trusted && if StartedAnew(s, sample) then sample.heartbeats > SeenBefore(s, sample)
                     else !Stalled(s, sample) || (s.pending == [] && !Overdue(s, sample, config)))
    && (Impaired in d.lines <==>
          || !trusted || Resumes(s, sample, config)
          || (StartedAnew(s, sample) && sample.heartbeats <= SeenBefore(s, sample))
          || (Overdue(s, sample, config) && !EverRan(s, sample))
          || (Escalates(s, sample, config) && sample.hang.OtherHang?))
  }

  // What is saved as undone, as the clock of the heartbeat, and as decided.
  ghost predicate RecordRight(d: Decision, s: State, sample: Sample, config: Config) {
    var decided := RestartsLoop(s, sample, config) || Escalates(s, sample, config);
    && d.state.pending == (if decided then d.units
                           else if Moved(s, sample, config) || s.producerMode != sample.producerMode then []
                           else s.pending)
    && d.state.progressAt
       == (if !Trusted(s, sample, config) then UntrustedProgress(s, sample, config)
           else if decided || Moved(s, sample, config) || !Baselined(s, sample) then Some(sample.now)
           else s.progressAt)
    && (Trusted(s, sample, config) ==> d.state.heartbeats == Some(sample.heartbeats))
    && d.state.producerMode == sample.producerMode && d.state.unitStartedAt == sample.unitStartedAt
    && d.state.decisions == Recent(s.decisions, sample.now, config.window) + if decided then [sample.now] else []
  }

  lemma UntrustedIsRight(sample: Sample, previous: Option<State>, config: Config)
    requires var s := Before(previous); s == EmptyState || (ValidState(s) && Anchored(s))
    requires !Trusted(Before(previous), sample, config)
    ensures var d, s := Evaluate(sample, previous, config), Before(previous);
      UnitsRight(d, s, sample, config) && SignalsRight(d, s, sample, config) && RecordRight(d, s, sample, config)
  {
    hide Trusted, Evaluate, Recent, ValidState, Anchored;
    UntrustedIsImpaired(sample, previous, config);
  }

  lemma CarriedFields(s: State, sample: Sample, config: Config)
    ensures var c := Carry(s, sample, config);
      && c.heartbeats == Some(sample.heartbeats) && c.producerMode == sample.producerMode
      && c.progressAt == s.progressAt && c.pending == s.pending && c.unitStartedAt == sample.unitStartedAt
      && c.everSeen == (s.everSeen || sample.heartbeats > 0)
      && c.restarts == Recent(s.restarts, sample.now, config.window)
      && c.dependencyRestarts == Recent(s.dependencyRestarts, sample.now, config.window)
      && c.decisions == Recent(s.decisions, sample.now, config.window)
  {
  }

  // What the branches of the code ask, said of the record itself.
  lemma GuardsMean(s: State, sample: Sample)
    ensures var base := Rebase(s, sample.producerMode);
      && UnitReentered(base, sample) == StartedAnew(s, sample)
      && base.progressAt.Some? == Baselined(s, sample)
      && (if base.heartbeats.Some? then base.heartbeats.value else 0) == SeenBefore(s, sample)
      && (base.progressAt.Some? ==> base == s)
      && base.pending == (if s.producerMode == sample.producerMode then s.pending else [])
      && base.decisions == s.decisions
  {
  }

  lemma UnitsAreRight(s: State, sample: Sample, config: Config)
    requires Trusted(s, sample, config)
    ensures var base := Rebase(s, sample.producerMode);
      UnitsRight(EvaluateProgress(sample, base, Carry(base, sample, config), config), s, sample, config)
  {
    hide Trusted, Recent, Carry, UnitReentered, StartedAnew, Rebase;
    GuardsMean(s, sample);
    CarriedFields(Rebase(s, sample.producerMode), sample, config);
  }

  lemma SignalsAreRight(s: State, sample: Sample, config: Config)
    requires Trusted(s, sample, config)
    ensures var base := Rebase(s, sample.producerMode);
      SignalsRight(EvaluateProgress(sample, base, Carry(base, sample, config), config), s, sample, config)
  {
    hide Trusted, Recent, Carry, UnitReentered, StartedAnew, Rebase, Decide;
    GuardsMean(s, sample);
    CarriedFields(Rebase(s, sample.producerMode), sample, config);
  }

  lemma RecordIsRight(s: State, sample: Sample, config: Config)
    requires Trusted(s, sample, config)
    ensures var base := Rebase(s, sample.producerMode);
      RecordRight(EvaluateProgress(sample, base, Carry(base, sample, config), config), s, sample, config)
  {
    hide Trusted, Recent, Carry, UnitReentered, StartedAnew, Rebase;
    GuardsMean(s, sample);
    CarriedFields(Rebase(s, sample.producerMode), sample, config);
  }

  /** Every output of a decision, by the fields it rests on: the units it names, the
      signals it gives and the record it saves. */
  lemma DecisionMeans(sample: Sample, previous: Option<State>, config: Config)
    requires var s := Before(previous); s == EmptyState || (ValidState(s) && Anchored(s))
    ensures var d, s := Evaluate(sample, previous, config), Before(previous);
      UnitsRight(d, s, sample, config) && SignalsRight(d, s, sample, config) && RecordRight(d, s, sample, config)
  {
    hide Trusted, UnitsRight, SignalsRight, RecordRight, Evaluate, EvaluateProgress, Carry, ValidState, Anchored;
    var s := Before(previous);
    if Trusted(s, sample, config) {
      TrustedIsProgress(sample, previous, config);
      UnitsAreRight(s, sample, config);
      SignalsAreRight(s, sample, config);
      RecordIsRight(s, sample, config);
    } else {
      UntrustedIsRight(sample, previous, config);
    }
  }

  // ------------------------------------------------------- the rest of the record

  // The heartbeats a cycle that cannot read the log goes on from.
  function KeptHeartbeats(previous: Option<State>, sample: Sample): Option<int> {
    match previous
    case None => if sample.producerMode == "legacy" then Some(sample.heartbeats) else None
    case Some(s) => if s.producerMode == sample.producerMode then s.heartbeats else None
  }

  // The fields that no decision turns on.
  ghost predicate RestRight(d: Decision, previous: Option<State>, sample: Sample, config: Config) {
    var s, attentive := Before(previous), config.usable && !sample.logError;
    && d.state.heartbeats
       == (if config.usable && sample.logError then KeptHeartbeats(previous, sample) else Some(sample.heartbeats))
    && (d.state.everSeen <==> sample.heartbeats > 0 || (s.everSeen && s.producerMode == sample.producerMode))
    && (d.state.rollbackSeen <==> attentive && !NotBehind(s, sample.now))
    && (d.state.forwardJumpSeen <==> attentive && NotBehind(s, sample.now) && Jumped(s, sample))
    && d.state.restarts == Recent(s.restarts, sample.now, config.window)
    && d.state.dependencyRestarts == Recent(s.dependencyRestarts, sample.now, config.window)
    && d.state.monotonicAt == Some(sample.monotonic)
  }

  // What two records agree on when only clocks and decisions were touched between.
  predicate SameRest(a: State, b: State) {
    && a.heartbeats == b.heartbeats && a.everSeen == b.everSeen && a.monotonicAt == b.monotonicAt
    && a.restarts == b.restarts && a.dependencyRestarts == b.dependencyRestarts
  }

  // A decision touches only its clock, what is decided and what is pending.
  predicate OnlyDecides(a: State, b: State) {
    a == b.(progressAt := a.progressAt, decisions := a.decisions, pending := a.pending)
  }

  lemma StaleOnlyDecides(sample: Sample, state: State, config: Config)
    ensures OnlyDecides(EvaluateStale(sample, state, config).state, state)
  {
  }

  lemma ProgressOnlyDecides(sample: Sample, base: State, state: State, config: Config)
    ensures OnlyDecides(EvaluateProgress(sample, base, state, config).state, state)
  {
    hide UnitReentered, EvaluateStale;
    StaleOnlyDecides(sample, state, config);
  }

  lemma ProgressKeepsRest(sample: Sample, base: State, state: State, config: Config)
    ensures var after := EvaluateProgress(sample, base, state, config).state;
      && SameRest(after, state)
      && after.rollbackSeen == state.rollbackSeen && after.forwardJumpSeen == state.forwardJumpSeen
  {
    hide EvaluateProgress;
    ProgressOnlyDecides(sample, base, state, config);
  }

  lemma ClockKeepsRest(sample: Sample, base: State, state: State)
    ensures var after := EvaluateClock(sample, base, state).state;
      && SameRest(after, state)
      && (after.rollbackSeen <==> ClockRollback(base, sample.now) || state.rollbackSeen)
      && (after.forwardJumpSeen <==> !ClockRollback(base, sample.now) || state.forwardJumpSeen)
  {
    hide ClockRollback, Latest;
  }

  lemma CarriedRest(base: State, sample: Sample, config: Config)
    ensures var c := Carry(base, sample, config);
      && c.heartbeats == Some(sample.heartbeats) && c.monotonicAt == Some(sample.monotonic)
      && c.everSeen == (base.everSeen || sample.heartbeats > 0) && !c.rollbackSeen && !c.forwardJumpSeen
      && c.restarts == Recent(base.restarts, sample.now, config.window)
      && c.dependencyRestarts == Recent(base.dependencyRestarts, sample.now, config.window)
  {
  }

  // The record of each branch, beside the one that all of them start from.
  lemma BranchesKeepRest(sample: Sample, previous: Option<State>, config: Config)
    ensures var base := Base(sample, previous);
      var c, after := Carry(base, sample, config), Evaluate(sample, previous, config).state;
      var attentive, back := config.usable && !sample.logError, ClockRollback(base, sample.now);
      && SameRest(after.(heartbeats := c.heartbeats), c)
      && (after.rollbackSeen <==> attentive && back)
      && (after.forwardJumpSeen <==> attentive && !back && ClockForwardJump(base, sample.now, sample.monotonic))
      && after.heartbeats == if config.usable && sample.logError then
           (if previous.None? && sample.producerMode == "legacy" then Some(sample.heartbeats) else base.heartbeats)
         else c.heartbeats
  {
    hide Carry, EvaluateProgress, EvaluateClock, ClockRollback, ClockForwardJump, SupervisionSafe, Base, Latest;
    var base := Base(sample, previous);
    var c := Carry(base, sample, config);
    CarriedRest(base, sample, config);
    ProgressKeepsRest(sample, base, c, config);
    ClockKeepsRest(sample, base, c);
  }

  /** The rest of the saved record: a heartbeat count of another producer is dropped,
      one that cannot be read is kept, and the two clock flags say what held the cycle
      back. */
  lemma RecordKeeps(sample: Sample, previous: Option<State>, config: Config)
    requires var s := Before(previous); s == EmptyState || (ValidState(s) && Anchored(s))
    ensures RestRight(Evaluate(sample, previous, config), previous, sample, config)
  {
    hide ValidState, Anchored, Recent, Carry, Evaluate, ClockRollback, NotBehind;
    var base := Base(sample, previous);
    RollbackMeans(Before(previous), sample.producerMode, sample.now);
    BranchesKeepRest(sample, previous, config);
    CarriedRest(base, sample, config);
  }

  // ------------------------------------------------------- the record read back

  predicate Holds(s: State, x: int) {
    || s.heartbeats == Some(x) || s.progressAt == Some(x) || s.lastObservedAt == Some(x)
    || s.clockHighWater == Some(x) || x in s.restarts || x in s.dependencyRestarts || x in s.decisions
  }

  /** A record is refused exactly when it holds a negative number or an empty pending name. */
  lemma RefusedMeans(s: State)
    ensures !ValidState(s) <==>
      || "" in s.pending || (s.monotonicAt.Some? && s.monotonicAt.value < 0.0)
      || exists x :: x < 0 && Holds(s, x)
  {
    if x :| x < 0 && Holds(s, x) {
      assert !ValidState(s);
    }
    forall x | x in s.restarts || x in s.dependencyRestarts || x in s.decisions ensures Holds(s, x) {
    }
    assert s.heartbeats.Some? ==> Holds(s, s.heartbeats.value);
    assert s.progressAt.Some? ==> Holds(s, s.progressAt.value);
    assert s.lastObservedAt.Some? ==> Holds(s, s.lastObservedAt.value);
    assert s.clockHighWater.Some? ==> Holds(s, s.clockHighWater.value);
  }
}
