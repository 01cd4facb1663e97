// Time spent restarting: a saved record, a look at the producer and two bounded
// calls per unit, all of them under one shared monotonic deadline.
module WatchdogDeadline {
  import opened Common
  import opened WatchdogConfig

  // How long a unit's record write and producer probe take, whether the producer
  // allows the restart, how long each call would take if nothing stopped it, and how
  // it would answer.
  datatype Calls = Calls(write: real, look: real, allowed: bool, restart: real, restartOk: bool, probe: real,
                         probeActive: bool)

  datatype Outcome = Outcome(clock: real, confirmed: bool)

  datatype Sweep = Sweep(clock: real, confirmed: nat)

  function MinReal(a: real, b: real): real {
    if a <= b then a else b
  }

  function Remaining(clock: real, timeout: real, deadline: real): real {
    MinReal(timeout, deadline - clock)
  }

  /** `restart_unit`: `try-restart` and its postcondition probe, each cut off at the
      time it is given, the first at what was left before the producer was probed. */
  function RestartUnit(clock: real, timeout: real, deadline: real, calls: Calls): Outcome {
    var first := Remaining(clock, timeout, deadline);
    var looked := clock + calls.look;
    if first <= 0.0 then Outcome(clock, false)
    else if !calls.allowed then Outcome(looked, false)
    else if calls.restart > first then Outcome(looked + first, false)
    else
      var returned := looked + calls.restart;
      var second := Remaining(returned, timeout, deadline);
      if !calls.restartOk || second <= 0.0 then Outcome(returned, false)
      else if calls.probe > second then Outcome(returned + second, false)
      else Outcome(returned + calls.probe, calls.probeActive)
  }

  /** The sequential loop over the units of one decision. */
  function RestartUnits(clock: real, timeout: real, deadline: real, units: seq<Calls>, done: nat): Sweep
    decreases |units|
  {
    if units == [] || deadline - clock <= 0.0 then Sweep(clock, done)
    else
      var r := RestartUnit(clock + units[0].write, timeout, deadline, units[0]);
      if r.confirmed then RestartUnits(r.clock, timeout, deadline, units[1..], done + 1)
      else Sweep(r.clock, done)
  }

  /** The same loop, advancing the one clock every unit shares. */
  class Actuator {
    var clock: real

    constructor (now: real)
      ensures clock == now
    {
      clock := now;
    }

    method Restart(timeout: real, deadline: real, calls: Calls) returns (confirmed: bool)
      modifies this
      ensures Outcome(clock, confirmed) == RestartUnit(old(clock), timeout, deadline, calls)
    {
      var first := Remaining(clock, timeout, deadline);
      if first <= 0.0 {
        return false;
      }
      clock := clock + calls.look;
      if !calls.allowed {
        return false;
      }
      if calls.restart > first {
        clock := clock + first;
        return false;
      }
      clock := clock + calls.restart;
      var second := Remaining(clock, timeout, deadline);
      if !calls.restartOk || second <= 0.0 {
        return false;
      }
      clock := clock + MinReal(calls.probe, second);
      return calls.probe <= second && calls.probeActive;
    }

    method RestartAll(timeout: real, deadline: real, units: seq<Calls>) returns (done: nat)
      modifies this
      ensures Sweep(clock, done) == RestartUnits(old(clock), timeout, deadline, units, 0)
    {
      done := 0;
      while done < |units|
        invariant done <= |units|
        invariant RestartUnits(clock, timeout, deadline, units[done..], done)
               == RestartUnits(old(clock), timeout, deadline, units, 0)
      {
        if deadline - clock <= 0.0 {
          return;
        }
        clock := clock + units[done].write;
        var confirmed := Restart(timeout, deadline, units[done]);
        if !confirmed {
          return;
        }
        assert units[done..][1..] == units[done + 1..];
        done := done + 1;
      }
    }
  }

  /** A unit is confirmed exactly when time was left before the first call and before
      the second, the producer allowed it, and both calls answered well within the
      timeout and the deadline, the first as it stood before the producer was probed. */
  lemma ConfirmedMeans(clock: real, timeout: real, deadline: real, calls: Calls)
    ensures
      var r := RestartUnit(clock, timeout, deadline, calls);
      var returned := clock + calls.look + calls.restart;
      && (r.confirmed <==>
            && timeout > 0.0 && clock < deadline && returned < deadline
            && calls.allowed && calls.restartOk && calls.probeActive
            && calls.restart <= timeout && clock + calls.restart <= deadline
            && calls.probe <= timeout && returned + calls.probe <= deadline)
      && (r.confirmed ==> r.clock == returned + calls.probe)
  {
  }

  // Times are not negative, and neither the write nor the producer probe takes
  // longer than `lead`.
  predicate Plausible(calls: Calls, lead: real) {
    0.0 <= calls.write <= lead && 0.0 <= calls.look <= lead && calls.restart >= 0.0 && calls.probe >= 0.0
  }

  /** However long the calls would take, restarting is over by the shared deadline,
      or one write or probe after it, unless it had passed before the first unit. */
  lemma {:induction false} RestartsEndByDeadline(clock: real, timeout: real, deadline: real, units: seq<Calls>,
                                                 done: nat, lead: real)
    requires forall i :: 0 <= i < |units| ==> Plausible(units[i], lead)
    requires lead >= 0.0
    ensures clock <= RestartUnits(clock, timeout, deadline, units, done).clock
    ensures clock <= deadline ==> RestartUnits(clock, timeout, deadline, units, done).clock <= deadline + lead
    ensures clock >= deadline ==> RestartUnits(clock, timeout, deadline, units, done) == Sweep(clock, done)
    decreases |units|
  {
    if units != [] && deadline - clock > 0.0 {
      var written := clock + units[0].write;
      var r := RestartUnit(written, timeout, deadline, units[0]);
      assert Plausible(units[0], lead);
      UnitEnds(written, timeout, deadline, units[0], lead);
      if r.confirmed {
        RestartsEndByDeadline(r.clock, timeout, deadline, units[1..], done + 1, lead);
      }
    }
  }

  lemma UnitEnds(clock: real, timeout: real, deadline: real, calls: Calls, lead: real)
    requires Plausible(calls, lead)
    ensures var r := RestartUnit(clock, timeout, deadline, calls);
      && clock <= r.clock
      && (r.clock == clock || r.clock <= deadline + lead)
      && (r.confirmed ==> r.clock <= deadline)
  {
  }

  /** Two timeouts and the leading work for each of `n` units. */
  function Needed(timeout: real, lead: real, n: nat): real {
    if n == 0 then 0.0 else 2.0 * timeout + lead + Needed(timeout, lead, n - 1)
  }

  lemma {:induction false} NeededIsProduct(t: int, lead: real, n: nat)
    ensures Needed(t as real, lead, n) == (2 * t * n) as real + lead * n as real
  {
    if n > 0 {
      NeededIsProduct(t, lead, n - 1);
      assert 2 * t * n == 2 * t + 2 * t * (n - 1);
      assert lead * n as real == lead + lead * (n - 1) as real;
    }
  }

  // A unit whose calls answer in time and well, after at most `lead`.
  predicate Healthy(calls: Calls, timeout: real, lead: real) {
    && 0.0 <= calls.write && 0.0 <= calls.look && calls.write + calls.look <= lead
    && calls.allowed
    && 0.0 <= calls.restart <= timeout && calls.restartOk
    && 0.0 <= calls.probe <= timeout && calls.probeActive
  }

  predicate AllHealthy(units: seq<Calls>, timeout: real, lead: real) {
    forall i :: 0 <= i < |units| ==> Healthy(units[i], timeout, lead)
  }

  /** Calls that answer within their timeout are never starved by earlier units when
      the deadline leaves two timeouts and the leading work per unit. */
  lemma {:induction false} NoUnitIsStarved(clock: real, timeout: real, lead: real, deadline: real, units: seq<Calls>,
                                           done: nat)
    requires timeout > 0.0 && lead >= 0.0 && AllHealthy(units, timeout, lead)
    requires clock + Needed(timeout, lead, |units|) <= deadline
    ensures RestartUnits(clock, timeout, deadline, units, done).confirmed == done + |units|
    decreases |units|
  {
    if units != [] {
      NeededIsPositive(timeout, lead, |units| - 1);
      assert Healthy(units[0], timeout, lead);
      var r := RestartUnit(clock + units[0].write, timeout, deadline, units[0]);
      assert AllHealthy(units[1..], timeout, lead);
      NoUnitIsStarved(r.clock, timeout, lead, deadline, units[1..], done + 1);
    }
  }

  lemma {:induction false} NeededIsPositive(timeout: real, lead: real, n: nat)
    requires timeout > 0.0 && lead >= 0.0
    ensures Needed(timeout, lead, n) >= 0.0
  {
    if n > 0 {
      NeededIsPositive(timeout, lead, n - 1);
    }
  }

  // Healthy units that use all the time they are given.
  function Slowest(timeout: real, lead: real, n: nat): (units: seq<Calls>)
    ensures |units| == n && forall i :: 0 <= i < n ==> units[i] == Calls(lead, 0.0, true, timeout, true, timeout, true)
  {
    seq(n, i => Calls(lead, 0.0, true, timeout, true, timeout, true))
  }

  lemma {:induction false} SlowestNeed(clock: real, timeout: real, lead: real, deadline: real, n: nat, done: nat)
    requires n > 0
    requires RestartUnits(clock, timeout, deadline, Slowest(timeout, lead, n), done).confirmed >= done + n
    ensures clock + Needed(timeout, lead, n) <= deadline
    decreases n
  {
    var units := Slowest(timeout, lead, n);
    assert units[1..] == Slowest(timeout, lead, n - 1);
    if n > 1 {
      SlowestNeed(clock + lead + 2.0 * timeout, timeout, lead, deadline, n - 1, done + 1);
    }
  }

  // Every escalation of healthy units is completed when restarting begins `delay`
  // after the deadline was set.
  ghost predicate EscalationCompletes(l: Loaded, delay: real, lead: real) {
    var n := 1 + |l.config.dependencies|;
    forall units :: |units| == n && AllHealthy(units, l.restartTimeout as real, lead) ==>
      RestartUnits(delay, l.restartTimeout as real, (l.unitStartTimeout - RESTART_OVERHEAD) as real, units, 0).confirmed
      == n
  }

  /** Under a loaded configuration a full escalation of healthy units is completed,
      however slow they are within their timeouts, if and only if the time before it
      and the work between its calls fit what the clamped timeouts leave over. */
  lemma LoadedEscalationCompletes(s: Settings, delay: real, lead: real)
    requires Load(s).config.usable && delay >= 0.0 && lead >= 0.0
    ensures
      var l := Load(s);
      var n := 1 + |l.config.dependencies|;
      EscalationCompletes(l, delay, lead)
      <==> delay + lead * n as real
             <= (l.unitStartTimeout - RESTART_OVERHEAD - CALLS_PER_UNIT * l.restartTimeout * n) as real
  {
    hide Load, RestartUnits, Needed, AllHealthy;
    var l := Load(s);
    var t, n := l.restartTimeout, 1 + |l.config.dependencies|;
    var deadline := (l.unitStartTimeout - RESTART_OVERHEAD) as real;
    EscalationFitsStartDeadline(s);
    NeededIsProduct(t, lead, n);
    assert CALLS_PER_UNIT * t * n == 2 * t * n;
    if delay + Needed(t as real, lead, n) <= deadline {
      forall units | |units| == n && AllHealthy(units, t as real, lead)
        ensures RestartUnits(delay, t as real, deadline, units, 0).confirmed == n
      {
        NoUnitIsStarved(delay, t as real, lead, deadline, units, 0);
      }
    } else {
      SlowestIsHealthy(t as real, lead, n);
      if RestartUnits(delay, t as real, deadline, Slowest(t as real, lead, n), 0).confirmed == n {
        SlowestNeed(delay, t as real, lead, deadline, n, 0);
      }
    }
  }

  lemma SlowestIsHealthy(timeout: real, lead: real, n: nat)
    requires timeout >= 0.0 && lead >= 0.0
    ensures AllHealthy(Slowest(timeout, lead, n), timeout, lead)
  {
  }

  /** What is left over is never negative: with no delay and no work between the
      calls every loaded configuration completes, and the defaults leave a minute. */
  lemma EscalationAlwaysFits(s: Settings, unit: string, dependency: string, gap: int)
    ensures Load(s).config.usable ==> EscalationCompletes(Load(s), 0.0, 0.0)
    ensures EscalationCompletes(Load(Settings(None, None, None, None, None, unit, [dependency], gap)), 60.0, 0.0)
  {
    hide Load, EscalationCompletes;
    if Load(s).config.usable {
      EscalationFitsStartDeadline(s);
      LoadedEscalationCompletes(s, 0.0, 0.0);
    }
    var d := Settings(None, None, None, None, None, unit, [dependency], gap);
    DefaultsAreUsable(unit, [dependency], gap);
    LoadedEscalationCompletes(d, 60.0, 0.0);
  }
}
