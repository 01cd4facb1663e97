// What the printed signals may claim: recovery only after a confirmed command,
// health or a restart decision only after the record behind it was saved.
module WatchdogSignals {
  import opened Common
  import opened Watchdog
  import opened WatchdogCycle

  /** Some attempt from position `from` on saw the unit active after its command. */
  predicate ConfirmedSince(log: seq<Attempt>, from: nat, unit: string) {
    exists k :: from <= k < |log| && log[k].unit == unit && log[k].issued && log[k].confirmed
  }

  predicate Extends<T(==)>(longer: seq<T>, shorter: seq<T>) {
    |shorter| <= |longer| && longer[..|shorter|] == shorter
  }

  lemma ConfirmedLonger(log: seq<Attempt>, longer: seq<Attempt>, from: nat, unit: string)
    requires Extends(longer, log) && ConfirmedSince(log, from, unit)
    ensures ConfirmedSince(longer, from, unit)
  {
    var k :| from <= k < |log| && log[k].unit == unit && log[k].issued && log[k].confirmed;
    assert longer[..|log|][k] == longer[k];
  }

  lemma {:induction false} InWithout(lines: seq<Signal>, signal: Signal, x: Signal)
    ensures x in Without(lines, signal) <==> x in lines && x != signal
  {
    if lines != [] {
      InWithout(lines[1..], signal, x);
      assert lines == [lines[0]] + lines[1..];
    }
  }

  lemma {:induction false} ActuateIsHonest(h: Host, s: State, outcome: seq<Signal>, units: seq<string>,
                                          steps: seq<UnitStep>, from: nat, config: Config)
    requires Restarted in outcome ==> ConfirmedSince(h.log, from, config.unit)
    requires from <= |h.log| && CycleOk !in outcome && RestartAttempt !in outcome
    ensures
      var a := Actuate(h, s, outcome, units, steps, config);
      && Extends(a.host.log, h.log) && Extends(a.host.writes, h.writes) && a.host.printed == h.printed
      && (Restarted in a.outcome ==> ConfirmedSince(a.host.log, from, config.unit))
      && CycleOk !in a.outcome && RestartAttempt !in a.outcome
    decreases |units|
  {
    hide Charge;
    if units != [] && steps != [] {
      var turn := TakeTurn(h, s, units, steps[0], config);
      if Restarted in outcome {
        ConfirmedLonger(h.log, turn.host.log, from, config.unit);
      }
      if turn.go {
        assert turn.host.log[|h.log|].confirmed && turn.host.log[|h.log|].unit == units[0];
        ActuateIsHonest(turn.host, turn.state, outcome + turn.lines, units[1..], steps[1..], from, config);
      }
    }
  }

  lemma EvaluateClaims(sample: Sample, previous: Option<State>, config: Config)
    ensures
      var d := Evaluate(sample, previous, config);
      Restarted !in d.lines && (RestartAttempt in d.lines ==> d.units != [])
  {
    hide Carry, Base, ClockRollback, ClockForwardJump, SupervisionSafe, Latest;
  }

  /** In every cycle, under any failure: recovery is claimed only if the loop
      was confirmed active in that cycle, after its command, and neither health nor a restart decision is claimed
      unless the record it rests on was saved. */
  lemma SignalsAreHonest(h: Host, input: CycleInput, config: Config)
    requires !input.dryRun
    ensures
      var after := Cycle(h, input, config);
      && Extends(after.printed, h.printed)
      && var said := after.printed[|h.printed|..];
         && (Restarted in said ==> ConfirmedSince(after.log, |h.log|, config.unit))
         && ((CycleOk in said || RestartAttempt in said) ==>
               && |after.writes| > |h.writes|
               && after.writes[|h.writes|] == Evaluate(input.sample, h.disk, config).state)
  {
    hide Evaluate, Actuate, ValidState, Unsaved, ConfirmedSince;
    var d := Evaluate(input.sample, h.disk, config);
    EvaluateClaims(input.sample, h.disk, config);
    UnsavedClaimsNothing(d.lines, d.units);
    var h1 := Say(Persist(h, d.state, Saved), d.lines);
    ActuateIsHonest(h1, d.state, [], d.units, input.steps, |h.log|, config);
    assert h1.writes[|h.writes|] == d.state;
  }

  lemma UnsavedClaimsNothing(lines: seq<Signal>, units: seq<string>)
    requires Restarted !in lines && (RestartAttempt in lines ==> units != [])
    ensures CycleOk !in Unsaved(lines, units) && Restarted !in Unsaved(lines, units)
    ensures RestartAttempt !in Unsaved(lines, units)
  {
    InWithout(lines, RestartAttempt, RestartAttempt);
    InWithout(lines, RestartAttempt, Restarted);
    var cancelled := if units == [] then lines else Without(lines, RestartAttempt) + [Impaired];
    InWithout(cancelled, CycleOk, CycleOk);
    InWithout(cancelled, CycleOk, Restarted);
    InWithout(cancelled, CycleOk, RestartAttempt);
  }

  // ------------------------------------------------------ what a cycle prints

  /** One unit's turn by what the host does to it: when the next may follow, when the
      process dies, what is charged, and what is said by a process that lives on. */
  lemma TurnMeans(h: Host, s: State, units: seq<string>, step: UnitStep, config: Config)
    requires units != []
    ensures
      var turn := TakeTurn(h, s, units, step, config);
      && (turn.go <==> step.budgetLeft && step.save.Saved? && step.command.Confirmed?)
      && (turn.killed <==>
            || step.save.KilledBeforeSave? || step.save.KilledAfterSave?
            || (step.budgetLeft && step.save.Saved? && step.command.KilledInCommand?))
      && (turn.host.log == if step.budgetLeft && (step.save.Saved? || step.save.KilledAfterSave?)
            then h.log + [Attempt(units[0], step.attemptAt, step.save.Saved?, turn.go)] else h.log)
      && turn.host.printed == h.printed
      && (!turn.killed ==>
            && (Impaired in turn.lines <==> !turn.go)
            && (Restarted in turn.lines <==> turn.go && units[0] == config.unit))
  {
    hide Charge;
  }

  // The attempts are those of the first units in order, and only the last may have failed.
  predicate InTurn(attempts: seq<Attempt>, units: seq<string>) {
    && |attempts| <= |units|
    && (forall i :: 0 <= i < |attempts| ==> attempts[i].unit == units[i])
    && forall i :: 0 <= i < |attempts| - 1 ==> attempts[i].confirmed
  }

  predicate AllConfirmed(attempts: seq<Attempt>, units: seq<string>) {
    |attempts| == |units| && forall i :: 0 <= i < |attempts| ==> attempts[i].confirmed
  }

  predicate Confirms(attempts: seq<Attempt>, unit: string) {
    exists i :: 0 <= i < |attempts| && attempts[i].unit == unit && attempts[i].confirmed
  }

  lemma InTurnCons(first: Attempt, rest: seq<Attempt>, units: seq<string>, unit: string)
    requires units != [] && first.unit == units[0] && first.confirmed && InTurn(rest, units[1..])
    ensures InTurn([first] + rest, units)
    ensures AllConfirmed([first] + rest, units) <==> AllConfirmed(rest, units[1..])
    ensures Confirms([first] + rest, unit) <==> first.unit == unit || Confirms(rest, unit)
  {
    var all := [first] + rest;
    assert forall i :: 0 <= i < |rest| ==> all[i + 1] == rest[i];
    assert all[0] == first;
    if AllConfirmed(all, units) {
      forall i | 0 <= i < |rest| ensures rest[i].confirmed {
        assert all[i + 1].confirmed;
      }
    }
    if i :| 0 <= i < |all| && all[i].unit == unit && all[i].confirmed {
      assert i == 0 || rest[i - 1].unit == unit;
    }
    if i :| 0 <= i < |rest| && rest[i].unit == unit && rest[i].confirmed {
      assert all[i + 1] == rest[i];
    }
  }

  // What the restart loop says of the attempts it made, for a process that lives on.
  predicate Reports(outcome: seq<Signal>, before: seq<Signal>, attempts: seq<Attempt>, units: seq<string>,
                    config: Config)
  {
    && (Impaired in outcome <==> Impaired in before || !AllConfirmed(attempts, units))
    && (Restarted in outcome <==> Restarted in before || Confirms(attempts, config.unit))
  }

  // The process lives through as many turns as there may be.
  predicate Survives(steps: seq<UnitStep>, units: seq<string>) {
    && |units| <= |steps|
    && forall i :: 0 <= i < |steps| ==>
         !steps[i].save.KilledBeforeSave? && !steps[i].save.KilledAfterSave? && !steps[i].command.KilledInCommand?
  }

  lemma {:induction false} ActuateMeans(h: Host, s: State, outcome: seq<Signal>, units: seq<string>,
                                        steps: seq<UnitStep>, config: Config) returns (attempts: seq<Attempt>)
    ensures
      var a := Actuate(h, s, outcome, units, steps, config);
      && a.host.log == h.log + attempts && a.host.printed == h.printed
      && InTurn(attempts, units)
      && (!a.killed ==> Reports(a.outcome, outcome, attempts, units, config))
      && (Survives(steps, units) ==> !a.killed)
    decreases |units|
  {
    hide TakeTurn, InTurn, AllConfirmed, Confirms;
    attempts := [];
    NoAttempts(units, config.unit);
    if units != [] && steps != [] {
      var turn := TakeTurn(h, s, units, steps[0], config);
      TurnMeans(h, s, units, steps[0], config);
      if turn.go {
        var rest := ActuateMeans(turn.host, turn.state, outcome + turn.lines, units[1..], steps[1..], config);
        var first := Attempt(units[0], steps[0].attemptAt, true, true);
        InTurnCons(first, rest, units, config.unit);
        attempts := [first] + rest;
        assert h.log + attempts == turn.host.log + rest;
      } else if turn.host.log != h.log {
        attempts := [Attempt(units[0], steps[0].attemptAt, steps[0].save.Saved?, false)];
        FailedAttempt(attempts[0], units, config.unit);
      } else {
        assert h.log + attempts == h.log;
      }
    } else {
      assert h.log + attempts == h.log;
    }
  }

  lemma NoAttempts(units: seq<string>, unit: string)
    ensures InTurn([], units) && !Confirms([], unit)
    ensures AllConfirmed([], units) <==> units == []
  {
  }

  lemma FailedAttempt(attempt: Attempt, units: seq<string>, unit: string)
    requires units != [] && attempt.unit == units[0] && !attempt.confirmed
    ensures InTurn([attempt], units) && !AllConfirmed([attempt], units) && !Confirms([attempt], unit)
  {
    assert [attempt][0] == attempt;
  }

  // What a cycle appended to a list.
  function Added<T(==)>(after: seq<T>, before: seq<T>): seq<T> {
    if |before| <= |after| then after[|before|..] else []
  }

  lemma AddedConcat<T>(before: seq<T>, more: seq<T>)
    ensures Added(before + more, before) == more
  {
  }

  /** What a cycle that decided anything prints when its record cannot be saved: all
      it decided but health and the restarts it gives up, and that it is impaired. */
  lemma UnsavedMeans(lines: seq<Signal>, units: seq<string>, x: Signal)
    ensures x != Impaired ==>
      (x in Unsaved(lines, units) <==> x in lines && x != CycleOk && (x == RestartAttempt ==> units == []))
    ensures Impaired in Unsaved(lines, units) <==> Impaired in lines || units != [] || CycleOk in lines
  {
    var cancelled := if units == [] then lines else Without(lines, RestartAttempt) + [Impaired];
    forall y ensures y in Without(lines, RestartAttempt) <==> y in lines && y != RestartAttempt {
      InWithout(lines, RestartAttempt, y);
    }
    forall y ensures y in Without(cancelled, CycleOk) <==> y in cancelled && y != CycleOk {
      InWithout(cancelled, CycleOk, y);
    }
  }

  /** What a whole cycle prints, beside its attempts. A record that is not valid is
      only complained of; a dry run prints its decision and complains of units it would
      have restarted; a failed save is followed by nothing; a saved decision is printed
      before anything is attempted, and what was attempted is reported by a process
      that lives on: recovery exactly if the loop was confirmed, impairment exactly if
      not every unit was. */
  lemma CycleSays(h: Host, input: CycleInput, config: Config)
    ensures
      var after, d := Cycle(h, input, config), Evaluate(input.sample, h.disk, config);
      var said, attempts := Added(after.printed, h.printed), Added(after.log, h.log);
      if h.disk.Some? && !ValidState(h.disk.value) then said == [Impaired] && attempts == []
      else if input.dryRun then said == d.lines + (if d.units == [] then [] else [Impaired]) && attempts == []
      else match input.decisionSave
        case SaveFailed => said == Unsaved(d.lines, d.units) && attempts == []
        case Saved =>
          && d.lines <= said && InTurn(attempts, d.units)
          && (said == d.lines || Reports(said[|d.lines|..], [], attempts, d.units, config))
          && (Survives(input.steps, d.units) ==> Reports(said[|d.lines|..], [], attempts, d.units, config))
        case _ => said == [] && attempts == []
  {
    hide Evaluate, Actuate, ValidState, Unsaved, InTurn, Reports, Survives;
    var d := Evaluate(input.sample, h.disk, config);
    var h1 := Say(Persist(h, d.state, Saved), d.lines);
    var attempts := ActuateMeans(h1, d.state, [], d.units, input.steps, config);
    var a := Actuate(h1, d.state, [], d.units, input.steps, config);
    AddedConcat(h.log, attempts);
    AddedConcat<Attempt>(h.log, []);
    assert h.log + [] == h.log && h.printed + [] == h.printed;
    AddedConcat(h.printed, d.lines);
    AddedConcat(h.printed, d.lines + a.outcome);
    assert h.printed + d.lines + a.outcome == h.printed + (d.lines + a.outcome);
    assert (d.lines + a.outcome)[|d.lines|..] == a.outcome;
    AddedConcat(h.printed, [Impaired]);
    AddedConcat(h.printed, d.lines + [Impaired]);
    AddedConcat(h.printed, Unsaved(d.lines, d.units));
    AddedConcat<Signal>(h.printed, []);
    assert d.lines + [] == d.lines;
  }
}
