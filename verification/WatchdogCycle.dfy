// One watchdog invocation against durable state: read, decide, persist the
// decision, then account for and issue each unit's command in turn. Every write
// may fail and the process may be killed before or after any of them.
module WatchdogCycle {
  import opened Common
  import opened Watchdog

  datatype Save = Saved | SaveFailed | KilledBeforeSave | KilledAfterSave

  datatype Command = Confirmed | Unconfirmed | KilledInCommand

  // What the host does to one unit's turn: whether start budget is left, the
  // clock reading the attempt is charged to, the accounting write, the command.
  datatype UnitStep = UnitStep(budgetLeft: bool, attemptAt: int, save: Save, command: Command)

  datatype CycleInput = CycleInput(dryRun: bool, sample: Sample, decisionSave: Save, steps: seq<UnitStep>)

  // An attempt that was durably charged; `issued` when its command was also run,
  // `confirmed` when the unit was then seen active.
  datatype Attempt = Attempt(unit: string, at: int, issued: bool, confirmed: bool)

  // `writes` lists every record ever saved, `log` every attempt ever charged.
  datatype Host = Host(disk: Option<State>, writes: seq<State>, log: seq<Attempt>, printed: seq<Signal>)

  datatype Actuation = Actuation(host: Host, outcome: seq<Signal>, killed: bool)

  const FreshHost := Host(None, [], [], [])

  predicate Kills(save: Save) {
    save.KilledBeforeSave? || save.KilledAfterSave?
  }

  predicate Lands(save: Save) {
    save.Saved? || save.KilledAfterSave?
  }

  function Persist(h: Host, s: State, save: Save): Host {
    if Lands(save) then h.(disk := Some(s), writes := h.writes + [s]) else h
  }

  function Say(h: Host, lines: seq<Signal>): Host {
    h.(printed := h.printed + lines)
  }

  function Without(lines: seq<Signal>, signal: Signal): seq<Signal> {
    if lines == [] then []
    else (if lines[0] == signal then [] else [lines[0]]) + Without(lines[1..], signal)
  }

  // A cycle that could not save its record claims neither health nor a restart.
  function Unsaved(lines: seq<Signal>, units: seq<string>): seq<Signal> {
    var cancelled := if units == [] then lines else Without(lines, RestartAttempt) + [Impaired];
    if CycleOk in cancelled then Without(cancelled, CycleOk) + [Impaired] else cancelled
  }

  /** The record with one attempt charged and nothing left pending. */
  function Charge(s: State, unit: string, at: int, config: Config): State {
    if unit == config.unit
    then s.(pending := [], restarts := Recent(s.restarts, at, config.window) + [at])
    else s.(pending := [], dependencyRestarts := Recent(s.dependencyRestarts, at, config.window) + [at])
  }

  // One unit's turn: `go` when its command was confirmed and the next may follow.
  datatype Turn = Turn(host: Host, state: State, lines: seq<Signal>, go: bool, killed: bool)

  function TakeTurn(h: Host, s: State, units: seq<string>, step: UnitStep, config: Config): Turn
    requires units != []
  {
    if !step.budgetLeft then
      var kept := s.(pending := units);
      var lines := if step.save.SaveFailed? then [Impaired, Impaired] else [Impaired];
      Turn(Persist(h, kept, step.save), kept, lines, false, Kills(step.save))
    else
      var charged := Charge(s, units[0], step.attemptAt, config);
      var h1 := Persist(h, charged, step.save);
      if !Lands(step.save) then
        Turn(h1, charged, [Impaired], false, Kills(step.save))
      else
        var issued := step.save.Saved?;
        var confirmed := issued && step.command.Confirmed?;
        var h2 := h1.(log := h1.log + [Attempt(units[0], step.attemptAt, issued, confirmed)]);
        var lines := if !confirmed then [Impaired] else if units[0] == config.unit then [Restarted] else [];
        Turn(h2, charged, lines, confirmed, !issued || step.command.KilledInCommand?)
  }

  /** The unit-by-unit restart loop; it stops at the first unit that is not confirmed. */
  function Actuate(h: Host, s: State, outcome: seq<Signal>, units: seq<string>, steps: seq<UnitStep>,
                   config: Config): Actuation
    decreases |units|
  {
    if units == [] then Actuation(h, outcome, false)
    else if steps == [] then Actuation(h, outcome, true)
    else
      var turn := TakeTurn(h, s, units, steps[0], config);
      if !turn.go then Actuation(turn.host, outcome + turn.lines, turn.killed)
      else Actuate(turn.host, turn.state, outcome + turn.lines, units[1..], steps[1..], config)
  }

  /** A whole invocation. */
  function Cycle(h: Host, input: CycleInput, config: Config): Host {
    if h.disk.Some? && !ValidState(h.disk.value) then Say(h, [Impaired])
    else
      var d := Evaluate(input.sample, h.disk, config);
      if input.dryRun then Say(h, d.lines + (if d.units == [] then [] else [Impaired]))
      else
        var h1 := Persist(h, d.state, input.decisionSave);
        if Kills(input.decisionSave) then h1
        else if input.decisionSave.SaveFailed? then Say(h1, Unsaved(d.lines, d.units))
        else
          var a := Actuate(Say(h1, d.lines), d.state, [], d.units, input.steps, config);
          if a.killed then a.host else Say(a.host, a.outcome)
  }

  /** Each host of the trace is what one cycle makes of the one before. */
  predicate Follows(trace: seq<Host>, inputs: seq<CycleInput>, config: Config) {
    && |trace| == |inputs| + 1
    && (forall i :: 0 <= i < |inputs| ==> trace[i + 1] == Cycle(trace[i], inputs[i], config))
  }

  /** A run starts on a host that never ran the watchdog. */
  predicate IsRun(trace: seq<Host>, inputs: seq<CycleInput>, config: Config) {
    Follows(trace, inputs, config) && trace[0] == FreshHost
  }

  /** The running watchdog: a durable record plus the trace of what it did. */
  class Supervisor {
    const config: Config
    var disk: Option<State>
    var writes: seq<State>
    var log: seq<Attempt>
    var printed: seq<Signal>

    constructor (config: Config)
      ensures this.config == config && Now() == FreshHost
    {
      this.config := config;
      disk, writes, log, printed := None, [], [], [];
    }

    function Now(): Host
      reads this
    {
      Host(disk, writes, log, printed)
    }

    method WriteState(s: State, save: Save)
      modifies `disk, `writes
      ensures Now() == Persist(old(Now()), s, save)
    {
      if Lands(save) {
        disk, writes := Some(s), writes + [s];
      }
    }

    method RunUnits(decided: State, units: seq<string>, steps: seq<UnitStep>)
      returns (outcome: seq<Signal>, killed: bool)
      modifies this
      ensures Actuation(Now(), outcome, killed) == Actuate(old(Now()), decided, [], units, steps, config)
    {
      var state := decided;
      var index := 0;
      outcome, killed := [], false;
      while index < |units|
        invariant 0 <= index <= |units| && index <= |steps|
        invariant Actuate(Now(), state, outcome, units[index..], steps[index..], config)
               == Actuate(old(Now()), decided, [], units, steps, config)
      {
        if index == |steps| {
          return outcome, true;
        }
        var step, unit := steps[index], units[index];
        if !step.budgetLeft {
          WriteState(state.(pending := units[index..]), step.save);
          outcome := outcome + (if step.save.SaveFailed? then [Impaired, Impaired] else [Impaired]);
          return outcome, Kills(step.save);
        }
        state := Charge(state, unit, step.attemptAt, config);
        WriteState(state, step.save);
        if !Lands(step.save) {
          return outcome + [Impaired], Kills(step.save);
        }
        var issued, confirmed := step.save.Saved?, step.save.Saved? && step.command.Confirmed?;
        log := log + [Attempt(unit, step.attemptAt, issued, confirmed)];
        if !confirmed {
          return outcome + [Impaired], !issued || step.command.KilledInCommand?;
        }
        outcome := outcome + (if unit == config.unit then [Restarted] else []);
        assert units[index..][1..] == units[index + 1..];
        assert steps[index..][1..] == steps[index + 1..];
        index := index + 1;
      }
    }

    method RunCycle(input: CycleInput)
      modifies this
      ensures Now() == Cycle(old(Now()), input, config)
    {
      if disk.Some? && !ValidState(disk.value) {
        printed := printed + [Impaired];
        return;
      }
      var d := Evaluate(input.sample, disk, config);
      var lines := d.lines;
      if input.dryRun {
        printed := printed + (lines + if d.units == [] then [] else [Impaired]);
        return;
      }
      WriteState(d.state, input.decisionSave);
      if Kills(input.decisionSave) {
        return;
      }
      if input.decisionSave.SaveFailed? {
        printed := printed + Unsaved(lines, d.units);
        return;
      }
      printed := printed + lines;
      var outcome, killed := RunUnits(d.state, d.units, input.steps);
      if !killed {
        printed := printed + outcome;
      }
    }
  }
}
