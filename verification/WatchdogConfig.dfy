// Loading the watchdog's configuration: bounded settings, the restart timeout
// clamped to the unit's start deadline, and the window widened to the ladder.
module WatchdogConfig {
  import opened Common
  import opened Text
  import opened Watchdog

  const RESTART_OVERHEAD := 120
  const CALLS_PER_UNIT := 2

  // Raw settings; absent ones take their default. `legitimateGap` is the loop's own
  // longest heartbeat-to-heartbeat gap.
  datatype Settings = Settings(
    staleSeconds: Option<string>,
    maxRestarts: Option<string>,
    window: Option<string>,
    restartTimeout: Option<string>,
    unitStartTimeout: Option<string>,
    unit: string,
    dependencies: seq<string>,
    legitimateGap: int)

  datatype Bounded = Bounded(value: int, error: bool)

  // `notes` counts the loud adjustments that are not errors.
  datatype Loaded = Loaded(config: Config, restartTimeout: int, unitStartTimeout: int, notes: nat)

  /** A setting is refused, never silently replaced, when it is malformed or out of range. */
  function BoundedInt(raw: Option<string>, default: int, low: int, high: int): (b: Bounded)
    ensures !b.error && low <= default <= high ==> low <= b.value <= high
  {
    if raw.None? then Bounded(default, false)
    else
      var text := Strip(raw.value);
      if !(1 <= |text| <= 9 && AllDigits(text)) then Bounded(default, true)
      else
        var value := Value(text);
        if low <= value <= high then Bounded(value, false) else Bounded(default, true)
  }

  function RequiredWindow(maxRestarts: int, staleSeconds: int): int {
    (maxRestarts + 1) * staleSeconds
  }

  function Load(s: Settings): Loaded {
    var stale := BoundedInt(s.staleSeconds, 5400, 300, 86400);
    var restarts := BoundedInt(s.maxRestarts, 3, 1, 20);
    var window := BoundedInt(s.window, 21600, 600, 604800);
    var timeout := BoundedInt(s.restartTimeout, 180, 5, 3600);
    var start := BoundedInt(s.unitStartTimeout, 900, 60, 86400);
    var fits := (start.value - RESTART_OVERHEAD) / (CALLS_PER_UNIT * (1 + |s.dependencies|));
    var longest := Max(5, fits);
    var needed := RequiredWindow(restarts.value, stale.value);
    var usable := !(stale.error || restarts.error || window.error || timeout.error || start.error || fits < 5);
    var config := Config(stale.value, restarts.value, Max(window.value, needed), s.unit, s.dependencies, usable,
                         s.legitimateGap >= stale.value);
    Loaded(config, Min(timeout.value, longest), start.value,
           (if timeout.value > longest then 1 else 0) + (if window.value < needed then 1 else 0))
  }

  // A text of one to nine digits, with white space around it.
  ghost predicate Written(raw: string, before: string, digits: string, after: string) {
    && raw == before + digits + after && AllSpace(before) && AllSpace(after)
    && digits != "" && |digits| < 10 && AllDigits(digits)
  }

  /** A setting names a value: the default when it is absent, else what its digits
      denote, which must lie in the range. */
  ghost predicate Names(raw: Option<string>, default: int, low: int, high: int, value: int) {
    if raw.None? then value == default
    else
      && low <= value <= high
      && exists before, digits, after :: Written(raw.value, before, digits, after) && Value(digits) == value
  }

  lemma WrittenIsStripped(raw: string, before: string, digits: string, after: string)
    requires Written(raw, before, digits, after)
    ensures Strip(raw) == digits
  {
    assert !IsSpace(digits[0]) && !IsSpace(digits[|digits| - 1]);
    StripFinds(before, digits, after);
  }

  /** A setting is read without error exactly when it names a value, and then as
      that value; an error leaves the default. */
  lemma BoundedIntIff(raw: Option<string>, default: int, low: int, high: int, value: int)
    ensures BoundedInt(raw, default, low, high) == Bounded(value, false) <==> Names(raw, default, low, high, value)
    ensures BoundedInt(raw, default, low, high).error ==> BoundedInt(raw, default, low, high).value == default
  {
    hide Strip;
    if raw.Some? {
      var before, after := StripParts(raw.value);
      var text := Strip(raw.value);
      if 1 <= |text| <= 9 && AllDigits(text) {
        assert Written(raw.value, before, text, after);
      }
      if b, digits, a :| Written(raw.value, b, digits, a) && Value(digits) == value {
        WrittenIsStripped(raw.value, b, digits, a);
      }
    }
  }

  // The five numbers that a configuration names.
  datatype Chosen = Chosen(stale: int, restarts: int, window: int, timeout: int, start: int)

  ghost predicate NamesAll(s: Settings, c: Chosen) {
    && Names(s.staleSeconds, 5400, 300, 86400, c.stale)
    && Names(s.maxRestarts, 3, 1, 20, c.restarts)
    && Names(s.window, 21600, 600, 604800, c.window)
    && Names(s.restartTimeout, 180, 5, 3600, c.timeout)
    && Names(s.unitStartTimeout, 900, 60, 86400, c.start)
  }

  // Two calls of every unit and the overhead end before the unit's start deadline.
  predicate Escalates(s: Settings, timeout: int, start: int) {
    2 * timeout * (1 + |s.dependencies|) + 120 <= start
  }

  lemma NamesAllIff(s: Settings, c: Chosen)
    ensures NamesAll(s, c) <==>
      && BoundedInt(s.staleSeconds, 5400, 300, 86400) == Bounded(c.stale, false)
      && BoundedInt(s.maxRestarts, 3, 1, 20) == Bounded(c.restarts, false)
      && BoundedInt(s.window, 21600, 600, 604800) == Bounded(c.window, false)
      && BoundedInt(s.restartTimeout, 180, 5, 3600) == Bounded(c.timeout, false)
      && BoundedInt(s.unitStartTimeout, 900, 60, 86400) == Bounded(c.start, false)
  {
    hide BoundedInt, Names;
    BoundedIntIff(s.staleSeconds, 5400, 300, 86400, c.stale);
    BoundedIntIff(s.maxRestarts, 3, 1, 20, c.restarts);
    BoundedIntIff(s.window, 21600, 600, 604800, c.window);
    BoundedIntIff(s.restartTimeout, 180, 5, 3600, c.timeout);
    BoundedIntIff(s.unitStartTimeout, 900, 60, 86400, c.start);
  }

  // Integer division finds the longest timeout that fits.
  lemma LongestFits(s: Settings, timeout: int, start: int)
    ensures Escalates(s, timeout, start) <==> timeout <= (start - 120) / (2 * (1 + |s.dependencies|))
  {
    var n := 2 * (1 + |s.dependencies|);
    var longest := (start - 120) / n;
    assert longest * n <= start - 120 < (longest + 1) * n;
    assert 2 * timeout * (1 + |s.dependencies|) == timeout * n;
    if timeout <= longest {
      Times(timeout, longest, n);
    } else {
      Times(longest + 1, timeout, n);
    }
  }

  /** What a configuration comes to. It is usable exactly when every setting names a
      value and a timeout of five seconds fits the start deadline; then the timeout
      is the longest up to the one named that fits, the window the named one widened
      to a whole climb, and each of these two adjustments leaves a note. */
  lemma LoadedMeans(s: Settings, c: Chosen)
    ensures NamesAll(s, c) ==> (Load(s).config.usable <==> Escalates(s, 5, c.start))
    ensures Load(s).config.usable ==> exists d :: NamesAll(s, d)
    ensures NamesAll(s, c) && Load(s).config.usable ==>
      var l := Load(s);
      && l.config.staleSeconds == c.stale && l.config.maxRestarts == c.restarts && l.unitStartTimeout == c.start
      && l.config.unit == s.unit && l.config.dependencies == s.dependencies
      && (l.config.ceilingConflict <==> s.legitimateGap >= c.stale)
      && (if (c.restarts + 1) * c.stale <= c.window then l.config.window == c.window
          else l.config.window == (c.restarts + 1) * c.stale)
      && l.restartTimeout <= c.timeout && Escalates(s, l.restartTimeout, c.start)
      && (l.restartTimeout < c.timeout ==> !Escalates(s, l.restartTimeout + 1, c.start))
      && l.notes == (if Escalates(s, c.timeout, c.start) then 0 else 1)
                    + (if (c.restarts + 1) * c.stale <= c.window then 0 else 1)
  {
    hide BoundedInt, NamesAll, Escalates;
    var l := Load(s);
    NamesAllIff(s, c);
    var d := Chosen(
      BoundedInt(s.staleSeconds, 5400, 300, 86400).value, BoundedInt(s.maxRestarts, 3, 1, 20).value,
      BoundedInt(s.window, 21600, 600, 604800).value, BoundedInt(s.restartTimeout, 180, 5, 3600).value,
      BoundedInt(s.unitStartTimeout, 900, 60, 86400).value);
    NamesAllIff(s, d);
    LongestFits(s, 5, c.start);
    LongestFits(s, c.timeout, c.start);
    LongestFits(s, l.restartTimeout, c.start);
    LongestFits(s, l.restartTimeout + 1, c.start);
  }

  /** With nothing configured the settings are usable for up to one dependency. */
  lemma DefaultsAreUsable(unit: string, dependencies: seq<string>, legitimateGap: int)
    requires |dependencies| <= 1
    ensures var l := Load(Settings(None, None, None, None, None, unit, dependencies, legitimateGap));
      && l.config.usable && l.notes == 0 && l.config.dependencies == dependencies
      && l.restartTimeout == 180 && l.unitStartTimeout == 900 && l.config.window == 21600
  {
    assert RequiredWindow(3, 5400) == 21600;
    assert 780 / (2 * (1 + |dependencies|)) >= 195;
  }

  /** Whenever no setting is in error, every bounded call of a full escalation fits
      inside the unit's start deadline with the overhead to spare. */
  lemma EscalationFitsStartDeadline(s: Settings)
    requires Load(s).config.usable
    ensures
      var l := Load(s);
      && CALLS_PER_UNIT * l.restartTimeout * (1 + |l.config.dependencies|) + RESTART_OVERHEAD <= l.unitStartTimeout
      && 5 <= l.restartTimeout
  {
    hide BoundedInt;
    var l := Load(s);
    var n := CALLS_PER_UNIT * (1 + |s.dependencies|);
    var budget := l.unitStartTimeout - RESTART_OVERHEAD;
    var fits := budget / n;
    assert l.restartTimeout <= fits;
    assert fits * n <= budget;
    Times(l.restartTimeout, fits, n);
    assert CALLS_PER_UNIT * l.restartTimeout * (1 + |s.dependencies|) == l.restartTimeout * n;
  }

  lemma Times(a: int, b: int, n: nat)
    requires a <= b
    ensures a * n <= b * n
  {
  }

  lemma LoadedBounds(s: Settings)
    requires Load(s).config.usable
    ensures
      var c := Load(s).config;
      300 <= c.staleSeconds && 1 <= c.maxRestarts <= 20 && RequiredWindow(c.maxRestarts, c.staleSeconds) <= c.window
  {
    hide BoundedInt, RequiredWindow;
  }

  /** The window is wide enough for a whole climb whatever was configured, so neither
      the escalation nor the give-up rung is dead code. */
  lemma LoadedLadderIsReachable(s: Settings)
    requires Load(s).config.usable && !Load(s).config.ceilingConflict
    ensures
      var c := Load(s).config;
      && Climbable(c)
      && (c.maxRestarts + 1) * c.staleSeconds <= c.window
  {
    hide Load;
    LoadedBounds(s);
    var c := Load(s).config;
    var m, k := c.maxRestarts, c.staleSeconds;
    assert (m + 1) * k == m * k + k;
    assert m * Period(c) == m * k + m;
  }
}
