// The wallet-tip observer: the displayed observation, the high-water progress
// clock behind it, and the verdicts over a whole history of cycles.
module WalletTip {
  import opened Common

  datatype Observation = Observation(height: nat, since: int)

  // One key of the saved state; a state from an older version has no progress.
  datatype Track = Track(seen: Observation, progress: Option<Observation>)

  datatype State = State(source: string, wallet: Track, upstream: Track, alerting: bool)

  datatype Key = Wallet | Upstream

  datatype Signal =
    | Reorg(key: Key) | ProviderError | UpstreamStale | WalletStale | Behind | Recovered | TipOk | StateError

  datatype Limits = Limits(staleSeconds: int, behindBlocks: int)

  // -------------------------------------------------------------- one cycle

  predicate Fell(was: Option<Track>, height: nat) {
    was.Some? && height < was.value.seen.height
  }

  predicate Moved(was: Option<Track>, height: nat) {
    was.Some? && height > was.value.seen.height
  }

  function Seen(was: Option<Track>, height: nat, now: int): Observation {
    if was.None? || was.value.seen.height != height then Observation(height, now) else was.value.seen
  }

  // An older state is read as if its observation were its progress.
  function Progress(was: Option<Track>, height: nat, now: int): Observation {
    if was.None? then Observation(height, now)
    else
      var before := if was.value.progress.Some? then was.value.progress.value else was.value.seen;
      if Fell(was, height) then
        if was.value.progress.Some? then before else Observation(height, now)
      else if Moved(was, height) && height > before.height then Observation(height, now)
      else before
  }

  function Advance(was: Option<Track>, height: nat, now: int): (track: Track)
    ensures track.progress.Some?
  {
    Track(Seen(was, height, now), Some(Progress(was, height, now)))
  }

  function Age(now: int, since: int): int {
    Max(0, now - since)
  }

  function Verdicts(wallet: nat, upstream: nat, walletAge: int, upstreamAge: int, limits: Limits): seq<Signal> {
    (if upstreamAge >= limits.staleSeconds then
       if walletAge < limits.staleSeconds && wallet >= upstream then [ProviderError] else [UpstreamStale]
     else if walletAge >= limits.staleSeconds then [WalletStale]
     else [])
    + if upstream - wallet > limits.behindBlocks then [Behind] else []
  }

  predicate Alerts(lines: seq<Signal>) {
    exists line :: line in lines && line in {UpstreamStale, WalletStale, Behind}
  }

  function Previous(state: Option<State>, source: string): Option<State> {
    if state.Some? && state.value.source == source then state else None
  }

  function TrackOf(state: Option<State>, key: Key): Option<Track> {
    if state.None? then None
    else Some(if key.Wallet? then state.value.wallet else state.value.upstream)
  }

  function ReorgLines(state: Option<State>, wallet: nat, upstream: nat): seq<Signal> {
    (if Fell(TrackOf(state, Wallet), wallet) then [Reorg(Wallet)] else [])
    + if Fell(TrackOf(state, Upstream), upstream) then [Reorg(Upstream)] else []
  }

  function Evaluate(wallet: nat, upstream: nat, now: int, saved: Option<State>, source: string, limits: Limits)
    : (result: (seq<Signal>, State))
    ensures result.1.source == source
  {
    var previous := Previous(saved, source);
    var w := Advance(TrackOf(previous, Wallet), wallet, now);
    var u := Advance(TrackOf(previous, Upstream), upstream, now);
    var verdicts :=
      Verdicts(wallet, upstream, Age(now, w.progress.value.since), Age(now, u.progress.value.since), limits);
    var recovered := Moved(TrackOf(previous, Wallet), wallet) || Moved(TrackOf(previous, Upstream), upstream);
    var lines := ReorgLines(previous, wallet, upstream) + verdicts
      + (if recovered && previous.value.alerting && !Alerts(verdicts) then [Recovered] else [])
      + [TipOk];
    (lines, State(source, w, u, Alerts(verdicts)))
  }

  // The loop over the two keys, filling the dictionaries of the new state.
  method Observe(previous: Option<State>, wallet: nat, upstream: nat, now: int)
    returns (lines: seq<Signal>, observations: map<Key, Observation>, progress: map<Key, Observation>, recovered: bool)
    ensures lines == ReorgLines(previous, wallet, upstream)
    ensures Wallet in observations && Upstream in observations && Wallet in progress && Upstream in progress
    ensures Track(observations[Wallet], Some(progress[Wallet])) == Advance(TrackOf(previous, Wallet), wallet, now)
    ensures Track(observations[Upstream], Some(progress[Upstream]))
         == Advance(TrackOf(previous, Upstream), upstream, now)
    ensures recovered <==> Moved(TrackOf(previous, Wallet), wallet) || Moved(TrackOf(previous, Upstream), upstream)
  {
    var keys, heights := [Wallet, Upstream], [wallet, upstream];
    observations, progress, recovered, lines := map[], map[], false, [];
    for i := 0 to 2
      invariant forall j :: 0 <= j < i ==>
        && keys[j] in observations && observations[keys[j]] == Seen(TrackOf(previous, keys[j]), heights[j], now)
        && keys[j] in progress && progress[keys[j]] == Progress(TrackOf(previous, keys[j]), heights[j], now)
      invariant recovered <==> exists j :: 0 <= j < i && Moved(TrackOf(previous, keys[j]), heights[j])
      invariant lines == (if i > 0 && Fell(TrackOf(previous, Wallet), wallet) then [Reorg(Wallet)] else [])
                       + (if i > 1 && Fell(TrackOf(previous, Upstream), upstream) then [Reorg(Upstream)] else [])
    {
      var key, height := keys[i], heights[i];
      var was := TrackOf(previous, key);
      if was.None? {
        observations := observations[key := Observation(height, now)];
        progress := progress[key := Observation(height, now)];
      } else {
        var before := if was.value.progress.Some? then was.value.progress.value else was.value.seen;
        if was.value.seen.height != height {
          observations := observations[key := Observation(height, now)];
          if height < was.value.seen.height {
            lines := lines + [Reorg(key)];
            progress := progress[key := if was.value.progress.Some? then before else Observation(height, now)];
          } else {
            recovered := true;
            progress := progress[key := if height > before.height then Observation(height, now) else before];
          }
        } else {
          observations, progress := observations[key := was.value.seen], progress[key := before];
        }
      }
    }
    assert keys[0] == Wallet && keys[1] == Upstream;
  }

  method Judge(wallet: nat, upstream: nat, walletAge: int, upstreamAge: int, limits: Limits)
    returns (lines: seq<Signal>)
    ensures lines == Verdicts(wallet, upstream, walletAge, upstreamAge, limits)
  {
    var stale := limits.staleSeconds;
    lines := [];
    if upstreamAge >= stale && walletAge < stale && wallet >= upstream {
      lines := lines + [ProviderError];
    } else if upstreamAge >= stale {
      lines := lines + [UpstreamStale];
    } else if walletAge >= stale {
      lines := lines + [WalletStale];
    }
    if upstream - wallet > limits.behindBlocks {
      lines := lines + [Behind];
    }
  }

  /** `evaluate` as it runs, statement by statement. */
  method EvaluateLoop(wallet: nat, upstream: nat, now: int, saved: Option<State>, source: string, limits: Limits)
    returns (lines: seq<Signal>, state: State)
    ensures (lines, state) == Evaluate(wallet, upstream, now, saved, source, limits)
  {
    hide Advance, ReorgLines, Moved, Verdicts, Alerts, TrackOf, Age;
    var previous := if saved.Some? && saved.value.source == source then saved else None;
    var reorgs, observations, progress, recovered := Observe(previous, wallet, upstream, now);
    var walletAge, upstreamAge := Age(now, progress[Wallet].since), Age(now, progress[Upstream].since);
    var verdicts := Judge(wallet, upstream, walletAge, upstreamAge, limits);
    lines := reorgs + verdicts;
    var alerting := Alerts(verdicts);
    MovedHasPrevious(previous, wallet, upstream);
    if recovered && previous.value.alerting && !alerting {
      lines := lines + [Recovered];
    } else {
      assert lines + [] == lines;
    }
    state := State(source, Track(observations[Wallet], Some(progress[Wallet])),
      Track(observations[Upstream], Some(progress[Upstream])), alerting);
    lines := lines + [TipOk];
  }

  lemma MovedHasPrevious(state: Option<State>, wallet: nat, upstream: nat)
    ensures Moved(TrackOf(state, Wallet), wallet) || Moved(TrackOf(state, Upstream), upstream) ==> state.Some?
  {
  }

  // ------------------------------------------------------------ whole runs

  // What became of the saved state in one cycle. An unreadable one is never
  // written over; a dry run writes nothing.
  datatype Storage = Stored | WriteFailed | DryRun | Unreadable

  // One cycle of the observer: what it measured, and its dealings with the saved
  // state. A cycle without both heights never gets this far.
  datatype Sample = Sample(wallet: nat, upstream: nat, now: int, storage: Storage) {
    predicate Saves() {
      storage.Stored?
    }

    predicate Readable() {
      !storage.Unreadable?
    }

    predicate Fails() {
      storage.WriteFailed? || storage.Unreadable?
    }
  }

  function Height(sample: Sample, key: Key): nat {
    if key.Wallet? then sample.wallet else sample.upstream
  }

  // What a cycle evaluates from.
  function Read(state: Option<State>, sample: Sample): Option<State> {
    if sample.Readable() then state else None
  }

  function Evaluated(state: Option<State>, sample: Sample, source: string, limits: Limits): (seq<Signal>, State) {
    Evaluate(sample.wallet, sample.upstream, sample.now, Read(state, sample), source, limits)
  }

  function Cycle(state: Option<State>, sample: Sample, source: string, limits: Limits): Option<State> {
    if sample.Saves() then Some(Evaluated(state, sample, source, limits).1) else state
  }

  function WithoutOk(lines: seq<Signal>): (kept: seq<Signal>)
    ensures forall x :: x in kept <==> x in lines && x != TipOk
  {
    if lines == [] then []
    else
      assert lines == [lines[0]] + lines[1..];
      (if lines[0] == TipOk then [] else [lines[0]]) + WithoutOk(lines[1..])
  }

  // What a cycle prints: a state error is said before and after measuring when
  // the state was unreadable, and takes the final line away.
  function Printed(state: Option<State>, sample: Sample, source: string, limits: Limits): seq<Signal> {
    var lines := Evaluated(state, sample, source, limits).0;
    (if sample.Readable() then [] else [StateError])
    + if sample.Fails() then [StateError] + WithoutOk(lines) else lines
  }

  /** The end of `main`, from reading the state to the last line printed. */
  method Observed(saved: Option<State>, sample: Sample, source: string, limits: Limits)
    returns (printed: seq<Signal>, kept: Option<State>)
    ensures printed == Printed(saved, sample, source, limits)
    ensures kept == Cycle(saved, sample, source, limits)
  {
    hide Evaluate;
    printed, kept := [], saved;
    var previous := saved;
    var stateError := !sample.Readable();
    if stateError {
      previous := None;
      printed := printed + [StateError];
    }
    var lines, state := EvaluateLoop(sample.wallet, sample.upstream, sample.now, previous, source, limits);
    if !sample.storage.DryRun? && !stateError {
      stateError := sample.storage.WriteFailed?;
      if !stateError {
        kept := Some(state);
      }
    }
    if stateError {
      lines := [StateError] + WithoutOk(lines);
    }
    printed := printed + lines;
  }

  function Run(samples: seq<Sample>, source: string, limits: Limits): Option<State> {
    if samples == [] then None
    else Cycle(Run(samples[..|samples| - 1], source, limits), samples[|samples| - 1], source, limits)
  }

  // The highest height of the saved samples, and when it was first reached.
  ghost predicate IsHighWater(o: Observation, samples: seq<Sample>, key: Key) {
    exists k :: FirstReached(o, samples, key, k)
  }

  ghost predicate FirstReached(o: Observation, samples: seq<Sample>, key: Key, k: int) {
    && 0 <= k < |samples| && samples[k].Saves()
    && o == Observation(Height(samples[k], key), samples[k].now)
    && (forall j :: 0 <= j < |samples| && samples[j].Saves() ==> Height(samples[j], key) <= o.height)
    && forall j :: 0 <= j < k && samples[j].Saves() ==> Height(samples[j], key) < o.height
  }

  // The latest saved height and the start of its unbroken stretch.
  ghost predicate IsLatest(o: Observation, samples: seq<Sample>, key: Key) {
    exists k, l :: Stretch(o, samples, key, k, l)
  }

  ghost predicate Stretch(o: Observation, samples: seq<Sample>, key: Key, k: int, l: int) {
    && 0 <= k < |samples| && samples[k].Saves() && o.since == samples[k].now
    && -1 <= l < k
    && (forall j :: k <= j < |samples| && samples[j].Saves() ==> Height(samples[j], key) == o.height)
    && (forall j :: l < j < k ==> !samples[j].Saves())
    && (l >= 0 ==> samples[l].Saves() && Height(samples[l], key) != o.height)
  }

  predicate AnySaved(samples: seq<Sample>) {
    exists k :: 0 <= k < |samples| && samples[k].Saves()
  }

  // A saved track after these samples.
  ghost predicate Tracks(t: Track, samples: seq<Sample>, key: Key) {
    && t.progress.Some?
    && IsHighWater(t.progress.value, samples, key)
    && IsLatest(t.seen, samples, key)
  }

  lemma HighWaterStep(o: Observation, samples: seq<Sample>, key: Key, sample: Sample)
    requires IsHighWater(o, samples, key)
    ensures IsHighWater(
              if sample.Saves() && Height(sample, key) > o.height
              then Observation(Height(sample, key), sample.now) else o,
              samples + [sample], key)
  {
    var k :| FirstReached(o, samples, key, k);
    var higher := sample.Saves() && Height(sample, key) > o.height;
    var next := if higher then Observation(Height(sample, key), sample.now) else o;
    assert FirstReached(next, samples + [sample], key,
      if sample.Saves() && Height(sample, key) > o.height then |samples| else k);
  }

  lemma LatestStep(o: Observation, samples: seq<Sample>, key: Key, sample: Sample)
    requires IsLatest(o, samples, key)
    ensures IsLatest(
              if sample.Saves() && Height(sample, key) != o.height
              then Observation(Height(sample, key), sample.now) else o,
              samples + [sample], key)
  {
    var k, l :| Stretch(o, samples, key, k, l);
    var all := samples + [sample];
    if sample.Saves() && Height(sample, key) != o.height {
      var last := LastSaved(samples, k);
      assert Stretch(Observation(Height(sample, key), sample.now), all, key, |samples|, last);
    } else {
      assert Stretch(o, all, key, k, l);
    }
  }

  lemma LastSaved(samples: seq<Sample>, k: nat) returns (l: nat)
    requires k < |samples| && samples[k].Saves()
    ensures k <= l < |samples| && samples[l].Saves()
    ensures forall j :: l < j < |samples| ==> !samples[j].Saves()
    decreases |samples|
  {
    l := |samples| - 1;
    if !samples[l].Saves() {
      l := LastSaved(samples[..l], k);
    }
  }

  lemma HighWaterCoversLatest(t: Track, samples: seq<Sample>, key: Key)
    requires Tracks(t, samples, key)
    ensures t.seen.height <= t.progress.value.height
  {
    var k :| FirstReached(t.progress.value, samples, key, k);
    var i, l :| Stretch(t.seen, samples, key, i, l);
    assert Height(samples[i], key) == t.seen.height;
  }

  lemma TrackStep(t: Track, samples: seq<Sample>, key: Key, sample: Sample)
    requires Tracks(t, samples, key) && sample.Saves()
    ensures Tracks(Advance(Some(t), Height(sample, key), sample.now), samples + [sample], key)
  {
    HighWaterCoversLatest(t, samples, key);
    HighWaterStep(t.progress.value, samples, key, sample);
    LatestStep(t.seen, samples, key, sample);
  }

  lemma TrackKept(t: Track, samples: seq<Sample>, key: Key, sample: Sample)
    requires Tracks(t, samples, key) && !sample.Saves()
    ensures Tracks(t, samples + [sample], key)
  {
    HighWaterStep(t.progress.value, samples, key, sample);
    LatestStep(t.seen, samples, key, sample);
  }

  lemma TrackStart(samples: seq<Sample>, key: Key, sample: Sample)
    requires !AnySaved(samples) && sample.Saves()
    ensures Tracks(Advance(None, Height(sample, key), sample.now), samples + [sample], key)
  {
    var o := Observation(Height(sample, key), sample.now);
    assert FirstReached(o, samples + [sample], key, |samples|);
    assert Stretch(o, samples + [sample], key, |samples|, -1);
  }

  ghost predicate StateTracks(state: Option<State>, samples: seq<Sample>, source: string) {
    && (state.None? <==> !AnySaved(samples))
    && (state.Some? ==>
          && state.value.source == source
          && Tracks(state.value.wallet, samples, Wallet)
          && Tracks(state.value.upstream, samples, Upstream))
  }

  lemma AnySavedSnoc(samples: seq<Sample>, sample: Sample)
    ensures AnySaved(samples + [sample]) <==> AnySaved(samples) || sample.Saves()
  {
    if AnySaved(samples) {
      var k :| 0 <= k < |samples| && samples[k].Saves();
      assert (samples + [sample])[k].Saves();
    } else if sample.Saves() {
      assert (samples + [sample])[|samples|].Saves();
    }
  }

  lemma CycleTracks(state: Option<State>, samples: seq<Sample>, sample: Sample, source: string, limits: Limits)
    requires StateTracks(state, samples, source)
    ensures StateTracks(Cycle(state, sample, source, limits), samples + [sample], source)
  {
    hide Tracks, AnySaved, Verdicts, Alerts, ReorgLines, Advance;
    AnySavedSnoc(samples, sample);
    if !sample.Saves() {
      if state.Some? {
        TrackKept(state.value.wallet, samples, Wallet, sample);
        TrackKept(state.value.upstream, samples, Upstream, sample);
      }
    } else if state.Some? {
      TrackStep(state.value.wallet, samples, Wallet, sample);
      TrackStep(state.value.upstream, samples, Upstream, sample);
    } else {
      TrackStart(samples, Wallet, sample);
      TrackStart(samples, Upstream, sample);
    }
  }

  /** From an empty state and with one provider, the saved progress of each key is
      the highest height ever saved and the first time it was seen, and the saved
      observation is the latest height and the start of its unbroken stretch. */
  lemma {:induction false} RunTracks(samples: seq<Sample>, source: string, limits: Limits)
    ensures StateTracks(Run(samples, source, limits), samples, source)
    decreases |samples|
  {
    hide Cycle, Tracks;
    if samples != [] {
      var n := |samples| - 1;
      RunTracks(samples[..n], source, limits);
      CycleTracks(Run(samples[..n], source, limits), samples[..n], samples[n], source, limits);
      assert samples == samples[..n] + [samples[n]];
    }
  }

  lemma HighWaterIsUnique(o: Observation, p: Observation, samples: seq<Sample>, key: Key)
    requires IsHighWater(o, samples, key) && IsHighWater(p, samples, key)
    ensures o == p
  {
    var i :| FirstReached(o, samples, key, i);
    var j :| FirstReached(p, samples, key, j);
    assert Height(samples[i], key) == o.height && Height(samples[j], key) == p.height;
  }

  // What the last cycle of a run prints.
  function Lines(samples: seq<Sample>, source: string, limits: Limits): seq<Signal>
    requires samples != []
  {
    Printed(Run(samples[..|samples| - 1], source, limits), samples[|samples| - 1], source, limits)
  }

  lemma VerdictsOf(wallet: nat, upstream: nat, now: int, saved: Option<State>, source: string, limits: Limits)
    ensures var (lines, state) := Evaluate(wallet, upstream, now, saved, source, limits);
      var walletStale := Age(now, state.wallet.progress.value.since) >= limits.staleSeconds;
      var upstreamStale := Age(now, state.upstream.progress.value.since) >= limits.staleSeconds;
      && (ProviderError in lines <==> upstreamStale && !walletStale && wallet >= upstream)
      && (UpstreamStale in lines <==> upstreamStale && (walletStale || wallet < upstream))
      && (WalletStale in lines <==> !upstreamStale && walletStale)
      && (Behind in lines <==> upstream - wallet > limits.behindBlocks)
      && (TipOk in lines) && StateError !in lines
      && (state.alerting <==> UpstreamStale in lines || WalletStale in lines || Behind in lines)
  {
    hide Advance, Moved, Age, Alerts, ReorgLines, Verdicts, Previous;
    var (lines, state) := Evaluate(wallet, upstream, now, saved, source, limits);
    var walletAge := Age(now, state.wallet.progress.value.since);
    var upstreamAge := Age(now, state.upstream.progress.value.since);
    var verdicts := Verdicts(wallet, upstream, walletAge, upstreamAge, limits);
    var reorgs := ReorgLines(Previous(saved, source), wallet, upstream);
    var rest := lines[|reorgs| + |verdicts|..];
    assert rest == [Recovered, TipOk] || rest == [TipOk];
    assert lines == reorgs + verdicts + rest;
    AlertsOf(verdicts);
    OnlyReorgs(Previous(saved, source), wallet, upstream);
    VerdictMembers(wallet, upstream, walletAge, upstreamAge, limits);
    forall x: Signal ensures x in lines <==> x in reorgs || x in verdicts || x in rest {
      InParts(x, reorgs, verdicts, rest);
    }
  }

  lemma InParts<T>(x: T, a: seq<T>, b: seq<T>, c: seq<T>)
    ensures x in a + b + c <==> x in a || x in b || x in c
  {
  }

  lemma OnlyReorgs(state: Option<State>, wallet: nat, upstream: nat)
    ensures forall x :: x in ReorgLines(state, wallet, upstream) ==> x.Reorg?
    ensures Reorg(Wallet) in ReorgLines(state, wallet, upstream)
       <==> state.Some? && wallet < state.value.wallet.seen.height
    ensures Reorg(Upstream) in ReorgLines(state, wallet, upstream)
       <==> state.Some? && upstream < state.value.upstream.seen.height
  {
  }

  lemma VerdictMembers(wallet: nat, upstream: nat, walletAge: int, upstreamAge: int, limits: Limits)
    ensures var v := Verdicts(wallet, upstream, walletAge, upstreamAge, limits);
      var walletStale, upstreamStale := walletAge >= limits.staleSeconds, upstreamAge >= limits.staleSeconds;
      && (ProviderError in v <==> upstreamStale && !walletStale && wallet >= upstream)
      && (UpstreamStale in v <==> upstreamStale && (walletStale || wallet < upstream))
      && (WalletStale in v <==> !upstreamStale && walletStale)
      && (Behind in v <==> upstream - wallet > limits.behindBlocks)
      && forall x :: x in v ==> x in {ProviderError, UpstreamStale, WalletStale, Behind}
  {
  }

  lemma AlertsOf(lines: seq<Signal>)
    ensures Alerts(lines) <==> UpstreamStale in lines || WalletStale in lines || Behind in lines
  {
  }

  lemma PrintedLines(state: Option<State>, sample: Sample, source: string, limits: Limits)
    ensures var printed := Printed(state, sample, source, limits);
      var lines := Evaluated(state, sample, source, limits).0;
      && (forall x :: x != TipOk && x != StateError ==> (x in printed <==> x in lines))
      && (TipOk in lines ==> (TipOk in printed <==> !sample.Fails()))
      && (StateError !in lines ==> (StateError in printed <==> sample.Fails()))
      && (StateError !in lines ==> (SaidTwice(printed) <==> !sample.Readable()))
  {
    hide Evaluated;
    var printed := Printed(state, sample, source, limits);
    var lines := Evaluated(state, sample, source, limits).0;
    if sample.Readable() && sample.Fails() {
      assert |printed| > 1 ==> printed[1] in WithoutOk(lines);
    }
  }

  // The state error once before measuring and once after.
  predicate SaidTwice(lines: seq<Signal>) {
    |lines| > 1 && lines[0] == lines[1] == StateError
  }

  // The same samples, the last one counted with what was saved.
  function Counted(samples: seq<Sample>): seq<Sample>
    requires samples != []
  {
    samples[|samples| - 1 := samples[|samples| - 1].(storage := Stored)]
  }

  lemma UnreadIsFresh(wallet: nat, upstream: nat, now: int, source: string, limits: Limits)
    requires limits.staleSeconds > 0
    ensures var state := Evaluate(wallet, upstream, now, None, source, limits).1;
      && Age(now, state.wallet.progress.value.since) < limits.staleSeconds
      && Age(now, state.upstream.progress.value.since) < limits.staleSeconds
  {
  }

  // The clocks of a cycle that reads its state are those of the whole history.
  lemma ReadClocks(samples: seq<Sample>, source: string, limits: Limits, w: Observation, u: Observation)
    requires samples != [] && samples[|samples| - 1].Readable()
    requires IsHighWater(w, Counted(samples), Wallet) && IsHighWater(u, Counted(samples), Upstream)
    ensures var n := |samples| - 1;
      var state := Evaluated(Run(samples[..n], source, limits), samples[n], source, limits).1;
      state.wallet.progress.value == w && state.upstream.progress.value == u
  {
    hide Evaluate, IsHighWater, IsLatest, Age;
    var n := |samples| - 1;
    var front, last := samples[..n], samples[n];
    var shown := last.(storage := Stored);
    var state := Run(front, source, limits);
    assert Counted(samples) == front + [shown];
    RunTracks(front, source, limits);
    CycleTracks(state, front, shown, source, limits);
    var after := Evaluate(last.wallet, last.upstream, last.now, state, source, limits).1;
    HighWaterIsUnique(after.wallet.progress.value, w, front + [shown], Wallet);
    HighWaterIsUnique(after.upstream.progress.value, u, front + [shown], Upstream);
  }

  /** What every cycle of a run prints, said by history alone. With a readable
      state a key is stale exactly when its highest height was first reached
      `staleSeconds` ago, so no pattern of falls and rises below that height delays
      the verdict. With an unreadable one no cycle reports any staleness, however
      old the history: it says so by the state error in place of the final line. */
  lemma StaleMeansNoProgress(samples: seq<Sample>, source: string, limits: Limits, w: Observation, u: Observation)
    requires samples != []
    requires IsHighWater(w, Counted(samples), Wallet) && IsHighWater(u, Counted(samples), Upstream)
    requires samples[|samples| - 1].Readable() || limits.staleSeconds > 0
    ensures var lines := Lines(samples, source, limits);
      var last := samples[|samples| - 1];
      var walletStale := last.Readable() && Age(last.now, w.since) >= limits.staleSeconds;
      var upstreamStale := last.Readable() && Age(last.now, u.since) >= limits.staleSeconds;
      && (ProviderError in lines <==> upstreamStale && !walletStale && last.wallet >= last.upstream)
      && (UpstreamStale in lines <==> upstreamStale && (walletStale || last.wallet < last.upstream))
      && (WalletStale in lines <==> !upstreamStale && walletStale)
      && (Behind in lines <==> last.upstream - last.wallet > limits.behindBlocks)
      && (TipOk in lines <==> last.storage.Stored? || last.storage.DryRun?)
      && (StateError in lines <==> !(TipOk in lines))
  {
    hide Evaluate, IsHighWater, Age, Printed, Run;
    var n := |samples| - 1;
    var last := samples[n];
    var state := Run(samples[..n], source, limits);
    PrintedLines(state, last, source, limits);
    VerdictsOf(last.wallet, last.upstream, last.now, Read(state, last), source, limits);
    if last.Readable() {
      ReadClocks(samples, source, limits, w, u);
    } else {
      UnreadIsFresh(last.wallet, last.upstream, last.now, source, limits);
    }
  }

  // The last of the samples that was saved, or -1 when none was.
  predicate LastSavedAt(samples: seq<Sample>, m: int) {
    && -1 <= m < |samples|
    && (m >= 0 ==> samples[m].Saves())
    && forall j :: m < j < |samples| ==> !samples[j].Saves()
  }

  predicate Alarmed(lines: seq<Signal>) {
    UpstreamStale in lines || WalletStale in lines || Behind in lines
  }

  lemma MovementsOf(wallet: nat, upstream: nat, now: int, saved: Option<State>, source: string, limits: Limits)
    ensures var (lines, state) := Evaluate(wallet, upstream, now, saved, source, limits);
      var was := Previous(saved, source);
      && (Reorg(Wallet) in lines <==> was.Some? && wallet < was.value.wallet.seen.height)
      && (Reorg(Upstream) in lines <==> was.Some? && upstream < was.value.upstream.seen.height)
      && (Recovered in lines <==>
            && was.Some? && was.value.alerting && !state.alerting
            && (wallet > was.value.wallet.seen.height || upstream > was.value.upstream.seen.height))
  {
    hide Advance, Age, Alerts, Verdicts, Previous, ReorgLines, Fell;
    var (lines, state) := Evaluate(wallet, upstream, now, saved, source, limits);
    var was := Previous(saved, source);
    var walletAge := Age(now, state.wallet.progress.value.since);
    var upstreamAge := Age(now, state.upstream.progress.value.since);
    var verdicts := Verdicts(wallet, upstream, walletAge, upstreamAge, limits);
    var reorgs := ReorgLines(was, wallet, upstream);
    var recovered := Moved(TrackOf(was, Wallet), wallet) || Moved(TrackOf(was, Upstream), upstream);
    var rest := (if recovered && was.value.alerting && !state.alerting then [Recovered] else []) + [TipOk];
    assert lines == reorgs + verdicts + rest;
    OnlyReorgs(was, wallet, upstream);
    VerdictMembers(wallet, upstream, walletAge, upstreamAge, limits);
    InParts(Recovered, reorgs, verdicts, rest);
    InParts(Reorg(Wallet), reorgs, verdicts, rest);
    InParts(Reorg(Upstream), reorgs, verdicts, rest);
  }

  // Cycles that save nothing leave what the last saved one left.
  lemma {:induction false} RunRests(samples: seq<Sample>, m: int, source: string, limits: Limits)
    requires LastSavedAt(samples, m)
    ensures Run(samples, source, limits)
         == if m < 0 then None else Some(Evaluated(Run(samples[..m], source, limits), samples[m], source, limits).1)
    decreases |samples|
  {
    hide Evaluated;
    var n := |samples| - 1;
    if samples != [] && m < n {
      RunRests(samples[..n], m, source, limits);
      assert m >= 0 ==> samples[..n][..m] == samples[..m];
    }
  }

  /** The other lines of every cycle of a run. A fall is printed for a key exactly
      when it stands below the height last saved, and a recovery exactly when a key
      stands above it, the cycle that saved it raised an alarm and this one raises
      none; an unreadable state hides both. */
  lemma MovementMeans(samples: seq<Sample>, m: int, key: Key, source: string, limits: Limits)
    requires samples != [] && LastSavedAt(samples[..|samples| - 1], m)
    ensures var lines := Lines(samples, source, limits);
      var last := samples[|samples| - 1];
      && (Reorg(key) in lines <==> last.Readable() && m >= 0 && Height(last, key) < Height(samples[m], key))
      && (Recovered in lines <==>
            && last.Readable() && m >= 0 && Alarmed(Lines(samples[..m + 1], source, limits)) && !Alarmed(lines)
            && (last.wallet > samples[m].wallet || last.upstream > samples[m].upstream))
      && (SaidTwice(lines) <==> !last.Readable())
  {
    hide Evaluate, Printed, Run, Alarmed, SaidTwice;
    var n := |samples| - 1;
    var last := samples[n];
    var state := Run(samples[..n], source, limits);
    PrintedLines(state, last, source, limits);
    VerdictsOf(last.wallet, last.upstream, last.now, Read(state, last), source, limits);
    MovementsOf(last.wallet, last.upstream, last.now, Read(state, last), source, limits);
    RunRests(samples[..n], m, source, limits);
    SavedMeans(state, last, source, limits);
    if m >= 0 {
      assert samples[..n][..m] == samples[..m + 1][..m] == samples[..m];
      SavedMeans(Run(samples[..m], source, limits), samples[m], source, limits);
    }
  }

  lemma SameAlarms(state: Option<State>, sample: Sample, source: string, limits: Limits)
    ensures Alarmed(Printed(state, sample, source, limits)) <==> Alarmed(Evaluated(state, sample, source, limits).0)
  {
    hide Evaluated, Printed;
    PrintedLines(state, sample, source, limits);
  }

  // What a cycle leaves to the next: its heights, and whether it raised an alarm.
  lemma SavedMeans(state: Option<State>, sample: Sample, source: string, limits: Limits)
    ensures var after := Evaluated(state, sample, source, limits).1;
      && after.source == source
      && after.wallet.seen.height == sample.wallet && after.upstream.seen.height == sample.upstream
      && (after.alerting <==> Alarmed(Printed(state, sample, source, limits)))
  {
    hide Printed, Verdicts, Alerts, ReorgLines, Progress;
    SameAlarms(state, sample, source, limits);
    VerdictsOf(sample.wallet, sample.upstream, sample.now, Read(state, sample), source, limits);
  }

  predicate SaysStale(lines: seq<Signal>) {
    UpstreamStale in lines || WalletStale in lines || ProviderError in lines
  }

  /** A history without progress is reported in a cycle if and only if the cycle
      can read its saved state. */
  lemma StalenessNeedsState(samples: seq<Sample>, source: string, limits: Limits, w: Observation, u: Observation)
    requires samples != [] && limits.staleSeconds > 0
    requires IsHighWater(w, Counted(samples), Wallet) && IsHighWater(u, Counted(samples), Upstream)
    requires var now := samples[|samples| - 1].now;
      Age(now, w.since) >= limits.staleSeconds || Age(now, u.since) >= limits.staleSeconds
    ensures SaysStale(Lines(samples, source, limits)) <==> samples[|samples| - 1].Readable()
  {
    hide IsHighWater, Age, Lines;
    StaleMeansNoProgress(samples, source, limits, w, u);
  }

  lemma UnreadableIsSilent(state: Option<State>, sample: Sample, source: string, limits: Limits)
    requires !sample.Readable() && limits.staleSeconds > 0
    ensures !SaysStale(Printed(state, sample, source, limits))
  {
    hide Evaluate, Printed, Age;
    PrintedLines(state, sample, source, limits);
    VerdictsOf(sample.wallet, sample.upstream, sample.now, None, source, limits);
    UnreadIsFresh(sample.wallet, sample.upstream, sample.now, source, limits);
  }

  /** Nor does it get better by itself: cycles that cannot read the state leave it
      as it is, and none of them reports staleness. */
  lemma {:induction false} UnreadableStays(samples: seq<Sample>, more: seq<Sample>, source: string, limits: Limits)
    requires (forall i :: 0 <= i < |more| ==> !more[i].Readable()) && limits.staleSeconds > 0
    ensures Run(samples + more, source, limits) == Run(samples, source, limits)
    ensures more != [] ==> !SaysStale(Lines(samples + more, source, limits))
    decreases |more|
  {
    hide Evaluated, Printed, SaysStale;
    if more == [] {
      assert samples + more == samples;
    } else {
      var n := |more| - 1;
      UnreadableStays(samples, more[..n], source, limits);
      assert (samples + more)[..|samples| + n] == samples + more[..n];
      UnreadableIsSilent(Run(samples + more[..n], source, limits), more[n], source, limits);
    }
  }

  /** A provider that stands still for a day is not reported when the saved file
      was damaged meanwhile. */
  lemma DamagedStateHidesStaleness(storage: Storage)
    ensures var samples := [Sample(100, 100, 0, Stored), Sample(100, 100, 86_400, storage)];
      UpstreamStale in Lines(samples, "provider", Limits(1200, 10)) <==> storage != Unreadable
  {
    hide Lines, Age;
    var samples := [Sample(100, 100, 0, Stored), Sample(100, 100, 86_400, storage)];
    var o := Observation(100, 0);
    assert FirstReached(o, Counted(samples), Wallet, 0) && FirstReached(o, Counted(samples), Upstream, 0);
    assert Age(86_400, 0) == 86_400 by { AgeIs(86_400, 0); }
    StaleMeansNoProgress(samples, "provider", Limits(1200, 10), o, o);
  }

  lemma AgeIs(now: int, since: int)
    requires since <= now
    ensures Age(now, since) == now - since
  {
  }

  /** A state from an older version counts its observation as progress, unless
      the very next height is lower: then the key starts over. */
  lemma OlderStateIsEither(o: Observation, height: nat, now: int)
    ensures height >= o.height ==>
      Advance(Some(Track(o, None)), height, now) == Advance(Some(Track(o, Some(o))), height, now)
    ensures height < o.height ==> Advance(Some(Track(o, None)), height, now) == Advance(None, height, now)
  {
  }

  /** Another provider's history never counts. */
  lemma SourceChangeStartsOver(wallet: nat, upstream: nat, now: int, saved: State, source: string, limits: Limits)
    requires saved.source != source
    ensures Evaluate(wallet, upstream, now, Some(saved), source, limits)
         == Evaluate(wallet, upstream, now, None, source, limits)
  {
  }

  // ---------------------------------------------------------------- budgets

  const DEFAULT_OUTER_TIMEOUT: int := 30
  const DEFAULT_GRPC_TIMEOUT: int := 15
  const DEFAULT_WALLET_TIMEOUT: int := 5
  const OBSERVER_CLEANUP_MARGIN: int := 5

  datatype Budgets = Budgets(outer: int, grpc: int, wallet: int)

  /** Whatever is configured, both inner calls and the cleanup fit the outer
      deadline, and the wallet keeps its whole default time. What is configured
      is kept exactly when it fits. */
  function ObserverBudgets(outerTimeout: int, grpcTimeout: int): (b: Budgets)
    ensures b.grpc >= 1 && b.wallet == 5 && b.grpc + b.wallet + 5 < b.outer
    ensures b.outer >= 30 && b.outer >= outerTimeout && b.outer in {30, outerTimeout}
    ensures if 1 <= grpcTimeout && grpcTimeout + 10 < b.outer then b.grpc == grpcTimeout else b.grpc == 15
  {
    var outer := Max(DEFAULT_OUTER_TIMEOUT, outerTimeout);
    var grpc :=
      if grpcTimeout < 1 || grpcTimeout + DEFAULT_WALLET_TIMEOUT + OBSERVER_CLEANUP_MARGIN >= outer
      then DEFAULT_GRPC_TIMEOUT else grpcTimeout;
    Budgets(outer, grpc, Min(DEFAULT_WALLET_TIMEOUT, Max(1, outer - grpc - OBSERVER_CLEANUP_MARGIN)))
  }
}
