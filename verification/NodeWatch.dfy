// The node health cycle: the tip clock and the restart window it keeps across
// cycles, one line per service, and when the heartbeat may be printed.
module NodeWatch {
  import opened Common

  datatype Tip = Tip(height: nat, since: int)

  datatype Entry = Entry(at: int, counts: map<string, int>)

  datatype State = State(tip: Option<Tip>, restarts: seq<Entry>)

  // What one cycle observed; the serving floor and the end of support come with
  // their lines, and the floor possibly with a failure of the service itself.
  datatype Sample = Sample(
    now: int, rpcFailure: Option<string>, tip: Option<nat>, network: Option<int>, containers: map<string, int>,
    lwdFailure: Option<string>, floorLines: seq<string>, floorFailure: Option<string>, supportLines: seq<string>)

  datatype Limits = Limits(
    staleSeconds: int, behindBlocks: int, window: int, threshold: int, node: string, lightwalletd: string)

  datatype Signal = RpcUnhealthy | LightwalletdUnhealthy

  datatype Line =
    | Service(signal: Signal, reason: string) | TipStale | TipBehind | RestartLoop(name: string) | Info(text: string)
    | CycleOk

  // -------------------------------------------------- one line per service

  const ALSO: string := "; also: "

  // The line of a service already printed this cycle, by signal.
  datatype Folded = Folded(out: seq<Line>, seen: map<Signal, nat>)

  predicate IsOf(line: Line, signal: Signal) {
    line.Service? && line.signal == signal
  }

  // `seen` finds the only line of each service.
  ghost predicate Indexed(f: Folded) {
    && (forall s :: s in f.seen ==> f.seen[s] < |f.out| && IsOf(f.out[f.seen[s]], s))
    && forall i :: 0 <= i < |f.out| && f.out[i].Service? ==> f.out[i].signal in f.seen && f.seen[f.out[i].signal] == i
  }

  function FoldOne(f: Folded, line: Line): (next: Folded)
    requires Indexed(f)
    ensures Indexed(next)
  {
    if !line.Service? then Folded(f.out + [line], f.seen)
    else if line.signal in f.seen then
      var at := f.seen[line.signal];
      Folded(f.out[at := Service(line.signal, f.out[at].reason + ALSO + line.reason)], f.seen)
    else Folded(f.out + [line], f.seen[line.signal := |f.out|])
  }

  function FoldAll(lines: seq<Line>): (f: Folded)
    ensures Indexed(f)
  {
    if lines == [] then Folded([], map[]) else FoldOne(FoldAll(lines[..|lines| - 1]), lines[|lines| - 1])
  }

  /** `_one_line_per_service` as its loop runs. */
  method OneLinePerService(lines: seq<Line>) returns (out: seq<Line>)
    ensures out == FoldAll(lines).out
  {
    var seen: map<Signal, nat> := map[];
    out := [];
    for i := 0 to |lines|
      invariant Folded(out, seen) == FoldAll(lines[..i])
    {
      var line := lines[i];
      assert lines[..i + 1][..i] == lines[..i];
      if !line.Service? {
        out := out + [line];
        continue;
      }
      if line.signal in seen {
        var at := seen[line.signal];
        out := out[at := Service(line.signal, out[at].reason + ALSO + line.reason)];
        continue;
      }
      seen := seen[line.signal := |out|];
      out := out + [line];
    }
    assert lines[..|lines|] == lines;
  }

  // All reasons given for a signal, in order, or None without one.
  function Said(lines: seq<Line>, signal: Signal): Option<string> {
    if lines == [] then None
    else
      var before, last := Said(lines[..|lines| - 1], signal), lines[|lines| - 1];
      if !IsOf(last, signal) then before
      else if before.None? then Some(last.reason)
      else Some(before.value + ALSO + last.reason)
  }

  // The reasons themselves, and what a line says that gives them all.
  function Reasons(lines: seq<Line>, signal: Signal): seq<string> {
    if lines == [] then []
    else
      var last := lines[|lines| - 1];
      Reasons(lines[..|lines| - 1], signal) + if IsOf(last, signal) then [last.reason] else []
  }

  function Joined(reasons: seq<string>): Option<string> {
    if reasons == [] then None
    else if |reasons| == 1 then Some(reasons[0])
    else Some(Joined(reasons[..|reasons| - 1]).value + "; also: " + reasons[|reasons| - 1])
  }

  lemma {:induction false} JoinedSnoc(reasons: seq<string>, last: string)
    ensures Joined(reasons + [last])
         == Some(if reasons == [] then last else Joined(reasons).value + "; also: " + last)
  {
    assert (reasons + [last])[..|reasons|] == reasons;
  }

  lemma {:induction false} SaidJoins(lines: seq<Line>, signal: Signal)
    ensures Said(lines, signal) == Joined(Reasons(lines, signal))
    decreases |lines|
  {
    hide Joined;
    assert Joined([]) == None by { JoinedNothing(); }
    if lines != [] {
      var front, last := lines[..|lines| - 1], lines[|lines| - 1];
      SaidJoins(front, signal);
      if IsOf(last, signal) {
        JoinedSnoc(Reasons(front, signal), last.reason);
        JoinedSome(Reasons(front, signal));
      } else {
        assert Reasons(front, signal) + [] == Reasons(front, signal);
      }
    }
  }

  lemma JoinedNothing()
    ensures Joined([]) == None
  {
  }

  lemma JoinedSome(reasons: seq<string>)
    ensures Joined(reasons).None? <==> reasons == []
  {
  }

  lemma {:induction false} ReasonsConcat(a: seq<Line>, b: seq<Line>, signal: Signal)
    ensures Reasons(a + b, signal) == Reasons(a, signal) + Reasons(b, signal)
    decreases |b|
  {
    if b == [] {
      assert a + b == a;
    } else {
      var n := |b| - 1;
      assert (a + b)[..|a| + n] == a + b[..n];
      ReasonsConcat(a, b[..n], signal);
    }
  }

  lemma {:induction false} NoReasons(lines: seq<Line>, signal: Signal)
    requires forall x :: x in lines ==> !x.Service?
    ensures Reasons(lines, signal) == []
    decreases |lines|
  {
    if lines != [] {
      assert lines[|lines| - 1] in lines;
      NoReasons(lines[..|lines| - 1], signal);
    }
  }

  // The lines that belong to no service, in order.
  function Plain(lines: seq<Line>): seq<Line> {
    if lines == [] then []
    else Plain(lines[..|lines| - 1]) + if lines[|lines| - 1].Service? then [] else [lines[|lines| - 1]]
  }

  predicate AtMostOnce(lines: seq<Line>) {
    forall i, j :: 0 <= i < j < |lines| && lines[i].Service? && lines[j].Service? ==> lines[i].signal != lines[j].signal
  }

  lemma SaidSnoc(lines: seq<Line>, last: Line, signal: Signal)
    ensures Said(lines + [last], signal) ==
      if !IsOf(last, signal) then Said(lines, signal)
      else if Said(lines, signal).None? then Some(last.reason)
      else Some(Said(lines, signal).value + ALSO + last.reason)
  {
    assert (lines + [last])[..|lines|] == lines;
  }

  lemma PlainSnoc(lines: seq<Line>, last: Line)
    ensures Plain(lines + [last]) == Plain(lines) + if last.Service? then [] else [last]
  {
    assert (lines + [last])[..|lines|] == lines;
  }

  lemma {:induction false} SaidOnce(lines: seq<Line>, signal: Signal, at: nat)
    requires at < |lines| && IsOf(lines[at], signal)
    requires forall i :: 0 <= i < |lines| && i != at ==> !IsOf(lines[i], signal)
    ensures Said(lines, signal) == Some(lines[at].reason)
    decreases |lines|
  {
    var n := |lines| - 1;
    if at < n {
      SaidOnce(lines[..n], signal, at);
    } else {
      SaidNever(lines[..n], signal);
    }
  }

  lemma {:induction false} SaidNever(lines: seq<Line>, signal: Signal)
    requires forall i :: 0 <= i < |lines| ==> !IsOf(lines[i], signal)
    ensures Said(lines, signal) == None
    decreases |lines|
  {
    if lines != [] {
      SaidNever(lines[..|lines| - 1], signal);
    }
  }

  lemma {:induction false} PlainUpdate(lines: seq<Line>, at: nat, line: Line)
    requires at < |lines| && lines[at].Service? && line.Service?
    ensures Plain(lines[at := line]) == Plain(lines)
    decreases |lines|
  {
    var n := |lines| - 1;
    if at < n {
      assert lines[at := line][..n] == lines[..n][at := line];
      PlainUpdate(lines[..n], at, line);
    } else {
      assert lines[at := line][..n] == lines[..n];
    }
  }

  lemma SaidIndexed(f: Folded, signal: Signal)
    requires Indexed(f)
    ensures Said(f.out, signal) == if signal in f.seen then Some(f.out[f.seen[signal]].reason) else None
  {
    if signal in f.seen {
      SaidOnce(f.out, signal, f.seen[signal]);
    } else {
      SaidNever(f.out, signal);
    }
  }

  lemma FoldOneKeeps(f: Folded, line: Line, signal: Signal)
    requires Indexed(f)
    ensures Plain(FoldOne(f, line).out) == Plain(f.out) + if line.Service? then [] else [line]
    ensures Said(FoldOne(f, line).out, signal) == Said(f.out + [line], signal)
  {
    hide Said, Plain;
    PlainSnoc(f.out, line);
    SaidSnoc(f.out, line, signal);
    SaidIndexed(f, signal);
    SaidIndexed(FoldOne(f, line), signal);
    if line.Service? && line.signal in f.seen {
      PlainUpdate(f.out, f.seen[line.signal], FoldOne(f, line).out[f.seen[line.signal]]);
    }
  }

  /** Folding leaves at most one line per service, keeps every reason of every
      service in order, and keeps all other lines as they were. */
  lemma {:induction false} FoldKeeps(lines: seq<Line>, signal: Signal)
    ensures AtMostOnce(FoldAll(lines).out)
    ensures Plain(FoldAll(lines).out) == Plain(lines)
    ensures Said(FoldAll(lines).out, signal) == Said(lines, signal)
    decreases |lines|
  {
    hide Said, Plain, FoldOne;
    if lines == [] {
      assert FoldAll(lines).out == lines;
    } else {
      var n := |lines| - 1;
      var f := FoldAll(lines[..n]);
      FoldKeeps(lines[..n], signal);
      FoldOneKeeps(f, lines[n], signal);
      assert lines == lines[..n] + [lines[n]];
      PlainSnoc(lines[..n], lines[n]);
      SaidSnoc(lines[..n], lines[n], signal);
      SaidSnoc(f.out, lines[n], signal);
    }
  }

  // --------------------------------------------------------------- one cycle

  function NextTip(previous: Option<Tip>, sample: Sample): Option<Tip> {
    if sample.tip.None? then previous
    else if previous.None? || previous.value.height != sample.tip.value then Some(Tip(sample.tip.value, sample.now))
    else previous
  }

  predicate IsStale(previous: Option<Tip>, sample: Sample, limits: Limits) {
    && sample.tip.Some? && previous.Some? && previous.value.height == sample.tip.value
    && sample.now - previous.value.since >= limits.staleSeconds
  }

  predicate IsBehind(sample: Sample, limits: Limits) {
    sample.tip.Some? && sample.network.Some? && sample.network.value - sample.tip.value > limits.behindBlocks
  }

  // The entries at or after a time.
  function Since(entries: seq<Entry>, from: int): seq<Entry> {
    if entries == [] then []
    else Since(entries[..|entries| - 1], from)
         + if entries[|entries| - 1].at >= from then [entries[|entries| - 1]] else []
  }

  function NextHistory(previous: seq<Entry>, sample: Sample, limits: Limits): seq<Entry> {
    Since(previous + [Entry(sample.now, sample.containers)], sample.now - 4 * limits.window)
  }

  // The restart count in the latest entry at or before `cutoff` that lists `name`.
  function Baseline(history: seq<Entry>, cutoff: int, name: string): Option<int> {
    if history == [] then None
    else
      var last := history[|history| - 1];
      if last.at <= cutoff && name in last.counts then Some(last.counts[name])
      else Baseline(history[..|history| - 1], cutoff, name)
  }

  predicate Grew(history: seq<Entry>, sample: Sample, limits: Limits, name: string) {
    var baseline := Baseline(history, sample.now - limits.window, name);
    name in sample.containers && baseline.Some? && sample.containers[name] - baseline.value >= limits.threshold
  }

  function ContainerLines(history: seq<Entry>, sample: Sample, limits: Limits, name: string, signal: Signal)
    : seq<Line>
  {
    if name !in sample.containers then
      [Service(signal, "container " + name + " is not present in docker inspect output")]
    else if Grew(history, sample, limits, name) then [RestartLoop(name)]
    else []
  }

  function Infos(texts: seq<string>): (lines: seq<Line>)
    ensures |lines| == |texts| && forall i :: 0 <= i < |lines| ==> lines[i] == Info(texts[i])
  {
    seq(|texts|, i requires 0 <= i < |texts| => Info(texts[i]))
  }

  function Failure(reason: Option<string>, signal: Signal): seq<Line> {
    if reason.Some? then [Service(signal, reason.value)] else []
  }

  // Everything a cycle has to say before the heartbeat.
  function Findings(tip: Option<Tip>, history: seq<Entry>, sample: Sample, limits: Limits): seq<Line> {
    Failure(sample.rpcFailure, RpcUnhealthy)
    + (if IsStale(tip, sample, limits) then [TipStale] else [])
    + (if IsBehind(sample, limits) then [TipBehind] else [])
    + ContainerLines(history, sample, limits, limits.node, RpcUnhealthy)
    + ContainerLines(history, sample, limits, limits.lightwalletd, LightwalletdUnhealthy)
    + Failure(sample.lwdFailure, LightwalletdUnhealthy)
    + Infos(sample.floorLines)
    + Failure(sample.floorFailure, LightwalletdUnhealthy)
    + Infos(sample.supportLines)
  }

  predicate Healthy(tip: Option<Tip>, history: seq<Entry>, sample: Sample, limits: Limits) {
    && sample.rpcFailure.None? && sample.lwdFailure.None? && sample.floorFailure.None?
    && !IsStale(tip, sample, limits) && !IsBehind(sample, limits)
    && ContainerLines(history, sample, limits, limits.node, RpcUnhealthy) == []
    && ContainerLines(history, sample, limits, limits.lightwalletd, LightwalletdUnhealthy) == []
  }

  function Evaluate(sample: Sample, previous: Option<State>, limits: Limits): (seq<Line>, State) {
    var tip := if previous.Some? then previous.value.tip else None;
    var history := NextHistory(if previous.Some? then previous.value.restarts else [], sample, limits);
    (FoldAll(Findings(tip, history, sample, limits)).out
       + (if Healthy(tip, history, sample, limits) then [CycleOk] else []),
     State(NextTip(tip, sample), history))
  }

  // -------------------------------------------------------- the code's loops

  // The search for the baseline walks the whole history and keeps the last fit.
  method FindBaseline(history: seq<Entry>, cutoff: int, name: string) returns (baseline: Option<int>)
    ensures baseline == Baseline(history, cutoff, name)
  {
    baseline := None;
    for i := 0 to |history|
      invariant baseline == Baseline(history[..i], cutoff, name)
    {
      assert history[..i + 1][..i] == history[..i];
      if history[i].at <= cutoff && name in history[i].counts {
        baseline := Some(history[i].counts[name]);
      }
    }
    assert history[..|history|] == history;
  }

  // The loop over the two containers.
  method CheckContainers(history: seq<Entry>, sample: Sample, limits: Limits)
    returns (lines: seq<Line>, healthy: bool)
    ensures lines == ContainerLines(history, sample, limits, limits.node, RpcUnhealthy)
                   + ContainerLines(history, sample, limits, limits.lightwalletd, LightwalletdUnhealthy)
    ensures healthy <==> lines == []
  {
    var names, signals := [limits.node, limits.lightwalletd], [RpcUnhealthy, LightwalletdUnhealthy];
    lines, healthy := [], true;
    for i := 0 to 2
      invariant lines == (if i > 0 then ContainerLines(history, sample, limits, limits.node, RpcUnhealthy) else [])
        + (if i > 1 then ContainerLines(history, sample, limits, limits.lightwalletd, LightwalletdUnhealthy) else [])
      invariant healthy <==> lines == []
    {
      var name := names[i];
      if name !in sample.containers {
        healthy := false;
        lines := lines + [Service(signals[i], "container " + name + " is not present in docker inspect output")];
        continue;
      }
      var baseline := FindBaseline(history, sample.now - limits.window, name);
      if baseline.None? {
        continue;
      }
      if sample.containers[name] - baseline.value >= limits.threshold {
        healthy := false;
        lines := lines + [RestartLoop(name)];
      }
    }
  }

  /** `evaluate`, with its findings and its health gathered line by line. */
  method EvaluateLoop(sample: Sample, previous: Option<State>, limits: Limits) returns (lines: seq<Line>, state: State)
    ensures (lines, state) == Evaluate(sample, previous, limits)
  {
    hide ContainerLines, IsStale, IsBehind, NextHistory, FoldAll;
    var tip := if previous.Some? then previous.value.tip else None;
    var history := NextHistory(if previous.Some? then previous.value.restarts else [], sample, limits);
    var healthy := true;
    lines := Failure(sample.rpcFailure, RpcUnhealthy);
    if sample.rpcFailure.Some? {
      healthy := false;
    }
    if IsStale(tip, sample, limits) {
      healthy := false;
      lines := lines + [TipStale];
    } else {
      assert lines + [] == lines;
    }
    if IsBehind(sample, limits) {
      healthy := false;
      lines := lines + [TipBehind];
    } else {
      assert lines + [] == lines;
    }
    ghost var before := lines;
    var containers, present := CheckContainers(history, sample, limits);
    lines := lines + containers;
    assert lines == before + ContainerLines(history, sample, limits, limits.node, RpcUnhealthy)
                  + ContainerLines(history, sample, limits, limits.lightwalletd, LightwalletdUnhealthy);
    healthy := healthy && present;
    lines := lines + Failure(sample.lwdFailure, LightwalletdUnhealthy) + Infos(sample.floorLines);
    if sample.lwdFailure.Some? || sample.floorFailure.Some? {
      healthy := false;
    }
    lines := lines + Failure(sample.floorFailure, LightwalletdUnhealthy) + Infos(sample.supportLines);
    lines := OneLinePerService(lines);
    if healthy {
      lines := lines + [CycleOk];
    } else {
      assert lines + [] == lines;
    }
    state := State(NextTip(tip, sample), history);
  }

  // ---------------------------------------------------------- the heartbeat

  lemma {:induction false} FoldMembers(lines: seq<Line>)
    ensures (exists x :: x in FoldAll(lines).out && x.Service?) <==> (exists x :: x in lines && x.Service?)
    ensures forall x: Line :: !x.Service? ==> (x in FoldAll(lines).out <==> x in lines)
    decreases |lines|
  {
    if lines != [] {
      var n := |lines| - 1;
      FoldMembers(lines[..n]);
      assert lines == lines[..n] + [lines[n]];
      FoldOneMembers(FoldAll(lines[..n]), lines[n]);
    }
  }

  lemma FoldOneMembers(f: Folded, line: Line)
    requires Indexed(f)
    ensures var out := FoldOne(f, line).out;
      && ((exists x :: x in out && x.Service?) <==> (exists x :: x in f.out && x.Service?) || line.Service?)
      && forall x: Line :: !x.Service? ==> (x in out <==> x in f.out + [line])
  {
    var out := FoldOne(f, line).out;
    if line.Service? && line.signal in f.seen {
      var at := f.seen[line.signal];
      assert out[at] in out && f.out[at] in f.out;
      forall x: Line | !x.Service? ensures x in out <==> x in f.out {
        if x in f.out {
          var i :| 0 <= i < |f.out| && f.out[i] == x;
          assert out[i] == x;
        }
      }
    } else {
      assert out == f.out + [line];
      assert line in out;
    }
  }

  predicate All(lines: seq<Line>, p: Line -> bool) {
    forall x :: x in lines ==> p(x)
  }

  lemma AllConcat(a: seq<Line>, b: seq<Line>, p: Line -> bool)
    ensures All(a + b, p) <==> All(a, p) && All(b, p)
  {
    assert forall x :: x in a + b <==> x in a || x in b;
  }

  // A property holds of all findings when it holds of every part of them.
  lemma AllFindings(tip: Option<Tip>, history: seq<Entry>, sample: Sample, limits: Limits, p: Line -> bool)
    ensures All(Findings(tip, history, sample, limits), p) <==>
      && All(Failure(sample.rpcFailure, RpcUnhealthy), p)
      && All(if IsStale(tip, sample, limits) then [TipStale] else [], p)
      && All(if IsBehind(sample, limits) then [TipBehind] else [], p)
      && All(ContainerLines(history, sample, limits, limits.node, RpcUnhealthy), p)
      && All(ContainerLines(history, sample, limits, limits.lightwalletd, LightwalletdUnhealthy), p)
      && All(Failure(sample.lwdFailure, LightwalletdUnhealthy), p)
      && All(Infos(sample.floorLines), p)
      && All(Failure(sample.floorFailure, LightwalletdUnhealthy), p)
      && All(Infos(sample.supportLines), p)
  {
    hide All, Failure, IsStale, IsBehind, ContainerLines, Infos;
    var a := Failure(sample.rpcFailure, RpcUnhealthy);
    var b := if IsStale(tip, sample, limits) then [TipStale] else [];
    var c := if IsBehind(sample, limits) then [TipBehind] else [];
    var d := ContainerLines(history, sample, limits, limits.node, RpcUnhealthy);
    var e := ContainerLines(history, sample, limits, limits.lightwalletd, LightwalletdUnhealthy);
    var f := Failure(sample.lwdFailure, LightwalletdUnhealthy);
    var g := Infos(sample.floorLines);
    var h := Failure(sample.floorFailure, LightwalletdUnhealthy);
    AllConcat(a, b, p);
    AllConcat(a + b, c, p);
    AllConcat(a + b + c, d, p);
    AllConcat(a + b + c + d, e, p);
    AllConcat(a + b + c + d + e, f, p);
    AllConcat(a + b + c + d + e + f, g, p);
    AllConcat(a + b + c + d + e + f + g, h, p);
    AllConcat(a + b + c + d + e + f + g + h, Infos(sample.supportLines), p);
  }

  lemma FailureInforms(reason: Option<string>, signal: Signal)
    ensures All(Failure(reason, signal), (x: Line) => x.Info?) <==> reason.None?
    ensures All(Failure(reason, signal), (x: Line) => x != CycleOk)
  {
    assert reason.Some? ==> Service(signal, reason.value) in Failure(reason, signal);
  }

  lemma OneInforms(line: Line, said: bool)
    requires !line.Info? && line != CycleOk
    ensures All(if said then [line] else [], (x: Line) => x.Info?) <==> !said
    ensures All(if said then [line] else [], (x: Line) => x != CycleOk)
  {
    assert line in [line];
  }

  lemma ContainersInform(history: seq<Entry>, sample: Sample, limits: Limits, name: string, signal: Signal)
    ensures var lines := ContainerLines(history, sample, limits, name, signal);
      (All(lines, (x: Line) => x.Info?) <==> lines == []) && All(lines, (x: Line) => x != CycleOk)
  {
    hide Grew;
    var lines := ContainerLines(history, sample, limits, name, signal);
    assert lines != [] ==> lines[0] in lines;
  }

  lemma HealthyFindings(tip: Option<Tip>, history: seq<Entry>, sample: Sample, limits: Limits)
    ensures Healthy(tip, history, sample, limits) <==> All(Findings(tip, history, sample, limits), (x: Line) => x.Info?)
    ensures All(Findings(tip, history, sample, limits), (x: Line) => x != CycleOk)
  {
    hide Findings, ContainerLines, Failure, IsStale, IsBehind;
    AllFindings(tip, history, sample, limits, (x: Line) => x.Info?);
    AllFindings(tip, history, sample, limits, (x: Line) => x != CycleOk);
    FailureInforms(sample.rpcFailure, RpcUnhealthy);
    FailureInforms(sample.lwdFailure, LightwalletdUnhealthy);
    FailureInforms(sample.floorFailure, LightwalletdUnhealthy);
    OneInforms(TipStale, IsStale(tip, sample, limits));
    OneInforms(TipBehind, IsBehind(sample, limits));
    ContainersInform(history, sample, limits, limits.node, RpcUnhealthy);
    ContainersInform(history, sample, limits, limits.lightwalletd, LightwalletdUnhealthy);
  }

  /** The heartbeat is printed exactly when every other line only informs. */
  lemma HeartbeatIff(sample: Sample, previous: Option<State>, limits: Limits)
    ensures var lines := Evaluate(sample, previous, limits).0;
      CycleOk in lines <==> forall x :: x in lines && x != CycleOk ==> x.Info?
  {
    hide Healthy, Findings, NextHistory, FoldAll;
    var tip := if previous.Some? then previous.value.tip else None;
    var history := NextHistory(if previous.Some? then previous.value.restarts else [], sample, limits);
    var findings := Findings(tip, history, sample, limits);
    HealthyFindings(tip, history, sample, limits);
    FoldMembers(findings);
    var out := FoldAll(findings).out;
    assert Healthy(tip, history, sample, limits) <==> forall x :: x in findings ==> x.Info?;
    assert (forall x :: x in out ==> x.Info?) <==> (forall x :: x in findings ==> x.Info?);
    assert CycleOk !in out;
    var lines := Evaluate(sample, previous, limits).0;
    assert forall x :: x in out ==> x in lines;
    assert forall x :: x in lines ==> x in out || x == CycleOk;
  }

  // ------------------------------------------------------- what the lines say

  // What a cycle holds against a service, in order.
  function Complaints(sample: Sample, limits: Limits, signal: Signal): seq<string> {
    match signal
    case RpcUnhealthy =>
      Given(sample.rpcFailure) + Absent(limits.node, sample)
    case LightwalletdUnhealthy =>
      Absent(limits.lightwalletd, sample) + Given(sample.lwdFailure) + Given(sample.floorFailure)
  }

  function Given(reason: Option<string>): seq<string> {
    if reason.Some? then [reason.value] else []
  }

  function Absent(name: string, sample: Sample): seq<string> {
    if name in sample.containers then [] else ["container " + name + " is not present in docker inspect output"]
  }

  lemma FailureReasons(reason: Option<string>, about: Signal, signal: Signal)
    ensures Reasons(Failure(reason, about), signal) == if about == signal then Given(reason) else []
  {
    if reason.Some? {
      assert Failure(reason, about)[..0] == [];
    }
  }

  lemma ContainerReasons(history: seq<Entry>, sample: Sample, limits: Limits, name: string,
                         about: Signal, signal: Signal)
    ensures Reasons(ContainerLines(history, sample, limits, name, about), signal)
         == if about == signal then Absent(name, sample) else []
  {
    hide Grew;
    var lines := ContainerLines(history, sample, limits, name, about);
    if lines != [] {
      assert lines[..0] == [];
    }
  }

  lemma OneReasons(line: Line, said: bool, signal: Signal)
    requires !line.Service?
    ensures Reasons(if said then [line] else [], signal) == []
  {
    NoReasons(if said then [line] else [], signal);
  }

  lemma InfosReasons(texts: seq<string>, signal: Signal)
    ensures Reasons(Infos(texts), signal) == []
  {
    NoReasons(Infos(texts), signal);
  }

  // The reasons of all findings are those of their parts.
  lemma PartsReasons(tip: Option<Tip>, history: seq<Entry>, sample: Sample, limits: Limits, signal: Signal)
    ensures Reasons(Findings(tip, history, sample, limits), signal)
         == Reasons(Failure(sample.rpcFailure, RpcUnhealthy), signal)
            + Reasons(if IsStale(tip, sample, limits) then [TipStale] else [], signal)
            + Reasons(if IsBehind(sample, limits) then [TipBehind] else [], signal)
            + Reasons(ContainerLines(history, sample, limits, limits.node, RpcUnhealthy), signal)
            + Reasons(ContainerLines(history, sample, limits, limits.lightwalletd, LightwalletdUnhealthy), signal)
            + Reasons(Failure(sample.lwdFailure, LightwalletdUnhealthy), signal)
            + Reasons(Infos(sample.floorLines), signal)
            + Reasons(Failure(sample.floorFailure, LightwalletdUnhealthy), signal)
            + Reasons(Infos(sample.supportLines), signal)
  {
    hide Reasons, Failure, IsStale, IsBehind, ContainerLines, Infos;
    var a := Failure(sample.rpcFailure, RpcUnhealthy);
    var b := if IsStale(tip, sample, limits) then [TipStale] else [];
    var c := if IsBehind(sample, limits) then [TipBehind] else [];
    var d := ContainerLines(history, sample, limits, limits.node, RpcUnhealthy);
    var e := ContainerLines(history, sample, limits, limits.lightwalletd, LightwalletdUnhealthy);
    var f := Failure(sample.lwdFailure, LightwalletdUnhealthy);
    var g := Infos(sample.floorLines);
    var h := Failure(sample.floorFailure, LightwalletdUnhealthy);
    ReasonsConcat(a, b, signal);
    ReasonsConcat(a + b, c, signal);
    ReasonsConcat(a + b + c, d, signal);
    ReasonsConcat(a + b + c + d, e, signal);
    ReasonsConcat(a + b + c + d + e, f, signal);
    ReasonsConcat(a + b + c + d + e + f, g, signal);
    ReasonsConcat(a + b + c + d + e + f + g, h, signal);
    ReasonsConcat(a + b + c + d + e + f + g + h, Infos(sample.supportLines), signal);
  }

  lemma OnlyNode(a: seq<string>, d: seq<string>)
    ensures a + [] + [] + d + [] + [] + [] + [] + [] == a + d
  {
  }

  lemma OnlyLightwalletd(e: seq<string>, f: seq<string>, h: seq<string>)
    ensures [] + [] + [] + [] + e + f + [] + h + [] == e + f + h
  {
  }

  lemma FindingsReasons(tip: Option<Tip>, history: seq<Entry>, sample: Sample, limits: Limits, signal: Signal)
    ensures Reasons(Findings(tip, history, sample, limits), signal) == Complaints(sample, limits, signal)
  {
    hide Findings, Reasons, Failure, IsStale, IsBehind, ContainerLines, Infos, Given, Absent;
    PartsReasons(tip, history, sample, limits, signal);
    FailureReasons(sample.rpcFailure, RpcUnhealthy, signal);
    OneReasons(TipStale, IsStale(tip, sample, limits), signal);
    OneReasons(TipBehind, IsBehind(sample, limits), signal);
    ContainerReasons(history, sample, limits, limits.node, RpcUnhealthy, signal);
    ContainerReasons(history, sample, limits, limits.lightwalletd, LightwalletdUnhealthy, signal);
    FailureReasons(sample.lwdFailure, LightwalletdUnhealthy, signal);
    InfosReasons(sample.floorLines, signal);
    FailureReasons(sample.floorFailure, LightwalletdUnhealthy, signal);
    InfosReasons(sample.supportLines, signal);
    match signal
    case RpcUnhealthy => OnlyNode(Given(sample.rpcFailure), Absent(limits.node, sample));
    case LightwalletdUnhealthy =>
      OnlyLightwalletd(Absent(limits.lightwalletd, sample), Given(sample.lwdFailure), Given(sample.floorFailure));
  }

  lemma HeartbeatAtEnd(sample: Sample, previous: Option<State>, limits: Limits, signal: Signal)
    ensures var tip := if previous.Some? then previous.value.tip else None;
      var history := NextHistory(if previous.Some? then previous.value.restarts else [], sample, limits);
      var out := FoldAll(Findings(tip, history, sample, limits)).out;
      var lines := Evaluate(sample, previous, limits).0;
      Said(lines, signal) == Said(out, signal) && (AtMostOnce(out) ==> AtMostOnce(lines))
  {
    hide Findings, NextHistory, FoldAll, Healthy, Said;
    var tip := if previous.Some? then previous.value.tip else None;
    var history := NextHistory(if previous.Some? then previous.value.restarts else [], sample, limits);
    var out := FoldAll(Findings(tip, history, sample, limits)).out;
    SaidSnoc(out, CycleOk, signal);
    assert out + [] == out;
  }

  /** What a cycle says of a service is everything it holds against it, in order:
      for the node a failed call and a missing container, for lightwalletd a missing
      container, a failed call and an unserved floor. */
  lemma ServiceMeans(sample: Sample, previous: Option<State>, limits: Limits, signal: Signal)
    ensures var lines := Evaluate(sample, previous, limits).0;
      && Said(lines, signal) == Joined(Complaints(sample, limits, signal))
      && AtMostOnce(lines)
  {
    hide Findings, NextHistory, FoldAll, Evaluate, Said, Joined, Complaints, AtMostOnce;
    var tip := if previous.Some? then previous.value.tip else None;
    var history := NextHistory(if previous.Some? then previous.value.restarts else [], sample, limits);
    var findings := Findings(tip, history, sample, limits);
    FoldKeeps(findings, signal);
    SaidJoins(findings, signal);
    FindingsReasons(tip, history, sample, limits, signal);
    HeartbeatAtEnd(sample, previous, limits, signal);
  }

  lemma InfosSay(texts: seq<string>, text: string)
    ensures All(Infos(texts), (x: Line) => x != Info(text)) <==> text !in texts
  {
    if text in texts {
      var i :| 0 <= i < |texts| && texts[i] == text;
      assert Infos(texts)[i] in Infos(texts);
    }
  }

  lemma OthersSayNothing(history: seq<Entry>, sample: Sample, limits: Limits, name: string, signal: Signal,
                         reason: Option<string>, line: Line, said: bool, text: string)
    requires !line.Info?
    ensures All(Failure(reason, signal), (x: Line) => x != Info(text))
    ensures All(ContainerLines(history, sample, limits, name, signal), (x: Line) => x != Info(text))
    ensures All(if said then [line] else [], (x: Line) => x != Info(text))
  {
    hide Grew;
  }

  /** Every line about the floor and the end of support is printed, and no other informs. */
  lemma InfoMeans(sample: Sample, previous: Option<State>, limits: Limits, text: string)
    ensures Info(text) in Evaluate(sample, previous, limits).0
       <==> text in sample.floorLines || text in sample.supportLines
  {
    hide Findings, NextHistory, FoldAll, Healthy, ContainerLines, Failure, Infos, IsStale, IsBehind;
    var tip := if previous.Some? then previous.value.tip else None;
    var history := NextHistory(if previous.Some? then previous.value.restarts else [], sample, limits);
    var findings := Findings(tip, history, sample, limits);
    AllFindings(tip, history, sample, limits, (x: Line) => x != Info(text));
    var reason, stale := sample.rpcFailure, IsStale(tip, sample, limits);
    OthersSayNothing(history, sample, limits, limits.node, RpcUnhealthy, reason, TipStale, stale, text);
    OthersSayNothing(history, sample, limits, limits.lightwalletd, LightwalletdUnhealthy, sample.lwdFailure,
      TipBehind, IsBehind(sample, limits), text);
    OthersSayNothing(history, sample, limits, limits.node, LightwalletdUnhealthy, sample.floorFailure,
      TipStale, stale, text);
    InfosSay(sample.floorLines, text);
    InfosSay(sample.supportLines, text);
    FoldMembers(findings);
  }
}
