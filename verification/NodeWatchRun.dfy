// Whole runs of the node health cycle: what its saved tip and restart history
// stand for, and its two stateful verdicts said by what was observed alone.
module NodeWatchRun {
  import opened Common
  import opened NodeWatch

  datatype Write = Written | WriteFailed | DryRun

  // One cycle, whether it could read the saved state, and whether it wrote its own.
  datatype Round = Round(sample: Sample, readable: bool, write: Write) {
    predicate Saves() {
      write.Written?
    }

    // What keeps the heartbeat back.
    predicate Fails() {
      !readable || write.WriteFailed?
    }
  }

  // What a cycle evaluates from; an unreadable state is written over.
  function Read(state: Option<State>, round: Round): Option<State> {
    if round.readable then state else None
  }

  function Cycle(state: Option<State>, round: Round, limits: Limits): Option<State> {
    if round.Saves() then Some(Evaluate(round.sample, Read(state, round), limits).1) else state
  }

  function Run(rounds: seq<Round>, limits: Limits): Option<State> {
    if rounds == [] then None
    else Cycle(Run(rounds[..|rounds| - 1], limits), rounds[|rounds| - 1], limits)
  }

  // The heights answered in saved cycles, with the time of each, since the state
  // was last lost.
  function Answers(rounds: seq<Round>): seq<Tip> {
    if rounds == [] then []
    else
      var last := rounds[|rounds| - 1];
      if !last.Saves() then Answers(rounds[..|rounds| - 1])
      else
        (if last.readable then Answers(rounds[..|rounds| - 1]) else [])
        + if last.sample.tip.Some? then [Tip(last.sample.tip.value, last.sample.now)] else []
  }

  // The restart counts of the saved cycles since then.
  function Counts(rounds: seq<Round>): seq<Entry> {
    if rounds == [] then []
    else
      var last := rounds[|rounds| - 1];
      if !last.Saves() then Counts(rounds[..|rounds| - 1])
      else
        (if last.readable then Counts(rounds[..|rounds| - 1]) else [])
        + [Entry(last.sample.now, last.sample.containers)]
  }

  // ------------------------------------------------------------ the tip clock

  // The latest height, since the first answer of its unbroken stretch.
  ghost predicate Stretch(tip: Tip, answers: seq<Tip>, k: int) {
    && 0 <= k < |answers| && tip.since == answers[k].since
    && (forall j :: k <= j < |answers| ==> answers[j].height == tip.height)
    && (k > 0 ==> answers[k - 1].height != tip.height)
  }

  ghost predicate TipStands(tip: Option<Tip>, answers: seq<Tip>) {
    if tip.None? then answers == [] else exists k :: Stretch(tip.value, answers, k)
  }

  lemma {:induction false} TipStep(tip: Option<Tip>, answers: seq<Tip>, sample: Sample)
    requires TipStands(tip, answers) && sample.tip.Some?
    ensures TipStands(NextTip(tip, sample), answers + [Tip(sample.tip.value, sample.now)])
  {
    var all := answers + [Tip(sample.tip.value, sample.now)];
    var next := NextTip(tip, sample).value;
    if tip.Some? && tip.value.height == sample.tip.value {
      var k :| Stretch(tip.value, answers, k);
      assert Stretch(next, all, k);
    } else {
      if tip.Some? {
        var k :| Stretch(tip.value, answers, k);
        assert answers[|answers| - 1].height == tip.value.height;
      }
      assert Stretch(next, all, |answers|);
    }
  }

  lemma {:induction false} StretchIsUnique(tip: Tip, other: Tip, answers: seq<Tip>)
    requires TipStands(Some(tip), answers) && TipStands(Some(other), answers)
    ensures tip == other
  {
    var k :| Stretch(tip, answers, k);
    var l :| Stretch(other, answers, l);
    assert answers[|answers| - 1].height == tip.height == other.height;
  }

  // ------------------------------------------------------- the restart window

  // Times of saved cycles do not go back, and no saved cycle is later than `t`.
  predicate OrderedTo(entries: seq<Entry>, t: int) {
    && (forall i, j :: 0 <= i < j < |entries| ==> entries[i].at <= entries[j].at)
    && forall i :: 0 <= i < |entries| ==> entries[i].at <= t
  }

  lemma {:induction false} SinceConcat(a: seq<Entry>, b: seq<Entry>, from: int)
    ensures Since(a + b, from) == Since(a, from) + Since(b, from)
    decreases |b|
  {
    if b == [] {
      assert a + b == a;
    } else {
      var n := |b| - 1;
      assert (a + b)[..|a| + n] == a + b[..n];
      SinceConcat(a, b[..n], from);
    }
  }

  lemma {:induction false} SinceSince(a: seq<Entry>, early: int, late: int)
    requires early <= late
    ensures Since(Since(a, early), late) == Since(a, late)
    decreases |a|
  {
    hide Since;
    SinceNothing(early);
    SinceNothing(late);
    if a != [] {
      var n := |a| - 1;
      SinceSince(a[..n], early, late);
      SinceSnoc(a[..n], a[n], early);
      SinceSnoc(a[..n], a[n], late);
      assert a == a[..n] + [a[n]];
      if a[n].at >= early {
        SinceSnoc(Since(a[..n], early), a[n], late);
      }
    }
  }

  lemma {:induction false} SinceSnoc(a: seq<Entry>, e: Entry, from: int)
    ensures Since(a + [e], from) == if e.at >= from then Since(a, from) + [e] else Since(a, from)
  {
    assert (a + [e])[..|a|] == a;
  }

  lemma SinceNothing(from: int)
    ensures Since([], from) == []
  {
  }

  // Trimming step by step is trimming once.
  lemma {:induction false} HistoryStep(kept: seq<Entry>, entries: seq<Entry>, before: int, sample: Sample,
                                       limits: Limits)
    requires kept == Since(entries, before - 4 * limits.window) && before <= sample.now
    ensures NextHistory(kept, sample, limits)
         == Since(entries + [Entry(sample.now, sample.containers)], sample.now - 4 * limits.window)
  {
    var e, from := Entry(sample.now, sample.containers), sample.now - 4 * limits.window;
    SinceConcat(kept, [e], from);
    SinceConcat(entries, [e], from);
    SinceSince(entries, before - 4 * limits.window, from);
  }

  // --------------------------------------------------------------- whole runs

  // What the saved tip stands for; without a saved state nothing was answered.
  ghost predicate TipTracks(state: Option<State>, rounds: seq<Round>) {
    TipStands(if state.Some? then state.value.tip else None, Answers(rounds))
  }

  // What a whole saved state stands for.
  ghost predicate Stands(state: Option<State>, rounds: seq<Round>, limits: Limits) {
    && TipTracks(state, rounds)
    && if state.None? then Counts(rounds) == []
       else
         && Counts(rounds) != []
         && state.value.restarts == Since(Counts(rounds), Counts(rounds)[|Counts(rounds)| - 1].at - 4 * limits.window)
  }

  predicate ClockNeverGoesBack(rounds: seq<Round>) {
    forall i, j :: 0 <= i < j < |rounds| ==> rounds[i].sample.now <= rounds[j].sample.now
  }

  lemma {:induction false} CountsAreOrdered(rounds: seq<Round>, t: int)
    requires ClockNeverGoesBack(rounds) && (rounds != [] ==> rounds[|rounds| - 1].sample.now <= t)
    ensures OrderedTo(Counts(rounds), t)
    decreases |rounds|
  {
    if rounds != [] {
      CountsAreOrdered(rounds[..|rounds| - 1], rounds[|rounds| - 1].sample.now);
    }
  }

  // The state a cycle starts from, and its history as it reads it.
  lemma {:induction false} ReadHistory(state: Option<State>, rounds: seq<Round>, sample: Sample, limits: Limits)
    requires Stands(state, rounds, limits) && OrderedTo(Counts(rounds), sample.now)
    ensures NextHistory(if state.Some? then state.value.restarts else [], sample, limits)
         == Since(Counts(rounds) + [Entry(sample.now, sample.containers)], sample.now - 4 * limits.window)
  {
    hide NextHistory, Counts, Answers;
    if state.Some? {
      var entries := Counts(rounds);
      HistoryStep(state.value.restarts, entries, entries[|entries| - 1].at, sample, limits);
    } else {
      assert Since([], sample.now - 4 * limits.window) == [];
      HistoryStep([], [], sample.now, sample, limits);
    }
  }

  lemma {:induction false} AnswersSnoc(rounds: seq<Round>, last: Round)
    ensures Answers(rounds + [last])
         == if !last.Saves() then Answers(rounds)
            else
              (if last.readable then Answers(rounds) else [])
              + if last.sample.tip.Some? then [Tip(last.sample.tip.value, last.sample.now)] else []
    ensures Counts(rounds + [last])
         == if !last.Saves() then Counts(rounds)
            else (if last.readable then Counts(rounds) else []) + [Entry(last.sample.now, last.sample.containers)]
  {
    assert (rounds + [last])[..|rounds|] == rounds;
  }

  lemma {:induction false} CycleTracks(state: Option<State>, rounds: seq<Round>, round: Round, limits: Limits)
    requires TipTracks(state, rounds)
    ensures TipTracks(Cycle(state, round, limits), rounds + [round])
  {
    hide Answers, Counts, NextTip, NextHistory, TipStands, Since, Findings, FoldAll, Healthy;
    var read := Read(state, round);
    var tip := if read.Some? then read.value.tip else None;
    var answers := if round.readable then Answers(rounds) else [];
    AnswersSnoc(rounds, round);
    NoAnswers();
    if round.Saves() {
      if round.sample.tip.Some? {
        TipStep(tip, answers, round.sample);
      } else {
        TipKept(tip, round.sample);
        assert answers + [] == answers;
      }
    }
  }

  lemma {:induction false} CycleStands(state: Option<State>, rounds: seq<Round>, round: Round, limits: Limits)
    requires Stands(state, rounds, limits) && OrderedTo(Counts(rounds), round.sample.now)
    ensures Stands(Cycle(state, round, limits), rounds + [round], limits)
  {
    hide Answers, Counts, NextTip, NextHistory, TipTracks, Since, OrderedTo, Findings, FoldAll, Healthy;
    AnswersSnoc(rounds, round);
    CycleTracks(state, rounds, round, limits);
    if round.Saves() {
      if round.readable {
        ReadHistory(state, rounds, round.sample, limits);
      } else {
        NothingStands(limits);
        NoCounts(round.sample.now);
        ReadHistory(None, [], round.sample, limits);
      }
    }
  }

  lemma NoAnswers()
    ensures TipStands(None, [])
  {
  }

  lemma NoCounts(t: int)
    ensures Counts([]) == [] && OrderedTo(Counts([]), t)
  {
  }

  lemma TipKept(tip: Option<Tip>, sample: Sample)
    requires sample.tip.None?
    ensures NextTip(tip, sample) == tip
  {
  }

  /** Along every run, on any clock, the saved tip is the latest height answered
      since its unbroken stretch began, outages aside. */
  lemma {:induction false} RunTracks(rounds: seq<Round>, limits: Limits)
    ensures TipTracks(Run(rounds, limits), rounds)
    decreases |rounds|
  {
    hide TipTracks, Cycle;
    if rounds == [] {
      NothingStands(limits);
    } else {
      var n := |rounds| - 1;
      assert rounds == rounds[..n] + [rounds[n]];
      RunTracks(rounds[..n], limits);
      CycleTracks(Run(rounds[..n], limits), rounds[..n], rounds[n], limits);
    }
  }

  /** When the clock does not go back either, the saved history is every saved
      count of the last four windows. */
  lemma {:induction false} RunStands(rounds: seq<Round>, limits: Limits)
    requires ClockNeverGoesBack(rounds)
    ensures Stands(Run(rounds, limits), rounds, limits)
    decreases |rounds|
  {
    hide Stands, Cycle, OrderedTo;
    if rounds == [] {
      NothingStands(limits);
    } else {
      var n := |rounds| - 1;
      assert rounds == rounds[..n] + [rounds[n]];
      RunStands(rounds[..n], limits);
      CountsAreOrdered(rounds[..n], rounds[n].sample.now);
      CycleStands(Run(rounds[..n], limits), rounds[..n], rounds[n], limits);
    }
  }

  lemma NothingStands(limits: Limits)
    ensures TipTracks(None, []) && Stands(None, [], limits)
  {
  }

  // ------------------------------------------------------------ the verdicts

  const SUPPRESSED: string := "!! heartbeat suppressed"

  // `suppress_heartbeat`
  function WithoutHeartbeat(lines: seq<Line>): (kept: seq<Line>)
    ensures CycleOk !in kept
    ensures forall x :: x in lines && x != CycleOk ==> x in kept
    ensures forall x :: x in kept ==> x in lines || x == Info(SUPPRESSED)
    ensures Info("!! heartbeat suppressed") in kept <==> Info(SUPPRESSED) in lines || CycleOk in lines
  {
    if lines == [] then []
    else
      assert lines == [lines[0]] + lines[1..];
      var rest := WithoutHeartbeat(lines[1..]);
      if lines[0] == CycleOk then rest + [Info(SUPPRESSED)] else [lines[0]] + rest
  }

  // What a cycle prints, from reading the state to the last line.
  function Printed(state: Option<State>, round: Round, limits: Limits): seq<Line> {
    var lines := Evaluate(round.sample, Read(state, round), limits).0;
    if round.Fails() then WithoutHeartbeat(lines) else lines
  }

  lemma PrintedLines(state: Option<State>, round: Round, limits: Limits, line: Line)
    requires line != CycleOk && !line.Info?
    ensures line in Printed(state, round, limits) <==> line in Evaluate(round.sample, Read(state, round), limits).0
  {
    hide Evaluate;
  }

  /** The heartbeat is printed exactly when the cycle could read its state, did not
      fail to write it, and every other line only informs. */
  lemma HeartbeatMeans(state: Option<State>, round: Round, limits: Limits)
    ensures var lines := Printed(state, round, limits);
      CycleOk in lines <==> !round.Fails() && forall x :: x in lines && x != CycleOk ==> x.Info?
  {
    hide Evaluate;
    HeartbeatIff(round.sample, Read(state, round), limits);
  }

  /** What informs: the lines about the floor and the end of support, and that the
      heartbeat was suppressed, when only the state stood in its way. */
  lemma InformsMean(state: Option<State>, round: Round, limits: Limits, text: string)
    ensures var lines := Printed(state, round, limits);
      Info(text) in lines <==>
        || text in round.sample.floorLines || text in round.sample.supportLines
        || (text == "!! heartbeat suppressed" && round.Fails() && forall x :: x in lines ==> x.Info?)
  {
    hide Evaluate;
    HeartbeatIff(round.sample, Read(state, round), limits);
    InfoMeans(round.sample, Read(state, round), limits, text);
  }

  // A line that belongs to no service is printed exactly when it was found.
  lemma PrintedIfFound(sample: Sample, previous: Option<State>, limits: Limits, line: Line)
    requires !line.Service? && line != CycleOk
    ensures var tip := if previous.Some? then previous.value.tip else None;
      var history := NextHistory(if previous.Some? then previous.value.restarts else [], sample, limits);
      line in Evaluate(sample, previous, limits).0
      <==> !All(Findings(tip, history, sample, limits), (x: Line) => x != line)
  {
    hide Findings, NextHistory, FoldAll, Healthy;
    var tip := if previous.Some? then previous.value.tip else None;
    var history := NextHistory(if previous.Some? then previous.value.restarts else [], sample, limits);
    FoldMembers(Findings(tip, history, sample, limits));
    assert line in Evaluate(sample, previous, limits).0
      <==> line in FoldAll(Findings(tip, history, sample, limits)).out;
  }

  /** The tip is reported stale exactly when the state is readable and the height
      now answered has been the only one answered for the whole threshold, on any
      clock; cycles without an answer, and unsaved ones, neither restart the
      stretch nor end it, while a lost state does. */
  lemma {:induction false} StaleMeans(rounds: seq<Round>, last: Round, limits: Limits, tip: Tip)
    requires TipStands(Some(tip), Answers(rounds))
    ensures TipStale in Printed(Run(rounds, limits), last, limits)
       <==> last.readable && last.sample.tip == Some(tip.height) && last.sample.now - tip.since >= limits.staleSeconds
  {
    hide NextHistory, Findings, Evaluate, Answers, Counts, Printed;
    var state, sample := Run(rounds, limits), last.sample;
    RunTracks(rounds, limits);
    AnsweredOnce(tip, Answers(rounds));
    StretchIsUnique(tip, state.value.tip.value, Answers(rounds));
    var read := Read(state, last);
    var known := if read.Some? then read.value.tip else None;
    var history := NextHistory(if read.Some? then read.value.restarts else [], sample, limits);
    PrintedLines(state, last, limits, TipStale);
    PrintedIfFound(sample, read, limits, TipStale);
    AllFindings(known, history, sample, limits, (x: Line) => x != TipStale);
    NotThat(known, sample, history, limits, TipStale);
    assert TipStale in [TipStale];
  }

  lemma {:induction false} AnsweredOnce(tip: Tip, answers: seq<Tip>)
    requires TipStands(Some(tip), answers)
    ensures answers != []
  {
  }

  // The parts of the findings that can never be this line.
  lemma NotThat(tip: Option<Tip>, sample: Sample, history: seq<Entry>, limits: Limits, line: Line)
    requires line.TipStale? || line.TipBehind? || line.RestartLoop?
    ensures All(Failure(sample.rpcFailure, RpcUnhealthy), (x: Line) => x != line)
    ensures All(Failure(sample.lwdFailure, LightwalletdUnhealthy), (x: Line) => x != line)
    ensures All(Failure(sample.floorFailure, LightwalletdUnhealthy), (x: Line) => x != line)
    ensures All(Infos(sample.floorLines), (x: Line) => x != line)
    ensures All(Infos(sample.supportLines), (x: Line) => x != line)
    ensures !line.TipBehind? ==> All(if IsBehind(sample, limits) then [TipBehind] else [], (x: Line) => x != line)
    ensures !line.RestartLoop? ==>
      && All(ContainerLines(history, sample, limits, limits.node, RpcUnhealthy), (x: Line) => x != line)
      && All(ContainerLines(history, sample, limits, limits.lightwalletd, LightwalletdUnhealthy),
             (x: Line) => x != line)
    ensures !line.TipStale? ==>
      All(if IsStale(tip, sample, limits) then [TipStale] else [], (x: Line) => x != line)
  {
    hide IsStale, IsBehind, Grew;
  }

  /** The tip is reported behind exactly when both heights are known and the network
      is more than the allowed number of blocks ahead. */
  lemma {:induction false} BehindMeans(state: Option<State>, last: Round, limits: Limits)
    ensures TipBehind in Printed(state, last, limits)
       <==> && last.sample.tip.Some? && last.sample.network.Some?
            && last.sample.network.value > last.sample.tip.value + limits.behindBlocks
  {
    hide NextHistory, Findings, Evaluate, Printed;
    var sample, read := last.sample, Read(state, last);
    var known := if read.Some? then read.value.tip else None;
    var history := NextHistory(if read.Some? then read.value.restarts else [], sample, limits);
    PrintedLines(state, last, limits, TipBehind);
    PrintedIfFound(sample, read, limits, TipBehind);
    AllFindings(known, history, sample, limits, (x: Line) => x != TipBehind);
    NotThat(known, sample, history, limits, TipBehind);
    assert TipBehind in [TipBehind];
  }

  lemma SaidIsThere(lines: seq<Line>, signal: Signal, reason: string)
    requires AtMostOnce(lines)
    ensures Service(signal, reason) in lines <==> Said(lines, signal) == Some(reason)
  {
    hide Said;
    if at :| 0 <= at < |lines| && IsOf(lines[at], signal) {
      SaidOnce(lines, signal, at);
      assert lines[at] == Service(signal, lines[at].reason);
    } else {
      SaidNever(lines, signal);
    }
  }

  /** A service is reported exactly when the cycle holds something against it, with
      every such reason in order. */
  lemma ServicePrinted(state: Option<State>, last: Round, limits: Limits, signal: Signal, reason: string)
    ensures Service(signal, reason) in Printed(state, last, limits)
       <==> Joined(Complaints(last.sample, limits, signal)) == Some(reason)
  {
    hide Evaluate, Printed, Joined, Complaints, Said, AtMostOnce;
    PrintedLines(state, last, limits, Service(signal, reason));
    ServiceMeans(last.sample, Read(state, last), limits, signal);
    SaidIsThere(Evaluate(last.sample, Read(state, last), limits).0, signal, reason);
  }

  // The latest count of a container at or before `cutoff`, no older than `low`.
  ghost predicate IsBaseline(entries: seq<Entry>, k: int, low: int, cutoff: int, name: string) {
    && 0 <= k < |entries| && low <= entries[k].at <= cutoff && name in entries[k].counts
    && forall j :: k < j < |entries| && entries[j].at <= cutoff ==> name !in entries[j].counts
  }

  lemma {:induction false} BaselineSnoc(history: seq<Entry>, e: Entry, cutoff: int, name: string)
    ensures Baseline(history + [e], cutoff, name)
         == if e.at <= cutoff && name in e.counts then Some(e.counts[name]) else Baseline(history, cutoff, name)
  {
    assert (history + [e])[..|history|] == history;
  }

  lemma {:induction false} BaselineMeans(entries: seq<Entry>, t: int, low: int, cutoff: int, name: string)
    requires OrderedTo(entries, t)
    ensures var baseline := Baseline(Since(entries, low), cutoff, name);
      && (baseline.Some? ==>
            exists k :: IsBaseline(entries, k, low, cutoff, name) && entries[k].counts[name] == baseline.value)
      && forall k :: IsBaseline(entries, k, low, cutoff, name) ==> baseline == Some(entries[k].counts[name])
    decreases |entries|
  {
    hide Since, Baseline;
    if entries == [] {
      SinceNothing(low);
      assert Baseline([], cutoff, name) == None by { BaselineNothing(cutoff, name); }
    } else {
      var n := |entries| - 1;
      var front, e := entries[..n], entries[n];
      assert entries == front + [e];
      BaselineMeans(front, t, low, cutoff, name);
      SinceSnoc(front, e, low);
      BaselineSnoc(Since(front, low), e, cutoff, name);
      assert forall k :: 0 <= k < n ==> front[k] == entries[k];
      if e.at >= low && e.at <= cutoff && name in e.counts {
        assert IsBaseline(entries, n, low, cutoff, name);
        forall k | IsBaseline(entries, k, low, cutoff, name) ensures k == n {
        }
      } else {
        forall k ensures IsBaseline(entries, k, low, cutoff, name) <==> IsBaseline(front, k, low, cutoff, name) {
          OneMoreEntry(front, e, t, k, low, cutoff, name);
        }
      }
    }
  }

  lemma BaselineNothing(cutoff: int, name: string)
    ensures Baseline([], cutoff, name) == None
  {
  }

  lemma {:induction false} OneMoreEntry(front: seq<Entry>, e: Entry, t: int, k: int, low: int, cutoff: int,
                                        name: string)
    requires OrderedTo(front + [e], t)
    requires !(low <= e.at <= cutoff && name in e.counts)
    ensures IsBaseline(front + [e], k, low, cutoff, name) <==> IsBaseline(front, k, low, cutoff, name)
  {
    var all := front + [e];
    assert all[|front|] == e && forall i :: 0 <= i < |front| ==> all[i] == front[i];
  }

  // A history that holds no more than the present has no baseline.
  lemma {:induction false} NoBaseline(e: Entry, low: int, cutoff: int, name: string)
    requires cutoff < e.at
    ensures Baseline(Since([] + [e], low), cutoff, name).None?
  {
    SinceSnoc([], e, low);
    SinceNothing(low);
    BaselineSnoc([], e, cutoff, name);
    BaselineNothing(cutoff, name);
  }

  // When a cycle finds a container in a restart loop.
  ghost predicate LoopSeen(rounds: seq<Round>, last: Round, limits: Limits, name: string) {
    var sample := last.sample;
    && last.readable && name in sample.containers
    && exists k :: IsBaseline(Counts(rounds), k, sample.now - 4 * limits.window, sample.now - limits.window, name)
                   && sample.containers[name] - Counts(rounds)[k].counts[name] >= limits.threshold
  }

  lemma {:induction false} GrewMeans(rounds: seq<Round>, last: Round, limits: Limits, name: string)
    requires ClockNeverGoesBack(rounds) && (rounds != [] ==> rounds[|rounds| - 1].sample.now <= last.sample.now)
    requires limits.window > 0
    ensures var read := Read(Run(rounds, limits), last);
      var history := NextHistory(if read.Some? then read.value.restarts else [], last.sample, limits);
      Grew(history, last.sample, limits, name) <==> LoopSeen(rounds, last, limits, name)
  {
    hide NextHistory, Run, Answers, Counts, Since, Baseline, TipTracks, IsBaseline;
    var sample := last.sample;
    var entries, e := Counts(rounds), Entry(sample.now, sample.containers);
    var low, cutoff := sample.now - 4 * limits.window, sample.now - limits.window;
    if last.readable {
      RunStands(rounds, limits);
      CountsAreOrdered(rounds, sample.now);
      ReadHistory(Run(rounds, limits), rounds, sample, limits);
      SinceSnoc(entries, e, low);
      BaselineSnoc(Since(entries, low), e, cutoff, name);
      BaselineMeans(entries, sample.now, low, cutoff, name);
    } else {
      NothingStands(limits);
      NoCounts(sample.now);
      ReadHistory(None, [], sample, limits);
      NoBaseline(e, low, cutoff, name);
    }
  }

  /** A container is reported in a restart loop exactly when the state is readable
      and its count grew by the threshold since the latest saved cycle that is at
      least one and at most four windows old and listed it. */
  lemma {:induction false} RestartLoopMeans(rounds: seq<Round>, last: Round, limits: Limits, name: string)
    requires ClockNeverGoesBack(rounds) && (rounds != [] ==> rounds[|rounds| - 1].sample.now <= last.sample.now)
    requires limits.window > 0 && (name == limits.node || name == limits.lightwalletd)
    ensures RestartLoop(name) in Printed(Run(rounds, limits), last, limits) <==> LoopSeen(rounds, last, limits, name)
  {
    hide NextHistory, Findings, Evaluate, Answers, Counts, Run, LoopSeen, Grew, Printed;
    var state, sample := Run(rounds, limits), last.sample;
    var read := Read(state, last);
    var tip := if read.Some? then read.value.tip else None;
    var history := NextHistory(if read.Some? then read.value.restarts else [], sample, limits);
    GrewMeans(rounds, last, limits, name);
    PrintedLines(state, last, limits, RestartLoop(name));
    PrintedIfFound(sample, read, limits, RestartLoop(name));
    AllFindings(tip, history, sample, limits, (x: Line) => x != RestartLoop(name));
    NotThat(tip, sample, history, limits, RestartLoop(name));
    NamedLoop(history, sample, limits, limits.node, RpcUnhealthy, name);
    NamedLoop(history, sample, limits, limits.lightwalletd, LightwalletdUnhealthy, name);
  }

  lemma NamedLoop(history: seq<Entry>, sample: Sample, limits: Limits, container: string, signal: Signal, name: string)
    ensures All(ContainerLines(history, sample, limits, container, signal), (x: Line) => x != RestartLoop(name))
       <==> !(container == name && Grew(history, sample, limits, name))
  {
    hide Baseline;
    var lines := ContainerLines(history, sample, limits, container, signal);
    assert lines != [] ==> lines[0] in lines;
  }

  // ------------------------------------------------------------ the heartbeat

  // When a cycle finds the tip stale.
  ghost predicate StaleSeen(rounds: seq<Round>, last: Round, limits: Limits) {
    exists tip :: TipStands(Some(tip), Answers(rounds)) && StaleAt(tip, last, limits)
  }

  predicate StaleAt(tip: Tip, last: Round, limits: Limits) {
    last.readable && last.sample.tip == Some(tip.height) && last.sample.now - tip.since >= limits.staleSeconds
  }

  lemma StaleIff(rounds: seq<Round>, last: Round, limits: Limits)
    ensures var read := Read(Run(rounds, limits), last);
      IsStale(if read.Some? then read.value.tip else None, last.sample, limits) <==> StaleSeen(rounds, last, limits)
  {
    hide Run, Answers, TipStands;
    var state := Run(rounds, limits);
    RunTracks(rounds, limits);
    if tip :| TipStands(Some(tip), Answers(rounds)) && StaleAt(tip, last, limits) {
      AnsweredOnce(tip, Answers(rounds));
      StandsIsSome(if state.Some? then state.value.tip else None, Answers(rounds));
      StretchIsUnique(tip, state.value.tip.value, Answers(rounds));
    }
    var read := Read(state, last);
    if read.Some? && read.value.tip.Some? && StaleAt(read.value.tip.value, last, limits) {
      assert StaleSeen(rounds, last, limits);
    }
  }

  lemma StandsIsSome(tip: Option<Tip>, answers: seq<Tip>)
    requires TipStands(tip, answers) && answers != []
    ensures tip.Some?
  {
  }

  lemma HealthyByLines(sample: Sample, previous: Option<State>, limits: Limits)
    ensures var tip := if previous.Some? then previous.value.tip else None;
      var history := NextHistory(if previous.Some? then previous.value.restarts else [], sample, limits);
      CycleOk in Evaluate(sample, previous, limits).0 <==> Healthy(tip, history, sample, limits)
  {
    hide Healthy, Findings, NextHistory, FoldAll;
    var tip := if previous.Some? then previous.value.tip else None;
    var history := NextHistory(if previous.Some? then previous.value.restarts else [], sample, limits);
    HealthyFindings(tip, history, sample, limits);
    FoldMembers(Findings(tip, history, sample, limits));
  }

  // Both containers are listed and neither is in a restart loop.
  ghost predicate ContainersFine(rounds: seq<Round>, last: Round, limits: Limits) {
    && limits.node in last.sample.containers && limits.lightwalletd in last.sample.containers
    && !LoopSeen(rounds, last, limits, limits.node) && !LoopSeen(rounds, last, limits, limits.lightwalletd)
  }

  /** The heartbeat, said by what was observed alone: the state was at hand, no call
      failed, the floor is served, the tip is neither stale nor behind, and both
      containers run without a restart loop. */
  lemma {:induction false} HealthMeans(rounds: seq<Round>, last: Round, limits: Limits)
    requires ClockNeverGoesBack(rounds) && (rounds != [] ==> rounds[|rounds| - 1].sample.now <= last.sample.now)
    requires limits.window > 0
    ensures var sample := last.sample;
      CycleOk in Printed(Run(rounds, limits), last, limits)
      <==> && last.readable && !last.write.WriteFailed?
           && sample.rpcFailure.None? && sample.lwdFailure.None? && sample.floorFailure.None?
           && !StaleSeen(rounds, last, limits)
           && (sample.tip.Some? && sample.network.Some? ==>
                 sample.network.value <= sample.tip.value + limits.behindBlocks)
           && ContainersFine(rounds, last, limits)
  {
    hide NextHistory, Findings, Evaluate, Answers, Counts, Run, LoopSeen, StaleSeen, IsStale, Grew;
    var state := Run(rounds, limits);
    HealthyByLines(last.sample, Read(state, last), limits);
    StaleIff(rounds, last, limits);
    GrewMeans(rounds, last, limits, limits.node);
    GrewMeans(rounds, last, limits, limits.lightwalletd);
  }
}
