// The serving-floor probe: a bisection over block heights with a call budget,
// against a server that may answer anything at any call.
module FloorProbe {
  import opened Common

  datatype Answer = Served | Refused | Unrunnable | Unreachable

  // What the n-th call of the cycle is answered, when it asks for a height.
  type Server = (nat, int) -> Answer

  datatype Floor = Unmeasured | Unserved | Skipped | AtOrBelow(height: int) | Measured(height: int)

  datatype Outcome = Answered(answer: Answer) | OverBudget

  // ------------------------------------------------------------ the meaning

  // The bisection after the calls `asked`: `low` was refused and `high` served.
  function Bisect(low: int, high: int, asked: seq<int>, maxCalls: int, server: Server): (Floor, seq<int>)
    decreases high - low
  {
    if high - low <= 1 then (Measured(high), asked)
    else if |asked| >= maxCalls then (Unmeasured, asked)
    else
      var mid := (low + high) / 2;
      match server(|asked|, mid)
      case Served => Bisect(low, mid, asked + [mid], maxCalls, server)
      case Refused => Bisect(mid, high, asked + [mid], maxCalls, server)
      case Unrunnable => (Unmeasured, asked + [mid])
      case Unreachable => (Unserved, asked + [mid])
  }

  // From the anchor on, after the requirement itself was refused.
  function FromAnchor(required: int, anchor: int, asked: seq<int>, maxCalls: int, server: Server): (Floor, seq<int>) {
    if |asked| >= maxCalls then (Unmeasured, asked)
    else
      match server(|asked|, anchor)
      case Unrunnable => (Unmeasured, asked + [anchor])
      case Unreachable => (Unserved, asked + [anchor])
      case Refused => (Unserved, asked + [anchor])
      case Served => Bisect(required, anchor, asked + [anchor], maxCalls, server)
  }

  /** The floor the probe reports and the heights it asked for, in order. */
  function Probe(required: Option<int>, tip: Option<int>, margin: int, maxCalls: int, server: Server)
    : (Floor, seq<int>)
  {
    if required.None? || maxCalls <= 0 then (Unmeasured, [])
    else
      var r := required.value;
      match server(0, r)
      case Unrunnable => (Unmeasured, [r])
      case Unreachable => (Unserved, [r])
      case Served => (AtOrBelow(r), [r])
      case Refused =>
        if tip.None? then (Skipped, [r])
        else if tip.value - margin <= r then (AtOrBelow(r), [r])
        else FromAnchor(r, tip.value - margin, [r], maxCalls, server)
  }

  // --------------------------------------------------------------- the code

  // The call budget of one cycle and the calls it has paid for.
  class Budget {
    var left: int
    var asked: seq<int>
    const server: Server

    constructor (maxCalls: int, server: Server)
      ensures left == maxCalls && asked == [] && this.server == server
    {
      left, asked, this.server := maxCalls, [], server;
    }

    method Ask(height: int) returns (outcome: Outcome)
      modifies this
      ensures old(left) <= 0 ==> outcome == OverBudget && left == old(left) && asked == old(asked)
      ensures old(left) > 0 ==>
        && outcome == Answered(server(|old(asked)|, height))
        && left == old(left) - 1 && asked == old(asked) + [height]
    {
      if left <= 0 {
        return OverBudget;
      }
      left := left - 1;
      outcome := Answered(server(|asked|, height));
      asked := asked + [height];
    }
  }

  /** `probe_lightwalletd_floor`. */
  method ProbeFloor(required: Option<int>, tip: Option<int>, margin: int, maxCalls: int, server: Server)
    returns (floor: Floor, asked: seq<int>)
    ensures (floor, asked) == Probe(required, tip, margin, maxCalls, server)
  {
    if required.None? {
      return Unmeasured, [];
    }
    var r := required.value;
    var budget := new Budget(maxCalls, server);
    var outcome := budget.Ask(r);
    assert [] + [r] == [r];
    if outcome == OverBudget || outcome == Answered(Unrunnable) {
      return Unmeasured, budget.asked;
    }
    if outcome == Answered(Unreachable) {
      return Unserved, budget.asked;
    }
    if outcome == Answered(Served) {
      return AtOrBelow(r), budget.asked;
    }
    if tip.None? {
      return Skipped, budget.asked;
    }
    var anchor := tip.value - margin;
    if anchor <= r {
      return AtOrBelow(r), budget.asked;
    }
    outcome := budget.Ask(anchor);
    if outcome == OverBudget || outcome == Answered(Unrunnable) {
      return Unmeasured, budget.asked;
    }
    if outcome != Answered(Served) {
      return Unserved, budget.asked;
    }
    var low, high := r, anchor;
    while high - low > 1
      invariant budget.server == server && low < high
      invariant budget.left == maxCalls - |budget.asked|
      invariant Bisect(low, high, budget.asked, maxCalls, server) == Probe(required, tip, margin, maxCalls, server)
      decreases high - low
    {
      var mid := (low + high) / 2;
      outcome := budget.Ask(mid);
      match outcome
      case OverBudget =>
        return Unmeasured, budget.asked;
      case Answered(Served) =>
        high := mid;
      case Answered(Refused) =>
        low := mid;
      case Answered(Unrunnable) =>
        return Unmeasured, budget.asked;
      case Answered(Unreachable) =>
        return Unserved, budget.asked;
    }
    return Measured(high), budget.asked;
  }

  // ------------------------------------------------- what a result has proved

  // Some call of this cycle asked for `height` and was answered `answer`.
  predicate Evidence(asked: seq<int>, server: Server, height: int, answer: Answer) {
    exists i :: 0 <= i < |asked| && asked[i] == height && server(i, height) == answer
  }

  lemma EvidenceKept(asked: seq<int>, server: Server, height: int, answer: Answer, next: int)
    ensures Evidence(asked, server, height, answer) ==> Evidence(asked + [next], server, height, answer)
    ensures Evidence(asked + [next], server, next, server(|asked|, next))
  {
    if i :| 0 <= i < |asked| && asked[i] == height && server(i, height) == answer {
      assert (asked + [next])[i] == height;
    }
    assert (asked + [next])[|asked|] == next;
  }

  lemma {:induction false} BisectProves(low: int, high: int, asked: seq<int>, maxCalls: int, server: Server)
    requires low < high && |asked| <= maxCalls
    requires Evidence(asked, server, low, Refused) && Evidence(asked, server, high, Served)
    ensures var (floor, calls) := Bisect(low, high, asked, maxCalls, server);
      && |calls| <= maxCalls
      && (floor.Measured? ==>
            && low < floor.height <= high
            && Evidence(calls, server, floor.height, Served) && Evidence(calls, server, floor.height - 1, Refused))
      && !floor.AtOrBelow? && !floor.Skipped?
    decreases high - low
  {
    hide Evidence;
    if high - low > 1 && |asked| < maxCalls {
      var mid := (low + high) / 2;
      EvidenceKept(asked, server, low, Refused, mid);
      EvidenceKept(asked, server, high, Served, mid);
      match server(|asked|, mid)
      case Served => BisectProves(low, mid, asked + [mid], maxCalls, server);
      case Refused => BisectProves(mid, high, asked + [mid], maxCalls, server);
      case _ =>
    }
  }

  /** Whatever the server answers: the call budget is never passed, and a
      measured floor was itself served and the height below it refused. */
  lemma MeasuredIsProved(required: Option<int>, tip: Option<int>, margin: int, maxCalls: int, server: Server)
    ensures var (floor, asked) := Probe(required, tip, margin, maxCalls, server);
      && |asked| <= Max(0, maxCalls)
      && (floor.Measured? ==>
            && required.Some? && tip.Some? && required.value < floor.height <= tip.value - margin
            && Evidence(asked, server, floor.height, Served) && Evidence(asked, server, floor.height - 1, Refused))
  {
    hide Evidence, Bisect;
    if required.Some? && tip.Some? && maxCalls > 0 && server(0, required.value) == Refused {
      var r, anchor := required.value, tip.value - margin;
      EvidenceKept([], server, 0, Served, r);
      assert [] + [r] == [r];
      EvidenceKept([r], server, r, Refused, anchor);
      assert [r] + [anchor] == [r, anchor];
      if maxCalls > 1 && anchor > r && server(1, anchor) == Served {
        BisectProves(r, anchor, [r, anchor], maxCalls, server);
      }
    }
  }

  /** "At or below" is reported exactly when the requirement was either served,
      or refused while the tip is within the margin above it. */
  lemma AtOrBelowIff(required: int, tip: Option<int>, margin: int, maxCalls: int, server: Server)
    ensures var r := Probe(Some(required), tip, margin, maxCalls, server);
      r.0.AtOrBelow? ==> r == (AtOrBelow(required), [required])
    ensures Probe(Some(required), tip, margin, maxCalls, server).0.AtOrBelow?
       <==> maxCalls > 0 && (server(0, required) == Served
              || (server(0, required) == Refused && tip.Some? && tip.value - margin <= required))
  {
    hide Evidence, Bisect;
    if tip.Some? && maxCalls > 1 && server(0, required) == Refused && server(1, tip.value - margin) == Served
       && tip.value - margin > required {
      var anchor := tip.value - margin;
      EvidenceKept([], server, 0, Served, required);
      assert [] + [required] == [required];
      EvidenceKept([required], server, required, Refused, anchor);
      assert [required] + [anchor] == [required, anchor];
      BisectProves(required, anchor, [required, anchor], maxCalls, server);
    }
  }

  // The height a cycle reports, if any, was asked for and served in that cycle.
  ghost predicate Proved(required: Option<int>, tip: Option<int>, margin: int, maxCalls: int, server: Server) {
    var (floor, asked) := Probe(required, tip, margin, maxCalls, server);
    floor.AtOrBelow? || floor.Measured? ==> Evidence(asked, server, floor.height, Served)
  }

  // A call can be made and the anchor is not above the requirement, so that a
  // refused requirement leaves nothing to bisect.
  predicate Young(required: Option<int>, tip: Option<int>, margin: int, maxCalls: int) {
    required.Some? && maxCalls > 0 && tip.Some? && tip.value - margin <= required.value
  }

  lemma ProvedUnlessRefused(required: Option<int>, tip: Option<int>, margin: int, maxCalls: int, server: Server)
    ensures Proved(required, tip, margin, maxCalls, server)
       <==> !(Young(required, tip, margin, maxCalls) && server(0, required.value) == Refused)
  {
    hide Evidence, Bisect;
    MeasuredIsProved(required, tip, margin, maxCalls, server);
    if required.Some? {
      AtOrBelowIff(required.value, tip, margin, maxCalls, server);
      SingleEvidence(required.value, server);
    }
  }

  lemma SingleEvidence(height: int, server: Server)
    ensures Evidence([height], server, height, Served) <==> server(0, height) == Served
  {
    assert [height][0] == height;
  }

  /** Every number the probe reports was served in its own cycle, whatever the
      server answers, exactly when no call is made, the tip is unknown, or the
      anchor is above the requirement. */
  lemma ProvedExactly(required: Option<int>, tip: Option<int>, margin: int, maxCalls: int)
    ensures (forall server: Server :: Proved(required, tip, margin, maxCalls, server))
       <==> !Young(required, tip, margin, maxCalls)
  {
    hide Proved;
    var refusing: Server := (n, h) => Refused;
    ProvedUnlessRefused(required, tip, margin, maxCalls, refusing);
    forall server: Server | !Young(required, tip, margin, maxCalls)
      ensures Proved(required, tip, margin, maxCalls, server)
    {
      ProvedUnlessRefused(required, tip, margin, maxCalls, server);
    }
  }

  /** A server that refuses everything is still reported as serving the
      requirement while the chain is young. */
  lemma YoungChainIsUnproved()
    ensures Probe(Some(1000), Some(1100), 200, 24, (n, h) => Refused).0 == AtOrBelow(1000)
    ensures !Proved(Some(1000), Some(1100), 200, 24, (n, h) => Refused)
  {
    ProvedUnlessRefused(Some(1000), Some(1100), 200, 24, (n, h) => Refused);
  }

  // ---------------------------------------------- a server that keeps its mind

  function Steady(serves: int -> bool): Server {
    (n, height) => if serves(height) then Served else Refused
  }

  ghost predicate Monotone(serves: int -> bool) {
    forall g, h :: serves(g) && g <= h ==> serves(h)
  }

  // How far a bisection with `calls` calls left can reach.
  function Reach(calls: int): int {
    if calls < 0 then 0 else Pow2(calls)
  }

  lemma ReachHalves(width: int, calls: int)
    requires width > 1
    ensures width <= Reach(calls) <==> calls > 0 && (width + 1) / 2 <= Reach(calls - 1)
  {
    if calls == 0 {
      assert Reach(0) == 1;
    }
  }

  lemma {:induction false} WideEnough(low: int, high: int, asked: seq<int>, maxCalls: int, serves: int -> bool)
    requires low < high && |asked| <= maxCalls && high - low <= Reach(maxCalls - |asked|)
    ensures Bisect(low, high, asked, maxCalls, Steady(serves)).0.Measured?
    decreases high - low
  {
    hide Reach;
    if high - low > 1 {
      var mid := (low + high) / 2;
      ReachHalves(high - low, maxCalls - |asked|);
      if serves(mid) {
        WideEnough(low, mid, asked + [mid], maxCalls, serves);
      } else {
        WideEnough(mid, high, asked + [mid], maxCalls, serves);
      }
    }
  }

  lemma {:induction false} WorstCase(low: int, high: int, asked: seq<int>, maxCalls: int)
    requires low < high && |asked| <= maxCalls
    ensures Bisect(low, high, asked, maxCalls, Steady(h => h >= high)).0
         == if high - low <= Reach(maxCalls - |asked|) then Measured(high) else Unmeasured
    decreases high - low
  {
    hide Reach;
    if high - low > 1 {
      var mid := (low + high) / 2;
      ReachHalves(high - low, maxCalls - |asked|);
      if |asked| < maxCalls {
        WorstCase(mid, high, asked + [mid], maxCalls);
      }
    } else {
      OneIsReached(maxCalls - |asked|);
    }
  }

  lemma OneIsReached(calls: int)
    requires calls >= 0
    ensures Reach(calls) >= 1
  {
  }

  lemma SteadyEvidence(asked: seq<int>, serves: int -> bool, height: int)
    ensures Evidence(asked, Steady(serves), height, Served) ==> serves(height)
    ensures Evidence(asked, Steady(serves), height, Refused) ==> !serves(height)
  {
  }

  /** With a steady monotone server, a measured floor is the least height above
      the requirement that is served. */
  lemma MeasuredIsLeast(required: int, tip: int, margin: int, maxCalls: int, serves: int -> bool)
    requires Monotone(serves)
    requires Probe(Some(required), Some(tip), margin, maxCalls, Steady(serves)).0.Measured?
    ensures var h := Probe(Some(required), Some(tip), margin, maxCalls, Steady(serves)).0.height;
      && required < h <= tip - margin && serves(h)
      && forall g :: g < h ==> !serves(g)
  {
    hide Probe, Evidence;
    MeasuredIsProved(Some(required), Some(tip), margin, maxCalls, Steady(serves));
    var (floor, asked) := Probe(Some(required), Some(tip), margin, maxCalls, Steady(serves));
    SteadyEvidence(asked, serves, floor.height);
    SteadyEvidence(asked, serves, floor.height - 1);
  }

  /** A steady server that refuses the requirement and serves the anchor is
      always measured when the span is at most 2^(maxCalls-2). */
  lemma NeverExhausted(required: int, tip: int, margin: int, maxCalls: int, serves: int -> bool)
    requires !serves(required) && serves(tip - margin) && required < tip - margin
    requires maxCalls >= 2 && tip - margin - required <= Pow2(maxCalls - 2)
    ensures Probe(Some(required), Some(tip), margin, maxCalls, Steady(serves)).0.Measured?
  {
    assert [required] + [tip - margin] == [required, tip - margin];
    WideEnough(required, tip - margin, [required, tip - margin], maxCalls, serves);
  }

  /** The bound is exact: the server that starts serving at the anchor is
      measured if and only if the span is within it. */
  lemma ExhaustedExactly(required: int, tip: int, margin: int, maxCalls: int)
    requires required < tip - margin && maxCalls >= 2
    ensures Probe(Some(required), Some(tip), margin, maxCalls, Steady(h => h >= tip - margin)).0
         == if tip - margin - required <= Pow2(maxCalls - 2) then Measured(tip - margin) else Unmeasured
  {
    var anchor := tip - margin;
    assert [required] + [anchor] == [required, anchor];
    WorstCase(required, anchor, [required, anchor], maxCalls);
  }

  // ------------------------------------------------- why a cycle did not measure

  // The last call of the cycle was answered like this.
  predicate LastAnswer(asked: seq<int>, server: Server, answer: Answer) {
    asked != [] && server(|asked| - 1, asked[|asked| - 1]) == answer
  }

  lemma {:induction false} BisectExplains(low: int, high: int, asked: seq<int>, maxCalls: int, server: Server)
    requires low < high && |asked| <= maxCalls
    ensures var (floor, calls) := Bisect(low, high, asked, maxCalls, server);
      && (floor.Unmeasured? ==> |calls| == maxCalls || LastAnswer(calls, server, Unrunnable))
      && (floor.Unserved? ==> LastAnswer(calls, server, Unreachable))
      && !floor.Skipped?
    decreases high - low
  {
    if high - low > 1 && |asked| < maxCalls {
      var mid := (low + high) / 2;
      match server(|asked|, mid)
      case Served => BisectExplains(low, mid, asked + [mid], maxCalls, server);
      case Refused => BisectExplains(mid, high, asked + [mid], maxCalls, server);
      case _ =>
    }
  }

  /** A cycle that does not measure says why: "unmeasured" without a requirement,
      a call or a runnable client, "unserved" for a server that did not answer or
      that refused the anchor itself, "skipped" exactly without a tip. */
  lemma FailureIsExplained(required: Option<int>, tip: Option<int>, margin: int, maxCalls: int, server: Server)
    ensures var (floor, asked) := Probe(required, tip, margin, maxCalls, server);
      && (floor.Unmeasured? ==> required.None? || |asked| >= maxCalls || LastAnswer(asked, server, Unrunnable))
      && (floor.Unserved? ==>
            || LastAnswer(asked, server, Unreachable)
            || (|asked| == 2 && tip.Some? && asked[1] == tip.value - margin && LastAnswer(asked, server, Refused)))
      && (floor.Skipped? <==> required.Some? && maxCalls > 0 && server(0, required.value) == Refused && tip.None?)
  {
    hide Bisect;
    if required.Some? && tip.Some? && maxCalls > 1 && tip.value - margin > required.value {
      var r, anchor := required.value, tip.value - margin;
      assert [r] + [anchor] == [r, anchor];
      BisectExplains(r, anchor, [r, anchor], maxCalls, server);
    }
  }
}
