// A controller that follows the sweep rules turn by turn, for any wallet: what
// it sends is covered by what it read, and it pays at most once.
module SweepRun {
  import opened Common
  import opened ZecAmount
  import opened Bech32mAddress
  import opened SweepPolicy

  // What a deployment fixes.
  datatype Limits = Limits(destination: string, hrp: string, threshold: int, maximum: int, attempts: int, cap: int)

  // What the wallet says in one turn: a balance, the text of a proposal, and,
  // if it is told to send, its reply.
  datatype Turn = Turn(spendable: int, lines: seq<string>, reply: Reply)

  datatype Event = Idle | Refused | Sent(value: nat, quoted: nat, outcome: Result<Outcome, PolicyError>)

  datatype Step = Step(turn: Turn, reserve: int, failures: nat, event: Event)

  // One turn: choose a value, ask for a proposal, and send when it is accepted.
  function Play(turn: Turn, reserve: int, limits: Limits): Event {
    match SweepValue(turn.spendable, limits.threshold, reserve, limits.maximum)
    case Err(_) => Idle
    case Ok(value) =>
      if value == 0 then Idle
      else
        match ValidateProposal(turn.lines, limits.destination, reserve, limits.hrp)
        case Err(_) => Refused
        case Ok(proposal) => Sent(value, proposal.fee, Classified(Send(reserve, turn.reply)))
  }

  /** A run: a refused proposal is tried again under the next reserve, a send is
      repeated only when it failed without a spend, and anything else ends it. */
  function Run(turns: seq<Turn>, reserve: int, failures: nat, limits: Limits): seq<Step> {
    if turns == [] then []
    else
      var step := Step(turns[0], reserve, failures, Play(turns[0], reserve, limits));
      match step.event
      case Idle => [step]
      case Refused =>
        var next := NextReserve(reserve, failures, limits.attempts, limits.cap);
        if next.Ok? && next.value.Some? then [step] + Run(turns[1..], next.value.value, failures + 1, limits)
        else [step]
      case Sent(_, _, outcome) =>
        if outcome == Ok(FailedNoSpend) then [step] + Run(turns[1..], reserve, failures, limits)
        else [step]
  }

  // ------------------------------------------------------------------ safety

  // The first reserve, doubled once for each refused proposal, within the cap.
  predicate ReserveFits(reserve: int, failures: nat, first: int, limits: Limits) {
    && reserve == first * Pow2(failures)
    && (failures > 0 ==> failures <= limits.attempts && reserve <= limits.cap)
  }

  // There is something to sweep: the balance reaches the threshold, and exceeds the
  // reserve by at most the maximum.
  predicate Sweepable(balance: int, reserve: int, limits: Limits) {
    && IsU64(balance) && IsU64(reserve) && IsU64(limits.threshold) && IsU64(limits.maximum)
    && limits.threshold <= balance && 0 < balance - reserve <= limits.maximum
  }

  ghost predicate Proved(step: Step, limits: Limits) {
    exists fee :: Proves(step.turn.lines, limits.destination, step.reserve, limits.hrp, fee)
  }

  // What a send is called, by what the wallet returned and recorded.
  ghost predicate Told(reply: Reply, reserve: int, outcome: Result<Outcome, PolicyError>) {
    var counted := IsU64(reply.before) && (reply.after.Some? ==> IsU64(reply.after.value));
    var rose := counted && reply.after.Some? && reply.before < reply.after.value;
    && (outcome == Ok(Confirmed) <==> rose && reply.status == 0 && reply.fee.Some? && 0 <= reply.fee.value <= reserve)
    && (outcome == Ok(FeeBreach) <==>
          rose && reply.status == 0 && reply.fee.Some? && reserve < reply.fee.value <= U64_MAX)
    && (outcome == Ok(FeeUnverified) <==> rose && reply.status == 0 && reply.fee.None?)
    && (outcome == Ok(FailedNoSpend) <==> counted && reply.status != 0 && reply.after == Some(reply.before))
    && (outcome == Ok(Unresolved) <==>
          || (counted && (reply.after.None? || reply.after.value < reply.before))
          || (counted && reply.status == 0 && reply.after == Some(reply.before))
          || (rose && reply.status != 0))
  }

  // A step does what its turn calls for: it sends, all but the reserve, exactly when
  // there is something to sweep and the text proves a fee; value and quoted fee then
  // fit the balance, and the recorded fee does exactly when the send is not a breach.
  ghost predicate Covered(step: Step, limits: Limits) {
    var balance := step.turn.spendable;
    && (step.event.Idle? <==> !Sweepable(balance, step.reserve, limits))
    && (step.event.Refused? <==> Sweepable(balance, step.reserve, limits) && !Proved(step, limits))
    && match step.event
       case Sent(value, quoted, outcome) =>
         && Proves(step.turn.lines, limits.destination, step.reserve, limits.hrp, quoted)
         && value + step.reserve == balance && value + quoted <= balance
         && Told(step.turn.reply, step.reserve, outcome)
         && (outcome == Ok(Confirmed) ==> value + step.turn.reply.fee.value <= balance)
         && (outcome == Ok(FeeBreach) ==> value + step.turn.reply.fee.value > balance)
       case _ => true
  }

  lemma ClassifiedIsTold(reply: Reply, reserve: int)
    requires IsU64(reserve)
    ensures Told(reply, reserve, Classified(Send(reserve, reply)))
  {
  }

  lemma SweepableMeans(balance: int, reserve: int, limits: Limits)
    ensures var r := SweepValue(balance, limits.threshold, reserve, limits.maximum);
      && (r.Ok? && r.value > 0 <==> Sweepable(balance, reserve, limits))
      && (r.Ok? && r.value > 0 ==> r.value == balance - reserve)
  {
  }

  lemma SweepableFits(balance: int, reserve: int, limits: Limits)
    ensures Sweepable(balance, reserve, limits) ==> IsU64(reserve)
  {
  }

  lemma ProvesWithin(lines: seq<string>, destination: string, reserve: int, hrp: string, fee: nat)
    ensures Proves(lines, destination, reserve, hrp, fee) ==> fee <= reserve
  {
  }

  lemma ToldFees(reply: Reply, reserve: int, outcome: Result<Outcome, PolicyError>)
    requires Told(reply, reserve, outcome)
    ensures outcome == Ok(Confirmed) ==> reply.fee.Some? && reply.fee.value <= reserve
    ensures outcome == Ok(FeeBreach) ==> reply.fee.Some? && reply.fee.value > reserve
  {
  }

  // A text is accepted exactly when it proves some fee.
  lemma ProvedIff(step: Step, limits: Limits)
    ensures Proved(step, limits)
       <==> ValidateProposal(step.turn.lines, limits.destination, step.reserve, limits.hrp).Ok?
  {
    hide ValidateProposal, Proves;
    var lines, destination := step.turn.lines, limits.destination;
    var r := ValidateProposal(lines, destination, step.reserve, limits.hrp);
    if r.Ok? {
      AcceptedIff(lines, destination, step.reserve, limits.hrp, r.value.fee);
    }
    if fee :| Proves(lines, destination, step.reserve, limits.hrp, fee) {
      AcceptedIff(lines, destination, step.reserve, limits.hrp, fee);
    }
  }

  lemma PlayIsCovered(turn: Turn, reserve: int, failures: nat, limits: Limits)
    ensures Covered(Step(turn, reserve, failures, Play(turn, reserve, limits)), limits)
  {
    hide ValidateProposal, Proves, SweepValue, Sweepable, Classified, Told;
    var step := Step(turn, reserve, failures, Play(turn, reserve, limits));
    var r := ValidateProposal(turn.lines, limits.destination, reserve, limits.hrp);
    SweepableMeans(turn.spendable, reserve, limits);
    ProvedIff(step, limits);
    if step.event.Sent? {
      AcceptedIff(turn.lines, limits.destination, reserve, limits.hrp, r.value.fee);
      SweepableFits(turn.spendable, reserve, limits);
      ProvesWithin(turn.lines, limits.destination, reserve, limits.hrp, r.value.fee);
      ClassifiedIsTold(turn.reply, reserve);
      ToldFees(turn.reply, reserve, step.event.outcome);
    }
  }

  lemma Doubled(x: int, k: nat)
    ensures 2 * (x * Pow2(k)) == x * Pow2(k + 1)
  {
  }

  // A step of a run from `first`, inside all limits.
  ghost predicate Safe(step: Step, first: int, limits: Limits) {
    ReserveFits(step.reserve, step.failures, first, limits) && Covered(step, limits)
  }

  lemma {:induction false} RunFits(turns: seq<Turn>, reserve: int, failures: nat, first: int, limits: Limits)
    requires ReserveFits(reserve, failures, first, limits)
    ensures forall step :: step in Run(turns, reserve, failures, limits) ==> Safe(step, first, limits)
    decreases |turns|
  {
    hide Covered, Play;
    if turns != [] {
      PlayIsCovered(turns[0], reserve, failures, limits);
      match Play(turns[0], reserve, limits)
      case Idle =>
      case Refused =>
        var next := NextReserve(reserve, failures, limits.attempts, limits.cap);
        if next.Ok? && next.value.Some? {
          Doubled(first, failures);
          RunFits(turns[1..], next.value.value, failures + 1, first, limits);
        }
      case Sent(_, _, _) =>
        RunFits(turns[1..], reserve, failures, first, limits);
    }
  }

  // The sends of a run, in order, and what their broadcasts carry together.
  function Sends(run: seq<Step>): seq<Send> {
    if run == [] then []
    else (if run[0].event.Sent? then [Send(run[0].reserve, run[0].turn.reply)] else []) + Sends(run[1..])
  }

  function Carried(run: seq<Step>): nat {
    if run == [] then 0
    else
      (if run[0].event.Sent? && run[0].turn.reply.broadcast then run[0].event.value else 0) + Carried(run[1..])
  }

  ghost predicate RetriesOnly(sends: seq<Send>) {
    && (forall i :: 0 <= i < |sends| ==> !PaysUnseen(sends[i].reply))
    && (forall i :: 0 <= i < |sends| - 1 ==> Classified(sends[i]) == Ok(FailedNoSpend))
  }

  // A run goes on only after a refused proposal or a failed send.
  lemma RunContinues(turns: seq<Turn>, reserve: int, failures: nat, limits: Limits)
    requires turns != []
    ensures var run := Run(turns, reserve, failures, limits);
      && run != [] && run[0] == Step(turns[0], reserve, failures, Play(turns[0], reserve, limits))
      && (|run| > 1 ==>
            && run[1..] == Run(turns[1..], run[1].reserve, run[1].failures, limits)
            && (run[0].event.Sent? ==> run[0].event.outcome == Ok(FailedNoSpend)))
  {
    hide Play;
    var run := Run(turns, reserve, failures, limits);
    match Play(turns[0], reserve, limits)
    case Idle =>
    case Refused =>
      var next := NextReserve(reserve, failures, limits.attempts, limits.cap);
      if next.Ok? && next.value.Some? {
        assert run[1..] == Run(turns[1..], next.value.value, failures + 1, limits);
      }
    case Sent(_, _, outcome) =>
      if outcome == Ok(FailedNoSpend) {
        assert run[1..] == Run(turns[1..], reserve, failures, limits);
      }
  }

  lemma SentOutcome(turn: Turn, reserve: int, limits: Limits)
    ensures var event := Play(turn, reserve, limits);
      event.Sent? ==> event.outcome == Classified(Send(reserve, turn.reply))
  {
    hide SweepValue, ValidateProposal, Classified;
  }

  lemma {:induction false} RunRetriesOnly(turns: seq<Turn>, reserve: int, failures: nat, limits: Limits)
    requires forall turn :: turn in turns ==> !PaysUnseen(turn.reply)
    ensures RetriesOnly(Sends(Run(turns, reserve, failures, limits)))
    decreases |turns|
  {
    hide Run, Play, Classified, PaysUnseen;
    if turns == [] {
      assert Run(turns, reserve, failures, limits) == [] by { NoTurns(reserve, failures, limits); }
    } else {
      var run := Run(turns, reserve, failures, limits);
      RunContinues(turns, reserve, failures, limits);
      SentOutcome(turns[0], reserve, limits);
      assert !PaysUnseen(turns[0].reply);
      if |run| > 1 {
        RunRetriesOnly(turns[1..], run[1].reserve, run[1].failures, limits);
      } else {
        assert Sends(run[1..]) == [];
      }
    }
  }

  lemma NoTurns(reserve: int, failures: nat, limits: Limits)
    ensures Run([], reserve, failures, limits) == []
  {
  }

  lemma BroadcastsConcat(run: seq<Step>)
    requires run != []
    ensures Broadcasts(Sends(run))
         == (if run[0].event.Sent? && run[0].turn.reply.broadcast then 1 else 0) + Broadcasts(Sends(run[1..]))
  {
    if run[0].event.Sent? {
      assert Sends(run)[1..] == Sends(run[1..]);
    } else {
      assert Sends(run) == Sends(run[1..]);
    }
  }

  lemma {:induction false} CarriedIsBounded(run: seq<Step>, most: nat)
    requires forall step :: step in run && step.event.Sent? ==> step.event.value <= most
    ensures Broadcasts(Sends(run)) == 0 ==> Carried(run) == 0
    ensures Broadcasts(Sends(run)) == 1 ==> Carried(run) <= most
  {
    hide Sends, Broadcasts;
    if run != [] {
      assert run[0] in run;
      BroadcastsConcat(run);
      CarriedIsBounded(run[1..], most);
    }
  }

  /** Whatever the wallet answers: every reserve is the first one doubled once
      per refused proposal, within attempts and cap; every send was proved and
      fits the balance it read; and a wallet that commits before it broadcasts
      pays at most once, at most the maximum, in the whole run. */
  lemma RunIsSafe(turns: seq<Turn>, first: int, limits: Limits)
    ensures var run := Run(turns, first, 0, limits);
      && (forall step :: step in run ==> Safe(step, first, limits))
      && ((forall turn :: turn in turns ==> CommitsFirst(turn.reply)) ==>
            Broadcasts(Sends(run)) <= 1 && Carried(run) <= Max(0, limits.maximum))
  {
    hide Run, Sends, Carried, Proves, CommitsFirst, PaysUnseen, Classified, Broadcasts;
    var run := Run(turns, first, 0, limits);
    RunFits(turns, first, 0, first, limits);
    if forall turn :: turn in turns ==> CommitsFirst(turn.reply) {
      forall turn | turn in turns ensures !PaysUnseen(turn.reply) {
        CommittingIsSeen(turn.reply);
      }
      RunRetriesOnly(turns, first, 0, limits);
      RetriesPayOnce(Sends(run));
      assert forall step :: step in run && step.event.Sent? ==> Safe(step, first, limits);
      CarriedIsBounded(run, Max(0, limits.maximum));
    }
  }

  lemma NothingSent()
    ensures Broadcasts(Sends([])) == 0
  {
  }

  /** The wallet's order is needed: one that broadcasts, fails and records
      nothing is paid from again in the next turn. */
  lemma LateCommitPaysTwice(turn: Turn, reserve: int, limits: Limits)
    requires Play(turn, reserve, limits).Sent? && Play(turn, reserve, limits).outcome == Ok(FailedNoSpend)
    requires turn.reply.broadcast
    ensures Broadcasts(Sends(Run([turn, turn], reserve, 0, limits))) == 2
  {
    hide Play, Classified, Sends, Broadcasts;
    var step := Step(turn, reserve, 0, Play(turn, reserve, limits));
    assert [turn, turn][1..] == [turn];
    assert Run([turn], reserve, 0, limits) == [step];
    assert Run([turn, turn], reserve, 0, limits) == [step, step];
    BroadcastsConcat([step, step]);
    BroadcastsConcat([step]);
    assert [step, step][1..] == [step] && [step][1..] == [];
    NothingSent();
  }

  // ------------------------------------------------- what the reserves reach

  // The proposal of one payment to `destination` with this fee, as text.
  function ProposalText(destination: string, fee: nat): seq<string> {
    ["  Steps (1):", "      Payments (1):", "        [0] -> " + destination, "      Fee: " + Show(fee)]
  }

  // A wallet that quotes one fee, sends, records the spend and that fee.
  function Steady(spendable: int, destination: string, fee: nat, spends: nat): Turn {
    Turn(spendable, ProposalText(destination, fee), Reply(0, spends, Some(spends + 1), Some(fee), true))
  }

  lemma FilterCons(line: string, rest: seq<string>, p: string -> bool)
    ensures Filter([line] + rest, p) == (if p(line) then [line] else []) + Filter(rest, p)
  {
    assert ([line] + rest)[1..] == rest;
  }

  lemma FilterFour(a: string, b: string, c: string, d: string, p: string -> bool)
    ensures Filter([a, b, c, d], p)
         == (if p(a) then [a] else []) + ((if p(b) then [b] else [])
            + ((if p(c) then [c] else []) + (if p(d) then [d] else [])))
  {
    hide Filter;
    FilterCons(a, [b, c, d], p);
    FilterCons(b, [c, d], p);
    FilterCons(c, [d], p);
    FilterCons(d, [], p);
    FilterNothing(p);
    assert [a] + [b, c, d] == [a, b, c, d] && [b] + [c, d] == [b, c, d] && [c] + [d] == [c, d];
    assert [d] + [] == [d];
  }

  lemma FilterNothing(p: string -> bool)
    ensures Filter([], p) == []
  {
  }

  // Each of the four lines is of its own kind only.
  lemma FirstTwoLines()
    ensures IsSteps(ONE_STEP) && !IsPayments(ONE_STEP) && !IsEntry(ONE_STEP) && !IsFee(ONE_STEP)
    ensures !IsSteps(ONE_PAYMENT) && IsPayments(ONE_PAYMENT) && !IsEntry(ONE_PAYMENT) && !IsFee(ONE_PAYMENT)
  {
    hide DigitRun;
    assert ONE_STEP[2] == 'S' && ONE_PAYMENT[2] == ' ' && ONE_PAYMENT[6] == 'P';
    assert PAYMENTS[2] == ' ' && ENTRY[2] == ' ' && ENTRY[6] == ' ' && FEE[2] == ' ' && FEE[6] == 'F';
    assert STEPS[2] == 'S' && PAYMENTS[6] == 'P';
  }

  lemma EntryLine(destination: string)
    ensures var line := FIRST_ENTRY + destination;
      !IsSteps(line) && !IsPayments(line) && IsEntry(line) && !IsFee(line)
  {
    var line := FIRST_ENTRY + destination;
    assert line[2] == ' ' && line[6] == ' ' && STEPS[2] == 'S' && PAYMENTS[6] == 'P' && FEE[6] == 'F';
    var rest := line[|ENTRY|..];
    assert rest[0] == '0' && rest[1..][0] == ']';
    assert DigitRun(rest[1..]) == 0;
    assert DigitRun(rest) == 1;
    assert line[|ENTRY| + 1..][..|ARROW|] == ARROW;
  }

  lemma FeeLine(text: string)
    ensures !IsSteps(FEE + text) && !IsPayments(FEE + text) && !IsEntry(FEE + text) && IsFee(FEE + text)
  {
    hide DigitRun;
    var line := FEE + text;
    assert line[2] == ' ' && line[6] == 'F' && STEPS[2] == 'S' && PAYMENTS[6] == 'P' && ENTRY[6] == ' ';
  }

  lemma ProposalKinds(destination: string, fee: nat)
    ensures var lines := ProposalText(destination, fee);
      && Filter(lines, IsSteps) == [ONE_STEP] && Filter(lines, IsPayments) == [ONE_PAYMENT]
      && Filter(lines, IsEntry) == [FIRST_ENTRY + destination] && Filter(lines, IsFee) == [FEE + Show(fee)]
  {
    hide Show, IsSteps, IsPayments, IsEntry, IsFee, Filter;
    FirstTwoLines();
    EntryLine(destination);
    FeeLine(Show(fee));
    FilterFour(ONE_STEP, ONE_PAYMENT, FIRST_ENTRY + destination, FEE + Show(fee), IsSteps);
    FilterFour(ONE_STEP, ONE_PAYMENT, FIRST_ENTRY + destination, FEE + Show(fee), IsPayments);
    FilterFour(ONE_STEP, ONE_PAYMENT, FIRST_ENTRY + destination, FEE + Show(fee), IsEntry);
    FilterFour(ONE_STEP, ONE_PAYMENT, FIRST_ENTRY + destination, FEE + Show(fee), IsFee);
  }

  /** A proposal to the destination is read back with its fee, and accepted
      exactly when the reserve covers it. */
  lemma ProposalReads(destination: string, fee: nat, reserve: int, hrp: string)
    requires Accepts(destination, hrp) && IsU64(reserve)
    ensures ValidateProposal(ProposalText(destination, fee), destination, reserve, hrp).Ok? <==> fee <= reserve
    ensures fee <= reserve ==>
      ValidateProposal(ProposalText(destination, fee), destination, reserve, hrp) == Ok(Proposal(destination, fee))
  {
    hide Show, ZecToZats, Accepts, IsSteps, IsPayments, IsEntry, Filter;
    ProposalKinds(destination, fee);
    PlainRoundTrip(fee, "");
    assert Show(fee) + "" == Show(fee);
    assert (FEE + Show(fee))[|FEE|..] == Show(fee);
  }

  // After `k` more doublings of the reserve the fee is covered and something is left to sweep.
  predicate Reaches(k: nat, spendable: int, fee: nat, reserve: int, failures: nat, turns: nat, limits: Limits) {
    && k < turns && failures + k <= limits.attempts
    && fee <= reserve * Pow2(k) < spendable
    && (k > 0 ==> reserve * Pow2(k) <= limits.cap)
  }

  ghost predicate Reachable(spendable: int, fee: nat, reserve: int, failures: nat, turns: nat, limits: Limits) {
    exists k: nat :: Reaches(k, spendable, fee, reserve, failures, turns, limits)
  }

  predicate Swept(run: seq<Step>) {
    run != [] && run[|run| - 1].event.Sent? && run[|run| - 1].event.outcome == Ok(Confirmed)
  }

  // All numbers fit 64 bits and the destination is an address.
  predicate Ready(spendable: int, spends: nat, reserve: int, limits: Limits) {
    && IsU64(spendable) && IsU64(spends + 1) && IsU64(reserve) && IsU64(limits.threshold) && IsU64(limits.maximum)
    && IsU64(limits.attempts) && IsU64(limits.cap)
    && Accepts(limits.destination, limits.hrp)
  }

  function Repeated(turn: Turn, n: nat): (turns: seq<Turn>)
    ensures |turns| == n && forall i :: 0 <= i < n ==> turns[i] == turn
  {
    seq(n, i => turn)
  }

  lemma SteadyPlay(spendable: int, spends: nat, fee: nat, reserve: int, limits: Limits)
    requires Ready(spendable, spends, reserve, limits)
    ensures Play(Steady(spendable, limits.destination, fee, spends), reserve, limits)
         == if spendable < limits.threshold || !(0 < spendable - reserve <= limits.maximum) then Idle
            else if fee > reserve then Refused
            else Sent(spendable - reserve, fee, Ok(Confirmed))
  {
    hide ValidateProposal, ProposalText, Accepts;
    ProposalReads(limits.destination, fee, reserve, limits.hrp);
  }

  lemma Grows(x: nat, k: nat)
    ensures x * Pow2(k) >= x
    ensures k > 0 ==> x * Pow2(k) == (2 * x) * Pow2(k - 1) >= 2 * x
  {
  }

  lemma NoneReached(n: nat, spendable: int, fee: nat, reserve: nat, failures: nat, limits: Limits)
    requires spendable <= reserve
      || (fee > reserve && (failures >= limits.attempts || reserve * 2 > limits.cap))
    ensures !Reachable(spendable, fee, reserve, failures, n, limits)
  {
    forall k: nat ensures !Reaches(k, spendable, fee, reserve, failures, n, limits) {
      Grows(reserve, k);
    }
  }

  lemma OneMore(k: nat, n: nat, spendable: int, fee: nat, reserve: nat, failures: nat, limits: Limits)
    requires n > 0 && fee > reserve && reserve * 2 <= limits.cap
    ensures !Reaches(0, spendable, fee, reserve, failures, n, limits)
    ensures Reaches(k + 1, spendable, fee, reserve, failures, n, limits)
       <==> Reaches(k, spendable, fee, reserve * 2, failures + 1, n - 1, limits)
  {
    Grows(reserve, k + 1);
    assert Pow2(0) == 1;
  }

  lemma ReachedNow(n: nat, spendable: int, fee: nat, reserve: int, failures: nat, limits: Limits)
    requires n > 0 && fee <= reserve < spendable && failures <= limits.attempts
    ensures Reachable(spendable, fee, reserve, failures, n, limits)
  {
    assert Pow2(0) == 1;
    assert Reaches(0, spendable, fee, reserve, failures, n, limits);
  }

  lemma NoTurnReaches(spendable: int, fee: nat, reserve: int, failures: nat, limits: Limits)
    ensures !Reachable(spendable, fee, reserve, failures, 0, limits)
  {
  }

  lemma ReachesLater(n: nat, spendable: int, fee: nat, reserve: nat, failures: nat, limits: Limits)
    requires n > 0 && fee > reserve && reserve * 2 <= limits.cap
    ensures Reachable(spendable, fee, reserve, failures, n, limits)
       <==> Reachable(spendable, fee, reserve * 2, failures + 1, n - 1, limits)
  {
    hide Reaches;
    OneMore(0, n, spendable, fee, reserve, failures, limits);
    if Reachable(spendable, fee, reserve, failures, n, limits) {
      var k: nat :| Reaches(k, spendable, fee, reserve, failures, n, limits);
      OneMore(k - 1, n, spendable, fee, reserve, failures, limits);
    }
    var doubled := reserve * 2;
    if Reachable(spendable, fee, doubled, failures + 1, n - 1, limits) {
      var k: nat :| Reaches(k, spendable, fee, doubled, failures + 1, n - 1, limits);
      OneMore(k, n, spendable, fee, reserve, failures, limits);
    }
  }

  /** With a steady wallet the controller confirms the sweep exactly when the
      balance reaches the threshold, leaves no more than the maximum above the
      first reserve, and some reserve it may double up to covers the fee and
      leaves something to sweep. */
  lemma {:induction false} SweptIff(n: nat, spendable: int, spends: nat, fee: nat, reserve: int, failures: nat,
                                    limits: Limits)
    requires Ready(spendable, spends, reserve, limits) && failures <= limits.attempts
    ensures Swept(Run(Repeated(Steady(spendable, limits.destination, fee, spends), n), reserve, failures, limits))
       <==> && limits.threshold <= spendable && spendable - reserve <= limits.maximum
            && Reachable(spendable, fee, reserve, failures, n, limits)
    decreases n
  {
    hide Play, Accepts, ProposalText, Reachable;
    var turn := Steady(spendable, limits.destination, fee, spends);
    if n > 0 {
      var turns := Repeated(turn, n);
      assert turns[1..] == Repeated(turn, n - 1);
      SteadyPlay(spendable, spends, fee, reserve, limits);
      if spendable < limits.threshold || spendable - reserve > limits.maximum {
      } else if spendable <= reserve {
        NoneReached(n, spendable, fee, reserve, failures, limits);
      } else if fee <= reserve {
        ReachedNow(n, spendable, fee, reserve, failures, limits);
      } else if failures >= limits.attempts || reserve * 2 > limits.cap {
        NoneReached(n, spendable, fee, reserve, failures, limits);
      } else {
        SweptIff(n - 1, spendable, spends, fee, reserve * 2, failures + 1, limits);
        ReachesLater(n, spendable, fee, reserve, failures, limits);
      }
    } else {
      NoTurnReaches(spendable, fee, reserve, failures, limits);
    }
  }

  // ------------------------------------------------- which wallets may be retried

  // Turns of one wallet, given by the replies it may make.
  ghost predicate Of(turns: seq<Turn>, wallet: Reply -> bool) {
    forall turn :: turn in turns ==> wallet(turn.reply)
  }

  ghost predicate PaidOnce(wallet: Reply -> bool) {
    forall turns, reserve, limits :: Of(turns, wallet) ==> Broadcasts(Sends(Run(turns, reserve, 0, limits))) <= 1
  }

  // Settings under which a proposal is accepted and sent.
  lemma SomeSend(reply: Reply) returns (turn: Turn, limits: Limits)
    ensures turn.reply == reply
    ensures Play(turn, 1, limits) == Sent(1, 0, Classified(Send(1, reply)))
  {
    hide Accepts, ValidateProposal, ProposalText, Suffix, Classified;
    var destination := "z" + "1" + ("" + Suffix("z", ""));
    SuffixIsAccepted("z", "");
    limits := Limits(destination, "z", 0, 1, 0, 0);
    turn := Turn(2, ProposalText(destination, 0), reply);
    ProposalReads(destination, 0, 1, "z");
  }

  /** A wallet is paid from at most once in every run if and only if none of its
      replies pays unseen, that is, broadcasts, fails and leaves the count as it was. */
  lemma PaidOnceIff(wallet: Reply -> bool)
    ensures PaidOnce(wallet) <==> forall reply :: wallet(reply) ==> !PaysUnseen(reply)
  {
    hide Run, Sends, Broadcasts, Classified, Play;
    if reply :| wallet(reply) && PaysUnseen(reply) {
      var turn, limits := SomeSend(reply);
      UnseenIsFailed(reply);
      LateCommitPaysTwice(turn, 1, limits);
      assert Of([turn, turn], wallet);
    } else {
      forall turns, reserve, limits | Of(turns, wallet)
        ensures Broadcasts(Sends(Run(turns, reserve, 0, limits))) <= 1
      {
        RunRetriesOnly(turns, reserve, 0, limits);
        RetriesPayOnce(Sends(Run(turns, reserve, 0, limits)));
      }
    }
  }

  lemma UnseenIsFailed(reply: Reply)
    requires PaysUnseen(reply)
    ensures Classified(Send(1, reply)) == Ok(FailedNoSpend)
  {
  }
}
