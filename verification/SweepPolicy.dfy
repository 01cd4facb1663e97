// The sweep rules around one wallet send: what a proposal proves, how much may
// be swept, how the fee reserve grows, and what the evidence after a send means.
// Module SweepRun puts them together.
module SweepPolicy {
  import opened Common
  import opened Text
  import opened ZecAmount
  import opened Bech32mAddress

  datatype PolicyError =
    | NotU64 | NotOneOfEach | OtherRecipient | BadAddress | BadFee(AmountError) | FeeExceedsReserve | ExceedsCap

  datatype Proposal = Proposal(recipient: string, fee: nat)

  predicate IsU64(value: int) {
    0 <= value <= U64_MAX
  }

  // ------------------------------------------------------------ the proposal

  const STEPS: string := "  Steps ("
  const ONE_STEP: string := "  Steps (1):"
  const PAYMENTS: string := "      Payments ("
  const ONE_PAYMENT: string := "      Payments (1):"
  const ENTRY: string := "        ["
  const ARROW: string := "] -> "
  const FIRST_ENTRY: string := "        [0] -> "
  const FEE: string := "      Fee: "

  // `^        \[[0-9]*\] -> `
  predicate IsEntry(s: string) {
    && StartsWith(s, ENTRY)
    && StartsWith(s[|ENTRY| + DigitRun(s[|ENTRY|..])..], ARROW)
  }

  predicate IsSteps(s: string) {
    StartsWith(s, STEPS)
  }

  predicate IsPayments(s: string) {
    StartsWith(s, PAYMENTS)
  }

  predicate IsFee(s: string) {
    StartsWith(s, FEE)
  }

  function FeeText(s: string): string
    requires IsFee(s)
  {
    s[|FEE|..]
  }

  function Filter(lines: seq<string>, p: string -> bool): (kept: seq<string>)
    ensures forall s :: s in kept <==> s in lines && p(s)
  {
    if lines == [] then []
    else
      assert lines == [lines[0]] + lines[1..];
      (if p(lines[0]) then [lines[0]] else []) + Filter(lines[1..], p)
  }

  function ValidateProposal(lines: seq<string>, destination: string, reserve: int, hrp: string)
    : Result<Proposal, PolicyError>
  {
    if !IsU64(reserve) then Err(NotU64) else
      var steps, payments := Filter(lines, IsSteps), Filter(lines, IsPayments);
      var recipients, fees := Filter(lines, IsEntry), Filter(lines, IsFee);
      if steps != [ONE_STEP] || payments != [ONE_PAYMENT] || |recipients| != 1 || |fees| != 1 then
        Err(NotOneOfEach)
      else if recipients[0] != FIRST_ENTRY + destination then Err(OtherRecipient)
      else if !Accepts(destination, hrp) then Err(BadAddress)
      else
        assert fees[0] in fees;
        match ZecToZats(FeeText(fees[0]))
        case Err(error) => Err(BadFee(error))
        case Ok(fee) => if fee > reserve then Err(FeeExceedsReserve) else Ok(Proposal(destination, fee))
  }

  /** The kinds of line by how they begin; an entry may have any digits, or none. */
  lemma LineKinds(s: string)
    ensures IsSteps(s) <==> exists rest :: s == "  Steps (" + rest
    ensures IsPayments(s) <==> exists rest :: s == "      Payments (" + rest
    ensures IsFee(s) <==> exists rest :: s == "      Fee: " + rest && FeeText(s) == rest
    ensures IsEntry(s) <==> exists digits, rest :: AllDigits(digits) && s == "        [" + digits + "] -> " + rest
  {
    Begins(s, "  Steps (");
    Begins(s, "      Payments (");
    Begins(s, "      Fee: ");
    EntryBegins(s);
  }

  lemma Begins(s: string, prefix: string)
    ensures StartsWith(s, prefix) <==> exists rest :: s == prefix + rest
    ensures StartsWith(s, prefix) ==> s == prefix + s[|prefix|..]
  {
    if StartsWith(s, prefix) {
      assert s == prefix + s[|prefix|..];
    }
  }

  lemma EntryBegins(s: string)
    ensures IsEntry(s) <==> exists digits, rest :: AllDigits(digits) && s == "        [" + digits + "] -> " + rest
  {
    hide DigitRun;
    if IsEntry(s) {
      var n := DigitRun(s[|ENTRY|..]);
      var digits, tail := s[|ENTRY|..][..n], s[|ENTRY| + n..];
      assert tail == ARROW + tail[|ARROW|..] by { Begins(tail, ARROW); }
      assert s == "        [" + digits + "] -> " + tail[|ARROW|..];
    }
    if digits, rest :| AllDigits(digits) && s == "        [" + digits + "] -> " + rest {
      assert s[|ENTRY|..] == digits + ("] -> " + rest);
      RunOfDigits(digits, "] -> " + rest);
      assert s[|ENTRY| + |digits|..] == "] -> " + rest;
    }
  }

  lemma {:induction false} RunOfDigits(digits: string, rest: string)
    requires AllDigits(digits) && rest != "" && !IsDigit(rest[0])
    ensures DigitRun(digits + rest) == |digits|
  {
    if digits == "" {
      assert digits + rest == rest;
    } else {
      RunOfDigits(digits[1..], rest);
      assert (digits + rest)[1..] == digits[1..] + rest;
    }
  }

  // How often a line of one kind occurs.
  function Occurrences(lines: seq<string>, p: string -> bool): nat {
    if lines == [] then 0 else (if p(lines[0]) then 1 else 0) + Occurrences(lines[1..], p)
  }

  lemma {:induction false} FilterCounts(lines: seq<string>, p: string -> bool)
    ensures |Filter(lines, p)| == Occurrences(lines, p)
  {
    if lines != [] {
      FilterCounts(lines[1..], p);
    }
  }

  // What a text must say, read line by line, to prove a fee.
  ghost predicate Proves(lines: seq<string>, destination: string, reserve: int, hrp: string, fee: nat) {
    && IsU64(reserve) && fee <= reserve
    && Accepts(destination, hrp)
    && Occurrences(lines, IsSteps) == Occurrences(lines, IsPayments) == 1
    && Occurrences(lines, IsEntry) == Occurrences(lines, IsFee) == 1
    && (forall s :: s in lines && IsSteps(s) ==> s == "  Steps (1):")
    && (forall s :: s in lines && IsPayments(s) ==> s == "      Payments (1):")
    && (forall s :: s in lines && IsEntry(s) ==> s == "        [0] -> " + destination)
    && (forall s :: s in lines && IsFee(s) ==> ZecToZats(FeeText(s)) == Ok(fee))
  }

  lemma Sole(lines: seq<string>, p: string -> bool)
    ensures |Filter(lines, p)| == Occurrences(lines, p)
    ensures Occurrences(lines, p) == 1 ==>
      var s := Filter(lines, p)[0]; Filter(lines, p) == [s] && s in lines && p(s)
                                    && forall t :: t in lines && p(t) ==> t == s
  {
    hide Filter, Occurrences;
    FilterCounts(lines, p);
    if Occurrences(lines, p) == 1 {
      var kept := Filter(lines, p);
      assert kept[0] in kept;
      forall t | t in lines && p(t) ensures t == kept[0] {
        assert t in kept;
      }
    }
  }

  /** A proposal is accepted, with this fee, exactly when its text names one
      step, one payment, one recipient that is the destination, and one fee
      that reads as an amount within the reserve; no proposal names another. */
  lemma AcceptedIff(lines: seq<string>, destination: string, reserve: int, hrp: string, fee: nat)
    ensures ValidateProposal(lines, destination, reserve, hrp) == Ok(Proposal(destination, fee))
       <==> Proves(lines, destination, reserve, hrp, fee)
    ensures var r := ValidateProposal(lines, destination, reserve, hrp);
      r.Ok? ==> r.value.recipient == destination
  {
    hide IsFee, IsEntry, IsSteps, IsPayments, Accepts, ZecToZats, Occurrences, Filter;
    Sole(lines, IsSteps);
    Sole(lines, IsPayments);
    Sole(lines, IsEntry);
    Sole(lines, IsFee);
  }

  // ------------------------------------------------------- value and reserve

  function SweepValue(spendable: int, threshold: int, reserve: int, maximum: int): Result<nat, PolicyError> {
    if !IsU64(spendable) || !IsU64(threshold) || !IsU64(reserve) || !IsU64(maximum) then Err(NotU64)
    else if spendable < threshold || spendable <= reserve then Ok(0)
    else if spendable - reserve > maximum then Err(ExceedsCap)
    else Ok(spendable - reserve)
  }

  function NextReserve(reserve: int, used: int, attempts: int, maximum: int): Result<Option<nat>, PolicyError> {
    if !IsU64(reserve) || !IsU64(maximum) || !IsU64(used) || !IsU64(attempts) then Err(NotU64)
    else if used >= attempts || reserve * 2 > maximum then Ok(None)
    else Ok(Some(reserve * 2))
  }

  // What fits the 64 bits of every amount and count.
  predicate Fits(value: int) {
    0 <= value < 18_446_744_073_709_551_616
  }

  /** Every number is checked, whatever else decides the answer. */
  lemma NumbersAreChecked(spendable: int, threshold: int, reserve: int, maximum: int, used: int, attempts: int)
    ensures SweepValue(spendable, threshold, reserve, maximum) == Err(NotU64)
       <==> !(Fits(spendable) && Fits(threshold) && Fits(reserve) && Fits(maximum))
    ensures NextReserve(reserve, used, attempts, maximum) == Err(NotU64)
       <==> !(Fits(reserve) && Fits(used) && Fits(attempts) && Fits(maximum))
  {
  }

  // --------------------------------------------------- evidence after a send

  datatype Outcome = Confirmed | FeeUnverified | FeeBreach | FailedNoSpend | Unresolved

  function ClassifySend(status: int, before: int, after: Option<int>, fee: Option<int>, reserve: int)
    : Result<Outcome, PolicyError>
  {
    if !IsU64(reserve) || !IsU64(before) then Err(NotU64)
    else if after.None? then Ok(Unresolved)
    else if !IsU64(after.value) then Err(NotU64)
    else if after.value < before then Ok(Unresolved)
    else
      var recorded := after.value > before;
      if status == 0 && recorded then
        if fee.None? then Ok(FeeUnverified)
        else if !IsU64(fee.value) then Err(NotU64)
        else if fee.value > reserve then Ok(FeeBreach) else Ok(Confirmed)
      else if status != 0 && !recorded then Ok(FailedNoSpend)
      else Ok(Unresolved)
  }

  /** A count after the send and a recorded fee are checked only when they are looked at. */
  lemma EvidenceIsChecked(status: int, before: int, after: Option<int>, fee: Option<int>, reserve: int)
    ensures ClassifySend(status, before, after, fee, reserve) == Err(NotU64)
       <==> || !(Fits(reserve) && Fits(before)) || (after.Some? && !Fits(after.value))
            || (status == 0 && after.Some? && after.value > before && fee.Some? && !Fits(fee.value))
  {
  }

  // What one call of the wallet did, beside what the controller could read of it.
  datatype Reply = Reply(status: int, before: int, after: Option<int>, fee: Option<int>, broadcast: bool)

  // A reply and the reserve that was in force.
  datatype Send = Send(reserve: int, reply: Reply)

  function Classified(send: Send): Result<Outcome, PolicyError> {
    ClassifySend(send.reply.status, send.reply.before, send.reply.after, send.reply.fee, send.reserve)
  }

  // The wallet commits spend rows before it broadcasts, and nothing else spends or deletes.
  predicate CommitsFirst(reply: Reply) {
    reply.broadcast && reply.after.Some? ==> reply.after.value > reply.before
  }

  // The reply that is tried again although it paid: a failure without a record of it.
  predicate PaysUnseen(reply: Reply) {
    reply.broadcast && reply.status != 0 && IsU64(reply.before) && reply.after == Some(reply.before)
  }

  lemma CommittingIsSeen(reply: Reply)
    ensures CommitsFirst(reply) ==> !PaysUnseen(reply)
  {
  }

  function Broadcasts(sends: seq<Send>): nat {
    if sends == [] then 0
    else (if sends[0].reply.broadcast then 1 else 0) + Broadcasts(sends[1..])
  }

  /** Retrying only after "failed, no spend" pays at most once, whatever the
      wallet's exit codes, fees and unreadable counts were, as long as no reply
      pays unseen; a wallet that commits first gives none that does. */
  lemma {:induction false} RetriesPayOnce(sends: seq<Send>)
    requires forall i :: 0 <= i < |sends| ==> !PaysUnseen(sends[i].reply)
    requires forall i :: 0 <= i < |sends| - 1 ==> Classified(sends[i]) == Ok(FailedNoSpend)
    ensures Broadcasts(sends) <= 1
  {
    if sends != [] {
      assert |sends| > 1 ==> Classified(sends[0]) == Ok(FailedNoSpend);
      RetriesPayOnce(sends[1..]);
    }
  }
}
