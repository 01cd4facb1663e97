# Free2Z supervision, measurement and payment-safety logic in Dafny

These modules model the decision procedures that keep the Free2Z credit loop,
its payment producers and its chain follower safe, and prove what they promise
over whole runs. Input and output sit at the edges: a command, a clock reading,
a failed write, a node's answer or a kernel lock is an arbitrary value, a script
of answers or a step of a protocol. What loops over state in the repository is a
class or a method with a loop here, proved equal to a function; the properties
are lemmas about that function.

| part of the repository | modules |
|---|---|
| credit watchdog (`creditwatch.py`) | `Watchdog`, `WatchdogDecision`, `WatchdogCycle`, `WatchdogRecovery`, `WatchdogBudget`, `WatchdogNames`, `WatchdogClock`, `WatchdogLadder`, `WatchdogConfig`, `WatchdogDeadline`, `WatchdogSignals` |
| producer lease (`paymentd_mode.py`) | `ProducerLease` |
| sweep policy (`sweep_policy.py`) | `Bech32m`, `Bech32mAddress`, `Bech32mExample`, `ZecAmount`, `SweepPolicy`, `SweepRun` |
| wallet tip observer (`wallet_tip.py`) | `WalletTip` |
| node health (`nodewatch.py`) | `FloorProbe`, `NodeWatch`, `NodeWatchRun` |
| Merkle root and chain follower (`chain.rs`, `scanner.rs`, `journal.rs`) | `Merkle`, `ChainScan` |
| SPDX inventory adapter (`prepare-image-sbom.py`) | `SbomDocument`, `SbomValidate`, `SbomRenaming`, `SbomPrepare`, `SbomExample` |
| image archive reader (`host_runtime/image.py`) | `ImagePaths`, `ImageResolve` |
| visible-text parser (`check-translation-url-oracle.py`) | `VisibleText` |
| dependency audit (`check-dependency-audit.py`) | `Order`, `AuditAliases` |
| lock file reader (`python_requirements_lock.py`) | `RequirementsLock` |
| shared vocabulary | `Common`, `Text` |

## Main results

- **Restart budget.** In every run of the watchdog on a clock that does not go
  back, with any samples, any failed write and a kill before or after any write,
  every window holds at most one loop restart over the configured maximum, and
  two restarts of one dependency are a window apart. The configured names must
  be distinct; the code does not check this, and the budget holds of all runs if
  and only if they are (`WatchdogNames.BudgetHoldsExactlyWhenDistinct`).
- **Decisions and recovery.** Every output of a watchdog decision is an equivalence
  on what it saw and had saved, and a loop that recovered by itself is left alone
  whatever had been decided before.
- **Clock safety.** On an arbitrary clock the saved high-water mark never falls,
  and no cycle decides or resumes a restart before any time ever saved.
- **Ladder and deadline.** A wedged loop reaches the top rung, and a
  configuration without errors leaves time for every call of a whole escalation.
- **Producer exclusion.** In every interleaving of unboundedly many processes
  the two producers are never in their bodies together, provided the lock file is
  not replaced under a call that pinned it and callers without a lease are drained
  before the marker changes. Both conditions are exact.
- **Checksum.** No two accepted addresses of one prefix and length differ only
  inside six consecutive characters, and exactly one checksum is accepted for
  every prefix and payload; known addresses tell the checksum from the older one.
  Amounts print and parse back exactly.
- **Sweep.** Of a controller that doubles its reserve after a refused proposal and
  sends again only after "failed, no spend", which the repository leaves to
  controllers and this model assumes: in every run, whatever the wallet answers,
  each reserve is a doubling of the first inside its limits, and each send was
  proved and fits the balance it read. A wallet is paid from at most once in every
  run exactly when none of its replies pays unseen, and one that commits before it
  broadcasts gives none that does. A steady wallet is swept exactly when some
  reserve within reach covers its fee.
- **Observers.** The progress clock is the first time of the highest height ever
  saved, so with a readable state a stale verdict is decided by history alone. The
  floor bisection proves what it measures within its call budget, and the span it
  can always measure is exact; every number it reports is proved exactly outside a
  young chain. Node health verdicts are said by the observed history alone, and its
  heartbeat means that the state was at hand and nothing was found.
- **Chain follower.** The loop's Merkle root is the root of the recursive tree.
  Up to an explicit hash collision two lists share it exactly when their padded
  leaves agree, so it tells lists apart exactly when their lengths are known to
  be the same. A scan keeps the longest canonical prefix of the journal, and
  repeated scans reach the target; a failed scan is never ready.
- **Inventory, paths, text, aliases, provenance.** The SPDX validator accepts exactly
  the valid documents; renaming keeps validity and is undone by its inverse; link
  resolution is plain iteration with a bound; the parser shows exactly the visible
  text of a tree; alias groups merge under one stable name; a record is direct
  exactly when provenance follows it.

## Properties that hold only under a condition

- `probe_lightwalletd_floor` documents that it never returns a number it did not
  prove. It reports "at or below" the requirement also when the server refused
  the requirement and the tip is within the margin above it; the code is
  followed here. `FloorProbe.YoungChainIsUnproved` gives an instance. Whatever
  the server answers, every reported number was served in its own cycle if and
  only if no call is made, the tip is unknown or the anchor is above the
  requirement (`FloorProbe.ProvedExactly`).
- The watchdog's budget presumes distinct unit names, which `load_config` does
  not check: `WatchdogNames.RepeatedNameOverspends`. It holds of every run if
  and only if they are distinct (`WatchdogNames.BudgetHoldsExactlyWhenDistinct`).
- The wallet-tip observer evaluates an unreadable saved state as an empty one and
  never writes over it, so a stalled provider is not reported stale until the file
  is repaired: `WalletTip.DamagedStateHidesStaleness`. Staleness is reported if and
  only if the cycle can read its state (`WalletTip.StalenessNeedsState`); the state
  error is printed instead of the final line.
- An escalation of healthy units may run out of time before its last unit, because
  the clamped timeouts can use up the whole start timeout: it completes if and
  only if the time before it and between its calls fits what they leave over
  (`WatchdogDeadline.LoadedEscalationCompletes`).
- Replacing the lock file keeps the producers apart if and only if no call has
  pinned it (`ProducerLease.ReplacementNeedsUnpinned`), and rewriting the marker
  leaves every body selected if and only if no call without a lease is in its own
  (`ProducerLease.TransitionNeedsDraining`).
- A Merkle root with the documented duplicate padding does not determine its
  list: `Merkle.RepeatedLeafIsInvisible`. It does for lists of m and of n leaves
  if and only if m is n (`Merkle.RootTellsIff`), and for two given lists
  `Merkle.RootsAgreeIff` says exactly when they share it.

## Model

| member | source | states |
|---|---|---|
| Watchdog.RestartsOnlyWedgedLoop | py/free2z/zcashrpc/creditwatch.py:1118-1398 | a unit is only ever named for restart under a usable configuration without a threshold conflict, a readable log, bounded and atomic loop code, a ready known producer and a unit that is up, by the same producer, with the heartbeat count unchanged and the unit not re-entered, and then either to resume a saved decision or after more than the stale threshold |
| WatchdogDecision.DecisionMeans | py/free2z/zcashrpc/creditwatch.py:1118-1398 | every output of a decision as an equivalence on the fields of sample and record: which units are named, when each signal is given, and what is saved as undone, decided and as the heartbeat's clock |
| WatchdogDecision.RecordKeeps | py/free2z/zcashrpc/creditwatch.py:1138-1231 | the rest of the saved record: a heartbeat count of another producer is dropped, one that cannot be read is kept, budgets are only trimmed, and each clock flag says what held the cycle back |
| WatchdogDecision.RefusedMeans | py/free2z/zcashrpc/creditwatch.py:1402-1437 | a record is refused exactly when it holds a negative number or an empty pending name |
| WatchdogCycle.Supervisor.WriteState | py/free2z/zcashrpc/creditwatch.py:1463-1478 | a write that lands replaces the durable record, one that does not leaves it; a kill may fall on either side |
| WatchdogCycle.Supervisor.RunUnits | py/free2z/zcashrpc/creditwatch.py:1687-1747 | the restart loop over the units: pending tail saved when the start budget is gone, attempt charged and saved before its command, stop at the first unit not confirmed |
| WatchdogCycle.Supervisor.RunCycle | py/free2z/zcashrpc/creditwatch.py:1601-1756 | a whole invocation on durable state: invalid record left alone, decision saved before any action, failed save cancels the restart |
| WatchdogRecovery.MovedForgetsPending | py/free2z/zcashrpc/creditwatch.py:1250-1289 | a saved cycle that sees a new heartbeat or the unit started anew restarts nothing and leaves nothing to restart, and reports health unless the new start has yet to beat |
| WatchdogRecovery.RecoveredIsLeftAlone | py/free2z/zcashrpc/creditwatch.py:1278-1310 | over two cycles: whatever had been decided before the loop moved, the next cycle within the stale threshold names no unit and reports health |
| WatchdogBudget.RecentIsTail | py/free2z/zcashrpc/creditwatch.py:976-988 | on sorted past times, trimming keeps exactly the tail inside the window |
| WatchdogBudget.ChargeIsBudgeted | py/free2z/zcashrpc/creditwatch.py:1711-1728 | charging one pending unit keeps the invariant that ties the saved lists to every attempt ever made |
| WatchdogBudget.ActuateIsBudgeted | py/free2z/zcashrpc/creditwatch.py:1687-1747 | the restart loop keeps the invariant under any clock readings, failed writes and kills |
| WatchdogBudget.CycleIsBudgeted | py/free2z/zcashrpc/creditwatch.py:1601-1756 | a whole invocation keeps the invariant, whatever the sample |
| WatchdogBudget.RunIsBudgeted | py/free2z/zcashrpc/creditwatch.py:1118-1756 | every host of a run satisfies the invariant |
| WatchdogBudget.RestartBudget | py/free2z/zcashrpc/creditwatch.py:1118-1756 | over every run on a clock that does not go back, any window holds at most maxRestarts + 1 loop attempts, and two attempts of one dependency are at least a window apart |
| WatchdogNames.WedgedClimbs | py/free2z/zcashrpc/creditwatch.py:1310-1398 | a loop wedged from its first heartbeat, whose start time changes with every restart, is restarted once a period until the budget is spent |
| WatchdogNames.ClimbedEscalates | py/free2z/zcashrpc/creditwatch.py:1328-1372 | the next sample then charges every dependency and the loop in one cycle |
| WatchdogNames.RepeatedNameOverspends | py/free2z/zcashrpc/creditwatch.py:437-483 | with a name listed twice, or the loop among its own dependencies, that run exceeds the budget |
| WatchdogNames.BudgetHoldsExactlyWhenDistinct | py/free2z/zcashrpc/creditwatch.py:437-483 | the budget holds of every run if and only if the dependency names and the loop unit are pairwise distinct |
| WatchdogClock.InRecent | py/free2z/zcashrpc/creditwatch.py:976-988 | trimming forgets an entry only when it is past and a whole window old; future entries stay |
| WatchdogClock.LatestCovers | py/free2z/zcashrpc/creditwatch.py:991-1007 | the latest saved time bounds every timestamp a record carries |
| WatchdogClock.EvaluateAdvances | py/free2z/zcashrpc/creditwatch.py:1118-1228 | a decision moves no clock back and forgets no timestamp later than its own high-water mark, in every branch |
| WatchdogClock.ChargeAdvances | py/free2z/zcashrpc/creditwatch.py:1711-1728 | so does charging an attempt, even one dated by a clock that fell meanwhile |
| WatchdogClock.RunKeepsClock | py/free2z/zcashrpc/creditwatch.py:1601-1756 | along any run the saved records form a chain that never goes back |
| WatchdogClock.HighWaterNeverFalls | py/free2z/zcashrpc/creditwatch.py:1175-1228 | `clock_high_water` never decreases from one saved record to a later one, on an arbitrary clock |
| WatchdogClock.NoRestartBeforeSavedTime | py/free2z/zcashrpc/creditwatch.py:991-1007 | a cycle that decides or resumes a restart has a sample no earlier than any timestamp the run ever saved |
| WatchdogLadder.WedgedDecision | py/free2z/zcashrpc/creditwatch.py:1290-1398 | on an armed record and a frozen heartbeat the decision is exactly to wait, restart the loop, or take the top rung |
| WatchdogLadder.CountRecent | py/free2z/zcashrpc/creditwatch.py:976-988 | trimming loses no restart since a time the window still reaches |
| WatchdogLadder.Climb | py/free2z/zcashrpc/creditwatch.py:1290-1398 | from n counted restarts the run takes the top rung by a time linear in the rungs left |
| WatchdogLadder.WedgedLoopReachesTop | py/free2z/zcashrpc/creditwatch.py:1290-1398 | a wedged loop sampled at most d apart, with 2 d maxRestarts below the stale threshold, escalates to the dependencies, or gives up when there are none |
| WatchdogConfig.BoundedInt | py/free2z/zcashrpc/creditwatch.py:375-403 | a setting read without error lies in its range |
| WatchdogConfig.BoundedIntIff | py/free2z/zcashrpc/creditwatch.py:393-403 | a setting is read as a value exactly when it is absent and that is the default, or it is one to nine digits between white space that denote it, in the range; an error leaves the default |
| WatchdogConfig.LoadedMeans | py/free2z/zcashrpc/creditwatch.py:406-483 | the configuration is usable exactly when all five settings name a value and five seconds per call fit the start deadline; then every field as an equivalence: the longest timeout up to the named one that fits, the window widened to a whole climb, one note for each adjustment |
| WatchdogConfig.DefaultsAreUsable | py/free2z/zcashrpc/creditwatch.py:406-454 | with nothing configured and at most one dependency the settings are usable and need no adjustment |
| WatchdogConfig.EscalationFitsStartDeadline | py/free2z/zcashrpc/creditwatch.py:406-437 | without configuration errors 2 * timeout * (1 + dependencies) + 120 is within the unit's start timeout |
| WatchdogConfig.LoadedBounds | py/free2z/zcashrpc/creditwatch.py:439-483 | without errors thresholds lie in their ranges and the window holds (maxRestarts + 1) stale thresholds |
| WatchdogConfig.LoadedLadderIsReachable | py/free2z/zcashrpc/creditwatch.py:160-162 | the loaded window is wide enough for a whole climb |
| WatchdogDeadline.Actuator.Restart | py/free2z/zcashrpc/creditwatch.py:1481-1528 | one unit's producer probe and two bounded calls on the shared clock, the first bounded by what was left before the probe |
| WatchdogDeadline.Actuator.RestartAll | py/free2z/zcashrpc/creditwatch.py:1687-1747 | the sequential loop on the shared clock, each unit after its record write, stopping at the deadline or the first unconfirmed unit |
| WatchdogDeadline.RestartsEndByDeadline | py/free2z/zcashrpc/creditwatch.py:1481-1528 | however long the calls would take, restarting is over by the shared deadline or one record write or producer probe after it |
| WatchdogDeadline.ConfirmedMeans | py/free2z/zcashrpc/creditwatch.py:1481-1528 | a unit is confirmed exactly when time was left before both calls, the producer allowed it, and both calls answered well within timeout and deadline |
| WatchdogDeadline.NoUnitIsStarved | py/free2z/zcashrpc/creditwatch.py:1687-1747 | with two timeouts and the write and probe per unit before the deadline, calls that answer in time are all confirmed |
| WatchdogDeadline.LoadedEscalationCompletes | py/free2z/zcashrpc/creditwatch.py:1768-1770 | under a loaded configuration every full escalation of healthy units is confirmed if and only if the delay before it and the writes and probes between its calls fit what the clamped timeouts leave over |
| WatchdogDeadline.EscalationAlwaysFits | py/free2z/zcashrpc/creditwatch.py:406-437 | without them it always is, and the defaults with one dependency leave a minute |
| WatchdogSignals.ActuateIsHonest | py/free2z/zcashrpc/creditwatch.py:1687-1752 | the restart loop reports recovery only after the loop's command was issued in it and the unit then found active |
| WatchdogSignals.UnsavedClaimsNothing | py/free2z/zcashrpc/creditwatch.py:1531-1545 | a cycle whose record was not saved prints neither health nor a restart decision |
| WatchdogSignals.SignalsAreHonest | py/free2z/zcashrpc/creditwatch.py:1601-1756 | in every cycle, under any failure, recovery is claimed only for a command confirmed in that cycle, and health or a decision only after its record was saved |
| WatchdogSignals.TurnMeans | py/free2z/zcashrpc/creditwatch.py:1687-1747 | one unit's turn by fields: when the next may follow, when the process dies, what is charged and what is said |
| WatchdogSignals.UnsavedMeans | py/free2z/zcashrpc/creditwatch.py:1632-1682 | a failed save takes back health and the restarts given up, keeps every other line and says it is impaired |
| WatchdogSignals.CycleSays | py/free2z/zcashrpc/creditwatch.py:1601-1756 | what a whole invocation prints: the complaint of an invalid record, the decision of a dry run, or the decision and then exactly recovery if the loop was confirmed and impairment if not every unit was |
| ProducerLease.LeaseHost.Acquire | py/free2z/zcashrpc/paymentd_mode.py:98-145 | acquiring polls to a deadline, with steps of others before every poll, the pin and the check; every call is a path of the protocol, and it enters its body if and only if it is no shared call for an invalid marker and no exclusive one without root, some poll is granted, the lock file it polled is installed when it is pinned and the marker then reads as expected; without a lock file only a shared legacy call goes on; a refused call changes nothing |
| ProducerLease.BodiesComeAndGo | py/free2z/zcashrpc/paymentd_mode.py:132-145 | a body is entered by a check that finds the marker as expected and by nothing else, and left by leaving it and by nothing else |
| ProducerLease.InvKept | py/free2z/zcashrpc/paymentd_mode.py:85-145 | every disciplined step keeps the invariant of locks, pinned inode and marker |
| ProducerLease.InvSeparates | py/free2z/zcashrpc/paymentd_mode.py:85-145 | the invariant keeps the two producers apart, every body agreeing with the marker, and only shared legacy calls without a lease |
| ProducerLease.ProducersNeverOverlap | py/free2z/zcashrpc/paymentd_mode.py:98-161 | for any number of processes and any interleaving, every body is selected by the marker and a legacy body and a paymentd body never overlap, as long as the lock file is not replaced under a call that pinned it and the marker not rewritten beside a call without a lease |
| ProducerLease.TransitionNeedsDraining | py/free2z/zcashrpc/paymentd_mode.py:98-107 | rewriting the marker leaves every other body selected if and only if no call without a lease is in its body |
| ProducerLease.ReplacementNeedsUnpinned | py/free2z/zcashrpc/paymentd_mode.py:85-95 | in a reachable state, another lock file in place of the installed one keeps the producers apart in every disciplined run if and only if no call has pinned the installed one |
| ProducerLease.ReplacedLockOverlaps | py/free2z/zcashrpc/paymentd_mode.py:85-95 | an instance: a legacy call that pinned the old file is joined by a paymentd call under the new one |
| Bech32m.PushLinear | py/free2z/zcashrpc/sweep_policy.py:90-95 | one turn of the checksum loop is linear over exclusive or |
| Bech32m.PushKeepsDifference | py/free2z/zcashrpc/sweep_policy.py:90-95 | a turn on a zero value never clears a nonzero register, so no difference is lost |
| Bech32m.SixSymbolsShow | py/free2z/zcashrpc/sweep_policy.py:88-95 | up to six symbols pushed into an empty register leave it zero only if all are zero |
| Bech32m.WindowDetected | py/free2z/zcashrpc/sweep_policy.py:88-96 | two value lists of one length that differ only inside six consecutive symbols never reach the same register |
| Bech32m.UnpackPushes | py/free2z/zcashrpc/sweep_policy.py:88-95 | every register value is reached from zero by its own six symbols |
| Bech32m.ClosingCloses | py/free2z/zcashrpc/sweep_policy.py:88-96 | from every register six symbols lead to the constant |
| Bech32mAddress.Absorb | py/free2z/zcashrpc/sweep_policy.py:90-95 | the inner loop over the five generators computes one turn |
| Bech32mAddress.Checksum | py/free2z/zcashrpc/sweep_policy.py:88-95 | the outer loop computes the register of the whole value list |
| Bech32mAddress.ChecksumOk | py/free2z/zcashrpc/sweep_policy.py:76-96 | `bech32m_ok`: plain lowercase text, split at the last separator, expected prefix, six data characters of the alphabet and the constant |
| Bech32mAddress.AcceptsIff | py/free2z/zcashrpc/sweep_policy.py:76-96 | an address is accepted for a prefix exactly when it is that prefix of lowercase letters and digits, the separator and six or more characters of the alphabet, whose values lead the register to 0x2BC830A3 |
| Bech32mAddress.CharHasSymbol | py/free2z/zcashrpc/sweep_policy.py:16-16 | every five-bit symbol is the index of its own character |
| Bech32mAddress.NeighboursAreTheSame | py/free2z/zcashrpc/sweep_policy.py:76-96 | no two accepted addresses of one prefix and one length differ only inside six consecutive characters |
| Bech32mAddress.SuffixIsAccepted | py/free2z/zcashrpc/sweep_policy.py:76-96 | the computed checksum of any prefix and payload is accepted |
| Bech32mAddress.ExactlyOneSuffix | py/free2z/zcashrpc/sweep_policy.py:76-96 | for every prefix and payload exactly one six-character checksum is accepted |
| Bech32mExample.OnlyTheNewChecksum | py/free2z/zcashrpc/sweep_policy.py:88-96 | the empty payload under "a" is accepted with the checksum of BIP 350 and not with that of BIP 173 |
| Bech32mExample.WholeAlphabetAccepted | py/free2z/zcashrpc/sweep_policy.py:16-16 | the vector of BIP 350 that spells the whole alphabet is accepted |
| ZecAmount.ReadingDecides | py/free2z/zcashrpc/sweep_policy.py:58-73 | any way to read a text as digits, point, eight digits and ticker decides the result: that amount, or out of range |
| ZecAmount.ShapeErrorIff | py/free2z/zcashrpc/sweep_policy.py:66-69 | a text is refused for its shape exactly when it has no such reading |
| ZecAmount.RoundTrip | py/free2z/zcashrpc/sweep_policy.py:27-73 | every amount printed with eight decimals, any white space and any ticker parses back; one above 64 bits is out of range |
| ZecAmount.PlainRoundTrip | py/free2z/zcashrpc/sweep_policy.py:58-73 | the printed form itself is such a text |
| ZecAmount.SpaceIsIgnored | py/free2z/zcashrpc/sweep_policy.py:66-66 | white space anywhere changes nothing |
| SweepPolicy.AcceptedIff | py/free2z/zcashrpc/sweep_policy.py:105-130 | a proposal is accepted with a fee exactly when its text has one step, one payment, one recipient that is the destination, a valid checksum, and one fee line reading as that amount within the reserve; none is accepted for another recipient |
| SweepPolicy.LineKinds | py/free2z/zcashrpc/sweep_policy.py:116-119 | the four kinds of line by the text they begin with, an entry with any digits or none between its brackets |
| SweepPolicy.NumbersAreChecked | py/free2z/zcashrpc/sweep_policy.py:223-242 | the value and the next reserve are refused as no numbers exactly when some argument is outside 64 bits |
| SweepPolicy.EvidenceIsChecked | py/free2z/zcashrpc/sweep_policy.py:198-211 | so is the evidence after a send, whose later count and fee are checked only when they are looked at |
| SweepPolicy.RetriesPayOnce | py/free2z/zcashrpc/sweep_policy.py:189-214 | unless a reply broadcasts, fails and leaves the spend count as it was, which a wallet that commits first never does, retrying only after "failed, no spend" broadcasts at most once |
| SweepRun.RunIsSafe | py/free2z/zcashrpc/sweep_policy.py:105-242 | over every run of value, proposal, send and next reserve: reserves are exact doublings within cap and attempts; a step sends all but the reserve exactly when there is something to sweep and its text proves a fee, and value plus quoted fee is spendable; each outcome is an equivalence on exit status, spend counts and recorded fee, "confirmed" means value plus recorded fee was spendable and "fee breach" that it was not; and at most one send is broadcast, carrying at most the maximum |
| SweepRun.PaidOnceIff | py/free2z/zcashrpc/sweep_policy.py:189-214 | a wallet is paid from at most once in every run if and only if none of its replies broadcasts, fails and leaves the spend count as it was |
| SweepRun.LateCommitPaysTwice | py/free2z/zcashrpc/sweep_policy.py:192-194 | the run in which such a reply pays twice |
| SweepRun.ProposalReads | py/free2z/zcashrpc/sweep_policy.py:105-130 | a proposal written for the destination is read back with its fee and accepted exactly when the reserve covers it |
| SweepRun.SweptIff | py/free2z/zcashrpc/sweep_policy.py:223-242 | with a steady wallet a sweep is confirmed exactly when the balance reaches the threshold and exceeds the first reserve by at most the maximum, and some doubling within attempts and cap covers the fee and leaves something to sweep |
| WalletTip.Observe | py/free2z/zcashrpc/wallet_tip.py:225-257 | the loop over the two keys, state from an older version included |
| WalletTip.EvaluateLoop | py/free2z/zcashrpc/wallet_tip.py:207-316 | `evaluate` statement by statement |
| WalletTip.RunTracks | py/free2z/zcashrpc/wallet_tip.py:207-311 | over every run from an empty state with one provider, saved progress is the highest height ever saved and its first time, and the saved observation is the latest height and the start of its unbroken stretch |
| WalletTip.Observed | py/free2z/zcashrpc/wallet_tip.py:362-400 | the cycle from reading the saved state to the last line: an unreadable state is evaluated as empty and never written over, and a state error replaces the final line |
| WalletTip.StaleMeansNoProgress | py/free2z/zcashrpc/wallet_tip.py:259-400 | every verdict a cycle prints as an equivalence on the history alone when its state is readable, and none of staleness otherwise; the final line exactly when the state was read and not failed to be written |
| WalletTip.MovementMeans | py/free2z/zcashrpc/wallet_tip.py:229-303 | over every run: a fall is printed for a key exactly when it stands below the height last saved, a recovery exactly when a key stands above it, the cycle that saved it raised an alarm and this one raises none; an unreadable state hides both and is said twice |
| WalletTip.StalenessNeedsState | py/free2z/zcashrpc/wallet_tip.py:362-400 | a history without progress is reported in a cycle if and only if it can read its saved state |
| WalletTip.UnreadableStays | py/free2z/zcashrpc/wallet_tip.py:385-387 | cycles that cannot read the state leave it as it is and report no staleness, however many |
| WalletTip.DamagedStateHidesStaleness | py/free2z/zcashrpc/wallet_tip.py:362-400 | an instance: a provider that stood still for a day |
| WalletTip.OlderStateIsEither | py/free2z/zcashrpc/wallet_tip.py:228-257 | an older state reads as if its observation were its progress, unless the next height is lower |
| WalletTip.SourceChangeStartsOver | py/free2z/zcashrpc/wallet_tip.py:217-219 | another provider's history never counts |
| WalletTip.ObserverBudgets | py/free2z/zcashrpc/wallet_tip.py:328-338 | both inner calls and the cleanup fit strictly inside the outer deadline whatever is configured, and the configured call time is kept exactly when it fits |
| FloorProbe.Budget.Ask | py/free2z/zcashrpc/nodewatch.py:599-605 | a call is paid for and recorded, or refused when the budget is gone |
| FloorProbe.ProbeFloor | py/free2z/zcashrpc/nodewatch.py:567-657 | the probe with its bisection loop, for a server that may change its answer at every call |
| FloorProbe.MeasuredIsProved | py/free2z/zcashrpc/nodewatch.py:588-591 | whatever the server answers, at most maxCalls calls are made, and a measured height was served and the one below it refused in this cycle |
| FloorProbe.FailureIsExplained | py/free2z/zcashrpc/nodewatch.py:607-656 | "unmeasured" means no requirement, no call left or no runnable client, "unserved" no answer or a refused anchor, "skipped" exactly no tip |
| FloorProbe.AtOrBelowIff | py/free2z/zcashrpc/nodewatch.py:613-630 | when "at or below" is reported: exactly when the requirement was served, or refused with the tip within the margin, in one call |
| FloorProbe.YoungChainIsUnproved | py/free2z/zcashrpc/nodewatch.py:625-630 | an instance where everything is refused and "at or below" is reported, unproved |
| FloorProbe.ProvedUnlessRefused | py/free2z/zcashrpc/nodewatch.py:588-630 | in one cycle the reported height was served unless the anchor is not above the requirement and the requirement was refused |
| FloorProbe.ProvedExactly | py/free2z/zcashrpc/nodewatch.py:588-630 | every reported height was served in its own cycle, whatever the server answers, if and only if no requirement, no call or no tip is given or the anchor is above the requirement |
| FloorProbe.MeasuredIsLeast | py/free2z/zcashrpc/nodewatch.py:640-657 | for a steady monotone server a measured height is the least served one |
| FloorProbe.NeverExhausted | py/free2z/zcashrpc/nodewatch.py:82-87 | a span of at most 2^(maxCalls-2) never exhausts the budget |
| FloorProbe.ExhaustedExactly | py/free2z/zcashrpc/nodewatch.py:640-657 | the bound is exact for the server that starts serving at the anchor |
| NodeWatch.OneLinePerService | py/free2z/zcashrpc/nodewatch.py:849-864 | the loop that folds a service's later lines into its first |
| NodeWatch.FoldKeeps | py/free2z/zcashrpc/nodewatch.py:849-864 | at most one line per service, every reason of every service kept in order, all other lines unchanged |
| NodeWatch.FindBaseline | py/free2z/zcashrpc/nodewatch.py:1010-1013 | the search walks the history and keeps the last fitting count |
| NodeWatch.CheckContainers | py/free2z/zcashrpc/nodewatch.py:1000-1021 | the loop over the two containers: missing, no baseline, or grown |
| NodeWatch.EvaluateLoop | py/free2z/zcashrpc/nodewatch.py:937-1113 | `evaluate` statement by statement |
| NodeWatch.HeartbeatIff | py/free2z/zcashrpc/nodewatch.py:1099-1112 | the heartbeat is printed exactly when every other line only informs |
| NodeWatch.ServiceMeans | py/free2z/zcashrpc/nodewatch.py:945-1097 | what a cycle says of a service is everything it holds against it, in order: for the node a failed call and a missing container, for lightwalletd a missing container, a failed call and an unserved floor |
| NodeWatch.InfoMeans | py/free2z/zcashrpc/nodewatch.py:1039-1097 | a line informs exactly when it is about the floor or the end of support |
| NodeWatchRun.RunTracks | py/free2z/zcashrpc/nodewatch.py:953-974 | over every run, on any clock, the saved tip is the latest height answered since its unbroken stretch began, an unreadable state starting over |
| NodeWatchRun.RunStands | py/free2z/zcashrpc/nodewatch.py:953-995 | on a clock that does not go back the saved history is also every saved count of the last four windows |
| NodeWatchRun.HeartbeatMeans | py/free2z/zcashrpc/nodewatch.py:1191-1224 | the heartbeat is printed exactly when the state was readable, not failed to be written, and every other line only informs |
| NodeWatchRun.InformsMean | py/free2z/zcashrpc/nodewatch.py:1191-1205 | what informs in the printed lines: the floor, the end of support, and that the heartbeat was suppressed when only the state stood in its way |
| NodeWatchRun.StaleMeans | py/free2z/zcashrpc/nodewatch.py:959-974 | on any clock, a tip is reported stale exactly when the state is readable and the height now answered was the only one answered for the whole threshold; outages neither restart the stretch nor end it |
| NodeWatchRun.BehindMeans | py/free2z/zcashrpc/nodewatch.py:981-988 | the tip is reported behind exactly when both heights are known and the network is more than the allowed blocks ahead |
| NodeWatchRun.ServicePrinted | py/free2z/zcashrpc/nodewatch.py:945-1097 | a service is reported exactly when the cycle holds something against it, with every such reason |
| NodeWatchRun.RestartLoopMeans | py/free2z/zcashrpc/nodewatch.py:990-1021 | a restart loop is reported exactly when the state is readable and the count grew by the threshold since the latest saved cycle between one and four windows old that listed the container |
| NodeWatchRun.HealthMeans | py/free2z/zcashrpc/nodewatch.py:1099-1112 | the heartbeat as an equivalence on the sample and the history alone |
| Merkle.PairUp | rs/zcash-payment-hooks/src/chain.rs:311-323 | one round: odd level doubled at its end, then hashed in pairs |
| Merkle.LevelKeepsTree | rs/zcash-payment-hooks/src/chain.rs:308-326 | one level of pairing takes one step off the recursive tree |
| Merkle.MerkleRoot | rs/zcash-payment-hooks/src/chain.rs:308-326 | the loop computes the root of the top-down tree of least height, halving its level each round |
| Merkle.RootBinds | rs/zcash-payment-hooks/src/chain.rs:308-326 | different lists of one length with one root exhibit two pairs that collide |
| Merkle.RootDetermines | rs/zcash-payment-hooks/src/chain.rs:308-326 | with an injective pair hash, lists of one length with one root are equal |
| Merkle.PaddingIsHashed | rs/zcash-payment-hooks/src/chain.rs:307-314 | the tree hashes its leaves padded to a power of two by repeating the half that is there |
| Merkle.PaddedRootsBind | rs/zcash-payment-hooks/src/chain.rs:308-326 | two lists of any lengths share their root when their padded leaves agree at the height of the shallower, and otherwise a shared root exhibits a collision |
| Merkle.RootsAgreeIff | rs/zcash-payment-hooks/src/chain.rs:308-326 | with an injective pair hash they share it exactly then |
| Merkle.RootTellsIff | rs/zcash-payment-hooks/src/chain.rs:308-326 | with an injective pair hash the root determines the list among lists of m and n leaves if and only if m is n |
| Merkle.RepeatedLeafIsInvisible | rs/zcash-payment-hooks/src/chain.rs:311-314 | an instance for any hash: an odd list longer than one and the same list with its last leaf repeated share their root |
| ChainScan.Journal.Append | rs/zcash-payment-hooks/src/journal.rs:404-462 | only a block that extends the journal is written |
| ChainScan.Journal.RollbackOne | rs/zcash-payment-hooks/src/journal.rs:463-500 | the last block is removed, or stays when its transaction fails |
| ChainScan.Rollback | rs/zcash-payment-hooks/src/scanner.rs:35-40 | the rollback loop ends at a block within the target that the node confirms; with a steady node at the last such block |
| ChainScan.Fetch | rs/zcash-payment-hooks/src/scanner.rs:43-59 | a block is fetched exactly when the calls of its turn serve it: its hash, the block of that hash, its predecessor if the journal is empty, and once more the hash of the tip and its own |
| ChainScan.FetchOne | rs/zcash-payment-hooks/src/scanner.rs:42-65 | one turn appends a block so served that extends the journal, linked and confirmed, or changes nothing |
| ChainScan.CatchUp | rs/zcash-payment-hooks/src/scanner.rs:41-65 | the batch loop appends consecutive confirmed blocks, at most a hundred and up to the target, and all of them when it succeeds |
| ChainScan.Settle | rs/zcash-payment-hooks/src/scanner.rs:66-92 | a scan settles exactly when the tip hash, the last block, and again the tip hash still stand, and is then ready exactly when no further block may be followed under the tip named last |
| ChainScan.Scan | rs/zcash-payment-hooks/src/scanner.rs:23-94 | whatever the node answers, the journal stays linked from the birthday and is rebuilt behind a block the node confirms towards the tip it named first; a failed scan is never ready, one that succeeds fetched its whole batch and settled; readiness means that the next block lacks confirmations, or is beyond the tip when early; with a steady node the scan follows its chain to blocks with enough confirmations and is ready exactly then |
| ChainScan.KeptIsLongest | rs/zcash-payment-hooks/src/scanner.rs:35-40 | rollback keeps exactly the blocks that are canonical and within the target |
| ChainScan.FollowIsSegment | rs/zcash-payment-hooks/src/scanner.rs:35-65 | the journal is then the canonical chain from birthday to min(target, start + 99) |
| ChainScan.ScansGain | rs/zcash-payment-hooks/src/scanner.rs:35-65 | each further scan gains a hundred blocks until the target |
| ChainScan.ScansReachTarget | rs/zcash-payment-hooks/src/scanner.rs:35-65 | enough scans make the journal the whole canonical chain to the target |
| SbomValidate.Validate | scripts/free2z/prepare-image-sbom.py:81-152 | `validate`, check after check: it accepts exactly the valid documents and returns their identifiers in document order |
| SbomValidate.WalkIff | scripts/free2z/prepare-image-sbom.py:105-120 | the recursive walk passes exactly when every reference key anywhere in the document, at the end of whatever path, stands where the schema puts one |
| SbomValidate.CheckReferences | scripts/free2z/prepare-image-sbom.py:59-78 | the slots in order: every one names an element, and only the end of a relationship may be one of the two tokens |
| SbomValidate.ReadIdentifiers | scripts/free2z/prepare-image-sbom.py:100-103 | identifiers are read exactly when all are legal and none is repeated |
| SbomValidate.CheckRoot | scripts/free2z/prepare-image-sbom.py:141-151 | exactly one container image, the one described, with one legal digest |
| SbomValidate.LegalIdIff | scripts/free2z/prepare-image-sbom.py:19-19 | an identifier is legal exactly when it is the prefix and at least one letter, digit, dot or hyphen |
| SbomValidate.LegalDigestIff | scripts/free2z/prepare-image-sbom.py:20-20 | a digest is 64 lowercase hexadecimal digits |
| SbomRenaming.ItemStaysValid | scripts/free2z/prepare-image-sbom.py:59-152 | a package or file stays valid under renaming, its references included |
| SbomRenaming.RelationStaysValid | scripts/free2z/prepare-image-sbom.py:71-73 | so does a relationship, and it describes the image exactly if it did |
| SbomRenaming.StaysValid | scripts/free2z/prepare-image-sbom.py:81-152 | every valid document stays valid under any renaming of its elements to legal distinct names, with the identifiers renamed in order |
| SbomRenaming.RenamesBack | scripts/free2z/prepare-image-sbom.py:155-169 | renaming there and back restores the document exactly |
| SbomPrepare.MappingRenames | scripts/free2z/prepare-image-sbom.py:161-162 | the generated mapping gives every element a legal name of its own |
| SbomPrepare.Document.ReplaceIds | scripts/free2z/prepare-image-sbom.py:155-157 | overwriting the slots in place renames exactly the schema-defined identifiers |
| SbomPrepare.PreparedIsSound | scripts/free2z/prepare-image-sbom.py:160-169 | a prepared document is valid and the inverse mapping gives the original |
| SbomPrepare.Prepare | scripts/free2z/prepare-image-sbom.py:160-173 | only a document that is invalid, that the encoder refuses or that is oversized is refused: both self-checks are unreachable |
| SbomPrepare.PreparedIsNumbered | scripts/free2z/prepare-image-sbom.py:161-162 | elements are numbered in document order |
| SbomPrepare.PreparedDetermines | scripts/free2z/prepare-image-sbom.py:166-169 | a prepared form and the old names belong to one document only |
| SbomPrepare.PreparingIsIdempotent | scripts/free2z/prepare-image-sbom.py:160-173 | preparing a prepared document changes nothing |
| SbomExample.SmallInventoryIsValidIff | scripts/free2z/prepare-image-sbom.py:81-152 | the inventory of one image and one package is valid for every legal digest and for no other |
| ImagePaths.SplitConcat | scripts/free2z/host_runtime/image.py:11-11 | splitting a path put together with a slash splits both sides |
| ImagePaths.CanonicalLoop | scripts/free2z/host_runtime/image.py:9-22 | the stack loop of `canonical` |
| ImagePaths.CanonicalIsIdempotent | scripts/free2z/host_runtime/image.py:9-22 | a canonical path is its own canonical form |
| ImagePaths.CanonicalAppend | scripts/free2z/host_runtime/image.py:9-22 | canonical before or after appending is the same, errors included |
| ImagePaths.CanonicalFormIff | scripts/free2z/host_runtime/image.py:9-22 | canonical paths are exactly the empty one and those whose parts are all clean |
| ImagePaths.AcceptedIff | scripts/free2z/host_runtime/image.py:9-22 | a path is accepted exactly when it holds no backslash and no NUL and no prefix of its parts leads above the root, and each refusal names a reason that holds |
| ImageResolve.LookLoop | scripts/free2z/host_runtime/image.py:79-94 | the inner loop over the prefixes of a name |
| ImageResolve.LookJudgesFirst | scripts/free2z/host_runtime/image.py:80-92 | a name is judged by its first prefix that is not plain: absent, a link, or a file where a directory should be |
| ImageResolve.Resolve | scripts/free2z/host_runtime/image.py:72-95 | the bounded loop with its visited set |
| ImageResolve.ResolvedIsPlain | scripts/free2z/host_runtime/image.py:72-95 | a resolved name exists, is canonical, passes no link and has a directory at every proper prefix |
| ImageResolve.ResolveIsIdempotent | scripts/free2z/host_runtime/image.py:72-95 | resolving a resolved path changes nothing |
| ImageResolve.ResolvesIffRests | scripts/free2z/host_runtime/image.py:72-95 | `resolve` returns a name exactly when plain iteration comes to rest there within 64 steps |
| ImageResolve.RefusalsMean | scripts/free2z/host_runtime/image.py:74-95 | each refusal as an equivalence: a cycle is two equal names among the first 64 and never ends, "too many" is 64 different names with a link behind them, and a missing name, a file used as a directory or a bad link is one the links lead to within 64 steps |
| ImageResolve.LinkIsRelative | scripts/free2z/host_runtime/image.py:85-89 | a relative link continues from the directory that holds it |
| ImageResolve.JumpLeads | scripts/free2z/host_runtime/image.py:84-90 | where a link leads: what it says and the rest of the name, part by part, from the directory that holds it for a relative symbolic link and from the root for any other, errors included |
| ImageResolve.Index | scripts/free2z/host_runtime/image.py:55-70 | the index accepts exactly the archives with canonical distinct names of plain kinds within the limits, and holds every member |
| ImageResolve.NamesMean | scripts/free2z/host_runtime/image.py:57-60 | the index takes a name exactly when it is empty or clean parts with slashes between and behind them, and files it under those parts |
| VisibleText.Parser.HandleStartTag | scripts/free2z/check-translation-url-oracle.py:108-130 | a start tag pushes the inherited and overridden flags, unless the tag is void |
| VisibleText.Parser.HandleEndTag | scripts/free2z/check-translation-url-oracle.py:132-136 | an end tag closes from the last open element of its name |
| VisibleText.Parser.HandleData | scripts/free2z/check-translation-url-oracle.py:138-140 | text is kept unless a flag hides it |
| VisibleText.Parser.FeedAll | scripts/free2z/check-translation-url-oracle.py:100-140 | feeding events one by one |
| VisibleText.VisiblePaymentText | scripts/free2z/check-translation-url-oracle.py:143-147 | the text let through, without struts |
| VisibleText.FlagsAreNearest | scripts/free2z/check-translation-url-oracle.py:108-130 | the three flags mean: some display none around, the innermost visibility hidden, the innermost colour transparent |
| VisibleText.TwoElements | scripts/free2z/check-translation-url-oracle.py:109-130 | text in two elements by what their styles declare: display from both, visibility from the inner one if given, colour from the inner one unless empty or taken from outside |
| VisibleText.OnlyHexColors | scripts/free2z/check-translation-url-oracle.py:124-127 | transparent are the word, and three or six hexadecimal digits followed by a zero opacity |
| VisibleText.VoidTagsOpenNothing | scripts/free2z/check-translation-url-oracle.py:129-130 | exactly the eight void tags open no element |
| VisibleText.NodeReads | scripts/free2z/check-translation-url-oracle.py:100-140 | the events of a well-nested element let through exactly its visible text and restore the stack |
| VisibleText.DocumentReads | scripts/free2z/check-translation-url-oracle.py:100-147 | so do those of a whole document |
| VisibleText.StrutsGo | scripts/free2z/check-translation-url-oracle.py:146-147 | removing struts takes every strut and nothing else |
| AuditAliases.PreferredIdentifier | scripts/free2z/check-dependency-audit.py:78-86 | the prefix loop finds the least identifier, GHSA before CVE before others |
| AuditAliases.UnionKeepsPreferred | scripts/free2z/check-dependency-audit.py:301-307 | joining groups with one preferred identifier keeps it |
| AuditAliases.DeduplicateLoop | scripts/free2z/check-dependency-audit.py:291-309 | the merging loop and the final sort |
| AuditAliases.RowsAreFindings | scripts/free2z/check-dependency-audit.py:295-308 | a dictionary key never goes stale: merged rows are still shown under the key they were stored with |
| AuditAliases.DeduplicatedGroups | scripts/free2z/check-dependency-audit.py:291-309 | one row for each key, in order, with the union of its identifiers, under an unchanged name |
| AuditAliases.DeduplicateIsIdempotent | scripts/free2z/check-dependency-audit.py:291-309 | deduplicating twice is deduplicating once |
| AuditAliases.MergedRowIsCovered | scripts/free2z/check-dependency-audit.py:291-294 | an entry that covers a raw row covers the row it is merged into |
| AuditAliases.MatchesMean | scripts/free2z/check-dependency-audit.py:341-347 | the matches of a finding are the entries of its ecosystem and package whose advisory is among its identifiers, as often as the baseline lists them |
| AuditAliases.ValidateFindings | scripts/free2z/check-dependency-audit.py:335-377 | the matching loop with its failures and matched entries |
| AuditAliases.MatchedMeans | scripts/free2z/check-dependency-audit.py:341-376 | the entries counted as matched are those that are the one match of some finding |
| AuditAliases.FailureKinds | scripts/free2z/check-dependency-audit.py:341-376 | each kind of failure as an equivalence, for every finding and entry: no match, several, an expired one, or one that an earlier finding shares |
| AuditAliases.NoFailureIffClean | scripts/free2z/check-dependency-audit.py:335-377 | no failure exactly when each finding has one unexpired entry and none is shared; then as many entries match as there are findings |
| RequirementsLock.LogicalLinesLoop | scripts/free2z/python_requirements_lock.py:56-86 | the loop over physical lines |
| RequirementsLock.StripCommentIff | scripts/free2z/python_requirements_lock.py:52-53 | taking comments away leaves exactly the text of a line: what stands between white space, with no hash behind any, before a comment |
| RequirementsLock.LineMeans | scripts/free2z/python_requirements_lock.py:67-77 | a line counts exactly when that text is neither empty nor a comment, is continued exactly when it ends with a backslash, and contributes what stands before it |
| RequirementsLock.LogicalTexts | scripts/free2z/python_requirements_lock.py:67-83 | each logical line says what the meaningful lines from its start up to the next one's contribute, in order |
| RequirementsLock.SpacedConcat | scripts/free2z/python_requirements_lock.py:82-82 | the pieces of a logical line are joined with one space |
| RequirementsLock.LogicalStarts | scripts/free2z/python_requirements_lock.py:64-86 | logical lines start at strictly increasing lines: exactly the meaningful ones no continuation leads into |
| RequirementsLock.RefusedIff | scripts/free2z/python_requirements_lock.py:73-85 | a file is refused exactly when a continuation is empty or never ends |
| RequirementsLock.ReadRecords | scripts/free2z/python_requirements_lock.py:133-162 | one record for each logical line, refused unless all are pins and none repeats |
| RequirementsLock.ProvenanceForms | scripts/free2z/python_requirements_lock.py:177-185 | a line is provenance exactly when it is one of the four forms for the source, with white space around it |
| RequirementsLock.MarkDirect | scripts/free2z/python_requirements_lock.py:167-186 | the walk marks a record exactly when provenance stands strictly between it and the next record |
| RequirementsLock.ParseLock | scripts/free2z/python_requirements_lock.py:116-186 | the whole reader: when it succeeds, and which records are direct |

## Left out

- Watchdog lock: invocations of the watchdog are serial, because they hold an exclusive lock for their whole critical path; the lock itself is not modelled.
- Watchdog evidence: the source checks behind `loopBounds`, `atomicCode`, the producer mode and its readiness are input values, as are systemd's answers.
- WatchdogConfig.EscalationFitsStartDeadline: dependency names arrive as a list and the loop's own longest gap as a number; reading them from the environment is left out.
- WatchdogDecision.RefusedMeans: the record arrives with its fields typed, so the refusals of a field of another type are left out.
- Watchdog wording: signals keep their kind, not their text; configuration notes and the stopped-loop preflight marker are not printed by the model.
- WatchdogBudget.RestartBudget: the clock does not go back during the run, because a clock that does is handled by the clock results instead.
- WatchdogLadder.WedgedLoopReachesTop: every write lands and every command is confirmed, as the ladder cannot be climbed otherwise.
- Producer marker: reading the marker and the lock file through pinned directory descriptors is one atomic step.
- ZecAmount.RoundTrip: the interpreter's limit on the length of integer texts is not modelled; it turns amounts with thousands of leading zeros into errors.
- SweepPolicy.AcceptedIff: the text is given as its lines, so the line splitting of the standard library is not modelled, nor are the type checks on arguments.
- SweepRun.RunIsSafe: the controller is not in the repository, and its documentation leaves retries to it: that a run sends again after "failed, no spend" is this model's assumption, and locks, markers and latches are left out.
- Sweep databases: spend counts, fees and balances read from SQLite or JSON are input values.
- WalletTip.EvaluateLoop: times are whole seconds, as the observer takes them; which saved JSON is unreadable is an input of the cycle, and a file that is repaired or removed by hand starts another run.
- FloorProbe.ProbeFloor: running grpcurl and classifying its exit is the server's answer.
- NodeWatch.EvaluateLoop: the serving-floor and end-of-support lines arrive as informing lines, the floor possibly with a failure; the arithmetic on release dates behind them is left out, as are the texts of the signals.
- NodeWatchRun.RunStands: for the restart history the clock does not go back; which saved file is unreadable is an input of the cycle.
- Merkle.MerkleRoot: the pair hash is a parameter; double SHA-256 and its collision resistance are not modelled.
- ChainScan.Scan: receipts, deliveries, confirmation depth of receipts, timestamps and the freshness limit are left out, as is a database failure while readiness is written; heights are unbounded, so the overflow at the last 32-bit height does not occur.
- ChainScan.FollowIsSegment: the chain is fixed for the scan; for a node that changes its mind `ChainScan.Scan` states what still holds.
- SbomPrepare.Prepare: encoding to JSON text is a partial length function, so which numbers and characters the encoder refuses is left out; the attestation binding and its digests are left out.
- SbomRenaming.StaysValid: duplicate keys are refused while the JSON is read, so objects are maps; all refusals are one error.
- ImageResolve.Index: archive headers and file contents are not read; a member is its name, kind, size and link.
- VisibleText.Parser.HandleStartTag: a tag's `style` attribute arrives as its map of trimmed lowercase declarations, and the HTML tokenizer as the list of events.
- AuditAliases.DeduplicateLoop: the package identity key and the identifiers arrive normalized; scanner reports and the baseline file are not parsed.
- RequirementsLock.ParseLock: whether a logical line is an exact pin with valid hashes, and what it pins, is a function of its text; marker evaluation is left out.
