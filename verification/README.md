# poly_bot in Dafny

`poly_bot` is a cross-venue arbitrage bot: it buys a token on a decentralized exchange (DEX) and sells it on
Binance (CEX), or the other way round. What makes it safe is not the trading idea but the machinery around it:
a coordinator that persists what it is about to do before it does it, a journal that can be replayed after a
crash, an inventory that never promises the same balance twice, and integer arithmetic that never rounds in the
bot's favour. This project models that machinery and proves its guarantees over whole runs.

| file | what it holds |
|---|---|
| `machine.dfy` | fixed-width integers, saturation, identifiers |
| `trade.dfy` | intents, legs, operations, stages, residual, profit and close-out arithmetic |
| `journal.dfy` | the write-ahead journal: transition guard, append, replay, indexes, the `TradeJournal` object |
| `history.dfy` | what the guard alone guarantees about any journal that replays |
| `coordinator.dfy` | what every coordinator call decides, and the `PaperTradeCoordinator` object |
| `lifecycle.dfy` | the invariant of one trade and the soundness of every decision |
| `answers.dfy` | what every coordinator call answers and stores, said by the fields of the trade |
| `runs.dfy`, `safety.dfy` | every run from an empty journal, with arbitrary results, clocks, write failures and restarts |
| `booked.dfy`, `figures.dfy` | over every run: what callers are told to do, what a trade books, what a closed trade reports |
| `closeout.dfy`, `inflight.dfy`, `hidden.dfy` | what a balanced trade means; how many trades can be in flight; a recovery its caller never hears of |
| `paper.dfy`, `crash.dfy`, `task.dfy` | simulated execution, crash equivalence, and the task's loops |
| `inventory.dfy`, `mailbox.dfy`, `engine.dfy` | reservations, the latest-wins mailbox, and their joint protocol |
| `sizing.dfy` | the adaptive size search |
| `portfolio.dfy` | the capital allocator |
| `accounting.dfy`, `settlement.dfy`, `preflight.dfy` | rounding of amounts, of venue results and profits, and of the entry requote |
| `readlane.dfy` | admission to a network read lane |

Objects that the program updates in place are classes whose methods are proved equal to functions on values;
the run theorems are about those functions. The disk is an input: every append is told whether its write was
synced, failed before anything reached the disk, left a partial line, or failed after the whole record reached
it. Clocks are inputs and need not be monotone. Venue results are arbitrary valid legs.

Results that differ from what one might expect of the program:

* A balanced stage does not mean a zero residual. `ClosedAfterRecovery` says exactly when it does, and
  `BalancedWithEverythingOpen` builds a run that closes with the whole quantity open.
* Admission refuses a second trade, yet two trades can be in flight: `TwoTradesInFlight` builds such a run for
  any two trades, and `OverlapBreaksAtMostOne` says exactly which reconciliations cause it.
* `Halted` is never left, although the stage table lists exits from it, and an operator recovery can never
  succeed on a journal the program wrote itself.
* Reserved totals are not kept below observed balances: an update may lower the balance under them
  (`CoverIsKeptExactly` says exactly which, `SnapshotCanUncover` is one).
* Losing the mailbox's receiver leaves the reservations of the pending plans without an owner
  (`OnlyLosingTheReceiverOrphans`).
* A command can be recorded without reaching its caller, when the write fails after the record is on disk.
  `RecoveriesAreNumbered` says that callers receive all commands of a plan if and only if no such write hid one;
  `NumberingCanHaveAGap` builds a run whose callers receive the second recovery and never the first.
* A Binance order that executed or charged something but moved no whole unit gives a leg that cannot be recorded
  (`OrderIsRecordableExactly`).
* Adaptive sizing can only fail or run out of evaluations for a reason on some curve; running out means that a trade
  of 2^63 steps or more is feasible (`EvaluateAdaptiveSizing`).
* A read can be refused as "queue full" while the queue is empty (`RejectedExactlyWhenCounted`,
  `RejectedFromAnEmptyQueue`).
* A paper trade closes if and only if its token-A scaling product fits 128 bits
  (`ClosesExactlyWhenScalingFits`); otherwise restarting never helps (`NeverClosesWhenScalingOverflows`).

## Model

| member | source | states |
|---|---|---|
| `Trade.EraseKeepsTotals` | src/arbitrage.rs:539-590 | the two settlement fields the journal does not store never enter a leg sum: token-B, token-A and gas totals are the same without them |
| `Trade.EraseKeepsAccounting` | src/arbitrage.rs:539-599 | an operation read back from the journal has the same residual, recovery target, realized profit and residual value as the live one |
| `Trade.EraseKeepsUnknown` | src/arbitrage.rs:617-623 | whether some leg is unknown survives a restart |
| `Trade.EraseKeepsValidity` | src/arbitrage.rs:3239-3314 | a valid operation is still valid after the skipped fields are gone |
| `Trade.EraseIsIdempotent` | src/arbitrage.rs:369-375 | writing and reading a second time loses nothing more |
| `Trade.EraseForgetsExactly` | src/arbitrage.rs:369-375 | two legs look the same after reading back if and only if they agree on everything but the two settlement fields |
| `Journal.ReplayIsLatest` | src/arbitrage.rs:2849-2897 | a log that replays yields, for every plan, exactly its last record |
| `Journal.ReplayedIsNumbered` | src/arbitrage.rs:2849-2897 | a log that replays is numbered from zero without a gap and holds only valid records |
| `Journal.ReplayPrefix` | src/arbitrage.rs:2849-2897 | every prefix of a log that replays also replays, so a crash between records never makes a journal unreadable |
| `Journal.RefusalPersists` | src/arbitrage.rs:2849-2897 | a log with a refused prefix is refused with that prefix's error, whatever follows it |
| `Journal.IndexStaysExact` | src/arbitrage.rs:3014-3046 | the incremental unresolved-by-strategy update keeps every entry equal to the number of unresolved plans of that strategy, with no zero entries |
| `Journal.CountStaysExact` | src/arbitrage.rs:2937-2993 | the incremental active counter stays equal to the number of non-terminal operations and never underflows |
| `Journal.RebuiltIndexIsExact` | src/arbitrage.rs:2996-3012 | the index rebuilt on open counts every strategy's unresolved plans |
| `Journal.ExactIndexIsUnique` | src/arbitrage.rs:2996-3046 | there is only one exact index, so the incremental one equals its recomputation |
| `Journal.TransitionSurvivesErasure` | src/arbitrage.rs:3080-3149 | a transition the guard accepts live is accepted again when the two records are read back without the skipped fields |
| `Journal.AppendAddsOneRecord` | src/arbitrage.rs:2937-2993 | an append changes nothing, or adds exactly the serialized operation to the log and at most that plan in memory |
| `Journal.AppendKeepsCoherence` | src/arbitrage.rs:2937-2993 | every append, whatever it carries and however the write fails, keeps log, operations, sequence, counter and index in agreement; the underflow error is dead |
| `Journal.AppendSucceedsExactly` | src/arbitrage.rs:2937-2993 | an append succeeds if and only if the journal is healthy, the guard accepts, a clock and a sequence number are left, the record fits a line and the disk takes it; a refusal changes nothing, a failed write poisons |
| `Journal.ReopenedIsCoherent` | src/arbitrage.rs:2810-2898 | whatever `open` accepts is a coherent journal again |
| `Journal.ReopenRestoresLive` | src/arbitrage.rs:2810-2898 | reopening a healthy journal gives back the live state: same operations up to the skipped fields, same next sequence, same active count, same unresolved index |
| `Journal.ReplayRefinesLive` | src/arbitrage.rs:2810-2993 | the same after any sequence of accepted and refused appends from an empty journal |
| `Journal.TradeJournal.constructor` | src/arbitrage.rs:2886-2897 | a journal object starts healthy with the given operations, counter, index and sequence |
| `Journal.TradeJournal.RebuildIndex` | src/arbitrage.rs:2996-3012 | the scan over operations computes the index by definition |
| `Journal.TradeJournal.Open` | src/arbitrage.rs:2810-2898 | the record loop accepts exactly the replayable logs without a partial tail, reports the first record's error, and builds the replayed state |
| `Journal.TradeJournal.Append` | src/arbitrage.rs:2937-2993 | check order, error and complete new state of an append under every write outcome |
| `Journal.TradeJournal.Write` | src/arbitrage.rs:2977-2993 | a failed write poisons the journal and leaves memory alone; a successful one commits operations, counter, index and sequence together |
| `Journal.TradeJournal.UnresolvedExposureCount` | src/arbitrage.rs:2922-2927 | on a coherent journal the index lookup equals the number of unresolved plans of the strategy |
| `Journal.TradeJournal.StrategyJournalRisk` | src/arbitrage.rs:2066-2128 | the scan succeeds exactly when both sums fit 128 bits; then its counters are the sizes of the sets they count, its notional and loss are the sums over the strategy, and its first-admission time is the earliest positive one |
| `Journal.CountsPartition` | src/arbitrage.rs:2066-2128 | which stages each counter counts: active, unresolved, failed and non-terminal |
| `History.StepObeysLaw` | src/arbitrage.rs:3080-3149 | every transition the guard accepts keeps flags, price, target, evidence and known results |
| `History.LatestObeysLaw` | src/arbitrage.rs:3080-3237 | in any log that replays, a plan's last record keeps everything any earlier record fixed |
| `History.HistoryIsKept` | src/arbitrage.rs:3080-3237 | between any two records of a plan in any log that replays, whoever wrote it: dispatch flags never regress; price, target and operator evidence never change once set; known CEX results and attempts are final; a known DEX result is final except for the operator correction |
| `History.AtMostOneRecordAfterTerminal` | src/arbitrage.rs:3080-3175 | a plan's terminal record is followed by at most one more record of that plan |
| `History.OnlyACorrectionFollowsTerminal` | src/arbitrage.rs:3151-3175 | and that record is the operator correction of the terminal one |
| `History.StageTableExactly` | src/arbitrage.rs:3177-3206 | the stage table, read backwards: from where each stage may be entered |
| `History.StagesAreEnteredInOrder` | src/arbitrage.rs:3080-3206 | in any log that replays a plan starts prepared, never returns there, never goes from an unknown outcome straight to closed, and leaves a closed stage only by the operator correction |
| `Coordinator.PaperTradeCoordinator.constructor` | src/arbitrage.rs:1976-1984 | the coordinator owns the journal it is given |
| `Coordinator.PaperTradeCoordinator.Admit` | src/arbitrage.rs:1986-2003 | error order and new journal of an admission: invalid intent, missing threshold proof, a trade in flight, a known plan, otherwise one prepared record |
| `Coordinator.PaperTradeCoordinator.TakeCommands` | src/arbitrage.rs:2335-2468 | the imperative branch chain persists the decision before it returns the commands, and returns none when persisting fails; `Answers.TakeIsDetermined` says which decision |
| `Coordinator.PaperTradeCoordinator.Close` | src/arbitrage.rs:2711-2769 | close-out computes and appends the balanced result, or its error; `Figures.ClosingReports` says what the result is |
| `Coordinator.PaperTradeCoordinator.Retry` | src/arbitrage.rs:2410-2437 | waits, retries with the next number, or closes, against the stored deadline |
| `Coordinator.PaperTradeCoordinator.Recover` | src/arbitrage.rs:2438-2466 | closes below one step, halts an overshot hedge, or records the one immutable recovery target; `Answers.TakeRecovers` says which |
| `Coordinator.PaperTradeCoordinator.RecordResult` | src/arbitrage.rs:2470-2504 | records one leg in the slot of its role, refused when not dispatched or already there; `Answers.ReportIsStored` says what is stored |
| `Coordinator.PaperTradeCoordinator.ReplaceUnknown` | src/arbitrage.rs:2524-2545 | puts the result in the one unknown slot of its role; an unproven DEX failure or a leg that is not unknown is refused; `Answers.ReconciliationIsStored` says what is stored |
| `Coordinator.PaperTradeCoordinator.ReconcileUnknown` | src/arbitrage.rs:2508-2553 | replaces exactly one unknown leg, reopens the trade and persists it |
| `Coordinator.PaperTradeCoordinator.SelectPrimaryCexLimitPrice` | src/arbitrage.rs:2298-2333 | sets the post-DEX price once, accepts the same price again, refuses a different one |
| `Coordinator.PaperTradeCoordinator.RecordOperatorRecovery` | src/arbitrage.rs:2559-2634 | evidence checks, repaired operation and append of an operator recovery |
| `Lifecycle.PreparedIsInLifecycle` | src/arbitrage.rs:2929-2935 | a freshly admitted trade satisfies the lifecycle invariant and owns no command |
| `Lifecycle.CloseOutIsSound` | src/arbitrage.rs:2711-2769 | closing keeps the lifecycle invariant, passes the guard and issues nothing |
| `Lifecycle.FirstDispatchIsSound` | src/arbitrage.rs:2350-2380 | the first dispatch owns exactly the DEX order, plus the hedge in concurrent mode |
| `Lifecycle.CexDispatchIsSound` | src/arbitrage.rs:2381-2400 | the DEX-first hedge adds exactly one CEX order of the actual DEX fill |
| `Lifecycle.RetryIsSound` | src/arbitrage.rs:2410-2437 | a retry adds exactly the next attempt with the stored target |
| `Lifecycle.HaltIsSound` | src/arbitrage.rs:2447-2455 | a DEX-first trade whose remaining hedge would be on the wrong side halts with nothing issued |
| `Lifecycle.FirstAttemptIsSound` | src/arbitrage.rs:2456-2466 | the first recovery adds exactly attempt one with the primary target, on the hedge's side in DEX-first mode |
| `Lifecycle.RecoverIsSound` | src/arbitrage.rs:2438-2466 | closing, halting or recovering keeps the invariant, the guard and the command ownership |
| `Lifecycle.UnknownIsSound` | src/arbitrage.rs:2339-2349 | an unknown leg parks the trade without issuing anything |
| `Lifecycle.TakeIsSound` | src/arbitrage.rs:2335-2468 | every branch of `take_commands` keeps the invariant, passes the journal guard and owns exactly the commands it hands out |
| `Lifecycle.DexReportIsSound` | src/arbitrage.rs:2470-2504 | recording a DEX result does the same |
| `Lifecycle.CexReportIsSound` | src/arbitrage.rs:2470-2504 | recording a CEX result does the same |
| `Lifecycle.RecoveryReportIsSound` | src/arbitrage.rs:2470-2504 | recording a recovery result does the same and sets the deadline exactly when another attempt may follow |
| `Lifecycle.DexReconciliationIsSound` | src/arbitrage.rs:2508-2553 | reconciling the DEX leg keeps the invariant and the guard |
| `Lifecycle.CexReconciliationIsSound` | src/arbitrage.rs:2508-2553 | reconciling the primary CEX leg keeps the invariant and the guard |
| `Lifecycle.RecoveryReconciliationIsSound` | src/arbitrage.rs:2508-2553 | reconciling the last recovery keeps the invariant, the guard and the attempt numbering |
| `Lifecycle.PriceIsSound` | src/arbitrage.rs:2298-2333 | selecting a price never changes a command that was already issued |
| `Lifecycle.NothingToRepair` | src/arbitrage.rs:2559-2600 | no operation of the lifecycle has the historical false-terminal shape an operator may repair |
| `Lifecycle.PlanDecisionIsSound` | src/arbitrage.rs:2298-2634 | every successor any call can append stays in the lifecycle, passes the guard and accounts for exactly the commands handed out |
| `Lifecycle.PlanDecisionIsExternal` | src/arbitrage.rs:2335-2468 | the missing-deadline, missing-target and guard errors are dead on lifecycle operations |
| `Lifecycle.FinalStagesStay` | src/arbitrage.rs:3177-3206 | no call leaves a terminal stage, and none leaves `Halted` although the stage table lists exits |
| `Lifecycle.EraseKeepsLifecycle` | src/arbitrage.rs:369-375 | a restart preserves the invariant and the owned commands |
| `Lifecycle.ResumeRebuildsOwned` | src/arbitrage.rs:2136-2192 | `resume_command` never fails on a lifecycle operation, answers a command if and only if a dispatched leg has no result, and then the owned command of exactly that leg; only an expired DEX plan is marked for reconciliation |
| `Lifecycle.ResumeWithoutClock` | src/arbitrage.rs:2136-2192 | without a clock only a pending DEX leg cannot be resumed |
| `Lifecycle.LegacyRecoveryIsRebuilt` | src/arbitrage.rs:2180-2190 | a recovery in flight without a stored target, as old journals have them, is rebuilt from the actionable residual |
| `Lifecycle.ReconciliationRebuildsOwned` | src/arbitrage.rs:2197-2296 | a parked trade has a reconciliation command if and only if the leg is unknown; it is the owned command of that leg, the DEX one always for reconciliation only; their errors are dead |
| `Answers.TakeWaits` | src/arbitrage.rs:2335-2349 | terminal is refused, an unknown leg parks the trade once, a missing result waits |
| `Answers.TakeDispatches` | src/arbitrage.rs:2351-2380 | a prepared trade orders exactly the planned DEX quantity, and in concurrent mode the opposite hedge at the admitted price |
| `Answers.TakeHedges` | src/arbitrage.rs:2381-2400 | a DEX-first trade hedges exactly what its DEX leg moved, at the selected or admitted price |
| `Answers.TakeRecovers` | src/arbitrage.rs:2438-2466 | a mismatch of a step or more is recovered with exactly the open quantity, unless a DEX-first hedge overshot: then the trade halts with no order |
| `Answers.TakeRetries` | src/arbitrage.rs:2410-2430 | a retryable failure is repeated with the next number and the same target from its deadline on |
| `Answers.TakeCloses` | src/arbitrage.rs:2400-2445 | a finished trade closes or says why it cannot |
| `Answers.TakeIsDetermined` | src/arbitrage.rs:2335-2468 | `take_commands` halts exactly the overshot trades, closes exactly the finished ones that can be valued, and orders a recovery exactly for a mismatch that did not overshoot or a retry that is due |
| `Answers.ReportIsStored` | src/arbitrage.rs:2470-2504 | a report is accepted if and only if its leg is expected; the reported leg, exactly, joins its own slot and nothing else changes but the recovery flag and deadline |
| `Answers.ReconciliationIsStored` | src/arbitrage.rs:2508-2553 | a reconciliation is accepted if and only if the trade is parked and the role's last leg unknown; that leg is replaced by exactly the given one and every other stays |
| `Answers.AdmitExactly` | src/arbitrage.rs:1986-2003 | an intent is admitted if and only if it is valid, met its threshold, its plan is new and no trade is in flight |
| `Answers.PriceIsStored` | src/arbitrage.rs:2298-2333 | the hedge price is set once, after the DEX fill and before the hedge, to exactly the given price |
| `Answers.RepairIsStored` | src/arbitrage.rs:2559-2634 | an operator repair stores exactly the two proven legs and the evidence and closes with nothing left open |
| `Answers.RepairIsProven` | src/arbitrage.rs:2559-2600 | a repair is decided only on two filled legs that carry the transaction and order the operator names |
| `Runs.AdvanceIsAccepted` | src/arbitrage.rs:3080-3149 | in an invariant state, whatever a call decides to append is a valid snapshot of the right plan |
| `Runs.RestartKeepsInvariant` | src/arbitrage.rs:2810-2898 | a restart keeps the run invariant, with a healthy, poisoned or torn journal |
| `Runs.EventKeepsInvariant` | src/arbitrage.rs:2335-2634 | every call under any clock and any write outcome, and every restart, keeps the run invariant |
| `Runs.InvariantHolds` | src/arbitrage.rs:1986-2634 | in every run from an empty journal: the journal is coherent, every live and every durable operation is in the lifecycle, and the commands recorded for a plan are exactly those its last durable record owns |
| `Runs.CommandsFollowTheirRecord` | src/arbitrage.rs:2335-2468 | an answer that carries commands was given by a call that appended their record |
| `Runs.RepliesAreIssued` | src/arbitrage.rs:2335-2468 | from every invariant state, what one call answers is exactly what the run gains as recorded and handed out; a call whose write failed answers no commands |
| `Runs.RepliedAreIssued` | src/arbitrage.rs:2335-2468 | so over every run, the commands callers received, read off the answers alone, are the recorded and handed-out ones in order |
| `Booked.ReceivedCommandsFit` | src/arbitrage.rs:2335-2468 | in every run: a DEX order is the admitted one; a hedge is the planned quantity or the actual DEX fill at the right, positive price; a recovery is exactly what the primary legs left open, at least a step, and in DEX-first mode never against its own hedge |
| `Booked.LegsAreWhatWasReported` | src/arbitrage.rs:2470-2553 | in every run every leg of every operation, live or in the log, is one a caller reported or reconciled for that plan and role, amount by amount |
| `Booked.AcknowledgedIsBooked` | src/arbitrage.rs:2470-2504 | from every reachable state an acknowledged report is live and is the log's last record, in its own slot, other legs unchanged |
| `Booked.ReconciledIsBooked` | src/arbitrage.rs:2508-2553 | the same for an acknowledged reconciliation: the unknown leg and only it was replaced |
| `Safety.NeverTwoHedges` | src/arbitrage.rs:2335-2468 | over every run with any results, clocks, disk failures and restarts: among the commands callers received for one plan there are never two DEX dispatches or two primary CEX dispatches; recoveries come last, in rising order, at most three, with one nonzero target |
| `Safety.RecoveriesAreNumbered` | src/arbitrage.rs:2410-2466 | in every run and for every recorded plan: the commands callers received are exactly those its last durable record owns, with attempts 1, 2, 3 and no gap, if and only if no call about the plan had a write that failed after a record with commands reached the disk |
| `HiddenReplies.TakeIsHidden` | src/arbitrage.rs:2977-2993 | from any state with a rejected hedge, a `take_commands` whose write fails after the record is on disk answers no command and leaves the first attempt in the log only |
| `HiddenReplies.AttemptIsHidden` | src/arbitrage.rs:2810-2898 | a restart then continues from that attempt, and no caller has received it |
| `HiddenReplies.NumberingCanHaveAGap` | src/arbitrage.rs:2410-2466 | for every markable intent there is a run whose callers receive recovery 2 and never recovery 1, although the last durable record owns both |
| `Safety.RecoveryIsCounted` | src/arbitrage.rs:2410-2466 | whatever writes fail, a recovery a caller received has a number the plan's last durable record counts, and that record's target |
| `Safety.OnlyZeroFillsAreRetried` | src/arbitrage.rs:2668-2674 | every recovery result except the last is a retryable failure that moved no asset |
| `Safety.WriteAhead` | src/arbitrage.rs:2335-2468 | at every point of every run, every command a caller has received is owned by a record already in the durable log |
| `Safety.ResumeIsFaithful` | src/arbitrage.rs:2136-2192 | in every reachable state, also after a failed write, a command is resumed if and only if a dispatched leg has no result; it was recorded before with the same id, target, price and attempt, and a DEX order is marked for reconciliation exactly when its plan expired |
| `Safety.ReconciliationIsFaithful` | src/arbitrage.rs:2197-2296 | the same for the commands that reconcile an unknown outcome: each exists if and only if its leg is unknown and parked, and the DEX one is always for reconciliation only |
| `Safety.AcceptedIsNotRefused` | src/arbitrage.rs:2937-2993 | an accepted snapshot can only fail to append for reasons outside the coordinator |
| `Safety.DecisionIsExternal` | src/arbitrage.rs:1986-2634 | no call decides one of the internal errors in a lifecycle journal |
| `Safety.NeverTripsTheGuard` | src/arbitrage.rs:3080-3149 | from every reachable state no call is ever stopped by the transition guard, record validation, the counter, a missing deadline or a missing target |
| `Safety.FailedWriteStops` | src/arbitrage.rs:2977-2993 | after a failed write no call changes anything or hands out a command until a restart; after a partial line not even a restart helps |
| `Safety.FinalStagesAreFinal` | src/arbitrage.rs:3177-3206 | once a plan's last record is terminal the rest of the log, however the run goes on, holds no record of it; once it is halted every later record of it is halted |
| `Safety.OperatorRecoveryNeverSucceeds` | src/arbitrage.rs:2559-2634 | `record_operator_recovery` always errs and changes nothing on a journal this coordinator wrote |
| `Paper.TakeSpendsWork` | src/arbitrage.rs:1762-1810 | every command-issuing `take_commands` uses up one of the finitely many dispatches of a trade, which is why the drive loop ends for any simulated outcome |
| `Paper.SimulatedOrderIsProportional` | src/arbitrage.rs:1936-1971 | a simulated order fills its quantity at the expected amount in proportion, rounded toward zero, with the sign of a purchase or sale; it fails exactly for nothing or when a word overflows |
| `Paper.SimulatedRole` | src/arbitrage.rs:1881-1934 | a simulated result is reported in the role and for the quantity of its command |
| `Paper.CexLegIsSimulated` | src/arbitrage.rs:1936-1971 | scaling the planned quantity back to itself is exact, so the simulated hedge moves exactly the expected token-A amount, or answers the scaling error when the product does not fit |
| `Paper.PaperLegsAreValid` | src/arbitrage.rs:1881-1971 | simulated legs pass leg validation for every valid intent |
| `Paper.LegsCancel` | src/arbitrage.rs:1881-1971 | the two simulated legs cancel in token B and leave exactly the expected profit, in both directions, so no recovery is needed |
| `Paper.LegsDoneCloses` | src/arbitrage.rs:2711-2769 | close-out of the simulated legs gives the expected terminal operation |
| `Paper.PaperTakes` | src/arbitrage.rs:2335-2468 | on each record of a paper trade `take_commands` moves to the next record and issues its commands |
| `Paper.PaperReports` | src/arbitrage.rs:2470-2504 | reporting the simulated leg moves to the next record |
| `Paper.PaperResumes` | src/arbitrage.rs:2136-2192 | resuming at any record rebuilds a command whose simulation is the pending outcome, or nothing when none is pending |
| `CrashRecovery.PaperIsInLifecycle` | src/arbitrage.rs:2335-2504 | every record of a paper trade is in the lifecycle |
| `CrashRecovery.DriveEnds` | src/arbitrage.rs:1762-1810 | driving from any record without a pending leg appends exactly the remaining records, in order, touches no other plan, and ends at the terminal record or, when the hedge cannot be scaled, at the record that waits for it |
| `CrashRecovery.ResumeEnds` | src/arbitrage.rs:1738-1752 | resuming from any record the trade can be found at does the same |
| `CrashRecovery.UninterruptedEnds` | src/arbitrage.rs:1754-1810 | an undisturbed paper trade appends exactly its own records up to that end and replies accordingly |
| `CrashRecovery.PaperTerminalIsBalanced` | src/arbitrage.rs:2711-2769 | its terminal operation has zero residual and realizes exactly the expected profit |
| `CrashRecovery.LogReopens` | src/arbitrage.rs:2810-2898 | a log that ends at a record of the trade reopens at that record |
| `CrashRecovery.RestartEnds` | src/arbitrage.rs:1738-1752 | one `resume_plan` on the journal reopened from such a log appends exactly the remaining records |
| `CrashRecovery.CrashEquivalence` | src/arbitrage.rs:1738-1810 | for every valid intent in either mode and direction and any number of crashes, each at any record boundary before the terminal record, of the original run and of the runs that resume it: the last restart replies as the undisturbed run, ends in the same operation and after the same number of records |
| `CrashRecovery.ClosesExactlyWhenScalingFits` | src/arbitrage.rs:1936-1971 | an admitted paper trade ends terminal if and only if its scaling product fits 128 bits; otherwise the task replies with the scaling error and no record of the plan is terminal |
| `CrashRecovery.NeverClosesWhenScalingOverflows` | src/arbitrage.rs:1738-1810 | no sequence of crashes and restarts changes that: the last restart replies with the same error and no record is terminal |
| `CrashRecovery.OverflowingIntentIsAdmissible` | src/arbitrage.rs:1936-1971 | a concrete valid intent an empty journal admits whose scaling product does not fit |
| `PaperTask.PaperTradeTask.constructor` | src/arbitrage.rs:1674-1688 | the task drives the coordinator it is given |
| `PaperTask.PaperTradeTask.SettleCommand` | src/arbitrage.rs:1805-1808 | simulating and recording one command |
| `PaperTask.PaperTradeTask.SettleCommands` | src/arbitrage.rs:1805-1808 | the inner loop settles the commands in order and stops at the first error |
| `PaperTask.PaperTradeTask.DrivePlan` | src/arbitrage.rs:1762-1810 | the drive loop computes the recursive specification the crash theorem is about, and terminates |
| `PaperTask.PaperTradeTask.ResumeAndDrive` | src/arbitrage.rs:1738-1752 | the resume loop does the same |
| `InFlight.AdmittedAlone` | src/arbitrage.rs:1986-2003 | an admission goes through only when no trade is in flight |
| `InFlight.OnlyReconciliationReopens` | src/arbitrage.rs:2508-2553 | no call except a reconciliation brings a trade back in flight |
| `InFlight.AtMostOneTradeInFlight` | src/arbitrage.rs:1986-2003 | at most one trade is in flight in every run in which no reconciliation of one trade goes through while another is in flight, across restarts |
| `InFlight.OverlapBreaksAtMostOne` | src/arbitrage.rs:2508-2553 | that condition is exact: in any reachable state a recorded reconciliation keeps at most one trade in flight if and only if no other was |
| `InFlight.TwoTradesInFlight` | src/arbitrage.rs:1986-2003 | for any two admissible trades there is a six-call run that leaves both in flight |
| `CloseOutLaws.TerminalIsSound` | src/arbitrage.rs:2711-2769 | every terminal operation of every run has all legs answered and known, a DEX failure only when it proves zero exposure, no retry left, and a result computed from its own legs |
| `Figures.ClosingReports` | src/arbitrage.rs:2711-2798 | closing changes the stage and result only; expected and realized profit, residual, its value at the quote of its side, gas and recovery loss are the exact sums of the legs, and the outcome is the sign of the comparable profit |
| `Figures.ClosesExactly` | src/arbitrage.rs:2711-2740 | a dispatched trade closes if and only if all legs are in and known, a failed DEX leg proves zero exposure and the position can be valued |
| `Figures.ClosedTradesReport` | src/arbitrage.rs:2711-2798 | the same for every trade any run has closed |
| `Figures.LossIsReported` | src/arbitrage.rs:2095-2125 | what a trade counts for in the strategy risk: its comparable loss, so exactly the trades closed as a loss, and its expected cost |
| `CloseOutLaws.ResidualIsPrimaryPlusLast` | src/arbitrage.rs:539-577 | failed attempts move nothing: the residual is the primary mismatch plus the last recovery fill |
| `CloseOutLaws.ClosedWithoutRecovery` | src/arbitrage.rs:2438-2466 | in every run, without saturation, a hedged trade closed without recovery is open by less than one step, apart from a token-B commission |
| `CloseOutLaws.ClosedAfterRecovery` | src/arbitrage.rs:2410-2437 | after recovery the residual is the last fill plus the withheld commission minus the target, so a balanced stage means zero residual if and only if those cancel |
| `CloseOutLaws.ExhaustedRetriesLeaveTheTarget` | src/arbitrage.rs:2410-2437 | three failed attempts close as balanced with the whole target open |
| `CloseOutLaws.BalancedWithEverythingOpen` | src/arbitrage.rs:2410-2466 | for every markable intent, in either mode and direction, there is a run that fills the DEX leg, has the hedge and three recoveries rejected, and closes as balanced with the whole quantity open |
| `CloseOutLaws.RetryWaitsOutTheDelay` | src/arbitrage.rs:2682-2709 | after a retryable failure the next attempt is issued exactly from 250 ms (then 500 ms) after it was recorded, with the next number and the same target |
| `Inventory.EventKeepsValid` | src/inventory.rs:232-471 | every inventory operation keeps reservations well formed: nonempty distinct positive claims, barriers at every settlement location, none already passed |
| `Inventory.GenerationsGrow` | src/inventory.rs:232-293 | location generations never go back in any run |
| `Inventory.AcceptedGenerationsIncrease` | src/inventory.rs:232-293 | an accepted update strictly raises the generation of its location and of no other, and nothing later takes it back; any other event changes no generation |
| `Inventory.HeldUntilSettled` | src/inventory.rs:447-471 | in any run a pending reservation stays, unchanged, until every settlement location has passed the generation recorded when it was marked |
| `Inventory.NothingOverstays` | src/inventory.rs:447-471 | at the end of any run no pending reservation has all of its barriers passed |
| `Inventory.ReserveKeepsCover` | src/inventory.rs:335-385 | a reservation never takes more than what is observed and not yet reserved |
| `Inventory.CoverIsKeptExactly` | src/inventory.rs:232-422 | reserving, releasing and marking keep every covered key covered; a full or partial update does if and only if what the reservations it does not settle hold is no more than the balance it reports |
| `Inventory.CoverOverRuns` | src/inventory.rs:232-422 | so a key stays covered over any run whose updates report enough |
| `Inventory.SnapshotCanUncover` | src/inventory.rs:232-263 | a concrete reserve and snapshot after which more is reserved than observed |
| `Inventory.InventoryReservations.constructor` | src/inventory.rs:145-151 | starts empty with exact totals |
| `Inventory.InventoryReservations.Available` | src/inventory.rs:318-329 | observed minus the sum of live claims, an error exactly when unobserved or over-reserved |
| `Inventory.InventoryReservations.CheckClaims` | src/inventory.rs:341-367 | passes exactly when every claim is affordable; an insufficiency error reports the true amounts |
| `Inventory.InventoryReservations.ReserveClaims` | src/inventory.rs:335-385 | all or nothing: succeeds exactly when allowed, a failure changes nothing, and a success leaves the totals of its keys within their observed balances, so no sum overflows |
| `Inventory.InventoryReservations.AddClaims` | src/inventory.rs:368-376 | the totals loop adds exactly the request's claims |
| `Inventory.InventoryReservations.RemoveReservation` | src/inventory.rs:428-445 | totals stay equal to the sum over live reservations with no zero entries; the subtraction never underflows |
| `Inventory.InventoryReservations.ReleaseUnsubmitted` | src/inventory.rs:387-398 | releases exactly an active reservation |
| `Inventory.InventoryReservations.MarkPendingSettlement` | src/inventory.rs:400-422 | records the current generation of every settlement location, all or nothing |
| `Inventory.InventoryReservations.ReleaseReconciled` | src/inventory.rs:447-471 | removes exactly the pending reservations whose barriers are all strictly passed |
| `Inventory.InventoryReservations.BuildSnapshot` | src/inventory.rs:246-257 | accepts exactly duplicate-free valid assets and builds their balances |
| `Inventory.InventoryReservations.UpdateLocation` | src/inventory.rs:232-263 | a newer snapshot replaces the location's balances and releases what it settles; anything else changes nothing |
| `Inventory.InventoryReservations.UpdateLocationAssets` | src/inventory.rs:265-293 | a newer partial update overwrites the named assets only |
| `Mailbox.EventKeepsValid` | src/arbitrage.rs:1541-1636 | every mailbox operation keeps the queue a duplicate-free list of exactly the strategies with a pending opportunity |
| `Mailbox.ClosedExactly` | src/arbitrage.rs:1604-1624 | a receiver is told closed, or waits, exactly by lane, pending, senders and receiver |
| `Mailbox.QueueMoves` | src/arbitrage.rs:1567-1624 | an operation serves the head of the queue or leaves every position where it is |
| `Mailbox.QueuePositionIsServiceOrder` | src/arbitrage.rs:1604-1624 | while the receiver is open, the strategy at position k is the (k+1)-th delivery whatever is submitted meanwhile |
| `Mailbox.NoDeliveryWithoutFinish` | src/arbitrage.rs:1594-1624 | events without a `finish` deliver at most once |
| `Mailbox.FinishLetsTheNextThrough` | src/arbitrage.rs:1594-1624 | after a `finish` the next receive delivers what waits longest |
| `Mailbox.EverySubmissionIsAccountedFor` | src/arbitrage.rs:1567-1636 | as multisets, everything submitted is delivered, superseded, refused, cleared at receiver drop or still pending |
| `Mailbox.DeliveredIsNewest` | src/arbitrage.rs:1567-1624 | after any run from an empty mailbox the pending and hence the delivered opportunity of a strategy is its newest submission |
| `Mailbox.LatestOpportunityMailbox.constructor` | src/arbitrage.rs:1542-1564 | a new mailbox is empty with one sender and an open receiver |
| `Mailbox.LatestOpportunityMailbox.TrySubmit` | src/arbitrage.rs:1567-1592 | latest wins: the reply, the new state and the discarded count |
| `Mailbox.LatestOpportunityMailbox.FinishTrade` | src/arbitrage.rs:1594-1602 | frees the lane and nothing else |
| `Mailbox.LatestOpportunityMailbox.TryReceive` | src/arbitrage.rs:1604-1624 | one pass of the receive loop |
| `Mailbox.LatestOpportunityMailbox.DropReceiver` | src/arbitrage.rs:1627-1636 | closes and clears the mailbox |
| `Engine.SubmissionReleasesExactly` | src/engine.rs:3410-3526 | a superseding submission removes exactly the superseded plan's reservation and keeps the newcomer's; a refused one removes exactly its own; the freshness map follows |
| `Engine.TradeEventSucceeds` | src/engine.rs:3981-4030 | an event about a delivered plan never errs and touches no other reservation |
| `Engine.TradeEventOutcome` | src/engine.rs:3981-4030 | balanced keeps the reservation for the same request, pending at the current generation of every settlement location; rejected removes it; unknown leaves it active; nothing else changes |
| `Engine.EventKeepsInvariant` | src/engine.rs:3410-4061 | every step of engine, mailbox, executor and inventory keeps reservation ownership |
| `Engine.PendingHoldsItsReservation` | src/engine.rs:3410-4061 | in every legal run each pending and each delivered opportunity holds an active reservation under its own distinct plan id |
| `Engine.SpentStaysReserved` | src/engine.rs:3983-3988 | in every legal run what a balanced trade spent stays reserved, for the same claims, until every settlement location has reported newer balances |
| `Engine.OnlyLosingTheReceiverOrphans` | src/engine.rs:3410-4061 | no step leaves an active trade reservation without a pending or delivered plan, except losing the receiver, which orphans exactly the pending ones |
| `Engine.EveryReservationHasAnOwner` | src/engine.rs:3410-4061 | while the receiver stays open, every active trade reservation belongs to a pending or a delivered plan |
| `Engine.EmptyEngineIsValid` | src/engine.rs:701 | the empty engine satisfies the invariant and has no orphans, so the run theorems apply from start-up |
| `Engine.TradingEngine.constructor` | src/engine.rs:701 | the engine starts over its mailbox and inventory with no plans |
| `Engine.TradingEngine.ReleasePendingOpportunity` | src/engine.rs:4032-4061 | forgets the plan and releases its active reservation; a reservation that is not active is the only error |
| `Engine.TradingEngine.SubmitPaperOpportunity` | src/engine.rs:3410-3526 | reserve, enqueue and compensate: the joint new state of inventory, mailbox and freshness map |
| `Engine.TradingEngine.Enqueue` | src/engine.rs:3490-3526 | the three submit replies and their compensation |
| `Engine.TradingEngine.OnPaperTradeEvent` | src/engine.rs:3981-4030 | balanced marks for settlement, rejected releases, unknown keeps the reservation; `Engine.TradeEventOutcome` says what that means |
| `Sizing.AdaptivePoolSearch.constructor` | src/engine.rs:264-282 | an empty memo with an unspent budget |
| `Sizing.FeasibleExactly` | src/engine.rs:2975-3005 | an amount is feasible if and only if the evaluator finds a trade that meets the threshold with both token-A sides within the cap; the notional is the larger side |
| `Sizing.AdaptivePoolSearch.Lookup` | src/engine.rs:2954-2961 | a memo hit is the evaluator's own verdict |
| `Sizing.AdaptivePoolSearch.ProbeAmount` | src/engine.rs:2946-3008 | a probe answers the evaluator's own verdict or error unless the amount is unseen and the budget spent, which is the only refusal and the only time exhaustion is flagged; it spends one evaluation exactly on an unseen amount |
| `Sizing.ProbeSteps` | src/engine.rs:3024-3029 | the same for a whole number of steps; an amount beyond 256 bits is the only other error |
| `Sizing.Bracket` | src/engine.rs:3038-3047 | doubling ends without any monotonicity assumption, because each doubled amount is unseen and spends budget, with a feasible lower and a refused upper end; it errs only if the evaluator errs or a feasible amount cannot be doubled in 256 bits, and leaves half of the budget unless 2^63 steps are feasible |
| `Sizing.Bisect` | src/engine.rs:3048-3055 | bisection returns a feasible count whose successor was refused, errs only if the evaluator does, and never runs out on an interval of at most 2^63 steps |
| `Sizing.SearchPool` | src/engine.rs:3009-3061 | at most 128 evaluations; a feasible whole-step amount whose next step was refused; the largest feasible one when feasibility is downward closed and the budget lasted; an error means that the evaluator errs at an amount not below the baseline or that a feasible one cannot be doubled in 256 bits; running out means 128 evaluations and a feasible trade of 2^63 steps or more |
| `Sizing.BetterIsAStrictOrder` | src/engine.rs:446-455 | preference is the strict total order by larger notional, larger amount, buying on the DEX, smaller pool index |
| `Sizing.Visit` | src/engine.rs:2789-2808 | searching one more pool keeps the better of its candidate and the winner so far, or reports an error that pool's curve gives a reason for |
| `Sizing.ScanDirection` | src/engine.rs:2788-2809 | the loop over pools of one direction keeps the best of all of them, and errs only for a reason on some curve |
| `Sizing.EvaluateAdaptiveSizing` | src/engine.rs:2749-2829 | over both directions and all pools: a selected trade is feasible with its next step refused, beats its baseline, and no budget ran out; on monotone curves no pool's largest feasible trade is preferred to it; and when nothing is selected, every largest trade none is preferred to is no larger than its baseline; errors and exhaustion have a reason on some pool's curve, so with evaluators that always answer, feasible amounts below half the 256-bit range and below 2^63 steps, sizing answers without exhaustion |
| `Portfolio.ReservedFits` | src/portfolio.rs:284-305 | per asset, reserved never exceeds observed once it does not per key, so the audit's subtraction cannot fail |
| `Portfolio.AddAmount` | src/portfolio.rs:872-878 | checked addition into a per-asset total |
| `Portfolio.TallyKey` | src/portfolio.rs:276-289 | one observed key: the error cases and both totals |
| `Portfolio.AuditSnapshot` | src/portfolio.rs:270-312 | succeeds exactly on auditable snapshots and reports per-asset observed, reserved and available sums |
| `Portfolio.Subtract` | src/portfolio.rs:296-305 | available is observed minus reserved for every asset |
| `Portfolio.AddKeyAmount` | src/portfolio.rs:880-890 | checked addition into a per-source debit |
| `Portfolio.SnapshotAvailable` | src/portfolio.rs:852-870 | observed minus reserved, an error exactly when unobserved or over-reserved |
| `Portfolio.TrackInFlight` | src/portfolio.rs:358-367 | succeeds exactly when the transfers under way fit every source |
| `Portfolio.ValidateInFlight` | src/portfolio.rs:330-339 | passes exactly when every transfer under way is valid |
| `Portfolio.DebitSource` | src/portfolio.rs:385-389 | one more debit is accepted exactly when the source covers all of its debits |
| `Portfolio.ProposeOne` | src/portfolio.rs:369-404 | an intent is proposed exactly when it is valid, inside policy and covered together with everything before it |
| `Portfolio.ProposeAll` | src/portfolio.rs:368-406 | the intents are accepted exactly when all are admissible and all sources cover everything |
| `Portfolio.PlanSnapshot` | src/portfolio.rs:323-407 | a plan is produced exactly for acceptable requests: one proposal per intent, in order, authorized only in live mode, every source's transfers inside observed minus reserved |
| `Portfolio.PlansConserve` | src/portfolio.rs:409-433 | per economic asset, what valid transfers take from keys that hold it equals what they put into keys that hold it plus fees: no transfer turns one asset into another |
| `Portfolio.PolicyApprovesExactly` | src/portfolio.rs:444-501 | the policy approves only direct exchange-wallet transfers within a cap listed for the asset on the wallet's network, and all of them when nothing is listed twice |
| `Portfolio.LivePlansAreAuthorized` | src/portfolio.rs:344-357 | a live plan has an authorizing single-transfer policy with one route mode, and nothing is under way |
| `Accounting.RoundedDownIsFloor` | src/execution_accounting.rs:167-186 | truncating division corrected by one is the floor for both signs |
| `Accounting.BaseUnitsAreFloor` | src/execution_accounting.rs:167-186 | a converted decimal is the exact floor in base units, for both signs and whichever scale is larger |
| `Accounting.BaseUnitsExistExactly` | src/execution_accounting.rs:167-186 | the conversion succeeds if and only if the power of ten between the scales and the result fit 128 bits |
| `Accounting.GasInTokenA` | src/execution_accounting.rs:126-165 | a converted gas fee is the exact ceiling of the rational fee; it fails exactly on a zero input or when a side does not fit |
| `Accounting.ResidualMarkIsFloor` | src/arbitrage.rs:2771-2798 | the residual mark is the exact floor of the position's value: down for a long, to the larger liability for a short |
| `Accounting.MarkBelowExact` | src/arbitrage.rs:2771-2798 | so the mark never exceeds the exact value |
| `Accounting.MarkIsAtItsQuote` | src/arbitrage.rs:226-238 | a left-over long is valued at the floor of its share of the sell quote, a short at minus the ceiling of its share of the buy quote, each falling back to the common quote |
| `Accounting.MarkExistsExactly` | src/arbitrage.rs:2771-2798 | a position can be valued exactly when its product fits 256 bits and its value 128 |
| `Accounting.TotalsAreExact` | src/arbitrage.rs:539-594 | without saturation the leg sums are the exact sums |
| `Settlement.BaseUnitsNeverExceed` | src/execution_accounting.rs:167-186 | a converted decimal is its exact value in base units rounded down: never above it, less than one unit below |
| `Settlement.BookingIsExact` | src/execution_accounting.rs:85-90 | a commission whose value and sum fit the decimal type is booked without rounding |
| `Settlement.AccumulateCommissions` | src/execution_accounting.rs:63-93 | the fold succeeds exactly when every third-asset commission is negative, in the valued asset, at a positive price, and its value fits; it returns the valued token-A change and the deltas and prices |
| `Settlement.BinanceLegResult` | src/execution_accounting.rs:48-124 | the leg of an order, or an error exactly when some step fails |
| `Settlement.OrderNeverFlatters` | src/execution_accounting.rs:48-124 | an order's leg is its exact, fully valued balance changes, each rounded down to the unit |
| `Settlement.LegNeverFlatters` | src/execution_accounting.rs:23-165 | the leg of any outcome, swap, revert, rejection or order, is what really moved to the unit: amounts rounded down, gas up, and only a swap's output beyond the plan left out |
| `Settlement.LegIsLabelled` | src/execution_accounting.rs:23-124 | a revert and an unsubmitted swap prove zero exposure; exactly the unsubmitted, rejected and unfilled market orders are retryable; an order that moved nothing is a failure |
| `Settlement.OrderIsDetailed` | src/execution_accounting.rs:48-124 | an order's leg carries the executed quantity before commission, to the unit and with its side's sign, and every third-asset commission |
| `Settlement.OrderIsRecordableExactly` | src/execution_accounting.rs:48-124 | an order's leg passes leg validation if and only if it moved something or nothing was executed or charged |
| `Settlement.LegExistsExactly` | src/execution_accounting.rs:23-186 | when there is a leg to record, for every kind of outcome |
| `Settlement.MarkNeverFlatters` | src/arbitrage.rs:2771-2798 | the mark never exceeds the value of the recorded position at the sell quote if long, the buy quote if short |
| `Settlement.ComparableNeverExceedsExact` | src/arbitrage.rs:2711-2798 | without saturation and with complete valuation, the comparable profit of a close-out never exceeds exact token-A changes minus exact gas plus the exact left-over token-B position, sold at the sell quote or bought back at the buy quote |
| `Settlement.ClosedTradesNeverFlatter` | src/arbitrage.rs:2711-2798 | the same for every trade any run has closed |
| `Preflight.CheckedPow10Loop` | src/arbitrage.rs:1426-1434 | the loop computes the power of ten exactly when it fits 256 bits |
| `Preflight.AtPrice` | src/arbitrage.rs:1390-1424 | a requoted amount is the exact floor, or the exact ceiling, of its rational value |
| `Preflight.AtPriceExistsExactly` | src/arbitrage.rs:1390-1424 | a price can be applied if and only if it is positive and its factors and product fit 256 bits |
| `Preflight.SpreadIsAnsweredExactly` | src/arbitrage.rs:1342-1373 | the spread is decided if and only if the CEX side can be computed, the cost is not zero and both sides of the comparison fit |
| `Preflight.SpreadDecisionIsTight` | src/arbitrage.rs:1342-1373 | an accepted requoted spread satisfies the exact rational threshold, and one that still does after losing one base unit is accepted, in both directions |
| `ReadLane.StepKeepsSafe` | src/network_runtime.rs:218-244 | every atomic step keeps: counter equals admitted plus about-to-be-rejected callers, admitted within bound, permits conserved; no decrement finds zero |
| `ReadLane.EveryInterleavingIsSafe` | src/network_runtime.rs:114-244 | every interleaving keeps admitted waiters within `max_queued` and permit holders within `max_concurrency` |
| `ReadLane.RejectedExactlyWhenCounted` | src/network_runtime.rs:218-228 | a caller is rejected if and only if admitted callers plus callers still being rejected fill the bound |
| `ReadLane.RejectedFromAnEmptyQueue` | src/network_runtime.rs:218-228 | a reachable run in which a caller is rejected while nobody is admitted |
| `ReadLane.Lane.constructor` | src/network_runtime.rs:120-129 | a new lane has all permits and an empty queue |
| `ReadLane.Lane.Enter` | src/network_runtime.rs:224-228 | increment, then compare the value before it |
| `ReadLane.Lane.Leave` | src/network_runtime.rs:131-139 | the decrement of a rejected, timed-out or served caller never wraps |
| `ReadLane.Lane.TakePermit` | src/network_runtime.rs:231-237 | a waiting caller takes a permit |
| `ReadLane.Lane.ReturnPermit` | src/network_runtime.rs:231-243 | a permit comes back from a finished or a cancelled caller |

## Left out

- Files, locks, permissions, JSON, checksums and the per-line size computation: the journal is a sequence of records plus a partial-tail flag, and whether a record fits a line is an input.
- `DexSwapPlan` route and address validation: a plan carries its amounts, deadline and distinctness of tokens only.
- Fields of intents and admission bounds that no modelled decision reads (timestamps, update ids, legacy fields).
- `cumulative_terminal_risk`, `recovery_retry_wait`: a sum and a look-up over the same operations.
- Individual messages: checks of one group share one error value; their order across groups is kept.
- The two refusals of `reservation_precheck`, duplicate and conflicting plan, are one: both leave everything unchanged.
- Telemetry, event publication, rejection counters and health logging: no effect on the modelled state.
- The live executor, RPC and exchange clients, rebalancing adapter, bridge and configuration code: clients and flat validation.
- Plan-id fingerprints and hashes: identifiers are opaque strings with the validated alphabet and length.
- Async wake-ups, fairness and mutex poisoning: mailbox and lane operations are atomic steps; a semaphore grant goes to any waiter.
- In-memory counters have no upper limit (they are machine words in the program).
- Preflight freshness, transport, fee-horizon and fee-generation checks, and the shortcut that accepts an unchanged quote without requoting: table look-ups around the modelled requote.
- `balance_changes` of an order: its outcome is part of the order. The live executor's other work around a leg (submission, telemetry, unknown outcomes) is not modelled.
- CrashRecovery.RestartEnds: a restart is one `resume_plan` of the trade; the task's `resume_active`, which also resumes every other prepared, executing, recovering or halted plan of the log in turn, is not modelled.
- CrashRecovery.CrashEquivalence: restarts are those of `RestartEnds`; all runs have a working clock and disk and 64-bit sequence numbers to spare; runs with failing disks are covered by `InvariantHolds` and the `Safety` lemmas, which do not claim that the trade finishes.
- CloseOutLaws.ClosedWithoutRecovery: stated for sums that stay inside 128 bits, because saturated sums lose the quantity the law is about.
- CloseOutLaws.ClosedAfterRecovery: the same restriction.
- Settlement.ComparableNeverExceedsExact: the same restriction; complete valuation means that gas and a commission in a third asset have a price and that valuing a commission needs no decimal rounding.
- Settlement.AccumulateCommissions: what the decimal type answers when an exact product or sum does not fit 96 bits and 28 digits is an arbitrary input.
- Portfolio.PolicyApprovesExactly: that every allowed transfer is approved is stated for policies that list no network and no asset of a network twice; of two entries the first one found decides.
- Sizing.SearchPool: the exact evaluator is an arbitrary function; that feasibility is downward closed is a hypothesis of the maximality clause only, and likewise in `EvaluateAdaptiveSizing`.
- Engine.PendingHoldsItsReservation: runs in which trade events name delivered plans and other inventory users reserve for other purposes and leave these reservations alone, as the program's callers do.
