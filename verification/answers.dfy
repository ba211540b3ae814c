/** What every coordinator call answers, said by the fields of the trade alone: which legs are in, what the
    two primary legs left open, which side the hedge is on. */
module Answers {
  import opened Machine
  import opened Trade
  import opened Journal
  import opened Coordinator
  import opened Lifecycle

  // ---------------------------------------------------------------- the state of a trade

  // What the venue executed of a leg, before a commission in token B.
  function ExecutedQuantity(leg: LegResult): I128 {
    if leg.executedTokenB.Some? then leg.executedTokenB.value else leg.tokenB
  }

  ghost predicate SomeUnknown(op: TradeOperation) { exists leg | leg in Legs(op) :: leg.status.Unknown? }

  /** Every dispatched leg has a result, and every result is known. */
  ghost predicate AllIn(op: TradeOperation) {
    && op.dexDispatched && op.dexResult.Some? && (op.cexDispatched ==> op.cexResult.Some?)
    && !op.recoveryInflight && !SomeUnknown(op)
  }

  // What the hedge has still to move for the executed quantities to cancel, within 128 bits.
  function StillOpen(op: TradeOperation): int
    requires op.dexResult.Some? && op.cexResult.Some?
  {
    Clamp(Clamp(0 - op.dexResult.value.tokenB) - ExecutedQuantity(op.cexResult.value))
  }

  // Both primary legs are in and less than one venue step is open.
  predicate Matched(op: TradeOperation)
    requires op.dexResult.Some? && op.cexResult.Some?
  {
    StillOpen(op) == 0 || Abs(StillOpen(op)) < op.intent.tokenBStep
  }

  predicate BoughtOnDex(op: TradeOperation) { op.dexResult.Some? && op.dexResult.value.tokenB != 0 }

  /** The DEX leg of a DEX-first trade moved token B and nothing hedges it yet. */
  ghost predicate Unhedged(op: TradeOperation) {
    AllIn(op) && !op.cexDispatched && op.dexResult.value.status.Filled? && BoughtOnDex(op)
  }

  /** The primary legs left at least one step open and nothing was tried yet. */
  ghost predicate Mismatched(op: TradeOperation) {
    AllIn(op) && op.cexDispatched && op.recoveryResults == [] && !Matched(op)
  }

  // Recovering would trade against the plan's own hedge: the hedge overshot.
  ghost predicate Overshot(op: TradeOperation) {
    Mismatched(op) && op.intent.mode.DexFirst? && (StillOpen(op) < 0 <==> op.intent.direction.BuyOnCexSellOnDex?)
  }

  ghost predicate MayRetry(op: TradeOperation) {
    AllIn(op) && |op.recoveryResults| in {1, 2} && RetryableFailure(op.recoveryResults[|op.recoveryResults| - 1])
  }

  /** Nothing is left to be done: no token B moved, the primary legs match, or the last recovery was final. */
  ghost predicate Finished(op: TradeOperation) {
    AllIn(op) && !Unhedged(op) && !Mismatched(op) && !MayRetry(op)
  }

  // ---------------------------------------------------------------- take_commands

  predicate IsDexOrder(i: TradeIntent, c: Command, reconciliationOnly: bool) {
    && c.DispatchDex? && c.operationId == i.dexOperationId && c.plan == i.dexPlan
    && c.expectedTokenB == (if i.direction.BuyOnDexSellOnCex? then i.plannedTokenB else 0 - i.plannedTokenB)
    && c.reconciliationOnly == reconciliationOnly
  }

  // The limit price of the hedge: the one selected after the DEX leg, else the admitted one.
  function HedgePrice(op: TradeOperation): Option<real> {
    match (op.cexLimitPrice, op.intent.admission)
    case (Some(price), _) => Some(price)
    case (None, Some(bounds)) => Some(bounds.primaryLimitPrice)
    case (None, None) => None
  }

  // The hedge of a concurrent trade is the planned quantity, that of a DEX-first trade the actual DEX fill.
  predicate IsHedge(op: TradeOperation, c: Command) {
    && c.DispatchCex? && c.clientOrderId == op.intent.cexClientOrderId && c.limitPrice == HedgePrice(op)
    && if op.intent.mode.ConcurrentHedged? then
         c.targetTokenB == if op.intent.direction.BuyOnDexSellOnCex? then 0 - op.intent.plannedTokenB
                           else op.intent.plannedTokenB
       else op.dexResult.Some? && (op.dexResult.value.tokenB > -TWO_127 ==>
                                     c.targetTokenB == 0 - op.dexResult.value.tokenB)
  }

  // ---- each situation and its answer

  lemma UnknownIsSeen(op: TradeOperation)
    ensures HasUnknownLeg(op) <==> SomeUnknown(op)
  {
    var primary := OptionSeq(op.dexResult) + OptionSeq(op.cexResult);
    assert Legs(op) == primary + op.recoveryResults;
    if HasUnknownLeg(op) {
      if IsUnknown(op.dexResult) {
        assert op.dexResult.value in Legs(op);
      } else if IsUnknown(op.cexResult) {
        assert op.cexResult.value in primary;
      } else {
        var i :| 0 <= i < |op.recoveryResults| && op.recoveryResults[i].status.Unknown?;
        assert op.recoveryResults[i] in Legs(op);
      }
    }
  }

  lemma TargetIsStillOpen(op: TradeOperation)
    requires op.dexResult.Some? && op.cexResult.Some?
    ensures PrimaryRecoveryTarget(op) == Some(if Matched(op) then 0 else StillOpen(op))
  {
  }

  /** A terminal trade is refused; a trade with an unknown leg is parked once; a trade that waits for a leg
      waits. */
  lemma TakeWaits(op: TradeOperation, clock: Option<U64>)
    requires InLifecycle(op)
    ensures op.stage.Terminal() ==> TakeDecision(op, clock) == Refuse(TradeIsTerminal)
    ensures !op.stage.Terminal() && SomeUnknown(op) ==>
              TakeDecision(op, clock)
              == if op.stage.UnknownExposure? then Wait
                 else Advance(op.(stage := UnknownExposure, blockingReason := Some("venue_outcome_unknown")), [])
    ensures !op.stage.Terminal() && op.dexDispatched && !SomeUnknown(op) && !AllIn(op) ==>
              TakeDecision(op, clock) == Wait
  {
    UnknownIsSeen(op);
  }

  /** A prepared trade dispatches its DEX leg, and in concurrent mode its hedge with it. */
  lemma TakeDispatches(op: TradeOperation, clock: Option<U64>)
    requires InLifecycle(op) && !op.dexDispatched
    ensures var d, concurrent := TakeDecision(op, clock), op.intent.mode.ConcurrentHedged?;
            && d.Advance?
            && d.next == op.(stage := Executing, dexDispatched := true, cexDispatched := concurrent)
            && |d.commands| == (if concurrent then 2 else 1) && IsDexOrder(op.intent, d.commands[0], false)
            && (concurrent ==> IsHedge(op, d.commands[1]))
  {
    UnknownIsSeen(op);
  }

  /** A DEX-first trade hedges what its DEX leg moved. */
  lemma TakeHedges(op: TradeOperation, clock: Option<U64>)
    requires InLifecycle(op) && !op.stage.Terminal() && Unhedged(op)
    ensures var d := TakeDecision(op, clock);
            && d.Advance? && d.next == op.(cexDispatched := true) && |d.commands| == 1 && IsHedge(op, d.commands[0])
  {
    UnknownIsSeen(op);
  }

  /** A mismatch is recovered with exactly the open quantity, unless a DEX-first hedge overshot: then the trade
      halts and nothing is ordered. */
  lemma TakeRecovers(op: TradeOperation, clock: Option<U64>)
    requires InLifecycle(op) && !op.stage.Terminal() && Mismatched(op)
    ensures TakeDecision(op, clock)
         == if Overshot(op) then
              Advance(op.(stage := Halted, blockingReason := Some("dex_first_recovery_direction_flipped")), [])
            else
              Advance(op.(stage := Recovering, recoveryInflight := true, recoveryTarget := Some(StillOpen(op)),
                          retryNotBefore := None),
                      [RecoverCex(1, StillOpen(op))])
  {
    UnknownIsSeen(op);
    TargetIsStillOpen(op);
  }

  /** A failed attempt is repeated with the same target and the next number once its deadline is reached. */
  lemma TakeRetries(op: TradeOperation, clock: Option<U64>)
    requires InLifecycle(op) && !op.stage.Terminal() && MayRetry(op)
    ensures op.recoveryTarget.Some? && op.retryNotBefore.Some?
    ensures TakeDecision(op, clock)
         == if clock.None? then Refuse(ClockUnavailable)
            else if clock.value < op.retryNotBefore.value then Wait
            else Advance(op.(recoveryInflight := true, retryNotBefore := None),
                         [RecoverCex(|op.recoveryResults| + 1, op.recoveryTarget.value)])
  {
    UnknownIsSeen(op);
  }

  /** A finished trade closes, or says why it cannot. */
  lemma TakeCloses(op: TradeOperation, clock: Option<U64>)
    requires InLifecycle(op) && !op.stage.Terminal() && Finished(op)
    ensures TakeDecision(op, clock)
         == match FinalizeBalanced(op) case Ok(closed) => Advance(closed, []) case Err(error) => Refuse(error)
  {
    UnknownIsSeen(op);
    if op.cexDispatched && op.recoveryResults == [] { TargetIsStillOpen(op); }
    if op.recoveryResults != [] { assert op.(retryNotBefore := None) == op; }
  }

  // A retry whose deadline has come.
  ghost predicate RetryDue(op: TradeOperation, clock: Option<U64>) {
    MayRetry(op) && clock.Some? && op.retryNotBefore.Some? && op.retryNotBefore.value <= clock.value
  }

  predicate OrdersRecovery(d: Decision) { d.Advance? && d.commands != [] && d.commands[0].RecoverCex? }

  // What the decision says about halting, closing and recovering.
  ghost predicate Determined(op: TradeOperation, clock: Option<U64>, d: Decision) {
    && (d.Advance? && d.next.stage.Halted? <==> Overshot(op))
    && (d.Advance? && d.next.stage.Terminal() <==> Finished(op) && FinalizeBalanced(op).Ok?)
    && (OrdersRecovery(d) <==> (Mismatched(op) && !Overshot(op)) || RetryDue(op, clock))
  }

  lemma TakeIsDeterminedBefore(op: TradeOperation, clock: Option<U64>)
    requires InLifecycle(op) && !op.stage.Terminal() && (!AllIn(op) || Unhedged(op))
    ensures Determined(op, clock, TakeDecision(op, clock))
  {
    if SomeUnknown(op) || (op.dexDispatched && !AllIn(op)) {
      TakeWaits(op, clock);
    } else if !op.dexDispatched {
      TakeDispatches(op, clock);
    } else {
      TakeHedges(op, clock);
    }
  }

  lemma TakeIsDeterminedAfter(op: TradeOperation, clock: Option<U64>)
    requires InLifecycle(op) && !op.stage.Terminal() && AllIn(op) && !Unhedged(op)
    ensures Determined(op, clock, TakeDecision(op, clock))
  {
    if Mismatched(op) {
      TakeRecovers(op, clock);
    } else if MayRetry(op) {
      TakeRetries(op, clock);
    } else {
      TakeCloses(op, clock);
    }
  }

  /** So `take_commands` halts exactly the overshot trades, closes exactly the finished ones that can be marked,
      and orders a recovery exactly for a mismatch that did not overshoot or a retry that is due. */
  lemma TakeIsDetermined(op: TradeOperation, clock: Option<U64>)
    requires InLifecycle(op) && !op.stage.Terminal()
    ensures Determined(op, clock, TakeDecision(op, clock))
  {
    if AllIn(op) && !Unhedged(op) {
      TakeIsDeterminedAfter(op, clock);
    } else {
      TakeIsDeterminedBefore(op, clock);
    }
  }

  // ---------------------------------------------------------------- record_result and reconcile_unknown

  function LegOf(op: TradeOperation, role: LegRole): seq<LegResult> {
    match role
    case Dex => OptionSeq(op.dexResult)
    case Cex => OptionSeq(op.cexResult)
    case RecoveryCex => op.recoveryResults
  }

  // Nothing but the legs, the recovery flag and deadline, the stage and its reason may differ.
  predicate SameTerms(a: TradeOperation, b: TradeOperation) {
    && a.intent == b.intent && a.dexDispatched == b.dexDispatched && a.cexDispatched == b.cexDispatched
    && a.cexLimitPrice == b.cexLimitPrice && a.recoveryTarget == b.recoveryTarget && a.result == b.result
    && a.operatorRecovery == b.operatorRecovery
  }

  // The slot of `role` is `legs`; the other two slots are as before.
  predicate SlotIs(before: TradeOperation, after: TradeOperation, role: LegRole, legs: seq<LegResult>) {
    && SameTerms(before, after)
    && LegOf(after, role) == legs
    && forall other | other != role :: LegOf(after, other) == LegOf(before, other)
  }

  // A result of this role is expected: its order is out and unanswered.
  predicate Expected(op: TradeOperation, role: LegRole) {
    match role
    case Dex => op.dexDispatched && op.dexResult.None?
    case Cex => op.cexDispatched && op.cexResult.None?
    case RecoveryCex => op.recoveryInflight
  }

  // A deadline for another attempt can be set, or none is needed.
  predicate DeadlineFits(leg: LegResult, attempts: nat, clock: Option<U64>) {
    RetryableFailure(leg) && attempts < MAX_RECOVERY_ATTEMPTS ==>
      clock.Some? && clock.value + (if attempts == 1 then 250 else 500) <= U64_MAX
  }

  function DeadlineAfter(leg: LegResult, attempts: nat, clock: Option<U64>): Option<int> {
    if RetryableFailure(leg) && attempts < MAX_RECOVERY_ATTEMPTS && clock.Some?
    then Some(clock.value + if attempts == 1 then 250 else 500) else None
  }

  lemma DeadlineIsSet(op: TradeOperation, clock: Option<U64>)
    requires op.recoveryResults != []
    ensures var last, n := op.recoveryResults[|op.recoveryResults| - 1], |op.recoveryResults|;
            && (WithDeadline(op, clock).Ok? <==> DeadlineFits(last, n, clock))
            && (DeadlineFits(last, n, clock) ==>
                  WithDeadline(op, clock).value == op.(retryNotBefore := DeadlineAfter(last, n, clock)))
  {
  }

  // `after` is `before` with the reported leg in its own slot.
  predicate Stores(before: TradeOperation, after: TradeOperation, role: LegRole, leg: LegResult, clock: Option<U64>) {
    && SlotIs(before, after, role, LegOf(before, role) + [leg])
    && after.stage == before.stage && after.blockingReason == before.blockingReason
    && (after.recoveryInflight <==> before.recoveryInflight && !role.RecoveryCex?)
    && after.retryNotBefore == if role.RecoveryCex? then DeadlineAfter(leg, |before.recoveryResults| + 1, clock)
                               else before.retryNotBefore
  }

  /** A report is recorded if and only if it was expected and the trade is open: the reported leg, exactly,
      joins its own slot, and the other slots stay. */
  lemma ReportIsStored(op: TradeOperation, role: LegRole, leg: LegResult, clock: Option<U64>)
    ensures var d := RecordDecision(op, role, leg, clock);
            && !d.Wait?
            && (d.Advance? <==>
                  && !op.stage.Terminal() && Expected(op, role)
                  && (role.RecoveryCex? ==> DeadlineFits(leg, |op.recoveryResults| + 1, clock)))
            && (d.Advance? ==> Stores(op, d.next, role, leg, clock) && d.commands == [])
  {
    DeadlineIsSet(op.(recoveryInflight := false, recoveryResults := op.recoveryResults + [leg]), clock);
  }

  // The role's last leg is unknown.
  predicate Unresolved(op: TradeOperation, role: LegRole) {
    LegOf(op, role) != [] && LegOf(op, role)[|LegOf(op, role)| - 1].status.Unknown?
  }

  // `after` is `before` with the given leg in place of the role's last one, and open again.
  predicate Replaces(before: TradeOperation, after: TradeOperation, role: LegRole, leg: LegResult, clock: Option<U64>)
    requires LegOf(before, role) != []
  {
    var legs := LegOf(before, role);
    && SlotIs(before, after, role, legs[..|legs| - 1] + [leg])
    && after.stage == (if before.recoveryResults == [] then Executing else Recovering)
    && after.blockingReason == None && after.recoveryInflight == before.recoveryInflight
    && after.retryNotBefore == if role.RecoveryCex? then DeadlineAfter(leg, |legs|, clock) else before.retryNotBefore
  }

  // A reconciliation goes through if and only if the trade is parked and the role's last leg is unknown.
  ghost predicate ReconciledExactly(op: TradeOperation, role: LegRole, leg: LegResult, clock: Option<U64>,
                                    d: Decision) {
    && !d.Wait?
    && (d.Advance? <==>
          && op.stage.UnknownExposure? && Unresolved(op, role)
          && (role.Dex? && leg.status.Failed? ==> ProvesZeroExposure(leg))
          && (role.RecoveryCex? ==> DeadlineFits(leg, |op.recoveryResults|, clock)))
    && (d.Advance? ==> Replaces(op, d.next, role, leg, clock) && d.commands == [])
  }

  lemma PrimaryReconciliationIsStored(op: TradeOperation, role: LegRole, leg: LegResult, clock: Option<U64>)
    requires !role.RecoveryCex?
    ensures ReconciledExactly(op, role, leg, clock, ReconcileDecision(op, role, leg, clock))
  {
  }

  lemma RecoveryReconciliationIsStored(op: TradeOperation, leg: LegResult, clock: Option<U64>)
    ensures ReconciledExactly(op, RecoveryCex, leg, clock, ReconcileDecision(op, RecoveryCex, leg, clock))
  {
    var n := |op.recoveryResults|;
    if n > 0 { DeadlineIsSet(op.(recoveryResults := op.recoveryResults[..n - 1] + [leg]), clock); }
  }

  /** The unknown leg is replaced by exactly the given one, every other leg stays, and the trade goes on; any
      other reconciliation is refused. */
  lemma ReconciliationIsStored(op: TradeOperation, role: LegRole, leg: LegResult, clock: Option<U64>)
    ensures ReconciledExactly(op, role, leg, clock, ReconcileDecision(op, role, leg, clock))
  {
    if role.RecoveryCex? {
      RecoveryReconciliationIsStored(op, leg, clock);
    } else {
      PrimaryReconciliationIsStored(op, role, leg, clock);
    }
  }

  // ---------------------------------------------------------------- admission, price and repair

  /** An intent is admitted if and only if it is valid, its threshold was met if it carries one, no trade is in
      flight and its plan is new; it starts with no leg dispatched and no command. */
  lemma AdmitExactly(operations: Operations, i: TradeIntent)
    ensures var d := AdmitDecision(operations, i);
            && (d.Advance? <==>
                  && ValidIntent(i) && (i.admission.Some? ==> i.admission.value.thresholdMet)
                  && i.planId !in operations
                  && forall p | p in operations :: operations[p].stage !in {Prepared, Executing, Recovering})
            && (d.Advance? ==>
                  && d.commands == [] && d.next.intent == i && d.next.stage.Prepared? && Legs(d.next) == []
                  && !d.next.dexDispatched && !d.next.cexDispatched && !d.next.recoveryInflight)
  {
  }

  /** The hedge price of a DEX-first trade is set once, after its DEX leg moved token B and before the hedge is
      ordered; nothing else changes. */
  lemma PriceIsStored(op: TradeOperation, price: real)
    ensures var d := PriceDecision(op, price);
            var open := op.intent.mode.DexFirst? && !op.cexDispatched && FilledSome(op.dexResult);
            && (d.Advance? <==> open && op.cexLimitPrice.None?)
            && (d.Wait? <==> open && op.cexLimitPrice == Some(price))
            && (d.Advance? ==> d.next == op.(cexLimitPrice := Some(price)) && d.commands == [])
            && (d.Advance? ==> HedgePrice(d.next) == Some(price))
  {
  }

  /** An operator repair that goes through replaces the mislabelled DEX leg by the proven one, adds exactly the
      proven recovery, keeps the evidence, and closes the trade with nothing left open. */
  lemma RepairIsStored(op: TradeOperation, dex: LegResult, recovery: LegResult, e: OperatorEvidence)
    requires OperatorDecision(op, dex, recovery, e).Advance?
    ensures var next := OperatorDecision(op, dex, recovery, e).next;
            && FalseTerminal(op) && DeterministicRecoveryId(op.intent.cexClientOrderId, e.binanceClientOrderId)
            && next.dexResult == Some(dex) && next.cexResult == None && next.recoveryResults == [recovery]
            && next.recoveryTarget == Some(recovery.tokenB) && next.operatorRecovery == Some(e)
            && next.intent == op.intent && next.stage.Terminal() && next.result.Some? && next.blockingReason == None
            && TokenBResidual(next) == 0 && dex.tokenB != 0
            && (dex.tokenB > -TWO_127 ==> dex.tokenB + recovery.tokenB == 0)
            && OperatorDecision(op, dex, recovery, e).commands == []
  {
  }

  /** A repair is only decided on evidence: two filled legs whose references are the transaction and the order
      the operator names. */
  lemma RepairIsProven(operations: Operations, c: Call, clock: Option<U64>)
    requires c.RepairFalseTerminal? && Decide(operations, c, clock).Advance?
    ensures c.dex.status.Filled? && c.recovery.status.Filled? && ValidLeg(c.dex) && ValidLeg(c.recovery)
    ensures c.dex.venueReference == "dex:" + c.evidence.dexTransactionHash
    ensures c.recovery.venueReference == "cex:" + Decimal(c.evidence.binanceOrderId)
    ensures c.plan in operations && FalseTerminal(operations[c.plan])
  {
  }
}
