/** The invariant of one trade: what holds of every operation the coordinator can produce, why every
    successor it appends passes the journal guard, and which commands an operation accounts for. */
module Lifecycle {
  import opened Machine
  import opened Trade
  import opened Journal
  import opened Coordinator

  // ---------------------------------------------------------------- the invariant

  // Recovery orders ever issued: those with a result and the one in flight.
  function Attempts(op: TradeOperation): nat {
    |op.recoveryResults| + if op.recoveryInflight then 1 else 0
  }

  predicate FilledSome(o: Option<LegResult>) { o.Some? && o.value.status.Filled? && o.value.tokenB != 0 }

  predicate Known(o: Option<LegResult>) { o.Some? && !o.value.status.Unknown? }

  predicate DispatchShape(op: TradeOperation) {
    && (op.stage.Prepared? <==> !op.dexDispatched)
    && (!op.dexDispatched ==> op == PreparedOperation(op.intent))
    && (op.dexResult.Some? ==> op.dexDispatched)
    && (op.cexResult.Some? ==> op.cexDispatched)
    && (op.intent.mode.ConcurrentHedged? ==> op.cexDispatched == op.dexDispatched && op.cexLimitPrice.None?)
    && (op.intent.mode.DexFirst? && op.cexDispatched ==> FilledSome(op.dexResult))
  }

  // Every attempt but the last failed without any fill, in a way that permits another attempt.
  predicate RetryChain(rs: seq<LegResult>) {
    forall i | 0 <= i < |rs| - 1 :: RetryableFailure(rs[i])
  }

  predicate LastRetryable(op: TradeOperation) {
    op.recoveryResults != [] && RetryableFailure(op.recoveryResults[|op.recoveryResults| - 1])
  }

  predicate BetweenAttempts(op: TradeOperation) {
    && op.stage.Recovering? && !op.recoveryInflight
    && LastRetryable(op) && |op.recoveryResults| < MAX_RECOVERY_ATTEMPTS
  }

  // Token B bought on the DEX is sold on the venue, and the other way round.
  predicate OnHedgeSide(d: Direction, quantity: int) {
    quantity != 0 && (quantity < 0 <==> d.BuyOnDexSellOnCex?)
  }

  predicate RecoveryShape(op: TradeOperation) {
    && (op.recoveryTarget.Some? <==> Attempts(op) > 0)
    && (Attempts(op) > 0 ==>
          && Known(op.dexResult) && Known(op.cexResult)
          && op.recoveryTarget == PrimaryRecoveryTarget(op) && op.recoveryTarget.value != 0
          && (op.intent.mode.DexFirst? ==> OnHedgeSide(op.intent.direction, op.recoveryTarget.value))
          && (op.stage.Recovering? || op.stage.UnknownExposure? || op.stage.Terminal()))
    && Attempts(op) <= MAX_RECOVERY_ATTEMPTS
    && RetryChain(op.recoveryResults)
    && (op.recoveryInflight ==>
          && op.stage.Recovering? && op.retryNotBefore.None?
          && (op.recoveryResults == [] || LastRetryable(op)))
    && (op.stage.Recovering? ==> Attempts(op) > 0)
    && (BetweenAttempts(op) ==> op.retryNotBefore.Some?)
  }

  // A halted trade: the primary CEX fill overshot, so the remaining hedge would reverse direction.
  predicate HaltShape(op: TradeOperation) {
    op.stage.Halted? ==>
      && op.intent.mode.DexFirst? && op.cexDispatched && Known(op.dexResult) && Known(op.cexResult)
      && Attempts(op) == 0
      && PrimaryRecoveryTarget(op).value != 0
      && !OnHedgeSide(op.intent.direction, PrimaryRecoveryTarget(op).value)
  }

  predicate TerminalShape(op: TradeOperation) {
    op.stage.Terminal() ==>
      && CloseOutObstacle(op).None? && op.dexResult.Some?
      && (FilledSome(op.dexResult) ==> op.cexDispatched)
      && (op.recoveryResults == [] && op.cexResult.Some? ==> PrimaryRecoveryTarget(op) == Some(0))
      && (LastRetryable(op) ==> |op.recoveryResults| == MAX_RECOVERY_ATTEMPTS)
      && ResidualValue(op).Ok? && FitsI128(RealizedProfit(op) + ResidualValue(op).value)
      && op.result == Some(BalancedResult(op, ResidualValue(op).value))
      && op.stage == OutcomeStage(op.result.value.outcome)
  }

  predicate InLifecycle(op: TradeOperation) {
    && ValidOperation(op)
    && op.operatorRecovery.None?
    && DispatchShape(op)
    && RecoveryShape(op)
    && (op.stage.UnknownExposure? ==> HasUnknownLeg(op))
    && (op.cexLimitPrice.Some? ==> op.cexLimitPrice.value > 0.0)
    && HaltShape(op)
    && TerminalShape(op)
  }

  // ---------------------------------------------------------------- commands an operation accounts for

  function Recoveries(n: nat, target: I128): (cs: seq<Command>)
    ensures |cs| == n
    ensures forall i | 0 <= i < n :: cs[i] == RecoverCex(i + 1, target)
  {
    if n == 0 then [] else Recoveries(n - 1, target) + [RecoverCex(n, target)]
  }

  function PrimaryCexCommand(op: TradeOperation): Command {
    DispatchCex(op.intent.cexClientOrderId,
                if op.intent.mode.ConcurrentHedged? then PlannedHedge(op.intent)
                else if op.dexResult.Some? then WrapNeg(op.dexResult.value.tokenB) else 0,
                PrimaryPrice(op))
  }

  function DexPart(op: TradeOperation): seq<Command> {
    if op.dexDispatched then [DexCommand(op.intent, false)] else []
  }

  function CexPart(op: TradeOperation): seq<Command> {
    if op.cexDispatched then [PrimaryCexCommand(op)] else []
  }

  function RecoveryPart(op: TradeOperation): seq<Command> {
    Recoveries(Attempts(op), if op.recoveryTarget.Some? then op.recoveryTarget.value else 0)
  }

  /** The commands whose ownership the operation records, in the order they were issued. */
  function OwnedCommands(op: TradeOperation): seq<Command> {
    DexPart(op) + CexPart(op) + RecoveryPart(op)
  }

  /** A decision is sound for an operation when its successor stays in the lifecycle, passes the
      guard, and owns exactly the commands owned before plus the ones handed out now. */
  predicate Sound(op: TradeOperation, d: Decision) {
    d.Advance? ==>
      && InLifecycle(d.next) && d.next.intent == op.intent
      && TransitionAccepted(op, d.next)
      && OwnedCommands(d.next) == OwnedCommands(op) + d.commands
  }

  // ---------------------------------------------------------------- each decision is sound

  lemma PreparedIsInLifecycle(i: TradeIntent)
    requires ValidIntent(i)
    ensures InLifecycle(PreparedOperation(i)) && OwnedCommands(PreparedOperation(i)) == []
  {
  }

  lemma ClosedShape(op: TradeOperation)
    requires CloseOut(op).Advance? && op.dexResult.Some? && (FilledSome(op.dexResult) ==> op.cexDispatched)
    requires op.recoveryResults == [] && op.cexResult.Some? ==> PrimaryRecoveryTarget(op) == Some(0)
    requires LastRetryable(op) ==> |op.recoveryResults| == MAX_RECOVERY_ATTEMPTS
    ensures TerminalShape(CloseOut(op).next)
  {
  }

  // `op` with a result and the stage of its outcome.
  function WithResult(op: TradeOperation, r: ArbitrageResult): TradeOperation {
    op.(stage := OutcomeStage(r.outcome), result := Some(r))
  }

  // What closing leaves alone, whatever the result.
  lemma ResultKeepsShapes(op: TradeOperation, r: ArbitrageResult)
    requires ValidOperation(op) && op.operatorRecovery.None? && DispatchShape(op) && RecoveryShape(op)
    requires op.stage.Executing? || op.stage.Recovering?
    requires !op.recoveryInflight && op.dexResult.Some? && op.retryNotBefore.None?
    ensures ValidOperation(WithResult(op, r)) && DispatchShape(WithResult(op, r)) && RecoveryShape(WithResult(op, r))
    ensures OwnedCommands(WithResult(op, r)) == OwnedCommands(op)
  {
    assert RecoveryPart(WithResult(op, r)) == RecoveryPart(op);
  }

  lemma ResultIsAccepted(op: TradeOperation, r: ArbitrageResult)
    requires (op.stage.Executing? || op.stage.Recovering?) && op.operatorRecovery.None?
    ensures TransitionAccepted(op, WithResult(op, r))
  {
  }

  lemma CloseOutGivesAResult(op: TradeOperation)
    requires CloseOut(op).Advance?
    ensures CloseOut(op).commands == [] && CloseOut(op).next.result.Some?
    ensures CloseOut(op).next == WithResult(op, CloseOut(op).next.result.value)
  {
  }

  lemma CloseOutIsSound(op: TradeOperation)
    requires InLifecycle(op) && !op.stage.Terminal()
    requires op.stage.Executing? || op.stage.Recovering?
    requires !op.recoveryInflight && op.dexResult.Some? && (FilledSome(op.dexResult) ==> op.cexDispatched)
    requires op.recoveryResults == [] && op.cexResult.Some? ==> PrimaryRecoveryTarget(op) == Some(0)
    requires LastRetryable(op) ==> |op.recoveryResults| == MAX_RECOVERY_ATTEMPTS
    requires op.retryNotBefore.None?
    ensures Sound(op, CloseOut(op))
  {
    if CloseOut(op).Advance? {
      CloseOutGivesAResult(op);
      var r := CloseOut(op).next.result.value;
      ClosedShape(op);
      ResultKeepsShapes(op, r);
      ResultIsAccepted(op, r);
    }
  }

  lemma FirstDispatchIsSound(op: TradeOperation)
    requires InLifecycle(op) && !op.dexDispatched
    ensures Sound(op, FirstDispatch(op))
  {
  }

  lemma CexDispatchIsSound(op: TradeOperation, clock: Option<U64>)
    requires InLifecycle(op) && !op.stage.Terminal() && !HasUnknownLeg(op)
    requires op.intent.mode.DexFirst? && !op.cexDispatched && FilledSome(op.dexResult)
    ensures Sound(op, TakeDecision(op, clock))
  {
  }

  lemma RetryIsSound(op: TradeOperation, clock: Option<U64>)
    requires InLifecycle(op) && !op.stage.Terminal() && !HasUnknownLeg(op)
    requires op.recoveryResults != [] && !op.recoveryInflight
    ensures Sound(op, RetryOrClose(op, clock))
  {
    if LastRetryable(op) && |op.recoveryResults| < MAX_RECOVERY_ATTEMPTS {
      var d := RetryOrClose(op, clock);
      if d.Advance? {
        assert RecoveryPart(d.next) == RecoveryPart(op) + d.commands;
        assert HasUnknownLeg(d.next) == HasUnknownLeg(op);
      }
    } else {
      assert op.retryNotBefore.None?;
      assert op.(retryNotBefore := None) == op;
      CloseOutIsSound(op);
    }
  }

  // Everything a first recovery, or the decision not to make one, starts from.
  predicate AwaitsRecovery(op: TradeOperation) {
    && InLifecycle(op) && !op.stage.Terminal() && !op.stage.UnknownExposure? && !HasUnknownLeg(op)
    && op.dexDispatched && Known(op.dexResult) && Known(op.cexResult) && PrimaryRecoveryTarget(op).value != 0
    && op.recoveryResults == [] && !op.recoveryInflight
  }

  const DIRECTION_FLIPPED := "dex_first_recovery_direction_flipped"
  const OUTCOME_UNKNOWN := "venue_outcome_unknown"

  lemma ReasonsAreValid()
    ensures ValidId(DIRECTION_FLIPPED, 256) && ValidId(OUTCOME_UNKNOWN, 256)
  {
  }

  function Halting(op: TradeOperation): TradeOperation {
    op.(stage := Halted, blockingReason := Some(DIRECTION_FLIPPED))
  }

  lemma HaltIsValid(op: TradeOperation)
    requires AwaitsRecovery(op)
    ensures ValidOperation(Halting(op)) && DispatchShape(Halting(op)) && RecoveryShape(Halting(op))
    ensures OwnedCommands(Halting(op)) == OwnedCommands(op)
  {
    ReasonsAreValid();
    assert RecoveryPart(op) == RecoveryPart(Halting(op)) == [];
  }

  lemma HaltIsAccepted(op: TradeOperation)
    requires AwaitsRecovery(op)
    ensures TransitionAccepted(op, Halting(op))
  {
  }

  lemma HaltHasItsShape(op: TradeOperation)
    requires op.intent.mode.DexFirst? && op.cexDispatched && Known(op.dexResult) && Known(op.cexResult)
    requires Attempts(op) == 0
    requires PrimaryRecoveryTarget(op).value != 0
    requires !OnHedgeSide(op.intent.direction, PrimaryRecoveryTarget(op).value)
    ensures HaltShape(Halting(op))
  {
    assert PrimaryRecoveryTarget(Halting(op)) == PrimaryRecoveryTarget(op);
  }

  lemma HaltIsSound(op: TradeOperation)
    requires AwaitsRecovery(op) && op.intent.mode.DexFirst?
    requires !OnHedgeSide(op.intent.direction, PrimaryRecoveryTarget(op).value)
    ensures Sound(op, Advance(Halting(op), []))
  {
    HaltIsValid(op);
    HaltIsAccepted(op);
    HaltHasItsShape(op);
  }

  function FirstAttempt(op: TradeOperation, target: I128): TradeOperation {
    op.(stage := Recovering, recoveryInflight := true, recoveryTarget := Some(target), retryNotBefore := None)
  }

  lemma FirstAttemptIsAccepted(op: TradeOperation)
    requires AwaitsRecovery(op) && !op.stage.Halted?
    ensures TransitionAccepted(op, FirstAttempt(op, PrimaryRecoveryTarget(op).value))
  {
  }

  lemma FirstAttemptIsSound(op: TradeOperation)
    requires AwaitsRecovery(op) && !op.stage.Halted?
    requires op.intent.mode.DexFirst? ==> OnHedgeSide(op.intent.direction, PrimaryRecoveryTarget(op).value)
    ensures var target := PrimaryRecoveryTarget(op).value;
            Sound(op, Advance(FirstAttempt(op, target), [RecoverCex(1, target)]))
  {
    var target := PrimaryRecoveryTarget(op).value;
    FirstAttemptIsAccepted(op);
    assert RecoveryPart(op) == [];
    assert RecoveryPart(FirstAttempt(op, target)) == [RecoverCex(1, target)];
  }

  lemma RecoverIsSound(op: TradeOperation)
    requires InLifecycle(op) && !op.stage.Terminal() && !HasUnknownLeg(op)
    requires op.dexDispatched && PrimaryFinished(op) && (FilledSome(op.dexResult) ==> op.cexDispatched)
    requires op.recoveryResults == [] && !op.recoveryInflight
    ensures Sound(op, RecoverOrClose(op))
  {
    if PrimaryRecoveryTarget(op) == None || PrimaryRecoveryTarget(op) == Some(0) {
      CloseOutIsSound(op);
    } else if op.intent.mode.DexFirst?
      && !OnHedgeSide(op.intent.direction, PrimaryRecoveryTarget(op).value) {
      HaltIsSound(op);
    } else {
      FirstAttemptIsSound(op);
    }
  }

  // An operation set aside until its unknown leg is reconciled.
  function SetAside(op: TradeOperation): TradeOperation {
    op.(stage := UnknownExposure, blockingReason := Some(OUTCOME_UNKNOWN))
  }

  lemma SetAsideIsAccepted(op: TradeOperation)
    requires InLifecycle(op) && !op.stage.Terminal() && !op.stage.UnknownExposure? && HasUnknownLeg(op)
    ensures TransitionAccepted(op, SetAside(op))
  {
  }

  lemma SetAsideIsInLifecycle(op: TradeOperation)
    requires InLifecycle(op) && !op.stage.Terminal() && !op.stage.UnknownExposure? && HasUnknownLeg(op)
    ensures InLifecycle(SetAside(op)) && OwnedCommands(SetAside(op)) == OwnedCommands(op)
  {
    ReasonsAreValid();
    assert op.retryNotBefore.None?;
    assert RecoveryPart(SetAside(op)) == RecoveryPart(op);
  }

  lemma UnknownIsSound(op: TradeOperation, clock: Option<U64>)
    requires InLifecycle(op) && !op.stage.Terminal() && HasUnknownLeg(op)
    ensures Sound(op, TakeDecision(op, clock))
  {
    if !op.stage.UnknownExposure? {
      SetAsideIsAccepted(op);
      SetAsideIsInLifecycle(op);
      assert TakeDecision(op, clock) == Advance(SetAside(op), []);
    }
  }

  lemma TakeIsSound(op: TradeOperation, clock: Option<U64>)
    requires InLifecycle(op)
    ensures Sound(op, TakeDecision(op, clock))
  {
    if op.stage.Terminal() {
    } else if HasUnknownLeg(op) {
      UnknownIsSound(op, clock);
    } else if !op.dexDispatched {
      FirstDispatchIsSound(op);
    } else if op.intent.mode.DexFirst? && !op.cexDispatched && FilledSome(op.dexResult) {
      CexDispatchIsSound(op, clock);
    } else if op.intent.mode.DexFirst? && !op.cexDispatched && op.dexResult.Some? && op.dexResult.value.status.Failed? {
      CloseOutIsSound(op);
    } else if PrimaryFinished(op) && !op.recoveryInflight {
      if op.recoveryResults != [] { RetryIsSound(op, clock); } else { RecoverIsSound(op); }
    }
  }

  lemma DexReportIsSound(op: TradeOperation, leg: LegResult, clock: Option<U64>)
    requires InLifecycle(op) && ValidLeg(leg)
    ensures Sound(op, RecordDecision(op, Dex, leg, clock))
  {
  }

  lemma CexReportIsSound(op: TradeOperation, leg: LegResult, clock: Option<U64>)
    requires InLifecycle(op) && ValidLeg(leg)
    ensures Sound(op, RecordDecision(op, Cex, leg, clock))
  {
  }

  lemma AttemptAppended(rs: seq<LegResult>, leg: LegResult)
    requires RetryChain(rs) && (rs == [] || RetryableFailure(rs[|rs| - 1]))
    ensures RetryChain(rs + [leg]) && AppendOnlyOrReconciled(rs, rs + [leg])
  {
  }

  lemma AttemptReconciled(rs: seq<LegResult>, leg: LegResult)
    requires RetryChain(rs) && rs != [] && rs[|rs| - 1].status.Unknown? && !leg.status.Unknown?
    ensures RetryChain(rs[..|rs| - 1] + [leg]) && AppendOnlyOrReconciled(rs, rs[..|rs| - 1] + [leg])
  {
  }

  lemma ReportedRecoveryShape(op: TradeOperation, leg: LegResult, clock: Option<U64>)
    requires RecoveryShape(op) && RecordDecision(op, RecoveryCex, leg, clock).Advance?
    ensures var next := RecordDecision(op, RecoveryCex, leg, clock).next;
            RecoveryShape(next) && RecoveryPart(next) == RecoveryPart(op)
  {
    AttemptAppended(op.recoveryResults, leg);
  }

  lemma ReportedRecoveryIsAccepted(op: TradeOperation, leg: LegResult, clock: Option<U64>)
    requires RecoveryShape(op) && op.operatorRecovery.None? && RecordDecision(op, RecoveryCex, leg, clock).Advance?
    ensures TransitionAccepted(op, RecordDecision(op, RecoveryCex, leg, clock).next)
  {
    AttemptAppended(op.recoveryResults, leg);
  }

  lemma RecoveryReportIsSound(op: TradeOperation, leg: LegResult, clock: Option<U64>)
    requires InLifecycle(op) && ValidLeg(leg)
    ensures Sound(op, RecordDecision(op, RecoveryCex, leg, clock))
  {
    if RecordDecision(op, RecoveryCex, leg, clock).Advance? {
      ReportedRecoveryShape(op, leg, clock);
      ReportedRecoveryIsAccepted(op, leg, clock);
    }
  }

  lemma DexReconciliationIsSound(op: TradeOperation, leg: LegResult, clock: Option<U64>)
    requires InLifecycle(op) && ValidLeg(leg) && !leg.status.Unknown?
    ensures Sound(op, ReconcileDecision(op, Dex, leg, clock))
  {
  }

  lemma CexReconciliationIsSound(op: TradeOperation, leg: LegResult, clock: Option<U64>)
    requires InLifecycle(op) && ValidLeg(leg) && !leg.status.Unknown?
    ensures Sound(op, ReconcileDecision(op, Cex, leg, clock))
  {
  }

  lemma ReconciledRecoveryShape(op: TradeOperation, leg: LegResult, clock: Option<U64>)
    requires RecoveryShape(op) && op.stage.UnknownExposure? && !leg.status.Unknown?
    requires ReconcileDecision(op, RecoveryCex, leg, clock).Advance?
    ensures var next := ReconcileDecision(op, RecoveryCex, leg, clock).next;
            RecoveryShape(next) && RecoveryPart(next) == RecoveryPart(op)
  {
    AttemptReconciled(op.recoveryResults, leg);
  }

  lemma ReconciledRecoveryIsValid(op: TradeOperation, leg: LegResult, clock: Option<U64>)
    requires ValidOperation(op) && op.operatorRecovery.None? && DispatchShape(op) && op.dexDispatched
    requires !op.recoveryInflight
    requires ValidLeg(leg) && ReconcileDecision(op, RecoveryCex, leg, clock).Advance?
    ensures var next := ReconcileDecision(op, RecoveryCex, leg, clock).next; ValidOperation(next) && DispatchShape(next)
  {
  }

  lemma ReconciledRecoveryIsAccepted(op: TradeOperation, leg: LegResult, clock: Option<U64>)
    requires RecoveryShape(op) && op.operatorRecovery.None? && !leg.status.Unknown?
    requires ReconcileDecision(op, RecoveryCex, leg, clock).Advance?
    ensures TransitionAccepted(op, ReconcileDecision(op, RecoveryCex, leg, clock).next)
  {
    AttemptReconciled(op.recoveryResults, leg);
  }

  // What reconciling a recovery leaves alone.
  lemma ReconciledRecoveryKeeps(op: TradeOperation, leg: LegResult, clock: Option<U64>)
    requires ReconcileDecision(op, RecoveryCex, leg, clock).Advance?
    ensures var d := ReconcileDecision(op, RecoveryCex, leg, clock);
            && d.commands == [] && d.next.intent == op.intent && d.next.stage.Recovering?
            && d.next.cexLimitPrice == op.cexLimitPrice && d.next.operatorRecovery == op.operatorRecovery
            && DexPart(d.next) == DexPart(op) && CexPart(d.next) == CexPart(op)
  {
  }

  lemma RecoveryReconciliationIsSound(op: TradeOperation, leg: LegResult, clock: Option<U64>)
    requires InLifecycle(op) && ValidLeg(leg) && !leg.status.Unknown?
    ensures Sound(op, ReconcileDecision(op, RecoveryCex, leg, clock))
  {
    if ReconcileDecision(op, RecoveryCex, leg, clock).Advance? {
      ReconciledRecoveryKeeps(op, leg, clock);
      ReconciledRecoveryShape(op, leg, clock);
      ReconciledRecoveryIsValid(op, leg, clock);
      ReconciledRecoveryIsAccepted(op, leg, clock);
    }
  }

  lemma PriceIsSound(op: TradeOperation, price: real)
    requires InLifecycle(op) && price > 0.0
    ensures Sound(op, PriceDecision(op, price))
  {
  }

  // The label of the historical defect is not one of the outcomes that prove zero exposure.
  lemma ExpiredPlanProvesNothing(leg: LegResult)
    requires leg.venueReference == "dex:expired-plan"
    ensures !ProvesZeroExposure(leg)
  {
  }

  /** The repair path is unreachable: no operation of the lifecycle has the false-terminal shape. */
  lemma NothingToRepair(op: TradeOperation)
    requires InLifecycle(op)
    ensures !FalseTerminal(op)
  {
    if FalseTerminal(op) { ExpiredPlanProvesNothing(op.dexResult.value); }
  }

  /** Whatever a call asks of a lifecycle operation, the successor it appends is again in the lifecycle,
      is accepted by the guard, and accounts for exactly the commands handed out. */
  lemma PlanDecisionIsSound(op: TradeOperation, c: Call, clock: Option<U64>)
    requires InLifecycle(op) && !c.Admit? && ArgumentError(c).None?
    ensures Sound(op, PlanDecision(op, c, clock))
    ensures c.RepairFalseTerminal? ==> PlanDecision(op, c, clock).Refuse?
  {
    match c
    case Take(_) => TakeIsSound(op, clock);
    case Report(_, Dex, leg) => DexReportIsSound(op, leg, clock);
    case Report(_, Cex, leg) => CexReportIsSound(op, leg, clock);
    case Report(_, RecoveryCex, leg) => RecoveryReportIsSound(op, leg, clock);
    case SelectPrice(_, price) => PriceIsSound(op, price);
    case Reconcile(_, Dex, leg) => DexReconciliationIsSound(op, leg, clock);
    case Reconcile(_, Cex, leg) => CexReconciliationIsSound(op, leg, clock);
    case Reconcile(_, RecoveryCex, leg) => RecoveryReconciliationIsSound(op, leg, clock);
    case RepairFalseTerminal(_, _, _, _) => NothingToRepair(op);
  }

  // ---------------------------------------------------------------- refusals

  predicate External(d: Decision) { d.Refuse? ==> d.error !in INTERNAL_ERRORS }

  lemma CloseOutIsExternal(op: TradeOperation)
    ensures External(CloseOut(op))
  {
  }

  lemma RetryIsExternal(op: TradeOperation, clock: Option<U64>)
    requires RecoveryShape(op) && op.stage.Recovering? && op.recoveryResults != [] && !op.recoveryInflight
    ensures External(RetryOrClose(op, clock))
  {
    CloseOutIsExternal(op.(retryNotBefore := None));
  }

  lemma TakeIsExternal(op: TradeOperation, clock: Option<U64>)
    requires InLifecycle(op)
    ensures External(TakeDecision(op, clock))
  {
    CloseOutIsExternal(op);
    if !op.stage.Terminal() && !HasUnknownLeg(op) && op.recoveryResults != [] && !op.recoveryInflight {
      assert op.stage.Recovering?;
      RetryIsExternal(op, clock);
    }
  }

  // Recording, reconciling and pricing have no internal errors to answer with.
  lemma ReportIsExternal(op: TradeOperation, role: LegRole, leg: LegResult, clock: Option<U64>)
    ensures External(RecordDecision(op, role, leg, clock)) && External(ReconcileDecision(op, role, leg, clock))
  {
  }

  lemma PlanDecisionIsExternal(op: TradeOperation, c: Call, clock: Option<U64>)
    requires InLifecycle(op) && !c.Admit?
    ensures External(PlanDecision(op, c, clock))
  {
    match c
    case Take(_) => TakeIsExternal(op, clock);
    case Report(_, role, leg) => ReportIsExternal(op, role, leg, clock);
    case Reconcile(_, role, leg) => ReportIsExternal(op, role, leg, clock);
    case SelectPrice(_, _) =>
    case RepairFalseTerminal(_, _, _, _) => NothingToRepair(op);
  }

  // ---------------------------------------------------------------- final stages

  /** No call leaves a terminal stage, and no call leaves `Halted` although the stage table lists exits. */
  lemma FinalStagesStay(op: TradeOperation, c: Call, clock: Option<U64>)
    requires InLifecycle(op) && !c.Admit? && ArgumentError(c).None?
    requires op.stage.Terminal() || op.stage.Halted?
    ensures op.stage.Terminal() ==> !PlanDecision(op, c, clock).Advance?
    ensures op.stage.Halted? && PlanDecision(op, c, clock).Advance? ==>
              PlanDecision(op, c, clock).next.stage.Halted? && PlanDecision(op, c, clock).commands == []
  {
    PlanDecisionIsSound(op, c, clock);
    if op.stage.Halted? {
      assert !HasUnknownLeg(op) by { assert op.recoveryResults == []; }
    }
  }

  // ---------------------------------------------------------------- restart

  lemma EraseKeepsRecoveryShape(op: TradeOperation)
    requires RecoveryShape(op)
    ensures RecoveryShape(Erase(op))
  {
  }

  lemma EraseKeepsObstacle(op: TradeOperation)
    ensures CloseOutObstacle(Erase(op)) == CloseOutObstacle(op)
  {
    EraseKeepsUnknown(op);
  }

  lemma EraseKeepsResult(op: TradeOperation, mark: I128)
    requires FitsI128(RealizedProfit(op) + mark)
    ensures RealizedProfit(Erase(op)) == RealizedProfit(op)
    ensures BalancedResult(Erase(op), mark) == BalancedResult(op, mark)
  {
    EraseKeepsAccounting(op);
  }

  lemma EraseKeepsTerminalShape(op: TradeOperation)
    requires TerminalShape(op)
    ensures TerminalShape(Erase(op))
  {
    if op.stage.Terminal() {
      EraseKeepsAccounting(op);
      EraseKeepsObstacle(op);
      EraseKeepsResult(op, ResidualValue(op).value);
      assert LastRetryable(Erase(op)) == LastRetryable(op);
    }
  }

  lemma EraseKeepsOwned(op: TradeOperation)
    ensures OwnedCommands(Erase(op)) == OwnedCommands(op)
  {
    assert RecoveryPart(Erase(op)) == RecoveryPart(op);
  }

  lemma EraseKeepsDispatchShape(op: TradeOperation)
    requires DispatchShape(op)
    ensures DispatchShape(Erase(op))
  {
  }

  lemma EraseKeepsHaltShape(op: TradeOperation)
    requires HaltShape(op)
    ensures HaltShape(Erase(op))
  {
  }

  lemma EraseKeepsLifecycle(op: TradeOperation)
    requires InLifecycle(op)
    ensures InLifecycle(Erase(op)) && OwnedCommands(Erase(op)) == OwnedCommands(op)
  {
    EraseKeepsValidity(op);
    EraseKeepsUnknown(op);
    EraseKeepsDispatchShape(op);
    EraseKeepsRecoveryShape(op);
    EraseKeepsHaltShape(op);
    EraseKeepsTerminalShape(op);
    EraseKeepsOwned(op);
  }

  // A leg that was dispatched and has no result, or a recovery in flight.
  predicate AwaitsLeg(op: TradeOperation) {
    || (op.dexDispatched && op.dexResult.None?)
    || (op.cexDispatched && op.cexResult.None?)
    || op.recoveryInflight
  }

  // Which owned command waits for its result: the DEX leg before the CEX leg before the recovery.
  function PendingIndex(op: TradeOperation): nat {
    if op.dexDispatched && op.dexResult.None? then 0
    else if op.cexDispatched && op.cexResult.None? then 1
    else if op.recoveryInflight then 2 + |op.recoveryResults|
    else 0
  }

  lemma PendingIsOwned(op: TradeOperation)
    requires InLifecycle(op) && AwaitsLeg(op)
    ensures PendingIndex(op) < |OwnedCommands(op)|
    ensures var c := OwnedCommands(op)[PendingIndex(op)];
            if op.dexDispatched && op.dexResult.None? then c == DexCommand(op.intent, false)
            else if op.cexDispatched && op.cexResult.None? then c == PrimaryCexCommand(op)
            else op.recoveryTarget.Some? && c == RecoverCex(|op.recoveryResults| + 1, op.recoveryTarget.value)
  {
    if op.dexDispatched && op.dexResult.None? {
      assert OwnedCommands(op)[0] == DexPart(op)[0];
    } else if op.cexDispatched && op.cexResult.None? {
      assert OwnedCommands(op)[1] == CexPart(op)[0];
    } else {
      assert OwnedCommands(op)[2 + |op.recoveryResults|] == RecoveryPart(op)[|op.recoveryResults|];
    }
  }

  predicate PlanExpired(i: TradeIntent, clock: U64) {
    i.dexPlan.Some? && 1000 * i.dexPlan.value.deadlineUnixSeconds <= clock
  }

  /** After a restart a command is rebuilt if and only if a dispatched leg has no result. It is the owned
      command of that leg, exactly; only a DEX dispatch is marked for reconciliation, once its plan expired. */
  lemma ResumeRebuildsOwned(op: TradeOperation, clock: U64)
    requires InLifecycle(op)
    ensures ResumeCommand(op, Some(clock)).Ok?
    ensures ResumeCommand(op, Some(clock)).value.Some? <==> AwaitsLeg(op)
    ensures AwaitsLeg(op) ==>
              && PendingIndex(op) < |OwnedCommands(op)|
              && var owned := OwnedCommands(op)[PendingIndex(op)];
              ResumeCommand(op, Some(clock)).value.value
              == if owned.DispatchDex? then owned.(reconciliationOnly := PlanExpired(op.intent, clock)) else owned
  {
    if AwaitsLeg(op) { PendingIsOwned(op); }
  }

  // Without a clock only the DEX leg cannot be rebuilt, because its plan may have expired.
  lemma ResumeWithoutClock(op: TradeOperation)
    ensures op.dexDispatched && op.dexResult.None? ==> ResumeCommand(op, None) == Err(ClockUnavailable)
    ensures !(op.dexDispatched && op.dexResult.None?) ==> ResumeCommand(op, None) == ResumeCommand(op, Some(0))
  {
  }

  /** A recovery in flight of a record that has no target, as old journals have them, is rebuilt from what the
      legs leave open. */
  lemma LegacyRecoveryIsRebuilt(op: TradeOperation, clock: Option<U64>)
    requires op.dexResult.Some? && (op.cexDispatched ==> op.cexResult.Some?)
    requires op.recoveryInflight && op.recoveryTarget.None? && TokenBResidual(op) > -TWO_127
    ensures ResumeCommand(op, clock)
         == Ok(Some(RecoverCex(|op.recoveryResults| + 1,
                               if Abs(TokenBResidual(op)) < op.intent.tokenBStep then 0 else 0 - TokenBResidual(op))))
  {
  }

  predicate RecoveryUnknown(op: TradeOperation) {
    op.recoveryResults != [] && op.recoveryResults[|op.recoveryResults| - 1].status.Unknown?
  }

  /** An unknown outcome that awaits reconciliation has a reconciliation command for each unknown leg, and
      nothing else has one: the owned command of that leg, the DEX one for reconciliation only. */
  lemma ReconciliationRebuildsOwned(op: TradeOperation)
    requires InLifecycle(op)
    ensures UnknownDexCommand(op).Some? <==> op.stage.UnknownExposure? && IsUnknown(op.dexResult)
    ensures UnknownDexCommand(op).Some? ==>
              && 0 < |OwnedCommands(op)| && OwnedCommands(op)[0].DispatchDex?
              && UnknownDexCommand(op).value == OwnedCommands(op)[0].(reconciliationOnly := true)
    ensures UnknownBinanceCommand(op).Ok?
    ensures UnknownBinanceCommand(op).value.Some? <==>
              op.stage.UnknownExposure? && (IsUnknown(op.cexResult) || RecoveryUnknown(op))
    ensures UnknownBinanceCommand(op).value.Some? ==>
              var k := if IsUnknown(op.cexResult) then 1 else 1 + |op.recoveryResults|;
              k < |OwnedCommands(op)| && UnknownBinanceCommand(op).value.value == OwnedCommands(op)[k]
  {
    if op.stage.UnknownExposure? {
      assert OwnedCommands(op)[0] == DexPart(op)[0];
      if IsUnknown(op.cexResult) {
        assert OwnedCommands(op)[1] == CexPart(op)[0];
      } else if RecoveryUnknown(op) {
        assert OwnedCommands(op)[1 + |op.recoveryResults|] == RecoveryPart(op)[|op.recoveryResults| - 1];
      }
    }
  }
}
