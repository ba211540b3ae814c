/** The durable parent-trade record: its fields, its field validation, the accounting folds over
    its legs, and the close-out that turns a finished record into a balanced result. */
module Trade {
  import opened Machine

  const MAX_RECOVERY_ATTEMPTS: nat := 3
  const RECOVERY_RETRY_BASE_DELAY_MS: nat := 250

  datatype ExecutionMode = DexFirst | ConcurrentHedged

  datatype Direction = BuyOnDexSellOnCex | BuyOnCexSellOnDex

  datatype JournalScope = JournalScope(
    schemaVersion: nat, accountId: string, networkId: string, chainId: U64,
    walletId: string, strategyId: string, symbol: string)

  datatype AdmissionBounds = AdmissionBounds(
    thresholdMet: bool, thresholdBps: nat, depthSource: Option<string>,
    topMatches: Option<bool>, topMismatchReason: Option<string>, slippageBps: nat,
    primaryLimitPrice: real, primaryTopQuantity: real, recoveryLimitPrice: real,
    recoverySellLimitPrice: Option<real>, recoveryBuyLimitPrice: Option<real>,
    recoveryQuote: U128, recoverySellQuote: U128, recoveryBuyQuote: U128, gasConversionPrice: real)

  datatype DexPlan = DexPlan(
    tokenIn: string, tokenOut: string, amountIn: U128, amountOutMinimum: U128, deadlineUnixSeconds: U64)

  datatype TradeIntent = TradeIntent(
    planId: string, sourceRevision: string, pairId: string, scope: Option<JournalScope>,
    mode: ExecutionMode, direction: Direction, plannedTokenB: I128, tokenBStep: I128,
    expectedCost: I128, expectedProceeds: I128, dexOperationId: string, cexClientOrderId: string,
    admission: Option<AdmissionBounds>, dexPlan: Option<DexPlan>, receivedUs: U64)

  datatype LegRole = Dex | Cex | RecoveryCex

  datatype LegStatus = Filled | Failed | Unknown

  datatype FeeProof = FeeProof(id: int)

  datatype ChainLog = ChainLog(id: int)

  /** `settlementFee` and `settlementLog` live only in memory: the journal does not serialize them. */
  datatype LegResult = LegResult(
    status: LegStatus, executedTokenB: Option<I128>, tokenB: I128, tokenA: I128,
    thirdAssetDeltas: map<string, real>, thirdAssetPrices: map<string, real>,
    gasCost: U128, venueReference: string,
    settlementFee: Option<FeeProof>, settlementLog: Option<ChainLog>)

  datatype Outcome = ProfitOutcome | LossOutcome

  datatype ArbitrageResult = ArbitrageResult(
    expectedProfit: I128, realizedProfit: I128, residualValue: I128, comparableProfit: I128,
    tokenBResidual: I128, gasCost: U128, recoveryLoss: I128, outcome: Outcome)

  datatype Stage =
    | Prepared | Executing | Recovering | BalancedProfit | BalancedLoss | UnknownExposure | Halted
  {
    predicate Terminal() { BalancedProfit? || BalancedLoss? }
    predicate Unresolved() { UnknownExposure? || Halted? }
    predicate InFlight() { Prepared? || Executing? || Recovering? }
  }

  datatype OperatorEvidence = OperatorEvidence(
    actor: string, recoveredAt: U64, dexTransactionHash: string,
    binanceOrderId: U64, binanceClientOrderId: string)

  datatype TradeOperation = TradeOperation(
    intent: TradeIntent, stage: Stage, dexDispatched: bool, cexDispatched: bool,
    cexLimitPrice: Option<real>, dexResult: Option<LegResult>, cexResult: Option<LegResult>,
    recoveryResults: seq<LegResult>, recoveryInflight: bool, recoveryTarget: Option<I128>,
    retryNotBefore: Option<U64>, result: Option<ArbitrageResult>, blockingReason: Option<string>,
    operatorRecovery: Option<OperatorEvidence>)

  datatype TradeError =
    | UnknownPlan | PlanExists | InvalidIntent | ThresholdNotMet | AnotherTradeExecuting
    | InvalidLeg | TradeIsTerminal | LegNotDispatched | LegAlreadyRecorded
    | NotAwaitingReconciliation | ReconciliationNotTerminal | LegNotUnknown | DexFailureUnproven
    | PriceNotPositive | PriceSelectionRefused | PriceChanged
    | MissingDeadline | MissingTarget | MissingDexResult | DeadlineOverflow | ClockUnavailable
    | UnfinishedLeg | ResidualMarkOverflow | ComparableOverflow
    | OperatorRecoveryRefused
    | JournalPoisoned | InvalidOperation | TransitionRefused | ActiveCountUnderflow
    | RecordTooLarge | WriteFailed | SequenceOverflow | SequenceMismatch | TornJournal
    | ZeroPaperQuantity | PaperScalingOverflow | RiskOverflow

  // ---------------------------------------------------------------- field validation

  predicate ValidScope(s: JournalScope) {
    && s.schemaVersion == 2
    && ValidId(s.accountId, 96) && ValidId(s.networkId, 96) && s.chainId > 0
    && ValidId(s.walletId, 128) && ValidId(s.strategyId, 96) && ValidId(s.symbol, 24)
  }

  predicate ValidAdmission(a: AdmissionBounds) {
    && (a.depthSource.Some? ==>
          a.depthSource.value in ["sequence_matched_full_depth", "recent_full_depth", "top_of_book_only"])
    && (a.topMatches == Some(true) ==> a.topMismatchReason.None?)
    && a.slippageBps <= 10_000 && a.thresholdBps <= 10_000
    && a.primaryLimitPrice > 0.0 && a.primaryTopQuantity >= 0.0 && a.recoveryLimitPrice > 0.0
    && (a.recoverySellLimitPrice.Some? ==> a.recoverySellLimitPrice.value > 0.0)
    && (a.recoveryBuyLimitPrice.Some? ==> a.recoveryBuyLimitPrice.value > 0.0)
    && a.recoveryQuote > 0 && a.gasConversionPrice >= 0.0
  }

  predicate ValidDexPlan(p: DexPlan) {
    p.amountIn > 0 && p.amountOutMinimum > 0 && p.deadlineUnixSeconds > 0 && p.tokenIn != p.tokenOut
  }

  predicate ValidIntent(i: TradeIntent) {
    && ValidId(i.planId, 96) && ValidId(i.sourceRevision, 96) && ValidId(i.pairId, 96)
    && (i.scope.Some? ==> ValidScope(i.scope.value))
    && ValidId(i.dexOperationId, 120) && ValidId(i.cexClientOrderId, 36)
    && i.plannedTokenB > 0
    && i.tokenBStep >= (if i.admission.Some? then 1 else 0)
    && i.expectedCost > 0 && i.expectedProceeds > 0
    && (i.admission.Some? ==> ValidAdmission(i.admission.value))
    && (i.dexPlan.Some? ==> ValidDexPlan(i.dexPlan.value))
  }

  predicate ValidLeg(r: LegResult) {
    && ValidId(r.venueReference, 128)
    && (r.status.Failed? ==>
          && r.tokenB == 0 && r.tokenA == 0 && r.thirdAssetDeltas == map[]
          && (r.executedTokenB.Some? ==> r.executedTokenB.value == 0))
    && r.thirdAssetPrices.Keys <= r.thirdAssetDeltas.Keys
    && ((r.settlementFee.None? && r.settlementLog.None?) || r.status.Filled?)
    && (r.settlementFee.None? || r.settlementLog.Some?)
  }

  predicate HexDigit(c: char) { '0' <= c <= '9' || 'a' <= c <= 'f' || 'A' <= c <= 'F' }

  predicate ValidEvidence(e: OperatorEvidence) {
    && ValidId(e.actor, 96) && e.recoveredAt > 0
    && |e.dexTransactionHash| == 66 && StartsWith(e.dexTransactionHash, "0x")
    && (forall i | 2 <= i < |e.dexTransactionHash| :: HexDigit(e.dexTransactionHash[i]))
    && e.binanceOrderId > 0
    && ValidId(e.binanceClientOrderId, 36)
  }

  function RecoveryClientOrderId(primary: string, attempt: nat): Option<string> {
    var suffix := "r" + Decimal(attempt);
    if 0 < attempt <= 9 && StartsWith(primary, "rustarb") && |primary| + |suffix| <= 36
    then Some(primary + suffix) else None
  }

  predicate DeterministicRecoveryId(primary: string, id: string) {
    || RecoveryClientOrderId(primary, 1) == Some(id)
    || RecoveryClientOrderId(primary, 2) == Some(id)
    || RecoveryClientOrderId(primary, 3) == Some(id)
  }

  // ---------------------------------------------------------------- outcome classification

  predicate RetryableFailure(r: LegResult) {
    && r.status.Failed?
    && (|| r.venueReference == "cex:market-unsubmitted" || r.venueReference == "cex:market-rejected"
        || StartsWith(r.venueReference, "cex:market-zero-fill:"))
  }

  predicate ProvesZeroExposure(r: LegResult) {
    && r.status.Failed?
    && (r.venueReference == "dex:unsubmitted" || EndsWith(r.venueReference, ":reverted"))
  }

  predicate IsUnknown(o: Option<LegResult>) { o.Some? && o.value.status.Unknown? }

  predicate HasUnknownLeg(op: TradeOperation) {
    || IsUnknown(op.dexResult) || IsUnknown(op.cexResult)
    || exists i | 0 <= i < |op.recoveryResults| :: op.recoveryResults[i].status.Unknown?
  }

  // ---------------------------------------------------------------- accounting folds

  function Legs(op: TradeOperation): seq<LegResult> {
    OptionSeq(op.dexResult) + OptionSeq(op.cexResult) + op.recoveryResults
  }

  function TokenBTotal(legs: seq<LegResult>): I128 {
    if legs == [] then 0 else SatAdd(TokenBTotal(legs[..|legs| - 1]), legs[|legs| - 1].tokenB)
  }

  function TokenATotal(legs: seq<LegResult>): I128 {
    if legs == [] then 0 else SatAdd(TokenATotal(legs[..|legs| - 1]), legs[|legs| - 1].tokenA)
  }

  function GasTotal(legs: seq<LegResult>): U128 {
    if legs == [] then 0 else SatAddU128(GasTotal(legs[..|legs| - 1]), legs[|legs| - 1].gasCost)
  }

  function TokenBResidual(op: TradeOperation): I128 { TokenBTotal(Legs(op)) }

  function ExpectedProfit(i: TradeIntent): I128 { SatSub(i.expectedProceeds, i.expectedCost) }

  function RealizedProfit(op: TradeOperation): I128 {
    SatSub(TokenATotal(Legs(op)), Clamp(GasTotal(Legs(op))))
  }

  function DexTokenBDelta(d: Direction, amount: I128): I128 {
    match d case BuyOnDexSellOnCex => amount case BuyOnCexSellOnDex => WrapNeg(amount)
  }

  // The one hedge quantity a trade may recover: what the primary venue fill left open of the DEX fill.
  function PrimaryRecoveryTarget(op: TradeOperation): Option<I128> {
    if op.dexResult.None? || op.cexResult.None? then None else
      var cex := op.cexResult.value;
      var executed := if cex.executedTokenB.Some? then cex.executedTokenB.value else cex.tokenB;
      var target := SatSub(SatNeg(op.dexResult.value.tokenB), executed);
      if op.intent.tokenBStep > 0 && Abs(target) < op.intent.tokenBStep then Some(0) else Some(target)
  }

  function ActionableResidual(op: TradeOperation): I128 {
    var residual := TokenBResidual(op);
    if op.intent.tokenBStep > 0 && Abs(residual) < op.intent.tokenBStep then 0 else residual
  }

  predicate RecoveryDirectionValid(d: Direction, target: I128) {
    match d case BuyOnDexSellOnCex => target < 0 case BuyOnCexSellOnDex => target > 0
  }

  // ---------------------------------------------------------------- close-out

  function RecoveryQuote(a: AdmissionBounds, residual: I128): U128 {
    if residual > 0 then
      if a.recoverySellQuote > 0 then a.recoverySellQuote else a.recoveryQuote
    else if a.recoveryBuyQuote > 0 then a.recoveryBuyQuote
    else a.recoveryQuote
  }

  function MarkMagnitude(amount: nat, quote: nat, planned: nat, roundUp: bool): nat
    requires planned > 0
  {
    amount * quote / planned + if roundUp && amount * quote % planned != 0 then 1 else 0
  }

  // Token-A mark of a left-over token-B position: assets rounded down, liabilities rounded up.
  function ResidualMark(residual: I128, quote: U128, planned: nat): Result<I128, TradeError> {
    if planned == 0 || quote == 0 || Abs(residual) * quote >= TWO_256 then Err(ResidualMarkOverflow) else
      var magnitude: int := MarkMagnitude(Abs(residual), quote, planned, residual < 0);
      if magnitude >= TWO_127 then Err(ResidualMarkOverflow)
      else Ok(if residual > 0 then magnitude else -magnitude)
  }

  function ResidualValue(op: TradeOperation): Result<I128, TradeError> {
    var residual := TokenBResidual(op);
    if residual == 0 || op.intent.admission.None? then Ok(0)
    else ResidualMark(residual, RecoveryQuote(op.intent.admission.value, residual), Abs(op.intent.plannedTokenB))
  }

  // Why a record may not be closed as balanced.
  function CloseOutObstacle(op: TradeOperation): Option<TradeError> {
    if HasUnknownLeg(op) then Some(UnfinishedLeg)
    else if op.dexDispatched && op.dexResult.None? then Some(UnfinishedLeg)
    else if op.cexDispatched && op.cexResult.None? then Some(UnfinishedLeg)
    else if op.recoveryInflight then Some(UnfinishedLeg)
    else if op.dexResult.Some? && op.dexResult.value.status.Failed? && !ProvesZeroExposure(op.dexResult.value)
    then Some(DexFailureUnproven)
    else None
  }

  function BalancedResult(op: TradeOperation, residualValue: I128): ArbitrageResult
    requires FitsI128(RealizedProfit(op) + residualValue)
  {
    var comparable := RealizedProfit(op) + residualValue;
    var recoveryTokenA := TokenATotal(op.recoveryResults);
    ArbitrageResult(
      ExpectedProfit(op.intent), RealizedProfit(op), residualValue, comparable, TokenBResidual(op),
      GasTotal(Legs(op)), SatNeg(if recoveryTokenA < 0 then recoveryTokenA else 0),
      if comparable >= 0 then ProfitOutcome else LossOutcome)
  }

  function OutcomeStage(o: Outcome): Stage {
    match o case ProfitOutcome => BalancedProfit case LossOutcome => BalancedLoss
  }

  function FinalizeBalanced(op: TradeOperation): Result<TradeOperation, TradeError> {
    if CloseOutObstacle(op).Some? then Err(CloseOutObstacle(op).value) else
      var mark := ResidualValue(op);
      if mark.Err? then Err(mark.error)
      else if !FitsI128(RealizedProfit(op) + mark.value) then Err(ComparableOverflow)
      else
        var result := BalancedResult(op, mark.value);
        Ok(op.(stage := OutcomeStage(result.outcome), result := Some(result)))
  }

  function PreparedOperation(i: TradeIntent): TradeOperation {
    TradeOperation(i, Prepared, false, false, None, None, None, [], false, None, None, None, None, None)
  }

  // ---------------------------------------------------------------- whole-record validation

  predicate DeadlineMatches(op: TradeOperation) {
    op.retryNotBefore.Some? ==>
      && op.stage.Recovering? && !op.recoveryInflight && op.result.None?
      && 0 < |op.recoveryResults| < MAX_RECOVERY_ATTEMPTS
      && RetryableFailure(op.recoveryResults[|op.recoveryResults| - 1])
  }

  predicate LegsValid(op: TradeOperation) {
    && (op.dexResult.Some? ==> ValidLeg(op.dexResult.value))
    && (op.cexResult.Some? ==> ValidLeg(op.cexResult.value))
    && forall i | 0 <= i < |op.recoveryResults| :: ValidLeg(op.recoveryResults[i])
  }

  predicate EvidenceMatches(op: TradeOperation) {
    op.operatorRecovery.Some? ==>
      var e := op.operatorRecovery.value;
      && ValidEvidence(e)
      && op.dexResult.Some? && op.stage.Terminal() && op.result.Some?
      && |op.recoveryResults| == 1 && TokenBResidual(op) == 0
      && op.dexResult.value.status.Filled?
      && op.dexResult.value.venueReference == "dex:" + e.dexTransactionHash
      && op.recoveryResults[0].status.Filled?
      && op.recoveryResults[0].venueReference == "cex:" + Decimal(e.binanceOrderId)
      && op.recoveryResults[0].tokenB == SatNeg(op.dexResult.value.tokenB)
      && DeterministicRecoveryId(op.intent.cexClientOrderId, e.binanceClientOrderId)
  }

  predicate ValidOperation(op: TradeOperation) {
    && ValidIntent(op.intent)
    && |op.recoveryResults| <= MAX_RECOVERY_ATTEMPTS
    && DeadlineMatches(op)
    && LegsValid(op)
    && (op.result.Some? <==> op.stage.Terminal())
    && (op.blockingReason.Some? ==> ValidId(op.blockingReason.value, 256))
    && EvidenceMatches(op)
  }

  // ---------------------------------------------------------------- what serialization forgets

  function EraseLeg(r: LegResult): LegResult { r.(settlementFee := None, settlementLog := None) }

  function EraseOption(o: Option<LegResult>): Option<LegResult> {
    if o.Some? then Some(EraseLeg(o.value)) else None
  }

  function EraseSeq(rs: seq<LegResult>): (es: seq<LegResult>)
    ensures |es| == |rs|
    ensures forall i | 0 <= i < |rs| :: es[i] == EraseLeg(rs[i])
  {
    seq(|rs|, i requires 0 <= i < |rs| => EraseLeg(rs[i]))
  }

  function Erase(op: TradeOperation): TradeOperation {
    op.(dexResult := EraseOption(op.dexResult), cexResult := EraseOption(op.cexResult),
    recoveryResults := EraseSeq(op.recoveryResults))
  }

  /** Reading back loses the two settlement fields and nothing else: two legs look the same afterwards if and only
      if they agree on every other field. */
  lemma EraseForgetsExactly(a: LegResult, b: LegResult)
    ensures EraseLeg(a) == EraseLeg(b) <==>
              && a.status == b.status && a.executedTokenB == b.executedTokenB
              && a.tokenB == b.tokenB && a.tokenA == b.tokenA
              && a.thirdAssetDeltas == b.thirdAssetDeltas && a.thirdAssetPrices == b.thirdAssetPrices
              && a.gasCost == b.gasCost && a.venueReference == b.venueReference
  {
  }

  lemma {:induction false} EraseKeepsTotals(legs: seq<LegResult>)
    ensures TokenBTotal(EraseSeq(legs)) == TokenBTotal(legs)
    ensures TokenATotal(EraseSeq(legs)) == TokenATotal(legs)
    ensures GasTotal(EraseSeq(legs)) == GasTotal(legs)
  {
    if legs != [] {
      EraseKeepsTotals(legs[..|legs| - 1]);
      assert EraseSeq(legs)[..|legs| - 1] == EraseSeq(legs[..|legs| - 1]);
    }
  }

  lemma EraseKeepsLegs(op: TradeOperation)
    ensures Legs(Erase(op)) == EraseSeq(Legs(op))
  {
  }

  lemma EraseKeepsAccounting(op: TradeOperation)
    ensures TokenBResidual(Erase(op)) == TokenBResidual(op)
    ensures RealizedProfit(Erase(op)) == RealizedProfit(op)
    ensures GasTotal(Legs(Erase(op))) == GasTotal(Legs(op))
    ensures TokenATotal(Erase(op).recoveryResults) == TokenATotal(op.recoveryResults)
    ensures ResidualValue(Erase(op)) == ResidualValue(op)
    ensures PrimaryRecoveryTarget(Erase(op)) == PrimaryRecoveryTarget(op)
  {
    EraseKeepsLegs(op);
    EraseKeepsTotals(Legs(op));
    EraseKeepsTotals(op.recoveryResults);
  }

  lemma EraseKeepsUnknown(op: TradeOperation)
    ensures HasUnknownLeg(Erase(op)) == HasUnknownLeg(op)
  {
  }

  lemma EraseKeepsLegValidity(op: TradeOperation)
    requires LegsValid(op)
    ensures LegsValid(Erase(op))
  {
  }

  lemma EraseKeepsEvidence(op: TradeOperation)
    requires EvidenceMatches(op)
    ensures EvidenceMatches(Erase(op))
  {
    EraseKeepsAccounting(op);
  }

  // A record that passed validation in memory still passes it when read back.
  lemma EraseKeepsValidity(op: TradeOperation)
    requires ValidOperation(op)
    ensures ValidOperation(Erase(op))
  {
    EraseKeepsLegValidity(op);
    EraseKeepsEvidence(op);
  }

  lemma EraseIsIdempotent(op: TradeOperation)
    ensures Erase(Erase(op)) == Erase(op)
  {
  }
}
