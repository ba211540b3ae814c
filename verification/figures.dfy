/** What a closed trade reports, figure by figure. */
module Figures {
  import opened Machine
  import opened Trade
  import opened Accounting
  import opened Journal
  import opened Lifecycle
  import opened Runs
  import opened Answers

  // What a report of these legs is: exact sums as long as they stay inside their machine words.
  ghost predicate IsReport(op: TradeOperation, r: ArbitrageResult) {
    && r.comparableProfit == r.realizedProfit + r.residualValue
    && (r.outcome.ProfitOutcome? <==> r.comparableProfit >= 0)
    && r.expectedProfit == op.intent.expectedProceeds - op.intent.expectedCost
    && IsMark(op.intent, r.tokenBResidual, r.residualValue)
    && (Unsaturated(Legs(op)) ==>
          var sums := LegSums(Legs(op));
          && r.tokenBResidual == sums.tokenB && r.gasCost == sums.gas
          && r.realizedProfit == Clamp(sums.tokenA - sums.gas))
    && (Unsaturated(op.recoveryResults) ==>
          r.recoveryLoss == Clamp(if LegSums(op.recoveryResults).tokenA < 0
                                  then 0 - LegSums(op.recoveryResults).tokenA else 0))
  }

  /** Closing changes nothing but the stage and the result. The result is the exact account of the trade: token A
      gained minus gas, the left-over token B and its value at the quote of its side, the token A the recoveries
      cost; the trade is a profit exactly when the comparable sum is not negative. */
  lemma ClosingReports(op: TradeOperation)
    requires ValidIntent(op.intent) && FinalizeBalanced(op).Ok?
    ensures var closed := FinalizeBalanced(op).value;
            && closed.result.Some? && IsReport(op, closed.result.value)
            && var profit := closed.result.value.comparableProfit >= 0;
            closed == op.(stage := if profit then BalancedProfit else BalancedLoss, result := closed.result)
  {
    MarkIsAtItsQuote(op);
    if Unsaturated(Legs(op)) { TotalsAreExact(Legs(op)); }
    if Unsaturated(op.recoveryResults) { TotalsAreExact(op.recoveryResults); }
  }

  // The position the legs leave can be valued, and the value fits next to the profit.
  predicate Valued(op: TradeOperation) {
    ResidualValue(op).Ok? && FitsI128(RealizedProfit(op) + ResidualValue(op).value)
  }

  /** A trade whose dispatched legs are all in closes if and only if a failed DEX leg proves that nothing moved
      and the left-over position can be valued; a trade that waits for a leg never closes. */
  lemma ClosesExactly(op: TradeOperation)
    requires op.dexDispatched
    ensures FinalizeBalanced(op).Ok? <==>
              && AllIn(op) && (op.dexResult.value.status.Failed? ==> ProvesZeroExposure(op.dexResult.value))
              && Valued(op)
  {
    UnknownIsSeen(op);
  }

  /** The loss a trade counts for is what its comparable profit is below zero, so exactly the trades closed as a
      loss count; its notional is the expected cost. */
  lemma LossIsReported(op: TradeOperation)
    requires InLifecycle(op)
    ensures LossOf(op) == if op.result.Some? && op.result.value.comparableProfit < 0
                          then 0 - op.result.value.comparableProfit else 0
    ensures LossOf(op) > 0 <==> op.stage.BalancedLoss?
    ensures AdmittedNotional(op) == op.intent.expectedCost
  {
  }

  /** Every trade any run has closed reports exactly its own legs. */
  lemma ClosedTradesReport(events: seq<Event>, plan: string)
    requires plan in Run(events).journal.operations && Run(events).journal.operations[plan].stage.Terminal()
    ensures var op := Run(events).journal.operations[plan];
            && op.result.Some? && IsReport(op, op.result.value)
            && (op.stage.BalancedProfit? <==> op.result.value.comparableProfit >= 0)
  {
    InvariantHolds(events);
    var op := Run(events).journal.operations[plan];
    assert InLifecycle(op);
    assert FinalizeBalanced(op).Ok? && FinalizeBalanced(op).value.result == op.result;
    ClosingReports(op);
  }
}
