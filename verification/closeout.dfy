/** What a balanced stage means, and what it does not. */
module CloseOutLaws {
  import opened Machine
  import opened Trade
  import opened Journal
  import opened Coordinator
  import opened Lifecycle
  import opened Runs
  import opened Answers
  import Paper
  import InFlight

  /** Every terminal operation of every run has all dispatched legs answered, none unknown, a DEX failure
      only when it proves zero exposure, attempts left only if the last one is not retryable, and a result
      computed from exactly its own legs. */
  lemma TerminalIsSound(events: seq<Event>, plan: string)
    requires plan in Run(events).journal.operations && Run(events).journal.operations[plan].stage.Terminal()
    ensures var op := Run(events).journal.operations[plan];
            && op.dexDispatched && Known(op.dexResult)
            && (op.cexDispatched ==> Known(op.cexResult)) && !op.recoveryInflight
            && (forall k | 0 <= k < |op.recoveryResults| :: !op.recoveryResults[k].status.Unknown?)
            && (op.dexResult.value.status.Failed? ==> ProvesZeroExposure(op.dexResult.value))
            && (LastRetryable(op) ==> |op.recoveryResults| == MAX_RECOVERY_ATTEMPTS)
            && op.result.Some?
            && op.result.value.realizedProfit == RealizedProfit(op)
            && op.result.value.tokenBResidual == TokenBResidual(op)
            && op.result.value.comparableProfit == op.result.value.realizedProfit + op.result.value.residualValue
            && (op.stage.BalancedProfit? <==> op.result.value.comparableProfit >= 0)
  {
    InvariantHolds(events);
    assert InLifecycle(Run(events).journal.operations[plan]);
  }

  // ---------------------------------------------------------------- residual of a closed trade

  // What the venue kept of the executed quantity: a commission charged in token B.
  function Withheld(leg: LegResult): int { leg.tokenB - ExecutedQuantity(leg) }

  // No intermediate sum left the 128-bit range.
  predicate NoSaturation(op: TradeOperation)
    requires op.dexResult.Some? && op.cexResult.Some?
  {
    var dex, cex := op.dexResult.value.tokenB, op.cexResult.value;
    && FitsI128(0 - dex) && FitsI128(0 - dex - ExecutedQuantity(cex)) && FitsI128(dex + cex.tokenB)
    && (op.recoveryResults != [] ==>
          FitsI128(dex + cex.tokenB + op.recoveryResults[|op.recoveryResults| - 1].tokenB))
  }

  lemma {:induction false} ZeroLegsAddNothing(base: seq<LegResult>, zeros: seq<LegResult>)
    requires forall k | 0 <= k < |zeros| :: zeros[k].tokenB == 0
    ensures TokenBTotal(base + zeros) == TokenBTotal(base)
  {
    if zeros == [] {
      assert base + zeros == base;
    } else {
      ZeroLegsAddNothing(base, zeros[..|zeros| - 1]);
      assert (base + zeros)[..|base + zeros| - 1] == base + zeros[..|zeros| - 1];
    }
  }

  lemma TotalOneMore(legs: seq<LegResult>, leg: LegResult)
    ensures TokenBTotal(legs + [leg]) == SatAdd(TokenBTotal(legs), leg.tokenB)
  {
    assert (legs + [leg])[..|legs|] == legs;
  }

  lemma LastApart(primary: seq<LegResult>, rs: seq<LegResult>)
    requires rs != []
    ensures primary + rs == primary + rs[..|rs| - 1] + [rs[|rs| - 1]]
  {
  }

  lemma TotalOfRecovered(primary: seq<LegResult>, rs: seq<LegResult>)
    requires rs != [] && forall k | 0 <= k < |rs| - 1 :: rs[k].tokenB == 0
    ensures TokenBTotal(primary + rs) == SatAdd(TokenBTotal(primary), rs[|rs| - 1].tokenB)
  {
    ZeroLegsAddNothing(primary, rs[..|rs| - 1]);
    LastApart(primary, rs);
    TotalOneMore(primary + rs[..|rs| - 1], rs[|rs| - 1]);
  }

  // Failed attempts move nothing, so the residual is the primary mismatch plus the last attempt.
  lemma ResidualIsPrimaryPlusLast(op: TradeOperation)
    requires op.dexResult.Some? && op.cexResult.Some? && NoSaturation(op)
    requires RetryChain(op.recoveryResults)
    requires forall k | 0 <= k < |op.recoveryResults| :: ValidLeg(op.recoveryResults[k])
    ensures TokenBResidual(op) == op.dexResult.value.tokenB + op.cexResult.value.tokenB
            + if op.recoveryResults == [] then 0 else op.recoveryResults[|op.recoveryResults| - 1].tokenB
  {
    var dex, cex, rs := op.dexResult.value, op.cexResult.value, op.recoveryResults;
    Paper.TwoLegTotals(dex, cex);
    assert Legs(op) == [dex, cex] + rs;
    if rs == [] {
      assert [dex, cex] + rs == [dex, cex];
    } else {
      TotalOfRecovered([dex, cex], rs);
    }
  }

  predicate ClosedHedged(operations: Operations, plan: string) {
    && plan in operations && operations[plan].stage.Terminal()
    && operations[plan].dexResult.Some? && operations[plan].cexResult.Some? && NoSaturation(operations[plan])
  }

  lemma TradeIsInLifecycle(events: seq<Event>, plan: string)
    requires plan in Run(events).journal.operations
    ensures InLifecycle(Run(events).journal.operations[plan])
  {
    InvariantHolds(events);
  }

  lemma MismatchWithoutRecovery(op: TradeOperation)
    requires InLifecycle(op) && op.stage.Terminal() && op.recoveryResults == []
    requires op.dexResult.Some? && op.cexResult.Some? && NoSaturation(op)
    ensures var mismatch := TokenBResidual(op) - Withheld(op.cexResult.value);
            mismatch == 0 || Abs(mismatch) < op.intent.tokenBStep
  {
    ResidualIsPrimaryPlusLast(op);
  }

  /** A hedged trade closed without recovery leaves less than one venue step, apart from a commission the
      venue charged in token B. */
  lemma ClosedWithoutRecovery(events: seq<Event>, plan: string)
    requires ClosedHedged(Run(events).journal.operations, plan)
    requires Run(events).journal.operations[plan].recoveryResults == []
    ensures var op := Run(events).journal.operations[plan];
            var mismatch := TokenBResidual(op) - Withheld(op.cexResult.value);
            mismatch == 0 || Abs(mismatch) < op.intent.tokenBStep
  {
    TradeIsInLifecycle(events, plan);
    MismatchWithoutRecovery(Run(events).journal.operations[plan]);
  }

  /** A trade closed after recovery leaves exactly what its last attempt missed of the immutable target and
      what the venue withheld: a balanced stage means a zero residual if and only if those cancel. */
  lemma ClosedAfterRecovery(events: seq<Event>, plan: string)
    requires ClosedHedged(Run(events).journal.operations, plan)
    requires Run(events).journal.operations[plan].recoveryResults != []
    ensures var op := Run(events).journal.operations[plan];
            && op.recoveryTarget.Some?
            && var filled := op.recoveryResults[|op.recoveryResults| - 1].tokenB + Withheld(op.cexResult.value);
            && TokenBResidual(op) == filled - op.recoveryTarget.value
            && (TokenBResidual(op) == 0 <==> filled == op.recoveryTarget.value)
  {
    TradeIsInLifecycle(events, plan);
    ResidualIsPrimaryPlusLast(Run(events).journal.operations[plan]);
  }

  /** Exhausted retries close as balanced with the whole target still open. */
  lemma ExhaustedRetriesLeaveTheTarget(events: seq<Event>, plan: string)
    requires ClosedHedged(Run(events).journal.operations, plan)
    requires LastRetryable(Run(events).journal.operations[plan])
    ensures var op := Run(events).journal.operations[plan];
            && |op.recoveryResults| == MAX_RECOVERY_ATTEMPTS && op.recoveryTarget.Some? && op.recoveryTarget.value != 0
            && TokenBResidual(op) == Withheld(op.cexResult.value) - op.recoveryTarget.value
  {
    TradeIsInLifecycle(events, plan);
    ClosedAfterRecovery(events, plan);
    var op := Run(events).journal.operations[plan];
    assert ValidLeg(op.recoveryResults[|op.recoveryResults| - 1]);
  }

  // ---------------------------------------------------------------- backoff

  /** After a retryable failure recorded at `recorded`, the next attempt is handed out exactly from 250 ms on
      (500 ms after the second failure), with the next number and the same target. */
  lemma RetryWaitsOutTheDelay(op: TradeOperation, leg: LegResult, recorded: U64, now: U64)
    requires InLifecycle(op) && op.recoveryInflight && ValidLeg(leg) && RetryableFailure(leg)
    requires |op.recoveryResults| + 1 < MAX_RECOVERY_ATTEMPTS
    requires RecordDecision(op, RecoveryCex, leg, Some(recorded)).Advance?
    ensures var next := RecordDecision(op, RecoveryCex, leg, Some(recorded)).next;
            op.recoveryTarget.Some? &&
            TakeDecision(next, Some(now))
            == if now < recorded + (if op.recoveryResults == [] then 250 else 500) then Wait
               else Advance(next.(recoveryInflight := true, retryNotBefore := None),
                            [RecoverCex(|op.recoveryResults| + 2, op.recoveryTarget.value)])
  {
  }

  // ---------------------------------------------------------------- a run that closes with everything open

  const REJECTED := LegResult(Failed, None, 0, 0, map[], map[], 0, "cex:market-rejected", None, None)

  // The DEX leg filled the whole plan.
  function WholeDexLeg(i: TradeIntent): LegResult {
    LegResult(Filled, None, DexTokenBDelta(i.direction, i.plannedTokenB), 0, map[], map[], 0, "dex:filled", None, None)
  }

  function DexDone(i: TradeIntent): TradeOperation {
    PreparedOperation(i).(stage := Executing, dexDispatched := true, cexDispatched := i.mode.ConcurrentHedged?,
                          dexResult := Some(WholeDexLeg(i)))
  }

  // The hedge was rejected, and so were `n` recovery attempts.
  function Rejected(i: TradeIntent): TradeOperation {
    DexDone(i).(cexDispatched := true, cexResult := Some(REJECTED))
  }

  function Rejections(n: nat): (legs: seq<LegResult>)
    ensures |legs| == n && forall k | 0 <= k < n :: legs[k] == REJECTED
  {
    seq(n, _ => REJECTED)
  }

  function Recovering(i: TradeIntent, n: nat, inflight: bool): TradeOperation {
    Rejected(i).(stage := Stage.Recovering, recoveryTarget := Some(PlannedTarget(i)), recoveryInflight := inflight,
                 recoveryResults := Rejections(n),
                 retryNotBefore := if inflight || n == 0 || n >= MAX_RECOVERY_ATTEMPTS then None else Some(250 * n))
  }

  function PlannedTarget(i: TradeIntent): I128 { SatNeg(DexTokenBDelta(i.direction, i.plannedTokenB)) }

  // An intent at least one step large whose left-over position can be marked.
  predicate Markable(i: TradeIntent) {
    && ValidIntent(i) && i.tokenBStep <= i.plannedTokenB
    && (i.admission.Some? ==>
          && i.admission.value.thresholdMet
          && RecoveryQuote(i.admission.value, DexTokenBDelta(i.direction, i.plannedTokenB)) < TWO_127)
  }

  lemma RejectedLegIsValid()
    ensures ValidLeg(REJECTED) && RetryableFailure(REJECTED)
  {
    assert IdBytes(REJECTED.venueReference);
  }

  lemma StartsRecovering(i: TradeIntent, clock: Option<U64>)
    requires Markable(i)
    ensures TakeDecision(Rejected(i), clock) == Advance(Recovering(i, 0, true), [RecoverCex(1, PlannedTarget(i))])
  {
    assert Recovering(i, 0, true).recoveryResults == [];
  }

  lemma AttemptIsRejected(i: TradeIntent, n: nat)
    requires n < MAX_RECOVERY_ATTEMPTS
    ensures RecordDecision(Recovering(i, n, true), RecoveryCex, REJECTED, Some(0))
         == Advance(Recovering(i, n + 1, false), [])
  {
    RejectedLegIsValid();
    assert Rejections(n) + [REJECTED] == Rejections(n + 1);
  }

  lemma AttemptIsRetried(i: TradeIntent, n: nat)
    requires 0 < n < MAX_RECOVERY_ATTEMPTS
    ensures TakeDecision(Recovering(i, n, false), Some(1000))
         == Advance(Recovering(i, n, true), [RecoverCex(n + 1, PlannedTarget(i))])
  {
    RejectedLegIsValid();
    assert RetryableFailure(Recovering(i, n, false).recoveryResults[n - 1]);
  }

  lemma {:induction false} IdleLegsAddNothing(base: seq<LegResult>, n: nat)
    ensures TokenBTotal(base + Rejections(n)) == TokenBTotal(base)
    ensures TokenATotal(base + Rejections(n)) == TokenATotal(base)
    ensures GasTotal(base + Rejections(n)) == GasTotal(base)
  {
    if n == 0 {
      assert base + Rejections(0) == base;
    } else {
      IdleLegsAddNothing(base, n - 1);
      assert (base + Rejections(n))[..|base| + n - 1] == base + Rejections(n - 1);
    }
  }

  lemma RecoveringTotals(i: TradeIntent, n: nat)
    ensures var op := Recovering(i, n, false);
            TokenBResidual(op) == DexTokenBDelta(i.direction, i.plannedTokenB) && RealizedProfit(op) == 0
  {
    var op, base := Recovering(i, n, false), [WholeDexLeg(i), REJECTED];
    assert Legs(op) == base + Rejections(n);
    IdleLegsAddNothing(base, n);
    Paper.TwoLegTotals(WholeDexLeg(i), REJECTED);
  }

  lemma WholePositionIsMarked(i: TradeIntent, n: nat)
    requires Markable(i)
    ensures ResidualValue(Recovering(i, n, false)).Ok?
  {
    RecoveringTotals(i, n);
    if i.admission.Some? {
      var residual := DexTokenBDelta(i.direction, i.plannedTokenB);
      var quote, planned := RecoveryQuote(i.admission.value, residual), i.plannedTokenB;
      Paper.ScaledBack(quote, planned);
      assert Abs(residual) * quote == quote * planned;
      assert quote * planned % planned == 0 by { RemainderOfMultiple(quote, planned); }
      ProductBelow(planned, quote);
    }
  }

  lemma RemainderOfMultiple(quote: nat, planned: nat)
    requires planned > 0
    ensures quote * planned % planned == 0
  {
    Paper.ScaledBack(quote, planned);
    assert quote * planned == quote * planned / planned * planned + quote * planned % planned;
  }

  lemma ProductBelow(a: nat, b: nat)
    requires a < TWO_127 && b < TWO_127
    ensures a * b < TWO_256
  {
    MulMonotone(a, TWO_127, b);
    MulMonotone(b, TWO_127, TWO_127);
  }

  // With no attempt left the trade closes, whatever is still open.
  lemma ExhaustedCloses(i: TradeIntent, clock: Option<U64>)
    requires Markable(i)
    ensures var d := TakeDecision(Recovering(i, 3, false), clock);
            && d.Advance? && d.next.stage.Terminal() && d.next.intent == i
            && TokenBResidual(d.next) == DexTokenBDelta(i.direction, i.plannedTokenB) != 0
  {
    var op := Recovering(i, 3, false);
    RecoveringTotals(i, 3);
    WholePositionIsMarked(i, 3);
    assert CloseOutObstacle(op).None?;
    var d := TakeDecision(op, clock);
    assert d == CloseOut(op);
    assert Legs(d.next) == Legs(op);
  }

  function AtClock(clock: U64): Environment { Environment(Some(clock), Some(0), true, Synced) }

  // One call on the only trade of the journal.
  lemma Next(events: seq<Event>, op: TradeOperation, c: Call, next: TradeOperation, clock: U64)
    returns (more: seq<Event>)
    requires !c.Admit? && c.plan == op.intent.planId == next.intent.planId && ArgumentError(c).None? && |events| < 100
    requires InFlight.Reaches(events, map[c.plan := op])
    requires PlanDecision(op, c, Some(clock)).Advance? && PlanDecision(op, c, Some(clock)).next == next
    ensures InFlight.Reaches(more, map[c.plan := next]) && more == events + [Called(c, AtClock(clock))]
  {
    InFlight.OnlyTradeNext(events, op, c, next, AtClock(clock));
    more := events + [Called(c, AtClock(clock))];
  }

  lemma DispatchedIsReached(i: TradeIntent) returns (events: seq<Event>)
    requires Markable(i)
    ensures InFlight.Reaches(events, map[i.planId := DexDone(i).(dexResult := None)]) && |events| == 2
  {
    InFlight.ReachesNext([], map[], Admit(i), AtClock(0));
    events := [] + [Called(Admit(i), AtClock(0))];
    events := Next(events, PreparedOperation(i), Take(i.planId), DexDone(i).(dexResult := None), 0);
  }

  lemma DexDoneIsReached(i: TradeIntent) returns (events: seq<Event>)
    requires Markable(i)
    ensures InFlight.Reaches(events, map[i.planId := DexDone(i)]) && |events| == 3
  {
    events := DispatchedIsReached(i);
    assert ValidLeg(WholeDexLeg(i));
    events := Next(events, DexDone(i).(dexResult := None), Report(i.planId, Dex, WholeDexLeg(i)), DexDone(i), 0);
  }

  lemma RejectedIsReached(i: TradeIntent) returns (events: seq<Event>)
    requires Markable(i)
    ensures InFlight.Reaches(events, map[i.planId := Rejected(i)]) && |events| <= 5
  {
    RejectedLegIsValid();
    events := DexDoneIsReached(i);
    var hedged := DexDone(i).(cexDispatched := true);
    if i.mode.DexFirst? { events := Next(events, DexDone(i), Take(i.planId), hedged, 0); }
    events := Next(events, hedged, Report(i.planId, Cex, REJECTED), Rejected(i), 0);
  }

  lemma AttemptsAreReached(i: TradeIntent, n: nat) returns (events: seq<Event>)
    requires Markable(i) && n < MAX_RECOVERY_ATTEMPTS
    ensures InFlight.Reaches(events, map[i.planId := Recovering(i, n + 1, false)]) && |events| <= 7 + 2 * n
  {
    RejectedLegIsValid();
    if n == 0 {
      events := RejectedIsReached(i);
      StartsRecovering(i, Some(1000));
      events := Next(events, Rejected(i), Take(i.planId), Recovering(i, 0, true), 1000);
    } else {
      events := AttemptsAreReached(i, n - 1);
      AttemptIsRetried(i, n);
      events := Next(events, Recovering(i, n, false), Take(i.planId), Recovering(i, n, true), 1000);
    }
    AttemptIsRejected(i, n);
    var report := Report(i.planId, RecoveryCex, REJECTED);
    events := Next(events, Recovering(i, n, true), report, Recovering(i, n + 1, false), 0);
  }

  /** A balanced stage is not a zero residual: for every such intent, in either mode and direction, there is a
      run in which the DEX leg fills, the hedge and three recoveries are rejected, and the trade closes with
      the whole quantity open. */
  lemma BalancedWithEverythingOpen(i: TradeIntent) returns (events: seq<Event>)
    requires Markable(i)
    ensures i.planId in Run(events).journal.operations
    ensures var op := Run(events).journal.operations[i.planId];
            op.stage.Terminal() && TokenBResidual(op) == DexTokenBDelta(i.direction, i.plannedTokenB) != 0
  {
    events := AttemptsAreReached(i, 2);
    ExhaustedCloses(i, Some(1000));
    events := Next(events, Recovering(i, 3, false), Take(i.planId),
                   TakeDecision(Recovering(i, 3, false), Some(1000)).next, 1000);
  }
}
