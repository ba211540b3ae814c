/** Paper execution: simulated venues, the drive loop and the resume loop. The main result is that a
    crash at any record boundary changes nothing about where a trade ends. */
module Paper {
  import opened Machine
  import opened Trade
  import opened Journal
  import opened Coordinator
  import opened Lifecycle

  // ---------------------------------------------------------------- simulated venues

  function SimulatedDex(i: TradeIntent, tokenB: I128): LegResult {
    LegResult(Filled, None, tokenB,
              if i.direction.BuyOnDexSellOnCex? then WrapNeg(i.expectedCost) else i.expectedProceeds,
              map[], map[], 0, "paper:dex:" + i.planId, None, None)
  }

  function Scaled(reference: nat, amount: nat, planned: nat): nat
    requires planned > 0
  {
    reference * amount / planned
  }

  function SimulatedCex(i: TradeIntent, tokenB: I128, role: string): Result<LegResult, TradeError>
    requires i.plannedTokenB > 0
  {
    if tokenB == 0 then Err(ZeroPaperQuantity) else
      var reference: int := if tokenB > 0 then WrapNeg(i.expectedCost) else i.expectedProceeds;
      if Abs(reference) * Abs(tokenB) >= TWO_128 then Err(PaperScalingOverflow) else
        var magnitude: int := Scaled(Abs(reference), Abs(tokenB), i.plannedTokenB);
        if magnitude >= TWO_127 then Err(PaperScalingOverflow)
        else Ok(LegResult(Filled, Some(tokenB), tokenB, if reference < 0 then 0 - magnitude else magnitude,
                          map[], map[], 0, "paper:cex:" + role + ":" + i.planId, None, None))
  }

  datatype Simulated = Simulated(role: LegRole, leg: LegResult)

  function Simulate(i: TradeIntent, c: Command): Result<Simulated, TradeError>
    requires i.plannedTokenB > 0
  {
    match c
    case DispatchDex(_, tokenB, _, _) => Ok(Simulated(Dex, SimulatedDex(i, tokenB)))
    case DispatchCex(_, tokenB, _) =>
      var leg := SimulatedCex(i, tokenB, "primary");
      if leg.Ok? then Ok(Simulated(Cex, leg.value)) else Err(leg.error)
    case RecoverCex(attempt, tokenB) =>
      var leg := SimulatedCex(i, tokenB, "recovery:market:" + Decimal(attempt));
      if leg.Ok? then Ok(Simulated(RecoveryCex, leg.value)) else Err(leg.error)
  }

  // The magnitude is the exact product over the planned quantity, cut to whole units.
  predicate IsProportional(reference: nat, amount: nat, planned: nat, magnitude: nat) {
    magnitude * planned <= reference * amount < (magnitude + 1) * planned
  }

  /** A simulated venue order fills the whole quantity at the planned price: it costs, when it buys, or fetches,
      when it sells, the expected amount in proportion, rounded toward zero; it fails exactly for nothing, or when
      the product or the amount does not fit its machine word. */
  lemma SimulatedOrderIsProportional(i: TradeIntent, tokenB: I128, role: string)
    requires ValidIntent(i)
    ensures var expected := if tokenB > 0 then i.expectedCost else i.expectedProceeds;
            var r := SimulatedCex(i, tokenB, role);
            && (r == Err(ZeroPaperQuantity) <==> tokenB == 0)
            && (r.Ok? ==>
                  && r.value.status.Filled? && r.value.tokenB == tokenB && r.value.executedTokenB == Some(tokenB)
                  && r.value.gasCost == 0 && (if tokenB > 0 then r.value.tokenA <= 0 else r.value.tokenA >= 0)
                  && IsProportional(expected, Abs(tokenB), i.plannedTokenB, Abs(r.value.tokenA)))
            && (r.Ok? <==>
                  && tokenB != 0 && expected * Abs(tokenB) < TWO_128
                  && expected * Abs(tokenB) < TWO_127 * i.plannedTokenB)
  {
    var expected: int := if tokenB > 0 then i.expectedCost else i.expectedProceeds;
    ScaledBounds(expected, Abs(tokenB), i.plannedTokenB);
  }

  lemma ScaledBounds(reference: nat, amount: nat, planned: nat)
    requires planned > 0
    ensures IsProportional(reference, amount, planned, Scaled(reference, amount, planned))
    ensures Scaled(reference, amount, planned) < TWO_127 <==> reference * amount < TWO_127 * planned
  {
    var n, q := reference * amount, reference * amount / planned;
    assert n == q * planned + n % planned;
    assert (q + 1) * planned == q * planned + planned;
    if q < TWO_127 { MulMonotone(q + 1, TWO_127, planned); } else { MulMonotone(TWO_127, q, planned); }
  }

  /** A simulated result is reported in the role of its command. */
  lemma SimulatedRole(i: TradeIntent, c: Command)
    requires i.plannedTokenB > 0 && Simulate(i, c).Ok?
    ensures Simulate(i, c).value.role
         == if c.DispatchDex? then Dex else if c.DispatchCex? then Cex else RecoveryCex
    ensures Simulate(i, c).value.leg.tokenB == if c.DispatchDex? then c.expectedTokenB else c.targetTokenB
  {
  }

  // ---------------------------------------------------------------- the drive and resume loops

  /** The outside world of a whole task: what the n-th coordinator call sees. */
  type Weather = nat -> Environment

  datatype Progress = Progress(state: JournalState, calls: nat, reply: Result<(), TradeError>)

  function Planned(s: JournalState, plan: string): bool {
    plan in s.operations && s.operations[plan].intent.plannedTokenB > 0
  }

  function Settle(s: JournalState, plan: string, c: Command, weather: Weather, calls: nat): Progress {
    if !Planned(s, plan) then Progress(s, calls, Err(UnknownPlan)) else
      var simulated := Simulate(s.operations[plan].intent, c);
      if simulated.Err? then Progress(s, calls, Err(simulated.error)) else
        var executed := Execute(s, Report(plan, simulated.value.role, simulated.value.leg), weather(calls));
        Progress(executed.state, calls + 1, if executed.reply.Err? then Err(executed.reply.error) else Ok(()))
  }

  function SettleAll(s: JournalState, plan: string, commands: seq<Command>, weather: Weather, calls: nat): Progress
    decreases |commands|
  {
    if commands == [] then Progress(s, calls, Ok(())) else
      var first := Settle(s, plan, commands[0], weather, calls);
      if first.reply.Err? then first
      else SettleAll(first.state, plan, commands[1..], weather, first.calls)
  }

  // Commands an operation can still be issued, weighted so that a report never adds work.
  function Work(op: TradeOperation): nat {
    (if op.dexDispatched then 0 else 1) + (if op.cexDispatched then 0 else 1)
    + if |op.recoveryResults| < MAX_RECOVERY_ATTEMPTS
      then 2 * (MAX_RECOVERY_ATTEMPTS - |op.recoveryResults|) - (if op.recoveryInflight then 1 else 0) else 0
  }

  // Commands whose result is still missing.
  function Pending(op: TradeOperation): nat {
    (if op.dexResult.None? then 1 else 0) + (if op.cexResult.None? then 1 else 0)
    + (if op.recoveryInflight then 1 else 0)
  }

  function WorkOf(s: JournalState, plan: string): nat {
    if plan in s.operations then Work(s.operations[plan]) else 0
  }

  function PendingOf(s: JournalState, plan: string): nat {
    if plan in s.operations then Pending(s.operations[plan]) else 0
  }

  predicate Keyed(operations: Operations) {
    forall p | p in operations :: operations[p].intent.planId == p
  }

  predicate SpendsWork(op: TradeOperation, d: Decision) {
    d.Advance? ==> d.next.intent == op.intent && (d.commands != [] ==> Work(d.next) < Work(op))
  }

  lemma CloseOutSpendsWork(op: TradeOperation, from: TradeOperation)
    requires from.intent == op.intent
    ensures SpendsWork(from, CloseOut(op))
  {
  }

  lemma RecoverySpendsWork(op: TradeOperation, clock: Option<U64>)
    requires !op.recoveryInflight
    ensures op.recoveryResults != [] ==> SpendsWork(op, RetryOrClose(op, clock))
    ensures op.recoveryResults == [] ==> SpendsWork(op, RecoverOrClose(op))
  {
    CloseOutSpendsWork(op, op);
    CloseOutSpendsWork(op.(retryNotBefore := None), op);
  }

  lemma TakeSpendsWork(op: TradeOperation, clock: Option<U64>)
    ensures SpendsWork(op, TakeDecision(op, clock))
  {
    CloseOutSpendsWork(op, op);
    if !op.recoveryInflight { RecoverySpendsWork(op, clock); }
  }

  lemma ReportAddsNoWork(op: TradeOperation, role: LegRole, leg: LegResult, clock: Option<U64>)
    ensures var d := RecordDecision(op, role, leg, clock);
            d.Advance? ==> d.next.intent == op.intent && Work(d.next) <= Work(op) && Pending(d.next) < Pending(op)
  {
  }

  // The plan's operation after a call that succeeded by appending `next`.
  lemma SuccessStores(s: JournalState, next: TradeOperation, commands: seq<Command>, env: Environment)
    ensures var executed := Carry(s, Advance(next, commands), env);
            || executed.state.operations == s.operations
            || executed.state.operations == s.operations[next.intent.planId := next]
    ensures var executed := Carry(s, Advance(next, commands), env);
            executed.reply.Ok? ==> executed.state.operations == s.operations[next.intent.planId := next]
  {
  }

  lemma TakeStep(s: JournalState, plan: string, env: Environment)
    requires Keyed(s.operations)
    ensures var taken := Execute(s, Take(plan), env);
            && Keyed(taken.state.operations)
            && (taken.reply.Ok? && taken.reply.value != [] ==> WorkOf(taken.state, plan) < WorkOf(s, plan))
  {
    if plan in s.operations {
      var d := TakeDecision(s.operations[plan], env.clock);
      TakeSpendsWork(s.operations[plan], env.clock);
      if d.Advance? { SuccessStores(s, d.next, d.commands, env); }
    }
  }

  lemma ReportStep(s: JournalState, plan: string, role: LegRole, leg: LegResult, env: Environment)
    requires Keyed(s.operations)
    ensures var reported := Execute(s, Report(plan, role, leg), env);
            && Keyed(reported.state.operations)
            && WorkOf(reported.state, plan) <= WorkOf(s, plan)
            && (reported.reply.Ok? ==> PendingOf(reported.state, plan) < PendingOf(s, plan))
  {
    if plan in s.operations && ValidLeg(leg) {
      var d := RecordDecision(s.operations[plan], role, leg, env.clock);
      ReportAddsNoWork(s.operations[plan], role, leg, env.clock);
      if d.Advance? { SuccessStores(s, d.next, d.commands, env); }
    }
  }

  lemma SettleStep(s: JournalState, plan: string, c: Command, weather: Weather, calls: nat)
    requires Keyed(s.operations)
    ensures var settled := Settle(s, plan, c, weather, calls);
            && Keyed(settled.state.operations)
            && WorkOf(settled.state, plan) <= WorkOf(s, plan)
            && (settled.reply.Ok? ==> PendingOf(settled.state, plan) < PendingOf(s, plan))
  {
    if Planned(s, plan) && Simulate(s.operations[plan].intent, c).Ok? {
      var simulated := Simulate(s.operations[plan].intent, c).value;
      ReportStep(s, plan, simulated.role, simulated.leg, weather(calls));
    }
  }

  lemma {:induction false} SettleAllStep(s: JournalState, plan: string, commands: seq<Command>, weather: Weather,
                                         calls: nat)
    requires Keyed(s.operations)
    ensures var settled := SettleAll(s, plan, commands, weather, calls);
            Keyed(settled.state.operations) && WorkOf(settled.state, plan) <= WorkOf(s, plan)
    decreases |commands|
  {
    if commands != [] {
      var first := Settle(s, plan, commands[0], weather, calls);
      SettleStep(s, plan, commands[0], weather, calls);
      if first.reply.Ok? { SettleAllStep(first.state, plan, commands[1..], weather, first.calls); }
    }
  }

  /** Take commands and settle them until there is nothing to do. */
  function Drive(s: JournalState, plan: string, weather: Weather, calls: nat): Progress
    requires Keyed(s.operations)
    decreases WorkOf(s, plan)
  {
    var taken := Execute(s, Take(plan), weather(calls));
    if taken.reply.Err? then Progress(taken.state, calls + 1, Err(taken.reply.error))
    else if taken.reply.value == [] then Progress(taken.state, calls + 1, Ok(()))
    else
      var settled := SettleAll(taken.state, plan, taken.reply.value, weather, calls + 1);
      TakeStep(s, plan, weather(calls));
      SettleAllStep(taken.state, plan, taken.reply.value, weather, calls + 1);
      if settled.reply.Err? then settled else Drive(settled.state, plan, weather, settled.calls)
  }

  /** Settle the commands that were dispatched before a restart, then drive on. */
  function ResumePlan(s: JournalState, plan: string, weather: Weather, calls: nat): Progress
    requires Keyed(s.operations)
    decreases PendingOf(s, plan)
  {
    if plan !in s.operations then Progress(s, calls, Err(UnknownPlan)) else
      var resumed := ResumeCommand(s.operations[plan], weather(calls).clock);
      if resumed.Err? then Progress(s, calls + 1, Err(resumed.error))
      else if resumed.value.None? then Drive(s, plan, weather, calls + 1)
      else
        var settled := Settle(s, plan, resumed.value.value, weather, calls + 1);
        SettleStep(s, plan, resumed.value.value, weather, calls + 1);
        if settled.reply.Err? then settled else ResumePlan(settled.state, plan, weather, settled.calls)
  }

  // ---------------------------------------------------------------- the records of a paper trade

  predicate ScalingFits(i: TradeIntent) {
    (if PlannedHedge(i) > 0 then i.expectedCost else i.expectedProceeds) * i.plannedTokenB < TWO_128
  }

  function DexLeg(i: TradeIntent): LegResult { SimulatedDex(i, DexTokenBDelta(i.direction, i.plannedTokenB)) }

  function CexLeg(i: TradeIntent): LegResult {
    LegResult(Filled, Some(PlannedHedge(i)), PlannedHedge(i),
              if PlannedHedge(i) > 0 then WrapNeg(i.expectedCost) else i.expectedProceeds,
              map[], map[], 0, "paper:cex:primary:" + i.planId, None, None)
  }

  lemma ScaledBack(reference: nat, planned: nat)
    requires planned > 0
    ensures Scaled(reference, planned, planned) == reference
  {
    assert (reference + 1) * planned == reference * planned + planned;
    QuotientIs(reference * planned, planned, reference);
  }

  /** The simulated hedge moves exactly the expected token-A amount, or its scaling product does not fit. */
  lemma CexLegIsSimulated(i: TradeIntent)
    requires ValidIntent(i)
    ensures SimulatedCex(i, PlannedHedge(i), "primary")
         == if ScalingFits(i) then Ok(CexLeg(i)) else Err(PaperScalingOverflow)
  {
    var reference := if PlannedHedge(i) > 0 then i.expectedCost else i.expectedProceeds;
    ScaledBack(reference, i.plannedTokenB);
    assert "paper:cex:" + "primary" + ":" + i.planId == "paper:cex:primary:" + i.planId;
  }

  lemma PaperLegsAreValid(i: TradeIntent)
    requires ValidIntent(i)
    ensures ValidLeg(DexLeg(i)) && ValidLeg(CexLeg(i))
  {
  }

  // Index of the terminal record.
  function LastRecord(i: TradeIntent): nat { if i.mode.DexFirst? then 5 else 4 }

  function LegsDone(i: TradeIntent): TradeOperation {
    PreparedOperation(i).(stage := Executing, dexDispatched := true, cexDispatched := true,
                          dexResult := Some(DexLeg(i)), cexResult := Some(CexLeg(i)))
  }

  // Both simulated legs cancel, so the trade closes with the profit it was admitted for.
  function PaperResult(i: TradeIntent): ArbitrageResult {
    ArbitrageResult(ExpectedProfit(i), ExpectedProfit(i), 0, ExpectedProfit(i), 0, 0, 0,
                    if ExpectedProfit(i) >= 0 then ProfitOutcome else LossOutcome)
  }

  function PaperTerminal(i: TradeIntent): TradeOperation {
    LegsDone(i).(stage := OutcomeStage(PaperResult(i).outcome), result := Some(PaperResult(i)))
  }

  /** The k-th record of the uninterrupted paper trade. */
  function PaperRecord(i: TradeIntent, k: nat): TradeOperation {
    var started := PreparedOperation(i).(stage := Executing, dexDispatched := true,
                                         cexDispatched := i.mode.ConcurrentHedged?);
    var dexDone := started.(dexResult := Some(DexLeg(i)));
    if k == 0 then PreparedOperation(i)
    else if k == 1 then started
    else if k == 2 then dexDone
    else if k == LastRecord(i) then PaperTerminal(i)
    else if k == 3 && i.mode.DexFirst? then dexDone.(cexDispatched := true)
    else LegsDone(i)
  }

  lemma PaperRecordsAreErased(i: TradeIntent, k: nat)
    ensures Erase(PaperRecord(i, k)) == PaperRecord(i, k)
  {
  }

  lemma TwoLegTotals(dex: LegResult, cex: LegResult)
    ensures TokenBTotal([dex, cex]) == SatAdd(SatAdd(0, dex.tokenB), cex.tokenB)
    ensures TokenATotal([dex, cex]) == SatAdd(SatAdd(0, dex.tokenA), cex.tokenA)
    ensures GasTotal([dex, cex]) == SatAddU128(SatAddU128(0, dex.gasCost), cex.gasCost)
  {
    var legs := [dex, cex];
    assert legs[..1] == [dex] && legs[..1][..0] == [];
    assert TokenBTotal([dex]) == SatAdd(0, dex.tokenB) && TokenATotal([dex]) == SatAdd(0, dex.tokenA);
    assert GasTotal([dex]) == SatAddU128(0, dex.gasCost);
  }

  lemma LegsCancel(i: TradeIntent)
    requires ValidIntent(i)
    ensures TokenBResidual(LegsDone(i)) == 0
    ensures RealizedProfit(LegsDone(i)) == ExpectedProfit(i)
    ensures GasTotal(Legs(LegsDone(i))) == 0
    ensures PrimaryRecoveryTarget(LegsDone(i)) == Some(0)
  {
    assert Legs(LegsDone(i)) == [DexLeg(i), CexLeg(i)];
    TwoLegTotals(DexLeg(i), CexLeg(i));
  }

  lemma LegsDoneCloses(i: TradeIntent)
    requires ValidIntent(i)
    ensures FinalizeBalanced(LegsDone(i)) == Ok(PaperTerminal(i))
  {
    LegsCancel(i);
    assert BalancedResult(LegsDone(i), 0) == PaperResult(i);
  }

  // The report that follows record k, if a leg is pending there.
  function PaperReport(i: TradeIntent, k: nat): Option<Simulated> {
    if k == 1 then Some(Simulated(Dex, DexLeg(i)))
    else if (k == 2 && i.mode.ConcurrentHedged?) || (k == 3 && i.mode.DexFirst?) then Some(Simulated(Cex, CexLeg(i)))
    else None
  }

  function PaperCommands(i: TradeIntent, k: nat): seq<Command> {
    var cex := DispatchCex(i.cexClientOrderId, PlannedHedge(i), AdmittedPrice(i));
    if k == 0 then if i.mode.ConcurrentHedged? then [DexCommand(i, false), cex] else [DexCommand(i, false)]
    else if k == 2 && i.mode.DexFirst? then [cex]
    else []
  }

  lemma PaperTakes(i: TradeIntent, k: nat, clock: Option<U64>)
    requires ValidIntent(i) && k < LastRecord(i) && PaperReport(i, k).None?
    ensures TakeDecision(PaperRecord(i, k), clock) == Advance(PaperRecord(i, k + 1), PaperCommands(i, k))
  {
    var op := PaperRecord(i, k);
    if op == LegsDone(i) {
      LegsDoneCloses(i);
      LegsCancel(i);
    }
  }

  lemma PaperReports(i: TradeIntent, k: nat, clock: Option<U64>)
    requires ValidIntent(i) && k < LastRecord(i) && PaperReport(i, k).Some?
    ensures var report := PaperReport(i, k).value;
            RecordDecision(PaperRecord(i, k), report.role, report.leg, clock) == Advance(PaperRecord(i, k + 1), [])
  {
  }

  // What simulating the pending leg of record k gives.
  function Reported(i: TradeIntent, k: nat): Result<Simulated, TradeError>
    requires PaperReport(i, k).Some?
  {
    if PaperReport(i, k).value.role.Cex? && !ScalingFits(i) then Err(PaperScalingOverflow)
    else Ok(PaperReport(i, k).value)
  }

  // A pending paper command, rebuilt or original, is simulated to the same outcome.
  lemma PaperResumes(i: TradeIntent, k: nat, clock: U64)
    requires ValidIntent(i) && k < LastRecord(i)
    ensures var resumed := ResumeCommand(PaperRecord(i, k), Some(clock));
            && resumed.Ok? && (resumed.value.Some? <==> PaperReport(i, k).Some?)
            && (resumed.value.Some? ==> Simulate(i, resumed.value.value) == Reported(i, k))
  {
    CexLegIsSimulated(i);
  }

  /** Where a paper trade ends: at its terminal record, or waiting for a hedge that cannot be simulated. */
  function EndRecord(i: TradeIntent): nat {
    if ScalingFits(i) then LastRecord(i) else if i.mode.DexFirst? then 3 else 2
  }

  function EndReply(i: TradeIntent): Result<(), TradeError> {
    if ScalingFits(i) then Ok(()) else Err(PaperScalingOverflow)
  }

  lemma EndIsTerminalExactlyWhenScalingFits(i: TradeIntent, k: nat)
    requires k <= EndRecord(i)
    ensures PaperRecord(i, k).stage.Terminal() <==> ScalingFits(i) && k == LastRecord(i)
  {
  }
}
