/** The trade coordinator: what each call decides about one operation, and the object that persists
    the decision before any command leaves it. */
module Coordinator {
  import opened Machine
  import opened Trade
  import opened Journal

  datatype Command =
    | DispatchDex(operationId: string, expectedTokenB: I128, plan: Option<DexPlan>, reconciliationOnly: bool)
    | DispatchCex(clientOrderId: string, targetTokenB: I128, limitPrice: Option<real>)
    | RecoverCex(attempt: nat, targetTokenB: I128)

  /** A call either refuses, leaves the operation alone, or appends a successor and hands out commands. */
  datatype Decision =
    | Refuse(error: TradeError)
    | Wait
    | Advance(next: TradeOperation, commands: seq<Command>)

  // ---------------------------------------------------------------- commands

  function DexCommand(i: TradeIntent, reconciliationOnly: bool): Command {
    DispatchDex(i.dexOperationId, DexTokenBDelta(i.direction, i.plannedTokenB), i.dexPlan, reconciliationOnly)
  }

  function AdmittedPrice(i: TradeIntent): Option<real> {
    if i.admission.Some? then Some(i.admission.value.primaryLimitPrice) else None
  }

  function PrimaryPrice(op: TradeOperation): Option<real> {
    if op.cexLimitPrice.Some? then op.cexLimitPrice else AdmittedPrice(op.intent)
  }

  function PlannedHedge(i: TradeIntent): I128 { WrapNeg(DexTokenBDelta(i.direction, i.plannedTokenB)) }

  // ---------------------------------------------------------------- take_commands

  function CloseOut(op: TradeOperation): Decision {
    var closed := FinalizeBalanced(op);
    if closed.Ok? then Advance(closed.value, []) else Refuse(closed.error)
  }

  function FirstDispatch(op: TradeOperation): Decision {
    var started := op.(dexDispatched := true, stage := Executing);
    if op.intent.mode.ConcurrentHedged? then
      Advance(started.(cexDispatched := true),
              [DexCommand(op.intent, false),
               DispatchCex(op.intent.cexClientOrderId, PlannedHedge(op.intent), AdmittedPrice(op.intent))])
    else Advance(started, [DexCommand(op.intent, false)])
  }

  function RetryOrClose(op: TradeOperation, clock: Option<U64>): Decision
    requires op.recoveryResults != []
  {
    var attempts := |op.recoveryResults|;
    if RetryableFailure(op.recoveryResults[attempts - 1]) && attempts < MAX_RECOVERY_ATTEMPTS then
      if op.retryNotBefore.None? then Refuse(MissingDeadline)
      else if clock.None? then Refuse(ClockUnavailable)
      else if clock.value < op.retryNotBefore.value then Wait
      else if op.recoveryTarget.None? then Refuse(MissingTarget)
      else Advance(op.(recoveryInflight := true, retryNotBefore := None),
                   [RecoverCex(attempts + 1, op.recoveryTarget.value)])
    else CloseOut(op.(retryNotBefore := None))
  }

  function RecoverOrClose(op: TradeOperation): Decision {
    var target := if PrimaryRecoveryTarget(op).Some? then PrimaryRecoveryTarget(op).value else 0;
    if target == 0 then CloseOut(op)
    else if op.intent.mode.DexFirst? && !RecoveryDirectionValid(op.intent.direction, target) then
      Advance(op.(stage := Halted, blockingReason := Some("dex_first_recovery_direction_flipped")), [])
    else
      Advance(op.(stage := Recovering, recoveryInflight := true, recoveryTarget := Some(target),
                  retryNotBefore := None),
              [RecoverCex(1, target)])
  }

  predicate PrimaryFinished(op: TradeOperation) {
    op.dexResult.Some? && (op.cexResult.Some? || !op.cexDispatched)
  }

  function TakeDecision(op: TradeOperation, clock: Option<U64>): Decision {
    var waitingForDex := op.intent.mode.DexFirst? && !op.cexDispatched && op.dexResult.Some?;
    if op.stage.Terminal() then Refuse(TradeIsTerminal)
    else if HasUnknownLeg(op) then
      if op.stage.UnknownExposure? then Wait
      else Advance(op.(stage := UnknownExposure, blockingReason := Some("venue_outcome_unknown")), [])
    else if !op.dexDispatched then FirstDispatch(op)
    else if waitingForDex && op.dexResult.value.status.Filled? && op.dexResult.value.tokenB != 0 then
      Advance(op.(cexDispatched := true),
              [DispatchCex(op.intent.cexClientOrderId, WrapNeg(op.dexResult.value.tokenB), PrimaryPrice(op))])
    else if waitingForDex && op.dexResult.value.status.Failed? then CloseOut(op)
    else if PrimaryFinished(op) && !op.recoveryInflight then
      if op.recoveryResults != [] then RetryOrClose(op, clock) else RecoverOrClose(op)
    else Wait
  }

  // ---------------------------------------------------------------- record_result and reconcile_unknown

  // Exponential backoff: 250 ms after the first attempt, 500 ms after the second.
  function RetryDelay(attempts: nat): nat {
    if attempts <= 1 then RECOVERY_RETRY_BASE_DELAY_MS else 2 * RetryDelay(attempts - 1)
  }

  function WithDeadline(op: TradeOperation, clock: Option<U64>): Result<TradeOperation, TradeError>
    requires op.recoveryResults != []
  {
    var attempts := |op.recoveryResults|;
    if RetryableFailure(op.recoveryResults[attempts - 1]) && attempts < MAX_RECOVERY_ATTEMPTS then
      if clock.None? then Err(ClockUnavailable)
      else if clock.value + RetryDelay(attempts) > U64_MAX then Err(DeadlineOverflow)
      else Ok(op.(retryNotBefore := Some(clock.value + RetryDelay(attempts))))
    else Ok(op.(retryNotBefore := None))
  }

  function RecordDecision(op: TradeOperation, role: LegRole, leg: LegResult, clock: Option<U64>): Decision {
    if op.stage.Terminal() then Refuse(TradeIsTerminal) else
      match role
      case Dex =>
        if !op.dexDispatched then Refuse(LegNotDispatched)
        else if op.dexResult.Some? then Refuse(LegAlreadyRecorded)
        else Advance(op.(dexResult := Some(leg)), [])
      case Cex =>
        if !op.cexDispatched then Refuse(LegNotDispatched)
        else if op.cexResult.Some? then Refuse(LegAlreadyRecorded)
        else Advance(op.(cexResult := Some(leg)), [])
      case RecoveryCex =>
        if !op.recoveryInflight then Refuse(LegNotDispatched) else
          var recorded := op.(recoveryInflight := false, recoveryResults := op.recoveryResults + [leg]);
          var timed := WithDeadline(recorded, clock);
          if timed.Ok? then Advance(timed.value, []) else Refuse(timed.error)
  }

  function Reopen(op: TradeOperation): Decision {
    Advance(op.(stage := if op.recoveryResults == [] then Executing else Recovering, blockingReason := None), [])
  }

  function ReconcileDecision(op: TradeOperation, role: LegRole, leg: LegResult, clock: Option<U64>): Decision {
    if !op.stage.UnknownExposure? then Refuse(NotAwaitingReconciliation) else
      match role
      case Dex =>
        if leg.status.Failed? && !ProvesZeroExposure(leg) then Refuse(DexFailureUnproven)
        else if !IsUnknown(op.dexResult) then Refuse(LegNotUnknown)
        else Reopen(op.(dexResult := Some(leg)))
      case Cex =>
        if !IsUnknown(op.cexResult) then Refuse(LegNotUnknown) else Reopen(op.(cexResult := Some(leg)))
      case RecoveryCex =>
        var n := |op.recoveryResults|;
        if n == 0 || !op.recoveryResults[n - 1].status.Unknown? then Refuse(LegNotUnknown) else
          var timed := WithDeadline(op.(recoveryResults := op.recoveryResults[..n - 1] + [leg]), clock);
          if timed.Ok? then Reopen(timed.value) else Refuse(timed.error)
  }

  // ---------------------------------------------------------------- price selection and operator repair

  function PriceDecision(op: TradeOperation, price: real): Decision {
    if || !op.intent.mode.DexFirst? || op.cexDispatched || op.dexResult.None?
       || !op.dexResult.value.status.Filled? || op.dexResult.value.tokenB == 0
    then Refuse(PriceSelectionRefused)
    else if op.cexLimitPrice.Some? then if op.cexLimitPrice.value == price then Wait else Refuse(PriceChanged)
    else Advance(op.(cexLimitPrice := Some(price)), [])
  }

  // The historical false-terminal record an operator may repair.
  predicate FalseTerminal(op: TradeOperation) {
    && op.operatorRecovery.None?
    && op.intent.mode.DexFirst? && op.dexDispatched && !op.cexDispatched
    && op.cexResult.None? && op.recoveryResults == [] && !op.recoveryInflight
    && op.stage.Terminal() && op.dexResult.Some? && op.dexResult.value.status.Failed?
    && op.dexResult.value.venueReference == "dex:expired-plan"
  }

  predicate EvidenceAccepted(dex: LegResult, recovery: LegResult, e: OperatorEvidence) {
    && ValidLeg(dex) && ValidLeg(recovery) && ValidEvidence(e)
    && dex.status.Filled? && recovery.status.Filled?
    && dex.venueReference == "dex:" + e.dexTransactionHash
    && recovery.venueReference == "cex:" + Decimal(e.binanceOrderId)
  }

  function OperatorDecision(op: TradeOperation, dex: LegResult, recovery: LegResult, e: OperatorEvidence): Decision {
    if || !FalseTerminal(op)
       || !DeterministicRecoveryId(op.intent.cexClientOrderId, e.binanceClientOrderId)
       || dex.tokenB == 0 || recovery.tokenB != SatNeg(dex.tokenB)
    then Refuse(OperatorRecoveryRefused)
    else
      var closed := FinalizeBalanced(
                      op.(dexResult := Some(dex), recoveryTarget := Some(recovery.tokenB),
                      recoveryResults := op.recoveryResults + [recovery], result := None, stage := Recovering,
                      blockingReason := None, operatorRecovery := Some(e)));
      if closed.Err? then Refuse(closed.error)
      else if TokenBResidual(closed.value) != 0 then Refuse(OperatorRecoveryRefused)
      else Advance(closed.value, [])
  }

  // ---------------------------------------------------------------- one call against the journal

  datatype Call =
    | Admit(intent: TradeIntent)
    | Take(plan: string)
    | Report(plan: string, role: LegRole, leg: LegResult)
    | SelectPrice(plan: string, price: real)
    | Reconcile(plan: string, role: LegRole, leg: LegResult)
    | RepairFalseTerminal(plan: string, dex: LegResult, recovery: LegResult, evidence: OperatorEvidence)

  predicate AnyInFlight(operations: Operations) {
    exists p | p in operations :: operations[p].stage.InFlight()
  }

  function AdmitDecision(operations: Operations, i: TradeIntent): Decision {
    if !ValidIntent(i) then Refuse(InvalidIntent)
    else if i.admission.Some? && !i.admission.value.thresholdMet then Refuse(ThresholdNotMet)
    else if AnyInFlight(operations) then Refuse(AnotherTradeExecuting)
    else if i.planId in operations then Refuse(PlanExists)
    else Advance(PreparedOperation(i), [])
  }

  // Argument checks a call makes before it looks the plan up.
  function ArgumentError(c: Call): Option<TradeError> {
    match c
    case Report(_, _, leg) => if ValidLeg(leg) then None else Some(InvalidLeg)
    case Reconcile(_, _, leg) =>
      if !ValidLeg(leg) then Some(InvalidLeg)
      else if leg.status.Unknown? then Some(ReconciliationNotTerminal) else None
    case SelectPrice(_, price) => if price > 0.0 then None else Some(PriceNotPositive)
    case RepairFalseTerminal(_, dex, recovery, e) =>
      if EvidenceAccepted(dex, recovery, e) then None else Some(OperatorRecoveryRefused)
    case _ => None
  }

  function PlanDecision(op: TradeOperation, c: Call, clock: Option<U64>): Decision
    requires !c.Admit?
  {
    match c
    case Take(_) => TakeDecision(op, clock)
    case Report(_, role, leg) => RecordDecision(op, role, leg, clock)
    case SelectPrice(_, price) => PriceDecision(op, price)
    case Reconcile(_, role, leg) => ReconcileDecision(op, role, leg, clock)
    case RepairFalseTerminal(_, dex, recovery, e) => OperatorDecision(op, dex, recovery, e)
  }

  function Decide(operations: Operations, c: Call, clock: Option<U64>): Decision {
    if c.Admit? then AdmitDecision(operations, c.intent)
    else if ArgumentError(c).Some? then Refuse(ArgumentError(c).value)
    else if c.plan !in operations then Refuse(UnknownPlan)
    else PlanDecision(operations[c.plan], c, clock)
  }

  datatype Executed = Executed(state: JournalState, reply: Result<seq<Command>, TradeError>)

  function Carry(s: JournalState, d: Decision, env: Environment): Executed {
    match d
    case Refuse(e) => Executed(s, Err(e))
    case Wait => Executed(s, Ok([]))
    case Advance(next, commands) =>
      var appended := AppendTo(s, next, env);
      Executed(appended.state, if appended.error.Some? then Err(appended.error.value) else Ok(commands))
  }

  function Execute(s: JournalState, c: Call, env: Environment): Executed {
    Carry(s, Decide(s.operations, c, env.clock), env)
  }

  // Errors that would mean the coordinator contradicts its own journal.
  const INTERNAL_ERRORS: set<TradeError> :=
    {TransitionRefused, InvalidOperation, ActiveCountUnderflow, MissingDeadline, MissingTarget}

  // ---------------------------------------------------------------- rebuilding commands after a restart

  function ResumeCommand(op: TradeOperation, clock: Option<U64>): Result<Option<Command>, TradeError> {
    if op.dexDispatched && op.dexResult.None? then
      if clock.None? then Err(ClockUnavailable) else
        Ok(Some(DexCommand(op.intent, op.intent.dexPlan.Some? &&
                                      op.intent.dexPlan.value.deadlineUnixSeconds <= clock.value / 1000)))
    else if op.cexDispatched && op.cexResult.None? then
      if op.intent.mode.DexFirst? then
        if op.dexResult.None? then Err(MissingDexResult)
        else Ok(Some(DispatchCex(op.intent.cexClientOrderId, WrapNeg(op.dexResult.value.tokenB), PrimaryPrice(op))))
      else Ok(Some(DispatchCex(op.intent.cexClientOrderId, PlannedHedge(op.intent), PrimaryPrice(op))))
    else if op.recoveryInflight then
      Ok(Some(RecoverCex(|op.recoveryResults| + 1,
                         if op.recoveryTarget.Some? then op.recoveryTarget.value else WrapNeg(ActionableResidual(op)))))
    else Ok(None)
  }

  function UnknownDexCommand(op: TradeOperation): Option<Command> {
    if op.stage.UnknownExposure? && IsUnknown(op.dexResult) then Some(DexCommand(op.intent, true)) else None
  }

  function UnknownBinanceCommand(op: TradeOperation): Result<Option<Command>, TradeError> {
    if !op.stage.UnknownExposure? then Ok(None)
    else if IsUnknown(op.cexResult) then
      if op.intent.mode.DexFirst? then
        if op.dexResult.None? then Err(MissingDexResult)
        else Ok(Some(DispatchCex(op.intent.cexClientOrderId, WrapNeg(op.dexResult.value.tokenB), PrimaryPrice(op))))
      else Ok(Some(DispatchCex(op.intent.cexClientOrderId, PlannedHedge(op.intent), PrimaryPrice(op))))
    else if op.recoveryResults != [] && op.recoveryResults[|op.recoveryResults| - 1].status.Unknown? then
      if op.recoveryTarget.None? then Err(MissingTarget)
      else Ok(Some(RecoverCex(|op.recoveryResults|, op.recoveryTarget.value)))
    else Ok(None)
  }

  // ---------------------------------------------------------------- the coordinator object

  class PaperTradeCoordinator {
    const journal: TradeJournal

    constructor (journal: TradeJournal)
      ensures this.journal == journal
    {
      this.journal := journal;
    }

    method Admit(intent: TradeIntent, env: Environment) returns (r: Result<(), TradeError>)
      modifies journal
      ensures journal.State() == Execute(old(journal.State()), Call.Admit(intent), env).state
      ensures r == (match Execute(old(journal.State()), Call.Admit(intent), env).reply
                    case Ok(_) => Ok(())
                    case Err(e) => Err(e))
    {
      if !ValidIntent(intent) { return Err(InvalidIntent); }
      if intent.admission.Some? && !intent.admission.value.thresholdMet { return Err(ThresholdNotMet); }
      if exists p | p in journal.operations :: journal.operations[p].stage.InFlight() {
        return Err(AnotherTradeExecuting);
      }
      if intent.planId in journal.operations { return Err(PlanExists); }
      r := journal.Append(PreparedOperation(intent), env);
    }

    method TakeCommands(plan: string, env: Environment) returns (r: Result<seq<Command>, TradeError>)
      modifies journal
      ensures Executed(journal.State(), r) == Execute(old(journal.State()), Take(plan), env)
    {
      if plan !in journal.operations { return Err(UnknownPlan); }
      var operation := journal.operations[plan];
      if operation.stage.Terminal() { return Err(TradeIsTerminal); }
      if HasUnknownLeg(operation) {
        if operation.stage.UnknownExposure? { return Ok([]); }
        operation := operation.(stage := UnknownExposure);
        operation := operation.(blockingReason := Some("venue_outcome_unknown"));
        r := Persist(operation, [], env);
        return;
      }
      var commands := [];
      if !operation.dexDispatched {
        operation := operation.(dexDispatched := true);
        operation := operation.(stage := Executing);
        commands := commands + [DexCommand(operation.intent, false)];
        if operation.intent.mode.ConcurrentHedged? {
          operation := operation.(cexDispatched := true);
          commands := commands + [DispatchCex(operation.intent.cexClientOrderId, PlannedHedge(operation.intent),
                                              AdmittedPrice(operation.intent))];
        }
        assert commands == FirstDispatch(journal.operations[plan]).commands;
        r := Persist(operation, commands, env);
        return;
      }
      if operation.intent.mode.DexFirst? && !operation.cexDispatched && operation.dexResult.Some? {
        var dex := operation.dexResult.value;
        if dex.status.Filled? && dex.tokenB != 0 {
          operation := operation.(cexDispatched := true);
          r := Persist(operation, [DispatchCex(operation.intent.cexClientOrderId, WrapNeg(dex.tokenB),
                                               PrimaryPrice(operation))], env);
          return;
        }
        if dex.status.Failed? {
          r := Close(operation, env);
          return;
        }
      }
      if !PrimaryFinished(operation) || operation.recoveryInflight { return Ok([]); }
      if operation.recoveryResults != [] {
        r := Retry(operation, env);
      } else {
        r := Recover(operation, env);
      }
    }

    method Persist(operation: TradeOperation, commands: seq<Command>, env: Environment)
      returns (r: Result<seq<Command>, TradeError>)
      modifies journal
      ensures Executed(journal.State(), r) == Carry(old(journal.State()), Advance(operation, commands), env)
    {
      var appended := journal.Append(operation, env);
      r := if appended.Err? then Err(appended.error) else Ok(commands);
    }

    method Close(operation: TradeOperation, env: Environment) returns (r: Result<seq<Command>, TradeError>)
      modifies journal
      ensures Executed(journal.State(), r) == Carry(old(journal.State()), CloseOut(operation), env)
    {
      var closed := FinalizeBalanced(operation);
      if closed.Err? { return Err(closed.error); }
      r := Persist(closed.value, [], env);
    }

    method Retry(current: TradeOperation, env: Environment) returns (r: Result<seq<Command>, TradeError>)
      requires current.recoveryResults != []
      modifies journal
      ensures Executed(journal.State(), r) == Carry(old(journal.State()), RetryOrClose(current, env.clock), env)
    {
      var operation := current;
      var attempts := |operation.recoveryResults|;
      if RetryableFailure(operation.recoveryResults[attempts - 1]) && attempts < MAX_RECOVERY_ATTEMPTS {
        if operation.retryNotBefore.None? { return Err(MissingDeadline); }
        if env.clock.None? { return Err(ClockUnavailable); }
        if env.clock.value < operation.retryNotBefore.value { return Ok([]); }
        if operation.recoveryTarget.None? { return Err(MissingTarget); }
        operation := operation.(recoveryInflight := true);
        operation := operation.(retryNotBefore := None);
        r := Persist(operation, [RecoverCex(attempts + 1, operation.recoveryTarget.value)], env);
      } else {
        operation := operation.(retryNotBefore := None);
        r := Close(operation, env);
      }
    }

    method Recover(current: TradeOperation, env: Environment) returns (r: Result<seq<Command>, TradeError>)
      modifies journal
      ensures Executed(journal.State(), r) == Carry(old(journal.State()), RecoverOrClose(current), env)
    {
      var operation := current;
      var primary := PrimaryRecoveryTarget(operation);
      var target := if primary.Some? then primary.value else 0;
      if target == 0 {
        r := Close(operation, env);
        return;
      }
      if operation.intent.mode.DexFirst? && !RecoveryDirectionValid(operation.intent.direction, target) {
        operation := operation.(stage := Halted);
        operation := operation.(blockingReason := Some("dex_first_recovery_direction_flipped"));
        r := Persist(operation, [], env);
        return;
      }
      operation := operation.(stage := Recovering, recoveryInflight := true);
      operation := operation.(recoveryTarget := Some(target), retryNotBefore := None);
      r := Persist(operation, [RecoverCex(1, target)], env);
    }

    method RecordResult(plan: string, role: LegRole, leg: LegResult, env: Environment)
      returns (r: Result<seq<Command>, TradeError>)
      modifies journal
      ensures Executed(journal.State(), r) == Execute(old(journal.State()), Report(plan, role, leg), env)
    {
      if !ValidLeg(leg) { return Err(InvalidLeg); }
      if plan !in journal.operations { return Err(UnknownPlan); }
      var operation := journal.operations[plan];
      if operation.stage.Terminal() { return Err(TradeIsTerminal); }
      match role {
        case Dex =>
          if !operation.dexDispatched { return Err(LegNotDispatched); }
          if operation.dexResult.Some? { return Err(LegAlreadyRecorded); }
          operation := operation.(dexResult := Some(leg));
        case Cex =>
          if !operation.cexDispatched { return Err(LegNotDispatched); }
          if operation.cexResult.Some? { return Err(LegAlreadyRecorded); }
          operation := operation.(cexResult := Some(leg));
        case RecoveryCex =>
          if !operation.recoveryInflight { return Err(LegNotDispatched); }
          operation := operation.(recoveryInflight := false, recoveryResults := operation.recoveryResults + [leg]);
          var timed := WithDeadline(operation, env.clock);
          if timed.Err? { return Err(timed.error); }
          operation := timed.value;
      }
      r := Persist(operation, [], env);
    }

    // Puts a known result in place of the one unknown leg of its role.
    static method ReplaceUnknown(op: TradeOperation, role: LegRole, leg: LegResult, clock: Option<U64>)
      returns (r: Result<TradeOperation, TradeError>)
      requires op.stage.UnknownExposure?
      ensures ReconcileDecision(op, role, leg, clock) == if r.Ok? then Reopen(r.value) else Refuse(r.error)
    {
      match role {
        case Dex =>
          if leg.status.Failed? && !ProvesZeroExposure(leg) { return Err(DexFailureUnproven); }
          if !IsUnknown(op.dexResult) { return Err(LegNotUnknown); }
          return Ok(op.(dexResult := Some(leg)));
        case Cex =>
          if !IsUnknown(op.cexResult) { return Err(LegNotUnknown); }
          return Ok(op.(cexResult := Some(leg)));
        case RecoveryCex =>
          var n := |op.recoveryResults|;
          if n == 0 || !op.recoveryResults[n - 1].status.Unknown? { return Err(LegNotUnknown); }
          r := WithDeadline(op.(recoveryResults := op.recoveryResults[..n - 1] + [leg]), clock);
      }
    }

    method ReconcileUnknown(plan: string, role: LegRole, leg: LegResult, env: Environment)
      returns (r: Result<seq<Command>, TradeError>)
      modifies journal
      ensures Executed(journal.State(), r) == Execute(old(journal.State()), Reconcile(plan, role, leg), env)
    {
      if !ValidLeg(leg) { return Err(InvalidLeg); }
      if leg.status.Unknown? { return Err(ReconciliationNotTerminal); }
      if plan !in journal.operations { return Err(UnknownPlan); }
      var operation := journal.operations[plan];
      if !operation.stage.UnknownExposure? { return Err(NotAwaitingReconciliation); }
      var replaced := ReplaceUnknown(operation, role, leg, env.clock);
      if replaced.Err? { return Err(replaced.error); }
      operation := replaced.value;
      operation := operation.(stage := if operation.recoveryResults == [] then Executing else Recovering);
      operation := operation.(blockingReason := None);
      r := Persist(operation, [], env);
    }

    method SelectPrimaryCexLimitPrice(plan: string, price: real, env: Environment)
      returns (r: Result<seq<Command>, TradeError>)
      modifies journal
      ensures Executed(journal.State(), r) == Execute(old(journal.State()), SelectPrice(plan, price), env)
    {
      if price <= 0.0 { return Err(PriceNotPositive); }
      if plan !in journal.operations { return Err(UnknownPlan); }
      var operation := journal.operations[plan];
      if !operation.intent.mode.DexFirst? { return Err(PriceSelectionRefused); }
      if operation.cexDispatched { return Err(PriceSelectionRefused); }
      if operation.dexResult.None? || !operation.dexResult.value.status.Filled?
        || operation.dexResult.value.tokenB == 0 {
        return Err(PriceSelectionRefused);
      }
      if operation.cexLimitPrice.Some? {
        if operation.cexLimitPrice.value != price { return Err(PriceChanged); }
        return Ok([]);
      }
      operation := operation.(cexLimitPrice := Some(price));
      r := Persist(operation, [], env);
    }

    method RecordOperatorRecovery(plan: string, dex: LegResult, recovery: LegResult, e: OperatorEvidence,
                                  env: Environment)
      returns (r: Result<seq<Command>, TradeError>)
      modifies journal
      ensures Executed(journal.State(), r)
           == Execute(old(journal.State()), RepairFalseTerminal(plan, dex, recovery, e), env)
    {
      if !EvidenceAccepted(dex, recovery, e) { return Err(OperatorRecoveryRefused); }
      if plan !in journal.operations { return Err(UnknownPlan); }
      var operation := journal.operations[plan];
      if !FalseTerminal(operation) { return Err(OperatorRecoveryRefused); }
      if !DeterministicRecoveryId(operation.intent.cexClientOrderId, e.binanceClientOrderId) {
        return Err(OperatorRecoveryRefused);
      }
      if dex.tokenB == 0 || recovery.tokenB != SatNeg(dex.tokenB) { return Err(OperatorRecoveryRefused); }
      operation := operation.(dexResult := Some(dex), recoveryTarget := Some(recovery.tokenB),
                   recoveryResults := operation.recoveryResults + [recovery]);
      operation := operation.(result := None, stage := Recovering, blockingReason := None, operatorRecovery := Some(e));
      var closed := FinalizeBalanced(operation);
      if closed.Err? { return Err(closed.error); }
      if TokenBResidual(closed.value) != 0 { return Err(OperatorRecoveryRefused); }
      r := Persist(closed.value, [], env);
    }
  }
}
