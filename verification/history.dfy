/** What the snapshot guard alone guarantees about any journal that replays, whoever wrote it. */
module History {
  import opened Machine
  import opened Trade
  import opened Journal

  // A result that is known is never rewritten; one that exists never disappears.
  predicate ResultKept(earlier: Option<LegResult>, later: Option<LegResult>) {
    earlier.Some? ==>
      later.Some? && (earlier.value.status.Unknown? || later == earlier)
  }

  // All attempts but the last are frozen, and the last is frozen once its outcome is known.
  predicate AttemptsKept(earlier: seq<LegResult>, later: seq<LegResult>) {
    && |earlier| <= |later|
    && forall i | 0 <= i < |earlier| ::
         (i < |earlier| - 1 || !earlier[i].status.Unknown?) ==> later[i] == earlier[i]
  }

  // The single exception to a known DEX result being final.
  predicate DexCorrected(earlier: TradeOperation, later: TradeOperation) {
    && earlier.operatorRecovery.None? && later.operatorRecovery.Some?
    && earlier.dexResult.Some? && earlier.dexResult.value.status.Failed?
    && earlier.dexResult.value.venueReference == "dex:expired-plan"
    && later.dexResult.Some?
  }

  predicate HistoryLaw(earlier: TradeOperation, later: TradeOperation) {
    && later.intent == earlier.intent
    && (earlier.dexDispatched ==> later.dexDispatched)
    && (earlier.cexDispatched ==> later.cexDispatched)
    && KeptOnceSet(earlier.cexLimitPrice, later.cexLimitPrice)
    && KeptOnceSet(earlier.recoveryTarget, later.recoveryTarget)
    && KeptOnceSet(earlier.operatorRecovery, later.operatorRecovery)
    && ResultKept(earlier.cexResult, later.cexResult)
    && (ResultKept(earlier.dexResult, later.dexResult) || DexCorrected(earlier, later))
    && AttemptsKept(earlier.recoveryResults, later.recoveryResults)
  }

  lemma StepObeysLaw(previous: TradeOperation, next: TradeOperation)
    requires TransitionAccepted(previous, next)
    ensures HistoryLaw(previous, next)
  {
  }

  lemma LawIsTransitive(a: TradeOperation, b: TradeOperation, c: TradeOperation)
    requires HistoryLaw(a, b) && HistoryLaw(b, c)
    ensures HistoryLaw(a, c)
  {
  }

  lemma LastWasAccepted(log: seq<Record>)
    requires log != [] && Replay(log).Ok?
    ensures var before := log[..|log| - 1];
            Replay(before).Ok? && SnapshotAccepted(Replay(before).value, log[|log| - 1].operation)
  {
  }

  // The record at `j` was accepted on top of the plan's previous one.
  lemma RecordWasAccepted(log: seq<Record>, j: nat)
    requires j < |log| && Replay(log).Ok?
    ensures Replay(log[..j]) == Ok(Latest(log[..j]))
    ensures SnapshotAccepted(Latest(log[..j]), log[j].operation)
  {
    ReplayPrefix(log, j + 1);
    LastWasAccepted(log[..j + 1]);
    assert log[..j + 1][..j] == log[..j];
    ReplayIsLatest(log[..j]);
  }

  lemma {:induction false} LatestObeysLaw(log: seq<Record>, i: nat)
    requires i < |log| && Replay(log).Ok?
    ensures var plan := log[i].operation.intent.planId;
            plan in Latest(log) && HistoryLaw(log[i].operation, Latest(log)[plan])
  {
    var before := log[..|log| - 1];
    ReplayIsLatest(before);
    if i < |log| - 1 {
      LatestObeysLaw(before, i);
      var plan, last := log[i].operation.intent.planId, log[|log| - 1].operation;
      if last.intent.planId == plan {
        StepObeysLaw(Latest(before)[plan], last);
        LawIsTransitive(log[i].operation, Latest(before)[plan], last);
      }
    }
  }

  /** Between any two records of one plan: dispatch flags never regress; price, target and operator
      evidence never change once set; a known CEX result or recovery attempt is final; a known DEX
      result is final except for the operator correction. */
  lemma HistoryIsKept(log: seq<Record>, i: nat, j: nat)
    requires i < j < |log| && Replay(log).Ok?
    requires log[i].operation.intent.planId == log[j].operation.intent.planId
    ensures HistoryLaw(log[i].operation, log[j].operation)
  {
    RecordWasAccepted(log, j);
    var before, plan := log[..j], log[i].operation.intent.planId;
    assert before[i] == log[i];
    LatestObeysLaw(before, i);
    StepObeysLaw(Latest(before)[plan], log[j].operation);
    LawIsTransitive(log[i].operation, Latest(before)[plan], log[j].operation);
  }

  lemma {:induction false} TerminalThenCorrected(log: seq<Record>, i: nat)
    requires i < |log| && Replay(log).Ok? && log[i].operation.stage.Terminal()
    ensures var plan := log[i].operation.intent.planId;
            && plan in Latest(log) && Latest(log)[plan].stage.Terminal()
            && ((exists j | i < j < |log| :: log[j].operation.intent.planId == plan) ==>
                  Latest(log)[plan].operatorRecovery.Some?)
  {
    var before := log[..|log| - 1];
    ReplayIsLatest(before);
    if i < |log| - 1 {
      TerminalThenCorrected(before, i);
      var plan, last := log[i].operation.intent.planId, log[|log| - 1].operation;
      if last.intent.planId == plan {
        assert OperatorCorrection(Latest(before)[plan], last);
      } else if j :| i < j < |log| && log[j].operation.intent.planId == plan {
        assert before[j] == log[j];
      }
    }
  }

  /** At most one record follows a plan's first terminal record. */
  lemma AtMostOneRecordAfterTerminal(log: seq<Record>, i: nat, j: nat, k: nat)
    requires i < j < k < |log| && Replay(log).Ok?
    requires log[i].operation.intent.planId == log[j].operation.intent.planId == log[k].operation.intent.planId
    ensures !log[i].operation.stage.Terminal()
  {
    RecordWasAccepted(log, k);
    var before := log[..k];
    assert before[i] == log[i] && before[j] == log[j];
    if log[i].operation.stage.Terminal() {
      TerminalThenCorrected(before, i);
    }
  }

  /** ... and that record is the operator correction of the terminal record. */
  lemma OnlyACorrectionFollowsTerminal(log: seq<Record>, i: nat, j: nat)
    requires i < j < |log| && Replay(log).Ok?
    requires log[i].operation.intent.planId == log[j].operation.intent.planId
    requires log[i].operation.stage.Terminal()
    ensures OperatorCorrection(log[i].operation, log[j].operation)
  {
    RecordWasAccepted(log, j);
    var before := log[..j];
    assert before[i] == log[i];
    AppearsInLatest(before, i);
    var k := LastOfPlan(before, log[i].operation.intent.planId);
    assert before[k] == log[k];
    assert k == i by {
      if k > i { AtMostOneRecordAfterTerminal(log, i, k, j); }
    }
  }

  // ---------------------------------------------------------------- stages

  // From where each stage may be entered.
  function EnteredFrom(stage: Stage): set<Stage> {
    match stage
    case Prepared => {}
    case Executing => {Prepared, UnknownExposure}
    case Recovering => {Executing, UnknownExposure, Halted}
    case UnknownExposure => {Executing, Recovering}
    case Halted => {Executing, Recovering, UnknownExposure}
    case _ => {Executing, Recovering, Halted}
  }

  lemma StageTableExactly(previous: Stage, next: Stage)
    ensures StageTransitionAllowed(previous, next) <==> previous == next || previous in EnteredFrom(next)
  {
  }

  /** In any log that replays a plan starts prepared, and every later record keeps its stage or enters the next
      one from where it may be entered: never back to prepared, never from an unknown outcome straight to
      closed; only the operator correction leaves a closed stage. */
  lemma StagesAreEnteredInOrder(log: seq<Record>, j: nat)
    requires j < |log| && Replay(log).Ok?
    ensures var op, before := log[j].operation, Latest(log[..j]);
            if op.intent.planId !in before then op.stage.Prepared?
            else
              var previous := before[op.intent.planId];
              || OperatorCorrection(previous, op)
              || (!previous.stage.Terminal() && (op.stage == previous.stage || previous.stage in EnteredFrom(op.stage)))
  {
    RecordWasAccepted(log, j);
    var op, before := log[j].operation, Latest(log[..j]);
    if op.intent.planId in before { StageTableExactly(before[op.intent.planId].stage, op.stage); }
  }
}
