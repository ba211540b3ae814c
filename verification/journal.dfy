/** The append-only trade journal: the guard on every snapshot, the durable log, the live state kept
    beside it, and replay at restart. */
module Journal {
  import opened Machine
  import opened Trade

  // ---------------------------------------------------------------- the guard on history

  predicate StageTransitionAllowed(previous: Stage, next: Stage) {
    || previous == next
    || (match previous
        case Prepared => next.Executing?
        case Executing => next.Recovering? || next.Terminal() || next.UnknownExposure? || next.Halted?
        case Recovering => next.Terminal() || next.UnknownExposure? || next.Halted?
        case UnknownExposure => next.Executing? || next.Recovering? || next.Halted?
        case Halted => next.Recovering? || next.Terminal()
        case _ => false)
  }

  predicate UnchangedOrReconciled(previous: Option<LegResult>, next: Option<LegResult>) {
    || previous == next
    || (IsUnknown(previous) && next.Some? && !next.value.status.Unknown?)
    || previous.None?
  }

  predicate AppendOnlyOrReconciled(previous: seq<LegResult>, next: seq<LegResult>) {
    || previous <= next
    || (&& |previous| == |next| > 0
        && previous[..|previous| - 1] == next[..|next| - 1]
        && previous[|previous| - 1].status.Unknown?
        && !next[|next| - 1].status.Unknown?)
  }

  // The one-shot repair of a terminal record whose DEX leg was mislabeled as an expired plan.
  predicate OperatorCorrection(previous: TradeOperation, next: TradeOperation) {
    && previous.stage.Terminal() && previous.operatorRecovery.None? && next.operatorRecovery.Some?
    && previous.dexDispatched && !previous.cexDispatched
    && previous.cexResult.None? && next.cexResult.None?
    && previous.recoveryResults == [] && |next.recoveryResults| == 1
    && previous.dexResult.Some? && previous.dexResult.value.status.Failed?
    && previous.dexResult.value.venueReference == "dex:expired-plan"
    && next.dexResult.Some? && next.dexResult.value.status.Filled?
    && next.recoveryResults[0].status.Filled?
    && next.stage.Terminal() && next.result.Some? && TokenBResidual(next) == 0
  }

  predicate KeptOnceSet<T(==)>(previous: Option<T>, next: Option<T>) {
    previous.None? || previous == next
  }

  predicate TransitionAccepted(previous: TradeOperation, next: TradeOperation) {
    var correction := OperatorCorrection(previous, next);
    && previous.intent == next.intent
    && (!previous.stage.Terminal() || correction)
    && (correction || StageTransitionAllowed(previous.stage, next.stage))
    && (previous.dexDispatched ==> next.dexDispatched)
    && (previous.cexDispatched ==> next.cexDispatched)
    && KeptOnceSet(previous.cexLimitPrice, next.cexLimitPrice)
    && KeptOnceSet(previous.recoveryTarget, next.recoveryTarget)
    && (correction || UnchangedOrReconciled(previous.dexResult, next.dexResult))
    && UnchangedOrReconciled(previous.cexResult, next.cexResult)
    && AppendOnlyOrReconciled(previous.recoveryResults, next.recoveryResults)
    && KeptOnceSet(previous.operatorRecovery, next.operatorRecovery)
  }

  type Operations = map<string, TradeOperation>

  predicate SnapshotAccepted(operations: Operations, op: TradeOperation) {
    && ValidOperation(op)
    && (if op.intent.planId in operations
        then TransitionAccepted(operations[op.intent.planId], op)
        else op.stage.Prepared?)
  }

  // ---------------------------------------------------------------- durable log and replay

  datatype Record = Record(sequence: U64, recordedAt: U64, operation: TradeOperation)

  /** How one write-and-sync ended. A failed write may have left nothing, a partial line or,
      when only the sync failed, the whole record. */
  datatype WriteOutcome = Synced | FailedBefore | FailedTorn | FailedAfter

  /** Everything a call learns from outside: two clock readings, the encoded size and the disk. */
  datatype Environment = Environment(
    clock: Option<U64>, recordClock: Option<U64>, fitsLine: bool, write: WriteOutcome)

  // Last record of every plan.
  function Latest(log: seq<Record>): Operations {
    if log == [] then map[] else
      var op := log[|log| - 1].operation;
      Latest(log[..|log| - 1])[op.intent.planId := op]
  }

  function Replay(log: seq<Record>): Result<Operations, TradeError> {
    if log == [] then Ok(map[]) else
      var last := log[|log| - 1];
      var before := Replay(log[..|log| - 1]);
      if before.Err? then before
      else if last.sequence != |log| - 1 then Err(SequenceMismatch)
      else if !ValidOperation(last.operation) then Err(InvalidOperation)
      else if !SnapshotAccepted(before.value, last.operation) then Err(TransitionRefused)
      else if |log| > U64_MAX then Err(SequenceOverflow)
      else Ok(before.value[last.operation.intent.planId := last.operation])
  }

  lemma {:induction false} ReplayIsLatest(log: seq<Record>)
    ensures Replay(log).Ok? ==> Replay(log).value == Latest(log)
  {
    if log != [] { ReplayIsLatest(log[..|log| - 1]); }
  }

  /** A log that replays is numbered from zero without a gap, and every record in it is valid. */
  lemma {:induction false} ReplayedIsNumbered(log: seq<Record>, k: nat)
    requires Replay(log).Ok? && k < |log|
    ensures log[k].sequence == k && ValidOperation(log[k].operation)
  {
    if k < |log| - 1 { ReplayedIsNumbered(log[..|log| - 1], k); }
  }

  // Any prefix of a log that replays also replays: a crash can only shorten it.
  lemma {:induction false} ReplayPrefix(log: seq<Record>, n: nat)
    requires n <= |log|
    requires Replay(log).Ok?
    ensures Replay(log[..n]).Ok?
  {
    if n == |log| {
      assert log[..n] == log;
    } else {
      ReplayPrefix(log[..|log| - 1], n);
      assert log[..|log| - 1][..n] == log[..n];
    }
  }

  // ---------------------------------------------------------------- incremental indexes

  function UnresolvedStrategy(op: TradeOperation): Option<string> {
    if op.stage.Unresolved() && op.intent.scope.Some? then Some(op.intent.scope.value.strategyId) else None
  }

  function ActivePlans(operations: Operations): set<string> {
    set p | p in operations && !operations[p].stage.Terminal()
  }

  function UnresolvedPlans(operations: Operations, strategy: string): set<string> {
    set p | p in operations && UnresolvedStrategy(operations[p]) == Some(strategy)
  }

  // Every strategy with unresolved exposure is listed with its count, and no other.
  ghost predicate IndexExact(operations: Operations, index: map<string, nat>) {
    forall strategy: string :: IndexEntryExact(operations, index, strategy)
  }

  function IndexDecremented(index: map<string, nat>, strategy: string): map<string, nat> {
    if strategy !in index then index
    else if index[strategy] <= 1 then index - {strategy}
    else index[strategy := index[strategy] - 1]
  }

  function IndexIncremented(index: map<string, nat>, strategy: string): map<string, nat> {
    index[strategy := (if strategy in index then index[strategy] else 0) + 1]
  }

  function UpdatedIndex(index: map<string, nat>, previous: Option<TradeOperation>, next: TradeOperation)
    : map<string, nat>
  {
    var left := if previous.Some? && UnresolvedStrategy(previous.value).Some?
                then IndexDecremented(index, UnresolvedStrategy(previous.value).value) else index;
    if UnresolvedStrategy(next).Some? then IndexIncremented(left, UnresolvedStrategy(next).value) else left
  }

  function Lookup(operations: Operations, plan: string): Option<TradeOperation> {
    if plan in operations then Some(operations[plan]) else None
  }

  function UpdatedCount(count: nat, previous: Option<TradeOperation>, next: TradeOperation): Option<nat> {
    var wasActive := previous.Some? && !previous.value.stage.Terminal();
    var isActive := !next.stage.Terminal();
    if !wasActive && isActive then Some(count + 1)
    else if wasActive && !isActive then if count == 0 then None else Some(count - 1)
    else Some(count)
  }

  lemma SizeAfterChange(before: set<string>, after: set<string>, plan: string)
    requires forall p | p != plan :: p in before <==> p in after
    ensures |after| == |before| - One(plan in before) + One(plan in after)
  {
    var others := before - {plan};
    assert after - {plan} == others;
    assert |before| == |others| + One(plan in before) by {
      assert before == if plan in before then others + {plan} else others;
    }
    assert |after| == |others| + One(plan in after) by {
      assert after == if plan in after then others + {plan} else others;
    }
  }

  ghost predicate IndexEntryExact(operations: Operations, index: map<string, nat>, strategy: string) {
    var n := |UnresolvedPlans(operations, strategy)|;
    if n == 0 then strategy !in index else strategy in index && index[strategy] == n
  }

  lemma IndexEntryStaysExact(
    operations: Operations, index: map<string, nat>, plan: string, op: TradeOperation, strategy: string)
    requires IndexEntryExact(operations, index, strategy)
    ensures IndexEntryExact(operations[plan := op], UpdatedIndex(index, Lookup(operations, plan), op), strategy)
  {
    var before, after := UnresolvedPlans(operations, strategy), UnresolvedPlans(operations[plan := op], strategy);
    SizeAfterChange(before, after, plan);
    assert plan in before <==> plan in operations && UnresolvedStrategy(operations[plan]) == Some(strategy);
    assert plan in after <==> UnresolvedStrategy(op) == Some(strategy);
  }

  lemma IndexStaysExact(operations: Operations, index: map<string, nat>, plan: string, op: TradeOperation)
    requires IndexExact(operations, index)
    ensures IndexExact(operations[plan := op], UpdatedIndex(index, Lookup(operations, plan), op))
  {
    var after, updated := operations[plan := op], UpdatedIndex(index, Lookup(operations, plan), op);
    forall strategy: string
      ensures IndexEntryExact(after, updated, strategy)
    {
      IndexEntryStaysExact(operations, index, plan, op, strategy);
    }
  }

  lemma CountStaysExact(operations: Operations, count: nat, plan: string, op: TradeOperation)
    requires count == |ActivePlans(operations)|
    ensures UpdatedCount(count, Lookup(operations, plan), op) == Some(|ActivePlans(operations[plan := op])|)
  {
    SizeAfterChange(ActivePlans(operations), ActivePlans(operations[plan := op]), plan);
  }

  // ---------------------------------------------------------------- live state

  datatype JournalState = JournalState(
    operations: Operations, activeCount: nat, unresolved: map<string, nat>,
    nextSequence: U64, poisoned: bool, durable: seq<Record>, torn: bool)

  const EMPTY := JournalState(map[], 0, map[], 0, false, [], false)

  datatype Appended = Appended(state: JournalState, error: Option<TradeError>)

  function Commit(s: JournalState, op: TradeOperation, count: nat, record: Record): Appended {
    var next := s.(operations := s.operations[op.intent.planId := op],
                   activeCount := count,
                   unresolved := UpdatedIndex(s.unresolved, Lookup(s.operations, op.intent.planId), op),
                   durable := s.durable + [record]);
    if s.nextSequence == U64_MAX then Appended(next, Some(SequenceOverflow))
    else Appended(next.(nextSequence := s.nextSequence + 1), None)
  }

  // The checks made before anything is written.
  function AppendRefusal(s: JournalState, op: TradeOperation, env: Environment): Option<TradeError> {
    if s.poisoned then Some(JournalPoisoned)
    else if !ValidOperation(op) then Some(InvalidOperation)
    else if env.recordClock.None? then Some(ClockUnavailable)
    else if !SnapshotAccepted(s.operations, op) then Some(TransitionRefused)
    else if UpdatedCount(s.activeCount, Lookup(s.operations, op.intent.planId), op).None?
    then Some(ActiveCountUnderflow)
    else if !env.fitsLine then Some(RecordTooLarge)
    else None
  }

  function Persist(s: JournalState, op: TradeOperation, count: nat, record: Record, write: WriteOutcome): Appended {
    match write
    case FailedBefore => Appended(s.(poisoned := true), Some(WriteFailed))
    case FailedTorn => Appended(s.(poisoned := true, torn := true), Some(WriteFailed))
    case FailedAfter => Appended(s.(poisoned := true, durable := s.durable + [record]), Some(WriteFailed))
    case Synced => Commit(s, op, count, record)
  }

  function AppendTo(s: JournalState, op: TradeOperation, env: Environment): Appended {
    if AppendRefusal(s, op, env).Some? then Appended(s, AppendRefusal(s, op, env)) else
      Persist(s, op, UpdatedCount(s.activeCount, Lookup(s.operations, op.intent.planId), op).value,
              Record(s.nextSequence, env.recordClock.value, Erase(op)), env.write)
  }

  // Operations and log after an append: as before, or with exactly one record more.
  predicate OneRecordMore(s: JournalState, op: TradeOperation, record: Record, after: JournalState) {
    after.durable == s.durable + [record]
    && (after.operations == s.operations || after.operations == s.operations[op.intent.planId := op])
  }

  lemma PersistAddsOneRecord(s: JournalState, op: TradeOperation, count: nat, record: Record, write: WriteOutcome)
    ensures var after := Persist(s, op, count, record, write).state;
            (after.operations == s.operations && after.durable == s.durable) || OneRecordMore(s, op, record, after)
  {
  }

  // An append either leaves operations and log alone or adds exactly one record.
  lemma AppendAddsOneRecord(s: JournalState, op: TradeOperation, env: Environment)
    ensures var after := AppendTo(s, op, env).state;
            || (after.operations == s.operations && after.durable == s.durable)
            || (&& !s.poisoned && env.recordClock.Some? && ValidOperation(op)
                && OneRecordMore(s, op, Record(s.nextSequence, env.recordClock.value, Erase(op)), after))
  {
    var refusal := AppendRefusal(s, op, env);
    if refusal.None? {
      PersistAddsOneRecord(s, op, UpdatedCount(s.activeCount, Lookup(s.operations, op.intent.planId), op).value,
                           Record(s.nextSequence, env.recordClock.value, Erase(op)), env.write);
    }
  }

  lemma LatestAfter(log: seq<Record>, record: Record)
    ensures Latest(log + [record]) == Latest(log)[record.operation.intent.planId := record.operation]
  {
  }

  lemma {:induction false} AppearsInLatest(log: seq<Record>, j: nat)
    requires j < |log|
    ensures log[j].operation.intent.planId in Latest(log)
  {
    if j < |log| - 1 { AppearsInLatest(log[..|log| - 1], j); }
  }

  // Where a plan's last record is.
  lemma {:induction false} LastOfPlan(log: seq<Record>, plan: string) returns (k: nat)
    requires plan in Latest(log)
    ensures k < |log| && log[k].operation == Latest(log)[plan] && log[k].operation.intent.planId == plan
    ensures forall j | k < j < |log| :: log[j].operation.intent.planId != plan
  {
    if log[|log| - 1].operation.intent.planId == plan {
      k := |log| - 1;
    } else {
      k := LastOfPlan(log[..|log| - 1], plan);
    }
  }

  function EraseAll(operations: Operations): Operations {
    map p | p in operations :: Erase(operations[p])
  }

  // What opening a journal makes of the log a previous process left behind.
  function Reopened(durable: seq<Record>, torn: bool): Result<JournalState, TradeError> {
    if Replay(durable).Err? then Err(Replay(durable).error)
    else if torn then Err(TornJournal)
    else
      var operations := Replay(durable).value;
      Ok(JournalState(operations, |ActivePlans(operations)|, RebuiltIndex(operations),
                      |durable|, false, durable, false))
  }

  function UnresolvedStrategies(operations: Operations): set<string> {
    set p | p in operations && UnresolvedStrategy(operations[p]).Some? :: UnresolvedStrategy(operations[p]).value
  }

  function RebuiltIndex(operations: Operations): (index: map<string, nat>)
  {
    map strategy | strategy in UnresolvedStrategies(operations) :: |UnresolvedPlans(operations, strategy)|
  }

  lemma RebuiltIndexIsExact(operations: Operations)
    ensures IndexExact(operations, RebuiltIndex(operations))
  {
    var index := RebuiltIndex(operations);
    forall strategy: string
      ensures IndexEntryExact(operations, index, strategy)
    {
      if strategy in UnresolvedStrategies(operations) {
        var p :| p in operations && UnresolvedStrategy(operations[p]) == Some(strategy);
        assert p in UnresolvedPlans(operations, strategy);
      }
    }
  }

  // Only one index is exact, so the incremental one equals its recomputation.
  lemma ExactIndexIsUnique(operations: Operations, a: map<string, nat>, b: map<string, nat>)
    requires IndexExact(operations, a) && IndexExact(operations, b)
    ensures a == b
  {
    forall strategy: string
      ensures strategy in a <==> strategy in b
      ensures strategy in a ==> a[strategy] == b[strategy]
    {
      assert IndexEntryExact(operations, a, strategy) && IndexEntryExact(operations, b, strategy);
    }
  }

  // Reading a record back can never produce a field that was not written.
  predicate Serialized(log: seq<Record>) {
    forall i {:trigger Erase(log[i].operation)} | 0 <= i < |log| :: Erase(log[i].operation) == log[i].operation
  }

  // Both in-memory indexes equal what they count.
  ghost predicate Indexed(operations: Operations, activeCount: nat, unresolved: map<string, nat>) {
    activeCount == |ActivePlans(operations)| && IndexExact(operations, unresolved)
  }

  // Past the last sequence number a log can no longer be replayed.
  predicate Replayable(log: seq<Record>) { Serialized(log) && (|log| <= U64_MAX ==> Replay(log).Ok?) }

  // A journal that still accepts appends is in step with its log.
  predicate InStep(s: JournalState) {
    && Latest(s.durable) == EraseAll(s.operations)
    && s.nextSequence == if |s.durable| <= U64_MAX then |s.durable| else U64_MAX
  }

  /** The live journal and its log agree. */
  ghost predicate Coherent(s: JournalState) {
    && Indexed(s.operations, s.activeCount, s.unresolved)
    && Replayable(s.durable)
    && (s.torn ==> s.poisoned)
    && (forall p | p in s.operations :: s.operations[p].intent.planId == p)
    && (!s.poisoned ==> InStep(s))
  }

  lemma AppendOnlySurvivesErasure(previous: seq<LegResult>, next: seq<LegResult>)
    requires AppendOnlyOrReconciled(previous, next)
    ensures AppendOnlyOrReconciled(EraseSeq(previous), EraseSeq(next))
  {
  }

  lemma CorrectionSurvivesErasure(previous: TradeOperation, next: TradeOperation)
    requires OperatorCorrection(previous, next)
    ensures OperatorCorrection(Erase(previous), Erase(next))
  {
    EraseKeepsAccounting(next);
  }

  lemma TransitionSurvivesErasure(previous: TradeOperation, next: TradeOperation)
    requires TransitionAccepted(previous, next)
    ensures TransitionAccepted(Erase(previous), Erase(next))
  {
    AppendOnlySurvivesErasure(previous.recoveryResults, next.recoveryResults);
    if OperatorCorrection(previous, next) {
      CorrectionSurvivesErasure(previous, next);
    }
  }

  lemma SnapshotSurvivesErasure(operations: Operations, op: TradeOperation)
    requires SnapshotAccepted(operations, op)
    ensures SnapshotAccepted(EraseAll(operations), Erase(op))
  {
    EraseKeepsValidity(op);
    if op.intent.planId in operations {
      TransitionSurvivesErasure(operations[op.intent.planId], op);
    }
  }

  lemma EraseAllAfter(operations: Operations, op: TradeOperation)
    ensures EraseAll(operations[op.intent.planId := op]) == EraseAll(operations)[op.intent.planId := Erase(op)]
  {
  }

  lemma SerializedOneMore(log: seq<Record>, record: Record, op: TradeOperation)
    requires Serialized(log) && record.operation == Erase(op)
    ensures Serialized(log + [record])
  {
    EraseIsIdempotent(op);
    assert forall j | 0 <= j < |log| :: (log + [record])[j] == log[j];
  }

  // One more record, checked against the operations the log replays to.
  lemma ReplayOneMore(log: seq<Record>, record: Record)
    requires Replay(log).Ok? && record.sequence == |log| < U64_MAX && SnapshotAccepted(Latest(log), record.operation)
    ensures Replay(log + [record]).Ok?
  {
    ReplayIsLatest(log);
    assert (log + [record])[..|log|] == log;
  }

  lemma ReplayExtends(s: JournalState, op: TradeOperation, record: Record)
    requires Replayable(s.durable) && InStep(s) && SnapshotAccepted(s.operations, op)
    requires record.sequence == s.nextSequence && record.operation == Erase(op)
    ensures Replayable(s.durable + [record])
    ensures Latest(s.durable + [record]) == EraseAll(s.operations[op.intent.planId := op])
  {
    SnapshotSurvivesErasure(s.operations, op);
    SerializedOneMore(s.durable, record, op);
    LatestAfter(s.durable, record);
    EraseAllAfter(s.operations, op);
    if |s.durable| < U64_MAX { ReplayOneMore(s.durable, record); }
  }

  lemma CommitStaysIndexed(s: JournalState, op: TradeOperation)
    requires Indexed(s.operations, s.activeCount, s.unresolved)
    ensures var next := s.operations[op.intent.planId := op];
            Indexed(next, |ActivePlans(next)|, UpdatedIndex(s.unresolved, Lookup(s.operations, op.intent.planId), op))
  {
    IndexStaysExact(s.operations, s.unresolved, op.intent.planId, op);
  }

  lemma CommitIsInStep(s: JournalState, op: TradeOperation, count: nat, record: Record)
    requires InStep(s) && Latest(s.durable + [record]) == EraseAll(s.operations[op.intent.planId := op])
    ensures InStep(Commit(s, op, count, record).state)
  {
  }

  lemma CommitKeepsCoherence(s: JournalState, op: TradeOperation, record: Record)
    requires Coherent(s) && !s.poisoned && Replayable(s.durable + [record])
    requires Latest(s.durable + [record]) == EraseAll(s.operations[op.intent.planId := op])
    ensures Coherent(Commit(s, op, |ActivePlans(s.operations[op.intent.planId := op])|, record).state)
  {
    CommitStaysIndexed(s, op);
    CommitIsInStep(s, op, |ActivePlans(s.operations[op.intent.planId := op])|, record);
  }

  lemma PersistKeepsCoherence(s: JournalState, op: TradeOperation, record: Record, write: WriteOutcome)
    requires Coherent(s) && !s.poisoned && SnapshotAccepted(s.operations, op)
    requires record.sequence == s.nextSequence && record.operation == Erase(op)
    ensures Coherent(Persist(s, op, |ActivePlans(s.operations[op.intent.planId := op])|, record, write).state)
  {
    ReplayExtends(s, op, record);
    if write.Synced? { CommitKeepsCoherence(s, op, record); }
  }

  /** Every append, whatever it carries and however the disk answers, keeps log, live operations
      and both indexes in agreement. */
  lemma AppendKeepsCoherence(s: JournalState, op: TradeOperation, env: Environment)
    requires Coherent(s)
    ensures Coherent(AppendTo(s, op, env).state)
    ensures AppendTo(s, op, env).error != Some(ActiveCountUnderflow)
  {
    CountStaysExact(s.operations, s.activeCount, op.intent.planId, op);
    if AppendRefusal(s, op, env).None? {
      PersistKeepsCoherence(s, op, Record(s.nextSequence, env.recordClock.value, Erase(op)), env.write);
    }
  }

  lemma {:induction false} LatestIsKeyedAndErased(log: seq<Record>)
    requires Serialized(log)
    ensures forall p | p in Latest(log) :: Latest(log)[p].intent.planId == p
    ensures EraseAll(Latest(log)) == Latest(log)
  {
    if log != [] { LatestIsKeyedAndErased(log[..|log| - 1]); }
  }

  lemma ReopenedIsCoherent(durable: seq<Record>, torn: bool)
    requires Serialized(durable)
    ensures Reopened(durable, torn).Ok? ==> Coherent(Reopened(durable, torn).value)
  {
    if Reopened(durable, torn).Ok? {
      RebuiltIndexIsExact(Replay(durable).value);
      ReplayIsLatest(durable);
      LatestIsKeyedAndErased(durable);
    }
  }

  // ---------------------------------------------------------------- replay refines the live state

  lemma IndexIgnoresErasure(operations: Operations, index: map<string, nat>)
    requires IndexExact(operations, index)
    ensures IndexExact(EraseAll(operations), index)
  {
    forall strategy: string
      ensures IndexEntryExact(EraseAll(operations), index, strategy)
    {
      assert IndexEntryExact(operations, index, strategy);
      assert UnresolvedPlans(EraseAll(operations), strategy) == UnresolvedPlans(operations, strategy);
    }
  }

  /** Reopening the log rebuilds the live state: the same operations without the fields the journal
      does not store, the same next sequence, the same active count and the same unresolved index. */
  lemma ReopenRestoresLive(s: JournalState)
    requires Coherent(s) && !s.poisoned && |s.durable| <= U64_MAX
    ensures Reopened(s.durable, s.torn) == Ok(s.(operations := EraseAll(s.operations)))
  {
    var operations := EraseAll(s.operations);
    ReplayIsLatest(s.durable);
    assert ActivePlans(operations) == ActivePlans(s.operations);
    IndexIgnoresErasure(s.operations, s.unresolved);
    RebuiltIndexIsExact(operations);
    ExactIndexIsUnique(operations, s.unresolved, RebuiltIndex(operations));
  }

  datatype Submission = Submission(operation: TradeOperation, env: Environment)

  function AppendAll(s: JournalState, submissions: seq<Submission>): JournalState
    decreases |submissions|
  {
    if submissions == [] then s
    else AppendAll(AppendTo(s, submissions[0].operation, submissions[0].env).state, submissions[1..])
  }

  lemma {:induction false} AppendsKeepCoherence(s: JournalState, submissions: seq<Submission>)
    requires Coherent(s)
    ensures Coherent(AppendAll(s, submissions))
    decreases |submissions|
  {
    if submissions != [] {
      AppendKeepsCoherence(s, submissions[0].operation, submissions[0].env);
      AppendsKeepCoherence(AppendTo(s, submissions[0].operation, submissions[0].env).state, submissions[1..]);
    }
  }

  lemma EmptyIsCoherent()
    ensures Coherent(EMPTY)
  {
  }

  /** After any appends, accepted or refused, a journal that is not poisoned is refined by its log. */
  lemma ReplayRefinesLive(submissions: seq<Submission>)
    ensures var s := AppendAll(EMPTY, submissions);
            !s.poisoned && |s.durable| <= U64_MAX ==>
              Reopened(s.durable, s.torn) == Ok(s.(operations := EraseAll(s.operations)))
  {
    EmptyIsCoherent();
    AppendsKeepCoherence(EMPTY, submissions);
    var s := AppendAll(EMPTY, submissions);
    if !s.poisoned && |s.durable| <= U64_MAX { ReopenRestoresLive(s); }
  }

  /** On a coherent journal an append succeeds if and only if the journal is healthy, the guard accepts the
      snapshot, a clock and a sequence number are left, the record fits a line and the disk takes it. Whatever
      is refused before the write changes nothing. */
  lemma AppendSucceedsExactly(s: JournalState, op: TradeOperation, env: Environment)
    requires Coherent(s)
    ensures var attempted := !s.poisoned && SnapshotAccepted(s.operations, op) && env.recordClock.Some? && env.fitsLine;
            && (AppendTo(s, op, env).error.None? <==> attempted && env.write.Synced? && s.nextSequence < U64_MAX)
            && (!attempted ==> AppendTo(s, op, env).state == s)
            && (attempted && !env.write.Synced? ==>
                  && AppendTo(s, op, env).error == Some(WriteFailed) && AppendTo(s, op, env).state.poisoned
                  && (AppendTo(s, op, env).state.torn <==> s.torn || env.write.FailedTorn?))
  {
    CountStaysExact(s.operations, s.activeCount, op.intent.planId, op);
  }

  // ---------------------------------------------------------------- the journal object

  datatype StrategyCounts = StrategyCounts(admitted: nat, active: nat, failed: nat, unresolved: nat)

  datatype StrategyRisk = StrategyRisk(
    counts: StrategyCounts, notional: U128, realizedLoss: U128, firstAdmitted: Option<U64>)

  function StrategyPlans(operations: Operations, strategy: string): set<string> {
    set p | p in operations && operations[p].intent.scope.Some?
      && operations[p].intent.scope.value.strategyId == strategy
  }

  function InFlightPlans(operations: Operations, strategy: string): set<string> {
    set p | p in StrategyPlans(operations, strategy) && operations[p].stage.InFlight()
  }

  function FailedPlans(operations: Operations, strategy: string): set<string> {
    set p | p in StrategyPlans(operations, strategy)
      && (operations[p].stage.BalancedLoss? || operations[p].stage.Unresolved())
  }

  // The four counters of a strategy, by definition rather than by scan.
  function CountsOf(operations: Operations, strategy: string): StrategyCounts {
    StrategyCounts(|StrategyPlans(operations, strategy)|, |InFlightPlans(operations, strategy)|,
                   |FailedPlans(operations, strategy)|, |UnresolvedPlans(operations, strategy)|)
  }

  /** Every plan of a strategy is counted once as active, closed or unresolved; failed are those closed as a loss
      and the unresolved ones, which are parked or halted. */
  lemma CountsPartition(operations: Operations, strategy: string, p: string)
    requires p in operations && OfStrategy(operations[p], strategy)
    ensures var stage := operations[p].stage;
            && p in StrategyPlans(operations, strategy)
            && (p in InFlightPlans(operations, strategy) <==> stage in {Prepared, Executing, Recovering})
            && (p in UnresolvedPlans(operations, strategy) <==> stage in {UnknownExposure, Halted})
            && (p in FailedPlans(operations, strategy) <==> stage in {BalancedLoss, UnknownExposure, Halted})
            && (p in ActivePlans(operations) <==> stage !in {BalancedProfit, BalancedLoss})
  {
  }

  predicate OfStrategy(op: TradeOperation, strategy: string) {
    op.intent.scope.Some? && op.intent.scope.value.strategyId == strategy
  }

  function AdmittedNotional(op: TradeOperation): nat { Abs(op.intent.expectedCost) }

  // The loss of a finished trade: comparable profit where it was recorded, realized profit otherwise.
  function LossOf(op: TradeOperation): nat {
    if op.result.None? then 0 else
      var r := op.result.value;
      var profit := if r.comparableProfit != 0 || r.residualValue != 0 then r.comparableProfit else r.realizedProfit;
      if profit < 0 then Abs(profit) else 0
  }

  // The sum of an amount over the operations of a strategy.
  ghost function TotalOver(operations: Operations, strategy: string, amount: TradeOperation -> nat): nat
    decreases |operations|
  {
    if operations == map[] then 0 else
      var p :| p in operations;
      (if OfStrategy(operations[p], strategy) then amount(operations[p]) else 0)
      + TotalOver(operations - {p}, strategy, amount)
  }

  lemma {:induction false} TotalSplits(operations: Operations, strategy: string, amount: TradeOperation -> nat,
                                       p: string)
    requires p in operations
    ensures TotalOver(operations, strategy, amount)
         == (if OfStrategy(operations[p], strategy) then amount(operations[p]) else 0)
            + TotalOver(operations - {p}, strategy, amount)
    decreases |operations|
  {
    var pick :| pick in operations && TotalOver(operations, strategy, amount)
                == (if OfStrategy(operations[pick], strategy) then amount(operations[pick]) else 0)
                   + TotalOver(operations - {pick}, strategy, amount);
    if pick != p {
      TotalSplits(operations - {pick}, strategy, amount, p);
      TotalSplits(operations - {p}, strategy, amount, pick);
      assert operations - {pick} - {p} == operations - {p} - {pick};
    }
  }

  lemma TotalOneMore(operations: Operations, strategy: string, amount: TradeOperation -> nat, rest: set<string>,
                     p: string)
    requires rest <= operations.Keys && p in rest
    ensures TotalOver(operations - (rest - {p}), strategy, amount)
         == TotalOver(operations - rest, strategy, amount)
            + if OfStrategy(operations[p], strategy) then amount(operations[p]) else 0
  {
    var more := operations - (rest - {p});
    TotalSplits(more, strategy, amount, p);
    assert more - {p} == operations - rest;
  }

  lemma {:induction false} TotalOfPart(operations: Operations, strategy: string, amount: TradeOperation -> nat,
                                       rest: set<string>)
    requires rest <= operations.Keys
    ensures TotalOver(operations - rest, strategy, amount) <= TotalOver(operations, strategy, amount)
    decreases |rest|
  {
    if rest == {} {
      assert operations - rest == operations;
    } else {
      var p :| p in rest;
      TotalOneMore(operations, strategy, amount, rest, p);
      TotalOfPart(operations, strategy, amount, rest - {p});
    }
  }

  lemma PartialTotal(operations: Operations, strategy: string, amount: TradeOperation -> nat, rest: set<string>,
                     p: string)
    requires rest <= operations.Keys && p in rest
    ensures TotalOver(operations - rest, strategy, amount)
            + (if OfStrategy(operations[p], strategy) then amount(operations[p]) else 0)
         == TotalOver(operations - (rest - {p}), strategy, amount) <= TotalOver(operations, strategy, amount)
  {
    TotalOneMore(operations, strategy, amount, rest, p);
    TotalOfPart(operations, strategy, amount, rest - {p});
  }

  // The earliest positive receipt time among the operations of a strategy.
  ghost predicate IsFirst(operations: Operations, strategy: string, first: Option<U64>) {
    && (first.Some? ==> exists p | p in operations :: OfStrategy(operations[p], strategy)
                          && operations[p].intent.receivedUs == first.value > 0)
    && forall p | p in operations && OfStrategy(operations[p], strategy) && operations[p].intent.receivedUs > 0 ::
         first.Some? && first.value <= operations[p].intent.receivedUs
  }

  function Verdict(error: Option<TradeError>): Result<(), TradeError> {
    if error.Some? then Err(error.value) else Ok(())
  }

  class TradeJournal {
    var operations: Operations
    var activeOperationCount: nat
    var unresolvedByStrategy: map<string, nat>
    var nextSequence: U64
    var poisoned: bool
    ghost var durable: seq<Record>
    ghost var torn: bool

    ghost function State(): JournalState
      reads this
    {
      JournalState(operations, activeOperationCount, unresolvedByStrategy, nextSequence, poisoned, durable, torn)
    }

    constructor (operations: Operations, count: nat, index: map<string, nat>, sequence: U64, ghost log: seq<Record>)
      ensures State() == JournalState(operations, count, index, sequence, false, log, false)
    {
      this.operations, activeOperationCount, unresolvedByStrategy := operations, count, index;
      nextSequence, poisoned, durable, torn := sequence, false, log, false;
    }

    static method RebuildIndex(operations: Operations) returns (index: map<string, nat>)
      ensures index == RebuiltIndex(operations)
    {
      index := map[];
      var rest := operations.Keys;
      while rest != {}
        invariant rest <= operations.Keys
        invariant IndexExact(operations - rest, index)
        decreases rest
      {
        var p :| p in rest;
        assert operations - (rest - {p}) == (operations - rest)[p := operations[p]];
        IndexStaysExact(operations - rest, index, p, operations[p]);
        if operations[p].stage.Unresolved() && operations[p].intent.scope.Some? {
          var strategy := operations[p].intent.scope.value.strategyId;
          index := index[strategy := (if strategy in index then index[strategy] else 0) + 1];
        }
        rest := rest - {p};
      }
      assert operations - rest == operations;
      RebuiltIndexIsExact(operations);
      ExactIndexIsUnique(operations, index, RebuiltIndex(operations));
    }

    static method Open(log: seq<Record>, partialTail: bool) returns (r: Result<TradeJournal, TradeError>)
      ensures r.Ok? <==> Reopened(log, partialTail).Ok?
      ensures r.Ok? ==> fresh(r.value) && r.value.State() == Reopened(log, partialTail).value
      ensures r.Err? ==> Reopened(log, partialTail) == Err(r.error)
    {
      var operations: Operations := map[];
      var expected: U64 := 0;
      var i := 0;
      while i < |log|
        invariant 0 <= i <= |log| && expected == i
        invariant Replay(log[..i]) == Ok(operations)
      {
        var record := log[i];
        assert log[..i + 1][..i] == log[..i];
        if record.sequence != expected { RefusalPersists(log, i + 1); return Err(SequenceMismatch); }
        if !ValidOperation(record.operation) { RefusalPersists(log, i + 1); return Err(InvalidOperation); }
        if !SnapshotAccepted(operations, record.operation) {
          RefusalPersists(log, i + 1);
          return Err(TransitionRefused);
        }
        if expected == U64_MAX { RefusalPersists(log, i + 1); return Err(SequenceOverflow); }
        operations := operations[record.operation.intent.planId := record.operation];
        expected := expected + 1;
        i := i + 1;
      }
      assert log[..i] == log;
      if partialTail { return Err(TornJournal); }
      var index := RebuildIndex(operations);
      var active := set p | p in operations && !operations[p].stage.Terminal();
      var journal := new TradeJournal(operations, |active|, index, expected, log);
      return Ok(journal);
    }

    method Append(op: TradeOperation, env: Environment) returns (r: Result<(), TradeError>)
      modifies this
      ensures State() == AppendTo(old(State()), op, env).state
      ensures r == Verdict(AppendTo(old(State()), op, env).error)
    {
      if poisoned { return Err(JournalPoisoned); }
      if !ValidOperation(op) { return Err(InvalidOperation); }
      if env.recordClock.None? { return Err(ClockUnavailable); }
      if !SnapshotAccepted(operations, op) { return Err(TransitionRefused); }
      var plan := op.intent.planId;
      var next := operations[plan := op];
      var nextUnresolved := UpdatedIndex(unresolvedByStrategy, Lookup(operations, plan), op);
      var wasActive := plan in operations && !operations[plan].stage.Terminal();
      var isActive := !op.stage.Terminal();
      var nextCount := activeOperationCount;
      if !wasActive && isActive {
        nextCount := activeOperationCount + 1;
      } else if wasActive && !isActive {
        if activeOperationCount == 0 { return Err(ActiveCountUnderflow); }
        nextCount := activeOperationCount - 1;
      }
      if !env.fitsLine { return Err(RecordTooLarge); }
      r := Write(op, next, nextCount, nextUnresolved, env.recordClock.value, env.write);
    }

    method Write(op: TradeOperation, next: Operations, nextCount: nat, nextUnresolved: map<string, nat>,
                 recordedAt: U64, write: WriteOutcome) returns (r: Result<(), TradeError>)
      requires next == operations[op.intent.planId := op]
      requires nextUnresolved == UpdatedIndex(unresolvedByStrategy, Lookup(operations, op.intent.planId), op)
      modifies this
      ensures var record := Record(old(nextSequence), recordedAt, Erase(op));
              var after := Persist(old(State()), op, nextCount, record, write);
              State() == after.state && r == Verdict(after.error)
    {
      ghost var record := Record(nextSequence, recordedAt, Erase(op));
      if !write.Synced? {
        if write.FailedAfter? { durable := durable + [record]; }
        if write.FailedTorn? { torn := true; }
        poisoned := true;
        return Err(WriteFailed);
      }
      durable := durable + [record];
      activeOperationCount := nextCount;
      unresolvedByStrategy := nextUnresolved;
      operations := next;
      if nextSequence == U64_MAX { return Err(SequenceOverflow); }
      nextSequence := nextSequence + 1;
      return Ok(());
    }

    method UnresolvedExposureCount(strategy: string) returns (n: nat)
      ensures Coherent(State()) ==> n == CountsOf(operations, strategy).unresolved
    {
      n := if strategy in unresolvedByStrategy then unresolvedByStrategy[strategy] else 0;
      if Coherent(State()) {
        assert IndexEntryExact(operations, unresolvedByStrategy, strategy);
      }
    }

    /** The scan: four counters, two checked sums and a minimum, each equal to what it is meant to be. */
    method StrategyJournalRisk(strategy: string) returns (r: Result<StrategyRisk, TradeError>)
      ensures r.Ok? <==> TotalOver(operations, strategy, AdmittedNotional) < TWO_128
                         && TotalOver(operations, strategy, LossOf) < TWO_128
      ensures r.Ok? ==>
                RiskOf(operations, strategy, r.value)
    {
      var risk := StrategyRisk(StrategyCounts(0, 0, 0, 0), 0, 0, None);
      var rest := operations.Keys;
      assert operations - rest == map[];
      while rest != {}
        invariant rest <= operations.Keys
        invariant RiskOf(operations - rest, strategy, risk)
        decreases rest
      {
        var p :| p in rest;
        RiskOneMore(operations, rest, p, strategy, risk);
        if operations[p].intent.scope.Some? && operations[p].intent.scope.value.strategyId == strategy {
          var counted := Counted(risk, operations[p]);
          if counted.None? { return Err(RiskOverflow); }
          risk := counted.value;
        }
        rest := rest - {p};
      }
      assert operations - rest == operations;
      return Ok(risk);
    }
  }

  ghost predicate RiskOf(operations: Operations, strategy: string, risk: StrategyRisk) {
    && risk.counts == CountsOf(operations, strategy)
    && risk.notional == TotalOver(operations, strategy, AdmittedNotional)
    && risk.realizedLoss == TotalOver(operations, strategy, LossOf)
    && IsFirst(operations, strategy, risk.firstAdmitted)
  }

  lemma RiskOneMore(operations: Operations, rest: set<string>, p: string, strategy: string, risk: StrategyRisk)
    requires rest <= operations.Keys && p in rest && RiskOf(operations - rest, strategy, risk)
    ensures var counted, more := Counted(risk, operations[p]), operations - (rest - {p});
            if !OfStrategy(operations[p], strategy) then RiskOf(more, strategy, risk)
            else if counted.Some? then RiskOf(more, strategy, counted.value)
            else || TotalOver(operations, strategy, AdmittedNotional) >= TWO_128
                 || TotalOver(operations, strategy, LossOf) >= TWO_128
  {
    var op, more := operations[p], operations - (rest - {p});
    assert CountsOf(more, strategy)
        == if OfStrategy(op, strategy) then CountsWith(risk.counts, op) else risk.counts by {
      CountsAfter(operations, rest, p, strategy);
    }
    PartialTotal(operations, strategy, AdmittedNotional, rest, p);
    PartialTotal(operations, strategy, LossOf, rest, p);
    FirstOneMore(operations, strategy, rest, p, risk.firstAdmitted);
  }

  // One operation of the strategy added to the running figures, unless a sum overflows.
  function Counted(risk: StrategyRisk, op: TradeOperation): Option<StrategyRisk> {
    if risk.notional + AdmittedNotional(op) >= TWO_128 || risk.realizedLoss + LossOf(op) >= TWO_128 then None
    else Some(StrategyRisk(CountsWith(risk.counts, op),
                           risk.notional + AdmittedNotional(op), risk.realizedLoss + LossOf(op),
                           Earlier(risk.firstAdmitted, op.intent.receivedUs)))
  }

  function CountsWith(c: StrategyCounts, op: TradeOperation): StrategyCounts {
    StrategyCounts(c.admitted + 1, c.active + One(!op.stage.Terminal() && !op.stage.Unresolved()),
                   c.failed + One(op.stage.BalancedLoss? || op.stage.Unresolved()),
                   c.unresolved + One(op.stage.Unresolved()))
  }

  function Earlier(first: Option<U64>, received: U64): Option<U64> {
    if received == 0 || (first.Some? && first.value <= received) then first else Some(received)
  }

  lemma FirstOneMore(operations: Operations, strategy: string, rest: set<string>, p: string, first: Option<U64>)
    requires rest <= operations.Keys && p in rest && IsFirst(operations - rest, strategy, first)
    ensures IsFirst(operations - (rest - {p}), strategy,
                    if OfStrategy(operations[p], strategy) then Earlier(first, operations[p].intent.receivedUs)
                    else first)
  {
    var before, after := operations - rest, operations - (rest - {p});
    assert after == before[p := operations[p]];
    if first.Some? {
      var q :| q in before && OfStrategy(before[q], strategy) && before[q].intent.receivedUs == first.value > 0;
      assert q in after && after[q] == before[q];
    }
    assert p in after;
  }

  function One(b: bool): nat { if b then 1 else 0 }

  lemma CountsAfter(operations: Operations, rest: set<string>, p: string, strategy: string)
    requires rest <= operations.Keys && p in rest
    ensures var before := CountsOf(operations - rest, strategy);
            CountsOf(operations - (rest - {p}), strategy)
            == if OfStrategy(operations[p], strategy) then CountsWith(before, operations[p]) else before
  {
    var a, b := operations - rest, operations - (rest - {p});
    assert b == a[p := operations[p]];
    SizeAfterChange(StrategyPlans(a, strategy), StrategyPlans(b, strategy), p);
    SizeAfterChange(InFlightPlans(a, strategy), InFlightPlans(b, strategy), p);
    SizeAfterChange(FailedPlans(a, strategy), FailedPlans(b, strategy), p);
    SizeAfterChange(UnresolvedPlans(a, strategy), UnresolvedPlans(b, strategy), p);
  }

  // A log whose prefix is refused is refused with the same error.
  lemma {:induction false} RefusalPersists(log: seq<Record>, n: nat)
    requires n <= |log| && Replay(log[..n]).Err?
    ensures Replay(log) == Replay(log[..n])
    decreases |log| - n
  {
    if n < |log| {
      assert log[..n + 1][..n] == log[..n];
      RefusalPersists(log, n + 1);
    } else {
      assert log[..n] == log;
    }
  }
}
