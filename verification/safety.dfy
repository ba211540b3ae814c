/** The guarantees of the coordinator, stated over whole runs. */
module Safety {
  import opened Machine
  import opened Trade
  import opened Journal
  import opened Coordinator
  import opened Lifecycle
  import opened Runs

  // ---------------------------------------------------------------- never two hedges

  // How two commands issued to one plan, in this order, may relate.
  predicate OrderedPair(first: Command, second: Command) {
    && !second.DispatchDex?
    && (second.DispatchCex? ==> first.DispatchDex?)
    && (first.RecoverCex? ==>
          && second.RecoverCex? && second.attempt > first.attempt
          && second.targetTokenB == first.targetTokenB)
  }

  predicate BoundedAttempt(c: Command) {
    c.RecoverCex? ==> 1 <= c.attempt <= MAX_RECOVERY_ATTEMPTS && c.targetTokenB != 0
  }

  lemma OwnedAreOrdered(op: TradeOperation, j: nat, k: nat)
    requires InLifecycle(op) && j < k < |OwnedCommands(op)|
    ensures OrderedPair(OwnedCommands(op)[j], OwnedCommands(op)[k])
  {
  }

  lemma OwnedAreBounded(op: TradeOperation, k: nat)
    requires InLifecycle(op) && k < |OwnedCommands(op)|
    ensures BoundedAttempt(OwnedCommands(op)[k])
  {
  }

  lemma IssuedAreOrdered(events: seq<Event>, i: nat, j: nat)
    requires i < j < |Run(events).issued|
    requires Run(events).issued[i].plan == Run(events).issued[j].plan
    ensures OrderedPair(Run(events).issued[i].command, Run(events).issued[j].command)
  {
    InvariantHolds(events);
    var w := Run(events);
    var plan, operations := w.issued[i].plan, Latest(w.journal.durable);
    PositionFinds(w.issued, i);
    PositionFinds(w.issued, j);
    PositionsGrow(w.issued, i, j);
    assert IssuedTo(w.issued, plan) == OwnedIn(operations, plan);
    OwnedAreOrdered(operations[plan], Position(w.issued, i), Position(w.issued, j));
  }

  /** In every run the callers receive, for one plan, at most one DEX dispatch, at most one primary CEX
      dispatch and at most three recoveries; recoveries come last, in rising attempt order, with one target. */
  lemma NeverTwoHedges(events: seq<Event>, i: nat, j: nat)
    requires i < j < |Replied(events)| && Replied(events)[i].plan == Replied(events)[j].plan
    ensures OrderedPair(Replied(events)[i].command, Replied(events)[j].command)
    ensures BoundedAttempt(Replied(events)[i].command) && BoundedAttempt(Replied(events)[j].command)
  {
    RepliedAreIssued(events);
    var issued := Run(events).issued;
    OriginsGrow(issued, i, j);
    IssuedAreOrdered(events, Origin(issued, i), Origin(issued, j));
    var k := RepliedIsOwned(events, i);
    OwnedAreBounded(Latest(Run(events).journal.durable)[Replied(events)[i].plan], k);
    var m := RepliedIsOwned(events, j);
    OwnedAreBounded(Latest(Run(events).journal.durable)[Replied(events)[j].plan], m);
  }

  // A command a caller received is one the plan's last durable record owns.
  lemma RepliedIsOwned(events: seq<Event>, i: nat) returns (k: nat)
    requires i < |Replied(events)|
    ensures Replied(events)[i].plan in Latest(Run(events).journal.durable)
    ensures var op := Latest(Run(events).journal.durable)[Replied(events)[i].plan];
            InLifecycle(op) && k < |OwnedCommands(op)| && OwnedCommands(op)[k] == Replied(events)[i].command
  {
    RepliedAreIssued(events);
    InvariantHolds(events);
    var w := Run(events);
    var origin := Origin(w.issued, i);
    PositionFinds(w.issued, origin);
    assert IssuedTo(w.issued, w.issued[origin].plan) == OwnedIn(Latest(w.journal.durable), w.issued[origin].plan);
    k := Position(w.issued, origin);
  }

  // ---------------------------------------------------------------- the numbering of recoveries

  /** A call that hides commands from its caller, seen from the state before it: it decides to hand out
      commands of the plan, nothing refuses the append, and the write fails although its record reached the
      disk, or the sequence numbers run out with it. */
  predicate Hides(w: World, e: Event, plan: string) {
    && e.Called? && PlanOf(e.call) == plan
    && var d := Decide(w.journal.operations, e.call, e.env.clock);
    && d.Advance? && d.commands != [] && AppendRefusal(w.journal, d.next, e.env).None?
    && (e.env.write.FailedAfter? || (e.env.write.Synced? && w.journal.nextSequence == U64_MAX))
  }

  predicate NeverHides(w: World, events: seq<Event>, plan: string)
    decreases |events|
  {
    events == [] || (!Hides(w, events[0], plan) && NeverHides(After(w, events[0]), events[1..], plan))
  }

  predicate AllHandedOut(issued: seq<Issue>, plan: string) {
    forall k | 0 <= k < |issued| :: issued[k].plan == plan ==> issued[k].handedOut
  }

  lemma {:induction false} IssuesAreAlike(plan: string, commands: seq<Command>, handedOut: bool)
    ensures |Issues(plan, commands, handedOut)| == |commands|
    ensures forall k | 0 <= k < |commands| ::
              Issues(plan, commands, handedOut)[k] == Issue(plan, commands[k], handedOut)
  {
    if commands != [] { IssuesAreAlike(plan, commands[..|commands| - 1], handedOut); }
  }

  // A record reached the log without being acknowledged.
  lemma UnacknowledgedExactly(s: JournalState, op: TradeOperation, commands: seq<Command>, env: Environment)
    ensures var executed := Carry(s, Advance(op, commands), env);
            |executed.state.durable| > |s.durable| && executed.reply.Err? <==>
            && AppendRefusal(s, op, env).None?
            && (env.write.FailedAfter? || (env.write.Synced? && s.nextSequence == U64_MAX))
  {
  }

  lemma HandedOutExactly(w: World, c: Call, env: Environment, plan: string)
    ensures AllHandedOut(IssuedBy(w, c, env), plan) <==> !Hides(w, Called(c, env), plan)
  {
    var d := Decide(w.journal.operations, c, env.clock);
    if d.Advance? {
      UnacknowledgedExactly(w.journal, d.next, d.commands, env);
      IssuesAreAlike(PlanOf(c), d.commands, Execute(w.journal, c, env).reply.Ok?);
      if d.commands != [] {
        assert Issues(PlanOf(c), d.commands, Execute(w.journal, c, env).reply.Ok?)[0].plan == PlanOf(c);
      }
    }
  }

  lemma AllHandedOutAppend(a: seq<Issue>, b: seq<Issue>, plan: string)
    ensures AllHandedOut(a + b, plan) <==> AllHandedOut(a, plan) && AllHandedOut(b, plan)
  {
    assert forall k | 0 <= k < |b| :: (a + b)[|a| + k] == b[k];
    assert forall k | 0 <= k < |a| :: (a + b)[k] == a[k];
  }

  lemma EventHandsOutExactly(w: World, e: Event, plan: string)
    requires Invariant(w)
    ensures AllHandedOut(After(w, e).issued, plan) <==> AllHandedOut(w.issued, plan) && !Hides(w, e, plan)
  {
    if e.Called? {
      CallIssues(w, e.call, e.env);
      HandedOutExactly(w, e.call, e.env, plan);
      AllHandedOutAppend(w.issued, IssuedBy(w, e.call, e.env), plan);
    }
  }

  lemma {:induction false} RunHandsOutExactly(w: World, events: seq<Event>, plan: string)
    requires Invariant(w)
    ensures AllHandedOut(RunFrom(w, events).issued, plan) <==>
              AllHandedOut(w.issued, plan) && NeverHides(w, events, plan)
    decreases |events|
  {
    if events != [] {
      EventHandsOutExactly(w, events[0], plan);
      EventKeepsInvariant(w, events[0]);
      RunHandsOutExactly(After(w, events[0]), events[1..], plan);
    }
  }

  function RepliedTo(replies: seq<Reply>, plan: string): seq<Command> {
    if replies == [] then [] else
      var last := replies[|replies| - 1];
      RepliedTo(replies[..|replies| - 1], plan) + if last.plan == plan then [last.command] else []
  }

  // Callers of a plan received everything recorded for it exactly when each of its commands was handed out.
  lemma {:induction false} ReceivedExactly(issued: seq<Issue>, plan: string)
    ensures |RepliedTo(HandedOut(issued), plan)| <= |IssuedTo(issued, plan)|
    ensures RepliedTo(HandedOut(issued), plan) == IssuedTo(issued, plan) <==> AllHandedOut(issued, plan)
    ensures |RepliedTo(HandedOut(issued), plan)| == |IssuedTo(issued, plan)| <==> AllHandedOut(issued, plan)
  {
    if issued != [] {
      var before, last, replies := issued[..|issued| - 1], issued[|issued| - 1], HandedOut(issued);
      ReceivedExactly(before, plan);
      AllHandedOutAppend(before, [last], plan);
      assert issued == before + [last];
      if last.handedOut {
        assert replies[..|replies| - 1] == HandedOut(before);
      } else {
        assert replies == HandedOut(before);
      }
    }
  }

  /** The commands a plan's last durable record owns end in its recovery attempts 1, 2, ... without a gap. Its
      callers received exactly these commands if and only if no call of the run hid commands of the plan. */
  lemma RecoveriesAreNumbered(events: seq<Event>, plan: string)
    requires plan in Latest(Run(events).journal.durable)
    ensures var op := Latest(Run(events).journal.durable)[plan];
            && (RepliedTo(Replied(events), plan) == OwnedCommands(op) <==> NeverHides(INITIAL, events, plan))
            && OwnedCommands(op) == DexPart(op) + CexPart(op) + RecoveryPart(op)
            && |RecoveryPart(op)| == Attempts(op) <= MAX_RECOVERY_ATTEMPTS
            && (forall k | 0 <= k < Attempts(op) ::
                  RecoveryPart(op)[k].RecoverCex? && RecoveryPart(op)[k].attempt == k + 1)
  {
    InvariantHolds([]);
    RunHandsOutExactly(INITIAL, events, plan);
    RepliedAreIssued(events);
    ReceivedExactly(Run(events).issued, plan);
    InvariantHolds(events);
    assert IssuedTo(Run(events).issued, plan) == OwnedIn(Latest(Run(events).journal.durable), plan);
  }

  /** Whatever writes fail, a recovery a caller received has a number the plan's last durable record counts,
      and that record's target. */
  lemma RecoveryIsCounted(events: seq<Event>, i: nat)
    requires i < |Replied(events)| && Replied(events)[i].command.RecoverCex?
    ensures Replied(events)[i].plan in Latest(Run(events).journal.durable)
    ensures var op, c := Latest(Run(events).journal.durable)[Replied(events)[i].plan], Replied(events)[i].command;
            1 <= c.attempt <= Attempts(op) && op.recoveryTarget == Some(c.targetTokenB)
  {
    var k := RepliedIsOwned(events, i);
    var op := Latest(Run(events).journal.durable)[Replied(events)[i].plan];
    assert OwnedCommands(op)[k] == RecoveryPart(op)[k - |DexPart(op)| - |CexPart(op)|];
  }

  /** Another attempt is made only after one that proved a zero fill. */
  lemma OnlyZeroFillsAreRetried(events: seq<Event>, plan: string, k: nat)
    requires plan in Run(events).journal.operations
    requires k < |Run(events).journal.operations[plan].recoveryResults| - 1
    ensures var leg := Run(events).journal.operations[plan].recoveryResults[k];
            RetryableFailure(leg) && leg.tokenB == 0 && leg.tokenA == 0 && leg.thirdAssetDeltas == map[]
  {
    InvariantHolds(events);
    var op := Run(events).journal.operations[plan];
    assert InLifecycle(op);
    assert RetryableFailure(op.recoveryResults[k]) && ValidLeg(op.recoveryResults[k]);
  }

  // ---------------------------------------------------------------- write-ahead ownership

  /** At every point of every run, every command a caller has received is owned by a record already in the
      durable log. */
  lemma WriteAhead(events: seq<Event>, i: nat) returns (r: nat)
    requires i < |Replied(events)|
    ensures r < |Run(events).journal.durable|
    ensures var reply, owner := Replied(events)[i], Run(events).journal.durable[r].operation;
            owner.intent.planId == reply.plan && reply.command in OwnedCommands(owner)
  {
    var k := RepliedIsOwned(events, i);
    r := LastOfPlan(Run(events).journal.durable, Replied(events)[i].plan);
  }

  // ---------------------------------------------------------------- faithful resume

  lemma PositionExists(issued: seq<Issue>, plan: string, k: nat) returns (i: nat)
    requires k < |IssuedTo(issued, plan)|
    ensures i < |issued| && issued[i].plan == plan && issued[i].command == IssuedTo(issued, plan)[k]
  {
    var before := issued[..|issued| - 1];
    if k < |IssuedTo(before, plan)| {
      i := PositionExists(before, plan, k);
    } else {
      i := |issued| - 1;
    }
  }

  /** The live operations never own a command the durable ones do not: after a failed write they may lag. */
  ghost predicate Behind(w: World) {
    forall plan: string :: OwnedIn(w.journal.operations, plan) <= OwnedIn(Latest(w.journal.durable), plan)
  }

  lemma InStepIsBehind(w: World, plan: string)
    requires Invariant(w) && !w.journal.poisoned
    ensures OwnedIn(w.journal.operations, plan) == OwnedIn(Latest(w.journal.durable), plan)
  {
    InStepUnlessPoisoned(w);
    OwnedInErased(w.journal.operations, plan);
  }

  // Ownership of one plan after one more record, which the live operations may or may not have taken over.
  lemma RecordIsNotBehind(operations: Operations, latest: Operations, after: Operations, op: TradeOperation,
                          commands: seq<Command>, plan: string)
    requires OwnedIn(operations, plan) == OwnedIn(latest, plan)
    requires OwnedCommands(op) == OwnedIn(operations, op.intent.planId) + commands && InLifecycle(op)
    requires after == operations || after == operations[op.intent.planId := op]
    ensures OwnedIn(after, plan) <= OwnedIn(latest[op.intent.planId := Erase(op)], plan)
  {
    EraseKeepsLifecycle(op);
  }

  // Nothing is added, or this record is and the live operations take it over or stay as they were.
  predicate RecordsOne(s: JournalState, op: TradeOperation, after: JournalState) {
    || (after.durable == s.durable && after.operations == s.operations)
    || (&& !s.poisoned && Latest(after.durable) == Latest(s.durable)[op.intent.planId := Erase(op)]
        && (after.operations == s.operations || after.operations == s.operations[op.intent.planId := op]))
  }

  lemma AppendRecordsOne(s: JournalState, op: TradeOperation, env: Environment)
    ensures RecordsOne(s, op, AppendTo(s, op, env).state)
  {
    AppendAddsOneRecord(s, op, env);
    if AppendTo(s, op, env).state.durable != s.durable {
      LatestAfter(s.durable, Record(s.nextSequence, env.recordClock.value, Erase(op)));
    }
  }

  lemma OneRecordKeepsBehind(w: World, op: TradeOperation, commands: seq<Command>, after: JournalState, plan: string)
    requires Invariant(w) && OwnedIn(w.journal.operations, plan) <= OwnedIn(Latest(w.journal.durable), plan)
    requires OwnedCommands(op) == OwnedIn(w.journal.operations, op.intent.planId) + commands && InLifecycle(op)
    requires RecordsOne(w.journal, op, after)
    ensures OwnedIn(after.operations, plan) <= OwnedIn(Latest(after.durable), plan)
  {
    if !w.journal.poisoned {
      InStepIsBehind(w, plan);
      RecordIsNotBehind(w.journal.operations, Latest(w.journal.durable), after.operations, op, commands, plan);
    }
  }

  lemma AdvanceKeepsBehind(w: World, op: TradeOperation, commands: seq<Command>, env: Environment)
    requires Invariant(w) && Behind(w) && InLifecycle(op)
    requires OwnedCommands(op) == OwnedIn(w.journal.operations, op.intent.planId) + commands
    ensures Behind(AfterAdvance(w, op, commands, env))
  {
    var after := AppendTo(w.journal, op, env).state;
    assert AfterAdvance(w, op, commands, env).journal == after;
    AppendRecordsOne(w.journal, op, env);
    forall plan: string ensures OwnedIn(after.operations, plan) <= OwnedIn(Latest(after.durable), plan) {
      OneRecordKeepsBehind(w, op, commands, after, plan);
    }
  }

  lemma RestartKeepsBehind(w: World)
    requires Behind(w)
    ensures Behind(AfterRestart(w))
  {
    ReplayIsLatest(w.journal.durable);
  }

  lemma EventKeepsBehind(w: World, e: Event)
    requires Invariant(w) && Behind(w)
    ensures Behind(After(w, e))
  {
    if e.Restarted? {
      RestartKeepsBehind(w);
    } else {
      var d := Decide(w.journal.operations, e.call, e.env.clock);
      if d.Advance? {
        AdvanceIsAccepted(w, e.call, e.env.clock);
        AdvanceKeepsBehind(w, d.next, d.commands, e.env);
      }
    }
  }

  lemma {:induction false} BehindFrom(w: World, events: seq<Event>)
    requires Invariant(w) && Behind(w)
    ensures Behind(RunFrom(w, events))
    decreases |events|
  {
    if events != [] {
      EventKeepsBehind(w, events[0]);
      EventKeepsInvariant(w, events[0]);
      BehindFrom(After(w, events[0]), events[1..]);
    }
  }

  // In every reachable state, what a live operation owns was recorded, in that order.
  lemma LiveIsRecorded(events: seq<Event>, plan: string)
    requires plan in Run(events).journal.operations
    ensures InLifecycle(Run(events).journal.operations[plan])
    ensures OwnedCommands(Run(events).journal.operations[plan]) <= IssuedTo(Run(events).issued, plan)
  {
    InvariantHolds([]);
    BehindFrom(INITIAL, events);
    InvariantHolds(events);
    var w := Run(events);
    assert OwnedIn(w.journal.operations, plan) <= OwnedIn(Latest(w.journal.durable), plan);
    assert IssuedTo(w.issued, plan) == OwnedIn(Latest(w.journal.durable), plan);
  }

  // The `k`-th command of a live operation was recorded.
  lemma LiveWasIssued(events: seq<Event>, plan: string, k: nat) returns (i: nat)
    requires plan in Run(events).journal.operations && k < |OwnedCommands(Run(events).journal.operations[plan])|
    ensures i < |Run(events).issued| && Run(events).issued[i].plan == plan
    ensures Run(events).issued[i].command == OwnedCommands(Run(events).journal.operations[plan])[k]
  {
    LiveIsRecorded(events, plan);
    i := PositionExists(Run(events).issued, plan, k);
  }

  // A recorded command as `resume_command` hands it out again.
  function Again(c: Command, expired: bool): Command {
    if c.DispatchDex? then c.(reconciliationOnly := expired) else c
  }

  /** In every reachable state, also after a failed write, a command is resumed if and only if a dispatched leg
      has no result. It was recorded before, with the same identity, target, price and attempt; a DEX
      dispatch is marked for reconciliation exactly when its plan has expired. Rebuilding never fails. */
  lemma ResumeIsFaithful(events: seq<Event>, plan: string, clock: U64) returns (i: nat)
    requires plan in Run(events).journal.operations
    ensures var op := Run(events).journal.operations[plan];
            var resumed := ResumeCommand(op, Some(clock));
            && resumed.Ok? && (resumed.value.Some? <==> AwaitsLeg(op))
            && (AwaitsLeg(op) ==>
                  && i < |Run(events).issued| && Run(events).issued[i].plan == plan
                  && resumed.value.value == Again(Run(events).issued[i].command, PlanExpired(op.intent, clock)))
  {
    LiveIsRecorded(events, plan);
    var op := Run(events).journal.operations[plan];
    ResumeRebuildsOwned(op, clock);
    i := 0;
    if AwaitsLeg(op) { i := LiveWasIssued(events, plan, PendingIndex(op)); }
  }

  /** The same for the commands that reconcile an unknown outcome: each exists if and only if its leg is
      unknown and awaits reconciliation, and the DEX one is always for reconciliation only. */
  lemma ReconciliationIsFaithful(events: seq<Event>, plan: string) returns (i: nat, j: nat)
    requires plan in Run(events).journal.operations
    ensures var op, issued := Run(events).journal.operations[plan], Run(events).issued;
            && UnknownBinanceCommand(op).Ok?
            && (UnknownBinanceCommand(op).value.Some? <==>
                  op.stage.UnknownExposure? && (IsUnknown(op.cexResult) || RecoveryUnknown(op)))
            && (UnknownBinanceCommand(op).value.Some? ==>
                  i < |issued| && issued[i] == Issue(plan, UnknownBinanceCommand(op).value.value, issued[i].handedOut))
            && (UnknownDexCommand(op).Some? <==> op.stage.UnknownExposure? && IsUnknown(op.dexResult))
            && (UnknownDexCommand(op).Some? ==>
                  && j < |issued| && issued[j].plan == plan && issued[j].command.DispatchDex?
                  && UnknownDexCommand(op).value == Again(issued[j].command, true))
  {
    LiveIsRecorded(events, plan);
    var op := Run(events).journal.operations[plan];
    ReconciliationRebuildsOwned(op);
    i, j := 0, 0;
    if UnknownBinanceCommand(op).value.Some? {
      i := LiveWasIssued(events, plan, if IsUnknown(op.cexResult) then 1 else 1 + |op.recoveryResults|);
    }
    if UnknownDexCommand(op).Some? { j := LiveWasIssued(events, plan, 0); }
  }

  // ---------------------------------------------------------------- the guard is never tripped

  lemma AcceptedIsNotRefused(s: JournalState, op: TradeOperation, env: Environment)
    requires SnapshotAccepted(s.operations, op) && s.activeCount == |ActivePlans(s.operations)|
    ensures AppendTo(s, op, env).error.Some? ==> AppendTo(s, op, env).error.value !in INTERNAL_ERRORS
  {
    CountStaysExact(s.operations, s.activeCount, op.intent.planId, op);
  }

  lemma AdmitIsExternal(operations: Operations, i: TradeIntent)
    ensures External(AdmitDecision(operations, i))
  {
  }

  lemma ArgumentErrorIsExternal(c: Call)
    ensures ArgumentError(c).Some? ==> ArgumentError(c).value !in INTERNAL_ERRORS
  {
  }

  lemma DecisionIsExternal(operations: Operations, c: Call, clock: Option<U64>)
    requires AllInLifecycle(operations)
    ensures External(Decide(operations, c, clock))
  {
    ArgumentErrorIsExternal(c);
    if c.Admit? {
      AdmitIsExternal(operations, c.intent);
    } else if c.plan in operations {
      PlanDecisionIsExternal(operations[c.plan], c, clock);
    }
  }

  /** From every reachable state, no call is stopped by the journal's transition guard, by record
      validation, by the active counter, by a missing deadline or by a missing target. */
  lemma NeverTripsTheGuard(events: seq<Event>, c: Call, env: Environment)
    ensures var executed := Execute(Run(events).journal, c, env);
            && AfterCall(Run(events), c, env).journal == executed.state
            && (executed.reply.Err? ==> executed.reply.error !in INTERNAL_ERRORS)
  {
    InvariantHolds(events);
    var w := Run(events);
    var d := Decide(w.journal.operations, c, env.clock);
    DecisionIsExternal(w.journal.operations, c, env.clock);
    if d.Advance? {
      AdvanceIsAccepted(w, c, env.clock);
      AcceptedIsNotRefused(w.journal, d.next, env);
    }
  }

  // ---------------------------------------------------------------- after a failed write

  lemma PoisonedDoesNothing(w: World, c: Call, env: Environment)
    requires w.journal.poisoned
    ensures AfterCall(w, c, env) == w && RepliesTo(w, Called(c, env)) == []
  {
  }

  lemma {:induction false} PoisonedWaits(w: World, events: seq<Event>)
    requires w.journal.poisoned && (w.journal.torn || forall k | 0 <= k < |events| :: events[k].Called?)
    ensures RunFrom(w, events) == w && RepliedFrom(w, events) == []
    decreases |events|
  {
    if events != [] {
      if events[0].Called? { PoisonedDoesNothing(w, events[0].call, events[0].env); }
      PoisonedWaits(w, events[1..]);
    }
  }

  // The call has something to write, nothing refuses it, and the write fails.
  predicate FailsToWrite(w: World, c: Call, env: Environment) {
    var d := Decide(w.journal.operations, c, env.clock);
    d.Advance? && AppendRefusal(w.journal, d.next, env).None? && !env.write.Synced?
  }

  lemma WriteFailurePoisons(w: World, c: Call, env: Environment)
    requires FailsToWrite(w, c, env)
    ensures Execute(w.journal, c, env).reply == Err(WriteFailed)
    ensures AfterCall(w, c, env).journal.poisoned && (env.write.FailedTorn? ==> AfterCall(w, c, env).journal.torn)
  {
  }

  /** A failed write stops the coordinator: until a restart no call changes anything or hands out a command. If
      the write left a partial line, not even a restart helps. */
  lemma FailedWriteStops(events: seq<Event>, c: Call, env: Environment, more: seq<Event>)
    requires FailsToWrite(Run(events), c, env)
    requires env.write.FailedTorn? || forall k | 0 <= k < |more| :: more[k].Called?
    ensures Execute(Run(events).journal, c, env).reply == Err(WriteFailed)
    ensures var w := AfterCall(Run(events), c, env);
            RunFrom(w, more) == w && RepliedFrom(w, more) == []
  {
    WriteFailurePoisons(Run(events), c, env);
    PoisonedWaits(AfterCall(Run(events), c, env), more);
  }

  // ---------------------------------------------------------------- final stages

  predicate Final(stage: Stage) { stage.Terminal() || stage.Halted? }

  // What may follow a final operation: nothing at all, or another halted record.
  predicate FinalSuccessor(before: TradeOperation, after: TradeOperation) {
    after.stage == before.stage && (before.stage.Terminal() ==> after == before)
  }

  /** `after` extends `before` without touching a plan that is final there: no record of a terminal plan is
      added, and only halted records of a halted one. */
  predicate StaysFinal(before: seq<Record>, after: seq<Record>, plan: string)
    requires plan in Latest(before)
  {
    && before <= after && plan in Latest(after) && FinalSuccessor(Latest(before)[plan], Latest(after)[plan])
    && forall j | |before| <= j < |after| && after[j].operation.intent.planId == plan ::
         Latest(before)[plan].stage.Halted? && after[j].operation.stage.Halted?
  }

  lemma StaysFinalOn(a: seq<Record>, b: seq<Record>, c: seq<Record>, plan: string)
    requires plan in Latest(a) && StaysFinal(a, b, plan) && StaysFinal(b, c, plan)
    ensures StaysFinal(a, c, plan)
  {
    forall j | |a| <= j < |c| && c[j].operation.intent.planId == plan
      ensures Latest(a)[plan].stage.Halted? && c[j].operation.stage.Halted?
    {
      if j < |b| { assert c[j] == b[j]; }
    }
  }

  lemma DecisionOnFinal(w: World, c: Call, clock: Option<U64>)
    requires Invariant(w) && Decide(w.journal.operations, c, clock).Advance?
    requires PlanOf(c) in w.journal.operations && Final(w.journal.operations[PlanOf(c)].stage)
    ensures w.journal.operations[PlanOf(c)].stage.Halted? && Decide(w.journal.operations, c, clock).next.stage.Halted?
  {
    FinalStagesStay(w.journal.operations[c.plan], c, clock);
  }

  lemma AdvanceKeepsFinal(w: World, op: TradeOperation, commands: seq<Command>, env: Environment, plan: string)
    requires !w.journal.poisoned ==> Latest(w.journal.durable) == EraseAll(w.journal.operations)
    requires plan in Latest(w.journal.durable) && Final(Latest(w.journal.durable)[plan].stage)
    requires op.intent.planId == plan && plan in w.journal.operations && Final(w.journal.operations[plan].stage) ==>
               w.journal.operations[plan].stage.Halted? && op.stage.Halted?
    ensures StaysFinal(w.journal.durable, AfterAdvance(w, op, commands, env).journal.durable, plan)
  {
    var s := w.journal;
    AppendAddsOneRecord(s, op, env);
    if !s.poisoned && env.recordClock.Some? {
      LatestAfter(s.durable, Record(s.nextSequence, env.recordClock.value, Erase(op)));
    }
  }

  lemma AdvanceRespectsFinal(w: World, c: Call, clock: Option<U64>, plan: string)
    requires Invariant(w) && Decide(w.journal.operations, c, clock).Advance?
    requires plan in w.journal.operations && Final(w.journal.operations[plan].stage)
    ensures var next := Decide(w.journal.operations, c, clock).next;
            next.intent.planId == plan ==> w.journal.operations[plan].stage.Halted? && next.stage.Halted?
  {
    AdvanceIsAccepted(w, c, clock);
    if PlanOf(c) == plan { DecisionOnFinal(w, c, clock); }
  }

  lemma CallKeepsFinal(w: World, c: Call, env: Environment, plan: string)
    requires Invariant(w) && plan in Latest(w.journal.durable) && Final(Latest(w.journal.durable)[plan].stage)
    ensures StaysFinal(w.journal.durable, AfterCall(w, c, env).journal.durable, plan)
  {
    var d := Decide(w.journal.operations, c, env.clock);
    if d.Advance? {
      if plan in w.journal.operations && Final(w.journal.operations[plan].stage) {
        AdvanceRespectsFinal(w, c, env.clock, plan);
      }
      FinalAfterAdvance(w, d.next, d.commands, env, plan);
    }
  }

  lemma FinalAfterAdvance(w: World, op: TradeOperation, commands: seq<Command>, env: Environment, plan: string)
    requires Invariant(w) && plan in Latest(w.journal.durable) && Final(Latest(w.journal.durable)[plan].stage)
    requires op.intent.planId == plan && plan in w.journal.operations && Final(w.journal.operations[plan].stage) ==>
               w.journal.operations[plan].stage.Halted? && op.stage.Halted?
    ensures StaysFinal(w.journal.durable, AfterAdvance(w, op, commands, env).journal.durable, plan)
  {
    InStepUnlessPoisoned(w);
    AdvanceKeepsFinal(w, op, commands, env, plan);
  }

  lemma InStepUnlessPoisoned(w: World)
    requires Invariant(w)
    ensures !w.journal.poisoned ==> Latest(w.journal.durable) == EraseAll(w.journal.operations)
  {
  }

  lemma EventKeepsFinal(w: World, e: Event, plan: string)
    requires Invariant(w) && plan in Latest(w.journal.durable) && Final(Latest(w.journal.durable)[plan].stage)
    ensures StaysFinal(w.journal.durable, After(w, e).journal.durable, plan)
  {
    if e.Called? { CallKeepsFinal(w, e.call, e.env, plan); } else { RestartKeepsTheLog(w); }
  }

  lemma RestartKeepsTheLog(w: World)
    ensures AfterRestart(w).journal.durable == w.journal.durable
  {
  }

  lemma {:induction false} FinalFrom(w: World, events: seq<Event>, plan: string)
    requires Invariant(w) && plan in Latest(w.journal.durable) && Final(Latest(w.journal.durable)[plan].stage)
    ensures StaysFinal(w.journal.durable, RunFrom(w, events).journal.durable, plan)
    decreases |events|
  {
    if events != [] {
      EventKeepsFinal(w, events[0], plan);
      EventKeepsInvariant(w, events[0]);
      var next := After(w, events[0]);
      FinalFrom(next, events[1..], plan);
      StaysFinalOn(w.journal.durable, next.journal.durable, RunFrom(next, events[1..]).journal.durable, plan);
    }
  }

  /** Once a plan's last record is terminal, no event ever adds another; once it is halted, every later
      record is halted too. This holds across failed writes and restarts. */
  lemma FinalStagesAreFinal(events: seq<Event>, more: seq<Event>, plan: string)
    requires plan in Latest(Run(events).journal.durable) && Final(Latest(Run(events).journal.durable)[plan].stage)
    ensures StaysFinal(Run(events).journal.durable, RunFrom(Run(events), more).journal.durable, plan)
  {
    InvariantHolds(events);
    FinalFrom(Run(events), more, plan);
  }

  /** `record_operator_recovery` can never succeed on a journal this coordinator wrote. */
  lemma OperatorRecoveryNeverSucceeds(events: seq<Event>, plan: string, dex: LegResult, recovery: LegResult,
                                      e: OperatorEvidence, env: Environment)
    ensures var executed := Execute(Run(events).journal, RepairFalseTerminal(plan, dex, recovery, e), env);
            executed.reply.Err? && executed.state == Run(events).journal
  {
    InvariantHolds(events);
    var w, c := Run(events), RepairFalseTerminal(plan, dex, recovery, e);
    if ArgumentError(c).None? && plan in w.journal.operations {
      PlanDecisionIsSound(w.journal.operations[plan], c, env.clock);
    }
  }
}
