/** How many trades can be in flight at once. */
module InFlight {
  import opened Machine
  import opened Trade
  import opened Journal
  import opened Coordinator
  import opened Lifecycle
  import opened Runs
  import CrashRecovery

  predicate InFlightIn(operations: Operations, p: string) { p in operations && operations[p].stage.InFlight() }

  ghost predicate AtMostOne(operations: Operations) {
    forall p, q | InFlightIn(operations, p) && InFlightIn(operations, q) :: p == q
  }

  ghost predicate NoOther(operations: Operations, plan: string) {
    forall p | InFlightIn(operations, p) :: p == plan
  }

  // Only reconciling an unknown outcome brings a trade back in flight.
  lemma OnlyReconciliationReopens(op: TradeOperation, c: Call, clock: Option<U64>)
    requires InLifecycle(op) && !c.Admit? && !c.Reconcile? && ArgumentError(c).None?
    requires PlanDecision(op, c, clock).Advance? && PlanDecision(op, c, clock).next.stage.InFlight()
    ensures op.stage.InFlight()
  {
    if op.stage.Terminal() || op.stage.Halted? { FinalStagesStay(op, c, clock); }
  }

  // A reconciliation that goes through while another trade is in flight.
  ghost predicate Overlaps(operations: Operations, c: Call, clock: Option<U64>) {
    c.Reconcile? && Decide(operations, c, clock).Advance? && !NoOther(operations, c.plan)
  }

  lemma AdmittedAlone(operations: Operations, i: TradeIntent)
    requires AdmitDecision(operations, i).Advance?
    ensures NoOther(operations, i.planId)
  {
  }

  lemma StillAlone(operations: Operations, c: Call, clock: Option<U64>)
    requires AllInLifecycle(operations) && AtMostOne(operations)
    requires !c.Admit? && !c.Reconcile? && ArgumentError(c).None? && c.plan in operations
    requires PlanDecision(operations[c.plan], c, clock).Advance?
    requires PlanDecision(operations[c.plan], c, clock).next.stage.InFlight()
    ensures NoOther(operations, c.plan)
  {
    OnlyReconciliationReopens(operations[c.plan], c, clock);
    assert InFlightIn(operations, c.plan);
  }

  lemma DecisionKeepsAtMostOne(w: World, c: Call, clock: Option<U64>)
    requires Invariant(w) && AtMostOne(w.journal.operations) && !Overlaps(w.journal.operations, c, clock)
    requires Decide(w.journal.operations, c, clock).Advance?
    ensures var next := Decide(w.journal.operations, c, clock).next;
            AtMostOne(w.journal.operations[next.intent.planId := next])
  {
    var operations, next := w.journal.operations, Decide(w.journal.operations, c, clock).next;
    AdvanceIsAccepted(w, c, clock);
    if c.Admit? {
      AdmittedAlone(operations, c.intent);
    } else if !c.Reconcile? && next.stage.InFlight() {
      StillAlone(operations, c, clock);
    }
    OneChangedKeepsAtMostOne(operations, next);
  }

  lemma OneChangedKeepsAtMostOne(operations: Operations, next: TradeOperation)
    requires AtMostOne(operations)
    requires next.stage.InFlight() ==> NoOther(operations, next.intent.planId)
    ensures AtMostOne(operations[next.intent.planId := next])
  {
    var after := operations[next.intent.planId := next];
    assert forall p | p != next.intent.planId :: InFlightIn(after, p) == InFlightIn(operations, p);
  }

  lemma EraseKeepsAtMostOne(operations: Operations)
    requires AtMostOne(operations)
    ensures AtMostOne(EraseAll(operations))
  {
    assert forall p :: InFlightIn(EraseAll(operations), p) == InFlightIn(operations, p);
  }

  ghost predicate Single(w: World) {
    AtMostOne(w.journal.operations) && AtMostOne(Latest(w.journal.durable))
  }

  lemma AppendedKeepsAtMostOne(durable: seq<Record>, operations: Operations, record: Record, next: TradeOperation)
    requires Latest(durable) == EraseAll(operations) && record.operation == Erase(next)
    requires AtMostOne(operations[next.intent.planId := next])
    ensures AtMostOne(Latest(durable + [record]))
  {
    LatestAfter(durable, record);
    var after := operations[next.intent.planId := next];
    assert EraseAll(after) == EraseAll(operations)[next.intent.planId := Erase(next)];
    EraseKeepsAtMostOne(after);
  }

  lemma AdvanceKeepsSingle(w: World, next: TradeOperation, commands: seq<Command>, env: Environment)
    requires Single(w) && AtMostOne(w.journal.operations[next.intent.planId := next])
    requires !w.journal.poisoned ==> Latest(w.journal.durable) == EraseAll(w.journal.operations)
    ensures Single(AfterAdvance(w, next, commands, env))
  {
    var s := w.journal;
    AppendAddsOneRecord(s, next, env);
    if !s.poisoned && env.recordClock.Some? {
      AppendedKeepsAtMostOne(s.durable, s.operations, Record(s.nextSequence, env.recordClock.value, Erase(next)), next);
    }
  }

  lemma EventKeepsSingle(w: World, e: Event)
    requires Invariant(w) && Single(w) && (e.Called? ==> !Overlaps(w.journal.operations, e.call, e.env.clock))
    ensures Single(After(w, e))
  {
    if e.Restarted? {
      ReplayIsLatest(w.journal.durable);
    } else {
      var d := Decide(w.journal.operations, e.call, e.env.clock);
      if d.Advance? {
        DecisionKeepsAtMostOne(w, e.call, e.env.clock);
        AdvanceKeepsSingle(w, d.next, d.commands, e.env);
      }
    }
  }

  ghost predicate NeverOverlaps(w: World, events: seq<Event>)
    decreases |events|
  {
    events == [] ||
    (&& (events[0].Called? ==> !Overlaps(w.journal.operations, events[0].call, events[0].env.clock))
     && NeverOverlaps(After(w, events[0]), events[1..]))
  }

  lemma {:induction false} SingleFrom(w: World, events: seq<Event>)
    requires Invariant(w) && Single(w) && NeverOverlaps(w, events)
    ensures Single(RunFrom(w, events))
    decreases |events|
  {
    if events != [] {
      EventKeepsSingle(w, events[0]);
      EventKeepsInvariant(w, events[0]);
      SingleFrom(After(w, events[0]), events[1..]);
    }
  }

  /** At most one trade is in flight in every run in which no reconciliation of an old unknown outcome goes
      through while another trade is in flight. */
  lemma AtMostOneTradeInFlight(events: seq<Event>)
    requires NeverOverlaps(INITIAL, events)
    ensures AtMostOne(Run(events).journal.operations)
  {
    InvariantHolds([]);
    SingleFrom(INITIAL, events);
  }

  lemma ReconciledIsInFlight(op: TradeOperation, role: LegRole, leg: LegResult, clock: Option<U64>)
    requires ReconcileDecision(op, role, leg, clock).Advance?
    ensures ReconcileDecision(op, role, leg, clock).next.stage.InFlight()
  {
  }

  lemma SecondInFlight(operations: Operations, plan: string, next: TradeOperation)
    requires next.stage.InFlight() && !NoOther(operations, plan)
    ensures !AtMostOne(operations[plan := next])
  {
    var p :| InFlightIn(operations, p) && p != plan;
    assert InFlightIn(operations[plan := next], p) && InFlightIn(operations[plan := next], plan);
  }

  /** The condition is exact: a reconciliation leaves at most one trade in flight if and only if no other
      trade was in flight when it was recorded. */
  lemma OverlapBreaksAtMostOne(events: seq<Event>, c: Call, clock: Option<U64>)
    requires c.Reconcile? && Decide(Run(events).journal.operations, c, clock).Advance?
    requires AtMostOne(Run(events).journal.operations)
    ensures AtMostOne(Run(events).journal.operations[c.plan := Decide(Run(events).journal.operations, c, clock).next])
       <==> !Overlaps(Run(events).journal.operations, c, clock)
  {
    InvariantHolds(events);
    var w := Run(events);
    AdvanceIsAccepted(w, c, clock);
    if Overlaps(w.journal.operations, c, clock) {
      ReconciledIsInFlight(w.journal.operations[c.plan], c.role, c.leg, clock);
      SecondInFlight(w.journal.operations, c.plan, Decide(w.journal.operations, c, clock).next);
    } else {
      DecisionKeepsAtMostOne(w, c, clock);
    }
  }

  // ---------------------------------------------------------------- a run with two trades in flight

  lemma CalmAdvance(w: World, next: TradeOperation, commands: seq<Command>, env: Environment)
    requires Coherent(w.journal) && !w.journal.poisoned && CrashRecovery.Calm(env) && |w.journal.durable| < U64_MAX
    requires SnapshotAccepted(w.journal.operations, next)
    ensures var after := AfterAdvance(w, next, commands, env);
            && !after.journal.poisoned && |after.journal.durable| == |w.journal.durable| + 1
            && after.journal.operations == w.journal.operations[next.intent.planId := next]
  {
    CrashRecovery.CalmAppend(w.journal, next, env);
  }

  lemma CalmCall(w: World, c: Call, env: Environment)
    requires Invariant(w) && !w.journal.poisoned && CrashRecovery.Calm(env) && |w.journal.durable| < U64_MAX
    requires Decide(w.journal.operations, c, env.clock).Advance?
    ensures var after, next := After(w, Called(c, env)), Decide(w.journal.operations, c, env.clock).next;
            && !after.journal.poisoned && |after.journal.durable| == |w.journal.durable| + 1
            && after.journal.operations == w.journal.operations[next.intent.planId := next]
  {
    AdvanceIsAccepted(w, c, env.clock);
    var d := Decide(w.journal.operations, c, env.clock);
    CalmAdvance(w, d.next, d.commands, env);
  }

  lemma {:induction false} RunOneMore(w: World, events: seq<Event>, e: Event)
    ensures RunFrom(w, events + [e]) == After(RunFrom(w, events), e)
    decreases |events|
  {
    if events == [] {
      assert RunFrom(After(w, e), []) == After(w, e);
      assert [e][1..] == [];
    } else {
      assert (events + [e])[1..] == events[1..] + [e];
      RunOneMore(After(w, events[0]), events[1..], e);
    }
  }

  // A run without disturbances so far, whose journal holds these operations.
  ghost predicate Reaches(events: seq<Event>, operations: Operations) {
    && !Run(events).journal.poisoned
    && Run(events).journal.operations == operations && |Run(events).journal.durable| <= |events|
  }

  lemma ReachesNext(events: seq<Event>, operations: Operations, c: Call, env: Environment)
    requires Reaches(events, operations) && CrashRecovery.Calm(env) && |events| < 100
    requires Decide(operations, c, env.clock).Advance?
    ensures var next := Decide(operations, c, env.clock).next;
            Reaches(events + [Called(c, env)], operations[next.intent.planId := next])
  {
    RunOneMore(INITIAL, events, Called(c, env));
    InvariantHolds(events);
    CalmCall(Run(events), c, env);
  }

  lemma OnlyTradeNext(events: seq<Event>, op: TradeOperation, c: Call, next: TradeOperation, env: Environment)
    requires !c.Admit? && c.plan == op.intent.planId == next.intent.planId && ArgumentError(c).None?
    requires Reaches(events, map[c.plan := op]) && CrashRecovery.Calm(env) && |events| < 100
    requires PlanDecision(op, c, env.clock).Advance? && PlanDecision(op, c, env.clock).next == next
    ensures Reaches(events + [Called(c, env)], map[c.plan := next])
  {
    ReachesNext(events, map[c.plan := op], c, env);
    OnlyEntry(c.plan, op, next);
  }

  lemma OnlyEntry(plan: string, a: TradeOperation, b: TradeOperation)
    ensures map[plan := a][plan := b] == map[plan := b]
  {
  }

  function Parked(a: TradeIntent, unknown: LegResult): TradeOperation {
    var dispatched := FirstDispatch(PreparedOperation(a)).next;
    dispatched.(dexResult := Some(unknown), stage := UnknownExposure, blockingReason := Some("venue_outcome_unknown"))
  }

  // A trade whose DEX outcome is unknown leaves the set of trades in flight.
  lemma TradeIsParked(a: TradeIntent, unknown: LegResult, env: Environment) returns (events: seq<Event>)
    requires ValidIntent(a) && (a.admission.Some? ==> a.admission.value.thresholdMet)
    requires ValidLeg(unknown) && unknown.status.Unknown? && CrashRecovery.Calm(env)
    ensures |events| == 4 && Reaches(events, map[a.planId := Parked(a, unknown)])
  {
    var prepared := PreparedOperation(a);
    var dispatched := FirstDispatch(prepared).next;
    var reported := dispatched.(dexResult := Some(unknown));
    ReachesNext([], map[], Admit(a), env);
    events := [] + [Called(Admit(a), env)];
    OnlyTradeNext(events, prepared, Take(a.planId), dispatched, env);
    events := events + [Called(Take(a.planId), env)];
    OnlyTradeNext(events, dispatched, Report(a.planId, Dex, unknown), reported, env);
    events := events + [Called(Report(a.planId, Dex, unknown), env)];
    OnlyTradeNext(events, reported, Take(a.planId), Parked(a, unknown), env);
    events := events + [Called(Take(a.planId), env)];
  }

  /** The condition is reachable: for any two trades, admitting the second while the first awaits
      reconciliation and then reconciling the first leaves both in flight. */
  lemma TwoTradesInFlight(a: TradeIntent, b: TradeIntent, unknown: LegResult, filled: LegResult, env: Environment)
    returns (events: seq<Event>)
    requires ValidIntent(a) && (a.admission.Some? ==> a.admission.value.thresholdMet)
    requires ValidIntent(b) && (b.admission.Some? ==> b.admission.value.thresholdMet) && a.planId != b.planId
    requires ValidLeg(unknown) && unknown.status.Unknown? && ValidLeg(filled) && filled.status.Filled?
    requires CrashRecovery.Calm(env)
    ensures !AtMostOne(Run(events).journal.operations)
  {
    events := TradeIsParked(a, unknown, env);
    var parked := map[a.planId := Parked(a, unknown)];
    ReachesNext(events, parked, Admit(b), env);
    events := events + [Called(Admit(b), env)];
    var both := parked[b.planId := PreparedOperation(b)];
    var c := Reconcile(a.planId, Dex, filled);
    ReachesNext(events, both, c, env);
    events := events + [Called(c, env)];
    ReconciledIsInFlight(Parked(a, unknown), Dex, filled, env.clock);
    assert InFlightIn(Run(events).journal.operations, a.planId) && InFlightIn(Run(events).journal.operations, b.planId);
  }
}
