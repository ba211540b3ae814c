/** Over every run: what callers were told to do is what the trade needs, and what a trade books is what was
    reported for it. */
module Booked {
  import opened Machine
  import opened Trade
  import opened Journal
  import opened Coordinator
  import opened Lifecycle
  import opened Runs
  import opened Safety
  import opened Answers

  // ---------------------------------------------------------------- what the received commands mean

  lemma OwnedMeans(op: TradeOperation, k: nat)
    requires InLifecycle(op) && k < |OwnedCommands(op)|
    ensures var c := OwnedCommands(op)[k];
            match c
            case DispatchDex(_, _, _, _) => IsDexOrder(op.intent, c, false)
            case DispatchCex(_, _, price) => IsHedge(op, c) && (price.Some? ==> price.value > 0.0)
            case RecoverCex(attempt, target) =>
              && op.dexResult.Some? && op.cexResult.Some? && !Matched(op) && target == StillOpen(op)
              && attempt == k - 1
              && (op.intent.mode.DexFirst? ==> (target < 0 <==> op.intent.direction.BuyOnDexSellOnCex?))
  {
    var c := OwnedCommands(op)[k];
    if c.RecoverCex? {
      assert c == RecoveryPart(op)[k - |DexPart(op)| - |CexPart(op)|];
      TargetIsStillOpen(op);
    }
  }

  /** In every run a caller is told to buy or sell on the DEX exactly what was admitted, to hedge exactly the
      planned quantity or the actual DEX fill at the selected, positive price, and to recover exactly what the two
      primary legs left open, at least one step; a DEX-first recovery never trades against its own hedge. */
  lemma ReceivedCommandsFit(events: seq<Event>, i: nat)
    requires i < |Replied(events)|
    ensures Replied(events)[i].plan in Latest(Run(events).journal.durable)
    ensures var op, c := Latest(Run(events).journal.durable)[Replied(events)[i].plan], Replied(events)[i].command;
            match c
            case DispatchDex(_, _, _, _) => IsDexOrder(op.intent, c, false)
            case DispatchCex(_, _, price) => IsHedge(op, c) && (price.Some? ==> price.value > 0.0)
            case RecoverCex(_, target) =>
              && op.dexResult.Some? && op.cexResult.Some? && !Matched(op) && target == StillOpen(op)
              && (op.intent.mode.DexFirst? ==> (target < 0 <==> op.intent.direction.BuyOnDexSellOnCex?))
  {
    var k := RepliedIsOwned(events, i);
    OwnedMeans(Latest(Run(events).journal.durable)[Replied(events)[i].plan], k);
  }

  // ---------------------------------------------------------------- where the legs of a trade come from

  // The call carries this leg for this plan and role.
  predicate Carries(e: Event, plan: string, role: LegRole, leg: LegResult) {
    && e.Called? && (e.call.Report? || e.call.Reconcile?)
    && e.call.plan == plan && e.call.role == role && EraseLeg(e.call.leg) == EraseLeg(leg)
  }

  ghost predicate WasReported(past: seq<Event>, plan: string, role: LegRole, leg: LegResult) {
    exists e | e in past :: Carries(e, plan, role, leg)
  }

  ghost predicate LegsReported(past: seq<Event>, plan: string, op: TradeOperation) {
    forall role: LegRole, leg | leg in LegOf(op, role) :: WasReported(past, plan, role, leg)
  }

  ghost predicate AllReported(past: seq<Event>, operations: Operations) {
    forall p | p in operations :: LegsReported(past, p, operations[p])
  }

  ghost predicate RunReported(past: seq<Event>, w: World) {
    AllReported(past, w.journal.operations) && AllReported(past, Latest(w.journal.durable))
  }

  // `after` has the legs of `before` and, in its own slot, the leg of the call.
  ghost predicate OnlyAdds(before: TradeOperation, after: TradeOperation, c: Call) {
    forall role: LegRole, leg | leg in LegOf(after, role) ::
      leg in LegOf(before, role) || ((c.Report? || c.Reconcile?) && c.role == role && c.leg == leg)
  }

  predicate SameLegs(a: TradeOperation, b: TradeOperation) {
    a.dexResult == b.dexResult && a.cexResult == b.cexResult && a.recoveryResults == b.recoveryResults
  }

  lemma CloseOutKeepsLegs(op: TradeOperation)
    ensures CloseOut(op).Advance? ==> SameLegs(op, CloseOut(op).next)
  {
  }

  lemma RetryKeepsLegs(op: TradeOperation, clock: Option<U64>)
    requires op.recoveryResults != []
    ensures RetryOrClose(op, clock).Advance? ==> SameLegs(op, RetryOrClose(op, clock).next)
  {
    CloseOutKeepsLegs(op.(retryNotBefore := None));
  }

  lemma RecoverKeepsLegs(op: TradeOperation)
    ensures RecoverOrClose(op).Advance? ==> SameLegs(op, RecoverOrClose(op).next)
  {
    CloseOutKeepsLegs(op);
  }

  lemma TakeKeepsLegs(op: TradeOperation, clock: Option<U64>)
    requires TakeDecision(op, clock).Advance?
    ensures SameLegs(op, TakeDecision(op, clock).next)
  {
    CloseOutKeepsLegs(op);
    RecoverKeepsLegs(op);
    if op.recoveryResults != [] { RetryKeepsLegs(op, clock); }
  }

  lemma SlotOnlyAdds(op: TradeOperation, after: TradeOperation, c: Call, legs: seq<LegResult>)
    requires (c.Report? || c.Reconcile?) && SlotIs(op, after, c.role, legs)
    requires forall leg | leg in legs :: leg in LegOf(op, c.role) || leg == c.leg
    ensures OnlyAdds(op, after, c)
  {
  }

  lemma DecisionOnlyAdds(op: TradeOperation, c: Call, clock: Option<U64>)
    requires InLifecycle(op) && !c.Admit? && ArgumentError(c).None? && PlanDecision(op, c, clock).Advance?
    ensures OnlyAdds(op, PlanDecision(op, c, clock).next, c)
  {
    var next := PlanDecision(op, c, clock).next;
    match c
    case Take(_) => TakeKeepsLegs(op, clock);
    case Report(_, role, leg) =>
      ReportIsStored(op, role, leg, clock);
      SlotOnlyAdds(op, next, c, LegOf(op, role) + [leg]);
    case Reconcile(_, role, leg) =>
      ReconciliationIsStored(op, role, leg, clock);
      var legs := LegOf(op, role);
      SlotOnlyAdds(op, next, c, legs[..|legs| - 1] + [leg]);
    case SelectPrice(_, price) => PriceIsStored(op, price);
    case RepairFalseTerminal(_, _, _, _) => PlanDecisionIsSound(op, c, clock);
  }

  lemma MoreIsReported(past: seq<Event>, e: Event, operations: Operations)
    requires AllReported(past, operations)
    ensures AllReported(past + [e], operations)
  {
    forall p, role: LegRole, leg | p in operations && leg in LegOf(operations[p], role)
      ensures WasReported(past + [e], p, role, leg)
    {
      var was :| was in past && Carries(was, p, role, leg);
      assert was in past + [e];
    }
  }

  lemma AddedIsReported(past: seq<Event>, before: TradeOperation, after: TradeOperation, c: Call, env: Environment)
    requires !c.Admit? && LegsReported(past, c.plan, before) && OnlyAdds(before, after, c)
    ensures LegsReported(past + [Called(c, env)], c.plan, after)
  {
    var e := Called(c, env);
    forall role: LegRole, leg | leg in LegOf(after, role) ensures WasReported(past + [e], c.plan, role, leg) {
      if leg in LegOf(before, role) {
        var was :| was in past && Carries(was, c.plan, role, leg);
        assert was in past + [e];
      } else {
        assert Carries(e, c.plan, role, leg) && e in past + [e];
      }
    }
  }

  lemma ErasedIsReported(past: seq<Event>, plan: string, op: TradeOperation)
    requires LegsReported(past, plan, op)
    ensures LegsReported(past, plan, Erase(op))
  {
    forall role: LegRole, leg | leg in LegOf(Erase(op), role) ensures WasReported(past, plan, role, leg) {
      var k :| 0 <= k < |LegOf(Erase(op), role)| && LegOf(Erase(op), role)[k] == leg;
      var original := LegOf(op, role)[k];
      assert original in LegOf(op, role) && EraseLeg(original) == leg;
      var was :| was in past && Carries(was, plan, role, original);
      assert Carries(was, plan, role, leg);
    }
  }

  lemma DecidedIsReported(past: seq<Event>, w: World, c: Call, env: Environment)
    requires Invariant(w) && AllReported(past, w.journal.operations)
    requires Decide(w.journal.operations, c, env.clock).Advance?
    ensures LegsReported(past + [Called(c, env)], PlanOf(c), Decide(w.journal.operations, c, env.clock).next)
  {
    if c.Admit? {
      AdmitExactly(w.journal.operations, c.intent);
    } else {
      DecisionOnlyAdds(w.journal.operations[c.plan], c, env.clock);
      AddedIsReported(past, w.journal.operations[c.plan], Decide(w.journal.operations, c, env.clock).next, c, env);
    }
  }

  lemma RecordKeepsReported(past: seq<Event>, s: JournalState, op: TradeOperation, after: JournalState)
    requires AllReported(past, s.operations) && AllReported(past, Latest(s.durable))
    requires LegsReported(past, op.intent.planId, op) && RecordsOne(s, op, after)
    ensures AllReported(past, after.operations) && AllReported(past, Latest(after.durable))
  {
    ErasedIsReported(past, op.intent.planId, op);
  }

  lemma EventKeepsReported(past: seq<Event>, w: World, e: Event)
    requires Invariant(w) && RunReported(past, w)
    ensures RunReported(past + [e], After(w, e))
  {
    MoreIsReported(past, e, w.journal.operations);
    MoreIsReported(past, e, Latest(w.journal.durable));
    if e.Restarted? {
      ReplayIsLatest(w.journal.durable);
    } else {
      CallKeepsReported(past, w, e.call, e.env);
    }
  }

  lemma CallKeepsReported(past: seq<Event>, w: World, c: Call, env: Environment)
    requires Invariant(w) && RunReported(past, w) && RunReported(past + [Called(c, env)], w)
    ensures RunReported(past + [Called(c, env)], AfterCall(w, c, env))
  {
    var d := Decide(w.journal.operations, c, env.clock);
    if d.Advance? {
      AdvanceIsAccepted(w, c, env.clock);
      DecidedIsReported(past, w, c, env);
      AppendRecordsOne(w.journal, d.next, env);
      RecordKeepsReported(past + [Called(c, env)], w.journal, d.next, AppendTo(w.journal, d.next, env).state);
    }
  }

  lemma OneByOne(past: seq<Event>, events: seq<Event>)
    requires events != []
    ensures past + [events[0]] + events[1..] == past + events
  {
  }

  lemma {:induction false} ReportedFrom(past: seq<Event>, w: World, events: seq<Event>)
    requires Invariant(w) && RunReported(past, w)
    ensures RunReported(past + events, RunFrom(w, events))
    decreases |events|
  {
    if events == [] {
      assert past + events == past;
    } else {
      EventKeepsReported(past, w, events[0]);
      EventKeepsInvariant(w, events[0]);
      ReportedFrom(past + [events[0]], After(w, events[0]), events[1..]);
      OneByOne(past, events);
    }
  }

  /** Every leg any operation holds in any run, live or in the log, is one a caller reported or reconciled for
      that plan and that role, amount by amount. */
  lemma LegsAreWhatWasReported(events: seq<Event>, plan: string, role: LegRole, leg: LegResult)
    requires || (plan in Run(events).journal.operations && leg in LegOf(Run(events).journal.operations[plan], role))
             || (&& plan in Latest(Run(events).journal.durable)
                 && leg in LegOf(Latest(Run(events).journal.durable)[plan], role))
    ensures WasReported(events, plan, role, leg)
  {
    InvariantHolds([]);
    ReportedFrom([], INITIAL, events);
    assert [] + events == events;
  }

  // An acknowledged advance is live and is the last record of the log.
  predicate Recorded(before: JournalState, after: JournalState, op: TradeOperation) {
    && after.operations == before.operations[op.intent.planId := op]
    && after.durable != [] && after.durable[..|after.durable| - 1] == before.durable
    && after.durable[|after.durable| - 1].operation == Erase(op)
  }

  lemma AcknowledgedIsRecorded(s: JournalState, op: TradeOperation, env: Environment)
    requires AppendTo(s, op, env).error.None?
    ensures Recorded(s, AppendTo(s, op, env).state, op)
  {
  }

  // An acknowledged call that leaves something to be written.
  lemma AnswerIsRecorded(w: World, c: Call, env: Environment)
    requires Invariant(w) && Decide(w.journal.operations, c, env.clock).Advance?
    requires Execute(w.journal, c, env).reply.Ok?
    ensures var next := Decide(w.journal.operations, c, env.clock).next;
            next.intent.planId == PlanOf(c) && Recorded(w.journal, Execute(w.journal, c, env).state, next)
  {
    AdvanceIsAccepted(w, c, env.clock);
    AcknowledgedIsRecorded(w.journal, Decide(w.journal.operations, c, env.clock).next, env);
  }

  // A call on a plan that is not refused names a known plan, with arguments in order.
  lemma DecidesOnPlan(operations: Operations, c: Call, clock: Option<U64>)
    requires !c.Admit? && !Decide(operations, c, clock).Refuse?
    ensures c.plan in operations && Decide(operations, c, clock) == PlanDecision(operations[c.plan], c, clock)
  {
  }

  /** An acknowledged report is booked: from every reachable state, live and in the last record of the log, the
      reported leg has joined its slot and no other leg changed. */
  lemma AcknowledgedIsBooked(events: seq<Event>, c: Call, env: Environment)
    requires c.Report? && Execute(Run(events).journal, c, env).reply.Ok?
    ensures var before, after := Run(events).journal, Execute(Run(events).journal, c, env).state;
            && c.plan in before.operations && c.plan in after.operations
            && Recorded(before, after, after.operations[c.plan])
            && Stores(before.operations[c.plan], after.operations[c.plan], c.role, c.leg, env.clock)
  {
    InvariantHolds(events);
    var w := Run(events);
    DecidesOnPlan(w.journal.operations, c, env.clock);
    ReportIsStored(w.journal.operations[c.plan], c.role, c.leg, env.clock);
    AnswerIsRecorded(w, c, env);
  }

  /** The same for an acknowledged reconciliation: the unknown leg, and only it, was replaced by the given
      one. */
  lemma ReconciledIsBooked(events: seq<Event>, c: Call, env: Environment)
    requires c.Reconcile? && Execute(Run(events).journal, c, env).reply.Ok?
    ensures var before, after := Run(events).journal, Execute(Run(events).journal, c, env).state;
            && c.plan in before.operations && c.plan in after.operations
            && Recorded(before, after, after.operations[c.plan]) && Unresolved(before.operations[c.plan], c.role)
            && Replaces(before.operations[c.plan], after.operations[c.plan], c.role, c.leg, env.clock)
  {
    InvariantHolds(events);
    var w := Run(events);
    DecidesOnPlan(w.journal.operations, c, env.clock);
    ReconciliationIsStored(w.journal.operations[c.plan], c.role, c.leg, env.clock);
    AnswerIsRecorded(w, c, env);
  }
}
