/** The joint protocol of engine, mailbox and inventory: who owns which reservation. */
module Engine {
  import opened Machine
  import opened Inventory
  import Mailbox

  datatype TradeEventState = BalancedEvent | RejectedUnsubmitted | BlockedUnknown

  /** `inFlight` are the plans delivered to the executor and not yet reported balanced or rejected. */
  datatype State = State(
    mailbox: Mailbox.State, ledger: Ledger, freshness: map<string, string>, inFlight: set<string>)

  // ---------------------------------------------------------------- submission

  predicate Vacant(s: State, r: Request) { r.operationId !in s.ledger.reservations }

  // The superseded opportunity gives back its reservation, if it still holds an active one.
  function Discarded(s: State, previous: Mailbox.Opportunity): State {
    s.(freshness := s.freshness - {previous.planId}, ledger := Released(s.ledger, previous.planId))
  }

  predicate DiscardFails(s: State, previous: Mailbox.Opportunity) {
    previous.planId in s.ledger.reservations && !CanRelease(s.ledger, previous.planId)
  }

  ghost predicate Admitted(s: State, r: Request) { Vacant(s, r) && CanReserve(s.ledger, r) }

  ghost function Submitted(s: State, o: Mailbox.Opportunity, r: Request): State {
    if !Admitted(s, r) then s else
      var holding := s.(ledger := Reserved(s.ledger, r), freshness := s.freshness[o.planId := o.pairId],
                        mailbox := Mailbox.Submitted(s.mailbox, o));
      match Mailbox.SubmitReply(s.mailbox, o)
      case Accepted => holding
      case Superseded(previous) => Discarded(holding, previous)
      case Unavailable =>
        holding.(freshness := holding.freshness - {o.planId}, ledger := Released(holding.ledger, o.planId))
  }

  // ---------------------------------------------------------------- trade events and delivery

  predicate Held(s: State, plan: string) { plan in s.ledger.reservations }

  predicate EventFails(s: State, plan: string, state: TradeEventState) {
    || (state.BalancedEvent? && Held(s, plan) && !CanMark(s.ledger, plan))
    || (state.RejectedUnsubmitted? && Held(s, plan) && !CanRelease(s.ledger, plan))
  }

  function Reported(s: State, plan: string, state: TradeEventState): State {
    if EventFails(s, plan, state) then
      if state.RejectedUnsubmitted? then s.(freshness := s.freshness - {plan}) else s
    else
      var ledger := match state
                    case BalancedEvent => Marked(s.ledger, plan)
                    case RejectedUnsubmitted => Released(s.ledger, plan)
                    case BlockedUnknown => s.ledger;
      State(Mailbox.Finished(s.mailbox), ledger, s.freshness - {plan},
            if state.BlockedUnknown? then s.inFlight else s.inFlight - {plan})
  }

  function Delivered(s: State): State {
    var reply := Mailbox.ReceiveReply(s.mailbox);
    s.(mailbox := Mailbox.Received(s.mailbox),
       inFlight := if reply.Delivered? then s.inFlight + {reply.opportunity.planId} else s.inFlight)
  }

  // ---------------------------------------------------------------- runs

  /** `Elsewhere` is any inventory event that does not come from the trade path: balance refreshes, and
      rebalance operations reserving, releasing or settling reservations of their own. */
  datatype Event =
    | Submit(opportunity: Mailbox.Opportunity, request: Request)
    | Deliver
    | LoseReceiver
    | Trade(plan: string, state: TradeEventState)
    | Elsewhere(inventory: Inventory.Event)

  ghost function After(s: State, e: Event): State {
    match e
    case Submit(o, r) => Submitted(s, o, r)
    case Deliver => Delivered(s)
    case LoseReceiver => s.(mailbox := Mailbox.ReceiverDropped(s.mailbox))
    case Trade(plan, state) => Reported(s, plan, state)
    case Elsewhere(inventory) => s.(ledger := Inventory.After(s.ledger, inventory))
  }

  function PendingPlans(m: Mailbox.State): set<string> {
    set p | p in m.pending :: m.pending[p].planId
  }

  /** What the rest of the program owes the protocol: a request is made under the opportunity's own plan id,
      as a primary trade, and settles where it claims; a trade event names a delivered plan; other components
      reserve for other purposes and leave the reservations of trade plans alone. */
  predicate Legal(s: State, e: Event) {
    match e
    case Submit(o, r) =>
      && r.operationId == o.planId && r.purpose == TradePrimary
      && r.settlement == set i | 0 <= i < |r.claims| :: r.claims[i].key.location
    case Deliver => true
    case LoseReceiver => true
    case Trade(plan, _) => plan in s.inFlight
    case Elsewhere(Reserve(r)) => r.purpose != TradePrimary
    case Elsewhere(Release(id)) => id !in PendingPlans(s.mailbox) + s.inFlight
    case Elsewhere(Mark(id)) => id !in PendingPlans(s.mailbox) + s.inFlight
    case Elsewhere(_) => true
  }

  // ---------------------------------------------------------------- the invariant

  predicate ActivePrimary(l: Ledger, plan: string) {
    plan in l.reservations && l.reservations[plan].state.Active? && l.reservations[plan].request.purpose == TradePrimary
  }

  predicate ActiveTrade(l: Ledger, plan: string) {
    && ActivePrimary(l, plan)
    && l.reservations[plan].request.settlement <= l.generations.Keys
  }

  /** Every pending opportunity holds an active reservation under its own plan id, no two share one, and
      none of them is also in flight; every plan in flight holds an active reservation. */
  ghost predicate Invariant(s: State) {
    && LedgerValid(s.ledger) && Mailbox.Valid(s.mailbox)
    && PendingActive(s.mailbox, s.ledger) && PendingDistinct(s.mailbox)
    && Apart(s.mailbox, s.inFlight) && FlightActive(s.ledger, s.inFlight)
  }

  predicate PendingActive(m: Mailbox.State, l: Ledger) {
    forall p | p in m.pending :: ActiveTrade(l, m.pending[p].planId)
  }

  predicate PendingDistinct(m: Mailbox.State) {
    forall p, q | p in m.pending && q in m.pending && p != q :: m.pending[p].planId != m.pending[q].planId
  }

  predicate Apart(m: Mailbox.State, inFlight: set<string>) {
    forall p | p in m.pending :: m.pending[p].planId !in inFlight
  }

  predicate FlightActive(l: Ledger, inFlight: set<string>) {
    forall plan | plan in inFlight :: ActiveTrade(l, plan)
  }

  lemma ReservedIsActive(l: Ledger, r: Request)
    requires CanReserve(l, r) && r.purpose == TradePrimary
    requires r.settlement == set i | 0 <= i < |r.claims| :: r.claims[i].key.location
    ensures ActiveTrade(Reserved(l, r), r.operationId)
    ensures forall plan | ActiveTrade(l, plan) :: ActiveTrade(Reserved(l, r), plan)
  {
  }

  /** A superseding submission releases exactly the superseded plan and keeps the newcomer; a submission
      that cannot be queued releases exactly the newcomer; neither release can fail. */
  lemma SubmissionReleasesExactly(s: State, o: Mailbox.Opportunity, r: Request)
    requires Invariant(s) && Legal(s, Submit(o, r)) && Admitted(s, r)
    ensures var after := Submitted(s, o, r).ledger.reservations;
            var newcomer := Reservation(r, Active);
            match Mailbox.SubmitReply(s.mailbox, o)
            case Accepted => after == s.ledger.reservations[o.planId := newcomer]
            case Superseded(previous) =>
              && previous.planId != o.planId && previous.planId in s.ledger.reservations
              && !DiscardFails(s.(ledger := Reserved(s.ledger, r)), previous)
              && after == s.ledger.reservations[o.planId := newcomer] - {previous.planId}
              && o.planId in after
            case Unavailable => after == s.ledger.reservations
    ensures var known := s.freshness[o.planId := o.pairId];
            Submitted(s, o, r).freshness
            == match Mailbox.SubmitReply(s.mailbox, o)
               case Accepted => known
               case Superseded(previous) => known - {previous.planId}
               case Unavailable => known - {o.planId}
  {
  }

  lemma MailboxAfterSubmit(s: State, o: Mailbox.Opportunity)
    requires Mailbox.Valid(s.mailbox) && PendingActive(s.mailbox, s.ledger) && PendingDistinct(s.mailbox)
    requires Apart(s.mailbox, s.inFlight) && o.planId !in s.inFlight && o.planId !in s.ledger.reservations
    ensures Mailbox.Valid(Mailbox.Submitted(s.mailbox, o))
    ensures PendingDistinct(Mailbox.Submitted(s.mailbox, o)) && Apart(Mailbox.Submitted(s.mailbox, o), s.inFlight)
  {
  }

  lemma QueuedKeepsActive(s: State, o: Mailbox.Opportunity, l: Ledger)
    requires PendingActive(s.mailbox, l) && FlightActive(l, s.inFlight) && ActiveTrade(l, o.planId)
    ensures PendingActive(Mailbox.Submitted(s.mailbox, o), l) && FlightActive(l, s.inFlight)
  {
  }

  lemma DiscardKeepsActive(s: State, o: Mailbox.Opportunity, l: Ledger)
    requires PendingActive(s.mailbox, l) && FlightActive(l, s.inFlight) && ActiveTrade(l, o.planId)
    requires PendingDistinct(s.mailbox) && Apart(s.mailbox, s.inFlight)
    requires s.mailbox.receiverOpen && o.pairId in s.mailbox.pending && s.mailbox.pending[o.pairId].planId != o.planId
    ensures var after := Released(l, s.mailbox.pending[o.pairId].planId);
            PendingActive(Mailbox.Submitted(s.mailbox, o), after) && FlightActive(after, s.inFlight)
  {
  }

  lemma SubmitKeepsInvariant(s: State, o: Mailbox.Opportunity, r: Request)
    requires Invariant(s) && Legal(s, Submit(o, r))
    ensures Invariant(Submitted(s, o, r))
  {
    if Admitted(s, r) {
      SubmissionReleasesExactly(s, o, r);
      MailboxAfterSubmit(s, o);
      ReservedKeepsValid(s.ledger, r);
      ReservedIsActive(s.ledger, r);
      var l := Reserved(s.ledger, r);
      assert PendingActive(s.mailbox, l) && FlightActive(l, s.inFlight);
      match Mailbox.SubmitReply(s.mailbox, o)
      case Accepted => QueuedKeepsActive(s, o, l);
      case Superseded(_) => DiscardKeepsActive(s, o, l);
      case Unavailable => assert Released(l, o.planId) == s.ledger;
    }
  }

  /** A trade event that names a plan in flight always succeeds, and touches no pending opportunity. */
  lemma TradeEventSucceeds(s: State, plan: string, state: TradeEventState)
    requires Invariant(s) && plan in s.inFlight
    ensures !EventFails(s, plan, state)
    ensures forall p | p in s.mailbox.pending :: s.mailbox.pending[p].planId != plan
    ensures Reported(s, plan, state).ledger.reservations - {plan} == s.ledger.reservations - {plan}
  {
  }

  /** What an event does to the reservation of a plan in flight: balanced keeps it, for the same request, until
      balances newer than those of every settlement location are in; rejected gives it back; an unknown
      outcome leaves it active. No other reservation, balance or generation changes. */
  lemma TradeEventOutcome(s: State, plan: string, state: TradeEventState)
    requires Invariant(s) && plan in s.inFlight
    ensures plan in s.ledger.reservations && s.ledger.reservations[plan].state.Active?
    ensures var before, after := s.ledger, Reported(s, plan, state).ledger;
            && after.observed == before.observed && after.generations == before.generations
            && after.reservations - {plan} == before.reservations - {plan}
            && match state
               case BalancedEvent =>
                 && plan in after.reservations && after.reservations[plan].state.PendingSettlement?
                 && after.reservations[plan].request == before.reservations[plan].request
                 && var barriers := after.reservations[plan].state.barriers;
                 && barriers.Keys == before.reservations[plan].request.settlement
                 && forall l | l in barriers :: l in before.generations && barriers[l] == before.generations[l]
               case RejectedUnsubmitted => plan !in after.reservations
               case BlockedUnknown =>
                 plan in after.reservations && after.reservations[plan] == before.reservations[plan]
    ensures var after := Reported(s, plan, state);
            && after.freshness == s.freshness - {plan} && (plan in after.inFlight <==> state.BlockedUnknown?)
            && after.inFlight - {plan} == s.inFlight - {plan}
            && after.mailbox.pending == s.mailbox.pending && after.mailbox.queue == s.mailbox.queue
  {
    TradeEventSucceeds(s, plan, state);
  }

  lemma TradeKeepsInvariant(s: State, plan: string, state: TradeEventState)
    requires Invariant(s) && plan in s.inFlight
    ensures Invariant(Reported(s, plan, state))
  {
    TradeEventSucceeds(s, plan, state);
    MarkedKeepsValid(s.ledger, plan);
    var after := Reported(s, plan, state);
    forall other | other != plan && ActiveTrade(s.ledger, other) ensures ActiveTrade(after.ledger, other) { }
    forall p | p in after.mailbox.pending ensures ActiveTrade(after.ledger, after.mailbox.pending[p].planId) {
      assert ActiveTrade(s.ledger, s.mailbox.pending[p].planId);
    }
  }

  lemma DeliverKeepsInvariant(s: State)
    requires Invariant(s)
    ensures Invariant(Delivered(s))
  {
    Mailbox.ReceiveKeepsValid(s.mailbox);
  }

  // Inventory traffic from elsewhere never touches an active reservation it does not name.
  lemma ElsewhereKeepsActive(l: Ledger, e: Inventory.Event, plan: string)
    requires LedgerValid(l) && ActiveTrade(l, plan)
    requires (e.Release? || e.Mark?) ==> e.id != plan
    ensures ActiveTrade(Inventory.After(l, e), plan)
  {
  }

  lemma ElsewhereKeepsInvariant(s: State, e: Inventory.Event)
    requires Invariant(s) && Legal(s, Elsewhere(e))
    ensures Invariant(After(s, Elsewhere(e)))
  {
    Inventory.EventKeepsValid(s.ledger, e);
    forall p | p in s.mailbox.pending
      ensures ActiveTrade(Inventory.After(s.ledger, e), s.mailbox.pending[p].planId)
    {
      assert s.mailbox.pending[p].planId in PendingPlans(s.mailbox);
      ElsewhereKeepsActive(s.ledger, e, s.mailbox.pending[p].planId);
    }
    forall plan | plan in s.inFlight ensures ActiveTrade(Inventory.After(s.ledger, e), plan) {
      ElsewhereKeepsActive(s.ledger, e, plan);
    }
  }

  lemma EventKeepsInvariant(s: State, e: Event)
    requires Invariant(s) && Legal(s, e)
    ensures Invariant(After(s, e))
  {
    match e
    case Submit(o, r) => SubmitKeepsInvariant(s, o, r);
    case Deliver => DeliverKeepsInvariant(s);
    case LoseReceiver =>
    case Trade(plan, state) => TradeKeepsInvariant(s, plan, state);
    case Elsewhere(inventory) => ElsewhereKeepsInvariant(s, inventory);
  }

  ghost predicate LegalRun(s: State, events: seq<Event>)
    decreases |events|
  {
    events == [] || (Legal(s, events[0]) && LegalRun(After(s, events[0]), events[1..]))
  }

  ghost function RunFrom(s: State, events: seq<Event>): State
    decreases |events|
  {
    if events == [] then s else RunFrom(After(s, events[0]), events[1..])
  }

  /** In every run, each pending opportunity holds an active reservation of its own. */
  lemma {:induction false} PendingHoldsItsReservation(s: State, events: seq<Event>)
    requires Invariant(s) && LegalRun(s, events)
    ensures Invariant(RunFrom(s, events))
    decreases |events|
  {
    if events != [] {
      EventKeepsInvariant(s, events[0]);
      PendingHoldsItsReservation(After(s, events[0]), events[1..]);
    }
  }

  // ---------------------------------------------------------------- spent funds stay reserved

  // The reservation is still pending on the same barriers for the same request, or they have all been passed.
  predicate HeldOrPassed(before: Ledger, after: Ledger, id: string, barriers: map<Location, U64>)
    requires id in before.reservations
  {
    || Passed(barriers, after.generations)
    || (PendingWith(after, id, barriers) && after.reservations[id].request == before.reservations[id].request)
  }

  lemma SubmissionHolds(s: State, o: Mailbox.Opportunity, r: Request, id: string, barriers: map<Location, U64>)
    requires Invariant(s) && Legal(s, Submit(o, r)) && PendingWith(s.ledger, id, barriers)
    ensures HeldOrPassed(s.ledger, Submitted(s, o, r).ledger, id, barriers)
  {
    if Admitted(s, r) { SubmissionReleasesExactly(s, o, r); }
  }

  lemma EventHolds(s: State, e: Event, id: string, barriers: map<Location, U64>)
    requires Invariant(s) && Legal(s, e) && PendingWith(s.ledger, id, barriers)
    ensures HeldOrPassed(s.ledger, After(s, e).ledger, id, barriers)
  {
    match e
    case Submit(o, r) => SubmissionHolds(s, o, r, id, barriers);
    case Deliver =>
    case LoseReceiver =>
    case Trade(plan, state) => TradeEventOutcome(s, plan, state);
    case Elsewhere(inventory) => HeldUntilSettled(s.ledger, [inventory], id, barriers);
  }

  lemma EventKeepsGenerations(s: State, e: Event)
    requires Invariant(s) && Legal(s, e)
    ensures Later(s.ledger.generations, After(s, e).ledger.generations)
  {
    if e.Elsewhere? { GenerationsGrow(s.ledger, [e.inventory]); }
  }

  lemma {:induction false} PassedStaysPassed(s: State, events: seq<Event>, barriers: map<Location, U64>)
    requires Invariant(s) && LegalRun(s, events) && Passed(barriers, s.ledger.generations)
    ensures Passed(barriers, RunFrom(s, events).ledger.generations)
    decreases |events|
  {
    if events != [] {
      EventKeepsGenerations(s, events[0]);
      EventKeepsInvariant(s, events[0]);
      PassedStaysPassed(After(s, events[0]), events[1..], barriers);
    }
  }

  lemma {:induction false} HeldOverRuns(s: State, events: seq<Event>, id: string, barriers: map<Location, U64>)
    requires Invariant(s) && LegalRun(s, events) && PendingWith(s.ledger, id, barriers)
    ensures HeldOrPassed(s.ledger, RunFrom(s, events).ledger, id, barriers)
    decreases |events|
  {
    if events != [] {
      var next := After(s, events[0]);
      EventHolds(s, events[0], id, barriers);
      EventKeepsInvariant(s, events[0]);
      if Passed(barriers, next.ledger.generations) {
        PassedStaysPassed(next, events[1..], barriers);
      } else {
        HeldOverRuns(next, events[1..], id, barriers);
      }
    }
  }

  /** What a balanced trade spent stays reserved: however the program goes on, the plan's reservation is there,
      for the same claims, until every settlement location has reported balances newer than those known when
      the trade was reported balanced. */
  lemma SpentStaysReserved(s: State, plan: string, events: seq<Event>)
    requires Invariant(s) && plan in s.inFlight && LegalRun(s, [Trade(plan, BalancedEvent)] + events)
    ensures plan in s.ledger.reservations
    ensures var request := s.ledger.reservations[plan].request;
            var after := RunFrom(s, [Trade(plan, BalancedEvent)] + events).ledger;
            || (plan in after.reservations && after.reservations[plan].request == request)
            || (forall l | l in request.settlement ::
                  l in s.ledger.generations && l in after.generations && s.ledger.generations[l] < after.generations[l])
  {
    var e, next := Trade(plan, BalancedEvent), Reported(s, plan, BalancedEvent);
    assert ([e] + events)[0] == e && ([e] + events)[1..] == events;
    TradeEventOutcome(s, plan, BalancedEvent);
    TradeKeepsInvariant(s, plan, BalancedEvent);
    HeldOverRuns(next, events, plan, next.ledger.reservations[plan].state.barriers);
  }

  // ---------------------------------------------------------------- no reservation without an owner

  // Active trade reservations whose plan is neither waiting in the mailbox nor with the executor.
  function Orphans(s: State): set<string> {
    set id | id in s.ledger.reservations && ActivePrimary(s.ledger, id) && id !in PendingPlans(s.mailbox) + s.inFlight
  }

  lemma PlanIsPending(m: Mailbox.State, p: string)
    requires p in m.pending
    ensures m.pending[p].planId in PendingPlans(m)
  {
  }

  lemma DeliveredOrphans(s: State)
    requires Invariant(s)
    ensures Orphans(Delivered(s)) <= Orphans(s)
  {
    var after := Delivered(s);
    forall id | id in PendingPlans(s.mailbox) ensures id in PendingPlans(after.mailbox) + after.inFlight {
      var p :| p in s.mailbox.pending && s.mailbox.pending[p].planId == id;
      if p in after.mailbox.pending { PlanIsPending(after.mailbox, p); }
    }
  }

  // A submission loses sight of no plan but the one it supersedes.
  lemma SubmittedPending(s: State, o: Mailbox.Opportunity, id: string)
    requires Mailbox.Valid(s.mailbox) && s.mailbox.receiverOpen && id in PendingPlans(s.mailbox)
    ensures id in PendingPlans(Mailbox.Submitted(s.mailbox, o))
         || (o.pairId in s.mailbox.pending && s.mailbox.pending[o.pairId].planId == id)
  {
    var p :| p in s.mailbox.pending && s.mailbox.pending[p].planId == id;
    if p != o.pairId { PlanIsPending(Mailbox.Submitted(s.mailbox, o), p); }
  }

  lemma SubmittedOrphans(s: State, o: Mailbox.Opportunity, r: Request)
    requires Invariant(s) && Legal(s, Submit(o, r))
    ensures Orphans(Submitted(s, o, r)) <= Orphans(s)
  {
    if Admitted(s, r) {
      SubmissionReleasesExactly(s, o, r);
      var after := Submitted(s, o, r);
      forall id | id in Orphans(after) ensures id in Orphans(s) {
        if s.mailbox.receiverOpen {
          PlanIsPending(after.mailbox, o.pairId);
          if id in PendingPlans(s.mailbox) { SubmittedPending(s, o, id); }
        }
      }
    }
  }

  lemma ReportedOrphans(s: State, plan: string, state: TradeEventState)
    requires Invariant(s) && plan in s.inFlight
    ensures Orphans(Reported(s, plan, state)) <= Orphans(s)
  {
    TradeEventSucceeds(s, plan, state);
  }

  lemma ElsewhereOrphans(s: State, e: Inventory.Event)
    requires Invariant(s) && Legal(s, Elsewhere(e))
    ensures Orphans(After(s, Elsewhere(e))) <= Orphans(s)
  {
    assert forall id | ActivePrimary(Inventory.After(s.ledger, e), id) :: ActivePrimary(s.ledger, id);
  }

  /** No step orphans a reservation, except losing the receiver, which orphans exactly the plans that were
      waiting in the mailbox. */
  lemma OnlyLosingTheReceiverOrphans(s: State, e: Event)
    requires Invariant(s) && Legal(s, e)
    ensures if e.LoseReceiver? then Orphans(After(s, e)) == Orphans(s) + PendingPlans(s.mailbox)
            else Orphans(After(s, e)) <= Orphans(s)
  {
    match e
    case Submit(o, r) => SubmittedOrphans(s, o, r);
    case Deliver => DeliveredOrphans(s);
    case LoseReceiver =>
    case Trade(plan, state) => ReportedOrphans(s, plan, state);
    case Elsewhere(inventory) => ElsewhereOrphans(s, inventory);
  }

  /** While the receiver stays open, every active trade reservation belongs to a pending opportunity or to a
      plan with the executor. */
  lemma {:induction false} EveryReservationHasAnOwner(s: State, events: seq<Event>)
    requires Invariant(s) && LegalRun(s, events) && Orphans(s) == {}
    requires forall k | 0 <= k < |events| :: !events[k].LoseReceiver?
    ensures Orphans(RunFrom(s, events)) == {}
    decreases |events|
  {
    if events != [] {
      OnlyLosingTheReceiverOrphans(s, events[0]);
      EventKeepsInvariant(s, events[0]);
      EveryReservationHasAnOwner(After(s, events[0]), events[1..]);
    }
  }

  lemma EmptyEngineIsValid(lane: Mailbox.Lane)
    ensures var start := State(Mailbox.State.State(map[], [], lane, 1, true), Ledger(map[], map[], map[]), map[], {});
            Invariant(start) && Orphans(start) == {}
  {
  }

  // ---------------------------------------------------------------- the engine object

  datatype Submission = Queued | Rejected

  class TradingEngine {
    const inventory: InventoryReservations
    const paperTrades: Mailbox.LatestOpportunityMailbox
    var arbitragePlanFreshness: map<string, string>
    ghost var inFlight: set<string>

    constructor (inventory: InventoryReservations, paperTrades: Mailbox.LatestOpportunityMailbox)
      ensures this.inventory == inventory && this.paperTrades == paperTrades
      ensures arbitragePlanFreshness == map[] && inFlight == {}
    {
      this.inventory, this.paperTrades, arbitragePlanFreshness, inFlight := inventory, paperTrades, map[], {};
    }

    ghost function Abstract(): State
      reads this, inventory, paperTrades
    {
      State(paperTrades.Abstract(), inventory.State(), arbitragePlanFreshness, inFlight)
    }

    ghost predicate Valid()
      reads this, inventory, paperTrades
    {
      inventory.Valid() && Invariant(Abstract())
    }

    method ReleasePendingOpportunity(o: Mailbox.Opportunity) returns (r: Result<(), InventoryError>)
      requires inventory.Valid()
      modifies this`arbitragePlanFreshness, inventory
      ensures inventory.Valid()
      ensures arbitragePlanFreshness == old(arbitragePlanFreshness) - {o.planId}
      ensures inventory.State() == Released(old(inventory.State()), o.planId)
      ensures r.Err? <==> DiscardFails(old(Abstract()), o)
    {
      arbitragePlanFreshness := arbitragePlanFreshness - {o.planId};
      if o.planId in inventory.reservations {
        r := inventory.ReleaseUnsubmitted(o.planId);
      } else {
        r := Ok(());
      }
    }

    method SubmitPaperOpportunity(o: Mailbox.Opportunity, request: Request)
      returns (r: Result<Submission, InventoryError>)
      requires Valid() && Legal(Abstract(), Submit(o, request))
      modifies this, inventory, paperTrades
      ensures Valid() && Abstract() == Submitted(old(Abstract()), o, request)
      ensures r == Ok(if && Admitted(old(Abstract()), request)
                         && !Mailbox.SubmitReply(old(paperTrades.Abstract()), o).Unavailable?
                      then Queued else Rejected)
    {
      SubmitKeepsInvariant(Abstract(), o, request);
      if request.operationId in inventory.reservations { return Ok(Rejected); }
      ghost var before := Abstract();
      var reserved := inventory.ReserveClaims(request);
      if reserved.Err? { return Ok(Rejected); }
      var submission := Enqueue(o, request, before);
      return Ok(submission);
    }

    // Hands a reserved opportunity to the mailbox and gives back whichever reservation lost its owner.
    method Enqueue(o: Mailbox.Opportunity, request: Request, ghost before: State) returns (r: Submission)
      requires inventory.Valid() && Invariant(before) && Legal(before, Submit(o, request)) && Admitted(before, request)
      requires Abstract() == before.(ledger := Reserved(before.ledger, request))
      modifies this, inventory, paperTrades
      ensures inventory.Valid() && Abstract() == Submitted(before, o, request)
      ensures r == if Mailbox.SubmitReply(before.mailbox, o).Unavailable? then Rejected else Queued
    {
      SubmissionReleasesExactly(before, o, request);
      arbitragePlanFreshness := arbitragePlanFreshness[o.planId := o.pairId];
      var reply := paperTrades.TrySubmit(o);
      match reply {
        case Accepted =>
        case Superseded(previous) =>
          var released := ReleasePendingOpportunity(previous);
          assert released.Ok?;
        case Unavailable =>
          arbitragePlanFreshness := arbitragePlanFreshness - {o.planId};
          var released := inventory.ReleaseUnsubmitted(o.planId);
          assert released.Ok?;
          return Rejected;
      }
      return Queued;
    }

    method OnPaperTradeEvent(plan: string, state: TradeEventState) returns (r: Result<(), InventoryError>)
      requires Valid() && Legal(Abstract(), Trade(plan, state))
      modifies this, inventory, paperTrades
      ensures Valid() && Abstract() == Reported(old(Abstract()), plan, state)
      ensures r == Ok(())
    {
      TradeEventSucceeds(Abstract(), plan, state);
      TradeKeepsInvariant(Abstract(), plan, state);
      match state {
        case BalancedEvent =>
          if plan in inventory.reservations {
            r := inventory.MarkPendingSettlement(plan);
            assert r.Ok?;
          }
          arbitragePlanFreshness := arbitragePlanFreshness - {plan};
        case RejectedUnsubmitted =>
          arbitragePlanFreshness := arbitragePlanFreshness - {plan};
          if plan in inventory.reservations {
            r := inventory.ReleaseUnsubmitted(plan);
            assert r.Ok?;
          }
        case BlockedUnknown =>
          arbitragePlanFreshness := arbitragePlanFreshness - {plan};
      }
      if !state.BlockedUnknown? { inFlight := inFlight - {plan}; }
      paperTrades.FinishTrade();
      return Ok(());
    }
  }
}
