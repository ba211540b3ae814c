/** The latest-wins mailbox: one pending opportunity per strategy, served round-robin, one execution lane. */
module Mailbox {
  import opened Machine

  datatype Opportunity = Opportunity(pairId: string, planId: string)

  datatype Lane = Available | Busy

  datatype State = State(
    pending: map<string, Opportunity>, queue: seq<string>, lane: Lane, senders: nat, receiverOpen: bool)

  datatype SubmitResult = Accepted | Superseded(previous: Opportunity) | Unavailable

  datatype ReceiveResult = Delivered(opportunity: Opportunity) | Closed | Blocked

  // ---------------------------------------------------------------- the operations

  function Submitted(m: State, o: Opportunity): State {
    if !m.receiverOpen then m
    else m.(pending := m.pending[o.pairId := o],
            queue := if o.pairId in m.pending then m.queue else m.queue + [o.pairId])
  }

  function SubmitReply(m: State, o: Opportunity): SubmitResult {
    if !m.receiverOpen then Unavailable
    else if o.pairId in m.pending then Superseded(m.pending[o.pairId]) else Accepted
  }

  function Finished(m: State): State { m.(lane := Available) }

  // One pass of the receive loop under the lock. The queue head is popped before the pending entry is
  // looked up, as in the code.
  function ReceiveReply(m: State): ReceiveResult {
    if m.lane.Available? && m.queue != [] && m.queue[0] in m.pending then Delivered(m.pending[m.queue[0]])
    else if m.senders == 0 || !m.receiverOpen then Closed
    else Blocked
  }

  function Received(m: State): State {
    if !m.lane.Available? || m.queue == [] then m
    else if m.queue[0] in m.pending
    then m.(pending := m.pending - {m.queue[0]}, queue := m.queue[1..], lane := Busy)
    else m.(queue := m.queue[1..])
  }

  function ReceiverDropped(m: State): State { m.(receiverOpen := false, pending := map[], queue := []) }

  // ---------------------------------------------------------------- the invariant

  predicate Distinct(queue: seq<string>) { forall i, j | 0 <= i < j < |queue| :: queue[i] != queue[j] }

  /** The queue lists every strategy with a pending opportunity exactly once. */
  ghost predicate Valid(m: State) {
    && Distinct(m.queue)
    && (forall s :: s in m.queue <==> s in m.pending)
    && (forall s | s in m.pending :: m.pending[s].pairId == s)
  }

  lemma SubmitKeepsValid(m: State, o: Opportunity)
    requires Valid(m)
    ensures Valid(Submitted(m, o))
  {
  }

  lemma ReceiveKeepsValid(m: State)
    requires Valid(m)
    ensures Valid(Received(m))
    ensures ReceiveReply(m).Delivered? <==> m.lane.Available? && m.queue != []
  {
  }

  /** A receiver is told that the mailbox is closed exactly when nothing can be delivered now and either all
      senders or the receiver are gone; otherwise it waits. */
  lemma ClosedExactly(m: State)
    requires Valid(m)
    ensures ReceiveReply(m).Closed? <==>
              (m.lane.Busy? || m.pending == map[]) && (m.senders == 0 || !m.receiverOpen)
    ensures ReceiveReply(m).Blocked? <==>
              (m.lane.Busy? || m.pending == map[]) && m.senders > 0 && m.receiverOpen
  {
    if m.queue != [] { assert m.queue[0] in m.queue; }
    if m.pending != map[] {
      var s :| s in m.pending;
      assert s in m.queue;
    }
  }

  // ---------------------------------------------------------------- runs

  datatype Event = Submit(opportunity: Opportunity) | Finish | Receive | CloneSender | DropSender | DropReceiver

  function After(m: State, e: Event): State {
    match e
    case Submit(o) => Submitted(m, o)
    case Finish => Finished(m)
    case Receive => Received(m)
    case CloneSender => m.(senders := m.senders + 1)
    case DropSender => m.(senders := if m.senders == 0 then 0 else m.senders - 1)
    case DropReceiver => ReceiverDropped(m)
  }

  lemma EventKeepsValid(m: State, e: Event)
    requires Valid(m)
    ensures Valid(After(m, e))
  {
  }

  // Everything delivered while the events happen.
  function Deliveries(m: State, events: seq<Event>): seq<Opportunity>
    decreases |events|
  {
    if events == [] then [] else
      (if events[0].Receive? && ReceiveReply(m).Delivered? then [ReceiveReply(m).opportunity] else [])
      + Deliveries(After(m, events[0]), events[1..])
  }

  predicate StaysOpen(events: seq<Event>) { forall i | 0 <= i < |events| :: !events[i].DropReceiver? }

  // An event serves the head of the queue or leaves every position where it is.
  lemma QueueMoves(m: State, e: Event)
    requires Valid(m) && !e.DropReceiver?
    ensures if e.Receive? && ReceiveReply(m).Delivered?
            then m.queue != [] && ReceiveReply(m).opportunity.pairId == m.queue[0] && After(m, e).queue == m.queue[1..]
            else m.queue <= After(m, e).queue
  {
  }

  /** Round-robin fairness: whatever else is submitted meanwhile, the strategy at queue position k is
      served by the (k + 1)-th delivery from now on. */
  lemma {:induction false} QueuePositionIsServiceOrder(m: State, events: seq<Event>, k: nat)
    requires Valid(m) && StaysOpen(events)
    requires k < |m.queue| && k < |Deliveries(m, events)|
    ensures Deliveries(m, events)[k].pairId == m.queue[k]
    decreases |events|
  {
    var e := events[0];
    EventKeepsValid(m, e);
    QueueMoves(m, e);
    if !(e.Receive? && ReceiveReply(m).Delivered?) {
      QueuePositionIsServiceOrder(After(m, e), events[1..], k);
    } else if k > 0 {
      QueuePositionIsServiceOrder(After(m, e), events[1..], k - 1);
    }
  }

  // Nothing is delivered while the lane is busy, and without a `finish` it stays busy.
  lemma {:induction false} BusyDeliversNothing(m: State, events: seq<Event>)
    requires m.lane.Busy? && (forall i | 0 <= i < |events| :: !events[i].Finish?)
    ensures Deliveries(m, events) == []
    decreases |events|
  {
    if events != [] { BusyDeliversNothing(After(m, events[0]), events[1..]); }
  }

  /** Between two deliveries there is always a `finish`: events without one deliver at most once. */
  lemma {:induction false} NoDeliveryWithoutFinish(m: State, events: seq<Event>)
    requires forall i | 0 <= i < |events| :: !events[i].Finish?
    ensures |Deliveries(m, events)| <= 1
    decreases |events|
  {
    if events != [] {
      if events[0].Receive? && ReceiveReply(m).Delivered? {
        BusyDeliversNothing(After(m, events[0]), events[1..]);
      } else {
        NoDeliveryWithoutFinish(After(m, events[0]), events[1..]);
      }
    }
  }

  /** A `finish` lets the next one through: what waits longest is delivered by the next receive. */
  lemma FinishLetsTheNextThrough(m: State)
    requires Valid(m) && m.queue != []
    ensures m.queue[0] in m.pending && Deliveries(m, [Finish, Receive]) == [m.pending[m.queue[0]]]
  {
    assert m.queue[0] in m.queue;
    assert [Finish, Receive][1..] == [Receive] && [Receive][1..] == [];
    assert ReceiveReply(Finished(m)) == Delivered(m.pending[m.queue[0]]);
    assert Deliveries(After(Finished(m), Receive), []) == [];
    assert Deliveries(Finished(m), [Receive]) == [m.pending[m.queue[0]]];
  }

  // ---------------------------------------------------------------- where every submission goes

  datatype Ledger = Ledger(
    mailbox: State, submitted: seq<Opportunity>, delivered: seq<Opportunity>, superseded: seq<Opportunity>,
    refused: seq<Opportunity>, cleared: seq<Opportunity>)

  function Waiting(m: State): seq<Opportunity>
    requires forall i | 0 <= i < |m.queue| :: m.queue[i] in m.pending
  {
    seq(|m.queue|, i requires 0 <= i < |m.queue| => m.pending[m.queue[i]])
  }

  function Booked(l: Ledger, e: Event): Ledger
    requires forall i | 0 <= i < |l.mailbox.queue| :: l.mailbox.queue[i] in l.mailbox.pending
  {
    var m, next := l.mailbox, l.(mailbox := After(l.mailbox, e));
    match e
    case Submit(o) =>
      var all := next.(submitted := l.submitted + [o]);
      (match SubmitReply(m, o)
       case Accepted => all
       case Superseded(previous) => all.(superseded := l.superseded + [previous])
       case Unavailable => all.(refused := l.refused + [o]))
    case Receive =>
      if ReceiveReply(m).Delivered? then next.(delivered := l.delivered + [ReceiveReply(m).opportunity]) else next
    case DropReceiver => next.(cleared := l.cleared + Waiting(m))
    case _ => next
  }

  /** Every submission is delivered, superseded, refused, cleared at receiver drop, or still waiting. */
  ghost predicate Balanced(l: Ledger) {
    && Valid(l.mailbox)
    && multiset(l.submitted) == multiset(l.delivered) + multiset(l.superseded) + multiset(l.refused)
                                + multiset(l.cleared) + multiset(Waiting(l.mailbox))
  }

  lemma SubmitChangesWaiting(m: State, o: Opportunity)
    requires Valid(m) && m.receiverOpen
    ensures forall i | 0 <= i < |Submitted(m, o).queue| :: Submitted(m, o).queue[i] in Submitted(m, o).pending
    ensures multiset(Waiting(Submitted(m, o)))
         == if o.pairId in m.pending then multiset(Waiting(m)) - multiset{m.pending[o.pairId]} + multiset{o}
            else multiset(Waiting(m)) + multiset{o}
  {
    var next := Submitted(m, o);
    if o.pairId in m.pending {
      var k :| 0 <= k < |m.queue| && m.queue[k] == o.pairId;
      assert Waiting(next) == Waiting(m)[k := o];
    } else {
      assert Waiting(next) == Waiting(m) + [o];
    }
  }

  lemma ReplacementBalances<T>(others: multiset<T>, waiting: multiset<T>, previous: T, next: T)
    requires previous in waiting
    ensures others + waiting + multiset{next}
         == others + multiset{previous} + (waiting - multiset{previous} + multiset{next})
  {
  }

  function Gone(l: Ledger): multiset<Opportunity> {
    multiset(l.delivered) + multiset(l.superseded) + multiset(l.refused) + multiset(l.cleared)
  }

  lemma SupersedeKeepsBalance(l: Ledger, o: Opportunity)
    requires Balanced(l) && l.mailbox.receiverOpen && o.pairId in l.mailbox.pending
    ensures Balanced(Booked(l, Submit(o)))
  {
    var m, after := l.mailbox, Booked(l, Submit(o));
    var previous := m.pending[o.pairId];
    SubmitKeepsValid(m, o);
    SubmitChangesWaiting(m, o);
    var k :| 0 <= k < |m.queue| && m.queue[k] == o.pairId;
    assert Waiting(m)[k] == previous;
    ReplacementBalances(Gone(l), multiset(Waiting(m)), previous, o);
    assert Gone(after) == Gone(l) + multiset{previous};
  }

  lemma SubmitKeepsBalance(l: Ledger, o: Opportunity)
    requires Balanced(l)
    ensures Balanced(Booked(l, Submit(o)))
  {
    if l.mailbox.receiverOpen {
      if o.pairId in l.mailbox.pending {
        SupersedeKeepsBalance(l, o);
      } else {
        SubmitKeepsValid(l.mailbox, o);
        SubmitChangesWaiting(l.mailbox, o);
      }
    }
  }

  lemma ReceiveKeepsBalance(l: Ledger)
    requires Balanced(l)
    ensures Balanced(Booked(l, Receive))
  {
    var m, next := l.mailbox, Received(l.mailbox);
    ReceiveKeepsValid(m);
    if m.lane.Available? && m.queue != [] {
      assert Waiting(m) == [m.pending[m.queue[0]]] + Waiting(next);
    }
  }

  lemma EventKeepsBalance(l: Ledger, e: Event)
    requires Balanced(l)
    ensures Balanced(Booked(l, e))
  {
    match e
    case Submit(o) => SubmitKeepsBalance(l, o);
    case Receive => ReceiveKeepsBalance(l);
    case DropReceiver => assert Waiting(ReceiverDropped(l.mailbox)) == [];
    case _ => assert Waiting(After(l.mailbox, e)) == Waiting(l.mailbox);
  }

  ghost function BookedAll(l: Ledger, events: seq<Event>): Ledger
    requires Balanced(l)
    decreases |events|
  {
    if events == [] then l else
      EventKeepsBalance(l, events[0]);
      BookedAll(Booked(l, events[0]), events[1..])
  }

  lemma {:induction false} EverySubmissionIsAccountedFor(l: Ledger, events: seq<Event>)
    requires Balanced(l)
    ensures Balanced(BookedAll(l, events))
    decreases |events|
  {
    if events != [] {
      EventKeepsBalance(l, events[0]);
      EverySubmissionIsAccountedFor(Booked(l, events[0]), events[1..]);
    }
  }

  // ---------------------------------------------------------------- latest wins

  // The last opportunity submitted for a strategy.
  function Newest(submitted: seq<Opportunity>, strategy: string): Option<Opportunity> {
    if submitted == [] then None else
      var last := submitted[|submitted| - 1];
      if last.pairId == strategy then Some(last) else Newest(submitted[..|submitted| - 1], strategy)
  }

  ghost predicate PendingIsNewest(m: State, submitted: seq<Opportunity>) {
    forall s | s in m.pending :: Newest(submitted, s) == Some(m.pending[s])
  }

  function SubmittedBy(submitted: seq<Opportunity>, events: seq<Event>): seq<Opportunity>
    decreases |events|
  {
    if events == [] then submitted
    else SubmittedBy(if events[0].Submit? then submitted + [events[0].opportunity] else submitted, events[1..])
  }

  function AfterAll(m: State, events: seq<Event>): State
    decreases |events|
  {
    if events == [] then m else AfterAll(After(m, events[0]), events[1..])
  }

  lemma NewestAfter(submitted: seq<Opportunity>, o: Opportunity, strategy: string)
    ensures Newest(submitted + [o], strategy) == if o.pairId == strategy then Some(o) else Newest(submitted, strategy)
  {
  }

  lemma {:induction false} PendingStaysNewest(m: State, submitted: seq<Opportunity>, events: seq<Event>)
    requires Valid(m) && PendingIsNewest(m, submitted)
    requires !m.receiverOpen ==> m.pending == map[]
    ensures Valid(AfterAll(m, events)) && PendingIsNewest(AfterAll(m, events), SubmittedBy(submitted, events))
    decreases |events|
  {
    if events != [] {
      var e := events[0];
      var next, log := After(m, e), if e.Submit? then submitted + [e.opportunity] else submitted;
      EventKeepsValid(m, e);
      assert PendingIsNewest(next, log) by {
        if e.Submit? {
          forall s | s in next.pending ensures Newest(log, s) == Some(next.pending[s]) {
            NewestAfter(submitted, e.opportunity, s);
          }
        }
      }
      PendingStaysNewest(next, log, events[1..]);
    }
  }

  /** What is delivered is the newest opportunity its strategy ever submitted. */
  lemma DeliveredIsNewest(events: seq<Event>, lane: Lane)
    ensures var m := AfterAll(State(map[], [], lane, 1, true), events);
            ReceiveReply(m).Delivered? ==>
              Newest(SubmittedBy([], events), ReceiveReply(m).opportunity.pairId) == Some(ReceiveReply(m).opportunity)
  {
    PendingStaysNewest(State(map[], [], lane, 1, true), [], events);
  }

  // ---------------------------------------------------------------- the mailbox object

  class LatestOpportunityMailbox {
    var pendingByStrategy: map<string, Opportunity>
    var roundRobin: seq<string>
    var lane: Lane
    var senders: nat
    var receiverOpen: bool
    var discarded: nat

    ghost function Abstract(): State
      reads this
    {
      State(pendingByStrategy, roundRobin, lane, senders, receiverOpen)
    }

    constructor (lane: Lane)
      ensures Abstract() == State(map[], [], lane, 1, true) && Valid(Abstract()) && discarded == 0
    {
      pendingByStrategy, roundRobin, this.lane, senders, receiverOpen, discarded := map[], [], lane, 1, true, 0;
    }

    method TrySubmit(o: Opportunity) returns (r: SubmitResult)
      requires Valid(Abstract())
      modifies this
      ensures Valid(Abstract()) && Abstract() == Submitted(old(Abstract()), o)
      ensures r == SubmitReply(old(Abstract()), o)
      ensures discarded == old(discarded) + if r.Accepted? then 0 else 1
    {
      SubmitKeepsValid(Abstract(), o);
      if !receiverOpen {
        discarded := discarded + 1;
        return Unavailable;
      }
      var strategy := o.pairId;
      var previous := if strategy in pendingByStrategy then Some(pendingByStrategy[strategy]) else None;
      pendingByStrategy := pendingByStrategy[strategy := o];
      if previous.None? {
        roundRobin := roundRobin + [strategy];
        return Accepted;
      }
      discarded := discarded + 1;
      return Superseded(previous.value);
    }

    method FinishTrade()
      requires Valid(Abstract())
      modifies this`lane
      ensures Valid(Abstract()) && Abstract() == Finished(old(Abstract()))
    {
      lane := Available;
    }

    method TryReceive() returns (r: ReceiveResult)
      requires Valid(Abstract())
      modifies this
      ensures Valid(Abstract()) && Abstract() == Received(old(Abstract()))
      ensures r == ReceiveReply(old(Abstract())) && discarded == old(discarded)
    {
      ReceiveKeepsValid(Abstract());
      if lane.Available? && roundRobin != [] {
        var strategy := roundRobin[0];
        roundRobin := roundRobin[1..];
        if strategy in pendingByStrategy {
          var opportunity := pendingByStrategy[strategy];
          pendingByStrategy := pendingByStrategy - {strategy};
          lane := Busy;
          return Delivered(opportunity);
        }
      }
      if senders == 0 || !receiverOpen { return Closed; }
      return Blocked;
    }

    method DropReceiver()
      modifies this
      ensures Valid(Abstract()) && Abstract() == ReceiverDropped(old(Abstract())) && discarded == old(discarded)
    {
      receiverOpen := false;
      pendingByStrategy := map[];
      roundRobin := [];
    }
  }
}
