/** Every run of the coordinator from an empty journal: any calls, any venue results, any clocks, any
    disk failures, any restarts. */
module Runs {
  import opened Machine
  import opened Trade
  import opened Journal
  import opened Coordinator
  import opened Lifecycle

  datatype Event = Called(call: Call, env: Environment) | Restarted

  /** A command whose ownership reached the durable log; `handedOut` when the call also succeeded. */
  datatype Issue = Issue(plan: string, command: Command, handedOut: bool)

  /** A command a caller received. */
  datatype Reply = Reply(plan: string, command: Command)

  datatype World = World(journal: JournalState, issued: seq<Issue>)

  function PlanOf(c: Call): string { if c.Admit? then c.intent.planId else c.plan }

  function Issues(plan: string, commands: seq<Command>, handedOut: bool): seq<Issue> {
    if commands == [] then [] else
      Issues(plan, commands[..|commands| - 1], handedOut) + [Issue(plan, commands[|commands| - 1], handedOut)]
  }

  function AfterAdvance(w: World, next: TradeOperation, commands: seq<Command>, env: Environment): World {
    var executed := Carry(w.journal, Advance(next, commands), env);
    if |executed.state.durable| > |w.journal.durable|
    then World(executed.state, w.issued + Issues(next.intent.planId, commands, executed.reply.Ok?))
    else World(executed.state, w.issued)
  }

  function AfterCall(w: World, c: Call, env: Environment): World {
    var d := Decide(w.journal.operations, c, env.clock);
    if d.Advance? then AfterAdvance(w, d.next, d.commands, env) else w
  }

  // A process that cannot reopen its journal stays down.
  function AfterRestart(w: World): World {
    var reopened := Reopened(w.journal.durable, w.journal.torn);
    if reopened.Ok? then World(reopened.value, w.issued) else w
  }

  function After(w: World, e: Event): World {
    if e.Restarted? then AfterRestart(w) else AfterCall(w, e.call, e.env)
  }

  function RunFrom(w: World, events: seq<Event>): World
    decreases |events|
  {
    if events == [] then w else RunFrom(After(w, events[0]), events[1..])
  }

  const INITIAL := World(EMPTY, [])

  function Run(events: seq<Event>): World { RunFrom(INITIAL, events) }

  // ---------------------------------------------------------------- what the callers received

  function Tagged(plan: string, commands: seq<Command>): seq<Reply> {
    if commands == [] then [] else
      Tagged(plan, commands[..|commands| - 1]) + [Reply(plan, commands[|commands| - 1])]
  }

  // The commands in the answer to one event, read off the answer alone.
  function RepliesTo(w: World, e: Event): seq<Reply> {
    if e.Restarted? || Execute(w.journal, e.call, e.env).reply.Err? then []
    else Tagged(PlanOf(e.call), Execute(w.journal, e.call, e.env).reply.value)
  }

  function RepliedFrom(w: World, events: seq<Event>): seq<Reply>
    decreases |events|
  {
    if events == [] then [] else RepliesTo(w, events[0]) + RepliedFrom(After(w, events[0]), events[1..])
  }

  /** Every command any caller received in the run, in order. */
  function Replied(events: seq<Event>): seq<Reply> { RepliedFrom(INITIAL, events) }

  function HandedOut(issued: seq<Issue>): seq<Reply> {
    if issued == [] then [] else
      var last := issued[|issued| - 1];
      HandedOut(issued[..|issued| - 1]) + if last.handedOut then [Reply(last.plan, last.command)] else []
  }

  lemma {:induction false} HandedOutAppend(a: seq<Issue>, b: seq<Issue>)
    ensures HandedOut(a + b) == HandedOut(a) + HandedOut(b)
  {
    if b == [] {
      assert a + b == a;
    } else {
      HandedOutAppend(a, b[..|b| - 1]);
      assert (a + b)[..|a + b| - 1] == a + b[..|b| - 1];
    }
  }

  lemma {:induction false} HandedOutIssues(plan: string, commands: seq<Command>, handedOut: bool)
    ensures HandedOut(Issues(plan, commands, handedOut)) == if handedOut then Tagged(plan, commands) else []
  {
    if commands != [] {
      var issues := Issues(plan, commands, handedOut);
      HandedOutIssues(plan, commands[..|commands| - 1], handedOut);
      assert issues[..|issues| - 1] == Issues(plan, commands[..|commands| - 1], handedOut);
    }
  }

  // An answer that carries commands means their record was appended in that very call.
  lemma CommandsFollowTheirRecord(s: JournalState, c: Call, env: Environment)
    requires Execute(s, c, env).reply.Ok? && Execute(s, c, env).reply.value != []
    ensures var d := Decide(s.operations, c, env.clock);
            && d.Advance? && d.commands == Execute(s, c, env).reply.value
            && |Execute(s, c, env).state.durable| == |s.durable| + 1
            && Execute(s, c, env).state.durable[|s.durable|].operation == Erase(d.next)
  {
    var d := Decide(s.operations, c, env.clock);
    assert d.Advance?;
    AppendAddsOneRecord(s, d.next, env);
  }

  // What one call adds to the list of issued commands.
  function IssuedBy(w: World, c: Call, env: Environment): seq<Issue> {
    var d, executed := Decide(w.journal.operations, c, env.clock), Execute(w.journal, c, env);
    if d.Advance? && |executed.state.durable| > |w.journal.durable|
    then Issues(PlanOf(c), d.commands, executed.reply.Ok?) else []
  }

  lemma CallIssues(w: World, c: Call, env: Environment)
    requires Invariant(w)
    ensures AfterCall(w, c, env).issued == w.issued + IssuedBy(w, c, env)
  {
    if Decide(w.journal.operations, c, env.clock).Advance? { AdvanceIsAccepted(w, c, env.clock); }
  }

  // An answer to a call carries its commands exactly when it appended their record.
  lemma AnswerMatchesRecord(s: JournalState, c: Call, env: Environment)
    requires Execute(s, c, env).reply.Ok?
    ensures var d, executed := Decide(s.operations, c, env.clock), Execute(s, c, env);
            executed.reply.value == if d.Advance? && |executed.state.durable| > |s.durable| then d.commands else []
  {
    if Execute(s, c, env).reply.value != [] { CommandsFollowTheirRecord(s, c, env); }
  }

  // The caller receives exactly the commands whose record reached the log in a call that succeeded.
  lemma RepliesAreRecorded(w: World, c: Call, env: Environment)
    ensures RepliesTo(w, Called(c, env)) == HandedOut(IssuedBy(w, c, env))
  {
    var d, executed := Decide(w.journal.operations, c, env.clock), Execute(w.journal, c, env);
    if executed.reply.Ok? { AnswerMatchesRecord(w.journal, c, env); }
    if d.Advance? { HandedOutIssues(PlanOf(c), d.commands, executed.reply.Ok?); }
  }

  /** What the caller received is exactly what the run records as issued and handed out. */
  lemma RepliesAreIssued(w: World, e: Event)
    requires Invariant(w)
    ensures HandedOut(After(w, e).issued) == HandedOut(w.issued) + RepliesTo(w, e)
  {
    if e.Called? {
      CallIssues(w, e.call, e.env);
      RepliesAreRecorded(w, e.call, e.env);
      HandedOutAppend(w.issued, IssuedBy(w, e.call, e.env));
    }
  }

  lemma Associates(a: seq<Reply>, b: seq<Reply>, c: seq<Reply>)
    ensures a + b + c == a + (b + c)
  {
  }

  lemma {:induction false} RepliedAreIssuedFrom(w: World, events: seq<Event>)
    requires Invariant(w)
    ensures HandedOut(RunFrom(w, events).issued) == HandedOut(w.issued) + RepliedFrom(w, events)
    decreases |events|
  {
    if events != [] {
      var next := After(w, events[0]);
      RepliesAreIssued(w, events[0]);
      EventKeepsInvariant(w, events[0]);
      RepliedAreIssuedFrom(next, events[1..]);
      Associates(HandedOut(w.issued), RepliesTo(w, events[0]), RepliedFrom(next, events[1..]));
    }
  }

  lemma {:induction false} RepliedOneMore(w: World, events: seq<Event>, e: Event)
    ensures RepliedFrom(w, events + [e]) == RepliedFrom(w, events) + RepliesTo(RunFrom(w, events), e)
    decreases |events|
  {
    if events == [] {
      assert [e][1..] == [];
    } else {
      var next := After(w, events[0]);
      assert (events + [e])[1..] == events[1..] + [e];
      RepliedOneMore(next, events[1..], e);
      Associates(RepliesTo(w, events[0]), RepliedFrom(next, events[1..]), RepliesTo(RunFrom(next, events[1..]), e));
    }
  }

  lemma RepliedAreIssued(events: seq<Event>)
    ensures Replied(events) == HandedOut(Run(events).issued)
  {
    InvariantHolds([]);
    RepliedAreIssuedFrom(INITIAL, events);
  }

  // Where in the list of issued commands each handed-out one sits; order is kept.
  function Origin(issued: seq<Issue>, k: nat): (i: nat)
    requires k < |HandedOut(issued)|
    ensures i < |issued| && issued[i].handedOut && HandedOut(issued)[k] == Reply(issued[i].plan, issued[i].command)
  {
    var before := issued[..|issued| - 1];
    if k < |HandedOut(before)| then Origin(before, k) else |issued| - 1
  }

  lemma {:induction false} OriginsGrow(issued: seq<Issue>, j: nat, k: nat)
    requires j < k < |HandedOut(issued)|
    ensures Origin(issued, j) < Origin(issued, k)
  {
    var before := issued[..|issued| - 1];
    if k < |HandedOut(before)| { OriginsGrow(before, j, k); }
  }

  // ---------------------------------------------------------------- commands of one plan

  function IssuedTo(issued: seq<Issue>, plan: string): seq<Command> {
    if issued == [] then [] else
      var last := issued[|issued| - 1];
      IssuedTo(issued[..|issued| - 1], plan) + if last.plan == plan then [last.command] else []
  }

  lemma {:induction false} IssuedToAppend(a: seq<Issue>, b: seq<Issue>, plan: string)
    ensures IssuedTo(a + b, plan) == IssuedTo(a, plan) + IssuedTo(b, plan)
  {
    if b == [] {
      assert a + b == a;
    } else {
      IssuedToAppend(a, b[..|b| - 1], plan);
      assert (a + b)[..|a + b| - 1] == a + b[..|b| - 1];
    }
  }

  lemma {:induction false} IssuedToIssues(plan: string, commands: seq<Command>, handedOut: bool, other: string)
    ensures IssuedTo(Issues(plan, commands, handedOut), other) == if other == plan then commands else []
  {
    if commands != [] {
      var issues := Issues(plan, commands, handedOut);
      IssuedToIssues(plan, commands[..|commands| - 1], handedOut, other);
      assert issues[..|issues| - 1] == Issues(plan, commands[..|commands| - 1], handedOut);
      assert commands == commands[..|commands| - 1] + [commands[|commands| - 1]];
    }
  }

  // Where the `i`-th issue sits among the commands of its plan.
  function Position(issued: seq<Issue>, i: nat): nat
    requires i < |issued|
  {
    |IssuedTo(issued[..i], issued[i].plan)|
  }

  lemma PositionFinds(issued: seq<Issue>, i: nat)
    requires i < |issued|
    ensures Position(issued, i) < |IssuedTo(issued, issued[i].plan)|
    ensures IssuedTo(issued, issued[i].plan)[Position(issued, i)] == issued[i].command
    ensures IssuedTo(issued[..i + 1], issued[i].plan) == IssuedTo(issued[..i], issued[i].plan) + [issued[i].command]
  {
    var plan := issued[i].plan;
    assert issued == issued[..i + 1] + issued[i + 1..];
    IssuedToAppend(issued[..i + 1], issued[i + 1..], plan);
    assert issued[..i + 1][..i] == issued[..i];
  }

  lemma PositionsGrow(issued: seq<Issue>, i: nat, j: nat)
    requires i < j < |issued| && issued[i].plan == issued[j].plan
    ensures Position(issued, i) < Position(issued, j)
  {
    PositionFinds(issued, i);
    assert issued[..j] == issued[..i + 1] + issued[i + 1..j];
    IssuedToAppend(issued[..i + 1], issued[i + 1..j], issued[i].plan);
  }

  // ---------------------------------------------------------------- the invariant of every run

  ghost predicate AllInLifecycle(operations: Operations) {
    forall p | p in operations :: InLifecycle(operations[p])
  }

  function OwnedIn(operations: Operations, plan: string): seq<Command> {
    if plan in operations then OwnedCommands(operations[plan]) else []
  }

  /** The commands issued to a plan are exactly those its last durable record owns. */
  ghost predicate IssuesMatchLog(w: World) {
    forall plan: string :: IssuedTo(w.issued, plan) == OwnedIn(Latest(w.journal.durable), plan)
  }

  ghost predicate Invariant(w: World) {
    && Coherent(w.journal)
    && AllInLifecycle(w.journal.operations)
    && AllInLifecycle(Latest(w.journal.durable))
    && IssuesMatchLog(w)
  }

  // A call whose decision appends `d.next`, seen from the journal.
  lemma AdvanceIsAccepted(w: World, c: Call, clock: Option<U64>)
    requires Invariant(w)
    requires Decide(w.journal.operations, c, clock).Advance?
    ensures var d := Decide(w.journal.operations, c, clock);
            && d.next.intent.planId == PlanOf(c)
            && InLifecycle(d.next)
            && SnapshotAccepted(w.journal.operations, d.next)
            && OwnedCommands(d.next) == OwnedIn(w.journal.operations, PlanOf(c)) + d.commands
  {
    if c.Admit? {
      PreparedIsInLifecycle(c.intent);
    } else {
      PlanDecisionIsSound(w.journal.operations[c.plan], c, clock);
    }
  }

  lemma OwnedInErased(operations: Operations, plan: string)
    requires AllInLifecycle(operations)
    ensures OwnedIn(EraseAll(operations), plan) == OwnedIn(operations, plan)
  {
    if plan in operations { EraseKeepsLifecycle(operations[plan]); }
  }

  lemma UpdateKeepsLifecycle(operations: Operations, plan: string, op: TradeOperation)
    requires AllInLifecycle(operations) && InLifecycle(op)
    ensures AllInLifecycle(operations[plan := op])
  {
  }

  lemma IssueKeepsMatch(issued: seq<Issue>, operations: Operations, op: TradeOperation, commands: seq<Command>,
                        handedOut: bool, plan: string)
    requires IssuedTo(issued, plan) == OwnedIn(operations, plan)
    requires OwnedCommands(op) == OwnedIn(operations, op.intent.planId) + commands
    ensures IssuedTo(issued + Issues(op.intent.planId, commands, handedOut), plan)
         == OwnedIn(operations[op.intent.planId := op], plan)
  {
    IssuedToAppend(issued, Issues(op.intent.planId, commands, handedOut), plan);
    IssuedToIssues(op.intent.planId, commands, handedOut, plan);
  }

  lemma RecordKeepsMatch(w: World, op: TradeOperation, commands: seq<Command>, record: Record, handedOut: bool)
    requires Invariant(w) && !w.journal.poisoned && InLifecycle(op) && record.operation == Erase(op)
    requires OwnedCommands(op) == OwnedIn(w.journal.operations, op.intent.planId) + commands
    ensures forall plan: string ::
              IssuedTo(w.issued + Issues(op.intent.planId, commands, handedOut), plan)
              == OwnedIn(Latest(w.journal.durable + [record]), plan)
  {
    EraseKeepsLifecycle(op);
    LatestAfter(w.journal.durable, record);
    OwnedInErased(w.journal.operations, op.intent.planId);
    forall plan: string
      ensures IssuedTo(w.issued + Issues(op.intent.planId, commands, handedOut), plan)
           == OwnedIn(Latest(w.journal.durable + [record]), plan)
    {
      assert IssuedTo(w.issued, plan) == OwnedIn(Latest(w.journal.durable), plan);
      IssueKeepsMatch(w.issued, Latest(w.journal.durable), Erase(op), commands, handedOut, plan);
    }
  }

  lemma RecordKeepsLifecycles(durable: seq<Record>, op: TradeOperation, record: Record)
    requires AllInLifecycle(Latest(durable)) && InLifecycle(op) && record.operation == Erase(op)
    ensures AllInLifecycle(Latest(durable + [record]))
  {
    EraseKeepsLifecycle(op);
    LatestAfter(durable, record);
    UpdateKeepsLifecycle(Latest(durable), op.intent.planId, Erase(op));
  }

  lemma AdvanceKeepsLifecycles(w: World, op: TradeOperation, commands: seq<Command>, env: Environment)
    requires AllInLifecycle(w.journal.operations) && AllInLifecycle(Latest(w.journal.durable)) && InLifecycle(op)
    ensures var after := AfterAdvance(w, op, commands, env).journal;
            AllInLifecycle(after.operations) && AllInLifecycle(Latest(after.durable))
  {
    var s := w.journal;
    AppendAddsOneRecord(s, op, env);
    UpdateKeepsLifecycle(s.operations, op.intent.planId, op);
    if env.recordClock.Some? {
      RecordKeepsLifecycles(s.durable, op, Record(s.nextSequence, env.recordClock.value, Erase(op)));
    }
  }

  lemma AdvanceKeepsMatch(w: World, op: TradeOperation, commands: seq<Command>, env: Environment)
    requires Invariant(w) && InLifecycle(op)
    requires OwnedCommands(op) == OwnedIn(w.journal.operations, op.intent.planId) + commands
    ensures IssuesMatchLog(AfterAdvance(w, op, commands, env))
  {
    var s := w.journal;
    AppendAddsOneRecord(s, op, env);
    if !s.poisoned && env.recordClock.Some? {
      RecordKeepsMatch(w, op, commands, Record(s.nextSequence, env.recordClock.value, Erase(op)),
                       Carry(s, Advance(op, commands), env).reply.Ok?);
    }
  }

  lemma AdvanceKeepsInvariant(w: World, op: TradeOperation, commands: seq<Command>, env: Environment)
    requires Invariant(w) && InLifecycle(op)
    requires OwnedCommands(op) == OwnedIn(w.journal.operations, op.intent.planId) + commands
    ensures Invariant(AfterAdvance(w, op, commands, env))
  {
    AppendKeepsCoherence(w.journal, op, env);
    AdvanceKeepsLifecycles(w, op, commands, env);
    AdvanceKeepsMatch(w, op, commands, env);
  }

  lemma CallKeepsInvariant(w: World, c: Call, env: Environment)
    requires Invariant(w)
    ensures Invariant(AfterCall(w, c, env))
  {
    var d := Decide(w.journal.operations, c, env.clock);
    if d.Advance? {
      AdvanceIsAccepted(w, c, env.clock);
      AdvanceKeepsInvariant(w, d.next, d.commands, env);
    }
  }

  lemma RestartKeepsInvariant(w: World)
    requires Invariant(w)
    ensures Invariant(AfterRestart(w))
  {
    ReopenedIsCoherent(w.journal.durable, w.journal.torn);
    ReplayIsLatest(w.journal.durable);
  }

  lemma EventKeepsInvariant(w: World, e: Event)
    requires Invariant(w)
    ensures Invariant(After(w, e))
  {
    if e.Restarted? { RestartKeepsInvariant(w); } else { CallKeepsInvariant(w, e.call, e.env); }
  }

  lemma {:induction false} InvariantFrom(w: World, events: seq<Event>)
    requires Invariant(w)
    ensures Invariant(RunFrom(w, events))
    decreases |events|
  {
    if events != [] {
      EventKeepsInvariant(w, events[0]);
      InvariantFrom(After(w, events[0]), events[1..]);
    }
  }

  lemma InvariantHolds(events: seq<Event>)
    ensures Invariant(Run(events))
  {
    EmptyIsCoherent();
    assert forall plan: string :: IssuedTo(INITIAL.issued, plan) == OwnedIn(Latest(EMPTY.durable), plan) == [];
    InvariantFrom(INITIAL, events);
  }
}
