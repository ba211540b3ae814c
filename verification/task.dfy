/** The paper execution task as the program runs it: loops over a coordinator object. */
module PaperTask {
  import opened Machine
  import opened Trade
  import opened Journal
  import opened Coordinator
  import opened Paper

  class PaperTradeTask {
    const coordinator: PaperTradeCoordinator

    constructor (coordinator: PaperTradeCoordinator)
      ensures this.coordinator == coordinator
    {
      this.coordinator := coordinator;
    }

    ghost function State(): JournalState
      reads coordinator.journal
    {
      coordinator.journal.State()
    }

    method SettleCommand(plan: string, c: Command, weather: Weather, calls: nat)
      returns (r: Result<(), TradeError>, after: nat)
      modifies coordinator.journal
      ensures Progress(State(), after, r) == Settle(old(State()), plan, c, weather, calls)
    {
      after := calls;
      var operations := coordinator.journal.operations;
      if plan !in operations || operations[plan].intent.plannedTokenB <= 0 { return Err(UnknownPlan), after; }
      var simulated := Simulate(operations[plan].intent, c);
      if simulated.Err? { return Err(simulated.error), after; }
      var reply := coordinator.RecordResult(plan, simulated.value.role, simulated.value.leg, weather(calls));
      after := calls + 1;
      r := if reply.Err? then Err(reply.error) else Ok(());
    }

    method SettleCommands(plan: string, commands: seq<Command>, weather: Weather, calls: nat)
      returns (r: Result<(), TradeError>, after: nat)
      modifies coordinator.journal
      ensures Progress(State(), after, r) == SettleAll(old(State()), plan, commands, weather, calls)
    {
      r, after := Ok(()), calls;
      var i := 0;
      while i < |commands|
        invariant 0 <= i <= |commands| && r == Ok(())
        invariant SettleAll(old(State()), plan, commands, weather, calls)
               == SettleAll(State(), plan, commands[i..], weather, after)
      {
        assert commands[i..][1..] == commands[i + 1..];
        r, after := SettleCommand(plan, commands[i], weather, after);
        if r.Err? { return; }
        i := i + 1;
      }
    }

    /** Runs a plan until no command is left; ends exactly where the specification ends. */
    method DrivePlan(plan: string, weather: Weather, calls: nat) returns (r: Result<(), TradeError>, after: nat)
      requires Keyed(coordinator.journal.operations)
      modifies coordinator.journal
      ensures Progress(State(), after, r) == Drive(old(State()), plan, weather, calls)
    {
      after := calls;
      while true
        invariant Keyed(coordinator.journal.operations)
        invariant Drive(old(State()), plan, weather, calls) == Drive(State(), plan, weather, after)
        decreases WorkOf(State(), plan)
      {
        TakeStep(State(), plan, weather(after));
        var taken := coordinator.TakeCommands(plan, weather(after));
        after := after + 1;
        if taken.Err? { return Err(taken.error), after; }
        if taken.value == [] { return Ok(()), after; }
        SettleAllStep(State(), plan, taken.value, weather, after);
        r, after := SettleCommands(plan, taken.value, weather, after);
        if r.Err? { return; }
      }
    }

    /** Settles what was dispatched before a restart, then drives on. */
    method ResumeAndDrive(plan: string, weather: Weather, calls: nat) returns (r: Result<(), TradeError>, after: nat)
      requires Keyed(coordinator.journal.operations)
      modifies coordinator.journal
      ensures Progress(State(), after, r) == ResumePlan(old(State()), plan, weather, calls)
    {
      after := calls;
      while true
        invariant Keyed(coordinator.journal.operations)
        invariant ResumePlan(old(State()), plan, weather, calls) == ResumePlan(State(), plan, weather, after)
        decreases PendingOf(State(), plan)
      {
        if plan !in coordinator.journal.operations { return Err(UnknownPlan), after; }
        var resumed := ResumeCommand(coordinator.journal.operations[plan], weather(after).clock);
        after := after + 1;
        if resumed.Err? { return Err(resumed.error), after; }
        if resumed.value.None? { break; }
        SettleStep(State(), plan, resumed.value.value, weather, after);
        r, after := SettleCommand(plan, resumed.value.value, weather, after);
        if r.Err? { return; }
      }
      r, after := DrivePlan(plan, weather, after);
    }
  }
}
