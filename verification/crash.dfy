/** Crash equivalence of paper execution. */
module CrashRecovery {
  import opened Machine
  import opened Trade
  import opened Journal
  import opened Coordinator
  import opened Lifecycle
  import opened Paper

  // ---------------------------------------------------------------- every paper record is reachable

  lemma PaperStepIsSound(i: TradeIntent, k: nat)
    requires ValidIntent(i) && k < LastRecord(i) && InLifecycle(PaperRecord(i, k))
    ensures InLifecycle(PaperRecord(i, k + 1)) && TransitionAccepted(PaperRecord(i, k), PaperRecord(i, k + 1))
  {
    PaperLegsAreValid(i);
    if PaperReport(i, k).Some? {
      var report := PaperReport(i, k).value;
      PaperReports(i, k, None);
      PlanDecisionIsSound(PaperRecord(i, k), Report(i.planId, report.role, report.leg), None);
    } else {
      PaperTakes(i, k, None);
      TakeIsSound(PaperRecord(i, k), None);
    }
  }

  lemma {:induction false} PaperIsInLifecycle(i: TradeIntent, k: nat)
    requires ValidIntent(i) && k <= LastRecord(i)
    ensures InLifecycle(PaperRecord(i, k))
  {
    if k == 0 {
      PreparedIsInLifecycle(i);
    } else {
      PaperIsInLifecycle(i, k - 1);
      PaperStepIsSound(i, k - 1);
    }
  }

  // ---------------------------------------------------------------- one step of the task

  predicate Calm(env: Environment) {
    env.clock.Some? && env.recordClock.Some? && env.fitsLine && env.write.Synced?
  }

  ghost predicate CalmWeather(weather: Weather) { forall n: nat :: Calm(weather(n)) }

  /** The journal holds record k of the trade and room for the rest of it. */
  ghost predicate At(s: JournalState, i: TradeIntent, k: nat) {
    && Coherent(s) && !s.poisoned && k <= LastRecord(i)
    && i.planId in s.operations && s.operations[i.planId] == PaperRecord(i, k)
    && |s.durable| + LastRecord(i) - k <= U64_MAX
  }

  /** From `before` to `after` exactly the records k + 1 .. n of the trade were appended, and no other
      plan was touched. */
  predicate Wrote(before: JournalState, after: JournalState, i: TradeIntent, k: nat, n: nat) {
    && k <= n
    && after.operations == before.operations[i.planId := PaperRecord(i, n)]
    && |after.durable| == |before.durable| + n - k
    && after.durable[..|before.durable|] == before.durable
    && forall j | k < j <= n :: after.durable[|before.durable| + j - k - 1].operation == PaperRecord(i, j)
  }

  lemma WroteTransitive(a: JournalState, b: JournalState, c: JournalState, i: TradeIntent, k: nat, m: nat, n: nat)
    requires Wrote(a, b, i, k, m) && Wrote(b, c, i, m, n)
    ensures Wrote(a, c, i, k, n)
  {
    assert c.durable[..|a.durable|] == c.durable[..|b.durable|][..|a.durable|];
    forall j | k < j <= m
      ensures c.durable[|a.durable| + j - k - 1].operation == PaperRecord(i, j)
    {
      assert c.durable[|a.durable| + j - k - 1] == c.durable[..|b.durable|][|a.durable| + j - k - 1];
    }
  }

  lemma CalmAppend(s: JournalState, op: TradeOperation, env: Environment)
    requires Coherent(s) && !s.poisoned && Calm(env) && SnapshotAccepted(s.operations, op) && |s.durable| < U64_MAX
    ensures var appended := AppendTo(s, op, env);
            && appended.error.None? && !appended.state.poisoned
            && appended.state.operations == s.operations[op.intent.planId := op]
            && appended.state.durable == s.durable + [Record(s.nextSequence, env.recordClock.value, Erase(op))]
  {
    CountStaysExact(s.operations, s.activeCount, op.intent.planId, op);
  }

  lemma CalmCarry(s: JournalState, op: TradeOperation, commands: seq<Command>, env: Environment)
    requires Coherent(s) && !s.poisoned && Calm(env) && SnapshotAccepted(s.operations, op) && |s.durable| < U64_MAX
    requires Erase(op) == op
    ensures var executed := Carry(s, Advance(op, commands), env);
            && executed.reply == Ok(commands) && Coherent(executed.state) && !executed.state.poisoned
            && executed.state.operations == s.operations[op.intent.planId := op]
            && |executed.state.durable| == |s.durable| + 1 && executed.state.durable[..|s.durable|] == s.durable
            && executed.state.durable[|s.durable|].operation == op
  {
    CalmAppend(s, op, env);
    AppendKeepsCoherence(s, op, env);
  }

  lemma PaperAdvance(s: JournalState, i: TradeIntent, k: nat, commands: seq<Command>, env: Environment)
    requires ValidIntent(i) && At(s, i, k) && k < LastRecord(i) && Calm(env)
    ensures var executed := Carry(s, Advance(PaperRecord(i, k + 1), commands), env);
            executed.reply == Ok(commands) && At(executed.state, i, k + 1) && Wrote(s, executed.state, i, k, k + 1)
  {
    var next := PaperRecord(i, k + 1);
    PaperIsInLifecycle(i, k);
    PaperStepIsSound(i, k);
    PaperRecordsAreErased(i, k + 1);
    assert SnapshotAccepted(s.operations, next);
    CalmCarry(s, next, commands, env);
  }

  lemma PaperTakeStep(s: JournalState, i: TradeIntent, k: nat, env: Environment)
    requires ValidIntent(i) && At(s, i, k) && k < LastRecord(i) && PaperReport(i, k).None? && Calm(env)
    ensures var executed := Execute(s, Take(i.planId), env);
            && executed.reply == Ok(PaperCommands(i, k))
            && At(executed.state, i, k + 1) && Wrote(s, executed.state, i, k, k + 1)
  {
    PaperTakes(i, k, env.clock);
    PaperAdvance(s, i, k, PaperCommands(i, k), env);
  }

  /** A part of the task that took the trade from record k of `s` to record n, with this reply. */
  ghost predicate Reach(s: JournalState, p: Progress, i: TradeIntent, k: nat, n: nat, reply: Result<(), TradeError>) {
    p.reply == reply && At(p.state, i, n) && Wrote(s, p.state, i, k, n)
  }

  lemma ReachOn(s: JournalState, mid: JournalState, p: Progress, i: TradeIntent, k: nat, m: nat, n: nat,
                reply: Result<(), TradeError>)
    requires Wrote(s, mid, i, k, m) && Reach(mid, p, i, m, n, reply)
    ensures Reach(s, p, i, k, n, reply)
  {
    WroteTransitive(s, mid, p.state, i, k, m, n);
  }

  // ---------------------------------------------------------------- settling the pending legs

  // Where settling the pending leg of record k leads, and how it answers.
  function SettledAt(i: TradeIntent, k: nat): nat
    requires PaperReport(i, k).Some?
  {
    if Reported(i, k).Ok? then k + 1 else k
  }

  function SettledReply(i: TradeIntent, k: nat): Result<(), TradeError>
    requires PaperReport(i, k).Some?
  {
    if Reported(i, k).Ok? then Ok(()) else Err(Reported(i, k).error)
  }

  // Settling a pending paper command is reporting its leg.
  lemma SettleIsReport(s: JournalState, i: TradeIntent, k: nat, c: Command, weather: Weather, calls: nat)
    requires ValidIntent(i) && i.planId in s.operations && s.operations[i.planId] == PaperRecord(i, k)
    requires k < LastRecord(i) && PaperReport(i, k).Some? && Simulate(i, c) == Ok(PaperReport(i, k).value)
    ensures var executed := Carry(s, Advance(PaperRecord(i, k + 1), []), weather(calls));
            Settle(s, i.planId, c, weather, calls)
            == Progress(executed.state, calls + 1, if executed.reply.Err? then Err(executed.reply.error) else Ok(()))
  {
    PaperReports(i, k, weather(calls).clock);
    PaperLegsAreValid(i);
  }

  lemma PaperSettleStep(s: JournalState, i: TradeIntent, k: nat, c: Command, weather: Weather, calls: nat)
    requires ValidIntent(i) && At(s, i, k) && k < LastRecord(i) && PaperReport(i, k).Some? && CalmWeather(weather)
    requires Simulate(i, c) == Reported(i, k)
    ensures Reach(s, Settle(s, i.planId, c, weather, calls), i, k, SettledAt(i, k), SettledReply(i, k))
  {
    if Reported(i, k).Ok? {
      SettleIsReport(s, i, k, c, weather, calls);
      PaperAdvance(s, i, k, [], weather(calls));
    }
  }

  lemma SettleAllStarts(s: JournalState, plan: string, commands: seq<Command>, weather: Weather, calls: nat)
    requires commands != []
    ensures var first := Settle(s, plan, commands[0], weather, calls);
            SettleAll(s, plan, commands, weather, calls)
            == if first.reply.Err? then first else SettleAll(first.state, plan, commands[1..], weather, first.calls)
  {
  }

  // The commands issued on the way to record k + 1 are the ones whose legs are pending from there on.
  lemma CommandsMatchReports(i: TradeIntent, k: nat)
    requires ValidIntent(i) && k < LastRecord(i) && PaperCommands(i, k) != []
    ensures 1 <= |PaperCommands(i, k)| <= 2 && k + 1 + |PaperCommands(i, k)| < LastRecord(i)
    ensures Awaits(i, k + 1, PaperCommands(i, k))
  {
    CexLegIsSimulated(i);
  }

  // Where settling everything issued on the way to record k + 1 leads, and how it answers.
  function LastPending(i: TradeIntent, k: nat): nat { k + |PaperCommands(i, k)| }

  lemma SettlesLast(s: JournalState, i: TradeIntent, k: nat, commands: seq<Command>, weather: Weather, calls: nat)
    requires ValidIntent(i) && At(s, i, k) && k < LastRecord(i) && PaperReport(i, k).Some? && CalmWeather(weather)
    requires |commands| == 1 && Simulate(i, commands[0]) == Reported(i, k)
    ensures Reach(s, SettleAll(s, i.planId, commands, weather, calls), i, k, SettledAt(i, k), SettledReply(i, k))
  {
    PaperSettleStep(s, i, k, commands[0], weather, calls);
    SettleAllStarts(s, i.planId, commands, weather, calls);
  }

  lemma SettlesTwo(s: JournalState, i: TradeIntent, k: nat, commands: seq<Command>, weather: Weather, calls: nat)
    requires ValidIntent(i) && At(s, i, k) && k + 1 < LastRecord(i) && CalmWeather(weather) && |commands| == 2
    requires PaperReport(i, k).Some? && Simulate(i, commands[0]) == Reported(i, k) && Reported(i, k).Ok?
    requires PaperReport(i, k + 1).Some? && Simulate(i, commands[1]) == Reported(i, k + 1)
    ensures Reach(s, SettleAll(s, i.planId, commands, weather, calls), i, k,
                  SettledAt(i, k + 1), SettledReply(i, k + 1))
  {
    PaperSettleStep(s, i, k, commands[0], weather, calls);
    SettleAllStarts(s, i.planId, commands, weather, calls);
    var first := Settle(s, i.planId, commands[0], weather, calls);
    SettlesLast(first.state, i, k + 1, commands[1..], weather, first.calls);
    ReachOn(s, first.state, SettleAll(first.state, i.planId, commands[1..], weather, first.calls),
            i, k, k + 1, SettledAt(i, k + 1), SettledReply(i, k + 1));
  }

  // One or two commands, whose legs are the pending ones from record k on.
  predicate Awaits(i: TradeIntent, k: nat, commands: seq<Command>)
    requires i.plannedTokenB > 0
  {
    && PaperReport(i, k).Some?
    && (|commands| == 1 ==> Simulate(i, commands[0]) == Reported(i, k))
    && (|commands| == 2 ==>
          && Simulate(i, commands[0]) == Reported(i, k) && Reported(i, k).Ok?
          && PaperReport(i, k + 1).Some? && Simulate(i, commands[1]) == Reported(i, k + 1))
  }

  lemma PaperSettleAll(s: JournalState, i: TradeIntent, k: nat, weather: Weather, calls: nat)
    requires ValidIntent(i) && At(s, i, k + 1) && k < LastRecord(i) && PaperCommands(i, k) != [] && CalmWeather(weather)
    ensures PaperReport(i, LastPending(i, k)).Some?
    ensures Reach(s, SettleAll(s, i.planId, PaperCommands(i, k), weather, calls), i, k + 1,
                  SettledAt(i, LastPending(i, k)), SettledReply(i, LastPending(i, k)))
  {
    var commands := PaperCommands(i, k);
    CommandsMatchReports(i, k);
    if |commands| == 2 {
      SettlesTwo(s, i, k + 1, commands, weather, calls);
    } else {
      SettlesLast(s, i, k + 1, commands, weather, calls);
    }
  }

  // ---------------------------------------------------------------- the loops end

  function DriveOn(p: Progress, plan: string, weather: Weather): Progress
    requires Keyed(p.state.operations)
  {
    if p.reply.Err? then p else Drive(p.state, plan, weather, p.calls)
  }

  lemma DriveUnfolds(s: JournalState, plan: string, commands: seq<Command>, weather: Weather, calls: nat)
    requires Keyed(s.operations) && Execute(s, Take(plan), weather(calls)).reply == Ok(commands)
    ensures var taken := Execute(s, Take(plan), weather(calls)).state;
            if commands == [] then Drive(s, plan, weather, calls) == Progress(taken, calls + 1, Ok(()))
            else var settled := SettleAll(taken, plan, commands, weather, calls + 1);
                 Keyed(settled.state.operations) && Drive(s, plan, weather, calls) == DriveOn(settled, plan, weather)
  {
    TakeStep(s, plan, weather(calls));
    SettleAllStep(Execute(s, Take(plan), weather(calls)).state, plan, commands, weather, calls + 1);
  }

  // The first half of a round of the drive loop.
  lemma DriveTakes(s: JournalState, i: TradeIntent, k: nat, weather: Weather, calls: nat) returns (taken: JournalState)
    requires ValidIntent(i) && At(s, i, k) && k < LastRecord(i) && PaperReport(i, k).None? && CalmWeather(weather)
    ensures At(taken, i, k + 1) && Wrote(s, taken, i, k, k + 1) && Keyed(s.operations)
    ensures if PaperCommands(i, k) == [] then Drive(s, i.planId, weather, calls) == Progress(taken, calls + 1, Ok(()))
            else var settled := SettleAll(taken, i.planId, PaperCommands(i, k), weather, calls + 1);
                 && Keyed(settled.state.operations)
                 && Drive(s, i.planId, weather, calls) == DriveOn(settled, i.planId, weather)
  {
    PaperTakeStep(s, i, k, weather(calls));
    taken := Execute(s, Take(i.planId), weather(calls)).state;
    DriveUnfolds(s, i.planId, PaperCommands(i, k), weather, calls);
  }

  // A whole round: take, then settle what was issued.
  lemma DriveRound(s: JournalState, i: TradeIntent, k: nat, weather: Weather, calls: nat) returns (settled: Progress)
    requires ValidIntent(i) && At(s, i, k) && k < LastRecord(i) && PaperReport(i, k).None? && CalmWeather(weather)
    requires PaperCommands(i, k) != []
    ensures Keyed(s.operations) && Keyed(settled.state.operations) && PaperReport(i, LastPending(i, k)).Some?
    ensures Drive(s, i.planId, weather, calls) == DriveOn(settled, i.planId, weather)
    ensures Reach(s, settled, i, k, SettledAt(i, LastPending(i, k)), SettledReply(i, LastPending(i, k)))
  {
    var taken := DriveTakes(s, i, k, weather, calls);
    settled := SettleAll(taken, i.planId, PaperCommands(i, k), weather, calls + 1);
    PaperSettleAll(taken, i, k, weather, calls + 1);
    ReachOn(s, taken, settled, i, k, k + 1, SettledAt(i, LastPending(i, k)), SettledReply(i, LastPending(i, k)));
  }

  // Where a round leads on the way to the end.
  lemma RoundLeadsToEnd(i: TradeIntent, k: nat)
    requires k < LastRecord(i) && k < EndRecord(i) && PaperReport(i, k).None?
    ensures PaperCommands(i, k) == [] ==> k + 1 == EndRecord(i) && EndReply(i) == Ok(())
    ensures PaperCommands(i, k) != [] ==>
              && PaperReport(i, LastPending(i, k)).Some?
              && var n, reply := SettledAt(i, LastPending(i, k)), SettledReply(i, LastPending(i, k));
              if reply.Ok? then k < n < EndRecord(i) && PaperReport(i, n).None?
              else n == EndRecord(i) && reply == EndReply(i)
  {
  }

  /** Driving an undisturbed paper trade from any record without a pending leg takes it to its end: the
      terminal record, or the error of a hedge whose scaling does not fit. */
  lemma {:induction false} DriveEnds(s: JournalState, i: TradeIntent, k: nat, weather: Weather, calls: nat)
    requires ValidIntent(i) && At(s, i, k) && k < EndRecord(i) && PaperReport(i, k).None? && CalmWeather(weather)
    ensures Keyed(s.operations)
    ensures Reach(s, Drive(s, i.planId, weather, calls), i, k, EndRecord(i), EndReply(i))
    decreases LastRecord(i) - k, 0
  {
    RoundLeadsToEnd(i, k);
    if PaperCommands(i, k) == [] {
      var taken := DriveTakes(s, i, k, weather, calls);
    } else {
      var settled := DriveRound(s, i, k, weather, calls);
      if settled.reply.Ok? {
        DriveRest(s, settled.state, i, k, SettledAt(i, LastPending(i, k)), weather, settled.calls);
      }
    }
  }

  lemma {:induction false} DriveRest(
    s: JournalState, mid: JournalState, i: TradeIntent, k: nat, n: nat, weather: Weather, calls: nat)
    requires ValidIntent(i) && At(mid, i, n) && n < EndRecord(i) && PaperReport(i, n).None? && CalmWeather(weather)
    requires Wrote(s, mid, i, k, n)
    ensures Keyed(mid.operations)
    ensures Reach(s, Drive(mid, i.planId, weather, calls), i, k, EndRecord(i), EndReply(i))
    decreases LastRecord(i) - n, 1
  {
    DriveEnds(mid, i, n, weather, calls);
    ReachOn(s, mid, Drive(mid, i.planId, weather, calls), i, k, n, EndRecord(i), EndReply(i));
  }

  function ResumeOn(p: Progress, plan: string, weather: Weather): Progress
    requires Keyed(p.state.operations)
  {
    if p.reply.Err? then p else ResumePlan(p.state, plan, weather, p.calls)
  }

  lemma ResumeUnfolds(s: JournalState, plan: string, weather: Weather, calls: nat)
    requires Keyed(s.operations) && plan in s.operations && ResumeCommand(s.operations[plan], weather(calls).clock).Ok?
    ensures var resumed := ResumeCommand(s.operations[plan], weather(calls).clock).value;
            if resumed.None? then ResumePlan(s, plan, weather, calls) == Drive(s, plan, weather, calls + 1)
            else var settled := Settle(s, plan, resumed.value, weather, calls + 1);
                 && Keyed(settled.state.operations)
                 && ResumePlan(s, plan, weather, calls) == ResumeOn(settled, plan, weather)
  {
    var resumed := ResumeCommand(s.operations[plan], weather(calls).clock).value;
    if resumed.Some? { SettleStep(s, plan, resumed.value, weather, calls + 1); }
  }

  // With no leg pending, resuming is driving.
  lemma ResumeIsDrive(s: JournalState, i: TradeIntent, k: nat, weather: Weather, calls: nat)
    requires ValidIntent(i) && At(s, i, k) && k < LastRecord(i) && CalmWeather(weather) && PaperReport(i, k).None?
    ensures Keyed(s.operations)
    ensures ResumePlan(s, i.planId, weather, calls) == Drive(s, i.planId, weather, calls + 1)
  {
    assert Calm(weather(calls));
    PaperResumes(i, k, weather(calls).clock.value);
    ResumeUnfolds(s, i.planId, weather, calls);
  }

  // One round of the resume loop.
  lemma ResumeRound(s: JournalState, i: TradeIntent, k: nat, weather: Weather, calls: nat) returns (settled: Progress)
    requires ValidIntent(i) && At(s, i, k) && k < LastRecord(i) && CalmWeather(weather) && PaperReport(i, k).Some?
    ensures Keyed(s.operations) && Keyed(settled.state.operations)
    ensures ResumePlan(s, i.planId, weather, calls) == ResumeOn(settled, i.planId, weather)
    ensures Reach(s, settled, i, k, SettledAt(i, k), SettledReply(i, k))
  {
    assert Calm(weather(calls));
    PaperResumes(i, k, weather(calls).clock.value);
    ResumeUnfolds(s, i.planId, weather, calls);
    var command := ResumeCommand(PaperRecord(i, k), weather(calls).clock).value.value;
    PaperSettleStep(s, i, k, command, weather, calls + 1);
    settled := Settle(s, i.planId, command, weather, calls + 1);
  }

  lemma SettlingLeadsToEnd(i: TradeIntent, k: nat)
    requires k <= EndRecord(i) && PaperReport(i, k).Some?
    ensures if SettledReply(i, k).Ok? then SettledAt(i, k) == k + 1 <= EndRecord(i) && k + 1 < LastRecord(i)
            else k == EndRecord(i) && SettledReply(i, k) == EndReply(i)
  {
  }

  /** Resuming from any record the trade can be found at takes it to the same end. */
  lemma {:induction false} ResumeEnds(s: JournalState, i: TradeIntent, k: nat, weather: Weather, calls: nat)
    requires ValidIntent(i) && At(s, i, k) && k <= EndRecord(i) && k < LastRecord(i) && CalmWeather(weather)
    ensures Keyed(s.operations)
    ensures Reach(s, ResumePlan(s, i.planId, weather, calls), i, k, EndRecord(i), EndReply(i))
    decreases LastRecord(i) - k, 1
  {
    if PaperReport(i, k).Some? {
      ResumePendingEnds(s, i, k, weather, calls);
    } else {
      ResumeIdleEnds(s, i, k, weather, calls);
    }
  }

  lemma ResumeIdleEnds(s: JournalState, i: TradeIntent, k: nat, weather: Weather, calls: nat)
    requires ValidIntent(i) && At(s, i, k) && k <= EndRecord(i) && k < LastRecord(i) && CalmWeather(weather)
    requires PaperReport(i, k).None?
    ensures Keyed(s.operations)
    ensures Reach(s, ResumePlan(s, i.planId, weather, calls), i, k, EndRecord(i), EndReply(i))
  {
    IdleBeforeEnd(i, k);
    ResumeIsDrive(s, i, k, weather, calls);
    DriveEnds(s, i, k, weather, calls + 1);
  }

  lemma IdleBeforeEnd(i: TradeIntent, k: nat)
    requires k <= EndRecord(i) && k < LastRecord(i) && PaperReport(i, k).None?
    ensures k < EndRecord(i)
  {
  }

  lemma {:induction false} ResumePendingEnds(s: JournalState, i: TradeIntent, k: nat, weather: Weather, calls: nat)
    requires ValidIntent(i) && At(s, i, k) && k <= EndRecord(i) && k < LastRecord(i) && CalmWeather(weather)
    requires PaperReport(i, k).Some?
    ensures Keyed(s.operations)
    ensures Reach(s, ResumePlan(s, i.planId, weather, calls), i, k, EndRecord(i), EndReply(i))
    decreases LastRecord(i) - k, 0
  {
    var settled := ResumeRound(s, i, k, weather, calls);
    SettlingLeadsToEnd(i, k);
    if settled.reply.Ok? { ResumeRest(s, settled.state, i, k, weather, settled.calls); }
  }

  lemma {:induction false} ResumeRest(s: JournalState, mid: JournalState, i: TradeIntent, k: nat, weather: Weather,
                                      calls: nat)
    requires ValidIntent(i) && At(mid, i, k + 1) && k + 1 <= EndRecord(i) && k + 1 < LastRecord(i)
    requires CalmWeather(weather)
    requires Wrote(s, mid, i, k, k + 1)
    ensures Keyed(mid.operations)
    ensures Reach(s, ResumePlan(mid, i.planId, weather, calls), i, k, EndRecord(i), EndReply(i))
    decreases LastRecord(i) - k - 1, 2
  {
    ResumeEnds(mid, i, k + 1, weather, calls);
    ReachOn(s, mid, ResumePlan(mid, i.planId, weather, calls), i, k, k + 1, EndRecord(i), EndReply(i));
  }

  // ---------------------------------------------------------------- crash equivalence

  /** A journal ready to admit the intent, with sequence numbers left for the whole trade. */
  ghost predicate Admissible(s: JournalState, i: TradeIntent) {
    && Coherent(s) && !s.poisoned
    && AdmitDecision(s.operations, i) == Advance(PreparedOperation(i), [])
    && |s.durable| + LastRecord(i) + 1 <= U64_MAX
  }

  lemma AdmitReaches(s: JournalState, i: TradeIntent, env: Environment)
    requires Admissible(s, i) && Calm(env)
    ensures var admitted := Execute(s, Admit(i), env);
            admitted.reply.Ok? && At(admitted.state, i, 0) && AdmittedFrom(s, admitted.state, i)
  {
    PreparedIsInLifecycle(i);
    PaperRecordsAreErased(i, 0);
    CalmCarry(s, PreparedOperation(i), [], env);
  }

  function Admitted(s: JournalState, i: TradeIntent, env: Environment): JournalState {
    Execute(s, Admit(i), env).state
  }

  // The task on an admissible intent, without interruption.
  ghost function Uninterrupted(s: JournalState, i: TradeIntent, env: Environment, weather: Weather): Progress
    requires Admissible(s, i) && Calm(env) && CalmWeather(weather)
  {
    AdmitReaches(s, i, env);
    Drive(Admitted(s, i, env), i.planId, weather, 0)
  }

  /** `full` is `s` plus the records 0 .. n of one paper trade, in order; no other plan was touched. */
  ghost predicate Ran(s: JournalState, full: JournalState, i: TradeIntent, n: nat) {
    && Coherent(full) && !full.poisoned
    && full.operations == s.operations[i.planId := PaperRecord(i, n)]
    && |full.durable| == |s.durable| + n + 1 && |full.durable| + LastRecord(i) - n <= U64_MAX && n <= LastRecord(i)
    && full.durable[..|s.durable|] == s.durable
    && (forall j | 0 <= j <= n :: full.durable[|s.durable| + j].operation == PaperRecord(i, j))
  }

  // `first` is `s` after the trade was admitted.
  predicate AdmittedFrom(s: JournalState, first: JournalState, i: TradeIntent) {
    && |first.durable| == |s.durable| + 1 && first.durable[..|s.durable|] == s.durable
    && first.durable[|s.durable|].operation == PaperRecord(i, 0)
    && first.operations == s.operations[i.planId := PaperRecord(i, 0)]
  }

  lemma AdmittedThenWrote(s: JournalState, first: JournalState, full: JournalState, i: TradeIntent, n: nat)
    requires AdmittedFrom(s, first, i) && Wrote(first, full, i, 0, n) && At(full, i, n)
    ensures Ran(s, full, i, n)
  {
    assert full.durable[..|s.durable|] == full.durable[..|first.durable|][..|s.durable|];
    forall j | 0 <= j <= n
      ensures full.durable[|s.durable| + j].operation == PaperRecord(i, j)
    {
      if j == 0 {
        assert full.durable[|s.durable|] == full.durable[..|first.durable|][|s.durable|];
      } else {
        assert full.durable[|first.durable| + j - 0 - 1].operation == PaperRecord(i, j);
      }
    }
    UpdatedTwice(s.operations, i.planId, PaperRecord(i, 0), PaperRecord(i, n));
  }

  lemma UpdatedTwice(m: map<string, TradeOperation>, plan: string, a: TradeOperation, b: TradeOperation)
    ensures m[plan := a][plan := b] == m[plan := b]
  {
  }

  /** Without interruption the task replies and ends as the intent determines, and its log is exactly the
      sequence of paper records up to that end. */
  lemma UninterruptedEnds(s: JournalState, i: TradeIntent, env: Environment, weather: Weather)
    requires Admissible(s, i) && Calm(env) && CalmWeather(weather)
    ensures var full := Uninterrupted(s, i, env, weather);
            full.reply == EndReply(i) && Ran(s, full.state, i, EndRecord(i))
  {
    AdmitReaches(s, i, env);
    var first := Admitted(s, i, env);
    DriveEnds(first, i, 0, weather, 0);
    AdmittedThenWrote(s, first, Drive(first, i.planId, weather, 0).state, i, EndRecord(i));
  }

  /** The terminal paper operation is balanced, with the expected profit realized and no residual. */
  lemma PaperTerminalIsBalanced(i: TradeIntent)
    requires ValidIntent(i)
    ensures PaperTerminal(i).stage.Terminal() && PaperTerminal(i).result == Some(PaperResult(i))
    ensures TokenBResidual(PaperTerminal(i)) == PaperResult(i).tokenBResidual == 0
    ensures RealizedProfit(PaperTerminal(i)) == PaperResult(i).realizedProfit == ExpectedProfit(i)
  {
    LegsCancel(i);
    assert Legs(PaperTerminal(i)) == Legs(LegsDone(i));
  }

  // ---------------------------------------------------------------- restarts

  lemma CutReplays(log: seq<Record>, n: nat)
    requires Serialized(log) && Replay(log).Ok? && n <= |log|
    ensures Serialized(log[..n]) && Replay(log[..n]).Ok?
  {
    ReplayPrefix(log, n);
    assert forall j | 0 <= j < n :: log[..n][j] == log[j];
  }

  /** A log whose last record is record k of the trade, with sequence numbers left for the rest of it. */
  ghost predicate LogAt(log: seq<Record>, i: TradeIntent, k: nat) {
    && Serialized(log) && Replay(log).Ok? && log != [] && k <= LastRecord(i)
    && log[|log| - 1].operation == PaperRecord(i, k) && |log| + LastRecord(i) - k <= U64_MAX
  }

  lemma LogReopens(log: seq<Record>, i: TradeIntent, k: nat)
    requires LogAt(log, i, k)
    ensures Reopened(log, false).Ok? && At(Reopened(log, false).value, i, k)
    ensures Reopened(log, false).value.durable == log
  {
    ReplayIsLatest(log);
    ReopenedIsCoherent(log, false);
  }

  // A log cut after record k of the trade is at record k.
  lemma CutIsAt(log: seq<Record>, n: nat, i: TradeIntent, k: nat)
    requires Serialized(log) && Replay(log).Ok? && 0 < n <= |log| && k <= LastRecord(i)
    requires log[n - 1].operation == PaperRecord(i, k) && n + LastRecord(i) - k <= U64_MAX
    ensures LogAt(log[..n], i, k)
  {
    CutReplays(log, n);
  }

  // The journal reopened from this log and one `resume_plan` of the trade, if nothing stops it. Other plans
  // of the log, which a starting process also resumes, are left alone here.
  ghost function Restarted(log: seq<Record>, plan: string, weather: Weather): Progress {
    var reopened := Reopened(log, false);
    if reopened.Err? then Progress(EMPTY, 0, Err(reopened.error))
    else if !Keyed(reopened.value.operations) then Progress(reopened.value, 0, Err(UnknownPlan))
    else ResumePlan(reopened.value, plan, weather, 0)
  }

  /** Resumed from any record the trade can be found at, it writes exactly its remaining records. */
  lemma RestartEnds(log: seq<Record>, i: TradeIntent, k: nat, weather: Weather)
    requires ValidIntent(i) && LogAt(log, i, k) && k <= EndRecord(i) && k < LastRecord(i) && CalmWeather(weather)
    ensures var done := Restarted(log, i.planId, weather);
            && done.reply == EndReply(i) && At(done.state, i, EndRecord(i))
            && WroteLog(log, done.state.durable, i, k, EndRecord(i))
  {
    LogReopens(log, i, k);
    ResumeEnds(Reopened(log, false).value, i, k, weather, 0);
  }

  // `after` is `before` plus the records k + 1 .. n of the trade.
  predicate WroteLog(before: seq<Record>, after: seq<Record>, i: TradeIntent, k: nat, n: nat) {
    && k <= n && |after| == |before| + n - k && before <= after
    && forall j | k < j <= n :: after[|before| + j - k - 1].operation == PaperRecord(i, j)
  }

  /** A process restarts and crashes again, leaving the first `kept` records of what it would have written. */
  datatype Crash = Crash(weather: Weather, kept: nat)

  ghost function LogAfter(log: seq<Record>, plan: string, crashes: seq<Crash>): seq<Record>
    decreases |crashes|
  {
    if crashes == [] then log else
      var written := Restarted(log, plan, crashes[0].weather).state.durable;
      if crashes[0].kept > |written| then log else LogAfter(written[..crashes[0].kept], plan, crashes[1..])
  }

  // Every crash keeps what was durable when the process started, and happens before the terminal record.
  ghost predicate BeforeTheEnd(log: seq<Record>, i: TradeIntent, crashes: seq<Crash>)
    decreases |crashes|
  {
    crashes == [] ||
    (var written := Restarted(log, i.planId, crashes[0].weather).state.durable;
     && |log| <= crashes[0].kept <= |written| && CalmWeather(crashes[0].weather)
     && (ScalingFits(i) ==> crashes[0].kept < |written|)
     && BeforeTheEnd(written[..crashes[0].kept], i, crashes[1..]))
  }

  lemma RecordBeforeTheCrash(log: seq<Record>, written: seq<Record>, kept: nat, i: TradeIntent, k: nat, n: nat)
    requires log != [] && log[|log| - 1].operation == PaperRecord(i, k) && WroteLog(log, written, i, k, n)
    requires |log| <= kept <= |written|
    ensures written[kept - 1].operation == PaperRecord(i, k + kept - |log|)
  {
    var j := k + kept - |log|;
    if j == k {
      assert written[kept - 1] == log[|log| - 1];
    } else {
      assert written[|log| + j - k - 1].operation == PaperRecord(i, j);
    }
  }

  lemma CrashLeavesARecord(log: seq<Record>, written: seq<Record>, kept: nat, i: TradeIntent, k: nat, n: nat)
    requires LogAt(log, i, k) && WroteLog(log, written, i, k, n) && |log| <= kept <= |written| && n <= LastRecord(i)
    requires Serialized(written) && Replay(written).Ok?
    ensures k + kept - |log| <= n && LogAt(written[..kept], i, k + kept - |log|)
  {
    RecordBeforeTheCrash(log, written, kept, i, k, n);
    CutIsAt(written, kept, i, k + kept - |log|);
  }

  lemma {:induction false} CrashesLeaveARecord(log: seq<Record>, i: TradeIntent, k: nat, crashes: seq<Crash>)
    returns (n: nat)
    requires ValidIntent(i) && LogAt(log, i, k) && k <= EndRecord(i) && k < LastRecord(i)
    requires BeforeTheEnd(log, i, crashes)
    ensures n <= EndRecord(i) && n < LastRecord(i) && LogAt(LogAfter(log, i.planId, crashes), i, n)
    ensures |LogAfter(log, i.planId, crashes)| - n == |log| - k
    decreases |crashes|
  {
    n := k;
    if crashes != [] {
      var c := crashes[0];
      RestartEnds(log, i, k, c.weather);
      var written := Restarted(log, i.planId, c.weather).state.durable;
      CrashLeavesARecord(log, written, c.kept, i, k, EndRecord(i));
      n := CrashesLeaveARecord(written[..c.kept], i, k + c.kept - |log|, crashes[1..]);
    }
  }

  lemma RanReplays(s: JournalState, full: JournalState, i: TradeIntent, n: nat, k: nat)
    requires Ran(s, full, i, n) && k <= n
    ensures Serialized(full.durable) && Replay(full.durable).Ok?
    ensures full.durable[|s.durable| + k].operation == PaperRecord(i, k)
    ensures |s.durable| + k + 1 + LastRecord(i) - k <= U64_MAX && k <= LastRecord(i)
  {
  }

  lemma RanIsAt(s: JournalState, full: JournalState, i: TradeIntent, n: nat, k: nat)
    requires Ran(s, full, i, n) && k <= n
    ensures LogAt(full.durable[..|s.durable| + k + 1], i, k)
  {
    RanReplays(s, full, i, n, k);
    CutIsAt(full.durable, |s.durable| + k + 1, i, k);
  }

  /** Crash any number of times, each time at any record boundary before the terminal record: first during
      the original run, then during the runs that resume it. The last restart replies as the undisturbed run
      does, and ends in the same operation after the same number of records. */
  lemma CrashEquivalence(s: JournalState, i: TradeIntent, env: Environment, weather: Weather, k: nat,
                         crashes: seq<Crash>, last: Weather)
    requires Admissible(s, i) && k <= EndRecord(i) && k < LastRecord(i)
    requires Calm(env) && CalmWeather(weather) && CalmWeather(last)
    requires var full := Uninterrupted(s, i, env, weather).state;
             |s.durable| + k + 1 <= |full.durable| && BeforeTheEnd(full.durable[..|s.durable| + k + 1], i, crashes)
    ensures var full := Uninterrupted(s, i, env, weather);
            var left := LogAfter(full.state.durable[..|s.durable| + k + 1], i.planId, crashes);
            var done := Restarted(left, i.planId, last);
            && done.reply == full.reply && i.planId in done.state.operations && i.planId in full.state.operations
            && done.state.operations[i.planId] == full.state.operations[i.planId] == PaperRecord(i, EndRecord(i))
            && |done.state.durable| == |full.state.durable|
  {
    UninterruptedEnds(s, i, env, weather);
    var full := Uninterrupted(s, i, env, weather).state;
    RanIsAt(s, full, i, EndRecord(i), k);
    CrashesEnd(full.durable[..|s.durable| + k + 1], i, k, crashes, last);
  }

  lemma CrashesEnd(log: seq<Record>, i: TradeIntent, k: nat, crashes: seq<Crash>, last: Weather)
    requires ValidIntent(i) && LogAt(log, i, k) && k <= EndRecord(i) && k < LastRecord(i)
    requires BeforeTheEnd(log, i, crashes) && CalmWeather(last)
    ensures var done := Restarted(LogAfter(log, i.planId, crashes), i.planId, last);
            && done.reply == EndReply(i) && i.planId in done.state.operations
            && done.state.operations[i.planId] == PaperRecord(i, EndRecord(i))
            && |done.state.durable| == |log| + EndRecord(i) - k
  {
    var n := CrashesLeaveARecord(log, i, k, crashes);
    RestartEnds(LogAfter(log, i.planId, crashes), i, n, last);
  }

  // ---------------------------------------------------------------- which paper trades close

  // No record of the plan is terminal.
  predicate NeverTerminal(log: seq<Record>, plan: string) {
    forall j | 0 <= j < |log| :: log[j].operation.intent.planId == plan ==> !log[j].operation.stage.Terminal()
  }

  lemma NoRecordsYet(s: JournalState, i: TradeIntent, j: nat)
    requires Admissible(s, i) && j < |s.durable|
    ensures s.durable[j].operation.intent.planId != i.planId
  {
    AppearsInLatest(s.durable, j);
  }

  lemma RanTerminal(s: JournalState, full: JournalState, i: TradeIntent)
    requires Admissible(s, i) && Ran(s, full, i, EndRecord(i)) && !ScalingFits(i)
    ensures NeverTerminal(full.durable, i.planId)
  {
    forall j | 0 <= j < |full.durable| && full.durable[j].operation.intent.planId == i.planId
      ensures !full.durable[j].operation.stage.Terminal()
    {
      if j < |s.durable| {
        assert full.durable[j] == full.durable[..|s.durable|][j];
        NoRecordsYet(s, i, j);
      } else {
        assert full.durable[|s.durable| + (j - |s.durable|)].operation == PaperRecord(i, j - |s.durable|);
        EndIsTerminalExactlyWhenScalingFits(i, j - |s.durable|);
      }
    }
  }

  /** A paper trade closes if and only if its scaling product fits. When it does not, the task replies with
      the scaling error and no record of the plan is terminal, after the undisturbed run and after any number
      of crashes and restarts. */
  lemma ClosesExactlyWhenScalingFits(s: JournalState, i: TradeIntent, env: Environment, weather: Weather)
    requires Admissible(s, i) && Calm(env) && CalmWeather(weather)
    ensures var full := Uninterrupted(s, i, env, weather);
            && i.planId in full.state.operations
            && (full.state.operations[i.planId].stage.Terminal() <==> ScalingFits(i))
            && (full.reply.Ok? <==> ScalingFits(i))
            && (!ScalingFits(i) ==>
                  full.reply == Err(PaperScalingOverflow) && NeverTerminal(full.state.durable, i.planId))
  {
    UninterruptedEnds(s, i, env, weather);
    EndIsTerminalExactlyWhenScalingFits(i, EndRecord(i));
    if !ScalingFits(i) { RanTerminal(s, Uninterrupted(s, i, env, weather).state, i); }
  }

  lemma RestartStaysOpen(log: seq<Record>, i: TradeIntent, k: nat, weather: Weather)
    requires ValidIntent(i) && !ScalingFits(i) && LogAt(log, i, k) && k <= EndRecord(i) && CalmWeather(weather)
    requires NeverTerminal(log, i.planId)
    ensures var done := Restarted(log, i.planId, weather);
            done.reply == Err(PaperScalingOverflow) && NeverTerminal(done.state.durable, i.planId)
  {
    RestartEnds(log, i, k, weather);
    var after := Restarted(log, i.planId, weather).state.durable;
    forall j | 0 <= j < |after| && after[j].operation.intent.planId == i.planId
      ensures !after[j].operation.stage.Terminal()
    {
      if j < |log| {
        assert after[j] == log[j];
      } else {
        assert after[|log| + (j - |log| + 1 + k) - k - 1].operation == PaperRecord(i, j - |log| + 1 + k);
        EndIsTerminalExactlyWhenScalingFits(i, j - |log| + 1 + k);
      }
    }
  }

  lemma {:induction false} CrashesStayOpen(log: seq<Record>, i: TradeIntent, k: nat, crashes: seq<Crash>)
    requires ValidIntent(i) && !ScalingFits(i) && LogAt(log, i, k) && k <= EndRecord(i)
    requires BeforeTheEnd(log, i, crashes) && NeverTerminal(log, i.planId)
    ensures NeverTerminal(LogAfter(log, i.planId, crashes), i.planId)
    decreases |crashes|
  {
    if crashes != [] {
      var c := crashes[0];
      RestartEnds(log, i, k, c.weather);
      RestartStaysOpen(log, i, k, c.weather);
      var written := Restarted(log, i.planId, c.weather).state.durable;
      CrashLeavesARecord(log, written, c.kept, i, k, EndRecord(i));
      CrashesStayOpen(written[..c.kept], i, k + c.kept - |log|, crashes[1..]);
    }
  }

  lemma PrefixNeverTerminal(log: seq<Record>, n: nat, plan: string)
    requires NeverTerminal(log, plan) && n <= |log|
    ensures NeverTerminal(log[..n], plan)
  {
    assert forall j | 0 <= j < n :: log[..n][j] == log[j];
  }

  lemma OverflowStaysOpen(log: seq<Record>, i: TradeIntent, k: nat, crashes: seq<Crash>, last: Weather)
    requires ValidIntent(i) && !ScalingFits(i) && LogAt(log, i, k) && k <= EndRecord(i)
    requires BeforeTheEnd(log, i, crashes) && NeverTerminal(log, i.planId) && CalmWeather(last)
    ensures var done := Restarted(LogAfter(log, i.planId, crashes), i.planId, last);
            done.reply == Err(PaperScalingOverflow) && NeverTerminal(done.state.durable, i.planId)
  {
    var n := CrashesLeaveARecord(log, i, k, crashes);
    CrashesStayOpen(log, i, k, crashes);
    RestartStaysOpen(LogAfter(log, i.planId, crashes), i, n, last);
  }

  /** Restarting never helps: after any crashes of a trade whose scaling does not fit, the last restart replies
      with the same error and still no record of the plan is terminal. */
  lemma NeverClosesWhenScalingOverflows(s: JournalState, i: TradeIntent, env: Environment, weather: Weather, k: nat,
                                        crashes: seq<Crash>, last: Weather)
    requires Admissible(s, i) && !ScalingFits(i) && k <= EndRecord(i)
    requires Calm(env) && CalmWeather(weather) && CalmWeather(last)
    requires var full := Uninterrupted(s, i, env, weather).state;
             |s.durable| + k + 1 <= |full.durable| && BeforeTheEnd(full.durable[..|s.durable| + k + 1], i, crashes)
    ensures var full := Uninterrupted(s, i, env, weather).state;
            var done := Restarted(LogAfter(full.durable[..|s.durable| + k + 1], i.planId, crashes), i.planId, last);
            done.reply == Err(PaperScalingOverflow) && NeverTerminal(done.state.durable, i.planId)
  {
    UninterruptedEnds(s, i, env, weather);
    var full := Uninterrupted(s, i, env, weather).state;
    RanTerminal(s, full, i);
    PrefixNeverTerminal(full.durable, |s.durable| + k + 1, i.planId);
    RanIsAt(s, full, i, EndRecord(i), k);
    OverflowStaysOpen(full.durable[..|s.durable| + k + 1], i, k, crashes, last);
  }

  /** Such intents exist: the largest quantities the journal accepts. */
  const OVERFLOWING := TradeIntent("p", "r", "x", None, ConcurrentHedged, BuyOnDexSellOnCex, TWO_127 - 1, 0,
                                   TWO_127 - 1, TWO_127 - 1, "d", "c", None, None, 0)

  lemma OverflowingIntentIsAdmissible()
    ensures ValidIntent(OVERFLOWING) && !ScalingFits(OVERFLOWING) && Admissible(EMPTY, OVERFLOWING)
  {
    EmptyIsCoherent();
    assert ValidId("p", 96) && ValidId("r", 96) && ValidId("x", 96) && ValidId("d", 120) && ValidId("c", 36);
  }
}
