/** A run in which a failed write hides a recovery from its caller, so that the numbering has a gap. */
module HiddenReplies {
  import opened Machine
  import opened Trade
  import opened Journal
  import opened Coordinator
  import opened Lifecycle
  import opened Runs
  import opened Safety
  import opened CloseOutLaws
  import InFlight
  import CrashRecovery

  predicate NoRecoveries(replies: seq<Reply>) { forall k | 0 <= k < |replies| :: !replies[k].command.RecoverCex? }

  // The record reaches the disk, the caller gets an error.
  function FailingAt(clock: U64): Environment { Environment(Some(clock), Some(0), true, FailedAfter) }

  lemma HiddenWrite(s: JournalState, op: TradeOperation, commands: seq<Command>, env: Environment)
    requires Coherent(s) && !s.poisoned && SnapshotAccepted(s.operations, op)
    requires env.recordClock.Some? && env.fitsLine && env.write.FailedAfter?
    ensures var executed := Carry(s, Advance(op, commands), env);
            && executed.reply.Err?
            && executed.state == s.(poisoned := true,
                                    durable := s.durable + [Record(s.nextSequence, env.recordClock.value, Erase(op))])
  {
    CountStaysExact(s.operations, s.activeCount, op.intent.planId, op);
  }

  // Before the first attempt no caller has received a recovery.
  lemma NoRecoveriesYet(events: seq<Event>, i: TradeIntent)
    requires InFlight.Reaches(events, map[i.planId := Rejected(i)])
    ensures NoRecoveries(Replied(events))
  {
    InvariantHolds(events);
    InStepUnlessPoisoned(Run(events));
    forall k | 0 <= k < |Replied(events)| ensures !Replied(events)[k].command.RecoverCex? {
      if Replied(events)[k].command.RecoverCex? { RecoveryIsCounted(events, k); }
    }
  }

  function HiddenTake(i: TradeIntent): Event { Called(Take(i.planId), FailingAt(1000)) }

  function HiddenRecord(s: JournalState, i: TradeIntent): Record {
    Record(s.nextSequence, 0, Erase(CloseOutLaws.Recovering(i, 0, true)))
  }

  lemma TakeDecides(w: World, i: TradeIntent)
    requires Invariant(w) && Markable(i) && w.journal.operations == map[i.planId := Rejected(i)]
    ensures Decide(w.journal.operations, Take(i.planId), Some(1000))
         == Advance(CloseOutLaws.Recovering(i, 0, true), [RecoverCex(1, PlannedTarget(i))])
    ensures SnapshotAccepted(w.journal.operations, CloseOutLaws.Recovering(i, 0, true))
  {
    StartsRecovering(i, Some(1000));
    AdvanceIsAccepted(w, Take(i.planId), Some(1000));
  }

  // The attempt is on the disk and nowhere else.
  lemma TakeIsHidden(w: World, i: TradeIntent)
    requires Invariant(w) && Markable(i) && !w.journal.poisoned && w.journal.operations == map[i.planId := Rejected(i)]
    ensures RepliesTo(w, HiddenTake(i)) == [] && Hides(w, HiddenTake(i), i.planId)
    ensures After(w, HiddenTake(i)).journal
         == w.journal.(poisoned := true, durable := w.journal.durable + [HiddenRecord(w.journal, i)])
  {
    TakeDecides(w, i);
    HiddenWrite(w.journal, CloseOutLaws.Recovering(i, 0, true), [RecoverCex(1, PlannedTarget(i))], FailingAt(1000));
  }

  // After the hidden write and a restart the journal holds the first attempt; nobody was told.
  lemma AttemptIsHidden(events: seq<Event>, i: TradeIntent) returns (more: seq<Event>)
    requires Markable(i) && |events| < 90 && InFlight.Reaches(events, map[i.planId := Rejected(i)])
    ensures more == events + [HiddenTake(i)] + [Restarted]
    ensures InFlight.Reaches(more, map[i.planId := CloseOutLaws.Recovering(i, 0, true)])
    ensures Replied(more) == Replied(events)
  {
    var before := Run(events).journal;
    InvariantHolds(events);
    TakeIsHidden(Run(events), i);
    var failed := events + [HiddenTake(i)];
    InFlight.RunOneMore(INITIAL, events, HiddenTake(i));
    RepliedOneMore(INITIAL, events, HiddenTake(i));
    more := failed + [Restarted];
    InFlight.RunOneMore(INITIAL, failed, Restarted);
    RepliedOneMore(INITIAL, failed, Restarted);
    RestartTakesOver(before, i, failed);
  }

  lemma LatestIsRecovering(s: JournalState, i: TradeIntent)
    requires Latest(s.durable) == EraseAll(s.operations) && s.operations == map[i.planId := Rejected(i)]
    ensures Latest(s.durable + [HiddenRecord(s, i)]) == map[i.planId := CloseOutLaws.Recovering(i, 0, true)]
  {
    LatestAfter(s.durable, HiddenRecord(s, i));
    NothingToErase(i);
    assert EraseAll(s.operations) == map[i.planId := Erase(Rejected(i))];
    InFlight.OnlyEntry(i.planId, Erase(Rejected(i)), CloseOutLaws.Recovering(i, 0, true));
  }

  lemma RestartTakesOver(before: JournalState, i: TradeIntent, failed: seq<Event>)
    requires Coherent(before) && !before.poisoned && before.operations == map[i.planId := Rejected(i)]
    requires Run(failed).journal == before.(poisoned := true, durable := before.durable + [HiddenRecord(before, i)])
    requires |before.durable| < 100
    ensures var after := AfterRestart(Run(failed)).journal;
            && !after.poisoned && after.durable == before.durable + [HiddenRecord(before, i)]
            && after.operations == map[i.planId := CloseOutLaws.Recovering(i, 0, true)]
  {
    InvariantHolds(failed);
    ReplayIsLatest(before.durable + [HiddenRecord(before, i)]);
    LatestIsRecovering(before, i);
  }

  lemma NothingToErase(i: TradeIntent)
    ensures Erase(CloseOutLaws.Recovering(i, 0, true)) == CloseOutLaws.Recovering(i, 0, true)
  {
    assert EraseSeq(Rejections(0)) == Rejections(0);
  }

  lemma CalmCarry(s: JournalState, op: TradeOperation, commands: seq<Command>, env: Environment)
    requires Coherent(s) && !s.poisoned && CrashRecovery.Calm(env) && SnapshotAccepted(s.operations, op)
    requires |s.durable| < U64_MAX
    ensures Carry(s, Advance(op, commands), env).reply == Ok(commands)
  {
    CrashRecovery.CalmAppend(s, op, env);
  }

  lemma CalmReply(w: World, c: Call, clock: U64)
    requires Invariant(w) && !w.journal.poisoned && Decide(w.journal.operations, c, Some(clock)).Advance?
    requires w.journal.nextSequence < U64_MAX
    ensures RepliesTo(w, Called(c, AtClock(clock)))
         == Tagged(PlanOf(c), Decide(w.journal.operations, c, Some(clock)).commands)
  {
    AdvanceIsAccepted(w, c, Some(clock));
    var d := Decide(w.journal.operations, c, Some(clock));
    CalmCarry(w.journal, d.next, d.commands, AtClock(clock));
  }

  lemma CalmReplies(events: seq<Event>, operations: Operations, c: Call, clock: U64)
    requires InFlight.Reaches(events, operations) && |events| < 100 && Decide(operations, c, Some(clock)).Advance?
    ensures Replied(events + [Called(c, AtClock(clock))])
         == Replied(events) + Tagged(PlanOf(c), Decide(operations, c, Some(clock)).commands)
  {
    InvariantHolds(events);
    RepliedOneMore(INITIAL, events, Called(c, AtClock(clock)));
    CalmReply(Run(events), c, clock);
  }

  // The attempt that was never announced is rejected, and the next one is announced.
  lemma SecondIsAnnounced(events: seq<Event>, i: TradeIntent) returns (more: seq<Event>)
    requires Markable(i) && |events| < 90
    requires InFlight.Reaches(events, map[i.planId := CloseOutLaws.Recovering(i, 0, true)])
    ensures InFlight.Reaches(more, map[i.planId := CloseOutLaws.Recovering(i, 1, true)])
    ensures Replied(more) == Replied(events) + [Reply(i.planId, RecoverCex(2, PlannedTarget(i)))]
  {
    RejectedLegIsValid();
    AttemptIsRejected(i, 0);
    var report, take := Report(i.planId, RecoveryCex, REJECTED), Take(i.planId);
    CalmReplies(events, map[i.planId := CloseOutLaws.Recovering(i, 0, true)], report, 0);
    var reported := Next(events, CloseOutLaws.Recovering(i, 0, true), report, CloseOutLaws.Recovering(i, 1, false), 0);
    AttemptIsRetried(i, 1);
    CalmReplies(reported, map[i.planId := CloseOutLaws.Recovering(i, 1, false)], take, 1000);
    more := Next(reported, CloseOutLaws.Recovering(i, 1, false), take, CloseOutLaws.Recovering(i, 1, true), 1000);
    assert Tagged(i.planId, [RecoverCex(2, PlannedTarget(i))]) == [Reply(i.planId, RecoverCex(2, PlannedTarget(i)))];
  }

  lemma {:induction false} ReceivedWasReplied(replies: seq<Reply>, plan: string, c: Command)
    requires c in RepliedTo(replies, plan)
    ensures Reply(plan, c) in replies
  {
    var before := replies[..|replies| - 1];
    if c in RepliedTo(before, plan) { ReceivedWasReplied(before, plan, c); }
  }

  /** For every markable intent there is a run with a gap: the plan's callers receive attempt 2 and never
      attempt 1, although the last durable record owns both. */
  lemma NumberingCanHaveAGap(i: TradeIntent) returns (events: seq<Event>)
    requires Markable(i)
    ensures Reply(i.planId, RecoverCex(2, PlannedTarget(i))) in Replied(events)
    ensures forall r | r in Replied(events) && r.command.RecoverCex? :: r.command.attempt == 2
    ensures i.planId in Latest(Run(events).journal.durable)
    ensures var owned := OwnedCommands(Latest(Run(events).journal.durable)[i.planId]);
            RecoverCex(1, PlannedTarget(i)) in owned && RepliedTo(Replied(events), i.planId) != owned
  {
    var rejected := RejectedIsReached(i);
    NoRecoveriesYet(rejected, i);
    var hidden := AttemptIsHidden(rejected, i);
    events := SecondIsAnnounced(hidden, i);
    OwnsBothAttempts(events, i);
    var first := RecoverCex(1, PlannedTarget(i));
    if first in RepliedTo(Replied(events), i.planId) { ReceivedWasReplied(Replied(events), i.planId, first); }
  }

  lemma OwnsBothAttempts(events: seq<Event>, i: TradeIntent)
    requires InFlight.Reaches(events, map[i.planId := CloseOutLaws.Recovering(i, 1, true)])
    ensures i.planId in Latest(Run(events).journal.durable)
    ensures RecoverCex(1, PlannedTarget(i)) in OwnedCommands(Latest(Run(events).journal.durable)[i.planId])
  {
    InvariantHolds(events);
    InStepUnlessPoisoned(Run(events));
    var op := CloseOutLaws.Recovering(i, 1, true);
    EraseKeepsOwned(op);
    assert OwnedCommands(op)[|DexPart(op)| + |CexPart(op)|] == RecoveryPart(op)[0];
  }
}
