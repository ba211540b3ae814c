/** Admission to a network read lane: a shared counter checked after it is incremented, and a semaphore. */
module ReadLane {
  import opened Machine

  /** Where each caller is. `rejecting`: incremented the counter, found it full, has not yet decremented it.
      `waiting`: admitted, waiting for a permit. `granted`: has a permit, still counted as queued.
      `holding`: has a permit, no longer counted. */
  datatype State = State(
    queued: nat, permits: nat, rejecting: set<nat>, waiting: set<nat>, granted: set<nat>, holding: set<nat>)

  datatype Policy = Policy(maxConcurrency: nat, maxQueued: nat)

  datatype Step = Arrive(caller: nat) | Reject(caller: nat) | Acquire(caller: nat) | GiveUp(caller: nat)
                | Revoke(caller: nat) | LeaveQueue(caller: nat) | Finish(caller: nat)

  function Initial(p: Policy): State { State(0, p.maxConcurrency, {}, {}, {}, {}) }

  function Present(s: State): set<nat> { s.rejecting + s.waiting + s.granted + s.holding }

  // `Revoke` is a caller cancelled after its permit was assigned: the permit goes back before the caller
  // leaves the queue. A step is possible when its caller is at that point; a permit is taken only if one is free.
  predicate Enabled(s: State, step: Step) {
    match step
    case Arrive(c) => c !in Present(s)
    case Reject(c) => c in s.rejecting
    case Acquire(c) => c in s.waiting && s.permits > 0
    case GiveUp(c) => c in s.waiting
    case Revoke(c) => c in s.granted
    case LeaveQueue(c) => c in s.granted
    case Finish(c) => c in s.holding
  }

  // The counter's atomic decrement; the machine's would wrap at zero.
  function Decremented(queued: nat): nat { if queued == 0 then U64_MAX as nat else queued - 1 }

  function After(p: Policy, s: State, step: Step): State {
    match step
    case Arrive(c) =>
      if s.queued >= p.maxQueued then s.(queued := s.queued + 1, rejecting := s.rejecting + {c})
      else s.(queued := s.queued + 1, waiting := s.waiting + {c})
    case Reject(c) => s.(queued := Decremented(s.queued), rejecting := s.rejecting - {c})
    case Acquire(c) =>
      s.(permits := if s.permits == 0 then 0 else s.permits - 1, waiting := s.waiting - {c}, granted := s.granted + {c})
    case GiveUp(c) => s.(queued := Decremented(s.queued), waiting := s.waiting - {c})
    case Revoke(c) => s.(permits := s.permits + 1, granted := s.granted - {c}, waiting := s.waiting + {c})
    case LeaveQueue(c) => s.(queued := Decremented(s.queued), granted := s.granted - {c}, holding := s.holding + {c})
    case Finish(c) => s.(permits := s.permits + 1, holding := s.holding - {c})
  }

  predicate Apart(s: State) {
    && s.rejecting !! s.waiting && s.rejecting !! s.granted && s.rejecting !! s.holding
    && s.waiting !! s.granted && s.waiting !! s.holding && s.granted !! s.holding
  }

  function Admitted(s: State): nat { |s.waiting| + |s.granted| }

  predicate Counted(p: Policy, s: State) {
    && s.queued == Admitted(s) + |s.rejecting|
    && Admitted(s) <= p.maxQueued
    && s.permits + |s.granted| + |s.holding| == p.maxConcurrency
  }

  /** The counter counts exactly the admitted callers and those about to be rejected; admitted callers never
      exceed the queue bound; permits are conserved. */
  predicate Safe(p: Policy, s: State) { Apart(s) && Counted(p, s) }

  lemma StepKeepsApart(p: Policy, s: State, step: Step)
    requires Apart(s) && Enabled(s, step)
    ensures Apart(After(p, s, step))
  {
  }

  lemma OneMore(s: set<nat>, c: nat)
    requires c !in s
    ensures |s + {c}| == |s| + 1
  {
  }

  lemma OneFewer(s: set<nat>, c: nat)
    requires c in s
    ensures |s - {c}| == |s| - 1
  {
  }

  lemma ArrivalIsCounted(p: Policy, s: State, c: nat)
    requires Counted(p, s) && c !in s.rejecting && c !in s.waiting
    ensures Counted(p, After(p, s, Arrive(c)))
  {
    if s.queued >= p.maxQueued { OneMore(s.rejecting, c); } else { OneMore(s.waiting, c); }
  }

  // A caller moving from one set to another, or leaving, is counted out of the set it was in.
  lemma MoveIsCounted(p: Policy, s: State, step: Step)
    requires Counted(p, s) && Enabled(s, step) && !step.Arrive?
    requires step.Acquire? ==> step.caller !in s.granted
    requires step.Revoke? ==> step.caller !in s.waiting
    requires step.LeaveQueue? ==> step.caller !in s.holding
    ensures Counted(p, After(p, s, step))
    ensures step.Reject? || step.GiveUp? || step.LeaveQueue? ==> s.queued > 0
  {
    match step
    case Reject(c) => OneFewer(s.rejecting, c);
    case Acquire(c) => OneFewer(s.waiting, c); OneMore(s.granted, c);
    case GiveUp(c) => OneFewer(s.waiting, c);
    case Revoke(c) => OneFewer(s.granted, c); OneMore(s.waiting, c);
    case LeaveQueue(c) => OneFewer(s.granted, c); OneMore(s.holding, c);
    case Finish(c) => OneFewer(s.holding, c);
  }

  lemma StepKeepsSafe(p: Policy, s: State, step: Step)
    requires Safe(p, s) && Enabled(s, step)
    ensures Safe(p, After(p, s, step))
    ensures step.Reject? || step.GiveUp? || step.LeaveQueue? ==> s.queued > 0
  {
    StepKeepsApart(p, s, step);
    if step.Arrive? { ArrivalIsCounted(p, s, step.caller); } else { MoveIsCounted(p, s, step); }
  }

  function RunFrom(p: Policy, s: State, steps: seq<Step>): State
    decreases |steps|
  {
    if steps == [] then s else RunFrom(p, After(p, s, steps[0]), steps[1..])
  }

  predicate Possible(p: Policy, s: State, steps: seq<Step>)
    decreases |steps|
  {
    steps == [] || (Enabled(s, steps[0]) && Possible(p, After(p, s, steps[0]), steps[1..]))
  }

  /** Every interleaving of callers keeps the lane safe. */
  lemma {:induction false} EveryInterleavingIsSafe(p: Policy, s: State, steps: seq<Step>)
    requires Safe(p, s) && Possible(p, s, steps)
    ensures Safe(p, RunFrom(p, s, steps))
    ensures var end := RunFrom(p, s, steps);
            Admitted(end) <= p.maxQueued && |end.granted + end.holding| <= p.maxConcurrency
    decreases |steps|
  {
    if steps == [] {
      assert |s.granted + s.holding| == |s.granted| + |s.holding|;
    } else {
      StepKeepsSafe(p, s, steps[0]);
      EveryInterleavingIsSafe(p, After(p, s, steps[0]), steps[1..]);
    }
  }

  /** A caller is turned away exactly when admitted callers and callers still being turned away fill the
      bound together: so a caller may be rejected although the queue itself has room. */
  lemma RejectedExactlyWhenCounted(p: Policy, s: State, c: nat)
    requires Safe(p, s) && Enabled(s, Arrive(c))
    ensures c in After(p, s, Arrive(c)).rejecting <==> Admitted(s) + |s.rejecting| >= p.maxQueued
    ensures c in After(p, s, Arrive(c)).waiting <==> Admitted(s) + |s.rejecting| < p.maxQueued
  {
  }

  /** A reachable run in which the third caller is rejected while nobody is admitted. */
  lemma RejectedFromAnEmptyQueue()
    ensures var p, steps := Policy(1, 1), [Arrive(1), Arrive(2), GiveUp(1), Arrive(3)];
            && Possible(p, Initial(p), steps)
            && Admitted(RunFrom(p, Initial(p), steps)) == 0 && 3 in RunFrom(p, Initial(p), steps).rejecting
  {
  }

  // ---------------------------------------------------------------- the shared lane object

  class Lane {
    const policy: Policy
    var queued: nat
    var permits: nat
    ghost var rejecting: set<nat>
    ghost var waiting: set<nat>
    ghost var granted: set<nat>
    ghost var holding: set<nat>

    ghost function Abstract(): State
      reads this
    {
      State(queued, permits, rejecting, waiting, granted, holding)
    }

    constructor (policy: Policy)
      ensures this.policy == policy && Abstract() == Initial(policy) && Safe(policy, Abstract())
    {
      this.policy := policy;
      queued, permits := 0, policy.maxConcurrency;
      rejecting, waiting, granted, holding := {}, {}, {}, {};
    }

    /** The increment and the comparison of the value it returned: true when the caller is admitted. */
    method Enter(ghost c: nat) returns (admitted: bool)
      requires Safe(policy, Abstract()) && Enabled(Abstract(), Arrive(c))
      modifies this
      ensures Safe(policy, Abstract()) && Abstract() == After(policy, old(Abstract()), Arrive(c))
      ensures admitted <==> c in waiting
    {
      StepKeepsSafe(policy, Abstract(), Arrive(c));
      ghost var next := After(policy, Abstract(), Arrive(c));
      var before := queued;
      queued := queued + 1;
      admitted := before < policy.maxQueued;
      if admitted { waiting := waiting + {c}; } else { rejecting := rejecting + {c}; }
      assert Abstract() == next;
    }

    /** The decrement of a rejected, timed-out or served caller; it never finds the counter at zero. */
    method Leave(ghost step: Step)
      requires Safe(policy, Abstract()) && Enabled(Abstract(), step)
      requires step.Reject? || step.GiveUp? || step.LeaveQueue?
      modifies this
      ensures Safe(policy, Abstract()) && Abstract() == After(policy, old(Abstract()), step)
    {
      StepKeepsSafe(policy, Abstract(), step);
      ghost var next := After(policy, Abstract(), step);
      queued := queued - 1;
      match step
      case Reject(c) => rejecting := rejecting - {c};
      case GiveUp(c) => waiting := waiting - {c};
      case LeaveQueue(c) => granted, holding := granted - {c}, holding + {c};
      assert Abstract() == next;
    }

    method TakePermit(ghost c: nat)
      requires Safe(policy, Abstract()) && Enabled(Abstract(), Acquire(c))
      modifies this
      ensures Safe(policy, Abstract()) && Abstract() == After(policy, old(Abstract()), Acquire(c))
    {
      StepKeepsSafe(policy, Abstract(), Acquire(c));
      permits := permits - 1;
      waiting, granted := waiting - {c}, granted + {c};
    }

    method ReturnPermit(ghost step: Step)
      requires Safe(policy, Abstract()) && Enabled(Abstract(), step)
      requires step.Revoke? || step.Finish?
      modifies this
      ensures Safe(policy, Abstract()) && Abstract() == After(policy, old(Abstract()), step)
    {
      StepKeepsSafe(policy, Abstract(), step);
      ghost var next := After(policy, Abstract(), step);
      permits := permits + 1;
      match step
      case Revoke(c) => granted, waiting := granted - {c}, waiting + {c};
      case Finish(c) => holding := holding - {c};
      assert Abstract() == next;
    }
  }
}
