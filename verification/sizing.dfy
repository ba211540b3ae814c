/** Adaptive sizing: doubling and bisection over whole venue steps, with a memo of earlier evaluations and
    a budget of exact evaluations. */
module Sizing {
  import opened Machine
  import opened Trade

  const MAX_EVALUATIONS: nat := 128

  datatype TradeEvaluation = TradeEvaluation(
    poolIndex: nat, tokenB: U256, dexAmountIn: U256, costTokenA: U256, proceedsTokenA: U256, meetsThreshold: bool)

  datatype Candidate = Candidate(direction: Direction, trade: TradeEvaluation, notional: U256)

  datatype Rejection = DexLiquidity | GrossThreshold | TradeCap | EvaluationLimit

  datatype Probe = Feasible(candidate: Candidate) | Refused(rejection: Rejection)

  datatype SizingError = EvaluationFailed | AmountOverflow | StepOverflow

  /** The exact evaluation of one amount on one prepared pool curve: it may fail, or find no liquidity. */
  type Evaluator = U256 -> Result<Option<TradeEvaluation>, SizingError>

  function Notional(d: Direction, t: TradeEvaluation): U256 {
    match d
    case BuyOnDexSellOnCex => if t.dexAmountIn > t.proceedsTokenA then t.dexAmountIn else t.proceedsTokenA
    case BuyOnCexSellOnDex => if t.costTokenA > t.proceedsTokenA then t.costTokenA else t.proceedsTokenA
  }

  // ---------------------------------------------------------------- what feasibility means

  /** One direction of one pool, with the notional cap of a trade and the venue's step. */
  datatype Curve = Curve(evaluate: Evaluator, direction: Direction, cap: U256, step: U256)

  /** The verdict on an amount, independently of any search. */
  function Judge(c: Curve, amount: U256): Result<Probe, SizingError> {
    var evaluated := c.evaluate(amount);
    if evaluated.Err? then Err(evaluated.error)
    else if evaluated.value.None? then Ok(Refused(DexLiquidity))
    else
      var trade := evaluated.value.value;
      if !trade.meetsThreshold then Ok(Refused(GrossThreshold))
      else if Notional(c.direction, trade) > c.cap then Ok(Refused(TradeCap))
      else Ok(Feasible(Candidate(c.direction, trade, Notional(c.direction, trade))))
  }

  predicate FeasibleSteps(c: Curve, steps: nat) {
    && steps * c.step < TWO_256
    && Judge(c, steps * c.step).Ok? && Judge(c, steps * c.step).value.Feasible?
  }

  // Both token-A sides of a trade: what is paid and what comes back.
  function Paid(d: Direction, t: TradeEvaluation): U256 {
    match d case BuyOnDexSellOnCex => t.dexAmountIn case BuyOnCexSellOnDex => t.costTokenA
  }

  /** A count of steps is feasible if and only if the evaluator finds a trade there that meets the threshold and
      whose two token-A sides are within the cap; the candidate is that trade, its notional the larger side. */
  lemma FeasibleExactly(c: Curve, steps: nat)
    ensures FeasibleSteps(c, steps) <==>
              && steps * c.step < TWO_256 && c.evaluate(steps * c.step).Ok? && c.evaluate(steps * c.step).value.Some?
              && var trade := c.evaluate(steps * c.step).value.value;
              trade.meetsThreshold && Paid(c.direction, trade) <= c.cap && trade.proceedsTokenA <= c.cap
    ensures FeasibleSteps(c, steps) ==>
              var candidate := Judge(c, steps * c.step).value.candidate;
              var paid, back := Paid(c.direction, candidate.trade), candidate.trade.proceedsTokenA;
              && candidate.direction == c.direction && c.evaluate(steps * c.step) == Ok(Some(candidate.trade))
              && candidate.notional >= paid && candidate.notional >= back && candidate.notional in {paid, back}
  {
  }

  /** Once an amount at or above the baseline is infeasible, every larger one is. */
  ghost predicate DownwardClosed(c: Curve, baseline: nat) {
    forall m: nat, n: nat | baseline <= m <= n && FeasibleSteps(c, n) :: FeasibleSteps(c, m)
  }

  // ---------------------------------------------------------------- when a search may fail or run out

  // The evaluator fails at this amount, or the amount is feasible and twice as much leaves the 256-bit range.
  predicate FailsAt(c: Curve, steps: nat, error: SizingError) {
    && steps * c.step < TWO_256
    && (|| Judge(c, steps * c.step) == Err(error)
        || (error != EvaluationFailed && FeasibleSteps(c, steps) && 2 * (steps * c.step) >= TWO_256))
  }

  /** A reason for a search from the baseline to report this error. */
  ghost predicate MayFail(c: Curve, baseline: nat, error: SizingError) {
    0 < baseline && exists n: nat | baseline <= n :: FailsAt(c, n, error)
  }

  function Pow2(n: nat): nat { if n == 0 then 1 else 2 * Pow2(n - 1) }

  const VAST: nat := 0x8000_0000_0000_0000

  /** A feasible trade of 2^63 steps or more: the only reason for a search to run out of evaluations. */
  ghost predicate MayRunOut(c: Curve) {
    exists n: nat | FeasibleSteps(c, n) :: n >= VAST
  }

  lemma {:induction false} Pow2Grows(a: nat, b: nat)
    requires a <= b
    ensures Pow2(a) <= Pow2(b)
  {
    if a < b { Pow2Grows(a, b - 1); }
  }

  lemma {:induction false} Pow2OfSum(a: nat, b: nat)
    ensures Pow2(a + b) == Pow2(a) * Pow2(b)
  {
    if a == 0 { return; }
    Pow2OfSum(a - 1, b);
    var less := Pow2(a - 1);
    assert 2 * (less * Pow2(b)) == 2 * less * Pow2(b);
  }

  lemma VastIsAPowerOfTwo(n: nat)
    requires n == 63
    ensures Pow2(n) == VAST
  {
    var seven: nat :| seven == 7;
    assert Pow2(7) == 128;
    Pow2OfSum(seven, seven);
    Pow2OfSum(2 * seven, seven);
    Pow2OfSum(3 * seven, 3 * seven);
    Pow2OfSum(6 * seven, 3 * seven);
  }

  lemma FewDoublings(n: nat)
    requires Pow2(n) < VAST
    ensures n < 63
  {
    if n >= 63 {
      var limit: nat :| limit == 63;
      VastIsAPowerOfTwo(limit);
      Pow2Grows(limit, n);
    }
  }

  // ---------------------------------------------------------------- the search object

  datatype Entry = Entry(amount: U256, probe: Probe)

  lemma AmountsAreDistinct(a: nat, b: nat, step: nat)
    requires step > 0 && a < b
    ensures a * step < b * step
  {
  }

  class AdaptivePoolSearch {
    const curve: Curve
    var cached: seq<Entry>
    var evaluations: nat
    var limitExhausted: bool

    constructor (curve: Curve)
      ensures this.curve == curve
      ensures Valid() && cached == [] && evaluations == 0 && !limitExhausted
    {
      this.curve, cached, evaluations, limitExhausted := curve, [], 0, false;
    }

    /** The memo only holds verdicts the evaluator would give again, one per evaluation spent, and the limit
        is only flagged once the budget is spent. */
    ghost predicate Valid()
      reads this
    {
      && |cached| <= evaluations <= MAX_EVALUATIONS
      && (limitExhausted ==> evaluations == MAX_EVALUATIONS)
      && forall i | 0 <= i < |cached| :: Judge(curve, cached[i].amount) == Ok(cached[i].probe)
    }

    ghost predicate Known(amount: int)
      reads this
    {
      exists i | 0 <= i < |cached| :: cached[i].amount == amount
    }

    ghost predicate AllBelow(bound: int)
      reads this
    {
      forall i | 0 <= i < |cached| :: cached[i].amount < bound
    }

    // The verdict on this amount is in the memo or still affordable.
    ghost predicate Affordable(amount: int)
      reads this
    {
      Known(amount) || evaluations < MAX_EVALUATIONS
    }

    method Lookup(amount: U256) returns (found: Option<Probe>)
      requires Valid()
      ensures found.Some? <==> Known(amount)
      ensures found.Some? ==> Judge(curve, amount) == Ok(found.value)
    {
      var i := 0;
      while i < |cached|
        invariant 0 <= i <= |cached|
        invariant forall j | 0 <= j < i :: cached[j].amount != amount
      {
        if cached[i].amount == amount { return Some(cached[i].probe); }
        i := i + 1;
      }
      return None;
    }

    method ProbeAmount(amount: U256) returns (r: Result<Probe, SizingError>)
      requires Valid()
      modifies this
      ensures Valid()
      ensures r == if old(Affordable(amount)) then Judge(curve, amount) else Ok(Refused(EvaluationLimit))
      ensures limitExhausted == (old(limitExhausted) || !old(Affordable(amount)))
      ensures evaluations == old(evaluations) + if old(Affordable(amount) && !Known(amount)) then 1 else 0
      ensures forall other | old(Known(other)) :: Known(other)
      ensures old(Affordable(amount)) && r.Ok? ==> Known(amount)
      ensures forall bound | old(AllBelow(bound)) && amount < bound :: AllBelow(bound)
    {
      var found := Lookup(amount);
      if found.Some? { return Ok(found.value); }
      if evaluations >= MAX_EVALUATIONS {
        limitExhausted := true;
        return Ok(Refused(EvaluationLimit));
      }
      evaluations := evaluations + 1;
      var judged := Judge(curve, amount);
      if judged.Err? { return judged; }
      ghost var before := cached;
      cached := cached + [Entry(amount, judged.value)];
      assert cached[|before|].amount == amount;
      assert forall i | 0 <= i < |before| :: cached[i] == before[i];
      return judged;
    }
  }

  // ---------------------------------------------------------------- the search

  // A feasible amount whose verdict is in the memo.
  ghost predicate Reached(search: AdaptivePoolSearch, steps: nat)
    reads search
  {
    FeasibleSteps(search.curve, steps) && search.Known(steps * search.curve.step)
  }

  // The verdict that stopped the search at `steps`: infeasible, or not evaluated for lack of budget.
  ghost predicate Stopped(search: AdaptivePoolSearch, steps: nat)
    reads search
  {
    search.limitExhausted || !FeasibleSteps(search.curve, steps)
  }

  /** A probe of a whole number of steps: the evaluator's verdict, or a refusal when it is unseen and the
      budget is spent. */
  method ProbeSteps(search: AdaptivePoolSearch, steps: nat) returns (r: Result<Probe, SizingError>)
    requires search.Valid()
    modifies search
    ensures search.Valid()
    ensures var amount := steps * search.curve.step;
            r == if amount >= TWO_256 then Err(AmountOverflow)
                 else if old(search.Affordable(amount)) then Judge(search.curve, amount)
                 else Ok(Refused(EvaluationLimit))
    ensures var amount := steps * search.curve.step;
            && search.limitExhausted
            == (old(search.limitExhausted) || (amount < TWO_256 && !old(search.Affordable(amount))))
            && search.evaluations <= old(search.evaluations) + 1
            && (r.Ok? && !old(search.Known(amount)) && !search.limitExhausted ==>
                  search.evaluations == old(search.evaluations) + 1)
    ensures r.Ok? && r.value.Feasible? ==> Reached(search, steps)
    ensures forall n: nat | old(Reached(search, n)) :: Reached(search, n)
    ensures forall bound | old(search.AllBelow(bound)) && steps * search.curve.step < bound :: search.AllBelow(bound)
  {
    if steps * search.curve.step >= TWO_256 { return Err(AmountOverflow); }
    r := search.ProbeAmount(steps * search.curve.step);
  }

  // A search that has spent little of its budget.
  ghost predicate Fresh(search: AdaptivePoolSearch, spent: nat)
    reads search
  {
    search.evaluations <= spent && !search.limitExhausted
  }

  // What the doubling found: a feasible lower end and an upper end that was refused.
  ghost predicate Brackets(search: AdaptivePoolSearch, lowSteps: nat, low: nat, high: nat)
    reads search
  {
    && lowSteps <= low && high == 2 * low && high * search.curve.step < TWO_256
    && Reached(search, low) && Stopped(search, high)
  }

  lemma DoublingOverflows(c: Curve, low: nat)
    requires c.step > 0 && FeasibleSteps(c, low) && (2 * low >= TWO_256 || 2 * low * c.step >= TWO_256)
    ensures FailsAt(c, low, AmountOverflow) && FailsAt(c, low, StepOverflow)
  {
    assert 2 * low * c.step == 2 * (low * c.step);
    assert low <= low * c.step;
  }

  // Doubles until an amount is refused. Every doubled amount is larger than all evaluated ones, so each
  // success spends budget: that is why the loop ends.
  method Bracket(search: AdaptivePoolSearch, lowSteps: nat) returns (r: Result<(nat, nat), SizingError>)
    requires search.Valid() && search.curve.step > 0 && lowSteps > 0
    requires search.AllBelow(lowSteps * search.curve.step + 1) && Reached(search, lowSteps)
    modifies search
    ensures search.Valid()
    ensures r.Ok? ==> Brackets(search, lowSteps, r.value.0, r.value.1)
    ensures r.Err? ==> MayFail(search.curve, lowSteps, r.error)
    ensures old(Fresh(search, 1)) && !MayRunOut(search.curve) ==> Fresh(search, 64) && (r.Ok? ==> r.value.0 < VAST)
  {
    var low := lowSteps;
    var high := 2 * lowSteps;
    ghost var c, doublings: nat := search.curve, 0;
    if high >= TWO_256 {
      DoublingOverflows(c, low);
      return Err(StepOverflow);
    }
    while true
      invariant search.Valid() && lowSteps <= low && high == 2 * low
      invariant search.AllBelow(low * c.step + 1) && Reached(search, low)
      invariant Pow2(doublings) <= low
      invariant old(Fresh(search, 1)) && !MayRunOut(c) ==> Fresh(search, doublings + 1)
      decreases MAX_EVALUATIONS - search.evaluations
    {
      AmountsAreDistinct(low, high, c.step);
      if low < VAST { FewDoublings(doublings); }
      var probe := ProbeSteps(search, high);
      if probe.Err? {
        BracketFails(c, lowSteps, low, probe);
        return Err(probe.error);
      }
      if probe.value.Refused? { return Ok((low, high)); }
      low := high;
      high := 2 * high;
      doublings := doublings + 1;
      if high >= TWO_256 {
        DoublingOverflows(c, low);
        return Err(StepOverflow);
      }
    }
  }

  lemma BracketFails(c: Curve, lowSteps: nat, low: nat, probe: Result<Probe, SizingError>)
    requires c.step > 0 && 0 < lowSteps <= low && FeasibleSteps(c, low) && probe.Err?
    requires if 2 * low * c.step >= TWO_256 then probe == Err(AmountOverflow) else probe == Judge(c, 2 * low * c.step)
    ensures MayFail(c, lowSteps, probe.error)
  {
    if 2 * low * c.step >= TWO_256 {
      DoublingOverflows(c, low);
    } else {
      assert FailsAt(c, 2 * low, probe.error);
    }
  }

  // The budget lasts for this many halvings of the interval.
  ghost predicate Lasts(search: AdaptivePoolSearch, width: nat, halvings: nat)
    reads search
  {
    halvings <= 63 && width <= Pow2(halvings) && Fresh(search, 127 - halvings)
  }

  lemma HalfTheWidth(width: nat, halvings: nat)
    requires 1 < width <= Pow2(halvings)
    ensures 0 < halvings && width / 2 <= Pow2(halvings - 1) && width - width / 2 <= Pow2(halvings - 1)
  {
  }

  lemma MidpointFits(mid: nat, to: nat, step: nat)
    requires mid <= to
    ensures mid * step <= to * step
  {
  }

  /** Bisection between a feasible and a refused count. */
  method Bisect(search: AdaptivePoolSearch, from: nat, to: nat) returns (r: Result<nat, SizingError>)
    requires search.Valid() && 0 < from < to && to * search.curve.step < TWO_256
    requires Reached(search, from) && Stopped(search, to)
    modifies search
    ensures search.Valid()
    ensures r.Ok? ==> from <= r.value < to && Reached(search, r.value) && Stopped(search, r.value + 1)
    ensures r.Err? ==> MayFail(search.curve, from, r.error)
    ensures old(Fresh(search, 64)) && to - from <= VAST ==> !search.limitExhausted
  {
    var low, high := from, to;
    ghost var c, lasts := search.curve, Fresh(search, 64) && to - from <= VAST;
    ghost var halvings: nat :| halvings == 63;
    VastIsAPowerOfTwo(halvings);
    while high - low > 1
      invariant search.Valid() && from <= low < high <= to
      invariant Reached(search, low) && Stopped(search, high)
      invariant lasts ==> Lasts(search, high - low, halvings)
      decreases high - low
    {
      var mid := low + (high - low) / 2;
      MidpointFits(mid, to, c.step);
      if lasts { HalfTheWidth(high - low, halvings); }
      var probe := ProbeSteps(search, mid);
      if probe.Err? {
        assert FailsAt(c, mid, probe.error);
        return Err(probe.error);
      }
      if probe.value.Feasible? { low := mid; } else { high := mid; }
      halvings := if halvings > 0 then halvings - 1 else 0;
    }
    return Ok(low);
  }

  // What a search of one curve reports.
  ghost predicate SearchReport(c: Curve, baseline: nat, found: Option<Candidate>, exhausted: bool, best: nat) {
    && (found.None? ==> baseline == 0 || !FeasibleSteps(c, baseline))
    && (found.Some? ==>
          && 0 < baseline <= best && FeasibleSteps(c, best) && Judge(c, best * c.step) == Ok(Feasible(found.value))
          && (exhausted || !FeasibleSteps(c, best + 1))
          && (!exhausted && DownwardClosed(c, baseline) ==> forall n: nat | FeasibleSteps(c, n) :: n <= best))
  }

  // Doubling, then bisection: the largest count reached and why the search went no further.
  method Refine(search: AdaptivePoolSearch, lowSteps: nat) returns (r: Result<nat, SizingError>)
    requires search.Valid() && search.curve.step > 0 && lowSteps > 0
    requires search.AllBelow(lowSteps * search.curve.step + 1) && Reached(search, lowSteps)
    modifies search
    ensures search.Valid()
    ensures r.Ok? ==> lowSteps <= r.value && Reached(search, r.value) && Stopped(search, r.value + 1)
    ensures r.Err? ==> MayFail(search.curve, lowSteps, r.error)
    ensures old(Fresh(search, 1)) && search.limitExhausted ==> MayRunOut(search.curve)
  {
    var bounds := Bracket(search, lowSteps);
    if bounds.Err? { return Err(bounds.error); }
    r := Bisect(search, bounds.value.0, bounds.value.1);
  }

  lemma WholeSteps(amount: nat, step: nat)
    requires step > 0
    ensures amount / step * step <= amount
  {
  }

  lemma NothingLarger(c: Curve, baseline: nat, best: nat)
    requires DownwardClosed(c, baseline) && baseline <= best && !FeasibleSteps(c, best + 1)
    ensures forall n: nat | FeasibleSteps(c, n) :: n <= best
  {
  }

  method SearchFrom(c: Curve, lowSteps: nat)
    returns (r: Result<Option<Candidate>, SizingError>, exhausted: bool, evaluations: nat, best: nat)
    requires c.step > 0 && lowSteps * c.step < TWO_256
    ensures evaluations <= MAX_EVALUATIONS
    ensures r.Ok? ==> SearchReport(c, lowSteps, r.value, exhausted, best)
    ensures r.Err? ==> MayFail(c, lowSteps, r.error)
    ensures exhausted ==> evaluations == MAX_EVALUATIONS && MayRunOut(c)
  {
    var search := new AdaptivePoolSearch(c);
    best := lowSteps;
    if lowSteps == 0 { return Ok(None), false, 0, best; }
    var first := ProbeSteps(search, lowSteps);
    if first.Err? {
      assert FailsAt(c, lowSteps, first.error);
      return Err(first.error), search.limitExhausted, search.evaluations, best;
    }
    if first.value.Refused? {
      return Ok(None), search.limitExhausted, search.evaluations, best;
    }
    var refined := Refine(search, lowSteps);
    if refined.Err? { return Err(refined.error), search.limitExhausted, search.evaluations, best; }
    best := refined.value;
    // This amount is in the memo, so the probe neither fails nor spends budget.
    var last := ProbeSteps(search, best);
    if !search.limitExhausted && DownwardClosed(c, lowSteps) { NothingLarger(c, lowSteps, best); }
    return Ok(Some(last.value.candidate)), search.limitExhausted, search.evaluations, best;
  }

  /** Largest feasible whole-step amount reachable by doubling and bisection from the baseline. It ends
      without any assumption on the curve, within 128 evaluations; the amount it returns is feasible and
      the next step was refused; and if feasibility is downward closed from the baseline and the budget
      was not exhausted, nothing larger is feasible. It fails only for a reason on the curve, and runs out
      only if a trade of 2^63 steps or more is feasible. */
  method SearchPool(c: Curve, amount: U256)
    returns (r: Result<Option<Candidate>, SizingError>, exhausted: bool, evaluations: nat, best: nat)
    requires c.step > 0
    ensures evaluations <= MAX_EVALUATIONS
    ensures r.Ok? ==> SearchReport(c, amount / c.step, r.value, exhausted, best)
    ensures r.Err? ==> MayFail(c, amount / c.step, r.error)
    ensures exhausted ==> evaluations == MAX_EVALUATIONS && MayRunOut(c)
  {
    WholeSteps(amount, c.step);
    r, exhausted, evaluations, best := SearchFrom(c, amount / c.step);
  }

  // ---------------------------------------------------------------- choosing among pools and directions

  function DirectionOrder(d: Direction): nat { if d.BuyOnDexSellOnCex? then 0 else 1 }

  predicate Better(a: Candidate, b: Candidate) {
    || a.notional > b.notional
    || (&& a.notional == b.notional
        && (|| a.trade.tokenB > b.trade.tokenB
            || (&& a.trade.tokenB == b.trade.tokenB
                && (|| DirectionOrder(a.direction) < DirectionOrder(b.direction)
                    || (a.direction == b.direction && a.trade.poolIndex < b.trade.poolIndex)))))
  }

  /** Better is the strict total order by larger notional, then larger amount, then buying on the DEX, then the
      smaller pool index. */
  lemma BetterIsAStrictOrder(a: Candidate, b: Candidate, c: Candidate)
    ensures !Better(a, a)
    ensures Better(a, b) && Better(b, c) ==> Better(a, c)
    ensures !Better(a, b) && !Better(b, c) ==> !Better(a, c)
    ensures a.notional > b.notional ==> Better(a, b)
    ensures a.notional == b.notional && a.trade.tokenB > b.trade.tokenB ==> Better(a, b)
    ensures a.notional == b.notional && a.trade.tokenB == b.trade.tokenB && a.direction != b.direction ==>
              (Better(a, b) <==> a.direction.BuyOnDexSellOnCex?)
    ensures a.notional == b.notional && a.trade.tokenB == b.trade.tokenB && a.direction == b.direction ==>
              (Better(a, b) <==> a.trade.poolIndex < b.trade.poolIndex)
    ensures !Better(a, b) && !Better(b, a) ==>
              && a.notional == b.notional && a.trade.tokenB == b.trade.tokenB
              && a.direction == b.direction && a.trade.poolIndex == b.trade.poolIndex
  {
  }

  /** One round of adaptive sizing: an evaluator per direction and pool, the pools to search, and the
      baseline amount of every direction whose baseline trade meets the threshold. */
  datatype Market = Market(
    evaluators: (Direction, nat) -> Evaluator, pools: seq<nat>, baselines: map<Direction, U256>, cap: U256, step: U256)

  function BaselineSteps(m: Market, d: Direction): nat {
    if d in m.baselines && m.step > 0 then m.baselines[d] / m.step else 0
  }

  function CurveOf(m: Market, d: Direction, p: nat): Curve { Curve(m.evaluators(d, p), d, m.cap, m.step) }

  predicate FeasibleAt(m: Market, d: Direction, p: nat, n: nat) { FeasibleSteps(CurveOf(m, d, p), n) }

  function CandidateAt(m: Market, d: Direction, p: nat, n: nat): Candidate
    requires FeasibleAt(m, d, p, n)
  {
    Judge(CurveOf(m, d, p), n * m.step).value.candidate
  }

  // The largest feasible whole-step trade of a pool, not below the baseline.
  ghost predicate Largest(m: Market, d: Direction, p: nat, n: nat) {
    && 0 < BaselineSteps(m, d) <= n && FeasibleAt(m, d, p, n)
    && forall k: nat | FeasibleAt(m, d, p, k) :: k <= n
  }

  /** The assumption the source makes about its curves. */
  ghost predicate Monotone(m: Market) {
    forall d: Direction, p: nat | d in m.baselines && p in m.pools ::
      DownwardClosed(CurveOf(m, d, p), BaselineSteps(m, d))
  }

  /** Some pool gives its search a reason to report this error. */
  ghost predicate SomeMayFail(m: Market, error: SizingError) {
    exists d: Direction, p: nat | d in m.baselines && p in m.pools ::
      MayFail(CurveOf(m, d, p), BaselineSteps(m, d), error)
  }

  ghost predicate SomeMayRunOut(m: Market) {
    exists d: Direction, p: nat | d in m.baselines && p in m.pools :: MayRunOut(CurveOf(m, d, p))
  }

  /** The evaluators answer everywhere, and every feasible amount of at least the baseline is below half the
      256-bit range and below 2^63 steps. */
  ghost predicate Answerable(m: Market) {
    forall d: Direction, p: nat, n: nat | d in m.baselines && p in m.pools && 0 <= n * m.step < TWO_256 ::
      && Judge(CurveOf(m, d, p), n * m.step).Ok?
      && (FeasibleSteps(CurveOf(m, d, p), n) ==> n < VAST && 2 * (n * m.step) < TWO_256)
  }

  lemma AnswerableIsAnswered(m: Market)
    requires Answerable(m)
    ensures !SomeMayRunOut(m) && forall error :: !SomeMayFail(m, error)
  {
  }

  type Visits = set<(Direction, nat)>

  // The candidate at `n` steps of a visited pool: feasible, at least the baseline, its next step refused.
  predicate FoundAt(m: Market, visits: Visits, exhausted: bool, c: Candidate, d: Direction, p: nat, n: nat) {
    && FeasibleAt(m, d, p, n) && (d, p) in visits && 0 < BaselineSteps(m, d) <= n
    && c == CandidateAt(m, d, p, n) && (exhausted || !FeasibleAt(m, d, p, n + 1))
  }

  ghost predicate Attained(m: Market, visits: Visits, exhausted: bool, c: Candidate) {
    exists d: Direction, p: nat, n: nat :: FoundAt(m, visits, exhausted, c, d, p, n)
  }

  // No visited pool's largest feasible trade beats the winner.
  ghost predicate Unbeaten(m: Market, visits: Visits, winner: Option<Candidate>) {
    forall d: Direction, p: nat, n: nat | (d, p) in visits && Largest(m, d, p, n) ::
      winner.Some? && !Better(CandidateAt(m, d, p, n), winner.value)
  }

  ghost predicate Scanned(m: Market, visits: Visits, winner: Option<Candidate>, exhausted: bool) {
    && (winner.Some? ==> Attained(m, visits, exhausted, winner.value))
    && (!exhausted && Monotone(m) ==> Unbeaten(m, visits, winner))
    && (exhausted ==> SomeMayRunOut(m))
  }

  lemma AttainedStays(m: Market, visits: Visits, more: Visits, exhausted: bool, later: bool, c: Candidate)
    requires Attained(m, visits, exhausted, c) && visits <= more && (exhausted ==> later)
    ensures Attained(m, more, later, c)
  {
    var d: Direction, p: nat, n: nat :| FoundAt(m, visits, exhausted, c, d, p, n);
    assert FoundAt(m, more, later, c, d, p, n);
  }

  // The largest feasible count is what the search returned, if anything is that large.
  lemma FoundIsLargest(m: Market, d: Direction, p: nat, best: nat, n: nat)
    requires FeasibleAt(m, d, p, best) && Largest(m, d, p, n) && forall k: nat | FeasibleAt(m, d, p, k) :: k <= best
    ensures n == best
  {
  }

  // What a search of one pool reports.
  ghost predicate PoolReport(m: Market, d: Direction, p: nat, found: Option<Candidate>, out: bool, best: nat) {
    && (found.None? ==> BaselineSteps(m, d) == 0 || !FeasibleAt(m, d, p, BaselineSteps(m, d)))
    && (found.Some? ==>
          && 0 < BaselineSteps(m, d) <= best && FeasibleAt(m, d, p, best) && found.value == CandidateAt(m, d, p, best)
          && (out || !FeasibleAt(m, d, p, best + 1))
          && (!out && DownwardClosed(CurveOf(m, d, p), BaselineSteps(m, d)) ==>
                forall k: nat | FeasibleAt(m, d, p, k) :: k <= best))
  }

  method SearchOne(m: Market, d: Direction, p: nat)
    returns (r: Result<Option<Candidate>, SizingError>, out: bool, best: nat)
    requires m.step > 0 && d in m.baselines
    ensures r.Ok? ==> PoolReport(m, d, p, r.value, out, best)
    ensures r.Err? ==> MayFail(CurveOf(m, d, p), BaselineSteps(m, d), r.error)
    ensures out ==> MayRunOut(CurveOf(m, d, p))
  {
    var found, exhausted, _, steps := SearchPool(CurveOf(m, d, p), m.baselines[d]);
    assert BaselineSteps(m, d) == m.baselines[d] / m.step;
    return found, exhausted, steps;
  }

  /** One pool searched: the better of its candidate and the winner so far stays. */
  method Visit(m: Market, d: Direction, p: nat, winner: Option<Candidate>, exhausted: bool, ghost visits: Visits)
    returns (r: Result<(Option<Candidate>, bool), SizingError>)
    requires m.step > 0 && d in m.baselines && p in m.pools && Scanned(m, visits, winner, exhausted)
    ensures r.Ok? ==> Scanned(m, visits + {(d, p)}, r.value.0, r.value.1) && (exhausted ==> r.value.1)
    ensures r.Err? ==> SomeMayFail(m, r.error)
  {
    var found, out, best := SearchOne(m, d, p);
    if found.Err? { return Err(found.error); }
    VisitKeepsScanned(m, d, p, winner, exhausted, visits, found.value, out, best);
    return Ok((BetterOf(winner, found.value), exhausted || out));
  }

  function BetterOf(winner: Option<Candidate>, found: Option<Candidate>): Option<Candidate> {
    if found.Some? && (winner.None? || Better(found.value, winner.value)) then found else winner
  }

  lemma VisitKeepsAttained(m: Market, d: Direction, p: nat, winner: Option<Candidate>, exhausted: bool, visits: Visits,
                           found: Option<Candidate>, out: bool, best: nat)
    requires (winner.Some? ==> Attained(m, visits, exhausted, winner.value)) && PoolReport(m, d, p, found, out, best)
    ensures var next := BetterOf(winner, found);
            next.Some? ==> Attained(m, visits + {(d, p)}, exhausted || out, next.value)
  {
    var next, more := BetterOf(winner, found), visits + {(d, p)};
    if next.Some? {
      if next == winner {
        AttainedStays(m, visits, more, exhausted, exhausted || out, next.value);
      } else {
        assert FoundAt(m, more, exhausted || out, next.value, d, p, best);
      }
    }
  }

  lemma VisitKeepsUnbeaten(m: Market, d: Direction, p: nat, winner: Option<Candidate>, visits: Visits,
                           found: Option<Candidate>, best: nat)
    requires Monotone(m) && d in m.baselines && p in m.pools
    requires Unbeaten(m, visits, winner) && PoolReport(m, d, p, found, false, best)
    ensures Unbeaten(m, visits + {(d, p)}, BetterOf(winner, found))
  {
    var next := BetterOf(winner, found);
    forall e: Direction, q: nat, n: nat | (e, q) in visits + {(d, p)} && Largest(m, e, q, n)
      ensures next.Some? && !Better(CandidateAt(m, e, q, n), next.value)
    {
      if (e, q) == (d, p) {
        assert FeasibleAt(m, d, p, BaselineSteps(m, d));
        FoundIsLargest(m, d, p, best, n);
      } else if found.Some? && winner.Some? {
        BetterIsAStrictOrder(CandidateAt(m, e, q, n), winner.value, found.value);
        BetterIsAStrictOrder(CandidateAt(m, e, q, n), found.value, winner.value);
      }
    }
  }

  lemma VisitKeepsScanned(m: Market, d: Direction, p: nat, winner: Option<Candidate>, exhausted: bool, visits: Visits,
                          found: Option<Candidate>, out: bool, best: nat)
    requires d in m.baselines && p in m.pools && Scanned(m, visits, winner, exhausted)
    requires PoolReport(m, d, p, found, out, best) && (out ==> MayRunOut(CurveOf(m, d, p)))
    ensures Scanned(m, visits + {(d, p)}, BetterOf(winner, found), exhausted || out)
  {
    VisitKeepsAttained(m, d, p, winner, exhausted, visits, found, out, best);
    if !exhausted && !out && Monotone(m) { VisitKeepsUnbeaten(m, d, p, winner, visits, found, best); }
  }

  // Every pool of one direction.
  function VisitsOf(m: Market, d: Direction, n: nat): Visits
    requires n <= |m.pools|
  {
    set k | 0 <= k < n :: (d, m.pools[k])
  }

  lemma OneMoreVisit(m: Market, d: Direction, k: nat)
    requires k < |m.pools|
    ensures VisitsOf(m, d, k + 1) == VisitsOf(m, d, k) + {(d, m.pools[k])}
  {
  }

  method ScanDirection(m: Market, d: Direction, winner: Option<Candidate>, exhausted: bool, ghost visits: Visits)
    returns (r: Result<(Option<Candidate>, bool), SizingError>)
    requires m.step > 0 && d in m.baselines && Scanned(m, visits, winner, exhausted)
    ensures r.Ok? ==> Scanned(m, visits + VisitsOf(m, d, |m.pools|), r.value.0, r.value.1) && (exhausted ==> r.value.1)
    ensures r.Err? ==> SomeMayFail(m, r.error)
  {
    var best, out, k := winner, exhausted, 0;
    assert visits + VisitsOf(m, d, 0) == visits;
    while k < |m.pools|
      invariant 0 <= k <= |m.pools| && (exhausted ==> out)
      invariant Scanned(m, visits + VisitsOf(m, d, k), best, out)
    {
      var one := Visit(m, d, m.pools[k], best, out, visits + VisitsOf(m, d, k));
      if one.Err? { return one; }
      OneMoreVisit(m, d, k);
      assert visits + VisitsOf(m, d, k) + {(d, m.pools[k])} == visits + (VisitsOf(m, d, k) + {(d, m.pools[k])});
      best, out, k := one.value.0, one.value.1, k + 1;
    }
    return Ok((best, out));
  }

  function ScannedIn(m: Market, d: Direction): Visits {
    if d in m.baselines then VisitsOf(m, d, |m.pools|) else {}
  }

  function AllVisits(m: Market): Visits {
    set d: Direction, k | 0 <= k < |m.pools| && d in m.baselines :: (d, m.pools[k])
  }

  /** Adaptive sizing over both directions and every pool. A selected trade is feasible on its pool with its
      next step refused, is larger than its direction's baseline, and no budget ran out; on monotone curves
      no pool's largest feasible trade is preferred to it. When nothing is selected although no budget ran
      out, then on monotone curves every largest trade that none is preferred to is no larger than its
      direction's baseline. An error or an exhausted budget has a reason on some pool's curve, so
      on an answerable market there is neither. */
  method EvaluateAdaptiveSizing(m: Market) returns (r: Result<Option<Candidate>, SizingError>, exhausted: bool)
    requires m.step > 0
    ensures r.Ok? && r.value.Some? ==>
              && !exhausted && Attained(m, AllVisits(m), false, r.value.value)
              && r.value.value.direction in m.baselines
              && r.value.value.trade.tokenB > m.baselines[r.value.value.direction]
              && (Monotone(m) ==> Unbeaten(m, AllVisits(m), r.value))
    ensures r == Ok(None) && !exhausted && Monotone(m) ==>
              forall d: Direction, p: nat, n: nat | (d, p) in AllVisits(m) && Largest(m, d, p, n)
                && Unbeaten(m, AllVisits(m), Some(CandidateAt(m, d, p, n))) ::
                CandidateAt(m, d, p, n).trade.tokenB <= m.baselines[d]
    ensures r.Err? ==> SomeMayFail(m, r.error)
    ensures exhausted ==> SomeMayRunOut(m)
    ensures Answerable(m) ==> r.Ok? && !exhausted
  {
    if Answerable(m) { AnswerableIsAnswered(m); }
    var winner: Option<Candidate>, out := None, false;
    ghost var visits: Visits := {};
    var directions := [BuyOnDexSellOnCex, BuyOnCexSellOnDex];
    var k := 0;
    while k < 2
      invariant 0 <= k <= 2
      invariant visits == (if k > 0 then ScannedIn(m, BuyOnDexSellOnCex) else {})
                        + (if k > 1 then ScannedIn(m, BuyOnCexSellOnDex) else {})
      invariant Scanned(m, visits, winner, out)
    {
      var d := directions[k];
      if d in m.baselines {
        var scanned := ScanDirection(m, d, winner, out, visits);
        if scanned.Err? { return Err(scanned.error), out; }
        winner, out := scanned.value.0, scanned.value.1;
        visits := visits + VisitsOf(m, d, |m.pools|);
      }
      k := k + 1;
    }
    BothDirections(m);
    assert visits == AllVisits(m);
    exhausted := out;
    if out || winner.None? { return Ok(None), out; }
    CandidateKeepsDirection(m, visits, out, winner.value);
    if winner.value.trade.tokenB <= m.baselines[winner.value.direction] {
      if Monotone(m) { LosingWinner(m, winner.value); }
      return Ok(None), out;
    }
    return Ok(winner), out;
  }

  lemma BothDirections(m: Market)
    ensures AllVisits(m) == ScannedIn(m, BuyOnDexSellOnCex) + ScannedIn(m, BuyOnCexSellOnDex)
  {
    var n := |m.pools|;
    forall v: (Direction, nat)
      ensures v in AllVisits(m) <==> v.0 in m.baselines && v in VisitsOf(m, v.0, n)
      ensures forall d: Direction | v in VisitsOf(m, d, n) :: d == v.0
    {
      if v in AllVisits(m) { var d: Direction, k :| 0 <= k < n && d in m.baselines && v == (d, m.pools[k]); }
      if v.0 in m.baselines && v in VisitsOf(m, v.0, n) { var k :| 0 <= k < n && v == (v.0, m.pools[k]); }
    }
    assert forall v: (Direction, nat) :: v.0 == BuyOnDexSellOnCex || v.0 == BuyOnCexSellOnDex;
  }

  lemma CandidateKeepsDirection(m: Market, visits: Visits, exhausted: bool, c: Candidate)
    requires Attained(m, visits, exhausted, c) && visits <= AllVisits(m)
    ensures c.direction in m.baselines
  {
    var d: Direction, p: nat, n: nat :| FoundAt(m, visits, exhausted, c, d, p, n);
  }

  // Two largest trades that nothing beats have the same amount and direction.
  lemma LosingWinner(m: Market, w: Candidate)
    requires Unbeaten(m, AllVisits(m), Some(w)) && Attained(m, AllVisits(m), false, w) && Monotone(m)
    requires w.direction in m.baselines && w.trade.tokenB <= m.baselines[w.direction]
    ensures forall d: Direction, p: nat, n: nat | (d, p) in AllVisits(m) && Largest(m, d, p, n)
              && Unbeaten(m, AllVisits(m), Some(CandidateAt(m, d, p, n))) ::
              CandidateAt(m, d, p, n).trade.tokenB <= m.baselines[d]
  {
    var e: Direction, q: nat, k: nat :| FoundAt(m, AllVisits(m), false, w, e, q, k);
    StoppedIsLargest(m, e, q, k);
    forall d: Direction, p: nat, n: nat | (d, p) in AllVisits(m) && Largest(m, d, p, n)
      && Unbeaten(m, AllVisits(m), Some(CandidateAt(m, d, p, n)))
      ensures CandidateAt(m, d, p, n).trade.tokenB <= m.baselines[d]
    {
      var c := CandidateAt(m, d, p, n);
      assert !Better(c, w);
      assert !Better(CandidateAt(m, e, q, k), c);
      BetterIsAStrictOrder(c, w, c);
    }
  }

  lemma StoppedIsLargest(m: Market, d: Direction, p: nat, n: nat)
    requires Monotone(m) && (d, p) in AllVisits(m) && 0 < BaselineSteps(m, d) <= n
    requires FeasibleAt(m, d, p, n) && !FeasibleAt(m, d, p, n + 1)
    ensures Largest(m, d, p, n)
  {
    assert DownwardClosed(CurveOf(m, d, p), BaselineSteps(m, d));
    assert !FeasibleSteps(CurveOf(m, d, p), n + 1);
  }
}
