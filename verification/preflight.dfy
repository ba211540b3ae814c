/** Entry preflight: requoting both legs in whole base units without ever flattering the spread. */
module Preflight {
  import opened Machine
  import opened Trade
  import opened Accounting

  const BPS_DENOMINATOR: nat := 10_000

  datatype PreflightError = QuoteNotPositive | QuoteOverflow | ZeroCost | ThresholdOverflow | DecimalOverflow

  /** Ten to the exponent by repeated multiplication, as long as it fits. */
  method CheckedPow10Loop(exponent: nat) returns (r: Result<U256, PreflightError>)
    ensures r.Ok? <==> Pow10(exponent) < TWO_256
    ensures r.Ok? ==> r.value == Pow10(exponent)
  {
    var value: int := 1;
    var i := 0;
    while i < exponent
      invariant 0 <= i <= exponent && value == Pow10(i) < TWO_256
    {
      if value * 10 >= TWO_256 {
        Pow10Grows(i + 1, exponent);
        return Err(DecimalOverflow);
      }
      value := value * 10;
      i := i + 1;
    }
    return Ok(value);
  }

  lemma {:induction false} Pow10Grows(a: nat, b: nat)
    requires a <= b
    ensures Pow10(a) <= Pow10(b)
  {
    if a < b { Pow10Grows(a, b - 1); }
  }

  // Token-A value of a token-B amount at a price: the exact fraction is Numerator / Denominator.
  function Numerator(tokenB: U256, price: VenueDecimal, tokenADecimals: nat): (n: int)
    ensures price.mantissa > 0 ==> n >= 0
  {
    tokenB * price.mantissa * Pow10(tokenADecimals)
  }

  function Denominator(price: VenueDecimal, tokenBDecimals: nat): int { Pow10(tokenBDecimals) * Pow10(price.scale) }

  predicate ScalesFit(price: VenueDecimal, tokenADecimals: nat, tokenBDecimals: nat) {
    && Pow10(tokenADecimals) < TWO_256
    && Pow10(tokenBDecimals) < TWO_256
    && Pow10(price.scale) < TWO_256
    && Denominator(price, tokenBDecimals) < TWO_256
  }

  lemma QuotientIsSmaller(n: nat, d: int)
    requires d > 0
    ensures n / d <= CeilingDiv(n, d) <= n
  {
    CeilingDivIsCeiling(n, d);
    MulMonotone(1, d, n);
    BelowExactly(n, d, CeilingDiv(n, d), n);
  }

  /** Rounded to the side that flatters the spread least: proceeds down, cost up. */
  function AtPrice(tokenB: U256, price: VenueDecimal, tokenADecimals: nat, tokenBDecimals: nat, roundUp: bool)
    : (r: Result<U256, PreflightError>)
    ensures r.Ok? ==>
              var n, d := Numerator(tokenB, price, tokenADecimals), Denominator(price, tokenBDecimals);
              d > 0 && if roundUp then IsCeiling(n, d, r.value) else IsFloor(n, d, r.value)
  {
    if price.mantissa <= 0 then Err(QuoteNotPositive)
    else if !ScalesFit(price, tokenADecimals, tokenBDecimals) then Err(DecimalOverflow)
    else
      var n, d := Numerator(tokenB, price, tokenADecimals), Denominator(price, tokenBDecimals);
      ProductIsPositive(Pow10(tokenBDecimals), Pow10(price.scale));
      if n >= TWO_256 then Err(QuoteOverflow) else
        CeilingDivIsCeiling(n, d);
        QuotientBounds(n, d);
        var rounded := if roundUp then CeilingDiv(n, d) else n / d;
        if rounded >= TWO_256 then Err(QuoteOverflow) else Ok(rounded)
  }

  /** A price can be applied if and only if it is positive and its factors and its product fit 256 bits. */
  lemma AtPriceExistsExactly(tokenB: U256, price: VenueDecimal, tokenADecimals: nat, tokenBDecimals: nat, roundUp: bool)
    ensures AtPrice(tokenB, price, tokenADecimals, tokenBDecimals, roundUp).Ok? <==>
              && price.mantissa > 0 && ScalesFit(price, tokenADecimals, tokenBDecimals)
              && Numerator(tokenB, price, tokenADecimals) < TWO_256
  {
    ProductIsPositive(Pow10(tokenBDecimals), Pow10(price.scale));
    if price.mantissa > 0 {
      QuotientIsSmaller(Numerator(tokenB, price, tokenADecimals), Denominator(price, tokenBDecimals));
    }
  }

  function MeetsThreshold(proceeds: U256, cost: U256, thresholdBps: nat): Result<bool, PreflightError> {
    if cost == 0 then Err(ZeroCost)
    else if proceeds * BPS_DENOMINATOR >= TWO_256 || cost * (BPS_DENOMINATOR + thresholdBps) >= TWO_256
    then Err(ThresholdOverflow)
    else Ok(proceeds * BPS_DENOMINATOR >= cost * (BPS_DENOMINATOR + thresholdBps))
  }

  /** The requote of one opportunity: a DEX input and output, the matching side of the book, both scales. */
  datatype Requote = Requote(
    direction: Direction, dexIn: U256, dexOut: U256, bid: VenueDecimal, ask: VenueDecimal,
    tokenADecimals: nat, tokenBDecimals: nat, thresholdBps: nat)

  function SpreadAccepted(q: Requote): Result<bool, PreflightError> {
    match q.direction
    case BuyOnDexSellOnCex =>
      var proceeds := AtPrice(q.dexOut, q.bid, q.tokenADecimals, q.tokenBDecimals, false);
      if proceeds.Err? then Err(proceeds.error) else MeetsThreshold(proceeds.value, q.dexIn, q.thresholdBps)
    case BuyOnCexSellOnDex =>
      var cost := AtPrice(q.dexIn, q.ask, q.tokenADecimals, q.tokenBDecimals, true);
      if cost.Err? then Err(cost.error) else MeetsThreshold(q.dexOut, cost.value, q.thresholdBps)
  }

  /** There is an answer if and only if the price is positive, the CEX side can be computed, the cost is not zero
      and both sides of the comparison fit 256 bits. */
  lemma SpreadIsAnsweredExactly(q: Requote)
    ensures SpreadAccepted(q).Ok? <==>
              var buys := q.direction.BuyOnDexSellOnCex?;
              var amount, price := if buys then q.dexOut else q.dexIn, if buys then q.bid else q.ask;
              var side := AtPrice(amount, price, q.tokenADecimals, q.tokenBDecimals, !buys);
              && side.Ok?
              && var proceeds, cost := if buys then side.value else q.dexOut, if buys then q.dexIn else side.value;
              && cost > 0 && proceeds * 10_000 < TWO_256 && cost * (10_000 + q.thresholdBps) < TWO_256
  {
  }

  // proceeds / cost >= (10000 + bps) / 10000, with proceeds = pn / pd and cost = cn / cd exactly.
  predicate ExactSpread(pn: int, pd: int, cn: int, cd: int, thresholdBps: nat) {
    pn * cd * BPS_DENOMINATOR >= cn * pd * (BPS_DENOMINATOR + thresholdBps)
  }

  // The exact spread of a requote when `slack` base units of token A are taken off its CEX side.
  predicate RequoteClears(q: Requote, slack: int) {
    match q.direction
    case BuyOnDexSellOnCex =>
      var d := Denominator(q.bid, q.tokenBDecimals);
      ExactSpread(Numerator(q.dexOut, q.bid, q.tokenADecimals) - slack * d, d, q.dexIn, 1, q.thresholdBps)
    case BuyOnCexSellOnDex =>
      var d := Denominator(q.ask, q.tokenBDecimals);
      ExactSpread(q.dexOut, 1, Numerator(q.dexIn, q.ask, q.tokenADecimals) + slack * d, d, q.thresholdBps)
  }

  lemma FloorProceeds(pn: int, pd: int, floor: int, cost: int, bps: nat)
    requires pd > 0 && IsFloor(pn, pd, floor)
    ensures floor * BPS_DENOMINATOR >= cost * (BPS_DENOMINATOR + bps) ==> ExactSpread(pn, pd, cost, 1, bps)
    ensures ExactSpread(pn - pd, pd, cost, 1, bps) ==> floor * BPS_DENOMINATOR >= cost * (BPS_DENOMINATOR + bps)
  {
    var f, c := floor * BPS_DENOMINATOR, cost * (BPS_DENOMINATOR + bps);
    assert cost * pd * (BPS_DENOMINATOR + bps) == c * pd;
    assert floor * pd * BPS_DENOMINATOR == f * pd;
    assert (floor + 1) * pd == floor * pd + pd;
    if f >= c { MulMonotone(c, f, pd); } else { MulMonotone(f + 1, c, pd); }
  }

  lemma CeilingCost(cn: int, cd: int, ceiling: int, proceeds: int, bps: nat)
    requires cd > 0 && IsCeiling(cn, cd, ceiling)
    ensures proceeds * BPS_DENOMINATOR >= ceiling * (BPS_DENOMINATOR + bps) ==> ExactSpread(proceeds, 1, cn, cd, bps)
    ensures ExactSpread(proceeds, 1, cn + cd, cd, bps) ==>
              proceeds * BPS_DENOMINATOR >= ceiling * (BPS_DENOMINATOR + bps)
  {
    var factor := BPS_DENOMINATOR + bps;
    var p, c := proceeds * BPS_DENOMINATOR, ceiling * factor;
    assert proceeds * cd * BPS_DENOMINATOR == p * cd;
    assert ceiling * cd * factor == c * cd;
    assert (ceiling - 1) * cd == ceiling * cd - cd;
    MulMonotone(cn, ceiling * cd, factor);
    MulMonotone(ceiling * cd, cn + cd, factor);
    if p >= c { MulMonotone(c, p, cd); } else { MulMonotone(p + 1, c, cd); }
  }

  /** An accepted spread holds on the exact rational amounts, and a spread that still holds after one base
      unit of token A is taken off the rounded side is accepted: rounding costs less than one base unit. */
  lemma SpreadDecisionIsTight(q: Requote)
    requires SpreadAccepted(q).Ok?
    ensures SpreadAccepted(q).value ==> RequoteClears(q, 0)
    ensures RequoteClears(q, 1) ==> SpreadAccepted(q).value
  {
    match q.direction
    case BuyOnDexSellOnCex =>
      var proceeds := AtPrice(q.dexOut, q.bid, q.tokenADecimals, q.tokenBDecimals, false).value;
      FloorProceeds(Numerator(q.dexOut, q.bid, q.tokenADecimals), Denominator(q.bid, q.tokenBDecimals),
                    proceeds, q.dexIn, q.thresholdBps);
    case BuyOnCexSellOnDex =>
      var cost := AtPrice(q.dexIn, q.ask, q.tokenADecimals, q.tokenBDecimals, true).value;
      CeilingCost(Numerator(q.dexIn, q.ask, q.tokenADecimals), Denominator(q.ask, q.tokenBDecimals),
                  cost, q.dexOut, q.thresholdBps);
  }
}
