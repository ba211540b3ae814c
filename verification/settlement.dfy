/** From what a venue reports to the leg a trade records, and from the legs to a profit that never flatters:
    every amount is rounded against the bot, so the comparable profit is a lower bound of the exact one. */
module Settlement {
  import opened Machine
  import opened Trade
  import opened Accounting
  import Runs
  import CloseOutLaws

  // ---------------------------------------------------------------- venue decimals

  const MAX_DECIMAL_SCALE: nat := 28
  const TWO_96: int := 0x1_0000_0000_0000_0000_0000_0000

  function Fraction(mantissa: int, scale: nat): real { mantissa as real / Pow10(scale) as real }

  function Value(d: VenueDecimal): real { Fraction(d.mantissa, d.scale) }

  /** What the decimal type answers when an exact result does not fit: a rounded one, or none. */
  datatype Arithmetic = Arithmetic(
    roundedProduct: (VenueDecimal, VenueDecimal) -> Option<VenueDecimal>,
    roundedSum: (VenueDecimal, VenueDecimal) -> Option<VenueDecimal>)

  predicate ProductFits(a: VenueDecimal, b: VenueDecimal) {
    a.scale + b.scale <= MAX_DECIMAL_SCALE && -TWO_96 < a.mantissa * b.mantissa < TWO_96
  }

  function Product(a: VenueDecimal, b: VenueDecimal): VenueDecimal
    requires ProductFits(a, b)
  {
    VenueDecimal(a.mantissa * b.mantissa, a.scale + b.scale)
  }

  function CheckedMul(x: Arithmetic, a: VenueDecimal, b: VenueDecimal): Option<VenueDecimal> {
    if ProductFits(a, b) then Some(Product(a, b))
    else x.roundedProduct(a, b)
  }

  // The mantissa of `d` at a scale that is at least its own.
  function Aligned(d: VenueDecimal, scale: nat): int
    requires d.scale <= scale
  {
    d.mantissa * Pow10(scale - d.scale)
  }

  function CommonScale(a: VenueDecimal, b: VenueDecimal): nat { if a.scale < b.scale then b.scale else a.scale }

  predicate SumFits(a: VenueDecimal, b: VenueDecimal) {
    var scale := CommonScale(a, b);
    -TWO_96 < Aligned(a, scale) + Aligned(b, scale) < TWO_96
  }

  function CheckedAdd(x: Arithmetic, a: VenueDecimal, b: VenueDecimal): Option<VenueDecimal> {
    var scale := CommonScale(a, b);
    if SumFits(a, b) then Some(VenueDecimal(Aligned(a, scale) + Aligned(b, scale), scale)) else x.roundedSum(a, b)
  }

  lemma QuotientTimes(r: real, d: real)
    requires d > 0.0
    ensures r * d / d == r
  {
  }

  lemma RealFractionsMultiply(m: real, n: real, p: real, q: real)
    requires p > 0.0 && q > 0.0 && p * q > 0.0
    ensures m * n / (p * q) == (m / p) * (n / q)
  {
    var a, b := m / p, n / q;
    assert m == a * p && n == b * q;
    assert m * n == (a * b) * (p * q);
    QuotientTimes(a * b, p * q);
  }

  lemma FractionsMultiply(m: int, n: int, p: int, q: int)
    requires p > 0 && q > 0
    ensures p * q > 0 && (m * n) as real / (p * q) as real == (m as real / p as real) * (n as real / q as real)
  {
    ProductIsPositive(p, q);
    assert (m * n) as real == m as real * n as real && (p * q) as real == p as real * q as real;
    RealFractionsMultiply(m as real, n as real, p as real, q as real);
  }

  lemma TimesOne(r: real, q: real)
    requires q > 0.0
    ensures r * (q / q) == r
  {
    assert q / q == 1.0;
  }

  lemma FactorOut(m: real, n: real, p: real)
    requires p > 0.0
    ensures m * n / p == m / p * n
  {
    var a := m / p;
    assert m == a * p;
    assert m * n == (a * n) * p;
    QuotientTimes(a * n, p);
  }

  lemma FractionOfProduct(m: int, n: int, j: nat, k: nat)
    ensures Fraction(m * n, j + k) == Fraction(m, j) * Fraction(n, k)
  {
    Pow10Adds(j, k);
    FractionsMultiply(m, n, Pow10(j), Pow10(k));
  }

  lemma AlignedIsExact(d: VenueDecimal, scale: nat)
    requires d.scale <= scale
    ensures Fraction(Aligned(d, scale), scale) == Value(d)
  {
    var own, shift := Pow10(d.scale), Pow10(scale - d.scale);
    Pow10Adds(d.scale, scale - d.scale);
    FractionsMultiply(d.mantissa, shift, own, shift);
    TimesOne(d.mantissa as real / own as real, shift as real);
  }

  lemma RealFractionsAdd(a: real, b: real, d: real)
    requires d > 0.0
    ensures (a + b) / d == a / d + b / d
  {
    var x, y := a / d, b / d;
    assert a == x * d && b == y * d;
    assert a + b == (x + y) * d;
    QuotientTimes(x + y, d);
  }

  lemma FractionsAdd(m: int, n: int, k: nat)
    ensures Fraction(m + n, k) == Fraction(m, k) + Fraction(n, k)
  {
    assert (m + n) as real == m as real + n as real;
    RealFractionsAdd(m as real, n as real, Pow10(k) as real);
  }

  lemma SumIsExact(x: Arithmetic, a: VenueDecimal, b: VenueDecimal)
    requires SumFits(a, b)
    ensures CheckedAdd(x, a, b).Some? && Value(CheckedAdd(x, a, b).value) == Value(a) + Value(b)
  {
    var scale := CommonScale(a, b);
    AlignedIsExact(a, scale);
    AlignedIsExact(b, scale);
    FractionsAdd(Aligned(a, scale), Aligned(b, scale), scale);
  }

  // An amount in base units.
  function Units(amount: real, decimals: nat): real { amount * Pow10(decimals) as real }

  // `v` is the exact amount rounded down.
  predicate RoundsDown(v: int, exact: real) { v as real <= exact < v as real + 1.0 }

  // `v` is the exact amount rounded up.
  predicate RoundsUp(v: int, exact: real) { exact <= v as real < exact + 1.0 }

  lemma QuotientBelow(n: real, d: real, bound: real)
    requires d > 0.0 && n < bound * d
    ensures n / d < bound
  {
    QuotientTimes(bound, d);
    assert n / d < bound * d / d;
  }

  lemma FloorOfFraction(n: int, d: int, v: int)
    requires d > 0 && IsFloor(n, d, v)
    ensures RoundsDown(v, n as real / d as real)
  {
    RealDivisionMonotone(v, n, d);
    assert ((v + 1) * d) as real == (v as real + 1.0) * d as real;
    QuotientBelow(n as real, d as real, v as real + 1.0);
  }

  lemma FloorIsBelowUnits(d: VenueDecimal, decimals: nat, v: int)
    requires IsFloor(d.mantissa * Pow10(decimals), Pow10(d.scale), v)
    ensures RoundsDown(v, Units(Value(d), decimals))
  {
    FloorOfFraction(d.mantissa * Pow10(decimals), Pow10(d.scale), v);
    UnitsOfDecimal(d, decimals);
  }

  lemma UnitsOfDecimal(d: VenueDecimal, decimals: nat)
    ensures Units(Value(d), decimals) == (d.mantissa * Pow10(decimals)) as real / Pow10(d.scale) as real
  {
    ExactUnits(d.mantissa, Pow10(decimals), Pow10(d.scale));
  }

  /** A converted decimal is the exact amount in base units, rounded down. */
  lemma BaseUnitsNeverExceed(d: VenueDecimal, decimals: nat)
    requires ToSignedBaseUnits(d, decimals).Ok?
    ensures RoundsDown(ToSignedBaseUnits(d, decimals).value, Units(Value(d), decimals))
  {
    BaseUnitsAreFloor(d, decimals);
    FloorIsBelowUnits(d, decimals, ToSignedBaseUnits(d, decimals).value);
  }

  lemma ExactUnits(mantissa: int, unit: int, scale: int)
    requires scale > 0
    ensures (mantissa * unit) as real / scale as real == mantissa as real / scale as real * unit as real
  {
    assert (mantissa * unit) as real == mantissa as real * unit as real;
    FactorOut(mantissa as real, unit as real, scale as real);
  }

  // ---------------------------------------------------------------- Binance commissions

  /** The one non-pair asset a commission may be charged in, with its token-A price when known. */
  datatype Valuation = Valuation(asset: string, price: Option<VenueDecimal>)

  datatype TokenAChange = TokenAChange(
    tokenA: VenueDecimal, deltas: map<string, VenueDecimal>, prices: map<string, VenueDecimal>)

  type Changes = map<string, VenueDecimal>

  function ChangeOf(changes: Changes, asset: string): VenueDecimal {
    if asset in changes then changes[asset] else VenueDecimal(0, 0)
  }

  predicate ThirdAsset(changes: Changes, base: string, quote: string, asset: string) {
    asset in changes && asset != base && asset != quote && changes[asset].mantissa != 0
  }

  // A commission that can be booked: negative, in the valued asset, at a positive price if priced.
  predicate Bookable(changes: Changes, valuation: Option<Valuation>, asset: string)
    requires asset in changes
  {
    && valuation.Some? && valuation.value.asset == asset && changes[asset].mantissa < 0
    && (valuation.value.price.Some? ==> valuation.value.price.value.mantissa > 0)
  }

  ghost predicate CommissionsValued(changes: Changes, base: string, quote: string, valuation: Option<Valuation>) {
    forall asset | ThirdAsset(changes, base, quote, asset) :: Bookable(changes, valuation, asset)
  }

  predicate Priced(changes: Changes, base: string, quote: string, valuation: Option<Valuation>) {
    valuation.Some? && valuation.value.price.Some? && ThirdAsset(changes, base, quote, valuation.value.asset)
  }

  // A balance after a change valued at a price.
  function Booked(x: Arithmetic, balance: VenueDecimal, change: VenueDecimal,
                  price: VenueDecimal): Option<VenueDecimal> {
    var value := CheckedMul(x, change, price);
    if value.None? then None else CheckedAdd(x, balance, value.value)
  }

  // Token-A change of the quote asset plus the priced commission, if there is one.
  function ValuedTokenA(x: Arithmetic, changes: Changes, base: string, quote: string, valuation: Option<Valuation>)
    : Option<VenueDecimal>
  {
    if !Priced(changes, base, quote, valuation) then Some(ChangeOf(changes, quote))
    else Booked(x, ChangeOf(changes, quote), changes[valuation.value.asset], valuation.value.price.value)
  }

  function ThirdDeltas(changes: Changes, base: string, quote: string): Changes {
    map asset | asset in changes && ThirdAsset(changes, base, quote, asset) :: changes[asset]
  }

  /** The fold over balance changes, in whatever order, succeeds exactly when every commission can be booked
      and its value fits the decimal type. */
  method AccumulateCommissions(x: Arithmetic, changes: Changes, base: string, quote: string,
                               valuation: Option<Valuation>)
    returns (r: Result<TokenAChange, AccountingError>)
    ensures r.Ok? <==> CommissionsValued(changes, base, quote, valuation)
                       && ValuedTokenA(x, changes, base, quote, valuation).Some?
    ensures r.Ok? ==>
              && Some(r.value.tokenA) == ValuedTokenA(x, changes, base, quote, valuation)
              && r.value.deltas == ThirdDeltas(changes, base, quote)
              && r.value.prices == if Priced(changes, base, quote, valuation)
                                   then map[valuation.value.asset := valuation.value.price.value] else map[]
  {
    var tokenA := if quote in changes then changes[quote] else VenueDecimal(0, 0);
    var deltas: Changes, prices: Changes := map[], map[];
    var rest := changes.Keys;
    while rest != {}
      invariant rest <= changes.Keys
      invariant forall asset | ThirdAsset(changes, base, quote, asset) && asset !in rest ::
                  Bookable(changes, valuation, asset)
      invariant deltas == map asset | asset in changes && ThirdAsset(changes, base, quote, asset) && asset !in rest ::
                  changes[asset]
      invariant if Priced(changes, base, quote, valuation) && valuation.value.asset !in rest
                then && Some(tokenA) == ValuedTokenA(x, changes, base, quote, valuation)
                     && prices == map[valuation.value.asset := valuation.value.price.value]
                else tokenA == ChangeOf(changes, quote) && prices == map[]
      decreases rest
    {
      var asset :| asset in rest;
      rest := rest - {asset};
      if asset != base && asset != quote && changes[asset].mantissa != 0 {
        assert ThirdAsset(changes, base, quote, asset);
        if valuation.None? || valuation.value.asset != asset { return Err(UnvaluedCommission); }
        if changes[asset].mantissa >= 0 { return Err(PositiveCommission); }
        deltas := deltas[asset := changes[asset]];
        if valuation.value.price.Some? {
          if valuation.value.price.value.mantissa <= 0 { return Err(NotPositive); }
          var value := CheckedMul(x, changes[asset], valuation.value.price.value);
          if value.None? { return Err(Overflow); }
          var sum := CheckedAdd(x, tokenA, value.value);
          if sum.None? { return Err(Overflow); }
          tokenA, prices := sum.value, prices[asset := valuation.value.price.value];
        }
      }
    }
    return Ok(TokenAChange(tokenA, deltas, prices));
  }

  // ---------------------------------------------------------------- venue outcomes and their legs

  /** What both venues of one trade agree on. */
  datatype Terms = Terms(
    direction: Direction, planned: I128, base: string, quote: string, baseDecimals: nat, quoteDecimals: nat,
    gasPrice: VenueDecimal)

  datatype GasFee = GasFee(gasUsed: U64, gasPriceWei: U128, l1FeeWei: U128)

  datatype Swap = Swap(
    tokenIn: U256, tokenOut: U256, transaction: string, fee: GasFee,
    settlementFee: Option<FeeProof>, settlementLog: Option<ChainLog>)

  datatype Side = Buy | Sell

  /** A Binance order; `changes` are its balance changes, if they could be computed. */
  datatype Order = Order(status: string, side: Side, executed: VenueDecimal, orderId: U64, changes: Option<Changes>)

  /** How a leg came about. */
  datatype Source =
    | Swapped(swap: Swap)
    | Reverted(fee: GasFee, transaction: string)
    | Unsubmitted(reference: string)
    | Ordered(order: Order, valuation: Option<Valuation>, arithmetic: Arithmetic)

  function RecordedGas(t: Terms, fee: GasFee): Result<U128, AccountingError> {
    if t.gasPrice.mantissa == 0 then Ok(0)
    else GasInTokenA(fee.gasUsed, fee.gasPriceWei, fee.l1FeeWei, t.gasPrice, t.quoteDecimals)
  }

  function FailedLeg(gas: U128, reference: string): LegResult {
    LegResult(Failed, None, 0, 0, map[], map[], gas, reference, None, None)
  }

  function DexLegResult(direction: Direction, swap: Swap, gas: U128): Result<LegResult, AccountingError> {
    if swap.tokenIn >= TWO_127 || swap.tokenOut >= TWO_127 then Err(Overflow) else
      var buys := direction.BuyOnDexSellOnCex?;
      Ok(LegResult(Filled, None,
                   if buys then swap.tokenOut else 0 - swap.tokenIn, if buys then 0 - swap.tokenIn else swap.tokenOut,
                   map[], map[], gas, "dex:" + swap.transaction, swap.settlementFee, swap.settlementLog))
  }

  // Output above the planned quantity stays in the wallet and outside the trade.
  function Capped(direction: Direction, planned: I128, leg: LegResult): LegResult {
    if direction.BuyOnDexSellOnCex? && leg.tokenB > planned then leg.(tokenB := planned) else leg
  }

  predicate TerminalOrder(o: Order) { o.status in ["FILLED", "EXPIRED", "CANCELED"] }

  function SignedQuantity(o: Order): VenueDecimal {
    if o.side.Buy? then o.executed else o.executed.(mantissa := WrapNeg(o.executed.mantissa))
  }

  function Reals(changes: Changes): map<string, real> { map asset | asset in changes :: Value(changes[asset]) }

  function OrderLeg(orderId: U64, executed: I128, tokenB: I128, change: TokenAChange, tokenA: I128): LegResult {
    LegResult(if tokenB == 0 && tokenA == 0 then Failed else Filled, Some(executed), tokenB, tokenA,
              Reals(change.deltas), Reals(change.prices), 0, "cex:" + Decimal(orderId), None, None)
  }

  /** The leg of an order: its token-B and token-A changes, each converted to base units. */
  method BinanceLegResult(t: Terms, o: Order, valuation: Option<Valuation>, x: Arithmetic)
    returns (r: Result<LegResult, AccountingError>)
    ensures r.Ok? <==> OrderRecorded(t, o, valuation, x).Some?
    ensures r.Ok? ==> OrderRecorded(t, o, valuation, x) == Some(r.value)
  {
    if !TerminalOrder(o) { return Err(NotTerminal); }
    if o.changes.None? { return Err(NoBalanceChanges); }
    var changes := o.changes.value;
    var change := AccumulateCommissions(x, changes, t.base, t.quote, valuation);
    if change.Err? { return Err(change.error); }
    var tokenB := ToSignedBaseUnits(ChangeOf(changes, t.base), t.baseDecimals);
    if tokenB.Err? { return Err(tokenB.error); }
    var executed := ToSignedBaseUnits(SignedQuantity(o), t.baseDecimals);
    if executed.Err? { return Err(executed.error); }
    var tokenA := ToSignedBaseUnits(change.value.tokenA, t.quoteDecimals);
    if tokenA.Err? { return Err(tokenA.error); }
    return Ok(OrderLeg(o.orderId, executed.value, tokenB.value, change.value, tokenA.value));
  }

  // The same leg, without the loop: none when some step fails.
  ghost function OrderRecorded(t: Terms, o: Order, valuation: Option<Valuation>, x: Arithmetic): Option<LegResult> {
    if !TerminalOrder(o) || o.changes.None? then None else
      var changes := o.changes.value;
      var valued := ValuedTokenA(x, changes, t.base, t.quote, valuation);
      if !CommissionsValued(changes, t.base, t.quote, valuation) || valued.None? then None else
        var tokenB := ToSignedBaseUnits(ChangeOf(changes, t.base), t.baseDecimals);
        var executed := ToSignedBaseUnits(SignedQuantity(o), t.baseDecimals);
        var tokenA := ToSignedBaseUnits(valued.value, t.quoteDecimals);
        if tokenB.Err? || executed.Err? || tokenA.Err? then None else
          var prices := if Priced(changes, t.base, t.quote, valuation)
                        then map[valuation.value.asset := valuation.value.price.value] else map[];
          Some(OrderLeg(o.orderId, executed.value, tokenB.value,
                        TokenAChange(valued.value, ThirdDeltas(changes, t.base, t.quote), prices), tokenA.value))
  }

  ghost function Recorded(t: Terms, s: Source): Option<LegResult> {
    match s
    case Swapped(swap) =>
      var gas := RecordedGas(t, swap.fee);
      if gas.Err? then None else
        var leg := DexLegResult(t.direction, swap, gas.value);
        if leg.Err? then None else Some(Capped(t.direction, t.planned, leg.value))
    case Reverted(fee, transaction) =>
      var gas := RecordedGas(t, fee);
      if gas.Err? then None else Some(FailedLeg(gas.value, "dex:" + transaction + ":reverted"))
    case Unsubmitted(reference) => Some(FailedLeg(0, reference))
    case Ordered(o, valuation, x) => OrderRecorded(t, o, valuation, x)
  }

  // ---------------------------------------------------------------- what really moved

  /** Exact amounts, in base units. */
  datatype Movement = Movement(tokenA: real, tokenB: real, gas: real)

  function ExactGas(t: Terms, fee: GasFee): real {
    GasNumerator(fee.gasUsed * fee.gasPriceWei + fee.l1FeeWei, t.gasPrice, t.quoteDecimals) as real
    / GasDenominator(t.gasPrice) as real
  }

  function SwapMovement(t: Terms, swap: Swap): Movement {
    if t.direction.BuyOnDexSellOnCex? then
      Movement(0.0 - swap.tokenIn as real, swap.tokenOut as real, ExactGas(t, swap.fee))
    else Movement(swap.tokenOut as real, 0.0 - swap.tokenIn as real, ExactGas(t, swap.fee))
  }

  function Worth(change: VenueDecimal, price: VenueDecimal): real { Value(change) * Value(price) }

  // Quote change plus the commission at its price, not rounded.
  function ExactTokenA(t: Terms, changes: Changes, valuation: Option<Valuation>): real {
    Value(ChangeOf(changes, t.quote))
    + if Priced(changes, t.base, t.quote, valuation)
      then Worth(changes[valuation.value.asset], valuation.value.price.value) else 0.0
  }

  function OrderMovement(t: Terms, changes: Changes, valuation: Option<Valuation>): Movement {
    Movement(Units(ExactTokenA(t, changes, valuation), t.quoteDecimals),
             Units(Value(ChangeOf(changes, t.base)), t.baseDecimals), 0.0)
  }

  function Moved(t: Terms, s: Source): Movement {
    match s
    case Swapped(swap) => SwapMovement(t, swap)
    case Reverted(fee, _) => Movement(0.0, 0.0, ExactGas(t, fee))
    case Unsubmitted(_) => Movement(0.0, 0.0, 0.0)
    case Ordered(o, valuation, _) =>
      if o.changes.Some? then OrderMovement(t, o.changes.value, valuation) else Movement(0.0, 0.0, 0.0)
  }

  predicate BookingFits(balance: VenueDecimal, change: VenueDecimal, price: VenueDecimal) {
    && ProductFits(change, price)
    && SumFits(balance, Product(change, price))
  }

  /** Gas has a price, a commission in a third asset has one, and valuing it needs no decimal rounding. */
  predicate FullyValued(t: Terms, s: Source) {
    match s
    case Swapped(_) => t.gasPrice.mantissa > 0
    case Reverted(_, _) => t.gasPrice.mantissa > 0
    case Unsubmitted(_) => true
    case Ordered(o, valuation, x) =>
      && o.changes.Some?
      && (valuation.Some? && ThirdAsset(o.changes.value, t.base, t.quote, valuation.value.asset) ==>
            valuation.value.price.Some?)
      && (Priced(o.changes.value, t.base, t.quote, valuation) ==>
            BookingFits(ChangeOf(o.changes.value, t.quote), o.changes.value[valuation.value.asset],
                        valuation.value.price.value))
  }

  // ---------------------------------------------------------------- every leg is recorded against the bot

  // Both amounts rounded down, gas rounded up; what a swap bought beyond the plan is left out.
  predicate Against(t: Terms, s: Source, leg: LegResult) {
    var m := Moved(t, s);
    && RoundsDown(leg.tokenA, m.tokenA) && RoundsUp(leg.gasCost, m.gas)
    && if s.Swapped? && t.direction.BuyOnDexSellOnCex? && m.tokenB > t.planned as real then leg.tokenB == t.planned
       else RoundsDown(leg.tokenB, m.tokenB)
  }

  lemma CeilingIsAbove(n: int, d: int, q: int)
    requires d > 0 && IsCeiling(n, d, q)
    ensures RoundsUp(q, n as real / d as real)
  {
    NegatedCeilingIsFloor(n, d, q);
    FloorOfFraction(0 - n, d, 0 - q);
    NegatedFraction(n as real, d as real);
  }

  lemma NegatedFraction(n: real, d: real)
    requires d > 0.0
    ensures (0.0 - n) / d == 0.0 - n / d
  {
  }

  lemma GasIsRoundedUp(t: Terms, fee: GasFee)
    requires t.gasPrice.mantissa > 0 && RecordedGas(t, fee).Ok?
    ensures RoundsUp(RecordedGas(t, fee).value, ExactGas(t, fee))
  {
    CeilingIsAbove(GasNumerator(fee.gasUsed * fee.gasPriceWei + fee.l1FeeWei, t.gasPrice, t.quoteDecimals),
                   GasDenominator(t.gasPrice), RecordedGas(t, fee).value);
  }

  lemma ProductIsExact(a: VenueDecimal, b: VenueDecimal)
    requires ProductFits(a, b)
    ensures Value(Product(a, b)) == Worth(a, b)
  {
    var m, n, j, k := a.mantissa, b.mantissa, a.scale, b.scale;
    assert Value(Product(a, b)) == Fraction(m * n, j + k);
    FractionOfProduct(m, n, j, k);
  }

  lemma SumOfWorth(x: Arithmetic, balance: VenueDecimal, product: VenueDecimal, worth: real)
    requires SumFits(balance, product) && Value(product) == worth
    ensures CheckedAdd(x, balance, product).Some?
    ensures Value(CheckedAdd(x, balance, product).value) == Value(balance) + worth
  {
    SumIsExact(x, balance, product);
  }

  // Booking a commission whose value and sum fit loses nothing.
  lemma BookingIsExact(x: Arithmetic, balance: VenueDecimal, change: VenueDecimal, price: VenueDecimal)
    requires BookingFits(balance, change, price)
    ensures var sum := Booked(x, balance, change, price);
            sum.Some? && Value(sum.value) == Value(balance) + Worth(change, price)
  {
    ProductIsExact(change, price);
    SumOfWorth(x, balance, Product(change, price), Worth(change, price));
  }

  lemma ValuedIsExact(t: Terms, changes: Changes, valuation: Option<Valuation>, x: Arithmetic)
    requires Priced(changes, t.base, t.quote, valuation) ==>
               BookingFits(ChangeOf(changes, t.quote), changes[valuation.value.asset], valuation.value.price.value)
    ensures var valued := ValuedTokenA(x, changes, t.base, t.quote, valuation);
            valued.Some? && Value(valued.value) == ExactTokenA(t, changes, valuation)
  {
    if Priced(changes, t.base, t.quote, valuation) {
      BookingIsExact(x, ChangeOf(changes, t.quote), changes[valuation.value.asset], valuation.value.price.value);
    }
  }

  lemma OrderNeverFlatters(t: Terms, o: Order, valuation: Option<Valuation>, x: Arithmetic)
    requires OrderRecorded(t, o, valuation, x).Some? && FullyValued(t, Ordered(o, valuation, x))
    ensures Against(t, Ordered(o, valuation, x), OrderRecorded(t, o, valuation, x).value)
  {
    var changes := o.changes.value;
    ValuedIsExact(t, changes, valuation, x);
    BaseUnitsNeverExceed(ValuedTokenA(x, changes, t.base, t.quote, valuation).value, t.quoteDecimals);
    BaseUnitsNeverExceed(ChangeOf(changes, t.base), t.baseDecimals);
  }

  /** Whatever the venue did, the recorded leg is what really moved, to the unit: token A and token B rounded
      down, gas rounded up, and only what a swap bought beyond the planned quantity left out. */
  lemma LegNeverFlatters(t: Terms, s: Source)
    requires Recorded(t, s).Some? && FullyValued(t, s)
    ensures Against(t, s, Recorded(t, s).value)
  {
    match s
    case Swapped(swap) => GasIsRoundedUp(t, swap.fee);
    case Reverted(fee, _) => GasIsRoundedUp(t, fee);
    case Unsubmitted(_) =>
    case Ordered(o, valuation, x) => OrderNeverFlatters(t, o, valuation, x);
  }

  // The venue reference of a leg, and whether it can be told from a fill.
  predicate Labelled(s: Source, leg: LegResult) {
    match s
    case Swapped(swap) =>
      && leg.status.Filled? && leg.venueReference == "dex:" + swap.transaction
      && leg.settlementFee == swap.settlementFee && leg.settlementLog == swap.settlementLog
    case Reverted(_, _) => ProvesZeroExposure(leg)
    case Unsubmitted(reference) =>
      && leg.status.Failed? && leg.gasCost == 0 && leg.venueReference == reference
      && (reference == "dex:unsubmitted" ==> ProvesZeroExposure(leg))
      && (RetryableFailure(leg) <==>
            reference in ["cex:market-unsubmitted", "cex:market-rejected"]
            || StartsWith(reference, "cex:market-zero-fill:"))
    case Ordered(o, _, _) =>
      && leg.venueReference == "cex:" + Decimal(o.orderId)
      && (leg.status == if leg.tokenA == 0 == leg.tokenB then Failed else Filled)
  }

  /** A leg says how it came about: a revert and an unsubmitted swap prove that nothing moved, so the trade can
      close; an unsubmitted, rejected or unfilled market order, and no other, may be retried; an order that
      moved nothing is a failure. */
  lemma LegIsLabelled(t: Terms, s: Source)
    requires Recorded(t, s).Some?
    ensures Labelled(s, Recorded(t, s).value)
  {
    if s.Reverted? {
      var reference := "dex:" + s.transaction + ":reverted";
      assert reference[|reference| - |":reverted"|..] == ":reverted";
    }
  }

  /** An order's leg also says what was executed before any token-B commission, to the unit, and which
      commissions were charged in a third asset. */
  lemma OrderIsDetailed(t: Terms, o: Order, valuation: Option<Valuation>, x: Arithmetic)
    requires OrderRecorded(t, o, valuation, x).Some?
    ensures var leg := OrderRecorded(t, o, valuation, x).value;
            && o.changes.Some? && o.status in ["FILLED", "EXPIRED", "CANCELED"] && leg.executedTokenB.Some?
            && (o.executed.mantissa > -TWO_127 ==>
                  RoundsDown(leg.executedTokenB.value,
                             Units(if o.side.Buy? then Value(o.executed) else 0.0 - Value(o.executed), t.baseDecimals)))
            && (forall asset | ThirdAsset(o.changes.value, t.base, t.quote, asset) ::
                  asset in leg.thirdAssetDeltas && leg.thirdAssetDeltas[asset] == Value(o.changes.value[asset]))
            && (forall asset | asset in leg.thirdAssetDeltas :: ThirdAsset(o.changes.value, t.base, t.quote, asset))
            && leg.thirdAssetPrices.Keys <= leg.thirdAssetDeltas.Keys
  {
    BaseUnitsNeverExceed(SignedQuantity(o), t.baseDecimals);
    NegatedFraction(o.executed.mantissa as real, Pow10(o.executed.scale) as real);
  }

  /** An order's leg passes leg validation, and so can be recorded, if and only if it moved something or nothing
      at all was executed or charged. */
  lemma OrderIsRecordableExactly(t: Terms, o: Order, valuation: Option<Valuation>, x: Arithmetic)
    requires OrderRecorded(t, o, valuation, x).Some?
    requires ValidId(OrderRecorded(t, o, valuation, x).value.venueReference, 128)
    ensures var leg := OrderRecorded(t, o, valuation, x).value;
            ValidLeg(leg) <==>
            (leg.tokenA == 0 == leg.tokenB ==> leg.executedTokenB == Some(0) && leg.thirdAssetDeltas == map[])
  {
    OrderIsDetailed(t, o, valuation, x);
  }

  // The decimal can be given in base units.
  predicate Convertible(d: VenueDecimal, decimals: nat) {
    Pow10(ScaleGap(d, decimals)) < TWO_127 && UnitsFit(d, decimals)
  }

  // The fee is not priced at all, or it can be converted.
  predicate GasConvertible(t: Terms, fee: GasFee) {
    || t.gasPrice.mantissa == 0
    || (&& fee.gasUsed > 0 && fee.gasPriceWei > 0 && t.gasPrice.mantissa > 0
        && GasFits(GasNumerator(fee.gasUsed * fee.gasPriceWei + fee.l1FeeWei, t.gasPrice, t.quoteDecimals),
                   GasDenominator(t.gasPrice)))
  }

  /** There is a leg to record if and only if the fee can be converted, the amounts fit, and, for an order, it is
      over, its balance changes are known, its commissions can be booked and its amounts converted. */
  lemma LegExistsExactly(t: Terms, s: Source)
    ensures Recorded(t, s).Some? <==>
              match s
              case Swapped(swap) => GasConvertible(t, swap.fee) && swap.tokenIn < TWO_127 && swap.tokenOut < TWO_127
              case Reverted(fee, _) => GasConvertible(t, fee)
              case Unsubmitted(_) => true
              case Ordered(o, valuation, x) =>
                && o.status in ["FILLED", "EXPIRED", "CANCELED"] && o.changes.Some?
                && var changes := o.changes.value;
                && CommissionsValued(changes, t.base, t.quote, valuation)
                && ValuedTokenA(x, changes, t.base, t.quote, valuation).Some?
                && Convertible(ChangeOf(changes, t.base), t.baseDecimals)
                && Convertible(SignedQuantity(o), t.baseDecimals)
                && Convertible(ValuedTokenA(x, changes, t.base, t.quote, valuation).value, t.quoteDecimals)
  {
    if s.Ordered? && s.order.changes.Some? {
      var changes := s.order.changes.value;
      BaseUnitsExistExactly(ChangeOf(changes, t.base), t.baseDecimals);
      BaseUnitsExistExactly(SignedQuantity(s.order), t.baseDecimals);
      var valued := ValuedTokenA(s.arithmetic, changes, t.base, t.quote, s.valuation);
      if valued.Some? { BaseUnitsExistExactly(valued.value, t.quoteDecimals); }
    }
  }

  // ---------------------------------------------------------------- totals

  function Total(t: Terms, sources: seq<Source>): Movement {
    if sources == [] then Movement(0.0, 0.0, 0.0) else
      var before, last := Total(t, sources[..|sources| - 1]), Moved(t, sources[|sources| - 1]);
      Movement(before.tokenA + last.tokenA, before.tokenB + last.tokenB, before.gas + last.gas)
  }

  // Every leg is what its venue outcome records.
  ghost predicate RecordedFrom(t: Terms, sources: seq<Source>, legs: seq<LegResult>) {
    |sources| == |legs| && forall k | 0 <= k < |legs| ::
      FullyValued(t, sources[k]) && Recorded(t, sources[k]) == Some(legs[k])
  }

  lemma {:induction false} SumsNeverFlatter(t: Terms, sources: seq<Source>, legs: seq<LegResult>)
    requires RecordedFrom(t, sources, legs)
    ensures var sums, total := LegSums(legs), Total(t, sources);
            sums.tokenA as real <= total.tokenA && sums.tokenB as real <= total.tokenB && total.gas <= sums.gas as real
  {
    if legs != [] {
      var n := |legs| - 1;
      SumsNeverFlatter(t, sources[..n], legs[..n]);
      assert FullyValued(t, sources[n]);
      LegNeverFlatters(t, sources[n]);
      var before := LegSums(legs[..n]);
      assert (before.tokenA + legs[n].tokenA) as real == before.tokenA as real + legs[n].tokenA as real;
      assert (before.tokenB + legs[n].tokenB) as real == before.tokenB as real + legs[n].tokenB as real;
      assert (before.gas + legs[n].gasCost) as real == before.gas as real + legs[n].gasCost as real;
    }
  }

  // ---------------------------------------------------------------- comparable profit

  // An amount at a quote for the planned amount.
  function AtQuote(amount: real, quote: real, planned: real): real
    requires planned > 0.0
  {
    amount * quote / planned
  }

  // Token-A value of an exact token-B position: sold if long, bought back if short.
  function PositionValue(a: AdmissionBounds, planned: int, tokenB: real): real
    requires planned > 0
  {
    AtQuote(tokenB, if tokenB > 0.0 then SellQuote(a) as real else BuyQuote(a) as real, planned as real)
  }

  lemma PositionGrows(a: AdmissionBounds, planned: int, less: real, more: real)
    requires planned > 0 && less <= more
    ensures PositionValue(a, planned, less) <= PositionValue(a, planned, more)
  {
    var low, high := if less > 0.0 then SellQuote(a) else BuyQuote(a), if more > 0.0 then SellQuote(a) else BuyQuote(a);
    FractionGrows(less, more, low as real, high as real, planned as real);
  }

  lemma FractionGrows(less: real, more: real, low: real, high: real, planned: real)
    requires less <= more && low >= 0.0 && high >= 0.0 && (low == high || less <= 0.0 <= more) && planned > 0.0
    ensures AtQuote(less, low, planned) <= AtQuote(more, high, planned)
  {
    ProductGrows(less, more, low, high);
    DivisionGrows(less * low, more * high, planned);
  }

  lemma ProductGrows(less: real, more: real, low: real, high: real)
    requires less <= more && low >= 0.0 && high >= 0.0 && (low == high || less <= 0.0 <= more)
    ensures less * low <= more * high
  {
    if low == high {
      SameSign(more - less, low);
      assert (more - less) * low == more * low - less * low;
    } else {
      SameSign(0.0 - less, low);
      assert (0.0 - less) * low == 0.0 - less * low;
      SameSign(more, high);
    }
  }

  lemma SameSign(a: real, b: real)
    requires a >= 0.0 && b >= 0.0
    ensures a * b >= 0.0
  {
  }

  lemma DivisionGrows(a: real, b: real, p: real)
    requires a <= b && p > 0.0
    ensures a / p <= b / p
  {
    assert b / p - a / p == (b - a) / p;
    assert (b - a) / p >= 0.0;
  }

  // The mark of a left-over position is below the value of the position the legs record.
  lemma MarkNeverFlatters(op: TradeOperation)
    requires op.intent.plannedTokenB > 0 && op.intent.admission.Some? && ResidualValue(op).Ok?
    ensures ResidualValue(op).value as real
         <= PositionValue(op.intent.admission.value, op.intent.plannedTokenB, TokenBResidual(op) as real)
  {
    var residual, a, planned := TokenBResidual(op), op.intent.admission.value, op.intent.plannedTokenB;
    var quote := RecoveryQuote(a, residual);
    if residual == 0 {
      NothingIsWorthNothing(BuyQuote(a) as real, planned as real);
    } else {
      MarkBelowQuote(residual, quote, planned);
    }
  }

  lemma NothingIsWorthNothing(quote: real, planned: real)
    requires planned > 0.0
    ensures 0.0 * quote / planned == 0.0
  {
  }

  lemma MarkBelowQuote(residual: I128, quote: U128, planned: nat)
    requires planned > 0 && ResidualMark(residual, quote, planned).Ok?
    ensures ResidualMark(residual, quote, planned).value as real
         <= AtQuote(residual as real, quote as real, planned as real)
  {
    MarkBelowExact(residual, quote, planned);
    assert (residual * quote) as real == residual as real * quote as real;
  }

  /** The profit a closed trade reports never exceeds the exact profit: exact token-A changes, minus exact
      gas, plus the exact left-over token-B position at its quote. */
  lemma ComparableNeverExceedsExact(op: TradeOperation, t: Terms, sources: seq<Source>)
    requires op.intent.plannedTokenB > 0 && op.intent.admission.Some? && FinalizeBalanced(op).Ok?
    requires RecordedFrom(t, sources, Legs(op))
    requires Unsaturated(Legs(op)) && FitsI128(LegSums(Legs(op)).tokenA - LegSums(Legs(op)).gas)
    ensures var total := Total(t, sources);
            FinalizeBalanced(op).value.result.value.comparableProfit as real
            <= total.tokenA - total.gas
             + PositionValue(op.intent.admission.value, op.intent.plannedTokenB, total.tokenB)
  {
    var sums, total, mark := LegSums(Legs(op)), Total(t, sources), ResidualValue(op).value;
    TotalsAreExact(Legs(op));
    SumsNeverFlatter(t, sources, Legs(op));
    MarkNeverFlatters(op);
    PositionGrows(op.intent.admission.value, op.intent.plannedTokenB, TokenBResidual(op) as real, total.tokenB);
    assert FinalizeBalanced(op).value.result.value.comparableProfit == sums.tokenA - sums.gas + mark;
    assert (sums.tokenA - sums.gas + mark) as real == sums.tokenA as real - sums.gas as real + mark as real;
  }

  /** So for every trade any run has closed: its reported profit is a lower bound of the exact one. */
  lemma ClosedTradesNeverFlatter(events: seq<Runs.Event>, plan: string, t: Terms, sources: seq<Source>)
    requires plan in Runs.Run(events).journal.operations && Runs.Run(events).journal.operations[plan].stage.Terminal()
    requires var op := Runs.Run(events).journal.operations[plan];
             && op.intent.admission.Some? && RecordedFrom(t, sources, Legs(op))
             && Unsaturated(Legs(op)) && FitsI128(LegSums(Legs(op)).tokenA - LegSums(Legs(op)).gas)
    ensures var op, total := Runs.Run(events).journal.operations[plan], Total(t, sources);
            && op.result.Some? && op.intent.plannedTokenB > 0
            && op.result.value.comparableProfit as real
               <= total.tokenA - total.gas
                 + PositionValue(op.intent.admission.value, op.intent.plannedTokenB, total.tokenB)
  {
    CloseOutLaws.TradeIsInLifecycle(events, plan);
    ComparableNeverExceedsExact(Runs.Run(events).journal.operations[plan], t, sources);
  }
}
