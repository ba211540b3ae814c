/** Rounding: every conversion between venue decimals and integer base units rounds against the bot. */
module Accounting {
  import opened Machine
  import opened Trade

  /** A venue decimal: mantissa divided by ten to the scale. */
  datatype VenueDecimal = VenueDecimal(mantissa: I128, scale: nat)

  function Pow10(n: nat): (p: nat)
    ensures p > 0
  {
    if n == 0 then 1 else 10 * Pow10(n - 1)
  }

  lemma {:induction false} Pow10Adds(a: nat, b: nat)
    ensures Pow10(a + b) == Pow10(a) * Pow10(b)
  {
    if a > 0 {
      Pow10Adds(a - 1, b);
      assert Pow10(a + b) == 10 * Pow10(a - 1 + b);
      assert 10 * (Pow10(a - 1) * Pow10(b)) == 10 * Pow10(a - 1) * Pow10(b);
    }
  }

  // Division as the machine does it: toward zero, remainder with the sign of the dividend.
  function TruncDiv(a: int, b: int): int
    requires b > 0
  {
    if a >= 0 then a / b else -((-a) / b)
  }

  function TruncRem(a: int, b: int): int
    requires b > 0
  {
    a - TruncDiv(a, b) * b
  }

  // `q` is the floor of n / d.
  predicate IsFloor(n: int, d: int, q: int) { q * d <= n < (q + 1) * d }

  // `q` is the ceiling of n / d.
  predicate IsCeiling(n: int, d: int, q: int) { (q - 1) * d < n <= q * d }

  datatype AccountingError =
    | Overflow | ScaleOverflow | NotPositive | NotTerminal | NoBalanceChanges | UnvaluedCommission | PositiveCommission

  // ---------------------------------------------------------------- decimals to signed base units

  function CheckedPow10(n: nat): Option<I128> { if Pow10(n) < TWO_127 then Some(Pow10(n)) else None }

  function RoundedDown(mantissa: I128, divisor: int): Result<I128, AccountingError>
    requires divisor > 0
  {
    var quotient := TruncDiv(mantissa, divisor);
    if TruncRem(mantissa, divisor) == 0 || mantissa >= 0 then
      if FitsI128(quotient) then Ok(quotient) else Err(Overflow)
    else if FitsI128(quotient - 1) then Ok(quotient - 1) else Err(Overflow)
  }

  function ToSignedBaseUnits(value: VenueDecimal, decimals: nat): Result<I128, AccountingError> {
    if value.scale <= decimals then
      var factor := CheckedPow10(decimals - value.scale);
      if factor.None? then Err(ScaleOverflow)
      else if FitsI128(value.mantissa * factor.value) then Ok(value.mantissa * factor.value) else Err(Overflow)
    else
      var divisor := CheckedPow10(value.scale - decimals);
      if divisor.None? then Err(ScaleOverflow) else RoundedDown(value.mantissa, divisor.value)
  }

  lemma QuotientBounds(n: nat, d: int)
    requires d > 0
    ensures n / d * d <= n < (n / d + 1) * d
  {
    assert n == n / d * d + n % d;
    assert (n / d + 1) * d == n / d * d + d;
  }

  // Truncation corrected by one below zero is the floor, for both signs.
  lemma RoundedDownIsFloor(mantissa: I128, divisor: int)
    requires divisor > 0
    ensures RoundedDown(mantissa, divisor).Ok? ==> IsFloor(mantissa, divisor, RoundedDown(mantissa, divisor).value)
  {
    var m: int := mantissa;
    if m >= 0 {
      QuotientBounds(m, divisor);
    } else {
      QuotientBounds(0 - m, divisor);
      var k := (0 - m) / divisor;
      assert TruncDiv(m, divisor) == -k;
      assert -k * divisor == -(k * divisor);
      assert (-k - 1) * divisor == -((k + 1) * divisor);
      assert (-k - 1 + 1) * divisor == -(k * divisor);
      assert (-k + 1) * divisor == -(k * divisor) + divisor;
    }
  }

  // The exact value of a venue decimal in base units is mantissa * 10^decimals / 10^scale.
  lemma FloorCancels(m: int, q: int, common: int, divisor: int)
    requires common > 0 && IsFloor(m, divisor, q)
    ensures IsFloor(m * common, divisor * common, q)
  {
    MulMonotone(q * divisor, m, common);
    MulMonotone(m + 1, (q + 1) * divisor, common);
    assert q * (divisor * common) == q * divisor * common;
    assert (q + 1) * (divisor * common) == (q + 1) * divisor * common;
    assert (m + 1) * common == m * common + common;
  }

  lemma ScaledUpIsFloor(m: int, factor: int, unit: int)
    requires unit > 0
    ensures IsFloor(m * (factor * unit), unit, m * factor)
  {
    assert m * factor * unit == m * (factor * unit);
    assert (m * factor + 1) * unit == m * factor * unit + unit;
  }

  /** Whenever it succeeds, the conversion is the exact floor of the decimal in base units, for either sign
      and whichever of the two scales is larger. */
  lemma BaseUnitsAreFloor(value: VenueDecimal, decimals: nat)
    requires ToSignedBaseUnits(value, decimals).Ok?
    ensures IsFloor(value.mantissa * Pow10(decimals), Pow10(value.scale), ToSignedBaseUnits(value, decimals).value)
  {
    if value.scale <= decimals {
      Pow10Adds(decimals - value.scale, value.scale);
      ScaledUpIsFloor(value.mantissa, Pow10(decimals - value.scale), Pow10(value.scale));
    } else {
      var divisor := Pow10(value.scale - decimals);
      RoundedDownIsFloor(value.mantissa, divisor);
      FloorCancels(value.mantissa, ToSignedBaseUnits(value, decimals).value, Pow10(decimals), divisor);
      Pow10Adds(value.scale - decimals, decimals);
    }
  }

  lemma BelowExactly(n: int, d: int, q: int, limit: int)
    requires d > 0
    ensures IsFloor(n, d, q) ==> (q < limit <==> n < limit * d)
    ensures IsCeiling(n, d, q) ==> (q <= limit <==> n <= limit * d)
  {
    if IsFloor(n, d, q) {
      if q < limit { MulMonotone(q + 1, limit, d); } else { MulMonotone(limit, q, d); }
    }
    if IsCeiling(n, d, q) {
      if q <= limit { MulMonotone(q, limit, d); } else { MulMonotone(limit, q - 1, d); }
    }
  }

  // The exact amount in base units, rounded down, is a 128-bit number.
  predicate UnitsFit(value: VenueDecimal, decimals: nat) {
    -TWO_127 * Pow10(value.scale) <= value.mantissa * Pow10(decimals) < TWO_127 * Pow10(value.scale)
  }

  lemma FloorFitsExactly(n: int, d: int, q: int)
    requires d > 0 && IsFloor(n, d, q)
    ensures FitsI128(q) <==> -TWO_127 * d <= n < TWO_127 * d
  {
    BelowExactly(n, d, q, -TWO_127);
    BelowExactly(n, d, q, TWO_127);
  }

  lemma RoundedDownFits(mantissa: I128, divisor: int)
    requires divisor > 1
    ensures RoundedDown(mantissa, divisor).Ok?
  {
    var size := Abs(mantissa) / divisor;
    assert size * divisor <= Abs(mantissa);
    MulMonotone(2, divisor, size);
  }

  function ScaleGap(value: VenueDecimal, decimals: nat): nat {
    if value.scale <= decimals then decimals - value.scale else value.scale - decimals
  }

  lemma Pow10AtLeastTen(n: nat)
    requires n > 0
    ensures Pow10(n) >= 10
  {
  }

  /** The conversion succeeds if and only if the power of ten between the scales and the result fit 128
      bits. */
  lemma BaseUnitsExistExactly(value: VenueDecimal, decimals: nat)
    ensures ToSignedBaseUnits(value, decimals).Ok? <==>
              Pow10(ScaleGap(value, decimals)) < TWO_127 && UnitsFit(value, decimals)
  {
    var factor := Pow10(ScaleGap(value, decimals));
    if value.scale <= decimals {
      Pow10Adds(decimals - value.scale, value.scale);
      ScaledUpIsFloor(value.mantissa, factor, Pow10(value.scale));
      FloorFitsExactly(value.mantissa * Pow10(decimals), Pow10(value.scale), value.mantissa * factor);
    } else if factor < TWO_127 {
      Pow10AtLeastTen(ScaleGap(value, decimals));
      RoundedDownFits(value.mantissa, factor);
      BaseUnitsAreFloor(value, decimals);
      FloorFitsExactly(value.mantissa * Pow10(decimals), Pow10(value.scale), ToSignedBaseUnits(value, decimals).value);
    }
  }

  // ---------------------------------------------------------------- gas

  function CeilingDiv(n: nat, d: int): nat
    requires d > 0
  {
    if n % d == 0 then n / d else n / d + 1
  }

  lemma CeilingDivIsCeiling(n: nat, d: int)
    requires d > 0
    ensures IsCeiling(n, d, CeilingDiv(n, d))
  {
    QuotientBounds(n, d);
    assert n == n / d * d + n % d;
    assert (n / d - 1) * d == n / d * d - d;
  }

  // Both sides of the quotient fit 256 bits and the quotient, rounded up, 128.
  predicate GasFits(numerator: int, denominator: int) {
    numerator < TWO_256 && denominator < TWO_256 && numerator <= (TWO_128 - 1) * denominator
  }

  lemma FactorFits(fee: nat, price: int, unit: int)
    requires price > 0 && unit > 0
    ensures fee <= fee * price * unit
  {
    MulMonotone(1, price, fee);
    MulMonotone(1, unit, fee * price);
  }

  function RoundedGas(fee: int, numerator: int, denominator: int): (r: Result<U128, AccountingError>)
    requires denominator > 0
    ensures r.Ok? ==> IsCeiling(numerator, denominator, r.value)
    ensures 0 <= fee <= numerator ==> (r.Ok? <==> GasFits(numerator, denominator))
  {
    if fee < 0 || fee >= TWO_256 || numerator < 0 || numerator >= TWO_256 || denominator >= TWO_256 then
      Err(Overflow)
    else
      CeilingDivIsCeiling(numerator, denominator);
      BelowExactly(numerator, denominator, CeilingDiv(numerator, denominator), TWO_128 - 1);
      var rounded := CeilingDiv(numerator, denominator);
      if rounded >= TWO_128 then Err(Overflow) else Ok(rounded)
  }

  // Both sides of the quotient, for a fee in wei at a token-A price per 10^18 wei.
  function GasNumerator(fee: int, price: VenueDecimal, tokenADecimals: nat): int {
    fee * price.mantissa * Pow10(tokenADecimals)
  }

  function GasDenominator(price: VenueDecimal): (d: int)
    ensures d > 0
  {
    ProductIsPositive(Pow10(18), Pow10(price.scale));
    Pow10(18) * Pow10(price.scale)
  }

  /** Native gas fee, in token-A base units, rounded up; it fails exactly when an input is zero or a side of the
      quotient does not fit. */
  function GasInTokenA(gasUsed: U64, gasPriceWei: U128, l1FeeWei: U128, price: VenueDecimal, tokenADecimals: nat)
    : (r: Result<U128, AccountingError>)
    ensures var numerator := GasNumerator(gasUsed * gasPriceWei + l1FeeWei, price, tokenADecimals);
            && (r.Ok? ==> IsCeiling(numerator, GasDenominator(price), r.value))
            && (r.Ok? <==>
                  && gasUsed > 0 && gasPriceWei > 0 && price.mantissa > 0
                  && GasFits(numerator, GasDenominator(price)))
  {
    if gasUsed == 0 || gasPriceWei == 0 || price.mantissa <= 0 then Err(NotPositive) else
      var fee: int := gasUsed * gasPriceWei + l1FeeWei;
      FactorFits(fee, price.mantissa, Pow10(tokenADecimals));
      RoundedGas(fee, GasNumerator(fee, price, tokenADecimals), GasDenominator(price))
  }

  lemma ProductIsPositive(a: int, b: int)
    requires a > 0 && b > 0
    ensures a * b > 0
  {
  }

  // ---------------------------------------------------------------- the residual mark

  lemma NegatedCeilingIsFloor(n: int, d: int, c: int)
    requires IsCeiling(n, d, c)
    ensures IsFloor(0 - n, d, 0 - c)
  {
    assert (0 - c) * d == 0 - c * d;
    assert (0 - c + 1) * d == 0 - (c - 1) * d;
  }

  lemma MagnitudeIsRounded(amount: nat, quote: nat, planned: nat, roundUp: bool)
    requires planned > 0
    ensures if roundUp then IsCeiling(amount * quote, planned, MarkMagnitude(amount, quote, planned, roundUp))
            else IsFloor(amount * quote, planned, MarkMagnitude(amount, quote, planned, roundUp))
  {
    var n := amount * quote;
    if roundUp {
      CeilingDivIsCeiling(n, planned);
      assert MarkMagnitude(amount, quote, planned, true) == CeilingDiv(n, planned);
    } else {
      QuotientBounds(n, planned);
    }
  }

  /** A left-over position is marked at the exact floor of its value: a long one rounded down, a short one
      rounded to the larger liability. */
  lemma ResidualMarkIsFloor(residual: I128, quote: U128, planned: nat)
    requires planned > 0 && ResidualMark(residual, quote, planned).Ok?
    ensures IsFloor(residual * quote, planned, ResidualMark(residual, quote, planned).value)
  {
    var size, magnitude := Abs(residual), MarkMagnitude(Abs(residual), quote, planned, residual < 0);
    MagnitudeIsRounded(size, quote, planned, residual < 0);
    if residual < 0 {
      assert residual * quote == 0 - size * quote;
      NegatedCeilingIsFloor(size * quote, planned, magnitude);
    } else if residual == 0 {
      ZeroMark(quote, planned);
    }
  }

  lemma ZeroMark(quote: nat, planned: nat)
    requires planned > 0
    ensures MarkMagnitude(0, quote, planned, false) == 0
  {
    assert 0 * quote == 0;
  }

  lemma MarkBelowExact(residual: I128, quote: U128, planned: nat)
    requires planned > 0 && ResidualMark(residual, quote, planned).Ok?
    ensures ResidualMark(residual, quote, planned).value as real <= (residual * quote) as real / planned as real
  {
    ResidualMarkIsFloor(residual, quote, planned);
    var v := ResidualMark(residual, quote, planned).value;
    assert (v * planned) as real <= (residual * quote) as real;
    RealDivisionMonotone(v, residual * quote, planned);
  }

  lemma RealDivisionMonotone(v: int, n: int, d: int)
    requires d > 0 && v * d <= n
    ensures v as real <= n as real / d as real
  {
    assert (v * d) as real == v as real * d as real;
    assert v as real == (v as real * d as real) / d as real;
  }

  // ---------------------------------------------------------------- the quote of a left-over position

  /** What the planned quantity fetches when a left-over position is sold: the directional quote, else the
      common one. */
  function SellQuote(a: AdmissionBounds): U128 {
    if a.recoverySellQuote > 0 then a.recoverySellQuote else a.recoveryQuote
  }

  /** What the planned quantity costs when a missing position is bought back. */
  function BuyQuote(a: AdmissionBounds): U128 {
    if a.recoveryBuyQuote > 0 then a.recoveryBuyQuote else a.recoveryQuote
  }

  /** The value of a left-over position: a long one at the sell quote rounded down, a short one a liability at
      the buy quote rounded up, nothing without a position or without admission bounds. */
  predicate IsMark(i: TradeIntent, residual: int, value: int) {
    if residual == 0 || i.admission.None? then value == 0
    else if residual > 0 then IsFloor(residual * SellQuote(i.admission.value), i.plannedTokenB, value)
    else IsCeiling((0 - residual) * BuyQuote(i.admission.value), i.plannedTokenB, 0 - value)
  }

  lemma MarkIsAtItsQuote(op: TradeOperation)
    requires op.intent.plannedTokenB > 0 && ResidualValue(op).Ok?
    ensures IsMark(op.intent, TokenBResidual(op), ResidualValue(op).value)
  {
    var residual := TokenBResidual(op);
    if residual != 0 && op.intent.admission.Some? {
      var a := op.intent.admission.value;
      MagnitudeIsRounded(Abs(residual), if residual > 0 then SellQuote(a) else BuyQuote(a), op.intent.plannedTokenB,
                         residual < 0);
    }
  }

  // The product fits 256 bits and the rounded value 128.
  predicate MarkFits(residual: int, quote: nat, planned: nat) {
    && Abs(residual) * quote < TWO_256
    && if residual > 0 then residual * quote < TWO_127 * planned else (0 - residual) * quote <= (TWO_127 - 1) * planned
  }

  /** A position can be valued exactly when its product fits 256 bits and its value 128. */
  lemma MarkExistsExactly(op: TradeOperation)
    requires ValidIntent(op.intent)
    ensures ResidualValue(op).Ok? <==>
              || TokenBResidual(op) == 0 || op.intent.admission.None?
              || MarkFits(TokenBResidual(op),
                          if TokenBResidual(op) > 0 then SellQuote(op.intent.admission.value)
                          else BuyQuote(op.intent.admission.value),
                          op.intent.plannedTokenB)
  {
    var residual, planned := TokenBResidual(op), op.intent.plannedTokenB;
    if residual != 0 && op.intent.admission.Some? {
      var a := op.intent.admission.value;
      var quote := if residual > 0 then SellQuote(a) else BuyQuote(a);
      var magnitude := MarkMagnitude(Abs(residual), quote, planned, residual < 0);
      MagnitudeIsRounded(Abs(residual), quote, planned, residual < 0);
      BelowExactly(Abs(residual) * quote, planned, magnitude, if residual > 0 then TWO_127 else TWO_127 - 1);
    }
  }

  // ---------------------------------------------------------------- exact sums of the legs

  datatype Sums = Sums(tokenA: int, tokenB: int, gas: int)

  function LegSums(legs: seq<LegResult>): Sums {
    if legs == [] then Sums(0, 0, 0) else
      var before, last := LegSums(legs[..|legs| - 1]), legs[|legs| - 1];
      Sums(before.tokenA + last.tokenA, before.tokenB + last.tokenB, before.gas + last.gasCost)
  }

  // No running sum of the legs leaves its machine range.
  predicate Unsaturated(legs: seq<LegResult>) {
    legs == [] || (var sums := LegSums(legs);
                   && Unsaturated(legs[..|legs| - 1])
                   && FitsI128(sums.tokenA) && FitsI128(sums.tokenB) && 0 <= sums.gas < TWO_127)
  }

  lemma {:induction false} TotalsAreExact(legs: seq<LegResult>)
    requires Unsaturated(legs)
    ensures LegSums(legs) == Sums(TokenATotal(legs), TokenBTotal(legs), GasTotal(legs))
    ensures FitsI128(LegSums(legs).tokenA) && FitsI128(LegSums(legs).tokenB) && 0 <= LegSums(legs).gas < TWO_127
  {
    if legs != [] { TotalsAreExact(legs[..|legs| - 1]); }
  }

}
