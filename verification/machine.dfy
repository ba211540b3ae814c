/** Fixed-width integers, saturation and the option and result types shared by every component. */
module Machine {

  const TWO_127: int := 0x8000_0000_0000_0000_0000_0000_0000_0000
  const TWO_128: int := 0x1_0000_0000_0000_0000_0000_0000_0000_0000
  const TWO_256: int := 0x1_0000_0000_0000_0000_0000_0000_0000_0000_0000_0000_0000_0000_0000_0000_0000_0000
  const U64_MAX: int := 0xFFFF_FFFF_FFFF_FFFF

  type I128 = x: int | -TWO_127 <= x < TWO_127
  type U128 = x: int | 0 <= x < TWO_128
  type U256 = x: int | 0 <= x < TWO_256
  type U64 = x: int | 0 <= x <= U64_MAX

  datatype Option<+T> = None | Some(value: T)

  datatype Result<+T, +E> = Ok(value: T) | Err(error: E)

  predicate FitsI128(x: int) { -TWO_127 <= x < TWO_127 }

  function Clamp(x: int): (r: I128)
    ensures FitsI128(x) ==> r == x
  {
    if x < -TWO_127 then -TWO_127 else if x >= TWO_127 then TWO_127 - 1 else x
  }

  function SatAdd(a: I128, b: I128): I128 { Clamp(a + b) }

  function SatSub(a: I128, b: I128): I128 { Clamp(a - b) }

  function SatNeg(a: I128): I128 { Clamp(0 - a) }

  // Unary minus as the release profile compiles it: no overflow check, so the
  // minimum is its own negation.
  function WrapNeg(a: I128): I128 { if a == -TWO_127 then a else -a }

  function SatAddU128(a: U128, b: U128): U128 { if a + b < TWO_128 then a + b else TWO_128 - 1 }

  function Abs(a: int): nat { if a < 0 then -a else a }

  function OptionSeq<T>(o: Option<T>): seq<T> { if o.Some? then [o.value] else [] }

  // ---------------------------------------------------------------- identifiers

  predicate IdByte(c: char) {
    'a' <= c <= 'z' || 'A' <= c <= 'Z' || '0' <= c <= '9' || c in "-_.:/"
  }

  predicate IdBytes(s: string) { forall i | 0 <= i < |s| :: IdByte(s[i]) }

  predicate ValidId(s: string, maximum: nat) { 0 < |s| <= maximum && IdBytes(s) }

  predicate StartsWith(s: string, prefix: string) { |prefix| <= |s| && s[..|prefix|] == prefix }

  predicate EndsWith(s: string, suffix: string) {
    |suffix| <= |s| && s[|s| - |suffix|..] == suffix
  }

  function Digit(n: nat): char
    requires n < 10
  {
    "0123456789"[n]
  }

  function Decimal(n: nat): string {
    if n < 10 then [Digit(n)] else Decimal(n / 10) + [Digit(n % 10)]
  }

  lemma PrefixOneMore<T>(s: seq<T>, i: nat)
    requires i < |s|
    ensures s[..i + 1] == s[..i] + [s[i]]
  {
  }

  // ---------------------------------------------------------------- division

  lemma MulMonotone(a: int, b: int, d: int)
    requires a <= b && 0 <= d
    ensures a * d <= b * d
  {
    assert (b - a) * d >= 0;
    assert (b - a) * d == b * d - a * d;
  }

  // A quotient is characterized by the two multiples of the divisor around the dividend.
  lemma QuotientIs(n: int, d: int, q: int)
    requires d > 0 && q * d <= n < (q + 1) * d
    ensures n / d == q
  {
    var k := n / d;
    assert k * d <= n < (k + 1) * d;
    if k > q {
      MulMonotone(q + 1, k, d);
    } else if k < q {
      MulMonotone(k + 1, q, d);
    }
  }
}
