/** Conversions between stream timestamps (ticks of a time base) and nanoseconds,
    as in avconv/duration.go, over exact rationals instead of float64. */
module AvConv {

  datatype Ratio = Ratio(num: int, den: int)

  /** Seconds per tick, num/den. */
  type TimeBase = r: Ratio | r.num > 0 && r.den > 0 witness Ratio(1, 1)

  type Int64 = x: int | -0x8000_0000_0000_0000 <= x < 0x8000_0000_0000_0000

  /** Two's-complement wrap-around of 64-bit arithmetic. */
  function Wrap64(x: int): Int64 {
    (x + 0x8000_0000_0000_0000) % 0x1_0000_0000_0000_0000 - 0x8000_0000_0000_0000
  }

  const NANOS_PER_SECOND: int := 1_000_000_000
  const NO_PTS: int := -0x8000_0000_0000_0000
  const NO_DURATION: int := -0x8000_0000_0000_0000

  /** Go's conversion of a float to an integer drops the fraction, toward zero. */
  function TruncDiv(a: int, b: int): int
    requires b > 0
  {
    if a >= 0 then a / b else -((-a) / b)
  }

  function Duration(t: int, tb: TimeBase): int {
    if t == NO_PTS then NO_DURATION else TruncDiv(t * (tb.num * NANOS_PER_SECOND), tb.den)
  }

  function FromDuration(d: int, tb: TimeBase): int {
    if d == NO_DURATION then NO_PTS else TruncDiv(d * tb.den, tb.num * NANOS_PER_SECOND)
  }

  /** One tick lasts at least a nanosecond. */
  predicate CoarseTicks(tb: TimeBase) {
    tb.num * NANOS_PER_SECOND >= tb.den
  }

  lemma MulMono(a: int, b: int, c: int)
    requires a <= b && c >= 0
    ensures a * c <= b * c
  {
  }

  /** The bounds that define a quotient. */
  lemma DivBounds(a: int, b: int)
    requires a >= 0 && b > 0
    ensures 0 <= a / b
    ensures (a / b) * b <= a < (a / b) * b + b
  {
  }

  /** A quotient is at least q when q divisors fit. */
  lemma DivAtLeast(a: int, b: int, q: int)
    requires a >= 0 && b > 0 && q * b <= a
    ensures q <= a / b
  {
    DivBounds(a, b);
    if q > a / b {
      MulMono(a / b + 1, q, b);
    }
  }

  lemma DivMono(a: int, b: int, c: int)
    requires 0 <= a <= b && c > 0
    ensures a / c <= b / c
  {
    DivBounds(a, c);
    DivAtLeast(b, c, a / c);
  }

  /** Within one time base, later ticks are never earlier in time. */
  lemma DurationMonotone(a: int, b: int, tb: TimeBase)
    requires 0 <= a <= b
    ensures 0 <= Duration(a, tb) <= Duration(b, tb)
  {
    var f := tb.num * NANOS_PER_SECOND;
    MulMono(0, a, f);
    MulMono(a, b, f);
    DivMono(a * f, b * f, tb.den);
    DivBounds(a * f, tb.den);
  }

  /** Ticks of at least a nanosecond are told apart. */
  lemma DurationStrict(a: int, b: int, tb: TimeBase)
    requires 0 <= a < b && CoarseTicks(tb)
    ensures Duration(a, tb) < Duration(b, tb)
  {
    var f, den := tb.num * NANOS_PER_SECOND, tb.den;
    MulMono(0, a, f);
    MulMono(a + 1, b, f);
    assert (a + 1) * f == a * f + f;
    DivBounds(a * f, den);
    var q := a * f / den;
    assert (q + 1) * den == q * den + den;
    DivAtLeast(b * f, den, q + 1);
  }

  /** A duration of n ticks, n >= 0, lasts at least n nanoseconds less the rounding; from an
      instant d >= 0, two ticks past its tick count are later than d. */
  lemma TwoTicksAreLater(d: int, k: int, tb: TimeBase)
    requires d >= 0 && CoarseTicks(tb) && k >= FromDuration(d, tb) + 2
    ensures FromDuration(d, tb) >= 0
    ensures Duration(k, tb) > d
  {
    var f, den := tb.num * NANOS_PER_SECOND, tb.den;
    var q := FromDuration(d, tb);
    MulMono(0, d, den);
    DivBounds(d * den, f);
    assert d * den < q * f + f;
    MulMono(q + 2, k, f);
    assert (q + 2) * f == q * f + 2 * f;
    assert k * f >= (d + 1) * den by { assert (d + 1) * den == d * den + den; }
    DivAtLeast(k * f, den, d + 1);
  }

  /** Converting to a duration and back loses at most one tick, and never gains. */
  lemma RoundTripLosesAtMostOne(k: int, tb: TimeBase)
    requires k >= 0 && CoarseTicks(tb)
    ensures Duration(k, tb) >= 0
    ensures k - 1 <= FromDuration(Duration(k, tb), tb) <= k
  {
    var f, den := tb.num * NANOS_PER_SECOND, tb.den;
    MulMono(0, k, f);
    DivBounds(k * f, den);
    var d := Duration(k, tb);
    MulMono(0, d, den);
    DivBounds(d * den, f);
    assert (k - 1) * f == k * f - f;
    if k >= 1 {
      MulMono(0, k - 1, f);
      DivAtLeast(d * den, f, k - 1);
    }
    var q := FromDuration(d, tb);
    assert (k + 1) * f == k * f + f;
    if q > k {
      MulMono(k + 1, q, f);
      assert false;
    }
  }

  /** A negative number of whole ticks is a duration below zero. */
  lemma NegativeDuration(k: int, tb: TimeBase)
    requires k < 0 && k != NO_PTS && CoarseTicks(tb)
    ensures Duration(k, tb) < 0
  {
    var f, den := tb.num * NANOS_PER_SECOND, tb.den;
    MulMono(1, -k, f);
    assert -(k * f) == (-k) * f;
    DivAtLeast(-(k * f), den, 1);
  }

  /** The duration of a tick count at or after zero is its time in nanoseconds, num * t / den
      seconds, less a fraction of one; and the count of a duration is its number of ticks, less a
      fraction of one. */
  lemma ConversionsAreExact(t: nat, d: nat, tb: TimeBase)
    ensures var dur := Duration(t, tb); tb.den * dur <= t * (tb.num * NANOS_PER_SECOND) < tb.den * dur + tb.den
    ensures var ticks, f := FromDuration(d, tb), tb.num * NANOS_PER_SECOND; f * ticks <= d * tb.den < f * ticks + f
  {
    var f := tb.num * NANOS_PER_SECOND;
    MulMono(0, t, f);
    MulMono(0, d, tb.den);
    DivBounds(t * f, tb.den);
    DivBounds(d * tb.den, f);
  }

  /** Both conversions drop fractions toward zero, so they treat times before and after zero alike. */
  lemma ConversionsAreOdd(k: int, tb: TimeBase)
    requires k != NO_PTS && -k != NO_PTS
    ensures Duration(-k, tb) == -Duration(k, tb) && FromDuration(-k, tb) == -FromDuration(k, tb)
  {
    TruncatedOdd(k, tb.num * NANOS_PER_SECOND, tb.den);
    TruncatedOdd(k, tb.den, tb.num * NANOS_PER_SECOND);
  }

  lemma TruncatedOdd(k: int, f: int, den: int)
    requires den > 0
    ensures TruncDiv((-k) * f, den) == -TruncDiv(k * f, den)
  {
    var a := k * f;
    assert (-k) * f == -a;
    assert a == 0 ==> a / den == 0;
  }

  /** Whole seconds are exact, in any time base that ticks in whole fractions of a second. */
  lemma WholeSecondsAreExact(n: nat, rate: nat)
    requires rate > 0
    ensures Duration(n * rate, Ratio(1, rate)) == n * NANOS_PER_SECOND
    ensures FromDuration(n * NANOS_PER_SECOND, Ratio(1, rate)) == n * rate
  {
    assert n * rate >= 0;
    Exact(n * NANOS_PER_SECOND, rate);
    assert (n * rate) * NANOS_PER_SECOND == (n * NANOS_PER_SECOND) * rate;
    Exact(n * rate, NANOS_PER_SECOND);
  }

  lemma Exact(a: nat, b: nat)
    requires b > 0
    ensures a * b / b == a
  {
    var q := a * b / b;
    DivBounds(a * b, b);
    DivAtLeast(a * b, b, a);
    assert (a + 1) * b == a * b + b;
    assert q * b < (a + 1) * b;
  }
}
