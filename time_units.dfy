/** The time units a RETAIN or WITH SNAPSHOT RETENTION clause accepts, and their
    conversion to milliseconds as java.util.concurrent.TimeUnit.toMillis performs it:
    the count times the unit's multiplier, saturated to the range of a Java long. */
module TimeUnits {

  const MinInt64: int := -0x8000_0000_0000_0000
  const MaxInt64: int := 0x7fff_ffff_ffff_ffff
  const MinInt32: int := -0x8000_0000
  const MaxInt32: int := 0x7fff_ffff

  /** A Java `long`. */
  type Int64 = x: int | MinInt64 <= x <= MaxInt64
  /** A Java `int`. */
  type Int32 = x: int | MinInt32 <= x <= MaxInt32

  predicate InInt64(x: int) {
    MinInt64 <= x <= MaxInt64
  }

  /** The unit vocabulary is closed: DAYS, HOURS and MINUTES, nothing else. */
  datatype TimeUnit = Days | Hours | Minutes

  /** Milliseconds in one unit. */
  function MillisPer(u: TimeUnit): nat {
    match u
    case Days => 86_400_000
    case Hours => 3_600_000
    case Minutes => 60_000
  }

  /** `u.toMillis(d)`: exact when the product fits in a long, otherwise the bound of
      the product's sign; the sign of the count is kept. */
  function ToMillis(u: TimeUnit, d: Int64): (ms: Int64)
    ensures InInt64(d * MillisPer(u)) ==> ms == d * MillisPer(u)
    ensures !InInt64(d * MillisPer(u)) ==> ms == if d > 0 then MaxInt64 else MinInt64
    ensures (ms > 0 <==> d > 0) && (ms == 0 <==> d == 0)
  {
    var ratio := MillisPer(u);
    var limit := MaxInt64 / ratio;
    ProductBounds(u, d);
    if d > limit then MaxInt64
    else if d < -limit then MinInt64
    else d * ratio
  }

  /** The product leaves the range of a long exactly when the count passes the
      per-unit limit that toMillis compares against. */
  lemma ProductBounds(u: TimeUnit, d: Int64)
    ensures d > MaxInt64 / MillisPer(u) ==> d * MillisPer(u) > MaxInt64
    ensures d < -(MaxInt64 / MillisPer(u)) ==> d * MillisPer(u) < MinInt64
    ensures -(MaxInt64 / MillisPer(u)) <= d <= MaxInt64 / MillisPer(u) ==> InInt64(d * MillisPer(u))
  {
    match u
    case Days =>
    case Hours =>
    case Minutes =>
  }

  /** toMillis is monotone in the count. */
  lemma ToMillisMonotone(u: TimeUnit, a: Int64, b: Int64)
    requires a <= b
    ensures ToMillis(u, a) <= ToMillis(u, b)
  {
    match u
    case Days =>
    case Hours =>
    case Minutes =>
  }

  /** n days and 24 * n hours convert to the same number of milliseconds,
      saturation included. */
  lemma DaysAreHours(n: Int64)
    requires InInt64(24 * n)
    ensures ToMillis(Days, n) == ToMillis(Hours, 24 * n)
  {
    assert 24 * n * MillisPer(Hours) == n * MillisPer(Days);
  }

  /** n hours and 60 * n minutes convert to the same number of milliseconds,
      saturation included. */
  lemma HoursAreMinutes(n: Int64)
    requires InInt64(60 * n)
    ensures ToMillis(Hours, n) == ToMillis(Minutes, 60 * n)
  {
    assert 60 * n * MillisPer(Minutes) == n * MillisPer(Hours);
  }
}
