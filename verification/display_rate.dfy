/**
 The conversions between a refresh rate in hertz and a vsync period in nanoseconds.
 Floating point is modelled over the reals: rounding errors are not the point here, the two
 fallbacks to 60 Hz and the rounding of the period to whole nanoseconds are.
 */
module DisplayRate {

  const NANOS_PER_SECOND: real := 1000000000.0
  const MIN_PERIOD: int := 1000000
  const MAX_PERIOD: int := 1000000000
  const FALLBACK_RATE: real := 60.0

  predicate Usable(rate: real) {
    1.0 < rate < 1000.0
  }

  /** C's llround: to the nearest integer, halves away from zero. */
  function Round(x: real): int {
    if x >= 0.0 then (x + 0.5).Floor else -((0.5 - x).Floor)
  }

  /** The period that onSurfaceChanged stores for a reported refresh rate. */
  function PeriodOf(refresh: real): int {
    var rate := if Usable(refresh) then refresh else FALLBACK_RATE;
    Round(NANOS_PER_SECOND / rate)
  }

  /** The content rate that setBuffer recovers from a stored period. */
  function ContentRate(period: int): real {
    if period <= 0 then FALLBACK_RATE
    else
      var hz := NANOS_PER_SECOND / period as real;
      if Usable(hz) then hz else FALLBACK_RATE
  }

  function Distance(a: real, b: real): real {
    if a < b then b - a else a - b
  }

  lemma DivideBounds(x: real, low: real, high: real)
    requires 0.0 < low <= x <= high
    ensures NANOS_PER_SECOND / high <= NANOS_PER_SECOND / x <= NANOS_PER_SECOND / low
  {
    var q := NANOS_PER_SECOND / x;
    assert q * x == NANOS_PER_SECOND;
    MulOrder(q, low, x);
    MulOrder(q, x, high);
    QuotientAtMost(q, low);
    QuotientAtLeast(q, high);
  }

  lemma MulOrder(q: real, a: real, b: real)
    requires 0.0 <= q && a <= b
    ensures q * a <= q * b
  {
    assert q * (b - a) >= 0.0;
  }

  lemma QuotientAtMost(q: real, d: real)
    requires 0.0 < d && q * d <= NANOS_PER_SECOND
    ensures q <= NANOS_PER_SECOND / d
  {
    var p := NANOS_PER_SECOND / d;
    assert p * d == NANOS_PER_SECOND;
    if q > p {
      assert (q - p) * d > 0.0;
    }
  }

  lemma QuotientAtLeast(q: real, d: real)
    requires 0.0 < d && q * d >= NANOS_PER_SECOND
    ensures q >= NANOS_PER_SECOND / d
  {
    var p := NANOS_PER_SECOND / d;
    assert p * d == NANOS_PER_SECOND;
    if q < p {
      assert (p - q) * d > 0.0;
    }
  }

  /** Whatever rate the platform reports, the stored period is a sane 32-bit value. */
  lemma PeriodInRange(refresh: real)
    ensures MIN_PERIOD <= PeriodOf(refresh) <= MAX_PERIOD
  {
    var rate := if Usable(refresh) then refresh else FALLBACK_RATE;
    DivideBounds(rate, 1.0, 1000.0);
  }

  /** The rates, in hertz, whose periods round to neither end of the range. */
  predicate Interior(refresh: real) {
    NANOS_PER_SECOND / 999999999.5 < refresh <= NANOS_PER_SECOND / 1000000.5
  }

  lemma InteriorRates(refresh: real)
    requires Usable(refresh)
    ensures MIN_PERIOD < PeriodOf(refresh) < MAX_PERIOD <==> Interior(refresh)
  {
    var exact := NANOS_PER_SECOND / refresh;
    assert exact * refresh == NANOS_PER_SECOND;
    PeriodInRange(refresh);
    ScaledBound(refresh, exact, 1000000.5);
    ScaledBound(refresh, exact, 999999999.5);
    assert exact > 0.0 by {
      DivideBounds(refresh, 1.0, 1000.0);
    }
  }

  /** A quotient is at least d exactly when its divisor is at most the whole over d. */
  lemma ScaledBound(refresh: real, exact: real, d: real)
    requires 0.0 < refresh && 0.0 < d && exact * refresh == NANOS_PER_SECOND
    ensures exact >= d <==> refresh <= NANOS_PER_SECOND / d
  {
    var bound := NANOS_PER_SECOND / d;
    assert bound * d == NANOS_PER_SECOND;
    if exact >= d {
      MulOrder(refresh, d, exact);
      QuotientAtMost(refresh, d);
    }
    if refresh <= bound {
      MulOrder(d, refresh, bound);
      CancelFactor(d, exact, refresh);
    }
  }

  /** The recovery of a rate that onSurfaceChanged could use, by its period. */
  lemma UsableRateRecovered(refresh: real)
    requires Usable(refresh)
    ensures var p := PeriodOf(refresh);
            MIN_PERIOD < p < MAX_PERIOD
            <==> Distance(ContentRate(p), refresh) <= refresh / (2.0 * p as real)
    ensures var p := PeriodOf(refresh);
            MIN_PERIOD < p < MAX_PERIOD ==> Distance(ContentRate(p), refresh) < 0.0005
  {
    var p := PeriodOf(refresh);
    var exact := NANOS_PER_SECOND / refresh;
    assert exact * refresh == NANOS_PER_SECOND;
    PeriodInRange(refresh);
    assert exact - 0.5 <= p as real <= exact + 0.5 by {
      DivideBounds(refresh, 1.0, 1000.0);
    }
    if MIN_PERIOD < p < MAX_PERIOD {
      InteriorPeriodRate(p);
      RecoveredDistance(refresh, exact, p);
    } else {
      EndpointRate(p);
      EndpointMisses(refresh, exact, p);
    }
  }

  /** Any other rate is stored as 60 Hz and stays far from what was reported. */
  lemma FallbackMisses(refresh: real)
    requires !Usable(refresh)
    ensures PeriodOf(refresh) == 16666667
    ensures Distance(ContentRate(PeriodOf(refresh)), refresh) > refresh / (2.0 * PeriodOf(refresh) as real)
  {
    assert 16666666.5 <= NANOS_PER_SECOND / FALLBACK_RATE < 16666667.5;
    assert 59.0 < NANOS_PER_SECOND / 16666667.0 < 61.0;
  }

  /**
   The content rate recovers the reported one, up to half a nanosecond of period, exactly for the rates
   strictly above 1.0000000005 Hz and up to a little below 999.9995 Hz: those whose period is not rounded
   onto one of the two ends of the range, which the recovery rejects.
   */
  lemma RateRecovered(refresh: real)
    ensures var p := PeriodOf(refresh);
            Interior(refresh) <==> Distance(ContentRate(p), refresh) <= refresh / (2.0 * p as real)
    ensures Usable(refresh) ==> (Interior(refresh) <==> MIN_PERIOD < PeriodOf(refresh) < MAX_PERIOD)
    ensures Interior(refresh) ==> Distance(ContentRate(PeriodOf(refresh)), refresh) < 0.0005
  {
    if Usable(refresh) {
      InteriorRates(refresh);
      UsableRateRecovered(refresh);
    } else {
      FallbackMisses(refresh);
      assert NANOS_PER_SECOND / 999999999.5 > 1.0 && NANOS_PER_SECOND / 1000000.5 < 1000.0;
    }
  }

  /** A display at 999.9999 Hz is stored at the shortest period and treated as one at 60 Hz. */
  lemma FastRateIsLost()
    ensures Usable(999.9999) && PeriodOf(999.9999) == MIN_PERIOD
    ensures ContentRate(PeriodOf(999.9999)) == FALLBACK_RATE
  {
    assert 1000000.0 <= NANOS_PER_SECOND / 999.9999 < 1000000.5;
    EndpointRate(MIN_PERIOD);
  }

  lemma InteriorPeriodRate(p: int)
    requires MIN_PERIOD < p < MAX_PERIOD
    ensures ContentRate(p) == NANOS_PER_SECOND / p as real
    ensures Usable(ContentRate(p))
  {
    var hz := NANOS_PER_SECOND / p as real;
    assert hz * p as real == NANOS_PER_SECOND;
    if hz <= 1.0 {
      MulOrder(p as real, hz, 1.0);
    }
    if hz >= 1000.0 {
      MulOrder(p as real, 1000.0, hz);
    }
  }

  lemma EndpointRate(p: int)
    requires p == MIN_PERIOD || p == MAX_PERIOD
    ensures ContentRate(p) == FALLBACK_RATE
  {
    assert NANOS_PER_SECOND / 1000000.0 == 1000.0;
    assert NANOS_PER_SECOND / 1000000000.0 == 1.0;
  }

  lemma Product(a: real, b: real)
    requires 0.0 < a && 0.0 < b
    ensures 0.0 < a * b
  {}

  lemma Distribute(a: real, b: real, c: real)
    ensures (a - b) * c == a * c - b * c
  {}

  lemma ScaleOrder(a: real, b: real, c: real)
    requires a <= b && 0.0 <= c
    ensures a * c <= b * c
  {}

  lemma CancelFactor(a: real, b: real, c: real)
    requires 0.0 < c && a * c <= b * c
    ensures a <= b
  {
    if a > b {
      Product(a - b, c);
      Distribute(a, b, c);
      assert false;
    }
  }

  /** hz times P is the second, and so is P plus the rounding error times the refresh rate. */
  lemma Rescale(refresh: real, P: real, error: real, difference: real)
    requires (P + error) * refresh == (refresh + difference) * P
    ensures difference * P == error * refresh
  {}

  lemma HalfOver(refresh: real, P: real) returns (bound: real)
    requires 1000000.0 < P && 0.0 < refresh < 1000.0
    ensures bound == refresh / (2.0 * P)
    ensures bound * P == 0.5 * refresh
    ensures bound < 0.0005
  {
    bound := refresh / (2.0 * P);
    assert bound * (2.0 * P) == refresh;
    if bound >= 0.0005 {
      MulOrder(P, 0.0005, bound);
    }
  }

  lemma WithinBound(refresh: real, P: real, error: real, difference: real, bound: real)
    requires 0.0 < refresh && 0.0 < P
    requires difference * P == error * refresh
    requires -0.5 <= error <= 0.5
    requires bound * P == 0.5 * refresh
    ensures -bound <= difference <= bound
  {
    ScaleOrder(error, 0.5, refresh);
    ScaleOrder(-0.5, error, refresh);
    CancelFactor(difference, bound, P);
    CancelFactor(-bound, difference, P);
  }

  lemma RecoveredDistance(refresh: real, exact: real, p: int)
    requires Usable(refresh) && MIN_PERIOD < p < MAX_PERIOD
    requires exact * refresh == NANOS_PER_SECOND
    requires exact - 0.5 <= p as real <= exact + 0.5
    ensures Distance(NANOS_PER_SECOND / p as real, refresh) <= refresh / (2.0 * p as real) < 0.0005
  {
    var bound := HalfOver(refresh, p as real);
    var hz := NANOS_PER_SECOND / p as real;
    assert hz * p as real == NANOS_PER_SECOND;
    Rescale(refresh, p as real, exact - p as real, hz - refresh);
    WithinBound(refresh, p as real, exact - p as real, hz - refresh, bound);
  }

  lemma EndpointMisses(refresh: real, exact: real, p: int)
    requires Usable(refresh) && (p == MIN_PERIOD || p == MAX_PERIOD)
    requires exact * refresh == NANOS_PER_SECOND
    requires exact - 0.5 <= p as real <= exact + 0.5
    ensures Distance(FALLBACK_RATE, refresh) > refresh / (2.0 * p as real)
  {
    var bound := refresh / (2.0 * p as real);
    assert bound * (2.0 * p as real) == refresh;
    assert bound < 1.0 by {
      if bound >= 1.0 {
        MulOrder(2.0 * p as real, 1.0, bound);
      }
    }
    if p == MIN_PERIOD {
      if refresh <= 900.0 {
        MulOrder(exact, refresh, 900.0);
      }
    } else {
      if refresh >= 2.0 {
        MulOrder(exact, 2.0, refresh);
      }
    }
  }

  /** From a period to a rate and back to a rounded period is the identity, except at the two ends. */
  lemma PeriodRoundTrip(p: int)
    requires MIN_PERIOD <= p <= MAX_PERIOD
    ensures PeriodOf(ContentRate(p)) == p <==> MIN_PERIOD < p < MAX_PERIOD
  {
    if MIN_PERIOD < p < MAX_PERIOD {
      InteriorPeriodRate(p);
      var hz := NANOS_PER_SECOND / p as real;
      assert hz * p as real == NANOS_PER_SECOND;
      assert NANOS_PER_SECOND / hz == p as real;
    } else {
      EndpointRate(p);
      assert 16666666.0 <= NANOS_PER_SECOND / FALLBACK_RATE <= 16666667.0;
    }
  }
}
