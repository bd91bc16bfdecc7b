/**
 The retry policy of core/queue.go: when a failed task is retried and how long it waits.
 The delay is computed as the source computes it, through float64 and wrapping int64 and
 int32 arithmetic, and then compared with the delay the policy describes in exact integers.
 */
module RetryPolicy {
  import opened Wrappers
  import opened FixedWidth
  import opened Types

  // ---- float64 ----

  function Pow2(n: nat): (r: nat)
    ensures r >= 1
  {
    if n == 0 then 1 else 2 * Pow2(n - 1)
  }

  /** math.Pow(2, e), exact over the reals. */
  function Pow2Real(e: int): real
    decreases if e < 0 then -e else e
  {
    if e == 0 then 1.0 else if e > 0 then 2.0 * Pow2Real(e - 1) else Pow2Real(e + 1) / 2.0
  }

  /** The distance between neighbouring float64 values around the magnitude x. */
  function Ulp(x: nat): (u: nat)
    ensures u >= 1
    ensures x < TWO_53 ==> u == 1
  {
    if x < TWO_53 then 1 else 2 * Ulp(x / 2)
  }

  /** float64(x) for a non-negative integer: round to nearest, ties to even. */
  function RoundToDouble(x: nat): (r: int)
    ensures x < TWO_53 ==> r == x
  {
    if x < TWO_53 then x else
      var u := Ulp(x);
      var down := x - x % u;
      var rest := x % u;
      if 2 * rest < u || (2 * rest == u && (x / u) % 2 == 0) then down else down + u
  }

  function Float64(x: int): int {
    if x >= 0 then RoundToDouble(x) else -RoundToDouble(-x)
  }

  /** Conversion to int64: truncation, and the minimum value when out of range (amd64). */
  function ToInt64(x: real): int {
    var t := if x >= 0.0 then x.Floor else -((-x).Floor);
    if IsInt64(t) then t else -TWO_63
  }

  // ---- the source's functions ----

  /** time.Duration(float64(minB) * math.Pow(2, float64(e))). */
  function Scaled(minB: int, e: int): int {
    Scale(Float64(minB), e)
  }

  /** A float64 doubled e times, which is exact, and converted. */
  function Scale(x: int, e: int): int {
    ToInt64(x as real * Pow2Real(e))
  }

  /** The last doubled delay plus the linear growth for the failures past the doublings. */
  function Grown(step: int, excess: int): int {
    Wrap64(step + Wrap64(excess * step))
  }

  /** The cap; an overflow below zero reads as the cap too. */
  function Capped(d: int, maxB: int): int {
    var d' := if d > maxB then maxB else d;
    if d' < 0 then maxB else d'
  }

  /** The delay before the next attempt, after the given number of dispatches. */
  function Backoff(rc: RetryConfig, retries: int): int {
    var failures := Wrap32(retries - 1);
    if failures > rc.maxDoublings then
      Capped(Grown(Scaled(rc.minBackoff, rc.maxDoublings), Wrap32(failures - rc.maxDoublings)), rc.maxBackoff)
    else
      Capped(Scaled(rc.minBackoff, failures), rc.maxBackoff)
  }

  /** Whether a failed task has retries remaining. */
  predicate ShouldRetry(rc: RetryConfig, dispatchCount: int, sinceFirstAttempt: int) {
    var attemptsLimited := rc.maxAttempts != -1;
    var durationLimited := rc.maxRetryDuration > 0;
    || (!attemptsLimited && !durationLimited)
    || (attemptsLimited && dispatchCount < rc.maxAttempts)
    || (durationLimited && sinceFirstAttempt < rc.maxRetryDuration)
  }

  // ---- the policy in exact integers ----

  /** minBackoff doubled maxDoublings times: the linear growth per further failure. */
  function Step(rc: RetryConfig): int
    requires rc.maxDoublings >= 0
  {
    rc.minBackoff * Pow2(rc.maxDoublings)
  }

  /** The uncapped delay: doubling while failures <= maxDoublings, then growing by Step. */
  function ExactDelay(rc: RetryConfig, n: int): int
    requires rc.maxDoublings >= 0 && n >= 1
  {
    rc.minBackoff * Pow2(Min(n - 1, rc.maxDoublings)) + Max(0, n - 1 - rc.maxDoublings) * Step(rc)
  }

  /** A positive minimum below 2^53 ns (104 days), which float64 holds exactly, and no negative cap or doublings. */
  predicate Plausible(rc: RetryConfig, n: int) {
    && 0 < rc.minBackoff < TWO_53
    && 0 <= rc.maxBackoff < TWO_63
    && 0 <= rc.maxDoublings < TWO_31
    && 1 <= n < TWO_31
  }

  // ---- arithmetic lemmas ----

  lemma {:induction false} Pow2RealAgrees(n: nat)
    ensures Pow2Real(n) == Pow2(n) as real
  {
    if n > 0 {
      Pow2RealAgrees(n - 1);
    }
  }

  lemma {:induction false} Pow2Monotone(a: nat, b: nat)
    requires a <= b
    ensures Pow2(a) <= Pow2(b)
  {
    if a < b {
      Pow2Monotone(a, b - 1);
    }
  }

  lemma IntRealProduct(a: int, b: int)
    ensures (a as real) * (b as real) == (a * b) as real
  {
  }

  lemma ScaleOf(x: int, e: nat)
    requires x > 0
    ensures x * Pow2(e) > 0
    ensures Scale(x, e) == if x * Pow2(e) < TWO_63 then x * Pow2(e) else -TWO_63
  {
    Pow2RealAgrees(e);
    PositiveProduct(x, Pow2(e));
    var p := x * Pow2(e);
    assert x as real * Pow2Real(e) == p as real by {
      IntRealProduct(x, Pow2(e));
    }
    ToInt64OfInt(p);
  }

  /** The scaled value: the rounded minimum doubled e times or, when that is too large, the minimum int64. */
  lemma ScaledRounded(minB: int, e: nat)
    requires minB > 0
    ensures RoundToDouble(minB) > 0 && RoundToDouble(minB) * Pow2(e) > 0
    ensures Scaled(minB, e) == if RoundToDouble(minB) * Pow2(e) < TWO_63 then RoundToDouble(minB) * Pow2(e) else -TWO_63
  {
    RoundedPositive(minB);
    ScaleOf(RoundToDouble(minB), e);
  }

  lemma {:induction false} UlpBound(x: nat)
    requires x >= 1
    ensures Ulp(x) <= x
  {
    if x >= TWO_53 {
      UlpBound(x / 2);
    }
  }

  /** Rounding keeps a positive number positive. */
  lemma RoundedPositive(x: nat)
    requires x >= 1
    ensures RoundToDouble(x) > 0
  {
    if x >= TWO_53 {
      UlpBound(x);
      DownAtLeast(x, Ulp(x));
    }
  }

  lemma DownAtLeast(x: nat, u: nat)
    requires 1 <= u <= x
    ensures x - x % u > 0
  {
  }

  /** A positive whole number converts to itself or, when too large, to the minimum int64. */
  lemma ScaledExact(minB: int, e: nat)
    requires 0 < minB < TWO_53
    ensures minB * Pow2(e) > 0
    ensures Scaled(minB, e) == if minB * Pow2(e) < TWO_63 then minB * Pow2(e) else -TWO_63
  {
    ScaledRounded(minB, e);
  }

  lemma ToInt64OfInt(p: int)
    requires p > 0
    ensures ToInt64(p as real) == if p < TWO_63 then p else -TWO_63
  {
  }

  lemma PositiveProduct(a: int, b: int)
    requires a > 0 && b > 0
    ensures a * b > 0
  {
  }

  lemma Distribute(k: int, a: int)
    ensures a + k * a == (k + 1) * a
  {
  }

  lemma Wrap64Shift(x: int, t: int)
    ensures Wrap64(x + t * TWO_64) == Wrap64(x)
  {
    ModShift(x + TWO_63, t);
    assert x + t * TWO_64 + TWO_63 == x + TWO_63 + t * TWO_64;
  }

  lemma ModShift(x: int, t: int)
    ensures (x + t * TWO_64) % TWO_64 == x % TWO_64
  {
    var q := x / TWO_64;
    var r := x % TWO_64;
    assert x == q * TWO_64 + r;
    var y := x + t * TWO_64;
    assert y == (q + t) * TWO_64 + r;
    var q' := y / TWO_64;
    var r' := y % TWO_64;
    assert (q + t - q') * TWO_64 == r' - r;
  }

  lemma Wrap64Quotient(x: int) returns (t: int)
    ensures Wrap64(x) == x + t * TWO_64
  {
    t := -((x + TWO_63) / TWO_64);
  }

  /** Wrapping an addend first does not change a wrapped sum. */
  lemma Wrap64Sum(a: int, b: int)
    ensures Wrap64(a + Wrap64(b)) == Wrap64(a + b)
  {
    var t := Wrap64Quotient(b);
    Wrap64Shift(a + b, t);
    assert a + Wrap64(b) == a + b + t * TWO_64;
  }

  // ---- main results ----

  /** The step as the machine holds it: exact when it fits, the minimum int64 when it does not. */
  function HeldStep(rc: RetryConfig): int
    requires rc.maxDoublings >= 0
  {
    if Step(rc) < TWO_63 then Step(rc) else -TWO_63
  }

  /** What the machine's linear phase wraps to after k failures past the doublings. */
  function Wrapped(rc: RetryConfig, n: int): int
    requires rc.maxDoublings >= 0
  {
    Wrap64((n - rc.maxDoublings) * HeldStep(rc))
  }

  /** While the delay still doubles it is the rounded minimum doubled, for every positive minimum. */
  lemma DoublingPhaseValue(rc: RetryConfig, n: int)
    requires rc.minBackoff > 0 && 0 <= rc.maxBackoff < TWO_63
    requires 1 <= n < TWO_31 && n - 1 <= rc.maxDoublings
    ensures Backoff(rc, n) == Min(rc.maxBackoff, RoundToDouble(rc.minBackoff) * Pow2(n - 1))
    ensures ExactDelay(rc, n) == rc.minBackoff * Pow2(n - 1)
  {
    ScaledRounded(rc.minBackoff, n - 1);
    assert ExactDelay(rc, n) == rc.minBackoff * Pow2(n - 1) + 0 * Step(rc);
  }

  lemma SameProduct(a: int, b: int, p: int)
    requires p > 0 && a * p == b * p
    ensures a == b
  {
    assert (a - b) * p == 0;
  }

  /**
   While the delay still doubles it is exact, for every positive minimum, if and only if the
   minimum is a float64 or the cap masks the rounding.
   */
  lemma DoublingPhaseExactIff(rc: RetryConfig, n: int)
    requires rc.minBackoff > 0 && 0 <= rc.maxBackoff < TWO_63
    requires 1 <= n < TWO_31 && n - 1 <= rc.maxDoublings
    ensures
      Backoff(rc, n) == Min(rc.maxBackoff, ExactDelay(rc, n))
      <==> || RoundToDouble(rc.minBackoff) == rc.minBackoff
           || (&& rc.maxBackoff <= RoundToDouble(rc.minBackoff) * Pow2(n - 1)
               && rc.maxBackoff <= rc.minBackoff * Pow2(n - 1))
  {
    DoublingPhaseValue(rc, n);
    var r, p := RoundToDouble(rc.minBackoff), Pow2(n - 1);
    if r * p == rc.minBackoff * p {
      SameProduct(r, rc.minBackoff, p);
    }
  }

  /** A minimum of 2^53 + 1 ns is rounded, and the first delay is one nanosecond short. */
  lemma RoundingWitness()
    ensures
      var rc := RetryConfig(100, 0, TWO_53 + 1, TWO_53 + TWO_53, 16);
      Backoff(rc, 1) == TWO_53 && Min(rc.maxBackoff, ExactDelay(rc, 1)) == TWO_53 + 1
  {
    var rc := RetryConfig(100, 0, TWO_53 + 1, TWO_53 + TWO_53, 16);
    DoublingPhaseValue(rc, 1);
    assert Ulp(TWO_53 + 1) == 2;
    assert (TWO_53 + 1) % 2 == 1 && ((TWO_53 + 1) / 2) % 2 == 0;
    assert RoundToDouble(TWO_53 + 1) == TWO_53;
  }

  lemma DoublingPhaseExact(rc: RetryConfig, n: int)
    requires Plausible(rc, n) && n - 1 <= rc.maxDoublings
    ensures Backoff(rc, n) == Min(rc.maxBackoff, ExactDelay(rc, n))
  {
    DoublingPhaseValue(rc, n);
  }

  lemma GrownValue(held: int, excess: int)
    ensures Grown(held, excess) == Wrap64((excess + 1) * held)
  {
    Wrap64Sum(held, excess * held);
    Distribute(excess, held);
  }

  /** Past the doublings, the result is the wrapped product if it lands in range, else the cap. */
  lemma LinearPhaseValue(rc: RetryConfig, n: int)
    requires Plausible(rc, n) && n - 1 > rc.maxDoublings
    ensures Backoff(rc, n) == if 0 <= Wrapped(rc, n) <= rc.maxBackoff then Wrapped(rc, n) else rc.maxBackoff
    ensures ExactDelay(rc, n) == (n - rc.maxDoublings) * Step(rc)
    ensures Step(rc) > 0
  {
    ScaledExact(rc.minBackoff, rc.maxDoublings);
    GrownValue(HeldStep(rc), n - 1 - rc.maxDoublings);
    Distribute(n - 1 - rc.maxDoublings, Step(rc));
  }

  /** A step that does not fit, times at least one, does not fit either. */
  lemma ProductGrows(a: int, k: int)
    requires a > 0 && k >= 1
    ensures k * a >= a
  {
  }

  /**
   When the computation gives the policy's delay, in terms of the configuration and exact
   integers: the delay still doubles, or it fits in int64, or the wrap-around is masked by the
   cap. A step that fits wraps to the residue of the exact delay; one that does not fit is
   held as the minimum int64, whose even multiples wrap to zero.
   */
  predicate Exact(rc: RetryConfig, n: int)
    requires rc.maxDoublings >= 0 && n >= 1
  {
    || n - 1 <= rc.maxDoublings
    || ExactDelay(rc, n) < TWO_63
    || (if Step(rc) < TWO_63 then ExactDelay(rc, n) % TWO_64 >= rc.maxBackoff
        else rc.maxBackoff == 0 || (n - rc.maxDoublings) % 2 == 1)
  }

  lemma Wrap64Residue(x: int, m: int)
    requires 0 <= m < TWO_63
    ensures 0 <= Wrap64(x) < m <==> x % TWO_64 < m
  {
    var t := x / TWO_64;
    Wrap64Shift(x % TWO_64, t);
    assert x == x % TWO_64 + t * TWO_64;
  }

  /** The source's delay is the policy's delay if and only if the configuration is Exact. */
  lemma BackoffExactIff(rc: RetryConfig, n: int)
    requires Plausible(rc, n)
    ensures Backoff(rc, n) == Min(rc.maxBackoff, ExactDelay(rc, n)) <==> Exact(rc, n)
  {
    if n - 1 <= rc.maxDoublings {
      DoublingPhaseExact(rc, n);
    } else if Step(rc) >= TWO_63 {
      OversizedStepCollapses(rc, n);
      LinearPhaseValue(rc, n);
      ProductGrows(Step(rc), n - rc.maxDoublings);
    } else {
      LinearPhaseValue(rc, n);
      ProductGrows(Step(rc), n - rc.maxDoublings);
      Wrap64Residue(ExactDelay(rc, n), rc.maxBackoff);
    }
  }

  /** As long as the linear growth does not overflow, the delay is exact. */
  lemma BackoffExact(rc: RetryConfig, n: int)
    requires Plausible(rc, n)
    requires Step(rc) * Max(1, n - rc.maxDoublings) < TWO_63
    ensures Backoff(rc, n) == Min(rc.maxBackoff, ExactDelay(rc, n))
  {
    BackoffExactIff(rc, n);
    if n - 1 > rc.maxDoublings {
      var k := n - rc.maxDoublings;
      assert ExactDelay(rc, n) == k * Step(rc) by { LinearPhaseValue(rc, n); }
      assert Max(1, k) == k;
      Commutes(k, Step(rc));
    }
  }

  lemma Commutes(a: int, b: int)
    ensures a * b == b * a
  {
  }

  lemma ExactDelayGrows(rc: RetryConfig, n: int)
    requires rc.maxDoublings >= 0 && n >= 1 && rc.minBackoff > 0
    ensures rc.minBackoff <= ExactDelay(rc, n) <= ExactDelay(rc, n + 1)
  {
    var e := Min(n - 1, rc.maxDoublings);
    PositiveProduct(rc.minBackoff, Pow2(rc.maxDoublings));
    ScaleMonotone(rc.minBackoff, 1, Pow2(e));
    if n - 1 < rc.maxDoublings {
      Pow2Monotone(n - 1, n);
      ScaleMonotone(rc.minBackoff, Pow2(n - 1), Pow2(n));
    } else {
      var k := n - 1 - rc.maxDoublings;
      assert (k + 1) * Step(rc) == k * Step(rc) + Step(rc);
      ProductNonNegative(k, Step(rc));
    }
  }

  lemma ScaleMonotone(a: int, x: int, y: int)
    requires a > 0 && x <= y
    ensures a * x <= a * y
  {
  }

  lemma ProductNonNegative(a: int, b: int)
    requires a >= 0 && b >= 0
    ensures a * b >= 0
  {
  }

  /** Inside the range, delays never shrink and stay between min(minBackoff, maxBackoff) and maxBackoff. */
  lemma BackoffMonotone(rc: RetryConfig, n: int)
    requires Plausible(rc, n + 1) && n >= 1
    requires Step(rc) * Max(1, n + 1 - rc.maxDoublings) < TWO_63
    ensures Backoff(rc, n) <= Backoff(rc, n + 1)
    ensures Min(rc.minBackoff, rc.maxBackoff) <= Backoff(rc, n) <= rc.maxBackoff
  {
    PositiveProduct(rc.minBackoff, Pow2(rc.maxDoublings));
    ScaleMonotone(Step(rc), Max(1, n - rc.maxDoublings), Max(1, n + 1 - rc.maxDoublings));
    BackoffExact(rc, n);
    BackoffExact(rc, n + 1);
    ExactDelayGrows(rc, n);
  }

  /**
   When minBackoff * 2^maxDoublings itself does not fit, the delay collapses to zero at every
   second failure past the doublings, instead of staying at maxBackoff.
   */
  lemma OversizedStepCollapses(rc: RetryConfig, n: int)
    requires Plausible(rc, n) && n - 1 > rc.maxDoublings
    requires Step(rc) >= TWO_63
    ensures Backoff(rc, n) == if (n - rc.maxDoublings) % 2 == 0 then 0 else rc.maxBackoff
    ensures Min(rc.maxBackoff, ExactDelay(rc, n)) == rc.maxBackoff
  {
    LinearPhaseValue(rc, n);
    ProductGrows(Step(rc), n - rc.maxDoublings);
    var k := n - rc.maxDoublings;
    assert HeldStep(rc) == -TWO_63;
    MinimumTimes(k);
  }

  /** Even multiples of the minimum int64 wrap to zero, odd ones to itself. */
  lemma MinimumTimes(k: int)
    ensures Wrap64(k * -TWO_63) == if k % 2 == 0 then 0 else -TWO_63
  {
    if k % 2 == 0 {
      Wrap64Shift(0, -(k / 2));
      assert k * -TWO_63 == 0 + (-(k / 2)) * TWO_64;
    } else {
      Wrap64Shift(-TWO_63, -(k / 2));
      assert k * -TWO_63 == -TWO_63 + (-(k / 2)) * TWO_64;
    }
  }

  /** Forty doublings of the default 100ms: the forty-second attempt is retried at once. */
  lemma CollapseWitness()
    ensures
      var rc := RetryConfig(100, 0, 100 * MILLISECOND, 3600 * SECOND, 40);
      Plausible(rc, 42) && Backoff(rc, 42) == 0 && Min(rc.maxBackoff, ExactDelay(rc, 42)) == 3600 * SECOND
  {
    var rc := RetryConfig(100, 0, 100 * MILLISECOND, 3600 * SECOND, 40);
    Pow2At40();
    OversizedStepCollapses(rc, 42);
  }

  lemma Pow2At40()
    ensures Pow2(40) == 0x100_0000_0000
  {
    assert Pow2(10) == 1024;
    Pow2Add(10, 10);
    Pow2Add(20, 20);
  }

  lemma {:induction false} Pow2Add(a: nat, b: nat)
    ensures Pow2(a + b) == Pow2(a) * Pow2(b)
  {
    if b > 0 {
      Pow2Add(a, b - 1);
      assert Pow2(a) * Pow2(b) == 2 * (Pow2(a) * Pow2(b - 1));
    }
  }

  /** The default configuration is inside the exact range for all of its hundred attempts. */
  lemma DefaultConfigExact(n: int)
    requires 1 <= n <= 100
    ensures
      var rc := DefaultRetryConfig(RetryConfig(0, 0, 0, 0, 0));
      Backoff(rc, n) == Min(3600 * SECOND, ExactDelay(rc, n))
  {
    var rc := DefaultRetryConfig(RetryConfig(0, 0, 0, 0, 0));
    Pow2Add(8, 8);
    assert Pow2(8) == 256;
    assert Step(rc) == 100 * MILLISECOND * 65536;
    BackoffExact(rc, n);
  }

  /** The rule as it is documented: either limit, once reached, stops retrying. */
  predicate EitherLimitStops(rc: RetryConfig, dispatchCount: int, sinceFirstAttempt: int) {
    || (rc.maxAttempts != -1 && rc.maxAttempts <= dispatchCount)
    || (rc.maxRetryDuration > 0 && rc.maxRetryDuration <= sinceFirstAttempt)
  }

  /** The code keeps the documented rule except when both limits are set and exactly one is reached. */
  lemma EitherLimitIff(rc: RetryConfig, dispatchCount: int, sinceFirstAttempt: int)
    ensures
      ShouldRetry(rc, dispatchCount, sinceFirstAttempt) == !EitherLimitStops(rc, dispatchCount, sinceFirstAttempt)
      <==> !(&& rc.maxAttempts != -1 && rc.maxRetryDuration > 0
             && (rc.maxAttempts <= dispatchCount) != (rc.maxRetryDuration <= sinceFirstAttempt))
  {
  }
}
