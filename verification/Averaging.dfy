/** The two averaging strategies: a ring buffer with a running sum for "the average of
    the last W samples", and a recursive exponential average. */
module Averaging {
  const MIN_INT64 := -0x8000_0000_0000_0000
  const MAX_INT64 := 0x7FFF_FFFF_FFFF_FFFF
  const DEFAULT_SMA_WINDOW_SIZE := 10
  const DEFAULT_EMA_ALPHA := 0.3

  /** time.Duration: a 64-bit integer of nanoseconds. */
  type Duration = x: int | MIN_INT64 <= x <= MAX_INT64

  predicate FitsInt64(x: int) {
    MIN_INT64 <= x <= MAX_INT64
  }

  const TWO_TO_THE_64 := 0x1_0000_0000_0000_0000

  /** What 64-bit addition and subtraction leave of an exact result. */
  function Wrap64(x: int): (wrapped: Duration)
    ensures (wrapped == x) == FitsInt64(x)
    decreases if x > MAX_INT64 then x - MAX_INT64 else if x < MIN_INT64 then MIN_INT64 - x else 0
  {
    if x > MAX_INT64 then Wrap64(x - TWO_TO_THE_64)
    else if x < MIN_INT64 then Wrap64(x + TWO_TO_THE_64)
    else x
  }

  lemma {:induction false} WrapShift(x: int)
    ensures Wrap64(x + TWO_TO_THE_64) == Wrap64(x)
    decreases if x < 0 then -x else 0
  {
    if x + TWO_TO_THE_64 < MIN_INT64 {
      WrapShift(x + TWO_TO_THE_64);
    }
  }

  /** Wrapping a partial result early does not change the wrapped result. */
  lemma {:induction false} WrapAdd(a: int, b: int)
    ensures Wrap64(Wrap64(a) + b) == Wrap64(a + b)
    decreases if a > MAX_INT64 then a - MAX_INT64 else if a < MIN_INT64 then MIN_INT64 - a else 0
  {
    if a > MAX_INT64 {
      WrapAdd(a - TWO_TO_THE_64, b);
      WrapShift(a - TWO_TO_THE_64 + b);
    } else if a < MIN_INT64 {
      WrapAdd(a + TWO_TO_THE_64, b);
      WrapShift(a + b);
    }
  }

  /** Division of the source, which truncates toward zero. */
  function TruncatedQuotient(a: int, b: int): int
    requires b > 0
  {
    if a >= 0 then a / b else -((-a) / b)
  }

  function Sum(xs: seq<int>): int {
    if xs == [] then 0 else Sum(xs[..|xs| - 1]) + xs[|xs| - 1]
  }

  function LastOf<T>(xs: seq<T>, n: nat): seq<T> {
    if |xs| <= n then xs else xs[|xs| - n..]
  }

  /** The average of the last `size` samples; zero when there are none. */
  function MovingAverage(samples: seq<int>, size: nat): int
    requires size > 0
  {
    if samples == [] then 0
    else TruncatedQuotient(Wrap64(Sum(LastOf(samples, size))), |LastOf(samples, size)|)
  }

  lemma {:induction false} SumAppend(xs: seq<int>, ys: seq<int>)
    ensures Sum(xs + ys) == Sum(xs) + Sum(ys)
  {
    if ys == [] {
      assert xs + ys == xs;
    } else {
      SumAppend(xs, ys[..|ys| - 1]);
      assert (xs + ys)[..|xs + ys| - 1] == xs + ys[..|ys| - 1];
    }
  }

  lemma SumDropFirst(xs: seq<int>)
    requires xs != []
    ensures Sum(xs) == xs[0] + Sum(xs[1..])
  {
    SumAppend([xs[0]], xs[1..]);
    assert [xs[0]] + xs[1..] == xs;
    assert Sum([xs[0]]) == Sum([]) + xs[0];
  }

  /** The samples held by the buffer, oldest first. */
  function Ring<T>(window: seq<T>, idx: nat, full: bool): seq<T>
    requires idx <= |window|
  {
    if full then window[idx..] + window[..idx] else window[..idx]
  }

  lemma NextIndex(idx: nat, size: nat)
    requires idx < size
    ensures (idx + 1) % size == if idx + 1 == size then 0 else idx + 1
  {
    if idx + 1 < size {
      assert (idx + 1) / size == 0;
    }
  }

  /** Overwriting the slot at idx replaces the oldest sample by a newest one. */
  lemma RingAdd<T>(window: seq<T>, idx: nat, full: bool, x: T)
    requires idx < |window|
    ensures var next := if idx + 1 == |window| then 0 else idx + 1;
      Ring(window[idx := x], next, full || next == 0)
      == (if full then Ring(window, idx, full)[1..] else Ring(window, idx, full)) + [x]
  {
    var updated := window[idx := x];
    assert updated[..idx + 1] == window[..idx] + [x];
    assert updated[idx + 1..] == window[idx + 1..];
    assert (window[idx..] + window[..idx])[1..] == window[idx + 1..] + window[..idx];
  }

  lemma LastOfAppend<T>(xs: seq<T>, n: nat, x: T)
    requires n > 0
    ensures LastOf(xs + [x], n) == (if |xs| >= n then LastOf(xs, n)[1..] else LastOf(xs, n)) + [x]
  {
  }

  /** What the fields of the calculator hold after the samples since the last reset. */
  predicate RingOk(window: seq<int>, idx: nat, full: bool, count: nat, sum: int, samples: seq<int>) {
    && idx < |window|
    && (full <==> |samples| >= |window|)
    && LastOf(samples, |window|) == Ring(window, idx, full)
    && count == |LastOf(samples, |window|)|
    && sum == Wrap64(Sum(LastOf(samples, |window|)))
  }

  /** Taking the oldest sample out of the wrapped sum and adding the new one leaves the
      wrapped sum of the new window. */
  lemma SumAfterAdd(before: seq<int>, full: bool, x: int, sum: int)
    requires sum == Wrap64(Sum(before)) && (full ==> before != [])
    ensures var taken := if full then Wrap64(sum - before[0]) else sum;
      Wrap64(taken + x) == Wrap64(Sum((if full then before[1..] else before) + [x]))
  {
    var kept := if full then before[1..] else before;
    SumAppend(kept, [x]);
    assert Sum([x]) == Sum([]) + x;
    WrapAdd(Sum(kept), x);
    if full {
      SumDropFirst(before);
      WrapAdd(Sum(before), -before[0]);
    }
  }

  lemma RingOkAfterAdd(window: seq<int>, idx: nat, full: bool, count: nat, sum: int, samples: seq<int>, x: int,
                       idx': nat, full': bool, sum': int)
    requires RingOk(window, idx, full, count, sum, samples)
    requires idx' == (idx + 1) % |window| && full' == (full || idx' == 0)
    requires sum' == Wrap64((if full then Wrap64(sum - window[idx]) else sum) + x)
    ensures RingOk(window[idx := x], idx', full', if full then count else count + 1, sum', samples + [x])
  {
    var before := LastOf(samples, |window|);
    var after := (if full then before[1..] else before) + [x];
    NextIndex(idx, |window|);
    assert LastOf(samples + [x], |window|) == after by {
      LastOfAppend(samples, |window|, x);
    }
    assert Ring(window[idx := x], idx', full') == after by {
      RingAdd(window, idx, full, x);
    }
    assert sum' == Wrap64(Sum(after)) by {
      SumAfterAdd(before, full, x, sum);
    }
  }

  class SMACalculator {
    const windowSize: nat
    var window: array<Duration>
    var windowIdx: nat
    var sum: Duration
    var count: nat
    var full: bool
    /** Every sample since the last reset. */
    ghost var samples: seq<int>

    ghost predicate Valid()
      reads this, window
    {
      && window.Length == windowSize
      && RingOk(window[..], windowIdx, full, count, sum, samples)
    }

    constructor (configured: int)
      ensures Valid() && fresh(window) && samples == []
      ensures windowSize == if configured <= 0 then DEFAULT_SMA_WINDOW_SIZE else configured
    {
      var size: nat := if configured <= 0 then DEFAULT_SMA_WINDOW_SIZE else configured;
      windowSize := size;
      window := new Duration[size](_ => 0);
      windowIdx, sum, count, full, samples := 0, 0, 0, false, [];
    }

    method Add(executionTime: Duration) returns (current: int)
      requires Valid()
      modifies this, window
      ensures Valid() && window == old(window)
      ensures samples == old(samples) + [executionTime]
      ensures current == MovingAverage(samples, windowSize)
    {
      ghost var before, slot, wasFull, wasCount, wasSum := window[..], windowIdx, full, count, sum;
      if full {
        sum := Wrap64(sum as int - window[windowIdx] as int);
      }
      window[windowIdx] := executionTime;
      assert window[..] == before[slot := executionTime];
      sum := Wrap64(sum as int + executionTime as int);
      windowIdx := (windowIdx + 1) % windowSize;
      if !full {
        count := count + 1;
        if windowIdx == 0 {
          full := true;
        }
      }
      RingOkAfterAdd(before, slot, wasFull, wasCount, wasSum, samples, executionTime, windowIdx, full, sum);
      samples := samples + [executionTime];
      assert window[..] == before[slot := executionTime];
      current := Average();
    }

    method Average() returns (current: int)
      requires Valid()
      ensures current == MovingAverage(samples, windowSize)
    {
      if count == 0 {
        return 0;
      }
      var divisor := count;
      if full {
        divisor := windowSize;
      }
      current := TruncatedQuotient(sum, divisor);
    }

    method Reset()
      requires Valid()
      modifies this
      ensures Valid() && samples == [] && fresh(window)
    {
      window := new Duration[windowSize](_ => 0);
      windowIdx, sum, count, full, samples := 0, 0, 0, false, [];
    }

    method Count() returns (n: nat)
      requires Valid()
      ensures n == if |samples| < windowSize then |samples| else windowSize
    {
      n := count;
    }
  }

  // ---- What the moving average means ----

  predicate Within(xs: seq<int>, low: int, high: int) {
    forall i :: 0 <= i < |xs| ==> low <= xs[i] <= high
  }

  lemma {:induction false} SumWithin(xs: seq<int>, low: int, high: int)
    requires Within(xs, low, high)
    ensures |xs| * low <= Sum(xs) <= |xs| * high
  {
    if xs != [] {
      SumWithin(xs[..|xs| - 1], low, high);
      assert |xs| * low == (|xs| - 1) * low + low && |xs| * high == (|xs| - 1) * high + high;
    }
  }

  lemma QuotientWithin(a: int, b: int, low: int, high: int)
    requires b > 0 && b * low <= a <= b * high
    ensures low <= TruncatedQuotient(a, b) <= high
  {
    if a >= 0 {
      FloorWithin(a, b, low, high);
    } else {
      assert b * -high == -(b * high) && b * -low == -(b * low);
      FloorWithin(-a, b, -high, -low);
    }
  }

  /** For a nonnegative dividend. */
  lemma FloorWithin(a: int, b: int, low: int, high: int)
    requires b > 0 && a >= 0 && b * low <= a <= b * high
    ensures low <= a / b <= high
  {
    var q := a / b;
    assert b * q <= a < b * q + b;
    if q < low { MulOrder(b, q + 1, low); }
    if q > high { MulOrder(b, high + 1, q); }
  }

  lemma MulOrder(b: int, x: int, y: int)
    requires b > 0 && x <= y
    ensures b * x <= b * y
  {
    assert b * y - b * x == b * (y - x);
  }

  lemma {:induction false} WrappedIsFarOff(x: int)
    requires !FitsInt64(x)
    ensures if x > 0 then Wrap64(x) <= x - TWO_TO_THE_64 else Wrap64(x) >= x + TWO_TO_THE_64
    decreases if x > MAX_INT64 then x - MAX_INT64 else MIN_INT64 - x
  {
    var nearer := if x > 0 then x - TWO_TO_THE_64 else x + TWO_TO_THE_64;
    if !FitsInt64(nearer) {
      WrappedIsFarOff(nearer);
    }
  }

  lemma QuotientBracket(a: int, n: int)
    requires n > 0
    ensures a - n < n * TruncatedQuotient(a, n) < a + n
  {
    if a < 0 {
      assert n * -((-a) / n) == -(n * ((-a) / n));
    }
  }

  function Abs(x: int): nat {
    if x < 0 then -x else x
  }

  lemma FloorBracket(a: int, n: int)
    requires n > 0 && a >= 0
    ensures a / n >= 0 && n * (a / n) <= a < n * (a / n) + n
  {
  }

  /** The quotient drops the fraction: it has the sign of the dividend and is the greatest
      in size that does not exceed it. */
  lemma QuotientTruncates(a: int, n: int)
    requires n > 0
    ensures var q := TruncatedQuotient(a, n);
      && n * Abs(q) <= Abs(a) < n * Abs(q) + n
      && (a >= 0 ==> q >= 0) && (a <= 0 ==> q <= 0)
  {
    FloorBracket(Abs(a), n);
    assert Abs(TruncatedQuotient(a, n)) == Abs(a) / n;
  }

  /** The window is the end of the samples, as long as it can be. */
  lemma WindowIsSuffix(samples: seq<int>, size: nat)
    ensures var kept := LastOf(samples, size);
      && |kept| == (if |samples| < size then |samples| else size)
      && forall i :: 0 <= i < |kept| ==> kept[i] == samples[|samples| - |kept| + i]
  {
  }

  lemma FarDividendsDiffer(a: int, b: int, n: int)
    requires n > 0 && a + 2 * n <= b
    ensures TruncatedQuotient(a, n) != TruncatedQuotient(b, n)
  {
    QuotientBracket(a, n);
    QuotientBracket(b, n);
  }

  /** The moving average is the truncated quotient of the exact sum of the window if and
      only if that sum fits in 64 bits, whatever wrapped on the way. A window holds at most
      2^63 - 1 samples. */
  lemma AverageExactIffSumFits(samples: seq<int>, size: nat)
    requires 0 < size <= MAX_INT64 && samples != []
    ensures var kept := LastOf(samples, size);
      MovingAverage(samples, size) == TruncatedQuotient(Sum(kept), |kept|) <==> FitsInt64(Sum(kept))
  {
    var kept := LastOf(samples, size);
    var sum := Sum(kept);
    if !FitsInt64(sum) {
      WrappedIsFarOff(sum);
      if sum > 0 {
        FarDividendsDiffer(Wrap64(sum), sum, |kept|);
      } else {
        FarDividendsDiffer(sum, Wrap64(sum), |kept|);
      }
    }
  }

  /** While the window sum fits, the moving average lies between the least and the
      greatest of the last `size` samples. */
  lemma MovingAverageWithin(samples: seq<int>, size: nat, low: int, high: int)
    requires size > 0 && samples != []
    requires Within(LastOf(samples, size), low, high) && FitsInt64(Sum(LastOf(samples, size)))
    ensures low <= MovingAverage(samples, size) <= high
  {
    var kept := LastOf(samples, size);
    SumWithin(kept, low, high);
    QuotientWithin(Sum(kept), |kept|, low, high);
  }

  /** Samples of at most `bound` with size * bound below 2^63 never wrap, neither between
      two calls nor between the subtraction and the addition of one Add. */
  lemma NoOverflowInAdd(samples: seq<int>, x: int, size: nat, bound: int)
    requires bound >= 0 && size > 0 && Within(samples, -bound, bound) && -bound <= x <= bound
    requires size * bound <= MAX_INT64
    ensures var before := LastOf(samples, size);
      && FitsInt64(Sum(before))
      && (|samples| >= size ==> FitsInt64(Sum(before) - before[0]))
      && FitsInt64(Sum(LastOf(samples + [x], size)))
  {
    var before := LastOf(samples, size);
    WindowFits(before, size, bound);
    if |samples| >= size {
      SumDropFirst(before);
      WindowFits(before[1..], size, bound);
    }
    WindowFits(LastOf(samples + [x], size), size, bound);
  }

  lemma WindowFits(xs: seq<int>, size: nat, bound: int)
    requires bound >= 0 && |xs| <= size && Within(xs, -bound, bound) && size * bound <= MAX_INT64
    ensures FitsInt64(Sum(xs))
  {
    SumWithin(xs, -bound, bound);
    ScaledBound(|xs|, size, bound);
  }

  lemma ScaledBound(n: nat, size: nat, bound: int)
    requires n <= size && bound >= 0
    ensures n * bound <= size * bound && n * -bound == -(n * bound)
  {
    assert size * bound - n * bound == (size - n) * bound;
  }

  // ---- The exponential average ----

  /** Conversion of a float to an integer truncates toward zero. */
  function Truncate(r: real): int {
    if r >= 0.0 then r.Floor else -((-r).Floor)
  }

  /** Truncation drops the fraction: it keeps the sign and never grows in size. */
  lemma TruncatesTowardZero(r: real)
    ensures r >= 0.0 ==> Truncate(r) >= 0 && Truncate(r) as real <= r < Truncate(r) as real + 1.0
    ensures r <= 0.0 ==> Truncate(r) <= 0 && Truncate(r) as real - 1.0 < r <= Truncate(r) as real
  {
  }

  /** The first sample as it is, then each new one mixed with the value before. */
  function Blend(alpha: real, keep: real, samples: seq<int>): real {
    if samples == [] then 0.0
    else if |samples| == 1 then samples[0] as real
    else alpha * samples[|samples| - 1] as real + keep * Blend(alpha, keep, samples[..|samples| - 1])
  }

  function Exponential(alpha: real, samples: seq<int>): real {
    Blend(alpha, 1.0 - alpha, samples)
  }

  class EMACalculator {
    const alpha: real
    var average: real
    var count: nat
    ghost var samples: seq<int>

    ghost predicate Valid()
      reads this
    {
      && 0.0 < alpha <= 1.0
      && count == |samples|
      && average == Exponential(alpha, samples)
    }

    constructor (configured: real)
      ensures Valid() && samples == []
      ensures alpha == if configured <= 0.0 || configured > 1.0 then DEFAULT_EMA_ALPHA else configured
    {
      alpha := if configured <= 0.0 || configured > 1.0 then DEFAULT_EMA_ALPHA else configured;
      average, count, samples := 0.0, 0, [];
    }

    method Add(executionTime: Duration) returns (current: int)
      requires Valid()
      modifies this
      ensures Valid() && samples == old(samples) + [executionTime]
      ensures current == Truncate(Exponential(alpha, samples))
    {
      var value := executionTime as real;
      ghost var now := samples + [executionTime];
      assert now[..|now| - 1] == samples;
      if count == 0 {
        average := value;
      } else {
        average := alpha * value + (1.0 - alpha) * average;
      }
      count := count + 1;
      samples := now;
      current := Truncate(average);
    }

    method Average() returns (current: int)
      requires Valid()
      ensures current == Truncate(Exponential(alpha, samples))
    {
      current := Truncate(average);
    }

    method Reset()
      requires Valid()
      modifies this
      ensures Valid() && samples == []
    {
      average, count, samples := 0.0, 0, [];
    }

    method Count() returns (n: nat)
      requires Valid()
      ensures n == |samples|
    {
      n := count;
    }
  }

  function Power(base: real, n: nat): real {
    if n == 0 then 1.0 else base * Power(base, n - 1)
  }

  /** What the samples from index m on contribute: sample i of n weighs
      alpha * keep^(n-1-i). */
  function Later(alpha: real, keep: real, samples: seq<int>, m: nat): real
    requires m <= |samples|
    decreases |samples| - m
  {
    if m == |samples| then 0.0
    else (alpha * Power(keep, |samples| - 1 - m)) * samples[m] as real + Later(alpha, keep, samples, m + 1)
  }

  /** The weighted sum in closed form; the first sample weighs keep^(n-1). */
  function WeightedSum(alpha: real, keep: real, samples: seq<int>): real
    requires samples != []
  {
    Power(keep, |samples| - 1) * samples[0] as real + Later(alpha, keep, samples, 1)
  }

  lemma Regroup(p: real, keep: real, alpha: real, x: real, before: real, later: real)
    ensures p * (alpha * x + keep * before) + later == (keep * p) * before + ((alpha * p) * x + later)
  {
    assert p * (alpha * x) == (alpha * p) * x && p * (keep * before) == (keep * p) * before;
  }

  /** The value after all samples is the value after the first m of them, decayed, plus
      what the later ones contribute. */
  lemma {:induction false} BlendSplit(alpha: real, keep: real, samples: seq<int>, m: nat)
    requires 1 <= m <= |samples|
    ensures Blend(alpha, keep, samples)
         == Power(keep, |samples| - m) * Blend(alpha, keep, samples[..m]) + Later(alpha, keep, samples, m)
    decreases |samples| - m
  {
    var n := |samples|;
    if m == n {
      assert samples[..m] == samples;
    } else {
      BlendSplit(alpha, keep, samples, m + 1);
      assert samples[..m + 1][..m] == samples[..m];
      Regroup(Power(keep, n - m - 1), keep, alpha, samples[m] as real, Blend(alpha, keep, samples[..m]),
              Later(alpha, keep, samples, m + 1));
    }
  }

  /** The recursion computes the weighted sum of all samples. */
  lemma ExponentialIsWeightedSum(alpha: real, samples: seq<int>)
    requires samples != []
    ensures Exponential(alpha, samples) == WeightedSum(alpha, 1.0 - alpha, samples)
  {
    BlendSplit(alpha, 1.0 - alpha, samples, 1);
  }

  lemma TruncateWithin(r: real, low: int, high: int)
    requires low as real <= r <= high as real
    ensures low <= Truncate(r) <= high
  {
  }

  lemma {:induction false} ExponentialBetween(alpha: real, samples: seq<int>, low: real, high: real)
    requires 0.0 < alpha <= 1.0 && samples != []
    requires forall i :: 0 <= i < |samples| ==> low <= samples[i] as real <= high
    ensures low <= Exponential(alpha, samples) <= high
  {
    var n := |samples|;
    if n > 1 {
      ExponentialBetween(alpha, samples[..n - 1], low, high);
      Convex(alpha, samples[n - 1] as real, Exponential(alpha, samples[..n - 1]), low, high);
    }
  }

  /** The exponential average, and what is left of it after truncation, lies between the
      least and the greatest sample. */
  lemma ExponentialWithin(alpha: real, samples: seq<int>, low: int, high: int)
    requires 0.0 < alpha <= 1.0 && samples != [] && Within(samples, low, high)
    ensures low as real <= Exponential(alpha, samples) <= high as real
    ensures low <= Truncate(Exponential(alpha, samples)) <= high
  {
    ExponentialBetween(alpha, samples, low as real, high as real);
    TruncateWithin(Exponential(alpha, samples), low, high);
  }

  /** The weights sum to one: a constant signal of one averages to one. */
  lemma WeightsSumToOne(alpha: real, n: nat)
    requires 0.0 < alpha <= 1.0 && n > 0
    ensures WeightedSum(alpha, 1.0 - alpha, seq(n, _ => 1)) == 1.0
  {
    var ones := seq(n, _ => 1);
    ExponentialIsWeightedSum(alpha, ones);
    ExponentialBetween(alpha, ones, 1.0, 1.0);
  }

  lemma Convex(alpha: real, x: real, y: real, low: real, high: real)
    requires 0.0 <= alpha <= 1.0 && low <= x <= high && low <= y <= high
    ensures low <= alpha * x + (1.0 - alpha) * y <= high
  {
    NonNegative(alpha, x - low);
    NonNegative(1.0 - alpha, y - low);
    NonNegative(alpha, high - x);
    NonNegative(1.0 - alpha, high - y);
  }

  lemma NonNegative(a: real, b: real)
    requires a >= 0.0 && b >= 0.0
    ensures a * b >= 0.0
  {
  }
}
