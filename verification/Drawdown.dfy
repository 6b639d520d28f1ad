/** Maximum drawdown of a value series, in per cent. */
module Drawdown {
  import opened Arithmetic

  /** How far `v` lies below `peak`, in per cent of `peak`. */
  function Drop(peak: real, v: real): real
    requires peak > 0.0
  {
    (peak - v) / peak * 100.0
  }

  predicate NotNegative(values: seq<real>) {
    forall k :: 0 <= k < |values| ==> values[k] >= 0.0
  }

  /** The fall from the i-th to the j-th value counts towards the drawdown. */
  predicate Falls(values: seq<real>, i: int, j: int) {
    0 <= i <= j < |values| && values[i] > 0.0
  }

  /** The greatest of the first `n` values. */
  function Peak(values: seq<real>, n: nat): (peak: real)
    requires 0 < n <= |values|
    ensures forall k :: 0 <= k < n ==> values[k] <= peak
    ensures exists k :: 0 <= k < n && values[k] == peak
  {
    if n == 1 then values[0]
    else
      var earlier := Peak(values, n - 1);
      if values[n-1] > earlier then values[n-1] else earlier
  }

  /** The greatest fall from the running peak among the first `n` values. */
  function MaxDrawdownTo(values: seq<real>, n: nat): (r: real)
    requires n <= |values|
    ensures r >= 0.0
  {
    if n == 0 then 0.0
    else
      var earlier, peak := MaxDrawdownTo(values, n - 1), Peak(values, n);
      if peak > 0.0 && Drop(peak, values[n-1]) > earlier then Drop(peak, values[n-1]) else earlier
  }

  function MaxDrawdown(values: seq<real>): real {
    MaxDrawdownTo(values, |values|)
  }

  /** One pass with a running peak. */
  method CalcMaxDrawdown(values: seq<real>) returns (maxDrawdown: real)
    ensures maxDrawdown == MaxDrawdown(values)
  {
    if values == [] {
      return 0.0;
    }
    var peak := values[0];
    maxDrawdown := 0.0;
    for n := 0 to |values|
      invariant peak == if n == 0 then values[0] else Peak(values, n)
      invariant maxDrawdown == MaxDrawdownTo(values, n)
    {
      var value := values[n];
      if value > peak {
        peak := value;
      }
      if peak > 0.0 {
        var drawdown := (peak - value) / peak * 100.0;
        if drawdown > maxDrawdown {
          maxDrawdown := drawdown;
        }
      }
    }
  }

  // ---------------------------------------------------------------- how far one value lies below another

  lemma DistributeMinus(a: real, b: real, p: real)
    ensures (a - b) * p == a * p - b * p
  {
  }

  lemma ShareBelow(peak: real, v: real)
    requires peak > 0.0
    ensures (peak - v) / peak == 1.0 - v / peak
  {
    TimesBack(peak - v, peak);
    TimesBack(v, peak);
    DistributeMinus(1.0, v / peak, peak);
    CancelLe((peak - v) / peak, 1.0 - v / peak, peak);
    CancelLe(1.0 - v / peak, (peak - v) / peak, peak);
  }

  lemma ShareNotNegative(v: real, p: real)
    requires p > 0.0 && v >= 0.0
    ensures v / p >= 0.0
  {
  }

  lemma SmallerShareOfHigher(low: real, high: real, v: real)
    requires 0.0 < low <= high && v >= 0.0
    ensures v / high <= v / low
  {
    TimesBack(v, low);
    TimesBack(v, high);
    ShareNotNegative(v, low);
    MulLe(low, high, v / low);
    CancelLe(v / high, v / low, high);
  }

  lemma SmallerDebtOfHigher(low: real, high: real, v: real)
    requires 0.0 < low < high && v < 0.0
    ensures v / low < v / high
  {
    TimesBack(v, low);
    TimesBack(v, high);
    CancelLt(v / low, 0.0, low);
    MulLt(low, high, -(v / low));
    DistributeMinus(0.0, v / low, high);
    CancelLt(v / low, v / high, high);
  }

  /** Seen from a higher peak a value that is not negative has fallen further, and a negative one less far. */
  lemma HigherPeakFallsFurther(low: real, high: real, v: real)
    requires 0.0 < low <= high
    ensures v >= 0.0 ==> Drop(low, v) <= Drop(high, v)
    ensures v < 0.0 && low < high ==> Drop(low, v) > Drop(high, v)
  {
    ShareBelow(low, v);
    ShareBelow(high, v);
    if v >= 0.0 {
      SmallerShareOfHigher(low, high, v);
    } else if low < high {
      SmallerDebtOfHigher(low, high, v);
    }
  }

  lemma DropAtMostAll(peak: real, v: real)
    requires peak > 0.0 && v >= 0.0
    ensures Drop(peak, v) <= 100.0
  {
    ShareBelow(peak, v);
    ShareNotNegative(v, peak);
  }

  // ---------------------------------------------------------------- the pass and the pairs

  /** No positive value up to the j-th falls further into it than the running peak does. */
  ghost predicate PeakIsWorst(values: seq<real>, j: nat)
    requires j < |values| && Peak(values, j + 1) > 0.0
  {
    forall i :: Falls(values, i, j) ==> Drop(values[i], values[j]) <= Drop(Peak(values, j + 1), values[j])
  }

  /** The positive values up to the j-th are all the same. */
  ghost predicate OnePositive(values: seq<real>, j: nat)
    requires j < |values|
  {
    forall i :: Falls(values, i, j) ==> values[i] == Peak(values, j + 1)
  }

  /** At each value after some positive one: the running peak sees the worst fall into it exactly when the
      value is not negative or the positive values up to it are all the same. */
  lemma PeakIsWorstExactlyWhen(values: seq<real>, j: nat)
    requires j < |values| && Peak(values, j + 1) > 0.0
    ensures PeakIsWorst(values, j) <==> values[j] >= 0.0 || OnePositive(values, j)
  {
    var peak, v := Peak(values, j + 1), values[j];
    forall i | Falls(values, i, j)
      ensures v >= 0.0 ==> Drop(values[i], v) <= Drop(peak, v)
      ensures v < 0.0 && values[i] != peak ==> Drop(values[i], v) > Drop(peak, v)
    {
      HigherPeakFallsFurther(values[i], peak, v);
    }
  }

  /** The result is nought or the fall between two values. */
  lemma {:induction false} DrawdownIsAFall(values: seq<real>, n: nat)
    requires n <= |values|
    ensures var r := MaxDrawdownTo(values, n);
      r > 0.0 ==> exists i, j :: Falls(values, i, j) && Drop(values[i], values[j]) == r
  {
    if n > 0 {
      DrawdownIsAFall(values, n - 1);
      var peak := Peak(values, n);
      var top :| 0 <= top < n && values[top] == peak;
      assert peak > 0.0 ==> Falls(values, top, n - 1);
    }
  }

  lemma {:induction false} EveryPeakCounts(values: seq<real>, n: nat, j: nat)
    requires j < n <= |values| && Peak(values, j + 1) > 0.0
    ensures Drop(Peak(values, j + 1), values[j]) <= MaxDrawdownTo(values, n)
  {
    if j < n - 1 {
      EveryPeakCounts(values, n - 1, j);
    }
  }

  /** Where every value is not negative, or preceded by equal positive values only, the result is the greatest
      percentage fall over all pairs of an earlier (or the same) and a later value. */
  lemma DrawdownIsGreatestFall(values: seq<real>)
    requires forall j: nat :: j < |values| ==> values[j] >= 0.0 || OnePositive(values, j)
    ensures forall i, j :: Falls(values, i, j) ==> Drop(values[i], values[j]) <= MaxDrawdown(values)
    ensures MaxDrawdown(values) > 0.0 ==>
      exists i, j :: Falls(values, i, j) && Drop(values[i], values[j]) == MaxDrawdown(values)
  {
    DrawdownIsAFall(values, |values|);
    forall i, j | Falls(values, i, j) ensures Drop(values[i], values[j]) <= MaxDrawdown(values) {
      assert Peak(values, j + 1) >= values[i] > 0.0;
      PeakIsWorstExactlyWhen(values, j);
      EveryPeakCounts(values, |values|, j);
    }
  }

  lemma {:induction false} AtMostAll(values: seq<real>, n: nat)
    requires n <= |values| && NotNegative(values)
    ensures MaxDrawdownTo(values, n) <= 100.0
  {
    if n > 0 {
      AtMostAll(values, n - 1);
      if Peak(values, n) > 0.0 {
        DropAtMostAll(Peak(values, n), values[n-1]);
      }
    }
  }

  /** With a negative value the pass can miss the greatest fall: of 1, 2 and -1 it makes 150 per cent,
      although -1 lies 200 per cent below 1. */
  lemma NegativeValuesHideFalls()
    ensures var values := [1.0, 2.0, -1.0];
      MaxDrawdown(values) == 150.0 && Falls(values, 0, 2) && Drop(values[0], values[2]) == 200.0
  {
    var values := [1.0, 2.0, -1.0];
    assert values[1] == 2.0;
    assert Peak(values, 1) == 1.0 && Peak(values, 2) == 2.0 && Peak(values, 3) == 2.0;
    assert MaxDrawdownTo(values, 0) == 0.0 && MaxDrawdownTo(values, 1) == 0.0 && MaxDrawdownTo(values, 2) == 0.0;
  }
}
