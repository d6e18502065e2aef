/**
 * The Skyline detectors over exact reals. A standard-deviation test
 * `|d| > 3 * std` is decided as `d * d > 9 * variance`, which needs no square
 * root; ThreeSigmaSquared shows the two agree. pandas' sample std of fewer than
 * two values is NaN, and every comparison with NaN is false, so those
 * detectors answer false there.
 */
module Skyline {
  import opened Series
  import opened Stats
  import opened Utils
  import Backend

  /** `|d| > 3 * sqrt(variance)`, squared. */
  predicate BeyondThreeSigma(d: real, variance: real) {
    d * d > 9.0 * variance
  }

  lemma SquareStrictlyMonotone(a: real, b: real)
    requires 0.0 <= b < a
    ensures b * b < a * a
  {
    assert a * a - b * b == (a - b) * (a + b);
    MulPositive(a - b, a + b);
  }

  /** For any square root `s` of the variance, the squared test is the source's test on `s`. */
  lemma ThreeSigmaSquared(d: real, s: real, variance: real)
    requires s >= 0.0 && s * s == variance
    ensures BeyondThreeSigma(d, variance) <==> Abs(d) > 3.0 * s
  {
    var a, b := Abs(d), 3.0 * s;
    assert d * d == a * a;
    assert 9.0 * variance == b * b;
    if a > b {
      SquareStrictlyMonotone(a, b);
    } else if a < b {
      SquareStrictlyMonotone(b, a);
    }
  }

  // ---------------------------------------------------------------- MedianAbsoluteDeviation

  const DefaultDeviationThreshold: real := 6.0

  /** `np.abs(series - median)`. */
  function AbsDeviations(xs: seq<real>, m: real): (d: seq<real>)
    ensures |d| == |xs|
  {
    if xs == [] then [] else [Abs(xs[0] - m)] + AbsDeviations(xs[1..], m)
  }

  /** Each entry is the distance of the matching value from `m`. */
  lemma {:induction false} AbsDeviationsAt(xs: seq<real>, m: real)
    ensures forall i :: 0 <= i < |xs| ==> AbsDeviations(xs, m)[i] == Abs(xs[i] - m)
  {
    if xs != [] {
      AbsDeviationsAt(xs[1..], m);
      forall i | 0 < i < |xs|
        ensures AbsDeviations(xs, m)[i] == Abs(xs[i] - m)
      {
        assert AbsDeviations(xs, m)[i] == AbsDeviations(xs[1..], m)[i - 1];
      }
    }
  }

  /** The median of the absolute deviations from the median. */
  function MedianDeviation(values: seq<real>): real
    requires |values| > 0
  {
    Median(AbsDeviations(values, Median(values)))
  }

  /** How far the last value lies from the median. */
  function LastDistance(values: seq<real>): real
    requires |values| > 0
  {
    Abs(values[|values| - 1] - Median(values))
  }

  /**
   * `distance / spread > threshold`, answering false without dividing when
   * the spread is zero.
   */
  function Exceeds(distance: real, spread: real, threshold: real): bool {
    if spread == 0.0 then false else distance / spread > threshold
  }

  /** For a positive spread the quotient test is the product test. */
  lemma ExceedsVerdict(distance: real, spread: real, threshold: real)
    requires spread > 0.0
    ensures Exceeds(distance, spread, threshold) <==> distance > threshold * spread
  {
    DivisionThreshold(distance, spread, threshold);
  }

  /** Exceeding a threshold means exceeding every smaller one. */
  lemma ExceedsMonotone(distance: real, spread: real, lower: real, higher: real)
    requires spread >= 0.0 && lower <= higher
    ensures Exceeds(distance, spread, higher) ==> Exceeds(distance, spread, lower)
  {
  }

  /**
   * The test of `MedianAbsoluteDeviation._work` on the value column: anomalous
   * when the last value's distance from the median, divided by the median
   * deviation, exceeds the threshold; a zero median deviation answers false
   * without dividing.
   */
  function MadTest(values: seq<real>, deviationThreshold: real): bool
    requires |values| > 0
  {
    Exceeds(LastDistance(values), MedianDeviation(values), deviationThreshold)
  }

  /** `MedianAbsoluteDeviation._work` over the series' value column. */
  function MedianAbsoluteDeviation(ts: TimeSeries, deviationThreshold: real, vidx: nat): bool
    requires |ts| > 0 && HasColumn(ts, vidx)
  {
    MadTest(Column(ts, vidx), deviationThreshold)
  }

  /** Absolute deviations are never negative, so neither is their median. */
  lemma MedianDeviationNonnegative(values: seq<real>)
    requires |values| > 0
    ensures MedianDeviation(values) >= 0.0
  {
    AbsDeviationsAt(values, Median(values));
    MedianNonnegative(AbsDeviations(values, Median(values)));
  }

  /** With a zero median deviation the detector is quiet at every threshold. */
  lemma MadQuietWhenDeviationZero(ts: TimeSeries, deviationThreshold: real, vidx: nat)
    requires |ts| > 0 && HasColumn(ts, vidx) && MedianDeviation(Column(ts, vidx)) == 0.0
    ensures !MedianAbsoluteDeviation(ts, deviationThreshold, vidx)
  {
  }

  /**
   * Otherwise it fires exactly when the last value lies strictly more than
   * `deviationThreshold` median deviations (`spread`) away from the median.
   */
  lemma MadVerdict(ts: TimeSeries, deviationThreshold: real, vidx: nat, spread: real)
    requires |ts| > 0 && HasColumn(ts, vidx)
    requires spread == MedianDeviation(Column(ts, vidx)) && spread != 0.0
    ensures MedianAbsoluteDeviation(ts, deviationThreshold, vidx)
      <==> LastDistance(Column(ts, vidx)) > deviationThreshold * spread
  {
    MadTestVerdict(Column(ts, vidx), deviationThreshold, spread);
  }

  lemma MadTestVerdict(values: seq<real>, deviationThreshold: real, spread: real)
    requires |values| > 0 && spread == MedianDeviation(values) && spread != 0.0
    ensures MadTest(values, deviationThreshold) <==> LastDistance(values) > deviationThreshold * spread
  {
    MedianDeviationNonnegative(values);
    ExceedsVerdict(LastDistance(values), spread, deviationThreshold);
  }

  /** A verdict at one threshold holds at every smaller threshold. */
  lemma MadMonotoneInThreshold(ts: TimeSeries, lower: real, higher: real, vidx: nat)
    requires |ts| > 0 && HasColumn(ts, vidx) && lower <= higher
    ensures MedianAbsoluteDeviation(ts, higher, vidx) ==> MedianAbsoluteDeviation(ts, lower, vidx)
  {
    MedianDeviationNonnegative(Column(ts, vidx));
    ExceedsMonotone(LastDistance(Column(ts, vidx)), MedianDeviation(Column(ts, vidx)), lower, higher);
  }

  /** A constant series is never anomalous: its median deviation is zero. */
  lemma MadQuietOnConstant(ts: TimeSeries, deviationThreshold: real, vidx: nat, c: real)
    requires |ts| > 0 && HasColumn(ts, vidx) && Constant(Column(ts, vidx), c)
    ensures !MedianAbsoluteDeviation(ts, deviationThreshold, vidx)
  {
    var values := Column(ts, vidx);
    MedianOfConstant(values, c);
    AbsDeviationsAt(values, c);
    MedianOfConstant(AbsDeviations(values, c), 0.0);
    assert MedianDeviation(values) == 0.0;
  }

  /**
   * Four equal values and one far outlier: the median deviation is zero, so
   * the guard answers false even though the last point is clearly anomalous.
   */
  lemma MadBlindSpot()
    ensures !MedianAbsoluteDeviation([[1.0, 10.0], [2.0, 10.0], [3.0, 10.0], [4.0, 10.0], [5.0, 100.0]],
                                     DefaultDeviationThreshold, 1)
  {
    var ts: TimeSeries := [[1.0, 10.0], [2.0, 10.0], [3.0, 10.0], [4.0, 10.0], [5.0, 100.0]];
    var values := Column(ts, 1);
    assert values == [10.0, 10.0, 10.0, 10.0, 100.0];
    BlindSpotMedians();
    MadQuietWhenDeviationZero(ts, DefaultDeviationThreshold, 1);
  }

  lemma BlindSpotMedians()
    ensures MedianDeviation([10.0, 10.0, 10.0, 10.0, 100.0]) == 0.0
  {
    var values := [10.0, 10.0, 10.0, 10.0, 100.0];
    MedianOfSortedLiteral(values);
    assert Median(values) == 10.0;
    BlindSpotDeviations();
    MedianOfSortedLiteral([0.0, 0.0, 0.0, 0.0, 90.0]);
  }

  /** The absolute deviations of the blind-spot values from their median 10. */
  lemma BlindSpotDeviations()
    ensures AbsDeviations([10.0, 10.0, 10.0, 10.0, 100.0], 10.0) == [0.0, 0.0, 0.0, 0.0, 90.0]
  {
    var values := [10.0, 10.0, 10.0, 10.0, 100.0];
    AbsDeviationsAt(values, 10.0);
  }

  /** The median of five sorted values is the third. */
  lemma MedianOfSortedLiteral(s: seq<real>)
    requires |s| == 5 && s[0] <= s[1] <= s[2] <= s[3] <= s[4]
    ensures Median(s) == s[2]
  {
    assert Sorted(s);
    SortOfSorted(s);
  }

  // ---------------------------------------------------------------- StddevFromAverage

  /**
   * Whether `tail` lies more than three sample standard deviations from the
   * mean of `values`; false for fewer than two values, where pandas' std is NaN.
   */
  function ThreeSigmaTest(tail: real, values: seq<real>): bool {
    if |values| < 2 then false
    else BeyondThreeSigma(tail - Mean(values), SampleVariance(values))
  }

  /**
   * `StddevFromAverage._work` with the tail average taken over the series'
   * own value column, against the mean and std of all values.
   */
  function StddevFromAverage(ts: TimeSeries, vidx: nat): bool
    requires |ts| > 0 && HasColumn(ts, vidx)
  {
    ThreeSigmaTest(TailAvg(ts, vidx), Column(ts, vidx))
  }

  /**
   * `StddevFromAverage._work` as written: the tail average is requested with
   * the default indices, so it always reads column 1, whatever `vidx` is.
   */
  function StddevFromAverageAsWritten(ts: TimeSeries, vidx: nat): bool
    requires |ts| > 0 && HasColumn(ts, vidx) && 1 < |ts[|ts| - 1]|
  {
    ThreeSigmaTest(TailAvg(ts, 1), Column(ts, vidx))
  }

  /** With a square root `s` of the sample variance, the verdict is `|tail - mean| > 3 * s`. */
  lemma StddevFromAverageVerdict(ts: TimeSeries, vidx: nat, s: real)
    requires |ts| >= 2 && HasColumn(ts, vidx)
    requires s >= 0.0 && s * s == SampleVariance(Column(ts, vidx))
    ensures StddevFromAverage(ts, vidx) <==> Abs(TailAvg(ts, vidx) - Mean(Column(ts, vidx))) > 3.0 * s
  {
    ThreeSigmaSquared(TailAvg(ts, vidx) - Mean(Column(ts, vidx)), s, SampleVariance(Column(ts, vidx)));
  }

  /** A constant series, and a single observation, are never anomalous. */
  lemma StddevFromAverageQuietOnConstant(ts: TimeSeries, vidx: nat, c: real)
    requires |ts| > 0 && HasColumn(ts, vidx)
    requires |ts| == 1 || Constant(Column(ts, vidx), c)
    ensures !StddevFromAverage(ts, vidx)
  {
    if |ts| >= 2 {
      ConstantColumnTail(ts, vidx, c);
      TailAvgOfConstant(ts, vidx, c);
      MeanOfConstant(Column(ts, vidx), c);
      SampleVarianceOfConstant(Column(ts, vidx), c);
    }
  }

  /** The verdict depends on the value column only: other columns, time included, do not matter. */
  lemma StddevFromAverageReadsValueColumn(ts: TimeSeries, us: TimeSeries, vidx: nat)
    requires |ts| > 0 && HasColumn(ts, vidx) && HasColumn(us, vidx)
    requires Column(ts, vidx) == Column(us, vidx)
    ensures |us| > 0 && StddevFromAverage(ts, vidx) == StddevFromAverage(us, vidx)
  {
    assert |us| == |Column(us, vidx)|;
    forall i | |ts| - 3 <= i < |ts| && 0 <= i ensures ts[i][vidx] == us[i][vidx] {
      assert Column(ts, vidx)[i] == Column(us, vidx)[i];
    }
    TailAvgReadsOnlyTail(ts, us, vidx);
  }

  /**
   * As written, a Graphite-layout series (value in column 0, time in column 1)
   * has its timestamps averaged as the tail: values 1, 2, 3 at times 100, 200,
   * 300 are flagged, though the tail of the values equals their mean.
   */
  lemma StddevFromAverageAsWrittenReadsTimestamps()
    ensures StddevFromAverageAsWritten([[1.0, 100.0], [2.0, 200.0], [3.0, 300.0]], 0)
    ensures !StddevFromAverage([[1.0, 100.0], [2.0, 200.0], [3.0, 300.0]], 0)
  {
    var ts: TimeSeries := [[1.0, 100.0], [2.0, 200.0], [3.0, 300.0]];
    var values := Column(ts, 0);
    assert values == [1.0, 2.0, 3.0];
    SumOfThree(1.0, 2.0, 3.0);
    assert Mean(values) == 2.0;
    SquaredDeviationsOfThree(1.0, 2.0, 3.0, 2.0);
    assert SquaredDeviations(values, 2.0) == 2.0;
    assert SampleVariance(values) == 1.0;
    assert TailAvg(ts, 0) == 2.0;
    assert TailAvg(ts, 1) == 200.0;
  }

  // ---------------------------------------------------------------- FirstHourAverage

  /** Records stamped before `now - (fullDuration - 3600)` form the first-hour baseline. */
  function BaselineCutoff(now: real, fullDuration: int): real {
    now - (fullDuration - 3600) as real
  }

  /**
   * The comprehension `[x[vidx] for x in ts if x[tidx] < cutoff]` reads the
   * time of every record but the value only of the records it keeps.
   */
  predicate BaselineCarriesValue(ts: TimeSeries, tidx: nat, vidx: nat, cutoff: real)
    requires HasColumn(ts, tidx)
  {
    forall i :: 0 <= i < |ts| && ts[i][tidx] < cutoff ==> vidx < |ts[i]|
  }

  /** `[x[vidx] for x in ts if x[tidx] < cutoff]`. */
  function FirstHourBaseline(ts: TimeSeries, tidx: nat, vidx: nat, cutoff: real): seq<real>
    requires HasColumn(ts, tidx) && BaselineCarriesValue(ts, tidx, vidx, cutoff)
  {
    var idx := Where(Column(ts, tidx), Below, cutoff);
    seq(|idx|, k requires 0 <= k < |idx| => ts[idx[k]][vidx])
  }

  /**
   * `FirstHourAverage._work`, with the clock reading `now` passed in:
   * anomalous when the tail average lies more than three sample standard
   * deviations from the baseline mean. Records after the cutoff need no value
   * column, except the last one, which the tail average always reads.
   */
  function FirstHourAverage(ts: TimeSeries, tidx: nat, vidx: nat, fullDuration: int, now: real): bool
    requires |ts| > 0 && HasColumn(ts, tidx) && vidx < |ts[|ts| - 1]|
    requires BaselineCarriesValue(ts, tidx, vidx, BaselineCutoff(now, fullDuration))
  {
    ThreeSigmaTest(TailAvg(ts, vidx), FirstHourBaseline(ts, tidx, vidx, BaselineCutoff(now, fullDuration)))
  }

  /**
   * The baseline is exactly the values of the records stamped before the
   * cutoff, in series order: `idx` lists those records' positions.
   */
  lemma FirstHourBaselineExact(ts: TimeSeries, tidx: nat, vidx: nat, cutoff: real) returns (idx: seq<nat>)
    requires HasColumn(ts, tidx) && BaselineCarriesValue(ts, tidx, vidx, cutoff)
    ensures Increasing(idx) && |FirstHourBaseline(ts, tidx, vidx, cutoff)| == |idx|
    ensures forall k :: 0 <= k < |idx| ==>
              && idx[k] < |ts| && ts[idx[k]][tidx] < cutoff && vidx < |ts[idx[k]]|
              && FirstHourBaseline(ts, tidx, vidx, cutoff)[k] == ts[idx[k]][vidx]
    ensures forall i :: 0 <= i < |ts| && ts[i][tidx] < cutoff ==> i in idx
  {
    var times := Column(ts, tidx);
    idx := Where(times, Below, cutoff);
    forall i | 0 <= i < |ts| && ts[i][tidx] < cutoff ensures i in idx {
      assert Outside(times[i], Below, cutoff);
    }
  }

  /** With a square root `s` of the baseline variance, the verdict is `|tail - mean| > 3 * s`. */
  lemma FirstHourAverageVerdict(ts: TimeSeries, tidx: nat, vidx: nat, fullDuration: int, now: real, s: real)
    requires |ts| > 0 && HasColumn(ts, tidx) && vidx < |ts[|ts| - 1]|
    requires BaselineCarriesValue(ts, tidx, vidx, BaselineCutoff(now, fullDuration))
    requires var b := FirstHourBaseline(ts, tidx, vidx, BaselineCutoff(now, fullDuration));
      |b| >= 2 && s >= 0.0 && s * s == SampleVariance(b)
    ensures var b := FirstHourBaseline(ts, tidx, vidx, BaselineCutoff(now, fullDuration));
      FirstHourAverage(ts, tidx, vidx, fullDuration, now) <==> Abs(TailAvg(ts, vidx) - Mean(b)) > 3.0 * s
  {
    var b := FirstHourBaseline(ts, tidx, vidx, BaselineCutoff(now, fullDuration));
    ThreeSigmaSquared(TailAvg(ts, vidx) - Mean(b), s, SampleVariance(b));
  }

  /** A constant value column gives a constant baseline, whatever the cutoff. */
  lemma BaselineOfConstant(ts: TimeSeries, tidx: nat, vidx: nat, cutoff: real, c: real)
    requires HasColumn(ts, tidx) && HasColumn(ts, vidx) && Constant(Column(ts, vidx), c)
    ensures BaselineCarriesValue(ts, tidx, vidx, cutoff)
    ensures Constant(FirstHourBaseline(ts, tidx, vidx, cutoff), c)
  {
    var b := FirstHourBaseline(ts, tidx, vidx, cutoff);
    var idx := FirstHourBaselineExact(ts, tidx, vidx, cutoff);
    forall k | 0 <= k < |b| ensures b[k] == c {
      assert b[k] == Column(ts, vidx)[idx[k]];
    }
  }

  /** A constant value column is never anomalous, whatever the timestamps and the clock. */
  lemma FirstHourAverageQuietOnConstant(ts: TimeSeries, tidx: nat, vidx: nat, fullDuration: int, now: real, c: real)
    requires |ts| > 0 && HasColumn(ts, tidx) && HasColumn(ts, vidx) && Constant(Column(ts, vidx), c)
    ensures BaselineCarriesValue(ts, tidx, vidx, BaselineCutoff(now, fullDuration))
    ensures !FirstHourAverage(ts, tidx, vidx, fullDuration, now)
  {
    var cutoff := BaselineCutoff(now, fullDuration);
    BaselineOfConstant(ts, tidx, vidx, cutoff, c);
    var b := FirstHourBaseline(ts, tidx, vidx, cutoff);
    if |b| >= 2 {
      ConstantColumnTail(ts, vidx, c);
      TailAvgOfConstant(ts, vidx, c);
      MeanOfConstant(b, c);
      SampleVarianceOfConstant(b, c);
    }
  }

  // ---------------------------------------------------------------- backend layouts

  /** The first-hour baseline reads the same values from both layouts. */
  lemma BaselineAcrossLayouts(ts: TimeSeries, cutoff: real)
    requires Pairs(ts)
    ensures BaselineCarriesValue(ts, 0, 1, cutoff) && BaselineCarriesValue(SwapColumns(ts), 1, 0, cutoff)
    ensures FirstHourBaseline(ts, 0, 1, cutoff) == FirstHourBaseline(SwapColumns(ts), 1, 0, cutoff)
  {
    SwapColumnsMirrors(ts);
    var gs := SwapColumns(ts);
    var idx := Where(Column(ts, 0), Below, cutoff);
    var a, b := FirstHourBaseline(ts, 0, 1, cutoff), FirstHourBaseline(gs, 1, 0, cutoff);
    assert |a| == |b| == |idx|;
    forall k | 0 <= k < |idx| ensures a[k] == b[k] {
      assert a[k] == Column(ts, 1)[idx[k]] && b[k] == Column(gs, 0)[idx[k]];
    }
  }

  /** The tail average reads the same values from both layouts. */
  lemma TailAvgAcrossLayouts(ts: TimeSeries)
    requires |ts| > 0 && Pairs(ts)
    ensures |SwapColumns(ts)| == |ts| && |SwapColumns(ts)[|ts| - 1]| == 2
    ensures TailAvg(ts, 1) == TailAvg(SwapColumns(ts), 0)
  {
    SwapColumnsMirrors(ts);
    var gs := SwapColumns(ts);
    var n := |ts|;
    assert gs[n - 1][0] == ts[n - 1][1];
    if n >= 3 {
      assert gs[n - 2][0] == ts[n - 2][1] && gs[n - 3][0] == ts[n - 3][1];
    }
  }

  /**
   * InfluxDB rows are (time, value) and Graphite rows (value, time). Given the
   * same observations in each layout and each adapter's own indices, every
   * detector reads the same values and reaches the same verdict.
   */
  lemma DetectorsAgreeAcrossLayouts(ts: TimeSeries, deviationThreshold: real, fullDuration: int, now: real)
    requires |ts| > 0 && Pairs(ts)
    ensures var (it, iv) := Backend.Indices(Backend.InfluxDb);
      var (gt, gv) := Backend.Indices(Backend.Graphite);
      var gs := SwapColumns(ts);
      && TailAvg(ts, iv) == TailAvg(gs, gv)
      && MedianAbsoluteDeviation(ts, deviationThreshold, iv) == MedianAbsoluteDeviation(gs, deviationThreshold, gv)
      && StddevFromAverage(ts, iv) == StddevFromAverage(gs, gv)
      && FirstHourAverage(ts, it, iv, fullDuration, now) == FirstHourAverage(gs, gt, gv, fullDuration, now)
  {
    SwapColumnsMirrors(ts);
    var gs := SwapColumns(ts);
    BaselineAcrossLayouts(ts, BaselineCutoff(now, fullDuration));
    TailAvgAcrossLayouts(ts);
  }
}
