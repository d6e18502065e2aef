/**
 * The Tukey interquartile-range filter: the records whose value lies strictly
 * more than `k` interquartile ranges below the first quartile or above the
 * third, low outliers first, each group in input order.
 */
module Outlier {
  import opened Common
  import opened Series
  import opened Stats

  const DefaultOutlierThreshold: real := 1.5

  /**
   * The threshold `_run` passes on: an integer query parameter that is present
   * and non-zero is used as given; an absent or zero one (both falsy) leaves
   * the default 1.5 in force.
   */
  function ResolveThreshold(param: Option<int>): (k: real)
    ensures k != 0.0
    ensures param.Some? && param.value != 0 ==> k == param.value as real
    ensures param.None? || param.value == 0 ==> k == DefaultOutlierThreshold
  {
    match param
    case Some(n) => if n != 0 then n as real else DefaultOutlierThreshold
    case None => DefaultOutlierThreshold
  }

  function LowerQuartile(values: seq<real>): real
    requires |values| > 0
  {
    Percentile(values, 25.0)
  }

  function UpperQuartile(values: seq<real>): real
    requires |values| > 0
  {
    Percentile(values, 75.0)
  }

  /** The quartiles are ordered, so the interquartile range is never negative. */
  lemma QuartilesOrdered(values: seq<real>)
    requires |values| > 0
    ensures LowerQuartile(values) <= UpperQuartile(values)
  {
    SortPreservesLength(values);
    PercentileMonotone(Sort(values), 25.0, 75.0);
  }

  datatype Fences = Fences(low: real, high: real)

  /**
   * `q25 - k * iqr` and `q75 + k * iqr`; for ordered quartiles and a
   * non-negative `k` the fences enclose both quartiles.
   */
  function FencesAround(q25: real, q75: real, k: real): (f: Fences)
    ensures q25 <= q75 && k >= 0.0 ==> f.low <= q25 <= q75 <= f.high
    ensures q25 == q75 ==> f.low == q25 && f.high == q75
  {
    var iqr := q75 - q25;
    if q25 <= q75 && k >= 0.0 then MulNonnegative(k, iqr); Fences(q25 - k * iqr, q75 + k * iqr)
    else Fences(q25 - k * iqr, q75 + k * iqr)
  }

  function TukeyFences(values: seq<real>, k: real): Fences
    requires |values| > 0
  {
    FencesAround(LowerQuartile(values), UpperQuartile(values), k)
  }

  /** For `k >= 0`: `low <= q25 <= q75 <= high`. */
  lemma FencesOrdered(values: seq<real>, k: real)
    requires |values| > 0 && k >= 0.0
    ensures var f := TukeyFences(values, k);
      f.low <= LowerQuartile(values) <= UpperQuartile(values) <= f.high
  {
    QuartilesOrdered(values);
  }

  /** Whether a value lies strictly outside the fences. */
  predicate IsOutlier(x: real, f: Fences) {
    x < f.low || x > f.high
  }

  /** Positions below the low fence, then positions above the high fence. */
  function OutlierPositions(values: seq<real>, f: Fences): (idx: seq<nat>)
    ensures forall j :: 0 <= j < |idx| ==> idx[j] < |values|
  {
    Where(values, Below, f.low) + Where(values, Above, f.high)
  }

  /** The whole records whose value in column `vidx` lies outside the fences. */
  function Beyond(ts: TimeSeries, vidx: nat, f: Fences): (out: TimeSeries)
    requires HasColumn(ts, vidx)
  {
    Gather(ts, OutlierPositions(Column(ts, vidx), f))
  }

  /** `Tukey._work`: the records beyond the Tukey fences of the value column. */
  function TukeyWork(ts: TimeSeries, vidx: nat, k: real): (out: TimeSeries)
    requires |ts| > 0 && HasColumn(ts, vidx)
  {
    Beyond(ts, vidx, TukeyFences(Column(ts, vidx), k))
  }

  /** `Tukey._run`: `_work` at the resolved threshold. */
  function TukeyRun(ts: TimeSeries, vidx: nat, param: Option<int>): (out: TimeSeries)
    requires |ts| > 0 && HasColumn(ts, vidx)
  {
    TukeyWork(ts, vidx, ResolveThreshold(param))
  }

  /** Every returned record is an input record whose value lies outside the fences. */
  lemma BeyondReturnsOnlyOutliers(ts: TimeSeries, vidx: nat, f: Fences)
    requires HasColumn(ts, vidx)
    ensures forall r :: r in Beyond(ts, vidx, f) ==> r in ts && vidx < |r| && IsOutlier(r[vidx], f)
  {
    var values := Column(ts, vidx);
    var lows, highs := Where(values, Below, f.low), Where(values, Above, f.high);
    var out := Beyond(ts, vidx, f);
    forall r | r in out
      ensures r in ts && vidx < |r| && IsOutlier(r[vidx], f)
    {
      var j :| 0 <= j < |out| && out[j] == r;
      if j < |lows| {
        assert r == ts[lows[j]] && Outside(values[lows[j]], Below, f.low);
      } else {
        assert r == ts[highs[j - |lows|]] && Outside(values[highs[j - |lows|]], Above, f.high);
      }
    }
  }

  /** Every input record whose value lies outside the fences is returned. */
  lemma BeyondReturnsEveryOutlier(ts: TimeSeries, vidx: nat, f: Fences)
    requires HasColumn(ts, vidx)
    ensures forall i :: 0 <= i < |ts| && IsOutlier(ts[i][vidx], f) ==> ts[i] in Beyond(ts, vidx, f)
  {
    var values := Column(ts, vidx);
    var lows, highs := Where(values, Below, f.low), Where(values, Above, f.high);
    var out := Beyond(ts, vidx, f);
    forall i | 0 <= i < |ts| && IsOutlier(ts[i][vidx], f)
      ensures ts[i] in out
    {
      if values[i] < f.low {
        assert Outside(values[i], Below, f.low);
        var j :| 0 <= j < |lows| && lows[j] == i;
        assert out[j] == ts[i];
      } else {
        assert Outside(values[i], Above, f.high);
        var j :| 0 <= j < |highs| && highs[j] == i;
        assert out[|lows| + j] == ts[i];
      }
    }
  }

  /**
   * The output is the low outliers in input order followed by the high
   * outliers in input order: `lows` and `highs` are the increasing positions
   * of each group.
   */
  lemma BeyondOrder(ts: TimeSeries, vidx: nat, f: Fences) returns (lows: seq<nat>, highs: seq<nat>)
    requires HasColumn(ts, vidx)
    ensures Increasing(lows) && Increasing(highs)
    ensures forall j :: 0 <= j < |lows| ==> lows[j] < |ts| && ts[lows[j]][vidx] < f.low
    ensures forall j :: 0 <= j < |highs| ==> highs[j] < |ts| && ts[highs[j]][vidx] > f.high
    ensures forall i :: 0 <= i < |ts| && Outside(ts[i][vidx], Below, f.low) ==> i in lows
    ensures forall i :: 0 <= i < |ts| && Outside(ts[i][vidx], Above, f.high) ==> i in highs
    ensures Beyond(ts, vidx, f) == Gather(ts, lows) + Gather(ts, highs)
  {
    var values := Column(ts, vidx);
    lows, highs := Where(values, Below, f.low), Where(values, Above, f.high);
    assert forall j :: 0 <= j < |lows| ==> Outside(values[lows[j]], Below, f.low);
    assert forall j :: 0 <= j < |highs| ==> Outside(values[highs[j]], Above, f.high);
    WhereColumnComplete(ts, vidx, Below, f.low);
    WhereColumnComplete(ts, vidx, Above, f.high);
  }

  /** Every record whose value lies beyond `bound` on `side` has its position selected. */
  lemma WhereColumnComplete(ts: TimeSeries, vidx: nat, side: Side, bound: real)
    requires HasColumn(ts, vidx)
    ensures forall i :: 0 <= i < |ts| && Outside(ts[i][vidx], side, bound) ==> i in Where(Column(ts, vidx), side, bound)
  {
    var values := Column(ts, vidx);
    forall i | 0 <= i < |ts| && Outside(ts[i][vidx], side, bound) ensures i in Where(values, side, bound) {
      assert values[i] == ts[i][vidx];
    }
  }

  /**
   * With fences that do not cross, no position is selected twice and at most
   * every record is returned.
   */
  lemma BeyondNoDuplicates(ts: TimeSeries, vidx: nat, f: Fences)
    requires HasColumn(ts, vidx) && f.low <= f.high
    ensures var idx := OutlierPositions(Column(ts, vidx), f);
      forall a, b :: 0 <= a < b < |idx| ==> idx[a] != idx[b]
    ensures |Beyond(ts, vidx, f)| <= |ts|
  {
    var values := Column(ts, vidx);
    var lows, highs := Where(values, Below, f.low), Where(values, Above, f.high);
    var idx := lows + highs;
    forall a, b | 0 <= a < b < |idx|
      ensures idx[a] != idx[b]
    {
      if b < |lows| {
        assert idx[a] < idx[b];
      } else if a >= |lows| {
        assert highs[a - |lows|] < highs[b - |lows|];
      } else {
        assert Outside(values[idx[a]], Below, f.low);
        assert Outside(values[idx[b]], Above, f.high);
      }
    }
    WhereSidesCount(values, f.low, f.high);
  }

  /** Where the fences do not cross, no value is counted on both sides. */
  lemma {:induction false} WhereSidesCount(xs: seq<real>, low: real, high: real)
    requires low <= high
    ensures |Where(xs, Below, low)| + |Where(xs, Above, high)| <= |xs|
  {
    if xs != [] {
      WhereSidesCount(xs[..|xs| - 1], low, high);
    }
  }

  /**
   * `Tukey._work` returns exactly the input records outside the Tukey fences,
   * and for `k >= 0` it returns no position twice and at most `|ts|` records.
   */
  lemma TukeySelectsOutliers(ts: TimeSeries, vidx: nat, k: real, f: Fences)
    requires |ts| > 0 && HasColumn(ts, vidx) && f == TukeyFences(Column(ts, vidx), k)
    ensures forall r :: r in TukeyWork(ts, vidx, k) <==> r in ts && vidx < |r| && IsOutlier(r[vidx], f)
    ensures k >= 0.0 ==> |TukeyWork(ts, vidx, k)| <= |ts|
  {
    BeyondReturnsOnlyOutliers(ts, vidx, f);
    BeyondReturnsEveryOutlier(ts, vidx, f);
    if k >= 0.0 {
      FencesOrdered(Column(ts, vidx), k);
      BeyondNoDuplicates(ts, vidx, f);
    }
  }

  /** A constant series has no outliers: its interquartile range is zero. */
  lemma TukeyQuietOnConstant(ts: TimeSeries, vidx: nat, k: real, c: real)
    requires |ts| > 0 && HasColumn(ts, vidx) && Constant(Column(ts, vidx), c)
    ensures TukeyWork(ts, vidx, k) == []
  {
    var values := Column(ts, vidx);
    PercentileOfConstant(values, c, 25.0);
    PercentileOfConstant(values, c, 75.0);
    var f := TukeyFences(values, k);
    assert f.low == c && f.high == c;
    WhereNone(values, Below, f.low);
    WhereNone(values, Above, f.high);
  }

  /** A zero threshold parameter behaves exactly like an absent one. */
  lemma TukeyRunZeroIsDefault(ts: TimeSeries, vidx: nat)
    requires |ts| > 0 && HasColumn(ts, vidx)
    ensures TukeyRun(ts, vidx, Some(0)) == TukeyRun(ts, vidx, None)
      == TukeyWork(ts, vidx, DefaultOutlierThreshold)
  {
  }

  /**
   * The filter selects the same records whichever backend layout the series
   * arrives in: on the Graphite layout (value first) it returns the mirror of
   * what it returns on the InfluxDB layout (value second).
   */
  lemma TukeyAgreesAcrossLayouts(ts: TimeSeries, k: real)
    requires |ts| > 0 && Pairs(ts)
    ensures HasColumn(ts, 1) && HasColumn(SwapColumns(ts), 0)
    ensures Pairs(TukeyWork(ts, 1, k))
    ensures TukeyWork(SwapColumns(ts), 0, k) == SwapColumns(TukeyWork(ts, 1, k))
  {
    SwapColumnsMirrors(ts);
    var swapped := SwapColumns(ts);
    assert HasColumn(swapped, 0) by {
      SwapColumnsMirrors(swapped);
    }
    var idx := OutlierPositions(Column(ts, 1), TukeyFences(Column(ts, 1), k));
    var out := TukeyWork(ts, 1, k);
    assert Pairs(out);
    var mirrored := TukeyWork(swapped, 0, k);
    assert |mirrored| == |SwapColumns(out)|;
    forall j | 0 <= j < |out|
      ensures mirrored[j] == SwapColumns(out)[j]
    {
    }
  }
}
