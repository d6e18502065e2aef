/**
 * The numeric reductions the detectors take from pandas and numpy, over exact
 * reals: sum, mean, sample variance (divisor n - 1, pandas' default), median
 * (middle of the sorted values, or the mean of the two middles) and numpy's
 * linearly interpolated percentile.
 */
module Stats {

  lemma MulNonnegative(a: real, b: real)
    requires a >= 0.0 && b >= 0.0
    ensures a * b >= 0.0
  {
  }

  lemma MulPositive(a: real, b: real)
    requires a > 0.0 && b > 0.0
    ensures a * b > 0.0
  {
  }

  /** Dividing by a positive amount and comparing is comparing with the product. */
  lemma DivisionThreshold(x: real, d: real, t: real)
    requires d > 0.0
    ensures x / d > t <==> x > t * d
  {
    assert (x / d) * d == x;
    if x / d > t {
      MulPositive(x / d - t, d);
      assert (x / d - t) * d == x - t * d;
    } else {
      MulNonnegative(t - x / d, d);
      assert (t - x / d) * d == t * d - x;
    }
  }

  function Abs(x: real): (r: real)
    ensures r >= 0.0 && (r == x || r == -x)
  {
    if x < 0.0 then -x else x
  }

  function Sum(xs: seq<real>): real {
    if xs == [] then 0.0 else xs[0] + Sum(xs[1..])
  }

  function Mean(xs: seq<real>): real
    requires |xs| > 0
  {
    Sum(xs) / |xs| as real
  }

  lemma SumOfThree(a: real, b: real, c: real)
    ensures Sum([a, b, c]) == a + b + c
  {
    assert [a, b, c][1..] == [b, c];
    assert [b, c][1..] == [c];
    assert [c][1..] == [];
    assert Sum([c]) == c + Sum([]);
    assert Sum([b, c]) == b + Sum([c]);
    assert Sum([a, b, c]) == a + Sum([b, c]);
  }

  lemma SquaredDeviationsOfThree(a: real, b: real, c: real, m: real)
    ensures SquaredDeviations([a, b, c], m) == (a - m) * (a - m) + (b - m) * (b - m) + (c - m) * (c - m)
  {
    assert [a, b, c][1..] == [b, c];
    assert [b, c][1..] == [c];
    assert [c][1..] == [];
    assert SquaredDeviations([c], m) == (c - m) * (c - m) + SquaredDeviations([], m);
    assert SquaredDeviations([b, c], m) == (b - m) * (b - m) + SquaredDeviations([c], m);
    assert SquaredDeviations([a, b, c], m) == (a - m) * (a - m) + SquaredDeviations([b, c], m);
  }

  /** Sum of squared distances of the values from `m`. */
  function SquaredDeviations(xs: seq<real>, m: real): real {
    if xs == [] then 0.0 else (xs[0] - m) * (xs[0] - m) + SquaredDeviations(xs[1..], m)
  }

  /** Sample variance, the square of pandas' `Series.std()` (divisor n - 1). */
  function SampleVariance(xs: seq<real>): real
    requires |xs| >= 2
  {
    SquaredDeviations(xs, Mean(xs)) / (|xs| - 1) as real
  }

  /** Every value of `xs` equals `c`. */
  predicate Constant(xs: seq<real>, c: real) {
    forall i :: 0 <= i < |xs| ==> xs[i] == c
  }

  lemma {:induction false} SumOfConstant(xs: seq<real>, c: real)
    requires Constant(xs, c)
    ensures Sum(xs) == |xs| as real * c
  {
    if xs != [] {
      SumOfConstant(xs[1..], c);
    }
  }

  /** The mean of a constant series is that constant. */
  lemma MeanOfConstant(xs: seq<real>, c: real)
    requires |xs| > 0 && Constant(xs, c)
    ensures Mean(xs) == c
  {
    SumOfConstant(xs, c);
  }

  lemma {:induction false} SquaredDeviationsNonnegative(xs: seq<real>, m: real)
    ensures SquaredDeviations(xs, m) >= 0.0
  {
    if xs != [] {
      var d := xs[0] - m;
      MulNonnegative(Abs(d), Abs(d));
      assert d * d == Abs(d) * Abs(d);
      SquaredDeviationsNonnegative(xs[1..], m);
    }
  }

  lemma {:induction false} SquaredDeviationsOfConstant(xs: seq<real>, c: real)
    requires Constant(xs, c)
    ensures SquaredDeviations(xs, c) == 0.0
  {
    if xs != [] {
      SquaredDeviationsOfConstant(xs[1..], c);
    }
  }

  /** The sample variance is never negative, so it has a real square root (the std). */
  lemma SampleVarianceNonnegative(xs: seq<real>)
    requires |xs| >= 2
    ensures SampleVariance(xs) >= 0.0
  {
    SquaredDeviationsNonnegative(xs, Mean(xs));
  }

  /** A constant series has zero sample variance. */
  lemma SampleVarianceOfConstant(xs: seq<real>, c: real)
    requires |xs| >= 2 && Constant(xs, c)
    ensures SampleVariance(xs) == 0.0
  {
    MeanOfConstant(xs, c);
    SquaredDeviationsOfConstant(xs, c);
  }

  // ---------------------------------------------------------------- sorting

  predicate Sorted(s: seq<real>) {
    forall i, j :: 0 <= i < j < |s| ==> s[i] <= s[j]
  }

  /** A value no larger than the head of a sorted sequence can go in front of it. */
  lemma SortedCons(h: real, t: seq<real>)
    requires Sorted(t) && (t == [] || h <= t[0])
    ensures Sorted([h] + t)
  {
  }

  /** Dropping the head of a sequence removes one occurrence of it from the multiset. */
  lemma MultisetOfTail(s: seq<real>)
    requires s != []
    ensures multiset(s) == multiset{s[0]} + multiset(s[1..])
    ensures multiset(s[1..]) == multiset(s) - multiset{s[0]}
  {
    assert s == [s[0]] + s[1..];
  }

  /** The head of a sorted sequence is its least value. */
  lemma SortedHeadIsLeast(s: seq<real>, y: real)
    requires Sorted(s) && y in multiset(s)
    ensures s != [] && s[0] <= y
  {
    var i :| 0 <= i < |s| && s[i] == y;
  }

  /** Insertion of one value into a sorted sequence. */
  function Insert(x: real, s: seq<real>): (r: seq<real>)
    requires Sorted(s)
    ensures Sorted(r) && r != []
    ensures r[0] == if s != [] && s[0] < x then s[0] else x
    ensures multiset(r) == multiset(s) + multiset{x}
  {
    if s == [] || x <= s[0] then
      SortedCons(x, s);
      [x] + s
    else
      var tail := Insert(x, s[1..]);
      SortedCons(s[0], tail);
      MultisetOfTail(s);
      [s[0]] + tail
  }

  /** The sorted rearrangement of `xs`, the order pandas and numpy read order statistics from. */
  function Sort(xs: seq<real>): (r: seq<real>)
    ensures Sorted(r)
    ensures multiset(r) == multiset(xs)
  {
    if xs == [] then []
    else
      MultisetOfTail(xs);
      Insert(xs[0], Sort(xs[1..]))
  }

  /** Two sorted sequences with one multiset start alike and continue with one multiset. */
  lemma SortedHeadsAgree(a: seq<real>, b: seq<real>)
    requires Sorted(a) && Sorted(b) && multiset(a) == multiset(b) && a != []
    ensures b != [] && a[0] == b[0] && multiset(a[1..]) == multiset(b[1..])
  {
    assert a[0] in multiset(a);
    SortedHeadIsLeast(b, a[0]);
    assert b[0] in multiset(b);
    SortedHeadIsLeast(a, b[0]);
    MultisetOfTail(a);
    MultisetOfTail(b);
  }

  /** A sorted sequence is determined by its multiset of values. */
  lemma {:induction false} SortedUnique(a: seq<real>, b: seq<real>)
    requires Sorted(a) && Sorted(b) && multiset(a) == multiset(b)
    ensures a == b
  {
    assert |a| == |multiset(a)| == |multiset(b)| == |b|;
    if a != [] {
      SortedHeadsAgree(a, b);
      SortedUnique(a[1..], b[1..]);
      assert a == [a[0]] + a[1..];
      assert b == [b[0]] + b[1..];
    }
  }

  /** Sorting leaves an already sorted sequence as it is. */
  lemma SortOfSorted(xs: seq<real>)
    requires Sorted(xs)
    ensures Sort(xs) == xs
  {
    SortedUnique(Sort(xs), xs);
  }

  /** Every value of the sorted sequence is one of the inputs. */
  lemma SortedFromInput(xs: seq<real>, k: nat)
    requires k < |xs|
    ensures |Sort(xs)| == |xs| && Sort(xs)[k] in xs
  {
    var s := Sort(xs);
    assert |s| == |multiset(s)| == |xs|;
    assert s[k] in multiset(xs);
  }

  // ---------------------------------------------------------------- median

  /** pandas' `Series.median()`: the middle sorted value, or the mean of the two middle ones. */
  function Median(xs: seq<real>): real
    requires |xs| > 0
  {
    MiddleOfSorted(Sort(xs))
  }

  function MiddleOfSorted(s: seq<real>): real
    requires |s| > 0
  {
    var n := |s|;
    if n % 2 == 1 then s[n / 2] else (s[n / 2 - 1] + s[n / 2]) / 2.0
  }

  lemma SortPreservesLength(xs: seq<real>)
    ensures |Sort(xs)| == |xs|
  {
    assert |Sort(xs)| == |multiset(Sort(xs))| == |multiset(xs)|;
  }

  /** The middle of a sorted sequence lies between its two middle entries. */
  lemma MiddleOfSortedBetween(s: seq<real>)
    requires |s| > 0 && Sorted(s)
    ensures s[(|s| - 1) / 2] <= MiddleOfSorted(s) <= s[|s| / 2]
  {
    var n := |s|;
    var h := n / 2;
    if n % 2 == 1 {
      assert (n - 1) / 2 == h;
    } else {
      assert (n - 1) / 2 == h - 1;
      assert s[h - 1] <= s[h];
    }
  }

  /** The median lies between the two middle order statistics. */
  lemma MedianBetweenMiddles(xs: seq<real>)
    requires |xs| > 0
    ensures |Sort(xs)| == |xs|
    ensures Sort(xs)[(|xs| - 1) / 2] <= Median(xs) <= Sort(xs)[|xs| / 2]
  {
    SortPreservesLength(xs);
    MiddleOfSortedBetween(Sort(xs));
  }

  /** The median depends only on the multiset of values, not on their order. */
  lemma MedianOfPermutation(xs: seq<real>, ys: seq<real>)
    requires |xs| > 0 && multiset(xs) == multiset(ys)
    ensures |ys| > 0 && Median(xs) == Median(ys)
  {
    assert |xs| == |multiset(xs)| == |ys|;
    SortedUnique(Sort(xs), Sort(ys));
  }

  /** The median of non-negative values is non-negative. */
  lemma MedianNonnegative(xs: seq<real>)
    requires |xs| > 0
    requires forall i :: 0 <= i < |xs| ==> xs[i] >= 0.0
    ensures Median(xs) >= 0.0
  {
    var n := |xs|;
    SortedFromInput(xs, n / 2);
    SortedFromInput(xs, (n - 1) / 2);
    MedianBetweenMiddles(xs);
  }

  /** The median of a constant series is that constant. */
  lemma MedianOfConstant(xs: seq<real>, c: real)
    requires |xs| > 0 && Constant(xs, c)
    ensures Median(xs) == c
  {
    var n := |xs|;
    SortedFromInput(xs, n / 2);
    SortedFromInput(xs, (n - 1) / 2);
    if n % 2 == 0 {
      SortedFromInput(xs, n / 2 - 1);
    }
  }

  // ---------------------------------------------------------------- percentile

  /** `lo` and `hi` mixed with weight `w` on `hi`, numpy's linear interpolation. */
  function Interpolate(lo: real, hi: real, w: real): real {
    lo * (1.0 - w) + hi * w
  }

  lemma InterpolateAsOffset(lo: real, hi: real, w: real)
    ensures Interpolate(lo, hi, w) == lo + (hi - lo) * w
  {
  }

  /** Interpolating with a weight in [0, 1] stays between the two ends. */
  lemma InterpolateBetween(lo: real, hi: real, w: real)
    requires lo <= hi && 0.0 <= w <= 1.0
    ensures lo <= Interpolate(lo, hi, w) <= hi
    ensures w == 0.0 ==> Interpolate(lo, hi, w) == lo
  {
    InterpolateAsOffset(lo, hi, w);
    MulNonnegative(hi - lo, w);
    MulNonnegative(hi - lo, 1.0 - w);
    assert (hi - lo) * w + (hi - lo) * (1.0 - w) == hi - lo;
  }

  /** A larger weight on the larger end gives a larger result. */
  lemma InterpolateMonotone(lo: real, hi: real, w1: real, w2: real)
    requires lo <= hi && w1 <= w2
    ensures Interpolate(lo, hi, w1) <= Interpolate(lo, hi, w2)
  {
    InterpolateAsOffset(lo, hi, w1);
    InterpolateAsOffset(lo, hi, w2);
    MulNonnegative(hi - lo, w2 - w1);
    assert (hi - lo) * w2 - (hi - lo) * w1 == (hi - lo) * (w2 - w1);
  }

  /**
   * numpy's `percentile` with linear interpolation over sorted values `s`:
   * the fractional rank `p / 100 * (n - 1)` falls between the order statistics
   * `below` and `above = min(below + 1, n - 1)`, weighted by its fractional part.
   */
  function PercentileOfSorted(s: seq<real>, p: real): real
    requires |s| > 0 && 0.0 <= p <= 100.0
  {
    var rank := RankOf(|s|, p);
    var below := rank.Floor;
    Interpolate(s[below], s[UpperNeighbour(|s|, below)], rank - below as real)
  }

  /** The order statistic after `below`, or `below` itself at the end. */
  function UpperNeighbour(n: nat, below: int): (above: int)
    requires 0 <= below < n
    ensures below <= above < n
  {
    if below + 1 < n then below + 1 else n - 1
  }

  /** The fractional rank of percentile `p` among `n` order statistics. */
  function RankOf(n: nat, p: real): (rank: real)
    requires n > 0 && 0.0 <= p <= 100.0
    ensures 0.0 <= rank <= (n - 1) as real
    ensures 0 <= rank.Floor < n
  {
    var m := (n - 1) as real;
    var rank := p / 100.0 * m;
    MulNonnegative(p / 100.0, m);
    MulNonnegative((100.0 - p) / 100.0, m);
    assert m - rank == (100.0 - p) / 100.0 * m;
    rank
  }

  /** A higher percentile has a rank at least as high. */
  lemma RankMonotone(n: nat, p1: real, p2: real)
    requires n > 0 && 0.0 <= p1 <= p2 <= 100.0
    ensures RankOf(n, p1) <= RankOf(n, p2)
  {
    var m := (n - 1) as real;
    MulNonnegative((p2 - p1) / 100.0, m);
    assert RankOf(n, p2) - RankOf(n, p1) == (p2 - p1) / 100.0 * m;
  }

  function Percentile(xs: seq<real>, p: real): real
    requires |xs| > 0 && 0.0 <= p <= 100.0
  {
    PercentileOfSorted(Sort(xs), p)
  }

  /**
   * The interpolated value lies between the two neighbouring order statistics,
   * and is exactly the order statistic when the rank is a whole number.
   */
  lemma PercentileBetweenNeighbours(s: seq<real>, p: real)
    requires |s| > 0 && 0.0 <= p <= 100.0 && Sorted(s)
    ensures var below := RankOf(|s|, p).Floor;
      && s[below] <= PercentileOfSorted(s, p) <= s[UpperNeighbour(|s|, below)]
      && (RankOf(|s|, p) == below as real ==> PercentileOfSorted(s, p) == s[below])
  {
    var rank := RankOf(|s|, p);
    var below := rank.Floor;
    var above := UpperNeighbour(|s|, below);
    assert s[below] <= s[above];
    InterpolateBetween(s[below], s[above], rank - below as real);
  }

  /** A higher percentile is never smaller than a lower one. */
  lemma PercentileMonotone(s: seq<real>, p1: real, p2: real)
    requires |s| > 0 && 0.0 <= p1 <= p2 <= 100.0 && Sorted(s)
    ensures PercentileOfSorted(s, p1) <= PercentileOfSorted(s, p2)
  {
    var n := |s|;
    var r1, r2 := RankOf(n, p1), RankOf(n, p2);
    RankMonotone(n, p1, p2);
    var b1, b2 := r1.Floor, r2.Floor;
    if b1 == b2 {
      var a := UpperNeighbour(n, b1);
      assert s[b1] <= s[a];
      InterpolateMonotone(s[b1], s[a], r1 - b1 as real, r2 - b1 as real);
    } else {
      assert b1 < b2;
      PercentileBetweenNeighbours(s, p1);
      PercentileBetweenNeighbours(s, p2);
      assert s[UpperNeighbour(n, b1)] <= s[b2];
    }
  }

  /** Every percentile of a constant series is that constant. */
  lemma PercentileOfConstant(xs: seq<real>, c: real, p: real)
    requires |xs| > 0 && 0.0 <= p <= 100.0 && Constant(xs, c)
    ensures Percentile(xs, p) == c
  {
    SortPreservesLength(xs);
    var s := Sort(xs);
    var below := RankOf(|s|, p).Floor;
    SortedFromInput(xs, below);
    SortedFromInput(xs, UpperNeighbour(|s|, below));
    PercentileBetweenNeighbours(s, p);
  }

  /** The 50th percentile is the median: the two definitions agree. */
  lemma MedianIsFiftiethPercentile(xs: seq<real>)
    requires |xs| > 0
    ensures Percentile(xs, 50.0) == Median(xs)
  {
    SortPreservesLength(xs);
    FiftiethOfSorted(Sort(xs));
  }

  lemma FiftiethOfSorted(s: seq<real>)
    requires |s| > 0
    ensures PercentileOfSorted(s, 50.0) == MiddleOfSorted(s)
  {
    var n := |s|;
    var rank := RankOf(n, 50.0);
    assert rank == (n - 1) as real / 2.0;
    if n % 2 == 1 {
      assert rank == (n / 2) as real;
      assert rank.Floor == n / 2;
    } else {
      assert rank == (n / 2 - 1) as real + 0.5;
      assert rank.Floor == n / 2 - 1;
    }
  }
}
