/**
 * The uniform time-series representation every detector consumes: an ordered
 * sequence of fixed-arity numeric records, with the time and value positions
 * chosen by explicit column indices (backends disagree on the layout).
 */
module Series {

  /** One observation: a tuple of numeric fields. */
  type Record = seq<real>

  /** An ordered sequence of observations. */
  type TimeSeries = seq<Record>

  /** Every record has a field at position `c`. */
  predicate HasColumn(ts: TimeSeries, c: nat) {
    forall i :: 0 <= i < |ts| ==> c < |ts[i]|
  }

  /** The field at position `c` of every record, in series order (`[x[c] for x in ts]`). */
  function Column(ts: TimeSeries, c: nat): (col: seq<real>)
    requires HasColumn(ts, c)
    ensures |col| == |ts|
    ensures forall i :: 0 <= i < |ts| ==> col[i] == ts[i][c]
  {
    seq(|ts|, i requires 0 <= i < |ts| => ts[i][c])
  }

  /** Which side of a bound a strict comparison selects. */
  datatype Side = Below | Above

  predicate Outside(x: real, side: Side, bound: real) {
    match side
    case Below => x < bound
    case Above => x > bound
  }

  predicate Increasing(idx: seq<nat>) {
    forall a, b :: 0 <= a < b < |idx| ==> idx[a] < idx[b]
  }

  /**
   * The positions of `xs` whose value lies strictly beyond `bound` on `side`,
   * in ascending order: what `np.where(values < bound)` (or `>`) yields, and
   * the selection a filtering list comprehension performs.
   */
  function Where(xs: seq<real>, side: Side, bound: real): (idx: seq<nat>)
    ensures |idx| <= |xs|
    ensures Increasing(idx)
    ensures forall k :: 0 <= k < |idx| ==> idx[k] < |xs| && Outside(xs[idx[k]], side, bound)
    ensures forall i :: 0 <= i < |xs| && Outside(xs[i], side, bound) ==> i in idx
  {
    if xs == [] then []
    else
      var rest := Where(xs[..|xs| - 1], side, bound);
      if Outside(xs[|xs| - 1], side, bound) then rest + [|xs| - 1] else rest
  }

  /** Nothing is selected when no value lies beyond the bound. */
  lemma {:induction false} WhereNone(xs: seq<real>, side: Side, bound: real)
    requires forall i :: 0 <= i < |xs| ==> !Outside(xs[i], side, bound)
    ensures Where(xs, side, bound) == []
  {
    if xs != [] {
      WhereNone(xs[..|xs| - 1], side, bound);
    }
  }

  /** The elements of `xs` at the positions `idx`, in that order (numpy fancy indexing). */
  function Gather<T>(xs: seq<T>, idx: seq<nat>): (r: seq<T>)
    requires forall k :: 0 <= k < |idx| ==> idx[k] < |xs|
    ensures |r| == |idx|
    ensures forall k :: 0 <= k < |idx| ==> r[k] == xs[idx[k]]
  {
    seq(|idx|, k requires 0 <= k < |idx| => xs[idx[k]])
  }

  /** Every record is a two-field pair, as both backends return. */
  predicate Pairs(ts: TimeSeries) {
    forall i :: 0 <= i < |ts| ==> |ts[i]| == 2
  }

  /** The same observations with the two fields of every pair exchanged. */
  function SwapColumns(ts: TimeSeries): (r: TimeSeries)
    requires Pairs(ts)
    ensures |r| == |ts| && Pairs(r)
    ensures forall i :: 0 <= i < |ts| ==> r[i] == [ts[i][1], ts[i][0]]
  {
    seq(|ts|, i requires 0 <= i < |ts| => [ts[i][1], ts[i][0]])
  }

  /** Exchanging the fields moves column 1 to column 0 and back, value by value. */
  lemma SwapColumnsMirrors(ts: TimeSeries)
    requires Pairs(ts)
    ensures HasColumn(ts, 0) && HasColumn(ts, 1)
    ensures Column(SwapColumns(ts), 0) == Column(ts, 1)
    ensures Column(SwapColumns(ts), 1) == Column(ts, 0)
    ensures SwapColumns(SwapColumns(ts)) == ts
  {
    var back := SwapColumns(SwapColumns(ts));
    forall i | 0 <= i < |ts| ensures back[i] == ts[i] {
      assert ts[i] == [ts[i][0], ts[i][1]];
    }
  }
}
