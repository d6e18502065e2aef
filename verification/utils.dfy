/** Helpers shared by the detectors: the tail average and backend retrieval. */
module Utils {
  import opened Common
  import opened Series
  import opened Stats
  import opened Backend

  /**
   * `_tail_avg`: the mean of column `vidx` over the last three records. When
   * that raises `IndexError` (fewer than three records, or one of the two
   * earlier records lacks the column) it falls back to the last record's value,
   * which must then exist: an empty series, or a last record without the
   * column, raises from the fallback too and is excluded here.
   */
  function TailAvg(ts: TimeSeries, vidx: nat): (t: real)
    requires |ts| > 0 && vidx < |ts[|ts| - 1]|
    ensures |ts| >= 3 && HasColumn(ts[|ts| - 3..], vidx) ==> t == Mean(Column(ts[|ts| - 3..], vidx))
    ensures |ts| >= 3 && !HasColumn(ts[|ts| - 3..], vidx) ==> t == ts[|ts| - 1][vidx]
    ensures |ts| < 3 ==> t == ts[|ts| - 1][vidx]
  {
    var n := |ts|;
    if n >= 3 && vidx < |ts[n - 2]| && vidx < |ts[n - 3]| then
      var t := (ts[n - 1][vidx] + ts[n - 2][vidx] + ts[n - 3][vidx]) / 3.0;
      assert n >= 3 && HasColumn(ts[n - 3..], vidx) ==> t == Mean(Column(ts[n - 3..], vidx)) by {
        if n >= 3 && HasColumn(ts[n - 3..], vidx) {
          var window := Column(ts[n - 3..], vidx);
          assert window == [ts[n - 3][vidx], ts[n - 2][vidx], ts[n - 1][vidx]];
          SumOfThree(ts[n - 3][vidx], ts[n - 2][vidx], ts[n - 1][vidx]);
        }
      }
      t
    else
      ts[n - 1][vidx]
  }

  /**
   * The tail average reads column `vidx` of the last (up to) three records and
   * nothing else: two series of one length that agree there give the same result.
   */
  lemma TailAvgReadsOnlyTail(ts: TimeSeries, us: TimeSeries, vidx: nat)
    requires |ts| == |us| > 0 && vidx < |ts[|ts| - 1]| && vidx < |us[|us| - 1]|
    requires forall i :: |ts| - 3 <= i < |ts| && 0 <= i ==>
               && (vidx < |ts[i]| <==> vidx < |us[i]|)
               && (vidx < |ts[i]| ==> ts[i][vidx] == us[i][vidx])
    ensures TailAvg(ts, vidx) == TailAvg(us, vidx)
  {
  }

  /**
   * The last (up to) three records all carry the value `c` in column `vidx`;
   * earlier records are not constrained.
   */
  predicate TailConstant(ts: TimeSeries, vidx: nat, c: real) {
    forall i :: 0 <= i < |ts| && |ts| - 3 <= i ==> vidx < |ts[i]| && ts[i][vidx] == c
  }

  /** A constant value column has a constant tail. */
  lemma ConstantColumnTail(ts: TimeSeries, vidx: nat, c: real)
    requires HasColumn(ts, vidx) && Constant(Column(ts, vidx), c)
    ensures TailConstant(ts, vidx, c)
  {
    forall i | 0 <= i < |ts| && |ts| - 3 <= i ensures vidx < |ts[i]| && ts[i][vidx] == c {
      assert Column(ts, vidx)[i] == c;
    }
  }

  /** The tail average of a series whose last three values are equal is that value. */
  lemma TailAvgOfConstant(ts: TimeSeries, vidx: nat, c: real)
    requires |ts| > 0 && TailConstant(ts, vidx, c)
    ensures TailAvg(ts, vidx) == c
  {
    var n := |ts|;
    assert vidx < |ts[n - 1]| && ts[n - 1][vidx] == c;
    if n >= 3 {
      assert vidx < |ts[n - 2]| && ts[n - 2][vidx] == c;
      assert vidx < |ts[n - 3]| && ts[n - 3][vidx] == c;
      assert Column(ts[n - 3..], vidx) == [c, c, c];
      SumOfThree(c, c, c);
    }
  }

  /** The tail average lies between the smallest and largest value it averages. */
  lemma TailAvgWithinWindow(ts: TimeSeries, vidx: nat)
    requires |ts| > 0 && vidx < |ts[|ts| - 1]|
    ensures exists i :: |ts| - 3 <= i < |ts| && 0 <= i && vidx < |ts[i]| && ts[i][vidx] <= TailAvg(ts, vidx)
    ensures exists i :: |ts| - 3 <= i < |ts| && 0 <= i && vidx < |ts[i]| && ts[i][vidx] >= TailAvg(ts, vidx)
  {
    var n := |ts|;
    var t := TailAvg(ts, vidx);
    if n >= 3 && vidx < |ts[n - 2]| && vidx < |ts[n - 3]| {
      var a, b, c := ts[n - 3][vidx], ts[n - 2][vidx], ts[n - 1][vidx];
      assert t == (a + b + c) / 3.0;
      if a <= t { assert ts[n - 3][vidx] <= t; }
      else if b <= t { assert ts[n - 2][vidx] <= t; }
      else { assert ts[n - 1][vidx] <= t; }
      if a >= t { assert ts[n - 3][vidx] >= t; }
      else if b >= t { assert ts[n - 2][vidx] >= t; }
      else { assert ts[n - 1][vidx] >= t; }
    } else {
      assert ts[n - 1][vidx] == t;
    }
  }

  /** Name of the query parameter that selects the backend. */
  const BackendParam: string := "backend"

  /**
   * `backend_retreival`: with a `backend` parameter, the whole parameter
   * dictionary (that entry included) goes to `_pull_backend` unchanged; without
   * one, the bad-request error is built but never raised, so nothing is fetched,
   * the dictionary is untouched and the result is `None`.
   */
  method BackendRetrieval(params: ParamDict) returns (r: Option<Result<Fetch>>)
    modifies params
    ensures BackendParam !in old(params.entries) ==> r.None? && params.entries == old(params.entries)
    ensures BackendParam in old(params.entries) ==>
              var a := AdapterFor(old(params.entries)[BackendParam]);
              && (a.None? ==> r.None? && params.entries == old(params.entries))
              && (a.Some? ==> && params.entries == WithDefaultProtocol(old(params.entries))
                              && r == Some(AdapterRequest(a.value, params.entries)))
  {
    if BackendParam in params.entries {
      r := PullBackend(params.entries[BackendParam], params);
    } else {
      r := None;
    }
  }
}
