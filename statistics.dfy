/**
 * The numeric parts of the statistics boxes of ctplot/plot.py: `stats_fields1d` (entries, under-
 * and overflow, mean, mode and median of a 1-D histogram) and `stats_fields2d` (entries, the two
 * marginal means and the covariance of a 2-D histogram). A quotient by a zero number of entries
 * is NaN in the source and None here. Spreads that need a square root (std, skew, kurtosis) are
 * not modelled.
 */
module Statistics {
  import opened Seqs
  import opened Outcomes
  import opened Binning

  // ---------------------------------------------------------------------------------------------
  // Weighted means

  /** `sum(values * weights) / sum(weights)`; None where the weights sum to zero (NaN). */
  function WeightedMean(values: seq<real>, weights: seq<real>): Option<real>
    requires |values| == |weights|
  {
    var n := Sum(weights);
    if n == 0.0 then None else Some(Sum(Mul(values, weights)) / n)
  }

  lemma {:induction false} MulBelow(a: real, b: real, c: real)
    requires a <= b && c >= 0.0
    ensures a * c <= b * c
  {
  }

  lemma {:induction false} ScaledBelowProduct(values: seq<real>, weights: seq<real>, lo: real, i: nat)
    requires |values| == |weights| && i < |weights|
    requires lo <= values[i] && weights[i] >= 0.0
    ensures Scaled(weights, lo)[i] <= Mul(values, weights)[i]
  {
    MulBelow(lo, values[i], weights[i]);
  }

  lemma {:induction false} ProductBelowScaled(values: seq<real>, weights: seq<real>, hi: real, i: nat)
    requires |values| == |weights| && i < |weights|
    requires values[i] <= hi && weights[i] >= 0.0
    ensures Mul(values, weights)[i] <= Scaled(weights, hi)[i]
  {
    MulBelow(values[i], hi, weights[i]);
  }

  lemma {:induction false} DivideBounds(s: real, n: real, lo: real, hi: real)
    requires n > 0.0 && lo * n <= s <= hi * n
    ensures lo <= s / n <= hi
  {
  }

  /** With non-negative weights the mean lies between the smallest and the largest value. */
  lemma {:induction false} MeanWithinValues(values: seq<real>, weights: seq<real>, lo: real, hi: real)
    requires |values| == |weights|
    requires forall i :: 0 <= i < |weights| ==> weights[i] >= 0.0
    requires forall i :: 0 <= i < |values| ==> lo <= values[i] <= hi
    requires Sum(weights) != 0.0
    ensures WeightedMean(values, weights).Some?
    ensures lo <= WeightedMean(values, weights).value <= hi
  {
    var n := Sum(weights);
    var total := Sum(Mul(values, weights));
    assert n > 0.0 by { SumNonNegative(weights); }
    assert lo * n <= total by { WeightedSumAbove(values, weights, lo); }
    assert total <= hi * n by { WeightedSumBelow(values, weights, hi); }
    DivideBounds(total, n, lo, hi);
  }

  lemma {:induction false} WeightedSumAbove(values: seq<real>, weights: seq<real>, lo: real)
    requires |values| == |weights|
    requires forall i :: 0 <= i < |weights| ==> weights[i] >= 0.0
    requires forall i :: 0 <= i < |values| ==> lo <= values[i]
    ensures lo * Sum(weights) <= Sum(Mul(values, weights))
  {
    var s := Mul(values, weights);
    var los := Scaled(weights, lo);
    forall i | 0 <= i < |s| ensures los[i] <= s[i] {
      ScaledBelowProduct(values, weights, lo, i);
    }
    SumMonotone(los, s);
    SumScaled(weights, los, lo);
  }

  lemma {:induction false} WeightedSumBelow(values: seq<real>, weights: seq<real>, hi: real)
    requires |values| == |weights|
    requires forall i :: 0 <= i < |weights| ==> weights[i] >= 0.0
    requires forall i :: 0 <= i < |values| ==> values[i] <= hi
    ensures Sum(Mul(values, weights)) <= hi * Sum(weights)
  {
    var s := Mul(values, weights);
    var his := Scaled(weights, hi);
    forall i | 0 <= i < |s| ensures s[i] <= his[i] {
      ProductBelowScaled(values, weights, hi, i);
    }
    SumMonotone(s, his);
    SumScaled(weights, his, hi);
  }

  /** Each value's distance from a reference point. */
  function Deviations(values: seq<real>, m: real): (r: seq<real>)
    ensures |r| == |values|
    ensures forall i :: 0 <= i < |r| ==> r[i] == values[i] - m
  {
    seq(|values|, i requires 0 <= i < |values| => values[i] - m)
  }

  lemma {:induction false} QuotientTimes(s: real, n: real)
    requires n != 0.0
    ensures s + -(s / n) * n == 0.0
  {
  }

  /** The mean is the balance point: the weighted deviations from it cancel out. */
  lemma {:induction false} MeanBalances(values: seq<real>, weights: seq<real>)
    requires |values| == |weights|
    requires Sum(weights) != 0.0
    ensures WeightedMean(values, weights).Some?
    ensures Sum(Mul(Deviations(values, WeightedMean(values, weights).value), weights)) == 0.0
  {
    var m := Sum(Mul(values, weights)) / Sum(weights);
    DeviationSum(values, weights, m);
    QuotientTimes(Sum(Mul(values, weights)), Sum(weights));
  }

  /** Weighted deviations from m sum to the weighted sum minus m times the total weight. */
  lemma {:induction false} DeviationSum(values: seq<real>, weights: seq<real>, m: real)
    requires |values| == |weights|
    ensures Sum(Mul(Deviations(values, m), weights)) == Sum(Mul(values, weights)) + -m * Sum(weights)
  {
    DeviationsSplit(values, weights, m);
    SumAdd(Mul(values, weights), Scaled(weights, -m), Mul(Deviations(values, m), weights));
    SumScaledOf(weights, -m);
  }

  /** A weighted deviation is the weighted value minus m times the weight. */
  lemma {:induction false} DeviationsSplit(values: seq<real>, weights: seq<real>, m: real)
    requires |values| == |weights|
    ensures var t := Mul(Deviations(values, m), weights);
      forall i :: 0 <= i < |t| ==> t[i] == Mul(values, weights)[i] + Scaled(weights, -m)[i]
  {
    var t := Mul(Deviations(values, m), weights);
    var s := Mul(values, weights);
    var shift := Scaled(weights, -m);
    forall i | 0 <= i < |t| ensures t[i] == s[i] + shift[i] {
      DeviationSplits(values, weights, m, t, s, shift, i);
    }
  }

  lemma {:induction false} DeviationSplits(values: seq<real>, weights: seq<real>, m: real,
                                           t: seq<real>, s: seq<real>, shift: seq<real>, i: nat)
    requires |values| == |weights| && i < |weights|
    requires t == Mul(Deviations(values, m), weights) && s == Mul(values, weights) && shift == Scaled(weights, -m)
    ensures t[i] == s[i] + shift[i]
  {
    assert t[i] == (values[i] - m) * weights[i];
    assert (values[i] - m) * weights[i] == values[i] * weights[i] + -m * weights[i];
  }

  // ---------------------------------------------------------------------------------------------
  // stats_fields1d

  /** Samples strictly below `lo` (`np.sum(data < edges[0])`). */
  function Underflow(data: seq<real>, lo: real): nat
  {
    |Filter(data, (x: real) => x < lo)|
  }

  /** Samples strictly above `hi` (`np.sum(edges[-1] < data)`). */
  function Overflow(data: seq<real>, hi: real): nat
  {
    |Filter(data, (x: real) => hi < x)|
  }

  /** Samples inside the closed range [lo, hi]. */
  function Inside(data: seq<real>, lo: real, hi: real): nat
  {
    |Filter(data, (x: real) => lo <= x <= hi)|
  }

  /** Underflow, overflow and the samples inside the histogram range account for every sample
    * exactly once. */
  lemma {:induction false} FlowPartition(data: seq<real>, lo: real, hi: real)
    requires lo <= hi
    ensures Underflow(data, lo) + Overflow(data, hi) + Inside(data, lo, hi) == |data|
  {
    if |data| > 0 {
      FlowPartition(data[1..], lo, hi);
    }
  }

  /** Index of the first largest entry (numpy's `argmax`). */
  function ArgMaxFirst(s: seq<real>): (i: nat)
    requires |s| > 0
    ensures i < |s|
    ensures forall j :: 0 <= j < |s| ==> s[j] <= s[i]
    ensures forall j :: 0 <= j < i ==> s[j] < s[i]
  {
    if |s| == 1 then 0
    else
      var k := ArgMaxFirst(s[..|s| - 1]);
      assert forall j :: 0 <= j < |s| - 1 ==> s[..|s| - 1][j] == s[j];
      if s[|s| - 1] > s[k] then |s| - 1 else k
  }

  /** The first maximum is the only index that is maximal with nothing as large before it. */
  lemma {:induction false} ArgMaxFirstUnique(s: seq<real>, i: nat)
    requires i < |s|
    requires forall j :: 0 <= j < |s| ==> s[j] <= s[i]
    requires forall j :: 0 <= j < i ==> s[j] < s[i]
    ensures ArgMaxFirst(s) == i
  {
  }

  /** Index of the first entry strictly above `v`, or |s| when there is none. */
  function FirstAbove(s: seq<real>, v: real): (i: nat)
    ensures i <= |s|
    ensures forall j :: 0 <= j < i ==> s[j] <= v
    ensures i < |s| ==> s[i] > v
  {
    if |s| == 0 then 0
    else if s[0] > v then 0
    else
      var i := FirstAbove(s[1..], v);
      assert forall j :: 1 <= j < |s| ==> s[1..][j - 1] == s[j];
      1 + i
  }

  predicate NonDecreasing(s: seq<real>)
  {
    forall i, j :: 0 <= i <= j < |s| ==> s[i] <= s[j]
  }

  /** On an ascending sequence the first index above `v` is the number of entries at most `v`,
    * which is what `searchsorted(s, v, side='right')` returns. */
  lemma {:induction false} FirstAboveIsSearchSorted(s: seq<real>, v: real)
    requires NonDecreasing(s)
    ensures FirstAbove(s, v) == |Filter(s, (x: real) => x <= v)|
  {
    if |s| > 0 {
      assert NonDecreasing(s[1..]);
      FirstAboveIsSearchSorted(s[1..], v);
      if s[0] > v {
        NoneAtMost(s[1..], v);
      }
    }
  }

  lemma {:induction false} NoneAtMost(s: seq<real>, v: real)
    requires forall i :: 0 <= i < |s| ==> s[i] > v
    ensures Filter(s, (x: real) => x <= v) == []
  {
    if |s| > 0 {
      NoneAtMost(s[1..], v);
    }
  }

  /** The cumulative density the median is read from: `get_density` followed by
    * `get_cumulative(..., 1, widths)` on the contents. */
  function MedianCurve(contents: seq<real>, variances: seq<real>, widths: seq<real>): (r: seq<real>)
    requires |contents| == |variances| == |widths|
    ensures |r| == |contents|
  {
    CumSum(Mul(GetDensity(contents, variances, widths).0, widths))
  }

  /** The curve is what `get_cumulative` with a positive direction returns on the densities. */
  lemma {:induction false} MedianCurveIsCumulative(contents: seq<real>, variances: seq<real>, widths: seq<real>, vs: seq<real>)
    requires |contents| == |variances| == |widths| == |vs|
    ensures MedianCurve(contents, variances, widths)
      == GetCumulative(GetDensity(contents, variances, widths).0, vs, 1.0, widths).0
  {
  }

  /** `minimum(len(centers) - 1, searchsorted(bc, 0.5, side='right'))`. */
  function MedianIndex(contents: seq<real>, variances: seq<real>, widths: seq<real>): (i: nat)
    requires |contents| == |variances| == |widths| >= 1
  {
    var above := FirstAbove(MedianCurve(contents, variances, widths), 0.5);
    if above < |contents| - 1 then above else |contents| - 1
  }

  /** The median index is the first bin where the cumulative density passes one half, clamped to
    * the last bin. */
  lemma {:induction false} MedianIndexBounds(contents: seq<real>, variances: seq<real>, widths: seq<real>)
    requires |contents| == |variances| == |widths| >= 1
    ensures var i := MedianIndex(contents, variances, widths);
      var bc := MedianCurve(contents, variances, widths);
      && i < |contents|
      && (forall j :: 0 <= j < i ==> bc[j] <= 0.5)
      && (i == |contents| - 1 || bc[i] > 0.5)
  {
  }

  /** With a non-zero number of entries and non-zero widths the curve ends at one, so the clamp
    * never decides: the index is the first bin whose cumulative density passes one half. */
  lemma {:induction false} MedianIndexUnclamped(contents: seq<real>, variances: seq<real>, widths: seq<real>)
    requires |contents| == |variances| == |widths| >= 1
    requires Sum(contents) != 0.0
    requires forall i :: 0 <= i < |widths| ==> widths[i] != 0.0
    ensures var bc := MedianCurve(contents, variances, widths);
      && bc[|bc| - 1] == 1.0
      && MedianIndex(contents, variances, widths) == FirstAbove(bc, 0.5)
  {
    var d := Mul(GetDensity(contents, variances, widths).0, widths);
    DensityIntegratesToOne(contents, variances, widths);
    assert d[..|d|] == d;
  }

  /** Python's `s[i]` for an index that may be negative (counted from the end). */
  function PyIndex(s: seq<real>, i: int): real
    requires -|s| <= i < |s|
  {
    if i < 0 then s[|s| + i] else s[i]
  }

  /** The median as written: with an even number of bins it is averaged with `centers[i - 1]`,
    * which for i == 0 is Python's `centers[-1]`, the last center. */
  function MedianAsWritten(centers: seq<real>, i: nat): real
    requires i < |centers|
  {
    if |centers| % 2 == 0 then (centers[i] + PyIndex(centers, i - 1)) / 2.0 else centers[i]
  }

  /** The median with the evident intent: averaged with the center below, and with nothing below
    * bin 0 it stays at that bin's center. */
  function Median(centers: seq<real>, i: nat): real
    requires i < |centers|
  {
    var below := if i == 0 then 0 else i - 1;
    if |centers| % 2 == 0 then (centers[i] + centers[below]) / 2.0 else centers[i]
  }

  /** On ascending centers the median lies between the center of its bin and the one below. */
  lemma {:induction false} MedianBetweenNeighbours(centers: seq<real>, i: nat)
    requires i < |centers| && NonDecreasing(centers)
    ensures centers[if i == 0 then 0 else i - 1] <= Median(centers, i) <= centers[i]
  {
  }

  /** Away from bin 0 the corrected median is the one written. */
  lemma {:induction false} MedianAgreesAwayFromFirstBin(centers: seq<real>, i: nat)
    requires 0 < i < |centers|
    ensures Median(centers, i) == MedianAsWritten(centers, i)
  {
  }

  /** A histogram whose median falls in the first of four bins: the median as written lands in
    * the empty third bin, above the center of the median bin. */
  lemma {:induction false} MedianAsWrittenLeavesItsBin()
    ensures var contents := [3.0, 0.0, 0.0, 1.0];
      var b := FromEdges([0.0, 1.0, 2.0, 3.0, 4.0]).value;
      var i := MedianIndex(contents, contents, b.widths);
      && i == 0
      && MedianAsWritten(b.centers, i) == 2.0
      && MedianAsWritten(b.centers, i) > b.centers[i]
      && Median(b.centers, i) == b.centers[i] == 0.5
  {
    var contents := [3.0, 0.0, 0.0, 1.0];
    var b := FromEdges([0.0, 1.0, 2.0, 3.0, 4.0]).value;
    assert b.widths == [1.0, 1.0, 1.0, 1.0];
    assert b.centers == [0.5, 1.5, 2.5, 3.5];
    assert Sum(contents) == 4.0 by {
      assert Sum([3.0]) == 3.0 by { assert [3.0][..0] == []; }
      assert Sum([3.0, 0.0]) == 3.0 by { assert [3.0, 0.0][..1] == [3.0]; }
      assert Sum([3.0, 0.0, 0.0]) == 3.0 by { assert [3.0, 0.0, 0.0][..2] == [3.0, 0.0]; }
      assert contents[..3] == [3.0, 0.0, 0.0];
    }
    var d := Mul(GetDensity(contents, contents, b.widths).0, b.widths);
    assert d[0] == 0.75;
    assert d[..1] == [0.75];
    assert Sum(d[..1]) == 0.75 by {
      assert d[..1][..0] == [];
    }
    assert MedianCurve(contents, contents, b.widths)[0] == 0.75;
  }

  datatype Stats1D = Stats1D(n: real, uflow: nat, oflow: nat, mean: Option<real>, mode: real, median: real)

  datatype StatsError =
    | NoBins   // argmax of an empty histogram raises

  /**
   * `stats_fields1d(i, data, contents, errors, edges)` without the text box: the number of
   * entries, the samples outside the edges, the mean of the bin centers weighted by the contents,
   * the center of the first fullest bin and the median bin's center, averaged with
   * `centers[median_i - 1]` when the number of bins is even (Python's `centers[-1]`, the last
   * center, when the median bin is bin 0).
   */
  function GetStats1D(data: seq<real>, contents: seq<real>, variances: seq<real>, edges: seq<real>)
    : Result<Stats1D, StatsError>
    requires |edges| == |contents| + 1 == |variances| + 1
  {
    if |contents| == 0 then Err(NoBins)
    else
      var b := FromEdges(edges).value;
      var i := MedianIndex(contents, variances, b.widths);
      Ok(Stats1D(Sum(contents), Underflow(data, edges[0]), Overflow(data, edges[|edges| - 1]),
                 WeightedMean(b.centers, contents), b.centers[ArgMaxFirst(contents)], MedianAsWritten(b.centers, i)))
  }

  /** The statistics with the corrected median: below bin 0 there is nothing to average with. */
  function GetStats1DCorrected(data: seq<real>, contents: seq<real>, variances: seq<real>, edges: seq<real>)
    : Result<Stats1D, StatsError>
    requires |edges| == |contents| + 1 == |variances| + 1
  {
    match GetStats1D(data, contents, variances, edges)
    case Err(e) => Err(e)
    case Ok(s) =>
      var b := FromEdges(edges).value;
      Ok(s.(median := Median(b.centers, MedianIndex(contents, variances, b.widths))))
  }

  predicate Ascending(edges: seq<real>)
  {
    forall i, j :: 0 <= i <= j < |edges| ==> edges[i] <= edges[j]
  }

  /** The 1-D statistics exist exactly when there are bins; the entries are the sum of the
    * contents and the flows count the samples outside the edges. */
  lemma {:induction false} Stats1DDefined(data: seq<real>, contents: seq<real>, variances: seq<real>, edges: seq<real>)
    requires |edges| == |contents| + 1 == |variances| + 1
    ensures GetStats1D(data, contents, variances, edges).Ok? <==> |contents| > 0
    ensures GetStats1D(data, contents, variances, edges).Ok? ==>
      var s := GetStats1D(data, contents, variances, edges).value;
      && s.n == Sum(contents)
      && s.uflow == |Filter(data, (x: real) => x < edges[0])|
      && s.oflow == |Filter(data, (x: real) => edges[|edges| - 1] < x)|
  {
  }

  /** The mode is the center of the first fullest bin. */
  lemma {:induction false} Stats1DMode(data: seq<real>, contents: seq<real>, variances: seq<real>, edges: seq<real>)
    requires |edges| == |contents| + 1 == |variances| + 1
    requires |contents| > 0
    ensures var s := GetStats1D(data, contents, variances, edges).value;
      var b := FromEdges(edges).value;
      exists i :: 0 <= i < |contents| && s.mode == b.centers[i]
        && (forall j :: 0 <= j < |contents| ==> contents[j] <= contents[i])
        && (forall j :: 0 <= j < i ==> contents[j] < contents[i])
  {
    var s := GetStats1D(data, contents, variances, edges).value;
    var b := FromEdges(edges).value;
    var k := ArgMaxFirst(contents);
    assert s.mode == b.centers[k];
  }

  /** The mean is defined exactly when there are entries; on ascending edges and non-negative
    * contents it lies within the edges. */
  lemma {:induction false} Stats1DMean(data: seq<real>, contents: seq<real>, variances: seq<real>, edges: seq<real>)
    requires |edges| == |contents| + 1 == |variances| + 1
    requires |contents| > 0
    ensures var s := GetStats1D(data, contents, variances, edges).value;
      && (s.mean.Some? <==> Sum(contents) != 0.0)
      && (Ascending(edges) && (forall j :: 0 <= j < |contents| ==> contents[j] >= 0.0) && s.mean.Some? ==>
            edges[0] <= s.mean.value <= edges[|edges| - 1])
  {
    var b := FromEdges(edges).value;
    if Ascending(edges) && (forall j :: 0 <= j < |contents| ==> contents[j] >= 0.0) && Sum(contents) != 0.0 {
      forall i | 0 <= i < |b.centers| ensures edges[0] <= b.centers[i] <= edges[|edges| - 1] {
        assert edges[0] <= edges[i] <= edges[i + 1] <= edges[|edges| - 1];
      }
      MeanWithinValues(b.centers, contents, edges[0], edges[|edges| - 1]);
    }
  }

  /** Bin centers of ascending edges ascend. */
  lemma {:induction false} CentersAscend(edges: seq<real>)
    requires |edges| >= 2 && Ascending(edges)
    ensures NonDecreasing(FromEdges(edges).value.centers)
  {
    var b := FromEdges(edges).value;
    forall i, j | 0 <= i <= j < |b.centers| ensures b.centers[i] <= b.centers[j] {
      assert edges[i] <= edges[j] && edges[i + 1] <= edges[j + 1];
    }
  }

  /** On ascending edges the median lies between the center of its bin and the center below,
    * unless the median bin is bin 0 of an even number of bins: then the median is the mean of
    * the first and the last center. */
  lemma {:induction false} Stats1DMedian(data: seq<real>, contents: seq<real>, variances: seq<real>, edges: seq<real>)
    requires |edges| == |contents| + 1 == |variances| + 1
    requires |contents| > 0 && Ascending(edges)
    ensures var s := GetStats1D(data, contents, variances, edges).value;
      var b := FromEdges(edges).value;
      var m := MedianIndex(contents, variances, b.widths);
      && ((m > 0 || |contents| % 2 == 1) ==> b.centers[if m == 0 then 0 else m - 1] <= s.median <= b.centers[m])
      && ((m == 0 && |contents| % 2 == 0) ==> s.median == (b.centers[0] + b.centers[|contents| - 1]) / 2.0)
  {
    var b := FromEdges(edges).value;
    var m := MedianIndex(contents, variances, b.widths);
    if m > 0 {
      CentersAscend(edges);
      MedianAgreesAwayFromFirstBin(b.centers, m);
      MedianBetweenNeighbours(b.centers, m);
    }
  }

  /** With the corrected median the bound holds for every median bin. */
  lemma {:induction false} Stats1DMedianCorrected(data: seq<real>, contents: seq<real>, variances: seq<real>, edges: seq<real>)
    requires |edges| == |contents| + 1 == |variances| + 1
    requires |contents| > 0 && Ascending(edges)
    ensures var s := GetStats1DCorrected(data, contents, variances, edges).value;
      var b := FromEdges(edges).value;
      var m := MedianIndex(contents, variances, b.widths);
      && b.centers[if m == 0 then 0 else m - 1] <= s.median <= b.centers[m]
      && s == GetStats1D(data, contents, variances, edges).value.(median := s.median)
  {
    var b := FromEdges(edges).value;
    CentersAscend(edges);
    MedianBetweenNeighbours(b.centers, MedianIndex(contents, variances, b.widths));
  }

  // ---------------------------------------------------------------------------------------------
  // stats_fields2d

  /** Column k of a matrix (one x bin across all y bins). */
  function Column(m: seq<seq<real>>, cols: nat, k: nat): (r: seq<real>)
    requires Rectangular(m, cols) && k < cols
    ensures |r| == |m|
  {
    seq(|m|, l requires 0 <= l < |m| => m[l][k])
  }

  /** `contents.sum(axis=0)`: one sum per column. */
  function ColumnSums(m: seq<seq<real>>, cols: nat): (r: seq<real>)
    requires Rectangular(m, cols)
    ensures |r| == cols
  {
    seq(cols, k requires 0 <= k < cols => Sum(Column(m, cols, k)))
  }

  /** Adding up the column sums gives the total of the matrix, as adding up the row sums does. */
  lemma {:induction false} ColumnSumsTotal(m: seq<seq<real>>, cols: nat)
    requires Rectangular(m, cols)
    ensures Sum(ColumnSums(m, cols)) == Total(m)
    decreases |m|
  {
    if |m| == 0 {
      var z := seq(cols, k => 0.0);
      SumScaled(z, ColumnSums(m, cols), 0.0);
    } else {
      var top := m[..|m| - 1];
      var last := m[|m| - 1];
      ColumnSumsTotal(top, cols);
      forall k | 0 <= k < cols ensures ColumnSums(m, cols)[k] == ColumnSums(top, cols)[k] + last[k] {
        assert Column(m, cols, k)[..|m| - 1] == Column(top, cols, k);
      }
      SumAdd(ColumnSums(top, cols), last, ColumnSums(m, cols));
      assert RowSums(m)[..|m| - 1] == RowSums(top);
    }
  }

  /** `contents.transpose()`. */
  function Transpose(m: seq<seq<real>>, cols: nat): (r: seq<seq<real>>)
    requires Rectangular(m, cols)
    ensures |r| == cols && Rectangular(r, |m|)
  {
    seq(cols, k requires 0 <= k < cols => Column(m, cols, k))
  }

  /** The two means of a 2-D histogram, x from the column sums and y from the row sums, each
    * divided by the number of entries. */
  function Means2D(contents: seq<seq<real>>, xcenters: seq<real>, ycenters: seq<real>): Option<(real, real)>
    requires |contents| == |ycenters| && Rectangular(contents, |xcenters|)
  {
    var n := Total(contents);
    if n == 0.0 then None
    else Some((Sum(Mul(ColumnSums(contents, |xcenters|), xcenters)) / n, Sum(Mul(RowSums(contents), ycenters)) / n))
  }

  lemma {:induction false} MulCommutes(a: seq<real>, b: seq<real>)
    requires |a| == |b|
    ensures Mul(a, b) == Mul(b, a)
  {
  }

  /** The 2-D means are the means of the two projections (the marginal histograms), so with
    * non-negative contents each lies between the smallest and largest center of its axis. */
  lemma {:induction false} Means2DAreMarginalMeans(contents: seq<seq<real>>, xcenters: seq<real>, ycenters: seq<real>,
                                xlo: real, xhi: real, ylo: real, yhi: real)
    requires |contents| == |ycenters| && Rectangular(contents, |xcenters|)
    requires Total(contents) != 0.0
    ensures Sum(ColumnSums(contents, |xcenters|)) == Sum(RowSums(contents)) == Total(contents)
    ensures Means2D(contents, xcenters, ycenters).Some?
    ensures Means2D(contents, xcenters, ycenters).value
      == (WeightedMean(xcenters, ColumnSums(contents, |xcenters|)).value, WeightedMean(ycenters, RowSums(contents)).value)
    ensures (forall l, k :: 0 <= l < |contents| && 0 <= k < |xcenters| ==> contents[l][k] >= 0.0) &&
            (forall k :: 0 <= k < |xcenters| ==> xlo <= xcenters[k] <= xhi) &&
            (forall l :: 0 <= l < |ycenters| ==> ylo <= ycenters[l] <= yhi) ==>
      var (mx, my) := Means2D(contents, xcenters, ycenters).value;
      xlo <= mx <= xhi && ylo <= my <= yhi
  {
    var cs := ColumnSums(contents, |xcenters|);
    var rs := RowSums(contents);
    ColumnSumsTotal(contents, |xcenters|);
    MulCommutes(cs, xcenters);
    MulCommutes(rs, ycenters);
    if && (forall l, k :: 0 <= l < |contents| && 0 <= k < |xcenters| ==> contents[l][k] >= 0.0)
       && (forall k :: 0 <= k < |xcenters| ==> xlo <= xcenters[k] <= xhi)
       && (forall l :: 0 <= l < |ycenters| ==> ylo <= ycenters[l] <= yhi)
    {
      forall k | 0 <= k < |xcenters| ensures cs[k] >= 0.0 {
        SumNonNegative(Column(contents, |xcenters|, k));
      }
      forall l | 0 <= l < |contents| ensures rs[l] >= 0.0 {
        SumNonNegative(contents[l]);
      }
      MeanWithinValues(xcenters, cs, xlo, xhi);
      MeanWithinValues(ycenters, rs, ylo, yhi);
    }
  }

  /** One covariance term: `contents[l, k] * (xcenters[k] - mean[0]) * (ycenters[l] - mean[1])`. */
  function CovTerm(c: real, x: real, mx: real, y: real, my: real): real
  {
    c * (x - mx) * (y - my)
  }

  /** The matrix of covariance terms, laid out like the contents. */
  function CovTerms(contents: seq<seq<real>>, xcenters: seq<real>, ycenters: seq<real>, mx: real, my: real)
    : (r: seq<seq<real>>)
    requires |contents| == |ycenters| && Rectangular(contents, |xcenters|)
    ensures |r| == |contents| && Rectangular(r, |xcenters|)
    ensures forall l, k :: 0 <= l < |r| && 0 <= k < |xcenters| ==>
      r[l][k] == CovTerm(contents[l][k], xcenters[k], mx, ycenters[l], my)
  {
    seq(|contents|, l requires 0 <= l < |contents| =>
      seq(|xcenters|, k requires 0 <= k < |xcenters| => CovTerm(contents[l][k], xcenters[k], mx, ycenters[l], my)))
  }

  /**
   * The covariance loop: for every x bin k, and within it every y bin l, add the term of cell
   * [l][k]. The result is the sum of the column sums of the term matrix, in the loop's order.
   */
  method Covariance(contents: seq<seq<real>>, xcenters: seq<real>, ycenters: seq<real>, mx: real, my: real)
    returns (cov: real)
    requires |contents| == |ycenters| && Rectangular(contents, |xcenters|)
    ensures cov == Sum(ColumnSums(CovTerms(contents, xcenters, ycenters, mx, my), |xcenters|))
  {
    ghost var t := CovTerms(contents, xcenters, ycenters, mx, my);
    ghost var sums := ColumnSums(t, |xcenters|);
    cov := 0.0;
    var k := 0;
    while k < |xcenters|
      invariant 0 <= k <= |xcenters|
      invariant cov == Sum(sums[..k])
    {
      ghost var column := Column(t, |xcenters|, k);
      ghost var before := cov;
      var l := 0;
      while l < |contents|
        invariant 0 <= l <= |contents|
        invariant cov == before + Sum(column[..l])
      {
        cov := cov + contents[l][k] * (xcenters[k] - mx) * (ycenters[l] - my);
        SumPrefixStep(column, l);
        l := l + 1;
      }
      assert column[..|contents|] == column;
      SumPrefixStep(sums, k);
      k := k + 1;
    }
    assert sums[..|xcenters|] == sums;
  }

  /** Summed row by row instead, the covariance is the total of the term matrix. */
  lemma {:induction false} CovarianceIsCellTotal(contents: seq<seq<real>>, xcenters: seq<real>, ycenters: seq<real>, mx: real, my: real)
    requires |contents| == |ycenters| && Rectangular(contents, |xcenters|)
    ensures Sum(ColumnSums(CovTerms(contents, xcenters, ycenters, mx, my), |xcenters|))
      == Total(CovTerms(contents, xcenters, ycenters, mx, my))
  {
    ColumnSumsTotal(CovTerms(contents, xcenters, ycenters, mx, my), |xcenters|);
  }

  /** Swapping the axes (transposing the contents and exchanging centers and means) leaves the
    * covariance unchanged. */
  lemma {:induction false} CovarianceSymmetric(contents: seq<seq<real>>, xcenters: seq<real>, ycenters: seq<real>, mx: real, my: real)
    requires |contents| == |ycenters| && Rectangular(contents, |xcenters|)
    ensures var swapped := CovTerms(Transpose(contents, |xcenters|), ycenters, xcenters, my, mx);
      Sum(ColumnSums(swapped, |ycenters|))
        == Sum(ColumnSums(CovTerms(contents, xcenters, ycenters, mx, my), |xcenters|))
  {
    var t := CovTerms(contents, xcenters, ycenters, mx, my);
    var swapped := CovTerms(Transpose(contents, |xcenters|), ycenters, xcenters, my, mx);
    ColumnSumsTotal(swapped, |ycenters|);
    forall k | 0 <= k < |xcenters| ensures RowSums(swapped)[k] == ColumnSums(t, |xcenters|)[k] {
      forall l | 0 <= l < |contents| ensures swapped[k][l] == Column(t, |xcenters|, k)[l] {
        SwapTerm(contents[l][k], xcenters[k], mx, ycenters[l], my);
      }
      SumPointwise(swapped[k], Column(t, |xcenters|, k));
    }
    SumPointwise(RowSums(swapped), ColumnSums(t, |xcenters|));
  }

  lemma {:induction false} SwapTerm(c: real, x: real, mx: real, y: real, my: real)
    ensures CovTerm(c, y, my, x, mx) == CovTerm(c, x, mx, y, my)
  {
  }

  datatype Stats2D = Stats2D(n: real, means: Option<(real, real)>, cov: Option<real>)

  /**
   * `stats_fields2d(i, contents, xcenters, ycenters)` without the text box. `contents` has one row
   * per y bin and one column per x bin. With no entries the means and the covariance are NaN
   * (None).
   */
  method GetStats2D(contents: seq<seq<real>>, xcenters: seq<real>, ycenters: seq<real>) returns (s: Stats2D)
    requires |contents| == |ycenters| && Rectangular(contents, |xcenters|)
    ensures s.n == Total(contents)
    ensures s.means == Means2D(contents, xcenters, ycenters)
    ensures s.means.None? <==> s.n == 0.0
    ensures s.cov.Some? <==> s.n != 0.0
    ensures s.cov.Some? ==>
      var (mx, my) := s.means.value;
      s.cov.value == Total(CovTerms(contents, xcenters, ycenters, mx, my)) / s.n
  {
    var n := Total(contents);
    var means := Means2D(contents, xcenters, ycenters);
    if means.None? {
      return Stats2D(n, None, None);
    }
    var (mx, my) := means.value;
    var cov := Covariance(contents, xcenters, ycenters, mx, my);
    CovarianceIsCellTotal(contents, xcenters, ycenters, mx, my);
    s := Stats2D(n, means, Some(cov / n));
  }
}
