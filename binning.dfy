/**
 * Histogram binning and the derived views of ctplot/plot.py: resolving a bin specification into
 * edges, centers and widths, the cumulative and density transforms, the stairstep coordinates and
 * the Poisson error floor. Numbers are exact reals; uncertainties are carried as variances (the
 * squares of the source's error arrays), so no square root is needed.
 */
module Binning {
  import opened Seqs
  import opened Outcomes

  /** What `get_binning` accepts: a scalar bin count, or a sequence (a triple or verbatim edges). */
  datatype BinSpec = Count(n: real) | Values(values: seq<real>)

  datatype Binning = Binning(edges: seq<real>, centers: seq<real>, widths: seq<real>)

  datatype BinningError =
    | EmptySample      // nanmin/nanmax of an empty sample raise
    | NegativeCount    // linspace refuses a negative number of points
    | NoEdges          // the length assertion after computing the centers fails

  /** The number of points linspace produces for a requested real count. */
  function PointCount(num: real): Result<nat, BinningError>
  {
    var t := TruncateTowardZero(num);
    if t < 0 then Err(NegativeCount) else Ok(t)
  }

  /** numpy's `linspace(lo, hi, num)`: `num` equally spaced points from `lo` to `hi` inclusive. */
  function Linspace(lo: real, hi: real, num: nat): (r: seq<real>)
    ensures |r| == num
    ensures num >= 1 ==> r[0] == lo
    ensures num >= 2 ==> r[num - 1] == hi
    ensures num >= 2 ==> forall k :: 0 <= k < num - 1 ==> r[k + 1] - r[k] == (hi - lo) / (num - 1) as real
  {
    if num <= 1 then seq(num, k => lo)
    else
      var step := (hi - lo) / (num - 1) as real;
      var r := seq(num, k requires 0 <= k < num => lo + k as real * step);
      assert r[num - 1] == lo + (num - 1) as real * step;
      r
  }

  /** Smallest element of a non-empty sample (numpy's `nanmin` on NaN-free data). */
  function SampleMin(s: seq<real>): (m: real)
    requires |s| > 0
    ensures m in s
    ensures forall i :: 0 <= i < |s| ==> m <= s[i]
  {
    if |s| == 1 then s[0]
    else
      var m := SampleMin(s[1..]);
      assert forall i :: 1 <= i < |s| ==> s[i] == s[1..][i - 1];
      if s[0] <= m then s[0] else m
  }

  /** Largest element of a non-empty sample (numpy's `nanmax` on NaN-free data). */
  function SampleMax(s: seq<real>): (m: real)
    requires |s| > 0
    ensures m in s
    ensures forall i :: 0 <= i < |s| ==> s[i] <= m
  {
    if |s| == 1 then s[0]
    else
      var m := SampleMax(s[1..]);
      assert forall i :: 1 <= i < |s| ==> s[i] == s[1..][i - 1];
      if s[0] >= m then s[0] else m
  }

  /** Centers and widths derived from the edges (lines 80-82). */
  function FromEdges(edges: seq<real>): Result<Binning, BinningError>
  {
    if |edges| == 0 then Err(NoEdges)
    else
      Ok(Binning(edges,
                 seq(|edges| - 1, i requires 0 <= i < |edges| - 1 => (edges[i] + edges[i + 1]) / 2.0),
                 seq(|edges| - 1, i requires 0 <= i < |edges| - 1 => edges[i + 1] - edges[i])))
  }

  /** `get_binning(bins, data)`. */
  function GetBinning(spec: BinSpec, data: seq<real>): Result<Binning, BinningError>
  {
    match spec
    case Count(n) =>
      if |data| == 0 then Err(EmptySample)
      else
        (match PointCount(n + 1.0)
         case Err(e) => Err(e)
         case Ok(num) => FromEdges(Linspace(SampleMin(data), SampleMax(data), num)))
    case Values(vs) =>
      if |vs| == 3 then
        (match PointCount(vs[2] + 1.0)
         case Err(e) => Err(e)
         case Ok(num) => FromEdges(Linspace(vs[0], vs[1], num)))
      else FromEdges(vs)
  }

  /** The shape every successful binning has: one center and one width per bin, each center
    * mid-way between its edges and each width the distance between them. */
  predicate WellShaped(b: Binning)
  {
    && |b.edges| >= 1
    && |b.centers| == |b.edges| - 1 == |b.widths|
    && (forall i :: 0 <= i < |b.centers| ==> b.centers[i] - b.edges[i] == b.edges[i + 1] - b.centers[i])
    && (forall i :: 0 <= i < |b.widths| ==> b.edges[i] + b.widths[i] == b.edges[i + 1])
  }

  lemma {:induction false} GetBinningShape(spec: BinSpec, data: seq<real>)
    requires GetBinning(spec, data).Ok?
    ensures WellShaped(GetBinning(spec, data).value)
  {
  }

  /** The edges are recovered from the first edge and the running sum of the widths. */
  lemma {:induction false} EdgesFromWidths(b: Binning, k: nat)
    requires WellShaped(b)
    requires k < |b.edges|
    ensures b.edges[k] == b.edges[0] + Sum(b.widths[..k])
  {
    if k > 0 {
      EdgesFromWidths(b, k - 1);
      SumPrefixStep(b.widths, k - 1);
    }
  }

  /** An integral count N spans N equal bins from the sample minimum to the sample maximum. */
  lemma {:induction false} CountSpecSpansSample(n: nat, data: seq<real>)
    requires |data| > 0
    ensures GetBinning(Count(n as real), data).Ok?
    ensures var b := GetBinning(Count(n as real), data).value;
      && |b.edges| == n + 1 && |b.centers| == n
      && b.edges[0] == SampleMin(data)
      && (n >= 1 ==> b.edges[n] == SampleMax(data))
      && (forall i :: 0 <= i < n ==> b.widths[i] == (SampleMax(data) - SampleMin(data)) / n as real)
      && (forall x :: x in data ==> b.edges[0] <= x && (n >= 1 ==> x <= b.edges[n]))
  {
    assert (n as real + 1.0).Floor == n + 1;
    assert PointCount(n as real + 1.0) == Ok(n + 1);
    var lo, hi := SampleMin(data), SampleMax(data);
    var e := Linspace(lo, hi, n + 1);
    assert GetBinning(Count(n as real), data) == FromEdges(e);
    LinspaceBinning(lo, hi, n);
    forall x | x in data ensures lo <= x <= hi {
      var j :| 0 <= j < |data| && data[j] == x;
    }
  }

  /** The binning made from n + 1 equally spaced edges from lo to hi. */
  lemma {:induction false} LinspaceBinning(lo: real, hi: real, n: nat)
    ensures FromEdges(Linspace(lo, hi, n + 1)).Ok?
    ensures var b := FromEdges(Linspace(lo, hi, n + 1)).value;
      && |b.edges| == n + 1 && |b.centers| == n && b.edges[0] == lo && (n >= 1 ==> b.edges[n] == hi)
      && (forall i :: 0 <= i < n ==> b.widths[i] == (hi - lo) / n as real)
  {
    var e := Linspace(lo, hi, n + 1);
    var b := FromEdges(e).value;
    forall i | 0 <= i < n ensures b.widths[i] == (hi - lo) / n as real {
      assert b.widths[i] == e[i + 1] - e[i];
    }
  }

  /** A triple (lo, hi, N) with integral N spans N equal bins from lo to hi, ignoring the sample. */
  lemma {:induction false} TripleSpecSpansRange(lo: real, hi: real, n: nat, data: seq<real>)
    ensures GetBinning(Values([lo, hi, n as real]), data).Ok?
    ensures var b := GetBinning(Values([lo, hi, n as real]), data).value;
      && |b.edges| == n + 1 && b.edges[0] == lo && (n >= 1 ==> b.edges[n] == hi)
      && (forall i :: 0 <= i < n ==> b.widths[i] == (hi - lo) / n as real)
  {
    assert (n as real + 1.0).Floor == n + 1;
    assert PointCount(n as real + 1.0) == Ok(n + 1);
    assert GetBinning(Values([lo, hi, n as real]), data) == FromEdges(Linspace(lo, hi, n + 1));
    LinspaceBinning(lo, hi, n);
  }

  /** Any other non-empty sequence is taken verbatim as the edges. */
  lemma {:induction false} ExplicitSpecVerbatim(vs: seq<real>, data: seq<real>)
    requires |vs| != 3 && |vs| >= 1
    ensures GetBinning(Values(vs), data).Ok?
    ensures GetBinning(Values(vs), data).value.edges == vs
  {
  }

  /** The error cases: an empty sample for a count, a count below -1, and no edges at all. */
  lemma {:induction false} GetBinningErrors(spec: BinSpec, data: seq<real>)
    ensures spec.Count? && |data| == 0 ==> GetBinning(spec, data) == Err(EmptySample)
    ensures spec.Count? && |data| > 0 && spec.n <= -2.0 ==> GetBinning(spec, data) == Err(NegativeCount)
    ensures spec.Values? && |spec.values| == 0 ==> GetBinning(spec, data) == Err(NoEdges)
    ensures spec.Count? && |data| > 0 && -2.0 < spec.n < 0.0 ==> GetBinning(spec, data) == Err(NoEdges)
  {
  }

  /** Equal-width edges over a non-degenerate range are strictly ascending. */
  lemma {:induction false} LinspaceAscending(lo: real, hi: real, num: nat)
    requires lo < hi
    ensures forall i, j :: 0 <= i < j < num ==> Linspace(lo, hi, num)[i] < Linspace(lo, hi, num)[j]
  {
    var r := Linspace(lo, hi, num);
    if num >= 2 {
      var step := (hi - lo) / (num - 1) as real;
      assert step > 0.0;
      forall i, j | 0 <= i < j < num ensures r[i] < r[j] {
        AscendingBySteps(r, step, i, j);
      }
    }
  }

  lemma {:induction false} AscendingBySteps(r: seq<real>, step: real, i: nat, j: nat)
    requires step > 0.0
    requires forall k :: 0 <= k < |r| - 1 ==> r[k + 1] - r[k] == step
    requires i < j < |r|
    ensures r[i] < r[j]
    decreases j - i
  {
    if j > i + 1 {
      AscendingBySteps(r, step, i, j - 1);
    }
  }

  // ---------------------------------------------------------------------------------------------
  // get_cumulative

  /** How `get_cumulative` reads its `cumulative` argument. */
  datatype Direction = Forward | Reverse | Unchanged

  function DirectionOf(cumulative: real): Direction
  {
    if cumulative > 0.0 then Forward else if cumulative < 0.0 then Reverse else Unchanged
  }

  /** numpy's `cumsum`: entry i is the sum of the first i + 1 values. */
  function CumSum(xs: seq<real>): (r: seq<real>)
    ensures |r| == |xs|
  {
    seq(|xs|, i requires 0 <= i < |xs| => Sum(xs[..i + 1]))
  }

  /** `sum(xs) - cumsum(xs)`: entry i is what remains after the first i + 1 values. */
  function Remainders(xs: seq<real>): (r: seq<real>)
    ensures |r| == |xs|
  {
    seq(|xs|, i requires 0 <= i < |xs| => Sum(xs) - Sum(xs[..i + 1]))
  }

  function Accumulate(xs: seq<real>, dir: Direction): seq<real>
  {
    match dir
    case Forward => CumSum(xs)
    case Reverse => Remainders(xs)
    case Unchanged => xs
  }

  /**
   * `get_cumulative(contents, errors, cumulative, widths)` on contents and variances: the
   * contents accumulate as content * width and the variances as (error * width)^2, that is
   * variance * width^2. With `cumulative == 0` both come back unchanged.
   */
  function GetCumulative(contents: seq<real>, variances: seq<real>, cumulative: real, widths: seq<real>)
    : (r: (seq<real>, seq<real>))
    requires |contents| == |variances| == |widths|
    ensures |r.0| == |r.1| == |contents|
  {
    var dir := DirectionOf(cumulative);
    if dir == Unchanged then (contents, variances)
    else (Accumulate(Mul(contents, widths), dir), Accumulate(Mul(variances, Mul(widths, widths)), dir))
  }

  /** Forward accumulation is a running sum of the weighted contents content * width: it starts
    * at the first one, each entry adds the next one, and the last entry is their total. */
  lemma {:induction false} CumulativeForward(contents: seq<real>, variances: seq<real>, cumulative: real, widths: seq<real>)
    requires |contents| == |variances| == |widths| >= 1
    requires cumulative > 0.0
    ensures var c := GetCumulative(contents, variances, cumulative, widths).0;
      var w := Mul(contents, widths);
      && c[0] == w[0]
      && (forall i :: 0 < i < |c| ==> c[i] == c[i - 1] + w[i])
      && c[|c| - 1] == Sum(w)
  {
    var cw := Mul(contents, widths);
    assert GetCumulative(contents, variances, cumulative, widths).0 == CumSum(cw);
    CumSumSteps(cw);
  }

  /** The variances accumulate the same way, each bin adding its weighted variance
    * variance * width^2 (the square of error * width). */
  lemma {:induction false} CumulativeForwardVariances(contents: seq<real>, variances: seq<real>, cumulative: real, widths: seq<real>)
    requires |contents| == |variances| == |widths| >= 1
    requires cumulative > 0.0
    ensures var v := GetCumulative(contents, variances, cumulative, widths).1;
      var w := Mul(variances, Mul(widths, widths));
      && v[0] == w[0]
      && (forall i :: 0 < i < |v| ==> v[i] == v[i - 1] + w[i])
      && v[|v| - 1] == Sum(w)
  {
    var w := Mul(variances, Mul(widths, widths));
    assert GetCumulative(contents, variances, cumulative, widths).1 == CumSum(w);
    CumSumSteps(w);
  }

  /** A running sum starts at the first value, adds one value per step and ends at the total. */
  lemma {:induction false} CumSumSteps(xs: seq<real>)
    requires |xs| >= 1
    ensures CumSum(xs)[0] == xs[0]
    ensures forall i :: 0 < i < |xs| ==> CumSum(xs)[i] == CumSum(xs)[i - 1] + xs[i]
    ensures CumSum(xs)[|xs| - 1] == Sum(xs)
  {
    SumPrefixStep(xs, 0);
    assert xs[..0] == [];
    assert xs[..|xs|] == xs;
    forall i | 0 < i < |xs| ensures CumSum(xs)[i] == CumSum(xs)[i - 1] + xs[i] {
      SumPrefixStep(xs, i);
    }
  }

  /** Reverse accumulation is the total minus the running sum: forward and reverse entries add
    * up to the total, and the last reverse entry is zero. */
  lemma {:induction false} CumulativeReverse(contents: seq<real>, variances: seq<real>, cumulative: real, widths: seq<real>)
    requires |contents| == |variances| == |widths| >= 1
    requires cumulative > 0.0
    ensures var (f, fv) := GetCumulative(contents, variances, cumulative, widths);
      var (r, rv) := GetCumulative(contents, variances, -cumulative, widths);
      && (forall i :: 0 <= i < |r| ==> f[i] + r[i] == Sum(Mul(contents, widths)))
      && (forall i :: 0 <= i < |rv| ==> fv[i] + rv[i] == Sum(Mul(variances, Mul(widths, widths))))
      && r[|r| - 1] == 0.0 && rv[|rv| - 1] == 0.0
  {
    var cw := Mul(contents, widths);
    var vw := Mul(variances, Mul(widths, widths));
    assert cw[..|cw|] == cw;
    assert vw[..|vw|] == vw;
  }

  /** Differencing the forward accumulation gives back the weighted contents (round trip). */
  lemma {:induction false} CumulativeRoundTrip(contents: seq<real>, widths: seq<real>, i: nat)
    requires |contents| == |widths|
    requires i < |contents|
    ensures var c := CumSum(Mul(contents, widths));
      contents[i] * widths[i] == if i == 0 then c[0] else c[i] - c[i - 1]
  {
    var cw := Mul(contents, widths);
    SumPrefixStep(cw, i);
    assert cw[..0] == [];
  }

  /** With `cumulative == 0` nothing changes. */
  lemma {:induction false} CumulativeUnchanged(contents: seq<real>, variances: seq<real>, widths: seq<real>)
    requires |contents| == |variances| == |widths|
    ensures GetCumulative(contents, variances, 0.0, widths) == (contents, variances)
  {
  }

  // ---------------------------------------------------------------------------------------------
  // get_density, get_density2d

  /** One density content: `content / (total * width)`, zeroed where that is not finite. */
  function DensityCell(content: real, total: real, width: real): real
  {
    if total * width == 0.0 then 0.0 else content / (total * width)
  }

  /** One density variance: `(error / (total * width))^2`; None where that is not finite. */
  function DensityVariance(variance: real, total: real, width: real): Option<real>
  {
    var scale := total * width;
    if scale == 0.0 then None else Some(variance / (scale * scale))
  }

  /** The area of a 2-D bin. */
  function Area(xwidth: real, ywidth: real): real
  {
    xwidth * ywidth
  }

  /**
   * `get_density(contents, errors, widths)` on contents and variances. Entry i is scaled by
   * 1 / (total * width[i]); where that divides by zero the content becomes 0 (the source zeroes
   * non-finite contents) while the variance stays non-finite, modelled as None.
   */
  function GetDensity(contents: seq<real>, variances: seq<real>, widths: seq<real>)
    : (r: (seq<real>, seq<Option<real>>))
    requires |contents| == |variances| == |widths|
    ensures |r.0| == |r.1| == |contents|
  {
    var total := Sum(contents);
    (seq(|contents|, i requires 0 <= i < |contents| => DensityCell(contents[i], total, widths[i])),
     seq(|contents|, i requires 0 <= i < |contents| => DensityVariance(variances[i], total, widths[i])))
  }

  /** A density cell times its width is the content's share of the total: k * content, where k is
    * the reciprocal of the total. */
  lemma {:induction false} DensityCellTimesWidth(c: real, total: real, w: real, k: real)
    requires k * total == 1.0 && w != 0.0
    ensures DensityCell(c, total, w) * w == k * c
  {
    NonZeroProduct(total, w);
    DivideOutWidth(c, total, w);
    assert k == 1.0 / total;
  }

  /** Each entry of d is k times its content (with k = 1 / total: the content's share). */
  predicate Shares(contents: seq<real>, d: seq<real>, k: real)
  {
    && |d| == |contents|
    && forall i :: 0 <= i < |d| ==> d[i] == k * contents[i]
  }

  /** Each density content times its width is that bin's share of the total. */
  lemma {:induction false} DensityShares(contents: seq<real>, variances: seq<real>, widths: seq<real>, k: real)
    requires |contents| == |variances| == |widths|
    requires k * Sum(contents) == 1.0
    requires forall i :: 0 <= i < |widths| ==> widths[i] != 0.0
    ensures Shares(contents, Mul(GetDensity(contents, variances, widths).0, widths), k)
  {
    var d := Mul(GetDensity(contents, variances, widths).0, widths);
    forall i | 0 <= i < |d| ensures d[i] == k * contents[i] {
      DensityCellShare(contents, variances, widths, d, k, i);
    }
  }

  lemma {:induction false} DensityCellShare(contents: seq<real>, variances: seq<real>, widths: seq<real>,
                                            d: seq<real>, k: real, i: nat)
    requires |contents| == |variances| == |widths|
    requires k * Sum(contents) == 1.0
    requires i < |widths| && widths[i] != 0.0
    requires d == Mul(GetDensity(contents, variances, widths).0, widths)
    ensures d[i] == k * contents[i]
  {
    var total := Sum(contents);
    var dens := GetDensity(contents, variances, widths).0;
    assert dens[i] == DensityCell(contents[i], total, widths[i]);
    assert d[i] == dens[i] * widths[i];
    DensityCellTimesWidth(contents[i], total, widths[i], k);
  }

  /** A density integrates to one: with a non-zero total and non-zero widths,
    * the sum of density * width is 1. */
  lemma {:induction false} DensityIntegratesToOne(contents: seq<real>, variances: seq<real>, widths: seq<real>)
    requires |contents| == |variances| == |widths|
    requires Sum(contents) != 0.0
    requires forall i :: 0 <= i < |widths| ==> widths[i] != 0.0
    ensures Sum(Mul(GetDensity(contents, variances, widths).0, widths)) == 1.0
  {
    var k := 1.0 / Sum(contents);
    InverseTimes(Sum(contents));
    DensityShares(contents, variances, widths, k);
    SharesSumToOne(contents, Mul(GetDensity(contents, variances, widths).0, widths), k);
  }

  /** Entries that are each their share of the total sum to one. */
  lemma {:induction false} SharesSumToOne(contents: seq<real>, d: seq<real>, k: real)
    requires Shares(contents, d, k) && k * Sum(contents) == 1.0
    ensures Sum(d) == 1.0
  {
    SumScaled(contents, d, k);
  }

  /** With a zero total every density content is zero (no non-finite value escapes), while the
    * variances of those bins are non-finite. */
  lemma {:induction false} DensityOfEmptyHistogram(contents: seq<real>, variances: seq<real>, widths: seq<real>)
    requires |contents| == |variances| == |widths|
    requires Sum(contents) == 0.0
    ensures forall i :: 0 <= i < |contents| ==>
      GetDensity(contents, variances, widths).0[i] == 0.0 && GetDensity(contents, variances, widths).1[i] == None
  {
  }

  /** A matrix whose rows all have `cols` entries (numpy's 2-D arrays, row index first). */
  predicate Rectangular(m: seq<seq<real>>, cols: nat)
  {
    forall l :: 0 <= l < |m| ==> |m[l]| == cols
  }

  /** The sum of each row of a matrix. */
  function RowSums(m: seq<seq<real>>): (r: seq<real>)
    ensures |r| == |m|
  {
    seq(|m|, l requires 0 <= l < |m| => Sum(m[l]))
  }

  /** Sum of all entries of a matrix (numpy's `contents.sum()`). */
  function Total(m: seq<seq<real>>): real
  {
    Sum(RowSums(m))
  }

  /**
   * `get_density2d(contents, xwidths, ywidths)`: contents has one row per y bin and one column
   * per x bin; cell [l][k] is divided by total * xwidths[k] * ywidths[l], with non-finite cells
   * zeroed.
   */
  function GetDensity2d(contents: seq<seq<real>>, xwidths: seq<real>, ywidths: seq<real>)
    : (r: seq<seq<real>>)
    requires |contents| == |ywidths| && Rectangular(contents, |xwidths|)
    ensures |r| == |contents| && Rectangular(r, |xwidths|)
  {
    var total := Total(contents);
    seq(|contents|, l requires 0 <= l < |contents| => DensityRow(contents[l], total, xwidths, ywidths[l]))
  }

  /** One row (one y bin) of a 2-D density. */
  function DensityRow(row: seq<real>, total: real, xwidths: seq<real>, ywidth: real): (r: seq<real>)
    requires |row| == |xwidths|
    ensures |r| == |row|
    ensures forall k :: 0 <= k < |row| ==> r[k] == DensityCell(row[k], total, Area(xwidths[k], ywidth))
  {
    seq(|row|, k requires 0 <= k < |row| => DensityCell(row[k], total, Area(xwidths[k], ywidth)))
  }

  /** Cell-wise product of a matrix with the areas xwidths[k] * ywidths[l]. */
  function TimesArea(m: seq<seq<real>>, xwidths: seq<real>, ywidths: seq<real>): (r: seq<seq<real>>)
    requires |m| == |ywidths| && Rectangular(m, |xwidths|)
    ensures |r| == |m| && Rectangular(r, |xwidths|)
  {
    seq(|m|, l requires 0 <= l < |m| => seq(|xwidths|, k requires 0 <= k < |xwidths| => m[l][k] * Area(xwidths[k], ywidths[l])))
  }

  /** Each cell of a row of a 2-D density times its area is the cell's share of the total. */
  lemma {:induction false} Density2dRow(contents: seq<seq<real>>, xwidths: seq<real>, ywidths: seq<real>,
                                        d: seq<seq<real>>, k: real, l: nat)
    requires |contents| == |ywidths| && Rectangular(contents, |xwidths|)
    requires k * Total(contents) == 1.0
    requires forall j :: 0 <= j < |xwidths| ==> xwidths[j] != 0.0
    requires l < |ywidths| && ywidths[l] != 0.0
    requires d == TimesArea(GetDensity2d(contents, xwidths, ywidths), xwidths, ywidths)
    ensures |d[l]| == |contents[l]|
    ensures forall j :: 0 <= j < |contents[l]| ==> d[l][j] == k * contents[l][j]
  {
    assert |contents[l]| == |xwidths|;
    assert |d[l]| == |xwidths|;
    forall j | 0 <= j < |xwidths| ensures d[l][j] == k * contents[l][j] {
      Density2dCell(contents, xwidths, ywidths, d, k, l, j);
    }
  }

  /** One cell of a 2-D density times its area is the cell's share of the total. */
  lemma {:induction false} Density2dCell(contents: seq<seq<real>>, xwidths: seq<real>, ywidths: seq<real>,
                                         d: seq<seq<real>>, k: real, l: nat, j: nat)
    requires |contents| == |ywidths| && Rectangular(contents, |xwidths|)
    requires k * Total(contents) == 1.0
    requires l < |ywidths| && ywidths[l] != 0.0 && j < |xwidths| && xwidths[j] != 0.0
    requires d == TimesArea(GetDensity2d(contents, xwidths, ywidths), xwidths, ywidths)
    ensures d[l][j] == k * contents[l][j]
  {
    var total := Total(contents);
    var dens := GetDensity2d(contents, xwidths, ywidths);
    var area := Area(xwidths[j], ywidths[l]);
    NonZeroProduct(xwidths[j], ywidths[l]);
    assert dens[l] == DensityRow(contents[l], total, xwidths, ywidths[l]);
    assert dens[l][j] == DensityCell(contents[l][j], total, area);
    assert d[l][j] == dens[l][j] * area;
    DensityCellTimesWidth(contents[l][j], total, area, k);
  }

  /** A 2-D density integrates to one over the cell areas when the total and all widths are non-zero. */
  lemma {:induction false} Density2dIntegratesToOne(contents: seq<seq<real>>, xwidths: seq<real>, ywidths: seq<real>)
    requires |contents| == |ywidths| && Rectangular(contents, |xwidths|)
    requires Total(contents) != 0.0
    requires forall j :: 0 <= j < |xwidths| ==> xwidths[j] != 0.0
    requires forall l :: 0 <= l < |ywidths| ==> ywidths[l] != 0.0
    ensures Total(TimesArea(GetDensity2d(contents, xwidths, ywidths), xwidths, ywidths)) == 1.0
  {
    var k := 1.0 / Total(contents);
    InverseTimes(Total(contents));
    var d := TimesArea(GetDensity2d(contents, xwidths, ywidths), xwidths, ywidths);
    Density2dCellShares(contents, xwidths, ywidths, d, k);
    CellsToRowShares(contents, d, k);
    RowSumsShare(contents, d, k);
    SharesSumToOne(RowSums(contents), RowSums(d), k);
  }

  /** Each row of d sums to k times the sum of its row of `contents`. */
  predicate RowShares(contents: seq<seq<real>>, d: seq<seq<real>>, k: real)
  {
    && |d| == |contents|
    && forall l :: 0 <= l < |d| ==> Sum(d[l]) == k * Sum(contents[l])
  }

  /** Every cell of d is k times its cell of `contents`. */
  predicate CellShares(contents: seq<seq<real>>, d: seq<seq<real>>, k: real)
  {
    && |d| == |contents|
    && forall l :: 0 <= l < |d| ==>
         |d[l]| == |contents[l]| && forall j :: 0 <= j < |d[l]| ==> d[l][j] == k * contents[l][j]
  }

  /** Every cell of a 2-D density times its area is its share of the total. */
  lemma {:induction false} Density2dCellShares(contents: seq<seq<real>>, xwidths: seq<real>, ywidths: seq<real>,
                                               d: seq<seq<real>>, k: real)
    requires |contents| == |ywidths| && Rectangular(contents, |xwidths|)
    requires k * Total(contents) == 1.0
    requires forall j :: 0 <= j < |xwidths| ==> xwidths[j] != 0.0
    requires forall l :: 0 <= l < |ywidths| ==> ywidths[l] != 0.0
    requires d == TimesArea(GetDensity2d(contents, xwidths, ywidths), xwidths, ywidths)
    ensures CellShares(contents, d, k)
  {
    forall l | 0 <= l < |d|
      ensures |d[l]| == |contents[l]| && forall j :: 0 <= j < |d[l]| ==> d[l][j] == k * contents[l][j]
    {
      Density2dRow(contents, xwidths, ywidths, d, k, l);
    }
  }

  /** Cell shares add up to row shares. */
  lemma {:induction false} CellsToRowShares(contents: seq<seq<real>>, d: seq<seq<real>>, k: real)
    requires CellShares(contents, d, k)
    ensures RowShares(contents, d, k)
  {
    forall l | 0 <= l < |d| ensures Sum(d[l]) == k * Sum(contents[l]) {
      SumScaled(contents[l], d[l], k);
    }
  }

  /** Row shares are shares of the row sums. */
  lemma {:induction false} RowSumsShare(contents: seq<seq<real>>, d: seq<seq<real>>, k: real)
    requires RowShares(contents, d, k)
    ensures Shares(RowSums(contents), RowSums(d), k)
  {
  }

  lemma {:induction false} InverseTimes(t: real)
    requires t != 0.0
    ensures (1.0 / t) * t == 1.0
  {
  }

  lemma {:induction false} NonZeroProduct(a: real, b: real)
    requires a != 0.0 && b != 0.0
    ensures a * b != 0.0
  {
  }

  /** c / (t * w) * w == c / t for non-zero t and w. */
  lemma {:induction false} DivideOutWidth(c: real, t: real, w: real)
    requires t != 0.0 && w != 0.0
    ensures c / (t * w) * w == (1.0 / t) * c
  {
    var q := c / (t * w);
    assert q * (t * w) == c;
    assert (q * w) * t == c;
    assert (1.0 / t) * c * t == c;
  }

  // ---------------------------------------------------------------------------------------------
  // get_step_points

  /**
   * `get_step_points(contents, edges)`: fills two zeroed arrays of length 2 * |edges| so that every
   * edge appears twice on the x axis and every content forms a plateau between its two edges,
   * with the outer y values pinned to zero.
   */
  method GetStepPoints(contents: seq<real>, edges: seq<real>) returns (xs: seq<real>, ys: seq<real>)
    requires |contents| + 1 == |edges|
    ensures |xs| == |ys| == 2 * |edges|
    ensures forall k :: 0 <= k < |edges| ==> xs[2 * k] == edges[k] && xs[2 * k + 1] == edges[k]
    ensures ys[0] == 0.0 && ys[|ys| - 1] == 0.0
    ensures forall k :: 0 <= k < |contents| ==> ys[2 * k + 1] == contents[k] && ys[2 * k + 2] == contents[k]
  {
    var n := |edges|;
    var x := new real[2 * n](_ => 0.0);
    var y := new real[2 * n](_ => 0.0);
    // x[::2] = edges; x[1::2] = edges
    var k := 0;
    while k < n
      modifies x
      invariant 0 <= k <= n
      invariant forall j :: 0 <= j < k ==> x[2 * j] == edges[j] && x[2 * j + 1] == edges[j]
    {
      x[2 * k] := edges[k];
      x[2 * k + 1] := edges[k];
      k := k + 1;
    }
    // y[1:-1:2] = contents; y[2:-1:2] = contents
    k := 0;
    while k < n - 1
      modifies y
      invariant 0 <= k <= n - 1
      invariant forall j :: 0 <= j < k ==> y[2 * j + 1] == contents[j] && y[2 * j + 2] == contents[j]
      invariant y[0] == 0.0 && y[2 * n - 1] == 0.0
    {
      y[2 * k + 1] := contents[k];
      y[2 * k + 2] := contents[k];
      k := k + 1;
    }
    xs, ys := x[..], y[..];
  }

  // ---------------------------------------------------------------------------------------------
  // Poisson errors (lines 894-895)

  /** `errors = sqrt(contents); errors[errors == 0] = 1`, as variances: a count's variance is the
    * count itself, and an empty bin gets variance 1, so no bin has a zero error. */
  function PoissonVariances(counts: seq<nat>): (v: seq<real>)
    ensures |v| == |counts|
    ensures forall i :: 0 <= i < |v| ==> v[i] >= 1.0
    ensures forall i :: 0 <= i < |v| ==> counts[i] > 0 ==> v[i] == counts[i] as real
  {
    seq(|counts|, i requires 0 <= i < |counts| => if counts[i] == 0 then 1.0 else counts[i] as real)
  }
}
