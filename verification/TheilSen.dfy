/**
 The robust line of the forecast: median of the pairwise slopes, median intercept and the
 quantiles of the residuals, and how the whole fit moves when the capacities are rescaled.
 */
module TheilSen {

  import opened OrderStatistics

  /** A line and the offsets of its low, middle and high curve. */
  datatype Fit = Fit(slope: real, intercept: real, low: real, mid: real, high: real)

  datatype Band = Band(p10: real, p50: real, p90: real)

  predicate Growing(x: seq<real>) {
    forall i, j | 0 <= i < j < |x| :: x[i] < x[j]
  }

  function Slope(a: real, b: real, run: real): real
    requires run != 0.0
  {
    (b - a) / run
  }

  function Drop(y: real, slope: real, x: real): real {
    y - slope * x
  }

  function Residual(y: real, slope: real, intercept: real, x: real): real {
    y - (intercept + slope * x)
  }

  /** A curve of the forecast: the line moved by an offset. */
  function Height(intercept: real, slope: real, offset: real, x: real): real {
    intercept + slope * x + offset
  }

  /** The slopes from the i-th point to the j-th and every later one. */
  function Row(x: seq<real>, y: seq<real>, i: nat, j: nat): seq<real>
    requires i < j <= |x| == |y| && Growing(x)
    decreases |x| - j
  {
    if j == |x| then [] else [SlopeTo(x, y, i, j)] + Row(x, y, i, j + 1)
  }

  function SlopeTo(x: seq<real>, y: seq<real>, i: nat, j: nat): real
    requires i < j < |x| == |y| && Growing(x)
  {
    Slope(y[i], y[j], x[j] - x[i])
  }

  function TopRow(x: seq<real>, y: seq<real>, i: nat): seq<real>
    requires i < |x| == |y| && Growing(x)
  {
    Row(x, y, i, i + 1)
  }

  /** The upper triangle of the slopes, row by row from the i-th. */
  function Slopes(x: seq<real>, y: seq<real>, i: nat): (r: seq<real>)
    requires i <= |x| == |y| && Growing(x)
    ensures i + 1 < |x| ==> r != []
    decreases |x| - i
  {
    if i == |x| then []
    else
      assert i + 1 < |x| ==> Row(x, y, i, i + 1) != [];
      TopRow(x, y, i) + Slopes(x, y, i + 1)
  }

  function Drops(x: seq<real>, y: seq<real>, slope: real): (r: seq<real>)
    requires |x| == |y|
    ensures |r| == |y|
  {
    if x == [] then [] else [Drop(y[0], slope, x[0])] + Drops(x[1..], y[1..], slope)
  }

  function Residuals(x: seq<real>, y: seq<real>, slope: real, intercept: real): (r: seq<real>)
    requires |x| == |y|
    ensures |r| == |y|
  {
    if x == [] then [] else [Residual(y[0], slope, intercept, x[0])] + Residuals(x[1..], y[1..], slope, intercept)
  }

  function FitOf(x: seq<real>, y: seq<real>): Fit
    requires 1 < |x| == |y| && Growing(x)
  {
    var slope := Median(Slopes(x, y, 0));
    var intercept := Median(Drops(x, y, slope));
    var r := Residuals(x, y, slope, intercept);
    Fit(slope, intercept, Quantile(r, 0.1), Quantile(r, 0.5), Quantile(r, 0.9))
  }

  function Curves(fit: Fit, x: real): (three: seq<real>)
    ensures |three| == 3
  {
    [Height(fit.intercept, fit.slope, fit.low, x),
     Height(fit.intercept, fit.slope, fit.mid, x),
     Height(fit.intercept, fit.slope, fit.high, x)]
  }

  function BandOf(three: seq<real>): Band
    requires |three| == 3
  {
    Band(three[0], three[1], three[2])
  }

  /** The three curves at one point, in ascending order. */
  function BandAt(fit: Fit, x: real): Band {
    BandOf(Sort(Curves(fit, x)))
  }

  lemma BandIsAscending(fit: Fit, x: real)
    ensures BandAt(fit, x).p10 <= BandAt(fit, x).p50 <= BandAt(fit, x).p90
  {
    SortIsAscending(Curves(fit, x));
  }

  lemma OffsetsAreOrdered(x: seq<real>, y: seq<real>)
    requires 1 < |x| == |y| && Growing(x)
    ensures FitOf(x, y).low <= FitOf(x, y).mid <= FitOf(x, y).high
  {
    var fit := FitOf(x, y);
    var r := Residuals(x, y, fit.slope, fit.intercept);
    QuantileIsMonotone(r, 0.1, 0.5);
    QuantileIsMonotone(r, 0.5, 0.9);
  }

  lemma CurvesAscend(fit: Fit, x: real)
    requires fit.low <= fit.mid <= fit.high
    ensures Ascending(Curves(fit, x))
  {}

  lemma SortedCurves(fit: Fit, x: real)
    requires fit.low <= fit.mid <= fit.high
    ensures Sort(Curves(fit, x)) == Curves(fit, x)
  {
    hide Sort, Curves, Ascending;
    CurvesAscend(fit, x);
    SortIsAscending(Curves(fit, x));
    AscendingIsUnique(Sort(Curves(fit, x)), Curves(fit, x));
  }

  /** Sorting the curves of a fit never moves them: the quantiles are ordered already. */
  lemma SortingMovesNothing(x: seq<real>, y: seq<real>, at: real)
    requires 1 < |x| == |y| && Growing(x)
    ensures var fit := FitOf(x, y);
            var line := fit.intercept + fit.slope * at;
            BandAt(fit, at) == Band(line + fit.low, line + fit.mid, line + fit.high)
  {
    hide FitOf, Sort;
    OffsetsAreOrdered(x, y);
    SortedCurves(FitOf(x, y), at);
  }

  // ------------------------------------------------------------ scaling and shifting

  ghost predicate SlopesFollow(f: real -> real, g: real -> real) {
    forall a, b, run | run != 0.0 :: Slope(f(a), f(b), run) == g(Slope(a, b, run))
  }

  ghost predicate DropsFollow(f: real -> real, g: real -> real) {
    forall y, slope, x :: Drop(f(y), g(slope), x) == f(Drop(y, slope, x))
  }

  ghost predicate ResidualsFollow(f: real -> real, g: real -> real) {
    forall y, slope, i, x :: Residual(f(y), g(slope), f(i), x) == g(Residual(y, slope, i, x))
  }

  ghost predicate HeightsFollow(f: real -> real, g: real -> real) {
    forall i, slope, o, x :: Height(f(i), g(slope), g(o), x) == f(Height(i, slope, o, x))
  }

  /** `f` moves heights and `g` differences of heights, in step with each other. */
  ghost predicate Moves(f: real -> real, g: real -> real) {
    && KeepsOrder(f) && KeepsBetween(f) && KeepsOrder(g) && KeepsBetween(g)
    && SlopesFollow(f, g) && DropsFollow(f, g) && ResidualsFollow(f, g) && HeightsFollow(f, g)
  }

  lemma MapRest(f: real -> real, s: seq<real>)
    requires s != []
    ensures Map(f, s)[0] == f(s[0]) && Map(f, s)[1..] == Map(f, s[1..])
  {}

  lemma {:induction false} MapConcat(f: real -> real, s: seq<real>, t: seq<real>)
    ensures Map(f, s + t) == Map(f, s) + Map(f, t)
  {
    if s == [] {
      assert s + t == t;
    } else {
      assert (s + t)[1..] == s[1..] + t;
      MapConcat(f, s[1..], t);
    }
  }

  lemma SlopeMoves(f: real -> real, g: real -> real, x: seq<real>, y: seq<real>, i: nat, j: nat)
    requires i < j < |x| == |y| && Growing(x) && SlopesFollow(f, g)
    ensures SlopeTo(x, Map(f, y), i, j) == g(SlopeTo(x, y, i, j))
  {
    hide Growing, Map;
    Apart(x, i, j);
  }

  lemma Apart(x: seq<real>, i: nat, j: nat)
    requires i < j < |x| && Growing(x)
    ensures x[j] - x[i] != 0.0
  {}

  lemma MapRow(g: real -> real, x: seq<real>, y: seq<real>, i: nat, j: nat)
    requires i < j < |x| == |y| && Growing(x)
    ensures Map(g, Row(x, y, i, j)) == [g(SlopeTo(x, y, i, j))] + Map(g, Row(x, y, i, j + 1))
  {
    hide Growing, SlopeTo;
  }

  lemma {:induction false} RowMoves(f: real -> real, g: real -> real, x: seq<real>, y: seq<real>, i: nat, j: nat)
    requires i < j <= |x| == |y| && Growing(x) && SlopesFollow(f, g)
    ensures Row(x, Map(f, y), i, j) == Map(g, Row(x, y, i, j))
    decreases |x| - j
  {
    hide Growing, SlopeTo, SlopesFollow;
    if j < |x| {
      SlopeMoves(f, g, x, y, i, j);
      RowMoves(f, g, x, y, i, j + 1);
      MapRow(g, x, y, i, j);
    }
  }

  lemma SlopesSplit(x: seq<real>, y: seq<real>, i: nat)
    requires i < |x| == |y| && Growing(x)
    ensures Slopes(x, y, i) == TopRow(x, y, i) + Slopes(x, y, i + 1)
  {}

  lemma SlopesJoin(g: real -> real, x: seq<real>, y: seq<real>, y': seq<real>, i: nat)
    requires i < |x| == |y| == |y'| && Growing(x)
    requires TopRow(x, y', i) == Map(g, TopRow(x, y, i))
    requires Slopes(x, y', i + 1) == Map(g, Slopes(x, y, i + 1))
    ensures Slopes(x, y', i) == Map(g, Slopes(x, y, i))
  {
    SlopesSplit(x, y, i);
    SlopesSplit(x, y', i);
    MapConcat(g, TopRow(x, y, i), Slopes(x, y, i + 1));
  }

  ghost predicate RowsFollow(g: real -> real, x: seq<real>, y: seq<real>, y': seq<real>)
    requires |x| == |y| == |y'| && Growing(x)
  {
    forall i: nat | i < |x| :: TopRow(x, y', i) == Map(g, TopRow(x, y, i))
  }

  lemma RowsMove(f: real -> real, g: real -> real, x: seq<real>, y: seq<real>)
    requires |x| == |y| && Growing(x) && SlopesFollow(f, g)
    ensures RowsFollow(g, x, y, Map(f, y))
  {
    hide Row, Map, SlopesFollow, Growing;
    forall i: nat | i < |x| ensures TopRow(x, Map(f, y), i) == Map(g, TopRow(x, y, i)) {
      RowMoves(f, g, x, y, i, i + 1);
    }
  }

  lemma {:induction false} SlopesMove(g: real -> real, x: seq<real>, y: seq<real>, y': seq<real>, i: nat)
    requires i <= |x| == |y| == |y'| && Growing(x) && RowsFollow(g, x, y, y')
    ensures Slopes(x, y', i) == Map(g, Slopes(x, y, i))
    decreases |x| - i
  {
    if i < |x| {
      SlopesMove(g, x, y, y', i + 1);
      SlopesJoin(g, x, y, y', i);
    }
  }

  lemma {:induction false} DropsMove(f: real -> real, g: real -> real, x: seq<real>, y: seq<real>, slope: real)
    requires |x| == |y| && DropsFollow(f, g)
    ensures Drops(x, Map(f, y), g(slope)) == Map(f, Drops(x, y, slope))
  {
    if x != [] {
      MapRest(f, y);
      DropsMove(f, g, x[1..], y[1..], slope);
      assert Drop(f(y[0]), g(slope), x[0]) == f(Drop(y[0], slope, x[0]));
    }
  }

  lemma {:induction false} ResidualsMove(f: real -> real, g: real -> real, x: seq<real>, y: seq<real>,
                                         slope: real, intercept: real)
    requires |x| == |y| && ResidualsFollow(f, g)
    ensures Residuals(x, Map(f, y), g(slope), f(intercept)) == Map(g, Residuals(x, y, slope, intercept))
  {
    if x != [] {
      MapRest(f, y);
      ResidualsMove(f, g, x[1..], y[1..], slope, intercept);
      assert Residual(f(y[0]), g(slope), f(intercept), x[0]) == g(Residual(y[0], slope, intercept, x[0]));
    }
  }

  function FitMoved(f: real -> real, g: real -> real, fit: Fit): Fit {
    Fit(g(fit.slope), f(fit.intercept), g(fit.low), g(fit.mid), g(fit.high))
  }

  lemma FitMoves(f: real -> real, g: real -> real, x: seq<real>, y: seq<real>)
    requires 1 < |x| == |y| && Growing(x) && Moves(f, g)
    ensures FitOf(x, Map(f, y)) == FitMoved(f, g, FitOf(x, y))
  {
    RowsMove(f, g, x, y);
    SlopesMove(g, x, y, Map(f, y), 0);
    MedianCommutes(g, Slopes(x, y, 0));
    var slope := Median(Slopes(x, y, 0));
    DropsMove(f, g, x, y, slope);
    MedianCommutes(f, Drops(x, y, slope));
    var intercept := Median(Drops(x, y, slope));
    ResidualsMove(f, g, x, y, slope, intercept);
    var r := Residuals(x, y, slope, intercept);
    QuantileCommutes(g, r, 0.1);
    QuantileCommutes(g, r, 0.5);
    QuantileCommutes(g, r, 0.9);
  }

  function MapBand(f: real -> real, b: Band): Band {
    Band(f(b.p10), f(b.p50), f(b.p90))
  }

  lemma CurvesMove(f: real -> real, g: real -> real, fit: Fit, x: real)
    requires HeightsFollow(f, g)
    ensures Curves(FitMoved(f, g, fit), x) == Map(f, Curves(fit, x))
  {
    var moved := Map(f, Curves(fit, x));
    assert moved == [moved[0], moved[1], moved[2]];
  }

  lemma BandMoves(f: real -> real, g: real -> real, fit: Fit, x: real)
    requires Moves(f, g)
    ensures BandAt(FitMoved(f, g, fit), x) == MapBand(f, BandAt(fit, x))
  {
    CurvesMove(f, g, fit, x);
    SortCommutes(f, Curves(fit, x));
  }

  /** Scaling capacities by `k` and shifting them by `c` moves the forecast the same way. */
  lemma ForecastIsEquivariant(k: real, c: real, x: seq<real>, y: seq<real>, at: real)
    requires 1 < |x| == |y| && Growing(x) && k > 0.0
    ensures BandAt(FitOf(x, Map(Affine(k, c), y)), at) == MapBand(Affine(k, c), BandAt(FitOf(x, y), at))
  {
    AffineMoves(k, c);
    FitMoves(Affine(k, c), Affine(k, 0.0), x, y);
    BandMoves(Affine(k, c), Affine(k, 0.0), FitOf(x, y), at);
  }

  lemma AffineMoves(k: real, c: real)
    requires k > 0.0
    ensures Moves(Affine(k, c), Affine(k, 0.0))
  {
    AffineIsRegular(k, c);
    AffineIsRegular(k, 0.0);
    AffineSlopes(k, c);
    AffineDrops(k, c);
    AffineResiduals(k, c);
    AffineHeights(k, c);
  }

  lemma AffineSlopes(k: real, c: real)
    ensures SlopesFollow(Affine(k, c), Affine(k, 0.0))
  {
    hide Affine, Slope;
    forall a: real, b: real, run: real | run != 0.0
      ensures Slope(Affine(k, c)(a), Affine(k, c)(b), run) == Affine(k, 0.0)(Slope(a, b, run))
    {
      AffineSlope(k, c, a, b, run);
    }
  }

  lemma AffineSlope(k: real, c: real, a: real, b: real, run: real)
    requires run != 0.0
    ensures Slope(Affine(k, c)(a), Affine(k, c)(b), run) == Affine(k, 0.0)(Slope(a, b, run))
  {
    Quotient(k, c, a, b, run);
    hide Slope;
    assert Affine(k, c)(a) == k * a + c && Affine(k, c)(b) == k * b + c;
    assert Affine(k, 0.0)(Slope(a, b, run)) == k * Slope(a, b, run);
  }

  lemma Quotient(k: real, c: real, a: real, b: real, run: real)
    requires run != 0.0
    ensures Slope(k * a + c, k * b + c, run) == k * Slope(a, b, run)
  {
    var q := (b - a) / run;
    assert q * run == b - a;
    assert k * b + c - (k * a + c) == k * (b - a);
    assert k * (q * run) == (k * q) * run;
  }

  lemma AffineDrops(k: real, c: real)
    ensures DropsFollow(Affine(k, c), Affine(k, 0.0))
  {
    forall y: real, slope: real, x: real
      ensures Drop(Affine(k, c)(y), Affine(k, 0.0)(slope), x) == Affine(k, c)(Drop(y, slope, x))
    {
      assert k * slope * x == k * (slope * x);
      assert k * (y - slope * x) == k * y - k * (slope * x);
    }
  }

  lemma AffineResiduals(k: real, c: real)
    ensures ResidualsFollow(Affine(k, c), Affine(k, 0.0))
  {
    forall y: real, slope: real, i: real, x: real
      ensures Residual(Affine(k, c)(y), Affine(k, 0.0)(slope), Affine(k, c)(i), x)
          == Affine(k, 0.0)(Residual(y, slope, i, x))
    {
      assert k * slope * x == k * (slope * x);
      assert k * (y - (i + slope * x)) == k * y - k * i - k * (slope * x);
    }
  }

  lemma AffineHeights(k: real, c: real)
    ensures HeightsFollow(Affine(k, c), Affine(k, 0.0))
  {
    forall i: real, slope: real, o: real, x: real
      ensures Height(Affine(k, c)(i), Affine(k, 0.0)(slope), Affine(k, 0.0)(o), x)
          == Affine(k, c)(Height(i, slope, o, x))
    {
      assert k * slope * x == k * (slope * x);
      assert k * (i + slope * x + o) == k * i + k * (slope * x) + k * o;
    }
  }

  // ------------------------------------------------------------ what the fit takes its medians over

  /** The number of pairs whose first point stands before the i-th. */
  function PairsBefore(n: nat, i: nat): nat
    requires i <= n
  {
    if i == 0 then 0 else PairsBefore(n, i - 1) + n - i
  }

  lemma {:induction false} AllPairs(n: nat, i: nat)
    requires i <= n
    ensures 2 * PairsBefore(n, i) == i * (2 * n - 1 - i)
  {
    if i > 0 {
      AllPairs(n, i - 1);
      assert (i - 1) * (2 * n - 1 - (i - 1)) + 2 * (n - i) == i * (2 * n - 1 - i);
    }
  }

  lemma {:induction false} RowHolds(x: seq<real>, y: seq<real>, i: nat, j: nat, k: nat)
    requires i < j <= k < |x| == |y| && Growing(x)
    ensures |Row(x, y, i, j)| == |x| - j && Row(x, y, i, j)[k - j] == SlopeTo(x, y, i, k)
    decreases |x| - j
  {
    hide SlopeTo, Growing;
    if j + 1 < |x| { RowHolds(x, y, i, j + 1, if k > j then k else j + 1); }
  }

  lemma TopRowIs(x: seq<real>, y: seq<real>, i: nat)
    requires i < |x| == |y| && Growing(x)
    ensures |TopRow(x, y, i)| == |x| - i - 1
    ensures forall k | i < k < |x| :: TopRow(x, y, i)[k - i - 1] == SlopeTo(x, y, i, k)
  {
    forall k | i < k < |x|
      ensures |TopRow(x, y, i)| == |x| - i - 1 && TopRow(x, y, i)[k - i - 1] == SlopeTo(x, y, i, k)
    {
      RowHolds(x, y, i, i + 1, k);
    }
  }

  lemma {:induction false} SlopesFrom(x: seq<real>, y: seq<real>, m: nat, i: nat, k: nat)
    requires m <= i < k < |x| == |y| && Growing(x)
    ensures var at := PairsBefore(|x|, i) - PairsBefore(|x|, m) + k - i - 1;
            0 <= at < |Slopes(x, y, m)| && Slopes(x, y, m)[at] == SlopeTo(x, y, i, k)
    decreases |x| - m
  {
    hide SlopeTo, Growing, TopRow;
    TopRowIs(x, y, m);
    if m < i {
      SlopesFrom(x, y, m + 1, i, k);
    }
  }

  lemma {:induction false} SlopesLength(x: seq<real>, y: seq<real>, m: nat)
    requires m <= |x| == |y| && Growing(x)
    ensures |Slopes(x, y, m)| == PairsBefore(|x|, |x|) - PairsBefore(|x|, m)
    decreases |x| - m
  {
    hide SlopeTo, Growing, TopRow;
    if m < |x| {
      TopRowIs(x, y, m);
      SlopesLength(x, y, m + 1);
    }
  }

  lemma SlopesCount(x: seq<real>, y: seq<real>)
    requires |x| == |y| && Growing(x)
    ensures 2 * |Slopes(x, y, 0)| == |x| * (|x| - 1)
  {
    hide Slopes, Growing;
    SlopesLength(x, y, 0);
    AllPairs(|x|, |x|);
  }

  lemma SlopeOfPair(x: seq<real>, y: seq<real>, i: nat, k: nat)
    requires i < k < |x| == |y| && Growing(x)
    ensures var at := PairsBefore(|x|, i) + k - i - 1;
            x[k] - x[i] != 0.0 && at < |Slopes(x, y, 0)|
            && Slopes(x, y, 0)[at] == (y[k] - y[i]) / (x[k] - x[i])
  {
    hide Slopes;
    SlopesFrom(x, y, 0, i, k);
  }

  /** The slopes are those of all pairs of points, each at its own place: one half of n times n - 1. */
  lemma SlopesAreAllPairs(x: seq<real>, y: seq<real>)
    requires |x| == |y| && Growing(x)
    ensures 2 * |Slopes(x, y, 0)| == |x| * (|x| - 1)
    ensures forall i, k | 0 <= i < k < |x| ::
              var at := PairsBefore(|x|, i) + k - i - 1;
              x[k] - x[i] != 0.0 && at < |Slopes(x, y, 0)|
              && Slopes(x, y, 0)[at] == (y[k] - y[i]) / (x[k] - x[i])
  {
    hide *;
    SlopesCount(x, y);
    forall i, k | 0 <= i < k < |x|
      ensures var at := PairsBefore(|x|, i) + k - i - 1;
              x[k] - x[i] != 0.0 && at < |Slopes(x, y, 0)|
              && Slopes(x, y, 0)[at] == (y[k] - y[i]) / (x[k] - x[i])
    {
      SlopeOfPair(x, y, i, k);
    }
  }

  lemma {:induction false} DropsAre(x: seq<real>, y: seq<real>, slope: real, intercept: real, i: nat)
    requires i < |x| == |y|
    ensures Drops(x, y, slope)[i] == y[i] - slope * x[i]
    ensures Residuals(x, y, slope, intercept)[i] == y[i] - (intercept + slope * x[i])
  {
    if i > 0 { DropsAre(x[1..], y[1..], slope, intercept, i - 1); }
  }

  /** Half of the pairwise slopes lie on each side of the slope, half of the drops on each side of the intercept. */
  lemma FitIsInTheMiddle(x: seq<real>, y: seq<real>)
    requires 1 < |x| == |y| && Growing(x)
    ensures var fit, s := FitOf(x, y), Slopes(x, y, 0);
            && 0.5 * (|s| - 1) as real < CountUpTo(s, fit.slope) as real
            && CountBelow(s, fit.slope) as real < 0.5 * (|s| - 1) as real + 1.0
    ensures var fit := FitOf(x, y);
            var d := Drops(x, y, fit.slope);
            && 0.5 * (|x| - 1) as real < CountUpTo(d, fit.intercept) as real
            && CountBelow(d, fit.intercept) as real < 0.5 * (|x| - 1) as real + 1.0
  {
    hide Slopes, Drops, CountUpTo, CountBelow, Median, Quantile;
    var s := Slopes(x, y, 0);
    MedianIsMiddleQuantile(s);
    QuantileRank(s, 0.5);
    var d := Drops(x, y, Median(s));
    MedianIsMiddleQuantile(d);
    QuantileRank(d, 0.5);
  }

  // ------------------------------------------------------------ how much of the history the band holds

  /** The points under the line moved by an offset. */
  function PointsUnder(fit: Fit, offset: real, x: seq<real>, y: seq<real>): nat
    requires |x| == |y|
  {
    if x == [] then 0
    else PointsUnder(fit, offset, x[1..], y[1..])
         + if y[0] < fit.intercept + fit.slope * x[0] + offset then 1 else 0
  }

  /** The points under or on it. */
  function PointsUpTo(fit: Fit, offset: real, x: seq<real>, y: seq<real>): nat
    requires |x| == |y|
  {
    if x == [] then 0
    else PointsUpTo(fit, offset, x[1..], y[1..])
         + if y[0] <= fit.intercept + fit.slope * x[0] + offset then 1 else 0
  }

  lemma {:induction false} PointsAreResiduals(fit: Fit, offset: real, x: seq<real>, y: seq<real>)
    requires |x| == |y|
    ensures PointsUnder(fit, offset, x, y) == CountBelow(Residuals(x, y, fit.slope, fit.intercept), offset)
    ensures PointsUpTo(fit, offset, x, y) == CountUpTo(Residuals(x, y, fit.slope, fit.intercept), offset)
  {
    if x != [] { PointsAreResiduals(fit, offset, x[1..], y[1..]); }
  }

  /** Of the n - 1 gaps between the points, the share `q` lies below the line moved by `offset`, to within one point. */
  predicate HoldsShare(fit: Fit, offset: real, x: seq<real>, y: seq<real>, q: real)
    requires |x| == |y|
  {
    && q * (|x| - 1) as real < PointsUpTo(fit, offset, x, y) as real
    && PointsUnder(fit, offset, x, y) as real < q * (|x| - 1) as real + 1.0
  }

  lemma HistoryRank(fit: Fit, offset: real, x: seq<real>, y: seq<real>, q: real)
    requires x != [] && |x| == |y| && 0.0 <= q <= 1.0
    requires offset == Quantile(Residuals(x, y, fit.slope, fit.intercept), q)
    ensures q * (|x| - 1) as real < PointsUpTo(fit, offset, x, y) as real
    ensures PointsUnder(fit, offset, x, y) as real < q * (|x| - 1) as real + 1.0
  {
    hide *;
    PointsAreResiduals(fit, offset, x, y);
    QuantileRank(Residuals(x, y, fit.slope, fit.intercept), q);
  }

  lemma ShareOfHistory(fit: Fit, offset: real, x: seq<real>, y: seq<real>, q: real)
    requires x != [] && |x| == |y| && 0.0 <= q <= 1.0
    requires offset == Quantile(Residuals(x, y, fit.slope, fit.intercept), q)
    ensures HoldsShare(fit, offset, x, y, q)
  {
    hide Quantile, Residuals, PointsUpTo, PointsUnder;
    HistoryRank(fit, offset, x, y, q);
  }

  /** A tenth of the history lies below the lowest curve, a half below the middle and nine tenths below the highest. */
  lemma BandHoldsHistory(x: seq<real>, y: seq<real>)
    requires 1 < |x| == |y| && Growing(x)
    ensures HoldsShare(FitOf(x, y), FitOf(x, y).low, x, y, 0.1)
    ensures HoldsShare(FitOf(x, y), FitOf(x, y).mid, x, y, 0.5)
    ensures HoldsShare(FitOf(x, y), FitOf(x, y).high, x, y, 0.9)
  {
    hide Slopes, Drops, Residuals, Median, Quantile, HoldsShare;
    var fit := FitOf(x, y);
    ShareOfHistory(fit, fit.low, x, y, 0.1);
    ShareOfHistory(fit, fit.mid, x, y, 0.5);
    ShareOfHistory(fit, fit.high, x, y, 0.9);
  }

  // ------------------------------------------------------------ histories on a line

  ghost predicate OnLine(x: seq<real>, y: seq<real>, a: real, b: real)
    requires |x| == |y|
  {
    forall i | 0 <= i < |x| :: y[i] == Height(a, b, 0.0, x[i])
  }

  lemma SlopeOnLine(a: real, b: real, u: real, v: real)
    requires u != v
    ensures Slope(Height(a, b, 0.0, u), Height(a, b, 0.0, v), v - u) == b
  {
    assert b * (v - u) == b * v - b * u;
  }

  lemma {:induction false} RowOnLine(x: seq<real>, y: seq<real>, a: real, b: real, i: nat, j: nat)
    requires i < j <= |x| == |y| && Growing(x) && OnLine(x, y, a, b)
    ensures forall m | 0 <= m < |Row(x, y, i, j)| :: Row(x, y, i, j)[m] == b
    decreases |x| - j
  {
    if j < |x| {
      SlopeOnLine(a, b, x[i], x[j]);
      RowOnLine(x, y, a, b, i, j + 1);
    }
  }

  lemma {:induction false} SlopesOnLine(x: seq<real>, y: seq<real>, a: real, b: real, i: nat)
    requires i <= |x| == |y| && Growing(x) && OnLine(x, y, a, b)
    ensures forall m | 0 <= m < |Slopes(x, y, i)| :: Slopes(x, y, i)[m] == b
    decreases |x| - i
  {
    if i < |x| {
      RowOnLine(x, y, a, b, i, i + 1);
      SlopesOnLine(x, y, a, b, i + 1);
    }
  }

  lemma {:induction false} DropsOnLine(x: seq<real>, y: seq<real>, a: real, b: real)
    requires |x| == |y| && OnLine(x, y, a, b)
    ensures forall m | 0 <= m < |x| :: Drops(x, y, b)[m] == a && Residuals(x, y, b, a)[m] == 0.0
  {
    if x != [] { DropsOnLine(x[1..], y[1..], a, b); }
  }

  /** An exact line is fitted exactly. */
  lemma LineIsReproduced(x: seq<real>, y: seq<real>, a: real, b: real)
    requires 1 < |x| == |y| && Growing(x) && OnLine(x, y, a, b)
    ensures FitOf(x, y) == Fit(b, a, 0.0, 0.0, 0.0)
  {
    SlopesOnLine(x, y, a, b, 0);
    ConstantStatistics(Slopes(x, y, 0), b, 0.5);
    DropsOnLine(x, y, a, b);
    ConstantStatistics(Drops(x, y, b), a, 0.5);
    ConstantStatistics(Residuals(x, y, b, a), 0.0, 0.1);
    ConstantStatistics(Residuals(x, y, b, a), 0.0, 0.5);
    ConstantStatistics(Residuals(x, y, b, a), 0.0, 0.9);
  }
}
