/**
 The 30-day capacity forecast from UTC daily maxima.
 */
module Forecast {

  import opened Ascending
  import opened DailyHistory
  import opened OrderStatistics
  import opened TheilSen
  import opened Wrappers

  const TRAINING_DAYS := 45
  const FORECAST_DAYS := 30
  const MIN_VALID_DAYS := 30
  const MIN_COVERAGE := 0.80
  const SECONDS := 86400

  /** A point of a curve; `at` counts seconds. */
  datatype Point = Point(at: int, p10: real, p50: real, p90: real)

  datatype Curve = P10 | P50 | P90

  datatype Forecast =
    | Raised
    | Insufficient(days: nat)
    | Ready(curve: seq<Point>, p10: Option<int>, p50: Option<int>, p90: Option<int>)

  function Value(p: Point, c: Curve): real {
    match c case P10 => p.p10 case P50 => p.p50 case P90 => p.p90
  }

  /** When a curve first reaches the limit. */
  function FirstReaching(curve: seq<Point>, c: Curve, limit: real): Option<int> {
    if curve == [] then None
    else if Value(curve[0], c) >= limit then Some(curve[0].at)
    else FirstReaching(curve[1..], c, limit)
  }

  /** The first `n` points are below the limit. */
  ghost predicate StaysBelow(curve: seq<Point>, c: Curve, limit: real, n: nat)
    requires n <= |curve|
  {
    forall i | 0 <= i < n :: Value(curve[i], c) < limit
  }

  /** Some point at `t` is at the limit or above it, and every earlier one is below. */
  ghost predicate ReachesFirstAt(curve: seq<Point>, c: Curve, limit: real, t: int) {
    exists i :: 0 <= i < |curve| && curve[i].at == t && Value(curve[i], c) >= limit && StaysBelow(curve, c, limit, i)
  }

  /** A crossing is found exactly where there is one, and it is the first. */
  lemma {:induction false} FirstReachingIff(curve: seq<Point>, c: Curve, limit: real, t: int)
    ensures FirstReaching(curve, c, limit) == None <==> StaysBelow(curve, c, limit, |curve|)
    ensures FirstReaching(curve, c, limit) == Some(t) <==> ReachesFirstAt(curve, c, limit, t)
  {
    if curve != [] {
      var rest := curve[1..];
      if Value(curve[0], c) >= limit {
        assert StaysBelow(curve, c, limit, 0);
      } else {
        FirstReachingIff(rest, c, limit, t);
        forall i | 0 <= i <= |rest|
          ensures StaysBelow(rest, c, limit, i) <==> StaysBelow(curve, c, limit, i + 1)
        {
          assert forall k | 0 <= k < i :: curve[k + 1] == rest[k];
          assert forall k | 0 < k < i + 1 :: curve[k] == rest[k - 1];
        }
        if ReachesFirstAt(rest, c, limit, t) {
          var i :| 0 <= i < |rest| && rest[i].at == t && Value(rest[i], c) >= limit && StaysBelow(rest, c, limit, i);
          assert curve[i + 1] == rest[i];
        }
        if ReachesFirstAt(curve, c, limit, t) {
          var i :| 0 <= i < |curve| && curve[i].at == t && Value(curve[i], c) >= limit
            && StaysBelow(curve, c, limit, i);
          assert rest[i - 1] == curve[i];
        }
      }
    }
  }

  function Xs(ordered: seq<Day>): (x: seq<real>)
    ensures |x| == |ordered| && forall i | 0 <= i < |x| :: x[i] == (ordered[i].day - ordered[0].day) as real
  {
    seq(|ordered|, i requires 0 <= i < |ordered| => (ordered[i].day - ordered[0].day) as real)
  }

  function Ys(ordered: seq<Day>): (y: seq<real>)
    ensures |y| == |ordered| && forall i | 0 <= i < |y| :: y[i] == ordered[i].value
  {
    seq(|ordered|, i requires 0 <= i < |ordered| => ordered[i].value)
  }

  function Clamp(v: real): real {
    if v < 0.0 then 0.0 else v
  }

  function PointOf(day: int, band: Band): Point {
    Point(day * SECONDS, Clamp(band.p10), Clamp(band.p50), Clamp(band.p90))
  }

  function FitHistory(ordered: seq<Day>): Fit
    requires |ordered| > 1 && InDayOrder(ordered)
  {
    FitOf(Xs(ordered), Ys(ordered))
  }

  /** The forecast for a day, counted from the first training day, before it is clamped at zero. */
  function RawBand(fit: Fit, first: int, day: int): Band {
    BandAt(fit, (day - first) as real)
  }

  function CurvePoint(fit: Fit, first: int, day: int): Point {
    PointOf(day, RawBand(fit, first, day))
  }

  /** The points of the first `n` days after the last training day. */
  function CurveOf(fit: Fit, first: int, last: int, n: nat): (curve: seq<Point>)
    ensures |curve| == n
  {
    if n == 0 then [] else CurveOf(fit, first, last, n - 1) + [CurvePoint(fit, first, last + n)]
  }

  lemma {:induction false} CurveAt(fit: Fit, first: int, last: int, n: nat, i: nat)
    requires i < n
    ensures CurveOf(fit, first, last, n)[i] == CurvePoint(fit, first, last + 1 + i)
  {
    hide CurvePoint;
    if i < n - 1 { CurveAt(fit, first, last, n - 1, i); }
  }

  predicate Enough(ordered: seq<Day>) {
    |ordered| >= MIN_VALID_DAYS && |ordered| as real / TRAINING_DAYS as real >= MIN_COVERAGE
  }

  function Announce(curve: seq<Point>, limit: real): Forecast {
    Ready(curve, FirstReaching(curve, P10, limit), FirstReaching(curve, P50, limit), FirstReaching(curve, P90, limit))
  }

  function FromHistory(ordered: seq<Day>, limit: real): Forecast
    requires InDayOrder(ordered)
  {
    if !Enough(ordered) then Insufficient(|ordered|)
    else
      Announce(CurveOf(FitHistory(ordered), ordered[0].day, ordered[|ordered| - 1].day, FORECAST_DAYS), limit)
  }

  function History(samples: seq<Sample>, today: int): (ordered: seq<Day>)
    ensures InDayOrder(ordered)
  {
    OrderedIsInDayOrder(Maxima(samples, today - (TRAINING_DAYS - 1)));
    Ordered(Maxima(samples, today - (TRAINING_DAYS - 1)))
  }

  function ForecastOf(samples: seq<Sample>, limit: real, today: int): Forecast {
    if AllAware(samples) then FromHistory(History(samples, today), limit) else Raised
  }

  /** The dictionary of days; a timestamp without a timezone raises. */
  method CollectMaxima(samples: seq<Sample>, cutoff: int) returns (daily: Option<map<int, real>>)
    ensures daily == if AllAware(samples) then Some(Maxima(samples, cutoff)) else None
  {
    var kept: map<int, real> := map[];
    for i := 0 to |samples|
      invariant kept == Maxima(samples[..i], cutoff)
      invariant forall j | 0 <= j < i :: samples[j].aware
    {
      var s := samples[i];
      assert samples[..i + 1][..i] == samples[..i];
      if !s.aware {
        return None;
      }
      if s.day >= cutoff && (s.day !in kept || s.value > kept[s.day]) {
        kept := kept[s.day := s.value];
      }
    }
    assert samples[..|samples|] == samples;
    return Some(kept);
  }

  /** The thirty points after the last training day. */
  method CollectCurve(fit: Fit, first: int, last: int) returns (curve: seq<Point>)
    ensures curve == CurveOf(fit, first, last, FORECAST_DAYS)
  {
    curve := [];
    for day := 1 to FORECAST_DAYS + 1
      invariant curve == CurveOf(fit, first, last, day - 1)
    {
      curve := curve + [CurvePoint(fit, first, last + day)];
    }
  }

  method BuildCapacityForecast(samples: seq<Sample>, limit: real, today: int) returns (r: Forecast)
    ensures r == ForecastOf(samples, limit, today)
  {
    hide FitHistory, CurveOf, Announce, Maxima, Ordered, AllAware;
    var daily := CollectMaxima(samples, today - (TRAINING_DAYS - 1));
    if daily.None? {
      return Raised;
    }
    OrderedIsInDayOrder(daily.value);
    var ordered := Ordered(daily.value);
    if !Enough(ordered) {
      return Insufficient(|ordered|);
    }
    var curve := CollectCurve(FitHistory(ordered), ordered[0].day, ordered[|ordered| - 1].day);
    return Announce(curve, limit);
  }

  // ------------------------------------------------------------ when a forecast is ready

  /** Coverage decides: 36 of the 45 training days, which is more than the 30 valid days asked for. */
  lemma ReadyIff(samples: seq<Sample>, limit: real, today: int)
    ensures ForecastOf(samples, limit, today).Ready? <==>
            AllAware(samples) && |Maxima(samples, today - 44)| >= 36
  {
    var daily := Maxima(samples, today - 44);
    OrderedIsInDayOrder(daily);
    var n := |daily|;
    assert n as real / 45.0 >= 0.80 <==> n as real >= 36.0;
  }

  // ------------------------------------------------------------ only the maxima matter

  /** Two histories with the same maximum on every day have the same forecast. */
  lemma OnlyMaximaMatter(p: seq<Sample>, q: seq<Sample>, limit: real, today: int)
    requires SameMaxima(p, q) && AllAware(p) && AllAware(q)
    ensures ForecastOf(p, limit, today) == ForecastOf(q, limit, today)
  {
    SameMaximaSameMap(p, q, today - (TRAINING_DAYS - 1));
  }

  lemma AwarenessFollows(p: seq<Sample>, q: seq<Sample>)
    requires AllAware(q) && forall s :: s in p ==> s in q
    ensures AllAware(p)
  {
    forall i | 0 <= i < |p| ensures p[i].aware {
      assert p[i] in q;
    }
  }

  /** Reordering or repeating samples changes nothing. */
  lemma SamplesAreASet(p: seq<Sample>, q: seq<Sample>, limit: real, today: int)
    requires forall s :: s in p <==> s in q
    ensures ForecastOf(p, limit, today) == ForecastOf(q, limit, today)
  {
    SameSamplesSameMaxima(p, q);
    if AllAware(p) {
      AwarenessFollows(q, p);
      OnlyMaximaMatter(p, q, limit, today);
    } else if AllAware(q) {
      AwarenessFollows(p, q);
    }
  }

  /** Reducing to daily maxima first gives the same forecast exactly when every timestamp has a timezone. */
  lemma ReducedForecastIff(samples: seq<Sample>, limit: real, today: int)
    ensures ForecastOf(AsSamples(DailyMaxima(samples)), limit, today) == ForecastOf(samples, limit, today) <==>
        AllAware(samples)
  {
    AwaresAre(samples);
    ReductionKeepsMaxima(samples);
    if AllAware(samples) {
      OnlyMaximaMatter(samples, AsSamples(DailyMaxima(samples)), limit, today);
    }
  }

  // ------------------------------------------------------------ rescaled capacities

  function Rescaled(f: real -> real, samples: seq<Sample>): (r: seq<Sample>)
    ensures |r| == |samples| && forall i | 0 <= i < |r| :: r[i] == samples[i].(value := f(samples[i].value))
  {
    seq(|samples|, i requires 0 <= i < |samples| => samples[i].(value := f(samples[i].value)))
  }

  lemma {:induction false} MaximaRescale(f: real -> real, samples: seq<Sample>, cutoff: int)
    requires KeepsOrder(f)
    ensures Maxima(Rescaled(f, samples), cutoff) == map d | d in Maxima(samples, cutoff) ::
        f(Maxima(samples, cutoff)[d])
  {
    if samples != [] {
      var n := |samples| - 1;
      assert Rescaled(f, samples)[..n] == Rescaled(f, samples[..n]);
      MaximaRescale(f, samples[..n], cutoff);
    }
  }

  lemma OrderedRescales(f: real -> real, daily: map<int, real>)
    ensures var moved := map d | d in daily :: f(daily[d]);
            |Ordered(moved)| == |Ordered(daily)|
            && forall i | 0 <= i < |Ordered(daily)| ::
                Ordered(moved)[i] == Day(Ordered(daily)[i].day, f(Ordered(daily)[i].value))
  {
    var moved := map d | d in daily :: f(daily[d]);
    assert moved.Keys == daily.Keys;
    var days := InOrder(daily.Keys);
    assert forall i | 0 <= i < |days| :: days[i] in days;
  }

  lemma HistoryRescales(f: real -> real, samples: seq<Sample>, today: int)
    requires KeepsOrder(f)
    ensures var moved, ordered := History(Rescaled(f, samples), today), History(samples, today);
            |moved| == |ordered| && forall i | 0 <= i < |ordered| ::
                moved[i] == Day(ordered[i].day, f(ordered[i].value))
  {
    MaximaRescale(f, samples, today - (TRAINING_DAYS - 1));
    OrderedRescales(f, Maxima(samples, today - (TRAINING_DAYS - 1)));
  }

  lemma CoordinatesRescale(f: real -> real, ordered: seq<Day>, moved: seq<Day>)
    requires |moved| == |ordered| && forall i | 0 <= i < |ordered| ::
        moved[i] == Day(ordered[i].day, f(ordered[i].value))
    ensures Xs(moved) == Xs(ordered) && Ys(moved) == Map(f, Ys(ordered))
  {}

  lemma FitFollowsHistory(f: real -> real, g: real -> real, ordered: seq<Day>, moved: seq<Day>)
    requires Moves(f, g) && |ordered| > 1 && InDayOrder(ordered) && InDayOrder(moved)
    requires Xs(moved) == Xs(ordered) && Ys(moved) == Map(f, Ys(ordered))
    ensures |moved| == |ordered| && FitHistory(moved) == FitMoved(f, g, FitHistory(ordered))
  {
    FitMoves(f, g, Xs(ordered), Ys(ordered));
  }

  /** Shifting and scaling every sample shifts and scales the unclamped curves. */
  lemma CurveFollowsSamples(k: real, c: real, samples: seq<Sample>, today: int, day: int)
    requires k > 0.0 && |History(samples, today)| > 1
    ensures var ordered, moved := History(samples, today), History(Rescaled(Affine(k, c), samples), today);
            |moved| == |ordered| && RawBand(FitHistory(moved), moved[0].day, day)
            == MapBand(Affine(k, c), RawBand(FitHistory(ordered), ordered[0].day, day))
  {
    hide FitHistory, BandAt, Affine, Moves, Rescaled, Map, MapBand, FitMoved, Maxima, Ordered;
    var f, g := Affine(k, c), Affine(k, 0.0);
    AffineMoves(k, c);
    HistoryRescales(f, samples, today);
    var ordered, moved := History(samples, today), History(Rescaled(f, samples), today);
    CoordinatesRescale(f, ordered, moved);
    FitFollowsHistory(f, g, ordered, moved);
    BandMoves(f, g, FitHistory(ordered), (day - ordered[0].day) as real);
  }

  // ------------------------------------------------------------ an exact line

  lemma XsGrow(ordered: seq<Day>)
    requires InDayOrder(ordered)
    ensures Growing(Xs(ordered))
  {}

  lemma OffsetLine(a: real, b: real, first: int, day: int)
    ensures Height(Base(a, b, first), b, 0.0, (day - first) as real) == a + b * day as real
  {
    assert b * (day as real - first as real) == b * day as real - b * first as real;
  }

  ghost predicate SamplesOnLine(samples: seq<Sample>, cutoff: int, a: real, b: real) {
    forall i | 0 <= i < |samples| && samples[i].day >= cutoff :: samples[i].value == a + b * samples[i].day as real
  }

  lemma MaximaOnLine(samples: seq<Sample>, cutoff: int, a: real, b: real, d: int)
    requires SamplesOnLine(samples, cutoff, a, b) && d in Maxima(samples, cutoff)
    ensures Maxima(samples, cutoff)[d] == a + b * d as real
  {
    MaximumIsAttained(samples, cutoff, d);
  }

  lemma HistoryIsOrderedMaxima(samples: seq<Sample>, today: int, i: nat)
    requires i < |History(samples, today)|
    ensures var d := History(samples, today)[i];
            d.day in Maxima(samples, today - 44) && d.value == Maxima(samples, today - 44)[d.day]
  {
    var days := InOrder(Maxima(samples, today - 44).Keys);
    assert days[i] in days;
  }

  lemma HistoryHolds(samples: seq<Sample>, today: int, d: int) returns (k: nat)
    requires d in Maxima(samples, today - 44)
    ensures k < |History(samples, today)| && History(samples, today)[k].day == d
  {
    hide Maxima;
    var days := InOrder(Maxima(samples, today - 44).Keys);
    assert d in days;
    k :| 0 <= k < |days| && days[k] == d;
  }

  /** The line seen from the first training day. */
  function Base(a: real, b: real, first: int): real {
    a + b * first as real
  }

  lemma PointOnLine(samples: seq<Sample>, today: int, a: real, b: real, i: nat)
    requires SamplesOnLine(samples, today - 44, a, b) && i < |History(samples, today)|
    ensures var ordered := History(samples, today);
            Ys(ordered)[i] == Height(Base(a, b, ordered[0].day), b, 0.0, Xs(ordered)[i])
  {
    hide Maxima, Ordered, SamplesOnLine;
    var ordered := History(samples, today);
    HistoryIsOrderedMaxima(samples, today, i);
    MaximaOnLine(samples, today - 44, a, b, ordered[i].day);
    OffsetLine(a, b, ordered[0].day, ordered[i].day);
  }

  lemma HistoryOnLine(samples: seq<Sample>, today: int, a: real, b: real)
    requires SamplesOnLine(samples, today - 44, a, b) && |History(samples, today)| > 1
    ensures var ordered := History(samples, today);
            OnLine(Xs(ordered), Ys(ordered), Base(a, b, ordered[0].day), b)
  {
    var ordered := History(samples, today);
    forall i | 0 <= i < |Xs(ordered)|
      ensures Ys(ordered)[i] == Height(Base(a, b, ordered[0].day), b, 0.0, Xs(ordered)[i])
    {
      PointOnLine(samples, today, a, b, i);
    }
  }

  lemma FlatBand(fit: Fit, x: real)
    requires fit.low == fit.mid == fit.high == 0.0
    ensures var h := Height(fit.intercept, fit.slope, 0.0, x); BandAt(fit, x) == Band(h, h, h)
  {
    SortOfConstant(Curves(fit, x), Height(fit.intercept, fit.slope, 0.0, x));
  }

  lemma FitOnLine(ordered: seq<Day>, a: real, b: real)
    requires |ordered| > 1 && InDayOrder(ordered) && OnLine(Xs(ordered), Ys(ordered), a, b)
    ensures FitHistory(ordered) == Fit(b, a, 0.0, 0.0, 0.0)
  {
    XsGrow(ordered);
    LineIsReproduced(Xs(ordered), Ys(ordered), a, b);
  }

  lemma PointOfLine(fit: Fit, a: real, b: real, first: int, day: int)
    requires fit == Fit(b, Base(a, b, first), 0.0, 0.0, 0.0)
    ensures var h := Clamp(a + b * day as real); CurvePoint(fit, first, day) == Point(day * SECONDS, h, h, h)
  {
    FlatBand(fit, (day - first) as real);
    OffsetLine(a, b, first, day);
  }

  /** A history lying exactly on a line is forecast as that line, clamped at zero. */
  lemma LineIsForecast(samples: seq<Sample>, limit: real, today: int, a: real, b: real, i: nat)
    requires SamplesOnLine(samples, today - 44, a, b)
    requires ForecastOf(samples, limit, today).Ready? && i < FORECAST_DAYS
    ensures var p := ForecastOf(samples, limit, today).curve[i];
            var ordered := History(samples, today);
            var day := ordered[|ordered| - 1].day + 1 + i;
            var height := a + b * day as real;
            p.at == day * 86400 && p.p10 == p.p50 == p.p90 == if height < 0.0 then 0.0 else height
  {
    hide FitHistory, CurvePoint, Base, Maxima, Ordered, FirstReaching, SamplesOnLine;
    var ordered := History(samples, today);
    HistoryOnLine(samples, today, a, b);
    FitOnLine(ordered, Base(a, b, ordered[0].day), b);
    PointOfLine(FitHistory(ordered), a, b, ordered[0].day, ordered[|ordered| - 1].day + 1 + i);
    CurveAt(FitHistory(ordered), ordered[0].day, ordered[|ordered| - 1].day, FORECAST_DAYS, i);
  }

  // ------------------------------------------------------------ the dates of a ready forecast

  /** The first day on which a column of the curve is at the limit or above, if there is one. */
  ghost predicate IsFirstDate(date: Option<int>, curve: seq<Point>, column: Point -> real, limit: real) {
    match date
    case None => forall i | 0 <= i < |curve| :: column(curve[i]) < limit
    case Some(t) =>
      exists i :: 0 <= i < |curve| && curve[i].at == t && column(curve[i]) >= limit
                  && forall j | 0 <= j < i :: column(curve[j]) < limit
  }

  lemma FirstReachingIsFirstDate(curve: seq<Point>, c: Curve, limit: real, column: Point -> real, date: Option<int>)
    requires forall p :: Value(p, c) == column(p)
    ensures FirstReaching(curve, c, limit) == date <==> IsFirstDate(date, curve, column, limit)
  {
    FirstReachingIff(curve, c, limit, if date.Some? then date.value else 0);
  }

  /** Each of the three dates is the first one on which its own quantile reaches the limit. */
  lemma ReadyDatesIff(samples: seq<Sample>, limit: real, today: int, p10: Option<int>, p50: Option<int>,
                      p90: Option<int>)
    requires ForecastOf(samples, limit, today).Ready?
    ensures var f := ForecastOf(samples, limit, today);
            && (f.p10 == p10 <==> IsFirstDate(p10, f.curve, (p: Point) => p.p10, limit))
            && (f.p50 == p50 <==> IsFirstDate(p50, f.curve, (p: Point) => p.p50, limit))
            && (f.p90 == p90 <==> IsFirstDate(p90, f.curve, (p: Point) => p.p90, limit))
  {
    hide FitHistory, CurveOf, History, FirstReaching, IsFirstDate, Enough;
    var curve := ForecastOf(samples, limit, today).curve;
    FirstReachingIsFirstDate(curve, P10, limit, (p: Point) => p.p10, p10);
    FirstReachingIsFirstDate(curve, P50, limit, (p: Point) => p.p50, p50);
    FirstReachingIsFirstDate(curve, P90, limit, (p: Point) => p.p90, p90);
  }
}
