/**
 Judging a candidate on three rolling holdouts, and the gate it has to pass to be activated.
 */
module RollingEvaluation {

  import opened CandidateCurves
  import opened DailyHistory
  import opened Forecast
  import opened Wrappers

  const WINDOW_DAYS := 30
  const WINDOWS := 3

  /** Windows are counted in days; the end is the day after the last holdout day. */
  datatype Evaluation = Evaluation(windowStart: int, windowEnd: int, baselineMape: real, candidateMape: real,
      riskCovered: bool)

  datatype Result = Aborted | Evaluations(rows: seq<Evaluation>)

  // ------------------------------------------------------------ one window

  function HoldoutEnd(n: nat, offset: nat): int { n - (offset - 1) * WINDOW_DAYS }

  function HoldoutStart(n: nat, offset: nat): int { HoldoutEnd(n, offset) - WINDOW_DAYS }

  function TrainingStart(n: nat, offset: nat): int { HoldoutStart(n, offset) - TRAINING_DAYS }

  predicate LongEnough(ordered: seq<Day>) {
    |ordered| >= TRAINING_DAYS + WINDOW_DAYS * WINDOWS
  }

  function Training(ordered: seq<Day>, offset: nat): (r: seq<Day>)
    requires LongEnough(ordered) && 1 <= offset <= WINDOWS
    ensures |r| == TRAINING_DAYS
  {
    ordered[TrainingStart(|ordered|, offset)..HoldoutStart(|ordered|, offset)]
  }

  function Holdout(ordered: seq<Day>, offset: nat): (r: seq<Day>)
    requires LongEnough(ordered) && 1 <= offset <= WINDOWS
    ensures |r| == WINDOW_DAYS
  {
    ordered[HoldoutStart(|ordered|, offset)..HoldoutEnd(|ordered|, offset)]
  }

  function P50ByDay(curve: seq<Point>): map<int, real> {
    if curve == [] then map[]
    else P50ByDay(curve[..|curve| - 1])[DayOf(curve[|curve| - 1].at) := curve[|curve| - 1].p50]
  }

  function Magnitude(v: real): real {
    if v < 0.0 then -v else v
  }

  /** The percentage errors of the days that were predicted and had a positive value. */
  function Errors(predicted: map<int, real>, actuals: seq<Day>): (r: seq<real>)
    ensures forall i | 0 <= i < |r| :: r[i] >= 0.0
  {
    if actuals == [] then []
    else
      var before, a := Errors(predicted, actuals[..|actuals| - 1]), actuals[|actuals| - 1];
      if a.value > 0.0 && a.day in predicted then before + [Magnitude((predicted[a.day] - a.value) / a.value) * 100.0]
      else before
  }

  function Sum(s: seq<real>): (r: real)
    ensures (forall i | 0 <= i < |s| :: s[i] >= 0.0) ==> r >= 0.0
  {
    if s == [] then 0.0 else Sum(s[..|s| - 1]) + s[|s| - 1]
  }

  /** Python's `round(v, 4)`: to the nearest multiple, halves to the even one. */
  function Round4(v: real): (r: real)
    ensures v >= 0.0 ==> r >= 0.0
    ensures -0.00005 <= r - v <= 0.00005
  {
    var low := (v * 10000.0).Floor;
    var rest := v * 10000.0 - low as real;
    var nearest := if rest < 0.5 || (rest == 0.5 && low % 2 == 0) then low else low + 1;
    nearest as real / 10000.0
  }

  function Mape(curve: seq<Point>, actuals: seq<Day>): (r: Option<real>)
    ensures r.Some? ==> r.value >= 0.0
  {
    var errors := Errors(P50ByDay(curve), actuals);
    if errors == [] then None
    else
      assert Sum(errors) / |errors| as real >= 0.0;
      Some(Round4(Sum(errors) / |errors| as real))
  }

  predicate ReachesP90(curve: seq<Point>, limit: real) {
    exists i | 0 <= i < |curve| :: curve[i].p90 >= limit
  }

  predicate ReachesActual(actuals: seq<Day>, limit: real) {
    exists i | 0 <= i < |actuals| :: actuals[i].value >= limit
  }

  datatype Judged = Escapes | Skipped | Judged(row: Evaluation)

  function Judge(actuals: seq<Day>, limit: real, baseline: seq<Point>, candidate: seq<Point>): Judged
    requires actuals != []
  {
    var b, c := Mape(baseline, actuals), Mape(candidate, actuals);
    if b.None? || c.None? then Skipped
    else
      var covered := !(ReachesActual(actuals, limit) && ReachesP90(baseline, limit) && !ReachesP90(candidate, limit));
      Judged(Evaluation(actuals[0].day, actuals[|actuals| - 1].day + 1, b.value, c.value, covered))
  }

  /** One holdout: forecast from the 45 samples before it, ask the model, compare with what came. */
  function Evaluate(ordered: seq<Day>, limit: real, reply: Reply, offset: nat): Judged
    requires LongEnough(ordered) && 1 <= offset <= WINDOWS
  {
    var training := Training(ordered, offset);
    var last := training[|training| - 1].day;
    match ForecastOf(AsSamples(training), limit, last)
    case Ready(baseline, _, _, _) =>
      (match Generated(reply, last, true, baseline)
       case Escaped => Escapes
       case Candidate(curve, _) => Judge(Holdout(ordered, offset), limit, baseline, curve))
    case _ => Skipped
  }

  /** The windows from the oldest to the `offset`-th last; one that raises ends the evaluation. */
  function EvaluateDown(ordered: seq<Day>, limit: real, replies: seq<Reply>, offset: nat): Result
    requires LongEnough(ordered) && |replies| == WINDOWS && 1 <= offset <= WINDOWS + 1
    decreases WINDOWS + 1 - offset
  {
    if offset == WINDOWS + 1 then Evaluations([])
    else
      match EvaluateDown(ordered, limit, replies, offset + 1)
      case Aborted => Aborted
      case Evaluations(rows) =>
        match Evaluate(ordered, limit, replies[WINDOWS - offset], offset)
        case Escapes => Aborted
        case Skipped => Evaluations(rows)
        case Judged(row) => Evaluations(rows + [row])
  }

  /** `rolling_candidate_evaluations` */
  method RollingCandidateEvaluations(samples: seq<Sample>, limit: real, replies: seq<Reply>) returns (r: Result)
    requires |replies| == WINDOWS
    ensures r == if !LongEnough(DailyMaxima(samples)) then Evaluations([])
                 else EvaluateDown(DailyMaxima(samples), limit, replies, 1)
  {
    hide Evaluate, DailyMaxima;
    var ordered := DailyMaxima(samples);
    if !LongEnough(ordered) {
      return Evaluations([]);
    }
    var evaluations: seq<Evaluation> := [];
    var offset := WINDOWS;
    while offset > 0
      invariant 0 <= offset <= WINDOWS
      invariant EvaluateDown(ordered, limit, replies, offset + 1) == Evaluations(evaluations)
    {
      var judged := EvaluateWindow(ordered, limit, replies[WINDOWS - offset], offset);
      match judged {
        case Escapes =>
          EscapeEndsAll(ordered, limit, replies, offset);
          return Aborted;
        case Skipped =>
        case Judged(row) =>
          evaluations := evaluations + [row];
      }
      offset := offset - 1;
    }
    return Evaluations(evaluations);
  }

  method EvaluateWindow(ordered: seq<Day>, limit: real, reply: Reply, offset: nat) returns (r: Judged)
    requires LongEnough(ordered) && 1 <= offset <= WINDOWS
    ensures r == Evaluate(ordered, limit, reply, offset)
  {
    hide ForecastOf, Judge, Generated;
    var training := Training(ordered, offset);
    var last := training[|training| - 1].day;
    var baseline := BuildCapacityForecast(AsSamples(training), limit, last);
    if !baseline.Ready? {
      return Skipped;
    }
    var candidate := GenerateWithFallback(reply, last, true, baseline.curve);
    if candidate.Escaped? {
      return Escapes;
    }
    return Judge(Holdout(ordered, offset), limit, baseline.curve, candidate.curve);
  }

  lemma {:induction false} EscapeEndsAll(ordered: seq<Day>, limit: real, replies: seq<Reply>, offset: nat)
    requires LongEnough(ordered) && |replies| == WINDOWS && 1 <= offset <= WINDOWS
    requires EvaluateDown(ordered, limit, replies, offset) == Aborted
    ensures EvaluateDown(ordered, limit, replies, 1) == Aborted
    decreases offset
  {
    hide Evaluate;
    if offset > 1 { EscapeEndsAll(ordered, limit, replies, offset - 1); }
  }

  // ------------------------------------------------------------ where the windows lie

  /** The three holdouts follow one another and cover exactly the last ninety samples. */
  lemma HoldoutsTileTheEnd(ordered: seq<Day>)
    requires LongEnough(ordered)
    ensures Holdout(ordered, 3) + Holdout(ordered, 2) + Holdout(ordered, 1) == ordered[|ordered| - 90..]
  {}

  /** Training ends where the holdout starts: it sees no sample of the holdout or after it. */
  lemma TrainingIsThePast(ordered: seq<Day>, offset: nat, i: nat, j: nat)
    requires LongEnough(ordered) && InDayOrder(ordered) && 1 <= offset <= WINDOWS
    requires i < TRAINING_DAYS && j < WINDOW_DAYS
    ensures Training(ordered, offset)[i].day < Holdout(ordered, offset)[j].day
    ensures Training(ordered, offset) + Holdout(ordered, offset)
        == ordered[TrainingStart(|ordered|, offset)..HoldoutEnd(|ordered|, offset)]
  {}

  /** Samples after a holdout cannot change its verdict. */
  lemma LaterSamplesDoNotMatter(ordered: seq<Day>, later: seq<Day>, limit: real, reply: Reply, offset: nat,
      shifted: nat)
    requires LongEnough(ordered) && LongEnough(later) && 1 <= offset <= WINDOWS && 1 <= shifted <= WINDOWS
    requires HoldoutEnd(|ordered|, offset) == HoldoutEnd(|later|, shifted)
    requires ordered[..HoldoutEnd(|ordered|, offset)] == later[..HoldoutEnd(|ordered|, offset)]
    ensures Evaluate(later, limit, reply, shifted) == Evaluate(ordered, limit, reply, offset)
  {
    hide ForecastOf, Generated, Judge, AsSamples;
    var e := HoldoutEnd(|ordered|, offset);
    assert ordered[..e][e - 30 - 45..e - 30] == Training(ordered, offset);
    assert later[..e][e - 30 - 45..e - 30] == Training(later, shifted);
    assert ordered[..e][e - 30..e] == Holdout(ordered, offset);
    assert later[..e][e - 30..e] == Holdout(later, shifted);
  }

  predicate Consecutive(days: seq<Day>) {
    forall i | 0 <= i < |days| :: days[i].day == days[0].day + i
  }

  /** `record_capacity_prediction_evaluation` on the window and the errors. */
  predicate Recordable(e: Evaluation) {
    e.windowStart < e.windowEnd && e.windowEnd - e.windowStart == 30 && e.baselineMape >= 0.0 && e.candidateMape >= 0.0
  }

  lemma {:induction false} DaysSpread(days: seq<Day>, i: nat, j: nat)
    requires InDayOrder(days) && i <= j < |days|
    ensures days[j].day - days[i].day >= j - i
    decreases j - i
  {
    if i < j { DaysSpread(days, i, j - 1); }
  }

  lemma SliceInDayOrder(ordered: seq<Day>, offset: nat)
    requires LongEnough(ordered) && InDayOrder(ordered) && 1 <= offset <= WINDOWS
    ensures InDayOrder(Holdout(ordered, offset))
  {}

  lemma SpanIsThirtyIff(days: seq<Day>)
    requires InDayOrder(days) && |days| == WINDOW_DAYS
    ensures days[|days| - 1].day + 1 - days[0].day == 30 <==> Consecutive(days)
  {
    if days[|days| - 1].day + 1 - days[0].day == 30 {
      forall i | 0 <= i < |days| ensures days[i].day == days[0].day + i {
        DaysSpread(days, 0, i);
        DaysSpread(days, i, |days| - 1);
      }
    }
  }

  lemma JudgedWindow(ordered: seq<Day>, limit: real, reply: Reply, offset: nat)
    requires LongEnough(ordered) && 1 <= offset <= WINDOWS && Evaluate(ordered, limit, reply, offset).Judged?
    ensures var e, days := Evaluate(ordered, limit, reply, offset).row, Holdout(ordered, offset);
            e.windowStart == days[0].day && e.windowEnd == days[|days| - 1].day + 1
            && e.baselineMape >= 0.0 && e.candidateMape >= 0.0
  {
    hide ForecastOf, Generated, Mape, ReachesP90, ReachesActual;
  }

  /** A produced evaluation can be recorded exactly when its thirty holdout days are consecutive. */
  lemma RecordableIff(ordered: seq<Day>, limit: real, reply: Reply, offset: nat)
    requires LongEnough(ordered) && InDayOrder(ordered) && 1 <= offset <= WINDOWS
    requires Evaluate(ordered, limit, reply, offset).Judged?
    ensures Recordable(Evaluate(ordered, limit, reply, offset).row) <==> Consecutive(Holdout(ordered, offset))
  {
    hide Evaluate, Holdout;
    JudgedWindow(ordered, limit, reply, offset);
    SliceInDayOrder(ordered, offset);
    SpanIsThirtyIff(Holdout(ordered, offset));
  }

  // ------------------------------------------------------------ what an error means

  /** What a valid curve predicts for a day: the 50% value of that day, none outside its thirty days. */
  function Predicted(curve: seq<Point>, start: int, day: int): Option<real>
    requires |curve| == 30
  {
    if start < day <= start + 30 then Some(curve[day - start - 1].p50) else None
  }

  /** The distance in percent of the actual value. */
  function PercentOff(predicted: real, actual: real): real
    requires actual > 0.0
  {
    (if predicted < actual then actual - predicted else predicted - actual) * 100.0 / actual
  }

  predicate Counts(curve: seq<Point>, start: int, d: Day)
    requires |curve| == 30
  {
    d.value > 0.0 && Predicted(curve, start, d.day).Some?
  }

  /** The predicted days with a positive value, and their distances added up. */
  function DaysCounted(curve: seq<Point>, start: int, actuals: seq<Day>): nat
    requires |curve| == 30
  {
    if actuals == [] then 0
    else
      DaysCounted(curve, start, actuals[..|actuals| - 1])
      + if Counts(curve, start, actuals[|actuals| - 1]) then 1 else 0
  }

  function TotalOff(curve: seq<Point>, start: int, actuals: seq<Day>): real
    requires |curve| == 30
  {
    if actuals == [] then 0.0
    else
      var d := actuals[|actuals| - 1];
      TotalOff(curve, start, actuals[..|actuals| - 1])
      + if Counts(curve, start, d) then PercentOff(Predicted(curve, start, d.day).value, d.value) else 0.0
  }

  lemma {:induction false} ByDayIsPredicted(curve: seq<Point>, start: int, n: nat, day: int)
    requires ValidCurve(curve, start) && n <= 30
    ensures day in P50ByDay(curve[..n]) <==> start < day <= start + n
    ensures start < day <= start + n ==> P50ByDay(curve[..n])[day] == curve[day - start - 1].p50
  {
    hide DayOf, Ordered3;
    if n > 0 {
      ByDayIsPredicted(curve, start, n - 1, day);
      assert curve[..n][..n - 1] == curve[..n - 1];
    }
  }

  lemma Percent(predicted: real, actual: real)
    requires actual > 0.0
    ensures Magnitude((predicted - actual) / actual) * 100.0 == PercentOff(predicted, actual)
  {
    var q := (predicted - actual) / actual;
    assert q * actual == predicted - actual;
    if predicted < actual {
      assert q < 0.0;
      assert (actual - predicted) / actual == -q;
      Scaled(actual - predicted, actual);
    } else {
      assert q >= 0.0;
      Scaled(predicted - actual, actual);
    }
  }

  lemma Scaled(x: real, a: real)
    requires a > 0.0
    ensures x / a * 100.0 == x * 100.0 / a
  {
    var q := x / a;
    assert q * a == x;
    assert (q * 100.0) * a == x * 100.0;
  }

  lemma {:induction false} ErrorsAreCounted(curve: seq<Point>, start: int, actuals: seq<Day>)
    requires ValidCurve(curve, start)
    ensures var errors := Errors(P50ByDay(curve), actuals);
            |errors| == DaysCounted(curve, start, actuals) && Sum(errors) == TotalOff(curve, start, actuals)
  {
    hide Magnitude, PercentOff, ValidCurve, P50ByDay;
    if actuals != [] {
      var front, d := actuals[..|actuals| - 1], actuals[|actuals| - 1];
      ErrorsAreCounted(curve, start, front);
      CurveIsThirty(curve, start);
      ByDayIsPredicted(curve, start, 30, d.day);
      var before := Errors(P50ByDay(curve), front);
      if Counts(curve, start, d) {
        Percent(P50ByDay(curve)[d.day], d.value);
        var e := PercentOff(P50ByDay(curve)[d.day], d.value);
        assert (before + [e])[..|before|] == before;
      }
    }
  }

  lemma CurveIsThirty(curve: seq<Point>, start: int)
    requires ValidCurve(curve, start)
    ensures |curve| == 30 && curve[..30] == curve
  {}

  /** The error of a valid curve is the rounded mean distance over the positive days it predicts. */
  lemma MapeIsMean(curve: seq<Point>, start: int, actuals: seq<Day>)
    requires ValidCurve(curve, start)
    ensures var n := DaysCounted(curve, start, actuals);
            Mape(curve, actuals) == if n == 0 then None else Some(Round4(TotalOff(curve, start, actuals) / n as real))
  {
    hide ValidCurve, Errors, Sum, Round4;
    ErrorsAreCounted(curve, start, actuals);
  }

  /** Rounding picks the nearest ten-thousandth, and the even one of two that are equally near. */
  lemma Round4Iff(v: real, n: int)
    ensures Round4(v) == n as real / 10000.0 <==>
              var off := v * 10000.0 - n as real;
              -0.5 < off < 0.5 || ((off == 0.5 || off == -0.5) && n % 2 == 0)
  {}

  /** The curve meets every positive day it predicts. */
  ghost predicate Perfect(curve: seq<Point>, start: int, actuals: seq<Day>)
    requires |curve| == 30
  {
    forall i | 0 <= i < |actuals| && Counts(curve, start, actuals[i]) ::
      Predicted(curve, start, actuals[i].day) == Some(actuals[i].value)
  }

  lemma {:induction false} PerfectIsNotOff(curve: seq<Point>, start: int, actuals: seq<Day>)
    requires |curve| == 30 && Perfect(curve, start, actuals)
    ensures TotalOff(curve, start, actuals) == 0.0
  {
    if actuals != [] {
      var front := actuals[..|actuals| - 1];
      assert forall i | 0 <= i < |front| :: front[i] == actuals[i];
      PerfectIsNotOff(curve, start, front);
    }
  }

  // ------------------------------------------------------------ which curve has which error

  lemma HistoryEndsInTraining(training: seq<Day>, last: int, k: nat)
    requires k < |History(AsSamples(training), last)|
    requires forall i | 0 <= i < |training| :: training[i].day <= last
    ensures History(AsSamples(training), last)[k].day <= last
  {
    hide Maxima, History;
    HistoryIsOrderedMaxima(AsSamples(training), last, k);
    MaximumIsAttained(AsSamples(training), last - 44, History(AsSamples(training), last)[k].day);
  }

  lemma HistoryReaches(training: seq<Day>, n: nat) returns (k: nat)
    requires n < |training|
    ensures var h := History(AsSamples(training), training[n].day); k < |h| && h[k].day == training[n].day
  {
    hide Maxima, History;
    var samples, last := AsSamples(training), training[n].day;
    MaximumIsBound(samples, last - 44, n);
    k := HistoryHolds(samples, last, last);
  }

  lemma LastTrainingDay(training: seq<Day>)
    requires InDayOrder(training) && training != []
    ensures var last := training[|training| - 1].day;
            var h := History(AsSamples(training), last);
            h != [] && h[|h| - 1].day == last
  {
    hide History;
    var last := training[|training| - 1].day;
    var k := HistoryReaches(training, |training| - 1);
    var h := History(AsSamples(training), last);
    HistoryEndsInTraining(training, last, |h| - 1);
  }

  /** What the model answered after the training days, and the forecast it is compared with. */
  function BaselineOf(ordered: seq<Day>, limit: real, offset: nat): Forecast
    requires LongEnough(ordered) && 1 <= offset <= 3
  {
    var training := Training(ordered, offset);
    ForecastOf(AsSamples(training), limit, training[|training| - 1].day)
  }

  lemma BaselineIsValid(ordered: seq<Day>, limit: real, offset: nat)
    requires LongEnough(ordered) && InDayOrder(ordered) && 1 <= offset <= 3 && BaselineOf(ordered, limit, offset).Ready?
    ensures ValidCurve(BaselineOf(ordered, limit, offset).curve, LastDay(ordered, offset))
  {
    TrainingInDayOrder(ordered, offset);
    hide ForecastOf, History, ValidCurve, Training, InDayOrder, AsSamples;
    LastTrainingDay(Training(ordered, offset));
    ReadyCurveIsValid(AsSamples(Training(ordered, offset)), limit, LastDay(ordered, offset));
  }

  lemma TrainingInDayOrder(ordered: seq<Day>, offset: nat)
    requires LongEnough(ordered) && InDayOrder(ordered) && 1 <= offset <= 3
    ensures InDayOrder(Training(ordered, offset))
  {}

  function LastDay(ordered: seq<Day>, offset: nat): int
    requires LongEnough(ordered) && 1 <= offset <= 3
  {
    var training := Training(ordered, offset);
    training[|training| - 1].day
  }

  /** The error a curve has on a holdout, written out. */
  ghost predicate IsErrorOf(e: real, curve: seq<Point>, start: int, actuals: seq<Day>)
    requires |curve| == 30
  {
    DaysCounted(curve, start, actuals) > 0
    && e == Round4(TotalOff(curve, start, actuals) / DaysCounted(curve, start, actuals) as real)
  }

  ghost predicate ReachesOn(curve: seq<Point>, limit: real) {
    exists i :: 0 <= i < |curve| && curve[i].p90 >= limit
  }

  ghost predicate RowOf(row: Evaluation, actuals: seq<Day>, start: int, limit: real, baseline: seq<Point>,
                        candidate: seq<Point>)
    requires |baseline| == |candidate| == 30
  {
    && IsErrorOf(row.baselineMape, baseline, start, actuals)
    && IsErrorOf(row.candidateMape, candidate, start, actuals)
    && (row.riskCovered <==>
          (exists i :: 0 <= i < |actuals| && actuals[i].value >= limit) && ReachesOn(baseline, limit) ==>
            ReachesOn(candidate, limit))
  }

  lemma JudgeIs(actuals: seq<Day>, limit: real, start: int, baseline: seq<Point>, candidate: seq<Point>)
    requires actuals != [] && ValidCurve(baseline, start) && ValidCurve(candidate, start)
    ensures var j := Judge(actuals, limit, baseline, candidate);
            && !j.Escapes?
            && (j.Judged? <==> DaysCounted(baseline, start, actuals) > 0 && DaysCounted(candidate, start, actuals) > 0)
            && (j.Judged? ==> RowOf(j.row, actuals, start, limit, baseline, candidate))
  {
    hide Mape, TotalOff, DaysCounted, Round4;
    MapeIsMean(baseline, start, actuals);
    MapeIsMean(candidate, start, actuals);
  }

  /**
   Each error of a judged window belongs to its own curve, the statistical forecast of the training
   days or the curve the model was given credit for, and to the days that followed them.
   */
  lemma EvaluationIs(ordered: seq<Day>, limit: real, reply: Reply, offset: nat)
    requires LongEnough(ordered) && InDayOrder(ordered) && 1 <= offset <= 3
    ensures var e, b := Evaluate(ordered, limit, reply, offset), BaselineOf(ordered, limit, offset);
            var actuals, start := Holdout(ordered, offset), LastDay(ordered, offset);
            && (e.Judged? ==>
                  && b.Ready? && |b.curve| == 30
                  && var c := Generated(reply, start, true, b.curve);
                     && c.Candidate? && |c.curve| == 30
                     && RowOf(e.row, actuals, start, limit, b.curve, c.curve))
            && (e.Escapes? <==> b.Ready? && Generated(reply, start, true, b.curve).Escaped?)
            && (e.Skipped? && b.Ready? ==>
                  && |b.curve| == 30
                  && var c := Generated(reply, start, true, b.curve);
                     && c.Candidate? && |c.curve| == 30
                     && (DaysCounted(b.curve, start, actuals) == 0 || DaysCounted(c.curve, start, actuals) == 0))
  {
    hide ForecastOf, Generated, Judge, RowOf, DaysCounted, Training, Holdout, ValidCurve;
    var b := BaselineOf(ordered, limit, offset);
    var actuals, start := Holdout(ordered, offset), LastDay(ordered, offset);
    if b.Ready? {
      BaselineIsValid(ordered, limit, offset);
      CandidateIsValid(reply, start, b.curve);
      CurveIsThirty(b.curve, start);
      var c := Generated(reply, start, true, b.curve);
      if c.Candidate? {
        CurveIsThirty(c.curve, start);
        JudgeIs(actuals, limit, start, b.curve, c.curve);
      }
    }
  }

  lemma CandidateIsValid(reply: Reply, start: int, baseline: seq<Point>)
    requires ValidCurve(baseline, start)
    ensures var c := Generated(reply, start, true, baseline); c.Candidate? ==> ValidCurve(c.curve, start)
  {
    if reply.Answer? && Validate(reply.raw, start, true).Accepted? {
      AcceptedIff(reply.raw, start, Validate(reply.raw, start, true).curve);
    }
  }

  /** A model that meets every day it is judged on has no error, and so has such a baseline. */
  lemma PerfectModelHasNoError(ordered: seq<Day>, limit: real, reply: Reply, offset: nat)
    requires LongEnough(ordered) && InDayOrder(ordered) && 1 <= offset <= 3
    requires Evaluate(ordered, limit, reply, offset).Judged?
    ensures var row, b := Evaluate(ordered, limit, reply, offset).row, BaselineOf(ordered, limit, offset);
            var actuals, start := Holdout(ordered, offset), LastDay(ordered, offset);
            && b.Ready? && |b.curve| == 30
            && var c := Generated(reply, start, true, b.curve);
               && c.Candidate? && |c.curve| == 30
               && (Perfect(c.curve, start, actuals) ==> row.candidateMape == 0.0)
               && (Perfect(b.curve, start, actuals) ==> row.baselineMape == 0.0)
  {
    hide Evaluate, BaselineOf, Generated, Holdout, LastDay, Perfect, DaysCounted, TotalOff;
    EvaluationIs(ordered, limit, reply, offset);
    var b := BaselineOf(ordered, limit, offset);
    var actuals, start := Holdout(ordered, offset), LastDay(ordered, offset);
    var c := Generated(reply, start, true, b.curve);
    var row := Evaluate(ordered, limit, reply, offset).row;
    if Perfect(c.curve, start, actuals) { PerfectHasNoError(row.candidateMape, c.curve, start, actuals); }
    if Perfect(b.curve, start, actuals) { PerfectHasNoError(row.baselineMape, b.curve, start, actuals); }
  }

  lemma PerfectHasNoError(e: real, curve: seq<Point>, start: int, actuals: seq<Day>)
    requires |curve| == 30 && Perfect(curve, start, actuals) && IsErrorOf(e, curve, start, actuals)
    ensures e == 0.0
  {
    hide Round4;
    PerfectIsNotOff(curve, start, actuals);
    assert e == Round4(0.0);
    Round4Iff(0.0, 0);
  }

  /** Three judged windows are the three rows, oldest first, each with the answer to its own question. */
  lemma ThreeRows(ordered: seq<Day>, limit: real, replies: seq<Reply>)
    requires LongEnough(ordered) && |replies| == 3
    requires Evaluate(ordered, limit, replies[0], 3).Judged? && Evaluate(ordered, limit, replies[1], 2).Judged?
    requires Evaluate(ordered, limit, replies[2], 1).Judged?
    ensures EvaluateDown(ordered, limit, replies, 1)
            == Evaluations([Evaluate(ordered, limit, replies[0], 3).row, Evaluate(ordered, limit, replies[1], 2).row,
                            Evaluate(ordered, limit, replies[2], 1).row])
  {
    hide Evaluate;
    assert EvaluateDown(ordered, limit, replies, 4) == Evaluations([]);
    assert EvaluateDown(ordered, limit, replies, 3) == Evaluations([Evaluate(ordered, limit, replies[0], 3).row]);
    assert EvaluateDown(ordered, limit, replies, 2)
        == Evaluations([Evaluate(ordered, limit, replies[0], 3).row, Evaluate(ordered, limit, replies[1], 2).row]);
  }
}
