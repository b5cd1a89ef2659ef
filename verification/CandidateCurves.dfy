/**
 Candidate curves from a model: how they are validated, when the statistical forecast takes their
 place, when they first reach the limit and what risk that is.
 */
module CandidateCurves {

  import opened DailyHistory
  import opened Forecast
  import opened TheilSen
  import opened Wrappers

  // ------------------------------------------------------------ validation

  /**
   A timestamp of a model answer; `OutOfRange` has no UTC equivalent in the supported years, and
   `TooDeep` is a nested value whose text cannot be formed.
   */
  datatype When = Unparsed | TooDeep | Naive | OutOfRange | At(seconds: int)

  /** A number of a model answer; `TooLarge` is an integer beyond every float. */
  datatype Num = Missing | TooLarge | NonFinite | Finite(v: real)

  datatype RawPoint = RawPoint(when: When, p10: Num, p50: Num, p90: Num)

  /** A key, type or value error is caught by the caller; an overflow or a recursion error is not. */
  datatype Verdict = Fine | Bad | Uncaught

  datatype Validation = Accepted(curve: seq<Point>) | Rejected | Raised

  function DayOf(at: int): int {
    at / SECONDS
  }

  function AsFloat(n: Num): Verdict {
    match n case Missing => Bad case TooLarge => Uncaught case _ => Fine
  }

  /** The three quantiles are read in order; the first failure decides. */
  function AsFloats(p: RawPoint): Verdict {
    if AsFloat(p.p10) != Fine then AsFloat(p.p10)
    else if AsFloat(p.p50) != Fine then AsFloat(p.p50)
    else AsFloat(p.p90)
  }

  function Check(p: RawPoint, day: int): Verdict {
    if p.when.Unparsed? then Bad
    else if p.when.TooDeep? then Uncaught
    else if AsFloats(p) != Fine then AsFloats(p)
    else if p.when.Naive? then Bad
    else if p.when.OutOfRange? then Uncaught
    else if DayOf(p.when.seconds) != day then Bad
    else if p.p10.NonFinite? || p.p50.NonFinite? || p.p90.NonFinite? then Bad
    else if 0.0 <= p.p10.v <= p.p50.v <= p.p90.v then Fine
    else Bad
  }

  function Parsed(p: RawPoint): Point
    requires p.when.At? && p.p10.Finite? && p.p50.Finite? && p.p90.Finite?
  {
    Point(p.when.seconds, p.p10.v, p.p50.v, p.p90.v)
  }

  /** The first point that is not fine decides. */
  function ValidateAll(raw: seq<RawPoint>, day: int): Validation
    decreases |raw|
  {
    if raw == [] then Accepted([])
    else
      match ValidateAll(raw[..|raw| - 1], day)
      case Accepted(curve) =>
        (match Check(raw[|raw| - 1], day + |raw|)
         case Fine => Accepted(curve + [Parsed(raw[|raw| - 1])])
         case Bad => Rejected
         case Uncaught => Validation.Raised)
      case other => other
  }

  function Validate(raw: seq<RawPoint>, start: int, aware: bool): Validation {
    if |raw| != FORECAST_DAYS || !aware then Rejected else ValidateAll(raw, start)
  }

  /** `validate_ai_prediction_curve`, building the list as it goes. */
  method ValidateCurve(raw: seq<RawPoint>, start: int, aware: bool) returns (r: Validation)
    ensures r == Validate(raw, start, aware)
  {
    if |raw| != FORECAST_DAYS || !aware {
      return Rejected;
    }
    var validated: seq<Point> := [];
    for i := 0 to |raw|
      invariant ValidateAll(raw[..i], start) == Accepted(validated)
    {
      assert raw[..i + 1][..i] == raw[..i];
      match Check(raw[i], start + i + 1)
      case Fine =>
        validated := validated + [Parsed(raw[i])];
      case Bad =>
        FailureDecides(raw, start, i);
        return Rejected;
      case Uncaught =>
        FailureDecides(raw, start, i);
        return Validation.Raised;
    }
    assert raw[..|raw|] == raw;
    return Accepted(validated);
  }

  lemma FailureDecides(raw: seq<RawPoint>, day: int, i: nat)
    requires i < |raw| && ValidateAll(raw[..i], day).Accepted? && Check(raw[i], day + i + 1) != Fine
    ensures ValidateAll(raw, day) == if Check(raw[i], day + i + 1).Bad? then Rejected else Validation.Raised
    decreases |raw|
  {
    if i < |raw| - 1 {
      assert raw[..|raw| - 1][..i] == raw[..i];
      FailureDecides(raw[..|raw| - 1], day, i);
    }
  }

  predicate Ordered3(p: Point) {
    0.0 <= p.p10 <= p.p50 <= p.p90
  }

  /** Thirty contiguous days after the start, each with ordered quantiles. */
  ghost predicate ValidCurve(curve: seq<Point>, start: int) {
    && |curve| == 30
    && forall i | 0 <= i < |curve| :: DayOf(curve[i].at) == start + 1 + i && Ordered3(curve[i])
  }

  /** A model answer that spells out a curve. */
  function Spelled(curve: seq<Point>): (raw: seq<RawPoint>)
    ensures |raw| == |curve|
    ensures forall i | 0 <= i < |raw| ::
              raw[i] == RawPoint(At(curve[i].at), Finite(curve[i].p10), Finite(curve[i].p50), Finite(curve[i].p90))
  {
    seq(|curve|, i requires 0 <= i < |curve| =>
      RawPoint(At(curve[i].at), Finite(curve[i].p10), Finite(curve[i].p50), Finite(curve[i].p90)))
  }

  lemma FineIsSpelled(p: RawPoint, day: int)
    requires Check(p, day) == Fine
    ensures p.when.At? && p.p10.Finite? && p.p50.Finite? && p.p90.Finite?
    ensures [p] == Spelled([Parsed(p)]) && DayOf(Parsed(p).at) == day && Ordered3(Parsed(p))
  {}

  lemma SpelledJoins(front: seq<Point>, last: Point)
    ensures Spelled(front + [last]) == Spelled(front) + Spelled([last])
  {}

  lemma {:induction false} AcceptedIsSpelled(raw: seq<RawPoint>, day: int)
    requires ValidateAll(raw, day).Accepted?
    ensures var curve := ValidateAll(raw, day).curve;
            raw == Spelled(curve)
            && forall i | 0 <= i < |curve| :: DayOf(curve[i].at) == day + 1 + i && Ordered3(curve[i])
  {
    hide Check, DayOf, Ordered3;
    if raw != [] {
      var n := |raw| - 1;
      AcceptedIsSpelled(raw[..n], day);
      FineIsSpelled(raw[n], day + |raw|);
      SpelledJoins(ValidateAll(raw[..n], day).curve, Parsed(raw[n]));
      assert raw == raw[..n] + [raw[n]];
    }
  }

  lemma {:induction false} SpelledIsAccepted(curve: seq<Point>, day: int)
    requires forall i | 0 <= i < |curve| :: DayOf(curve[i].at) == day + 1 + i && Ordered3(curve[i])
    ensures ValidateAll(Spelled(curve), day) == Accepted(curve)
  {
    if curve != [] {
      var n := |curve| - 1;
      SpelledIsAccepted(curve[..n], day);
      assert Spelled(curve)[..n] == Spelled(curve[..n]);
      assert curve == curve[..n] + [curve[n]];
    }
  }

  /** Accepted are exactly the answers that spell out a valid curve, and they are kept as they are. */
  lemma AcceptedIff(raw: seq<RawPoint>, start: int, curve: seq<Point>)
    ensures Validate(raw, start, true) == Accepted(curve) <==> raw == Spelled(curve) && ValidCurve(curve, start)
  {
    if ValidateAll(raw, start).Accepted? { AcceptedIsSpelled(raw, start); }
    if raw == Spelled(curve) && ValidCurve(curve, start) { SpelledIsAccepted(curve, start); }
  }

  // ------------------------------------------------------------ falling back

  /** The exceptions the completion and the decoding of its text can raise. */
  datatype Error =
    | ClientError(timeout: bool) | KeyMissing | WrongType | WrongValue | NotJson
    | NoAttribute | TooDeepToParse | Other

  /** What `except` names: client, key, type, value and decoding errors. */
  predicate Caught(e: Error) {
    e.ClientError? || e.KeyMissing? || e.WrongType? || e.WrongValue? || e.NotJson?
  }

  datatype Reply = Raises(error: Error) | Answer(raw: seq<RawPoint>)

  datatype Source = AiCandidate | Fallback(timeout: bool)

  /** Either a curve or an exception nobody catches. */
  datatype Candidate = Escaped | Candidate(curve: seq<Point>, source: Source)

  /** `generate_candidate_curve_with_fallback` */
  method GenerateWithFallback(reply: Reply, start: int, aware: bool, baseline: seq<Point>) returns (r: Candidate)
    ensures r == Generated(reply, start, aware, baseline)
  {
    match reply
    case Raises(e) =>
      if !Caught(e) {
        return Escaped;
      }
      return Candidate(baseline, Fallback(e.ClientError? && e.timeout));
    case Answer(raw) =>
      var v := ValidateCurve(raw, start, aware);
      match v
      case Accepted(curve) => return Candidate(curve, AiCandidate);
      case Rejected => return Candidate(baseline, Fallback(false));
      case Raised => return Escaped;
  }

  function Generated(reply: Reply, start: int, aware: bool, baseline: seq<Point>): Candidate {
    match reply
    case Raises(e) => if Caught(e) then Candidate(baseline, Fallback(e.ClientError? && e.timeout)) else Escaped
    case Answer(raw) =>
      match Validate(raw, start, aware)
      case Accepted(curve) => Candidate(curve, AiCandidate)
      case Rejected => Candidate(baseline, Fallback(false))
      case Raised => Escaped
  }

  // ------------------------------------------------------------ what a provider can send

  /** The decoded text of a reply, as far as the generator looks into it. */
  datatype Json = Malformed | Scalar | WithoutCurve | Curve(points: seq<RawPoint>)

  /** The text of a message; the parser recurses into its brackets, which are nested `depth` deep. */
  datatype Content = Blank | Written(depth: nat, json: Json)

  /**
   A requested tool call, by the first thing that is wrong with it: the call is no object, its
   function is none, a part is nested too deep to print or parse, or the arguments spell no object.
   */
  datatype ToolCall = WellFormed | NoCallObject | NoFunctionObject | TooDeepCall | BadArguments

  /** The calls of a message, none if it has no such list; a number instead of a list is not iterable. */
  datatype ToolCalls = NotIterable | Listed(calls: seq<ToolCall>)

  /** Content and reasoning are printed before the calls are read; `printable` says that they can be. */
  datatype Message = NoMessage | NoObject | Message(printable: bool, calls: ToolCalls, content: Content)

  /** An OpenAI-compatible response: an HTTP failure, or a body with nested brackets and a first message. */
  datatype Response = HttpFailure(timeout: bool) | Body(depth: nat, message: Message)

  function CallError(call: ToolCall): Option<Error> {
    match call
    case WellFormed => None
    case NoCallObject => Some(NoAttribute)
    case NoFunctionObject => Some(NoAttribute)
    case TooDeepCall => Some(TooDeepToParse)
    case BadArguments => Some(ClientError(false))
  }

  /** The calls are decoded in order; the first failure decides. */
  function CallsError(calls: seq<ToolCall>): Option<Error> {
    if calls == [] then None else if CallError(calls[0]).Some? then CallError(calls[0]) else CallsError(calls[1..])
  }

  /** `chat_completion` followed by `json.loads` of its text. */
  function ReplyTo(response: Response, recursionLimit: nat): Reply {
    match response
    case HttpFailure(timeout) => Raises(ClientError(timeout))
    case Body(depth, message) =>
      if depth > recursionLimit then Raises(TooDeepToParse)
      else match message
        case NoMessage => Raises(ClientError(false))
        case NoObject => Raises(NoAttribute)
        case Message(printable, calls, content) =>
          if !printable then Raises(TooDeepToParse)
          else if calls.NotIterable? then Raises(ClientError(false))
          else if CallsError(calls.calls).Some? then Raises(CallsError(calls.calls).value)
          else Decoded(content, calls.calls == [], recursionLimit)
  }

  /** Without text and calls the completion raises; with calls the empty text is no JSON. */
  function Decoded(content: Content, noCalls: bool, recursionLimit: nat): Reply {
    match content
    case Blank => Raises(if noCalls then ClientError(false) else NotJson)
    case Written(depth, json) =>
      if depth > recursionLimit then Raises(TooDeepToParse)
      else match json
        case Malformed => Raises(NotJson)
        case Scalar => Raises(WrongType)
        case WithoutCurve => Raises(KeyMissing)
        case Curve(points) => Answer(points)
  }

  predicate UncaughtCall(call: ToolCall) {
    call.NoCallObject? || call.NoFunctionObject? || call.TooDeepCall?
  }

  /** A call nobody can decode comes before any call that is refused. */
  ghost predicate ReachesUncaughtCall(calls: seq<ToolCall>) {
    exists i | 0 <= i < |calls| :: UncaughtCall(calls[i]) && forall j | 0 <= j < i :: calls[j].WellFormed?
  }

  lemma {:induction false} CallsErrorIff(calls: seq<ToolCall>)
    ensures CallsError(calls).None? <==> forall c | c in calls :: c.WellFormed?
    ensures CallsError(calls).Some? && !Caught(CallsError(calls).value) <==> ReachesUncaughtCall(calls)
  {
    if calls != [] {
      var rest := calls[1..];
      CallsErrorIff(rest);
      if calls[0].WellFormed? && ReachesUncaughtCall(rest) {
        var i :| 0 <= i < |rest| && UncaughtCall(rest[i]) && forall j | 0 <= j < i :: rest[j].WellFormed?;
        assert UncaughtCall(calls[i + 1]) && forall j | 0 <= j < i + 1 :: calls[j].WellFormed?;
      }
      if calls[0].WellFormed? && ReachesUncaughtCall(calls) {
        var i :| 0 <= i < |calls| && UncaughtCall(calls[i]) && forall j | 0 <= j < i :: calls[j].WellFormed?;
        assert UncaughtCall(rest[i - 1]) && forall j | 0 <= j < i - 1 :: rest[j] == calls[j + 1];
      }
    }
  }

  /** The text reaches the validation, or fails before it, in a way that nobody catches. */
  ghost predicate TextEscapes(content: Content, recursionLimit: nat, start: int) {
    && content.Written?
    && (content.depth > recursionLimit
        || (content.json.Curve? && |content.json.points| == FORECAST_DAYS
            && ReachesUncaught(content.json.points, start)))
  }

  /**
   The generator raises on exactly these bodies: nested too deep, with a first message that is no
   object or cannot be printed, with an undecodable tool call before any refused one, or with
   sound calls and such a text.
   */
  lemma BodyEscapesIff(response: Response, recursionLimit: nat, start: int, baseline: seq<Point>)
    ensures Generated(ReplyTo(response, recursionLimit), start, true, baseline) == Escaped <==>
              && response.Body?
              && var m := response.message;
                 || response.depth > recursionLimit
                 || m.NoObject?
                 || (m.Message? && !m.printable)
                 || (m.Message? && m.calls.Listed? && ReachesUncaughtCall(m.calls.calls))
                 || (m.Message? && m.calls.Listed? && (forall c | c in m.calls.calls :: c.WellFormed?)
                     && TextEscapes(m.content, recursionLimit, start))
  {
    hide ReachesUncaught, ReachesUncaughtCall, CallsError, Validate;
    if response.Body? && response.message.Message? {
      var m := response.message;
      if m.calls.Listed? { CallsErrorIff(m.calls.calls); }
      TextEscapesIff(m.content, m.calls == Listed([]), recursionLimit, start, baseline);
    }
  }

  lemma TextEscapesIff(content: Content, noCalls: bool, recursionLimit: nat, start: int, baseline: seq<Point>)
    ensures Generated(Decoded(content, noCalls, recursionLimit), start, true, baseline) == Escaped <==>
              TextEscapes(content, recursionLimit, start)
  {
    hide ReachesUncaught;
    if content.Written? && content.json.Curve? { ValidationRaisesIff(content.json.points, start); }
  }

  lemma ClampKeepsOrder(day: int, b: Band)
    requires b.p10 <= b.p50 <= b.p90
    ensures Ordered3(PointOf(day, b)) && DayOf(PointOf(day, b).at) == day
  {}

  lemma CurvePointIsValid(fit: Fit, first: int, day: int)
    ensures Ordered3(CurvePoint(fit, first, day)) && DayOf(CurvePoint(fit, first, day).at) == day
  {
    hide BandAt;
    BandIsAscending(fit, (day - first) as real);
    ClampKeepsOrder(day, RawBand(fit, first, day));
  }

  /** Every ready forecast is a valid curve after its last training day. */
  lemma ReadyCurveIsValid(samples: seq<Sample>, limit: real, today: int)
    requires ForecastOf(samples, limit, today).Ready?
    ensures History(samples, today) != []
    ensures var ordered := History(samples, today);
            ValidCurve(ForecastOf(samples, limit, today).curve, ordered[|ordered| - 1].day)
  {
    hide FitHistory, CurvePoint, Maxima, DailyHistory.Ordered, FirstReaching;
    var ordered := History(samples, today);
    var fit, first, last := FitHistory(ordered), ordered[0].day, ordered[|ordered| - 1].day;
    var curve := ForecastOf(samples, limit, today).curve;
    forall i | 0 <= i < FORECAST_DAYS
      ensures DayOf(curve[i].at) == last + 1 + i && Ordered3(curve[i])
    {
      CurveAt(fit, first, last, FORECAST_DAYS, i);
      CurvePointIsValid(fit, first, last + 1 + i);
    }
  }

  /** The answer meets an uncaught error before anything else is wrong with it. */
  ghost predicate ReachesUncaught(raw: seq<RawPoint>, start: int) {
    exists i | 0 <= i < |raw| ::
      Check(raw[i], start + i + 1) == Uncaught && forall j | 0 <= j < i :: Check(raw[j], start + j + 1) == Fine
  }

  lemma {:induction false} FinePrefixIsAccepted(raw: seq<RawPoint>, day: int, i: nat)
    requires i <= |raw| && forall j | 0 <= j < i :: Check(raw[j], day + j + 1) == Fine
    ensures ValidateAll(raw[..i], day).Accepted?
  {
    if i > 0 {
      FinePrefixIsAccepted(raw, day, i - 1);
      assert raw[..i][..i - 1] == raw[..i - 1];
    }
  }

  lemma {:induction false} DecidingPoint(raw: seq<RawPoint>, day: int) returns (i: nat)
    requires !ValidateAll(raw, day).Accepted?
    ensures i < |raw| && (forall j | 0 <= j < i :: Check(raw[j], day + j + 1) == Fine)
    ensures Check(raw[i], day + i + 1) == if ValidateAll(raw, day).Rejected? then Bad else Uncaught
  {
    var n := |raw| - 1;
    if ValidateAll(raw[..n], day).Accepted? {
      i := n;
      AcceptedPrefixIsFine(raw[..n], day);
      assert forall j | 0 <= j < n :: raw[..n][j] == raw[j];
    } else {
      i := DecidingPoint(raw[..n], day);
    }
  }

  lemma AcceptedPrefixIsFine(raw: seq<RawPoint>, day: int)
    requires ValidateAll(raw, day).Accepted?
    ensures forall j | 0 <= j < |raw| :: Check(raw[j], day + j + 1) == Fine
  {
    AcceptedIsSpelled(raw, day);
  }

  lemma ValidationRaisesIff(raw: seq<RawPoint>, start: int)
    ensures ValidateAll(raw, start) == Validation.Raised <==> ReachesUncaught(raw, start)
  {
    if ValidateAll(raw, start) == Validation.Raised {
      var i := DecidingPoint(raw, start);
      assert Check(raw[i], start + i + 1) == Uncaught;
    }
    if ReachesUncaught(raw, start) {
      var i :| 0 <= i < |raw| && Check(raw[i], start + i + 1) == Uncaught
        && forall j | 0 <= j < i :: Check(raw[j], start + j + 1) == Fine;
      FinePrefixIsAccepted(raw, start, i);
      FailureDecides(raw, start, i);
    }
  }

  /**
   With a ready baseline the generator returns thirty valid days, except exactly when the
   completion raises an error it does not catch, or an answer of thirty points meets one before
   any other defect.
   */
  lemma GeneratorIsSafeIff(samples: seq<Sample>, limit: real, today: int, reply: Reply)
    requires ForecastOf(samples, limit, today).Ready?
    ensures History(samples, today) != []
    ensures var ordered := History(samples, today);
            var start := ordered[|ordered| - 1].day;
            var r := Generated(reply, start, true, ForecastOf(samples, limit, today).curve);
            && (r.Candidate? ==> ValidCurve(r.curve, start))
            && (r.Escaped? <==> if reply.Raises? then !Caught(reply.error)
                                else |reply.raw| == FORECAST_DAYS && ReachesUncaught(reply.raw, start))
  {
    hide ForecastOf, History, ReachesUncaught;
    ReadyCurveIsValid(samples, limit, today);
    var ordered := History(samples, today);
    var start := ordered[|ordered| - 1].day;
    if reply.Answer? {
      ValidationRaisesIff(reply.raw, start);
      var v := Validate(reply.raw, start, true);
      if v.Accepted? { AcceptedIff(reply.raw, start, v.curve); }
    }
  }

  /** An integer beyond every float in the first point is enough to escape. */
  lemma HugeNumberEscapes(start: int, baseline: seq<Point>, p50: Num, p90: Num, rest: seq<RawPoint>)
    requires |rest| == FORECAST_DAYS - 1
    ensures Generated(Answer([RawPoint(At(0), TooLarge, p50, p90)] + rest), start, true, baseline) == Escaped
  {
    var raw := [RawPoint(At(0), TooLarge, p50, p90)] + rest;
    assert Check(raw[0], start + 0 + 1) == Uncaught;
    assert ReachesUncaught(raw, start);
    ValidationRaisesIff(raw, start);
  }

  // ------------------------------------------------------------ first crossings and risk

  /** No later than; never is the latest. */
  predicate NoLater(x: Option<int>, y: Option<int>) {
    y.None? || (x.Some? && x.value <= y.value)
  }

  ghost predicate TimesGrow(curve: seq<Point>) {
    forall i, j | 0 <= i < j < |curve| :: curve[i].at < curve[j].at
  }

  /** Both have the same times, and where `c` stands under `p`, `d` is at least as high under `q`. */
  ghost predicate Above(d: seq<Point>, q: Curve, c: seq<Point>, p: Curve) {
    && |d| == |c|
    && forall i | 0 <= i < |c| :: d[i].at == c[i].at && Value(d[i], q) >= Value(c[i], p)
  }

  lemma {:induction false} ReachedAtSomePoint(curve: seq<Point>, p: Curve, limit: real)
    requires FirstReaching(curve, p, limit).Some?
    ensures exists i :: 0 <= i < |curve| && curve[i].at == FirstReaching(curve, p, limit).value
  {
    if Value(curve[0], p) < limit {
      ReachedAtSomePoint(curve[1..], p, limit);
      var i :| 0 <= i < |curve[1..]| && curve[1..][i].at == FirstReaching(curve[1..], p, limit).value;
      assert curve[i + 1].at == FirstReaching(curve, p, limit).value;
    }
  }

  /** A higher curve reaches a lower limit no later. */
  lemma {:induction false} HigherReachesSooner(d: seq<Point>, q: Curve, low: real, c: seq<Point>, p: Curve, high: real)
    requires Above(d, q, c, p) && TimesGrow(c) && low <= high
    ensures NoLater(FirstReaching(d, q, low), FirstReaching(c, p, high))
    decreases |c|
  {
    if c != [] && Value(c[0], p) < high {
      if Value(d[0], q) >= low {
        if FirstReaching(c, p, high).Some? { ReachedAtSomePoint(c, p, high); }
      } else {
        HigherReachesSooner(d[1..], q, low, c[1..], p, high);
      }
    }
  }

  lemma ValidTimesGrow(curve: seq<Point>, start: int)
    requires ValidCurve(curve, start)
    ensures TimesGrow(curve)
  {
    forall i, j | 0 <= i < j < |curve| ensures curve[i].at < curve[j].at {
      assert DayOf(curve[i].at) < DayOf(curve[j].at);
    }
  }

  /** On a valid curve the 90% date comes first and the 10% date last. */
  lemma CrossingsAreOrdered(curve: seq<Point>, start: int, limit: real)
    requires ValidCurve(curve, start)
    ensures NoLater(FirstReaching(curve, P90, limit), FirstReaching(curve, P50, limit))
    ensures NoLater(FirstReaching(curve, P50, limit), FirstReaching(curve, P10, limit))
  {
    ValidTimesGrow(curve, start);
    assert forall i | 0 <= i < |curve| :: Ordered3(curve[i]);
    HigherReachesSooner(curve, P90, limit, curve, P50, limit);
    HigherReachesSooner(curve, P50, limit, curve, P10, limit);
  }

  datatype Level = Insufficient | NoRisk | Watch | High | Critical

  predicate Within(at: Option<int>, now: int, days: nat) {
    at.Some? && at.value <= now + days * SECONDS
  }

  /** `build_exhaustion_risk_summary` */
  function RiskLevel(ready: bool, p50: Option<int>, p90: Option<int>, now: int): Level {
    if !ready then Level.Insufficient
    else if Within(p90, now, 7) then Critical
    else if Within(p50, now, 30) then High
    else if Within(p90, now, 30) then Watch
    else NoRisk
  }

  function Rank(l: Level): nat {
    match l case Insufficient => 0 case NoRisk => 1 case Watch => 2 case High => 3 case Critical => 4
  }

  function RiskOf(curve: seq<Point>, limit: real, now: int): Level {
    RiskLevel(true, FirstReaching(curve, P50, limit), FirstReaching(curve, P90, limit), now)
  }

  /** Raising a curve or lowering the limit never lowers the risk of a ready forecast. */
  lemma RiskIsMonotone(c: seq<Point>, high: real, d: seq<Point>, low: real, start: int, now: int)
    requires ValidCurve(c, start) && Above(d, P50, c, P50) && Above(d, P90, c, P90) && low <= high
    ensures Rank(RiskOf(c, high, now)) <= Rank(RiskOf(d, low, now))
  {
    ValidTimesGrow(c, start);
    HigherReachesSooner(d, P50, low, c, P50, high);
    HigherReachesSooner(d, P90, low, c, P90, high);
  }

  // ------------------------------------------------------------ what a risk level means

  /** The 50% or 90% curve is at the limit at some point no later than `latest`. */
  ghost predicate P50ReachesBy(curve: seq<Point>, limit: real, latest: int) {
    exists i :: 0 <= i < |curve| && curve[i].p50 >= limit && curve[i].at <= latest
  }

  ghost predicate P90ReachesBy(curve: seq<Point>, limit: real, latest: int) {
    exists i :: 0 <= i < |curve| && curve[i].p90 >= limit && curve[i].at <= latest
  }

  lemma WithinIff(curve: seq<Point>, c: Curve, limit: real, now: int, days: nat)
    requires TimesGrow(curve)
    ensures Within(FirstReaching(curve, c, limit), now, days) <==>
              exists i :: 0 <= i < |curve| && Value(curve[i], c) >= limit && curve[i].at <= now + days * 86400
  {
    var first := FirstReaching(curve, c, limit);
    FirstReachingIff(curve, c, limit, if first.Some? then first.value else 0);
    if first.Some? {
      var i :| 0 <= i < |curve| && curve[i].at == first.value && Value(curve[i], c) >= limit
        && StaysBelow(curve, c, limit, i);
      assert forall j | 0 <= j < |curve| && Value(curve[j], c) >= limit :: curve[j].at >= first.value;
    }
  }

  /**
   The risk of a valid curve: critical when the 90% curve reaches the limit within seven days, else
   high when the 50% curve does within thirty, else watch when the 90% curve does, else none.
   */
  lemma RiskIff(curve: seq<Point>, start: int, limit: real, now: int)
    requires ValidCurve(curve, start)
    ensures var r := RiskOf(curve, limit, now);
            var week, month := now + 604_800, now + 2_592_000;
            && (r == Critical <==> P90ReachesBy(curve, limit, week))
            && (r == High <==> !P90ReachesBy(curve, limit, week) && P50ReachesBy(curve, limit, month))
            && (r == Watch <==> !P90ReachesBy(curve, limit, week) && !P50ReachesBy(curve, limit, month)
                                && P90ReachesBy(curve, limit, month))
            && (r == NoRisk <==> !P50ReachesBy(curve, limit, month) && !P90ReachesBy(curve, limit, month))
  {
    hide FirstReaching, Within;
    ValidTimesGrow(curve, start);
    WithinIff(curve, P90, limit, now, 7);
    WithinIff(curve, P50, limit, now, 30);
    WithinIff(curve, P90, limit, now, 30);
  }

  /** Without a ready forecast there is no level but the insufficient one. */
  lemma InsufficientIff(ready: bool, p50: Option<int>, p90: Option<int>, now: int)
    ensures RiskLevel(ready, p50, p90, now) == Level.Insufficient <==> !ready
  {}
}
