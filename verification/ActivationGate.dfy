/**
 The gate a candidate has to pass to be activated, on the rows of its rolling evaluation.
 */
module ActivationGate {

  import opened CandidateCurves
  import opened DailyHistory
  import opened Forecast
  import opened RollingEvaluation

  // ------------------------------------------------------------ the activation gate

  function InsertByEnd(e: Evaluation, rows: seq<Evaluation>): (r: seq<Evaluation>)
    ensures |r| == |rows| + 1 && multiset(r) == multiset{e} + multiset(rows)
  {
    if rows == [] then [e]
    else
      assert rows == [rows[0]] + rows[1..];
      if e.windowEnd <= rows[0].windowEnd then [e] + rows else [rows[0]] + InsertByEnd(e, rows[1..])
  }

  /** Python's stable `sorted` by the end of the window. */
  function ByEnd(rows: seq<Evaluation>): (r: seq<Evaluation>)
    ensures |r| == |rows| && multiset(r) == multiset(rows)
  {
    if rows == [] then []
    else
      assert rows == [rows[0]] + rows[1..];
      InsertByEnd(rows[0], ByEnd(rows[1..]))
  }

  predicate SameWindow(a: Evaluation, b: Evaluation) {
    a.windowStart == b.windowStart && a.windowEnd == b.windowEnd
  }

  /** `candidate_meets_activation_gate` */
  predicate MeetsGate(rows: seq<Evaluation>) {
    && |rows| >= 3
    && (forall i, j | 0 <= i < j < |rows| :: !SameWindow(rows[i], rows[j]))
    && var recent := ByEnd(rows)[|rows| - 3..];
       && (forall i | 0 <= i < 3 :: recent[i].riskCovered)
       && var baseline := (recent[0].baselineMape + recent[1].baselineMape + recent[2].baselineMape) / 3.0;
          var candidate := (recent[0].candidateMape + recent[1].candidateMape + recent[2].candidateMape) / 3.0;
          baseline > 0.0 && candidate <= baseline * 0.90
  }

  /** The candidate was no better than the baseline. */
  predicate Tied(e: Evaluation) {
    e.candidateMape == e.baselineMape
  }

  /** Rows that tie with the baseline never open the gate. */
  lemma TiesDoNotActivate(rows: seq<Evaluation>)
    requires forall i | 0 <= i < |rows| :: Tied(rows[i])
    ensures !MeetsGate(rows)
  {
    if |rows| >= 3 {
      var recent := ByEnd(rows)[|rows| - 3..];
      forall i | 0 <= i < 3 ensures Tied(recent[i]) {
        assert recent[i] in multiset(ByEnd(rows));
        assert recent[i] in multiset(rows);
      }
    }
  }

  /** Rows all worse than the baseline never open the gate. */
  lemma WorseDoesNotActivate(rows: seq<Evaluation>)
    requires forall i | 0 <= i < |rows| :: rows[i].candidateMape > rows[i].baselineMape
    ensures !MeetsGate(rows)
  {
    if |rows| >= 3 {
      var recent := ByEnd(rows)[|rows| - 3..];
      forall i | 0 <= i < 3 ensures recent[i].candidateMape > recent[i].baselineMape {
        assert recent[i] in multiset(ByEnd(rows));
        assert recent[i] in multiset(rows);
      }
    }
  }

  // ------------------------------------------------------------ exactly when the gate opens

  ghost predicate EndsAscend(rows: seq<Evaluation>) {
    forall i, j | 0 <= i < j < |rows| :: rows[i].windowEnd <= rows[j].windowEnd
  }

  lemma {:induction false} InsertKeepsEnds(e: Evaluation, rows: seq<Evaluation>)
    requires EndsAscend(rows)
    ensures EndsAscend(InsertByEnd(e, rows))
  {
    if rows != [] && e.windowEnd > rows[0].windowEnd {
      InsertKeepsEnds(e, rows[1..]);
      var rest := InsertByEnd(e, rows[1..]);
      forall k | 0 <= k < |rest| ensures rows[0].windowEnd <= rest[k].windowEnd {
        assert rest[k] in multiset(rest);
        assert rest[k] in multiset{e} + multiset(rows[1..]);
      }
    }
  }

  lemma {:induction false} ByEndAscends(rows: seq<Evaluation>)
    ensures EndsAscend(ByEnd(rows))
  {
    if rows != [] {
      ByEndAscends(rows[1..]);
      InsertKeepsEnds(rows[0], ByEnd(rows[1..]));
    }
  }

  /** The rows are some older ones and three that all end later. */
  ghost predicate EndsWith(rows: seq<Evaluation>, older: seq<Evaluation>, a: Evaluation, b: Evaluation, c: Evaluation) {
    && multiset(rows) == multiset(older) + multiset{a, b, c}
    && forall i | 0 <= i < |older| ::
         older[i].windowEnd < a.windowEnd && older[i].windowEnd < b.windowEnd && older[i].windowEnd < c.windowEnd
  }

  lemma FrontEndsFirst(front: seq<Evaluation>, last: seq<Evaluation>)
    requires EndsAscend(front + last)
    ensures forall x, y | x in front && y in last :: x.windowEnd <= y.windowEnd
  {
    forall x, y | x in front && y in last
      ensures x.windowEnd <= y.windowEnd
    {
      var i :| 0 <= i < |front| && front[i] == x;
      var j :| 0 <= j < |last| && last[j] == y;
      assert (front + last)[i] == x && (front + last)[|front| + j] == y;
    }
  }

  lemma LastThree(rows: seq<Evaluation>, older: seq<Evaluation>, a: Evaluation, b: Evaluation, c: Evaluation)
    requires EndsWith(rows, older, a, b, c)
    ensures |rows| == |older| + 3 && multiset(ByEnd(rows)[|rows| - 3..]) == multiset{a, b, c}
  {
    hide ByEnd;
    ByEndAscends(rows);
    assert |rows| == |multiset(rows)|;
    var front, last := ByEnd(rows)[..|rows| - 3], ByEnd(rows)[|rows| - 3..];
    assert ByEnd(rows) == front + last;
    FrontEndsFirst(front, last);
    assert multiset(front) + multiset(last) == multiset(ByEnd(rows)) == multiset(rows);
    Separated(front, last, older, a, b, c);
  }

  lemma Separated(front: seq<Evaluation>, last: seq<Evaluation>, older: seq<Evaluation>, a: Evaluation,
                  b: Evaluation, c: Evaluation)
    requires |last| == 3 && multiset(front) + multiset(last) == multiset(older) + multiset{a, b, c}
    requires forall x, y | x in front && y in last :: x.windowEnd <= y.windowEnd
    requires forall x, y | x in older && y in multiset{a, b, c} :: x.windowEnd < y.windowEnd
    ensures multiset(last) == multiset{a, b, c}
  {
    var f, l, o, late := multiset(front), multiset(last), multiset(older), multiset{a, b, c};
    assert |f + l| == |o + late| && |f| == |o|;
    if exists x :: x in front && x in late {
      var x :| x in front && x in late;
      forall y ensures l[y] <= late[y] {
        if y in l {
          assert y in last;
          assert y !in o;
          assert (f + l)[y] == (o + late)[y];
        }
      }
      assert l <= late;
      SameSize(l, late);
    } else {
      forall x ensures f[x] <= o[x] {
        if x in f { assert x in front; }
        assert (f + l)[x] == (o + late)[x];
      }
      SameSize(f, o);
      forall x ensures l[x] == late[x] {
        assert (f + l)[x] == (o + late)[x];
      }
    }
  }

  lemma SameSize(m: multiset<Evaluation>, n: multiset<Evaluation>)
    requires m <= n && |m| == |n|
    ensures m == n
  {
    assert n == m + (n - m);
  }

  lemma SumsAreSymmetric(recent: seq<Evaluation>, a: Evaluation, b: Evaluation, c: Evaluation)
    requires |recent| == 3 && multiset(recent) == multiset{a, b, c}
    ensures recent[0].baselineMape + recent[1].baselineMape + recent[2].baselineMape
            == a.baselineMape + b.baselineMape + c.baselineMape
    ensures recent[0].candidateMape + recent[1].candidateMape + recent[2].candidateMape
            == a.candidateMape + b.candidateMape + c.candidateMape
    ensures (forall i | 0 <= i < 3 :: recent[i].riskCovered) <==> a.riskCovered && b.riskCovered && c.riskCovered
  {
    var r := recent;
    assert r == [r[0], r[1], r[2]];
    assert multiset(r) == multiset{r[0], r[1], r[2]};
    Arrangement(r[0], r[1], r[2], a, b, c);
  }

  lemma PairArrangement<T>(y: T, z: T, b: T, c: T)
    requires multiset{y, z} == multiset{b, c}
    ensures (y == b && z == c) || (y == c && z == b)
  {
    assert y in multiset{b, c};
    assert multiset{y, z} - multiset{y} == multiset{z};
    assert z in multiset{b, c} - multiset{y};
  }

  lemma WithoutFirst<T>(x: T, y: T, z: T, b: T, c: T)
    requires multiset{x, y, z} == multiset{x, b, c}
    ensures (y == b && z == c) || (y == c && z == b)
  {
    assert multiset{x, y, z} - multiset{x} == multiset{y, z};
    assert multiset{x, b, c} - multiset{x} == multiset{b, c};
    PairArrangement(y, z, b, c);
  }

  lemma Arrangement<T>(x: T, y: T, z: T, a: T, b: T, c: T)
    requires multiset{x, y, z} == multiset{a, b, c}
    ensures (x == a && y == b && z == c) || (x == a && y == c && z == b) || (x == b && y == a && z == c)
            || (x == b && y == c && z == a) || (x == c && y == a && z == b) || (x == c && y == b && z == a)
  {
    assert x in multiset{a, b, c};
    if x == a {
      WithoutFirst(x, y, z, b, c);
    } else if x == b {
      assert multiset{a, b, c} == multiset{b, a, c};
      WithoutFirst(x, y, z, a, c);
    } else {
      assert multiset{a, b, c} == multiset{c, a, b};
      WithoutFirst(x, y, z, a, b);
    }
  }

  /**
   The gate opens exactly when no window repeats, the three latest windows cover their risk, and
   their summed error is at most nine tenths of the baseline's, which is not zero.
   */
  lemma GateIff(rows: seq<Evaluation>, older: seq<Evaluation>, a: Evaluation, b: Evaluation, c: Evaluation)
    requires EndsWith(rows, older, a, b, c)
    ensures MeetsGate(rows) <==>
              && (forall i, j | 0 <= i < j < |rows| :: rows[i].windowStart != rows[j].windowStart
                                                       || rows[i].windowEnd != rows[j].windowEnd)
              && a.riskCovered && b.riskCovered && c.riskCovered
              && a.baselineMape + b.baselineMape + c.baselineMape > 0.0
              && a.candidateMape + b.candidateMape + c.candidateMape
                 <= 0.9 * (a.baselineMape + b.baselineMape + c.baselineMape)
  {
    hide ByEnd;
    LastThree(rows, older, a, b, c);
    SumsAreSymmetric(ByEnd(rows)[|rows| - 3..], a, b, c);
  }

  /** Fewer than three windows never open it. */
  lemma GateNeedsThree(rows: seq<Evaluation>)
    requires |rows| < 3
    ensures !MeetsGate(rows)
  {}

  /** The completion failed with an error the generator catches. */
  predicate CaughtFailure(reply: Reply) {
    reply.Raises? && Caught(reply.error)
  }

  /** A window judged on the fallback ties with the baseline and covers its risk. */
  lemma FallbackTies(ordered: seq<Day>, limit: real, reply: Reply, offset: nat)
    requires LongEnough(ordered) && 1 <= offset <= WINDOWS && CaughtFailure(reply)
    ensures !Evaluate(ordered, limit, reply, offset).Escapes?
    ensures Evaluate(ordered, limit, reply, offset).Judged? ==>
              Tied(Evaluate(ordered, limit, reply, offset).row)
                  && Evaluate(ordered, limit, reply, offset).row.riskCovered
  {
    hide ForecastOf, Mape, Round4, ReachesP90, ReachesActual;
  }

  lemma {:induction false} AllTied(ordered: seq<Day>, limit: real, replies: seq<Reply>, offset: nat)
    requires LongEnough(ordered) && |replies| == WINDOWS && 1 <= offset <= WINDOWS + 1
    requires forall i | 0 <= i < |replies| :: CaughtFailure(replies[i])
    ensures var r := EvaluateDown(ordered, limit, replies, offset);
            r.Evaluations? && forall i | 0 <= i < |r.rows| :: Tied(r.rows[i])
    decreases WINDOWS + 1 - offset
  {
    hide Evaluate;
    if offset <= WINDOWS {
      AllTied(ordered, limit, replies, offset + 1);
      FallbackTies(ordered, limit, replies[WINDOWS - offset], offset);
    }
  }

  /** A model that only ever fails with caught errors is evaluated without one and never activated. */
  lemma SilentModelIsNeverActivated(ordered: seq<Day>, limit: real, replies: seq<Reply>)
    requires LongEnough(ordered) && |replies| == WINDOWS
    requires forall i | 0 <= i < |replies| :: CaughtFailure(replies[i])
    ensures var r := EvaluateDown(ordered, limit, replies, 1); r.Evaluations? && !MeetsGate(r.rows)
  {
    hide EvaluateDown;
    AllTied(ordered, limit, replies, 1);
    TiesDoNotActivate(EvaluateDown(ordered, limit, replies, 1).rows);
  }
}
