/**
 Capacity samples reduced to one maximum per UTC day, in day order.
 */
module DailyHistory {

  import opened Ascending

  /** A sample: its UTC day, its value, and whether its timestamp carries a timezone. */
  datatype Sample = Sample(day: int, value: real, aware: bool)

  datatype Day = Day(day: int, value: real)

  predicate AllAware(samples: seq<Sample>) {
    forall i | 0 <= i < |samples| :: samples[i].aware
  }

  /** A larger value replaces the one kept for the day. */
  function Keep(daily: map<int, real>, s: Sample): map<int, real> {
    if s.day in daily && s.value <= daily[s.day] then daily else daily[s.day := s.value]
  }

  /** The maxima of the days from `cutoff` on. */
  function Maxima(samples: seq<Sample>, cutoff: int): map<int, real> {
    if samples == [] then map[]
    else
      var before, s := Maxima(samples[..|samples| - 1], cutoff), samples[|samples| - 1];
      if s.day < cutoff then before else Keep(before, s)
  }

  predicate Covers(s: Sample, t: Sample) {
    s.day == t.day && t.value <= s.value
  }

  ghost predicate CoveredBy(t: Sample, q: seq<Sample>) {
    exists j :: 0 <= j < |q| && Covers(q[j], t)
  }

  /** Every sample of `p` is matched on its day by one of `q` that is no smaller. */
  ghost predicate Dominated(p: seq<Sample>, q: seq<Sample>) {
    forall i | 0 <= i < |p| :: CoveredBy(p[i], q)
  }

  /** The two have the same maximum on every day. */
  ghost predicate SameMaxima(p: seq<Sample>, q: seq<Sample>) {
    Dominated(p, q) && Dominated(q, p)
  }

  lemma {:induction false} MaximumIsAttained(samples: seq<Sample>, cutoff: int, d: int)
    requires d in Maxima(samples, cutoff)
    ensures d >= cutoff
    ensures exists i :: 0 <= i < |samples| && samples[i].day == d && samples[i].value == Maxima(samples, cutoff)[d]
  {
    var n := |samples| - 1;
    var before := Maxima(samples[..n], cutoff);
    if d in before && before[d] == Maxima(samples, cutoff)[d] {
      MaximumIsAttained(samples[..n], cutoff, d);
    } else {
      assert samples[n].day == d;
    }
  }

  lemma {:induction false} MaximumIsBound(samples: seq<Sample>, cutoff: int, i: nat)
    requires i < |samples| && samples[i].day >= cutoff
    ensures samples[i].day in Maxima(samples, cutoff) && samples[i].value <= Maxima(samples, cutoff)[samples[i].day]
  {
    var n := |samples| - 1;
    if i < n { MaximumIsBound(samples[..n], cutoff, i); }
  }

  lemma DominatedMaxima(p: seq<Sample>, q: seq<Sample>, cutoff: int, d: int)
    requires Dominated(p, q) && d in Maxima(p, cutoff)
    ensures d in Maxima(q, cutoff) && Maxima(p, cutoff)[d] <= Maxima(q, cutoff)[d]
  {
    MaximumIsAttained(p, cutoff, d);
    var i :| 0 <= i < |p| && p[i].day == d && p[i].value == Maxima(p, cutoff)[d];
    assert CoveredBy(p[i], q);
    var j :| 0 <= j < |q| && Covers(q[j], p[i]);
    MaximumIsBound(q, cutoff, j);
  }

  lemma SameMaximaSameMap(p: seq<Sample>, q: seq<Sample>, cutoff: int)
    requires SameMaxima(p, q)
    ensures Maxima(p, cutoff) == Maxima(q, cutoff)
  {
    forall d | d in Maxima(p, cutoff) || d in Maxima(q, cutoff)
      ensures d in Maxima(p, cutoff) && d in Maxima(q, cutoff) && Maxima(p, cutoff)[d] == Maxima(q, cutoff)[d]
    {
      if d in Maxima(p, cutoff) { DominatedMaxima(p, q, cutoff, d); }
      if d in Maxima(q, cutoff) { DominatedMaxima(q, p, cutoff, d); }
    }
  }

  /** Reordering and repeating samples keeps every maximum. */
  lemma SameSamplesSameMaxima(p: seq<Sample>, q: seq<Sample>)
    requires forall s :: s in p <==> s in q
    ensures SameMaxima(p, q)
  {
    forall i | 0 <= i < |p| ensures CoveredBy(p[i], q) {
      assert p[i] in q;
      var j :| 0 <= j < |q| && q[j] == p[i];
      assert Covers(q[j], p[i]);
    }
    forall i | 0 <= i < |q| ensures CoveredBy(q[i], p) {
      assert q[i] in p;
      var j :| 0 <= j < |p| && p[j] == q[i];
      assert Covers(p[j], q[i]);
    }
  }

  /** So does dropping a sample that another one of its day covers. */
  lemma DroppingCoveredKeepsMaxima(p: seq<Sample>, i: nat, j: nat)
    requires i < |p| && j < |p| && i != j && Covers(p[j], p[i])
    ensures SameMaxima(p, p[..i] + p[i + 1..])
  {
    var q := p[..i] + p[i + 1..];
    forall a | 0 <= a < |p| ensures CoveredBy(p[a], q) {
      var kept := if a == i then j else a;
      var b := if kept < i then kept else kept - 1;
      assert q[b] == p[kept] && Covers(q[b], p[a]);
    }
    forall b | 0 <= b < |q| ensures CoveredBy(q[b], p) {
      var a := if b < i then b else b + 1;
      assert q[b] == p[a] && Covers(p[a], q[b]);
    }
  }

  // ------------------------------------------------------------ in day order

  function At(daily: map<int, real>, days: seq<int>): (r: seq<Day>)
    requires forall i | 0 <= i < |days| :: days[i] in daily
    ensures |r| == |days| && forall i | 0 <= i < |days| :: r[i] == Day(days[i], daily[days[i]])
  {
    seq(|days|, i requires 0 <= i < |days| => Day(days[i], daily[days[i]]))
  }

  function Ordered(daily: map<int, real>): seq<Day> {
    At(daily, InOrder(daily.Keys))
  }

  ghost predicate InDayOrder(days: seq<Day>) {
    forall i, j | 0 <= i < j < |days| :: days[i].day < days[j].day
  }

  lemma OrderedIsInDayOrder(daily: map<int, real>)
    ensures InDayOrder(Ordered(daily)) && |Ordered(daily)| == |daily|
  {
    InOrderIncreases(daily.Keys);
    assert |daily| == |daily.Keys|;
  }

  // ------------------------------------------------------------ the reduction used by the governance

  function Awares(samples: seq<Sample>): seq<Sample> {
    if samples == [] then []
    else
      var front, last := Awares(samples[..|samples| - 1]), samples[|samples| - 1];
      if last.aware then front + [last] else front
  }

  function Unbounded(samples: seq<Sample>): map<int, real> {
    if samples == [] then map[] else Keep(Unbounded(samples[..|samples| - 1]), samples[|samples| - 1])
  }

  /** `_daily_maxima`: samples without a timezone are skipped. */
  function DailyMaxima(samples: seq<Sample>): seq<Day> {
    Ordered(Unbounded(Awares(samples)))
  }

  /** Daily maxima taken as samples again, at midnight UTC. */
  function AsSamples(days: seq<Day>): (r: seq<Sample>)
    ensures |r| == |days| && forall i | 0 <= i < |days| :: r[i] == Sample(days[i].day, days[i].value, true)
  {
    seq(|days|, i requires 0 <= i < |days| => Sample(days[i].day, days[i].value, true))
  }

  lemma {:induction false} UnboundedIsMaxima(samples: seq<Sample>, cutoff: int)
    requires forall i | 0 <= i < |samples| :: cutoff <= samples[i].day
    ensures Unbounded(samples) == Maxima(samples, cutoff)
  {
    if samples != [] { UnboundedIsMaxima(samples[..|samples| - 1], cutoff); }
  }

  lemma LowerBound(samples: seq<Sample>) returns (cutoff: int)
    ensures forall i | 0 <= i < |samples| :: cutoff <= samples[i].day
  {
    if samples == [] {
      cutoff := 0;
    } else {
      var n := |samples| - 1;
      var below := LowerBound(samples[..n]);
      cutoff := if samples[n].day <= below then samples[n].day else below;
      forall i | 0 <= i < |samples| ensures cutoff <= samples[i].day {
        if i < n { assert samples[..n][i] == samples[i]; }
      }
    }
  }

  lemma {:induction false} AwaresAre(samples: seq<Sample>)
    ensures AllAware(Awares(samples)) && (AllAware(samples) ==> Awares(samples) == samples)
  {
    if samples != [] {
      var n := |samples| - 1;
      AwaresAre(samples[..n]);
      assert samples == samples[..n] + [samples[n]];
      if AllAware(samples) {
        assert forall i | 0 <= i < n :: samples[..n][i].aware;
      }
    }
  }

  /** Reducing to daily maxima keeps the maximum of every day. */
  lemma ReductionKeepsMaxima(samples: seq<Sample>)
    ensures SameMaxima(Awares(samples), AsSamples(DailyMaxima(samples)))
  {
    var p := Awares(samples);
    var cutoff := LowerBound(p);
    UnboundedIsMaxima(p, cutoff);
    var daily := Unbounded(p);
    var days := InOrder(daily.Keys);
    var q := AsSamples(DailyMaxima(samples));
    forall i | 0 <= i < |p| ensures CoveredBy(p[i], q) {
      MaximumIsBound(p, cutoff, i);
      assert p[i].day in days;
      var j :| 0 <= j < |days| && days[j] == p[i].day;
      assert Covers(q[j], p[i]);
    }
    forall j | 0 <= j < |q| ensures CoveredBy(q[j], p) {
      assert days[j] in days;
      MaximumIsAttained(p, cutoff, days[j]);
      var i :| 0 <= i < |p| && p[i].day == days[j] && p[i].value == daily[days[j]];
      assert Covers(p[i], q[j]);
    }
  }
}
