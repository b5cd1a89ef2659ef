/**
 How the online cursor groups evidence, compared with clustering the whole history offline, and
 when the one-incident-per-bucket constraint can reject an observation.
 */
module IncidentClustering {
  import opened IncidentInvariants
  import opened Incidents
  import opened Wrappers

  // ------------------------------------------------------------ the evidence of one key

  /** The stored evidence of a key, in arrival order. */
  function Keyed(evidence: seq<Evidence>, incidents: seq<Incident>, key: string): (r: seq<Evidence>)
    ensures forall e | e in r :: e in evidence
  {
    if evidence == [] then []
    else
      var front, last := Keyed(evidence[..|evidence| - 1], incidents, key), evidence[|evidence| - 1];
      if last.incident < |incidents| && incidents[last.incident].key == key then front + [last] else front
  }

  lemma KeyedAppend(evidence: seq<Evidence>, e: Evidence, incidents: seq<Incident>, key: string)
    ensures Keyed(evidence + [e], incidents, key)
         == Keyed(evidence, incidents, key)
            + if e.incident < |incidents| && incidents[e.incident].key == key then [e] else []
  {
    assert (evidence + [e])[..|evidence|] == evidence;
  }

  /** New incidents and changed rows with the same key leave the stored evidence of a key alone. */
  lemma {:induction false} KeyedSame(evidence: seq<Evidence>, incidents: seq<Incident>, more: seq<Incident>,
      key: string)
    requires |incidents| <= |more|
    requires forall i | 0 <= i < |incidents| :: more[i].key == incidents[i].key
    requires forall n | 0 <= n < |evidence| :: evidence[n].incident < |incidents|
    ensures Keyed(evidence, more, key) == Keyed(evidence, incidents, key)
  {
    if evidence != [] {
      KeyedSame(evidence[..|evidence| - 1], incidents, more, key);
    }
  }

  ghost predicate InOrder(s: seq<Evidence>) {
    forall p | 0 <= p < |s| - 1 :: s[p].observedAt <= s[p + 1].observedAt
  }

  predicate Gap(s: seq<Evidence>, window: int, p: nat)
    requires p + 1 < |s|
  {
    s[p + 1].observedAt - s[p].observedAt > window
  }

  // ------------------------------------------------------------ offline clustering

  /** Offline clustering: a new cluster begins after every gap larger than the window. */
  function ClusterOf(s: seq<Evidence>, window: int, n: nat): nat
    requires n < |s|
  {
    if n == 0 then 0 else ClusterOf(s, window, n - 1) + if Gap(s, window, n - 1) then 1 else 0
  }

  /** Two observations are in one maximal chain. */
  ghost predicate Chain(s: seq<Evidence>, window: int, m: nat, n: nat)
    requires m <= n < |s|
  {
    forall p: nat | m <= p < n :: !Gap(s, window, p)
  }

  lemma {:induction false} ClusterIsChain(s: seq<Evidence>, window: int, m: nat, n: nat)
    requires m <= n < |s|
    ensures ClusterOf(s, window, m) <= ClusterOf(s, window, n)
    ensures ClusterOf(s, window, m) == ClusterOf(s, window, n) <==> Chain(s, window, m, n)
  {
    if m < n { ClusterIsChain(s, window, m, n - 1); }
  }

  ghost predicate Clustered(s: seq<Evidence>, window: int) {
    forall m: nat, n: nat | m < n < |s| :: s[m].incident == s[n].incident <==> Chain(s, window, m, n)
  }

  /** Appending in order keeps the grouping, if the newcomer joins or opens as the gap says. */
  lemma AppendClustered(s: seq<Evidence>, e: Evidence, window: int)
    requires Clustered(s, window) && s != []
    requires if e.observedAt - s[|s| - 1].observedAt <= window then e.incident == s[|s| - 1].incident
             else forall x | x in s :: x.incident != e.incident
    ensures Clustered(s + [e], window)
  {
    var t, last := s + [e], |s| - 1;
    assert Gap(t, window, last) <==> e.observedAt - s[last].observedAt > window;
    forall m: nat, n: nat | m < n < |t|
      ensures t[m].incident == t[n].incident <==> Chain(t, window, m, n)
    {
      assert forall p: nat | p < last :: Gap(t, window, p) == Gap(s, window, p);
      if n < |s| {
        assert Chain(t, window, m, n) == Chain(s, window, m, n);
      } else if Gap(t, window, last) {
        assert t[m] in s;
      } else {
        assert m < last ==> (Chain(t, window, m, n) <==> Chain(s, window, m, last));
        assert m < last ==> (s[m].incident == s[last].incident <==> Chain(s, window, m, last));
      }
    }
  }

  // ------------------------------------------------------------ the online grouping

  ghost predicate KeyGrouped(w: World, window: int, key: string) {
    var s := Keyed(w.evidence, w.incidents, key);
    InOrder(s) ==>
      && Clustered(s, window)
      && CursorOf(w, key) == if s == [] then Cursor(None, None)
          else Cursor(Some(s[|s| - 1].incident), Some(s[|s| - 1].observedAt))
  }

  /** For every key whose evidence arrived in order, the grouping is the offline one. */
  ghost predicate GroupingInv(w: World, window: int) {
    forall key :: KeyGrouped(w, window, key)
  }

  lemma ObservedGrouping(w: World, v: World, window: int, key: string, id: nat, env: Envelope)
    requires Inv(w) && GroupingInv(w, window) && window >= 0
    requires ObservedInto(w, v, key, id, env)
    requires id == match Target(w, window, key, env.observedAt) case Some(t) => t case None => |w.incidents|
    ensures KeyGrouped(v, window, key)
  {
    hide Chain, Keyed;
    var e := Evidence(id, env.source, env.ref, env.observedAt);
    var s := Keyed(w.evidence, w.incidents, key);
    KeyedSame(w.evidence, w.incidents, v.incidents, key);
    KeyedAppend(w.evidence, e, v.incidents, key);
    var t := s + [e];
    assert Keyed(v.evidence, v.incidents, key) == t;
    assert KeyGrouped(w, window, key);
    if InOrder(t) {
      forall p | 0 <= p < |s| - 1
        ensures s[p].observedAt <= s[p + 1].observedAt
      {
        assert t[p].observedAt <= t[p + 1].observedAt;
      }
      if s != [] {
        assert t[|s| - 1].observedAt <= t[|s|].observedAt;
        forall x | x in s
          ensures x.incident < |w.incidents|
        {
          assert x in w.evidence;
        }
        assert s[|s| - 1] in s;
        AppendClustered(s, e, window);
      }
    }
  }

  lemma ObservedOtherGrouping(w: World, v: World, window: int, key: string, id: nat, env: Envelope, other: string)
    requires Inv(w) && KeyGrouped(w, window, other) && other != key
    requires ObservedInto(w, v, key, id, env)
    ensures KeyGrouped(v, window, other)
  {
    KeyedSame(w.evidence, w.incidents, v.incidents, other);
    KeyedAppend(w.evidence, Evidence(id, env.source, env.ref, env.observedAt), v.incidents, other);
    assert Keyed(v.evidence, v.incidents, other) == Keyed(w.evidence, w.incidents, other);
  }

  lemma UntouchedGrouping(w: World, v: World, window: int)
    requires Inv(w) && GroupingInv(w, window)
    requires v.evidence == w.evidence && v.cursors == w.cursors && |v.incidents| == |w.incidents|
    requires forall i | 0 <= i < |w.incidents| :: v.incidents[i].key == w.incidents[i].key
    ensures GroupingInv(v, window)
  {
    forall key
      ensures KeyGrouped(v, window, key)
    {
      KeyedSame(w.evidence, w.incidents, v.incidents, key);
      assert KeyGrouped(w, window, key);
    }
  }

  lemma CorrelateGrouping(w: World, window: int, env: Envelope, category: string, maintenance: bool)
    requires Inv(w) && GroupingInv(w, window) && window >= 0
    ensures var o := Correlate(w, window, env, category, maintenance); o.Done? ==> GroupingInv(o.world, window)
  {
    var o := Correlate(w, window, env, category, maintenance);
    if o.Done? && o.world != w {
      var key := CorrelationKey(env.asset, category);
      var target := Target(w, window, key, env.observedAt);
      var id := if target.Some? then target.value else |w.incidents|;
      assert CursorSet(w, key) || CursorUnset(w, key);
      assert ObservedInto(w, o.world, key, id, env);
      forall other
        ensures KeyGrouped(o.world, window, other)
      {
        if other == key {
          ObservedGrouping(w, o.world, window, key, id, env);
        } else {
          assert KeyGrouped(w, window, other);
          ObservedOtherGrouping(w, o.world, window, key, id, env, other);
        }
      }
    }
  }

  /** What every request but an observation leaves alone. */
  ghost predicate SameCorrelation(w: World, v: World) {
    && v.evidence == w.evidence && v.cursors == w.cursors && |v.incidents| == |w.incidents|
    && (forall i | 0 <= i < |w.incidents| :: SameLabels(v.incidents[i], w.incidents[i]))
  }

  predicate SameLabels(x: Incident, y: Incident) {
    x.key == y.key && AssetOf(x) == AssetOf(y) && x.category == y.category
  }

  lemma CloseSameCorrelation(w: World, alerts: Alerts, now: int, n: nat)
    requires n <= |w.incidents|
    ensures SameCorrelation(w, CloseUpTo(w, alerts, now, n))
  {}

  lemma UpdateSameCorrelation(w: World, id: nat, req: UpdateRequest, actor: Actor, visible: bool, now: int)
    ensures var o := Update(w, id, req, actor, visible, now); o.Updated? ==> SameCorrelation(w, o.world)
  {
    if Update(w, id, req, actor, visible, now).Updated? {
      var w1 := PutSeverity(w, id, req);
      assert SameCorrelation(w, w1);
      var w2 := if req.status.Some? then PutStatus(w1, id, req.status.value, StatusChanged, now) else w1;
      assert SameCorrelation(w, w2);
      assert SameCorrelation(w, PutClaim(w2, id, req, actor));
    }
  }

  lemma FinishSameCorrelation(w: World, key: string, answers: seq<ModelAnswer>, enabled: bool, now: int)
    ensures SameCorrelation(w, FinishReview(w, key, answers, enabled, now))
  {}

  lemma OtherStepsSameCorrelation(w: World, window: int, s: Step)
    requires !s.Observe?
    ensures SameCorrelation(w, Apply(w, window, s))
  {
    match s
    case Edit(id, req, actor, visible, at) => UpdateSameCorrelation(w, id, req, actor, visible, at);
    case Snapshot(_, _, _) =>
    case Finish(run, answers, on, at) => FinishSameCorrelation(w, run, answers, on, at);
    case Repair(alerts, _, at) => CloseSameCorrelation(w, alerts, at, |w.incidents|);
  }

  lemma ApplyGrouping(w: World, window: int, s: Step)
    requires Inv(w) && GroupingInv(w, window) && window >= 0
    ensures GroupingInv(Apply(w, window, s), window)
  {
    if s.Observe? {
      CorrelateGrouping(w, window, s.env, s.category, s.maintenance);
    } else {
      OtherStepsSameCorrelation(w, window, s);
      UntouchedGrouping(w, Apply(w, window, s), window);
    }
  }

  lemma {:induction false} RunGrouping(w: World, window: int, steps: seq<Step>)
    requires Inv(w) && GroupingInv(w, window) && window >= 0
    ensures GroupingInv(RunAll(w, window, steps), window)
    decreases |steps|
  {
    if steps != [] {
      ApplyKeepsInv(w, window, steps[0]);
      ApplyGrouping(w, window, steps[0]);
      RunGrouping(Apply(w, window, steps[0]), window, steps[1..]);
    }
  }

  /**
   After any run, two pieces of evidence of a key that arrived in order share an incident
   exactly when the offline clustering puts them in one cluster.
   */
  lemma OnlineIsOffline(w: World, window: int, key: string, m: nat, n: nat)
    requires Reachable(w, window) && window >= 0
    requires InOrder(Keyed(w.evidence, w.incidents, key))
    requires m < n < |Keyed(w.evidence, w.incidents, key)|
    ensures var s := Keyed(w.evidence, w.incidents, key);
            s[m].incident == s[n].incident <==> ClusterOf(s, window, m) == ClusterOf(s, window, n)
  {
    var steps :| RunAll(EMPTY, window, steps) == w;
    assert GroupingInv(EMPTY, window);
    RunGrouping(EMPTY, window, steps);
    assert KeyGrouped(w, window, key);
    ClusterIsChain(Keyed(w.evidence, w.incidents, key), window, m, n);
  }

  // ------------------------------------------------------------ one incident per bucket

  /** The observation does not go back behind the key's cursor. */
  predicate Forward(w: World, key: string, at: int) {
    var c := CursorOf(w, key);
    c.lastAt.None? || at >= c.lastAt.value
  }

  /** A taken bucket can only be met by evidence that is late by more than the window. */
  lemma BucketFailureIsLate(w: World, window: int, env: Envelope, category: string, maintenance: bool)
    requires Inv(w) && window + 1 >= BUCKET
    requires Correlate(w, window, env, category, maintenance) == Raised(BucketTaken)
    ensures var c := CursorOf(w, CorrelationKey(env.asset, category));
            c.lastAt.Some? && c.lastAt.value - env.observedAt > window
  {
    var key, at := CorrelationKey(env.asset, category), env.observedAt;
    var i :| 0 <= i < |w.incidents| && w.incidents[i].key == key && w.incidents[i].bucket == BucketStart(at);
    var first := w.incidents[i].openedAt;
    assert ObservedAt(w, i, first);
    var n :| 0 <= n < |w.evidence| && w.evidence[n].incident == i && w.evidence[n].observedAt == first;
    assert KeyIs(w, n, key);
    assert CursorSet(w, key) || CursorUnset(w, key);
    SameBucketIsClose(at, first);
  }

  /** Buckets are the half hours. */
  lemma BucketStartIs(at: int)
    ensures BucketStart(at) <= at < BucketStart(at) + 30 * 60 * 1_000_000
    ensures BucketStart(at) % (30 * 60 * 1_000_000) == 0
  {}

  lemma SameBucketIsClose(x: int, y: int)
    requires BucketStart(x) == BucketStart(y)
    ensures -BUCKET < x - y < BUCKET
  {}

  ghost predicate InOrderNeverFails(window: int) {
    forall w, env: Envelope, category, maintenance | Reachable(w, window)
        && Forward(w, CorrelationKey(env.asset, category), env.observedAt) ::
      Correlate(w, window, env, category, maintenance) != Raised(BucketTaken)
  }

  const SOME_ASSET := Asset("1", "volume", "7")

  function At(at: int, ref: string): Envelope {
    Envelope(SOME_ASSET, "vendor", ref, at, "warning")
  }

  lemma FirstObservation(window: int)
    ensures var w := Apply(EMPTY, window, Observe(At(0, "a"), "device_fault", false));
            && Reachable(w, window)
            && w.incidents == [NewIncident(At(0, "a"), "device_fault")]
            && w.evidence == [Evidence(0, "vendor", "a", 0)]
            && CursorOf(w, CorrelationKey(SOME_ASSET, "device_fault")) == Cursor(Some(0), Some(0))
  {
    var s := Observe(At(0, "a"), "device_fault", false);
    assert "device_fault" == CATEGORIES[1];
    assert RunAll(EMPTY, window, [s]) == RunAll(Apply(EMPTY, window, s), window, []);
  }

  /** A shorter window opens a second incident in the same bucket, even in order. */
  lemma ShortWindowFails(window: int)
    requires 0 <= window && window + 1 < BUCKET
    ensures !InOrderNeverFails(window)
  {
    FirstObservation(window);
    var w := Apply(EMPTY, window, Observe(At(0, "a"), "device_fault", false));
    var env := At(window + 1, "b");
    assert "device_fault" == CATEGORIES[1];
    assert BucketStart(window + 1) == 0 == BucketStart(0);
    assert w.incidents[0].bucket == 0;
    assert Correlate(w, window, env, "device_fault", false) == Raised(BucketTaken);
  }

  /** Evidence in time order is never rejected exactly when the window spans a bucket. */
  lemma InOrderNeverFailsIff(window: int)
    requires window >= 0
    ensures InOrderNeverFails(window) <==> window + 1 >= BUCKET
  {
    if window + 1 < BUCKET {
      ShortWindowFails(window);
    } else {
      forall w, env: Envelope, category, maintenance | Reachable(w, window)
          && Forward(w, CorrelationKey(env.asset, category), env.observedAt)
        ensures Correlate(w, window, env, category, maintenance) != Raised(BucketTaken)
      {
        ReachableInv(w, window);
        if Correlate(w, window, env, category, maintenance) == Raised(BucketTaken) {
          BucketFailureIsLate(w, window, env, category, maintenance);
        }
      }
    }
  }

  /** The observation is further from the key's cursor than the window, or there is no cursor. */
  predicate OutsideWindow(w: World, window: int, key: string, at: int) {
    var c := CursorOf(w, key);
    c.lastAt.None? || Abs(at - c.lastAt.value) > window
  }

  /** No incident of the key was opened by evidence of the same bucket. */
  predicate BucketIsOpen(w: World, key: string, at: int) {
    forall i | 0 <= i < |w.incidents| && w.incidents[i].key == key ::
        BucketStart(w.incidents[i].openedAt) != BucketStart(at)
  }

  /**
   New evidence outside the window opens its own incident exactly when no incident of its key was
   opened in its bucket; otherwise the request raises. Late evidence never moves the cursor.
   */
  lemma OpensOwnIncidentIff(w: World, window: int, env: Envelope, category: string)
    requires Reachable(w, window) && category in CATEGORIES && FindEvidence(w.evidence, env.source, env.ref).None?
    requires OutsideWindow(w, window, CorrelationKey(env.asset, category), env.observedAt)
    ensures var key, o := CorrelationKey(env.asset, category), Correlate(w, window, env, category, false);
            && (BucketIsOpen(w, key, env.observedAt) <==> o.Done? && o.result.created)
            && (!BucketIsOpen(w, key, env.observedAt) <==> o == Raised(BucketTaken))
            && (o.Done? ==> o.world.incidents == w.incidents + [NewIncident(env, category)]
                            && o.result.incident == Some(|w.incidents|))
            && (o.Done? && !Forward(w, key, env.observedAt) ==> CursorOf(o.world, key) == CursorOf(w, key))
  {
    ReachableInv(w, window);
    var key := CorrelationKey(env.asset, category);
    assert Target(w, window, key, env.observedAt).None?;
    BucketsAreOpenings(w, key, env.observedAt);
  }

  lemma BucketsAreOpenings(w: World, key: string, at: int)
    requires SummaryInv(w)
    ensures BucketIsOpen(w, key, at) <==> !BucketIsTaken(w.incidents, key, BucketStart(at))
  {
    assert forall i | 0 <= i < |w.incidents| :: w.incidents[i].bucket == BucketStart(w.incidents[i].openedAt);
  }

  /** Two pieces of evidence that open two incidents, in order. */
  function TwoOpenings(window: int): seq<Step> {
    [Observe(At(0, "a"), "device_fault", false), Observe(At(window + 1 + BUCKET, "b"), "device_fault", false)]
  }

  lemma SecondOpening(w: World, window: int)
    requires window >= 0 && w.incidents == [NewIncident(At(0, "a"), "device_fault")]
    requires w.evidence == [Evidence(0, "vendor", "a", 0)]
    requires CursorOf(w, CorrelationKey(SOME_ASSET, "device_fault")) == Cursor(Some(0), Some(0))
    ensures var v := Apply(w, window, TwoOpenings(window)[1]);
            && v.evidence == [Evidence(0, "vendor", "a", 0), Evidence(1, "vendor", "b", window + 1 + BUCKET)]
            && |v.incidents| == 2 && v.incidents[0] == w.incidents[0]
            && CursorOf(v, CorrelationKey(SOME_ASSET, "device_fault")) == Cursor(Some(1), Some(window + 1 + BUCKET))
  {
    assert "device_fault" == CATEGORIES[1];
    assert w.incidents[0].bucket == 0;
    assert BucketStart(window + 1 + BUCKET) >= BUCKET;
    assert Target(w, window, CorrelationKey(SOME_ASSET, "device_fault"), window + 1 + BUCKET).None?;
  }

  lemma AfterTwoOpenings(window: int)
    requires window >= 0
    ensures var v := RunAll(EMPTY, window, TwoOpenings(window));
            && v.evidence == [Evidence(0, "vendor", "a", 0), Evidence(1, "vendor", "b", window + 1 + BUCKET)]
            && |v.incidents| == 2 && v.incidents[0] == NewIncident(At(0, "a"), "device_fault")
            && CursorOf(v, CorrelationKey(SOME_ASSET, "device_fault")) == Cursor(Some(1), Some(window + 1 + BUCKET))
  {
    FirstObservation(window);
    var s, t := TwoOpenings(window)[0], TwoOpenings(window)[1];
    var w := Apply(EMPTY, window, s);
    SecondOpening(w, window);
    hide Apply, CorrelationKey;
    assert [s, t][1..] == [t] && [t][1..] == [];
    assert RunAll(w, window, [t]) == RunAll(Apply(w, window, t), window, []);
  }

  /** Whatever the window, a third piece late by more than it can be rejected by the first one's bucket. */
  lemma LateEvidenceIsRejected(window: int)
    requires window >= 0
    ensures var w, env := RunAll(EMPTY, window, TwoOpenings(window)), At(1, "c");
            var c := CursorOf(w, CorrelationKey(SOME_ASSET, "device_fault"));
            && c.lastAt.Some? && c.lastAt.value - env.observedAt > window
            && FindEvidence(w.evidence, env.source, env.ref).None?
            && Correlate(w, window, env, "device_fault", false) == Raised(BucketTaken)
  {
    hide RunAll;
    AfterTwoOpenings(window);
    assert "device_fault" == CATEGORIES[1];
    var v, key := RunAll(EMPTY, window, TwoOpenings(window)), CorrelationKey(SOME_ASSET, "device_fault");
    assert v.incidents[0].key == key && v.incidents[0].bucket == BucketStart(1);
  }

  // ------------------------------------------------------------ redelivery

  lemma FindInExtension(evidence: seq<Evidence>, more: seq<Evidence>, source: string, ref: string)
    requires evidence <= more && FindEvidence(evidence, source, ref).Some?
    ensures FindEvidence(more, source, ref) == FindEvidence(evidence, source, ref)
  {
    if !SameRef(evidence[0], source, ref) {
      FindInExtension(evidence[1..], more[1..], source, ref);
    }
  }

  lemma {:induction false} RunGrowsEvidence(w: World, window: int, steps: seq<Step>)
    ensures w.evidence <= RunAll(w, window, steps).evidence
    decreases |steps|
  {
    if steps != [] {
      if !steps[0].Observe? { OtherStepsSameCorrelation(w, window, steps[0]); }
      RunGrowsEvidence(Apply(w, window, steps[0]), window, steps[1..]);
    }
  }

  /** The evidence an accepted observation stored is found at its incident. */
  lemma AcceptedIsStored(w: World, window: int, env: Envelope, category: string, maintenance: bool)
    requires Correlate(w, window, env, category, maintenance).Done?
    requires Correlate(w, window, env, category, maintenance).result.incident.Some?
    ensures var o := Correlate(w, window, env, category, maintenance);
            FindEvidence(o.world.evidence, env.source, env.ref) == o.result.incident
  {
    var o := Correlate(w, window, env, category, maintenance);
    if FindEvidence(w.evidence, env.source, env.ref).None? {
      FindAppended(w.evidence, Evidence(o.result.incident.value, env.source, env.ref, env.observedAt));
    }
  }

  lemma FindAppended(evidence: seq<Evidence>, e: Evidence)
    requires FindEvidence(evidence, e.source, e.ref).None?
    ensures FindEvidence(evidence + [e], e.source, e.ref) == Some(e.incident)
  {
    if evidence != [] {
      assert evidence[0] in evidence;
      assert (evidence + [e])[1..] == evidence[1..] + [e];
      FindAppended(evidence[1..], e);
    }
  }

  /**
   Delivering the same source reference again, however much later and with whatever content,
   changes nothing and names the incident of the first delivery.
   */
  lemma RedeliveryChangesNothing(w: World, window: int, env: Envelope, category: string, maintenance: bool,
                                 steps: seq<Step>, again: Envelope, category': string, maintenance': bool)
    requires Correlate(w, window, env, category, maintenance).Done?
    requires Correlate(w, window, env, category, maintenance).result.incident.Some?
    requires again.source == env.source && again.ref == env.ref && category' in CATEGORIES
    ensures var o := Correlate(w, window, env, category, maintenance);
            var v := RunAll(o.world, window, steps);
            Correlate(v, window, again, category', maintenance')
                == Done(v, Correlation(o.result.incident, false, false, false, false))
  {
    var o := Correlate(w, window, env, category, maintenance);
    var v := RunAll(o.world, window, steps);
    AcceptedIsStored(w, window, env, category, maintenance);
    RunGrowsEvidence(o.world, window, steps);
    FindInExtension(o.world.evidence, v.evidence, env.source, env.ref);
  }
}
