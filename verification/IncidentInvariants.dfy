/** What every run of requests keeps true of the incident tables. */
module IncidentInvariants {
  import opened Incidents
  import opened Wrappers

  // ------------------------------------------------------------ evidence, summary, cursor

  ghost predicate KeyIs(w: World, n: nat, key: string)
    requires n < |w.evidence|
  {
    w.evidence[n].incident < |w.incidents| && w.incidents[w.evidence[n].incident].key == key
  }

  /** Every row points at an incident, and a source reference is stored once. */
  ghost predicate EvidenceInv(w: World) {
    && (forall n | 0 <= n < |w.evidence| :: w.evidence[n].incident < |w.incidents|)
    && (forall m, n | 0 <= m < n < |w.evidence| :: !SameRef(w.evidence[m], w.evidence[n].source, w.evidence[n].ref))
  }

  ghost predicate ObservedAt(w: World, id: nat, at: int) {
    exists n | 0 <= n < |w.evidence| :: w.evidence[n].incident == id && w.evidence[n].observedAt == at
  }

  ghost predicate NoLater(w: World, id: nat, at: int) {
    forall n | 0 <= n < |w.evidence| && w.evidence[n].incident == id :: w.evidence[n].observedAt <= at
  }

  /** `last_evidence_at` is the maximum over the incident's evidence; it opened at a piece of it. */
  ghost predicate SummaryInv(w: World) {
    forall i | 0 <= i < |w.incidents| ::
      && ObservedAt(w, i, w.incidents[i].lastEvidenceAt) && NoLater(w, i, w.incidents[i].lastEvidenceAt)
      && ObservedAt(w, i, w.incidents[i].openedAt)
      && w.incidents[i].bucket == BucketStart(w.incidents[i].openedAt)
  }

  /** A set cursor is the maximum over the key's evidence, attained by its own incident. */
  ghost predicate CursorSet(w: World, key: string) {
    var c := CursorOf(w, key);
    && c.incident.Some? && c.lastAt.Some? && c.incident.value < |w.incidents|
    && w.incidents[c.incident.value].key == key
    && ObservedAt(w, c.incident.value, c.lastAt.value)
    && (forall n | 0 <= n < |w.evidence| && KeyIs(w, n, key) :: w.evidence[n].observedAt <= c.lastAt.value)
  }

  /** An unset cursor belongs to a key without evidence. */
  ghost predicate CursorUnset(w: World, key: string) {
    && CursorOf(w, key) == Cursor(None, None)
    && (forall n | 0 <= n < |w.evidence| :: !KeyIs(w, n, key))
  }

  ghost predicate CursorInv(w: World) {
    forall key :: CursorSet(w, key) || CursorUnset(w, key)
  }

  ghost predicate BucketInv(w: World) {
    forall i, j | 0 <= i < j < |w.incidents| && w.incidents[i].key == w.incidents[j].key ::
      w.incidents[i].bucket != w.incidents[j].bucket
  }

  // ------------------------------------------------------------ status and timeline

  ghost predicate StatusInv(w: World) {
    forall i | 0 <= i < |w.incidents| :: w.incidents[i].resolvedAt.Some? <==> w.incidents[i].status == Resolved
  }

  /** Replaying the from/to entries of an incident. */
  function StatusAfter(timeline: seq<TimelineEntry>, id: nat): Option<Status> {
    if timeline == [] then None
    else
      var last := timeline[|timeline| - 1];
      if last.incident == id && last.to.Some? then last.to else StatusAfter(timeline[..|timeline| - 1], id)
  }

  /** Every writer takes one step of the status machine, except to reopen and to reconcile. */
  predicate HopLegal(e: TimelineEntry) {
    match e.kind
    case Created => e.from == None && e.to == Some(Open)
    case Reopened => e.from == Some(Resolved) && e.to == Some(Open)
    case StatusChanged => e.from.Some? && e.to.Some? && NextState(e.from.value) == e.to
    case AiStatusChanged => e.from.Some? && e.to.Some? && NextState(e.from.value) == e.to
    case Reconciled => e.from.Some? && e.from != Some(Resolved) && e.to == Some(Resolved)
    case _ => e.from == None && e.to == None
  }

  ghost predicate HistoryLegal(timeline: seq<TimelineEntry>) {
    forall n | 0 <= n < |timeline| ::
      HopLegal(timeline[n]) && (timeline[n].to.Some? ==>
          timeline[n].from == StatusAfter(timeline[..n], timeline[n].incident))
  }

  /** Each hop starts where the last one ended, and the last one ended at the current status. */
  ghost predicate TimelineInv(w: World) {
    && HistoryLegal(w.timeline)
    && (forall n | 0 <= n < |w.timeline| :: w.timeline[n].incident < |w.incidents|)
    && (forall i | 0 <= i < |w.incidents| :: StatusAfter(w.timeline, i) == Some(w.incidents[i].status))
  }

  ghost predicate RunInv(w: World) {
    forall k | k in w.runs :: w.runs[k].incident < |w.incidents|
  }

  ghost predicate Inv(w: World) {
    EvidenceInv(w) && SummaryInv(w) && CursorInv(w) && BucketInv(w) && StatusInv(w) && TimelineInv(w) && RunInv(w)
  }

  // ------------------------------------------------------------ one row changes

  /** The columns correlation relies on. */
  predicate SameIdentity(x: Incident, y: Incident) {
    x.key == y.key && x.bucket == y.bucket && x.openedAt == y.openedAt
  }

  lemma AppendedStatus(timeline: seq<TimelineEntry>, e: TimelineEntry, id: nat)
    ensures StatusAfter(timeline + [e], id) == if e.incident == id && e.to.Some? then e.to
        else StatusAfter(timeline, id)
  {
    assert (timeline + [e])[..|timeline|] == timeline;
  }

  lemma AppendedHistory(timeline: seq<TimelineEntry>, e: TimelineEntry)
    requires HistoryLegal(timeline) && HopLegal(e)
    requires e.to.Some? ==> e.from == StatusAfter(timeline, e.incident)
    ensures HistoryLegal(timeline + [e])
  {
    forall n | 0 <= n < |timeline + [e]|
      ensures HopLegal((timeline + [e])[n])
      ensures (timeline + [e])[n].to.Some? ==>
          (timeline + [e])[n].from == StatusAfter((timeline + [e])[..n], (timeline + [e])[n].incident)
    {
      if n < |timeline| {
        assert (timeline + [e])[..n] == timeline[..n];
      } else {
        assert (timeline + [e])[..n] == timeline;
      }
    }
  }

  lemma PutTimeline(w: World, id: nat, inc: Incident, e: TimelineEntry)
    requires TimelineInv(w) && id < |w.incidents| && e.incident == id && HopLegal(e)
    requires e.to == (if inc.status == w.incidents[id].status then None else Some(inc.status))
    requires e.to.Some? ==> e.from == Some(w.incidents[id].status)
    ensures TimelineInv(Put(w, id, inc, e))
  {
    hide HopLegal;
    var v := Put(w, id, inc, e);
    AppendedHistory(w.timeline, e);
    forall i | 0 <= i < |v.incidents|
      ensures StatusAfter(v.timeline, i) == Some(v.incidents[i].status)
    {
      AppendedStatus(w.timeline, e, i);
    }
  }

  lemma PutSummary(w: World, id: nat, inc: Incident, e: TimelineEntry)
    requires SummaryInv(w) && id < |w.incidents|
    requires SameIdentity(inc, w.incidents[id]) && inc.lastEvidenceAt == w.incidents[id].lastEvidenceAt
    ensures SummaryInv(Put(w, id, inc, e))
  {
    var v := Put(w, id, inc, e);
    assert v.evidence == w.evidence;
    forall i | 0 <= i < |v.incidents|
      ensures ObservedAt(v, i, v.incidents[i].lastEvidenceAt) && NoLater(v, i, v.incidents[i].lastEvidenceAt)
      ensures ObservedAt(v, i, v.incidents[i].openedAt)
    {
      assert ObservedAt(w, i, w.incidents[i].lastEvidenceAt) && ObservedAt(w, i, w.incidents[i].openedAt);
    }
  }

  /** Changing an incident's status, with the entry that says so, and nothing correlation uses. */
  lemma PutKeepsInv(w: World, id: nat, inc: Incident, e: TimelineEntry)
    requires Inv(w) && id < |w.incidents|
    requires SameIdentity(inc, w.incidents[id]) && inc.lastEvidenceAt == w.incidents[id].lastEvidenceAt
    requires inc.resolvedAt.Some? <==> inc.status == Resolved
    requires e.incident == id && HopLegal(e) && e.kind != Created
    requires e.to == (if inc.status == w.incidents[id].status then None else Some(inc.status))
    requires e.to.Some? ==> e.from == Some(w.incidents[id].status)
    ensures Inv(Put(w, id, inc, e))
  {
    hide HopLegal, TimelineInv, SummaryInv;
    PutTimeline(w, id, inc, e);
    PutSummary(w, id, inc, e);
    SameKeysKeepCursors(w, Put(w, id, inc, e));
  }

  lemma SameKeysKeepCursors(w: World, v: World)
    requires CursorInv(w) && v.evidence == w.evidence && v.cursors == w.cursors
    requires |v.incidents| == |w.incidents|
    requires forall i | 0 <= i < |w.incidents| :: v.incidents[i].key == w.incidents[i].key
    ensures CursorInv(v)
  {
    forall key
      ensures CursorSet(v, key) || CursorUnset(v, key)
    {
      assert forall n | 0 <= n < |w.evidence| :: KeyIs(v, n, key) == KeyIs(w, n, key);
      if CursorSet(w, key) {
        var c := CursorOf(w, key);
        assert ObservedAt(v, c.incident.value, c.lastAt.value);
      } else {
        assert CursorUnset(w, key);
      }
    }
  }

  // ------------------------------------------------------------ one more observation

  /** `v` is `w` with one more piece of evidence for incident `id`, new or old, of this key. */
  ghost predicate ObservedInto(w: World, v: World, key: string, id: nat, env: Envelope) {
    && v.evidence == w.evidence + [Evidence(id, env.source, env.ref, env.observedAt)]
    && v.cursors == w.cursors[key := Advance(CursorOf(w, key), id, env.observedAt)]
    && v.runs == w.runs
    && id <= |w.incidents| <= |v.incidents| && id < |v.incidents| <= |w.incidents| + 1
    && (|v.incidents| == |w.incidents| + 1 ==> id == |w.incidents|)
    && v.incidents[id].key == key
    && (forall i | 0 <= i < |w.incidents| :: SameIdentity(v.incidents[i], w.incidents[i]))
    && (forall i | 0 <= i < |w.incidents| && i != id :: v.incidents[i] == w.incidents[i])
    && (if id < |w.incidents| then v.incidents[id].lastEvidenceAt == Max(w.incidents[id].lastEvidenceAt, env.observedAt)
        else v.incidents[id].lastEvidenceAt == v.incidents[id].openedAt == env.observedAt
             && v.incidents[id].bucket == BucketStart(env.observedAt))
  }

  lemma ObservedEvidence(w: World, v: World, key: string, id: nat, env: Envelope)
    requires EvidenceInv(w) && ObservedInto(w, v, key, id, env)
    requires FindEvidence(w.evidence, env.source, env.ref).None?
    ensures EvidenceInv(v)
  {
    forall m, n | 0 <= m < n < |v.evidence|
      ensures !SameRef(v.evidence[m], v.evidence[n].source, v.evidence[n].ref)
    {
      assert v.evidence[m] == w.evidence[m] && w.evidence[m] in w.evidence;
    }
  }

  lemma ObservedSummary(w: World, v: World, key: string, id: nat, env: Envelope)
    requires EvidenceInv(w) && SummaryInv(w) && ObservedInto(w, v, key, id, env)
    ensures SummaryInv(v)
  {
    var last := |w.evidence|;
    assert v.evidence[last].incident == id && v.evidence[last].observedAt == env.observedAt;
    assert ObservedAt(v, id, env.observedAt);
    forall i, at | 0 <= i < |w.incidents| && ObservedAt(w, i, at)
      ensures ObservedAt(v, i, at)
    {
      var n :| 0 <= n < |w.evidence| && w.evidence[n].incident == i && w.evidence[n].observedAt == at;
      assert v.evidence[n] == w.evidence[n];
    }
    forall i | 0 <= i < |v.incidents|
      ensures NoLater(v, i, v.incidents[i].lastEvidenceAt)
    {
      forall n | 0 <= n < |v.evidence| && v.evidence[n].incident == i
        ensures v.evidence[n].observedAt <= v.incidents[i].lastEvidenceAt
      {
        if n < last {
          assert v.evidence[n] == w.evidence[n];
          assert NoLater(w, i, w.incidents[i].lastEvidenceAt);
        }
      }
    }
  }

  lemma ObservedCursor(w: World, v: World, key: string, id: nat, env: Envelope)
    requires EvidenceInv(w) && CursorInv(w) && ObservedInto(w, v, key, id, env)
    ensures CursorSet(v, key)
  {
    var c := CursorOf(v, key);
    var last := |w.evidence|;
    assert v.evidence[last].incident == id && v.evidence[last].observedAt == env.observedAt;
    assert ObservedAt(v, id, env.observedAt);
    forall n | 0 <= n < |v.evidence| && KeyIs(v, n, key)
      ensures v.evidence[n].observedAt <= c.lastAt.value
    {
      if n < last {
        assert v.evidence[n] == w.evidence[n] && KeyIs(w, n, key);
        assert CursorSet(w, key);
      }
    }
    if CursorSet(w, key) {
      var d := CursorOf(w, key);
      var n :| 0 <= n < |w.evidence| && w.evidence[n].incident == d.incident.value
          && w.evidence[n].observedAt == d.lastAt.value;
      assert v.evidence[n] == w.evidence[n];
      assert ObservedAt(v, d.incident.value, d.lastAt.value);
    } else {
      assert CursorUnset(w, key);
    }
  }

  lemma ObservedOtherCursor(w: World, v: World, key: string, id: nat, env: Envelope, other: string)
    requires EvidenceInv(w) && CursorInv(w) && ObservedInto(w, v, key, id, env) && other != key
    ensures CursorSet(v, other) || CursorUnset(v, other)
  {
    forall n | 0 <= n < |v.evidence|
      ensures KeyIs(v, n, other) ==> n < |w.evidence| && KeyIs(w, n, other) && v.evidence[n] == w.evidence[n]
    {
      if n < |w.evidence| { assert v.evidence[n] == w.evidence[n]; }
    }
    if CursorSet(w, other) {
      var d := CursorOf(w, other);
      var n :| 0 <= n < |w.evidence| && w.evidence[n].incident == d.incident.value
          && w.evidence[n].observedAt == d.lastAt.value;
      assert v.evidence[n] == w.evidence[n];
      assert ObservedAt(v, d.incident.value, d.lastAt.value);
    } else {
      assert CursorUnset(w, other);
    }
  }

  lemma ObservedCursors(w: World, v: World, key: string, id: nat, env: Envelope)
    requires EvidenceInv(w) && CursorInv(w) && ObservedInto(w, v, key, id, env)
    ensures CursorInv(v)
  {
    forall other
      ensures CursorSet(v, other) || CursorUnset(v, other)
    {
      if other == key { ObservedCursor(w, v, key, id, env); } else { ObservedOtherCursor(w, v, key, id, env, other); }
    }
  }

  /** The timeline of an observation: perhaps an opening entry, then the evidence entry. */
  lemma ObservedTimeline(w: World, v: World, opening: seq<TimelineEntry>, id: nat)
    requires TimelineInv(w) && |w.incidents| <= |v.incidents| && id < |v.incidents|
    requires v.timeline == w.timeline + opening + [TimelineEntry(id, EvidenceAdded, None, None)]
    requires |opening| <= 1
    requires opening != [] ==>
               && opening[0].incident == id && HopLegal(opening[0])
               && opening[0].to == Some(v.incidents[id].status) && opening[0].from == StatusAfter(w.timeline, id)
    requires opening == [] ==> id < |w.incidents| && v.incidents[id].status == w.incidents[id].status
    requires forall i | 0 <= i < |v.incidents| && i != id :: i < |w.incidents| && v.incidents[i] == w.incidents[i]
    ensures TimelineInv(v)
  {
    var e := TimelineEntry(id, EvidenceAdded, None, None);
    var mid := w.timeline + opening;
    if opening != [] {
      assert opening == [opening[0]];
      AppendedHistory(w.timeline, opening[0]);
    } else {
      assert mid == w.timeline;
    }
    AppendedHistory(mid, e);
    forall i | 0 <= i < |v.incidents|
      ensures StatusAfter(v.timeline, i) == Some(v.incidents[i].status)
    {
      AppendedStatus(mid, e, i);
      if opening != [] { AppendedStatus(w.timeline, opening[0], i); }
    }
  }

  /** The entries of incidents that do not exist yet are empty. */
  lemma NoStatusYet(timeline: seq<TimelineEntry>, id: nat)
    requires forall n | 0 <= n < |timeline| :: timeline[n].incident != id
    ensures StatusAfter(timeline, id) == None
  {}

  lemma TouchedKeepsInv(w: World, key: string, id: nat, env: Envelope)
    requires Inv(w) && id < |w.incidents| && w.incidents[id].key == key
    requires FindEvidence(w.evidence, env.source, env.ref).None?
    ensures Inv(WithEvidence(WithTouched(w, id, env), key, id, env))
  {
    hide StatusAfter, NoLater, ObservedAt;
    var v := WithEvidence(WithTouched(w, id, env), key, id, env);
    assert ObservedInto(w, v, key, id, env);
    ObservedEvidence(w, v, key, id, env);
    ObservedSummary(w, v, key, id, env);
    ObservedCursors(w, v, key, id, env);
    var opening := if w.incidents[id].status == Resolved
        then [TimelineEntry(id, Reopened, Some(Resolved), Some(Open))] else [];
    assert v.timeline == w.timeline + opening + [TimelineEntry(id, EvidenceAdded, None, None)];
    ObservedTimeline(w, v, opening, id);
  }

  lemma NewKeepsInv(w: World, env: Envelope, category: string)
    requires Inv(w)
    requires !BucketIsTaken(w.incidents, CorrelationKey(env.asset, category), BucketStart(env.observedAt))
    requires FindEvidence(w.evidence, env.source, env.ref).None?
    ensures Inv(WithEvidence(WithNew(w, env, category), CorrelationKey(env.asset, category), |w.incidents|, env))
  {
    var key, id := CorrelationKey(env.asset, category), |w.incidents|;
    var v := WithEvidence(WithNew(w, env, category), key, id, env);
    assert ObservedInto(w, v, key, id, env);
    ObservedEvidence(w, v, key, id, env);
    ObservedSummary(w, v, key, id, env);
    ObservedCursors(w, v, key, id, env);
    NoStatusYet(w.timeline, id);
    ObservedTimeline(w, v, [TimelineEntry(id, Created, None, Some(Open))], id);
  }

  // ------------------------------------------------------------ every request, every run

  lemma CorrelateKeepsInv(w: World, window: int, env: Envelope, category: string, maintenance: bool)
    requires Inv(w)
    ensures var o := Correlate(w, window, env, category, maintenance); o.Done? ==> Inv(o.world)
  {
    var o := Correlate(w, window, env, category, maintenance);
    var key := CorrelationKey(env.asset, category);
    var target := Target(w, window, key, env.observedAt);
    if category in CATEGORIES && FindEvidence(w.evidence, env.source, env.ref).None? && !maintenance {
      if target.Some? {
        assert CursorSet(w, key) || CursorUnset(w, key);
        TouchedKeepsInv(w, key, target.value, env);
      } else if o.Done? {
        NewKeepsInv(w, env, category);
      }
    }
  }

  lemma PutStatusKeepsInv(w: World, id: nat, target: Status, kind: EntryKind, now: int)
    requires Inv(w) && id < |w.incidents| && target != w.incidents[id].status
    requires kind in {StatusChanged, AiStatusChanged, Reconciled}
    requires HopLegal(TimelineEntry(id, kind, Some(w.incidents[id].status), Some(target)))
    ensures Inv(PutStatus(w, id, target, kind, now))
  {
    var inc := w.incidents[id];
    PutKeepsInv(w, id, inc.(status := target, resolvedAt := if target == Resolved then Some(now) else None),
                TimelineEntry(id, kind, Some(inc.status), Some(target)));
  }

  lemma UpdateKeepsInv(w: World, id: nat, req: UpdateRequest, actor: Actor, visible: bool, now: int)
    requires Inv(w)
    ensures var o := Update(w, id, req, actor, visible, now); o.Updated? ==> Inv(o.world)
  {
    if Update(w, id, req, actor, visible, now).Updated? {
      var w1 := PutSeverity(w, id, req);
      if w1 != w {
        PutKeepsInv(w, id, w.incidents[id].(severity := req.severity.value),
            TimelineEntry(id, SeverityChanged, None, None));
      }
      var w2 := if req.status.Some? then PutStatus(w1, id, req.status.value, StatusChanged, now) else w1;
      if req.status.Some? { PutStatusKeepsInv(w1, id, req.status.value, StatusChanged, now); }
      assert Inv(w2);
      ClaimAndSilenceKeepInv(w2, id, req, actor);
    }
  }

  lemma ClaimKeepsInv(w: World, id: nat, req: UpdateRequest, actor: Actor)
    requires Inv(w) && id < |w.incidents|
    ensures Inv(PutClaim(w, id, req, actor))
  {
    assert StatusInv(w);
    hide Inv;
    var v := PutClaim(w, id, req, actor);
    if req.claim.Some? { PutKeepsInv(w, id, v.incidents[id], v.timeline[|w.timeline|]); }
  }

  lemma SilenceKeepsInv(w: World, id: nat, req: UpdateRequest)
    requires Inv(w) && id < |w.incidents|
    ensures Inv(PutSilence(w, id, req))
  {
    assert StatusInv(w);
    hide Inv;
    var v := PutSilence(w, id, req);
    if req.silence.Some? { PutKeepsInv(w, id, v.incidents[id], v.timeline[|w.timeline|]); }
  }

  lemma ClaimAndSilenceKeepInv(w: World, id: nat, req: UpdateRequest, actor: Actor)
    requires Inv(w) && id < |w.incidents|
    ensures Inv(PutSilence(PutClaim(w, id, req, actor), id, req))
  {
    hide Inv;
    ClaimKeepsInv(w, id, req, actor);
    SilenceKeepsInv(PutClaim(w, id, req, actor), id, req);
  }

  /** Runs are no part of what the other invariants speak about. */
  lemma RunsKeepInv(w: World, runs: map<string, Run>)
    requires Inv(w) && forall k | k in runs :: runs[k].incident < |w.incidents|
    ensures Inv(w.(runs := runs))
  {
    var v := w.(runs := runs);
    forall i | 0 <= i < |v.incidents|
      ensures ObservedAt(v, i, v.incidents[i].lastEvidenceAt) && NoLater(v, i, v.incidents[i].lastEvidenceAt)
      ensures ObservedAt(v, i, v.incidents[i].openedAt)
    {
      assert ObservedAt(w, i, w.incidents[i].lastEvidenceAt) && ObservedAt(w, i, w.incidents[i].openedAt);
    }
    SameKeysKeepCursors(w, v);
  }

  /** A finished review never meets a transition the status machine refuses. */
  lemma AssessKeepsInv(w: World, id: nat, a: Assessment, now: int)
    requires Inv(w) && id < |w.incidents| && ValidAssessment(a, w.incidents[id].status)
    ensures Inv(Assess(w, id, a, now))
  {
    var inc := w.incidents[id].(aiUrgency := Some(Calibrated(a)));
    PutKeepsInv(w, id, inc, TimelineEntry(id, AiAnalysis, None, None));
    if !(a.proposed == None || a.proposed == Some(inc.status)) {
      PutStatusKeepsInv(Put(w, id, inc, TimelineEntry(id, AiAnalysis, None, None)), id, a.proposed.value,
          AiStatusChanged, now);
    }
  }

  lemma FinishKeepsInv(w: World, key: string, answers: seq<ModelAnswer>, enabled: bool, now: int)
    requires Inv(w)
    ensures Inv(FinishReview(w, key, answers, enabled, now))
  {
    if key in w.runs && w.runs[key].status == Running {
      var run := w.runs[key];
      var a := FirstValid(answers, run.snapStatus);
      if a.Some? && SnapshotCurrent(w, run) && enabled {
        AssessKeepsInv(w, run.incident, a.value, now);
        var v := Assess(w, run.incident, a.value, now);
        RunsKeepInv(v, v.runs[key := v.runs[key].(status := Succeeded)]);
      } else {
        RunsKeepInv(w, FinishReview(w, key, answers, enabled, now).runs);
      }
    }
  }

  lemma {:induction false} CloseKeepsInv(w0: World, alerts: Alerts, now: int, n: nat)
    requires Inv(w0) && n <= |w0.incidents|
    ensures Inv(CloseUpTo(w0, alerts, now, n))
  {
    hide Inv;
    if n > 0 {
      CloseKeepsInv(w0, alerts, now, n - 1);
      if LegacyNoncritical(w0, alerts, n - 1) {
        PutStatusKeepsInv(CloseUpTo(w0, alerts, now, n - 1), n - 1, Resolved, Reconciled, now);
      }
    }
  }

  /** Every request keeps the invariant, whichever writer sends it and in whatever order. */
  lemma ApplyKeepsInv(w: World, window: int, s: Step)
    requires Inv(w)
    ensures Inv(Apply(w, window, s))
  {
    match s
    case Observe(env, category, maintenance) => CorrelateKeepsInv(w, window, env, category, maintenance);
    case Edit(id, req, actor, visible, at) => UpdateKeepsInv(w, id, req, actor, visible, at);
    case Snapshot(run, incident, on) => RunsKeepInv(w, StartReview(w, run, incident, on).runs);
    case Finish(run, answers, on, at) => FinishKeepsInv(w, run, answers, on, at);
    case Repair(alerts, dryRun, at) => CloseKeepsInv(w, alerts, at, |w.incidents|);
  }

  lemma {:induction false} RunKeepsInv(w: World, window: int, steps: seq<Step>)
    requires Inv(w)
    ensures Inv(RunAll(w, window, steps))
    decreases |steps|
  {
    if steps != [] {
      ApplyKeepsInv(w, window, steps[0]);
      RunKeepsInv(Apply(w, window, steps[0]), window, steps[1..]);
    }
  }

  /** The invariant holds in every state any run of requests reaches. */
  lemma ReachableInv(w: World, window: int)
    requires Reachable(w, window)
    ensures Inv(w)
  {
    var steps :| RunAll(EMPTY, window, steps) == w;
    RunKeepsInv(EMPTY, window, steps);
  }
}
