/** The services as they run: rows are assigned in place, and a raised error rolls them back. */
module IncidentStore {
  import opened IncidentInvariants
  import opened Incidents
  import opened Wrappers

  class Store {
    var incidents: seq<Incident>
    var cursors: map<string, Cursor>
    var evidence: seq<Evidence>
    var timeline: seq<TimelineEntry>
    var runs: map<string, Run>

    function Tables(): World
      reads this
    {
      World(incidents, cursors, evidence, timeline, runs)
    }

    constructor ()
      ensures Tables() == EMPTY && Inv(Tables())
    {
      incidents, cursors, evidence, timeline, runs := [], map[], [], [], map[];
    }

    method AddEntry(id: nat, kind: EntryKind, from: Option<Status>, to: Option<Status>)
      modifies this`timeline
      ensures timeline == old(timeline) + [TimelineEntry(id, kind, from, to)]
    {
      timeline := timeline + [TimelineEntry(id, kind, from, to)];
    }

    /** `correlate_incident` with `_append_evidence` */
    method CorrelateIncident(window: int, env: Envelope, category: string, maintenance: bool) returns (r: Outcome)
      requires Inv(Tables())
      modifies this
      ensures r == Correlate(old(Tables()), window, env, category, maintenance)
      ensures Tables() == if r.Done? then r.world else old(Tables())
      ensures Tables() == Apply(old(Tables()), window, Observe(env, category, maintenance))
      ensures Inv(Tables())
    {
      hide Inv, Apply, CorrelationKey, WithEvidence, WithTouched, Escalates, BucketIsTaken, FindEvidence, NewIncident;
      ObserveApplies(Tables(), window, env, category, maintenance);
      CorrelateKeepsInv(Tables(), window, env, category, maintenance);
      if category !in CATEGORIES {
        return Raised(UnsupportedCategory);
      }
      var existing := FindEvidence(evidence, env.source, env.ref);
      if existing.Some? {
        return Done(Tables(), Correlation(existing, false, false, false, false));
      }
      if maintenance {
        return Done(Tables(), Correlation(None, false, false, false, true));
      }
      var key := CorrelationKey(env.asset, category);
      var state := if key in cursors then cursors[key] else Cursor(None, None);
      var incident: Option<nat> := None;
      if state.incident.Some? && state.lastAt.Some? {
        if Abs(env.observedAt - state.lastAt.value) <= window && state.incident.value < |incidents| {
          incident := state.incident;
        }
      }
      if incident.Some? {
        var id := incident.value;
        var reopened, escalated := Join(id, env);
        AppendEvidence(key, id, env);
        return Done(Tables(), Correlation(Some(id), false, reopened, escalated, false));
      }
      if BucketIsTaken(incidents, key, BucketStart(env.observedAt)) {
        return Raised(BucketTaken);
      }
      var id := |incidents|;
      incidents := incidents + [NewIncident(env, category)];
      AddEntry(id, Created, None, Some(Open));
      AppendEvidence(key, id, env);
      return Done(Tables(), Correlation(Some(id), true, false, false, false));
    }

    /** The row of an existing incident: reopened if it was resolved, then brought up to date. */
    method Join(id: nat, env: Envelope) returns (reopened: bool, escalated: bool)
      requires id < |incidents|
      modifies this`incidents, this`timeline
      ensures Tables() == WithTouched(old(Tables()), id, env)
      ensures reopened <==> old(incidents)[id].status == Resolved
      ensures escalated <==> Escalates(old(incidents)[id], env)
    {
      var row := incidents[id];
      reopened, escalated := false, false;
      if row.status == Resolved {
        row := row.(status := Open, resolvedAt := None);
        AddEntry(id, Reopened, Some(Resolved), Some(Open));
        reopened := true;
      }
      row := row.(lastEvidenceAt := Max(row.lastEvidenceAt, env.observedAt));
      if env.severity == "critical" && row.severity != "critical" {
        row := row.(severity := "critical");
        escalated := true;
      }
      incidents := incidents[id := row];
    }

    /** `_append_evidence`, and the cursor, which only moves forward. */
    method AppendEvidence(key: string, id: nat, env: Envelope)
      modifies this`evidence, this`timeline, this`cursors
      ensures Tables() == WithEvidence(old(Tables()), key, id, env)
    {
      evidence := evidence + [Evidence(id, env.source, env.ref, env.observedAt)];
      AddEntry(id, EvidenceAdded, None, None);
      var state := if key in cursors then cursors[key] else Cursor(None, None);
      if state.lastAt.None? || env.observedAt >= state.lastAt.value {
        state := Cursor(Some(id), Some(env.observedAt));
      }
      cursors := cursors[key := state];
    }

    method SetSeverity(id: nat, req: UpdateRequest) returns (changed: bool)
      requires id < |incidents|
      modifies this`incidents, this`timeline
      ensures Tables() == PutSeverity(old(Tables()), id, req)
      ensures |timeline| == |old(timeline)| + if changed then 1 else 0
      ensures !changed ==> Tables() == old(Tables())
      ensures |incidents| == |old(incidents)| && incidents[id].status == old(incidents)[id].status
      ensures incidents[id].assignee == old(incidents)[id].assignee
    {
      changed := req.severity.Some? && req.severity.value != incidents[id].severity;
      if changed {
        incidents := incidents[id := incidents[id].(severity := req.severity.value)];
        AddEntry(id, SeverityChanged, None, None);
      }
    }

    method SetStatus(id: nat, target: Status, kind: EntryKind, now: int)
      requires id < |incidents|
      modifies this`incidents, this`timeline
      ensures Tables() == PutStatus(old(Tables()), id, target, kind, now)
      ensures |timeline| == |old(timeline)| + 1
      ensures |incidents| == |old(incidents)| && incidents[id].assignee == old(incidents)[id].assignee
    {
      var before := incidents[id].status;
      incidents := incidents[id := incidents[id].(status := target, resolvedAt := if target == Resolved then Some(now)
          else None)];
      AddEntry(id, kind, Some(before), Some(target));
    }

    method SetClaim(id: nat, req: UpdateRequest, actor: Actor) returns (changed: bool)
      requires id < |incidents|
      modifies this`incidents, this`timeline
      ensures Tables() == PutClaim(old(Tables()), id, req, actor)
      ensures |timeline| == |old(timeline)| + if changed then 1 else 0
      ensures !changed ==> Tables() == old(Tables())
      ensures |incidents| == |old(incidents)|
    {
      changed := req.claim.Some?;
      if req.claim == Some(true) {
        incidents := incidents[id := incidents[id].(assignee := Some(actor.id))];
        AddEntry(id, Claimed, None, None);
      } else if req.claim == Some(false) {
        incidents := incidents[id := incidents[id].(assignee := None)];
        AddEntry(id, Released, None, None);
      }
    }

    method SetSilence(id: nat, req: UpdateRequest) returns (changed: bool)
      requires id < |incidents|
      modifies this`incidents, this`timeline
      ensures Tables() == PutSilence(old(Tables()), id, req)
      ensures |timeline| == |old(timeline)| + if changed then 1 else 0
      ensures !changed ==> Tables() == old(Tables())
      ensures |incidents| == |old(incidents)|
    {
      changed := req.silence.Some?;
      if changed {
        incidents := incidents[id := incidents[id].(silencedUntil := req.silence.value)];
        AddEntry(id, if req.silence.value.Some? then Silenced else Unsilenced, None, None);
      }
    }

    /** `update_incident`; the error branches restore what the transaction had changed. */
    method UpdateIncident(id: nat, req: UpdateRequest, actor: Actor, visible: bool, now: int) returns (r: UpdateOutcome)
      modifies this
      ensures r == Update(old(Tables()), id, req, actor, visible, now)
      ensures Tables() == if r.Updated? then r.world else old(Tables())
      ensures forall window :: Tables() == Apply(old(Tables()), window, Edit(id, req, actor, visible, now))
    {
      hide Apply, PutSeverity, PutStatus, PutClaim, PutSilence, CanTransition;
      EditApplies(Tables(), id, req, actor, visible, now);
      if !visible || id >= |incidents| {
        return Refused(NotVisible);
      }
      var saved := Tables();
      var changed := SetSeverity(id, req);
      if req.status.Some? {
        if !CanTransition(incidents[id].status, req.status.value, false) {
          incidents, timeline := saved.incidents, saved.timeline;
          return Refused(InvalidTransition);
        }
        SetStatus(id, req.status.value, StatusChanged, now);
        changed := true;
      }
      if req.claim == Some(false)
         && incidents[id].assignee != None && incidents[id].assignee != Some(actor.id) && !actor.superAdmin {
        incidents, timeline := saved.incidents, saved.timeline;
        return Refused(NotAssignee);
      }
      var claimed := SetClaim(id, req, actor);
      var silenced := SetSilence(id, req);
      if !(changed || claimed || silenced) {
        return Refused(NothingToUpdate);
      }
      return Updated(Tables());
    }

    /** The loop of `review_incident` over the configured models. */
    method SelectAssessment(answers: seq<ModelAnswer>, current: Status) returns (r: Option<Assessment>)
      ensures r == FirstValid(answers, current)
    {
      for i := 0 to |answers|
        invariant FirstValid(answers, current) == FirstValid(answers[i..], current)
      {
        assert answers[i..][1..] == answers[i + 1..];
        if answers[i].Answer? && ValidAssessment(answers[i].assessment, current) {
          return Some(answers[i].assessment);
        }
      }
      r := None;
    }

    method BeginReview(key: string, id: nat, enabled: bool)
      requires Inv(Tables())
      modifies this
      ensures Tables() == StartReview(old(Tables()), key, id, enabled) && Inv(Tables())
      ensures forall window :: Tables() == Apply(old(Tables()), window, Snapshot(key, id, enabled))
    {
      RunsKeepInv(Tables(), StartReview(Tables(), key, id, enabled).runs);
      if enabled && id < |incidents| && incidents[id].status != Resolved && key !in runs {
        runs := runs[key := Run(id, Running, incidents[id].status, incidents[id].lastEvidenceAt)];
      }
    }

    method EndWith(key: string, status: RunStatus)
      requires key in runs
      modifies this`runs
      ensures runs == old(runs)[key := old(runs)[key].(status := status)]
    {
      runs := runs[key := runs[key].(status := status)];
    }

    method CompleteReview(key: string, answers: seq<ModelAnswer>, enabled: bool, now: int)
      requires Inv(Tables())
      modifies this
      ensures Tables() == FinishReview(old(Tables()), key, answers, enabled, now) && Inv(Tables())
      ensures forall window :: Tables() == Apply(old(Tables()), window, Finish(key, answers, enabled, now))
    {
      hide Apply;
      FinishApplies(Tables(), key, answers, enabled, now);
      FinishKeepsInv(Tables(), key, answers, enabled, now);
      if key !in runs || runs[key].status != Running {
        return;
      }
      var run := runs[key];
      var assessment := SelectAssessment(answers, run.snapStatus);
      if assessment.None? {
        EndWith(key, Failed);
        return;
      }
      var id := run.incident;
      if incidents[id].status != run.snapStatus || incidents[id].lastEvidenceAt != run.snapLastAt {
        EndWith(key, Superseded);
        return;
      }
      if !enabled {
        EndWith(key, Skipped);
        return;
      }
      var a := assessment.value;
      incidents := incidents[id := incidents[id].(aiUrgency := Some(Calibrated(a)))];
      AddEntry(id, AiAnalysis, None, None);
      if a.proposed != None && a.proposed != Some(incidents[id].status) {
        SetStatus(id, a.proposed.value, AiStatusChanged, now);
      }
      EndWith(key, Succeeded);
    }

    method SelectCandidates(alerts: Alerts) returns (candidates: seq<nat>)
      ensures candidates == Candidates(Tables(), alerts, |incidents|)
    {
      candidates := [];
      for i := 0 to |incidents|
        invariant candidates == Candidates(Tables(), alerts, i)
      {
        if LegacyNoncritical(Tables(), alerts, i) { candidates := candidates + [i]; }
      }
    }

    method CloseAll(candidates: seq<nat>, now: int)
      requires forall n | 0 <= n < |candidates| :: candidates[n] < |incidents|
      modifies this`incidents, this`timeline
      ensures Tables() == CloseListed(old(Tables()), candidates, now)
    {
      ghost var w0 := Tables();
      for n := 0 to |candidates|
        invariant Tables() == CloseListed(w0, candidates[..n], now)
      {
        assert candidates[..n + 1][..n] == candidates[..n];
        SetStatus(candidates[n], Resolved, Reconciled, now);
      }
      assert candidates[..|candidates|] == candidates;
    }

    /** `reconcile_legacy_vendor_incidents`: the candidates are chosen before any row changes. */
    method ReconcileLegacy(alerts: Alerts, dryRun: bool, now: int)
      returns (scanned: nat, wouldClose: nat, closed: nat)
      requires Inv(Tables())
      modifies this
      ensures Tables() == Reconcile(old(Tables()), alerts, dryRun, now) && Inv(Tables())
      ensures forall window :: Tables() == Apply(old(Tables()), window, Repair(alerts, dryRun, now))
      ensures scanned == |set i | 0 <= i < |old(incidents)| && old(incidents)[i].category == "device_fault"
                               && old(incidents)[i].status != Resolved|
      ensures wouldClose == |Candidates(old(Tables()), alerts, |old(incidents)|)|
      ensures closed == |timeline| - |old(timeline)| == if dryRun then 0 else wouldClose
    {
      hide Apply, LegacyNoncritical, CloseUpTo, CloseListed, Candidates, Inv;
      RepairApplies(Tables(), alerts, dryRun, now);
      CloseKeepsInv(Tables(), alerts, now, |incidents|);
      ListedIsUpTo(Tables(), alerts, now, |incidents|);
      CandidatesCount(Tables(), alerts, now, |incidents|);
      scanned := CountScanned(incidents);
      var candidates := SelectCandidates(alerts);
      if dryRun {
        return scanned, |candidates|, 0;
      }
      CloseAll(candidates, now);
      return scanned, |candidates|, |candidates|;
    }
  }

  lemma RepairApplies(w: World, alerts: Alerts, dryRun: bool, now: int)
    ensures forall window :: Apply(w, window, Repair(alerts, dryRun, now)) == Reconcile(w, alerts, dryRun, now)
  {}

  lemma EditApplies(w: World, id: nat, req: UpdateRequest, actor: Actor, visible: bool, now: int)
    ensures forall window :: Apply(w, window, Edit(id, req, actor, visible, now))
                             == match Update(w, id, req, actor, visible, now) case Updated(v) => v case _ => w
  {}

  lemma ObserveApplies(w: World, window: int, env: Envelope, category: string, maintenance: bool)
    ensures Apply(w, window, Observe(env, category, maintenance))
            == match Correlate(w, window, env, category, maintenance) case Done(v, _) => v case _ => w
  {}

  lemma FinishApplies(w: World, key: string, answers: seq<ModelAnswer>, enabled: bool, now: int)
    ensures forall window :: Apply(w, window, Finish(key, answers, enabled, now))
                             == FinishReview(w, key, answers, enabled, now)
  {}

  /** The incidents reconciliation looks at. */
  predicate Scanned(inc: Incident) {
    inc.category == "device_fault" && inc.status != Resolved
  }

  method CountScanned(incidents: seq<Incident>) returns (n: nat)
    ensures n == |set i | 0 <= i < |incidents| && incidents[i].category == "device_fault"
                         && incidents[i].status != Resolved|
  {
    n := 0;
    for i := 0 to |incidents|
      invariant n == |set j | 0 <= j < i && Scanned(incidents[j])|
    {
      ghost var before := set j | 0 <= j < i && Scanned(incidents[j]);
      if Scanned(incidents[i]) {
        assert (set j | 0 <= j < i + 1 && Scanned(incidents[j])) == before + {i};
        n := n + 1;
      } else {
        assert (set j | 0 <= j < i + 1 && Scanned(incidents[j])) == before;
      }
    }
    assert (set i | 0 <= i < |incidents| && Scanned(incidents[i]))
        == (set i | 0 <= i < |incidents| && incidents[i].category == "device_fault"
                    && incidents[i].status != Resolved);
  }

  /** The incidents to close among the first `n`, in order of their identifier. */
  function Candidates(w0: World, alerts: Alerts, n: nat): (r: seq<nat>)
    requires n <= |w0.incidents|
    ensures forall i | 0 <= i < |r| :: r[i] < n
  {
    if n == 0 then []
    else Candidates(w0, alerts, n - 1) + if LegacyNoncritical(w0, alerts, n - 1) then [n - 1] else []
  }

  function CloseListed(w0: World, ids: seq<nat>, now: int): (w: World)
    requires forall n | 0 <= n < |ids| :: ids[n] < |w0.incidents|
    ensures |w.incidents| == |w0.incidents|
  {
    if ids == [] then w0
    else PutStatus(CloseListed(w0, ids[..|ids| - 1], now), ids[|ids| - 1], Resolved, Reconciled, now)
  }

  /** Closing the listed candidates one by one is closing every candidate. */
  lemma {:induction false} ListedIsUpTo(w0: World, alerts: Alerts, now: int, n: nat)
    requires n <= |w0.incidents|
    ensures CloseListed(w0, Candidates(w0, alerts, n), now) == CloseUpTo(w0, alerts, now, n)
  {
    hide LegacyNoncritical, PutStatus;
    if n > 0 {
      ListedIsUpTo(w0, alerts, now, n - 1);
      var front := Candidates(w0, alerts, n - 1);
      assert (front + [n - 1])[..|front|] == front;
      assert front + [] == front;
    }
  }

  /** Judging and closing one incident after another, each in the tables its predecessors left. */
  function CloseInTurn(w0: World, alerts: Alerts, now: int, n: nat): (w: World)
    requires n <= |w0.incidents|
    ensures |w.incidents| == |w0.incidents|
  {
    if n == 0 then w0
    else
      var w := CloseInTurn(w0, alerts, now, n - 1);
      if LegacyNoncritical(w, alerts, n - 1) then PutStatus(w, n - 1, Resolved, Reconciled, now) else w
  }

  lemma {:induction false} CloseKeepsEvidence(w0: World, alerts: Alerts, now: int, n: nat)
    requires n <= |w0.incidents|
    ensures CloseUpTo(w0, alerts, now, n).evidence == w0.evidence
  {
    if n > 0 { CloseKeepsEvidence(w0, alerts, now, n - 1); }
  }

  /** Closing an incident never changes whether another one is a candidate. */
  lemma ClosingOneSparesOthers(w: World, alerts: Alerts, now: int, closed: nat, i: nat)
    requires closed < |w.incidents| && i < |w.incidents| && i != closed
    ensures LegacyNoncritical(PutStatus(w, closed, Resolved, Reconciled, now), alerts, i) <==>
        LegacyNoncritical(w, alerts, i)
  {}

  /** Nor does closing all candidates before it. */
  lemma ClosingSparesOthers(w0: World, alerts: Alerts, now: int, n: nat, i: nat)
    requires n <= i < |w0.incidents|
    ensures LegacyNoncritical(CloseUpTo(w0, alerts, now, n), alerts, i) <==> LegacyNoncritical(w0, alerts, i)
  {
    hide CloseUpTo;
    CloseKeepsEvidence(w0, alerts, now, n);
    assert CloseUpTo(w0, alerts, now, n).incidents[i] == w0.incidents[i];
  }

  /** Collecting the candidates first and closing them equals judging each in turn. */
  lemma {:induction false} ListedIsInTurn(w0: World, alerts: Alerts, now: int, n: nat)
    requires n <= |w0.incidents|
    ensures CloseListed(w0, Candidates(w0, alerts, n), now) == CloseInTurn(w0, alerts, now, n)
  {
    ListedIsUpTo(w0, alerts, now, n);
    UpToIsInTurn(w0, alerts, now, n);
  }

  lemma {:induction false} UpToIsInTurn(w0: World, alerts: Alerts, now: int, n: nat)
    requires n <= |w0.incidents|
    ensures CloseUpTo(w0, alerts, now, n) == CloseInTurn(w0, alerts, now, n)
  {
    if n > 0 {
      UpToIsInTurn(w0, alerts, now, n - 1);
      ClosingSparesOthers(w0, alerts, now, n - 1, n - 1);
    }
  }

  lemma {:induction false} CandidatesCount(w0: World, alerts: Alerts, now: int, n: nat)
    requires n <= |w0.incidents|
    ensures |CloseUpTo(w0, alerts, now, n).timeline| == |w0.timeline| + |Candidates(w0, alerts, n)|
  {
    if n > 0 { CandidatesCount(w0, alerts, now, n - 1); }
  }
}
