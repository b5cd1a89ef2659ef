/** What each request does to an incident's row, told column by column and over whole runs. */
module IncidentEffects {
  import opened IncidentClustering
  import opened IncidentIdentity
  import opened Incidents
  import opened Texts
  import opened Wrappers

  // ------------------------------------------------------------ the status machine

  /** How far the work on an incident has come. */
  function Progress(s: Status): nat {
    match s case Open => 0 case Acknowledged => 1 case Investigating => 2 case Mitigated => 3 case Resolved => 4
  }

  /** A transition is one step forward, or the reopening that only the system may do. */
  lemma TransitionIff(s: Status, t: Status, systemReopen: bool)
    ensures CanTransition(s, t, systemReopen) <==>
              Progress(t) == Progress(s) + 1 || (systemReopen && s == Resolved && t == Open)
  {}

  // ------------------------------------------------------------ correlation

  /** What joining evidence does to a row: reopen it, raise it to critical, move its summary forward. */
  lemma JoiningEffect(w: World, window: int, env: Envelope, category: string, id: nat)
    requires id < |w.incidents| && FindEvidence(w.evidence, env.source, env.ref).None?
    requires var o := Correlate(w, window, env, category, false);
             o.Done? && !o.result.created && o.result.incident == Some(id)
    ensures var o := Correlate(w, window, env, category, false);
            var x, y := w.incidents[id], o.world.incidents[id];
            && (y.severity == "critical" <==> x.severity == "critical" || env.severity == "critical")
            && (y.severity != "critical" ==> y.severity == x.severity)
            && (o.result.escalated <==> y.severity != x.severity)
            && (o.result.reopened <==> x.status == Resolved)
            && y.status == (if x.status == Resolved then Open else x.status)
            && y.lastEvidenceAt >= x.lastEvidenceAt && y.lastEvidenceAt >= env.observedAt
            && (y.lastEvidenceAt == x.lastEvidenceAt || y.lastEvidenceAt == env.observedAt)
            && y.(severity := x.severity, status := x.status, resolvedAt := x.resolvedAt,
                  lastEvidenceAt := x.lastEvidenceAt) == x
  {
    hide CorrelationKey, Advance;
  }

  /** A fresh incident is open and holds what its first observation said. */
  lemma OpeningEffect(w: World, window: int, env: Envelope, category: string, maintenance: bool)
    requires Correlate(w, window, env, category, maintenance).Done?
    requires Correlate(w, window, env, category, maintenance).result.created
    ensures var o := Correlate(w, window, env, category, maintenance);
            && o.result == Correlation(Some(|w.incidents|), true, false, false, false)
            && |o.world.incidents| == |w.incidents| + 1 && o.world.incidents[..|w.incidents|] == w.incidents
            && var y := o.world.incidents[|w.incidents|];
               && About(y, env.asset, category) && y.severity == env.severity && y.status == Open
               && y.openedAt == y.lastEvidenceAt == env.observedAt
               && y.resolvedAt == None && y.assignee == None && y.silencedUntil == None && y.aiUrgency == None
  {
    hide CorrelationKey, Advance;
  }

  /** Only the four categories are accepted, whatever else holds. */
  lemma UnsupportedIff(w: World, window: int, env: Envelope, category: string, maintenance: bool)
    ensures Correlate(w, window, env, category, maintenance) == Raised(UnsupportedCategory) <==>
              category != "capacity_pressure" && category != "device_fault"
              && category != "performance_contention" && category != "telemetry_blindspot"
  {
    assert CATEGORIES == ["capacity_pressure"] + ["device_fault"] + ["performance_contention"]
                         + ["telemetry_blindspot"];
  }

  /** Maintenance suppresses exactly what is not stored yet, and changes nothing. */
  lemma SuppressedIff(w: World, window: int, env: Envelope, category: string, maintenance: bool)
    requires Correlate(w, window, env, category, maintenance).Done?
    ensures var o := Correlate(w, window, env, category, maintenance);
            && (o.result.suppressed <==> maintenance && FindEvidence(w.evidence, env.source, env.ref).None?)
            && (o.result.suppressed <==> o.result.incident.None?)
            && (o.result.suppressed ==> o.world == w)
  {
    hide CorrelationKey, Advance;
  }

  /** The request raises an incident to critical. */
  predicate Raises(s: Step, i: nat) {
    || (s.Observe? && s.env.severity == "critical")
    || (s.Edit? && s.id == i && s.req.severity == Some("critical"))
  }

  /** The request sets another severity by hand. */
  predicate Lowers(s: Step, i: nat) {
    s.Edit? && s.id == i && s.req.severity.Some? && s.req.severity != Some("critical")
  }

  lemma CloseKeepsSeverity(w: World, alerts: Alerts, now: int, n: nat, i: nat)
    requires n <= |w.incidents| && i < |w.incidents|
    ensures CloseUpTo(w, alerts, now, n).incidents[i].severity == w.incidents[i].severity
  {
    hide LegacyNoncritical;
  }

  lemma UpdateSeverity(w: World, id: nat, req: UpdateRequest, actor: Actor, visible: bool, now: int, i: nat)
    requires i < |w.incidents| && Update(w, id, req, actor, visible, now).Updated?
    ensures var v := Update(w, id, req, actor, visible, now).world;
            && i < |v.incidents|
            && v.incidents[i].severity == if i == id && req.severity.Some? then req.severity.value
                                          else w.incidents[i].severity
  {
    UpdateEffect(w, id, req, actor, visible, now);
  }

  lemma CorrelateSeverity(w: World, window: int, env: Envelope, category: string, maintenance: bool, i: nat)
    requires i < |w.incidents| && Correlate(w, window, env, category, maintenance).Done?
    ensures var v := Correlate(w, window, env, category, maintenance).world;
            && i < |v.incidents|
            && (v.incidents[i].severity == w.incidents[i].severity
                || v.incidents[i].severity == "critical" == env.severity)
  {
    hide CorrelationKey, FindEvidence, Advance, Target;
  }

  lemma FinishSeverity(w: World, key: string, answers: seq<ModelAnswer>, enabled: bool, now: int, i: nat)
    requires i < |w.incidents|
    ensures var v := FinishReview(w, key, answers, enabled, now);
            i < |v.incidents| && v.incidents[i].severity == w.incidents[i].severity
  {
    hide FirstValid;
  }

  lemma ApplySeverity(w: World, window: int, s: Step, i: nat)
    requires i < |w.incidents|
    ensures var v := Apply(w, window, s);
            && i < |v.incidents|
            && (v.incidents[i].severity == "critical" && w.incidents[i].severity != "critical" ==> Raises(s, i))
            && (v.incidents[i].severity != "critical" && w.incidents[i].severity == "critical" ==> Lowers(s, i))
  {
    hide Correlate, Update, CloseUpTo, FinishReview;
    match s
    case Observe(env, category, maintenance) =>
      if Correlate(w, window, env, category, maintenance).Done? {
        CorrelateSeverity(w, window, env, category, maintenance, i);
      }
    case Finish(key, answers, enabled, at) => FinishSeverity(w, key, answers, enabled, at, i);
    case Edit(id, req, actor, visible, at) =>
      if Update(w, id, req, actor, visible, at).Updated? { UpdateSeverity(w, id, req, actor, visible, at, i); }
    case Repair(alerts, _, at) => CloseKeepsSeverity(w, alerts, at, |w.incidents|, i);
    case _ =>
  }

  /** Only critical evidence or a manual edit makes an incident critical, and only an edit ends that. */
  lemma {:induction false} SeverityOverRun(w: World, window: int, steps: seq<Step>, i: nat)
    requires i < |w.incidents|
    ensures var v := RunAll(w, window, steps);
            && i < |v.incidents|
            && (v.incidents[i].severity == "critical" && w.incidents[i].severity != "critical" ==>
                  exists k :: 0 <= k < |steps| && Raises(steps[k], i))
            && (v.incidents[i].severity != "critical" && w.incidents[i].severity == "critical" ==>
                  exists k :: 0 <= k < |steps| && Lowers(steps[k], i))
    decreases |steps|
  {
    hide Apply, Raises, Lowers;
    if steps != [] {
      var u, rest := Apply(w, window, steps[0]), steps[1..];
      ApplySeverity(w, window, steps[0], i);
      SeverityOverRun(u, window, rest, i);
      assert forall k | 0 <= k < |rest| :: rest[k] == steps[k + 1];
    }
  }

  // ------------------------------------------------------------ the manual update

  /** What an update must satisfy to be accepted. */
  predicate Acceptable(inc: Incident, req: UpdateRequest, actor: Actor) {
    && (req.status.Some? ==> Progress(req.status.value) == Progress(inc.status) + 1)
    && (req.claim == Some(false) ==> inc.assignee == None || inc.assignee == Some(actor.id) || actor.superAdmin)
    && (req.status.Some? || req.claim.Some? || req.silence.Some?
        || (req.severity.Some? && req.severity.value != inc.severity))
  }

  lemma UpdatedIff(w: World, id: nat, req: UpdateRequest, actor: Actor, visible: bool, now: int)
    ensures Update(w, id, req, actor, visible, now).Updated? <==>
              visible && id < |w.incidents| && Acceptable(w.incidents[id], req, actor)
  {}

  lemma SeverityPart(w: World, id: nat, req: UpdateRequest)
    requires id < |w.incidents|
    ensures var v, inc := PutSeverity(w, id, req), w.incidents[id];
            && v.incidents == w.incidents[id := inc.(severity := if req.severity.Some? then req.severity.value
                                                                 else inc.severity)]
            && v.timeline == w.timeline + SeverityEntry(inc, id, req)
  {}

  lemma StatusPart(w: World, id: nat, target: Status, now: int)
    requires id < |w.incidents|
    ensures var v, inc := PutStatus(w, id, target, StatusChanged, now), w.incidents[id];
            && v.incidents == w.incidents[id := inc.(status := target,
                                                    resolvedAt := if target == Resolved then Some(now) else None)]
            && v.timeline == w.timeline + [TimelineEntry(id, StatusChanged, Some(inc.status), Some(target))]
  {}

  lemma ClaimPart(w: World, id: nat, req: UpdateRequest, actor: Actor)
    requires id < |w.incidents|
    ensures var v, inc := PutClaim(w, id, req, actor), w.incidents[id];
            && v.incidents == w.incidents[id := inc.(assignee := if req.claim == Some(true) then Some(actor.id)
                                                                 else if req.claim == Some(false) then None
                                                                 else inc.assignee)]
            && v.timeline == w.timeline + ClaimEntry(id, req)
  {}

  lemma SilencePart(w: World, id: nat, req: UpdateRequest)
    requires id < |w.incidents|
    ensures var v, inc := PutSilence(w, id, req), w.incidents[id];
            && v.incidents == w.incidents[id := inc.(silencedUntil := if req.silence.Some? then req.silence.value
                                                                      else inc.silencedUntil)]
            && v.timeline == w.timeline + SilenceEntry(id, req)
  {}

  /** The row after its four parts. */
  function RowAfter(inc: Incident, req: UpdateRequest, actor: Actor, now: int): Incident {
    inc.(severity := if req.severity.Some? then req.severity.value else inc.severity,
         status := if req.status.Some? then req.status.value else inc.status,
         resolvedAt := if req.status.None? then inc.resolvedAt
                       else if req.status == Some(Resolved) then Some(now) else None,
         assignee := if req.claim == Some(true) then Some(actor.id)
                     else if req.claim == Some(false) then None else inc.assignee,
         silencedUntil := if req.silence.Some? then req.silence.value else inc.silencedUntil)
  }

  function SeverityEntry(inc: Incident, id: nat, req: UpdateRequest): seq<TimelineEntry> {
    if req.severity.Some? && req.severity.value != inc.severity
    then [TimelineEntry(id, SeverityChanged, None, None)] else []
  }

  function StatusEntry(inc: Incident, id: nat, req: UpdateRequest): seq<TimelineEntry> {
    if req.status.Some? then [TimelineEntry(id, StatusChanged, Some(inc.status), req.status)] else []
  }

  function ClaimEntry(id: nat, req: UpdateRequest): seq<TimelineEntry> {
    if req.claim == Some(true) then [TimelineEntry(id, Claimed, None, None)]
    else if req.claim == Some(false) then [TimelineEntry(id, Released, None, None)] else []
  }

  function SilenceEntry(id: nat, req: UpdateRequest): seq<TimelineEntry> {
    match req.silence
    case None => []
    case Some(None) => [TimelineEntry(id, Unsilenced, None, None)]
    case Some(Some(_)) => [TimelineEntry(id, Silenced, None, None)]
  }

  /** Which refusal a request meets: what cannot be seen, a wrong step, a foreign release, no change. */
  lemma RefusedIff(w: World, id: nat, req: UpdateRequest, actor: Actor, visible: bool, now: int)
    ensures var o := Update(w, id, req, actor, visible, now);
            && (o == Refused(NotVisible) <==> !visible || id >= |w.incidents|)
            && (visible && id < |w.incidents| ==>
                  var inc := w.incidents[id];
                  var step := req.status.Some? ==> Progress(req.status.value) == Progress(inc.status) + 1;
                  var foreign := req.claim == Some(false) && inc.assignee.Some? && inc.assignee.value != actor.id
                                 && !actor.superAdmin;
                  && (o == Refused(InvalidTransition) <==> !step)
                  && (o == Refused(NotAssignee) <==> step && foreign)
                  && (o == Refused(NothingToUpdate) <==> step && !foreign && !Acceptable(inc, req, actor)))
  {}

  /** An accepted update sets each requested column of one row, and adds one entry for each change. */
  lemma UpdateEffect(w: World, id: nat, req: UpdateRequest, actor: Actor, visible: bool, now: int)
    requires Update(w, id, req, actor, visible, now).Updated?
    ensures id < |w.incidents|
    ensures var v, inc := Update(w, id, req, actor, visible, now).world, w.incidents[id];
            && v.incidents == w.incidents[id := RowAfter(inc, req, actor, now)]
            && v.timeline == w.timeline + SeverityEntry(inc, id, req) + StatusEntry(inc, id, req)
                             + ClaimEntry(id, req) + SilenceEntry(id, req)
  {
    var w1 := PutSeverity(w, id, req);
    var w2 := if req.status.Some? then PutStatus(w1, id, req.status.value, StatusChanged, now) else w1;
    var w3 := PutClaim(w2, id, req, actor);
    assert Update(w, id, req, actor, visible, now).world == PutSilence(w3, id, req);
    SeverityPart(w, id, req);
    if req.status.Some? { StatusPart(w1, id, req.status.value, now); }
    ClaimPart(w2, id, req, actor);
    SilencePart(w3, id, req);
    hide Update, PutSeverity, PutStatus, PutClaim, PutSilence, SeverityEntry, ClaimEntry, SilenceEntry;
    assert w2.timeline == w1.timeline + StatusEntry(w.incidents[id], id, req);
  }

  /** What `incident_capabilities` offers to an editor. */
  predicate OffersClaim(inc: Incident) {
    inc.assignee.None?
  }

  predicate OffersRelease(inc: Incident, actor: Actor) {
    inc.assignee.Some? && (inc.assignee.value == actor.id || actor.superAdmin)
  }

  const CLAIM := UpdateRequest(None, None, Some(true), None)
  const RELEASE := UpdateRequest(None, None, Some(false), None)

  /**
   The service takes every claim, so it keeps to what was offered exactly when nobody holds the
   incident; a release is refused to others exactly when it was not offered and somebody holds it.
   */
  lemma OfferIsKeptIff(w: World, id: nat, actor: Actor, now: int)
    requires id < |w.incidents|
    ensures var claimed, released := Update(w, id, CLAIM, actor, true, now), Update(w, id, RELEASE, actor, true, now);
            && claimed.Updated? && claimed.world.incidents[id].assignee == Some(actor.id)
            && ((claimed.Updated? <==> OffersClaim(w.incidents[id])) <==> w.incidents[id].assignee == None)
            && (released.Updated? <==> OffersRelease(w.incidents[id], actor) || w.incidents[id].assignee == None)
  {
    UpdatedIff(w, id, CLAIM, actor, true, now);
    UpdatedIff(w, id, RELEASE, actor, true, now);
    UpdateEffect(w, id, CLAIM, actor, true, now);
    hide Update;
  }

  /** The request claims an incident, or releases it for its assignee or as a super admin. */
  predicate Assigns(s: Step, i: nat, before: Option<int>, after: Option<int>) {
    s.Edit? && s.id == i && s.visible && s.req.claim.Some?
    && if s.req.claim.value then after == Some(s.actor.id)
       else after == None && (before == Some(s.actor.id) || s.actor.superAdmin)
  }

  lemma CloseKeepsAssignee(w: World, alerts: Alerts, now: int, n: nat, i: nat)
    requires n <= |w.incidents| && i < |w.incidents|
    ensures CloseUpTo(w, alerts, now, n).incidents[i].assignee == w.incidents[i].assignee
  {
    hide LegacyNoncritical;
  }

  /**
   No request of any writer changes who an incident is assigned to, but a visible edit that claims
   it, whoever holds it, or that releases it on behalf of its assignee or of a super admin.
   */
  lemma AssigneeChangesOnlyBy(w: World, window: int, s: Step, i: nat)
    requires i < |w.incidents|
    ensures var v := Apply(w, window, s);
            && i < |v.incidents|
            && (v.incidents[i].assignee != w.incidents[i].assignee ==>
                  Assigns(s, i, w.incidents[i].assignee, v.incidents[i].assignee))
  {
    hide CorrelationKey, Update, CloseUpTo, FindEvidence, Advance, FirstValid;
    match s
    case Edit(id, req, actor, visible, at) =>
      UpdatedIff(w, id, req, actor, visible, at);
      if Update(w, id, req, actor, visible, at).Updated? {
        UpdateEffect(w, id, req, actor, visible, at);
      }
    case Repair(alerts, _, at) => CloseKeepsAssignee(w, alerts, at, |w.incidents|, i);
    case _ =>
  }

  // ------------------------------------------------------------ the AI review

  function Level(u: Urgency): nat {
    match u case Low => 0 case Medium => 1 case High => 2 case Critical => 3
  }

  /** An assessment of low confidence counts one level lower, and never below the lowest. */
  lemma CalibratedIs(a: Assessment)
    ensures Level(Calibrated(a)) ==
              if a.lowConfidence && Level(a.urgency) > 0 then Level(a.urgency) - 1 else Level(a.urgency)
  {}

  /** A model may propose no status, the present one, or the next step. */
  lemma ValidAssessmentIff(a: Assessment, current: Status)
    ensures ValidAssessment(a, current) <==>
              a.proposed.None? || a.proposed.value == current || Progress(a.proposed.value) == Progress(current) + 1
  {}

  /** The chosen assessment is the first valid one in the order of the models. */
  lemma {:induction false} FirstValidIff(answers: seq<ModelAnswer>, current: Status, a: Assessment)
    ensures FirstValid(answers, current) == Some(a) <==>
              exists i :: 0 <= i < |answers| && answers[i] == Answer(a) && IsFirstValid(answers, current, i)
  {
    if answers != [] {
      var rest := answers[1..];
      FirstValidIff(rest, current, a);
      if IsValidAnswer(answers[0], current) {
        assert IsFirstValid(answers, current, 0);
        assert forall i | 0 < i < |answers| :: !IsFirstValid(answers, current, i);
      } else {
        assert forall i | 0 <= i < |rest| ::
            rest[i] == answers[i + 1] && (IsFirstValid(rest, current, i) <==> IsFirstValid(answers, current, i + 1));
      }
    }
  }

  predicate IsValidAnswer(m: ModelAnswer, current: Status) {
    m.Answer? && ValidAssessment(m.assessment, current)
  }

  predicate IsFirstValid(answers: seq<ModelAnswer>, current: Status, i: nat) {
    i < |answers| && IsValidAnswer(answers[i], current)
    && forall j | 0 <= j < i :: !IsValidAnswer(answers[j], current)
  }

  /** How a running review ends, and that it ends no other. */
  lemma ReviewEndsAs(w: World, key: string, answers: seq<ModelAnswer>, enabled: bool, now: int)
    requires key in w.runs && w.runs[key].status == Running && w.runs[key].incident < |w.incidents|
    ensures var run, v := w.runs[key], FinishReview(w, key, answers, enabled, now);
            var inc := w.incidents[run.incident];
            var answered := exists a :: FirstValid(answers, run.snapStatus) == Some(a);
            var moved := inc.status != run.snapStatus || inc.lastEvidenceAt != run.snapLastAt;
            && v.runs.Keys == w.runs.Keys && (forall k | k in w.runs && k != key :: v.runs[k] == w.runs[k])
            && (v.runs[key].status == Failed <==> !answered)
            && (v.runs[key].status == Superseded <==> answered && moved)
            && (v.runs[key].status == Skipped <==> answered && !moved && !enabled)
            && (v.runs[key].status == Succeeded <==> answered && !moved && enabled)
            && (v.runs[key].status != Succeeded ==> v.incidents == w.incidents && v.timeline == w.timeline)
  {
    var a := FirstValid(answers, w.runs[key].snapStatus);
    assert a.Some? ==> a == Some(a.value);
    hide FirstValid, Calibrated;
  }

  /** A review that begins is recorded as running, with the status and newest evidence it saw. */
  lemma ReviewBeginsIff(w: World, key: string, id: nat, enabled: bool)
    requires key !in w.runs
    ensures var v := StartReview(w, key, id, enabled);
            && (key in v.runs <==> enabled && id < |w.incidents| && w.incidents[id].status != Resolved)
            && (key in v.runs ==> v.runs[key] == Run(id, Running, w.incidents[id].status,
                                                     w.incidents[id].lastEvidenceAt))
            && v.(runs := w.runs) == w && (forall k | k in w.runs :: k in v.runs && v.runs[k] == w.runs[k])
  {}

  /** What an applied assessment writes: the calibrated urgency, and the proposed step if there is one. */
  lemma AssessmentEffect(w: World, id: nat, a: Assessment, now: int)
    requires id < |w.incidents| && ValidAssessment(a, w.incidents[id].status)
    ensures var v := Assess(w, id, a, now);
            var x, y := w.incidents[id], v.incidents[id];
            && y.aiUrgency == Some(Calibrated(a))
            && y.status == (if a.proposed.Some? then a.proposed.value else x.status)
            && (y.status != x.status ==> Progress(y.status) == Progress(x.status) + 1
                                         && y.resolvedAt == if y.status == Resolved then Some(now) else None)
            && (y.status == x.status ==> y.resolvedAt == x.resolvedAt)
            && y.(aiUrgency := x.aiUrgency, status := x.status, resolvedAt := x.resolvedAt) == x
  {}

  // ------------------------------------------------------------ reconciliation

  /** A vendor alert is known for this piece of evidence, and it is none of the critical ones. */
  predicate NoncriticalAlert(inc: Incident, e: Evidence, alerts: Alerts) {
    && (inc.cluster, e.ref) in alerts
    && var severity := SeverityOf(alerts[(inc.cluster, e.ref)]);
       severity != "alert" && severity != "critical" && severity != "emergency" && severity != "high"
  }

  /** An unresolved device fault with evidence, all of it noncritical. */
  ghost predicate Closable(w: World, alerts: Alerts, i: nat)
    requires i < |w.incidents|
  {
    && w.incidents[i].category == "device_fault" && w.incidents[i].status != Resolved
    && (exists n :: 0 <= n < |w.evidence| && w.evidence[n].incident == i)
    && forall n | 0 <= n < |w.evidence| && w.evidence[n].incident == i ::
         NoncriticalAlert(w.incidents[i], w.evidence[n], alerts)
  }

  lemma CriticalWords(severity: string)
    ensures severity in CRITICAL_SEVERITIES <==>
              severity == "alert" || severity == "critical" || severity == "emergency" || severity == "high"
  {
    assert CRITICAL_SEVERITIES == ["alert"] + ["critical"] + ["emergency"] + ["high"];
  }

  lemma ClosableIff(w: World, alerts: Alerts, i: nat)
    requires i < |w.incidents|
    ensures LegacyNoncritical(w, alerts, i) <==> Closable(w, alerts, i)
  {
    hide SeverityOf;
    forall n | 0 <= n < |w.evidence| && (w.incidents[i].cluster, w.evidence[n].ref) in alerts
      ensures NoncriticalAlert(w.incidents[i], w.evidence[n], alerts) <==>
                SeverityOf(alerts[(w.incidents[i].cluster, w.evidence[n].ref)]) !in CRITICAL_SEVERITIES
    {
      CriticalWords(SeverityOf(alerts[(w.incidents[i].cluster, w.evidence[n].ref)]));
    }
  }

  lemma {:induction false} CloseUpToRows(w: World, alerts: Alerts, now: int, n: nat, i: nat)
    requires i < n <= |w.incidents|
    ensures CloseUpTo(w, alerts, now, n).incidents[i]
            == if LegacyNoncritical(w, alerts, i)
               then w.incidents[i].(status := Resolved, resolvedAt := Some(now)) else w.incidents[i]
  {
    hide LegacyNoncritical;
    if i < n - 1 { CloseUpToRows(w, alerts, now, n - 1, i); }
  }

  lemma CloseUpToElsewhere(w: World, alerts: Alerts, now: int, n: nat)
    requires n <= |w.incidents|
    ensures var v := CloseUpTo(w, alerts, now, n);
            v.evidence == w.evidence && v.cursors == w.cursors && v.runs == w.runs
  {
    hide LegacyNoncritical;
  }

  /**
   A run that is no dry run closes an incident if and only if it was an unresolved device fault with
   evidence, each piece of which names a known alert of its cluster that is not critical. Every
   other row, and all evidence, cursors and reviews, stay as they were; a dry run changes nothing.
   */
  lemma ReconcileClosesIff(w: World, alerts: Alerts, now: int, i: nat)
    requires i < |w.incidents|
    ensures var v := Reconcile(w, alerts, false, now);
            && |v.incidents| == |w.incidents|
            && v.evidence == w.evidence && v.cursors == w.cursors && v.runs == w.runs
            && (Closable(w, alerts, i) ==>
                  v.incidents[i] == w.incidents[i].(status := Resolved, resolvedAt := Some(now)))
            && (!Closable(w, alerts, i) ==> v.incidents[i] == w.incidents[i])
            && (Closable(w, alerts, i) <==> v.incidents[i].status != w.incidents[i].status)
    ensures Reconcile(w, alerts, true, now) == w
  {
    hide LegacyNoncritical, Closable, CloseUpTo;
    ClosableIff(w, alerts, i);
    CloseUpToRows(w, alerts, now, |w.incidents|, i);
    CloseUpToElsewhere(w, alerts, now, |w.incidents|);
    if Closable(w, alerts, i) { ClosableIsOpen(w, alerts, i); }
  }

  lemma ClosableIsOpen(w: World, alerts: Alerts, i: nat)
    requires i < |w.incidents| && Closable(w, alerts, i)
    ensures w.incidents[i].status != Resolved
  {}

  /** Stored with any capitals and surrounding spaces, one critical or unknown alert keeps an incident open. */
  lemma OneAlertKeepsOpen(w: World, alerts: Alerts, now: int, i: nat, n: nat, a: string, word: string, b: string)
    requires i < |w.incidents| && n < |w.evidence| && w.evidence[n].incident == i
    requires var ref := (w.incidents[i].cluster, w.evidence[n].ref);
             ref in alerts ==>
               && alerts[ref] == Some(a + word + b) && Blank(a) && Blank(b)
               && Lower(word) in ["alert", "critical", "emergency", "high"]
    ensures Reconcile(w, alerts, false, now).incidents[i] == w.incidents[i]
  {
    hide Reconcile, Strip;
    ReconcileClosesIff(w, alerts, now, i);
    var ref := (w.incidents[i].cluster, w.evidence[n].ref);
    if ref in alerts {
      CriticalIsTrimmed(word);
      StripOfPadded(a, word, b);
      assert SeverityOf(alerts[ref]) == Lower(word);
    }
    assert !NoncriticalAlert(w.incidents[i], w.evidence[n], alerts);
  }

  lemma CriticalIsTrimmed(word: string)
    requires Lower(word) in ["alert", "critical", "emergency", "high"]
    ensures word != "" && Trimmed(word)
  {
    if word != "" {
      LowerKeepsSpaces(word[0]);
      LowerKeepsSpaces(word[|word| - 1]);
    }
  }

  lemma LowerKeepsSpaces(c: char)
    ensures Space(LowerChar(c)) <==> Space(c)
  {}
}
