/**
 Incidents as tables: the correlation of evidence, the manual update, the AI review in its two
 steps, and the reconciliation of legacy vendor incidents. Times are integer microseconds.
 A request that raises leaves the tables as they were.
 */
module Incidents {

  import opened Texts
  import opened Wrappers

  // ------------------------------------------------------------ the rows

  datatype Status = Open | Acknowledged | Investigating | Mitigated | Resolved

  datatype Urgency = Low | Medium | High | Critical

  datatype Asset = Asset(cluster: string, assetType: string, assetId: string)

  datatype Incident = Incident(
    key: string, bucket: int, cluster: string, assetType: string, assetId: string, category: string,
    severity: string, status: Status, openedAt: int, lastEvidenceAt: int, resolvedAt: Option<int>,
    assignee: Option<int>, silencedUntil: Option<int>, aiUrgency: Option<Urgency>)

  /** What the incident is about. */
  function AssetOf(inc: Incident): Asset {
    Asset(inc.cluster, inc.assetType, inc.assetId)
  }

  datatype Evidence = Evidence(incident: nat, source: string, ref: string, observedAt: int)

  datatype EntryKind =
    | Created | Reopened | EvidenceAdded | StatusChanged | SeverityChanged | Claimed | Released
    | Silenced | Unsilenced | AiAnalysis | AiStatusChanged | Reconciled

  datatype TimelineEntry = TimelineEntry(incident: nat, kind: EntryKind, from: Option<Status>, to: Option<Status>)

  datatype Cursor = Cursor(incident: Option<nat>, lastAt: Option<int>)

  datatype RunStatus = Running | Failed | Superseded | Skipped | Succeeded

  /** A review run with the part of its snapshot that is compared when it finishes. */
  datatype Run = Run(incident: nat, status: RunStatus, snapStatus: Status, snapLastAt: int)

  /** The tables; an incident's identifier is its position. */
  datatype World = World(
    incidents: seq<Incident>, cursors: map<string, Cursor>, evidence: seq<Evidence>,
    timeline: seq<TimelineEntry>, runs: map<string, Run>)

  const EMPTY := World([], map[], [], [], map[])

  datatype Error =
    | UnsupportedCategory | BucketTaken | InvalidTransition | NotVisible | NotAssignee | NothingToUpdate

  // ------------------------------------------------------------ the status machine

  /** The one following state, none after `Resolved`. */
  function NextState(s: Status): Option<Status> {
    match s
    case Open => Some(Acknowledged)
    case Acknowledged => Some(Investigating)
    case Investigating => Some(Mitigated)
    case Mitigated => Some(Resolved)
    case Resolved => None
  }

  predicate CanTransition(current: Status, target: Status, systemReopen: bool) {
    (systemReopen && current == Resolved && target == Open) || NextState(current) == Some(target)
  }

  // ------------------------------------------------------------ correlation

  const BUCKET: int := 1_800_000_000

  function BucketStart(at: int): int { at - at % BUCKET }

  const CATEGORIES := ["capacity_pressure", "device_fault", "performance_contention", "telemetry_blindspot"]

  datatype Envelope = Envelope(asset: Asset, source: string, ref: string, observedAt: int, severity: string)

  datatype Correlation = Correlation(
    incident: Option<nat>, created: bool, reopened: bool, escalated: bool, suppressed: bool)

  datatype Outcome = Done(world: World, result: Correlation) | Raised(error: Error)

  function CorrelationKey(asset: Asset, category: string): string {
    asset.cluster + ":" + asset.assetType + ":" + asset.assetId + ":" + category
  }

  predicate SameRef(e: Evidence, source: string, ref: string) {
    e.source == source && e.ref == ref
  }

  /** The incident of the stored evidence with this source reference. */
  function FindEvidence(evidence: seq<Evidence>, source: string, ref: string): (r: Option<nat>)
    ensures r.None? <==> forall e | e in evidence :: !SameRef(e, source, ref)
    ensures r.Some? ==> exists e :: e in evidence && SameRef(e, source, ref) && e.incident == r.value
  {
    if evidence == [] then None
    else if SameRef(evidence[0], source, ref) then Some(evidence[0].incident)
    else
      assert evidence == [evidence[0]] + evidence[1..];
      FindEvidence(evidence[1..], source, ref)
  }

  function CursorOf(w: World, key: string): Cursor {
    if key in w.cursors then w.cursors[key] else Cursor(None, None)
  }

  function Abs(x: int): nat { if x < 0 then -x else x }

  /** The cursor's incident, if the observation lies within the rolling window around it. */
  function Target(w: World, window: int, key: string, at: int): (r: Option<nat>)
    ensures r.Some? ==> r.value < |w.incidents|
  {
    var c := CursorOf(w, key);
    if c.incident.Some? && c.lastAt.Some? && Abs(at - c.lastAt.value) <= window && c.incident.value < |w.incidents|
    then c.incident else None
  }

  predicate BucketIsTaken(incidents: seq<Incident>, key: string, bucket: int) {
    exists i | 0 <= i < |incidents| :: incidents[i].key == key && incidents[i].bucket == bucket
  }

  function NewIncident(env: Envelope, category: string): Incident {
    Incident(CorrelationKey(env.asset, category), BucketStart(env.observedAt),
             env.asset.cluster, env.asset.assetType, env.asset.assetId, category,
             env.severity, Open, env.observedAt, env.observedAt, None, None, None, None)
  }

  function Max(x: int, y: int): int { if x >= y then x else y }

  predicate Escalates(inc: Incident, env: Envelope) {
    env.severity == "critical" && inc.severity != "critical"
  }

  /** An existing incident after one more piece of evidence: reopened when it was resolved. */
  function Touched(inc: Incident, env: Envelope): Incident {
    inc.(status := if inc.status == Resolved then Open else inc.status,
         resolvedAt := if inc.status == Resolved then None else inc.resolvedAt,
         lastEvidenceAt := Max(inc.lastEvidenceAt, env.observedAt),
         severity := if Escalates(inc, env) then "critical" else inc.severity)
  }

  /** Only evidence that does not go back in time moves the cursor. */
  function Advance(c: Cursor, id: nat, at: int): Cursor {
    if c.lastAt.None? || at >= c.lastAt.value then Cursor(Some(id), Some(at)) else c
  }

  /** The rows every accepted observation adds. */
  function WithEvidence(w: World, key: string, id: nat, env: Envelope): World {
    w.(evidence := w.evidence + [Evidence(id, env.source, env.ref, env.observedAt)],
       timeline := w.timeline + [TimelineEntry(id, EvidenceAdded, None, None)],
       cursors := w.cursors[key := Advance(CursorOf(w, key), id, env.observedAt)])
  }

  function WithNew(w: World, env: Envelope, category: string): World {
    w.(incidents := w.incidents + [NewIncident(env, category)],
       timeline := w.timeline + [TimelineEntry(|w.incidents|, Created, None, Some(Open))])
  }

  function WithTouched(w: World, id: nat, env: Envelope): World
    requires id < |w.incidents|
  {
    w.(incidents := w.incidents[id := Touched(w.incidents[id], env)],
       timeline := if w.incidents[id].status == Resolved
                   then w.timeline + [TimelineEntry(id, Reopened, Some(Resolved), Some(Open))] else w.timeline)
  }

  /** `correlate_incident` */
  function Correlate(w: World, window: int, env: Envelope, category: string, maintenance: bool): Outcome {
    if category !in CATEGORIES then Raised(UnsupportedCategory)
    else
      var stored := FindEvidence(w.evidence, env.source, env.ref);
      if stored.Some? then Done(w, Correlation(stored, false, false, false, false))
      else if maintenance then Done(w, Correlation(None, false, false, false, true))
      else
        var key := CorrelationKey(env.asset, category);
        var target := Target(w, window, key, env.observedAt);
        if target.None? then
          if BucketIsTaken(w.incidents, key, BucketStart(env.observedAt)) then Raised(BucketTaken)
          else
            var id := |w.incidents|;
            Done(WithEvidence(WithNew(w, env, category), key, id, env),
                Correlation(Some(id), true, false, false, false))
        else
          var inc := w.incidents[target.value];
          Done(WithEvidence(WithTouched(w, target.value, env), key, target.value, env),
               Correlation(target, false, inc.status == Resolved, Escalates(inc, env), false))
  }

  // ------------------------------------------------------------ the manual update

  datatype UpdateRequest = UpdateRequest(
    status: Option<Status>, severity: Option<string>, claim: Option<bool>, silence: Option<Option<int>>)

  datatype Actor = Actor(id: int, superAdmin: bool)

  datatype UpdateOutcome = Updated(world: World) | Refused(error: Error)

  /** One assignment to an incident row together with its timeline entry. */
  function Put(w: World, id: nat, inc: Incident, entry: TimelineEntry): World
    requires id < |w.incidents|
  {
    w.(incidents := w.incidents[id := inc], timeline := w.timeline + [entry])
  }

  function PutStatus(w: World, id: nat, target: Status, kind: EntryKind, now: int): World
    requires id < |w.incidents|
  {
    var inc := w.incidents[id];
    Put(w, id, inc.(status := target, resolvedAt := if target == Resolved then Some(now) else None),
        TimelineEntry(id, kind, Some(inc.status), Some(target)))
  }

  function PutSeverity(w: World, id: nat, req: UpdateRequest): World
    requires id < |w.incidents|
  {
    if req.severity.Some? && req.severity.value != w.incidents[id].severity
    then Put(w, id, w.incidents[id].(severity := req.severity.value), TimelineEntry(id, SeverityChanged, None, None))
    else w
  }

  function PutClaim(w: World, id: nat, req: UpdateRequest, actor: Actor): World
    requires id < |w.incidents|
  {
    match req.claim
    case None => w
    case Some(true) => Put(w, id, w.incidents[id].(assignee := Some(actor.id)), TimelineEntry(id, Claimed, None, None))
    case Some(false) => Put(w, id, w.incidents[id].(assignee := None), TimelineEntry(id, Released, None, None))
  }

  function PutSilence(w: World, id: nat, req: UpdateRequest): World
    requires id < |w.incidents|
  {
    match req.silence
    case None => w
    case Some(until) =>
      Put(w, id, w.incidents[id].(silencedUntil := until),
          TimelineEntry(id, if until.Some? then Silenced else Unsilenced, None, None))
  }

  /** `update_incident`: severity, status, claim and silence in this order, all or nothing. */
  function Update(w: World, id: nat, req: UpdateRequest, actor: Actor, visible: bool, now: int): UpdateOutcome {
    if !visible || id >= |w.incidents| then Refused(NotVisible)
    else
      var inc := w.incidents[id];
      var w1 := PutSeverity(w, id, req);
      if req.status.Some? && !CanTransition(inc.status, req.status.value, false) then Refused(InvalidTransition)
      else
        var w2 := if req.status.Some? then PutStatus(w1, id, req.status.value, StatusChanged, now) else w1;
        if req.claim == Some(false) && inc.assignee != None && inc.assignee != Some(actor.id) && !actor.superAdmin
        then Refused(NotAssignee)
        else
          var w3 := PutSilence(PutClaim(w2, id, req, actor), id, req);
          if |w3.timeline| == |w.timeline| then Refused(NothingToUpdate) else Updated(w3)
  }

  // ------------------------------------------------------------ the AI review

  datatype Assessment = Assessment(proposed: Option<Status>, urgency: Urgency, lowConfidence: bool)

  datatype ModelAnswer = Unavailable | NoAnswer | Answer(assessment: Assessment)

  /** `validate_agent_assessment`: keep the state, or one step of the status machine. */
  predicate ValidAssessment(a: Assessment, current: Status) {
    a.proposed == None || a.proposed == Some(current) || CanTransition(current, a.proposed.value, false)
  }

  /** The first model whose answer is valid for the snapshot. */
  function FirstValid(answers: seq<ModelAnswer>, current: Status): (r: Option<Assessment>)
    ensures r.Some? ==> ValidAssessment(r.value, current) && Answer(r.value) in answers
    ensures r.None? ==> forall a | a in answers && a.Answer? :: !ValidAssessment(a.assessment, current)
  {
    if answers == [] then None
    else if answers[0].Answer? && ValidAssessment(answers[0].assessment, current) then Some(answers[0].assessment)
    else
      assert answers == [answers[0]] + answers[1..];
      FirstValid(answers[1..], current)
  }

  function Calibrated(a: Assessment): Urgency {
    if !a.lowConfidence then a.urgency
    else match a.urgency case Critical => High case High => Medium case Medium => Low case Low => Low
  }

  /** The first half of `review_incident`: take the snapshot and commit the running row. */
  function StartReview(w: World, key: string, id: nat, enabled: bool): World {
    if !enabled || id >= |w.incidents| || w.incidents[id].status == Resolved || key in w.runs then w
    else w.(runs := w.runs[key := Run(id, Running, w.incidents[id].status, w.incidents[id].lastEvidenceAt)])
  }

  predicate SnapshotCurrent(w: World, run: Run)
    requires run.incident < |w.incidents|
  {
    w.incidents[run.incident].status == run.snapStatus && w.incidents[run.incident].lastEvidenceAt == run.snapLastAt
  }

  function Assess(w: World, id: nat, a: Assessment, now: int): World
    requires id < |w.incidents|
  {
    var inc := w.incidents[id];
    var w1 := Put(w, id, inc.(aiUrgency := Some(Calibrated(a))), TimelineEntry(id, AiAnalysis, None, None));
    if a.proposed == None || a.proposed == Some(inc.status) then w1
    else PutStatus(w1, id, a.proposed.value, AiStatusChanged, now)
  }

  function EndRun(w: World, key: string, status: RunStatus): World
    requires key in w.runs
  {
    w.(runs := w.runs[key := w.runs[key].(status := status)])
  }

  /** The second half: the answers have arrived, and the incident may have moved on. */
  function FinishReview(w: World, key: string, answers: seq<ModelAnswer>, enabled: bool, now: int): World {
    if key !in w.runs || w.runs[key].status != Running || w.runs[key].incident >= |w.incidents| then w
    else
      var run := w.runs[key];
      var a := FirstValid(answers, run.snapStatus);
      if a.None? then EndRun(w, key, Failed)
      else if !SnapshotCurrent(w, run) then EndRun(w, key, Superseded)
      else if !enabled then EndRun(w, key, Skipped)
      else EndRun(Assess(w, run.incident, a.value, now), key, Succeeded)
  }

  // ------------------------------------------------------------ reconciliation

  const CRITICAL_SEVERITIES := ["alert", "critical", "emergency", "high"]

  /** The severities of the vendor alerts as stored, by cluster and reference. */
  type Alerts = map<(string, string), Option<string>>

  /** `str(severity or "info").strip().lower()` */
  function SeverityOf(stored: Option<string>): string {
    if stored.None? || stored.value == "" then "info" else Lower(Strip(stored.value))
  }

  /** Every piece of evidence of the incident is a known vendor alert that is not critical. */
  predicate LegacyNoncritical(w: World, alerts: Alerts, id: nat)
    requires id < |w.incidents|
  {
    && w.incidents[id].category == "device_fault" && w.incidents[id].status != Resolved
    && (exists n | 0 <= n < |w.evidence| :: w.evidence[n].incident == id)
    && (forall n | 0 <= n < |w.evidence| && w.evidence[n].incident == id ::
          var ref := (w.incidents[id].cluster, w.evidence[n].ref);
          ref in alerts && SeverityOf(alerts[ref]) !in CRITICAL_SEVERITIES)
  }

  /** The candidates, chosen in `w0`, among the first `n` incidents have been closed. */
  function CloseUpTo(w0: World, alerts: Alerts, now: int, n: nat): (w: World)
    requires n <= |w0.incidents|
    ensures |w.incidents| == |w0.incidents|
    ensures forall i | n <= i < |w.incidents| :: w.incidents[i] == w0.incidents[i]
  {
    if n == 0 then w0
    else
      var w := CloseUpTo(w0, alerts, now, n - 1);
      if LegacyNoncritical(w0, alerts, n - 1) then PutStatus(w, n - 1, Resolved, Reconciled, now) else w
  }

  function Reconcile(w: World, alerts: Alerts, dryRun: bool, now: int): World {
    if dryRun then w else CloseUpTo(w, alerts, now, |w.incidents|)
  }

  // ------------------------------------------------------------ runs of requests

  datatype Step =
    | Observe(env: Envelope, category: string, maintenance: bool)
    | Edit(id: nat, req: UpdateRequest, actor: Actor, visible: bool, at: int)
    | Snapshot(run: string, incident: nat, on: bool)
    | Finish(run: string, answers: seq<ModelAnswer>, on: bool, at: int)
    | Repair(alerts: Alerts, dryRun: bool, at: int)

  function Apply(w: World, window: int, s: Step): World {
    match s
    case Observe(env, category, maintenance) =>
      var o := Correlate(w, window, env, category, maintenance);
      if o.Done? then o.world else w
    case Edit(id, req, actor, visible, at) =>
      var o := Update(w, id, req, actor, visible, at);
      if o.Updated? then o.world else w
    case Snapshot(run, incident, on) => StartReview(w, run, incident, on)
    case Finish(run, answers, on, at) => FinishReview(w, run, answers, on, at)
    case Repair(alerts, dryRun, at) => Reconcile(w, alerts, dryRun, at)
  }

  function RunAll(w: World, window: int, steps: seq<Step>): World
    decreases |steps|
  {
    if steps == [] then w else RunAll(Apply(w, window, steps[0]), window, steps[1..])
  }

  ghost predicate Reachable(w: World, window: int) {
    exists steps :: RunAll(EMPTY, window, steps) == w
  }
}
