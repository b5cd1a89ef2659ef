/** The AI review between its snapshot and its finish, with any other requests in between. */
module IncidentReview {
  import opened IncidentClustering
  import opened IncidentInvariants
  import opened Incidents
  import opened Wrappers

  /** The runs of `w` are still there in `v`, with the snapshots they were started with. */
  ghost predicate KeepsSnapshots(w: World, v: World) {
    forall k | k in w.runs :: k in v.runs && v.runs[k].(status := w.runs[k].status) == w.runs[k]
  }

  lemma CloseKeepsRuns(w: World, alerts: Alerts, now: int, n: nat)
    requires n <= |w.incidents|
    ensures CloseUpTo(w, alerts, now, n).runs == w.runs
  {}

  lemma SeverityKeepsRuns(w: World, id: nat, req: UpdateRequest)
    requires id < |w.incidents|
    ensures PutSeverity(w, id, req).runs == w.runs
  {}

  lemma StatusKeepsRuns(w: World, id: nat, target: Status, kind: EntryKind, now: int)
    requires id < |w.incidents|
    ensures PutStatus(w, id, target, kind, now).runs == w.runs
  {}

  lemma ClaimAndSilenceKeepRuns(w: World, id: nat, req: UpdateRequest, actor: Actor)
    requires id < |w.incidents|
    ensures PutSilence(PutClaim(w, id, req, actor), id, req).runs == w.runs
  {}

  lemma UpdateKeepsRuns(w: World, id: nat, req: UpdateRequest, actor: Actor, visible: bool, now: int)
    ensures var o := Update(w, id, req, actor, visible, now); o.Updated? ==> o.world.runs == w.runs
  {
    if id < |w.incidents| {
      var w1 := PutSeverity(w, id, req);
      var w2 := if req.status.Some? then PutStatus(w1, id, req.status.value, StatusChanged, now) else w1;
      SeverityKeepsRuns(w, id, req);
      if req.status.Some? { StatusKeepsRuns(w1, id, req.status.value, StatusChanged, now); }
      ClaimAndSilenceKeepRuns(w2, id, req, actor);
      hide PutSeverity, PutStatus, PutClaim, PutSilence, CanTransition;
    }
  }

  lemma ApplyKeepsSnapshots(w: World, window: int, s: Step)
    ensures KeepsSnapshots(w, Apply(w, window, s))
  {
    match s
    case Observe(_, _, _) =>
    case Edit(id, req, actor, visible, at) => UpdateKeepsRuns(w, id, req, actor, visible, at);
    case Snapshot(_, _, _) =>
    case Finish(_, _, _, _) =>
    case Repair(alerts, _, at) => CloseKeepsRuns(w, alerts, at, |w.incidents|);
  }

  lemma {:induction false} RunKeepsSnapshots(w: World, window: int, steps: seq<Step>)
    ensures KeepsSnapshots(w, RunAll(w, window, steps))
    decreases |steps|
  {
    if steps != [] {
      var v := Apply(w, window, steps[0]);
      ApplyKeepsSnapshots(w, window, steps[0]);
      RunKeepsSnapshots(v, window, steps[1..]);
    }
  }

  /**
   Whatever happens between snapshot and finish, a run still open is applied to the incident exactly
   when reviews are enabled, some answer is valid for the snapshot, and status and newest evidence
   are the snapshot's; otherwise the finish writes nothing but the run.
   */
  lemma ReviewIsAppliedIff(w: World, window: int, key: string, id: nat, steps: seq<Step>,
                           answers: seq<ModelAnswer>, enabled: bool, now: int)
    requires Inv(w) && id < |w.incidents| && w.incidents[id].status != Resolved && key !in w.runs
    requires var v := RunAll(StartReview(w, key, id, true), window, steps);
             key in v.runs && v.runs[key].status == Running
    ensures var v := RunAll(StartReview(w, key, id, true), window, steps);
            var f, a := FinishReview(v, key, answers, enabled, now), FirstValid(answers, w.incidents[id].status);
            && id < |v.incidents|
            && (f.timeline != v.timeline <==>
                  && enabled && a.Some?
                  && v.incidents[id].status == w.incidents[id].status
                  && v.incidents[id].lastEvidenceAt == w.incidents[id].lastEvidenceAt)
            && (if f.timeline != v.timeline then f == EndRun(Assess(v, id, a.value, now), key, Succeeded)
                else f == v.(runs := f.runs))
  {
    var u := StartReview(w, key, id, true);
    RunsKeepInv(w, u.runs);
    RunKeepsInv(u, window, steps);
    RunKeepsSnapshots(u, window, steps);
    var v := RunAll(u, window, steps);
    assert v.runs[key] == Run(id, Running, w.incidents[id].status, w.incidents[id].lastEvidenceAt);
    var a := FirstValid(answers, w.incidents[id].status);
    if a.Some? { AssessIsRecorded(v, id, a.value, now); }
  }

  lemma AssessIsRecorded(w: World, id: nat, a: Assessment, now: int)
    requires id < |w.incidents|
    ensures |Assess(w, id, a, now).timeline| > |w.timeline|
  {}

  /**
   A review of an incident whose status or newest evidence differs from what its snapshot saw
   writes nothing but its own run, whatever happened in between and whatever the models say.
   */
  lemma ChangedIncidentIsNotReviewed(w: World, window: int, key: string, id: nat, steps: seq<Step>,
                                     answers: seq<ModelAnswer>, enabled: bool, now: int)
    requires id < |w.incidents| && w.incidents[id].status != Resolved && key !in w.runs
    requires var v := RunAll(StartReview(w, key, id, true), window, steps);
             id < |v.incidents| && (v.incidents[id].status != w.incidents[id].status
                                    || v.incidents[id].lastEvidenceAt != w.incidents[id].lastEvidenceAt)
    ensures var v := RunAll(StartReview(w, key, id, true), window, steps);
            var f := FinishReview(v, key, answers, enabled, now);
            f == v.(runs := f.runs) && f.runs.Keys == v.runs.Keys
  {
    var u := StartReview(w, key, id, true);
    RunKeepsSnapshots(u, window, steps);
    assert key in u.runs;
  }

  /** Apart from the runs, a review changes at most the incident it was started for. */
  lemma ReviewTouchesOneIncident(w: World, key: string, answers: seq<ModelAnswer>, enabled: bool, now: int, i: nat)
    requires i < |w.incidents| && (key in w.runs ==> w.runs[key].incident != i)
    ensures FinishReview(w, key, answers, enabled, now).incidents[i] == w.incidents[i]
  {}

  // ------------------------------------------------------------ resolved and reopened unnoticed

  function Move(to: Status): Step {
    Edit(0, UpdateRequest(Some(to), None, None, None), Actor(1, false), true, 5)
  }

  lemma MoveOnce(w: World, window: int, to: Status)
    requires |w.incidents| == 1 && NextState(w.incidents[0].status) == Some(to)
    ensures var v := Apply(w, window, Move(to));
            && v.incidents == [w.incidents[0].(status := to, resolvedAt := if to == Resolved then Some(5) else None)]
            && v.cursors == w.cursors && v.evidence == w.evidence && v.runs == w.runs
  {}

  /** Four manual updates work an open incident through to `Resolved`. */
  const WORK_THROUGH := [Move(Acknowledged), Move(Investigating), Move(Mitigated), Move(Resolved)]

  lemma WorkedThrough(w: World, window: int)
    requires |w.incidents| == 1 && w.incidents[0].status == Open
    ensures var v := RunAll(w, window, WORK_THROUGH);
            && v.incidents == [w.incidents[0].(status := Resolved, resolvedAt := Some(5))]
            && v.cursors == w.cursors && v.evidence == w.evidence && v.runs == w.runs
  {
    var s := WORK_THROUGH;
    MoveOnce(w, window, Acknowledged);
    var w1 := Apply(w, window, s[0]);
    MoveOnce(w1, window, Investigating);
    var w2 := Apply(w1, window, s[1]);
    MoveOnce(w2, window, Mitigated);
    var w3 := Apply(w2, window, s[2]);
    MoveOnce(w3, window, Resolved);
    var w4 := Apply(w3, window, s[3]);
    assert RunAll(w, window, s) == RunAll(w1, window, s[1..]);
    assert RunAll(w1, window, s[1..]) == RunAll(w2, window, s[2..]) by { assert s[1..][1..] == s[2..]; }
    assert RunAll(w2, window, s[2..]) == RunAll(w3, window, s[3..]) by { assert s[2..][1..] == s[3..]; }
    assert RunAll(w3, window, s[3..]) == RunAll(w4, window, []) by { assert s[3..][1..] == []; }
  }

  lemma {:induction false} RunAllConcat(w: World, window: int, s: seq<Step>, t: seq<Step>)
    ensures RunAll(w, window, s + t) == RunAll(RunAll(w, window, s), window, t)
    decreases |s|
  {
    if s == [] {
      assert s + t == t;
    } else {
      assert (s + t)[1..] == s[1..] + t;
      RunAllConcat(Apply(w, window, s[0]), window, s[1..], t);
    }
  }

  /** One observation, and a review that took its snapshot. */
  const UNDER_REVIEW := [Observe(At(0, "a"), "device_fault", false), Snapshot("review", 0, true)]

  /** Evidence older than the newest, within the window. */
  const REOPENING := [Observe(At(-1, "b"), "device_fault", false)]

  const ANSWER := Answer(Assessment(Some(Acknowledged), Low, false))

  lemma UnderReview(window: int)
    ensures var w := RunAll(EMPTY, window, UNDER_REVIEW);
            && w.incidents == [NewIncident(At(0, "a"), "device_fault")]
            && w.evidence == [Evidence(0, "vendor", "a", 0)]
            && CursorOf(w, CorrelationKey(SOME_ASSET, "device_fault")) == Cursor(Some(0), Some(0))
            && w.runs == map["review" := Run(0, Running, Open, 0)]
  {
    FirstObservation(window);
    var s := UNDER_REVIEW;
    var first := Apply(EMPTY, window, s[0]);
    assert first.runs == map[];
    assert RunAll(EMPTY, window, s) == RunAll(first, window, s[1..]);
    assert s[1..] == [s[1]] && [s[1]][1..] == [];
    assert RunAll(first, window, [s[1]]) == RunAll(Apply(first, window, s[1]), window, []);
  }

  lemma Reopened(w: World, window: int)
    requires window >= 1 && |w.incidents| == 1 && w.incidents[0].status == Resolved
    requires w.incidents[0].lastEvidenceAt == 0 && FindEvidence(w.evidence, "vendor", "b").None?
    requires CursorOf(w, CorrelationKey(SOME_ASSET, "device_fault")) == Cursor(Some(0), Some(0))
    ensures var v := RunAll(w, window, REOPENING);
            && |v.incidents| == 1 && v.runs == w.runs && v.incidents[0].status == Open
            && v.incidents[0].lastEvidenceAt == 0 && v.incidents[0].aiUrgency == w.incidents[0].aiUrgency
  {
    assert "device_fault" == CATEGORIES[1];
    assert Target(w, window, CorrelationKey(SOME_ASSET, "device_fault"), -1) == Some(0);
    var s := REOPENING;
    assert RunAll(w, window, s) == RunAll(Apply(w, window, s[0]), window, s[1..]);
  }

  lemma StaleAnswerIsApplied(v: World, window: int)
    requires |v.incidents| == 1 && v.incidents[0].status == Open && v.incidents[0].lastEvidenceAt == 0
    requires v.runs == map["review" := Run(0, Running, Open, 0)]
    ensures var f := Apply(v, window, Finish("review", [ANSWER], true, 9));
            && |f.incidents| == 1 && f.incidents[0].status == Acknowledged && f.incidents[0].aiUrgency == Some(Low)
            && f.runs == map["review" := Run(0, Succeeded, Open, 0)]
  {}

  /**
   The superseded check compares the current row only. In a run from empty tables an incident is
   resolved and reopened by late evidence while it is under review, and the review is applied to it.
   */
  lemma RoundTripIsUnnoticed(window: int)
    requires window >= 1
    ensures var resolved := RunAll(EMPTY, window, UNDER_REVIEW + WORK_THROUGH);
            var reopened := RunAll(EMPTY, window, UNDER_REVIEW + WORK_THROUGH + REOPENING);
            var f := Apply(reopened, window, Finish("review", [ANSWER], true, 9));
            && |resolved.incidents| == |reopened.incidents| == |f.incidents| == 1
            && resolved.incidents[0].status == Resolved && reopened.incidents[0].status == Open
            && reopened.incidents[0].aiUrgency == None
            && f.incidents[0].status == Acknowledged && f.incidents[0].aiUrgency == Some(Low)
            && f.runs == map["review" := Run(0, Succeeded, Open, 0)]
  {
    hide RunAll, Apply;
    RunAllConcat(EMPTY, window, UNDER_REVIEW, WORK_THROUGH);
    RunAllConcat(EMPTY, window, UNDER_REVIEW + WORK_THROUGH, REOPENING);
    UnderReview(window);
    var w := RunAll(EMPTY, window, UNDER_REVIEW);
    WorkedThrough(w, window);
    var resolved := RunAll(w, window, WORK_THROUGH);
    Reopened(resolved, window);
    StaleAnswerIsApplied(RunAll(resolved, window, REOPENING), window);
  }
}
