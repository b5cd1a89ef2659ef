/**
 The confirmation protocol as a step system: preparers, deciders, expiry and the turn's own
 checkpoints run in any order, and Redis replies may be lost before or after they took effect.
 */
module QuotaProtocol {

  import opened QuotaConfirmation
  import opened Visibility
  import opened Wrappers

  datatype Record = Record(id: string, user: int, conversation: int, audit: int, tool: string, arguments: string,
                           preview: map<string, string>, expiresAt: int)

  datatype Caller = Caller(user: int, superAdmin: bool, conversation: int, id: string, decision: Decision)

  datatype Answer = NotAdmin | Unavailable | Conflict | NotOwner | AuditMissing | ToolGone | Cancelled
      | Confirmed(result: Outcome)

  /** One call of `execute_tool` on behalf of a confirmation. */
  datatype Execution = Execution(id: string, tool: string, arguments: string, user: int, conversation: int)

  /** What the deciders share. */
  datatype Shared = Shared(redis: map<string, Record>, audits: map<int, Audit>, executions: seq<Execution>)

  /** A Redis command is answered, or its reply is lost before or after it took effect. */
  datatype Reply = Answered | LostBefore | LostAfter

  // ------------------------------------------------------------ the atomic parts

  /** `prepare_confirmation`; an audit whose detail is no list raises after the record was stored. */
  function Prepare(s: Shared, r: Record, reply: Reply): Shared {
    if r.tool !in QUOTA_TOOLS || reply.LostBefore? then s
    else
      var stored := s.(redis := s.redis[r.id := r]);
      if reply.LostAfter? || r.audit !in s.audits || s.audits[r.audit].detail.NotAList? then stored
      else stored.(audits := s.audits[r.audit := Prepared(s.audits[r.audit], r.id, r.preview, r.expiresAt)])
  }

  function Settled(a: Audit, c: Caller, r: Record, result: Outcome): Audit {
    if c.decision.Cancel? then Complete(a, c.id, r.preview, Cancel, "cancelled", None)
    else Complete(a, c.id, r.preview, Confirm, if result.ok == Some(true) then "succeeded" else "failed", Some(result))
  }

  /** What follows a won record; the completion of a vanished tool is rolled back with its request. */
  function Settle(s: Shared, c: Caller, r: Record, registered: bool, result: Outcome): (Shared, Answer) {
    if r.user != c.user || r.conversation != c.conversation then (s, NotOwner)
    else if r.audit !in s.audits then (s, AuditMissing)
    else if c.decision.Confirm? && (!registered || r.tool !in QUOTA_TOOLS) then (s, ToolGone)
    else
      var audits := s.audits[r.audit := Settled(s.audits[r.audit], c, r, result)];
      if c.decision.Cancel? then (s.(audits := audits), Cancelled)
      else
        var e := Execution(c.id, r.tool, r.arguments, c.user, c.conversation);
        (Shared(s.redis, audits, s.executions + [e]), Confirmed(result))
  }

  // ------------------------------------------------------------ interleaved requests

  datatype Phase = Opened | Read(raw: Record) | Won(raw: Record) | Done(answer: Answer)

  datatype Request = Request(caller: Caller, phase: Phase)

  /** Besides the shared state: every record ever stored, the requests, and who consumed what. */
  datatype World = World(shared: Shared, issued: map<string, Record>, requests: map<int, Request>,
      consumed: map<string, int>)

  datatype Step =
    | PrepareStep(record: Record, reply: Reply)
    | Persist(audit: int, trace: seq<Entry>)
    | Checkpoint(audit: int, status: string, marker: Marker, trace: seq<Entry>)
    | Expire(id: string)
    | Open(request: int, caller: Caller)
    | Get(request: int, answered: bool)
    | Consume(request: int, reply: Reply)
    | SettleStep(request: int, registered: bool, result: Outcome)

  function InPhase(w: World, q: int, phase: Phase): World
    requires q in w.requests
  {
    w.(requests := w.requests[q := Request(w.requests[q].caller, phase)])
  }

  function ApplyGet(w: World, q: int, answered: bool): World
    requires q in w.requests
  {
    var id := w.requests[q].caller.id;
    InPhase(w, q, if !answered then Done(Unavailable)
                  else if id !in w.shared.redis then Done(Conflict)
                  else Read(w.shared.redis[id]))
  }

  function ApplyConsume(w: World, q: int, reply: Reply): World
    requires q in w.requests && w.requests[q].phase.Read?
  {
    var id, raw := w.requests[q].caller.id, w.requests[q].phase.raw;
    if reply.LostBefore? then InPhase(w, q, Done(Unavailable))
    else if id in w.shared.redis && w.shared.redis[id] == raw then
      InPhase(w, q, if reply.Answered? then Won(raw) else Done(Unavailable))
      .(shared := w.shared.(redis := w.shared.redis - {id}), consumed := w.consumed[id := q])
    else InPhase(w, q, if reply.Answered? then Done(Conflict) else Done(Unavailable))
  }

  function ApplySettle(w: World, q: int, registered: bool, result: Outcome): World
    requires q in w.requests && w.requests[q].phase.Won?
  {
    var (shared, answer) := Settle(w.shared, w.requests[q].caller, w.requests[q].phase.raw, registered, result);
    InPhase(w, q, Done(answer)).(shared := shared)
  }

  /** A step whose request is not in the right phase, or whose identifier is not fresh, is skipped. */
  function Apply(w: World, step: Step): World {
    match step
    case PrepareStep(r, reply) =>
      if r.id in w.issued then w
      else
        var shared := Prepare(w.shared, r, reply);
        w.(shared := shared, issued := if r.id in shared.redis then w.issued[r.id := r] else w.issued)
    case Persist(audit, trace) =>
      if audit !in w.shared.audits then w
      else w.(shared := w.shared.(audits := w.shared.audits[audit := Persisted(w.shared.audits[audit], trace)]))
    case Checkpoint(audit, status, marker, trace) =>
      w.(shared := w.shared.(audits := w.shared.audits[audit := Checkpointed(status, marker, trace)]))
    case Expire(id) =>
      w.(shared := w.shared.(redis := w.shared.redis - {id}))
    case Open(q, caller) =>
      if q in w.requests then w
      else w.(requests := w.requests[q := Request(caller, if caller.superAdmin then Opened else Done(NotAdmin))])
    case Get(q, answered) =>
      if q in w.requests && w.requests[q].phase.Opened? then ApplyGet(w, q, answered) else w
    case Consume(q, reply) =>
      if q in w.requests && w.requests[q].phase.Read? then ApplyConsume(w, q, reply) else w
    case SettleStep(q, registered, result) =>
      if q in w.requests && w.requests[q].phase.Won? then ApplySettle(w, q, registered, result) else w
  }

  function RunAll(w: World, steps: seq<Step>): World
    decreases |steps|
  {
    if steps == [] then w else Apply(RunAll(w, steps[..|steps| - 1]), steps[|steps| - 1])
  }

  ghost predicate Initial(w: World) {
    w.shared.redis == map[] && w.shared.executions == [] && w.issued == map[] && w.requests == map[]
        && w.consumed == map[]
  }

  // ------------------------------------------------------------ the invariant

  /** A live record is the issued one and nobody has consumed it. */
  ghost predicate LiveIsIssued(w: World) {
    forall id | id in w.shared.redis :: id in w.issued && w.shared.redis[id] == w.issued[id] && id !in w.consumed
  }

  /** A request holds only the record issued under its own identifier. */
  ghost predicate HoldsIssued(w: World, q: int)
    requires q in w.requests
  {
    var r := w.requests[q];
    && (r.phase.Opened? ==> r.caller.superAdmin)
    && (r.phase.Read? || r.phase.Won? ==>
          r.caller.superAdmin && r.caller.id in w.issued && r.phase.raw == w.issued[r.caller.id])
    && (r.phase.Won? ==> r.caller.id in w.consumed && w.consumed[r.caller.id] == q && NotExecuted(w, r.caller.id))
  }

  ghost predicate RequestsHold(w: World) {
    forall q | q in w.requests :: HoldsIssued(w, q)
  }

  ghost predicate NotExecuted(w: World, id: string) {
    forall k | 0 <= k < |w.shared.executions| :: w.shared.executions[k].id != id
  }

  /** The consumer of an identifier is a request for it that has won or is over. */
  ghost predicate ConsumersHold(w: World) {
    forall id | id in w.consumed ::
      && id in w.issued && w.consumed[id] in w.requests
      && w.requests[w.consumed[id]].caller.id == id
      && (w.requests[w.consumed[id]].phase.Won? || w.requests[w.consumed[id]].phase.Done?)
  }

  /** An execution used exactly the stored tool and arguments, for the stored user and conversation. */
  ghost predicate Authorised(w: World, e: Execution) {
    && e.id in w.issued && e.id in w.consumed && w.consumed[e.id] in w.requests
    && var r, c := w.issued[e.id], w.requests[w.consumed[e.id]].caller;
       && e.tool == r.tool && e.tool in QUOTA_TOOLS && e.arguments == r.arguments
       && e.user == r.user == c.user && e.conversation == r.conversation == c.conversation
       && c.superAdmin && c.id == e.id && c.decision == Confirm
  }

  ghost predicate ExecutionsHold(w: World) {
    forall k | 0 <= k < |w.shared.executions| :: Authorised(w, w.shared.executions[k])
  }

  ghost predicate AtMostOnce(w: World) {
    forall i, j | 0 <= i < j < |w.shared.executions| :: w.shared.executions[i].id != w.shared.executions[j].id
  }

  ghost predicate Inv(w: World) {
    LiveIsIssued(w) && RequestsHold(w) && ConsumersHold(w) && ExecutionsHold(w) && AtMostOnce(w)
  }

  lemma PrepareKeepsInv(w: World, r: Record, reply: Reply)
    requires Inv(w)
    ensures Inv(Apply(w, PrepareStep(r, reply)))
  {
    var w' := Apply(w, PrepareStep(r, reply));
    if r.id !in w.issued {
      assert r.id !in w.consumed && r.id !in w.shared.redis;
      assert w'.shared.executions == w.shared.executions;
      forall q | q in w'.requests ensures HoldsIssued(w', q) { assert HoldsIssued(w, q); }
      forall k | 0 <= k < |w'.shared.executions| ensures Authorised(w', w'.shared.executions[k]) {
        assert Authorised(w, w.shared.executions[k]);
      }
    }
  }

  /** Opening a request or ending one that has not won changes no other part of the state. */
  lemma PhaseKeepsInv(w: World, w': World, q: int)
    requires Inv(w)
    requires w'.issued == w.issued && w'.consumed == w.consumed && w'.shared.executions == w.shared.executions
    requires forall id | id in w'.shared.redis :: id in w.shared.redis && w'.shared.redis[id] == w.shared.redis[id]
    requires q in w'.requests && w'.requests == w.requests[q := w'.requests[q]]
    requires q in w.requests ==>
               && w.requests[q].caller == w'.requests[q].caller
               && (w.requests[q].phase.Opened? || w.requests[q].phase.Read?)
    requires w'.requests[q].phase.Done? || HoldsIssued(w', q)
    ensures Inv(w')
  {
    assert q !in w.requests || !w.requests[q].phase.Won?;
    forall id | id in w.consumed ensures w.consumed[id] != q { }
    forall p | p in w'.requests ensures HoldsIssued(w', p) {
      if p != q { assert HoldsIssued(w, p); }
    }
    forall k | 0 <= k < |w'.shared.executions| ensures Authorised(w', w'.shared.executions[k]) {
      assert Authorised(w, w.shared.executions[k]);
    }
  }

  lemma GetKeepsInv(w: World, q: int, answered: bool)
    requires Inv(w) && q in w.requests && w.requests[q].phase.Opened?
    ensures Inv(ApplyGet(w, q, answered))
  {
    assert HoldsIssued(w, q);
    PhaseKeepsInv(w, ApplyGet(w, q, answered), q);
  }

  lemma ConsumeKeepsInv(w: World, q: int, reply: Reply)
    requires Inv(w) && q in w.requests && w.requests[q].phase.Read?
    ensures Inv(ApplyConsume(w, q, reply))
  {
    var w', id := ApplyConsume(w, q, reply), w.requests[q].caller.id;
    assert HoldsIssued(w, q);
    if w'.consumed == w.consumed {
      PhaseKeepsInv(w, w', q);
    } else {
      assert id !in w.consumed;
      forall k | 0 <= k < |w.shared.executions| ensures Authorised(w', w'.shared.executions[k]) {
        assert Authorised(w, w.shared.executions[k]);
      }
      forall p | p in w'.requests ensures HoldsIssued(w', p) {
        assert HoldsIssued(w, p);
      }
    }
  }

  lemma SettleKeepsInv(w: World, q: int, registered: bool, result: Outcome)
    requires Inv(w) && q in w.requests && w.requests[q].phase.Won?
    ensures Inv(ApplySettle(w, q, registered, result))
  {
    var w' := ApplySettle(w, q, registered, result);
    assert HoldsIssued(w, q);
    var n := |w.shared.executions|;
    forall p | p in w'.requests ensures HoldsIssued(w', p) {
      assert HoldsIssued(w, p);
    }
    forall k | 0 <= k < |w'.shared.executions| ensures Authorised(w', w'.shared.executions[k]) {
      if k < n { assert Authorised(w, w.shared.executions[k]); }
    }
  }

  lemma QuietKeepsInv(w: World, w': World)
    requires Inv(w)
    requires w'.issued == w.issued && w'.consumed == w.consumed && w'.requests == w.requests
    requires w'.shared.executions == w.shared.executions
    requires forall id | id in w'.shared.redis :: id in w.shared.redis && w'.shared.redis[id] == w.shared.redis[id]
    ensures Inv(w')
  {
    forall p | p in w'.requests ensures HoldsIssued(w', p) {
      assert HoldsIssued(w, p);
    }
    forall k | 0 <= k < |w'.shared.executions| ensures Authorised(w', w'.shared.executions[k]) {
      assert Authorised(w, w.shared.executions[k]);
    }
  }

  lemma ApplyKeepsInv(w: World, step: Step)
    requires Inv(w)
    ensures Inv(Apply(w, step))
  {
    match step
    case PrepareStep(r, reply) => PrepareKeepsInv(w, r, reply);
    case Persist(_, _) => QuietKeepsInv(w, Apply(w, step));
    case Checkpoint(_, _, _, _) => QuietKeepsInv(w, Apply(w, step));
    case Expire(_) => QuietKeepsInv(w, Apply(w, step));
    case Open(q, _) => if q !in w.requests { PhaseKeepsInv(w, Apply(w, step), q); }
    case Get(q, answered) =>
      if q in w.requests && w.requests[q].phase.Opened? { GetKeepsInv(w, q, answered); }
    case Consume(q, reply) =>
      if q in w.requests && w.requests[q].phase.Read? { ConsumeKeepsInv(w, q, reply); }
    case SettleStep(q, registered, result) =>
      if q in w.requests && w.requests[q].phase.Won? { SettleKeepsInv(w, q, registered, result); }
  }

  lemma {:induction false} RunKeepsInv(w: World, steps: seq<Step>)
    requires Inv(w)
    ensures Inv(RunAll(w, steps))
  {
    if steps != [] {
      RunKeepsInv(w, steps[..|steps| - 1]);
      ApplyKeepsInv(RunAll(w, steps[..|steps| - 1]), steps[|steps| - 1]);
    }
  }

  /**
   Whatever the interleaving: no confirmation runs its tool twice, and each run used the stored
   tool and arguments on behalf of the super admin and conversation the record was issued for.
   */
  lemma EveryRunIsSafe(start: World, steps: seq<Step>)
    requires Initial(start)
    ensures var w := RunAll(start, steps); AtMostOnce(w) && ExecutionsHold(w) && ConsumersHold(w)
  {
    RunKeepsInv(start, steps);
  }

  // ------------------------------------------------------------ consumed at most once

  lemma ApplyKeepsConsumer(w: World, step: Step, id: string)
    requires LiveIsIssued(w) && id in w.consumed
    ensures id in Apply(w, step).consumed && Apply(w, step).consumed[id] == w.consumed[id]
  {
    hide Prepare, Settle;
    assert id !in w.shared.redis;
  }

  /** Once consumed, an identifier keeps its consumer: no later request wins it. */
  lemma {:induction false} ConsumerNeverChanges(w: World, steps: seq<Step>, id: string)
    requires Inv(w) && id in w.consumed
    ensures id in RunAll(w, steps).consumed && RunAll(w, steps).consumed[id] == w.consumed[id]
  {
    hide Apply;
    if steps != [] {
      ConsumerNeverChanges(w, steps[..|steps| - 1], id);
      RunKeepsInv(w, steps[..|steps| - 1]);
      ApplyKeepsConsumer(RunAll(w, steps[..|steps| - 1]), steps[|steps| - 1], id);
    }
  }

  /** Taken by a request that ended without running the tool. */
  ghost predicate Burned(w: World, id: string) {
    && id in w.consumed && w.consumed[id] in w.requests && w.requests[w.consumed[id]].phase.Done?
    && NotExecuted(w, id)
  }

  lemma ApplyKeepsBurned(w: World, step: Step, id: string)
    requires Inv(w) && Burned(w, id)
    ensures Burned(Apply(w, step), id)
  {
    assert id !in w.shared.redis;
    if step.SettleStep? && step.request in w.requests && w.requests[step.request].phase.Won? {
      assert HoldsIssued(w, step.request);
    }
  }

  /** The wrong user or conversation, or a lost reply, uses the confirmation up: it never runs. */
  lemma {:induction false} BurnedStaysBurned(w: World, steps: seq<Step>, id: string)
    requires Inv(w) && Burned(w, id)
    ensures Burned(RunAll(w, steps), id)
  {
    if steps != [] {
      BurnedStaysBurned(w, steps[..|steps| - 1], id);
      RunKeepsInv(w, steps[..|steps| - 1]);
      ApplyKeepsBurned(RunAll(w, steps[..|steps| - 1]), steps[|steps| - 1], id);
    }
  }

  /** A won request burns its confirmation exactly when it ends in anything but a confirmed run. */
  lemma SettlingBurnsIff(w: World, q: int, registered: bool, result: Outcome)
    requires Inv(w) && q in w.requests && w.requests[q].phase.Won?
    ensures var w', c, r := ApplySettle(w, q, registered, result), w.requests[q].caller, w.requests[q].phase.raw;
            Burned(w', c.id) <==>
            r.user != c.user || r.conversation != c.conversation || r.audit !in w.shared.audits
            || c.decision.Cancel? || !registered || r.tool !in QUOTA_TOOLS
  {
    var w' := ApplySettle(w, q, registered, result);
    assert HoldsIssued(w, q);
    var n := |w.shared.executions|;
    if |w'.shared.executions| > n {
      assert w'.shared.executions[n].id == w.requests[q].caller.id;
    } else {
      assert w'.shared.executions == w.shared.executions;
    }
  }

  // ------------------------------------------------------------ what a reload shows afterwards

  /** Whether a step writes the audit. */
  predicate Writes(w: World, step: Step, audit: int) {
    match step
    case PrepareStep(r, _) => r.audit == audit
    case Persist(a, _) => a == audit
    case Checkpoint(a, _, _, _) => a == audit
    case SettleStep(q, _, _) => q in w.requests && w.requests[q].phase.Won? && w.requests[q].phase.raw.audit == audit
    case _ => false
  }

  /** The turn rewrites the audit from its own trace, with whatever status it ends. */
  ghost predicate Rewrites(step: Step, audit: int) {
    match step
    case Persist(a, trace) => a == audit && OwnTrace(trace)
    case Checkpoint(a, _, _, trace) => a == audit && OwnTrace(trace)
    case _ => false
  }

  /** Later steps leave the audit alone, but for those of its own turn. */
  ghost predicate OnlyRewrites(w: World, steps: seq<Step>, audit: int) {
    forall k | 0 <= k < |steps| && Writes(RunAll(w, steps[..k]), steps[k], audit) :: Rewrites(steps[k], audit)
  }

  ghost predicate Undisturbed(steps: seq<Step>, audit: int) {
    forall k | 0 <= k < |steps| :: !Rewrites(steps[k], audit)
  }

  lemma ApplyKeepsAudit(w: World, step: Step, audit: int)
    requires audit in w.shared.audits
    ensures audit in Apply(w, step).shared.audits
    ensures !Writes(w, step, audit) ==> Apply(w, step).shared.audits[audit] == w.shared.audits[audit]
    ensures step.Expire? || step.Open? || step.Get? || step.Consume? ==> !Writes(w, step, audit)
  {}

  lemma RewritingLosesDecision(w: World, step: Step, audit: int)
    requires audit in w.shared.audits && Rewrites(step, audit)
    ensures Writes(w, step, audit) && CompletedFrom(Apply(w, step).shared.audits[audit]) == None
  {
    OwnTraceShowsNoDecision(step.trace);
  }

  /** What the audit holds afterwards: the same, or after a rewriting no decision. */
  ghost predicate KeptOrLost(before: Audit, after: Audit, kept: bool) {
    if kept then after == before else CompletedFrom(after) == None
  }

  lemma {:induction false} LaterAudit(w: World, steps: seq<Step>, audit: int)
    requires audit in w.shared.audits && OnlyRewrites(w, steps, audit)
    ensures audit in RunAll(w, steps).shared.audits
    ensures KeptOrLost(w.shared.audits[audit], RunAll(w, steps).shared.audits[audit], Undisturbed(steps, audit))
  {
    hide Apply, Writes, Rewrites, CompletedFrom;
    if steps != [] {
      var n := |steps| - 1;
      var front, last := steps[..n], steps[n];
      forall k | 0 <= k < n && Writes(RunAll(w, front[..k]), front[k], audit)
        ensures Rewrites(front[k], audit)
      {
        assert front[..k] == steps[..k];
        assert Writes(RunAll(w, steps[..k]), steps[k], audit);
      }
      LaterAudit(w, front, audit);
      ApplyKeepsAudit(RunAll(w, front), last, audit);
      assert steps == front + [last];
      if Rewrites(last, audit) { RewritingLosesDecision(RunAll(w, front), last, audit); }
    }
  }

  /**
   After a decision was recorded, a reload keeps showing exactly that decision and its safe result
   if and only if the turn does not rewrite its audit afterwards, whatever status it ends with;
   once it does, no decision is shown.
   */
  lemma DecisionIsKeptIff(w: World, q: int, registered: bool, result: Outcome, later: seq<Step>)
    requires q in w.requests && w.requests[q].phase.Won?
    requires var c, r := w.requests[q].caller, w.requests[q].phase.raw;
             && r.user == c.user && r.conversation == c.conversation && r.audit in w.shared.audits
             && (c.decision.Cancel? || (registered && r.tool in QUOTA_TOOLS)) && Readable(c.decision, Some(result))
    requires OnlyRewrites(ApplySettle(w, q, registered, result), later, w.requests[q].phase.raw.audit)
    ensures var c, r := w.requests[q].caller, w.requests[q].phase.raw;
            var a := RunAll(ApplySettle(w, q, registered, result), later).shared.audits;
            var decided := Some(Decided(c.id, r.preview, c.decision, Some(result)));
            && r.audit in a
            && (CompletedFrom(a[r.audit]) == decided <==> Undisturbed(later, r.audit))
            && (CompletedFrom(a[r.audit]) == None <==> !Undisturbed(later, r.audit))
  {
    var c, r := w.requests[q].caller, w.requests[q].phase.raw;
    SettledReadsBack(w.shared.audits[r.audit], c, r, result);
    LaterAudit(ApplySettle(w, q, registered, result), later, r.audit);
  }

  /** A settled audit ends as cancelled, succeeded or failed, and its last entry says so too. */
  lemma SettledStatus(a: Audit, c: Caller, r: Record, result: Outcome)
    ensures var s := Settled(a, c, r, result);
            && s.status == (if c.decision.Cancel? then "cancelled"
                            else if result.ok == Some(true) then "succeeded" else "failed")
            && s.detail.List? && s.detail.entries != []
            && var e := s.detail.entries[|s.detail.entries| - 1];
               e.Entry? && e.status == s.status && e.card.confirmation == Some(c.id)
               && e.decision == Some(if c.decision.Cancel? then "cancel" else "confirm")
  {}

  lemma SettledReadsBack(a: Audit, c: Caller, r: Record, result: Outcome)
    requires Readable(c.decision, Some(result))
    ensures CompletedFrom(Settled(a, c, r, result)) == Some(Decided(c.id, r.preview, c.decision, Some(result)))
    ensures AuditScope(Settled(a, c, r, result)) == AuditScope(a)
  {
    var status := if c.decision.Cancel? then "cancelled" else if result.ok == Some(true) then "succeeded" else "failed";
    var given := if c.decision.Cancel? then None else Some(result);
    CompletionKeepsScope(a, c.id, r.preview, c.decision, status, given);
    CompletionReadsBack(a, c.id, r.preview, c.decision, status, given);
    AppendedIsLast(Entries(a.detail), CompletionEntry(a, c.id, r.preview, c.decision, status, given));
  }

  /**
   A rewriting that awaits the decision again offers the confirmation once more, and every decider
   that has not won is refused; one that ends the turn otherwise shows no card at all.
   */
  lemma StaleCardIsRefused(w: World, q: int, r: Record, before: seq<Entry>, own: Marker, marker: Marker, now: int)
    requires Inv(w) && r.id in w.consumed && now < r.expiresAt && OwnTrace(before)
    requires q in w.requests && w.requests[q].caller.id == r.id
    ensures var trace := before + [CallEntry(r.id, r.preview, r.expiresAt, true, own)];
            && Shown(Checkpointed(AWAITING, marker, trace), now)
               == Some(Pending(r.id, r.expiresAt, r.expiresAt - now, Whitelist(r.preview)))
            && (forall status | status != AWAITING :: Shown(Checkpointed(status, marker, trace), now) == None)
    ensures w.requests[q].phase.Opened? ==> ApplyGet(w, q, true).requests[q].phase == Done(Conflict)
    ensures w.requests[q].phase.Read? ==> ApplyConsume(w, q, Answered).requests[q].phase == Done(Conflict)
  {
    var trace := before + [CallEntry(r.id, r.preview, r.expiresAt, true, own)];
    TraceShowsCard(before, r.id, r.preview, r.expiresAt, true, own, now);
    CallEntryIsOwn(r.id, r.preview, r.expiresAt, true, own);
    OwnTraceShowsNoDecision(trace);
  }
}
