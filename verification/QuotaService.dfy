/**
 The confirmation service with its Redis keys and audits updated in place, each operation proved
 against the specification functions, and a whole decision shown to be a run of the protocol.
 */
module QuotaService {

  import opened QuotaConfirmation
  import opened QuotaProtocol
  import opened Visibility
  import opened Wrappers

  datatype Outage = Outage(getAnswered: bool, taken: bool, reply: Reply)

  /** A decision from request to answer; `taken` is another decider or expiry between get and delete. */
  function Decide(s: Shared, c: Caller, o: Outage, registered: bool, result: Outcome): (Shared, Answer) {
    if !c.superAdmin then (s, NotAdmin)
    else if !o.getAnswered then (s, Unavailable)
    else
      var left := if o.taken then s.(redis := s.redis - {c.id}) else s;
      var without := s.(redis := s.redis - {c.id});
      if c.id !in s.redis then (left, Conflict)
      else if !o.reply.Answered? then (if o.reply.LostAfter? then without else left, Unavailable)
      else if o.taken then (left, Conflict)
      else Settle(without, c, s.redis[c.id], registered, result)
  }

  function AfterGet(w: World, q: int, c: Caller, o: Outage): World {
    var got := Apply(Apply(w, Open(q, c)), Get(q, o.getAnswered));
    if o.taken && c.superAdmin && o.getAnswered then Apply(got, Expire(c.id)) else got
  }

  /** A decision is the protocol's four steps of one request, with at most one loss in between. */
  lemma DecideIsProtocolRun(w: World, q: int, c: Caller, o: Outage, registered: bool, result: Outcome)
    requires q !in w.requests
    ensures var done := Apply(Apply(AfterGet(w, q, c, o), Consume(q, o.reply)), SettleStep(q, registered, result));
            var (shared, answer) := Decide(w.shared, c, o, registered, result);
            done.shared == shared && q in done.requests && done.requests[q] == Request(c, Done(answer))
  {
    var before := AfterGet(w, q, c, o);
    if c.superAdmin && o.getAnswered {
      assert before.requests[q] == Request(c, if c.id in w.shared.redis then Read(w.shared.redis[c.id])
          else Done(Conflict));
    }
  }

  class ConfirmationService {
    var redis: map<string, Record>
    var audits: map<int, Audit>
    var executions: seq<Execution>

    constructor (audits: map<int, Audit>)
      ensures State() == Shared(map[], audits, [])
    {
      redis, this.audits, executions := map[], audits, [];
    }

    ghost function State(): Shared
      reads this
    {
      Shared(redis, audits, executions)
    }

    /** The fresh identifier and the preview come from the outside; a raise leaves the audit as it was. */
    method PrepareConfirmation(r: Record, reply: Reply) returns (ok: bool)
      modifies this
      ensures State() == Prepare(old(State()), r, reply)
      ensures ok ==> r.id in redis && redis[r.id] == r && r.audit in audits
      ensures ok ==> forall before, own, now | now < r.expiresAt ::
                Shown(Persisted(audits[r.audit], before + [CallEntry(r.id, r.preview, r.expiresAt, true, own)]), now)
                == Some(Pending(r.id, r.expiresAt, r.expiresAt - now, Whitelist(r.preview)))
      ensures ok <==> r.tool in QUOTA_TOOLS && reply.Answered? && r.audit in old(audits)
                      && old(audits)[r.audit].detail.List?
    {
      if r.tool !in QUOTA_TOOLS {
        return false;
      }
      if !reply.LostBefore? {
        redis := redis[r.id := r];
      }
      if !reply.Answered? || r.audit !in audits || audits[r.audit].detail.NotAList? {
        return false;
      }
      forall before, own, now | now < r.expiresAt
        ensures LastPending(before + [CallEntry(r.id, r.preview, r.expiresAt, true, own)], now)
                == Some(Pending(r.id, r.expiresAt, r.expiresAt - now, Whitelist(r.preview)))
      {
        TraceShowsCard(before, r.id, r.preview, r.expiresAt, true, own, now);
      }
      audits := audits[r.audit := Prepared(audits[r.audit], r.id, r.preview, r.expiresAt)];
      return true;
    }

    /** `_audit_visibility`: the marker closest to the end of the trace, or the response's. */
    static method FindMarker(a: Audit) returns (m: Option<Marker>)
      ensures m == AuditMarker(a)
    {
      var entries := Entries(a.detail);
      var i := |entries|;
      assert entries[..i] == entries;
      while i > 0
        invariant 0 <= i <= |entries| && LastMarker(entries) == LastMarker(entries[..i])
      {
        i := i - 1;
        assert entries[..i + 1][..i] == entries[..i];
        if entries[i].Entry? && entries[i].visibility.Some? {
          return entries[i].visibility;
        }
      }
      return a.responseVisibility;
    }

    /** `completed_confirmation_from_audit`, scanning from the end. */
    static method CompletedFromAudit(a: Audit) returns (view: Option<View>)
      ensures view == CompletedFrom(a)
    {
      if a.status !in TERMINAL || a.detail.NotAList? {
        return None;
      }
      var i := |a.detail.entries|;
      assert a.detail.entries[..i] == a.detail.entries;
      while i > 0
        invariant 0 <= i <= |a.detail.entries|
            && LastCompleted(a.detail.entries) == LastCompleted(a.detail.entries[..i])
      {
        i := i - 1;
        assert a.detail.entries[..i + 1][..i] == a.detail.entries[..i];
        view := CompletedOf(a.detail.entries[i]);
        if view.Some? {
          return;
        }
      }
      return None;
    }

    method CompleteConfirmation(audit: int, r: Record, id: string, d: Decision, status: string, result: Option<Outcome>)
      requires audit in audits
      modifies this`audits
      ensures audits == old(audits)[audit := Complete(old(audits)[audit], id, r.preview, d, status, result)]
      ensures AuditScope(audits[audit]) == AuditScope(old(audits)[audit])
    {
      var a := audits[audit];
      var marker := FindMarker(a);
      var entry := Entry(status, Card(Some(id), None, Some(Whitelist(r.preview))), Some(Word(d)), None,
          SafeResult(result), marker);
      CompletionKeepsScope(a, id, r.preview, d, status, result);
      audits := audits[audit := Audit(status, a.responseVisibility, List(Entries(a.detail) + [entry]))];
    }

    /** From the compare-and-delete on: ownership, audit, decision, registration, execution. */
    method SettleWon(c: Caller, r: Record, registered: bool, result: Outcome) returns (answer: Answer)
      modifies this`audits, this`executions
      ensures (State(), answer) == Settle(old(State()), c, r, registered, result)
    {
      if r.user != c.user || r.conversation != c.conversation {
        return NotOwner;
      }
      if r.audit !in audits {
        return AuditMissing;
      }
      if c.decision == Cancel {
        CompleteConfirmation(r.audit, r, c.id, Cancel, "cancelled", None);
        return Cancelled;
      }
      if !registered || r.tool !in QUOTA_TOOLS {
        return ToolGone;
      }
      executions := executions + [Execution(c.id, r.tool, r.arguments, c.user, c.conversation)];
      CompleteConfirmation(r.audit, r, c.id, Confirm, if result.ok == Some(true) then "succeeded" else "failed",
          Some(result));
      return Confirmed(result);
    }

    method DecideConfirmation(c: Caller, o: Outage, registered: bool, result: Outcome) returns (answer: Answer)
      modifies this
      ensures (State(), answer) == Decide(old(State()), c, o, registered, result)
      ensures answer.Confirmed? || answer.Cancelled? ==> c.id !in redis
    {
      if !c.superAdmin {
        return NotAdmin;
      }
      if !o.getAnswered {
        return Unavailable;
      }
      var raw := if c.id in redis then Some(redis[c.id]) else None;
      if o.taken { redis := redis - {c.id}; }
      if raw.None? {
        return Conflict;
      }
      var deleted := false;
      if !o.reply.LostBefore? && c.id in redis && redis[c.id] == raw.value {
        redis, deleted := redis - {c.id}, true;
      }
      if !o.reply.Answered? {
        return Unavailable;
      }
      if !deleted {
        return Conflict;
      }
      answer := SettleWon(c, raw.value, registered, result);
    }
  }
}
