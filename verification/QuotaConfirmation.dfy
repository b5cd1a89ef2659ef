/**
 One-time confirmations of quota changes: how a decision is written into the audit and read back
 on reload, and the get / compare-and-delete / execute protocol under arbitrary interleaving.
 */
module QuotaConfirmation {

  import opened Visibility
  import opened Wrappers

  const AWAITING := "awaiting_confirmation"
  const TERMINAL: set<string> := {"succeeded", "failed", "cancelled"}
  const PREVIEW_FIELDS: set<string> := {
    "resource_id", "resource_type", "resource", "storage_type", "old_hard_limit",
    "old_soft_limit", "new_hard_limit", "new_soft_limit", "unit", "change_reason"
  }

  datatype Decision = Confirm | Cancel

  function Word(d: Decision): string {
    if d.Cancel? then "cancel" else "confirm"
  }

  // ------------------------------------------------------------ reading an audit

  /** What a reload shows for a turn. */
  datatype View =
    | Pending(id: string, expiresAt: int, expiresIn: int, preview: map<string, string>)
    | Completed(id: string, preview: map<string, string>, decided: Decision, result: Option<Outcome>)

  function Whitelist(preview: map<string, string>): map<string, string> {
    map k | k in preview && k in PREVIEW_FIELDS :: preview[k]
  }

  function SafeError(error: Option<string>): Option<string> {
    if error.None? || error.value == "" then None
    else if |error.value| <= 256 then error else Some(error.value[..256])
  }

  function SafeResult(result: Option<Outcome>): Option<Outcome> {
    if result.None? || result.value.ok.None? then None
    else Some(Outcome(result.value.ok, SafeError(result.value.error)))
  }

  /** Reading a stored safe result again changes nothing, and no error outgrows the bound. */
  lemma SafeResultIsStable(result: Option<Outcome>)
    ensures SafeResult(SafeResult(result)) == SafeResult(result)
    ensures SafeResult(result).Some? && SafeResult(result).value.error.Some? ==>
              0 < |SafeResult(result).value.error.value| <= 256
  {
    if result.Some? && result.value.ok.Some? {
      var once := SafeError(result.value.error);
      assert SafeError(once) == once;
    }
  }

  /** A stored error is the given one, cut after 256 characters; an outcome without `ok` is not stored. */
  lemma SafeResultIs(ok: Option<bool>, error: string)
    ensures SafeResult(Some(Outcome(ok, None))) == if ok.None? then None else Some(Outcome(ok, None))
    ensures ok.Some? ==>
              var s := SafeResult(Some(Outcome(ok, Some(error))));
              && s.Some? && s.value.ok == ok
              && (error == "" <==> s.value.error.None?)
              && (error != "" ==> s.value.error.value <= error
                                  && (|error| <= 256 ==> s.value.error.value == error)
                                  && (|error| > 256 ==> |s.value.error.value| == 256))
  {}

  /** Of a preview exactly the ten known fields are shown, unchanged. */
  lemma WhitelistIs(preview: map<string, string>, k: string)
    ensures k in Whitelist(preview) <==>
              k in preview && (k == "resource_id" || k == "resource_type" || k == "resource" || k == "storage_type"
                               || k == "old_hard_limit" || k == "old_soft_limit" || k == "new_hard_limit"
                               || k == "new_soft_limit" || k == "unit" || k == "change_reason")
    ensures k in Whitelist(preview) ==> Whitelist(preview)[k] == preview[k]
  {}

  function PendingOf(e: Entry, now: int): Option<View> {
    if e.Malformed? || e.status != AWAITING then None
    else
      var c := if e.required.Some? then e.required.value else e.card;
      if c.confirmation.None? || c.expires.None? || c.expires.value <= now || c.preview.None? then None
      else Some(Pending(c.confirmation.value, c.expires.value, c.expires.value - now, Whitelist(c.preview.value)))
  }

  function CompletedOf(e: Entry): Option<View> {
    if e.Malformed? || e.status !in TERMINAL || e.card.confirmation.None? || e.card.preview.None? then None
    else if e.decision == Some("cancel") then
      Some(Completed(e.card.confirmation.value, Whitelist(e.card.preview.value), Cancel, None))
    else if e.decision == Some("confirm") && SafeResult(e.result).Some? then
      Some(Completed(e.card.confirmation.value, Whitelist(e.card.preview.value), Confirm, SafeResult(e.result)))
    else None
  }

  function LastPending(entries: seq<Entry>, now: int): Option<View>
    decreases |entries|
  {
    if entries == [] then None
    else
      var last := PendingOf(entries[|entries| - 1], now);
      if last.Some? then last else LastPending(entries[..|entries| - 1], now)
  }

  function LastCompleted(entries: seq<Entry>): Option<View>
    decreases |entries|
  {
    if entries == [] then None
    else
      var last := CompletedOf(entries[|entries| - 1]);
      if last.Some? then last else LastCompleted(entries[..|entries| - 1])
  }

  function PendingFrom(a: Audit, now: int): Option<View> {
    if a.status != AWAITING || a.detail.NotAList? then None else LastPending(a.detail.entries, now)
  }

  function CompletedFrom(a: Audit): Option<View> {
    if a.status !in TERMINAL || a.detail.NotAList? then None else LastCompleted(a.detail.entries)
  }

  /** The card of a turn: a pending confirmation hides a completed one. */
  function Shown(a: Audit, now: int): Option<View> {
    var p := PendingFrom(a, now);
    if p.Some? then p else CompletedFrom(a)
  }

  // ------------------------------------------------------------ writing an audit

  function Entries(d: Detail): seq<Entry> {
    if d.List? then d.entries else []
  }

  function LastMarker(entries: seq<Entry>): Option<Marker>
    decreases |entries|
  {
    if entries == [] then None
    else
      var last := entries[|entries| - 1];
      if last.Entry? && last.visibility.Some? then last.visibility else LastMarker(entries[..|entries| - 1])
  }

  /** `_audit_visibility` */
  function AuditMarker(a: Audit): Option<Marker> {
    var m := LastMarker(Entries(a.detail));
    if m.Some? then m else a.responseVisibility
  }

  function CompletionEntry(a: Audit, id: string, preview: map<string, string>, d: Decision, status: string,
                           result: Option<Outcome>): Entry {
    Entry(status, Card(Some(id), None, Some(Whitelist(preview))), Some(Word(d)), None, SafeResult(result),
        AuditMarker(a))
  }

  /** `_complete_confirmation` */
  function Complete(a: Audit, id: string, preview: map<string, string>, d: Decision, status: string,
                    result: Option<Outcome>): Audit {
    Audit(status, a.responseVisibility, List(Entries(a.detail) + [CompletionEntry(a, id, preview, d, status, result)]))
  }

  /** The audit part of `prepare_confirmation`, for a detail that is a list. */
  function Prepared(a: Audit, id: string, preview: map<string, string>, expiresAt: int): Audit {
    var pending := Entry(AWAITING, Card(Some(id), Some(expiresAt), Some(preview)), None, None, None, None);
    Audit(AWAITING, a.responseVisibility, List(Entries(a.detail) + [pending]))
  }

  /** The terminal checkpoint of the turn rewrites status, marker and trace. */
  function Checkpointed(status: string, marker: Marker, trace: seq<Entry>): Audit {
    Audit(status, Some(marker), List(trace))
  }

  /** `_persist_running_audit`: the turn rewrites its trace and nothing else before it commits. */
  function Persisted(a: Audit, trace: seq<Entry>): Audit {
    Audit(a.status, a.responseVisibility, List(trace))
  }

  /**
   The trace entry of the call that prepared a confirmation: the card stands in the data of its
   result, unless the result was too long to be kept for display.
   */
  function CallEntry(id: string, preview: map<string, string>, expiresAt: int, fits: bool, marker: Marker): Entry {
    var card := Card(Some(id), Some(expiresAt), Some(preview));
    Entry(AWAITING, Card(None, None, None), None, if fits then Some(card) else None,
          if fits then Some(Outcome(Some(true), None)) else Some(Outcome(None, None)), Some(marker))
  }

  /** The entries of a turn's own trace never read back as a decision. */
  ghost predicate OwnTrace(trace: seq<Entry>) {
    forall i | 0 <= i < |trace| :: CompletedOf(trace[i]).None?
  }

  lemma {:induction false} OwnTraceShowsNoDecision(trace: seq<Entry>)
    requires OwnTrace(trace)
    ensures LastCompleted(trace) == None
    decreases |trace|
  {
    if trace != [] { OwnTraceShowsNoDecision(trace[..|trace| - 1]); }
  }

  lemma CallEntryIsOwn(id: string, preview: map<string, string>, expiresAt: int, fits: bool, marker: Marker)
    ensures var e := CallEntry(id, preview, expiresAt, fits, marker);
            && CompletedOf(e).None?
            && SafeResult(e.result) == if fits then Some(Outcome(Some(true), None)) else None
  {}

  /** Completing a confirmation never changes who may see the turn. */
  lemma CompletionKeepsScope(a: Audit, id: string, preview: map<string, string>, d: Decision, status: string,
                             result: Option<Outcome>)
    ensures AuditScope(Complete(a, id, preview, d, status, result)) == AuditScope(a)
  {
    var entries, e := Entries(a.detail), CompletionEntry(a, id, preview, d, status, result);
    var all := entries + [e];
    assert all[..|all| - 1] == entries && all[|all| - 1] == e;
    assert TraceScope(all) == Combine(TraceScope(entries), EntryScope(e));
    if entries != [] {
      var before, last := entries[..|entries| - 1], entries[|entries| - 1];
      if last.Entry? && last.visibility.Some? {
        assert EntryScope(e) == EntryScope(last);
        CombineIsSemilattice(TraceScope(before), EntryScope(last), EntryScope(last));
        CombineIsSemilattice(EntryScope(last), EntryScope(last), EntryScope(last));
      }
      assert TraceScope(all) == TraceScope(entries);
    } else {
      CombineIsSemilattice(EntryScope(e), EntryScope(e), EntryScope(e));
    }
  }

  predicate Readable(d: Decision, result: Option<Outcome>) {
    d.Cancel? || SafeResult(result).Some?
  }

  function Decided(id: string, preview: map<string, string>, d: Decision, result: Option<Outcome>): View {
    Completed(id, Whitelist(preview), d, if d.Cancel? then None else SafeResult(result))
  }

  lemma CompletionReadsBack(a: Audit, id: string, preview: map<string, string>, d: Decision, status: string,
                            result: Option<Outcome>)
    requires status in TERMINAL
    ensures CompletedOf(CompletionEntry(a, id, preview, d, status, result)) ==
            if Readable(d, result) then Some(Decided(id, preview, d, result)) else None
  {
    assert Whitelist(Whitelist(preview)) == Whitelist(preview);
    SafeResultIsStable(result);
    assert "cancel" != "confirm" by { assert |"cancel"| != |"confirm"|; }
  }

  lemma AppendedIsLast(entries: seq<Entry>, e: Entry)
    ensures LastCompleted(entries + [e]) == if CompletedOf(e).Some? then CompletedOf(e) else LastCompleted(entries)
  {
    assert (entries + [e])[..|entries|] == entries;
  }

  lemma TerminalIsNotAwaiting(status: string)
    requires status in TERMINAL
    ensures status != AWAITING
  {
    assert |AWAITING| > 9 >= |status|;
  }

  /**
   A reload shows exactly the decision and its safe result; a confirmation whose result had no
   boolean `ok` leaves the card of an older completed entry, if there is one.
   */
  lemma ReloadAfterCompletion(a: Audit, id: string, preview: map<string, string>, d: Decision, status: string,
                              result: Option<Outcome>, now: int)
    requires status in TERMINAL
    ensures Shown(Complete(a, id, preview, d, status, result), now) ==
            if Readable(d, result) then Some(Decided(id, preview, d, result)) else LastCompleted(Entries(a.detail))
  {
    CompletionReadsBack(a, id, preview, d, status, result);
    AppendedIsLast(Entries(a.detail), CompletionEntry(a, id, preview, d, status, result));
    TerminalIsNotAwaiting(status);
  }

  /** What a trace shows whose last entry is the call that prepared a confirmation. */
  function CardShown(before: seq<Entry>, id: string, preview: map<string, string>, expiresAt: int, fits: bool,
      now: int): Option<View> {
    if fits && now < expiresAt then Some(Pending(id, expiresAt, expiresAt - now, Whitelist(preview)))
        else LastPending(before, now)
  }

  lemma TraceShowsCard(before: seq<Entry>, id: string, preview: map<string, string>, expiresAt: int, fits: bool,
                       marker: Marker, now: int)
    ensures LastPending(before + [CallEntry(id, preview, expiresAt, fits, marker)], now)
            == CardShown(before, id, preview, expiresAt, fits, now)
  {
    assert (before + [CallEntry(id, preview, expiresAt, fits, marker)])[..|before|] == before;
  }

  lemma PreparedShowsCard(a: Audit, id: string, preview: map<string, string>, expiresAt: int, now: int)
    ensures PendingFrom(Prepared(a, id, preview, expiresAt), now)
            == CardShown(Entries(a.detail), id, preview, expiresAt, true, now)
  {
    var entries := Prepared(a, id, preview, expiresAt).detail.entries;
    assert entries[..|entries| - 1] == Entries(a.detail);
  }

  lemma AwaitingIsNotTerminal()
    ensures AWAITING !in TERMINAL
  {
    if AWAITING in TERMINAL { TerminalIsNotAwaiting(AWAITING); }
  }

  /**
   The audit right after a preparation, the trace that is committed then, and the one of a terminal
   checkpoint that awaits the decision, show exactly the prepared card until it expires. The turn's
   scope is the join over its trace with the marker of its response, if there is one.
   */
  lemma ReloadAfterPreparation(a: Audit, id: string, preview: map<string, string>, expiresAt: int, fits: bool,
                               before: seq<Entry>, own: Marker, marker: Marker, now: int)
    ensures var trace := before + [CallEntry(id, preview, expiresAt, fits, own)];
            var running, ended := Persisted(Prepared(a, id, preview, expiresAt), trace),
                Checkpointed(AWAITING, marker, trace);
            && Shown(running, now) == Shown(ended, now) == CardShown(before, id, preview, expiresAt, fits, now)
            && Shown(Prepared(a, id, preview, expiresAt), now)
               == CardShown(Entries(a.detail), id, preview, expiresAt, true, now)
            && AuditScope(running) == Combine(ResponseScope(a.responseVisibility),
                Combine(TraceScope(before), MarkerScope(own)))
            && AuditScope(ended) == Combine(ResponseScope(Some(marker)), Combine(TraceScope(before), MarkerScope(own)))
  {
    TraceShowsCard(before, id, preview, expiresAt, fits, own, now);
    PreparedShowsCard(a, id, preview, expiresAt, now);
    AwaitingIsNotTerminal();
    TraceWithCall(before, CallEntry(id, preview, expiresAt, fits, own));
    ScopeOfLongTrace(Persisted(Prepared(a, id, preview, expiresAt),
        before + [CallEntry(id, preview, expiresAt, fits, own)]));
    ScopeOfLongTrace(Checkpointed(AWAITING, marker, before + [CallEntry(id, preview, expiresAt, fits, own)]));
  }

  function MarkerScope(m: Marker): Scope {
    match Normalise(Some(m)) case Some(s) => s case None => Unknown
  }

  /** A response without a readable marker restricts nothing. */
  function ResponseScope(m: Option<Marker>): Scope {
    match Normalise(m) case Some(s) => s case None => GLOBAL
  }

  lemma TraceWithCall(before: seq<Entry>, e: Entry)
    ensures TraceScope(before + [e]) == Combine(TraceScope(before), EntryScope(e))
  {
    assert (before + [e])[..|before|] == before;
  }

  lemma ScopeOfLongTrace(a: Audit)
    requires a.detail.List? && a.detail.entries != []
    ensures AuditScope(a) == Combine(ResponseScope(a.responseVisibility), TraceScope(a.detail.entries))
  {
    var s := TraceScope(a.detail.entries);
    CombineIsSemilattice(s, s, s);
  }
}
