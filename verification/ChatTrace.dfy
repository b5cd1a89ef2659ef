/**
 What a chat turn is given, what it yields and what it leaves in its trace: the environment, the
 events and trace entries, and how they are counted and read.
 */
module ChatTrace {

  import opened Wrappers

  // ------------------------------------------------------------ the environment

  /** A requested tool with its canonical arguments. */
  datatype Call = Call(name: string, args: string)

  datatype StreamEvent = Delta(text: string) | Completed(calls: seq<Call>, text: string)

  datatype StreamEnd = Ended | BadArguments(tool: string) | Failing | Cancelling

  /** What one provider call streams before it ends, and how it ends. */
  datatype Reply = Reply(events: seq<StreamEvent>, end: StreamEnd)

  datatype ToolResult = ToolResult(ok: Option<bool>, retryable: Option<bool>, hasData: bool)

  datatype ToolOutcome = Returns(result: ToolResult) | Raises | Cancels

  datatype ConfirmOutcome = Prepared | Declined | Breaks

  datatype Environment = Environment(
    setupFails: bool,
    provider: nat -> Reply,
    execute: nat -> ToolOutcome,
    confirm: nat -> ConfirmOutcome,
    handover: nat -> bool,
    registered: set<string>,
    render: string -> string,
    awaitingText: string,
    failedText: string,
    fallback: Reason -> string)

  const DIAGNOSIS_TOOL := "get_incident_diagnosis"
  const MAX_ARGUMENT_REPAIRS: nat := 2
  const MAX_FAILURE_REPAIRS: nat := 2

  // ------------------------------------------------------------ what a turn leaves behind

  datatype TraceStatus = Running | Succeeded | Failed | Reused | Awaiting

  /** `refused` marks a call whose arguments did not decode; the result of a running call is not known. */
  datatype TraceEntry =
    TraceEntry(name: string, status: TraceStatus, iteration: nat, refused: bool, result: Option<ToolResult>)

  datatype TurnStatus = TurnSucceeded | TurnDegraded | TurnAwaiting | TurnCancelled | TurnFailed

  datatype Kind = Opening | DeltaText | ToolStarted | ToolFinished | Confirmation | Thinking | TurnCompleted
      | TurnStopped | TurnError

  /** A yielded event with the committed counters, the trace and the committed status at that moment. */
  datatype Event = Event(kind: Kind, text: string, calls: nat, failed: nat, traced: nat, tracedFailed: nat,
                         committed: Option<TurnStatus>)

  datatype Execution = Execution(call: Call, result: ToolResult)

  datatype Reason = IterationLimit | InvalidArguments | ToolCallFailed

  /** How a part of the turn ends: normally, or with one of the two kinds of exception. */
  datatype Signal = Normal | Exception | Cancelled

  predicate Terminal(k: Kind) {
    k == TurnCompleted || k == TurnStopped || k == TurnError
  }

  /** The terminal event tells the status that was committed. */
  predicate Announces(k: Kind, s: TurnStatus) {
    match k
    case TurnCompleted => s == TurnSucceeded || s == TurnDegraded || s == TurnAwaiting
    case TurnStopped => s == TurnCancelled
    case TurnError => s == TurnFailed
    case _ => false
  }

  /** The number of trace entries with the given status. */
  function InStatus(trace: seq<TraceEntry>, s: TraceStatus): (n: nat)
    ensures n <= |trace|
  {
    if trace == [] then 0
    else InStatus(trace[..|trace| - 1], s) + if trace[|trace| - 1].status == s then 1 else 0
  }

  function FailedIn(trace: seq<TraceEntry>): nat { InStatus(trace, Failed) }

  lemma InStatusAppend(trace: seq<TraceEntry>, e: TraceEntry, s: TraceStatus)
    ensures InStatus(trace + [e], s) == InStatus(trace, s) + if e.status == s then 1 else 0
  {
    assert (trace + [e])[..|trace|] == trace;
  }

  lemma InStatusReplaceLast(trace: seq<TraceEntry>, e: TraceEntry, s: TraceStatus)
    requires trace != []
    ensures InStatus(trace[|trace| - 1 := e], s) == InStatus(trace[..|trace| - 1], s) + if e.status == s then 1 else 0
  {
    assert trace[|trace| - 1 := e] == trace[..|trace| - 1] + [e];
    InStatusAppend(trace[..|trace| - 1], e, s);
  }

  /** The number of events of the given kind. */
  function OfKind(events: seq<Event>, k: Kind): nat {
    if events == [] then 0
    else OfKind(events[..|events| - 1], k) + if events[|events| - 1].kind == k then 1 else 0
  }

  lemma OfKindAppend(events: seq<Event>, e: Event, k: Kind)
    ensures OfKind(events + [e], k) == OfKind(events, k) + if e.kind == k then 1 else 0
  {
    assert (events + [e])[..|events|] == events;
  }

  /** The text the user has seen. */
  function Seen(events: seq<Event>): string {
    if events == [] then ""
    else Seen(events[..|events| - 1]) + if events[|events| - 1].kind == DeltaText then events[|events| - 1].text else ""
  }

  lemma SeenAppend(events: seq<Event>, e: Event)
    ensures Seen(events + [e]) == Seen(events) + if e.kind == DeltaText then e.text else ""
  {
    assert (events + [e])[..|events|] == events;
  }

  /** The later events show no text, no thinking and no confirmation beyond the earlier ones. */
  ghost predicate Quiet(before: seq<Event>, after: seq<Event>) {
    && Seen(after) == Seen(before)
    && OfKind(after, Thinking) == OfKind(before, Thinking)
    && OfKind(after, Confirmation) == OfKind(before, Confirmation)
  }

  lemma QuietAppend(events: seq<Event>, e: Event)
    requires e.kind != DeltaText && e.kind != Thinking && e.kind != Confirmation
    ensures Quiet(events, events + [e])
  {
    hide OfKind, Seen;
    SeenAppend(events, e);
    OfKindAppend(events, e, Thinking);
    OfKindAppend(events, e, Confirmation);
  }

  /** Every traced call was announced once, and its end was announced once when it ended. */
  predicate Announced(events: seq<Event>, trace: seq<TraceEntry>) {
    && OfKind(events, ToolStarted) == |trace|
    && OfKind(events, ToolFinished) == |trace| - InStatus(trace, Running)
  }

  /** The counters agree with the trace, only deltas have a text, only a terminal event has a status. */
  predicate Truthful(e: Event) {
    && e.calls == e.traced && e.failed == e.tracedFailed && (e.kind != DeltaText ==> e.text == "")
    && if Terminal(e.kind) then e.committed.Some? && Announces(e.kind, e.committed.value) else e.committed.None?
  }

  ghost predicate AllTruthful(events: seq<Event>) {
    forall i | 0 <= i < |events| :: Truthful(events[i])
  }

  ghost predicate NoneTerminal(events: seq<Event>) {
    forall i | 0 <= i < |events| :: !Terminal(events[i].kind)
  }

  /** The stream ends with its only terminal event. */
  ghost predicate EndsOnce(events: seq<Event>) {
    events != [] && NoneTerminal(events[..|events| - 1]) && Terminal(events[|events| - 1].kind)
  }

  /** The status a turn is left with when the consumer closes its stream at this event. */
  function LeftAt(e: Event): TurnStatus {
    if e.committed.Some? then e.committed.value else TurnCancelled
  }

  /** Closing at any event but the last cancels the turn; at the last one it comes too late. */
  lemma ClosingEarlyCancels(events: seq<Event>)
    requires AllTruthful(events) && EndsOnce(events)
    ensures var last := |events| - 1;
            && Announces(events[last].kind, LeftAt(events[last]))
            && forall k | 0 <= k < last :: LeftAt(events[k]) == TurnCancelled
  {
    var last := |events| - 1;
    assert Truthful(events[last]);
    forall k | 0 <= k < last
      ensures LeftAt(events[k]) == TurnCancelled
    {
      assert Truthful(events[k]) && events[..last][k] == events[k];
    }
  }

  /** What the events of a turn that has not ended say, and what they do not. */
  ghost predicate Coherent(events: seq<Event>, trace: seq<TraceEntry>) {
    AllTruthful(events) && NoneTerminal(events) && Announced(events, trace)
  }

  lemma CallOpened(events: seq<Event>, trace: seq<TraceEntry>, e: TraceEntry, failed: nat)
    requires Coherent(events, trace) && e.status == Running && failed == FailedIn(trace)
    ensures FailedIn(trace + [e]) == failed
    ensures Coherent(events + [Event(ToolStarted, "", |trace| + 1, failed, |trace| + 1, failed, None)], trace + [e])
  {
    var started := Event(ToolStarted, "", |trace| + 1, failed, |trace| + 1, failed, None);
    InStatusAppend(trace, e, Failed);
    InStatusAppend(trace, e, Running);
    OfKindAppend(events, started, ToolStarted);
    OfKindAppend(events, started, ToolFinished);
  }

  lemma CallClosed(events: seq<Event>, trace: seq<TraceEntry>, e: TraceEntry, failed: nat)
    requires Coherent(events, trace) && trace != [] && trace[|trace| - 1].status == Running && e.status != Running
    requires failed == FailedIn(trace) + if e.status == Failed then 1 else 0
    ensures FailedIn(trace[|trace| - 1 := e]) == failed
    ensures var closed := Event(ToolFinished, "", |trace|, failed, |trace|, failed, None);
            Coherent(events + [closed], trace[|trace| - 1 := e])
  {
    var closed := Event(ToolFinished, "", |trace|, failed, |trace|, failed, None);
    InStatusReplaceLast(trace, e, Failed);
    InStatusReplaceLast(trace, e, Running);
    OfKindAppend(events, closed, ToolStarted);
    OfKindAppend(events, closed, ToolFinished);
  }

  lemma TurnEnded(events: seq<Event>, trace: seq<TraceEntry>, e: Event)
    requires Coherent(events, trace) && Truthful(e) && Terminal(e.kind)
    ensures EndsOnce(events + [e]) && AllTruthful(events + [e]) && Announced(events + [e], trace)
  {
    hide OfKind, InStatus;
    OfKindAppend(events, e, ToolStarted);
    OfKindAppend(events, e, ToolFinished);
    assert (events + [e])[..|events|] == events;
  }

  /** A refused call enters the trace complete, and its two events follow. */
  lemma InvalidCallAnnounced(events: seq<Event>, trace: seq<TraceEntry>, e: TraceEntry, calls: nat, failed: nat)
    requires Coherent(events, trace)
    requires e.status == Failed && calls == |trace| + 1 && failed == FailedIn(trace) + 1
    ensures var more := events + [Event(ToolStarted, "", calls, failed, calls, failed, None)]
        + [Event(ToolFinished, "", calls, failed, calls, failed, None)];
            Coherent(more, trace + [e])
  {
    var started, finished := Event(ToolStarted, "", calls, failed, calls, failed, None),
        Event(ToolFinished, "", calls, failed, calls, failed, None);
    InStatusAppend(trace, e, Running);
    OfKindAppend(events, started, ToolStarted);
    OfKindAppend(events, started, ToolFinished);
    OfKindAppend(events + [started], finished, ToolStarted);
    OfKindAppend(events + [started], finished, ToolFinished);
  }

  /** No call runs again after it succeeded, and no tool after it failed for good. */
  ghost predicate NoRerun(executions: seq<Execution>) {
    forall i, j | 0 <= i < j < |executions| ::
      && !(executions[i].call == executions[j].call && executions[i].result.ok == Some(true))
      && !(executions[i].call.name == executions[j].call.name && executions[i].result.retryable == Some(false))
  }

  /** What the two tables answer is what a run of the same call, or of the same tool, returned. */
  ghost predicate RemembersRuns(executions: seq<Execution>, successful: map<Call, ToolResult>,
      nonRetryable: map<string, ToolResult>) {
    && (forall c | c in successful ::
          Execution(c, successful[c]) in executions && successful[c].ok == Some(true))
    && (forall name | name in nonRetryable ::
          RanAs(executions, name, nonRetryable[name]) && nonRetryable[name].retryable == Some(false))
  }

  ghost predicate RanAs(executions: seq<Execution>, name: string, result: ToolResult) {
    exists i | 0 <= i < |executions| :: executions[i].call.name == name && executions[i].result == result
  }

  /** Everything that must not run again is in one of the two tables, and nothing ran twice. */
  ghost predicate Consistent(executions: seq<Execution>, successful: map<Call, ToolResult>,
                             nonRetryable: map<string, ToolResult>) {
    && NoRerun(executions)
    && (forall i | 0 <= i < |executions| :: executions[i].call.name !in QUOTA_TOOLS)
    && (forall i | 0 <= i < |executions| && executions[i].result.ok == Some(true) :: executions[i].call in successful)
    && (forall i | 0 <= i < |executions| && executions[i].result.retryable == Some(false) ::
        executions[i].call.name in nonRetryable)
    && RemembersRuns(executions, successful, nonRetryable)
  }

  lemma RanAsStays(executions: seq<Execution>, e: Execution, name: string, result: ToolResult)
    requires RanAs(executions, name, result)
    ensures RanAs(executions + [e], name, result)
  {
    var i :| 0 <= i < |executions| && executions[i].call.name == name && executions[i].result == result;
    assert (executions + [e])[i] == executions[i];
  }

  lemma RunIsRemembered(executions: seq<Execution>, successful: map<Call, ToolResult>,
                        nonRetryable: map<string, ToolResult>, call: Call, r: ToolResult)
    requires Consistent(executions, successful, nonRetryable)
    requires call.name !in QUOTA_TOOLS && call !in successful && call.name !in nonRetryable
    ensures Consistent(executions + [Execution(call, r)],
                       if r.ok == Some(true) then successful[call := r] else successful,
                       if r.retryable == Some(false) then nonRetryable[call.name := r] else nonRetryable)
  {
    var e := Execution(call, r);
    var more := executions + [e];
    assert more[|executions|] == e;
    forall c | c in successful ensures Execution(c, successful[c]) in more {
      assert Execution(c, successful[c]) in executions;
    }
    forall name | name in nonRetryable ensures RanAs(more, name, nonRetryable[name]) {
      RanAsStays(executions, e, name, nonRetryable[name]);
    }
    assert RanAs(more, call.name, r);
  }

  /** A reused success may say that it is not retryable; its tool is blocked from then on. */
  lemma ReuseIsRemembered(executions: seq<Execution>, successful: map<Call, ToolResult>,
                          nonRetryable: map<string, ToolResult>, call: Call)
    requires Consistent(executions, successful, nonRetryable) && call in successful
    requires successful[call].retryable == Some(false)
    ensures Consistent(executions, successful, nonRetryable[call.name := successful[call]])
  {
    assert Execution(call, successful[call]) in executions;
    var i :| 0 <= i < |executions| && executions[i] == Execution(call, successful[call]);
    assert RanAs(executions, call.name, successful[call]);
  }

  /** The status a call is recorded with. */
  function StatusOf(result: ToolResult, reused: bool, pending: bool): TraceStatus {
    if result.ok == Some(false) then Failed else if reused then Reused else if pending then Awaiting else Succeeded
  }

  /** The text a stream shows, and the completion it leaves behind. */
  function ShownBy(stream: seq<StreamEvent>): string {
    if stream == [] then ""
    else ShownBy(stream[..|stream| - 1]) + if stream[|stream| - 1].Delta? then stream[|stream| - 1].text else ""
  }

  function LastCompletion(stream: seq<StreamEvent>, before: Option<StreamEvent>): Option<StreamEvent> {
    if stream == [] then before
    else if stream[|stream| - 1].Completed? then Some(stream[|stream| - 1])
    else LastCompletion(stream[..|stream| - 1], before)
  }

  /** The events that show a stream, all alike but for their text. */
  function DeltaEvents(e: Event, stream: seq<StreamEvent>): seq<Event> {
    if stream == [] then []
    else
      var last := stream[|stream| - 1];
      DeltaEvents(e, stream[..|stream| - 1]) + if last.Delta? && last.text != "" then [e.(text := last.text)] else []
  }

  lemma {:induction false} DeltaEventsShow(events: seq<Event>, e: Event, stream: seq<StreamEvent>)
    requires e.kind == DeltaText
    ensures Seen(events + DeltaEvents(e, stream)) == Seen(events) + ShownBy(stream)
    ensures OfKind(events + DeltaEvents(e, stream), Thinking) == OfKind(events, Thinking)
    ensures OfKind(events + DeltaEvents(e, stream), Confirmation) == OfKind(events, Confirmation)
  {
    hide Seen, OfKind;
    if stream == [] {
      assert events + [] == events;
    } else {
      var front, last := stream[..|stream| - 1], stream[|stream| - 1];
      DeltaEventsShow(events, e, front);
      var shown := DeltaEvents(e, front);
      if last.Delta? && last.text != "" {
        var d := e.(text := last.text);
        assert events + (shown + [d]) == events + shown + [d];
        SeenAppend(events + shown, d);
        OfKindAppend(events + shown, d, Thinking);
        OfKindAppend(events + shown, d, Confirmation);
      } else {
        assert shown + [] == shown;
      }
    }
  }

  /** One more event of the stream. */
  lemma StreamStep(stream: seq<StreamEvent>, before: Option<StreamEvent>, e: Event, i: nat)
    requires i < |stream|
    ensures ShownBy(stream[..i + 1]) == ShownBy(stream[..i]) + if stream[i].Delta? then stream[i].text else ""
    ensures LastCompletion(stream[..i + 1], before)
            == if stream[i].Completed? then Some(stream[i]) else LastCompletion(stream[..i], before)
    ensures DeltaEvents(e, stream[..i + 1])
            == DeltaEvents(e, stream[..i])
               + if stream[i].Delta? && stream[i].text != "" then [e.(text := stream[i].text)] else []
  {
    assert stream[..i + 1][..i] == stream[..i];
  }

  lemma StreamStart(before: Option<StreamEvent>, e: Event)
    ensures ShownBy([]) == "" && LastCompletion([], before) == before && DeltaEvents(e, []) == []
  {}

  // ------------------------------------------------------------ what the replies add up to

  /** The text of the first `n` replies, one after another. */
  function EmittedBy(env: Environment, n: nat): string {
    if n == 0 then "" else EmittedBy(env, n - 1) + ShownBy(env.provider(n - 1).events)
  }

  /** The completion known after `n` replies: a reply whose arguments did not decode is repaired, not dropped. */
  function CompletionAfter(env: Environment, n: nat): Option<StreamEvent>
    decreases n, 0
  {
    if n == 0 then None
    else LastCompletion(env.provider(n - 1).events, CompletionBefore(env, n - 1))
  }

  /** What the reply number `n` starts from. */
  function CompletionBefore(env: Environment, n: nat): Option<StreamEvent>
    decreases n, 1
  {
    if n > 0 && env.provider(n - 1).end.BadArguments? then CompletionAfter(env, n) else None
  }

  /** After this reply the turn asks again: for decodable arguments, or with the results of the calls. */
  ghost predicate GoesOn(env: Environment, k: nat) {
    var end, c := env.provider(k).end, CompletionAfter(env, k + 1);
    end.BadArguments? || (end.Ended? && c.Some? && c.value.Completed? && c.value.calls != [])
  }

  /** The reply number `n - 1` ended and asks for no tool. */
  ghost predicate AnswersAt(env: Environment, n: nat) {
    var c := CompletionAfter(env, n);
    n > 0 && env.provider(n - 1).end.Ended? && c.Some? && c.value.Completed? && c.value.calls == []
  }

  /** The reply number `n - 1` broke off, or ended without a completion. */
  predicate BreaksAt(env: Environment, n: nat) {
    n > 0 && (env.provider(n - 1).end.Failing?
              || (env.provider(n - 1).end.Ended? && CompletionAfter(env, n).None?))
  }

  /** The answer: all text shown so far, or the completion's if none was. */
  function AnswerText(env: Environment, n: nat): string {
    var c := CompletionAfter(env, n);
    if EmittedBy(env, n) != "" then EmittedBy(env, n)
    else if c.Some? && c.value.Completed? then c.value.text else ""
  }

  /** Of a tool-free summary: what it showed, or the text it completed with. */
  function SummaryText(r: Reply): string {
    var c := LastCompletion(r.events, None);
    if ShownBy(r.events) != "" then ShownBy(r.events)
    else if r.end.Ended? && c.Some? && c.value.Completed? then c.value.text else ""
  }

  /** A reply after which the turn goes on is no answer. */
  lemma GoingOnIsNoAnswer(env: Environment, k: nat)
    requires GoesOn(env, k)
    ensures !AnswersAt(env, k + 1)
  {}

  /** What one more reply adds. */
  lemma OneMoreReply(env: Environment, n: nat)
    ensures EmittedBy(env, n + 1) == EmittedBy(env, n) + ShownBy(env.provider(n).events)
    ensures CompletionAfter(env, n + 1) == LastCompletion(env.provider(n).events, CompletionBefore(env, n))
    ensures CompletionBefore(env, n + 1)
            == if env.provider(n).end.BadArguments? then CompletionAfter(env, n + 1) else None
    ensures BreaksAt(env, n + 1) <==>
              env.provider(n).end.Failing? || (env.provider(n).end.Ended? && CompletionAfter(env, n + 1).None?)
  {}

  lemma NothingEmitted(env: Environment)
    ensures EmittedBy(env, 0) == ""
  {}

  lemma NothingShown(events: seq<Event>)
    requires events == []
    ensures Seen(events) == "" && OfKind(events, Thinking) == 0
  {}

  lemma NothingDiagnosed(trace: seq<TraceEntry>)
    requires trace == []
    ensures !Diagnosed(trace)
  {}

  lemma NothingCompleted(env: Environment)
    ensures CompletionBefore(env, 0) == None
  {}

  lemma EndedNormally(env: Environment, n: nat)
    requires n > 0 && !BreaksAt(env, n)
    requires !env.provider(n - 1).end.Cancelling? && !env.provider(n - 1).end.BadArguments?
    ensures env.provider(n - 1).end.Ended? && CompletionAfter(env, n).Some?
  {}

  /** The calls the reply number `n` makes the trace list: the one refused, or those requested. */
  function NamesAt(env: Environment, n: nat): seq<string> {
    var end, c := env.provider(n).end, CompletionAfter(env, n + 1);
    if end.BadArguments? then [end.tool]
    else if end.Ended? && c.Some? && c.value.Completed? then CallNames(c.value.calls)
    else []
  }

  function CallNames(calls: seq<Call>): (names: seq<string>)
    ensures |names| == |calls| && forall i | 0 <= i < |calls| :: names[i] == calls[i].name
  {
    seq(|calls|, i requires 0 <= i < |calls| => calls[i].name)
  }

  /** The calls of the first `n` replies, in order. */
  function NamesBy(env: Environment, n: nat): seq<string> {
    if n == 0 then [] else NamesBy(env, n - 1) + NamesAt(env, n - 1)
  }

  function TracedNames(trace: seq<TraceEntry>): (names: seq<string>)
    ensures |names| == |trace| && forall i | 0 <= i < |trace| :: names[i] == trace[i].name
  {
    seq(|trace|, i requires 0 <= i < |trace| => trace[i].name)
  }

  /** A reply without a completion that asks for tools lists only what it had refused. */
  lemma NothingRequested(env: Environment, trace: seq<TraceEntry>, n: nat)
    requires n > 0 && TracedNames(trace) == NamesBy(env, n - 1) + RefusedNames(env.provider(n - 1).end)
    requires !env.provider(n - 1).end.Ended? || CompletionAfter(env, n).None?
             || (CompletionAfter(env, n).value.Completed? && CompletionAfter(env, n).value.calls == [])
    ensures TracedNames(trace) == NamesBy(env, n)
  {}

  lemma TracedRefused(trace: seq<TraceEntry>, end: StreamEnd, iteration: nat)
    ensures TracedNames(trace + RefusedBy(end, iteration)) == TracedNames(trace) + RefusedNames(end)
  {}

  lemma NoneRefused(end: StreamEnd, names: seq<string>)
    requires !end.BadArguments?
    ensures names + RefusedNames(end) == names
  {}

  lemma NothingListed(env: Environment)
    ensures TracedNames([]) == NamesBy(env, 0)
  {}

  function RefusedNames(end: StreamEnd): seq<string> {
    if end.BadArguments? then [end.tool] else []
  }

  /** Calls that were all handled, or some of them, complete the list, or leave a part of it. */
  lemma RequestsTraced(env: Environment, mid: seq<TraceEntry>, after: seq<TraceEntry>, calls: seq<Call>, n: nat,
                       iteration: nat)
    requires n > 0 && TracedNames(mid) == NamesBy(env, n - 1) && AddsCalls(mid, after, calls, iteration)
    requires env.provider(n - 1).end.Ended? && CompletionAfter(env, n).Some?
    requires CompletionAfter(env, n).value.Completed? && CompletionAfter(env, n).value.calls == calls
    ensures TracedNames(after) <= NamesBy(env, n)
    ensures |after| == |mid| + |calls| ==> TracedNames(after) == NamesBy(env, n)
  {
    hide NamesBy;
    assert NamesBy(env, n) == NamesBy(env, n - 1) + CallNames(calls) by { NamesStep(env, n); }
    assert forall i | 0 <= i < |mid| :: after[i] == mid[i];
  }

  lemma NamesStep(env: Environment, n: nat)
    requires n > 0
    ensures NamesBy(env, n) == NamesBy(env, n - 1) + NamesAt(env, n - 1)
  {}

  // ------------------------------------------------------------ what the trace tells

  predicate Diagnoses(e: TraceEntry) {
    e.name == DIAGNOSIS_TOOL && e.result.Some? && e.result.value.ok == Some(true) && e.result.value.hasData
  }

  /** Some diagnosis was obtained. */
  ghost predicate Diagnosed(trace: seq<TraceEntry>) {
    exists i :: 0 <= i < |trace| && Diagnoses(trace[i])
  }

  lemma DiagnosedAppend(trace: seq<TraceEntry>, e: TraceEntry)
    ensures Diagnosed(trace + [e]) <==> Diagnosed(trace) || Diagnoses(e)
  {
    hide Diagnoses;
    var more := trace + [e];
    assert more[|trace|] == e;
    assert forall i | 0 <= i < |trace| :: more[i] == trace[i];
  }

  lemma AwaitingClosed(trace: seq<TraceEntry>, e: TraceEntry)
    requires trace != [] && trace[|trace| - 1].status != Awaiting
    ensures InStatus(trace[|trace| - 1 := e], Awaiting)
            == InStatus(trace, Awaiting) + if e.status == Awaiting then 1 else 0
  {
    InStatusReplaceLast(trace, e, Awaiting);
  }

  lemma DiagnosedClosed(trace: seq<TraceEntry>, e: TraceEntry)
    requires trace != [] && trace[|trace| - 1].result.None?
    ensures Diagnosed(trace[|trace| - 1 := e]) <==> Diagnosed(trace) || Diagnoses(e)
  {
    var last := |trace| - 1;
    var more := trace[last := e];
    assert more[last] == e;
    assert !Diagnoses(trace[last]);
    hide Diagnoses;
    assert forall i | 0 <= i < last :: more[i] == trace[i];
  }

  predicate FailedCall(e: TraceEntry, iteration: nat) {
    e.iteration == iteration && !e.refused && e.status == Failed
  }

  predicate FailedForGood(e: TraceEntry, iteration: nat) {
    e.iteration == iteration && !e.refused && e.name !in QUOTA_TOOLS
    && e.result.Some? && e.result.value.retryable == Some(false)
  }

  /** In this iteration some call failed, and none of the tools for good. */
  ghost predicate RepairRound(trace: seq<TraceEntry>, iteration: nat) {
    && (exists i :: 0 <= i < |trace| && FailedCall(trace[i], iteration))
    && !(exists i :: 0 <= i < |trace| && FailedForGood(trace[i], iteration))
  }

  /** The number of such iterations among the first `n`. */
  ghost function RepairRounds(trace: seq<TraceEntry>, n: nat): nat {
    if n == 0 then 0 else RepairRounds(trace, n - 1) + if RepairRound(trace, n) then 1 else 0
  }

  /** The later trace adds entries of iterations after the `n`-th only. */
  ghost predicate AddsAfter(before: seq<TraceEntry>, after: seq<TraceEntry>, n: nat) {
    before <= after && forall i | |before| <= i < |after| :: after[i].iteration > n
  }

  lemma RoundStays(before: seq<TraceEntry>, after: seq<TraceEntry>, n: nat, m: nat)
    requires AddsAfter(before, after, n) && m <= n
    ensures RepairRound(after, m) <==> RepairRound(before, m)
  {
    assert forall i | 0 <= i < |before| :: after[i] == before[i];
  }

  lemma {:induction false} RoundsStay(before: seq<TraceEntry>, after: seq<TraceEntry>, n: nat, m: nat)
    requires AddsAfter(before, after, n) && m <= n
    ensures RepairRounds(after, m) == RepairRounds(before, m)
  {
    hide RepairRound, AddsAfter;
    if m > 0 {
      RoundStays(before, after, n, m);
      RoundsStay(before, after, n, m - 1);
    }
  }

  lemma NothingTraced(trace: seq<TraceEntry>)
    requires trace == []
    ensures UpToIteration(trace, 0) && RepairRounds(trace, 0) == 0
  {}

  lemma LaterRounds(trace: seq<TraceEntry>, n: nat, m: nat)
    requires n <= m && UpToIteration(trace, n)
    ensures RepairRounds(trace, m) == RepairRounds(trace, n)
  {
    NoLaterRounds(trace, n, m);
  }

  /** Iterations nothing was traced for need no repair. */
  lemma {:induction false} NoLaterRounds(trace: seq<TraceEntry>, n: nat, m: nat)
    requires n <= m && forall i | 0 <= i < |trace| :: trace[i].iteration <= n
    ensures RepairRounds(trace, m) == RepairRounds(trace, n)
    decreases m
  {
    if n < m { NoLaterRounds(trace, n, m - 1); }
  }

  const REFUSED_RESULT := ToolResult(Some(false), None, false)

  /** The entry a reply without decodable arguments leaves behind. */
  function RefusedBy(end: StreamEnd, iteration: nat): seq<TraceEntry> {
    if end.BadArguments? then [TraceEntry(end.tool, Failed, iteration, true, Some(REFUSED_RESULT))] else []
  }

  /** A refused call is no diagnosis and awaits nothing. */
  lemma RefusedIsQuiet(trace: seq<TraceEntry>, end: StreamEnd, iteration: nat)
    ensures Diagnosed(trace + RefusedBy(end, iteration)) <==> Diagnosed(trace)
    ensures InStatus(trace + RefusedBy(end, iteration), Awaiting) == InStatus(trace, Awaiting)
  {
    if end.BadArguments? {
      var e := RefusedBy(end, iteration)[0];
      DiagnosedAppend(trace, e);
      InStatusAppend(trace, e, Awaiting);
    } else {
      assert trace + [] == trace;
    }
  }

  /** The later trace adds refused calls of this iteration only. */
  ghost predicate AddsRefused(before: seq<TraceEntry>, after: seq<TraceEntry>, iteration: nat) {
    && before <= after
    && forall i | |before| <= i < |after| ::
         after[i].refused && after[i].iteration == iteration && after[i].status == Failed
         && after[i].result == Some(REFUSED_RESULT)
  }

  lemma NothingRefused(trace: seq<TraceEntry>, iteration: nat)
    ensures AddsRefused(trace, trace, iteration)
  {}

  lemma AddsOneRefused(before: seq<TraceEntry>, mid: seq<TraceEntry>, end: StreamEnd, iteration: nat)
    requires AddsRefused(before, mid, iteration)
    ensures AddsRefused(before, mid + RefusedBy(end, iteration), iteration)
  {}

  /** The later trace adds entries of these calls, one each and in their order. */
  ghost predicate AddsCalls(before: seq<TraceEntry>, after: seq<TraceEntry>, calls: seq<Call>, iteration: nat) {
    && before <= after && |after| <= |before| + |calls|
    && forall i | |before| <= i < |after| ::
         after[i].name == calls[i - |before|].name && after[i].iteration == iteration && !after[i].refused
  }

  ghost predicate UpToIteration(trace: seq<TraceEntry>, iteration: nat) {
    forall i | 0 <= i < |trace| :: trace[i].iteration <= iteration
  }

  /** An iteration calls for a repair when one of its calls failed and none for good; refusals do not count. */
  lemma RoundOfIteration(before: seq<TraceEntry>, mid: seq<TraceEntry>, after: seq<TraceEntry>, calls: seq<Call>,
                         iteration: nat)
    requires UpToIteration(before, iteration) && AddsRefused(before, mid, iteration + 1)
    requires AddsCalls(mid, after, calls, iteration + 1)
    ensures UpToIteration(after, iteration + 1)
    ensures RepairRound(after, iteration + 1) <==>
              && (exists i :: |mid| <= i < |after| && FailedCall(after[i], iteration + 1))
              && !(exists i :: |mid| <= i < |after| && FailedForGood(after[i], iteration + 1))
    ensures RepairRounds(after, iteration + 1)
            == RepairRounds(before, iteration) + if RepairRound(after, iteration + 1) then 1 else 0
  {
    forall i | 0 <= i < |mid|
      ensures after[i] == mid[i] && mid[i].iteration <= iteration + 1
      ensures !FailedCall(after[i], iteration + 1) && !FailedForGood(after[i], iteration + 1)
    {
      if i < |before| { assert mid[i] == before[i]; }
    }
    assert forall i | |before| <= i < |mid| :: after[i].iteration == iteration + 1;
    assert AddsAfter(before, after, iteration);
    RoundsStay(before, after, iteration, iteration);
  }
}
