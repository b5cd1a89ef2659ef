/**
 One chat turn, `stream_message` without the `claude_code` path. The provider, the tools and the
 confirmation service are arbitrary: the k-th use of each does whatever the environment says.
 Storage calls succeed; the consumer may close the stream at any event.
 */
module ChatTurn {

  import opened ChatTrace
  import opened Texts
  import opened Wrappers

  const NO_RESULT := ToolResult(None, None, false)

  class Turn {
    const env: Environment
    var events: seq<Event>
    var trace: seq<TraceEntry>
    var toolCallCount: nat
    var toolFailedCount: nat
    var savedCalls: nat
    var savedFailed: nat
    var status: Option<TurnStatus>
    var content: string
    var recovered: Option<Reason>
    var providerCalls: nat
    var executions: seq<Execution>
    var confirmations: nat
    var handovers: nat
    var successful: map<Call, ToolResult>
    var nonRetryable: map<string, ToolResult>
    var pending: bool
    var diagnosis: bool
    var emitted: string

    /** The turn has not ended: counters agree with the trace and are committed, so is no status. */
    ghost predicate Paused()
      reads this
    {
      && status == None
      && toolCallCount == savedCalls == |trace| && toolFailedCount == savedFailed == FailedIn(trace)
      && AllTruthful(events) && NoneTerminal(events)
    }

    /** Moreover, every traced call has been announced. */
    ghost predicate Ready()
      reads this
    {
      Paused() && Coherent(events, trace) && CachesHold()
    }

    ghost predicate CachesHold()
      reads this
    {
      Consistent(executions, successful, nonRetryable)
    }

    /** What has been shown, and whether it will be replaced by a diagnosis, follows from replies and trace. */
    ghost predicate Told()
      reads this
    {
      && emitted == EmittedBy(env, providerCalls)
      && (!diagnosis ==> Seen(events) == emitted)
      && (diagnosis <==> Diagnosed(trace))
    }

    /** A confirmation is shown once, for the one call that awaits it. */
    ghost predicate Offered()
      reads this
    {
      OfKind(events, Confirmation) == InStatus(trace, Awaiting) == if pending then 1 else 0
    }

    constructor (env: Environment)
      ensures Ready() && Told() && Offered()
      ensures this.env == env && providerCalls == 0 && !pending && !diagnosis && events == [] && trace == []
      ensures recovered == None
    {
      this.env := env;
      events, trace, executions := [], [], [];
      toolCallCount, toolFailedCount, savedCalls, savedFailed := 0, 0, 0, 0;
      providerCalls, confirmations, handovers := 0, 0, 0;
      status, recovered, content := None, None, "";
      successful, nonRetryable := map[], map[];
      pending, diagnosis, emitted := false, false, "";
    }

    function Now(kind: Kind, text: string): Event
      reads this`savedCalls, this`savedFailed, this`trace, this`status
    {
      Event(kind, text, savedCalls, savedFailed, |trace|, FailedIn(trace), status)
    }

    /** A yield that is neither about a tool call nor the last one. */
    method Emit(kind: Kind, text: string)
      requires Ready() && (kind == DeltaText || ((kind == Opening || kind == Thinking) && text == ""))
      modifies this`events
      ensures Ready() && events == old(events) + [Now(kind, text)]
      ensures Seen(events) == Seen(old(events)) + if kind == DeltaText then text else ""
      ensures OfKind(events, Thinking) == OfKind(old(events), Thinking) + if kind == Thinking then 1 else 0
      ensures OfKind(events, Confirmation) == OfKind(old(events), Confirmation)
    {
      hide Consistent, InStatus;
      var e := Now(kind, text);
      OfKindAppend(events, e, ToolStarted);
      OfKindAppend(events, e, ToolFinished);
      OfKindAppend(events, e, Thinking);
      OfKindAppend(events, e, Confirmation);
      SeenAppend(events, e);
      hide OfKind, Seen;
      events := events + [e];
    }

    /** `commit_checkpoint` for the audit row. */
    method Persist()
      modifies this`savedCalls, this`savedFailed
      ensures savedCalls == toolCallCount && savedFailed == toolFailedCount
    {
      savedCalls, savedFailed := toolCallCount, toolFailedCount;
    }

    /** A piece of text is kept, and shown unless a diagnosis will be rendered from it. */
    method ShowDelta(text: string)
      requires Ready()
      modifies this`events, this`emitted
      ensures Ready() && emitted == old(emitted) + text
      ensures events == old(events) + if diagnosis then [] else [Now(DeltaText, text)]
    {
      hide Consistent, Coherent, InStatus, OfKind, Seen;
      emitted := emitted + text;
      if !diagnosis { Emit(DeltaText, text); }
    }

    /** The body of the stream loop: deltas are shown as they come, the last completion wins. */
    method ReadStream(stream: seq<StreamEvent>, completion0: Option<StreamEvent>)
        returns (completion: Option<StreamEvent>, streamed: string)
      requires Ready() && (completion0.Some? ==> completion0.value.Completed?)
      modifies this`events, this`emitted
      ensures Ready()
      ensures completion == LastCompletion(stream, completion0) && (completion.Some? ==> completion.value.Completed?)
      ensures streamed == ShownBy(stream) && emitted == old(emitted) + streamed
      ensures events == old(events) + if diagnosis then [] else DeltaEvents(Now(DeltaText, ""), stream)
    {
      hide Consistent, Coherent, InStatus, OfKind, Seen, Ready, FailedIn, ShownBy, LastCompletion, DeltaEvents;
      completion, streamed := completion0, "";
      StreamStart(completion0, Now(DeltaText, ""));
      assert stream[..0] == [];
      for i := 0 to |stream|
        invariant Ready()
        invariant completion == LastCompletion(stream[..i], completion0)
            && (completion.Some? ==> completion.value.Completed?)
        invariant streamed == ShownBy(stream[..i]) && emitted == old(emitted) + streamed
        invariant events == old(events) + if diagnosis then [] else DeltaEvents(Now(DeltaText, ""), stream[..i])
      {
        StreamStep(stream, completion0, Now(DeltaText, ""), i);
        match stream[i]
        case Delta(text) =>
          if text != "" {
            streamed := streamed + text;
            ShowDelta(text);
          }
        case Completed(_, _) =>
          completion := Some(stream[i]);
      }
      assert stream[..|stream|] == stream;
    }

    /** Opens the trace entry of a call: counted, committed, announced. */
    method OpenCall(name: string, iteration: nat)
      requires Ready()
      modifies this`toolCallCount, this`trace, this`savedCalls, this`savedFailed, this`events
      ensures Ready() && trace == old(trace) + [TraceEntry(name, Running, iteration, false, None)]
      ensures Quiet(old(events), events) && old(events) <= events
      ensures InStatus(trace, Awaiting) == InStatus(old(trace), Awaiting)
      ensures Diagnosed(trace) <==> Diagnosed(old(trace))
    {
      hide Consistent, Coherent, Quiet, Diagnosed;
      var e := TraceEntry(name, Running, iteration, false, None);
      InStatusAppend(trace, e, Awaiting);
      DiagnosedAppend(trace, e);
      CallOpened(events, trace, e, toolFailedCount);
      toolCallCount := toolCallCount + 1;
      trace := trace + [e];
      Persist();
      QuietAppend(events, Now(ToolStarted, ""));
      events := events + [Now(ToolStarted, "")];
    }

    /** Closes it with the outcome, counting a failure; what awaits a confirmation also shows it. */
    method CloseCall(result: ToolResult, reused: bool)
      requires Ready() && trace != [] && trace[|trace| - 1].status == Running && trace[|trace| - 1].result.None?
      modifies this`toolFailedCount, this`trace, this`savedCalls, this`savedFailed, this`events
      ensures Ready()
      ensures InStatus(trace, Awaiting) == InStatus(old(trace), Awaiting)
                                           + if StatusOf(result, reused, pending) == Awaiting then 1 else 0
      ensures Diagnosed(trace) <==> Diagnosed(old(trace)) || Diagnoses(trace[|trace| - 1])
      ensures trace == old(trace)[|old(trace)| - 1 :=
          old(trace)[|old(trace)| - 1].(status := StatusOf(result, reused, pending), result := Some(result))]
      ensures Quiet(old(events), events) && old(events) <= events
    {
      hide Consistent, Coherent, Quiet;
      var last := |trace| - 1;
      var e := trace[last].(status := StatusOf(result, reused, pending), result := Some(result));
      if e.status == Failed { toolFailedCount := toolFailedCount + 1; }
      AwaitingClosed(trace, e);
      DiagnosedClosed(trace, e);
      CallClosed(events, trace, e, toolFailedCount);
      trace := trace[last := e];
      Persist();
      QuietAppend(events, Now(ToolFinished, ""));
      events := events + [Now(ToolFinished, "")];
    }

    /** The card of the prepared confirmation. */
    method ShowConfirmation()
      requires Ready()
      modifies this`events
      ensures Ready() && Seen(events) == Seen(old(events)) && old(events) <= events
      ensures OfKind(events, Thinking) == OfKind(old(events), Thinking)
      ensures OfKind(events, Confirmation) == OfKind(old(events), Confirmation) + 1
    {
      hide Consistent, InStatus;
      var e := Now(Confirmation, "");
      OfKindAppend(events, e, ToolStarted);
      OfKindAppend(events, e, ToolFinished);
      OfKindAppend(events, e, Thinking);
      OfKindAppend(events, e, Confirmation);
      SeenAppend(events, e);
      hide OfKind, Seen;
      events := events + [e];
    }

    /** `_invalid_tool_trace`: the entry is complete before the two events announce it. */
    method RecordInvalidCall(tool: string, iteration: nat)
      requires Ready()
      modifies this`toolCallCount, this`toolFailedCount, this`trace, this`savedCalls, this`savedFailed, this`events
      ensures Ready()
      ensures trace == old(trace) + [TraceEntry(tool, Failed, iteration, true, Some(REFUSED_RESULT))]
      ensures Quiet(old(events), events) && old(events) <= events
    {
      hide Consistent, Coherent, OfKind, InStatus, Seen;
      var e := TraceEntry(tool, Failed, iteration, true, Some(REFUSED_RESULT));
      InStatusAppend(trace, e, Failed);
      toolCallCount, toolFailedCount := toolCallCount + 1, toolFailedCount + 1;
      InvalidCallAnnounced(events, trace, e, toolCallCount, toolFailedCount);
      trace := trace + [e];
      Persist();
      QuietAppend(events, Now(ToolStarted, ""));
      events := events + [Now(ToolStarted, "")];
      assert Paused();
      QuietAppend(events, Now(ToolFinished, ""));
      events := events + [Now(ToolFinished, "")];
    }

    /** One provider call; arguments that do not decode leave a refused call in the trace. */
    method Attempt(before: Option<StreamEvent>, iteration: nat)
        returns (end: StreamEnd, completion: Option<StreamEvent>, streamed: string)
      requires Ready() && (before.Some? ==> before.value.Completed?)
      modifies this`events, this`emitted, this`toolCallCount, this`toolFailedCount, this`trace, this`savedCalls,
          this`savedFailed, this`providerCalls
      ensures Ready() && (completion.Some? ==> completion.value.Completed?) && old(events) <= events
      ensures providerCalls == old(providerCalls) + 1 && end == env.provider(old(providerCalls)).end
      ensures completion == LastCompletion(env.provider(old(providerCalls)).events, before)
      ensures streamed == ShownBy(env.provider(old(providerCalls)).events) && emitted == old(emitted) + streamed
      ensures trace == old(trace) + RefusedBy(end, iteration)
      ensures |trace| == |old(trace)| + if end.BadArguments? then 1 else 0
      ensures Seen(events) == Seen(old(events)) + if diagnosis then "" else streamed
      ensures OfKind(events, Thinking) == OfKind(old(events), Thinking)
      ensures OfKind(events, Confirmation) == OfKind(old(events), Confirmation)
    {
      hide Consistent, Coherent, InStatus, OfKind, Seen, ShownBy, LastCompletion, DeltaEvents, AllTruthful,
          NoneTerminal;
      var reply := env.provider(providerCalls);
      providerCalls := providerCalls + 1;
      DeltaEventsShow(events, Now(DeltaText, ""), reply.events);
      completion, streamed := ReadStream(reply.events, before);
      assert old(events) + [] == old(events);
      end := reply.end;
      if end.BadArguments? { RecordInvalidCall(end.tool, iteration); }
    }

    /** The inner loop of an iteration: one provider call and at most two argument repairs. */
    method Complete(iteration: nat) returns (signal: Signal, completion: Option<StreamEvent>, streamed: string,
        recovery: Option<Reason>)
      requires Ready() && !pending && Told() && Offered()
      requires CompletionBefore(env, providerCalls) == None && TracedNames(trace) == NamesBy(env, providerCalls)
      modifies this`events, this`emitted, this`toolCallCount, this`toolFailedCount, this`trace, this`savedCalls,
          this`savedFailed, this`providerCalls
      ensures Ready() && Told() && Offered() && old(events) <= events
      ensures old(providerCalls) < providerCalls <= old(providerCalls) + 3
      ensures TracedNames(trace) == NamesBy(env, providerCalls - 1) + RefusedNames(env.provider(providerCalls - 1).end)
      ensures forall k | old(providerCalls) <= k < providerCalls - 1 :: env.provider(k).end.BadArguments?
      ensures recovery == if env.provider(providerCalls - 1).end.BadArguments? then Some(InvalidArguments) else None
      ensures recovery.Some? ==> providerCalls == old(providerCalls) + 3
      ensures |trace| == |old(trace)| + providerCalls - old(providerCalls) - if recovery.Some? then 0 else 1
      ensures AddsRefused(old(trace), trace, iteration)
      ensures completion == CompletionAfter(env, providerCalls) && (completion.Some? ==> completion.value.Completed?)
      ensures signal == Cancelled <==> env.provider(providerCalls - 1).end.Cancelling?
      ensures signal == Exception <==> BreaksAt(env, providerCalls)
      ensures emitted == "" ==> streamed == ""
      ensures OfKind(events, Thinking) == OfKind(old(events), Thinking) + providerCalls - old(providerCalls) - 1
    {
      hide Consistent, Coherent, InStatus, OfKind, Seen, LastCompletion, ShownBy, Ready, Diagnosed, EmittedBy,
          CompletionAfter, CompletionBefore, BreaksAt, AddsRefused, RefusedBy, NamesBy, TracedNames, RefusedNames;
      NothingRefused(trace, iteration);
      completion, streamed, recovery := None, "", None;
      var repairs := 0;
      while true
        invariant Ready() && recovery == None && Told() && Offered() && old(events) <= events
        invariant TracedNames(trace) == NamesBy(env, providerCalls)
        invariant completion == CompletionBefore(env, providerCalls)
            && (completion.Some? ==> completion.value.Completed?)
        invariant repairs <= 2
        invariant providerCalls == old(providerCalls) + repairs && |trace| == |old(trace)| + repairs
        invariant AddsRefused(old(trace), trace, iteration)
        invariant forall k | old(providerCalls) <= k < providerCalls :: env.provider(k).end.BadArguments?
        invariant OfKind(events, Thinking) == OfKind(old(events), Thinking) + repairs
        decreases 2 - repairs
      {
        var end;
        ghost var before := trace;
        end, completion, streamed := Attempt(completion, iteration);
        OneMoreReply(env, providerCalls - 1);
        RefusedIsQuiet(before, end, iteration);
        TracedRefused(before, end, iteration);
        AddsOneRefused(old(trace), before, end, iteration);
        match end
        case Ended =>
          return if completion.None? then Exception else Normal, completion, streamed, None;
        case Failing =>
          return Exception, completion, streamed, None;
        case Cancelling =>
          return Cancelled, completion, streamed, None;
        case BadArguments(_) =>
          NothingRequested(env, trace, providerCalls);
          repairs := repairs + 1;
          if repairs > MAX_ARGUMENT_REPAIRS {
            return Normal, completion, streamed, Some(InvalidArguments);
          }
          Emit(Thinking, "");
      }
    }

    /** The quota branch: a confirmation is prepared instead of running the tool. */
    method PrepareConfirmation(name: string) returns (signal: Signal, result: ToolResult)
      requires Ready() && !pending
      modifies this`pending, this`confirmations
      ensures Ready()
      ensures signal == Normal <==> name in env.registered && !env.confirm(old(confirmations)).Breaks?
      ensures pending <==> name in env.registered && env.confirm(old(confirmations)).Prepared?
      ensures signal != Normal ==> signal == Exception
      ensures result == ToolResult(Some(pending), None, pending)
      ensures confirmations == old(confirmations) + if name in env.registered then 1 else 0
    {
      hide Consistent, Coherent;
      result := REFUSED_RESULT;
      if name !in env.registered {
        return Exception, result;
      }
      var outcome := env.confirm(confirmations);
      confirmations := confirmations + 1;
      match outcome
      case Prepared =>
        pending := true;
        return Normal, ToolResult(Some(true), None, true);
      case Declined => return Normal, result;
      case Breaks => return Exception, result;
    }

    /** The other branch: blocked tools and known successes are answered without running. */
    method RunTool(call: Call) returns (signal: Signal, result: ToolResult, reused: bool)
      requires Ready() && !pending && call.name !in QUOTA_TOOLS
      modifies this`executions, this`successful, this`nonRetryable
      ensures Ready()
      ensures var known := call.name in old(nonRetryable) || call in old(successful);
              var outcome := env.execute(|old(executions)|);
              && signal == (if known || outcome.Returns? then Normal else if outcome.Cancels? then Cancelled
                  else Exception)
              && (signal == Normal ==>
                    if call.name in old(nonRetryable) then !reused && result == old(nonRetryable)[call.name]
                    else if call in old(successful) then reused && result == old(successful)[call]
                    else !reused && Returns(result) == outcome)
              && executions == old(executions) + if signal == Normal && !known then [Execution(call, result)] else []
      ensures signal == Normal ==>
                nonRetryable == if result.retryable == Some(false) then old(nonRetryable)[call.name := result]
                    else old(nonRetryable)
      ensures signal == Normal ==>
                successful == if result.ok == Some(true) && call.name !in old(nonRetryable)
                    then old(successful)[call := result] else old(successful)
    {
      hide Coherent, InStatus, NoRerun;
      reused, result := false, NO_RESULT;
      if call.name in nonRetryable {
        return Normal, nonRetryable[call.name], false;
      }
      if call in successful {
        result, reused := successful[call], true;
        if result.retryable == Some(false) { ReuseIsRemembered(executions, successful, nonRetryable, call); }
      } else {
        match env.execute(|executions|)
        case Raises => return Exception, result, false;
        case Cancels => return Cancelled, result, false;
        case Returns(r) =>
          result := r;
          RunIsRemembered(executions, successful, nonRetryable, call, r);
          executions := executions + [Execution(call, r)];
          if r.ok == Some(true) { successful := successful[call := r]; }
      }
      if result.retryable == Some(false) { nonRetryable := nonRetryable[call.name := result]; }
      signal := Normal;
    }

    /** Records the outcome of a call and hands it to the provider, or shows the confirmation. */
    method SettleCall(call: Call, result: ToolResult, reused: bool) returns (signal: Signal)
      requires Ready() && Told() && trace != [] && trace[|trace| - 1].name == call.name
      requires trace[|trace| - 1].status == Running && trace[|trace| - 1].result.None?
      requires pending ==> result.ok == Some(true) && !reused
      requires OfKind(events, Confirmation) == InStatus(trace, Awaiting) == 0
      modifies this`diagnosis, this`toolFailedCount, this`trace, this`savedCalls, this`savedFailed, this`events,
          this`handovers
      ensures Ready() && signal == (if pending || env.handover(old(handovers)) then Normal else Exception)
      ensures handovers == old(handovers) + if pending then 0 else 1
      ensures trace == old(trace)[|old(trace)| - 1 :=
          old(trace)[|old(trace)| - 1].(status := StatusOf(result, reused, pending), result := Some(result))]
      ensures Told() && Offered() && OfKind(events, Thinking) == OfKind(old(events), Thinking)
      ensures old(events) <= events
    {
      hide Consistent, Coherent, InStatus, OfKind, Seen, AllTruthful, NoneTerminal, Diagnosed, EmittedBy;
      if call.name == DIAGNOSIS_TOOL && result.ok == Some(true) && result.hasData {
        diagnosis := true;
      }
      CloseCall(result, reused);
      if pending {
        ShowConfirmation();
        return Normal;
      }
      var fine := env.handover(handovers);
      handovers := handovers + 1;
      signal := if fine then Normal else Exception;
    }

    /** The result of a requested call: a prepared confirmation, a remembered answer or a run. */
    method Answer(call: Call) returns (signal: Signal, result: ToolResult, reused: bool)
      requires Ready() && !pending
      modifies this`pending, this`confirmations, this`executions, this`successful, this`nonRetryable
      ensures Ready()
      ensures pending ==> signal == Normal && result.ok == Some(true) && !reused
    {
      hide Consistent, Coherent, InStatus, OfKind, AllTruthful, NoneTerminal;
      reused := false;
      if call.name in QUOTA_TOOLS {
        signal, result := PrepareConfirmation(call.name);
      } else {
        signal, result, reused := RunTool(call);
      }
    }

    /** The entry of a call that was opened, and closed if it has an outcome. */
    predicate IsEntryOf(e: TraceEntry, call: Call, iteration: nat, signal: Signal, result: ToolResult, reused: bool,
                        awaits: bool) {
      && e.name == call.name && e.iteration == iteration && !e.refused
      && if e.result.None? then e.status == Running && signal != Normal && !awaits
         else e.result == Some(result) && e.status == StatusOf(result, reused, awaits)
    }

    /** One requested call, from its trace entry to the result handed to the provider. */
    method HandleCall(call: Call, iteration: nat) returns (signal: Signal, result: ToolResult, reused: bool)
      requires Ready() && !pending && Told() && Offered()
      modifies this
      ensures Ready() && Told() && Offered() && old(events) <= events
      ensures providerCalls == old(providerCalls) && recovered == old(recovered)
      ensures pending ==> signal == Normal && result.ok == Some(true) && !reused
      ensures OfKind(events, Thinking) == OfKind(old(events), Thinking)
      ensures |trace| == |old(trace)| + 1 && old(trace) <= trace
      ensures IsEntryOf(trace[|old(trace)|], call, iteration, signal, result, reused, pending)
    {
      hide Consistent, Coherent, InStatus, OfKind, Seen, AllTruthful, NoneTerminal, EmittedBy, Diagnosed;
      OpenCall(call.name, iteration);
      signal, result, reused := Answer(call);
      if signal == Normal {
        signal := SettleCall(call, result, reused);
      }
    }

    /** The calls of one completion, up to the first that needs a confirmation or raises. */
    method HandleCalls(calls: seq<Call>, iteration: nat)
        returns (signal: Signal, anyFailed: bool, anyNonRetryable: bool)
      requires Ready() && !pending && Told() && Offered()
      modifies this
      ensures Ready() && Told() && Offered() && old(events) <= events
      ensures providerCalls == old(providerCalls) && recovered == old(recovered)
      ensures pending ==> signal == Normal
      ensures OfKind(events, Thinking) == OfKind(old(events), Thinking)
      ensures AddsCalls(old(trace), trace, calls, iteration)
      ensures signal == Normal && !pending ==> |trace| == |old(trace)| + |calls|
      ensures signal == Normal ==>
                (anyFailed <==> exists i :: |old(trace)| <= i < |trace| && FailedCall(trace[i], iteration))
      ensures signal == Normal ==>
                (anyNonRetryable <==> exists i :: |old(trace)| <= i < |trace| && FailedForGood(trace[i], iteration))
    {
      hide Consistent, Coherent, InStatus, OfKind, Seen, Ready, EmittedBy, Diagnosed, Told, Offered;
      signal, anyFailed, anyNonRetryable := Normal, false, false;
      var i := 0;
      while i < |calls| && !pending
        invariant Ready() && Told() && Offered() && providerCalls == old(providerCalls) && signal == Normal
        invariant old(events) <= events
        invariant recovered == old(recovered) && OfKind(events, Thinking) == OfKind(old(events), Thinking)
        invariant i <= |calls| && |trace| == |old(trace)| + i && AddsCalls(old(trace), trace, calls, iteration)
        invariant anyFailed <==> exists k :: |old(trace)| <= k < |trace| && FailedCall(trace[k], iteration)
        invariant anyNonRetryable <==> exists k :: |old(trace)| <= k < |trace| && FailedForGood(trace[k], iteration)
        decreases |calls| - i
      {
        ghost var before := trace;
        var result, reused;
        signal, result, reused := HandleCall(calls[i], iteration);
        assert forall k | 0 <= k < |before| :: trace[k] == before[k];
        if signal != Normal {
          return;
        }
        assert FailedCall(trace[|before|], iteration) <==> result.ok == Some(false);
        assert FailedForGood(trace[|before|], iteration) <==>
            calls[i].name !in QUOTA_TOOLS && result.retryable == Some(false);
        anyFailed := anyFailed || result.ok == Some(false);
        anyNonRetryable := anyNonRetryable || (calls[i].name !in QUOTA_TOOLS && result.retryable == Some(false));
        i := i + 1;
      }
    }

    /** Commits the terminal status with its text, then yields the one terminal event. */
    method Finish(s: TurnStatus, kind: Kind, text: string)
      requires Ready() && Announces(kind, s)
      modifies this`status, this`content, this`events
      ensures Ended(s, kind) && content == text && Quiet(old(events), events)
      ensures |events| == |old(events)| + 1 && old(events) <= events
    {
      hide Consistent, Announced, InStatus, EndsOnce, AllTruthful, NoneTerminal, Quiet;
      status, content := Some(s), text;
      TurnEnded(events, trace, Now(kind, ""));
      QuietAppend(events, Now(kind, ""));
      events := events + [Now(kind, "")];
    }

    ghost predicate Ended(s: TurnStatus, kind: Kind)
      reads this
    {
      && status == Some(s) && Announces(kind, s)
      && EndsOnce(events) && events[|events| - 1].kind == kind && events[|events| - 1].committed == status
      && AllTruthful(events) && Announced(events, trace) && CachesHold()
    }

    /** The text kept for a turn that failed: what was emitted, or an apology. */
    function FailureText(): string
      reads this`emitted
    {
      if emitted != "" then emitted else env.failedText
    }

    /** What follows an exception of the given kind: rollback and error, or the cancelled reply. */
    method Abort(signal: Signal)
      requires Ready() && signal != Normal
      modifies this`status, this`content, this`events, this`toolCallCount, this`toolFailedCount
      ensures if signal == Cancelled then Ended(TurnCancelled, TurnStopped) else Ended(TurnFailed, TurnError)
      ensures content == (if signal == Cancelled then emitted else FailureText()) && Quiet(old(events), events)
      ensures |events| == |old(events)| + 1 && old(events) <= events
    {
      hide Consistent, Coherent, InStatus, AllTruthful, NoneTerminal, Announced, EndsOnce, Quiet;
      if signal == Cancelled {
        Finish(TurnCancelled, TurnStopped, emitted);
      } else {
        toolCallCount, toolFailedCount := savedCalls, savedFailed;
        Finish(TurnFailed, TurnError, FailureText());
      }
    }

    /** The one tool-free summary call of a degraded turn; its failures are tolerated. */
    method Summarise(reason: Reason) returns (signal: Signal, text: string)
      requires Ready()
      modifies this`events, this`emitted, this`providerCalls
      ensures Ready() && emitted == old(emitted) && old(events) <= events
      ensures providerCalls == old(providerCalls) + if diagnosis then 0 else 1
      ensures var reply := env.provider(old(providerCalls));
              var summary := Strip(SummaryText(reply));
              && signal == (if !diagnosis && reply.end.Cancelling? then Cancelled else Normal)
              && (signal == Normal ==>
                    text == if diagnosis then env.render("")
                        else if summary != "" then summary else env.fallback(reason))
              && Seen(events) == Seen(old(events)) + if diagnosis then env.render("") else ShownBy(reply.events)
      ensures OfKind(events, Confirmation) == OfKind(old(events), Confirmation)
      ensures OfKind(events, Thinking) == OfKind(old(events), Thinking)
    {
      hide Consistent, Coherent, InStatus, OfKind, Seen, ShownBy, LastCompletion, DeltaEvents, Strip, AllTruthful,
          NoneTerminal;
      if diagnosis {
        text := env.render("");
        Emit(DeltaText, text);
        return Normal, text;
      }
      var reply := env.provider(providerCalls);
      providerCalls := providerCalls + 1;
      var shown := emitted;
      DeltaEventsShow(events, Now(DeltaText, ""), reply.events);
      var completion, summary := ReadStream(reply.events, None);
      emitted := shown;
      if reply.end.Ended? && summary == "" && completion.Some? {
        summary := completion.value.text;
      }
      text := Strip(summary);
      if text == "" { text := env.fallback(reason); }
      signal := if reply.end.Cancelling? then Cancelled else Normal;
    }

    /** What the last reply decides; `finalText` is the answer, or its rendering as a diagnosis. */
    ghost predicate DecidedAt(n: nat, signal: Signal, recovery: Option<Reason>, finalText: string)
      requires n > 0
      reads this`diagnosis, this`pending
    {
      var end, answer := env.provider(n - 1).end, AnswerText(env, n);
      && (end.Cancelling? ==> signal == Cancelled)
      && (BreaksAt(env, n) ==> signal == Exception)
      && (end.BadArguments? ==> signal == Normal)
      && (end.BadArguments? <==> recovery == Some(InvalidArguments))
      && (AnswersAt(env, n) <==> signal == Normal && recovery.None? && !pending)
      && (AnswersAt(env, n) ==> finalText == if diagnosis then env.render(answer) else answer)
      && (pending || recovery == Some(ToolCallFailed) || recovery == Some(IterationLimit) ==>
            signal == Normal && end.Ended? && GoesOn(env, n - 1))
    }

    /** The text of an answer, which is shown here only if it is a diagnosis. */
    method TellAnswer(text: string, streamed: string) returns (finalText: string)
      requires Ready() && (emitted == "" ==> streamed == "")
      modifies this`events
      ensures Ready() && OfKind(events, Thinking) == OfKind(old(events), Thinking)
      ensures OfKind(events, Confirmation) == OfKind(old(events), Confirmation)
      ensures var answer := if emitted != "" then emitted else text;
              finalText == if diagnosis then env.render(answer) else answer
      ensures if diagnosis then events == old(events) + [Now(DeltaText, finalText)] else events == old(events)
    {
      hide Consistent, Coherent, InStatus, OfKind, Seen, AllTruthful, NoneTerminal;
      var raw := if emitted != "" then emitted else if text != "" then text else streamed;
      if diagnosis {
        finalText := env.render(raw);
        Emit(DeltaText, finalText);
      } else {
        finalText := raw;
      }
    }

    /** A reply that breaks off, is cancelled or gives up decides alone. */
    lemma BreakDecides(signal: Signal, recovery: Option<Reason>)
      requires providerCalls > 0 && !pending && (signal != Normal || recovery.Some?)
      requires signal == Cancelled <==> env.provider(providerCalls - 1).end.Cancelling?
      requires signal == Exception <==> BreaksAt(env, providerCalls)
      requires recovery == if env.provider(providerCalls - 1).end.BadArguments? then Some(InvalidArguments) else None
      ensures DecidedAt(providerCalls, signal, recovery, "")
    {}

    /** A completion without calls is the answer. */
    lemma AnswerDecides(completion: StreamEvent, finalText: string)
      requires providerCalls > 0 && !pending && env.provider(providerCalls - 1).end.Ended?
      requires CompletionAfter(env, providerCalls) == Some(completion)
      requires completion.Completed? && completion.calls == []
      requires emitted == EmittedBy(env, providerCalls)
      requires var answer := if emitted != "" then emitted else completion.text;
               finalText == if diagnosis then env.render(answer) else answer
      ensures AnswersAt(env, providerCalls) && DecidedAt(providerCalls, Normal, None, finalText)
    {}

    /** A completion with calls goes on, unless the calls end the turn. */
    lemma CallsDecide(completion: StreamEvent, signal: Signal, recovery: Option<Reason>)
      requires providerCalls > 0 && env.provider(providerCalls - 1).end.Ended?
      requires CompletionAfter(env, providerCalls) == Some(completion)
      requires completion.Completed? && completion.calls != []
      requires if pending then signal == Normal && recovery.None?
               else if signal == Normal then recovery == Some(ToolCallFailed) || recovery == Some(IterationLimit)
               else recovery.None?
      ensures DecidedAt(providerCalls, signal, recovery, "") && !AnswersAt(env, providerCalls)
    {}

    lemma CallsGoOn(completion: StreamEvent)
      requires providerCalls > 0 && env.provider(providerCalls - 1).end.Ended?
      requires CompletionAfter(env, providerCalls) == Some(completion)
      requires completion.Completed? && completion.calls != []
      ensures GoesOn(env, providerCalls - 1) && CompletionBefore(env, providerCalls) == None
    {}

    lemma RepairsGoOn(from: nat)
      requires forall k | from <= k < providerCalls - 1 :: env.provider(k).end.BadArguments?
      ensures forall k | from <= k < providerCalls - 1 :: GoesOn(env, k)
    {}

    /** The last reply asked for calls. */
    ghost predicate AskedFor(last: Option<StreamEvent>)
      reads this`providerCalls
    {
      && providerCalls > 0 && env.provider(providerCalls - 1).end.Ended?
      && last.Some? && last.value.Completed? && last.value.calls != [] && CompletionAfter(env, providerCalls) == last
    }

    /** Runs the requested calls, and counts the iteration if it calls for a repair. */
    method RunCalls(calls: seq<Call>, iteration: nat, failureRepairs: nat, ghost before: seq<TraceEntry>)
        returns (signal: Signal, recovery: Option<Reason>, repairs: nat)
      requires Ready() && !pending && Told() && Offered() && iteration > 0
      requires UpToIteration(before, iteration - 1) && AddsRefused(before, trace, iteration)
      requires failureRepairs == RepairRounds(before, iteration - 1) <= 2
      modifies this
      ensures Ready() && Told() && Offered() && recovered == old(recovered) && providerCalls == old(providerCalls)
      ensures old(events) <= events && AddsCalls(old(trace), trace, calls, iteration)
      ensures signal == Normal && !pending ==> |trace| == |old(trace)| + |calls|
      ensures OfKind(events, Thinking) == OfKind(old(events), Thinking)
      ensures pending ==> signal == Normal
      ensures signal != Normal || pending ==> recovery.None?
      ensures signal == Normal && !pending ==>
                && UpToIteration(trace, iteration) && repairs == RepairRounds(trace, iteration)
                && recovery == if repairs > 2 then Some(ToolCallFailed) else None
    {
      hide Consistent, Coherent, InStatus, OfKind, Seen, Ready, Told, Offered, RepairRounds, RepairRound, AddsRefused,
          AddsCalls, UpToIteration;
      recovery, repairs := None, failureRepairs;
      ghost var mid := trace;
      var anyFailed, anyNonRetryable;
      signal, anyFailed, anyNonRetryable := HandleCalls(calls, iteration);
      if signal != Normal || pending {
        return;
      }
      RoundOfIteration(before, mid, trace, calls, iteration - 1);
      if anyFailed && !anyNonRetryable {
        repairs := repairs + 1;
        if repairs > MAX_FAILURE_REPAIRS {
          recovery := Some(ToolCallFailed);
        }
      }
    }

    /** One iteration: complete, then either finish the text or run the requested tools. */
    method Round(iteration: nat, failureRepairs: nat)
        returns (signal: Signal, recovery: Option<Reason>, finalText: string, stops: bool, repairs: nat,
                 ghost last: Option<StreamEvent>)
      requires Ready() && !pending && Told() && Offered() && iteration > 0
      requires CompletionBefore(env, providerCalls) == None
      requires UpToIteration(trace, iteration - 1) && failureRepairs == RepairRounds(trace, iteration - 1) <= 2
      requires TracedNames(trace) == NamesBy(env, providerCalls)
      modifies this
      ensures Ready() && Told() && Offered() && recovered == old(recovered) && old(events) <= events
      ensures TracedNames(trace) <= NamesBy(env, providerCalls)
      ensures signal == Normal && !pending ==> TracedNames(trace) == NamesBy(env, providerCalls)
      ensures old(providerCalls) < providerCalls <= old(providerCalls) + 3
      ensures forall k | old(providerCalls) <= k < providerCalls - 1 :: GoesOn(env, k)
      ensures recovery != Some(IterationLimit) && (pending ==> signal == Normal && recovery == None)
      ensures stops ==> DecidedAt(providerCalls, signal, recovery, finalText)
      ensures !stops ==> !pending && signal == Normal && recovery.None? && finalText == "" && AskedFor(last)
      ensures signal == Normal && !pending ==>
                && UpToIteration(trace, iteration) && repairs == RepairRounds(trace, iteration)
                && (recovery == Some(ToolCallFailed) <==> repairs >= 3)
      ensures OfKind(events, Thinking) == OfKind(old(events), Thinking) + providerCalls - old(providerCalls)
                                          - (if stops then 1 else 0)
      ensures AnswersAt(env, providerCalls) && diagnosis ==>
                events != [] && events[|events| - 1].kind == DeltaText && events[|events| - 1].text == finalText
      ensures AnswersAt(env, providerCalls) ==> |trace| == |old(trace)| + providerCalls - old(providerCalls) - 1
    {
      hide Consistent, Coherent, InStatus, OfKind, Seen, Ready, EmittedBy, Diagnosed, RepairRounds, RepairRound,
          AddsRefused, AddsCalls, UpToIteration, CompletionAfter, CompletionBefore, GoesOn, DecidedAt, AnswersAt,
          BreaksAt, NamesBy, TracedNames, RefusedNames;
      finalText, stops, repairs, last := "", true, failureRepairs, None;
      ghost var before, asked := trace, providerCalls;
      var completion, streamed;
      signal, completion, streamed, recovery := Complete(iteration);
      RepairsGoOn(asked);
      RoundOfIteration(before, trace, trace, [], iteration - 1);
      if signal != Normal || recovery.Some? {
        BreakRequestsNothing();
        BreakDecides(signal, recovery);
        return;
      }
      EndedNormally(env, providerCalls);
      var calls, text := completion.value.calls, completion.value.text;
      if calls == [] {
        NothingRequested(env, trace, providerCalls);
        finalText := TellAnswer(text, streamed);
        AnswerDecides(completion.value, finalText);
        return;
      }
      last := completion;
      ghost var mid := trace;
      NoneRefused(env.provider(providerCalls - 1).end, NamesBy(env, providerCalls - 1));
      signal, recovery, repairs := RunCalls(calls, iteration, failureRepairs, before);
      RequestsTraced(env, mid, trace, calls, providerCalls, iteration);
      if signal != Normal || pending || recovery.Some? {
        CallsDecide(last.value, signal, recovery);
        return;
      }
      NoAnswerYet(last);
      Emit(Thinking, "");
      stops := false;
    }

    lemma BreakRequestsNothing()
      requires providerCalls > 0
      requires TracedNames(trace) == NamesBy(env, providerCalls - 1) + RefusedNames(env.provider(providerCalls - 1).end)
      requires BreaksAt(env, providerCalls) || env.provider(providerCalls - 1).end.Cancelling?
               || env.provider(providerCalls - 1).end.BadArguments?
      ensures TracedNames(trace) == NamesBy(env, providerCalls)
    {
      NothingRequested(env, trace, providerCalls);
    }

    lemma NoAnswerYet(last: Option<StreamEvent>)
      requires AskedFor(last)
      ensures !AnswersAt(env, providerCalls)
    {}

    /** The iterations, until one stops the turn. */
    method Iterate(maxIterations: int) returns (signal: Signal, recovery: Option<Reason>, finalText: string)
      requires Ready() && !pending && Told() && Offered() && providerCalls == 0 && trace == []
      modifies this
      ensures Ready() && Told() && Offered() && recovered == old(recovered) && old(events) <= events
      ensures TracedNames(trace) <= NamesBy(env, providerCalls)
      ensures signal == Normal && !pending ==> TracedNames(trace) == NamesBy(env, providerCalls)
      ensures providerCalls <= 3 * (if maxIterations < 0 then 0 else maxIterations)
      ensures forall k | 0 <= k < providerCalls - 1 :: GoesOn(env, k)
      ensures if maxIterations <= 0 then providerCalls == 0 && signal == Normal && recovery == Some(IterationLimit)
              else providerCalls > 0 && DecidedAt(providerCalls, signal, recovery, finalText)
      ensures recovery == Some(IterationLimit) ==> providerCalls >= maxIterations
      ensures pending ==> signal == Normal && recovery == None
      ensures providerCalls == 1 && AnswersAt(env, 1) ==> trace == []
      ensures maxIterations > 0 && AnswersAt(env, providerCalls) && diagnosis ==>
                events != [] && events[|events| - 1].kind == DeltaText && events[|events| - 1].text == finalText
      ensures signal == Normal && !pending && maxIterations > 0 ==>
                (recovery == Some(ToolCallFailed) <==> RepairRounds(trace, maxIterations) >= 3)
      ensures OfKind(events, Thinking) == OfKind(old(events), Thinking)
                                          + (if providerCalls > 0 then providerCalls - 1 else 0)
                                          + (if recovery == Some(IterationLimit) && maxIterations > 0 then 1 else 0)
    {
      hide Consistent, Coherent, InStatus, OfKind, Seen, Ready, EmittedBy, Diagnosed, RepairRounds, RepairRound,
          UpToIteration, CompletionAfter, CompletionBefore, GoesOn, DecidedAt, AnswersAt, BreaksAt, Told, Offered,
          AskedFor, NamesBy, TracedNames;
      NothingListed(env);
      var iteration, repairs := 0, 0;
      NothingTraced(trace);
      NothingCompleted(env);
      ghost var last: Option<StreamEvent> := None;
      while iteration < maxIterations
        invariant Ready() && !pending && Told() && Offered() && recovered == old(recovered)
        invariant old(events) <= events && TracedNames(trace) == NamesBy(env, providerCalls)
        invariant 0 <= iteration && (iteration <= maxIterations || iteration == 0)
        invariant iteration <= providerCalls <= 3 * iteration
        invariant forall k | 0 <= k < providerCalls :: GoesOn(env, k)
        invariant CompletionBefore(env, providerCalls) == None
        invariant if providerCalls > 0 then AskedFor(last) else trace == []
        invariant UpToIteration(trace, iteration) && repairs == RepairRounds(trace, iteration) <= 2
        invariant OfKind(events, Thinking) == OfKind(old(events), Thinking) + providerCalls
        decreases maxIterations - iteration
      {
        iteration := iteration + 1;
        var stops;
        signal, recovery, finalText, stops, repairs, last := Round(iteration, repairs);
        if stops {
          if signal == Normal && !pending { LaterRounds(trace, iteration, maxIterations); }
          return;
        }
        AskingGoesOn(last);
      }
      if providerCalls > 0 { LimitDecides(last); }
      return Normal, Some(IterationLimit), "";
    }

    lemma AskingGoesOn(last: Option<StreamEvent>)
      requires AskedFor(last)
      ensures GoesOn(env, providerCalls - 1) && CompletionBefore(env, providerCalls) == None
    {
      CallsGoOn(last.value);
    }

    lemma LimitDecides(last: Option<StreamEvent>)
      requires AskedFor(last) && !pending
      ensures DecidedAt(providerCalls, Normal, Some(IterationLimit), "") && !AnswersAt(env, providerCalls)
    {
      CallsDecide(last.value, Normal, Some(IterationLimit));
    }

    /** The turn has ended: one terminal event, last, that tells the committed status. */
    ghost predicate Over()
      reads this
    {
      && status.Some? && EndsOnce(events) && Announces(events[|events| - 1].kind, status.value)
      && events[|events| - 1].committed == status
      && AllTruthful(events) && Announced(events, trace) && CachesHold() && Offered()
      && (pending <==> status == Some(TurnAwaiting))
    }

    /** How a turn ends that gave up: with the summary, unless that is cancelled. */
    ghost predicate Degrades(reason: Reason, reply: Reply)
      reads this
    {
      var summary := Strip(SummaryText(reply));
      if diagnosis then status == Some(TurnDegraded) && content == env.render("")
      else if reply.end.Cancelling? then status == Some(TurnCancelled) && content == emitted
      else status == Some(TurnDegraded) && content == if summary != "" then summary else env.fallback(reason)
    }

    /** How the iterations' outcome becomes the committed status and text. */
    ghost predicate Concluded(signal: Signal, recovery: Option<Reason>, finalText: string, reply: Reply)
      reads this
    {
      if signal == Cancelled then status == Some(TurnCancelled) && content == emitted
      else if signal == Exception then status == Some(TurnFailed) && content == FailureText()
      else if recovery.Some? then Degrades(recovery.value, reply)
      else if pending then status == Some(TurnAwaiting) && content == env.awaitingText
      else if Blank(finalText) then status == Some(TurnFailed) && content == FailureText()
      else status == Some(TurnSucceeded) && content == Strip(finalText)
    }

    /** The end of a turn that gave up. */
    method Degrade(reason: Reason)
      requires Ready() && Offered() && !pending
      modifies this`events, this`emitted, this`providerCalls, this`status, this`content, this`toolCallCount,
          this`toolFailedCount
      ensures Over() && Degrades(reason, env.provider(old(providerCalls))) && old(events) <= events
      ensures providerCalls == old(providerCalls) + if diagnosis then 0 else 1
      ensures emitted == old(emitted) && OfKind(events, Thinking) == OfKind(old(events), Thinking)
      ensures Seen(events) == Seen(old(events))
                              + if diagnosis then env.render("") else ShownBy(env.provider(old(providerCalls)).events)
    {
      hide Consistent, Coherent, InStatus, OfKind, Seen, AllTruthful, NoneTerminal, Announced, EndsOnce, Strip,
          SummaryText, ShownBy;
      var summary, text := Summarise(reason);
      if summary == Normal { Finish(TurnDegraded, TurnCompleted, text); } else { Abort(summary); }
    }

    method Conclude(signal: Signal, recovery: Option<Reason>, finalText: string)
      requires Ready() && Offered() && (pending ==> signal == Normal && recovery == None)
      modifies this
      ensures Over() && Concluded(signal, recovery, finalText, env.provider(old(providerCalls)))
      ensures old(events) <= events
      ensures providerCalls == old(providerCalls)
                               + if signal == Normal && recovery.Some? && !diagnosis then 1 else 0
      ensures emitted == old(emitted) && diagnosis == old(diagnosis) && pending == old(pending)
      ensures trace == old(trace) && recovered == recovery && (pending <==> status == Some(TurnAwaiting))
      ensures OfKind(events, Thinking) == OfKind(old(events), Thinking)
      ensures signal != Normal || recovery.None? ==> |events| == |old(events)| + 1
      ensures Seen(events) == Seen(old(events))
                              + (if signal != Normal || recovery.None? then ""
                                 else if diagnosis then env.render("")
                                 else ShownBy(env.provider(old(providerCalls)).events))
    {
      hide Consistent, Coherent, InStatus, OfKind, Seen, AllTruthful, NoneTerminal, Announced, EndsOnce, Strip, Blank,
          Degrades, ShownBy;
      recovered := recovery;
      if signal != Normal {
        Abort(signal);
      } else if recovery.Some? {
        Degrade(recovery.value);
      } else if pending {
        Finish(TurnAwaiting, TurnCompleted, env.awaitingText);
      } else if Strip(finalText) == "" {
        StripIsEmptyIff(finalText);
        Abort(Exception);
      } else {
        StripIsEmptyIff(finalText);
        Finish(TurnSucceeded, TurnCompleted, Strip(finalText));
      }
    }

    lemma ClosedEarly()
      requires Over()
      ensures LeftAt(events[|events| - 1]) == status.value
      ensures forall k | 0 <= k < |events| - 1 :: LeftAt(events[k]) == TurnCancelled
    {
      ClosingEarlyCancels(events);
    }

    /**
     The consumer closes the stream at the last event so far: an open turn is committed as
     cancelled with the text emitted so far, an ended one stays as it is, and nothing more is yielded.
     */
    method Close()
      requires events != [] && (Paused() || Over())
      modifies this`status, this`content
      ensures status == Some(LeftAt(events[|events| - 1]))
      ensures status == if old(status).Some? then old(status) else Some(TurnCancelled)
      ensures content == if old(status).Some? then old(content) else emitted
    {
      assert Truthful(events[|events| - 1]);
      if status == None { status, content := Some(TurnCancelled), emitted; }
    }

    /** The number of replies the iterations asked for, without the one of a summary. */
    function Replies(): int
      reads this`recovered, this`diagnosis, this`providerCalls
    {
      providerCalls - if recovered.Some? && !diagnosis then 1 else 0
    }

    /** The status and the text follow from the replies, the tools' results and the confirmation. */
    ghost predicate Accounted(n: nat)
      requires n > 0
      reads this
    {
      var end, answer := env.provider(n - 1).end, AnswerText(env, n);
      var finalText := if diagnosis then env.render(answer) else answer;
      && emitted == EmittedBy(env, n)
      && (end.Cancelling? ==> status == Some(TurnCancelled) && content == emitted)
      && (BreaksAt(env, n) ==> status == Some(TurnFailed) && content == FailureText())
      && (end.BadArguments? <==> recovered == Some(InvalidArguments))
      && (AnswersAt(env, n) ==>
            if Blank(finalText) then status == Some(TurnFailed) && content == FailureText()
            else status == Some(TurnSucceeded) && content == Strip(finalText))
      && (status == Some(TurnSucceeded) ==> AnswersAt(env, n))
      && (status == Some(TurnAwaiting) ==> content == env.awaitingText && GoesOn(env, n - 1))
      && (status == Some(TurnDegraded) ==> recovered.Some?)
      && (recovered.Some? ==> Degrades(recovered.value, env.provider(n)))
      && (status == Some(TurnCancelled) && recovered.None? ==> content == emitted)
      && (status == Some(TurnFailed) ==>
            recovered.None? && content == if EmittedBy(env, n) != "" then EmittedBy(env, n) else env.failedText)
    }

    lemma AccountFollows(signal: Signal, recovery: Option<Reason>, finalText: string, n: nat)
      requires n > 0 && recovered == recovery && pending == (status == Some(TurnAwaiting))
      requires emitted == EmittedBy(env, n)
      requires DecidedAt(n, signal, recovery, finalText) && (pending ==> signal == Normal && recovery.None?)
      requires Concluded(signal, recovery, finalText, env.provider(n))
      requires recovery.Some? ==> signal == Normal
      ensures Accounted(n)
    {
      hide SummaryText, Strip, Blank, EmittedBy, CompletionAfter;
    }

    /** What ended goes beyond what had not. */
    lemma OverIsLonger(before: seq<Event>)
      requires Over() && before <= events && forall i | 0 <= i < |before| :: !Terminal(before[i].kind)
      ensures |events| > |before|
    {}

    lemma SetupFailure(reply: Reply)
      requires Concluded(Exception, None, "", reply) && emitted == ""
      ensures status == Some(TurnFailed) && content == env.failedText
    {}

    lemma LimitDegrades(finalText: string, reply: Reply)
      requires Concluded(Normal, Some(IterationLimit), finalText, reply)
      ensures Degrades(IterationLimit, reply) && status != Some(TurnSucceeded)
    {}

    lemma ConclusionFollows(signal: Signal, recovery: Option<Reason>, finalText: string, n: nat)
      requires n > 0 && recovered == recovery && pending == (status == Some(TurnAwaiting))
      requires emitted == EmittedBy(env, n)
      requires DecidedAt(n, signal, recovery, finalText) && (pending ==> signal == Normal && recovery.None?)
      requires Concluded(signal, recovery, finalText, env.provider(n))
      ensures Accounted(n)
      ensures recovery.Some? ==> signal == Normal
      ensures status == Some(TurnSucceeded) ==>
                signal == Normal && recovery.None? && !pending && AnswersAt(env, n) && content == Strip(finalText)
    {
      if recovery.Some? {
        match recovery.value
        case IterationLimit =>
        case InvalidArguments =>
        case ToolCallFailed =>
      }
      AccountFollows(signal, recovery, finalText, n);
      hide SummaryText, Strip, Blank, EmittedBy, CompletionAfter;
    }

    /** When the first reply is an answer, it alone decides. */
    lemma FirstReplyAnswers(n: nat)
      requires n > 0 && AnswersAt(env, 1) && (forall k | 0 <= k < n - 1 :: GoesOn(env, k)) && Accounted(n)
      requires (n == 1 ==> trace == []) && (diagnosis <==> Diagnosed(trace))
      ensures n == 1 && !diagnosis && status == Some(if Blank(AnswerText(env, 1)) then TurnFailed else TurnSucceeded)
      ensures status == Some(TurnSucceeded) ==> content == Strip(AnswerText(env, 1))
      ensures recovered.None?
    {
      if n > 1 { GoingOnIsNoAnswer(env, 0); }
      NothingDiagnosed([]);
      hide Strip, Blank, EmittedBy, CompletionAfter, SummaryText;
    }

    /** The iterations and what follows from them. */
    method RunTurn(maxIterations: int)
      requires Ready() && Told() && Offered() && trace == []
      requires providerCalls == 0 && !pending && recovered == None
      modifies this
      ensures Over() && old(events) <= events
      ensures Replies() >= 0 && TracedNames(trace) <= NamesBy(env, Replies())
      ensures status == Some(TurnSucceeded) || recovered.Some? ==> TracedNames(trace) == NamesBy(env, Replies())
      ensures providerCalls <= 3 * (if maxIterations < 0 then 0 else maxIterations) + 1
      ensures maxIterations <= 0 ==>
                recovered == Some(IterationLimit) && Degrades(IterationLimit, env.provider(0)) && Replies() == 0
      ensures maxIterations > 0 ==>
                Replies() > 0 && (forall k | 0 <= k < Replies() - 1 :: GoesOn(env, k)) && Accounted(Replies())
      ensures maxIterations > 0 && AnswersAt(env, 1) ==>
                && providerCalls == 1
                && status == Some(if Blank(AnswerText(env, 1)) then TurnFailed else TurnSucceeded)
                && (status == Some(TurnSucceeded) ==> content == Strip(AnswerText(env, 1)))
      ensures !diagnosis && recovered.None? ==> Seen(events) == emitted
      ensures status == Some(TurnSucceeded) && diagnosis ==>
                |events| > 1 && events[|events| - 2].kind == DeltaText && content == Strip(events[|events| - 2].text)
      ensures status == Some(TurnSucceeded) || recovered.Some? ==>
                maxIterations <= 0 || (recovered == Some(ToolCallFailed) <==> RepairRounds(trace, maxIterations) >= 3)
      ensures OfKind(events, Thinking) == OfKind(old(events), Thinking) + (if Replies() > 0 then Replies() - 1 else 0)
                                          + (if recovered == Some(IterationLimit) && maxIterations > 0 then 1 else 0)
    {
      hide InStatus, OfKind, Seen, Consistent, Coherent, Ready, Over, Diagnosed, Degrades, Accounted, Concluded,
          DecidedAt, GoesOn, EmittedBy, CompletionAfter, Strip, Blank, RepairRounds, AnswerText, FailureText, Offered,
          AnswersAt, NamesBy, TracedNames;
      var signal, recovery, finalText := Iterate(maxIterations);
      ghost var n, told := providerCalls, events;
      Conclude(signal, recovery, finalText);
      if maxIterations > 0 {
        ConclusionFollows(signal, recovery, finalText, n);
        if AnswersAt(env, 1) { FirstReplyAnswers(n); }
        if status == Some(TurnSucceeded) {
          assert told == events[..|events| - 1];
        }
      } else {
        LimitDegrades(finalText, env.provider(0));
      }
    }

    /**
     `stream_message`: whatever the provider, the tools and the confirmations do, the turn ends with
     one terminal event that tells the committed status; status and text are accounted for.
     */
    method StreamMessage(maxIterations: int)
      requires Ready() && Told() && Offered() && events == [] && trace == []
      requires providerCalls == 0 && !pending && recovered == None
      modifies this
      ensures Over()
      ensures LeftAt(events[|events| - 1]) == status.value
      ensures forall k | 0 <= k < |events| - 1 :: LeftAt(events[k]) == TurnCancelled
      ensures |events| > 3 && events[0].kind == events[1].kind == Opening && events[2].kind == Thinking
      ensures Replies() >= 0 && TracedNames(trace) <= NamesBy(env, Replies())
      ensures status == Some(TurnSucceeded) || recovered.Some? ==> TracedNames(trace) == NamesBy(env, Replies())
      ensures providerCalls <= 3 * (if maxIterations < 0 then 0 else maxIterations) + 1
      ensures env.setupFails ==> status == Some(TurnFailed) && content == env.failedText && providerCalls == 0
      ensures !env.setupFails && maxIterations <= 0 ==>
                recovered == Some(IterationLimit) && Degrades(IterationLimit, env.provider(0))
      ensures !env.setupFails && maxIterations > 0 ==>
                Replies() > 0 && (forall k | 0 <= k < Replies() - 1 :: GoesOn(env, k)) && Accounted(Replies())
      ensures !env.setupFails && maxIterations > 0 && AnswersAt(env, 1) ==>
                && providerCalls == 1
                && status == Some(if Blank(AnswerText(env, 1)) then TurnFailed else TurnSucceeded)
                && (status == Some(TurnSucceeded) ==> content == Strip(AnswerText(env, 1)))
      ensures !diagnosis && recovered.None? ==> Seen(events) == emitted
      ensures status == Some(TurnSucceeded) && diagnosis ==>
                |events| > 1 && events[|events| - 2].kind == DeltaText && content == Strip(events[|events| - 2].text)
      ensures status == Some(TurnSucceeded) || recovered.Some? ==>
                maxIterations <= 0 || (recovered == Some(ToolCallFailed) <==> RepairRounds(trace, maxIterations) >= 3)
      ensures OfKind(events, Thinking) == 1 + (if Replies() > 0 then Replies() - 1 else 0)
                                          + (if recovered == Some(IterationLimit) && maxIterations > 0 then 1 else 0)
    {
      hide InStatus, OfKind, Seen, Consistent, Coherent, Ready, Over, LeftAt, Diagnosed, Degrades, Accounted, Concluded,
          GoesOn, EmittedBy, CompletionAfter, Strip, Blank, RepairRounds, AnswerText, AnswersAt, NamesBy, TracedNames;
      NothingListed(env);
      NothingShown(events);
      NothingEmitted(env);
      Emit(Opening, "");
      Emit(Opening, "");
      Emit(Thinking, "");
      ghost var opening := events;
      assert |opening| == 3;
      if env.setupFails {
        Conclude(Exception, None, "");
        SetupFailure(env.provider(0));
      } else {
        RunTurn(maxIterations);
      }
      OverIsLonger(opening);
      ClosedEarly();
    }
  }
}
