# DiskPulse: verified models of its stateful services

DiskPulse monitors storage systems. This project models the parts of its backend whose correctness
is hard to see from one function, and proves what their code and tests promise. `dafny verify
dfyconfig.toml` checks everything.

| Area | Files (`Wrappers` and `Texts` hold what several share) | Main results |
|---|---|---|
| Name obfuscation | `Substitution`, `Restoring`, `Aliases`, `Faithfulness`, `Obfuscator` | streaming restoration equals whole-text restoration, and obfuscation is undone exactly, both with their exact condition on the aliases |
| Incidents | `Incidents`, `IncidentInvariants`, `IncidentClustering`, `IncidentIdentity`, `IncidentEffects`, `IncidentReview`, `IncidentStore` | invariants over every run of four writers; the online cursor refines offline clustering; evidence never crosses assets; which incidents a repair closes |
| Chat turn | `ChatTrace`, `ChatTurn` | termination, one terminal event, status and text accounted for by the replies, counters, no reruns, for every environment |
| Visibility and confirmations | `Visibility`, `QuotaConfirmation`, `QuotaProtocol`, `QuotaService` | a semilattice with absorbing unknown; at-most-once execution under every interleaving; what a reload shows |
| Forecasts | `Ascending`, `OrderStatistics`, `TheilSen`, `DailyHistory`, `Forecast`, `CandidateCurves`, `RollingEvaluation`, `ActivationGate` | dependence on daily maxima only, equivariance, validity of every fallback, monotone risk, sound holdouts |
| Tool calls | `ToolCalls` | reassembly independent of the interleaving |

Code that changes state is a class or a method with loops, proved against specification functions;
the properties are lemmas about those functions and about runs of steps. Providers, models, tools,
encryption, permissions and the choice of random identifiers are parameters, so each result holds
for all of them.

## What the proofs found

Where a promise is false of the code, the code is kept and the exact condition is proved.

- An alias whose random tail ends in `Q` followed by `tree-...` can look like a Qtree alias. Exactly
  when a conversation holds a tail ending in `Q` and a Qtree alias, some stream leaks an alias and
  some pair of texts becomes indistinguishable (`Faithfulness.StreamFaithfulIff`,
  `Faithfulness.RoundTripFaithfulIff`).
- Evidence that is late by more than the window is meant to open its own incident
  (`backend/services/forecastIncidentService.py:1267-1269`), but the unique constraint on key and
  bucket (`backend/models.py:784`) can refuse it (`IncidentClustering.LateEvidenceIsRejected`). It
  opens one exactly when no incident of its key was opened in its bucket
  (`IncidentClustering.OpensOwnIncidentIff`). Even in-order evidence can be refused exactly when the
  window is shorter than a bucket (`IncidentClustering.InOrderNeverFailsIff`).
- The superseded check of a review compares status and newest evidence only, so a review can be
  applied to an incident that was resolved and reopened in between
  (`IncidentReview.RoundTripIsUnnoticed`); `IncidentReview.ReviewIsAppliedIff` says exactly when one is.
- A claim is offered only for an incident nobody holds, but the service takes it whoever does
  (`IncidentEffects.OfferIsKeptIff`).
- A turn that gave up and is cancelled while it summarises keeps the text emitted before, not the
  summary the user has seen (`ChatTurn.Turn.Conclude`).
- A stored unknown visibility reads back like a missing one, so a later reply can be visible when an
  earlier one is not (`Visibility.LaterCanRevealMore`); `Visibility.LaterImpliesEarlierIff` says
  exactly when that cannot happen.
- The turn rewrites its audit from its own trace, so a decision made before its terminal checkpoint
  is lost, whether the turn ends awaiting, cancelled or failed. In the first case the reload offers a
  card that every decider is refused (`QuotaProtocol.DecisionIsKeptIff`,
  `QuotaProtocol.StaleCardIsRefused`).
- A confirmation is consumed before its owner is checked: a super admin other than the owner uses it
  up without running it (`QuotaProtocol.SettlingBurnsIff`).
- A forecast needs 36 days, not the 30 named in the risk text, because coverage is stricter
  (`Forecast.ReadyIff`).
- The fallback for model curves does not catch everything: an integer beyond every float, a timestamp
  without a UTC equivalent, deeply nested brackets, a message that is no object and a tool call whose
  function is no object escape as exceptions (`CandidateCurves.GeneratorIsSafeIff`,
  `CandidateCurves.BodyEscapesIff`).

## Model

| member | source | states |
|---|---|---|
| Substitution.ScanLeavesNoPattern | backend/services/ai_name_obfuscation_service.py:113-119 | no run of characters the scan leaves unreplaced contains a protected value |
| Substitution.SequentialIsSimultaneous | backend/services/ai_name_obfuscation_service.py:121-125 | for aliases none of which contains, or overlaps at its border, another or itself, replacing them one after another in any order equals replacing them all at once, when no alias arises in the text between |
| Restoring.RestoreIsSimultaneous | backend/services/ai_name_obfuscation_service.py:121-125 | the same for the longest-first order `restore_text` uses |
| Restoring.HoldCutsNoAlias | backend/services/ai_name_obfuscation_service.py:51-62 | holding back the longest suffix that may start an alias never cuts through an alias, whatever comes next |
| Restoring.HoldLengthIff | backend/services/ai_name_obfuscation_service.py:51-62 | what is held back is the longest end of the buffer that begins an alias and is shorter than the longest one |
| Restoring.StreamEqualsWhole | backend/services/ai_name_obfuscation_service.py:36-62 | for cross-free aliases and a text that restores cleanly, `feed` over any chunking plus `flush` outputs exactly `restore_text` of the whole |
| Aliases.CrossFreeIff | backend/services/ai_name_obfuscation_service.py:164-169 | a set of generated aliases is cross-free if and only if it does not hold both a tail ending in Q and a Qtree alias |
| Faithfulness.StreamFaithfulIff | backend/services/ai_name_obfuscation_service.py:33-62 | for generated aliases, streaming equals whole-text restoration for every dictionary the obfuscator can hold with them, every text that restores cleanly and every chunking, if and only if that pair is absent |
| Faithfulness.HazardLeaks | backend/services/ai_name_obfuscation_service.py:40-49 | with the pair present, under a one-to-one dictionary with these aliases, streaming one chunk shows an alias as it is, although the whole text restores cleanly and without it |
| Faithfulness.RoundTrip | backend/services/ai_name_obfuscation_service.py:113-125 | obfuscating a text that contains no alias and restoring it gives the text back, for every set of names and cross-free aliases |
| Faithfulness.RoundTripFaithfulIff | backend/services/ai_name_obfuscation_service.py:113-125 | for generated aliases, the round trip holds for every dictionary the obfuscator can hold, every scan list that holds its values and every alias-free text, if and only if the same pair is absent |
| Faithfulness.HazardObfuscatesAlike | backend/services/ai_name_obfuscation_service.py:113-119 | with the pair present, two different texts that contain no alias obfuscate to the same text under one one-to-one dictionary and one scan list that holds all its values |
| Obfuscator.FreshAliasExists | backend/services/ai_name_obfuscation_service.py:164-169 | by pigeonhole there is always a fresh alias of every kind while fewer than 36^8, the number of tails, are in use |
| Obfuscator.LoadedIsMutual | backend/services/ai_name_obfuscation_service.py:77-82 | stored rows with distinct aliases load into maps that are mutual inverses, although later rows overwrite earlier ones |
| Obfuscator.LoadAliases | backend/services/ai_name_obfuscation_service.py:195-204 | the loading loop computes the dictionary of the rows, or fails exactly when some value does not decrypt |
| Obfuscator.ScanOrderIrrelevant | backend/services/ai_name_obfuscation_service.py:114-119 | the scan result does not depend on how equally long protected values are ordered, nor on the iteration order of the set |
| Obfuscator.SortedNames | backend/services/ai_name_obfuscation_service.py:114-115 | the loop lists exactly the non-empty protected values, longest first |
| Obfuscator.AddedIsConsistent | backend/services/ai_name_obfuscation_service.py:146-162 | adding one entry keeps the two maps and the stored rows mutual inverses and every alias generated |
| Obfuscator.ConversationNameObfuscator.NewAlias | backend/services/ai_name_obfuscation_service.py:164-169 | returns the label of the requested kind with a tail such that the alias is not in use |
| Obfuscator.ConversationNameObfuscator.AliasFor | backend/services/ai_name_obfuscation_service.py:137-162 | returns the existing alias or adds exactly one entry, whose alias carries the value's only kind or the ambiguous one; fails at 2000 entries or when the value does not encrypt, and then changes nothing |
| Obfuscator.ConversationNameObfuscator.Substitute | backend/services/ai_name_obfuscation_service.py:117-119 | the scan loop, creating aliases as it goes, renders the scan under the final dictionary |
| Obfuscator.ConversationNameObfuscator.ObfuscateText | backend/services/ai_name_obfuscation_service.py:113-119 | it succeeds exactly when every protected value the text meets for the first time can be encrypted and the dictionary stays within 2000 entries, and then gains an alias for exactly those; the maps stay inverse, and the result is the obfuscation of the text under the grown dictionary |
| Obfuscator.ConversationNameObfuscator.Restore | backend/services/ai_name_obfuscation_service.py:121-125 | the replacement loop computes the specified restoration and leaves the dictionary alone |
| Obfuscator.ConversationNameObfuscator.ObfuscateValue | backend/services/ai_name_obfuscation_service.py:91-100 | every string in a nested value is obfuscated under the final dictionary, although later strings extend it; it succeeds exactly when the values met in all its strings together can be encrypted and fit |
| Obfuscator.ObfuscateRun | backend/services/ai_name_obfuscation_service.py:88-100 | over any run of obfuscations, failing ones included, the maps stay inverse, only grow, never beyond the cap, and every result stays valid under the final dictionary |
| Obfuscator.LaterRoundTrip | backend/services/ai_name_obfuscation_service.py:113-125 | an obfuscated text stays restorable after any later growth of the dictionary |
| Obfuscator.ValueRoundTrip | backend/services/ai_name_obfuscation_service.py:91-111 | restoring an obfuscated nested value gives the value back, under every later dictionary |
| Obfuscator.AliasStreamRestorer.PossibleAliasPrefixLength | backend/services/ai_name_obfuscation_service.py:51-62 | the downward loop returns the longest suffix that may still become an alias |
| Obfuscator.AliasStreamRestorer.Feed | backend/services/ai_name_obfuscation_service.py:40-45 | releases the restored safe part and keeps exactly the held part |
| Obfuscator.AliasStreamRestorer.Flush | backend/services/ai_name_obfuscation_service.py:47-49 | releases the restored rest and empties the buffer |
| Obfuscator.StreamReply | backend/services/ai_chat_service.py:1116-1139 | the streaming loop of a turn shows the whole-text restoration for every chunking, unless the two kinds of Q meet |
| IncidentInvariants.ApplyKeepsInv | backend/services/forecastIncidentService.py:1181-1282 | every request of every writer keeps the invariants of evidence, cursors, buckets, statuses and timeline |
| IncidentInvariants.ReachableInv | backend/services/forecastIncidentService.py:1181-1282 | over every run: `last_evidence_at` is the maximum over the incident's evidence, the cursor is the maximum over the key's evidence and its incident attains it, `resolved_at` is set exactly when resolved, and replaying the timeline gives the status through adjacent hops except reopening and reconciliation |
| IncidentInvariants.CorrelateKeepsInv | backend/services/forecastIncidentService.py:1214-1276 | late, duplicate and suppressed evidence keeps the invariants; a request that raises changes nothing |
| IncidentInvariants.CloseKeepsInv | backend/services/incidentReconciliationService.py:85-102 | reconciliation, which may resolve from any open state, keeps the invariants |
| IncidentInvariants.FinishKeepsInv | backend/services/incidentAiAgentService.py:378-446 | finishing a review keeps the invariants; its transition is never refused |
| IncidentClustering.OnlineIsOffline | backend/services/forecastIncidentService.py:1214-1276 | for evidence of a key that arrived in order, two pieces share an incident if and only if offline clustering by gaps no larger than the window puts them together |
| IncidentClustering.ClusterIsChain | backend/services/forecastIncidentService.py:1214-1218 | two positions are in one cluster exactly when no gap between them exceeds the window |
| IncidentClustering.BucketFailureIsLate | backend/services/forecastIncidentService.py:1241-1256 | with a window of at least a bucket, the unique (key, bucket) constraint is only violated by evidence later than the window behind the cursor |
| IncidentClustering.InOrderNeverFailsIff | backend/services/forecastIncidentService.py:506-508 | in-order evidence never violates the constraint if and only if the window is at least a bucket |
| IncidentClustering.OpensOwnIncidentIff | backend/services/forecastIncidentService.py:1241-1275 | in every reachable state new evidence outside the window opens its own incident if and only if no incident of its key was opened in its bucket, and raises otherwise; late evidence never moves the cursor |
| IncidentClustering.LateEvidenceIsRejected | backend/services/forecastIncidentService.py:1267-1275 | a concrete run after which evidence late by more than the window is refused by the constraint |
| IncidentClustering.RedeliveryChangesNothing | backend/services/forecastIncidentService.py:1184-1189 | after any further run, redelivering stored evidence returns its incident and changes no table |
| IncidentReview.ChangedIncidentIsNotReviewed | backend/services/incidentAiAgentService.py:390-394 | whatever happens between snapshot and finish, a review whose incident has another status or newest evidence then writes nothing but its run |
| IncidentReview.ReviewTouchesOneIncident | backend/services/incidentAiAgentService.py:395-446 | a review changes no incident but its own |
| IncidentReview.ReviewIsAppliedIff | backend/services/incidentAiAgentService.py:378-446 | after a snapshot and any steps that leave the run open, the finish is applied to the incident if and only if reviews are enabled, some answer is valid for the snapshot, and status and newest evidence are the snapshot's |
| IncidentReview.RoundTripIsUnnoticed | backend/services/incidentAiAgentService.py:390-394 | in a concrete run from empty tables an incident is resolved and reopened under review, and the stale answer sets its urgency and status |
| IncidentClustering.BucketStartIs | backend/services/forecastIncidentService.py:506-508 | buckets are the half hours |
| IncidentIdentity.KeyIff | backend/services/forecastIncidentService.py:511-512 | two observations have the same key if and only if they name the same cluster, asset type, asset identifier and category; identifiers may hold colons, cluster numbers and types never do |
| IncidentIdentity.ObservationStaysWithItsAsset | backend/services/forecastIncidentService.py:1201-1282 | after any run an observation joins, touches and reopens no incident opened for another asset or category, and stores its evidence at one of its own |
| IncidentEffects.TransitionIff | backend/services/forecastIncidentService.py:495-503 | a transition is one step of the work forward, or the reopening reserved to the system |
| IncidentEffects.UnsupportedIff | backend/services/forecastIncidentService.py:1182-1183 | exactly the four categories are accepted |
| IncidentEffects.SuppressedIff | backend/services/forecastIncidentService.py:1184-1199 | maintenance suppresses exactly evidence that is not stored yet, and changes nothing |
| IncidentEffects.OpeningEffect | backend/services/forecastIncidentService.py:1241-1258 | a fresh incident is open, unassigned and holds what its first observation said |
| IncidentEffects.JoiningEffect | backend/services/forecastIncidentService.py:1223-1265 | joining evidence reopens a resolved incident, raises it to critical exactly when the evidence is, moves its summary forward and leaves every other column alone |
| IncidentEffects.SeverityOverRun | backend/services/forecastIncidentService.py:1223-1265 | over any run only critical evidence or a manual edit makes an incident critical, and only an edit ends that |
| IncidentEffects.UpdatedIff | backend/services/forecastIncidentService.py:1426-1491 | which updates are accepted: the next status, a release that is not somebody else's, and some change |
| IncidentEffects.RefusedIff | backend/services/forecastIncidentService.py:1439-1491 | which of the four refusals any other update meets |
| IncidentEffects.UpdateEffect | backend/services/forecastIncidentService.py:1447-1489 | an accepted update sets each requested column of one row and adds one entry for each change, in order |
| IncidentEffects.AssigneeChangesOnlyBy | backend/services/forecastIncidentService.py:1470-1479 | no request of any writer changes an assignee but a visible claim, whoever held the incident, or a release by its assignee or a super admin |
| IncidentEffects.OfferIsKeptIff | backend/services/forecastIncidentService.py:1386-1396 | the service keeps to the offered claim exactly when nobody holds the incident, and refuses exactly the releases that were not offered of incidents somebody holds |
| IncidentEffects.ValidAssessmentIff | backend/services/incidentAiAgentService.py:54-62 | a model may propose no status, the present one or the next step |
| IncidentEffects.FirstValidIff | backend/services/incidentAiAgentService.py:356-377 | the assessment taken is the first valid one in the order of the models |
| IncidentEffects.CalibratedIs | backend/services/incidentAiAgentService.py:65-71 | low confidence lowers the urgency by one level, never below the lowest |
| IncidentEffects.ReviewBeginsIff | backend/services/incidentAiAgentService.py:330-352 | a review begins exactly when enabled, unresolved and new, and records what it saw |
| IncidentEffects.ReviewEndsAs | backend/services/incidentAiAgentService.py:380-447 | exactly when a running review ends failed, superseded, skipped or succeeded; it ends no other, and without success it touches no incident |
| IncidentEffects.AssessmentEffect | backend/services/incidentAiAgentService.py:402-439 | an applied assessment writes the calibrated urgency and the proposed step, and nothing else of the row |
| IncidentEffects.ReconcileClosesIff | backend/services/incidentReconciliationService.py:15-105 | a run that is no dry run closes an incident if and only if it was an unresolved device fault with evidence, each piece of which refers to a known alert of its cluster whose severity is none of alert, critical, emergency and high; every other row, and all evidence, cursors and reviews, stay |
| IncidentEffects.OneAlertKeepsOpen | backend/services/incidentReconciliationService.py:20-33 | one unknown alert, or one critical alert in any spelling of case and surrounding space, keeps an incident open |
| Texts.LowerIs | backend/services/incidentReconciliationService.py:31 | lowering turns each Latin capital into its small letter and keeps every other character |
| Texts.StripIff | backend/services/ai_chat_service.py:1433-1455 | stripping gives the one text without outer space that the argument pads with space |
| IncidentStore.Store.CorrelateIncident | backend/services/forecastIncidentService.py:1181-1282 | the tables after the call are exactly the specified ones, which are those of the run's step, and keep the invariants; `IncidentIdentity` and `IncidentEffects` say what they mean |
| IncidentStore.Store.UpdateIncident | backend/services/forecastIncidentService.py:1426-1508 | status, severity, claim and silence edits give exactly the specified tables, or refuse and change nothing |
| IncidentStore.Store.SelectAssessment | backend/services/incidentAiAgentService.py:356-377 | the model loop returns the first valid assessment in binding order |
| IncidentStore.Store.BeginReview | backend/services/incidentAiAgentService.py:330-352 | the first half takes the snapshot exactly when reviews are enabled, the incident is open and the key is new |
| IncidentStore.Store.CompleteReview | backend/services/incidentAiAgentService.py:378-447 | the finish step gives exactly the specified tables |
| IncidentStore.Store.ReconcileLegacy | backend/services/incidentReconciliationService.py:36-105 | scan, dry run and closing loop give exactly the specified tables and the three counts; `IncidentEffects.ReconcileClosesIff` says which rows those change |
| IncidentStore.ClosingOneSparesOthers | backend/services/incidentReconciliationService.py:68-102 | closing an incident never changes whether another one is a candidate |
| IncidentStore.ListedIsInTurn | backend/services/incidentReconciliationService.py:68-102 | closing the candidates collected first equals judging and closing one incident after another, each in the tables its predecessors left |
| ChatTurn.Turn.StreamMessage | backend/services/ai_chat_service.py:1095-1560 | on the provider path, with working storage, for every provider, tool and confirmation behaviour the turn terminates with one terminal event, last, that tells the committed status; status and text are accounted for by the replies: the turn asks again exactly after undecodable arguments and completions with calls, the first completion without calls ends it with its text stripped, or failed if that is blank, and what was shown is what is kept; a first such reply decides alone; at most 3 * max_iterations + 1 provider calls, each announced once; at every yield the committed counters equal the trace, and closing there would leave the turn cancelled unless it is the last yield; the trace names the calls of the replies in order; no successful call and no non-retryable tool runs again |
| ChatTurn.Turn.RunTurn | backend/services/ai_chat_service.py:1095-1466 | the same from the first iteration on, and the turn gives up on failing calls exactly after three iterations in which some call failed and no tool failed for good |
| ChatTurn.Turn.ReadStream | backend/services/ai_chat_service.py:1116-1137 | deltas are shown one by one unless a diagnosis is pending, the text is their concatenation, the last completion wins |
| ChatTurn.Turn.Complete | backend/services/ai_chat_service.py:1099-1158 | every provider call but the last ended in undecodable arguments, each left one refused call in the trace, and the third such failure gives up; the completion is the last one streamed since the iteration began |
| ChatTurn.Turn.RecordInvalidCall | backend/services/ai_chat_service.py:796-837 | a refused call enters the trace as failed, counted before its two events |
| ChatTurn.Turn.PrepareConfirmation | backend/services/ai_chat_service.py:1219-1232 | a confirmation becomes pending exactly when a registered tool was prepared; a declined one is a failed call, anything else raises |
| ChatTurn.Turn.RunTool | backend/services/ai_chat_service.py:1233-1257 | a blocked tool or a known success is answered from its table without running, anything else runs once; the tables afterwards hold exactly the successes and the final failures of runs |
| ChatTurn.Turn.SettleCall | backend/services/ai_chat_service.py:1258-1315 | the call is closed with its result, a diagnosis is noted exactly when one was obtained, and either the one confirmation is shown or the result handed over |
| ChatTurn.Turn.HandleCall | backend/services/ai_chat_service.py:1187-1325 | one trace entry per requested call, with the status its result earns and the result |
| ChatTurn.Turn.HandleCalls | backend/services/ai_chat_service.py:1187-1325 | every requested call of a completion is handled in order, unless one awaits a confirmation or raises; failures, and failures for good, are reported exactly when a new trace entry tells of one |
| ChatTurn.Turn.RunCalls | backend/services/ai_chat_service.py:1187-1347 | an iteration counts against the failure budget exactly when some call failed and no tool failed for good, and the third such iteration gives up |
| ChatTurn.Turn.TellAnswer | backend/services/ai_chat_service.py:1173-1182 | the answer is all text emitted so far, or the completion's text if there was none, or its rendering as a diagnosis, which is then shown |
| ChatTurn.Turn.Iterate | backend/services/ai_chat_service.py:1095-1354 | every reply but the last made the turn go on; the last decides signal, recovery and final text as its end, completion and calls say; the iteration limit is met only after max_iterations provider calls, the argument limit after three undecodable replies in a row, the failure limit after three failing iterations |
| ChatTurn.Turn.Summarise | backend/services/ai_chat_service.py:1356-1390 | the text of a degraded turn: the diagnosis, the stripped summary, or the fallback of its reason; a failing summary is tolerated, a cancelled one is not |
| ChatTurn.Turn.Conclude | backend/services/ai_chat_service.py:1356-1560 | the committed status and text follow from signal, recovery, pending confirmation and blank text |
| ChatTurn.Turn.Close | backend/services/ai_chat_service.py:1467-1489 | closing the stream at any event commits the status cancelled with the text emitted so far exactly once, yields nothing more, and leaves an ended turn as it is |
| ChatTrace.ClosingEarlyCancels | backend/services/ai_chat_service.py:1467-1489 | of a whole turn's events, closing at any but the last leaves the turn cancelled, at the last the status that event announces |
| ChatTrace.DeltaEventsShow | backend/services/ai_chat_service.py:1116-1137 | the events of a stream show exactly its text |
| ChatTrace.RoundOfIteration | backend/services/ai_chat_service.py:1332-1347 | which iterations count as repairs can be read from the trace, refused calls aside |
| ChatTrace.RunIsRemembered | backend/services/ai_chat_service.py:1237-1257 | a run extends the tables so that nothing that may not rerun can run again |
| ChatTrace.CallClosed | backend/services/ai_chat_service.py:1266-1300 | closing a call keeps counters, trace and the started/finished events in step |
| Visibility.CombineIsSemilattice | backend/services/ai_chat_service.py:226-233 | combination is associative, commutative and idempotent, with the global scope neutral and unknown absorbing |
| Visibility.AllowedIff | backend/services/ai_chat_service.py:346-358 | nobody sees anything and a super admin everything; others see exactly known scopes without the admin flag whose projects are theirs, if theirs are limited |
| Visibility.ProjectIdsIff | backend/services/ai_chat_service.py:212-223 | a list of identifiers is readable if and only if each item is a positive number or spells one, and then holds just those |
| Visibility.AllowedCombine | backend/services/ai_chat_service.py:345-358 | a combination is allowed to a viewer exactly when both parts are |
| Visibility.StoredReadsBack | backend/services/ai_chat_service.py:212-223 | a known scope reads back from its marker as itself, an unknown one as a missing marker |
| Visibility.VisibilityFromTraceEntries | backend/services/ai_chat_service.py:316-328 | the loop with its early exits computes the join over the trace |
| Visibility.RecordedScope | backend/services/ai_chat_service.py:331-342 | what a finished turn reads back as: the history survives only if everything was known |
| Visibility.LaterImpliesEarlierIff | backend/services/ai_chat_service.py:571-582 | being allowed a later reply implies being allowed every earlier one if and only if the history was known or the turn's own trace opens it to no ordinary viewer |
| Visibility.ConversationIsMonotone | backend/services/ai_chat_service.py:571-582 | for turns finished one after another with known scopes it holds for every pair and viewer |
| Visibility.LaterCanRevealMore | backend/services/ai_chat_service.py:337-342 | a concrete conversation in which a later reply is allowed and an earlier one is not |
| QuotaConfirmation.WhitelistIs | backend/services/ai_quota_confirmation_service.py:22-27 | of a preview exactly the ten known fields are shown, unchanged |
| QuotaConfirmation.SafeResultIs | backend/services/ai_quota_confirmation_service.py:164-171 | a stored result keeps a boolean `ok` and the first 256 characters of a non-empty error; without a boolean `ok` nothing is stored |
| QuotaConfirmation.SafeResultIsStable | backend/services/ai_quota_confirmation_service.py:164-171 | reading a stored safe result again changes nothing, and its error has 1 to 256 characters |
| QuotaConfirmation.CompletionKeepsScope | backend/services/ai_quota_confirmation_service.py:174-226 | completing a confirmation never changes the turn's computed visibility, for every audit |
| QuotaConfirmation.ReloadAfterCompletion | backend/services/ai_quota_confirmation_service.py:124-226 | a reload shows exactly the decision and its safe result, or an older card when the result had no boolean `ok` |
| QuotaConfirmation.ReloadAfterPreparation | backend/services/ai_chat_service.py:1266-1289 | the trace committed after a preparation, and that of a checkpoint awaiting the decision, show exactly the prepared card with whitelisted fields until it expires, provided its result fits for display; the scope is the join over the trace and the response |
| QuotaProtocol.ApplyKeepsInv | backend/services/ai_quota_confirmation_service.py:227-341 | every step of preparers, deciders, expiry and checkpoints keeps the protocol invariant |
| QuotaProtocol.EveryRunIsSafe | backend/services/ai_quota_confirmation_service.py:271-341 | under every interleaving and loss of Redis replies each confirmation executes at most once, with the stored tool and arguments, for the stored user and conversation and a super admin |
| QuotaProtocol.ConsumerNeverChanges | backend/services/ai_quota_confirmation_service.py:283-292 | once a request has consumed an identifier no later request ever wins it |
| QuotaProtocol.SettlingBurnsIff | backend/services/ai_quota_confirmation_service.py:293-322 | a won record is used up without execution exactly on wrong owner, missing audit, cancellation or vanished tool |
| QuotaProtocol.BurnedStaysBurned | backend/services/ai_quota_confirmation_service.py:287-295 | a record used up that way is never executed in any continuation |
| QuotaProtocol.SettledStatus | backend/services/ai_quota_confirmation_service.py:296-335 | a settled audit ends as cancelled, succeeded or failed, and its last entry names status, confirmation and decision |
| QuotaProtocol.DecisionIsKeptIff | backend/services/ai_chat_service.py:652-677 | a recorded decision keeps showing on reload if and only if the turn does not rewrite its audit afterwards, with whatever status it ends; once it does, no decision is shown |
| QuotaProtocol.StaleCardIsRefused | backend/services/ai_chat_service.py:1420-1430 | a rewriting that awaits the decision offers the confirmation again, and every decider that has not won is refused; one that ends otherwise shows no card |
| QuotaService.DecideIsProtocolRun | backend/services/ai_quota_confirmation_service.py:271-341 | a whole decision is the open, get, consume and settle steps of one request, so every result about runs applies to it |
| QuotaService.ConfirmationService.PrepareConfirmation | backend/services/ai_quota_confirmation_service.py:227-268 | stores the record, so that the trace committed next shows its card; succeeds exactly for a quota tool with Redis answering and a list in the audit |
| QuotaService.ConfirmationService.FindMarker | backend/services/ai_quota_confirmation_service.py:174-184 | the reverse scan finds the marker closest to the end, or the response's |
| QuotaService.ConfirmationService.CompletedFromAudit | backend/services/ai_quota_confirmation_service.py:124-161 | the reverse scan returns the last readable decision |
| QuotaService.ConfirmationService.CompleteConfirmation | backend/services/ai_quota_confirmation_service.py:187-224 | rewrites exactly the one audit and keeps its visibility |
| QuotaService.ConfirmationService.DecideConfirmation | backend/services/ai_quota_confirmation_service.py:271-341 | every answer with exactly its effect on keys, audits and executions; a decided identifier is gone |
| OrderStatistics.SortIgnoresOrder | backend/services/forecastIncidentService.py:219-222 | sorting depends only on the bag of numbers |
| OrderStatistics.MedianIsMiddleQuantile | backend/services/forecastIncidentService.py:219-222 | the median is the linearly interpolated 0.5 quantile |
| OrderStatistics.QuantileRank | backend/services/forecastIncidentService.py:222 | up to a quantile lies more than its share of the gaps of a sample, and below it less than one point more |
| OrderStatistics.QuantileOfSteps | backend/services/forecastIncidentService.py:222 | between neighbours a quantile is linear: on evenly spaced numbers it is the point at its fraction |
| OrderStatistics.QuantileIsMonotone | backend/services/forecastIncidentService.py:222 | a higher quantile is no smaller |
| OrderStatistics.QuantileCommutes | backend/services/forecastIncidentService.py:222 | quantiles move with every order-preserving affine change of the sample |
| TheilSen.SortingMovesNothing | backend/services/forecastIncidentService.py:229 | the three curves of a fit are its line moved by the low, middle and high offset: over the reals `sorted` never moves any of them |
| TheilSen.SlopesAreAllPairs | backend/services/forecastIncidentService.py:216-218 | the slopes are those of all pairs of training days, each once, half of n times n - 1 in all |
| TheilSen.FitIsInTheMiddle | backend/services/forecastIncidentService.py:219-220 | half of the pairwise slopes lie on each side of the slope, half of the days on each side of the intercept |
| TheilSen.BandHoldsHistory | backend/services/forecastIncidentService.py:221-229 | a tenth of the training days lies below the lowest curve, a half below the middle one, nine tenths below the highest, each to within one day |
| TheilSen.ForecastIsEquivariant | backend/services/forecastIncidentService.py:214-229 | scaling capacities by k > 0 and shifting them by c scales and shifts all three curves |
| TheilSen.LineIsReproduced | backend/services/forecastIncidentService.py:214-222 | an exact line is fitted exactly, with zero offsets |
| DailyHistory.SameMaximaSameMap | backend/services/forecastIncidentService.py:194-202 | the daily dictionary depends only on the maximum of each day |
| DailyHistory.SameSamplesSameMaxima | backend/services/forecastIncidentService.py:194-202 | reordering and repeating samples keeps every daily maximum |
| DailyHistory.DroppingCoveredKeepsMaxima | backend/services/forecastIncidentService.py:194-202 | dropping a sample another one of its day covers keeps every daily maximum |
| DailyHistory.ReductionKeepsMaxima | backend/services/capacityPredictionGovernanceService.py:237-247 | `_daily_maxima` keeps the maximum of every day of the samples with a timezone |
| Forecast.CollectMaxima | backend/services/forecastIncidentService.py:193-202 | the loop builds the daily maxima from the cutoff on, or raises exactly when some timestamp has no timezone |
| Forecast.CollectCurve | backend/services/forecastIncidentService.py:224-237 | the loop lists the thirty clamped points after the last training day |
| Forecast.BuildCapacityForecast | backend/services/forecastIncidentService.py:185-252 | the method computes the specified forecast; `Forecast.ReadyDatesIff` and `TheilSen.BandHoldsHistory` say what it means |
| Forecast.FirstReachingIff | backend/services/capacityPredictionGovernanceService.py:486-497 | a crossing is found if and only if some point is at the limit or above, and it is the first |
| Forecast.ReadyDatesIff | backend/services/forecastIncidentService.py:239-251 | each of the three dates of a ready forecast is the first day on which its own quantile is at the limit or above, and missing exactly when there is none |
| Forecast.ReadyIff | backend/services/forecastIncidentService.py:195-212 | a forecast is ready if and only if every timestamp has a timezone and at least 36 days from the cutoff on have samples: coverage decides, not the 30 valid days |
| Forecast.OnlyMaximaMatter | backend/services/forecastIncidentService.py:185-252 | histories with the same daily maxima have the same forecast |
| Forecast.SamplesAreASet | backend/services/forecastIncidentService.py:185-252 | reordering or repeating samples changes nothing, not even whether it raises |
| Forecast.ReducedForecastIff | backend/services/capacityPredictionGovernanceService.py:237-247 | reducing to daily maxima first gives the same forecast if and only if every timestamp has a timezone |
| Forecast.CurveFollowsSamples | backend/services/forecastIncidentService.py:193-229 | scaling and shifting every sample scales and shifts the unclamped curves |
| Forecast.LineIsForecast | backend/services/forecastIncidentService.py:214-237 | a history on a line is forecast as that line clamped at zero |
| CandidateCurves.ValidateCurve | backend/services/capacityPredictionGovernanceService.py:214-234 | the validation loop: the first defective point decides between refusal and an error nobody catches |
| CandidateCurves.AcceptedIff | backend/services/capacityPredictionGovernanceService.py:214-234 | accepted are exactly the answers that spell out thirty contiguous days with ordered non-negative quantiles, and they are kept unchanged |
| CandidateCurves.ReadyCurveIsValid | backend/services/forecastIncidentService.py:223-237 | every ready forecast passes the validator from its last training day on |
| CandidateCurves.ValidationRaisesIff | backend/services/capacityPredictionGovernanceService.py:221-231 | validation raises an uncaught error if and only if some point does and every point before it is fine |
| CandidateCurves.GenerateWithFallback | backend/services/capacityPredictionGovernanceService.py:107-125 | the generator returns the accepted curve, the baseline with its reason, or lets an uncaught error escape |
| CandidateCurves.GeneratorIsSafeIff | backend/services/capacityPredictionGovernanceService.py:107-125 | with a ready baseline the generator returns thirty valid days, except exactly when the completion raises outside the caught classes or a thirty-point answer meets an uncaught error before any other defect |
| CandidateCurves.BodyEscapesIff | backend/services/ai_client.py:426-449 | exactly which OpenAI-compatible responses escape: a body nested beyond the recursion limit, a first message that is no object or cannot be printed, a tool call or function that is no object or too deep before any refused call, or, after sound calls, a text nested too deep or a curve that meets an uncaught point |
| CandidateCurves.HugeNumberEscapes | backend/services/capacityPredictionGovernanceService.py:115-125 | an integer beyond every float in the first point makes the generator raise instead of falling back |
| CandidateCurves.CrossingsAreOrdered | backend/services/capacityPredictionGovernanceService.py:486-497 | on a valid curve the first crossings satisfy p90 <= p50 <= p10, never counting as latest |
| CandidateCurves.RiskIff | backend/services/capacityPredictionGovernanceService.py:419-440 | the level of a valid curve: critical if and only if the 90% curve reaches the limit within 7 days, else high if and only if the 50% curve does within 30, else watch if and only if the 90% curve does, else none |
| CandidateCurves.RiskIsMonotone | backend/services/capacityPredictionGovernanceService.py:419-440 | raising a curve or lowering the limit never lowers the risk level of a ready forecast |
| RollingEvaluation.RollingCandidateEvaluations | backend/services/capacityPredictionGovernanceService.py:263-328 | the loop over three windows computes the specified evaluations; `RollingEvaluation.EvaluationIs` and `RollingEvaluation.ThreeRows` say what they mean |
| RollingEvaluation.MapeIsMean | backend/services/capacityPredictionGovernanceService.py:250-260 | the error of a valid curve is the rounded mean distance, in percent of the actual value, over the positive days it predicts, and missing exactly when there are none |
| RollingEvaluation.Round4Iff | backend/services/capacityPredictionGovernanceService.py:260 | rounding picks the nearest ten-thousandth, and the even one of two |
| RollingEvaluation.EvaluationIs | backend/services/capacityPredictionGovernanceService.py:288-326 | in a judged window the baseline's error is that of the statistical forecast and the candidate's that of the curve the model was given credit for, on the days after the training; the risk is uncovered exactly when the limit was reached, the forecast foresaw it and the candidate did not; when a window is skipped or aborts |
| RollingEvaluation.PerfectModelHasNoError | backend/services/capacityPredictionGovernanceService.py:250-327 | a curve that meets every positive day it predicts has error 0, each of the two on its own side |
| RollingEvaluation.ThreeRows | backend/services/capacityPredictionGovernanceService.py:280-328 | three judged windows are the three rows, oldest first, each with the reply to its own question |
| ActivationGate.GateIff | backend/services/capacityPredictionGovernanceService.py:331-348 | the gate opens if and only if no window repeats, the three latest windows cover their risk, and their summed error is at most nine tenths of the baseline's, which is positive |
| ActivationGate.WorseDoesNotActivate | backend/services/capacityPredictionGovernanceService.py:331-348 | a model whose errors all exceed the baseline's is never activated |
| RollingEvaluation.HoldoutsTileTheEnd | backend/services/capacityPredictionGovernanceService.py:281-286 | the three holdouts follow one another and are exactly the last ninety daily samples |
| RollingEvaluation.TrainingIsThePast | backend/services/capacityPredictionGovernanceService.py:284-285 | the 45 training samples lie just before the holdout and before every holdout day |
| RollingEvaluation.LaterSamplesDoNotMatter | backend/services/capacityPredictionGovernanceService.py:281-313 | samples after a holdout never change its evaluation |
| RollingEvaluation.RecordableIff | backend/services/capacityPredictionGovernanceService.py:697-705 | a produced evaluation passes the checks on recording if and only if its thirty holdout days are consecutive |
| ActivationGate.FallbackTies | backend/services/capacityPredictionGovernanceService.py:302-327 | a window whose completion fails with a caught error is not interrupted, ties with the baseline and covers its risk |
| ActivationGate.TiesDoNotActivate | backend/services/capacityPredictionGovernanceService.py:331-348 | evaluations that all tie with the baseline never open the activation gate |
| ActivationGate.SilentModelIsNeverActivated | backend/services/capacityPredictionGovernanceService.py:263-348 | a model that only ever fails with caught errors is evaluated without an error and never activated |
| ToolCalls.CallIsItsFragments | backend/services/ai_client.py:496-504 | the call at an index is built from the fragments of that index alone, and exists exactly when there are some |
| ToolCalls.InterleavingDoesNotMatter | backend/services/ai_client.py:496-504 | streams with the same fragments per index, however interleaved, assemble to the same calls |
| ToolCalls.NeighboursSwap | backend/services/ai_client.py:496-504 | neighbouring fragments of different calls may swap |
| ToolCalls.BuiltFromMore | backend/services/ai_client.py:499-504 | name and arguments are in-order concatenations, the last non-empty identifier wins |
| ToolCalls.StartForgets | backend/services/ai_client.py:610-621 | a Claude block start forgets everything its index held before |
| ToolCalls.CompletesIff | backend/services/ai_client.py:505-517 | a reply completes if and only if the arguments of every call decode |
| ToolCalls.BadArgumentsIff | backend/services/ai_client.py:505-517 | a refusal names the first call whose arguments do not decode, with its identifier, name and problem |
| ToolCalls.OpenAiTextsAre | backend/services/ai_client.py:482-486 | what is shown of an OpenAI-compatible stream is all its text up to the end mark, and no piece of it is empty |
| ToolCalls.ClaudeTextsAre | backend/services/ai_client.py:622-627 | what is shown of a Claude stream is the text of its text deltas up to the end mark |
| ToolCalls.CompletedReply | backend/services/ai_client.py:505-523 | completed text is the stripped concatenation of what was shown; calls stand in index order, each built from its own fragments, numbered by its index if it has no identifier and with empty arguments if none came |
| ToolCalls.RepliesAgree | backend/services/ai_client.py:638-655 | the whole reply does not depend on the interleaving |
| ToolCalls.OpenAiStream | backend/services/ai_client.py:459-523 | the loop over OpenAI-compatible lines yields exactly the specified events |
| ToolCalls.ClaudeStream | backend/services/ai_client.py:588-655 | the loop over Claude lines yields exactly the specified events |

## Left out

- HTTP, server-sent events, provider payloads and headers, routers and schemas: plumbing.
- SQLAlchemy, Redis and QuestDB: tables are maps and sequences, a Redis command is one step, the row lock per correlation key is serialisation, and a request that raises leaves the tables as they were.
- Encryption, JSON text, datetime parsing and time zones: encrypting may succeed or fail per value, JSON values are trees or already decoded fields, times are integers.
- Random identifiers: an alias tail is any unused one, so the retry loop of `_new_alias` is one choice; confirmation identifiers are fresh.
- The regular-expression engine: `re.sub` over the sorted alternation is a leftmost scan for the first listed match.
- Floating point and numpy: capacities, quantiles and percentage errors are real numbers, the last rounded to four decimals, halves to even.
- Unicode: stripping and the blank-text test know space, tab, newline and carriage return, lowering knows Latin letters.
- ChatTurn.Turn.StreamMessage: the `claude_code` path and storage failures are not modelled, nor is name obfuscation inside the turn; a close is modelled by what it leaves at each event (`ChatTurn.Turn.Close`), and the lifecycle audit row beside it is left out; an event keeps its kind and text, not its other fields, and the wording of fixed messages is given.
- ChatTurn.Turn.ReadStream: the optional restorer between provider and user is not part of it; `Obfuscator.StreamReply` covers it.
- CandidateCurves.BodyEscapesIff: looks at OpenAI-compatible responses only; errors before the response arrives that are no HTTP errors, exhausted memory and interrupts are not among its cases. `CandidateCurves.GeneratorIsSafeIff` covers every error.
- QuotaProtocol.ApplyKeepsInv: a flushed but uncommitted audit is visible to other requests in the model, which only adds interleavings.
- QuotaService.ConfirmationService.PrepareConfirmation: computing the preview from the database and validating the arguments are outside; the record is given.
- QuotaProtocol.EveryRunIsSafe: time is not modelled, a key may expire at any moment; a run means one call of `execute_tool`, which may still refuse invalid arguments.
- RollingEvaluation.RollingCandidateEvaluations: the prompt sent to the model is not modelled; its reply is given.
- Incident deletion, feedback, diagnosis, vendor evidence views, notifications and audit events: no property of the status machine depends on them.
- Project permissions and role checks other than the super-admin test: taken as given answers.
- CRUD listings, exports, middleware, scheduled tasks and the frontend: only easy members.
