# FloofClaw runtime: a verified model

FloofClaw is a durable agent runtime. Behaviour is recorded in append-only event logs,
reducers materialise state from the events, and after a crash the logs are read back. The
project models the part of the runtime that must neither lose nor repeat an effect, and the
smaller algorithms around it, and proves what they promise over every input, every
interleaving and every crash pattern of the model.

| file | what it models |
|---|---|
| `OperationStore`, `OperationStoreLaws` | the bounded table of managed operations: terminal gate, eviction, secrets, deadlines |
| `OperationProtocol`, `OperationExactlyOnce` | in-run results, worker claims and timeout claims competing to finish an operation, across the bus, claim runs, crashes and requeues |
| `ActionRunner` | the pending queue, completed tables, memoised repeats, emission order and recovery of started calls, as a run record updated in place |
| `RunLife`, `RunLifeInvariant`, `RunLifeLaws`, `RunLifeWitnesses`, `SignatureLaws` | a run's whole life: request, launch, terminal, delivery ledger, crash, line-by-line replay, reconciliation; lives that reach what a stronger law would forbid |
| `ReplayedIntrinsics` | the local actions that ask the log for their own committed effect |
| `InboundClaim`, `LineCodec` | committing the first event of a claimed run, byte for byte; an event codec that meets what it asks of one (`LinesAreFaithful`) |
| `MemoryWindows`, `MemoryProjection` | incremental compaction windows and the byte-budgeted projection |
| `AffairStore`, `AffairLaws` | the affair reducers against a reference computed from the accepted events |
| `JsonText`, `JsonString`, `JsonList`, `ConfigSplice` | the span scanner and the raw-text edit of `force_disable` |
| `Utf8Clip`, `CacheView`, `Bits`, `Allowlist`, `Decimal` | clipping, top-k selection, the allow mask, decimal formats |
| `TornFile`, `Wrappers` | what a torn append leaves of a line, an option type |

Conventions. Table sizes, buffer sizes and caps are parameters. Clocks, fresh ids and random
tokens are inputs. What the file system decides is carried by each step: an append may do
nothing, tear, complete while reporting an error, or complete; an atomic write may fail and
then changes nothing. State machines are total functions: a step that is not enabled leaves
the state alone, as the early returns of the code do.

## Model

| member | source | states |
|---|---|---|
| OperationStore.Store.Locate | runtime/operation_state.c:232-237 | the scan finds the position of the handle, and never the empty handle |
| OperationStore.Store.PurgeFinishedOverCap | runtime/operation_state.c:155-178 | counting and shifting down leaves the table without exactly its excess of finished records, taken from the front |
| OperationStore.Store.OnStarted | runtime/operation_state.c:258-320 | a start is a no-op or refusal for a known handle, recycles the first finished record when full, and purges; a failed write changes nothing, and the code is stated with and without it |
| OperationStore.Store.OnResult | runtime/operation_state.c:321-395 | a result seals a running record with the same identity, is absorbed by a finished one, or upserts a finished record; the code is stated with and without a failed write |
| OperationStore.Store.SetField | runtime/operation_state.c:443-477 | secret, worker handle and claim envelope are written to running records only; the code is stated with and without a failed write |
| OperationStore.Store.Close | runtime/operation_state.c:484-497 | closing seals a running record without a result; the code is absent, done or the failed write's refusal |
| OperationStore.Store.EarliestDeadline | runtime/operation_state.c:568-579 | the least effective deadline of a running record, 0 exactly when none runs |
| OperationStore.Store.ListDeadlineDue | runtime/operation_state.c:581-595 | the due running handles in table order, at most max |
| OperationStoreLaws.PurgeDropsEarliest | runtime/operation_state.c:155-178 | purging removes exactly the earliest-positioned finished records down to the cap and keeps the order of the rest |
| OperationStoreLaws.FinishedRecordSurvives | runtime/operation_state.c:155-178 | a record that finishes is kept if and only if fewer than cap finished records stand behind it |
| OperationStoreLaws.FinishedWithinCap | runtime/operation_state.c:155-178 | a start, result or close that changes the table leaves at most cap finished records |
| OperationStoreLaws.EarlyStarterEvictedAtFinish | runtime/operation_state.c:45-49 | an early starter can be evicted at the very moment it finishes, so there is no survival window from finishing |
| OperationStoreLaws.CallAllowed | runtime/operation_state.c:247-497 | every store call keeps handles unique, the table bounded and finished records sealed, and treats each handle by the same small transition rule |
| OperationStoreLaws.OwnResultFinishes | runtime/operation_state.c:360-395 | a result built from the stored record always ends the running state; the record stays exactly when the survival condition holds |
| OperationStoreLaws.ReachableValid | runtime/operation_state.c:247-497 | the store is valid after every sequence of calls |
| OperationStoreLaws.FinishedIsSealed | runtime/operation_state.c:387-395 | in every reachable store a finished record has no token and no deadline |
| OperationStoreLaws.FinishedAbsorbs | runtime/operation_state.c:247-497 | while it is retained a finished record never changes again |
| OperationStoreLaws.RunningStays | runtime/operation_state.c:155-178 | a running record is never evicted and keeps identity, route and deadline until a result or close for it |
| OperationStoreLaws.CorrelationNeverChanges | runtime/operation_state.c:258-395 | action, request, trigger, task, revision and route never change while the record is retained |
| OperationStoreLaws.AtMostOneFlip | runtime/operation_state.c:321-395 | at most one call flips a retained record |
| OperationStoreLaws.EvictionAllowsRestart | runtime/operation_state.c:155-178 | without retention the bound fails: after eviction a replayed start makes the same handle run again |
| OperationStoreLaws.RestartAfterEviction | runtime/operation_state.c:155-178 | the calls from the empty table that lead there: two starts, the later one's result, the earlier one's result evicting it, its start again |
| OperationStoreLaws.DueExactlyWhenEarliestPassed | runtime/operation_state.c:568-595 | for now at least 1 something is due if and only if the earliest deadline is non-zero and has passed |
| OperationStoreLaws.FinishedNeverDue | runtime/operation_state.c:581-595 | a finished record is never listed as due |
| OperationProtocol.StoreMoves | runtime/ports.c:821-984 | every protocol action reaches the store through at most one store call |
| OperationProtocol.BusStep | runtime/ports.c:1143-1212 | each envelope is in one place, opens at most one run, and a held envelope has none yet; every action keeps this |
| OperationProtocol.Reachable | runtime/ports.c:821-1212 | bus and store invariants hold over every execution |
| OperationExactlyOnce.AdmissionExact | runtime/ports.c:821-844 | a claim opens a run exactly when its operation is retained and running and the token fits its cause; later claims on a finished operation are refused before a run exists |
| OperationExactlyOnce.ResultSource | runtime/ports.c:767-815 | a result line comes only from admission or an in-run result while the operation runs, or from the retry of a waiting claim |
| OperationExactlyOnce.OneFlip | runtime/operation_driver.c:311-400 | over every interleaving of claims, timeouts, in-run results, crashes and requeues at most one action flips a retained operation |
| OperationExactlyOnce.LateResultWasWaiting | runtime/ports.c:767-815 | a result after the flip can only be the retry of a claim run that was already waiting at the flip |
| OperationExactlyOnce.AtMostOneResult | runtime/ports.c:946-984 | with no claim waiting at the commit and appends that report what they did, at most one operation_result is ever committed and nothing runs or waits afterwards |
| OperationExactlyOnce.ResultEnabled | runtime/operation_driver.c:311-400 | if the operation is retained and runs or has a waiting claim, a further result is one action away |
| OperationExactlyOnce.ResultImpossible | runtime/ports.c:767-844 | otherwise no continuation that retains the record ever adds one, so the condition is exact |
| OperationExactlyOnce.UnreducedAppendGivesTwo | runtime/event_log.c:151-155 | an execution from the empty state: an in-run append that commits and reports an error skips the reducer, so the worker's claim is admitted and commits a second result |
| OperationExactlyOnce.WaitingClaimAddsTwo | runtime/ports.c:767-815 | a waiting claim is retried without a new admission, so after an in-run result it adds a second one |
| OperationExactlyOnce.WaitingClaimGivesTwo | runtime/ports.c:946-984 | an execution from the empty state that admits a claim, fails its first append and ends with two results |
| OperationExactlyOnce.EnvelopeNeverLost | runtime/ports.c:1178-1212 | a published envelope stays on the bus unchanged through every action and crash |
| OperationExactlyOnce.OrphanRecovers | runtime/ports.c:1143-1212 | a claim consumed by a crashed intake and still admissible is requeued and opens its one result run |
| OperationExactlyOnce.OneTimeoutEnvelope | runtime/ports.c:1098-1141 | the deadline of a retained operation puts at most one envelope on the bus |
| ActionRunner.Run.FindPending | runtime/action_runner.c:40-45 | the first entry with the request id |
| ActionRunner.Run.NoteTerminal | runtime/action_runner.c:293-300 | records id and signature in the bounded tables and removes exactly the entry |
| ActionRunner.Run.ReadOutcome | runtime/action_runner.c:147-182 | the forward log scan yields the last success or failure of the request, with defaults for values that do not fit |
| ActionRunner.Run.EmitStarted | runtime/action_events.c:17-53 | action_started is logged before the entry is marked, and a failed append marks nothing |
| ActionRunner.Run.EmitTerminal | runtime/action_events.c:123-270 | order of flags, delivery, append, progress and retirement; a failed append retires nothing |
| ActionRunner.Run.EmitRejected | runtime/action_events.c:272-354 | a rejection is logged, counts as progress only for a signature not yet completed, and retires the entry |
| ActionRunner.Run.NoteRequest | runtime/action_runner.c:186-277 | the whole decision list for a request: in flight, terminal id, equivalent in flight, equivalent completed, overflow, queued |
| ActionRunner.Run.Repeat | runtime/action_runner.c:215-255 | an equivalent completed call is answered from the log without counting as progress |
| ActionRunner.Run.RecoverEntry | runtime/action_runner.c:305-399 | one turn of recovery leaves, resets or terminalises the entry at the cursor and keeps ids and signatures apart from the tables |
| ActionRunner.Run.RecoverStarted | runtime/action_runner.c:302-401 | recovery succeeds if and only if no entry is stuck and the appends suffice, and is then a filter-map of the queue with exactly one terminal per finished call; otherwise it stops at the first entry it cannot get past, with the terminals of those before it, and with that entry's own line exactly when the failing append completed it |
| ActionRunner.RetiredKeepsInv | runtime/action_runner.c:293-300 | retiring keeps pending ids and signatures distinct and out of the completed tables |
| ActionRunner.FinishedEntryGone | runtime/action_runner.c:305-399 | the recovery terminal retires exactly its own entry and never delivers |
| ActionRunner.Origin | runtime/action_runner.c:302-401 | every survivor is an old entry that was not terminalised, with the started flag cleared |
| ActionRunner.SurvivorsInOrder | runtime/action_runner.c:302-401 | survivors keep their order |
| ActionRunner.EverySurvivorPlaced | runtime/action_runner.c:302-401 | every entry that is not terminalised survives |
| RunLifeInvariant.RequestMoves | runtime/action_runner.c:186-277 | noting a request with a new id moves the tables as the log's plan says, and logs only lines about calls that are not queued |
| RunLifeInvariant.ReplayMoves | runtime/recovery.c:95-146 | replaying one line moves the tables exactly as that line moves the plan |
| RunLifeInvariant.ReplayEnds | runtime/recovery.c:148-231 | after the last line the queue is the plan of the whole log, although replay itself appended lines |
| RunLifeInvariant.ReconciledKeeps | runtime/action_runner.c:302-401 | reconciling one entry keeps queue and log in step |
| RunLifeInvariant.WorkEndsCall | runtime/recovery.c:137-144 | the work line an intrinsic logs ends its call in the log, and the terminal behind it leaves queue and log in step |
| RunLifeInvariant.InvStep | runtime/recovery.c:233-341 | every step of a run's life, including crash, replay and reconciliation, keeps the queue in step with the log |
| RunLifeLaws.QueueFollowsLog | runtime/action_runner.c:94-129 | in every reachable live state pending ids and signatures are distinct and in no completed table, and the queue is what the log says |
| RunLifeLaws.TablesBounded | runtime/action_runner.c:108-129 | queue and signature table of a live run never outgrow their arrays |
| RunLifeLaws.ReplayRebuilds | runtime/recovery.c:95-231 | a finished replay has rebuilt exactly requested-and-not-ended, started where action_started was logged |
| RunLifeLaws.LaunchTarget | runtime/action_subprocess.c:115-211 | a launch of an outside-world call finds it not yet across the durable boundary |
| RunLifeLaws.OutsideWorldAtMostOnce | runtime/action_subprocess.c:115-211 | over any number of crashes a non-message outside-world request is executed at most once |
| RunLifeLaws.WriteExact | runtime/ports.c:1021-1055 | exactly how many records of a request are readable after a ledger write: its own joins on a clean tail, an unended one is lost |
| RunLifeLaws.ForeignGarblesExactly | runtime/ports.c:1021-1055 | another run's write makes a record unreadable if and only if the record lacks its newline and the write leaves anything |
| RunLifeLaws.EntryUnsent | runtime/action_runner.c:308-346 | a message that recovery keeps is not on the ledger |
| RunLifeLaws.MessageAtMostOneRecord | runtime/ports.c:1021-1085 | a message request leaves at most one readable delivery record, whatever crashes and other runs do |
| RunLifeLaws.HandOverNeedsNoRecord | runtime/action_runner.c:308-346 | in every life a message is handed over only while the ledger shows no record of it |
| RunLifeLaws.CompleteRecordIsFinal | runtime/action_runner.c:308-346 | once its record is a complete line, a message is never handed over again |
| RunLifeLaws.ResendsExactly | runtime/action_runner.c:308-346 | in every life, recovery keeps a started message, put back to unstarted, if and only if the ledger is readable and shows no record |
| RunLifeLaws.SuccessHasRecordExactly | runtime/ports.c:1021-1055 | a successful message has a readable record if and only if the run has an origin, the text is readable, the tail was clean and all but at most the newline came through |
| RunLifeLaws.SuccessRecordedExactly | runtime/ports.c:1021-1055 | the same at every success of a message in every life, with no hypothesis on the state |
| RunLifeLaws.SuccessWithoutRecord | runtime/ports.c:1053-1054 | the ledger write's error is ignored: every torn write and every write onto a torn tail ends in a logged success without a readable record |
| RunLifeLaws.ReplayWritesExactly | runtime/recovery.c:95-146 | replaying a line appends to the log if and only if it is a request that is answered instead of queued |
| RunLifeLaws.RestartAnswersExactly | runtime/recovery.c:148-231 | in every life, replay writes at a line if and only if it is a request that leaves the plan of the lines before it unchanged, a condition on the log alone |
| RunLifeWitnesses.RestartAnswersTwice | runtime/action_runner.c:215-248 | a life in which a restart gives one repeated request its second terminal line |
| RunLifeWitnesses.MessageWrittenTwice | runtime/action_runner.c:308-346 | a life in which a message is written twice: its first record lacks the newline, another run's write garbles it, recovery sends again |
| SignatureLaws.OwnedExactly | runtime/action_runner.c:94-129 | in every life a launched signature stays with its request if and only if the log line that ended the request, if any, found room in the table; otherwise it is forgotten for good |
| SignatureLaws.SameSignatureSameRequest | runtime/action_runner.c:94-129 | unless its end found the table full, all launches of a signature over all crashes are of one request |
| SignatureLaws.LaunchedOncePerRun | runtime/action_runner.c:186-300 | between crashes a signature is launched at most once, provided the step that ends the launched call finds room in the table |
| SignatureLaws.OutsideSignatureOnce | runtime/action_runner.c:94-129 | unless its end found the table full, the signature of an outside-world action is launched at most once over the whole life, crashes included |
| SignatureLaws.AskLaunchesExactly | runtime/action_runner.c:186-277 | with no open call of its signature and room in the queue, a new request is queued if and only if its signature is not in the table |
| SignatureLaws.RelaunchAfterEnd | runtime/action_runner.c:108-116 | whichever step ends a call, an equivalent request can be launched after it if and only if that step found the table full |
| SignatureLaws.RelaunchExactly | runtime/action_runner.c:108-129 | in every life, crashes included, an equivalent request is queued for another launch if and only if the line that ended the launched call found the table full |
| RunLifeWitnesses.LaunchedTwice | runtime/action_runner.c:108-116 | for all limits, a life from the start that fills the table and then launches two requests with one signature between crashes |
| SignatureLaws.FirstCompletionAnswers | runtime/action_runner.c:147-182 | a first success or failure becomes the recorded answer, with the defaults for what does not fit the buffers, even if its append reported an error |
| SignatureLaws.AnswerStays | runtime/action_runner.c:147-182 | the answer stays through repeats, other calls, crashes, replays and recoveries |
| SignatureLaws.RepeatIsAnswered | runtime/action_runner.c:215-248 | a repeat gets the recorded outcome and launches, queues, delivers and counts nothing |
| SignatureLaws.EveryRepeatSame | runtime/action_events.c:170-184 | every later equivalent call in the life of the run gets that same outcome, result and error |
| ReplayedIntrinsics.RunLog.CommittedEffect | runtime/action_runtime.c:55-91 | the scan returns the first effect of the type with the request id, or that the log is unreadable |
| ReplayedIntrinsics.RunLog.NoteAddAction | runtime/action_runtime_affair.c:20-90 | checks, lookup and append of note_add, in that order |
| ReplayedIntrinsics.RunLog.CounterBumpAction | runtime/action_runtime_affair.c:92-165 | checks, lookup and append of counter_bump |
| ReplayedIntrinsics.RunLog.AffairCloseAction | runtime/action_runtime_affair.c:167-215 | check, lookup and append of affair_close |
| ReplayedIntrinsics.RunLog.DeferAction | runtime/action_runtime_affair.c:217-293 | a replayed defer answers with the committed review time |
| ReplayedIntrinsics.RunLog.AffairOpenAction | runtime/action_runtime_affair.c:295-385 | affair_open looks at the log before its arguments and answers with the committed id and time |
| ReplayedIntrinsics.RunLog.WorkAction | runtime/action_runtime_work.c:132-345 | work looks for its creation, then its revision, before it chooses a target |
| ReplayedIntrinsics.RunLog.MemoryAppendAction | runtime/action_runtime_work.c:19-123 | a committed append must be for the same task and text |
| ReplayedIntrinsics.RunLog.EndWorkAction | runtime/action_runtime_work.c:385-665 | a terminal work action answers from its own committed terminal first |
| ReplayedIntrinsics.LookupExact | runtime/action_runtime.c:55-91 | nothing is found exactly when the log shows no effect of the request |
| ReplayedIntrinsics.AtMostOneEffect | runtime/action_runtime.c:55-91 | under any re-dispatch, tear and restart the log shows at most one effect per request |
| ReplayedIntrinsics.FreshRoundTrip | runtime/action_runtime_affair.c:240-325 | reading back what a first dispatch wrote gives the reply it computed |
| ReplayedIntrinsics.RepliesAgree | runtime/action_runtime_work.c:153-197 | all successful dispatches of a request give one reply, whatever clock, counter or task store each saw |
| InboundClaim.TruncateIncompleteLine | runtime/support/fsutil.c:301-360 | the backwards block scan keeps exactly the text through the last newline |
| InboundClaim.Classified | runtime/ports.c:711-765 | a log written only by this protocol is never in conflict, exact only with the event as first line, absent only without a complete line |
| InboundClaim.CutKeepsCount | runtime/support/fsutil.c:301-360 | repairing a torn tail changes neither the first line nor the number of events |
| InboundClaim.ReadyMeansExactOnce | runtime/ports.c:767-815 | a run is ready only when its first complete line is the expected event; the event is committed at most once however appends fail, tear or misreport; the conflict branch is never taken |
| InboundClaim.RetryCompletes | runtime/ports.c:767-815 | a waiting run is never stuck: one retry whose line completes makes it ready |
| MemoryWindows.RequestCompaction | runtime/memory.c:574-634 | start from the cutoff, thresholds, keep-recent and minimum decide the window; the loop narrows it |
| MemoryWindows.NarrowedExact | runtime/memory.c:610-632 | the loop ends at the largest window that fits and gives up only when none of at least the minimum size does |
| MemoryWindows.WindowsTile | runtime/memory.c:342-373 | accepted windows start at the first message, follow each other without gap or overlap, have the minimum size and leave the newest messages alone |
| MemoryWindows.CoveredOnce | runtime/memory.c:342-373 | every message before the frontier is in exactly one accepted window |
| MemoryWindows.StartExact | runtime/memory.c:592-595 | a request starts at the frontier if and only if the tail read reaches back to it; otherwise at the tail's first message |
| MemoryWindows.RequestStartExactly | runtime/memory.c:574-634 | the same for every request that fires in any history |
| MemoryWindows.TilingStepExact | runtime/memory.c:342-373 | a step keeps the tiling if and only if it accepts no window, or one that starts at the frontier |
| MemoryWindows.TilesExactly | runtime/memory.c:342-373 | over every history, orderly or not, the windows tile if and only if each started at the frontier when accepted |
| MemoryWindows.SecondReportOverlaps | runtime/agent_selected.c:250-257 | of two requests in flight from the same frontier the second accepted one breaks the tiling |
| MemoryWindows.LostCutoffGap | runtime/memory.c:592-595 | once the tail read has lost messages behind the frontier, accepting the next window leaves a gap |
| MemoryWindows.TwoInFlightOverlap | runtime/agent_selected.c:250-257 | a history from the empty log with two requests in flight in which the same window is accepted twice |
| MemoryWindows.ForgottenMessageGap | runtime/memory.c:592-595 | a history from the empty log whose tail read loses a message that no window ever covers |
| MemoryProjection.RenderFrom | runtime/memory.c:399-471 | a rendering attempt succeeds exactly when all fields escape and the whole text fits the budget |
| MemoryProjection.ShorterRenders | runtime/memory.c:399-471 | if a tail of the messages renders, every shorter tail renders |
| MemoryProjection.RenderProjection | runtime/memory.c:473-496 | the projection is the longest tail within the recent limit that fits, and fails only when the empty tail does not |
| MemoryProjection.LongestIsUnique | runtime/memory.c:473-496 | that tail is unique |
| AffairStore.Store.ApplyPatch | runtime/affair_state.c:440-503 | create, update and touch, with move to front; a rejected patch changes nothing |
| AffairStore.Store.ApplyBump | runtime/affair_state.c:532-577 | a counter set or guarded delta; a rejected bump changes nothing |
| AffairStore.Store.ApplyOther | runtime/affair_state.c:505-617 | notes, task links and reviews; a rejected event changes nothing |
| AffairStore.Store.CreateManual | runtime/affair_state.c:702-740 | a manual affair is put in front under the next free number |
| AffairStore.ManualIdIsNew | runtime/affair_state.c:715-722 | the next manual id is carried by no affair, by scanning back the printed number |
| AffairStore.ToFrontPermutes | runtime/affair_state.c:288-294 | move to front permutes and keeps the others in order |
| AffairStore.OverflowExact | runtime/affair_state.c:564-571 | the overflow guard fires exactly when the exact sum leaves 64 bits |
| AffairLaws.ReducedEffect | runtime/affair_state.c:440-617 | an accepted event changes the affair it names and no other, and keeps non-empty ids unique and the store bounded |
| AffairLaws.OrderAfter | runtime/affair_state.c:288-294 | a creation or patch puts its affair first and keeps the others in order; every other event keeps the whole order |
| AffairLaws.BumpedExact | runtime/affair_state.c:532-577 | an accepted bump is exact integer arithmetic on one counter |
| AffairLaws.IdsUniqueAndBounded | runtime/affair_state.c:440-503 | after every event sequence non-empty ids are unique and the store is within its cap |
| AffairLaws.RecordFromHistory | runtime/affair_state.c:305-332 | notes are exactly the newest accepted ones; task links are exactly the newest of the links that were new when accepted, without repetition; counter names are distinct and values within 64 bits |
| AffairLaws.CounterFromHistory | runtime/affair_state.c:532-577 | a counter exists exactly when a bump for it was accepted and holds the exact integer value of its accepted sets and deltas |
| AffairLaws.ManualCreationSucceeds | runtime/affair_state.c:702-740 | manual creation fails only for an empty field, a full store or a failed write |
| AffairLaws.EmptyIdTwice | runtime/affair_state.c:281-286 | the empty id is never found, so two raw creations with it are both accepted; normalised creations carry a stamped id |
| JsonText.ValueLocal | runtime/support/json.c:120-183 | the length of a JSON value depends only on its own text and on not being continued as a number |
| JsonList.SpanIsItem | runtime/support/json.c:367-392 | the span of an array item is exactly its text |
| JsonList.CutInner | runtime/config_cli.c:273-274 | cutting from an item's start to the next item's start removes that item and no other |
| JsonList.CutLast | runtime/config_cli.c:275-276 | cutting from the end of the last item but one to the end of the last removes the last |
| JsonString.QuotedDecodes | runtime/support/json.c:414-472 | a quoted id decodes to itself if and only if it has no quote, backslash or control character and fits the buffer |
| ConfigSplice.ToggleArray | runtime/config_cli.c:203-282 | the scan for the entry and the splice at item spans compute the edit |
| ConfigSplice.EnableRemoves | runtime/config_cli.c:266-282 | enabling a listed id removes its last entry and leaves every other entry in place |
| ConfigSplice.DisablePrepends | runtime/config_cli.c:245-265 | disabling an unlisted id puts it in front of the old entries |
| ConfigSplice.ToggleIdempotent | runtime/config_cli.c:200-202 | disabling a listed id and enabling an unlisted one change nothing |
| ConfigSplice.SpliceFile | runtime/config_cli.c:73-87 | after the splice the array is found at the same place in a still well-formed root object, and every byte outside is as before |
| ConfigSplice.DisableInFile | runtime/config_cli.c:245-265 | on the whole file, disabling prepends to the list and touches nothing else |
| ConfigSplice.EnableInFile | runtime/config_cli.c:266-282 | on the whole file, enabling removes the entry and touches nothing else |
| ConfigSplice.FileRoundTrip | runtime/config_cli.c:203-282 | disable then enable restores the list |
| ConfigSplice.NewListNeedsMember | runtime/config_cli.c:217-236 | adding a first list keeps the file well-formed if and only if the root object already has a member |
| Utf8Clip.ClipText | runtime/memory.c:388-397 | the clipped text is the prefix the backwards loop stops at |
| Utf8Clip.ClipKeepsCharacters | runtime/memory.c:388-397 | clipping well-formed text never splits a character and drops at most three bytes below the bound |
| Utf8Clip.ReadTextClip | runtime/action_runtime_workers.c:235-265 | trim, cut, and a marker with the counts |
| Utf8Clip.MarkerWholeExactly | runtime/action_runtime_workers.c:247-259 | a cut text fits the buffer and ends in the whole marker with exact counts if and only if the buffer is longer than the shortest marker |
| Utf8Clip.ShownKeepsCharacters | runtime/action_runtime_workers.c:235-265 | the cut is between characters and at most three bytes short of the room the marker leaves |
| CacheView.KeepLatest | runtime/cacheview.c:92-109 | the candidate is appended, replaces the oldest, or is dropped |
| CacheView.BufferHoldsGreatest | runtime/cacheview.c:92-109 | after any stream of calls the buffer is a multiset of the greatest orders seen |
| CacheView.SortLatest | runtime/cacheview.c:208-218 | the exchange sort makes the buffer a descending permutation of itself |
| CacheView.MakeSelectedBaseline | runtime/cacheview.c:228-240 | the chosen call is first, the size unchanged, and only if it was not kept the last entry gives way, which in a sorted buffer is the oldest |
| CacheView.Arrange | runtime/cacheview.c:504-505 | sorting and then choosing a baseline: the chosen call leads, and an oldest entry gives way exactly when the chosen call was not among the entries |
| Bits.TestLowBits | runtime/agent_meta.c:125-127 | the mask 2^n - 1 has exactly the bits below n |
| Allowlist.LoadRegistry | runtime/action_registry.c:419-440 | registration accepts exactly distinct ids up to the cap, in order |
| Allowlist.ReadAllowlist | runtime/agent_meta.c:84-165 | a list is accepted exactly when every entry is known and none repeats; then ids and mask agree |
| Allowlist.AgreeAdds | runtime/agent_meta.c:124-161 | adding an id or all_actions, including the full 64, keeps list and mask in agreement |
| Allowlist.RenderAvailable | runtime/action_registry.c:922-965 | the catalog in configured order, all_actions expanded in place, without disabled actions |
| Allowlist.RenderAllowedIds | runtime/action_registry.c:978-1001 | the ids whose mask bit is set and that are not disabled |
| Allowlist.AllowsByList | runtime/action_registry.c:149-155 | the bit test allows an action exactly when it or all_actions is listed |
| Allowlist.ThreeViewsAgree | runtime/action_runner.c:438-467 | catalog by list, ids by mask, and calls the runner does not refuse as unknown, disabled or not allowed are the same actions |
| Allowlist.UnlistedRefusal | runtime/agent_meta.c:96-100 | without an actions array an agent may call every enabled action, and a model-backed one none |
| Allowlist.Views | runtime/action_registry.c:922-1001 | end to end from the configured entries, or their absence: shown, listed and not refused coincide |
| Decimal.ScanPrinted | runtime/affair_state.c:715-722 | scanning a printed number gives it back |
| Decimal.PrintedLengthMonotone | runtime/action_runtime_workers.c:247-256 | a greater number never prints shorter |

## Where code and comments differ

The model follows the code.

- runtime/operation_state.c:45-49 describes a survival window after finishing; eviction goes by
  array position, so an early starter can go at once (`EarlyStarterEvictedAtFinish`).
- runtime/action_runner.c:216-224 calls a memoised re-emit replay-deterministic; replay notes the
  repeated request again and appends its answer once more, exactly for the requests that were
  answered instead of queued (`RestartAnswersExactly`, `RestartAnswersTwice`). The queue is
  unaffected (`ReplayEnds`).
- runtime/action_runner.c:329-333 treats an absent ledger record as an effect that did not
  commit. A record can also be absent because a later write garbled it, exactly when it still
  lacked its newline (`ForeignGarblesExactly`), and then the message is written twice
  (`MessageWrittenTwice`). A reader still never sees two (`MessageAtMostOneRecord`), and a
  record that is a complete line is final (`CompleteRecordIsFinal`).
- runtime/config_cli.c:224-231 adds a member and a comma; on an empty root object the result is
  not JSON (`NewListNeedsMember`).

## Left out

- Wake copies of an operation_result carried by the publication outbox: they reach the store in
  the model but are not counted as results, since they name the original line.
- MessageAtMostOneRecord: the ledger keeps its lines. The janitor can rotate deliveries.jsonl
  (runtime/gateway/janitor_module.c:884) and so remove the record that recovery consults;
  rotation is no step of the model.
- Removal of old runs and processed envelopes by the janitor: envelopes and runs stay.
- Literal JSON of event payloads, and truncation of over-long fields, except in the splice, clip
  and projection results.
- Event numbers of the lines replay appends: they follow the number of the line being read
  (runtime/recovery.c:148-231, runtime/event_log.c:121-150), so they repeat the numbers of later
  lines. The model's lines carry request ids and no event numbers.
- The signature hash: signatures are compared as texts, so a hash collision is not modelled.
- Registry contents are fixed over the life of a run; an action whose manifest changes its
  outside_world flag between two starts is not modelled.
- Lines of a run log that a later append garbled make recovery refuse the run; the run model
  lets such a run recover, which only adds behaviours.
- A batch of requests in one agent output is taken one request at a time.
- Managed-operation side effects of action terminals, work-step wakes and task autocompletion.
- The store round trip through its JSON file.
- MemoryWindows: message ids are taken as new, although numbering restarts when the bounded tail
  of the log holds no message.
- MemoryProjection: the size of memory.jsonl shown at the end is constant during one call.
- AffairStore: the CLI setters of status and review time, and overflow of the manual number
  beyond a 32-bit int.
- CacheView: sort and baseline act on an array that is exactly the filled part of the buffer.
- ConfigSplice: arrays with more entries than the action cap, and texts whose first brace does
  not open the root object.
- Allowlist: the action_cli transport, which bypasses the disabled mask and has no list.
- InboundClaim: other events of the run are assumed not to carry its first event's number.
- Processes, pipes, signals, worker command lines, command-line parsing, rendering of views,
  numeric-string coercion, token randomness, credentials and path confinement, prompts, error
  classification: foreign calls or easy branches.
