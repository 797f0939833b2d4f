# Resumable agent turns

A model, with proofs, of the server side of a chat agent whose turns suspend while a phone decides on a tool
call and resume when it answers. The language model, the phone, the tool server and the store are arbitrary:
any text in any chunks, any tool calls, any answer or none, any failure.

- `Json`, `Transcript`: JSON values, the message log, and what it means for it to be well paired.
- `Repair`, `Slices`: the two repair passes that run before every model call, the stripping of `display`
  slices, the redaction of what is persisted.
- `CallKey`: the canonical key of a read call.
- `StreamFilter`: the streaming leak filter and repetition guard, a class that cuts its input incrementally.
- `Rendezvous`, `SessionService`: the session service as a timed state machine with every interleaving of
  registrations, responses, timers, lookups, sweeps, cleanups and deletions, and the class that does it in place.
- `AnyRun`: the same operations in any order at all, and what becomes of a call that the service loses track of.
- `Interruption`: the time a session has been waiting, and the `interrupted_at` mark a reconnect derives from it.
- `PhoneCalls`, `Anticipation`, `Suspension`: where a turn suspends, that it does not foresee what will come of it,
  and a whole turn run against the session service, move by move, with anything happening in between.
- `Persistence`: the watermark and the rows its flushes leave, with flushes that fail before or after writing.
- `Turn`, `TurnRules`, `TurnMeaning`, `TurnGuards`, `TurnText`, `TurnEffects`, `AgentSession`: the turn loop. `Turn`
  says move by move what a turn does, `TurnRules` is a monitor every turn obeys, the next four say what that means for
  the log, the bounds, the reads, the events, the text and the rows, and `AgentSession` is the loop itself, a class
  whose methods make those moves.
- `Orchestrator`, `Coordination`: the coordination of Core and the specialists, the same way.
- `Registry`: which agent owns a tool.

`dafny verify dfyconfig.toml` checks the whole project.

Some promises of the source hold only under a condition, and the model says which:

- The second repair pass promises its input back when there is nothing to drop, but its rewrite would also remove
  empty tool messages (`Repair.DropFastPath`).
- Chunking is irrelevant to the stream filter only for texts without very long unpunctuated runs
  (`StreamFilter.ChunkingIsIrrelevantIff`).
- A flush that writes its rows and then fails to touch the conversation is repeated by the next one
  (`Persistence.PersistedExactlyOnceIff`, `Persistence.HalfDoneFlushRepeats`), and a message pushed during a flush
  that succeeds is lost (`Persistence.NothingLostIff`, `Persistence.PushDuringFlushIsLost`).
- Rows written within the same milliseconds by two flushes may be read back in another order
  (`Persistence.ReloadKeepsOrderIff`, `Persistence.SameMillisecondSwaps`).
- The orchestrator promises one terminal event, but follows an error of Core's own model call with a `done`
  (`Coordination.OneTerminalIff`, `Coordination.CoreErrorThenDone`).
- The boot check overlooks a repeated prefix when the agent that declared it first has an empty id
  (`Registry.AgentRegistry.AssertRegistryInvariants`, `Registry.EmptyIdOverlooked`).
- A timer and a `finally` go by call id, so a call registered under the id of one that is not through can be lost,
  and then its own timer decides its fate (`AnyRun.LostOnlyToANamesake`, `AnyRun.LostCallFate`).
- `awaitingMobileSince` outlives a call that times out, so a fresh call of a later turn may be delivered as
  interrupted (`Interruption.MarkedForAnEarlierCall`, `Interruption.FreshCallMarked`).

Source paths are relative to the root of the repository.

## Model

| member | source | states |
|---|---|---|
| `Repair.SanitizeOrphanedToolCalls` | src/chat.service.ts:1758-1851 | The first repair pass, scan and rewrite: after each assistant message comes an `interrupted` result for every call that the run of tool messages behind it leaves unanswered; a log the scan passes comes back as it is |
| `Repair.DropOrphanedToolResults` | src/chat.service.ts:1868-1944 | The second pass, scan and rewrite: of the results of each open call only the first stays, every other result goes, emptied tool messages go, all else stays |
| `Repair.RepairForModel` | src/chat.service.ts:491-495 | The two passes in the order the turn loop runs them |
| `Repair.RepairIsLocal` | src/chat.service.ts:1758-1944 | Repair works message by message: each non-tool message keeps its place, and its replies become one marker for each distinct call without an answer, then the notes and the first real answer of each call, in their order; results at the head of the log all go |
| `Repair.RepairPairs` | src/chat.service.ts:1745-1757 | For every log, however disordered, each distinct call id is answered exactly once in the run directly behind its message, and no other result is left anywhere |
| `Repair.RepairKeepsNonTool` | src/chat.service.ts:1868-1944 | No user, system or assistant message is lost, changed or moved |
| `Repair.RepairFixesExactlyTheUnpaired` | src/chat.service.ts:1758-1944 | Repair leaves a log alone if and only if it is well paired |
| `Repair.RepairIsIdempotent` | src/chat.service.ts:1758-1944 | Repairing a repaired log changes nothing |
| `Repair.DropFromExchanges` | src/chat.service.ts:1904-1944 | The invariant of the second pass: after the first one no call is still open when it reaches a non-tool message, so it acts on each run of tool messages alone |
| `Repair.FirstAnswersAreKept` | src/chat.service.ts:1922-1938 | What the filter with its shrinking set of open ids keeps is the notes and the first result of each called id, as a subsequence |
| `Repair.SanitizedUnorphaned` | src/chat.service.ts:1759-1799 | The fast path of the first pass returns what its rewrite would |
| `Repair.DropFastPath` | src/chat.service.ts:1869-1902 | The fast path of the second pass returns what its rewrite would if and only if no tool message is empty |
| `Repair.OrderOfPassesMatters` | src/chat.service.ts:491-495 | Run the other way round the passes leave a stray result behind: a concrete family of logs |
| `Slices.RewriteCommutesWithRepair` | src/chat.service.ts:491-495 | Any per-reply rewrite that keeps which call a reply answers gives the same before repair and after it |
| `Slices.ModelSeesNoDisplay` | src/chat.service.ts:227-270 | Two logs that differ only in the `display` slices of JSON results show the model the same |
| `Slices.ModelViewPaired` | src/chat.service.ts:491-495 | What the model is shown is well paired, does not change when stripped first, and is a fixed point |
| `Slices.RedactDeep` | src/history/sanitize-messages.ts:14-24 | The recursion of `redactDeep` with its loops computes the redaction |
| `Slices.RedactIsClean` | src/history/sanitize-messages.ts:14-24 | At every depth a sensitive field holds only the placeholder, and redaction leaves a value alone if and only if that was so already |
| `Slices.RedactTellsApart` | src/history/sanitize-messages.ts:14-24 | Two values redact alike if and only if they differ at most under sensitive fields |
| `Slices.PersistedLogsRepairAlike` | src/history/sanitize-messages.ts:26-31 | Redaction commutes with repair, is idempotent and keeps a well-paired log well paired |
| `Slices.PersistedHidesSensitive` | src/history/sanitize-messages.ts:26-31 | Two logs that differ only under sensitive fields of tool messages are persisted alike, and so repaired alike when reloaded |
| `CallKey.SortAscending` | src/chat.service.ts:1959-1961 | Sorting the keys gives an ascending permutation of the properties |
| `CallKey.StringifyPrefix` | src/chat.service.ts:1955-1964 | No printed value is a proper prefix of another before a delimiter: the two texts split at one place and print values equal up to property order, though number texts alone are not prefix-free |
| `CallKey.StringifyTellsApart` | src/chat.service.ts:1951-1964 | Two JSON values print alike if and only if they are equal up to the order of properties |
| `CallKey.NoTextAfterColon` | src/chat.service.ts:1970-1972 | No printed value ends with a colon and another printed value |
| `CallKey.KeysTellCallsApart` | src/chat.service.ts:1966-1972 | Two read calls have one key if and only if they name the same tool with the same arguments, for all tool names, colons included |
| `StreamFilter.StreamSanitizer.Push` | src/agents/leakFilter.ts:109-132 | A pushed chunk is cut at terminators, each segment consumed, the rest kept or, from MAX_SEGMENT_BUFFER characters on, flushed; a stop empties the buffer |
| `StreamFilter.StreamSanitizer.EndStep` | src/agents/leakFilter.ts:138-146 | The trailing segment is consumed at the end of a step, while anchor and stop are kept |
| `StreamFilter.StreamSanitizer.ConsumeSegment` | src/agents/leakFilter.ts:148-162 | A leaking segment is dropped, the first substantial one becomes the anchor, its second coming stops the stream |
| `StreamFilter.StepConsumesCuts` | src/agents/leakFilter.ts:109-146 | However a step is chunked, it is one fold of the segment filter over the pieces of its text |
| `StreamFilter.CutsLoseNothing` | src/agents/leakFilter.ts:109-146 | The pieces of a step, joined, are its text |
| `StreamFilter.ChunkingIsIrrelevantIff` | src/agents/leakFilter.ts:124-131 | Every chunking of a text is cut into the same pieces if and only if the text has no run of MAX_SEGMENT_BUFFER characters without a terminator before its last character |
| `StreamFilter.StepIsOneShot` | src/agents/leakFilter.ts:109-146 | For such a text the output and the final guard are those of the text in one piece |
| `StreamFilter.GuardMeaning` | src/agents/leakFilter.ts:85-94 | Of the segments that do not leak, those before the first one that repeats the opening line come through, and exactly those |
| `StreamFilter.EmittedAreClean` | src/agents/leakFilter.ts:85-94 | No emitted segment leaks and none repeats the opening line of those before it |
| `StreamFilter.TurnEmitsClean` | src/agents/leakFilter.ts:85-94 | The same over all the steps of a turn, with the one guard carried from step to step |
| `StreamFilter.CleanTextPasses` | src/agents/leakFilter.ts:148-162 | A step that leaks nothing passes unchanged, and is stopped if and only if some segment returns to the opening line |
| `StreamFilter.PushLeavesShortRest` | src/agents/leakFilter.ts:124-131 | What a push leaves in the buffer has no terminator and is shorter than MAX_SEGMENT_BUFFER |
| `Rendezvous.StepKeepsInv` | src/session/session.service.ts:125-282 | Every interleaved operation keeps the invariant: the key sets of `pending` and `pendingPayloads` are equal, non-empty exactly when the state is `awaiting_mobile`, and lead to unsettled calls with their own payload and armed timer |
| `Rendezvous.StepExtends` | src/session/session.service.ts:125-282 | No operation takes a settlement back or adds a second one, and only `cleanup` and `delete` tear down a live call: no lookup, sweep, response or registration ever does |
| `Rendezvous.CallsSettleOnceInTime` | src/session/session.service.ts:125-218 | In every reachable state each accepted call is settled at most once, and an unsettled one is within its deadline and still the one its session waits on |
| `Rendezvous.ResponseAcceptedIffOpen` | src/session/session.service.ts:186-218 | A response is accepted if and only if a call of that id in that session is unsettled, and settles that call with that response |
| `Rendezvous.ReconnectIsExact` | src/chat.service.ts:1542-1558 | A reconnect re-delivers a payload if and only if it is that of an unsettled call of the session |
| `Rendezvous.ExpiredHasNothingPending` | src/session/session.service.ts:16-21 | An expired session has nothing pending, so eviction rejects nobody |
| `Rendezvous.TurnEndsIdle` | src/chat.service.ts:632-643 | A turn that ends leaves its session idle with both maps empty |
| `Rendezvous.ReconnectDeliversOne` | src/chat.service.ts:1542-1558 | A reconnect delivers at most one payload, so the order in which they are kept never matters |
| `Interruption.SinceIsFirst` | src/chat.service.ts:1203-1208 | At every moment of every run `awaitingMobileSince` is set if and only if some call was announced since which no turn of the session has gone on with an answer, and then to the time of the first such call, refused calls included |
| `Interruption.RedeliveryIsExact` | src/chat.service.ts:1542-1558 | A reconnect re-delivers exactly the unsettled calls with their payloads, and puts `interrupted_at` on them if and only if some such call was announced more than MOBILE_RESULT_TIMEOUT_MS ago |
| `Interruption.MarkedForAnEarlierCall` | src/chat.service.ts:1547-1553 | An unsettled call with the default timeout is marked if and only if an earlier call of its session was announced more than MOBILE_RESULT_TIMEOUT_MS ago with no turn going on with an answer since |
| `Interruption.FreshCallMarked` | src/chat.service.ts:1203-1208 | A run in which that happens: a call times out, its turn ends, the next turn announces a call, and a reconnect one millisecond later delivers the new call as interrupted |
| `AnyRun.LosesIff` | src/session/session.service.ts:157-179 | With nothing assumed of the callers, one operation makes the session lose track of an unsettled call if and only if it is the timer or the `finally` of another registration with the same session and id; any other leaves the call waiting or settles it |
| `AnyRun.LostOnlyToANamesake` | src/session/session.service.ts:157-179 | In every run a call is ever lost if and only if, while it is waiting, such a timer fires or such a `finally` runs |
| `AnyRun.StaleCleanupLosesCall` | src/session/session.service.ts:175-179 | So a call registered right before the `finally` of an earlier settled call is lost to it if and only if the two have the same session and id |
| `AnyRun.LostCallFate` | src/session/session.service.ts:157-179 | In every run of the service, with nothing assumed of its callers, a lost call is timed out once if its own timer ever fires while a newer call of its id is pending in its session, and is otherwise never settled |
| `AnyRun.NewerCallIsLost` | src/session/session.service.ts:166-170 | That timer drops the entry of the newer call and leaves it unsettled: it is lost in turn |
| `AnyRun.LostCallTakesTheNext` | src/session/session.service.ts:166-170 | Registering the id of a lost call once more while its timer is armed leads there: the timer settles the lost call and loses the new one |
| `AnyRun.SecondTurnHidesPending` | src/chat.service.ts:435 | Starting a turn on a session keeps state and maps in agreement if and only if nothing is pending; otherwise it hides the pending calls from a reconnect |
| `AnyRun.HiddenUntilNextCall` | src/chat.service.ts:1542-1567 | In every run a reconnect then re-delivers nothing until the session calls the phone again |
| `AnyRun.NextCallShowsHidden` | src/session/session.service.ts:150-156 | The next call brings the hidden ones back, next to itself |
| `AnyRun.LiveCallCanBeAnswered` | src/session/session.service.ts:187-218 | Hidden or not, a call that is waiting in a session that has not expired can be answered, which settles it |
| `PhoneCalls.EveryTurnSuspends` | src/chat.service.ts:1167-1287 | In every turn each `tool_pending` comes right after the dispatch of its call, and the next moves are all of what the call comes to: an answer that is pushed and reported, or the push and the error of a time-out or a lost session; a turn gives up at no other point |
| `PhoneCalls.UnansweredEndsTurn` | src/chat.service.ts:1214-1268 | A call without an answer ends the turn then and there: its error is the last event, and no model call, tool call or event follows |
| `PhoneCalls.TimesOutIff` | src/chat.service.ts:1217-1246 | A turn ends with `tool_timeout` if and only if one of its calls got no response |
| `PhoneCalls.LosesSessionIff` | src/chat.service.ts:1247-1268 | A turn ends with `session_error` if and only if one of its calls lost the session |
| `Suspension.IdsAreFree` | src/session/session.service.ts:137-143 | A turn between two calls can register any id: no earlier call of its session still has a `finally` to run |
| `Suspension.RunHolds` | src/chat.service.ts:1167-1287 | What holds at every moment of a turn run against the session service with every interleaving of responses, timers, lookups, sweeps, cleanups and other sessions: the turn waits on exactly the registration of the call it announced, with its id and payload, and every earlier one is through |
| `Suspension.ReconnectDuringTurn` | src/chat.service.ts:1542-1558 | At every such moment a reconnect re-delivers exactly the call that was announced, accepted and is not settled yet, and nothing when there is none |
| `Suspension.AnswersAreVerdicts` | src/chat.service.ts:1167-1287 | Every call the turn is through with came to what the one settlement of its own registration comes to, path and pushed result; a refused call lost the session |
| `Suspension.GoesOnOnlyWhenAnswered` | src/chat.service.ts:1214-1287 | In every run a turn calls the model or a tool again after a call to the phone only if the registration of that call was answered by the phone |
| `Suspension.SettlementDecides` | src/chat.service.ts:1214-1287 | An answered registration ends nothing; one that timed out or was torn down ends the turn at once with its own error |
| `Suspension.TimesOutExactly` | src/chat.service.ts:1217-1246 | A turn that has run to its end ended with `tool_timeout` if and only if the registration of one of its calls timed out |
| `Suspension.LosesSessionExactly` | src/chat.service.ts:1247-1268 | It ended with `session_error` if and only if one of its calls was refused or its registration torn down |
| `Suspension.AnySettlementGoesOn` | src/chat.service.ts:1167-1287 | However the call a turn waits on is settled, some turn of the session that has made the same moves so far goes on with that settlement, and the whole run before it stays a run |
| `Anticipation.NothingIsAnticipated` | src/chat.service.ts:1167-1287 | For every turn, every call it makes to the phone and every outcome, there is a turn with the same moves up to that call which then comes to that outcome: a turn depends on nothing it has not been told |
| `Suspension.RefusedIff` | src/session/session.service.ts:131-143 | The service refuses a call of a turn if and only if the session is missing or expired: never for a duplicate id |
| `Suspension.EarlierCallsAreThrough` | src/chat.service.ts:430-436 | A turn starts with all earlier calls of its session through if no earlier turn of the session was broken off |
| `SessionServices.SessionService.Create` | src/session/session.service.ts:74-95 | Files a fresh idle session and changes nothing else |
| `SessionServices.SessionService.Get` | src/session/session.service.ts:102-113 | Looks a session up, evicting it when expired and touching it otherwise |
| `SessionServices.SessionService.AwaitMobileResult` | src/session/session.service.ts:125-180 | Registers a call, or refuses it for a missing or expired session or a pending duplicate id |
| `SessionServices.SessionService.ResolveMobileResult` | src/session/session.service.ts:187-218 | Settles the pending call and forgets it, or refuses the response |
| `SessionServices.SessionService.RunCleanupClosure` | src/session/session.service.ts:157-164 | The cleanup a registration shares with its timer and its `finally`, which goes by call id |
| `SessionServices.SessionService.TimerFired` | src/session/session.service.ts:166-170 | The timer settles a call that is still pending as timed out |
| `SessionServices.SessionService.FinallyCallback` | src/session/session.service.ts:175-179 | The `finally` callback runs the cleanup again |
| `SessionServices.SessionService.Cleanup` | src/session/session.service.ts:224-235 | Rejects every pending call of a session and makes it idle |
| `SessionServices.SessionService.Evict` | src/session/session.service.ts:275-281 | Rejects every pending call of a session and removes it |
| `SessionServices.SessionService.Delete` | src/session/session.service.ts:241-245 | Evicts a session if there is one |
| `SessionServices.SessionService.Sweep` | src/session/session.service.ts:252-261 | Evicts exactly the expired sessions and counts them |
| `Persistence.PersistedExactlyOnceIff` | src/chat.service.ts:282-298 | Over any run of pushes and flushes, each message up to the watermark has exactly one row, in order, if and only if every flush whose rows went in was acknowledged with nothing pushed meanwhile |
| `Persistence.PersistedIsRedactedLog` | src/history/conversation.service.ts:31-60 | Then the rows are the redaction of the log from where the session began to its watermark |
| `Persistence.NothingLostIff` | src/chat.service.ts:272-298 | Every message below the watermark has a row, failed flushes included, if and only if nothing was pushed while a flush that succeeded was awaited |
| `Persistence.HalfDoneFlushRepeats` | src/chat.service.ts:282-298 | A run in which that fails: a flush writes its row and then fails, the next one writes it again |
| `Persistence.PushDuringFlushIsLost` | src/chat.service.ts:282-298 | A run in which coverage fails: a message pushed while a flush that succeeds is awaited gets no row |
| `Persistence.ReadsBackIffStrict` | src/history/conversation.service.ts:71-83 | A query by ascending `createdAt` returns the order of insertion, and no other, if and only if the stamps strictly ascend |
| `Persistence.ReloadKeepsOrderIff` | src/history/conversation.service.ts:34-52 | That is so over a run if and only if each flush begins after the last stamp of the flush before it |
| `Persistence.SameMillisecondSwaps` | src/history/conversation.service.ts:34-52 | A run in which that fails: two flushes that begin in one millisecond, whose rows may be read back swapped |
| `TurnRules.EveryTurnObeys` | src/chat.service.ts:430-847 | Every turn, for all models, phones and tool servers, obeys the rules of the monitor and ends closed, with every call answered and nothing left to flush |
| `TurnRules.HandleObeys` | src/chat.service.ts:654-791 | The tool calls of a step are answered one by one in call order over the server, phone, duplicate and time-out paths, and all the rest as interrupted when the turn gives up |
| `TurnMeaning.OwedIsMissing` | src/chat.service.ts:607-791 | At every point of a turn the log is well paired but for the last calls, of which exactly those still owed lack an answer |
| `TurnMeaning.PairedAtEveryModelCall` | src/chat.service.ts:485-498 | From a well-paired log and with no id twice in a step, the log is well paired at every model call and at the end of the turn |
| `TurnMeaning.CutOffAnywhere` | src/chat.service.ts:485-498 | Cut off at any point, the log is repaired by adding an `interrupted` marker for each call still unanswered, in call order, and nothing else |
| `TurnGuards.AtMostSixteenModelCalls` | src/chat.service.ts:437-480 | At most sixteen model calls |
| `TurnGuards.NeverAFourthTry` | src/chat.service.ts:805-832 | No model call follows three all-failed steps in a row |
| `TurnGuards.RepeatIff` | src/chat.service.ts:659-685 | A read is taken for a duplicate if and only if the same tool was dispatched with the same arguments earlier in the turn with no write since; every other read is dispatched |
| `TurnGuards.NoModelCallAfterRepeat` | src/chat.service.ts:793-803 | After a duplicate read the model is not called again |
| `TurnGuards.ExactlyOneTerminalEvent` | src/chat.service.ts:430-847 | Exactly one `done` or `error` goes out, as the last event |
| `TurnGuards.NothingAfterTerminal` | src/chat.service.ts:430-847 | After its terminal event a turn calls neither the model nor a tool and says nothing |
| `TurnGuards.CommittedTextIsShownText` | src/chat.service.ts:521-630 | The text of every assistant message is what the user was shown in its step, no more and no less |
| `TurnText.TurnShowsClean` | src/chat.service.ts:521-556 | All the text a turn shows is made, in order and without overlap, of segments that one guard let through over all its model calls, none of which leaks or repeats the opening line |
| `TurnGuards.StepTextIsOneShot` | src/chat.service.ts:534-542 | Up to the length cap the text of a step, and the guard after it, do not depend on how the model chunked it |
| `TurnEffects.TurnPromises` | src/chat.service.ts:430-847 | What a whole turn does to a session: the log grows by its messages, one terminal event, at most sixteen requests, each well paired, and a well-paired log in the end |
| `TurnEffects.RequestIsWholeLog` | src/chat.service.ts:491-495 | From a well-paired log the model is sent all of it, but for `display` slices |
| `TurnEffects.TurnKeepsRows` | src/chat.service.ts:272-298 | Whatever the store does during a turn, nothing below the watermark lacks a row, and each message has exactly one unless a flush writes its rows and then fails |
| `TurnEffects.PersistedBeforeShown` | src/chat.service.ts:272-281 | With a store that works, all the turn has committed is persisted whenever an event goes out and when the turn ends |
| `AgentSessions.AgentSession.RunAgentTurn` | src/chat.service.ts:430-847 | The turn loop makes exactly the moves of the turn trace, ends idle, and keeps the promises above |
| `AgentSessions.AgentSession.RunStep` | src/chat.service.ts:480-835 | One model call and all that comes of it |
| `AgentSessions.AgentSession.TakeAnswer` | src/chat.service.ts:485-584 | The answer is streamed through the sanitizer; a failing call, stream or tool-call list ends the turn with an error |
| `AgentSessions.AgentSession.StreamText` | src/chat.service.ts:534-541 | Every chunk goes through the sanitizer, and what it lets through is shown and kept up to the cap |
| `AgentSessions.AgentSession.EmitText` | src/chat.service.ts:523-533 | A non-empty piece is shown and kept while the text is below MAX_ASSISTANT_CHARS |
| `AgentSessions.AgentSession.ConcludeStep` | src/chat.service.ts:586-832 | A stopped step keeps its text without its calls; otherwise the step is committed and its tools run |
| `AgentSessions.AgentSession.RunTools` | src/chat.service.ts:654-791 | The loop over the tool calls of a step, with its duplicate guard and its failure flags |
| `AgentSessions.AgentSession.RunCall` | src/chat.service.ts:655-790 | One call: a duplicate read is answered at once, anything else is dispatched, a write clears the guard |
| `AgentSessions.AgentSession.Abandon` | src/chat.service.ts:767-785 | Every call not reached is answered as interrupted |
| `AgentSessions.AgentSession.ExecuteServerTool` | src/chat.service.ts:1081-1157 | A server tool is run, its result or its failure pushed and flushed, then reported |
| `AgentSessions.AgentSession.ExecuteMobileTool` | src/chat.service.ts:1167-1287 | A call goes to the phone; its answer, its time-out or the loss of the session is pushed and flushed |
| `AgentSessions.AgentSession.PersistTurnSoFar` | src/chat.service.ts:282-298 | The unpersisted part of the log is flushed, and the watermark moves only on success |
| `AgentSessions.AgentSession.PrepareTurnWatermark` | src/chat.service.ts:411-419 | Only the first turn of a session sets the watermark |
| `Orchestrator.DecideCoreRoute` | src/agents/engine.ts:118-135 | Core routes if and only if some call is a hand-off to a known specialist, and the steps are all of those, in order |
| `Orchestrator.RunSpecialist` | src/agents/orchestrator.ts:145-175 | One specialist run: all but its `done` is forwarded in order, pending calls stamped with the wallet, and its result recorded |
| `Orchestrator.SummaryIsShortPrefix` | src/agents/orchestrator.ts:154-175 | A ledger summary is a beginning of the text the specialist showed, of at most 400 characters, and all of it when it is short |
| `Orchestrator.CourseEnds` | src/agents/orchestrator.ts:86-206 | Every orchestrated turn, for every engine, obeys the coordination rules and ends |
| `Coordination.CoreCallsBounded` | src/agents/orchestrator.ts:86-199 | Core is called at most four times and at most once more than there are specialists |
| `Coordination.CapIsNeverReached` | src/agents/orchestrator.ts:192-206 | With at most two specialists every run is followed by another call of Core: the hop cap never ends the turn |
| `Coordination.OneHopEach` | src/agents/orchestrator.ts:65-77 | All runs of one specialist fall between two calls of Core, and no step is run twice |
| `Coordination.EveryPlannedStepIsTakenUp` | src/agents/orchestrator.ts:103-183 | The steps Core plans are taken up in order, all of them, unless the turn ends on a failed one |
| `Coordination.SkippedOnlyFor` | src/agents/orchestrator.ts:114-135 | A planned step is passed over only if there is no such specialist, it ran in an earlier hop, or the same step was planned before |
| `Coordination.StepKeyTellsApart` | src/agents/orchestrator.ts:122 | For names without a colon the key of a step identifies specialist and brief |
| `Coordination.LedgerIsExact` | src/agents/orchestrator.ts:84-92 | Each call of Core is given exactly the results of the steps run before it, in order, with short summaries |
| `Coordination.ForwardsEverything` | src/agents/orchestrator.ts:147-167 | The client is sent all Core streamed and all the specialists streamed but their `done`, in order, and nothing else but the closing `done` |
| `Coordination.EndsOnce` | src/agents/orchestrator.ts:177-206 | A turn ends with `done` or with a failed specialist run, and nothing before its last act ends it |
| `Coordination.OneTerminalIff` | src/agents/orchestrator.ts:94-206 | With real turns as specialists, the client sees exactly one terminal event, the last, if and only if no call of Core streamed an error |
| `Coordination.SpecialistsBehave` | src/chat.service.ts:1033-1053 | An engine whose specialists run turns as modelled, or fail to get a model, and whose Core sends no `done`, meets the condition of that statement |
| `Coordination.CoreErrorThenDone` | src/chat.service.ts:944-948 | When the model call of Core fails the client is sent the error and then a `done` |
| `Coordination.CoreSeesOnlyHistory` | src/chat.service.ts:917-940 | In every orchestrated turn, each call of Core is shown the log as it was when the turn began, made well paired, whatever specialists and Core have added since |
| `Coordination.LogGrows` | src/agents/orchestrator.ts:79-92 | Along every course the log only grows, by the messages of each run and the replies Core commits, in order, and the place where the turn began stays |
| `Coordination.PairedThroughout` | src/chat.service.ts:485-498 | From a well-paired log, with turns as modelled for specialists and no id twice in a step, the log is well paired at every model call of every specialist run of the whole orchestrated turn, and at its end |
| `Coordination.Orchestrate` | src/agents/orchestrator.ts:56-206 | The nested loops of the orchestrator follow exactly that course, and leave the log that it adds up to |
| `Registry.AgentRegistry.RegisterAgent` | src/agents/registry.ts:28-45 | A card goes in if and only if its id and all its prefixes are free, and then no two cards share either |
| `Registry.AgentRegistry.GetAgentForTool` | src/agents/registry.ts:54-76 | The owner claims the tool by its exact name or else by the longest family; none if and only if nobody claims it |
| `Registry.OrderIsIrrelevant` | src/agents/registry.ts:46-76 | The owner of a tool does not depend on the order of registration |
| `Registry.AgentRegistry.AssertRegistryInvariants` | src/agents/registry.ts:100-164 | The boot check passes if and only if no prefix is declared again after a named agent declared it, Core declares exactly `core_`, and no server tool is an orphan |
| `Registry.EmptyIdOverlooked` | src/agents/registry.ts:103-115 | A registry the check passes though a prefix is declared twice: the card that lists it has an empty id |
| `Registry.BootedRegistryRoutes` | src/agents/registry.ts:148-164 | After the boot check every server tool has exactly one owner, and Core owns nothing but `core_` tools |

## Left out

Assumptions of the source, made explicit where a result depends on them:

- One live turn per session, timers that fire on time, timeouts within SESSION_TTL_MS and a clock that does not run backwards are conditions of `Rendezvous.Enabled`; so is that a call id is not registered again before the `finally` of its earlier call has run. `Suspension.IdsAreFree` shows that the turns of `Suspension` meet the last one; `AnyRun` assumes none of them and shows what then goes wrong.
- A turn of `Suspension` begins when all earlier calls of its session are through. `Suspension.EarlierCallsAreThrough` shows that this is so unless an earlier turn of the session was broken off.
- Session ids are random and are not given out twice (`World.used`).
- A stored batch of rows goes in whole or not at all; a `createMany` that throws after writing counts as a flush that wrote its rows and then failed.
- No other writer adds rows to the conversation of a session.
- Within a turn nothing is pushed while a flush is awaited; `Persistence` proves what exactly is lost when it is.
- "No id twice in a step" is a condition on the model (`TurnRules.TidyEnv`); without it the requests are still well paired, by repair.

Not modelled:

- Rendezvous.ReconnectIsExact: states what is re-delivered as a set, which has at most one element by `Rendezvous.ReconnectDeliversOne`; the `interrupted_at` mark is in `Interruption.RedeliveryIsExact`.
- AgentSessions.AgentSession.ExecuteMobileTool: takes the answer of the phone as an input; the registration of the call and the wait for its settlement are in `Suspension`.
- Suspension.AnswersAreVerdicts: leaves open what result is made of a response (`Setting.status`, `Setting.rest`) and the message of a torn-down or refused call. A run fixes beforehand what the phone will answer; by `Suspension.AnySettlementGoesOn` that excludes no settlement.
- StreamFilter.StreamSanitizer.ConsumeSegment: takes the leak patterns as any predicate on segments, since their texts are data, and filters one segment at a time, as the stream does. The whitespace tidying of a one-shot `stripMachineryLeak` over a whole reply of Core, and the choice of Core's own reply, are not part of this model.
- CallKey.KeysTellCallsApart: strings are sequences of Unicode scalar values: lone surrogates, and the UTF-16 order of keys with characters beyond U+FFFF, are not distinguished.
- The lengths that the code compares with 24, 2000, 32000 and 400 are counted in Unicode scalar values, where the source counts UTF-16 units.
- JSON values hold no `undefined`, NaN or infinity and no negative zero; a number is its printed text. Ids are strings, the content of a tool message is an array.
- A session object that was evicted while a turn still holds it is not followed any further.
- Rewriting of x402 inputs before a call goes to the phone, progress labels, human summaries, result shapes of tools, prompts, tool schemas and usage figures.
- The payloads of events are reduced to what the properties speak of: text, call ids, error codes, the wallet stamp.
- The controller's folding of stored conversations into a live session, the conversation-list cache, HTTP and SSE plumbing, the store of agent tasks, the x402 catalog, `emitDelayHint`.
- The soft warning of the boot check about prefixes that match no server tool.
