# Verified model of the pycodex runtime

pycodex is an agent runtime: a session that samples a model, runs tools for it, and writes everything
down in an append-only ledger from which the session can be restored. This project models its
stateful core in Dafny and proves what that core is meant to keep, over every run rather than for
single calls. `dafny verify dfyconfig.toml` checks the whole project.

## What is modelled

**The event-sourced session.** `PromptHistory` completes a history for the model (every call gets an
output, first in first out per call id). `Rollout` folds ledger records into a state, and
`RolloutMeaning` says from the records alone what that state holds. `Compaction` plans and applies
summaries. `SessionState` describes one turn and whole runs of turns, closings, resumes and crashes as
functions on the live session and the ledger written beside it; the model's replies, tool outcomes,
summaries and every cancellation point are inputs. `TurnRecords` says what a turn writes down, without
those functions: every message, every call with its output, and the end. `Agent` is the same as mutable
objects, method by method, and each method is proved to do what the function says. `SessionListing` is
the session list with its fast path. The central result is `SessionState.ReplayRefinesEveryRun`.

**The approval gate.** `Approval` is the store shared by all coroutines. `ApprovalProtocol` is the
prompt protocol as an interleaving transition system with a lock, events, owners, waiters, shielded
finalisers and cancellation at every suspension point; `ApprovalSafety` and `ApprovalProgress` say what
it keeps, that no approval is shared, and that it comes to an end, and `ApprovalOutcomes` with which outcome
each caller ends. `ApprovalGate` is the decision in front of a tool call, over any sequence of calls on one
store, and `ApprovalVerdicts` the table of its verdicts.

**The ledger file.** `Recorder` is the queue-backed writer with its worker, flush barriers and
failures; `RecorderProgress` says that waits are served and what a flush then promises. `LedgerFile` has the torn-tail repair and the two chunked backward scans. `JsonText` proves,
from sections 2 to 7 of RFC 8259, that no proper prefix of an object's text is an object's text, on
which the repair rests. `CrashRecovery` joins them: what was flushed survives a crash at any byte.

**Event coalescing.** `TurnsView` is the reducer of the terminal interface and the hook that buffers
text deltas per turn; buffering is proved to change nothing. `TurnsMeaning` says what a turn shows, from
the events alone.

**Algorithms.** `SkillYaml` is the front-matter parser, `SkillScalars` the table of its scalars,
`SkillYamlFaults` the meaning of its errors and `SkillYamlText` a writer for its values. `SkillYamlRoundTrip` and `SkillYamlRange` say what each written value parses to, and give the exact range
of the parser. `SkillMentions` finds `$name` mentions outside code. `ListDir` is the depth-limited paged
walk, and `ListDirDepth` says which entries it lists. `TruncateUtf8` cuts a text at a byte budget, with UTF-8 encoding and decoding from sections 3 and 4
of RFC 3629. `Prelude`, `Sorting` and `Text` hold shared vocabulary.

## What came out differently from what one might expect

- Compaction computes its range on the completed prompt but cuts the raw history. A given range removes
  what was summarised exactly when no unanswered call stands before its last item, or all that follows
  the call there equals the output a placeholder gives it (`Compaction.PlanAgreesIff`); all ranges do
  exactly when no call is unanswered (`Compaction.RangesAgreeIffAnswered`). Runs without a
  crash between a call record and its output keep that so (`SessionState.EveryCallAnsweredOnce`); after
  such a crash a recent item can be dropped without having been summarised
  (`Compaction.UnansweredCallLosesItem`).
- A batch recorded while `shutdown` waits is accepted and never written, and a later `flush` returns
  silently (`Recorder.RecordDuringShutdownIsLost`); everything accepted is durable exactly when no batch
  was queued behind the shutdown request (`Recorder.SilentReturnIsDurableIffNothingQueued`).
- When the worker fails while serving a flush, that flush's wait is never settled, while all queued ones
  fail (`Recorder.WaitInHandIsNeverSettled`).
- `pycodex/approval/policy.py:44-48` says a session-wide approval is honoured for the lifetime of the
  store. In on-failure mode under a restrictive sandbox the code never looks it up and asks again
  (`ApprovalGate.SessionApprovalAskedAgainIff`).
- In a skill's front matter a map below the first key of a list item takes in the keys that follow the
  item's own, at any depth (`SkillYamlRange.TextReads`). A document written with every key once reads back
  exactly when it has no such item with further keys (`SkillYamlRange.TextReadsBackIff`), and the usual
  deeper indentation is refused (`SkillYamlRange.DeeperMapIsRefused`). Every value the parser can return
  can still be written, with `null` under such a first key and the key again (`SkillYamlRange.RoundTrip`).
- A directory listing that ends exactly at the cap says nothing about the entries cut off behind it
  (`ListDir.ResponseMeans`).
- The fast and the replayed row of a session agree on everything but the last user message. They agree
  on that too exactly if the session, when it is closed, remembers a user message just when its history
  holds one (`SessionListing.ClosingRowsAgreeIff`). It can remember none after a resume
  (`SessionListing.ResumeForgetsLastMessage`), and a compaction can cut the message it remembers out of
  the history (`SessionListing.CompactionForgetsLastMessage`). Where both rows have a message, it is the
  same one.
- A forbidden command is refused only if the tool call mutates something: for other calls no rule is
  consulted (`ApprovalGate.ForbiddenRunsIffReadOnly`).

## Model

| member | source | states |
|---|---|---|
| `PromptHistory.NormalizePromptHistory` | pycodex/core/session.py:383-423 | the scan, sort and in-place insertions give the original items in order with one placeholder directly after each call that FIFO pairing per call id leaves over |
| `PromptHistory.ScanPendingCalls` | pycodex/core/session.py:384-406 | the dictionary of deques holds, for every non-empty id, exactly the positions FIFO pairing leaves |
| `PromptHistory.MissingOutputs` | pycodex/core/session.py:408-411 | flattening the dictionary lists every unanswered call exactly once, with its position and id |
| `PromptHistory.InsertPlaceholders` | pycodex/core/session.py:413-421 | back-to-front insertion completes the history without disturbing earlier positions |
| `PromptHistory.FifoIsUnanswered` | pycodex/core/session.py:384-406 | the deque left for an id holds exactly the calls that the counting specification (more calls waiting at the end than calls behind this one) names unanswered, repeated ids included |
| `PromptHistory.PromptsAreAnswered` | pycodex/core/session.py:383-423 | whatever the raw history is, every identified call in the prompt has its output |
| `PromptHistory.NormalizeIsIdempotent` | pycodex/core/session.py:383-423 | completing a prompt again changes nothing |
| `PromptHistory.PromptIsHistoryIffAnswered` | pycodex/core/session.py:377-380 | the prompt is the raw history exactly when no call is unanswered |
| `Rollout.Replayer.ApplyRolloutItem` | pycodex/core/rollout_replay.py:277-321 | one record changes history and usage as the fold says, with Python's clamping of ranges |
| `Rollout.Replayer.ReplayRollout` | pycodex/core/rollout_replay.py:94-186 | the line loop with its errors, warnings and tolerated torn last line computes the functional replay |
| `Rollout.ReplayLinesIsFold` | pycodex/core/rollout_replay.py:94-186 | replay succeeds exactly when every line but a torn last one is readable, and is then the fold of the stored records |
| `Rollout.DisplayedIsEverythingStored` | pycodex/core/rollout_replay.py:146-156 | the displayed history is every well-formed item stored, in order, whatever was compacted |
| `Rollout.ReplayFailsAtFirstBadLine` | pycodex/core/rollout_replay.py:94-140 | replay fails with the error of its first unreadable line: another major version is a version mismatch, everything else a failure |
| `RolloutMeaning.UsageIsLatest` | pycodex/core/rollout_replay.py:94-186 | the usage is that of the last completed turn in the ledger, zero without one |
| `RolloutMeaning.ClosingIsLatest` | pycodex/core/rollout_replay.py:94-186 | the closing record reported is the last one in the ledger |
| `RolloutMeaning.ContextIsInjectedIff` | pycodex/core/rollout_replay.py:94-186 | the context counts as injected exactly if a record says so |
| `RolloutMeaning.ReplacementIs` | pycodex/core/rollout_replay.py:277-321 | a range is replaced exactly if it holds an item of the history; one summary then stands in its place and all other items stay in order |
| `RolloutMeaning.WarningsAreCounted` | pycodex/core/rollout_replay.py:94-186 | a replay that succeeds warns once per unknown type, torn last line, malformed item, range reaching behind the history so far and range without an item, and about nothing else |
| `SessionState.CutKeepsMessage` | pycodex/core/session.py:204-223 | a compaction leaves the last user message of the history or none |
| `SessionState.ReplayRefinesEveryRun` | pycodex/core/agent.py:185-346 | after every sequence of turns, closings, resumes and crashes the fold of the ledger is the live history, cumulative usage, turn count and compaction count, and the summary blocks are a prefix as long as that count |
| `SessionState.TurnKeeps` | pycodex/core/agent.py:185-346 | on every exit of a turn the ledger agrees with the session, at every prefix of it the totals and summary blocks are sound, and unless a crash tore a call from its output before, only the call recorded last can be waiting at any prefix and the next record is its output |
| `SessionState.RunKeeps` | pycodex/core/agent.py:185-346 | the same over any sequence of steps |
| `SessionState.EveryCallAnsweredOnce` | pycodex/core/agent.py:268-346 | when no crash tears a call from its output, each call record is followed by its one output, each output follows its call, and at every point where the loop compacts or samples the prompt is the raw history and the ledger agrees with it |
| `SessionState.CrashLeavesUnansweredIffItTearsACall` | pycodex/core/rollout_replay.py:189-203 | the session restored from any prefix of the records has an unanswered call exactly when the last record kept is a call |
| `SessionState.ClosingRecordsRepeatReplay` | pycodex/core/session.py:319-341 | every closing record in the ledger carries the turn count and token totals replay computes from everything before it, over resumes and crashes |
| `SessionState.UsageIsConserved` | pycodex/core/session.py:245-261 | after every run, resumes and crashes included, the cumulative usage is the sum of the usages of the recorded turns, and the turn count is their number |
| `TurnRecords.EveryCallIsRun` | pycodex/core/agent.py:268-335 | if every call of a reply finishes, history and ledger grow by exactly each call followed by its output, for all calls in order, and the turn goes on |
| `TurnRecords.StoppingCallIsLast` | pycodex/core/agent.py:268-335 | the first call that is aborted or cancelled is the last one recorded, still with its output; it decides the exit, and an abort completes the turn |
| `TurnRecords.CappedIs` | pycodex/core/session.py:141-146 | a result is stored as it is, or cut to its first 200000 characters and marked |
| `TurnRecords.TurnRecordsEverything` | pycodex/core/agent.py:185-346 | for any number of passes that go on before the last, any compactions and skill messages between: the ledger gains the opening, every text, every call with its output and the end of the turn, in order, and the turn ends as its last pass says |
| `TurnRecords.TurnOpens` | pycodex/core/agent.py:187-206 | a turn first records the metadata once per recorder, the initial context once per session, and the question |
| `TurnRecords.TurnOpensHistory` | pycodex/core/agent.py:187-206 | the initial context stands before everything else in the history, the question behind it, and only skill messages after that |
| `TurnRecords.CancelledTurnRecordsOpening` | pycodex/core/agent.py:185-346 | a turn cancelled before it samples leaves only its opening |
| `TurnRecords.LostSummaryEndsTurn` | pycodex/core/compaction.py:232-277 | a summary that is cancelled or fails ends the turn at that pass, with nothing recorded |
| `TurnRecords.CompactionRecordIs` | pycodex/core/compaction.py:232-277 | a compaction record holds the rendered summary, its place right behind the summary blocks, the start of the recent items and how many items made room for it |
| `TurnRecords.RenderedSummaryIs` | pycodex/core/compaction.py:505-508 | a rendered summary is the marker line and the summary without the space around it, or a note if nothing is left |
| `TurnRecords.ResumedTurnRepeatsNoContext` | pycodex/core/rollout_replay.py:189-203 | the turns of a resumed session record the metadata of the new recorder and no initial context |
| `TurnRecords.FreshSkillsAreInjected` | pycodex/core/agent.py:401-431 | injection appends exactly the first message of the plan for each skill not yet there, in order |
| `TurnRecords.ExistingSkillsAre` | pycodex/core/agent.py:490-513 | a skill counts as there exactly if its message stands before the last item of the prompt with only skill messages between |
| `SessionState.CompactStepKeeps` | pycodex/core/agent.py:537-546 | planning, summarising, cutting and recording a compaction keeps the agreement between ledger and session |
| `SessionState.RunCallsKeeps` | pycodex/core/agent.py:268-335 | dispatching any calls with any outcomes, aborts and cancellations keeps it and leaves every call with one output |
| `SessionState.LoopKeeps` | pycodex/core/agent.py:209-335 | so does the sampling loop, however it is left |
| `Agent.Session.AppendUserMessage` | pycodex/core/session.py:111-131 | the history grows by the message and the last user message is remembered |
| `Agent.Session.AppendToolResult` | pycodex/core/session.py:141-146 | the capped result is appended and nothing else changes |
| `Agent.Session.AppendFunctionCall` | pycodex/core/session.py:148-171 | the call is appended and nothing else changes |
| `Agent.Session.ToPrompt` | pycodex/core/session.py:377-380 | the returned prompt is the completed history, which itself is unchanged |
| `Agent.Session.ReplaceRangeWithSystemSummary` | pycodex/core/session.py:204-223 | the range is replaced by one system message and counted, or nothing changes when the range is refused |
| `Agent.Session.RecordTurnUsage` | pycodex/core/session.py:245-261 | valid usage is added to the totals and returned with them; other usage changes nothing |
| `Agent.Session.RecordRolloutItems` | pycodex/core/session.py:305-310 | the records are appended to the ledger |
| `Agent.Session.CloseRollout` | pycodex/core/session.py:319-341 | the first closing writes the closing record, later ones nothing |
| `Agent.Session.RestoreFromRollout` | pycodex/core/rollout_replay.py:189-203 | a session restored over a ledger is the replayed one, marked as resumed |
| `Agent.TurnAgent.OpenTurnRecords` | pycodex/core/agent.py:187-190 | the metadata record and the initial context, once per session |
| `Agent.TurnAgent.AppendInjectedMessages` | pycodex/core/agent.py:401-431 | exactly the planned skill messages not yet injected for this user message are appended and recorded |
| `Agent.TurnAgent.ExistingInjectedKeys` | pycodex/core/agent.py:490-513 | the backward scan collects the skills of the injected messages standing directly before the last prompt item, and stops at any other item |
| `Agent.TurnAgent.CompactHistoryIfNeeded` | pycodex/core/compaction.py:232-277 | compaction and its record change session and ledger as the functional step does |
| `Agent.TurnAgent.AppendPendingToolOutputs` | pycodex/core/agent.py:816-830 | however many calls are pending, each gets the outcome as its output, in order, in the history and in the ledger |
| `Agent.TurnAgent.DispatchToolCall` | pycodex/core/agent.py:269-335 | one call, with every way it can end: result, abort, cancellation inside the tool or at a notification |
| `Agent.TurnAgent.DispatchToolCalls` | pycodex/core/agent.py:268-335 | the calls in order up to the first abort or cancellation, whose pending calls the outer handler finds |
| `Agent.TurnAgent.SampleUntilDone` | pycodex/core/agent.py:208-335 | the loop ends where the functional loop ends, with the same state and the pending calls still to be answered |
| `Agent.TurnAgent.RunTurn` | pycodex/core/agent.py:185-346 | the whole turn, handlers included, is the turn function of the model: same state, same ledger, same exit |
| `Compaction.PlanCompaction` | pycodex/core/compaction.py:127-160 | the loop over leading summary blocks plans what the specification plans, or nothing |
| `Compaction.PlannedIff` | pycodex/core/compaction.py:127-160 | a range is planned exactly when the remaining share of the window is below the threshold, it runs from the last summary block to the recent items, and it has enough items |
| `Compaction.TargetIff` | pycodex/core/compaction.py:232-256 | on a history that opens with its summary blocks, a compaction is attempted exactly when the window runs low and enough items, at least one, stand between the blocks and the recent items |
| `Compaction.PlansAreMonotone` | pycodex/core/compaction.py:127-160 | what is planned at an estimate is planned at every larger one, and if a full window plans nothing under a positive threshold, no estimate does |
| `Compaction.TargetShape` | pycodex/core/compaction.py:127-160 | a planned range starts right behind the summary blocks, leaves the recent items, and what is summarised is the whole range |
| `Compaction.CompactionRemovesWhatItSummarised` | pycodex/core/compaction.py:232-277 | on a complete history exactly the summarised items are removed, the summary blocks and recent items stay, one block is added, the result is complete and, with at least two items to replace, shorter |
| `Compaction.CompactionIsQuiescent` | pycodex/core/compaction.py:127-160 | without new items a second compaction plans nothing, whatever the token estimate |
| `Compaction.CutKeepsAnswered` | pycodex/core/session.py:204-223 | a cut that separates a call from its output leaves no call unanswered |
| `Compaction.ReplacementKeepsPrefix` | pycodex/core/session.py:204-223 | the summary blocks stay a prefix, one longer, on any history |
| `Compaction.PromptKeepsSummaryPrefix` | pycodex/core/session.py:383-423 | completing a history neither moves nor adds summary blocks |
| `Compaction.RangesAgreeIffAnswered` | pycodex/core/compaction.py:233-256 | the items summarised are the items cut, for every range end, exactly when no call is unanswered |
| `Compaction.PlanAgreesIff` | pycodex/core/compaction.py:233-256 | for one range end, they are exactly when every unanswered call with an item behind it in the range is followed up to the end only by outputs equal to its placeholder |
| `Compaction.UnansweredCallLosesItem` | pycodex/core/compaction.py:233-256 | with an unanswered call a recent item can be cut without having been summarised |
| `SessionListing.ListSessions` | pycodex/core/session_store.py:117-179 | a limit returns the rows of the first files in listing order, and later files are not read |
| `SessionListing.FastListingAgreesWithReplay` | pycodex/core/session_store.py:140-174 | for every ledger a run leaves, the fast row and the replayed row agree on status, turn count and tokens, and entirely exactly when the closing record, if it comes last, names a user message just when the replayed history holds one |
| `SessionListing.ClosingRowsAgreeIff` | pycodex/core/session.py:319-341 | after any run, closing gives two equal rows exactly if the session remembers a user message just when its history holds one |
| `SessionListing.ClosedIffSomeClosingRecord` | pycodex/core/rollout_replay.py:157-160 | replay calls a session closed when any closing record stands in the ledger, also one before a resume |
| `SessionListing.ResumeForgetsLastMessage` | pycodex/core/rollout_replay.py:193-198 | a session restored and closed lists no last user message, which agrees with replay exactly when its history has none |
| `SessionListing.CompactionForgetsLastMessage` | pycodex/core/session.py:204-223 | a turn in a fresh session whose compaction cuts the question out of the history while the session remembers it |
| `Approval.PutNeverEvicts` | pycodex/approval/policy.py:41-51 | no decision removes a session-wide approval |
| `Approval.ApprovalStore.PutDecision` | pycodex/approval/policy.py:41-51 | only session-wide approvals are stored; everything else leaves the store as it is |
| `Approval.ApprovalStore.CreatePendingPrompt` | pycodex/approval/policy.py:61-69 | a fresh, unset event is registered for the key |
| `Approval.ApprovalStore.FinalizePendingPrompt` | pycodex/tools/orchestrator.py:446-458 | the decision is stored, the key is no longer pending and its event is set |
| `ApprovalSafety.Safety` | pycodex/tools/orchestrator.py:198-266 | in every interleaving with cancellation anywhere: at most one coroutine in a locked section, a key pending exactly while one live owner holds it, and every waiter's event set or held by a live owner of its key |
| `ApprovalSafety.ExecutionsAreApproved` | pycodex/tools/orchestrator.py:236-266 | whoever ran on an answer got that granting answer itself, about its own key, whoever ran on the cache had its key approved for the session, whoever was refused got the refusal itself, and no caller is answered twice |
| `ApprovalSafety.SingleUseApprovalsAreNotShared` | pycodex/tools/orchestrator.py:236-266 | calls run on single-use approvals are at most as many as the single-use approvals the user gave |
| `ApprovalSafety.SessionApprovalIsForever` | pycodex/approval/policy.py:41-51 | a key approved for the session stays so in every continuation and nobody is asked about it again |
| `ApprovalOutcomes.OutcomeIsDecided` | pycodex/tools/orchestrator.py:200-266 | in every interleaving a caller ends as cancelled only if it was cancelled or its question failed, and as refused only on a denial or abort; otherwise its own answer decides between running and refusal, and without one it ran on a session-wide approval |
| `ApprovalOutcomes.ApprovedKeyRunsOnCache` | pycodex/tools/orchestrator.py:176-231 | a caller whose key is approved for the session before it has asked ends by running its tool, unless it is cancelled |
| `ApprovalOutcomes.AnswersAreReplies` | pycodex/tools/orchestrator.py:233-256 | what callers are recorded to have been answered is what the user replied to them, in order |
| `ApprovalOutcomes.SessionReplyIsRemembered` | pycodex/tools/orchestrator.py:233-256 | a session-wide approval the user replied is in the store once the asking caller is done, also when that caller was cancelled after the reply |
| `ApprovalProtocol.StepKeeps` | pycodex/tools/orchestrator.py:198-266 | every atomic step of any coroutine keeps the invariant behind this |
| `ApprovalProgress.StepDecreases` | pycodex/tools/orchestrator.py:200-266 | every step of a caller decreases one measure, although a refusal sends all waiters round the loop again |
| `ApprovalProgress.NobodyIsStranded` | pycodex/tools/orchestrator.py:229-247 | while a caller is unfinished, some caller can move |
| `ApprovalProgress.EveryCallerFinishes` | pycodex/tools/orchestrator.py:200-266 | N callers take at most N(4N + 15) steps and ask at most N times, each at most once, and a run that can go no further has finished them all |
| `ApprovalGate.ExecuteWithApproval` | pycodex/tools/orchestrator.py:63-162 | on any store, verdict, executions, questions and new store are those of the gate's specification, up to the end of the call or to where it waits for another caller's prompt |
| `ApprovalGate.ExecuteWithStandardApproval` | pycodex/tools/orchestrator.py:165-266 | the same for the standard path: the cache, the policies that never ask, a prompt already pending, a prompt of its own |
| `ApprovalGate.ExecutePlainlyOrSandboxed` | pycodex/tools/orchestrator.py:300-318 | sandboxed execution with denials turned into errors; with the sandbox unavailable nothing is executed |
| `ApprovalGate.ApprovedIffAnswered` | pycodex/approval/policy.py:41-51 | over any sequence of calls a key is approved exactly if it was before or some call's user answered so for it |
| `ApprovalVerdicts.AttemptIsExecuted` | pycodex/tools/orchestrator.py:300-347 | an attempt returns the sandboxed result unchanged on exit code 0 or none, reports any other exit code and the three sandbox error codes as blocked, and runs nothing if the sandbox is missing |
| `ApprovalVerdicts.VerdictTable` | pycodex/tools/orchestrator.py:63-266 | verdict, events and stored decisions of every call, for mutating and other calls and each combination of key, rule, policy, sandbox, cached approval and answer |
| `ApprovalVerdicts.SandboxedSuccessIsReturned` | pycodex/tools/orchestrator.py:126-148 | a success in the sandbox is never questioned and never repeated outside |
| `ApprovalVerdicts.OnFailureAsksIff` | pycodex/tools/orchestrator.py:126-148 | in on-failure mode under a restrictive sandbox a question is asked exactly after a denial by the sandbox or without one |
| `ApprovalVerdicts.PromptLeavesNothingPending` | pycodex/tools/orchestrator.py:446-458 | a settled prompt leaves the pending map as it found it and the cache with a session-wide approval at most |
| `ApprovalGate.ForbiddenRunsIffReadOnly` | pycodex/tools/orchestrator.py:79-94 | a command its rule forbids runs exactly when the call mutates nothing, and is never asked about, whatever was approved earlier |
| `ApprovalGate.RunsIffApproved` | pycodex/tools/orchestrator.py:79-196 | under every policy, exactly when a call runs anything: it mutates nothing, or has a key and no forbidding rule and, its sandbox being available, an allowing rule, a policy that does not ask first, or an approval now or earlier for the session; with its sandbox missing only by the approved retry of the on-failure policy |
| `ApprovalGate.UnconfinedOnlyAfterDenialAndApproval` | pycodex/tools/orchestrator.py:126-148 | under a restrictive sandbox a sandbox-capable tool runs outside it exactly in on-failure mode after a sandboxed run that was denied or could not start and an explicit approval |
| `ApprovalGate.SessionApprovalAskedAgainIff` | pycodex/tools/orchestrator.py:126-148 | a call on a key approved for the session asks again exactly in on-failure mode after a sandbox denial |
| `Recorder.FileIsPrefixOfAccepted` | pycodex/core/rollout_recorder.py:101-193 | in every interleaving the file is the text of the accepted batches up to some point, in order; only a dead worker may have stopped inside a batch |
| `Recorder.ResolvedWaitIsDurable` | pycodex/core/rollout_recorder.py:114-160 | once a flush or shutdown wait is resolved, everything accepted before the call is durable and stays so |
| `RecorderProgress.EveryWaitIsResolvedOrQueued` | pycodex/core/rollout_recorder.py:168-206 | in every run, unless the worker died, every wait is resolved or stands in the queue exactly once, and none has failed |
| `RecorderProgress.ResolvedStays` | pycodex/core/rollout_recorder.py:168-206 | a resolved wait stays resolved |
| `RecorderProgress.WaitIsServed` | pycodex/core/rollout_recorder.py:168-193 | a wait with i requests ahead of it, none of them a shutdown, is resolved once the worker has served i + 1 |
| `RecorderProgress.CallsAreAccepted` | pycodex/core/rollout_recorder.py:101-160 | a healthy recorder that is not shut down accepts every batch and every wait |
| `RecorderProgress.FlushMakesDurable` | pycodex/core/rollout_recorder.py:101-193 | if the worker stays healthy and serves what is queued ahead, a flush, or the first shutdown, is resolved, and everything accepted before the call is then durable in the file, in order |
| `RecorderProgress.OpenFailureFailsEveryWait` | pycodex/core/rollout_recorder.py:168-206 | if the file cannot be opened, every wait made so far fails and stays so, and no later call waits |
| `Recorder.StepKeeps` | pycodex/core/rollout_recorder.py:101-205 | every step of producers, worker and failure handling keeps the order and barrier invariant |
| `Recorder.SilentReturnIsDurableIffNothingQueued` | pycodex/core/rollout_recorder.py:114-118 | when a recorder closed by `shutdown`, not by a failed worker, returns at once, all accepted batches are durable exactly when none is queued behind the shutdown request |
| `Recorder.RecordDuringShutdownIsLost` | pycodex/core/rollout_recorder.py:136-160 | a batch recorded while shutdown waits is accepted, never written, and the next flush is silent |
| `Recorder.WaitInHandIsNeverSettled` | pycodex/core/rollout_recorder.py:168-205 | on a failure every queued wait fails; the wait being served stays unsettled in every continuation |
| `Recorder.RolloutRecorder.RecordItems` | pycodex/core/rollout_recorder.py:101-112 | an open recorder queues the batch and starts its worker; a closed one raises and an empty batch changes nothing |
| `Recorder.RolloutRecorder.Enqueue` | pycodex/core/rollout_recorder.py:114-148 | flush and shutdown queue a wait, or return at once on a closed recorder |
| `Recorder.RolloutRecorder.WriteItems` | pycodex/core/rollout_recorder.py:207-211 | the file grows by each record and a newline |
| `Recorder.RolloutRecorder.Serve` | pycodex/core/rollout_recorder.py:168-191 | one request is taken and served: written, flushed and resolved, or flushed, resolved and stopped |
| `Recorder.RolloutRecorder.FailPendingWaiters` | pycodex/core/rollout_recorder.py:192-205 | the handler closes the recorder, keeps the error and fails every wait still queued |
| `JsonText.PassesValue` | pycodex/core/rollout_recorder.py:261-272 | reading the text of any JSON value brings the nesting depth back to where it was and not before its end |
| `JsonText.NoObjectInsideAnother` | pycodex/core/rollout_recorder.py:261-272 | no proper prefix of an object's text is an object's text |
| `LedgerFile.LastNewlineBoundary` | pycodex/core/rollout_recorder.py:246-258 | for every file and chunk size the scan returns one past the last newline, 0 if there is none |
| `LedgerFile.ScanLastLine` | pycodex/core/session_store.py:71-107 | for every file and chunk size the scan selects the last line after dropping trailing CR and LF bytes, if no CR stands in that line; with single-byte chunks only then |
| `LedgerFile.CrBeforeLfIsFine` | pycodex/core/session_store.py:71-107 | no CR stands in the last line of a file where every CR comes before an LF |
| `LedgerFile.StoredFile.GuardNewlineBoundary` | pycodex/core/rollout_recorder.py:213-244 | an unterminated complete object gets its newline, any other unterminated tail is cut off, other files stay |
| `LedgerFile.TornTailIsNoObject` | pycodex/core/rollout_recorder.py:261-272 | a record cut short is never taken for a complete one |
| `LedgerFile.CompleteIsLongest` | pycodex/core/rollout_recorder.py:213-244 | the number of records kept is the largest whose JSON lies before the cut |
| `LedgerFile.RepairKeepsCompleteRecords` | pycodex/core/rollout_recorder.py:213-244 | a ledger cut at any byte is repaired to the ledger of exactly the records whose JSON is complete |
| `LedgerFile.AppendAfterRepair` | pycodex/core/rollout_recorder.py:213-244 | records appended after a repair give the ledger of the kept and the new records |
| `LedgerFile.LastLineIsLastRecord` | pycodex/core/session_store.py:71-107 | on a ledger the selected line is the last record, with no CR in it |
| `CrashRecovery.FlushedRecordsSurviveCrash` | pycodex/core/rollout_recorder.py:101-272 | a crash at any moment of any run that loses any bytes not yet durable leaves, after repair, a ledger of the first records accepted, among them all accepted before a flush that returned |
| `TurnsView.CoalescingPreservesMeaning` | tui/src/hooks/useTurns.ts:504-612 | for every event sequence and flush schedule, user input and resets included, the state after a flush is that of reducing the raw events one by one, up to the user's text |
| `TurnsView.BufferingIsApplying` | tui/src/hooks/useTurns.ts:576-581 | buffering one more delta and applying the batch is applying the batch and then the delta |
| `TurnsView.DeltasCommute` | tui/src/hooks/useTurns.ts:208-243 | deltas of different turns commute, which is why per-turn buffering may reorder them |
| `TurnsView.ReduceErases` | tui/src/hooks/useTurns.ts:245-420 | no event's effect depends on the user's text of a turn |
| `TurnsView.PushPush` | tui/src/hooks/useLineBuffer.ts:27-46 | two pushes to a line buffer are one push of the concatenated text |
| `TurnsView.SplitIsJoinsInverse` | tui/src/hooks/useLineBuffer.ts:27-46 | splitting cuts at every newline and joining gives the text back |
| `TurnsMeaning.EventsTouchOneTurn` | tui/src/hooks/useTurns.ts:245-420 | every event but a thread start or hydration keeps the thread, the order of the turns and every turn it does not name; only the start of an unknown turn adds one, empty and active, at the end |
| `TurnsMeaning.EventsSetTheirFields` | tui/src/hooks/useTurns.ts:245-420 | which fields of a turn each kind of event may change, and what the context events set |
| `TurnsMeaning.TextIsDeltas` | tui/src/hooks/useTurns.ts:208-243 | while a turn runs it shows what it showed and then its deltas in order, between any events of other turns |
| `TurnsMeaning.TurnShowsItsDeltas` | tui/src/hooks/useTurns.ts:262-356 | a turn completed without a final text shows exactly its own deltas since its start, cut at the newlines |
| `TurnsMeaning.CompletedShows` | tui/src/hooks/useTurns.ts:324-356 | a completed turn shows its final text, or else the streamed one, with usage and no error; a pending compaction becomes idle and the pressure warning goes |
| `TurnsMeaning.FailedShows` | tui/src/hooks/useTurns.ts:357-389 | a failed turn keeps what was streamed and shows the error |
| `TurnsMeaning.ToolsAreAsReported` | tui/src/hooks/useTurns.ts:134-206 | in whatever order starts and results arrive, a tool is shown exactly if something was reported on it, as done if that was a result last, with the last content, name and arguments given |
| `TurnsMeaning.ThreadStartedShows` | tui/src/hooks/useTurns.ts:250-261 | another thread clears the turns, the same one or the first keeps them |
| `TurnsMeaning.HydratedShows` | tui/src/hooks/useTurns.ts:110-132 | hydration shows the stored turns as completed with their texts; that of another thread is ignored |
| `TurnsMeaning.QueuedTextReachesTurn` | tui/src/hooks/useTurns.ts:582-606 | text the user queued is given to the turn that starts next, and the slot is then empty |
| `TurnsMeaning.SlotHoldsFirstWaiting` | tui/src/hooks/useTurns.ts:457-490 | after any sequence of ticks the slot is empty exactly if no typed text still waits for a turn, and holds the first that does otherwise |
| `TurnsView.TurnsHook.FlushPendingItemUpdates` | tui/src/hooks/useTurns.ts:504-525 | dropping the empty deltas does not change what the batch does |
| `TurnsView.TurnsHook.ProcessEvents` | tui/src/hooks/useTurns.ts:572-607 | the effect's loop takes exactly one arrival step per event |
| `TurnsView.TurnsHook.ProcessEmptied` | tui/src/hooks/useTurns.ts:555-570 | an emptied event list drops buffer and queued input and resets the state if anything was processed |
| `TurnsView.TurnsHook.QueueUserInput` | tui/src/hooks/useTurns.ts:457-474 | the slot takes one text and refuses a second |
| `SkillYaml.ParseBlock` | pycodex/core/skills/parser.py:212-230 | a parsed block ends past its start and within the text |
| `SkillYaml.ParseMapping` | pycodex/core/skills/parser.py:233-283 | a parsed mapping never ends before its start and ends past it when its first line is at its depth |
| `SkillYaml.ParseSequence` | pycodex/core/skills/parser.py:286-369 | a parsed sequence never ends before its start and ends past it when a dash line at its depth comes first |
| `SkillYaml.ConsumeTail` | pycodex/core/skills/parser.py:372-417 | the further keys of an item never end before their start nor behind the text |
| `SkillYaml.ParseBlockFrom` | pycodex/core/skills/parser.py:212-230 | the mutually recursive procedures terminate and compute the functional parser |
| `SkillYaml.ParseMappingFrom` | pycodex/core/skills/parser.py:233-283 | the loop over the index with a dictionary updated in place computes the functional parser, errors and line numbers included |
| `SkillYaml.ParseSequenceFrom` | pycodex/core/skills/parser.py:286-369 | the same for sequences, scalar and mapping items |
| `SkillYaml.ConsumeTailFrom` | pycodex/core/skills/parser.py:372-417 | the same for the further keys of an item |
| `SkillYaml.ItemTextIsNeverEmpty` | pycodex/core/skills/parser.py:307-327 | the branch for an item without text cannot be taken |
| `SkillScalars.ScalarTable` | pycodex/core/skills/parser.py:434-457 | which texts are read as true, false, null, integers, floats, quoted and plain strings, in any letter case of the words |
| `SkillScalars.IntegersRead` | pycodex/core/skills/parser.py:451-452 | an integer is read digit by digit in base ten, the sign first |
| `SkillScalars.FloatsAre` | pycodex/core/skills/parser.py:15-16 | a float is digits around one dot, at least one of them, behind an optional minus |
| `SkillYamlFaults.FaultsAreShown` | pycodex/core/skills/parser.py:199-431 | a parse that succeeds has read all its lines, none with content having a tab; one that fails names a line with content that shows the fault: a tab, a dash where a key must stand, no colon, or nothing before it |
| `SkillYamlText.ScalarReads` | pycodex/core/skills/parser.py:434-457 | a written scalar parses back to itself and is never taken for a mapping entry |
| `SkillYamlRoundTrip.MapReads` | pycodex/core/skills/parser.py:233-283 | wherever the lines of a map stand, the mapping loop consumes exactly them and adds exactly what its entries are absorbed into |
| `SkillYamlRoundTrip.SeqReads` | pycodex/core/skills/parser.py:286-369 | wherever the lines of a sequence stand, the sequence loop reads exactly what its items are absorbed into |
| `SkillYamlRoundTrip.TailReads` | pycodex/core/skills/parser.py:372-417 | the lines of an item's further entries are read into it, an entry written twice keeping its place |
| `SkillYamlRoundTrip.AbsorbingItemReads` | pycodex/core/skills/parser.py:329-366 | an item with a map as its first value reads as one key over that map and all further entries |
| `SkillYamlRange.TextReads` | pycodex/core/skills/parser.py:199-209 | the two-space text of every document, each key written once, parses to the document with each item's first map taking in the keys behind it, at every depth |
| `SkillYamlRange.TextReadsBackIff` | pycodex/core/skills/parser.py:199-209 | that text parses back to the document exactly when no item anywhere has a map as first value and further keys |
| `SkillYamlRange.RoundTrip` | pycodex/core/skills/parser.py:199-209 | every supported document is the parse of its text when such first keys are written with `null` and then again |
| `SkillYamlRange.ParsesIffSupported` | pycodex/core/skills/parser.py:199-475 | a value is the parse of some text exactly when it is a supported document, an item's first key being of ASCII letters, digits, `_`, `-` and `.` |
| `SkillYamlRange.DeeperMapIsRefused` | pycodex/core/skills/parser.py:334-352 | a map indented below an item's first key by the usual YAML depth is an indentation error |
| `SkillMentions.FencedCodeRanges` | pycodex/core/skills/resolver.py:92-108 | the ranges are fences in order that cover every fence marker |
| `SkillMentions.InlineCodeRanges` | pycodex/core/skills/resolver.py:111-125 | the ranges are inline spans in order that cover every backtick outside the fences with another one behind it |
| `SkillMentions.MergeRanges` | pycodex/core/skills/resolver.py:143-154 | sorted, disjoint, non-touching ranges over exactly the same positions |
| `SkillMentions.MaskedCodeRanges` | pycodex/core/skills/resolver.py:85-89 | a position is masked exactly when it lies in a fence or an inline span |
| `SkillMentions.OverlapIsSharedPosition` | pycodex/core/skills/resolver.py:135-136 | the overlap test holds exactly when the mention and a range share a position |
| `SkillMentions.CodeRangesAreUnique` | pycodex/core/skills/resolver.py:92-125 | a text has only one list of fences and one of inline spans as described, so that being code is one relation |
| `SkillMentions.ExtractSkillMentions` | pycodex/core/skills/resolver.py:40-55 | exactly the names with an occurrence none of whose characters is code, once each, in order of their first such occurrence |
| `ListDir.CollectWindowAndCount` | pycodex/tools/list_dir.py:192-230 | window, total and cap flag are those of the sorted depth-limited preorder listing, or the walk fails when an enumerated entry cannot be read |
| `ListDir.Collector.Walk` | pycodex/tools/list_dir.py:204-227 | the recursion with shared counters visits the listing in order |
| `ListDir.WindowIsSlice` | pycodex/tools/list_dir.py:192-230 | the window is the wanted slice of the listing cut at the cap, the total counts the cut listing, and the flag is set exactly when the listing is longer than the cap |
| `ListDir.PagesTile` | pycodex/tools/list_dir.py:192-230 | consecutive pages put together are the listing cut at the cap |
| `ListDir.ChildrenAreSorted` | pycodex/tools/list_dir.py:208-213 | siblings come in name order, none added or dropped |
| `ListDirDepth.ListedIffWithinDepth` | pycodex/tools/list_dir.py:204-227 | listed are exactly the entries at most `depth` steps down, links and unreadable directories included but not entered, each indented by its steps; only an unreadable directory that would have to be entered fails |
| `ListDirDepth.LineLooksLike` | pycodex/tools/list_dir.py:213-244 | a line is two spaces for each step down and the name with `@` for a link or `/` for a directory, cut behind 500 characters with a note |
| `ListDir.ResponseMeans` | pycodex/tools/list_dir.py:71-142 | each response says what it says about the whole listing exactly when it holds, except that at the cap nothing is said about what was cut off |
| `TruncateUtf8.Truncate` | pycodex/core/project_doc.py:69-97 | the whole text if it fits, otherwise its longest fitting whole-character prefix and the marker when there is room, never more than the budget |
| `TruncateUtf8.DecodeShortened` | pycodex/core/project_doc.py:76-95 | the retry loop drops at most three bytes and finds that prefix |
| `TruncateUtf8.OnlyPrefixDecodes` | pycodex/core/project_doc.py:69-97 | between the longest fitting prefix and the budget no cut decodes |
| `TruncateUtf8.FitIsLongest` | pycodex/core/project_doc.py:69-97 | the prefix fits, no longer one does, and at most three bytes are unused |
| `TruncateUtf8.DecodeEncode` | pycodex/core/project_doc.py:69-97 | decoding inverts encoding |
| `TruncateUtf8.EncodeDecode` | pycodex/core/project_doc.py:69-97 | whatever decodes is the encoding of what it decodes to |
| `TruncateUtf8.EncodingTable` | pycodex/core/project_doc.py:69-97 | the encoding has the length, leading byte, continuation bytes and payload bits of the table in section 3 of RFC 3629 |

## Left out

- Model streaming, transport, retries, the text of summaries, token estimates and tool execution are
  arbitrary inputs; cancellation strikes at real suspension points only.
- Sessions without a recorder, and turns on a closed session.
- Record metadata (ids, schema versions, timestamps) and the encoding of records. Replay works on lines
  already read as records, unknown items or unreadable text; a line's text is assumed to hold no
  `str.splitlines` boundary other than its newline.
- `json.loads` in the repair is a parameter, assumed to accept every record and only texts that hold one
  object's text.
- The compaction threshold ratio is a real number; rounding of floats is not modelled.
- Initial context items are assumed not to pose as compaction summaries.
- Recorder timeouts, and waits that outlive their event loop.
- `on_event` callbacks that raise something other than a cancellation.
- Files that cannot be opened or are missing, and file times in the session list.
- Normalisation of approval keys, previews and skill-script context; canonical commands and sandbox
  command lines are inputs of the gate.
- ApprovalGate.ExecuteWithStandardApproval: ends where the caller would sleep on another caller's prompt;
  waking and the retry loop are in `ApprovalProtocol`.
- ApprovalProgress.EveryCallerFinishes: assumes that every prompt returns or fails and that the lock is
  granted to some waiting coroutine.
- LedgerFile.ScanLastLine: does not say which line larger chunks select when a CR stands in the last line;
  the ledger writes no such byte (`LedgerFile.LastLineIsLastRecord`).
- Recorder.SilentReturnIsDurableIffNothingQueued: a recorder closed by a failed worker also returns at
  once; what is lost then is what `Recorder.FileIsPrefixOfAccepted` leaves open.
- Recorder.WaitInHandIsNeverSettled: the caller's own timeout, which ends its wait, is left out.
- SkillYaml.ParseSequenceFrom: reads item keys with letters outside ASCII as scalars, where the source's
  `str.isalnum` takes them for keys.
- SkillYamlRange.ParsesIffSupported: its range of first keys is ASCII for the same reason.
- SkillYaml: floats keep the digits they were written with instead of a binary value, integers have no
  digit limit, and `isalnum` and `lower` are restricted to ASCII letters and digits.
- SkillMentions: names are restricted to ASCII letters and digits in the same way; looking names up in
  the registry is left out.
- Front-matter delimiters, required fields and dependency declarations of a skill file.
- Argument validation and path resolution of the directory tool, and directories that change during a walk.
- TruncateUtf8.Truncate: takes a budget of at least zero; the only caller returns before a smaller one
  (pycodex/core/project_doc.py:32-33).
- `sliceUnprocessedEvents`: the hook is given the events that are new.
- React rendering, the session picker, the protocol adapter, command line and configuration.
