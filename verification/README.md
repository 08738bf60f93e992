# Verified model of the agent runtime's stateful core

This project models the parts of the runtime that keep state over many interleaved steps, or transform data
in ways that must lose nothing, and proves what they promise on every run and every input:

- **Session turn queue** (`TurnQueue`, `TurnQueueSafety`, `TurnQueueOverlap`, `TurnQueueCap`, `TurnQueueBurst`,
  `TurnQueueOutcomes`, `QueueBackend`, `SessionQueues`): admissions and drain loops as a protocol whose atomic
  steps are the code between two awaits, resumed first in, first out. `TurnQueue` is the machine of one key; the
  class `SessionQueue` works on the shared maps and lists, and each of its methods is proved to be a step of the
  machine of one key that leaves all other keys alone.
- **Scheduler** (`AutonomyBudgets`, `CronJobs`, `CronHistory`, `CronOneShot`, `CronDue`, `CronServices`,
  `Workflows`, `WorkflowRuntimes`): a double sliding window, overlapping cron ticks suspended at their job, and
  workflow runs that are denied, fail or lose the process at any await.
- **Capabilities and approvals** (`Capabilities`, `Approvals`, `ApprovalGate`, `ApprovalScopes`): grants minted by
  approvals, spent by the gate and lost by expiry, as accounts that balance, and what the scopes tell apart.
- **Text machinery** (`Json`, `JsonGrammar`, `JsonReading`, `JsonAccepting`, `JsonText`, `JsonExtent`,
  `BraceBlocks`, `JsonWedge`, `TextLines`, `SseLines`, `ToolCallStream`, `ToolCalls`, `ToolCallArguments`,
  `ContextTrim`, `FindingOverlaps`, `PrivacyScrubbers`, `Trimming`): a JSON parser that accepts exactly the
  grammar of RFC 8259, printing, scanning, splitting, assembling streamed tool calls, trimming prompts,
  collapsing findings and splicing placeholders.
- **Memory log** (`MemoryLines`, `MemoryLog`, `MemoryPolicies`, `MemoryAppends`, `MemoryStores`): the memory file
  as a text, under appends, rolling trims and compactions with an archive.
- **Index and events** (`Chunking`, `ContextIndexes`, `LifecycleStreams`): the chunk index beside a full
  rebuild, and the event stream between pushes and consumers.

`Options` and `Sequences` hold shared definitions. Classes follow the source's objects: their methods update
fields, and their contracts equate the new state with a function of the old one; the properties are proved of
these functions. Where a function decides something, which job is due, which scope pays, what is white space, a
lemma says exactly what it decides in terms of the plain data.

## Conventions

- A Dafny character stands for one code unit of a JavaScript string. Dafny's characters are Unicode scalar
  values, so strings with code units in the surrogate range, astral characters among them, are not covered by
  the results on texts. Inside JSON values a string is a list of code units of any kind.
- Clock readings, fresh ids, answers of an approver, outcomes of a job, a step or a turn, and detected spans
  are parameters or events, so the proofs hold for all of them. Where one call reads the clock several times,
  every reading is a parameter of its own.
- A file is its content, written atomically; the cron library is a function from a time to the next one, or
  to a failure.
- Maps keep their insertion order only where the source's result depends on it.

## Findings

Where the code does not keep what its design suggests, a lemma gives the input and another the exact condition:

- Two overlapping first submissions of a key build two state objects, and the key can then run two turns at
  once; the exact guard is `TurnQueueSafety.SafeSubmission` (`TurnQueueOverlap.SafeSubmissionIsExact`).
- Turns submitted together all read the same depth, so a burst can exceed any hard cap
  (`TurnQueueCap.BurstExceedsAnyCap`). Onto a registered key at rest the cap holds in all that follows if and
  only if the turns fit beside its load, or the key was at its cap (`TurnQueueBurst.BurstIsExact`); one
  submission more, if and only if `TurnQueueBurst.RoomForOne` held (`TurnQueueBurst.RoomIsExact`).
- Consuming several capabilities reads a new clock in between, so a grant checked can expire before it pays
  (`Capabilities.LaterClockSkipsPayment`); when exactly, says `Capabilities.PaysExactlyIfItOutlives`.
- The budget forgets what a later reading of the clock pruned, so a clock that goes back can double an hour's
  limit (`AutonomyBudgets.BackwardClockBreaksBound`). The pruned lists answer as the full history would if and
  only if nothing lost lies in the windows of the call (`AutonomyBudgets.AnswersAreExact`); for the first call
  that goes back this is a count over two spans of time (`AutonomyBudgets.BackwardCallIsExact`).
- A finished `at` job is armed again by a check that is not after its time, from an overlapping tick or one in
  the same millisecond (`CronOneShot.EqualTicksRunTwice`); the exact guard is in `CronOneShot.VisitKeepsOneShot`.
- A job that has used up its retries and cannot be rescheduled keeps counting (`CronHistory.StuckJobOverruns`);
  the exact guard is in `CronHistory.RetriesStayBounded`.
- Arguments of which a prefix parses but the whole does not, such as `[1]x`, are emitted differently for
  different fragments (`ToolCalls.UnstableTextDiffers`); `ToolCalls.StableIsExact` gives the exact condition.
- A tool whose name begins with `untrusted:` shares the approval scope of an untrusted call of the tool behind the
  prefix (`ApprovalScopes.PrefixedToolCollides`); all other calls are told apart (`ApprovalScopes.ScopesAreExact`).
- A negative overlap loses text between chunks (`Chunking.ChunksRebuild`).
- The chunks of a removed file stay in the index, so an incremental refresh equals a rebuild only if such files
  were empty (`ContextIndexes.RefreshIsRebuildUnlessFilesLeft`).
- A record appended to a memory file whose last line is not blank is lost, and so is a record that stood there
  (`MemoryAppends.UnterminatedFileLosesBoth`, `MemoryAppends.AppendArrivesExactly`).
- A consumer of the event stream joins when it first asks, so what is pushed between `subscribe` and then does
  not reach it (`LifecycleStreams.EarlyEventIsLost`, `LifecycleStreams.EarlyEventsAreLostExactly`).

## Model

| member | source | states |
|---|---|---|
| TurnQueue.StepConserves | src/runtime.ts:513-573 | every step keeps the account of every turn: submissions equal admissions in progress, pending, taken, executing and settled ones, and what started equals what runs or has settled |
| TurnQueue.StepKeepsOrder | src/runtime.ts:546-573 | started, taken and pending items stay in increasing order of the ids the backend issued |
| TurnQueueSafety.StepKeepsLoops | src/runtime.ts:553-573 | a state object that is running has exactly one drain loop, any other none |
| TurnQueueSafety.StepKeepsAwake | src/runtime.ts:524-573 | no lost wake-up: something pending always has a live continuation or execution that will reach it |
| TurnQueueSafety.RunKeepsSound | src/runtime.ts:524-573 | all of these hold in every state that any interleaving reaches |
| TurnQueueSafety.QuiescentIsDone | src/runtime.ts:553-573 | when nothing is runnable or executing, nothing is pending and every submission was settled exactly as often as it was made |
| TurnQueueSafety.SettlesAtMostOnce | src/runtime.ts:530-571 | a turn submitted once settles at most once, and one that was dropped or refused never started |
| TurnQueueSafety.StartsInPushOrder | src/runtime.ts:553-571 | turns start in the order the backend issued their ids, before all that is still pending |
| TurnQueueSafety.DropsTheOldest | src/runtime.ts:538-544 | drop-oldest takes the pending turn with the smallest id and leaves the others in place |
| TurnQueueSafety.SingleDrainLoop | src/runtime.ts:524-573 | over any run of safe submissions a key has at most one drain loop and executes at most one turn at a time |
| TurnQueueOverlap.UnsafeSubmissionSplits | src/runtime.ts:525-548 | from any state safe runs reach, an unsafe submission leads to two drain loops |
| TurnQueueOverlap.SafeSubmissionIsExact | src/runtime.ts:525-548 | a submission keeps the key on a single loop in all later safe runs if and only if it is safe |
| TurnQueueCap.SerialLoadIsCapped | src/runtime.ts:526-546 | with admissions one at a time, pending plus running never exceeds the hard limit |
| TurnQueueCap.BurstExceedsAnyCap | src/runtime.ts:526-546 | turns submitted together onto an idle key all become pending, whatever the cap |
| TurnQueueBurst.CapIsExact | src/runtime.ts:526-571 | with submissions in flight that all read the same pending count, the load stays within the hard limit in every later run without submissions if and only if it fits now |
| TurnQueueBurst.RoomIsExact | src/runtime.ts:526-571 | so after one more such submission, if and only if there was room for it beside those in flight or the key was at its limit |
| TurnQueueBurst.BurstIsExact | src/runtime.ts:513-571 | turns submitted together to a registered key at rest keep the limit from then on if and only if they fit beside its load or it was at its limit; for an idle key, if and only if they are no more than the limit |
| TurnQueueOutcomes.RunTells | src/runtime.ts:563-571 | over every run, with the microtasks still to come, the resolved turns are those whose executions ended in success, and the rejected ones those whose executions failed, as often and in that order |
| TurnQueueOutcomes.QuiescentTellsAll | src/runtime.ts:553-573 | so at quiescence a started turn is resolved if and only if its execution succeeded, and rejected if and only if it failed |
| TurnQueueOutcomes.NoneRefusedBelowLimit | src/runtime.ts:526-546 | while fewer turns than the hard limit have been submitted none is refused or dropped |
| TurnQueueOutcomes.MeetsLimit | src/runtime.ts:530-544 | at the limit a turn is refused and nothing else happens, or the oldest pending turn is taken out for it |
| TurnQueueOutcomes.NothingToDrop | src/runtime.ts:538-546 | with no pending turn to drop, the new one is refused beside a running turn and else becomes pending |
| QueueBackend.InMemoryQueueBackend.Enqueue | src/queue/in-memory-backend.ts:12-18 | appends to its key's list with a new largest id and leaves all other lists alone |
| QueueBackend.InMemoryQueueBackend.Dequeue | src/queue/in-memory-backend.ts:20-30 | takes the first item of its key's list, or nothing; other lists stay |
| QueueBackend.InMemoryQueueBackend.ListPending | src/queue/in-memory-backend.ts:32-35 | the ids of its key's list, in order |
| SessionQueues.SessionQueue.Enqueue | src/runtime.ts:513-522 | one submission step of its key's machine; other keys are unchanged |
| SessionQueues.SessionQueue.EnqueueAsync | src/runtime.ts:524-526 | uses the registered state object or a new one, and lists the pending items |
| SessionQueues.SessionQueue.RunMicrotask | src/runtime.ts:524-573 | the oldest continuation makes one step of its own key's machine, and keys stay unsplit under safe steps |
| SessionQueues.SessionQueue.ContinueListed | src/runtime.ts:526-546 | warns at the soft limit; below the hard limit pushes, at it refuses or takes out the oldest |
| SessionQueues.SessionQueue.ContinueDropped | src/runtime.ts:538-546 | rejects the dropped turn and pushes, or refuses the new one when only a running turn is left |
| SessionQueues.SessionQueue.Drain | src/runtime.ts:547-560 | registers the state object and starts a loop unless one runs |
| SessionQueues.SessionQueue.ContinueLoop | src/runtime.ts:558-572 | starts the turn that was taken, or ends the loop |
| SessionQueues.SessionQueue.FinishTurn | src/runtime.ts:563-571 | a settled execution is one finishing step of its key's machine |
| SessionQueues.SessionQueue.UnsplitKeysAreSerial | src/runtime.ts:553-573 | while keys are unsplit none has two loops or two turns executing |
| AutonomyBudgets.AutonomyBudget.Allow | src/scheduler.ts:30-59 | answers and updates its channel as the two windows and quiet hours say; other channels are unchanged |
| AutonomyBudgets.AutonomyBudget.ExportState | src/scheduler.ts:61-66 | importing what it exports gives every channel the lists it has |
| AutonomyBudgets.AutonomyBudget.ImportState | src/scheduler.ts:68-92 | every channel gets the finite numbers of its saved lists and nothing else, whatever was there before; lists that are none, or a missing state, give nothing |
| AutonomyBudgets.RunIsAccounted | src/scheduler.ts:30-92 | with any clock, and through exports and imports, what a channel keeps and what pruning took from it make up its history, for every window |
| AutonomyBudgets.AnswersAreExact | src/scheduler.ts:33-53 | with any clock, the next answer is the one of the unpruned history under all limits if and only if nothing that was pruned lies in its windows |
| AutonomyBudgets.BackwardCallIsExact | src/scheduler.ts:33-53 | for the first call that goes back, this is so if and only if nothing was accepted between the start of its window and the start of the window of the call before, for the hour and the day |
| AutonomyBudgets.WindowsAreBounded | src/scheduler.ts:30-59 | while accepting calls find nothing lost, whatever the clock: no closed hour or day holds more accepted events than allowed, and none is in quiet hours |
| AutonomyBudgets.SteadyClockSuffices | src/scheduler.ts:33-53 | with a clock that never goes back nothing is ever lost, and every answer is the one of the unpruned history |
| AutonomyBudgets.SteadyAnswerIsExact | src/scheduler.ts:30-59 | with such a clock a call is accepted if and only if its hour is not quiet and the closed hour and day ending now hold fewer acceptances than allowed, counted in milliseconds |
| AutonomyBudgets.QuietHoursAreExact | src/scheduler.ts:38-47 | the hours refused are those reached counting from the first hour up to the last, which is left out, on through midnight when the last is the smaller number |
| AutonomyBudgets.BackwardClockBreaksBound | src/scheduler.ts:30-59 | calls at 10:00, at 12:00 in quiet hours and at 10:00 again: the last finds an acceptance lost, and the hour holds twice its limit |
| CronJobs.StepKeepsSound | src/scheduler.ts:219-252 | any step of any tick keeps activeRuns equal to the suspended ticks and to the jobs marked running, within the limit, with one tick per running job, also when the job or its rescheduling throws |
| CronJobs.AnyRunIsSound | src/scheduler.ts:204-252 | so in every state that overlapping ticks reach |
| CronHistory.RunKeepsHistory | src/scheduler.ts:219-302 | in every reachable state the retry counter is the number read off the job's history, and every execution but the first waited for its floor |
| CronHistory.RetriesStayBounded | src/scheduler.ts:233-247 | retries stay within their limit if and only if the job had some left or can be rescheduled; otherwise the tick ends with the exception |
| CronHistory.BackoffDoubles | src/scheduler.ts:238-246 | the k-th consecutive retry starts at least backoffMs * (2^k - 1) after the first failure of its streak |
| CronHistory.ReschedulingHolds | src/scheduler.ts:233-243 | after a success or an exhausted streak a job waits for the time it was rescheduled to, an `every` job for its period |
| CronHistory.StuckJobOverruns | src/scheduler.ts:239-247 | in a run from an empty service, a job whose schedule comes to its end fails maxRetries + 1 times and ends with its counter beyond the limit |
| CronOneShot.CheckOfFinishedJob | src/scheduler.ts:271-286 | a check arms a finished `at` job if and only if it is not after its time, and starts it if and only if it is at its time |
| CronOneShot.VisitKeepsOneShot | src/scheduler.ts:271-280 | a check keeps a job one-shot if and only if it is not such a late check |
| CronOneShot.StepKeepsOneShot | src/scheduler.ts:219-280 | with any overlap of ticks, `at` jobs stay one-shot as long as no scan meets a finished job whose time is still to come |
| CronOneShot.SerialTicksRunOnce | src/scheduler.ts:219-286 | with ticks one after the other at strictly increasing times every `at` job stays one-shot |
| CronOneShot.OneShotMeans | src/scheduler.ts:232-247 | a one-shot job succeeds at most once, as its last execution, and has at most maxRetries + 1 executions, a running one included |
| CronOneShot.EqualTicksRunTwice | src/scheduler.ts:219-286 | in a run from an empty service, two ticks in the same millisecond, one after the other, run a one-shot job twice |
| CronDue.TickStartsFirstDue | src/scheduler.ts:219-233 | in every reachable state a tick with room starts the first idle job whose next run is not after now and no other, so one that starts none leaves no job due |
| CronDue.SettledTickGoesOn | src/scheduler.ts:219-251 | a tick whose job has settled without a throw starts the first due job behind it, or ends |
| CronDue.JobsWaitExactly | src/scheduler.ts:233-269 | in every reachable state an idle job that has run waits exactly its backoff while it has retries left, and else exactly for the time its schedule gives from its last execution |
| CronDue.NewJobWaits | src/scheduler.ts:204-213 | a new job waits for its own time, for one period, or for the next time of its expression |
| CronDue.DelaysDouble | src/scheduler.ts:246 | the first delay is the configured one, each further one twice the one before |
| CronServices.CronService.AddJob | src/scheduler.ts:204-213 | one adding step of the machine, refused when the schedule is |
| CronServices.CronService.Tick | src/scheduler.ts:219-233 | the scan from the first job up to the first it can start is one step of the machine |
| CronServices.CronService.FinishRun | src/scheduler.ts:233-251 | settling a job, with catch and finally, and going on with its tick's scan is one step of the machine |
| CronServices.CronStateRecord.IsDue | src/scheduler.ts:271-280 | arms a job without a next run, tells whether it is due, or throws |
| CronServices.CronStateRecord.AfterRun | src/scheduler.ts:233-250 | the record after a success or failure, and whether rescheduling threw |
| Workflows.RunKeepsSound | src/scheduler.ts:321-382 | over any runs with any steps, denials, failures and crashes: every execution was persisted, lost or is waiting to be; the file is a prefix of the list in use; approvals come right before the runs that need them; persisted steps are not run again |
| Workflows.ExecutionsAreBounded | src/scheduler.ts:332-347 | each step is executed at most once more than it was lost between its run and its persist |
| Workflows.CompletedIsPrefix | src/scheduler.ts:332-345 | with the same step ids in every run, the completed list is a prefix of the ids in order of first appearance, of the list itself when they are distinct |
| Workflows.StopsTheRun | src/scheduler.ts:336-347 | a denial, a failed step, a failed write and a crash end the run and leave the file as it was, and all but the crash leave the list in memory as it was |
| Workflows.GoesOnToNext | src/scheduler.ts:332-349 | after a persist the run stands at the first later step that is not completed, before its approval if it needs one; if there is none it has ended with its list in memory |
| WorkflowRuntimes.WorkflowRuntime.Begin | src/scheduler.ts:321-335 | a run starts from the list kept in memory, shared with it, or a copy of the file's; other keys are unchanged |
| WorkflowRuntimes.WorkflowRuntime.RunStep | src/scheduler.ts:342-343 | a step that ran is pushed on the run's list, and on the one in memory when they are the same object |
| WorkflowRuntimes.WorkflowRuntime.Persist | src/scheduler.ts:344-354 | writes the whole list and goes on, or fails and ends the run |
| WorkflowRuntimes.WorkflowRuntime.AdvanceRun | src/scheduler.ts:332-347 | the loop skips completed steps up to the next await; at the end the list is kept in memory |
| Capabilities.SpendKeepsBalance | src/security/capabilities.ts:142-156 | spending keeps uses issued equal to uses spent, left and lapsed, per scope |
| Capabilities.PruneKeepsBalance | src/security/capabilities.ts:158-163 | so does pruning expired grants |
| Capabilities.SpendTakesOneUse | src/security/capabilities.ts:142-156 | spending takes exactly one use of the scope if there is one, and none of another scope |
| Capabilities.ConsumptionKeepsBalance | src/security/capabilities.ts:79-156 | so does a whole consumption, with any clock readings in between |
| Capabilities.PaysExactlyIfItOutlives | src/security/capabilities.ts:123-156 | a checked capability pays if and only if some grant of the scope is unexpired at every reading before its turn |
| Capabilities.FrozenClockPaysAll | src/security/capabilities.ts:123-140 | with the clock frozen every required capability that was usable pays one use |
| Capabilities.LaterClockSkipsPayment | src/security/capabilities.ts:123-156 | with a later reading one can be checked and not pay |
| Capabilities.CapabilityStore.IssueGrant | src/security/capabilities.ts:96-116 | adds a grant with at least one use to one capability's account; other accounts only lose what expired |
| Capabilities.CapabilityStore.ConsumeRequired | src/security/capabilities.ts:123-140 | succeeds if and only if every required capability has a live grant of the scope; on failure no live grant changes |
| Capabilities.CapabilityStore.PruneExpired | src/security/capabilities.ts:158-163 | every account loses exactly its expired grants |
| Approvals.PendingIsUnique | src/security/approval-workflow.ts:110-144 | at most one request per fingerprint is pending |
| Approvals.ApproveKeeps | src/security/approval-workflow.ts:157-198 | approving a pending request keeps the index and the log of approvals, one per approved request, and changes no terminal status |
| Approvals.RefreshKeeps | src/security/approval-workflow.ts:200-217 | so does expiring stale requests |
| Approvals.ApprovalWorkflow.ExpireStaleRequests | src/security/approval-workflow.ts:200-217 | exactly the pending requests past their time become expired |
| Approvals.ApprovalWorkflow.RequestApproval | src/security/approval-workflow.ts:110-144 | returns the pending request of the fingerprint or adds one, and keeps terminal statuses |
| Approvals.ApprovalWorkflow.Resolve | src/security/approval-workflow.ts:157-198 | resolves pending requests only; an approval mints one grant per required capability, once |
| ApprovalGate.FirstPays | src/security/capabilities.ts:131-140 | the first required capability always pays |
| ApprovalGate.CapabilityApprovalGate.Approve | src/tools.ts:251-309 | passes what needs no grant, spends grants all or nothing, and otherwise asks for approval |
| ApprovalGate.CapabilityApprovalGate.PassesNeverExceedApprovals | src/tools.ts:287-308 | uses approved equal uses spent, left and lapsed, so grant-based passes never exceed the uses approved |
| ApprovalGate.CapabilityApprovalGate.ResolutionKeepsValid | src/security/approval-workflow.ts:157-198 | an operator's resolution keeps the gate's account of its passes right |
| ApprovalScopes.ScopesAreExact | src/tools.ts:287-290 | exactly when two calls share a scope: the same intent, and the same tool when both or neither are untrusted; otherwise the trusted tool is named like the untrusted one behind the prefix |
| ApprovalScopes.PrefixedToolCollides | src/security/approval-workflow.ts:253-256 | a trusted tool called `untrusted:exec` shares the scope of untrusted `exec` |
| ApprovalScopes.ApprovalsPayForTheirOwn | src/tools.ts:287-308 | in every valid state of the gate, for tools not named like that, grant-based passes of one tool, intent and trust are no more than the uses minted by approvals of just those calls |
| ApprovalScopes.FingerprintsTellApart | src/security/approval-workflow.ts:243-251 | for tools without a bar in their name, requests with one fingerprint agree in tool, intent, plan and provenance, whatever the plan contains |
| ApprovalScopes.RequestsExpireAfterADay | src/security/approval-workflow.ts:200-217 | pending requests older than 86 400 000 milliseconds expire, and nothing else changes |
| ApprovalScopes.NeedsAreExact | src/security/capabilities.ts:166-194 | for every capability, the calls that need it |
| ApprovalScopes.NeedsAreInOrder | src/security/capabilities.ts:166-194 | no call needs a capability twice, and calls that start processes pay for that first |
| ApprovalScopes.SortedHolds | src/security/approval-workflow.ts:243-251 | sorting loses and adds no capability, so a request asks for what its call needs |
| ApprovalScopes.StrictGateIsFreeForNothing | src/tools.ts:258-286 | without options exactly the calls that need nothing pass freely |
| ApprovalScopes.OptionsFreeTheirOwn | src/tools.ts:262-282 | which calls that need something each option frees |
| JsonExtent.FindJsonObjectExtent | src/runtime.ts:273-294 | returns the end of the shortest balanced slice, braces in strings and escapes ignored, or null if there is none |
| BraceBlocks.ExtentIsBlock | src/runtime.ts:273-294 | an extent is exactly a block of a grammar: braces around plain characters, strings whose backslashes take any next character, and blocks |
| JsonExtent.ExtentIsLocal | src/runtime.ts:276-293 | text after the end never changes the result, and no shorter prefix has one |
| JsonExtent.ScanFindsParsedObject | src/runtime.ts:273-294 | in front of a valid JSON object the scan finds its end |
| JsonExtent.ScanTakesWholeObject | src/runtime.ts:273-294 | for a complete object text followed by anything the slice is that text |
| Json.NoProperPrefixParses | src/providers/openai-compatible.ts:240-255 | no proper prefix of a JSON object or array text parses |
| JsonReading.TextParses | src/providers/openai-compatible.ts:229 | every text of the JSON grammar, with any spaces, tabs, line feeds and carriage returns between its tokens, parses to what its syntax tree means |
| JsonAccepting.ParseIsExact | src/providers/openai-compatible.ts:229-247 | and no other text does: a text parses to a value if and only if some syntax tree spells the text and means the value |
| ToolCallStream.CollectToolCalls | src/providers/openai-compatible.ts:175-256 | the stream loop emits chunk after chunk up to the finished one, at each chunk in the order of the indices' first fragments, and for every index what that index's own fragments determine |
| ToolCallStream.EmittedAtMostOnce | src/providers/openai-compatible.ts:221-255 | no index is emitted twice |
| ToolCalls.EmissionIgnoresFragmentation | src/providers/openai-compatible.ts:200-255 | however a stable argument text is cut into fragments, its call is emitted once and alike |
| ToolCalls.ValidArgumentsAreParsedOnce | src/providers/openai-compatible.ts:200-255 | in particular every valid JSON text, as its parsed value |
| ToolCalls.StableIsExact | src/providers/openai-compatible.ts:221-255 | a text is stable if and only if every stream that brings it emits it alike |
| ToolCalls.UnstableTextDiffers | src/providers/openai-compatible.ts:221-255 | `[1]x` is emitted differently when it comes cut before its letter and when it comes at once |
| ToolCallArguments.SpelledArgumentsAreEmitted | src/providers/openai-compatible.ts:175-256 | every stream that brings a text of the JSON grammar as arguments, in any fragments and with any white space, emits its call once, with what the text means |
| ToolCallArguments.EarlyIsExact | src/providers/openai-compatible.ts:221-240 | before the stream ends a call is emitted exactly when its arguments are, white space aside, the text of an array or object that holds something |
| ToolCallArguments.FinalIsExact | src/providers/openai-compatible.ts:240-256 | at the end a call left over has what its arguments spell, an empty object for blank ones, and else the raw text wrapped |
| ToolCallArguments.FragmentsAreOfIndex | src/providers/openai-compatible.ts:200-205 | a fragment counts for the index it bears, or without one for its position in the chunk |
| ToolCallArguments.MergedIsLastGiven | src/providers/openai-compatible.ts:206-219 | a call has the last name and id given that are not empty, and all pieces of its arguments |
| ToolCallArguments.NamelessIsSilent | src/providers/openai-compatible.ts:221-255 | a call without a name is never emitted |
| SseLines.StreamLines | src/providers/openai-compatible.ts:283-302 | for every partition into chunks the yielded lines are those of the whole text, without an empty last one |
| SseLines.LinesAreAll | src/providers/openai-compatible.ts:283-302 | the lines hold all of the text: joined by newlines they are the text, up to one newline at its end |
| TextLines.SplitContinues | src/providers/openai-compatible.ts:291-292 | more text continues the last part of a split |
| TextLines.SplitJoins | src/providers/openai-compatible.ts:291 | the parts of a split join to the text and hold no newline |
| TextLines.JoinSplits | src/providers/openai-compatible.ts:291 | and no other parts do |
| ContextTrim.OldestFirst | src/max-context-tokens.ts:73-85 | returns the longest suffix that fits the cap, or the last message |
| ContextTrim.SortedEntries | src/max-context-tokens.ts:94-106 | the candidates by rank, then newest first, each once |
| ContextTrim.WithPriority | src/max-context-tokens.ts:88-115 | an order-preserving selection with the last message, within the cap or the last message alone, and greatest among all fitting selections in candidate order |
| ContextTrim.GreedyIsGreatest | src/max-context-tokens.ts:106-113 | no selection within the cap comes lexicographically after the greedy one |
| ContextTrim.DroppedDoNotFit | src/max-context-tokens.ts:108-113 | adding any dropped message back overflows the cap |
| ContextTrim.DroppedCostsMore | src/max-context-tokens.ts:88-115 | a message whose role comes earlier in the priority, or that is newer in the same place of it, is dropped while a less preferred one stays only if it costs more |
| ContextTrim.TokensRoundUp | src/max-context-tokens.ts:6-12 | four characters to a token, rounded up |
| ContextTrim.TotalAdds | src/max-context-tokens.ts:6-22 | a prompt costs what its messages cost together |
| ContextTrim.TrimKeepsLast | src/max-context-tokens.ts:59-115 | however messages are trimmed the last one stays last, and they fit the cap or it is alone |
| ContextTrim.SummarizePrefix | src/max-context-tokens.ts:24-52 | returns the summary of all but the last message, and the last message |
| ContextTrim.SummaryIsShort | src/max-context-tokens.ts:24-52 | a summary exceeds its cap by the prefix text at most |
| ContextTrim.SummaryIsStart | src/max-context-tokens.ts:24-52 | behind its prefix a summary holds the labelled earlier messages, cut to four characters for a token of the cap if they are longer |
| ContextTrim.LabelledJoins | src/max-context-tokens.ts:36-41 | labelled messages have an empty line between them |
| ContextTrim.LabelledOne | src/max-context-tokens.ts:36-41 | a message is labelled with who said it |
| ContextTrim.CapPrompt | src/runtime.ts:829-858 | over the cap with summaries on, a turn gets the summary of its earlier messages and the last message if they fit, else the last message alone, whatever the priority |
| MemoryLines.LineReadsBack | src/memory.ts:37-58 | the line of a record is one line and reads back as that record |
| MemoryLines.LinesAreDistinct | src/memory.ts:37-46 | no two records have the same line |
| MemoryLines.PayloadFields | src/memory.ts:37-46 | under which names a line holds the fields of its record |
| MemoryLines.ProvenanceFields | src/memory.ts:37-46 | and those of its provenance |
| JsonText.ParseStringify | src/memory.ts:45-55 | parsing what was stringified gives the value back, for every JSON value |
| JsonText.StringifyPrintable | src/memory.ts:45 | a stringified value has no control characters, so no line break |
| JsonText.StringifyIsCompact | src/memory.ts:45 | what is written is a text of the JSON grammar without white space between its tokens and with the shortest escapes, and means the value |
| MemoryLog.DropsFewest | src/memory.ts:107-122 | a trim drops the fewest oldest records that meet both limits, or all |
| MemoryLog.TrimMoves | src/memory.ts:92-134 | what a trim dropped, followed by what it kept, is what was there, in order |
| MemoryLog.TrimMeetsLimits | src/memory.ts:107-127 | a trimmed file is within its limits or has no records left |
| MemoryLog.PartitionConserves | src/continuity/memory-compaction.ts:128-146 | every record is kept or compacted, as often as it was there |
| MemoryLog.CompactionKeeps | src/continuity/memory-compaction.ts:128-192 | records that always stay keep their multiplicity, a second compaction at the same time finds nothing, and the file does not grow in records |
| MemoryPolicies.CompactedAreOldNotes | src/continuity/memory-compaction.ts:128-146 | exactly the notes and turn summaries with a valid date and at least the minimal age are compacted |
| MemoryPolicies.PartitionKeepsOrder | src/continuity/memory-compaction.ts:128-146 | kept and compacted records stay in order |
| MemoryPolicies.OverIsExact | src/continuity/memory-compaction.ts:79-112 | a compaction is for files that hold something and more records or characters than allowed |
| MemoryPolicies.CompactionIsExact | src/continuity/memory-compaction.ts:84-192 | under a lock, within the limits or without old notes nothing happens; else the file holds the compaction's record and then the kept ones, and the archive gets the others |
| MemoryPolicies.CompactionRecordIs | src/continuity/memory-compaction.ts:158-172 | the record of a compaction is never compacted itself, and holds the first 15000 characters of the summary |
| MemoryPolicies.SummaryJoins | src/continuity/memory-compaction.ts:158-161 | the texts of a summary have an empty line between them |
| MemoryPolicies.SummaryOfOne | src/continuity/memory-compaction.ts:158-161 | and are those of the compacted records that are not blank, in full |
| MemoryPolicies.HeaderStays | src/memory.ts:99-130 | whatever stands before the first record stays, when a file is trimmed and when it is compacted |
| MemoryPolicies.TrimsOnlyOver | src/memory.ts:92-122 | a trim leaves alone exactly the files without records or within both limits |
| MemoryPolicies.TrimDropsNoMore | src/memory.ts:107-127 | with the last dropped record back the file would be over a limit |
| MemoryLog.RunConserves | src/memory.ts:80-137 | over any run of appends, trims and compactions, primary file and archive hold the records they started with, the appended ones and the compaction records, with multiplicities |
| MemoryLog.AppendsKeepOrder | src/memory.ts:80-137 | with appends alone, archive followed by primary file is the order of appending |
| MemoryLog.AppendJoinsLastLine | src/memory.ts:84-85 | in general an appended record joins the last line of the file |
| MemoryAppends.AppendArrivesExactly | src/memory.ts:80-89 | an append adds its record and keeps the others if and only if the file's last line is blank; otherwise the record is lost together with one that stood in that line, and no other is |
| MemoryAppends.UnterminatedFileLosesBoth | src/memory.ts:80-89 | a file of one record without its newline holds no record after an append |
| JsonWedge.WedgedTextDoesNotParse | src/memory.ts:37-58 | no JSON text goes on with the start of a record line |
| MemoryStores.CountDrops | src/memory.ts:107-122 | the larger of the two counts is the first number of drops that meets both limits |
| MemoryStores.FirstRecordIndex | src/memory.ts:99-105 | the lines before it are the header, and the record lines all come after |
| MemoryStores.Partition | src/continuity/memory-compaction.ts:128-146 | the loop keeps and compacts the records as specified |
| MemoryStores.MemoryStore.AppendRecord | src/memory.ts:80-137 | one append step on the files, with its trim and archive |
| MemoryStores.MemoryStore.RunCompaction | src/continuity/memory-compaction.ts:84-192 | one compaction step on the files: nothing for a blank file, under the thresholds, under a lock or with nothing to compact |
| FindingOverlaps.SortFindings | src/privacy/secret-scanner.ts:204-209 | the same findings by start, the longer first |
| FindingOverlaps.CollapseOverlappingFindings | src/privacy/secret-scanner.ts:216-247 | the loop returns what `CollapseIsExact` describes |
| FindingOverlaps.CollapseDisjoint | src/privacy/secret-scanner.ts:216-247 | collapsed findings follow each other without overlap |
| FindingOverlaps.CollapseKeepsBest | src/privacy/secret-scanner.ts:225-246 | the sorted findings divide into runs, each member of which but the first starts before the end of the best one before it, and the next run does not; of each run the first of the most confident, then widest, is kept |
| FindingOverlaps.CollapseIsExact | src/privacy/secret-scanner.ts:216-247 | nothing else divides the findings like this, so this is all the collapse does |
| FindingOverlaps.AloneIsKept | src/privacy/secret-scanner.ts:225-246 | a finding that starts when all before it have ended, and ends before all after it start, is kept |
| PrivacyScrubbers.UndoRestores | src/privacy/privacy-scrubber.ts:57-68 | putting back what each placeholder replaced, at its place, restores the text |
| PrivacyScrubbers.ScopeRestores | src/privacy/privacy-scrubber.ts:57-68 | replacing every placeholder of a scrubbed text by the value its scope holds for it restores the text |
| PrivacyScrubbers.PlaceholdersDiffer | src/privacy/privacy-scrubber.ts:124-128 | placeholders with different numbers differ, whatever their labels |
| PrivacyScrubbers.DecimalIsExact | src/privacy/privacy-scrubber.ts:124-128 | numbers of placeholders are written in decimal without leading zeros |
| PrivacyScrubbers.LabelIsExact | src/privacy/privacy-scrubber.ts:124-128 | a label is its tag in capitals, with one underscore for each run of other characters |
| PrivacyScrubbers.GivenIsConsistent | src/privacy/privacy-scrubber.ts:118-130 | a scope gives the same value the same placeholder again, and different values different ones |
| PrivacyScrubbers.GivenAllExtends | src/privacy/privacy-scrubber.ts:118-130 | placeholders given out early stay as they are |
| PrivacyScrubbers.PrivacyScrubber.ScrubText | src/privacy/privacy-scrubber.ts:37-91 | sorts, collapses, limits and splices; the scope's own placeholders lead back to the text, and other scopes are unchanged |
| PrivacyScrubbers.PrivacyScrubber.PlaceholderFor | src/privacy/privacy-scrubber.ts:118-130 | gives out a scope's placeholder for a value, the known one or the next |
| PrivacyScrubbers.PrivacyScrubber.ClearScope | src/privacy/privacy-scrubber.ts:113-116 | the scope starts over; others are unchanged |
| Chunking.SplitIntoChunks | src/context/embedding-index.ts:209-224 | terminates for every overlap and returns the chunks |
| Chunking.ChunksAreShort | src/context/embedding-index.ts:209-224 | no chunk is longer than allowed, and one is empty only for the empty text |
| Chunking.ChunksAreFull | src/context/embedding-index.ts:209-224 | every chunk but the last is of the allowed length, and the next one starts with as much of it as the overlap says |
| Chunking.ChunksRebuild | src/context/embedding-index.ts:209-224 | chunks without what the next one repeats rebuild the text if and only if the overlap is not negative or there is one chunk |
| ContextIndexes.LocalEmbeddingIndex.UpsertModule | src/context/embedding-index.ts:78-117 | replaces one module's chunks by the non-empty chunks of its redacted text, then trims; nothing wrong is ever stored, and nothing is missing unless the capacity cost it |
| ContextIndexes.LocalEmbeddingIndex.TrimToCapacity | src/context/embedding-index.ts:184-194 | removes the oldest chunks, as many as are over the capacity |
| ContextIndexes.ContextIndexService.RefreshFromFiles | src/context/context-index-service.ts:76-110 | afterwards the state matches the files exactly, their modules hold their contents, and other modules what they were last indexed with |
| ContextIndexes.RefreshIsRebuildUnlessFilesLeft | src/context/context-index-service.ts:76-110 | a refreshed index and a rebuilt one, neither having evicted, store the same chunks if and only if every module without a file was empty when last indexed |
| ContextIndexes.UpsertKeeps | src/context/embedding-index.ts:87-115 | an upsert keeps the stored chunks right, and complete if they were |
| ContextIndexes.PartsAreFull | src/context/embedding-index.ts:87-92 | a module is stored in pieces of 320 characters of its redacted text, the last one shorter, each sharing 40 with the one before |
| LifecycleStreams.NothingIsLost | src/lifecycle-stream/in-memory-stream.ts:13-62 | under every interleaving delivered and queued events are the connecting event and exactly the matching pushes since, in order; a parked consumer has received all, and a woken one delivers next |
| LifecycleStreams.EarlyEventsAreLostExactly | src/lifecycle-stream/in-memory-stream.ts:26-58 | a consumer receives all matching events pushed since `subscribe` was called if and only if none was pushed before it first asked |
| LifecycleStreams.EarlyEventIsLost | src/lifecycle-stream/in-memory-stream.ts:26-36 | an event pushed in between does not reach it |
| LifecycleStreams.AskingDrains | src/lifecycle-stream/in-memory-stream.ts:48-53 | a consumer that keeps asking receives all that is queued |
| LifecycleStreams.InMemoryLifecycleStream.Push | src/lifecycle-stream/in-memory-stream.ts:13-24 | every subscriber makes one push step |
| LifecycleStreams.InMemoryLifecycleStream.Subscribe | src/lifecycle-stream/in-memory-stream.ts:26-34 | gives a consumer that has not asked and is not on the list |
| LifecycleStreams.InMemoryLifecycleStream.FirstRequest | src/lifecycle-stream/in-memory-stream.ts:29-51 | puts the consumer on the list and delivers the connecting event |
| LifecycleStreams.InMemoryLifecycleStream.Close | src/lifecycle-stream/in-memory-stream.ts:59-61 | takes off that subscriber and no other |
| LifecycleStreams.Subscriber.Turn | src/lifecycle-stream/in-memory-stream.ts:49-58 | delivers the oldest queued event, or parks with a resolver |

## Left out

- JsonText.Stringify: writes every surrogate as an escape, where `JSON.stringify` leaves well-formed pairs as they are, because a text here is made of Unicode scalar values; number tokens are written as they were read.
- MemoryLines.RecordOf: a line holding JSON that is not a whole record counts as no record, where the source casts any value but null to a record.
- MemoryStores.MemoryStore.RunCompaction: the lock is a parameter; the backup file, LONGMEMORY.md and the callbacks are left out, because trimming LONGMEMORY.md re-appends its blocks newest first and promises no order.
- MemoryStores.MemoryStore.AppendRecord: the file exists already, where the source first creates a missing one from its template; the daily files are left out, they only grow by the same line.
- CronJobs.AnyRunIsSound: starts without restored records, because a restored record may be marked running with no tick behind it; removing jobs is not offered by the source.
- CronJobs.ComputeNextRun: cron expressions and durations are parsed by functions that are parameters here.
- SessionQueues.SessionQueue.Enqueue: the key is given; building it from profile and session is left out.
- TurnQueueBurst.BurstIsExact: is stated for a key with a registered state object; the first turns of a key, when submitted together, split it, which is what `TurnQueueOverlap` is about.
- QueueBackend.InMemoryQueueBackend.Dequeue: returns the item with its id so that order can be stated; `remove` and `close` are not called by the queue and are left out.
- ContextIndexes.ContextIndexService.RefreshFromFiles: the content stands for its hash, a key for its joined text, and paths own distinct modules; the summary cache, the repository graph and saved state are left out.
- PrivacyScrubbers.PrivacyScrubber.ScrubText: detection by regular expressions, the hashed placeholder map and the fail-closed path are left out; detected spans are given.
- FindingOverlaps.CollapseKeepsBest: a losing finding may reach beyond the one kept of its run, so coverage of every raw finding does not hold and is not stated.
- PrivacyScrubbers.LabelIsExact: tags are ASCII; how other letters are capitalised is left out.
- AutonomyBudgets.QuietHoursAreExact: hours are whole numbers from 0 to 24, as the configuration means them; for others the code is modelled and nothing is stated.
- Approvals.ApprovalWorkflow.Resolve: grant objects listed in a request are not shared with the store's; loading requests and grants from disk is left out.
- WorkflowRuntimes.WorkflowRuntime.Begin: keys are pairs, where the source joins them with ':' in memory and '-' in file names; invalid files are left out.
- AutonomyBudgets.AutonomyBudget.ImportState: `clearChannel` is left out, because clearing a channel gives up the bound on purpose; timestamps are whole numbers.
- Gateway, UI, process spawning, network access and the file queue backend: input and output plumbing.
- Embedding vectors, hashing, entropy and confidence scores, message merging heuristics: nothing to state beyond their bodies.
