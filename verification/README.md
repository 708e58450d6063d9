# Verified model of the agent operator's core

The core components of the agent operator, modelled in Dafny with their main properties proved for all
inputs, all runs or all reachable states:

- **Rate limiter** (`RateLimit.dfy`): the lazy token bucket, against a definition by windows over the whole call history.
- **Task protocol** (`StateMachine.dfy`, `Protocol.dfy`, `ServiceLaws.dfy`, `ProtocolLaws.dfy`, `ProtocolRuns.dfy`, `ProtocolProgress.dfy`,
  `ProtocolCycle.dfy`, `Orchestrator.dfy`): the state machine, the task and approval services, recovery, and orchestrator runs.
- **Interleaved runs** (`Interleaving.dfy`, `Flights.dfy`, `Alone.dfy`, `Pauses.dfy`): any number of runs in flight over one database,
  with service calls at every point where a run waits; a proof that a run left alone is the run of `Protocol.dfy`; and what becomes
  of an approval that arrives while a run pauses its task.
- **Thread splitter** (`Sentences.dfy`, `Threads.dfy`, `Drafts.dfy`): sentence splitting, greedy packing, numbering and the draft tool.
- **Idempotent publishing** (`Publish.dfy`): any interleaving of publish executions over one table with a unique key.
- **Claim cross-check and tool engine** (`CrossCheck.dfy`, `ToolEngine.dfy`).

Each imperative part is a class or method proved to do what a function on values says; the functions
carry the lemmas. `dafny verify dfyconfig.toml` checks everything.

Conventions of the model:

- Floats are exact reals. The two Jaccard thresholds are compared by cross-multiplication, which for set sizes agrees with the rounded division.
- The clock is an argument. The limiter and the engine require readings that never decrease, as the monotonic clock guarantees.
- Whatever is outside (planner, subgraphs, tools, adapters, elapsed time, user cancellation) is an argument indexed by call
  number, so every statement is about all behaviours of it.
- `Protocol.RunTask` is a run that other sessions leave alone, and `ProtocolRuns`, `ProtocolProgress` and `ProtocolCycle` are about
  such runs. `Interleaving` cuts a run into steps, one from each wait to the next: other runs, on the same task or not, and
  decisions, cancellations, requests, transitions and creations come between any two of them. One service call is one step, as a
  database that serialises transactions makes it, except that the refresh after a run's commit is a step of its own.
- A run reads its task as its session last loaded it: at its start and at the refresh after each of its commits. Only a transition
  reads the row afresh.
- `log` fields are history for stating properties. A refused service call keeps nothing (the session rolls back), except that a
  refused approval request inside a run leaves its row for the commit that then fails the task, as in the original.

Where the code and its documentation differ, the code is followed:

- Recovery is documented to retry with backoff, but the orchestrator hands it the error as text, which is always classified as a
  failure. `WiredRunEndsExactly` is about runs as wired; `AttemptsBounded` and `RetriesAreExhausted` cover typed errors as well.
- A step that recovery escalates pauses the task without a request row, so there is nothing pending to approve (`RunIsScan`).
  Escalation needs a typed error, so it is not reached as wired, where every error is text and is classified as a failure.
- An approval that is committed after a run's request and before its session refreshes its copy of the task is overrun: the handler
  pauses the task again, and it waits with nothing left to approve. An approval after that refresh is not
  (`ApprovalIsOverrunExactly`; `PauseExactly` is the condition for whatever others do, `AskingIsReachable` shows that it happens).
  Nothing is lost but the state: running the waiting task again does what running it as executing would (`WaitingRunsAsExecuting`).
- A resumed run executes the plan from its first step again, and a run on a completed task executes the whole plan again
  (`CompletedTaskRunsAgain`). How often each step runs on the way to completion is `RoundsReaching`.
- A task being verified that meets an unapproved step fails instead of waiting, and its request row is kept (`RunIsScan`).
- Publishing is documented as safe on retry. It is safe, but a key whose first publish failed can never be published: the look-up
  ignores failed rows while the unique key still blocks the insert (`CommitSealsKey`, `PublishAgain`).
- The look-up goes by the key alone, so after a success on X a LinkedIn publish with the same key returns the X id and sends nothing
  (`PublishAgain`; `SuccessMeansPublished` says when a success was sent on the execution's own platform).
- "Posts of at most the budget" holds except for a single longer sentence, and the five characters reserved for numbering do not
  suffice from ten posts on (`TenFullSentencesAreRejected`; `LongDraftValidExactlyWhen` is the exact condition).
- A long draft that is all whitespace is valid with an empty thread (`LongBlankDraftIsValidButEmpty`).

## Model

| member | source | states |
|---|---|---|
| RateLimit.RateLimiter.Create | app/policies/rate_limit.py:30-37 | a rate below one raises, any other gives a limiter with no history |
| RateLimit.RateLimiter.Acquire | app/policies/rate_limit.py:48-58 | grants a call exactly when every window over the tool's own calls since its last reset has room, and keeps every bucket in step with its history |
| RateLimit.RateLimiter.Refill | app/policies/rate_limit.py:39-46 | raises one bucket to its capped level at the time of the call and touches no other |
| RateLimit.RateLimiter.ResetTool | app/policies/rate_limit.py:65-67 | empties one bucket and no other |
| RateLimit.RateLimiter.ResetAllTools | app/policies/rate_limit.py:60-64 | empties every bucket |
| RateLimit.AnswerAt | app/policies/rate_limit.py:39-58 | the k-th call is granted exactly when, for every earlier call j, the grants from j on plus one fit burst plus refill of the span |
| RateLimit.LevelIsTightestWindow | app/policies/rate_limit.py:39-46 | the refilled level is the least slack of all windows that end now |
| RateLimit.BucketAgreesWithWindows | app/policies/rate_limit.py:48-58 | the incremental bucket and the whole-history windows give the same answer |
| RateLimit.AnswersAreAdmissible | app/policies/rate_limit.py:17-19 | no window that ends at a grant holds more grants than burst plus refill |
| RateLimit.GrantsInWindow | app/policies/rate_limit.py:17-19 | nor does any window between two calls, granted or not |
| RateLimit.GrantsInMinute | app/policies/rate_limit.py:36-46 | calls within 60 seconds of each other hold at most twice the requests per minute in grants |
| RateLimit.BurstExactly | app/policies/rate_limit.py:48-58 | of calls made at once by an unused tool exactly the first requests-per-minute many are granted |
| RateLimit.RefillsInAMinute | app/policies/rate_limit.py:36-46 | an emptied bucket is full after 60 seconds and has one token after 60 divided by the rate |
| RateLimit.AnswersAreOptimal | app/policies/rate_limit.py:39-58 | after every prefix at least as many calls are granted as by any admissible policy |
| RateLimit.RefusalLeavesNoTrace | app/policies/rate_limit.py:53-58 | deleting a refused call changes no other answer |
| RateLimit.BucketsDoNotInteract | app/policies/rate_limit.py:17 | a tool's calls, and so its answers, are the same with all other tools' events removed |
| RateLimit.ResetForgets | app/policies/rate_limit.py:60-67 | after a reset a tool behaves as if never used |
| StateMachine.CancelGuardMatchesTable | app/domain/state_machine.py:36-50 | the cancel guard, the table and non-terminal states coincide |
| ServiceLaws.TransitionsExactly | app/domain/state_machine.py:55-93 | the table: from a non-terminal state to a stop state, one step along the happy order, or one of seven detours |
| StateMachine.CompletionVisitsMilestonesInOrder | app/domain/state_machine.py:55-93 | every path to COMPLETED, of any length, visits the eight milestone states with first visits in order |
| StateMachine.DeadStatesAbsorb | app/domain/state_machine.py:31-34 | a terminal state ends its history, and FAILED, CANCELLED, TIMED_OUT and BLOCKED are never left for a working state |
| StateMachine.DeadExactly | app/domain/state_machine.py:70-93 | FAILED, CANCELLED, TIMED_OUT and BLOCKED are exactly the states other than COMPLETED with nothing but stops behind them |
| Orchestrator.TaskService.TransitionTask | app/services/task_service.py:36-44 | atomic read-check-write of the state; the commit also flushes staged rows; a refusal changes nothing |
| Orchestrator.TaskService.CreateTask | app/services/task_service.py:22-28 | a fresh row in CREATED |
| Orchestrator.TaskService.CancelTask | app/services/task_service.py:46-53 | cancels exactly when the guard and the table allow it |
| ServiceLaws.CreatedTaskIsEmpty | app/services/task_service.py:22-28 | a new task has its timeout, no plan, result or error, and nothing else changes |
| ServiceLaws.TransitionMovesOneTask | app/services/task_service.py:30-44 | which error a transition gives when, and that it changes the state of one task and nothing else |
| ServiceLaws.CancelExactly | app/services/task_service.py:46-53 | exactly the existing tasks that are not terminal can be cancelled, and then are CANCELLED with nothing else changed |
| ServiceLaws.RequestPauses | app/services/approval_service.py:30-45 | a request is accepted exactly from VALIDATING_RESULT and EXECUTING, adds a pending row with the step's name and agent, and pauses the task |
| ServiceLaws.RejectionCancels | app/services/approval_service.py:69-84 | rejecting is accepted exactly for a row of an existing non-terminal task, leaves the task CANCELLED and the row rejected by the user, and changes no other task or row |
| ServiceLaws.ApprovalResumes | app/services/approval_service.py:69-84 | approving is accepted exactly from WAITING_FOR_APPROVAL, VALIDATING_RESULT and VERIFYING, leaves the task EXECUTING and the row approved by the user, and changes no other task or row |
| ServiceLaws.DecisionRefused | app/services/approval_service.py:47-53 | a decision is not found exactly when its row or task is missing; a refused decision changes nothing |
| Orchestrator.ApprovalService.CreateApproval | app/services/approval_service.py:30-45 | a pending row and the pause, or the row left staged when the transition is refused |
| Orchestrator.ApprovalService.GetPendingForTask | app/services/approval_service.py:55-67 | the newest pending request of the task |
| Orchestrator.ApprovalService.Decide | app/services/approval_service.py:69-84 | decision and transition together, or neither |
| Orchestrator.Orchestrator.CheckLimits | app/agents/orchestrator.py:368-394 | a check stops for cancellation first; else exactly when the elapsed time exceeds the maximum, or a non-zero timeout of the task, or the iterations or the calls are used up |
| ProtocolRuns.StoppedExactlyBy | app/agents/orchestrator.py:368-394 | the same of the check every run and step uses |
| Orchestrator.Orchestrator.InvokeSubgraph | app/agents/orchestrator.py:275-330 | starts the subgraph only when there is one, and counts the call either way |
| Orchestrator.Orchestrator.RunStepWithRecovery | app/agents/orchestrator.py:235-273 | the retry loop does what the recursive definition of a step says |
| Orchestrator.Orchestrator.ExecutePlan | app/agents/orchestrator.py:196-233 | the plan loop is the left-to-right scan, and asks for approval exactly where the scan stops unapproved |
| Orchestrator.Orchestrator.WalkTo | app/agents/orchestrator.py:439-455 | the walk over the happy order, or the one direct transition |
| ServiceLaws.PlacesAreTheOrder | app/agents/orchestrator.py:427-449 | the place of a state is its position in the happy order, and states outside it have none |
| Orchestrator.Orchestrator.PlanFor | app/agents/orchestrator.py:171-190 | the cached plan, else the planner's, which is then cached; when the planner fails nothing is cached |
| Orchestrator.Orchestrator.Run | app/agents/orchestrator.py:106-165 | database, in-memory state and escaping exceptions of a run are those of the protocol function, including planner failure and every handler |
| Interleaving.HistoryKeepsInv | app/agents/orchestrator.py:106-165 | the invariant of every database that any interleaving of runs and service calls reaches: state histories are paths ending in the state, approved rows and the approvals each run goes by come from decisions, approval-requiring invocations come after one |
| Interleaving.NoInvocationWithoutApproval | app/agents/orchestrator.py:207-229 | in every interleaving a subgraph runs for an approval-requiring step only after a decision that approved a request of that task for that step |
| Interleaving.TaskHistoriesArePaths | app/services/task_service.py:36-44 | in every interleaving, with fresh reads in each transition, every task's state history is a path of the table that ends in its state, and completed tasks passed every milestone in order |
| Interleaving.DeadTasksStayDead | app/agents/orchestrator.py:439-455 | with fresh reads in each transition, after CANCELLED, FAILED, TIMED_OUT or BLOCKED no run in flight, later run or service call brings the task back; only BLOCKED can still change state, never to a working one |
| Interleaving.RejectionIsFinal | app/services/approval_service.py:74-75 | in every interleaving, with fresh reads in each transition, a non-terminal task whose request is rejected is CANCELLED in every continuation |
| Interleaving.CancellationIsFinal | app/services/task_service.py:46-53 | and so is one that is cancelled |
| Interleaving.DeadTasksAreLeftAlone | app/agents/orchestrator.py:124-163 | a run begun on a dead task never calls a step, and once all its runs are over or stalled nothing is invoked for a dead task again, whatever else runs |
| Flights.EveryRunFollowsItsScan | app/agents/orchestrator.py:196-273 | in every interleaving and at every moment, what a run has called, recorded and slept is a beginning of the scan of its plan with the approvals it read, within the limits; iterations equal outputs and never exceed calls; it ends done only with one success per step |
| Flights.EndsAreEntered | app/agents/orchestrator.py:137-165 | in every interleaving a run that ends without an exception has had its task COMPLETED when done, WAITING_FOR_APPROVAL when unapproved, TIMED_OUT beyond a limit, and else FAILED |
| Flights.LogHoldsWhatRunsStarted | app/agents/orchestrator.py:288-311 | in every interleaving the invocations logged for a task are, with multiplicity, those its runs have started |
| Alone.RunAloneIsRunTask | app/agents/orchestrator.py:106-165 | with any other runs in flight, a run begun and continued with nothing in between ends with the database, progress, stop and exception of the protocol function |
| Pauses.PauseExactly | app/agents/orchestrator.py:143-149 | whatever others do between request, refresh and pause: the pause leaves the task waiting with nothing pending exactly when nothing was pending before it and the task was waiting, or could be paused both at the refresh and then |
| Pauses.ApprovalIsOverrunExactly | app/services/task_service.py:36-40 | when the run's request is approved before the pause and others leave the task alone, the task ends waiting with nothing pending exactly when the approval precedes the refresh, and executing otherwise |
| Pauses.RunComesToAsk | app/agents/orchestrator.py:211-221 | every run from a working state whose scan meets an unapproved step comes to ask, with nothing else pending |
| Pauses.AskingIsReachable | app/agents/orchestrator.py:211-221 | a system in which a run is about to ask is reached from an empty database |
| ProtocolProgress.WaitingRunsAsExecuting | app/agents/orchestrator.py:439-455 | a run on a waiting task ends with the tasks, approvals, progress and stop of a run on the same task executing |
| ProtocolProgress.DeadRunGoesNowhere | app/agents/orchestrator.py:128-137 | a run on a dead task calls nothing; it raises and leaves the state alone, except that a blocked task with a plan is failed |
| ProtocolRuns.AttemptsBounded | app/agents/orchestrator.py:244-273 | one step: at most max_retries + 1 attempts within max_tool_calls, sleep within the sum of min(2^k, 5) |
| ProtocolRuns.RetriesAreExhausted | app/agents/recovery_agent.py:56-69 | those bounds are reached, and end in escalation, when every attempt meets some retried error, of whatever kind each time |
| ProtocolRuns.SleepAddsUp | app/agents/recovery_agent.py:47 | the sleep of a step adds up to 0, 1, 3 and 7 seconds for up to three retries and five more for each further one |
| ProtocolRuns.FirstErrorDecides | app/agents/recovery_agent.py:56-69 | an error that is not retried ends the step at once: approval and timeout errors escalate, all others fail |
| ProtocolRuns.NoGraphFails | app/agents/orchestrator.py:288-293 | a step without a compiled graph fails at its first attempt |
| ProtocolRuns.RunStaysWithinLimits | app/agents/orchestrator.py:368-394 | every run: calls and iterations within their limits, iterations equal outputs and never exceed calls, outputs are the successes of a plan prefix |
| ProtocolRuns.RunSleeps | app/agents/orchestrator.py:262-267 | a run sleeps at most one step's budget for each step of its plan |
| ProtocolRuns.ScanStaysOnTrack | app/agents/orchestrator.py:207-233 | a scan is done exactly when it has one output per step; else its step index is the first step not passed, which an approval stop names |
| ProtocolProgress.WalkArrives | app/agents/orchestrator.py:427-455 | a forward walk in the happy order never meets a refused transition |
| ProtocolProgress.RunIsScan | app/agents/orchestrator.py:106-165 | from every state a run can work in, VERIFYING included, a run is the scan: its stop alone fixes the end state, nothing escapes, and only an unapproved step adds a request |
| ProtocolProgress.RunInvocations | app/agents/orchestrator.py:288-296 | from any state, the subgraphs a run starts are the scan's calls that have a graph, in order |
| ProtocolProgress.CompletionIsFullSuccess | app/agents/orchestrator.py:138-140 | COMPLETED exactly with one success per plan step, in order, and that summary is persisted |
| ProtocolProgress.WiredRunEndsExactly | app/agents/orchestrator.py:258-273 | as wired, completion exactly when every step passes a closed-form condition, each step then invoked once in order; otherwise the first step that fails it fixes the end state |
| ProtocolProgress.CompletedTaskRunsAgain | app/agents/orchestrator.py:452-453 | a run on a completed task keeps the state and executes the plan again |
| ProtocolProgress.PlanIsKept | app/agents/orchestrator.py:171-190 | a cached plan is what every later run executes, whatever the planner would say, and the planner's plan is cached by the run that asked for it |
| ProtocolProgress.PlannerFailureRaises | app/agents/orchestrator.py:176-182 | a run whose planner fails raises, and leaves the task in PLANNING or where it was |
| ProtocolProgress.MissingTaskRaises | app/agents/orchestrator.py:112 | a run on a task that does not exist raises and changes nothing |
| ProtocolCycle.RunThenApprove | app/services/approval_service.py:69-84 | an otherwise unhindered run, retries included, that lacks approvals pauses at the first step that lacks its own, having made the calls before it, and approving its pending request clears exactly that name |
| ProtocolCycle.CycleCompletes | app/agents/orchestrator.py:207-233 | for any runs whose scan with all approvals gets to the end: alternating runs and approvals completes after one approval per distinct missing name, and invokes exactly each run's calls up to its next missing approval |
| ProtocolCycle.RoundCallsRepeat | app/agents/orchestrator.py:235-273 | those invocations are the steps of the rounds in order, each made at least once and at most max_retries + 1 times, and exactly once where nothing fails |
| ProtocolCycle.RoundsReaching | app/agents/orchestrator.py:207-233 | over those rounds each place of the plan is worked on once, plus once for each distinct missing name that first occurs after it |
| ProtocolCycle.CycleNeedsEveryApproval | app/agents/orchestrator.py:207-233 | with fewer approvals the task still waits |
| Sentences.SplitIsNormal | app/tools/builtin/content.py:29-33 | every sentence is non-empty, trimmed and without an inner cut, and only the last may lack a terminator |
| Sentences.SplitOfJoin | app/tools/builtin/content.py:29-33 | every such list is the split of its own join |
| Sentences.SplitIsStable | app/tools/builtin/content.py:29-33 | splitting the space-joined sentences gives the same sentences |
| Sentences.SplitsAfterSentence | app/tools/builtin/content.py:29 | a sentence that ends in '.', '!' or '?' and white space is cut off, and the rest is split on its own |
| Sentences.OneSentenceWithoutEnd | app/tools/builtin/content.py:29 | a text without any of these three characters is one sentence |
| Sentences.WhiteSpaceExactly | app/tools/builtin/content.py:29 | the white space characters, listed |
| Sentences.SplitKeepsInk | app/tools/builtin/content.py:32-33 | the sentences keep the non-whitespace characters in order |
| Threads.BuildRawPosts | app/tools/builtin/content.py:36-55 | the loop with its running length produces the greedy packing |
| Threads.PackIsGrouping | app/tools/builtin/content.py:36-55 | the packing keeps all sentences in order, and each post is one sentence or within the budget |
| Threads.PackIsTheGreedyGrouping | app/tools/builtin/content.py:36-55 | the packing is the only grouping in which no post could also take the first sentence of the next within 275 characters |
| Threads.PackIsMinimal | app/tools/builtin/content.py:36-55 | no order-preserving grouping that fits uses fewer posts |
| Threads.NumberComesOff | app/tools/builtin/content.py:58-63 | cutting a numbered post at its last space gives its text back |
| Threads.DecimalDenotes | app/tools/builtin/content.py:61 | decimal notation denotes its number, without a leading zero |
| Threads.ThreadIsNumbered | app/tools/builtin/content.py:58-63 | every post ends, after its last space, in the digits of its position from one, a slash, and the digits of the number of posts |
| Threads.ThreadLosesNothing | app/tools/builtin/content.py:58-63 | posts are numbered from one, and unnumbered and joined they are the joined sentences |
| Drafts.ValidateContent | app/content/validators.py:97-114 | reports exactly the faults, each once, in order, and emptiness alone |
| Drafts.ReportsExactly | app/content/validators.py:28-31 | the list of issues itself: emptiness alone, else length beyond 280 or 3000, then links, then duplicate |
| Drafts.NumberedFitsExactly | app/content/validators.py:40-47 | a numbered post passes the length check exactly when text and digits take at most 278 characters |
| Drafts.BudgetSuffices | app/tools/builtin/content.py:26-28 | a text within the budget passes while index and total take at most three digits |
| Drafts.BudgetFailsFromTen | app/tools/builtin/content.py:26-28 | a full text with two two-digit numbers never passes |
| Drafts.ThreadsOfNineFit | app/tools/builtin/content.py:26-63 | up to nine posts, sentences within the budget never make a post too long |
| Drafts.Draft | app/tools/builtin/content.py:83-118 | a long draft for X is valid exactly when all its posts are acceptable, else carries the issues of the first bad post; other drafts are checked whole |
| Drafts.SingleDraftExactly | app/tools/builtin/content.py:105-118 | a draft for LinkedIn or of at most 280 characters is returned whole, and is valid exactly when not blank, within its limit and with good links |
| Drafts.LongDraftIsThreaded | app/tools/builtin/content.py:84-103 | a longer draft for X is valid as its numbered thread with the paragraphs as formatted content, or comes back with issues |
| Drafts.ParagraphsJoin | app/tools/builtin/content.py:97 | the formatted content is the posts in order with a blank line between |
| Drafts.ValidDraftFits | app/tools/builtin/content.py:84-103 | every post of a valid draft for X is within 280 characters, whatever the total |
| Drafts.LongDraftValidExactlyWhen | app/tools/builtin/content.py:84-103 | the exact condition for a long draft to be valid, in lengths and links |
| Drafts.NinePostDraftsAreValid | app/tools/builtin/content.py:84-103 | good links, sentences within the budget and at most nine posts make a long draft valid |
| Drafts.TenFullSentencesAreRejected | app/tools/builtin/content.py:26-28 | a concrete text whose sentences keep the budget and whose tenth post is too long |
| Drafts.LongBlankDraftIsValidButEmpty | app/tools/builtin/content.py:84-103 | the thread of a long draft is empty exactly when the draft is blank, and is then valid |
| Publish.AtMostOnePublishPerKey | app/tools/builtin/social_publish.py:76-133 | in every interleaving the adapter is called at most once per key and at most one execution per key is between insert and commit |
| Publish.RowsMatchAudit | app/tools/builtin/social_publish.py:115-133 | a row is pending exactly while its execution is in flight, and otherwise has one attempt with its status and one call |
| Publish.SuccessMeansPublished | app/tools/builtin/social_publish.py:76-139 | in every interleaving an execution that returns an id returns that of a committed, succeeded row under its key with exactly one call; the call was on its own platform exactly when the row is |
| Publish.RowsTellTheTruth | app/tools/builtin/social_publish.py:91-133 | in every interleaving a row has its execution's draft and content, and once committed is succeeded with an id exactly when the execution returned it, else failed and refused |
| Publish.CallsSendDrafts | app/tools/builtin/social_publish.py:108-112 | in every interleaving every adapter call sends the content of the draft an execution with its key and platform was asked to publish |
| Publish.CommitTellsTheAnswer | app/tools/builtin/social_publish.py:108-133 | row, attempt and outcome of a commit say what the adapter answered |
| Publish.CommitSealsKey | app/db/models/social_post.py:21 | after a commit no continuation changes the row, its attempt or the calls; later executions return the first id, or are refused when the first failed |
| Publish.RivalsAreBeaten | app/tools/builtin/social_publish.py:76-115 | once any row holds a key, every other execution on it that is past its look-up can end only with the key taken or the draft missing |
| Publish.AloneIsPublished | app/tools/builtin/social_publish.py:68-139 | the interleaving machine run without interference has the closed-form effect of one call |
| Publish.PublishedExactly | app/tools/builtin/social_publish.py:68-91 | which of the refusals and of the earlier ids one call gives, and that it then sends and writes nothing |
| Publish.FirstPublish | app/tools/builtin/social_publish.py:93-139 | the first publish under a key sends the draft once and records the answer it returns in one row and one attempt |
| Publish.PublishAgain | app/tools/builtin/social_publish.py:203-261 | a second call on a key returns the first id or is refused, and sends and writes nothing |
| Publish.PublishTool.Execute | app/tools/builtin/social_publish.py:196-267 | the imperative execution of either tool has exactly that effect and result; it lacks credentials exactly without an access token, and for X also without a bearer token |
| CrossCheck.ConflictsSymmetric | app/research/pipeline.py:364-388 | conflict between claims is symmetric |
| CrossCheck.TokensAreRuns | app/research/pipeline.py:367-368 | the tokens of a text are exactly the maximal runs of word characters of its lower-cased form |
| CrossCheck.ConflictsExactly | app/research/pipeline.py:215-219 | claims conflict exactly when their sources differ, no token set is empty, claims share at least 0.4 and evidence less than 0.8 |
| CrossCheck.ConflictHasEvidence | app/research/pipeline.py:383-388 | evidence that conflicts is never empty |
| CrossCheck.FirstConflictIsFirst | app/research/pipeline.py:213-223 | the recorded position is that of the first conflicting claim in list order |
| CrossCheck.CrossCheckClaims | app/research/pipeline.py:206-224 | the in-place double loop leaves each claim with its old evidence if it had any, else that of the first conflicting claim in list order |
| CrossCheck.AfterIsStable | app/research/pipeline.py:206-224 | a second run changes nothing |
| CrossCheck.AfterExactly | app/research/pipeline.py:220-223 | non-empty evidence stays; absent or empty evidence becomes that of the first conflicting finding, if there is one |
| CrossCheck.DisputedExactlyWhenInConflict | app/research/pipeline.py:230-231 | from a clean start a claim is disputed exactly when some claim conflicts with it |
| CrossCheck.NeverOneDisputed | app/research/pipeline.py:277 | the number of disputed claims is never one |
| ToolEngine.Engine.ExecuteWithRetry | app/tools/executor.py:151-160 | runs the tool until a final reply or three times, and keeps the last reply |
| ToolEngine.StopsAfterIsUnique | app/tools/executor.py:50-61 | the retry policy fixes one number of attempts for given replies |
| ToolEngine.AttemptsExactly | app/tools/executor.py:50-61 | one attempt unless it fails retryably, then a second, then a third and last |
| ToolEngine.GateExactly | app/tools/executor.py:162-177 | the gate passes exactly registered, authenticated and approved calls, and names the first thing that is missing |
| ToolEngine.AttemptsArePermitted | app/tools/executor.py:162-177 | over every engine history a tool ran only registered, authenticated where required, approved where required or high-risk, and with a token taken |
| ToolEngine.Engine.Execute | app/tools/executor.py:103-149 | each error under exactly its own condition in the source's order; a gate refusal takes no token; one new row, success with the output exactly when the tool returned |
| ToolEngine.AttemptsWithinGrants | app/tools/executor.py:113-122 | over every stretch of any engine history a tool runs at most three times per token taken |
| ToolEngine.AttemptsInWindow | app/tools/executor.py:113-122 | calls within a span cause at most three times burst plus refill attempts |

## Left out

- Language model calls, graphs, planner prompts, tone checks and content generation: they are arguments that succeed, fail or give text.
- HTTP adapters, search, fetch, browser, shell and filesystem tools, CLI, API routes, worker, logging and configuration: plumbing.
- Orchestrator.Orchestrator.Run: opening and closing a browser session is taken to succeed, and the agent-run audit rows are not kept.
- Orchestrator.Orchestrator.InvokeSubgraph: the agent-run audit rows around an invocation are not kept.
- Orchestrator.Orchestrator.PlanFor: the planner's agent-run audit rows are not kept.
- Stale transitions: every session keeps the rows it has loaded (`expire_on_commit=False`, app/db/session.py:35,
  app/workers/task_worker.py:84), so a transition may check and overwrite a row that another session has changed. The model's
  transitions read the row afresh; histories as paths and the finality of a rejection during a run are about fresh reads.
- Concurrent writes of one task's result column: plan, result and error are separate fields here, and two runs do not overwrite each other's.
- Process death and driver errors between insert and commit: every publish execution that inserts also commits.
- Content hashes and timestamps of posts: a row keeps the draft's content in place of its hash.
- `validate_links`: an arbitrary predicate; its character class is odd and nothing here depends on it.
- Unicode lower-casing and the word class of the cross-check, and the hash function: arbitrary functions, with lower-casing of nothing being nothing.
- A limiter shared by several engines, and tool names that differ from their registry keys.
- The partition into verified and disputed claims and the list of conflicts: single comprehensions over what `DisputedExactlyWhenInConflict` decides.
- Source ranking sorts by source class and a freshness that halves every seven days; model routing picks a model from fixed criteria;
  token usage is read off a response; the secrets audit matches patterns; the fact-check verdict follows from whether contradicting
  or supporting pages were found. Nothing modelled here depends on them.
