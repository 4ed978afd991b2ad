# Verified model of the governed agent platform

This project is a Dafny model of the parts of the platform where a mistake is expensive: the
tool gateway that must not submit a side effect twice, the mission planner and its task graph,
the LLM router with its execution budget, the checkers in front of stored data, protected
contact channels, the tool registry, rank fusion and outreach. Every statement below is proved
for all inputs, all runs or all interleavings; nothing here runs the original program.

Modules named `…Rules` state, beside the properties of whole runs, what a single decision is: by its
inputs and outputs, independently of the function that computes it.

Code that changes things step by step is modelled by classes and loops whose contracts equate
the new state with a function of the old one; the properties of whole runs are then proved about
those functions. Code that awaits between its steps (the gateway, the outreach workflow) is a
transition system in which every await is a boundary, and other callers, signals, crashes and
exceptions may come in between any two steps.

## The main results

- **At most one submission.** In every interleaving of any number of `execute` calls, with a
  crash possible at every await, no two provider calls under one idempotency claim may both have
  had a side effect, provided providers never report a definite, submitted outcome with error
  code `NOT_SUBMITTED`. The proviso is exact: `GatewaySafety.AtMostOnceExactly` shows that one
  such outcome is enough for a double submission. A completed claim is final.
- **Only admitted calls reach the provider**: the answers a caller was given, and nothing else, decide
  whether it goes on, and what it is refused with (`GatewayAdmission.OnlyAdmittedCalls`).
- **The attempt log is right at every crash point**, not only at the end of a call.
- **The task graph check** is sound and complete, on cyclic graphs too. In every run from an
  empty mission no task on a dependency cycle ever starts; a valid plan never deadlocks and
  finishes n tasks in n starts.
- **The budget** is conserved over every session of invocations and over a whole reasoning with
  its repairs, and exceeded by at most the overshoot of the latest dispatched attempt.
- **`isJsonSafe`** decides exactly whether the reachable graph is a tree of JSON data, and the
  clone behind it is well founded and keeps every path.
- **Discovery agrees with resolution** in every reachable registry whose tool ids hold no `@`;
  the exact condition for all registries is `ToolRegistry.DiscoveredExactly`.
- **What was approved is what is sent**, in every run of a message execution; and in every
  interleaving of sends and decisions the provider is called only under approvals that were given
  for the very execution (`ApprovedRuns.SubmissionsAreApproved`).
- **A TIMEOUT of the outreach workflow is lasting**: whatever others do before, inside and after the
  expiry of an approval wait, the execution never awaits approval again, and no approval is undone.
- **Protected addresses survive key rotation**, exactly when their version had its own key.

Where the code falls short of what its comments or names suggest, the model keeps the code and
proves, for all runs or inputs, exactly when it does, with a failing input beside it:

| shortfall | exact condition | failing input |
|---|---|---|
| misreported outcomes are submitted twice | `GatewaySafety.AtMostOnceExactly` | `GatewaySafety.MisreportingSubmitsTwice` |
| discovery hides a tool behind an `@` | `ToolRegistry.DiscoveredExactly` | `ToolRegistry.AtSignHidesATool` |
| key aliases lose addresses | `ProtectedChannel.RecoverableExactlyWithVersionedKey` | `ProtectedChannel.AliasOnlyStoreLosesAddresses` |
| the ranking depends on the catalogue | `ModelRanking.CatalogOrderMattersExactly` | `ModelRanking.TiedCatalog` |
| the safe output keeps the phrase | `SchemaValidator.SafeOutputIsSafeExactly` | `SchemaValidator.NestedPhraseSurvives` |
| an approval is waited for of a message that can never be sent | `OutreachWorkflow.AwaitedCanBeSentExactly` | `OutreachWorkflow.UnpersonalizedIsAwaited` |
| an ended workflow leaves an awaited approval behind | `OutreachWorkflow.EndLeavesAwaitedExactly` | `OutreachWorkflow.FailedExpiryLeavesAwaited` |
| an approval that was not given is recorded on the execution | `ApprovedSend.UngivenIsRecordedExactly` | `ApprovedRuns.RejectionIsRecorded` |
| a send does not go to the draft | `WorkflowSignals.SendGoesToDraftExactly` | `WorkflowSignals.StaleApprovalIsSent` |
| a reply answers nothing that was sent | `WorkflowSignals.PendingReplyIsLatest` | `WorkflowSignals.EarlyReplyIsRead` |
| an approval signal is lost | `WorkflowSignals.SignalIsSentExactly` | `WorkflowSignals.ArrivalDuringSendIsLost`, `WorkflowSignals.OverwrittenApprovalIsLost` |
| two signals share a dedup identity | `SignalHash.IdentitiesCollideExactly` | `SignalHash.DifferentSignalsCollide` |

Some classes permit, taken by themselves, what the repository's own callers or settings avoid:

| permitted | exact condition | input | avoided by |
|---|---|---|---|
| `addTask` builds cycles, and a mission comes to a halt | `MissionPlans.AddTaskKeepsAcyclicExactly`, `MissionPlans.CanGoOnExactly` | `MissionRuns.AddTaskCanBuildCycle` | validation before the first save (packages/mission-orchestrator/src/workflow/mission-execution-engine.ts:80-98) |
| a plan with tasks that validation refuses is executed | `MissionPlans.PlanIsWellFormedExactly` | `MissionPlans.ResumeSkipsValidation`, `MissionPlans.PauseSkipsValidation`, `MissionPlans.AddTaskSpoilsValidatedPlan` | the same: tasks are saved with a validated plan only |
| a used PII pattern overlooks a match | `PiiPatterns.PolicyIsReliableExactly` | `PiiPatterns.FlaggedPatternForgets` | policies without patterns (apps/temporal-worker/src/activities.ts:272) |
| a message is delivered without approval | `MessageExecution.UnapprovedDeliveryExactly` | `MessageExecution.ReconciliationNeedsNoApproval` | the status check before it (`MessageExecution.GuardedDeliveryIsApproved`) |
| a sequence throws | `OutreachSequence.NeverCrashesExactly` | `OutreachSequence.OutOfRangeCrashes` | creation at index 0 (packages/outreach/src/services/outreach-agent-executor.ts:114-130) |
| a stored execution comes to await approval again | `StoredExecutions.AggregateAwaitsExactly` | any execution in DRAFTING, by `setDraft` | drafting before the first save only (`OutreachWorkflow.TimeoutIsLasting`) |
| a leading candidate is overtaken | `RankFusion.DominanceExactly` | `RankFusion.NegativeConstantOvertakes` | the constant 60 (packages/ai-runtime/src/memory/durable-memory-retriever.ts:44) |

`markFailed` names targets in `APPROVED`, `DELIVERED`, `OPENED` and `PROVIDER_ACCEPTED` that the
transition table refuses (`MessageExecution.NonRetryableFailureExactly`), and no run reaches
`BOUNCED` or `CANCELLED`.

## Layout

| files | subject |
|---|---|
| `Foundations`, `JsText`, `Ordering`, `Encodings` | string keys, trimming, sorting, base64url and hexadecimal |
| `ToolContract`, `IdempotencyStore`, `InvocationLog`, `ToolGateway` | the gateway's records, stores and retry loop |
| `GatewayProtocol`, `GatewaySafety`, `GatewayAttempts`, `GatewaySteps`, `GatewayAdmission`, `GatewayRules` | the gateway as a protocol, its safety, its log, the object that carries the steps out, who is admitted, and its decisions one by one |
| `ToolResolver`, `ToolRegistry`, `RegistryRules` | resolution, registry, discovery, and their rules row by row |
| `TaskGraph`, `MissionStatus`, `Mission`, `MissionRuns`, `MissionPlans`, `MissionRules` | plans, missions, whole runs, what unvalidated changes do to a plan, and each rule in plain fields |
| `BudgetLedger`, `ModelRanking`, `RankingOrder`, `LlmRouter`, `RouterRules`, `ReasoningLoop`, `ReasoningRules` | budget, ranking, fallback, repair |
| `JsonSafety`, `SchemaValidator`, `SchemaComplaints`, `PiiPatterns`, `PromptFilter` | recursive checkers, what their messages say, patterns with memory, the safe output |
| `ProtectedChannel`, `ChannelRules` | addresses, envelopes, keyring, recovery |
| `RankFusion` | reciprocal rank fusion |
| `MessageExecution`, `MessageRules`, `OutreachSequence`, `SequenceRules`, `StoredExecutions`, `OutreachWorkflow`, `WorkflowRules`, `WorkflowSignals` | outreach aggregates, stored executions, the workflow and its signals |
| `ApprovedSend`, `ApprovedRuns`, `ApprovedRules` | approvals, the safety gate, the send up to the provider, whole runs, decisions and judgements one by one |
| `SignalHash` | the dedup identity and its hash |

`dafny verify dfyconfig.toml` checks everything.

## Model

| member | source | states |
|---|---|---|
| `IdempotencyStore.InMemoryIdempotencyStore.Get` | packages/application/src/test-doubles/idempotency-store.ts:13-20 | finds exactly the record stored under tenant, scope and key |
| `IdempotencyStore.InMemoryIdempotencyStore.Set` | packages/application/src/test-doubles/idempotency-store.ts:22-39 | overwrites that one record, COMPLETED unless another status is given |
| `IdempotencyStore.InMemoryIdempotencyStore.Claim` | packages/application/src/test-doubles/idempotency-store.ts:41-76 | grants a fresh PENDING claim exactly when there is no record or a failed one that submitted nothing; otherwise returns the record and changes nothing |
| `IdempotencyStore.InMemoryIdempotencyStore.Clear` | packages/application/src/test-doubles/idempotency-store.ts:83-86 | forgets every record |
| `IdempotencyStore.TenantsNeverShareAClaim` | packages/application/src/test-doubles/idempotency-store.ts:9-11 | equal store keys mean equal tenants, for tenant ids without a colon |
| `InvocationLog.InMemoryToolInvocationRepository.CreateInvocation` | packages/tool-gateway/src/in-memory-tool-invocation-repository.ts:14-16 | opens one invocation record and leaves the attempts alone |
| `InvocationLog.InMemoryToolInvocationRepository.CompleteInvocation` | packages/tool-gateway/src/in-memory-tool-invocation-repository.ts:18-29 | closes a known record, keeping an earlier error when none is given; reports an unknown one |
| `InvocationLog.InMemoryToolInvocationRepository.CreateAttempt` | packages/tool-gateway/src/in-memory-tool-invocation-repository.ts:31-33 | opens the record of one attempt with submission unknown |
| `InvocationLog.InMemoryToolInvocationRepository.CompleteAttempt` | packages/tool-gateway/src/in-memory-tool-invocation-repository.ts:35-46 | closes a known attempt and no other |
| `ToolGateway.StatusTellsSubmission` | packages/tool-gateway/src/tool-gateway.ts:344-354 | success is reported exactly of submitted requests with a known, error-free result, and OUTCOME_UNKNOWN exactly of submitted ones whose result is not known or came with an exception |
| `ToolGateway.ReclaimableAfterSubmission` | packages/tool-gateway/src/tool-gateway.ts:326-354 | a side-effecting attempt that may have been submitted is never retried, and leaves a claim others may take exactly when its provider misreported it |
| `ToolGateway.ClosedAttemptsAre1ToN` | packages/tool-gateway/src/tool-gateway.ts:259-299 | the log of n closed attempts holds exactly the records 1..n, each with what its provider answered, and otherwise what it held before |
| `ToolGateway.ExecuteWithRetry` | packages/tool-gateway/src/tool-gateway.ts:248-324 | n attempts with 1 <= n <= max(1, maxRetries + 1), retryCount n - 1; all but the last may be retried, the last may not; the log holds exactly those attempts |
| `ToolGateway.EarlierAttemptsSubmittedNothing` | packages/tool-gateway/src/tool-gateway.ts:326-342 | a side-effecting call is retried only after answers that were retryable and positively not submitted |
| `GatewaySteps.Gateway.RecordInvocation` | packages/tool-gateway/src/tool-gateway.ts:182-199 | opens the durable invocation before the claim; the log is the one the protocol step gives |
| `GatewaySteps.Gateway.AcquireClaim` | packages/tool-gateway/src/tool-gateway.ts:201-207 | takes the claim through the store, or turns to the existing record; store and next await are those of the protocol step |
| `GatewaySteps.Gateway.BeginAttempt` | packages/tool-gateway/src/tool-gateway.ts:259-270 | writes the STARTED record with the next number before the provider boundary, as the protocol step does |
| `GatewaySteps.Gateway.EndAttempt` | packages/tool-gateway/src/tool-gateway.ts:291-312 | closes the record with the certainty of the submission, then retries or finishes, as the protocol step does |
| `GatewaySteps.Gateway.FinishLoop` | packages/tool-gateway/src/tool-gateway.ts:315-323 | closes the invocation, or stops on an unknown one, as the protocol step does |
| `GatewaySteps.Gateway.PersistClaimOutcome` | packages/tool-gateway/src/tool-gateway.ts:383-401 | keeps a claim of unknown outcome pending and stores every other result with the certainty of its submission, as the protocol step does |
| `GatewaySteps.Gateway.HandleExistingClaim` | packages/tool-gateway/src/tool-gateway.ts:356-381 | replays a completed claim and reports any other as unresolved, as the protocol step does |
| `GatewaySteps.RecordsStay` | packages/tool-gateway/src/tool-gateway.ts:259-299 | in every run the record of a caller's latest attempt is in the log, so closing it never fails |
| `GatewaySafety.RunKeepsInv` | packages/tool-gateway/src/tool-gateway.ts:201-215 | the invariant that ties claims, their holders and the provider calls made survives every interleaving |
| `GatewaySafety.AtMostOneSubmission` | packages/tool-gateway/src/tool-gateway.ts:201-215 | no two provider calls under one claim may both have had a side effect, in every interleaving with crashes |
| `GatewaySafety.MisreportingSubmitsTwice` | packages/tool-gateway/src/tool-gateway.ts:383-401 | any definite, submitted outcome labelled NOT_SUBMITTED leads to a run with two submissions |
| `GatewaySafety.AtMostOnceExactly` | packages/tool-gateway/src/tool-gateway.ts:383-401 | at-most-once holds of all runs over a set of outcomes if and only if the set has no misreported one |
| `GatewaySafety.CompletedClaimIsFinal` | packages/tool-gateway/src/tool-gateway.ts:201-215 | a completed claim holds the output of a call made under it, never changes, and no further call is made under it |
| `GatewaySafety.RejectedNeverCalls` | packages/tool-gateway/src/tool-gateway.ts:356-381 | a caller refused its claim never reaches the provider, whatever the others do |
| `GatewaySafety.DuplicateIsAnsweredFromTheClaim` | packages/tool-gateway/src/tool-gateway.ts:356-381 | a duplicate that meets a claim answers, whatever other callers do in between, with the stored output and status under its own call id, or with OUTCOME_UNKNOWN, and touches neither claims nor provider |
| `GatewayAdmission.OnlyAdmittedCalls` | packages/tool-gateway/src/tool-gateway.ts:118-180 | in every interleaving every provider call was made by a caller whose own answers, in order, resolved its tool to this definition, granted it, cleared it with the approval that was asked for, and found the provider ready |
| `GatewayAdmission.AnswersDecide` | packages/tool-gateway/src/tool-gateway.ts:88-180 | every caller stands at the first question not yet answered, is refused with the status and code of the first bad answer, or is past governance exactly when it was admitted |
| `GatewayAdmission.RefusalLeavesNoTrace` | packages/tool-gateway/src/tool-gateway.ts:88-180 | a caller not admitted, or refused, leaves claims, invocations, attempts and provider alone |
| `GatewayRules.ClaimsSharedExactly` | packages/tool-gateway/src/tool-gateway.ts:201-207 | a call takes a claim exactly when its tool asks for one and it brings a key; two calls share one exactly when tenant, tool, action and key are the same |
| `GatewayRules.StatusExactly` | packages/tool-gateway/src/tool-gateway.ts:344-354 | the status of every outcome: success, in doubt, or by its error code |
| `GatewayRules.RetryExactly` | packages/tool-gateway/src/tool-gateway.ts:326-342 | another attempt follows exactly after a retryable answer that was no success, with attempts left, and for side effects only when nothing was submitted |
| `GatewayRules.ClosingExactly` | packages/tool-gateway/src/tool-gateway.ts:284-324 | once an attempt is closed in the log its caller starts another one if and only if it may be retried, and completes its call otherwise |
| `GatewayRules.ResultExactly` | packages/tool-gateway/src/tool-gateway.ts:291-312 | what a caller is told of its last attempt: number of retries, output, error and whether to retry |
| `GatewayRules.PersistExactly` | packages/tool-gateway/src/tool-gateway.ts:383-401 | a result in doubt leaves its claim pending, any other is stored as completed or failed and as submitted unless it says otherwise |
| `GatewayRules.AcceptanceExactly` | packages/tool-gateway/src/tool-gateway.ts:216-245 | a success whose output does not fit its schema is reported and recorded as a validation error, every other result returned as it is |
| `GatewayRules.AnswersStay` | packages/tool-gateway/src/tool-gateway.ts:88-246 | what a caller was answered is final: no action of any caller changes it |
| `GatewayAttempts.RunKeepsAttempts` | packages/tool-gateway/src/tool-gateway.ts:259-299 | the invariant relating attempt records, provider calls and callers survives every interleaving |
| `GatewayAttempts.AttemptLogAtEveryPoint` | packages/tool-gateway/src/tool-gateway.ts:248-324 | at every crash point the records are 1..n, the provider calls number n or n - 1, only the last record can be open, all earlier answers allowed the retry, and n is within the limit |
| `ToolResolver.ResolvesExactly` | packages/tool-gateway/src/tool-resolution.ts:40-100 | resolution by id and by tool plus version agree, and give a definition exactly when the tenant is bound to it and it is executable |
| `ToolResolver.OnlyBindingsResolve` | packages/tool-gateway/src/tool-resolution.ts:23-100 | whatever the reference, only a visible, executable definition not shadowed for the tenant is resolved |
| `RegistryRules.VersionResolvesExactly` | packages/tool-gateway/src/tool-resolution.ts:75-97 | by tool and version: the tenant's own row, shadowing when it cannot run; else the global one; else not found |
| `RegistryRules.IdResolvesExactly` | packages/tool-gateway/src/tool-resolution.ts:40-68 | by id: not found for another tenant's row, shadowed by the tenant's own, else resolved or not executable |
| `RegistryRules.OtherReferencesResolve` | packages/tool-gateway/src/tool-resolution.ts:70-100 | a tool without a version needs one, and nothing else resolves |
| `ToolRegistry.InMemoryToolRegistry.RegisterDefinition` | packages/tool-gateway/src/in-memory-tool-registry.ts:21-38 | appends the definition, or refuses a known id or a known scope, tool and version and changes nothing |
| `ToolRegistry.InMemoryToolRegistry.Transition` | packages/tool-gateway/src/in-memory-tool-registry.ts:102-115 | moves the tenant's own row one lifecycle step forward, or refuses and changes nothing |
| `ToolRegistry.InMemoryToolRegistry.Enable` | packages/tool-gateway/src/in-memory-tool-registry.ts:117-122 | switches the tenant's own row, or refuses and changes nothing |
| `ToolRegistry.InMemoryToolRegistry.GetMutableOwn` | packages/tool-gateway/src/in-memory-tool-registry.ts:124-132 | gives exactly the row the id names when the tenant owns it |
| `ToolRegistry.InMemoryToolRegistry.DiscoverExecutable` | packages/tool-gateway/src/in-memory-tool-registry.ts:59-82 | the grouping and selecting loops offer exactly the effective, executable and capable definition of each group, in order |
| `ToolRegistry.RunsOnlyExtend` | packages/tool-gateway/src/in-memory-tool-registry.ts:21-38 | in every run ids stay unique and so do scope, tool and version; no row moves, disappears or changes its contract; lifecycles only move forward; global rows never change |
| `RegistryRules.RegisterExactly` | packages/tool-gateway/src/in-memory-tool-registry.ts:21-38 | a definition is taken exactly when id, and scope, tool and version, are new; it stands last, a draft unless told otherwise |
| `RegistryRules.TransitionExactly` | packages/tool-gateway/src/in-memory-tool-registry.ts:6-11 | a lifecycle moves exactly one step forward, on the tenant's own row alone |
| `ToolRegistry.OtherScopesUntouched` | packages/tool-gateway/src/in-memory-tool-registry.ts:124-132 | a tenant's rows change only by that tenant's own calls |
| `ToolRegistry.RetirementIsFinal` | packages/tool-gateway/src/in-memory-tool-registry.ts:6-11 | once deprecated or retired, a definition is never resolved again |
| `ToolRegistry.GroupedPartitions` | packages/tool-gateway/src/in-memory-tool-registry.ts:62-69 | the groups have distinct keys, each holds exactly the visible definitions of its key in order, and every visible definition is in one |
| `ToolRegistry.DiscoveredExactly` | packages/tool-gateway/src/in-memory-tool-registry.ts:59-82 | a definition is offered if and only if the tenant is bound to it, it is executable, the capabilities suffice and no other tool with the same key stands before it |
| `ToolRegistry.DiscoveryMatchesResolution` | packages/tool-gateway/src/in-memory-tool-registry.ts:59-100 | in every reachable registry with tool ids free of '@', offered means resolved by id and by tool plus version, with sufficient capabilities |
| `ToolRegistry.AtSignHidesATool` | packages/tool-gateway/src/in-memory-tool-registry.ts:65-68 | two tools whose ids and versions meet around an '@': both resolvable, one never offered |
| `TaskGraph.CycleSearch.Visit` | packages/domain/src/mission/mission.ts:589-607 | the depth-first search terminates on every graph; it reports a cycle only when there is one, and otherwise all it has visited is free of cycles |
| `TaskGraph.AcyclicIffGroundable` | packages/domain/src/mission/mission.ts:585-612 | no cycle exactly when every task rests on finitely many layers of dependencies |
| `TaskGraph.CheckTask` | packages/domain/src/mission/mission.ts:570-583 | no defect exactly when agent, capability and dependencies of a task are in order; otherwise a defect that is there |
| `TaskGraph.CheckIds` | packages/domain/src/mission/mission.ts:561-568 | detects a repeated id exactly |
| `TaskGraph.HasCycle` | packages/domain/src/mission/mission.ts:585-612 | reports a cycle exactly when the dependency relation has one |
| `TaskGraph.ValidateTaskGraph` | packages/domain/src/mission/mission.ts:553-615 | no error exactly for a positive version, distinct ids, named agents and capabilities, known dependencies and no cycle; otherwise the first defect, which is there |
| `Mission.MissionTask.TransitionStatus` | packages/domain/src/mission/mission-task.ts:62-74 | moves exactly along the table, otherwise changes nothing |
| `Mission.MissionAggregate.TransitionTo` | packages/domain/src/mission/mission.ts:617-629 | moves the mission exactly along the table and leaves plan and tasks alone |
| `Mission.MissionAggregate.PlanIsValid` | packages/domain/src/mission/mission.ts:191-204 | goes to EXECUTING only on a well-formed plan |
| `Mission.MissionAggregate.AddNewTask` | packages/domain/src/mission/mission.ts:351-380 | appends a new pending task or refuses: terminal mission, known id or idempotency key, blank capability |
| `Mission.MissionAggregate.Start` | packages/domain/src/mission/mission.ts:382-412 | starts a task only in an executing mission with all its dependencies completed |
| `Mission.MissionAggregate.Update` | packages/domain/src/mission/mission.ts:414-547 | completes, fails, times out, cancels or parks one task along the table and no other |
| `Mission.MissionAggregate.CarryOver` | packages/domain/src/mission/mission.ts:226-242 | a task of the new plan is new, or takes over status and output of the completed task with its id |
| `Mission.MissionAggregate.ReplanWith` | packages/domain/src/mission/mission.ts:206-259 | installs a well-formed plan with a greater version, completed work carried over, in new objects; otherwise changes nothing |
| `MissionRuns.RunKeepsScheduled` | packages/domain/src/mission/mission.ts:351-547 | the scheduling invariant survives every run |
| `MissionRuns.OnlyGroundedTasksRun` | packages/domain/src/mission/mission.ts:382-412 | in every run an active task has all its dependencies present and completed, and no task on a cycle has started or completed |
| `MissionRuns.CyclicTaskIsRefused` | packages/domain/src/mission/mission.ts:382-412 | in every reachable state starting a task on a cycle is refused |
| `MissionRuns.AddTaskCanBuildCycle` | packages/domain/src/mission/mission.ts:351-380 | a failing input: two additions build a cycle |
| `MissionPlans.NewTaskKeepsAcyclicExactly` | packages/domain/src/mission/mission.ts:585-612 | with a new task a graph is acyclic if and only if it was before and no dependency of the task is the task or has a walk to it |
| `MissionPlans.AddTaskKeepsAcyclicExactly` | packages/domain/src/mission/mission.ts:351-380 | an accepted addition leaves the plan acyclic if and only if it was and no dependency of the new task reaches it |
| `MissionPlans.CanGoOnExactly` | packages/domain/src/mission/mission.ts:382-412 | whatever was added, an executing mission whose unfinished tasks are pending can start some task if and only if a pending one rests on finitely many layers of existing tasks |
| `MissionPlans.AdditionsKeepExactly` | packages/domain/src/mission/mission.ts:553-615 | additions to a well-formed plan keep it well formed if and only if they name agents, capabilities and known dependencies and build no circle among themselves |
| `MissionPlans.PlanIsWellFormedExactly` | packages/domain/src/mission/mission.ts:191-280 | in every run from an empty mission, by whatever way it got into its status, the plan is well formed if and only if a validation or a replan accepted it (or the version was positive) and everything added since is sound |
| `MissionPlans.ResumeSkipsValidation` | packages/domain/src/mission/mission.ts:274-280 | a failing run: a task without agent, planning, then `resume`, executes a plan that validation refuses |
| `MissionPlans.PauseSkipsValidation` | packages/domain/src/mission/mission.ts:261-280 | a failing run: the same by way of `pause` and `resume` |
| `MissionPlans.AddTaskSpoilsValidatedPlan` | packages/domain/src/mission/mission.ts:351-380 | a failing run: a validated plan is spoiled by an addition while it executes |
| `MissionRuns.CompletedWorkSurvives` | packages/domain/src/mission/mission.ts:226-242 | a completed task that is still in the plan after any action, replanning included, is completed with the same output |
| `MissionRuns.NoDeadlock` | packages/domain/src/mission/mission.ts:382-412 | in an executing mission with a valid plan whose unfinished tasks are pending, some start succeeds |
| `MissionRuns.RoundsCountDown` | packages/domain/src/mission/mission.ts:382-437 | however the tasks are picked, each start-and-complete finishes exactly one |
| `MissionRuns.PlanRunsToCompletion` | packages/domain/src/mission/mission.ts:382-437 | n pending tasks are all completed after exactly n starts |
| `MissionRules.StartExactly` | packages/domain/src/mission/mission.ts:382-412 | a start is accepted if and only if the task exists, the mission is EXECUTING, every dependency is present and completed, and the task is pending, paused or awaiting approval; it changes that task's status only |
| `MissionRules.TasksRunOnlyWhileExecuting` | packages/domain/src/mission/mission.ts:382-412 | in every run a task comes to be RUNNING only by its own start, made while the mission was EXECUTING |
| `MissionRules.UpdateExactly` | packages/domain/src/mission/mission.ts:414-547 | from which status each update is accepted, and what it changes of its one task |
| `MissionRules.AddExactly` | packages/domain/src/mission/mission.ts:351-380 | a task is added if and only if the mission is not over, id and idempotency key are new and its capability is not blank |
| `MissionRules.ReplanExactly` | packages/domain/src/mission/mission.ts:206-259 | a replan is accepted if and only if the mission is not over and the plan is newer and well formed; each new task is completed with the output of its last completed namesake, or pending |
| `MissionRules.MoveExactly` | packages/domain/src/mission/mission-status.ts:15-28 | by target, the statuses a mission may come from |
| `MissionRules.OverIsFrozen` | packages/domain/src/mission/mission.ts:631-633 | a mission that is over stays so in every run, with its plan, and none of its tasks starts |
| `MissionRules.WellFormedExactly` | packages/domain/src/mission/mission.ts:553-615 | a plan is well formed if and only if its version is positive, ids differ, agents and capabilities are not blank, dependencies are in the plan and no chain of them comes back to its start |
| `BudgetLedger.InMemoryExecutionBudgetLedger.GetAccumulated` | packages/llm-gateway/src/execution-budget-ledger.ts:91-103 | the summing loop gives the total of the execution's charges |
| `BudgetLedger.InMemoryExecutionBudgetLedger.TryReserve` | packages/llm-gateway/src/execution-budget-ledger.ts:61-76 | reserves under its key exactly when the total plus the estimate is within the budget, otherwise changes nothing |
| `BudgetLedger.InMemoryExecutionBudgetLedger.CommitActual` | packages/llm-gateway/src/execution-budget-ledger.ts:78-80 | replaces the charge of one attempt |
| `BudgetLedger.InMemoryExecutionBudgetLedger.Release` | packages/llm-gateway/src/execution-budget-ledger.ts:82-84 | removes the charge of one attempt |
| `BudgetLedger.InMemoryExecutionBudgetLedger.Retain` | packages/llm-gateway/src/execution-budget-ledger.ts:86-89 | leaves every charge in place |
| `BudgetLedger.TotalOfNew` | packages/llm-gateway/src/execution-budget-ledger.ts:91-103 | the total is independent of the order of the charges: a new key adds its charge |
| `ModelRanking.RankingIgnoresCatalogOrder` | packages/llm-gateway/src/llm-router.ts:308-359 | when no two different eligible models tie on score and on the locale's order of ids, every reordering of the catalogue gives the same ranked list or the same ambiguity error |
| `ModelRanking.CatalogOrderMattersExactly` | packages/llm-gateway/src/llm-router.ts:337-358 | a ranked list is the same for every order of the catalogue if and only if no two different eligible models tie |
| `ModelRanking.TiedCatalog` | packages/llm-gateway/src/llm-router.ts:330-358 | a failing input: behind a strictly best model two models of equal score, whose different ids the locale ranks equal, are ranked in the order of the catalogue |
| `ModelRanking.RankedHeadBeatsAll` | packages/llm-gateway/src/llm-router.ts:337-358 | the list holds exactly the eligible models, in the comparator's order, and its head strictly beats all others on priority, cost and latency |
| `RankingOrder.RankedExactly` | packages/llm-gateway/src/llm-router.ts:308-328 | the list holds exactly the models that are active, large enough, structured if asked, within the budget and of the family and id asked for |
| `RankingOrder.PreferredComesFirst` | packages/llm-gateway/src/llm-router.ts:337-373 | in every ranked list a model comes before another with a higher priority number, then a higher output price, then a latency class further from the one asked for; without the capability it counts as 1000 behind |
| `RankingOrder.HeadIsPreferred` | packages/llm-gateway/src/llm-router.ts:345-358 | the model called first is preferred in these terms to all others |
| `RankingOrder.ParGoesById` | packages/llm-gateway/src/llm-router.ts:337-342 | models of which neither is preferred stand in the locale's order of ids |
| `RankingOrder.AmbiguousExactly` | packages/llm-gateway/src/llm-router.ts:344-356 | an ambiguity error names exactly the models to which none is preferred |
| `LlmRouter.CostIsProduct` | packages/llm-gateway/src/llm-router.ts:186-188 | the cost of an estimate, summed token by token, is tokens times price |
| `LlmRouter.Router.TryModel` | packages/llm-gateway/src/llm-router.ts:151-288 | one turn reserves before the call and settles after it as the reply demands |
| `LlmRouter.Router.TryModels` | packages/llm-gateway/src/llm-router.ts:151-306 | the fallback loop leaves the ledger, the attempts and the outcome the run function gives |
| `LlmRouter.Router.Invoke` | packages/llm-gateway/src/llm-router.ts:123-306 | ranking, then the loop over at most the allowed number of models |
| `LlmRouter.AttemptsArePrefix` | packages/llm-gateway/src/llm-router.ts:151-288 | the models attempted are a prefix of the ranked list; every attempt but the last was an unregistered provider or a retryable failure; and the last attempt is told for each of the outcomes, with the retryable flag of the final error |
| `RouterRules.EstimateExactly` | packages/llm-gateway/src/llm-router.ts:180-188 | what is reserved: the output price, the request's before the model's, for all tokens allowed, and at most 1024 tokens |
| `RouterRules.UsageExactly` | packages/llm-gateway/src/llm-router.ts:225-270 | what a submitted failure is charged by its usage, input and output tokens each at its price |
| `RouterRules.TurnExactly` | packages/llm-gateway/src/llm-router.ts:151-288 | one turn: when it goes on, when it stops and with what, and the one entry of the ledger it may change |
| `RouterRules.TriesAsManyAsAllowed` | packages/llm-gateway/src/llm-router.ts:146-149 | when all models have failed, exactly as many as the configuration allows were tried, best first |
| `LlmRouter.SessionAccounts` | packages/llm-gateway/src/llm-router.ts:123-306 | from any ledger, fresh calls add exactly what their attempts hold |
| `LlmRouter.BudgetConservedAndBounded` | packages/llm-gateway/src/llm-router.ts:123-306 | the accumulated charge is the sum of actual usage, retained estimates and nothing for calls that were not submitted, and exceeds the budget by at most the overshoot of the latest dispatched attempt, in cost and tokens |
| `ReasoningLoop.ProductionReasoningEngine.Reason` | packages/ai-runtime/src/reasoning/llm-reasoning-engine.ts:45-152 | the repair loop leaves the ledger, the number of calls, the reported usage and the verdict the loop function gives; a provider error with the budget's code ends the repairs |
| `ReasoningLoop.LoopIsAChain` | packages/ai-runtime/src/reasoning/llm-reasoning-engine.ts:59-121 | the loop makes its calls in a row, at most one for each attempt |
| `ReasoningLoop.CallsAreFresh` | packages/ai-runtime/src/reasoning/llm-reasoning-engine.ts:73-78 | the calls of a reasoning share execution and budget and have distinct call ids |
| `ReasoningLoop.NoRepairOnceSpent` | packages/ai-runtime/src/reasoning/llm-reasoning-engine.ts:60-71 | before every call but the first the usage reported so far is below both limits |
| `ReasoningRules.VerdictIsExplained` | packages/ai-runtime/src/reasoning/llm-reasoning-engine.ts:52-121 | every reasoning ends for the reason its verdict gives: a valid output of the last call, no valid output in all attempts, a budget used up, or the error of the last call |
| `ReasoningLoop.ReasoningStaysWithinBudget` | packages/ai-runtime/src/reasoning/llm-reasoning-engine.ts:45-152 | a whole reasoning with its repairs and fallbacks, on any ledger without its keys, adds exactly what its attempts hold and exceeds the budget by at most the overshoot of its latest dispatched attempt |
| `JsonSafety.JsonSafetyCheck.IsJsonSafe` | packages/domain/src/intelligence/lead.ts:83-96 | terminates on every finite graph; true exactly when the value is a tree of JSON data that meets nothing seen before, whose objects are then exactly what has been added |
| `JsonSafety.JsonSafetyCheck.Every` | packages/domain/src/intelligence/lead.ts:91-94 | the same for a row of values walked with one shared set |
| `JsonSafety.SafeForSnapshot` | packages/domain/src/intelligence/lead.ts:204-206 | the guard accepts exactly the trees of JSON data: no object reached along two paths, no leaf JSON cannot carry |
| `JsonSafety.RowReachesLess` | packages/domain/src/intelligence/lead.ts:110-112 | below a safe object strictly fewer objects are reachable, so the clone is well founded |
| `JsonSafety.CloneKeepsEveryPath` | packages/domain/src/intelligence/lead.ts:110-112 | the clone has the same data at every path and no other paths |
| `SchemaValidator.ValidateSchema` | packages/ai-runtime/src/output-validator/structured-output-validator.ts:79-134 | only appends to the list, exactly the complaints of the value in order |
| `SchemaValidator.SilentIffConforms` | packages/ai-runtime/src/output-validator/structured-output-validator.ts:79-134 | nothing is appended exactly when the value conforms to the schema, for all values, schemas and paths |
| `SchemaComplaints.MessagesNamePlaces` | packages/ai-runtime/src/output-validator/structured-output-validator.ts:79-134 | the messages are exactly those of the misfits: each names a place reached through values of the right shape, and says what is wrong there |
| `SchemaComplaints.RefusedExactly` | packages/ai-runtime/src/output-validator/structured-output-validator.ts:14-77 | an object is refused if and only if the schema complains of a place, a required field is missing, a forbidden text occurs, its action is not allowed or a pattern fires |
| `SchemaValidator.Validate` | packages/ai-runtime/src/output-validator/structured-output-validator.ts:14-77 | valid exactly when the output is an object, conforms, has the required fields, no forbidden text, an allowed action and sets off no pattern in its present state; gives the PII verdict, the filtered safe output and the new state of the patterns |
| `SchemaValidator.CheckOutputFields` | packages/ai-runtime/src/output-validator/structured-output-validator.ts:38-43 | stays silent exactly when every required field is present |
| `SchemaValidator.CheckForbidden` | packages/ai-runtime/src/output-validator/structured-output-validator.ts:46-51 | stays silent exactly when no forbidden text occurs |
| `PiiPatterns.DetectPii` | packages/ai-runtime/src/output-validator/structured-output-validator.ts:58-66 | finds PII exactly when some pattern fires in its present state, and leaves every pattern in the state its test leaves it in |
| `PiiPatterns.SecondLookExactly` | packages/ai-runtime/src/output-validator/structured-output-validator.ts:58-66 | a text refused once is found again by the same policy if and only if the first pattern to match it carries no flag g or y, matches once more behind its first match, or another pattern matches |
| `PiiPatterns.FlaggedPatternForgets` | packages/ai-runtime/src/output-validator/structured-output-validator.ts:58-66 | a failing input: any output, validated twice against a flagged pattern that matches the whole of it, is found the first time and not the second |
| `PiiPatterns.PolicyIsReliableExactly` | packages/ai-runtime/src/output-validator/structured-output-validator.ts:57-66 | the patterns of a policy judge every row of serialised outputs rightly if and only if none of them carries the flag g or y |
| `PromptFilter.FilterRemovesThePhrase` | packages/ai-runtime/src/output-validator/structured-output-validator.ts:136-145 | the replacement leaves the phrase, in any case of its letters, in no text, changes exactly the texts that hold it, and changes nothing the second time |
| `PromptFilter.FilterKeepsThePieces` | packages/ai-runtime/src/output-validator/structured-output-validator.ts:136-145 | a text that is clean pieces with phrases between them becomes the same pieces with the filler between them |
| `PromptFilter.IsPhraseExactly` | packages/ai-runtime/src/output-validator/structured-output-validator.ts:136-145 | the phrase counts in any mixture of small letters and capitals, and nothing else does |
| `SchemaValidator.Sanitize` | packages/ai-runtime/src/output-validator/structured-output-validator.ts:136-145 | every text directly below the output is filtered, everything else is copied |
| `SchemaValidator.SafeOutputIsSafeExactly` | packages/ai-runtime/src/output-validator/structured-output-validator.ts:136-145 | the safe output is free of the phrase if and only if no text further down holds it |
| `SchemaValidator.NestedPhraseSurvives` | packages/ai-runtime/src/output-validator/structured-output-validator.ts:136-145 | a failing input: the phrase in a text of an object inside the output is still in the safe output |
| `Encodings.Base64UrlRoundTrip` | packages/application/src/services/contact-channel-protector.ts:30-37 | every byte string survives base64url without padding (section 5 of RFC 4648) |
| `Encodings.EncodedIsUrl` | packages/application/src/services/contact-channel-protector.ts:30-32 | an encoded text stays in the base64url alphabet |
| `Encodings.HexRoundTrip` | packages/application/src/services/contact-channel-protector.ts:145-156 | keys pass through hexadecimal unchanged |
| `ProtectedChannel.CanonicalIsStable` | packages/application/src/services/contact-channel-protector.ts:105-115 | a canonical address is its own canonical form |
| `ProtectedChannel.CanonicalIsFolded` | packages/application/src/services/contact-channel-protector.ts:105-115 | a canonical address is lower-case and trimmed |
| `ProtectedChannel.AcceptedExactly` | packages/application/src/services/contact-channel-protector.ts:105-115 | whatever white space is around it, an address is accepted if and only if the first '@' of its lower-cased text stands neither at the start nor at the end, and that text is its canonical form |
| `ProtectedChannel.SameAddressSameFingerprint` | packages/application/src/services/outbound-recipient-recovery.ts:39-43 | addresses that differ only in outer white space and case have the same fingerprint under every key |
| `ChannelRules.KeyedStoreWorks` | packages/application/src/services/contact-channel-protector.ts:50-98 | with a store that holds its versions and their keys every accepted address is protected under those keys, recovered in canonical form, and its fingerprint recomputed |
| `ChannelRules.ResolvedKeyIsStored` | packages/application/src/services/protected-channel-keyring.ts:41-60 | a version resolves if and only if it is proper and 64 hexadecimal digits are stored under its name |
| `ChannelRules.FingerprintReadExactly` | packages/application/src/services/contact-channel-protector.ts:252-278 | a fingerprint envelope is read if and only if it has the format, a version and the encoding of 32 bytes |
| `ChannelRules.CiphertextReadExactly` | packages/application/src/services/contact-channel-protector.ts:280-310 | a ciphertext envelope is read if and only if it has the format, a version and the encoding of at least 29 bytes, which are vector, tag and ciphertext |
| `ChannelRules.FingerprintsApartExactly` | packages/application/src/services/contact-channel-protector.ts:200-215 | two tenants or addresses share a fingerprint under a key if and only if the digest does not tell their frames apart |
| `ChannelRules.RecoversOnlyWhatOpens` | packages/application/src/services/outbound-recipient-recovery.ts:25-29 | what was sealed for one tenant is recovered for another only if the cipher opens it with the other's frame |
| `ProtectedChannel.CiphertextRoundTrip` | packages/application/src/services/contact-channel-protector.ts:217-310 | parsing a built ciphertext envelope returns exactly version, IV, tag and ciphertext |
| `ProtectedChannel.FingerprintRoundTrip` | packages/application/src/services/contact-channel-protector.ts:200-278 | parsing a built fingerprint envelope returns exactly version and digest |
| `ProtectedChannel.ProtectUsesCurrentKeys` | packages/application/src/services/contact-channel-protector.ts:50-98 | protection succeeds exactly for a well-formed address with both current keys, and uses those keys and versions |
| `ProtectedChannel.VersionedKeysSurvive` | packages/application/src/services/protected-channel-keyring.ts:41-45 | a versioned key resolves to the same key after any rotations that keep versioned keys |
| `ProtectedChannel.RecoverableAfterRotations` | packages/application/src/services/outbound-recipient-recovery.ts:25-29 | after any number of such rotations recovery yields the canonical form of the original address |
| `ProtectedChannel.FingerprintStableAfterRotations` | packages/application/src/services/outbound-recipient-recovery.ts:39-43 | and the fingerprint recomputed under the stored version equals the stored one |
| `ProtectedChannel.RecoverableExactlyWithVersionedKey` | packages/application/src/services/outbound-recipient-recovery.ts:25-29 | with an unchanged store recovery works if and only if the current version has its own key |
| `ProtectedChannel.AliasOnlyStoreLosesAddresses` | packages/application/src/services/protected-channel-keyring.ts:31-39 | a store with versions and aliases only protects an address that cannot be recovered |
| `RankFusion.MapKeyIsFaithful` | packages/ai-runtime/src/memory/durable-memory-retriever.ts:106-111 | the text key of the map identifies memory id and version, or the chunk id |
| `RankFusion.Fuse` | packages/ai-runtime/src/memory/durable-memory-retriever.ts:101-130 | accumulating and sorting leaves one entry for each key, strictly sorted, for every constant, also one that makes a weight infinite |
| `RankFusion.FusedIsTheUnion` | packages/ai-runtime/src/memory/durable-memory-retriever.ts:104-124 | the entries are the union of the channels, each key once, with the sum of 1/(k + rank) over its places and exactly its channels |
| `RankFusion.ChannelOrderIrrelevant` | packages/ai-runtime/src/knowledge/durable-knowledge-retriever.ts:73-100 | ids, versions, scores and their order do not depend on the order of the channels |
| `RankFusion.SliceKeepsTheBest` | packages/ai-runtime/src/memory/durable-memory-retriever.ts:85-91 | every result kept precedes every result cut off |
| `RankFusion.DominanceExactly` | packages/ai-runtime/src/knowledge/durable-knowledge-retriever.ts:73-100 | a candidate ahead of another in every channel the other appears in precedes it, in all fused lists, if and only if the constant is at least -1 |
| `MessageExecution.OutreachMessageExecution.TransitionTo` | packages/domain/src/outreach/message-execution.ts:144-168 | moves exactly along the table and logs from and to |
| `MessageExecution.OutreachMessageExecution.SetDraft` | packages/domain/src/outreach/message-execution.ts:174-186 | sets draft and message id only while PENDING or DRAFTING, then asks the table |
| `MessageExecution.OutreachMessageExecution.Approve` | packages/domain/src/outreach/message-execution.ts:188-194 | records the approval id exactly from PENDING_APPROVAL |
| `MessageExecution.OutreachMessageExecution.MarkProviderAttempt` | packages/domain/src/outreach/message-execution.ts:208-215 | counts an attempt only while SENDING |
| `MessageExecution.OutreachMessageExecution.MarkFailed` | packages/domain/src/outreach/message-execution.ts:260-295 | records the failure and moves by classification and status |
| `MessageExecution.OutreachMessageExecution.MarkReconciledDelivered` | packages/domain/src/outreach/message-execution.ts:315-340 | declares the message delivered from any status and logs it |
| `MessageExecution.OutreachMessageExecution.MarkReconciledFailed` | packages/domain/src/outreach/message-execution.ts:342-364 | declares the message failed from any status and logs it |
| `MessageExecution.StepShape` | packages/domain/src/outreach/message-execution.ts:144-373 | a call logs at most one move and never goes back before approval; only an approval enters APPROVED |
| `MessageRules.CallExactly` | packages/domain/src/outreach/message-execution.ts:144-373 | for every call, from which statuses it is accepted, where it leads and what it notes, also when it is refused |
| `MessageRules.SettledStays` | packages/domain/src/outreach/message-execution-status.ts:20-42 | an execution from which no move leads keeps status and events in every run without reconciliation |
| `MessageExecution.ReloadsAreInvisible` | packages/domain/src/outreach/message-execution.ts:137-142 | a run with reloads, which clear the events, is the run of its calls, with the events kept elsewhere |
| `MessageExecution.RunsAreSound` | packages/domain/src/outreach/message-execution.ts:144-373 | in every run, reloads included, the events replay to the status, at most one approval is recorded, every in-flight status and every counted attempt has one, BOUNCED and CANCELLED never occur |
| `MessageExecution.DraftIsFrozen` | packages/domain/src/outreach/message-execution.ts:174-186 | after PENDING and DRAFTING neither message id nor draft ever changes, whatever is called and however often it is reloaded |
| `MessageExecution.ApprovedIsWhatIsSent` | packages/domain/src/outreach/message-execution.ts:188-215 | in every run with reloads, whatever is in flight or was attempted was approved, under the approval id still recorded, with exactly this draft and message id |
| `MessageExecution.NonRetryableFailureExactly` | packages/domain/src/outreach/message-execution.ts:260-295 | the statuses in which a non-retryable failure is accepted |
| `MessageExecution.RetryableFailureExactly` | packages/domain/src/outreach/message-execution.ts:272-283 | the statuses in which a retryable failure is accepted, and where it leads |
| `MessageExecution.ReconciliationNeedsNoApproval` | packages/domain/src/outreach/message-execution.ts:315-340 | a failing input: a fresh execution can be declared delivered without draft or approval |
| `MessageExecution.UnapprovedDeliveryExactly` | packages/domain/src/outreach/message-execution.ts:315-340 | in every run that ends DELIVERED, OPENED or REPLIED, no approval is on record if and only if some call declared the message delivered while there was none |
| `MessageExecution.GuardedDeliveryIsApproved` | packages/outreach/src/application/reconciliation.service.ts:32-45 | called as the reconciliation service calls it, from DELIVERY_UNKNOWN or REQUIRES_RECONCILIATION, no message arrives without exactly one approval |
| `OutreachSequence.CreateSequence` | packages/domain/src/outreach/sequence.ts:76-99 | refuses exactly what `create` refuses (contact, steps, recipient and fingerprint); any other sequence starts, drafted and logged, at the index and due time of its caller |
| `OutreachSequence.OutreachSequenceAggregate.TransitionTo` | packages/domain/src/outreach/sequence.ts:108-132 | moves exactly along the table, with one event and one version step |
| `OutreachSequence.OutreachSequenceAggregate.StartStep` | packages/domain/src/outreach/sequence.ts:150-175 | logs the current step, or refuses: not running, no step left, too early; throws for a negative index |
| `OutreachSequence.OutreachSequenceAggregate.CompleteStep` | packages/domain/src/outreach/sequence.ts:177-204 | logs the step, moves the index and completes the sequence after the last one; for an index outside the steps throws, with index and due time already moved |
| `OutreachSequence.OutreachSequenceAggregate.FailStep` | packages/domain/src/outreach/sequence.ts:206-231 | logs the failure and fails the sequence unless it can be retried; throws for an index outside the steps and then changes nothing |
| `OutreachSequence.OutreachSequenceAggregate.WaitForResponse` | packages/domain/src/outreach/sequence.ts:241-247 | waits only from RUNNING, with its deadline |
| `OutreachSequence.OutreachSequenceAggregate.LinkWorkflow` | packages/domain/src/outreach/sequence.ts:254-268 | links one workflow and refuses another |
| `OutreachSequence.RunsProgress` | packages/domain/src/outreach/sequence.ts:108-273 | in every run no step lookup fails, COMPLETED means the index is at the end, completed steps are logged once and in order, and the version counts the events |
| `OutreachSequence.CompletionMeansEveryStep` | packages/domain/src/outreach/sequence.ts:177-204 | from creation at any index within the steps the step-completed events list exactly the steps passed since then, all of them when COMPLETED |
| `OutreachSequence.VersionCountsEventsSinceLoad` | packages/domain/src/aggregate/aggregate-root.ts:36-53 | after a reload version minus loaded version counts the events emitted |
| `OutreachSequence.TerminalIsFinal` | packages/domain/src/outreach/sequence-status.ts:12-22 | a finished sequence keeps its status, index and due time |
| `SequenceRules.CallExactly` | packages/domain/src/outreach/sequence.ts:108-273 | for every call, from which statuses it is accepted, where it leads, what it notes, also when refused, and which events it logs |
| `SequenceRules.CreatableExactly` | packages/domain/src/outreach/sequence.ts:76-99 | what a new sequence needs: a contact, a step, a recipient in order and the campaign's fingerprint |
| `OutreachSequence.NeverCrashesExactly` | packages/domain/src/outreach/sequence.ts:67-99 | no run of a created sequence throws if and only if the starting index, which the caller gives, names one of the steps |
| `OutreachSequence.OutOfRangeCrashes` | packages/domain/src/outreach/sequence.ts:177-187 | a failing run: submit, approve, start, complete, from any index that names no step |
| `StoredExecutions.PrepareDraft` | packages/outreach/src/application/outreach-execution.service.ts:71-124 | reports an execution its idempotency key finds, or drafts a new one before its first save; fails or conflicts otherwise and changes no stored one |
| `StoredExecutions.DraftedAwaitsExactly` | packages/outreach/src/application/outreach-execution.service.ts:100-124 | a new execution awaits approval exactly when it was given a text; without one its rejection is refused and it is stored in DRAFTING |
| `StoredExecutions.StoredCallNeverAwaits` | packages/outreach/src/application/outreach-execution.service.ts:100-114 | no call made on stored executions brings one to await approval, or approves one that does not |
| `StoredExecutions.AggregateAwaitsExactly` | packages/domain/src/outreach/message-execution.ts:170-186 | the aggregate alone would permit it exactly while the execution is still being drafted |
| `StoredExecutions.ExpireLoaded` | apps/temporal-worker/src/activities/outreach-activities.ts:188-209 | after the load: skips what does not await approval, saves a failure, or conflicts when another save came in between, and then changes nothing |
| `StoredExecutions.ExpireApprovalWait` | apps/temporal-worker/src/activities/outreach-activities.ts:188-209 | undisturbed it expires exactly the executions that await approval and leaves all others alone |
| `StoredExecutions.ExpiryEndsTheWait` | apps/temporal-worker/src/activities/outreach-activities.ts:188-209 | an undisturbed expiry leaves no approval of the execution awaited; an awaited one has FAILED |
| `StoredExecutions.ExpiryOnlyFailsAwaited` | apps/temporal-worker/src/activities/outreach-activities.ts:188-209 | whatever calls came in between load and save, the expiry fails an execution that still awaits approval or leaves all of them alone |
| `OutreachWorkflow.WorkflowSendsAreDistinctAndBounded` | apps/temporal-worker/src/workflows/outreach-sequence-workflow.ts:70-145 | from its start, for every arrival order of signals, at most maxIterations sends, each of a signal of its own, in order of arrival |
| `OutreachWorkflow.RunsEnd` | apps/temporal-worker/src/workflows/outreach-sequence-workflow.ts:70-147 | no run makes more own moves than eight for each iteration left |
| `OutreachWorkflow.OnlyTheApprovalIsAwaitedForever` | apps/temporal-worker/src/workflows/outreach-sequence-workflow.ts:87-98 | the workflow can always go on, unless it has ended or waits for an approval without a time limit |
| `WorkflowRules.MoveLeadsExactly` | apps/temporal-worker/src/workflows/outreach-sequence-workflow.ts:70-147 | for each await, and each way to end, from which await and on which answer the workflow comes to it |
| `WorkflowRules.MoveCarriesExactly` | apps/temporal-worker/src/workflows/outreach-sequence-workflow.ts:99-145 | what a move takes along: the approval used by a send and gone after it, the reply gone once interpreted, the execution drafted, the iterations counted |
| `OutreachWorkflow.TimeoutEndsTheWait` | apps/temporal-worker/src/workflows/outreach-sequence-workflow.ts:89-95 | in every run that ends in TIMEOUT the drafted execution exists and does not await approval, whatever others did inside the expiry |
| `OutreachWorkflow.TimeoutIsLasting` | apps/temporal-worker/src/workflows/outreach-sequence-workflow.ts:89-95 | and it never does again, whatever others do afterwards |
| `OutreachWorkflow.ExpiryNeverUndoesApproval` | apps/temporal-worker/src/workflows/outreach-sequence-workflow.ts:89-95 | in every run the save of the expiry fails an execution that still awaits approval, or changes nothing |
| `OutreachWorkflow.EndLeavesAwaitedExactly` | apps/temporal-worker/src/workflows/outreach-sequence-workflow.ts:89-148 | in every run an ending leaves the drafted execution awaiting its approval if and only if it did so before and the workflow did not end by completing the expiry; a conflict in the expiry leaves none |
| `OutreachWorkflow.FailedExpiryLeavesAwaited` | apps/temporal-worker/src/workflows/outreach-sequence-workflow.ts:89-95 | a failing run: the wait times out, the expiry activity throws, and the ended workflow leaves an awaited approval behind |
| `OutreachWorkflow.AwaitedCanBeSentExactly` | apps/temporal-worker/src/workflows/outreach-sequence-workflow.ts:76-104 | in every run the message whose approval the workflow waits for can still see a provider attempt if and only if it is PENDING_APPROVAL, APPROVED or SENDING |
| `OutreachWorkflow.UnpersonalizedIsAwaited` | packages/outreach/src/application/outreach-execution.service.ts:73-107 | a failing run: after a failed personalization the execution stored in DRAFTING is found by the next draft and its approval waited for, and no continuation counts a provider attempt of it |
| `ApprovedSend.ExecuteApprovedSend` | packages/outreach/src/application/outreach-execution.service.ts:161-299 | the send up to the provider call leaves the stored execution the judgement gives, and calls the provider exactly when the judgement says so |
| `ApprovedSend.AttemptExactly` | packages/outreach/src/safety/send-safety-gate.ts:61-161 | a signal leads to a provider attempt if and only if the execution can be sent, all other checks pass, and the approval was given for this very execution and has not run out |
| `ApprovedSend.DecisionExactly` | packages/mission-orchestrator/src/application/approval-application.service.ts:85-151 | of the decisions, all signalled alike, only APPROVED leads to an attempt when everything else is in order |
| `ApprovedSend.UngivenIsRecordedExactly` | packages/outreach/src/application/outreach-execution.service.ts:206-273 | an approval that was not given is recorded on an execution that awaits one if and only if the send gets as far as the gate; the execution has then failed before submission |
| `ApprovedRuns.SubmissionsAreApproved` | packages/outreach/src/safety/send-safety-gate.ts:84-101 | in every interleaving of sends, decisions and other calls the provider is called only under approvals that were given for the very execution |
| `ApprovedRuns.RecordedApprovalIsGenuine` | packages/outreach/src/application/outreach-execution.service.ts:206-299 | in every such run a recorded approval was given for its execution unless that failed before submission, and whatever is in flight has recorded one |
| `ApprovedRuns.RejectionIsRecorded` | packages/mission-orchestrator/src/application/approval-application.service.ts:130-151 | a failing run: a rejection is signalled like an approval, recorded on the execution as one, and ends it |
| `ApprovedRules.DecidedExactly` | packages/mission-orchestrator/src/domain/approval/approval-status.ts:8-18 | which decisions an approval takes: any while undecided, any but another escalation once escalated, none after that |
| `ApprovedRules.JudgeExactly` | packages/outreach/src/application/outreach-execution.service.ts:206-299 | what a judgement saves: a denied send or one without a provider has failed before submission, a limited one waits in SENDING, an attempt is counted for its provider, everything else saves nothing |
| `ApprovedRules.StoredChangesExactly` | packages/outreach/src/application/outreach-execution.service.ts:161-299 | what is stored of an execution changes by a call made on it and by a save over the version that was loaded, and by nothing else |
| `ApprovedRules.NothingIsOverwritten` | packages/outreach/src/application/outreach-execution.service.ts:161-299 | in every interleaving no save loses an event another one wrote: what is stored of an execution only grows |
| `ApprovedRules.AttemptsAreCalls` | packages/outreach/src/application/outreach-execution.service.ts:285-299 | in every interleaving an execution counts no more attempts than the provider was called for it |
| `ApprovedRules.SubmissionsWereDecided` | packages/outreach/src/safety/send-safety-gate.ts:84-101 | every provider call was made under an approval that had been decided so, by name |
| `ApprovedRules.OneCallForAJudgement` | packages/outreach/src/application/outreach-execution.service.ts:206-299 | there are never more provider calls than judgements |
| `WorkflowSignals.PendingIsLatest` | apps/temporal-worker/src/workflows/outreach-sequence-workflow.ts:52-60 | in every run the pending approval is the latest one to arrive since the last send returned |
| `WorkflowSignals.SendGoesToDraftExactly` | apps/temporal-worker/src/workflows/outreach-sequence-workflow.ts:99-105 | a send goes to the drafted execution if and only if that latest approval names it |
| `WorkflowSignals.SignalIsSentExactly` | apps/temporal-worker/src/workflows/outreach-sequence-workflow.ts:52-105 | a signal is ever sent if and only if it did not arrive during a send and a later send begins before another signal arrives |
| `WorkflowSignals.ArrivalDuringSendIsLost` | apps/temporal-worker/src/workflows/outreach-sequence-workflow.ts:104-105 | in every run an approval that arrives during a send is never sent |
| `WorkflowSignals.OverwrittenApprovalIsLost` | apps/temporal-worker/src/workflows/outreach-sequence-workflow.ts:52-60 | in every run an approval that another follows before the next send is never sent |
| `WorkflowSignals.StaleApprovalIsSent` | apps/temporal-worker/src/workflows/outreach-sequence-workflow.ts:99-105 | a failing run: an approval of another execution that arrives first is sent in place of the draft |
| `WorkflowSignals.PendingReplyIsLatest` | apps/temporal-worker/src/workflows/outreach-sequence-workflow.ts:57-60 | in every run the pending reply is the latest one to arrive since a reply was last interpreted: neither a send nor a wait that ran out clears it |
| `WorkflowSignals.EarlyReplyIsRead` | apps/temporal-worker/src/workflows/outreach-sequence-workflow.ts:111-129 | a failing run: a reply that came before anything was sent is taken for the answer to the first send |
| `SignalHash.HashString` | packages/domain/src/intelligence/signal.ts:100-107 | the loop computes the base-31 polynomial of the code units as a signed 32-bit number, of magnitude at most 2^31 |
| `SignalHash.PolynomialAppend` | packages/domain/src/intelligence/signal.ts:102-105 | appending text shifts the polynomial by a power of 31 |
| `SignalHash.CollidesExactly` | packages/domain/src/intelligence/signal.ts:100-107 | two strings share their hash if and only if their polynomials agree up to sign modulo 2^32 |
| `SignalHash.WhatIsHashed` | packages/domain/src/intelligence/signal.ts:95-98 | what is hashed is trimmed and single-spaced before it is lower-cased, and such a text is left alone |
| `SignalHash.IdentitiesCollideExactly` | packages/domain/src/intelligence/signal.ts:89-107 | two signals share their identity if and only if their scopes read the same and the polynomials of their normalised texts agree up to sign modulo 2^32 |
| `SignalHash.ScopesApart` | packages/domain/src/intelligence/signal.ts:89-107 | scopes whose parts hold no colon never read the same |
| `SignalHash.DifferentSignalsCollide` | packages/domain/src/intelligence/signal.ts:95-107 | "az" and "b[", trimmed, single-spaced and lower-case already, share their identity in every scope |

## Left out

- Expiry times of idempotency claims: stored by the original, never consulted by `claim`.
- Clocks and timestamps: left out, or plain numbers where code compares them (due times of a sequence).
- Postgres repositories, SQL search, Azure, Graph, OpenAI and Anthropic clients: replaced by the in-memory classes, or by arbitrary answers; of the execution repository the version check is kept.
- AES-256-GCM, HMAC-SHA-256 and lower-casing: functions of a `Platform` with the laws `ProtectedChannel.Lawful` states; whether a wrong key or tenant opens is the platform's, as `ChannelRules.RecoversOnlyWhatOpens` says.
- `JSON.stringify` framing: its fields are kept apart, so it is injective by construction.
- Base64 decoding outside the encoder's range: characters outside the alphabet are passed over; further leniency of the runtime's decoder is not modelled.
- Strings with unpaired surrogates: characters are Unicode scalar values, except in `SignalHash`, which works on code units.
- Floating-point rounding and non-finite prices: costs and fusion scores are real numbers.
- GatewaySafety.AtMostOneSubmission: speaks of calls that take a claim; calls without an idempotency key, or of tools that do not require one, take none.
- GatewaySafety.CompletedClaimIsFinal: does not say that a replay equals the first caller's answer, because output validation comes after the claim is persisted.
- ToolGateway.ExecuteWithRetry: telemetry, audit ids, timestamps and error messages are not kept, and the provider's answers are given by a function of the attempt number.
- GatewayProtocol.StepCaller: resolution, policy, approval, schema checks and readiness are arbitrary answers of the environment; the steps are functions on values because other callers run in between, and `GatewaySteps` carries them out on the stores.
- Mission.MissionAggregate.TransitionTo: domain events and timestamps are not kept; `resume` and `unblock` skip validation in the original, and so they do here.
- MissionRuns.PlanRunsToCompletion: starts from tasks that are pending or completed, as the original promises nothing about failed ones.
- LlmRouter.Router.Invoke: covers a router with a ledger; usage and attempt listeners appear only as an exception they may throw, and a listener exception that itself carries the router's error type is not told apart.
- LlmRouter.BudgetConservedAndBounded: covers sequential invocations; concurrent ones that share an execution are not modelled.
- ReasoningLoop.ProductionReasoningEngine.Reason: messages, artifacts and the conversion of the output are not kept; validation is an arbitrary verdict for each attempt.
- RankFusion.Fuse: the joined channel names are kept as a set; scores are exact, and infinite where the original divides by zero.
- JsonSafety.SafeForSnapshot: sparse arrays, `toJSON` methods and property getters are not modelled.
- SchemaValidator.ValidateSchema: allowed values are strings; other members of `allowedValues` can match no string and only appear in the message.
- SchemaValidator.Validate: that a regular expression finds the same text again is not assumed; what it finds is an arbitrary function of text and index.
- PiiPatterns.DetectPii: patterns are values, so a policy that lists one and the same regular-expression object twice is not covered.
- MessageExecution.OutreachMessageExecution.TransitionTo: reasons in events and the protected recipient are not kept; the calls that only move by the table share one method.
- OutreachWorkflow.RunsEnd: counts the workflow's own moves; how long a sleep or an activity lasts is not modelled.
- OutreachWorkflow.TimeoutIsLasting: others act on stored executions by single calls under optimistic locking, as with the Postgres repository; objects shared through the in-memory one are not modelled.
- ApprovedSend.ExecuteApprovedSend: allowlist, suppression, rate limit, budget, claim and provider registry are arbitrary answers; the campaign's spend, what a duplicate send repairs and what the provider answers are calls of others on the stored execution, or left out.
- StoredExecutions.PrepareDraft: what the idempotency key finds is an arbitrary stored execution.
- Prototype-chain keys in `key in record`: records are plain maps.
- `canonicalizePhone`, `evaluate` apart from its JSON guard: straight-line code that would add only easy members.
- SignalHash.IdentitiesCollideExactly: lower-casing is an arbitrary function on code units.
- Policy outcome merging, autonomy levels, agent and campaign lifecycles, the conversation aggregate, chunking and truncation: small tables or straight-line code.
- NestJS modules, controllers, guards, worker bootstraps, migrations and prompts: wiring, I/O or text without an exact specification.
