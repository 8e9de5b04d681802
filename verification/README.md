# Sentient: a verified model of its protocols

Sentient triages and investigates security incidents with language models: a worker claims an
incident, a router calls a chain of models under a budget, an agent loop calls tools, detection rules
and an approval policy decide whether a human must consent, and everything is written to a
hash-chained audit log. This project models that machinery in Dafny and proves what it guarantees,
over every input, every run and every interleaving.

| module | what it models |
|---|---|
| AuditChain, AuditInsert, AuditLocks, AuditPage | the audit hash chain: verifier, insert trigger under concurrency, who waits and what commits, paged check |
| Ledger, Router, RouterLaws, Charges | usage ledger, fallback chain with schema retry, budget gate, what a call costs |
| Sessions, SessionRuns | database sessions: commit and rollback of one, and any number of open ones interleaved |
| Lifecycle, LifecycleEvents, LifecycleLaws, Writebacks, Deliveries, Terminals, LifecycleLimits | the investigation lifecycle as interleaved transactions with crashes |
| AgentLoop, Tier2 | the agent/tools cycle, and the model calls of a whole Tier-2 run |
| Json, Sanitizer | JSON values and the bounded sanitizer |
| Policy, PolicyMeaning, PolicyChecks, DetectionRules, Gate | approval policies, their meaning and validator, detection rules, the approval gate |
| StateDiff | the structural diff of two states in the replay view |
| Cursors, Pagination, Listings | page cursors, keyset pagination, the two listing endpoints |
| Scoring | evaluation scores |

Code that changes state step by step is modelled by classes and methods with loops, each proved
against a specification function; the laws are lemmas about those functions. Verify everything with
`dafny verify dfyconfig.toml`.

## Hypotheses

- The audit hash is any function that is injective, never empty and free of `|` (`AuditChain.HashOk`).
  Advisory lock keys are any function of the scope, so distinct scopes may collide.
- Providers, tools, the policy read at a resume and the database's timestamp cast are oracles: the
  theorems quantify over them.
- A graph thread keeps its state between nodes, and an interrupted node runs again from its top.
- Costs are reals rounded half up to six decimals; severities, techniques and names are strings.
- `TextsOk` asks of timestamp text that it is ASCII and holds no bar, and of UUID text that it reads back.

## Where the code and its documentation differ

- The trigger's comment (`e5f7a1b9c4d6`, lines 165-168) says the lock rules out forks. The id is drawn
  from the sequence before the lock is taken, so a scope verifies exactly when its lock order is its id
  order (`VerifiesIffLockOrderIsIdOrder`); `OvertakenForks` gives a failing schedule of three inserts.
- `BudgetExceeded` (`llm/exceptions.py`, lines 29-31) describes one check per call and an overshoot of
  one response. The gate is read before every attempt, and an attempt may add two responses.
- The evidence manifest's comment (`evidence.py`, lines 115-118) says token sums over `usage` would
  agree with the totals. They count success rows only: `SuccessTokensAreSpentIff` says exactly when the
  two agree, and `RetryIsMissingFromManifest` is a ledger on which they do not.
- `_claim_finalize` speaks of exactly-once finalizing. It is at most once (`CrashAfterClaim`), and
  `CompletedWithoutRowIff` says exactly when the terminal row is missing.
- The digest binds the joined text, not the columns, unless none of them holds a bar
  (`PinnedIffBarFree`).
- A rejected investigation can still be written back; `RejectedIsWrittenBackIff` says exactly when.
- Every attempt is said to write its row (`llm/usage.py`, line 3), and a failure to leave its trail
  (decision record 0015, line 42). Tier-2 nodes let exceptions leave their session, and Tier-1 handles
  those of its call but not those of its finalizers; rows roll back with the session, and
  `RequestsAreCommittedIff` says exactly when they survive.
- The approval node's UPDATE is described as replay safe. It also flips a finished incident when a
  resume reaches a thread that is not paused: `StepMovesForwardIff`, `StrayResumeReopens`.
- `validate_policy_shape` promises a policy without run-time errors. A short circuit on the trial
  context hides faults (`AcceptedMayRaise`), and such a fault can approve critical incidents and hold back
  lesser ones (`AcceptedFaultOpensTheGate`). The condition that does suffice is well-formedness at every node; it is
  exact for a policy together with all its sub-expressions (`WellFormedIsExact`), while for a policy taken
  alone it is sufficient only, since a fault that no context reaches never raises.

## Model

| member | source | states |
|---|---|---|
| AuditChain.VerifyChain | libs/common/src/sentient_common/audit.py:151-206 | the walk reports every row with its expected and stored hashes; it is valid exactly when every row is hashed over its columns and its predecessor, and otherwise names the first row that is not |
| AuditChain.VerdictIsShown | libs/common/src/sentient_common/audit.py:109-199 | what is shown of a row explains its verdict: ok exactly when both shown pairs agree, over the digest of the seven columns and the stored previous hash, joined by bars in that order, and the hash shown as stored one row earlier |
| AuditChain.PayloadSplits | libs/common/src/sentient_common/audit.py:109-126 | equal payload texts have equal previous hashes and equal joined columns, when hashes hold no bar |
| AuditChain.EqualHashEqualHistory | libs/common/src/sentient_common/audit.py:151-206 | one equal content hash in two verified chains forces equal positions and equal payloads all the way back |
| AuditChain.SameTipSameChain | libs/common/src/sentient_common/audit.py:109-206 | tamper evidence: verified chains with the same last content hash have the same length and the same payload at every row |
| AuditChain.PinnedIffBarFree | libs/common/src/sentient_common/audit.py:109-126 | the joined text determines the seven column texts if and only if none of them holds a bar |
| AuditChain.SameTipSameColumns | libs/common/src/sentient_common/audit.py:109-206 | a verified chain with bar-free texts is determined column by column by its last content hash, against every verified chain |
| AuditChain.ColumnsAreNotPinned | libs/common/src/sentient_common/audit.py:109-126 | any first row with a bar in a column has a verified double with the same content hash and other columns |
| AuditChain.NoForks | libs/common/src/sentient_common/audit.py:151-206 | no two rows of a verified chain share a content hash or a previous hash |
| AuditChain.VerifiedSplits | apps/api/src/sentient_api/routers/audit.py:174-185 | a chain verifies exactly when a prefix does and every later row continues it, so the row limit of the verify query is sound for the rows it reads |
| AuditInsert.InvStep | db/migrations/versions/e5f7a1b9c4d6_app_runtime_role_audit_hardening.py:160-193 | every step of any interleaving (begin, draw an id, take the scope lock and hash, commit, roll back) keeps: one lock holder per key, the committed rows chained in lock order, and each open transaction chained onto them |
| AuditInsert.ExecChained | db/migrations/versions/e5f7a1b9c4d6_app_runtime_role_audit_hardening.py:160-193 | the same over whole runs |
| AuditInsert.VerifiesIffLockOrderIsIdOrder | db/migrations/versions/e5f7a1b9c4d6_app_runtime_role_audit_hardening.py:160-193 | after any run, one scope read in id order verifies if and only if its rows took the lock in id order |
| AuditInsert.InOrderRunsVerify | db/migrations/versions/e5f7a1b9c4d6_app_runtime_role_audit_hardening.py:164-176 | when no insert is overtaken by a larger id of its scope, every scope of every run verifies and no two rows share a previous hash |
| AuditInsert.OvertakenForks | db/migrations/versions/81e2d43b3ec0_initial_schema.py:128-129 | the id is drawn before the trigger locks: three inserts in which the second id locks first fork the chain and fail verification |
| AuditInsert.AuditStore.DrawId | db/migrations/versions/81e2d43b3ec0_initial_schema.py:128-129 | takes the next id and parks the draft; nothing else changes |
| AuditInsert.AuditStore.ComputeAuditHash | db/migrations/versions/e5f7a1b9c4d6_app_runtime_role_audit_hardening.py:160-193 | blocks exactly while another transaction holds the scope key; otherwise the row gets the latest visible content hash of its scope and the digest over it |
| AuditLocks.BlockedIff | db/migrations/versions/e5f7a1b9c4d6_app_runtime_role_audit_hardening.py:164-168 | after every run an insert is blocked if and only if another open transaction holds an uncommitted row whose scope has the same lock key; commits and rollbacks let go |
| AuditLocks.CommittedIff | db/migrations/versions/e5f7a1b9c4d6_app_runtime_role_audit_hardening.py:160-196 | an insert is in the committed log, under the id it drew and with its own columns, if and only if the next end of its transaction is a commit; an insert whose transaction has ended otherwise is nowhere |
| AuditLocks.NullScopeHasNoChain | db/migrations/versions/e5f7a1b9c4d6_app_runtime_role_audit_hardening.py:170-175 | a committed row without a scope has an empty previous hash |
| AuditLocks.ViewMeans | apps/api/src/sentient_api/routers/audit.py:174-185 | the rows verified for a scope are exactly its committed rows, none lost or doubled |
| AuditPage.GroupByScope | apps/api/src/sentient_api/routers/audit.py:123-142 | the dictionary of buckets holds, for each scope present, exactly its rows in page order |
| AuditPage.MarkBucket | apps/api/src/sentient_api/routers/audit.py:145-149 | walking one bucket records the local verdict of each of its rows and disturbs no other |
| AuditPage.ChainOkById | apps/api/src/sentient_api/routers/audit.py:120-149 | every row of a page is judged against the nearest earlier row of its bucket on that page |
| AuditPage.WalkIsLocal | libs/common/src/sentient_common/audit.py:171-199 | a row's verdict in the walk of its bucket depends on that row and its predecessor only |
| AuditPage.PageVerdictIsFullVerdict | apps/api/src/sentient_api/routers/audit.py:120-149 | a row with an earlier row of its bucket on the page gets the verdict of the full walk |
| AuditPage.IntactPageFlags | apps/api/src/sentient_api/routers/audit.py:120-149 | on an intact table a page flags exactly the rows that are first of their bucket on the page while the bucket began before it |
| Ledger.RoundingCommutes | apps/orchestrator/src/sentient_orchestrator/llm/usage.py:110-127 | adding a rounded cost to a rounded total is rounding the exact sum, negative and missing costs counting as zero |
| Charges.MicrosIsNearest | db/migrations/versions/f2c8b6e1d34a_widen_cost_columns_and_retry_seq.py:50-55 | a stored cost is the nearest micro-dollar, halves away from zero |
| Ledger.UsageDb.LogUsageAttempt | apps/orchestrator/src/sentient_orchestrator/llm/usage.py:32-88 | appends one row and leaves every total alone |
| Ledger.UsageDb.UpdateInvestigationTotals | apps/orchestrator/src/sentient_orchestrator/llm/usage.py:91-127 | adds the non-negative parts to one investigation and leaves all others alone; an absent investigation is a no-op |
| Ledger.PostConserves | apps/orchestrator/src/sentient_orchestrator/llm/router.py:304-373 | posting rows keeps every total equal to the sum over the ledger |
| Ledger.LoadUsageSummary | apps/orchestrator/src/sentient_orchestrator/investigation/evidence.py:102-178 | the token sums are those of the success rows of the investigation and the attempts list is its rows in order |
| Charges.ManifestGrows | apps/orchestrator/src/sentient_orchestrator/investigation/evidence.py:102-178 | a call adds to the token sums of its investigation exactly the response it returned, and lists its own rows behind the earlier ones |
| Ledger.SuccessTokensBelowSpent | apps/orchestrator/src/sentient_orchestrator/investigation/evidence.py:131-149 | the success-only sums never exceed the sums over all rows |
| Ledger.SuccessTokensAreSpentIff | apps/orchestrator/src/sentient_orchestrator/investigation/evidence.py:115-149 | they are the totals if and only if every success row of the investigation counts no negative tokens and every other row of it counts none, for input and output tokens alike |
| Ledger.RetryIsMissingFromManifest | apps/orchestrator/src/sentient_orchestrator/investigation/evidence.py:115-149 | a rejected response before an accepted one is in the totals and not in the manifest |
| Router.LLMRouter.Call | apps/orchestrator/src/sentient_orchestrator/llm/router.py:116-195 | rejected arguments touch nothing; otherwise result, requests sent and tables left are those of the specified trace over [primary, *fallback] |
| Router.LLMRouter.Fallback | apps/orchestrator/src/sentient_orchestrator/llm/router.py:167-195 | the loop over models, gate re-read before each attempt, realises that trace |
| Router.LLMRouter.Attempt | apps/orchestrator/src/sentient_orchestrator/llm/router.py:199-387 | one attempt sends the specified requests, posts the specified rows and ends in the specified way for each provider reply |
| Router.LLMRouter.ValidateWithRetry | apps/orchestrator/src/sentient_orchestrator/llm/router.py:389-567 | an accepted body changes nothing; a rejected one costs a failure row and exactly one further request with its own row |
| Router.LLMRouter.CheckBudget | apps/orchestrator/src/sentient_orchestrator/llm/router.py:569-633 | true exactly when some active cap is met by the totals |
| Router.LLMRouter.LogFailure | apps/orchestrator/src/sentient_orchestrator/llm/router.py:635-677 | one failure row; totals grow by the response it carries, if any |
| Router.LLMRouter.LogSuccess | apps/orchestrator/src/sentient_orchestrator/llm/router.py:345-373 | one success row; totals grow by its response |
| Charges.CallCharges | apps/orchestrator/src/sentient_orchestrator/llm/router.py:296-373 | a call raises the totals of its investigation by exactly the tokens and cost of the answers to the requests it sent, rejected ones included, negative parts as zero, and no other totals |
| Charges.GateReadsCharges | apps/orchestrator/src/sentient_orchestrator/llm/router.py:569-633 | the gate before a model is closed if and only if the totals at the start of the call plus the cost of the answers so far reach an active cap |
| Charges.CallEndsIff | apps/orchestrator/src/sentient_orchestrator/llm/router.py:167-230 | the three ways a call ends without a response, each if and only if: a closed gate behind models that fell, a missing key or fatal answer, or every model fallen |
| RouterLaws.CallReturnsFirstValidModel | apps/orchestrator/src/sentient_orchestrator/llm/router.py:167-195 | a call returns (n, retry, response) if and only if model n is the first whose primary or retried body validates, all before it failed retryably and every gate up to it was open |
| RouterLaws.RowsOrdered | apps/orchestrator/src/sentient_orchestrator/llm/router.py:232-387 | a call's rows strictly increase in (attempt, retry) and belong to its role and investigation |
| RouterLaws.RowsTellReplies | apps/orchestrator/src/sentient_orchestrator/llm/router.py:232-387 | every row records the status, models, tokens and cost of the answer to its own request; aborted requests leave none |
| RouterLaws.SuccessRowIsLast | apps/orchestrator/src/sentient_orchestrator/llm/router.py:345-387 | a returning call has one success row, the last, with the returned attempt, retry and tokens; any other call has none |
| RouterLaws.ExhaustedTriedAll | apps/orchestrator/src/sentient_orchestrator/llm/router.py:167-195 | exhaustion leaves a failure row for every model |
| RouterLaws.EveryRequestHasARow | apps/orchestrator/src/sentient_orchestrator/llm/router.py:232-387 | every request sent has its own row, in order, except the one request that aborts a call |
| RouterLaws.RequestsAreBounded | apps/orchestrator/src/sentient_orchestrator/llm/router.py:167-193 | a call sends at most one request a model, two with a schema |
| RouterLaws.NoRequestBehindAClosedGate | apps/orchestrator/src/sentient_orchestrator/llm/router.py:167-171 | no request is sent in an attempt entered with an active cap already met |
| RouterLaws.CallKeepsBound | apps/orchestrator/src/sentient_orchestrator/llm/router.py:569-633 | a call keeps tokens, and micro-dollars, under cap - 1 plus the responses one attempt can add |
| RouterLaws.TwoResponseOvershoot | apps/orchestrator/src/sentient_orchestrator/llm/exceptions.py:22-32 | for either cap and every clamp a call overshoots by two responses, not by the one its exception describes |
| SessionRuns.CommittedTotalsAreLedgerSums | libs/common/src/sentient_common/db.py:54-70 | however open sessions interleave, end or are lost, in the committed tables and in what each open session sees the totals equal the ledger sums, stay non-negative and dominate the success-only sums |
| SessionRuns.TotalsNeverExceedCapByMore | apps/orchestrator/src/sentient_orchestrator/llm/router.py:569-633 | with interleaved sessions and caps that may change between calls, no total of tokens or micro-dollars, committed or seen by an open session, exceeds the largest cap - 1 by more than two responses (one when no call has a schema) |
| SessionRuns.GateLockIsNeeded | apps/orchestrator/src/sentient_orchestrator/llm/router.py:569-606 | without the row lock two sessions pass the gate on the same totals and their commits overshoot by four responses |
| SessionRuns.AloneIsCommit | libs/common/src/sentient_common/db.py:54-70 | an open session with no other beside it commits what the session does on its own, or nothing if an exception leaves it |
| SessionRuns.LostIsNothing | libs/common/src/sentient_common/db.py:54-70 | a session that is lost leaves the committed tables as they were, however far it came |
| Sessions.RequestsAreCommittedIff | apps/orchestrator/src/sentient_orchestrator/runner.py:92-175 | every request of a call is in the committed ledger if and only if the call sends none, or no model it reaches aborts, nothing after the call raises, and either the session handles the call's exceptions (Tier-1) or some model reached validates (Tier-2) |
| Sessions.RollbackHidesRows | apps/orchestrator/src/sentient_orchestrator/investigation/nodes.py:213-232 | a Tier-2 node whose model is down, or which raises after a paid response, leaves no trace of the request it sent |
| Sessions.HandlerCoversTheCallOnly | apps/orchestrator/src/sentient_orchestrator/runner.py:95-175 | Tier-1 keeps the row of a failed request when its finalizer succeeds; a finalizer that raises, after a failed or a paid call, leaves nothing |
| Lifecycle.InvStep | apps/orchestrator/src/sentient_orchestrator/investigation/runner.py:270-293 | every transaction of any worker keeps the lifecycle invariant |
| Lifecycle.RunInv | apps/orchestrator/src/sentient_orchestrator/investigation/runner.py:270-293 | the invariant holds after every run, with any crashes and redeliveries |
| LifecycleLaws.AtMostOnce | apps/orchestrator/src/sentient_orchestrator/investigation/runner.py:369-444 | one investigation per incident; at most one Tier-2 start, one analyst decision and one terminal row each; a terminal status has its terminal row and completion time |
| LifecycleLaws.CompletedNeverChanges | apps/orchestrator/src/sentient_orchestrator/investigation/runner.py:270-293 | a set completion time never changes, whatever follows |
| LifecycleLaws.StepMovesForwardIff | apps/orchestrator/src/sentient_orchestrator/investigation/nodes.py:757-769 | a step moves statuses forward if and only if it is not the approval node's unguarded flip of a finished incident |
| LifecycleLaws.DisciplinedRunsMoveForward | apps/orchestrator/src/sentient_orchestrator/investigation/nodes.py:739-835 | with resumes on paused threads only, also of a thread put back to its interrupt by a crashed resume, every status moves forward and finished ones stay |
| Writebacks.RejectedIsWrittenBackIff | apps/orchestrator/src/sentient_orchestrator/investigation/nodes.py:714-755 | with resumes on paused threads, an investigation put to a human and turned down reaches a writeback tool if and only if it delivered in a run whose resume, the last before the delivery, carried that rejection and found its policy no longer asking for a human |
| Writebacks.RejectedIsNeverWrittenBack | apps/orchestrator/src/sentient_orchestrator/investigation/nodes.py:1003-1013 | so while every resume of that investigation still finds a human needed, it is never written back |
| Writebacks.AlwaysAskedIsNeverWrittenBack | apps/orchestrator/src/sentient_orchestrator/investigation/nodes.py:714-835 | even with stray resumes, while every evaluation of its policy asks for a human |
| LifecycleEvents.EventLogs | apps/orchestrator/src/sentient_orchestrator/investigation/runner.py:369-539 | each event appends exactly its audit actions, all for its own investigation |
| Terminals.CompletedWithoutRowIff | apps/orchestrator/src/sentient_orchestrator/investigation/runner.py:270-293 | in every run a completed investigation has no terminal row if and only if a live worker still has to write the verdict it claimed, or a crash took the worker that had claimed it |
| Terminals.StatusIsAnnounced | apps/orchestrator/src/sentient_orchestrator/investigation/runner.py:447-539 | in every run a finished status is the one its only terminal row announces |
| Terminals.CompletedIff | apps/orchestrator/src/sentient_orchestrator/investigation/runner.py:270-293 | the completion time is the time of the one triage end or finalize claim that completed the investigation |
| Deliveries.CalledIff | apps/orchestrator/src/sentient_orchestrator/investigation/nodes.py:994-1117 | in every run a tool is called for an investigation in a mode if and only if a worker that a gate or resume event let through in that mode, rejections excepted, lived on to a writeback step that goes as far as its tools while nothing was written back |
| Deliveries.NotRejectedIsWrittenBackIff | apps/orchestrator/src/sentient_orchestrator/investigation/nodes.py:994-1117 | an investigation nobody turned down reaches its tools if and only if some writeback step of it goes that far |
| Deliveries.SucceededIff | apps/orchestrator/src/sentient_orchestrator/investigation/nodes.py:1117-1140 | in every run the writeback is marked succeeded if and only if one worker came to its tools with every tool answering ok, had a draft, lived on and finalized |
| Deliveries.CompleteIffDrafted | apps/orchestrator/src/sentient_orchestrator/investigation/runner.py:447-539 | the log says complete if and only if a worker with a draft verdict finalized, and failed if and only if one without did |
| Deliveries.ResumedFinalizesAfterWriteback | apps/orchestrator/src/sentient_orchestrator/investigation/runner.py:791-868 | in every run a resumed worker comes to finalizing only through its writeback step; an exception before it fails nothing |
| LifecycleLimits.PolicyChangeWritesBackRejected | apps/orchestrator/src/sentient_orchestrator/investigation/nodes.py:714-755 | without the unchanged decision it does: the resumed node re-evaluates the policy before it reads the answer |
| LifecycleLimits.CrashedOverrideIsUndone | apps/orchestrator/src/sentient_orchestrator/investigation/nodes.py:714-797 | a resumed worker that crashes before the checkpoint is resumed again with a fresh policy decision, and the rejection then stands |
| LifecycleLimits.CrashAfterClaim | apps/orchestrator/src/sentient_orchestrator/investigation/runner.py:270-284 | a crash between claim and verdict leaves a completion time and no terminal row |
| LifecycleLimits.StrayResumeReopens | apps/orchestrator/src/sentient_orchestrator/investigation/nodes.py:762-769 | without the discipline a worker overtaken by a resumed run takes the finished incident back to awaiting_approval |
| LifecycleLimits.StrayResumeWritesBackRejected | apps/orchestrator/src/sentient_orchestrator/investigation/nodes.py:739-755 | without the discipline an overtaken worker can write back a rejected investigation although every resume asked for a human |
| LifecycleLimits.Store.RunTriage | apps/orchestrator/src/sentient_orchestrator/runner.py:57-176 | succeeds exactly on a new incident, with the row, status and audit rows of its outcome; otherwise nothing changes |
| LifecycleLimits.Store.ClaimInvestigation | apps/orchestrator/src/sentient_orchestrator/investigation/runner.py:369-444 | succeeds exactly on a pending row of a triaging incident |
| LifecycleLimits.Store.ClaimResumeIntent | libs/common/src/sentient_common/resume.py:38-99 | records a decision exactly when the row exists and the log holds none |
| LifecycleLimits.Store.TryClaimFinalize | apps/orchestrator/src/sentient_orchestrator/investigation/runner.py:270-293 | wins exactly when completed_at was empty; the loser changes nothing but its own departure |
| LifecycleLimits.Store.WriteVerdict | apps/orchestrator/src/sentient_orchestrator/investigation/runner.py:447-539 | status, verdict surface and terminal row behind a won claim |
| LifecycleLimits.Store.PauseForApproval | apps/orchestrator/src/sentient_orchestrator/investigation/nodes.py:757-797 | flips and logs once, then pauses |
| AgentLoop.LoopIsBounded | apps/orchestrator/src/sentient_orchestrator/investigation/nodes.py:1146-1157 | whatever the model emits: at most MAX_TOOL_CALLS agent turns, at most MAX_TOOL_CALLS - 1 dispatched calls |
| AgentLoop.BoundIsMet | apps/orchestrator/src/sentient_orchestrator/investigation/nodes.py:281-282 | both bounds are reached by one fresh call a turn |
| AgentLoop.NoIdIsDispatchedTwice | apps/orchestrator/src/sentient_orchestrator/investigation/nodes.py:292-322 | no tool_call id is dispatched by two visits to the tools node |
| AgentLoop.ReplayDispatchesOnlyNameless | apps/orchestrator/src/sentient_orchestrator/investigation/nodes.py:311-322 | a replay of a finished tools node dispatches again exactly the calls without an id |
| AgentLoop.InvestigationState.ToolsNode | apps/orchestrator/src/sentient_orchestrator/investigation/nodes.py:285-393 | dispatches the filtered calls in order and remembers the named ones |
| AgentLoop.LoopEndsExactly | apps/orchestrator/src/sentient_orchestrator/investigation/nodes.py:1146-1157 | the cycle goes on exactly while each turn asks for tools and all calls so far stay below the cap |
| AgentLoop.FirstEmissionIsDispatched | apps/orchestrator/src/sentient_orchestrator/investigation/nodes.py:285-322 | a visit dispatches exactly its calls without an id and those whose id no earlier turn emitted |
| AgentLoop.DispatchKeepsCounts | apps/orchestrator/src/sentient_orchestrator/investigation/nodes.py:285-322 | a call that is not skipped is dispatched as often as it was emitted |
| Tier2.Ask | apps/orchestrator/src/sentient_orchestrator/llm/router.py:116-195 | one node call leaves the requests, the tables and the outcome of its trace |
| Tier2.AgentCycle | apps/orchestrator/src/sentient_orchestrator/investigation/graph.py:69-76 | the cycle of agent turns and tool visits realises the specified loop and makes one call a turn, up to the first that raises |
| Tier2.Tier2Run | apps/orchestrator/src/sentient_orchestrator/investigation/graph.py:69-82 | the run makes the calls of its script in order, up to the first that does not return, the review excepted; requests and tables are those of the calls; at most (MAX_TOOL_CALLS + 4) n + 2 r requests for chains of n and r models |
| Tier2.FinishedRunAsks | apps/orchestrator/src/sentient_orchestrator/investigation/graph.py:69-82 | a finished run has sent at least one request for the plan, each agent turn, correlate and the draft |
| Tier2.ScriptByPlace | apps/orchestrator/src/sentient_orchestrator/investigation/graph.py:69-82 | the script place by place: plan, one call with tools a turn, correlate, the draft under its schema, the review under its own role, chain and schema |
| Sanitizer.SanitizedIsCleanAndStable | apps/orchestrator/src/sentient_orchestrator/investigation/sanitizer.py:66-80 | no control character or carriage return is left, the length is capped, and sanitizing again changes nothing |
| Sanitizer.SanitizedKeeps | apps/orchestrator/src/sentient_orchestrator/investigation/sanitizer.py:74-80 | a text within the limit keeps every cleaned character, a longer one its first ones, followed by the marker |
| Sanitizer.ControlMeans | apps/orchestrator/src/sentient_orchestrator/investigation/sanitizer.py:59-63 | what is stripped is C0, DEL and C1 without tab and line ends |
| Sanitizer.CleanedConcat | apps/orchestrator/src/sentient_orchestrator/investigation/sanitizer.py:74-77 | cleaning works piece by piece wherever no CR LF pair is cut |
| Sanitizer.CleanedPieces | apps/orchestrator/src/sentient_orchestrator/investigation/sanitizer.py:63-77 | a line ending becomes a line feed, a control character vanishes, any other character stays |
| Sanitizer.WalkWithLimits | apps/orchestrator/src/sentient_orchestrator/investigation/sanitizer.py:83-126 | the recursion with loops that stop at the node cap computes the specified walk and counter |
| Sanitizer.WalkIdempotent | apps/orchestrator/src/sentient_orchestrator/investigation/sanitizer.py:83-126 | walking the output from the same depth and counter gives the same output and the same final counter, on every value |
| Sanitizer.WalkIsTame | apps/orchestrator/src/sentient_orchestrator/investigation/sanitizer.py:83-126 | the counter counts the output exactly; output size, nesting and strings stay within the caps |
| Sanitizer.WalkIsPlainWithinCaps | apps/orchestrator/src/sentient_orchestrator/investigation/sanitizer.py:83-126 | within both caps the walk is the plain map of sanitize_untrusted |
| Sanitizer.WalkIsTrimmed | apps/orchestrator/src/sentient_orchestrator/investigation/sanitizer.py:83-126 | whatever the caps cut is marked in place: nothing is dropped, reordered or renamed without a marker |
| Sanitizer.WalkSpendsBudget | apps/orchestrator/src/sentient_orchestrator/investigation/sanitizer.py:83-126 | nothing is cut before the node budget is spent |
| Sanitizer.WalkAndSanitizeContract | apps/orchestrator/src/sentient_orchestrator/investigation/sanitizer.py:129-144 | idempotent on every JSON value; at most MAX_NODES + MAX_DEPTH + 1 nodes, nesting at most MAX_DEPTH + 1, clean strings, cuts marked; the plain map within the caps, and the value itself if its strings are clean and short enough |
| Policy.WalkedNeverTooDeep | libs/common/src/sentient_common/hitl.py:187-212 | what the evaluator visits, the save-time walk visited at the same depth |
| Policy.AcceptedNeverTooDeep | libs/common/src/sentient_common/hitl.py:215-229 | an accepted policy never raises the depth error on any context |
| Policy.WellFormedNeverRaises | libs/common/src/sentient_common/hitl.py:97-168 | a policy well-formed at every node never raises where its severity fields are absent or on the ladder |
| Policy.LeafConditionIsExact | libs/common/src/sentient_common/hitl.py:123-166 | a leaf never raises on such contexts if and only if its value suits its operator |
| Policy.WellFormedIsExact | libs/common/src/sentient_common/hitl.py:97-168 | a policy and all expressions its operators evaluate are free of run-time errors if and only if it is well-formed at every node |
| Policy.ShortCircuitHidesFaults | libs/common/src/sentient_common/hitl.py:111-116 | an alternative with an unknown severity name, behind a comparison with a known one, raises exactly below that one and goes unseen from it on |
| Policy.AcceptedMayRaise | libs/common/src/sentient_common/hitl.py:215-229 | acceptance does not exclude run-time errors: for every name of the ladder some accepted policy raises on every context of lower severity |
| PolicyMeaning.LeafMeans | libs/common/src/sentient_common/hitl.py:123-166 | every leaf on every context raises exactly on operands its operator cannot take, and otherwise answers its meaning: the order of the numbers its operands are or read as, or of their ladder places, membership, occurrence |
| PolicyMeaning.PyEqMeans | libs/common/src/sentient_common/hitl.py:133-134 | equality of numbers and truth values by value, of lists by place, of dictionaries by key, and across kinds never |
| PolicyChecks.FirstDecides | libs/common/src/sentient_common/hitl.py:111-116 | the first condition that does not say "go on", raising or not, answers for the list |
| PolicyChecks.BrokenNodeRaises | libs/common/src/sentient_common/hitl.py:97-168 | a node from which no operator can be read raises on every context, with the stated error |
| PolicyChecks.WalkFindsNothingIff | libs/common/src/sentient_common/hitl.py:187-212 | the save-time walk passes if and only if every expression inside the policy has a usable operator, compares no severity as a number and lies within the depth cap |
| PolicyChecks.AcceptedLeafIff | libs/common/src/sentient_common/hitl.py:187-229 | a one-leaf policy is accepted if and only if it compares no severity as a number and does not raise on the trial context |
| PolicyMeaning.EvaluationIsMeaning | libs/common/src/sentient_common/hitl.py:97-168 | short-circuit evaluation equals the order-free meaning of the policy: every condition of an and, some condition of an or, not the condition of a not |
| DetectionRules.EvaluateRules | apps/orchestrator/src/sentient_orchestrator/investigation/detection_rules.py:64-93 | the loop returns the matches of the firing rules, in rule order |
| DetectionRules.FiringMeans | apps/orchestrator/src/sentient_orchestrator/investigation/detection_rules.py:64-93 | a rule fires when enabled, with no required technique missing and one alternative present if it lists any; its match names what it found |
| DetectionRules.RankOfMeans | apps/orchestrator/src/sentient_orchestrator/investigation/detection_rules.py:96-106 | the rank is the place on the ladder, and the lowest for other names |
| DetectionRules.MatchesAreTheFiringRules | apps/orchestrator/src/sentient_orchestrator/investigation/detection_rules.py:64-93 | a match is in the result exactly when an enabled rule with its required and any-of techniques present produced it |
| DetectionRules.MatchingIsMonotone | apps/orchestrator/src/sentient_orchestrator/investigation/detection_rules.py:64-93 | more rules and more techniques keep every match name and override |
| DetectionRules.EffectiveSeverity | apps/orchestrator/src/sentient_orchestrator/investigation/detection_rules.py:96-106 | the result is the ladder name of the highest of the agent rank and the override ranks |
| DetectionRules.EffectiveSeverityIsMonotone | apps/orchestrator/src/sentient_orchestrator/investigation/detection_rules.py:96-106 | never below the agent, rises with agent and overrides, and depends on the matches only as a set of overrides |
| Gate.Decide | apps/orchestrator/src/sentient_orchestrator/investigation/nodes.py:714-737 | the two nodes together decide by the policy over the raised draft, and any raise means a human |
| Gate.GateReadsDraft | apps/orchestrator/src/sentient_orchestrator/investigation/nodes.py:621-737 | policies over verdict, confidence and techniques ask for a human exactly when the draft says so |
| Gate.GateReadsReview | apps/orchestrator/src/sentient_orchestrator/investigation/nodes.py:621-737 | policies over the review ask exactly when the review says so |
| Gate.GateReadsRules | apps/orchestrator/src/sentient_orchestrator/investigation/nodes.py:621-737 | a policy naming a rule asks exactly when a rule of that name fires |
| Gate.GateReadsSeverity | apps/orchestrator/src/sentient_orchestrator/investigation/nodes.py:638-737 | a severity threshold asks exactly when the agent or the override of a firing rule reaches it |
| Gate.EvaluationMoves | libs/common/src/sentient_common/hitl.py:111-165 | a more alarming context moves an escalating policy one way only, through and, or and not |
| Gate.EscalationNeverOpensTheGate | apps/orchestrator/src/sentient_orchestrator/investigation/nodes.py:621-737 | adding techniques, adding enabled rules or raising the severity never turns "human required" into "auto" for an escalating policy |
| Gate.EscalatingPolicyNeverFallsBack | apps/orchestrator/src/sentient_orchestrator/investigation/nodes.py:714-737 | such a policy always decides the gate itself |
| Gate.AcceptedFaultOpensTheGate | apps/orchestrator/src/sentient_orchestrator/investigation/nodes.py:716-737 | an accepted policy can invert the gate: a human is asked exactly for drafts whose raised severity is below the named one, critical ones are approved automatically, for every draft, review and rule set |
| StateDiff.DiffValues | apps/web/src/components/replay/StateDiff.tsx:26-74 | the accumulator receives exactly the specified entries after what it held |
| StateDiff.UniqueKeys | apps/web/src/components/replay/StateDiff.tsx:57 | the key set keeps first occurrences in order |
| StateDiff.UniqueKeepsOrder | apps/web/src/components/replay/StateDiff.tsx:57 | its elements come in the order of their first occurrences |
| StateDiff.StepsAreTheChildren | apps/web/src/components/replay/StateDiff.tsx:43-70 | the walk visits every child of either value, once |
| StateDiff.EmptyIffSameValue | apps/web/src/components/replay/StateDiff.tsx:26-74 | nothing is reported if and only if the two values are equal, key order aside |
| StateDiff.ReportedEntriesAreTrue | apps/web/src/components/replay/StateDiff.tsx:44-72 | an added value exists only after, a removed one only before, a changed one in both and differs, at the path reported |
| StateDiff.ReportedPathsArePrefixFree | apps/web/src/components/replay/StateDiff.tsx:26-74 | no reported path is a prefix of another |
| StateDiff.ReportIsInOrder | apps/web/src/components/replay/StateDiff.tsx:43-70 | at every level entries come in the order of indices, and of keys as the two objects first name them |
| StateDiff.DiffDeterminesAfter | apps/web/src/components/replay/StateDiff.tsx:26-74 | `before` and the diff determine `after` |
| Cursors.DecodeOfEncode | apps/api/src/sentient_api/deps.py:75-87 | base64url decoding undoes encoding on every byte string |
| Cursors.EncodedIsUrlSafe | apps/api/src/sentient_api/deps.py:77 | the text uses only letters, digits, `-`, `_` and padding |
| Cursors.RfcVectors | apps/api/src/sentient_api/deps.py:77 | the vectors of section 10 of RFC 4648 and the two URL-safe characters of its section 5 |
| Cursors.AlphabetIsTable2 | apps/api/src/sentient_api/deps.py:77 | the alphabet is that of table 2 in section 5 of RFC 4648 |
| Cursors.IntCursorIsRejectedIff | apps/api/src/sentient_api/deps.py:80-87 | an id cursor is rejected if and only if it is no padded base64url text of an ASCII decimal number |
| Cursors.UuidTsCursorIsRejectedIff | apps/api/src/sentient_api/deps.py:96-104 | a pair cursor stands for a pair if and only if it is base64url text with a UUID behind its first bar |
| Cursors.IntCursorRoundTrip | apps/api/src/sentient_api/deps.py:75-87 | every id survives its cursor |
| Cursors.UuidTsCursorRoundTrip | apps/api/src/sentient_api/deps.py:90-104 | every (timestamp, uuid) pair survives its cursor |
| Pagination.PageIsInterval | apps/api/src/sentient_api/routers/audit.py:111-169 | a page holds exactly the rows past its cursor and not past the next, in order, at most the limit |
| Pagination.NeverRepeats | apps/api/src/sentient_api/routers/audit.py:111-169 | whatever changes between fetches, nothing is shown twice and the order holds |
| Pagination.PassedIsNeverShown | apps/api/src/sentient_api/routers/audit.py:111-113 | a row not shown when the cursor passed its key is never shown |
| Pagination.ScrollIsComplete | apps/api/src/sentient_api/routers/audit.py:167-171 | while rows are only appended, the pages add up to the first n * limit rows, and to the whole table at the end |
| Pagination.ScrollTerminates | apps/api/src/sentient_api/routers/audit.py:167-171 | following the cursor ends once the table fits the pages fetched |
| Pagination.FixedTableScroll | apps/api/src/sentient_api/routers/investigations.py:242-248 | on a fixed table the client is done exactly when enough pages were fetched, and holds everything |
| Listings.ListAudit | apps/api/src/sentient_api/routers/audit.py:90-171 | the handler computes the specified reply: 400 on a malformed cursor, otherwise the filtered page past the cursor and the encoded next one |
| Listings.ListInvestigations | apps/api/src/sentient_api/routers/investigations.py:161-250 | the same over (started_at, id) descending, with the timestamp read by the database |
| Listings.AuditListingMeans | apps/api/src/sentient_api/routers/audit.py:95-117 | the filtered log holds exactly the rows that pass each parameter given |
| Listings.InvestigationListingMeans | apps/api/src/sentient_api/routers/investigations.py:176-198 | the filtered table holds exactly the started rows that pass each parameter given, under their position |
| Listings.ClientFollowsScroll | apps/api/src/sentient_api/routers/audit.py:111-171 | a client passing cursor text back never fails and holds what following positions holds |
| Listings.AuditClientSeesEverything | apps/api/src/sentient_api/routers/audit.py:111-171 | end to end: with larger ids appended between requests the client ends with the whole filtered table, in order, no skip or repeat |
| Listings.InvestigationClientSeesEverything | apps/api/src/sentient_api/routers/investigations.py:194-248 | end to end on a fixed table: the whole filtered listing after exactly the pages needed, newest first |
| Scoring.F1IsDice | evals/harness/scoring.py:83-116 | F1 is twice the matches over the sum of both set sizes, lies in [0, 1] and is 1 exactly when the sets are equal |
| Scoring.PartsAddUp | evals/harness/scoring.py:83-116 | precision and recall are the matched shares of what was named and expected; missed and extra are what the other side lacks |
| Scoring.SeverityScoreGrades | evals/harness/scoring.py:70-80 | full marks for the expected severity only, half marks exactly for a neighbour on the scale, none otherwise |
| Scoring.PerfectScoreIff | evals/harness/scoring.py:119-159 | with positive weights summing to one the overall score is in [0, 1], and 1 exactly for a right verdict, severity and technique set |
| Scoring.FailBuckets | evals/harness/scoring.py:182-185 | each bucket counts its category, only occurring categories have one, and the counts add up to the categorised incidents |
| Scoring.Summarize | evals/harness/scoring.py:162-199 | the overall mean is the weighted sum of the verdict, MITRE and severity means; passes compare means with thresholds |
| Scoring.SumConcat | evals/harness/scoring.py:162-199 | every sum is its value on one incident and adds over lists |
| Scoring.CostsAddUp | evals/harness/scoring.py:162-199 | the total cost grows by each known cost, an unknown one counting as zero |

## Left out

- HTTP transport, Redis queues, object storage, the SIEM connector, tracing and prompt construction: foreign calls, replaced by oracles or omitted.
- Row-level security, roles, authentication, administration endpoints, seeds, report rendering and web pages other than the state diff: configuration or presentation.
- SHA-256: idealised as an injective function; collisions are outside the model.
- Integer width: ledger and totals columns are unbounded here, so a column overflow that the database would raise is not modelled.
- Latency, timestamps as instants and generation ids: opaque or omitted; no claim depends on them.
- AuditInsert.InOrderRunsVerify: scopes are strings; a NULL scope has no chain in the trigger's query and none here.
- AuditInsert.AuditStore.ComputeAuditHash: one row per transaction waits at a time; READ COMMITTED visibility at the moment the lock is granted is assumed.
- SessionRuns.TotalsNeverExceedCapByMore: a call is one step of its session, since it reads no total but the one whose row it locks; only waits that matter to a total are modelled, so more interleavings are allowed than the database admits.
- Lifecycle.RunInv: the approval node's flip and the pause of its thread are one step, and the finding and thread columns beside the claim are not kept.
- Writebacks.RejectedIsWrittenBackIff: resumes fire on paused threads; without that only `AlwaysAskedIsNeverWrittenBack` is claimed, and `StrayResumeWritesBackRejected` shows what can happen.
- LifecycleLaws.StepMovesForwardIff: a resume of any started thread is let re-enter the approval node, finished threads included, which is more than a graph thread does; the counterexamples resume only a thread that has not passed that node.
- LifecycleLimits.Store.WriteVerdict: verdict, review and approval columns are not kept beyond the writeback flag.
- LifecycleLimits.Store.PauseForApproval: the approval_status column is not kept, and the flip and the pause are one step.
- LifecycleLimits.Store.ClaimResumeIntent: the endpoint's pre-flight status check only narrows when it is reached and is omitted; recording and queueing are one step, so a decision lost between them is not modelled.
- The `failed` incident status: no modelled transaction writes it.
- Tier2.Tier2Run: a straight run; nodes executed again after a crash cost further requests.
- AgentLoop.InvestigationState.ToolsNode: tool names, arguments and results are omitted; an unknown tool and a failing one are dispatched calls like any other.
- Sanitizer.WalkWithLimits: strings are sequences of Unicode scalar values; tuples, sets and other values outside JSON are not represented.
- Policy.WellFormedNeverRaises: numbers are reals, so infinities, NaN and integers too large for a float (whose conversion raises an error the gate does not catch) are not represented; text-to-number conversion is a parameter.
- DetectionRules.EvaluateRules: the matched technique tuples are sets, so their sorted order is not kept; loading the rules is omitted.
- Gate.EscalationNeverOpensTheGate: verdict, confidence and review are held fixed; raising them is not an escalation the policy language orders.
- StateDiff.DiffValues: paths are sequences of steps, not text, in which a key holding a dot or bracket could collide; keys that every JavaScript object inherits, and the shortcut on identical references, which reports nothing either way, are not represented.
- Cursors.DecodeOfEncode: the decoder accepts well-formed base64url and plain decimals only; the libraries also accept stray characters, blanks, underscores and signs, which no encoder here emits.
- Cursors.IntCursorIsRejectedIff: the decoder meant is the strict one above; the libraries accept more texts for the same numbers.
- Cursors.UuidTsCursorIsRejectedIff: text in a pair cursor is ASCII; other UTF-8 text before the bar, which the database then refuses as a timestamp, is rejected here already.
- Listings.ListAudit: the database's ORDER BY id is assumed, the table arriving in id order.
- Listings.ListInvestigations: the database's ORDER BY is assumed, rows arriving in listing order; joined incident columns are fields of the row.
- Pagination.ScrollIsComplete: rows committed late with a smaller id are excluded by hypothesis; `PassedIsNeverShown` states what happens to them.
- Scoring.Summarize: reals for floats; a NULL cost counts as zero in the total.
- The capability catalogue, field mapping and technique filtering: settled by reading, without hard properties.
