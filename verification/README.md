# KernelJSON: verified model of the stateful core

KernelJSON admits tasks, plans and executes them, asks a human where policy says so, verifies the result
independently before completing anything, watches its own health and tells its operator. This project models the
state-heavy parts of that system in Dafny and proves what they are for. Digests and signatures are taken to be
collision free and are modelled by the values they are taken of; a database transaction is one atomic step; random
identifiers never repeat; times are integers.

| files | part of the system |
|---|---|
| `plan_graph`, `plan_validator`, `planner`, `plan_execution`, `plan_completion`, `plan_outputs`, `text`, `text_places` | plan validation (Kahn rounds and ancestor search), scheduling, the executor's loop and the completion boundary's own re-evaluation, the meaning of a plan as the solution of its equations, and what its operations compute, place by place |
| `lifecycle`, `ledger`, `ledger_runs`, `ledger_writes` | the task lifecycle, idempotent keyed writes, effects, the two completion paths over one set of tables, and the tables as their history |
| `golden`, `golden_verifier`, `golden_stores`, `golden_workflow`, `golden_safety`, `golden_completion`, `golden_outcomes`, `golden_deadline`, `golden_resolutions`, `golden_records` | the durable golden run interleaved with approve, cancel and expire calls, crashes and retries; the approval, capability and verification stores; the independent verifier; how approvals are settled and runs end |
| `alert_types`, `reducer`, `alert_engine`, `alert_ids`, `alert_pipeline`, `alert_announcements`, `outbox`, `delivery`, `delivery_results`, `delivery_worker` | alert episodes, what is announced, when two notifications derive one id, the atomic commit of state and notifications, and crash-tolerant delivery |
| `oauth_server`, `oauth_runs`, `oauth_codes`, `oauth_full`, `oauth_tokens`, `rate_limit`, `rate_limit_passes` | the authorisation server's in-memory state over whole runs, the tokens it hands out, and the rate limiter |
| `json_text`, `canonical_json`, `json_reader`, `identity_canonical`, `control_signing`, `replay_store` | canonical JSON and a reader for it, the identity digest contract, signed control requests, nonce memory |
| `env_file`, `env_merge`, `env_merge_laws`, `env_merge_command` | the runtime environment file merge and its verify command |
| `mission`, `mission_grammar` | the mission objective parser and the analysis tool's printer |

Code that updates state in place is modelled by classes and methods proved against functions on values
(`OutboxStore`, `AlertDatabase`, `AuthServer`, `RateLimiter`, `TaskLedger`, `GoldenDatabase`, `PgReplayStore`,
`AncestorSearch`, `PlanRun`); the laws about whole runs are lemmas about those functions, for every trace.

Properties the code does not have, with the condition under which it does:

* `GoldenDeadline.LateGrantFails`: a granted approval does not imply that the task runs. If the run wakes and reads
  the row while it is PENDING and not yet due on the database clock, a grant that follows is accepted although the
  task fails. `GrantedRunsUnlessReadEarly`: a granted task whose deadline step has concluded is on the approving path
  if and only if its run did not read the row early. It takes a database clock behind the workflow's:
  `SixStepsToTheDeadline` gets there, and with one clock it never happens (`OneClockGrantsRun`).
* `EnvMergeCommand.MergeOverridesExactlyWhen`: the value patterns end in `$`, which also matches before a final line
  feed, so `merge` accepts a value the file cannot hold. The merged file holds the updates exactly when no value ends
  in a line feed. `FinalLineFeedIsLost` is the failing family and `ConsoleWithFeed` one input.
* `OAuthCodes.GrantedCodeWorksIffRoom`: the consent handler ignores that the code table may be full and hands out a
  code nobody can redeem; a code works if and only if there was room. `OAuthFull.GrantedCodeCanBeDead` is a run of a
  thousand sign-ins that ends in such a code.
* `Delivery.LateOutcomeRevivesDelivered`: recording an outcome does not check that the attempt still owns the row, so
  a late failure can turn a delivered notification PENDING again; `LateOutcomeSafeIffStillClaimed` gives the condition.
* `AlertIds.IdsDistinctExactlyWhen`: two decisions can derive one notification id. Over a run of reports at
  nondecreasing times no two do if and only if no report gives two results of one check that decide alike, and no
  check opens an episode at an instant at which it already opened one. With each check once per report what remains is
  a check that alerts while its row is closed and began at this very instant (`DistinctChecksCollideExactlyWhen`);
  with strictly increasing times, two results that decide alike (`StrictTimesCollideExactlyWhen`).
  `AlertPipeline.SameInstantCollides` and `DuplicateChecksCollide` are such inputs.
* `Lifecycle.HonestClaimAccepted`: an honest completion is accepted exactly when the acceptance criteria are distinct;
  `RepeatedCriterionRefused` is one that is not. A repeated criterion also lets a result through that answers no
  criterion (`RepeatedCriterionAdmitsAnother`); with distinct criteria nothing else is accepted
  (`AcceptedExactlyWhen`).

## Model

| member | source | states |
|---|---|---|
| PlanValidator.Validate | packages/contracts/src/plan.ts:55-94 | no issue is reported exactly for plans with unique ids, a known result, locally valid steps, no step that depends on itself by any path, and every step an ancestor of the result; cycle and unused-step issues appear exactly when those facts fail |
| PlanValidator.ResolveAll | packages/contracts/src/plan.ts:72-83 | the Kahn loop ends on every input, cyclic ones included, and completes exactly on acyclic graphs with known dependencies |
| PlanValidator.AncestorSearch.Visit | packages/contracts/src/plan.ts:85-90 | the recursive search ends on every graph, adds only ids reachable from its root and leaves nothing it added unexplored |
| PlanValidator.SearchIsReachability | packages/contracts/src/plan.ts:85-93 | a finished search holds exactly the ids reachable from the result |
| PlanGraph.StuckIsCyclic | packages/contracts/src/plan.ts:72-82 | a nonempty set of steps each waiting on another of them contains a dependency cycle |
| PlanGraph.RankedIsAcyclic | packages/contracts/src/plan.ts:72-83 | numbering steps by the round that resolved them rules out every cycle |
| PlanValidator.UniqueIdsBySize | packages/contracts/src/plan.ts:57-58 | comparing set size with list length is exactly distinctness of ids |
| Planner.OrderedSteps | services/kernel/src/planner/index.ts:58-72 | a schedule exists exactly for valid plans; it holds each step once, after its dependencies, always taking the least ready id |
| Planner.ScheduleIsUnique | services/kernel/src/planner/index.ts:62-71 | the schedule depends only on the set of steps, not on the order in which they are listed |
| PlanExecution.MeaningsAgree | services/kernel/src/executor/index.ts:23-49 | a plan's equations have one solution, so every dependency-respecting order computes the same outputs |
| PlanExecution.OutputsAreText | packages/contracts/src/common.ts:4 | every output of a plan over a schema text is non-empty and already trimmed, so the trimmed summary compares equal |
| PlanExecution.PlanRun.Execute | services/kernel/src/executor/workflow.ts:342-426 | the step loop finishes exactly when no step stops it; a finished run's outputs are the plan's meaning, its rows match them and its claim is honest; a cancelled or suspended run leaves the right status |
| PlanOutputs.ExpectedGives | services/kernel/src/executor/index.ts:114-121 | UPPERCASE gives the images, in order, of the input without the white space at its ends, REVERSE the input backwards, anything else the input; the verifier's calculation gives this and nothing else does |
| PlanOutputs.ExecutedGives | services/kernel/src/executor/index.ts:36-49 | so do the executor's own functions, for the two operations they know |
| PlanOutputs.MeaningGives | services/kernel/src/executor/index.ts:23-49 | a plan's meaning, step by step: what each operation gives of the objective or of the dependency its step names |
| PlanOutputs.FinishedRunGives | services/kernel/src/executor/workflow.ts:385-426 | after a finished run each row holds its step's input and what its operation gives of it, and the claim and its evidence say the last output |
| PlanOutputs.UppercaseClaims | services/kernel/src/executor/index.ts:40-42 | a one-step UPPERCASE plan claims the objective with each character upper-cased in its place |
| PlanOutputs.UppercaseThenReverseClaims | services/kernel/src/executor/index.ts:40-45 | upper-casing and then reversing claims it backwards |
| TextPlaces.ImagesAreUpper | services/kernel/src/executor/index.ts:42 | upper-casing gives the images of the characters in order, and nothing else does |
| TextPlaces.CoreIsTrimmed | services/kernel/src/executor/index.ts:42 | trimming gives the text bared of white space at both ends, and there is only one such |
| PlanCompletion.VerifyPlanCompletion | services/kernel/src/executor/index.ts:112-153 | accepts exactly the claims for which some assignment solves the plan, matches every stored row, equals the summary and is backed by evidence |
| PlanOutputs.CertifiedGives | services/kernel/src/executor/index.ts:112-153 | a certified claim is of the recipe's plan, with one row for each step that says what its operation gives, the last output as summary, and evidence of exactly that for all it cites |
| PlanCompletion.RefusedForEveryMeaning | services/kernel/src/executor/index.ts:118-138 | a row that differs from the recomputed step is wrong for every possible meaning of the plan |
| PlanCompletion.HonestRunIsCertified | services/kernel/src/executor/workflow.ts:385-426 | the claim of an uninterrupted run is certified whatever order its rows come back in |
| PlanCompletion.RunThenVerify | services/kernel/src/executor/index.ts:54-153 | running under one schedule and verifying under another always accepts a finished run |
| Lifecycle.AcceptedIsOneToOne | packages/contracts/src/lifecycle.ts:21-45 | an accepted completion answers distinct criteria one to one, from verified evidence only |
| Lifecycle.AcceptedExactlyWhen | packages/contracts/src/lifecycle.ts:21-45 | with distinct criteria the gate accepts exactly this task's completion while it is VERIFYING, one passed result for each criterion and no other, backed by verified evidence |
| Lifecycle.RepeatedCriterionAdmitsAnother | packages/contracts/src/lifecycle.ts:30-38 | an input with a criterion listed twice whose accepted outcome holds a result that answers none |
| Lifecycle.HonestClaimAccepted | packages/contracts/src/lifecycle.ts:30-38 | an honest claim is accepted if and only if no criterion is listed twice |
| Lifecycle.RepeatedCriterionRefused | packages/contracts/src/lifecycle.ts:30-38 | an input on the failing side: one criterion listed twice refuses even the honest claim |
| Ledger.TaskLedger.Commit | services/kernel/src/ledger.ts:56-274 | one write commits whole or not at all, exactly as the keyed, immutable, gated transaction prescribes |
| LedgerWrites.CommittedWriteStores | services/kernel/src/ledger.ts:104-270 | a committed write stores its task, its evidence, its event under its key, its outcome and each step its task may write, and changes no other row of any table; any other write changes nothing |
| LedgerWrites.WriteCommitsExactlyWhen | services/kernel/src/ledger.ts:56-224 | a write commits exactly when it is well formed, its key and ids are new, and its task begins authorised and RECEIVED or goes on from where it was, completing only with its evidence complete |
| LedgerWrites.EvidenceIsWhatWasBrought | services/kernel/src/ledger.ts:230-245 | over every run the evidence table holds exactly the rows committed steps brought, each by one of them |
| LedgerWrites.StepIsAsLastWritten | services/kernel/src/ledger.ts:225-229 | a step's row is the one its task's last committed write of it carried |
| LedgerWrites.TasksWereAuthorised | services/kernel/src/ledger.ts:104-131 | every task of every run came from one committed, authorised write that created it RECEIVED with the definition it still has |
| LedgerWrites.StatusComesFrom | packages/contracts/src/lifecycle.ts:4-19 | in every run COMPLETED comes only from VERIFYING, VERIFYING only from RUNNING, and so on for each status |
| LedgerWrites.EffectStores | services/kernel/src/terminal.ts:9-18 | an effect is recorded for a live task, on its own evidence, and never changed |
| Ledger.TaskLedger.Finish | services/kernel/src/ledger.ts:43-55 | finish reads, writes, and falls back to a recorded failure exactly as prescribed |
| LedgerWrites.FinishReturnsItsOwn | services/kernel/src/ledger.ts:43-55 | on a task without outcome finish returns the outcome it stored, its own or, where completion was refused, a failure that claims nothing |
| LedgerRuns.StatusFollowsTable | packages/contracts/src/lifecycle.ts:4-19 | between any two moments of any run a task's status follows the transition table and its definition is unchanged |
| LedgerRuns.HistoryBegins | services/kernel/src/ledger.ts:104-106 | every task's status history starts at RECEIVED |
| LedgerRuns.TerminalIsFinal | packages/contracts/src/lifecycle.ts:12-14 | a terminal status never changes again |
| LedgerRuns.CompletedTasksAreProper | services/kernel/src/ledger.ts:143-219 | in every run a COMPLETED task has no unresolved effect, and an outcome that answers its distinct criteria one to one from its own evidence, whichever path completed it |
| LedgerRuns.CompletingWrite | services/kernel/src/ledger.ts:143-219 | a completing write that commits meets all of that |
| LedgerRuns.VerifyKeepsCompleted | services/kernel/src/verification-store.ts:20-119 | the other completion path establishes and keeps it too |
| LedgerWrites.VerdictStores | services/kernel/src/verification-store.ts:20-119 | final verification settles a VERIFYING task as its report says, criterion by criterion, with one event for the verdict and one for a failed report, and changes nothing else |
| LedgerRuns.EffectKeepsInv | services/kernel/src/terminal.ts:9-18 | recording an effect cannot make a completed task unresolved |
| LedgerRuns.CommittedWriteIsSettled | services/kernel/src/ledger.ts:89-98 | repeating a committed write any time later changes nothing; its key with other input changes nothing and fails |
| LedgerRuns.RetriesChangeNothing | services/kernel/src/ledger.ts:81-98 | a run with at-least-once writes ends in the same database as the same run with every retry left out |
| LedgerRuns.OutcomeIsFinal | services/kernel/src/terminal.ts:19-22 | once a task's outcome can be read it never changes, whatever is written afterwards |
| LedgerRuns.EveryReturnAgrees | services/kernel/src/ledger.ts:43-55 | all calls of finish on one task that return, in any run, return the one stored outcome |
| LedgerRuns.FinishReturnsStored | services/kernel/src/ledger.ts:43-55 | what finish returns is what is stored |
| Golden.EvaluatePolicy | services/kernel/src/policy.ts:51-134 | anything but a denial requires the request to match task, step and capability exactly; approval always names a human and a later deadline |
| Golden.PolicyFollowsItsRule | services/kernel/src/policy.ts:76-133 | the decision is that of the one rule for this tenant, principal and capability, wherever it is listed, for a bound and supported request, and a denial for every other |
| GoldenVerifier.VerifyTaskEvidence | services/kernel/src/verification.ts:38-186 | the check-by-check verifier computes the list of failed checks and, only if there are none, the evidence it rests on |
| GoldenVerifier.PassedMeans | services/kernel/src/verification.ts:101-173 | a passed report vouches for the recomputed result, an undenied policy decision on exactly this request, and, where asked for, the named human's grant of this scope in time |
| GoldenRecords.PassesExactlyWhen | services/kernel/src/verification.ts:38-186 | a report passes exactly when the rows prove the task supported, the result recomputed, the decision about this request, the receipt its own, the evidence timely and, where asked for, the grant |
| GoldenStores.GoldenDatabase.Record | services/kernel/src/approval-store.ts:26-116 | recording a policy decision is idempotent and opens a PENDING approval exactly when one is required |
| GoldenRecords.RecordsExactlyWhen | services/kernel/src/approval-store.ts:31-105 | a decision is recorded exactly when it is about this compiled task and ready step and all it names are members; it opens one PENDING approval exactly when it asks for one; a repeat changes nothing |
| GoldenStores.GoldenDatabase.Finish | services/kernel/src/approval-store.ts:185-299 | one resolve, cancel or expire: who may, what it settles and what it leaves alone |
| GoldenResolutions.CallSettlesExactlyWhen | services/kernel/src/approval-store.ts:195-243 | in every run exactly those calls settle a PENDING approval that come from whoever may make them, for this scope, an expiry not before the deadline, while the task waits or is being withdrawn |
| GoldenResolutions.SettledByOneCall | services/kernel/src/approval-store.ts:222-285 | a settled approval was settled by one call of the run, and row and evidence say for ever what that call was: EXPIRED from the deadline on; before it DENIED and withdrawn by its principal's cancel, GRANTED or DENIED as a human decision by the named approver's answer |
| GoldenResolutions.CancelledTaskWithdraws | services/kernel/src/approval-store.ts:226-245 | on a cancelled task a call before the deadline withdraws the approval, whoever makes it |
| GoldenResolutions.EndsAsSettled | services/kernel/src/golden-workflow.ts:252-268 | where a run that asked ends, from the calls alone: after an early read FAILED; else verified if granted in time, CANCELLED if withdrawn in time, FAILED if refused or expired |
| GoldenRecords.DeniedFails | services/kernel/src/golden-workflow.ts:226-229 | a run whose policy denied ends FAILED, asks nobody and verifies nothing |
| GoldenStores.GoldenDatabase.Receive | services/kernel/src/capability-store.ts:32-191 | a capability receipt is stored once, with its evidence, for the matching running step only |
| GoldenRecords.ReceivesExactlyWhen | services/kernel/src/capability-store.ts:32-191 | a receipt is stored exactly when it verifies against its request and the running step is its own; it leaves that run and that evidence and nothing else; a repeat changes nothing |
| GoldenStores.GoldenDatabase.VerifyAndFinish | services/kernel/src/verification-store.ts:20-119 | final verification stores one outcome and returns it ever after |
| GoldenRecords.VerdictStored | services/kernel/src/verification-store.ts:20-119 | the report decides: COMPLETED with every criterion met by its evidence or FAILED with none |
| GoldenSafety.ReadyMeansApproved | services/kernel/src/golden-workflow.ts:201-268 | in every interleaving and with any clocks, a task that is READY or further, stopped runs included, and needed approval has it GRANTED by the named human for exactly this request before the deadline |
| GoldenSafety.SettledMeansApproved | services/kernel/src/golden-workflow.ts:289-301 | the same holds for every task with an outcome, whatever happens afterwards |
| GoldenSafety.RunKeepsInv | services/kernel/src/golden-workflow.ts:98-301 | the invariant behind both is kept by every step, crash, retry and outside call |
| GoldenWorkflow.CallKeepsCoherence | services/kernel/src/approval-store.ts:245-285 | an approval row and its evidence always tell the same story |
| GoldenWorkflow.ResolvedOnce | services/kernel/src/approval-store.ts:214-217 | no step or call changes an approval that has left PENDING |
| GoldenOutcomes.FirstResolutionStands | services/kernel/src/approval-store.ts:202-217 | over every run an approval leaves PENDING at most once and keeps its first resolution |
| GoldenOutcomes.GrantWasGiven | services/kernel/src/approval-store.ts:203-213 | a granted approval was granted by one call of the named approver, for the recorded scope, before the deadline |
| GoldenCompletion.VerdictPasses | services/kernel/src/verification.ts:50-175 | with one clock, the rows a run leaves at its last step pass every check of the verifier |
| GoldenCompletion.RunKeepsWhole | services/kernel/src/capability-store.ts:78-191 | the receipt, its evidence and their times stay as the verifier will want them, over every run |
| GoldenOutcomes.EveryOutcomeCompletes | services/kernel/src/golden-workflow.ts:288-301 | with one clock no verified golden task ever fails: every outcome is the completion of its task with its own result |
| GoldenRecords.SummaryIsUppercase | services/kernel/src/verification-store.ts:20-119 | a completed golden task's summary is its objective with each character upper-cased in its place |
| GoldenOutcomes.VerifyingCompletes | services/kernel/src/golden-workflow.ts:288-301 | with one clock, a run that has entered VERIFYING has its task completed after any two more finished steps, whatever crashes, retries and outside calls come between them |
| GoldenDeadline.LateGrantFails | services/kernel/src/golden-workflow.ts:252-264 | after an early read of the deadline, a grant still succeeds and the task fails |
| GoldenDeadline.SixStepsToTheDeadline | services/kernel/src/golden-workflow.ts:199-254 | with a database clock behind the workflow's, such an early read is reached in six steps |
| GoldenDeadline.GrantedRunsUnlessReadEarly | services/kernel/src/golden-workflow.ts:248-268 | once the deadline step has concluded, a granted task is on the approving path if and only if its run did not read the row early; if it did, its task is FAILED with nothing verified or the next finished step makes it so |
| GoldenDeadline.OneClockNeverReadsEarly | services/kernel/src/golden-workflow.ts:236-254 | with one clock for workflow and database no run reads the row early |
| GoldenDeadline.OneClockGrantsRun | services/kernel/src/golden-workflow.ts:236-268 | so with one clock a granted task always goes on |
| GoldenDeadline.PendingMeansReadEarly | services/kernel/src/approval-store.ts:222-226 | the deadline step concludes PENDING exactly in runs that read the row early |
| Reducer.HistoryIsEpisodes | services/kernel/src/alerting/reducer.ts:32-145 | every history of one check is a sequence of closed episodes (NEW, changes of severity named after their direction, RECOVERED) and at most one open one; the open row counts the trailing alerts; a recovery is announced exactly when its episode was |
| AlertAnnouncements.DecisionsAreChanges | services/kernel/src/alerting/reducer.ts:27-145 | a check's decisions are the changes of the severity its policy gives, one each and in order; each carries that severity and the policy's message, is named after its direction, and is announced exactly when the policy announces that status and severity |
| AlertAnnouncements.ChangesExactlyAt | services/kernel/src/alerting/reducer.ts:46-121 | an observation makes a decision if and only if the policy gives it another severity than the one before |
| AlertAnnouncements.CheckIsItsHistory | services/kernel/src/alerting/reducer.ts:161-178 | whatever else is reported, a check's row and decisions are those of its own observations |
| AlertAnnouncements.OutboxTellsChanges | services/kernel/src/alerting/engine.ts:37-57 | over every run of evaluations and deliveries the outbox tells of a check exactly the announced changes of its severity |
| Outbox.BackoffGrows | services/kernel/src/alerting/outbox.ts:73-76 | successive retry delays never shrink |
| Outbox.BackoffDoubles | services/kernel/src/alerting/outbox.ts:73-76 | the first delay is the base delay and each later one twice the one before, up to the maximum |
| Outbox.ComputeBackoffMs | services/kernel/src/alerting/outbox.ts:73-76 | no delay exceeds the configured maximum |
| Outbox.EnqueuedRows | services/kernel/src/alerting/outbox-store.ts:53-66 | enqueueing adds exactly the new ids, each with its own fresh row, and touches no other |
| Outbox.OutboxStore.ListDue | services/kernel/src/alerting/outbox-store.ts:68-73 | lists due rows oldest first, at most the limit, and leaves out a due row only for older ones |
| Outbox.OutboxStore.MarkSending | services/kernel/src/alerting/outbox-store.ts:75-86 | claims exactly a due row |
| Outbox.OutboxStore.ApplyOutcome | services/kernel/src/alerting/outbox-store.ts:88-98 | writes the row unconditionally and logs one event |
| Outbox.OutboxStore.ListStaleSending | services/kernel/src/alerting/outbox-store.ts:100-104 | lists every stale row once |
| Delivery.EventLogIsAttempts | services/kernel/src/alerting/delivery-worker.ts:55-107 | in every run with crashes anywhere, a notification's log lists attempts 1 to n in order, one event each, n being the attempt count less one while SENDING, with at most one delivery |
| DeliveryResults.FinishTells | services/kernel/src/alerting/outbox.ts:94-137 | row and event tell the transport's answer: DELIVERED if accepted, POISON if refused for good or out of attempts, else PENDING after the attempt's delay |
| DeliveryResults.EventWasMade | services/kernel/src/alerting/delivery-worker.ts:55-107 | over every run each logged event was made by one step, whose answer it tells |
| DeliveryResults.DeliveredExactlyWhenAccepted | services/kernel/src/alerting/delivery-worker.ts:55-107 | over every run a notification is DELIVERED if and only if some attempt of it was accepted |
| Delivery.RetriesWait | services/kernel/src/alerting/outbox.ts:94-149 | no attempt starts before the delay its predecessor earned, on any clock |
| Delivery.AttemptsAreBounded | services/kernel/src/alerting/outbox.ts:118-164 | a row is claimed at most maxAttempts times plus once per recovery |
| Delivery.SettledForEver | services/kernel/src/alerting/outbox-store.ts:75-86 | DELIVERED and POISON rows and their logs never change again |
| Delivery.LateOutcomeSafeIffStillClaimed | services/kernel/src/alerting/pg-outbox-store.ts:88-120 | an outcome recorded late keeps the invariant if and only if its attempt still owns the row |
| Delivery.LateOutcomeRevivesDelivered | services/kernel/src/alerting/pg-outbox-store.ts:100-106 | a run in which a late failure turns a delivered row PENDING |
| DeliveryWorker.RunDeliveryWorker | services/kernel/src/alerting/delivery-worker.ts:55-107 | cut short at any store call, the worker has taken a run of the delivery machine; uncut, nothing stale is left and, with real delays and a large enough batch, nothing due |
| DeliveryWorker.DeliverRows | services/kernel/src/alerting/delivery-worker.ts:145-180 | direct delivery is a run of the same machine and touches only the named rows |
| AlertEngine.ReduceChecks | services/kernel/src/alerting/reducer.ts:161-178 | rows and decisions of a report, check by check |
| AlertEngine.AlertDatabase.PutAll | services/kernel/src/alerting/pg-state-store.ts:89-154 | rows and notifications commit together or not at all, wherever the transaction fails |
| AlertEngine.AlertDatabase.RunAlertEngine | services/kernel/src/alerting/engine.ts:37-57 | one evaluation commits exactly the next rows and the owed notifications |
| AlertIds.AlikeIffSameId | services/kernel/src/alerting/reducer.ts:32-145 | for every prior row, two results of one report derive one id if and only if they are of one check and call for the same kind of decision |
| AlertIds.IdsDistinctExactlyWhen | services/kernel/src/alerting/outbox.ts:33-47 | over every run of reports at nondecreasing times, repeated checks included, all decisions have distinct ids if and only if no report gives two results of one check that decide alike and no check opens an episode at an instant at which it already opened one |
| AlertIds.DistinctChecksCollideExactlyWhen | services/kernel/src/alerting/reducer.ts:32-69 | where each report names a check once, ids collide if and only if some check alerts while its row is closed and began at this very instant |
| AlertIds.StrictTimesCollideExactlyWhen | services/kernel/src/alerting/reducer.ts:161-178 | at strictly increasing times, ids collide if and only if some report gives two results of one check that decide alike |
| AlertIds.NotificationsDistinctWhen | services/kernel/src/alerting/outbox.ts:49-66 | in clean runs no two notifications share an id; where every check announces all it decides or nothing, ids are distinct if and only if the announcing checks' part of the run is clean |
| AlertPipeline.OutboxIsWhatWasDecided | services/kernel/src/alerting/engine.ts:37-57 | after any run of clean evaluations, aborted ones, deliveries and crashes, the outbox holds one row per committed notify-worthy decision and nothing else |
| AlertPipeline.LaterReportIsClean | services/kernel/src/alerting/reducer.ts:32-178 | after any such run, a later report that names each check once is clean |
| AlertPipeline.SameInstantCollides | services/kernel/src/alerting/outbox.ts:33-47 | a run on the failing side: alerting, healthy and alerting again within one instant give two decisions with one id |
| AlertPipeline.DuplicateChecksCollide | services/kernel/src/alerting/reducer.ts:161-178 | a report on the failing side: a new alerting check reported twice gives two decisions with one id |
| OAuthServer.OneShot.Put | apps/mcp/src/oauth/server.ts:154-159 | drops the expired, refuses when full, never evicts what is live |
| OAuthServer.OneShot.Take | apps/mcp/src/oauth/server.ts:160-165 | whatever comes back, the key is spent |
| OAuthServer.AuthServer.RedeemRefresh | apps/mcp/src/oauth/server.ts:421-438 | the refresh grant does to the server's state exactly what its specification says |
| OAuthServer.AuthServer.RedeemCode | apps/mcp/src/oauth/server.ts:413-420 | the code grant spends the code first, then checks client, address and verifier |
| OAuthTokens.TokensAnswer | apps/mcp/src/oauth/server.ts:215-227 | over every run an answer with tokens is a new access token of one hour and a new refresh token of thirty days for the requesting client, subject and scope; a refresh keeps the family, a code opens one never seen |
| OAuthTokens.ReturnedAccessWorks | apps/mcp/src/oauth/server.ts:241-253 | the access token a client was given is accepted at a later time if and only if that is within the hour and its family unrevoked |
| OAuthTokens.ReturnedRefreshWorks | apps/mcp/src/oauth/server.ts:421-438 | the refresh token it was given redeems if and only if that client presents it within thirty days, unredeemed and its family unrevoked |
| OAuthTokens.TokensComeFromSignIn | apps/mcp/src/oauth/server.ts:300-420 | every code exchange that gives tokens ends one sign-in of five requests: begun by that client with this address and challenge, signed in by the permitted subject, agreed to, each within its time |
| OAuthRuns.ForgettingIsHarmless | apps/mcp/src/oauth/server.ts:209-213 | the server that prunes its records answers every request of every run as one that never forgets |
| OAuthRuns.RefreshSucceedsExactlyWhen | apps/mcp/src/oauth/server.ts:421-438 | a refresh succeeds exactly for that client's signed, unexpired token, never redeemed before, of a family never revoked, in the run's whole history |
| OAuthRuns.AccessAcceptedExactlyWhen | apps/mcp/src/oauth/server.ts:241-253 | an access token is accepted exactly while signed, unexpired and its family unrevoked in the run's whole history |
| OAuthRuns.RefreshRedeemsOnce | apps/mcp/src/oauth/server.ts:430-437 | each refresh token redeems at most once |
| OAuthRuns.ReuseEndsTheFamily | apps/mcp/src/oauth/server.ts:430-435 | once a refresh token has been presented a second time before its expiry, every token of its family is refused for good |
| OAuthRuns.RevokedFamilyIsDead | apps/mcp/src/oauth/server.ts:426-435 | after a revocation no token of the family is ever accepted, even when the revocation record has been pruned |
| OAuthRuns.OneUnredeemedPerFamily | apps/mcp/src/oauth/server.ts:215-227 | of two refresh tokens of one family one has been redeemed |
| OAuthCodes.CodeRedeemsExactlyWhen | apps/mcp/src/oauth/server.ts:382-420 | a code is exchanged exactly when an earlier consent granted it and it was stored, it is in time, nobody authenticated has tried it since, and client, address and verifier match its sign-in |
| OAuthCodes.CodeBurns | apps/mcp/src/oauth/server.ts:413-418 | after one authenticated attempt, whatever came of it, a code never redeems |
| OAuthCodes.CodeRedeemsOnce | apps/mcp/src/oauth/server.ts:413-420 | each authorisation code redeems at most once |
| OAuthCodes.GrantedCodeWorksIffRoom | apps/mcp/src/oauth/server.ts:382-386 | a granted code, presented correctly, in time and first, works if and only if its table had room |
| OAuthFull.GrantedCodeCanBeDead | apps/mcp/src/oauth/server.ts:382-386 | a run in which the table is full at the consent: its code is handed out, presented at once, correctly and first, and refused |
| RateLimit.RateLimiter.CheckRequest | apps/mcp/src/oauth/rate-limit.ts:39-48 | the rules are taken in order up to the first refusal |
| RateLimit.TwiceTheLimitAtMost | apps/mcp/src/oauth/rate-limit.ts:51-63 | over every run any half-open interval of one window's length holds at most twice the limit of allowed takes of one key |
| RateLimitPasses.UnderTheLimitPasses | apps/mcp/src/oauth/rate-limit.ts:39-63 | a request whose client, registrations (if it is one) and everyone each took less than their limit within the last window passes and is counted against each, while the table has room |
| RateLimitPasses.RegistrationsAreLimited | apps/mcp/src/oauth/rate-limit.ts:40-47 | a registration is refused once its client's registrations have used up their limit, whatever room the other counts have |
| RateLimit.TableStaysBounded | apps/mcp/src/oauth/rate-limit.ts:55-58 | the table never exceeds its cap |
| RateLimit.SweepingIsHarmless | apps/mcp/src/oauth/rate-limit.ts:65-68 | while no take finds the table full, every request is answered as if nothing were ever swept |
| RateLimit.RetryAfterIsRight | apps/mcp/src/oauth/rate-limit.ts:60 | waiting the advised seconds is enough, and one second less is not |
| JsonText.QuotedAgree | services/kernel/src/identity/canonical.ts:12 | a JSON string reads back one way, whatever follows it (section 7 of RFC 8259) |
| JsonReader.QuotedReadsBack | services/kernel/src/identity/canonical.ts:12 | a printed string is read back by the escapes of section 7 of RFC 8259, whatever follows it |
| JsonReader.StandsForItself | services/kernel/src/identity/canonical.ts:12 | only the quote, the backslash, controls and halves of surrogate pairs are escaped, five controls in the short form |
| JsonReader.PlainReadsBack | services/kernel/src/identity/canonical.ts:11-17 | a printed document is read back as itself |
| JsonReader.CanonicalReadsBack | services/kernel/src/identity/canonical.ts:11-17 | canonical text is read back as its document with every object's keys sorted |
| JsonReader.NormalAscends | services/kernel/src/identity/canonical.ts:14-16 | the sorted document lists keys by code units at every depth and means the same |
| CanonicalJson.PlainAgree | services/kernel/src/identity/canonical.ts:11-17 | printed JSON reads back one way, whatever follows it |
| CanonicalJson.CanonicalIffSame | services/kernel/src/identity/canonical.ts:11-17 | two documents have one canonical text if and only if they differ at most in the order of object keys |
| CanonicalJson.CanonicalPrintsNormal | packages/capabilities/src/index.ts:36-49 | the canonical text is the plain text of the document with every object's keys sorted |
| IdentityCanonical.V1IffSame | services/kernel/src/identity/canonical.ts:47-75 | on the documents the versioned contract accepts, its text is their meaning and nothing else |
| IdentityCanonical.AcceptedExactlyWhen | services/kernel/src/identity/canonical.ts:47-70 | the contract accepts exactly the documents with paired surrogates and no NUL in strings, safe integers, and keys of ASCII without NUL, at every depth |
| IdentityCanonical.SameAccepted | services/kernel/src/identity/canonical.ts:47-70 | key order never decides whether a document is refused |
| ControlSigning.PayloadsNameTheirFields | services/kernel/src/control-signing.ts:115-135 | two different 13-field tuples never give one payload |
| ControlSigning.RequestIsSigned | services/kernel/src/control-signing.ts:115-166 | the payload is the domain line and a JSON array that reads back as the request's thirteen fields in order |
| ControlSigning.AuthenticatesExactlyWhen | services/kernel/src/control-signing.ts:299-349 | a request is authenticated exactly when its headers are, part by part, those the holder of that key sends for it |
| ControlSigning.SignatureBindsRequest | services/kernel/src/control-signing.ts:299-349 | a signature authenticates only the request, tenant, principal, key, moment and nonce it was made for |
| ControlSigning.SignedRequestIsAuthentic | services/kernel/src/control-signing.ts:168-200 | what the door signs, a worker with its key, tenant and principal authenticates |
| ReplayStore.PgReplayStore.Admit | services/kernel/src/control-signing.ts:225-258 | one admit records a fresh unknown nonce, else judges by the row it finds; housekeeping forgets only rows past retention |
| ReplayStore.FirstSeenOnce | services/kernel/src/control-signing.ts:225-252 | over every interleaving of the statements one assertion is first seen at most once |
| ReplayStore.FirstSeenExactlyWhen | services/kernel/src/control-signing.ts:227-235 | within retention an insert is a first sight exactly when the database clock is no further than the freshness from the moment of issue and nobody was first seen with its nonce |
| ReplayStore.PurgedIsNeverAccepted | services/kernel/src/control-signing.ts:237-253 | an assertion whose row was purged is never accepted again |
| ReplayStore.PurgedStaysStale | services/kernel/src/control-signing.ts:247-252 | while nobody else uses its nonce, a purged assertion is stale for ever |
| ReplayStore.RetainedNonceHasOneDigest | services/kernel/src/control-signing.ts:247-253 | as long as a nonce's row is stored, whatever its age, it admits only the digest it was first seen with, as a replay |
| ReplayStore.StoredForRetention | services/kernel/src/control-signing.ts:255-258 | the row of a first sight is stored for seven days at least |
| ReplayStore.RedeliveryIsReplay | services/kernel/src/control-signing.ts:225-253 | within that time a redelivery is a replay, whichever statement of its admit meets the row |
| ReplayStore.StoresDecideAlike | services/kernel/src/control-signing.ts:225-275 | over whole runs within retention the in-memory store knows and decides as the durable one |
| ReplayStore.ReplayWasFirstSeen | services/kernel/src/control-signing.ts:247-253 | whatever is accepted as a replay was accepted once before, while fresh |
| EnvMerge.Parse | scripts/runtime_env_merge.py:79-95 | a file parses exactly if it has no byte-order mark and no key twice, to the dictionary of its entries |
| EnvMergeCommand.Merge | scripts/runtime_env_merge.py:128-181 | writes exactly when every precondition holds, and its own check for lost keys never fires |
| EnvMergeCommand.MergedSays | scripts/runtime_env_merge.py:156-170 | the merged text's entries are the base's in place, overridden, then the new ones |
| EnvMergeCommand.MergeOverridesExactlyWhen | scripts/runtime_env_merge.py:142-152 | parsing the merged file gives the base overridden by the updates if and only if no update ends in a line feed |
| EnvMergeCommand.FinalLineFeedIsLost | scripts/runtime_env_merge.py:142-152 | the failing family: a valid public value with one line feed after it is admitted, and the file holds it without |
| EnvMergeCommand.ConsoleWithFeed | scripts/runtime_env_merge.py:142-152 | one such input, the alert transport given with a line feed |
| EnvMergeCommand.VerifyAcceptsMerge | scripts/runtime_env_merge.py:184-202 | verify accepts base and merged file with a set of allowed keys exactly when it covers every key whose value is not what it was, the updated keys in particular |
| EnvMergeCommand.MergedLineByLine | scripts/runtime_env_merge.py:156-170 | for every base and every admitted update, the merged file's lines are the base's in place, the updated ones rewritten, then one per new key, a blank line following a last line that ends in an unusual break |
| EnvMergeCommand.OtherLinesSurvive | scripts/runtime_env_merge.py:156-170 | for every base and every admitted update, each line that sets no updated key stands in the merged file as it was and in its order; only the last one can gain a line feed, as its end or as a blank line after it |
| EnvMerge.Problems | scripts/runtime_env_merge.py:188-196 | verify finds a problem exactly when a key is lost, changed or added without leave |
| EnvFile.SplitConcat | scripts/runtime_env_merge.py:85 | lines split where they end, whatever follows |
| Mission.ParseMissionObjective | packages/contracts/src/mission.ts:95-129 | the directive loop ends on every input and computes the parse |
| MissionGrammar.ObjectiveMeans | packages/contracts/src/mission.ts:95-129 | which objectives are refused and why, and what each accepted one means: at most one directive of one to twelve findings, up to eight without one, and its question or the default one |
| Mission.PrintedRequestParses | apps/mcp/src/tools.ts:115-152 | every request the analysis tool accepts prints to an objective that parses back to the same repository, question and count |
| Mission.AcceptedMissionsReadBack | packages/contracts/src/mission.ts:95-129 | every accepted objective's mission can be written canonically and reads back as itself |

## Left out

- PlanCompletion.VerifyPlanCompletion: the mission, brief and repository-read branches of the cited function judge outputs of runtimes that are not part of this model; the plan branch, its evidence and its summary are whole.
- Ledger.TaskLedger.Commit: the faculty, identity and plan completion checks are one parameter, the task's own evidence such a check confirmed; the plan's check is `PlanCompletion`.
- AlertIds.NotificationsDistinctWhen: one way only for the one policy that announces by status, whose silence can keep a collision of decision ids out of the outbox; for every other policy both ways.
- HTTP, Telegram, GitHub, Google and model clients, Restate transport, HTML pages, command-line parsing and configuration loaders: input and output; the handlers' steps are modelled.
- Identifiers and timestamps as text: ids are strings or numbers without the UUID shape, times are integers of the stated unit.
- The size bounds of the plan schema (1 to 32 steps): a shape check.
- Operations other than UPPERCASE, REVERSE and WAIT_FOR_EVENT in the executor: they call runtimes that are not part of this model; the validator and planner treat every operation alike.
- Faculty and identity evidence checks inside ledger completion: folded into one parameter that says which of the task's own evidence a completion check confirmed; the plan path of that check is `PlanCompletion`.
- Execution bindings, tenancy membership and principal kinds: one parameter that says whether a task or actor is authorised.
- Admission of the golden run's own task (membership and binding at its first ledger write): assumed; its other ledger writes are modelled with their keys and transitions.
- Foreign keys between evidence, events and steps, and the deferred completion trigger: the ledger's own checks imply what the proofs need. The trigger that makes terminal tasks immutable and the one that records terminal results are modelled, because readOutcome depends on them.
- Outcome completion times and failure summaries: carried by no property.
- Ties in the due list and its locale comparison: rows of one creation time come in any order.
- The policy table of the alerting module: an arbitrary function from status to severity, so the theorems hold for every table.
- Entity resolution of health checks: one entity per deployment.
- Loss of the authorisation server's memory on restart, and its registration handler: one process lifetime, with a fixed directory of clients.
- The resource parameter, form shapes, response types and scopes of the authorisation server's requests: refused before any state is touched.
- The clock is read once per request in the authorisation server and the rate limiter.
- The issuer and audience of tokens: one server signs them all with one value.
- Deriving the client address from request headers: the address is the input of the rate limiter.
- JSON numbers that are not integers, and values that are not JSON: refused by the versioned contract before they are encoded, and not in the model's document type.
- The path inside a canonical refusal message: only its kind is modelled.
- ReplayStore.PurgedIsNeverAccepted: assumes that one digest names one nonce and moment of issue, which is what `PayloadsNameTheirFields` says of the payload it is taken of.
- Reading and writing the environment files, their mode bits and undecodable bytes; fingerprints and manifests.
- Capability lengths and the trimmed input are counted in characters, not in UTF-16 code units, except in mission questions.
