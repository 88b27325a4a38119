/** The durable golden run, step by step, with approve, cancel and expire calls in between. */
module GoldenWorkflow {
  import opened Options
  import opened Lifecycle
  import opened Text
  import opened Golden
  import opened GoldenVerifier
  import opened GoldenStores

  /** What a compiled submission fixes before the run starts; the ids are drawn once and journaled. */
  datatype Job = Job(task: Task, stepId: Id, runId: Id, decisionId: Id, receiptId: Id)

  predicate ValidJob(job: Job) {
    && job.task.status.Received? && job.task.lowRisk && job.task.constraints == [] && !job.task.budgeted && job.task.deadline.None?
    && job.task.criteria == [CRITERION] && IsText(job.task.objective)
  }

  function RequestOf(job: Job): Invocation {
    Invocation(job.runId, job.task.id, job.stepId, Trace(job.task.traceId, job.task.id), UPPERCASE, RECIPE_KEY, job.task.objective)
  }

  function StepIn(job: Job, status: TaskStatus, output: Option<string>): Step {
    Step(job.stepId, job.task.id, status, true, true, [], [UPPERCASE], job.task.objective, output, RECIPE_KEY)
  }

  function TaskIn(job: Job, status: TaskStatus): Task {
    job.task.(status := status)
  }

  datatype Stage =
    | Creating | Compiling | Evaluating | Recording | Denying | Asking | Awaiting | Resolving | Rejecting | Approving | Readying
    | Starting | StampingReceipt | Executing | Receiving | CompletingStep | EnteringVerification | StampingVerdict | Finishing
    | Ended | Stopped

  /** The journal: where the run is, and what its finished steps returned. */
  datatype Journal = Journal(
    stage: Stage, evaluation: Option<Evaluation>, resolution: Option<Resolution>, recordedAt: Option<Time>,
    result: Option<CapabilityResult>, verifiedAt: Option<Time>, outcome: Option<Outcome>)

  datatype World = World(rows: Rows, journal: Journal)

  /** `Advance` runs the current step; `Crashed` runs it, but the process dies before journaling it,
      so it will run again. */
  datatype Action =
    | Advance(now: Time, evidenceId: Id)
    | Crashed(now: Time, evidenceId: Id)
    | Outside(call: Call, now: Time, evidenceId: Id)

  /** The ledger write of a stage: its key, the task's new status, and the step if it changes. */
  datatype Emission = Emission(key: EventKey, status: TaskStatus, step: Option<Step>)

  function EmissionOf(job: Job, j: Journal): Option<Emission> {
    match j.stage
    case Creating => Some(Emission(KCreate, Received, None))
    case Compiling => Some(Emission(KCompile, TaskStatus.Compiled, Some(StepIn(job, Ready, None))))
    case Denying => Some(Emission(KDeny, TaskStatus.Failed, None))
    case Asking => Some(Emission(KAsk, ApprovalRequired, None))
    case Rejecting => Some(Emission(KReject, if Withdrew(j) then TaskStatus.Cancelled else TaskStatus.Failed, None))
    case Approving => Some(Emission(KApproved, Ready, None))
    case Readying => Some(Emission(KReady, Ready, None))
    case Starting => Some(Emission(KStart, Running, Some(StepIn(job, Running, None))))
    case CompletingStep =>
      if j.result.None? then None else Some(Emission(KStepComplete, Running, Some(StepIn(job, TaskStatus.Completed, Some(j.result.value.output)))))
    case EnteringVerification => Some(Emission(KVerify, Verifying, None))
    case _ => None
  }

  /** The await ends when a resolution has been announced, which follows its commit, or when the
      workflow's own clock has reached the deadline. */
  predicate Wakes(rows: Rows, j: Journal, now: Time) {
    && j.evaluation.Some? && j.evaluation.value.expiresAt.Some?
    && (now >= j.evaluation.value.expiresAt.value || (rows.approval.Some? && !rows.approval.value.status.Pending?))
  }

  /** The rows after the current step's own transaction, if it has one and it does not throw. `now`
      is the clock that step reads: the workflow's while it waits and where it notes the time, the
      database's where it resolves the deadline. */
  function Effect(config: Config, job: Job, w: World, now: Time, evidenceId: Id): Option<Rows> {
    var rows, j := w.rows, w.journal;
    var emission := EmissionOf(job, j);
    if emission.Some? then Emit(rows, emission.value.key, TaskIn(job, emission.value.status), emission.value.step)
    else
      match j.stage
      case Recording => if j.evaluation.None? then None else RecordPolicy(config, rows, j.evaluation.value, RequestOf(job), job.task.id)
      case Awaiting => if Wakes(rows, j, now) then Some(rows) else None
      case Resolving => (match FinishApproval(config, rows, Expire, evidenceId, now) case Some(r) => Some(r.0) case None => None)
      case Receiving =>
        if j.result.None? || j.recordedAt.None? then None
        else RecordReceipt(config, rows, RequestOf(job), j.result.value, job.receiptId, j.recordedAt.value)
      case Finishing =>
        if j.verifiedAt.None? then None
        else (match FinishTask(config, rows, j.verifiedAt.value) case Some(r) => Some(r.0) case None => None)
      case _ => Some(rows)
  }

  predicate Withdrew(j: Journal) {
    j.resolution.Some? && j.resolution.value.reason == Some(Withdrawn)
  }

  /** The journal once the step has returned. */
  function Journaled(config: Config, job: Job, w: World, now: Time, evidenceId: Id): Journal
    requires ValidRules(config.rules)
  {
    var j := w.journal;
    match j.stage
    case Creating => j.(stage := Compiling)
    case Compiling => j.(stage := Evaluating)
    case Evaluating =>
      var e := EvaluatePolicy(config.rules, TaskIn(job, TaskStatus.Compiled), StepIn(job, Ready, None), RequestOf(job), UPPERCASE_DESCRIPTOR, job.decisionId, now);
      j.(stage := Recording, evaluation := Some(e))
    case Recording =>
      j.(stage := if j.evaluation.None? then Stopped
                  else match j.evaluation.value.decision case Deny => Denying case NeedsApproval => Asking case Allow => Readying)
    case Denying => j.(stage := Ended)
    case Asking => j.(stage := Awaiting)
    case Awaiting => j.(stage := Resolving)
    case Resolving =>
      (match FinishApproval(config, w.rows, Expire, evidenceId, now)
       case None => j
       case Some(r) => j.(stage := if r.1.status.Granted? then Approving else Rejecting, resolution := Some(r.1)))
    case Rejecting => j.(stage := Ended)
    case Approving => j.(stage := Starting)
    case Readying => j.(stage := Starting)
    case Starting => j.(stage := StampingReceipt)
    case StampingReceipt => j.(stage := Executing, recordedAt := Some(now))
    case Executing =>
      (match Execute(config.upper, RequestOf(job)) case Some(r) => j.(stage := Receiving, result := Some(r)) case None => j.(stage := Stopped))
    case Receiving => j.(stage := CompletingStep)
    case CompletingStep => j.(stage := EnteringVerification)
    case EnteringVerification => j.(stage := StampingVerdict)
    case StampingVerdict => j.(stage := Finishing, verifiedAt := Some(now))
    case Finishing =>
      if j.verifiedAt.None? then j
      else (match FinishTask(config, w.rows, j.verifiedAt.value) case Some(r) => j.(stage := Ended, outcome := Some(r.1)) case None => j)
    case Ended => j
    case Stopped => j
  }

  /** A policy write refused for good ends the run; any other failing step is tried again. */
  function Next(config: Config, job: Job, w: World, a: Action): World
    requires ValidRules(config.rules)
  {
    match a
    case Advance(now, evidenceId) =>
      (match Effect(config, job, w, now, evidenceId)
       case Some(rows) => World(rows, Journaled(config, job, w, now, evidenceId))
       case None => if w.journal.stage.Recording? then w.(journal := w.journal.(stage := Stopped)) else w)
    case Crashed(now, evidenceId) => w.(rows := Effect(config, job, w, now, evidenceId).GetOr(w.rows))
    case Outside(call, now, evidenceId) =>
      (match FinishApproval(config, w.rows, call, evidenceId, now) case Some(r) => w.(rows := r.0) case None => w)
  }

  function Opening(version: Option<Descriptor>): World {
    World(Rows(None, None, None, None, [], None, version, {}, None), Journal(Creating, None, None, None, None, None, None))
  }

  function Run(config: Config, job: Job, version: Option<Descriptor>, trace: seq<Action>): World
    requires ValidRules(config.rules)
  {
    if trace == [] then Opening(version)
    else Next(config, job, Run(config, job, version, trace[..|trace| - 1]), trace[|trace| - 1])
  }

  // ---- the approval, under every interleaving ----

  /** What an approval row and its evidence say about each other. */
  ghost predicate ApprovalCoherent(job: Job, rows: Rows) {
    && (rows.approval.Some? ==>
          && rows.policy.Some? && rows.policy.value.evaluation.decision.NeedsApproval?
          && Proper(job, rows.policy.value) && RowCoherent(rows))
    && (rows.policy.Some? && rows.policy.value.evaluation.decision.NeedsApproval? ==> rows.approval.Some?)
  }

  predicate Proper(job: Job, p: PolicyRecord) {
    var e := p.evaluation;
    && e.approver.Some? && e.expiresAt.Some? && e.scopeDigest == e.scope
    && e.scope.taskId == job.task.id && e.scope.stepId == job.stepId && e.scope.principal == job.task.principal
    && p.approvalId == job.task.id
  }

  ghost predicate RowCoherent(rows: Rows)
    requires rows.approval.Some? && rows.policy.Some?
  {
    var row, e := rows.approval.value, rows.policy.value.evaluation;
    && row.id == rows.policy.value.approvalId && row.requestedAt == e.evaluatedAt
    && (row.status.Pending? <==> row.evidenceId.None?)
    && (row.evidenceId.Some? ==> Backed(rows, row, e))
  }

  predicate Backed(rows: Rows, row: ApprovalRow, e: Evaluation)
    requires row.evidenceId.Some?
  {
    var found := FindEvidence(rows.evidence, row.evidenceId.value);
    && found.Some? && found.value.fact.ApprovalFact?
    && found.value.taskId == e.scope.taskId && found.value.stepId == e.scope.stepId
    && (row.status.Granted? ==> GrantFact(found.value, row, e))
  }

  /** A grant is the named approver's own decision, for the recorded scope, before the deadline. */
  predicate GrantFact(x: Evidence, row: ApprovalRow, e: Evaluation) {
    && x.humanDecision && e.approver.Some? && e.expiresAt.Some?
    && x.fact == ApprovalFact(row.id, e.scopeDigest, ApprovalStatus.Granted, Human, e.approver.value)
    && e.evaluatedAt <= x.capturedAt < e.expiresAt.value
  }

  lemma CallKeepsCoherence(config: Config, job: Job, rows: Rows, call: Call, evidenceId: Id, now: Time)
    requires ApprovalCoherent(job, rows) && FinishApproval(config, rows, call, evidenceId, now).Some?
    ensures ApprovalCoherent(job, FinishApproval(config, rows, call, evidenceId, now).value.0)
  {
    var after := FinishApproval(config, rows, call, evidenceId, now).value.0;
    if after != rows {
      FoundStays(rows.evidence, after.evidence[|rows.evidence|], evidenceId);
      hide FindEvidence, Stored;
    }
  }

  /** An approval leaves PENDING once and keeps its first resolution. */
  lemma ResolvedOnce(config: Config, job: Job, w: World, a: Action)
    requires ValidRules(config.rules)
    requires w.rows.approval.Some? && !w.rows.approval.value.status.Pending?
    requires w.rows.policy.Some? && KPolicy in w.rows.keys
    ensures Next(config, job, w, a).rows.approval == w.rows.approval
    ensures Next(config, job, w, a).rows.policy == w.rows.policy && KPolicy in Next(config, job, w, a).rows.keys
  {
    hide FindEvidence, RegistryVerifies, ReportOf, EvaluatePolicy, Execute, ValidOutcome, MatchesRunning, MatchesStep, ValidRules;
  }

  // ---- where the rows stand at each stage ----

  /** The task's status and step as a stage finds them, before its own write. */
  datatype Standing = Standing(task: Option<Task>, step: Option<Step>)

  function Before(job: Job, j: Journal): Standing {
    var ready, running := Some(StepIn(job, Ready, None)), Some(StepIn(job, Running, None));
    var done := if j.result.None? then None else Some(StepIn(job, TaskStatus.Completed, Some(j.result.value.output)));
    match j.stage
    case Creating => Standing(None, None)
    case Compiling => Standing(Some(TaskIn(job, Received)), None)
    case Evaluating => Standing(Some(TaskIn(job, TaskStatus.Compiled)), ready)
    case Recording => Standing(Some(TaskIn(job, TaskStatus.Compiled)), ready)
    case Denying => Standing(Some(TaskIn(job, TaskStatus.Compiled)), ready)
    case Asking => Standing(Some(TaskIn(job, TaskStatus.Compiled)), ready)
    case Readying => Standing(Some(TaskIn(job, TaskStatus.Compiled)), ready)
    case Awaiting => Standing(Some(TaskIn(job, ApprovalRequired)), ready)
    case Resolving => Standing(Some(TaskIn(job, ApprovalRequired)), ready)
    case Rejecting => Standing(Some(TaskIn(job, ApprovalRequired)), ready)
    case Approving => Standing(Some(TaskIn(job, ApprovalRequired)), ready)
    case Starting => Standing(Some(TaskIn(job, Ready)), ready)
    case StampingReceipt => Standing(Some(TaskIn(job, Running)), running)
    case Executing => Standing(Some(TaskIn(job, Running)), running)
    case Receiving => Standing(Some(TaskIn(job, Running)), running)
    case CompletingStep => Standing(Some(TaskIn(job, Running)), running)
    case EnteringVerification => Standing(Some(TaskIn(job, Running)), done)
    case StampingVerdict => Standing(Some(TaskIn(job, Verifying)), done)
    case Finishing => Standing(Some(TaskIn(job, Verifying)), done)
    case Ended => Standing(None, None)
    case Stopped => Standing(None, None)
  }

  function Now(job: Job, rows: Rows, j: Journal): Standing {
    var e := EmissionOf(job, j);
    if e.Some? && e.value.key in rows.keys
    then Standing(Some(TaskIn(job, e.value.status)), if e.value.step.Some? then e.value.step else Before(job, j).step)
    else Before(job, j)
  }

  /** The event keys a stage may find in use. */
  function Allowed(s: Stage): set<EventKey> {
    var compiled := {KCreate, KCompile, KResolved};
    var asked := compiled + {KPolicy, KAsk};
    var started := asked + {KApproved, KReady, KStart};
    match s
    case Creating => {KCreate}
    case Compiling => {KCreate, KCompile}
    case Evaluating => {KCreate, KCompile}
    case Recording => compiled + {KPolicy}
    case Denying => compiled + {KPolicy, KDeny}
    case Asking => asked
    case Readying => compiled + {KPolicy, KReady}
    case Awaiting => asked
    case Resolving => asked
    case Rejecting => asked + {KReject}
    case Approving => asked + {KApproved}
    case Starting => started
    case StampingReceipt => started
    case Executing => started
    case Receiving => started + {KCapability}
    case CompletingStep => started + {KCapability, KStepComplete}
    case EnteringVerification => started + {KCapability, KStepComplete, KVerify}
    case StampingVerdict => started + {KCapability, KStepComplete, KVerify}
    case Finishing => started + {KCapability, KStepComplete, KVerify, KFinal}
    case Ended => started + {KDeny, KReject, KCapability, KStepComplete, KVerify, KFinal}
    case Stopped => started + {KDeny, KReject, KCapability, KStepComplete, KVerify, KFinal}
  }

  predicate Over(s: Stage) {
    s.Ended? || s.Stopped?
  }

  ghost predicate LedgerInv(job: Job, w: World) {
    && w.rows.keys <= Allowed(w.journal.stage)
    && (w.rows.outcome.Some? ==> w.journal.stage.Finishing? || w.journal.stage.Ended?)
    && (!Over(w.journal.stage) && w.rows.outcome.None? ==>
          w.rows.task == Now(job, w.rows, w.journal).task && w.rows.step == Now(job, w.rows, w.journal).step)
  }

  // ---- the policy record ----

  predicate PolicyPending(s: Stage) {
    s.Creating? || s.Compiling? || s.Evaluating?
  }

  /** The evaluation the run journaled, and no other. */
  predicate OwnEvaluation(config: Config, job: Job, e: Evaluation)
    requires ValidRules(config.rules)
  {
    e == EvaluatePolicy(config.rules, TaskIn(job, TaskStatus.Compiled), StepIn(job, Ready, None), RequestOf(job), UPPERCASE_DESCRIPTOR, job.decisionId, e.evaluatedAt)
  }

  function RecordOf(job: Job, e: Evaluation): PolicyRecord {
    PolicyRecord(e.id, job.task.id, job.task.principal.id, job.task.traceId, e, RequestOf(job), job.task.id)
  }

  ghost predicate PolicyInv(config: Config, job: Job, w: World)
    requires ValidRules(config.rules)
  {
    var j := w.journal;
    && (PolicyPending(j.stage) ==> w.rows.policy.None?)
    && (j.stage.Recording? ==> j.evaluation.Some?)
    && (j.evaluation.Some? ==> OwnEvaluation(config, job, j.evaluation.value))
    && (w.rows.policy.Some? <==> KPolicy in w.rows.keys)
    && (w.rows.policy.Some? ==> j.evaluation.Some? && w.rows.policy.value == RecordOf(job, j.evaluation.value))
    && (!PolicyPending(j.stage) && !j.stage.Recording? && !j.stage.Stopped? ==> w.rows.policy.Some? && DecisionFits(j))
  }

  predicate Asked(s: Stage) {
    s.Asking? || s.Awaiting? || s.Resolving? || s.Rejecting? || s.Approving?
  }

  predicate Authorised(s: Stage) {
    || s.Starting? || s.StampingReceipt? || s.Executing? || s.Receiving? || s.CompletingStep? || s.EnteringVerification?
    || s.StampingVerdict? || s.Finishing?
  }

  predicate DecisionFits(j: Journal) {
    && j.evaluation.Some?
    && (j.stage.Denying? ==> j.evaluation.value.decision.Deny?)
    && (j.stage.Readying? ==> j.evaluation.value.decision.Allow?)
    && (Asked(j.stage) ==> j.evaluation.value.decision.NeedsApproval?)
    && (Authorised(j.stage) ==> !j.evaluation.value.decision.Deny?)
  }

  // ---- approval before authority ----

  /** Past the gate: whoever's policy asked for approval got it. */
  predicate GrantInv(w: World) {
    && (w.journal.stage.Approving? ==> HasGrant(w.rows))
    && ((Authorised(w.journal.stage) || w.rows.outcome.Some?) && w.journal.evaluation.Some? && w.journal.evaluation.value.decision.NeedsApproval? ==> HasGrant(w.rows))
  }

  predicate HasGrant(rows: Rows) {
    rows.approval.Some? && rows.approval.value.status.Granted?
  }

  ghost predicate SafetyInv(config: Config, job: Job, w: World)
    requires ValidRules(config.rules)
  {
    LedgerInv(job, w) && PolicyInv(config, job, w) && ApprovalCoherent(job, w.rows) && GrantInv(w)
  }
}
