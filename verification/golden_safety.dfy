/** In every interleaving: approval before authority, one resolution, and what a grant proves. */
module GoldenSafety {
  import opened Options
  import opened Lifecycle
  import opened Text
  import opened Golden
  import opened GoldenStores
  import opened GoldenWorkflow

  // ---- what the journal holds ----

  predicate HasResult(s: Stage) {
    s.Receiving? || s.CompletingStep? || s.EnteringVerification? || s.StampingVerdict? || s.Finishing?
  }

  ghost predicate JournalInv(config: Config, job: Job, j: Journal) {
    && (HasResult(j.stage) ==> j.result.Some? && j.result == Execute(config.upper, RequestOf(job)))
    && (HasResult(j.stage) || j.stage.Executing? ==> j.recordedAt.Some?)
    && (j.stage.Finishing? ==> j.verifiedAt.Some?)
  }

  ghost predicate Inv(config: Config, job: Job, w: World)
    requires ValidRules(config.rules)
  {
    SafetyInv(config, job, w) && JournalInv(config, job, w.journal)
  }

  // ---- frames ----

  /** An approval call touches the approval, its evidence and one key. */
  lemma CallFrame(config: Config, rows: Rows, call: Call, evidenceId: Id, now: Time)
    requires FinishApproval(config, rows, call, evidenceId, now).Some?
    ensures var (after, r) := FinishApproval(config, rows, call, evidenceId, now).value;
            && after == rows.(approval := after.approval, evidence := after.evidence, keys := after.keys)
            && rows.approval.Some? && after.approval.Some?
            && (after == rows || (after.keys == rows.keys + {KResolved} && !after.approval.value.status.Pending?))
            && r.status == after.approval.value.status
            && (!rows.approval.value.status.Pending? ==> after == rows)
  {
    hide FindEvidence, Entitled;
  }

  lemma EmitFrame(rows: Rows, key: EventKey, task: Task, step: Option<Step>)
    requires Emit(rows, key, task, step).Some?
    ensures var after := Emit(rows, key, task, step).value;
            && after == rows.(task := after.task, step := after.step, keys := after.keys)
            && after.keys == rows.keys + {key}
            && (key in rows.keys ==> after == rows)
            && (key !in rows.keys ==> after.task == Some(task) && after.step == if step.Some? then step else rows.step)
  {
    if key in rows.keys { assert rows.keys == rows.keys + {key}; }
  }

  lemma ReceiptFrame(config: Config, rows: Rows, i: Invocation, r: CapabilityResult, evidenceId: Id, at: Time)
    requires RecordReceipt(config, rows, i, r, evidenceId, at).Some?
    ensures var after := RecordReceipt(config, rows, i, r, evidenceId, at).value;
            && after == rows.(version := after.version, evidence := after.evidence, run := after.run, keys := after.keys)
            && (after == rows || (after.keys == rows.keys + {KCapability} && |after.evidence| == |rows.evidence| + 1
                                  && after.evidence == rows.evidence + [after.evidence[|rows.evidence|]]))
  {
    hide RegistryVerifies, FindEvidence, MatchesRunning;
  }

  lemma FinishFrame(config: Config, rows: Rows, at: Time)
    requires FinishTask(config, rows, at).Some?
    ensures var (after, o) := FinishTask(config, rows, at).value;
            && after == rows.(task := after.task, outcome := after.outcome, keys := after.keys)
            && (after == rows || after.keys == rows.keys + {KFinal})
            && after.outcome == Some(o)
  {
  }

  predicate Recorded(rows: Rows, after: Rows, e: Evaluation, i: Invocation, approvalId: Id) {
    && after.keys == rows.keys + {KPolicy}
    && rows.task.Some? && e.scopeDigest == e.scope && e.scope.invocationDigest == i
    && after.policy == Some(PolicyRecord(e.id, rows.task.value.id, rows.task.value.principal.id, rows.task.value.traceId, e, i, approvalId))
    && if !e.decision.NeedsApproval? then after.approval == rows.approval
       else e.approver.Some? && rows.approval.None?
            && after.approval == Some(ApprovalRow(approvalId, Pending, e.approver.value.id, e.evaluatedAt, None, None))
  }

  lemma RecordFrame(config: Config, rows: Rows, e: Evaluation, i: Invocation, approvalId: Id)
    requires RecordPolicy(config, rows, e, i, approvalId).Some?
    ensures var after := RecordPolicy(config, rows, e, i, approvalId).value;
            && after == rows.(policy := after.policy, approval := after.approval, keys := after.keys)
            && (KPolicy in rows.keys ==> after == rows)
            && (KPolicy !in rows.keys ==> Recorded(rows, after, e, i, approvalId))
  {
    hide MatchesStep;
  }

  // ---- the ledger side ----

  lemma EmissionKeepsLedger(job: Job, w: World, rows: Rows)
    requires LedgerInv(job, w) && !Over(w.journal.stage) && w.rows.outcome.None?
    requires EmissionOf(job, w.journal).Some?
    requires var e := EmissionOf(job, w.journal).value; Emit(w.rows, e.key, TaskIn(job, e.status), e.step) == Some(rows)
    ensures rows.outcome.None? && rows.keys <= Allowed(w.journal.stage) && EmissionOf(job, w.journal).value.key in rows.keys
    ensures rows.task == Now(job, rows, w.journal).task && rows.step == Now(job, rows, w.journal).step
  {
    var e := EmissionOf(job, w.journal).value;
    EmitFrame(w.rows, e.key, TaskIn(job, e.status), e.step);
    hide Emit, TaskIn, StepIn;
    assert e.key in Allowed(w.journal.stage);
    hide Allowed;
  }

  /** The order of the stages. */
  predicate Follows(a: Stage, b: Stage) {
    match a
    case Creating => b == Compiling
    case Compiling => b == Evaluating
    case Evaluating => b == Recording
    case Recording => b == Denying || b == Asking || b == Readying || b == Stopped
    case Denying => b == Ended
    case Asking => b == Awaiting
    case Awaiting => b == Resolving
    case Resolving => b == Approving || b == Rejecting
    case Rejecting => b == Ended
    case Approving => b == Starting
    case Readying => b == Starting
    case Starting => b == StampingReceipt
    case StampingReceipt => b == Executing
    case Executing => b == Receiving || b == Stopped
    case Receiving => b == CompletingStep
    case CompletingStep => b == EnteringVerification
    case EnteringVerification => b == StampingVerdict
    case StampingVerdict => b == Finishing
    case Finishing => b == Ended
    case Ended => false
    case Stopped => false
  }

  lemma JournaledFollows(config: Config, job: Job, w: World, now: Time, evidenceId: Id)
    requires ValidRules(config.rules)
    ensures var j := Journaled(config, job, w, now, evidenceId);
            j == w.journal || Follows(w.journal.stage, j.stage)
    ensures var j := Journaled(config, job, w, now, evidenceId);
            && (j.result == w.journal.result || w.journal.stage.Executing?)
            && (j.evaluation == w.journal.evaluation || w.journal.stage.Evaluating?)
  {
    hide EvaluatePolicy, FinishApproval, Execute, FinishTask, ValidRules, RequestOf, TaskIn, StepIn;
  }

  lemma KeysFit(job: Job, a: Stage, j: Journal)
    requires Follows(a, j.stage)
    ensures Allowed(a) <= Allowed(j.stage)
    ensures EmissionOf(job, j).Some? ==> EmissionOf(job, j).value.key !in Allowed(a)
  {
    hide TaskIn, StepIn, Withdrew;
  }

  /** Where a stage leaves the rows, once its own write is in. */
  function Leaves(job: Job, j: Journal): Standing {
    var e := EmissionOf(job, j);
    if e.Some? then Standing(Some(TaskIn(job, e.value.status)), if e.value.step.Some? then e.value.step else Before(job, j).step)
    else Before(job, j)
  }

  lemma LeavesMeetsBefore(job: Job, j: Journal, next: Journal)
    requires Follows(j.stage, next.stage) && !Over(next.stage)
    requires HasResult(j.stage) ==> j.result.Some? && next.result == j.result
    ensures Leaves(job, j) == Before(job, next)
  {
    hide TaskIn, StepIn, Withdrew;
  }

  /** Where a stage leaves the task is where the next stage finds it. */
  lemma StandingsMeet(config: Config, job: Job, w: World, rows: Rows, now: Time, evidenceId: Id)
    requires ValidRules(config.rules)
    requires HasResult(w.journal.stage) ==> w.journal.result.Some?
    requires EmissionOf(job, w.journal).Some? ==> EmissionOf(job, w.journal).value.key in rows.keys
    requires rows.keys <= Allowed(w.journal.stage)
    ensures var j := Journaled(config, job, w, now, evidenceId);
            && (j != w.journal && !Over(j.stage) ==> Now(job, rows, j) == Now(job, rows, w.journal))
            && rows.keys <= Allowed(j.stage)
  {
    var j := Journaled(config, job, w, now, evidenceId);
    JournaledFollows(config, job, w, now, evidenceId);
    if j != w.journal {
      KeysFit(job, w.journal.stage, j);
      hide Journaled, Follows, EmissionOf, Before, Allowed;
      if !Over(j.stage) { LeavesMeetsBefore(job, w.journal, j); }
    }
  }

  // ---- each kind of step keeps the invariant ----

  lemma CoherentStays(job: Job, before: Rows, after: Rows)
    requires ApprovalCoherent(job, before)
    requires after.policy == before.policy && after.approval == before.approval
    requires after.evidence == before.evidence || (after.evidence != [] && after.evidence == before.evidence + [after.evidence[|after.evidence| - 1]])
    ensures ApprovalCoherent(job, after)
  {
    if before.approval.Some? && before.approval.value.evidenceId.Some? && after.evidence != before.evidence {
      FoundStays(before.evidence, after.evidence[|after.evidence| - 1], before.approval.value.evidenceId.value);
    }
    hide FindEvidence, Proper;
  }

  lemma EmissionKeepsInv(config: Config, job: Job, w: World, rows: Rows)
    requires ValidRules(config.rules) && Inv(config, job, w)
    requires EmissionOf(job, w.journal).Some?
    requires var e := EmissionOf(job, w.journal).value; Emit(w.rows, e.key, TaskIn(job, e.status), e.step) == Some(rows)
    ensures Inv(config, job, World(rows, w.journal)) && EmissionOf(job, w.journal).value.key in rows.keys
  {
    var e := EmissionOf(job, w.journal).value;
    EmissionIsEarly(job, w.journal);
    EmissionKeepsLedger(job, w, rows);
    EmitFrame(w.rows, e.key, TaskIn(job, e.status), e.step);
    CoherentStays(job, w.rows, rows);
    hide Emit, TaskIn, StepIn, ApprovalCoherent, Allowed, Now, JournalInv, EmissionOf, OwnEvaluation, RecordOf;
  }

  lemma EmissionIsEarly(job: Job, j: Journal)
    requires EmissionOf(job, j).Some?
    ensures !Over(j.stage) && !j.stage.Finishing? && EmissionOf(job, j).value.key != KPolicy
  {
    hide TaskIn, StepIn;
  }

  lemma CallKeepsInv(config: Config, job: Job, w: World, call: Call, now: Time, evidenceId: Id)
    requires ValidRules(config.rules) && Inv(config, job, w)
    requires FinishApproval(config, w.rows, call, evidenceId, now).Some?
    ensures Inv(config, job, World(FinishApproval(config, w.rows, call, evidenceId, now).value.0, w.journal))
  {
    var rows := FinishApproval(config, w.rows, call, evidenceId, now).value.0;
    CallFrame(config, w.rows, call, evidenceId, now);
    CallKeepsCoherence(config, job, w.rows, call, evidenceId, now);
    PolicyBeforeApproval(config, job, w);
    AnswersAllowed(w.journal.stage);
    NowIgnoresAnswers(job, w, rows);
    hide FinishApproval, ApprovalCoherent, Allowed, Now, JournalInv, OwnEvaluation, RecordOf;
  }

  lemma PolicyBeforeApproval(config: Config, job: Job, w: World)
    requires ValidRules(config.rules) && Inv(config, job, w)
    ensures w.rows.approval.Some? ==> w.rows.policy.Some? && !PolicyPending(w.journal.stage)
  {
    hide RowCoherent, Proper, OwnEvaluation;
  }

  lemma AnswersAllowed(s: Stage)
    ensures !PolicyPending(s) ==> KResolved in Allowed(s)
  {
  }

  lemma NowIgnoresAnswers(job: Job, w: World, rows: Rows)
    requires rows.keys == w.rows.keys || rows.keys == w.rows.keys + {KResolved}
    ensures Now(job, rows, w.journal) == Now(job, w.rows, w.journal)
  {
    hide TaskIn, StepIn, Before;
  }

  lemma EvaluationShape(config: Config, job: Job, e: Evaluation)
    requires ValidRules(config.rules) && OwnEvaluation(config, job, e)
    ensures e.scopeDigest == e.scope && e.id == job.decisionId
    ensures e.scope == Scope(job.task.id, job.stepId, job.task.tenant, job.task.principal, RequestOf(job).trace, UPPERCASE, RequestOf(job), UPPERCASE_DESCRIPTOR, config.rules.version)
    ensures e.decision.NeedsApproval? ==> e.approver.Some? && e.approver.value.human && e.expiresAt.Some? && e.evaluatedAt < e.expiresAt.value
    ensures !e.decision.NeedsApproval? ==> e.approver.None? && e.expiresAt.None?
  {
    hide ValidRules, FindRule, Bound;
  }

  lemma RecordingKeepsInv(config: Config, job: Job, w: World, rows: Rows)
    requires ValidRules(config.rules) && Inv(config, job, w) && w.journal.stage.Recording? && w.journal.evaluation.Some?
    requires RecordPolicy(config, w.rows, w.journal.evaluation.value, RequestOf(job), job.task.id) == Some(rows)
    ensures Inv(config, job, World(rows, w.journal)) && rows.policy.Some?
  {
    var e := w.journal.evaluation.value;
    RecordFrame(config, w.rows, e, RequestOf(job), job.task.id);
    EvaluationShape(config, job, e);
    hide RecordPolicy, RequestOf, EvaluatePolicy, FindEvidence;
    if KPolicy !in w.rows.keys {
      assert w.rows.approval.None?;
    }
  }

  lemma ReceivingKeepsInv(config: Config, job: Job, w: World, rows: Rows)
    requires ValidRules(config.rules) && Inv(config, job, w) && w.journal.stage.Receiving? && w.journal.result.Some? && w.journal.recordedAt.Some?
    requires RecordReceipt(config, w.rows, RequestOf(job), w.journal.result.value, job.receiptId, w.journal.recordedAt.value) == Some(rows)
    ensures Inv(config, job, World(rows, w.journal))
  {
    hide RecordReceipt, ApprovalCoherent, EmissionOf, Before, Allowed, JournalInv, OwnEvaluation, RecordOf, ValidRules, RequestOf;
    ReceiptFrame(config, w.rows, RequestOf(job), w.journal.result.value, job.receiptId, w.journal.recordedAt.value);
    CoherentStays(job, w.rows, rows);
    StoreKeysFit(job, w.journal);
  }

  lemma StoreKeysFit(job: Job, j: Journal)
    ensures j.stage.Receiving? ==> KCapability in Allowed(j.stage) && EmissionOf(job, j).None?
    ensures j.stage.Finishing? ==> KFinal in Allowed(j.stage) && EmissionOf(job, j).None?
  {
  }

  lemma FinishingKeepsInv(config: Config, job: Job, w: World, rows: Rows)
    requires ValidRules(config.rules) && Inv(config, job, w) && w.journal.stage.Finishing? && w.journal.verifiedAt.Some?
    requires FinishTask(config, w.rows, w.journal.verifiedAt.value).Some? && FinishTask(config, w.rows, w.journal.verifiedAt.value).value.0 == rows
    ensures Inv(config, job, World(rows, w.journal))
  {
    hide FinishTask, ApprovalCoherent, EmissionOf, Before, Allowed, JournalInv, OwnEvaluation, RecordOf, ValidRules;
    FinishFrame(config, w.rows, w.journal.verifiedAt.value);
    CoherentStays(job, w.rows, rows);
    StoreKeysFit(job, w.journal);
  }

  /** A step that ran and crashed leaves the invariant, and its own write if it has one. */
  lemma EffectKeepsInv(config: Config, job: Job, w: World, now: Time, evidenceId: Id)
    requires ValidRules(config.rules) && Inv(config, job, w) && Effect(config, job, w, now, evidenceId).Some?
    ensures var rows := Effect(config, job, w, now, evidenceId).value;
            && Inv(config, job, World(rows, w.journal))
            && (EmissionOf(job, w.journal).Some? ==> EmissionOf(job, w.journal).value.key in rows.keys)
            && (w.journal.stage.Recording? ==> rows.policy.Some?)
  {
    hide Inv, EmissionOf, Emit, RecordPolicy, FinishApproval, RecordReceipt, FinishTask, TaskIn, RequestOf;
    var rows := Effect(config, job, w, now, evidenceId).value;
    if EmissionOf(job, w.journal).Some? {
      EmissionKeepsInv(config, job, w, rows);
      NoEmissionWhileRecording(job, w.journal);
    } else if w.journal.stage.Recording? {
      RecordingKeepsInv(config, job, w, rows);
    } else if w.journal.stage.Resolving? {
      CallKeepsInv(config, job, w, Expire, now, evidenceId);
    } else if w.journal.stage.Receiving? {
      ReceivingKeepsInv(config, job, w, rows);
    } else if w.journal.stage.Finishing? {
      FinishingKeepsInv(config, job, w, rows);
    }
  }

  lemma NoEmissionWhileRecording(job: Job, j: Journal)
    ensures j.stage.Recording? ==> EmissionOf(job, j).None?
  {
  }

  // ---- journaling keeps it too ----

  lemma ResultStays(config: Config, job: Job, w: World, now: Time, evidenceId: Id)
    requires ValidRules(config.rules) && JournalInv(config, job, w.journal)
    ensures var j := Journaled(config, job, w, now, evidenceId);
            HasResult(j.stage) ==> j.result.Some? && j.result == Execute(config.upper, RequestOf(job))
  {
    var j := Journaled(config, job, w, now, evidenceId);
    JournaledFollows(config, job, w, now, evidenceId);
    hide EvaluatePolicy, FinishApproval, Execute, FinishTask, ValidRules, RequestOf, TaskIn, StepIn;
    if !w.journal.stage.Executing? { hide Journaled; }
  }

  lemma StampsStay(config: Config, job: Job, w: World, now: Time, evidenceId: Id)
    requires ValidRules(config.rules) && JournalInv(config, job, w.journal)
    ensures var j := Journaled(config, job, w, now, evidenceId);
            && (HasResult(j.stage) || j.stage.Executing? ==> j.recordedAt.Some?)
            && (j.stage.Finishing? ==> j.verifiedAt.Some?)
  {
    var j := Journaled(config, job, w, now, evidenceId);
    JournaledFollows(config, job, w, now, evidenceId);
    TimesStay(config, job, w, now, evidenceId);
    if Follows(w.journal.stage, j.stage) { StageOrder(w.journal.stage, j.stage); }
    hide Journaled, Execute, RequestOf, ValidRules, Follows, HasResult;
  }

  /** What the order of the stages says about the ones that matter later. */
  lemma StageOrder(a: Stage, b: Stage)
    requires Follows(a, b)
    ensures HasResult(b) || b.Executing? ==> a.StampingReceipt? || HasResult(a) || a.Executing?
    ensures b.Finishing? ==> a.StampingVerdict?
    ensures b.Approving? ==> a.Resolving?
    ensures Authorised(b) ==> Authorised(a) || a.Approving? || a.Readying?
    ensures a.Evaluating? || a.Finishing? ==> !Authorised(b) && !b.Approving?
  {
  }

  /** The two moments the journal notes: each at its own stage, and for good. */
  lemma TimesStay(config: Config, job: Job, w: World, now: Time, evidenceId: Id)
    requires ValidRules(config.rules)
    ensures var j := Journaled(config, job, w, now, evidenceId);
            && j.recordedAt == (if w.journal.stage.StampingReceipt? then Some(now) else w.journal.recordedAt)
            && j.verifiedAt == (if w.journal.stage.StampingVerdict? then Some(now) else w.journal.verifiedAt)
  {
    hide EvaluatePolicy, FinishApproval, Execute, FinishTask, ValidRules, RequestOf, TaskIn, StepIn;
  }

  lemma JournalStays(config: Config, job: Job, w: World, now: Time, evidenceId: Id)
    requires ValidRules(config.rules) && JournalInv(config, job, w.journal)
    ensures JournalInv(config, job, Journaled(config, job, w, now, evidenceId))
  {
    ResultStays(config, job, w, now, evidenceId);
    StampsStay(config, job, w, now, evidenceId);
    hide Journaled, Execute, RequestOf, ValidRules, HasResult;
  }

  lemma PolicyStays(config: Config, job: Job, w: World, rows: Rows, now: Time, evidenceId: Id)
    requires ValidRules(config.rules) && PolicyInv(config, job, World(rows, w.journal))
    requires w.journal.stage.Recording? ==> rows.policy.Some?
    ensures PolicyInv(config, job, World(rows, Journaled(config, job, w, now, evidenceId)))
  {
    hide EvaluatePolicy, FinishApproval, Execute, FinishTask, ValidRules, RequestOf, TaskIn, StepIn, RecordOf;
    if w.journal.stage.Evaluating? {
      EvaluatedAtItsTime(config, job, now);
    }
  }

  lemma EvaluatedAtItsTime(config: Config, job: Job, now: Time)
    requires ValidRules(config.rules)
    ensures OwnEvaluation(config, job, EvaluatePolicy(config.rules, TaskIn(job, TaskStatus.Compiled), StepIn(job, Ready, None), RequestOf(job), UPPERCASE_DESCRIPTOR, job.decisionId, now))
  {
    hide ValidRules, FindRule, Bound;
  }

  /** A granted answer read at the deadline is a granted row. */
  lemma ResolvingReadsRow(config: Config, job: Job, w: World, now: Time, evidenceId: Id)
    requires ValidRules(config.rules) && w.journal.stage.Resolving? && FinishApproval(config, w.rows, Expire, evidenceId, now).Some?
    ensures var rows := FinishApproval(config, w.rows, Expire, evidenceId, now).value.0;
            Journaled(config, job, w, now, evidenceId).stage.Approving? <==> HasGrant(rows)
  {
    CallFrame(config, w.rows, Expire, evidenceId, now);
    hide FinishApproval;
  }

  lemma GrantStays(config: Config, job: Job, w: World, rows: Rows, now: Time, evidenceId: Id)
    requires ValidRules(config.rules) && Effect(config, job, w, now, evidenceId) == Some(rows)
    requires PolicyInv(config, job, World(rows, w.journal)) && GrantInv(World(rows, w.journal))
    requires rows.outcome.Some? ==> w.journal.stage.Finishing? || w.journal.stage.Ended?
    ensures GrantInv(World(rows, Journaled(config, job, w, now, evidenceId)))
  {
    JournaledFollows(config, job, w, now, evidenceId);
    var j := Journaled(config, job, w, now, evidenceId);
    if Follows(w.journal.stage, j.stage) { StageOrder(w.journal.stage, j.stage); }
    hide Follows, Authorised;
    if w.journal.stage.Resolving? {
      assert FinishApproval(config, w.rows, Expire, evidenceId, now).Some?;
      ResolvingReadsRow(config, job, w, now, evidenceId);
    }
    hide Effect, Journaled, FinishApproval, ValidRules, OwnEvaluation, RecordOf;
  }

  lemma LedgerStays(config: Config, job: Job, w: World, rows: Rows, now: Time, evidenceId: Id)
    requires ValidRules(config.rules) && LedgerInv(job, World(rows, w.journal))
    requires HasResult(w.journal.stage) ==> w.journal.result.Some?
    requires EmissionOf(job, w.journal).Some? ==> EmissionOf(job, w.journal).value.key in rows.keys
    ensures LedgerInv(job, World(rows, Journaled(config, job, w, now, evidenceId)))
  {
    StandingsMeet(config, job, w, rows, now, evidenceId);
    JournaledFollows(config, job, w, now, evidenceId);
    hide Journaled, EmissionOf, Now, Before, Allowed, ValidRules;
  }

  lemma AdvanceKeepsInv(config: Config, job: Job, w: World, now: Time, evidenceId: Id)
    requires ValidRules(config.rules) && Inv(config, job, w) && Effect(config, job, w, now, evidenceId).Some?
    ensures Inv(config, job, World(Effect(config, job, w, now, evidenceId).value, Journaled(config, job, w, now, evidenceId)))
  {
    var rows := Effect(config, job, w, now, evidenceId).value;
    EffectKeepsInv(config, job, w, now, evidenceId);
    JournalStays(config, job, w, now, evidenceId);
    PolicyStays(config, job, w, rows, now, evidenceId);
    OutcomeIsLate(job, World(rows, w.journal));
    GrantStays(config, job, w, rows, now, evidenceId);
    LedgerStays(config, job, w, rows, now, evidenceId);
    hide Effect, Journaled, EmissionOf, LedgerInv, PolicyInv, ApprovalCoherent, GrantInv, JournalInv, ValidRules;
  }

  lemma OutcomeIsLate(job: Job, w: World)
    requires LedgerInv(job, w)
    ensures w.rows.outcome.Some? ==> w.journal.stage.Finishing? || w.journal.stage.Ended?
  {
    hide Now, Allowed;
  }

  lemma StoppingKeepsInv(config: Config, job: Job, w: World)
    requires ValidRules(config.rules) && Inv(config, job, w) && w.journal.stage.Recording?
    ensures Inv(config, job, w.(journal := w.journal.(stage := Stopped)))
  {
    hide ApprovalCoherent, Now, OwnEvaluation, RecordOf;
  }

  lemma NextKeepsInv(config: Config, job: Job, w: World, a: Action)
    requires ValidRules(config.rules) && Inv(config, job, w)
    ensures Inv(config, job, Next(config, job, w, a))
  {
    hide Inv, Effect, Journaled, FinishApproval;
    match a {
      case Advance(now, evidenceId) =>
        if Effect(config, job, w, now, evidenceId).Some? {
          AdvanceKeepsInv(config, job, w, now, evidenceId);
        } else if w.journal.stage.Recording? {
          StoppingKeepsInv(config, job, w);
        }
      case Crashed(now, evidenceId) =>
        if Effect(config, job, w, now, evidenceId).Some? {
          EffectKeepsInv(config, job, w, now, evidenceId);
        }
      case Outside(call, now, evidenceId) =>
        if FinishApproval(config, w.rows, call, evidenceId, now).Some? {
          CallKeepsInv(config, job, w, call, now, evidenceId);
        }
    }
  }

  lemma OpeningInv(config: Config, job: Job, version: Option<Descriptor>)
    requires ValidRules(config.rules)
    ensures Inv(config, job, Opening(version))
  {
  }

  lemma {:induction false} RunKeepsInv(config: Config, job: Job, version: Option<Descriptor>, trace: seq<Action>)
    requires ValidRules(config.rules)
    ensures Inv(config, job, Run(config, job, version, trace))
  {
    hide Inv, Next, Opening, ValidRules;
    if trace == [] {
      OpeningInv(config, job, version);
    } else {
      RunKeepsInv(config, job, version, trace[..|trace| - 1]);
      NextKeepsInv(config, job, Run(config, job, version, trace[..|trace| - 1]), trace[|trace| - 1]);
    }
  }

  // ---- what it means ----

  /** The approval that stands behind a task whose policy asked for one. */
  ghost predicate ApprovedByNamedHuman(config: Config, job: Job, rows: Rows, e: Evaluation) {
    && rows.approval.Some? && rows.approval.value.status.Granted? && rows.approval.value.evidenceId.Some?
    && e.approver.Some? && e.approver.value.human && e.expiresAt.Some?
    && e.scope.taskId == job.task.id && e.scope.invocationDigest == RequestOf(job)
    && exists x ::
         && x in rows.evidence && x.id == rows.approval.value.evidenceId.value && x.humanDecision
         && x.fact == ApprovalFact(job.task.id, e.scope, ApprovalStatus.Granted, Human, e.approver.value)
         && e.evaluatedAt <= x.capturedAt < e.expiresAt.value
  }

  predicate Authority(s: TaskStatus) {
    s.Ready? || s.Running? || s.Verifying? || s.Completed?
  }

  /** A task that may act has its grant, if its policy asked for one; wherever its run stands. */
  ghost predicate AuthorityInv(w: World) {
    var e := w.journal.evaluation;
    w.rows.task.Some? && Authority(w.rows.task.value.status) && e.Some? && e.value.decision.NeedsApproval? ==> HasGrant(w.rows)
  }

  lemma AuthorityIsLate(config: Config, job: Job, w: World)
    requires ValidRules(config.rules) && Inv(config, job, w) && !Over(w.journal.stage)
    ensures AuthorityInv(w)
  {
    hide ApprovalCoherent, OwnEvaluation, ValidRules, Allowed, StepIn, JournalInv;
  }

  /** Once granted, granted for good. */
  lemma GrantsLast(config: Config, rows: Rows, call: Call, evidenceId: Id, now: Time)
    requires FinishApproval(config, rows, call, evidenceId, now).Some?
    ensures HasGrant(rows) ==> HasGrant(FinishApproval(config, rows, call, evidenceId, now).value.0)
  {
    CallFrame(config, rows, call, evidenceId, now);
    hide FinishApproval;
  }

  /** When a run is over, its steps change nothing. */
  lemma OverIsIdle(config: Config, job: Job, w: World, now: Time, evidenceId: Id)
    requires ValidRules(config.rules) && Over(w.journal.stage)
    ensures Effect(config, job, w, now, evidenceId) == Some(w.rows) && Journaled(config, job, w, now, evidenceId) == w.journal
  {
    hide ValidRules;
  }

  lemma NextKeepsAuthority(config: Config, job: Job, w: World, a: Action)
    requires ValidRules(config.rules) && Inv(config, job, w) && AuthorityInv(w)
    ensures AuthorityInv(Next(config, job, w, a))
  {
    hide Inv, Effect, Journaled, FinishApproval, HasGrant, ValidRules, Authority;
    match a {
      case Advance(now, evidenceId) =>
        if Over(w.journal.stage) {
          OverIsIdle(config, job, w, now, evidenceId);
        } else if Effect(config, job, w, now, evidenceId).Some? {
          EffectKeepsInv(config, job, w, now, evidenceId);
          AuthorityIsLate(config, job, World(Effect(config, job, w, now, evidenceId).value, w.journal));
          JournaledFollows(config, job, w, now, evidenceId);
          AdvanceKeepsInv(config, job, w, now, evidenceId);
          var next := Next(config, job, w, a);
          if !Over(next.journal.stage) {
            AuthorityIsLate(config, job, next);
          } else if Follows(w.journal.stage, next.journal.stage) {
            EndsAfter(w.journal.stage, next.journal.stage);
          }
          hide Follows, Over;
        }
      case Crashed(now, evidenceId) =>
        if Over(w.journal.stage) {
          OverIsIdle(config, job, w, now, evidenceId);
        } else if Effect(config, job, w, now, evidenceId).Some? {
          EffectKeepsInv(config, job, w, now, evidenceId);
          AuthorityIsLate(config, job, World(Effect(config, job, w, now, evidenceId).value, w.journal));
        }
      case Outside(call, now, evidenceId) =>
        if FinishApproval(config, w.rows, call, evidenceId, now).Some? {
          CallFrame(config, w.rows, call, evidenceId, now);
          GrantsLast(config, w.rows, call, evidenceId, now);
        }
    }
  }

  /** The policy is evaluated long before a run can end. */
  lemma EndsAfter(a: Stage, b: Stage)
    requires Follows(a, b) && Over(b)
    ensures !a.Evaluating?
  {
  }

  lemma {:induction false} RunKeepsAuthority(config: Config, job: Job, version: Option<Descriptor>, trace: seq<Action>)
    requires ValidRules(config.rules)
    ensures AuthorityInv(Run(config, job, version, trace))
  {
    hide Inv, Next, ValidRules;
    if trace != [] {
      RunKeepsAuthority(config, job, version, trace[..|trace| - 1]);
      RunKeepsInv(config, job, version, trace[..|trace| - 1]);
      hide AuthorityInv;
      NextKeepsAuthority(config, job, Run(config, job, version, trace[..|trace| - 1]), trace[|trace| - 1]);
    }
  }

  /** In every interleaving, with any clocks, whether the run goes on, has stopped or has ended: a
      task that is READY or further, and whose policy asked for approval, has its approval GRANTED by
      the named human, for exactly this request, before the deadline. */
  lemma ReadyMeansApproved(config: Config, job: Job, version: Option<Descriptor>, trace: seq<Action>)
    requires ValidRules(config.rules)
    requires var rows := Run(config, job, version, trace).rows;
             && rows.task.Some? && Authority(rows.task.value.status)
             && rows.policy.Some? && rows.policy.value.evaluation.decision.NeedsApproval?
    ensures var rows := Run(config, job, version, trace).rows;
            ApprovedByNamedHuman(config, job, rows, rows.policy.value.evaluation)
  {
    RunKeepsInv(config, job, version, trace);
    RunKeepsAuthority(config, job, version, trace);
    hide Run, Authority, ApprovedByNamedHuman;
    var w := Run(config, job, version, trace);
    RecordedEvaluation(config, job, w);
    GrantIsBacked(config, job, w);
  }

  lemma RecordedEvaluation(config: Config, job: Job, w: World)
    requires ValidRules(config.rules) && Inv(config, job, w) && w.rows.policy.Some?
    ensures w.journal.evaluation == Some(w.rows.policy.value.evaluation)
  {
    hide LedgerInv, ApprovalCoherent, GrantInv, JournalInv, OwnEvaluation, ValidRules;
  }

  lemma GrantIsBacked(config: Config, job: Job, w: World)
    requires ValidRules(config.rules) && Inv(config, job, w) && HasGrant(w.rows)
    ensures w.rows.policy.Some? && ApprovedByNamedHuman(config, job, w.rows, w.rows.policy.value.evaluation)
  {
    EvaluationShape(config, job, w.journal.evaluation.value);
    hide LedgerInv, JournalInv, OwnEvaluation, ValidRules, RequestOf;
    var found := FindEvidence(w.rows.evidence, w.rows.approval.value.evidenceId.value);
    assert Backed(w.rows, w.rows.approval.value, w.rows.policy.value.evaluation);
    assert found.value in w.rows.evidence;
  }

  /** The same of every task that has an outcome, whatever happens afterwards. */
  lemma SettledMeansApproved(config: Config, job: Job, version: Option<Descriptor>, trace: seq<Action>)
    requires ValidRules(config.rules)
    requires var w := Run(config, job, version, trace);
             && w.rows.outcome.Some?
             && w.rows.policy.Some? && w.rows.policy.value.evaluation.decision.NeedsApproval?
    ensures var w := Run(config, job, version, trace);
            ApprovedByNamedHuman(config, job, w.rows, w.rows.policy.value.evaluation)
  {
    RunKeepsInv(config, job, version, trace);
    hide Run, LedgerInv, ApprovalCoherent, OwnEvaluation, ValidRules, JournalInv, ApprovedByNamedHuman;
    var w := Run(config, job, version, trace);
    assert HasGrant(w.rows);
    GrantIsBacked(config, job, w);
  }
}
