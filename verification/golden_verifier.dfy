/** The independent verifier: it reads persisted rows alone and lists every check that fails. */
module GoldenVerifier {
  import opened Options
  import opened Lifecycle
  import opened Golden

  datatype Bundle = Bundle(
    task: Task, steps: seq<Step>, runs: seq<CapabilityRun>, evidence: seq<Evidence>, policies: seq<PolicyRecord>, approvals: seq<ApprovalRow>)

  datatype Failure =
    | TaskNotVerifying | UnsupportedRequirements | UnsupportedCriteria | DescriptorMismatch | RunScopeMismatch
    | StepScopeMismatch | ResultMismatch | PolicyEventMismatch | PolicyScopeMismatch | PolicyDenied
    | StaleOrFutureEvidence | ResultEvidenceMismatch | ApprovalEvidenceMismatch | InvalidOrIncomplete

  datatype Report = Report(passed: bool, failures: seq<Failure>, evidenceRefs: seq<Id>)

  predicate Complete(b: Bundle, upper: char -> string) {
    |b.steps| == 1 && |b.runs| == 1 && |b.policies| == 1 && RegistryVerifies(upper, b.policies[0].invocation, b.runs[0].result)
  }

  function FindApproval(rows: seq<ApprovalRow>, id: Id): Option<ApprovalRow> {
    if rows == [] then None else if rows[0].id == id then Some(rows[0]) else FindApproval(rows[1..], id)
  }

  predicate DescriptorOk(b: Bundle)
    requires |b.policies| == 1 && |b.runs| == 1
  {
    b.policies[0].invocation.capability == UPPERCASE && b.runs[0].descriptor == UPPERCASE_DESCRIPTOR
  }

  predicate RunScopeOk(b: Bundle)
    requires |b.steps| == 1 && |b.policies| == 1 && |b.runs| == 1
  {
    var run, i := b.runs[0], b.policies[0].invocation;
    && run.id == i.runId && run.taskId == b.task.id && run.stepId == b.steps[0].id
    && i.taskId == b.task.id && i.stepId == b.steps[0].id
  }

  predicate StepScopeOk(b: Bundle)
    requires |b.steps| == 1 && |b.policies| == 1
  {
    var s := b.steps[0];
    && s.taskId == b.task.id && s.status.Completed? && s.deterministic && s.lowRisk && s.dependencies == []
    && s.capabilities == [UPPERCASE] && s.key == b.policies[0].invocation.key
  }

  predicate ResultOk(b: Bundle, upper: char -> string)
    requires |b.steps| == 1 && |b.policies| == 1 && |b.runs| == 1
  {
    var i, s, r := b.policies[0].invocation, b.steps[0], b.runs[0].result;
    && i.input == b.task.objective && s.input == i.input && s.output == Some(r.output)
    && r.output == Computed(upper, b.task.objective)
  }

  predicate PolicyEventOk(b: Bundle)
    requires |b.policies| == 1
  {
    var p := b.policies[0];
    p.id == p.evaluation.id && p.taskId == b.task.id && p.actorId == b.task.principal.id && p.traceId == b.task.traceId
  }

  predicate PolicyScopeOk(b: Bundle)
    requires |b.steps| == 1 && |b.policies| == 1 && |b.runs| == 1
  {
    var e, i := b.policies[0].evaluation, b.policies[0].invocation;
    && e.scopeDigest == e.scope && e.scope.invocationDigest == i && e.scope.descriptorDigest == b.runs[0].result.descriptorDigest
    && e.scope.taskId == b.task.id && e.scope.stepId == b.steps[0].id && e.scope.tenantId == b.task.tenant
    && e.scope.principal == b.task.principal && e.scope.trace == i.trace && i.trace.traceId == b.task.traceId
    && e.scope.capability == i.capability
  }

  predicate EvidenceTimely(evidence: seq<Evidence>, from: Time, to: Time) {
    forall e | e in evidence :: from <= e.capturedAt <= to
  }

  predicate ReceiptOk(b: Bundle, found: Option<Evidence>)
    requires |b.steps| == 1 && |b.policies| == 1 && |b.runs| == 1
  {
    var i, r := b.policies[0].invocation, b.runs[0].result;
    && found.Some? && found.value.taskId == b.task.id && found.value.stepId == b.steps[0].id && !found.value.humanDecision
    && found.value.fact == ReceiptFact(i.capability, i.runId, r.requestDigest, r.outputDigest, r.descriptorDigest, r)
  }

  function ApprovalEvidence(b: Bundle): Option<Evidence>
    requires |b.policies| == 1
  {
    var row := FindApproval(b.approvals, b.policies[0].approvalId);
    if row.None? || row.value.evidenceId.None? then None else FindEvidence(b.evidence, row.value.evidenceId.value)
  }

  predicate ApprovalOk(b: Bundle)
    requires |b.steps| == 1 && |b.policies| == 1
  {
    var e := b.policies[0].evaluation;
    var row, found := FindApproval(b.approvals, b.policies[0].approvalId), ApprovalEvidence(b);
    && row.Some? && row.value.status.Granted? && e.approver.Some? && e.expiresAt.Some?
    && found.Some? && found.value.taskId == b.task.id && found.value.stepId == b.steps[0].id && found.value.humanDecision
    && found.value.fact == ApprovalFact(row.value.id, e.scopeDigest, ApprovalStatus.Granted, Human, e.approver.value)
    && e.evaluatedAt <= found.value.capturedAt < e.expiresAt.value
  }

  function Unless(ok: bool, f: Failure): (fs: seq<Failure>)
    ensures fs == [] <==> ok
  {
    if ok then [] else [f]
  }

  function EarlyFailures(b: Bundle): seq<Failure> {
    Unless(b.task.status.Verifying?, TaskNotVerifying)
    + Unless(b.task.lowRisk && b.task.constraints == [] && !b.task.budgeted && b.task.deadline.None?, UnsupportedRequirements)
    + Unless(b.task.criteria == [CRITERION], UnsupportedCriteria)
  }

  function LateFailures(b: Bundle, upper: char -> string, at: Time): seq<Failure>
    requires Complete(b, upper)
  {
    Unless(DescriptorOk(b), DescriptorMismatch)
    + Unless(RunScopeOk(b), RunScopeMismatch)
    + Unless(StepScopeOk(b), StepScopeMismatch)
    + Unless(ResultOk(b, upper), ResultMismatch)
    + Unless(PolicyEventOk(b), PolicyEventMismatch)
    + Unless(PolicyScopeOk(b), PolicyScopeMismatch)
    + Unless(!b.policies[0].evaluation.decision.Deny?, PolicyDenied)
    + Unless(EvidenceTimely(b.evidence, b.task.createdAt, at), StaleOrFutureEvidence)
    + Unless(ReceiptOk(b, FindEvidence(b.evidence, b.runs[0].evidenceId)), ResultEvidenceMismatch)
    + Unless(b.policies[0].evaluation.decision.NeedsApproval? ==> ApprovalOk(b), ApprovalEvidenceMismatch)
  }

  function Failures(b: Bundle, upper: char -> string, at: Time): seq<Failure> {
    EarlyFailures(b) + if Complete(b, upper) then LateFailures(b, upper, at) else [InvalidOrIncomplete]
  }

  function RefOf(found: Option<Evidence>): seq<Id> {
    if found.Some? then [found.value.id] else []
  }

  function Refs(b: Bundle): seq<Id>
    requires |b.policies| == 1 && |b.runs| == 1
  {
    RefOf(FindEvidence(b.evidence, b.runs[0].evidenceId))
    + if b.policies[0].evaluation.decision.NeedsApproval? then RefOf(ApprovalEvidence(b)) else []
  }

  function ReportOf(b: Bundle, upper: char -> string, at: Time): Report {
    var failures := Failures(b, upper, at);
    if failures == [] then Report(true, [], Refs(b)) else Report(false, failures, [])
  }

  method CheckTask(b: Bundle) returns (failures: seq<Failure>)
    ensures failures == EarlyFailures(b)
  {
    failures := [];
    if !b.task.status.Verifying? { failures := failures + [TaskNotVerifying]; }
    if !(b.task.lowRisk && b.task.constraints == [] && !b.task.budgeted && b.task.deadline.None?) { failures := failures + [UnsupportedRequirements]; }
    if b.task.criteria != [CRITERION] { failures := failures + [UnsupportedCriteria]; }
  }

  method CheckRows(b: Bundle, upper: char -> string, at: Time) returns (failures: seq<Failure>, refs: seq<Id>)
    requires Complete(b, upper)
    ensures failures == LateFailures(b, upper, at) && refs == Refs(b)
  {
    hide DescriptorOk, RunScopeOk, StepScopeOk, ResultOk, PolicyEventOk, PolicyScopeOk, EvidenceTimely, ReceiptOk, ApprovalOk, Unless, FindEvidence, ApprovalEvidence, RegistryVerifies;
    var found := FindEvidence(b.evidence, b.runs[0].evidenceId);
    failures := Unless(DescriptorOk(b), DescriptorMismatch);
    failures := failures + Unless(RunScopeOk(b), RunScopeMismatch);
    failures := failures + Unless(StepScopeOk(b), StepScopeMismatch);
    failures := failures + Unless(ResultOk(b, upper), ResultMismatch);
    failures := failures + Unless(PolicyEventOk(b), PolicyEventMismatch);
    failures := failures + Unless(PolicyScopeOk(b), PolicyScopeMismatch);
    failures := failures + Unless(!b.policies[0].evaluation.decision.Deny?, PolicyDenied);
    failures := failures + Unless(EvidenceTimely(b.evidence, b.task.createdAt, at), StaleOrFutureEvidence);
    failures := failures + Unless(ReceiptOk(b, found), ResultEvidenceMismatch);
    refs := RefOf(found);
    var needed := b.policies[0].evaluation.decision.NeedsApproval?;
    failures := failures + Unless(needed ==> ApprovalOk(b), ApprovalEvidenceMismatch);
    refs := refs + if needed then RefOf(ApprovalEvidence(b)) else [];
  }

  method VerifyTaskEvidence(b: Bundle, upper: char -> string, at: Time) returns (report: Report)
    ensures report == ReportOf(b, upper, at)
  {
    hide LateFailures, EarlyFailures, Refs;
    var failures := CheckTask(b);
    var refs: seq<Id> := [];
    if Complete(b, upper) {
      var late;
      late, refs := CheckRows(b, upper, at);
      failures := failures + late;
    } else {
      failures := failures + [InvalidOrIncomplete];
    }
    report := if failures == [] then Report(true, [], refs) else Report(false, failures, []);
  }

  /** What a passed report vouches for, whoever wrote the rows: the stored output is the task's
      result, the policy decision covers exactly this request and did not deny it, and where it asked
      for approval the named human granted this scope in time. */
  lemma PassedMeans(b: Bundle, upper: char -> string, at: Time)
    requires ReportOf(b, upper, at).passed
    ensures |b.steps| == 1 && |b.policies| == 1 && |b.runs| == 1
    ensures b.steps[0].output == Some(Computed(upper, b.task.objective)) && b.steps[0].status.Completed?
    ensures var e := b.policies[0].evaluation;
            && !e.decision.Deny? && e.scope.invocationDigest.input == b.task.objective && e.scope.principal == b.task.principal
            && e.scope.taskId == b.task.id && e.scope.tenantId == b.task.tenant
    ensures forall id | id in ReportOf(b, upper, at).evidenceRefs :: exists x :: x in b.evidence && x.id == id
    ensures var e := b.policies[0].evaluation;
            e.decision.NeedsApproval? ==> e.approver.Some? && e.expiresAt.Some? && exists x ::
              && x in b.evidence && x.humanDecision && e.evaluatedAt <= x.capturedAt < e.expiresAt.value
              && x.fact == ApprovalFact(b.policies[0].approvalId, e.scope, ApprovalStatus.Granted, Human, e.approver.value)
  {
    hide Computed, FindEvidence;
    FoundApprovalHasId(b.approvals, b.policies[0].approvalId);
    hide FindApproval;
  }

  lemma {:induction false} FoundApprovalHasId(rows: seq<ApprovalRow>, id: Id)
    ensures FindApproval(rows, id).Some? ==> FindApproval(rows, id).value.id == id
  {
    if rows != [] { FoundApprovalHasId(rows[1..], id); }
  }

  lemma PassesWhenAllHold(b: Bundle, upper: char -> string, at: Time)
    requires b.task.status.Verifying? && b.task.lowRisk && b.task.constraints == [] && !b.task.budgeted && b.task.deadline.None?
    requires b.task.criteria == [CRITERION]
    requires Complete(b, upper)
    requires DescriptorOk(b) && RunScopeOk(b) && StepScopeOk(b) && ResultOk(b, upper) && PolicyEventOk(b) && PolicyScopeOk(b)
    requires !b.policies[0].evaluation.decision.Deny? && EvidenceTimely(b.evidence, b.task.createdAt, at)
    requires ReceiptOk(b, FindEvidence(b.evidence, b.runs[0].evidenceId))
    requires b.policies[0].evaluation.decision.NeedsApproval? ==> ApprovalOk(b)
    ensures ReportOf(b, upper, at).passed && ReportOf(b, upper, at).evidenceRefs != []
  {
  }
}
