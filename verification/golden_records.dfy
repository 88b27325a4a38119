/** What the golden stores write, when they refuse, when a report passes, and what a run ends with. */
module GoldenRecords {
  import opened Options
  import opened Lifecycle
  import opened Text
  import opened TextPlaces
  import opened Golden
  import opened GoldenVerifier
  import opened GoldenStores
  import opened GoldenWorkflow
  import opened GoldenSafety
  import opened GoldenOutcomes
  import opened GoldenDeadline
  import opened GoldenResolutions

  // ---- recording a policy decision ----

  /** The decision is about exactly this compiled task and its ready step, and every member it names may act. */
  predicate MayRecord(config: Config, rows: Rows, e: Evaluation, i: Invocation)
    requires rows.task.Some? && rows.step.Some?
  {
    var t, s := rows.task.value, rows.step.value;
    && e.scopeDigest == e.scope && e.scope.invocationDigest == i
    && t.status.Compiled? && s.status.Ready?
    && e.scope.tenantId == t.tenant && e.scope.principal == t.principal && e.scope.trace.traceId == t.traceId
    && i.input == s.input && i.key == s.key && s.capabilities == [i.capability]
    && config.member(t.tenant, t.principal, Submit)
    && (e.decision.NeedsApproval? ==> e.approver.Some? && config.member(t.tenant, e.approver.value, Approve) && rows.approval.None?)
  }

  /** A decision is recorded once, exactly when it may be, and with it opens one PENDING approval of
      the named approver exactly when it asks for one; repeated it changes nothing, and any other
      decision under its key is refused. */
  lemma RecordsExactlyWhen(config: Config, rows: Rows, e: Evaluation, i: Invocation, approvalId: Id)
    ensures var r := RecordPolicy(config, rows, e, i, approvalId);
            if KPolicy in rows.keys then
              && (r.Some? ==> r.value == rows)
              && (r.Some? <==> e.scopeDigest == e.scope && e.scope.invocationDigest == i && rows.policy.Some?
                               && (rows.policy.value.evaluation, rows.policy.value.invocation, rows.policy.value.approvalId) == (e, i, approvalId))
            else
              && (r.Some? <==> rows.task.Some? && rows.step.Some? && MayRecord(config, rows, e, i))
              && (r.Some? ==> DecisionStored(rows, e, i, approvalId, r.value))
  {
  }

  predicate DecisionStored(rows: Rows, e: Evaluation, i: Invocation, approvalId: Id, after: Rows)
    requires rows.task.Some?
  {
    && after == rows.(policy := after.policy, approval := after.approval, keys := rows.keys + {KPolicy})
    && after.policy == Some(PolicyRecord(e.id, rows.task.value.id, rows.task.value.principal.id, rows.task.value.traceId, e, i, approvalId))
    && (if e.decision.NeedsApproval? then
          && after.approval.Some? && after.approval.value.id == approvalId && after.approval.value.status.Pending?
          && e.approver.Some? && after.approval.value.requestedFrom == e.approver.value.id && after.approval.value.requestedAt == e.evaluatedAt
          && after.approval.value.resolvedAt.None? && after.approval.value.evidenceId.None?
        else after.approval == rows.approval)
  }

  // ---- recording a receipt ----

  predicate MayReceive(config: Config, rows: Rows, i: Invocation, r: CapabilityResult, evidenceId: Id)
    requires rows.task.Some? && rows.step.Some?
  {
    var t, s := rows.task.value, rows.step.value;
    && RegistryVerifies(config.upper, i, r)
    && t.status.Running? && t.lowRisk && t.traceId == i.trace.traceId
    && s.status.Running? && s.deterministic && s.lowRisk && s.key == i.key && s.input == i.input && s.capabilities == [i.capability]
    && (rows.version.Some? ==> rows.version.value == UPPERCASE_DESCRIPTOR)
    && (forall x | x in rows.evidence :: x.id != evidenceId) && KCapability !in rows.keys
  }

  /** The result that was received, the row and the evidence for it, and nothing else. */
  predicate ReceiptStored(rows: Rows, i: Invocation, r: CapabilityResult, evidenceId: Id, at: Time, after: Rows)
    requires rows.task.Some? && rows.step.Some?
  {
    && after == rows.(version := after.version, evidence := after.evidence, run := after.run, keys := rows.keys + {KCapability})
    && after.version == Some(UPPERCASE_DESCRIPTOR)
    && after.evidence == rows.evidence + [Evidence(evidenceId, rows.task.value.id, rows.step.value.id, false, at,
                                                    ReceiptFact(i.capability, i.runId, i, r.output, UPPERCASE_DESCRIPTOR, r))]
    && after.run == Some(CapabilityRun(i.runId, rows.task.value.id, rows.step.value.id, i.key, i, r, evidenceId, UPPERCASE_DESCRIPTOR))
  }

  lemma ReceivesExactlyWhen(config: Config, rows: Rows, i: Invocation, r: CapabilityResult, evidenceId: Id, at: Time)
    ensures var received := RecordReceipt(config, rows, i, r, evidenceId, at);
            if rows.run.Some? then
              && (received.Some? ==> received.value == rows)
              && (received.Some? <==> RegistryVerifies(config.upper, i, r) && rows.run.value.key == i.key
                                      && rows.run.value.requestDigest == i && rows.run.value.result == r)
            else
              && (received.Some? <==> rows.task.Some? && rows.step.Some? && MayReceive(config, rows, i, r, evidenceId))
              && (received.Some? ==> ReceiptStored(rows, i, r, evidenceId, at, received.value))
  {
    if RegistryVerifies(config.upper, i, r) { ReceiptNames(config.upper, i, r); }
    hide RegistryVerifies;
  }

  lemma ReceiptNames(upper: char -> string, i: Invocation, r: CapabilityResult)
    requires RegistryVerifies(upper, i, r)
    ensures r.requestDigest == i && r.outputDigest == r.output && r.descriptorDigest == UPPERCASE_DESCRIPTOR && i.capability == UPPERCASE
  {
  }

  // ---- final verification ----

  predicate Answered(o: Outcome, t: Task, passed: bool, refs: seq<Id>) {
    && o.taskId == t.id && o.status == (if passed then TaskStatus.Completed else TaskStatus.Failed) && o.evidenceRefs == refs
    && |o.acceptanceResults| == |t.criteria|
    && forall k | 0 <= k < |t.criteria| :: o.acceptanceResults[k] == AcceptanceResult(t.criteria[k], passed, refs)
  }

  /** The report decides: it passes exactly when nothing is amiss, and then cites its evidence. */
  lemma VerdictStored(config: Config, rows: Rows, at: Time)
    requires FinishTask(config, rows, at).Some? && rows.outcome.None?
    ensures rows.task.Some? && rows.task.value.status.Verifying?
    ensures var (after, o) := FinishTask(config, rows, at).value; var report := ReportOf(BundleOf(rows), config.upper, at);
            && Answered(o, rows.task.value, report.passed, report.evidenceRefs)
            && after == rows.(task := Some(rows.task.value.(status := o.status)), outcome := Some(o), keys := rows.keys + {KFinal})
            && (report.passed ==> o.summary == Trim(Computed(config.upper, rows.task.value.objective)))
  {
    hide ReportOf, BundleOf, Trim, Computed, ValidOutcome;
  }

  // ---- when a report passes ----

  predicate TaskSupported(t: Task) {
    && t.status.Verifying? && t.lowRisk && t.constraints == [] && !t.budgeted && t.deadline.None? && t.criteria == [CRITERION]
  }

  /** The one step ran this request and holds the recomputed result, as does the one run of it. */
  predicate ResultProved(t: Task, s: Step, run: CapabilityRun, i: Invocation, upper: char -> string) {
    && RegistryVerifies(upper, i, run.result) && run.descriptor == UPPERCASE_DESCRIPTOR
    && run.id == i.runId && run.taskId == t.id && run.stepId == s.id && i.taskId == t.id && i.stepId == s.id
    && s.taskId == t.id && s.status.Completed? && s.deterministic && s.lowRisk && s.dependencies == []
    && s.capabilities == [UPPERCASE] && s.key == i.key
    && i.input == t.objective && s.input == t.objective && s.output == Some(Computed(upper, t.objective))
  }

  predicate DecisionProved(t: Task, s: Step, p: PolicyRecord) {
    var e, i := p.evaluation, p.invocation;
    && p.id == e.id && p.taskId == t.id && p.actorId == t.principal.id && p.traceId == t.traceId
    && !e.decision.Deny? && e.scopeDigest == e.scope && e.scope.invocationDigest == i && e.scope.descriptorDigest == UPPERCASE_DESCRIPTOR
    && e.scope.taskId == t.id && e.scope.stepId == s.id && e.scope.tenantId == t.tenant && e.scope.principal == t.principal
    && e.scope.trace == i.trace && i.trace.traceId == t.traceId && e.scope.capability == i.capability
  }

  predicate ReceiptProved(t: Task, s: Step, run: CapabilityRun, i: Invocation, found: Option<Evidence>) {
    && found.Some? && found.value.taskId == t.id && found.value.stepId == s.id && !found.value.humanDecision
    && found.value.fact == ReceiptFact(UPPERCASE, i.runId, i, run.result.output, UPPERCASE_DESCRIPTOR, run.result)
  }

  /** The evidence of the approval row is the named approver's grant of this scope, in time. */
  predicate GrantProved(t: Task, s: Step, e: Evaluation, row: Option<ApprovalRow>, evidence: seq<Evidence>) {
    && row.Some? && row.value.status.Granted? && row.value.evidenceId.Some? && e.approver.Some? && e.expiresAt.Some?
    && var found := FindEvidence(evidence, row.value.evidenceId.value);
       && found.Some? && found.value.taskId == t.id && found.value.stepId == s.id && found.value.humanDecision
       && found.value.fact == ApprovalFact(row.value.id, e.scope, ApprovalStatus.Granted, Human, e.approver.value)
       && e.evaluatedAt <= found.value.capturedAt < e.expiresAt.value
  }

  /** A report passes exactly when the rows prove all of this, and the evidence was taken in time. */
  lemma PassesExactlyWhen(b: Bundle, upper: char -> string, at: Time)
    ensures ReportOf(b, upper, at).passed <==>
      && TaskSupported(b.task) && |b.steps| == 1 && |b.runs| == 1 && |b.policies| == 1
      && var s, run, p := b.steps[0], b.runs[0], b.policies[0];
         && ResultProved(b.task, s, run, p.invocation, upper)
         && DecisionProved(b.task, s, p)
         && (forall x | x in b.evidence :: b.task.createdAt <= x.capturedAt <= at)
         && ReceiptProved(b.task, s, run, p.invocation, FindEvidence(b.evidence, run.evidenceId))
         && (p.evaluation.decision.NeedsApproval? ==> GrantProved(b.task, s, p.evaluation, FindApproval(b.approvals, p.approvalId), b.evidence))
  {
    hide FindEvidence, FindApproval;
    if Complete(b, upper) {
      ReceiptNames(upper, b.policies[0].invocation, b.runs[0].result);
      OutputComputed(upper, b.policies[0].invocation, b.runs[0].result);
    }
    hide RegistryVerifies, Computed;
  }

  lemma OutputComputed(upper: char -> string, i: Invocation, r: CapabilityResult)
    requires RegistryVerifies(upper, i, r)
    ensures r.output == Computed(upper, i.input)
  {
    hide Computed;
  }

  // ---- what runs end with ----

  /** A completed golden task's summary is its objective with every character upper-cased. */
  lemma SummaryIsUppercase(config: Config, job: Job, o: Outcome)
    requires ValidJob(job) && Completes(config, job, o) && CaseMapping(config.upper)
    requires forall c | c in job.task.objective :: |config.upper(c)| == 1
    ensures |o.summary| == |job.task.objective|
    ensures forall k | 0 <= k < |o.summary| :: o.summary[k] == config.upper(job.task.objective[k])[0]
  {
    var s := job.task.objective;
    var out := UpperAll(config.upper, s);
    UpperKeepsText(config.upper, s);
    assert Trim(s) == s && Trim(out) == out;
    hide Trim, UpperAll, IsText, CaseMapping;
    ImagesAreUpper(config.upper, s, out);
    OneToOneImages(config.upper, s, out);
  }

  /** A denied task fails: it never asks anyone and nothing is verified. */
  lemma DeniedFails(config: Config, job: Job, version: Option<Descriptor>, trace: seq<Action>)
    requires ValidRules(config.rules)
    requires var w := Run(config, job, version, trace);
             w.journal.stage.Ended? && w.rows.policy.Some? && w.rows.policy.value.evaluation.decision.Deny?
    ensures var w := Run(config, job, version, trace);
            TaskFailed(w) && w.journal.outcome.None? && w.rows.approval.None?
  {
    var w := Run(config, job, version, trace);
    RunKeepsInv(config, job, version, trace);
    RunKeepsDenied(config, job, version, trace);
    RecordedEvaluation(config, job, w);
    NothingAsked(config, job, w);
    hide Run, Inv, ValidRules;
  }

  lemma NothingAsked(config: Config, job: Job, w: World)
    requires ValidRules(config.rules) && Inv(config, job, w) && w.rows.policy.Some? && !w.rows.policy.value.evaluation.decision.NeedsApproval?
    ensures w.rows.approval.None?
  {
    hide LedgerInv, PolicyInv, GrantInv, JournalInv, Proper, RowCoherent, ValidRules;
  }

  predicate DeniedInv(w: World) {
    w.journal.evaluation.Some? && w.journal.evaluation.value.decision.Deny? ==>
      && w.journal.outcome.None?
      && (w.journal.stage.Ended? ==> TaskFailed(w))
  }

  lemma AdvanceKeepsDenied(config: Config, job: Job, w: World, now: Time, evidenceId: Id)
    requires ValidRules(config.rules) && Inv(config, job, w) && ConclusionInv(w) && PathInv(w) && DeniedInv(w) && Effect(config, job, w, now, evidenceId).Some?
    ensures DeniedInv(World(Effect(config, job, w, now, evidenceId).value, Journaled(config, job, w, now, evidenceId)))
  {
    if Over(w.journal.stage) {
      OverIsIdle(config, job, w, now, evidenceId);
    } else {
      JournaledFollows(config, job, w, now, evidenceId);
      FinishedOutcome(config, job, w, now, evidenceId);
      EarlyOutcome(w);
      if w.journal.stage.Denying? { DenyingFails(config, job, w, now, evidenceId); }
      DeniedStages(config, job, w);
    }
    hide Effect, Journaled, Inv, ConclusionInv, ValidRules;
  }

  lemma EarlyOutcome(w: World)
    requires PathInv(w) && !w.journal.stage.Ended?
    ensures w.journal.outcome.None?
  {
  }

  lemma DenyingFails(config: Config, job: Job, w: World, now: Time, evidenceId: Id)
    requires ValidRules(config.rules) && Inv(config, job, w) && w.journal.stage.Denying?
    requires Effect(config, job, w, now, evidenceId).Some?
    ensures TaskFailed(w.(rows := Effect(config, job, w, now, evidenceId).value))
  {
    hide PolicyInv, ApprovalCoherent, GrantInv, JournalInv, ValidRules, StepIn, Allowed;
  }

  lemma DeniedStages(config: Config, job: Job, w: World)
    requires ValidRules(config.rules) && Inv(config, job, w)
    ensures w.journal.stage.Finishing? || w.journal.stage.Rejecting? ==> w.journal.evaluation.Some? && !w.journal.evaluation.value.decision.Deny?
  {
    hide LedgerInv, ApprovalCoherent, GrantInv, JournalInv, OwnEvaluation, RecordOf, ValidRules;
  }

  lemma {:induction false} RunKeepsDenied(config: Config, job: Job, version: Option<Descriptor>, trace: seq<Action>)
    requires ValidRules(config.rules)
    ensures DeniedInv(Run(config, job, version, trace))
  {
    hide Effect, Journaled, FinishApproval, Inv, ConclusionInv, PathInv, ValidRules;
    if trace != [] {
      var init, a := trace[..|trace| - 1], trace[|trace| - 1];
      RunKeepsDenied(config, job, version, init);
      RunKeepsInv(config, job, version, init);
      RunKeepsConclusion(config, job, version, init);
      RunKeepsPath(config, job, version, init);
      var w := Run(config, job, version, init);
      match a {
        case Advance(now, evidenceId) =>
          if Effect(config, job, w, now, evidenceId).Some? { AdvanceKeepsDenied(config, job, w, now, evidenceId); }
        case Crashed(now, evidenceId) =>
          if w.journal.stage.Ended? { OverIsIdle(config, job, w, now, evidenceId); }
        case Outside(call, now, evidenceId) =>
          if FinishApproval(config, w.rows, call, evidenceId, now).Some? { CallFrame(config, w.rows, call, evidenceId, now); }
      }
    }
  }
}
