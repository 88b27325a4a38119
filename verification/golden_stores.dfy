/** The transactions of one golden task: ledger writes, policy and approval, receipt, final verification. */
module GoldenStores {
  import opened Options
  import opened Lifecycle
  import opened Text
  import opened Golden
  import opened GoldenVerifier

  datatype Permission = Submit | Approve | CancelTask

  datatype Config = Config(rules: Rules, upper: char -> string, member: (Id, Principal, Permission) -> bool)

  // ---- the ledger, for the writes of this workflow ----

  function Emit(rows: Rows, key: EventKey, task: Task, step: Option<Step>): Option<Rows> {
    if key in rows.keys then Some(rows)
    else if (if rows.task.None? then !task.status.Received?
             else rows.task.value.status != task.status && task.status !in Transitions(rows.task.value.status)) then None
    else Some(rows.(task := Some(task), step := if step.Some? then step else rows.step, keys := rows.keys + {key}))
  }

  // ---- recording a policy decision ----

  predicate MatchesStep(t: Task, s: Step, e: Evaluation, i: Invocation) {
    && t.status.Compiled? && s.status.Ready?
    && t.tenant == e.scope.tenantId && t.principal == e.scope.principal && t.traceId == e.scope.trace.traceId
    && s.input == i.input && s.key == i.key && s.capabilities == [i.capability]
  }

  function RecordPolicy(config: Config, rows: Rows, e: Evaluation, i: Invocation, approvalId: Id): Option<Rows> {
    if e.scopeDigest != e.scope || e.scope.invocationDigest != i then None
    else if KPolicy in rows.keys then
      if rows.policy.Some? && rows.policy.value.evaluation == e && rows.policy.value.invocation == i && rows.policy.value.approvalId == approvalId
      then Some(rows) else None
    else if rows.task.None? || rows.step.None? || !MatchesStep(rows.task.value, rows.step.value, e, i) then None
    else
      var t := rows.task.value;
      if !config.member(t.tenant, t.principal, Submit) then None
      else if e.decision.NeedsApproval? && (e.approver.None? || !config.member(t.tenant, e.approver.value, Approve) || rows.approval.Some?) then None
      else
        var record := PolicyRecord(e.id, t.id, t.principal.id, t.traceId, e, i, approvalId);
        var approval := if e.decision.NeedsApproval?
          then Some(ApprovalRow(approvalId, Pending, e.approver.value.id, e.evaluatedAt, None, None)) else rows.approval;
        Some(rows.(policy := Some(record), approval := approval, keys := rows.keys + {KPolicy}))
  }

  // ---- resolving an approval ----

  datatype Call = Answer(grant: bool, actor: Principal, digest: Scope) | Cancel(actor: Principal) | Expire

  datatype Resolution = Resolution(status: ApprovalStatus, reason: Option<Reason>)

  function Stored(rows: Rows): Resolution
    requires rows.approval.Some?
  {
    var row := rows.approval.value;
    var found := if row.evidenceId.Some? then FindEvidence(rows.evidence, row.evidenceId.value) else None;
    Resolution(row.status, if found.Some? && found.value.fact.ApprovalFact? then Some(found.value.fact.reason) else None)
  }

  /** Who may make the call, and for what. */
  predicate Entitled(config: Config, e: Evaluation, call: Call) {
    match call
    case Expire => true
    case Cancel(actor) => actor == e.scope.principal && config.member(e.scope.tenantId, actor, CancelTask)
    case Answer(_, actor, digest) => Some(actor) == e.approver && digest == e.scopeDigest && config.member(e.scope.tenantId, actor, Approve)
  }

  function Attributed(e: Evaluation, call: Call): Principal {
    match call case Expire => e.scope.principal case Cancel(actor) => actor case Answer(_, actor, _) => actor
  }

  function Settle(e: Evaluation, call: Call, status: TaskStatus, now: Time): Resolution
    requires e.expiresAt.Some?
  {
    if now >= e.expiresAt.value then Resolution(Expired, Some(Deadline))
    else if call.Cancel? || status.Cancelled? then Resolution(Denied, Some(Withdrawn))
    else Resolution(if call.Answer? && call.grant then ApprovalStatus.Granted else Denied, Some(Human))
  }

  /** One resolve, cancel or expire, on the database's clock. None where it throws. */
  function FinishApproval(config: Config, rows: Rows, call: Call, evidenceId: Id, now: Time): Option<(Rows, Resolution)> {
    if rows.approval.None? || rows.policy.None? || rows.task.None? || rows.policy.value.evaluation.expiresAt.None? then None
    else
      var e, row, status := rows.policy.value.evaluation, rows.approval.value, rows.task.value.status;
      if !Entitled(config, e, call) then None
      else if !row.status.Pending? then Some((rows, Stored(rows)))
      else if call.Expire? && now < e.expiresAt.value then Some((rows, Stored(rows)))
      else if !(call.Cancel? || status.Cancelled?) && !status.Compiled? && !status.ApprovalRequired? then None
      else if FindEvidence(rows.evidence, evidenceId).Some? || now < row.requestedAt || KResolved in rows.keys then None
      else
        var r := Settle(e, call, status, now);
        var fact := ApprovalFact(row.id, e.scopeDigest, r.status, r.reason.value, Attributed(e, call));
        var evidence := Evidence(evidenceId, e.scope.taskId, e.scope.stepId, r.reason == Some(Human), now, fact);
        Some((rows.(approval := Some(row.(status := r.status, resolvedAt := Some(now), evidenceId := Some(evidenceId))),
                    evidence := rows.evidence + [evidence], keys := rows.keys + {KResolved}), r))
  }

  // ---- recording a receipt ----

  predicate MatchesRunning(t: Task, s: Step, i: Invocation) {
    && t.status.Running? && t.lowRisk && t.traceId == i.trace.traceId
    && s.status.Running? && s.deterministic && s.lowRisk && s.key == i.key && s.input == i.input && s.capabilities == [i.capability]
  }

  function RecordReceipt(config: Config, rows: Rows, i: Invocation, r: CapabilityResult, evidenceId: Id, at: Time): Option<Rows> {
    if !RegistryVerifies(config.upper, i, r) then None
    else if rows.run.Some? && rows.run.value.key == i.key then
      if rows.run.value.requestDigest == r.requestDigest && rows.run.value.result == r then Some(rows) else None
    else if rows.task.None? || rows.step.None? || !MatchesRunning(rows.task.value, rows.step.value, i) then None
    else if rows.version.Some? && rows.version.value != UPPERCASE_DESCRIPTOR then None
    else if FindEvidence(rows.evidence, evidenceId).Some? || KCapability in rows.keys || rows.run.Some? then None
    else
      var t, s := rows.task.value, rows.step.value;
      var fact := ReceiptFact(i.capability, i.runId, r.requestDigest, r.outputDigest, r.descriptorDigest, r);
      Some(rows.(version := Some(UPPERCASE_DESCRIPTOR),
                 evidence := rows.evidence + [Evidence(evidenceId, t.id, s.id, false, at, fact)],
                 run := Some(CapabilityRun(i.runId, t.id, s.id, i.key, r.requestDigest, r, evidenceId, UPPERCASE_DESCRIPTOR)),
                 keys := rows.keys + {KCapability}))
  }

  // ---- final verification ----

  function Listed<T>(row: Option<T>): seq<T> {
    if row.Some? then [row.value] else []
  }

  function BundleOf(rows: Rows): Bundle
    requires rows.task.Some?
  {
    Bundle(rows.task.value, Listed(rows.step), Listed(rows.run), rows.evidence, Listed(rows.policy), Listed(rows.approval))
  }

  function Met(criteria: seq<string>, passed: bool, refs: seq<Id>): seq<AcceptanceResult> {
    seq(|criteria|, k requires 0 <= k < |criteria| => AcceptanceResult(criteria[k], passed, refs))
  }

  function OutcomeOf(t: Task, report: Report, upper: char -> string): Outcome {
    Outcome(t.id, if report.passed then TaskStatus.Completed else TaskStatus.Failed, Met(t.criteria, report.passed, report.evidenceRefs),
            report.evidenceRefs, if report.passed then Trim(Computed(upper, t.objective)) else "Verification failed")
  }

  function FinishTask(config: Config, rows: Rows, at: Time): Option<(Rows, Outcome)> {
    if rows.outcome.Some? then Some((rows, rows.outcome.value))
    else if rows.task.None? || !rows.task.value.status.Verifying? || KFinal in rows.keys then None
    else
      var t := rows.task.value;
      var outcome := OutcomeOf(t, ReportOf(BundleOf(rows), config.upper, at), config.upper);
      if !ValidOutcome(outcome) then None
      else Some((rows.(task := Some(t.(status := outcome.status)), outcome := Some(outcome), keys := rows.keys + {KFinal}), outcome))
  }

  // ---- the stores ----

  /** The database holding one golden task's rows; a transaction that throws leaves them alone. */
  class GoldenDatabase {
    const config: Config
    var rows: Rows

    constructor (config: Config, version: Option<Descriptor>)
      ensures this.config == config && rows == Rows(None, None, None, None, [], None, version, {}, None)
    {
      this.config := config;
      rows := Rows(None, None, None, None, [], None, version, {}, None);
    }

    method WriteLedger(key: EventKey, task: Task, step: Option<Step>) returns (ok: bool)
      modifies this
      ensures ok == Emit(old(rows), key, task, step).Some?
      ensures rows == Emit(old(rows), key, task, step).GetOr(old(rows))
    {
      if key in rows.keys {
        return true;
      }
      if rows.task.None? {
        if !task.status.Received? { return false; }
      } else if rows.task.value.status != task.status && task.status !in Transitions(rows.task.value.status) {
        return false;
      }
      rows := rows.(task := Some(task), keys := rows.keys + {key});
      if step.Some? {
        rows := rows.(step := step);
      }
      return true;
    }

    method Record(e: Evaluation, i: Invocation, approvalId: Id) returns (ok: bool)
      modifies this
      ensures ok == RecordPolicy(config, old(rows), e, i, approvalId).Some?
      ensures rows == RecordPolicy(config, old(rows), e, i, approvalId).GetOr(old(rows))
    {
      if e.scopeDigest != e.scope || e.scope.invocationDigest != i {
        return false;
      }
      if KPolicy in rows.keys {
        ok := rows.policy.Some? && rows.policy.value.evaluation == e && rows.policy.value.invocation == i && rows.policy.value.approvalId == approvalId;
        return;
      }
      if rows.task.None? || rows.step.None? || !MatchesStep(rows.task.value, rows.step.value, e, i) {
        return false;
      }
      var t := rows.task.value;
      if !config.member(t.tenant, t.principal, Submit) {
        return false;
      }
      var staged := rows;
      if e.decision.NeedsApproval? {
        if e.approver.None? || !config.member(t.tenant, e.approver.value, Approve) || staged.approval.Some? {
          return false;
        }
        staged := staged.(approval := Some(ApprovalRow(approvalId, Pending, e.approver.value.id, e.evaluatedAt, None, None)));
      }
      rows := staged.(policy := Some(PolicyRecord(e.id, t.id, t.principal.id, t.traceId, e, i, approvalId)), keys := staged.keys + {KPolicy});
      return true;
    }

    method Finish(call: Call, evidenceId: Id, now: Time) returns (r: Option<Resolution>)
      modifies this
      ensures r.Some? <==> FinishApproval(config, old(rows), call, evidenceId, now).Some?
      ensures r.Some? ==> (rows, r.value) == FinishApproval(config, old(rows), call, evidenceId, now).value
      ensures r.None? ==> rows == old(rows)
    {
      hide FindEvidence;
      if rows.approval.None? || rows.policy.None? || rows.task.None? || rows.policy.value.evaluation.expiresAt.None? {
        return None;
      }
      var e, row, status := rows.policy.value.evaluation, rows.approval.value, rows.task.value.status;
      if !Entitled(config, e, call) {
        return None;
      }
      if !row.status.Pending? {
        return Some(Stored(rows));
      }
      var expired := now >= e.expiresAt.value;
      if call.Expire? && !expired {
        return Some(Stored(rows));
      }
      var cancelled := call.Cancel? || status.Cancelled?;
      if !cancelled && !status.Compiled? && !status.ApprovalRequired? {
        return None;
      }
      if FindEvidence(rows.evidence, evidenceId).Some? || now < row.requestedAt || KResolved in rows.keys {
        return None;
      }
      var settled := if expired then Expired else if cancelled then Denied else if call.Answer? && call.grant then ApprovalStatus.Granted else Denied;
      var reason := if expired then Deadline else if cancelled then Withdrawn else Human;
      var evidence := Evidence(evidenceId, e.scope.taskId, e.scope.stepId, reason == Human, now,
                               ApprovalFact(row.id, e.scopeDigest, settled, reason, Attributed(e, call)));
      rows := rows.(evidence := rows.evidence + [evidence],
                    approval := Some(row.(status := settled, resolvedAt := Some(now), evidenceId := Some(evidenceId))),
                    keys := rows.keys + {KResolved});
      return Some(Resolution(settled, Some(reason)));
    }

    method Receive(i: Invocation, result: CapabilityResult, evidenceId: Id, at: Time) returns (ok: bool)
      modifies this
      ensures ok == RecordReceipt(config, old(rows), i, result, evidenceId, at).Some?
      ensures rows == RecordReceipt(config, old(rows), i, result, evidenceId, at).GetOr(old(rows))
    {
      hide RegistryVerifies, FindEvidence;
      if !RegistryVerifies(config.upper, i, result) {
        return false;
      }
      if rows.run.Some? && rows.run.value.key == i.key {
        return rows.run.value.requestDigest == result.requestDigest && rows.run.value.result == result;
      }
      if rows.task.None? || rows.step.None? || !MatchesRunning(rows.task.value, rows.step.value, i) {
        return false;
      }
      var definition := rows.version.GetOr(UPPERCASE_DESCRIPTOR);
      if definition != UPPERCASE_DESCRIPTOR {
        return false;
      }
      if FindEvidence(rows.evidence, evidenceId).Some? || KCapability in rows.keys || rows.run.Some? {
        return false;
      }
      var t, s := rows.task.value, rows.step.value;
      var receipt := Evidence(evidenceId, t.id, s.id, false, at,
                              ReceiptFact(i.capability, i.runId, result.requestDigest, result.outputDigest, result.descriptorDigest, result));
      var run := CapabilityRun(i.runId, t.id, s.id, i.key, result.requestDigest, result, evidenceId, UPPERCASE_DESCRIPTOR);
      rows := rows.(version := Some(UPPERCASE_DESCRIPTOR), evidence := rows.evidence + [receipt], run := Some(run), keys := rows.keys + {KCapability});
      return true;
    }

    method VerifyAndFinish(at: Time) returns (outcome: Option<Outcome>)
      modifies this
      ensures outcome.Some? <==> FinishTask(config, old(rows), at).Some?
      ensures outcome.Some? ==> (rows, outcome.value) == FinishTask(config, old(rows), at).value
      ensures outcome.None? ==> rows == old(rows)
    {
      hide ReportOf, ValidOutcome;
      if rows.outcome.Some? {
        return rows.outcome;
      }
      if rows.task.None? || !rows.task.value.status.Verifying? || KFinal in rows.keys {
        return None;
      }
      var t := rows.task.value;
      var report := VerifyTaskEvidence(BundleOf(rows), config.upper, at);
      var o := OutcomeOf(t, report, config.upper);
      if !ValidOutcome(o) {
        return None;
      }
      rows := rows.(task := Some(t.(status := o.status)), outcome := Some(o), keys := rows.keys + {KFinal});
      return Some(o);
    }
  }
}
