/** One golden task: its rows, its policy decision, its capability receipt. Digests are the values
    they are taken of. */
module Golden {
  import opened Options
  import opened Lifecycle
  import opened Text

  type Time = int

  datatype Principal = Principal(id: Id, human: bool)

  datatype CapabilityRef = CapabilityRef(id: Id, version: string)

  const UPPERCASE := CapabilityRef("60000000-0000-4000-8000-000000000001", "1.0.0")

  /** A registered capability's full definition; its digest stands for all of it. */
  datatype Descriptor = Descriptor(ref: CapabilityRef, definition: string)

  const UPPERCASE_DESCRIPTOR := Descriptor(UPPERCASE, "Trim and uppercase text")

  const CRITERION := "Output equals uppercase(trim(objective))"

  const RECIPE_KEY := "policy-uppercase-1"

  const MAX_INPUT := 16_384
  const MAX_OUTPUT := 49_152

  datatype Task = Task(
    id: Id, tenant: Id, principal: Principal, traceId: Id, objective: string, criteria: seq<string>,
    lowRisk: bool, constraints: seq<string>, budgeted: bool, deadline: Option<Time>, status: TaskStatus, createdAt: Time)

  datatype Step = Step(
    id: Id, taskId: Id, status: TaskStatus, deterministic: bool, lowRisk: bool, dependencies: seq<Id>,
    capabilities: seq<CapabilityRef>, input: string, output: Option<string>, key: string)

  datatype Trace = Trace(traceId: Id, correlationId: Id)

  datatype Invocation = Invocation(runId: Id, taskId: Id, stepId: Id, trace: Trace, capability: CapabilityRef, key: string, input: string)

  datatype CapabilityResult = CapabilityResult(
    runId: Id, taskId: Id, stepId: Id, trace: Trace, capability: CapabilityRef, key: string,
    requestDigest: Invocation, descriptorDigest: Descriptor, output: string, outputDigest: string)

  // ---- policy ----

  datatype Decision = Allow | Deny | NeedsApproval

  datatype Rule = Rule(tenantId: Id, principalId: Id, capability: CapabilityRef, effect: Decision, approver: Option<Principal>, ttlMs: Option<nat>)

  datatype Rules = Rules(version: string, rules: seq<Rule>)

  predicate ValidRule(r: Rule) {
    if r.effect.NeedsApproval? then r.approver.Some? && r.approver.value.human && r.ttlMs.Some? && 100 <= r.ttlMs.value <= 86_400_000
    else r.approver.None? && r.ttlMs.None?
  }

  predicate ValidRules(rules: Rules) {
    && (forall r | r in rules.rules :: ValidRule(r))
    && (forall i, j | 0 <= i < j < |rules.rules| ::
          rules.rules[i].tenantId != rules.rules[j].tenantId || rules.rules[i].principalId != rules.rules[j].principalId
          || rules.rules[i].capability != rules.rules[j].capability)
  }

  datatype Scope = Scope(
    taskId: Id, stepId: Id, tenantId: Id, principal: Principal, trace: Trace, capability: CapabilityRef,
    invocationDigest: Invocation, descriptorDigest: Descriptor, policyVersion: string)

  datatype Evaluation = Evaluation(
    id: Id, decision: Decision, reason: string, evaluatedAt: Time, scope: Scope, scopeDigest: Scope,
    approver: Option<Principal>, expiresAt: Option<Time>)

  function FindRule(rules: seq<Rule>, tenantId: Id, principalId: Id, capability: CapabilityRef): (r: Option<Rule>)
    ensures r.Some? ==> r.value in rules
  {
    if rules == [] then None
    else if rules[0].tenantId == tenantId && rules[0].principalId == principalId && rules[0].capability == capability then Some(rules[0])
    else FindRule(rules[1..], tenantId, principalId, capability)
  }

  predicate Bound(t: Task, s: Step, i: Invocation, d: Descriptor) {
    && t.status.Compiled? && s.status.Ready?
    && s.taskId == t.id && i.taskId == t.id && i.stepId == s.id && i.trace.traceId == t.traceId
    && s.capabilities == [i.capability] && s.input == i.input && s.key == i.key && d.ref == i.capability
  }

  function EvaluatePolicy(rules: Rules, t: Task, s: Step, i: Invocation, d: Descriptor, id: Id, at: Time): (e: Evaluation)
    requires ValidRules(rules)
    ensures e.decision.NeedsApproval? ==> e.approver.Some? && e.approver.value.human && e.expiresAt.Some? && e.evaluatedAt < e.expiresAt.value
    ensures !e.decision.NeedsApproval? ==> e.approver.None? && e.expiresAt.None?
    ensures !e.decision.Deny? ==> Bound(t, s, i, d)
  {
    var scope := Scope(t.id, s.id, t.tenant, t.principal, i.trace, i.capability, i, d, rules.version);
    var rule := FindRule(rules.rules, t.tenant, t.principal.id, i.capability);
    if !Bound(t, s, i, d) then Evaluation(id, Deny, "SCOPE_MISMATCH", at, scope, scope, None, None)
    else if t.constraints != [] || t.budgeted || t.deadline.Some? then Evaluation(id, Deny, "UNSUPPORTED_TASK_REQUIREMENTS", at, scope, scope, None, None)
    else if !t.lowRisk || !s.lowRisk || !s.deterministic then Evaluation(id, Deny, "UNSUPPORTED_CAPABILITY", at, scope, scope, None, None)
    else if rule.None? then Evaluation(id, Deny, "NO_MATCHING_RULE", at, scope, scope, None, None)
    else if rule.value.effect.NeedsApproval? then
      assert ValidRule(rule.value);
      Evaluation(id, NeedsApproval, "EXPLICIT_RULE", at, scope, scope, rule.value.approver, Some(at + rule.value.ttlMs.value))
    else Evaluation(id, rule.value.effect, "EXPLICIT_RULE", at, scope, scope, None, None)
  }

  predicate Governs(r: Rule, t: Task, i: Invocation) {
    r.tenantId == t.tenant && r.principalId == t.principal.id && r.capability == i.capability
  }

  /** What this policy can decide about at all. */
  predicate Supported(t: Task, s: Step) {
    t.constraints == [] && !t.budgeted && t.deadline.None? && t.lowRisk && s.lowRisk && s.deterministic
  }

  lemma {:induction false} FoundGoverns(rules: seq<Rule>, t: Task, i: Invocation)
    ensures var r := FindRule(rules, t.tenant, t.principal.id, i.capability);
            (r.Some? ==> Governs(r.value, t, i)) && (r.None? ==> forall x | x in rules :: !Governs(x, t, i))
  {
    if rules != [] {
      FoundGoverns(rules[1..], t, i);
      assert rules == [rules[0]] + rules[1..];
    }
  }

  /** The decision is the governing rule's own, wherever it stands in the list, for a bound and
      supported request, and a denial for every other; the scope names exactly the request judged. */
  lemma PolicyFollowsItsRule(rules: Rules, t: Task, s: Step, i: Invocation, d: Descriptor, id: Id, at: Time)
    requires ValidRules(rules)
    ensures var e := EvaluatePolicy(rules, t, s, i, d, id, at);
            && e.scopeDigest == e.scope && e.id == id && e.evaluatedAt == at
            && e.scope == Scope(t.id, s.id, t.tenant, t.principal, i.trace, i.capability, i, d, rules.version)
    ensures forall r | r in rules.rules && Governs(r, t, i) :: var e := EvaluatePolicy(rules, t, s, i, d, id, at);
              && e.decision == (if Bound(t, s, i, d) && Supported(t, s) then r.effect else Deny)
              && (e.decision.NeedsApproval? ==> e.approver == r.approver && e.expiresAt == Some(at + r.ttlMs.value))
    ensures (forall r | r in rules.rules :: !Governs(r, t, i)) ==> EvaluatePolicy(rules, t, s, i, d, id, at).decision.Deny?
  {
    FoundGoverns(rules.rules, t, i);
    var found := FindRule(rules.rules, t.tenant, t.principal.id, i.capability);
    forall r | r in rules.rules && Governs(r, t, i) ensures found == Some(r) {
      OneRuleGoverns(rules, found.value, r, t, i);
    }
    hide FindRule, Bound;
  }

  lemma OneRuleGoverns(rules: Rules, a: Rule, b: Rule, t: Task, i: Invocation)
    requires ValidRules(rules) && a in rules.rules && b in rules.rules && Governs(a, t, i) && Governs(b, t, i)
    ensures a == b
  {
    var j :| 0 <= j < |rules.rules| && rules.rules[j] == a;
    var k :| 0 <= k < |rules.rules| && rules.rules[k] == b;
  }

  // ---- the capability registry ----

  function Computed(upper: char -> string, input: string): string {
    UpperAll(upper, Trim(input))
  }

  /** The registry's own check of a receipt against its request. */
  predicate RegistryVerifies(upper: char -> string, i: Invocation, r: CapabilityResult) {
    && i.capability == UPPERCASE && |i.input| <= MAX_INPUT
    && r.runId == i.runId && r.taskId == i.taskId && r.stepId == i.stepId && r.trace == i.trace && r.capability == i.capability
    && r.key == i.key && r.requestDigest == i && r.descriptorDigest == UPPERCASE_DESCRIPTOR && r.outputDigest == r.output
    && |r.output| <= MAX_OUTPUT && r.output == Computed(upper, i.input)
  }

  function Execute(upper: char -> string, i: Invocation): (r: Option<CapabilityResult>)
    ensures r.Some? ==> RegistryVerifies(upper, i, r.value)
  {
    if i.capability != UPPERCASE || |i.input| > MAX_INPUT || |Computed(upper, i.input)| > MAX_OUTPUT then None
    else
      var output := Computed(upper, i.input);
      Some(CapabilityResult(i.runId, i.taskId, i.stepId, i.trace, i.capability, i.key, i, UPPERCASE_DESCRIPTOR, output, output))
  }

  // ---- rows ----

  datatype ApprovalStatus = Pending | Granted | Denied | Expired

  datatype Reason = Human | Deadline | Withdrawn

  datatype ApprovalRow = ApprovalRow(
    id: Id, status: ApprovalStatus, requestedFrom: Id, requestedAt: Time, resolvedAt: Option<Time>, evidenceId: Option<Id>)

  /** The metadata of an evidence row; its digest is taken of the same. */
  datatype Fact =
    | ApprovalFact(approvalId: Id, scopeDigest: Scope, status: ApprovalStatus, reason: Reason, actor: Principal)
    | ReceiptFact(capability: CapabilityRef, runId: Id, requestDigest: Invocation, outputDigest: string, descriptorDigest: Descriptor, resultDigest: CapabilityResult)

  datatype Evidence = Evidence(id: Id, taskId: Id, stepId: Id, humanDecision: bool, capturedAt: Time, fact: Fact)

  datatype PolicyRecord = PolicyRecord(id: Id, taskId: Id, actorId: Id, traceId: Id, evaluation: Evaluation, invocation: Invocation, approvalId: Id)

  datatype CapabilityRun = CapabilityRun(id: Id, taskId: Id, stepId: Id, key: string, requestDigest: Invocation, result: CapabilityResult, evidenceId: Id, descriptor: Descriptor)

  /** The keys of a golden task's events: one for each write of the run, and one for each store. */
  datatype EventKey =
    | KCreate | KCompile | KDeny | KAsk | KReject | KApproved | KReady | KStart | KStepComplete | KVerify
    | KPolicy | KResolved | KCapability | KFinal

  /** The rows of one task. `keys` are its event keys; `version` the stored definition of the
      capability, shared with every other task. */
  datatype Rows = Rows(
    task: Option<Task>,
    step: Option<Step>,
    policy: Option<PolicyRecord>,
    approval: Option<ApprovalRow>,
    evidence: seq<Evidence>,
    run: Option<CapabilityRun>,
    version: Option<Descriptor>,
    keys: set<EventKey>,
    outcome: Option<Outcome>)

  function FindEvidence(evidence: seq<Evidence>, id: Id): (e: Option<Evidence>)
    ensures e.Some? ==> e.value in evidence && e.value.id == id
    ensures e.None? <==> forall x | x in evidence :: x.id != id
  {
    if evidence == [] then None
    else if evidence[0].id == id then Some(evidence[0])
    else FindEvidence(evidence[1..], id)
  }

  /** A row once found is found however many rows follow. */
  lemma {:induction false} FoundStays(evidence: seq<Evidence>, e: Evidence, id: Id)
    ensures FindEvidence(evidence, id).Some? ==> FindEvidence(evidence + [e], id) == FindEvidence(evidence, id)
    ensures FindEvidence(evidence, id).None? ==> FindEvidence(evidence + [e], id) == if e.id == id then Some(e) else None
  {
    if evidence != [] {
      FoundStays(evidence[1..], e, id);
      assert (evidence + [e])[1..] == evidence[1..] + [e];
    } else {
      assert evidence + [e] == [e];
    }
  }
}
