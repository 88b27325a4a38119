/** What a plan's operations compute, told apart from the two evaluators, and so what a run claims. */
module PlanOutputs {
  import opened PlanGraph
  import opened PlanValidator
  import opened Planner
  import opened PlanExecution
  import opened PlanCompletion
  import opened Text
  import opened TextPlaces
  import Lifecycle

  /** UPPERCASE: the images, in order, of what is left of the input without the white space at its
      ends. REVERSE: the input backwards. Anything else relays it. */
  ghost predicate Gives(op: Operation, upper: char -> string, input: string, output: string) {
    match op
    case Uppercase => exists core :: IsCore(input, core) && Images(upper, core, output)
    case Reverse => Backwards(input, output)
    case _ => output == input
  }

  /** The verifier's calculation gives this and nothing else does. */
  lemma ExpectedGives(op: Operation, upper: char -> string, input: string, output: string)
    ensures Gives(op, upper, input, output) <==> output == ExpectedOutput(op, upper, input)
  {
    CoreIsTrimmed(input, Trim(input));
    BackwardsIsReversed(input, output);
    hide IsCore, Images, Backwards, Trim, UpperAll, Reversed;
    if op.Uppercase? {
      ImagesAreUpper(upper, Trim(input), output);
      forall core | IsCore(input, core) ensures core == Trim(input) { CoreIsTrimmed(input, core); }
    }
  }

  /** So do the executor's own functions, for the two operations they know. */
  lemma ExecutedGives(op: Operation, upper: char -> string, input: string)
    ensures ExecuteFunction(op, upper, input).Ok? <==> op.Uppercase? || op.Reverse?
    ensures ExecuteFunction(op, upper, input).Ok? ==> Gives(op, upper, input, ExecuteFunction(op, upper, input).value)
  {
    hide Gives, Trim, UpperAll, Reversed;
    if op.Uppercase? || op.Reverse? { ExpectedGives(op, upper, input, ExecuteFunction(op, upper, input).value); }
  }

  /** The text a step starts from: the objective, or the output of the dependency it names. */
  predicate StartsFrom(s: PlanStep, job: Job, outputs: map<Id, string>, input: string) {
    && s.taskId == job.taskId
    && match s.input
       case TaskObjective => input == job.objective
       case StepOutput(from) => from in s.dependencies && from in outputs && input == outputs[from]
  }

  ghost predicate StepGives(s: PlanStep, job: Job, outputs: map<Id, string>) {
    s.id in outputs && exists input :: StartsFrom(s, job, outputs, input) && Gives(s.operation, job.upper, input, outputs[s.id])
  }

  lemma SolvesGives(s: PlanStep, job: Job, m: map<Id, string>)
    ensures Solves(s, job, m) <==> StepGives(s, job, m)
  {
    hide Gives, ExpectedOutput;
    var input := ResolveInput(s, job, m);
    forall x | StartsFrom(s, job, m, x) ensures input == Ok(x) {}
    if input.Ok? && s.id in m {
      assert StartsFrom(s, job, m, input.value);
      ExpectedGives(s.operation, job.upper, input.value, m[s.id]);
    }
  }

  /** The meaning of a plan, step by step. */
  lemma MeaningGives(steps: seq<PlanStep>, job: Job, m: map<Id, string>)
    ensures Meaning(steps, job, m) <==> m.Keys == Ids(steps) && forall s | s in steps :: StepGives(s, job, m)
  {
    hide Solves, StepGives;
    forall s | s in steps ensures Solves(s, job, m) <==> StepGives(s, job, m) { SolvesGives(s, job, m); }
  }

  /** What the row of a finished step says. */
  predicate RowSays(row: StepRecord, s: PlanStep, input: string, output: string) {
    && row.id == s.id && row.taskId == s.taskId && row.operation == s.operation && row.dependencies == s.dependencies
    && row.status.Completed? && row.input == Resolved(input) && row.output == Ok(output)
  }

  predicate ClaimSays(o: Lifecycle.Outcome, job: Job, evidenceId: Id, summary: string) {
    && o.taskId == job.taskId && o.status.Completed? && o.evidenceRefs == [evidenceId] && o.summary == summary
    && |o.acceptanceResults| == |job.criteria|
    && forall k | 0 <= k < |job.criteria| :: o.acceptanceResults[k] == Lifecycle.AcceptanceResult(job.criteria[k], true, [evidenceId])
  }

  predicate EvidenceSays(e: Evidence, plan: ExecutionPlan, job: Job, evidenceId: Id, output: string) {
    && e.id == evidenceId && e.taskId == job.taskId && e.stepId == plan.resultStepId && e.deterministic && e.source == PLAN_SOURCE
    && e.plan == plan && e.input == job.objective && e.output == output
  }

  lemma SubmittedSays(plan: ExecutionPlan, job: Job, evidenceId: Id, output: string)
    requires Trim(output) == output
    ensures ClaimSays(Claim(job, evidenceId, output), job, evidenceId, output)
    ensures EvidenceSays(ResultEvidence(plan, job, evidenceId, output), plan, job, evidenceId, output)
  {
    hide Trim;
  }

  ghost predicate RowGives(s: PlanStep, job: Job, outputs: map<Id, string>, rows: map<Id, StepRecord>) {
    && StepGives(s, job, outputs) && s.id in rows
    && exists input :: StartsFrom(s, job, outputs, input) && RowSays(rows[s.id], s, input, outputs[s.id])
  }

  lemma RowsGive(s: PlanStep, job: Job, outputs: map<Id, string>, rows: map<Id, StepRecord>)
    requires Solves(s, job, outputs) && RowMatches(s, job, outputs, rows)
    ensures RowGives(s, job, outputs, rows)
  {
    SolvesGives(s, job, outputs);
    hide StepGives, Solves;
    assert StartsFrom(s, job, outputs, ResolveInput(s, job, outputs).value);
  }

  /** A run that finished: every output is what its operation gives, every row holds its step's input
      and output, and the claim cites one evidence row, of the whole plan, for the last output. */
  lemma FinishedRunGives(plan: ExecutionPlan, order: seq<PlanStep>, job: Job, outputs: map<Id, string>, rows: map<Id, StepRecord>, evidenceId: Id)
    requires Meaning(plan.steps, job, outputs) && RowsMatch(plan.steps, job, outputs, rows)
    requires WellFormed(plan) && Topological(plan.steps, order) && plan.resultStepId in outputs
    requires IsText(job.objective) && CaseMapping(job.upper)
    ensures forall s | s in plan.steps :: RowGives(s, job, outputs, rows)
    ensures ClaimSays(Claim(job, evidenceId, outputs[plan.resultStepId]), job, evidenceId, outputs[plan.resultStepId])
    ensures EvidenceSays(ResultEvidence(plan, job, evidenceId, outputs[plan.resultStepId]), plan, job, evidenceId, outputs[plan.resultStepId])
  {
    ResultIsText(plan, order, job, outputs);
    SubmittedSays(plan, job, evidenceId, outputs[plan.resultStepId]);
    hide Solves, RowGives, IsText, WellFormed, Topological, ClaimSays, EvidenceSays, Claim, ResultEvidence, RowMatches;
    forall s | s in plan.steps ensures RowGives(s, job, outputs, rows) {
      assert Solves(s, job, outputs) && RowMatches(s, job, outputs, rows);
      RowsGive(s, job, outputs, rows);
    }
  }

  /** A finished plan of one UPPERCASE step claims the objective with every character upper-cased. */
  lemma UppercaseClaims(plan: ExecutionPlan, order: seq<PlanStep>, s: PlanStep, job: Job, outputs: map<Id, string>, evidenceId: Id)
    requires plan.steps == [s] && plan.resultStepId == s.id && s.operation.Uppercase? && s.input.TaskObjective?
    requires WellFormed(plan) && Topological(plan.steps, order) && Meaning(plan.steps, job, outputs) && IsText(job.objective) && CaseMapping(job.upper)
    requires forall c | c in job.objective :: |job.upper(c)| == 1
    ensures s.id in outputs
    ensures var summary := Claim(job, evidenceId, outputs[s.id]).summary;
            |summary| == |job.objective| && forall k | 0 <= k < |summary| :: summary[k] == job.upper(job.objective[k])[0]
  {
    hide Trim, CaseMapping, ExpectedOutput, IsSpace;
    assert s in plan.steps && Solves(s, job, outputs);
    ResultIsText(plan, order, job, outputs);
    UppercasesText(s, job, outputs, job.objective);
    hide *;
    ClaimedSummary(job, evidenceId, outputs[s.id]);
  }

  lemma UppercasesText(s: PlanStep, job: Job, outputs: map<Id, string>, input: string)
    requires s.operation.Uppercase? && Solves(s, job, outputs) && StartsFrom(s, job, outputs, input)
    requires Trimmed(input) && forall c | c in input :: |job.upper(c)| == 1
    ensures |outputs[s.id]| == |input| && forall k | 0 <= k < |input| :: outputs[s.id][k] == job.upper(input[k])[0]
  {
    SolvesGives(s, job, outputs);
    CoreIsTrimmed(input, input);
    hide Images, IsCore, Trim, IsSpace;
    var x :| StartsFrom(s, job, outputs, x) && Gives(s.operation, job.upper, x, outputs[s.id]);
    assert x == input;
    var core :| IsCore(input, core) && Images(job.upper, core, outputs[s.id]);
    CoreIsTrimmed(input, core);
    OneToOneImages(job.upper, core, outputs[s.id]);
  }

  /** Upper-casing and then reversing claims it backwards. */
  lemma UppercaseThenReverseClaims(plan: ExecutionPlan, order: seq<PlanStep>, a: PlanStep, b: PlanStep, job: Job, outputs: map<Id, string>, evidenceId: Id)
    requires plan.steps == [a, b] && plan.resultStepId == b.id
    requires a.operation.Uppercase? && a.input.TaskObjective? && b.operation == Operation.Reverse && b.input == StepOutput(a.id)
    requires WellFormed(plan) && Topological(plan.steps, order) && Meaning(plan.steps, job, outputs) && IsText(job.objective) && CaseMapping(job.upper)
    requires forall c | c in job.objective :: |job.upper(c)| == 1
    ensures b.id in outputs
    ensures var summary := Claim(job, evidenceId, outputs[b.id]).summary; var n := |job.objective|;
            |summary| == n && forall k | 0 <= k < n :: summary[k] == job.upper(job.objective[n - 1 - k])[0]
  {
    hide IsText, Trim, Solves, CaseMapping;
    assert a in plan.steps && b in plan.steps;
    assert Solves(a, job, outputs) && Solves(b, job, outputs);
    ResultIsText(plan, order, job, outputs);
    hide *;
    ClaimedSummary(job, evidenceId, outputs[b.id]);
    TwoSteps(a, b, job, outputs);
  }

  lemma ClaimedSummary(job: Job, evidenceId: Id, output: string)
    requires Trim(output) == output
    ensures Claim(job, evidenceId, output).summary == output
  {
    hide Trim;
  }

  lemma TwoSteps(a: PlanStep, b: PlanStep, job: Job, outputs: map<Id, string>)
    requires a.operation.Uppercase? && a.input.TaskObjective? && b.operation == Operation.Reverse && b.input == StepOutput(a.id)
    requires Solves(a, job, outputs) && Solves(b, job, outputs) && IsText(job.objective)
    requires forall c | c in job.objective :: |job.upper(c)| == 1
    ensures var n := |job.objective|;
            |outputs[b.id]| == n && forall k | 0 <= k < n :: outputs[b.id][k] == job.upper(job.objective[n - 1 - k])[0]
  {
    hide ExpectedOutput, IsSpace;
    UppercasesText(a, job, outputs, job.objective);
    ReversesOutput(b, a.id, job, outputs);
    hide Solves;
  }

  lemma ReversesOutput(s: PlanStep, from: Id, job: Job, outputs: map<Id, string>)
    requires s.operation == Operation.Reverse && s.input == StepOutput(from) && Solves(s, job, outputs)
    ensures from in outputs && s.id in outputs && Backwards(outputs[from], outputs[s.id])
  {
    SolvesGives(s, job, outputs);
    hide Solves, Backwards;
    var x :| StartsFrom(s, job, outputs, x) && Gives(s.operation, job.upper, x, outputs[s.id]);
  }

  // ---- what completion certifies ----

  /** A certified claim: the stored plan is the recipe's, one row for each step says what its operation
      gives, the summary is the last output, and what the claim cites is evidence of exactly that. */
  lemma CertifiedGives(job: Job, status: Lifecycle.TaskStatus, plan: ExecutionPlan, expected: ExecutionPlan,
      stored: seq<StepRecord>, records: seq<Evidence>, o: Lifecycle.Outcome, m: map<Id, string>)
    requires Certified(job, status, plan, expected, stored, records, o, m)
    ensures plan == expected && |stored| == |plan.steps| && plan.resultStepId in m && o.summary == m[plan.resultStepId]
    ensures status.Verifying? && o.taskId == job.taskId && o.status.Completed?
    ensures forall s | s in plan.steps :: StepGives(s, job, m)
    ensures forall s | s in plan.steps :: exists row, input :: row in stored && StartsFrom(s, job, m, input) && RowSays(row, s, input, m[s.id])
    ensures forall id | id in o.evidenceRefs :: exists e :: e in records && EvidenceSays(e, plan, job, id, m[plan.resultStepId])
  {
    MeaningGives(plan.steps, job, m);
    hide StepGives, Solves;
    forall s | s in plan.steps
      ensures exists row, input :: row in stored && StartsFrom(s, job, m, input) && RowSays(row, s, input, m[s.id])
    {
      assert RowAccepted(s, job, m, stored);
      FirstIsStored(stored, s.id);
      var row, input := FirstRecord(stored, s.id).value, ResolveInput(s, job, m).value;
      assert StartsFrom(s, job, m, input) && RowSays(row, s, input, m[s.id]);
    }
    forall id | id in o.evidenceRefs ensures exists e :: e in records && EvidenceSays(e, plan, job, id, m[plan.resultStepId]) {
      assert id in Supporting(records, plan, job, m[plan.resultStepId]);
      var e :| e in records && Supports(e, plan, job, m[plan.resultStepId]) && e.id == id;
      assert EvidenceSays(e, plan, job, id, m[plan.resultStepId]);
    }
  }

  lemma {:induction false} FirstIsStored(stored: seq<StepRecord>, id: Id)
    ensures FirstRecord(stored, id).Ok? ==> FirstRecord(stored, id).value in stored && FirstRecord(stored, id).value.id == id
  {
    if stored != [] && stored[0].id != id { FirstIsStored(stored[1..], id); }
  }
}
