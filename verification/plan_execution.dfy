/** Running a plan, and re-deriving its result independently before completion is committed. */
module PlanExecution {
  import opened PlanGraph
  import opened PlanValidator
  import opened Planner
  import opened Text
  import Lifecycle

  datatype Result<T> = Ok(value: T) | Err(reason: string)

  /** What a plan is run for; `upper` stands for the Unicode upper-case table. */
  datatype Job = Job(taskId: Id, objective: string, criteria: seq<string>, upper: char -> string)

  // ---- the two evaluators, written separately as in the source ----

  function ResolveInput(s: PlanStep, job: Job, outputs: map<Id, string>): Result<string> {
    if s.taskId != job.taskId then Err("Step/task mismatch")
    else match s.input
      case TaskObjective => Ok(job.objective)
      case StepOutput(from) =>
        if from in s.dependencies && from in outputs then Ok(outputs[from])
        else Err("Dependency output is not available")
  }

  /** The executor's functions; anything else needs durable handling. */
  function ExecuteFunction(op: Operation, upper: char -> string, input: string): Result<string> {
    match op
    case Uppercase => Ok(UpperAll(upper, Trim(input)))
    case Reverse => Ok(Reversed(input))
    case _ => Err("Operation requires durable workflow handling")
  }

  /** The verifier's own calculation: whatever is neither an upper-casing nor a reversal is a relay. */
  function ExpectedOutput(op: Operation, upper: char -> string, input: string): string {
    if op == Uppercase then UpperAll(upper, Trim(input))
    else if op == Operation.Reverse then Reversed(input)
    else input
  }

  predicate Deterministic(op: Operation) {
    op.Uppercase? || op.Reverse? || op.WaitForEvent?
  }

  // ---- the meaning of a graph: the solution of its equations ----

  /** The equation of one step, given every output. */
  predicate Solves(s: PlanStep, job: Job, m: map<Id, string>) {
    var input := ResolveInput(s, job, m);
    s.id in m && input.Ok? && m[s.id] == ExpectedOutput(s.operation, job.upper, input.value)
  }

  ghost predicate Meaning(steps: seq<PlanStep>, job: Job, m: map<Id, string>) {
    m.Keys == Ids(steps) && forall s {:trigger Solves(s, job, m)} | s in steps :: Solves(s, job, m)
  }

  /** A dependency of the `k`-th scheduled step was scheduled earlier. */
  lemma DependencyPosition(order: seq<PlanStep>, k: nat, from: Id) returns (i: nat)
    requires Grounded(order) && k < |order|
    requires from in order[k].dependencies
    ensures i < k && order[i].id == from
  {
    assert InTurn(order, k);
    var t :| t in order[..k] && t.id == from;
    i :| 0 <= i < k && order[..k][i] == t;
  }

  lemma SolvedInput(s: PlanStep, job: Job, m: map<Id, string>)
    requires Solves(s, job, m)
    ensures ResolveInput(s, job, m).Ok?
    ensures s.input.StepOutput? ==> s.input.stepId in s.dependencies && s.input.stepId in m
    ensures s.input.StepOutput? ==> ResolveInput(s, job, m).value == m[s.input.stepId]
    ensures s.input.TaskObjective? ==> ResolveInput(s, job, m).value == job.objective
    ensures m[s.id] == ExpectedOutput(s.operation, job.upper, ResolveInput(s, job, m).value)
  {
  }

  /** The equations of a schedulable plan have at most one solution. */
  lemma {:induction false} MeaningIsUnique(steps: seq<PlanStep>, order: seq<PlanStep>, job: Job, m: map<Id, string>, n: map<Id, string>, k: nat)
    requires Drawn(steps, order) && Grounded(order)
    requires Meaning(steps, job, m) && Meaning(steps, job, n)
    requires k <= |order|
    ensures forall i | 0 <= i < k :: m[order[i].id] == n[order[i].id]
  {
    hide ExpectedOutput;
    if k > 0 {
      MeaningIsUnique(steps, order, job, m, n, k - 1);
      var s := order[k - 1];
      assert s in steps;
      SolvedInput(s, job, m);
      SolvedInput(s, job, n);
      if s.input.StepOutput? {
        var i := DependencyPosition(order, k - 1, s.input.stepId);
      }
    }
  }

  lemma MeaningsAgree(steps: seq<PlanStep>, order: seq<PlanStep>, job: Job, m: map<Id, string>, n: map<Id, string>)
    requires UniqueIds(steps) && Topological(steps, order)
    requires Meaning(steps, job, m) && Meaning(steps, job, n)
    ensures m == n
  {
    MeaningIsUnique(steps, order, job, m, n, |order|);
    forall x | x in m ensures m[x] == n[x] {
      var s :| s in steps && s.id == x;
      TopologicalCovers(steps, order, s);
      var i :| 0 <= i < |order| && order[i] == s;
    }
  }

  /** Outputs computed so far: every scheduled step solves its equation already. */
  ghost predicate Computed(order: seq<PlanStep>, job: Job, m: map<Id, string>) {
    m.Keys == Ids(order) && forall s {:trigger Solves(s, job, m)} | s in order :: Solves(s, job, m)
  }

  lemma ComputedGrows(order: seq<PlanStep>, s: PlanStep, job: Job, m: map<Id, string>, input: string)
    requires Computed(order, job, m)
    requires s.id !in Ids(order)
    requires ResolveInput(s, job, m) == Ok(input)
    ensures Computed(order + [s], job, m[s.id := ExpectedOutput(s.operation, job.upper, input)])
  {
    var n := m[s.id := ExpectedOutput(s.operation, job.upper, input)];
    forall t | t in order + [s] ensures Solves(t, job, n) {
      if t in order {
        assert Solves(t, job, m);
        assert t.id in Ids(order);
        SolvedInputStable(t, job, m, s.id, n[s.id]);
      } else {
        SolvedInputStable(s, job, m, s.id, n[s.id]);
      }
    }
  }

  lemma ComputedIsMeaning(steps: seq<PlanStep>, order: seq<PlanStep>, job: Job, m: map<Id, string>)
    requires UniqueIds(steps) && Topological(steps, order)
    requires Computed(order, job, m)
    ensures Meaning(steps, job, m)
  {
    forall s | s in steps ensures s in order { TopologicalCovers(steps, order, s); }
  }

  /** The input a scheduled step names is always there when its turn comes. */
  lemma InputAvailable(plan: ExecutionPlan, order: seq<PlanStep>, job: Job, m: map<Id, string>, k: nat)
    requires WellFormed(plan) && plan.taskId == job.taskId
    requires Topological(plan.steps, order) && k < |order|
    requires Computed(order[..k], job, m)
    ensures ResolveInput(order[k], job, m).Ok?
  {
    assert LocallyValid(plan, order[k]);
    assert InTurn(order, k);
  }

  // ---- outputs are never empty and never need trimming ----

  lemma ExpectedIsText(op: Operation, upper: char -> string, input: string)
    requires CaseMapping(upper) && IsText(input)
    ensures IsText(ExpectedOutput(op, upper, input))
  {
    UpperKeepsText(upper, input);
    ReverseKeepsText(input);
  }

  /** The schema trims `Outcome.summary`, so completion compares equal only if outputs are trimmed text. */
  lemma {:induction false} OutputsAreText(steps: seq<PlanStep>, order: seq<PlanStep>, job: Job, m: map<Id, string>, k: nat)
    requires Drawn(steps, order) && Grounded(order) && Meaning(steps, job, m)
    requires IsText(job.objective) && CaseMapping(job.upper)
    requires k <= |order|
    ensures forall i | 0 <= i < k :: IsText(m[order[i].id])
  {
    hide ExpectedOutput, IsText;
    if k > 0 {
      OutputsAreText(steps, order, job, m, k - 1);
      var s := order[k - 1];
      assert s in steps;
      SolvedInput(s, job, m);
      if s.input.StepOutput? {
        var i := DependencyPosition(order, k - 1, s.input.stepId);
      }
      ExpectedIsText(s.operation, job.upper, ResolveInput(s, job, m).value);
    }
  }

  // ---- persisted records ----

  datatype StepValue = Declared(input: StepInput) | Resolved(text: string)

  datatype StepRecord = StepRecord(
    id: Id, taskId: Id, operation: Operation, dependencies: seq<Id>,
    status: Lifecycle.TaskStatus, input: StepValue, output: Result<string>)

  /** `projectStep`: the record a planned step starts with. */
  function ProjectStep(s: PlanStep): StepRecord {
    StepRecord(s.id, s.taskId, s.operation, s.dependencies, Lifecycle.Ready, Declared(s.input), Err("absent"))
  }

  /** The rows written when the plan is compiled, in step order. */
  function CompiledRows(steps: seq<PlanStep>): (rows: map<Id, StepRecord>)
    ensures rows.Keys == Ids(steps)
  {
    if steps == [] then map[]
    else
      var last := steps[|steps| - 1];
      assert steps == steps[..|steps| - 1] + [last];
      CompiledRows(steps[..|steps| - 1])[last.id := ProjectStep(last)]
  }

  function CompletedStep(s: PlanStep, input: string, output: string): StepRecord {
    ProjectStep(s).(status := Lifecycle.TaskStatus.Completed, input := Resolved(input), output := Ok(output))
  }

  datatype Evidence = Evidence(
    id: Id, taskId: Id, stepId: Id, deterministic: bool, source: string,
    plan: ExecutionPlan, input: string, output: string)

  const PLAN_SOURCE := "kerneljson:plan/v1"

  /** The evidence the verifier believes: the deterministic result of exactly this plan. */
  predicate Supports(e: Evidence, plan: ExecutionPlan, job: Job, output: string) {
    && e.taskId == job.taskId && e.stepId == plan.resultStepId
    && e.deterministic && e.source == PLAN_SOURCE
    && e.plan == plan && e.input == job.objective && e.output == output
  }

  function Supporting(records: seq<Evidence>, plan: ExecutionPlan, job: Job, output: string): (ids: set<Id>) {
    set e | e in records && Supports(e, plan, job, output) :: e.id
  }

  function FirstRecord(stored: seq<StepRecord>, id: Id): Result<StepRecord> {
    if stored == [] then Err("absent")
    else if stored[0].id == id then Ok(stored[0])
    else FirstRecord(stored[1..], id)
  }

  /** Rows of finished steps hold their resolved input and their output. */
  ghost predicate RowsMatch(order: seq<PlanStep>, job: Job, outputs: map<Id, string>, rows: map<Id, StepRecord>) {
    forall s {:trigger RowMatches(s, job, outputs, rows)} | s in order :: RowMatches(s, job, outputs, rows)
  }

  predicate RowMatches(s: PlanStep, job: Job, outputs: map<Id, string>, rows: map<Id, StepRecord>) {
    var input := ResolveInput(s, job, outputs);
    s.id in rows && s.id in outputs && input.Ok? && rows[s.id] == CompletedStep(s, input.value, outputs[s.id])
  }

  lemma RowsGrow(order: seq<PlanStep>, s: PlanStep, job: Job, m: map<Id, string>, rows: map<Id, StepRecord>, input: string)
    requires Computed(order, job, m) && RowsMatch(order, job, m, rows)
    requires s.id !in Ids(order)
    requires ResolveInput(s, job, m) == Ok(input)
    ensures var output := ExpectedOutput(s.operation, job.upper, input);
            RowsMatch(order + [s], job, m[s.id := output], rows[s.id := CompletedStep(s, input, output)])
  {
    var output := ExpectedOutput(s.operation, job.upper, input);
    var n, more := m[s.id := output], rows[s.id := CompletedStep(s, input, output)];
    forall t | t in order + [s] ensures RowMatches(t, job, n, more) {
      if t in order {
        assert RowMatches(t, job, m, rows);
        assert t.id in Ids(order);
        SolvedInputStable(t, job, m, s.id, output);
      } else {
        SolvedInputStable(s, job, m, s.id, output);
      }
    }
  }

  /** What one finished turn adds to the finished prefix. */
  lemma PrefixGrows(order: seq<PlanStep>, k: nat, job: Job, m: map<Id, string>, rows: map<Id, StepRecord>)
    requires Grounded(order) && k < |order|
    requires Computed(order[..k], job, m) && RowsMatch(order[..k], job, m, rows)
    requires ResolveInput(order[k], job, m).Ok?
    ensures var s := order[k];
            var input := ResolveInput(s, job, m).value;
            var output := ExpectedOutput(s.operation, job.upper, input);
            && Computed(order[..k + 1], job, m[s.id := output])
            && RowsMatch(order[..k + 1], job, m[s.id := output], rows[s.id := CompletedStep(s, input, output)])
  {
    assert InTurn(order, k);
    assert order[..k + 1] == order[..k] + [order[k]];
    ComputedGrows(order[..k], order[k], job, m, ResolveInput(order[k], job, m).value);
    RowsGrow(order[..k], order[k], job, m, rows, ResolveInput(order[k], job, m).value);
  }

  /** Once the whole schedule ran, what was computed along it holds of the plan itself. */
  lemma WholeSchedule(steps: seq<PlanStep>, order: seq<PlanStep>, job: Job, m: map<Id, string>, rows: map<Id, StepRecord>)
    requires UniqueIds(steps) && Topological(steps, order)
    requires Computed(order[..|order|], job, m) && RowsMatch(order[..|order|], job, m, rows)
    ensures Meaning(steps, job, m) && RowsMatch(steps, job, m, rows)
    ensures (forall k | 0 <= k < |order| :: Deterministic(order[k].operation)) ==> forall s | s in steps :: Deterministic(s.operation)
  {
    assert order[..|order|] == order;
    ComputedIsMeaning(steps, order, job, m);
    forall s | s in steps ensures s in order && RowMatches(s, job, m, rows) {
      TopologicalCovers(steps, order, s);
    }
  }

  /** Adding an output a step did not have yet changes no available input. */
  lemma SolvedInputStable(t: PlanStep, job: Job, m: map<Id, string>, id: Id, output: string)
    requires ResolveInput(t, job, m).Ok? && id !in m
    ensures ResolveInput(t, job, m[id := output]) == ResolveInput(t, job, m)
  {
  }

  // ---- the executor ----

  datatype Decision = Resume | Cancel

  datatype RunResult =
    | Finished(outcome: Lifecycle.Outcome, evidence: Evidence)
    | CancelledRun
    | Suspended
    | Broken(reason: string)

  /** The `decision` promise: `None` until somebody answers, then the first answer for ever. It is
      visible to the peek before step `k` once `k >= from`. */
  datatype Signal = Silent | Answered(decision: Decision, from: nat)

  predicate PeekCancelled(signal: Signal, k: nat) {
    signal.Answered? && signal.decision.Cancel? && k >= signal.from
  }

  ghost predicate Stops(order: seq<PlanStep>, signal: Signal, k: nat)
    requires k < |order|
  {
    PeekCancelled(signal, k) || (order[k].operation.WaitForEvent? && (signal.Silent? || signal.decision.Cancel?))
  }

  /** The durable state a run moves: the task status, the in-memory outputs, the step rows. */
  class PlanRun {
    const plan: ExecutionPlan
    const job: Job
    var status: Lifecycle.TaskStatus
    var outputs: map<Id, string>
    var steps: map<Id, StepRecord>

    constructor (plan: ExecutionPlan, job: Job)
      ensures this.plan == plan && this.job == job
      ensures status == Lifecycle.Running && outputs == map[]
      ensures steps == CompiledRows(plan.steps)
    {
      this.plan, this.job := plan, job;
      status := Lifecycle.Running;
      outputs := map[];
      steps := CompiledRows(plan.steps);
    }

    method RunStep(s: PlanStep, signal: Signal) returns (r: Result<bool>)
      requires status == Lifecycle.Running
      modifies this
      ensures r == Ok(true) ==> ResolveInput(s, job, old(outputs)).Ok? && Deterministic(s.operation)
      ensures r == Ok(true) ==>
        outputs == old(outputs)[s.id := ExpectedOutput(s.operation, job.upper, ResolveInput(s, job, old(outputs)).value)]
      ensures r == Ok(true) ==>
        steps == old(steps)[s.id := CompletedStep(s, ResolveInput(s, job, old(outputs)).value, outputs[s.id])]
      ensures r == Ok(true) ==> status == Lifecycle.Running
      ensures r.Err? <==> ResolveInput(s, job, old(outputs)).Err? || !Deterministic(s.operation)
      ensures r == Ok(false) <==> !r.Err? && s.operation.WaitForEvent? && (signal.Silent? || signal.decision.Cancel?)
      ensures r == Ok(false) && signal.Silent? ==> status == Lifecycle.Waiting
      ensures r == Ok(false) && signal.Answered? ==> status == Lifecycle.Cancelled
    {
      var input := ResolveInput(s, job, outputs);
      if input.Err? {
        return Err(input.reason);
      }
      var rows := steps;
      var running := ProjectStep(s).(status := Lifecycle.Running, input := Resolved(input.value));
      steps := rows[s.id := running];
      var output: string;
      if s.operation.WaitForEvent? {
        steps := rows[s.id := running.(status := Lifecycle.Waiting)];
        status := Lifecycle.Waiting;
        if signal.Silent? {
          return Ok(false);
        }
        if signal.decision.Cancel? {
          steps := rows[s.id := running.(status := Lifecycle.Cancelled)];
          status := Lifecycle.Cancelled;
          return Ok(false);
        }
        status := Lifecycle.Running;
        steps := rows[s.id := running];
        output := input.value;
      } else {
        var computed := ExecuteFunction(s.operation, job.upper, input.value);
        if computed.Err? {
          return Err(computed.reason);
        }
        output := computed.value;
      }
      steps := rows[s.id := running.(status := Lifecycle.TaskStatus.Completed, output := Ok(output))];
      outputs := outputs[s.id := output];
      return Ok(true);
    }

    /** The first `k` steps of the schedule are done and recorded, and none of them stopped the run. */
    ghost predicate Progress(order: seq<PlanStep>, signal: Signal, k: nat)
      reads this
      requires k <= |order|
    {
      && status == Lifecycle.Running
      && steps.Keys == Ids(plan.steps)
      && Computed(order[..k], job, outputs)
      && RowsMatch(order[..k], job, outputs, steps)
      && forall i | 0 <= i < k :: Deterministic(order[i].operation) && !Stops(order, signal, i)
    }

    /** One turn of the step loop: a peek, then the step. */
    method Turn(order: seq<PlanStep>, signal: Signal, k: nat) returns (r: Result<bool>)
      requires WellFormed(plan) && plan.taskId == job.taskId
      requires Topological(plan.steps, order) && k < |order|
      requires Progress(order, signal, k)
      modifies this
      ensures r == Ok(true) ==> Progress(order, signal, k + 1)
      ensures r == Ok(false) ==> Stops(order, signal, k)
      ensures r == Ok(false) ==> status == if signal.Silent? then Lifecycle.Waiting else Lifecycle.Cancelled
      ensures r == Ok(false) && signal.Answered? ==> signal.decision.Cancel?
      ensures r.Err? ==> !Deterministic(order[k].operation)
    {
      if PeekCancelled(signal, k) {
        status := Lifecycle.Cancelled;
        return Ok(false);
      }
      var s := order[k];
      InputAvailable(plan, order, job, outputs, k);
      PrefixGrows(order, k, job, outputs, steps);
      r := RunStep(s, signal);
    }

    /** The step loop, over whatever dependency-respecting schedule the planner produced. */
    method RunSteps(order: seq<PlanStep>, signal: Signal) returns (r: Result<bool>)
      requires WellFormed(plan) && plan.taskId == job.taskId
      requires Topological(plan.steps, order)
      requires Progress(order, signal, 0)
      modifies this
      ensures r == Ok(true) ==> Progress(order, signal, |order|)
      ensures r == Ok(false) ==> exists k :: 0 <= k < |order| && Stops(order, signal, k)
      ensures r == Ok(false) ==> status == if signal.Silent? then Lifecycle.Waiting else Lifecycle.Cancelled
      ensures r == Ok(false) && signal.Answered? ==> signal.decision.Cancel?
      ensures r.Err? ==> exists s :: s in plan.steps && !Deterministic(s.operation)
    {
      hide Progress, WellFormed, Stops;
      for k := 0 to |order|
        invariant Progress(order, signal, k)
      {
        r := Turn(order, signal, k);
        if r.Err? {
          assert order[k] in order;
          return;
        }
        if !r.value {
          return;
        }
      }
      return Ok(true);
    }

    /** The whole run: the steps, then the claim that rests on them. */
    method Execute(order: seq<PlanStep>, signal: Signal, evidenceId: Id) returns (r: RunResult)
      requires WellFormed(plan) && plan.taskId == job.taskId
      requires Topological(plan.steps, order)
      requires status == Lifecycle.Running && outputs == map[] && steps.Keys == Ids(plan.steps)
      modifies this
      ensures r.Finished? ==> steps.Keys == Ids(plan.steps)
      ensures r.Broken? ==> exists s :: s in plan.steps && !Deterministic(s.operation)
      ensures r.Finished? ==> Meaning(plan.steps, job, outputs) && RowsMatch(plan.steps, job, outputs, steps)
      ensures r.Finished? ==> status == Lifecycle.Verifying && IsHonest(r, evidenceId)
      ensures !r.Broken? ==> (r.Finished? <==> forall k | 0 <= k < |order| :: !Stops(order, signal, k))
      ensures r.CancelledRun? ==> status == Lifecycle.Cancelled && signal.Answered? && signal.decision.Cancel?
      ensures r.Suspended? ==> status == Lifecycle.Waiting && signal.Silent?
    {
      var ran := RunSteps(order, signal);
      if ran.Err? {
        return Broken(ran.reason);
      }
      if !ran.value {
        return if signal.Silent? then Suspended else CancelledRun;
      }
      WholeSchedule(plan.steps, order, job, outputs, steps);
      var output := outputs[plan.resultStepId];
      status := Lifecycle.Verifying;
      return Finished(Claim(job, evidenceId, output), ResultEvidence(plan, job, evidenceId, output));
    }

    /** What a finished run submits: its result evidence and a claim citing it. */
    ghost predicate IsHonest(r: RunResult, evidenceId: Id)
      reads this
    {
      && plan.resultStepId in outputs
      && r == Finished(Claim(job, evidenceId, outputs[plan.resultStepId]),
                       ResultEvidence(plan, job, evidenceId, outputs[plan.resultStepId]))
    }
  }

  function ResultEvidence(plan: ExecutionPlan, job: Job, id: Id, output: string): Evidence {
    Evidence(id, job.taskId, plan.resultStepId, true, PLAN_SOURCE, plan, job.objective, output)
  }

  /** The outcome schema trims the summary. */
  function Claim(job: Job, evidenceId: Id, output: string): Lifecycle.Outcome {
    Lifecycle.Outcome(job.taskId, Lifecycle.TaskStatus.Completed,
      Lifecycle.HonestResults(job.criteria, evidenceId), [evidenceId], Trim(output))
  }
}
