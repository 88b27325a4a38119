/** The completion boundary: a plan's result is re-derived from persisted rows alone. */
module PlanCompletion {
  import opened PlanGraph
  import opened PlanValidator
  import opened Planner
  import opened PlanExecution
  import opened Text
  import Lifecycle

  /** The row the completion boundary demands for a step. */
  predicate RowAccepted(s: PlanStep, job: Job, m: map<Id, string>, stored: seq<StepRecord>) {
    var input := ResolveInput(s, job, m);
    && s.id in m && input.Ok?
    && FirstRecord(stored, s.id) == Ok(CompletedStep(s, input.value, m[s.id]))
  }

  /** What completion certifies, with no reference to any order of evaluation: the stored plan is
      the recipe's plan, each row holds the meaning of its step, the summary is the meaning of the
      result step, and the claim cites evidence for exactly that result. */
  ghost predicate Certified(
    job: Job, status: Lifecycle.TaskStatus, plan: ExecutionPlan, expected: ExecutionPlan,
    stored: seq<StepRecord>, records: seq<Evidence>, o: Lifecycle.Outcome, m: map<Id, string>)
  {
    && plan == expected
    && |stored| == |plan.steps|
    && Meaning(plan.steps, job, m)
    && AllAccepted(plan.steps, job, m, stored)
    && plan.resultStepId in m
    && o.summary == m[plan.resultStepId]
    && Lifecycle.CompletionAccepted(job.taskId, status, job.criteria, o,
         Supporting(records, plan, job, m[plan.resultStepId]))
  }

  ghost predicate AllAccepted(steps: seq<PlanStep>, job: Job, m: map<Id, string>, stored: seq<StepRecord>) {
    forall s {:trigger RowAccepted(s, job, m, stored)} | s in steps :: RowAccepted(s, job, m, stored)
  }

  /** The verifier's loop over the schedule: recompute, compare, remember. */
  method RecomputeRows(job: Job, plan: ExecutionPlan, order: seq<PlanStep>, stored: seq<StepRecord>)
    returns (ok: bool, outputs: map<Id, string>)
    requires WellFormed(plan) && plan.taskId == job.taskId
    requires Topological(plan.steps, order)
    ensures ok ==> Meaning(plan.steps, job, outputs) && AllAccepted(plan.steps, job, outputs, stored)
    ensures !ok ==> exists s :: s in plan.steps && RowRefused(s, job, plan, stored)
  {
    outputs := map[];
    for k := 0 to |order|
      invariant Computed(order[..k], job, outputs)
      invariant AllAccepted(order[..k], job, outputs, stored)
    {
      var s := order[k];
      InputAvailable(plan, order, job, outputs, k);
      var input := ResolveInput(s, job, outputs);
      var output := ExpectedOutput(s.operation, job.upper, input.value);
      if FirstRecord(stored, s.id) != Ok(CompletedStep(s, input.value, output)) {
        RefusedForEveryMeaning(plan, order, job, outputs, k, stored);
        return false, outputs;
      }
      AcceptedPrefixGrows(order, k, job, outputs, stored);
      outputs := outputs[s.id := output];
    }
    AcceptedSchedule(plan.steps, order, job, outputs, stored);
    return true, outputs;
  }

  lemma AcceptedSchedule(steps: seq<PlanStep>, order: seq<PlanStep>, job: Job, m: map<Id, string>, stored: seq<StepRecord>)
    requires UniqueIds(steps) && Topological(steps, order)
    requires Computed(order[..|order|], job, m) && AllAccepted(order[..|order|], job, m, stored)
    ensures Meaning(steps, job, m) && AllAccepted(steps, job, m, stored)
  {
    assert order[..|order|] == order;
    ComputedIsMeaning(steps, order, job, m);
    forall s | s in steps ensures RowAccepted(s, job, m, stored) {
      TopologicalCovers(steps, order, s);
    }
  }

  lemma AcceptedPrefixGrows(order: seq<PlanStep>, k: nat, job: Job, m: map<Id, string>, stored: seq<StepRecord>)
    requires Grounded(order) && k < |order|
    requires Computed(order[..k], job, m) && AllAccepted(order[..k], job, m, stored)
    requires ResolveInput(order[k], job, m).Ok?
    requires FirstRecord(stored, order[k].id) == Ok(CompletedStep(order[k], ResolveInput(order[k], job, m).value,
               ExpectedOutput(order[k].operation, job.upper, ResolveInput(order[k], job, m).value)))
    ensures var n := m[order[k].id := ExpectedOutput(order[k].operation, job.upper, ResolveInput(order[k], job, m).value)];
            Computed(order[..k + 1], job, n) && AllAccepted(order[..k + 1], job, n, stored)
  {
    assert InTurn(order, k);
    assert order[..k + 1] == order[..k] + [order[k]];
    ComputedGrows(order[..k], order[k], job, m, ResolveInput(order[k], job, m).value);
    AcceptedGrows(order[..k], order[k], job, m, stored, ResolveInput(order[k], job, m).value);
  }

  /** No solution of the plan's equations matches this step's stored row. */
  ghost predicate RowRefused(s: PlanStep, job: Job, plan: ExecutionPlan, stored: seq<StepRecord>) {
    forall m | Meaning(plan.steps, job, m) :: !RowAccepted(s, job, m, stored)
  }

  lemma AcceptedGrows(order: seq<PlanStep>, s: PlanStep, job: Job, m: map<Id, string>, stored: seq<StepRecord>, input: string)
    requires Computed(order, job, m)
    requires AllAccepted(order, job, m, stored)
    requires s.id !in Ids(order) && ResolveInput(s, job, m) == Ok(input)
    requires FirstRecord(stored, s.id) == Ok(CompletedStep(s, input, ExpectedOutput(s.operation, job.upper, input)))
    ensures var n := m[s.id := ExpectedOutput(s.operation, job.upper, input)];
            AllAccepted(order + [s], job, n, stored)
  {
    var output := ExpectedOutput(s.operation, job.upper, input);
    var n := m[s.id := output];
    forall t | t in order + [s] ensures RowAccepted(t, job, n, stored) {
      if t in order {
        assert RowAccepted(t, job, m, stored);
        assert t.id in Ids(order);
        SolvedInputStable(t, job, m, s.id, output);
      } else {
        SolvedInputStable(s, job, m, s.id, output);
      }
    }
  }

  /** A prefix of computed outputs agrees with every solution of the whole graph. */
  lemma {:induction false} PrefixAgrees(steps: seq<PlanStep>, order: seq<PlanStep>, job: Job, prefix: map<Id, string>, m: map<Id, string>, k: nat, j: nat)
    requires Drawn(steps, order) && Grounded(order) && j <= k <= |order|
    requires Computed(order[..k], job, prefix) && Meaning(steps, job, m)
    ensures forall i | 0 <= i < j :: order[i].id in prefix && prefix[order[i].id] == m[order[i].id]
  {
    hide ExpectedOutput;
    if j > 0 {
      PrefixAgrees(steps, order, job, prefix, m, k, j - 1);
      var s := order[j - 1];
      assert s in steps && order[..k][j - 1] == s;
      SolvedInput(s, job, m);
      SolvedInput(s, job, prefix);
      if s.input.StepOutput? {
        var i := DependencyPosition(order, j - 1, s.input.stepId);
      }
    }
  }

  lemma RefusedForEveryMeaning(plan: ExecutionPlan, order: seq<PlanStep>, job: Job, outputs: map<Id, string>, k: nat, stored: seq<StepRecord>)
    requires Topological(plan.steps, order) && k < |order|
    requires Computed(order[..k], job, outputs)
    requires ResolveInput(order[k], job, outputs).Ok?
    requires var input := ResolveInput(order[k], job, outputs).value;
             FirstRecord(stored, order[k].id) != Ok(CompletedStep(order[k], input, ExpectedOutput(order[k].operation, job.upper, input)))
    ensures RowRefused(order[k], job, plan, stored)
  {
    var s := order[k];
    forall m | Meaning(plan.steps, job, m) ensures !RowAccepted(s, job, m, stored) {
      PrefixAgrees(plan.steps, order, job, outputs, m, k, k);
      assert s in plan.steps;
      SolvedInput(s, job, m);
      if s.input.StepOutput? {
        var i := DependencyPosition(order, k, s.input.stepId);
      }
    }
  }

  /** The deterministic part of `verifyPlanCompletion`, for any schedule of the plan. */
  method VerifyPlanCompletion(
    job: Job, status: Lifecycle.TaskStatus, plan: ExecutionPlan, expected: ExecutionPlan, order: seq<PlanStep>,
    stored: seq<StepRecord>, records: seq<Evidence>, o: Lifecycle.Outcome)
    returns (accepted: bool)
    requires WellFormed(plan) && plan.taskId == job.taskId
    requires Topological(plan.steps, order)
    ensures accepted <==> exists m :: Certified(job, status, plan, expected, stored, records, o, m)
  {
    if plan != expected || |stored| != |plan.steps| {
      return false;
    }
    var ok, outputs := RecomputeRows(job, plan, order, stored);
    if !ok {
      return false;
    }
    var output := outputs[plan.resultStepId];
    var verified := Supporting(records, plan, job, output);
    accepted := o.summary == output && Lifecycle.CompletionAccepted(job.taskId, status, job.criteria, o, verified);
    assert accepted <==> Certified(job, status, plan, expected, stored, records, o, outputs);
    forall m | Meaning(plan.steps, job, m) ensures m == outputs {
      MeaningsAgree(plan.steps, order, job, m, outputs);
    }
  }

  // ---- honest runs ----

  /** The stored rows of a run, in whatever order the table returns them. */
  ghost predicate Listing(rows: map<Id, StepRecord>, stored: seq<StepRecord>) {
    && |stored| == |rows|
    && forall id | id in rows :: FirstRecord(stored, id) == Ok(rows[id])
  }

  /** An honest finished run satisfies the certificate whatever order the rows come back in. */
  lemma HonestRunIsCertified(job: Job, plan: ExecutionPlan, order: seq<PlanStep>, m: map<Id, string>,
      rows: map<Id, StepRecord>, stored: seq<StepRecord>, evidenceId: Id, records: seq<Evidence>)
    requires WellFormed(plan) && plan.taskId == job.taskId && Topological(plan.steps, order)
    requires IsText(job.objective) && CaseMapping(job.upper)
    requires job.criteria != [] && Lifecycle.Distinct(job.criteria)
    requires Meaning(plan.steps, job, m) && RowsMatch(plan.steps, job, m, rows)
    requires rows.Keys == Ids(plan.steps) && Listing(rows, stored)
    requires ResultEvidence(plan, job, evidenceId, m[plan.resultStepId]) in records
    ensures Certified(job, Lifecycle.Verifying, plan, plan, stored, records, Claim(job, evidenceId, m[plan.resultStepId]), m)
  {
    var output := m[plan.resultStepId];
    ResultIsText(plan, order, job, m);
    HonestEvidence(plan, job, evidenceId, output, records);
    hide IsText, CaseMapping, Trim, Topological, ResolveInput, Solves;
    forall s | s in plan.steps ensures RowAccepted(s, job, m, stored) {
      assert RowMatches(s, job, m, rows);
    }
    Lifecycle.HonestClaimAccepted(job.taskId, job.criteria, evidenceId, output, Supporting(records, plan, job, output));
    UniqueIdsBySize(plan.steps);
    assert |rows| == |rows.Keys|;
  }

  /** What a run outputs last needs no trimming. */
  lemma ResultIsText(plan: ExecutionPlan, order: seq<PlanStep>, job: Job, m: map<Id, string>)
    requires WellFormed(plan) && Topological(plan.steps, order) && Meaning(plan.steps, job, m)
    requires IsText(job.objective) && CaseMapping(job.upper)
    ensures plan.resultStepId in m && Trim(m[plan.resultStepId]) == m[plan.resultStepId]
  {
    hide Solves;
    OutputsAreText(plan.steps, order, job, m, |order|);
    var s :| s in plan.steps && s.id == plan.resultStepId;
    TopologicalCovers(plan.steps, order, s);
    var i :| 0 <= i < |order| && order[i] == s;
  }

  lemma HonestEvidence(plan: ExecutionPlan, job: Job, evidenceId: Id, output: string, records: seq<Evidence>)
    requires ResultEvidence(plan, job, evidenceId, output) in records
    ensures evidenceId in Supporting(records, plan, job, output)
  {
    assert Supports(ResultEvidence(plan, job, evidenceId, output), plan, job, output);
  }

  /** Run with one schedule, verify with another: an uncancelled run is always accepted, and the
      accepted summary is the plan's meaning. */
  method RunThenVerify(job: Job, plan: ExecutionPlan, runOrder: seq<PlanStep>, checkOrder: seq<PlanStep>,
      signal: Signal, evidenceId: Id, rest: seq<Evidence>)
    returns (finished: bool, accepted: bool)
    requires WellFormed(plan) && plan.taskId == job.taskId
    requires Topological(plan.steps, runOrder) && Topological(plan.steps, checkOrder)
    requires IsText(job.objective) && CaseMapping(job.upper)
    requires job.criteria != [] && Lifecycle.Distinct(job.criteria)
    requires forall s | s in plan.steps :: Deterministic(s.operation)
    ensures finished <==> forall k | 0 <= k < |runOrder| :: !Stops(runOrder, signal, k)
    ensures finished ==> accepted
  {
    var run := new PlanRun(plan, job);
    var r := run.Execute(runOrder, signal, evidenceId);
    if !r.Finished? {
      return false, false;
    }
    assert forall s | s in plan.steps :: RowMatches(s, job, run.outputs, run.steps);
    var stored := RowsInOrder(run.steps, plan.steps);
    ListingOfRun(plan.steps, run.steps, stored);
    HonestRunIsCertified(job, plan, runOrder, run.outputs, run.steps, stored, evidenceId, rest + [r.evidence]);
    accepted := VerifyPlanCompletion(job, Lifecycle.Verifying, plan, plan, checkOrder, stored, rest + [r.evidence], r.outcome);
    finished := true;
  }

  lemma ListingOfRun(steps: seq<PlanStep>, rows: map<Id, StepRecord>, stored: seq<StepRecord>)
    requires UniqueIds(steps) && rows.Keys == Ids(steps)
    requires |stored| == |steps|
    requires forall s | s in steps :: FirstRecord(stored, s.id) == Ok(rows[s.id])
    ensures Listing(rows, stored)
  {
    UniqueIdsBySize(steps);
    assert |rows| == |rows.Keys|;
    forall id | id in rows ensures FirstRecord(stored, id) == Ok(rows[id]) {
      var s :| s in steps && s.id == id;
    }
  }

  /** One possible listing of the rows. */
  function RowsInOrder(rows: map<Id, StepRecord>, steps: seq<PlanStep>): (stored: seq<StepRecord>)
    requires forall s | s in steps :: s.id in rows && rows[s.id].id == s.id
    ensures |stored| == |steps|
    ensures forall s | s in steps :: FirstRecord(stored, s.id) == Ok(rows[s.id])
  {
    if steps == [] then [] else [rows[steps[0].id]] + RowsInOrder(rows, steps[1..])
  }
}
