/** Execution plans as dependency graphs, and the declarative meaning of "well formed". */
module PlanGraph {

  type Id = string

  datatype Operation =
    | Uppercase | Reverse | WaitForEvent | RepositoryRead
    | GithubEvidence | RuntimeAnalyse | RuntimeReview | Reconcile | IdentityGovern

  datatype StepInput = TaskObjective | StepOutput(stepId: Id)

  datatype PlanStep = PlanStep(id: Id, taskId: Id, operation: Operation, dependencies: seq<Id>, input: StepInput)

  datatype ExecutionPlan = ExecutionPlan(taskId: Id, steps: seq<PlanStep>, resultStepId: Id)

  function Ids(steps: seq<PlanStep>): set<Id> {
    set s | s in steps :: s.id
  }

  predicate Distinct<T(==)>(xs: seq<T>) {
    forall i, j | 0 <= i < j < |xs| :: xs[i] != xs[j]
  }

  predicate UniqueIds(steps: seq<PlanStep>) {
    forall i, j | 0 <= i < j < |steps| :: steps[i].id != steps[j].id
  }

  // ---- paths ----

  /** Step `a` names `b` among its direct dependencies. */
  ghost predicate DependsOn(steps: seq<PlanStep>, a: Id, b: Id) {
    exists s :: s in steps && s.id == a && b in s.dependencies
  }

  ghost predicate DependencyPath(steps: seq<PlanStep>, p: seq<Id>) {
    |p| >= 1 && forall i | 0 <= i < |p| - 1 :: DependsOn(steps, p[i], p[i + 1])
  }

  ghost predicate PathBetween(steps: seq<PlanStep>, a: Id, b: Id, p: seq<Id>) {
    DependencyPath(steps, p) && p[0] == a && p[|p| - 1] == b
  }

  /** `b` is `a` itself or one of its ancestors in the dependency order. */
  ghost predicate Reaches(steps: seq<PlanStep>, a: Id, b: Id) {
    exists p :: PathBetween(steps, a, b, p)
  }

  /** Some step has a non-empty dependency path to itself. */
  ghost predicate Cyclic(steps: seq<PlanStep>) {
    exists p :: DependencyPath(steps, p) && |p| >= 2 && p[0] == p[|p| - 1]
  }

  ghost predicate AllContribute(plan: ExecutionPlan) {
    forall s | s in plan.steps :: Reaches(plan.steps, plan.resultStepId, s.id)
  }

  // ---- local rules, one step at a time ----

  predicate KnownDependencies(steps: seq<PlanStep>, s: PlanStep) {
    forall d | d in s.dependencies :: d in Ids(steps) && d != s.id
  }

  predicate DirectInput(s: PlanStep) {
    s.input.StepOutput? ==> s.input.stepId in s.dependencies
  }

  predicate LocallyValid(plan: ExecutionPlan, s: PlanStep) {
    && s.taskId == plan.taskId
    && Distinct(s.dependencies)
    && KnownDependencies(plan.steps, s)
    && DirectInput(s)
  }

  /** What a plan must satisfy, with no reference to how it is checked. */
  ghost predicate WellFormed(plan: ExecutionPlan) {
    && UniqueIds(plan.steps)
    && plan.resultStepId in Ids(plan.steps)
    && (forall s | s in plan.steps :: LocallyValid(plan, s))
    && !Cyclic(plan.steps)
    && AllContribute(plan)
  }

  // ---- path algebra ----

  lemma ExtendPath(steps: seq<PlanStep>, a: Id, b: Id, c: Id)
    requires DependsOn(steps, a, b)
    requires Reaches(steps, b, c)
    ensures Reaches(steps, a, c)
  {
    var p :| PathBetween(steps, b, c, p);
    var q := [a] + p;
    assert forall i | 0 <= i < |q| - 1 :: DependsOn(steps, q[i], q[i + 1]) by {
      forall i | 0 <= i < |q| - 1 ensures DependsOn(steps, q[i], q[i + 1]) {
        if i > 0 { assert q[i] == p[i - 1] && q[i + 1] == p[i]; }
      }
    }
    assert PathBetween(steps, a, c, q);
  }

  lemma ReachesSelf(steps: seq<PlanStep>, a: Id)
    ensures Reaches(steps, a, a)
  {
    assert PathBetween(steps, a, a, [a]);
  }

  /** A set that contains `a` and every dependency of its members contains everything `a` reaches. */
  lemma {:induction false} ClosedSetHoldsPath(steps: seq<PlanStep>, closed: set<Id>, p: seq<Id>)
    requires DependencyPath(steps, p)
    requires p[0] in closed
    requires forall x, y | x in closed && DependsOn(steps, x, y) :: y in closed
    ensures p[|p| - 1] in closed
  {
    if |p| > 1 {
      assert DependsOn(steps, p[0], p[1]);
      var q := p[1..];
      forall i | 0 <= i < |q| - 1 ensures DependsOn(steps, q[i], q[i + 1]) {
        assert q[i] == p[i + 1] && q[i + 1] == p[i + 2];
      }
      ClosedSetHoldsPath(steps, closed, q);
    }
  }

  // ---- why "no step is ready" means a cycle ----

  /** In a stuck set every member depends on another member, so paths inside it never end. */
  ghost predicate Stuck(steps: seq<PlanStep>, u: set<Id>) {
    u != {} && forall x {:trigger LeadsInto(steps, x, u)} | x in u :: LeadsInto(steps, x, u)
  }

  ghost predicate LeadsInto(steps: seq<PlanStep>, x: Id, u: set<Id>) {
    exists y :: y in u && DependsOn(steps, x, y)
  }

  lemma {:induction false} StuckPath(steps: seq<PlanStep>, u: set<Id>, n: nat) returns (p: seq<Id>)
    requires Stuck(steps, u)
    ensures |p| == n + 1 && DependencyPath(steps, p)
    ensures forall x | x in p :: x in u
  {
    if n == 0 {
      var x :| x in u;
      p := [x];
    } else {
      var q := StuckPath(steps, u, n - 1);
      var last := q[|q| - 1];
      assert last in u && LeadsInto(steps, last, u);
      var y :| y in u && DependsOn(steps, last, y);
      p := q + [y];
      forall i | 0 <= i < |p| - 1 ensures DependsOn(steps, p[i], p[i + 1]) {
        if i < |q| - 1 { assert p[i] == q[i] && p[i + 1] == q[i + 1]; }
      }
    }
  }

  /** Pigeonhole: a sequence longer than the set it draws from repeats an element. */
  lemma {:induction false} Repeats(xs: seq<Id>, u: set<Id>) returns (i: nat, j: nat)
    requires |xs| > |u|
    requires forall x | x in xs :: x in u
    ensures i < j < |xs| && xs[i] == xs[j]
    decreases |xs|
  {
    var x := xs[0];
    assert x in xs;
    if k :| 1 <= k < |xs| && xs[k] == x {
      i, j := 0, k;
    } else {
      forall y | y in xs[1..] ensures y in u - {x} {
        var k :| 0 <= k < |xs[1..]| && xs[1..][k] == y;
        assert xs[k + 1] == y;
      }
      i, j := Repeats(xs[1..], u - {x});
      i, j := i + 1, j + 1;
    }
  }

  lemma StuckIsCyclic(steps: seq<PlanStep>, u: set<Id>)
    requires Stuck(steps, u)
    ensures Cyclic(steps)
  {
    var p := StuckPath(steps, u, |u|);
    var i, j := Repeats(p, u);
    var q := p[i..j + 1];
    forall k | 0 <= k < |q| - 1 ensures DependsOn(steps, q[k], q[k + 1]) {
      assert q[k] == p[i + k] && q[k + 1] == p[i + k + 1];
    }
    assert DependencyPath(steps, q) && |q| >= 2 && q[0] == q[|q| - 1];
  }

  // ---- why a ranking rules cycles out ----

  /** Every dependency of a ranked step has a smaller rank. */
  ghost predicate Ranked(steps: seq<PlanStep>, rank: map<Id, nat>) {
    forall s, d | s in steps && s.id in rank && d in s.dependencies :: d in rank && rank[d] < rank[s.id]
  }

  lemma {:induction false} RankFalls(steps: seq<PlanStep>, rank: map<Id, nat>, p: seq<Id>)
    requires Ranked(steps, rank)
    requires DependencyPath(steps, p) && p[0] in rank
    ensures p[|p| - 1] in rank
    ensures |p| >= 2 ==> rank[p[|p| - 1]] < rank[p[0]]
  {
    if |p| > 1 {
      assert DependsOn(steps, p[0], p[1]);
      var q := p[1..];
      forall i | 0 <= i < |q| - 1 ensures DependsOn(steps, q[i], q[i + 1]) {
        assert q[i] == p[i + 1] && q[i + 1] == p[i + 2];
      }
      RankFalls(steps, rank, q);
    }
  }

  lemma RankedIsAcyclic(steps: seq<PlanStep>, rank: map<Id, nat>)
    requires Ranked(steps, rank)
    requires Ids(steps) <= rank.Keys
    ensures !Cyclic(steps)
  {
    if Cyclic(steps) {
      var p :| DependencyPath(steps, p) && |p| >= 2 && p[0] == p[|p| - 1];
      assert DependsOn(steps, p[0], p[1]);
      assert p[0] in Ids(steps);
      RankFalls(steps, rank, p);
    }
  }

  // ---- readiness, shared by the validator and the planner ----

  predicate IsReady(s: PlanStep, resolved: set<Id>) {
    s.id !in resolved && forall d | d in s.dependencies :: d in resolved
  }

  function Ready(steps: seq<PlanStep>, resolved: set<Id>): (ready: seq<PlanStep>)
    ensures forall s :: s in ready <==> s in steps && IsReady(s, resolved)
    ensures |ready| <= |steps|
  {
    if steps == [] then []
    else (if IsReady(steps[0], resolved) then [steps[0]] else []) + Ready(steps[1..], resolved)
  }

  lemma UnreadyLeadsOn(steps: seq<PlanStep>, resolved: set<Id>, s: PlanStep)
    requires s in steps && KnownDependencies(steps, s)
    requires s.id !in resolved && !IsReady(s, resolved)
    ensures LeadsInto(steps, s.id, Ids(steps) - resolved)
  {
    var d :| d in s.dependencies && d !in resolved;
    assert d in Ids(steps) - resolved && DependsOn(steps, s.id, d);
  }

  ghost predicate AllKnown(steps: seq<PlanStep>) {
    forall s {:trigger KnownDependencies(steps, s)} | s in steps :: KnownDependencies(steps, s)
  }

  /** With valid references, running out of ready steps before the end exposes a cycle. */
  lemma NoReadyStepIsCyclic(steps: seq<PlanStep>, resolved: set<Id>)
    requires AllKnown(steps)
    requires resolved < Ids(steps)
    requires Ready(steps, resolved) == []
    ensures Cyclic(steps)
  {
    var u := Ids(steps) - resolved;
    var missing :| missing in Ids(steps) && missing !in resolved;
    assert missing in u;
    forall x | x in u ensures LeadsInto(steps, x, u) {
      var s :| s in steps && s.id == x;
      assert s !in Ready(steps, resolved);
      assert KnownDependencies(steps, s);
      UnreadyLeadsOn(steps, resolved, s);
    }
    StuckIsCyclic(steps, u);
  }
}
