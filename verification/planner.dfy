/** `orderedSteps`: the deterministic schedule of a well-formed plan. */
module Planner {
  import opened PlanGraph
  import opened PlanValidator

  // ---- string order ----

  /** `a < b` on strings. */
  predicate Before(a: Id, b: Id) {
    b != [] && (a == [] || a[0] < b[0] || (a[0] == b[0] && Before(a[1..], b[1..])))
  }

  lemma {:induction false} BeforeIsTotal(a: Id, b: Id)
    ensures a == b || Before(a, b) || Before(b, a)
    ensures !(Before(a, b) && Before(b, a))
    ensures !Before(a, a)
  {
    if a != [] {
      BeforeIsTotal(a[1..], a[1..]);
      if b != [] && a[0] == b[0] {
        BeforeIsTotal(a[1..], b[1..]);
        assert a == [a[0]] + a[1..] && b == [b[0]] + b[1..];
      }
    }
  }

  lemma {:induction false} BeforeIsTransitive(a: Id, b: Id, c: Id)
    requires Before(a, b) && Before(b, c)
    ensures Before(a, c)
  {
    if a != [] && a[0] == b[0] && b[0] == c[0] {
      BeforeIsTransitive(a[1..], b[1..], c[1..]);
    }
  }

  // ---- schedules ----

  /** Every step once, each after all its dependencies. */
  predicate Topological(steps: seq<PlanStep>, order: seq<PlanStep>) {
    && |order| == |steps|
    && Drawn(steps, order)
    && UniqueIds(order)
    && Grounded(order)
  }

  predicate Drawn(steps: seq<PlanStep>, order: seq<PlanStep>) {
    forall k | 0 <= k < |order| :: order[k] in steps
  }

  predicate Grounded(order: seq<PlanStep>) {
    forall k {:trigger InTurn(order, k)} | 0 <= k < |order| :: InTurn(order, k)
  }

  predicate InTurn(order: seq<PlanStep>, k: nat)
    requires k < |order|
  {
    IsReady(order[k], Ids(order[..k]))
  }

  /** At every position the least ready id was taken. */
  predicate Greedy(steps: seq<PlanStep>, order: seq<PlanStep>) {
    forall k, t {:trigger IsReady(t, Ids(order[..k]))} | 0 <= k < |order| && t in steps && IsReady(t, Ids(order[..k])) ::
      t == order[k] || Before(order[k].id, t.id)
  }

  /** The member the comparator sorts to the front. */
  method LeastId(ready: seq<PlanStep>) returns (next: PlanStep)
    requires ready != [] && forall s, t | s in ready && t in ready && s.id == t.id :: s == t
    ensures next in ready
    ensures forall t | t in ready :: t == next || Before(next.id, t.id)
  {
    next := ready[0];
    for i := 1 to |ready|
      invariant next in ready
      invariant forall k | 0 <= k < i :: ready[k] == next || Before(next.id, ready[k].id)
    {
      BeforeIsTotal(ready[i].id, next.id);
      if Before(ready[i].id, next.id) {
        forall k | 0 <= k < i && ready[k] != next ensures Before(ready[i].id, ready[k].id) {
          BeforeIsTransitive(ready[i].id, next.id, ready[k].id);
        }
        next := ready[i];
      }
    }
  }

  datatype Schedule = Ordered(order: seq<PlanStep>) | Rejected(issues: seq<Issue>)

  method OrderedSteps(plan: ExecutionPlan) returns (r: Schedule)
    ensures r.Ordered? <==> WellFormed(plan)
    ensures r.Ordered? ==> Topological(plan.steps, r.order) && Greedy(plan.steps, r.order)
  {
    var issues := Validate(plan);
    if issues != [] {
      return Rejected(issues);
    }
    var result: seq<PlanStep> := [];
    AllKnownOfWellFormed(plan);
    while |result| < |plan.steps|
      invariant |result| <= |plan.steps|
      invariant forall s | s in result :: s in plan.steps
      invariant UniqueIds(result) && Grounded(result)
      invariant Greedy(plan.steps, result)
    {
      var done := Ids(result);
      var ready := Ready(plan.steps, done);
      SomethingReady(plan.steps, result);
      ReadyIdsUnique(plan.steps, done);
      var next := LeastId(ready);
      AppendKeeps(plan.steps, result, next);
      result := result + [next];
    }
    return Ordered(result);
  }

  lemma AllKnownOfWellFormed(plan: ExecutionPlan)
    requires WellFormed(plan)
    ensures AllKnown(plan.steps)
  {
    forall s | s in plan.steps ensures KnownDependencies(plan.steps, s) {
      assert LocallyValid(plan, s);
    }
  }

  lemma ReadyIdsUnique(steps: seq<PlanStep>, done: set<Id>)
    requires UniqueIds(steps)
    ensures forall s, t | s in Ready(steps, done) && t in Ready(steps, done) && s.id == t.id :: s == t
  {
    forall s, t | s in Ready(steps, done) && t in Ready(steps, done) && s.id == t.id ensures s == t {
      SameIdSameStep(steps, s, t);
    }
  }

  /** An unfinished schedule of an acyclic plan always has a next step. */
  lemma SomethingReady(steps: seq<PlanStep>, result: seq<PlanStep>)
    requires UniqueIds(steps) && UniqueIds(result) && |result| < |steps|
    requires AllKnown(steps) && !Cyclic(steps)
    requires forall s | s in result :: s in steps
    ensures Ready(steps, Ids(result)) != []
  {
    UniqueIdsBySize(steps);
    UniqueIdsBySize(result);
    assert Ids(result) <= Ids(steps);
    assert Ids(result) != Ids(steps);
    if Ready(steps, Ids(result)) == [] {
      NoReadyStepIsCyclic(steps, Ids(result));
    }
  }

  lemma AppendKeeps(steps: seq<PlanStep>, result: seq<PlanStep>, next: PlanStep)
    requires UniqueIds(result) && Grounded(result) && Greedy(steps, result)
    requires IsReady(next, Ids(result))
    requires forall t | t in steps && IsReady(t, Ids(result)) :: t == next || Before(next.id, t.id)
    ensures UniqueIds(result + [next]) && Grounded(result + [next]) && Greedy(steps, result + [next])
  {
    var more := result + [next];
    assert forall k | 0 <= k <= |result| :: more[..k] == result[..k];
    assert result[..|result|] == result;
    forall i, j | 0 <= i < j < |more| ensures more[i].id != more[j].id {
      assert result[i] in result;
    }
    forall k | 0 <= k < |more| ensures InTurn(more, k) {
      if k < |result| { assert InTurn(result, k); }
    }
    forall k, t | 0 <= k < |more| && t in steps && IsReady(t, Ids(more[..k]))
      ensures t == more[k] || Before(more[k].id, t.id)
    {
      assert IsReady(t, Ids(if k < |result| then result[..k] else result));
    }
  }

  /** The schedule is a function of the set of steps: no other order is greedy, however the
      plan lists its steps. */
  lemma {:induction false} ScheduleIsUnique(xs: seq<PlanStep>, ys: seq<PlanStep>, a: seq<PlanStep>, b: seq<PlanStep>, k: nat)
    requires forall s :: s in xs <==> s in ys
    requires Topological(xs, a) && Greedy(xs, a)
    requires Topological(ys, b) && Greedy(ys, b)
    requires k <= |a| && k <= |b|
    ensures a[..k] == b[..k]
  {
    if k > 0 {
      ScheduleIsUnique(xs, ys, a, b, k - 1);
      var x, y := a[k - 1], b[k - 1];
      assert x in a && y in b;
      assert a[..k] == a[..k - 1] + [x] && b[..k] == b[..k - 1] + [y];
      assert InTurn(a, k - 1) && InTurn(b, k - 1);
      BeforeIsTotal(x.id, y.id);
    }
  }

  /** A schedule holds every step of the plan, not merely as many. */
  lemma TopologicalCovers(steps: seq<PlanStep>, order: seq<PlanStep>, s: PlanStep)
    requires UniqueIds(steps) && Topological(steps, order)
    requires s in steps
    ensures s in order
  {
    UniqueIdsBySize(steps);
    UniqueIdsBySize(order);
    assert Ids(order) <= Ids(steps);
    SubsetOfSameSize(Ids(order), Ids(steps));
    assert s.id in Ids(order);
    var t :| t in order && t.id == s.id;
    SameIdSameStep(steps, s, t);
  }
}
