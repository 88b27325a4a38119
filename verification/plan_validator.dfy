/** The `ExecutionPlan` refinement: local checks, a Kahn-style loop and an ancestor search. */
module PlanValidator {
  import opened PlanGraph

  datatype Issue =
    | DuplicateStepIds
    | UnknownResultStep
    | ForeignStep
    | DuplicateDependencies
    | InvalidDependency
    | IndirectInput
    | CycleOrUnresolved
    | Unused

  /** The first step with this id, as `Array.find` returns it. */
  function FirstDependencies(steps: seq<PlanStep>, id: Id): (ds: seq<Id>) {
    if steps == [] then []
    else if steps[0].id == id then steps[0].dependencies
    else FirstDependencies(steps[1..], id)
  }

  lemma {:induction false} FirstDependenciesAreEdges(steps: seq<PlanStep>, id: Id, d: Id)
    requires d in FirstDependencies(steps, id)
    ensures DependsOn(steps, id, d)
  {
    if steps[0].id == id {
      assert steps[0] in steps;
    } else {
      FirstDependenciesAreEdges(steps[1..], id, d);
      var s :| s in steps[1..] && s.id == id && d in s.dependencies;
      assert s in steps;
    }
  }

  lemma {:induction false} EdgesAreFirstDependencies(steps: seq<PlanStep>, id: Id, d: Id)
    requires UniqueIds(steps)
    requires DependsOn(steps, id, d)
    ensures d in FirstDependencies(steps, id)
  {
    var s :| s in steps && s.id == id && d in s.dependencies;
    if steps[0].id != id {
      assert s in steps[1..] by { assert s != steps[0]; }
      assert DependsOn(steps[1..], id, d);
      EdgesAreFirstDependencies(steps[1..], id, d);
    } else {
      var k :| 0 <= k < |steps| && steps[k] == s;
      assert k == 0;
    }
  }

  /** Every id a search from the result can meet. */
  function Mentioned(plan: ExecutionPlan): set<Id> {
    {plan.resultStepId} + set s, d | s in plan.steps && d in s.dependencies :: d
  }

  /** The recursive `visit` closure together with the set it grows in place. */
  class AncestorSearch {
    const plan: ExecutionPlan
    var ancestors: set<Id>

    constructor (plan: ExecutionPlan)
      ensures this.plan == plan && ancestors == {}
    {
      this.plan := plan;
      ancestors := {};
    }

    ghost predicate Explored(seen: set<Id>)
      reads this
    {
      forall x, d | x in ancestors && x !in seen && d in FirstDependencies(plan.steps, x) :: d in ancestors
    }

    ghost predicate FoundFrom(id: Id, seen: set<Id>)
      reads this
    {
      forall x | x in ancestors && x !in seen :: Reaches(plan.steps, id, x)
    }

    method Visit(id: Id)
      requires id in Mentioned(plan)
      modifies this
      ensures old(ancestors) + {id} <= ancestors
      ensures FoundFrom(id, old(ancestors))
      ensures Explored(old(ancestors))
      decreases Mentioned(plan) - ancestors
    {
      ghost var seen := ancestors;
      if id in ancestors {
        return;
      }
      ReachesSelf(plan.steps, id);
      ancestors := ancestors + {id};
      var ds := FirstDependencies(plan.steps, id);
      for i := 0 to |ds|
        invariant seen + {id} <= ancestors
        invariant FoundFrom(id, seen)
        invariant Explored(seen + {id})
        invariant forall k | 0 <= k < i :: ds[k] in ancestors
      {
        ghost var before := ancestors;
        FirstDependenciesAreEdges(plan.steps, id, ds[i]);
        Visit(ds[i]);
        forall x | x in ancestors && x !in seen ensures Reaches(plan.steps, id, x) {
          if x !in before { ExtendPath(plan.steps, id, ds[i], x); }
        }
      }
    }
  }

  /** After a search from scratch, `ancestors` is exactly what the root reaches. */
  lemma SearchIsReachability(plan: ExecutionPlan, ancestors: set<Id>, x: Id)
    requires UniqueIds(plan.steps)
    requires plan.resultStepId in ancestors
    requires forall y | y in ancestors :: Reaches(plan.steps, plan.resultStepId, y)
    requires forall y, d | y in ancestors && d in FirstDependencies(plan.steps, y) :: d in ancestors
    ensures x in ancestors <==> Reaches(plan.steps, plan.resultStepId, x)
  {
    if Reaches(plan.steps, plan.resultStepId, x) {
      var p :| PathBetween(plan.steps, plan.resultStepId, x, p);
      forall y, d | y in ancestors && DependsOn(plan.steps, y, d) ensures d in ancestors {
        EdgesAreFirstDependencies(plan.steps, y, d);
      }
      ClosedSetHoldsPath(plan.steps, ancestors, p);
    }
  }

  method SomeStepUnused(plan: ExecutionPlan) returns (unused: bool)
    ensures UniqueIds(plan.steps) ==> (unused <==> !AllContribute(plan))
  {
    var search := new AncestorSearch(plan);
    search.Visit(plan.resultStepId);
    unused := exists s :: s in plan.steps && s.id !in search.ancestors;
    if UniqueIds(plan.steps) {
      forall x ensures x in search.ancestors <==> Reaches(plan.steps, plan.resultStepId, x) {
        SearchIsReachability(plan, search.ancestors, x);
      }
    }
  }

  /** What a finished or stuck round sequence tells about the graph. */
  lemma RoundsDecide(steps: seq<PlanStep>, resolved: set<Id>, rank: map<Id, nat>)
    requires rank.Keys == resolved <= Ids(steps)
    requires UniqueIds(steps) ==> Ranked(steps, rank)
    requires resolved == Ids(steps) || Ready(steps, resolved) == []
    ensures UniqueIds(steps) && AllKnown(steps) ==> (resolved == Ids(steps) <==> !Cyclic(steps))
  {
    if UniqueIds(steps) && AllKnown(steps) {
      if resolved == Ids(steps) {
        RankedIsAcyclic(steps, rank);
      } else {
        NoReadyStepIsCyclic(steps, resolved);
      }
    }
  }

  /** The Kahn loop. It terminates on every input because each round resolves a new id. */
  method ResolveAll(steps: seq<PlanStep>) returns (complete: bool)
    ensures UniqueIds(steps) && AllKnown(steps) ==> (complete <==> !Cyclic(steps))
  {
    var ids := Ids(steps);
    var resolved: set<Id> := {};
    complete := true;
    ghost var rank: map<Id, nat> := map[];
    ghost var round: nat := 0;
    while |resolved| < |ids|
      invariant complete && resolved <= ids
      invariant rank.Keys == resolved
      invariant forall x | x in rank :: rank[x] < round
      invariant UniqueIds(steps) ==> Ranked(steps, rank)
      decreases |ids| - |resolved|
    {
      var ready := Ready(steps, resolved);
      if ready == [] {
        complete := false;
        break;
      }
      ReadyRound(steps, resolved, ready);
      RoundKeepsRanked(steps, rank, ready, round);
      resolved := resolved + Ids(ready);
      rank := Rerank(rank, Ids(ready), round);
      round := round + 1;
    }
    if complete { SubsetOfSameSize(resolved, ids); }
    RoundsDecide(steps, resolved, rank);
  }

  lemma ReadyRound(steps: seq<PlanStep>, resolved: set<Id>, ready: seq<PlanStep>)
    requires resolved <= Ids(steps)
    requires ready == Ready(steps, resolved) && ready != []
    ensures Ids(ready) <= Ids(steps)
    ensures |resolved| < |resolved + Ids(ready)| <= |Ids(steps)|
  {
    assert ready[0] in ready;
    ResolvedGrows(resolved, Ids(steps), ready[0].id, Ids(ready));
  }

  lemma ResolvedGrows(a: set<Id>, ids: set<Id>, x: Id, more: set<Id>)
    requires a <= ids && more <= ids && x in more && x !in a
    ensures |a| < |a + more| <= |ids|
  {
    SubsetSize(a + {x}, a + more);
    SubsetSize(a + more, ids);
  }

  lemma {:induction false} SubsetSize(a: set<Id>, b: set<Id>)
    requires a <= b
    ensures |a| <= |b|
  {
    if x :| x in a {
      SubsetSize(a - {x}, b - {x});
    }
  }

  lemma SubsetOfSameSize(a: set<Id>, b: set<Id>)
    requires a <= b && |a| >= |b|
    ensures a == b
  {
    if x :| x in b && x !in a {
      SubsetSize(a, b - {x});
    }
  }

  /** Everything resolved in one round gets that round's number. */
  ghost function Rerank(rank: map<Id, nat>, added: set<Id>, round: nat): (next: map<Id, nat>)
    requires forall x | x in rank :: rank[x] < round
    ensures next.Keys == rank.Keys + added
    ensures forall x | x in next :: next[x] < round + 1
  {
    rank + map x | x in added :: round
  }

  lemma RoundKeepsRanked(steps: seq<PlanStep>, rank: map<Id, nat>, ready: seq<PlanStep>, round: nat)
    requires UniqueIds(steps) ==> Ranked(steps, rank)
    requires forall x | x in rank :: rank[x] < round
    requires ready == Ready(steps, rank.Keys)
    ensures UniqueIds(steps) ==> Ranked(steps, Rerank(rank, Ids(ready), round))
  {
    var next := Rerank(rank, Ids(ready), round);
    if UniqueIds(steps) {
      forall s, d | s in steps && s.id in next && d in s.dependencies ensures d in next && next[d] < next[s.id] {
        if s.id in Ids(ready) {
          var r :| r in ready && r.id == s.id;
          SameIdSameStep(steps, r, s);
          assert IsReady(s, rank.Keys);
        }
        assert d in rank && d !in Ids(ready);
      }
    }
  }

  lemma SameIdSameStep(steps: seq<PlanStep>, a: PlanStep, b: PlanStep)
    requires UniqueIds(steps)
    requires a in steps && b in steps && a.id == b.id
    ensures a == b
  {
    var i :| 0 <= i < |steps| && steps[i] == a;
    var j :| 0 <= j < |steps| && steps[j] == b;
    assert i == j;
  }

  predicate IsLocal(x: Issue) {
    x.ForeignStep? || x.DuplicateDependencies? || x.InvalidDependency? || x.IndirectInput?
  }

  /** The per-step checks, in step order. */
  method LocalIssues(plan: ExecutionPlan) returns (issues: seq<Issue>)
    ensures forall x | x in issues :: IsLocal(x)
    ensures issues == [] <==> forall k | 0 <= k < |plan.steps| :: LocallyValid(plan, plan.steps[k])
  {
    issues := [];
    for i := 0 to |plan.steps|
      invariant forall x | x in issues :: IsLocal(x)
      invariant issues == [] <==> forall k | 0 <= k < i :: LocallyValid(plan, plan.steps[k])
    {
      var found := StepIssues(plan, plan.steps[i]);
      issues := issues + found;
    }
  }

  /** The whole refinement, check by check in source order. */
  method Validate(plan: ExecutionPlan) returns (issues: seq<Issue>)
    ensures issues == [] <==> WellFormed(plan)
    ensures DuplicateStepIds in issues <==> !UniqueIds(plan.steps)
    ensures UnknownResultStep in issues <==> plan.resultStepId !in Ids(plan.steps)
    ensures UniqueIds(plan.steps) && AllKnown(plan.steps) ==> (CycleOrUnresolved in issues <==> Cyclic(plan.steps))
    ensures UniqueIds(plan.steps) ==> (Unused in issues <==> !AllContribute(plan))
  {
    UniqueIdsBySize(plan.steps);
    var duplicate := |Ids(plan.steps)| != |plan.steps|;
    var unknown := plan.resultStepId !in Ids(plan.steps);
    var local := LocalIssues(plan);
    var complete := ResolveAll(plan.steps);
    var hidden := SomeStepUnused(plan);
    issues := Report(duplicate, unknown, local, !complete, hidden);
    VerdictIsWellFormed(plan, local == [], complete, hidden);
  }

  function Report(duplicate: bool, unknown: bool, local: seq<Issue>, stuck: bool, hidden: bool): (issues: seq<Issue>)
    requires forall x | x in local :: IsLocal(x)
    ensures issues == [] <==> !duplicate && !unknown && local == [] && !stuck && !hidden
    ensures DuplicateStepIds in issues <==> duplicate
    ensures UnknownResultStep in issues <==> unknown
    ensures CycleOrUnresolved in issues <==> stuck
    ensures Unused in issues <==> hidden
  {
    var head := Flag(duplicate, DuplicateStepIds) + Flag(unknown, UnknownResultStep);
    var tail := Flag(stuck, CycleOrUnresolved) + Flag(hidden, Unused);
    assert forall x :: x in head + local + tail <==> x in head || x in local || x in tail;
    assert !IsLocal(DuplicateStepIds) && !IsLocal(UnknownResultStep) && !IsLocal(CycleOrUnresolved) && !IsLocal(Unused);
    head + local + tail
  }

  function Flag(on: bool, issue: Issue): (r: seq<Issue>)
    ensures r == [] <==> !on
    ensures forall x :: x in r <==> on && x == issue
  {
    if on then [issue] else []
  }

  lemma VerdictIsWellFormed(plan: ExecutionPlan, local: bool, complete: bool, hidden: bool)
    requires local <==> forall k | 0 <= k < |plan.steps| :: LocallyValid(plan, plan.steps[k])
    requires UniqueIds(plan.steps) && AllKnown(plan.steps) ==> (complete <==> !Cyclic(plan.steps))
    requires UniqueIds(plan.steps) ==> (hidden <==> !AllContribute(plan))
    ensures UniqueIds(plan.steps) && plan.resultStepId in Ids(plan.steps) && local && complete && !hidden <==> WellFormed(plan)
  {
    if local {
      forall s | s in plan.steps ensures KnownDependencies(plan.steps, s) {
        var k :| 0 <= k < |plan.steps| && plan.steps[k] == s;
        assert LocallyValid(plan, plan.steps[k]);
      }
    }
    if WellFormed(plan) {
      forall s | s in plan.steps ensures KnownDependencies(plan.steps, s) {
        assert LocallyValid(plan, s);
      }
    }
  }

  method StepIssues(plan: ExecutionPlan, s: PlanStep) returns (found: seq<Issue>)
    ensures found == [] <==> LocallyValid(plan, s)
    ensures forall x | x in found :: IsLocal(x)
  {
    found := [];
    if s.taskId != plan.taskId { found := found + [ForeignStep]; }
    if !Distinct(s.dependencies) { found := found + [DuplicateDependencies]; }
    if !KnownDependencies(plan.steps, s) { found := found + [InvalidDependency]; }
    if !DirectInput(s) { found := found + [IndirectInput]; }
  }

  lemma UniqueIdsCons(s: PlanStep, rest: seq<PlanStep>)
    ensures UniqueIds([s] + rest) <==> s.id !in Ids(rest) && UniqueIds(rest)
  {
    var steps := [s] + rest;
    if UniqueIds(steps) {
      forall i, j | 0 <= i < j < |rest| ensures rest[i].id != rest[j].id {
        assert steps[i + 1].id != steps[j + 1].id;
      }
      forall t | t in rest ensures t.id != s.id {
        var k :| 0 <= k < |rest| && rest[k] == t;
        assert steps[0].id != steps[k + 1].id;
      }
    }
    if s.id !in Ids(rest) && UniqueIds(rest) {
      forall i, j | 0 <= i < j < |steps| ensures steps[i].id != steps[j].id {
        assert steps[j] == rest[j - 1] && rest[j - 1] in rest;
        if i > 0 { assert steps[i] == rest[i - 1]; }
      }
    }
  }

  /** `new Set(ids).size === steps.length` says exactly that the ids are distinct. */
  lemma {:induction false} UniqueIdsBySize(steps: seq<PlanStep>)
    ensures |Ids(steps)| <= |steps|
    ensures |Ids(steps)| == |steps| <==> UniqueIds(steps)
  {
    if steps != [] {
      var s, rest := steps[0], steps[1..];
      UniqueIdsBySize(rest);
      assert steps == [s] + rest;
      UniqueIdsCons(s, rest);
      assert Ids(steps) == {s.id} + Ids(rest);
      if s.id in Ids(rest) {
        assert Ids(steps) == Ids(rest);
      }
    }
  }
}
