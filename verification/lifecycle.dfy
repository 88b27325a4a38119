/** The task lifecycle: the transition table and the completion gate. */
module Lifecycle {
  type Id = string

  datatype TaskStatus =
    | Received | Compiled | Ready | Running | Waiting | ApprovalRequired | Verifying
    | Completed | Failed | Cancelled

  function Transitions(from: TaskStatus): set<TaskStatus> {
    match from
    case Received => {Compiled, Failed, Cancelled}
    case Compiled => {Ready, ApprovalRequired, Failed, Cancelled}
    case Ready => {Running, Cancelled, Failed}
    case Running => {Waiting, ApprovalRequired, Verifying, Failed, Cancelled}
    case Waiting => {Running, Failed, Cancelled}
    case ApprovalRequired => {Ready, Running, Failed, Cancelled}
    case Verifying => {TaskStatus.Completed, Failed, Cancelled}
    case Completed => {}
    case Failed => {}
    case Cancelled => {}
  }

  predicate Terminal(s: TaskStatus) {
    s.Completed? || s.Failed? || s.Cancelled?
  }

  datatype AcceptanceResult = AcceptanceResult(criterion: string, passed: bool, evidenceRefs: seq<Id>)

  datatype Outcome = Outcome(
    taskId: Id,
    status: TaskStatus,
    acceptanceResults: seq<AcceptanceResult>,
    evidenceRefs: seq<Id>,
    summary: string)

  /** The schema's refinements: a completion carries evidence, and every citation is listed. */
  predicate ValidOutcome(o: Outcome) {
    && Terminal(o.status)
    && (o.status.Completed? ==>
          && o.evidenceRefs != [] && o.acceptanceResults != []
          && forall r | r in o.acceptanceResults :: r.passed && r.evidenceRefs != [])
    && (forall r, id | r in o.acceptanceResults && id in r.evidenceRefs :: id in o.evidenceRefs)
  }

  function Matches(results: seq<AcceptanceResult>, criterion: string): (n: nat)
    ensures n <= |results|
  {
    if results == [] then 0
    else (if results[0].criterion == criterion && results[0].passed then 1 else 0) + Matches(results[1..], criterion)
  }

  /** `assertCompletion`: what a completion claim must show before it is accepted. */
  predicate CompletionAccepted(
    taskId: Id, status: TaskStatus, criteria: seq<string>, o: Outcome, verified: set<Id>)
  {
    && ValidOutcome(o)
    && TaskStatus.Completed in Transitions(status)
    && o.taskId == taskId && o.status.Completed?
    && |criteria| == |o.acceptanceResults|
    && (forall c | c in criteria :: Matches(o.acceptanceResults, c) == 1)
    && (forall id | id in o.evidenceRefs :: id in verified)
  }

  /** One passed result per criterion, all citing the same evidence: what an honest run submits. */
  function HonestResults(criteria: seq<string>, evidence: Id): (rs: seq<AcceptanceResult>)
    ensures |rs| == |criteria|
    ensures forall k | 0 <= k < |rs| :: rs[k] == AcceptanceResult(criteria[k], true, [evidence])
  {
    if criteria == [] then []
    else [AcceptanceResult(criteria[0], true, [evidence])] + HonestResults(criteria[1..], evidence)
  }

  predicate Distinct<T(==)>(xs: seq<T>) {
    forall i, j | 0 <= i < j < |xs| :: xs[i] != xs[j]
  }

  lemma {:induction false} MatchesZero(rs: seq<AcceptanceResult>, c: string)
    requires forall r | r in rs :: r.passed
    ensures Matches(rs, c) == 0 <==> forall r | r in rs :: r.criterion != c
  {
    if rs != [] {
      MatchesZero(rs[1..], c);
      assert forall r :: r in rs <==> r == rs[0] || r in rs[1..];
    }
  }

  lemma {:induction false} MatchesOne(rs: seq<AcceptanceResult>, c: string, k: nat)
    requires forall r | r in rs :: r.passed
    requires k < |rs| && rs[k].criterion == c
    ensures Matches(rs, c) == 1 <==> forall j | 0 <= j < |rs| && j != k :: rs[j].criterion != c
  {
    MatchesZero(rs[1..], c);
    if k == 0 {
      assert forall j | 0 <= j < |rs[1..]| :: rs[1..][j] == rs[j + 1];
    } else {
      MatchesOne(rs[1..], c, k - 1);
      assert forall j | 0 <= j < |rs[1..]| :: rs[1..][j] == rs[j + 1];
      if Matches(rs, c) == 1 {
        assert rs[1..][k - 1].criterion == c;
        forall j | 0 <= j < |rs| && j != k ensures rs[j].criterion != c {
          if j > 0 { assert rs[1..][j - 1].criterion != c; }
        }
      }
      if forall j | 0 <= j < |rs| && j != k :: rs[j].criterion != c {
        assert rs[0].criterion != c;
        forall j | 0 <= j < |rs[1..]| && j != k - 1 ensures rs[1..][j].criterion != c {
          assert rs[j + 1].criterion != c;
        }
      }
    }
  }

  /** Accepted results and criteria correspond one to one: every criterion has exactly one
      result, and no two results answer the same criterion. */
  lemma AcceptedIsOneToOne(taskId: Id, status: TaskStatus, criteria: seq<string>, o: Outcome, verified: set<Id>)
    requires CompletionAccepted(taskId, status, criteria, o, verified)
    requires Distinct(criteria)
    ensures multiset(criteria) == multiset(Criteria(o.acceptanceResults))
    ensures forall r, id | r in o.acceptanceResults && id in r.evidenceRefs :: id in verified
  {
    var named := Criteria(o.acceptanceResults);
    forall c | c in criteria ensures c in named {
      MatchesZero(o.acceptanceResults, c);
      var r :| r in o.acceptanceResults && r.criterion == c;
      var k :| 0 <= k < |o.acceptanceResults| && o.acceptanceResults[k] == r;
      assert named[k] == c;
    }
    DistinctCoverIsPermutation(criteria, named);
  }

  function Criteria(rs: seq<AcceptanceResult>): (cs: seq<string>)
    ensures |cs| == |rs|
    ensures forall k | 0 <= k < |rs| :: cs[k] == rs[k].criterion
  {
    if rs == [] then [] else [rs[0].criterion] + Criteria(rs[1..])
  }

  lemma {:induction false} DistinctCoverIsPermutation(xs: seq<string>, ys: seq<string>)
    requires Distinct(xs) && |xs| == |ys|
    requires forall x | x in xs :: x in ys
    ensures multiset(xs) == multiset(ys)
  {
    if xs != [] {
      var x := xs[0];
      assert x in xs;
      var k :| 0 <= k < |ys| && ys[k] == x;
      var rest := ys[..k] + ys[k + 1..];
      assert ys == ys[..k] + [x] + ys[k + 1..];
      forall y | y in xs[1..] ensures y in rest {
        var i :| 0 <= i < |xs[1..]| && xs[1..][i] == y;
        assert xs[i + 1] == y && y != x && y in ys;
        var j :| 0 <= j < |ys| && ys[j] == y;
        if j < k { assert rest[j] == y; } else { assert rest[j - 1] == y; }
      }
      forall i, j | 0 <= i < j < |xs[1..]| ensures xs[1..][i] != xs[1..][j] {
        assert xs[i + 1] != xs[j + 1];
      }
      DistinctCoverIsPermutation(xs[1..], rest);
      assert xs == [x] + xs[1..];
      assert multiset(ys) == multiset(rest) + multiset{x};
    }
  }

  /** An honest claim is accepted exactly when the task's criteria are distinct: with a
      repeated criterion each copy finds two passed results and the gate refuses. */
  lemma HonestClaimAccepted(taskId: Id, criteria: seq<string>, evidence: Id, summary: string, verified: set<Id>)
    requires criteria != [] && evidence in verified
    ensures CompletionAccepted(taskId, Verifying, criteria,
              Outcome(taskId, TaskStatus.Completed, HonestResults(criteria, evidence), [evidence], summary), verified)
       <==> Distinct(criteria)
  {
    var rs := HonestResults(criteria, evidence);
    forall r | r in rs ensures r.passed && r.evidenceRefs == [evidence] {
      var k :| 0 <= k < |rs| && rs[k] == r;
    }
    forall k | 0 <= k < |criteria|
      ensures Matches(rs, criteria[k]) == 1 <==> forall j | 0 <= j < |criteria| && j != k :: criteria[j] != criteria[k]
    {
      MatchesOne(rs, criteria[k], k);
    }
  }

  /** The failing input: one criterion listed twice refuses even the honest claim. */
  lemma RepeatedCriterionRefused(taskId: Id, evidence: Id, summary: string)
    ensures var criteria := ["a", "a"];
            !CompletionAccepted(taskId, Verifying, criteria,
               Outcome(taskId, TaskStatus.Completed, HonestResults(criteria, evidence), [evidence], summary), {evidence})
  {
    var criteria := ["a", "a"];
    HonestClaimAccepted(taskId, criteria, evidence, summary, {evidence});
    assert criteria[0] == criteria[1];
    hide CompletionAccepted;
  }

  // ---- what is accepted ----

  /** Results that all pass and cite evidence, all of it listed and verified. */
  predicate CitesVerified(o: Outcome, verified: set<Id>) {
    && o.evidenceRefs != [] && (forall id | id in o.evidenceRefs :: id in verified)
    && forall r | r in o.acceptanceResults :: r.passed && r.evidenceRefs != [] && forall id | id in r.evidenceRefs :: id in o.evidenceRefs
  }

  /** With distinct criteria the gate accepts exactly this task's completion while it is VERIFYING,
      with one result for each criterion and no other, in any order, backed by verified evidence. */
  lemma AcceptedExactlyWhen(taskId: Id, status: TaskStatus, criteria: seq<string>, o: Outcome, verified: set<Id>)
    requires Distinct(criteria)
    ensures CompletionAccepted(taskId, status, criteria, o, verified) <==>
      && status.Verifying? && o.taskId == taskId && o.status.Completed? && criteria != []
      && multiset(criteria) == multiset(Criteria(o.acceptanceResults)) && CitesVerified(o, verified)
  {
    var rs := o.acceptanceResults;
    if CompletionAccepted(taskId, status, criteria, o, verified) {
      AcceptedIsOneToOne(taskId, status, criteria, o, verified);
    } else if multiset(criteria) == multiset(Criteria(rs)) && CitesVerified(o, verified) {
      assert |multiset(criteria)| == |criteria| && |multiset(Criteria(rs))| == |rs|;
      forall c | c in criteria ensures Matches(rs, c) == 1 { AnsweredOnce(criteria, rs, c); }
      hide Matches;
    }
    hide Matches, Criteria;
  }

  lemma AnsweredOnce(criteria: seq<string>, rs: seq<AcceptanceResult>, c: string)
    requires Distinct(criteria) && multiset(criteria) == multiset(Criteria(rs)) && c in criteria
    requires forall r | r in rs :: r.passed
    ensures Matches(rs, c) == 1
  {
    MatchesCount(rs, c);
    CountedOnce(criteria, c);
  }

  lemma {:induction false} MatchesCount(rs: seq<AcceptanceResult>, c: string)
    requires forall r | r in rs :: r.passed
    ensures Matches(rs, c) == multiset(Criteria(rs))[c]
  {
    if rs != [] {
      assert rs == [rs[0]] + rs[1..];
      MatchesCount(rs[1..], c);
    }
  }

  lemma {:induction false} CountedOnce(xs: seq<string>, x: string)
    requires Distinct(xs) && x in xs
    ensures multiset(xs)[x] == 1
  {
    assert xs == [xs[0]] + xs[1..];
    forall i, j | 0 <= i < j < |xs[1..]| ensures xs[1..][i] != xs[1..][j] { assert xs[i + 1] != xs[j + 1]; }
    if xs[0] == x {
      forall i | 0 <= i < |xs[1..]| ensures xs[1..][i] != x { assert xs[i + 1] != xs[0]; }
    } else {
      CountedOnce(xs[1..], x);
    }
  }

  /** A criterion listed twice lets a result through that answers no criterion at all. */
  lemma RepeatedCriterionAdmitsAnother(taskId: Id, evidence: Id, summary: string)
    ensures var results := [AcceptanceResult("a", true, [evidence]), AcceptanceResult("b", true, [evidence])];
            CompletionAccepted(taskId, Verifying, ["a", "a"], Outcome(taskId, TaskStatus.Completed, results, [evidence], summary), {evidence})
  {
    var results := [AcceptanceResult("a", true, [evidence]), AcceptanceResult("b", true, [evidence])];
    assert results[1..][1..] == [];
    assert Matches(results, "a") == 1;
  }
}
