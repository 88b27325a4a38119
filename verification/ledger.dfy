/** The task ledger: keyed idempotent writes, gated completion, effects, and the other completion path. */
module Ledger {
  import opened Options
  import opened Lifecycle

  type Time = int

  datatype Principal = Principal(id: Id, human: bool)

  /** Everything about a task that no write may change. */
  datatype Definition = Definition(
    tenant: Id, principal: Principal, traceId: Id, objective: string, criteria: seq<string>, createdAt: Time)

  datatype Task = Task(id: Id, def: Definition, status: TaskStatus, startedAt: Option<Time>, completedAt: Option<Time>)

  datatype EventKind = TaskCreated | PlanCompiled | TaskCompleted | TaskFailed | Recorded

  /** The plan of a PLAN_COMPILED event; what it says is the completion check's business. */
  datatype Plan = Plan(text: string)

  datatype Event = Event(id: Id, taskId: Id, traceId: Id, actorId: Id, kind: EventKind, occurredAt: Time, plan: Option<Plan>)

  datatype Step = Step(id: Id, taskId: Id, status: TaskStatus, content: string)

  datatype Evidence = Evidence(id: Id, taskId: Id, stepId: Option<Id>, capturedAt: Time, content: string)

  datatype Write = Write(
    key: string, task: Task, event: Event, steps: seq<Step>, evidence: Option<Evidence>, outcome: Option<Outcome>)

  /** What an event row's digest was taken of; digests of different inputs differ. */
  datatype Request = OfWrite(write: Write) | OfReport(report: Report) | OfRecord(key: string)

  datatype Report = Report(passed: bool, evidenceRefs: seq<Id>, summary: string)

  datatype EventKey = EventKey(taskId: Id, key: string)

  datatype EventRow = EventRow(event: Event, request: Request)

  datatype EffectKey = EffectKey(taskId: Id, operationId: Id, confirmed: bool)

  datatype Receipt = Receipt(stepId: Id, evidenceId: Option<Id>)

  datatype Db = Db(
    tasks: map<Id, Task>,
    steps: map<Id, Step>,
    evidence: map<Id, Evidence>,
    events: map<EventKey, EventRow>,
    outcomes: map<Id, Outcome>,
    terminal: map<Id, Outcome>,
    receipts: map<EffectKey, Receipt>)

  const EMPTY := Db(map[], map[], map[], map[], map[], map[], map[])

  /** What a completion check reads. */
  datatype Facts = Facts(task: Task, plan: Option<Plan>, steps: set<Step>, evidence: set<Evidence>, outcome: Outcome)

  /** The parts that live elsewhere: tenancy, and the check that re-derives a task's result from its
      rows and says which evidence it confirmed, or refuses. */
  datatype Checks = Checks(authorised: Task -> bool, confirms: Facts -> Option<set<Id>>)

  datatype Refusal =
    | Malformed | KeyReused | MustBeginReceived | NotAuthorised | DefinitionChanged | BadTransition
    | UnresolvedEffect | VerificationFailed | Immutable | Duplicate

  datatype WriteResult = Committed | Replayed | Refused(why: Refusal)

  datatype Written = Written(db: Db, result: WriteResult)

  // ---- shapes ----

  predicate ValidTask(t: Task) {
    && t.def.criteria != []
    && (t.status.Completed? ==> t.completedAt.Some?)
    && (t.startedAt.Some? ==> t.startedAt.value >= t.def.createdAt)
    && (t.completedAt.Some? ==> t.completedAt.value >= t.startedAt.GetOr(t.def.createdAt))
  }

  predicate WellFormed(w: Write) {
    && ValidTask(w.task)
    && w.event.taskId == w.task.id && w.event.traceId == w.task.def.traceId && w.event.actorId == w.task.def.principal.id
    && (forall i, j | 0 <= i < j < |w.steps| :: w.steps[i].id != w.steps[j].id)
    && (forall s | s in w.steps :: s.taskId == w.task.id)
    && (w.evidence.Some? ==> w.evidence.value.taskId == w.task.id)
    && (w.outcome.Some? ==> ValidOutcome(w.outcome.value))
  }

  // ---- effects ----

  /** No effect of the task is still unresolved. */
  predicate Resolved(receipts: map<EffectKey, Receipt>, taskId: Id) {
    forall k | k in receipts && k.taskId == taskId && !k.confirmed :: k.(confirmed := true) in receipts
  }

  function RecordEffect(db: Db, taskId: Id, stepId: Id, operationId: Id, evidenceId: Option<Id>): Option<Db> {
    var key, receipt := EffectKey(taskId, operationId, evidenceId.Some?), Receipt(stepId, evidenceId);
    if taskId !in db.tasks || Terminal(db.tasks[taskId].status) then None
    else if evidenceId.Some? && !(evidenceId.value in db.evidence && db.evidence[evidenceId.value].taskId == taskId
                                  && db.evidence[evidenceId.value].stepId == Some(stepId)) then None
    else if key in db.receipts && db.receipts[key] != receipt then None
    else Some(db.(receipts := db.receipts[key := receipt]))
  }

  // ---- completion ----

  function JoinedEvidence(db: Db, taskId: Id): set<Evidence> {
    set id | id in db.evidence && db.evidence[id].taskId == taskId && db.evidence[id].stepId.Some?
             && db.evidence[id].stepId.value in db.steps && db.steps[db.evidence[id].stepId.value].taskId == taskId :: db.evidence[id]
  }

  function StepsOf(db: Db, taskId: Id): set<Step> {
    set id | id in db.steps && db.steps[id].taskId == taskId :: db.steps[id]
  }

  function PlanEvents(db: Db, taskId: Id): set<EventKey> {
    set k | k in db.events && k.taskId == taskId && db.events[k].event.kind.PlanCompiled?
  }

  function PlanOf(db: Db, taskId: Id): Option<Plan>
    requires |PlanEvents(db, taskId)| == 1
  {
    OneElement(PlanEvents(db, taskId));
    var k :| k in PlanEvents(db, taskId);
    db.events[k].event.plan
  }

  lemma OneElement<T>(s: set<T>)
    requires |s| == 1
    ensures exists x :: x in s
    ensures forall x, y | x in s && y in s :: x == y
  {
    var x :| x in s;
    assert |s - {x}| == 0;
    assert s == {x};
  }

  function IdsOf(evidence: set<Evidence>): set<Id> {
    set e | e in evidence :: e.id
  }

  predicate Timely(evidence: set<Evidence>, from: Time, to: Time) {
    forall e | e in evidence :: from <= e.capturedAt <= to
  }

  /** The evidence a completion check confirmed, of the task's own rows; empty if it refused. */
  function Confirmed(checks: Checks, db: Db, was: Task, o: Outcome): set<Id>
    requires |PlanEvents(db, was.id)| == 1
  {
    var rows := JoinedEvidence(db, was.id);
    var answer := checks.confirms(Facts(was, PlanOf(db, was.id), StepsOf(db, was.id), rows, o));
    if answer.Some? then answer.value * IdsOf(rows) else {}
  }

  function CompletionRefusal(checks: Checks, db: Db, was: Task, w: Write): Option<Refusal> {
    if !Resolved(db.receipts, was.id) then Some(UnresolvedEffect)
    else if w.outcome.None? then Some(VerificationFailed)
    else if !Timely(JoinedEvidence(db, was.id), was.def.createdAt, w.event.occurredAt) then Some(VerificationFailed)
    else if |PlanEvents(db, was.id)| != 1 then Some(VerificationFailed)
    else if !CompletionAccepted(was.id, was.status, was.def.criteria, w.outcome.value, Confirmed(checks, db, was, w.outcome.value)) then Some(VerificationFailed)
    else if !w.event.kind.TaskCompleted? then Some(VerificationFailed)
    else None
  }

  // ---- one write ----

  predicate SameDefinition(was: Task, next: Task) {
    && next.def == was.def
    && (next.startedAt.None? ==> was.startedAt.None?)
    && (next.completedAt.None? ==> was.completedAt.None?)
  }

  function UpdateRefusal(checks: Checks, db: Db, was: Task, w: Write): Option<Refusal> {
    if !SameDefinition(was, w.task) then Some(DefinitionChanged)
    else if was.status != w.task.status && w.task.status !in Transitions(was.status) then Some(BadTransition)
    else if w.task.status.Completed? && CompletionRefusal(checks, db, was, w).Some? then CompletionRefusal(checks, db, was, w)
    else if Terminal(was.status) then Some(Immutable)
    else None
  }

  function TaskRefusal(checks: Checks, db: Db, w: Write): Option<Refusal> {
    if w.task.id !in db.tasks then
      if !w.task.status.Received? || !w.event.kind.TaskCreated? then Some(MustBeginReceived)
      else if !checks.authorised(w.task) then Some(NotAuthorised)
      else None
    else UpdateRefusal(checks, db, db.tasks[w.task.id], w)
  }

  predicate EventIdTaken(db: Db, id: Id) {
    exists k | k in db.events :: db.events[k].event.id == id
  }

  predicate RowsCollide(db: Db, w: Write) {
    || (w.evidence.Some? && w.evidence.value.id in db.evidence)
    || EventIdTaken(db, w.event.id)
    || (w.outcome.Some? && w.task.id in db.outcomes)
  }

  /** Inserts a step, or updates it if it is this task's; another task's step is left alone. */
  function UpsertStep(steps: map<Id, Step>, s: Step): map<Id, Step> {
    if s.id in steps && steps[s.id].taskId != s.taskId then steps else steps[s.id := s]
  }

  function UpsertSteps(steps: map<Id, Step>, batch: seq<Step>): map<Id, Step> {
    if batch == [] then steps else UpsertStep(UpsertSteps(steps, batch[..|batch| - 1]), batch[|batch| - 1])
  }

  function Unmet(criteria: seq<string>): (rs: seq<AcceptanceResult>)
    ensures |rs| == |criteria| && forall k | 0 <= k < |rs| :: rs[k] == AcceptanceResult(criteria[k], false, [])
  {
    seq(|criteria|, k requires 0 <= k < |criteria| => AcceptanceResult(criteria[k], false, []))
  }

  /** What the database itself records the moment a task fails or is cancelled. */
  function TerminalResult(t: Task): Outcome {
    Outcome(t.id, t.status, Unmet(t.def.criteria), [],
            if t.status.Failed? then "Task failed; no completion evidence asserted" else "Task cancelled; no completion evidence asserted")
  }

  function WithTerminal(terminal: map<Id, Outcome>, t: Task): map<Id, Outcome> {
    if (t.status.Failed? || t.status.Cancelled?) && t.id !in terminal then terminal[t.id := TerminalResult(t)] else terminal
  }

  function Apply(db: Db, w: Write): Db {
    Db(db.tasks[w.task.id := w.task],
       UpsertSteps(db.steps, w.steps),
       if w.evidence.Some? then db.evidence[w.evidence.value.id := w.evidence.value] else db.evidence,
       db.events[EventKey(w.task.id, w.key) := EventRow(w.event, OfWrite(w))],
       if w.outcome.Some? then db.outcomes[w.task.id := w.outcome.value] else db.outcomes,
       WithTerminal(db.terminal, w.task),
       db.receipts)
  }

  function WriteTx(checks: Checks, db: Db, w: Write): Written {
    var key := EventKey(w.task.id, w.key);
    if !WellFormed(w) then Written(db, Refused(Malformed))
    else if key in db.events then
      Written(db, if db.events[key].request == OfWrite(w) then Replayed else Refused(KeyReused))
    else if TaskRefusal(checks, db, w).Some? then Written(db, Refused(TaskRefusal(checks, db, w).value))
    else if RowsCollide(db, w) then Written(db, Refused(Duplicate))
    else Written(Apply(db, w), Committed)
  }

  // ---- reading and finishing ----

  function ReadOutcome(db: Db, taskId: Id): Option<Outcome> {
    if taskId !in db.tasks then None
    else if taskId in db.outcomes then Some(db.outcomes[taskId])
    else if taskId in db.terminal then Some(db.terminal[taskId])
    else None
  }

  /** The same write as a failed completion. */
  function FailedWrite(w: Write): Write {
    w.(key := w.key + ":verification-failed",
       task := w.task.(status := TaskStatus.Failed),
       outcome := Some(Outcome(w.task.id, TaskStatus.Failed, Unmet(w.task.def.criteria), [], "Persisted completion verification failed")),
       event := w.event.(kind := TaskFailed))
  }

  datatype Finished = Returned(outcome: Outcome) | Threw(why: Refusal)

  datatype Finishing = Finishing(db: Db, result: Finished)

  function SettleFailed(checks: Checks, db: Db, w: Write): Finishing {
    var r := WriteTx(checks, db, FailedWrite(w));
    Finishing(r.db, if r.result.Refused? then Threw(r.result.why) else Returned(FailedWrite(w).outcome.value))
  }

  function FinishTx(checks: Checks, db: Db, w: Write): Finishing {
    var existing := ReadOutcome(db, w.task.id);
    if existing.Some? then Finishing(db, Returned(existing.value))
    else
      var r := WriteTx(checks, db, w);
      if r.result == Refused(VerificationFailed) then SettleFailed(checks, db, w)
      else if r.result.Refused? then Finishing(r.db, Threw(r.result.why))
      else if w.outcome.None? then Finishing(r.db, Threw(Malformed))
      else Finishing(r.db, Returned(w.outcome.value))
  }

  // ---- the other completion path ----

  function Met(criteria: seq<string>, passed: bool, refs: seq<Id>): (rs: seq<AcceptanceResult>)
    ensures |rs| == |criteria| && forall k | 0 <= k < |rs| :: rs[k] == AcceptanceResult(criteria[k], passed, refs)
  {
    seq(|criteria|, k requires 0 <= k < |criteria| => AcceptanceResult(criteria[k], passed, refs))
  }

  function Verdict(t: Task, report: Report): Outcome {
    Outcome(t.id, if report.passed then TaskStatus.Completed else TaskStatus.Failed,
            Met(t.def.criteria, report.passed, report.evidenceRefs), report.evidenceRefs, report.summary)
  }

  datatype Audit = Audit(eventId: Id, failureEventId: Id, at: Time)

  /** The verifier reads the task's evidence, so a report can cite nothing else. */
  predicate CitesOwn(db: Db, taskId: Id, report: Report) {
    forall id | id in report.evidenceRefs :: id in db.evidence && db.evidence[id].taskId == taskId
  }

  function AuditEvents(db: Db, t: Task, report: Report, audit: Audit): Option<map<EventKey, EventRow>> {
    var failed, final := EventKey(t.id, "final-verification-failed"), EventKey(t.id, "final-verification");
    var kind := if report.passed then TaskCompleted else TaskFailed;
    var first := if report.passed then db.events
      else db.events[failed := EventRow(Event(audit.failureEventId, t.id, t.def.traceId, t.def.principal.id, Recorded, audit.at, None), OfReport(report))];
    if final in db.events || EventIdTaken(db, audit.eventId) then None
    else if !report.passed && (failed in db.events || EventIdTaken(db, audit.failureEventId) || audit.eventId == audit.failureEventId) then None
    else Some(first[final := EventRow(Event(audit.eventId, t.id, t.def.traceId, t.def.principal.id, kind, audit.at, None), OfReport(report))])
  }

  /** Final verification by report, under the same lock; None where it throws. */
  function VerifyTx(db: Db, taskId: Id, report: Report, audit: Audit): Option<(Db, Outcome)>
    requires CitesOwn(db, taskId, report)
  {
    if taskId in db.outcomes then Some((db, db.outcomes[taskId]))
    else if taskId !in db.tasks || !Resolved(db.receipts, taskId) || !db.tasks[taskId].status.Verifying? then None
    else
      var t := db.tasks[taskId];
      var outcome := Verdict(t, report);
      var terminal := t.(status := outcome.status, completedAt := Some(audit.at));
      var events := AuditEvents(db, t, report, audit);
      if !ValidOutcome(outcome) || !ValidTask(terminal) || events.None? then None
      else
        Some((db.(tasks := db.tasks[taskId := terminal], events := events.value,
                  outcomes := db.outcomes[taskId := outcome], terminal := WithTerminal(db.terminal, terminal)), outcome))
  }

  /** What the approval and capability stores write: evidence and one event, nothing else. */
  function RecordTx(db: Db, taskId: Id, key: string, event: Event, evidence: Evidence): Option<Db> {
    if taskId !in db.tasks || event.taskId != taskId || evidence.taskId != taskId || event.kind != Recorded then None
    else if EventKey(taskId, key) in db.events || EventIdTaken(db, event.id) || evidence.id in db.evidence then None
    else Some(db.(evidence := db.evidence[evidence.id := evidence], events := db.events[EventKey(taskId, key) := EventRow(event, OfRecord(key))]))
  }

  // ---- the ledger itself ----

  class TaskLedger {
    const checks: Checks
    var db: Db

    constructor (checks: Checks)
      ensures db == EMPTY && this.checks == checks
    {
      this.checks := checks;
      db := EMPTY;
    }

    method UpsertAll(steps: map<Id, Step>, batch: seq<Step>) returns (after: map<Id, Step>)
      ensures after == UpsertSteps(steps, batch)
    {
      after := steps;
      for i := 0 to |batch|
        invariant after == UpsertSteps(steps, batch[..i])
      {
        assert batch[..i + 1][..i] == batch[..i];
        var s := batch[i];
        if s.id !in after || after[s.id].taskId == s.taskId {
          after := after[s.id := s];
        }
      }
      assert batch[..|batch|] == batch;
    }

    /** One transaction: every refusal rolls back. */
    method Commit(w: Write) returns (result: WriteResult)
      modifies this
      ensures Written(db, result) == WriteTx(checks, old(db), w)
    {
      hide WellFormed, TaskRefusal, RowsCollide, UpsertSteps;
      if !WellFormed(w) {
        return Refused(Malformed);
      }
      var key := EventKey(w.task.id, w.key);
      if key in db.events {
        if db.events[key].request != OfWrite(w) {
          return Refused(KeyReused);
        }
        return Replayed;
      }
      var refusal := TaskRefusal(checks, db, w);
      if refusal.Some? {
        return Refused(refusal.value);
      }
      if RowsCollide(db, w) {
        return Refused(Duplicate);
      }
      var steps := UpsertAll(db.steps, w.steps);
      var evidence := db.evidence;
      if w.evidence.Some? {
        evidence := evidence[w.evidence.value.id := w.evidence.value];
      }
      var outcomes := db.outcomes;
      if w.outcome.Some? {
        outcomes := outcomes[w.task.id := w.outcome.value];
      }
      var events := db.events[key := EventRow(w.event, OfWrite(w))];
      db := Db(db.tasks[w.task.id := w.task], steps, evidence, events, outcomes, WithTerminal(db.terminal, w.task), db.receipts);
      result := Committed;
    }

    method Finish(w: Write) returns (result: Finished)
      modifies this
      ensures Finishing(db, result) == FinishTx(checks, old(db), w)
    {
      hide WriteTx;
      var existing := ReadOutcome(db, w.task.id);
      if existing.Some? {
        return Returned(existing.value);
      }
      ghost var before := db;
      var first := Commit(w);
      if first == Refused(VerificationFailed) {
        RefusedChangesNothing(checks, before, w);
        var second := Commit(FailedWrite(w));
        if second.Refused? {
          return Threw(second.why);
        }
        return Returned(FailedWrite(w).outcome.value);
      }
      if first.Refused? {
        return Threw(first.why);
      }
      if w.outcome.None? {
        return Threw(Malformed);
      }
      return Returned(w.outcome.value);
    }
  }

  lemma RefusedChangesNothing(checks: Checks, db: Db, w: Write)
    requires !WriteTx(checks, db, w).result.Committed?
    ensures WriteTx(checks, db, w).db == db
  {
    hide WellFormed, TaskRefusal, RowsCollide;
  }
}
