/** What each transaction of the ledger leaves in the tables, and that the tables are their history. */
module LedgerWrites {
  import opened Options
  import opened Lifecycle
  import opened Ledger
  import opened LedgerRuns

  // ---- one write ----

  /** The two tables agree but for this key. */
  ghost predicate Elsewhere<K(!new), V>(before: map<K, V>, after: map<K, V>, key: K) {
    forall k | k != key :: (k in before <==> k in after) && (k in before ==> after[k] == before[k])
  }

  /** One new row. */
  ghost predicate Inserted<K(!new), V>(before: map<K, V>, after: map<K, V>, key: K, row: V) {
    key !in before && key in after && after[key] == row && Elsewhere(before, after, key)
  }

  predicate Foreign(steps: map<Id, Step>, s: Step) {
    s.id in steps && steps[s.id].taskId != s.taskId
  }

  /** Each step of the batch as given, another task's step of that id as it was, no other changed. */
  ghost predicate StepsStored(before: map<Id, Step>, after: map<Id, Step>, batch: seq<Step>) {
    && (forall s | s in batch :: s.id in after && after[s.id] == if Foreign(before, s) then before[s.id] else s)
    && (forall id | !Named(batch, id) :: (id in before <==> id in after) && (id in before ==> after[id] == before[id]))
  }

  ghost predicate DistinctSteps(batch: seq<Step>) {
    forall i, j | 0 <= i < j < |batch| :: batch[i].id != batch[j].id
  }

  predicate Named(batch: seq<Step>, id: Id) {
    exists s | s in batch :: s.id == id
  }

  /** A task that fails or is cancelled gets a result that claims nothing, unless it has one. */
  ghost predicate TerminalStored(before: map<Id, Outcome>, after: map<Id, Outcome>, t: Task) {
    if (t.status.Failed? || t.status.Cancelled?) && t.id !in before then
      t.id in after && ClaimsNothing(after[t.id], t) && Elsewhere(before, after, t.id)
    else after == before
  }

  predicate ClaimsNothing(o: Outcome, t: Task) {
    && o.taskId == t.id && o.status == t.status && o.evidenceRefs == []
    && |o.acceptanceResults| == |t.def.criteria|
    && forall k | 0 <= k < |t.def.criteria| :: o.acceptanceResults[k].criterion == t.def.criteria[k] && !o.acceptanceResults[k].passed
  }

  ghost predicate EvidenceStored(before: map<Id, Evidence>, after: map<Id, Evidence>, brought: Option<Evidence>) {
    match brought
    case Some(e) => Inserted(before, after, e.id, e)
    case None => after == before
  }

  ghost predicate OutcomeStored(before: map<Id, Outcome>, after: map<Id, Outcome>, id: Id, outcome: Option<Outcome>) {
    match outcome
    case Some(o) => Inserted(before, after, id, o)
    case None => after == before
  }

  ghost predicate WriteStored(before: Db, w: Write, after: Db) {
    && w.task.id in after.tasks && after.tasks[w.task.id] == w.task && Elsewhere(before.tasks, after.tasks, w.task.id)
    && StepsStored(before.steps, after.steps, w.steps)
    && EvidenceStored(before.evidence, after.evidence, w.evidence)
    && Inserted(before.events, after.events, EventKey(w.task.id, w.key), EventRow(w.event, OfWrite(w)))
    && OutcomeStored(before.outcomes, after.outcomes, w.task.id, w.outcome)
    && TerminalStored(before.terminal, after.terminal, w.task)
    && after.receipts == before.receipts
  }

  lemma {:induction false} UpsertedSteps(steps: map<Id, Step>, batch: seq<Step>)
    requires DistinctSteps(batch)
    ensures StepsStored(steps, UpsertSteps(steps, batch), batch)
  {
    if batch != [] {
      var init, last := batch[..|batch| - 1], batch[|batch| - 1];
      UpsertedSteps(steps, init);
      var mid := UpsertSteps(steps, init);
      assert batch == init + [last];
      assert !Named(init, last.id);
      assert Foreign(mid, last) <==> Foreign(steps, last);
      forall s | s in batch
        ensures var after := UpsertSteps(steps, batch); s.id in after && after[s.id] == if Foreign(steps, s) then steps[s.id] else s
      {
        if s in init { assert s.id != last.id; }
      }
      forall id | !Named(batch, id)
        ensures var after := UpsertSteps(steps, batch); (id in steps <==> id in after) && (id in steps ==> after[id] == steps[id])
      {
        assert last in batch && !Named(init, id);
      }
    }
  }

  /** A committed write stores all it carries and changes nothing else; any other changes nothing. */
  lemma CommittedWriteStores(checks: Checks, db: Db, w: Write)
    ensures var r := WriteTx(checks, db, w);
            if r.result.Committed? then WriteStored(db, w, r.db) else r.db == db
  {
    RefusedOrApplied(checks, db, w);
    hide WriteTx, RowsCollide, Apply, WriteStored;
    if WriteTx(checks, db, w).result.Committed? { AppliedStores(db, w); }
  }

  lemma RefusedOrApplied(checks: Checks, db: Db, w: Write)
    ensures var r := WriteTx(checks, db, w);
            if r.result.Committed? then r.db == Apply(db, w) && DistinctSteps(w.steps) && !RowsCollide(db, w) && EventKey(w.task.id, w.key) !in db.events
            else r.db == db
  {
    hide TaskRefusal, RowsCollide, Apply, ValidTask, ValidOutcome;
  }

  lemma AppliedStores(db: Db, w: Write)
    requires DistinctSteps(w.steps) && !RowsCollide(db, w) && EventKey(w.task.id, w.key) !in db.events
    ensures WriteStored(db, w, Apply(db, w))
  {
    UpsertedSteps(db.steps, w.steps);
    TerminalAdded(db.terminal, w.task);
    RowPut(db.tasks, w.task.id, w.task);
    RowPut(db.events, EventKey(w.task.id, w.key), EventRow(w.event, OfWrite(w)));
    EvidencePut(db, w);
    OutcomePut(db, w);
    hide RowsCollide, UpsertSteps, StepsStored, WithTerminal, TerminalStored, DistinctSteps, Elsewhere, Inserted, EvidenceStored, OutcomeStored;
  }

  lemma EvidencePut(db: Db, w: Write)
    requires !RowsCollide(db, w)
    ensures EvidenceStored(db.evidence, if w.evidence.Some? then db.evidence[w.evidence.value.id := w.evidence.value] else db.evidence, w.evidence)
  {
    hide EventIdTaken;
  }

  lemma OutcomePut(db: Db, w: Write)
    requires !RowsCollide(db, w)
    ensures OutcomeStored(db.outcomes, if w.outcome.Some? then db.outcomes[w.task.id := w.outcome.value] else db.outcomes, w.task.id, w.outcome)
  {
    hide EventIdTaken;
  }

  lemma RowPut<K(!new), V>(rows: map<K, V>, key: K, row: V)
    ensures Elsewhere(rows, rows[key := row], key)
    ensures key !in rows ==> Inserted(rows, rows[key := row], key, row)
  {
  }

  lemma TerminalAdded(terminal: map<Id, Outcome>, t: Task)
    ensures TerminalStored(terminal, WithTerminal(terminal, t), t)
  {
  }

  /** When a write commits, in terms of what the caller sends and the tables hold. */
  lemma WriteCommitsExactlyWhen(checks: Checks, db: Db, w: Write)
    ensures WriteTx(checks, db, w).result.Committed? <==>
      && WellFormed(w)
      && EventKey(w.task.id, w.key) !in db.events
      && !EventIdTaken(db, w.event.id)
      && (w.evidence.Some? ==> w.evidence.value.id !in db.evidence)
      && (w.outcome.Some? ==> w.task.id !in db.outcomes)
      && (if w.task.id in db.tasks then Follows(checks, db, db.tasks[w.task.id], w)
          else w.task.status.Received? && w.event.kind.TaskCreated? && checks.authorised(w.task))
  {
    hide WellFormed, EventIdTaken, Resolved, Timely, PlanEvents, CompletionAccepted, Confirmed;
  }

  /** The task goes on from where it was; if it completes, its evidence is complete. */
  predicate Follows(checks: Checks, db: Db, was: Task, w: Write) {
    && !Terminal(was.status) && w.task.def == was.def
    && (was.startedAt.Some? ==> w.task.startedAt.Some?) && (was.completedAt.Some? ==> w.task.completedAt.Some?)
    && (w.task.status == was.status || w.task.status in Transitions(was.status))
    && (w.task.status.Completed? ==>
          && w.event.kind.TaskCompleted? && w.outcome.Some? && Resolved(db.receipts, was.id)
          && Timely(JoinedEvidence(db, was.id), was.def.createdAt, w.event.occurredAt)
          && |PlanEvents(db, was.id)| == 1
          && CompletionAccepted(was.id, was.status, was.def.criteria, w.outcome.value, Confirmed(checks, db, was, w.outcome.value)))
  }

  // ---- the other transactions ----

  lemma RecordStores(db: Db, taskId: Id, key: string, event: Event, evidence: Evidence)
    ensures match RecordTx(db, taskId, key, event, evidence)
            case Some(after) =>
              && taskId in db.tasks && evidence.taskId == taskId && event.taskId == taskId
              && Inserted(db.evidence, after.evidence, evidence.id, evidence)
              && Inserted(db.events, after.events, EventKey(taskId, key), EventRow(event, OfRecord(key)))
              && after == db.(evidence := after.evidence, events := after.events)
            case None =>
              || taskId !in db.tasks || event.taskId != taskId || evidence.taskId != taskId || event.kind != Recorded
              || EventKey(taskId, key) in db.events || EventIdTaken(db, event.id) || evidence.id in db.evidence
  {
    hide EventIdTaken;
  }

  /** An effect is recorded for a live task, on its own evidence, and never changed. */
  lemma EffectStores(db: Db, taskId: Id, stepId: Id, operationId: Id, evidenceId: Option<Id>)
    ensures var key, receipt := EffectKey(taskId, operationId, evidenceId.Some?), Receipt(stepId, evidenceId);
            match RecordEffect(db, taskId, stepId, operationId, evidenceId)
            case Some(after) =>
              && taskId in db.tasks && !Terminal(db.tasks[taskId].status)
              && key in after.receipts && after.receipts[key] == receipt && Elsewhere(db.receipts, after.receipts, key)
              && (key in db.receipts ==> after == db)
              && (evidenceId.Some? ==> evidenceId.value in db.evidence && db.evidence[evidenceId.value].taskId == taskId
                                       && db.evidence[evidenceId.value].stepId == Some(stepId))
              && after == db.(receipts := after.receipts)
            case None => true
  {
    var key := EffectKey(taskId, operationId, evidenceId.Some?);
    if key in db.receipts { assert db.receipts == db.receipts[key := db.receipts[key]]; }
  }

  /** Final verification settles a VERIFYING task as the report says, criterion by criterion. */
  lemma VerdictStores(db: Db, taskId: Id, report: Report, audit: Audit)
    requires CitesOwn(db, taskId, report) && taskId !in db.outcomes && VerifyTx(db, taskId, report, audit).Some?
    requires KeyedRows(db)
    ensures var (after, o) := VerifyTx(db, taskId, report, audit).value;
            && taskId in db.tasks && db.tasks[taskId].status.Verifying? && Resolved(db.receipts, taskId)
            && SaysReport(o, db.tasks[taskId], report)
            && Inserted(db.outcomes, after.outcomes, taskId, o)
            && taskId in after.tasks && after.tasks[taskId] == db.tasks[taskId].(status := o.status, completedAt := Some(audit.at))
            && Elsewhere(db.tasks, after.tasks, taskId)
            && TerminalStored(db.terminal, after.terminal, after.tasks[taskId])
            && AuditStored(db, taskId, report, audit, after.events)
            && after.steps == db.steps && after.evidence == db.evidence && after.receipts == db.receipts
  {
    var t := db.tasks[taskId];
    VerdictEvents(db, t, report, audit);
    TerminalAdded(db.terminal, t.(status := Verdict(t, report).status, completedAt := Some(audit.at)));
    VerdictSays(t, report);
    hide Resolved, ValidOutcome, ValidTask, AuditEvents, Verdict, WithTerminal, TerminalStored, SaysReport, AuditStored;
  }

  lemma VerdictSays(t: Task, report: Report)
    ensures SaysReport(Verdict(t, report), t, report)
  {
  }

  lemma VerdictEvents(db: Db, t: Task, report: Report, audit: Audit)
    requires t.id in db.tasks && db.tasks[t.id] == t && AuditEvents(db, t, report, audit).Some?
    ensures AuditStored(db, t.id, report, audit, AuditEvents(db, t, report, audit).value)
  {
    hide EventIdTaken;
  }

  predicate SaysReport(o: Outcome, t: Task, report: Report) {
    && o.taskId == t.id && o.status == (if report.passed then TaskStatus.Completed else TaskStatus.Failed)
    && o.evidenceRefs == report.evidenceRefs && o.summary == report.summary
    && |o.acceptanceResults| == |t.def.criteria|
    && forall k | 0 <= k < |t.def.criteria| ::
         o.acceptanceResults[k] == AcceptanceResult(t.def.criteria[k], report.passed, report.evidenceRefs)
  }

  /** One event for the verdict, and before a failing one the report that failed. */
  ghost predicate AuditStored(db: Db, taskId: Id, report: Report, audit: Audit, after: map<EventKey, EventRow>)
    requires taskId in db.tasks
  {
    var final, failed := EventKey(taskId, "final-verification"), EventKey(taskId, "final-verification-failed");
    var t := db.tasks[taskId];
    && final !in db.events && final in after
    && after[final].event == Event(audit.eventId, taskId, t.def.traceId, t.def.principal.id, if report.passed then TaskCompleted else TaskFailed, audit.at, None)
    && (!report.passed ==>
          && failed !in db.events && failed in after && audit.failureEventId != audit.eventId
          && after[failed].event == Event(audit.failureEventId, taskId, t.def.traceId, t.def.principal.id, Recorded, audit.at, None))
    && forall k | k != final && (report.passed || k != failed) :: (k in db.events <==> k in after) && (k in db.events ==> after[k] == db.events[k])
  }

  // ---- the tables are their history ----

  /** Step `i` brought this evidence. */
  ghost predicate Brings(checks: Checks, trace: seq<Action>, i: nat, e: Evidence)
    requires i < |trace|
  {
    match trace[i]
    case Do(w) => ResultAt(checks, trace, i).Committed? && w.evidence == Some(e)
    case Record(taskId, key, event, evidence) => evidence == e && RecordTx(At(checks, trace, i), taskId, key, event, evidence).Some?
    case _ => false
  }

  lemma OneStepOfEvidence(checks: Checks, trace: seq<Action>, i: nat, id: Id)
    requires i < |trace|
    ensures var before, after := At(checks, trace, i).evidence, At(checks, trace, i + 1).evidence;
            && (id in before ==> id in after && after[id] == before[id] && forall e: Evidence | e.id == id :: !Brings(checks, trace, i, e))
            && (id !in before && id in after ==> Brings(checks, trace, i, after[id]) && after[id].id == id)
            && (forall e: Evidence | e.id == id && Brings(checks, trace, i, e) :: id in after && after[id] == e)
  {
    AtNext(checks, trace, i);
    var db := At(checks, trace, i);
    match trace[i] {
      case Do(w) =>
        CommittedWriteStores(checks, db, w);
        hide WriteTx, At, StepsStored, TerminalStored;
      case Record(taskId, key, event, evidence) =>
        RecordStores(db, taskId, key, event, evidence);
        hide RecordTx, At;
      case Effect(taskId, stepId, operationId, evidenceId) =>
        EffectStores(db, taskId, stepId, operationId, evidenceId);
        hide RecordEffect, At;
      case Verify(taskId, report, audit) =>
        if CitesOwn(db, taskId, report) { VerdictKeepsEvidence(db, taskId, report, audit); }
        hide VerifyTx, At;
    }
  }

  lemma VerdictKeepsEvidence(db: Db, taskId: Id, report: Report, audit: Audit)
    requires CitesOwn(db, taskId, report)
    ensures VerifyTx(db, taskId, report, audit).Some? ==>
      var after := VerifyTx(db, taskId, report, audit).value.0;
      after.evidence == db.evidence && after.steps == db.steps
  {
    hide Resolved, ValidOutcome, ValidTask, AuditEvents, Verdict;
  }

  /** The evidence table holds exactly what committed steps brought, each row by one of them. */
  lemma {:induction false} EvidenceIsWhatWasBrought(checks: Checks, trace: seq<Action>, n: nat, id: Id) returns (i: nat)
    requires n <= |trace|
    ensures id in At(checks, trace, n).evidence ==>
      i < n && Brings(checks, trace, i, At(checks, trace, n).evidence[id]) && At(checks, trace, n).evidence[id].id == id
    ensures forall j, e: Evidence | 0 <= j < n && e.id == id && Brings(checks, trace, j, e) ::
              id in At(checks, trace, n).evidence && At(checks, trace, n).evidence[id] == e && j == i
  {
    hide At, Brings;
    if n == 0 {
      i := 0;
      NothingAtFirst(checks, trace);
    } else {
      i := EvidenceIsWhatWasBrought(checks, trace, n - 1, id);
      OneStepOfEvidence(checks, trace, n - 1, id);
      if id !in At(checks, trace, n - 1).evidence { i := n - 1; }
    }
  }

  /** Step `i` committed a write of this task that carries a step of this id. */
  ghost predicate WritesStep(checks: Checks, trace: seq<Action>, i: nat, taskId: Id, id: Id)
    requires i < |trace|
  {
    trace[i].Do? && ResultAt(checks, trace, i).Committed? && trace[i].w.task.id == taskId && Named(trace[i].w.steps, id)
  }

  lemma OneStepOfSteps(checks: Checks, trace: seq<Action>, i: nat, s: Step)
    requires i < |trace|
    ensures var before, after := At(checks, trace, i).steps, At(checks, trace, i + 1).steps;
            s.id in before && before[s.id] == s ==>
              s.id in after && after[s.id].taskId == s.taskId && (!WritesStep(checks, trace, i, s.taskId, s.id) ==> after[s.id] == s)
  {
    AtNext(checks, trace, i);
    var db := At(checks, trace, i);
    match trace[i] {
      case Do(w) =>
        CommittedWriteStores(checks, db, w);
        if WriteTx(checks, db, w).result.Committed? { StepsAreOwn(checks, db, w); }
        hide WriteTx, At, TerminalStored;
      case Record(taskId, key, event, evidence) =>
        RecordStores(db, taskId, key, event, evidence);
        hide RecordTx, At;
      case Effect(taskId, stepId, operationId, evidenceId) =>
        EffectStores(db, taskId, stepId, operationId, evidenceId);
        hide RecordEffect, At;
      case Verify(taskId, report, audit) =>
        if CitesOwn(db, taskId, report) { VerdictKeepsEvidence(db, taskId, report, audit); }
        hide VerifyTx, At;
    }
  }

  lemma StepsAreOwn(checks: Checks, db: Db, w: Write)
    requires WriteTx(checks, db, w).result.Committed?
    ensures forall s | s in w.steps :: s.taskId == w.task.id
  {
    hide ValidTask, TaskRefusal, RowsCollide, Apply, ValidOutcome;
  }

  /** A step's row is the one its task's last committed write of it carried. */
  lemma {:induction false} StepIsAsLastWritten(checks: Checks, trace: seq<Action>, i: nat, n: nat, s: Step)
    requires i < n <= |trace| && WritesStep(checks, trace, i, s.taskId, s.id) && s in trace[i].w.steps
    requires !Foreign(At(checks, trace, i).steps, s)
    requires forall j | i < j < n :: !WritesStep(checks, trace, j, s.taskId, s.id)
    ensures s.id in At(checks, trace, n).steps && At(checks, trace, n).steps[s.id] == s
    decreases n
  {
    hide At, WritesStep;
    if n == i + 1 {
      WrittenStep(checks, trace, i, s);
    } else {
      StepIsAsLastWritten(checks, trace, i, n - 1, s);
      OneStepOfSteps(checks, trace, n - 1, s);
    }
  }

  lemma WrittenStep(checks: Checks, trace: seq<Action>, i: nat, s: Step)
    requires i < |trace| && WritesStep(checks, trace, i, s.taskId, s.id) && s in trace[i].w.steps
    requires !Foreign(At(checks, trace, i).steps, s)
    ensures s.id in At(checks, trace, i + 1).steps && At(checks, trace, i + 1).steps[s.id] == s
  {
    AtNext(checks, trace, i);
    CommittedWriteStores(checks, At(checks, trace, i), trace[i].w);
    hide WriteTx, At, TerminalStored, Named;
  }

  /** Every task came from one committed write: RECEIVED, authorised, with the definition it still has. */
  lemma {:induction false} TasksWereAuthorised(checks: Checks, trace: seq<Action>, n: nat, id: Id) returns (i: nat)
    requires n <= |trace| && id in At(checks, trace, n).tasks
    ensures i < n && trace[i].Do? && ResultAt(checks, trace, i).Committed? && id !in At(checks, trace, i).tasks
    ensures var t := trace[i].w.task;
            t.id == id && t.status.Received? && trace[i].w.event.kind.TaskCreated? && checks.authorised(t) && t.def == At(checks, trace, n).tasks[id].def
  {
    hide At;
    NothingAtFirst(checks, trace);
    if id in At(checks, trace, n - 1).tasks {
      i := TasksWereAuthorised(checks, trace, n - 1, id);
      AtNext(checks, trace, n - 1);
      hide After;
      StepMoves(checks, At(checks, trace, n - 1), trace[n - 1], id);
    } else {
      i := n - 1;
      NewTask(checks, trace, i, id);
    }
  }

  lemma NewTask(checks: Checks, trace: seq<Action>, i: nat, id: Id)
    requires i < |trace| && id !in At(checks, trace, i).tasks && id in At(checks, trace, i + 1).tasks
    ensures trace[i].Do? && ResultAt(checks, trace, i).Committed?
    ensures var t := trace[i].w.task;
            t.id == id && t.status.Received? && trace[i].w.event.kind.TaskCreated? && checks.authorised(t) && t == At(checks, trace, i + 1).tasks[id]
  {
    AtNext(checks, trace, i);
    var db := At(checks, trace, i);
    match trace[i] {
      case Do(w) =>
        CommittedWriteStores(checks, db, w);
        WriteCommitsExactlyWhen(checks, db, w);
        hide WriteTx, At, StepsStored, TerminalStored, WellFormed, EventIdTaken, Follows;
      case Record(taskId, key, event, evidence) =>
        RecordStores(db, taskId, key, event, evidence);
        hide RecordTx, At, EventIdTaken;
      case Effect(taskId, stepId, operationId, evidenceId) =>
        EffectStores(db, taskId, stepId, operationId, evidenceId);
        hide RecordEffect, At;
      case Verify(taskId, report, audit) =>
        if CitesOwn(db, taskId, report) && VerifyTx(db, taskId, report, audit).Some? { VerifyAddsNoTask(db, taskId, report, audit); }
        hide VerifyTx, At;
    }
  }

  lemma VerifyAddsNoTask(db: Db, taskId: Id, report: Report, audit: Audit)
    requires CitesOwn(db, taskId, report) && VerifyTx(db, taskId, report, audit).Some?
    ensures VerifyTx(db, taskId, report, audit).value.0.tasks.Keys == db.tasks.Keys
  {
    hide Resolved, ValidOutcome, ValidTask, AuditEvents, Verdict;
  }

  // ---- the lifecycle, told backwards ----

  /** What a status may come from; failing and cancelling are open until a task has ended. */
  predicate ComesFrom(after: TaskStatus, before: TaskStatus) {
    !Terminal(before) &&
    match after
    case Received => false
    case Compiled => before.Received?
    case Ready => before.Compiled? || before.ApprovalRequired?
    case Running => before.Ready? || before.Waiting? || before.ApprovalRequired?
    case Waiting => before.Running?
    case ApprovalRequired => before.Compiled? || before.Running?
    case Verifying => before.Running?
    case Completed => before.Verifying?
    case Failed => true
    case Cancelled => true
  }

  lemma TableReadsBackwards(before: TaskStatus, after: TaskStatus)
    ensures after in Transitions(before) <==> ComesFrom(after, before)
  {
  }

  /** In every run a status that changes comes from what it may come from: COMPLETED only from
      VERIFYING, VERIFYING only from RUNNING, and so back to RECEIVED. */
  lemma StatusComesFrom(checks: Checks, trace: seq<Action>, i: nat, id: Id)
    requires i < |trace| && id in At(checks, trace, i).tasks
    ensures id in At(checks, trace, i + 1).tasks
    ensures var before, after := At(checks, trace, i).tasks[id].status, At(checks, trace, i + 1).tasks[id].status;
            after == before || ComesFrom(after, before)
  {
    AtNext(checks, trace, i);
    hide At, After;
    StepMoves(checks, At(checks, trace, i), trace[i], id);
    TableReadsBackwards(At(checks, trace, i).tasks[id].status, At(checks, trace, i + 1).tasks[id].status);
    hide Transitions, ComesFrom;
  }

  // ---- finishing ----

  /** What `finish` returns when the task had no outcome: its own, stored, or, if completion was
      refused, a failure that claims nothing. */
  lemma FinishReturnsItsOwn(checks: Checks, db: Db, w: Write)
    requires ReadOutcome(db, w.task.id).None? && FinishTx(checks, db, w).result.Returned?
    ensures var o := FinishTx(checks, db, w).result.outcome;
            if WriteTx(checks, db, w).result == Refused(VerificationFailed) then
              && o.status.Failed? && ClaimsNothing(o, w.task.(status := TaskStatus.Failed))
              && !WriteTx(checks, db, FailedWrite(w)).result.Refused? && FinishTx(checks, db, w).db == WriteTx(checks, db, FailedWrite(w)).db
            else w.outcome == Some(o) && !WriteTx(checks, db, w).result.Refused? && FinishTx(checks, db, w).db == WriteTx(checks, db, w).db
    ensures FailedWrite(w) == w.(key := FailedWrite(w).key, task := w.task.(status := TaskStatus.Failed), outcome := FailedWrite(w).outcome,
                                 event := w.event.(kind := TaskFailed))
  {
    hide WriteTx, ReadOutcome;
  }
}
