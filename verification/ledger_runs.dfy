/** What every run over the ledger keeps, whichever paths write to it and however often they retry. */
module LedgerRuns {
  import opened Options
  import opened Lifecycle
  import opened Ledger

  datatype Action =
    | Do(w: Write)
    | Effect(taskId: Id, stepId: Id, operationId: Id, evidenceId: Option<Id>)
    | Verify(taskId: Id, report: Report, audit: Audit)
    | Record(taskId: Id, key: string, event: Event, evidence: Evidence)

  /** One transaction; one that throws changes nothing. */
  function After(checks: Checks, db: Db, a: Action): Db {
    match a
    case Do(w) => WriteTx(checks, db, w).db
    case Effect(taskId, stepId, operationId, evidenceId) =>
      (match RecordEffect(db, taskId, stepId, operationId, evidenceId) case Some(next) => next case None => db)
    case Verify(taskId, report, audit) =>
      if !CitesOwn(db, taskId, report) then db
      else (match VerifyTx(db, taskId, report, audit) case Some(r) => r.0 case None => db)
    case Record(taskId, key, event, evidence) =>
      (match RecordTx(db, taskId, key, event, evidence) case Some(next) => next case None => db)
  }

  function Run(checks: Checks, trace: seq<Action>): Db {
    if trace == [] then EMPTY else After(checks, Run(checks, trace[..|trace| - 1]), trace[|trace| - 1])
  }

  function At(checks: Checks, trace: seq<Action>, i: nat): Db
    requires i <= |trace|
  {
    Run(checks, trace[..i])
  }

  lemma AtNext(checks: Checks, trace: seq<Action>, i: nat)
    requires i < |trace|
    ensures At(checks, trace, i + 1) == After(checks, At(checks, trace, i), trace[i])
  {
    assert trace[..i + 1][..i] == trace[..i];
  }

  // ---- one step at a time ----

  /** How one task may look after a step: new and RECEIVED, or the same definition with a status that
      is unchanged or next in the table. */
  ghost predicate Moves(before: Db, after: Db, id: Id) {
    && (id in before.tasks ==>
          && id in after.tasks && after.tasks[id].def == before.tasks[id].def
          && (after.tasks[id].status == before.tasks[id].status || after.tasks[id].status in Transitions(before.tasks[id].status)))
    && (id !in before.tasks && id in after.tasks ==> after.tasks[id].status.Received?)
  }

  /** Outcomes, events and evidence are only ever added. */
  ghost predicate Grows(before: Db, after: Db) {
    && (forall id | id in before.outcomes :: id in after.outcomes && after.outcomes[id] == before.outcomes[id])
    && (forall id | id in before.terminal :: id in after.terminal && after.terminal[id] == before.terminal[id])
    && (forall k | k in before.events :: k in after.events && after.events[k] == before.events[k])
    && (forall id | id in before.evidence :: id in after.evidence && after.evidence[id] == before.evidence[id])
    && (forall k | k in before.receipts :: k in after.receipts && after.receipts[k] == before.receipts[k])
  }

  lemma WriteMoves(checks: Checks, db: Db, w: Write, id: Id)
    ensures Moves(db, WriteTx(checks, db, w).db, id)
  {
    hide WellFormed, CompletionRefusal, UpsertSteps, RowsCollide;
  }

  lemma WriteGrows(checks: Checks, db: Db, w: Write)
    ensures Grows(db, WriteTx(checks, db, w).db)
  {
    hide WellFormed, TaskRefusal, Apply, Grows, RowsCollide;
    var r := WriteTx(checks, db, w);
    if r.result.Committed? { ApplyGrows(db, w); } else { SameGrows(db); }
  }

  lemma ApplyGrows(db: Db, w: Write)
    requires EventKey(w.task.id, w.key) !in db.events && !RowsCollide(db, w)
    ensures Grows(db, Apply(db, w))
  {
    hide UpsertSteps, EventIdTaken, TerminalResult;
  }

  lemma SameGrows(db: Db)
    ensures Grows(db, db)
  {
  }

  lemma VerifyMoves(db: Db, taskId: Id, report: Report, audit: Audit, id: Id)
    requires CitesOwn(db, taskId, report) && VerifyTx(db, taskId, report, audit).Some?
    ensures Moves(db, VerifyTx(db, taskId, report, audit).value.0, id)
  {
    hide Resolved, ValidOutcome, ValidTask, Met, AuditEvents;
  }

  lemma VerifyGrows(db: Db, taskId: Id, report: Report, audit: Audit)
    requires CitesOwn(db, taskId, report) && VerifyTx(db, taskId, report, audit).Some?
    ensures Grows(db, VerifyTx(db, taskId, report, audit).value.0)
  {
    hide Resolved, ValidOutcome, ValidTask, Verdict, EventIdTaken;
  }

  lemma StepMoves(checks: Checks, db: Db, a: Action, id: Id)
    ensures Moves(db, After(checks, db, a), id) && Grows(db, After(checks, db, a))
  {
    match a {
      case Do(w) =>
        hide WriteTx;
        WriteMoves(checks, db, w, id);
        WriteGrows(checks, db, w);
      case Effect(_, _, _, _) =>
      case Verify(taskId, report, audit) =>
        hide VerifyTx;
        if CitesOwn(db, taskId, report) && VerifyTx(db, taskId, report, audit).Some? {
          VerifyMoves(db, taskId, report, audit, id);
          VerifyGrows(db, taskId, report, audit);
        }
      case Record(_, _, _, _) => hide EventIdTaken;
    }
  }

  // ---- status histories ----

  ghost predicate Path(ss: seq<TaskStatus>) {
    forall k | 0 < k < |ss| :: ss[k] in Transitions(ss[k - 1])
  }

  /** Between any two moments a task's status follows the table and its definition does not change. */
  lemma {:induction false} StatusFollowsTable(checks: Checks, trace: seq<Action>, i: nat, j: nat, id: Id) returns (path: seq<TaskStatus>)
    requires i <= j <= |trace| && id in At(checks, trace, i).tasks
    ensures id in At(checks, trace, j).tasks
    ensures At(checks, trace, j).tasks[id].def == At(checks, trace, i).tasks[id].def
    ensures path != [] && Path(path)
    ensures path[0] == At(checks, trace, i).tasks[id].status && path[|path| - 1] == At(checks, trace, j).tasks[id].status
    decreases j
  {
    hide At, After;
    if i == j {
      path := [At(checks, trace, i).tasks[id].status];
    } else {
      path := StatusFollowsTable(checks, trace, i, j - 1, id);
      AtNext(checks, trace, j - 1);
      StepMoves(checks, At(checks, trace, j - 1), trace[j - 1], id);
      var s := At(checks, trace, j).tasks[id].status;
      if s != path[|path| - 1] {
        path := path + [s];
      }
    }
  }

  /** Every task's history begins RECEIVED. */
  lemma {:induction false} HistoryBegins(checks: Checks, trace: seq<Action>, j: nat, id: Id) returns (path: seq<TaskStatus>)
    requires j <= |trace| && id in At(checks, trace, j).tasks
    ensures path != [] && Path(path) && path[0].Received? && path[|path| - 1] == At(checks, trace, j).tasks[id].status
    decreases j
  {
    hide At, After;
    NothingAtFirst(checks, trace);
    if id in At(checks, trace, j - 1).tasks {
      path := HistoryBegins(checks, trace, j - 1, id);
      var more := StatusFollowsTable(checks, trace, j - 1, j, id);
      path := path + more[1..];
    } else {
      AtNext(checks, trace, j - 1);
      StepMoves(checks, At(checks, trace, j - 1), trace[j - 1], id);
      path := [At(checks, trace, j).tasks[id].status];
    }
  }

  lemma NothingAtFirst(checks: Checks, trace: seq<Action>)
    ensures At(checks, trace, 0) == EMPTY
  {
    assert trace[..0] == [];
  }

  /** A terminal status is final. */
  lemma TerminalIsFinal(checks: Checks, trace: seq<Action>, i: nat, j: nat, id: Id)
    requires i <= j <= |trace| && id in At(checks, trace, i).tasks
    requires Terminal(At(checks, trace, i).tasks[id].status)
    ensures id in At(checks, trace, j).tasks && At(checks, trace, j).tasks[id].status == At(checks, trace, i).tasks[id].status
  {
    var path := StatusFollowsTable(checks, trace, i, j, id);
    hide At;
    SecondStep(path);
  }

  lemma SecondStep(path: seq<TaskStatus>)
    requires Path(path)
    ensures |path| > 1 ==> path[1] in Transitions(path[0])
  {
  }

  // ---- invariants ----

  /** A completed task: no unresolved effect, and an outcome that answers its criteria one to one
      from the task's own evidence. */
  ghost predicate ProperlyCompleted(db: Db, id: Id)
    requires id in db.tasks
  {
    && Resolved(db.receipts, id)
    && id in db.outcomes
    && Answers(db.tasks[id].def.criteria, db.outcomes[id])
    && (forall e | e in db.outcomes[id].evidenceRefs :: e in db.evidence && db.evidence[e].taskId == id)
  }

  ghost predicate Answers(criteria: seq<string>, o: Outcome) {
    && o.status.Completed? && ValidOutcome(o)
    && |criteria| == |o.acceptanceResults|
    && (Distinct(criteria) ==> multiset(criteria) == multiset(Criteria(o.acceptanceResults)))
  }

  ghost predicate KeyedRows(db: Db) {
    && (forall id | id in db.tasks :: db.tasks[id].id == id)
    && (forall id | id in db.evidence :: db.evidence[id].id == id)
  }

  ghost predicate CompletedInv(db: Db) {
    forall id | id in db.tasks && db.tasks[id].status.Completed? :: ProperlyCompleted(db, id)
  }

  /** The database's own terminal result is there exactly when the task failed or was cancelled. */
  ghost predicate TerminalInv(db: Db) {
    && (forall id | id in db.terminal :: id in db.tasks && (db.tasks[id].status.Failed? || db.tasks[id].status.Cancelled?))
    && (forall id | id in db.tasks && (db.tasks[id].status.Failed? || db.tasks[id].status.Cancelled?) :: id in db.terminal)
  }

  /** Every committed write that carried an outcome stored it. */
  ghost predicate StoredInv(db: Db) {
    forall k {:trigger db.events[k]} | k in db.events && db.events[k].request.OfWrite? :: Stored(db, k, db.events[k].request.write)
  }

  predicate Stored(db: Db, k: EventKey, w: Write) {
    && w.task.id == k.taskId && k.taskId in db.tasks
    && (w.outcome.Some? ==> k.taskId in db.outcomes && db.outcomes[k.taskId] == w.outcome.value)
  }

  ghost predicate Inv(db: Db) {
    KeyedRows(db) && CompletedInv(db) && TerminalInv(db) && StoredInv(db)
  }

  lemma IndexOfId(evidence: set<Evidence>, id: Id) returns (e: Evidence)
    requires id in IdsOf(evidence)
    ensures e in evidence && e.id == id
  {
    e :| e in evidence && e.id == id;
  }

  /** A completing write meets everything a completed task promises. */
  lemma CompletingWrite(checks: Checks, db: Db, w: Write)
    requires KeyedRows(db)
    requires WriteTx(checks, db, w).result.Committed? && w.task.status.Completed?
    ensures ProperlyCompleted(WriteTx(checks, db, w).db, w.task.id)
  {
    var after := WriteTx(checks, db, w).db;
    var was := db.tasks[w.task.id];
    var o := w.outcome.value;
    var confirmed := Confirmed(checks, db, was, o);
    hide WellFormed, UpsertSteps, RowsCollide, Resolved, PlanEvents, Timely, Criteria;
    assert CompletionAccepted(was.id, was.status, was.def.criteria, o, confirmed);
    if Distinct(was.def.criteria) {
      AcceptedIsOneToOne(was.id, was.status, was.def.criteria, o, confirmed);
    }
    forall id | id in o.evidenceRefs ensures id in db.evidence && db.evidence[id].taskId == was.id {
      assert id in IdsOf(JoinedEvidence(db, was.id));
      var e := IndexOfId(JoinedEvidence(db, was.id), id);
    }
  }

  lemma WriteFrame(checks: Checks, db: Db, w: Write)
    ensures var after := WriteTx(checks, db, w).db;
            && after.receipts == db.receipts
            && (forall id | id != w.task.id ::
                  && (id in after.tasks <==> id in db.tasks) && (id in db.tasks ==> after.tasks[id] == db.tasks[id])
                  && (id in after.outcomes <==> id in db.outcomes) && (id in after.terminal <==> id in db.terminal))
  {
    hide WellFormed, TaskRefusal, RowsCollide, UpsertSteps;
  }

  /** What stays true of a completed task as rows are added and its receipts do not change. */
  lemma StaysCompleted(before: Db, after: Db, id: Id)
    requires id in before.tasks && ProperlyCompleted(before, id)
    requires Grows(before, after) && id in after.tasks && after.tasks[id].def == before.tasks[id].def
    requires Resolved(after.receipts, id)
    ensures ProperlyCompleted(after, id)
  {
    hide Answers, Resolved;
  }

  lemma WriteKeepsCompleted(checks: Checks, db: Db, w: Write)
    requires KeyedRows(db) && CompletedInv(db)
    ensures CompletedInv(WriteTx(checks, db, w).db)
  {
    var after := WriteTx(checks, db, w).db;
    WriteFrame(checks, db, w);
    if !WriteTx(checks, db, w).result.Committed? {
      RefusedChangesNothing(checks, db, w);
    } else {
      WriteGrows(checks, db, w);
      if w.task.status.Completed? { CompletingWrite(checks, db, w); }
      forall id | id in after.tasks && after.tasks[id].status.Completed? ensures ProperlyCompleted(after, id) {
        if id != w.task.id {
          hide WriteTx, ProperlyCompleted;
          UnhideResolved(db, id);
          StaysCompleted(db, after, id);
        } else {
          CommittedTask(checks, db, w);
        }
      }
    }
  }

  lemma UnhideResolved(db: Db, id: Id)
    requires id in db.tasks && ProperlyCompleted(db, id)
    ensures Resolved(db.receipts, id)
  {
  }

  lemma CommittedTask(checks: Checks, db: Db, w: Write)
    requires WriteTx(checks, db, w).result.Committed?
    ensures w.task.id in WriteTx(checks, db, w).db.tasks && WriteTx(checks, db, w).db.tasks[w.task.id] == w.task
    ensures w.task.id in db.tasks ==> !Terminal(db.tasks[w.task.id].status)
  {
    hide WellFormed, CompletionRefusal, RowsCollide, UpsertSteps;
  }

  lemma WriteKeepsStored(checks: Checks, db: Db, w: Write)
    requires StoredInv(db)
    ensures StoredInv(WriteTx(checks, db, w).db)
  {
    var after := WriteTx(checks, db, w).db;
    if WriteTx(checks, db, w).result.Committed? {
      CommittedTask(checks, db, w);
      WriteGrows(checks, db, w);
      hide WellFormed, TaskRefusal, UpsertSteps, WithTerminal, EventIdTaken;
      forall k | k in after.events && after.events[k].request.OfWrite? ensures Stored(after, k, after.events[k].request.write) {
        if k in db.events { assert Stored(db, k, db.events[k].request.write); }
      }
    } else {
      RefusedChangesNothing(checks, db, w);
    }
  }

  lemma WriteKeepsRest(checks: Checks, db: Db, w: Write)
    requires KeyedRows(db) && TerminalInv(db)
    ensures var after := WriteTx(checks, db, w).db;
            KeyedRows(after) && TerminalInv(after)
  {
    hide CompletionRefusal, UpsertSteps, WellFormed, RowsCollide;
  }

  lemma VerifyFrame(db: Db, taskId: Id, report: Report, audit: Audit)
    requires CitesOwn(db, taskId, report) && VerifyTx(db, taskId, report, audit).Some?
    requires VerifyTx(db, taskId, report, audit).value.0 != db
    ensures var after, o := VerifyTx(db, taskId, report, audit).value.0, VerifyTx(db, taskId, report, audit).value.1;
            && taskId in db.tasks && taskId !in db.outcomes && Resolved(db.receipts, taskId)
            && o == Verdict(db.tasks[taskId], report) && ValidOutcome(o)
            && after.receipts == db.receipts && after.evidence == db.evidence
            && after.outcomes == db.outcomes[taskId := o]
            && after.tasks == db.tasks[taskId := db.tasks[taskId].(status := o.status, completedAt := Some(audit.at))]
            && after.terminal == WithTerminal(db.terminal, after.tasks[taskId])
            && (forall k | k in after.events && after.events[k].request.OfWrite? :: k in db.events && after.events[k] == db.events[k])
  {
    hide EventIdTaken, ValidTask, Resolved, ValidOutcome, Verdict, WithTerminal;
  }

  lemma VerifyKeepsCompleted(db: Db, taskId: Id, report: Report, audit: Audit)
    requires Inv(db) && CitesOwn(db, taskId, report) && VerifyTx(db, taskId, report, audit).Some?
    ensures CompletedInv(VerifyTx(db, taskId, report, audit).value.0)
  {
    var after := VerifyTx(db, taskId, report, audit).value.0;
    if after != db {
      VerifyFrame(db, taskId, report, audit);
      VerifyGrows(db, taskId, report, audit);
      hide VerifyTx, ValidOutcome, Resolved, TerminalInv, StoredInv, Answers, Met;
      if report.passed { MetAnswers(db.tasks[taskId], report); }
      forall id | id in after.tasks && after.tasks[id].status.Completed? ensures ProperlyCompleted(after, id) {
        if id != taskId { StaysCompleted(db, after, id); }
      }
    }
  }

  lemma VerifyKeepsRest(db: Db, taskId: Id, report: Report, audit: Audit)
    requires Inv(db) && CitesOwn(db, taskId, report) && VerifyTx(db, taskId, report, audit).Some?
    ensures var after := VerifyTx(db, taskId, report, audit).value.0;
            KeyedRows(after) && TerminalInv(after) && StoredInv(after)
  {
    var after := VerifyTx(db, taskId, report, audit).value.0;
    if after != db {
      hide VerifyTx, ValidOutcome, Resolved, CompletedInv, CitesOwn, Verdict, TerminalResult;
      VerifyFrame(db, taskId, report, audit);
      forall k | k in after.events && after.events[k].request.OfWrite? ensures Stored(after, k, after.events[k].request.write) {
        assert Stored(db, k, db.events[k].request.write);
      }
    }
  }

  lemma MetAnswers(t: Task, report: Report)
    requires ValidOutcome(Verdict(t, report)) && report.passed
    ensures Answers(t.def.criteria, Verdict(t, report))
  {
    var o := Verdict(t, report);
    assert Criteria(o.acceptanceResults) == t.def.criteria;
  }

  lemma EffectKeepsInv(db: Db, taskId: Id, stepId: Id, operationId: Id, evidenceId: Option<Id>)
    requires Inv(db) && RecordEffect(db, taskId, stepId, operationId, evidenceId).Some?
    ensures Inv(RecordEffect(db, taskId, stepId, operationId, evidenceId).value)
  {
    var after := RecordEffect(db, taskId, stepId, operationId, evidenceId).value;
    hide Answers;
    forall id | id in after.tasks && after.tasks[id].status.Completed? ensures ProperlyCompleted(after, id) {
      assert ProperlyCompleted(db, id);
      assert id != taskId;
      forall k | k in after.receipts && k.taskId == id && !k.confirmed ensures k.(confirmed := true) in after.receipts {
        assert k in db.receipts;
      }
    }
    forall k | k in after.events && after.events[k].request.OfWrite? ensures Stored(after, k, after.events[k].request.write) {
      assert Stored(db, k, db.events[k].request.write);
    }
  }

  lemma RecordKeepsInv(db: Db, taskId: Id, key: string, event: Event, evidence: Evidence)
    requires Inv(db) && RecordTx(db, taskId, key, event, evidence).Some?
    ensures Inv(RecordTx(db, taskId, key, event, evidence).value)
  {
    var after := RecordTx(db, taskId, key, event, evidence).value;
    hide EventIdTaken, Resolved, Answers;
    forall id | id in after.tasks && after.tasks[id].status.Completed? ensures ProperlyCompleted(after, id) {
      assert ProperlyCompleted(db, id);
    }
    forall k | k in after.events && after.events[k].request.OfWrite? ensures Stored(after, k, after.events[k].request.write) {
      assert k in db.events && after.events[k] == db.events[k];
      assert Stored(db, k, db.events[k].request.write);
    }
  }

  lemma StepKeepsInv(checks: Checks, db: Db, a: Action)
    requires Inv(db)
    ensures Inv(After(checks, db, a))
  {
    hide WriteTx, VerifyTx, RecordEffect, RecordTx, KeyedRows, CompletedInv, TerminalInv, StoredInv;
    match a {
      case Do(w) =>
        WriteKeepsCompleted(checks, db, w);
        WriteKeepsStored(checks, db, w);
        WriteKeepsRest(checks, db, w);
      case Effect(taskId, stepId, operationId, evidenceId) =>
        if RecordEffect(db, taskId, stepId, operationId, evidenceId).Some? {
          EffectKeepsInv(db, taskId, stepId, operationId, evidenceId);
        }
      case Verify(taskId, report, audit) =>
        if CitesOwn(db, taskId, report) && VerifyTx(db, taskId, report, audit).Some? {
          VerifyKeepsCompleted(db, taskId, report, audit);
          VerifyKeepsRest(db, taskId, report, audit);
        }
      case Record(taskId, key, event, evidence) =>
        if RecordTx(db, taskId, key, event, evidence).Some? {
          RecordKeepsInv(db, taskId, key, event, evidence);
        }
    }
  }

  lemma EmptyInv()
    ensures Inv(EMPTY)
  {
  }

  lemma {:induction false} RunKeepsInv(checks: Checks, trace: seq<Action>)
    ensures Inv(Run(checks, trace))
  {
    hide Inv, After;
    if trace == [] {
      EmptyInv();
    } else {
      RunKeepsInv(checks, trace[..|trace| - 1]);
      StepKeepsInv(checks, Run(checks, trace[..|trace| - 1]), trace[|trace| - 1]);
    }
  }

  /** Every completed task in every run, whichever path completed it. */
  lemma CompletedTasksAreProper(checks: Checks, trace: seq<Action>, id: Id)
    requires id in Run(checks, trace).tasks && Run(checks, trace).tasks[id].status.Completed?
    ensures ProperlyCompleted(Run(checks, trace), id)
  {
    hide Run, ProperlyCompleted;
    RunKeepsInv(checks, trace);
  }

  // ---- retries ----

  lemma {:induction false} EventsStay(checks: Checks, trace: seq<Action>, i: nat, j: nat, k: EventKey)
    requires i <= j <= |trace| && k in At(checks, trace, i).events
    ensures k in At(checks, trace, j).events && At(checks, trace, j).events[k] == At(checks, trace, i).events[k]
    decreases j
  {
    hide At, After, Moves;
    if i < j {
      EventsStay(checks, trace, i, j - 1, k);
      AtNext(checks, trace, j - 1);
      StepMoves(checks, At(checks, trace, j - 1), trace[j - 1], k.taskId);
    }
  }

  function ResultAt(checks: Checks, trace: seq<Action>, i: nat): WriteResult
    requires i < |trace| && trace[i].Do?
  {
    WriteTx(checks, At(checks, trace, i), trace[i].w).result
  }

  lemma SettledWrite(checks: Checks, db: Db, w: Write)
    requires !WriteTx(checks, db, w).result.Refused?
    ensures var after := WriteTx(checks, db, w).db;
            EventKey(w.task.id, w.key) in after.events && after.events[EventKey(w.task.id, w.key)].request == OfWrite(w)
  {
    hide WellFormed, TaskRefusal, RowsCollide, UpsertSteps;
  }

  lemma RepeatedWrite(checks: Checks, db: Db, w: Write, again: Write)
    requires WellFormed(again) && again.task.id == w.task.id && again.key == w.key
    requires EventKey(w.task.id, w.key) in db.events && db.events[EventKey(w.task.id, w.key)].request == OfWrite(w)
    ensures WriteTx(checks, db, again) == Written(db, if again == w then Replayed else Refused(KeyReused))
  {
    hide WellFormed, TaskRefusal, RowsCollide, UpsertSteps;
  }

  /** A write that succeeded once succeeds for ever after and changes nothing; its key used for
      anything else fails and changes nothing. */
  lemma CommittedWriteIsSettled(checks: Checks, trace: seq<Action>, i: nat, j: nat, again: Write)
    requires i < j <= |trace| && trace[i].Do? && !ResultAt(checks, trace, i).Refused?
    requires WellFormed(again) && again.task.id == trace[i].w.task.id && again.key == trace[i].w.key
    ensures WriteTx(checks, At(checks, trace, j), again)
         == Written(At(checks, trace, j), if again == trace[i].w then Replayed else Refused(KeyReused))
  {
    var w := trace[i].w;
    SettledWrite(checks, At(checks, trace, i), w);
    AtNext(checks, trace, i);
    hide At, WriteTx, WellFormed;
    EventsStay(checks, trace, i + 1, j, EventKey(w.task.id, w.key));
    RepeatedWrite(checks, At(checks, trace, j), w, again);
  }

  predicate IsReplay(checks: Checks, db: Db, a: Action) {
    a.Do? && WriteTx(checks, db, a.w).result.Replayed?
  }

  /** The run with every replayed write left out. */
  function ExactlyOnce(checks: Checks, trace: seq<Action>): seq<Action> {
    if trace == [] then []
    else
      var init, last := trace[..|trace| - 1], trace[|trace| - 1];
      ExactlyOnce(checks, init) + if IsReplay(checks, Run(checks, init), last) then [] else [last]
  }

  lemma ReplayChangesNothing(checks: Checks, db: Db, a: Action)
    requires IsReplay(checks, db, a)
    ensures After(checks, db, a) == db
  {
    RefusedChangesNothing(checks, db, a.w);
    hide WriteTx;
  }

  /** At-least-once delivery of writes refines exactly-once: leaving out every retry gives the same
      database, and in what is left nothing is a retry. */
  lemma {:induction false} RetriesChangeNothing(checks: Checks, trace: seq<Action>)
    ensures Run(checks, ExactlyOnce(checks, trace)) == Run(checks, trace)
    ensures forall i | 0 <= i < |ExactlyOnce(checks, trace)| ::
              !IsReplay(checks, At(checks, ExactlyOnce(checks, trace), i), ExactlyOnce(checks, trace)[i])
  {
    hide After, IsReplay;
    if trace != [] {
      var init, last := trace[..|trace| - 1], trace[|trace| - 1];
      RetriesChangeNothing(checks, init);
      var kept := ExactlyOnce(checks, init);
      if IsReplay(checks, Run(checks, init), last) {
        ReplayChangesNothing(checks, Run(checks, init), last);
        assert ExactlyOnce(checks, trace) == kept;
      } else {
        var all := kept + [last];
        assert all[..|kept|] == kept;
        forall i | 0 <= i < |all| ensures !IsReplay(checks, At(checks, all, i), all[i]) {
          if i < |kept| { assert all[..i] == kept[..i]; }
        }
      }
    }
  }

  // ---- one outcome per task ----

  /** Once readable, a task's outcome never changes. */
  lemma OutcomeStaysPut(checks: Checks, db: Db, a: Action, id: Id)
    requires Inv(db) && ReadOutcome(db, id).Some?
    ensures ReadOutcome(After(checks, db, a), id) == ReadOutcome(db, id)
  {
    StepMoves(checks, db, a, id);
    if id !in db.outcomes { NoOutcomeAfterTerminal(checks, db, a, id); }
    hide After, KeyedRows, CompletedInv, StoredInv;
  }

  lemma NoOutcomeAfterTerminal(checks: Checks, db: Db, a: Action, id: Id)
    requires Inv(db) && id in db.terminal && id !in db.outcomes
    ensures id !in After(checks, db, a).outcomes
  {
    hide KeyedRows, CompletedInv, StoredInv, CompletionRefusal, UpsertSteps, EventIdTaken, Resolved;
    if a.Do? && WriteTx(checks, db, a.w).result.Committed? {
      CommittedTask(checks, db, a.w);
    }
  }

  lemma {:induction false} OutcomeIsFinal(checks: Checks, trace: seq<Action>, i: nat, j: nat, id: Id)
    requires i <= j <= |trace| && ReadOutcome(At(checks, trace, i), id).Some?
    ensures ReadOutcome(At(checks, trace, j), id) == ReadOutcome(At(checks, trace, i), id)
    decreases j
  {
    hide At, After, Inv, ReadOutcome;
    if i < j {
      OutcomeIsFinal(checks, trace, i, j - 1, id);
      AtNext(checks, trace, j - 1);
      AtInv(checks, trace, j - 1);
      OutcomeStaysPut(checks, At(checks, trace, j - 1), trace[j - 1], id);
    }
  }

  lemma AtInv(checks: Checks, trace: seq<Action>, i: nat)
    requires i <= |trace|
    ensures Inv(At(checks, trace, i))
  {
    hide Inv, Run;
    RunKeepsInv(checks, trace[..i]);
  }

  /** Some call that finishes task `id` could return `o` after step `i`: it read `o`, or its write of
      `o` committed or was found committed. Crashes before that leave no other trace. */
  ghost predicate Returns(checks: Checks, trace: seq<Action>, i: nat, id: Id, o: Outcome)
    requires i < |trace|
  {
    || ReadOutcome(At(checks, trace, i), id) == Some(o)
    || (trace[i].Do? && trace[i].w.task.id == id && trace[i].w.outcome == Some(o) && !ResultAt(checks, trace, i).Refused?)
  }

  lemma WrittenOutcomeIsRead(checks: Checks, db: Db, w: Write)
    requires Inv(db) && w.outcome.Some? && !WriteTx(checks, db, w).result.Refused?
    ensures ReadOutcome(WriteTx(checks, db, w).db, w.task.id) == w.outcome
  {
    hide KeyedRows, CompletedInv, TerminalInv, TaskRefusal, RowsCollide, UpsertSteps, WellFormed;
    var k := EventKey(w.task.id, w.key);
    if k in db.events {
      assert Stored(db, k, w);
    }
  }

  /** Every call of `finish` on one task that ever returns, returns the same stored outcome. */
  lemma EveryReturnAgrees(checks: Checks, trace: seq<Action>, i: nat, j: nat, id: Id, o: Outcome, p: Outcome)
    requires i < |trace| && j < |trace|
    requires Returns(checks, trace, i, id, o) && Returns(checks, trace, j, id, p)
    ensures o == p && ReadOutcome(Run(checks, trace), id) == Some(o)
  {
    ReturnedIsStored(checks, trace, i, id, o);
    ReturnedIsStored(checks, trace, j, id, p);
    assert trace[..|trace|] == trace;
    hide Returns, ReadOutcome;
    OutcomeIsFinal(checks, trace, i + 1, |trace|, id);
    OutcomeIsFinal(checks, trace, j + 1, |trace|, id);
  }

  lemma ReturnedIsStored(checks: Checks, trace: seq<Action>, i: nat, id: Id, o: Outcome)
    requires i < |trace| && Returns(checks, trace, i, id, o)
    ensures ReadOutcome(At(checks, trace, i + 1), id) == Some(o)
  {
    AtInv(checks, trace, i);
    AtNext(checks, trace, i);
    hide At, Inv, WriteTx, ReadOutcome;
    if ReadOutcome(At(checks, trace, i), id) == Some(o) {
      OutcomeStaysPut(checks, At(checks, trace, i), trace[i], id);
    } else {
      WrittenOutcomeIsRead(checks, At(checks, trace, i), trace[i].w);
    }
  }

  /** `finish` run without interference is such a call: what it returns is what is stored. */
  lemma FinishReturnsStored(checks: Checks, db: Db, w: Write)
    requires Inv(db) && FinishTx(checks, db, w).result.Returned?
    ensures ReadOutcome(FinishTx(checks, db, w).db, w.task.id) == Some(FinishTx(checks, db, w).result.outcome)
    ensures Inv(FinishTx(checks, db, w).db)
  {
    hide Inv, WriteTx, ReadOutcome;
    if ReadOutcome(db, w.task.id).None? {
      if WriteTx(checks, db, w).result == Refused(VerificationFailed) {
        RefusedChangesNothing(checks, db, w);
        WrittenOutcomeIsRead(checks, db, FailedWrite(w));
        StepKeepsInv(checks, db, Do(FailedWrite(w)));
      } else {
        WrittenOutcomeIsRead(checks, db, w);
        StepKeepsInv(checks, db, Do(w));
      }
    }
  }
}
