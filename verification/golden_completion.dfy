/** Every golden run that reaches VERIFYING passes its independent verification. */
module GoldenCompletion {
  import opened Options
  import opened Lifecycle
  import opened Text
  import opened Golden
  import opened GoldenVerifier
  import opened GoldenStores
  import opened GoldenWorkflow
  import opened GoldenSafety

  // ---- the receipt ----

  predicate PastReceipt(s: Stage) {
    s.CompletingStep? || s.EnteringVerification? || s.StampingVerdict? || s.Finishing?
  }

  function ReceiptOf(job: Job, r: CapabilityResult, at: Time): Evidence {
    Evidence(job.receiptId, job.task.id, job.stepId, false, at,
             ReceiptFact(UPPERCASE, job.runId, r.requestDigest, r.outputDigest, r.descriptorDigest, r))
  }

  function RunRow(job: Job, r: CapabilityResult): CapabilityRun {
    CapabilityRun(job.runId, job.task.id, job.stepId, RECIPE_KEY, r.requestDigest, r, job.receiptId, UPPERCASE_DESCRIPTOR)
  }

  ghost predicate ReceiptInv(job: Job, w: World) {
    && (PastReceipt(w.journal.stage) ==> w.rows.run.Some?)
    && (w.rows.run.Some? ==> KCapability in w.rows.keys)
    && (w.rows.run.Some? ==>
          && w.journal.result.Some? && w.journal.recordedAt.Some?
          && w.rows.run.value == RunRow(job, w.journal.result.value)
          && FindEvidence(w.rows.evidence, job.receiptId) == Some(ReceiptOf(job, w.journal.result.value, w.journal.recordedAt.value)))
  }

  /** Evidence only ever grows by one row at a time. */
  predicate Appends(before: seq<Evidence>, after: seq<Evidence>) {
    after == before || (after != [] && after == before + [after[|after| - 1]])
  }

  lemma FoundOnceAppended(before: seq<Evidence>, after: seq<Evidence>, id: Id)
    requires Appends(before, after) && FindEvidence(before, id).Some?
    ensures FindEvidence(after, id) == FindEvidence(before, id)
  {
    if after != before { FoundStays(before, after[|after| - 1], id); }
  }

  lemma ReceiptStays(job: Job, before: World, after: World)
    requires ReceiptInv(job, before)
    requires after.rows.run == before.rows.run && before.rows.keys <= after.rows.keys
    requires Appends(before.rows.evidence, after.rows.evidence)
    requires PastReceipt(after.journal.stage) ==> PastReceipt(before.journal.stage) || before.rows.run.Some?
    requires before.rows.run.Some? ==> after.journal.result == before.journal.result && after.journal.recordedAt == before.journal.recordedAt
    ensures ReceiptInv(job, after)
  {
    if before.rows.run.Some? {
      FoundOnceAppended(before.rows.evidence, after.rows.evidence, job.receiptId);
    }
    hide FindEvidence, ReceiptOf, RunRow;
  }

  lemma CallAppends(config: Config, rows: Rows, call: Call, evidenceId: Id, now: Time)
    requires FinishApproval(config, rows, call, evidenceId, now).Some?
    ensures var after := FinishApproval(config, rows, call, evidenceId, now).value.0;
            && Appends(rows.evidence, after.evidence)
            && (after.evidence != rows.evidence ==> after.evidence[|after.evidence| - 1].capturedAt == now)
  {
    hide FindEvidence, Entitled;
  }

  lemma ReceivingGivesReceipt(config: Config, job: Job, w: World, rows: Rows)
    requires ValidRules(config.rules) && Inv(config, job, w) && ReceiptInv(job, w)
    requires w.journal.stage.Receiving? && w.journal.result.Some? && w.journal.recordedAt.Some?
    requires RecordReceipt(config, w.rows, RequestOf(job), w.journal.result.value, job.receiptId, w.journal.recordedAt.value) == Some(rows)
    ensures ReceiptInv(job, World(rows, w.journal)) && rows.run.Some?
    ensures Appends(w.rows.evidence, rows.evidence)
    ensures rows.evidence != w.rows.evidence ==> rows.evidence[|rows.evidence| - 1].capturedAt == w.journal.recordedAt.value
  {
    if rows != w.rows {
      FoundStays(w.rows.evidence, ReceiptOf(job, w.journal.result.value, w.journal.recordedAt.value), job.receiptId);
    }
    RunningStanding(config, job, w);
    hide FindEvidence, RegistryVerifies, PolicyInv, ApprovalCoherent, LedgerInv, GrantInv, JournalInv, ValidRules;
  }

  lemma RunningStanding(config: Config, job: Job, w: World)
    requires ValidRules(config.rules) && Inv(config, job, w) && w.journal.stage.Receiving?
    ensures w.rows.task == Some(TaskIn(job, Running)) && w.rows.step == Some(StepIn(job, Running, None))
  {
    hide PolicyInv, ApprovalCoherent, GrantInv, Allowed, ValidRules;
  }

  // ---- one clock ----

  ghost predicate TimeInv(job: Job, w: World, clock: Time) {
    && job.task.createdAt <= clock
    && EvidenceTimely(w.rows.evidence, job.task.createdAt, clock)
    && (w.journal.recordedAt.Some? ==> job.task.createdAt <= w.journal.recordedAt.value <= clock)
    && (w.journal.stage.Finishing? && w.journal.verifiedAt.Some? ==> EvidenceTimely(w.rows.evidence, job.task.createdAt, w.journal.verifiedAt.value))
  }

  function TimeOf(a: Action): Time {
    a.now
  }

  lemma TimelyAppend(before: seq<Evidence>, after: seq<Evidence>, from: Time, clock: Time, at: Time)
    requires EvidenceTimely(before, from, clock) && Appends(before, after) && from <= at && clock <= at
    requires after != before ==> from <= after[|after| - 1].capturedAt <= at
    ensures EvidenceTimely(after, from, at)
  {
    if after != before {
      forall e | e in after ensures from <= e.capturedAt <= at {
        assert e in before || e == after[|after| - 1];
      }
    }
  }

  /** What one transaction does to the evidence, the run and the keys. */
  lemma EffectAppends(config: Config, job: Job, w: World, clock: Time, now: Time, evidenceId: Id)
    requires ValidRules(config.rules) && Inv(config, job, w) && ReceiptInv(job, w) && TimeInv(job, w, clock) && clock <= now
    requires Effect(config, job, w, now, evidenceId).Some?
    ensures var rows := Effect(config, job, w, now, evidenceId).value;
            && Appends(w.rows.evidence, rows.evidence)
            && (rows.evidence != w.rows.evidence ==> job.task.createdAt <= rows.evidence[|rows.evidence| - 1].capturedAt <= now)
            && (w.journal.stage.Finishing? ==> rows.evidence == w.rows.evidence)
            && ReceiptInv(job, World(rows, w.journal))
            && (w.journal.stage.Receiving? ==> rows.run.Some?)
  {
    hide Inv, EmissionOf, Emit, RecordPolicy, FinishApproval, RecordReceipt, FinishTask, TaskIn, RequestOf, ReceiptInv, EvidenceTimely;
    var rows := Effect(config, job, w, now, evidenceId).value;
    if EmissionOf(job, w.journal).Some? {
      var e := EmissionOf(job, w.journal).value;
      EmitFrame(w.rows, e.key, TaskIn(job, e.status), e.step);
      ReceiptStays(job, w, World(rows, w.journal));
      NoEmissionAtStores(job, w.journal);
    } else if w.journal.stage.Recording? {
      RecordFrame(config, w.rows, w.journal.evaluation.value, RequestOf(job), job.task.id);
      ReceiptStays(job, w, World(rows, w.journal));
    } else if w.journal.stage.Resolving? {
      CallFrame(config, w.rows, Expire, evidenceId, now);
      CallAppends(config, w.rows, Expire, evidenceId, now);
      ReceiptStays(job, w, World(rows, w.journal));
    } else if w.journal.stage.Receiving? {
      ReceivingGivesReceipt(config, job, w, rows);
    } else if w.journal.stage.Finishing? {
      FinishFrame(config, w.rows, w.journal.verifiedAt.value);
      ReceiptStays(job, w, World(rows, w.journal));
    }
  }

  lemma NoEmissionAtStores(job: Job, j: Journal)
    ensures j.stage.Receiving? || j.stage.Finishing? ==> EmissionOf(job, j).None?
  {
  }

  lemma PastReceiptFollows(a: Stage, b: Stage)
    requires Follows(a, b)
    ensures PastReceipt(b) ==> PastReceipt(a) || a.Receiving?
    ensures a.Executing? || a.StampingReceipt? ==> !PastReceipt(a) && !HasResult(a)
  {
  }

  ghost predicate Whole(config: Config, job: Job, w: World, clock: Time)
    requires ValidRules(config.rules)
  {
    Inv(config, job, w) && ReceiptInv(job, w) && TimeInv(job, w, clock)
  }

  /** No run row yet while its result is still to be journaled. */
  lemma NoRunEarly(config: Config, job: Job, w: World)
    requires ValidRules(config.rules) && Inv(config, job, w) && ReceiptInv(job, w)
    ensures w.journal.stage.Executing? || w.journal.stage.StampingReceipt? ==> w.rows.run.None?
  {
    hide PolicyInv, ApprovalCoherent, GrantInv, Now, ValidRules, FindEvidence;
  }

  lemma AdvanceKeepsWhole(config: Config, job: Job, w: World, clock: Time, now: Time, evidenceId: Id)
    requires ValidRules(config.rules) && Whole(config, job, w, clock) && clock <= now
    requires Effect(config, job, w, now, evidenceId).Some?
    ensures Whole(config, job, World(Effect(config, job, w, now, evidenceId).value, Journaled(config, job, w, now, evidenceId)), now)
  {
    var rows, j := Effect(config, job, w, now, evidenceId).value, Journaled(config, job, w, now, evidenceId);
    AdvanceKeepsInv(config, job, w, now, evidenceId);
    EffectAppends(config, job, w, clock, now, evidenceId);
    JournaledFollows(config, job, w, now, evidenceId);
    TimesStay(config, job, w, now, evidenceId);
    NoRunEarly(config, job, w);
    TimelyAppend(w.rows.evidence, rows.evidence, job.task.createdAt, clock, now);
    if Follows(w.journal.stage, j.stage) {
      PastReceiptFollows(w.journal.stage, j.stage);
      StageOrder(w.journal.stage, j.stage);
    }
    RunStays(config, job, w, now, evidenceId);
    hide Effect, Journaled, Inv, Follows, EvidenceTimely, HasResult, PastReceipt, ValidRules, FindEvidence;
    ReceiptStays(job, World(rows, w.journal), World(rows, j));
  }

  /** The stages before the receipt write no run row. */
  lemma RunStays(config: Config, job: Job, w: World, now: Time, evidenceId: Id)
    requires ValidRules(config.rules) && Effect(config, job, w, now, evidenceId).Some?
    ensures !w.journal.stage.Receiving? ==> Effect(config, job, w, now, evidenceId).value.run == w.rows.run
  {
    hide EmissionOf, TaskIn, RequestOf, FindEvidence, RecordReceipt, ReportOf, Entitled, MatchesStep, ValidRules, Stored;
  }

  lemma CrashKeepsWhole(config: Config, job: Job, w: World, clock: Time, now: Time, evidenceId: Id)
    requires ValidRules(config.rules) && Whole(config, job, w, clock) && clock <= now
    requires Effect(config, job, w, now, evidenceId).Some?
    ensures Whole(config, job, w.(rows := Effect(config, job, w, now, evidenceId).value), now)
  {
    var rows := Effect(config, job, w, now, evidenceId).value;
    EffectKeepsInv(config, job, w, now, evidenceId);
    EffectAppends(config, job, w, clock, now, evidenceId);
    TimelyAppend(w.rows.evidence, rows.evidence, job.task.createdAt, clock, now);
    hide Effect, Inv, ReceiptInv, EvidenceTimely, ValidRules;
  }

  /** Past the gate no approval is pending, so no call adds evidence any more. */
  lemma NothingPendingAtTheEnd(config: Config, job: Job, w: World, call: Call, evidenceId: Id, now: Time)
    requires ValidRules(config.rules) && Inv(config, job, w) && w.journal.stage.Finishing?
    requires FinishApproval(config, w.rows, call, evidenceId, now).Some?
    ensures FinishApproval(config, w.rows, call, evidenceId, now).value.0 == w.rows
  {
    CallFrame(config, w.rows, call, evidenceId, now);
    hide FinishApproval, LedgerInv, JournalInv, ValidRules, OwnEvaluation, RowCoherent, RecordOf;
  }

  lemma CallKeepsWhole(config: Config, job: Job, w: World, clock: Time, call: Call, now: Time, evidenceId: Id)
    requires ValidRules(config.rules) && Whole(config, job, w, clock) && clock <= now
    requires FinishApproval(config, w.rows, call, evidenceId, now).Some?
    ensures Whole(config, job, w.(rows := FinishApproval(config, w.rows, call, evidenceId, now).value.0), now)
  {
    var rows := FinishApproval(config, w.rows, call, evidenceId, now).value.0;
    CallKeepsInv(config, job, w, call, now, evidenceId);
    CallFrame(config, w.rows, call, evidenceId, now);
    CallAppends(config, w.rows, call, evidenceId, now);
    TimelyAppend(w.rows.evidence, rows.evidence, job.task.createdAt, clock, now);
    ReceiptStays(job, w, World(rows, w.journal));
    if w.journal.stage.Finishing? { NothingPendingAtTheEnd(config, job, w, call, evidenceId, now); }
    hide FinishApproval, Inv, ReceiptInv, EvidenceTimely, ValidRules;
  }

  lemma IdleKeepsWhole(config: Config, job: Job, w: World, clock: Time, now: Time)
    requires ValidRules(config.rules) && Whole(config, job, w, clock) && clock <= now
    ensures Whole(config, job, w, now)
  {
    TimelyAppend(w.rows.evidence, w.rows.evidence, job.task.createdAt, clock, now);
    hide Inv, ReceiptInv, EvidenceTimely, ValidRules;
  }

  lemma StopKeepsWhole(config: Config, job: Job, w: World, clock: Time, now: Time)
    requires ValidRules(config.rules) && Whole(config, job, w, clock) && clock <= now && w.journal.stage.Recording?
    ensures Whole(config, job, w.(journal := w.journal.(stage := Stopped)), now)
  {
    StoppingKeepsInv(config, job, w);
    TimelyAppend(w.rows.evidence, w.rows.evidence, job.task.createdAt, clock, now);
    hide Inv, EvidenceTimely, ValidRules, FindEvidence;
  }

  lemma NextKeepsWhole(config: Config, job: Job, w: World, clock: Time, a: Action)
    requires ValidRules(config.rules) && Whole(config, job, w, clock) && clock <= a.now
    ensures Whole(config, job, Next(config, job, w, a), a.now)
  {
    IdleKeepsWhole(config, job, w, clock, a.now);
    hide Whole, Effect, Journaled, FinishApproval;
    match a {
      case Advance(now, evidenceId) =>
        if Effect(config, job, w, now, evidenceId).Some? {
          AdvanceKeepsWhole(config, job, w, clock, now, evidenceId);
        } else if w.journal.stage.Recording? {
          StopKeepsWhole(config, job, w, clock, now);
        }
      case Crashed(now, evidenceId) =>
        if Effect(config, job, w, now, evidenceId).Some? {
          CrashKeepsWhole(config, job, w, clock, now, evidenceId);
        }
      case Outside(call, now, evidenceId) =>
        if FinishApproval(config, w.rows, call, evidenceId, now).Some? {
          CallKeepsWhole(config, job, w, clock, call, now, evidenceId);
        }
    }
  }

  /** One clock for everyone, not behind the task's receipt when the run starts. */
  ghost predicate Ordered(job: Job, trace: seq<Action>) {
    && (forall i, j | 0 <= i <= j < |trace| :: trace[i].now <= trace[j].now)
    && (trace != [] ==> job.task.createdAt <= trace[0].now)
  }

  function ClockOf(job: Job, trace: seq<Action>): Time {
    if trace == [] then job.task.createdAt else trace[|trace| - 1].now
  }

  lemma OpeningWhole(config: Config, job: Job, version: Option<Descriptor>)
    requires ValidRules(config.rules)
    ensures Whole(config, job, Opening(version), job.task.createdAt)
  {
    OpeningInv(config, job, version);
    hide Inv, ValidRules;
  }

  lemma {:induction false} RunKeepsWhole(config: Config, job: Job, version: Option<Descriptor>, trace: seq<Action>)
    requires ValidRules(config.rules) && Ordered(job, trace)
    ensures Whole(config, job, Run(config, job, version, trace), ClockOf(job, trace))
  {
    hide Whole, Next, Opening, ValidRules;
    if trace == [] {
      OpeningWhole(config, job, version);
    } else {
      var init := trace[..|trace| - 1];
      RunKeepsWhole(config, job, version, init);
      NextKeepsWhole(config, job, Run(config, job, version, init), ClockOf(job, init), trace[|trace| - 1]);
    }
  }

  // ---- the verdict ----

  lemma BundleAtFinish(config: Config, job: Job, w: World)
    requires ValidRules(config.rules) && Inv(config, job, w) && ReceiptInv(job, w)
    requires w.journal.stage.Finishing? && w.rows.outcome.None?
    ensures w.rows.task == Some(TaskIn(job, Verifying))
    ensures w.journal.result.Some? && w.rows.step == Some(StepIn(job, TaskStatus.Completed, Some(w.journal.result.value.output)))
    ensures w.journal.evaluation.Some? && w.rows.policy == Some(RecordOf(job, w.journal.evaluation.value))
    ensures OwnEvaluation(config, job, w.journal.evaluation.value) && !w.journal.evaluation.value.decision.Deny?
    ensures w.rows.run == Some(RunRow(job, w.journal.result.value))
    ensures w.journal.result == Execute(config.upper, RequestOf(job))
  {
    StandingAtFinish(config, job, w);
    hide OwnEvaluation, RecordOf, LedgerInv, ApprovalCoherent, FindEvidence, Execute, RequestOf, StepIn, TaskIn, ValidRules;
  }

  lemma StandingAtFinish(config: Config, job: Job, w: World)
    requires ValidRules(config.rules) && Inv(config, job, w) && w.journal.stage.Finishing? && w.rows.outcome.None?
    ensures w.rows.task == Some(TaskIn(job, Verifying))
    ensures w.journal.result.Some? && w.rows.step == Some(StepIn(job, TaskStatus.Completed, Some(w.journal.result.value.output)))
  {
    hide PolicyInv, ApprovalCoherent, GrantInv, Execute, RequestOf, ValidRules, Allowed;
  }

  lemma ApprovalHolds(config: Config, job: Job, w: World, b: Bundle)
    requires ValidRules(config.rules) && Inv(config, job, w) && HasGrant(w.rows)
    requires w.rows.policy.Some? && w.rows.step.Some? && w.rows.step.value.id == job.stepId
    requires b.policies == [w.rows.policy.value] && b.approvals == [w.rows.approval.value] && b.evidence == w.rows.evidence
    requires b.steps == [w.rows.step.value] && b.task.id == job.task.id
    ensures ApprovalOk(b)
  {
    hide LedgerInv, JournalInv, OwnEvaluation, ValidRules, FindEvidence;
  }

  lemma VerdictPasses(config: Config, job: Job, w: World, clock: Time)
    requires ValidRules(config.rules) && ValidJob(job) && Whole(config, job, w, clock)
    requires w.journal.stage.Finishing? && w.rows.outcome.None?
    ensures w.journal.verifiedAt.Some? && w.rows.task.Some? && w.rows.task.value.criteria == [CRITERION]
    ensures w.rows.task.value.status.Verifying?
    ensures var report := ReportOf(BundleOf(w.rows), config.upper, w.journal.verifiedAt.value);
            report.passed && report.evidenceRefs != []
  {
    BundleAtFinish(config, job, w);
    var e, r := w.journal.evaluation.value, w.journal.result.value;
    EvaluationShape(config, job, e);
    var b := BundleOf(w.rows);
    if e.decision.NeedsApproval? {
      GateWasPassed(config, job, w);
      ApprovalHolds(config, job, w, b);
    }
    FoundReceipt(job, w);
    hide Inv, FindEvidence, ApprovalOk, EvidenceTimely, EvaluatePolicy, OwnEvaluation, ValidRules, Computed;
    PassesWhenAllHold(b, config.upper, w.journal.verifiedAt.value);
  }

  lemma GateWasPassed(config: Config, job: Job, w: World)
    requires ValidRules(config.rules) && Inv(config, job, w) && w.journal.stage.Finishing?
    requires w.journal.evaluation.Some? && w.journal.evaluation.value.decision.NeedsApproval?
    ensures HasGrant(w.rows)
  {
    hide LedgerInv, PolicyInv, ApprovalCoherent, JournalInv, ValidRules;
  }

  lemma FoundReceipt(job: Job, w: World)
    requires ReceiptInv(job, w) && w.rows.run.Some?
    ensures w.journal.result.Some? && w.journal.recordedAt.Some?
    ensures FindEvidence(w.rows.evidence, job.receiptId) == Some(ReceiptOf(job, w.journal.result.value, w.journal.recordedAt.value))
  {
  }
}
