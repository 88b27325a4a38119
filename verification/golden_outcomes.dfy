/** Where golden runs end: verified tasks complete, and a grant is what the approver gave. */
module GoldenOutcomes {
  import opened Options
  import opened Lifecycle
  import opened Text
  import opened Golden
  import opened GoldenVerifier
  import opened GoldenStores
  import opened GoldenWorkflow
  import opened GoldenSafety
  import opened GoldenCompletion

  // ---- reaching VERIFYING means completing ----

  /** The outcome a golden task ends with, if it reaches verification. */
  predicate Completes(config: Config, job: Job, o: Outcome) {
    && o.status.Completed? && o.taskId == job.task.id
    && o.summary == Trim(Computed(config.upper, job.task.objective))
    && |o.acceptanceResults| == 1 && o.acceptanceResults[0].criterion == CRITERION && o.acceptanceResults[0].passed
  }

  /** A settled task has its outcome, and it is a completion. */
  predicate SettledInv(config: Config, job: Job, w: World) {
    && (KFinal in w.rows.keys <==> w.rows.outcome.Some?)
    && (w.rows.outcome.Some? ==> Completes(config, job, w.rows.outcome.value))
    && (w.journal.outcome.Some? ==> w.journal.outcome == w.rows.outcome)
  }

  lemma OneResult(config: Config, t: Task, report: Report)
    requires report.passed && report.evidenceRefs != [] && t.criteria == [CRITERION]
    ensures ValidOutcome(OutcomeOf(t, report, config.upper))
    ensures var o := OutcomeOf(t, report, config.upper);
            o.status.Completed? && |o.acceptanceResults| == 1 && o.acceptanceResults[0] == AcceptanceResult(CRITERION, true, report.evidenceRefs)
  {
    hide Computed;
  }

  lemma FinishCompletes(config: Config, job: Job, w: World, clock: Time)
    requires ValidRules(config.rules) && ValidJob(job) && Whole(config, job, w, clock) && SettledInv(config, job, w)
    requires w.journal.stage.Finishing?
    ensures w.journal.verifiedAt.Some? && FinishTask(config, w.rows, w.journal.verifiedAt.value).Some?
    ensures Completes(config, job, FinishTask(config, w.rows, w.journal.verifiedAt.value).value.1)
  {
    StampedAtFinish(config, job, w);
    if w.rows.outcome.None? {
      VerdictPasses(config, job, w, clock);
      BundleAtFinish(config, job, w);
      hide Whole, Inv, ReceiptInv, FinishTask, ReportOf, BundleOf, Completes, OwnEvaluation, RecordOf, RunRow, RequestOf, ValidRules, ValidJob;
      PassedFinishes(config, job, w.rows, w.journal.verifiedAt.value);
    } else {
      hide Whole, ReportOf, BundleOf, Completes, ValidRules, ValidJob;
    }
  }

  lemma PassedFinishes(config: Config, job: Job, rows: Rows, at: Time)
    requires rows.outcome.None? && KFinal !in rows.keys
    requires rows.task == Some(TaskIn(job, Verifying)) && rows.task.value.criteria == [CRITERION]
    requires ReportOf(BundleOf(rows), config.upper, at).passed && ReportOf(BundleOf(rows), config.upper, at).evidenceRefs != []
    ensures FinishTask(config, rows, at).Some? && Completes(config, job, FinishTask(config, rows, at).value.1)
  {
    hide ReportOf, BundleOf, Computed, ValidOutcome, Met, Trim;
    OneResult(config, rows.task.value, ReportOf(BundleOf(rows), config.upper, at));
  }

  lemma StampedAtFinish(config: Config, job: Job, w: World)
    requires ValidRules(config.rules) && Inv(config, job, w) && w.journal.stage.Finishing?
    ensures w.journal.verifiedAt.Some?
  {
    hide SafetyInv, ValidRules;
  }

  /** Only the last stage touches the outcome. */
  lemma EffectKeepsSettled(config: Config, job: Job, w: World, clock: Time, now: Time, evidenceId: Id)
    requires ValidRules(config.rules) && ValidJob(job) && Whole(config, job, w, clock) && SettledInv(config, job, w)
    requires Effect(config, job, w, now, evidenceId).Some?
    ensures SettledInv(config, job, w.(rows := Effect(config, job, w, now, evidenceId).value))
  {
    hide Whole, EmissionOf, Emit, RecordPolicy, FinishApproval, RecordReceipt, FinishTask, TaskIn, RequestOf, Completes, ValidRules, ValidJob;
    var rows := Effect(config, job, w, now, evidenceId).value;
    if EmissionOf(job, w.journal).Some? {
      var e := EmissionOf(job, w.journal).value;
      EmitFrame(w.rows, e.key, TaskIn(job, e.status), e.step);
      NoEmissionOfFinal(job, w.journal);
    } else if w.journal.stage.Recording? {
      RecordFrame(config, w.rows, w.journal.evaluation.value, RequestOf(job), job.task.id);
    } else if w.journal.stage.Resolving? {
      CallFrame(config, w.rows, Expire, evidenceId, now);
    } else if w.journal.stage.Receiving? {
      ReceiptFrame(config, w.rows, RequestOf(job), w.journal.result.value, job.receiptId, w.journal.recordedAt.value);
    } else if w.journal.stage.Finishing? {
      FinishCompletes(config, job, w, clock);
      FinishFrame(config, w.rows, w.journal.verifiedAt.value);
      FinishSetsKey(config, w.rows, w.journal.verifiedAt.value);
    }
  }

  lemma NoEmissionOfFinal(job: Job, j: Journal)
    requires EmissionOf(job, j).Some?
    ensures EmissionOf(job, j).value.key != KFinal && EmissionOf(job, j).value.key != KResolved
  {
    hide TaskIn, StepIn;
  }

  lemma FinishSetsKey(config: Config, rows: Rows, at: Time)
    requires FinishTask(config, rows, at).Some?
    ensures var (after, o) := FinishTask(config, rows, at).value;
            (after == rows || KFinal in after.keys) && (rows.outcome.Some? ==> after == rows)
  {
    hide ReportOf, ValidOutcome;
  }

  lemma JournaledOutcome(config: Config, job: Job, w: World, now: Time, evidenceId: Id)
    requires ValidRules(config.rules)
    ensures var j := Journaled(config, job, w, now, evidenceId);
            || j.outcome == w.journal.outcome
            || (w.journal.stage.Finishing? && w.journal.verifiedAt.Some? && FinishTask(config, w.rows, w.journal.verifiedAt.value).Some?
                && j.outcome == Some(FinishTask(config, w.rows, w.journal.verifiedAt.value).value.1))
  {
    hide EvaluatePolicy, FinishApproval, Execute, FinishTask, ValidRules, RequestOf, TaskIn, StepIn;
  }

  lemma NextKeepsSettled(config: Config, job: Job, w: World, clock: Time, a: Action)
    requires ValidRules(config.rules) && ValidJob(job) && Whole(config, job, w, clock) && SettledInv(config, job, w) && clock <= a.now
    ensures SettledInv(config, job, Next(config, job, w, a))
  {
    hide Whole, Completes, Journaled, FinishApproval, ValidRules, ValidJob;
    match a {
      case Advance(now, evidenceId) =>
        if Effect(config, job, w, now, evidenceId).Some? {
          EffectKeepsSettled(config, job, w, clock, now, evidenceId);
          JournaledOutcome(config, job, w, now, evidenceId);
          AdvancedOutcome(config, job, w, now, evidenceId);
        }
        hide Effect, FinishTask;
      case Crashed(now, evidenceId) =>
        if Effect(config, job, w, now, evidenceId).Some? {
          EffectKeepsSettled(config, job, w, clock, now, evidenceId);
        }
        hide Effect;
      case Outside(call, now, evidenceId) =>
        if FinishApproval(config, w.rows, call, evidenceId, now).Some? {
          CallFrame(config, w.rows, call, evidenceId, now);
        }
    }
  }

  /** A journaled outcome is the stored one, and a stored one is never replaced. */
  lemma AdvancedOutcome(config: Config, job: Job, w: World, now: Time, evidenceId: Id)
    requires ValidRules(config.rules) && Effect(config, job, w, now, evidenceId).Some?
    ensures w.rows.outcome.Some? ==> Effect(config, job, w, now, evidenceId).value.outcome == w.rows.outcome
    ensures w.journal.stage.Finishing? && w.journal.verifiedAt.Some? && FinishTask(config, w.rows, w.journal.verifiedAt.value).Some? ==>
      Effect(config, job, w, now, evidenceId).value.outcome == Some(FinishTask(config, w.rows, w.journal.verifiedAt.value).value.1)
  {
    hide Emit, RecordPolicy, FinishApproval, RecordReceipt, FinishTask, TaskIn, RequestOf, ValidRules;
    if EmissionOf(job, w.journal).Some? {
      var e := EmissionOf(job, w.journal).value;
      EmitFrame(w.rows, e.key, TaskIn(job, e.status), e.step);
    } else if w.journal.stage.Recording? {
      RecordFrame(config, w.rows, w.journal.evaluation.value, RequestOf(job), job.task.id);
    } else if w.journal.stage.Resolving? {
      CallFrame(config, w.rows, Expire, evidenceId, now);
    } else if w.journal.stage.Receiving? {
      ReceiptFrame(config, w.rows, RequestOf(job), w.journal.result.value, job.receiptId, w.journal.recordedAt.value);
    } else if w.journal.stage.Finishing? {
      FinishFrame(config, w.rows, w.journal.verifiedAt.value);
      FinishSetsKey(config, w.rows, w.journal.verifiedAt.value);
    }
  }

  lemma {:induction false} RunKeepsSettled(config: Config, job: Job, version: Option<Descriptor>, trace: seq<Action>)
    requires ValidRules(config.rules) && ValidJob(job) && Ordered(job, trace)
    ensures SettledInv(config, job, Run(config, job, version, trace))
  {
    hide Whole, Next, ValidRules, ValidJob;
    if trace != [] {
      var init := trace[..|trace| - 1];
      RunKeepsSettled(config, job, version, init);
      RunKeepsWhole(config, job, version, init);
      NextKeepsSettled(config, job, Run(config, job, version, init), ClockOf(job, init), trace[|trace| - 1]);
    }
  }

  /** With one clock, no verified golden task ever fails: every stored outcome, and every one the run
      returns, is the completion of this task with its own result. */
  lemma EveryOutcomeCompletes(config: Config, job: Job, version: Option<Descriptor>, trace: seq<Action>)
    requires ValidRules(config.rules) && ValidJob(job) && Ordered(job, trace)
    ensures var w := Run(config, job, version, trace);
            && (w.rows.outcome.Some? ==> Completes(config, job, w.rows.outcome.value))
            && (w.journal.outcome.Some? ==> w.journal.outcome == w.rows.outcome)
  {
    RunKeepsSettled(config, job, version, trace);
  }

  function Advances(actions: seq<Action>): nat {
    if actions == [] then 0
    else Advances(actions[..|actions| - 1]) + if actions[|actions| - 1].Advance? then 1 else 0
  }

  /** Where a run stands `n` finished steps after it entered VERIFYING. */
  predicate VerdictProgress(config: Config, job: Job, w: World, n: nat) {
    if n == 0 then w.journal.stage.StampingVerdict?
    else if n == 1 then w.journal.stage.Finishing?
    else w.journal.stage.Ended? && w.journal.outcome.Some? && w.rows.outcome == w.journal.outcome && Completes(config, job, w.journal.outcome.value)
  }

  lemma NextMakesProgress(config: Config, job: Job, w: World, clock: Time, a: Action, n: nat)
    requires ValidRules(config.rules) && ValidJob(job) && Whole(config, job, w, clock) && SettledInv(config, job, w) && clock <= a.now
    requires VerdictProgress(config, job, w, n)
    ensures VerdictProgress(config, job, Next(config, job, w, a), n + if a.Advance? then 1 else 0)
  {
    hide Whole, SettledInv, Completes, Effect, Journaled, FinishApproval, ValidRules, ValidJob;
    match a {
      case Advance(now, evidenceId) =>
        if n == 0 {
          StampingAdvances(config, job, w, now, evidenceId);
        } else if n == 1 {
          FinishingAdvances(config, job, w, clock, now, evidenceId);
        } else {
          OverIsIdle(config, job, w, now, evidenceId);
        }
      case Crashed(now, evidenceId) =>
        if n >= 2 { OverIsIdle(config, job, w, now, evidenceId); }
      case Outside(call, now, evidenceId) =>
        if FinishApproval(config, w.rows, call, evidenceId, now).Some? {
          CallFrame(config, w.rows, call, evidenceId, now);
        }
    }
  }

  lemma OrderedPrefix(job: Job, trace: seq<Action>, n: nat)
    requires Ordered(job, trace) && n <= |trace|
    ensures Ordered(job, trace[..n])
  {
  }

  lemma {:induction false} ProgressOver(config: Config, job: Job, version: Option<Descriptor>, trace: seq<Action>, more: seq<Action>)
    requires ValidRules(config.rules) && ValidJob(job) && Ordered(job, trace + more)
    requires Run(config, job, version, trace).journal.stage.StampingVerdict?
    ensures VerdictProgress(config, job, Run(config, job, version, trace + more), Advances(more))
    decreases |more|
  {
    hide Next, Whole, SettledInv, ValidRules, ValidJob, VerdictProgress;
    if more == [] {
      assert trace + more == trace;
      AtTheVerdict(config, job, Run(config, job, version, trace));
    } else {
      var init, last, all := more[..|more| - 1], more[|more| - 1], trace + more;
      var before := trace + init;
      assert all[..|all| - 1] == before && all[|all| - 1] == last;
      OrderedPrefix(job, all, |before|);
      ProgressOver(config, job, version, trace, init);
      RunKeepsWhole(config, job, version, before);
      RunKeepsSettled(config, job, version, before);
      ClockUpTo(job, all);
      hide Ordered;
      NextMakesProgress(config, job, Run(config, job, version, before), ClockOf(job, before), last, Advances(init));
    }
  }

  lemma AtTheVerdict(config: Config, job: Job, w: World)
    requires w.journal.stage.StampingVerdict?
    ensures VerdictProgress(config, job, w, 0)
  {
  }

  lemma ClockUpTo(job: Job, trace: seq<Action>)
    requires Ordered(job, trace) && trace != []
    ensures ClockOf(job, trace[..|trace| - 1]) <= trace[|trace| - 1].now
  {
  }

  /** Once a run has entered VERIFYING, any two more finished steps, whatever crashes, retries and
      calls come before, between and after them, end it with its task completed. */
  lemma VerifyingCompletes(config: Config, job: Job, version: Option<Descriptor>, trace: seq<Action>, more: seq<Action>)
    requires ValidRules(config.rules) && ValidJob(job) && Ordered(job, trace + more)
    requires Run(config, job, version, trace).journal.stage.StampingVerdict? && Advances(more) >= 2
    ensures var w := Run(config, job, version, trace + more);
            && w.journal.stage.Ended? && w.journal.outcome.Some? && w.rows.outcome == w.journal.outcome
            && Completes(config, job, w.journal.outcome.value)
  {
    ProgressOver(config, job, version, trace, more);
    hide Run, Completes, ValidRules, ValidJob;
  }

  lemma StampingAdvances(config: Config, job: Job, w: World, now: Time, evidenceId: Id)
    requires ValidRules(config.rules) && w.journal.stage.StampingVerdict?
    ensures Next(config, job, w, Advance(now, evidenceId)) == World(w.rows, w.journal.(stage := Finishing, verifiedAt := Some(now)))
  {
    hide ValidRules;
  }

  lemma FinishingAdvances(config: Config, job: Job, w: World, clock: Time, now: Time, evidenceId: Id)
    requires ValidRules(config.rules) && ValidJob(job) && Whole(config, job, w, clock) && SettledInv(config, job, w)
    requires w.journal.stage.Finishing? && clock <= now
    ensures var after := Next(config, job, w, Advance(now, evidenceId));
            && after.journal.stage.Ended? && after.journal.outcome.Some? && after.rows.outcome == after.journal.outcome
            && Completes(config, job, after.journal.outcome.value)
  {
    FinishCompletes(config, job, w, clock);
    FinishFrame(config, w.rows, w.journal.verifiedAt.value);
    FinishingStep(config, job, w, now, evidenceId);
    hide *;
  }

  lemma FinishingStep(config: Config, job: Job, w: World, now: Time, evidenceId: Id)
    requires ValidRules(config.rules) && w.journal.stage.Finishing? && w.journal.verifiedAt.Some?
    requires FinishTask(config, w.rows, w.journal.verifiedAt.value).Some?
    ensures var (rows, o) := FinishTask(config, w.rows, w.journal.verifiedAt.value).value;
            Next(config, job, w, Advance(now, evidenceId)) == World(rows, w.journal.(stage := Ended, outcome := Some(o)))
  {
    hide FinishTask, EvaluatePolicy, FinishApproval, Execute, ValidRules, RequestOf, TaskIn, StepIn;
  }

  // ---- one resolution ----

  /** However calls, retries and crashes interleave, an approval that has left PENDING stays as it is. */
  lemma {:induction false} FirstResolutionStands(config: Config, job: Job, version: Option<Descriptor>, trace: seq<Action>, i: nat)
    requires ValidRules(config.rules) && i <= |trace|
    requires var w := Run(config, job, version, trace[..i]); w.rows.approval.Some? && !w.rows.approval.value.status.Pending?
    ensures Run(config, job, version, trace).rows.approval == Run(config, job, version, trace[..i]).rows.approval
    ensures Run(config, job, version, trace).rows.policy == Run(config, job, version, trace[..i]).rows.policy
  {
    hide Next, ValidRules;
    if i == |trace| {
      assert trace[..i] == trace;
    } else {
      var init := trace[..|trace| - 1];
      assert init[..i] == trace[..i];
      FirstResolutionStands(config, job, version, init, i);
      var w := Run(config, job, version, init);
      PolicyOfApproval(config, job, version, init);
      ResolvedOnce(config, job, w, trace[|trace| - 1]);
    }
  }

  lemma PolicyOfApproval(config: Config, job: Job, version: Option<Descriptor>, trace: seq<Action>)
    requires ValidRules(config.rules)
    ensures var rows := Run(config, job, version, trace).rows;
            rows.approval.Some? ==> rows.policy.Some? && KPolicy in rows.keys
  {
    RunKeepsInv(config, job, version, trace);
    hide Run, LedgerInv, GrantInv, JournalInv, Proper, RowCoherent, OwnEvaluation, RecordOf, ValidRules;
  }

  // ---- a grant is what the approver said ----

  /** Action `a`, taken in world `w`, is the approver's grant of exactly this scope, in time. */
  ghost predicate Grants(w: World, a: Action) {
    && a.Outside? && a.call.Answer? && a.call.grant
    && w.rows.policy.Some? && w.rows.approval.Some? && w.rows.approval.value.status.Pending?
    && var e := w.rows.policy.value.evaluation;
       && Some(a.call.actor) == e.approver && a.call.digest == e.scope && e.expiresAt.Some? && a.now < e.expiresAt.value
  }

  lemma OnlyGrantsGrant(config: Config, job: Job, w: World, a: Action)
    requires ValidRules(config.rules) && Inv(config, job, w)
    requires !HasGrant(w.rows) && HasGrant(Next(config, job, w, a).rows)
    ensures Grants(w, a)
  {
    match a {
      case Outside(call, now, evidenceId) =>
        ScopeDigestIsScope(config, job, w);
        hide FindEvidence, Stored, Inv, ValidRules;
      case Advance(now, evidenceId) =>
        EffectGrantsNothing(config, job, w, now, evidenceId);
        hide Effect, Journaled, Inv, ValidRules;
        assert false;
      case Crashed(now, evidenceId) =>
        EffectGrantsNothing(config, job, w, now, evidenceId);
        hide Effect, Inv, ValidRules;
        assert false;
    }
  }

  lemma ScopeDigestIsScope(config: Config, job: Job, w: World)
    requires ValidRules(config.rules) && Inv(config, job, w)
    ensures w.rows.approval.Some? ==> w.rows.policy.Some? && w.rows.policy.value.evaluation.scopeDigest == w.rows.policy.value.evaluation.scope
  {
    hide LedgerInv, PolicyInv, GrantInv, JournalInv, RowCoherent, ValidRules;
  }

  lemma EffectGrantsNothing(config: Config, job: Job, w: World, now: Time, evidenceId: Id)
    requires ValidRules(config.rules) && !HasGrant(w.rows) && Effect(config, job, w, now, evidenceId).Some?
    ensures !HasGrant(Effect(config, job, w, now, evidenceId).value)
  {
    hide FindEvidence, Stored, EmissionOf, RecordReceipt, FinishTask, TaskIn, RequestOf, MatchesStep, ValidRules;
    if EmissionOf(job, w.journal).None? && w.journal.stage.Receiving? {
      ReceiptFrame(config, w.rows, RequestOf(job), w.journal.result.value, job.receiptId, w.journal.recordedAt.value);
    }
    if EmissionOf(job, w.journal).None? && w.journal.stage.Finishing? {
      FinishFrame(config, w.rows, w.journal.verifiedAt.value);
    }
  }

  /** A granted approval was granted by one call in the run's history. */
  lemma {:induction false} GrantWasGiven(config: Config, job: Job, version: Option<Descriptor>, trace: seq<Action>) returns (i: nat)
    requires ValidRules(config.rules) && HasGrant(Run(config, job, version, trace).rows)
    ensures i < |trace| && Grants(Run(config, job, version, trace[..i]), trace[i])
  {
    hide Inv, Next, Grants, ValidRules;
    if trace == [] {
      assert false;
    } else {
      var init := trace[..|trace| - 1];
      if HasGrant(Run(config, job, version, init).rows) {
        i := GrantWasGiven(config, job, version, init);
        assert init[..i] == trace[..i];
      } else {
        RunKeepsInv(config, job, version, init);
        OnlyGrantsGrant(config, job, Run(config, job, version, init), trace[|trace| - 1]);
        i := |trace| - 1;
      }
    }
  }
}
