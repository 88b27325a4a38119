/** The approval deadline: a granted task runs unless its run read the row too early. */
module GoldenDeadline {
  import opened Options
  import opened Lifecycle
  import opened Text
  import opened Golden
  import opened GoldenStores
  import opened GoldenWorkflow
  import opened GoldenSafety
  import opened GoldenCompletion
  import opened GoldenOutcomes

  // ---- when a grant comes too late ----

  /** What the run concluded at its deadline agrees with the row, unless it read PENDING. */
  ghost predicate ConclusionInv(w: World) {
    var j := w.journal;
    && (KResolved in w.rows.keys ==> w.rows.approval.Some? && !w.rows.approval.value.status.Pending?)
    && (j.resolution.Some? ==> w.rows.approval.Some? && (j.resolution.value.status.Pending? || w.rows.approval.value.status == j.resolution.value.status))
    && (j.stage.Rejecting? ==> j.resolution.Some? && !j.resolution.value.status.Granted?)
    && (j.stage.Approving? ==> j.resolution.Some? && j.resolution.value.status.Granted?)
    && (j.resolution.Some? ==> !PolicyPending(j.stage) && !j.stage.Recording? && !j.stage.Asking? && !j.stage.Awaiting? && !j.stage.Resolving?)
  }

  lemma ResolutionIsJournaled(config: Config, job: Job, w: World, now: Time, evidenceId: Id)
    requires ValidRules(config.rules) && Effect(config, job, w, now, evidenceId).Some?
    ensures var j := Journaled(config, job, w, now, evidenceId);
            if w.journal.stage.Resolving? then
              FinishApproval(config, w.rows, Expire, evidenceId, now).Some?
              && j.resolution == Some(FinishApproval(config, w.rows, Expire, evidenceId, now).value.1)
              && (if j.resolution.value.status.Granted? then j.stage.Approving? else j.stage.Rejecting?)
            else j.resolution == w.journal.resolution && !j.stage.Approving? && !j.stage.Rejecting?
  {
    hide EvaluatePolicy, FinishApproval, Execute, FinishTask, ValidRules, RequestOf, TaskIn, StepIn, Emit, RecordPolicy, RecordReceipt;
  }

  lemma LateStages(a: Stage, b: Stage)
    requires Follows(a, b)
    ensures !PolicyPending(a) && !a.Recording? && !a.Asking? && !a.Awaiting? && !a.Resolving? ==>
      !PolicyPending(b) && !b.Recording? && !b.Asking? && !b.Awaiting? && !b.Resolving?
  {
  }

  /** The effects that leave the approval's row alone, or only read it once resolved. */
  lemma EffectReadsApproval(config: Config, job: Job, w: World, now: Time, evidenceId: Id)
    requires ValidRules(config.rules) && Effect(config, job, w, now, evidenceId).Some?
    ensures var rows := Effect(config, job, w, now, evidenceId).value;
            && (KResolved in rows.keys ==> KResolved in w.rows.keys || (rows.approval.Some? && !rows.approval.value.status.Pending?))
    ensures var rows := Effect(config, job, w, now, evidenceId).value;
            w.rows.approval.Some? ==>
            && rows.approval.Some?
            && (!w.rows.approval.value.status.Pending? || (!w.journal.stage.Resolving? && !w.journal.stage.Recording?) ==> rows.approval.value.status == w.rows.approval.value.status)
  {
    hide FindEvidence, Stored, EmissionOf, TaskIn, RequestOf, MatchesStep, RecordReceipt, FinishTask, FinishApproval, Emit, RecordPolicy, ValidRules;
    if EmissionOf(job, w.journal).Some? {
      var e := EmissionOf(job, w.journal).value;
      EmitFrame(w.rows, e.key, TaskIn(job, e.status), e.step);
      NoEmissionOfFinal(job, w.journal);
    } else if w.journal.stage.Recording? {
      RecordFrame(config, w.rows, w.journal.evaluation.value, RequestOf(job), job.task.id);
    } else if w.journal.stage.Resolving? {
      CallFrame(config, w.rows, Expire, evidenceId, now);
    } else if w.journal.stage.Receiving? {
      ReceiptFrame(config, w.rows, RequestOf(job), w.journal.result.value, job.receiptId, w.journal.recordedAt.value);
    } else if w.journal.stage.Finishing? {
      FinishFrame(config, w.rows, w.journal.verifiedAt.value);
    }
  }

  lemma AdvanceKeepsConclusion(config: Config, job: Job, w: World, now: Time, evidenceId: Id)
    requires ValidRules(config.rules) && ConclusionInv(w) && Effect(config, job, w, now, evidenceId).Some?
    ensures ConclusionInv(World(Effect(config, job, w, now, evidenceId).value, Journaled(config, job, w, now, evidenceId)))
  {
    var rows, j := Effect(config, job, w, now, evidenceId).value, Journaled(config, job, w, now, evidenceId);
    ResolutionIsJournaled(config, job, w, now, evidenceId);
    JournaledFollows(config, job, w, now, evidenceId);
    if Follows(w.journal.stage, j.stage) {
      LateStages(w.journal.stage, j.stage);
    }
    if w.journal.stage.Resolving? {
      CallFrame(config, w.rows, Expire, evidenceId, now);
      NoEmissionWhileResolving(job, w.journal);
    } else {
      EffectReadsApproval(config, job, w, now, evidenceId);
    }
    hide Journaled, FinishApproval, EmissionOf, Emit, RecordPolicy, RecordReceipt, FinishTask, Follows, ValidRules;
    if !w.journal.stage.Resolving? { hide Effect; }
  }

  lemma NoEmissionWhileResolving(job: Job, j: Journal)
    ensures j.stage.Resolving? ==> EmissionOf(job, j).None?
  {
  }

  lemma CallKeepsConclusion(config: Config, w: World, call: Call, now: Time, evidenceId: Id)
    requires ConclusionInv(w) && FinishApproval(config, w.rows, call, evidenceId, now).Some?
    ensures ConclusionInv(w.(rows := FinishApproval(config, w.rows, call, evidenceId, now).value.0))
  {
    CallFrame(config, w.rows, call, evidenceId, now);
    hide FinishApproval;
  }

  lemma CrashKeepsConclusion(config: Config, job: Job, w: World, now: Time, evidenceId: Id)
    requires ValidRules(config.rules) && ConclusionInv(w) && Effect(config, job, w, now, evidenceId).Some?
    ensures ConclusionInv(w.(rows := Effect(config, job, w, now, evidenceId).value))
  {
    EffectReadsApproval(config, job, w, now, evidenceId);
    hide Effect, ValidRules;
  }

  lemma NextKeepsConclusion(config: Config, job: Job, w: World, a: Action)
    requires ValidRules(config.rules) && ConclusionInv(w)
    ensures ConclusionInv(Next(config, job, w, a))
  {
    hide Effect, Journaled, FinishApproval, ValidRules;
    match a {
      case Advance(now, evidenceId) =>
        if Effect(config, job, w, now, evidenceId).Some? { AdvanceKeepsConclusion(config, job, w, now, evidenceId); hide ConclusionInv; }
      case Crashed(now, evidenceId) =>
        if Effect(config, job, w, now, evidenceId).Some? { CrashKeepsConclusion(config, job, w, now, evidenceId); hide ConclusionInv; }
      case Outside(call, now, evidenceId) =>
        if FinishApproval(config, w.rows, call, evidenceId, now).Some? { CallKeepsConclusion(config, w, call, now, evidenceId); hide ConclusionInv; }
    }
  }

  lemma {:induction false} RunKeepsConclusion(config: Config, job: Job, version: Option<Descriptor>, trace: seq<Action>)
    requires ValidRules(config.rules)
    ensures ConclusionInv(Run(config, job, version, trace))
  {
    hide Next, ValidRules;
    if trace != [] {
      RunKeepsConclusion(config, job, version, trace[..|trace| - 1]);
      hide ConclusionInv;
      NextKeepsConclusion(config, job, Run(config, job, version, trace[..|trace| - 1]), trace[|trace| - 1]);
    }
  }

  /** The run wakes and reads the row while it is PENDING and, on the database's clock, not yet due. */
  predicate ReadsEarly(w: World, a: Action) {
    && a.Advance? && w.journal.stage.Resolving?
    && w.rows.approval.Some? && w.rows.approval.value.status.Pending?
    && w.rows.policy.Some? && w.rows.task.Some?
    && w.rows.policy.value.evaluation.expiresAt.Some? && a.now < w.rows.policy.value.evaluation.expiresAt.value
  }

  /** Only such a read concludes PENDING. */
  lemma EarlyReadsArePending(config: Config, job: Job, w: World, a: Action)
    requires ValidRules(config.rules) && w.journal.stage.Resolving? && w.journal.resolution.None?
    ensures var r := Next(config, job, w, a).journal.resolution;
            (r.Some? && r.value.status.Pending?) <==> ReadsEarly(w, a)
  {
    NoEmissionWhileResolving(job, w.journal);
    hide FindEvidence, EmissionOf, EvaluatePolicy, Execute, FinishTask, RecordReceipt, RecordPolicy, ValidRules, RequestOf, Attributed;
  }

  lemma ResolutionsStay(config: Config, job: Job, w: World, a: Action)
    requires ValidRules(config.rules) && !w.journal.stage.Resolving?
    ensures Next(config, job, w, a).journal.resolution == w.journal.resolution
  {
    hide Effect, Journaled, FinishApproval, ValidRules;
    if a.Advance? && Effect(config, job, w, a.now, a.evidenceId).Some? {
      ResolutionIsJournaled(config, job, w, a.now, a.evidenceId);
    }
  }

  ghost predicate ReadEarlyBefore(config: Config, job: Job, version: Option<Descriptor>, trace: seq<Action>, n: nat)
    requires ValidRules(config.rules) && n <= |trace|
  {
    exists i: nat :: i < n && ReadsEarly(Run(config, job, version, trace[..i]), trace[i])
  }

  lemma ReadEarlyStep(config: Config, job: Job, version: Option<Descriptor>, trace: seq<Action>)
    requires ValidRules(config.rules) && trace != []
    ensures var n := |trace| - 1;
            ReadEarlyBefore(config, job, version, trace, |trace|) <==>
              ReadEarlyBefore(config, job, version, trace[..n], n) || ReadsEarly(Run(config, job, version, trace[..n]), trace[n])
  {
    hide Run, ReadsEarly, ValidRules;
    var n := |trace| - 1;
    var init := trace[..n];
    forall i: nat | i < n ensures init[..i] == trace[..i] && init[i] == trace[i] {}
    if ReadEarlyBefore(config, job, version, trace, |trace|) {
      var i: nat :| i < |trace| && ReadsEarly(Run(config, job, version, trace[..i]), trace[i]);
      if i < n { assert ReadsEarly(Run(config, job, version, init[..i]), init[i]); }
    }
    if ReadEarlyBefore(config, job, version, init, n) {
      var i: nat :| i < n && ReadsEarly(Run(config, job, version, init[..i]), init[i]);
      assert ReadsEarly(Run(config, job, version, trace[..i]), trace[i]);
    }
  }

  lemma {:induction false} PendingMeansReadEarly(config: Config, job: Job, version: Option<Descriptor>, trace: seq<Action>)
    requires ValidRules(config.rules)
    ensures var r := Run(config, job, version, trace).journal.resolution;
            (r.Some? && r.value.status.Pending?) <==> ReadEarlyBefore(config, job, version, trace, |trace|)
  {
    hide Next, ReadsEarly, ValidRules;
    if trace != [] {
      hide ReadEarlyBefore;
      var n := |trace| - 1;
      var w := Run(config, job, version, trace[..n]);
      PendingMeansReadEarly(config, job, version, trace[..n]);
      RunKeepsConclusion(config, job, version, trace[..n]);
      ReadEarlyStep(config, job, version, trace);
      if w.journal.stage.Resolving? {
        EarlyReadsArePending(config, job, w, trace[n]);
      } else {
        ResolutionsStay(config, job, w, trace[n]);
        NotResolvingNotEarly(w, trace[n]);
      }
    }
  }

  lemma NotResolvingNotEarly(w: World, a: Action)
    requires !w.journal.stage.Resolving?
    ensures !ReadsEarly(w, a)
  {
  }

  // ---- where a concluded run goes ----

  /** On the approving path: at or past the gate. A run stopped here stopped in its execution. */
  predicate Proceeds(w: World) {
    var j := w.journal;
    j.stage.Approving? || Authorised(j.stage) || j.stage.Stopped? || (j.stage.Ended? && j.outcome.Some?)
  }

  predicate TaskSettled(w: World) {
    w.rows.task.Some? && w.rows.task.value.status == if Withdrew(w.journal) then TaskStatus.Cancelled else TaskStatus.Failed
  }

  /** Turned away: about to be rejected, or ended so. */
  predicate TurnedAway(w: World) {
    w.journal.stage.Rejecting? || (w.journal.stage.Ended? && w.journal.outcome.None? && TaskSettled(w))
  }

  ghost predicate PathInv(w: World) {
    var j := w.journal;
    && (j.outcome.Some? ==> j.stage.Ended?)
    && (j.resolution.Some? && j.resolution.value.status.Granted? ==> Proceeds(w))
    && (j.resolution.Some? && !j.resolution.value.status.Granted? ==> TurnedAway(w))
    && (j.resolution.Some? && j.resolution.value.status.Pending? ==> j.resolution.value.reason.None?)
  }

  lemma PathStages(a: Stage, b: Stage)
    requires Follows(a, b)
    ensures a.Approving? || Authorised(a) ==> Authorised(b) || b.Stopped? || (a.Finishing? && b.Ended?)
    ensures a.Rejecting? ==> b.Ended?
    ensures b.Ended? ==> a.Finishing? || a.Rejecting? || a.Denying?
  {
  }

  lemma FinishedOutcome(config: Config, job: Job, w: World, now: Time, evidenceId: Id)
    requires ValidRules(config.rules) && Effect(config, job, w, now, evidenceId).Some?
    ensures var j := Journaled(config, job, w, now, evidenceId);
            if w.journal.stage.Finishing? then j.stage.Ended? && j.outcome.Some? else j.outcome == w.journal.outcome
  {
    NoEmissionAtStores(job, w.journal);
    hide EmissionOf, Emit, EvaluatePolicy, FinishApproval, Execute, FinishTask, RecordReceipt, RecordPolicy, ValidRules, RequestOf, TaskIn, StepIn;
  }

  lemma RejectedTask(config: Config, job: Job, w: World, now: Time, evidenceId: Id)
    requires ValidRules(config.rules) && Inv(config, job, w) && w.journal.stage.Rejecting?
    ensures Effect(config, job, w, now, evidenceId).Some?
    ensures TaskSettled(w.(rows := Effect(config, job, w, now, evidenceId).value))
  {
    hide PolicyInv, ApprovalCoherent, GrantInv, JournalInv, ValidRules, StepIn, Allowed;
  }

  /** A pending row has no evidence, so reading it gives no reason. */
  lemma PendingHasNoReason(config: Config, job: Job, w: World, now: Time, evidenceId: Id)
    requires ValidRules(config.rules) && Inv(config, job, w) && FinishApproval(config, w.rows, Expire, evidenceId, now).Some?
    ensures var r := FinishApproval(config, w.rows, Expire, evidenceId, now).value.1;
            r.status.Pending? ==> r.reason.None?
  {
    hide LedgerInv, PolicyInv, GrantInv, JournalInv, ValidRules, Proper, FindEvidence;
  }

  lemma AdvanceKeepsPath(config: Config, job: Job, w: World, now: Time, evidenceId: Id)
    requires ValidRules(config.rules) && Inv(config, job, w) && ConclusionInv(w) && PathInv(w) && Effect(config, job, w, now, evidenceId).Some?
    ensures PathInv(World(Effect(config, job, w, now, evidenceId).value, Journaled(config, job, w, now, evidenceId)))
  {
    hide Inv, Effect, Journaled, FinishApproval, ValidRules, TaskSettled, Authorised;
    var j := Journaled(config, job, w, now, evidenceId);
    if Over(w.journal.stage) {
      OverIsIdle(config, job, w, now, evidenceId);
    } else {
      ResolutionIsJournaled(config, job, w, now, evidenceId);
      JournaledFollows(config, job, w, now, evidenceId);
      FinishedOutcome(config, job, w, now, evidenceId);
      if Follows(w.journal.stage, j.stage) { PathStages(w.journal.stage, j.stage); }
      hide Follows;
      if w.journal.stage.Rejecting? {
        RejectedTask(config, job, w, now, evidenceId);
        SettledAlike(w.(rows := Effect(config, job, w, now, evidenceId).value), World(Effect(config, job, w, now, evidenceId).value, j));
      }
      if w.journal.stage.Resolving? { PendingHasNoReason(config, job, w, now, evidenceId); }
    }
  }

  lemma SettledAlike(a: World, b: World)
    requires TaskSettled(a) && b.rows.task == a.rows.task && b.journal.resolution == a.journal.resolution
    ensures TaskSettled(b)
  {
  }

  lemma NextKeepsPath(config: Config, job: Job, w: World, a: Action)
    requires ValidRules(config.rules) && Inv(config, job, w) && ConclusionInv(w) && PathInv(w)
    ensures PathInv(Next(config, job, w, a))
  {
    hide Inv, Effect, Journaled, FinishApproval, ValidRules, TaskSettled, Authorised;
    match a {
      case Advance(now, evidenceId) =>
        if Effect(config, job, w, now, evidenceId).Some? { AdvanceKeepsPath(config, job, w, now, evidenceId); }
      case Crashed(now, evidenceId) =>
        if w.journal.stage.Ended? { OverIsIdle(config, job, w, now, evidenceId); }
      case Outside(call, now, evidenceId) =>
        if FinishApproval(config, w.rows, call, evidenceId, now).Some? {
          CallFrame(config, w.rows, call, evidenceId, now);
          var rows := FinishApproval(config, w.rows, call, evidenceId, now).value.0;
          if TaskSettled(w) { SettledAlike(w, w.(rows := rows)); }
        }
    }
  }

  lemma {:induction false} RunKeepsPath(config: Config, job: Job, version: Option<Descriptor>, trace: seq<Action>)
    requires ValidRules(config.rules)
    ensures PathInv(Run(config, job, version, trace))
  {
    hide Next, ValidRules, Inv, ConclusionInv;
    if trace != [] {
      var init := trace[..|trace| - 1];
      RunKeepsPath(config, job, version, init);
      RunKeepsInv(config, job, version, init);
      RunKeepsConclusion(config, job, version, init);
      hide PathInv;
      NextKeepsPath(config, job, Run(config, job, version, init), trace[|trace| - 1]);
    }
  }

  predicate TaskFailed(w: World) {
    w.rows.task.Some? && w.rows.task.value.status.Failed?
  }

  /** Once the deadline step has concluded, a granted task is on the approving path if and only if its
      run did not read the row early; if it did, the run has ended with the task FAILED and nothing
      verified, or its next finished step does so. */
  lemma GrantedRunsUnlessReadEarly(config: Config, job: Job, version: Option<Descriptor>, trace: seq<Action>)
    requires ValidRules(config.rules)
    requires var w := Run(config, job, version, trace); HasGrant(w.rows) && w.journal.resolution.Some?
    ensures Proceeds(Run(config, job, version, trace)) <==> !ReadEarlyBefore(config, job, version, trace, |trace|)
    ensures var w := Run(config, job, version, trace);
            ReadEarlyBefore(config, job, version, trace, |trace|) <==>
              w.journal.stage.Rejecting? || (w.journal.stage.Ended? && w.journal.outcome.None? && TaskFailed(w))
    ensures var w := Run(config, job, version, trace);
            w.journal.stage.Rejecting? ==> forall now, evidenceId ::
              Next(config, job, w, Advance(now, evidenceId)).journal.stage.Ended? && TaskFailed(Next(config, job, w, Advance(now, evidenceId)))
  {
    PendingMeansReadEarly(config, job, version, trace);
    RunKeepsConclusion(config, job, version, trace);
    RunKeepsPath(config, job, version, trace);
    RunKeepsInv(config, job, version, trace);
    hide Run, ReadEarlyBefore, ValidRules, Inv, Next;
    var w := Run(config, job, version, trace);
    if w.journal.stage.Rejecting? {
      forall now, evidenceId
        ensures Next(config, job, w, Advance(now, evidenceId)).journal.stage.Ended? && TaskFailed(Next(config, job, w, Advance(now, evidenceId)))
      {
        RejectingFails(config, job, w, now, evidenceId);
      }
    }
  }

  lemma RejectingFails(config: Config, job: Job, w: World, now: Time, evidenceId: Id)
    requires ValidRules(config.rules) && Inv(config, job, w) && w.journal.stage.Rejecting? && !Withdrew(w.journal)
    ensures var next := Next(config, job, w, Advance(now, evidenceId)); next.journal.stage.Ended? && TaskFailed(next)
  {
    RejectedTask(config, job, w, now, evidenceId);
    hide Inv, Effect, FinishApproval, EvaluatePolicy, Execute, FinishTask, ValidRules;
  }

  /** The failing case: after any early read, the approver's answer is still accepted before the
      deadline, and the task fails with its approval granted. */
  lemma LateGrantFails(config: Config, job: Job, version: Option<Descriptor>, trace: seq<Action>, read: Action, answered: Time, evidenceId: Id)
    returns (w: World)
    requires ValidRules(config.rules) && ReadsEarly(Run(config, job, version, trace), read)
    requires var rows := Run(config, job, version, trace).rows; var e := rows.policy.value.evaluation;
             && rows.approval.value.requestedAt <= answered < e.expiresAt.value
             && FindEvidence(rows.evidence, evidenceId).None?
             && e.approver.Some? && config.member(e.scope.tenantId, e.approver.value, Approve)
    ensures var e := Run(config, job, version, trace).rows.policy.value.evaluation;
            w == Run(config, job, version, trace + [read, Outside(Answer(true, e.approver.value, e.scope), answered, evidenceId), Advance(answered, evidenceId)])
    ensures HasGrant(w.rows) && w.rows.task.Some? && w.rows.task.value.status.Failed? && w.journal.stage.Ended?
  {
    var before := Run(config, job, version, trace);
    var e := before.rows.policy.value.evaluation;
    var grant, reject := Outside(Answer(true, e.approver.value, e.scope), answered, evidenceId), Advance(answered, evidenceId);
    RunKeepsInv(config, job, version, trace);
    RunKeepsConclusion(config, job, version, trace);
    assert trace + [read, grant, reject] == trace + [read] + [grant] + [reject];
    RunSnoc(config, job, version, trace, read);
    RunSnoc(config, job, version, trace + [read], grant);
    RunSnoc(config, job, version, trace + [read] + [grant], reject);
    hide Run;
    var rejected := Next(config, job, before, read);
    EarlyReadRejects(config, job, before, read);
    PendingIsOpen(config, job, before);
    var granted := Next(config, job, rejected, grant);
    AnswerGrants(config, job, rejected, e, answered, evidenceId);
    w := Next(config, job, granted, reject);
    RejectFails(config, job, granted, answered, evidenceId);
  }

  lemma RunSnoc(config: Config, job: Job, version: Option<Descriptor>, trace: seq<Action>, a: Action)
    requires ValidRules(config.rules)
    ensures Run(config, job, version, trace + [a]) == Next(config, job, Run(config, job, version, trace), a)
  {
    hide Next, ValidRules;
    assert (trace + [a])[..|trace|] == trace;
  }

  lemma EarlyReadRejects(config: Config, job: Job, w: World, read: Action)
    requires ValidRules(config.rules) && ReadsEarly(w, read)
    ensures var after := Next(config, job, w, read);
            && after.rows == w.rows && after.journal.stage.Rejecting? && after.journal.resolution == Some(Stored(w.rows))
            && after == World(w.rows, w.journal.(stage := Rejecting, resolution := Some(Stored(w.rows))))
  {
    NoEmissionWhileResolving(job, w.journal);
    hide FindEvidence, EmissionOf, EvaluatePolicy, Execute, FinishTask, RecordReceipt, RecordPolicy, ValidRules, RequestOf, Attributed, Stored;
    StoredStatus(w.rows);
  }

  lemma StoredStatus(rows: Rows)
    requires rows.approval.Some?
    ensures Stored(rows).status == rows.approval.value.status
  {
    hide FindEvidence;
  }

  /** A pending approval at the deadline: nothing resolved it, and the task still waits for it. */
  lemma PendingIsOpen(config: Config, job: Job, w: World)
    requires ValidRules(config.rules) && Inv(config, job, w) && w.journal.stage.Resolving?
    requires w.rows.approval.Some? && w.rows.approval.value.status.Pending?
    ensures w.rows.task == Some(TaskIn(job, ApprovalRequired)) && w.rows.policy.Some?
    ensures w.rows.policy.value.evaluation.scopeDigest == w.rows.policy.value.evaluation.scope
    ensures w.rows.approval.value.evidenceId.None?
    ensures KReject !in w.rows.keys
  {
    ScopeDigestIsScope(config, job, w);
    hide PolicyInv, GrantInv, JournalInv, Proper, ValidRules, StepIn;
  }

  lemma AnswerGrants(config: Config, job: Job, w: World, e: Evaluation, now: Time, evidenceId: Id)
    requires ValidRules(config.rules) && ConclusionInv(w)
    requires w.rows.task == Some(TaskIn(job, ApprovalRequired)) && w.rows.policy.Some? && w.rows.policy.value.evaluation == e
    requires w.rows.approval.Some? && w.rows.approval.value.status.Pending? && w.rows.approval.value.requestedAt <= now
    requires e.expiresAt.Some? && now < e.expiresAt.value && e.scopeDigest == e.scope
    requires e.approver.Some? && config.member(e.scope.tenantId, e.approver.value, Approve)
    requires FindEvidence(w.rows.evidence, evidenceId).None?
    ensures var after := Next(config, job, w, Outside(Answer(true, e.approver.value, e.scope), now, evidenceId));
            && HasGrant(after.rows) && after.rows.task == w.rows.task && after.journal == w.journal
            && after.rows.keys == w.rows.keys + {KResolved}
  {
    hide FindEvidence, Effect, Journaled, ValidRules;
  }

  lemma RejectFails(config: Config, job: Job, w: World, now: Time, evidenceId: Id)
    requires ValidRules(config.rules) && w.journal.stage.Rejecting? && !Withdrew(w.journal)
    requires w.rows.task == Some(TaskIn(job, ApprovalRequired)) && KReject !in w.rows.keys
    ensures var after := Next(config, job, w, Advance(now, evidenceId));
            && after.rows.approval == w.rows.approval && after.journal.stage.Ended?
            && after.rows.task == Some(TaskIn(job, TaskStatus.Failed))
  {
    hide FinishApproval, EvaluatePolicy, Execute, FinishTask, RecordReceipt, RecordPolicy, ValidRules;
  }

  // ---- an early read can happen ----

  /** A database clock behind the workflow's is enough: the run asks at `t`, waits until its own clock
      reads the deadline, and the database, whose clock still reads `t`, finds the row not due. */
  lemma SixStepsToTheDeadline(config: Config, job: Job, version: Option<Descriptor>, t: Time, ttlMs: nat, evidenceId: Id)
    returns (trace: seq<Action>, w: World)
    requires ValidRules(config.rules) && ValidJob(job)
    requires var r := FindRule(config.rules.rules, job.task.tenant, job.task.principal.id, UPPERCASE);
             && r.Some? && r.value.effect.NeedsApproval? && r.value.ttlMs == Some(ttlMs)
             && config.member(job.task.tenant, job.task.principal, Submit)
             && config.member(job.task.tenant, r.value.approver.GetOr(job.task.principal), Approve)
    ensures |trace| == 6 && trace[5] == Advance(t + ttlMs, evidenceId) && forall i | 0 <= i < 5 :: trace[i] == Advance(t, evidenceId)
    ensures w == Run(config, job, version, trace) && ReadsEarly(w, Advance(t, evidenceId))
  {
    var a, woken := Advance(t, evidenceId), Advance(t + ttlMs, evidenceId);
    var w0 := Opening(version);
    var w2 := Next(config, job, Next(config, job, w0, a), a);
    StartsCompiled(config, job, version, t, evidenceId);
    var w3, e := EvaluatesToAsk(config, job, w2, t, ttlMs, evidenceId);
    var w4 := RecordsPending(config, job, w3, e, t, evidenceId);
    var w6 := AsksAndAwaits(config, job, w4, e, t, ttlMs, evidenceId);
    hide Next, ValidRules;
    trace, w := [], w0;
    trace, w := More(config, job, version, trace, w, a);
    trace, w := More(config, job, version, trace, w, a);
    trace, w := More(config, job, version, trace, w, a);
    trace, w := More(config, job, version, trace, w, a);
    trace, w := More(config, job, version, trace, w, a);
    trace, w := More(config, job, version, trace, w, woken);
  }

  lemma More(config: Config, job: Job, version: Option<Descriptor>, trace: seq<Action>, w: World, a: Action) returns (longer: seq<Action>, next: World)
    requires ValidRules(config.rules) && w == Run(config, job, version, trace)
    ensures longer == trace + [a] && next == Next(config, job, w, a) && next == Run(config, job, version, longer)
  {
    longer, next := trace + [a], Next(config, job, w, a);
    RunSnoc(config, job, version, trace, a);
  }

  lemma StartsCompiled(config: Config, job: Job, version: Option<Descriptor>, t: Time, evidenceId: Id)
    requires ValidRules(config.rules) && ValidJob(job)
    ensures var w := Next(config, job, Next(config, job, Opening(version), Advance(t, evidenceId)), Advance(t, evidenceId));
            w == World(Rows(Some(TaskIn(job, TaskStatus.Compiled)), Some(StepIn(job, Ready, None)), None, None, [], None, version, {KCreate, KCompile}, None),
                       Journal(Evaluating, None, None, None, None, None, None))
  {
    hide ValidRules, FinishApproval, EvaluatePolicy, Execute, FinishTask, RecordReceipt, RecordPolicy;
    var w1 := Next(config, job, Opening(version), Advance(t, evidenceId));
    assert w1 == World(Rows(Some(TaskIn(job, Received)), None, None, None, [], None, version, {KCreate}, None),
                       Journal(Compiling, None, None, None, None, None, None));
    assert {KCreate} + {KCompile} == {KCreate, KCompile};
  }

  lemma EvaluatesToAsk(config: Config, job: Job, w: World, t: Time, ttlMs: nat, evidenceId: Id) returns (next: World, e: Evaluation)
    requires ValidRules(config.rules) && ValidJob(job) && w.journal.stage.Evaluating?
    requires var r := FindRule(config.rules.rules, job.task.tenant, job.task.principal.id, UPPERCASE);
             r.Some? && r.value.effect.NeedsApproval? && r.value.ttlMs == Some(ttlMs)
    ensures next == Next(config, job, w, Advance(t, evidenceId)) && next == World(w.rows, w.journal.(stage := Recording, evaluation := Some(e)))
    ensures OwnEvaluation(config, job, e) && e.decision.NeedsApproval? && e.evaluatedAt == t && e.expiresAt == Some(t + ttlMs)
    ensures e.approver == FindRule(config.rules.rules, job.task.tenant, job.task.principal.id, UPPERCASE).value.approver
  {
    next := Next(config, job, w, Advance(t, evidenceId));
    e := next.journal.evaluation.value;
    hide ValidRules, FindRule, FinishApproval, Execute, FinishTask, RecordReceipt, RecordPolicy;
  }

  lemma RecordsPending(config: Config, job: Job, w: World, e: Evaluation, t: Time, evidenceId: Id) returns (next: World)
    requires ValidRules(config.rules) && w.journal.stage.Recording? && w.journal.evaluation == Some(e)
    requires OwnEvaluation(config, job, e) && e.decision.NeedsApproval?
    requires w.rows.task == Some(TaskIn(job, TaskStatus.Compiled)) && w.rows.step == Some(StepIn(job, Ready, None))
    requires w.rows.approval.None? && w.rows.keys == {KCreate, KCompile}
    requires e.approver.Some? && config.member(job.task.tenant, job.task.principal, Submit) && config.member(job.task.tenant, e.approver.value, Approve)
    ensures next == Next(config, job, w, Advance(t, evidenceId)) && next.journal == w.journal.(stage := Asking)
    ensures next.rows == w.rows.(policy := Some(RecordOf(job, e)), approval := next.rows.approval, keys := {KCreate, KCompile, KPolicy})
    ensures next.rows.approval.Some? && next.rows.approval.value.status.Pending?
  {
    next := Next(config, job, w, Advance(t, evidenceId));
    EvaluationShape(config, job, e);
    hide ValidRules, EvaluatePolicy, OwnEvaluation, FinishApproval, Execute, FinishTask, RecordReceipt;
    assert {KCreate, KCompile} + {KPolicy} == {KCreate, KCompile, KPolicy};
  }

  lemma AsksAndAwaits(config: Config, job: Job, w: World, e: Evaluation, t: Time, ttlMs: nat, evidenceId: Id) returns (next: World)
    requires ValidRules(config.rules) && w.journal.stage.Asking? && w.journal.evaluation == Some(e)
    requires OwnEvaluation(config, job, e) && e.decision.NeedsApproval? && e.evaluatedAt == t && e.expiresAt == Some(t + ttlMs)
    requires w.rows.task == Some(TaskIn(job, TaskStatus.Compiled)) && w.rows.keys == {KCreate, KCompile, KPolicy}
    requires w.rows.policy == Some(RecordOf(job, e)) && w.rows.approval.Some? && w.rows.approval.value.status.Pending?
    ensures next == Next(config, job, Next(config, job, w, Advance(t, evidenceId)), Advance(t + ttlMs, evidenceId))
    ensures ReadsEarly(next, Advance(t, evidenceId))
  {
    EvaluationShape(config, job, e);
    hide ValidRules, EvaluatePolicy, OwnEvaluation, FinishApproval, Execute, FinishTask, RecordReceipt, RecordPolicy;
    var asked := Next(config, job, w, Advance(t, evidenceId));
    assert asked.journal == w.journal.(stage := Awaiting) && asked.rows.policy == w.rows.policy && asked.rows.approval == w.rows.approval;
    next := Next(config, job, asked, Advance(t + ttlMs, evidenceId));
  }

  // ---- with one clock it cannot ----

  /** A run that has been woken: its approval is resolved, or the deadline has passed on every clock. */
  ghost predicate WokenInv(w: World, clock: Time) {
    var j := w.journal;
    j.stage.Resolving? ==>
      && j.evaluation.Some? && j.evaluation.value.expiresAt.Some?
      && (j.evaluation.value.expiresAt.value <= clock || (w.rows.approval.Some? && !w.rows.approval.value.status.Pending?))
  }

  lemma AdvanceKeepsWoken(config: Config, job: Job, w: World, clock: Time, now: Time, evidenceId: Id)
    requires ValidRules(config.rules) && WokenInv(w, clock) && clock <= now && Effect(config, job, w, now, evidenceId).Some?
    ensures WokenInv(World(Effect(config, job, w, now, evidenceId).value, Journaled(config, job, w, now, evidenceId)), now)
  {
    var j := Journaled(config, job, w, now, evidenceId);
    JournaledFollows(config, job, w, now, evidenceId);
    if Follows(w.journal.stage, j.stage) { ResolvingFollows(w.journal.stage, j.stage); }
    if w.journal.stage.Awaiting? { NoEmissionWhileAwaiting(job, w.journal); }
    EffectReadsApproval(config, job, w, now, evidenceId);
    hide Journaled, Follows, FinishApproval, EmissionOf, Emit, RecordPolicy, RecordReceipt, FinishTask, ValidRules;
    if !w.journal.stage.Awaiting? { hide Effect; }
  }

  lemma ResolvingFollows(a: Stage, b: Stage)
    requires Follows(a, b)
    ensures b.Resolving? ==> a.Awaiting?
    ensures a.Resolving? ==> !b.Resolving?
  {
  }

  lemma NoEmissionWhileAwaiting(job: Job, j: Journal)
    ensures j.stage.Awaiting? ==> EmissionOf(job, j).None?
  {
  }

  lemma NextKeepsWoken(config: Config, job: Job, w: World, clock: Time, a: Action)
    requires ValidRules(config.rules) && WokenInv(w, clock) && clock <= a.now
    ensures WokenInv(Next(config, job, w, a), a.now)
  {
    hide Effect, Journaled, FinishApproval, ValidRules;
    match a {
      case Advance(now, evidenceId) =>
        if Effect(config, job, w, now, evidenceId).Some? { AdvanceKeepsWoken(config, job, w, clock, now, evidenceId); }
      case Crashed(now, evidenceId) =>
        if Effect(config, job, w, now, evidenceId).Some? { EffectReadsApproval(config, job, w, now, evidenceId); }
      case Outside(call, now, evidenceId) =>
        if FinishApproval(config, w.rows, call, evidenceId, now).Some? { CallFrame(config, w.rows, call, evidenceId, now); }
    }
  }

  lemma {:induction false} RunKeepsWoken(config: Config, job: Job, version: Option<Descriptor>, trace: seq<Action>)
    requires ValidRules(config.rules) && Ordered(job, trace)
    ensures WokenInv(Run(config, job, version, trace), ClockOf(job, trace))
  {
    hide Next, ValidRules;
    if trace != [] {
      var init := trace[..|trace| - 1];
      RunKeepsWoken(config, job, version, init);
      hide WokenInv;
      NextKeepsWoken(config, job, Run(config, job, version, init), ClockOf(job, init), trace[|trace| - 1]);
    }
  }

  /** With one clock for workflow and database no run ever reads the row early. */
  lemma OneClockNeverReadsEarly(config: Config, job: Job, version: Option<Descriptor>, trace: seq<Action>)
    requires ValidRules(config.rules) && Ordered(job, trace)
    ensures !ReadEarlyBefore(config, job, version, trace, |trace|)
  {
    hide Run, ReadsEarly, ValidRules;
    forall i: nat | i < |trace| ensures !ReadsEarly(Run(config, job, version, trace[..i]), trace[i]) {
      OrderedPrefix(job, trace, i);
      OrderedPrefix(job, trace, i + 1);
      assert trace[..i + 1][..i] == trace[..i];
      ClockUpTo(job, trace[..i + 1]);
      RunKeepsWoken(config, job, version, trace[..i]);
      RunKeepsInv(config, job, version, trace[..i]);
      WokenReadsLate(config, job, Run(config, job, version, trace[..i]), ClockOf(job, trace[..i]), trace[i]);
    }
  }

  lemma WokenReadsLate(config: Config, job: Job, w: World, clock: Time, a: Action)
    requires ValidRules(config.rules) && Inv(config, job, w) && WokenInv(w, clock) && clock <= a.now
    ensures !ReadsEarly(w, a)
  {
    if w.rows.policy.Some? { RecordedEvaluation(config, job, w); }
    hide Inv, ValidRules;
  }

  /** So with one clock a granted approval does mean that the task goes on. */
  lemma OneClockGrantsRun(config: Config, job: Job, version: Option<Descriptor>, trace: seq<Action>)
    requires ValidRules(config.rules) && Ordered(job, trace)
    requires var w := Run(config, job, version, trace); HasGrant(w.rows) && w.journal.resolution.Some?
    ensures Proceeds(Run(config, job, version, trace))
  {
    hide Run, ReadEarlyBefore, Proceeds, ValidRules;
    OneClockNeverReadsEarly(config, job, version, trace);
    GrantedRunsUnlessReadEarly(config, job, version, trace);
  }
}
