/** How a golden task's approval is settled, told from the calls alone, and where its run then ends. */
module GoldenResolutions {
  import opened Options
  import opened Lifecycle
  import opened Golden
  import opened GoldenVerifier
  import opened GoldenStores
  import opened GoldenWorkflow
  import opened GoldenSafety
  import opened GoldenCompletion
  import opened GoldenOutcomes
  import opened GoldenDeadline

  // ---- one call ----

  predicate IsPending(rows: Rows) {
    rows.approval.Some? && rows.approval.value.status.Pending?
  }

  predicate IsCancelled(rows: Rows) {
    rows.task.Some? && rows.task.value.status.Cancelled?
  }

  /** What the row and its evidence say: a human decision is evidence of that kind and no other is. */
  predicate SettledAs(rows: Rows, e: Evaluation, status: ApprovalStatus, reason: Reason, actor: Principal, at: Time) {
    && rows.approval.Some? && rows.approval.value.evidenceId.Some?
    && var row := rows.approval.value;
       && row.status == status && row.resolvedAt == Some(at)
       && FindEvidence(rows.evidence, row.evidenceId.value)
            == Some(Evidence(row.evidenceId.value, e.scope.taskId, e.scope.stepId, reason.Human?, at, ApprovalFact(row.id, e.scope, status, reason, actor)))
  }

  /** At the deadline or later every call expires the approval; before it, the task's principal may
      withdraw it and the named approver may decide on exactly its scope. */
  predicate SettledBy(rows: Rows, e: Evaluation, call: Call, at: Time) {
    && e.expiresAt.Some?
    && match call
       case Expire => at >= e.expiresAt.value && SettledAs(rows, e, Expired, Deadline, e.scope.principal, at)
       case Cancel(actor) =>
         && actor == e.scope.principal
         && (if at >= e.expiresAt.value then SettledAs(rows, e, Expired, Deadline, actor, at) else SettledAs(rows, e, Denied, Withdrawn, actor, at))
       case Answer(grant, actor, digest) =>
         && Some(actor) == e.approver && digest == e.scope
         && (if at >= e.expiresAt.value then SettledAs(rows, e, Expired, Deadline, actor, at)
             else SettledAs(rows, e, if grant then ApprovalStatus.Granted else Denied, Human, actor, at))
  }

  lemma CallSettles(config: Config, rows: Rows, call: Call, evidenceId: Id, now: Time)
    requires FinishApproval(config, rows, call, evidenceId, now).Some? && IsPending(rows) && !IsCancelled(rows)
    requires rows.policy.Some? && rows.policy.value.evaluation.scopeDigest == rows.policy.value.evaluation.scope
    ensures var (after, r) := FinishApproval(config, rows, call, evidenceId, now).value;
            !IsPending(after) ==>
              && SettledBy(after, rows.policy.value.evaluation, call, now)
              && r == Stored(after)
              && after.evidence == rows.evidence + [after.evidence[|rows.evidence|]]
  {
    var (after, r) := FinishApproval(config, rows, call, evidenceId, now).value;
    if after != rows {
      assert after.evidence[..|rows.evidence|] == rows.evidence;
      FoundStays(rows.evidence, after.evidence[|rows.evidence|], evidenceId);
      hide FindEvidence;
    }
  }

  /** A cancelled task's approval is withdrawn by whoever calls, before the deadline. */
  lemma CancelledTaskWithdraws(config: Config, rows: Rows, call: Call, evidenceId: Id, now: Time)
    requires FinishApproval(config, rows, call, evidenceId, now).Some? && IsPending(rows) && IsCancelled(rows)
    requires rows.policy.Some? && rows.policy.value.evaluation.scopeDigest == rows.policy.value.evaluation.scope
    requires rows.policy.value.evaluation.expiresAt.Some? && now < rows.policy.value.evaluation.expiresAt.value && !call.Expire?
    ensures SettledAs(FinishApproval(config, rows, call, evidenceId, now).value.0, rows.policy.value.evaluation, Denied, Withdrawn, call.actor, now)
  {
    var after := FinishApproval(config, rows, call, evidenceId, now).value.0;
    assert after.evidence[..|rows.evidence|] == rows.evidence;
    FoundStays(rows.evidence, after.evidence[|rows.evidence|], evidenceId);
    hide FindEvidence;
  }

  /** It comes from whoever may make it, for this scope, not before the request, an expiry not before
      the deadline; and the task still waits, unless it is being withdrawn. */
  predicate MaySettle(config: Config, rows: Rows, call: Call, evidenceId: Id, now: Time)
    requires rows.policy.Some? && rows.task.Some? && rows.approval.Some? && rows.policy.value.evaluation.expiresAt.Some?
  {
    var e := rows.policy.value.evaluation;
    && FindEvidence(rows.evidence, evidenceId).None? && rows.approval.value.requestedAt <= now
    && (call.Cancel? || rows.task.value.status.Compiled? || rows.task.value.status.ApprovalRequired?)
    && match call
       case Expire => now >= e.expiresAt.value
       case Cancel(actor) => actor == e.scope.principal && config.member(e.scope.tenantId, actor, CancelTask)
       case Answer(_, actor, digest) => Some(actor) == e.approver && digest == e.scope && config.member(e.scope.tenantId, actor, Approve)
  }

  lemma SettlesWhen(config: Config, rows: Rows, call: Call, evidenceId: Id, now: Time)
    requires IsPending(rows) && !IsCancelled(rows) && KResolved !in rows.keys
    requires rows.policy.Some? && rows.task.Some? && rows.policy.value.evaluation.expiresAt.Some?
    requires rows.policy.value.evaluation.scopeDigest == rows.policy.value.evaluation.scope
    ensures MaySettle(config, rows, call, evidenceId, now) <==>
      FinishApproval(config, rows, call, evidenceId, now).Some? && !IsPending(FinishApproval(config, rows, call, evidenceId, now).value.0)
  {
    hide FindEvidence, Attributed, Stored;
  }

  /** In any run, exactly such calls settle a pending approval. */
  lemma CallSettlesExactlyWhen(config: Config, job: Job, version: Option<Descriptor>, trace: seq<Action>, call: Call, evidenceId: Id, now: Time)
    requires ValidRules(config.rules) && IsPending(Run(config, job, version, trace).rows)
    ensures var rows := Run(config, job, version, trace).rows;
            && rows.policy.Some? && rows.task.Some? && rows.policy.value.evaluation.expiresAt.Some?
            && (MaySettle(config, rows, call, evidenceId, now) <==>
                  !IsPending(Run(config, job, version, trace + [Outside(call, now, evidenceId)]).rows))
  {
    var w := Run(config, job, version, trace);
    RunSnoc(config, job, version, trace, Outside(call, now, evidenceId));
    RunKeepsInv(config, job, version, trace);
    RunKeepsConclusion(config, job, version, trace);
    RunKeepsSettlement(config, job, version, trace);
    hide Run;
    ApprovalFacts(config, job, w);
    SettlesWhen(config, w.rows, call, evidenceId, now);
    if FinishApproval(config, w.rows, call, evidenceId, now).Some? { CallFrame(config, w.rows, call, evidenceId, now); }
    hide FinishApproval, MaySettle, Effect, Journaled, ValidRules, Inv, TaskOfPolicy;
  }

  lemma ApprovalFacts(config: Config, job: Job, w: World)
    requires ValidRules(config.rules) && Inv(config, job, w) && TaskOfPolicy(w.rows) && w.rows.approval.Some?
    ensures w.rows.policy.Some? && w.rows.task.Some? && w.rows.policy.value.evaluation.expiresAt.Some?
    ensures w.rows.policy.value.evaluation.scopeDigest == w.rows.policy.value.evaluation.scope
  {
    hide LedgerInv, PolicyInv, GrantInv, JournalInv, RowCoherent, ValidRules;
  }

  // ---- what every run keeps ----

  predicate TaskOfPolicy(rows: Rows) {
    rows.policy.Some? ==> rows.task.Some?
  }

  /** A withdrawn task is one whose approval was settled; a conclusion that is not PENDING is the row's. */
  predicate SettledInv(w: World) {
    && (IsCancelled(w.rows) ==> w.rows.approval.Some? && !IsPending(w.rows))
    && (w.journal.resolution.Some? && !w.journal.resolution.value.status.Pending? ==>
          w.rows.approval.Some? && !IsPending(w.rows) && w.journal.resolution == Some(Stored(w.rows)))
  }

  /** One step leaves a settled approval and its evidence alone, adds at most one evidence row, and
      settles a pending approval only by a call. */
  predicate RowsGo(before: Rows, after: Rows) {
    && (before.task.Some? ==> after.task.Some?)
    && (before.approval.Some? && !IsPending(before) ==> after.approval == before.approval)
    && (after.evidence == before.evidence || (|after.evidence| == |before.evidence| + 1 && after.evidence == before.evidence + [after.evidence[|before.evidence|]]))
  }

  lemma CallGoes(config: Config, rows: Rows, call: Call, evidenceId: Id, now: Time)
    requires FinishApproval(config, rows, call, evidenceId, now).Some?
    ensures RowsGo(rows, FinishApproval(config, rows, call, evidenceId, now).value.0)
  {
    hide FindEvidence, Entitled, Stored, Settle, Attributed;
  }

  lemma FinishGoes(config: Config, rows: Rows, at: Time)
    requires FinishTask(config, rows, at).Some?
    ensures RowsGo(rows, FinishTask(config, rows, at).value.0)
    ensures IsCancelled(FinishTask(config, rows, at).value.0) ==> IsCancelled(rows)
  {
    hide ReportOf, ValidOutcome;
  }

  lemma EffectGoes(config: Config, job: Job, w: World, now: Time, evidenceId: Id)
    requires ValidRules(config.rules) && Effect(config, job, w, now, evidenceId).Some?
    ensures RowsGo(w.rows, Effect(config, job, w, now, evidenceId).value)
    ensures TaskOfPolicy(w.rows) ==> TaskOfPolicy(Effect(config, job, w, now, evidenceId).value)
    ensures IsCancelled(Effect(config, job, w, now, evidenceId).value) ==> IsCancelled(w.rows) || (w.journal.stage.Rejecting? && Withdrew(w.journal))
  {
    hide EmissionOf, Emit, RecordPolicy, FinishApproval, RecordReceipt, FinishTask, RequestOf, ValidRules, Wakes;
    if EmissionOf(job, w.journal).Some? {
      var e := EmissionOf(job, w.journal).value;
      EmitFrame(w.rows, e.key, TaskIn(job, e.status), e.step);
      OnlyRejectingCancels(job, w.journal);
    } else if w.journal.stage.Recording? {
      RecordFrame(config, w.rows, w.journal.evaluation.value, RequestOf(job), job.task.id);
    } else if w.journal.stage.Resolving? {
      CallGoes(config, w.rows, Expire, evidenceId, now);
      CallFrame(config, w.rows, Expire, evidenceId, now);
    } else if w.journal.stage.Receiving? {
      ReceiptFrame(config, w.rows, RequestOf(job), w.journal.result.value, job.receiptId, w.journal.recordedAt.value);
    } else if w.journal.stage.Finishing? {
      FinishGoes(config, w.rows, w.journal.verifiedAt.value);
      FinishFrame(config, w.rows, w.journal.verifiedAt.value);
    }
  }

  lemma OnlyRejectingCancels(job: Job, j: Journal)
    requires EmissionOf(job, j).Some?
    ensures EmissionOf(job, j).value.status.Cancelled? <==> j.stage.Rejecting? && Withdrew(j)
  {
    hide StepIn;
  }

  /** A settled row's evidence is found again however many rows follow. */
  lemma StoredStays(job: Job, before: Rows, after: Rows)
    requires ApprovalCoherent(job, before) && RowsGo(before, after)
    requires before.approval.Some? && !IsPending(before)
    ensures after.approval == before.approval && Stored(after) == Stored(before)
    ensures forall e, status, reason, actor, at :: SettledAs(before, e, status, reason, actor, at) ==> SettledAs(after, e, status, reason, actor, at)
  {
    if after.evidence != before.evidence {
      FoundStays(before.evidence, after.evidence[|before.evidence|], before.approval.value.evidenceId.value);
    }
    hide FindEvidence, Proper;
  }

  // ---- keeping it ----

  lemma ResolvingSettles(config: Config, job: Job, w: World, now: Time, evidenceId: Id)
    requires ValidRules(config.rules) && Inv(config, job, w) && SettledInv(w) && TaskOfPolicy(w.rows) && w.rows.approval.Some?
    requires FinishApproval(config, w.rows, Expire, evidenceId, now).Some?
    ensures var (after, r) := FinishApproval(config, w.rows, Expire, evidenceId, now).value;
            !r.status.Pending? ==> after.approval.Some? && !IsPending(after) && r == Stored(after)
  {
    ApprovalFacts(config, job, w);
    CallFrame(config, w.rows, Expire, evidenceId, now);
    if IsPending(w.rows) {
      CallSettles(config, w.rows, Expire, evidenceId, now);
    } else {
      SettledReads(config, w.rows, evidenceId, now);
    }
    hide FinishApproval, Inv, SettledBy, Stored, SettledInv;
  }

  lemma SettledReads(config: Config, rows: Rows, evidenceId: Id, now: Time)
    requires FinishApproval(config, rows, Expire, evidenceId, now).Some? && rows.approval.Some? && !IsPending(rows)
    ensures FinishApproval(config, rows, Expire, evidenceId, now).value == (rows, Stored(rows))
  {
    hide Stored, FindEvidence;
  }

  lemma CoherentOf(config: Config, job: Job, w: World)
    requires ValidRules(config.rules) && Inv(config, job, w)
    ensures ApprovalCoherent(job, w.rows)
  {
    hide LedgerInv, PolicyInv, GrantInv, JournalInv, ApprovalCoherent, ValidRules;
  }

  lemma EffectKeepsSettlement(config: Config, job: Job, w: World, now: Time, evidenceId: Id)
    requires ValidRules(config.rules) && Inv(config, job, w) && PathInv(w) && SettledInv(w) && TaskOfPolicy(w.rows)
    requires Effect(config, job, w, now, evidenceId).Some?
    ensures var rows := Effect(config, job, w, now, evidenceId).value;
            SettledInv(w.(rows := rows)) && TaskOfPolicy(rows)
  {
    EffectGoes(config, job, w, now, evidenceId);
    CoherentOf(config, job, w);
    var rows := Effect(config, job, w, now, evidenceId).value;
    if w.rows.approval.Some? && !IsPending(w.rows) { StoredStays(job, w.rows, rows); }
    hide Effect, Stored, SettledAs, Inv, ApprovalCoherent, TurnedAway, Proceeds, ValidRules;
  }

  lemma AdvanceKeepsSettlement(config: Config, job: Job, w: World, now: Time, evidenceId: Id)
    requires ValidRules(config.rules) && Inv(config, job, w) && PathInv(w) && SettledInv(w) && TaskOfPolicy(w.rows)
    requires Effect(config, job, w, now, evidenceId).Some?
    ensures SettledInv(World(Effect(config, job, w, now, evidenceId).value, Journaled(config, job, w, now, evidenceId)))
  {
    EffectKeepsSettlement(config, job, w, now, evidenceId);
    ResolutionIsJournaled(config, job, w, now, evidenceId);
    if w.journal.stage.Resolving? {
      NoEmissionWhileResolving(job, w.journal);
      CallFrame(config, w.rows, Expire, evidenceId, now);
      ResolvingSettles(config, job, w, now, evidenceId);
      hide EmissionOf;
    } else {
      hide Effect;
    }
    hide Journaled, FinishApproval, Inv, PathInv, Stored, ValidRules;
  }

  lemma CallKeepsSettlement(config: Config, job: Job, w: World, call: Call, evidenceId: Id, now: Time)
    requires ValidRules(config.rules) && Inv(config, job, w) && SettledInv(w) && TaskOfPolicy(w.rows)
    requires FinishApproval(config, w.rows, call, evidenceId, now).Some?
    ensures var rows := FinishApproval(config, w.rows, call, evidenceId, now).value.0;
            SettledInv(w.(rows := rows)) && TaskOfPolicy(rows)
  {
    CallGoes(config, w.rows, call, evidenceId, now);
    CallFrame(config, w.rows, call, evidenceId, now);
    CoherentOf(config, job, w);
    var rows := FinishApproval(config, w.rows, call, evidenceId, now).value.0;
    if !IsPending(w.rows) { StoredStays(job, w.rows, rows); }
    hide FinishApproval, Stored, SettledAs, Inv, ApprovalCoherent, ValidRules;
  }

  lemma {:induction false} RunKeepsSettlement(config: Config, job: Job, version: Option<Descriptor>, trace: seq<Action>)
    requires ValidRules(config.rules)
    ensures var w := Run(config, job, version, trace); SettledInv(w) && TaskOfPolicy(w.rows)
  {
    hide Effect, Journaled, FinishApproval, Inv, PathInv, SettledInv, TaskOfPolicy, ValidRules;
    if trace == [] {
      OpeningSettlement(version);
    } else {
      var init, a := trace[..|trace| - 1], trace[|trace| - 1];
      var w := Run(config, job, version, init);
      RunKeepsSettlement(config, job, version, init);
      RunKeepsInv(config, job, version, init);
      RunKeepsPath(config, job, version, init);
      match a {
        case Advance(now, evidenceId) =>
          if Effect(config, job, w, now, evidenceId).Some? {
            EffectKeepsSettlement(config, job, w, now, evidenceId);
            AdvanceKeepsSettlement(config, job, w, now, evidenceId);
          } else {
            SameSettlement(w, Next(config, job, w, a));
          }
        case Crashed(now, evidenceId) =>
          if Effect(config, job, w, now, evidenceId).Some? { EffectKeepsSettlement(config, job, w, now, evidenceId); }
        case Outside(call, now, evidenceId) =>
          if FinishApproval(config, w.rows, call, evidenceId, now).Some? { CallKeepsSettlement(config, job, w, call, evidenceId, now); }
      }
    }
  }

  lemma OpeningSettlement(version: Option<Descriptor>)
    ensures SettledInv(Opening(version)) && TaskOfPolicy(Opening(version).rows)
  {
  }

  lemma SameSettlement(w: World, next: World)
    requires SettledInv(w) && next.rows == w.rows && next.journal.resolution == w.journal.resolution
    ensures SettledInv(next)
  {
  }

  // ---- who settled it ----

  /** The call an action makes on the approval: somebody's, or the run's own expiry at its deadline. */
  function CallOf(w: World, a: Action): Option<Call> {
    if a.Outside? then Some(a.call) else if w.journal.stage.Resolving? then Some(Expire) else None
  }

  lemma StepSettles(config: Config, job: Job, w: World, a: Action)
    requires ValidRules(config.rules) && Inv(config, job, w) && SettledInv(w) && TaskOfPolicy(w.rows)
    requires !(w.rows.approval.Some? && !IsPending(w.rows))
    requires Next(config, job, w, a).rows.approval.Some? && !IsPending(Next(config, job, w, a).rows)
    ensures IsPending(w.rows) && CallOf(w, a).Some? && Next(config, job, w, a).rows.policy == w.rows.policy && w.rows.policy.Some?
    ensures SettledBy(Next(config, job, w, a).rows, w.rows.policy.value.evaluation, CallOf(w, a).value, a.now)
  {
    if w.rows.approval.Some? { ApprovalFacts(config, job, w); }
    if a.Outside? {
      if FinishApproval(config, w.rows, a.call, a.evidenceId, a.now).Some? {
        CallFrame(config, w.rows, a.call, a.evidenceId, a.now);
        CallSettles(config, w.rows, a.call, a.evidenceId, a.now);
      }
    } else if Effect(config, job, w, a.now, a.evidenceId).Some? {
      EffectSettles(config, job, w, a.now, a.evidenceId);
    }
    hide Effect, Journaled, FinishApproval, Inv, SettledBy, TaskOfPolicy, ValidRules;
  }

  lemma EffectSettles(config: Config, job: Job, w: World, now: Time, evidenceId: Id)
    requires ValidRules(config.rules) && Inv(config, job, w) && SettledInv(w) && TaskOfPolicy(w.rows)
    requires !(w.rows.approval.Some? && !IsPending(w.rows)) && Effect(config, job, w, now, evidenceId).Some?
    ensures var rows := Effect(config, job, w, now, evidenceId).value;
            rows.approval.Some? && !IsPending(rows) ==>
              && IsPending(w.rows) && w.journal.stage.Resolving? && rows.policy == w.rows.policy && rows.policy.Some?
              && SettledBy(rows, rows.policy.value.evaluation, Expire, now)
  {
    if w.journal.stage.Resolving? {
      NoEmissionWhileResolving(job, w.journal);
      hide EmissionOf, FinishApproval, ValidRules, Inv, SettledBy, TaskOfPolicy;
      CallFrame(config, w.rows, Expire, evidenceId, now);
      ApprovalFacts(config, job, w);
      CallSettles(config, w.rows, Expire, evidenceId, now);
    } else {
      OthersSettleNothing(config, job, w, now, evidenceId);
    }
  }

  lemma OthersSettleNothing(config: Config, job: Job, w: World, now: Time, evidenceId: Id)
    requires ValidRules(config.rules) && !w.journal.stage.Resolving? && Effect(config, job, w, now, evidenceId).Some?
    ensures var rows := Effect(config, job, w, now, evidenceId).value;
            rows.approval == w.rows.approval || IsPending(rows)
  {
    hide EmissionOf, Emit, RecordPolicy, FinishApproval, RecordReceipt, FinishTask, RequestOf, ValidRules, Wakes;
    if EmissionOf(job, w.journal).Some? {
      var e := EmissionOf(job, w.journal).value;
      EmitFrame(w.rows, e.key, TaskIn(job, e.status), e.step);
    } else if w.journal.stage.Recording? {
      RecordFrame(config, w.rows, w.journal.evaluation.value, RequestOf(job), job.task.id);
    } else if w.journal.stage.Receiving? {
      ReceiptFrame(config, w.rows, RequestOf(job), w.journal.result.value, job.receiptId, w.journal.recordedAt.value);
    } else if w.journal.stage.Finishing? {
      FinishFrame(config, w.rows, w.journal.verifiedAt.value);
    }
  }

  /** An approval that has left PENDING was settled by one call of the run's history, as that call's
      kind, its sender and its moment say, and its row and evidence say so ever after. */
  lemma {:induction false} SettledByOneCall(config: Config, job: Job, version: Option<Descriptor>, trace: seq<Action>) returns (i: nat)
    requires ValidRules(config.rules)
    requires var rows := Run(config, job, version, trace).rows; rows.approval.Some? && !IsPending(rows)
    ensures i < |trace| && IsPending(Run(config, job, version, trace[..i]).rows) && Run(config, job, version, trace).rows.policy.Some?
    ensures CallOf(Run(config, job, version, trace[..i]), trace[i]).Some?
    ensures SettledBy(Run(config, job, version, trace).rows, Run(config, job, version, trace).rows.policy.value.evaluation,
                      CallOf(Run(config, job, version, trace[..i]), trace[i]).value, trace[i].now)
  {
    hide Inv, Next, SettledInv, TaskOfPolicy, SettledBy, CallOf, ValidRules;
    if trace == [] {
      assert false;
    } else {
      var n := |trace| - 1;
      var init, a := trace[..n], trace[n];
      var w := Run(config, job, version, init);
      RunKeepsInv(config, job, version, init);
      RunKeepsSettlement(config, job, version, init);
      if w.rows.approval.Some? && !IsPending(w.rows) {
        i := SettledByOneCall(config, job, version, init);
        assert init[..i] == trace[..i];
        PolicyOfApproval(config, job, version, init);
        ResolvedOnce(config, job, w, a);
        SettlementStays(config, job, w, a, CallOf(Run(config, job, version, init[..i]), init[i]).value, init[i].now);
      } else {
        StepSettles(config, job, w, a);
        i := n;
      }
    }
  }

  lemma SettlementStays(config: Config, job: Job, w: World, a: Action, call: Call, at: Time)
    requires ValidRules(config.rules) && Inv(config, job, w) && w.rows.approval.Some? && !IsPending(w.rows) && w.rows.policy.Some?
    requires SettledBy(w.rows, w.rows.policy.value.evaluation, call, at)
    ensures SettledBy(Next(config, job, w, a).rows, w.rows.policy.value.evaluation, call, at)
  {
    NextGoes(config, job, w, a);
    CoherentOf(config, job, w);
    StoredStays(job, w.rows, Next(config, job, w, a).rows);
    hide Inv, Next, ApprovalCoherent, SettledAs, ValidRules, Stored;
  }

  lemma NextGoes(config: Config, job: Job, w: World, a: Action)
    requires ValidRules(config.rules)
    ensures RowsGo(w.rows, Next(config, job, w, a).rows)
  {
    if a.Outside? {
      if FinishApproval(config, w.rows, a.call, a.evidenceId, a.now).Some? { CallGoes(config, w.rows, a.call, a.evidenceId, a.now); }
    } else if Effect(config, job, w, a.now, a.evidenceId).Some? {
      EffectGoes(config, job, w, a.now, a.evidenceId);
    }
    hide Effect, Journaled, FinishApproval, ValidRules;
  }

  // ---- where the run ends ----

  /** A run that asked and is past its gate has concluded. */
  predicate ConcludedInv(w: World) {
    var j := w.journal;
    (Authorised(j.stage) || j.stage.Ended?) && j.evaluation.Some? && j.evaluation.value.decision.NeedsApproval? ==> j.resolution.Some?
  }

  lemma AdvanceKeepsConcluded(config: Config, job: Job, w: World, now: Time, evidenceId: Id)
    requires ValidRules(config.rules) && Inv(config, job, w) && ConclusionInv(w) && ConcludedInv(w) && Effect(config, job, w, now, evidenceId).Some?
    ensures ConcludedInv(w.(journal := Journaled(config, job, w, now, evidenceId)))
  {
    ResolutionIsJournaled(config, job, w, now, evidenceId);
    JournaledFollows(config, job, w, now, evidenceId);
    Decided(config, job, w);
    hide Journaled, Effect, FinishApproval, Inv, ValidRules, Authorised, Follows;
    var next := Journaled(config, job, w, now, evidenceId).stage;
    if Follows(w.journal.stage, next) { GateStages(w.journal.stage, next); }
  }

  lemma GateStages(a: Stage, b: Stage)
    requires Follows(a, b)
    ensures Authorised(b) || b.Ended? ==> Authorised(a) || a.Ended? || a.Approving? || a.Readying? || a.Rejecting? || a.Denying?
  {
  }

  lemma Decided(config: Config, job: Job, w: World)
    requires ValidRules(config.rules) && Inv(config, job, w)
    ensures w.journal.stage.Denying? || w.journal.stage.Readying? ==> w.journal.evaluation.Some? && !w.journal.evaluation.value.decision.NeedsApproval?
  {
    hide LedgerInv, ApprovalCoherent, GrantInv, JournalInv, OwnEvaluation, RecordOf, ValidRules;
  }

  lemma {:induction false} RunKeepsConcluded(config: Config, job: Job, version: Option<Descriptor>, trace: seq<Action>)
    requires ValidRules(config.rules)
    ensures ConcludedInv(Run(config, job, version, trace))
  {
    hide Effect, Journaled, FinishApproval, Inv, ConclusionInv, ValidRules;
    if trace != [] {
      var init, a := trace[..|trace| - 1], trace[|trace| - 1];
      RunKeepsConcluded(config, job, version, init);
      RunKeepsInv(config, job, version, init);
      RunKeepsConclusion(config, job, version, init);
      var w := Run(config, job, version, init);
      if a.Advance? && Effect(config, job, w, a.now, a.evidenceId).Some? {
        AdvanceKeepsConcluded(config, job, w, a.now, a.evidenceId);
      }
    }
  }

  /** Where a run that asked for approval ends, from the calls alone. If it read the row early, its
      task has failed. If not, one call settled the approval: granted in time, the task was verified;
      withdrawn in time, it is CANCELLED; refused or expired, it has FAILED. */
  lemma EndsAsSettled(config: Config, job: Job, version: Option<Descriptor>, trace: seq<Action>) returns (i: nat)
    requires ValidRules(config.rules)
    requires var w := Run(config, job, version, trace);
             w.journal.stage.Ended? && w.rows.policy.Some? && w.rows.policy.value.evaluation.decision.NeedsApproval?
    ensures ReadEarlyBefore(config, job, version, trace, |trace|) ==>
      Run(config, job, version, trace).journal.outcome.None? && TaskFailed(Run(config, job, version, trace))
    ensures !ReadEarlyBefore(config, job, version, trace, |trace|) ==>
      && i < |trace| && CallOf(Run(config, job, version, trace[..i]), trace[i]).Some?
      && EndedBy(Run(config, job, version, trace), CallOf(Run(config, job, version, trace[..i]), trace[i]).value, trace[i].now)
  {
    var w := Run(config, job, version, trace);
    RunKeepsInv(config, job, version, trace);
    RunKeepsPath(config, job, version, trace);
    RunKeepsConcluded(config, job, version, trace);
    RunKeepsSettlement(config, job, version, trace);
    PendingMeansReadEarly(config, job, version, trace);
    RecordedEvaluation(config, job, w);
    i := 0;
    hide Run, Inv, ReadEarlyBefore, CallOf, SettledBy, Stored, ValidRules;
    if !ReadEarlyBefore(config, job, version, trace, |trace|) {
      i := SettledByOneCall(config, job, version, trace);
      SettledSays(w.rows, w.rows.policy.value.evaluation, CallOf(Run(config, job, version, trace[..i]), trace[i]).value, trace[i].now);
    }
  }

  predicate EndedBy(w: World, call: Call, at: Time)
    requires w.rows.policy.Some?
  {
    var e := w.rows.policy.value.evaluation;
    && SettledBy(w.rows, e, call, at)
    && if at < e.expiresAt.value && call.Answer? && call.grant then w.journal.outcome.Some?
       else
         && w.journal.outcome.None? && w.rows.task.Some?
         && w.rows.task.value.status == if at < e.expiresAt.value && call.Cancel? then TaskStatus.Cancelled else TaskStatus.Failed
  }

  lemma SettledSays(rows: Rows, e: Evaluation, call: Call, at: Time)
    requires SettledBy(rows, e, call, at)
    ensures rows.approval.Some?
    ensures Stored(rows).status.Granted? <==> at < e.expiresAt.value && call.Answer? && call.grant
    ensures Stored(rows).reason == Some(Withdrawn) <==> at < e.expiresAt.value && call.Cancel?
  {
    hide FindEvidence;
  }

  /** A run turned away ends at its next finished step. */
  lemma RejectingEnds(config: Config, job: Job, w: World, now: Time, evidenceId: Id)
    requires ValidRules(config.rules) && Inv(config, job, w) && w.journal.stage.Rejecting?
    ensures Next(config, job, w, Advance(now, evidenceId)).journal == w.journal.(stage := Ended)
  {
    RejectedTask(config, job, w, now, evidenceId);
    hide Effect, Inv, ValidRules;
  }
}
