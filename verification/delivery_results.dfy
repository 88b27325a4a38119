/** What became of each attempt: the log and the row say what the transport answered. */
module DeliveryResults {
  import opened Options
  import opened AlertTypes
  import opened Outbox
  import opened Delivery

  // ---- one step ----

  /** Everything about the row but its standing. */
  predicate SameNotice(before: OutboxRow, after: OutboxRow) {
    after.intent == before.intent && after.attemptCount == before.attemptCount && after.lastAttemptAt == before.lastAttemptAt
  }

  /** An attempt's answer, as the row and the event tell it. */
  predicate Tells(claim: OutboxRow, attempt: AttemptResult, config: DeliveryConfig, after: OutboxRow, e: DeliveryEvent)
    requires claim.lastAttemptAt.Some?
  {
    var at := claim.lastAttemptAt.value;
    && SameNotice(claim, after) && e.attemptNumber == claim.attemptCount && e.attemptedAt == at
    && match attempt
       case Accepted =>
         && after.status.Delivered? && after.deliveredAt == Some(at) && after.lastError.None?
         && e.outcome.DeliveredOk? && e.errorClass.None?
       case Failed(permanent, errorClass) =>
         && after.lastError == Some(errorClass) && after.deliveredAt == claim.deliveredAt && e.errorClass == Some(errorClass)
         && (if permanent then after.status.Poison? && e.outcome.PermanentFailure?
             else
               && e.outcome.TransientFailure?
               && (if claim.attemptCount >= config.maxAttempts then after.status.Poison?
                   else after.status.Pending? && after.nextAttemptAt == at + ComputeBackoffMs(claim.attemptCount, config)))
  }

  lemma FinishTells(w: World, id: NotificationId, attempt: AttemptResult, transport: string, config: DeliveryConfig)
    requires Inv(w, config) && Step(w, Finish(id, attempt, transport), config).Some?
    ensures var after := Step(w, Finish(id, attempt, transport), config).value;
            && id in w.rows && w.rows[id].status.Sending? && w.rows[id].lastAttemptAt.Some? && id in after.rows
            && |after.events| == |w.events| + 1 && after.events[..|w.events|] == w.events
            && var e := after.events[|w.events|];
               && e.id == id && e.transport == transport
               && Tells(w.rows[id], attempt, config, after.rows[id], e)
               && after.rows == w.rows[id := after.rows[id]]
  {
    hide ComputeBackoffMs, RowInv;
  }

  /** A recovery offers the row again at once, and only when its attempt is old enough to be dead. */
  lemma RecoveryTells(w: World, id: NotificationId, now: Time, transport: string, config: DeliveryConfig)
    requires Inv(w, config) && Step(w, Recover(id, now, transport), config).Some?
    ensures var after := Step(w, Recover(id, now, transport), config).value;
            && id in w.rows && w.rows[id].status.Sending? && w.rows[id].lastAttemptAt.Some? && id in after.rows
            && now >= w.rows[id].lastAttemptAt.value + config.staleSendingMs
            && |after.events| == |w.events| + 1 && after.events[..|w.events|] == w.events
            && after.events[|w.events|] == DeliveryEvent(id, w.rows[id].attemptCount, now, AmbiguousRecovered, None, transport)
            && after.rows == w.rows[id := after.rows[id]] && SameNotice(w.rows[id], after.rows[id])
            && after.rows[id].status.Pending? && after.rows[id].nextAttemptAt == now
  {
    hide RowInv;
  }

  /** A claim starts attempt number one more, on a row that was due. */
  lemma ClaimTells(w: World, id: NotificationId, now: Time, config: DeliveryConfig)
    requires Step(w, Claim(id, now), config).Some?
    ensures var after := Step(w, Claim(id, now), config).value;
            && id in w.rows && w.rows[id].status.Pending? && w.rows[id].nextAttemptAt <= now && id in after.rows
            && after.events == w.events && after.rows == w.rows[id := after.rows[id]]
            && after.rows[id].intent == w.rows[id].intent && after.rows[id].status.Sending?
            && after.rows[id].attemptCount == w.rows[id].attemptCount + 1 && after.rows[id].lastAttemptAt == Some(now)
  {
  }

  // ---- whole runs ----

  /** The step that makes such an event. */
  predicate Makes(a: Action, e: DeliveryEvent) {
    match e.outcome
    case DeliveredOk => a == Finish(e.id, Accepted, e.transport) && e.errorClass.None?
    case PermanentFailure => e.errorClass.Some? && a == Finish(e.id, Failed(true, e.errorClass.value), e.transport)
    case TransientFailure => e.errorClass.Some? && a == Finish(e.id, Failed(false, e.errorClass.value), e.transport)
    case AmbiguousRecovered => a == Recover(e.id, e.attemptedAt, e.transport) && e.errorClass.None?
  }

  lemma StepMakes(w: World, a: Action, config: DeliveryConfig)
    requires Inv(w, config) && Step(w, a, config).Some?
    ensures var after := Step(w, a, config).value;
            if a.Finish? || a.Recover? then
              |after.events| == |w.events| + 1 && after.events[..|w.events|] == w.events && Makes(a, after.events[|w.events|])
            else after.events == w.events
  {
    match a {
      case Finish(id, attempt, transport) => FinishTells(w, id, attempt, transport, config); hide Step, Inv, ComputeBackoffMs;
      case Recover(id, now, transport) => RecoveryTells(w, id, now, transport, config); hide Step, Inv;
      case _ => hide EnqueueAll;
    }
  }

  /** Every event of a run was made by one of its steps, which answered it so. */
  lemma {:induction false} EventWasMade(trace: seq<Action>, k: nat, config: DeliveryConfig) returns (i: nat)
    requires Exec(EMPTY, trace, config).Some? && k < |Exec(EMPTY, trace, config).value.events|
    ensures i < |trace| && Makes(trace[i], Exec(EMPTY, trace, config).value.events[k])
  {
    hide Step, Makes, Inv;
    if trace == [] {
      assert false;
    } else {
      var init := trace[..|trace| - 1];
      var w := Exec(EMPTY, init, config).value;
      RunReaches(init, config);
      StepMakes(w, trace[|trace| - 1], config);
      var after := Exec(EMPTY, trace, config).value;
      if k < |w.events| {
        i := EventWasMade(init, k, config);
        assert after.events[k] == after.events[..|w.events|][k];
      } else {
        i := |trace| - 1;
      }
    }
  }

  lemma RunReaches(trace: seq<Action>, config: DeliveryConfig)
    requires Exec(EMPTY, trace, config).Some?
    ensures Inv(Exec(EMPTY, trace, config).value, config)
  {
    hide Exec, RowInv;
    RunsKeepInv(EMPTY, trace, config);
  }

  lemma {:induction false} EventsOnlyGrow(w: World, more: seq<Action>, config: DeliveryConfig)
    requires Inv(w, config) && Exec(w, more, config).Some?
    ensures w.events <= Exec(w, more, config).value.events
  {
    hide Step, Inv, Makes;
    if more != [] {
      var init := more[..|more| - 1];
      EventsOnlyGrow(w, init, config);
      RunsKeepInv(w, init, config);
      StepMakes(Exec(w, init, config).value, more[|more| - 1], config);
    }
  }

  lemma {:induction false} LogHasEvent(events: seq<DeliveryEvent>, k: nat)
    requires k < |events|
    ensures events[k] in Log(events, events[k].id)
  {
    if k < |events| - 1 { LogHasEvent(events[..|events| - 1], k); }
  }

  lemma {:induction false} LogIsEvents(events: seq<DeliveryEvent>, e: DeliveryEvent)
    requires e in Log(events, e.id)
    ensures e in events
  {
    if events != [] {
      var init, last := events[..|events| - 1], events[|events| - 1];
      assert events == init + [last];
      LogSnoc(init, last, e.id);
      if e in Log(init, e.id) { LogIsEvents(init, e); }
    }
  }

  /** Step `i` recorded that the transport accepted the notification. */
  predicate Accepts(trace: seq<Action>, i: nat, id: NotificationId)
    requires i < |trace|
  {
    trace[i].Finish? && trace[i].id == id && trace[i].attempt.Accepted?
  }

  /** A notification is DELIVERED exactly when, in the whole run, some attempt of it was accepted. */
  lemma DeliveredExactlyWhenAccepted(trace: seq<Action>, id: NotificationId, config: DeliveryConfig)
    requires Exec(EMPTY, trace, config).Some? && id in Exec(EMPTY, trace, config).value.rows
    ensures Exec(EMPTY, trace, config).value.rows[id].status.Delivered? <==> exists i: nat :: i < |trace| && Accepts(trace, i, id)
  {
    EventLogIsAttempts(trace, id, config);
    var w := Exec(EMPTY, trace, config).value;
    var log := Log(w.events, id);
    hide Exec, Log;
    if w.rows[id].status.Delivered? {
      var k :| 0 <= k < |log| && log[k].outcome.DeliveredOk?;
      assert log[k] in log;
      LogIsEvents(w.events, log[k]);
      var m :| 0 <= m < |w.events| && w.events[m] == log[k];
      var i := EventWasMade(trace, m, config);
      assert Accepts(trace, i, id);
    }
    forall i: nat | i < |trace| && Accepts(trace, i, id) ensures w.rows[id].status.Delivered? {
      AcceptedIsLogged(trace, i, id, config);
    }
  }

  lemma AcceptedIsLogged(trace: seq<Action>, i: nat, id: NotificationId, config: DeliveryConfig)
    requires Exec(EMPTY, trace, config).Some? && i < |trace| && Accepts(trace, i, id)
    ensures exists e :: e in Log(Exec(EMPTY, trace, config).value.events, id) && e.outcome.DeliveredOk?
  {
    var first, more := trace[..i + 1], trace[i + 1..];
    assert trace == first + more;
    ExecSplits(EMPTY, first, more, config);
    assert first[..i] == trace[..i] && first[..|first| - 1] == trace[..i];
    RunReaches(trace[..i], config);
    RunReaches(first, config);
    var before, after := Exec(EMPTY, trace[..i], config).value, Exec(EMPTY, first, config).value;
    StepMakes(before, trace[i], config);
    EventsOnlyGrow(after, more, config);
    hide Exec, Step, Inv, Log;
    var events := Exec(EMPTY, trace, config).value.events;
    var e := after.events[|before.events|];
    assert events[|before.events|] == e && e.id == id;
    LogHasEvent(events, |before.events|);
  }

  lemma {:induction false} ExecSplits(w: World, first: seq<Action>, more: seq<Action>, config: DeliveryConfig)
    requires Exec(w, first + more, config).Some?
    ensures Exec(w, first, config).Some? && Exec(w, first + more, config) == Exec(Exec(w, first, config).value, more, config)
    decreases |more|
  {
    hide Step;
    if more == [] {
      assert first + more == first;
    } else {
      var all := first + more;
      assert all[..|all| - 1] == first + more[..|more| - 1];
      ExecSplits(w, first, more[..|more| - 1], config);
    }
  }
}
