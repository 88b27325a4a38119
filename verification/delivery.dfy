/** Crash-tolerant delivery as a state machine over store calls, and what every run keeps. */
module Delivery {
  import opened Options
  import opened AlertTypes
  import opened Outbox

  /** The durable tables plus the attempts some process is in the middle of. A process that dies
      takes its attempt with it and leaves the row SENDING. */
  datatype World = World(
    rows: map<NotificationId, OutboxRow>,
    events: seq<DeliveryEvent>,
    live: map<NotificationId, OutboxRow>)

  const EMPTY := World(map[], [], map[])

  datatype Action =
    | Queue(intents: seq<Intent>)
    | Claim(id: NotificationId, now: Time)
    | Finish(id: NotificationId, attempt: AttemptResult, transport: string)
    | Recover(id: NotificationId, now: Time, transport: string)
    | Crash(id: NotificationId)

  function Append(w: World, row: OutboxRow, d: DeliveryDecision, now: Time, transport: string): World {
    World(
      w.rows[d.row.intent.id := d.row],
      w.events + [DeliveryEvent(d.row.intent.id, row.attemptCount, now, d.outcome, d.errorClass, transport)],
      w.live - {d.row.intent.id})
  }

  /** What recording the outcome of a claim does, whatever the row looks like by then. */
  function RecordOutcome(w: World, claim: OutboxRow, attempt: AttemptResult, transport: string, config: DeliveryConfig): World
    requires claim.lastAttemptAt.Some?
  {
    var now := claim.lastAttemptAt.value;
    Append(w, claim, DecideNextOutboxState(claim, attempt, now, config), now, transport)
  }

  /** One store call, or a crash. Recovery is only taken while no process still holds the row's
      attempt: the exclusive lock gives this for the worker, and an attempt that ends within
      `staleSendingMs` of its claim gives it for direct delivery. */
  function Step(w: World, a: Action, config: DeliveryConfig): Option<World> {
    match a
    case Queue(intents) => Some(w.(rows := EnqueueAll(w.rows, intents)))
    case Claim(id, now) =>
      if id in w.rows && Due(w.rows[id], now) then
        var claimed := Claimed(w.rows[id], now);
        Some(w.(rows := w.rows[id := claimed], live := w.live[id := claimed]))
      else None
    case Finish(id, attempt, transport) =>
      if id in w.live && w.live[id].lastAttemptAt.Some?
      then Some(RecordOutcome(w, w.live[id], attempt, transport, config))
      else None
    case Recover(id, now, transport) =>
      if id in w.rows && id !in w.live && Stale(w.rows[id], now, config.staleSendingMs) then
        var d := RecoverIfStaleSending(w.rows[id], now, config).value;
        Some(Append(w, w.rows[id], d, now, transport))
      else None
    case Crash(id) => if id in w.live then Some(w.(live := w.live - {id})) else None
  }

  function Exec(w: World, trace: seq<Action>, config: DeliveryConfig): Option<World> {
    if trace == [] then Some(w)
    else
      var before := Exec(w, trace[..|trace| - 1], config);
      if before.None? then None else Step(before.value, trace[|trace| - 1], config)
  }

  lemma ExecSnoc(w: World, trace: seq<Action>, a: Action, config: DeliveryConfig)
    requires Exec(w, trace, config).Some?
    ensures Exec(w, trace + [a], config) == Step(Exec(w, trace, config).value, a, config)
  {
    assert (trace + [a])[..|trace|] == trace;
  }

  // ---- the log of one notification ----

  function Log(events: seq<DeliveryEvent>, id: NotificationId): (log: seq<DeliveryEvent>)
    ensures forall e | e in log :: e.id == id
  {
    if events == [] then []
    else
      var rest := Log(events[..|events| - 1], id);
      if events[|events| - 1].id == id then rest + [events[|events| - 1]] else rest
  }

  lemma LogSnoc(events: seq<DeliveryEvent>, e: DeliveryEvent, id: NotificationId)
    ensures Log(events + [e], id) == if e.id == id then Log(events, id) + [e] else Log(events, id)
  {
    assert (events + [e])[..|events|] == events;
  }

  /** An outcome after which the row is offered for delivery again. */
  predicate Retryable(e: DeliveryEvent, config: DeliveryConfig) {
    e.outcome.AmbiguousRecovered? || (e.outcome.TransientFailure? && e.attemptNumber < config.maxAttempts)
  }

  /** Earliest moment the next attempt may start. */
  function NotBefore(e: DeliveryEvent, config: DeliveryConfig): Time {
    if e.outcome.TransientFailure? then e.attemptedAt + ComputeBackoffMs(e.attemptNumber, config) else e.attemptedAt
  }

  /** Attempts numbered 1, 2, ... with one event each, every one but the last retryable, and each
      starting only after the previous one's delay. */
  predicate OrderlyLog(log: seq<DeliveryEvent>, createdAt: Time, config: DeliveryConfig) {
    && (forall k | 0 <= k < |log| :: log[k].attemptNumber == k + 1)
    && (forall k | 0 <= k < |log| - 1 :: Retryable(log[k], config))
    && (forall k | 0 <= k < |log| :: log[k].attemptedAt >= ReadyAt(log, k, createdAt, config))
  }

  function ReadyAt(log: seq<DeliveryEvent>, k: nat, createdAt: Time, config: DeliveryConfig): Time
    requires k <= |log|
  {
    if k == 0 then createdAt else NotBefore(log[k - 1], config)
  }

  predicate Settled(row: OutboxRow) {
    row.status.Delivered? || row.status.Poison?
  }

  /** What ties a row to its log. */
  predicate RowInv(row: OutboxRow, log: seq<DeliveryEvent>, config: DeliveryConfig) {
    var createdAt := row.intent.createdAt;
    && OrderlyLog(log, createdAt, config)
    && match row.status
       case Pending =>
         && row.attemptCount == |log|
         && (log != [] ==> Retryable(log[|log| - 1], config))
         && row.nextAttemptAt == ReadyAt(log, |log|, createdAt, config)
       case Sending =>
         && row.attemptCount == |log| + 1
         && (log != [] ==> Retryable(log[|log| - 1], config))
         && row.lastAttemptAt.Some? && row.lastAttemptAt.value >= ReadyAt(log, |log|, createdAt, config)
       case Delivered =>
         && row.attemptCount == |log| && log != []
         && log[|log| - 1].outcome.DeliveredOk? && row.deliveredAt == Some(log[|log| - 1].attemptedAt)
       case Poison =>
         && row.attemptCount == |log| && log != []
         && (log[|log| - 1].outcome.PermanentFailure?
             || (log[|log| - 1].outcome.TransientFailure? && |log| >= config.maxAttempts))
  }

  ghost predicate TablesInv(rows: map<NotificationId, OutboxRow>, events: seq<DeliveryEvent>, config: DeliveryConfig) {
    && KeyedById(rows)
    && (forall id {:trigger Log(events, id)} | id in rows :: RowInv(rows[id], Log(events, id), config))
    && (forall id | id !in rows :: Log(events, id) == [])
  }

  ghost predicate Inv(w: World, config: DeliveryConfig) {
    && TablesInv(w.rows, w.events, config)
    && forall id | id in w.live :: id in w.rows && w.live[id] == w.rows[id] && w.rows[id].status.Sending?
  }

  // ---- every step keeps the invariant ----

  lemma FreshRowInv(intent: Intent, config: DeliveryConfig)
    ensures RowInv(FreshRow(intent), [], config)
  {
  }

  lemma QueueKeepsInv(w: World, intents: seq<Intent>, config: DeliveryConfig)
    requires Inv(w, config)
    ensures Inv(w.(rows := EnqueueAll(w.rows, intents)), config)
  {
    hide RowInv, EnqueueAll, Log;
    var rows := EnqueueAll(w.rows, intents);
    forall id ensures id in rows ==> rows[id].intent.id == id && RowInv(rows[id], Log(w.events, id), config) {
      EnqueuedRows(w.rows, intents, id);
      if id in rows && id !in w.rows {
        var i :| i in intents && i.id == id && rows[id] == FreshRow(i);
        FreshRowInv(i, config);
      }
    }
  }

  lemma ClaimKeepsRow(row: OutboxRow, log: seq<DeliveryEvent>, now: Time, config: DeliveryConfig)
    requires RowInv(row, log, config) && Due(row, now)
    ensures RowInv(Claimed(row, now), log, config)
  {
    hide OrderlyLog;
  }

  lemma ClaimKeepsInv(w: World, id: NotificationId, now: Time, config: DeliveryConfig)
    requires Inv(w, config)
    requires Step(w, Claim(id, now), config).Some?
    ensures Inv(Step(w, Claim(id, now), config).value, config)
  {
    hide RowInv, Log;
    assert RowInv(w.rows[id], Log(w.events, id), config);
    ClaimKeepsRow(w.rows[id], Log(w.events, id), now, config);
  }

  /** The decision taken for a claimed row extends its log by exactly the claimed attempt. */
  lemma OutcomeKeepsRow(claim: OutboxRow, log: seq<DeliveryEvent>, attempt: AttemptResult, transport: string, config: DeliveryConfig)
    requires claim.status.Sending? && RowInv(claim, log, config)
    ensures var now := claim.lastAttemptAt.value;
            var d := DecideNextOutboxState(claim, attempt, now, config);
            var e := DeliveryEvent(claim.intent.id, claim.attemptCount, now, d.outcome, d.errorClass, transport);
            RowInv(d.row, log + [e], config) && d.row.intent == claim.intent
  {
    var now := claim.lastAttemptAt.value;
    var d := DecideNextOutboxState(claim, attempt, now, config);
    var e := DeliveryEvent(claim.intent.id, claim.attemptCount, now, d.outcome, d.errorClass, transport);
    ExtendLog(log, e, claim.intent.createdAt, config);
  }

  lemma ExtendLog(log: seq<DeliveryEvent>, e: DeliveryEvent, createdAt: Time, config: DeliveryConfig)
    requires OrderlyLog(log, createdAt, config)
    requires log != [] ==> Retryable(log[|log| - 1], config)
    requires e.attemptNumber == |log| + 1
    requires e.attemptedAt >= ReadyAt(log, |log|, createdAt, config)
    ensures OrderlyLog(log + [e], createdAt, config)
  {
    var more := log + [e];
    forall k | 0 <= k < |more| ensures more[k].attemptedAt >= ReadyAt(more, k, createdAt, config) {
      if k < |log| { assert ReadyAt(more, k, createdAt, config) == ReadyAt(log, k, createdAt, config); }
    }
  }

  lemma AppendKeepsInv(w: World, row: OutboxRow, d: DeliveryDecision, now: Time, transport: string, config: DeliveryConfig)
    requires Inv(w, config)
    requires row.intent.id in w.rows && d.row.intent.id == row.intent.id
    requires var e := DeliveryEvent(row.intent.id, row.attemptCount, now, d.outcome, d.errorClass, transport);
             RowInv(d.row, Log(w.events, row.intent.id) + [e], config)
    ensures Inv(Append(w, row, d, now, transport), config)
  {
    hide RowInv, Log;
    var id := row.intent.id;
    var e := DeliveryEvent(id, row.attemptCount, now, d.outcome, d.errorClass, transport);
    var after := Append(w, row, d, now, transport);
    forall x ensures Log(after.events, x) == if x == id then Log(w.events, x) + [e] else Log(w.events, x) {
      LogSnoc(w.events, e, x);
    }
  }

  lemma RecoveryKeepsRow(row: OutboxRow, log: seq<DeliveryEvent>, now: Time, transport: string, config: DeliveryConfig)
    requires RowInv(row, log, config) && Stale(row, now, config.staleSendingMs)
    ensures var d := RecoverIfStaleSending(row, now, config).value;
            var e := DeliveryEvent(row.intent.id, row.attemptCount, now, d.outcome, d.errorClass, transport);
            RowInv(d.row, log + [e], config)
  {
    var d := RecoverIfStaleSending(row, now, config).value;
    var e := DeliveryEvent(row.intent.id, row.attemptCount, now, d.outcome, d.errorClass, transport);
    ExtendLog(log, e, row.intent.createdAt, config);
  }

  lemma StepKeepsInv(w: World, a: Action, config: DeliveryConfig)
    requires Inv(w, config) && Step(w, a, config).Some?
    ensures Inv(Step(w, a, config).value, config)
  {
    match a {
      case Queue(intents) => QueueKeepsInv(w, intents, config);
      case Claim(id, now) => ClaimKeepsInv(w, id, now, config);
      case Finish(id, attempt, transport) =>
        var claim := w.live[id];
        assert RowInv(w.rows[id], Log(w.events, id), config);
        OutcomeKeepsRow(claim, Log(w.events, id), attempt, transport, config);
        var now := claim.lastAttemptAt.value;
        AppendKeepsInv(w, claim, DecideNextOutboxState(claim, attempt, now, config), now, transport, config);
      case Recover(id, now, transport) =>
        var row := w.rows[id];
        assert RowInv(row, Log(w.events, id), config);
        RecoveryKeepsRow(row, Log(w.events, id), now, transport, config);
        AppendKeepsInv(w, row, RecoverIfStaleSending(row, now, config).value, now, transport, config);
      case Crash(id) =>
    }
  }

  /** Every run, whatever crashes and interleaves, keeps the invariant. */
  lemma {:induction false} RunsKeepInv(w: World, trace: seq<Action>, config: DeliveryConfig)
    requires Inv(w, config) && Exec(w, trace, config).Some?
    ensures Inv(Exec(w, trace, config).value, config)
  {
    if trace != [] {
      var init := trace[..|trace| - 1];
      RunsKeepInv(w, init, config);
      StepKeepsInv(Exec(w, init, config).value, trace[|trace| - 1], config);
    }
  }

  function Attempts(row: OutboxRow): nat {
    if row.status.Sending? && row.attemptCount > 0 then row.attemptCount - 1 else row.attemptCount
  }

  /** What the invariant says of one log: the attempts in order, one event each, and at most one
      delivery, which is the last event of a DELIVERED row. */
  lemma LogOfRow(row: OutboxRow, log: seq<DeliveryEvent>, config: DeliveryConfig)
    requires RowInv(row, log, config)
    ensures |log| == Attempts(row)
    ensures forall k | 0 <= k < |log| :: log[k].attemptNumber == k + 1
    ensures forall k | 0 <= k < |log| && log[k].outcome.DeliveredOk? :: k == |log| - 1
    ensures (exists k :: 0 <= k < |log| && log[k].outcome.DeliveredOk?) <==> row.status.Delivered?
  {
    hide ReadyAt;
    if row.status.Delivered? {
      assert log[|log| - 1].outcome.DeliveredOk?;
    }
  }

  /** In every reachable world. */
  lemma EventLogIsAttempts(trace: seq<Action>, id: NotificationId, config: DeliveryConfig)
    requires Exec(EMPTY, trace, config).Some?
    requires id in Exec(EMPTY, trace, config).value.rows
    ensures var w := Exec(EMPTY, trace, config).value;
            var log := Log(w.events, id);
            && |log| == Attempts(w.rows[id])
            && (forall k | 0 <= k < |log| :: log[k].attemptNumber == k + 1)
            && (forall k | 0 <= k < |log| && log[k].outcome.DeliveredOk? :: k == |log| - 1)
            && ((exists k :: 0 <= k < |log| && log[k].outcome.DeliveredOk?) <==> w.rows[id].status.Delivered?)
  {
    hide Exec, RowInv;
    ReachableRow(trace, id, config);
    var w := Exec(EMPTY, trace, config).value;
    LogOfRow(w.rows[id], Log(w.events, id), config);
  }

  lemma ReachableRow(trace: seq<Action>, id: NotificationId, config: DeliveryConfig)
    requires Exec(EMPTY, trace, config).Some?
    requires id in Exec(EMPTY, trace, config).value.rows
    ensures var w := Exec(EMPTY, trace, config).value; RowInv(w.rows[id], Log(w.events, id), config)
  {
    hide Exec, RowInv;
    RunsKeepInv(EMPTY, trace, config);
    var w := Exec(EMPTY, trace, config).value;
    var log := Log(w.events, id);
  }

  lemma SpacingOfLog(log: seq<DeliveryEvent>, createdAt: Time, k: nat, config: DeliveryConfig)
    requires OrderlyLog(log, createdAt, config) && k + 1 < |log|
    ensures log[k + 1].attemptedAt >= log[k].attemptedAt
    ensures log[k].outcome.TransientFailure? ==>
      log[k + 1].attemptedAt >= log[k].attemptedAt + ComputeBackoffMs(k + 1, config)
  {
    assert log[k + 1].attemptedAt >= ReadyAt(log, k + 1, createdAt, config);
  }

  /** No attempt starts before the delay its predecessor earned, in any run and on any clock. */
  lemma RetriesWait(trace: seq<Action>, id: NotificationId, k: nat, config: DeliveryConfig)
    requires Exec(EMPTY, trace, config).Some?
    requires id in Exec(EMPTY, trace, config).value.rows
    requires k + 1 < |Log(Exec(EMPTY, trace, config).value.events, id)|
    ensures var log := Log(Exec(EMPTY, trace, config).value.events, id);
            && log[k + 1].attemptedAt >= log[k].attemptedAt
            && (log[k].outcome.TransientFailure? ==>
                  log[k + 1].attemptedAt >= log[k].attemptedAt + ComputeBackoffMs(k + 1, config))
  {
    hide Exec, ComputeBackoffMs;
    ReachableRow(trace, id, config);
    var w := Exec(EMPTY, trace, config).value;
    SpacingOfLog(Log(w.events, id), w.rows[id].intent.createdAt, k, config);
  }

  // ---- bounded attempts ----

  function Recoveries(log: seq<DeliveryEvent>): (n: nat)
    ensures n <= |log|
  {
    if log == [] then 0
    else Recoveries(log[..|log| - 1]) + if log[|log| - 1].outcome.AmbiguousRecovered? then 1 else 0
  }

  lemma {:induction false} LateEventsAreRecoveries(log: seq<DeliveryEvent>, config: DeliveryConfig)
    requires forall k | 0 <= k < |log| :: log[k].attemptNumber == k + 1 && Retryable(log[k], config)
    ensures config.maxAttempts > 0 ==> |log| < config.maxAttempts + Recoveries(log)
    ensures |log| <= config.maxAttempts + Recoveries(log)
  {
    if log != [] {
      LateEventsAreRecoveries(log[..|log| - 1], config);
      assert Retryable(log[|log| - 1], config);
    }
  }

  lemma RowBudget(row: OutboxRow, log: seq<DeliveryEvent>, config: DeliveryConfig)
    requires RowInv(row, log, config)
    ensures row.attemptCount <= Budget(config) + Recoveries(log)
  {
    hide ReadyAt;
    if row.status.Pending? || row.status.Sending? {
      LateEventsAreRecoveries(log, config);
    } else {
      LateEventsAreRecoveries(log[..|log| - 1], config);
    }
  }

  function Budget(config: DeliveryConfig): nat {
    if config.maxAttempts == 0 then 1 else config.maxAttempts
  }

  /** A row is claimed at most `maxAttempts` times plus once per crash recovery (and once at all,
      should `maxAttempts` be zero). */
  lemma AttemptsAreBounded(trace: seq<Action>, id: NotificationId, config: DeliveryConfig)
    requires Exec(EMPTY, trace, config).Some?
    requires id in Exec(EMPTY, trace, config).value.rows
    ensures var w := Exec(EMPTY, trace, config).value;
            w.rows[id].attemptCount <= Budget(config) + Recoveries(Log(w.events, id))
  {
    hide Exec, RowInv;
    ReachableRow(trace, id, config);
    var w := Exec(EMPTY, trace, config).value;
    RowBudget(w.rows[id], Log(w.events, id), config);
  }

  // ---- settled rows ----

  lemma StepKeepsSettled(w: World, a: Action, id: NotificationId, config: DeliveryConfig)
    requires Inv(w, config) && Step(w, a, config).Some?
    requires id in w.rows && Settled(w.rows[id])
    ensures var after := Step(w, a, config).value;
            id in after.rows && after.rows[id] == w.rows[id] && Log(after.events, id) == Log(w.events, id)
  {
    hide RowInv, Log, EnqueueAll;
    var after := Step(w, a, config).value;
    if a.Finish? || a.Recover? {
      assert a.id != id;
      assert after.events == w.events + [after.events[|w.events|]];
      LogSnoc(w.events, after.events[|w.events|], id);
    }
  }

  /** DELIVERED and POISON rows, and their logs, never change again. */
  lemma {:induction false} SettledForEver(w: World, trace: seq<Action>, id: NotificationId, config: DeliveryConfig)
    requires Inv(w, config) && Exec(w, trace, config).Some?
    requires id in w.rows && Settled(w.rows[id])
    ensures var after := Exec(w, trace, config).value;
            id in after.rows && after.rows[id] == w.rows[id] && Log(after.events, id) == Log(w.events, id)
  {
    if trace != [] {
      var init := trace[..|trace| - 1];
      SettledForEver(w, init, id, config);
      RunsKeepInv(w, init, config);
      StepKeepsSettled(Exec(w, init, config).value, trace[|trace| - 1], id, config);
    }
  }

  // ---- why recovery must not overtake a live attempt ----

  /** `applyOutcome` writes whatever row it is handed. Handed an old claim it keeps the row and its
      log in step exactly when the stored row is still SENDING with that claim's attempt number,
      which a guard in the update could test. */
  lemma LateOutcomeSafeIffStillClaimed(
      stored: OutboxRow, log: seq<DeliveryEvent>, claim: OutboxRow, attempt: AttemptResult, transport: string, config: DeliveryConfig)
    requires RowInv(stored, log, config)
    requires claim.status.Sending? && claim.intent == stored.intent
    requires 0 < claim.attemptCount <= stored.attemptCount
    requires RowInv(claim, log[..claim.attemptCount - 1], config)
    ensures var now := claim.lastAttemptAt.value;
            var d := DecideNextOutboxState(claim, attempt, now, config);
            var e := DeliveryEvent(claim.intent.id, claim.attemptCount, now, d.outcome, d.errorClass, transport);
            RowInv(d.row, log + [e], config) <==> stored.status.Sending? && stored.attemptCount == claim.attemptCount
  {
    var now := claim.lastAttemptAt.value;
    var d := DecideNextOutboxState(claim, attempt, now, config);
    var e := DeliveryEvent(claim.intent.id, claim.attemptCount, now, d.outcome, d.errorClass, transport);
    if stored.status.Sending? && stored.attemptCount == claim.attemptCount {
      assert log[..claim.attemptCount - 1] == log;
      OutcomeKeepsRow(claim, log, attempt, transport, config);
    } else {
      assert |log| >= claim.attemptCount;
      assert d.row.attemptCount == claim.attemptCount && |log + [e]| > claim.attemptCount;
      assert !d.row.status.Sending?;
    }
  }

  /** The failing run: an attempt outlives the stale window, the row is recovered and delivered by
      somebody else, then the first process reports a timeout. The delivered row turns PENDING. */
  lemma LateOutcomeRevivesDelivered(intent: Intent, config: DeliveryConfig)
    returns (trace: seq<Action>, claim: OutboxRow, late: World)
    requires config.maxAttempts >= 2
    ensures Exec(EMPTY, trace, config).Some?
    ensures var w := Exec(EMPTY, trace, config).value;
            && intent.id in w.rows && w.rows[intent.id].status.Delivered?
            && claim.lastAttemptAt.Some?
            && late == RecordOutcome(w, claim, Failed(false, "Timeout"), "direct", config)
            && intent.id in late.rows && late.rows[intent.id].status.Pending?
            && !RowInv(late.rows[intent.id], Log(late.events, intent.id), config)
  {
    hide Exec, RowInv, EnqueueAll, ComputeBackoffMs;
    var id, t, t' := intent.id, intent.createdAt, intent.createdAt + config.staleSendingMs;
    var w, tr := Begin(intent, config);
    claim := Claimed(FreshRow(intent), t);
    w, tr := Then(w, tr, Claim(id, t), config);
    w, tr := Then(w, tr, Crash(id), config);
    w, tr := Then(w, tr, Recover(id, t', "worker"), config);
    w, tr := Then(w, tr, Claim(id, t'), config);
    w, tr := Then(w, tr, Finish(id, Accepted, "worker"), config);
    trace := tr;
    late := RecordOutcome(w, claim, Failed(false, "Timeout"), "direct", config);
    ReachableRow(trace, id, config);
    LogOfRow(w.rows[id], Log(w.events, id), config);
    var e := late.events[|w.events|];
    assert late.events == w.events + [e];
    LogSnoc(w.events, e, id);
    PendingCountsItsLog(late.rows[id], Log(late.events, id), config);
  }

  lemma PendingCountsItsLog(row: OutboxRow, log: seq<DeliveryEvent>, config: DeliveryConfig)
    requires row.status.Pending? && row.attemptCount != |log|
    ensures !RowInv(row, log, config)
  {
  }

  lemma Begin(intent: Intent, config: DeliveryConfig) returns (w: World, trace: seq<Action>)
    ensures Exec(EMPTY, trace, config) == Some(w)
    ensures w == EMPTY.(rows := map[intent.id := FreshRow(intent)])
  {
    trace := [Queue([intent])];
    ExecSnoc(EMPTY, [], Queue([intent]), config);
    assert [] + [Queue([intent])] == trace;
    var rows: map<NotificationId, OutboxRow> := map[];
    assert [intent][1..] == [];
    assert EnqueueAll(rows, [intent]) == EnqueueAll(InsertIfNew(rows, intent), []);
    w := EMPTY.(rows := EnqueueAll(map[], [intent]));
  }

  lemma Then(w: World, trace: seq<Action>, a: Action, config: DeliveryConfig) returns (next: World, more: seq<Action>)
    requires Exec(EMPTY, trace, config) == Some(w) && Step(w, a, config).Some?
    ensures next == Step(w, a, config).value && more == trace + [a]
    ensures Exec(EMPTY, more, config) == Some(next)
  {
    ExecSnoc(EMPTY, trace, a, config);
    next, more := Step(w, a, config).value, trace + [a];
  }
}
