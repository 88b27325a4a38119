/** The notification outbox: its pure decisions and its store. */
module Outbox {
  import opened Options
  import opened AlertTypes

  datatype AttemptResult = Accepted | Failed(permanent: bool, errorClass: string)

  datatype DeliveryDecision = DeliveryDecision(row: OutboxRow, outcome: DeliveryOutcome, errorClass: Option<string>)

  // ---- pure decisions ----

  function Pow2(n: nat): (r: nat)
    ensures r >= 1
  {
    if n == 0 then 1 else 2 * Pow2(n - 1)
  }

  /** The wait after the `attemptCount`-th attempt failed. */
  function ComputeBackoffMs(attemptCount: nat, config: DeliveryConfig): (delay: nat)
    ensures delay <= config.maxDelayMs
  {
    var doubled := config.baseDelayMs * Pow2(if attemptCount == 0 then 0 else attemptCount - 1);
    if doubled <= config.maxDelayMs then doubled else config.maxDelayMs
  }

  lemma {:induction false} Pow2Grows(a: nat, b: nat)
    requires a <= b
    ensures Pow2(a) <= Pow2(b)
  {
    if a < b {
      Pow2Grows(a, b - 1);
    }
  }

  lemma ScaledGrows(base: nat, x: nat, y: nat)
    requires x <= y
    ensures base * x <= base * y
  {
  }

  /** Successive delays never shrink. */
  lemma BackoffGrows(a: nat, b: nat, config: DeliveryConfig)
    requires a <= b
    ensures ComputeBackoffMs(a, config) <= ComputeBackoffMs(b, config)
  {
    var x, y := if a == 0 then 0 else a - 1, if b == 0 then 0 else b - 1;
    Pow2Grows(x, y);
    ScaledGrows(config.baseDelayMs, Pow2(x), Pow2(y));
  }

  /** The first delay is the base delay and each later one twice the one before it, up to the maximum. */
  lemma BackoffDoubles(n: nat, config: DeliveryConfig)
    requires n >= 1
    ensures ComputeBackoffMs(1, config) == if config.baseDelayMs <= config.maxDelayMs then config.baseDelayMs else config.maxDelayMs
    ensures var delay, next := ComputeBackoffMs(n, config), ComputeBackoffMs(n + 1, config);
            next == if 2 * delay <= config.maxDelayMs then 2 * delay else config.maxDelayMs
  {
    assert Pow2(0) == 1 && Pow2(n) == 2 * Pow2(n - 1);
    var doubled := config.baseDelayMs * Pow2(n - 1);
    assert config.baseDelayMs * Pow2(n) == 2 * doubled;
  }

  /** With real delays configured, a failed attempt is never due again at once. */
  lemma BackoffPositive(attemptCount: nat, config: DeliveryConfig)
    requires config.baseDelayMs > 0 && config.maxDelayMs > 0
    ensures ComputeBackoffMs(attemptCount, config) > 0
  {
    var e := if attemptCount == 0 then 0 else attemptCount - 1;
    ScaledGrows(config.baseDelayMs, 1, Pow2(e));
  }

  function DecideNextOutboxState(row: OutboxRow, attempt: AttemptResult, now: Time, config: DeliveryConfig): DeliveryDecision {
    match attempt
    case Accepted =>
      DeliveryDecision(
        row.(status := Delivered, lastAttemptAt := Some(now), deliveredAt := Some(now), lastError := None),
        DeliveredOk, None)
    case Failed(permanent, errorClass) =>
      if permanent then
        DeliveryDecision(
          row.(status := Poison, lastAttemptAt := Some(now), lastError := Some(errorClass)),
          PermanentFailure, Some(errorClass))
      else if row.attemptCount >= config.maxAttempts then
        DeliveryDecision(
          row.(status := Poison, lastAttemptAt := Some(now), lastError := Some(errorClass)),
          TransientFailure, Some(errorClass))
      else
        DeliveryDecision(
          row.(status := Pending, lastAttemptAt := Some(now),
               nextAttemptAt := now + ComputeBackoffMs(row.attemptCount, config), lastError := Some(errorClass)),
          TransientFailure, Some(errorClass))
  }

  predicate Stale(row: OutboxRow, now: Time, staleSendingMs: nat) {
    row.status.Sending? && row.lastAttemptAt.Some? && now - row.lastAttemptAt.value >= staleSendingMs
  }

  function RecoverIfStaleSending(row: OutboxRow, now: Time, config: DeliveryConfig): Option<DeliveryDecision> {
    if Stale(row, now, config.staleSendingMs) then
      Some(DeliveryDecision(row.(status := Pending, nextAttemptAt := now), AmbiguousRecovered, None))
    else None
  }

  predicate Due(row: OutboxRow, now: Time) {
    row.status.Pending? && row.nextAttemptAt <= now
  }

  function Claimed(row: OutboxRow, now: Time): OutboxRow {
    row.(status := Sending, attemptCount := row.attemptCount + 1, lastAttemptAt := Some(now))
  }

  function FreshRow(intent: Intent): OutboxRow {
    OutboxRow(intent, Pending, 0, None, intent.createdAt, None, None)
  }

  function InsertIfNew(rows: map<NotificationId, OutboxRow>, intent: Intent): map<NotificationId, OutboxRow> {
    if intent.id in rows then rows else rows[intent.id := FreshRow(intent)]
  }

  /** Insert every intent whose id is new; leave every other row alone. */
  function EnqueueAll(rows: map<NotificationId, OutboxRow>, intents: seq<Intent>): (r: map<NotificationId, OutboxRow>)
    ensures forall id | id in rows :: id in r && r[id] == rows[id]
    decreases |intents|
  {
    if intents == [] then rows else EnqueueAll(InsertIfNew(rows, intents[0]), intents[1..])
  }

  /** Exactly the queued ids are added, each with the fresh row of an intent that carries it. */
  lemma {:induction false} EnqueuedRows(rows: map<NotificationId, OutboxRow>, intents: seq<Intent>, id: NotificationId)
    ensures id in EnqueueAll(rows, intents) <==> id in rows || exists i :: i in intents && i.id == id
    ensures id in EnqueueAll(rows, intents) && id !in rows ==>
      exists i :: i in intents && i.id == id && EnqueueAll(rows, intents)[id] == FreshRow(i)
    decreases |intents|
  {
    if intents != [] {
      var next := InsertIfNew(rows, intents[0]);
      EnqueuedRows(next, intents[1..], id);
      assert intents == [intents[0]] + intents[1..];
      assert intents[0] in intents && forall i :: i in intents[1..] ==> i in intents;
      if id in next && id !in rows {
        assert next[id] == FreshRow(intents[0]);
      }
    }
  }

  // ---- the store ----

  predicate KeyedById(rows: map<NotificationId, OutboxRow>) {
    forall id | id in rows :: rows[id].intent.id == id
  }

  predicate Older(a: OutboxRow, b: OutboxRow) {
    a.intent.createdAt <= b.intent.createdAt
  }

  class OutboxStore {
    var rows: map<NotificationId, OutboxRow>
    var events: seq<DeliveryEvent>

    constructor ()
      ensures rows == map[] && events == []
    {
      rows := map[];
      events := [];
    }

    method Enqueue(intents: seq<Intent>)
      modifies this
      ensures rows == EnqueueAll(old(rows), intents) && events == old(events)
    {
      for i := 0 to |intents|
        invariant EnqueueAll(rows, intents[i..]) == EnqueueAll(old(rows), intents)
        invariant events == old(events)
      {
        var intent := intents[i];
        assert intents[i..][1..] == intents[i + 1..];
        if intent.id !in rows {
          rows := rows[intent.id := FreshRow(intent)];
        }
      }
    }

    /** Due rows, oldest first, at most `limit`: no due row left out is older than one listed. */
    method ListDue(now: Time, limit: nat) returns (due: seq<OutboxRow>)
      requires KeyedById(rows)
      ensures |due| <= limit
      ensures forall k | 0 <= k < |due| :: InTable(due[k], rows) && Due(due[k], now)
      ensures forall i, j | 0 <= i < j < |due| :: Older(due[i], due[j]) && due[i].intent.id != due[j].intent.id
      ensures forall id | id in rows && Due(rows[id], now) && !ListedFrom(id, due, 0) ::
                |due| == limit && forall k | 0 <= k < |due| :: Older(due[k], rows[id])
    {
      due := [];
      var left := set id | id in rows && Due(rows[id], now);
      while |due| < limit && left != {}
        invariant |due| <= limit
        invariant forall id | id in left :: id in rows && Due(rows[id], now) && forall k | 0 <= k < |due| :: Older(due[k], rows[id])
        invariant forall k | 0 <= k < |due| :: InTable(due[k], rows) && due[k].intent.id !in left && Due(due[k], now)
        invariant forall i, j | 0 <= i < j < |due| :: Older(due[i], due[j]) && due[i].intent.id != due[j].intent.id
        invariant forall id | id in rows && Due(rows[id], now) && id !in left :: ListedFrom(id, due, 0)
        decreases left
      {
        var oldest := OldestOf(left);
        ListedSnoc(due, rows[oldest]);
        due := due + [rows[oldest]];
        left := left - {oldest};
      }
    }

    method OldestOf(ids: set<NotificationId>) returns (oldest: NotificationId)
      requires ids != {} && forall id | id in ids :: id in rows
      ensures oldest in ids
      ensures forall id | id in ids :: Older(rows[oldest], rows[id])
    {
      oldest :| oldest in ids;
      var left := ids - {oldest};
      while left != {}
        invariant oldest in ids && left <= ids
        invariant forall id | id in ids && id !in left :: Older(rows[oldest], rows[id])
        decreases left
      {
        var id :| id in left;
        if rows[id].intent.createdAt < rows[oldest].intent.createdAt {
          oldest := id;
        }
        left := left - {id};
      }
    }

    method MarkSending(id: NotificationId, now: Time) returns (claimed: Option<OutboxRow>)
      modifies this
      ensures events == old(events)
      ensures claimed.Some? <==> id in old(rows) && Due(old(rows)[id], now)
      ensures claimed.Some? ==> claimed.value == Claimed(old(rows)[id], now) && rows == old(rows)[id := claimed.value]
      ensures claimed.None? ==> rows == old(rows)
    {
      if id !in rows || !Due(rows[id], now) {
        return None;
      }
      var next := Claimed(rows[id], now);
      rows := rows[id := next];
      return Some(next);
    }

    method ApplyOutcome(row: OutboxRow, outcome: DeliveryOutcome, errorClass: Option<string>, attemptNumber: nat, now: Time, transport: string)
      modifies this
      ensures rows == old(rows)[row.intent.id := row]
      ensures events == old(events) + [DeliveryEvent(row.intent.id, attemptNumber, now, outcome, errorClass, transport)]
    {
      rows := rows[row.intent.id := row];
      events := events + [DeliveryEvent(row.intent.id, attemptNumber, now, outcome, errorClass, transport)];
    }

    method ListStaleSending(now: Time, staleSendingMs: nat) returns (stale: seq<OutboxRow>)
      requires KeyedById(rows)
      ensures forall k | 0 <= k < |stale| :: InTable(stale[k], rows) && Stale(stale[k], now, staleSendingMs)
      ensures forall i, j | 0 <= i < j < |stale| :: stale[i].intent.id != stale[j].intent.id
      ensures forall id | id in rows && Stale(rows[id], now, staleSendingMs) :: ListedFrom(id, stale, 0)
    {
      stale := [];
      var left := set id | id in rows && Stale(rows[id], now, staleSendingMs);
      while left != {}
        invariant forall id | id in left :: id in rows && Stale(rows[id], now, staleSendingMs)
        invariant forall k | 0 <= k < |stale| :: InTable(stale[k], rows) && stale[k].intent.id !in left && Stale(stale[k], now, staleSendingMs)
        invariant forall i, j | 0 <= i < j < |stale| :: stale[i].intent.id != stale[j].intent.id
        invariant forall id | id in rows && Stale(rows[id], now, staleSendingMs) && id !in left :: ListedFrom(id, stale, 0)
        decreases left
      {
        var id :| id in left;
        ListedSnoc(stale, rows[id]);
        stale := stale + [rows[id]];
        left := left - {id};
      }
    }
  }

  /** The listed row is the stored one. */
  predicate InTable(row: OutboxRow, rows: map<NotificationId, OutboxRow>) {
    row.intent.id in rows && rows[row.intent.id] == row
  }

  lemma ListedSnoc(listed: seq<OutboxRow>, row: OutboxRow)
    ensures ListedFrom(row.intent.id, listed + [row], 0)
    ensures forall id | ListedFrom(id, listed, 0) :: ListedFrom(id, listed + [row], 0)
  {
    var more := listed + [row];
    assert more[|listed|] == row;
    forall id | ListedFrom(id, listed, 0) ensures ListedFrom(id, more, 0) {
      var k :| 0 <= k < |listed| && listed[k].intent.id == id;
      assert more[k].intent.id == id;
    }
  }

  ghost predicate ListedFrom(id: NotificationId, listed: seq<OutboxRow>, i: nat) {
    exists k :: i <= k < |listed| && listed[k].intent.id == id
  }
}
