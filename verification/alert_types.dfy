/** Alert episodes, decisions, and the notifications they queue. Hashes are the tuples they hash. */
module AlertTypes {
  import opened Options

  type Time = int
  type CheckId = string

  datatype Severity = P0 | P1 | P2 | P3

  function Rank(s: Severity): nat {
    match s case P0 => 0 case P1 => 1 case P2 => 2 case P3 => 3
  }

  predicate IsWorse(a: Severity, b: Severity) {
    Rank(a) < Rank(b)
  }

  datatype Kind = New | Escalated | Deescalated | Recovered

  datatype Fingerprint = Fingerprint(checkId: CheckId, entityId: string)

  datatype EpisodeState = Open | Closed

  datatype StateRow = StateRow(
    fingerprint: Fingerprint,
    severity: Severity,
    state: EpisodeState,
    firstSeenAt: Time,
    lastSeenAt: Time,
    lastNotifiedAt: Option<Time>,
    occurrenceCount: nat,
    recoveredAt: Option<Time>)

  datatype Decision = Decision(
    kind: Kind,
    severity: Severity,
    fingerprint: Fingerprint,
    message: string,
    notify: bool,
    firstSeenAt: Time,
    lastSeenAt: Time,
    lastNotifiedAt: Option<Time>,
    occurrenceCount: nat,
    durationMs: Option<int>)

  /** `deriveNotificationId`: one specific moment of one specific episode. */
  datatype NotificationId = NotificationId(fingerprint: Fingerprint, firstSeenAt: Time, kind: Kind, occurrenceCount: nat)

  function IdOf(d: Decision): NotificationId {
    NotificationId(d.fingerprint, d.firstSeenAt, d.kind, d.occurrenceCount)
  }

  datatype Intent = Intent(id: NotificationId, decision: Decision, createdAt: Time)

  // ---- delivery ----

  datatype OutboxStatus = Pending | Sending | Delivered | Poison

  datatype OutboxRow = OutboxRow(
    intent: Intent,
    status: OutboxStatus,
    attemptCount: nat,
    lastAttemptAt: Option<Time>,
    nextAttemptAt: Time,
    deliveredAt: Option<Time>,
    lastError: Option<string>)

  datatype DeliveryOutcome = DeliveredOk | TransientFailure | PermanentFailure | AmbiguousRecovered

  datatype DeliveryEvent = DeliveryEvent(
    id: NotificationId,
    attemptNumber: nat,
    attemptedAt: Time,
    outcome: DeliveryOutcome,
    errorClass: Option<string>,
    transport: string)

  datatype DeliveryConfig = DeliveryConfig(baseDelayMs: nat, maxDelayMs: nat, maxAttempts: nat, staleSendingMs: nat)

  const DEFAULT_DELIVERY_CONFIG := DeliveryConfig(5_000, 300_000, 8, 120_000)
}
