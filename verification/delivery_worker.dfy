/** The delivery worker and direct delivery, run against the store and cut short at any store call. */
module DeliveryWorker {
  import opened Options
  import opened AlertTypes
  import opened Outbox
  import opened Delivery

  datatype Summary = Summary(recovered: nat, attempted: nat, delivered: nat, retried: nat, poisoned: nat, ok: bool)

  const NOTHING_DONE := Summary(0, 0, 0, 0, 0, true)

  /** The store as the machine sees it between attempts. */
  ghost function Idle(outbox: OutboxStore): World
    reads outbox
  {
    World(outbox.rows, outbox.events, map[])
  }

  ghost predicate Reached(before: World, trace: seq<Action>, after: World, config: DeliveryConfig) {
    Exec(before, trace, config) == Some(after)
  }

  /** Every claim ends in one of the three counters, or in the crash that cut the run short. */
  predicate Balanced(s: Summary) {
    && s.delivered + s.retried + s.poisoned <= s.attempted
    && s.attempted <= s.delivered + s.retried + s.poisoned + 1
    && (s.ok ==> s.attempted == s.delivered + s.retried + s.poisoned)
  }

  function CountClaims(trace: seq<Action>): nat {
    if trace == [] then 0 else CountClaims(trace[..|trace| - 1]) + if trace[|trace| - 1].Claim? then 1 else 0
  }

  function CountFinishes(trace: seq<Action>): nat {
    if trace == [] then 0 else CountFinishes(trace[..|trace| - 1]) + if trace[|trace| - 1].Finish? then 1 else 0
  }

  function CountRecoveries(trace: seq<Action>): nat {
    if trace == [] then 0 else CountRecoveries(trace[..|trace| - 1]) + if trace[|trace| - 1].Recover? then 1 else 0
  }

  /** The summary reports the store calls that were made. */
  predicate Reports(s: Summary, trace: seq<Action>) {
    && s.recovered == CountRecoveries(trace)
    && s.attempted == CountClaims(trace)
    && s.delivered + s.retried + s.poisoned == CountFinishes(trace)
  }

  /** Before the first store call. */
  method Start(ghost w: World, ghost config: DeliveryConfig) returns (s: Summary, ghost trace: seq<Action>)
    ensures s.ok && Balanced(s) && s.attempted == 0 && s.recovered == 0
    ensures Reached(w, trace, w, config) && Reports(s, trace)
  {
    s, trace := NOTHING_DONE, [];
  }

  lemma TraceSnoc(before: World, trace: seq<Action>, now: World, a: Action, config: DeliveryConfig)
    requires Reached(before, trace, now, config) && Step(now, a, config).Some?
    ensures Reached(before, trace + [a], Step(now, a, config).value, config)
    ensures CountClaims(trace + [a]) == CountClaims(trace) + if a.Claim? then 1 else 0
    ensures CountFinishes(trace + [a]) == CountFinishes(trace) + if a.Finish? then 1 else 0
    ensures CountRecoveries(trace + [a]) == CountRecoveries(trace) + if a.Recover? then 1 else 0
  {
    ExecSnoc(before, trace, a, config);
    assert (trace + [a])[..|trace|] == trace;
  }

  /** Claim, call the transport, record. `calls` store calls remain before the process dies. */
  method DeliverOne(outbox: OutboxStore, id: NotificationId, notify: OutboxRow -> AttemptResult, transport: string,
      now: Time, config: DeliveryConfig, calls: nat, summary: Summary, ghost before: World, ghost trace: seq<Action>)
    returns (s: Summary, left: nat, ghost more: seq<Action>)
    requires KeyedById(outbox.rows)
    requires Reached(before, trace, Idle(outbox), config)
    requires summary.ok && Balanced(summary) && Reports(summary, trace)
    modifies outbox
    ensures KeyedById(outbox.rows) && outbox.rows.Keys == old(outbox.rows).Keys
    ensures Reached(before, more, Idle(outbox), config)
    ensures Balanced(s) && Reports(s, more) && s.recovered == summary.recovered
    ensures left <= calls
    ensures forall x | x in outbox.rows && x != id :: outbox.rows[x] == old(outbox.rows)[x]
    ensures s.ok && id in old(outbox.rows) && Due(old(outbox.rows)[id], now) ==>
      var claim := Claimed(old(outbox.rows)[id], now);
      outbox.rows[id] == DecideNextOutboxState(claim, notify(claim), now, config).row
    ensures s.ok && id in old(outbox.rows) && Due(old(outbox.rows)[id], now) ==> s.attempted == summary.attempted + 1
    ensures s.ok && Real(config) && id in outbox.rows ==> !Due(outbox.rows[id], now)
    ensures s.ok && !(id in old(outbox.rows) && Due(old(outbox.rows)[id], now)) ==> outbox.rows == old(outbox.rows)
    ensures s.ok && id in outbox.rows && outbox.rows[id].status.Sending? ==> outbox.rows[id] == old(outbox.rows)[id]
  {
    hide Exec, CountClaims, CountFinishes, CountRecoveries, ComputeBackoffMs;
    s, left, more := summary, calls, trace;
    if left == 0 {
      return s.(ok := false), 0, more;
    }
    left := left - 1;
    ghost var idle := Idle(outbox);
    var claimed := outbox.MarkSending(id, now);
    if claimed.None? {
      return;
    }
    TraceSnoc(before, more, idle, Claim(id, now), config);
    ghost var claiming := Step(idle, Claim(id, now), config).value;
    more := more + [Claim(id, now)];
    s := s.(attempted := s.attempted + 1);
    var attempt := notify(claimed.value);
    var decision := DecideNextOutboxState(claimed.value, attempt, now, config);
    if left == 0 {
      TraceSnoc(before, more, claiming, Crash(id), config);
      more := more + [Crash(id)];
      assert Step(claiming, Crash(id), config).value == Idle(outbox);
      return s.(ok := false), 0, more;
    }
    left := left - 1;
    if Real(config) { BackoffPositive(claimed.value.attemptCount, config); }
    outbox.ApplyOutcome(decision.row, decision.outcome, decision.errorClass, claimed.value.attemptCount, now, transport);
    TraceSnoc(before, more, claiming, Finish(id, attempt, transport), config);
    more := more + [Finish(id, attempt, transport)];
    assert Step(claiming, Finish(id, attempt, transport), config).value == Idle(outbox);
    if decision.row.status.Delivered? {
      s := s.(delivered := s.delivered + 1);
    } else if decision.row.status.Poison? {
      s := s.(poisoned := s.poisoned + 1);
    } else {
      s := s.(retried := s.retried + 1);
    }
  }

  /** Phase one: hand every abandoned SENDING row back to the queue. */
  method RecoverStale(outbox: OutboxStore, transport: string, now: Time, config: DeliveryConfig, calls: nat)
    returns (s: Summary, left: nat, ghost trace: seq<Action>)
    requires KeyedById(outbox.rows)
    modifies outbox
    ensures KeyedById(outbox.rows) && outbox.rows.Keys == old(outbox.rows).Keys
    ensures Reached(old(Idle(outbox)), trace, Idle(outbox), config)
    ensures Balanced(s) && Reports(s, trace) && s.attempted == 0
    ensures left <= calls
    ensures s.ok ==> forall id | id in outbox.rows :: !Stale(outbox.rows[id], now, config.staleSendingMs)
  {
    hide Reached, Exec, CountClaims, CountFinishes, CountRecoveries, DecideNextOutboxState, ComputeBackoffMs;
    left := calls;
    s, trace := Start(Idle(outbox), config);
    if left == 0 {
      return s.(ok := false), 0, trace;
    }
    left := left - 1;
    var stale := outbox.ListStaleSending(now, config.staleSendingMs);
    for i := 0 to |stale|
      invariant KeyedById(outbox.rows) && outbox.rows.Keys == old(outbox.rows).Keys
      invariant Reached(old(Idle(outbox)), trace, Idle(outbox), config)
      invariant s.ok && Balanced(s) && Reports(s, trace) && s.attempted == 0
      invariant left <= calls
      invariant forall k | i <= k < |stale| :: InTable(stale[k], outbox.rows) && Stale(stale[k], now, config.staleSendingMs)
      invariant forall id | id in outbox.rows && Stale(outbox.rows[id], now, config.staleSendingMs) :: ListedFrom(id, stale, i)
    {
      var row := stale[i];
      assert InTable(row, outbox.rows);
      var decision := RecoverIfStaleSending(row, now, config);
      if left == 0 {
        return s.(ok := false), 0, trace;
      }
      left := left - 1;
      ghost var idle := Idle(outbox);
      TraceSnoc(old(Idle(outbox)), trace, idle, Recover(row.intent.id, now, transport), config);
      outbox.ApplyOutcome(decision.value.row, decision.value.outcome, decision.value.errorClass, row.attemptCount, now, transport);
      trace := trace + [Recover(row.intent.id, now, transport)];
      assert Step(idle, Recover(row.intent.id, now, transport), config).value == Idle(outbox);
      s := s.(recovered := s.recovered + 1);
      StaleListShrinks(idle.rows, decision.value.row, stale, i, now, config);
    }
  }

  lemma StaleListShrinks(rows: map<NotificationId, OutboxRow>, written: OutboxRow, stale: seq<OutboxRow>, i: nat, now: Time, config: DeliveryConfig)
    requires i < |stale| && written.intent.id == stale[i].intent.id && written.status.Pending?
    requires forall k | i <= k < |stale| :: InTable(stale[k], rows) && Stale(stale[k], now, config.staleSendingMs)
    requires forall k, l | 0 <= k < l < |stale| :: stale[k].intent.id != stale[l].intent.id
    requires forall id | id in rows && Stale(rows[id], now, config.staleSendingMs) :: ListedFrom(id, stale, i)
    ensures var after := rows[written.intent.id := written];
            && (forall k | i + 1 <= k < |stale| :: InTable(stale[k], after) && Stale(stale[k], now, config.staleSendingMs))
            && (forall id | id in after && Stale(after[id], now, config.staleSendingMs) :: ListedFrom(id, stale, i + 1))
  {
    var after := rows[written.intent.id := written];
    forall id | id in after && Stale(after[id], now, config.staleSendingMs) ensures ListedFrom(id, stale, i + 1) {
      assert ListedFrom(id, stale, i);
      var k :| i <= k < |stale| && stale[k].intent.id == id;
      assert k != i;
    }
  }

  /** Both phases. Whatever store call the process dies at, what happened is a run of the machine;
      a run that is not cut short leaves nothing stale, and either drains every due row or stops
      after `limit` attempts. */
  method RunDeliveryWorker(outbox: OutboxStore, notify: OutboxRow -> AttemptResult, transport: string,
      now: Time, config: DeliveryConfig, limit: nat, calls: nat)
    returns (s: Summary, ghost trace: seq<Action>)
    requires KeyedById(outbox.rows)
    modifies outbox
    ensures KeyedById(outbox.rows) && outbox.rows.Keys == old(outbox.rows).Keys
    ensures Reached(old(Idle(outbox)), trace, Idle(outbox), config)
    ensures Balanced(s) && Reports(s, trace)
    ensures s.ok ==> forall id | id in outbox.rows :: !Stale(outbox.rows[id], now, config.staleSendingMs)
    ensures s.ok && config.baseDelayMs > 0 && config.maxDelayMs > 0 ==>
      s.attempted == limit || forall id | id in outbox.rows :: !Due(outbox.rows[id], now)
  {
    hide Reached, Exec, CountClaims, CountFinishes, CountRecoveries, DecideNextOutboxState, ComputeBackoffMs;
    var left;
    s, left, trace := RecoverStale(outbox, transport, now, config, calls);
    if !s.ok {
      return;
    }
    if left == 0 {
      return s.(ok := false), trace;
    }
    left := left - 1;
    var due := outbox.ListDue(now, limit);
    for i := 0 to |due|
      invariant KeyedById(outbox.rows) && outbox.rows.Keys == old(outbox.rows).Keys
      invariant Reached(old(Idle(outbox)), trace, Idle(outbox), config)
      invariant s.ok && Balanced(s) && Reports(s, trace) && s.attempted == i
      invariant forall id | id in outbox.rows :: !Stale(outbox.rows[id], now, config.staleSendingMs)
      invariant forall k | i <= k < |due| :: InTable(due[k], outbox.rows) && Due(due[k], now)
      invariant Real(config) && |due| < limit ==> AllListed(outbox.rows, due, i, now)
    {
      var id := due[i].intent.id;
      assert InTable(due[i], outbox.rows);
      ghost var rows := outbox.rows;
      s, left, trace := DeliverOne(outbox, id, notify, transport, now, config, left, s, old(Idle(outbox)), trace);
      if !s.ok {
        return;
      }
      if Real(config) && |due| < limit {
        DueListShrinks(rows, outbox.rows, due, i, now);
      }
    }
  }

  predicate Real(config: DeliveryConfig) {
    config.baseDelayMs > 0 && config.maxDelayMs > 0
  }

  ghost predicate AllListed(rows: map<NotificationId, OutboxRow>, due: seq<OutboxRow>, i: nat, now: Time) {
    forall id | id in rows && Due(rows[id], now) :: ListedFrom(id, due, i)
  }

  lemma DueListShrinks(rows: map<NotificationId, OutboxRow>, after: map<NotificationId, OutboxRow>, due: seq<OutboxRow>, i: nat, now: Time)
    requires i < |due| && rows.Keys == after.Keys
    requires AllListed(rows, due, i, now)
    requires due[i].intent.id in after && !Due(after[due[i].intent.id], now)
    requires forall x | x in after && x != due[i].intent.id :: after[x] == rows[x]
    ensures AllListed(after, due, i + 1, now)
  {
    forall id | id in after && Due(after[id], now) ensures ListedFrom(id, due, i + 1) {
      assert ListedFrom(id, due, i);
      var k :| i <= k < |due| && due[k].intent.id == id;
      assert k != i;
    }
  }

  predicate Unnamed(id: NotificationId, ids: seq<NotificationId>) {
    forall k | 0 <= k < |ids| :: ids[k] != id
  }

  /** Direct delivery of named rows: no recovery phase. */
  method DeliverRows(outbox: OutboxStore, ids: seq<NotificationId>, notify: OutboxRow -> AttemptResult, transport: string,
      now: Time, config: DeliveryConfig, calls: nat)
    returns (s: Summary, ghost trace: seq<Action>)
    requires KeyedById(outbox.rows)
    modifies outbox
    ensures KeyedById(outbox.rows) && outbox.rows.Keys == old(outbox.rows).Keys
    ensures Reached(old(Idle(outbox)), trace, Idle(outbox), config)
    ensures Balanced(s) && Reports(s, trace) && s.recovered == 0
    ensures forall id | id in outbox.rows && Unnamed(id, ids) :: outbox.rows[id] == old(outbox.rows)[id]
  {
    hide Reached, Idle, Exec, CountClaims, CountFinishes, CountRecoveries, DecideNextOutboxState, ComputeBackoffMs;
    s, trace := Start(Idle(outbox), config);
    var left := calls;
    for i := 0 to |ids|
      invariant KeyedById(outbox.rows) && outbox.rows.Keys == old(outbox.rows).Keys
      invariant Reached(old(Idle(outbox)), trace, Idle(outbox), config)
      invariant s.ok && Balanced(s) && Reports(s, trace) && s.recovered == 0
      invariant forall id | id in outbox.rows && Unnamed(id, ids) :: outbox.rows[id] == old(outbox.rows)[id]
    {
      s, left, trace := DeliverOne(outbox, ids[i], notify, transport, now, config, left, s, old(Idle(outbox)), trace);
      if !s.ok {
        return;
      }
    }
  }
}
