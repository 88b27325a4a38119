/** The alert engine: reduce every check, then commit the next rows and the owed notifications as one. */
module AlertEngine {
  import opened Options
  import opened AlertTypes
  import opened Reducer
  import opened Outbox

  type States = map<Fingerprint, StateRow>

  type Policies = CheckId -> Policy

  function Lookup(states: States, fp: Fingerprint): Option<StateRow> {
    if fp in states then Some(states[fp]) else None
  }

  function ReduceOne(policies: Policies, states: States, entityId: string, check: Check, now: Time): Reduced {
    ReduceCheck(policies(check.id), Lookup(states, Fingerprint(check.id, entityId)), check, entityId, now)
  }

  function NextRows(policies: Policies, states: States, entityId: string, checks: seq<Check>, now: Time): seq<StateRow> {
    if checks == [] then []
    else
      var r := ReduceOne(policies, states, entityId, checks[|checks| - 1], now);
      NextRows(policies, states, entityId, checks[..|checks| - 1], now) + if r.row.Some? then [r.row.value] else []
  }

  function Decisions(policies: Policies, states: States, entityId: string, checks: seq<Check>, now: Time): seq<Decision> {
    if checks == [] then []
    else
      var r := ReduceOne(policies, states, entityId, checks[|checks| - 1], now);
      Decisions(policies, states, entityId, checks[..|checks| - 1], now) + if r.decision.Some? then [r.decision.value] else []
  }

  method ReduceChecks(policies: Policies, states: States, entityId: string, checks: seq<Check>, now: Time)
    returns (rows: seq<StateRow>, decisions: seq<Decision>)
    ensures rows == NextRows(policies, states, entityId, checks, now)
    ensures decisions == Decisions(policies, states, entityId, checks, now)
  {
    rows, decisions := [], [];
    for i := 0 to |checks|
      invariant rows == NextRows(policies, states, entityId, checks[..i], now)
      invariant decisions == Decisions(policies, states, entityId, checks[..i], now)
    {
      assert checks[..i + 1][..i] == checks[..i];
      var r := ReduceOne(policies, states, entityId, checks[i], now);
      if r.row.Some? { rows := rows + [r.row.value]; }
      if r.decision.Some? { decisions := decisions + [r.decision.value]; }
    }
    assert checks[..|checks|] == checks;
  }

  /** The notify-worthy decisions, in order. */
  function Notifying(decisions: seq<Decision>): (r: seq<Decision>)
    ensures forall d :: d in r <==> d in decisions && d.notify
  {
    if decisions == [] then []
    else
      var last := decisions[|decisions| - 1];
      assert decisions == decisions[..|decisions| - 1] + [last];
      Notifying(decisions[..|decisions| - 1]) + if last.notify then [last] else []
  }

  function IntentOf(d: Decision, now: Time): Intent {
    Intent(IdOf(d), d, now)
  }

  function IntentsFromDecisions(decisions: seq<Decision>, now: Time): (intents: seq<Intent>)
    ensures |intents| == |Notifying(decisions)|
    ensures forall k | 0 <= k < |intents| :: intents[k] == IntentOf(Notifying(decisions)[k], now)
  {
    seq(|Notifying(decisions)|, k requires 0 <= k < |Notifying(decisions)| => IntentOf(Notifying(decisions)[k], now))
  }

  function Upsert(states: States, row: StateRow): States {
    states[row.fingerprint := row]
  }

  function UpsertAll(states: States, rows: seq<StateRow>): States {
    if rows == [] then states else Upsert(UpsertAll(states, rows[..|rows| - 1]), rows[|rows| - 1])
  }

  /** Every row sits under the fingerprint of its check for this deployment's entity. */
  ghost predicate Homed(states: States, entityId: string) {
    forall fp | fp in states :: states[fp].fingerprint == fp && fp.entityId == entityId
  }

  // ---- the store and the engine ----

  class AlertDatabase {
    var states: States
    const outbox: OutboxStore

    constructor (outbox: OutboxStore)
      ensures states == map[] && this.outbox == outbox
    {
      states := map[];
      this.outbox := outbox;
    }

    /** One transaction over both tables. `failAt` is the statement at which the database or the
        process fails, the last one being the commit; then nothing is written. */
    method PutAll(rows: seq<StateRow>, intents: seq<Intent>, failAt: Option<nat>) returns (committed: bool)
      modifies this, outbox
      ensures committed <==> (rows == [] && intents == []) || failAt.None? || failAt.value > |rows| + |intents|
      ensures committed ==> states == UpsertAll(old(states), rows)
      ensures committed ==> outbox.rows == EnqueueAll(old(outbox.rows), intents)
      ensures !committed ==> states == old(states) && outbox.rows == old(outbox.rows)
      ensures outbox.events == old(outbox.events)
    {
      if rows == [] && intents == [] {
        return true;
      }
      var staged := states;
      for i := 0 to |rows|
        invariant staged == UpsertAll(old(states), rows[..i])
        invariant states == old(states) && outbox.rows == old(outbox.rows) && outbox.events == old(outbox.events)
        invariant failAt.Some? ==> failAt.value >= i
      {
        if failAt == Some(i) {
          return false;
        }
        assert rows[..i + 1][..i] == rows[..i];
        staged := staged[rows[i].fingerprint := rows[i]];
      }
      assert rows[..|rows|] == rows;
      var queued := outbox.rows;
      for i := 0 to |intents|
        invariant EnqueueAll(queued, intents[i..]) == EnqueueAll(old(outbox.rows), intents)
        invariant states == old(states) && outbox.rows == old(outbox.rows) && outbox.events == old(outbox.events)
        invariant failAt.Some? ==> failAt.value >= |rows| + i
      {
        if failAt == Some(|rows| + i) {
          return false;
        }
        assert intents[i..][1..] == intents[i + 1..];
        if intents[i].id !in queued {
          queued := queued[intents[i].id := FreshRow(intents[i])];
        }
      }
      if failAt == Some(|rows| + |intents|) {
        return false;
      }
      states := staged;
      outbox.rows := queued;
      return true;
    }

    /** The lookup by fingerprint, re-derived from each row's own check. */
    method ByFingerprint(entityId: string) returns (existing: States)
      ensures Homed(states, entityId) ==> existing == states
    {
      existing := map[];
      var left := states.Keys;
      while left != {}
        invariant left <= states.Keys
        invariant Homed(states, entityId) ==> existing == map fp | fp in states && fp !in left :: states[fp]
        decreases left
      {
        var fp :| fp in left;
        var row := states[fp];
        existing := existing[Fingerprint(row.fingerprint.checkId, entityId) := row];
        left := left - {fp};
      }
    }

    method RunAlertEngine(policies: Policies, entityId: string, checks: seq<Check>, now: Time, failAt: Option<nat>)
      returns (committed: bool, decisions: seq<Decision>)
      requires Homed(states, entityId)
      modifies this, outbox
      ensures decisions == Decisions(policies, old(states), entityId, checks, now)
      ensures committed ==> states == UpsertAll(old(states), NextRows(policies, old(states), entityId, checks, now))
      ensures committed ==> outbox.rows == EnqueueAll(old(outbox.rows), IntentsFromDecisions(decisions, now))
      ensures !committed ==> states == old(states) && outbox.rows == old(outbox.rows)
      ensures failAt.None? ==> committed
      ensures outbox.events == old(outbox.events)
    {
      var existing := ByFingerprint(entityId);
      var rows;
      rows, decisions := ReduceChecks(policies, existing, entityId, checks, now);
      committed := PutAll(rows, IntentsFromDecisions(decisions, now), failAt);
    }
  }
}
