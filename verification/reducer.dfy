/** The alert episode reducer. */
module Reducer {
  import opened Options
  import opened AlertTypes

  datatype HealthStatus = Healthy | Degraded | Critical | Unknown

  datatype Check = Check(id: CheckId, status: HealthStatus, message: string)

  /** One entry of the policy table; the table itself stays a parameter. */
  datatype Policy = Policy(
    severityFor: HealthStatus -> Option<Severity>,
    notify: bool,
    notifyFor: Option<(HealthStatus, Severity) -> bool>,
    alertMessage: Check -> string)

  function PolicyNotifies(policy: Policy, status: HealthStatus, severity: Severity): bool {
    policy.notify && match policy.notifyFor case Some(f) => f(status, severity) case None => true
  }

  datatype Reduced = Reduced(row: Option<StateRow>, decision: Option<Decision>)

  function RecoveredMessage(check: Check): string {
    check.id + " recovered — " + check.message
  }

  function ReduceCheck(policy: Policy, existing: Option<StateRow>, check: Check, entityId: string, now: Time): Reduced {
    var fingerprint := Fingerprint(check.id, entityId);
    var severity := policy.severityFor(check.status);
    if severity.None? then
      if existing.None? || existing.value.state.Closed? then Reduced(existing, None)
      else
        var row := existing.value;
        var notify := policy.notify && (policy.notifyFor.None? || row.lastNotifiedAt.Some?);
        var lastNotifiedAt := if notify then Some(now) else row.lastNotifiedAt;
        Reduced(
          Some(row.(state := Closed, lastSeenAt := now, recoveredAt := Some(now), lastNotifiedAt := lastNotifiedAt)),
          Some(Decision(Recovered, row.severity, fingerprint, RecoveredMessage(check), notify,
                        row.firstSeenAt, now, lastNotifiedAt, row.occurrenceCount, Some(now - row.firstSeenAt))))
    else if existing.None? || existing.value.state.Closed? then
      var notify := PolicyNotifies(policy, check.status, severity.value);
      var lastNotifiedAt := if notify then Some(now) else None;
      Reduced(
        Some(StateRow(fingerprint, severity.value, Open, now, now, lastNotifiedAt, 1, None)),
        Some(Decision(New, severity.value, fingerprint, policy.alertMessage(check), notify, now, now, lastNotifiedAt, 1, None)))
    else
      var row := existing.value;
      var same := severity.value == row.severity;
      var notify := !same && PolicyNotifies(policy, check.status, severity.value);
      var next := row.(severity := severity.value, lastSeenAt := now, occurrenceCount := row.occurrenceCount + 1,
                       lastNotifiedAt := if notify then Some(now) else row.lastNotifiedAt);
      if same then Reduced(Some(next), None)
      else
        var kind := if IsWorse(severity.value, row.severity) then Escalated else Deescalated;
        Reduced(Some(next),
          Some(Decision(kind, severity.value, fingerprint, policy.alertMessage(check), notify,
                        row.firstSeenAt, now, next.lastNotifiedAt, next.occurrenceCount, None)))
  }

  // ---- the history of one check ----

  datatype Observation = Observation(check: Check, now: Time)

  datatype History = History(row: Option<StateRow>, decisions: seq<Decision>)

  /** What one check's observations leave behind. */
  function Replay(policy: Policy, entityId: string, seen: seq<Observation>): History {
    if seen == [] then History(None, [])
    else
      var before := Replay(policy, entityId, seen[..|seen| - 1]);
      var o := seen[|seen| - 1];
      var r := ReduceCheck(policy, before.row, o.check, entityId, o.now);
      History(r.row, before.decisions + if r.decision.Some? then [r.decision.value] else [])
  }

  predicate Alerts(policy: Policy, o: Observation) {
    policy.severityFor(o.check.status).Some?
  }

  /** How many of the latest observations alerted in a row. */
  function TrailingAlerts(policy: Policy, seen: seq<Observation>): nat {
    if seen == [] || !Alerts(policy, seen[|seen| - 1]) then 0
    else 1 + TrailingAlerts(policy, seen[..|seen| - 1])
  }

  // ---- the language of decisions ----

  predicate Middle(d: Decision) {
    d.kind.Escalated? || d.kind.Deescalated?
  }

  /** One open episode: NEW, then only changes of severity, each named after its direction; all
      carry the moment the episode opened and strictly growing occurrence counts. */
  predicate OpenEpisode(e: seq<Decision>) {
    && e != [] && e[0].kind.New? && e[0].occurrenceCount == 1
    && (forall k | 0 < k < |e| :: Middle(e[k]))
    && (forall k | 0 < k < |e| && e[k].kind.Escalated? :: IsWorse(e[k].severity, e[k - 1].severity))
    && (forall k | 0 < k < |e| && e[k].kind.Deescalated? :: IsWorse(e[k - 1].severity, e[k].severity))
    && (forall k | 0 < k < |e| :: e[k - 1].occurrenceCount < e[k].occurrenceCount)
    && (forall k | 0 <= k < |e| :: e[k].firstSeenAt == e[0].lastSeenAt)
  }

  ghost predicate Announced(e: seq<Decision>) {
    exists k :: 0 <= k < |e| && e[k].notify
  }

  /** A closed episode: an open one and its RECOVERED, announced exactly when the episode was. */
  ghost predicate ClosedEpisode(e: seq<Decision>) {
    && |e| >= 2
    && OpenEpisode(e[..|e| - 1])
    && e[|e| - 1].kind.Recovered?
    && e[|e| - 1].firstSeenAt == e[0].firstSeenAt
    && e[|e| - 1].severity == e[|e| - 2].severity
    && e[|e| - 1].durationMs == Some(e[|e| - 1].lastSeenAt - e[0].firstSeenAt)
    && (e[|e| - 1].notify <==> Announced(e[..|e| - 1]))
  }

  function Flatten(episodes: seq<seq<Decision>>): seq<Decision> {
    if episodes == [] then [] else Flatten(episodes[..|episodes| - 1]) + episodes[|episodes| - 1]
  }

  /** The row of an open episode remembers exactly what its decisions said. */
  ghost predicate Remembers(row: StateRow, tail: seq<Decision>) {
    && tail != []
    && row.state.Open?
    && row.firstSeenAt == tail[0].firstSeenAt
    && row.severity == tail[|tail| - 1].severity
    && row.occurrenceCount >= tail[|tail| - 1].occurrenceCount
    && (row.lastNotifiedAt.Some? <==> Announced(tail))
  }

  /** Some splitting of the decisions into closed episodes and an open tail. */
  ghost predicate Splits(h: History, episodes: seq<seq<Decision>>, tail: seq<Decision>) {
    && h.decisions == Flatten(episodes) + tail
    && (forall e | e in episodes :: ClosedEpisode(e))
    && (tail == [] <==> h.row.None? || h.row.value.state.Closed?)
    && (tail != [] ==> OpenEpisode(tail) && Remembers(h.row.value, tail))
  }

  /** The policy decides announcements consistently with the row's memory. */
  lemma NewEpisodeSplits(policy: Policy, h: History, check: Check, entityId: string, now: Time, episodes: seq<seq<Decision>>)
    requires Splits(h, episodes, [])
    requires policy.severityFor(check.status).Some?
    ensures var r := ReduceCheck(policy, h.row, check, entityId, now);
            r.decision.Some? && Splits(History(r.row, h.decisions + [r.decision.value]), episodes, [r.decision.value])
  {
    var r := ReduceCheck(policy, h.row, check, entityId, now);
    var d := r.decision.value;
    assert [d][0] == d;
    assert Announced([d]) <==> d.notify;
  }

  lemma AnnouncedSnoc(e: seq<Decision>, d: Decision)
    ensures Announced(e + [d]) <==> Announced(e) || d.notify
  {
    var more := e + [d];
    if Announced(e) {
      var k :| 0 <= k < |e| && e[k].notify;
      assert more[k].notify;
    }
    if d.notify { assert more[|e|].notify; }
    if Announced(more) {
      var k :| 0 <= k < |more| && more[k].notify;
      if k < |e| { assert e[k].notify; }
    }
  }

  lemma OpenEpisodeSnoc(tail: seq<Decision>, d: Decision)
    requires OpenEpisode(tail) && Middle(d)
    requires d.kind.Escalated? ==> IsWorse(d.severity, tail[|tail| - 1].severity)
    requires d.kind.Deescalated? ==> IsWorse(tail[|tail| - 1].severity, d.severity)
    requires tail[|tail| - 1].occurrenceCount < d.occurrenceCount
    requires d.firstSeenAt == tail[0].firstSeenAt
    ensures OpenEpisode(tail + [d])
  {
  }

  lemma ChangeSplits(policy: Policy, h: History, check: Check, entityId: string, now: Time, episodes: seq<seq<Decision>>, tail: seq<Decision>)
    requires Splits(h, episodes, tail) && tail != []
    requires policy.severityFor(check.status).Some?
    ensures var r := ReduceCheck(policy, h.row, check, entityId, now);
            if r.decision.Some?
            then Splits(History(r.row, h.decisions + [r.decision.value]), episodes, tail + [r.decision.value])
            else Splits(History(r.row, h.decisions), episodes, tail)
  {
    var r := ReduceCheck(policy, h.row, check, entityId, now);
    if r.decision.Some? {
      AnnouncedSnoc(tail, r.decision.value);
      OpenEpisodeSnoc(tail, r.decision.value);
      hide OpenEpisode, ClosedEpisode, Announced, Flatten;
      assert Flatten(episodes) + (tail + [r.decision.value]) == h.decisions + [r.decision.value];
    }
  }

  /** Notifying policies without per-status control announced the opening; the others remember. */
  predicate Consistent(policy: Policy, row: StateRow) {
    && (row.lastNotifiedAt.Some? ==> policy.notify)
    && (policy.notify && policy.notifyFor.None? ==> row.lastNotifiedAt.Some?)
  }

  lemma RecoverySplits(policy: Policy, h: History, check: Check, entityId: string, now: Time, episodes: seq<seq<Decision>>, tail: seq<Decision>)
    requires Splits(h, episodes, tail) && tail != []
    requires Consistent(policy, h.row.value)
    requires policy.severityFor(check.status).None?
    ensures var r := ReduceCheck(policy, h.row, check, entityId, now);
            && r.decision.Some?
            && Splits(History(r.row, h.decisions + [r.decision.value]), episodes + [tail + [r.decision.value]], [])
  {
    var r := ReduceCheck(policy, h.row, check, entityId, now);
    var closed := tail + [r.decision.value];
    assert closed[..|closed| - 1] == tail;
    assert (episodes + [closed])[..|episodes|] == episodes;
    assert Flatten(episodes + [closed]) == Flatten(episodes) + closed;
    assert h.decisions + [r.decision.value] == Flatten(episodes + [closed]) + [];
    assert ClosedEpisode(closed);
  }

  /** Every history is a sequence of closed episodes and at most one open one; the open row counts
      the trailing alerting observations. */
  lemma {:induction false} HistoryIsEpisodes(policy: Policy, entityId: string, seen: seq<Observation>)
    returns (episodes: seq<seq<Decision>>, tail: seq<Decision>)
    ensures var h := Replay(policy, entityId, seen);
            && Splits(h, episodes, tail)
            && (tail != [] ==> h.row.value.occurrenceCount == TrailingAlerts(policy, seen) && Consistent(policy, h.row.value))
            && (tail == [] <==> TrailingAlerts(policy, seen) == 0)
  {
    if seen == [] {
      episodes, tail := [], [];
    } else {
      var init, o := seen[..|seen| - 1], seen[|seen| - 1];
      episodes, tail := HistoryIsEpisodes(policy, entityId, init);
      var h := Replay(policy, entityId, init);
      var r := ReduceCheck(policy, h.row, o.check, entityId, o.now);
      if Alerts(policy, o) {
        if tail == [] {
          NewEpisodeSplits(policy, h, o.check, entityId, o.now, episodes);
          tail := [r.decision.value];
        } else {
          ChangeSplits(policy, h, o.check, entityId, o.now, episodes, tail);
          tail := if r.decision.Some? then tail + [r.decision.value] else tail;
          assert h.decisions + [] == h.decisions;
        }
      } else {
        if tail != [] {
          RecoverySplits(policy, h, o.check, entityId, o.now, episodes, tail);
          episodes, tail := episodes + [tail + [r.decision.value]], [];
        } else {
          assert h.decisions + [] == h.decisions;
        }
      }
    }
  }
}
