/** Which results are announced: decisions are the changes of a check's severity, told from its policy. */
module AlertAnnouncements {
  import opened Options
  import opened AlertTypes
  import opened Reducer
  import opened Outbox
  import opened AlertEngine
  import opened AlertIds
  import opened Delivery
  import opened AlertPipeline

  // ---- one check ----

  const WORST_FIRST := [P0, P1, P2, P3]

  ghost predicate WorseThan(a: Severity, b: Severity) {
    exists i, j :: 0 <= i < j < |WORST_FIRST| && WORST_FIRST[i] == a && WORST_FIRST[j] == b
  }

  /** What the policy made of the first `n` observations' last one; nothing before any. */
  function Level(policy: Policy, seen: seq<Observation>, n: nat): Option<Severity>
    requires n <= |seen|
  {
    if n == 0 then None else policy.severityFor(seen[n - 1].check.status)
  }

  /** The observations at which the level changes, in order. */
  function Changes(policy: Policy, seen: seq<Observation>): (at: seq<nat>)
    ensures forall k | 0 <= k < |at| :: at[k] < |seen|
  {
    if seen == [] then []
    else
      var n := |seen| - 1;
      Changes(policy, seen[..n]) + if Level(policy, seen, n) != Level(policy, seen, n + 1) then [n] else []
  }

  /** The policy announces this status and severity. */
  predicate Announces(policy: Policy, status: HealthStatus, severity: Severity) {
    policy.notify && (policy.notifyFor.None? || policy.notifyFor.value(status, severity))
  }

  /** What a decision says of the observation at which the level went from `before` to where it is. */
  ghost predicate Says(policy: Policy, entityId: string, before: Option<Severity>, o: Observation, d: Decision) {
    var level := policy.severityFor(o.check.status);
    && d.fingerprint == Fingerprint(o.check.id, entityId) && d.lastSeenAt == o.now
    && (level.Some? ==>
          && d.severity == level.value && d.message == policy.alertMessage(o.check) && d.durationMs.None?
          && (d.notify <==> Announces(policy, o.check.status, level.value))
          && (before.None? ==> d.kind.New? && d.firstSeenAt == o.now && d.occurrenceCount == 1)
          && (before.Some? ==> d.kind == if WorseThan(level.value, before.value) then Escalated else Deescalated))
    && (level.None? ==>
          && before.Some? && d.kind.Recovered? && d.severity == before.value
          && d.message == o.check.id + " recovered — " + o.check.message
          && (d.notify ==> policy.notify) && (policy.notify && policy.notifyFor.None? ==> d.notify))
  }

  lemma WorseIsEarlier(a: Severity, b: Severity)
    ensures IsWorse(a, b) <==> WorseThan(a, b)
  {
    assert WORST_FIRST[Rank(a)] == a && WORST_FIRST[Rank(b)] == b;
  }

  /** The row remembers the level. */
  predicate Remembers(policy: Policy, row: Option<StateRow>, level: Option<Severity>) {
    && (level.Some? <==> IsOpen(row))
    && (level.Some? ==> row.value.severity == level.value && Consistent(policy, row.value))
  }

  lemma OneObservation(policy: Policy, entityId: string, row: Option<StateRow>, before: Option<Severity>, o: Observation)
    requires Remembers(policy, row, before)
    ensures var r, level := ReduceCheck(policy, row, o.check, entityId, o.now), policy.severityFor(o.check.status);
            && Remembers(policy, r.row, level)
            && (r.decision.Some? <==> before != level)
            && (r.decision.Some? ==> Says(policy, entityId, before, o, r.decision.value))
  {
    var level := policy.severityFor(o.check.status);
    if level.Some? && before.Some? { WorseIsEarlier(level.value, before.value); }
    hide WorseThan, Rank;
  }

  /** A check's decisions are the changes of its level, one each and in order, and each says what its
      own observation and the policy say: announced exactly when the policy announces that status and
      severity, or, if it is a recovery, when its episode was. */
  lemma {:induction false} DecisionsAreChanges(policy: Policy, entityId: string, seen: seq<Observation>)
    ensures var h, at := Replay(policy, entityId, seen), Changes(policy, seen);
            && Remembers(policy, h.row, Level(policy, seen, |seen|))
            && |h.decisions| == |at|
            && forall k | 0 <= k < |at| :: Says(policy, entityId, Level(policy, seen, at[k]), seen[at[k]], h.decisions[k])
  {
    if seen != [] {
      var n := |seen| - 1;
      DecisionsAreChanges(policy, entityId, seen[..n]);
      hide Says, Remembers, ReduceCheck;
      OneObservation(policy, entityId, Replay(policy, entityId, seen[..n]).row, Level(policy, seen, n), seen[n]);
      forall k | 0 <= k <= n ensures Level(policy, seen[..n], k) == Level(policy, seen, k) {}
    } else {
      hide Says;
    }
  }

  lemma {:induction false} ChangesExactlyAt(policy: Policy, seen: seq<Observation>, i: nat)
    requires i < |seen|
    ensures i in Changes(policy, seen) <==> Level(policy, seen, i) != Level(policy, seen, i + 1)
    ensures forall k, l | 0 <= k < l < |Changes(policy, seen)| :: Changes(policy, seen)[k] < Changes(policy, seen)[l]
  {
    var n := |seen| - 1;
    var init := seen[..n];
    if n > 0 {
      ChangesExactlyAt(policy, init, if i < n then i else 0);
      if i < n { assert Level(policy, init, i) == Level(policy, seen, i) && Level(policy, init, i + 1) == Level(policy, seen, i + 1); }
    } else {
      assert init == [];
    }
  }

  // ---- whole reports, one check at a time ----

  /** The decisions about one fingerprint, in order. */
  function About(ds: seq<Decision>, fp: Fingerprint): (r: seq<Decision>)
    ensures forall d :: d in r <==> d in ds && d.fingerprint == fp
  {
    if ds == [] then []
    else
      var last := ds[|ds| - 1];
      assert ds == ds[..|ds| - 1] + [last];
      About(ds[..|ds| - 1], fp) + if last.fingerprint == fp then [last] else []
  }

  lemma AboutNone(fp: Fingerprint)
    ensures About([], fp) == []
  {
  }

  lemma AboutSnoc(ds: seq<Decision>, d: Decision, fp: Fingerprint)
    ensures About(ds + [d], fp) == About(ds, fp) + if d.fingerprint == fp then [d] else []
  {
    assert (ds + [d])[..|ds|] == ds;
  }

  lemma {:induction false} AboutConcat(a: seq<Decision>, b: seq<Decision>, fp: Fingerprint)
    ensures About(a + b, fp) == About(a, fp) + About(b, fp)
  {
    if b == [] {
      assert a + b == a;
    } else {
      var n := |b| - 1;
      assert a + b == (a + b[..n]) + [b[n]] && b == b[..n] + [b[n]];
      AboutConcat(a, b[..n], fp);
      AboutSnoc(a + b[..n], b[n], fp);
      AboutSnoc(b[..n], b[n], fp);
    }
  }

  /** What one report observes of a check. */
  function ObservedIn(checks: seq<Check>, id: CheckId, now: Time): seq<Observation> {
    if checks == [] then []
    else
      var last := checks[|checks| - 1];
      ObservedIn(checks[..|checks| - 1], id, now) + if last.id == id then [Observation(last, now)] else []
  }

  function ObservedOver(reports: seq<Report>, id: CheckId): seq<Observation> {
    if reports == [] then []
    else
      var last := reports[|reports| - 1];
      ObservedOver(reports[..|reports| - 1], id) + ObservedIn(last.checks, id, last.now)
  }

  /** What a report leaves of a check's row and says of it, given what it observed. */
  ghost predicate LeavesOf(policies: Policies, states: States, entityId: string, id: CheckId, seen: seq<Observation>, after: States, said: seq<Decision>) {
    var fp := Fingerprint(id, entityId);
    && |seen| <= 1
    && (seen == [] ==> Lookup(after, fp) == Lookup(states, fp) && About(said, fp) == [])
    && (|seen| == 1 ==>
          var r := ReduceCheck(policies(id), Lookup(states, fp), seen[0].check, entityId, seen[0].now);
          Lookup(after, fp) == r.row && About(said, fp) == if r.decision.Some? then [r.decision.value] else [])
  }

  lemma {:induction false} NeverSeen(checks: seq<Check>, id: CheckId, now: Time)
    requires forall c | c in checks :: c.id != id
    ensures ObservedIn(checks, id, now) == []
  {
    if checks != [] { NeverSeen(checks[..|checks| - 1], id, now); }
  }

  lemma {:induction false} ReportLeaves(policies: Policies, states: States, entityId: string, checks: seq<Check>, now: Time, id: CheckId)
    requires Homed(states, entityId) && DistinctChecks(checks)
    ensures LeavesOf(policies, states, entityId, id, ObservedIn(checks, id, now),
                     StatesAfter(policies, states, entityId, checks, now), Decisions(policies, states, entityId, checks, now))
  {
    if checks == [] {
      EmptyLeaves(policies, states, entityId, now, id);
    } else {
      DistinctInit(checks);
      hide ReduceOne, About, KindOf, LeavesOf, StatesAfter, Decisions, DistinctChecks, Homed, Continues;
      var n := |checks| - 1;
      var init, last := checks[..n], checks[n];
      assert init + [last] == checks;
      ReportLeaves(policies, states, entityId, init, now, id);
      ReportSnoc(policies, states, entityId, init, last, now);
      DecisionShape(policies, states, entityId, last, now);
      RowShape(policies, states, entityId, last, now);
      var after, said := StatesAfter(policies, states, entityId, init, now), Decisions(policies, states, entityId, init, now);
      var r := ReduceOne(policies, states, entityId, last, now);
      assert StatesAfter(policies, states, entityId, checks, now) == WithRow(after, r) && Decisions(policies, states, entityId, checks, now) == WithDecision(said, r);
      if last.id == id {
        NeverSeen(init, id, now);
        assert ObservedIn(checks, id, now) == [Observation(last, now)];
        hide WithRow, WithDecision, ObservedIn;
        OwnLeaves(policies, states, entityId, after, said, last, now);
      } else {
        assert ObservedIn(checks, id, now) == ObservedIn(init, id, now);
        hide WithRow, WithDecision, ObservedIn;
        OtherLeaves(policies, states, entityId, id, ObservedIn(init, id, now), after, said, r);
      }
    }
  }

  lemma EmptyLeaves(policies: Policies, states: States, entityId: string, now: Time, id: CheckId)
    ensures LeavesOf(policies, states, entityId, id, ObservedIn([], id, now), StatesAfter(policies, states, entityId, [], now), Decisions(policies, states, entityId, [], now))
  {
    AboutNone(Fingerprint(id, entityId));
    hide ReduceCheck, ReduceOne, About;
  }

  lemma DistinctInit(checks: seq<Check>)
    requires DistinctChecks(checks) && checks != []
    ensures DistinctChecks(checks[..|checks| - 1])
    ensures forall c | c in checks[..|checks| - 1] :: c.id != checks[|checks| - 1].id
  {
  }

  function WithRow(states: States, r: Reduced): States {
    if r.row.Some? then Upsert(states, r.row.value) else states
  }

  function WithDecision(said: seq<Decision>, r: Reduced): seq<Decision> {
    if r.decision.Some? then said + [r.decision.value] else said
  }

  lemma OwnLeaves(policies: Policies, states: States, entityId: string, after: States, said: seq<Decision>, check: Check, now: Time)
    requires LeavesOf(policies, states, entityId, check.id, [], after, said)
    requires var r := ReduceOne(policies, states, entityId, check, now);
             && (r.row.Some? ==> r.row.value.fingerprint == Fingerprint(check.id, entityId))
             && (r.row.None? ==> Lookup(states, Fingerprint(check.id, entityId)).None?)
             && (r.decision.Some? ==> r.decision.value.fingerprint == Fingerprint(check.id, entityId))
    ensures var r := ReduceOne(policies, states, entityId, check, now);
            LeavesOf(policies, states, entityId, check.id, [Observation(check, now)], WithRow(after, r), WithDecision(said, r))
  {
    var r := ReduceOne(policies, states, entityId, check, now);
    if r.decision.Some? { AboutSnoc(said, r.decision.value, Fingerprint(check.id, entityId)); }
    hide ReduceCheck, About;
  }

  lemma OtherLeaves(policies: Policies, states: States, entityId: string, id: CheckId, seen: seq<Observation>, after: States, said: seq<Decision>, r: Reduced)
    requires LeavesOf(policies, states, entityId, id, seen, after, said)
    requires r.row.Some? ==> r.row.value.fingerprint != Fingerprint(id, entityId)
    requires r.decision.Some? ==> r.decision.value.fingerprint != Fingerprint(id, entityId)
    ensures LeavesOf(policies, states, entityId, id, seen, WithRow(after, r), WithDecision(said, r))
  {
    if r.decision.Some? { AboutSnoc(said, r.decision.value, Fingerprint(id, entityId)); }
    hide ReduceCheck, About;
  }

  /** In runs of reports that name each check once, a check's row and decisions are those of its own
      observations, whatever else is reported. */
  lemma {:induction false} CheckIsItsHistory(policies: Policies, entityId: string, reports: seq<Report>, id: CheckId)
    requires AllDistinctChecks(reports)
    ensures var fp, h := Fingerprint(id, entityId), Replay(policies(id), entityId, ObservedOver(reports, id));
            && Homed(StatesOver(policies, entityId, reports), entityId)
            && Lookup(StatesOver(policies, entityId, reports), fp) == h.row
            && About(DecidedOver(policies, entityId, reports), fp) == h.decisions
  {
    hide ReduceCheck, StatesAfter, Decisions, DistinctChecks, ObservedIn, About;
    if reports == [] {
      AboutNone(Fingerprint(id, entityId));
    } else {
      var init, last := reports[..|reports| - 1], reports[|reports| - 1];
      var states, decided := StatesOver(policies, entityId, init), DecidedOver(policies, entityId, init);
      CheckIsItsHistory(policies, entityId, init, id);
      ReportLeaves(policies, states, entityId, last.checks, last.now, id);
      ReportKeepsHomed(policies, states, entityId, last.checks, last.now);
      AboutConcat(decided, Decisions(policies, states, entityId, last.checks, last.now), Fingerprint(id, entityId));
      ReplayMore(policies(id), entityId, ObservedOver(init, id), ObservedIn(last.checks, id, last.now));
    }
  }

  lemma ReplayMore(policy: Policy, entityId: string, seen: seq<Observation>, more: seq<Observation>)
    requires |more| <= 1
    ensures var h, all := Replay(policy, entityId, seen), Replay(policy, entityId, seen + more);
            if more == [] then all == h
            else
              var r := ReduceCheck(policy, h.row, more[0].check, entityId, more[0].now);
              all == History(r.row, h.decisions + if r.decision.Some? then [r.decision.value] else [])
  {
    hide ReduceCheck;
    if more == [] { assert seen + more == seen; } else { assert (seen + more)[..|seen|] == seen; }
  }

  // ---- the outbox ----

  /** The evaluations of a run that committed. */
  function Evaluated(events: seq<Event>): seq<Report> {
    if events == [] then []
    else
      var last := events[|events| - 1];
      Evaluated(events[..|events| - 1]) + if last.Evaluate? then [Report(last.checks, last.now)] else []
  }

  lemma {:induction false} PipelineIsReports(policies: Policies, entityId: string, config: DeliveryConfig, clock: Time, events: seq<Event>)
    requires Run(policies, entityId, config, Opening(clock), events).Some?
    ensures var p := Run(policies, entityId, config, Opening(clock), events).value;
            p.states == StatesOver(policies, entityId, Evaluated(events)) && p.decided == DecidedOver(policies, entityId, Evaluated(events))
  {
    hide Clean, StatesAfter, Decisions, Step, EnqueueAll, IntentsFromDecisions;
    if events != [] {
      var init, last := events[..|events| - 1], events[|events| - 1];
      PipelineIsReports(policies, entityId, config, clock, init);
      var before := Evaluated(init);
      if last.Evaluate? { assert (before + [Report(last.checks, last.now)])[..|before|] == before; } else { assert before + [] == before; }
    }
  }

  /** Some row of the outbox tells this decision. */
  ghost predicate Told(rows: map<NotificationId, OutboxRow>, d: Decision) {
    exists id :: id in rows && rows[id].intent.decision == d
  }

  /** What reaches the operator about a check: of the changes of its level in the whole run, exactly
      those that were announced, each by its own row. */
  lemma OutboxTellsChanges(policies: Policies, entityId: string, config: DeliveryConfig, clock: Time, events: seq<Event>, check: CheckId)
    requires Run(policies, entityId, config, Opening(clock), events).Some? && AllDistinctChecks(Evaluated(events))
    ensures var rows, seen := Run(policies, entityId, config, Opening(clock), events).value.world.rows, ObservedOver(Evaluated(events), check);
            var said, at := Replay(policies(check), entityId, seen).decisions, Changes(policies(check), seen);
            && |said| == |at|
            && (forall k | 0 <= k < |at| :: Says(policies(check), entityId, Level(policies(check), seen, at[k]), seen[at[k]], said[k]))
            && (forall d: Decision | d.fingerprint == Fingerprint(check, entityId) :: Told(rows, d) <==> d in said && d.notify)
  {
    OutboxIsWhatWasDecided(policies, entityId, config, clock, events);
    PipelineIsReports(policies, entityId, config, clock, events);
    CheckIsItsHistory(policies, entityId, Evaluated(events), check);
    var p := Run(policies, entityId, config, Opening(clock), events).value;
    var seen, committed := ObservedOver(Evaluated(events), check), Notifying(p.decided);
    DecisionsAreChanges(policies(check), entityId, seen);
    hide Run, Replay, Says, Remembers, Notifying, About;
    forall d: Decision ensures Told(p.world.rows, d) <==> d in committed {
      TellsCommitted(p.world.rows, committed, d);
    }
  }

  lemma TellsCommitted(rows: map<NotificationId, OutboxRow>, committed: seq<Decision>, d: Decision)
    requires Mirrors(rows, committed)
    ensures Told(rows, d) <==> d in committed
  {
    if Told(rows, d) {
      var id :| id in rows && rows[id].intent.decision == d;
      assert Queued(id, committed);
    }
    if d in committed {
      var k :| 0 <= k < |committed| && committed[k] == d;
    }
  }
}
