/** Evaluation and delivery together: what is queued is exactly what was decided. */
module AlertPipeline {
  import opened Options
  import opened AlertTypes
  import opened Reducer
  import opened Outbox
  import opened AlertEngine
  import opened AlertIds
  import opened Delivery

  // ---- the whole pipeline ----

  /** `decided` are all decisions committed so far, announced or not. */
  datatype Pipeline = Pipeline(states: States, world: World, decided: seq<Decision>, clock: Time)

  datatype Event =
    | Evaluate(checks: seq<Check>, now: Time)
    | Aborted(checks: seq<Check>, now: Time)
    | Deliver(action: Action)

  /** Evaluations on a nondecreasing clock, each clean. `Aborted` is an evaluation whose transaction
      did not commit; delivery never queues. */
  ghost function Next(policies: Policies, entityId: string, config: DeliveryConfig, p: Pipeline, e: Event): Option<Pipeline> {
    match e
    case Evaluate(checks, now) =>
      if now >= p.clock && Clean(policies, p.states, p.decided, entityId, checks, now) then
        var decisions := Decisions(policies, p.states, entityId, checks, now);
        Some(Pipeline(
          StatesAfter(policies, p.states, entityId, checks, now),
          p.world.(rows := EnqueueAll(p.world.rows, IntentsFromDecisions(decisions, now))),
          p.decided + decisions,
          now))
      else None
    case Aborted(checks, now) => Some(p)
    case Deliver(action) =>
      if action.Queue? then None
      else match Step(p.world, action, config) case Some(w) => Some(p.(world := w)) case None => None
  }

  ghost function Run(policies: Policies, entityId: string, config: DeliveryConfig, p: Pipeline, events: seq<Event>): Option<Pipeline> {
    if events == [] then Some(p)
    else match Run(policies, entityId, config, p, events[..|events| - 1])
      case None => None
      case Some(q) => Next(policies, entityId, config, q, events[|events| - 1])
  }

  /** The outbox holds one row per committed notification, and nothing else. */
  ghost predicate Mirrors(rows: map<NotificationId, OutboxRow>, committed: seq<Decision>) {
    && (forall k | 0 <= k < |committed| ::
          IdOf(committed[k]) in rows && rows[IdOf(committed[k])].intent.decision == committed[k])
    && (forall id | id in rows :: Queued(id, committed))
  }

  ghost predicate Queued(id: NotificationId, committed: seq<Decision>) {
    exists k :: 0 <= k < |committed| && IdOf(committed[k]) == id
  }

  ghost predicate PipelineInv(p: Pipeline, entityId: string, config: DeliveryConfig) {
    && IdsInv(p.states, p.decided, p.clock, entityId)
    && DistinctIds(p.decided)
    && Mirrors(p.world.rows, Notifying(p.decided))
    && Inv(p.world, config)
  }

  lemma NotQueuedYet(committed: seq<Decision>, said: seq<Decision>, j: nat)
    requires DistinctIds(committed + said) && j < |said|
    ensures !Queued(IdOf(said[j]), committed)
  {
    var all := committed + said;
    forall i | 0 <= i < |committed| ensures IdOf(committed[i]) != IdOf(said[j]) {
      assert all[i] == committed[i] && all[|committed| + j] == said[j];
    }
  }

  lemma QueueKeepsMirror(rows: map<NotificationId, OutboxRow>, committed: seq<Decision>, decisions: seq<Decision>, now: Time)
    requires Mirrors(rows, committed)
    requires DistinctIds(committed + Notifying(decisions))
    ensures Mirrors(EnqueueAll(rows, IntentsFromDecisions(decisions, now)), committed + Notifying(decisions))
  {
    hide EnqueueAll, Notifying;
    var intents := IntentsFromDecisions(decisions, now);
    var said := Notifying(decisions);
    var all, after := committed + said, EnqueueAll(rows, intents);
    forall k | 0 <= k < |all| ensures IdOf(all[k]) in after && after[IdOf(all[k])].intent.decision == all[k] {
      EnqueuedRows(rows, intents, IdOf(all[k]));
      if k >= |committed| {
        var j := k - |committed|;
        assert intents[j] in intents && intents[j].id == IdOf(all[k]);
        NotQueuedYet(committed, said, j);
        var i :| i in intents && i.id == IdOf(all[k]) && after[IdOf(all[k])] == FreshRow(i);
        var m :| 0 <= m < |intents| && intents[m] == i;
        assert IdOf(all[|committed| + m]) == IdOf(all[k]);
        assert m == j;
      }
    }
    forall id | id in after ensures Queued(id, all) {
      EnqueuedRows(rows, intents, id);
      if id in rows {
        assert Queued(id, committed);
        var k :| 0 <= k < |committed| && IdOf(committed[k]) == id;
        assert all[k] == committed[k];
      } else {
        var i :| i in intents && i.id == id;
        var m :| 0 <= m < |intents| && intents[m] == i;
        assert all[|committed| + m] == said[m];
      }
    }
  }

  /** Delivery changes neither which notifications exist nor what they say. */
  lemma DeliveryKeepsIntents(w: World, a: Action, config: DeliveryConfig)
    requires Inv(w, config) && !a.Queue? && Step(w, a, config).Some?
    ensures var after := Step(w, a, config).value;
            after.rows.Keys == w.rows.Keys && forall id | id in w.rows :: after.rows[id].intent == w.rows[id].intent
  {
    hide RowInv, Log;
  }

  lemma NextKeepsInv(policies: Policies, entityId: string, config: DeliveryConfig, p: Pipeline, e: Event)
    requires PipelineInv(p, entityId, config)
    requires Next(policies, entityId, config, p, e).Some?
    ensures PipelineInv(Next(policies, entityId, config, p, e).value, entityId, config)
  {
    hide RowInv, ReduceCheck, EnqueueAll, Step, IdsInv, DistinctIds, Mirrors, Notifying, Clean, StatesAfter, Decisions, Inv;
    match e {
      case Evaluate(checks, now) =>
        var decisions := Decisions(policies, p.states, entityId, checks, now);
        ReportKeepsDistinct(policies, p.states, p.decided, p.clock, entityId, checks, now);
        ReportKeepsInv(policies, p.states, p.decided, p.clock, entityId, checks, now);
        NotifyingDistinct(p.decided + decisions);
        NotifyingConcat(p.decided, decisions);
        QueueKeepsMirror(p.world.rows, Notifying(p.decided), decisions, now);
        QueueKeepsInv(p.world, IntentsFromDecisions(decisions, now), config);
      case Aborted(checks, now) =>
      case Deliver(action) =>
        StepKeepsInv(p.world, action, config);
        DeliveryKeepsIntents(p.world, action, config);
        SameIntentsMirror(p.world.rows, Step(p.world, action, config).value.rows, Notifying(p.decided));
    }
  }

  lemma SameIntentsMirror(rows: map<NotificationId, OutboxRow>, after: map<NotificationId, OutboxRow>, committed: seq<Decision>)
    requires Mirrors(rows, committed) && after.Keys == rows.Keys
    requires forall id | id in rows :: after[id].intent == rows[id].intent
    ensures Mirrors(after, committed)
  {
    hide Queued;
  }

  lemma {:induction false} RunKeepsInv(policies: Policies, entityId: string, config: DeliveryConfig, p: Pipeline, events: seq<Event>)
    requires PipelineInv(p, entityId, config)
    requires Run(policies, entityId, config, p, events).Some?
    ensures PipelineInv(Run(policies, entityId, config, p, events).value, entityId, config)
  {
    hide PipelineInv, Next;
    if events != [] {
      var init := events[..|events| - 1];
      RunKeepsInv(policies, entityId, config, p, init);
      NextKeepsInv(policies, entityId, config, Run(policies, entityId, config, p, init).value, events[|events| - 1]);
    }
  }

  function Opening(clock: Time): Pipeline {
    Pipeline(map[], EMPTY, [], clock)
  }

  /** After any run of evaluations, aborted evaluations, deliveries and crashes: every committed
      notify-worthy decision has its own row saying what was decided, no row stands for anything
      else, and there are as many rows as decisions. */
  lemma OutboxIsWhatWasDecided(policies: Policies, entityId: string, config: DeliveryConfig, clock: Time, events: seq<Event>)
    requires Run(policies, entityId, config, Opening(clock), events).Some?
    ensures var p := Run(policies, entityId, config, Opening(clock), events).value; var committed := Notifying(p.decided);
            && Mirrors(p.world.rows, committed)
            && DistinctIds(committed)
            && |p.world.rows| == |committed|
  {
    OpeningInv(entityId, config, clock);
    RunKeepsInv(policies, entityId, config, Opening(clock), events);
    hide Run, RowInv, Notifying;
    var p := Run(policies, entityId, config, Opening(clock), events).value;
    var committed := Notifying(p.decided);
    NotifyingDistinct(p.decided);
    IdsCount(committed);
    assert p.world.rows.Keys == IdSet(committed) by {
      forall id ensures id in p.world.rows.Keys <==> id in IdSet(committed) {
        if id in p.world.rows { assert Queued(id, committed); }
      }
    }
  }

  lemma OpeningInv(entityId: string, config: DeliveryConfig, clock: Time)
    ensures PipelineInv(Opening(clock), entityId, config)
  {
    NothingDecided(entityId, clock);
    NotifyingNone();
    hide IdsInv, Notifying, DistinctIds;
  }

  /** A later report that names each check once is always clean. */
  lemma LaterReportIsClean(policies: Policies, entityId: string, p: Pipeline, config: DeliveryConfig, checks: seq<Check>, now: Time)
    requires PipelineInv(p, entityId, config) && DistinctChecks(checks) && now > p.clock
    ensures Clean(policies, p.states, p.decided, entityId, checks, now)
  {
    NoneAlike(policies, p.states, entityId, checks);
    hide KindOf, TwoAlike, Mirrors, Inv;
    forall k | 0 <= k < |p.decided| ensures p.decided[k].firstSeenAt < now {
      assert DecisionInv(p.decided[k], p.states, p.decided, p.clock);
    }
  }

  function IdSet(ds: seq<Decision>): set<NotificationId> {
    set k | 0 <= k < |ds| :: IdOf(ds[k])
  }

  lemma {:induction false} IdsCount(ds: seq<Decision>)
    requires DistinctIds(ds)
    ensures |IdSet(ds)| == |ds|
  {
    hide IdOf;
    if ds != [] {
      var init, last := ds[..|ds| - 1], ds[|ds| - 1];
      IdsCount(init);
      assert IdSet(ds) == IdSet(init) + {IdOf(last)} by {
        forall id ensures id in IdSet(ds) <==> id in IdSet(init) || id == IdOf(last) {
          if id in IdSet(init) {
            var k :| 0 <= k < |init| && IdOf(init[k]) == id;
            assert ds[k] == init[k];
          }
          if id in IdSet(ds) {
            var k :| 0 <= k < |ds| && IdOf(ds[k]) == id;
            if k < |init| { assert init[k] == ds[k]; }
          }
          assert ds[|init|] == last;
        }
      }
      assert IdOf(last) !in IdSet(init);
    }
  }

  // ---- unclean reports ----

  lemma OneCheckReport(policies: Policies, entityId: string, reports: seq<Report>, check: Check, now: Time)
    ensures var states, more := StatesOver(policies, entityId, reports), reports + [Report([check], now)];
            var r := ReduceOne(policies, states, entityId, check, now);
            && StatesOver(policies, entityId, more) == (if r.row.Some? then Upsert(states, r.row.value) else states)
            && DecidedOver(policies, entityId, more)
                 == DecidedOver(policies, entityId, reports) + if r.decision.Some? then [r.decision.value] else []
  {
    hide ReduceOne;
    var more := reports + [Report([check], now)];
    assert more[..|more| - 1] == reports;
    var states := StatesOver(policies, entityId, reports);
    assert [check][..1] == [check] && [check][..0] == [];
    StatesSnoc(policies, states, entityId, [check], now, 0);
    DecisionsSnoc(policies, states, entityId, [check], now, 0);
    assert StatesAfter(policies, states, entityId, [], now) == states;
    assert Decisions(policies, states, entityId, [], now) == [];
  }

  /** Three reports at one instant, alerting, healthy, alerting: the second episode's NEW derives the
      first one's id, so its notification would be taken for a duplicate and dropped. */
  lemma SameInstantCollides(policies: Policies, alerting: Check, healthy: Check, entityId: string, now: Time)
    requires alerting.id == healthy.id
    requires policies(alerting.id).severityFor(alerting.status).Some? && policies(alerting.id).severityFor(healthy.status).None?
    ensures var ds := DecidedOver(policies, entityId, [Report([alerting], now), Report([healthy], now), Report([alerting], now)]);
            |ds| == 3 && IdOf(ds[0]) == IdOf(ds[2])
  {
    var a, b := Report([alerting], now), Report([healthy], now);
    assert StatesOver(policies, entityId, []) == map[] && DecidedOver(policies, entityId, []) == [];
    AlertsTwice(policies, [], alerting, healthy, entityId, now, a, b);
    hide *;
    assert [] + [a] + [b] + [a] == [a, b, a];
  }

  lemma AlertsTwice(policies: Policies, reports: seq<Report>, alerting: Check, healthy: Check, entityId: string, now: Time, a: Report, b: Report)
    requires alerting.id == healthy.id && a == Report([alerting], now) && b == Report([healthy], now)
    requires policies(alerting.id).severityFor(alerting.status).Some? && policies(alerting.id).severityFor(healthy.status).None?
    requires !IsOpen(Lookup(StatesOver(policies, entityId, reports), Fingerprint(alerting.id, entityId)))
    ensures var n, ds := |DecidedOver(policies, entityId, reports)|, DecidedOver(policies, entityId, reports + [a] + [b] + [a]);
            |ds| == n + 3 && IdOf(ds[n]) == IdOf(ds[n + 2])
  {
    hide StatesOver, DecidedOver, ReduceOne;
    var one := reports + [a];
    var two := one + [b];
    OneCheckReport(policies, entityId, reports, alerting, now);
    OneCheckReport(policies, entityId, one, healthy, now);
    OneCheckReport(policies, entityId, two, alerting, now);
    OpensEpisode(policies, StatesOver(policies, entityId, reports), entityId, alerting, now);
    ClosesEpisode(policies, StatesOver(policies, entityId, one), entityId, healthy, now);
    OpensEpisode(policies, StatesOver(policies, entityId, two), entityId, alerting, now);
  }

  lemma OpensEpisode(policies: Policies, states: States, entityId: string, check: Check, now: Time)
    requires policies(check.id).severityFor(check.status).Some?
    requires !IsOpen(Lookup(states, Fingerprint(check.id, entityId)))
    ensures var r := ReduceOne(policies, states, entityId, check, now);
            && r.row.Some? && r.row.value.state.Open? && r.row.value.fingerprint == Fingerprint(check.id, entityId)
            && r.decision.Some? && IdOf(r.decision.value) == NotificationId(Fingerprint(check.id, entityId), now, New, 1)
  {
  }

  lemma ClosesEpisode(policies: Policies, states: States, entityId: string, check: Check, now: Time)
    requires policies(check.id).severityFor(check.status).None?
    requires IsOpen(Lookup(states, Fingerprint(check.id, entityId)))
    ensures var r := ReduceOne(policies, states, entityId, check, now);
            && r.row.Some? && r.row.value.state.Closed? && r.row.value.fingerprint == Lookup(states, Fingerprint(check.id, entityId)).value.fingerprint
            && r.decision.Some?
  {
  }

  /** Two results for one check in one evaluation reduce against the same row and collide. */
  lemma DuplicateChecksCollide(policies: Policies, states: States, check: Check, entityId: string, now: Time)
    requires policies(check.id).severityFor(check.status).Some?
    requires Fingerprint(check.id, entityId) !in states
    ensures var ds := Decisions(policies, states, entityId, [check, check], now);
            |ds| == 2 && IdOf(ds[0]) == IdOf(ds[1])
  {
    assert [check, check][..1] == [check] && [check][..0] == [];
    var d := ReduceOne(policies, states, entityId, check, now).decision.value;
    assert Decisions(policies, states, entityId, [], now) == [];
    assert Decisions(policies, states, entityId, [check], now) == [d];
    assert Decisions(policies, states, entityId, [check, check], now) == [d] + [d];
  }
}
