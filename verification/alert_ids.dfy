/** When the ids derived from decisions are distinct: exactly when no report makes two results of one
    check decide alike, and no check opens two episodes at one instant. */
module AlertIds {
  import opened Options
  import opened AlertTypes
  import opened Reducer
  import opened AlertEngine

  ghost predicate DistinctIds(ds: seq<Decision>) {
    forall i, j | 0 <= i < j < |ds| :: IdOf(ds[i]) != IdOf(ds[j])
  }

  // ---- what one result decides ----

  predicate IsOpen(row: Option<StateRow>) {
    row.Some? && row.value.state.Open?
  }

  /** The kind of decision a status makes against a row, if any. */
  function KindDecided(policy: Policy, row: Option<StateRow>, status: HealthStatus): Option<Kind> {
    var severity := policy.severityFor(status);
    if severity.None? then (if IsOpen(row) then Some(Recovered) else None)
    else if !IsOpen(row) then Some(New)
    else if severity.value == row.value.severity then None
    else if IsWorse(severity.value, row.value.severity) then Some(Escalated)
    else Some(Deescalated)
  }

  function KindOf(policies: Policies, states: States, entityId: string, check: Check): Option<Kind> {
    KindDecided(policies(check.id), Lookup(states, Fingerprint(check.id, entityId)), check.status)
  }

  lemma DecisionShape(policies: Policies, states: States, entityId: string, check: Check, now: Time)
    ensures var r, kind := ReduceOne(policies, states, entityId, check, now), KindOf(policies, states, entityId, check);
            && (r.decision.Some? <==> kind.Some?)
            && (r.decision.Some? ==> r.decision.value.kind == kind.value && r.decision.value.fingerprint == Fingerprint(check.id, entityId))
            && (kind == Some(New) ==> r.decision.value.firstSeenAt == now && r.decision.value.occurrenceCount == 1)
            && (kind.Some? && kind != Some(New) ==> Continues(r.decision.value, Lookup(states, Fingerprint(check.id, entityId))))
  {
  }

  /** A decision about an episode that is already open. */
  predicate Continues(d: Decision, row: Option<StateRow>) {
    && IsOpen(row) && d.firstSeenAt == row.value.firstSeenAt
    && d.occurrenceCount == row.value.occurrenceCount + if d.kind.Recovered? then 0 else 1
  }

  lemma RowShape(policies: Policies, states: States, entityId: string, check: Check, now: Time)
    requires Homed(states, entityId)
    ensures var r, row := ReduceOne(policies, states, entityId, check, now), Lookup(states, Fingerprint(check.id, entityId));
            && (r.row.Some? <==> row.Some? || KindOf(policies, states, entityId, check) == Some(New))
            && (r.row.Some? ==> r.row.value.fingerprint == Fingerprint(check.id, entityId))
            && (r.row.Some? && r.row.value.state.Open? ==>
                  if IsOpen(row) then r.row.value.firstSeenAt == row.value.firstSeenAt && r.row.value.occurrenceCount == row.value.occurrenceCount + 1
                  else KindOf(policies, states, entityId, check) == Some(New) && r.row.value.firstSeenAt == now && r.row.value.occurrenceCount == 1)
            && (r.row.Some? && !r.row.value.state.Open? ==> row.Some? && r.row.value.firstSeenAt == row.value.firstSeenAt)
  {
  }

  /** Two results of one check that make the same kind of decision against its row. */
  predicate Alike(policies: Policies, states: States, entityId: string, a: Check, b: Check) {
    && a.id == b.id
    && KindOf(policies, states, entityId, a).Some?
    && KindOf(policies, states, entityId, a) == KindOf(policies, states, entityId, b)
  }

  /** Whatever row the check has: two results of one report derive one id exactly when alike. */
  lemma AlikeIffSameId(policies: Policies, states: States, entityId: string, a: Check, b: Check, now: Time)
    ensures var r, s := ReduceOne(policies, states, entityId, a, now), ReduceOne(policies, states, entityId, b, now);
            Alike(policies, states, entityId, a, b) <==>
              r.decision.Some? && s.decision.Some? && IdOf(r.decision.value) == IdOf(s.decision.value)
  {
    hide ReduceOne, KindOf;
    DecisionShape(policies, states, entityId, a, now);
    DecisionShape(policies, states, entityId, b, now);
  }

  // ---- which result a decision comes from ----

  function Position(policies: Policies, states: States, entityId: string, checks: seq<Check>, now: Time, i: nat): nat
    requires i <= |checks|
  {
    |Decisions(policies, states, entityId, checks[..i], now)|
  }

  lemma DecisionsSnoc(policies: Policies, states: States, entityId: string, checks: seq<Check>, now: Time, i: nat)
    requires i < |checks|
    ensures var r := ReduceOne(policies, states, entityId, checks[i], now);
            Decisions(policies, states, entityId, checks[..i + 1], now)
              == Decisions(policies, states, entityId, checks[..i], now) + if r.decision.Some? then [r.decision.value] else []
  {
    assert checks[..i + 1][..i] == checks[..i];
  }

  lemma {:induction false} DecisionsPrefix(policies: Policies, states: States, entityId: string, checks: seq<Check>, now: Time, i: nat, j: nat)
    requires i <= j <= |checks|
    ensures var a, b := Decisions(policies, states, entityId, checks[..i], now), Decisions(policies, states, entityId, checks[..j], now);
            |a| <= |b| && a == b[..|a|]
    decreases j
  {
    hide ReduceOne, Decisions;
    if i < j {
      DecisionsPrefix(policies, states, entityId, checks, now, i, j - 1);
      DecisionsSnoc(policies, states, entityId, checks, now, j - 1);
    }
  }

  /** The decision of result `i` stands at its position, later results' decisions after it. */
  lemma Placed(policies: Policies, states: States, entityId: string, checks: seq<Check>, now: Time, i: nat)
    requires i < |checks|
    requires ReduceOne(policies, states, entityId, checks[i], now).decision.Some?
    ensures var ds, p := Decisions(policies, states, entityId, checks, now), Position(policies, states, entityId, checks, now, i);
            p < |ds| && ds[p] == ReduceOne(policies, states, entityId, checks[i], now).decision.value
    ensures forall j | i < j <= |checks| :: Position(policies, states, entityId, checks, now, i) < Position(policies, states, entityId, checks, now, j)
  {
    hide ReduceOne, Decisions;
    DecisionsSnoc(policies, states, entityId, checks, now, i);
    forall j | i < j <= |checks| ensures Position(policies, states, entityId, checks, now, i) < Position(policies, states, entityId, checks, now, j) {
      DecisionsPrefix(policies, states, entityId, checks, now, i + 1, j);
    }
    DecisionsPrefix(policies, states, entityId, checks, now, i + 1, |checks|);
    assert checks[..|checks|] == checks;
  }

  lemma {:induction false} SourceOf(policies: Policies, states: States, entityId: string, checks: seq<Check>, now: Time, n: nat, k: nat) returns (i: nat)
    requires n <= |checks| && k < Position(policies, states, entityId, checks, now, n)
    ensures i < n && Position(policies, states, entityId, checks, now, i) == k
    ensures ReduceOne(policies, states, entityId, checks[i], now).decision.Some?
    decreases n
  {
    hide ReduceOne, Decisions;
    if n == 0 {
      NoDecisions(policies, states, entityId, checks, now);
    } else {
      DecisionsSnoc(policies, states, entityId, checks, now, n - 1);
      if k < Position(policies, states, entityId, checks, now, n - 1) {
        i := SourceOf(policies, states, entityId, checks, now, n - 1, k);
      } else {
        i := n - 1;
      }
    }
  }

  lemma NoDecisions(policies: Policies, states: States, entityId: string, checks: seq<Check>, now: Time)
    ensures Position(policies, states, entityId, checks, now, 0) == 0
  {
    assert checks[..0] == [];
  }

  // ---- the exact condition ----

  /** Some episode of the check was opened at `t`. */
  ghost predicate Opened(decided: seq<Decision>, fp: Fingerprint, t: Time) {
    exists k :: 0 <= k < |decided| && decided[k].kind.New? && decided[k].fingerprint == fp && decided[k].firstSeenAt == t
  }

  ghost predicate TwoAlike(policies: Policies, states: States, entityId: string, checks: seq<Check>) {
    exists i, j :: 0 <= i < j < |checks| && Alike(policies, states, entityId, checks[i], checks[j])
  }

  ghost predicate OpensAgain(policies: Policies, states: States, decided: seq<Decision>, entityId: string, check: Check, now: Time) {
    KindOf(policies, states, entityId, check) == Some(New) && Opened(decided, Fingerprint(check.id, entityId), now)
  }

  /** A report in which no two results of one check decide alike, and none opens an episode at an
      instant at which its check already opened one. */
  ghost predicate Clean(policies: Policies, states: States, decided: seq<Decision>, entityId: string, checks: seq<Check>, now: Time) {
    && !TwoAlike(policies, states, entityId, checks)
    && forall i | 0 <= i < |checks| :: !OpensAgain(policies, states, decided, entityId, checks[i], now)
  }

  function StatesAfter(policies: Policies, states: States, entityId: string, checks: seq<Check>, now: Time): States {
    UpsertAll(states, NextRows(policies, states, entityId, checks, now))
  }

  /** How a decision bears on its check's row: an open row's own episode has not yet reached its count. */
  predicate Counted(d: Decision, row: Option<StateRow>) {
    IsOpen(row) && row.value.firstSeenAt == d.firstSeenAt ==>
      if d.kind.Recovered? then d.occurrenceCount < row.value.occurrenceCount else d.occurrenceCount <= row.value.occurrenceCount
  }

  ghost predicate DecisionInv(d: Decision, states: States, decided: seq<Decision>, clock: Time) {
    && (d.kind.New? ==> d.occurrenceCount == 1)
    && Opened(decided, d.fingerprint, d.firstSeenAt)
    && d.firstSeenAt <= clock
    && Counted(d, Lookup(states, d.fingerprint))
  }

  ghost predicate IdsInv(states: States, decided: seq<Decision>, clock: Time, entityId: string) {
    && Homed(states, entityId)
    && (forall k | 0 <= k < |decided| :: DecisionInv(decided[k], states, decided, clock))
    && (forall fp | fp in states :: Opened(decided, fp, states[fp].firstSeenAt))
  }

  lemma OpenedStays(decided: seq<Decision>, more: seq<Decision>, fp: Fingerprint, t: Time)
    ensures Opened(decided, fp, t) || Opened(more, fp, t) ==> Opened(decided + more, fp, t)
  {
    if Opened(decided, fp, t) {
      var k :| 0 <= k < |decided| && decided[k].kind.New? && decided[k].fingerprint == fp && decided[k].firstSeenAt == t;
      assert (decided + more)[k] == decided[k];
    }
    if Opened(more, fp, t) {
      var k :| 0 <= k < |more| && more[k].kind.New? && more[k].fingerprint == fp && more[k].firstSeenAt == t;
      assert (decided + more)[|decided| + k] == more[k];
    }
  }

  /** A new decision repeats an old id exactly when it opens an episode at an instant already used. */
  lemma OldAndNew(policies: Policies, states: States, decided: seq<Decision>, clock: Time, entityId: string, check: Check, now: Time, k: nat)
    requires IdsInv(states, decided, clock, entityId) && k < |decided|
    requires ReduceOne(policies, states, entityId, check, now).decision.Some?
    ensures IdOf(decided[k]) == IdOf(ReduceOne(policies, states, entityId, check, now).decision.value) ==>
              OpensAgain(policies, states, decided, entityId, check, now)
  {
    DecisionShape(policies, states, entityId, check, now);
    assert DecisionInv(decided[k], states, decided, clock);
    hide ReduceOne, KindOf;
  }

  lemma OpensAgainCollides(policies: Policies, states: States, decided: seq<Decision>, clock: Time, entityId: string, check: Check, now: Time) returns (k: nat)
    requires IdsInv(states, decided, clock, entityId) && OpensAgain(policies, states, decided, entityId, check, now)
    ensures k < |decided| && ReduceOne(policies, states, entityId, check, now).decision.Some?
    ensures IdOf(decided[k]) == IdOf(ReduceOne(policies, states, entityId, check, now).decision.value)
  {
    DecisionShape(policies, states, entityId, check, now);
    hide ReduceOne, KindOf;
    k :| 0 <= k < |decided| && decided[k].kind.New? && decided[k].fingerprint == Fingerprint(check.id, entityId) && decided[k].firstSeenAt == now;
    assert DecisionInv(decided[k], states, decided, clock);
  }

  /** One report: the ids stay distinct exactly when it is clean. */
  lemma ReportKeepsDistinct(policies: Policies, states: States, decided: seq<Decision>, clock: Time, entityId: string, checks: seq<Check>, now: Time)
    requires IdsInv(states, decided, clock, entityId) && DistinctIds(decided)
    ensures DistinctIds(decided + Decisions(policies, states, entityId, checks, now)) <==> Clean(policies, states, decided, entityId, checks, now)
  {
    if Clean(policies, states, decided, entityId, checks, now) {
      CleanIsDistinct(policies, states, decided, clock, entityId, checks, now);
    } else {
      UncleanCollides(policies, states, decided, clock, entityId, checks, now);
    }
  }

  lemma CleanIsDistinct(policies: Policies, states: States, decided: seq<Decision>, clock: Time, entityId: string, checks: seq<Check>, now: Time)
    requires IdsInv(states, decided, clock, entityId) && DistinctIds(decided)
    requires Clean(policies, states, decided, entityId, checks, now)
    ensures DistinctIds(decided + Decisions(policies, states, entityId, checks, now))
  {
    hide ReduceOne, Decisions, IdsInv, Alike, OpensAgain, IdOf;
    var added := Decisions(policies, states, entityId, checks, now);
    var all, n := decided + added, |decided|;
    assert checks[..|checks|] == checks;
    forall k, l | 0 <= k < l < |all| ensures IdOf(all[k]) != IdOf(all[l]) {
      if l >= n {
        var j := SourceOf(policies, states, entityId, checks, now, |checks|, l - n);
        Placed(policies, states, entityId, checks, now, j);
        if k < n {
          OldAndNew(policies, states, decided, clock, entityId, checks[j], now, k);
        } else {
          var i := SourceOf(policies, states, entityId, checks, now, |checks|, k - n);
          Placed(policies, states, entityId, checks, now, i);
          AlikeIffSameId(policies, states, entityId, checks[i], checks[j], now);
          assert i < j;
        }
      }
    }
  }

  lemma UncleanCollides(policies: Policies, states: States, decided: seq<Decision>, clock: Time, entityId: string, checks: seq<Check>, now: Time)
    requires IdsInv(states, decided, clock, entityId)
    requires !Clean(policies, states, decided, entityId, checks, now)
    ensures !DistinctIds(decided + Decisions(policies, states, entityId, checks, now))
  {
    hide ReduceOne, Decisions, IdsInv, Alike, OpensAgain, IdOf;
    var added := Decisions(policies, states, entityId, checks, now);
    var all, n := decided + added, |decided|;
    if TwoAlike(policies, states, entityId, checks) {
      var i, j :| 0 <= i < j < |checks| && Alike(policies, states, entityId, checks[i], checks[j]);
      AlikeIffSameId(policies, states, entityId, checks[i], checks[j], now);
      Placed(policies, states, entityId, checks, now, i);
      Placed(policies, states, entityId, checks, now, j);
      var p, q := Position(policies, states, entityId, checks, now, i), Position(policies, states, entityId, checks, now, j);
      assert IdOf(all[n + p]) == IdOf(all[n + q]);
    } else {
      var i :| 0 <= i < |checks| && OpensAgain(policies, states, decided, entityId, checks[i], now);
      var k := OpensAgainCollides(policies, states, decided, clock, entityId, checks[i], now);
      Placed(policies, states, entityId, checks, now, i);
      assert IdOf(all[k]) == IdOf(all[n + Position(policies, states, entityId, checks, now, i)]);
    }
  }

  // ---- what a clean report keeps ----

  /** A row after a report: the row some result of its check left, or the old one if it had none. */
  lemma {:induction false} RowSource(policies: Policies, states: States, entityId: string, checks: seq<Check>, now: Time, n: nat, fp: Fingerprint)
    requires Homed(states, entityId) && n <= |checks|
    ensures var after := StatesAfter(policies, states, entityId, checks[..n], now);
            fp in after ==>
              || (fp in states && after[fp] == states[fp] && forall i | 0 <= i < n :: Fingerprint(checks[i].id, entityId) != fp)
              || exists i :: 0 <= i < n && Fingerprint(checks[i].id, entityId) == fp && ReduceOne(policies, states, entityId, checks[i], now).row == Some(after[fp])
    ensures var after := StatesAfter(policies, states, entityId, checks[..n], now);
            fp !in after ==> fp !in states && forall i | 0 <= i < n && Fingerprint(checks[i].id, entityId) == fp ::
              ReduceOne(policies, states, entityId, checks[i], now).row.None?
    decreases n
  {
    if n == 0 {
      assert checks[..0] == [];
    } else {
      RowSource(policies, states, entityId, checks, now, n - 1, fp);
      RowShape(policies, states, entityId, checks[n - 1], now);
      StatesSnoc(policies, states, entityId, checks, now, n - 1);
      hide ReduceOne, StatesAfter, KindOf;
    }
  }

  lemma StatesSnoc(policies: Policies, states: States, entityId: string, checks: seq<Check>, now: Time, i: nat)
    requires i < |checks|
    ensures var before, r := StatesAfter(policies, states, entityId, checks[..i], now), ReduceOne(policies, states, entityId, checks[i], now);
            StatesAfter(policies, states, entityId, checks[..i + 1], now) == if r.row.Some? then Upsert(before, r.row.value) else before
  {
    hide ReduceOne;
    assert checks[..i + 1][..i] == checks[..i];
    var rows := NextRows(policies, states, entityId, checks[..i], now);
    var r := ReduceOne(policies, states, entityId, checks[i], now);
    if r.row.Some? {
      assert (rows + [r.row.value])[..|rows|] == rows;
    } else {
      assert rows + [] == rows;
    }
  }

  lemma RowAfter(policies: Policies, states: States, entityId: string, checks: seq<Check>, now: Time, fp: Fingerprint) returns (source: Option<Check>)
    requires Homed(states, entityId) && fp in StatesAfter(policies, states, entityId, checks, now)
    ensures var after := StatesAfter(policies, states, entityId, checks, now);
            match source
            case None => fp in states && after[fp] == states[fp] && forall c | c in checks :: Fingerprint(c.id, entityId) != fp
            case Some(c) => c in checks && Fingerprint(c.id, entityId) == fp && ReduceOne(policies, states, entityId, c, now).row == Some(after[fp])
  {
    RowSource(policies, states, entityId, checks, now, |checks|, fp);
    assert checks[..|checks|] == checks;
    hide ReduceOne, StatesAfter;
    var after := StatesAfter(policies, states, entityId, checks, now);
    if i :| 0 <= i < |checks| && Fingerprint(checks[i].id, entityId) == fp && ReduceOne(policies, states, entityId, checks[i], now).row == Some(after[fp]) {
      source := Some(checks[i]);
    } else {
      source := None;
    }
  }

  lemma ReportKeepsHomed(policies: Policies, states: States, entityId: string, checks: seq<Check>, now: Time)
    requires Homed(states, entityId)
    ensures Homed(StatesAfter(policies, states, entityId, checks, now), entityId)
  {
    hide StatesAfter, ReduceOne, KindOf;
    forall fp | fp in StatesAfter(policies, states, entityId, checks, now)
      ensures StatesAfter(policies, states, entityId, checks, now)[fp].fingerprint == fp && fp.entityId == entityId
    {
      var source := RowAfter(policies, states, entityId, checks, now, fp);
      if source.Some? { RowShape(policies, states, entityId, source.value, now); }
    }
  }

  /** Every row's episode was opened by some decision. */
  lemma ReportKeepsOpened(policies: Policies, states: States, decided: seq<Decision>, entityId: string, checks: seq<Check>, now: Time, fp: Fingerprint)
    requires Homed(states, entityId) && forall x | x in states :: Opened(decided, x, states[x].firstSeenAt)
    requires fp in StatesAfter(policies, states, entityId, checks, now)
    ensures Opened(decided + Decisions(policies, states, entityId, checks, now), fp, StatesAfter(policies, states, entityId, checks, now)[fp].firstSeenAt)
  {
    var row, added := StatesAfter(policies, states, entityId, checks, now)[fp], Decisions(policies, states, entityId, checks, now);
    var source := RowAfter(policies, states, entityId, checks, now, fp);
    OpenedStays(decided, added, fp, row.firstSeenAt);
    if source.Some? {
      var c := source.value;
      RowShape(policies, states, entityId, c, now);
      DecisionShape(policies, states, entityId, c, now);
      if KindOf(policies, states, entityId, c) == Some(New) && row.state.Open? {
        NewIsOpened(policies, states, entityId, checks, now, c);
      }
    }
    hide StatesAfter, ReduceOne, KindOf, Decisions, Opened;
  }

  lemma NewIsOpened(policies: Policies, states: States, entityId: string, checks: seq<Check>, now: Time, c: Check)
    requires c in checks && KindOf(policies, states, entityId, c) == Some(New)
    ensures Opened(Decisions(policies, states, entityId, checks, now), Fingerprint(c.id, entityId), now)
  {
    DecisionShape(policies, states, entityId, c, now);
    hide ReduceOne, KindOf, Decisions;
    var i :| 0 <= i < |checks| && checks[i] == c;
    Placed(policies, states, entityId, checks, now, i);
    var p := Position(policies, states, entityId, checks, now, i);
    assert Decisions(policies, states, entityId, checks, now)[p].kind.New?;
  }

  /** The new row against the report's own decisions and the earlier ones. */
  lemma CountedAfter(policies: Policies, states: States, decided: seq<Decision>, clock: Time, entityId: string, checks: seq<Check>, now: Time, d: Decision)
    requires IdsInv(states, decided, clock, entityId) && Clean(policies, states, decided, entityId, checks, now)
    requires Counted(d, Lookup(states, d.fingerprint)) && Opened(decided, d.fingerprint, d.firstSeenAt)
    ensures Counted(d, Lookup(StatesAfter(policies, states, entityId, checks, now), d.fingerprint))
  {
    var after := StatesAfter(policies, states, entityId, checks, now);
    if d.fingerprint in after {
      var source := RowAfter(policies, states, entityId, checks, now, d.fingerprint);
      if source.Some? {
        var c := source.value;
        RowShape(policies, states, entityId, c, now);
        var i :| 0 <= i < |checks| && checks[i] == c;
        assert !OpensAgain(policies, states, decided, entityId, checks[i], now);
      }
    }
    hide StatesAfter, ReduceOne, KindOf, Opened, IdsInv, TwoAlike;
  }

  lemma OwnCountedAfter(policies: Policies, states: States, entityId: string, checks: seq<Check>, now: Time, a: Check)
    requires Homed(states, entityId) && a in checks
    requires ReduceOne(policies, states, entityId, a, now).decision.Some?
    ensures var d := ReduceOne(policies, states, entityId, a, now).decision.value;
            Counted(d, Lookup(StatesAfter(policies, states, entityId, checks, now), d.fingerprint))
  {
    var d := ReduceOne(policies, states, entityId, a, now).decision.value;
    DecisionShape(policies, states, entityId, a, now);
    if d.fingerprint in StatesAfter(policies, states, entityId, checks, now) {
      var source := RowAfter(policies, states, entityId, checks, now, d.fingerprint);
      if source.Some? {
        RowShape(policies, states, entityId, source.value, now);
      }
    }
    hide StatesAfter, ReduceOne, KindOf;
  }

  lemma NewDecisionInv(policies: Policies, states: States, decided: seq<Decision>, clock: Time, entityId: string, checks: seq<Check>, now: Time, k: nat)
    requires IdsInv(states, decided, clock, entityId) && clock <= now
    requires k < |Decisions(policies, states, entityId, checks, now)|
    ensures var added := Decisions(policies, states, entityId, checks, now);
            DecisionInv(added[k], StatesAfter(policies, states, entityId, checks, now), decided + added, now)
  {
    var added := Decisions(policies, states, entityId, checks, now);
    assert checks[..|checks|] == checks;
    var i := SourceOf(policies, states, entityId, checks, now, |checks|, k);
    var c := checks[i];
    Placed(policies, states, entityId, checks, now, i);
    DecisionShape(policies, states, entityId, c, now);
    OwnCountedAfter(policies, states, entityId, checks, now, c);
    OpenedStays(decided, added, added[k].fingerprint, added[k].firstSeenAt);
    if KindOf(policies, states, entityId, c) == Some(New) {
      NewIsOpened(policies, states, entityId, checks, now, c);
    } else {
      RowOpenedBy(states, decided, clock, entityId, added[k].fingerprint);
    }
    hide StatesAfter, ReduceOne, KindOf, Decisions, Opened, IdsInv, Counted;
  }

  lemma RowOpenedBy(states: States, decided: seq<Decision>, clock: Time, entityId: string, fp: Fingerprint)
    requires IdsInv(states, decided, clock, entityId)
    ensures fp in states ==> Opened(decided, fp, states[fp].firstSeenAt) && states[fp].firstSeenAt <= clock
  {
    if fp in states {
      var k :| 0 <= k < |decided| && decided[k].kind.New? && decided[k].fingerprint == fp && decided[k].firstSeenAt == states[fp].firstSeenAt;
      assert DecisionInv(decided[k], states, decided, clock);
    }
  }

  lemma ReportKeepsInv(policies: Policies, states: States, decided: seq<Decision>, clock: Time, entityId: string, checks: seq<Check>, now: Time)
    requires IdsInv(states, decided, clock, entityId) && clock <= now
    requires Clean(policies, states, decided, entityId, checks, now)
    ensures IdsInv(StatesAfter(policies, states, entityId, checks, now), decided + Decisions(policies, states, entityId, checks, now), now, entityId)
  {
    var after, added := StatesAfter(policies, states, entityId, checks, now), Decisions(policies, states, entityId, checks, now);
    var all := decided + added;
    ReportKeepsHomed(policies, states, entityId, checks, now);
    forall k | 0 <= k < |all| ensures DecisionInv(all[k], after, all, now) {
      if k < |decided| {
        assert DecisionInv(decided[k], states, decided, clock);
        OpenedStays(decided, added, all[k].fingerprint, all[k].firstSeenAt);
        CountedAfter(policies, states, decided, clock, entityId, checks, now, decided[k]);
      } else {
        NewDecisionInv(policies, states, decided, clock, entityId, checks, now, k - |decided|);
      }
      hide StatesAfter, ReduceOne, KindOf, Decisions, Opened, Clean, Counted;
    }
    forall fp | fp in after ensures Opened(all, fp, after[fp].firstSeenAt) {
      ReportKeepsOpened(policies, states, decided, entityId, checks, now, fp);
    }
    hide StatesAfter, ReduceOne, KindOf, Decisions, Opened, Clean, DecisionInv;
  }

  // ---- whole runs ----

  datatype Report = Report(checks: seq<Check>, now: Time)

  function StatesOver(policies: Policies, entityId: string, reports: seq<Report>): States {
    if reports == [] then map[]
    else
      var last := reports[|reports| - 1];
      StatesAfter(policies, StatesOver(policies, entityId, reports[..|reports| - 1]), entityId, last.checks, last.now)
  }

  function DecidedOver(policies: Policies, entityId: string, reports: seq<Report>): seq<Decision> {
    if reports == [] then []
    else
      var init, last := reports[..|reports| - 1], reports[|reports| - 1];
      DecidedOver(policies, entityId, init) + Decisions(policies, StatesOver(policies, entityId, init), entityId, last.checks, last.now)
  }

  ghost predicate Ordered(reports: seq<Report>) {
    forall i, j | 0 <= i <= j < |reports| :: reports[i].now <= reports[j].now
  }

  ghost predicate CleanAt(policies: Policies, entityId: string, reports: seq<Report>, i: nat)
    requires i < |reports|
  {
    Clean(policies, StatesOver(policies, entityId, reports[..i]), DecidedOver(policies, entityId, reports[..i]), entityId, reports[i].checks, reports[i].now)
  }

  ghost predicate AllClean(policies: Policies, entityId: string, reports: seq<Report>) {
    forall i | 0 <= i < |reports| :: CleanAt(policies, entityId, reports, i)
  }

  function ClockOf(reports: seq<Report>, start: Time): Time {
    if reports == [] then start else reports[|reports| - 1].now
  }

  lemma AllCleanSnoc(policies: Policies, entityId: string, reports: seq<Report>)
    requires reports != []
    ensures AllClean(policies, entityId, reports)
       <==> AllClean(policies, entityId, reports[..|reports| - 1]) && CleanAt(policies, entityId, reports, |reports| - 1)
  {
    hide Clean, StatesOver, DecidedOver;
    var n := |reports| - 1;
    var init := reports[..n];
    forall i | 0 <= i < n ensures CleanAt(policies, entityId, init, i) <==> CleanAt(policies, entityId, reports, i) {
      assert init[..i] == reports[..i];
    }
  }

  lemma NothingDecided(entityId: string, clock: Time)
    ensures IdsInv(map[], [], clock, entityId) && DistinctIds([])
  {
  }

  lemma PrefixDistinct(a: seq<Decision>, b: seq<Decision>)
    requires DistinctIds(a + b)
    ensures DistinctIds(a)
  {
    forall i, j | 0 <= i < j < |a| ensures IdOf(a[i]) != IdOf(a[j]) {
      assert (a + b)[i] == a[i] && (a + b)[j] == a[j];
    }
  }

  /** Over every run of reports at nondecreasing times, repeated checks and equal times included: no
      two decisions ever derive one id, if and only if every report is clean. */
  lemma {:induction false} IdsDistinctExactlyWhen(policies: Policies, entityId: string, reports: seq<Report>)
    requires Ordered(reports)
    ensures DistinctIds(DecidedOver(policies, entityId, reports)) <==> AllClean(policies, entityId, reports)
    ensures AllClean(policies, entityId, reports) ==> forall start ::
              IdsInv(StatesOver(policies, entityId, reports), DecidedOver(policies, entityId, reports), ClockOf(reports, start), entityId)
  {
    hide Clean, IdsInv, DistinctIds, StatesAfter, Decisions;
    if reports == [] {
      NothingDecided(entityId, 0);
      forall start { NothingDecided(entityId, ClockOf(reports, start)); }
    } else {
      var init, last := reports[..|reports| - 1], reports[|reports| - 1];
      var states, decided := StatesOver(policies, entityId, init), DecidedOver(policies, entityId, init);
      IdsDistinctExactlyWhen(policies, entityId, init);
      AllCleanSnoc(policies, entityId, reports);
      var clock := ClockOf(init, last.now);
      if AllClean(policies, entityId, init) {
        ReportKeepsDistinct(policies, states, decided, clock, entityId, last.checks, last.now);
        if CleanAt(policies, entityId, reports, |init|) {
          ReportKeepsInv(policies, states, decided, clock, entityId, last.checks, last.now);
        }
      } else if DistinctIds(DecidedOver(policies, entityId, reports)) {
        PrefixDistinct(decided, Decisions(policies, states, entityId, last.checks, last.now));
      }
    }
  }

  // ---- the two halves of the condition, as a caller can test them ----

  ghost predicate DistinctChecks(checks: seq<Check>) {
    forall i, j | 0 <= i < j < |checks| :: checks[i].id != checks[j].id
  }

  /** An alerting result for a check whose closed row began at this very instant. */
  predicate Reopens(policies: Policies, states: States, entityId: string, check: Check, now: Time) {
    var row := Lookup(states, Fingerprint(check.id, entityId));
    policies(check.id).severityFor(check.status).Some? && row.Some? && row.value.state.Closed? && row.value.firstSeenAt == now
  }

  /** With distinct checks a row is its check's latest episode. */
  ghost predicate LatestInv(states: States, decided: seq<Decision>, clock: Time, entityId: string) {
    && Homed(states, entityId)
    && (forall k | 0 <= k < |decided| :: Latest(decided[k], states))
    && (forall fp | fp in states :: states[fp].firstSeenAt <= clock && Opened(decided, fp, states[fp].firstSeenAt))
  }

  predicate Latest(d: Decision, states: States) {
    d.fingerprint in states && d.firstSeenAt <= states[d.fingerprint].firstSeenAt
  }

  lemma OpensAgainIsReopens(policies: Policies, states: States, decided: seq<Decision>, clock: Time, entityId: string, check: Check, now: Time)
    requires LatestInv(states, decided, clock, entityId) && clock <= now
    ensures OpensAgain(policies, states, decided, entityId, check, now) <==> Reopens(policies, states, entityId, check, now)
  {
    var fp := Fingerprint(check.id, entityId);
    if Opened(decided, fp, now) {
      var k :| 0 <= k < |decided| && decided[k].kind.New? && decided[k].fingerprint == fp && decided[k].firstSeenAt == now;
      assert Latest(decided[k], states);
    }
  }

  lemma {:induction false} LatestStays(policies: Policies, states: States, entityId: string, checks: seq<Check>, clock: Time, now: Time, fp: Fingerprint)
    requires Homed(states, entityId) && clock <= now && fp in states && states[fp].firstSeenAt <= clock
    ensures var after := StatesAfter(policies, states, entityId, checks, now);
            fp in after && states[fp].firstSeenAt <= after[fp].firstSeenAt <= now
  {
    RowSource(policies, states, entityId, checks, now, |checks|, fp);
    assert checks[..|checks|] == checks;
    var after := StatesAfter(policies, states, entityId, checks, now);
    if fp in after {
      var source := RowAfter(policies, states, entityId, checks, now, fp);
      if source.Some? { RowShape(policies, states, entityId, source.value, now); }
    }
    hide StatesAfter, ReduceOne, KindOf;
  }

  /** With distinct checks the row that follows a decision is the one it came with. */
  lemma OwnRow(policies: Policies, states: States, entityId: string, checks: seq<Check>, now: Time, i: nat)
    requires Homed(states, entityId) && DistinctChecks(checks) && i < |checks|
    requires ReduceOne(policies, states, entityId, checks[i], now).decision.Some?
    ensures Latest(ReduceOne(policies, states, entityId, checks[i], now).decision.value, StatesAfter(policies, states, entityId, checks, now))
  {
    var c := checks[i];
    var fp := Fingerprint(c.id, entityId);
    DecisionShape(policies, states, entityId, c, now);
    RowShape(policies, states, entityId, c, now);
    RowSource(policies, states, entityId, checks, now, |checks|, fp);
    assert checks[..|checks|] == checks;
    if fp in StatesAfter(policies, states, entityId, checks, now) {
      var source := RowAfter(policies, states, entityId, checks, now, fp);
      if source.Some? {
        var j :| 0 <= j < |checks| && checks[j] == source.value;
        assert j == i;
        DecisionWithRow(policies, states, entityId, c, now);
      }
    }
    hide StatesAfter, ReduceOne, KindOf;
  }

  lemma DecisionWithRow(policies: Policies, states: States, entityId: string, check: Check, now: Time)
    ensures var r := ReduceOne(policies, states, entityId, check, now);
            r.decision.Some? ==> r.row.Some? && r.row.value.firstSeenAt == r.decision.value.firstSeenAt
  {
  }

  lemma ReportKeepsLatest(policies: Policies, states: States, decided: seq<Decision>, clock: Time, entityId: string, checks: seq<Check>, now: Time)
    requires LatestInv(states, decided, clock, entityId) && clock <= now && DistinctChecks(checks)
    ensures LatestInv(StatesAfter(policies, states, entityId, checks, now), decided + Decisions(policies, states, entityId, checks, now), now, entityId)
  {
    var after, added := StatesAfter(policies, states, entityId, checks, now), Decisions(policies, states, entityId, checks, now);
    var all := decided + added;
    ReportKeepsHomed(policies, states, entityId, checks, now);
    assert checks[..|checks|] == checks;
    hide StatesAfter, ReduceOne, KindOf, Decisions, Opened;
    forall k | 0 <= k < |all| ensures Latest(all[k], after) {
      if k < |decided| {
        assert Latest(decided[k], states);
        LatestStays(policies, states, entityId, checks, clock, now, all[k].fingerprint);
      } else {
        var i := SourceOf(policies, states, entityId, checks, now, |checks|, k - |decided|);
        Placed(policies, states, entityId, checks, now, i);
        OwnRow(policies, states, entityId, checks, now, i);
      }
    }
    forall fp | fp in after ensures after[fp].firstSeenAt <= now && Opened(all, fp, after[fp].firstSeenAt) {
      ReportKeepsOpened(policies, states, decided, entityId, checks, now, fp);
      RowsUpTo(policies, states, entityId, checks, clock, now, fp);
    }
  }

  lemma RowsUpTo(policies: Policies, states: States, entityId: string, checks: seq<Check>, clock: Time, now: Time, fp: Fingerprint)
    requires Homed(states, entityId) && clock <= now && forall x | x in states :: states[x].firstSeenAt <= clock
    requires fp in StatesAfter(policies, states, entityId, checks, now)
    ensures StatesAfter(policies, states, entityId, checks, now)[fp].firstSeenAt <= now
  {
    var source := RowAfter(policies, states, entityId, checks, now, fp);
    if source.Some? { RowShape(policies, states, entityId, source.value, now); }
    hide StatesAfter, ReduceOne, KindOf;
  }

  ghost predicate AllDistinctChecks(reports: seq<Report>) {
    forall i | 0 <= i < |reports| :: DistinctChecks(reports[i].checks)
  }

  lemma {:induction false} RunKeepsLatest(policies: Policies, entityId: string, reports: seq<Report>, clock: Time)
    requires Ordered(reports) && AllDistinctChecks(reports) && ClockOf(reports, clock) <= clock
    ensures LatestInv(StatesOver(policies, entityId, reports), DecidedOver(policies, entityId, reports), clock, entityId)
  {
    hide StatesAfter, Decisions, Opened, Latest, DistinctChecks;
    if reports != [] {
      var init, last := reports[..|reports| - 1], reports[|reports| - 1];
      RunKeepsLatest(policies, entityId, init, last.now);
      ReportKeepsLatest(policies, StatesOver(policies, entityId, init), DecidedOver(policies, entityId, init), last.now, entityId, last.checks, last.now);
    }
  }

  /** Reports that name each check once: ids are distinct if and only if no check alerts again at the
      very instant at which its closed row began. */
  lemma DistinctChecksCollideExactlyWhen(policies: Policies, entityId: string, reports: seq<Report>)
    requires Ordered(reports) && AllDistinctChecks(reports)
    ensures DistinctIds(DecidedOver(policies, entityId, reports)) <==>
      forall i, j | 0 <= i < |reports| && 0 <= j < |reports[i].checks| ::
        !Reopens(policies, StatesOver(policies, entityId, reports[..i]), entityId, reports[i].checks[j], reports[i].now)
  {
    hide StatesOver, DecidedOver, Reopens, OpensAgain, DistinctIds;
    IdsDistinctExactlyWhen(policies, entityId, reports);
    forall i | 0 <= i < |reports|
      ensures CleanAt(policies, entityId, reports, i) <==> forall j | 0 <= j < |reports[i].checks| ::
                !Reopens(policies, StatesOver(policies, entityId, reports[..i]), entityId, reports[i].checks[j], reports[i].now)
    {
      RunKeepsLatest(policies, entityId, reports[..i], reports[i].now);
      NoneAlike(policies, StatesOver(policies, entityId, reports[..i]), entityId, reports[i].checks);
      forall j | 0 <= j < |reports[i].checks| {
        OpensAgainIsReopens(policies, StatesOver(policies, entityId, reports[..i]), DecidedOver(policies, entityId, reports[..i]),
                            reports[i].now, entityId, reports[i].checks[j], reports[i].now);
      }
      hide LatestInv;
    }
  }

  lemma NoneAlike(policies: Policies, states: States, entityId: string, checks: seq<Check>)
    requires DistinctChecks(checks)
    ensures !TwoAlike(policies, states, entityId, checks)
  {
    hide KindOf;
  }

  /** Strictly increasing times: ids are distinct if and only if no report makes two results of one
      check decide alike. */
  lemma StrictTimesCollideExactlyWhen(policies: Policies, entityId: string, reports: seq<Report>)
    requires forall i, j | 0 <= i < j < |reports| :: reports[i].now < reports[j].now
    ensures DistinctIds(DecidedOver(policies, entityId, reports)) <==>
      forall i | 0 <= i < |reports| :: !TwoAlike(policies, StatesOver(policies, entityId, reports[..i]), entityId, reports[i].checks)
  {
    hide StatesOver, DecidedOver, DistinctIds, TwoAlike;
    IdsDistinctExactlyWhen(policies, entityId, reports);
    forall i | 0 <= i < |reports|
      ensures CleanAt(policies, entityId, reports, i) <==> !TwoAlike(policies, StatesOver(policies, entityId, reports[..i]), entityId, reports[i].checks)
    {
      OpenedEarlier(policies, entityId, reports[..i], reports[i].now);
    }
  }

  /** No decision is later than the last report. */
  lemma {:induction false} OpenedEarlier(policies: Policies, entityId: string, reports: seq<Report>, t: Time)
    requires forall i | 0 <= i < |reports| :: reports[i].now < t
    ensures forall fp :: !Opened(DecidedOver(policies, entityId, reports), fp, t)
  {
    hide StatesOver, Decisions;
    if reports != [] {
      var init, last := reports[..|reports| - 1], reports[|reports| - 1];
      OpenedEarlier(policies, entityId, init, t);
      NewsAreNow(policies, StatesOver(policies, entityId, init), entityId, last.checks, last.now);
      var before, added := DecidedOver(policies, entityId, init), Decisions(policies, StatesOver(policies, entityId, init), entityId, last.checks, last.now);
      hide DecidedOver;
      var all: seq<Decision> := before + added;
      forall fp ensures !Opened(all, fp, t) {
        forall k | 0 <= k < |all| ensures !(all[k].kind.New? && all[k].fingerprint == fp && all[k].firstSeenAt == t) {
          if k < |before| {
            assert !Opened(before, fp, t);
            assert all[k] == before[k];
          }
        }
      }
    }
  }

  lemma NewsAreNow(policies: Policies, states: States, entityId: string, checks: seq<Check>, now: Time)
    ensures forall k | 0 <= k < |Decisions(policies, states, entityId, checks, now)| ::
              Decisions(policies, states, entityId, checks, now)[k].kind.New? ==> Decisions(policies, states, entityId, checks, now)[k].firstSeenAt == now
  {
    hide ReduceOne, Decisions, KindOf;
    assert checks[..|checks|] == checks;
    forall k | 0 <= k < |Decisions(policies, states, entityId, checks, now)|
      ensures Decisions(policies, states, entityId, checks, now)[k].kind.New? ==> Decisions(policies, states, entityId, checks, now)[k].firstSeenAt == now
    {
      var i := SourceOf(policies, states, entityId, checks, now, |checks|, k);
      Placed(policies, states, entityId, checks, now, i);
      DecisionShape(policies, states, entityId, checks[i], now);
    }
  }

  // ---- announced decisions ----

  lemma NotifyingConcat(a: seq<Decision>, b: seq<Decision>)
    ensures Notifying(a + b) == Notifying(a) + Notifying(b)
  {
    NotifyingAppend(a, b, |b|);
    assert b[..|b|] == b;
  }

  lemma {:induction false} NotifyingAppend(a: seq<Decision>, b: seq<Decision>, n: nat)
    requires n <= |b|
    ensures Notifying(a + b[..n]) == Notifying(a) + Notifying(b[..n])
  {
    hide Notifying;
    if n == 0 {
      assert b[..0] == [] && a + [] == a;
      NotifyingNone();
    } else {
      NotifyingAppend(a, b, n - 1);
      NotifyingSnoc(a + b[..n - 1], b[n - 1]);
      NotifyingSnoc(b[..n - 1], b[n - 1]);
      assert b[..n] == b[..n - 1] + [b[n - 1]] && a + b[..n] == a + b[..n - 1] + [b[n - 1]];
    }
  }

  lemma NotifyingNone()
    ensures Notifying([]) == []
  {
  }

  lemma NotifyingSnoc(a: seq<Decision>, d: Decision)
    ensures Notifying(a + [d]) == Notifying(a) + if d.notify then [d] else []
  {
    assert (a + [d])[..|a|] == a;
  }

  /** Distinct ids stay distinct when the quiet decisions are left out. */
  lemma {:induction false} NotifyingDistinct(ds: seq<Decision>)
    requires DistinctIds(ds)
    ensures DistinctIds(Notifying(ds))
  {
    if ds != [] {
      var init, last := ds[..|ds| - 1], ds[|ds| - 1];
      assert ds == init + [last];
      NotifyingDistinct(init);
      NotifyingSnoc(init, last);
      hide Notifying, IdOf;
      var said := Notifying(init);
      forall i | 0 <= i < |said| ensures IdOf(said[i]) != IdOf(last) {
        assert said[i] in said;
        var k :| 0 <= k < |init| && init[k] == said[i];
        assert IdOf(ds[k]) != IdOf(ds[|ds| - 1]);
      }
    }
  }

  predicate Heard(policies: Policies, id: string) {
    policies(id).notify && policies(id).notifyFor.None?
  }

  /** Every decision about the check is announced, or none is. */
  predicate AllOrNothing(policies: Policies, checks: seq<Check>) {
    forall c | c in checks :: policies(c.id).notify ==> policies(c.id).notifyFor.None?
  }

  function HeardChecks(policies: Policies, checks: seq<Check>): seq<Check> {
    if checks == [] then []
    else
      var last := checks[|checks| - 1];
      HeardChecks(policies, checks[..|checks| - 1]) + if Heard(policies, last.id) then [last] else []
  }

  function HeardReports(policies: Policies, reports: seq<Report>): seq<Report> {
    seq(|reports|, i requires 0 <= i < |reports| => Report(HeardChecks(policies, reports[i].checks), reports[i].now))
  }

  ghost predicate SameHeardRows(policies: Policies, a: States, b: States, entityId: string) {
    forall id | Heard(policies, id) :: Lookup(a, Fingerprint(id, entityId)) == Lookup(b, Fingerprint(id, entityId))
  }

  lemma OneHeard(policies: Policies, a: States, b: States, entityId: string, check: Check, now: Time)
    requires SameHeardRows(policies, a, b, entityId) && AllOrNothing(policies, [check])
    ensures var r := ReduceOne(policies, a, entityId, check, now);
            && (Heard(policies, check.id) ==> r == ReduceOne(policies, b, entityId, check, now))
            && (r.decision.Some? ==> r.decision.value.notify == Heard(policies, check.id))
  {
    assert check in [check];
  }

  lemma BothUpserted(policies: Policies, a: States, b: States, entityId: string, id: string, row: StateRow)
    requires SameHeardRows(policies, a, b, entityId) && row.fingerprint == Fingerprint(id, entityId)
    ensures SameHeardRows(policies, Upsert(a, row), Upsert(b, row), entityId)
    ensures !Heard(policies, id) ==> SameHeardRows(policies, Upsert(a, row), b, entityId)
  {
  }

  /** Leaving out the silent checks changes neither what is announced nor the others' rows. */
  lemma {:induction false} SilenceIsHarmless(policies: Policies, a: States, b: States, entityId: string, checks: seq<Check>, now: Time)
    requires Homed(a, entityId) && SameHeardRows(policies, a, b, entityId) && AllOrNothing(policies, checks)
    ensures var heard := HeardChecks(policies, checks);
            && Notifying(Decisions(policies, a, entityId, checks, now)) == Decisions(policies, b, entityId, heard, now)
            && SameHeardRows(policies, StatesAfter(policies, a, entityId, checks, now), StatesAfter(policies, b, entityId, heard, now), entityId)
  {
    if checks == [] {
      NotifyingNone();
    } else {
      var n := |checks| - 1;
      var init, last := checks[..n], checks[n];
      assert checks[..n + 1] == checks && AllOrNothing(policies, [last]);
      SilenceIsHarmless(policies, a, b, entityId, init, now);
      OneHeard(policies, a, b, entityId, last, now);
      HeardSnoc(policies, init, last);
      assert init + [last] == checks;
      RowShape(policies, a, entityId, last, now);
      ReportSnoc(policies, a, entityId, init, last, now);
      ReportSnoc(policies, b, entityId, HeardChecks(policies, init), last, now);
      hide KindOf, ReduceOne, StatesAfter, Decisions, Notifying, SameHeardRows, HeardChecks, Upsert, AllOrNothing, Homed;
      var r := ReduceOne(policies, a, entityId, last, now);
      if r.decision.Some? { NotifyingSnoc(Decisions(policies, a, entityId, init, now), r.decision.value); }
      if r.row.Some? {
        BothUpserted(policies, StatesAfter(policies, a, entityId, init, now), StatesAfter(policies, b, entityId, HeardChecks(policies, init), now), entityId, last.id, r.row.value);
      }
    }
  }

  lemma HeardSnoc(policies: Policies, init: seq<Check>, last: Check)
    ensures HeardChecks(policies, init + [last]) == if Heard(policies, last.id) then HeardChecks(policies, init) + [last] else HeardChecks(policies, init)
  {
    assert (init + [last])[..|init|] == init;
  }

  lemma ReportSnoc(policies: Policies, states: States, entityId: string, init: seq<Check>, last: Check, now: Time)
    ensures var r, all := ReduceOne(policies, states, entityId, last, now), init + [last];
            && Decisions(policies, states, entityId, all, now)
                 == (if r.decision.Some? then Decisions(policies, states, entityId, init, now) + [r.decision.value] else Decisions(policies, states, entityId, init, now))
            && StatesAfter(policies, states, entityId, all, now)
                 == (if r.row.Some? then Upsert(StatesAfter(policies, states, entityId, init, now), r.row.value) else StatesAfter(policies, states, entityId, init, now))
  {
    hide ReduceOne, Upsert;
    var all := init + [last];
    assert all[..|init|] == init && all[..|init| + 1] == all;
    DecisionsSnoc(policies, states, entityId, all, now, |init|);
    StatesSnoc(policies, states, entityId, all, now, |init|);
  }

  lemma NoRows(policies: Policies, entityId: string)
    ensures SameHeardRows(policies, map[], map[], entityId) && Homed(map[], entityId)
  {
  }

  lemma {:induction false} RunOfTheHeard(policies: Policies, entityId: string, reports: seq<Report>)
    requires forall i | 0 <= i < |reports| :: AllOrNothing(policies, reports[i].checks)
    ensures var heard := HeardReports(policies, reports);
            && Notifying(DecidedOver(policies, entityId, reports)) == DecidedOver(policies, entityId, heard)
            && SameHeardRows(policies, StatesOver(policies, entityId, reports), StatesOver(policies, entityId, heard), entityId)
            && Homed(StatesOver(policies, entityId, reports), entityId) && Homed(StatesOver(policies, entityId, heard), entityId)
  {
    hide Decisions, StatesAfter, AllOrNothing, SameHeardRows, Homed;
    if reports == [] {
      NotifyingNone();
      NoRows(policies, entityId);
    } else {
      hide Notifying;
      var init, last := reports[..|reports| - 1], reports[|reports| - 1];
      var heard := HeardReports(policies, reports);
      assert heard[..|heard| - 1] == HeardReports(policies, init);
      RunOfTheHeard(policies, entityId, init);
      var a, b := StatesOver(policies, entityId, init), StatesOver(policies, entityId, HeardReports(policies, init));
      SilenceIsHarmless(policies, a, b, entityId, last.checks, last.now);
      ReportKeepsHomed(policies, a, entityId, last.checks, last.now);
      ReportKeepsHomed(policies, b, entityId, HeardChecks(policies, last.checks), last.now);
      NotifyingConcat(DecidedOver(policies, entityId, init), Decisions(policies, a, entityId, last.checks, last.now));
    }
  }

  /** Clean reports never make two notifications share an id; where every check announces all it
      decides or nothing, the announcing checks' part of each report is clean if and only if none do. */
  lemma NotificationsDistinctWhen(policies: Policies, entityId: string, reports: seq<Report>)
    requires Ordered(reports)
    ensures AllClean(policies, entityId, reports) ==> DistinctIds(Notifying(DecidedOver(policies, entityId, reports)))
    ensures (forall i | 0 <= i < |reports| :: AllOrNothing(policies, reports[i].checks)) ==>
              (DistinctIds(Notifying(DecidedOver(policies, entityId, reports))) <==> AllClean(policies, entityId, HeardReports(policies, reports)))
  {
    hide DecidedOver, Notifying, DistinctIds, AllClean, AllOrNothing, HeardChecks;
    IdsDistinctExactlyWhen(policies, entityId, reports);
    if AllClean(policies, entityId, reports) { NotifyingDistinct(DecidedOver(policies, entityId, reports)); }
    if forall i | 0 <= i < |reports| :: AllOrNothing(policies, reports[i].checks) {
      RunOfTheHeard(policies, entityId, reports);
      IdsDistinctExactlyWhen(policies, entityId, HeardReports(policies, reports));
    }
  }
}
