/** Nonce memory with a freshness window and seven days' retention. */
module ReplayStore {
  import opened Options
  import opened JsonText

  /** The database clock, in milliseconds; assertions count whole seconds. */
  type Time = int

  const RETENTION_MS := 7 * 24 * 3600 * 1000
  const MAX_FRESHNESS_SECONDS := 3600
  const PURGE_LIMIT := 50

  datatype Assertion = Assertion(nonce: Text, digest: Text, issuedAt: int, freshnessSeconds: nat)

  datatype Row = Row(digest: Text, firstSeenAt: Time)

  type Rows = map<Text, Row>

  datatype Verdict = FirstSeen | Replay | Stale | Conflict

  predicate Fresh(r: Assertion, now: Time) {
    -1000 * r.freshnessSeconds <= now - 1000 * r.issuedAt <= 1000 * r.freshnessSeconds
  }

  predicate Inserts(rows: Rows, r: Assertion, now: Time) {
    Fresh(r, now) && r.nonce !in rows
  }

  /** What the second statement concludes from the row it finds. */
  function Existing(rows: Rows, r: Assertion): Verdict {
    if r.nonce !in rows then Stale
    else if rows[r.nonce].digest == r.digest then Replay
    else Conflict
  }

  /** The decision both stores make, from what each remembers. */
  function Judged(known: map<Text, Text>, r: Assertion, now: Time): Verdict {
    if Fresh(r, now) && r.nonce !in known then FirstSeen
    else if r.nonce !in known then Stale
    else if known[r.nonce] == r.digest then Replay
    else Conflict
  }

  function Digests(rows: Rows): map<Text, Text> {
    map n | n in rows :: rows[n].digest
  }

  predicate Expired(row: Row, now: Time) {
    row.firstSeenAt < now - RETENTION_MS
  }

  /** The one place nonces are forgotten: no more than fifty rows, each past retention. */
  ghost predicate Purges(before: Rows, after: Rows, now: Time) {
    && after.Keys <= before.Keys
    && (forall n | n in after :: after[n] == before[n])
    && (forall n | n in before && n !in after :: Expired(before[n], now))
  }

  lemma ForgettingPurges(rows: Rows, gone: set<Text>, now: Time)
    requires gone <= rows.Keys && forall k | k in gone :: Expired(rows[k], now)
    ensures Purges(rows, rows - gone, now)
    ensures rows.Keys - (rows - gone).Keys == gone
  {
    hide Expired;
  }

  class PgReplayStore {
    var rows: Rows

    constructor ()
      ensures rows == map[]
    {
      rows := map[];
    }

    method InsertIfFresh(r: Assertion, now: Time) returns (inserted: bool)
      modifies this
      ensures inserted == Inserts(old(rows), r, now)
      ensures rows == if inserted then old(rows)[r.nonce := Row(r.digest, now)] else old(rows)
    {
      inserted := Fresh(r, now) && r.nonce !in rows;
      if inserted {
        rows := rows[r.nonce := Row(r.digest, now)];
      }
    }

    method PurgeSome(now: Time)
      modifies this
      ensures Purges(old(rows), rows, now)
      ensures |old(rows).Keys - rows.Keys| <= PURGE_LIMIT
      ensures (forall n | n in rows :: !Expired(rows[n], now)) || |old(rows).Keys - rows.Keys| == PURGE_LIMIT
    {
      var gone := SomeExpired(rows, now);
      ForgettingPurges(rows, gone, now);
      rows := rows - gone;
    }

    /** At most fifty expired rows, and all of them if there are fewer. */
    method SomeExpired(all: Rows, now: Time) returns (gone: set<Text>)
      ensures gone <= all.Keys && |gone| <= PURGE_LIMIT
      ensures forall k | k in gone :: Expired(all[k], now)
      ensures |gone| == PURGE_LIMIT || forall k | k in all && k !in gone :: !Expired(all[k], now)
    {
      hide Expired;
      gone := {};
      var left := all.Keys;
      while left != {} && |gone| < PURGE_LIMIT
        invariant left <= all.Keys && gone <= all.Keys && gone !! left
        invariant |gone| <= PURGE_LIMIT
        invariant forall k | k in gone :: Expired(all[k], now)
        invariant forall k | k in all && k !in left && k !in gone :: !Expired(all[k], now)
        decreases left
      {
        var k :| k in left;
        if Expired(all[k], now) {
          gone := gone + {k};
        }
        left := left - {k};
      }
    }

    /** `purgeFails` is the housekeeping statement failing, which never fails the request. */
    method Admit(r: Assertion, now: Time, purgeFails: bool) returns (v: Verdict)
      modifies this
      ensures v == Judged(Digests(old(rows)), r, now)
      ensures v == FirstSeen <==> Inserts(old(rows), r, now)
      ensures Inserts(old(rows), r, now) ==> Purges(old(rows)[r.nonce := Row(r.digest, now)], rows, now)
      ensures Inserts(old(rows), r, now) ==> r.nonce in rows
      ensures !Inserts(old(rows), r, now) ==> rows == old(rows)
    {
      var inserted := InsertIfFresh(r, now);
      if inserted {
        if !purgeFails {
          PurgeSome(now);
        }
        return FirstSeen;
      }
      v := Existing(rows, r);
    }
  }

  /** The store for unit tests: the same decisions, and nothing is ever forgotten. */
  class InMemoryReplayStore {
    var seen: map<Text, Text>
    var admits: nat

    constructor ()
      ensures seen == map[] && admits == 0
    {
      seen := map[];
      admits := 0;
    }

    method Admit(r: Assertion, now: Time) returns (v: Verdict)
      modifies this
      ensures admits == old(admits) + 1
      ensures v == Judged(old(seen), r, now)
      ensures seen == if v == FirstSeen then old(seen)[r.nonce := r.digest] else old(seen)
    {
      admits := admits + 1;
      if Fresh(r, now) && r.nonce !in seen {
        seen := seen[r.nonce := r.digest];
        return FirstSeen;
      }
      if r.nonce !in seen {
        return Stale;
      }
      v := if seen[r.nonce] == r.digest then Replay else Conflict;
    }
  }

  // ---- any interleaving of the statements ----

  /** Each statement is atomic; calls interleave freely, and a lookup may come long after the insert
      that did not insert. `survivors` are the rows a purge happens to leave. */
  datatype Statement =
    | Insert(r: Assertion, now: Time)
    | Select(r: Assertion, now: Time)
    | Purge(survivors: Rows, now: Time)

  ghost function After(rows: Rows, s: Statement): Rows {
    match s
    case Insert(r, now) => if Inserts(rows, r, now) then rows[r.nonce := Row(r.digest, now)] else rows
    case Select(_, _) => rows
    case Purge(survivors, now) => if Purges(rows, survivors, now) then survivors else rows
  }

  ghost function Run(trace: seq<Statement>): Rows {
    if trace == [] then map[] else After(Run(trace[..|trace| - 1]), trace[|trace| - 1])
  }

  ghost function At(trace: seq<Statement>, i: nat): Rows
    requires i <= |trace|
  {
    Run(trace[..i])
  }

  lemma AtNext(trace: seq<Statement>, i: nat)
    requires i < |trace|
    ensures At(trace, i + 1) == After(At(trace, i), trace[i])
  {
    assert trace[..i + 1][..i] == trace[..i];
  }

  ghost predicate Ordered(trace: seq<Statement>) {
    forall i, j | 0 <= i <= j < |trace| :: trace[i].now <= trace[j].now
  }

  ghost predicate SeesFirst(trace: seq<Statement>, i: nat, r: Assertion)
    requires i < |trace|
  {
    trace[i].Insert? && trace[i].r == r && Inserts(At(trace, i), r, trace[i].now)
  }

  ghost predicate Replays(trace: seq<Statement>, i: nat, r: Assertion)
    requires i < |trace|
  {
    trace[i].Select? && trace[i].r == r && Existing(At(trace, i), r) == Replay
  }

  /** Row `nonce`, first seen at statement `i`, is there until a purge past its retention. */
  lemma {:induction false} RowsLast(trace: seq<Statement>, i: nat, j: nat, nonce: Text)
    requires Ordered(trace) && i <= j < |trace|
    requires nonce in At(trace, i) && trace[j].now <= At(trace, i)[nonce].firstSeenAt + RETENTION_MS
    ensures nonce in At(trace, j) && At(trace, j)[nonce] == At(trace, i)[nonce]
    decreases j
  {
    hide At;
    if i < j {
      RowsLast(trace, i, j - 1, nonce);
      AtNext(trace, j - 1);
    }
  }

  lemma SeenIsStored(trace: seq<Statement>, i: nat, r: Assertion)
    requires i < |trace| && SeesFirst(trace, i, r)
    ensures r.nonce in At(trace, i + 1) && At(trace, i + 1)[r.nonce] == Row(r.digest, trace[i].now)
  {
    AtNext(trace, i);
    hide At;
  }

  /** However calls and purges interleave, one assertion is first seen at most once. */
  lemma FirstSeenOnce(trace: seq<Statement>, i: nat, j: nat, r: Assertion)
    requires Ordered(trace) && i < j < |trace|
    requires SeesFirst(trace, i, r) && trace[j].Insert? && trace[j].r.(freshnessSeconds := 0) == r.(freshnessSeconds := 0)
    requires r.freshnessSeconds <= MAX_FRESHNESS_SECONDS && trace[j].r.freshnessSeconds <= MAX_FRESHNESS_SECONDS
    ensures !SeesFirst(trace, j, trace[j].r)
  {
    SeenIsStored(trace, i, r);
    if trace[j].now <= trace[i].now + RETENTION_MS {
      RowsLast(trace, i + 1, j, r.nonce);
    }
    hide At;
  }

  // ---- a row is what some first sight wrote ----

  ghost predicate WrittenBy(trace: seq<Statement>, i: nat, nonce: Text, row: Row) {
    && i < |trace| && trace[i].Insert? && SeesFirst(trace, i, trace[i].r)
    && trace[i].r.nonce == nonce && row == Row(trace[i].r.digest, trace[i].now)
  }

  lemma {:induction false} RowsAreFirstSights(trace: seq<Statement>, n: nat, nonce: Text) returns (i: nat)
    requires n <= |trace| && nonce in At(trace, n)
    ensures i < n && WrittenBy(trace, i, nonce, At(trace, n)[nonce])
  {
    hide At;
    if n == 0 {
      NothingAtFirst(trace);
    } else {
      AtNext(trace, n - 1);
      var s := trace[n - 1];
      if s.Insert? && s.r.nonce == nonce && Inserts(At(trace, n - 1), s.r, s.now) {
        i := n - 1;
      } else {
        i := RowsAreFirstSights(trace, n - 1, nonce);
      }
    }
  }

  lemma NothingAtFirst(trace: seq<Statement>)
    ensures At(trace, 0) == map[]
  {
    assert trace[..0] == [];
  }

  ghost predicate Sights(trace: seq<Statement>, i: nat, nonce: Text)
    requires i < |trace|
  {
    trace[i].Insert? && trace[i].r.nonce == nonce && SeesFirst(trace, i, trace[i].r)
  }

  /** An insert is a first sight exactly when the database clock is no further than the freshness
      allows from the moment of issue, on either side, and nobody was first seen with its nonce
      (within retention, so that no such sight can have been forgotten). */
  lemma FirstSeenExactlyWhen(trace: seq<Statement>, j: nat)
    requires Ordered(trace) && j < |trace| && trace[j].Insert?
    requires forall i | 0 <= i < j && Sights(trace, i, trace[j].r.nonce) :: trace[j].now <= trace[i].now + RETENTION_MS
    ensures var r, now := trace[j].r, trace[j].now;
            SeesFirst(trace, j, r) <==>
              && 1000 * (r.issuedAt - r.freshnessSeconds) <= now <= 1000 * (r.issuedAt + r.freshnessSeconds)
              && forall i | 0 <= i < j :: !Sights(trace, i, r.nonce)
  {
    var nonce := trace[j].r.nonce;
    hide At;
    if nonce in At(trace, j) {
      var i := RowsAreFirstSights(trace, j, nonce);
      assert Sights(trace, i, nonce);
    }
    forall i | 0 <= i < j && Sights(trace, i, nonce) ensures nonce in At(trace, j) {
      SeenIsStored(trace, i, trace[i].r);
      RowsLast(trace, i + 1, j, nonce);
    }
  }

  /** The digest of a canonical payload determines its nonce and its moment of issue. */
  ghost predicate DigestsNameAssertions(trace: seq<Statement>) {
    forall i, j | 0 <= i < |trace| && 0 <= j < |trace| && !trace[i].Purge? && !trace[j].Purge? && trace[i].r.digest == trace[j].r.digest ::
      trace[i].r.nonce == trace[j].r.nonce && trace[i].r.issuedAt == trace[j].r.issuedAt
  }

  /** Whatever is accepted as a replay was accepted once, while fresh, and never before. */
  lemma ReplayWasFirstSeen(trace: seq<Statement>, j: nat, r: Assertion) returns (i: nat)
    requires j < |trace| && Replays(trace, j, r) && DigestsNameAssertions(trace)
    ensures i < j && trace[i].Insert? && SeesFirst(trace, i, trace[i].r) && Fresh(trace[i].r, trace[i].now)
    ensures trace[i].r.nonce == r.nonce && trace[i].r.digest == r.digest && trace[i].r.issuedAt == r.issuedAt
  {
    i := RowsAreFirstSights(trace, j, r.nonce);
    hide At;
  }

  /** Once an assertion's row has been purged, it is never accepted again, by either statement. */
  lemma PurgedIsNeverAccepted(trace: seq<Statement>, i: nat, k: nat, j: nat, r: Assertion)
    requires Ordered(trace) && DigestsNameAssertions(trace) && i < k <= j < |trace|
    requires forall m | 0 <= m < |trace| && !trace[m].Purge? :: trace[m].r.freshnessSeconds <= MAX_FRESHNESS_SECONDS
    requires SeesFirst(trace, i, r) && r.nonce !in At(trace, k)
    requires !trace[j].Purge? && trace[j].r.digest == r.digest
    ensures !SeesFirst(trace, j, trace[j].r) && !Replays(trace, j, trace[j].r)
  {
    if trace[j].Insert? {
      FirstSeenOnce(trace, i, j, r);
    } else if Replays(trace, j, trace[j].r) {
      var m := RowsAreFirstSights(trace, j, r.nonce);
      SecondSight(trace, i, k, m, j, r);
    }
  }

  /** And while nobody else uses its nonce, every later lookup of it finds nothing: stale for ever. */
  lemma {:induction false} PurgedStaysStale(trace: seq<Statement>, i: nat, k: nat, j: nat, r: Assertion)
    requires Ordered(trace) && DigestsNameAssertions(trace) && i < k <= j <= |trace|
    requires forall m | 0 <= m < |trace| && !trace[m].Purge? :: trace[m].r.freshnessSeconds <= MAX_FRESHNESS_SECONDS
    requires SeesFirst(trace, i, r) && r.nonce !in At(trace, k)
    requires forall m | k <= m < j && trace[m].Insert? && trace[m].r.nonce == r.nonce :: trace[m].r.digest == r.digest
    ensures r.nonce !in At(trace, j) && Existing(At(trace, j), r) == Stale
    decreases j
  {
    hide At;
    if k < j {
      PurgedStaysStale(trace, i, k, j - 1, r);
      AtNext(trace, j - 1);
      if trace[j - 1].Insert? && trace[j - 1].r.nonce == r.nonce {
        FirstSeenOnce(trace, i, j - 1, r);
      }
    }
  }

  lemma SecondSight(trace: seq<Statement>, i: nat, k: nat, m: nat, j: nat, r: Assertion)
    requires Ordered(trace) && DigestsNameAssertions(trace) && i < k <= j < |trace| && m < j
    requires forall m | 0 <= m < |trace| && !trace[m].Purge? :: trace[m].r.freshnessSeconds <= MAX_FRESHNESS_SECONDS
    requires SeesFirst(trace, i, r) && r.nonce !in At(trace, k)
    requires r.nonce in At(trace, j) && WrittenBy(trace, m, r.nonce, At(trace, j)[r.nonce])
    ensures At(trace, j)[r.nonce].digest != r.digest
  {
    SeenIsStored(trace, i, r);
    if trace[k].now <= trace[i].now + RETENTION_MS { RowsLast(trace, i + 1, k, r.nonce); }
    RewrittenLater(trace, k, j, r.nonce);
    hide At;
    assert trace[i].now < trace[m].now;
    assert i < m;
    if trace[m].r.digest == r.digest { FirstSeenOnce(trace, i, m, r); }
  }

  lemma {:induction false} RewrittenLater(trace: seq<Statement>, k: nat, j: nat, nonce: Text)
    requires Ordered(trace) && k <= j < |trace| && nonce !in At(trace, k) && nonce in At(trace, j)
    ensures At(trace, j)[nonce].firstSeenAt >= trace[k].now
    decreases j
  {
    hide At;
    AtNext(trace, j - 1);
    if nonce in At(trace, j - 1) { RewrittenLater(trace, k, j - 1, nonce); }
  }

  /** A row is never rewritten: while it is there, it is the one first written. */
  lemma {:induction false} RowStays(trace: seq<Statement>, i: nat, j: nat, nonce: Text)
    requires i <= j <= |trace| && forall m | i <= m <= j :: nonce in At(trace, m)
    ensures At(trace, j)[nonce] == At(trace, i)[nonce]
    decreases j
  {
    hide At;
    if i < j {
      RowStays(trace, i, j - 1, nonce);
      AtNext(trace, j - 1);
    }
  }

  /** As long as its row is stored, whatever its age, a nonce admits the one digest it was first seen
      with: every later acceptance of it is a replay of that digest. */
  lemma RetainedNonceHasOneDigest(trace: seq<Statement>, i: nat, j: nat, a: Assertion, b: Assertion)
    requires i < j < |trace| && a.nonce == b.nonce
    requires SeesFirst(trace, i, a) && (SeesFirst(trace, j, b) || Replays(trace, j, b))
    requires forall m | i < m <= j :: a.nonce in At(trace, m)
    ensures a.digest == b.digest && Replays(trace, j, b)
  {
    SeenIsStored(trace, i, a);
    RowStays(trace, i + 1, j, a.nonce);
    hide At;
  }

  /** And it is stored for seven days at least. */
  lemma StoredForRetention(trace: seq<Statement>, i: nat, j: nat, a: Assertion)
    requires Ordered(trace) && i < j < |trace| && SeesFirst(trace, i, a)
    requires trace[j].now <= trace[i].now + RETENTION_MS
    ensures forall m | i < m <= j :: a.nonce in At(trace, m)
  {
    SeenIsStored(trace, i, a);
    hide At;
    forall m | i < m <= j ensures a.nonce in At(trace, m) {
      RowsLast(trace, i + 1, m, a.nonce);
    }
  }

  /** Within retention a redelivery, by either statement, is a replay. */
  lemma RedeliveryIsReplay(trace: seq<Statement>, i: nat, j: nat, r: Assertion)
    requires Ordered(trace) && i < j < |trace|
    requires SeesFirst(trace, i, r)
    requires trace[j].now <= trace[i].now + RETENTION_MS
    ensures Existing(At(trace, j), r) == Replay && !Inserts(At(trace, j), r, trace[j].now)
  {
    SeenIsStored(trace, i, r);
    RowsLast(trace, i + 1, j, r.nonce);
    hide At;
  }

  // ---- the store for tests decides as the real one ----

  /** One whole admit; `survivors` are what its housekeeping leaves. */
  datatype Admission = Admission(r: Assertion, now: Time, survivors: Rows)

  ghost function AfterAdmit(rows: Rows, a: Admission): Rows {
    if !Inserts(rows, a.r, a.now) then rows
    else
      var more := rows[a.r.nonce := Row(a.r.digest, a.now)];
      if Purges(more, a.survivors, a.now) then a.survivors else more
  }

  ghost function RowsOver(admits: seq<Admission>): Rows {
    if admits == [] then map[] else AfterAdmit(RowsOver(admits[..|admits| - 1]), admits[|admits| - 1])
  }

  function SeenOver(admits: seq<Admission>): map<Text, Text> {
    if admits == [] then map[]
    else
      var before, a := SeenOver(admits[..|admits| - 1]), admits[|admits| - 1];
      if Judged(before, a.r, a.now) == FirstSeen then before[a.r.nonce := a.r.digest] else before
  }

  ghost predicate OrderedAdmits(admits: seq<Admission>) {
    forall i, j | 0 <= i <= j < |admits| :: admits[i].now <= admits[j].now
  }

  /** Admits within seven days of the first: the two stores know the same, so they decide alike. */
  lemma {:induction false} StoresDecideAlike(admits: seq<Admission>, r: Assertion, now: Time)
    requires OrderedAdmits(admits)
    requires forall i | 0 <= i < |admits| :: admits[0].now <= admits[i].now <= now <= admits[0].now + RETENTION_MS
    ensures Digests(RowsOver(admits)) == SeenOver(admits)
    ensures forall n | n in RowsOver(admits) :: admits != [] && RowsOver(admits)[n].firstSeenAt >= admits[0].now
    ensures Judged(Digests(RowsOver(admits)), r, now) == Judged(SeenOver(admits), r, now)
  {
    if admits == [] {
      assert Digests(map[]) == map[];
    } else {
      var init, a := admits[..|admits| - 1], admits[|admits| - 1];
      StoresDecideAlike(init, a.r, a.now);
      hide SeenOver, RowsOver, OrderedAdmits;
      YoungRowsSurvive(RowsOver(init), a, admits[0].now);
      assert SeenOver(admits) == if Judged(SeenOver(init), a.r, a.now) == FirstSeen then SeenOver(init)[a.r.nonce := a.r.digest] else SeenOver(init) by {
        SeenStep(admits);
      }
      RowsStep(admits);
    }
  }

  lemma SeenStep(admits: seq<Admission>)
    requires admits != []
    ensures var before, a := SeenOver(admits[..|admits| - 1]), admits[|admits| - 1];
            SeenOver(admits) == if Judged(before, a.r, a.now) == FirstSeen then before[a.r.nonce := a.r.digest] else before
  {
  }

  lemma RowsStep(admits: seq<Admission>)
    requires admits != []
    ensures RowsOver(admits) == AfterAdmit(RowsOver(admits[..|admits| - 1]), admits[|admits| - 1])
  {
  }

  /** Housekeeping spares rows younger than the retention. */
  lemma YoungRowsSurvive(rows: Rows, a: Admission, start: Time)
    requires forall n | n in rows :: rows[n].firstSeenAt >= start
    requires start <= a.now <= start + RETENTION_MS
    ensures AfterAdmit(rows, a) == if Inserts(rows, a.r, a.now) then rows[a.r.nonce := Row(a.r.digest, a.now)] else rows
    ensures Digests(AfterAdmit(rows, a))
         == if Judged(Digests(rows), a.r, a.now) == FirstSeen then Digests(rows)[a.r.nonce := a.r.digest] else Digests(rows)
    ensures forall n | n in AfterAdmit(rows, a) :: AfterAdmit(rows, a)[n].firstSeenAt >= start
  {
    if Inserts(rows, a.r, a.now) {
      var more := rows[a.r.nonce := Row(a.r.digest, a.now)];
      if Purges(more, a.survivors, a.now) {
        assert a.survivors == more;
      }
      assert Digests(more) == Digests(rows)[a.r.nonce := a.r.digest];
    }
  }
}
