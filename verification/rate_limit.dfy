/** Fixed-window rate limiting over a table that is swept when full. */
module RateLimit {
  import opened Options

  /** Milliseconds. */
  type Time = int

  datatype Rule = Rule(limit: nat, windowMs: nat)

  datatype Limits = Limits(perClient: Rule, registerPerClient: Rule, everyone: Rule)

  datatype Key = PerClient(client: string) | Registering(client: string) | Everyone

  datatype Window = Window(start: Time, count: nat)

  type Windows = map<Key, Window>

  const MAX_TRACKED := 10_000

  datatype Refusal = Refusal(key: Key, retryAfterS: int)

  function RuleOf(limits: Limits, key: Key): Rule {
    match key
    case PerClient(_) => limits.perClient
    case Registering(_) => limits.registerPerClient
    case Everyone => limits.everyone
  }

  function Max(a: nat, b: nat): nat {
    if a >= b then a else b
  }

  function Longest(limits: Limits): (longest: nat)
    ensures forall key :: RuleOf(limits, key).windowMs <= longest
  {
    Max(Max(limits.perClient.windowMs, limits.registerPerClient.windowMs), limits.everyone.windowMs)
  }

  function CeilSeconds(ms: int): (s: int)
    ensures 1000 * (s - 1) < ms <= 1000 * s
  {
    (ms + 999) / 1000
  }

  // ---- one take ----

  function Swept(limits: Limits, windows: Windows, t: Time): Windows {
    map k | k in windows && t - windows[k].start < Longest(limits) :: windows[k]
  }

  function MakeRoom(limits: Limits, windows: Windows, t: Time): Windows {
    if |windows| >= MAX_TRACKED then Swept(limits, windows, t) else windows
  }

  predicate Running(limits: Limits, windows: Windows, key: Key, t: Time) {
    key in windows && t - windows[key].start < RuleOf(limits, key).windowMs
  }

  /** The table has room for `key` at `t`, if need be after a sweep. */
  predicate Roomy(limits: Limits, windows: Windows, key: Key, t: Time) {
    key in windows || |MakeRoom(limits, windows, t)| < MAX_TRACKED
  }

  datatype Taken = Taken(windows: Windows, retryAfterS: Option<int>)

  function Count(limits: Limits, windows: Windows, key: Key, t: Time): Taken
    requires key in windows
  {
    var rule, w := RuleOf(limits, key), windows[key];
    if w.count >= rule.limit then
      var left := CeilSeconds(w.start + rule.windowMs - t);
      Taken(windows, Some(if left > 1 then left else 1))
    else Taken(windows[key := w.(count := w.count + 1)], None)
  }

  /** With `bounded`, the limiter; without, one whose table never forgets and never fills. */
  function Take(limits: Limits, bounded: bool, windows: Windows, key: Key, t: Time): Taken {
    if Running(limits, windows, key, t) then Count(limits, windows, key, t)
    else
      var room := if bounded && key !in windows then MakeRoom(limits, windows, t) else windows;
      if bounded && !Roomy(limits, windows, key, t) then Taken(room, Some(CeilSeconds(RuleOf(limits, key).windowMs)))
      else Count(limits, room[key := Window(t, 0)], key, t)
  }

  // ---- one request ----

  datatype Request = Request(client: string, register: bool, now: Time)

  function KeysOf(r: Request): (keys: seq<Key>)
    ensures forall i, j | 0 <= i < j < |keys| :: keys[i] != keys[j]
  {
    if r.register then [PerClient(r.client), Registering(r.client), Everyone] else [PerClient(r.client), Everyone]
  }

  /** The table after, the keys whose take was allowed, and the first refusal. */
  datatype Outcome = Outcome(windows: Windows, granted: seq<Key>, refused: Option<Refusal>)

  function TakeAll(limits: Limits, bounded: bool, windows: Windows, keys: seq<Key>, t: Time): Outcome
    decreases |keys|
  {
    if keys == [] then Outcome(windows, [], None)
    else
      var first := Take(limits, bounded, windows, keys[0], t);
      if first.retryAfterS.Some? then Outcome(first.windows, [], Some(Refusal(keys[0], first.retryAfterS.value)))
      else
        var rest := TakeAll(limits, bounded, first.windows, keys[1..], t);
        rest.(granted := [keys[0]] + rest.granted)
  }

  function Check(limits: Limits, bounded: bool, windows: Windows, r: Request): Outcome {
    TakeAll(limits, bounded, windows, KeysOf(r), r.now)
  }

  class RateLimiter {
    const limits: Limits
    var windows: Windows

    constructor (limits: Limits)
      ensures windows == map[] && this.limits == limits
    {
      this.limits := limits;
      windows := map[];
    }

    method Sweep(t: Time)
      modifies this
      ensures windows == Swept(limits, old(windows), t)
    {
      var left := windows.Keys;
      while left != {}
        invariant left <= old(windows).Keys
        invariant windows == map k | k in old(windows) && (k in left || t - old(windows)[k].start < Longest(limits)) :: old(windows)[k]
        decreases left
      {
        var k :| k in left;
        if t - windows[k].start >= Longest(limits) {
          windows := windows - {k};
        }
        left := left - {k};
      }
    }

    method TakeOne(key: Key, t: Time) returns (retryAfterS: Option<int>)
      modifies this
      ensures Taken(windows, retryAfterS) == Take(limits, true, old(windows), key, t)
    {
      var rule := RuleOf(limits, key);
      var known := key in windows;
      if !known || t - windows[key].start >= rule.windowMs {
        if !known && |windows| >= MAX_TRACKED {
          Sweep(t);
        }
        if !known && |windows| >= MAX_TRACKED {
          return Some(CeilSeconds(rule.windowMs));
        }
        windows := windows[key := Window(t, 0)];
      }
      var w := windows[key];
      if w.count >= rule.limit {
        var left := CeilSeconds(w.start + rule.windowMs - t);
        return Some(if left > 1 then left else 1);
      }
      windows := windows[key := w.(count := w.count + 1)];
      return None;
    }

    method CheckRequest(r: Request) returns (refused: Option<Refusal>)
      modifies this
      ensures var o := Check(limits, true, old(windows), r);
              windows == o.windows && refused == o.refused
    {
      var keys := KeysOf(r);
      for i := 0 to |keys|
        invariant TakeAll(limits, true, windows, keys[i..], r.now).windows == Check(limits, true, old(windows), r).windows
        invariant TakeAll(limits, true, windows, keys[i..], r.now).refused == Check(limits, true, old(windows), r).refused
      {
        assert keys[i..][0] == keys[i] && keys[i..][1..] == keys[i + 1..];
        var retryAfterS := TakeOne(keys[i], r.now);
        if retryAfterS.Some? {
          return Some(Refusal(keys[i], retryAfterS.value));
        }
      }
      return None;
    }
  }

  // ---- whole runs ----

  ghost predicate Ordered(trace: seq<Request>) {
    forall i, j | 0 <= i <= j < |trace| :: trace[i].now <= trace[j].now
  }

  function Run(limits: Limits, bounded: bool, trace: seq<Request>): Windows {
    if trace == [] then map[]
    else Check(limits, bounded, Run(limits, bounded, trace[..|trace| - 1]), trace[|trace| - 1]).windows
  }

  function OutcomeAt(limits: Limits, bounded: bool, trace: seq<Request>, i: nat): Outcome
    requires i < |trace|
  {
    Check(limits, bounded, Run(limits, bounded, trace[..i]), trace[i])
  }

  // ---- at most twice the limit in any window ----

  function Times(keys: seq<Key>, key: Key): nat {
    if keys == [] then 0 else (if keys[0] == key then 1 else 0) + Times(keys[1..], key)
  }

  /** How many takes of `key` were allowed at moments in [from, from + length). */
  function AllowedWithin(limits: Limits, trace: seq<Request>, key: Key, from: Time, length: nat): nat {
    if trace == [] then 0
    else
      var init, last := trace[..|trace| - 1], trace[|trace| - 1];
      AllowedWithin(limits, init, key, from, length)
        + if from <= last.now < from + length then Times(Check(limits, true, Run(limits, true, init), last).granted, key) else 0
  }

  /** How the allowed takes so far, `n` of them in the interval that starts at `from`, bear on the
      key's window: all in it if it began before, else those beyond it fill one window at most. */
  predicate Accounts(rule: Rule, window: Option<Window>, n: nat, from: Time, t: Time) {
    (t < from ==> n == 0) &&
    match window
    case Some(w) =>
      && w.start <= t
      && w.count <= rule.limit
      && (w.start < from ==> n <= w.count)
      && (from <= w.start < from + rule.windowMs ==> n <= rule.limit + w.count)
      && n <= 2 * rule.limit
    case None => n <= rule.limit || (from + rule.windowMs <= t && n <= 2 * rule.limit)
  }

  function WindowOf(windows: Windows, key: Key): Option<Window> {
    if key in windows then Some(windows[key]) else None
  }

  ghost predicate Accounted(limits: Limits, windows: Windows, key: Key, n: nat, from: Time, t: Time) {
    Accounts(RuleOf(limits, key), WindowOf(windows, key), n, from, t)
  }

  function Within(from: Time, rule: Rule, t: Time): nat {
    if from <= t < from + rule.windowMs then 1 else 0
  }

  lemma CountAccounts(limits: Limits, windows: Windows, key: Key, n: nat, from: Time, t: Time)
    requires Running(limits, windows, key, t) && Accounted(limits, windows, key, n, from, t)
    ensures var after := Count(limits, windows, key, t);
            Accounted(limits, after.windows, key, n + if after.retryAfterS.None? then Within(from, RuleOf(limits, key), t) else 0, from, t)
  {
    hide RuleOf, CeilSeconds;
  }

  lemma OpeningAccounts(limits: Limits, windows: Windows, key: Key, n: nat, from: Time, t: Time)
    requires !Running(limits, windows, key, t) && Accounted(limits, windows, key, n, from, t)
    ensures n <= 2 * RuleOf(limits, key).limit
    ensures from <= t < from + RuleOf(limits, key).windowMs ==> n <= RuleOf(limits, key).limit
    ensures t < from ==> n == 0
  {
  }

  lemma OpenedAccounts(limits: Limits, room: Windows, key: Key, n: nat, from: Time, t: Time)
    requires key in room && room[key] == Window(t, 0)
    requires n <= 2 * RuleOf(limits, key).limit
    requires from <= t < from + RuleOf(limits, key).windowMs ==> n <= RuleOf(limits, key).limit
    requires t < from ==> n == 0
    ensures var after := Count(limits, room, key, t);
            Accounted(limits, after.windows, key, n + if after.retryAfterS.None? then Within(from, RuleOf(limits, key), t) else 0, from, t)
  {
    hide RuleOf, CeilSeconds;
  }

  /** Whatever else is taken, `key` keeps its window or, once it is over, loses it. */
  lemma OthersAccount(limits: Limits, windows: Windows, after: Windows, key: Key, n: nat, from: Time, t: Time)
    requires Accounted(limits, windows, key, n, from, t)
    requires WindowOf(after, key) == WindowOf(windows, key) || (key !in after && !Running(limits, windows, key, t))
    ensures Accounted(limits, after, key, n, from, t)
  {
    if key !in after { OpeningAccounts(limits, windows, key, n, from, t); }
  }

  lemma TakeAccounts(limits: Limits, windows: Windows, taken: Key, key: Key, n: nat, from: Time, t: Time)
    requires Accounted(limits, windows, key, n, from, t)
    ensures var after := Take(limits, true, windows, taken, t);
            var more := if taken == key && after.retryAfterS.None? then Within(from, RuleOf(limits, key), t) else 0;
            Accounted(limits, after.windows, key, n + more, from, t)
  {
    hide Accounted, Within, Longest;
    var after := Take(limits, true, windows, taken, t);
    if taken != key {
      OthersAccount(limits, windows, after.windows, key, n, from, t);
    } else if Running(limits, windows, key, t) {
      CountAccounts(limits, windows, key, n, from, t);
    } else if Roomy(limits, windows, key, t) {
      var room := if key !in windows then MakeRoom(limits, windows, t) else windows;
      OpeningAccounts(limits, windows, key, n, from, t);
      OpenedAccounts(limits, room[key := Window(t, 0)], key, n, from, t);
    } else {
      OthersAccount(limits, windows, after.windows, key, n, from, t);
    }
  }

  lemma {:induction false} TakeAllAccounts(limits: Limits, windows: Windows, keys: seq<Key>, key: Key, n: nat, from: Time, t: Time)
    requires Accounted(limits, windows, key, n, from, t)
    ensures var after := TakeAll(limits, true, windows, keys, t);
            Accounted(limits, after.windows, key, n + Within(from, RuleOf(limits, key), t) * Times(after.granted, key), from, t)
    decreases |keys|
  {
    hide Accounted, Take;
    if keys != [] {
      var first := Take(limits, true, windows, keys[0], t);
      TakeAccounts(limits, windows, keys[0], key, n, from, t);
      if first.retryAfterS.None? {
        var inside := Within(from, RuleOf(limits, key), t);
        var m := if keys[0] == key then n + inside else n;
        TakeAllAccounts(limits, first.windows, keys[1..], key, m, from, t);
        var rest := TakeAll(limits, true, first.windows, keys[1..], t);
        assert ([keys[0]] + rest.granted)[1..] == rest.granted;
      }
    }
  }

  lemma LaterAccounts(rule: Rule, window: Option<Window>, n: nat, from: Time, t: Time, later: Time)
    requires Accounts(rule, window, n, from, t) && t <= later
    ensures Accounts(rule, window, n, from, later)
  {
  }

  lemma {:induction false} RunAccounts(limits: Limits, trace: seq<Request>, key: Key, from: Time, t: Time)
    requires Ordered(trace) && (trace != [] ==> trace[|trace| - 1].now <= t)
    ensures Accounted(limits, Run(limits, true, trace), key, AllowedWithin(limits, trace, key, from, RuleOf(limits, key).windowMs), from, t)
  {
    hide Accounts, TakeAll;
    if trace == [] {
      NothingAccounts(limits, key, from, t);
    } else {
      var init, last := trace[..|trace| - 1], trace[|trace| - 1];
      RunAccounts(limits, init, key, from, last.now);
      var rule := RuleOf(limits, key);
      var n := AllowedWithin(limits, init, key, from, rule.windowMs);
      TakeAllAccounts(limits, Run(limits, true, init), KeysOf(last), key, n, from, last.now);
      var all := AllowedWithin(limits, trace, key, from, rule.windowMs);
      LaterAccounts(rule, WindowOf(Run(limits, true, trace), key), all, from, last.now, t);
    }
  }

  lemma NothingAccounts(limits: Limits, key: Key, from: Time, t: Time)
    ensures Accounted(limits, map[], key, 0, from, t)
  {
  }

  /** Over every run, no interval as long as a rule's window holds more than twice its limit. */
  lemma TwiceTheLimitAtMost(limits: Limits, trace: seq<Request>, key: Key, from: Time)
    requires Ordered(trace)
    ensures AllowedWithin(limits, trace, key, from, RuleOf(limits, key).windowMs) <= 2 * RuleOf(limits, key).limit
  {
    RunAccounts(limits, trace, key, from, if trace == [] then 0 else trace[|trace| - 1].now);
    hide AllowedWithin, Run;
  }

  // ---- the table never exceeds its cap ----

  lemma TakeKeepsCap(limits: Limits, windows: Windows, key: Key, t: Time)
    requires |windows| <= MAX_TRACKED
    ensures |Take(limits, true, windows, key, t).windows| <= MAX_TRACKED
  {
    hide Swept;
    SweptIsSmaller(limits, windows, t);
    if Running(limits, windows, key, t) {
      CountKeepsSize(limits, windows, key, t);
    } else if Roomy(limits, windows, key, t) {
      var room := if key !in windows then MakeRoom(limits, windows, t) else windows;
      AddingOne(room, key, Window(t, 0));
      CountKeepsSize(limits, room[key := Window(t, 0)], key, t);
    }
  }

  lemma CountKeepsSize(limits: Limits, windows: Windows, key: Key, t: Time)
    requires key in windows
    ensures |Count(limits, windows, key, t).windows| == |windows|
  {
    AddingOne(windows, key, windows[key].(count := windows[key].count + 1));
  }

  lemma AddingOne(windows: Windows, key: Key, w: Window)
    ensures |windows[key := w]| == if key in windows then |windows| else |windows| + 1
  {
    assert windows[key := w].Keys == windows.Keys + {key};
    assert |windows[key := w].Keys| == |windows[key := w]| && |windows.Keys| == |windows|;
  }

  lemma SweptIsSmaller(limits: Limits, windows: Windows, t: Time)
    ensures |Swept(limits, windows, t)| <= |windows|
  {
    Fewer(Swept(limits, windows, t).Keys, windows.Keys);
    assert |Swept(limits, windows, t).Keys| == |Swept(limits, windows, t)| && |windows.Keys| == |windows|;
  }

  lemma {:induction false} Fewer(a: set<Key>, b: set<Key>)
    requires a <= b
    ensures |a| <= |b|
  {
    if a != {} {
      var k :| k in a;
      Fewer(a - {k}, b - {k});
    }
  }

  lemma {:induction false} TakeAllKeepsCap(limits: Limits, windows: Windows, keys: seq<Key>, t: Time)
    requires |windows| <= MAX_TRACKED
    ensures |TakeAll(limits, true, windows, keys, t).windows| <= MAX_TRACKED
    decreases |keys|
  {
    hide Take;
    if keys != [] {
      TakeKeepsCap(limits, windows, keys[0], t);
      TakeAllKeepsCap(limits, Take(limits, true, windows, keys[0], t).windows, keys[1..], t);
    }
  }

  lemma {:induction false} TableStaysBounded(limits: Limits, trace: seq<Request>)
    ensures |Run(limits, true, trace)| <= MAX_TRACKED
  {
    hide TakeAll;
    if trace != [] {
      var init, last := trace[..|trace| - 1], trace[|trace| - 1];
      TableStaysBounded(limits, init);
      TakeAllKeepsCap(limits, Run(limits, true, init), KeysOf(last), last.now);
    }
  }

  // ---- forgetting refines remembering ----

  /** The swept table agrees with the full one on every window that could still be running. */
  ghost predicate Agrees(limits: Limits, kept: Windows, all: Windows, t: Time) {
    && (forall k | k in kept :: k in all && kept[k] == all[k])
    && (forall k | k in all && t - all[k].start < Longest(limits) :: k in kept)
  }

  lemma TakeAgrees(limits: Limits, kept: Windows, all: Windows, key: Key, t: Time)
    requires Agrees(limits, kept, all, t) && Roomy(limits, kept, key, t)
    ensures var a, b := Take(limits, true, kept, key, t), Take(limits, false, all, key, t);
            a.retryAfterS == b.retryAfterS && Agrees(limits, a.windows, b.windows, t)
  {
    RoomAgrees(limits, kept, all, key, t);
    hide MakeRoom, Longest, Agrees, Count;
    if Running(limits, kept, key, t) {
      CountAgrees(limits, kept, all, key, t);
    } else {
      var room := if key !in kept then MakeRoom(limits, kept, t) else kept;
      CountAgrees(limits, room[key := Window(t, 0)], all[key := Window(t, 0)], key, t);
    }
  }

  lemma CountAgrees(limits: Limits, kept: Windows, all: Windows, key: Key, t: Time)
    requires Agrees(limits, kept, all, t) && key in kept && key in all
    ensures var a, b := Count(limits, kept, key, t), Count(limits, all, key, t);
            a.retryAfterS == b.retryAfterS && Agrees(limits, a.windows, b.windows, t)
  {
    hide Longest, CeilSeconds;
  }

  lemma RoomAgrees(limits: Limits, kept: Windows, all: Windows, key: Key, t: Time)
    requires Agrees(limits, kept, all, t)
    ensures Running(limits, kept, key, t) <==> Running(limits, all, key, t)
    ensures var room := if key !in kept then MakeRoom(limits, kept, t) else kept;
            Agrees(limits, room[key := Window(t, 0)], all[key := Window(t, 0)], t)
    ensures key in kept ==> key in all
  {
    var room := if key !in kept then MakeRoom(limits, kept, t) else kept;
    assert Agrees(limits, room, all, t);
  }

  /** Every take of the request finds room. */
  predicate AllRoomy(limits: Limits, windows: Windows, keys: seq<Key>, t: Time)
    decreases |keys|
  {
    keys == [] || (Roomy(limits, windows, keys[0], t) && AllRoomy(limits, Take(limits, true, windows, keys[0], t).windows, keys[1..], t))
  }

  lemma {:induction false} TakeAllAgrees(limits: Limits, kept: Windows, all: Windows, keys: seq<Key>, t: Time)
    requires Agrees(limits, kept, all, t) && AllRoomy(limits, kept, keys, t)
    ensures var a, b := TakeAll(limits, true, kept, keys, t), TakeAll(limits, false, all, keys, t);
            a.granted == b.granted && a.refused == b.refused && Agrees(limits, a.windows, b.windows, t)
    decreases |keys|
  {
    hide Agrees, Take, Roomy;
    if keys != [] {
      TakeAgrees(limits, kept, all, keys[0], t);
      var a, b := Take(limits, true, kept, keys[0], t), Take(limits, false, all, keys[0], t);
      TakeAllAgrees(limits, a.windows, b.windows, keys[1..], t);
    }
  }

  ghost predicate NeverFull(limits: Limits, trace: seq<Request>) {
    forall i | 0 <= i < |trace| :: AllRoomy(limits, Run(limits, true, trace[..i]), KeysOf(trace[i]), trace[i].now)
  }

  lemma LaterAgrees(limits: Limits, kept: Windows, all: Windows, t: Time, later: Time)
    requires Agrees(limits, kept, all, t) && t <= later
    ensures Agrees(limits, kept, all, later)
  {
  }

  lemma {:induction false} RunsAgree(limits: Limits, trace: seq<Request>, t: Time)
    requires Ordered(trace) && NeverFull(limits, trace) && (trace != [] ==> trace[|trace| - 1].now <= t)
    ensures Agrees(limits, Run(limits, true, trace), Run(limits, false, trace), t)
  {
    hide AllRoomy, TakeAll;
    if trace != [] {
      var init, last := trace[..|trace| - 1], trace[|trace| - 1];
      assert forall i | 0 <= i < |init| :: init[..i] == trace[..i];
      RunsAgree(limits, init, last.now);
      TakeAllAgrees(limits, Run(limits, true, init), Run(limits, false, init), KeysOf(last), last.now);
      LaterAgrees(limits, Run(limits, true, trace), Run(limits, false, trace), last.now, t);
    }
  }

  /** While no take finds the table full, every request is answered as if nothing were ever swept. */
  lemma SweepingIsHarmless(limits: Limits, trace: seq<Request>, i: nat)
    requires Ordered(trace) && NeverFull(limits, trace) && i < |trace|
    ensures OutcomeAt(limits, true, trace, i).refused == OutcomeAt(limits, false, trace, i).refused
    ensures OutcomeAt(limits, true, trace, i).granted == OutcomeAt(limits, false, trace, i).granted
  {
    hide AllRoomy, TakeAll, Run;
    assert forall k | 0 <= k < i :: trace[..i][..k] == trace[..k];
    RunsAgree(limits, trace[..i], trace[i].now);
    TakeAllAgrees(limits, Run(limits, true, trace[..i]), Run(limits, false, trace[..i]), KeysOf(trace[i]), trace[i].now);
  }

  // ---- the advice to retry ----

  /** A key refused for its count is allowed again once the advised seconds have passed, if nobody
      else took it meanwhile, and not refused a whole second longer than its window lasts. */
  lemma RetryAfterIsRight(limits: Limits, windows: Windows, key: Key, t: Time, later: Time)
    requires RuleOf(limits, key).limit > 0
    requires key in windows && Running(limits, windows, key, t)
    requires Take(limits, true, windows, key, t).retryAfterS.Some?
    ensures var after := Take(limits, true, windows, key, t);
            && after.windows == windows
            && (later >= t + 1000 * after.retryAfterS.value ==> Take(limits, true, windows, key, later).retryAfterS.None?)
            && (t <= later <= t + 1000 * (after.retryAfterS.value - 1) ==> Take(limits, true, windows, key, later).retryAfterS.Some?)
  {
  }
}
