/** What a request is counted against, and that one under its limits passes. */
module RateLimitPasses {
  import opened Options
  import opened RateLimit

  /** One count a request goes into, and the rule it is held to. */
  datatype Counter = Counter(key: Key, limit: nat, windowMs: nat)

  /** Every request counts against its client and against everyone; a registration also against the
      client's registrations. In the order in which they are asked. */
  predicate CountedAgainst(limits: Limits, r: Request, counters: seq<Counter>) {
    && |counters| == (if r.register then 3 else 2)
    && counters[0] == Counter(PerClient(r.client), limits.perClient.limit, limits.perClient.windowMs)
    && (r.register ==> counters[1] == Counter(Registering(r.client), limits.registerPerClient.limit, limits.registerPerClient.windowMs))
    && counters[|counters| - 1] == Counter(Everyone, limits.everyone.limit, limits.everyone.windowMs)
  }

  lemma KeysAreCounted(limits: Limits, r: Request, counters: seq<Counter>)
    requires CountedAgainst(limits, r, counters)
    ensures |KeysOf(r)| == |counters|
    ensures forall k | 0 <= k < |counters| :: counters[k] == Counter(KeysOf(r)[k], RuleOf(limits, KeysOf(r)[k]).limit, RuleOf(limits, KeysOf(r)[k]).windowMs)
  {
  }

  // ---- what one request takes ----

  /** The takes that were allowed: all, or those before the refused one. */
  predicate TookUpTo(keys: seq<Key>, o: Outcome) {
    match o.refused
    case None => o.granted == keys
    case Some(refusal) => |o.granted| < |keys| && o.granted == keys[..|o.granted|] && refusal.key == keys[|o.granted|]
  }

  lemma {:induction false} TakesInOrder(limits: Limits, bounded: bool, windows: Windows, keys: seq<Key>, t: Time)
    ensures TookUpTo(keys, TakeAll(limits, bounded, windows, keys, t))
    decreases |keys|
  {
    hide Take;
    if keys != [] {
      var first := Take(limits, bounded, windows, keys[0], t);
      if first.retryAfterS.None? {
        TakesInOrder(limits, bounded, first.windows, keys[1..], t);
        var rest := TakeAll(limits, bounded, first.windows, keys[1..], t);
        assert keys == [keys[0]] + keys[1..];
        if rest.refused.Some? { assert keys[..|rest.granted| + 1] == [keys[0]] + keys[1..][..|rest.granted|]; }
      }
    }
  }

  // ---- counts never exceed what was taken ----

  /** How many takes of `key` were allowed at `from` or later. */
  function TakenSince(limits: Limits, trace: seq<Request>, key: Key, from: Time): nat {
    if trace == [] then 0
    else
      var init, last := trace[..|trace| - 1], trace[|trace| - 1];
      TakenSince(limits, init, key, from)
        + if from <= last.now then Times(Check(limits, true, Run(limits, true, init), last).granted, key) else 0
  }

  /** A window that began at `from` or later counts no more than was taken since. */
  predicate Covered(windows: Windows, key: Key, from: Time, n: nat, t: Time) {
    key in windows ==> windows[key].start <= t && (from <= windows[key].start ==> windows[key].count <= n)
  }

  lemma TakeCovered(limits: Limits, windows: Windows, taken: Key, key: Key, from: Time, n: nat, t: Time)
    requires Covered(windows, key, from, n, t)
    ensures var after := Take(limits, true, windows, taken, t);
            Covered(after.windows, key, from, n + if taken == key && after.retryAfterS.None? && from <= t then 1 else 0, t)
  {
    hide CeilSeconds, Longest, RuleOf;
  }

  lemma {:induction false} TakeAllCovered(limits: Limits, windows: Windows, keys: seq<Key>, key: Key, from: Time, n: nat, t: Time)
    requires Covered(windows, key, from, n, t)
    ensures var o := TakeAll(limits, true, windows, keys, t);
            Covered(o.windows, key, from, n + if from <= t then Times(o.granted, key) else 0, t)
    decreases |keys|
  {
    hide Take, Covered;
    if keys != [] {
      var first := Take(limits, true, windows, keys[0], t);
      TakeCovered(limits, windows, keys[0], key, from, n, t);
      if first.retryAfterS.None? {
        var m := if keys[0] == key && from <= t then n + 1 else n;
        TakeAllCovered(limits, first.windows, keys[1..], key, from, m, t);
        var rest := TakeAll(limits, true, first.windows, keys[1..], t);
        assert ([keys[0]] + rest.granted)[1..] == rest.granted;
      }
    }
  }

  lemma LaterCovered(windows: Windows, key: Key, from: Time, n: nat, t: Time, later: Time)
    requires Covered(windows, key, from, n, t) && t <= later
    ensures Covered(windows, key, from, n, later)
  {
  }

  lemma {:induction false} RunCovered(limits: Limits, trace: seq<Request>, key: Key, from: Time, t: Time)
    requires Ordered(trace) && (trace != [] ==> trace[|trace| - 1].now <= t)
    ensures Covered(Run(limits, true, trace), key, from, TakenSince(limits, trace, key, from), t)
  {
    hide TakeAll;
    if trace != [] {
      hide Covered;
      var init, last := trace[..|trace| - 1], trace[|trace| - 1];
      RunCovered(limits, init, key, from, last.now);
      TakeAllCovered(limits, Run(limits, true, init), KeysOf(last), key, from, TakenSince(limits, init, key, from), last.now);
      LaterCovered(Run(limits, true, trace), key, from, TakenSince(limits, trace, key, from), last.now, t);
    }
  }

  // ---- under its limits, a request passes ----

  /** The key's next take is within the rule. */
  predicate Within(limits: Limits, windows: Windows, key: Key, t: Time) {
    if Running(limits, windows, key, t) then windows[key].count < RuleOf(limits, key).limit else RuleOf(limits, key).limit > 0
  }

  /** A take that finds room is allowed exactly when it is within the rule, and leaves other keys so. */
  lemma TakeWithin(limits: Limits, windows: Windows, key: Key, t: Time)
    requires Roomy(limits, windows, key, t)
    ensures var after := Take(limits, true, windows, key, t);
            && (after.retryAfterS.None? <==> Within(limits, windows, key, t))
            && forall other | other != key :: Within(limits, after.windows, other, t) == Within(limits, windows, other, t)
  {
    hide CeilSeconds;
    forall other | other != key
      ensures Within(limits, Take(limits, true, windows, key, t).windows, other, t) == Within(limits, windows, other, t)
    {
      OtherWithin(limits, windows, key, other, t);
    }
  }

  lemma OtherWithin(limits: Limits, windows: Windows, key: Key, other: Key, t: Time)
    requires other != key
    ensures Within(limits, Take(limits, true, windows, key, t).windows, other, t) == Within(limits, windows, other, t)
  {
    hide CeilSeconds, RuleOf, Longest;
    assert RuleOf(limits, other).windowMs <= Longest(limits);
  }

  lemma {:induction false} AllWithin(limits: Limits, windows: Windows, keys: seq<Key>, t: Time)
    requires AllRoomy(limits, windows, keys, t) && forall i, j | 0 <= i < j < |keys| :: keys[i] != keys[j]
    ensures TakeAll(limits, true, windows, keys, t).refused.None? <==> forall k | 0 <= k < |keys| :: Within(limits, windows, keys[k], t)
    decreases |keys|
  {
    hide Take, Roomy, Within;
    if keys != [] {
      TakeWithin(limits, windows, keys[0], t);
      var first := Take(limits, true, windows, keys[0], t);
      if first.retryAfterS.None? {
        AllWithin(limits, first.windows, keys[1..], t);
        assert forall k | 0 <= k < |keys[1..]| :: keys[1..][k] == keys[k + 1];
        forall k | 0 < k < |keys| ensures Within(limits, first.windows, keys[k], t) == Within(limits, windows, keys[k], t) {}
      }
    }
  }

  /** The other half of the bound: a request whose client, registrations and everyone each took less
      than their limit within the last window passes, and is counted against each of them. */
  lemma UnderTheLimitPasses(limits: Limits, trace: seq<Request>, r: Request, counters: seq<Counter>)
    requires Ordered(trace + [r]) && CountedAgainst(limits, r, counters)
    requires AllRoomy(limits, Run(limits, true, trace), KeysOf(r), r.now)
    requires forall c | c in counters :: TakenSince(limits, trace, c.key, r.now - c.windowMs + 1) < c.limit
    ensures var o := Check(limits, true, Run(limits, true, trace), r);
            && o.refused.None? && |o.granted| == |counters|
            && forall k | 0 <= k < |counters| :: o.granted[k] == counters[k].key
  {
    hide *;
    OrderedInit(trace, r);
    KeysAreCounted(limits, r, counters);
    forall k | 0 <= k < |counters| ensures Within(limits, Run(limits, true, trace), KeysOf(r)[k], r.now) {
      assert counters[k] in counters;
      KeyWithin(limits, trace, KeysOf(r)[k], r.now);
    }
    PassesWithin(limits, Run(limits, true, trace), r);
  }

  lemma PassesWithin(limits: Limits, windows: Windows, r: Request)
    requires AllRoomy(limits, windows, KeysOf(r), r.now)
    requires forall k | 0 <= k < |KeysOf(r)| :: Within(limits, windows, KeysOf(r)[k], r.now)
    ensures Check(limits, true, windows, r).refused.None? && Check(limits, true, windows, r).granted == KeysOf(r)
  {
    hide AllRoomy, KeysOf, TakeAll, Within;
    AllWithin(limits, windows, KeysOf(r), r.now);
    TakesInOrder(limits, true, windows, KeysOf(r), r.now);
  }

  lemma KeyWithin(limits: Limits, trace: seq<Request>, key: Key, t: Time)
    requires Ordered(trace) && (trace != [] ==> trace[|trace| - 1].now <= t)
    requires TakenSince(limits, trace, key, t - RuleOf(limits, key).windowMs + 1) < RuleOf(limits, key).limit
    ensures Within(limits, Run(limits, true, trace), key, t)
  {
    RunCovered(limits, trace, key, t - RuleOf(limits, key).windowMs + 1, t);
    hide Run, TakenSince, RuleOf, Ordered;
  }

  lemma OrderedInit(trace: seq<Request>, r: Request)
    requires Ordered(trace + [r])
    ensures Ordered(trace) && (trace != [] ==> trace[|trace| - 1].now <= r.now)
  {
    var all := trace + [r];
    assert forall i | 0 <= i < |trace| :: all[i] == trace[i];
    assert all[|trace|] == r;
  }

  /** And a registration is refused once its client's registrations have used up their limit, however
      much room every other count has. */
  lemma RegistrationsAreLimited(limits: Limits, windows: Windows, r: Request)
    requires r.register && AllRoomy(limits, windows, KeysOf(r), r.now)
    requires Registering(r.client) in windows && windows[Registering(r.client)].count >= limits.registerPerClient.limit
    requires r.now - windows[Registering(r.client)].start < limits.registerPerClient.windowMs
    ensures Check(limits, true, windows, r).refused.Some?
  {
    AllWithin(limits, windows, KeysOf(r), r.now);
    assert KeysOf(r)[1] == Registering(r.client);
    hide TakeAll, AllRoomy;
  }
}
