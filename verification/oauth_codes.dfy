/** Authorisation codes over every run: redeemable exactly once, by the right client, in time. */
module OAuthCodes {
  import opened Options
  import opened OAuthServer
  import opened OAuthRuns

  /** Request `k` is the consent that granted `code`, and there was room to remember it. */
  ghost predicate Stores(config: Config, trace: seq<Arrival>, k: nat, code: Id, grant: Grant)
    requires k < |trace|
  {
    var s, r := At(config, true, trace, k), trace[k].request;
    && r.Consent? && r.allow
    && Taken(s.consents, r.ticket, trace[k].now) == Some(grant)
    && s.drawn == code
    && HasRoom(s.codes, trace[k].now)
  }

  /** Request `m` is an authenticated client's attempt to redeem `code`, successful or not. */
  predicate Tries(trace: seq<Arrival>, m: nat, code: Id)
    requires m < |trace|
  {
    trace[m].request.RedeemCode? && trace[m].request.sender.Some? && trace[m].request.code == code
  }

  ghost predicate UntriedSince(trace: seq<Arrival>, k: nat, n: nat, code: Id)
    requires n <= |trace|
  {
    forall m: nat | k < m < n :: !Tries(trace, m, code)
  }

  /** `code` still stands for `grant` at time `now`, before request `n`. */
  ghost predicate Redeemable(config: Config, trace: seq<Arrival>, n: nat, code: Id, grant: Grant, now: Time)
    requires n <= |trace|
  {
    exists k: nat :: k < n && Stores(config, trace, k, code, grant) && now < trace[k].now + CODE_TTL_MS && UntriedSince(trace, k, n, code)
  }

  lemma PutTaken<T>(items: Table<T>, key: Id, item: Timed<T>, at: Time, k: Id, now: Time)
    requires at <= now
    ensures Taken(PutItem(items, key, item, at), k, now)
         == if k == key && HasRoom(items, at) then (if now < item.expiresAt then Some(item.value) else None)
            else Taken(items, k, now)
  {
  }

  predicate GrantsCode(s: Server, request: Request, at: Time, code: Id) {
    && request.Consent? && request.allow
    && Taken(s.consents, request.ticket, at).Some?
    && s.drawn == code
  }

  lemma ConsentSettles(s: Server, ticket: Id, allow: bool, at: Time, code: Id, now: Time)
    requires at <= now && (code in s.codes ==> code < s.drawn)
    ensures var next := AfterConsent(s, ticket, allow, at).server.codes;
            var request := Request.Consent(ticket, allow);
            Taken(next, code, now)
              == if GrantsCode(s, request, at, code) && HasRoom(s.codes, at) && now < at + CODE_TTL_MS
                 then Taken(s.consents, ticket, at) else Taken(s.codes, code, now)
    ensures GrantsCode(s, Request.Consent(ticket, allow), at, code) ==> Taken(s.codes, code, now).None?
    ensures GrantsCode(s, Request.Consent(ticket, allow), at, code) ==> AfterConsent(s, ticket, allow, at).response == CodeGranted(code)
  {
    var grant := Taken(s.consents, ticket, at);
    if grant.Some? {
      PutTaken(s.codes, s.drawn, Timed(grant.value, at + CODE_TTL_MS), at, code, now);
    }
    hide PutItem, HasRoom;
  }

  lemma OthersKeepCodes(config: Config, s: Server, request: Request, at: Time, code: Id)
    requires !request.Consent?
    requires !(request.RedeemCode? && request.sender.Some? && request.code == code)
    ensures var next := Handle(config, true, s, request, at).server.codes;
            (code in next <==> code in s.codes) && (code in s.codes ==> next[code] == s.codes[code])
  {
    hide PutItem, HasRoom, WellFormedVerifier, Pruned;
  }

  lemma TryBurns(config: Config, s: Server, request: Request, at: Time)
    requires request.RedeemCode? && request.sender.Some?
    ensures request.code !in Handle(config, true, s, request, at).server.codes
  {
    hide WellFormedVerifier;
  }

  lemma NoCodesAtFirst(config: Config, trace: seq<Arrival>)
    ensures At(config, true, trace, 0).codes == map[]
  {
    assert trace[..0] == [];
  }

  lemma {:induction false} CodeTableIsHistory(config: Config, trace: seq<Arrival>, n: nat, code: Id, grant: Grant, now: Time)
    requires Ordered(trace) && n <= |trace| && Reached(trace[..n], now)
    ensures Taken(At(config, true, trace, n).codes, code, now) == Some(grant) <==> Redeemable(config, trace, n, code, grant, now)
  {
    hide At, Handle, HasRoom, TokensInv, PairsInv;
    if n == 0 {
      NoCodesAtFirst(config, trace);
    } else {
      assert trace[..n - 1] == trace[..n][..n - 1];
      assert trace[n - 1] == trace[..n][n - 1];
      CodeTableIsHistory(config, trace, n - 1, code, grant, now);
      AtNext(config, true, trace, n - 1);
      var s, request, at := At(config, true, trace, n - 1), trace[n - 1].request, trace[n - 1].now;
      CodesAreDrawn(config, trace, n - 1, code);
      RedeemableStep(config, trace, n, code, grant, now);
      if request.Consent? {
        ConsentSettles(s, request.ticket, request.allow, at, code, now);
        ConsentHandled(config, s, request, at);
      } else if Tries(trace, n - 1, code) {
        TryBurns(config, s, request, at);
      } else {
        OthersKeepCodes(config, s, request, at, code);
      }
      hide Redeemable;
    }
  }

  lemma ConsentHandled(config: Config, s: Server, request: Request, at: Time)
    requires request.Consent?
    ensures Handle(config, true, s, request, at) == AfterConsent(s, request.ticket, request.allow, at)
  {
  }

  /** One more request: a try ends it, a stored grant begins it, anything else leaves it. */
  lemma RedeemableStep(config: Config, trace: seq<Arrival>, n: nat, code: Id, grant: Grant, now: Time)
    requires 0 < n <= |trace|
    ensures Redeemable(config, trace, n, code, grant, now) <==>
      || (Redeemable(config, trace, n - 1, code, grant, now) && !Tries(trace, n - 1, code))
      || (Stores(config, trace, n - 1, code, grant) && now < trace[n - 1].now + CODE_TTL_MS)
  {
    hide Stores, Tries;
    if Redeemable(config, trace, n, code, grant, now) {
      var k: nat :| k < n && Stores(config, trace, k, code, grant) && now < trace[k].now + CODE_TTL_MS && UntriedSince(trace, k, n, code);
      if k < n - 1 {
        assert UntriedSince(trace, k, n - 1, code);
        assert !Tries(trace, n - 1, code);
      }
    }
    if Redeemable(config, trace, n - 1, code, grant, now) && !Tries(trace, n - 1, code) {
      var k: nat :| k < n - 1 && Stores(config, trace, k, code, grant) && now < trace[k].now + CODE_TTL_MS && UntriedSince(trace, k, n - 1, code);
      assert UntriedSince(trace, k, n, code);
    }
    if Stores(config, trace, n - 1, code, grant) && now < trace[n - 1].now + CODE_TTL_MS {
      assert UntriedSince(trace, n - 1, n, code);
    }
  }

  lemma CodesAreDrawn(config: Config, trace: seq<Arrival>, n: nat, code: Id)
    requires Ordered(trace) && n <= |trace|
    ensures code in At(config, true, trace, n).codes ==> code < At(config, true, trace, n).drawn
  {
    hide Handle, TokensInv, PairsInv, Forgot;
    var clock := if n == 0 then 0 else trace[n - 1].now;
    RunsAgree(config, trace[..n], clock);
    RunKeepsInv(config, trace[..n], clock);
    hide Run;
  }

  /** What the client must present for the grant. */
  predicate MatchesGrant(request: Request, grant: Grant)
    requires request.RedeemCode?
  {
    && request.sender == Some(grant.login.client)
    && request.redirectUri == grant.login.redirectUri
    && request.verifier.Some? && WellFormedVerifier(request.verifier.value)
    && Challenge(request.verifier.value) == grant.login.challenge
  }

  ghost predicate Earned(config: Config, trace: seq<Arrival>, i: nat)
    requires i < |trace| && trace[i].request.RedeemCode?
  {
    exists grant ::
      && Redeemable(config, trace, i, trace[i].request.code, grant, trace[i].now)
      && MatchesGrant(trace[i].request, grant)
  }

  lemma TokensIffPresented(config: Config, s: Server, request: Request, now: Time)
    requires request.RedeemCode?
    ensures Handle(config, true, s, request, now).response.Tokens? <==>
      && request.sender.Some?
      && Taken(s.codes, request.code, now).Some?
      && MatchesGrant(request, Taken(s.codes, request.code, now).value)
  {
    hide WellFormedVerifier;
  }

  /** A code is exchanged for tokens exactly when some earlier consent granted it, there was room to
      remember it, it is less than five minutes old, no authenticated client has tried it since,
      and client, address and verifier all match the sign-in it came from. */
  lemma CodeRedeemsExactlyWhen(config: Config, trace: seq<Arrival>, i: nat)
    requires Ordered(trace) && i < |trace| && trace[i].request.RedeemCode?
    ensures ResponseAt(config, true, trace, i).Tokens? <==> Earned(config, trace, i)
  {
    var request, now := trace[i].request, trace[i].now;
    var s := At(config, true, trace, i);
    TokensIffPresented(config, s, request, now);
    hide At, Handle, Redeemable, Taken, MatchesGrant;
    var taken := Taken(s.codes, request.code, now);
    if taken.Some? {
      CodeTableIsHistory(config, trace, i, request.code, taken.value, now);
    }
    forall grant | Redeemable(config, trace, i, request.code, grant, now) ensures taken == Some(grant) {
      CodeTableIsHistory(config, trace, i, request.code, grant, now);
    }
  }

  lemma {:induction false} DrawnGrows(config: Config, trace: seq<Arrival>, i: nat, j: nat)
    requires i <= j <= |trace|
    ensures At(config, true, trace, i).drawn <= At(config, true, trace, j).drawn
    decreases j
  {
    hide At, Handle;
    if i < j {
      DrawnGrows(config, trace, i, j - 1);
      AtNext(config, true, trace, j - 1);
      DrawsMore(config, At(config, true, trace, j - 1), trace[j - 1].request, trace[j - 1].now);
    }
  }

  lemma DrawsMore(config: Config, s: Server, request: Request, now: Time)
    ensures s.drawn <= Handle(config, true, s, request, now).server.drawn
  {
    hide PutItem, HasRoom, Taken, Pruned, WellFormedVerifier;
  }

  /** Two consents never grant the same code. */
  lemma GrantsDistinctCodes(config: Config, trace: seq<Arrival>, i: nat, j: nat)
    requires i < j < |trace|
    requires ResponseAt(config, true, trace, i).CodeGranted?
    ensures ResponseAt(config, true, trace, i).code < At(config, true, trace, j).drawn
  {
    AtNext(config, true, trace, i);
    GrantDraws(config, At(config, true, trace, i), trace[i].request, trace[i].now);
    DrawnGrows(config, trace, i + 1, j);
    hide At, Handle;
  }

  lemma GrantDraws(config: Config, s: Server, request: Request, now: Time)
    requires Handle(config, true, s, request, now).response.CodeGranted?
    ensures var r := Handle(config, true, s, request, now);
            r.response.code == s.drawn && r.server.drawn == s.drawn + 1
  {
    hide PutItem, HasRoom, Taken, Pruned, WellFormedVerifier;
  }

  /** Once granted, a code survives one attempt at most: after any authenticated try, whatever came
      of it, no later request redeems it. */
  lemma CodeBurns(config: Config, trace: seq<Arrival>, k: nat, i: nat, j: nat, code: Id)
    requires Ordered(trace) && k < i < j < |trace|
    requires ResponseAt(config, true, trace, k) == CodeGranted(code)
    requires Tries(trace, i, code) && Tries(trace, j, code)
    ensures !ResponseAt(config, true, trace, j).Tokens?
  {
    CodeRedeemsExactlyWhen(config, trace, j);
    hide At, ResponseAt, MatchesGrant, Redeemable;
    forall grant ensures !Redeemable(config, trace, j, code, grant, trace[j].now) {
      TriedCodeIsGone(config, trace, k, i, j, code, grant);
    }
  }

  lemma TriedCodeIsGone(config: Config, trace: seq<Arrival>, k: nat, i: nat, j: nat, code: Id, grant: Grant)
    requires k < i < j < |trace|
    requires ResponseAt(config, true, trace, k) == CodeGranted(code) && Tries(trace, i, code)
    ensures !Redeemable(config, trace, j, code, grant, trace[j].now)
  {
    GrantDraws(config, At(config, true, trace, k), trace[k].request, trace[k].now);
    hide At, Stores, Handle, Tries;
    forall m: nat | m < j && Stores(config, trace, m, code, grant) ensures !UntriedSince(trace, m, j, code) {
      SameDraw(config, trace, k, m, grant);
      assert Tries(trace, i, code);
    }
  }

  lemma CodeRedeemsOnce(config: Config, trace: seq<Arrival>, i: nat, j: nat, code: Id)
    requires Ordered(trace) && i < j < |trace|
    requires Tries(trace, i, code) && Tries(trace, j, code)
    requires ResponseAt(config, true, trace, i).Tokens?
    ensures !ResponseAt(config, true, trace, j).Tokens?
  {
    CodeRedeemsExactlyWhen(config, trace, i);
    hide At, ResponseAt, MatchesGrant;
    var grant :| Redeemable(config, trace, i, code, grant, trace[i].now) && MatchesGrant(trace[i].request, grant);
    var k: nat :| k < i && Stores(config, trace, k, code, grant);
    StoresGrants(config, trace, k, code, grant);
    CodeBurns(config, trace, k, i, j, code);
  }

  lemma StoresGrants(config: Config, trace: seq<Arrival>, k: nat, code: Id, grant: Grant)
    requires k < |trace| && Stores(config, trace, k, code, grant)
    ensures ResponseAt(config, true, trace, k) == CodeGranted(code)
  {
    hide PutItem, HasRoom;
  }

  /** The consent handler ignores that its code may not have been remembered. In time, untried and
      correctly presented, a granted code works if and only if its table had room when granted. */
  lemma GrantedCodeWorksIffRoom(config: Config, trace: seq<Arrival>, k: nat, i: nat, grant: Grant)
    requires Ordered(trace) && k < i < |trace|
    requires trace[k].request.Consent? && trace[k].request.allow
    requires Taken(At(config, true, trace, k).consents, trace[k].request.ticket, trace[k].now) == Some(grant)
    requires trace[i].request.RedeemCode? && trace[i].request.code == At(config, true, trace, k).drawn
    requires MatchesGrant(trace[i].request, grant)
    requires UntriedSince(trace, k, i, trace[i].request.code) && trace[i].now < trace[k].now + CODE_TTL_MS
    ensures ResponseAt(config, true, trace, k) == CodeGranted(trace[i].request.code)
    ensures ResponseAt(config, true, trace, i).Tokens? <==> HasRoom(At(config, true, trace, k).codes, trace[k].now)
  {
    var code := trace[i].request.code;
    CodeRedeemsExactlyWhen(config, trace, i);
    ConsentHandled(config, At(config, true, trace, k), trace[k].request, trace[k].now);
    hide At, Handle, MatchesGrant, HasRoom, Taken, PutItem;
    if HasRoom(At(config, true, trace, k).codes, trace[k].now) {
      assert Stores(config, trace, k, code, grant);
      assert Redeemable(config, trace, i, code, grant, trace[i].now);
    } else if Earned(config, trace, i) {
      var other :| Redeemable(config, trace, i, code, other, trace[i].now) && MatchesGrant(trace[i].request, other);
      var m: nat :| m < i && Stores(config, trace, m, code, other);
      SameDraw(config, trace, k, m, other);
    }
  }

  /** A code is drawn by one consent only. */
  lemma SameDraw(config: Config, trace: seq<Arrival>, k: nat, m: nat, other: Grant)
    requires k < |trace| && m < |trace|
    requires ResponseAt(config, true, trace, k) == CodeGranted(At(config, true, trace, k).drawn)
    requires Stores(config, trace, m, At(config, true, trace, k).drawn, other)
    ensures m == k
  {
    var code := At(config, true, trace, k).drawn;
    StoresGrants(config, trace, m, code, other);
    hide Handle, ResponseAt, At;
    if m < k { GrantsDistinctCodes(config, trace, m, k); }
    if k < m { GrantsDistinctCodes(config, trace, k, m); }
  }
}
