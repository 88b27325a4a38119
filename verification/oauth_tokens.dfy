/** What a client receives: which token in which field, for whom, for how long, and from which sign-in. */
module OAuthTokens {
  import opened Options
  import opened OAuthServer
  import opened OAuthRuns
  import opened OAuthCodes

  // ---- one answer ----

  const AN_HOUR := 3600
  const THIRTY_DAYS := 2_592_000

  /** `a` is an access token of one hour and `r` a refresh token of thirty days, made at `now`. */
  predicate Pair(a: Claims, r: Claims, sub: string, client: ClientId, scope: string, now: Time) {
    && a.purpose.ForAccess? && r.purpose.ForRefresh?
    && a.sub == r.sub == sub && a.client == r.client == client && a.scope == r.scope == scope
    && a.family == r.family && a.jti != r.jti
    && a.iat == r.iat == Seconds(now) && a.exp == Seconds(now) + AN_HOUR && r.exp == Seconds(now) + THIRTY_DAYS
  }

  /** No token signed so far has this id or, without `family`, belongs to this family. */
  ghost predicate NewIn(signed: set<Claims>, c: Claims, family: Option<Id>) {
    && (forall x | x in signed :: x.jti != c.jti)
    && (if family.Some? then c.family == family.value else forall x | x in signed :: x.family != c.family)
  }

  ghost predicate Drawn(s: Server) {
    forall x | x in s.signed :: x.jti < s.drawn && x.family < s.drawn
  }

  lemma IssueGives(s: Server, sub: string, client: ClientId, scope: string, family: Option<Id>, now: Time)
    requires Drawn(s)
    ensures var reply := Issue(s, sub, client, scope, family, now);
            && reply.response.Tokens?
            && var a, r := reply.response.access, reply.response.refresh;
               && Pair(a, r, sub, client, scope, now)
               && NewIn(s.signed, a, family) && NewIn(s.signed, r, family)
               && reply.server.signed == s.signed + {a, r}
  {
  }

  lemma DrawnBefore(config: Config, trace: seq<Arrival>, i: nat)
    requires Ordered(trace) && i < |trace|
    ensures Drawn(At(config, true, trace, i))
  {
    RunKeepsInv(config, trace[..i], trace[i].now);
    RunsAgree(config, trace[..i], trace[i].now);
    hide Run, TicketsInv, PairsInv, Recorded, Forgot;
    var s := At(config, false, trace, i);
    forall x | x in s.signed ensures x.jti < s.drawn && x.family < s.drawn { assert KnownClaims(config, x, s.drawn, trace[i].now); }
  }

  /** The pair a refresh or a code exchange is answered with. */
  ghost predicate Answers(config: Config, trace: seq<Arrival>, i: nat, a: Claims, r: Claims)
    requires i < |trace|
  {
    var before, after := At(config, true, trace, i).signed, At(config, true, trace, i + 1).signed;
    && after == before + {a, r}
    && match trace[i].request
       case RedeemRefresh(sender, token) =>
         && sender == Some(token.client) && Pair(a, r, token.sub, token.client, token.scope, trace[i].now)
         && NewIn(before, a, Some(token.family)) && NewIn(before, r, Some(token.family))
       case RedeemCode(sender, code, redirectUri, verifier) =>
         && (exists grant ::
               && Redeemable(config, trace, i, code, grant, trace[i].now) && MatchesGrant(trace[i].request, grant)
               && Pair(a, r, grant.sub, grant.login.client, grant.login.scope, trace[i].now))
         && NewIn(before, a, None) && NewIn(before, r, None)
       case _ => false
  }

  lemma RefreshGives(config: Config, s: Server, sender: Option<ClientId>, token: Claims, now: Time)
    requires Drawn(s) && AfterRedeemRefresh(config, true, s, sender, token, now).response.Tokens?
    ensures var reply := AfterRedeemRefresh(config, true, s, sender, token, now);
            var a, r := reply.response.access, reply.response.refresh;
            && sender == Some(token.client) && Pair(a, r, token.sub, token.client, token.scope, now)
            && NewIn(s.signed, a, Some(token.family)) && NewIn(s.signed, r, Some(token.family))
            && reply.server.signed == s.signed + {a, r}
  {
    var marked := PruneRefresh(true, s, Seconds(now));
    marked := marked.(usedRefresh := marked.usedRefresh[token.jti := token.exp]);
    IssueGives(marked, token.sub, token.client, token.scope, Some(token.family), now);
    hide Issue, Pruned, Pair, NewIn;
  }

  lemma ExchangeGives(s: Server, request: Request, now: Time)
    requires request.RedeemCode? && Drawn(s)
    requires AfterRedeemCode(s, request.sender, request.code, request.redirectUri, request.verifier, now).response.Tokens?
    ensures var reply := AfterRedeemCode(s, request.sender, request.code, request.redirectUri, request.verifier, now);
            var a, r := reply.response.access, reply.response.refresh;
            && Taken(s.codes, request.code, now).Some?
            && var grant := Taken(s.codes, request.code, now).value;
               && MatchesGrant(request, grant) && Pair(a, r, grant.sub, grant.login.client, grant.login.scope, now)
               && NewIn(s.signed, a, None) && NewIn(s.signed, r, None)
               && reply.server.signed == s.signed + {a, r}
  {
    hide Issue, Pair, NewIn, WellFormedVerifier;
    var taken := Taken(s.codes, request.code, now);
    if taken.Some? && request.sender.Some? {
      IssueGives(s.(codes := s.codes - {request.code}), taken.value.sub, request.sender.value, taken.value.login.scope, None, now);
    }
  }

  lemma OnlyGrantsGiveTokens(config: Config, s: Server, request: Request, now: Time)
    requires !request.RedeemRefresh? && !request.RedeemCode?
    ensures !Handle(config, true, s, request, now).response.Tokens?
    ensures Handle(config, true, s, request, now).server.signed == s.signed
  {
    hide PutItem, HasRoom, Taken, Pruned;
  }

  /** Over every run: a request answered with tokens is a refresh or a code exchange, answered with
      one new access token and one new refresh token for its own client, subject and scope; a refresh
      keeps the family, an exchange opens one never seen. */
  lemma TokensAnswer(config: Config, trace: seq<Arrival>, i: nat)
    requires Ordered(trace) && i < |trace| && ResponseAt(config, true, trace, i).Tokens?
    ensures Answers(config, trace, i, ResponseAt(config, true, trace, i).access, ResponseAt(config, true, trace, i).refresh)
  {
    DrawnBefore(config, trace, i);
    AtNext(config, true, trace, i);
    var s, now := At(config, true, trace, i), trace[i].now;
    var reply := Handle(config, true, s, trace[i].request, now);
    match trace[i].request {
      case RedeemRefresh(sender, token) =>
        hide At, Drawn, Pair, NewIn, AfterRedeemRefresh;
        RefreshGives(config, s, sender, token, now);
      case RedeemCode(sender, code, redirectUri, verifier) =>
        hide At, Drawn, Pair, NewIn, Redeemable, MatchesGrant, AfterRedeemCode, Taken;
        ExchangeGives(s, trace[i].request, now);
        CodeTableIsHistory(config, trace, i, code, Taken(s.codes, code, now).value, now);
      case _ =>
        OnlyGrantsGiveTokens(config, s, trace[i].request, now);
        hide Handle, At;
        assert false;
    }
  }

  // ---- what the returned tokens are good for ----

  lemma ReturnedIsSigned(config: Config, trace: seq<Arrival>, i: nat, j: nat, c: Claims)
    requires Ordered(trace) && i < j < |trace| && ResponseAt(config, true, trace, i).Tokens?
    requires c == ResponseAt(config, true, trace, i).access || c == ResponseAt(config, true, trace, i).refresh
    ensures c in At(config, true, trace, j).signed
  {
    TokensAnswer(config, trace, i);
    hide At, ResponseAt, Pair, NewIn, Redeemable;
    ForgettingIsHarmless(config, trace, i + 1);
    SignedForEver(config, trace, i + 1, j, c);
    ForgettingIsHarmless(config, trace, j);
  }

  lemma PairOf(config: Config, trace: seq<Arrival>, i: nat)
    requires Ordered(trace) && i < |trace| && ResponseAt(config, true, trace, i).Tokens?
    ensures trace[i].request.RedeemRefresh? || trace[i].request.RedeemCode?
    ensures trace[i].request.sender.Some?
    ensures var a, r := ResponseAt(config, true, trace, i).access, ResponseAt(config, true, trace, i).refresh;
            Pair(a, r, a.sub, trace[i].request.sender.value, a.scope, trace[i].now)
  {
    TokensAnswer(config, trace, i);
    hide At, ResponseAt, NewIn, Redeemable;
  }

  /** The access token a client was given works at any later time within the hour, as long as its
      family has not been revoked, and at no other. */
  lemma ReturnedAccessWorks(config: Config, trace: seq<Arrival>, i: nat, j: nat)
    requires Ordered(trace) && i < j < |trace| && ResponseAt(config, true, trace, i).Tokens?
    requires trace[j].request == UseAccess(ResponseAt(config, true, trace, i).access)
    ensures ResponseAt(config, true, trace, j).Accepted? <==>
      && Seconds(trace[j].now) < Seconds(trace[i].now) + AN_HOUR
      && !RevokedBefore(config, trace, j, ResponseAt(config, true, trace, i).access.family)
  {
    ReturnedIsSigned(config, trace, i, j, ResponseAt(config, true, trace, i).access);
    PairOf(config, trace, i);
    hide At, ResponseAt, RevokedBefore;
    AccessAcceptedExactlyWhen(config, trace, j);
  }

  /** The refresh token redeems once for that client, within thirty days and while its family has not
      been revoked. */
  lemma ReturnedRefreshWorks(config: Config, trace: seq<Arrival>, i: nat, j: nat, sender: Option<ClientId>)
    requires Ordered(trace) && i < j < |trace| && ResponseAt(config, true, trace, i).Tokens?
    requires trace[j].request == RedeemRefresh(sender, ResponseAt(config, true, trace, i).refresh)
    ensures (trace[i].request.RedeemRefresh? || trace[i].request.RedeemCode?) && trace[i].request.sender.Some?
    ensures ResponseAt(config, true, trace, j).Tokens? <==>
      && sender == trace[i].request.sender
      && Seconds(trace[j].now) < Seconds(trace[i].now) + THIRTY_DAYS
      && !RedeemedBefore(config, trace, j, ResponseAt(config, true, trace, i).refresh.jti)
      && !RevokedBefore(config, trace, j, ResponseAt(config, true, trace, i).refresh.family)
  {
    ReturnedIsSigned(config, trace, i, j, ResponseAt(config, true, trace, i).refresh);
    PairOf(config, trace, i);
    hide At, ResponseAt, RedeemedBefore, RevokedBefore;
    RefreshSucceedsExactlyWhen(config, trace, j);
  }

  // ---- which sign-in they come from ----

  predicate SameTables(a: Server, b: Server) {
    a.logins == b.logins && a.exchanging == b.exchanging && a.consents == b.consents
  }

  lemma CodeFrame(s: Server, sender: Option<ClientId>, code: Id, redirectUri: string, verifier: Option<string>, now: Time)
    ensures SameTables(AfterRedeemCode(s, sender, code, redirectUri, verifier, now).server, s)
  {
    hide Issue, Taken, WellFormedVerifier;
    var taken := Taken(s.codes, code, now);
    if taken.Some? && sender.Some? {
      IssueFrame(s.(codes := s.codes - {code}), taken.value.sub, sender.value, taken.value.login.scope, None, now);
    }
  }

  lemma RefreshFrame(config: Config, s: Server, sender: Option<ClientId>, token: Claims, now: Time)
    ensures SameTables(AfterRedeemRefresh(config, true, s, sender, token, now).server, s)
  {
    hide Issue, Pruned;
    var marked := PruneRefresh(true, s, Seconds(now));
    IssueFrame(marked.(usedRefresh := marked.usedRefresh[token.jti := token.exp]), token.sub, token.client, token.scope, Some(token.family), now);
  }

  lemma AccessFrame(config: Config, s: Server, token: Claims, now: Time)
    ensures SameTables(AfterUseAccess(config, true, s, token, now).server, s)
  {
    hide Pruned;
  }

  /** Each handler touches its own tables only. */
  lemma TablesStay(config: Config, s: Server, request: Request, now: Time)
    ensures var next := Handle(config, true, s, request, now).server;
            && (!request.Authorise? && !request.Callback? ==> next.logins == s.logins)
            && (!request.Callback? && !request.Exchanged? ==> next.exchanging == s.exchanging)
            && (!request.Exchanged? && !request.Consent? ==> next.consents == s.consents)
  {
    hide PutItem, HasRoom, Taken, AfterRedeemCode, AfterRedeemRefresh, AfterUseAccess;
    match request {
      case RedeemCode(sender, code, redirectUri, verifier) => CodeFrame(s, sender, code, redirectUri, verifier, now);
      case RedeemRefresh(sender, token) => RefreshFrame(config, s, sender, token, now);
      case UseAccess(token) => AccessFrame(config, s, token, now);
      case Authorise(_, _, _) => hide AfterCallback, AfterExchanged, AfterConsent;
      case Callback(_, _) => hide AfterAuthorise, AfterExchanged, AfterConsent;
      case Exchanged(_, _) => hide AfterAuthorise, AfterCallback, AfterConsent;
      case Consent(_, _) => hide AfterAuthorise, AfterCallback, AfterExchanged;
    }
  }

  lemma IssueFrame(s: Server, sub: string, client: ClientId, scope: string, family: Option<Id>, now: Time)
    ensures SameTables(Issue(s, sub, client, scope, family, now).server, s)
  {
  }

  lemma LoginStep(config: Config, s: Server, request: Request, now: Time, state: Id)
    ensures var r := Handle(config, true, s, request, now);
            state in r.server.logins ==>
              || (state in s.logins && r.server.logins[state] == s.logins[state])
              || (request.Authorise? && r.response == LoginStarted(state) && config.mayRedirect(request.client, request.redirectUri)
                  && config.scopeOf(request.client).Some?
                  && r.server.logins[state]
                       == Timed(Login(request.client, request.redirectUri, request.challenge, config.scopeOf(request.client).value), now + LOGIN_TTL_MS))
  {
    if !request.Authorise? && !request.Callback? {
      TablesStay(config, s, request, now);
      hide Handle;
    } else {
      hide Taken, AfterExchanged, AfterConsent, AfterRedeemCode, AfterRedeemRefresh, AfterUseAccess;
    }
  }

  /** Request `i` began this sign-in. */
  ghost predicate Begins(config: Config, trace: seq<Arrival>, i: nat, state: Id, login: Login)
    requires i < |trace|
  {
    && trace[i].request == Authorise(login.client, login.redirectUri, login.challenge)
    && ResponseAt(config, true, trace, i) == LoginStarted(state)
    && config.mayRedirect(login.client, login.redirectUri) && config.scopeOf(login.client) == Some(login.scope)
  }

  lemma {:induction false} LoginBegan(config: Config, trace: seq<Arrival>, n: nat, state: Id) returns (i: nat)
    requires n <= |trace| && state in At(config, true, trace, n).logins
    ensures i < n && Begins(config, trace, i, state, At(config, true, trace, n).logins[state].value)
    ensures At(config, true, trace, n).logins[state].expiresAt == trace[i].now + LOGIN_TTL_MS
  {
    hide At, Handle;
    NothingAtFirst(config, trace);
    AtNext(config, true, trace, n - 1);
    LoginStep(config, At(config, true, trace, n - 1), trace[n - 1].request, trace[n - 1].now, state);
    if state in At(config, true, trace, n - 1).logins && At(config, true, trace, n - 1).logins[state] == At(config, true, trace, n).logins[state] {
      i := LoginBegan(config, trace, n - 1, state);
    } else {
      i := n - 1;
    }
  }

  lemma NothingAtFirst(config: Config, trace: seq<Arrival>)
    ensures At(config, true, trace, 0) == STARTED
  {
    assert trace[..0] == [];
  }

  lemma ExchangingStep(config: Config, s: Server, request: Request, now: Time, state: Id)
    ensures var r := Handle(config, true, s, request, now);
            state in r.server.exchanging ==>
              || (state in s.exchanging && r.server.exchanging[state] == s.exchanging[state])
              || (request == Callback(state, true) && r.response == Waiting && Taken(s.logins, state, now) == Some(r.server.exchanging[state]))
  {
    if !request.Callback? && !request.Exchanged? {
      TablesStay(config, s, request, now);
      hide Handle;
    } else {
      hide PutItem, HasRoom, Taken, AfterAuthorise, AfterConsent, AfterRedeemCode, AfterRedeemRefresh, AfterUseAccess;
    }
  }

  lemma {:induction false} CallbackCame(config: Config, trace: seq<Arrival>, n: nat, state: Id) returns (j: nat)
    requires n <= |trace| && state in At(config, true, trace, n).exchanging
    ensures j < n && trace[j].request == Callback(state, true) && ResponseAt(config, true, trace, j) == Waiting
    ensures Taken(At(config, true, trace, j).logins, state, trace[j].now) == Some(At(config, true, trace, n).exchanging[state])
  {
    hide At, Handle, Taken;
    NothingAtFirst(config, trace);
    AtNext(config, true, trace, n - 1);
    ExchangingStep(config, At(config, true, trace, n - 1), trace[n - 1].request, trace[n - 1].now, state);
    if state in At(config, true, trace, n - 1).exchanging && At(config, true, trace, n - 1).exchanging[state] == At(config, true, trace, n).exchanging[state] {
      j := CallbackCame(config, trace, n - 1, state);
    } else {
      j := n - 1;
    }
  }

  lemma ConsentStep(config: Config, s: Server, request: Request, now: Time, ticket: Id)
    ensures var r := Handle(config, true, s, request, now);
            ticket in r.server.consents ==>
              || (ticket in s.consents && r.server.consents[ticket] == s.consents[ticket])
              || (request.Exchanged? && request.identity == Some(config.subject) && r.response == ConsentPage(ticket)
                  && request.state in s.exchanging
                  && r.server.consents[ticket] == Timed(Grant(s.exchanging[request.state], config.subject), now + LOGIN_TTL_MS))
  {
    if !request.Exchanged? && !request.Consent? {
      TablesStay(config, s, request, now);
      hide Handle;
    } else {
      hide Taken, AfterAuthorise, AfterCallback, AfterRedeemCode, AfterRedeemRefresh, AfterUseAccess;
    }
  }

  lemma {:induction false} IdentityCame(config: Config, trace: seq<Arrival>, n: nat, ticket: Id) returns (k: nat)
    requires n <= |trace| && ticket in At(config, true, trace, n).consents
    ensures k < n && trace[k].request.Exchanged? && trace[k].request.identity == Some(config.subject)
    ensures ResponseAt(config, true, trace, k) == ConsentPage(ticket) && trace[k].request.state in At(config, true, trace, k).exchanging
    ensures At(config, true, trace, n).consents[ticket]
         == Timed(Grant(At(config, true, trace, k).exchanging[trace[k].request.state], config.subject), trace[k].now + LOGIN_TTL_MS)
  {
    hide At, Handle;
    NothingAtFirst(config, trace);
    AtNext(config, true, trace, n - 1);
    ConsentStep(config, At(config, true, trace, n - 1), trace[n - 1].request, trace[n - 1].now, ticket);
    if ticket in At(config, true, trace, n - 1).consents && At(config, true, trace, n - 1).consents[ticket] == At(config, true, trace, n).consents[ticket] {
      k := IdentityCame(config, trace, n - 1, ticket);
    } else {
      k := n - 1;
    }
  }

  /** The five requests of one sign-in, each answered with the ticket the next one presents. */
  ghost predicate SignIn(config: Config, trace: seq<Arrival>, i: nat, j: nat, k: nat, l: nat, code: Id, grant: Grant)
    requires i < j < k < l < |trace|
  {
    && trace[k].request.Exchanged? && trace[l].request.Consent? && trace[l].request.allow
    && var state, ticket := trace[k].request.state, trace[l].request.ticket;
       && Begins(config, trace, i, state, grant.login)
       && trace[j].request == Callback(state, true) && ResponseAt(config, true, trace, j) == Waiting
       && trace[j].now < trace[i].now + LOGIN_TTL_MS
       && trace[k].request.identity == Some(grant.sub) && grant.sub == config.subject && ResponseAt(config, true, trace, k) == ConsentPage(ticket)
       && ResponseAt(config, true, trace, l) == CodeGranted(code)
       && trace[l].now < trace[k].now + LOGIN_TTL_MS
  }

  /** Every code exchange that gives tokens ends one sign-in: the client that redeems the code began
      it, with this address and this verifier's challenge; the permitted subject signed in and then
      agreed; each within its time. */
  lemma TokensComeFromSignIn(config: Config, trace: seq<Arrival>, m: nat) returns (i: nat, j: nat, k: nat, l: nat, grant: Grant)
    requires Ordered(trace) && m < |trace| && trace[m].request.RedeemCode? && ResponseAt(config, true, trace, m).Tokens?
    ensures i < j < k < l < m && SignIn(config, trace, i, j, k, l, trace[m].request.code, grant)
    ensures MatchesGrant(trace[m].request, grant) && trace[m].now < trace[l].now + CODE_TTL_MS
    ensures var a, r := ResponseAt(config, true, trace, m).access, ResponseAt(config, true, trace, m).refresh;
            Pair(a, r, grant.sub, grant.login.client, grant.login.scope, trace[m].now)
  {
    TokensAnswer(config, trace, m);
    var code, now := trace[m].request.code, trace[m].now;
    var a, r := ResponseAt(config, true, trace, m).access, ResponseAt(config, true, trace, m).refresh;
    hide At, MatchesGrant, NewIn, Begins, Pair;
    grant :| Redeemable(config, trace, m, code, grant, now) && MatchesGrant(trace[m].request, grant)
             && Pair(a, r, grant.sub, grant.login.client, grant.login.scope, now);
    l :| l < m && Stores(config, trace, l, code, grant) && now < trace[l].now + CODE_TTL_MS;
    StoresGrants(config, trace, l, code, grant);
    hide ResponseAt;
    var ticket := trace[l].request.ticket;
    k := IdentityCame(config, trace, l, ticket);
    var state := trace[k].request.state;
    j := CallbackCame(config, trace, k, state);
    i := LoginBegan(config, trace, j, state);
  }
}
