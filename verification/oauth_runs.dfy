/** What holds over every run of the authorisation server: forgetting is harmless. */
module OAuthRuns {
  import opened Options
  import opened OAuthServer

  datatype Arrival = Arrival(request: Request, now: Time)

  ghost predicate Ordered(trace: seq<Arrival>) {
    forall i, j | 0 <= i <= j < |trace| :: trace[i].now <= trace[j].now
  }

  function Run(config: Config, forgets: bool, trace: seq<Arrival>): Server {
    if trace == [] then STARTED
    else
      var last := trace[|trace| - 1];
      Handle(config, forgets, Run(config, forgets, trace[..|trace| - 1]), last.request, last.now).server
  }

  function At(config: Config, forgets: bool, trace: seq<Arrival>, n: nat): Server
    requires n <= |trace|
  {
    Run(config, forgets, trace[..n])
  }

  function ResponseAt(config: Config, forgets: bool, trace: seq<Arrival>, i: nat): Response
    requires i < |trace|
  {
    Handle(config, forgets, At(config, forgets, trace, i), trace[i].request, trace[i].now).response
  }

  lemma AtNext(config: Config, forgets: bool, trace: seq<Arrival>, i: nat)
    requires i < |trace|
    ensures At(config, forgets, trace, i + 1)
         == Handle(config, forgets, At(config, forgets, trace, i), trace[i].request, trace[i].now).server
  {
    assert trace[..i + 1][..i] == trace[..i];
  }

  // ---- what the server that never forgets keeps ----

  predicate KnownLogin(config: Config, login: Login) {
    config.scopeOf(login.client) == Some(login.scope)
  }

  predicate KnownGrant(config: Config, grant: Grant) {
    grant.sub == config.subject && KnownLogin(config, grant.login)
  }

  /** Nothing in any table was drawn later than now, and every ticket stands for a registered client
      and, once past sign-in, the one permitted subject. */
  ghost predicate TicketsInv(config: Config, s: Server) {
    && LoginsKnown(config, s.logins, s.drawn)
    && WaitingKnown(config, s.exchanging, s.drawn)
    && GrantsKnown(config, s.consents, s.drawn)
    && GrantsKnown(config, s.codes, s.drawn)
  }

  ghost predicate LoginsKnown(config: Config, items: Table<Login>, drawn: nat) {
    forall k | k in items :: k < drawn && KnownLogin(config, items[k].value)
  }

  ghost predicate WaitingKnown(config: Config, waiting: map<Id, Login>, drawn: nat) {
    forall k | k in waiting :: k < drawn && KnownLogin(config, waiting[k])
  }

  ghost predicate GrantsKnown(config: Config, items: Table<Grant>, drawn: nat) {
    forall k | k in items :: k < drawn && KnownGrant(config, items[k].value)
  }

  predicate KnownClaims(config: Config, c: Claims, drawn: nat, clock: Time) {
    && c.sub == config.subject
    && config.scopeOf(c.client) == Some(c.scope)
    && c.iat <= Seconds(clock)
    && c.exp == c.iat + (if c.purpose.ForAccess? then ACCESS_TTL_S else REFRESH_TTL_S)
    && c.jti < drawn && c.family < drawn
  }

  /** Two signed tokens of one family name one client and are not both unredeemed refresh tokens;
      no two tokens share a `jti`. */
  predicate Fits(a: Claims, b: Claims, used: map<Id, int>) {
    && (a.jti == b.jti ==> a == b)
    && (a.family == b.family ==> a.client == b.client)
    && (a.family == b.family && Unredeemed(a, used) && Unredeemed(b, used) ==> a == b)
  }

  predicate Unredeemed(c: Claims, used: map<Id, int>) {
    c.purpose.ForRefresh? && c.jti !in used
  }

  /** A used-token record carries the token's own expiry; a revocation outlives its family's tokens. */
  predicate Recorded(c: Claims, used: map<Id, int>, revoked: map<Id, int>) {
    && (c.jti in used ==> used[c.jti] == c.exp)
    && (c.family in revoked ==> c.exp <= revoked[c.family])
  }

  ghost predicate TokensInv(config: Config, s: Server, clock: Time) {
    && (forall c | c in s.signed :: KnownClaims(config, c, s.drawn, clock))
    && (forall c | c in s.signed :: Recorded(c, s.usedRefresh, s.revokedFamilies))
    && (forall k | k in s.usedRefresh :: k < s.drawn)
    && (forall f | f in s.revokedFamilies :: f < s.drawn)
  }

  ghost predicate PairsInv(s: Server) {
    forall a, b | a in s.signed && b in s.signed :: Fits(a, b, s.usedRefresh)
  }

  ghost predicate Inv(config: Config, s: Server, clock: Time) {
    TicketsInv(config, s) && TokensInv(config, s, clock) && PairsInv(s)
  }

  lemma IssueKeepsPairs(config: Config, s: Server, sub: string, client: ClientId, scope: string, family: Option<Id>, now: Time)
    requires TokensInv(config, s, now) && PairsInv(s)
    requires forall c | c in s.signed && family == Some(c.family) :: c.client == client && !Unredeemed(c, s.usedRefresh)
    ensures PairsInv(Issue(s, sub, client, scope, family, now).server)
  {
    var r := Issue(s, sub, client, scope, family, now);
    var access, refresh := r.response.access, r.response.refresh;
    forall a, b | a in r.server.signed && b in r.server.signed ensures Fits(a, b, s.usedRefresh) {
      hide Issue;
      assert a in s.signed ==> KnownClaims(config, a, s.drawn, now);
      assert b in s.signed ==> KnownClaims(config, b, s.drawn, now);
      assert a in s.signed || a == access || a == refresh;
      assert b in s.signed || b == access || b == refresh;
    }
  }

  lemma IssueKeepsTokens(config: Config, s: Server, sub: string, client: ClientId, scope: string, family: Option<Id>, now: Time)
    requires TokensInv(config, s, now)
    requires sub == config.subject && config.scopeOf(client) == Some(scope)
    requires family.Some? ==> family.value !in s.revokedFamilies && family.value < s.drawn
    ensures TokensInv(config, Issue(s, sub, client, scope, family, now).server, now)
  {
    forall c | c in s.signed ensures KnownClaims(config, c, s.drawn + 3, now) {
      assert KnownClaims(config, c, s.drawn, now);
    }
  }

  lemma MarkKeepsTokens(config: Config, s: Server, token: Claims, now: Time)
    requires TokensInv(config, s, now) && PairsInv(s) && token in s.signed
    ensures var next := s.(usedRefresh := s.usedRefresh[token.jti := token.exp]);
            TokensInv(config, next, now) && PairsInv(next)
  {
    var next := s.(usedRefresh := s.usedRefresh[token.jti := token.exp]);
    assert KnownClaims(config, token, s.drawn, now);
    forall c | c in s.signed ensures Recorded(c, next.usedRefresh, s.revokedFamilies) {
      assert Fits(c, token, s.usedRefresh) && Recorded(c, s.usedRefresh, s.revokedFamilies);
    }
    forall a, b | a in s.signed && b in s.signed ensures Fits(a, b, next.usedRefresh) {
      assert Fits(a, b, s.usedRefresh);
    }
  }

  lemma RevokeKeepsTokens(config: Config, s: Server, family: Id, now: Time)
    requires TokensInv(config, s, now) && family < s.drawn
    ensures TokensInv(config, s.(revokedFamilies := s.revokedFamilies[family := Seconds(now) + REFRESH_TTL_S]), now)
  {
    var revoked := s.revokedFamilies[family := Seconds(now) + REFRESH_TTL_S];
    forall c | c in s.signed ensures Recorded(c, s.usedRefresh, revoked) {
      assert KnownClaims(config, c, s.drawn, now) && Recorded(c, s.usedRefresh, s.revokedFamilies);
    }
  }

  lemma LaterTokens(config: Config, s: Server, clock: Time, next: Server, later: Time)
    requires TokensInv(config, s, clock) && PairsInv(s) && clock <= later
    requires next.signed == s.signed && next.drawn >= s.drawn
    requires next.usedRefresh == s.usedRefresh && next.revokedFamilies == s.revokedFamilies
    ensures TokensInv(config, next, later) && PairsInv(next)
  {
    forall c | c in s.signed ensures KnownClaims(config, c, next.drawn, later) {
      assert KnownClaims(config, c, s.drawn, clock);
    }
  }

  lemma RefreshKeepsTokens(config: Config, s: Server, sender: Option<ClientId>, token: Claims, now: Time)
    requires TokensInv(config, s, now) && PairsInv(s)
    ensures var next := AfterRedeemRefresh(config, false, s, sender, token, now).server;
            TokensInv(config, next, now) && PairsInv(next)
  {
    hide Issue, TokensInv, PairsInv;
    if sender == Some(token.client) && token in s.signed && token.purpose.ForRefresh? {
      FamilyFacts(config, s, token, now);
      if token.jti in s.usedRefresh {
        RevokeKeepsTokens(config, s, token.family, now);
        SamePairs(s, s.(revokedFamilies := s.revokedFamilies[token.family := Seconds(now) + REFRESH_TTL_S]));
      } else if token.family !in s.revokedFamilies {
        var marked := s.(usedRefresh := s.usedRefresh[token.jti := token.exp]);
        MarkKeepsTokens(config, s, token, now);
        IssueKeepsPairs(config, marked, token.sub, token.client, token.scope, Some(token.family), now);
        IssueKeepsTokens(config, marked, token.sub, token.client, token.scope, Some(token.family), now);
      }
    }
  }

  lemma SamePairs(s: Server, next: Server)
    requires PairsInv(s) && next.signed == s.signed && next.usedRefresh == s.usedRefresh
    ensures PairsInv(next)
  {
  }

  lemma FamilyFacts(config: Config, s: Server, token: Claims, now: Time)
    requires TokensInv(config, s, now) && PairsInv(s) && token in s.signed && token.purpose.ForRefresh?
    ensures KnownClaims(config, token, s.drawn, now)
    ensures token.jti !in s.usedRefresh ==>
      forall c | c in s.signed && c.family == token.family ::
        c.client == token.client && !Unredeemed(c, s.usedRefresh[token.jti := token.exp])
  {
    forall c | c in s.signed && c.family == token.family
      ensures c.client == token.client
      ensures token.jti !in s.usedRefresh ==> !Unredeemed(c, s.usedRefresh[token.jti := token.exp])
    {
      assert Fits(c, token, s.usedRefresh);
    }
  }

  lemma RedeemCodeKeepsTokens(config: Config, s: Server, sender: Option<ClientId>, code: Id, redirectUri: string, verifier: Option<string>, now: Time)
    requires TicketsInv(config, s) && TokensInv(config, s, now) && PairsInv(s)
    ensures var next := AfterRedeemCode(s, sender, code, redirectUri, verifier, now).server;
            TokensInv(config, next, now) && PairsInv(next)
  {
    hide Issue, TokensInv, PairsInv, WellFormedVerifier;
    var grant := Taken(s.codes, code, now);
    var next := s.(codes := s.codes - {code});
    LaterTokens(config, s, now, next, now);
    if sender.Some? && grant.Some? && grant.value.login.client == sender.value {
      IssueKeepsPairs(config, next, grant.value.sub, sender.value, grant.value.login.scope, None, now);
      IssueKeepsTokens(config, next, grant.value.sub, sender.value, grant.value.login.scope, None, now);
    }
  }

  lemma HandleKeepsTokens(config: Config, s: Server, clock: Time, request: Request, now: Time)
    requires Inv(config, s, clock) && clock <= now
    ensures var next := Handle(config, false, s, request, now).server;
            TokensInv(config, next, now) && PairsInv(next)
  {
    hide TicketsInv, TokensInv, PairsInv, AfterRedeemRefresh, AfterRedeemCode, AfterUseAccess, PutItem, Taken, HasRoom;
    LaterTokens(config, s, clock, s, now);
    match request {
      case RedeemCode(sender, code, redirectUri, verifier) =>
        RedeemCodeKeepsTokens(config, s, sender, code, redirectUri, verifier, now);
      case RedeemRefresh(sender, token) => RefreshKeepsTokens(config, s, sender, token, now);
      case UseAccess(token) => AccessReadsOnly(config, s, token, now);
      case _ => LaterTokens(config, s, clock, Handle(config, false, s, request, now).server, now);
    }
  }

  lemma PutLogin(config: Config, items: Table<Login>, drawn: nat, login: Timed<Login>, now: Time)
    requires LoginsKnown(config, items, drawn) && KnownLogin(config, login.value)
    ensures LoginsKnown(config, PutItem(items, drawn, login, now), drawn + 1)
  {
  }

  lemma PutGrant(config: Config, items: Table<Grant>, drawn: nat, grant: Timed<Grant>, now: Time)
    requires GrantsKnown(config, items, drawn) && KnownGrant(config, grant.value)
    ensures GrantsKnown(config, PutItem(items, drawn, grant, now), drawn + 1)
  {
  }

  /** Tables that only lose entries, while ids are drawn. */
  lemma FewerTickets(config: Config, s: Server, next: Server)
    requires TicketsInv(config, s) && s.drawn <= next.drawn
    ensures next.logins.Items <= s.logins.Items ==> LoginsKnown(config, next.logins, next.drawn)
    ensures next.exchanging.Items <= s.exchanging.Items ==> WaitingKnown(config, next.exchanging, next.drawn)
    ensures next.consents.Items <= s.consents.Items ==> GrantsKnown(config, next.consents, next.drawn)
    ensures next.codes.Items <= s.codes.Items ==> GrantsKnown(config, next.codes, next.drawn)
  {
    assert forall k | k in next.logins :: (k, next.logins[k]) in next.logins.Items;
    assert forall k | k in next.exchanging :: (k, next.exchanging[k]) in next.exchanging.Items;
    assert forall k | k in next.consents :: (k, next.consents[k]) in next.consents.Items;
    assert forall k | k in next.codes :: (k, next.codes[k]) in next.codes.Items;
  }

  lemma AuthoriseKeepsTickets(config: Config, s: Server, client: ClientId, redirectUri: string, challenge: Challenge, now: Time)
    requires TicketsInv(config, s)
    ensures TicketsInv(config, AfterAuthorise(config, s, client, redirectUri, challenge, now).server)
  {
    FewerTickets(config, s, AfterAuthorise(config, s, client, redirectUri, challenge, now).server);
    hide LoginsKnown, WaitingKnown, GrantsKnown, PutItem, HasRoom;
    if config.scopeOf(client).Some? {
      var login := Login(client, redirectUri, challenge, config.scopeOf(client).value);
      PutLogin(config, s.logins, s.drawn, Timed(login, now + LOGIN_TTL_MS), now);
    }
  }

  lemma CallbackKeepsTickets(config: Config, s: Server, state: Id, hasCode: bool, now: Time)
    requires TicketsInv(config, s)
    ensures TicketsInv(config, AfterCallback(s, state, hasCode, now).server)
  {
    FewerTickets(config, s, AfterCallback(s, state, hasCode, now).server);
    hide GrantsKnown;
  }

  lemma ExchangedKeepsTickets(config: Config, s: Server, state: Id, identity: Option<string>, now: Time)
    requires TicketsInv(config, s)
    ensures TicketsInv(config, AfterExchanged(config, s, state, identity, now).server)
  {
    FewerTickets(config, s, AfterExchanged(config, s, state, identity, now).server);
    hide LoginsKnown, GrantsKnown, PutItem, HasRoom;
    if state in s.exchanging && identity == Some(config.subject) {
      PutGrant(config, s.consents, s.drawn, Timed(Grant(s.exchanging[state], config.subject), now + LOGIN_TTL_MS), now);
    }
  }

  lemma ConsentKeepsTickets(config: Config, s: Server, ticket: Id, allow: bool, now: Time)
    requires TicketsInv(config, s)
    ensures TicketsInv(config, AfterConsent(s, ticket, allow, now).server)
  {
    FewerTickets(config, s, AfterConsent(s, ticket, allow, now).server);
    hide LoginsKnown, WaitingKnown, PutItem, HasRoom;
    if Taken(s.consents, ticket, now).Some? {
      PutGrant(config, s.codes, s.drawn, Timed(s.consents[ticket].value, now + CODE_TTL_MS), now);
    }
  }

  lemma RedeemCodeKeepsTickets(config: Config, s: Server, sender: Option<ClientId>, code: Id, redirectUri: string, verifier: Option<string>, now: Time)
    requires TicketsInv(config, s)
    ensures TicketsInv(config, AfterRedeemCode(s, sender, code, redirectUri, verifier, now).server)
  {
    FewerTickets(config, s, AfterRedeemCode(s, sender, code, redirectUri, verifier, now).server);
    hide LoginsKnown, WaitingKnown, GrantsKnown, WellFormedVerifier, Taken;
  }

  lemma AccessReadsOnly(config: Config, s: Server, token: Claims, now: Time)
    ensures AfterUseAccess(config, false, s, token, now).server == s
    ensures !AfterUseAccess(config, false, s, token, now).response.Tokens?
  {
    NeverPruned(s, Seconds(now));
  }

  lemma RefreshKeepsTickets(config: Config, s: Server, sender: Option<ClientId>, token: Claims, now: Time)
    requires TicketsInv(config, s)
    ensures TicketsInv(config, AfterRedeemRefresh(config, false, s, sender, token, now).server)
  {
    FewerTickets(config, s, AfterRedeemRefresh(config, false, s, sender, token, now).server);
    hide LoginsKnown, WaitingKnown, GrantsKnown, Pruned;
  }

  lemma HandleKeepsTickets(config: Config, s: Server, request: Request, now: Time)
    requires TicketsInv(config, s)
    ensures TicketsInv(config, Handle(config, false, s, request, now).server)
  {
    hide TicketsInv, AfterAuthorise, AfterCallback, AfterExchanged, AfterConsent, AfterRedeemCode, AfterRedeemRefresh, AfterUseAccess;
    match request {
      case Authorise(client, redirectUri, challenge) => AuthoriseKeepsTickets(config, s, client, redirectUri, challenge, now);
      case Callback(state, hasCode) => CallbackKeepsTickets(config, s, state, hasCode, now);
      case Exchanged(state, identity) => ExchangedKeepsTickets(config, s, state, identity, now);
      case Consent(ticket, allow) => ConsentKeepsTickets(config, s, ticket, allow, now);
      case RedeemCode(sender, code, redirectUri, verifier) =>
        RedeemCodeKeepsTickets(config, s, sender, code, redirectUri, verifier, now);
      case RedeemRefresh(sender, token) => RefreshKeepsTickets(config, s, sender, token, now);
      case UseAccess(token) => AccessReadsOnly(config, s, token, now);
    }
  }

  ghost predicate Reached(trace: seq<Arrival>, clock: Time) {
    forall i | 0 <= i < |trace| :: trace[i].now <= clock
  }

  lemma {:induction false} RunKeepsInv(config: Config, trace: seq<Arrival>, clock: Time)
    requires Ordered(trace) && Reached(trace, clock)
    ensures Inv(config, Run(config, false, trace), clock)
  {
    hide TicketsInv, TokensInv, PairsInv, Handle;
    if trace == [] {
      StartedInv(config, clock);
    } else {
      var init, last := trace[..|trace| - 1], trace[|trace| - 1];
      RunKeepsInv(config, init, last.now);
      var s := Run(config, false, init);
      HandleKeepsTokens(config, s, last.now, last.request, last.now);
      HandleKeepsTickets(config, s, last.request, last.now);
      LaterTokens(config, Run(config, false, trace), last.now, Run(config, false, trace), clock);
    }
  }

  lemma StartedInv(config: Config, clock: Time)
    ensures Inv(config, STARTED, clock)
  {
  }

  // ---- forgetting refines remembering ----

  /** Only records that expired by `t` may be missing. */
  ghost predicate Forgot(kept: map<Id, int>, all: map<Id, int>, t: int) {
    && (forall k | k in kept :: k in all && kept[k] == all[k])
    && (forall k | k in all && all[k] > t :: k in kept)
  }

  ghost predicate Agrees(server: Server, recorder: Server, clock: Time) {
    && server == recorder.(usedRefresh := server.usedRefresh, revokedFamilies := server.revokedFamilies)
    && Forgot(server.usedRefresh, recorder.usedRefresh, Seconds(clock))
    && Forgot(server.revokedFamilies, recorder.revokedFamilies, Seconds(clock))
  }

  /** Pruning leaves an unexpired token's own record and its family's revocation where they are. */
  lemma PruneKeepsAgreeing(config: Config, server: Server, recorder: Server, clock: Time, now: Time)
    requires TokensInv(config, recorder, clock) && clock <= now && Agrees(server, recorder, clock)
    ensures var pruned := PruneRefresh(true, server, Seconds(now));
            && Agrees(pruned, recorder, now)
            && forall token | token in recorder.signed && token.exp > Seconds(now) ::
                 && (token.jti in pruned.usedRefresh <==> token.jti in recorder.usedRefresh)
                 && (token.family in pruned.revokedFamilies <==> token.family in recorder.revokedFamilies)
  {
    var pruned := PruneRefresh(true, server, Seconds(now));
    assert Agrees(pruned, recorder, now);
    forall token | token in recorder.signed && token.exp > Seconds(now)
      ensures token.jti in pruned.usedRefresh <==> token.jti in recorder.usedRefresh
      ensures token.family in pruned.revokedFamilies <==> token.family in recorder.revokedFamilies
    {
      assert Recorded(token, recorder.usedRefresh, recorder.revokedFamilies);
    }
  }

  lemma LaterAgrees(server: Server, recorder: Server, clock: Time, now: Time)
    requires Agrees(server, recorder, clock) && clock <= now
    ensures Agrees(server, recorder, now)
  {
  }

  lemma RefreshAgrees(config: Config, server: Server, recorder: Server, sender: Option<ClientId>, token: Claims, clock: Time, now: Time)
    requires TokensInv(config, recorder, clock) && clock <= now && Agrees(server, recorder, clock)
    ensures var a, b := AfterRedeemRefresh(config, true, server, sender, token, now), AfterRedeemRefresh(config, false, recorder, sender, token, now);
            a.response == b.response && Agrees(a.server, b.server, now)
  {
    hide TokensInv, PruneRefresh, Forgot;
    LaterAgrees(server, recorder, clock, now);
    PruneKeepsAgreeing(config, server, recorder, clock, now);
    NeverPruned(recorder, Seconds(now));
    var pruned := PruneRefresh(true, server, Seconds(now));
    var until := Seconds(now) + REFRESH_TTL_S;
    ForgotAlike(pruned.usedRefresh, recorder.usedRefresh, token.jti, token.exp, Seconds(now));
    ForgotAlike(pruned.revokedFamilies, recorder.revokedFamilies, token.family, until, Seconds(now));
  }

  lemma ForgotAlike(kept: map<Id, int>, all: map<Id, int>, k: Id, v: int, t: int)
    requires Forgot(kept, all, t)
    ensures Forgot(kept[k := v], all[k := v], t)
  {
  }

  lemma NeverPruned(s: Server, t: int)
    ensures PruneRefresh(false, s, t) == s
  {
  }

  lemma AccessAgrees(config: Config, server: Server, recorder: Server, token: Claims, clock: Time, now: Time)
    requires TokensInv(config, recorder, clock) && clock <= now && Agrees(server, recorder, clock)
    ensures var a, b := AfterUseAccess(config, true, server, token, now), AfterUseAccess(config, false, recorder, token, now);
            a.response == b.response && Agrees(a.server, b.server, now)
  {
    LaterAgrees(server, recorder, clock, now);
    PruneKeepsAgreeing(config, server, recorder, clock, now);
    NeverPruned(recorder, Seconds(now));
    hide TokensInv, PruneRefresh, Forgot;
  }

  function WithRecords(s: Server, used: map<Id, int>, revoked: map<Id, int>): Server {
    s.(usedRefresh := used, revokedFamilies := revoked)
  }

  /** The same answer and the same server, but for the two records. */
  ghost predicate Alike(a: Reply, b: Reply, s: Server, used: map<Id, int>, revoked: map<Id, int>) {
    && a.response == b.response && a.server == WithRecords(b.server, used, revoked)
    && b.server.usedRefresh == s.usedRefresh && b.server.revokedFamilies == s.revokedFamilies
  }

  lemma AuthoriseReadsNoRecords(config: Config, s: Server, used: map<Id, int>, revoked: map<Id, int>, client: ClientId, redirectUri: string, challenge: Challenge, now: Time)
    ensures Alike(AfterAuthorise(config, WithRecords(s, used, revoked), client, redirectUri, challenge, now), AfterAuthorise(config, s, client, redirectUri, challenge, now), s, used, revoked)
  {
    hide PutItem, HasRoom;
  }

  lemma CallbackReadsNoRecords(s: Server, used: map<Id, int>, revoked: map<Id, int>, state: Id, hasCode: bool, now: Time)
    ensures Alike(AfterCallback(WithRecords(s, used, revoked), state, hasCode, now), AfterCallback(s, state, hasCode, now), s, used, revoked)
  {
    hide Taken;
  }

  lemma ExchangedReadsNoRecords(config: Config, s: Server, used: map<Id, int>, revoked: map<Id, int>, state: Id, identity: Option<string>, now: Time)
    ensures Alike(AfterExchanged(config, WithRecords(s, used, revoked), state, identity, now), AfterExchanged(config, s, state, identity, now), s, used, revoked)
  {
    hide PutItem, HasRoom;
  }

  lemma ConsentReadsNoRecords(s: Server, used: map<Id, int>, revoked: map<Id, int>, ticket: Id, allow: bool, now: Time)
    ensures Alike(AfterConsent(WithRecords(s, used, revoked), ticket, allow, now), AfterConsent(s, ticket, allow, now), s, used, revoked)
  {
    hide PutItem, HasRoom, Taken;
  }

  lemma RedeemCodeReadsNoRecords(s: Server, used: map<Id, int>, revoked: map<Id, int>, sender: Option<ClientId>, code: Id, redirectUri: string, verifier: Option<string>, now: Time)
    ensures Alike(AfterRedeemCode(WithRecords(s, used, revoked), sender, code, redirectUri, verifier, now), AfterRedeemCode(s, sender, code, redirectUri, verifier, now), s, used, revoked)
  {
    hide Taken, WellFormedVerifier;
    var next := s.(codes := s.codes - {code});
    var grant := Taken(s.codes, code, now);
    if sender.Some? && grant.Some? {
      IssueReadsNoRecords(next, used, revoked, grant.value.sub, sender.value, grant.value.login.scope, now);
    }
    hide Issue;
    assert WithRecords(s, used, revoked).(codes := next.codes) == WithRecords(next, used, revoked);
  }

  lemma IssueReadsNoRecords(s: Server, used: map<Id, int>, revoked: map<Id, int>, sub: string, client: ClientId, scope: string, now: Time)
    ensures Alike(Issue(WithRecords(s, used, revoked), sub, client, scope, None, now), Issue(s, sub, client, scope, None, now), s, used, revoked)
  {
  }

  lemma RecordsUnread(config: Config, s: Server, used: map<Id, int>, revoked: map<Id, int>, request: Request, now: Time)
    requires !request.RedeemRefresh? && !request.UseAccess?
    ensures Alike(Handle(config, true, WithRecords(s, used, revoked), request, now), Handle(config, false, s, request, now), s, used, revoked)
  {
    hide Alike, AfterAuthorise, AfterCallback, AfterExchanged, AfterConsent, AfterRedeemCode;
    match request {
      case Authorise(client, redirectUri, challenge) => AuthoriseReadsNoRecords(config, s, used, revoked, client, redirectUri, challenge, now);
      case Callback(state, hasCode) => CallbackReadsNoRecords(s, used, revoked, state, hasCode, now);
      case Exchanged(state, identity) => ExchangedReadsNoRecords(config, s, used, revoked, state, identity, now);
      case Consent(ticket, allow) => ConsentReadsNoRecords(s, used, revoked, ticket, allow, now);
      case RedeemCode(sender, code, redirectUri, verifier) =>
        RedeemCodeReadsNoRecords(s, used, revoked, sender, code, redirectUri, verifier, now);
    }
  }

  lemma HandleAgrees(config: Config, server: Server, recorder: Server, clock: Time, request: Request, now: Time)
    requires Inv(config, recorder, clock) && clock <= now
    requires Agrees(server, recorder, clock)
    ensures var a, b := Handle(config, true, server, request, now), Handle(config, false, recorder, request, now);
            a.response == b.response && Agrees(a.server, b.server, now)
  {
    hide TicketsInv, TokensInv, PairsInv, AfterRedeemRefresh, AfterUseAccess, AfterRedeemCode, AfterConsent, AfterExchanged, AfterCallback, AfterAuthorise, Forgot;
    match request {
      case RedeemRefresh(sender, token) => RefreshAgrees(config, server, recorder, sender, token, clock, now);
      case UseAccess(token) => AccessAgrees(config, server, recorder, token, clock, now);
      case _ =>
        hide Handle;
        LaterAgrees(server, recorder, clock, now);
        RecordsUnread(config, recorder, server.usedRefresh, server.revokedFamilies, request, now);
        assert server == WithRecords(recorder, server.usedRefresh, server.revokedFamilies);
    }
  }

  lemma {:induction false} RunsAgree(config: Config, trace: seq<Arrival>, clock: Time)
    requires Ordered(trace) && Reached(trace, clock)
    ensures Agrees(Run(config, true, trace), Run(config, false, trace), clock)
  {
    hide Inv, Handle;
    if trace != [] {
      var init, last := trace[..|trace| - 1], trace[|trace| - 1];
      RunsAgree(config, init, last.now);
      RunKeepsInv(config, init, last.now);
      HandleAgrees(config, Run(config, true, init), Run(config, false, init), last.now, last.request, last.now);
    }
  }

  /** The pruning server gives every request of every run the answer of the one that never prunes. */
  lemma ForgettingIsHarmless(config: Config, trace: seq<Arrival>, i: nat)
    requires Ordered(trace) && i < |trace|
    ensures ResponseAt(config, true, trace, i) == ResponseAt(config, false, trace, i)
    ensures At(config, true, trace, i).signed == At(config, false, trace, i).signed
  {
    hide Inv, Handle;
    RunsAgree(config, trace[..i], trace[i].now);
    RunKeepsInv(config, trace[..i], trace[i].now);
    HandleAgrees(config, At(config, true, trace, i), At(config, false, trace, i), trace[i].now, trace[i].request, trace[i].now);
  }

  // ---- the records are the history ----

  /** Request `i` exchanged the refresh token `jti` for new tokens. */
  ghost predicate Redeems(config: Config, trace: seq<Arrival>, i: nat, jti: Id)
    requires i < |trace|
  {
    var r := trace[i].request;
    r.RedeemRefresh? && r.token.jti == jti && ResponseAt(config, true, trace, i).Tokens?
  }

  /** Request `i` was answered by revoking `family`. */
  ghost predicate Revokes(config: Config, trace: seq<Arrival>, i: nat, family: Id)
    requires i < |trace|
  {
    var r := trace[i].request;
    r.RedeemRefresh? && r.token.family == family && ResponseAt(config, true, trace, i) == Refused(ReuseDetected)
  }

  ghost predicate RedeemedBefore(config: Config, trace: seq<Arrival>, n: nat, jti: Id)
    requires n <= |trace|
  {
    exists i: nat :: i < n && Redeems(config, trace, i, jti)
  }

  ghost predicate RevokedBefore(config: Config, trace: seq<Arrival>, n: nat, family: Id)
    requires n <= |trace|
  {
    exists i: nat :: i < n && Revokes(config, trace, i, family)
  }

  lemma UsedStep(config: Config, s: Server, request: Request, now: Time, jti: Id, family: Id)
    ensures var r := Handle(config, false, s, request, now);
            && (jti in r.server.usedRefresh <==>
                jti in s.usedRefresh || (request.RedeemRefresh? && request.token.jti == jti && r.response.Tokens?))
            && (family in r.server.revokedFamilies <==>
                family in s.revokedFamilies || (request.RedeemRefresh? && request.token.family == family && r.response == Refused(ReuseDetected)))
  {
    match request {
      case RedeemRefresh(sender, token) =>
        NeverPruned(s, Seconds(now));
        hide PruneRefresh;
      case UseAccess(token) =>
        AccessReadsOnly(config, s, token, now);
        hide AfterUseAccess;
      case _ =>
        hide Handle;
        RecordsUnread(config, s, map[], map[], request, now);
    }
  }

  lemma {:induction false} RecordsAreHistory(config: Config, trace: seq<Arrival>, n: nat, jti: Id, family: Id)
    requires Ordered(trace) && n <= |trace|
    ensures jti in At(config, false, trace, n).usedRefresh <==> RedeemedBefore(config, trace, n, jti)
    ensures family in At(config, false, trace, n).revokedFamilies <==> RevokedBefore(config, trace, n, family)
  {
    hide Handle, Run;
    if n == 0 {
      hide *;
      assert trace[..0] == [];
      NothingRecorded(config);
    } else {
      RecordsAreHistory(config, trace, n - 1, jti, family);
      ForgettingIsHarmless(config, trace, n - 1);
      AtNext(config, false, trace, n - 1);
      UsedStep(config, At(config, false, trace, n - 1), trace[n - 1].request, trace[n - 1].now, jti, family);
      assert Redeems(config, trace, n - 1, jti) ==> RedeemedBefore(config, trace, n, jti);
      assert Revokes(config, trace, n - 1, family) ==> RevokedBefore(config, trace, n, family);
    }
  }

  lemma NothingRecorded(config: Config)
    ensures Run(config, false, []).usedRefresh == map[] && Run(config, false, []).revokedFamilies == map[]
  {
  }

  // ---- refresh tokens ----

  /** A refresh succeeds exactly for a signed, unexpired refresh token of that client that was never
      redeemed and whose family was never revoked, however much has been pruned since. */
  lemma RefreshSucceedsExactlyWhen(config: Config, trace: seq<Arrival>, i: nat)
    requires Ordered(trace) && i < |trace| && trace[i].request.RedeemRefresh?
    ensures var token := trace[i].request.token;
            ResponseAt(config, true, trace, i).Tokens? <==>
              && token in At(config, true, trace, i).signed && token.purpose.ForRefresh?
              && trace[i].request.sender == Some(token.client)
              && Seconds(trace[i].now) < token.exp
              && !RedeemedBefore(config, trace, i, token.jti)
              && !RevokedBefore(config, trace, i, token.family)
  {
    var token := trace[i].request.token;
    ForgettingIsHarmless(config, trace, i);
    RunKeepsInv(config, trace[..i], trace[i].now);
    RecordsAreHistory(config, trace, i, token.jti, token.family);
    hide Run, RedeemedBefore, RevokedBefore, TicketsInv, PairsInv, Recorded;
  }

  /** An access token is accepted exactly while it is signed, unexpired and its family unrevoked. */
  lemma AccessAcceptedExactlyWhen(config: Config, trace: seq<Arrival>, i: nat)
    requires Ordered(trace) && i < |trace| && trace[i].request.UseAccess?
    ensures var token := trace[i].request.token;
            ResponseAt(config, true, trace, i).Accepted? <==>
              && token in At(config, true, trace, i).signed && token.purpose.ForAccess?
              && Seconds(trace[i].now) < token.exp
              && !RevokedBefore(config, trace, i, token.family)
  {
    var token := trace[i].request.token;
    ForgettingIsHarmless(config, trace, i);
    RunKeepsInv(config, trace[..i], trace[i].now);
    RecordsAreHistory(config, trace, i, token.jti, token.family);
    hide Run, RedeemedBefore, RevokedBefore, TicketsInv, PairsInv, Recorded;
  }

  lemma RefreshRedeemsOnce(config: Config, trace: seq<Arrival>, i: nat, j: nat, jti: Id)
    requires Ordered(trace) && i < j < |trace|
    requires Redeems(config, trace, i, jti)
    ensures !Redeems(config, trace, j, jti)
  {
    hide ResponseAt;
    if trace[j].request.RedeemRefresh? {
      RefreshSucceedsExactlyWhen(config, trace, j);
      assert trace[j].request.token.jti == jti ==> RedeemedBefore(config, trace, j, jti);
    }
  }

  ghost predicate Presents(request: Request, family: Id) {
    || (request.RedeemRefresh? && request.token.family == family)
    || (request.UseAccess? && request.token.family == family)
  }

  lemma RevokedFamilyIsDead(config: Config, trace: seq<Arrival>, i: nat, j: nat, family: Id)
    requires Ordered(trace) && i < j < |trace|
    requires Revokes(config, trace, i, family) && Presents(trace[j].request, family)
    ensures ResponseAt(config, true, trace, j).Refused?
  {
    hide At;
    assert RevokedBefore(config, trace, j, family);
    if trace[j].request.RedeemRefresh? {
      RefreshSucceedsExactlyWhen(config, trace, j);
    } else {
      AccessAcceptedExactlyWhen(config, trace, j);
    }
  }

  /** Two holders of one refresh token: once both have presented it, while it has not expired, every
      token ever derived from it is refused for good. */
  lemma ReuseEndsTheFamily(config: Config, trace: seq<Arrival>, i: nat, j: nat, k: nat, token: Claims)
    requires Ordered(trace) && i < j <= k < |trace|
    requires trace[i].request == RedeemRefresh(Some(token.client), token) && ResponseAt(config, true, trace, i).Tokens?
    requires trace[j].request == RedeemRefresh(Some(token.client), token) && Seconds(trace[j].now) < token.exp
    requires Presents(trace[k].request, token.family)
    ensures ResponseAt(config, true, trace, k).Refused?
  {
    ReuseIsNoticed(config, trace, i, j, token);
    hide ResponseAt, At;
    assert Redeems(config, trace, i, token.jti);
    if Revokes(config, trace, j, token.family) {
      if j < k { RevokedFamilyIsDead(config, trace, j, k, token.family); }
    } else {
      var m: nat :| m < j && Revokes(config, trace, m, token.family);
      RevokedFamilyIsDead(config, trace, m, k, token.family);
    }
  }

  lemma ReuseIsNoticed(config: Config, trace: seq<Arrival>, i: nat, j: nat, token: Claims)
    requires Ordered(trace) && i < j < |trace|
    requires trace[i].request == RedeemRefresh(Some(token.client), token) && ResponseAt(config, true, trace, i).Tokens?
    requires trace[j].request == RedeemRefresh(Some(token.client), token) && Seconds(trace[j].now) < token.exp
    ensures Revokes(config, trace, j, token.family) || RevokedBefore(config, trace, j, token.family)
    ensures ResponseAt(config, true, trace, j).Refused?
  {
    RefreshSucceedsExactlyWhen(config, trace, i);
    ForgettingIsHarmless(config, trace, i);
    SignedForEver(config, trace, i, j, token);
    ForgettingIsHarmless(config, trace, j);
    RunKeepsInv(config, trace[..j], trace[j].now);
    RecordsAreHistory(config, trace, j, token.jti, token.family);
    assert Redeems(config, trace, i, token.jti);
    assert RedeemedBefore(config, trace, j, token.jti);
    hide Run, RedeemedBefore, RevokedBefore, TicketsInv, PairsInv, Recorded;
  }

  lemma SignedStays(config: Config, s: Server, request: Request, now: Time)
    ensures s.signed <= Handle(config, false, s, request, now).server.signed
    ensures s.drawn <= Handle(config, false, s, request, now).server.drawn
  {
    hide PutItem, Taken, HasRoom, Pruned, WellFormedVerifier;
  }

  lemma {:induction false} SignedForEver(config: Config, trace: seq<Arrival>, i: nat, j: nat, token: Claims)
    requires i <= j <= |trace| && token in At(config, false, trace, i).signed
    ensures token in At(config, false, trace, j).signed
    decreases j
  {
    hide At, Handle;
    if i < j {
      SignedForEver(config, trace, i, j - 1, token);
      AtNext(config, false, trace, j - 1);
      SignedStays(config, At(config, false, trace, j - 1), trace[j - 1].request, trace[j - 1].now);
    }
  }

  /** Of two refresh tokens of one family, one has been redeemed. */
  lemma OneUnredeemedPerFamily(config: Config, trace: seq<Arrival>, a: Claims, b: Claims)
    requires Ordered(trace)
    requires a in Run(config, true, trace).signed && a.purpose.ForRefresh?
    requires b in Run(config, true, trace).signed && b.purpose.ForRefresh?
    requires a.family == b.family && a != b
    ensures RedeemedBefore(config, trace, |trace|, a.jti) || RedeemedBefore(config, trace, |trace|, b.jti)
  {
    hide RedeemedBefore, Inv, Handle, Agrees;
    var clock := if trace == [] then 0 else trace[|trace| - 1].now;
    RunsAgree(config, trace, clock);
    RunKeepsInv(config, trace, clock);
    assert trace[..|trace|] == trace;
    RecordsAreHistory(config, trace, |trace|, a.jti, a.family);
    RecordsAreHistory(config, trace, |trace|, b.jti, a.family);
    NotBothUnredeemed(config, Run(config, true, trace), Run(config, false, trace), clock, a, b);
  }

  lemma NotBothUnredeemed(config: Config, server: Server, recorder: Server, clock: Time, a: Claims, b: Claims)
    requires Inv(config, recorder, clock) && Agrees(server, recorder, clock)
    requires a in server.signed && a.purpose.ForRefresh? && b in server.signed && b.purpose.ForRefresh?
    requires a.family == b.family && a != b
    ensures a.jti in recorder.usedRefresh || b.jti in recorder.usedRefresh
  {
    assert Fits(a, b, recorder.usedRefresh);
  }
}
