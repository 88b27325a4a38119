/** A run in which the code table is full when a consent is given: the code it hands out is dead. */
module OAuthFull {
  import opened Options
  import opened OAuthServer
  import opened OAuthRuns
  import opened OAuthCodes

  /** Everything one person needs to sign in again and again at one moment. */
  datatype Visit = Visit(client: ClientId, redirectUri: string, verifier: string, now: Time)

  predicate Welcome(config: Config, v: Visit) {
    config.scopeOf(v.client).Some? && config.mayRedirect(v.client, v.redirectUri) && WellFormedVerifier(v.verifier)
  }

  /** No sign-in under way, and `n` codes waiting to be redeemed. */
  ghost predicate Waiting(s: Server, n: nat, now: Time) {
    && s.logins == map[] && s.exchanging == map[] && s.consents == map[] && |s.codes| == n
    && forall k | k in s.codes :: k < s.drawn && s.codes[k].expiresAt > now
  }

  function LoginOf(config: Config, v: Visit): Login
    requires config.scopeOf(v.client).Some?
  {
    Login(v.client, v.redirectUri, Challenge(v.verifier), config.scopeOf(v.client).value)
  }

  /** After sign-in: the server waits for one consent. */
  function SignedIn(config: Config, s: Server, v: Visit): Server
    requires config.scopeOf(v.client).Some?
  {
    s.(consents := map[s.drawn + 1 := Timed(Grant(LoginOf(config, v), config.subject), v.now + LOGIN_TTL_MS)], drawn := s.drawn + 2)
  }

  function SignInRequests(config: Config, v: Visit, drawn: Id): seq<Arrival> {
    [Arrival(Authorise(v.client, v.redirectUri, Challenge(v.verifier)), v.now), Arrival(Callback(drawn, true), v.now),
     Arrival(Exchanged(drawn, Some(config.subject)), v.now)]
  }

  lemma SigningIn(config: Config, s: Server, v: Visit, n: nat)
    requires Welcome(config, v) && Waiting(s, n, v.now)
    ensures var a := AfterAuthorise(config, s, v.client, v.redirectUri, Challenge(v.verifier), v.now).server;
            var b := AfterCallback(a, s.drawn, true, v.now).server;
            AfterExchanged(config, b, s.drawn, Some(config.subject), v.now).server == SignedIn(config, s, v)
  {
    hide WellFormedVerifier;
    EmptyHasRoom(v.now);
    var login := LoginOf(config, v);
    var a := AfterAuthorise(config, s, v.client, v.redirectUri, Challenge(v.verifier), v.now).server;
    assert a.logins == map[s.drawn := Timed(login, v.now + LOGIN_TTL_MS)];
    var b := AfterCallback(a, s.drawn, true, v.now).server;
    assert b.logins == map[] && b.exchanging == map[s.drawn := login];
    var c := AfterExchanged(config, b, s.drawn, Some(config.subject), v.now).server;
    assert c.exchanging == map[];
  }

  lemma EmptyHasRoom(now: Time)
    ensures var none: Table<Login> := map[]; HasRoom(none, now) && Unexpired(none, now) == map[]
    ensures var none: Table<Grant> := map[]; HasRoom(none, now) && Unexpired(none, now) == map[]
  {
    var logins: Table<Login> := map[];
    var grants: Table<Grant> := map[];
    assert Unexpired(logins, now) == map[] && Unexpired(grants, now) == map[];
  }

  lemma AllLive(codes: Table<Grant>, now: Time)
    requires forall k | k in codes :: codes[k].expiresAt > now
    ensures Unexpired(codes, now) == codes
  {
  }

  /** The consent: one more code waits, unless the table is at its cap. */
  lemma Consenting(config: Config, s: Server, v: Visit, n: nat)
    requires Welcome(config, v) && Waiting(s, n, v.now) && n <= MAX_PENDING
    ensures var w := SignedIn(config, s, v); var r := AfterConsent(w, s.drawn + 1, true, v.now);
            && Taken(w.consents, s.drawn + 1, v.now) == Some(Grant(LoginOf(config, v), config.subject))
            && (HasRoom(w.codes, v.now) <==> n < MAX_PENDING)
            && r.response == CodeGranted(s.drawn + 2)
            && Waiting(r.server, if n < MAX_PENDING then n + 1 else n, v.now)
  {
    var grant := Timed(Grant(LoginOf(config, v), config.subject), v.now + CODE_TTL_MS);
    CodesFill(s.codes, s.drawn + 2, grant, v.now, n);
    hide WellFormedVerifier, PutItem, HasRoom, LoginOf;
    var w := SignedIn(config, s, v);
    assert w.consents - {s.drawn + 1} == map[];
  }

  lemma CodesFill(codes: Table<Grant>, key: Id, grant: Timed<Grant>, now: Time, n: nat)
    requires |codes| == n <= MAX_PENDING && grant.expiresAt > now
    requires forall k | k in codes :: k < key && codes[k].expiresAt > now
    ensures HasRoom(codes, now) <==> n < MAX_PENDING
    ensures var after := PutItem(codes, key, grant, now);
            && |after| == (if n < MAX_PENDING then n + 1 else n)
            && forall k | k in after :: k <= key && after[k].expiresAt > now
  {
    AllLive(codes, now);
    hide Unexpired;
    var more := codes[key := grant];
    assert more.Keys == codes.Keys + {key};
    assert |more| == |more.Keys| && |codes| == |codes.Keys|;
  }

  lemma RunSnoc(config: Config, trace: seq<Arrival>, a: Arrival)
    ensures Run(config, true, trace + [a]) == Handle(config, true, Run(config, true, trace), a.request, a.now).server
  {
    hide Handle;
    assert (trace + [a])[..|trace|] == trace;
  }

  ghost predicate AllAt(trace: seq<Arrival>, now: Time) {
    forall i | 0 <= i < |trace| :: trace[i].now == now
  }

  /** One sign-in, up to its consent page. */
  lemma VisitOnce(config: Config, trace: seq<Arrival>, v: Visit, n: nat) returns (more: seq<Arrival>)
    requires Welcome(config, v) && AllAt(trace, v.now) && Waiting(Run(config, true, trace), n, v.now)
    ensures AllAt(more, v.now) && Run(config, true, more) == SignedIn(config, Run(config, true, trace), v)
  {
    var s := Run(config, true, trace);
    var as_ := SignInRequests(config, v, s.drawn);
    RunSnoc(config, trace, as_[0]);
    RunSnoc(config, trace + [as_[0]], as_[1]);
    RunSnoc(config, trace + [as_[0]] + [as_[1]], as_[2]);
    SigningIn(config, s, v, n);
    more := trace + [as_[0]] + [as_[1]] + [as_[2]];
    hide Run, AfterAuthorise, AfterCallback, AfterExchanged, SignedIn, Waiting, Welcome;
  }

  lemma {:induction false} FillCodes(config: Config, v: Visit, n: nat) returns (trace: seq<Arrival>)
    requires Welcome(config, v) && n <= MAX_PENDING
    ensures AllAt(trace, v.now) && Waiting(Run(config, true, trace), n, v.now)
  {
    hide SignedIn, AfterConsent, Welcome;
    if n == 0 {
      trace := [];
      hide *;
      NothingWaits(config, v.now);
    } else {
      var before := FillCodes(config, v, n - 1);
      var s := Run(config, true, before);
      var open := VisitOnce(config, before, v, n - 1);
      Consenting(config, s, v, n - 1);
      var consent := Arrival(Consent(s.drawn + 1, true), v.now);
      RunSnoc(config, open, consent);
      hide Run, Waiting;
      trace := open + [consent];
    }
  }

  lemma NothingWaits(config: Config, now: Time)
    ensures Waiting(Run(config, true, []), 0, now)
  {
  }

  /** A thousand sign-ins at one moment, then one more: its code is handed out, nobody has tried it,
      its own client presents it at once with the right verifier, and is refused. */
  lemma GrantedCodeCanBeDead(config: Config, v: Visit) returns (trace: seq<Arrival>, k: nat)
    requires Welcome(config, v)
    ensures Ordered(trace) && |trace| == k + 2
    ensures ResponseAt(config, true, trace, k).CodeGranted?
    ensures !HasRoom(At(config, true, trace, k).codes, v.now)
    ensures trace[k + 1] == Arrival(RedeemCode(Some(v.client), ResponseAt(config, true, trace, k).code, v.redirectUri, Some(v.verifier)), v.now)
    ensures !ResponseAt(config, true, trace, k + 1).Tokens?
  {
    var full := FillCodes(config, v, MAX_PENDING);
    var s := Run(config, true, full);
    var open := VisitOnce(config, full, v, MAX_PENDING);
    Consenting(config, s, v, MAX_PENDING);
    k := |open|;
    var consent := Arrival(Consent(s.drawn + 1, true), v.now);
    var redeem := Arrival(RedeemCode(Some(v.client), s.drawn + 2, v.redirectUri, Some(v.verifier)), v.now);
    trace := open + [consent, redeem];
    assert trace[..k] == open && trace[k] == consent && trace[k + 1] == redeem;
    DrawnTwice(config, s, v);
    PresentsItself(config, v, redeem.request);
    hide Run, SignedIn, AfterConsent, Waiting, WellFormedVerifier, MatchesGrant, Welcome;
    ConsentHandled(config, Run(config, true, open), consent.request, v.now);
    GrantedCodeWorksIffRoom(config, trace, k, k + 1, Grant(LoginOf(config, v), config.subject));
  }

  lemma DrawnTwice(config: Config, s: Server, v: Visit)
    requires config.scopeOf(v.client).Some?
    ensures SignedIn(config, s, v).drawn == s.drawn + 2 && SignedIn(config, s, v).codes == s.codes
  {
  }

  lemma PresentsItself(config: Config, v: Visit, request: Request)
    requires Welcome(config, v) && request.RedeemCode?
    requires request.sender == Some(v.client) && request.redirectUri == v.redirectUri && request.verifier == Some(v.verifier)
    ensures MatchesGrant(request, Grant(LoginOf(config, v), config.subject))
  {
    hide WellFormedVerifier;
  }
}
