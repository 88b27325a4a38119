/** The authorisation server's in-memory state: one-shot tickets, rotated refresh tokens, revocation. */
module OAuthServer {
  import opened Options

  /** Milliseconds since the epoch; token claims count whole seconds. */
  type Time = int

  /** Random ids never repeat: each draw takes the next number. */
  type Id = nat

  type ClientId = string

  const CODE_TTL_MS := 300_000
  const LOGIN_TTL_MS := 600_000
  const ACCESS_TTL_S := 3600
  const REFRESH_TTL_S := 30 * 24 * 3600
  const MAX_PENDING := 1000

  function Seconds(now: Time): int {
    now / 1000
  }

  // ---- one-shot tables ----

  datatype Timed<T> = Timed(value: T, expiresAt: Time)

  type Table<T> = map<Id, Timed<T>>

  function Unexpired<T>(items: Table<T>, now: Time): Table<T> {
    map k | k in items && items[k].expiresAt > now :: items[k]
  }

  predicate HasRoom<T>(items: Table<T>, now: Time) {
    |Unexpired(items, now)| < MAX_PENDING
  }

  function PutItem<T>(items: Table<T>, key: Id, item: Timed<T>, now: Time): Table<T> {
    var live := Unexpired(items, now);
    if HasRoom(items, now) then live[key := item] else live
  }

  function Taken<T>(items: Table<T>, key: Id, now: Time): Option<T> {
    if key in items && items[key].expiresAt > now then Some(items[key].value) else None
  }

  class OneShot<T> {
    var items: Table<T>

    constructor ()
      ensures items == map[]
    {
      items := map[];
    }

    /** Drops what has expired; refuses when full rather than evict what is live. */
    method Put(key: Id, item: Timed<T>, now: Time) returns (stored: bool)
      modifies this
      ensures stored == HasRoom(old(items), now)
      ensures items == PutItem(old(items), key, item, now)
    {
      var left := items.Keys;
      while left != {}
        invariant left <= old(items).Keys
        invariant items == map k | k in old(items) && (k in left || old(items)[k].expiresAt > now) :: old(items)[k]
        decreases left
      {
        var k :| k in left;
        if items[k].expiresAt <= now {
          items := items - {k};
        }
        left := left - {k};
      }
      assert items == Unexpired(old(items), now);
      if |items| >= MAX_PENDING {
        return false;
      }
      items := items[key := item];
      return true;
    }

    /** Whatever comes back, the key is spent. */
    method Take(key: Id, now: Time) returns (value: Option<T>)
      modifies this
      ensures value == Taken(old(items), key, now)
      ensures items == old(items) - {key}
    {
      value := None;
      if key in items && items[key].expiresAt > now {
        value := Some(items[key].value);
      }
      items := items - {key};
    }
  }

  // ---- what the server holds ----

  /** S256 of a verifier; distinct verifiers have distinct challenges. */
  datatype Challenge = Challenge(verifier: string)

  datatype Login = Login(client: ClientId, redirectUri: string, challenge: Challenge, scope: string)

  datatype Grant = Grant(login: Login, sub: string)

  datatype Purpose = ForAccess | ForRefresh

  datatype Claims = Claims(
    purpose: Purpose,
    sub: string,
    client: ClientId,
    family: Id,
    scope: string,
    iat: int,
    exp: int,
    jti: Id)

  /** `scopeOf` is the profile a client id resolves to, if any; `mayRedirect` its registered and
      still allowed addresses. */
  datatype Config = Config(
    subject: string,
    scopeOf: ClientId -> Option<string>,
    mayRedirect: (ClientId, string) -> bool)

  /** `signed` stands for the signing key: exactly the claims it ever signed verify. `exchanging`
      holds the callbacks that wait for the identity provider. */
  datatype Server = Server(
    logins: Table<Login>,
    exchanging: map<Id, Login>,
    consents: Table<Grant>,
    codes: Table<Grant>,
    usedRefresh: map<Id, int>,
    revokedFamilies: map<Id, int>,
    signed: set<Claims>,
    drawn: nat)

  datatype Error =
    | UnknownClient
    | Unavailable
    | SignInExpired
    | AccessDenied
    | NotPermitted
    | InvalidGrant
    | AccessRevoked
    | ReuseDetected
    | Unauthorised

  datatype Response =
    | LoginStarted(state: Id)
    | Waiting
    | ConsentPage(ticket: Id)
    | CodeGranted(code: Id)
    | Tokens(access: Claims, refresh: Claims)
    | Accepted
    | Refused(error: Error)

  /** `sender` is None where client authentication failed. `Exchanged` is the identity provider's
      answer to a callback that waits for it. */
  datatype Request =
    | Authorise(client: ClientId, redirectUri: string, challenge: Challenge)
    | Callback(state: Id, hasCode: bool)
    | Exchanged(state: Id, identity: Option<string>)
    | Consent(ticket: Id, allow: bool)
    | RedeemCode(sender: Option<ClientId>, code: Id, redirectUri: string, verifier: Option<string>)
    | RedeemRefresh(sender: Option<ClientId>, token: Claims)
    | UseAccess(token: Claims)

  datatype Reply = Reply(server: Server, response: Response)

  // ---- the handlers ----

  function AfterAuthorise(config: Config, s: Server, client: ClientId, redirectUri: string, challenge: Challenge, now: Time): Reply {
    if config.scopeOf(client).None? || !config.mayRedirect(client, redirectUri) then Reply(s, Refused(UnknownClient))
    else
      var login := Login(client, redirectUri, challenge, config.scopeOf(client).value);
      var next := s.(logins := PutItem(s.logins, s.drawn, Timed(login, now + LOGIN_TTL_MS), now), drawn := s.drawn + 1);
      Reply(next, if HasRoom(s.logins, now) then LoginStarted(s.drawn) else Refused(Unavailable))
  }

  function AfterCallback(s: Server, state: Id, hasCode: bool, now: Time): Reply {
    var login := Taken(s.logins, state, now);
    var next := s.(logins := s.logins - {state});
    if login.None? then Reply(next, Refused(SignInExpired))
    else if !hasCode then Reply(next, Refused(AccessDenied))
    else Reply(next.(exchanging := s.exchanging[state := login.value]), Waiting)
  }

  function AfterExchanged(config: Config, s: Server, state: Id, identity: Option<string>, now: Time): Reply {
    if state !in s.exchanging then Reply(s, Refused(SignInExpired))
    else
      var login := s.exchanging[state];
      var next := s.(exchanging := s.exchanging - {state});
      if identity.None? then Reply(next, Refused(AccessDenied))
      else if identity.value != config.subject then Reply(next, Refused(NotPermitted))
      else
        var grant := Timed(Grant(login, identity.value), now + LOGIN_TTL_MS);
        Reply(next.(consents := PutItem(s.consents, s.drawn, grant, now), drawn := s.drawn + 1),
              if HasRoom(s.consents, now) then ConsentPage(s.drawn) else Refused(Unavailable))
  }

  /** The code is handed out whether or not there was room to remember it. */
  function AfterConsent(s: Server, ticket: Id, allow: bool, now: Time): Reply {
    var grant := Taken(s.consents, ticket, now);
    var next := s.(consents := s.consents - {ticket});
    if grant.None? then Reply(next, Refused(SignInExpired))
    else if !allow then Reply(next, Refused(AccessDenied))
    else
      Reply(next.(codes := PutItem(s.codes, s.drawn, Timed(grant.value, now + CODE_TTL_MS), now), drawn := s.drawn + 1),
            CodeGranted(s.drawn))
  }

  predicate VerifierChar(c: char) {
    'A' <= c <= 'Z' || 'a' <= c <= 'z' || '0' <= c <= '9' || c in "._~-"
  }

  predicate WellFormedVerifier(v: string) {
    43 <= |v| <= 128 && forall c | c in v :: VerifierChar(c)
  }

  function Issue(s: Server, sub: string, client: ClientId, scope: string, family: Option<Id>, now: Time): Reply {
    var iat := Seconds(now);
    var fam := family.GetOr(s.drawn);
    var first := if family.Some? then s.drawn else s.drawn + 1;
    var access := Claims(ForAccess, sub, client, fam, scope, iat, iat + ACCESS_TTL_S, first);
    var refresh := Claims(ForRefresh, sub, client, fam, scope, iat, iat + REFRESH_TTL_S, first + 1);
    Reply(s.(signed := s.signed + {access, refresh}, drawn := first + 2), Tokens(access, refresh))
  }

  function AfterRedeemCode(s: Server, client: Option<ClientId>, code: Id, redirectUri: string, verifier: Option<string>, now: Time): Reply {
    if client.None? then Reply(s, Refused(UnknownClient))
    else
      var grant := Taken(s.codes, code, now);
      var next := s.(codes := s.codes - {code});
      if grant.None? || grant.value.login.client != client.value || grant.value.login.redirectUri != redirectUri then
        Reply(next, Refused(InvalidGrant))
      else if verifier.None? || !WellFormedVerifier(verifier.value) || Challenge(verifier.value) != grant.value.login.challenge then
        Reply(next, Refused(InvalidGrant))
      else
        Issue(next, grant.value.sub, client.value, grant.value.login.scope, None, now)
  }

  function Pruned(forgets: bool, records: map<Id, int>, t: int): map<Id, int> {
    if forgets then map k | k in records && records[k] > t :: records[k] else records
  }

  /** With `forgets`, the server; without, one that never prunes its records. */
  function PruneRefresh(forgets: bool, s: Server, t: int): Server {
    s.(usedRefresh := Pruned(forgets, s.usedRefresh, t), revokedFamilies := Pruned(forgets, s.revokedFamilies, t))
  }

  function AfterRedeemRefresh(config: Config, forgets: bool, s0: Server, client: Option<ClientId>, token: Claims, now: Time): Reply {
    if client.None? then Reply(s0, Refused(UnknownClient))
    else
      var s := PruneRefresh(forgets, s0, Seconds(now));
      if token !in s.signed || token.purpose != ForRefresh || token.exp <= Seconds(now) || token.client != client.value then
        Reply(s, Refused(InvalidGrant))
      else if token.sub != config.subject || token.family in s.revokedFamilies then
        Reply(s, Refused(AccessRevoked))
      else if config.scopeOf(client.value) != Some(token.scope) then
        Reply(s, Refused(AccessRevoked))
      else if token.jti in s.usedRefresh then
        Reply(s.(revokedFamilies := s.revokedFamilies[token.family := Seconds(now) + REFRESH_TTL_S]), Refused(ReuseDetected))
      else
        Issue(s.(usedRefresh := s.usedRefresh[token.jti := token.exp]), token.sub, client.value, token.scope, Some(token.family), now)
  }

  function AfterUseAccess(config: Config, forgets: bool, s0: Server, token: Claims, now: Time): Reply {
    if token !in s0.signed || token.purpose != ForAccess || token.exp <= Seconds(now) || token.sub != config.subject then
      Reply(s0, Refused(Unauthorised))
    else
      var s := PruneRefresh(forgets, s0, Seconds(now));
      if token.family in s.revokedFamilies || config.scopeOf(token.client) != Some(token.scope) then
        Reply(s, Refused(Unauthorised))
      else Reply(s, Accepted)
  }

  function Handle(config: Config, forgets: bool, s: Server, request: Request, now: Time): Reply {
    match request
    case Authorise(client, redirectUri, challenge) => AfterAuthorise(config, s, client, redirectUri, challenge, now)
    case Callback(state, hasCode) => AfterCallback(s, state, hasCode, now)
    case Exchanged(state, identity) => AfterExchanged(config, s, state, identity, now)
    case Consent(ticket, allow) => AfterConsent(s, ticket, allow, now)
    case RedeemCode(sender, code, redirectUri, verifier) => AfterRedeemCode(s, sender, code, redirectUri, verifier, now)
    case RedeemRefresh(sender, token) => AfterRedeemRefresh(config, forgets, s, sender, token, now)
    case UseAccess(token) => AfterUseAccess(config, forgets, s, token, now)
  }

  const STARTED := Server(map[], map[], map[], map[], map[], map[], {}, 0)

  // ---- the server itself ----

  class AuthServer {
    const config: Config
    const logins: OneShot<Login>
    const consents: OneShot<Grant>
    const codes: OneShot<Grant>
    var exchanging: map<Id, Login>
    var usedRefresh: map<Id, int>
    var revokedFamilies: map<Id, int>
    var signed: set<Claims>
    var drawn: nat

    ghost predicate Valid() {
      consents != codes
    }

    ghost function State(): Server
      reads this, logins, consents, codes
    {
      Server(logins.items, exchanging, consents.items, codes.items, usedRefresh, revokedFamilies, signed, drawn)
    }

    constructor (config: Config)
      ensures Valid() && this.config == config && State() == STARTED
      ensures fresh(logins) && fresh(consents) && fresh(codes)
    {
      this.config := config;
      logins := new OneShot();
      consents := new OneShot();
      codes := new OneShot();
      exchanging, usedRefresh, revokedFamilies, signed, drawn := map[], map[], map[], {}, 0;
    }

    method RandomToken() returns (id: Id)
      modifies this`drawn
      ensures id == old(drawn) && drawn == id + 1
    {
      id := drawn;
      drawn := drawn + 1;
    }

    method Prune(records: map<Id, int>, t: int) returns (kept: map<Id, int>)
      ensures kept == Pruned(true, records, t)
    {
      kept := records;
      var left := records.Keys;
      while left != {}
        invariant left <= records.Keys
        invariant kept == map k | k in records && (k in left || records[k] > t) :: records[k]
        decreases left
      {
        var k :| k in left;
        if records[k] <= t {
          kept := kept - {k};
        }
        left := left - {k};
      }
    }

    method PruneRecords(now: Time)
      modifies this`usedRefresh, this`revokedFamilies
      ensures State() == PruneRefresh(true, old(State()), Seconds(now))
    {
      usedRefresh := Prune(usedRefresh, Seconds(now));
      revokedFamilies := Prune(revokedFamilies, Seconds(now));
    }

    method IssueTokens(sub: string, client: ClientId, scope: string, family: Option<Id>, now: Time) returns (r: Response)
      modifies this`signed, this`drawn
      ensures Reply(State(), r) == Issue(old(State()), sub, client, scope, family, now)
    {
      var iat := Seconds(now);
      var fam;
      if family.Some? { fam := family.value; } else { fam := RandomToken(); }
      var accessId := RandomToken();
      var access := Claims(ForAccess, sub, client, fam, scope, iat, iat + ACCESS_TTL_S, accessId);
      var refreshId := RandomToken();
      var refresh := Claims(ForRefresh, sub, client, fam, scope, iat, iat + REFRESH_TTL_S, refreshId);
      signed := signed + {access, refresh};
      r := Tokens(access, refresh);
    }

    method Authorise(client: ClientId, redirectUri: string, challenge: Challenge, now: Time) returns (r: Response)
      requires Valid()
      modifies this, logins
      ensures Reply(State(), r) == AfterAuthorise(config, old(State()), client, redirectUri, challenge, now)
    {
      var scope := config.scopeOf(client);
      if scope.None? || !config.mayRedirect(client, redirectUri) {
        return Refused(UnknownClient);
      }
      var state := RandomToken();
      var stored := logins.Put(state, Timed(Login(client, redirectUri, challenge, scope.value), now + LOGIN_TTL_MS), now);
      r := if stored then LoginStarted(state) else Refused(Unavailable);
    }

    method Callback(state: Id, hasCode: bool, now: Time) returns (r: Response)
      requires Valid()
      modifies this, logins
      ensures Reply(State(), r) == AfterCallback(old(State()), state, hasCode, now)
    {
      var login := logins.Take(state, now);
      if login.None? {
        return Refused(SignInExpired);
      }
      if !hasCode {
        return Refused(AccessDenied);
      }
      exchanging := exchanging[state := login.value];
      r := Waiting;
    }

    method Exchanged(state: Id, identity: Option<string>, now: Time) returns (r: Response)
      requires Valid()
      modifies this, consents
      ensures Reply(State(), r) == AfterExchanged(config, old(State()), state, identity, now)
    {
      if state !in exchanging {
        return Refused(SignInExpired);
      }
      var login := exchanging[state];
      exchanging := exchanging - {state};
      if identity.None? {
        return Refused(AccessDenied);
      }
      if identity.value != config.subject {
        return Refused(NotPermitted);
      }
      var ticket := RandomToken();
      var stored := consents.Put(ticket, Timed(Grant(login, identity.value), now + LOGIN_TTL_MS), now);
      r := if stored then ConsentPage(ticket) else Refused(Unavailable);
    }

    method Consent(ticket: Id, allow: bool, now: Time) returns (r: Response)
      requires Valid()
      modifies this, consents, codes
      ensures Reply(State(), r) == AfterConsent(old(State()), ticket, allow, now)
    {
      var pending := consents.Take(ticket, now);
      if pending.None? {
        return Refused(SignInExpired);
      }
      if !allow {
        return Refused(AccessDenied);
      }
      var code := RandomToken();
      var _ := codes.Put(code, Timed(pending.value, now + CODE_TTL_MS), now);
      r := CodeGranted(code);
    }

    method RedeemCode(client: Option<ClientId>, code: Id, redirectUri: string, verifier: Option<string>, now: Time) returns (r: Response)
      requires Valid()
      modifies this, codes
      ensures Reply(State(), r) == AfterRedeemCode(old(State()), client, code, redirectUri, verifier, now)
    {
      if client.None? {
        return Refused(UnknownClient);
      }
      var issued := codes.Take(code, now);
      if issued.None? || issued.value.login.client != client.value || issued.value.login.redirectUri != redirectUri {
        return Refused(InvalidGrant);
      }
      if verifier.None? || !WellFormedVerifier(verifier.value) || Challenge(verifier.value) != issued.value.login.challenge {
        return Refused(InvalidGrant);
      }
      r := IssueTokens(issued.value.sub, client.value, issued.value.login.scope, None, now);
    }

    method RedeemRefresh(client: Option<ClientId>, token: Claims, now: Time) returns (r: Response)
      requires Valid()
      modifies this
      ensures Reply(State(), r) == AfterRedeemRefresh(config, true, old(State()), client, token, now)
    {
      if client.None? {
        return Refused(UnknownClient);
      }
      PruneRecords(now);
      if token !in signed || token.purpose != ForRefresh || token.exp <= Seconds(now) || token.client != client.value {
        return Refused(InvalidGrant);
      }
      if token.sub != config.subject || token.family in revokedFamilies {
        return Refused(AccessRevoked);
      }
      if config.scopeOf(client.value) != Some(token.scope) {
        return Refused(AccessRevoked);
      }
      if token.jti in usedRefresh {
        revokedFamilies := revokedFamilies[token.family := Seconds(now) + REFRESH_TTL_S];
        return Refused(ReuseDetected);
      }
      usedRefresh := usedRefresh[token.jti := token.exp];
      r := IssueTokens(token.sub, client.value, token.scope, Some(token.family), now);
    }

    method UseAccess(token: Claims, now: Time) returns (r: Response)
      requires Valid()
      modifies this
      ensures Reply(State(), r) == AfterUseAccess(config, true, old(State()), token, now)
    {
      if token !in signed || token.purpose != ForAccess || token.exp <= Seconds(now) || token.sub != config.subject {
        return Refused(Unauthorised);
      }
      PruneRecords(now);
      if token.family in revokedFamilies {
        return Refused(Unauthorised);
      }
      if config.scopeOf(token.client) != Some(token.scope) {
        return Refused(Unauthorised);
      }
      r := Accepted;
    }
  }
}
