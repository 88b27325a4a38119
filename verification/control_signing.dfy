/** Signed control requests: what a signature binds, and how nonces are remembered. */
module ControlSigning {
  import opened Options
  import opened JsonText
  import opened CanonicalJson
  import opened JsonReader

  // ---- the signed payload ----

  datatype CanonicalFields = CanonicalFields(
    version: Text,
    keyId: Text,
    verb: Text,
    service: Text,
    handler: Text,
    key: Text,
    tenantId: Text,
    principalId: Text,
    scopeDigest: Text,
    decision: Text,
    bodySha256: Text,
    issuedAt: Text,
    nonce: Text)

  const CONTROL_DOMAIN: Text := [0x6b, 0x6a, 0x2d, 0x63, 0x6f, 0x6e, 0x74, 0x72, 0x6f, 0x6c, 0x2f, 0x76, 0x31]
  const CONTROL_VERSION: Text := [0x31]
  const POST: Text := [0x50, 0x4f, 0x53, 0x54]
  const NEWLINE: Unit := 10

  function Strings(f: CanonicalFields): seq<Json> {
    [Str(f.version), Str(f.keyId), Str(f.verb), Str(f.service), Str(f.handler), Str(f.key), Str(f.tenantId),
     Str(f.principalId), Str(f.scopeDigest), Str(f.decision), Str(f.bodySha256), Str(f.issuedAt), Str(f.nonce)]
  }

  function CanonicalPayload(f: CanonicalFields): Text {
    CONTROL_DOMAIN + [NEWLINE] + Plain(List(Strings(f)))
  }

  /** No two different tuples of fields are ever signed as the same text. */
  lemma PayloadsNameTheirFields(f: CanonicalFields, g: CanonicalFields)
    requires CanonicalPayload(f) == CanonicalPayload(g)
    ensures f == g
  {
    hide Plain, Strings;
    AppendCancels(CONTROL_DOMAIN + [NEWLINE], Plain(List(Strings(f))), CONTROL_DOMAIN + [NEWLINE], Plain(List(Strings(g))));
    assert Plain(List(Strings(f))) + [] == Plain(List(Strings(g))) + [];
    PlainAgree(List(Strings(f)), [], List(Strings(g)), []);
    StringsNameTheirFields(f, g);
  }

  lemma StringsNameTheirFields(f: CanonicalFields, g: CanonicalFields)
    requires Strings(f) == Strings(g)
    ensures f == g
  {
    var x, y := Strings(f), Strings(g);
    assert x[0] == y[0] && x[1] == y[1] && x[2] == y[2] && x[3] == y[3] && x[4] == y[4] && x[5] == y[5] && x[6] == y[6];
    assert x[7] == y[7] && x[8] == y[8] && x[9] == y[9] && x[10] == y[10] && x[11] == y[11] && x[12] == y[12];
  }

  // ---- signing and verifying ----

  /** Hash and MAC, and how an approval's fields are read from its body; all but the first two
      properties are the caller's business. */
  datatype Crypto = Crypto(sha: Text -> Text, mac: (Text, Text) -> Text, approvalFields: (Text, Text) -> (Text, Text))

  ghost predicate CollisionFree(c: Crypto) {
    && (forall a, b :: c.sha(a) == c.sha(b) ==> a == b)
    && (forall k, a, l, b :: c.mac(k, a) == c.mac(l, b) ==> k == l && a == b)
  }

  datatype Request = Request(service: Text, handler: Text, key: Text, body: Text)

  datatype Headers = Headers(
    version: Option<Text>,
    keyId: Option<Text>,
    timestamp: Option<Text>,
    nonce: Option<Text>,
    bodySha256: Option<Text>,
    signature: Option<Text>)

  function FieldsOf(c: Crypto, r: Request, keyId: Text, tenantId: Text, principalId: Text, issuedAt: Text, nonce: Text): CanonicalFields {
    var (scopeDigest, decision) := c.approvalFields(r.handler, r.body);
    CanonicalFields(CONTROL_VERSION, keyId, POST, r.service, r.handler, r.key, tenantId, principalId,
                    scopeDigest, decision, c.sha(r.body), issuedAt, nonce)
  }

  function Sign(c: Crypto, keyId: Text, key: Text, r: Request, tenantId: Text, principalId: Text, nowMs: nat, nonce: Text): Headers {
    var f := FieldsOf(c, r, keyId, tenantId, principalId, Digits(nowMs / 1000), nonce);
    Headers(Some(f.version), Some(f.keyId), Some(f.issuedAt), Some(f.nonce), Some(f.bodySha256),
            Some(c.mac(key, CanonicalPayload(f))))
  }

  datatype AuthError = Missing | Version | Malformed | UnknownKey | Body | Signature

  predicate Letter(u: Unit) {
    0x41 <= u <= 0x5a || 0x61 <= u <= 0x7a
  }

  predicate WellFormedKeyId(t: Text) {
    1 <= |t| <= 16 && forall u | u in t :: Letter(u) || IsDigit(u) || u == 0x2e || u == 0x5f || u == 0x2d
  }

  predicate WellFormedNonce(t: Text) {
    22 <= |t| <= 64 && forall u | u in t :: Letter(u) || IsDigit(u) || u == 0x5f || u == 0x2d
  }

  predicate WellFormedSeconds(t: Text) {
    1 <= |t| <= 12 && forall u | u in t :: IsDigit(u)
  }

  predicate Hex64(t: Text) {
    |t| == 64 && forall u | u in t :: IsDigit(u) || 0x61 <= u <= 0x66
  }

  datatype VerifierConfig = VerifierConfig(keys: map<Text, Text>, tenantId: Text, principalId: Text, freshnessSeconds: nat)

  predicate Complete(h: Headers) {
    h.version.Some? && h.keyId.Some? && h.timestamp.Some? && h.nonce.Some? && h.bodySha256.Some? && h.signature.Some?
  }

  function FieldsReceived(c: Crypto, config: VerifierConfig, h: Headers, r: Request): CanonicalFields
    requires Complete(h)
  {
    FieldsOf(c, r, h.keyId.value, config.tenantId, config.principalId, h.timestamp.value, h.nonce.value)
  }

  predicate SameHex(a: Text, b: Text) {
    Hex64(a) && Hex64(b) && a == b
  }

  /** Everything the verifier decides before it touches the nonce store. */
  function Authenticate(c: Crypto, config: VerifierConfig, h: Headers, r: Request): Option<AuthError> {
    if !Complete(h) then Some(Missing)
    else if h.version.value != CONTROL_VERSION then Some(Version)
    else if !WellFormedKeyId(h.keyId.value) || !WellFormedNonce(h.nonce.value) || !WellFormedSeconds(h.timestamp.value)
            || !Hex64(h.bodySha256.value) || !Hex64(h.signature.value) then Some(Malformed)
    else if h.keyId.value !in config.keys then Some(UnknownKey)
    else if !SameHex(c.sha(r.body), h.bodySha256.value) then Some(Body)
    else if !SameHex(c.mac(config.keys[h.keyId.value], CanonicalPayload(FieldsReceived(c, config, h, r))), h.signature.value) then Some(Signature)
    else None
  }

  /** A signature is good for the one request, tenant, principal, key, moment and nonce it was made
      for: whatever else arrives with it is refused. */
  lemma SignatureBindsRequest(c: Crypto, keyId: Text, key: Text, signed: Request, tenantId: Text, principalId: Text, nowMs: nat, nonce: Text,
                              config: VerifierConfig, h: Headers, r: Request)
    requires CollisionFree(c)
    requires h.signature == Sign(c, keyId, key, signed, tenantId, principalId, nowMs, nonce).signature
    requires Authenticate(c, config, h, r).None?
    ensures h == Sign(c, keyId, key, signed, tenantId, principalId, nowMs, nonce)
    ensures r == signed && config.tenantId == tenantId && config.principalId == principalId
    ensures keyId in config.keys && config.keys[keyId] == key
  {
    hide CanonicalPayload, Digits, Hex64, WellFormedKeyId, WellFormedNonce, WellFormedSeconds;
    var f := FieldsOf(c, signed, keyId, tenantId, principalId, Digits(nowMs / 1000), nonce);
    var g := FieldsReceived(c, config, h, r);
    MacsAgree(c, key, CanonicalPayload(f), config.keys[h.keyId.value], CanonicalPayload(g));
    PayloadsNameTheirFields(f, g);
    assert c.sha(signed.body) == c.sha(r.body);
  }

  lemma MacsAgree(c: Crypto, k: Text, a: Text, l: Text, b: Text)
    requires CollisionFree(c) && c.mac(k, a) == c.mac(l, b)
    ensures k == l && a == b
  {
  }

  lemma {:induction false} DigitsLength(n: nat, width: nat, bound: nat)
    requires width >= 1 && bound == Pow10(width) && n < bound
    ensures |Digits(n)| <= width
  {
    if n >= 10 {
      assert n / 10 < Pow10(width - 1);
      DigitsLength(n / 10, width - 1, Pow10(width - 1));
    }
  }

  function Pow10(n: nat): nat {
    if n == 0 then 1 else 10 * Pow10(n - 1)
  }

  /** What the door signs, the worker that shares its key, tenant and principal authenticates. */
  lemma SignedRequestIsAuthentic(c: Crypto, keyId: Text, key: Text, r: Request, nowMs: nat, nonce: Text, config: VerifierConfig)
    requires forall t :: Hex64(c.sha(t))
    requires forall k, t :: Hex64(c.mac(k, t))
    requires WellFormedKeyId(keyId) && WellFormedNonce(nonce)
    requires nowMs < 1_000_000_000_000_000
    requires keyId in config.keys && config.keys[keyId] == key
    ensures Authenticate(c, config, Sign(c, keyId, key, r, config.tenantId, config.principalId, nowMs, nonce), r).None?
  {
    var issuedAt := Digits(nowMs / 1000);
    assert Pow10(12) == 1_000_000_000_000;
    DigitsLength(nowMs / 1000, 12, Pow10(12));
    hide Hex64, WellFormedKeyId, WellFormedNonce, CanonicalPayload;
    assert WellFormedSeconds(issuedAt) by { hide Digits; }
    hide Digits, WellFormedSeconds;
  }

  // ---- the payload and the headers ----

  /** The signed text is one line that names the domain and one JSON array, which reads back as the
      thirteen fields in their order. */
  lemma PayloadReadsBack(f: CanonicalFields)
    ensures var t := CanonicalPayload(f);
            && |t| > 14 && t[..14] == CONTROL_DOMAIN + [NEWLINE]
            && ReadValue(t[14..]) == Got(List([Str(f.version), Str(f.keyId), Str(f.verb), Str(f.service), Str(f.handler), Str(f.key),
                 Str(f.tenantId), Str(f.principalId), Str(f.scopeDigest), Str(f.decision), Str(f.bodySha256), Str(f.issuedAt), Str(f.nonce)]), [])
  {
    var v := List(Strings(f));
    PlainReadsBack(v, []);
    PlainStarts(v, []);
    hide Plain, ReadValue;
    assert Plain(v) + [] == Plain(v);
    assert CanonicalPayload(f)[14..] == Plain(v);
  }

  /** What is signed for a request, field by field. */
  lemma RequestIsSigned(c: Crypto, r: Request, keyId: Text, tenantId: Text, principalId: Text, issuedAt: Text, nonce: Text)
    ensures var t := CanonicalPayload(FieldsOf(c, r, keyId, tenantId, principalId, issuedAt, nonce));
            var (scopeDigest, decision) := c.approvalFields(r.handler, r.body);
            |t| > 14 && ReadValue(t[14..]) == Got(List([Str([0x31]), Str(keyId), Str([0x50, 0x4f, 0x53, 0x54]), Str(r.service), Str(r.handler), Str(r.key),
              Str(tenantId), Str(principalId), Str(scopeDigest), Str(decision), Str(c.sha(r.body)), Str(issuedAt), Str(nonce)]), [])
  {
    hide CanonicalPayload, ReadValue;
    PayloadReadsBack(FieldsOf(c, r, keyId, tenantId, principalId, issuedAt, nonce));
  }

  /** The headers the signer of this key would send for this request at the moment `issuedAt` spells. */
  predicate SentBy(c: Crypto, config: VerifierConfig, r: Request, h: Headers, keyId: Text, issuedAt: Text, nonce: Text) {
    && keyId in config.keys
    && h == Headers(Some(CONTROL_VERSION), Some(keyId), Some(issuedAt), Some(nonce), Some(c.sha(r.body)),
                    Some(c.mac(config.keys[keyId], CanonicalPayload(FieldsOf(c, r, keyId, config.tenantId, config.principalId, issuedAt, nonce)))))
  }

  /** A request is authenticated exactly when its headers are those, every part well formed. */
  lemma AuthenticatesExactlyWhen(c: Crypto, config: VerifierConfig, h: Headers, r: Request)
    requires forall t :: Hex64(c.sha(t))
    requires forall k, t :: Hex64(c.mac(k, t))
    ensures Authenticate(c, config, h, r).None? <==>
      && h.keyId.Some? && h.timestamp.Some? && h.nonce.Some?
      && WellFormedKeyId(h.keyId.value) && WellFormedSeconds(h.timestamp.value) && WellFormedNonce(h.nonce.value)
      && SentBy(c, config, r, h, h.keyId.value, h.timestamp.value, h.nonce.value)
  {
    hide Hex64, WellFormedKeyId, WellFormedNonce, WellFormedSeconds, CanonicalPayload, FieldsOf;
  }
}
