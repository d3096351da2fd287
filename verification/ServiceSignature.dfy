/**
 Signed service requests (kamrui-media-edge/camera-api/camera-service-signature.js).
 SHA-256 and HMAC are functions of their inputs; None is an exception.
 */
module ServiceSignature {
  import opened ContentTypes
  import opened QueryCanonical
  import opened Text
  import opened Wrappers
  import PercentCoding

  type Bytes = seq<PercentCoding.Byte>

  const PROTOCOL := "MBFD-CAMERA-SERVICE-HMAC-SHA256-V1"
  const MIN_SECRET := 16

  /** Digests as lower-case hexadecimal text. */
  datatype Crypto = Crypto(sha256: Bytes -> string, hmac: (string, string) -> string)

  predicate IsHexDigest(s: string) {
    |s| == 64 && forall c :: c in s ==> '0' <= c <= '9' || 'a' <= c <= 'f'
  }

  ghost predicate ValidCrypto(x: Crypto) {
    (forall b :: IsHexDigest(x.sha256(b))) && (forall k, m :: IsHexDigest(x.hmac(k, m)))
  }

  // --- Normalizers ---

  function NormalizeMethod(value: string): Option<string> {
    var n := ToUpper(Trim(value));
    if n != "" && forall c :: c in n ==> 'A' <= c <= 'Z' then Some(n) else None
  }

  predicate IsSafeId(s: string) {
    1 <= |s| <= 128 && forall c :: c in s ==> PercentCoding.IsAlphanumeric(c) || c in "._:@-"
  }

  function NormalizeIdentifier(value: string): Option<string> {
    if IsSafeId(Trim(value)) then Some(Trim(value)) else None
  }

  predicate AllDigits(s: string) {
    forall i :: 0 <= i < |s| ==> '0' <= s[i] <= '9'
  }

  predicate IsTimestamp(s: string) {
    |s| == 13 && AllDigits(s)
  }

  function NumberOf(digits: string): nat
    requires AllDigits(digits)
  {
    if digits == "" then 0
    else NumberOf(digits[..|digits| - 1]) * 10 + (digits[|digits| - 1] as int - 48)
  }

  lemma {:induction false} DecimalIsDigits(n: nat)
    ensures AllDigits(Decimal(n))
  {
    if n >= 10 {
      DecimalIsDigits(n / 10);
    }
  }

  /** Decimal digits are read as the number they write. */
  lemma {:induction false} NumberOfDecimal(n: nat)
    ensures AllDigits(Decimal(n)) && NumberOf(Decimal(n)) == n
  {
    DecimalIsDigits(n);
    if n < 10 {
      assert [Digit(n)][..0] == "";
    } else {
      NumberOfDecimal(n / 10);
      assert Decimal(n)[..|Decimal(n)| - 1] == Decimal(n / 10);
    }
  }

  /** A version 4 UUID in lower case. */
  predicate IsNonce(s: string) {
    && |s| == 36 && (forall i :: 0 <= i < 36 ==> if i in [8, 13, 18, 23] then s[i] == '-' else IsHex(s[i]))
    && s[14] == '4' && s[19] in "89ab"
  }

  predicate IsHex(c: char) {
    '0' <= c <= '9' || 'a' <= c <= 'f'
  }

  function NormalizeNonce(value: string): Option<string> {
    var n := ToLower(Trim(value));
    if IsNonce(n) then Some(n) else None
  }

  function NormalizeIfMatch(value: string): Option<string> {
    if HasBreak(Trim(value)) then None else Some(Trim(value))
  }

  // --- The canonical request ---

  datatype Request = Request(
    method_: string, target: string, body: Bytes, timestamp: string, nonce: string, ifMatch: string,
    contentType: string, operatorId: string)

  datatype Fields = Fields(
    method_: string, target: string, bodyHash: string, timestamp: string, nonce: string, ifMatch: string,
    contentType: string, operatorId: string, keyId: string, keyVersion: string)

  datatype Key = Key(id: string, version: string, secret: string)

  function Normalize(x: Crypto, r: Request, keyId: string, keyVersion: string): Option<Fields> {
    var verb, target := NormalizeMethod(r.method_), Canonicalize(r.target);
    var nonce, ifMatch, contentType := NormalizeNonce(r.nonce), NormalizeIfMatch(r.ifMatch), NormalizeContentType(r.contentType);
    var operator, id, version := NormalizeIdentifier(r.operatorId), NormalizeIdentifier(keyId), NormalizeIdentifier(keyVersion);
    if verb.None? || target.Err? || !IsTimestamp(r.timestamp) || nonce.None? || ifMatch.None? || contentType.None?
       || operator.None? || id.None? || version.None? then None
    else Some(Fields(
      verb.value, target.value, x.sha256(r.body), r.timestamp, nonce.value, ifMatch.value, contentType.value,
      operator.value, id.value, version.value))
  }

  function Lines(f: Fields): seq<string> {
    [PROTOCOL, f.method_, f.target, f.bodyHash, f.timestamp, f.nonce, f.ifMatch, f.contentType, f.operatorId, f.keyId, f.keyVersion]
  }

  /** canonicalRequest, once the fields are normalized. */
  function CanonicalText(f: Fields): string {
    Join(Lines(f), '\n')
  }

  // --- Signing ---

  datatype Header = Header(name: string, value: string)

  datatype Signed = Signed(headers: seq<Header>, signature: string)

  function Optional(name: string, value: string): seq<Header> {
    if value == "" then [] else [Header(name, value)]
  }

  function SignedHeaders(f: Fields, signature: string): seq<Header> {
    [Header("X-Service-Timestamp", f.timestamp), Header("X-Service-Nonce", f.nonce),
     Header("X-Service-Signature", signature), Header("X-Service-Key-Id", f.keyId),
     Header("X-Service-Key-Version", f.keyVersion), Header("X-Operator-Id", f.operatorId)]
    + Optional("If-Match", f.ifMatch) + Optional("Content-Type", f.contentType)
  }

  /** signServiceRequest. */
  function Sign(x: Crypto, r: Request, key: Key): Option<Signed> {
    if |key.secret| < MIN_SECRET then None
    else
      var fields := Normalize(x, r, key.id, key.version);
      if fields.None? then None
      else
        var signature := x.hmac(key.secret, CanonicalText(fields.value));
        Some(Signed(SignedHeaders(fields.value, signature), signature))
  }

  // --- Verifying ---

  /** The first header of that name, in any case; `wanted` is in lower case. */
  function HeaderValue(headers: seq<Header>, wanted: string): string {
    if headers == [] then ""
    else if ToLower(headers[0].name) == wanted then headers[0].value
    else HeaderValue(headers[1..], wanted)
  }

  /** What the nonce store answers. */
  datatype NonceAnswer = NoStore | StoreFails | Fresh | Seen

  datatype Received = Received(method_: string, target: string, body: Bytes, headers: seq<Header>, nowMs: int, maxSkewMs: int)

  datatype Refusal = BadRequest | BadTimestamp | BadNonce | UnknownKey | BadSignature

  datatype Verdict =
    | Accepted(operatorId: string, keyId: string, keyVersion: string)
    | Unauthorized(reason: Refusal)
    | ReplayProtectionUnavailable
    | Replayed

  /** The request as the headers describe it. */
  function Described(v: Received): Request {
    Request(v.method_, v.target, v.body,
      HeaderValue(v.headers, "x-service-timestamp"), HeaderValue(v.headers, "x-service-nonce"),
      HeaderValue(v.headers, "if-match"), HeaderValue(v.headers, "content-type"), HeaderValue(v.headers, "x-operator-id"))
  }

  function FindKey(keys: seq<Key>, id: string, version: string): (r: Option<Key>)
    ensures r.Some? ==> r.value in keys && r.value.id == id && r.value.version == version
    ensures r.None? ==> forall k :: k in keys ==> k.id != id || k.version != version
  {
    if keys == [] then None
    else if keys[0].id == id && keys[0].version == version then Some(keys[0])
    else FindKey(keys[1..], id, version)
  }

  /** `!(maxSkewMs < 1 || |nowMs - timestampMs| > maxSkewMs)` */
  predicate WithinSkew(v: Received, timestamp: string)
    requires IsTimestamp(timestamp)
  {
    var t := NumberOf(timestamp);
    v.maxSkewMs >= 1 && -v.maxSkewMs <= v.nowMs - t <= v.maxSkewMs
  }

  /** signaturesMatch: the same bytes in hexadecimal of either case. */
  predicate SignaturesMatch(actual: string, expected: string) {
    IsHexDigest(ToLower(actual)) && ToLower(actual) == expected
  }

  function AskNonceStore(f: Fields, answer: NonceAnswer): Verdict {
    match answer
    case NoStore => ReplayProtectionUnavailable
    case StoreFails => ReplayProtectionUnavailable
    case Seen => Replayed
    case Fresh => Accepted(f.operatorId, f.keyId, f.keyVersion)
  }

  /** Comparing the signature of an identified key, for the request as verified so far. */
  function CheckSignature(x: Crypto, v: Received, r: Request, key: Key, answer: NonceAnswer): Verdict {
    var fields := Normalize(x, r, key.id, key.version);
    if fields.None? then Unauthorized(BadRequest)
    else if !SignaturesMatch(HeaderValue(v.headers, "x-service-signature"), x.hmac(key.secret, CanonicalText(fields.value)))
    then Unauthorized(BadSignature)
    else AskNonceStore(fields.value, answer)
  }

  /** verifyServiceRequest. */
  function Verify(x: Crypto, v: Received, keys: seq<Key>, answer: NonceAnswer): Verdict {
    var r := Described(v);
    var nonce, operator := NormalizeNonce(r.nonce), NormalizeIdentifier(r.operatorId);
    var id := NormalizeIdentifier(HeaderValue(v.headers, "x-service-key-id"));
    var version := NormalizeIdentifier(HeaderValue(v.headers, "x-service-key-version"));
    if !IsTimestamp(r.timestamp) then Unauthorized(BadRequest)
    else if !WithinSkew(v, r.timestamp) then Unauthorized(BadTimestamp)
    else if nonce.None? then Unauthorized(BadNonce)
    else if operator.None? || id.None? || version.None? then Unauthorized(BadRequest)
    else
      var key := FindKey(keys, id.value, version.value);
      if key.None? || |key.value.secret| < MIN_SECRET then Unauthorized(UnknownKey)
      else CheckSignature(x, v, r.(nonce := nonce.value, operatorId := operator.value), key.value, answer)
  }

  // --- The canonical text determines its fields ---

  predicate OneLine(s: string) {
    '\n' !in s
  }

  ghost predicate NoLineBreaks(f: Fields) {
    forall s :: s in Lines(f) ==> OneLine(s)
  }

  lemma CanonicalTargetIsOneLine(raw: string)
    requires Canonicalize(raw).Ok?
    ensures OneLine(Canonicalize(raw).value)
  {
    hide Canonicalize, Form, PathOf, PairsOf;
    CanonicalizeIff(raw, Canonicalize(raw).value);
    PathIsValid(raw);
    FormIsValid(PathOf(raw), PairsOf(raw).value);
  }

  lemma SmallFieldsAreOneLine(r: Request, id: string)
    ensures NormalizeMethod(r.method_).Some? ==> OneLine(NormalizeMethod(r.method_).value)
    ensures IsTimestamp(r.timestamp) ==> OneLine(r.timestamp)
    ensures NormalizeIfMatch(r.ifMatch).Some? ==> OneLine(NormalizeIfMatch(r.ifMatch).value)
    ensures NormalizeIdentifier(id).Some? ==> OneLine(NormalizeIdentifier(id).value)
    ensures NormalizeNonce(r.nonce).Some? ==> OneLine(NormalizeNonce(r.nonce).value)
  {
    hide Trim, ToUpper, ToLower;
    var n := NormalizeNonce(r.nonce);
    if n.Some? {
      assert forall i :: 0 <= i < 36 ==> n.value[i] == '-' || IsHex(n.value[i]);
    }
  }

  lemma FieldsAreOneLine(x: Crypto, r: Request, keyId: string, keyVersion: string)
    requires ValidCrypto(x) && Normalize(x, r, keyId, keyVersion).Some?
    ensures NoLineBreaks(Normalize(x, r, keyId, keyVersion).value)
  {
    hide NormalizeMethod, IsTimestamp, NormalizeIfMatch, NormalizeIdentifier, NormalizeNonce, Canonicalize, NormalizeContentType;
    SmallFieldsAreOneLine(r, keyId);
    SmallFieldsAreOneLine(r, keyVersion);
    SmallFieldsAreOneLine(r, r.operatorId);
    CanonicalTargetIsOneLine(r.target);
    ContentTypeHasNoNewline(r.contentType);
    assert IsHexDigest(x.sha256(r.body));
  }

  lemma LinesDetermineFields(f: Fields, g: Fields)
    requires Lines(f) == Lines(g)
    ensures f == g
  {
    var a, b := Lines(f), Lines(g);
    assert a[1] == b[1] && a[2] == b[2] && a[3] == b[3] && a[4] == b[4] && a[5] == b[5];
    assert a[6] == b[6] && a[7] == b[7] && a[8] == b[8] && a[9] == b[9] && a[10] == b[10];
  }

  /** Two requests have one canonical text exactly when all their canonical fields agree. */
  lemma CanonicalTextIff(x: Crypto, r: Request, keyId: string, keyVersion: string, r': Request, keyId': string, keyVersion': string)
    requires ValidCrypto(x)
    requires Normalize(x, r, keyId, keyVersion).Some? && Normalize(x, r', keyId', keyVersion').Some?
    ensures var f, g := Normalize(x, r, keyId, keyVersion).value, Normalize(x, r', keyId', keyVersion').value;
      CanonicalText(f) == CanonicalText(g) <==> f == g
  {
    hide Normalize, Join;
    var f, g := Normalize(x, r, keyId, keyVersion).value, Normalize(x, r', keyId', keyVersion').value;
    FieldsAreOneLine(x, r, keyId, keyVersion);
    FieldsAreOneLine(x, r', keyId', keyVersion');
    if CanonicalText(f) == CanonicalText(g) {
      JoinInjective(Lines(f), Lines(g), '\n');
      LinesDetermineFields(f, g);
    }
  }

  // --- Signing and verifying ---

  lemma NonceIsFixed(value: string)
    requires NormalizeNonce(value).Some?
    ensures NormalizeNonce(NormalizeNonce(value).value) == NormalizeNonce(value)
  {
    var n := ToLower(Trim(value));
    LowerTwice(Trim(value));
    LowerKeepsTrimmed(Trim(value));
    TrimOfTrimmed(n);
  }

  lemma IdentifierIsFixed(value: string)
    requires NormalizeIdentifier(value).Some?
    ensures NormalizeIdentifier(NormalizeIdentifier(value).value) == NormalizeIdentifier(value)
  {
    TrimOfTrimmed(Trim(value));
  }

  lemma IfMatchIsFixed(value: string)
    requires NormalizeIfMatch(value).Some?
    ensures NormalizeIfMatch(NormalizeIfMatch(value).value) == NormalizeIfMatch(value)
  {
    TrimOfTrimmed(Trim(value));
  }

  /** The request with its header fields normalized. */
  function WithNormalHeaders(r: Request, f: Fields): Request {
    r.(timestamp := f.timestamp, nonce := f.nonce, ifMatch := f.ifMatch, contentType := f.contentType, operatorId := f.operatorId)
  }

  /** Normalized fields are what normalizing them again gives. */
  lemma NormalizeIsFixed(x: Crypto, r: Request, keyId: string, keyVersion: string)
    requires Normalize(x, r, keyId, keyVersion).Some?
    ensures var f := Normalize(x, r, keyId, keyVersion).value;
      && Normalize(x, WithNormalHeaders(r, f), f.keyId, f.keyVersion) == Some(f)
      && IsTimestamp(f.timestamp) && NormalizeNonce(f.nonce) == Some(f.nonce)
      && NormalizeIdentifier(f.operatorId) == Some(f.operatorId)
      && NormalizeIdentifier(f.keyId) == Some(f.keyId) && NormalizeIdentifier(f.keyVersion) == Some(f.keyVersion)
  {
    hide NormalizeMethod, NormalizeIfMatch, NormalizeIdentifier, NormalizeNonce, Canonicalize, NormalizeContentType, IsTimestamp;
    NonceIsFixed(r.nonce);
    IfMatchIsFixed(r.ifMatch);
    NormalizeContentTypeIdempotent(r.contentType);
    IdentifierIsFixed(r.operatorId);
    IdentifierIsFixed(keyId);
    IdentifierIsFixed(keyVersion);
  }

  lemma TimestampName()
    ensures ToLower("X-Service-Timestamp") == "x-service-timestamp"
  {
  }

  lemma NonceName()
    ensures ToLower("X-Service-Nonce") == "x-service-nonce"
  {
  }

  lemma SignatureName()
    ensures ToLower("X-Service-Signature") == "x-service-signature"
  {
  }

  lemma KeyIdName()
    ensures ToLower("X-Service-Key-Id") == "x-service-key-id"
  {
  }

  lemma KeyVersionName()
    ensures ToLower("X-Service-Key-Version") == "x-service-key-version"
  {
  }

  lemma OperatorName()
    ensures ToLower("X-Operator-Id") == "x-operator-id"
  {
  }

  lemma IfMatchName()
    ensures ToLower("If-Match") == "if-match"
  {
  }

  lemma ContentTypeName()
    ensures ToLower("Content-Type") == "content-type"
  {
  }

  lemma {:induction false} HeaderAppend(a: seq<Header>, b: seq<Header>, wanted: string)
    requires forall h :: h in a ==> ToLower(h.name) != wanted
    ensures HeaderValue(a + b, wanted) == HeaderValue(b, wanted)
  {
    if a == [] {
      assert a + b == b;
    } else {
      assert (a + b)[1..] == a[1..] + b;
      HeaderAppend(a[1..], b, wanted);
    }
  }

  /** Each header that signing writes is the one that verifying reads. */
  lemma HeadersAreRead(f: Fields, signature: string)
    ensures var h := SignedHeaders(f, signature);
      && HeaderValue(h, "x-service-timestamp") == f.timestamp && HeaderValue(h, "x-service-nonce") == f.nonce
      && HeaderValue(h, "x-service-signature") == signature && HeaderValue(h, "x-service-key-id") == f.keyId
      && HeaderValue(h, "x-service-key-version") == f.keyVersion && HeaderValue(h, "x-operator-id") == f.operatorId
  {
    hide ToLower, Optional;
    TimestampName();
    NonceName();
    SignatureName();
    KeyIdName();
    KeyVersionName();
    OperatorName();
    var optional := Optional("If-Match", f.ifMatch) + Optional("Content-Type", f.contentType);
    var h := SignedHeaders(f, signature);
    HeaderAt(h, 0, "x-service-timestamp");
    HeaderAt(h, 1, "x-service-nonce");
    HeaderAt(h, 2, "x-service-signature");
    HeaderAt(h, 3, "x-service-key-id");
    HeaderAt(h, 4, "x-service-key-version");
    HeaderAt(h, 5, "x-operator-id");
  }

  lemma {:induction false} HeaderAt(headers: seq<Header>, k: nat, wanted: string)
    requires k < |headers| && ToLower(headers[k].name) == wanted
    requires forall i :: 0 <= i < k ==> ToLower(headers[i].name) != wanted
    ensures HeaderValue(headers, wanted) == headers[k].value
  {
    if k > 0 {
      HeaderAt(headers[1..], k - 1, wanted);
    }
  }

  lemma OptionalsAreRead(a: string, b: string)
    ensures var h := Optional("If-Match", a) + Optional("Content-Type", b);
      HeaderValue(h, "if-match") == a && HeaderValue(h, "content-type") == b
  {
    hide ToLower;
    IfMatchName();
    ContentTypeName();
  }

  lemma OptionalHeadersAreRead(f: Fields, signature: string)
    ensures var h := SignedHeaders(f, signature);
      HeaderValue(h, "if-match") == f.ifMatch && HeaderValue(h, "content-type") == f.contentType
  {
    hide ToLower, HeaderValue, Optional;
    TimestampName();
    NonceName();
    SignatureName();
    KeyIdName();
    KeyVersionName();
    OperatorName();
    var optional := Optional("If-Match", f.ifMatch) + Optional("Content-Type", f.contentType);
    var h := SignedHeaders(f, signature);
    assert h == h[..6] + optional;
    forall x | x in h[..6] ensures ToLower(x.name) != "if-match" && ToLower(x.name) != "content-type" {
      assert x == h[0] || x == h[1] || x == h[2] || x == h[3] || x == h[4] || x == h[5];
    }
    HeaderAppend(h[..6], optional, "if-match");
    HeaderAppend(h[..6], optional, "content-type");
    OptionalsAreRead(f.ifMatch, f.contentType);
  }

  /** Every header that verifying reads has arrived; others may have been added, and
      names may have changed case. */
  predicate HeadersArrive(sent: seq<Header>, received: seq<Header>) {
    && HeaderValue(received, "x-service-timestamp") == HeaderValue(sent, "x-service-timestamp")
    && HeaderValue(received, "x-service-nonce") == HeaderValue(sent, "x-service-nonce")
    && HeaderValue(received, "x-service-signature") == HeaderValue(sent, "x-service-signature")
    && HeaderValue(received, "x-service-key-id") == HeaderValue(sent, "x-service-key-id")
    && HeaderValue(received, "x-service-key-version") == HeaderValue(sent, "x-service-key-version")
    && HeaderValue(received, "x-operator-id") == HeaderValue(sent, "x-operator-id")
    && HeaderValue(received, "if-match") == HeaderValue(sent, "if-match")
    && HeaderValue(received, "content-type") == HeaderValue(sent, "content-type")
  }

  predicate Arrives(r: Request, sent: seq<Header>, v: Received) {
    v.method_ == r.method_ && v.target == r.target && v.body == r.body && HeadersArrive(sent, v.headers)
  }

  lemma DescribedIsSigned(r: Request, f: Fields, signature: string, v: Received)
    requires Arrives(r, SignedHeaders(f, signature), v)
    ensures Described(v) == WithNormalHeaders(r, f)
    ensures HeaderValue(v.headers, "x-service-key-id") == f.keyId && HeaderValue(v.headers, "x-service-key-version") == f.keyVersion
    ensures HeaderValue(v.headers, "x-service-signature") == signature
  {
    hide HeaderValue, SignedHeaders;
    HeadersAreRead(f, signature);
    OptionalHeadersAreRead(f, signature);
  }

  lemma DigestMatchesItself(digest: string)
    requires IsHexDigest(digest)
    ensures SignaturesMatch(digest, digest)
  {
    assert ToLower(digest) == digest by {
      forall i | 0 <= i < |digest| ensures Lower(digest[i]) == digest[i] {
        assert digest[i] in digest;
      }
    }
  }

  /** What the receiver must bring: the time within the skew, and the key listed first under
      its normalized id and version. */
  predicate ReceiverReady(v: Received, f: Fields, keys: seq<Key>, secret: string)
    requires IsTimestamp(f.timestamp)
  {
    WithinSkew(v, f.timestamp) && FindKey(keys, f.keyId, f.keyVersion) == Some(Key(f.keyId, f.keyVersion, secret))
  }

  /** A signed request that arrives is accepted exactly when the time is within the skew,
      its key is listed and its nonce is fresh; a seen nonce and a missing or failing
      store have answers of their own. (A key listed under another secret is no key.) */
  lemma SignedRequestVerifiesIff(x: Crypto, r: Request, key: Key, v: Received, keys: seq<Key>, answer: NonceAnswer)
    requires ValidCrypto(x) && Sign(x, r, key).Some? && Arrives(r, Sign(x, r, key).value.headers, v)
    requires forall k :: k in keys && k.id == Trim(key.id) && k.version == Trim(key.version) ==> k.secret == key.secret
    ensures var f := Normalize(x, r, key.id, key.version).value;
      && Verify(x, v, keys, answer) == (
        if ReceiverReady(v, f, keys, key.secret) then AskNonceStore(f, answer)
        else if !WithinSkew(v, f.timestamp) then Unauthorized(BadTimestamp)
        else Unauthorized(UnknownKey))
      && (Verify(x, v, keys, answer).Accepted? <==> ReceiverReady(v, f, keys, key.secret) && answer.Fresh?)
      && (ReceiverReady(v, f, keys, key.secret) ==>
            && (answer.Fresh? ==> Verify(x, v, keys, answer) == Accepted(f.operatorId, f.keyId, f.keyVersion))
            && (answer.Seen? ==> Verify(x, v, keys, answer) == Replayed)
            && (answer.NoStore? || answer.StoreFails? ==> Verify(x, v, keys, answer) == ReplayProtectionUnavailable))
  {
    hide Normalize, SignedHeaders, HeaderValue, FindKey, WithinSkew, SignaturesMatch, CanonicalText, NormalizeNonce, NormalizeIdentifier, IsHexDigest;
    var f := Normalize(x, r, key.id, key.version).value;
    var signature := x.hmac(key.secret, CanonicalText(f));
    NormalizeIsFixed(x, r, key.id, key.version);
    DescribedIsSigned(r, f, signature, v);
    DigestMatchesItself(signature);
    IdentifiersAreTrimmed(x, r, key.id, key.version);
  }

  lemma IdentifiersAreTrimmed(x: Crypto, r: Request, keyId: string, keyVersion: string)
    requires Normalize(x, r, keyId, keyVersion).Some?
    ensures var f := Normalize(x, r, keyId, keyVersion).value; f.keyId == Trim(keyId) && f.keyVersion == Trim(keyVersion)
  {
    hide NormalizeMethod, NormalizeIfMatch, NormalizeNonce, Canonicalize, NormalizeContentType, IsTimestamp;
  }

  /** The signature is the HMAC of no other text under any listed secret. */
  ghost predicate Unforged(x: Crypto, keys: seq<Key>, signature: string, text: string) {
    forall k, m :: k in keys && x.hmac(k.secret, m) == signature ==> m == text
  }

  /** The canonical fields of what was received, as verified. */
  function Verified(x: Crypto, v: Received): Option<Fields> {
    var r := Described(v);
    var nonce, operator := NormalizeNonce(r.nonce), NormalizeIdentifier(r.operatorId);
    var id := NormalizeIdentifier(HeaderValue(v.headers, "x-service-key-id"));
    var version := NormalizeIdentifier(HeaderValue(v.headers, "x-service-key-version"));
    if nonce.None? || operator.None? || id.None? || version.None? then None
    else Normalize(x, r.(nonce := nonce.value, operatorId := operator.value), id.value, version.value)
  }

  lemma AcceptedIsVerified(x: Crypto, v: Received, keys: seq<Key>, answer: NonceAnswer)
    requires Verify(x, v, keys, answer).Accepted?
    ensures Verified(x, v).Some?
    ensures var f := Verified(x, v).value;
      && Verify(x, v, keys, answer) == Accepted(f.operatorId, f.keyId, f.keyVersion)
      && exists k :: k in keys && SignaturesMatch(HeaderValue(v.headers, "x-service-signature"), x.hmac(k.secret, CanonicalText(f)))
  {
    hide Normalize, CanonicalText, SignaturesMatch, HeaderValue, NormalizeNonce, NormalizeIdentifier, WithinSkew;
  }

  /** The key that a request names: the first with its trimmed id and version. */
  ghost predicate NamesKey(v: Received, keys: seq<Key>, k: nat)
    requires k < |keys|
  {
    var id, version := Trim(HeaderValue(v.headers, "x-service-key-id")), Trim(HeaderValue(v.headers, "x-service-key-version"));
    && keys[k].id == id && keys[k].version == version
    && forall j :: 0 <= j < k ==> !(keys[j].id == id && keys[j].version == version)
  }

  lemma {:induction false} FoundAt(keys: seq<Key>, id: string, version: string) returns (k: nat)
    requires FindKey(keys, id, version).Some?
    ensures k < |keys| && keys[k] == FindKey(keys, id, version).value
    ensures forall j :: 0 <= j < k ==> !(keys[j].id == id && keys[j].version == version)
  {
    if keys[0].id == id && keys[0].version == version {
      k := 0;
    } else {
      k := FoundAt(keys[1..], id, version);
      k := k + 1;
    }
  }

  /** The key secret is long enough, the signature that key's over the canonical text. */
  ghost predicate SignedBy(x: Crypto, v: Received, key: Key) {
    && |key.secret| >= 16 && Verified(x, v).Some?
    && ToLower(HeaderValue(v.headers, "x-service-signature")) == x.hmac(key.secret, CanonicalText(Verified(x, v).value))
  }

  /** Whoever sent it: an accepted request is in time, is signed by the first listed key it
      names, and has a fresh nonce. */
  lemma AcceptedMeans(x: Crypto, v: Received, keys: seq<Key>, answer: NonceAnswer)
    requires Verify(x, v, keys, answer).Accepted?
    ensures var timestamp := HeaderValue(v.headers, "x-service-timestamp");
      && |timestamp| == 13 && AllDigits(timestamp) && v.maxSkewMs >= 1
      && NumberOf(timestamp) - v.maxSkewMs <= v.nowMs <= NumberOf(timestamp) + v.maxSkewMs
    ensures answer == Fresh
    ensures exists k :: 0 <= k < |keys| && NamesKey(v, keys, k) && SignedBy(x, v, keys[k])
  {
    hide Normalize, CanonicalText, HeaderValue, NormalizeNonce, FindKey, Trim, IsSafeId, ToLower;
    AcceptedIsVerified(x, v, keys, answer);
    var id, version := Trim(HeaderValue(v.headers, "x-service-key-id")), Trim(HeaderValue(v.headers, "x-service-key-version"));
    var k := FoundAt(keys, id, version);
    assert NamesKey(v, keys, k);
    assert SignedBy(x, v, keys[k]);
  }

  /** The canonical fields in terms of the texts they come from. */
  lemma FieldsMean(x: Crypto, r: Request, keyId: string, keyVersion: string)
    requires Normalize(x, r, keyId, keyVersion).Some?
    ensures var f := Normalize(x, r, keyId, keyVersion).value;
      && f.method_ == ToUpper(Trim(r.method_)) && f.timestamp == r.timestamp && f.nonce == ToLower(Trim(r.nonce))
      && f.ifMatch == Trim(r.ifMatch) && f.operatorId == Trim(r.operatorId) && f.keyId == Trim(keyId) && f.keyVersion == Trim(keyVersion)
      && f.bodyHash == x.sha256(r.body) && Canonicalize(r.target) == Ok(f.target) && NormalizeContentType(r.contentType) == Some(f.contentType)
  {
    hide Canonicalize, NormalizeContentType, Trim, ToUpper, ToLower, IsNonce, IsSafeId, HasBreak;
  }

  /** Likewise for what was verified, in terms of the headers received. */
  lemma VerifiedMeans(x: Crypto, v: Received)
    requires Verified(x, v).Some?
    ensures var f := Verified(x, v).value;
      && f.method_ == ToUpper(Trim(v.method_)) && f.bodyHash == x.sha256(v.body) && Canonicalize(v.target) == Ok(f.target)
      && f.timestamp == HeaderValue(v.headers, "x-service-timestamp")
      && f.nonce == ToLower(Trim(HeaderValue(v.headers, "x-service-nonce")))
      && f.ifMatch == Trim(HeaderValue(v.headers, "if-match"))
      && NormalizeContentType(HeaderValue(v.headers, "content-type")) == Some(f.contentType)
      && f.operatorId == Trim(HeaderValue(v.headers, "x-operator-id"))
      && f.keyId == Trim(HeaderValue(v.headers, "x-service-key-id"))
      && f.keyVersion == Trim(HeaderValue(v.headers, "x-service-key-version"))
  {
    hide Normalize, HeaderValue, Trim, ToUpper, ToLower, IsNonce, IsSafeId;
    var d := Described(v);
    var nonce, operator := NormalizeNonce(d.nonce).value, NormalizeIdentifier(d.operatorId).value;
    var id := NormalizeIdentifier(HeaderValue(v.headers, "x-service-key-id")).value;
    var version := NormalizeIdentifier(HeaderValue(v.headers, "x-service-key-version")).value;
    FieldsMean(x, d.(nonce := nonce, operatorId := operator), id, version);
    LowerTwice(Trim(d.nonce));
    LowerKeepsTrimmed(Trim(d.nonce));
    TrimOfTrimmed(nonce);
    TrimOfTrimmed(operator);
    TrimOfTrimmed(id);
    TrimOfTrimmed(version);
  }

  /** An accepted request that carries a signature made for `r` is `r` but for what the
      signature leaves open: case and white space around the method, white space around header
      values, the order and spelling of query and Content-Type parameters. */
  lemma AcceptedRequestIsTheSignedOne(x: Crypto, r: Request, key: Key, v: Received, keys: seq<Key>, answer: NonceAnswer)
    requires ValidCrypto(x) && Sign(x, r, key).Some? && Verify(x, v, keys, answer).Accepted?
    requires ToLower(HeaderValue(v.headers, "x-service-signature")) == Sign(x, r, key).value.signature
    requires Unforged(x, keys, Sign(x, r, key).value.signature, CanonicalText(Normalize(x, r, key.id, key.version).value))
    ensures Verified(x, v) == Normalize(x, r, key.id, key.version)
    ensures ToUpper(Trim(v.method_)) == ToUpper(Trim(r.method_)) && x.sha256(v.body) == x.sha256(r.body)
    ensures PathOf(v.target) == PathOf(r.target)
    ensures PairsOf(v.target).Some? && PairsOf(r.target).Some?
    ensures multiset(PairsOf(v.target).value) == multiset(PairsOf(r.target).value)
    ensures HeaderValue(v.headers, "x-service-timestamp") == r.timestamp
    ensures ToLower(Trim(HeaderValue(v.headers, "x-service-nonce"))) == ToLower(Trim(r.nonce))
    ensures Trim(HeaderValue(v.headers, "if-match")) == Trim(r.ifMatch)
    ensures NormalizeContentType(HeaderValue(v.headers, "content-type")) == NormalizeContentType(r.contentType)
    ensures Trim(HeaderValue(v.headers, "x-operator-id")) == Trim(r.operatorId)
    ensures Trim(HeaderValue(v.headers, "x-service-key-id")) == Trim(key.id)
    ensures Trim(HeaderValue(v.headers, "x-service-key-version")) == Trim(key.version)
  {
    AcceptedIsVerified(x, v, keys, answer);
    var f, g := Normalize(x, r, key.id, key.version).value, Verified(x, v).value;
    assert CanonicalText(g) == CanonicalText(f);
    SameTextSameFields(x, r, key, v);
    FieldsMean(x, r, key.id, key.version);
    VerifiedMeans(x, v);
    TargetsAgree(v.target, r.target);
    hide *;
  }

  lemma TargetsAgree(a: string, b: string)
    ensures Canonicalize(a).Ok? && Canonicalize(a) == Canonicalize(b) ==>
      && PathOf(a) == PathOf(b) && PairsOf(a).Some? && PairsOf(b).Some?
      && multiset(PairsOf(a).value) == multiset(PairsOf(b).value)
  {
    hide Canonicalize, Form, PathOf, PairsOf;
    if Canonicalize(a).Ok? && Canonicalize(a) == Canonicalize(b) {
      CanonicalizeIff(a, Canonicalize(a).value);
      CanonicalizeIff(b, Canonicalize(a).value);
      SameCanonicalIff(a, b);
    }
  }

  /** Thirty-six characters: groups of 8, 4, 4, 4 and 12 hexadecimal digits between dashes,
      version 4, in lower case. */
  ghost predicate IsLowerUuid(s: string) {
    && |s| == 36 && s[8] == s[13] == s[18] == s[23] == '-' && s[14] == '4' && s[19] in {'8', '9', 'a', 'b'}
    && (forall i :: 0 <= i < 36 && i !in {8, 13, 18, 23} ==> '0' <= s[i] <= '9' || 'a' <= s[i] <= 'f')
  }

  ghost predicate IsIdentifier(s: string) {
    && 1 <= |s| <= 128
    && forall c :: c in s ==>
         'a' <= c <= 'z' || 'A' <= c <= 'Z' || '0' <= c <= '9' || c == '.' || c == '_' || c == ':' || c == '@' || c == '-'
  }

  /** What can be signed: a method of letters, a well-formed target, thirteen digits of time,
      a UUID, headers without line breaks and safe identifiers. */
  ghost predicate Signable(r: Request, key: Key) {
    && |key.secret| >= 16
    && Trim(r.method_) != "" && (forall c :: c in ToUpper(Trim(r.method_)) ==> 'A' <= c <= 'Z')
    && ValidTarget(r.target) && PairsOf(r.target).Some?
    && |r.timestamp| == 13 && (forall i :: 0 <= i < 13 ==> '0' <= r.timestamp[i] <= '9')
    && IsLowerUuid(ToLower(Trim(r.nonce)))
    && (forall c :: c in Trim(r.ifMatch) ==> c != '\r' && c != '\n' && c != '\0')
    && Parse(r.contentType).Some?
    && IsIdentifier(Trim(r.operatorId)) && IsIdentifier(Trim(key.id)) && IsIdentifier(Trim(key.version))
  }

  lemma NonceIff(value: string)
    ensures NormalizeNonce(value).Some? <==> IsLowerUuid(ToLower(Trim(value)))
  {
    hide Trim, ToLower;
    var s := ToLower(Trim(value));
    if |s| == 36 {
      assert s[19] in "89ab" <==> s[19] in {'8', '9', 'a', 'b'};
      if IsNonce(s) {
        assert s[8] == '-' && s[13] == '-' && s[18] == '-' && s[23] == '-';
      }
    }
  }

  lemma IdentifierIff(value: string)
    ensures NormalizeIdentifier(value).Some? <==> IsIdentifier(Trim(value))
  {
    hide Trim;
  }

  lemma MethodIff(value: string)
    ensures NormalizeMethod(value).Some? <==> Trim(value) != "" && forall c :: c in ToUpper(Trim(value)) ==> 'A' <= c <= 'Z'
  {
    hide Trim, ToUpper;
  }

  lemma TargetIff(value: string)
    ensures Canonicalize(value).Ok? <==> ValidTarget(value) && PairsOf(value).Some?
  {
    hide Form, PathOf, PairsOf, ValidTarget, Canonicalize;
    if Canonicalize(value).Ok? {
      CanonicalizeIff(value, Canonicalize(value).value);
    }
    if PairsOf(value).Some? {
      CanonicalizeIff(value, Form(PathOf(value), PairsOf(value).value));
    }
  }

  /** Exactly the signable requests are signed. */
  lemma SignsIff(x: Crypto, r: Request, key: Key)
    ensures Sign(x, r, key).Some? <==> Signable(r, key)
  {
    MethodIff(r.method_);
    TargetIff(r.target);
    NonceIff(r.nonce);
    IdentifierIff(r.operatorId);
    IdentifierIff(key.id);
    IdentifierIff(key.version);
    ContentTypeIff(r.contentType);
    IfMatchIff(r.ifMatch);
    hide NormalizeMethod, Canonicalize, NormalizeNonce, NormalizeIdentifier, NormalizeIfMatch, NormalizeContentType, Trim, ToUpper,
         ToLower, ValidTarget, PairsOf, Parse, IsLowerUuid, IsIdentifier, CanonicalText, SignedHeaders;
  }

  lemma IfMatchIff(value: string)
    ensures NormalizeIfMatch(value).Some? <==> forall c :: c in Trim(value) ==> c != '\r' && c != '\n' && c != '\0'
  {
    hide Trim;
  }

  lemma ContentTypeIff(value: string)
    ensures NormalizeContentType(value).Some? <==> Parse(value).Some?
  {
    hide Parse;
  }

  /** The signed text, line by line. */
  lemma CanonicalTextReads(x: Crypto, r: Request, keyId: string, keyVersion: string)
    requires ValidCrypto(x) && Normalize(x, r, keyId, keyVersion).Some?
    ensures var f := Normalize(x, r, keyId, keyVersion).value;
      Split(CanonicalText(f), '\n') ==
        ["MBFD-CAMERA-SERVICE-HMAC-SHA256-V1", f.method_, f.target, f.bodyHash, f.timestamp, f.nonce, f.ifMatch, f.contentType,
         f.operatorId, f.keyId, f.keyVersion]
  {
    hide Normalize, Join, Split;
    var f := Normalize(x, r, keyId, keyVersion).value;
    FieldsAreOneLine(x, r, keyId, keyVersion);
    SplitJoin(Lines(f), '\n');
  }

  lemma SameTextSameFields(x: Crypto, r: Request, key: Key, v: Received)
    requires ValidCrypto(x) && Normalize(x, r, key.id, key.version).Some? && Verified(x, v).Some?
    requires CanonicalText(Normalize(x, r, key.id, key.version).value) == CanonicalText(Verified(x, v).value)
    ensures Normalize(x, r, key.id, key.version) == Verified(x, v)
  {
    hide Normalize, CanonicalText, HeaderValue, NormalizeNonce, NormalizeIdentifier;
    var d := Described(v);
    var nonce, operator := NormalizeNonce(d.nonce).value, NormalizeIdentifier(d.operatorId).value;
    var id := NormalizeIdentifier(HeaderValue(v.headers, "x-service-key-id")).value;
    var version := NormalizeIdentifier(HeaderValue(v.headers, "x-service-key-version")).value;
    CanonicalTextIff(x, r, key.id, key.version, d.(nonce := nonce, operatorId := operator), id, version);
  }

  // --- A request that can be signed and verified ---

  function Repeat(c: char, n: nat): (r: string)
    ensures |r| == n && forall i :: 0 <= i < n ==> r[i] == c
  {
    seq(n, i => c)
  }

  function SampleNonce(): (r: string)
    ensures IsNonce(r) && ToLower(r) == r
  {
    seq(36, i => if i in [8, 13, 18, 23] then '-' else if i == 14 then '4' else if i == 19 then '8' else '0')
  }

  function SampleCrypto(): (x: Crypto)
    ensures ValidCrypto(x)
  {
    Crypto((b: Bytes) => Repeat('0', 64), (secret: string, m: string) => Repeat('0', 64))
  }

  lemma SampleIsSigned() returns (x: Crypto, r: Request, key: Key)
    ensures ValidCrypto(x) && Sign(x, r, key).Some?
    ensures Trim(key.id) == key.id && Trim(key.version) == key.version
  {
    x, key := SampleCrypto(), Key("k", "1", Repeat('s', 16));
    r := Request("G", "/", [], Repeat('1', 13), SampleNonce(), "", "", "o");
    SampleIdentifiers();
    SampleMethod();
    SampleTarget();
    SampleTimes();
    hide *;
    PartsNormalize(x, r, key);
  }

  lemma PartsNormalize(x: Crypto, r: Request, key: Key)
    requires NormalizeMethod(r.method_).Some? && NormalizeIfMatch(r.ifMatch).Some? && NormalizeContentType(r.contentType).Some?
    requires NormalizeIdentifier(r.operatorId).Some? && NormalizeIdentifier(key.id).Some? && NormalizeIdentifier(key.version).Some?
    requires Canonicalize(r.target).Ok? && IsTimestamp(r.timestamp) && NormalizeNonce(r.nonce).Some? && |key.secret| >= MIN_SECRET
    ensures Sign(x, r, key).Some?
  {
    hide NormalizeMethod, Canonicalize, NormalizeIdentifier, NormalizeIfMatch, NormalizeNonce, IsTimestamp, NormalizeContentType, CanonicalText, SignedHeaders;
  }

  lemma SampleMethod()
    ensures NormalizeMethod("G").Some? && NormalizeIfMatch("").Some? && NormalizeContentType("").Some?
  {
    EmptyParses();
  }

  lemma SampleIdentifiers()
    ensures NormalizeIdentifier("o").Some? && NormalizeIdentifier("k").Some? && NormalizeIdentifier("1").Some?
    ensures Trim("k") == "k" && Trim("1") == "1"
  {
  }

  lemma SampleTimes()
    ensures IsTimestamp(Repeat('1', 13)) && NormalizeNonce(SampleNonce()).Some?
  {
    hide IsNonce, SampleNonce, Trim, ToLower;
    TrimOfTrimmed(SampleNonce());
  }

  lemma SampleTarget()
    ensures Canonicalize("/").Ok?
  {
    IndexOfAbsent("/", '?');
  }

  /** Signing and verifying do meet: some signed request is accepted by its receiver. */
  lemma SampleIsAccepted() returns (x: Crypto, r: Request, key: Key, v: Received)
    ensures ValidCrypto(x) && Sign(x, r, key).Some? && Arrives(r, Sign(x, r, key).value.headers, v)
    ensures Verify(x, v, [key], Fresh).Accepted?
    ensures v.nowMs == NumberOf(Normalize(x, r, key.id, key.version).value.timestamp)
  {
    x, r, key := SampleIsSigned();
    hide Normalize, Trim, Verify, CanonicalText, SignedHeaders, HeaderValue;
    var f := Normalize(x, r, key.id, key.version).value;
    NormalizeIsFixed(x, r, key.id, key.version);
    IdentifiersAreTrimmed(x, r, key.id, key.version);
    v := Received(r.method_, r.target, r.body, Sign(x, r, key).value.headers, NumberOf(f.timestamp), 1);
    SignedRequestVerifiesIff(x, r, key, v, [key], Fresh);
  }
}
