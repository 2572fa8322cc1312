/**
 * Bearer-token verification and identity federation (Signer.js).
 *
 * The cryptographic and library calls the file makes (AES-256-CBC, UTF-8
 * conversion, `jws.sign`, `jws.decode`, `JSON.stringify`/`JSON.parse`, the
 * Google OAuth2 client and the outbound HTTP helper) are parameters of the
 * model, gathered in the `Primitives` and `Network` records; the model states
 * exactly how the file composes them.
 */
module Signer {
  import opened Wrappers
  import opened Json
  import opened JsString

  // ---------------------------------------------------------------------------
  // Bytes and hexadecimal text
  // ---------------------------------------------------------------------------

  type Byte = b: int | 0 <= b < 256
  type Bytes = seq<Byte>

  /** Length in bytes of the AES initialisation vector. */
  const IV_LENGTH: nat := 16

  const HEX_DIGITS: string := "0123456789abcdef"

  /** The value of a hexadecimal digit in either case. */
  function HexDigitValue(c: char): (v: Option<nat>)
    ensures v.Some? ==> v.value < 16
  {
    if '0' <= c <= '9' then Some(c as nat - '0' as nat)
    else if 'a' <= c <= 'f' then Some(c as nat - 'a' as nat + 10)
    else if 'A' <= c <= 'F' then Some(c as nat - 'A' as nat + 10)
    else None
  }

  /** `buffer.toString("hex")`: two lower-case digits per byte. */
  function HexEncode(bytes: Bytes): (s: string)
    ensures |s| == 2 * |bytes|
    ensures forall i :: 0 <= i < |s| ==> HexDigitValue(s[i]).Some?
  {
    if bytes == [] then ""
    else [HEX_DIGITS[bytes[0] / 16], HEX_DIGITS[bytes[0] % 16]] + HexEncode(bytes[1..])
  }

  /**
   * `new Buffer(s, "hex")`: decodes digit pairs from the start and stops at
   * the first pair that is not two hexadecimal digits (an odd last digit is
   * dropped); it never throws.
   */
  function HexDecode(s: string): (bytes: Bytes)
    ensures |bytes| <= |s| / 2
  {
    if |s| < 2 then []
    else
      match (HexDigitValue(s[0]), HexDigitValue(s[1]))
      case (Some(hi), Some(lo)) => [hi * 16 + lo] + HexDecode(s[2..])
      case _ => []
  }

  lemma HexDigitsDecode(d: nat)
    requires d < 16
    ensures HexDigitValue(HEX_DIGITS[d]) == Some(d)
  {
  }

  /** Hex decoding undoes hex encoding. */
  lemma {:induction false} HexRoundTrip(bytes: Bytes)
    ensures HexDecode(HexEncode(bytes)) == bytes
  {
    if bytes != [] {
      var b := bytes[0];
      HexDigitsDecode(b / 16);
      HexDigitsDecode(b % 16);
      var s := HexEncode(bytes);
      assert s[2..] == HexEncode(bytes[1..]);
      HexRoundTrip(bytes[1..]);
      assert bytes == [b] + bytes[1..];
    }
  }

  // ---------------------------------------------------------------------------
  // The library calls the file makes
  // ---------------------------------------------------------------------------

  /**
   * `utf8Encode`/`utf8Decode`: `new Buffer(text)` and `buffer.toString()`;
   * `aesEncrypt(key, iv, plain)`: the AES-256-CBC cipher with its final block;
   * `aesDecrypt(key, iv, ct)`: the decipher, which throws on a wrong key or IV
   * length or a bad padding; `jwsSign(payload, secret)`: `jws.sign` with the
   * header `{alg: "HS256"}`; `jwsPayload(token)`: `jws.decode(token).payload`,
   * which throws on a malformed token; `stringify`/`parse`: `JSON.stringify`
   * and `JSON.parse`; `numberText(n)`: `String(n)`, the JavaScript text of a
   * number.
   */
  datatype Primitives = Primitives(
    utf8Encode: string -> Bytes,
    utf8Decode: Bytes -> string,
    aesEncrypt: (Bytes, Bytes, Bytes) -> Bytes,
    aesDecrypt: (Bytes, Bytes, Bytes) -> Result<Bytes>,
    jwsSign: (string, string) -> string,
    jwsPayload: string -> Result<string>,
    stringify: Value -> string,
    parse: string -> Result<Value>,
    numberText: real -> string)

  // ---------------------------------------------------------------------------
  // Symmetric cipher envelope: `<iv hex>:<ciphertext hex>`
  // ---------------------------------------------------------------------------

  /** `encrypt`: the envelope for `text` under `encryptSecret` with the random IV `iv`. */
  function Encrypt(text: string, encryptSecret: string, iv: Bytes, p: Primitives): string
  {
    HexEncode(iv) + ":" + HexEncode(p.aesEncrypt(p.utf8Encode(encryptSecret), iv, p.utf8Encode(text)))
  }

  /**
   * The split inside `decrypt`: the IV text is everything before the first
   * `:`, the ciphertext text is all the remaining parts joined back with `:`.
   */
  function SplitEnvelope(text: string): (parts: (string, string))
    ensures ':' !in parts.0
    ensures ':' !in text ==> parts == (text, "")
    ensures ':' in text ==>
      var i := IndexOf(text, ':');
      parts == (text[..i], text[i + 1..])
  {
    var textParts := Split(text, ':');
    SplitEnvelopeSpec(text);
    (textParts[0], Join(textParts[1..], ':'))
  }

  lemma SplitEnvelopeSpec(text: string)
    ensures ':' !in text ==> Split(text, ':')[0] == text && Join(Split(text, ':')[1..], ':') == ""
    ensures ':' in text ==>
      var i := IndexOf(text, ':');
      Split(text, ':')[0] == text[..i] && Join(Split(text, ':')[1..], ':') == text[i + 1..]
  {
    SplitFirstPart(text, ':');
    var i := IndexOf(text, ':');
    if i != -1 {
      var rest := Split(text[i + 1..], ':');
      assert Split(text, ':')[1..] == rest;
      JoinSplit(text[i + 1..], ':');
    }
  }

  /** `decrypt`: splits the envelope, hex-decodes both halves and deciphers. */
  function Decrypt(text: string, encryptSecret: string, p: Primitives): Result<string>
  {
    var (ivText, cipherText) := SplitEnvelope(text);
    match p.aesDecrypt(p.utf8Encode(encryptSecret), HexDecode(ivText), HexDecode(cipherText))
    case Err(e) => Err(e)
    case Ok(plain) => Ok(p.utf8Decode(plain))
  }

  /** An envelope splits back into the hex of the IV and the hex of the ciphertext. */
  lemma SplitEncryptedEnvelope(ivHex: string, cipherHex: string)
    requires ':' !in ivHex
    ensures SplitEnvelope(ivHex + ":" + cipherHex) == (ivHex, cipherHex)
  {
    var text := ivHex + ":" + cipherHex;
    assert text[|ivHex|] == ':';
    assert text[..|ivHex|] == ivHex;
    assert text[|ivHex| + 1..] == cipherHex;
  }

  /**
   * Decrypting an envelope made by `encrypt` gives the text back, whenever the
   * cipher inverts itself for that key and IV and UTF-8 decoding inverts encoding.
   */
  lemma DecryptEncrypt(text: string, encryptSecret: string, iv: Bytes, p: Primitives)
    requires
      var key := p.utf8Encode(encryptSecret);
      p.aesDecrypt(key, iv, p.aesEncrypt(key, iv, p.utf8Encode(text))) == Ok(p.utf8Encode(text))
    requires p.utf8Decode(p.utf8Encode(text)) == text
    ensures Decrypt(Encrypt(text, encryptSecret, iv, p), encryptSecret, p) == Ok(text)
  {
    var key := p.utf8Encode(encryptSecret);
    var ct := p.aesEncrypt(key, iv, p.utf8Encode(text));
    var ivHex := HexEncode(iv);
    SplitEncryptedEnvelope(ivHex, HexEncode(ct));
    HexRoundTrip(iv);
    HexRoundTrip(ct);
  }

  // ---------------------------------------------------------------------------
  // Token codec
  // ---------------------------------------------------------------------------

  /** `sign`: the claims are serialised, encrypted, and the envelope is signed. */
  function Sign(payload: Value, secret: string, encryptSecret: string, iv: Bytes, p: Primitives): string
  {
    p.jwsSign(Encrypt(p.stringify(payload), encryptSecret, iv, p), secret)
  }

  /** `JSON.parse(decrypt(jws.decode(token).payload, encryptSecret))`, any throw becoming `Err`. */
  function RecoverClaims(token: string, encryptSecret: string, p: Primitives): Result<Value>
  {
    match p.jwsPayload(token)
    case Err(e) => Err(e)
    case Ok(payload) =>
      match Decrypt(payload, encryptSecret, p)
      case Err(e) => Err(e)
      case Ok(text) => p.parse(text)
  }

  // ---------------------------------------------------------------------------
  // Verification guards
  // ---------------------------------------------------------------------------

  /** The messages of the rejections; the texts themselves live in the error catalogue. */
  datatype AuthMessage =
    | NotFound
    | Unauthorized
    | UnauthorizedWithError(cause: string)
    | Expired
    | StrictLogin

  /** The error catalogue's texts for the four authentication errors. */
  datatype AuthTexts = AuthTexts(notFound: string, unauthorized: string, expired: string, strictLogin: string)

  /** The message string a rejection carries. */
  function MessageText(m: AuthMessage, t: AuthTexts): string
  {
    match m
    case NotFound => t.notFound
    case Unauthorized => t.unauthorized
    case UnauthorizedWithError(cause) => t.unauthorized + " with error: " + cause
    case Expired => t.expired
    case StrictLogin => t.strictLogin
  }

  /** The rejected promise's value `{message, expire, id?}`; `id` is absent unless expired. */
  datatype Rejection = Rejection(message: AuthMessage, expire: bool, id: Option<Value>)

  /** What a guard settles with: the claims, a rejection, or (weak guard only) `null`. */
  datatype GuardResult = Accepted(claims: Value) | Rejected(rejection: Rejection) | NoIdentity

  /** `isValidHeader`: despite its name, true exactly when the header is missing or empty. */
  predicate IsValidHeader(header: Option<string>)
  {
    header.None? || header.value == ""
  }

  /** The scheme stripping: a header of exactly two space-separated parts yields the second. */
  function StripScheme(header: string): string
  {
    var splitted := Split(header, ' ');
    if |splitted| == 2 then splitted[1] else header
  }

  lemma StripSchemeSpec(header: string)
    ensures Count(header, ' ') == 1 ==> StripScheme(header) == header[IndexOf(header, ' ') + 1..]
    ensures Count(header, ' ') != 1 ==> StripScheme(header) == header
  {
    if Count(header, ' ') == 1 {
      SplitFirstPart(header, ' ');
      var i := IndexOf(header, ' ');
      var rest := Split(header[i + 1..], ' ');
      assert |rest| == 1;
      JoinSplit(header[i + 1..], ' ');
    }
  }

  /** The `TypeError` of converting an object whose `toString` cannot be called. */
  const TO_PRIMITIVE_CAUSE: string := "Cannot convert object to primitive value"

  /**
   * The string form of a parsed object: `[object Object]` from the inherited
   * `toString`, unless an own `toString` property (never callable in parsed
   * JSON) hides it, and then the conversion throws.
   */
  function ObjectText(fields: map<string, Value>): Result<string>
  {
    if "toString" in fields then Err(TO_PRIMITIVE_CAUSE) else Ok("[object Object]")
  }

  /** `String(v)` of an array element as `join` writes it: `null` is empty, a nested array is joined. */
  function ElementText(v: Value, p: Primitives): (r: Result<string>)
    ensures r.Err? ==> r.error == TO_PRIMITIVE_CAUSE
    decreases v, 1
  {
    match v
    case Null => Ok("")
    case Bool(b) => Ok(if b then "true" else "false")
    case Number(n) => Ok(p.numberText(n))
    case Str(s) => Ok(s)
    case Array(items) => JoinText(items, p)
    case Object(fields) => ObjectText(fields)
  }

  /** `items.join(",")`, which throws at the first element that cannot be converted. */
  function JoinText(items: seq<Value>, p: Primitives): (r: Result<string>)
    ensures r.Err? ==> r.error == TO_PRIMITIVE_CAUSE
    ensures items == [] ==> r == Ok("")
    decreases items, 0
  {
    if items == [] then Ok("")
    else
      match ElementText(items[0], p)
      case Err(e) => Err(e)
      case Ok(first) =>
        if |items| == 1 then Ok(first)
        else
          match JoinText(items[1..], p)
          case Err(e) => Err(e)
          case Ok(rest) => Ok(first + "," + rest)
  }

  /**
   * The string `jwt.exp` becomes in `jwt.exp <= now`, if any. Both sides are
   * converted to primitives: a string stays itself, an array is joined, an
   * object goes through `toString`, and the two strings compare as strings.
   * `undefined`, `null`, booleans and numbers compare as numbers instead,
   * against the timestamp's numeric value, which is `NaN`.
   */
  function ExpText(claims: Value, p: Primitives): Option<Result<string>>
  {
    match Get(claims, "exp")
    case Some(Str(exp)) => Some(Ok(exp))
    case Some(Array(items)) => Some(JoinText(items, p))
    case Some(Object(fields)) => Some(ObjectText(fields))
    case _ => None
  }

  /** `jwt.exp <= now`: whether the claims have expired, or the `TypeError` the comparison throws. */
  function Expiry(claims: Value, now: string, p: Primitives): (r: Result<bool>)
    ensures r.Err? ==> r.error == TO_PRIMITIVE_CAUSE
  {
    match ExpText(claims, p)
    case None => Ok(false)
    case Some(Err(cause)) => Err(cause)
    case Some(Ok(exp)) => Ok(LexLe(exp, now))
  }

  predicate IsExpired(claims: Value, now: string, p: Primitives)
  {
    Expiry(claims, now, p) == Ok(true)
  }

  predicate NotExpired(claims: Value, now: string, p: Primitives)
  {
    Expiry(claims, now, p) == Ok(false)
  }

  /** Stages shared by both guards: the claims recovered from a present header, or a rejection. */
  datatype Unsealed = Failed(rejection: Rejection) | Unexpired(claims: Value)

  /** Steps shared by both guards after the header check: strip, recover, check expiry. */
  function Unseal(header: string, encryptSecret: string, now: string, p: Primitives): Unsealed
  {
    match RecoverClaims(StripScheme(header), encryptSecret, p)
    case Err(cause) => Failed(Rejection(UnauthorizedWithError(cause), false, None))
    case Ok(jwt) =>
      match ReadProp(jwt, "exp")
      case Err(cause) => Failed(Rejection(UnauthorizedWithError(cause), false, None))
      case Ok(_) =>
        match Expiry(jwt, now, p)
        case Err(cause) => Failed(Rejection(UnauthorizedWithError(cause), false, None))
        case Ok(expired) =>
          if expired then Failed(Rejection(Expired, true, Get(jwt, "id")))
          else Unexpired(jwt)
  }

  /** `!jwt.email || !jwt.password`. */
  predicate MissingCredentials(claims: Value)
  {
    !Truthy(Get(claims, "email")) || !Truthy(Get(claims, "password"))
  }

  /** `vibraniumLambdaShield`: the strict guard. */
  function StrictGuard(header: Option<string>, encryptSecret: string, updatingPassword: bool,
                       now: string, p: Primitives): GuardResult
  {
    if IsValidHeader(header) then Rejected(Rejection(NotFound, false, None))
    else
      match Unseal(header.value, encryptSecret, now, p)
      case Failed(r) => Rejected(r)
      case Unexpired(jwt) =>
        if MissingCredentials(jwt) && !updatingPassword then Rejected(Rejection(StrictLogin, false, None))
        else Accepted(jwt)
  }

  /** `weakLambdaShield`: the weak guard. */
  function WeakGuard(header: Option<string>, encryptSecret: string, now: string, p: Primitives): GuardResult
  {
    if IsValidHeader(header) then NoIdentity
    else
      match Unseal(header.value, encryptSecret, now, p)
      case Failed(r) => Rejected(r)
      case Unexpired(jwt) => Accepted(jwt)
  }

  // Properties of the guards

  /**
   * A missing or empty header: strict rejects with NOT_FOUND, weak settles
   * with `null`, the gate answers 401 UNAUTHORIZED; nothing is decoded.
   */
  lemma AbsentHeader(header: Option<string>, encryptSecret: string, updatingPassword: bool,
                     now: string, p: Primitives, q: Primitives)
    requires header.None? || header.value == ""
    ensures StrictGuard(header, encryptSecret, updatingPassword, now, p) == Rejected(Rejection(NotFound, false, None))
    ensures WeakGuard(header, encryptSecret, now, p) == NoIdentity
    ensures LoginBeforeRequest(header, encryptSecret, p) == Respond401(Unauthorized)
    ensures StrictGuard(header, encryptSecret, updatingPassword, now, p) == StrictGuard(header, encryptSecret, updatingPassword, now, q)
  {
  }

  /** Claims that cannot be recovered: both guards reject with UNAUTHORIZED and the cause, `expire: false`. */
  lemma UnrecoverableClaims(header: string, encryptSecret: string, updatingPassword: bool,
                            now: string, p: Primitives, cause: string, t: AuthTexts)
    requires header != ""
    requires RecoverClaims(StripScheme(header), encryptSecret, p) == Err(cause)
    ensures StrictGuard(Some(header), encryptSecret, updatingPassword, now, p)
         == Rejected(Rejection(UnauthorizedWithError(cause), false, None))
    ensures WeakGuard(Some(header), encryptSecret, now, p)
         == Rejected(Rejection(UnauthorizedWithError(cause), false, None))
    ensures MessageText(UnauthorizedWithError(cause), t) == t.unauthorized + " with error: " + cause
  {
  }

  /** An expired token is rejected as EXPIRED with its `id`, whatever else the claims hold. */
  lemma ExpiredToken(header: string, encryptSecret: string, updatingPassword: bool,
                     now: string, p: Primitives, jwt: Value)
    requires header != ""
    requires RecoverClaims(StripScheme(header), encryptSecret, p) == Ok(jwt)
    requires IsExpired(jwt, now, p)
    ensures StrictGuard(Some(header), encryptSecret, updatingPassword, now, p)
         == Rejected(Rejection(Expired, true, Get(jwt, "id")))
    ensures WeakGuard(Some(header), encryptSecret, now, p)
         == Rejected(Rejection(Expired, true, Get(jwt, "id")))
  {
  }

  /** A token without `exp` is never expired: `undefined <= now` is false. */
  lemma NoExpiryNeverExpires(jwt: Value, now: string, p: Primitives)
    requires Get(jwt, "exp").None?
    ensures NotExpired(jwt, now, p)
  {
  }

  /**
   * A non-string `exp`: `null`, booleans and numbers never expire against a
   * timestamp; an empty array is the empty string, so it has always expired;
   * an object is `[object Object]`, or throws when it has its own `toString`.
   */
  lemma NonStringExpiry(jwt: Value, now: string, p: Primitives)
    ensures Get(jwt, "exp").Some? && Get(jwt, "exp").value.Null? ==> NotExpired(jwt, now, p)
    ensures Get(jwt, "exp").Some? && (Get(jwt, "exp").value.Bool? || Get(jwt, "exp").value.Number?) ==>
      NotExpired(jwt, now, p)
    ensures Get(jwt, "exp") == Some(Array([])) ==> IsExpired(jwt, now, p)
    ensures Get(jwt, "exp").Some? && Get(jwt, "exp").value.Object? ==>
      if "toString" in Get(jwt, "exp").value.fields then Expiry(jwt, now, p) == Err(TO_PRIMITIVE_CAUSE)
      else Expiry(jwt, now, p) == Ok(LexLe("[object Object]", now))
  {
  }

  /**
   * An `exp` that cannot be converted makes the comparison throw: both guards
   * reject with UNAUTHORIZED and the conversion's `TypeError`, even for claims
   * that carry `email` and `password`.
   */
  lemma UnconvertibleExpiry(header: string, encryptSecret: string, updatingPassword: bool,
                            now: string, p: Primitives, jwt: Value)
    requires header != ""
    requires RecoverClaims(StripScheme(header), encryptSecret, p) == Ok(jwt)
    requires !jwt.Null? && Expiry(jwt, now, p).Err?
    ensures StrictGuard(Some(header), encryptSecret, updatingPassword, now, p)
         == Rejected(Rejection(UnauthorizedWithError(TO_PRIMITIVE_CAUSE), false, None))
    ensures WeakGuard(Some(header), encryptSecret, now, p)
         == Rejected(Rejection(UnauthorizedWithError(TO_PRIMITIVE_CAUSE), false, None))
  {
  }

  /** A token expired at `now` stays expired at every later `now`. */
  lemma ExpiryIsMonotone(jwt: Value, now: string, later: string, p: Primitives)
    requires IsExpired(jwt, now, p)
    requires LexLe(now, later)
    ensures IsExpired(jwt, later, p)
  {
    var exp := ExpText(jwt, p).value.value;
    LexLeTransitive(exp, now, later);
  }

  /** The strict guard answers STRICT_LOGIN exactly for unexpired claims lacking `email` or `password`, outside password updates. */
  lemma StrictLoginExactly(header: Option<string>, encryptSecret: string, updatingPassword: bool,
                           now: string, p: Primitives)
    ensures (StrictGuard(header, encryptSecret, updatingPassword, now, p).Rejected?
             && StrictGuard(header, encryptSecret, updatingPassword, now, p).rejection.message == StrictLogin)
        <==>
            && !IsValidHeader(header)
            && RecoverClaims(StripScheme(header.value), encryptSecret, p).Ok?
            && var jwt := RecoverClaims(StripScheme(header.value), encryptSecret, p).value;
            && !jwt.Null? && NotExpired(jwt, now, p) && MissingCredentials(jwt) && !updatingPassword
  {
  }

  /** The strict guard accepts exactly the recovered, unexpired claims that pass the credentials check, unchanged. */
  lemma StrictAcceptsExactly(header: Option<string>, encryptSecret: string, updatingPassword: bool,
                             now: string, p: Primitives, claims: Value)
    ensures StrictGuard(header, encryptSecret, updatingPassword, now, p) == Accepted(claims)
        <==>
            && !IsValidHeader(header)
            && RecoverClaims(StripScheme(header.value), encryptSecret, p) == Ok(claims)
            && !claims.Null? && NotExpired(claims, now, p)
            && (updatingPassword || !MissingCredentials(claims))
  {
  }

  /** The weak guard accepts exactly the recovered, unexpired claims, unchanged. */
  lemma WeakAcceptsExactly(header: Option<string>, encryptSecret: string, now: string,
                           p: Primitives, claims: Value)
    ensures WeakGuard(header, encryptSecret, now, p) == Accepted(claims)
        <==>
            && !IsValidHeader(header)
            && RecoverClaims(StripScheme(header.value), encryptSecret, p) == Ok(claims)
            && !claims.Null? && NotExpired(claims, now, p)
  {
  }

  /**
   * On a present header the weak guard is the strict guard in password-update
   * mode; so it never answers STRICT_LOGIN.
   */
  lemma WeakIsStrictWhileUpdating(header: Option<string>, encryptSecret: string, now: string, p: Primitives)
    ensures !IsValidHeader(header) ==>
      WeakGuard(header, encryptSecret, now, p) == StrictGuard(header, encryptSecret, true, now, p)
    ensures !(WeakGuard(header, encryptSecret, now, p).Rejected?
              && WeakGuard(header, encryptSecret, now, p).rejection.message == StrictLogin)
  {
  }

  /** Every strict rejection has `expire` set exactly when it is EXPIRED, and only then carries an `id`. */
  lemma RejectionShape(header: Option<string>, encryptSecret: string, updatingPassword: bool,
                       now: string, p: Primitives)
    ensures var g := StrictGuard(header, encryptSecret, updatingPassword, now, p);
      g.Rejected? ==>
        && (g.rejection.expire <==> g.rejection.message == Expired)
        && (g.rejection.message != Expired ==> g.rejection.id.None?)
        && g.rejection.message != Unauthorized
  {
  }

  /**
   * A token minted by `sign` and presented bare or after a scheme passes the
   * strict guard with its claims unchanged, when the library calls invert
   * each other, the claims carry `email` and `password` and have not expired.
   */
  lemma SignThenVerify(claims: Value, secret: string, encryptSecret: string, iv: Bytes,
                       now: string, scheme: string, p: Primitives)
    requires var token := Sign(claims, secret, encryptSecret, iv, p);
      && token != "" && ' ' !in token && ' ' !in scheme
      && p.jwsPayload(token) == Ok(Encrypt(p.stringify(claims), encryptSecret, iv, p))
    requires var key := p.utf8Encode(encryptSecret);
      var plain := p.utf8Encode(p.stringify(claims));
      && p.aesDecrypt(key, iv, p.aesEncrypt(key, iv, plain)) == Ok(plain)
      && p.utf8Decode(plain) == p.stringify(claims)
    requires p.parse(p.stringify(claims)) == Ok(claims)
    requires claims.Object? && NotExpired(claims, now, p) && !MissingCredentials(claims)
    ensures StrictGuard(Some(Sign(claims, secret, encryptSecret, iv, p)), encryptSecret, false, now, p) == Accepted(claims)
    ensures StrictGuard(Some(scheme + " " + Sign(claims, secret, encryptSecret, iv, p)), encryptSecret, false, now, p)
         == Accepted(claims)
  {
    var token := Sign(claims, secret, encryptSecret, iv, p);
    DecryptEncrypt(p.stringify(claims), encryptSecret, iv, p);
    assert RecoverClaims(token, encryptSecret, p) == Ok(claims);
    assert Count(token, ' ') == 0;
    StripSchemeSpec(token);
    var header := scheme + " " + token;
    assert header == scheme + [' '] + token;
    SplitAtFirst(scheme, ' ', token);
    SplitWithoutSeparator(token, ' ');
    assert StripScheme(header) == token;
  }

  // ---------------------------------------------------------------------------
  // The middleware gate `loginBeforeRequest`
  // ---------------------------------------------------------------------------

  /** Either `next()` runs with `req.userId` set, or a 401 response is sent with the message. */
  datatype GateResult = Next(userId: Option<Value>) | Respond401(message: AuthMessage)

  /** `loginBeforeRequest`: recovers the claims of the raw header (no scheme stripping, no expiry check). */
  function LoginBeforeRequest(header: Option<string>, encryptSecret: string, p: Primitives): GateResult
  {
    if IsValidHeader(header) then Respond401(Unauthorized)
    else
      match RecoverClaims(header.value, encryptSecret, p)
      case Err(e) => Respond401(UnauthorizedWithError(e))
      case Ok(claims) =>
        match ReadProp(claims, "identifier")
        case Err(e) => Respond401(UnauthorizedWithError(e))
        case Ok(id) => Next(id)
  }

  /**
   * For a header that is not `<scheme> <token>`, the gate lets through every
   * token the weak guard accepts, with its `identifier`, and fails with the
   * same cause when the claims cannot be recovered.
   */
  lemma GateAgreesWithWeakGuard(header: string, encryptSecret: string, now: string, p: Primitives, claims: Value)
    requires Count(header, ' ') != 1
    ensures WeakGuard(Some(header), encryptSecret, now, p) == Accepted(claims) ==>
      LoginBeforeRequest(Some(header), encryptSecret, p) == Next(Get(claims, "identifier"))
    ensures header != "" && RecoverClaims(header, encryptSecret, p).Err? ==>
      var cause := RecoverClaims(header, encryptSecret, p).error;
      && LoginBeforeRequest(Some(header), encryptSecret, p) == Respond401(UnauthorizedWithError(cause))
      && WeakGuard(Some(header), encryptSecret, now, p) == Rejected(Rejection(UnauthorizedWithError(cause), false, None))
  {

  }

  // ---------------------------------------------------------------------------
  // Identity federation
  // ---------------------------------------------------------------------------

  const GOOGLE_SCOPE: string := "https://www.googleapis.com/auth/userinfo.email"
  const FACEBOOK_DIALOG: string := "https://www.facebook.com/v2.12/dialog/oauth"
  const FACEBOOK_TOKEN_ENDPOINT: string := "https://graph.facebook.com/v2.12/oauth/access_token"
  const FACEBOOK_PROFILE_ENDPOINT: string := "https://graph.facebook.com/me"
  const FACEBOOK_PROFILE_FIELDS: string := "id,email,first_name,last_name"

  /** The query objects sent by the outbound HTTP helper. */
  datatype Query =
    | TokenQuery(clientId: string, redirectUri: string, clientSecret: string, code: string)
    | ProfileQuery(accessToken: Option<Value>, fields: string)

  /**
   * `googleAuthUrl(id, secret, callback, scopes)`: `generateAuthUrl` of an
   * OAuth2 client built with those arguments; `googleUserData(id, secret,
   * callback, code)`: the token exchange followed by `userinfo.get`, giving the
   * response's `data`; `fetchData(url, query)`: `fetch.get`, giving the
   * response's `data`. Each failure is the error the call rejects with.
   */
  datatype Network = Network(
    googleAuthUrl: (string, string, string, seq<string>) -> string,
    googleUserData: (string, string, string, string) -> Result<Value>,
    fetchData: (string, Query) -> Result<Value>)

  /** The normalised user profile `{email, name, lastName, id}`. */
  datatype Profile = Profile(email: Option<Value>, name: Option<Value>, lastName: Option<Value>, id: Option<Value>)

  /** `getCallbackUrl`. */
  function CallbackUrl(domain: string, providerType: string): string
  {
    domain + "/login/social/callback/" + providerType
  }

  /** Different provider types give different callback URLs. */
  lemma CallbackUrlInjective(domain: string, t1: string, t2: string)
    requires CallbackUrl(domain, t1) == CallbackUrl(domain, t2)
    ensures t1 == t2
  {
    var prefix := domain + "/login/social/callback/";
    assert CallbackUrl(domain, t1)[|prefix|..] == t1;
    assert CallbackUrl(domain, t2)[|prefix|..] == t2;
  }

  /** `getGoogleUrl`. */
  function GoogleUrl(domain: string, id: string, secret: string, net: Network): string
  {
    net.googleAuthUrl(id, secret, CallbackUrl(domain, "google"), [GOOGLE_SCOPE])
  }

  /** `getFacebookUrl`. */
  function FacebookUrl(domain: string, id: string, secret: string): string
  {
    FACEBOOK_DIALOG + "?scope=email&client_id=" + id + "&redirect_uri=" + CallbackUrl(domain, "facebook")
  }

  /** `getSocialUrl`: dispatch on the provider type, unknown types taking the Google path. */
  function GetSocialUrl(providerType: string, domain: string, id: string, secret: string, net: Network): string
  {
    match providerType
    case "google" => GoogleUrl(domain, id, secret, net)
    case "facebook" => FacebookUrl(domain, id, secret)
    case _ => GoogleUrl(domain, id, secret, net)
  }

  /** Every type but `"facebook"` gets the Google URL, built with the fixed `google` callback and the email scope. */
  lemma SocialUrlFallsBackToGoogle(providerType: string, domain: string, id: string, secret: string, net: Network)
    requires providerType != "facebook"
    ensures GetSocialUrl(providerType, domain, id, secret, net) == GetSocialUrl("google", domain, id, secret, net)
    ensures GetSocialUrl(providerType, domain, id, secret, net)
         == net.googleAuthUrl(id, secret, domain + "/login/social/callback/google",
                              ["https://www.googleapis.com/auth/userinfo.email"])
  {
    assert CallbackUrl(domain, "google") == domain + "/login/social/callback/google";
  }

  /** The Facebook authorisation URL, written out. */
  lemma FacebookUrlFormat(domain: string, id: string, secret: string, net: Network)
    ensures GetSocialUrl("facebook", domain, id, secret, net)
         == FACEBOOK_DIALOG + "?scope=email&client_id=" + id
            + "&redirect_uri=" + domain + "/login/social/callback/facebook"
  {

  }

  /** `getGoogleUser`: the profile read from Google's user info; the callback carries the raw `type`. */
  function GoogleUser(providerType: string, code: string, domain: string, id: string, secret: string,
                      net: Network): Result<Profile>
  {
    match net.googleUserData(id, secret, CallbackUrl(domain, providerType), code)
    case Err(e) => Err(e)
    case Ok(data) =>
      match ReadProp(data, "email")
      case Err(e) => Err(e)
      case Ok(email) => Ok(Profile(email, Get(data, "name"), Get(data, "family_name"), Get(data, "id")))
  }

  /** `getFacebookUser`: token exchange, then the profile request with the token. */
  function FacebookUser(code: string, domain: string, id: string, secret: string, net: Network): Result<Profile>
  {
    var query := TokenQuery(id, CallbackUrl(domain, "facebook"), secret, code);
    match net.fetchData(FACEBOOK_TOKEN_ENDPOINT, query)
    case Err(e) => Err(e)
    case Ok(client) =>
      match ReadProp(client, "access_token")
      case Err(e) => Err(e)
      case Ok(token) =>
        match net.fetchData(FACEBOOK_PROFILE_ENDPOINT, ProfileQuery(token, FACEBOOK_PROFILE_FIELDS))
        case Err(e) => Err(e)
        case Ok(data) =>
          match ReadProp(data, "email")
          case Err(e) => Err(e)
          case Ok(email) => Ok(Profile(email, Get(data, "first_name"), Get(data, "last_name"), Get(data, "id")))
  }

  /** `getUser`: dispatch on the provider type, unknown types taking the Google path. */
  function GetUser(providerType: string, code: string, domain: string, id: string, secret: string,
                   net: Network): Result<Profile>
  {
    match providerType
    case "google" => GoogleUser(providerType, code, domain, id, secret, net)
    case "facebook" => FacebookUser(code, domain, id, secret, net)
    case _ => GoogleUser(providerType, code, domain, id, secret, net)
  }

  /**
   * An unknown provider type takes the Google exchange, but with a callback
   * URL that carries the unknown type and so differs from Google's own.
   */
  lemma GetUserUnknownProvider(providerType: string, code: string, domain: string, id: string,
                               secret: string, net: Network)
    requires providerType != "google" && providerType != "facebook"
    ensures GetUser(providerType, code, domain, id, secret, net)
         == (match net.googleUserData(id, secret, CallbackUrl(domain, providerType), code)
             case Err(e) => Err(e)
             case Ok(data) =>
               if data.Null? then Err(NullReadCause("email"))
               else Ok(Profile(Get(data, "email"), Get(data, "name"), Get(data, "family_name"), Get(data, "id"))))
    ensures CallbackUrl(domain, providerType) != CallbackUrl(domain, "google")
  {
    if CallbackUrl(domain, providerType) == CallbackUrl(domain, "google") {
      CallbackUrlInjective(domain, providerType, "google");
    }
  }

  /**
   * The Facebook exchange: the token request carries the Facebook callback,
   * the profile request the token; the provider's `first_name` and
   * `last_name` become `name` and `lastName`; a failed first call fails the
   * whole exchange with its error.
   */
  lemma GetUserFacebook(code: string, domain: string, id: string, secret: string, net: Network,
                        client: Value, data: Value)
    ensures
      var tokenQuery := TokenQuery(id, domain + "/login/social/callback/facebook", secret, code);
      net.fetchData(FACEBOOK_TOKEN_ENDPOINT, tokenQuery).Err? ==>
        GetUser("facebook", code, domain, id, secret, net) == Err(net.fetchData(FACEBOOK_TOKEN_ENDPOINT, tokenQuery).error)
    ensures
      var tokenQuery := TokenQuery(id, domain + "/login/social/callback/facebook", secret, code);
      var profileQuery := ProfileQuery(Get(client, "access_token"), "id,email,first_name,last_name");
      net.fetchData(FACEBOOK_TOKEN_ENDPOINT, tokenQuery) == Ok(client) && client.Object?
      && net.fetchData(FACEBOOK_PROFILE_ENDPOINT, profileQuery) == Ok(data) && data.Object? ==>
        GetUser("facebook", code, domain, id, secret, net)
        == Ok(Profile(Get(data, "email"), Get(data, "first_name"), Get(data, "last_name"), Get(data, "id")))
  {
    assert CallbackUrl(domain, "facebook") == domain + "/login/social/callback/facebook";
  }

  /** The Google exchange: the provider's `family_name` becomes `lastName`. */
  lemma GetUserGoogle(code: string, domain: string, id: string, secret: string, net: Network, data: Value)
    requires net.googleUserData(id, secret, domain + "/login/social/callback/google", code) == Ok(data)
    requires data.Object?
    ensures GetUser("google", code, domain, id, secret, net)
         == Ok(Profile(Get(data, "email"), Get(data, "name"), Get(data, "family_name"), Get(data, "id")))
  {
    assert CallbackUrl(domain, "google") == domain + "/login/social/callback/google";
  }

  // ---------------------------------------------------------------------------
  // E-mail verification status
  // ---------------------------------------------------------------------------

  /**
   * `nonValidSESVerification`: whether the SES response does not report the
   * address as verified. The chain of truthiness guards adds nothing to the
   * final comparison with `"Success"`.
   */
  function NonValidSESVerification(response: Value, email: string): (r: bool)
    requires !response.Null?
    ensures r <==>
      GetOpt(GetOpt(Get(response, "VerificationAttributes"), email), "VerificationStatus") != Some(Str("Success"))
  {
    var attributes := Get(response, "VerificationAttributes");
    var entry := GetOpt(attributes, email);
    var status := GetOpt(entry, "VerificationStatus");
    !(Truthy(attributes) && Truthy(entry) && Truthy(status) && status == Some(Str("Success")))
  }
}
