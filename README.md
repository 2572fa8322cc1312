# coca: bearer tokens, identity federation and the payload validator, in Dafny

This project models two files of the coca serverless toolkit:

- **Signer.js** issues and verifies bearer tokens.
  - A token is a `jws` signature over an encrypted envelope `<iv hex>:<ciphertext hex>` of the JSON claims.
  - The strict guard (`vibraniumLambdaShield`) and the weak guard (`weakLambdaShield`) turn an `Authorization` header into the claims or a typed rejection `{message, expire, id?}`.
  - The middleware gate `loginBeforeRequest` either calls `next()` with `req.userId` set or sends a 401.
  - The file also builds the Google and Facebook OAuth URLs, exchanges an authorization code for a normalised profile, and reads the SES verification status.
- **Validator.js** checks a JSON payload against a schema object.
  - In the model each key of a schema maps to a nested schema object (see "Left out" for other entries). The constraint keys `required` (a flag, or a function of the top-level payload) and `type` (a constructor) of a node are read by its parent.
  - `validateJSONSchema` makes a first pass over a node's own keys and collects REQUIRED_PARAM and SHOULD_BE_* errors. It then splices the constraint keys out of the key array in place, and makes a second pass that recurses into every property whose value is an object.
  - `isValidJSONSchema` wraps the walk in a promise.

Layout:

| file | module | contents |
|---|---|---|
| `wrappers.dfy` | `Wrappers` | `Option`, `Result` |
| `json.dfy` | `Json` | JavaScript values, property reads (`v[k]`, and the `TypeError` on `null`), truthiness, `typeof` |
| `jsstring.dfy` | `JsString` | `split`/`join` on one character, `indexOf`, the `<=` order on strings |
| `signer.dfy` | `Signer` | the cipher envelope, token codec, guards, gate, federation and SES check |
| `validator.dfy` | `Validator` | schemas, the two error producers, the in-place splice, the recursive walk, `isValidJSONSchema` |

The modelling choices:

- **Library calls are parameters.** AES-256-CBC, UTF-8 conversion, `jws.sign`/`jws.decode`, `JSON.stringify`/`JSON.parse`, the Google OAuth2 client, the `fetch.get` helper and the text of a number (`String(n)`) are total functions. They are held in the `Primitives` and `Network` records, and each failure is a `Result`.
- **Time and randomness are arguments.** The clock (`moment().format()`) is the `now` argument. The random IV is the `iv` argument.
- **Throws become values.** Every JavaScript throw the code relies on is an `Err` or a rejection value: a property read on `null`, `jws.decode` on a malformed token, a decipher failure, a `JSON.parse` failure, a comparison with an object that cannot be converted to a primitive.
- **Imperative code stays imperative.** `validateJSONSchema` is a recursive method with one `while` loop per `forEach`, and each callback is its own method. The key array is a `KeyArray` object that `splice` changes in place. The method is proved equal to the function `Validate`, and the properties of the walk are lemmas about `Validate`.

Behaviour of the code worth knowing:

- `jws.decode` does not check the signature. The guards read the payload of any well-formed token, so an altered signature is not rejected by itself.
- `loginBeforeRequest` does not strip a `Bearer ` prefix: it decodes the raw header.
- The credentials check of the strict guard is `!jwt.email || !jwt.password`. An empty string or `0` counts as missing, not only an absent key.
- Expiry is `jwt.exp <= now`, where `now` is a `moment().format()` timestamp. Both sides are converted to primitives first:
  - a string `exp` is compared with the timestamp lexicographically;
  - an array `exp` is compared through its `join(",")` text, so `[]` (the empty string) has always expired;
  - an object `exp` is compared as `[object Object]`, unless it has its own `toString` property, which makes the comparison throw, and both guards then reject with UNAUTHORIZED;
  - a missing, `null`, boolean or number `exp` is compared numerically with the timestamp, which is `NaN`, so it never expires.

## Model

| member | source | states |
|---|---|---|
| Signer.HexEncode | Signer.js:20 | `toString("hex")` writes two hexadecimal digits per byte: the text is twice as long as the bytes and every character is a digit |
| Signer.HexDecode | Signer.js:25-26 | `new Buffer(s, "hex")` never yields more than one byte per two characters; it stops at the first pair that is not two digits instead of throwing |
| Signer.HexRoundTrip | Signer.js:16-30 | hex decoding gives back exactly the bytes hex encoding wrote, for every byte string |
| Signer.SplitEnvelope | Signer.js:24-26 | the IV text is the envelope up to the first `:` (and contains no `:`); the ciphertext text is everything after it with later colons kept; without a `:` the whole text is the IV and the ciphertext is empty |
| Signer.SplitEncryptedEnvelope | Signer.js:16-26 | an envelope `ivHex:cipherHex` written by `encrypt` splits back into exactly its two halves |
| Signer.DecryptEncrypt | Signer.js:16-30 | `decrypt(encrypt(text, key), key)` returns `text` for every text, key and IV, provided the cipher inverts itself and UTF-8 decoding inverts encoding |
| Signer.StripSchemeSpec | Signer.js:77-81 | a header with exactly one space is replaced by the text after that space; any other header is used verbatim |
| Signer.AbsentHeader | Signer.js:44-46 | a missing or empty header (`isValidHeader`): the strict guard rejects with NOT_FOUND and `expire: false`, the weak guard settles with `null`, the gate answers 401 UNAUTHORIZED; the strict answer does not depend on the library calls at all |
| Signer.UnrecoverableClaims | Signer.js:96-98 | when decoding, decrypting or parsing fails, both guards reject with UNAUTHORIZED carrying the cause as `"<UNAUTHORIZED> with error: <cause>"` and `expire: false` |
| Signer.ExpiredToken | Signer.js:85-89 | recovered claims with `exp <= now` are rejected by both guards as EXPIRED with `expire: true` and the claims' `id`, whatever the other claims are and in any password mode |
| Signer.Expiry | Signer.js:87 | `jwt.exp <= now` either decides expiry or throws, and the only thing it throws is the `TypeError` of an object that cannot be converted to a primitive |
| Signer.ElementText | Signer.js:87 | converting an array element to its string form throws only the conversion `TypeError` |
| Signer.JoinText | Signer.js:87 | `join(",")` of an array `exp` gives the empty string for the empty array, and throws only the conversion `TypeError` |
| Signer.NoExpiryNeverExpires | Signer.js:87 | a token without `exp` is never expired (`undefined <= now` is false) |
| Signer.NonStringExpiry | Signer.js:87 | a `null`, boolean or number `exp` never expires against a timestamp; an empty array `exp` has always expired; an object `exp` compares as `[object Object]`, or throws when it has its own `toString` |
| Signer.UnconvertibleExpiry | Signer.js:85-98 | when the comparison throws, both guards reject with UNAUTHORIZED carrying the conversion `TypeError`, whatever the other claims are |
| Signer.ExpiryIsMonotone | Signer.js:87 | a token expired at `now` is expired at every later timestamp in the same format |
| Signer.StrictLoginExactly | Signer.js:91-93 | the strict guard answers STRICT_LOGIN if and only if the header is present, the claims are recovered, are not `null`, are not expired, lack a truthy `email` or `password`, and password update mode is off |
| Signer.StrictAcceptsExactly | Signer.js:72-99 | the strict guard resolves with `claims` if and only if the header is present, its token decodes to exactly `claims`, they are not `null`, not expired, and carry `email` and `password` unless a password is being updated |
| Signer.WeakAcceptsExactly | Signer.js:101-124 | the weak guard resolves with `claims` if and only if the header is present and its token decodes to exactly `claims`, not `null` and not expired |
| Signer.WeakIsStrictWhileUpdating | Signer.js:101-124 | on a present header the weak guard settles exactly as the strict guard in password update mode, so it never answers STRICT_LOGIN |
| Signer.RejectionShape | Signer.js:72-99 | in every strict rejection `expire` is true exactly for EXPIRED, only EXPIRED carries an `id`, and UNAUTHORIZED always carries a cause |
| Signer.SignThenVerify | Signer.js:48-54 | a token minted by `sign` from object claims with `email`, `password` and an unexpired `exp` passes the strict guard with the claims unchanged, presented bare or as `<scheme> <token>`, provided the library calls invert each other |
| Signer.GateAgreesWithWeakGuard | Signer.js:56-70 | for a header that is not `<scheme> <token>`, every token the weak guard accepts lets the gate call `next()` with the claims' `identifier`; a token whose claims cannot be recovered gets a 401 and a weak rejection with the same cause |
| Signer.IsValidHeader | Signer.js:44-46 | the header check, true exactly for a missing or empty header; its consequences are `Signer.AbsentHeader` |
| Signer.StripScheme | Signer.js:77-81 | the header replaced by its second space-separated part when it has exactly two; characterised by `Signer.StripSchemeSpec` |
| Signer.Encrypt | Signer.js:16-21 | `ivHex:cipherHex` under a key that is the UTF-8 of the secret; inverted by `Signer.Decrypt` (`Signer.DecryptEncrypt`) |
| Signer.Decrypt | Signer.js:23-30 | splits the envelope at its first `:`, hex-decodes both halves and deciphers, any throw becoming an error; see `Signer.DecryptEncrypt` |
| Signer.Sign | Signer.js:48-54 | signs the encrypted envelope of the serialised claims; its round trip is `Signer.SignThenVerify` |
| Signer.RecoverClaims | Signer.js:83 | `JSON.parse(decrypt(jws.decode(token).payload))`, failing with the first stage's cause; see `Signer.UnrecoverableClaims` and `Signer.SignThenVerify` |
| Signer.IsExpired | Signer.js:87 | the comparison succeeds and is true; its properties are `Signer.NonStringExpiry` and `Signer.ExpiryIsMonotone` |
| Signer.MissingCredentials | Signer.js:91 | either `!jwt.email` or `!jwt.password` holds, by truthiness; used by `Signer.StrictLoginExactly` |
| Signer.StrictGuard | Signer.js:72-99 | `vibraniumLambdaShield`; characterised by `Signer.StrictAcceptsExactly`, `Signer.StrictLoginExactly`, `Signer.ExpiredToken` and `Signer.RejectionShape` |
| Signer.WeakGuard | Signer.js:101-124 | `weakLambdaShield`; characterised by `Signer.WeakAcceptsExactly` and `Signer.WeakIsStrictWhileUpdating` |
| Signer.LoginBeforeRequest | Signer.js:56-70 | the middleware gate on the raw header; related to the weak guard by `Signer.GateAgreesWithWeakGuard` |
| Signer.CallbackUrl | Signer.js:157-159 | `<domain>/login/social/callback/<type>`; injective in the type (`Signer.CallbackUrlInjective`) |
| Signer.GetSocialUrl | Signer.js:126-135 | dispatch on the provider type; see `Signer.SocialUrlFallsBackToGoogle` |
| Signer.GoogleUrl | Signer.js:137-148 | the Google authorisation URL from the OAuth2 client; see `Signer.SocialUrlFallsBackToGoogle` |
| Signer.FacebookUrl | Signer.js:150-155 | the Facebook dialog URL; see `Signer.FacebookUrlFormat` |
| Signer.GoogleUser | Signer.js:161-184 | the code exchange and user-info request; see `Signer.GetUserGoogle` |
| Signer.FacebookUser | Signer.js:186-242 | the token and profile requests; see `Signer.GetUserFacebook` |
| Signer.GetUser | Signer.js:197-206 | dispatch on the provider type; see `Signer.GetUserUnknownProvider` |
| Signer.CallbackUrlInjective | Signer.js:157-159 | different provider types give different callback URLs on the same domain |
| Signer.SocialUrlFallsBackToGoogle | Signer.js:126-148 | every type but `facebook`, unknown ones included, gets the Google authorisation URL with the `google` callback and the `userinfo.email` scope |
| Signer.FacebookUrlFormat | Signer.js:150-155 | the Facebook URL is the v2.12 dialog with `scope=email`, the client id and the `facebook` callback as `redirect_uri` |
| Signer.GetUserGoogle | Signer.js:175-184 | the Google exchange maps `email`, `name`, `family_name`, `id` of the user info to `email`, `name`, `lastName`, `id` |
| Signer.GetUserFacebook | Signer.js:186-242 | the Facebook exchange sends the code with the `facebook` callback to the token endpoint, then the access token with the fields list to the profile endpoint; `first_name` and `last_name` become `name` and `lastName`; a failed token request fails the whole exchange with its error |
| Signer.GetUserUnknownProvider | Signer.js:197-206 | an unknown provider type takes the Google exchange, but with a callback URL that carries the unknown type and so differs from Google's own |
| Signer.NonValidSESVerification | Signer.js:32-37 | the address is reported as not verified exactly when `VerificationAttributes[email].VerificationStatus` is not the string `"Success"` |
| JsString.Split | Signer.js:24 | `split` on one character gives one more part than there are separators, and no part contains the separator |
| JsString.JoinSplit | Signer.js:24-26 | joining the parts of a split with the same separator gives the text back |
| Json.ReadProp | Signer.js:83-87 | reading a property throws exactly when the value is `null`, and otherwise yields the object's own property or `undefined` |
| Validator.IsNotConstraintKey | Validator.js:10-12 | true for every key but `required` and `type`; used by `Validator.KeyErrorsExactly` and `Validator.SplicedKeysAreChildKeys` |
| Validator.EvalRequired | Validator.js:77-82 | a `required` function is called with the top-level payload, a flag is taken by its truthiness; used by `Validator.KeyErrorsExactly` |
| Validator.Find | Validator.js:77 | `schema[key]` is the property with that key, or `undefined` exactly when no property has it |
| Validator.GetRequiredErrors | Validator.js:18-33 | the result is `[key + REQUIRED_PARAM]` exactly when the raw `required` is truthy and the body is absent or `body[key]` is `undefined` or `null`, and `[]` otherwise |
| Validator.GetTypeErrors | Validator.js:35-56 | at most one error, always for this key |
| Validator.TypeErrorsExactly | Validator.js:35-56 | the SHOULD_BE_* error of a kind is reported exactly when the constructor's name selects that kind and `typeof body[key]` differs (for `Date`, when `Date.parse` fails) |
| JsString.IndexOf | Validator.js:59-63 | `indexOf` on a string or an array is -1 exactly when the element is absent, and otherwise the position of its first occurrence |
| Validator.RemoveFirst | Validator.js:59-63 | removing the first occurrence shortens the list by one exactly when the key is present |
| Validator.KeyArray.Splice | Validator.js:60 | `splice(i, 1)` removes the element at `i` in place and keeps the others in order |
| Validator.SpliceConstraintKeys | Validator.js:58-66 | the array itself is returned and now holds the keys with the first `type` and then the first `required` removed |
| Validator.SplicedKeysAreChildKeys | Validator.js:58-66 | on the distinct keys of an object, the spliced array is exactly the non-constraint keys in their original order |
| Validator.KeyErrors | Validator.js:75-91 | one key contributes at most two errors, both keyed by it and different from each other |
| Validator.KeyErrorsExactly | Validator.js:75-91 | a constraint key contributes nothing (`isNotConstraintKey`); REQUIRED_PARAM is reported exactly when the evaluated `required` (a function called with the top-level payload) holds and the value is missing; a SHOULD_BE_* error exactly when the body and the value are truthy, the node has a `type` and the value violates it; falsy values are never type-checked |
| Validator.FirstPass | Validator.js:74-92 | every first-pass error is keyed by one of the keys visited |
| Validator.FirstPassMembership | Validator.js:74-92 | an error is in the first pass exactly when one of the visited keys contributes it |
| Validator.FirstPassNoDuplicates | Validator.js:74-92 | over the distinct keys of an object the first pass reports each violation once |
| Validator.Validate | Validator.js:68-102 | the first-pass errors of a node are a prefix of its error list, before every error of the recursion; every error is keyed |
| Validator.SecondPass | Validator.js:94-99 | every error of the recursive pass is keyed |
| Validator.NestedErrors | Validator.js:96-98 | every error of one nested walk is keyed |
| Validator.SecondPassOrigin | Validator.js:94-99 | every error of the recursive pass comes from the nested walk of a non-constraint key whose value has `typeof` `"object"` |
| Validator.FlatPayload | Validator.js:94-99 | a payload with no object-valued property among the schema's keys is checked by the first pass alone |
| Validator.CheckKey | Validator.js:75-91 | the first callback contributes exactly the key's first-pass errors |
| Validator.CheckNested | Validator.js:96-98 | the second callback contributes exactly the nested walk of an object-valued property |
| Validator.CollectKeyErrors | Validator.js:74-92 | the first `forEach` collects the first-pass errors of all keys, in key order |
| Validator.CollectNestedErrors | Validator.js:94-99 | the second `forEach` collects the nested walks of the spliced keys, in order |
| Validator.ValidateJSONSchema | Validator.js:68-102 | the imperative walk (two loops, an in-place splice, recursion) returns exactly `Validate` of its arguments |
| Validator.LeadingErrors | Validator.js:110-116 | UNDEFINED_PAYLOAD is pushed exactly for a falsy payload and comes first, and UNDEFINED_SCHEMA exactly for a falsy schema |
| Validator.WalkErrors | Validator.js:118 | the walk of a schema (or of a falsy primitive, which has no keys) reports keyed errors only |
| Validator.IsValidJSONSchema | Validator.js:104-129 | with a schema object or a falsy primitive, the promise resolves with the payload if and only if the payload is truthy and the walk finds nothing, and otherwise rejects with the non-empty list made of the leading errors followed by the walk's errors, UNDEFINED_PAYLOAD first exactly when the payload is falsy; an `undefined`/`null` schema always rejects with the `TypeError` of `Object.keys` instead |
| Validator.IsValidJSONSchemaCorrected | Validator.js:110-118 | a missing or falsy schema is rejected with exactly the leading errors, UNDEFINED_SCHEMA among them, and nothing throws; with a schema object it settles exactly as the code does |
| Validator.MissingSchemaIsNeverReported | Validator.js:114-118 | on `undefined` schema and payload `{}` the code rejects with the `TypeError`, while the intended check rejects with `[UNDEFINED_SCHEMA]` |

## Left out

- `ServerlessContextManager.js` is not part of this model. It manages the Mongo and Redis connections around a handler and does not use the two modelled files.
- `isValidJSONArraySchema` (Validator.js:131-183) is left out. What it does is run `isValidJSONSchema` for every element concurrently through `async/parallel` and `reflectAll`, and concurrency is outside the model.
- `isValidMongooseId` (Validator.js:14-16) is a regular-expression test that the validator walk never calls.
- `parseChecksum` (Signer.js:38-42) is an MD5 hash of a JSON text, and hashing is outside the model.
- AES-256-CBC, UTF-8 conversion, `jws`, `JSON.stringify`/`JSON.parse`, the Google OAuth2 client and `fetch.get` are parameters. Their own behaviour, including the cipher's key-length errors, is not modelled.
- `crypto.randomBytes` and `moment().format()` are the `iv` and `now` arguments.
- The Express objects of `loginBeforeRequest` (`res.status(401).send`, `next()`, the `req.userId` assignment) are the `GateResult` value.
- Promises and `async` functions are modelled by their settlement value, and all of them settle.
- `Errors.js` is not part of this model. Messages are constructors. The guards' texts are the `AuthTexts` record, rendered by `MessageText`; the validator's error strings (`key + ERRORS.<kind>`) are not rendered.
- The `JSON.stringify` of the error list that `isValidJSONSchema` rejects with is left out: the model rejects with the list itself.
- The text of a JavaScript `TypeError` raised by a property read on `null` is modelled by `NullReadCause`, whose wording is V8's. Other engines word it differently.
- Property reads see only an object's own keys. Array indices, `length` and inherited properties of strings, arrays and functions are not modelled.
- `Object.keys` lists integer-like keys first. A schema's properties are taken in the order given.
- Numbers are reals, so `NaN` and its falsiness are not modelled.
- Signer.IsExpired: `now` is taken to be a `moment().format()` timestamp, whose numeric value is `NaN`. A `null`, boolean or number `exp` compared with a numeric `now` string is not modelled. The text of a number inside an array `exp` is the `numberText` primitive.
- JsString.LexLe compares strings by code point. JavaScript compares UTF-16 code units, and the two orders differ only outside the Basic Multilingual Plane.
- Signer.NonValidSESVerification: a `null` response is excluded by its precondition. The code throws a `TypeError` on it.
- Validator.EvalRequired: a `required` function that throws is not modelled. Its exception would escape the walk.
- Validator.IsValidJSONSchema: a truthy primitive given as the schema (such as a non-empty string) is not modelled. `Object.keys` would list its character positions.
- A schema entry that is not a schema object is not modelled. For a `null` or `undefined` entry (`{a: null}`), the read `schema[schemaKey].required` at Validator.js:77 (and at :20) throws a `TypeError`, and the promise rejects with it. A primitive entry (a number, a string, `true`) is read for `required` and `type` properties it does not have and walked as its own keys.
- A schema's `type` constructor is known only by its `name`. Constructors without one are not modelled.
- The header given to the guards is a string or absent. A non-string header, on which `split` would throw, is not modelled.

## Findings

| source | as written | input that shows it | evidently intended | confidence | as-written member | corrected member |
|---|---|---|---|---|---|---|
| Validator.js:114-118 | for a falsy schema UNDEFINED_SCHEMA is pushed, but `validateJSONSchema` still runs. For `undefined` or `null`, its `Object.keys(schema)` throws inside the promise executor, so the promise rejects with that `TypeError` and the error list is lost | `isValidJSONSchema(undefined, {})` | reject with `["UNDEFINED_SCHEMA"]`, skipping the walk when there is no schema | high, not executed | Validator.MissingSchemaIsNeverReported | Validator.IsValidJSONSchemaCorrected |
