# Bearer-token authorisation and structured error/request logging — a Dafny model

This project models four small, sequential Go components of a shared library:

- **Key resolver** (`pkg/authz/jwk_services.go`). It holds a JSON Web Key Set (section 5 of RFC 7517), or no set when the fetch failed. `GetPublicKey(kid)` answers one of three ways:
  - `"empty jwk resource"` when no set is loaded;
  - `"not found KID in token"` when the set has no key with that `kid` (section 4.5 of RFC 7517);
  - otherwise, the raw public key of the first matching key, after pinning that key's `alg` to `RS256` in place.
- **Token validator** (`pkg/authz/jwt_service.go`). `ValidateToken` parses a compact JWS (RFC 7515). The parse goes through a key-selection callback that accepts only the RSASSA-PKCS1-v1_5 methods (RS256/384/512, section 3.3 of RFC 7518). Every other method is refused with `"unexpected signing method: " + alg`. Any parse, callback or verification error is returned unchanged. Only after a successful parse does the policy rule run: the `group_policy` claim must contain `"ReadDevices"` as a substring, or the result is `"invalid policy permission"`.
- **Error details** (`pkg/errordetails/errordetails.go`). This is an error record with chainable updates:
  - `Str` and `Int` append context fields;
  - `Msg` replaces the message;
  - `Error`, `Unwrap` and `ToClientError` are projections;
  - `MarshalZerologObject` serialises the record to an ordered list of key/value pairs.
- **Request log record** (`pkg/logging/logging.go`). This record has thirteen optional fields, a message and a start time. `MarshalZerologObject` writes every set optional field in a fixed order, then `message`, then `start_time`.

Modules:

| file | module | models |
|---|---|---|
| `wrappers.dfy` | `Wrappers` | `Option` (nil) and `Result` (Go's `(value, error)` pair) |
| `strings.dfy` | `Strings` | `strings.Contains` and `strings.TrimSpace` on byte strings |
| `format.dfy` | `Format` | `fmt.Sprintf("%d", n)`, with a decimal parser as its inverse |
| `zerolog.dfy` | `Zerolog` | an event as an ordered list of typed key/value pairs; nil-guarded emission |
| `jwk.dfy` | `Jwk` | the key resolver |
| `jwt.dfy` | `Jwt` | the token validator |
| `errordetails.dfy` | `ErrorDetails` | the error record |
| `logging.dfy` | `Logging` | the request log record |

How the model is built:

- The Go code mutates values through pointers: `key.Set("alg", …)` changes the key inside the shared set, and the builder methods return their receiver. The model uses immutable records instead.
  - Builder methods return the updated record.
  - The key lookup returns the updated key set alongside the key, so later lookups see the pinned algorithm.
- The key set is a sequence, not a map: the JWK Set `keys` member is an array, and the set's lookup returns the first key whose `kid` matches.
- Foreign code becomes a parameter:
  - The fetch is a `Result<KeySet, string>`.
  - The raw-key conversion is a function `Key -> Result<PublicKey, string>`.
  - The JWT library is a `Library` record with three functions:
    - `decode` splits the token, decodes base64url and JSON, and looks up the signing method. The decoded `Token` keeps the signing input (the first two segments as transmitted) and the signature segment.
    - `claimsError` checks the registered time claims (`exp`, `iat`, `nbf`).
    - `signatureError` verifies the transmitted signature over the transmitted signing input under a key.
  - When both the time claims and the signature fail, the library reports the signature error. `Jwt.Parse` keeps that order.
  - The runtime caller, the goroutine dump and the clock are plain arguments.
- Go's `(value, error)` pairs become `Result` values, so every outcome carries either a value or an error, never both and never neither.
- Errors are modelled by their text. The JWT library wraps errors in a validation error whose text is the inner error's text.
- `validatePolicy` asserts the claim's type without checking it. The model gives it a precondition: the claim is present and is a string. `ValidateToken` returns a third outcome, `Panic`, when a parsed token breaks that precondition.
- The signing-method callback as written has a third branch. A method outside the RSASSA-PKCS1-v1_5 family whose header `alg` is not a string receives the caller's key. `Jwt.KeyFunc` keeps that branch. `Jwt.KeyFuncAcceptsOnlyRsaPkcs1` and `Jwt.NoAlgorithmConfusion` show that it cannot be taken when the decoded header names its method by a string, and the library's decode guarantees such a header (`Jwt.HeaderConsistent`). Under that guarantee, every HMAC, ECDSA, RSASSA-PSS or unsecured token is rejected whatever its claims.

## Model

| member | source | states |
|---|---|---|
| `Jwk.GetKeys` | pkg/authz/jwk_services.go:45-51 | a failed fetch leaves no set, never a partial one; a successful fetch yields exactly the fetched set |
| `Jwk.NewJwkService` | pkg/authz/jwk_services.go:19-23 | the resolver holds no set iff the fetch failed, and otherwise exactly the fetched set |
| `Jwk.FindFrom` | pkg/authz/jwk_services.go:55 | the set's lookup scans in order and stops at the first key with the requested kid; no result means no key from that point on has it |
| `Jwk.Find` | pkg/authz/jwk_services.go:55-58 | a key is found iff some key has the kid, and it is the first such key |
| `Jwk.PinAlg` | pkg/authz/jwk_services.go:59 | the served key's `alg` is `RS256` whatever was published, and no other member of the key changes |
| `Jwk.LookupKeyId` | pkg/authz/jwk_services.go:54-62 | it fails with exactly `"not found KID in token"` iff no key has the kid; on a hit it returns the first matching key with `alg` pinned, and the set changes only at that position |
| `Jwk.GetPublicKey` | pkg/authz/jwk_services.go:26-42 | three-way decision: no set gives `"empty jwk resource"` before any lookup; unknown kid gives the not-found error; a hit returns the conversion of the pinned key, with a conversion error passed through unchanged |
| `Jwk.FailedFetchAlwaysEmpty` | pkg/authz/jwk_services.go:27-29 | after a failed fetch, every kid gets `"empty jwk resource"` and the resolver never changes |
| `Jwk.EmptySetIsNotMissing` | pkg/authz/jwk_services.go:55-58 | an empty but loaded set reports not-found, which is distinct from a missing set |
| `Jwk.LookupPreservesSet` | pkg/authz/jwk_services.go:55-61 | a lookup keeps the number of keys and every kid; every other key is unchanged; the matched key differs from the published one in `alg` only |
| `Jwk.LookupIdempotent` | pkg/authz/jwk_services.go:54-62 | repeating a successful lookup returns the same key and leaves the set as the first lookup left it |
| `Jwk.GetPublicKeyFailsIff` | pkg/authz/jwk_services.go:31-41 | with a loaded set, the result is an error exactly when the kid is unknown or the conversion fails |
| `Jwt.KeyFunc` | pkg/authz/jwt_service.go:24-31 | an RSASSA-PKCS1-v1_5 method receives the caller's key unchanged; any other method with a string `alg` fails with `"unexpected signing method: " + alg`; the callback never returns another key |
| `Jwt.Parse` | pkg/authz/jwt_service.go:24-35 | the parse succeeds iff decoding, the callback, the verification of the transmitted signature and the time-claims check all succeed, and a success yields the decoded token; a decode or callback error comes first, a signature error wins over a time-claims error, and every error text is returned unchanged |
| `Jwt.ValidatePolicy` | pkg/authz/jwt_service.go:45-51 | holds iff `"ReadDevices"` occurs as a substring of the `group_policy` string, which must be present and a string |
| `Jwt.ValidateToken` | pkg/authz/jwt_service.go:23-42 | parse errors are returned as-is before the policy is looked at; the verdict is valid iff the parse succeeded and the policy holds; a parsed token lacking the grant gets exactly `"invalid policy permission"`; a missing or non-string claim panics |
| `Jwt.KeyFuncAcceptsOnlyRsaPkcs1` | pkg/authz/jwt_service.go:25-30 | for a consistently decoded header, the callback accepts exactly RS256, RS384 and RS512, and names any other algorithm in its error |
| `Jwt.NoAlgorithmConfusion` | pkg/authz/jwt_services_test.go:50-57 | a consistently decoded non-RSASSA-PKCS1-v1_5 token (HS512, say) is rejected with the unexpected-method error, whatever its claims and signature |
| `Jwt.ValidImpliesRsaPkcs1` | pkg/authz/jwt_service.go:24-41 | a valid verdict implies an RS256/384/512 token whose carried signature verified over its carried signing input under the caller's key, and whose time claims passed |
| `Jwt.VerifyErrorPropagates` | pkg/authz/jwt_services_test.go:43-48 | a transmitted signature that fails verification under the caller's key rejects the token with that error, whatever the time claims say, and the policy is not evaluated |
| `Jwt.ClaimsErrorPropagates` | pkg/authz/jwt_service.go:24-35 | with a good signature, a failed time-claims check (an expired token, say) is returned unchanged |
| `Jwt.ForgedSignatureRejected` | pkg/authz/jwt_service.go:24-35 | a valid token whose signature is replaced by one that does not verify under the caller's key gets that signature error instead of a valid verdict |
| `Jwt.ManageDeviceSecurityIsDenied` | pkg/authz/jwt_services_test.go:59-65 | a parsed token whose policy is `"ManageDeviceSecurity"` gets `"invalid policy permission"` |
| `Jwt.ReadDevicesInListIsGranted` | pkg/authz/jwt_services_test.go:66-72 | a parsed token whose policy is `"ManageDeviceSecurity,ReadDevices"` is valid |
| `Strings.Contains` | pkg/authz/jwt_service.go:48 | the left-to-right search answers true iff the needle occurs at some position |
| `Strings.TrimSpace` | pkg/errordetails/errordetails.go:36 | the result is a slice of the input; only white space lies outside it; it neither starts nor ends with white space |
| `Strings.TrimSpaceIdempotent` | pkg/errordetails/errordetails.go:36 | trimming a trimmed trace changes nothing |
| `Format.NatToDecimal` | pkg/errordetails/errordetails.go:68 | the digits of a natural number are non-empty, all decimal digits, and have no leading zero |
| `Format.FormatInt` | pkg/errordetails/errordetails.go:68 | the rendering starts with `-` iff the number is negative, and the rest is a non-empty run of decimal digits without a leading zero (only zero renders as `0`) |
| `Format.FormatIntRoundTrip` | pkg/errordetails/errordetails.go:68 | parsing the decimal rendering gives back the number |
| `Format.FormatIntInjective` | pkg/errordetails/errordetails.go:68 | distinct numbers have distinct renderings |
| `ErrorDetails.Truncate` | pkg/errordetails/errordetails.go:34-35 | the dump keeps at most its first 1024 bytes, and is unchanged when it fits |
| `ErrorDetails.StackTrace` | pkg/errordetails/errordetails.go:34-36 | the kept trace has at most 1024 bytes and is the truncated dump with its surrounding white space removed |
| `ErrorDetails.NewErrorDetails` | pkg/errordetails/errordetails.go:31-48 | the message is the error's text; the type is the error's type name; the error is stored; the context starts empty; the call site, clock reading and trimmed trace are recorded |
| `ErrorDetails.Str` | pkg/errordetails/errordetails.go:61-64 | appends exactly `Field{key, val}` after the earlier fields, which keep their order; nothing else changes |
| `ErrorDetails.Int` | pkg/errordetails/errordetails.go:67-70 | behaves as `Str` with the decimal rendering, which reads back as the number |
| `ErrorDetails.Msg` | pkg/errordetails/errordetails.go:73-76 | replaces the message and nothing else |
| `ErrorDetails.ContextPairsAppend` | pkg/errordetails/errordetails.go:99-101 | appending a context field appends its string pair after the pairs of the earlier fields |
| `ErrorDetails.MarshalZerologObject` | pkg/errordetails/errordetails.go:91-106 | the six fixed pairs (`message`, `file`, `method`, `line` as an integer, `trace`, `error_type`), then every context field in insertion order, then `error` with the wrapped error's text iff there is a wrapped error |
| `ErrorDetails.ErrorReportsWrapped` | pkg/errordetails/errordetails.go:51-53 | `Error()` is unchanged by `Msg` and by `Str`, and it is the text of the event's closing `error` pair |
| `ErrorDetails.UnwrapReturnsWrapped` | pkg/errordetails/errordetails.go:56-58 | `Unwrap()` returns the error the record was built from, unchanged by `Msg` and `Str`; the event has one pair beyond the fixed and context pairs iff there is an error to unwrap, and that closing pair is `error` with its text |
| `ErrorDetails.ClientErrorShowsMessage` | pkg/errordetails/errordetails.go:79-83 | the client error carries the message `Msg` last set, is unchanged by `Str`, and matches the event's `message` pair |
| `ErrorDetails.NewErrorDetailsMessages` | pkg/errordetails/errordetails_test.go:13-28 | on a fresh record, `Error()`, the message and the client message all equal the wrapped error's text, and `Unwrap` returns that error |
| `ErrorDetails.MarshalAfterStr` | pkg/errordetails/errordetails.go:99-105 | adding a context field inserts exactly one pair, after the earlier context pairs and before the error pair |
| `ErrorDetails.MarshalAfterMsg` | pkg/errordetails/errordetails.go:92 | replacing the message changes only the first pair written |
| `ErrorDetails.StrChain` | pkg/errordetails/errordetails_test.go:30-42 | `Str("key1","value1").Str("key2","value2")` records both fields in call order |
| `ErrorDetails.IntChain` | pkg/errordetails/errordetails_test.go:44-56 | `Int("key1",1).Int("key2",2)` records `"1"` and `"2"` in call order |
| `Logging.OptionalSlots` | pkg/logging/logging.go:48-86 | the thirteen nil-guarded emissions in source order: `index`, `label_app`, `http_method`, `path`, `status_code`, `request_id`, `remote_ip`, `content_type`, `latency`, `container_name`, `pod`, `cluster_name`, `cluster_region` |
| `Logging.MarshalZerologObject` | pkg/logging/logging.go:47-89 | `message` and `start_time` are always written, as the last two pairs in that order |
| `Logging.NewLogging` | pkg/logging/logging.go:92-97 | the record carries the given message and clock reading, and every optional field is nil |
| `Logging.OptionalKeysDistinct` | pkg/logging/logging.go:48-88 | the thirteen optional keys are pairwise distinct and differ from `message` and `start_time` |
| `Logging.MarshalLength` | pkg/logging/logging.go:48-88 | the event holds two pairs plus one per set optional field |
| `Logging.MarshalLookupFixed` | pkg/logging/logging.go:87-88 | the event carries the message under `message` and the start time under `start_time` |
| `Logging.MarshalLookupOptional` | pkg/logging/logging.go:48-86 | each optional key appears iff its field is set, with the pointed-to value: `status_code` as an integer, the others as strings |
| `Logging.MarshalLookupSlot` | pkg/logging/logging.go:48-86 | the optional field at a given position is found under its key iff it is set |
| `Logging.MarshalPosition` | pkg/logging/logging.go:48-88 | a set optional field is written at the position that counts the set fields before it, ahead of `message` |
| `Logging.MarshalOrder` | pkg/logging/logging.go:48-86 | of two set optional fields, the one earlier in the fixed order is written first |
| `Logging.NewLoggingMarshal` | pkg/logging/logging.go:92-97 | a fresh record serialises to exactly the `message` and `start_time` pairs |

## Left out

- Network fetch of the key set (`jwk.Fetch`): I/O. It is an argument of type `Result<KeySet, string>`.
- `jwk.PublicRawKeyOf`: library code. It is an argument function that may fail.
- The error that `key.Set("alg", …)` returns, which `lookupKeyID` ignores: the model assumes the assignment always succeeds.
- Concurrent access to the shared key set: the model is sequential.
- Inside `jwt.Parse`: base64url and JSON decoding, signing-method lookup, RSA/HMAC signature verification and the registered time claims (`exp`, `iat`, `nbf`). These are library, cryptographic and clock-dependent code. They are the `decode`, `signatureError` and `claimsError` functions of `Jwt.Library`.
- `runtime.Caller`, `runtime.FuncForPC`, `runtime.Stack`, `time.Now` and the `%T` type name: runtime introspection and the clock. They are arguments (`CallSite`, the dump text, an `Instant`, `GoError.typeName`).
- RFC 3339 rendering of `start_time` and the JSON encoding of events: an event is the ordered list of typed pairs added to it.
- `NewErrorDetails(nil)` and `Error()` on a record without a wrapped error panic in Go. `NewErrorDetails` takes a non-nil error, and `ErrorDetails.Error` requires one.
- Format.FormatInt: Go's `int` is 32 or 64 bits wide, depending on the platform. The model uses unbounded integers, which is harmless because formatting never wraps.
- Strings.TrimSpace: only ASCII white space is trimmed. Multi-byte Unicode spaces at the ends of a goroutine dump are not modelled.
- `src/internal/services/logging_service.go`: writer plumbing, process-ending Panic/Fatal levels, and a JSON round trip through a record type that is not part of this model.
- `pkg/authz/test/helper.go`: file reads and token-signing fixtures for tests.
- The `JWKServices`/`JWTServices` interfaces and `NewJWTAuthService`: they carry no logic.
