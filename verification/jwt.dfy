/** The token validator: parses a compact JSON Web Signature (RFC 7515), lets a key-selection
    callback vet the signing algorithm, and checks the authorisation policy claim. */
module Jwt {
  import opened Wrappers
  import Strings
  import Jwk

  /** The JSON values a header parameter or claim can hold. */
  datatype Json = JString(s: string) | JNumber(x: real) | JBool(b: bool) | JNull | JArray | JObject

  /** Signing-method families (section 3.1 of RFC 7518): HMAC (HS*), RSASSA-PKCS1-v1_5 (RS*),
      ECDSA (ES*), RSASSA-PSS (PS*) and the unsecured `none`. */
  datatype Family = Hmac | RsaPkcs1 | Ecdsa | RsaPss | Unsecured

  /** The signing method the token's header selected: its algorithm name and family. */
  datatype SigningMethod = SigningMethod(alg: string, family: Family)

  /** A structurally decoded token: header parameters, the method the header selected, claims, and
      the two parts the signature covers and carries: the signing input (the header and payload
      segments as transmitted, joined by a dot) and the signature segment. */
  datatype Token = Token(
    header: map<string, Json>,
    signingMethod: SigningMethod,
    claims: map<string, Json>,
    signingInput: string,
    signature: string)

  /** The JWT library, as parameters: `decode` splits the compact token, decodes base64url and JSON
      and looks the signing method up; `claimsError` is the registered time-claims check (`exp`,
      `iat`, `nbf`); `signatureError` is the method's verification of the transmitted signature over
      the transmitted signing input under a key. Each check answers an error text on failure. */
  datatype Library = Library(
    decode: string -> Result<Token, string>,
    claimsError: map<string, Json> -> Option<string>,
    signatureError: (SigningMethod, string, string, Jwk.PublicKey) -> Option<string>)

  /** The signature check applied to what the token actually carried. */
  function SignatureCheck(lib: Library, t: Token, key: Jwk.PublicKey): Option<string>
  {
    lib.signatureError(t.signingMethod, t.signingInput, t.signature, key)
  }

  /** The validator's answer: valid (a nil error), an error text, or a runtime panic. */
  datatype Verdict = Valid | Invalid(error: string) | Panic

  const InvalidPolicy := "invalid policy permission"
  const UnexpectedMethodPrefix := "unexpected signing method: "
  const PolicyClaim := "group_policy"
  const RequiredPolicy := "ReadDevices"

  /** The algorithms the library registers, with their families (RS256 .. PS512 and `none`). */
  function MethodFor(alg: string): Option<SigningMethod>
  {
    if alg in {"RS256", "RS384", "RS512"} then Some(SigningMethod(alg, RsaPkcs1))
    else if alg in {"PS256", "PS384", "PS512"} then Some(SigningMethod(alg, RsaPss))
    else if alg in {"ES256", "ES384", "ES512"} then Some(SigningMethod(alg, Ecdsa))
    else if alg in {"HS256", "HS384", "HS512"} then Some(SigningMethod(alg, Hmac))
    else if alg == "none" then Some(SigningMethod(alg, Unsecured))
    else None
  }

  /** What a successful structural decode guarantees: the header's `alg` is a string naming a
      registered method, and that is the method the token carries. */
  predicate HeaderConsistent(t: Token)
  {
    "alg" in t.header && t.header["alg"] == JString(t.signingMethod.alg) && MethodFor(t.signingMethod.alg) == Some(t.signingMethod)
  }

  /** The key-selection callback: an RSASSA-PKCS1-v1_5 method gets the caller's key; otherwise, when
      the header's `alg` is a string, the callback fails naming it; otherwise the caller's key is
      handed out after all. */
  function KeyFunc(publicKey: Jwk.PublicKey, t: Token): (r: Result<Jwk.PublicKey, string>)
    ensures t.signingMethod.family == RsaPkcs1 ==> r == Success(publicKey)
    ensures r.Failure? <==>
              t.signingMethod.family != RsaPkcs1 && "alg" in t.header && t.header["alg"].JString?
    ensures r.Failure? ==> r.error == UnexpectedMethodPrefix + t.header["alg"].s
    ensures r.Success? ==> r.value == publicKey
  {
    if t.signingMethod.family == RsaPkcs1 then Success(publicKey)
    else if "alg" in t.header && t.header["alg"].JString? then
      Failure(UnexpectedMethodPrefix + t.header["alg"].s)
    else Success(publicKey)
  }

  /** `jwt.Parse`: decode, then the callback, then the time claims and the signature. A decode or
      callback error is returned at once; when both later checks fail, the signature error is the one
      reported, because the library records it last. */
  function Parse(lib: Library, raw: string, publicKey: Jwk.PublicKey): (r: Result<Token, string>)
    ensures r.Success? <==>
              && lib.decode(raw).Success?
              && KeyFunc(publicKey, lib.decode(raw).value).Success?
              && SignatureCheck(lib, lib.decode(raw).value, publicKey).None?
              && lib.claimsError(lib.decode(raw).value.claims).None?
    ensures r.Success? ==> r.value == lib.decode(raw).value
    ensures lib.decode(raw).Failure? ==> r == Failure(lib.decode(raw).error)
    ensures lib.decode(raw).Success? && KeyFunc(publicKey, lib.decode(raw).value).Failure? ==>
              r == Failure(KeyFunc(publicKey, lib.decode(raw).value).error)
    ensures lib.decode(raw).Success? && KeyFunc(publicKey, lib.decode(raw).value).Success? &&
            SignatureCheck(lib, lib.decode(raw).value, publicKey).Some? ==>
              r == Failure(SignatureCheck(lib, lib.decode(raw).value, publicKey).value)
    ensures lib.decode(raw).Success? && KeyFunc(publicKey, lib.decode(raw).value).Success? &&
            SignatureCheck(lib, lib.decode(raw).value, publicKey).None? &&
            lib.claimsError(lib.decode(raw).value.claims).Some? ==>
              r == Failure(lib.claimsError(lib.decode(raw).value.claims).value)
  {
    match lib.decode(raw)
    case Failure(e) => Failure(e)
    case Success(t) =>
      match KeyFunc(publicKey, t)
      case Failure(e) => Failure(e)
      case Success(key) =>
        match SignatureCheck(lib, t, key)
        case Some(e) => Failure(e)
        case None =>
          match lib.claimsError(t.claims)
          case Some(e) => Failure(e)
          case None => Success(t)
  }

  /** The policy claim is present and a string. */
  predicate HasPolicyClaim(t: Token)
  {
    PolicyClaim in t.claims && t.claims[PolicyClaim].JString?
  }

  /** `validatePolicy`: the policy claim names the required policy somewhere in its text. The claim
      must be present and a string: `validatePolicy` asserts its type unchecked. */
  function ValidatePolicy(t: Token): (ok: bool)
    requires HasPolicyClaim(t)
    ensures ok <==> Strings.IsSubstring(RequiredPolicy, t.claims[PolicyClaim].s)
  {
    Strings.Contains(t.claims[PolicyClaim].s, RequiredPolicy)
  }

  /** `ValidateToken`: any parse error as-is; then a token without a string policy claim panics, one
      whose policy lacks the required grant is rejected, and every other token is valid. */
  function ValidateToken(lib: Library, raw: string, publicKey: Jwk.PublicKey): (v: Verdict)
    ensures Parse(lib, raw, publicKey).Failure? ==> v == Invalid(Parse(lib, raw, publicKey).error)
    ensures v == Valid <==>
              && Parse(lib, raw, publicKey).Success?
              && HasPolicyClaim(Parse(lib, raw, publicKey).value)
              && Strings.IsSubstring(RequiredPolicy, Parse(lib, raw, publicKey).value.claims[PolicyClaim].s)
    ensures Parse(lib, raw, publicKey).Success? && HasPolicyClaim(Parse(lib, raw, publicKey).value) ==>
              (v == Invalid(InvalidPolicy) <==>
               !Strings.IsSubstring(RequiredPolicy, Parse(lib, raw, publicKey).value.claims[PolicyClaim].s))
    ensures v == Panic <==> Parse(lib, raw, publicKey).Success? && !HasPolicyClaim(Parse(lib, raw, publicKey).value)
  {
    match Parse(lib, raw, publicKey)
    case Failure(e) => Invalid(e)
    case Success(t) =>
      if !HasPolicyClaim(t) then Panic
      else if !ValidatePolicy(t) then Invalid(InvalidPolicy)
      else Valid
  }

  /** For a consistently decoded header, the callback accepts exactly the RS256, RS384 and RS512
      algorithms and names any other in its error. */
  lemma KeyFuncAcceptsOnlyRsaPkcs1(publicKey: Jwk.PublicKey, t: Token)
    requires HeaderConsistent(t)
    ensures KeyFunc(publicKey, t).Success? <==> t.signingMethod.alg in {"RS256", "RS384", "RS512"}
    ensures KeyFunc(publicKey, t).Failure? ==>
              KeyFunc(publicKey, t).error == UnexpectedMethodPrefix + t.signingMethod.alg
  {
  }

  /** A token whose consistently decoded method is not RSASSA-PKCS1-v1_5 (HMAC, say) is rejected with
      the unexpected-method error, whatever its claims and whatever the signature check would say. */
  lemma NoAlgorithmConfusion(lib: Library, raw: string, publicKey: Jwk.PublicKey)
    requires lib.decode(raw).Success?
    requires HeaderConsistent(lib.decode(raw).value)
    requires lib.decode(raw).value.signingMethod.family != RsaPkcs1
    ensures ValidateToken(lib, raw, publicKey) ==
            Invalid(UnexpectedMethodPrefix + lib.decode(raw).value.signingMethod.alg)
  {
  }

  /** A valid verdict needs a consistently decoded RS256, RS384 or RS512 token whose transmitted
      signature verified over its transmitted signing input under the caller's key, and whose time
      claims passed. */
  lemma ValidImpliesRsaPkcs1(lib: Library, raw: string, publicKey: Jwk.PublicKey)
    requires ValidateToken(lib, raw, publicKey) == Valid
    requires lib.decode(raw).Success? ==> HeaderConsistent(lib.decode(raw).value)
    ensures lib.decode(raw).Success?
    ensures lib.decode(raw).value.signingMethod.alg in {"RS256", "RS384", "RS512"}
    ensures lib.signatureError(lib.decode(raw).value.signingMethod, lib.decode(raw).value.signingInput,
                               lib.decode(raw).value.signature, publicKey).None?
    ensures lib.claimsError(lib.decode(raw).value.claims).None?
  {
  }

  /** A transmitted signature that fails verification under the caller's key rejects the token with
      the library's signature error, whatever the time claims say; the policy is never consulted. */
  lemma VerifyErrorPropagates(lib: Library, raw: string, publicKey: Jwk.PublicKey, e: string)
    requires lib.decode(raw).Success?
    requires lib.decode(raw).value.signingMethod.family == RsaPkcs1
    requires lib.signatureError(lib.decode(raw).value.signingMethod, lib.decode(raw).value.signingInput,
                                lib.decode(raw).value.signature, publicKey) == Some(e)
    ensures ValidateToken(lib, raw, publicKey) == Invalid(e)
  {
  }

  /** With a good signature, a failed time-claims check (an expired token, say) is returned as-is. */
  lemma ClaimsErrorPropagates(lib: Library, raw: string, publicKey: Jwk.PublicKey, e: string)
    requires lib.decode(raw).Success?
    requires lib.decode(raw).value.signingMethod.family == RsaPkcs1
    requires SignatureCheck(lib, lib.decode(raw).value, publicKey).None?
    requires lib.claimsError(lib.decode(raw).value.claims) == Some(e)
    ensures ValidateToken(lib, raw, publicKey) == Invalid(e)
  {
  }

  /** Replacing the signature of a valid token with one that does not verify under the caller's key
      turns the verdict into that signature error: header, claims and policy alone never make a token
      valid. */
  lemma ForgedSignatureRejected(lib: Library, raw: string, forged: string, publicKey: Jwk.PublicKey, e: string)
    requires ValidateToken(lib, raw, publicKey) == Valid
    requires lib.decode(forged).Success?
    requires lib.decode(forged).value == lib.decode(raw).value.(signature := lib.decode(forged).value.signature)
    requires SignatureCheck(lib, lib.decode(forged).value, publicKey) == Some(e)
    ensures ValidateToken(lib, forged, publicKey) == Invalid(e)
  {
  }

  /** A token carrying policy text "ManageDeviceSecurity" alone is refused for lack of permission. */
  lemma ManageDeviceSecurityIsDenied(lib: Library, raw: string, publicKey: Jwk.PublicKey)
    requires Parse(lib, raw, publicKey).Success?
    requires PolicyClaim in Parse(lib, raw, publicKey).value.claims
    requires Parse(lib, raw, publicKey).value.claims[PolicyClaim] == JString("ManageDeviceSecurity")
    ensures ValidateToken(lib, raw, publicKey) == Invalid(InvalidPolicy)
  {
    var policies := "ManageDeviceSecurity";
    forall i: nat ensures !Strings.OccursAt(policies, RequiredPolicy, i) {
      if i + |RequiredPolicy| <= |policies| {
        assert policies[i..i + |RequiredPolicy|][0] == policies[i] != 'R';
      }
    }
  }

  /** A token carrying policy text "ManageDeviceSecurity,ReadDevices" is valid: containment is a
      substring test across the delimited list. */
  lemma ReadDevicesInListIsGranted(lib: Library, raw: string, publicKey: Jwk.PublicKey)
    requires Parse(lib, raw, publicKey).Success?
    requires PolicyClaim in Parse(lib, raw, publicKey).value.claims
    requires Parse(lib, raw, publicKey).value.claims[PolicyClaim] == JString("ManageDeviceSecurity,ReadDevices")
    ensures ValidateToken(lib, raw, publicKey) == Valid
  {
    var policies := "ManageDeviceSecurity,ReadDevices";
    assert policies[21..32] == RequiredPolicy;
    assert Strings.OccursAt(policies, RequiredPolicy, 21);
  }
}
