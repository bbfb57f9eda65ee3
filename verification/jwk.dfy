/** The key resolver: a JSON Web Key Set (section 5 of RFC 7517) fetched once, and lookup of a key
    by its key identifier (`kid`, section 4.5 of RFC 7517). */
module Jwk {
  import opened Wrappers

  /** Raw public key material, as handed to a signature check: key type and its parameters. */
  datatype PublicKey = PublicKey(kty: string, params: map<string, string>)

  /** One published key: identifier, declared algorithm (the `alg` member, possibly absent) and
      key material. */
  datatype Key = Key(kid: string, alg: Option<string>, kty: string, params: map<string, string>)

  /** A fetched key set: the keys in document order. */
  datatype KeySet = KeySet(keys: seq<Key>)

  /** The resolver: a key set, or none when the fetch failed. */
  datatype Service = Service(jwks: Option<KeySet>)

  const EmptyJwkResource := "empty jwk resource"
  const KidNotFound := "not found KID in token"

  /** The algorithm the resolver pins on every key it serves. */
  const PinnedAlg := "RS256"

  /** `getKeys`: the outcome of the fetch (network transport and parsing are not modelled) becomes the
      fetched set, or no set at all on any failure. */
  function GetKeys(fetched: Result<KeySet, string>): (jwks: Option<KeySet>)
    ensures fetched.Failure? <==> jwks.None?
    ensures fetched.Success? ==> jwks == Some(fetched.value)
  {
    match fetched
    case Success(keys) => Some(keys)
    case Failure(_) => None
  }

  /** `NewJWKService`: a resolver holding whatever the fetch produced. */
  function NewJwkService(fetched: Result<KeySet, string>): (svc: Service)
    ensures svc.jwks.None? <==> fetched.Failure?
    ensures fetched.Success? ==> svc.jwks == Some(fetched.value)
  {
    Service(GetKeys(fetched))
  }

  /** `i` is the first position whose key has identifier `kid`. */
  predicate IsFirstMatch(keys: seq<Key>, kid: string, i: nat)
  {
    i < |keys| && keys[i].kid == kid && forall j :: 0 <= j < i ==> keys[j].kid != kid
  }

  /** Does some key carry identifier `kid`? */
  predicate HasKid(keys: seq<Key>, kid: string)
  {
    exists j :: 0 <= j < |keys| && keys[j].kid == kid
  }

  /** The key set's own lookup: scans the keys in order from position `from` and stops at the first
      whose identifier matches. */
  function FindFrom(keys: seq<Key>, kid: string, from: nat): (r: Option<nat>)
    requires from <= |keys|
    ensures r.Some? ==> from <= r.value < |keys| && keys[r.value].kid == kid
    ensures r.Some? ==> forall j :: from <= j < r.value ==> keys[j].kid != kid
    ensures r.None? ==> forall j :: from <= j < |keys| ==> keys[j].kid != kid
    decreases |keys| - from
  {
    if from == |keys| then None
    else if keys[from].kid == kid then Some(from)
    else FindFrom(keys, kid, from + 1)
  }

  /** The lookup finds the first matching key, and finds nothing exactly when no key matches. */
  function Find(keys: seq<Key>, kid: string): (r: Option<nat>)
    ensures r.Some? <==> HasKid(keys, kid)
    ensures r.Some? ==> IsFirstMatch(keys, kid, r.value)
  {
    FindFrom(keys, kid, 0)
  }

  /** The key as the resolver serves it: the published key with its algorithm overwritten. */
  function PinAlg(k: Key): (pinned: Key)
    ensures pinned.alg == Some(PinnedAlg)
    ensures pinned.(alg := k.alg) == k
  {
    k.(alg := Some(PinnedAlg))
  }

  /** `lookupKeyID`: on a hit, the first key with that identifier, its algorithm pinned in place in
      the set; otherwise the not-found error. The updated set is returned alongside the key. */
  function LookupKeyId(kid: string, jwks: KeySet): (r: Result<(Key, KeySet), string>)
    ensures r.Failure? <==> !HasKid(jwks.keys, kid)
    ensures r.Failure? ==> r.error == KidNotFound
    ensures r.Success? ==>
              exists i: nat :: IsFirstMatch(jwks.keys, kid, i) &&
                               r.value.0 == PinAlg(jwks.keys[i]) &&
                               r.value.1 == KeySet(jwks.keys[i := r.value.0])
  {
    match Find(jwks.keys, kid)
    case None => Failure(KidNotFound)
    case Some(i) =>
      var key := PinAlg(jwks.keys[i]);
      Success((key, KeySet(jwks.keys[i := key])))
  }

  /** `GetPublicKey`: no set gives the empty-resource error for every kid; an unknown kid gives the
      not-found error; a hit converts the pinned key to raw public key material, passing a conversion
      failure through unchanged. The resolver is returned because the pinning is visible to later
      lookups. The conversion is a parameter. */
  function GetPublicKey(svc: Service, kid: string, toRaw: Key -> Result<PublicKey, string>)
    : (r: (Result<PublicKey, string>, Service))
    ensures svc.jwks.None? ==> r == (Failure(EmptyJwkResource), svc)
    ensures svc.jwks.Some? && !HasKid(svc.jwks.value.keys, kid) ==> r == (Failure(KidNotFound), svc)
    ensures svc.jwks.Some? && HasKid(svc.jwks.value.keys, kid) ==>
              var keys := svc.jwks.value.keys;
              exists i: nat :: IsFirstMatch(keys, kid, i) &&
                               r.0 == toRaw(PinAlg(keys[i])) &&
                               r.1 == Service(Some(KeySet(keys[i := PinAlg(keys[i])])))
  {
    match svc.jwks
    case None => (Failure(EmptyJwkResource), svc)
    case Some(jwks) =>
      match LookupKeyId(kid, jwks)
      case Failure(e) => (Failure(e), svc)
      case Success((key, updated)) =>
        match toRaw(key)
        case Failure(e) => (Failure(e), Service(Some(updated)))
        case Success(pk) => (Success(pk), Service(Some(updated)))
  }

  /** A resolver whose fetch failed answers the empty-resource error for every kid and never changes. */
  lemma FailedFetchAlwaysEmpty(fetchError: string, kid: string, toRaw: Key -> Result<PublicKey, string>)
    ensures var svc := NewJwkService(Failure(fetchError));
            GetPublicKey(svc, kid, toRaw) == (Failure(EmptyJwkResource), svc)
  {
  }

  /** An empty fetched set is distinct from a failed fetch: every kid is reported as not found. */
  lemma EmptySetIsNotMissing(kid: string, toRaw: Key -> Result<PublicKey, string>)
    ensures GetPublicKey(NewJwkService(Success(KeySet([]))), kid, toRaw).0 == Failure(KidNotFound)
  {
  }

  /** Pinning only touches the matched position: same length, same identifiers everywhere, every other
      key unchanged, and the matched key differs from the published one in its algorithm alone. */
  lemma LookupPreservesSet(kid: string, jwks: KeySet)
    requires LookupKeyId(kid, jwks).Success?
    ensures var (key, updated) := LookupKeyId(kid, jwks).value;
            && |updated.keys| == |jwks.keys|
            && (forall j :: 0 <= j < |jwks.keys| ==> updated.keys[j].kid == jwks.keys[j].kid)
            && (forall j :: 0 <= j < |jwks.keys| && jwks.keys[j] != updated.keys[j] ==>
                  updated.keys[j] == key && jwks.keys[j].(alg := Some(PinnedAlg)) == key)
            && key.kid == kid
  {
  }

  /** Looking the same kid up again in the updated set returns the same key and changes nothing more. */
  lemma LookupIdempotent(kid: string, jwks: KeySet)
    requires LookupKeyId(kid, jwks).Success?
    ensures var (key, updated) := LookupKeyId(kid, jwks).value;
            LookupKeyId(kid, updated) == Success((key, updated))
  {
    var (key, updated) := LookupKeyId(kid, jwks).value;
    var i: nat :| IsFirstMatch(jwks.keys, kid, i) && key == PinAlg(jwks.keys[i]) &&
                  updated == KeySet(jwks.keys[i := key]);
    assert IsFirstMatch(updated.keys, kid, i);
    var (key2, updated2) := LookupKeyId(kid, updated).value;
    var i2: nat :| IsFirstMatch(updated.keys, kid, i2) && key2 == PinAlg(updated.keys[i2]) &&
                   updated2 == KeySet(updated.keys[i2 := key2]);
    assert i2 == i;
    assert updated.keys[i := key] == updated.keys;
  }

  /** With a loaded set, the result is an error exactly when the kid is unknown or the conversion
      fails. */
  lemma GetPublicKeyFailsIff(svc: Service, kid: string, toRaw: Key -> Result<PublicKey, string>)
    requires svc.jwks.Some?
    ensures GetPublicKey(svc, kid, toRaw).0.Failure? <==>
            !HasKid(svc.jwks.value.keys, kid) ||
            toRaw(PinAlg(svc.jwks.value.keys[Find(svc.jwks.value.keys, kid).value])).Failure?
  {
  }
}
