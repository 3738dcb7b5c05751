/**
 * The parts of the golang-jwt v5 library the JWT package relies on, with
 * cryptography made symbolic: a signature records who signed what, with
 * which algorithm, and verification compares it with the key and the signed
 * content.  Compact serialisation is abstracted: a token is either three
 * decoded segments or text that does not decode.
 *
 * Dates are NumericDate values (section 2 of RFC 7519): whole seconds since
 * the epoch.  Instants handed in from outside are nanoseconds.
 */
module JwtLibrary {
  import opened Wrappers
  import opened JwtErrors

  const Second: int := 1_000_000_000

  /** `jwt.NewNumericDate`: an instant truncated to whole seconds. */
  function NumericDate(t: int): (secs: int)
    ensures secs * Second <= t < (secs + 1) * Second
  {
    t / Second
  }

  // ---------------------------------------------------------------- keys

  /** An RSA key pair is identified by `id`; `signError` is the error the
      signing primitive reports for this private key, if any. */
  datatype PrivateKey = PrivateKey(id: nat, signError: Option<string>)
  datatype PublicKey = PublicKey(id: nat)

  function Public(k: PrivateKey): PublicKey
  {
    PublicKey(k.id)
  }

  // -------------------------------------------------- signing methods

  /** The registered signing methods.  `RSA` is `*jwt.SigningMethodRSA`
      (RS256, RS384, RS512); RSA-PSS is a different Go type. */
  datatype Method = RSA(bits: nat) | RSAPSS(bits: nat) | HMAC(bits: nat) | ECDSA(bits: nat) | EdDSA | Unsecured

  predicate ValidBits(m: Method)
  {
    (m.RSA? || m.RSAPSS? || m.HMAC? || m.ECDSA?) ==> m.bits in {256, 384, 512}
  }

  function BitsText(bits: nat): string
  {
    if bits == 256 then "256" else if bits == 384 then "384" else "512"
  }

  /** The `alg` header value of a method (section 3.1 of RFC 7518). */
  function Alg(m: Method): string
  {
    match m
    case RSA(b) => "RS" + BitsText(b)
    case RSAPSS(b) => "PS" + BitsText(b)
    case HMAC(b) => "HS" + BitsText(b)
    case ECDSA(b) => "ES" + BitsText(b)
    case EdDSA => "EdDSA"
    case Unsecured => "none"
  }

  /** `jwt.GetSigningMethod`: the registry lookup by `alg`. */
  function Lookup(alg: string): (m: Option<Method>)
    ensures m.Some? ==> ValidBits(m.value) && Alg(m.value) == alg
  {
    if |alg| == 5 && alg[2..] in {"256", "384", "512"} then
      var bits := if alg[2..] == "256" then 256 else if alg[2..] == "384" then 384 else 512;
      assert BitsText(bits) == alg[2..];
      assert alg == alg[..2] + alg[2..];
      if alg[..2] == "RS" then Some(RSA(bits))
      else if alg[..2] == "PS" then Some(RSAPSS(bits))
      else if alg[..2] == "HS" then Some(HMAC(bits))
      else if alg[..2] == "ES" then Some(ECDSA(bits))
      else None
    else if alg == "EdDSA" then Some(EdDSA)
    else if alg == "none" then Some(Unsecured)
    else None
  }

  /** Every registered method is found under its own name. */
  lemma LookupAlg(m: Method)
    requires ValidBits(m)
    ensures Lookup(Alg(m)) == Some(m)
  {
    match m
    case RSA(b) => assert Alg(m)[2..] == BitsText(b) && Alg(m)[..2] == "RS";
    case RSAPSS(b) => assert Alg(m)[2..] == BitsText(b) && Alg(m)[..2] == "PS";
    case HMAC(b) => assert Alg(m)[2..] == BitsText(b) && Alg(m)[..2] == "HS";
    case ECDSA(b) => assert Alg(m)[2..] == BitsText(b) && Alg(m)[..2] == "ES";
    case EdDSA =>
    case Unsecured =>
  }

  // ----------------------------------------------------------- tokens

  datatype Header = Header(alg: Option<string>, typ: string)

  /** The claims object of a token as JSON: each member may be absent.
      Dates are NumericDate seconds. */
  datatype ClaimSet = ClaimSet(
    userId: Option<int>, username: Option<string>, email: Option<string>,
    jti: Option<string>, exp: Option<int>, iat: Option<int>)

  /** A symbolic signature: the signing key, the algorithm and what was signed. */
  datatype Signature = Signature(keyId: nat, alg: string, header: Header, claims: ClaimSet)

  /** A token string: three decodable segments, or anything else (`Garbled("")`
      is the empty string). */
  datatype Token = Compact(header: Header, claims: ClaimSet, signature: Signature) | Garbled(text: string)

  const EmptyToken := Garbled("")

  /** `jwt.NewWithClaims(method, claims).SignedString(key)` for an RSA method. */
  function SignedString(m: Method, claims: ClaimSet, key: PrivateKey): (r: Result<Token, Error>)
    ensures r.Success? <==> key.signError.None?
    ensures r.Success? ==> (r.value.Compact? && r.value.header == Header(Some(Alg(m)), "JWT") &&
                            r.value.claims == claims && r.value.signature.keyId == key.id)
    ensures r.Failure? ==> r.error == Plain(key.signError.value)
  {
    if key.signError.Some? then Failure(Plain(key.signError.value))
    else
      var h := Header(Some(Alg(m)), "JWT");
      Success(Compact(h, claims, Signature(key.id, Alg(m), h, claims)))
  }

  /** RSA verification of the signed content under `key` with method `m`. */
  predicate Verifies(m: Method, key: PublicKey, t: Token)
    requires t.Compact?
  {
    t.signature == Signature(key.id, Alg(m), t.header, t.claims)
  }

  /** What `jwt.ParseWithClaims` reports: the decoded claims, `token.Valid`,
      and the error. */
  datatype Verdict = Verdict(claims: ClaimSet, valid: bool, err: Option<Error>)

  const NoClaims := ClaimSet(None, None, None, None, None, None)

  /** The key function's view of a token: its method and its `alg` text. */
  type KeyFunc = (Method, string) -> Result<PublicKey, Error>

  /** Whether the key function rejects `t` with an error whose chain holds `s`. */
  predicate KeyFuncFailsWith(t: Token, keyFunc: KeyFunc, s: Sentinel)
    requires t.Compact?
  {
    t.header.alg.Some? && Lookup(t.header.alg.value).Some? &&
    var r := keyFunc(Lookup(t.header.alg.value).value, t.header.alg.value);
    r.Failure? && Is(r.error, s)
  }

  /** `jwt.ParseWithClaims` with the default parser options, in the library's
      order: decoding, method lookup, key function, signature, then the claims
      (only `exp` is present among the registered dates it checks; a token is
      good while `now` is before `exp`). */
  function ParseWithClaims(t: Token, keyFunc: KeyFunc, now: int): (v: Verdict)
    ensures v.valid <==> v.err.None?
    ensures v.valid ==> t.Compact? && v.claims == t.claims
    ensures v.err.Some? && Is(v.err.value, LibTokenExpired) ==>
      (t.Compact? && v.claims == t.claims &&
       ((t.claims.exp.Some? && now >= t.claims.exp.value * Second) || KeyFuncFailsWith(t, keyFunc, LibTokenExpired)))
  {
    match t
    case Garbled(_) => Verdict(NoClaims, false, Some(Of(LibTokenMalformed)))
    case Compact(header, claims, sig) =>
      if header.alg.None? then
        Verdict(claims, false, Some(Error({LibTokenUnverifiable}, "token is unverifiable: signing method (alg) is unspecified")))
      else if Lookup(header.alg.value).None? then
        Verdict(claims, false, Some(Error({LibTokenUnverifiable}, "token is unverifiable: signing method (alg) is unavailable")))
      else
        var m := Lookup(header.alg.value).value;
        match keyFunc(m, header.alg.value)
        case Failure(e) =>
          Verdict(claims, false, Some(Error({LibTokenUnverifiable} + e.chain,
            "token is unverifiable: error while executing keyfunc: " + e.text)))
        case Success(key) =>
          if !Verifies(m, key, t) then
            Verdict(claims, false, Some(Error({LibTokenSignatureInvalid}, "token signature is invalid: crypto/rsa: verification error")))
          else if claims.exp.Some? && !(now < claims.exp.value * Second) then
            Verdict(claims, false, Some(Error({LibTokenInvalidClaims, LibTokenExpired}, "token has invalid claims: token is expired")))
          else Verdict(claims, true, None)
  }
}
