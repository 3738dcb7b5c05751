/**
 * The verify-only validator (internal/pkg/jwt-manager/v1/validator.go).  It
 * holds nothing but a public key, so it has no way to sign.
 */
module JwtValidator {
  import opened Wrappers
  import opened JwtErrors
  import opened JwtLibrary
  import opened JwtEntities
  import opened JwtManager

  datatype Validator = Validator(publicKey: PublicKey)
  {
    /** `ValidateAccess`: the manager's access gate for this key. */
    function ValidateAccess(t: Token, now: int): (p: Parsed<AccessClaims>)
      ensures p.Accepted? <==> RsaSignedBy(t, publicKey) && Live(t, now)
      ensures p.Accepted? ==> p.claims == AccessOf(t)
      ensures p.NilExpiry? <==> RsaSignedBy(t, publicKey) && t.claims.exp.None?
    {
      ParseAccessWith(publicKey, t, now)
    }

    /** `ValidateRefresh`: the manager's refresh gate for this key. */
    function ValidateRefresh(t: Token, now: int): (p: Parsed<RefreshClaims>)
      ensures p.Accepted? <==> RsaSignedBy(t, publicKey) && Live(t, now)
      ensures p.Accepted? ==> p.claims == RefreshOf(t)
      ensures p.NilExpiry? <==> RsaSignedBy(t, publicKey) && t.claims.exp.None?
    {
      ParseRefreshWith(publicKey, t, now)
    }
  }

  /** `NewValidator`: a nil key is refused. */
  function NewValidator(publicKey: Option<PublicKey>): (r: Result<Validator, Error>)
    ensures r.Success? <==> publicKey.Some?
    ensures r.Success? ==> r.value.publicKey == publicKey.value
    ensures r.Failure? ==> r.error == Plain("public key is required")
  {
    if publicKey.None? then Failure(Plain("public key is required")) else Success(Validator(publicKey.value))
  }

  /** A validator and a manager with the same public key agree on every token. */
  lemma ValidatorAgreesWithManager(v: Validator, m: Manager, t: Token, now: int)
    requires v.publicKey == m.publicKey
    ensures v.ValidateAccess(t, now) == m.ParseAccess(t, now)
    ensures v.ValidateRefresh(t, now) == m.ParseRefresh(t, now)
  {
  }

  /** A validator for a manager's key accepts the manager's access tokens
      until they expire and reports exactly `ErrTokenExpired` afterwards. */
  lemma ValidatorAcceptsIssuedAccess(v: Validator, m: Manager, data: TokenData, issued: int, now: int)
    requires m.Paired() && v.publicKey == m.publicKey
    ensures var t := m.GenerateAccess(data, issued).value;
      var exp := NumericDate(issued + m.accessTTL) * Second;
      v.ValidateAccess(t, now) ==
        if now < exp then Accepted(AccessClaims(data.userId, data.username, data.email, exp))
        else Rejected(Of(TokenExpired))
  {
    if now < NumericDate(issued + m.accessTTL) * Second {
      AccessRoundTrip(m, data, issued, now);
    } else {
      AccessExpires(m, data, issued, now);
    }
  }
}
