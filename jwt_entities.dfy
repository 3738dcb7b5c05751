/**
 * Token data and claim records of the JWT package
 * (internal/pkg/jwt-manager/v1/entities.go), with the JSON shape each
 * claim record has inside a token.
 */
module JwtEntities {
  import opened Wrappers
  import opened JwtErrors
  import opened JwtLibrary

  /** What a caller asks to be put into a token pair. */
  datatype TokenData = TokenData(userId: int, username: string, email: string)

  /** `TokenData.valid`: user_id, then username, then email; the first
      missing one is reported.  Only a zero user id is missing. */
  function Valid(d: TokenData): (r: Option<Error>)
    ensures r.None? <==> d.userId != 0 && d.username != "" && d.email != ""
    ensures r.Some? ==> r.value.chain == {}
    ensures d.userId == 0 ==> r == Some(Plain("user_id is required"))
    ensures d.userId != 0 && d.username == "" ==> r == Some(Plain("username is required"))
    ensures d.userId != 0 && d.username != "" && d.email == "" ==> r == Some(Plain("email is required"))
  {
    if d.userId == 0 then Some(Plain("user_id is required"))
    else if d.username == "" then Some(Plain("username is required"))
    else if d.email == "" then Some(Plain("email is required"))
    else None
  }

  /** What parsing an access token returns; `exp` is an instant in nanoseconds. */
  datatype AccessClaims = AccessClaims(userId: int, username: string, email: string, exp: int)

  /** What parsing a refresh token returns. */
  datatype RefreshClaims = RefreshClaims(jwtId: string, userId: int, exp: int)

  /** The registered claims the package sets (sections 4.1.4, 4.1.6 and 4.1.7
      of RFC 7519); dates are NumericDate seconds, absent when nil. */
  datatype Registered = Registered(id: string, expiresAt: Option<int>, issuedAt: Option<int>)

  /** `accessJWTClaims`: the user's id, name and email plus registered claims. */
  datatype AccessJwtClaims = AccessJwtClaims(userId: int, username: string, email: string, registered: Registered)

  /** `refreshJWTClaims`: only the user's id plus registered claims. */
  datatype RefreshJwtClaims = RefreshJwtClaims(userId: int, registered: Registered)

  /** `jti` is `omitempty`: an empty id is left out of the JSON. */
  function IdJson(id: string): (j: Option<string>)
    ensures j.GetOr("") == id
  {
    if id == "" then None else Some(id)
  }

  /** The JSON of `accessJWTClaims`: `user_id`, `username` and `email`
      always present, `jti` left out when empty, the dates as they are. */
  function AccessJson(c: AccessJwtClaims): (j: ClaimSet)
    ensures j.userId == Some(c.userId) && j.username == Some(c.username) && j.email == Some(c.email)
    ensures j.jti.None? <==> c.registered.id == ""
    ensures j.jti.Some? ==> j.jti.value == c.registered.id
    ensures j.exp == c.registered.expiresAt && j.iat == c.registered.issuedAt
  {
    ClaimSet(Some(c.userId), Some(c.username), Some(c.email), IdJson(c.registered.id),
             c.registered.expiresAt, c.registered.issuedAt)
  }

  /** A refresh token's JSON never carries a username or an email. */
  function RefreshJson(c: RefreshJwtClaims): (j: ClaimSet)
    ensures j.username.None? && j.email.None?
  {
    ClaimSet(Some(c.userId), None, None, IdJson(c.registered.id), c.registered.expiresAt, c.registered.issuedAt)
  }

  /** Decoding into `accessJWTClaims`: absent members keep their zero values,
      members the record does not have are ignored. */
  function AccessFromJson(j: ClaimSet): (c: AccessJwtClaims)
    ensures j.userId.Some? ==> c.userId == j.userId.value
    ensures j.userId.None? ==> c.userId == 0
    ensures j.username.Some? ==> c.username == j.username.value
    ensures j.username.None? ==> c.username == ""
    ensures j.email.Some? ==> c.email == j.email.value
    ensures j.email.None? ==> c.email == ""
    ensures j.jti.Some? ==> c.registered.id == j.jti.value
    ensures j.jti.None? ==> c.registered.id == ""
    ensures c.registered.expiresAt == j.exp && c.registered.issuedAt == j.iat
  {
    AccessJwtClaims(j.userId.GetOr(0), j.username.GetOr(""), j.email.GetOr(""),
                    Registered(j.jti.GetOr(""), j.exp, j.iat))
  }

  /** Decoding into `refreshJWTClaims`: `username` and `email` are ignored. */
  function RefreshFromJson(j: ClaimSet): (c: RefreshJwtClaims)
    ensures j.userId.Some? ==> c.userId == j.userId.value
    ensures j.userId.None? ==> c.userId == 0
    ensures j.jti.Some? ==> c.registered.id == j.jti.value
    ensures j.jti.None? ==> c.registered.id == ""
    ensures c.registered.expiresAt == j.exp && c.registered.issuedAt == j.iat
  {
    RefreshJwtClaims(j.userId.GetOr(0), Registered(j.jti.GetOr(""), j.exp, j.iat))
  }

  lemma AccessJsonRoundTrip(c: AccessJwtClaims)
    ensures AccessFromJson(AccessJson(c)) == c
  {
    assert IdJson(c.registered.id).GetOr("") == c.registered.id;
  }

  lemma RefreshJsonRoundTrip(c: RefreshJwtClaims)
    ensures RefreshFromJson(RefreshJson(c)) == c
  {
    assert IdJson(c.registered.id).GetOr("") == c.registered.id;
  }

  /** Either token kind decodes as the other: a refresh token read as an
      access token has an empty name and email, an access token read as a
      refresh token keeps its (normally empty) id. */
  lemma CrossDecoding(a: AccessJwtClaims, r: RefreshJwtClaims)
    ensures RefreshFromJson(AccessJson(a)) == RefreshJwtClaims(a.userId, a.registered)
    ensures AccessFromJson(RefreshJson(r)) == AccessJwtClaims(r.userId, "", "", r.registered)
  {
    assert IdJson(a.registered.id).GetOr("") == a.registered.id;
    assert IdJson(r.registered.id).GetOr("") == r.registered.id;
  }
}
