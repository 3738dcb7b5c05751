/**
 * Error values of the JWT package (internal/pkg/jwt-manager/v1/errors.go)
 * and the sentinels of the golang-jwt v5 library it wraps.  A Go error is
 * modelled by its text and the set of sentinels in its wrap chain, so
 * `errors.Is(err, s)` is membership of `s` in `chain`.
 */
module JwtErrors {
  datatype Sentinel =
    // the package's own sentinels
    | TokenExpired | TokenParse | TokenInvalid | InvalidData | SigningMethod
    // golang-jwt v5
    | LibTokenMalformed | LibTokenUnverifiable | LibTokenSignatureInvalid
    | LibTokenInvalidClaims | LibTokenExpired

  function Text(s: Sentinel): string
  {
    match s
    case TokenExpired => "token expired"
    case TokenParse => "failed to parse token"
    case TokenInvalid => "invalid token"
    case InvalidData => "invalid token data"
    case SigningMethod => "unexpected signing method"
    case LibTokenMalformed => "token is malformed"
    case LibTokenUnverifiable => "token is unverifiable"
    case LibTokenSignatureInvalid => "token signature is invalid"
    case LibTokenInvalidClaims => "token has invalid claims"
    case LibTokenExpired => "token is expired"
  }

  datatype Error = Error(chain: set<Sentinel>, text: string)

  predicate Is(e: Error, s: Sentinel)
  {
    s in e.chain
  }

  /** The sentinel itself. */
  function Of(s: Sentinel): (e: Error)
    ensures e.chain == {s}
  {
    Error({s}, Text(s))
  }

  /** `errors.New(text)`: an error no sentinel matches. */
  function Plain(text: string): (e: Error)
    ensures e.chain == {}
  {
    Error({}, text)
  }

  /** `fmt.Errorf("<context>: %w", inner)`. */
  function Context(context: string, inner: Error): (e: Error)
    ensures e.chain == inner.chain
  {
    Error(inner.chain, context + ": " + inner.text)
  }

  /** `fmt.Errorf("%w: %w", s, inner)`: both stay in the chain. */
  function Wrap(s: Sentinel, inner: Error): (e: Error)
    ensures e.chain == {s} + inner.chain
  {
    Error({s} + inner.chain, Text(s) + ": " + inner.text)
  }
}
