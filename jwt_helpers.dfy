/**
 * Token-id generation and the error classification of parsing
 * (internal/pkg/jwt-manager/v1/helpers.go).
 */
module JwtHelpers {
  import opened Wrappers
  import opened JwtErrors
  import opened JwtLibrary
  import Base64Url

  /** `generateTokenID`: 32 bytes from the random source, base64url-encoded
      without padding.  `random` is what `rand.Read` delivered: the filled
      buffer, or the reader's error text. */
  function GenerateTokenID(random: Result<seq<Base64Url.byte>, string>): (r: Result<string, Error>)
    requires random.Success? ==> |random.value| == 32
    ensures r.Success? <==> random.Success?
    ensures r.Success? ==> |r.value| == 43 && (forall i :: 0 <= i < |r.value| ==> Base64Url.IsUrlChar(r.value[i]))
    ensures r.Success? ==> Base64Url.Decode(r.value) == Some(random.value)
    ensures r.Failure? ==> r.error == Context("generate random bytes", Plain(random.error))
  {
    match random
    case Failure(e) => Failure(Context("generate random bytes", Plain(e)))
    case Success(bytes) =>
      Base64Url.DecodeEncode(bytes);
      Success(Base64Url.Encode(bytes))
  }

  /** Distinct random buffers give distinct token ids. */
  lemma TokenIDsDistinct(a: seq<Base64Url.byte>, b: seq<Base64Url.byte>)
    requires |a| == 32 && |b| == 32 && a != b
    ensures GenerateTokenID(Success(a)) != GenerateTokenID(Success(b))
  {
    if GenerateTokenID(Success(a)) == GenerateTokenID(Success(b)) {
      Base64Url.EncodeInjective(a, b);
    }
  }

  /** `parseToken`: a library error the caller can match with
      `jwt.ErrTokenExpired` becomes exactly `ErrTokenExpired`; any other
      error is wrapped under `ErrTokenParse`, keeping its chain; a token the
      library did not mark valid is `ErrTokenInvalid`. */
  function ParseToken(v: Verdict): (r: Result<ClaimSet, Error>)
    ensures r.Success? <==> v.err.None? && v.valid
    ensures r.Success? ==> r.value == v.claims
    ensures v.err.Some? && Is(v.err.value, LibTokenExpired) ==> r == Failure(Of(TokenExpired))
    ensures v.err.Some? && !Is(v.err.value, LibTokenExpired) ==>
      r.Failure? && r.error.chain == {TokenParse} + v.err.value.chain
    ensures v.err.None? && !v.valid ==> r == Failure(Of(TokenInvalid))
  {
    if v.err.Some? then
      if Is(v.err.value, LibTokenExpired) then Failure(Of(TokenExpired))
      else Failure(Wrap(TokenParse, v.err.value))
    else if !v.valid then Failure(Of(TokenInvalid))
    else Success(v.claims)
  }

  /** With the library's verdicts `ErrTokenInvalid` never occurs: the library
      marks a token valid exactly when it reports no error. */
  lemma InvalidUnreachable(t: Token, keyFunc: KeyFunc, now: int)
    ensures ParseToken(ParseWithClaims(t, keyFunc, now)) != Failure(Of(TokenInvalid))
  {
    var v := ParseWithClaims(t, keyFunc, now);
    if v.err.Some? && !Is(v.err.value, LibTokenExpired) {
      assert TokenParse in ParseToken(v).error.chain;
    }
  }
}
