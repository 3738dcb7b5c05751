/**
 * The token manager (internal/pkg/jwt-manager/v1/manager.go): construction
 * with options, RS256 token generation and parsing.  A `Manager`'s fields
 * change only while `New` applies its options.  Clock readings (`time.Now`)
 * and the random buffer are parameters.
 */
module JwtManager {
  import opened Wrappers
  import opened JwtErrors
  import opened JwtLibrary
  import opened JwtEntities
  import opened JwtHelpers
  import Base64Url

  const Minute: int := 60 * Second
  const Hour: int := 60 * Minute
  const DefaultAccessTTL: int := 15 * Minute
  const DefaultRefreshTTL: int := 15 * 24 * Hour

  /** The only method tokens are signed with. */
  const RS256 := RSA(256)

  lemma RS256Name()
    ensures Alg(RS256) == "RS256"
  {
    assert BitsText(256) == "256";
  }

  // ------------------------------------------------------------ options

  datatype ManagerOption = WithAccessTTL(ttl: int) | WithRefreshTTL(ttl: int)

  datatype Lifetimes = Lifetimes(access: int, refresh: int)

  const Defaults := Lifetimes(DefaultAccessTTL, DefaultRefreshTTL)

  /** One option applied: it sets its own lifetime and no other. */
  function ApplyOption(l: Lifetimes, o: ManagerOption): (r: Lifetimes)
    ensures o.WithAccessTTL? ==> r == l.(access := o.ttl)
    ensures o.WithRefreshTTL? ==> r == l.(refresh := o.ttl)
  {
    match o
    case WithAccessTTL(d) => l.(access := d)
    case WithRefreshTTL(d) => l.(refresh := d)
  }

  /** The options applied in order. */
  function ApplyAll(l: Lifetimes, opts: seq<ManagerOption>): Lifetimes
  {
    if opts == [] then l else ApplyOption(ApplyAll(l, opts[..|opts| - 1]), opts[|opts| - 1])
  }

  /** The last `WithAccessTTL` wins; without one the starting value stays. */
  lemma {:induction false} LastAccessTTLWins(l: Lifetimes, opts: seq<ManagerOption>, i: int)
    requires -1 <= i < |opts|
    requires i >= 0 ==> opts[i].WithAccessTTL?
    requires forall j :: i < j < |opts| ==> !opts[j].WithAccessTTL?
    ensures ApplyAll(l, opts).access == if i >= 0 then opts[i].ttl else l.access
  {
    if opts != [] && i < |opts| - 1 {
      var p := opts[..|opts| - 1];
      LastAccessTTLWins(l, p, i);
    }
  }

  /** The last `WithRefreshTTL` wins; without one the starting value stays. */
  lemma {:induction false} LastRefreshTTLWins(l: Lifetimes, opts: seq<ManagerOption>, i: int)
    requires -1 <= i < |opts|
    requires i >= 0 ==> opts[i].WithRefreshTTL?
    requires forall j :: i < j < |opts| ==> !opts[j].WithRefreshTTL?
    ensures ApplyAll(l, opts).refresh == if i >= 0 then opts[i].ttl else l.refresh
  {
    if opts != [] && i < |opts| - 1 {
      var p := opts[..|opts| - 1];
      LastRefreshTTLWins(l, p, i);
    }
  }

  // ---------------------------------------------------------- key function

  /** `keyFunc`: the public key for the RSA family (RS256, RS384, RS512),
      `ErrSigningMethod` naming the `alg` for every other method. */
  function KeyFunc(pub: PublicKey): (k: JwtLibrary.KeyFunc)
    ensures forall m, alg :: k(m, alg).Success? <==> m.RSA?
    ensures forall m, alg :: k(m, alg).Success? ==> k(m, alg).value == pub
    ensures forall m, alg :: k(m, alg).Failure? ==>
      k(m, alg).error == Error({SigningMethod}, Text(SigningMethod) + ": " + alg)
  {
    (m: Method, alg: string) =>
      if m.RSA? then Success(pub) else Failure(Error({SigningMethod}, Text(SigningMethod) + ": " + alg))
  }

  lemma KeyFuncGate(pub: PublicKey, m: Method, alg: string)
    ensures KeyFunc(pub)(m, alg).Success? <==> m.RSA?
    ensures KeyFunc(pub)(m, alg).Success? ==> KeyFunc(pub)(m, alg).value == pub
    ensures KeyFunc(pub)(m, alg).Failure? ==> KeyFunc(pub)(m, alg).error.chain == {SigningMethod}
  {
  }

  // ------------------------------------------------------------- parsing

  /** What a parse returns.  Go dereferences the `exp` pointer unchecked, so a
      valid token without `exp` makes it panic: `NilExpiry`. */
  datatype Parsed<T> = Accepted(claims: T) | Rejected(err: Error) | NilExpiry

  /** The token is compact, names an RSA `alg` (RS256, RS384, RS512) and carries
      a signature made with the private half of `pub` over its header and claims. */
  predicate RsaSignedBy(t: Token, pub: PublicKey)
  {
    t.Compact? && t.header.alg.Some? && Lookup(t.header.alg.value).Some? &&
    Lookup(t.header.alg.value).value.RSA? && Verifies(Lookup(t.header.alg.value).value, pub, t)
  }

  /** The token has an `exp` claim and `now` is still before it. */
  predicate Live(t: Token, now: int)
  {
    t.Compact? && t.claims.exp.Some? && now < t.claims.exp.value * Second
  }

  /** The access claims a token carries, with `exp` in nanoseconds. */
  function AccessOf(t: Token): AccessClaims
    requires t.Compact? && t.claims.exp.Some?
  {
    AccessClaims(t.claims.userId.GetOr(0), t.claims.username.GetOr(""), t.claims.email.GetOr(""),
                 t.claims.exp.value * Second)
  }

  /** The refresh claims a token carries, with `exp` in nanoseconds. */
  function RefreshOf(t: Token): RefreshClaims
    requires t.Compact? && t.claims.exp.Some?
  {
    RefreshClaims(t.claims.jti.GetOr(""), t.claims.userId.GetOr(0), t.claims.exp.value * Second)
  }

  /** `ParseAccess` / `ValidateAccess` for the key `pub`. */
  function ParseAccessWith(pub: PublicKey, t: Token, now: int): (p: Parsed<AccessClaims>)
    ensures p.Accepted? <==> RsaSignedBy(t, pub) && Live(t, now)
    ensures p.Accepted? ==> p.claims == AccessOf(t)
    ensures p.NilExpiry? <==> RsaSignedBy(t, pub) && t.claims.exp.None?
    ensures p.Rejected? <==> ParseToken(ParseWithClaims(t, KeyFunc(pub), now)).Failure?
    ensures p.Rejected? ==> p.err == ParseToken(ParseWithClaims(t, KeyFunc(pub), now)).error
    ensures p.NilExpiry? <==> ParseWithClaims(t, KeyFunc(pub), now).valid && t.claims.exp.None?
  {
    match ParseToken(ParseWithClaims(t, KeyFunc(pub), now))
    case Failure(e) => Rejected(e)
    case Success(json) =>
      var c := AccessFromJson(json);
      if c.registered.expiresAt.None? then NilExpiry
      else Accepted(AccessClaims(c.userId, c.username, c.email, c.registered.expiresAt.value * Second))
  }

  /** `ParseRefresh` / `ValidateRefresh` for the key `pub`. */
  function ParseRefreshWith(pub: PublicKey, t: Token, now: int): (p: Parsed<RefreshClaims>)
    ensures p.Accepted? <==> RsaSignedBy(t, pub) && Live(t, now)
    ensures p.Accepted? ==> p.claims == RefreshOf(t)
    ensures p.NilExpiry? <==> RsaSignedBy(t, pub) && t.claims.exp.None?
    ensures p.Rejected? <==> ParseToken(ParseWithClaims(t, KeyFunc(pub), now)).Failure?
    ensures p.Rejected? ==> p.err == ParseToken(ParseWithClaims(t, KeyFunc(pub), now)).error
    ensures p.NilExpiry? <==> ParseWithClaims(t, KeyFunc(pub), now).valid && t.claims.exp.None?
  {
    match ParseToken(ParseWithClaims(t, KeyFunc(pub), now))
    case Failure(e) => Rejected(e)
    case Success(json) =>
      var c := RefreshFromJson(json);
      if c.registered.expiresAt.None? then NilExpiry
      else Accepted(RefreshClaims(c.registered.id, c.userId, c.registered.expiresAt.value * Second))
  }

  /** With this key function the library's errors carry only library
      sentinels and `ErrSigningMethod`, and report expiry only from `exp`. */
  lemma LibraryErrorsWithKeyFunc(pub: PublicKey, t: Token, now: int)
    ensures var v := ParseWithClaims(t, KeyFunc(pub), now);
      v.err.Some? ==>
        TokenExpired !in v.err.value.chain && TokenParse !in v.err.value.chain && TokenInvalid !in v.err.value.chain
    ensures var v := ParseWithClaims(t, KeyFunc(pub), now);
      v.err.Some? && Is(v.err.value, LibTokenExpired) ==>
        t.Compact? && t.claims.exp.Some? && now >= t.claims.exp.value * Second
  {
    if t.Compact? && t.header.alg.Some? && Lookup(t.header.alg.value).Some? {
      var m := Lookup(t.header.alg.value).value;
      KeyFuncGate(pub, m, t.header.alg.value);
      if !m.RSA? {
        assert ParseWithClaims(t, KeyFunc(pub), now).err.value.chain == {LibTokenUnverifiable, SigningMethod};
      } else if !Verifies(m, pub, t) {
        assert ParseWithClaims(t, KeyFunc(pub), now).err.value.chain == {LibTokenSignatureInvalid};
      }
    }
  }

  /** Every parse ends in exactly one of: accepted, `ErrTokenExpired` alone,
      or `ErrTokenParse` (with the library's reason in the chain); never
      `ErrTokenInvalid`. */
  lemma ParseOutcomes(pub: PublicKey, t: Token, now: int)
    ensures var p := ParseAccessWith(pub, t, now);
      p.Rejected? ==>
        (p.err == Of(TokenExpired) && !Is(p.err, TokenParse)) ||
        (Is(p.err, TokenParse) && !Is(p.err, TokenExpired) && !Is(p.err, TokenInvalid))
    ensures var p := ParseAccessWith(pub, t, now);
      p.Rejected? && Is(p.err, TokenExpired) ==>
        t.Compact? && t.claims.exp.Some? && now >= t.claims.exp.value * Second
  {
    LibraryErrorsWithKeyFunc(pub, t, now);
  }

  /** The library's verdict on a token the pair's private key signed with RS256. */
  lemma SignedVerdict(priv: PrivateKey, claims: ClaimSet, t: Token, now: int)
    requires priv.signError.None? && t == SignedString(RS256, claims, priv).value
    ensures claims.exp.None? || now < claims.exp.value * Second ==>
      ParseWithClaims(t, KeyFunc(Public(priv)), now) == Verdict(claims, true, None)
    ensures claims.exp.Some? && now >= claims.exp.value * Second ==>
      ParseWithClaims(t, KeyFunc(Public(priv)), now) ==
        Verdict(claims, false, Some(Error({LibTokenInvalidClaims, LibTokenExpired}, "token has invalid claims: token is expired")))
  {
    RS256Name();
    LookupAlg(RS256);
  }

  /** The library's verdict on an RS256 token whose signature is not this key's
      over the token's own header and claims. */
  lemma MismatchVerdict(pub: PublicKey, t: Token, now: int)
    requires t.Compact? && t.header.alg == Some("RS256")
    requires t.signature != Signature(pub.id, "RS256", t.header, t.claims)
    ensures ParseWithClaims(t, KeyFunc(pub), now) ==
      Verdict(t.claims, false, Some(Error({LibTokenSignatureInvalid}, "token signature is invalid: crypto/rsa: verification error")))
  {
    RS256Name();
    LookupAlg(RS256);
  }

  // ---------------------------------------------------------- manager

  /** A token pair as `GenerateTokens` returns it: both tokens, or two empty
      strings and an error. */
  datatype TokenPair = TokenPair(access: Token, refresh: Token, err: Option<Error>)

  class Manager {
    var publicKey: PublicKey
    var privateKey: PrivateKey
    var accessTTL: int
    var refreshTTL: int

    /** The struct literal with the default lifetimes, then every option in order. */
    constructor(priv: PrivateKey, pub: PublicKey, opts: seq<ManagerOption>)
      ensures privateKey == priv && publicKey == pub
      ensures Lifetimes(accessTTL, refreshTTL) == ApplyAll(Defaults, opts)
    {
      publicKey := pub;
      privateKey := priv;
      accessTTL := DefaultAccessTTL;
      refreshTTL := DefaultRefreshTTL;
      new;
      var i := 0;
      while i < |opts|
        invariant 0 <= i <= |opts|
        invariant privateKey == priv && publicKey == pub
        invariant Lifetimes(accessTTL, refreshTTL) == ApplyAll(Defaults, opts[..i])
      {
        assert opts[..i + 1][..i] == opts[..i];
        match opts[i] {
          case WithAccessTTL(d) => accessTTL := d;
          case WithRefreshTTL(d) => refreshTTL := d;
        }
        i := i + 1;
      }
      assert opts[..i] == opts;
    }

    /** The claims of an access token issued at `now`. */
    function AccessClaimsAt(data: TokenData, now: int): (c: AccessJwtClaims)
      reads this
      ensures c.registered.issuedAt == Some(NumericDate(now))
      ensures c.registered.expiresAt == Some(NumericDate(now + accessTTL))
      ensures c.userId == data.userId && c.username == data.username && c.email == data.email
      ensures c.registered.id == ""
    {
      AccessJwtClaims(data.userId, data.username, data.email,
        Registered("", Some(NumericDate(now + accessTTL)), Some(NumericDate(now))))
    }

    /** `GenerateAccess`: RS256 over the access claims; it does not validate `data`. */
    function GenerateAccess(data: TokenData, now: int): (r: Result<Token, Error>)
      reads this
      ensures r.Success? <==> privateKey.signError.None?
      ensures r.Success? ==>
        (r.value.Compact? && r.value.header == Header(Some("RS256"), "JWT") &&
         r.value.claims == AccessJson(AccessClaimsAt(data, now)) && r.value.signature.keyId == privateKey.id)
      ensures r.Failure? ==> r.error == Context("sign access token", Plain(privateKey.signError.value))
    {
      RS256Name();
      match SignedString(RS256, AccessJson(AccessClaimsAt(data, now)), privateKey)
      case Failure(e) => Failure(Context("sign access token", e))
      case Success(t) => Success(t)
    }

    /** `GenerateRefresh`: a fresh jti, the user's id and the two dates. */
    function GenerateRefresh(data: TokenData, now: int, random: Result<seq<Base64Url.byte>, string>): (r: Result<Token, Error>)
      requires random.Success? ==> |random.value| == 32
      reads this
      ensures r.Success? <==> random.Success? && privateKey.signError.None?
      ensures r.Success? ==>
        (r.value.Compact? && r.value.header == Header(Some("RS256"), "JWT") &&
         r.value.claims == RefreshJson(RefreshJwtClaims(data.userId,
           Registered(GenerateTokenID(random).value, Some(NumericDate(now + refreshTTL)), Some(NumericDate(now))))) &&
         r.value.signature.keyId == privateKey.id)
      ensures random.Failure? ==> r == Failure(Context("generate jti", GenerateTokenID(random).error))
      ensures random.Success? && r.Failure? ==> r.error == Context("sign refresh token", Plain(privateKey.signError.value))
    {
      match GenerateTokenID(random)
      case Failure(e) => Failure(Context("generate jti", e))
      case Success(jti) =>
        var claims := RefreshJwtClaims(data.userId,
          Registered(jti, Some(NumericDate(now + refreshTTL)), Some(NumericDate(now))));
        RS256Name();
        match SignedString(RS256, RefreshJson(claims), privateKey)
        case Failure(e) => Failure(Context("sign refresh token", e))
        case Success(t) => Success(t)
    }

    /** `GenerateTokens`: validation first, then the access and the refresh
      token, each read at its own clock reading; any failure gives no token. */
    function GenerateTokens(data: TokenData, nowAccess: int, nowRefresh: int,
                            random: Result<seq<Base64Url.byte>, string>): (p: TokenPair)
      requires random.Success? ==> |random.value| == 32
      reads this
      ensures p.err.None? <==> Valid(data).None? && privateKey.signError.None? && random.Success?
      ensures p.err.Some? ==> p.access == EmptyToken && p.refresh == EmptyToken
      ensures p.err.None? ==>
        Success(p.access) == GenerateAccess(data, nowAccess) &&
        Success(p.refresh) == GenerateRefresh(data, nowRefresh, random)
      ensures Valid(data).Some? ==> p.err == Some(Wrap(InvalidData, Valid(data).value))
      ensures Valid(data).None? && GenerateAccess(data, nowAccess).Failure? ==>
        p.err == Some(Context("generate access", GenerateAccess(data, nowAccess).error))
    {
      match Valid(data)
      case Some(e) => TokenPair(EmptyToken, EmptyToken, Some(Wrap(InvalidData, e)))
      case None =>
        match GenerateAccess(data, nowAccess)
        case Failure(e) => TokenPair(EmptyToken, EmptyToken, Some(Context("generate access", e)))
        case Success(access) =>
          match GenerateRefresh(data, nowRefresh, random)
          case Failure(e) => TokenPair(EmptyToken, EmptyToken, Some(Context("generate refresh", e)))
          case Success(refresh) => TokenPair(access, refresh, None)
    }

    /** `ParseAccess`: accepted exactly when the token is signed for this
        manager's key and not yet expired, with the token's own claims. */
    function ParseAccess(t: Token, now: int): (p: Parsed<AccessClaims>)
      reads this
      ensures p.Accepted? <==> RsaSignedBy(t, publicKey) && Live(t, now)
      ensures p.Accepted? ==> p.claims == AccessOf(t)
      ensures p.NilExpiry? <==> RsaSignedBy(t, publicKey) && t.claims.exp.None?
    {
      ParseAccessWith(publicKey, t, now)
    }

    /** `ParseRefresh`: the same gate, returning the refresh claims. */
    function ParseRefresh(t: Token, now: int): (p: Parsed<RefreshClaims>)
      reads this
      ensures p.Accepted? <==> RsaSignedBy(t, publicKey) && Live(t, now)
      ensures p.Accepted? ==> p.claims == RefreshOf(t)
      ensures p.NilExpiry? <==> RsaSignedBy(t, publicKey) && t.claims.exp.None?
    {
      ParseRefreshWith(publicKey, t, now)
    }

    /** Whether this manager's two keys belong to one usable key pair. */
    predicate Paired()
      reads this
    {
      privateKey.signError.None? && Public(privateKey) == publicKey
    }
  }

  /** `New`: the private key is checked first, then the public key. */
  method New(priv: Option<PrivateKey>, pub: Option<PublicKey>, opts: seq<ManagerOption>)
    returns (r: Result<Manager, Error>)
    ensures priv.None? ==> r == Failure(Plain("private key is required"))
    ensures priv.Some? && pub.None? ==> r == Failure(Plain("public key is required"))
    ensures priv.Some? && pub.Some? ==>
      r.Success? && fresh(r.value) && r.value.privateKey == priv.value && r.value.publicKey == pub.value &&
      Lifetimes(r.value.accessTTL, r.value.refreshTTL) == ApplyAll(Defaults, opts)
  {
    if priv.None? {
      return Failure(Plain("private key is required"));
    }
    if pub.None? {
      return Failure(Plain("public key is required"));
    }
    var m := new Manager(priv.value, pub.value, opts);
    return Success(m);
  }

  // ----------------------------------------------------------- properties

  /** An access token parsed before its `exp` gives back the data it was made
      from, with `exp` at whole-second precision. */
  lemma AccessRoundTrip(m: Manager, data: TokenData, issued: int, now: int)
    requires m.Paired()
    requires now < NumericDate(issued + m.accessTTL) * Second
    ensures m.ParseAccess(m.GenerateAccess(data, issued).value, now) ==
      Accepted(AccessClaims(data.userId, data.username, data.email, NumericDate(issued + m.accessTTL) * Second))
  {
    var c := m.AccessClaimsAt(data, issued);
    var t := m.GenerateAccess(data, issued).value;
    SignedVerdict(m.privateKey, AccessJson(c), t, now);
    AccessJsonRoundTrip(c);
  }

  /** From its `exp` on, an access token is rejected with exactly `ErrTokenExpired`. */
  lemma AccessExpires(m: Manager, data: TokenData, issued: int, now: int)
    requires m.Paired()
    requires now >= NumericDate(issued + m.accessTTL) * Second
    ensures m.ParseAccess(m.GenerateAccess(data, issued).value, now) == Rejected(Of(TokenExpired))
  {
    var t := m.GenerateAccess(data, issued).value;
    SignedVerdict(m.privateKey, AccessJson(m.AccessClaimsAt(data, issued)), t, now);
  }

  /** A refresh token parsed before its `exp` gives back its jti and user id. */
  lemma RefreshRoundTrip(m: Manager, data: TokenData, issued: int, now: int, random: seq<Base64Url.byte>)
    requires m.Paired() && |random| == 32
    requires now < NumericDate(issued + m.refreshTTL) * Second
    ensures m.ParseRefresh(m.GenerateRefresh(data, issued, Success(random)).value, now) ==
      Accepted(RefreshClaims(Base64Url.Encode(random), data.userId, NumericDate(issued + m.refreshTTL) * Second))
  {
    var jti := GenerateTokenID(Success(random)).value;
    var c := RefreshJwtClaims(data.userId,
      Registered(jti, Some(NumericDate(issued + m.refreshTTL)), Some(NumericDate(issued))));
    var t := m.GenerateRefresh(data, issued, Success(random)).value;
    SignedVerdict(m.privateKey, RefreshJson(c), t, now);
    RefreshJsonRoundTrip(c);
  }

  /** With a lifetime of zero or less, a token is expired from the moment it is issued. */
  lemma NonPositiveTTLBornExpired(m: Manager, data: TokenData, issued: int, now: int)
    requires m.Paired() && m.accessTTL <= 0 && now >= issued
    ensures m.ParseAccess(m.GenerateAccess(data, issued).value, now) == Rejected(Of(TokenExpired))
  {
    AccessExpires(m, data, issued, now);
  }

  /** A refresh token is accepted as an access token, with empty name and email. */
  lemma RefreshAcceptedAsAccess(m: Manager, data: TokenData, issued: int, now: int, random: seq<Base64Url.byte>)
    requires m.Paired() && |random| == 32
    requires now < NumericDate(issued + m.refreshTTL) * Second
    ensures m.ParseAccess(m.GenerateRefresh(data, issued, Success(random)).value, now) ==
      Accepted(AccessClaims(data.userId, "", "", NumericDate(issued + m.refreshTTL) * Second))
  {
    var jti := GenerateTokenID(Success(random)).value;
    var c := RefreshJwtClaims(data.userId,
      Registered(jti, Some(NumericDate(issued + m.refreshTTL)), Some(NumericDate(issued))));
    var t := m.GenerateRefresh(data, issued, Success(random)).value;
    SignedVerdict(m.privateKey, RefreshJson(c), t, now);
    CrossDecoding(AccessJwtClaims(0, "", "", c.registered), c);
  }

  /** An access token is accepted as a refresh token, with an empty jti. */
  lemma AccessAcceptedAsRefresh(m: Manager, data: TokenData, issued: int, now: int)
    requires m.Paired()
    requires now < NumericDate(issued + m.accessTTL) * Second
    ensures m.ParseRefresh(m.GenerateAccess(data, issued).value, now) ==
      Accepted(RefreshClaims("", data.userId, NumericDate(issued + m.accessTTL) * Second))
  {
    var c := m.AccessClaimsAt(data, issued);
    var t := m.GenerateAccess(data, issued).value;
    SignedVerdict(m.privateKey, AccessJson(c), t, now);
    CrossDecoding(c, RefreshJwtClaims(0, c.registered));
  }

  /** A token signed with another key is rejected as a parse failure whose
      chain names the invalid signature. */
  lemma ForeignSignatureRejected(m: Manager, t: Token, now: int)
    requires t.Compact? && t.header.alg == Some("RS256") && t.signature.keyId != m.publicKey.id
    ensures m.ParseAccess(t, now).Rejected?
    ensures Is(m.ParseAccess(t, now).err, TokenParse) && Is(m.ParseAccess(t, now).err, LibTokenSignatureInvalid)
    ensures m.ParseRefresh(t, now).Rejected? && m.ParseRefresh(t, now).err == m.ParseAccess(t, now).err
  {
    MismatchVerdict(m.publicKey, t, now);
  }

  /** Changing the claims of a signed token after signing invalidates it. */
  lemma TamperedClaimsRejected(m: Manager, t: Token, forged: ClaimSet, now: int)
    requires t.Compact? && t.header.alg == Some("RS256") && t.signature.claims != forged
    ensures var p := m.ParseAccess(t.(claims := forged), now);
      p.Rejected? && Is(p.err, TokenParse) && Is(p.err, LibTokenSignatureInvalid)
  {
    MismatchVerdict(m.publicKey, t.(claims := forged), now);
  }

  /** A registered method outside the RSA family never reaches signature
      checking: the error names the signing method, whatever the signature. */
  lemma NonRsaMethodRejected(m: Manager, t: Token, alg: Method, now: int)
    requires t.Compact? && ValidBits(alg) && !alg.RSA? && t.header.alg == Some(Alg(alg))
    ensures var p := m.ParseAccess(t, now);
      p.Rejected? && Is(p.err, TokenParse) && Is(p.err, LibTokenUnverifiable) && Is(p.err, SigningMethod)
  {
    LookupAlg(alg);
  }

  /** An unregistered or missing `alg` is unverifiable without consulting the key function. */
  lemma UnknownAlgRejected(m: Manager, t: Token, now: int)
    requires t.Compact? && (t.header.alg.None? || Lookup(t.header.alg.value).None?)
    ensures var p := m.ParseAccess(t, now);
      p.Rejected? && p.err.chain == {TokenParse, LibTokenUnverifiable}
  {
  }
}
