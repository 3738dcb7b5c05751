/**
 * The refresh-token revocation ledger of the SSO service
 * (services/sso/repository/redis/token-provider.go).  A revoked token's JTI
 * is written to Redis with a time to live, so the record disappears on its
 * own once the token could no longer be used anyway.
 *
 * Instants and durations are Go `time.Time` / `time.Duration` values in
 * nanoseconds; the caller passes the current instant explicitly.
 */
module TokenLedger {
  import opened Wrappers

  const Second: int := 1_000_000_000

  const TokenPrefix := "token:revoked:"

  datatype LedgerError = Internal | TokenExpired

  /** How a Redis command fared: never reached the server, ran there but its
      reply was lost, or answered. */
  datatype Transport = NotSent | ReplyLost | Delivered

  function Message(e: LedgerError): string
  {
    match e
    case Internal => "internal error"
    case TokenExpired => "token already expired"
  }

  /** `refreshTokenKey`: the prefix, a ':' and the JTI, so the JTI can be read
      back from the key and distinct JTIs never share a record. */
  function RefreshTokenKey(jti: string): (key: string)
    ensures |key| == |TokenPrefix| + 1 + |jti|
    ensures key[..|TokenPrefix|] == TokenPrefix && key[|TokenPrefix|] == ':'
    ensures key[|TokenPrefix| + 1..] == jti
  {
    TokenPrefix + ":" + jti
  }

  // ---------------------------------------------------------- time to live

  /** go-redis `formatSec`, which `SetEx` uses: a positive duration under one
      second becomes 1, anything else is truncated to whole seconds. */
  function SetExSeconds(ttl: int): (secs: int)
    requires ttl > 0
    ensures secs >= 1
    ensures ttl >= Second ==> secs * Second <= ttl < (secs + 1) * Second
    ensures ttl < Second ==> secs == 1
  {
    if ttl < Second then 1 else ttl / Second
  }

  /** The instant at which Redis drops a record written by `SetEx` at `now`
      with the time to live `expiresAt - now`, as the repository does it:
      never before a second has passed, at most a second short of the
      token's expiry, and a whole second after `now` when less is left. */
  function AsWrittenDeadline(now: int, expiresAt: int): (deadline: int)
    requires now < expiresAt
    ensures deadline >= now + Second
    ensures expiresAt - now >= Second ==> expiresAt - Second < deadline <= expiresAt
    ensures expiresAt - now < Second ==> deadline == now + Second > expiresAt
  {
    now + SetExSeconds(expiresAt - now) * Second
  }

  /** With whole seconds the record can vanish while the token is still
      unexpired: 1.5 s before expiry it lives only one more second. */
  lemma SetExDropsFraction()
    ensures var now, expiresAt := 0, 3 * Second / 2;
      AsWrittenDeadline(now, expiresAt) == Second < expiresAt
  {
  }

  /** And it can outlive the token: half a second before expiry the record
      is still kept for a whole second. */
  lemma SetExOutlivesToken()
    ensures var now, expiresAt := 0, Second / 2;
      AsWrittenDeadline(now, expiresAt) == Second > expiresAt
  {
  }

  /** Over a second of lifetime, the gap between the token's expiry and the
      record's deadline is exactly the dropped fraction of a second. */
  lemma AsWrittenShortfall(now: int, expiresAt: int)
    requires now + Second <= expiresAt
    ensures expiresAt - AsWrittenDeadline(now, expiresAt) == (expiresAt - now) % Second
  {
  }

  // ---------------------------------------------------------------- ledger

  /** The Redis keyspace as far as the ledger uses it: key -> instant at which
      the record expires. */
  class RevocationLedger {
    var records: map<string, int>

    constructor()
      ensures records == map[]
    {
      records := map[];
    }

    /** Whether `key` still exists at `now`. */
    function Present(key: string, now: int): bool
      reads this
    {
      key in records && now < records[key]
    }

    /** `RevokeRefreshToken`, as written: the record's time to live is the
        token's remaining lifetime rounded by `SetEx` to whole seconds.
        `transport` says how the `SETEX` fared; a lost reply still wrote. */
    method Revoke(jti: string, expiresAt: int, now: int, transport: Transport) returns (err: Option<LedgerError>)
      modifies this
      ensures now >= expiresAt ==> err == Some(TokenExpired) && records == old(records)
      ensures now < expiresAt && transport == NotSent ==> err == Some(Internal) && records == old(records)
      ensures now < expiresAt && transport != NotSent ==>
        records == old(records)[RefreshTokenKey(jti) := AsWrittenDeadline(now, expiresAt)]
      ensures now < expiresAt && transport == ReplyLost ==> err == Some(Internal)
      ensures now < expiresAt && transport == Delivered ==> err == None
      ensures err == None ==>
        forall t :: now <= t ==>
          (Present(RefreshTokenKey(jti), t) <==> t < now + SetExSeconds(expiresAt - now) * Second)
    {
      var ttl := expiresAt - now;
      if ttl <= 0 {
        return Some(TokenExpired);
      }
      var key := RefreshTokenKey(jti);
      if transport == NotSent {
        return Some(Internal);
      }
      records := records[key := AsWrittenDeadline(now, expiresAt)];
      err := if transport == ReplyLost then Some(Internal) else None;
    }

    /** `RevokeRefreshToken` with the time to live kept at full precision
        (`PX` instead of `EX`): the record lasts for the token's full remaining
        lifetime (to the millisecond with `PX`). */
    method RevokeCorrected(jti: string, expiresAt: int, now: int, transport: Transport) returns (err: Option<LedgerError>)
      modifies this
      ensures now >= expiresAt ==> err == Some(TokenExpired) && records == old(records)
      ensures now < expiresAt && transport == NotSent ==> err == Some(Internal) && records == old(records)
      ensures now < expiresAt && transport != NotSent ==>
        records == old(records)[RefreshTokenKey(jti) := expiresAt]
      ensures now < expiresAt && transport == ReplyLost ==> err == Some(Internal)
      ensures now < expiresAt && transport == Delivered ==> err == None
      ensures err == None ==> forall t :: now <= t ==> (Present(RefreshTokenKey(jti), t) <==> t < expiresAt)
    {
      var ttl := expiresAt - now;
      if ttl <= 0 {
        return Some(TokenExpired);
      }
      var key := RefreshTokenKey(jti);
      if transport == NotSent {
        return Some(Internal);
      }
      records := records[key := now + ttl];
      err := if transport == ReplyLost then Some(Internal) else None;
    }

    /** `IsTokenRevoked`: whether the record still exists; never writes. */
    method IsRevoked(jti: string, now: int, transport: Transport) returns (revoked: bool, err: Option<LedgerError>)
      ensures transport == Delivered ==> err == None && (revoked <==> Present(RefreshTokenKey(jti), now))
      ensures transport != Delivered ==> err == Some(Internal) && !revoked
    {
      if transport != Delivered {
        return false, Some(Internal);
      }
      var key := RefreshTokenKey(jti);
      var count := if key in records && now < records[key] then 1 else 0;
      return count == 1, None;
    }
  }

  /** What a record written by `Revoke` says about its token: when the
      lifetime has a fraction of a second beyond the first, the record is
      gone while the token is still valid; when less than a second is left,
      the record is still there when the token expires. */
  lemma RevokedRecordGaps(l: RevocationLedger, jti: string, now: int, expiresAt: int)
    requires now < expiresAt
    requires RefreshTokenKey(jti) in l.records
    requires l.records[RefreshTokenKey(jti)] == AsWrittenDeadline(now, expiresAt)
    ensures expiresAt - now > Second && (expiresAt - now) % Second != 0 ==>
      now < AsWrittenDeadline(now, expiresAt) < expiresAt &&
      !l.Present(RefreshTokenKey(jti), AsWrittenDeadline(now, expiresAt))
    ensures expiresAt - now < Second ==> l.Present(RefreshTokenKey(jti), expiresAt)
  {
    if expiresAt - now > Second && (expiresAt - now) % Second != 0 {
      AsWrittenShortfall(now, expiresAt);
    }
  }

  /** Revoking one token, whatever deadline its record gets, never reveals
      or hides the record of another. */
  lemma RevokeIsolated(records: map<string, int>, jti: string, other: string, deadline: int, t: int)
    requires jti != other
    ensures var after := records[RefreshTokenKey(jti) := deadline];
      var k := RefreshTokenKey(other);
      (k in after && t < after[k]) <==> (k in records && t < records[k])
  {
    var k1, k2 := RefreshTokenKey(jti), RefreshTokenKey(other);
    assert k1[|TokenPrefix| + 1..] != k2[|TokenPrefix| + 1..];
  }
}
