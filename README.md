# SSO service core: a Dafny model

This project models the sequential decision logic of a Go single-sign-on
service and of the shared packages it uses, and proves properties of it.
The modelled parts are:

- **Sliding-window rate limiter.** Each key holds a sorted set in Redis that
  one Lua script maintains. The model covers that script, the `Allow`
  wrapper around it, the per-method limit table, the derivation of the key
  from the client IP, client-IP extraction from gRPC metadata or the peer
  address, and the interceptor's allow / deny / fail-open decision.
- **Refresh-token revocation ledger.** Revoking a token writes a Redis
  record under a key derived from the token's JTI, with a time to live;
  a revocation check is a presence check.
- **JWT manager and validator.** This is the RFC 7519 claim handling:
  `exp`, `iat` and `jti`, with NumericDate in whole seconds. Tokens are
  signed RS256 (section 3.3 of RFC 7518), and the `alg` header is gated to
  the RSA family. Token-data validation, TTL arithmetic, the claim shape of
  each token kind, all-or-nothing pair generation, the signing-method gate
  and the three-way error classification are modelled. The JTI is 32 random
  bytes encoded as base64url without padding (section 5 of RFC 4648).
- **Client configurations.** The Redis and Postgres client configurations:
  defaults, `valid()` rules and the option setters. The Postgres setters
  include uint16 and int32 truncation. Also modelled are the TLS mode
  selection, the copy into the driver's pool configuration and the
  options-then-validate front of `New`.
- **Postgres repository.** The dynamic `UPDATE users SET ...` builder with
  numbered placeholders, error classification, and binding a repository to
  a transaction.
- **Business layer.** Self-only update permission and the two flows,
  update and registration, over an abstract user provider. The model covers
  their error remapping and the in-place replacement of the password by its
  hash.

State the source changes in place is modelled by classes: the Redis
keyspace of the limiter, the limit table, the revocation ledger, the JWT
manager, the driver's pool configuration, the caller's registration
request and a recording user provider. Pure decision code is modelled by
functions, and the properties are `ensures` clauses and lemmas. Clocks,
randomness, the network and foreign libraries are parameters:

- the current instant;
- Redis' `TIME` reading and the Lua PRNG;
- the random bytes of the JTI;
- whether a Redis or SQL call reaches the server, and what it answers;
- the result of `pgxpool.ParseConfig`;
- the bcrypt hash, as a function parameter.

The golang-jwt library is replaced by a symbolic model, `JwtLibrary`. A
signature records the key, the algorithm, the header and the claims it
covers, so "verifies" means "was made by the matching private key over
exactly these contents". Parsing follows golang-jwt v5's order: a
malformed token first, then the `alg` lookup, then the key function, then
the signature, then `exp`.

Go's fixed-width integers are explicit:

- `uint16(port)` is `port mod 2^16`, and `int32(n)` wraps;
- `Duration.Milliseconds` truncates toward zero;
- `errors.Is` is membership in the set of sentinels an error wraps.

Some comments in the code promise slightly more than the code does; the
model follows the code:

- The comment at internal/pkg/rate-limiter/v1/limiter.go:39 speaks of
  removing entries older than the window. `ZREMRANGEBYSCORE key -inf
  now-window` removes scores up to and including `now - window`
  (`Limiter.RemoveUpTo`).
- The comment at internal/pkg/rate-limiter/v1/limiter.go:33 calls the
  member's tag unique. The tag is seeded from `micro_total` alone, so two
  calls in the same microsecond with the same `now` get the same member
  (`LimiterTheory.SameMemberOvershoots`).
- The comment at internal/pkg/rate-limiter/v1/interceptor.go:99 says the
  colons are replaced so the separator is not broken. The separator is
  `#`, which the replacement does not touch, and an IP containing `_`
  can still share its key with one containing `:`
  (`Interceptor.UnderscoreIPCollides`).
- The prefix constant `token:revoked:` already ends in a colon
  (services/sso/repository/redis/token-provider.go:10), and the format
  `%s:%s` at services/sso/repository/redis/token-provider.go:56 adds a
  second one, so keys read `token:revoked::<jti>`
  (`TokenLedger.RefreshTokenKey`).

## Model

| member | source | states |
|---|---|---|
| Limiter.RemoveUpTo | internal/pkg/rate-limiter/v1/limiter.go:40 | `ZREMRANGEBYSCORE key -inf now-window`: an entry survives iff its score is strictly above the bound (the bound itself is removed), scores are unchanged, no entry is added |
| Limiter.Script | internal/pkg/rate-limiter/v1/limiter.go:27-53 | the script returns 1 or 0; 1 iff the post-trim cardinality is below `limit`; on 1 the trimmed set gains the member at score `now` and the key's expiry is set to `window` ms; on 0 only the trim happens and the expiry is kept (an emptied set deletes the key) |
| Limiter.Milliseconds | internal/pkg/rate-limiter/v1/limiter.go:58 | `Duration.Milliseconds` truncates toward zero on both signs |
| Limiter.PExpire | internal/pkg/rate-limiter/v1/limiter.go:48 | `PEXPIRE key ms`: on a missing key or a non-positive timeout the key is gone; otherwise its set is kept and its deadline is `now + ms` |
| Limiter.SortedSetStore.View | internal/pkg/rate-limiter/v1/limiter.go:27-53 | what the script reads for a key: the stored set (empty when missing) and the stored deadline, not enforced; in a valid store a missing key has no deadline |
| Limiter.ScriptKeepsBound | internal/pkg/rate-limiter/v1/limiter.go:40-50 | a set holding at most `limit` entries still holds at most `limit` after any script run |
| Limiter.ReAddDoesNotGrow | internal/pkg/rate-limiter/v1/limiter.go:47 | `ZADD` of a member already present rescores it and does not grow the set |
| Limiter.ExpiredEntryReopens | internal/pkg/rate-limiter/v1/limiter.go:40-49 | once an entry's score is at or below `now - window`, a full key (at most `limit` entries) admits the next call |
| Limiter.ExpiryNeverPreemptsTrim | internal/pkg/rate-limiter/v1/limiter.go:40-48 | with a positive window, every entry of an allowed run is trimmed by the time the key's `PEXPIRE` lapses, so expiry never drops an entry the trim would keep |
| Limiter.SortedSetStore.constructor | internal/pkg/rate-limiter/v1/limiter.go:34-37 | an empty keyspace with the given PRNG for the member's random suffix |
| Limiter.SortedSetStore.Put | internal/pkg/rate-limiter/v1/limiter.go:40-48 | writing one key's set and expiry changes that key only and keeps the store's invariant (no empty set is stored) |
| Limiter.SortedSetStore.RunScript | internal/pkg/rate-limiter/v1/limiter.go:27-53 | one atomic script run: the key's new state and the result are exactly `Script` on the old state with the member built from `now` and `micro_total`; every other key is unchanged |
| Limiter.RedisLimiter.constructor | internal/pkg/rate-limiter/v1/limiter.go:21-23 | the limiter wraps the given store |
| Limiter.RedisLimiter.Allow | internal/pkg/rate-limiter/v1/limiter.go:56-72 | the window is truncated to whole ms; a delivered reply maps result 1 to allowed and 0 to denied; an error (request not sent, or reply lost after the script ran) gives `(false, error)` and never a silent allow; a request not sent changes nothing; other keys never change |
| LimiterTheory.Replay | internal/pkg/rate-limiter/v1/limiter.go:27-53 | the key's state and verdicts after a sequence of calls from an empty key: exactly one verdict per call |
| LimiterTheory.ReplayInvariant | internal/pkg/rate-limiter/v1/limiter.go:40-50 | with non-decreasing `now` and distinct members, the stored set after any prefix is exactly the allowed calls scored above the last `now - window`, and a call is allowed iff fewer than `limit` earlier allowed calls lie in its window |
| LimiterTheory.AtMostLimitPerWindow | internal/pkg/rate-limiter/v1/limiter.go:40-50 | with non-decreasing `now` and distinct members, at most `limit` allowed calls have their `now` in any interval `(t - window, t]` |
| LimiterTheory.ReplayBounded | internal/pkg/rate-limiter/v1/limiter.go:40-50 | starting from an empty key, the set never holds more than `max(limit, 0)` entries, whatever the calls |
| LimiterTheory.SameMemberOvershoots | internal/pkg/rate-limiter/v1/limiter.go:34-47 | two calls with the same `now` and `micro_total` produce the same member, so a limit of 2 admits a third call in the same window |
| LimiterTheory.SubMillisecondWindowAdmitsAll | internal/pkg/rate-limiter/v1/limiter.go:55-60 | a window under 1 ms becomes 0 ms, and `PEXPIRE key 0` deletes the key each call writes, so for any positive limit (which `NewConfig` and `SetMethod` guarantee) every call of any sequence is admitted |
| RateLimitConfig.Config.constructor | internal/pkg/rate-limiter/v1/config.go:32-43 | `NewConfig` demands positive count and window, stores the default and an empty override map, so every method resolves to the default |
| RateLimitConfig.Config.SetMethod | internal/pkg/rate-limiter/v1/config.go:47-55 | demands positive count and window; overwrites the method's entry; the default and every other method's lookup are unchanged |
| RateLimitConfig.Config.LimitFor | internal/pkg/rate-limiter/v1/config.go:57-64 | the method's override if present, else the default; under the table's invariant every returned limit is positive |
| Interceptor.IndexOf | internal/pkg/rate-limiter/v1/interceptor.go:77-80 | the first position of a character, or -1 when it does not occur |
| Interceptor.LastIndexOf | internal/pkg/rate-limiter/v1/interceptor.go:87 | the last position of a character, or -1 (the port separator of `net.SplitHostPort`) |
| Interceptor.ReplaceChar | internal/pkg/rate-limiter/v1/interceptor.go:100 | `strings.ReplaceAll` of one character: same length, each occurrence replaced, all else kept |
| Interceptor.TrimLeft | internal/pkg/rate-limiter/v1/interceptor.go:79 | a suffix of the input that does not start with white space, and everything dropped before it is white space |
| Interceptor.TrimRight | internal/pkg/rate-limiter/v1/interceptor.go:79 | a prefix of the input that does not end with white space, and everything dropped after it is white space |
| Interceptor.TrimSpace | internal/pkg/rate-limiter/v1/interceptor.go:79 | a slice `s[i..j]` of the input with no white space at either end, and only white space outside it |
| Interceptor.BeforeComma | internal/pkg/rate-limiter/v1/interceptor.go:78 | the first element of `SplitN(s, ",", 2)`: the whole input, or the prefix up to the first comma; never contains a comma |
| Interceptor.EscapeIP | internal/pkg/rate-limiter/v1/interceptor.go:100 | the escaped IP segment never contains ':' |
| Interceptor.RateLimitKey | internal/pkg/rate-limiter/v1/interceptor.go:98-102 | the key is `ratelimit`, then the escaped IP (free of ':'), then `#`, then the full method name |
| Interceptor.SeparatorIsFirstHash | internal/pkg/rate-limiter/v1/interceptor.go:101 | in `a + "#" + b` with no '#' in `a`, the first '#' is the separator |
| Interceptor.RateLimitKeyInjective | internal/pkg/rate-limiter/v1/interceptor.go:98-102 | for IPs with neither '_' nor '#', equal keys imply equal IPs and equal methods |
| Interceptor.UnderscoreIPCollides | internal/pkg/rate-limiter/v1/interceptor.go:99-101 | the IPs "::1" and "__1" share a key for every method |
| Interceptor.BracketedLayout | internal/pkg/rate-limiter/v1/interceptor.go:87 | the positions of '[', ']' and ':' in a bracketed `host:port` string |
| Interceptor.BracketedSearches | internal/pkg/rate-limiter/v1/interceptor.go:87 | on a bracketed `host:port` the separator, bracket and stray-bracket searches land where `net.SplitHostPort` needs them |
| Interceptor.SplitJoinBracketed | internal/pkg/rate-limiter/v1/interceptor.go:87 | splitting `[host]:port` (an IPv6 host) gives back the host and port |
| Interceptor.SplitJoinPlain | internal/pkg/rate-limiter/v1/interceptor.go:87 | splitting `host:port` with a colon-free host gives back the host and port |
| Interceptor.SplitJoinHostPort | internal/pkg/rate-limiter/v1/interceptor.go:87 | `SplitHostPort` inverts `JoinHostPort` for every bracket-free host and port |
| Interceptor.SplitHostPort | internal/pkg/rate-limiter/v1/interceptor.go:87 | a successful split gives a port free of ':' and brackets and a host free of brackets, and rebuilding `host:port` (bracketed when the input was) gives back the input |
| Interceptor.JoinHostPort | internal/pkg/rate-limiter/v1/interceptor.go:87 | the port ends the address and, when it has no ':', follows the last ':'; a host containing ':' is bracketed |
| Interceptor.ExtractClientIP | internal/pkg/rate-limiter/v1/interceptor.go:74-96 | `x-forwarded-for` first, giving its first comma-separated entry trimmed; else the first `x-real-ip` value untrimmed; else, with a peer, its host when the address splits and the whole address when it does not; it fails with "bad ip" iff there is no peer and neither header |
| Interceptor.PeerHostExtracted | internal/pkg/rate-limiter/v1/interceptor.go:87-93 | without headers, a peer address `JoinHostPort(host, port)` yields exactly `host` |
| Interceptor.Decide | internal/pkg/rate-limiter/v1/interceptor.go:44-68 | the handler runs iff the call is not denied, and its reply is returned unchanged; a denial is `ResourceExhausted` with the fixed message; a limiter error fails open |
| Interceptor.Intercept | internal/pkg/rate-limiter/v1/interceptor.go:20-70 | a failed IP extraction is `Internal` and leaves the store unchanged; otherwise the limiter runs on `RateLimitKey(ip, method)` with the method's configured limit, the outcome is `Decide` of its verdict, no other key changes, and a script never sent leaves the store unchanged and runs the handler |
| TokenLedger.RefreshTokenKey | services/sso/repository/redis/token-provider.go:55-57 | the key is `token:revoked:` then ':' then the JTI, so the JTI can be read back from it |
| TokenLedger.SetExSeconds | services/sso/repository/redis/token-provider.go:27 | `SetEx` sends a positive TTL as whole seconds, truncated, and at least 1 |
| TokenLedger.SetExDropsFraction | services/sso/repository/redis/token-provider.go:20-27 | with 1.5 s left, the written record expires after 1 s, before the token does |
| TokenLedger.SetExOutlivesToken | services/sso/repository/redis/token-provider.go:20-27 | with 0.5 s left, the written record lives a whole second, beyond the token's expiry |
| TokenLedger.AsWrittenDeadline | services/sso/repository/redis/token-provider.go:20-27 | the record written with `SetEx` lives at least a second; with a second or more left it expires at most a second before the token and never after; with less left it expires a whole second after `now`, beyond the token |
| TokenLedger.AsWrittenShortfall | services/sso/repository/redis/token-provider.go:20-27 | with at least a second left, the written record expires short of the token exactly by the dropped fraction of a second |
| TokenLedger.RevocationLedger.constructor | services/sso/repository/redis/token-provider.go:13-57 | an empty keyspace |
| TokenLedger.RevocationLedger.Revoke | services/sso/repository/redis/token-provider.go:13-33 | a TTL of zero or less is `ErrTokenExpired` and writes nothing; a command that never reaches Redis is `ErrInternal` and writes nothing; a lost reply is `ErrInternal` although the record was written; otherwise no error, and the key is stored with the TTL `SetEx` sends, in whole seconds: from now on it reads as present iff less than `SetExSeconds(ttl)` seconds have passed |
| TokenLedger.RevocationLedger.RevokeCorrected | services/sso/repository/redis/token-provider.go:13-33 | the same outcomes, with the record kept for the full remaining lifetime: after a delivered write it reads as present iff the token has not yet expired |
| TokenLedger.RevocationLedger.Present | services/sso/repository/redis/token-provider.go:45 | `EXISTS` with expiry honoured: a key exists iff it was written with a deadline still ahead |
| TokenLedger.RevocationLedger.IsRevoked | services/sso/repository/redis/token-provider.go:36-52 | a presence check that honours expiry and never writes; false for a JTI never revoked; a command not sent or a reply lost is `(false, ErrInternal)` |
| TokenLedger.RevokeIsolated | services/sso/repository/redis/token-provider.go:25-57 | writing one JTI's record, with any deadline, never changes whether another JTI's record is present |
| TokenLedger.RevokedRecordGaps | services/sso/repository/redis/token-provider.go:20-52 | after `Revoke`, a lifetime with a fraction of a second beyond the first leaves an instant before expiry at which the token reads as not revoked, and a lifetime under a second leaves the record present when the token expires |
| JwtErrors.Of | internal/pkg/jwt-manager/v1/errors.go:14-20 | a sentinel error is exactly itself under `errors.Is` |
| JwtErrors.Plain | internal/pkg/jwt-manager/v1/validator.go:19 | an `errors.New` error matches no sentinel |
| JwtErrors.Context | internal/pkg/jwt-manager/v1/helpers.go:16 | `fmt.Errorf("ctx: %w", e)` matches exactly what `e` matches |
| JwtErrors.Wrap | internal/pkg/jwt-manager/v1/helpers.go:29 | `fmt.Errorf("%w: %w", s, e)` matches `s` and everything `e` matches |
| JwtLibrary.NumericDate | internal/pkg/jwt-manager/v1/manager.go:87-88 | `jwt.NewNumericDate` keeps whole seconds: the instant lies in `[secs, secs + 1)` seconds |
| JwtLibrary.Lookup | internal/pkg/jwt-manager/v1/manager.go:92-94 | a registered method has the requested `alg` name |
| JwtLibrary.LookupAlg | internal/pkg/jwt-manager/v1/manager.go:92-94 | every registered method is found by its own `alg` name |
| JwtLibrary.SignedString | internal/pkg/jwt-manager/v1/manager.go:92-94 | signing fails iff the key fails; a token carries the `alg` header, the claims and a signature by the key |
| JwtLibrary.ParseWithClaims | internal/pkg/jwt-manager/v1/manager.go:133 | a token is valid iff there is no error, and then its claims are returned; an "expired" error means the parsed `exp` is at or before now, or the key function itself returned that error |
| JwtEntities.Valid | internal/pkg/jwt-manager/v1/entities.go:16-27 | fails iff user_id is 0, username is empty or email is empty, reporting the first failure in that order; negative ids pass |
| JwtEntities.IdJson | internal/pkg/jwt-manager/v1/entities.go:44-54 | an empty `jti` is omitted and reads back as "" |
| JwtEntities.RefreshJson | internal/pkg/jwt-manager/v1/entities.go:52-54 | a refresh token's payload has no username and no email |
| JwtEntities.AccessJson | internal/pkg/jwt-manager/v1/entities.go:44-49 | an access payload carries `user_id`, `username` and `email` always, `jti` only when non-empty, and the dates unchanged |
| JwtEntities.AccessFromJson | internal/pkg/jwt-manager/v1/entities.go:44-49 | decoding an access payload takes each present member and gives an absent one its zero value (0 or "") |
| JwtEntities.RefreshFromJson | internal/pkg/jwt-manager/v1/entities.go:51-54 | decoding a refresh payload takes `user_id` and `jti` when present, zero values when absent, the dates unchanged, and ignores `username` and `email` |
| JwtEntities.AccessJsonRoundTrip | internal/pkg/jwt-manager/v1/entities.go:44-49 | decoding an encoded access payload gives it back |
| JwtEntities.RefreshJsonRoundTrip | internal/pkg/jwt-manager/v1/entities.go:52-54 | decoding an encoded refresh payload gives it back |
| JwtEntities.CrossDecoding | internal/pkg/jwt-manager/v1/entities.go:44-54 | an access payload decodes as refresh claims with its id, and a refresh payload as access claims with empty username and email |
| JwtHelpers.GenerateTokenID | internal/pkg/jwt-manager/v1/helpers.go:12-20 | a random failure is a wrapped error and no ID; otherwise 43 base64url characters that decode back to the 32 bytes |
| JwtHelpers.TokenIDsDistinct | internal/pkg/jwt-manager/v1/helpers.go:19 | distinct random bytes give distinct IDs |
| JwtHelpers.ParseToken | internal/pkg/jwt-manager/v1/helpers.go:22-37 | success iff no error and valid, returning the claims; a library "expired" error is exactly `ErrTokenExpired`; any other error is `ErrTokenParse` wrapping it; no error but not valid is `ErrTokenInvalid` |
| JwtHelpers.InvalidUnreachable | internal/pkg/jwt-manager/v1/helpers.go:32-34 | with golang-jwt v5, the `ErrTokenInvalid` branch is never taken |
| JwtManager.RS256Name | internal/pkg/jwt-manager/v1/manager.go:92 | the method is named "RS256" |
| JwtManager.ApplyOption | internal/pkg/jwt-manager/v1/manager.go:24-36 | each option sets exactly its own lifetime, any duration accepted |
| JwtManager.LastAccessTTLWins | internal/pkg/jwt-manager/v1/manager.go:46-55 | the access lifetime is the last access option's, else the default |
| JwtManager.LastRefreshTTLWins | internal/pkg/jwt-manager/v1/manager.go:46-55 | the refresh lifetime is the last refresh option's, else the default |
| JwtManager.KeyFuncGate | internal/pkg/jwt-manager/v1/manager.go:161-166 | `keyFunc` returns the public key iff the method is in the RSA family, and `ErrSigningMethod` otherwise |
| JwtManager.KeyFunc | internal/pkg/jwt-manager/v1/manager.go:161-166 | the key function returns `pub` for every RSA-family method and for no other, which gets `ErrSigningMethod` naming the `alg` |
| JwtManager.ParseAccessWith | internal/pkg/jwt-manager/v1/manager.go:130-144 | a token is accepted iff it is compact, has an RSA `alg`, carries a signature by `pub` and an `exp` still ahead, and then the claims are the token's with `exp` in nanoseconds; a signed token without `exp` is the nil-dereference case; `parseToken` errors pass through unchanged |
| JwtManager.ParseRefreshWith | internal/pkg/jwt-manager/v1/manager.go:146-159 | as `ParseAccessWith`, returning the token's JTI, user id and `exp` |
| JwtManager.Manager.ParseAccess | internal/pkg/jwt-manager/v1/manager.go:130-144 | accepted iff `RsaSignedBy(t, publicKey) && Live(t, now)`, with the claims `AccessOf(t)`; `NilExpiry` iff the token is so signed and has no `exp`; every other token is rejected |
| JwtManager.Manager.ParseRefresh | internal/pkg/jwt-manager/v1/manager.go:146-159 | accepted iff `RsaSignedBy(t, publicKey) && Live(t, now)`, with the claims `RefreshOf(t)`; `NilExpiry` iff the token is so signed and has no `exp`; every other token is rejected |
| JwtManager.LibraryErrorsWithKeyFunc | internal/pkg/jwt-manager/v1/manager.go:130-166 | under this key function the library never returns one of the manager's own sentinels, and "expired" means the claim `exp` has passed |
| JwtManager.ParseOutcomes | internal/pkg/jwt-manager/v1/helpers.go:22-37 | the outcomes accepted, `ErrTokenExpired` alone and `ErrTokenParse` are mutually exclusive, and expiry is reported only for a passed `exp` |
| JwtManager.SignedVerdict | internal/pkg/jwt-manager/v1/manager.go:92-133 | an RS256 token from the pair's private key is valid before its `exp` and expired from then on |
| JwtManager.MismatchVerdict | internal/pkg/jwt-manager/v1/manager.go:133 | an RS256 token whose signature does not cover its contents under this key is "signature invalid" |
| JwtManager.Manager.constructor | internal/pkg/jwt-manager/v1/manager.go:46-55 | stores both keys and the lifetimes the defaults and options give |
| JwtManager.Manager.AccessClaimsAt | internal/pkg/jwt-manager/v1/manager.go:80-90 | copies user_id, username and email; iat is now and exp is now + access TTL, in whole seconds; no jti |
| JwtManager.Manager.GenerateAccess | internal/pkg/jwt-manager/v1/manager.go:79-100 | an RS256 token over those claims signed by the private key, or the wrapped signing error; no validation of the data |
| JwtManager.Manager.GenerateRefresh | internal/pkg/jwt-manager/v1/manager.go:103-128 | a token carrying a fresh jti, user_id, iat = now and exp = now + refresh TTL; a random failure or a signing failure is a wrapped error |
| JwtManager.Manager.GenerateTokens | internal/pkg/jwt-manager/v1/manager.go:60-76 | validation first (`ErrInvalidData` wrapping the reason); success iff data, signing and randomness all succeed, and then both tokens are the generated ones; any failure gives two empty tokens |
| JwtManager.New | internal/pkg/jwt-manager/v1/manager.go:38-58 | a nil private key is refused first, then a nil public key; otherwise a fresh manager with both keys and the option-applied lifetimes |
| JwtManager.AccessRoundTrip | internal/pkg/jwt-manager/v1/manager.go:79-144 | an access token parsed before its `exp` gives back the user's id, username and email, with `exp` at one-second precision |
| JwtManager.AccessExpires | internal/pkg/jwt-manager/v1/manager.go:130-144 | from its `exp` on, an issued access token is exactly `ErrTokenExpired` |
| JwtManager.RefreshRoundTrip | internal/pkg/jwt-manager/v1/manager.go:103-159 | a refresh token parsed before its `exp` gives back the generated jti and the user id |
| JwtManager.NonPositiveTTLBornExpired | internal/pkg/jwt-manager/v1/manager.go:26-144 | an access lifetime of zero or less gives tokens that are expired when issued |
| JwtManager.RefreshAcceptedAsAccess | internal/pkg/jwt-manager/v1/manager.go:130-144 | a refresh token is accepted by `ParseAccess`, with empty username and email |
| JwtManager.AccessAcceptedAsRefresh | internal/pkg/jwt-manager/v1/manager.go:146-159 | an access token is accepted by `ParseRefresh`, with an empty jti |
| JwtManager.ForeignSignatureRejected | internal/pkg/jwt-manager/v1/manager.go:130-159 | a token signed by another key is `ErrTokenParse` naming the invalid signature, on both parse paths alike |
| JwtManager.TamperedClaimsRejected | internal/pkg/jwt-manager/v1/manager.go:130-144 | claims changed after signing are `ErrTokenParse` with "signature invalid" |
| JwtManager.NonRsaMethodRejected | internal/pkg/jwt-manager/v1/manager.go:161-166 | a registered non-RSA `alg` is `ErrTokenParse` carrying `ErrSigningMethod`, whatever the signature |
| JwtManager.UnknownAlgRejected | internal/pkg/jwt-manager/v1/manager.go:130-144 | a missing or unregistered `alg` is `ErrTokenParse` with "unverifiable" only |
| JwtValidator.NewValidator | internal/pkg/jwt-manager/v1/validator.go:17-22 | a nil public key is refused; otherwise a validator holding only that key |
| JwtValidator.Validator.ValidateAccess | internal/pkg/jwt-manager/v1/validator.go:25-40 | accepted iff the token is compact, RSA-signed by the validator's key and its `exp` is ahead, with the token's access claims; a signed token without `exp` is the nil-dereference case |
| JwtValidator.Validator.ValidateRefresh | internal/pkg/jwt-manager/v1/validator.go:42-55 | the same gate, with the token's refresh claims |
| JwtValidator.ValidatorAgreesWithManager | internal/pkg/jwt-manager/v1/validator.go:25-62 | for the same public key, a validator and a manager return identical results on every token, for access and refresh alike |
| JwtValidator.ValidatorAcceptsIssuedAccess | internal/pkg/jwt-manager/v1/validator.go:25-39 | a validator accepts the manager's access tokens with the original fields before `exp`, and reports `ErrTokenExpired` after |
| Base64Url.Char | internal/pkg/jwt-manager/v1/helpers.go:19 | every sextet maps to a URL-safe character |
| Base64Url.Value | internal/pkg/jwt-manager/v1/helpers.go:19 | a character has a sextet value iff it is URL-safe |
| Base64Url.ValueOfChar | internal/pkg/jwt-manager/v1/helpers.go:19 | `Value` inverts `Char` |
| Base64Url.Sextets | internal/pkg/jwt-manager/v1/helpers.go:19 | `ceil(8n / 6)` sextets, each below 64 |
| Base64Url.Encode | internal/pkg/jwt-manager/v1/helpers.go:19 | `ceil(4n / 3)` URL-safe characters and no padding |
| Base64Url.GroupRoundTrip | internal/pkg/jwt-manager/v1/helpers.go:19 | a 3-byte group's sextets recombine into the three bytes |
| Base64Url.FromSextetsRoundTrip | internal/pkg/jwt-manager/v1/helpers.go:19 | decoding the sextets of any byte string gives it back, for all three tail lengths |
| Base64Url.DecodeEncode | internal/pkg/jwt-manager/v1/helpers.go:19 | decoding an encoding gives the bytes back |
| Base64Url.EncodeInjective | internal/pkg/jwt-manager/v1/helpers.go:19 | equal encodings come from equal byte strings |
| RedisClientConfig.DefaultConfig | internal/pkg/go-redis-client/config.go:35-48 | addr "localhost:6379", db 0, pool 10, min idle 2 and the listed timeouts; no password |
| RedisClientConfig.Valid | internal/pkg/go-redis-client/config.go:50-71 | accepted iff addr is set, a password is set, db is in 0..15, pool size is at least 1 and min idle is in 0..pool size; otherwise the message of the first failing check in source order, for each of the six checks |
| RedisClientConfig.TimeoutsUnchecked | internal/pkg/go-redis-client/config.go:50-71 | no timeout value changes the verdict |
| RedisClientConfig.DefaultsNeedPassword | internal/pkg/go-redis-client/config.go:54-56 | the defaults are refused for the missing password, and accepted once one is set |
| RedisClientConfig.Boundaries | internal/pkg/go-redis-client/test_config_test.go:67-107 | db 15 passes and 16 and -1 fail; pool size 0 and min idle -1 fail; min idle equal to the pool size passes, above it fails |
| RedisClientConfig.ApplySetsOneField | internal/pkg/go-redis-client/options.go:5-71 | each option writes its own field, with the given value (a password made present), and no other field |
| RedisClientConfig.Apply | internal/pkg/go-redis-client/options.go:5-71 | applying an option changes exactly its own field, to the option's value |
| RedisClientConfig.LastWriteWins | internal/pkg/go-redis-client/redis-client.go:15-19 | after an option list, each field holds the value of the last option writing it, else its earlier value |
| RedisClientConfig.FieldsDetermineConfig | internal/pkg/go-redis-client/config.go:21-33 | two configurations that agree on every field are equal |
| RedisClientConfig.FullOptionList | internal/pkg/go-redis-client/test_options_test.go:8-54 | applying every option to the defaults yields exactly the values passed |
| RedisClientConfig.New | internal/pkg/go-redis-client/redis-client.go:14-23 | options over the defaults, then `valid`: an invalid result is the wrapped message, otherwise the configuration, which is valid and has a password |
| PgxClientConfig.ToUint16 | internal/pkg/pgx-client/options.go:15 | the uint16 cast: congruent modulo 2^16 and the identity in range |
| PgxClientConfig.ToInt32 | internal/pkg/pgx-client/options.go:49-59 | the int32 cast: congruent modulo 2^32 and the identity in range |
| PgxClientConfig.DefaultConfig | internal/pkg/pgx-client/config.go:34-46 | host "localhost", port 5432, database "postgres", sslMode "disable", 10 and 2 connections; no user and no password |
| PgxClientConfig.Valid | internal/pkg/pgx-client/config.go:48-68 | accepted iff user and password are set, the port is not 0, max conns is at least 1 and min conns is in 0..max conns; otherwise the message of the first failing check in source order, for each of the six checks |
| PgxClientConfig.UncheckedFields | internal/pkg/pgx-client/test_config_test.go:47-57 | host, database, sslMode and the timeouts never change the verdict, so an empty host passes |
| PgxClientConfig.DefaultsNeedCredentials | internal/pkg/pgx-client/config.go:49-54 | the defaults fail on the user, then on the password, and pass once both are set |
| PgxClientConfig.ApplySetsOneField | internal/pkg/pgx-client/options.go:7-71 | each option writes its own field and no other; user and password become present |
| PgxClientConfig.Apply | internal/pkg/pgx-client/options.go:7-71 | applying an option changes exactly its own field, to the option's value as converted (`uint16`, `int32`) |
| PgxClientConfig.LastWriteWins | internal/pkg/pgx-client/pgx-client.go:30-36 | after an option list, each field holds the value of the last option writing it |
| PgxClientConfig.PortWrapsAround | internal/pkg/pgx-client/options.go:13-17 | `WithPort(65536)` stores 0, which `valid` then refuses; 70000 stores 4464 and -1 stores 65535 |
| PgxClientConfig.ConnsWrapAround | internal/pkg/pgx-client/options.go:49-59 | `WithMaxConns(2^31)` stores -2^31, which `valid` refuses; `WithMinConns(2^32 + 5)` stores 5 |
| PgxClientConfig.FieldsDetermineConfig | internal/pkg/pgx-client/config.go:20-32 | two configurations that agree on every field are equal |
| PgxClientConfig.FullOptionList | internal/pkg/pgx-client/test_options_test.go:8-54 | applying every option to the defaults yields exactly the values passed |
| PgxClient.ConnConfig.constructor | internal/pkg/pgx-client/pgx-client.go:71-76 | a connection configuration holding exactly the given fields |
| PgxClient.PoolConfig.constructor | internal/pkg/pgx-client/pgx-client.go:81-84 | a pool configuration holding exactly the given fields |
| PgxClient.SelectTls | internal/pkg/pgx-client/pgx-client.go:89-104 | "disable" gives no TLS, "require" gives TLS with `InsecureSkipVerify`, anything else is "unknown sslmode" |
| PgxClient.ModeMatchIsExact | internal/pkg/pgx-client/test_client_test.go:10-65 | the match is exact: changed case, a leading space or the empty mode all fail |
| PgxClient.ConfigureTls | internal/pkg/pgx-client/pgx-client.go:89-104 | sets the connection's TLS field as `SelectTls` says, or leaves it and reports the error; no other field changes |
| PgxClient.CreatePgxConfig | internal/pkg/pgx-client/pgx-client.go:65-87 | a parse failure passes through; otherwise host, port, user, password and database are copied; a bad sslMode fails with "configure TLS"; else the pool limits and both lifetimes are copied too |
| PgxClient.New | internal/pkg/pgx-client/pgx-client.go:30-43 | options over the defaults, then `valid` before any pool work: an invalid configuration leaves the pool configuration untouched; otherwise the result is the `createPGXConfig` outcome under "parse config" |
| PgxClient.WrappedPortRefused | internal/pkg/pgx-client/options.go:15 | `New` with user, password and port 65536 is refused as an invalid port |
| PostgresRepo.HandleError | services/sso/repository/postgres/repository.go:33-44 | nil stays nil; deadline and cancellation errors are returned unchanged; no rows is `ErrNotFound`; anything else is `ErrInternal` |
| PostgresRepo.HandleErrorRange | services/sso/repository/postgres/repository.go:33-44 | the result is nil, the context error itself, `ErrNotFound` or `ErrInternal` |
| PostgresRepo.NewRepository | services/sso/repository/postgres/repository.go:19-24 | the handle and its queries are bound to the same database |
| PostgresRepo.WithTx | services/sso/repository/postgres/repository.go:26-31 | both the handle and the queries are bound to the transaction |
| PostgresRepo.WithTxForgetsReceiver | services/sso/repository/postgres/repository.go:26-31 | the result does not depend on the receiver; it is a new repository on the transaction |
| PostgresRepo.OrderedConcat | services/sso/repository/postgres/user-provider.go:16-44 | concatenating two column lists ordered in adjacent rank ranges keeps them ordered |
| PostgresRepo.PresentOrdered | services/sso/repository/postgres/user-provider.go:16-44 | the present columns follow the fixed order username, email, name, surname, is_male, at most five |
| PostgresRepo.PresentColumns | services/sso/repository/postgres/user-provider.go:16-44 | each field's column is present iff the field is set, carrying its value |
| PostgresRepo.MemberOfPresent | services/sso/repository/postgres/user-provider.go:16-44 | a column is present iff it comes from one of the five set fields |
| PostgresRepo.PlannedUpdate | services/sso/repository/postgres/user-provider.go:46-58 | no statement iff no field is set |
| PostgresRepo.PlaceholdersBindArguments | services/sso/repository/postgres/user-provider.go:12-58 | with k columns present: k + 1 arguments; the i-th assignment is `column = $i` bound to that column's value; the WHERE clause uses `$(k+1)`, bound to the id, and excludes soft-deleted rows |
| PostgresRepo.TwoFieldUpdate | services/sso/repository/postgres/user-provider.go:16-58 | setting username and email gives `username = $1, email = $2 ... WHERE id = $3` with the arguments in that order |
| PostgresRepo.PlannedFromParts | services/sso/repository/postgres/user-provider.go:54-58 | the assignments and arguments of the present columns render the planned statement |
| PostgresRepo.ExecVerdict | services/sso/repository/postgres/user-provider.go:60-69 | zero rows affected is `ErrNotFound`, other row counts succeed, and an execution error goes through `handleError` and is never nil |
| PostgresRepo.SetPartsSnoc | services/sso/repository/postgres/user-provider.go:16-44 | appending a column appends its assignment with the next placeholder and its value |
| PostgresRepo.Join | services/sso/repository/postgres/user-provider.go:54-58 | `strings.Join` for the SET list: empty for no parts; otherwise the parts' lengths plus one separator between each neighbouring pair |
| PostgresRepo.JoinSnoc | services/sso/repository/postgres/user-provider.go:54-58 | one part joins to itself, and joining one more part appends a separator and that part: the parts in order, `sep` between neighbours only |
| PostgresRepo.AppendStep | services/sso/repository/postgres/user-provider.go:16-44 | one appended field keeps the builder's invariant: parts and arguments match the columns so far and `argIndex == len(args) + 1` |
| PostgresRepo.AppendIfSet | services/sso/repository/postgres/user-provider.go:16-44 | one optional field: appended with the next placeholder when set, skipped otherwise; the invariant and `argIndex == len(args) + 1` hold after it |
| PostgresRepo.UpdateUser | services/sso/repository/postgres/user-provider.go:11-70 | with no field set, nothing is sent and the result is nil; otherwise exactly the planned statement is sent on the repository's handle, and the result is its execution verdict |
| Strings.NatToString | services/sso/repository/postgres/user-provider.go:17 | `%d` of a natural number: decimal digits without leading zeros whose value is the number |
| SsoBusiness.CheckUpdatePermission | services/sso/business/business.go:39-45 | nil iff the actor is the target, otherwise `ErrPermissionDenied`; a function of the two ids only |
| SsoBusiness.UpdateOutcome | services/sso/business/user-update.go:12-39 | another user's id is `ErrPermissionDenied`; provider success is nil; `ErrNotFound` is `ErrUserNotFound`; any other provider error is `ErrInternal` |
| SsoBusiness.CreateOutcome | services/sso/business/user-create.go:13-55 | success iff the e-mail is free, hashing works and the insert works, returning the provider's row; a check error is `ErrInternal`; a taken e-mail is `ErrEmailExists`; a hash error is returned raw; `ErrAlreadyExists` is `ErrUserExists`; other insert errors are `ErrInternal` |
| SsoBusiness.CreateUserRequest.constructor | services/sso/business/user-create.go:13 | a request holding the caller's user fields |
| SsoBusiness.UserProvider.constructor | services/sso/business/business.go:13-24 | a provider stub with the given replies and no recorded calls |
| SsoBusiness.UserProvider.UpdateUser | services/sso/business/business.go:14 | records the call with its parameters and returns the stub's reply |
| SsoBusiness.UserProvider.ExistsUserByEmail | services/sso/business/business.go:23 | records the call with the e-mail and returns the stub's reply |
| SsoBusiness.UserProvider.CreateUser | services/sso/business/business.go:15 | records the user as handed over and returns the stub's reply |
| SsoBusiness.Business.New | services/sso/business/business.go:32-37 | stores the configuration and the provider and leaves the logger unset |
| SsoBusiness.Business.UpdateUser | services/sso/business/user-update.go:23-38 | the result is `UpdateOutcome`; the provider is called once with the parameters unchanged iff the permission check passes, and never otherwise |
| SsoBusiness.Business.CreateUser | services/sso/business/user-create.go:22-54 | the result is `CreateOutcome`; the provider sees the e-mail check and then, only when the e-mail is free and hashing worked, one insert carrying the hash; the caller's password is overwritten with the hash exactly then |
| SsoBusiness.UpdateErrorsAreSentinels | services/sso/business/user-update.go:23-36 | update errors are `ErrPermissionDenied`, `ErrUserNotFound` or `ErrInternal`, never a provider error |
| SsoBusiness.CreateErrorsAreSentinels | services/sso/business/user-create.go:22-49 | registration errors are one of three sentinels or the raw hash error |
| SsoBusiness.DuplicateUsernameCaughtByInsert | services/sso/business/user-create.go:22-47 | only the e-mail is pre-checked: a duplicate username reaches the insert and comes back as `ErrUserExists`, while a taken e-mail stops before it |
| SsoBusiness.InsertCarriesHash | services/sso/business/user-create.go:39-42 | every insert the provider sees carries the hash and not the caller's password |
| SsoBusiness.EmptyUpdateSucceeds | services/sso/business/user-update.go:28-38 | over the Postgres repository, an update that sets nothing succeeds, even for a missing user |
| SsoBusiness.UpdateThroughPostgres | services/sso/business/user-update.go:28-36 | over the Postgres repository: zero rows affected or a no-rows error is `ErrUserNotFound`; a context error the repository passes through is `ErrInternal`; affected rows succeed |
| SsoBusiness.LogWith | services/sso/business/user-update.go:15 | `b.log.With` panics iff the logger is nil |
| SsoBusiness.UpdateUserAsWritten | services/sso/business/user-update.go:12-39 | the flow as written panics iff the logger is nil, and otherwise returns `UpdateOutcome` |
| SsoBusiness.CreateUserAsWritten | services/sso/business/user-create.go:13-55 | the flow as written panics iff the logger is nil, and otherwise returns `CreateOutcome` |
| SsoBusiness.NilLoggerPanics | services/sso/business/business.go:32-37 | on a `Business` built by `New`, both flows panic whatever their inputs |

## Left out

- Network and connection plumbing is not modelled: pings, pool creation,
  the query pass-throughs, closing clients. Whether a Redis or SQL round
  trip succeeds is a parameter.
- `pgxpool.ParseConfig("")` is an input to `PgxClient.CreatePgxConfig`
  and `PgxClient.New`. The driver's own defaults are not modelled.
- Cryptography is symbolic: RSA signing and verification, golang-jwt's
  compact serialization, JSON encoding and bcrypt. Hashing is a function
  parameter of `SsoBusiness.Business.CreateUser`. The golang-jwt parser
  is reduced to the checks the core depends on (malformed, `alg` lookup,
  key function, signature, `exp`); `nbf`, `iat` and audience checks are
  not modelled.
- Clocks and randomness are parameters: `time.Now`, `time.Until`, the
  Redis `TIME` reading, the Lua `math.random` and `crypto/rand`.
- Lua number formatting of the member string (`now-micro_total-unique`)
  is not modelled. A member is the triple of its three numbers, so two
  members are equal iff their numbers are.
- Limiter key expiry is recorded, never enforced: `Limiter.PExpire`
  stores the deadline `now + window` computed from the caller's `now`
  (ARGV), not from the Redis clock, and `Limiter.SortedSetStore.View`
  ignores it. With a positive window, scores no later than `now` and a
  later call with the same window, this is unobservable: by the deadline
  the later call's trim removes every entry anyway
  (`Limiter.ExpiryNeverPreemptsTrim`). A window under 1 ms is the
  exception, covered by `LimiterTheory.SubMillisecondWindowAdmitsAll`.
- The revocation ledger's expiry is honoured at nanosecond precision by
  `TokenLedger.RevocationLedger.Present`: a key is absent from its
  deadline on. Redis' millisecond granularity and its lazy and active
  deletion are not modelled.
- Go strings are byte sequences; the model uses `seq<char>`. Every
  separator and search the core uses (`:`, `#`, `,`, `[`, `]`, `_`) is
  ASCII, so indexing by character and by byte pick the same split
  points. `Interceptor.TrimSpace` trims the same Unicode white space
  that `strings.TrimSpace` decodes from UTF-8.
- Concurrency is left out: the `sync.RWMutex` of the limit table and
  concurrent callers. Each script run and each method is one
  indivisible step.
- Logging is left out; every `slog` call is a no-op.
  `SsoBusiness.Business.UpdateUser` and `SsoBusiness.Business.CreateUser`
  model the flows without their first statement, `b.log.With`. The
  as-written versions, which panic, are under "Findings".
- The panics of `NewConfig` and `SetMethod` on a non-positive count or
  window are preconditions of `RateLimitConfig.Config.constructor` and
  `RateLimitConfig.Config.SetMethod`.
- `Time.Add` overflow and Go's saturation of out-of-range instants are
  not modelled. Instants and durations are unbounded nanosecond counts.
- The option closures of both client packages and of the JWT manager are
  modelled as datatype values, and `Apply` performs the write. The
  closures themselves are not modelled.
- The five `if params.X != nil` blocks of `PostgresRepo.UpdateUser` are
  one method, `PostgresRepo.AppendIfSet`, called five times in the
  source's order.
- `SsoBusiness.UpdateThroughPostgres` holds for context errors that do
  not wrap one of the repository's own sentinels. A driver error never
  does.
- The user provider is a recording stub that answers with fixed replies.
  The provider's methods the core never calls are not modelled:
  `GetUserByUsername`, `GetUserByID`, `UpdatePassword`, `SoftDeleteUser`,
  `HardDeleteUser`, `CountUsers` and `ExistsUserByUsername`.
- `JwtManager.Manager.ParseAccess` and `JwtManager.Manager.ParseRefresh`
  report a valid token without `exp` as `NilExpiry`. Go dereferences the
  nil `ExpiresAt` there and panics.
- The Redis client interface in
  services/sso/repository/redis/repository.go:10-17 has no `SetEx`. The
  revocation ledger still models the `SetEx` call of token-provider.go.
- LimiterTheory.AtMostLimitPerWindow: assumes non-decreasing `now` and
  pairwise distinct members. `LimiterTheory.SameMemberOvershoots` shows
  why the second assumption is needed.

## Findings

| source | as written | input that shows it | evidently intended | confidence | as-written member | corrected member |
|---|---|---|---|---|---|---|
| services/sso/repository/redis/token-provider.go:27 | `SetEx` sends the TTL to Redis in whole seconds, truncating | a token expiring 1.5 s after revocation: its record is gone after 1 s, so the token is accepted as not revoked for its last half second; a token expiring 0.5 s after revocation keeps its record for 1 s (`TokenLedger.SetExOutlivesToken`) | the record lives for exactly the token's remaining lifetime, `expiresAt - now` | not executed | TokenLedger.SetExDropsFraction | TokenLedger.RevocationLedger.RevokeCorrected |
| services/sso/business/business.go:32-37 | `New` never sets `log`, and both flows begin with `b.log.With(...)` (user-update.go:15, user-create.go:16) | any call of `UpdateUser` or `CreateUser` on a `Business` made by `New` dereferences a nil logger | the flows run with a logger set | not executed | SsoBusiness.NilLoggerPanics | SsoBusiness.Business.UpdateUser |
