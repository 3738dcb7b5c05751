/**
 * The gRPC unary interceptor of the rate limiter
 * (internal/pkg/rate-limiter/v1/interceptor.go): client-IP extraction, key
 * derivation and the allow / deny / fail-open decision.
 */
module Interceptor {
  import opened Wrappers
  import opened Limiter
  import opened RateLimitConfig

  const LimiterPrefix := "ratelimit"

  // ---------------------------------------------------------------- strings

  /** First index of `c` in `s`, or -1 (Go's `strings.IndexByte`). */
  function IndexOf(s: string, c: char): (i: int)
    ensures -1 <= i < |s|
    ensures i >= 0 ==> s[i] == c
    ensures forall k :: 0 <= k < |s| && (i < 0 || k < i) ==> s[k] != c
  {
    if s == [] then -1
    else if s[0] == c then 0
    else
      var j := IndexOf(s[1..], c);
      if j < 0 then -1 else j + 1
  }

  /** Last index of `c` in `s`, or -1 (Go's `strings.LastIndexByte`). */
  function LastIndexOf(s: string, c: char): (i: int)
    ensures -1 <= i < |s|
    ensures i >= 0 ==> s[i] == c
    ensures forall k :: i < k < |s| ==> s[k] != c
  {
    if s == [] then -1
    else if s[|s| - 1] == c then |s| - 1
    else LastIndexOf(s[..|s| - 1], c)
  }

  /** `strings.ReplaceAll` for a single-character pattern. */
  function ReplaceChar(s: string, from: char, to: char): (r: string)
    ensures |r| == |s|
    ensures forall i :: 0 <= i < |s| ==> r[i] == if s[i] == from then to else s[i]
  {
    if s == [] then [] else [if s[0] == from then to else s[0]] + ReplaceChar(s[1..], from, to)
  }

  /** Go's `unicode.IsSpace`, which `strings.TrimSpace` uses. */
  predicate IsSpace(c: char)
  {
    c == '\t' || c == '\n' || c == '\U{B}' || c == '\U{C}' || c == '\r' || c == ' ' ||
    c == '\U{85}' || c == '\U{A0}' || c == '\U{1680}' || ('\U{2000}' <= c <= '\U{200A}') ||
    c == '\U{2028}' || c == '\U{2029}' || c == '\U{202F}' || c == '\U{205F}' || c == '\U{3000}'
  }

  function TrimLeft(s: string): (r: string)
    ensures |r| <= |s| && r == s[|s| - |r|..]
    ensures r == [] || !IsSpace(r[0])
    ensures forall k :: 0 <= k < |s| - |r| ==> IsSpace(s[k])
  {
    if s != [] && IsSpace(s[0]) then TrimLeft(s[1..]) else s
  }

  function TrimRight(s: string): (r: string)
    ensures |r| <= |s| && r == s[..|r|]
    ensures r == [] || !IsSpace(r[|r| - 1])
    ensures forall k :: |r| <= k < |s| ==> IsSpace(s[k])
  {
    if s != [] && IsSpace(s[|s| - 1]) then TrimRight(s[..|s| - 1]) else s
  }

  /** `strings.TrimSpace`: drops leading and trailing white space. */
  function TrimSpace(s: string): (r: string)
    ensures r == [] || (!IsSpace(r[0]) && !IsSpace(r[|r| - 1]))
    ensures exists i, j :: 0 <= i <= j <= |s| && r == s[i..j] &&
                           (forall k :: (0 <= k < i || j <= k < |s|) ==> IsSpace(s[k]))
  {
    var l := TrimLeft(s);
    var r := TrimRight(l);
    TrimmedEnds(s, l, r);
    r
  }

  /** The cut points of `TrimSpace`, from what the two trims promise:
      white space only outside `s[i..j]`. */
  lemma TrimmedEnds(s: string, l: string, r: string)
    requires |l| <= |s| && l == s[|s| - |l|..] && forall k :: 0 <= k < |s| - |l| ==> IsSpace(s[k])
    requires |r| <= |l| && r == l[..|r|] && forall k :: |r| <= k < |l| ==> IsSpace(l[k])
    ensures 0 <= |s| - |l| <= |s| - |l| + |r| <= |s|
    ensures r == s[|s| - |l|..|s| - |l| + |r|]
    ensures forall k :: (0 <= k < |s| - |l| || |s| - |l| + |r| <= k < |s|) ==> IsSpace(s[k])
  {
    var i, j := |s| - |l|, |s| - |l| + |r|;
    assert r == s[i..][..|r|] == s[i..j];
    forall k | j <= k < |s| ensures IsSpace(s[k]) {
      assert s[k] == l[k - i];
    }
  }

  /** `strings.SplitN(s, ",", 2)[0]`: everything before the first comma. */
  function BeforeComma(s: string): (r: string)
    ensures ',' !in r
    ensures r == s || (|r| < |s| && s[|r|] == ',' && r == s[..|r|])
  {
    var i := IndexOf(s, ',');
    if i < 0 then s else s[..i]
  }

  // ----------------------------------------------------------- key derivation

  /** The IP with every ':' replaced by '_' (the key's separator is '#'). */
  function EscapeIP(ip: string): (safe: string)
    ensures ':' !in safe
  {
    ReplaceChar(ip, ':', '_')
  }

  /** `rateLimitKey`: "ratelimit" + escaped IP + "#" + full method name. */
  function RateLimitKey(ip: string, fullMethod: string): (key: string)
    ensures |key| == |LimiterPrefix| + |ip| + 1 + |fullMethod|
    ensures key[..|LimiterPrefix|] == LimiterPrefix
    ensures key[|LimiterPrefix|..|LimiterPrefix| + |ip|] == EscapeIP(ip)
    ensures ':' !in key[..|LimiterPrefix| + |ip|]
    ensures key[|LimiterPrefix| + |ip|] == '#' && key[|LimiterPrefix| + |ip| + 1..] == fullMethod
  {
    LimiterPrefix + EscapeIP(ip) + "#" + fullMethod
  }

  /** The first '#' after a '#'-free prefix is the separator. */
  lemma SeparatorIsFirstHash(a: string, b: string)
    requires '#' !in a
    ensures IndexOf(a + "#" + b, '#') == |a|
  {
    var s := a + "#" + b;
    assert s[|a|] == '#';
    assert forall k :: 0 <= k < |a| ==> s[k] == a[k];
  }

  /** For IPs without '_' or '#', the key determines both the IP and the method. */
  lemma RateLimitKeyInjective(ip1: string, m1: string, ip2: string, m2: string)
    requires '_' !in ip1 && '#' !in ip1 && '_' !in ip2 && '#' !in ip2
    requires RateLimitKey(ip1, m1) == RateLimitKey(ip2, m2)
    ensures ip1 == ip2 && m1 == m2
  {
    var e1, e2 := EscapeIP(ip1), EscapeIP(ip2);
    var p := |LimiterPrefix|;
    assert '#' !in e1 && '#' !in e2;
    var rest := RateLimitKey(ip1, m1)[p..];
    assert rest == e1 + "#" + m1 == e2 + "#" + m2;
    SeparatorIsFirstHash(e1, m1);
    SeparatorIsFirstHash(e2, m2);
    assert e1 == rest[..|e1|] == e2;
    assert m1 == rest[|e1| + 1..] == m2;
    forall i | 0 <= i < |ip1| ensures ip1[i] == ip2[i] {
      assert e1[i] == e2[i];
    }
  }

  /** An IP that already contains '_' shares its key with the ':' spelling. */
  lemma UnderscoreIPCollides(fullMethod: string)
    ensures RateLimitKey("::1", fullMethod) == RateLimitKey("__1", fullMethod)
  {
    assert EscapeIP("::1") == "__1" == EscapeIP("__1");
  }

  // ------------------------------------------------------ host:port splitting

  /** Go's `net.SplitHostPort`, returning (host, port) or the reason it fails. */
  function SplitHostPort(hostport: string): (r: Result<(string, string), string>)
    ensures r.Success? ==> ':' !in r.value.1 && '[' !in r.value.1 && ']' !in r.value.1
    ensures r.Success? ==> '[' !in r.value.0 && ']' !in r.value.0
    ensures r.Success? ==>
      |hostport| > 0 &&
      hostport == (if hostport[0] == '[' then "[" + r.value.0 + "]:" else r.value.0 + ":") + r.value.1
  {
    var i := LastIndexOf(hostport, ':');
    if i < 0 then Failure("missing port in address")
    else
      var bracket := hostport[0] == '[';
      var end := IndexOf(hostport, ']');
      if bracket && end < 0 then Failure("missing ']' in address")
      else if bracket && end + 1 == |hostport| then Failure("missing port in address")
      else if bracket && end + 1 != i && hostport[end + 1] == ':' then Failure("too many colons in address")
      else if bracket && end + 1 != i then Failure("missing port in address")
      else
        var host := if bracket then hostport[1..end] else hostport[..i];
        var j, k := if bracket then 1 else 0, if bracket then end + 1 else 0;
        if !bracket && ':' in host then Failure("too many colons in address")
        else if '[' in hostport[j..] then Failure("unexpected '[' in address")
        else if ']' in hostport[k..] then Failure("unexpected ']' in address")
        else Success((host, hostport[i + 1..]))
  }

  /** Go's `net.JoinHostPort`, which is how a TCP peer address is printed. */
  function JoinHostPort(host: string, port: string): (s: string)
    ensures |s| > |port| && s[|s| - |port|..] == port
    ensures ':' !in port ==> LastIndexOf(s, ':') == |s| - |port| - 1
    ensures ':' in host ==> s[0] == '['
  {
    var s := if ':' in host then "[" + host + "]:" + port else host + ":" + port;
    assert forall k :: 0 <= k < |port| ==> s[|s| - |port| + k] == port[k];
    assert s[|s| - |port| - 1] == ':';
    s
  }

  /** Where the pieces of a bracketed `host:port` sit. */
  lemma BracketedLayout(host: string, port: string, hp: string)
    requires hp == "[" + host + "]:" + port
    ensures |hp| == |host| + 3 + |port| && hp[0] == '['
    ensures hp[|host| + 1] == ']' && hp[|host| + 2] == ':'
    ensures hp[1..|host| + 1] == host && hp[|host| + 3..] == port
    ensures hp[1..] == host + "]:" + port && hp[|host| + 2..] == ":" + port
  {
    var n := |host|;
    assert forall k :: 0 <= k < n ==> hp[k + 1] == host[k];
    assert forall k :: 0 <= k < |port| ==> hp[n + 3 + k] == port[k];
    assert hp[1..] == host + "]:" + port;
    assert hp[n + 2..] == ":" + port;
  }

  /** What the searches in `SplitHostPort` find in a bracketed `host:port`. */
  lemma BracketedSearches(host: string, port: string, hp: string)
    requires hp == "[" + host + "]:" + port
    requires '[' !in host && ']' !in host
    requires ':' !in port && '[' !in port && ']' !in port
    ensures LastIndexOf(hp, ':') == |host| + 2
    ensures IndexOf(hp, ']') == |host| + 1
    ensures '[' !in hp[1..] && ']' !in hp[|host| + 2..]
  {
    var n := |host|;
    BracketedLayout(host, port, hp);
    forall k | n + 2 < k < |hp| ensures hp[k] != ':' {
      assert hp[k] == hp[n + 3..][k - (n + 3)] == port[k - (n + 3)];
    }
    forall k | 0 < k < n + 1 ensures hp[k] != ']' {
      assert hp[k] == hp[1..n + 1][k - 1] == host[k - 1];
    }
  }

  /** An IPv6-style host (one holding ':') comes back without its brackets. */
  lemma SplitJoinBracketed(host: string, port: string)
    requires ':' in host && '[' !in host && ']' !in host
    requires ':' !in port && '[' !in port && ']' !in port
    ensures SplitHostPort(JoinHostPort(host, port)) == Success((host, port))
  {
    var hp := JoinHostPort(host, port);
    assert hp == "[" + host + "]:" + port;
    BracketedLayout(host, port, hp);
    BracketedSearches(host, port, hp);
  }

  /** A host without ':' is split at the port's colon. */
  lemma SplitJoinPlain(host: string, port: string)
    requires ':' !in host && '[' !in host && ']' !in host
    requires ':' !in port && '[' !in port && ']' !in port
    ensures SplitHostPort(JoinHostPort(host, port)) == Success((host, port))
  {
    var hp := JoinHostPort(host, port);
    var n := |host|;
    assert hp == host + ":" + port;
    assert forall k :: 0 <= k < n ==> hp[k] == host[k];
    assert forall k :: 0 <= k < |port| ==> hp[n + 1 + k] == port[k];
    assert hp[n] == ':';
    assert forall k :: n < k < |hp| ==> hp[k] != ':';
    assert LastIndexOf(hp, ':') == n;
    assert hp[..n] == host && hp[n + 1..] == port;
    assert hp[0] != '[';
    assert '[' !in hp && ']' !in hp;
    assert hp[0..] == hp;
  }

  /** A host and port without brackets, and a port without ':', survive
      joining and splitting again; IPv6 hosts come back without brackets. */
  lemma SplitJoinHostPort(host: string, port: string)
    requires '[' !in host && ']' !in host
    requires ':' !in port && '[' !in port && ']' !in port
    ensures SplitHostPort(JoinHostPort(host, port)) == Success((host, port))
  {
    if ':' in host {
      SplitJoinBracketed(host, port);
    } else {
      SplitJoinPlain(host, port);
    }
  }

  // ----------------------------------------------------------- client IP

  /** The request metadata as gRPC hands it over: lower-case keys, each with its values. */
  type Metadata = map<string, seq<string>>

  function Get(md: Metadata, key: string): seq<string>
  {
    if key in md then md[key] else []
  }

  /** `extractClientIP`: `x-forwarded-for` first (its first comma-separated
      entry, trimmed), then the first `x-real-ip` value as is, then the peer's
      host, then the whole peer address when it does not split, else an error. */
  function ExtractClientIP(md: Option<Metadata>, peer: Option<string>): (r: Result<string, string>)
    ensures md.Some? && |Get(md.value, "x-forwarded-for")| > 0 ==>
      var xff := Get(md.value, "x-forwarded-for")[0];
      r == Success(TrimSpace(BeforeComma(xff))) && ',' !in r.value &&
      (r.value == [] || (!IsSpace(r.value[0]) && !IsSpace(r.value[|r.value| - 1])))
    ensures md.Some? && |Get(md.value, "x-forwarded-for")| == 0 && |Get(md.value, "x-real-ip")| > 0 ==>
      r == Success(Get(md.value, "x-real-ip")[0])
    ensures r.Failure? <==>
      peer.None? && (md.None? || (|Get(md.value, "x-forwarded-for")| == 0 && |Get(md.value, "x-real-ip")| == 0))
    ensures peer.Some? &&
            (md.None? || (|Get(md.value, "x-forwarded-for")| == 0 && |Get(md.value, "x-real-ip")| == 0)) ==>
      r == Success(if SplitHostPort(peer.value).Success? then SplitHostPort(peer.value).value.0 else peer.value)
    ensures r.Failure? ==> r.error == "bad ip"
  {
    var fromHeaders :=
      if md.None? then None
      else if |Get(md.value, "x-forwarded-for")| > 0 then
        Some(TrimSpace(BeforeComma(Get(md.value, "x-forwarded-for")[0])))
      else if |Get(md.value, "x-real-ip")| > 0 then Some(Get(md.value, "x-real-ip")[0])
      else None;
    if fromHeaders.Some? then Success(fromHeaders.value)
    else if peer.Some? then
      match SplitHostPort(peer.value)
      case Success(hp) => Success(hp.0)
      case Failure(_) => Success(peer.value)
    else Failure("bad ip")
  }

  /** Without forwarding headers, a TCP peer `host:port` yields its host. */
  lemma PeerHostExtracted(host: string, port: string)
    requires '[' !in host && ']' !in host
    requires ':' !in port && '[' !in port && ']' !in port
    ensures ExtractClientIP(Some(map[]), Some(JoinHostPort(host, port))) == Success(host)
    ensures ExtractClientIP(None, Some(JoinHostPort(host, port))) == Success(host)
  {
    SplitJoinHostPort(host, port);
  }

  // ------------------------------------------------------------- the decision

  datatype Code = Internal | ResourceExhausted

  /** What the downstream handler returned; opaque to the interceptor. */
  datatype Reply = Reply(body: string, err: Option<string>)

  /** What the interceptor returns: the handler's own result, or a status error
      raised without running the handler. */
  datatype Outcome = HandlerRan(reply: Reply) | Rejected(code: Code, message: string)

  /** What `Limiter.Allow` answered. */
  datatype Verdict = Allowed | Denied | LimiterFailed(err: string)

  function VerdictOf(allowed: bool, err: Option<string>): Verdict
  {
    if err.Some? then LimiterFailed(err.value) else if allowed then Allowed else Denied
  }

  /** After the IP is known: a limiter error fails open, a denial is
      `ResourceExhausted` without the handler, an allow returns the handler's
      result unchanged. */
  function Decide(v: Verdict, reply: Reply): (o: Outcome)
    ensures o.HandlerRan? <==> !v.Denied?
    ensures o.HandlerRan? ==> o.reply == reply
    ensures v.Denied? ==> o == Rejected(ResourceExhausted, "rate limit exceeded, try again later")
  {
    match v
    case LimiterFailed(_) => HandlerRan(reply)
    case Denied => Rejected(ResourceExhausted, "rate limit exceeded, try again later")
    case Allowed => HandlerRan(reply)
  }

  /** One intercepted call.  `reply` is what the handler would return;
      `nowMs`, `microTotal` and `transport` are the limiter's environment. */
  method Intercept(limiter: RedisLimiter, cfg: Config, md: Option<Metadata>, peer: Option<string>,
                   fullMethod: string, reply: Reply, nowMs: int, microTotal: int, transport: Transport)
    returns (o: Outcome)
    requires limiter.store.Valid() && cfg.Valid()
    modifies limiter.store
    ensures limiter.store.Valid()
    ensures ExtractClientIP(md, peer).Failure? ==>
      o == Rejected(Internal, "failed get ip address") &&
      limiter.store.zsets == old(limiter.store.zsets) && limiter.store.expiry == old(limiter.store.expiry)
    ensures ExtractClientIP(md, peer).Success? && transport != NotSent ==>
      var key := RateLimitKey(ExtractClientIP(md, peer).value, fullMethod);
      var l := cfg.LimitFor(fullMethod);
      var r := Script(old(limiter.store.View(key)), Milliseconds(l.window), l.count, nowMs,
                      limiter.store.MemberFor(nowMs, microTotal));
      limiter.store.View(key) == r.after &&
      o == Decide(if transport == Delivered then (if r.result == 1 then Allowed else Denied)
                  else LimiterFailed("rate limiter script: reply lost"), reply)
    ensures ExtractClientIP(md, peer).Success? && transport == NotSent ==>
      o == HandlerRan(reply) &&
      limiter.store.zsets == old(limiter.store.zsets) && limiter.store.expiry == old(limiter.store.expiry)
    ensures ExtractClientIP(md, peer).Success? ==>
      forall k :: k != RateLimitKey(ExtractClientIP(md, peer).value, fullMethod) ==>
        limiter.store.View(k) == old(limiter.store.View(k))
  {
    var ip := ExtractClientIP(md, peer);
    if ip.Failure? {
      return Rejected(Internal, "failed get ip address");
    }
    var l := cfg.LimitFor(fullMethod);
    var key := RateLimitKey(ip.value, fullMethod);
    var allowed, err := limiter.Allow(key, l.count, l.window, nowMs, microTotal, transport);
    o := Decide(VerdictOf(allowed, err), reply);
  }
}
