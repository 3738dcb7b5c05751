/**
 * The sliding-window rate limiter: the Lua script that runs inside Redis
 * against one sorted set per key, and the Go wrapper `RedisLimiter.Allow`
 * that submits it (internal/pkg/rate-limiter/v1/limiter.go).
 *
 * Times inside the script are milliseconds; the wrapper receives a Go
 * `time.Duration`, which is a count of nanoseconds.
 */
module Limiter {
  import opened Wrappers

  /** The member the script adds: `now .. '-' .. micro_total .. '-' .. unique`. */
  datatype Member = Member(nowMs: int, microTotal: int, unique: int)

  /** A Redis sorted set: every member carries exactly one score. */
  type ZSet = map<Member, int>

  /** What one key holds: its sorted set (empty when the key does not exist)
      and its absolute expiry deadline in milliseconds, if any. */
  datatype KeyState = KeyState(zset: ZSet, expiry: Option<int>)

  const Absent := KeyState(map[], None)

  /** Outcome of one script execution for one key: the script's return value
      (1 or 0) and the key's new state. */
  datatype ScriptRun = ScriptRun(result: int, after: KeyState)

  /** `ZREMRANGEBYSCORE key -inf bound`: removes every member whose score is
      at most `bound` (the range is inclusive) and keeps the rest as they were. */
  function RemoveUpTo(z: ZSet, bound: int): (r: ZSet)
    ensures r.Keys <= z.Keys
    ensures forall m :: m in z ==> (m in r <==> z[m] > bound)
    ensures forall m :: m in r ==> r[m] == z[m]
  {
    map m | m in z && z[m] > bound :: z[m]
  }

  /** Redis forgets a key whose sorted set became empty, and its expiry with it. */
  function Normalize(z: ZSet, expiry: Option<int>): KeyState
  {
    if z == map[] then Absent else KeyState(z, expiry)
  }

  /** `PEXPIRE key ms`: a non-positive timeout deletes the key at once. */
  function PExpire(s: KeyState, nowMs: int, ms: int): (r: KeyState)
    ensures s.zset == map[] || ms <= 0 ==> r == Absent
    ensures s.zset != map[] && ms > 0 ==> r.zset == s.zset && r.expiry == Some(nowMs + ms)
  {
    if s.zset == map[] || ms <= 0 then Absent else KeyState(s.zset, Some(nowMs + ms))
  }

  /** The script, step by step: trim, count, and only below the limit add
      `member` scored `now` and reset the key's expiry to `window` ms. */
  function Script(s: KeyState, windowMs: int, limit: int, nowMs: int, member: Member): (r: ScriptRun)
    ensures r.result == 1 || r.result == 0
    ensures r.result == 1 <==> |RemoveUpTo(s.zset, nowMs - windowMs)| < limit
    ensures r.result == 1 ==>
      r.after == PExpire(KeyState(RemoveUpTo(s.zset, nowMs - windowMs)[member := nowMs], s.expiry), nowMs, windowMs)
    ensures r.result == 0 ==>
      r.after == Normalize(RemoveUpTo(s.zset, nowMs - windowMs), s.expiry)
  {
    var trimmed := Normalize(RemoveUpTo(s.zset, nowMs - windowMs), s.expiry);
    var count := |trimmed.zset|;
    if count < limit then
      var added := KeyState(trimmed.zset[member := nowMs], trimmed.expiry);
      ScriptRun(1, PExpire(added, nowMs, windowMs))
    else
      ScriptRun(0, trimmed)
  }

  /** `time.Duration.Milliseconds`: integer division truncating toward zero. */
  function Milliseconds(d: int): (ms: int)
    ensures d >= 0 ==> 0 <= ms * 1000000 <= d < (ms + 1) * 1000000
    ensures d < 0 ==> (ms - 1) * 1000000 < d <= ms * 1000000 <= 0
  {
    if d >= 0 then d / 1000000 else -((-d) / 1000000)
  }

  lemma SubmapCardinality(r: ZSet, z: ZSet)
    requires r.Keys <= z.Keys
    ensures |r| <= |z|
  {
    assert |r.Keys| <= |z.Keys| by { SubsetCardinality(r.Keys, z.Keys); }
  }

  lemma SubsetCardinality<T>(a: set<T>, b: set<T>)
    requires a <= b
    ensures |a| <= |b|
  {
    if a != {} {
      var x :| x in a;
      SubsetCardinality(a - {x}, b - {x});
    }
  }

  /** Starting from at most `limit` members, one script execution never
      leaves more than `limit` members in the set. */
  lemma ScriptKeepsBound(s: KeyState, windowMs: int, limit: int, nowMs: int, member: Member)
    requires |s.zset| <= limit
    ensures |Script(s, windowMs, limit, nowMs, member).after.zset| <= limit
  {
    var trimmed := RemoveUpTo(s.zset, nowMs - windowMs);
    SubmapCardinality(trimmed, s.zset);
    var r := Script(s, windowMs, limit, nowMs, member);
    if r.result == 1 {
      var added := trimmed[member := nowMs];
      assert added.Keys == trimmed.Keys + {member};
      assert |added.Keys| <= |trimmed.Keys| + 1;
    }
  }

  /** Re-adding a member the set already holds does not grow it: the script
      can say "allowed" without the count going up. */
  lemma ReAddDoesNotGrow(z: ZSet, member: Member, score: int)
    requires member in z
    ensures |z[member := score]| == |z|
  {
    assert z[member := score].Keys == z.Keys;
  }

  /** Once the oldest member's score is at most now - window, a full set
      (of at most `limit` members) lets the next call through. */
  lemma ExpiredEntryReopens(s: KeyState, windowMs: int, limit: int, nowMs: int, member: Member, oldest: Member)
    requires |s.zset| <= limit
    requires oldest in s.zset && s.zset[oldest] <= nowMs - windowMs
    ensures Script(s, windowMs, limit, nowMs, member).result == 1
  {
    var trimmed := RemoveUpTo(s.zset, nowMs - windowMs);
    assert trimmed.Keys <= s.zset.Keys - {oldest};
    SubsetCardinality(trimmed.Keys, s.zset.Keys - {oldest});
  }

  /** With a positive window and scores that are all at most `now`, the
      deadline PEXPIRE sets is never earlier than the moment the trim itself
      would have emptied the set: evicting the key at its deadline is not
      observable by a later call with the same window. */
  lemma ExpiryNeverPreemptsTrim(s: KeyState, windowMs: int, limit: int, nowMs: int, member: Member, laterMs: int)
    requires windowMs > 0
    requires forall m :: m in s.zset ==> s.zset[m] <= nowMs
    requires Script(s, windowMs, limit, nowMs, member).result == 1
    requires laterMs >= nowMs + windowMs
    ensures RemoveUpTo(Script(s, windowMs, limit, nowMs, member).after.zset, laterMs - windowMs) == map[]
  {
  }

  /**
   * The Redis keyspace the script runs against: one sorted set per key and
   * the keys' expiry deadlines.  `prng` stands for the script's
   * `math.randomseed(micro_total)` followed by `math.random(1000000000)`:
   * the salt is a function of `micro_total` alone.
   */
  class SortedSetStore {
    var zsets: map<string, ZSet>
    var expiry: map<string, int>
    const prng: int -> int

    /** Redis keeps no empty sorted set, and only existing keys expire. */
    ghost predicate Valid()
      reads this
    {
      (forall k :: k in zsets ==> zsets[k] != map[]) && expiry.Keys <= zsets.Keys
    }

    /** A key's sorted set and expiry deadline as stored; the deadline is
        reported, not enforced. */
    function View(key: string): (s: KeyState)
      reads this
      ensures key in zsets ==> s.zset == zsets[key]
      ensures key !in zsets ==> s.zset == map[]
      ensures s.expiry.Some? <==> key in expiry
      ensures Valid() && s.zset == map[] ==> s == Absent
    {
      KeyState(if key in zsets then zsets[key] else map[],
               if key in expiry then Some(expiry[key]) else None)
    }

    constructor (prng: int -> int)
      ensures Valid() && zsets == map[] && expiry == map[] && this.prng == prng
    {
      zsets := map[];
      expiry := map[];
      this.prng := prng;
    }

    /** The member a script run at `nowMs` and server time `microTotal` adds. */
    function MemberFor(nowMs: int, microTotal: int): Member
    {
      Member(nowMs, microTotal, prng(microTotal))
    }

    /** Stores `s` as the new state of `key`; an empty set means the key is gone. */
    method Put(key: string, s: KeyState)
      requires Valid()
      requires s.zset == map[] ==> s.expiry.None?
      modifies this
      ensures Valid()
      ensures View(key) == s
      ensures forall k :: k != key ==> View(k) == old(View(k))
    {
      if s.zset == map[] {
        zsets := zsets - {key};
      } else {
        zsets := zsets[key := s.zset];
      }
      if s.expiry.Some? {
        expiry := expiry[key := s.expiry.value];
      } else {
        expiry := expiry - {key};
      }
    }

    /** One atomic execution of the sliding-window script for `key`. */
    method RunScript(key: string, windowMs: int, limit: int, nowMs: int, microTotal: int) returns (result: int)
      requires Valid()
      modifies this
      ensures Valid()
      ensures var r := Script(old(View(key)), windowMs, limit, nowMs, MemberFor(nowMs, microTotal));
        result == r.result && View(key) == r.after
      ensures forall k :: k != key ==> View(k) == old(View(k))
    {
      // ZREMRANGEBYSCORE key -inf (now - window)
      var current := View(key);
      var trimmed := Normalize(RemoveUpTo(current.zset, nowMs - windowMs), current.expiry);
      Put(key, trimmed);
      // ZCARD key
      var count := |trimmed.zset|;
      if count < limit {
        // ZADD key now member; PEXPIRE key window
        var added := KeyState(trimmed.zset[MemberFor(nowMs, microTotal) := nowMs], trimmed.expiry);
        Put(key, PExpire(added, nowMs, windowMs));
        result := 1;
      } else {
        result := 0;
      }
    }
  }

  /** How the script invocation went on the wire. */
  datatype Transport =
    | Delivered  // the script ran and its reply arrived
    | NotSent    // the connection failed before the script reached Redis
    | ReplyLost  // the script ran, but its reply never arrived

  /** `RedisLimiter`: submits the script and maps its reply to a verdict. */
  class RedisLimiter {
    const store: SortedSetStore

    constructor (store: SortedSetStore)
      ensures this.store == store
    {
      this.store := store;
    }

    /** `Allow(key, limit, window)`: true exactly when the script returned 1;
        any script error is reported as (false, error), never as an allow. */
    method Allow(key: string, limit: int, window: int, nowMs: int, microTotal: int, transport: Transport)
      returns (allowed: bool, err: Option<string>)
      requires store.Valid()
      modifies store
      ensures store.Valid()
      ensures transport == NotSent ==> store.zsets == old(store.zsets) && store.expiry == old(store.expiry)
      ensures transport != NotSent ==>
        var r := Script(old(store.View(key)), Milliseconds(window), limit, nowMs, store.MemberFor(nowMs, microTotal));
        store.View(key) == r.after && (transport == Delivered ==> allowed == (r.result == 1))
      ensures forall k :: k != key ==> store.View(k) == old(store.View(k))
      ensures err.None? <==> transport == Delivered
      ensures err.Some? ==> !allowed
    {
      var windowMs := Milliseconds(window);
      if transport == NotSent {
        return false, Some("rate limiter script: connection failed");
      }
      var result := store.RunScript(key, windowMs, limit, nowMs, microTotal);
      if transport == ReplyLost {
        return false, Some("rate limiter script: reply lost");
      }
      allowed, err := result == 1, None;
    }
  }
}
