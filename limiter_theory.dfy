/**
 * What the sliding-window script guarantees over a whole sequence of calls
 * against one key with a fixed limit and window, starting from an absent key.
 */
module LimiterTheory {
  import opened Limiter

  /** One call: the client's `now` (ms) and the member the script adds. */
  datatype Call = Call(nowMs: int, member: Member)

  datatype Trace = Trace(state: KeyState, allowed: seq<bool>)

  /** Replays `calls` one script execution at a time. */
  function Replay(calls: seq<Call>, windowMs: int, limit: int): (r: Trace)
    ensures |r.allowed| == |calls|
  {
    if calls == [] then Trace(Absent, [])
    else
      var prev := Replay(calls[..|calls| - 1], windowMs, limit);
      var c := calls[|calls| - 1];
      var run := Script(prev.state, windowMs, limit, c.nowMs, c.member);
      Trace(run.after, prev.allowed + [run.result == 1])
  }

  /** The i-th call's `now`; the predicates below quantify over it. */
  function NowAt(calls: seq<Call>, i: int): int
    requires 0 <= i < |calls|
  {
    calls[i].nowMs
  }

  /** The i-th call's member. */
  function MemberAt(calls: seq<Call>, i: int): Member
    requires 0 <= i < |calls|
  {
    calls[i].member
  }

  /** Clients pass a `now` that never goes backwards. */
  ghost predicate NonDecreasing(calls: seq<Call>)
  {
    forall i, j :: 0 <= i < j < |calls| ==> NowAt(calls, i) <= NowAt(calls, j)
  }

  /** No two calls add the same member. */
  ghost predicate DistinctMembers(calls: seq<Call>)
  {
    forall i, j :: 0 <= i < j < |calls| ==> MemberAt(calls, i) != MemberAt(calls, j)
  }

  /** Both properties carry over to every prefix. */
  lemma PrefixKeepsOrder(calls: seq<Call>, n: int)
    requires 0 <= n <= |calls|
    ensures NonDecreasing(calls) ==> NonDecreasing(calls[..n])
    ensures DistinctMembers(calls) ==> DistinctMembers(calls[..n])
  {
    if NonDecreasing(calls) {
      forall i, j | 0 <= i < j < n ensures NowAt(calls[..n], i) <= NowAt(calls[..n], j) {
        assert NowAt(calls[..n], i) == NowAt(calls, i) && NowAt(calls[..n], j) == NowAt(calls, j);
      }
    }
    if DistinctMembers(calls) {
      forall i, j | 0 <= i < j < n ensures MemberAt(calls[..n], i) != MemberAt(calls[..n], j) {
        assert MemberAt(calls[..n], i) == MemberAt(calls, i) && MemberAt(calls[..n], j) == MemberAt(calls, j);
      }
    }
  }

  function Members(calls: seq<Call>): set<Member>
  {
    set i | 0 <= i < |calls| :: calls[i].member
  }

  /** The members of allowed calls whose `now` is above `bound`, each scored by its `now`. */
  function Live(calls: seq<Call>, allowed: seq<bool>, bound: int): ZSet
    requires |allowed| == |calls|
  {
    if calls == [] then map[]
    else
      var n := |calls| - 1;
      var rest := Live(calls[..n], allowed[..n], bound);
      if allowed[n] && calls[n].nowMs > bound then rest[calls[n].member := calls[n].nowMs] else rest
  }

  /** Number of allowed calls whose `now` is above `bound`. */
  function CountAbove(calls: seq<Call>, allowed: seq<bool>, bound: int): nat
    requires |allowed| == |calls|
  {
    if calls == [] then 0
    else
      var n := |calls| - 1;
      CountAbove(calls[..n], allowed[..n], bound) + if allowed[n] && calls[n].nowMs > bound then 1 else 0
  }

  /** Number of allowed calls whose `now` lies in the interval (lo, hi]. */
  function CountIn(calls: seq<Call>, allowed: seq<bool>, lo: int, hi: int): nat
    requires |allowed| == |calls|
  {
    if calls == [] then 0
    else
      var n := |calls| - 1;
      CountIn(calls[..n], allowed[..n], lo, hi) + if allowed[n] && lo < calls[n].nowMs <= hi then 1 else 0
  }

  lemma {:induction false} ReplayPrefix(calls: seq<Call>, windowMs: int, limit: int)
    requires calls != []
    ensures Replay(calls[..|calls| - 1], windowMs, limit).allowed == Replay(calls, windowMs, limit).allowed[..|calls| - 1]
  {
    var prev := Replay(calls[..|calls| - 1], windowMs, limit);
    assert (prev.allowed + [Replay(calls, windowMs, limit).allowed[|calls| - 1]])[..|calls| - 1] == prev.allowed;
  }

  lemma {:induction false} LiveKeys(calls: seq<Call>, allowed: seq<bool>, bound: int)
    requires |allowed| == |calls|
    ensures Live(calls, allowed, bound).Keys <= Members(calls)
  {
    if calls != [] {
      var n := |calls| - 1;
      LiveKeys(calls[..n], allowed[..n], bound);
      assert Members(calls[..n]) <= Members(calls) by {
        forall m | m in Members(calls[..n]) ensures m in Members(calls) {
          var i :| 0 <= i < n && calls[..n][i].member == m;
          assert calls[i].member == m;
        }
      }
      assert calls[n].member in Members(calls);
    }
  }

  lemma MembersPrefixFresh(calls: seq<Call>)
    requires calls != [] && DistinctMembers(calls)
    ensures calls[|calls| - 1].member !in Members(calls[..|calls| - 1])
  {
    var n := |calls| - 1;
    forall i | 0 <= i < n ensures calls[..n][i].member != calls[n].member {
      assert MemberAt(calls, i) != MemberAt(calls, n);
    }
  }

  /** With pairwise-distinct members, the live set has one member per counted call. */
  lemma {:induction false} LiveSize(calls: seq<Call>, allowed: seq<bool>, bound: int)
    requires |allowed| == |calls| && DistinctMembers(calls)
    ensures |Live(calls, allowed, bound)| == CountAbove(calls, allowed, bound)
  {
    if calls != [] {
      var n := |calls| - 1;
      var rest := Live(calls[..n], allowed[..n], bound);
      PrefixKeepsOrder(calls, n);
      LiveSize(calls[..n], allowed[..n], bound);
      if allowed[n] && calls[n].nowMs > bound {
        LiveKeys(calls[..n], allowed[..n], bound);
        MembersPrefixFresh(calls);
        assert calls[n].member !in rest;
        assert rest[calls[n].member := calls[n].nowMs].Keys == rest.Keys + {calls[n].member};
      }
    }
  }

  /** Trimming the live set at a later bound gives the live set at that bound. */
  lemma {:induction false} LiveTrim(calls: seq<Call>, allowed: seq<bool>, early: int, late: int)
    requires |allowed| == |calls| && DistinctMembers(calls) && early <= late
    ensures RemoveUpTo(Live(calls, allowed, early), late) == Live(calls, allowed, late)
  {
    if calls != [] {
      var n := |calls| - 1;
      PrefixKeepsOrder(calls, n);
      LiveTrim(calls[..n], allowed[..n], early, late);
      LiveKeys(calls[..n], allowed[..n], late);
      MembersPrefixFresh(calls);
    }
  }

  lemma ScriptSetWithPositiveWindow(s: KeyState, windowMs: int, limit: int, nowMs: int, member: Member)
    requires windowMs > 0
    ensures var r := Script(s, windowMs, limit, nowMs, member);
      var trimmed := RemoveUpTo(s.zset, nowMs - windowMs);
      r.after.zset == if r.result == 1 then trimmed[member := nowMs] else trimmed
  {
  }

  /** The state before a call, trimmed at that call's bound, is the live set at that bound. */
  lemma {:induction false} TrimmedIsLive(prefix: seq<Call>, c: Call, windowMs: int, limit: int)
    requires windowMs > 0 && NonDecreasing(prefix) && DistinctMembers(prefix)
    requires prefix == [] || NowAt(prefix, |prefix| - 1) <= c.nowMs
    decreases |prefix| + 1, 0
    ensures RemoveUpTo(Replay(prefix, windowMs, limit).state.zset, c.nowMs - windowMs) ==
      Live(prefix, Replay(prefix, windowMs, limit).allowed, c.nowMs - windowMs)
  {
    var prev := Replay(prefix, windowMs, limit);
    if prefix == [] {
      assert prev.state.zset == map[];
      assert RemoveUpTo(prev.state.zset, c.nowMs - windowMs) == map[];
    } else {
      var early := NowAt(prefix, |prefix| - 1) - windowMs;
      ReplayInvariant(prefix, windowMs, limit);
      assert prev.state.zset == Live(prefix, prev.allowed, early);
      LiveTrim(prefix, prev.allowed, early, c.nowMs - windowMs);
    }
  }

  /** One script execution in terms of the live set of the calls before it. */
  lemma StepOnLive(prev: KeyState, prefix: seq<Call>, allowed: seq<bool>, c: Call, windowMs: int, limit: int)
    requires |allowed| == |prefix| && windowMs > 0
    requires RemoveUpTo(prev.zset, c.nowMs - windowMs) == Live(prefix, allowed, c.nowMs - windowMs)
    requires |Live(prefix, allowed, c.nowMs - windowMs)| == CountAbove(prefix, allowed, c.nowMs - windowMs)
    ensures var run := Script(prev, windowMs, limit, c.nowMs, c.member);
      (run.result == 1) == (CountAbove(prefix, allowed, c.nowMs - windowMs) < limit) &&
      run.after.zset == Live(prefix + [c], allowed + [run.result == 1], c.nowMs - windowMs)
  {
    var run := Script(prev, windowMs, limit, c.nowMs, c.member);
    var calls, all := prefix + [c], allowed + [run.result == 1];
    assert calls[..|prefix|] == prefix && all[..|prefix|] == allowed;
    ScriptSetWithPositiveWindow(prev, windowMs, limit, c.nowMs, c.member);
  }

  /** The last step of a replay, given that the previous state trimmed at the
      last call's bound is the live set there and has one member per call. */
  lemma LastStep(calls: seq<Call>, prefix: seq<Call>, c: Call, prev: Trace, windowMs: int, limit: int)
    requires windowMs > 0 && calls == prefix + [c] && prev == Replay(prefix, windowMs, limit)
    requires RemoveUpTo(prev.state.zset, c.nowMs - windowMs) == Live(prefix, prev.allowed, c.nowMs - windowMs)
    requires |Live(prefix, prev.allowed, c.nowMs - windowMs)| == CountAbove(prefix, prev.allowed, c.nowMs - windowMs)
    ensures Replay(calls, windowMs, limit).state.zset == Live(calls, Replay(calls, windowMs, limit).allowed, c.nowMs - windowMs)
    ensures Replay(calls, windowMs, limit).allowed[|prefix|] ==
      (CountAbove(prefix, Replay(calls, windowMs, limit).allowed[..|prefix|], c.nowMs - windowMs) < limit)
  {
    var run := Script(prev.state, windowMs, limit, c.nowMs, c.member);
    assert calls[..|prefix|] == prefix && calls[|prefix|] == c;
    assert Replay(calls, windowMs, limit) == Trace(run.after, prev.allowed + [run.result == 1]);
    assert (prev.allowed + [run.result == 1])[..|prefix|] == prev.allowed;
    StepOnLive(prev.state, prefix, prev.allowed, c, windowMs, limit);
  }

  /** After every prefix, the key holds exactly the allowed calls of the
      trailing window, and a call is allowed exactly when fewer than `limit`
      earlier allowed calls lie in its window. */
  lemma {:induction false} ReplayInvariant(calls: seq<Call>, windowMs: int, limit: int)
    requires windowMs > 0 && NonDecreasing(calls) && DistinctMembers(calls) && calls != []
    ensures Replay(calls, windowMs, limit).state.zset ==
      Live(calls, Replay(calls, windowMs, limit).allowed, NowAt(calls, |calls| - 1) - windowMs)
    ensures Replay(calls, windowMs, limit).allowed[|calls| - 1] ==
      (CountAbove(calls[..|calls| - 1], Replay(calls, windowMs, limit).allowed[..|calls| - 1], NowAt(calls, |calls| - 1) - windowMs) < limit)
    decreases |calls|, 1
  {
    var n := |calls| - 1;
    var prefix, c := calls[..n], calls[n];
    assert calls == prefix + [c];
    PrefixKeepsOrder(calls, n);
    if n > 0 {
      assert NowAt(prefix, n - 1) == NowAt(calls, n - 1) <= NowAt(calls, n);
    }
    assert NowAt(calls, n) == c.nowMs;
    var prev := Replay(prefix, windowMs, limit);
    TrimmedIsLive(prefix, c, windowMs, limit);
    LiveSize(prefix, prev.allowed, c.nowMs - windowMs);
    LastStep(calls, prefix, c, prev, windowMs, limit);
  }

  lemma {:induction false} CountAboveAntitone(calls: seq<Call>, allowed: seq<bool>, low: int, high: int)
    requires |allowed| == |calls| && low <= high
    ensures CountAbove(calls, allowed, high) <= CountAbove(calls, allowed, low)
  {
    if calls != [] {
      CountAboveAntitone(calls[..|calls| - 1], allowed[..|calls| - 1], low, high);
    }
  }

  lemma {:induction false} CountInAtMostAbove(calls: seq<Call>, allowed: seq<bool>, lo: int, hi: int)
    requires |allowed| == |calls|
    ensures CountIn(calls, allowed, lo, hi) <= CountAbove(calls, allowed, lo)
  {
    if calls != [] {
      CountInAtMostAbove(calls[..|calls| - 1], allowed[..|calls| - 1], lo, hi);
    }
  }

  /** The sliding-window guarantee: with non-decreasing `now` and distinct
      members, no interval (t - window, t] contains more than `limit` allowed calls. */
  lemma {:induction false} AtMostLimitPerWindow(calls: seq<Call>, windowMs: int, limit: int, t: int)
    requires windowMs > 0 && NonDecreasing(calls) && DistinctMembers(calls)
    ensures var tr := Replay(calls, windowMs, limit);
      CountIn(calls, tr.allowed, t - windowMs, t) <= if limit < 0 then 0 else limit
  {
    if calls != [] {
      var n := |calls| - 1;
      var tr := Replay(calls, windowMs, limit);
      var prev := Replay(calls[..n], windowMs, limit);
      ReplayPrefix(calls, windowMs, limit);
      PrefixKeepsOrder(calls, n);
      AtMostLimitPerWindow(calls[..n], windowMs, limit, t);
      if tr.allowed[n] && t - windowMs < calls[n].nowMs <= t {
        ReplayInvariant(calls, windowMs, limit);
        CountInAtMostAbove(calls[..n], prev.allowed, t - windowMs, t);
        CountAboveAntitone(calls[..n], prev.allowed, calls[n].nowMs - windowMs, t - windowMs);
      }
    }
  }

  /** Whatever the members, a key replayed from absent never holds more than `limit` members. */
  lemma {:induction false} ReplayBounded(calls: seq<Call>, windowMs: int, limit: int)
    ensures |Replay(calls, windowMs, limit).state.zset| <= if limit < 0 then 0 else limit
  {
    if calls != [] {
      var n := |calls| - 1;
      ReplayBounded(calls[..n], windowMs, limit);
      var prev := Replay(calls[..n], windowMs, limit);
      if limit >= 0 {
        ScriptKeepsBound(prev.state, windowMs, limit, calls[n].nowMs, calls[n].member);
      } else {
        assert prev.state.zset == map[];
        assert RemoveUpTo(prev.state.zset, calls[n].nowMs - windowMs) == map[];
      }
    }
  }

  /** Without distinct members the guarantee fails: three calls in the same
      millisecond with the same member are all allowed under a limit of 2. */
  lemma SameMemberOvershoots(m: Member)
    ensures var s1 := Script(Absent, 1000, 2, 5, m);
      var s2 := Script(s1.after, 1000, 2, 5, m);
      var s3 := Script(s2.after, 1000, 2, 5, m);
      s1.result == 1 && s2.result == 1 && s3.result == 1
  {
    var s1 := Script(Absent, 1000, 2, 5, m);
    assert s1.after.zset == map[m := 5];
    assert RemoveUpTo(map[m := 5], 5 - 1000) == map[m := 5];
    var s2 := Script(s1.after, 1000, 2, 5, m);
    assert s2.after.zset == map[m := 5];
  }

  /** A window under one millisecond truncates to 0 ms, and `PEXPIRE key 0`
      deletes the key the script has just written: the key never survives a
      call, so for any positive limit (which `NewConfig` and `SetMethod`
      guarantee) every call is admitted. */
  lemma {:induction false} SubMillisecondWindowAdmitsAll(calls: seq<Call>, window: int, limit: int)
    requires 0 <= window < 1_000_000 && limit >= 1
    ensures Milliseconds(window) == 0
    ensures Replay(calls, Milliseconds(window), limit).state == Absent
    ensures forall i :: 0 <= i < |calls| ==> Replay(calls, Milliseconds(window), limit).allowed[i]
  {
    if calls != [] {
      SubMillisecondWindowAdmitsAll(calls[..|calls| - 1], window, limit);
    }
  }
}
