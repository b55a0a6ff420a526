/**
 The sliding-window rate limiter. Each admission check runs under the lock, so any number of
 concurrent callers amounts to an arbitrary sequence of checks with a non-decreasing clock.
 */
module RateLimiter {
  import opened Common

  // ---- The reference: count over the full history ----

  predicate Live(grant: real, now: real, period: real) { now - grant < period }

  function CountLive(grants: seq<real>, now: real, period: real): nat {
    if grants == [] then 0
    else CountLive(grants[..|grants| - 1], now, period) + (if Live(grants[|grants| - 1], now, period) then 1 else 0)
  }

  /** The grants made by checks at the given times, when each looks at the whole history. */
  function Grants(times: seq<real>, maxCalls: nat, period: real): seq<real> {
    if times == [] then []
    else
      var earlier, now := Grants(times[..|times| - 1], maxCalls, period), times[|times| - 1];
      if CountLive(earlier, now, period) < maxCalls then earlier + [now] else earlier
  }

  ghost predicate Nondecreasing(s: seq<real>) {
    forall i, j :: 0 <= i < j < |s| ==> s[i] <= s[j]
  }

  /** What is left after popping expired entries off the front. */
  function Unexpired(s: seq<real>, now: real, period: real): seq<real> {
    if s == [] then [] else if Live(s[0], now, period) then s else Unexpired(s[1..], now, period)
  }

  ghost predicate AtMost(s: seq<real>, bound: real) {
    forall i :: 0 <= i < |s| ==> s[i] <= bound
  }

  lemma {:induction false} GrantsWithinTimes(times: seq<real>, maxCalls: nat, period: real, bound: real)
    requires Nondecreasing(times) && AtMost(times, bound)
    ensures Nondecreasing(Grants(times, maxCalls, period)) && AtMost(Grants(times, maxCalls, period), bound)
  {
    if times != [] {
      var init, now := times[..|times| - 1], times[|times| - 1];
      GrantsWithinTimes(init, maxCalls, period, now);
      var g := Grants(init, maxCalls, period);
      assert Grants(times, maxCalls, period) == g || Grants(times, maxCalls, period) == g + [now];
    }
  }

  /** In a sorted history at least `n` of the last `n` entries are live when the first of them is. */
  lemma {:induction false} LiveTail(grants: seq<real>, now: real, period: real, n: nat)
    requires Nondecreasing(grants) && 1 <= n <= |grants| && Live(grants[|grants| - n], now, period)
    ensures CountLive(grants, now, period) >= n
  {
    if n > 1 {
      LiveTail(grants[..|grants| - 1], now, period, n - 1);
    }
  }

  ghost predicate Spaced(grants: seq<real>, maxCalls: nat, period: real) {
    forall i, j :: 0 <= i && i + maxCalls <= j < |grants| ==> grants[j] - grants[i] >= period
  }

  /** Any `maxCalls + 1` consecutive grants span at least one period, so no window is ever overfull. */
  lemma {:induction false} GrantsAreSpaced(times: seq<real>, maxCalls: nat, period: real)
    requires Nondecreasing(times) && maxCalls >= 1
    ensures Spaced(Grants(times, maxCalls, period), maxCalls, period)
  {
    if times != [] {
      var init, now := times[..|times| - 1], times[|times| - 1];
      var g := Grants(init, maxCalls, period);
      GrantsAreSpaced(init, maxCalls, period);
      GrantsWithinTimes(init, maxCalls, period, now);
      if CountLive(g, now, period) < maxCalls {
        forall i | 0 <= i && i + maxCalls <= |g| ensures now - g[i] >= period {
          if Live(g[i], now, period) { LiveTail(g, now, period, |g| - i); }
        }
        SpacedMore(g, maxCalls, period, now);
      }
    }
  }

  lemma {:induction false} SpacedMore(g: seq<real>, maxCalls: nat, period: real, now: real)
    requires maxCalls >= 1 && Spaced(g, maxCalls, period)
    requires forall i :: 0 <= i && i + maxCalls <= |g| ==> now - g[i] >= period
    ensures Spaced(g + [now], maxCalls, period)
  {
    var h := g + [now];
    forall i, j | 0 <= i && i + maxCalls <= j < |h| ensures h[j] - h[i] >= period {
      assert h[i] == g[i];
      if j < |g| { assert h[j] == g[j]; }
    }
  }

  lemma {:induction false} CountSuffix(dropped: seq<real>, kept: seq<real>, now: real, period: real)
    requires forall i :: 0 <= i < |dropped| ==> !Live(dropped[i], now, period)
    requires forall i :: 0 <= i < |kept| ==> Live(kept[i], now, period)
    ensures CountLive(dropped + kept, now, period) == |kept|
  {
    var all := dropped + kept;
    if kept != [] {
      assert all[..|all| - 1] == dropped + kept[..|kept| - 1];
      CountSuffix(dropped, kept[..|kept| - 1], now, period);
    } else if dropped != [] {
      assert all == dropped && dropped[..|dropped| - 1] + [] == dropped[..|dropped| - 1];
      CountSuffix(dropped[..|dropped| - 1], [], now, period);
    }
  }

  lemma {:induction false} UnexpiredSplits(s: seq<real>, now: real, period: real)
    requires Nondecreasing(s)
    ensures var kept := Unexpired(s, now, period);
            && |kept| <= |s| && s[|s| - |kept|..] == kept
            && (forall i :: 0 <= i < |s| - |kept| ==> !Live(s[i], now, period))
            && (forall i :: 0 <= i < |kept| ==> Live(kept[i], now, period))
  {
    if s != [] && !Live(s[0], now, period) {
      UnexpiredSplits(s[1..], now, period);
    }
  }

  lemma {:induction false} UnexpiredSkips(dropped: seq<real>, s: seq<real>, now: real, period: real)
    requires forall i :: 0 <= i < |dropped| ==> !Live(dropped[i], now, period)
    ensures Unexpired(dropped + s, now, period) == Unexpired(s, now, period)
  {
    if dropped == [] {
      assert dropped + s == s;
    } else {
      assert (dropped + s)[1..] == dropped[1..] + s;
      UnexpiredSkips(dropped[1..], s, now, period);
    }
  }

  /** On a sorted history the naive count is the length of what popping leaves. */
  lemma {:induction false} CountIsUnexpired(s: seq<real>, now: real, period: real)
    requires Nondecreasing(s)
    ensures CountLive(s, now, period) == |Unexpired(s, now, period)|
  {
    UnexpiredSplits(s, now, period);
    var kept := Unexpired(s, now, period);
    CountSuffix(s[..|s| - |kept|], kept, now, period);
    assert s == s[..|s| - |kept|] + kept;
  }

  lemma {:induction false} LiveIsRecent(g: seq<real>, maxCalls: nat, period: real, now: real, at: nat)
    requires Spaced(g, maxCalls, period) && AtMost(g, now) && at < |g| && Live(g[at], now, period)
    ensures |g| <= at + maxCalls
  {
    assert g[|g| - 1] <= now;
  }

  lemma {:induction false} LiveAtMostMax(times: seq<real>, maxCalls: nat, period: real, now: real)
    requires Nondecreasing(times) && maxCalls >= 1 && AtMost(times, now)
    ensures CountLive(Grants(times, maxCalls, period), now, period) <= maxCalls
  {
    var g := Grants(times, maxCalls, period);
    GrantsWithinTimes(times, maxCalls, period, now);
    GrantsAreSpaced(times, maxCalls, period);
    CountIsUnexpired(g, now, period);
    UnexpiredSplits(g, now, period);
    var kept := Unexpired(g, now, period);
    if kept != [] {
      assert kept[0] == g[|g| - |kept|];
      LiveIsRecent(g, maxCalls, period, now, |g| - |kept|);
    }
  }

  /** The next slot frees up exactly when the oldest live grant expires. */
  lemma {:induction false} SlotFrees(g: seq<real>, maxCalls: nat, period: real, now: real, later: real)
    requires Nondecreasing(g) && CountLive(g, now, period) == maxCalls >= 1
    requires |Unexpired(g, now, period)| == maxCalls
    ensures CountLive(g, later, period) < maxCalls <==> later - Unexpired(g, now, period)[0] >= period
  {
    UnexpiredSplits(g, now, period);
    var oldest := Unexpired(g, now, period)[0];
    assert g[|g| - maxCalls] == oldest;
    if Live(oldest, later, period) {
      LiveTail(g, later, period, maxCalls);
    } else {
      CountIsUnexpired(g, later, period);
      UnexpiredSplits(g, later, period);
      var left := Unexpired(g, later, period);
      assert forall i :: 0 <= i < |left| ==> left[i] == g[|g| - |left| + i];
    }
  }

  /** A refused caller that waits as told is granted, unless somebody else was granted meanwhile. */
  lemma {:induction false} WaitingSuffices(
    times: seq<real>, maxCalls: nat, period: real, now: real, refused: seq<real>, later: real)
    requires Nondecreasing(times) && maxCalls >= 1 && AtMost(times, now)
    requires CountLive(Grants(times, maxCalls, period), now, period) >= maxCalls
    requires Unexpired(Grants(times, maxCalls, period), now, period) != []
    requires Grants(times + [now] + refused, maxCalls, period) == Grants(times, maxCalls, period)
    requires later - now >= period - (now - Unexpired(Grants(times, maxCalls, period), now, period)[0])
    ensures Grants(times + [now] + refused + [later], maxCalls, period) == Grants(times, maxCalls, period) + [later]
  {
    var g, before := Grants(times, maxCalls, period), times + [now] + refused;
    assert (before + [later])[..|before|] == before;
    LiveAtMostMax(times, maxCalls, period, now);
    GrantsWithinTimes(times, maxCalls, period, now);
    CountIsUnexpired(g, now, period);
    SlotFrees(g, maxCalls, period, now, later);
  }

  // ---- The limiter ----

  class AsyncRequestRateLimiter {
    const maxCalls: nat
    const period: real
    var timestamps: seq<real>
    ghost var checks: seq<real>  // the clock readings of all admission checks so far

    constructor (maxCalls: nat, period: real)
      requires maxCalls >= 1 && period > 0.0
      ensures Valid() && checks == [] && this.maxCalls == maxCalls && this.period == period
    {
      this.maxCalls, this.period := maxCalls, period;
      timestamps, checks := [], [];
    }

    ghost function History(): seq<real>
      reads this
    {
      Grants(checks, maxCalls, period)
    }

    /** The deque is what the full history leaves unexpired at the latest check. */
    ghost predicate Valid()
      reads this
    {
      && maxCalls >= 1 && period > 0.0 && Nondecreasing(checks)
      && Keeps(timestamps, checks, maxCalls, period)
    }

    /** One pass under the lock: grant, or tell the caller how long to sleep. */
    method Check(now: real) returns (granted: bool, wait: real)
      requires Valid() && (checks != [] ==> checks[|checks| - 1] <= now)
      modifies this
      ensures Valid() && checks == old(checks) + [now]
      ensures granted <==> CountLive(old(History()), now, period) < maxCalls
      ensures History() == old(History()) + if granted then [now] else []
      ensures !granted ==> 0.0 < wait <= period && timestamps != [] && wait == period - (now - timestamps[0])
    {
      ghost var before, next := checks, checks + [now];
      Admission(before, maxCalls, period, now, timestamps);
      DiscardExpired(now);
      granted := |timestamps| < maxCalls;
      wait := 0.0;
      if granted {
        timestamps := timestamps + [now];
      } else {
        wait := period - (now - timestamps[0]);
      }
      assert Keeps(timestamps, next, maxCalls, period);
      checks := next;
    }

    method DiscardExpired(now: real)
      modifies this`timestamps
      ensures timestamps == Unexpired(old(timestamps), now, period)
    {
      while timestamps != [] && now - timestamps[0] >= period
        invariant Unexpired(timestamps, now, period) == Unexpired(old(timestamps), now, period)
        decreases |timestamps|
      {
        timestamps := timestamps[1..];
      }
    }
  }

  /** Construction with arguments out of range is an error. */
  method MakeLimiter(maxCalls: int, period: real) returns (r: Result<AsyncRequestRateLimiter, string>)
    ensures r.Ok? <==> maxCalls >= 1 && period > 0.0
    ensures r.Ok? ==> fresh(r.value) && r.value.Valid() && r.value.checks == []
                      && r.value.maxCalls == maxCalls && r.value.period == period
  {
    if maxCalls < 1 {
      return Err("max_calls must be >= 1");
    }
    if period <= 0.0 {
      return Err("period_s must be > 0");
    }
    var limiter := new AsyncRequestRateLimiter(maxCalls, period);
    return Ok(limiter);
  }

  /** Entries popped at an earlier check are expired now, so popping the rest agrees with popping the history. */
  lemma {:induction false} PopsAgree(g: seq<real>, last: real, now: real, period: real)
    requires Nondecreasing(g) && last <= now
    ensures Unexpired(Unexpired(g, last, period), now, period) == Unexpired(g, now, period)
  {
    UnexpiredSplits(g, last, period);
    var kept := Unexpired(g, last, period);
    var dropped := g[..|g| - |kept|];
    assert g == dropped + kept;
    UnexpiredSkips(dropped, kept, now, period);
  }

  lemma {:induction false} OldestIsLive(g: seq<real>, now: real, period: real)
    requires Nondecreasing(g) && AtMost(g, now) && Unexpired(g, now, period) != []
    ensures 0.0 < period - (now - Unexpired(g, now, period)[0]) <= period
  {
    UnexpiredSplits(g, now, period);
  }

  lemma {:induction false} ChecksGrow(checks: seq<real>, now: real)
    requires Nondecreasing(checks) && (checks != [] ==> checks[|checks| - 1] <= now)
    ensures AtMost(checks, now) && Nondecreasing(checks + [now])
  {
  }

  lemma {:induction false} AppendKeepsSuffix(g: seq<real>, now: real, period: real)
    requires period > 0.0
    ensures Unexpired(g + [now], now, period) == Unexpired(g, now, period) + [now]
  {
    if g == [] {
      assert g + [now] == [now];
    } else if Live(g[0], now, period) {
    } else {
      assert (g + [now])[1..] == g[1..] + [now];
      AppendKeepsSuffix(g[1..], now, period);
    }
  }

  /** The deque kept by a limiter whose last check was the last of `checks`. */
  ghost predicate Keeps(stamps: seq<real>, checks: seq<real>, maxCalls: nat, period: real) {
    stamps == if checks == [] then [] else Unexpired(Grants(checks, maxCalls, period), checks[|checks| - 1], period)
  }

  /** What the next check finds in the deque, and what it leaves there. */
  lemma {:induction false} Admission(checks: seq<real>, maxCalls: nat, period: real, now: real, stamps: seq<real>)
    requires maxCalls >= 1 && period > 0.0 && Nondecreasing(checks) && Keeps(stamps, checks, maxCalls, period)
    requires checks != [] ==> checks[|checks| - 1] <= now
    ensures var history, next := Grants(checks, maxCalls, period), Grants(checks + [now], maxCalls, period);
            var kept := Unexpired(stamps, now, period);
            var granted := |kept| < maxCalls;
            && Nondecreasing(checks + [now]) && |kept| == CountLive(history, now, period)
            && next == history + (if granted then [now] else [])
            && Unexpired(next, now, period) == kept + (if granted then [now] else [])
            && (!granted ==> 0.0 < period - (now - kept[0]) <= period)
  {
    var history := Grants(checks, maxCalls, period);
    ChecksGrow(checks, now);
    GrantsWithinTimes(checks, maxCalls, period, now);
    Popped(checks, maxCalls, period, now, stamps);
    CountIsUnexpired(history, now, period);
    assert (checks + [now])[..|checks|] == checks;
    AppendKeepsSuffix(history, now, period);
    if |Unexpired(stamps, now, period)| >= maxCalls { OldestIsLive(history, now, period); }
  }

  lemma {:induction false} Popped(checks: seq<real>, maxCalls: nat, period: real, now: real, stamps: seq<real>)
    requires Nondecreasing(checks) && Keeps(stamps, checks, maxCalls, period)
    requires checks != [] ==> checks[|checks| - 1] <= now
    ensures Unexpired(stamps, now, period) == Unexpired(Grants(checks, maxCalls, period), now, period)
  {
    if checks != [] {
      GrantsWithinTimes(checks, maxCalls, period, checks[|checks| - 1]);
      PopsAgree(Grants(checks, maxCalls, period), checks[|checks| - 1], now, period);
    }
  }
}
