/**
 * The sliding-window limiter in front of every forum request
 * (src/kyf/utils/rate_limiter.py). Timestamps are clock ticks.
 */
module RateLimiting {
  import opened Clocks

  /** Each entry is no earlier than the one before it. */
  predicate Sorted(ts: seq<int>)
    decreases |ts|
  {
    |ts| <= 1 || (ts[0] <= ts[1] && Sorted(ts[1..]))
  }

  /** In a sorted list every entry is at least the first. */
  lemma {:induction false} SortedFromHead(ts: seq<int>, k: nat)
    requires Sorted(ts) && k < |ts|
    ensures ts[0] <= ts[k]
    decreases k
  {
    if k > 1 {
      SortedFromHead(ts[1..], k - 1);
    }
  }

  /** Every suffix of a sorted list is sorted. */
  lemma {:induction false} SortedSuffix(ts: seq<int>, n: nat)
    requires Sorted(ts) && n <= |ts|
    ensures Sorted(ts[n..])
    decreases n
  {
    if n > 0 {
      SortedSuffix(ts[1..], n - 1);
      assert ts[1..][n - 1..] == ts[n..];
    }
  }

  /** A stamp no earlier than the last entry keeps a sorted list sorted. */
  lemma {:induction false} SortedSnoc(xs: seq<int>, stamp: int)
    requires Sorted(xs) && (xs != [] ==> xs[|xs| - 1] <= stamp)
    ensures Sorted(xs + [stamp])
    decreases |xs|
  {
    if xs != [] {
      SortedSnoc(xs[1..], stamp);
      assert (xs + [stamp])[1..] == xs[1..] + [stamp];
    }
  }

  /** `[t for t in ts if t > cutoff]`: the entries later than the cutoff, in their order. */
  function Prune(ts: seq<int>, cutoff: int): (r: seq<int>)
    ensures |r| <= |ts|
    ensures forall k :: 0 <= k < |r| ==> r[k] > cutoff
  {
    if ts == [] then []
    else (if ts[0] > cutoff then [ts[0]] else []) + Prune(ts[1..], cutoff)
  }

  /** The survivors are exactly the entries later than the cutoff. */
  lemma {:induction false} PruneIsFilter(ts: seq<int>, cutoff: int, x: int)
    ensures x in Prune(ts, cutoff) <==> x in ts && x > cutoff
  {
    if ts != [] {
      PruneIsFilter(ts[1..], cutoff, x);
      assert ts == [ts[0]] + ts[1..];
    }
  }

  /** Pruning a list with one more entry at the end. */
  lemma {:induction false} PruneAppend(ts: seq<int>, x: int, cutoff: int)
    ensures Prune(ts + [x], cutoff) == Prune(ts, cutoff) + (if x > cutoff then [x] else [])
  {
    if ts == [] {
      assert [] + [x] == [x];
    } else {
      assert (ts + [x])[0] == ts[0];
      assert (ts + [x])[1..] == ts[1..] + [x];
      PruneAppend(ts[1..], x, cutoff);
    }
  }

  /** A later cutoff keeps no more entries. */
  lemma {:induction false} PruneMonotone(ts: seq<int>, c1: int, c2: int)
    requires c1 <= c2
    ensures |Prune(ts, c2)| <= |Prune(ts, c1)|
  {
    if ts != [] {
      PruneMonotone(ts[1..], c1, c2);
    }
  }

  /** On a sorted list the kept entries are a suffix: the oldest survivor is at index 0. */
  lemma {:induction false} PruneSortedIsSuffix(ts: seq<int>, cutoff: int)
    requires Sorted(ts)
    ensures Prune(ts, cutoff) == ts[|ts| - |Prune(ts, cutoff)|..]
  {
    if ts != [] {
      PruneSortedIsSuffix(ts[1..], cutoff);
      if ts[0] > cutoff {
        forall k | 0 <= k < |ts[1..]| ensures ts[1..][k] > cutoff {
          SortedFromHead(ts, k + 1);
        }
        PruneAll(ts[1..], cutoff);
      }
    }
  }

  /** When every entry is later than the cutoff, pruning keeps them all. */
  lemma {:induction false} PruneAll(ts: seq<int>, cutoff: int)
    requires forall k :: 0 <= k < |ts| ==> ts[k] > cutoff
    ensures Prune(ts, cutoff) == ts
  {
    if ts != [] {
      PruneAll(ts[1..], cutoff);
    }
  }

  /** The sleep `acquire` performs at time `now`: positive only when the window is full. */
  function WaitAt(ts: seq<int>, maxRequests: int, window: int, now: int): (d: int)
    ensures d >= 0
    ensures d > 0 ==> |Prune(ts, now - window)| >= maxRequests
  {
    var kept := Prune(ts, now - window);
    if |kept| >= maxRequests && kept != [] && kept[0] + window - now > 0 then kept[0] + window - now else 0
  }

  /** The `remaining` property at time `now`. */
  function RemainingAt(ts: seq<int>, maxRequests: int, window: int, now: int): (n: int)
    ensures n >= 0 && (maxRequests >= 0 ==> n <= maxRequests)
    ensures n > 0 <==> |Prune(ts, now - window)| < maxRequests
    ensures n > 0 ==> n + |Prune(ts, now - window)| == maxRequests
  {
    var active := Prune(ts, now - window);
    if maxRequests - |active| > 0 then maxRequests - |active| else 0
  }

  /** A free slot means `acquire` at the same instant does not wait. */
  lemma RemainingMeansNoWait(ts: seq<int>, maxRequests: int, window: int, now: int)
    requires RemainingAt(ts, maxRequests, window, now) > 0
    ensures WaitAt(ts, maxRequests, window, now) == 0
  {
  }

  /**
   * A full window makes `acquire` sleep until its oldest entry leaves it:
   * the wait is positive and, when no entry is in the future, at most one window.
   */
  lemma WaitWhenFull(ts: seq<int>, maxRequests: int, window: int, now: int)
    requires |Prune(ts, now - window)| >= maxRequests && Prune(ts, now - window) != []
    requires forall k :: 0 <= k < |ts| ==> ts[k] <= now
    ensures var kept := Prune(ts, now - window);
            WaitAt(ts, maxRequests, window, now) == kept[0] + window - now
            && 0 < WaitAt(ts, maxRequests, window, now) <= window
  {
    PruneKeepsOnly(ts, now - window, now);
  }

  /** Pruning keeps only old entries: a bound on every entry bounds every survivor. */
  lemma {:induction false} PruneKeepsOnly(ts: seq<int>, cutoff: int, hi: int)
    requires forall k :: 0 <= k < |ts| ==> ts[k] <= hi
    ensures forall k :: 0 <= k < |Prune(ts, cutoff)| ==> Prune(ts, cutoff)[k] <= hi
  {
    if ts != [] {
      PruneKeepsOnly(ts[1..], cutoff, hi);
    }
  }

  /** At most `maxRequests` entries lie in the window that ends at the newest entry. */
  predicate WithinQuota(ts: seq<int>, maxRequests: int, window: int) {
    ts == [] || |Prune(ts, ts[|ts| - 1] - window)| <= maxRequests
  }

  /**
   * The quota is kept by one `acquire`: pruning at `now`, sleeping `WaitAt`
   * and appending a stamp taken no earlier than the end of the sleep.
   */
  lemma QuotaKept(ts: seq<int>, maxRequests: int, window: int, now: int, stamp: int)
    requires maxRequests >= 1 && WithinQuota(ts, maxRequests, window)
    requires ts != [] ==> ts[|ts| - 1] <= now
    requires stamp >= now + WaitAt(ts, maxRequests, window, now)
    ensures WithinQuota(Prune(ts, now - window) + [stamp], maxRequests, window)
  {
    var kept := Prune(ts, now - window);
    if ts != [] {
      PruneMonotone(ts, ts[|ts| - 1] - window, now - window);
    }
    assert |kept| <= maxRequests;
    var after := Prune(kept, stamp - window);
    if |kept| >= maxRequests {
      assert kept[0] > now - window;
      assert stamp >= kept[0] + window;
      PruneDropsHead(kept, stamp - window);
    }
    assert |after| < maxRequests;
    PruneAppend(kept, stamp, stamp - window);
    assert (kept + [stamp])[|kept + [stamp]| - 1] == stamp;
  }

  /** An entry at or before the cutoff is dropped, so pruning keeps fewer entries than there were. */
  lemma PruneDropsHead(xs: seq<int>, cutoff: int)
    requires xs != [] && xs[0] <= cutoff
    ensures |Prune(xs, cutoff)| < |xs|
  {
    assert Prune(xs, cutoff) == Prune(xs[1..], cutoff);
  }

  /** Pruning a sorted list and stamping a time no earlier than its last entry keeps it sorted. */
  lemma PruneThenStampSorted(ts: seq<int>, cutoff: int, stamp: int)
    requires Sorted(ts) && (ts != [] ==> ts[|ts| - 1] <= stamp)
    ensures Sorted(Prune(ts, cutoff) + [stamp])
  {
    var kept := Prune(ts, cutoff);
    PruneSortedIsSuffix(ts, cutoff);
    SortedSuffix(ts, |ts| - |kept|);
    if kept != [] {
      assert kept[|kept| - 1] == ts[|ts| - 1];
    }
    SortedSnoc(kept, stamp);
  }

  /** The stamps `acquire` keeps: in clock order, none later than `time`, the quota kept. */
  predicate StampsValid(ts: seq<int>, maxRequests: int, window: int, time: int) {
    && Sorted(ts)
    && (ts != [] ==> ts[|ts| - 1] <= time)
    && (maxRequests >= 1 ==> WithinQuota(ts, maxRequests, window))
  }

  /** One `acquire` keeps the stamps valid: prune at `now`, then stamp no earlier than the end of the sleep. */
  lemma AcquireKeepsValid(ts: seq<int>, maxRequests: int, window: int, now: int, stamp: int)
    requires StampsValid(ts, maxRequests, window, now)
    requires stamp >= now && stamp >= now + WaitAt(ts, maxRequests, window, now)
    ensures StampsValid(Prune(ts, now - window) + [stamp], maxRequests, window, stamp)
  {
    if maxRequests >= 1 {
      QuotaKept(ts, maxRequests, window, now, stamp);
    }
    PruneThenStampSorted(ts, now - window, stamp);
  }

  /** `RateLimiter(max_requests, window_seconds)`. */
  class RateLimiter {
    const maxRequests: int
    const window: int
    var timestamps: seq<int>

    constructor (maxRequests: int, windowTicks: int)
      ensures this.maxRequests == maxRequests && window == windowTicks && timestamps == []
    {
      this.maxRequests := maxRequests;
      window := windowTicks;
      timestamps := [];
    }

    /** The state `acquire` keeps: stamps in clock order, none later than the clock. */
    predicate Valid(clock: Clock)
      reads this, clock
    {
      StampsValid(timestamps, maxRequests, window, clock.time)
    }

    /**
     * `acquire`: prune at `now`, sleep while the window is full, append a new stamp.
     * With `max_requests <= 0` and nothing left after pruning, `self._timestamps[0]`
     * raises IndexError: `ok` is false and no stamp is appended.
     */
    method Acquire(clock: Clock) returns (ok: bool, now: int, slept: int)
      requires Valid(clock)
      modifies this, clock
      ensures Valid(clock)
      ensures old(clock.time) <= now <= clock.time
      ensures slept == WaitAt(old(timestamps), maxRequests, window, now)
      ensures ok <==> maxRequests >= 1 || |Prune(old(timestamps), now - window)| > 0
      ensures ok ==> clock.time >= now + slept
      ensures !ok ==> timestamps == Prune(old(timestamps), now - window)
      ensures ok ==> timestamps == Prune(old(timestamps), now - window) + [clock.time]
    {
      ghost var ts := timestamps;
      now := clock.Now();
      var cutoff := now - window;
      var kept := Prune(timestamps, cutoff);
      slept := 0;
      if |kept| >= maxRequests {
        if |kept| == 0 {
          timestamps := kept;
          ok := false;
          return;
        }
        var wait := kept[0] + window - now;
        if wait > 0 {
          clock.Sleep(wait);
          slept := wait;
        }
      }
      var stamp := clock.Now();
      timestamps := kept + [stamp];
      ok := true;
      AcquireKeepsValid(ts, maxRequests, window, now, stamp);
    }

    /** `remaining`: the free slots at time `now`; the stamps are left as they are. */
    function Remaining(now: int): (n: int)
      reads this
      ensures n >= 0 && (maxRequests >= 0 ==> n <= maxRequests)
      ensures n > 0 <==> |Prune(timestamps, now - window)| < maxRequests
    {
      RemainingAt(timestamps, maxRequests, window, now)
    }
  }
}
