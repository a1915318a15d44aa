/**
  The sliding-window rate limiter, internal/middleware/rate_limit.go:133-198.

  Times are integers in one unit (the source uses nanoseconds); a Redis pipeline is one atomic step.
  The sorted set scores every member by the member itself, so it is a set of integers.
 */
module RateLimit {
  import opened Counting

  /** The four numbers checkRateLimit is configured with; the windows are lengths of time. */
  datatype Config = Config(limit: int, window: int, burstMultiplier: int, burstWindow: int) {
    function BurstLimit(): int {
      limit * burstMultiplier
    }

    /** The burst window, as far as the trim leaves it. */
    function Width(): int {
      if burstWindow < window then burstWindow else window - 1
    }

    /** How long a request counts against later ones, and how many such requests a new one may find. */
    function Reach(): int {
      if limit <= BurstLimit() then Width() else window - 1
    }

    function Bound(): int {
      if limit <= BurstLimit() then BurstLimit() else limit
    }

    /**
      One of the two tests decides alone, which fails only for a multiplier of zero with a positive limit, and the
      windows are lengths of time.
     */
    predicate Regular() {
      !(burstMultiplier == 0 && 1 <= limit) && 0 <= Reach()
    }
  }

  datatype Decision = Decision(allowed: bool, remaining: int, resetTime: int)

  // ---------------------------------------------------------------- one call

  /** ZREMRANGEBYSCORE key 0 max. */
  function Trim(z: set<int>, max: int): set<int> {
    set x | x in z && !(0 <= x <= max)
  }

  /** ZCOUNT key min +inf. */
  function CountFrom(z: set<int>, min: int): nat {
    |set x | x in z && min <= x|
  }

  function Decide(z: set<int>, now: int, c: Config): Decision {
    var kept := Trim(z, now - c.window);
    var count := CountFrom(kept, now - c.window);
    var burstCount := CountFrom(kept, now - c.burstWindow);
    if burstCount <= c.BurstLimit() then Decision(true, c.BurstLimit() - burstCount, now + c.window)
    else if count <= c.limit then Decision(true, c.limit - count, now + c.window)
    else Decision(false, 0, now + c.window)
  }

  function Record(z: set<int>, now: int, c: Config): set<int> {
    Trim(z, now - c.window) + {now}
  }

  class SortedSet {
    var members: set<int>

    method ZRemRangeByScore(min: int, max: int)
      modifies this
      ensures members == set x | x in old(members) && !(min <= x <= max)
    {
      members := set x | x in members && !(min <= x <= max);
    }

    method ZCount(min: int) returns (n: nat)
      ensures n == CountFrom(members, min)
    {
      n := |set x | x in members && min <= x|;
    }

    method ZAdd(member: int)
      modifies this
      ensures members == old(members) + {member}
    {
      members := members + {member};
    }
  }

  /** The limiter as the source runs it: trim, count twice, add, then decide. */
  method CheckRateLimit(key: SortedSet, now: int, c: Config) returns (d: Decision)
    modifies key
    ensures d == Decide(old(key.members), now, c)
    ensures key.members == Record(old(key.members), now, c)
  {
    var windowStart := now - c.window;
    var burstWindowStart := now - c.burstWindow;
    key.ZRemRangeByScore(0, windowStart);
    var count := key.ZCount(windowStart);
    var burstCount := key.ZCount(burstWindowStart);
    key.ZAdd(now);
    var burstLimit := c.limit * c.burstMultiplier;
    var allowed := false;
    var remaining := 0;
    if burstCount <= burstLimit {
      allowed := true;
      remaining := burstLimit - burstCount;
    } else if count <= c.limit {
      allowed := true;
      remaining := c.limit - count;
    }
    d := Decision(allowed, remaining, now + c.window);
  }

  // ---------------------------------------------------------------- one decision

  ghost predicate Times(z: set<int>) {
    forall x :: x in z ==> 0 <= x
  }

  /** After the trim the window count is the whole set, so the burst count never exceeds it. */
  lemma BurstWithinWindow(z: set<int>, now: int, c: Config)
    requires Times(z)
    ensures CountFrom(Trim(z, now - c.window), now - c.window) == |Trim(z, now - c.window)|
    ensures CountFrom(Trim(z, now - c.window), now - c.burstWindow)
            <= CountFrom(Trim(z, now - c.window), now - c.window)
  {
    var kept := Trim(z, now - c.window);
    assert (set x | x in kept && now - c.window <= x) == kept;
    SubsetSize((set x | x in kept && now - c.burstWindow <= x), kept);
  }

  ghost predicate SustainedBranchFires(z: set<int>, now: int, c: Config) {
    var kept := Trim(z, now - c.window);
    CountFrom(kept, now - c.burstWindow) > c.BurstLimit() && CountFrom(kept, now - c.window) <= c.limit
  }

  /**
    The second branch, "burst exceeded but within sustained rate", can fire for some history exactly when the
    multiplier is below one and the limit is positive. With the shipped multiplier of two it is dead code.
   */
  lemma SustainedBranchLiveIff(c: Config)
    requires 1 <= c.burstWindow && 1 < c.window
    ensures (exists z, now :: Times(z) && SustainedBranchFires(z, now, c)) <==>
            c.burstMultiplier < 1 && 1 <= c.limit
  {
    if c.burstMultiplier < 1 && 1 <= c.limit {
      var z, now := {0}, 1;
      var kept := Trim(z, now - c.window);
      assert kept == {0};
      assert (set x | x in kept && now - c.burstWindow <= x) == {0};
      assert (set x | x in kept && now - c.window <= x) == {0};
      ProductSign(c.limit, c.burstMultiplier);
      assert SustainedBranchFires(z, now, c);
    }
    if z, now :| Times(z) && SustainedBranchFires(z, now, c) {
      BurstWithinWindow(z, now, c);
      if c.burstMultiplier >= 1 {
        ProductSign(c.limit, c.burstMultiplier);
      } else if c.limit < 1 {
        ProductSign(c.limit, c.burstMultiplier);
      }
    }
  }

  lemma ProductSign(a: int, m: int)
    ensures m < 1 && 1 <= a ==> a * m <= 0
    ensures m >= 1 && a >= 0 ==> a <= a * m
    ensures m < 1 && a == 0 ==> a * m == 0
  {
    if m >= 1 && a >= 0 {
      assert a * (m - 1) >= 0;
    } else if m < 1 && 1 <= a {
      assert a * (-m) >= 0;
    }
  }

  // ---------------------------------------------------------------- all calls on one key

  ghost predicate Increasing(ts: seq<int>) {
    && (forall i :: 0 <= i < |ts| ==> 0 <= ts[i])
    && (forall i, j :: 0 <= i < j < |ts| ==> ts[i] < ts[j])
  }

  /** The sorted set before call `i`, when call `k` happens at `ts[k]`. */
  function SetBefore(ts: seq<int>, i: nat, c: Config): set<int>
    requires i <= |ts|
  {
    if i == 0 then {} else Record(SetBefore(ts, i - 1, c), ts[i - 1], c)
  }

  function Allowed(ts: seq<int>, i: nat, c: Config): bool
    requires i < |ts|
  {
    Decide(SetBefore(ts, i, c), ts[i], c).allowed
  }

  /** The times of the first `i` requests, rejected ones included, that are at least `from`. */
  function History(ts: seq<int>, i: nat, from: int): set<int>
    requires i <= |ts|
  {
    set k | 0 <= k < i && from <= ts[k] :: ts[k]
  }

  /** The trimmed set keeps exactly the requests younger than the window. */
  lemma {:induction false} TrimmedIsRecentHistory(ts: seq<int>, i: nat, c: Config)
    requires Increasing(ts) && i < |ts|
    ensures Times(SetBefore(ts, i, c))
    ensures Trim(SetBefore(ts, i, c), ts[i] - c.window) == History(ts, i, ts[i] - c.window + 1)
  {
    if i > 0 {
      TrimmedIsRecentHistory(ts, i - 1, c);
      var prev, z := SetBefore(ts, i - 1, c), SetBefore(ts, i, c);
      var kept := Trim(z, ts[i] - c.window);
      forall x ensures x in kept <==> x in History(ts, i, ts[i] - c.window + 1) {
        if x in History(ts, i, ts[i] - c.window + 1) {
          var k :| 0 <= k < i && ts[k] == x;
          if k < i - 1 {
            assert x in History(ts, i - 1, ts[i - 1] - c.window + 1);
          }
        }
      }
    }
  }

  lemma RecentInWindow(kept: set<int>, ts: seq<int>, i: nat, c: Config)
    requires i < |ts| && kept == History(ts, i, ts[i] - c.window + 1)
    ensures CountFrom(kept, ts[i] - c.window) == |kept|
    ensures CountFrom(kept, ts[i] - c.burstWindow) == |History(ts, i, ts[i] - c.Width())|
  {
    assert (set x | x in kept && ts[i] - c.window <= x) == kept;
    assert (set x | x in kept && ts[i] - c.burstWindow <= x) == History(ts, i, ts[i] - c.Width());
  }

  /** Both Redis counts are counts over the full, untrimmed history of the key. */
  lemma CountsAreHistoryCounts(ts: seq<int>, i: nat, c: Config)
    requires Increasing(ts) && i < |ts|
    ensures var kept := Trim(SetBefore(ts, i, c), ts[i] - c.window);
            && CountFrom(kept, ts[i] - c.window) == |History(ts, i, ts[i] - c.window + 1)|
            && CountFrom(kept, ts[i] - c.burstWindow) == |History(ts, i, ts[i] - c.Width())|
  {
    TrimmedIsRecentHistory(ts, i, c);
    RecentInWindow(Trim(SetBefore(ts, i, c), ts[i] - c.window), ts, i, c);
  }

  /** An irregular configuration mixes the two tests; in all others the larger of the two limits decides. */
  lemma BurstLimitSign(c: Config)
    requires !(c.burstMultiplier == 0 && 1 <= c.limit) && c.BurstLimit() < c.limit
    ensures c.BurstLimit() < 0
  {
    ProductSign(c.limit, c.burstMultiplier);
    if c.burstMultiplier < 0 && c.limit >= 1 {
      assert c.limit * (-c.burstMultiplier) >= 1;
    } else if c.limit < 0 && c.burstMultiplier <= 0 {
      MulMonotone(c.burstMultiplier, 0, -c.limit);
    } else if c.limit < 0 {
      MulMonotone(1, c.burstMultiplier, -c.limit);
    }
  }

  lemma HistoryShrinks(ts: seq<int>, i: nat, from: int, from': int)
    requires i <= |ts| && from <= from'
    ensures |History(ts, i, from')| <= |History(ts, i, from)|
  {
    SubsetSize(History(ts, i, from'), History(ts, i, from));
  }

  /**
    For every configuration: a request is allowed exactly when at most limit * multiplier requests, allowed or
    rejected, were made on its key in the burst window before it, or at most `limit` in the window.
   */
  lemma AllowedIff(ts: seq<int>, i: nat, c: Config)
    requires Increasing(ts) && i < |ts|
    ensures Allowed(ts, i, c) <==>
            |History(ts, i, ts[i] - c.Width())| <= c.BurstLimit() || |History(ts, i, ts[i] - c.window + 1)| <= c.limit
  {
    TrimmedIsRecentHistory(ts, i, c);
    CountsAreHistoryCounts(ts, i, c);
  }

  /** One of the two tests decides alone, unless the multiplier is zero and the limit positive. */
  lemma OneTestDecides(ts: seq<int>, i: nat, c: Config)
    requires Increasing(ts) && i < |ts| && !(c.burstMultiplier == 0 && 1 <= c.limit)
    ensures Allowed(ts, i, c) <==> |History(ts, i, ts[i] - c.Reach())| <= c.Bound()
  {
    AllowedIff(ts, i, c);
    HistoryShrinks(ts, i, ts[i] - c.window + 1, ts[i] - c.Width());
    if c.BurstLimit() < c.limit {
      BurstLimitSign(c);
    }
  }

  /** With a multiplier of at least one these are the documented burst parameters, unless the limit is negative. */
  lemma BurstDecides(c: Config)
    requires 1 <= c.burstMultiplier && 0 <= c.limit
    ensures c.Reach() == c.Width() && c.Bound() == c.BurstLimit()
  {
    ProductSign(c.limit, c.burstMultiplier);
  }

  /** How many of the first `n` requests were allowed at a time from `a` to `b`, both included. */
  function AllowedIn(ts: seq<int>, n: nat, a: int, b: int, c: Config): nat
    requires n <= |ts|
  {
    if n == 0 then 0
    else AllowedIn(ts, n - 1, a, b, c) + if Allowed(ts, n - 1, c) && a <= ts[n - 1] <= b then 1 else 0
  }

  lemma HistoryNext(ts: seq<int>, n: nat, from: int)
    requires Increasing(ts) && 0 < n <= |ts|
    ensures |History(ts, n, from)| == |History(ts, n - 1, from)| + if from <= ts[n - 1] then 1 else 0
  {
    if from <= ts[n - 1] {
      assert History(ts, n, from) == History(ts, n - 1, from) + {ts[n - 1]};
    } else {
      assert History(ts, n, from) == History(ts, n - 1, from);
    }
  }

  lemma {:induction false} AllowedWereRequested(ts: seq<int>, n: nat, a: int, b: int, from: int, c: Config)
    requires Increasing(ts) && n <= |ts| && from <= a
    ensures AllowedIn(ts, n, a, b, c) <= |History(ts, n, from)|
  {
    if n > 0 {
      AllowedWereRequested(ts, n - 1, a, b, from, c);
      HistoryNext(ts, n, from);
    }
  }

  /**
    In every run, every closed interval as long as the reach holds at most one allowed request more than the bound.
   */
  lemma {:induction false} AtMostBurstPerInterval(ts: seq<int>, n: nat, a: int, c: Config)
    requires Increasing(ts) && n <= |ts| && !(c.burstMultiplier == 0 && 1 <= c.limit)
    ensures var allowed := AllowedIn(ts, n, a, a + c.Reach(), c); allowed == 0 || allowed <= c.Bound() + 1
  {
    if n > 0 {
      if Allowed(ts, n - 1, c) && a <= ts[n - 1] <= a + c.Reach() {
        OneTestDecides(ts, n - 1, c);
        AllowedWereRequested(ts, n - 1, a, a + c.Reach(), ts[n - 1] - c.Reach(), c);
      } else {
        AtMostBurstPerInterval(ts, n - 1, a, c);
      }
    }
  }

  /**
    Rejected requests count: while more requests than the bound, answered or not, fall into every reach, none is
    allowed.
   */
  lemma SteadyOverloadIsRejected(ts: seq<int>, i: nat, c: Config)
    requires Increasing(ts) && i < |ts| && !(c.burstMultiplier == 0 && 1 <= c.limit)
    requires 0 <= c.Bound() < i
    requires forall k :: i - c.Bound() - 1 <= k < i ==> ts[i] - ts[k] <= c.Reach()
    ensures !Allowed(ts, i, c)
  {
    OneTestDecides(ts, i, c);
    RecentAreCounted(ts, i, i - c.Bound() - 1, ts[i] - c.Reach());
  }

  lemma {:induction false} RecentAreCounted(ts: seq<int>, i: nat, lo: nat, from: int)
    requires Increasing(ts) && lo <= i <= |ts|
    requires forall k :: lo <= k < i ==> from <= ts[k]
    ensures i - lo <= |History(ts, i, from)|
  {
    if lo < i {
      RecentAreCounted(ts, i - 1, lo, from);
      HistoryNext(ts, i, from);
    }
  }

  // ---------------------------------------------------------------- what an answer tells the client

  function RemainingAfter(ts: seq<int>, i: nat, c: Config): int
    requires i < |ts|
  {
    Decide(SetBefore(ts, i, c), ts[i], c).remaining
  }

  lemma DecisionSays(z: set<int>, ts: seq<int>, i: nat, c: Config)
    requires i < |ts| && 1 <= c.burstMultiplier && 0 <= c.limit
    requires var kept := Trim(z, ts[i] - c.window);
             && CountFrom(kept, ts[i] - c.window) == |History(ts, i, ts[i] - c.window + 1)|
             && CountFrom(kept, ts[i] - c.burstWindow) == |History(ts, i, ts[i] - c.Width())|
    ensures var recent, bound := |History(ts, i, ts[i] - c.Width())|, c.BurstLimit();
            Decide(z, ts[i], c)
            == Decision(recent <= bound, if recent <= bound then bound - recent else 0, ts[i] + c.window)
  {
    ProductSign(c.limit, c.burstMultiplier);
    HistoryShrinks(ts, i, ts[i] - c.window + 1, ts[i] - c.Width());
  }

  /** An allowed answer says how far the count is from the limit, a rejected one zero; the reset is one window away. */
  lemma AnswerSays(ts: seq<int>, i: nat, c: Config)
    requires Increasing(ts) && i < |ts| && 1 <= c.burstMultiplier && 0 <= c.limit
    ensures var recent, bound := |History(ts, i, ts[i] - c.Width())|, c.BurstLimit();
            Decide(SetBefore(ts, i, c), ts[i], c)
            == Decision(recent <= bound, if recent <= bound then bound - recent else 0, ts[i] + c.window)
  {
    CountsAreHistoryCounts(ts, i, c);
    DecisionSays(SetBefore(ts, i, c), ts, i, c);
  }

  lemma {:induction false} HistoryGrowsBy(ts: seq<int>, i: nat, j: nat, from: int)
    requires Increasing(ts) && i <= j <= |ts|
    ensures |History(ts, j, from)| <= |History(ts, i, from)| + (j - i)
    ensures (forall k :: i <= k < j ==> from <= ts[k]) ==> |History(ts, j, from)| == |History(ts, i, from)| + (j - i)
  {
    if i < j {
      HistoryGrowsBy(ts, i, j - 1, from);
      HistoryNext(ts, j, from);
    }
  }

  /** The promise of an allowed answer: that many further requests are allowed, whenever they come. */
  lemma RemainingAreAllowed(ts: seq<int>, i: nat, j: nat, c: Config)
    requires Increasing(ts) && 1 <= c.burstMultiplier && 0 <= c.limit
    requires i < j < |ts| && Allowed(ts, i, c) && j - i <= RemainingAfter(ts, i, c)
    ensures Allowed(ts, j, c)
  {
    AnswerSays(ts, i, c);
    HistoryGrowsBy(ts, i, j, ts[i] - c.Width());
    HistoryShrinks(ts, j, ts[i] - c.Width(), ts[j] - c.Width());
    AnswerSays(ts, j, c);
  }

  /** ... and the next one after them is not, if nothing has left the burst window by then. */
  lemma NoMoreThanRemaining(ts: seq<int>, i: nat, j: nat, c: Config)
    requires Increasing(ts) && 1 <= c.burstMultiplier && 0 <= c.limit
    requires i < j < |ts| && Allowed(ts, i, c) && j - i == RemainingAfter(ts, i, c) + 1
    requires History(ts, i, ts[i] - c.Width()) == History(ts, i, ts[j] - c.Width()) && ts[j] - c.Width() <= ts[i]
    ensures !Allowed(ts, j, c)
  {
    AnswerSays(ts, i, c);
    HistoryGrowsBy(ts, i, j, ts[j] - c.Width());
    AnswerSays(ts, j, c);
  }

  // ---------------------------------------------------------------- intervals of any length

  function Min(x: int, y: int): int {
    if x <= y then x else y
  }

  /** What fits into one reach: the bound and one more, but no more than one request an instant. */
  function PerBurst(c: Config): int {
    Min(c.Bound(), c.Reach()) + 1
  }

  /** The most requests that can be allowed in a closed interval of the given length. */
  function MostAllowed(c: Config, length: nat): nat
    requires c.Regular()
  {
    if c.Bound() < 0 then 0
    else if length <= c.Reach() then Min(length, c.Bound()) + 1
    else PerBurst(c) + MostAllowed(c, length - c.Reach() - 1)
  }

  function AllowedDuring(ts: seq<int>, n: nat, a: int, length: nat, c: Config): nat
    requires n <= |ts|
  {
    AllowedIn(ts, n, a, a + length, c)
  }

  /** In every run every closed interval of this length holds at most `promise` allowed requests. */
  ghost predicate Keeps(c: Config, length: nat, promise: int) {
    forall ts: seq<int>, n: nat, a: int :: Increasing(ts) && n <= |ts| ==> AllowedDuring(ts, n, a, length, c) <= promise
  }

  lemma {:induction false} AllowedSplits(ts: seq<int>, n: nat, a: int, m: int, b: int, c: Config)
    requires n <= |ts| && a <= m <= b
    ensures AllowedIn(ts, n, a, b, c) == AllowedIn(ts, n, a, m, c) + AllowedIn(ts, n, m + 1, b, c)
  {
    if n > 0 {
      AllowedSplits(ts, n - 1, a, m, b, c);
    }
  }

  lemma {:induction false} OneAnInstant(ts: seq<int>, n: nat, a: int, b: int, c: Config)
    requires Increasing(ts) && n <= |ts| && a <= b
    ensures AllowedIn(ts, n, a, b, c) <= b - a + 1
    ensures n > 0 && AllowedIn(ts, n, a, b, c) > 0 ==> AllowedIn(ts, n, a, b, c) <= ts[n - 1] - a + 1
  {
    if n > 0 {
      OneAnInstant(ts, n - 1, a, b, c);
    }
  }

  /** In every run, no closed interval of any length holds more. */
  lemma {:induction false} AtMostMostAllowed(ts: seq<int>, n: nat, a: int, length: nat, c: Config)
    requires Increasing(ts) && n <= |ts| && c.Regular()
    ensures AllowedDuring(ts, n, a, length, c) <= MostAllowed(c, length)
    decreases length
  {
    var w := c.Reach();
    AtMostBurstPerInterval(ts, n, a, c);
    if length <= w {
      if length < w {
        AllowedSplits(ts, n, a, a + length, a + w, c);
      }
      OneAnInstant(ts, n, a, a + length, c);
    } else {
      OneAnInstant(ts, n, a, a + w, c);
      AllowedSplits(ts, n, a, a + w, a + length, c);
      AtMostMostAllowed(ts, n, a + w + 1, length - w - 1, c);
    }
  }

  /** The worst run: `m` requests in a row at the start of every period of `p` instants. */
  function BurstTime(i: nat, m: nat, p: nat): nat
    requires 1 <= m <= p
  {
    if i < m then i else p + BurstTime(i - m, m, p)
  }

  function Bursts(n: nat, m: nat, p: nat): seq<int>
    requires 1 <= m <= p
  {
    seq(n, i requires 0 <= i < n => BurstTime(i, m, p))
  }

  lemma {:induction false} BurstTimeGrows(i: nat, j: nat, m: nat, p: nat)
    requires 1 <= m <= p && i < j
    ensures BurstTime(i, m, p) < BurstTime(j, m, p)
  {
    if i < m {
      BurstTimeAtLeast(j, m, p);
    } else {
      BurstTimeGrows(i - m, j - m, m, p);
    }
  }

  lemma {:induction false} BurstTimeAtLeast(i: nat, m: nat, p: nat)
    requires 1 <= m <= p
    ensures i <= BurstTime(i, m, p)
  {
    if i >= m {
      BurstTimeAtLeast(i - m, m, p);
    }
  }

  lemma BurstsIncrease(n: nat, m: nat, p: nat)
    requires 1 <= m <= p
    ensures Increasing(Bursts(n, m, p))
  {
    forall i, j | 0 <= i < j < n ensures Bursts(n, m, p)[i] < Bursts(n, m, p)[j] {
      BurstTimeGrows(i, j, m, p);
    }
  }

  lemma {:induction false} HistoryAtMost(ts: seq<int>, i: nat, lo: nat, from: int)
    requires Increasing(ts) && lo <= i <= |ts|
    requires forall k :: 0 <= k < lo ==> ts[k] < from
    ensures |History(ts, i, from)| <= i - lo
  {
    if lo < i {
      HistoryAtMost(ts, i - 1, lo, from);
      HistoryNext(ts, i, from);
    } else {
      assert History(ts, i, from) == {};
    }
  }

  lemma BurstHistory(n: nat, i: nat, m: nat, p: nat)
    requires 1 <= m <= p && i < n
    ensures var ts := Bursts(n, m, p); |History(ts, i, ts[i] - p + 1)| < m
  {
    var ts := Bursts(n, m, p);
    BurstsIncrease(n, m, p);
    forall k | 0 <= k <= i - m ensures ts[k] < ts[i] - p + 1 {
      assert ts[i] == p + ts[i - m];
    }
    HistoryAtMost(ts, i, if i < m then 0 else i - m + 1, ts[i] - p + 1);
  }

  lemma BurstRequestIsAllowed(n: nat, i: nat, c: Config)
    requires c.Regular() && 0 <= c.Bound() && i < n
    ensures Allowed(Bursts(n, PerBurst(c), c.Reach() + 1), i, c)
  {
    var m, p := PerBurst(c), c.Reach() + 1;
    BurstsIncrease(n, m, p);
    OneTestDecides(Bursts(n, m, p), i, c);
    BurstHistory(n, i, m, p);
  }

  lemma {:induction false} AllBurstsAreAllowed(n: nat, i: nat, length: nat, c: Config)
    requires c.Regular() && 0 <= c.Bound() && i <= n
    requires i > 0 ==> BurstTime(i - 1, PerBurst(c), c.Reach() + 1) <= length
    ensures AllowedDuring(Bursts(n, PerBurst(c), c.Reach() + 1), i, 0, length, c) == i
  {
    if i > 0 {
      if i > 1 {
        BurstTimeGrows(i - 2, i - 1, PerBurst(c), c.Reach() + 1);
      }
      AllBurstsAreAllowed(n, i - 1, length, c);
      BurstRequestIsAllowed(n, i - 1, c);
    }
  }

  lemma {:induction false} MostAllowedFits(c: Config, length: nat)
    requires c.Regular() && 0 <= c.Bound()
    ensures 1 <= MostAllowed(c, length)
    ensures BurstTime(MostAllowed(c, length) - 1, PerBurst(c), c.Reach() + 1) <= length
    decreases length
  {
    if length > c.Reach() {
      MostAllowedFits(c, length - c.Reach() - 1);
    }
  }

  /** ... and the bound is reached, for every configuration and every length. */
  lemma MostAllowedIsReached(c: Config, length: nat)
    requires c.Regular() && 0 <= c.Bound()
    ensures var n := MostAllowed(c, length); var ts := Bursts(n, PerBurst(c), c.Reach() + 1);
            Increasing(ts) && AllowedDuring(ts, n, 0, length, c) == n
  {
    var n := MostAllowed(c, length);
    BurstsIncrease(n, PerBurst(c), c.Reach() + 1);
    MostAllowedFits(c, length);
    AllBurstsAreAllowed(n, n, length, c);
  }

  /** So any promise about intervals of any length is kept by every run exactly when it allows for that many. */
  lemma KeepsIff(c: Config, length: nat, promise: int)
    requires c.Regular()
    ensures Keeps(c, length, promise) <==> MostAllowed(c, length) <= promise
  {
    if MostAllowed(c, length) <= promise {
      forall ts: seq<int>, n: nat, a: int | Increasing(ts) && n <= |ts|
        ensures AllowedDuring(ts, n, a, length, c) <= promise
      {
        AtMostMostAllowed(ts, n, a, length, c);
      }
    } else if c.Bound() < 0 {
      assert AllowedDuring([], 0, 0, length, c) == 0;
    } else {
      MostAllowedIsReached(c, length);
      var n := MostAllowed(c, length);
      var ts := Bursts(n, PerBurst(c), c.Reach() + 1);
      assert AllowedDuring(ts, n, 0, length, c) > promise;
    }
  }

  lemma {:induction false} MostAllowedAt(c: Config, length: nat, q: nat, r: nat)
    requires c.Regular() && 0 <= c.Bound() && r <= c.Reach() && length == q * (c.Reach() + 1) + r
    ensures MostAllowed(c, length) == q * PerBurst(c) + Min(r, c.Bound()) + 1
    decreases q
  {
    var p, m := c.Reach() + 1, PerBurst(c);
    if q > 0 {
      assert q * p == (q - 1) * p + p && q * m == (q - 1) * m + m;
      MulMonotone(0, q - 1, p);
      MostAllowedAt(c, length - p, q - 1, r);
    }
  }

  /** In closed form: full bursts, and what fits into the rest. */
  lemma MostAllowedClosed(c: Config, length: nat)
    requires c.Regular() && 0 <= c.Bound()
    ensures MostAllowed(c, length)
            == length / (c.Reach() + 1) * PerBurst(c) + Min(length % (c.Reach() + 1), c.Bound()) + 1
  {
    MostAllowedAt(c, length, length / (c.Reach() + 1), length % (c.Reach() + 1));
  }

  lemma WholeBursts(q: nat, m: int, b: int, rest: int)
    requires m <= b && rest <= b
    ensures q * m + rest <= (q + 1) * b
  {
    MulMonotone(m, b, q);
    assert (q + 1) * b == b * q + b && q * m == m * q;
  }

  lemma WholeBurstsSuffice(c: Config, length: nat, bound: nat, q: nat)
    requires c.Regular() && bound == c.Bound() && q == length / (c.Reach() + 1)
    ensures MostAllowed(c, length) <= (q + 1) * (bound + 1)
  {
    MostAllowedClosed(c, length);
    WholeBursts(q, PerBurst(c), bound + 1, Min(length % (c.Reach() + 1), bound) + 1);
  }

  lemma WholeBurstsIff(q: nat, burst: nat, width: nat, r: nat)
    requires r <= width
    ensures q * (Min(burst, width) + 1) + Min(r, burst) + 1 == (q + 1) * (burst + 1) <==> burst <= r
  {
    MulMonotone(Min(burst, width) + 1, burst + 1, q);
    assert (q + 1) * (burst + 1) == (burst + 1) * q + burst + 1;
    assert q * (Min(burst, width) + 1) == (Min(burst, width) + 1) * q;
  }

  /** That bound is the exact one when the last, shorter stretch has room for a whole burst, and only then. */
  lemma WholeBurstsReachedIff(c: Config, length: nat, burst: nat, q: nat, r: nat)
    requires c.Regular() && burst == c.Bound()
    requires q == length / (c.Reach() + 1) && r == length % (c.Reach() + 1)
    ensures MostAllowed(c, length) == (q + 1) * (burst + 1) <==> burst <= r
  {
    MostAllowedClosed(c, length);
    WholeBurstsIff(q, burst, c.Reach(), r);
  }

  /** Hence, in every run, at most (length / (reach + 1) + 1) bursts of one request more than the bound. */
  lemma AtMostWholeBursts(ts: seq<int>, n: nat, a: int, length: nat, c: Config, bound: nat, q: nat)
    requires Increasing(ts) && n <= |ts| && c.Regular() && bound == c.Bound() && q == length / (c.Reach() + 1)
    ensures AllowedDuring(ts, n, a, length, c) <= (q + 1) * (bound + 1)
  {
    AtMostMostAllowed(ts, n, a, length, c);
    WholeBurstsSuffice(c, length, bound, q);
  }

  // ---------------------------------------------------------------- the documented rates

  lemma {:induction false} EveryInstantAllowed(c: Config, length: nat)
    requires c.Regular() && c.Reach() < c.Bound()
    ensures MostAllowed(c, length) == length + 1
    decreases length
  {
    if length > c.Reach() {
      EveryInstantAllowed(c, length - c.Reach() - 1);
    }
  }

  /**
    A promise of no more than the bound, over the reach or longer, is kept exactly when it is no promise
    at all: when the interval has fewer instants than the promise allows requests.
   */
  lemma SmallPromiseKeptIff(c: Config, length: nat, promise: int)
    requires c.Regular() && c.Reach() <= length && promise <= c.Bound()
    ensures Keeps(c, length, promise) <==> length < promise
  {
    KeepsIff(c, length, promise);
    if c.Reach() < c.Bound() {
      EveryInstantAllowed(c, length);
    }
  }

  /** The documented rate: `limit` requests in a window. */
  lemma DocumentedRateKeptIff(c: Config)
    requires c.Regular()
    ensures Keeps(c, c.window, c.limit) <==> c.window < c.limit
  {
    SmallPromiseKeptIff(c, c.window, c.limit);
  }

  /** The documented burst: the sustained rate times the multiplier, for one burst window. */
  function BurstAllowance(c: Config): int
    requires 0 < c.window
  {
    c.BurstLimit() * c.burstWindow / c.window
  }

  /** One window with one such burst in it, and the sustained rate for the rest. */
  function WindowAllowance(c: Config): int
    requires 0 < c.window
  {
    (c.limit * (c.window - c.burstWindow) + c.BurstLimit() * c.burstWindow) / c.window
  }

  lemma AllowancesAreSmall(c: Config)
    requires 1 <= c.burstMultiplier && 0 <= c.limit && 0 <= c.burstWindow < c.window
    ensures BurstAllowance(c) <= c.BurstLimit() && WindowAllowance(c) <= c.BurstLimit()
  {
    var b, w, bw := c.BurstLimit(), c.window, c.burstWindow;
    ProductSign(c.limit, c.burstMultiplier);
    MulMonotone(bw, w, b);
    MulMonotone(c.limit, b, w - bw);
    assert b * (w - bw) + b * bw == b * w;
    DivAtMost(b * bw, w, b);
    DivAtMost(c.limit * (w - bw) + b * bw, w, b);
  }

  lemma DivAtMost(x: int, w: int, b: int)
    requires 0 < w && x <= b * w
    ensures x / w <= b
  {
    assert (b + 1) * w == b * w + w && x / w * w <= x;
    if b < x / w {
      MulMonotone(b + 1, x / w, w);
    }
  }

  lemma DocumentedBurstKeptIff(c: Config)
    requires 1 <= c.burstMultiplier && 0 <= c.limit && 0 <= c.burstWindow < c.window
    ensures Keeps(c, c.burstWindow, BurstAllowance(c)) <==> c.burstWindow < BurstAllowance(c)
    ensures Keeps(c, c.window, WindowAllowance(c)) <==> c.window < WindowAllowance(c)
  {
    BurstDecides(c);
    AllowancesAreSmall(c);
    SmallPromiseKeptIff(c, c.burstWindow, BurstAllowance(c));
    SmallPromiseKeptIff(c, c.window, WindowAllowance(c));
  }

  /** A tenant's configuration as shipped, in nanoseconds. */
  const SHIPPED := Config(1000, 60_000_000_000, 2, 30_000_000_000)

  /**
    The documents grant 1000 requests in a burst window and 1500 in a minute that has one such burst; the code lets
    through 2001 and 4002.
   */
  lemma ShippedNumbers()
    ensures BurstAllowance(SHIPPED) == 1000 && MostAllowed(SHIPPED, SHIPPED.burstWindow) == 2001
    ensures WindowAllowance(SHIPPED) == 1500 && MostAllowed(SHIPPED, SHIPPED.window) == 4002
  {
    assert MostAllowed(SHIPPED, 29_999_999_999) == 2001;
  }
}
