/** Backoff and disable: what an unbroken run of failures comes to. */
module HintSchedule {
  import opened Arith
  import opened Tables
  import opened Subscriptions

  /** The delays double from a minute and stop at an hour; the shifted value fits a
      signed 64-bit integer. */
  lemma RetryDelayIs(n: nat)
    ensures RetryDelay(n + 1) == Min(RETRY_BASE_MS * Pow2(n), RETRY_CAP_MS)
    ensures RetryDelay(0) == RETRY_BASE_MS
    ensures RETRY_BASE_MS * Pow2(Min(n, 16)) < 0x8000_0000_0000_0000
  {
    SmallPowers();
    if n > 6 { PowGrows(6, n); }
    if n > 16 { PowGrows(6, 16); } else if n > 0 { PowGrows(n, 16); }
    assert Pow2(16) == 65536 by {
      assert Pow2(8) == 4 * Pow2(6);
      assert Pow2(10) == 4 * Pow2(8);
      assert Pow2(12) == 4 * Pow2(10);
      assert Pow2(14) == 4 * Pow2(12);
      assert Pow2(16) == 4 * Pow2(14);
    }
  }

  lemma DelaysRise(m: nat, n: nat)
    requires m <= n
    ensures RetryDelay(m) <= RetryDelay(n)
  {
    if m > 0 {
      RetryDelayIs(m - 1);
      RetryDelayIs(n - 1);
      PowGrows(m - 1, n - 1);
    } else {
      RetryDelayIs(if n == 0 then 0 else n - 1);
    }
  }

  // ------------------------------------------------------------------ streaks

  /** The row after the first `k` of a run of failures recorded at `times`. */
  function AfterFailures(sub: Subscription, times: seq<int>, k: nat): Subscription
    requires k <= |times|
  {
    if k == 0 then sub
    else
      var before := AfterFailures(sub, times, k - 1);
      Finished(before, RetryOrDisable(before, times[k - 1]))
  }

  /** A run of failures of a healthy subscription: each is recorded by an attempt
      claimed when the row was due and still enabled. */
  predicate Streak(sub: Subscription, times: seq<int>) {
    && sub.failingSince.None? && sub.attempts == 0 && sub.status == Enabled
    && forall k :: 0 <= k < |times| ==>
         AfterFailures(sub, times, k).status == Enabled && AfterFailures(sub, times, k).nextAttempt <= times[k]
  }

  /** Total delay of the first `n` retries. */
  function TotalDelay(n: nat): int {
    if n == 0 then 0 else TotalDelay(n - 1) + RetryDelay(n)
  }

  /** While still enabled, the row carries the first failure's time and the count. */
  lemma {:induction false} StreakState(sub: Subscription, times: seq<int>, k: nat)
    requires Streak(sub, times) && 0 < k <= |times| && k < U32_MAX
    requires AfterFailures(sub, times, k).status == Enabled
    ensures var s := AfterFailures(sub, times, k);
            s.failingSince == Some(times[0]) && s.attempts == k && s.nextAttempt == times[k - 1] + RetryDelay(k)
    ensures times[k - 1] - times[0] >= TotalDelay(k - 1)
    ensures times[k - 1] - times[0] < DISABLE_AFTER_MS
  {
    if k > 1 {
      StreakState(sub, times, k - 1);
      assert AfterFailures(sub, times, k - 1).nextAttempt <= times[k - 1];
    } else {
      assert AfterFailures(sub, times, 0) == sub;
    }
  }

  /** A streak is disabled only once 72 hours have passed between its first and its
      last recorded failure, and then at once. */
  lemma DisabledExactlyAfter72Hours(sub: Subscription, times: seq<int>)
    requires Streak(sub, times) && 0 < |times|
    ensures AfterFailures(sub, times, |times|).status == Disabled <==> times[|times| - 1] - times[0] >= DISABLE_AFTER_MS
  {
    var n := |times|;
    DisabledBy78th(sub, times);
    if n > 1 { StreakState(sub, times, n - 1); }
    assert AfterFailures(sub, times, 0) == sub;
  }

  lemma DelaysUpTo7()
    ensures TotalDelay(6) == 63 * 60_000
    ensures forall n :: n >= 7 ==> RetryDelay(n) == RETRY_CAP_MS
  {
    SmallPowers();
    RetryDelayIs(0);
    RetryDelayIs(1);
    RetryDelayIs(2);
    RetryDelayIs(3);
    RetryDelayIs(4);
    RetryDelayIs(5);
    assert TotalDelay(2) == RetryDelay(1) + RetryDelay(2);
    assert TotalDelay(4) == TotalDelay(2) + RetryDelay(3) + RetryDelay(4);
    assert TotalDelay(6) == TotalDelay(4) + RetryDelay(5) + RetryDelay(6);
    forall n | n >= 7
      ensures RetryDelay(n) == RETRY_CAP_MS
    {
      RetryDelayIs(n - 1);
      PowGrows(6, n - 1);
    }
  }

  lemma {:induction false} TotalDelayIs(n: nat)
    requires n >= 6
    ensures TotalDelay(n) == 63 * 60_000 + (n - 6) * RETRY_CAP_MS
  {
    DelaysUpTo7();
    if n > 6 { TotalDelayIs(n - 1); }
  }

  /** No streak outlives its 78th recorded failure. */
  lemma DisabledBy78th(sub: Subscription, times: seq<int>)
    requires Streak(sub, times)
    ensures |times| <= 78
    ensures |times| == 78 ==> AfterFailures(sub, times, 78).status == Disabled
  {
    TotalDelayIs(77);
    if |times| >= 78 {
      if AfterFailures(sub, times, 78).status == Enabled { StreakState(sub, times, 78); }
    }
  }

  /** And 78 is the least such number: retried exactly when due, the 77th failure still leaves it enabled. */
  function DueTimes(n: nat): seq<int> {
    seq(n, k requires 0 <= k < n => TotalDelay(k))
  }

  predicate Fresh(sub: Subscription) {
    sub.failingSince.None? && sub.attempts == 0 && sub.status == Enabled && sub.nextAttempt <= 0
  }

  lemma {:induction false} PromptState(sub: Subscription, n: nat, k: nat)
    requires Fresh(sub) && k <= n <= 77
    ensures var s := AfterFailures(sub, DueTimes(n), k);
            && s.status == Enabled && s.nextAttempt <= TotalDelay(k) && s.attempts == k
            && (k > 0 ==> s.failingSince == Some(0) && s.nextAttempt == TotalDelay(k)) && (k == 0 ==> s == sub)
  {
    if k > 0 {
      PromptState(sub, n, k - 1);
      TotalDelayBelow(k - 1);
      assert DueTimes(n)[k - 1] == TotalDelay(k - 1);
      assert TotalDelay(k) == TotalDelay(k - 1) + RetryDelay(k);
    }
  }

  lemma PromptStreak(sub: Subscription, n: nat)
    requires Fresh(sub) && n <= 77
    ensures Streak(sub, DueTimes(n)) && AfterFailures(sub, DueTimes(n), n).status == Enabled
  {
    forall k | 0 <= k <= n
      ensures AfterFailures(sub, DueTimes(n), k).status == Enabled
      ensures AfterFailures(sub, DueTimes(n), k).nextAttempt <= TotalDelay(k)
    {
      PromptState(sub, n, k);
    }
  }

  lemma TotalDelayBelow(n: nat)
    requires n <= 76
    ensures TotalDelay(n) < DISABLE_AFTER_MS
  {
    TotalRises(n, 76);
    TotalDelayIs(76);
  }

  lemma {:induction false} TotalRises(m: nat, n: nat)
    requires m <= n
    ensures TotalDelay(m) <= TotalDelay(n)
    decreases n
  {
    if m < n {
      TotalRises(m, n - 1);
      RetryDelayIs(n - 1);
    }
  }
}
