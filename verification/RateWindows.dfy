/** One fixed-window counter: charging, rolling over, and how many admissions fit a span. */
module RateWindows {
  import opened Arith

  // Times are nanoseconds of a monotonic clock.
  const SECOND := 1_000_000_000
  const WINDOW := 60 * SECOND

  datatype Bucket = Bucket(windowStart: nat, count: nat)

  /** A limiter backend's answer. */
  datatype Decision = Allow | Deny(retryAfter: nat) | Unavailable

  datatype Verdict = Admit | Reject(retryAfter: nat)

  /** Time since `start`, zero if that lies ahead. */
  function Elapsed(now: nat, start: nat): nat {
    if now < start then 0 else now - start
  }

  predicate Expired(b: Bucket, now: nat) {
    Elapsed(now, b.windowStart) >= WINDOW
  }

  function RetryAfter(elapsed: nat): nat {
    var left := if elapsed < WINDOW then (WINDOW - elapsed) / SECOND else 0;
    if left < 1 then 1 else left
  }

  function Roll(b: Bucket, now: nat): Bucket {
    if Expired(b, now) then Bucket(now, 0) else b
  }

  function Judge(b: Bucket, limit: nat, now: nat): Verdict {
    if b.count >= limit then Reject(RetryAfter(Elapsed(now, b.windowStart))) else Admit
  }

  /** The counter after a check. */
  function Charged(b: Bucket, limit: nat, now: nat): Bucket {
    var rolled := Roll(b, now);
    if rolled.count >= limit then rolled else rolled.(count := rolled.count + 1)
  }

  /** The counter after an unconditional charge. */
  function Recorded(b: Bucket, now: nat): Bucket {
    var rolled := Roll(b, now);
    rolled.(count := if rolled.count < U32_MAX then rolled.count + 1 else U32_MAX)
  }

  lemma RetryAfterInRange(b: Bucket, limit: nat, now: nat)
    ensures var v := Judge(Roll(b, now), limit, now); v.Reject? ==> 1 <= v.retryAfter <= 60
  {
  }

  // ------------------------------------------------------------------ counting

  /** How many of `times` lie in `[lo, hi)`. */
  function CountIn(times: seq<nat>, lo: int, hi: int): nat {
    if times == [] then 0
    else
      var last := times[|times| - 1];
      CountIn(times[..|times| - 1], lo, hi) + if lo <= last < hi then 1 else 0
  }

  /** How many of `times` lie in the half-open span of a window's length from `t`. */
  function InSpan(times: seq<nat>, t: int): nat {
    CountIn(times, t, t + WINDOW)
  }

  lemma CountAppend(times: seq<nat>, t: nat, lo: int, hi: int)
    ensures CountIn(times + [t], lo, hi) == CountIn(times, lo, hi) + if lo <= t < hi then 1 else 0
  {
    assert (times + [t])[..|times|] == times;
  }

  lemma {:induction false} CountSplits(times: seq<nat>, lo: int, mid: int, hi: int)
    requires lo <= mid <= hi
    ensures CountIn(times, lo, hi) == CountIn(times, lo, mid) + CountIn(times, mid, hi)
  {
    if times != [] { CountSplits(times[..|times| - 1], lo, mid, hi); }
  }

  lemma {:induction false} CountWider(times: seq<nat>, lo: int, hi: int, lo': int, hi': int)
    requires lo' <= lo && hi <= hi'
    ensures CountIn(times, lo, hi) <= CountIn(times, lo', hi')
  {
    if times != [] { CountWider(times[..|times| - 1], lo, hi, lo', hi'); }
  }

  lemma {:induction false} CountNone(times: seq<nat>, lo: int, hi: int)
    requires forall t :: t in times ==> t < lo || hi <= t
    ensures CountIn(times, lo, hi) == 0
  {
    if times != [] {
      var init, last := times[..|times| - 1], times[|times| - 1];
      assert times == init + [last];
      assert last in times;
      assert forall t :: t in init ==> t in times;
      CountNone(init, lo, hi);
    }
  }

  // --------------------------------------------------------------- admissions

  /** `times` are the admissions a counter has granted. The current window has granted
      no more than it counts, the window before it at most the limit, and any span of
      a window's length at most twice the limit. */
  ghost predicate Metered(times: seq<nat>, b: Bucket, limit: nat) {
    && (forall t :: t in times ==> t < b.windowStart + WINDOW)
    && CountIn(times, b.windowStart, b.windowStart + WINDOW) <= (if b.count < limit then b.count else limit)
    && (forall t :: b.windowStart - WINDOW < t <= b.windowStart ==> CountIn(times, t, b.windowStart) <= limit)
    && (forall t :: InSpan(times, t) <= 2 * limit)
  }

  lemma NothingMetered(b: Bucket, limit: nat)
    ensures Metered([], b, limit)
  {
  }

  lemma RollMetered(times: seq<nat>, b: Bucket, limit: nat, now: nat)
    requires Metered(times, b, limit)
    ensures Metered(times, Roll(b, now), limit)
  {
    if Expired(b, now) {
      CountNone(times, now, now + WINDOW);
      forall t | now - WINDOW < t <= now
        ensures CountIn(times, t, now) <= limit
      {
        CountNone(times, b.windowStart + WINDOW, now);
        CountWider(times, t, now, b.windowStart, now);
        CountSplits(times, b.windowStart, b.windowStart + WINDOW, now);
      }
    }
  }

  lemma AdmitMetered(times: seq<nat>, b: Bucket, limit: nat, now: nat)
    requires Metered(times, b, limit) && !Expired(b, now) && b.windowStart <= now && b.count < limit
    ensures Metered(times + [now], b.(count := b.count + 1), limit)
  {
    var times', start := times + [now], b.windowStart;
    CountAppend(times, now, start, start + WINDOW);
    forall t | start - WINDOW < t <= start
      ensures CountIn(times', t, start) <= limit
    {
      CountAppend(times, now, t, start);
    }
    forall t
      ensures InSpan(times', t) <= 2 * limit
    {
      CountAppend(times, now, t, t + WINDOW);
      assert InSpan(times, t) <= 2 * limit;
      if t <= now < t + WINDOW { SpanAcross(times, b, limit, t); }
    }
  }

  /** A span reaching into the current window holds this window's admissions and the last one's. */
  lemma SpanAcross(times: seq<nat>, b: Bucket, limit: nat, t: int)
    requires Metered(times, b, limit) && b.windowStart - WINDOW < t && b.count < limit
    ensures InSpan(times, t) + 1 <= 2 * limit
  {
    var start := b.windowStart;
    if t <= start {
      CountSplits(times, t, start, t + WINDOW);
      CountWider(times, start, t + WINDOW, start, start + WINDOW);
    } else {
      CountNone(times, start + WINDOW, t + WINDOW);
      CountWider(times, t, t + WINDOW, start, t + WINDOW);
      CountSplits(times, start, start + WINDOW, t + WINDOW);
    }
  }

  /** Checking a counter keeps it metered, whatever the check answers. */
  lemma ChargeMetered(times: seq<nat>, b: Bucket, limit: nat, now: nat)
    requires Metered(times, b, limit) && b.windowStart <= now
    ensures Metered(if Judge(Roll(b, now), limit, now).Admit? then times + [now] else times, Charged(b, limit, now), limit)
    ensures Charged(b, limit, now).windowStart <= now
  {
    RollMetered(times, b, limit, now);
    if Roll(b, now).count < limit { AdmitMetered(times, Roll(b, now), limit, now); }
  }

  lemma RecordMetered(times: seq<nat>, b: Bucket, limit: nat, now: nat)
    requires Metered(times, b, limit) && b.windowStart <= now && limit <= U32_MAX
    ensures Metered(times, Recorded(b, now), limit) && Recorded(b, now).windowStart <= now
  {
    RollMetered(times, b, limit, now);
  }
}
