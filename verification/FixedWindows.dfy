/** What the in-memory limiter answers, said of its calls alone: windows of 60 seconds,
    each opened by a charge, and at most the limit charged in each. */
module FixedWindows {
  import opened Arith
  import opened Tables
  import opened RateWindows
  import opened RateLimiter

  /** When the latest window opened: one opens with the first attempt, and with each that
      comes 60 seconds or more after the last opened. */
  function Opened(first: Option<nat>, attempts: seq<nat>): Option<nat> {
    if attempts == [] then first
    else
      var w, t := Opened(first, attempts[..|attempts| - 1]), attempts[|attempts| - 1];
      if w.None? || t - w.value >= 60_000_000_000 then Some(t) else w
  }

  predicate StillOpen(since: Option<nat>, now: nat) {
    since.Some? && now - since.value < 60_000_000_000
  }

  /** Where the window of a call at `now` starts: the open one, or else a new one. */
  function WindowFor(since: Option<nat>, now: nat): nat {
    if StillOpen(since, now) then since.value else now
  }

  /** The whole seconds left of a window that opened at `start`, but at least one. */
  predicate Remaining(seconds: nat, start: nat, now: nat) {
    && seconds >= 1 && (seconds == 1 || now + 1_000_000_000 * seconds <= start + 60_000_000_000)
    && start + 60_000_000_000 < now + 1_000_000_000 * (seconds + 1)
  }

  /** When `key` was checked or recorded. */
  function Attempts(calls: seq<Call>, key: Key): seq<nat> {
    if calls == [] then []
    else
      var call := calls[|calls| - 1];
      Attempts(calls[..|calls| - 1], key) + if call.key == key && !call.Peek? then [call.now] else []
  }

  /** When `key` was charged: by a check that was admitted, or by a record. */
  function Charges(limit: nat, calls: seq<Call>, key: Key): seq<nat> {
    if calls == [] then []
    else
      var call := calls[|calls| - 1];
      Charges(limit, calls[..|calls| - 1], key)
      + if call.key == key && (call.Record? || (call.Check? && LastAnswer(limit, calls).Admit?)) then [call.now] else []
  }

  /** How often `key` has been charged in the window of a call at `now`. */
  function Used(limit: nat, calls: seq<Call>, key: Key, now: nat): nat {
    InSpan(Charges(limit, calls, key), WindowFor(Opened(None, Attempts(calls, key)), now))
  }

  // ------------------------------------------------------------- one counter

  /** A counter counts the charges of its window, and none came after that. */
  ghost predicate Tallies(b: Bucket, charges: seq<nat>) {
    (forall t :: t in charges ==> t < b.windowStart + WINDOW) && b.count == Min(InSpan(charges, b.windowStart), U32_MAX)
  }

  lemma RollTallies(b: Bucket, charges: seq<nat>, now: nat)
    requires Tallies(b, charges)
    ensures Tallies(Roll(b, now), charges)
  {
    if Expired(b, now) { CountNone(charges, now, now + WINDOW); }
  }

  lemma ChargeTallies(b: Bucket, charges: seq<nat>, limit: nat, now: nat)
    requires Tallies(b, charges) && b.windowStart <= now && limit <= U32_MAX
    ensures Tallies(Charged(b, limit, now), if Judge(Roll(b, now), limit, now).Admit? then charges + [now] else charges)
    ensures Tallies(Recorded(b, now), charges + [now])
  {
    RollTallies(b, charges, now);
    var start := Roll(b, now).windowStart;
    CountAppend(charges, now, start, start + WINDOW);
  }

  lemma RetryRemains(start: nat, now: nat)
    requires start <= now < start + WINDOW
    ensures Remaining(RetryAfter(Elapsed(now, start)), start, now)
  {
  }

  // ---------------------------------------------------------------- each key

  /** A key's counter, if it has one, stands for its latest window and tallies its charges. */
  ghost predicate KeyTallied(since: Option<nat>, charges: seq<nat>, buckets: Buckets, key: Key, now: nat) {
    if key in buckets
    then since == Some(buckets[key].windowStart) && buckets[key].windowStart <= now && Tallies(buckets[key], charges)
    else since == None && charges == []
  }

  lemma OpenedGrows(first: Option<nat>, attempts: seq<nat>, t: nat)
    ensures Opened(first, attempts + [t])
         == if StillOpen(Opened(first, attempts), t) then Opened(first, attempts) else Some(t)
  {
    assert (attempts + [t])[..|attempts|] == attempts;
  }

  /** A check or a record of a key. */
  lemma AttemptTallied(since: Option<nat>, charges: seq<nat>, buckets: Buckets, key: Key, limit: nat, now: nat)
    requires KeyTallied(since, charges, buckets, key, now) && limit <= U32_MAX
    ensures var since' := if StillOpen(since, now) then since else Some(now);
            var b := BucketOf(buckets, key, now);
            && KeyTallied(since', if Judge(Roll(b, now), limit, now).Admit? then charges + [now] else charges,
                          buckets[key := Charged(b, limit, now)], key, now)
            && KeyTallied(since', charges + [now], buckets[key := Recorded(b, now)], key, now)
  {
    ChargeTallies(BucketOf(buckets, key, now), charges, limit, now);
  }

  lemma CallTallied(limit: nat, calls: seq<Call>, key: Key, buckets: Buckets)
    requires calls != [] && limit <= U32_MAX
    requires var before, call := calls[..|calls| - 1], calls[|calls| - 1];
             && KeyTallied(Opened(None, Attempts(before, key)), Charges(limit, before, key), buckets, key, call.now)
             && LastAnswer(limit, calls) == Answer(limit, buckets, call)
    ensures KeyTallied(Opened(None, Attempts(calls, key)), Charges(limit, calls, key),
                       After(limit, buckets, calls[|calls| - 1]), key, calls[|calls| - 1].now)
  {
    var before, call := calls[..|calls| - 1], calls[|calls| - 1];
    var attempts, charges := Attempts(before, key), Charges(limit, before, key);
    assert attempts + [] == attempts && charges + [] == charges;
    if call.key == key && !call.Peek? {
      OpenedGrows(None, attempts, call.now);
      AttemptTallied(Opened(None, attempts), charges, buckets, key, limit, call.now);
    }
  }

  lemma {:induction false} RunTallied(limit: nat, calls: seq<Call>, key: Key, now: nat)
    requires InTime(calls) && limit <= U32_MAX && (calls != [] ==> calls[|calls| - 1].now <= now)
    ensures KeyTallied(Opened(None, Attempts(calls, key)), Charges(limit, calls, key), RunPlain(limit, calls), key, now)
  {
    if calls != [] {
      RunTallied(limit, calls[..|calls| - 1], key, calls[|calls| - 1].now);
      PruningIsInvisible(limit, calls);
      CallTallied(limit, calls, key, RunPlain(limit, calls[..|calls| - 1]));
    }
  }

  /** What a call is answered, by the charges of its window. */
  ghost predicate AnsweredBy(v: Verdict, call: Call, since: Option<nat>, used: nat, limit: nat) {
    && (v.Admit? <==> used < limit || call.Record? || (call.Peek? && !StillOpen(since, call.now)))
    && (v.Reject? ==> Remaining(v.retryAfter, WindowFor(since, call.now), call.now))
  }

  lemma CallAnswered(since: Option<nat>, charges: seq<nat>, buckets: Buckets, limit: nat, call: Call)
    requires KeyTallied(since, charges, buckets, call.key, call.now) && limit <= U32_MAX
    ensures AnsweredBy(Answer(limit, buckets, call), call, since, InSpan(charges, WindowFor(since, call.now)), limit)
  {
    var b := BucketOf(buckets, call.key, call.now);
    RollTallies(b, charges, call.now);
    RetryRemains(Roll(b, call.now).windowStart, call.now);
  }

  /** For every sequence of calls in time order: a check is admitted exactly while its
      window has been charged less than the limit, a peek also when no window is open, a
      record always; and a refusal names the seconds left of that window. */
  lemma AnswersByCount(limit: nat, calls: seq<Call>)
    requires InTime(calls) && calls != [] && limit <= U32_MAX
    ensures var before, call := calls[..|calls| - 1], calls[|calls| - 1];
            AnsweredBy(LastAnswer(limit, calls), call, Opened(None, Attempts(before, call.key)),
                       Used(limit, before, call.key, call.now), limit)
  {
    var before, call := calls[..|calls| - 1], calls[|calls| - 1];
    RunTallied(limit, before, call.key, call.now);
    PruningIsInvisible(limit, calls);
    CallAnswered(Opened(None, Attempts(before, call.key)), Charges(limit, before, call.key), RunPlain(limit, before), limit, call);
  }

  // --------------------------------------------------- the process-wide counter

  /** The counter after checks at the given times, and which of them were admitted. */
  function GlobalAfter(limit: nat, at: nat, nows: seq<nat>): Bucket {
    if nows == [] then Bucket(at, 0) else Charged(GlobalAfter(limit, at, nows[..|nows| - 1]), limit, nows[|nows| - 1])
  }

  function GlobalAnswer(limit: nat, at: nat, nows: seq<nat>): Verdict
    requires nows != []
  {
    Judge(Roll(GlobalAfter(limit, at, nows[..|nows| - 1]), nows[|nows| - 1]), limit, nows[|nows| - 1])
  }

  function Admitted(limit: nat, at: nat, nows: seq<nat>): seq<nat> {
    if nows == [] then []
    else Admitted(limit, at, nows[..|nows| - 1]) + if GlobalAnswer(limit, at, nows).Admit? then [nows[|nows| - 1]] else []
  }

  predicate Rising(at: nat, nows: seq<nat>) {
    nows == [] || (Rising(at, nows[..|nows| - 1]) && (if |nows| == 1 then at else nows[|nows| - 2]) <= nows[|nows| - 1])
  }

  lemma {:induction false} GlobalTallies(limit: nat, at: nat, nows: seq<nat>)
    requires Rising(at, nows) && limit <= U32_MAX
    ensures Tallies(GlobalAfter(limit, at, nows), Admitted(limit, at, nows))
    ensures Opened(Some(at), nows) == Some(GlobalAfter(limit, at, nows).windowStart)
    ensures GlobalAfter(limit, at, nows).windowStart <= if nows == [] then at else nows[|nows| - 1]
  {
    if nows != [] {
      var before, now := nows[..|nows| - 1], nows[|nows| - 1];
      GlobalTallies(limit, at, before);
      ChargeTallies(GlobalAfter(limit, at, before), Admitted(limit, at, before), limit, now);
      var admitted := Admitted(limit, at, before);
      assert admitted + [] == admitted;
    }
  }

  /** A check of the process-wide counter is admitted exactly while its window, the first
      of which opened when the process started, has admitted less than the limit. */
  lemma GlobalAnswersByCount(limit: nat, at: nat, nows: seq<nat>)
    requires Rising(at, nows) && nows != [] && limit <= U32_MAX
    ensures var before, now := nows[..|nows| - 1], nows[|nows| - 1];
            var start, v := WindowFor(Opened(Some(at), before), now), GlobalAnswer(limit, at, nows);
            && (v.Admit? <==> InSpan(Admitted(limit, at, before), start) < limit)
            && (v.Reject? ==> Remaining(v.retryAfter, start, now))
  {
    var before, now := nows[..|nows| - 1], nows[|nows| - 1];
    GlobalTallies(limit, at, before);
    RollTallies(GlobalAfter(limit, at, before), Admitted(limit, at, before), now);
    RetryRemains(Roll(GlobalAfter(limit, at, before), now).windowStart, now);
  }
}
