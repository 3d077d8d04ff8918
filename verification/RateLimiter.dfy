/** The in-memory limiter: a counter per key, expired counters pruned when the map
    has doubled, and a process-wide ceiling. */
module RateLimiter {
  import opened Arith
  import opened RateWindows

  const PRUNE_AT := 4096

  type Key = string
  type Buckets = map<Key, Bucket>

  /** The per-key counters and the size that triggers the next prune. */
  datatype Ledger = Ledger(buckets: Buckets, threshold: nat)

  datatype Call =
    | Check(key: Key, now: nat)
    | Record(key: Key, now: nat)
    | Peek(key: Key, now: nat)

  const EMPTY_LEDGER := Ledger(map[], PRUNE_AT)

  function BucketOf(buckets: Buckets, key: Key, now: nat): Bucket {
    if key in buckets then buckets[key] else Bucket(now, 0)
  }

  // ------------------------------------------------------------- never pruning

  /** What a call answers, given the counters it finds. */
  function Answer(limit: nat, buckets: Buckets, call: Call): Verdict {
    match call
    case Check(key, now) => Judge(Roll(BucketOf(buckets, key, now), now), limit, now)
    case Record(key, now) => Admit
    case Peek(key, now) =>
      if key !in buckets || Expired(buckets[key], now) then Admit else Judge(buckets[key], limit, now)
  }

  /** The counters after a call that prunes nothing. */
  function After(limit: nat, buckets: Buckets, call: Call): Buckets {
    match call
    case Check(key, now) => buckets[key := Charged(BucketOf(buckets, key, now), limit, now)]
    case Record(key, now) => buckets[key := Recorded(BucketOf(buckets, key, now), now)]
    case Peek(key, now) => buckets
  }

  // ------------------------------------------------------------------- pruning

  predicate PruneDue(s: Ledger, call: Call) {
    !call.Peek? && |s.buckets| >= s.threshold
  }

  function Live(buckets: Buckets, now: nat): Buckets {
    map k | k in buckets && !Expired(buckets[k], now) :: buckets[k]
  }

  function Doubled(n: nat): nat {
    if 2 * n < PRUNE_AT then PRUNE_AT else 2 * n
  }

  function Pruned(s: Ledger, call: Call): Ledger {
    if PruneDue(s, call) then
      var live := Live(s.buckets, call.now);
      Ledger(live, Doubled(|live|))
    else s
  }

  function Step(limit: nat, s: Ledger, call: Call): Ledger {
    var p := Pruned(s, call);
    p.(buckets := After(limit, p.buckets, call))
  }

  /** Map entries a call scans, and entries it adds. */
  function Scans(s: Ledger, call: Call): nat {
    if PruneDue(s, call) then |s.buckets| else 0
  }

  function Adds(s: Ledger, call: Call): nat {
    if call.Peek? || call.key in Pruned(s, call).buckets then 0 else 1
  }

  // --------------------------------------------------------------- whole runs

  function Run(limit: nat, calls: seq<Call>): Ledger {
    if calls == [] then EMPTY_LEDGER
    else Step(limit, Run(limit, calls[..|calls| - 1]), calls[|calls| - 1])
  }

  function RunPlain(limit: nat, calls: seq<Call>): Buckets {
    if calls == [] then map[]
    else After(limit, RunPlain(limit, calls[..|calls| - 1]), calls[|calls| - 1])
  }

  /** The answer to the last of `calls`. */
  function LastAnswer(limit: nat, calls: seq<Call>): Verdict
    requires calls != []
  {
    var before := Run(limit, calls[..|calls| - 1]);
    Answer(limit, Pruned(before, calls[|calls| - 1]).buckets, calls[|calls| - 1])
  }

  function LastPlainAnswer(limit: nat, calls: seq<Call>): Verdict
    requires calls != []
  {
    Answer(limit, RunPlain(limit, calls[..|calls| - 1]), calls[|calls| - 1])
  }

  predicate InTime(calls: seq<Call>) {
    forall i, j :: 0 <= i < j < |calls| ==> calls[i].now <= calls[j].now
  }

  function TotalScans(limit: nat, calls: seq<Call>): nat {
    if calls == [] then 0
    else
      var before := calls[..|calls| - 1];
      TotalScans(limit, before) + Scans(Run(limit, before), calls[|calls| - 1])
  }

  function TotalAdds(limit: nat, calls: seq<Call>): nat {
    if calls == [] then 0
    else
      var before := calls[..|calls| - 1];
      TotalAdds(limit, before) + Adds(Run(limit, before), calls[|calls| - 1])
  }

  // ----------------------------------------------------- pruning is invisible

  /** The pruned counters are the full ones, less some that had expired by `now`. */
  ghost predicate Hides(buckets: Buckets, plain: Buckets, now: nat) {
    && (forall k :: k in buckets ==> k in plain && plain[k] == buckets[k])
    && (forall k :: k in plain && k !in buckets ==> Expired(plain[k], now))
  }

  lemma PruneHides(s: Ledger, plain: Buckets, call: Call)
    requires Hides(s.buckets, plain, call.now)
    ensures Hides(Pruned(s, call).buckets, plain, call.now)
  {
  }

  /** An expired counter and an absent one answer alike and become the same. */
  lemma CallHides(limit: nat, buckets: Buckets, plain: Buckets, call: Call)
    requires Hides(buckets, plain, call.now)
    ensures Answer(limit, buckets, call) == Answer(limit, plain, call)
    ensures Hides(After(limit, buckets, call), After(limit, plain, call), call.now)
  {
    if call.key in plain && call.key !in buckets {
      assert Roll(plain[call.key], call.now) == Roll(Bucket(call.now, 0), call.now);
    }
  }

  lemma HidesLater(buckets: Buckets, plain: Buckets, now: nat, later: nat)
    requires Hides(buckets, plain, now) && now <= later
    ensures Hides(buckets, plain, later)
  {
  }

  lemma {:induction false} RunHides(limit: nat, calls: seq<Call>)
    requires InTime(calls)
    ensures Hides(Run(limit, calls).buckets, RunPlain(limit, calls), if calls == [] then 0 else calls[|calls| - 1].now)
  {
    if calls != [] {
      var before, call := calls[..|calls| - 1], calls[|calls| - 1];
      RunHides(limit, before);
      var s, plain := Run(limit, before), RunPlain(limit, before);
      HidesLater(s.buckets, plain, if before == [] then 0 else before[|before| - 1].now, call.now);
      PruneHides(s, plain, call);
      CallHides(limit, Pruned(s, call).buckets, plain, call);
    }
  }

  /** For every sequence of calls in time order, every call is answered as by a
      limiter that never prunes. */
  lemma PruningIsInvisible(limit: nat, calls: seq<Call>)
    requires InTime(calls) && calls != []
    ensures LastAnswer(limit, calls) == LastPlainAnswer(limit, calls)
  {
    var before, call := calls[..|calls| - 1], calls[|calls| - 1];
    RunHides(limit, before);
    var s, plain := Run(limit, before), RunPlain(limit, before);
    HidesLater(s.buckets, plain, if before == [] then 0 else before[|before| - 1].now, call.now);
    PruneHides(s, plain, call);
    CallHides(limit, Pruned(s, call).buckets, plain, call);
  }

  // ---------------------------------------------------------- pruning is cheap

  lemma AddedSize(limit: nat, s: Ledger, call: Call)
    ensures |Step(limit, s, call).buckets| == |Pruned(s, call).buckets| + Adds(s, call)
  {
    var before := Pruned(s, call).buckets;
    var after := After(limit, before, call);
    if !call.Peek? {
      assert after.Keys == before.Keys + {call.key};
      assert |after| == |after.Keys| && |before| == |before.Keys|;
    }
  }

  lemma LiveSize(buckets: Buckets, now: nat)
    ensures |Live(buckets, now)| <= |buckets|
  {
    var live := Live(buckets, now);
    var gone := buckets.Keys - live.Keys;
    assert buckets.Keys == live.Keys + gone;
    assert |buckets.Keys| == |live.Keys| + |gone|;
  }

  /** The map stays within the threshold, and the scanning so far is paid for by
      insertions, with the room left below the threshold as credit. */
  predicate Paid(s: Ledger, scans: nat, adds: nat) {
    && |s.buckets| <= s.threshold && PRUNE_AT <= s.threshold
    && scans <= 2 * adds && |s.buckets| <= adds && (adds < 4096 ==> scans == 0)
    && scans + 2 * |s.buckets| <= 2 * adds + s.threshold
  }

  lemma StepPaid(limit: nat, s: Ledger, call: Call, scans: nat, adds: nat)
    requires Paid(s, scans, adds)
    ensures Paid(Step(limit, s, call), scans + Scans(s, call), adds + Adds(s, call))
  {
    AddedSize(limit, s, call);
    LiveSize(s.buckets, call.now);
  }

  /** Over any run: at most `threshold` keys are held, at most two entries are scanned
      for each key inserted, and none before 4096 have been. */
  lemma {:induction false} PruningIsCheap(limit: nat, calls: seq<Call>)
    ensures |Run(limit, calls).buckets| <= Run(limit, calls).threshold
    ensures TotalScans(limit, calls) <= 2 * TotalAdds(limit, calls)
    ensures TotalAdds(limit, calls) < 4096 ==> TotalScans(limit, calls) == 0
    ensures Paid(Run(limit, calls), TotalScans(limit, calls), TotalAdds(limit, calls))
  {
    if calls != [] {
      var before, call := calls[..|calls| - 1], calls[|calls| - 1];
      PruningIsCheap(limit, before);
      StepPaid(limit, Run(limit, before), call, TotalScans(limit, before), TotalAdds(limit, before));
    }
  }

  // ------------------------------------------------------------- span bounds

  /** When the checks for `key` were admitted. */
  function Admissions(limit: nat, calls: seq<Call>, key: Key): seq<nat> {
    if calls == [] then []
    else
      var call := calls[|calls| - 1];
      Admissions(limit, calls[..|calls| - 1], key)
      + if call.Check? && call.key == key && LastAnswer(limit, calls).Admit? then [call.now] else []
  }

  ghost predicate KeyMetered(times: seq<nat>, buckets: Buckets, key: Key, limit: nat, now: nat) {
    if key in buckets then Metered(times, buckets[key], limit) && buckets[key].windowStart <= now else times == []
  }

  lemma CallMetered(times: seq<nat>, buckets: Buckets, key: Key, limit: nat, call: Call)
    requires KeyMetered(times, buckets, key, limit, call.now) && limit <= U32_MAX
    ensures KeyMetered(times + if call.Check? && call.key == key && Answer(limit, buckets, call).Admit? then [call.now] else [],
                       After(limit, buckets, call), key, limit, call.now)
  {
    assert times + [] == times;
    if call.key == key && !call.Peek? {
      var b := BucketOf(buckets, key, call.now);
      if key !in buckets { NothingMetered(b, limit); }
      if call.Check? { ChargeMetered(times, b, limit, call.now); } else { RecordMetered(times, b, limit, call.now); }
    }
  }

  lemma {:induction false} RunMetered(limit: nat, calls: seq<Call>, key: Key)
    requires InTime(calls) && limit <= U32_MAX
    ensures KeyMetered(Admissions(limit, calls, key), RunPlain(limit, calls), key, limit, if calls == [] then 0 else calls[|calls| - 1].now)
  {
    if calls != [] {
      var before, call := calls[..|calls| - 1], calls[|calls| - 1];
      RunMetered(limit, before, key);
      PruningIsInvisible(limit, calls);
      CallMetered(Admissions(limit, before, key), RunPlain(limit, before), key, limit, call);
    }
  }

  /** In any half-open span of 60 seconds a key is admitted at most twice the limit. */
  lemma SpanBound(limit: nat, calls: seq<Call>, key: Key, t: int)
    requires InTime(calls) && limit <= U32_MAX
    ensures InSpan(Admissions(limit, calls, key), t) <= 2 * limit
  {
    RunMetered(limit, calls, key);
  }

  // -------------------------------------------------------------- the object

  class AgentRateLimiter {
    const limit: nat
    const globalLimit: nat
    var buckets: Buckets
    var pruneThreshold: nat
    var global: Bucket

    constructor (limitPerMinute: nat, globalLimitPerMinute: nat, now: nat)
      ensures limit == limitPerMinute && globalLimit == globalLimitPerMinute
      ensures State() == EMPTY_LEDGER && global == Bucket(now, 0)
    {
      limit, globalLimit := limitPerMinute, globalLimitPerMinute;
      buckets, pruneThreshold, global := map[], PRUNE_AT, Bucket(now, 0);
    }

    function State(): Ledger
      reads this
    {
      Ledger(buckets, pruneThreshold)
    }

    method PruneIfDue(key: Key, now: nat)
      modifies `buckets, `pruneThreshold
      ensures State() == Pruned(old(State()), Check(key, now))
      ensures State() == Pruned(old(State()), Record(key, now))
    {
      if |buckets| < pruneThreshold { return; }
      ghost var before := buckets;
      var left := buckets.Keys;
      var kept: Buckets := map[];
      while left != {}
        invariant left <= before.Keys && buckets == before
        invariant kept == map k | k in before && k !in left && !Expired(before[k], now) :: before[k]
        decreases left
      {
        var k :| k in left;
        if !Expired(buckets[k], now) { kept := kept[k := buckets[k]]; }
        left := left - {k};
      }
      assert kept == Live(before, now);
      buckets := kept;
      pruneThreshold := Doubled(|kept|);
    }

    method CheckAt(key: Key, now: nat) returns (v: Verdict)
      modifies `buckets, `pruneThreshold
      ensures State() == Step(limit, old(State()), Check(key, now))
      ensures v == Answer(limit, Pruned(old(State()), Check(key, now)).buckets, Check(key, now))
    {
      PruneIfDue(key, now);
      var bucket := if key in buckets then buckets[key] else Bucket(now, 0);
      if Elapsed(now, bucket.windowStart) >= WINDOW { bucket := Bucket(now, 0); }
      if bucket.count >= limit {
        buckets := buckets[key := bucket];
        return Reject(RetryAfter(Elapsed(now, bucket.windowStart)));
      }
      buckets := buckets[key := bucket.(count := bucket.count + 1)];
      return Admit;
    }

    /** Reads only: an unverified caller leaves no trace. */
    method PeekAt(key: Key, now: nat) returns (v: Verdict)
      ensures v == Answer(limit, buckets, Peek(key, now))
      ensures State() == Step(limit, State(), Peek(key, now))
    {
      if key !in buckets { return Admit; }
      var bucket := buckets[key];
      if Elapsed(now, bucket.windowStart) >= WINDOW { return Admit; }
      if bucket.count >= limit { return Reject(RetryAfter(Elapsed(now, bucket.windowStart))); }
      return Admit;
    }

    method RecordAt(key: Key, now: nat)
      modifies `buckets, `pruneThreshold
      ensures State() == Step(limit, old(State()), Record(key, now))
    {
      PruneIfDue(key, now);
      var bucket := if key in buckets then buckets[key] else Bucket(now, 0);
      if Elapsed(now, bucket.windowStart) >= WINDOW { bucket := Bucket(now, 0); }
      buckets := buckets[key := bucket.(count := if bucket.count < U32_MAX then bucket.count + 1 else U32_MAX)];
    }

    /** The process-wide ceiling; the largest limit switches it off. */
    method CheckGlobalAt(now: nat) returns (v: Verdict)
      modifies `global
      ensures globalLimit == U32_MAX ==> v == Admit && global == old(global)
      ensures globalLimit != U32_MAX ==>
                v == Judge(Roll(old(global), now), globalLimit, now) && global == Charged(old(global), globalLimit, now)
    {
      if globalLimit == U32_MAX { return Admit; }
      if Elapsed(now, global.windowStart) >= WINDOW { global := Bucket(now, 0); }
      if global.count >= globalLimit { return Reject(RetryAfter(Elapsed(now, global.windowStart))); }
      global := global.(count := global.count + 1);
      return Admit;
    }
  }
}
