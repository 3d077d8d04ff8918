/** A claimed batch: its attempts share a fixed number of permits, and all of them
    end before the leases they were claimed under. */
module HintBatch {
  import Subscriptions

  const CLAIM_BATCH := 32
  const MAX_IN_FLIGHT := 16
  const ATTEMPT_TIMEOUT_MS := 20_000

  /** When an attempt had a permit, counted from the spawning of its batch. */
  datatype Turn = Turn(start: int, end: int)

  predicate Running(turn: Turn, t: int) {
    turn.start <= t < turn.end
  }

  /** The attempts holding a permit at `t`. */
  function Busy(turns: seq<Turn>, t: int): set<nat> {
    set i: nat | i < |turns| && Running(turns[i], t)
  }

  /** Each attempt is cut off `bound` after it gets its permit. */
  predicate Bounded(turns: seq<Turn>, bound: nat) {
    forall j :: 0 <= j < |turns| ==> 0 <= turns[j].start <= turns[j].end <= turns[j].start + bound
  }

  /** An attempt waits only while every permit is taken. */
  ghost predicate WorkConserving(turns: seq<Turn>, permits: nat) {
    forall j, t :: 0 <= j < |turns| && 0 <= t < turns[j].start ==> |Busy(turns, t)| == permits
  }

  /** The number of full rounds `n` attempts make with `k` permits, rounded up. */
  function Rounds(n: nat, k: nat): nat
    requires k > 0
  {
    (n + k - 1) / k
  }

  /** `m * k`, by addition. */
  function Times(m: nat, k: nat): nat {
    if m == 0 then 0 else Times(m - 1, k) + k
  }

  lemma {:induction false} TimesIs(m: nat, k: nat)
    ensures Times(m, k) == m * k
  {
    if m > 0 { TimesIs(m - 1, k); }
  }

  lemma {:induction false} TimesRises(i: nat, m: nat, k: nat)
    requires i <= m
    ensures Times(i, k) <= Times(m, k)
    decreases m
  {
    if i < m { TimesRises(i, m - 1, k); }
  }

  /** The attempts seen running at times 0, `bound`, 2 * `bound`, ... */
  function Sampled(turns: seq<Turn>, bound: nat, m: nat): set<nat> {
    if m == 0 then {} else Sampled(turns, bound, m - 1) + Busy(turns, Times(m - 1, bound))
  }

  lemma {:induction false} SampledStarted(turns: seq<Turn>, bound: nat, m: nat)
    requires Bounded(turns, bound)
    ensures forall i :: i in Sampled(turns, bound, m) ==> i < |turns| && turns[i].end <= Times(m, bound)
  {
    if m > 0 { SampledStarted(turns, bound, m - 1); }
  }

  /** Every permit is taken at the `i`-th sample. */
  predicate FullAt(turns: seq<Turn>, bound: nat, permits: nat, i: nat) {
    |Busy(turns, Times(i, bound))| == permits
  }

  predicate AllFull(turns: seq<Turn>, bound: nat, permits: nat, m: nat) {
    forall i: nat :: i < m ==> FullAt(turns, bound, permits, i)
  }

  lemma NoneSeenTwice(turns: seq<Turn>, bound: nat, m: nat)
    requires Bounded(turns, bound) && m > 0
    ensures |Sampled(turns, bound, m)| == |Sampled(turns, bound, m - 1)| + |Busy(turns, Times(m - 1, bound))|
  {
    SampledStarted(turns, bound, m - 1);
    assert Sampled(turns, bound, m - 1) !! Busy(turns, Times(m - 1, bound));
  }

  /** The permits taken at the first `m` samples. */
  function PermitsTaken(turns: seq<Turn>, bound: nat, m: nat): nat {
    if m == 0 then 0 else PermitsTaken(turns, bound, m - 1) + |Busy(turns, Times(m - 1, bound))|
  }

  lemma {:induction false} SampledCount(turns: seq<Turn>, bound: nat, m: nat)
    requires Bounded(turns, bound)
    ensures |Sampled(turns, bound, m)| == PermitsTaken(turns, bound, m)
  {
    if m > 0 {
      SampledCount(turns, bound, m - 1);
      NoneSeenTwice(turns, bound, m);
    }
  }

  lemma {:induction false} FullSamples(turns: seq<Turn>, bound: nat, permits: nat, m: nat)
    requires AllFull(turns, bound, permits, m)
    ensures PermitsTaken(turns, bound, m) == Times(m, permits)
  {
    if m > 0 {
      FullSamples(turns, bound, permits, m - 1);
      assert FullAt(turns, bound, permits, m - 1);
    }
  }

  function Below(n: nat): (r: set<nat>)
    ensures |r| == n && forall i: nat :: i in r <==> i < n
  {
    if n == 0 then {} else Below(n - 1) + {n - 1}
  }

  lemma SubsetSize(a: set<nat>, b: set<nat>)
    requires a <= b
    ensures |a| <= |b|
  {
    var rest := b - a;
    assert b == a + rest && a !! rest;
  }

  /** In any work-conserving order, the last of `n` attempts starts in the last round. */
  lemma StartsWithin(turns: seq<Turn>, bound: nat, permits: nat, j: nat)
    requires 0 < permits && Bounded(turns, bound) && WorkConserving(turns, permits) && j < |turns|
    ensures Rounds(|turns|, permits) > 0 && turns[j].start <= Times(Rounds(|turns|, permits) - 1, bound)
  {
    var n, m := |turns|, Rounds(|turns|, permits);
    assert Times(m, permits) >= n && m > 0 by {
      RoundsCover(n, permits);
      TimesIs(m, permits);
    }
    if turns[j].start > Times(m - 1, bound) {
      forall i: nat | i < m
        ensures FullAt(turns, bound, permits, i)
      {
        TimesRises(i, m - 1, bound);
      }
      SampledCount(turns, bound, m);
      FullSamples(turns, bound, permits, m);
      WaitsOutside(turns, bound, m, j);
      SubsetSize(Sampled(turns, bound, m) + {j}, Below(n));
    }
  }

  lemma RoundsCover(n: nat, k: nat)
    requires k > 0
    ensures Rounds(n, k) * k >= n && (n > 0 ==> Rounds(n, k) > 0)
  {
    var q, r := (n + k - 1) / k, (n + k - 1) % k;
    assert n + k - 1 == q * k + r && r < k;
  }

  /** An attempt that has not started by the last sample is in none. */
  lemma {:induction false} WaitsOutside(turns: seq<Turn>, bound: nat, m: nat, j: nat)
    requires Bounded(turns, bound) && j < |turns| && m > 0 && turns[j].start > Times(m - 1, bound)
    ensures forall i :: i in Sampled(turns, bound, m) ==> i < |turns|
    ensures j !in Sampled(turns, bound, m)
  {
    SampledStarted(turns, bound, m);
    if m > 1 { WaitsOutside(turns, bound, m - 1, j); }
  }

  /** `n` attempts sharing `k` permits, each holding one for at most `bound`, all end
      within ceil(n / k) rounds. */
  lemma BatchEndsWithin(turns: seq<Turn>, bound: nat, permits: nat, j: nat)
    requires 0 < permits && Bounded(turns, bound) && WorkConserving(turns, permits) && j < |turns|
    ensures turns[j].end <= Rounds(|turns|, permits) * bound
  {
    StartsWithin(turns, bound, permits, j);
    TimesIs(Rounds(|turns|, permits), bound);
  }

  // ------------------------------------------------------------------ the gate

  /** The semaphore at work: attempts wait, hold a permit, and end. */
  datatype Place = Waiting | Holding(since: nat) | Ended(since: nat, at: nat)

  datatype Gate = Gate(now: nat, places: seq<Place>)

  function Holders(g: Gate): set<nat> {
    set i: nat | i < |g.places| && g.places[i].Holding?
  }

  datatype GateStep = Acquire(i: nat) | Release(i: nat) | Tick

  /** Time passes only when no waiting attempt could have a permit, and never past the
      bound of an attempt that holds one. */
  predicate GateTakes(permits: nat, bound: nat, g: Gate, step: GateStep, g': Gate) {
    match step
    case Acquire(i) =>
      && i < |g.places| && g.places[i].Waiting? && |Holders(g)| < permits
      && g' == g.(places := g.places[i := Holding(g.now)])
    case Release(i) =>
      && i < |g.places| && g.places[i].Holding?
      && g' == g.(places := g.places[i := Ended(g.places[i].since, g.now)])
    case Tick =>
      && (|Holders(g)| == permits || forall i :: 0 <= i < |g.places| ==> !g.places[i].Waiting?)
      && (forall i :: 0 <= i < |g.places| && g.places[i].Holding? ==> g.now < g.places[i].since + bound)
      && g' == g.(now := g.now + 1)
  }

  ghost predicate GateRun(permits: nat, bound: nat, gates: seq<Gate>, steps: seq<GateStep>) {
    && |gates| == |steps| + 1 && gates[0].now == 0 && (forall i :: 0 <= i < |gates[0].places| ==> gates[0].places[i].Waiting?)
    && forall i {:trigger steps[i]} :: 0 <= i < |steps| ==> GateTakes(permits, bound, gates[i], steps[i], gates[i + 1])
  }

  /** An attempt's turn so far: one not yet started or ended is cut at the present. */
  function SoFar(now: nat, p: Place): Turn {
    match p
    case Waiting => Turn(now, now)
    case Holding(since) => Turn(since, now)
    case Ended(since, at) => Turn(since, at)
  }

  function TurnsSoFar(g: Gate): (turns: seq<Turn>)
    ensures |turns| == |g.places| && forall i :: 0 <= i < |turns| ==> turns[i] == SoFar(g.now, g.places[i])
  {
    seq(|g.places|, i requires 0 <= i < |g.places| => SoFar(g.now, g.places[i]))
  }

  predicate Timely(g: Gate, bound: nat) {
    forall i :: 0 <= i < |g.places| ==>
      match g.places[i]
      case Waiting => true
      case Holding(since) => since <= g.now <= since + bound
      case Ended(since, at) => since <= at <= g.now && at <= since + bound
  }

  /** At a past moment every permit was taken if some attempt had still to start. */
  ghost predicate FullBefore(g: Gate, permits: nat, t: int) {
    (exists j :: 0 <= j < |g.places| && t < TurnsSoFar(g)[j].start) ==> |Busy(TurnsSoFar(g), t)| == permits
  }

  ghost predicate GateOk(g: Gate, permits: nat, bound: nat) {
    Timely(g, bound) && forall t: nat :: t < g.now ==> FullBefore(g, permits, t)
  }

  /** Taking or giving back a permit rewrites nothing that is past. */
  lemma PastStays(g: Gate, g': Gate, t: nat)
    requires g'.now == g.now && |g'.places| == |g.places| && t < g.now
    requires forall i :: 0 <= i < |g.places| ==>
               && (Running(SoFar(g.now, g.places[i]), t) <==> Running(SoFar(g.now, g'.places[i]), t))
               && SoFar(g.now, g.places[i]).start == SoFar(g.now, g'.places[i]).start
    ensures Busy(TurnsSoFar(g'), t) == Busy(TurnsSoFar(g), t)
    ensures forall permits :: FullBefore(g, permits, t) ==> FullBefore(g', permits, t)
  {
    assert forall i :: 0 <= i < |g.places| ==> TurnsSoFar(g)[i].start == TurnsSoFar(g')[i].start;
    if exists j :: 0 <= j < |g'.places| && t < TurnsSoFar(g')[j].start {
      var j :| 0 <= j < |g'.places| && t < TurnsSoFar(g')[j].start;
      assert t < TurnsSoFar(g)[j].start;
    }
  }

  lemma PermitKeeps(permits: nat, bound: nat, g: Gate, step: GateStep, g': Gate)
    requires GateOk(g, permits, bound) && !step.Tick? && GateTakes(permits, bound, g, step, g')
    ensures GateOk(g', permits, bound)
  {
    forall t: nat | t < g'.now
      ensures FullBefore(g', permits, t)
    {
      PastStays(g, g', t);
    }
  }

  lemma TickKeeps(permits: nat, bound: nat, g: Gate, g': Gate)
    requires GateOk(g, permits, bound) && GateTakes(permits, bound, g, Tick, g')
    ensures GateOk(g', permits, bound)
  {
    forall t: nat | t < g'.now
      ensures FullBefore(g', permits, t)
    {
      if t < g.now {
        assert Busy(TurnsSoFar(g'), t) == Busy(TurnsSoFar(g), t);
        assert FullBefore(g, permits, t);
        if exists j :: 0 <= j < |g'.places| && t < TurnsSoFar(g')[j].start {
          var j :| 0 <= j < |g'.places| && t < TurnsSoFar(g')[j].start;
          assert t < TurnsSoFar(g)[j].start;
        }
      } else {
        assert Busy(TurnsSoFar(g'), t) == Holders(g);
      }
    }
  }

  lemma {:induction false} GateRunOk(permits: nat, bound: nat, gates: seq<Gate>, steps: seq<GateStep>, k: nat)
    requires GateRun(permits, bound, gates, steps) && k < |gates|
    ensures GateOk(gates[k], permits, bound) && |gates[k].places| == |gates[0].places|
  {
    if k > 0 {
      GateRunOk(permits, bound, gates, steps, k - 1);
      match steps[k - 1] {
        case Tick => TickKeeps(permits, bound, gates[k - 1], gates[k]);
        case _ => PermitKeeps(permits, bound, gates[k - 1], steps[k - 1], gates[k]);
      }
    }
  }

  /** Every run of the semaphore is work-conserving, so every attempt has ended, and
      ended by then, once ceil(n / k) bounds have passed. */
  lemma GateEmptiesInTime(permits: nat, bound: nat, gates: seq<Gate>, steps: seq<GateStep>, k: nat, j: nat)
    requires GateRun(permits, bound, gates, steps) && k < |gates| && 0 < permits && j < |gates[k].places|
    ensures var limit := Rounds(|gates[k].places|, permits) * bound;
            match gates[k].places[j]
            case Ended(_, at) => at <= limit
            case _ => gates[k].now <= limit
  {
    var g := gates[k];
    GateRunOk(permits, bound, gates, steps, k);
    var turns := TurnsSoFar(g);
    forall i, t | 0 <= i < |turns| && 0 <= t < turns[i].start
      ensures |Busy(turns, t)| == permits
    {
      assert FullBefore(g, permits, t);
    }
    BatchEndsWithin(turns, bound, permits, j);
  }

  /** A claimed batch: every attempt ends within 40 seconds, inside its lease, so no
      live worker loses its own. */
  lemma BatchFitsLease(gates: seq<Gate>, steps: seq<GateStep>, k: nat, j: nat)
    requires GateRun(MAX_IN_FLIGHT, ATTEMPT_TIMEOUT_MS, gates, steps) && k < |gates|
    requires |gates[k].places| <= CLAIM_BATCH && j < |gates[k].places|
    ensures match gates[k].places[j]
            case Ended(_, at) => at <= 40_000 < Subscriptions.LEASE_MS
            case _ => gates[k].now <= 40_000 < Subscriptions.LEASE_MS
  {
    GateEmptiesInTime(MAX_IN_FLIGHT, ATTEMPT_TIMEOUT_MS, gates, steps, k, j);
  }
}
