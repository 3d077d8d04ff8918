/** Failure streaks of the delivery system: what backoff and disabling come to for a
    subscription whose attempts, by whatever replicas, keep failing. */
module HintStreaks {
  import opened Tables
  import opened Subscriptions
  import opened HintSchedule
  import opened HintDelivery

  /** A finish on `id` that takes effect. */
  ghost predicate KeptFinish(w: World, step: HintStep, id: SubId) {
    && step.Finish? && step.att in w.attempts && w.attempts[step.att].pc.Finishing?
    && w.attempts[step.att].sub == id && Keeps(w, w.attempts[step.att])
  }

  function AttemptOf(w: World, step: HintStep): Attempt
    requires step.Finish? && step.att in w.attempts
  {
    w.attempts[step.att]
  }

  /** Step `k` is a kept finish on `id` that records a failure. */
  ghost predicate FailsAt(worlds: seq<World>, steps: seq<HintStep>, id: SubId, k: nat)
    requires |worlds| == |steps| + 1
  {
    k < |steps| && KeptFinish(worlds[k], steps[k], id) && Fails(AttemptOf(worlds[k], steps[k]))
  }

  /** No kept finish on `id` from step `k` up to step `m`. */
  ghost predicate NoFinish(worlds: seq<World>, steps: seq<HintStep>, id: SubId, k: int, m: int)
    requires |worlds| == |steps| + 1
  {
    forall q :: k <= q < m && 0 <= q < |steps| ==> !KeptFinish(worlds[q], steps[q], id)
  }

  ghost predicate Consecutive(worlds: seq<World>, steps: seq<HintStep>, id: SubId, k: nat, m: nat)
    requires |worlds| == |steps| + 1
  {
    k < m && NoFinish(worlds, steps, id, k + 1, m)
  }

  /** `at` are the steps of consecutive kept finishes on `id`, all of them failures, the
      first by an attempt that found the subscription healthy. */
  ghost predicate FailureRun(worlds: seq<World>, steps: seq<HintStep>, id: SubId, at: seq<nat>) {
    && |worlds| == |steps| + 1 && |at| > 0
    && (forall j :: 0 <= j < |at| ==> FailsAt(worlds, steps, id, at[j]))
    && (forall j {:trigger Consecutive(worlds, steps, id, at[j - 1], at[j])} :: 0 < j < |at| ==>
          Consecutive(worlds, steps, id, at[j - 1], at[j]))
    && var first := AttemptOf(worlds[at[0]], steps[at[0]]).row;
       first.failingSince.None? && first.attempts == 0
  }

  /** The attempt that recorded the `j`-th failure, and when. */
  ghost function FailedAttempt(worlds: seq<World>, steps: seq<HintStep>, id: SubId, at: seq<nat>, j: nat): Attempt
    requires FailureRun(worlds, steps, id, at) && j < |at|
  {
    AttemptOf(worlds[at[j]], steps[at[j]])
  }

  ghost function FailureTimes(worlds: seq<World>, steps: seq<HintStep>, id: SubId, at: seq<nat>): (times: seq<int>)
    requires FailureRun(worlds, steps, id, at)
    ensures |times| == |at| && forall j :: 0 <= j < |at| ==> times[j] == FailedAttempt(worlds, steps, id, at, j).clock
  {
    seq(|at|, j requires 0 <= j < |at| => FailedAttempt(worlds, steps, id, at, j).clock)
  }

  // ------------------------------------------------------ between two finishes

  /** The same row but for its lease. */
  predicate SameRow(a: Subscription, b: Subscription) {
    a.(lease := None) == b.(lease := None)
  }

  lemma StepKeepsRow(w: World, step: HintStep, w': World, id: SubId)
    requires KnownIds(w) && Takes(w, step, w') && id in w.subs && id in w'.subs && !KeptFinish(w, step, id)
    ensures SameRow(w.subs[id], w'.subs[id])
  {
  }

  /** A subscription still there at a step was there before it, with the same row. */
  lemma RunKeepsRow(worlds: seq<World>, steps: seq<HintStep>, id: SubId, m: nat)
    requires HintRun(worlds, steps) && 0 < m < |worlds| && id in worlds[m - 1].born && id in worlds[m].subs
    requires !KeptFinish(worlds[m - 1], steps[m - 1], id)
    ensures id in worlds[m - 1].subs && SameRow(worlds[m - 1].subs[id], worlds[m].subs[id])
  {
    RunKeeps(worlds, steps, m - 1);
    assert StepAt(worlds, steps, m - 1);
    NoRevival(worlds[m - 1], steps[m - 1], worlds[m], id);
    StepKeepsRow(worlds[m - 1], steps[m - 1], worlds[m], id);
  }

  lemma StaysBorn(worlds: seq<World>, steps: seq<HintStep>, id: SubId, k: nat, m: nat)
    requires HintRun(worlds, steps) && k <= m < |worlds| && id in worlds[k].subs
    ensures id in worlds[m].born
  {
    RunKeeps(worlds, steps, k);
    RunRises(worlds, steps, k, m, id);
  }

  lemma {:induction false} RowKept(worlds: seq<World>, steps: seq<HintStep>, id: SubId, k: nat, m: nat)
    requires HintRun(worlds, steps) && k <= m < |worlds| && NoFinish(worlds, steps, id, k, m)
    requires id in worlds[k].subs && id in worlds[m].subs
    ensures SameRow(worlds[k].subs[id], worlds[m].subs[id])
    decreases m
  {
    if k < m {
      StaysBorn(worlds, steps, id, k, m - 1);
      RunKeepsRow(worlds, steps, id, m);
      RowKept(worlds, steps, id, k, m - 1);
    }
  }

  // ---------------------------------------------------------------- the streak

  /** The lease plays no part in what a failure writes. */
  lemma LeaseIsForgotten(a: Subscription, b: Subscription, now: int)
    requires SameRow(a, b)
    ensures Finished(a, RetryOrDisable(a, now)) == Finished(b, RetryOrDisable(b, now))
  {
  }

  /** A kept finish replaces the row as claimed by the attempt's outcome. */
  lemma FinishWrites(w: World, att: AttemptId, w': World)
    requires WorldInv(w) && FinishStep(w, att, w') && Keeps(w, w.attempts[att])
    ensures var a := w.attempts[att];
            && w.subs[a.sub] == a.row && a.row.status == Enabled && a.row.nextAttempt <= a.clock
            && a.sub in w'.subs && w'.subs[a.sub] == Finished(a.row, a.pc.progress)
            && (Fails(a) || Clears(a.pc.progress) || a.pc.progress.status == Disabled)
  {
    var a := w.attempts[att];
    assert PcOk(w.snap, w.delivered[a.sub], a);
    FinishMovesOn(w, att, w');
  }

  /** A failing finish writes the failure's outcome over the row it was claimed with. */
  lemma FailureWrites(worlds: seq<World>, steps: seq<HintStep>, id: SubId, at: seq<nat>, j: nat)
    requires HintRun(worlds, steps) && FailureRun(worlds, steps, id, at) && j < |at|
    ensures var a, w, w' := FailedAttempt(worlds, steps, id, at, j), worlds[at[j]], worlds[at[j] + 1];
            && id in w.subs && w.subs[id] == a.row && a.row.status == Enabled && a.row.nextAttempt <= a.clock
            && id in w'.subs && w'.subs[id] == Finished(a.row, RetryOrDisable(a.row, a.clock))
  {
    var k := at[j];
    assert FailsAt(worlds, steps, id, k);
    RunKeeps(worlds, steps, k);
    assert StepAt(worlds, steps, k);
    FinishWrites(worlds[k], steps[k].att, worlds[k + 1]);
  }

  /** An attempt of the run was claimed on the row the failure before it left. */
  lemma ClaimedAfter(worlds: seq<World>, steps: seq<HintStep>, id: SubId, at: seq<nat>, j: nat)
    requires HintRun(worlds, steps) && FailureRun(worlds, steps, id, at) && 0 < j < |at|
    ensures id in worlds[at[j - 1] + 1].subs
    ensures SameRow(worlds[at[j - 1] + 1].subs[id], FailedAttempt(worlds, steps, id, at, j).row)
  {
    assert Consecutive(worlds, steps, id, at[j - 1], at[j]);
    FailureWrites(worlds, steps, id, at, j - 1);
    FailureWrites(worlds, steps, id, at, j);
    RowKept(worlds, steps, id, at[j - 1] + 1, at[j]);
  }

  lemma {:induction false} StreakRow(worlds: seq<World>, steps: seq<HintStep>, id: SubId, at: seq<nat>, j: nat)
    requires HintRun(worlds, steps) && FailureRun(worlds, steps, id, at) && j < |at|
    ensures var first, times := FailedAttempt(worlds, steps, id, at, 0).row, FailureTimes(worlds, steps, id, at);
            && SameRow(FailedAttempt(worlds, steps, id, at, j).row, AfterFailures(first, times, j))
            && id in worlds[at[j] + 1].subs && worlds[at[j] + 1].subs[id] == AfterFailures(first, times, j + 1)
  {
    var first, times := FailedAttempt(worlds, steps, id, at, 0).row, FailureTimes(worlds, steps, id, at);
    if j > 0 {
      StreakRow(worlds, steps, id, at, j - 1);
      ClaimedAfter(worlds, steps, id, at, j);
    }
    FailureWrites(worlds, steps, id, at, j);
    LeaseIsForgotten(FailedAttempt(worlds, steps, id, at, j).row, AfterFailures(first, times, j), times[j]);
  }

  /** Consecutive failures of one subscription are a streak of its schedule. */
  lemma WorkerStreak(worlds: seq<World>, steps: seq<HintStep>, id: SubId, at: seq<nat>)
    requires HintRun(worlds, steps) && FailureRun(worlds, steps, id, at)
    ensures Streak(FailedAttempt(worlds, steps, id, at, 0).row, FailureTimes(worlds, steps, id, at))
  {
    var first, times := FailedAttempt(worlds, steps, id, at, 0).row, FailureTimes(worlds, steps, id, at);
    forall k | 0 <= k < |times|
      ensures AfterFailures(first, times, k).status == Enabled && AfterFailures(first, times, k).nextAttempt <= times[k]
    {
      StreakRow(worlds, steps, id, at, k);
      FailureWrites(worlds, steps, id, at, k);
    }
    FailureWrites(worlds, steps, id, at, 0);
  }

  lemma LastFailureRow(worlds: seq<World>, steps: seq<HintStep>, id: SubId, at: seq<nat>)
    requires HintRun(worlds, steps) && FailureRun(worlds, steps, id, at)
    ensures var first, times, last := FailedAttempt(worlds, steps, id, at, 0).row, FailureTimes(worlds, steps, id, at), at[|at| - 1];
            |times| == |at| && id in worlds[last + 1].subs && worlds[last + 1].subs[id] == AfterFailures(first, times, |times|)
  {
    StreakRow(worlds, steps, id, at, |at| - 1);
  }

  // ----------------------------------------------------------------- theorems

  /** The worker disables a failing subscription at the first recorded failure that is
      72 hours past the first of its streak, and no sooner; a streak has at most 78
      recorded failures, and the 78th disables. Clocks are those of the attempts that
      recorded the failures, on whatever replicas. */
  lemma WorkerDisables(worlds: seq<World>, steps: seq<HintStep>, id: SubId, at: seq<nat>)
    requires HintRun(worlds, steps) && FailureRun(worlds, steps, id, at)
    ensures var last, times := |at| - 1, FailureTimes(worlds, steps, id, at);
            && id in worlds[at[last] + 1].subs
            && (worlds[at[last] + 1].subs[id].status == Disabled <==> times[last] - times[0] >= DISABLE_AFTER_MS)
            && |at| <= 78 && (|at| == 78 ==> worlds[at[last] + 1].subs[id].status == Disabled)
  {
    var first, times := FailedAttempt(worlds, steps, id, at, 0).row, FailureTimes(worlds, steps, id, at);
    WorkerStreak(worlds, steps, id, at);
    LastFailureRow(worlds, steps, id, at);
    DisabledExactlyAfter72Hours(first, times);
    DisabledBy78th(first, times);
  }

  /** An undelivered hint and a secret under an unknown key are recorded as failures. */
  lemma FailuresAreRecorded(a: Attempt, head: nat, now: int)
    ensures Fails(AfterResponse(a, head, false, now)) && Fails(AfterUnseal(a, head, UnknownKey, now))
  {
  }

  /** Every other kept finish ends the streak: it clears the failures or disables. */
  lemma OtherwiseStreakEnds(worlds: seq<World>, steps: seq<HintStep>, id: SubId, k: nat)
    requires HintRun(worlds, steps) && k < |steps| && KeptFinish(worlds[k], steps[k], id)
    requires !Fails(AttemptOf(worlds[k], steps[k]))
    ensures id in worlds[k + 1].subs
    ensures var row := worlds[k + 1].subs[id]; row.status == Disabled || (row.failingSince.None? && row.attempts == 0)
  {
    RunKeeps(worlds, steps, k);
    assert StepAt(worlds, steps, k);
    FinishWrites(worlds[k], steps[k].att, worlds[k + 1]);
  }
}
