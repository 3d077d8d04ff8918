/** What an attempt's outcome does to its subscription, by the steps of the run: the
    clocks it read, the head it read, the answer and the response it got. */
module HintOutcomes {
  import opened Arith
  import opened Tables
  import opened FeedPaging
  import opened ChangesQuery
  import opened Subscriptions
  import opened HintSchedule
  import opened HintDelivery
  import opened HintStreaks

  // ----------------------------------------------------- following an attempt

  /** Once an attempt's outcome is settled, it stays so until the attempt is over. */
  ghost predicate Settled(w: World, att: AttemptId, a: Attempt) {
    att in w.attempts && (w.attempts[att] == a || w.attempts[att].pc.Over?)
  }

  lemma StepSettled(w: World, step: HintStep, w': World, att: AttemptId, a: Attempt)
    requires Takes(w, step, w') && Settled(w, att, a) && a.pc.Finishing?
    ensures Settled(w', att, a)
  {
  }

  lemma {:induction false} RunSettled(worlds: seq<World>, steps: seq<HintStep>, j: nat, k: nat, att: AttemptId)
    requires HintRun(worlds, steps) && j <= k < |worlds| && att in worlds[j].attempts && worlds[j].attempts[att].pc.Finishing?
    ensures Settled(worlds[k], att, worlds[j].attempts[att])
    decreases k
  {
    if j < k {
      RunSettled(worlds, steps, j, k - 1, att);
      assert StepAt(worlds, steps, k - 1);
      StepSettled(worlds[k - 1], steps[k - 1], worlds[k], att, worlds[j].attempts[att]);
    }
  }

  /** The head an attempt read goes with it to the hint. */
  predicate CarriesHead(w: World, att: AttemptId, h: nat) {
    && att in w.attempts
    && match w.attempts[att].pc
       case HaveHead(seen) => HeadOf(seen) == h
       case HasChange(x) => x == h
       case Sending(x) => x == h
       case Finishing(_, _) => true
       case Over => true
       case _ => false
  }

  lemma StepCarriesHead(w: World, step: HintStep, w': World, att: AttemptId, h: nat)
    requires Takes(w, step, w') && CarriesHead(w, att, h)
    ensures CarriesHead(w', att, h)
  {
  }

  lemma {:induction false} RunCarriesHead(worlds: seq<World>, steps: seq<HintStep>, i: nat, k: nat, att: AttemptId)
    requires HintRun(worlds, steps) && i < k < |worlds| && steps[i] == ReadHead(att)
    ensures CarriesHead(worlds[k], att, HeadOf(worlds[i].snap))
    decreases k
  {
    assert StepAt(worlds, steps, k - 1);
    if i + 1 < k {
      RunCarriesHead(worlds, steps, i, k - 1, att);
      StepCarriesHead(worlds[k - 1], steps[k - 1], worlds[k], att, HeadOf(worlds[i].snap));
    }
  }

  /** The clock an attempt began with stays its clock until it signs a hint. */
  predicate CarriesClock(w: World, att: AttemptId, t: int) {
    && att in w.attempts && !w.attempts[att].pc.Claimed?
    && (w.attempts[att].pc.Started? || w.attempts[att].pc.HaveHead? || w.attempts[att].pc.HasChange? ==> w.attempts[att].clock == t)
  }

  lemma StepCarriesClock(w: World, step: HintStep, w': World, att: AttemptId, t: int)
    requires Takes(w, step, w') && CarriesClock(w, att, t)
    ensures CarriesClock(w', att, t)
  {
  }

  lemma {:induction false} RunCarriesClock(worlds: seq<World>, steps: seq<HintStep>, b: nat, k: nat, att: AttemptId, t: int)
    requires HintRun(worlds, steps) && b < k < |worlds| && steps[b] == Begin(att, t, false)
    ensures CarriesClock(worlds[k], att, t)
    decreases k
  {
    assert StepAt(worlds, steps, k - 1);
    if b + 1 < k {
      RunCarriesClock(worlds, steps, b, k - 1, att, t);
      StepCarriesClock(worlds[k - 1], steps[k - 1], worlds[k], att, t);
    }
  }

  /** What a kept finish writes is what the attempt settled on, over the row it claimed. */
  lemma KeptWrites(worlds: seq<World>, steps: seq<HintStep>, j: nat, k: nat, att: AttemptId)
    requires HintRun(worlds, steps) && j <= k < |steps| && att in worlds[j].attempts && worlds[j].attempts[att].pc.Finishing?
    requires steps[k] == Finish(att) && att in worlds[k].attempts && Keeps(worlds[k], worlds[k].attempts[att])
    ensures var a := worlds[j].attempts[att];
            && a.sub in worlds[k].subs && worlds[k].subs[a.sub] == a.row
            && a.sub in worlds[k + 1].subs && worlds[k + 1].subs[a.sub] == Finished(a.row, a.pc.progress)
  {
    RunSettled(worlds, steps, j, k, att);
    assert StepAt(worlds, steps, k);
    RunKeeps(worlds, steps, k);
    FinishWrites(worlds[k], att, worlds[k + 1]);
  }

  // ---------------------------------------------------------------- delivered

  /** The subscription a finished attempt left behind. */
  ghost function RowAfter(worlds: seq<World>, k: nat, id: SubId): Subscription
    requires k + 1 < |worlds| && id in worlds[k + 1].subs
  {
    worlds[k + 1].subs[id]
  }

  /** A delivered hint moves the subscription to the head the attempt read, clears its
      failures, and makes it due again one second after the response. */
  lemma DeliveredMovesOn(worlds: seq<World>, steps: seq<HintStep>, i: nat, j: nat, k: nat, att: AttemptId, now: int)
    requires HintRun(worlds, steps) && i < j < k < |steps|
    requires steps[i] == ReadHead(att) && steps[j] == Respond(att, true, now) && steps[k] == Finish(att)
    requires att in worlds[k].attempts && Keeps(worlds[k], worlds[k].attempts[att])
    ensures att in worlds[j].attempts
    ensures worlds[j].attempts[att].sub in worlds[k].subs && worlds[j].attempts[att].sub in worlds[k + 1].subs
    ensures var id := worlds[j].attempts[att].sub;
            var row := RowAfter(worlds, k, id);
            && row.lastHinted == HeadOf(worlds[i].snap) && row.status == Enabled
            && row.failingSince == None && row.attempts == 0 && row.lease == None
            && row.nextAttempt == now + 1000 && row.owner == worlds[k].subs[id].owner
    ensures var id := worlds[j].attempts[att].sub;
            id in worlds[j + 1].delivered && HeadOf(worlds[i].snap) in worlds[j + 1].delivered[id]
  {
    RunCarriesHead(worlds, steps, i, j, att);
    assert StepAt(worlds, steps, j);
    KeptWrites(worlds, steps, j + 1, k, att);
  }

  // -------------------------------------------------------------- nothing found

  /** The answer an evaluation acted on. */
  function AnswerOf(step: HintStep): Answer
    requires step.Evaluate?
  {
    if step.first.Served? then step.first else step.second
  }

  /** An evaluation that finds nothing moves the subscription to the position it reached,
      clears its failures, and leaves it due from the clock the attempt began with. */
  lemma EmptyMovesOn(worlds: seq<World>, steps: seq<HintStep>, b: nat, j: nat, k: nat, att: AttemptId, began: int)
    requires HintRun(worlds, steps) && b < j < k < |steps|
    requires steps[b] == Begin(att, began, false) && steps[j].Evaluate? && steps[j].att == att && steps[k] == Finish(att)
    requires AnswerOf(steps[j]).Served? && AnswerOf(steps[j]).changes == []
    requires att in worlds[k].attempts && Keeps(worlds[k], worlds[k].attempts[att])
    ensures att in worlds[j].attempts && worlds[j].attempts[att].sub in worlds[k + 1].subs
    ensures var row := RowAfter(worlds, k, worlds[j].attempts[att].sub);
            && row.lastHinted == AnswerOf(steps[j]).pos && row.status == Enabled
            && row.failingSince == None && row.attempts == 0 && row.lease == None && row.nextAttempt == began
  {
    RunCarriesClock(worlds, steps, b, j, att, began);
    assert StepAt(worlds, steps, j);
    KeptWrites(worlds, steps, j + 1, k, att);
  }

  /** One that finds a change goes on to the hint, with the head read before. */
  lemma FoundIsHinted(worlds: seq<World>, steps: seq<HintStep>, i: nat, j: nat, att: AttemptId)
    requires HintRun(worlds, steps) && i < j < |steps| && steps[i] == ReadHead(att) && steps[j].Evaluate? && steps[j].att == att
    requires AnswerOf(steps[j]).Served? && AnswerOf(steps[j]).changes != []
    ensures att in worlds[j + 1].attempts && worlds[j + 1].attempts[att].pc == HasChange(HeadOf(worlds[i].snap))
  {
    RunCarriesHead(worlds, steps, i, j, att);
    assert StepAt(worlds, steps, j);
  }

  // ------------------------------------------------------------------ failures

  /** A recorded failure at `now` of a row: its place is kept; the streak dates from its
      first failure; 72 hours into it the subscription is disabled, and before that it is
      due again after a minute doubled for every failure so far, at most an hour. */
  ghost predicate RecordsFailure(row: Subscription, row': Subscription, now: int) {
    var since := if row.failingSince.Some? then row.failingSince.value else now;
    && row'.lastHinted == row.lastHinted && row'.owner == row.owner && row'.lease == None && row'.failingSince == Some(since)
    && if now - since >= 72 * 60 * 60 * 1000
       then row'.status == Disabled && row'.attempts == row.attempts && row'.nextAttempt == now
       else
         && row'.status == Enabled && row'.attempts == Min(row.attempts + 1, 0xFFFF_FFFF)
         && row'.nextAttempt == now + (if row'.attempts <= 6 then 60_000 * Pow2(row'.attempts - 1) else 3_600_000)
  }

  lemma RetryRecordsFailure(row: Subscription, now: int)
    ensures RecordsFailure(row, Finished(row, RetryOrDisable(row, now)), now)
  {
    var n := Min(row.attempts + 1, U32_MAX);
    RetryDelayIs(n - 1);
    SmallPowers();
    if n > 6 { PowGrows(6, n - 1); }
    if n <= 6 { PowGrows(n - 1, 5); }
  }

  /** A hint that was not answered with success is a failure at the response's clock. */
  lemma UndeliveredRecordsFailure(worlds: seq<World>, steps: seq<HintStep>, j: nat, k: nat, att: AttemptId, now: int)
    requires HintRun(worlds, steps) && j < k < |steps| && steps[j] == Respond(att, false, now) && steps[k] == Finish(att)
    requires att in worlds[k].attempts && Keeps(worlds[k], worlds[k].attempts[att])
    ensures att in worlds[j].attempts && worlds[j].attempts[att].sub in worlds[k].subs && worlds[j].attempts[att].sub in worlds[k + 1].subs
    ensures var id := worlds[j].attempts[att].sub; RecordsFailure(worlds[k].subs[id], worlds[k + 1].subs[id], now)
    ensures worlds[j + 1].delivered == worlds[j].delivered
  {
    assert StepAt(worlds, steps, j);
    KeptWrites(worlds, steps, j + 1, k, att);
    RetryRecordsFailure(worlds[j].attempts[att].row, now);
  }

  /** So is a secret under a key the replica does not hold, at the clock the attempt began with. */
  lemma UnknownKeyRecordsFailure(worlds: seq<World>, steps: seq<HintStep>, b: nat, j: nat, k: nat, att: AttemptId,
                                 began: int, signedAt: int)
    requires HintRun(worlds, steps) && b < j < k < |steps| && steps[b] == Begin(att, began, false)
    requires steps[j] == Unseal(att, UnknownKey, signedAt) && steps[k] == Finish(att)
    requires att in worlds[k].attempts && Keeps(worlds[k], worlds[k].attempts[att])
    ensures att in worlds[j].attempts && worlds[j].attempts[att].sub in worlds[k].subs && worlds[j].attempts[att].sub in worlds[k + 1].subs
    ensures var id := worlds[j].attempts[att].sub; RecordsFailure(worlds[k].subs[id], worlds[k + 1].subs[id], began)
  {
    RunCarriesClock(worlds, steps, b, j, att, began);
    assert StepAt(worlds, steps, j);
    KeptWrites(worlds, steps, j + 1, k, att);
    RetryRecordsFailure(worlds[j].attempts[att].row, began);
  }

  /** A disabled subscription keeps its place and its failures. */
  ghost predicate DisabledInPlace(row: Subscription, row': Subscription, now: int) {
    && row'.status == Disabled && row'.lastHinted == row.lastHinted && row'.owner == row.owner && row'.attempts == row.attempts
    && row'.failingSince == Some(if row.failingSince.Some? then row.failingSince.value else now)
    && row'.nextAttempt == now && row'.lease == None
  }

  /** A row that can never be evaluated is disabled in place at once. */
  lemma HopelessIsDisabled(worlds: seq<World>, steps: seq<HintStep>, b: nat, k: nat, att: AttemptId, began: int)
    requires HintRun(worlds, steps) && b < k < |steps| && steps[b] == Begin(att, began, true) && steps[k] == Finish(att)
    requires att in worlds[k].attempts && Keeps(worlds[k], worlds[k].attempts[att])
    ensures att in worlds[b].attempts && worlds[b].attempts[att].sub in worlds[k].subs && worlds[b].attempts[att].sub in worlds[k + 1].subs
    ensures var id := worlds[b].attempts[att].sub; DisabledInPlace(worlds[k].subs[id], worlds[k + 1].subs[id], began)
  {
    assert StepAt(worlds, steps, b);
    KeptWrites(worlds, steps, b + 1, k, att);
  }

  /** So is one whose secret is corrupt. */
  lemma CorruptIsDisabled(worlds: seq<World>, steps: seq<HintStep>, b: nat, j: nat, k: nat, att: AttemptId, began: int, signedAt: int)
    requires HintRun(worlds, steps) && b < j < k < |steps| && steps[b] == Begin(att, began, false)
    requires steps[j] == Unseal(att, Corrupt, signedAt) && steps[k] == Finish(att)
    requires att in worlds[k].attempts && Keeps(worlds[k], worlds[k].attempts[att])
    ensures att in worlds[j].attempts && worlds[j].attempts[att].sub in worlds[k].subs && worlds[j].attempts[att].sub in worlds[k + 1].subs
    ensures var id := worlds[j].attempts[att].sub; DisabledInPlace(worlds[k].subs[id], worlds[k + 1].subs[id], began)
  {
    RunCarriesClock(worlds, steps, b, j, att, began);
    assert StepAt(worlds, steps, j);
    KeptWrites(worlds, steps, j + 1, k, att);
  }

  // ------------------------------------------------------- creations and claims

  /** A new subscription starts enabled at the head it was created at, due at once. */
  lemma CreatedAtHead(w: World, w': World, id: SubId, owner: string, at: int, head: nat)
    requires Takes(w, Create(id, owner, at, head), w')
    ensures id !in w.born
    ensures id in w'.subs && head <= HeadOf(w.snap) && w'.born == w.born[id := head]
    ensures var row := w'.subs[id];
            && row.owner == owner && row.status == Enabled && row.lastHinted == head && row.nextAttempt == at
            && row.failingSince == None && row.attempts == 0 && row.lease == None
  {
  }

  /** A claim leases an enabled, due, unleased subscription that is behind the head for a
      minute by the claimer's clock, and changes nothing else of any row. */
  lemma ClaimLeases(w: World, w': World, att: AttemptId, id: SubId, now: int, head: nat)
    requires Takes(w, Claim(att, id, now, head), w')
    ensures id in w.subs && w'.subs == w.subs[id := w.subs[id].(lease := Some(now + 60_000))]
    ensures w.subs[id].status == Enabled && w.subs[id].nextAttempt <= now && w.subs[id].lastHinted < head
    ensures w.subs[id].lease.Some? ==> w.subs[id].lease.value < now
    ensures w'.snap == w.snap && w'.delivered == w.delivered && w'.passes == w.passes
  {
  }

  /** And every such subscription can be claimed. */
  lemma DueCanBeClaimed(w: World, att: AttemptId, id: SubId, now: int, head: nat)
    requires att !in w.attempts && id in w.subs && head <= HeadOf(w.snap)
    requires w.subs[id].status == Enabled && w.subs[id].nextAttempt <= now && w.subs[id].lastHinted < head
    requires w.subs[id].lease.Some? ==> w.subs[id].lease.value < now
    ensures exists w' :: Takes(w, Claim(att, id, now, head), w')
  {
    var row := w.subs[id].(lease := Some(now + LEASE_MS));
    var w' := w.(subs := w.subs[id := row], attempts := w.attempts[att := Attempt(id, row, now, Claimed)]);
    assert Takes(w, Claim(att, id, now, head), w');
  }

  /** A finish that no longer holds the row leaves every subscription as it is, and one
      that does writes only its own. */
  lemma FinishTouchesOne(w: World, w': World, att: AttemptId, id: SubId)
    requires Takes(w, Finish(att), w') && att in w.attempts
    ensures id != w.attempts[att].sub || !Keeps(w, w.attempts[att]) ==>
              (id in w'.subs <==> id in w.subs) && (id in w.subs ==> w'.subs[id] == w.subs[id])
  {
  }

  // ------------------------------------------------------ an attempt on its own

  lemma OneMoreStep(worlds: seq<World>, steps: seq<HintStep>, step: HintStep, w: World)
    requires HintRun(worlds, steps) && Takes(worlds[|steps|], step, w)
    ensures HintRun(worlds + [w], steps + [step])
  {
    var worlds', steps' := worlds + [w], steps + [step];
    forall i | 0 <= i < |steps'|
      ensures StepAt(worlds', steps', i)
    {
      if i < |steps| { assert StepAt(worlds, steps, i); }
    }
  }

  /** The answer of an evaluation that sees the whole feed in every snapshot. */
  function WholeAnswer(s: Snapshot, from: nat, rule: Rule): Answer {
    Served(Window(s.feed, from, HeadOf(s), n => Sees(rule, n)), HeadOf(s), false)
  }

  lemma WholeAnswerOk(s: Snapshot, pages: seq<Snapshot>, from: nat, rule: Rule)
    requires ValidSnapshot(s) && pages == [s, s, s, s, s, s] && from <= HeadOf(s)
    ensures AnswerOk(s, pages, FromPosition(from), rule.filter, rule.visible, WholeAnswer(s, from, rule))
    ensures Between(s, s, pages, s)
  {
    WindowAscends(s.feed, from, HeadOf(s), n => Sees(rule, n));
    WindowMembers(s.feed, from, HeadOf(s), n => Sees(rule, n));
  }

  function EvaluateWhole(att: AttemptId, s: Snapshot, from: nat, rule: Rule): HintStep {
    var pages, r := [s, s, s, s, s, s], WholeAnswer(s, from, rule);
    Evaluate(att, s, pages, rule, r, s, pages, rule, r)
  }

  /** Claimed at `now`, an attempt finds the change its owner may see. */
  lemma FindsChange(worlds: seq<World>, steps: seq<HintStep>, att: AttemptId, id: SubId, now: int, rule: Rule, n: Numbered)
    returns (worlds': seq<World>, steps': seq<HintStep>)
    requires HintRun(worlds, steps)
    requires var w := worlds[|steps|];
             && att !in w.attempts && id in w.subs && Due(w.subs[id], now, HeadOf(w.snap)) && ValidSnapshot(w.snap)
             && n in w.snap.feed && w.subs[id].lastHinted < n.seqNo <= HeadOf(w.snap) && Sees(rule, n)
    ensures HintRun(worlds', steps') && worlds <= worlds' && |worlds'| == |worlds| + 4
    ensures var w, w' := worlds[|steps|], worlds'[|steps| + 4];
            var row := w.subs[id].(lease := Some(now + LEASE_MS));
            w' == w.(subs := w.subs[id := row], attempts := w.attempts[att := Attempt(id, row, now, HasChange(HeadOf(w.snap)))])
  {
    var w := worlds[|steps|];
    var s, row := w.snap, w.subs[id].(lease := Some(now + LEASE_MS));
    var a := Attempt(id, row, now, Claimed);
    var w1 := w.(subs := w.subs[id := row], attempts := w.attempts[att := a]);
    var w2 := Moved(w1, att, a.(pc := Started));
    var w3 := Moved(w2, att, a.(pc := HaveHead(s)));
    var w4 := Moved(w3, att, a.(pc := HasChange(HeadOf(s))));
    OneMoreStep(worlds, steps, Claim(att, id, now, HeadOf(s)), w1);
    OneMoreStep(worlds + [w1], steps + [Claim(att, id, now, HeadOf(s))], Begin(att, now, false), w2);
    var steps2 := steps + [Claim(att, id, now, HeadOf(s))] + [Begin(att, now, false)];
    OneMoreStep(worlds + [w1] + [w2], steps2, ReadHead(att), w3);
    FindsIt(w3, att, rule, n, w4);
    OneMoreStep(worlds + [w1] + [w2] + [w3], steps2 + [ReadHead(att)], EvaluateWhole(att, s, row.lastHinted, rule), w4);
    worlds' := worlds + [w1] + [w2] + [w3] + [w4];
    steps' := steps2 + [ReadHead(att)] + [EvaluateWhole(att, s, row.lastHinted, rule)];
  }

  lemma FindsIt(w: World, att: AttemptId, rule: Rule, n: Numbered, w': World)
    requires att in w.attempts && w.attempts[att].pc == HaveHead(w.snap) && ValidSnapshot(w.snap)
    requires n in w.snap.feed && w.attempts[att].row.lastHinted < n.seqNo <= HeadOf(w.snap) && Sees(rule, n)
    requires w' == Moved(w, att, w.attempts[att].(pc := HasChange(HeadOf(w.snap))))
    ensures Takes(w, EvaluateWhole(att, w.snap, w.attempts[att].row.lastHinted, rule), w')
  {
    var a, s := w.attempts[att], w.snap;
    var step, r := EvaluateWhole(att, s, a.row.lastHinted, rule), WholeAnswer(s, a.row.lastHinted, rule);
    WholeAnswerOk(s, step.pages, a.row.lastHinted, rule);
    WindowMembers(s.feed, a.row.lastHinted, HeadOf(s), m => Sees(rule, m));
    assert n in r.changes;
    assert Answers(s, s, a.row.lastHinted, step, r);
  }

  /** It then sends the hint, is answered with success, and moves its subscription on. */
  lemma SendsHint(worlds: seq<World>, steps: seq<HintStep>, att: AttemptId, id: SubId, now: int)
    returns (worlds': seq<World>, steps': seq<HintStep>)
    requires HintRun(worlds, steps)
    requires var w := worlds[|steps|];
             && id in w.subs && id in w.delivered && att in w.attempts
             && w.attempts[att] == Attempt(id, w.subs[id], now, HasChange(HeadOf(w.snap)))
    ensures HintRun(worlds', steps') && worlds <= worlds' && |worlds'| == |worlds| + 3
    ensures var w, w' := worlds[|steps|], worlds'[|steps| + 3];
            && w'.snap == w.snap && id in w'.subs && id in w'.delivered && HeadOf(w.snap) in w'.delivered[id]
            && w'.subs[id] == Subscription(w.subs[id].owner, Enabled, HeadOf(w.snap), now + 1_000, None, 0, None)
  {
    var w := worlds[|steps|];
    var a, h := w.attempts[att], HeadOf(w.snap);
    var w1 := Moved(w, att, a.(pc := Sending(h)));
    var w2 := Moved(w1, att, AfterResponse(a.(pc := Sending(h)), h, true, now)).(delivered := w.delivered[id := w.delivered[id] + {h}]);
    var w3 := AfterFinish(w2, att, w2.attempts[att]);
    OneMoreStep(worlds, steps, Unseal(att, Opened, now), w1);
    OneMoreStep(worlds + [w1], steps + [Unseal(att, Opened, now)], Respond(att, true, now), w2);
    OneMoreStep(worlds + [w1] + [w2], steps + [Unseal(att, Opened, now)] + [Respond(att, true, now)], Finish(att), w3);
    worlds' := worlds + [w1] + [w2] + [w3];
    steps' := steps + [Unseal(att, Opened, now)] + [Respond(att, true, now)] + [Finish(att)];
  }

  lemma KnownInRun(worlds: seq<World>, steps: seq<HintStep>)
    requires HintRun(worlds, steps)
    ensures ValidSnapshot(worlds[|steps|].snap) && worlds[|steps|].subs.Keys <= worlds[|steps|].delivered.Keys
  {
    RunKeeps(worlds, steps, |steps|);
  }

  /** A subscription that is due and has a change its owner may see past its position can
      be claimed, evaluated, hinted and moved on to the head. */
  lemma VisibleCanBeHinted(worlds: seq<World>, steps: seq<HintStep>, att: AttemptId, id: SubId, now: int, rule: Rule, n: Numbered)
    returns (worlds': seq<World>, steps': seq<HintStep>)
    requires HintRun(worlds, steps)
    requires var w := worlds[|steps|];
             && att !in w.attempts && id in w.subs && Due(w.subs[id], now, HeadOf(w.snap))
             && n in w.snap.feed && w.subs[id].lastHinted < n.seqNo <= HeadOf(w.snap) && Sees(rule, n)
    ensures HintRun(worlds', steps') && worlds <= worlds' && |worlds'| == |worlds| + 7
    ensures var w, w' := worlds[|steps|], worlds'[|steps| + 7];
            && w'.snap == w.snap && id in w'.subs && id in w'.delivered && HeadOf(w.snap) in w'.delivered[id]
            && w'.subs[id] == Subscription(w.subs[id].owner, Enabled, HeadOf(w.snap), now + 1_000, None, 0, None)
  {
    KnownInRun(worlds, steps);
    worlds', steps' := FindsChange(worlds, steps, att, id, now, rule, n);
    worlds', steps' := SendsHint(worlds', steps', att, id, now);
  }
}
