/** Change-hint delivery: replicas claim subscriptions under leases, look for a change
    the owner may see, send a hint, and write the outcome back. Each replica reads its
    own clock; attempts may stop at any point. */
module HintDelivery {
  import opened Tables
  import opened FeedPaging
  import opened ChangesQuery
  import opened Subscriptions

  /** What one evaluation looks for: the filter as it resolved it, and what the owner
      was found to be allowed to see. Both may differ from one evaluation to the next. */
  datatype Rule = Rule(filter: Numbered -> bool, visible: Numbered -> bool)

  predicate Sees(rule: Rule, n: Numbered) {
    rule.filter(n) && rule.visible(n)
  }

  datatype HintPc =
    | Claimed
    | Started
    | HaveHead(seen: Snapshot)
    | HasChange(head: nat)
    | Sending(head: nat)
    | Finishing(progress: Progress, blind: Option<Rule>)
    | Over

  /** An evaluation that moved a subscription on without a hint: it looked by `rule` and
      found nothing from one position to another. */
  datatype Pass = Pass(from: nat, to: nat, rule: Rule)

  /** One replica's turn with one subscription: the row as claimed, and the latest
      reading of the replica's clock. */
  datatype Attempt = Attempt(sub: SubId, row: Subscription, clock: int, pc: HintPc)

  type AttemptId = nat

  /** `born` keeps the position each subscription started from, `delivered` the heads of
      the hints its callback answered with success, `passes` the evaluations that moved
      it on without one. */
  datatype World = World(
    snap: Snapshot,
    subs: map<SubId, Subscription>,
    attempts: map<AttemptId, Attempt>,
    born: map<SubId, nat>,
    delivered: map<SubId, set<nat>>,
    passes: map<SubId, seq<Pass>>)

  datatype Secret = Opened | UnknownKey | Corrupt

  datatype HintStep =
    | FeedMoves(snap: Snapshot)
    | Create(id: SubId, owner: string, at: int, head: nat)
    | Delete(id: SubId)
    | Claim(att: AttemptId, id: SubId, now: int, head: nat)
    | Begin(att: AttemptId, now: int, hopeless: bool)
    | ReadHead(att: AttemptId)
    | Evaluate(att: AttemptId, start: Snapshot, pages: seq<Snapshot>, firstRule: Rule, first: Answer,
               again: Snapshot, morePages: seq<Snapshot>, secondRule: Rule, second: Answer)
    | Unseal(att: AttemptId, secret: Secret, signedAt: int)
    | Respond(att: AttemptId, success: bool, now: int)
    | Finish(att: AttemptId)
    | Abandon(att: AttemptId)

  predicate At(w: World, att: AttemptId) {
    att in w.attempts
  }

  function Moved(w: World, att: AttemptId, a: Attempt): World {
    w.(attempts := w.attempts[att := a])
  }

  /** The snapshots of one evaluation lie between two moments of the feed. */
  predicate Between(s: Snapshot, start: Snapshot, pages: seq<Snapshot>, s': Snapshot) {
    && |pages| == REFILL_MAX_SCANS
    && ValidSnapshot(start) && InOrder(pages)
    && Later(s, start) && Later(start, pages[0]) && Later(pages[REFILL_MAX_SCANS - 1], s')
  }

  /** The answer an attempt acts on: from its position, or, where that was pruned away,
      from the oldest retained entry. */
  ghost predicate Answers(seen: Snapshot, now: Snapshot, pos: nat, step: HintStep, r: Answer)
    requires step.Evaluate?
  {
    && r.Served?
    && Between(seen, step.start, step.pages, now)
    && AnswerOk(step.start, step.pages, FromPosition(pos), step.firstRule.filter, step.firstRule.visible, step.first)
    && if step.first.Served? then r == step.first
       else
         && Between(step.pages[REFILL_MAX_SCANS - 1], step.again, step.morePages, now)
         && AnswerOk(step.again, step.morePages, FromOldest, step.secondRule.filter, step.secondRule.visible, step.second)
         && r == step.second
  }

  /** The rule of the evaluation that gave that answer. */
  function RuleOf(step: HintStep): Rule
    requires step.Evaluate?
  {
    if step.first.Served? then step.firstRule else step.secondRule
  }

  function AfterAnswer(a: Attempt, head: nat, r: Answer, rule: Rule): Attempt
    requires r.Served?
  {
    a.(pc := if r.changes == [] then Finishing(Healthy(r.pos, a.clock), Some(rule)) else HasChange(head))
  }

  function AfterUnseal(a: Attempt, head: nat, secret: Secret, signedAt: int): Attempt {
    match secret
    case Opened => a.(clock := signedAt, pc := Sending(head))
    case UnknownKey => a.(pc := Finishing(RetryOrDisable(a.row, a.clock), None))
    case Corrupt => a.(pc := Finishing(DisabledAt(a.row, a.clock), None))
  }

  function AfterResponse(a: Attempt, head: nat, success: bool, now: int): Attempt {
    a.(clock := now,
       pc := Finishing(if success then Healthy(head, now + HINT_MIN_INTERVAL_MS) else RetryOrDisable(a.row, now), None))
  }

  /** The finish statement takes effect on this row. */
  predicate Keeps(w: World, a: Attempt) {
    a.sub in w.subs && w.subs[a.sub].lease == a.row.lease
  }

  function NewPasses(a: Attempt): seq<Pass>
    requires a.pc.Finishing?
  {
    if a.pc.blind.Some? then [Pass(a.row.lastHinted, a.pc.progress.lastHinted, a.pc.blind.value)] else []
  }

  function PassesOf(w: World, id: SubId): seq<Pass> {
    if id in w.passes then w.passes[id] else []
  }

  function AfterFinish(w: World, att: AttemptId, a: Attempt): World
    requires a.pc.Finishing?
  {
    var w' := Moved(w, att, a.(pc := Over));
    if Keeps(w, a)
    then w'.(subs := w.subs[a.sub := Finished(w.subs[a.sub], a.pc.progress)],
             passes := w.passes[a.sub := PassesOf(w, a.sub) + NewPasses(a)])
    else w'
  }

  // ------------------------------------------------------------------- steps

  ghost predicate CreateStep(w: World, id: SubId, owner: string, at: int, head: nat, w': World) {
    && id !in w.born && head <= HeadOf(w.snap)
    && w' == w.(subs := w.subs[id := Subscription(owner, Enabled, head, at, None, 0, None)],
                born := w.born[id := head], delivered := w.delivered[id := {}])
  }

  ghost predicate ClaimStep(w: World, att: AttemptId, id: SubId, now: int, head: nat, w': World) {
    && att !in w.attempts && id in w.subs && head <= HeadOf(w.snap) && Due(w.subs[id], now, head)
    && var row := w.subs[id].(lease := Some(now + LEASE_MS));
       w' == w.(subs := w.subs[id := row], attempts := w.attempts[att := Attempt(id, row, now, Claimed)])
  }

  ghost predicate BeginStep(w: World, att: AttemptId, now: int, hopeless: bool, w': World) {
    && At(w, att) && var a := w.attempts[att];
    && a.pc == Claimed && a.clock <= now
    && w' == Moved(w, att, a.(clock := now, pc := if hopeless then Finishing(DisabledAt(a.row, now), None) else Started))
  }

  ghost predicate ReadHeadStep(w: World, att: AttemptId, w': World) {
    && At(w, att) && var a := w.attempts[att];
    && a.pc == Started
    && w' == Moved(w, att, a.(pc := HaveHead(w.snap)))
  }

  ghost predicate EvaluateStep(w: World, step: HintStep, w': World)
    requires step.Evaluate?
  {
    && At(w, step.att) && var a := w.attempts[step.att];
    && a.pc.HaveHead?
    && exists r :: Answers(a.pc.seen, w.snap, a.row.lastHinted, step, r)
                   && w' == Moved(w, step.att, AfterAnswer(a, HeadOf(a.pc.seen), r, RuleOf(step)))
  }

  ghost predicate UnsealStep(w: World, att: AttemptId, secret: Secret, signedAt: int, w': World) {
    && At(w, att) && var a := w.attempts[att];
    && a.pc.HasChange? && a.clock <= signedAt
    && w' == Moved(w, att, AfterUnseal(a, a.pc.head, secret, signedAt))
  }

  ghost predicate RespondStep(w: World, att: AttemptId, success: bool, now: int, w': World) {
    && At(w, att) && var a := w.attempts[att];
    && a.pc.Sending? && a.clock <= now && a.sub in w.delivered
    && var moved := Moved(w, att, AfterResponse(a, a.pc.head, success, now));
       w' == if success then moved.(delivered := w.delivered[a.sub := w.delivered[a.sub] + {a.pc.head}]) else moved
  }

  ghost predicate FinishStep(w: World, att: AttemptId, w': World) {
    && At(w, att) && w.attempts[att].pc.Finishing?
    && w' == AfterFinish(w, att, w.attempts[att])
  }

  ghost predicate Takes(w: World, step: HintStep, w': World) {
    match step
    case FeedMoves(snap) => ValidSnapshot(snap) && Later(w.snap, snap) && w' == w.(snap := snap)
    case Create(id, owner, at, head) => CreateStep(w, id, owner, at, head, w')
    case Delete(id) => w' == w.(subs := w.subs - {id})
    case Claim(att, id, now, head) => ClaimStep(w, att, id, now, head, w')
    case Begin(att, now, hopeless) => BeginStep(w, att, now, hopeless, w')
    case ReadHead(att) => ReadHeadStep(w, att, w')
    case Evaluate(_, _, _, _, _, _, _, _, _) => EvaluateStep(w, step, w')
    case Unseal(att, secret, signedAt) => UnsealStep(w, att, secret, signedAt, w')
    case Respond(att, success, now) => RespondStep(w, att, success, now, w')
    case Finish(att) => FinishStep(w, att, w')
    case Abandon(att) => At(w, att) && w' == Moved(w, att, w.attempts[att].(pc := Over))
  }

  ghost predicate InitialWorld(w: World) {
    ValidSnapshot(w.snap) && w.subs == map[] && w.attempts == map[] && w.born == map[] && w.delivered == map[] && w.passes == map[]
  }

  ghost predicate StepAt(worlds: seq<World>, steps: seq<HintStep>, i: nat)
    requires |worlds| == |steps| + 1 && i < |steps|
  {
    Takes(worlds[i], steps[i], worlds[i + 1])
  }

  /** A run of the delivery system: every state and the step to the next. */
  ghost predicate HintRun(worlds: seq<World>, steps: seq<HintStep>) {
    && |worlds| == |steps| + 1 && InitialWorld(worlds[0])
    && forall i :: 0 <= i < |steps| ==> StepAt(worlds, steps, i)
  }

  // -------------------------------------------------------------- invariants

  /** An evaluation passed over this row, and did not see it. */
  predicate PassedUnseen(passes: seq<Pass>, n: Numbered) {
    exists i :: 0 <= i < |passes| && passes[i].from < n.seqNo <= passes[i].to && !Sees(passes[i].rule, n)
  }

  /** Every retained row in `(from, to]` is at or below the head of a hint that was
      answered with success, or was passed over by an evaluation that did not see it. */
  ghost predicate Hinted(snap: Snapshot, heads: set<nat>, passes: seq<Pass>, from: nat, to: nat) {
    forall n :: n in snap.feed && snap.pruned < n.seqNo && from < n.seqNo <= to ==>
      AtOrAbove(heads, n.seqNo) || PassedUnseen(passes, n)
  }

  predicate AtOrAbove(heads: set<nat>, seqNo: nat) {
    exists h :: h in heads && seqNo <= h
  }

  /** A row's holder is the attempt that claimed it last and is not over. */
  predicate Holds(row: Subscription, a: Attempt) {
    row == a.row
  }

  /** An attempt that lost its row carries a token below every lease to come. */
  predicate Fenced(row: Subscription, a: Attempt) {
    && a.row.lease.Some?
    && match row.lease
       case Some(lease) => a.row.lease.value < lease
       case None => a.row.lease.value < row.nextAttempt + LEASE_MS
  }

  ghost predicate RowOk(snap: Snapshot, start: nat, heads: set<nat>, passes: seq<Pass>, row: Subscription) {
    start <= row.lastHinted <= HeadOf(snap) && Hinted(snap, heads, passes, start, row.lastHinted)
  }

  ghost predicate PcOk(snap: Snapshot, heads: set<nat>, a: Attempt) {
    && a.row.lease.Some? && a.row.lease.value - LEASE_MS <= a.clock
    && a.row.status == Enabled && a.row.nextAttempt <= a.clock
    && a.row.lastHinted < HeadOf(snap)
    && match a.pc
       case HaveHead(seen) => ValidSnapshot(seen) && Later(seen, snap) && a.row.lastHinted < HeadOf(seen)
       case HasChange(h) => a.row.lastHinted < h <= HeadOf(snap)
       case Sending(h) => a.row.lastHinted < h <= HeadOf(snap)
       case Finishing(p, _) =>
         && a.row.lease.value <= p.nextAttempt + LEASE_MS
         && a.row.lastHinted <= p.lastHinted <= HeadOf(snap)
         && Hinted(snap, heads, NewPasses(a), a.row.lastHinted, p.lastHinted)
         && (Fails(a) || Clears(p) || p.status == Disabled)
       case _ => true
  }

  /** The attempt is about to record a failure at its latest clock reading. */
  predicate Fails(a: Attempt) {
    a.pc.Finishing? && a.pc.progress == RetryOrDisable(a.row, a.clock)
  }

  /** The outcome ends any streak of failures. */
  predicate Clears(p: Progress) {
    p.status == Enabled && p.failingSince.None? && p.attempts == 0
  }

  predicate FenceOk(subs: map<SubId, Subscription>, a: Attempt) {
    a.pc.Over? || a.sub !in subs || Holds(subs[a.sub], a) || Fenced(subs[a.sub], a)
  }

  ghost predicate OneHolder(subs: map<SubId, Subscription>, attempts: map<AttemptId, Attempt>) {
    forall i, j ::
      (&& i in attempts && j in attempts && i != j && attempts[i].sub == attempts[j].sub
       && attempts[i].sub in subs && !attempts[i].pc.Over? && !attempts[j].pc.Over?) ==>
      !(Holds(subs[attempts[i].sub], attempts[i]) && Holds(subs[attempts[j].sub], attempts[j]))
  }

  ghost predicate KnownIds(w: World) {
    && w.born.Keys == w.delivered.Keys && w.subs.Keys <= w.born.Keys
    && forall i :: i in w.attempts ==> w.attempts[i].sub in w.born
  }

  ghost predicate RowsOk(w: World)
    requires KnownIds(w)
  {
    forall id :: id in w.subs ==> RowOk(w.snap, w.born[id], w.delivered[id], PassesOf(w, id), w.subs[id])
  }

  ghost predicate AttemptsOk(w: World)
    requires KnownIds(w)
  {
    forall i :: i in w.attempts ==> PcOk(w.snap, w.delivered[w.attempts[i].sub], w.attempts[i])
  }

  ghost predicate FencesOk(w: World) {
    && (forall i :: i in w.attempts ==> FenceOk(w.subs, w.attempts[i]))
    && OneHolder(w.subs, w.attempts)
  }

  ghost predicate WorldInv(w: World) {
    ValidSnapshot(w.snap) && KnownIds(w) && RowsOk(w) && AttemptsOk(w) && FencesOk(w)
  }

  // ----------------------------------------------------------------- fencing

  lemma ClaimFences(w: World, att: AttemptId, id: SubId, now: int, head: nat, w': World)
    requires FencesOk(w) && ClaimStep(w, att, id, now, head, w')
    requires forall i :: i in w.attempts ==> w.attempts[i].row.lease.Some?
    ensures FencesOk(w')
  {
    var row := w.subs[id].(lease := Some(now + LEASE_MS));
    forall i | i in w.attempts
      ensures FenceOk(w'.subs, w'.attempts[i])
      ensures w.attempts[i].sub == id && !w.attempts[i].pc.Over? ==> !Holds(row, w.attempts[i])
    {
      var a := w.attempts[i];
      assert FenceOk(w.subs, a);
      if a.sub == id && !a.pc.Over? { assert a.row.lease.value < now + LEASE_MS; }
    }
  }

  /** Only the holder's own finish changes the row; it leaves the rest fenced. */
  lemma FinishFences(w: World, att: AttemptId, w': World)
    requires FencesOk(w) && FinishStep(w, att, w')
    requires w.attempts[att].row.lease.Some?
    requires w.attempts[att].row.lease.value <= w.attempts[att].pc.progress.nextAttempt + LEASE_MS
    requires forall i :: i in w.attempts ==> w.attempts[i].row.lease.Some?
    ensures FencesOk(w')
    ensures Keeps(w, w.attempts[att]) ==> Holds(w.subs[w.attempts[att].sub], w.attempts[att])
  {
    var a := w.attempts[att];
    assert FenceOk(w.subs, a);
    if Keeps(w, a) {
      assert Holds(w.subs[a.sub], a);
      forall i | i in w.attempts && i != att
        ensures FenceOk(w'.subs, w'.attempts[i])
        ensures w.attempts[i].sub == a.sub && !w.attempts[i].pc.Over? ==> !Holds(w'.subs[a.sub], w.attempts[i])
      {
        assert FenceOk(w.subs, w.attempts[i]);
      }
    }
  }

  /** Moving an attempt on, without touching its row or token, keeps the fences. */
  lemma MoveFences(w: World, att: AttemptId, a: Attempt)
    requires FencesOk(w) && att in w.attempts
    requires a.sub == w.attempts[att].sub && a.row == w.attempts[att].row
    requires w.attempts[att].pc.Over? ==> a.pc.Over?
    ensures FencesOk(Moved(w, att, a))
  {
    var b := w.attempts[att];
    assert FenceOk(w.subs, b);
    var w' := Moved(w, att, a);
    forall i, j | i in w'.attempts && j in w'.attempts && i != j && w'.attempts[i].sub == w'.attempts[j].sub
                  && w'.attempts[i].sub in w.subs && !w'.attempts[i].pc.Over? && !w'.attempts[j].pc.Over?
      ensures !(Holds(w.subs[w'.attempts[i].sub], w'.attempts[i]) && Holds(w.subs[w'.attempts[j].sub], w'.attempts[j]))
    {
      assert Holds(w.subs[w.attempts[i].sub], w.attempts[i]) == Holds(w.subs[w'.attempts[i].sub], w'.attempts[i]);
      assert Holds(w.subs[w.attempts[j].sub], w.attempts[j]) == Holds(w.subs[w'.attempts[j].sub], w'.attempts[j]);
    }
  }

  lemma CreateFences(w: World, id: SubId, owner: string, at: int, head: nat, w': World)
    requires FencesOk(w) && KnownIds(w) && CreateStep(w, id, owner, at, head, w')
    ensures FencesOk(w')
  {
    forall i | i in w'.attempts
      ensures FenceOk(w'.subs, w'.attempts[i])
    {
      assert FenceOk(w.subs, w.attempts[i]);
    }
  }

  lemma DeleteFences(w: World, id: SubId)
    requires FencesOk(w)
    ensures FencesOk(w.(subs := w.subs - {id}))
  {
    var subs' := w.subs - {id};
    forall i | i in w.attempts
      ensures FenceOk(subs', w.attempts[i])
    {
      assert FenceOk(w.subs, w.attempts[i]);
    }
  }

  // --------------------------------------------------------------- hint cover

  /** What was covered stays covered as the feed grows and is pruned and hints are sent. */
  lemma HintedStays(s: Snapshot, s': Snapshot, heads: set<nat>, heads': set<nat>, passes: seq<Pass>, from: nat, to: nat)
    requires ValidSnapshot(s') && Later(s, s') && heads <= heads' && to <= HeadOf(s)
    requires Hinted(s, heads, passes, from, to)
    ensures Hinted(s', heads', passes, from, to)
  {
    forall n | n in s'.feed && s'.pruned < n.seqNo && from < n.seqNo <= to
      ensures AtOrAbove(heads', n.seqNo) || PassedUnseen(passes, n)
    {
      OldRow(s, s', n);
      assert AtOrAbove(heads, n.seqNo) || PassedUnseen(passes, n);
    }
  }

  lemma PassesGrow(passes: seq<Pass>, more: seq<Pass>, n: Numbered)
    ensures PassedUnseen(passes, n) || PassedUnseen(more, n) ==> PassedUnseen(passes + more, n)
  {
    var all := passes + more;
    if PassedUnseen(passes, n) {
      var i :| 0 <= i < |passes| && passes[i].from < n.seqNo <= passes[i].to && !Sees(passes[i].rule, n);
      assert all[i] == passes[i];
    } else if PassedUnseen(more, n) {
      var i :| 0 <= i < |more| && more[i].from < n.seqNo <= more[i].to && !Sees(more[i].rule, n);
      assert all[|passes| + i] == more[i];
    }
  }

  lemma HintedJoins(s: Snapshot, heads: set<nat>, passes: seq<Pass>, more: seq<Pass>, a: nat, b: nat, c: nat)
    requires Hinted(s, heads, passes, a, b) && Hinted(s, heads, more, b, c)
    ensures Hinted(s, heads, passes + more, a, c)
  {
    forall n | n in s.feed && s.pruned < n.seqNo && a < n.seqNo <= c
      ensures AtOrAbove(heads, n.seqNo) || PassedUnseen(passes + more, n)
    {
      PassesGrow(passes, more, n);
    }
  }

  lemma RowStays(s: Snapshot, s': Snapshot, start: nat, heads: set<nat>, heads': set<nat>, passes: seq<Pass>, row: Subscription)
    requires ValidSnapshot(s') && Later(s, s') && heads <= heads' && RowOk(s, start, heads, passes, row)
    ensures RowOk(s', start, heads', passes, row)
  {
    HeadsRise(s, s');
    HintedStays(s, s', heads, heads', passes, start, row.lastHinted);
  }

  lemma PcStays(s: Snapshot, s': Snapshot, heads: set<nat>, heads': set<nat>, a: Attempt)
    requires ValidSnapshot(s') && Later(s, s') && heads <= heads' && PcOk(s, heads, a)
    ensures PcOk(s', heads', a)
  {
    HeadsRise(s, s');
    if a.pc.Finishing? { HintedStays(s, s', heads, heads', NewPasses(a), a.row.lastHinted, a.pc.progress.lastHinted); }
  }

  lemma LaterTrans(a: Snapshot, b: Snapshot, c: Snapshot)
    requires Later(a, b) && Later(b, c)
    ensures Later(a, c)
  {
  }

  /** What an answer with no change moves past, its evaluation did not see. */
  lemma EmptyAnswer(seen: Snapshot, now: Snapshot, pos: nat, step: HintStep, r: Answer)
    requires step.Evaluate? && ValidSnapshot(seen) && ValidSnapshot(now) && pos < HeadOf(seen)
    requires Answers(seen, now, pos, step, r)
    ensures pos <= r.pos <= HeadOf(now)
    ensures r.changes == [] ==> Blind(now, RuleOf(step), pos, r.pos)
  {
    HeadsRise(seen, step.start);
    PagesAreLater(step.start, step.pages);
    var last := step.pages[REFILL_MAX_SCANS - 1];
    if step.first.Served? {
      HeadsRise(last, now);
      NothingSeen(last, now, step.firstRule, pos, r.pos, 0, r.changes);
    } else {
      OldestIsAhead(step.start, step.pages, pos);
      PagesAreLater(step.again, step.morePages);
      var last' := step.morePages[REFILL_MAX_SCANS - 1];
      HeadsRise(last', now);
      assert pos <= step.again.pruned;
      NothingSeen(last', now, step.secondRule, step.again.pruned, r.pos, last'.pruned, r.changes);
    }
  }

  /** No retained row in `(from, to]` is seen by the rule. */
  ghost predicate Blind(snap: Snapshot, rule: Rule, from: nat, to: nat) {
    forall n :: n in snap.feed && snap.pruned < n.seqNo && from < n.seqNo <= to ==> !Sees(rule, n)
  }

  lemma BlindIsHinted(snap: Snapshot, heads: set<nat>, rule: Rule, from: nat, to: nat)
    requires Blind(snap, rule, from, to)
    ensures Hinted(snap, heads, [Pass(from, to, rule)], from, to)
  {
    forall n | n in snap.feed && snap.pruned < n.seqNo && from < n.seqNo <= to
      ensures PassedUnseen([Pass(from, to, rule)], n)
    {
      assert [Pass(from, to, rule)][0] == Pass(from, to, rule);
    }
  }

  lemma PagesAreLater(start: Snapshot, pages: seq<Snapshot>)
    requires |pages| == REFILL_MAX_SCANS && ValidSnapshot(start) && InOrder(pages) && Later(start, pages[0])
    ensures ValidSnapshot(pages[REFILL_MAX_SCANS - 1])
    ensures forall p :: p in pages ==> p.pruned <= pages[REFILL_MAX_SCANS - 1].pruned
    ensures Later(start, pages[REFILL_MAX_SCANS - 1])
  {
    LaterTrans(start, pages[0], pages[REFILL_MAX_SCANS - 1]);
  }

  /** A position refused as pruned lies below what the second look starts from. */
  lemma OldestIsAhead(start: Snapshot, pages: seq<Snapshot>, pos: nat)
    requires |pages| == REFILL_MAX_SCANS && ValidSnapshot(start) && InOrder(pages) && Later(start, pages[0])
    requires pos <= HeadOf(start) && (pos > HeadOf(start) || Pruned(start, pages, pos))
    ensures pos <= pages[REFILL_MAX_SCANS - 1].pruned
  {
    PagesAreLater(start, pages);
  }

  lemma NothingSeen(last: Snapshot, now: Snapshot, rule: Rule, base: nat, pos: nat, lost: nat, changes: seq<Numbered>)
    requires ValidSnapshot(now) && Later(last, now) && pos <= HeadOf(last) && lost <= last.pruned
    requires Covers(changes, last.feed, base, pos, lost, rule.filter, rule.visible)
    ensures changes == [] ==> Blind(now, rule, base, pos)
  {
    if changes == [] {
      forall n | n in now.feed && now.pruned < n.seqNo && base < n.seqNo <= pos
        ensures !Sees(rule, n)
      {
        OldRow(last, now, n);
      }
    }
  }

  // -------------------------------------------------------------- every step

  lemma RetryKeepsPlace(row: Subscription, now: int)
    ensures RetryOrDisable(row, now).lastHinted == row.lastHinted == DisabledAt(row, now).lastHinted
    ensures now <= RetryOrDisable(row, now).nextAttempt && now == DisabledAt(row, now).nextAttempt
  {
  }

  /** Replacing one attempt, everything else as it was. */
  lemma MoveKeeps(w: World, att: AttemptId, a: Attempt)
    requires WorldInv(w) && att in w.attempts
    requires a.sub == w.attempts[att].sub && a.row == w.attempts[att].row
    requires w.attempts[att].pc.Over? ==> a.pc.Over?
    requires PcOk(w.snap, w.delivered[a.sub], a)
    ensures WorldInv(Moved(w, att, a))
  {
    MoveFences(w, att, a);
  }

  /** Acting on an answer leaves the attempt in order. */
  lemma AnswerPcOk(snap: Snapshot, heads: set<nat>, a: Attempt, step: HintStep, r: Answer)
    requires ValidSnapshot(snap) && PcOk(snap, heads, a) && a.pc.HaveHead? && step.Evaluate?
    requires Answers(a.pc.seen, snap, a.row.lastHinted, step, r)
    ensures PcOk(snap, heads, AfterAnswer(a, HeadOf(a.pc.seen), r, RuleOf(step)))
  {
    EmptyAnswer(a.pc.seen, snap, a.row.lastHinted, step, r);
    if r.changes == [] { BlindIsHinted(snap, heads, RuleOf(step), a.row.lastHinted, r.pos); }
    HeadsRise(a.pc.seen, snap);
  }

  lemma EvaluateKeeps(w: World, step: HintStep, w': World)
    requires WorldInv(w) && step.Evaluate? && EvaluateStep(w, step, w')
    ensures WorldInv(w')
  {
    var a := w.attempts[step.att];
    var r :| Answers(a.pc.seen, w.snap, a.row.lastHinted, step, r)
             && w' == Moved(w, step.att, AfterAnswer(a, HeadOf(a.pc.seen), r, RuleOf(step)));
    AnswerPcOk(w.snap, w.delivered[a.sub], a, step, r);
    MoveKeeps(w, step.att, AfterAnswer(a, HeadOf(a.pc.seen), r, RuleOf(step)));
  }

  lemma UnsealKeeps(w: World, att: AttemptId, secret: Secret, signedAt: int, w': World)
    requires WorldInv(w) && UnsealStep(w, att, secret, signedAt, w')
    ensures WorldInv(w')
  {
    var a := w.attempts[att];
    assert PcOk(w.snap, w.delivered[a.sub], a);
    RetryKeepsPlace(a.row, a.clock);
    MoveKeeps(w, att, AfterUnseal(a, a.pc.head, secret, signedAt));
  }

  lemma BeginKeeps(w: World, att: AttemptId, now: int, hopeless: bool, w': World)
    requires WorldInv(w) && BeginStep(w, att, now, hopeless, w')
    ensures WorldInv(w')
  {
    var a := w.attempts[att];
    assert PcOk(w.snap, w.delivered[a.sub], a);
    RetryKeepsPlace(a.row, now);
    MoveKeeps(w, att, w'.attempts[att]);
  }

  /** A success is on record before the attempt can move the subscription past it. */
  lemma RespondKeeps(w: World, att: AttemptId, success: bool, now: int, w': World)
    requires WorldInv(w) && RespondStep(w, att, success, now, w')
    ensures WorldInv(w')
  {
    var a := w.attempts[att];
    assert PcOk(w.snap, w.delivered[a.sub], a);
    RetryKeepsPlace(a.row, now);
    var sent := if success then w.(delivered := w.delivered[a.sub := w.delivered[a.sub] + {a.pc.head}]) else w;
    DeliveredKeeps(w, sent);
    var b := AfterResponse(a, a.pc.head, success, now);
    assert success ==> a.pc.head in sent.delivered[a.sub];
    assert PcOk(sent.snap, sent.delivered[b.sub], b);
    MoveKeeps(sent, att, b);
    assert w' == Moved(sent, att, b);
  }

  lemma DeliveredKeeps(w: World, w': World)
    requires WorldInv(w) && w' == w.(delivered := w'.delivered) && w'.delivered.Keys == w.delivered.Keys
    requires forall id :: id in w.delivered ==> w.delivered[id] <= w'.delivered[id]
    ensures WorldInv(w')
  {
    FeedKeeps(w, w');
  }

  /** The feed moving on, or hints being recorded, disturbs nothing. */
  lemma FeedKeeps(w: World, w': World)
    requires WorldInv(w) && w' == w.(snap := w'.snap, delivered := w'.delivered)
    requires ValidSnapshot(w'.snap) && Later(w.snap, w'.snap) && w'.delivered.Keys == w.delivered.Keys
    requires forall id :: id in w.delivered ==> w.delivered[id] <= w'.delivered[id]
    ensures WorldInv(w')
  {
    forall id | id in w.subs
      ensures RowOk(w'.snap, w.born[id], w'.delivered[id], PassesOf(w, id), w.subs[id])
    {
      RowStays(w.snap, w'.snap, w.born[id], w.delivered[id], w'.delivered[id], PassesOf(w, id), w.subs[id]);
    }
    forall i | i in w.attempts
      ensures PcOk(w'.snap, w'.delivered[w.attempts[i].sub], w.attempts[i])
    {
      var id := w.attempts[i].sub;
      PcStays(w.snap, w'.snap, w.delivered[id], w'.delivered[id], w.attempts[i]);
    }
  }

  lemma ClaimKeeps(w: World, att: AttemptId, id: SubId, now: int, head: nat, w': World)
    requires WorldInv(w) && ClaimStep(w, att, id, now, head, w')
    ensures WorldInv(w')
  {
    assert forall i :: i in w.attempts ==> PcOk(w.snap, w.delivered[w.attempts[i].sub], w.attempts[i]);
    ClaimFences(w, att, id, now, head, w');
    assert RowOk(w.snap, w.born[id], w.delivered[id], PassesOf(w, id), w.subs[id]);
  }

  lemma CreateKeeps(w: World, id: SubId, owner: string, at: int, head: nat, w': World)
    requires WorldInv(w) && CreateStep(w, id, owner, at, head, w')
    ensures WorldInv(w')
  {
    CreateFences(w, id, owner, at, head, w');
  }

  /** The row a kept finish writes is covered by what was, and by the attempt. */
  lemma FinishedRowOk(snap: Snapshot, start: nat, heads: set<nat>, passes: seq<Pass>, row: Subscription, a: Attempt)
    requires RowOk(snap, start, heads, passes, row) && PcOk(snap, heads, a) && a.pc.Finishing? && row == a.row
    ensures RowOk(snap, start, heads, passes + NewPasses(a), Finished(row, a.pc.progress))
  {
    HintedJoins(snap, heads, passes, NewPasses(a), start, a.row.lastHinted, a.pc.progress.lastHinted);
  }

  lemma FinishKeepsRows(w: World, att: AttemptId, w': World)
    requires WorldInv(w) && FinishStep(w, att, w')
    requires Keeps(w, w.attempts[att]) ==> w.subs[w.attempts[att].sub] == w.attempts[att].row
    ensures KnownIds(w') && RowsOk(w')
  {
    var a := w.attempts[att];
    if Keeps(w, a) {
      FinishedRowOk(w.snap, w.born[a.sub], w.delivered[a.sub], PassesOf(w, a.sub), w.subs[a.sub], a);
    }
  }

  lemma FinishKeepsAttempts(w: World, att: AttemptId, w': World)
    requires KnownIds(w) && KnownIds(w') && AttemptsOk(w) && FinishStep(w, att, w')
    ensures AttemptsOk(w')
  {
    forall i | i in w'.attempts
      ensures PcOk(w'.snap, w'.delivered[w'.attempts[i].sub], w'.attempts[i])
    {
      assert PcOk(w.snap, w.delivered[w.attempts[i].sub], w.attempts[i]);
    }
  }

  lemma FinishKeeps(w: World, att: AttemptId, w': World)
    requires WorldInv(w) && FinishStep(w, att, w')
    ensures WorldInv(w')
    ensures Keeps(w, w.attempts[att]) ==> w.subs[w.attempts[att].sub] == w.attempts[att].row
  {
    var a := w.attempts[att];
    assert forall i :: i in w.attempts ==> PcOk(w.snap, w.delivered[w.attempts[i].sub], w.attempts[i]);
    FinishFences(w, att, w');
    FinishKeepsRows(w, att, w');
    FinishKeepsAttempts(w, att, w');
  }

  lemma DeleteKeeps(w: World, id: SubId)
    requires WorldInv(w)
    ensures WorldInv(w.(subs := w.subs - {id}))
  {
    DeleteFences(w, id);
  }

  lemma TakesKeeps(w: World, step: HintStep, w': World)
    requires WorldInv(w) && Takes(w, step, w')
    ensures WorldInv(w')
  {
    match step {
      case FeedMoves(snap) => FeedKeeps(w, w');
      case Create(id, owner, at, head) => CreateKeeps(w, id, owner, at, head, w');
      case Delete(id) => DeleteKeeps(w, id);
      case Claim(att, id, now, head) => ClaimKeeps(w, att, id, now, head, w');
      case Begin(att, now, hopeless) => BeginKeeps(w, att, now, hopeless, w');
      case ReadHead(att) => ReadHeadKeeps(w, att, w');
      case Evaluate(_, _, _, _, _, _, _, _, _) => EvaluateKeeps(w, step, w');
      case Unseal(att, secret, signedAt) => UnsealKeeps(w, att, secret, signedAt, w');
      case Respond(att, success, now) => RespondKeeps(w, att, success, now, w');
      case Finish(att) => FinishKeeps(w, att, w');
      case Abandon(att) => AbandonKeeps(w, att);
    }
  }

  lemma ReadHeadKeeps(w: World, att: AttemptId, w': World)
    requires WorldInv(w) && ReadHeadStep(w, att, w')
    ensures WorldInv(w')
  {
    var a := w.attempts[att];
    assert PcOk(w.snap, w.delivered[a.sub], a);
    MoveKeeps(w, att, a.(pc := HaveHead(w.snap)));
  }

  lemma AbandonKeeps(w: World, att: AttemptId)
    requires WorldInv(w) && att in w.attempts
    ensures WorldInv(Moved(w, att, w.attempts[att].(pc := Over)))
  {
    var a := w.attempts[att];
    assert PcOk(w.snap, w.delivered[a.sub], a);
    MoveKeeps(w, att, a.(pc := Over));
  }

  lemma {:induction false} RunKeeps(worlds: seq<World>, steps: seq<HintStep>, k: nat)
    requires HintRun(worlds, steps) && k < |worlds|
    ensures WorldInv(worlds[k])
  {
    if k > 0 {
      RunKeeps(worlds, steps, k - 1);
      assert StepAt(worlds, steps, k - 1);
      TakesKeeps(worlds[k - 1], steps[k - 1], worlds[k]);
    }
  }

  // ---------------------------------------------------------------- theorems

  /** A finish that does not hold the row writes nothing, and what holds it is unique. */
  lemma OnlyTheHolderWrites(worlds: seq<World>, steps: seq<HintStep>, k: nat, att: AttemptId)
    requires HintRun(worlds, steps) && k < |steps| && steps[k] == Finish(att)
    requires At(worlds[k], att) && worlds[k].attempts[att].pc.Finishing?
    ensures var w, a := worlds[k], worlds[k].attempts[att];
            && (!(a.sub in w.subs && Holds(w.subs[a.sub], a)) ==> worlds[k + 1].subs == w.subs)
            && (a.sub in w.subs && Holds(w.subs[a.sub], a) ==>
                  && worlds[k + 1].subs == w.subs[a.sub := Finished(a.row, a.pc.progress)]
                  && forall other ::
                       (other in w.attempts && other != att && w.attempts[other].sub == a.sub && !w.attempts[other].pc.Over?) ==>
                       Fenced(w.subs[a.sub], w.attempts[other]))
  {
    var w := worlds[k];
    RunKeeps(worlds, steps, k);
    assert StepAt(worlds, steps, k);
    FinishKeeps(w, att, worlds[k + 1]);
    assert forall other :: other in w.attempts ==> FenceOk(w.subs, w.attempts[other]);
  }

  /** What a finish of the row's holder does to the row. */
  lemma FinishMovesOn(w: World, att: AttemptId, w': World)
    requires WorldInv(w) && FinishStep(w, att, w') && Keeps(w, w.attempts[att])
    ensures var a := w.attempts[att];
            && w.subs[a.sub] == a.row && a.row.lease.Some? && a.row.lastHinted <= a.pc.progress.lastHinted
            && a.row.lease.value <= a.pc.progress.nextAttempt + LEASE_MS
  {
    var a := w.attempts[att];
    assert PcOk(w.snap, w.delivered[a.sub], a);
    assert FenceOk(w.subs, a);
  }

  lemma FencedAcrossClaim(w: World, step: HintStep, w': World, att: AttemptId)
    requires Takes(w, step, w') && step.Claim?
    requires att in w.attempts && w.attempts[att].sub in w.subs && Fenced(w.subs[w.attempts[att].sub], w.attempts[att])
    ensures att in w'.attempts && w'.attempts[att].row == w.attempts[att].row
    ensures w.attempts[att].sub in w'.subs && Fenced(w'.subs[w.attempts[att].sub], w'.attempts[att])
  {
  }

  lemma FencedAcross(w: World, step: HintStep, w': World, att: AttemptId)
    requires KnownIds(w) && Takes(w, step, w') && !step.Finish? && !step.Claim?
    requires att in w.attempts && w.attempts[att].sub in w.subs && Fenced(w.subs[w.attempts[att].sub], w.attempts[att])
    ensures att in w'.attempts && w'.attempts[att].row == w.attempts[att].row
    ensures w.attempts[att].sub in w'.subs ==> Fenced(w'.subs[w.attempts[att].sub], w'.attempts[att])
  {
  }

  lemma FencedAcrossFinish(w: World, other: AttemptId, w': World, att: AttemptId)
    requires WorldInv(w) && FinishStep(w, other, w')
    requires att in w.attempts && w.attempts[att].sub in w.subs && Fenced(w.subs[w.attempts[att].sub], w.attempts[att])
    ensures att in w'.attempts && w'.attempts[att].row == w.attempts[att].row
    ensures w.attempts[att].sub in w'.subs ==> Fenced(w'.subs[w.attempts[att].sub], w'.attempts[att])
  {
    if Keeps(w, w.attempts[other]) { FinishMovesOn(w, other, w'); }
  }

  lemma NoRevival(w: World, step: HintStep, w': World, id: SubId)
    requires KnownIds(w) && Takes(w, step, w')
    ensures id in w.born ==> id in w'.born && w'.born[id] == w.born[id]
    ensures id in w.born && id !in w.subs ==> id !in w'.subs
  {
  }

  /** Gone, or carrying a token that no finish will match again. */
  predicate Outrun(w: World, att: AttemptId, id: SubId, row: Subscription) {
    && att in w.attempts && w.attempts[att].sub == id && w.attempts[att].row == row && row.lease.Some?
    && id in w.born && (id in w.subs ==> Fenced(w.subs[id], w.attempts[att]))
  }

  lemma StepOutruns(w: World, step: HintStep, w': World, att: AttemptId, id: SubId, row: Subscription)
    requires WorldInv(w) && Takes(w, step, w') && Outrun(w, att, id, row)
    ensures Outrun(w', att, id, row)
  {
    TokensStay(w, step, w', att);
    NoRevival(w, step, w', id);
    if id in w.subs {
      match step {
        case Finish(other) => FencedAcrossFinish(w, other, w', att);
        case Claim(_, _, _, _) => FencedAcrossClaim(w, step, w', att);
        case _ => FencedAcross(w, step, w', att);
      }
    }
  }

  lemma {:induction false} RunOutruns(worlds: seq<World>, steps: seq<HintStep>, k: nat, m: nat,
                                      att: AttemptId, id: SubId, row: Subscription)
    requires HintRun(worlds, steps) && k <= m < |worlds| && Outrun(worlds[k], att, id, row)
    ensures Outrun(worlds[m], att, id, row)
    decreases m
  {
    if k < m {
      RunOutruns(worlds, steps, k, m - 1, att, id, row);
      RunKeeps(worlds, steps, m - 1);
      assert StepAt(worlds, steps, m - 1);
      StepOutruns(worlds[m - 1], steps[m - 1], worlds[m], att, id, row);
    }
  }

  /** Lease fencing: an attempt that has lost its row never holds it again, whatever
      clocks the replicas read, so its finish writes nothing. */
  lemma LeaseFencing(worlds: seq<World>, steps: seq<HintStep>, k: nat, m: nat, att: AttemptId)
    requires HintRun(worlds, steps) && k <= m < |worlds|
    requires att in worlds[k].attempts
    requires var a := worlds[k].attempts[att]; a.sub in worlds[k].subs && worlds[k].subs[a.sub].lease != a.row.lease && !a.pc.Over?
    ensures att in worlds[m].attempts
    ensures var a := worlds[m].attempts[att];
            && a.sub == worlds[k].attempts[att].sub && a.row == worlds[k].attempts[att].row && a.row.lease.Some?
            && (a.sub in worlds[m].subs ==> Fenced(worlds[m].subs[a.sub], a) && !Keeps(worlds[m], a))
            && (m < |steps| && steps[m] == Finish(att) ==> worlds[m + 1].subs == worlds[m].subs)
  {
    var a := worlds[k].attempts[att];
    RunKeeps(worlds, steps, k);
    assert FenceOk(worlds[k].subs, a);
    RunOutruns(worlds, steps, k, m, att, a.sub, a.row);
    assert m < |steps| ==> StepAt(worlds, steps, m);
  }

  lemma TokensStay(w: World, step: HintStep, w': World, att: AttemptId)
    requires att in w.attempts && Takes(w, step, w')
    ensures att in w'.attempts && w'.attempts[att].sub == w.attempts[att].sub && w'.attempts[att].row == w.attempts[att].row
  {
  }

  lemma PlaceStays(w: World, step: HintStep, w': World, id: SubId)
    requires KnownIds(w) && Takes(w, step, w') && id in w.subs && id in w'.subs && !step.Finish?
    ensures w.subs[id].lastHinted == w'.subs[id].lastHinted
  {
  }

  lemma FinishAdvances(w: World, att: AttemptId, w': World, id: SubId)
    requires WorldInv(w) && FinishStep(w, att, w') && id in w.subs
    ensures id in w'.subs && w.subs[id].lastHinted <= w'.subs[id].lastHinted
  {
    if Keeps(w, w.attempts[att]) { FinishMovesOn(w, att, w'); }
  }

  predicate Rises(w: World, w': World, id: SubId) {
    && id in w.born && id in w'.born
    && (id in w'.subs ==> id in w.subs && w.subs[id].lastHinted <= w'.subs[id].lastHinted)
  }

  lemma StepRises(w: World, step: HintStep, w': World, id: SubId)
    requires WorldInv(w) && Takes(w, step, w') && id in w.born
    ensures Rises(w, w', id)
  {
    NoRevival(w, step, w', id);
    if id in w'.subs {
      match step {
        case Finish(att) => FinishAdvances(w, att, w', id);
        case _ => PlaceStays(w, step, w', id);
      }
    }
  }

  lemma {:induction false} RunRises(worlds: seq<World>, steps: seq<HintStep>, k: nat, m: nat, id: SubId)
    requires HintRun(worlds, steps) && k <= m < |worlds| && id in worlds[k].born
    ensures Rises(worlds[k], worlds[m], id)
    decreases m
  {
    if k < m {
      RunRises(worlds, steps, k, m - 1, id);
      RunKeeps(worlds, steps, m - 1);
      assert StepAt(worlds, steps, m - 1);
      StepRises(worlds[m - 1], steps[m - 1], worlds[m], id);
    }
  }

  /** The hinted position never goes back. */
  lemma PositionNeverDecreases(worlds: seq<World>, steps: seq<HintStep>, k: nat, m: nat, id: SubId)
    requires HintRun(worlds, steps) && k <= m < |worlds| && id in worlds[k].subs && id in worlds[m].subs
    ensures worlds[k].subs[id].lastHinted <= worlds[m].subs[id].lastHinted
  {
    RunKeeps(worlds, steps, k);
    RunRises(worlds, steps, k, m, id);
  }

  /** No visible change is skipped: each retained row past where the subscription began
      and at or below where it stands has been covered by a hint that was answered with
      success, or was passed over by an evaluation that, as it resolved the filter and
      the owner's rights then, did not see it. */
  lemma NoVisibleChangeSkipped(worlds: seq<World>, steps: seq<HintStep>, k: nat, id: SubId, n: Numbered)
    requires HintRun(worlds, steps) && k < |worlds| && id in worlds[k].subs
    requires n in worlds[k].snap.feed && worlds[k].snap.pruned < n.seqNo
    requires id in worlds[k].born && worlds[k].born[id] < n.seqNo <= worlds[k].subs[id].lastHinted
    ensures id in worlds[k].delivered
    ensures (exists h :: h in worlds[k].delivered[id] && n.seqNo <= h) || PassedUnseen(PassesOf(worlds[k], id), n)
  {
    RunKeeps(worlds, steps, k);
    assert RowOk(worlds[k].snap, worlds[k].born[id], worlds[k].delivered[id], PassesOf(worlds[k], id), worlds[k].subs[id]);
    assert AtOrAbove(worlds[k].delivered[id], n.seqNo) || PassedUnseen(PassesOf(worlds[k], id), n);
  }

  /** In particular a row every evaluation saw has been hinted. */
  lemma SteadilySeenIsHinted(worlds: seq<World>, steps: seq<HintStep>, k: nat, id: SubId, n: Numbered)
    requires HintRun(worlds, steps) && k < |worlds| && id in worlds[k].subs
    requires n in worlds[k].snap.feed && worlds[k].snap.pruned < n.seqNo
    requires id in worlds[k].born && worlds[k].born[id] < n.seqNo <= worlds[k].subs[id].lastHinted
    requires forall p :: p in PassesOf(worlds[k], id) ==> Sees(p.rule, n)
    ensures id in worlds[k].delivered && exists h :: h in worlds[k].delivered[id] && n.seqNo <= h
  {
    NoVisibleChangeSkipped(worlds, steps, k, id, n);
    var passes := PassesOf(worlds[k], id);
    assert forall i :: 0 <= i < |passes| ==> passes[i] in passes;
  }
}
