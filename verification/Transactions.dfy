/** Concurrent transactions over the registry's tables, statement by statement.

    Each thread runs `commit_publish`, `commit_lifecycle_event` or the feed's
    `prune`; between any two statements any other thread may run, and a thread
    may abort at any point. Writes stay private until the commit. A statement
    reads the committed tables as they are when it runs (READ COMMITTED).

    Where Postgres makes a statement wait for a row another transaction holds,
    the step is not enabled. A statement that waited re-checks only the rows of
    its own snapshot and can miss a row committed meanwhile: `EvictKey` and
    `FindKey` may therefore always come back empty. */
module Transactions {
  import opened Tables
  import opened SerialRegistry

  type Tid = nat

  // ------------------------------------------------------------------- state

  /** Where a publish stands: the statement it runs next. */
  datatype PublishPc =
    | EvictKey       // DELETE the key's record if expired
    | FindKey        // SELECT the key's record FOR UPDATE
    | LockTarget     // SELECT the predecessor FOR UPDATE, and the checks on it
    | RaceReplay     // the predecessor is superseded: is it our own earlier attempt?
    | Assign         // identifiers, body, receipt, INSERT of the context
    | TakeLogLock
    | AppendLeaf     // INSERT the leaf at COUNT(*)
    | FlipTarget     // UPDATE the predecessor to superseded
    | ClaimKey       // INSERT the key's record ON CONFLICT DO NOTHING
    | TakeFeedLock
    | AppendFeed     // INSERT one feed row, drawing its identity value
    | CommitNow
    | ReadBack       // rolled back after losing the key: read the winner's record

  datatype MarkPc = LockRow | Decide | TakeFeedLock | AppendFeed | CommitNow

  datatype PrunePc = LockMarker | ScanOldest | CommitNow

  datatype Result =
    | PublishDone(call: Publish, outcome: Outcome)
    | MarkDone(event: Event, marked: LifecycleOutcome)
    | PruneDone

  datatype Thread =
    | Publisher(call: Publish, pc: PublishPc, deleted: bool, id: CtxId, lineage: LineageId, leaf: nat, drawn: seq<Numbered>)
    | Marker(event: Event, minting: bool, mark: MarkPc, drawn: seq<Numbered>)
    | Pruner(cutoff: int, batch: nat, prune: PrunePc, last: nat)
    | Finished(result: Result)

  /** Who holds what: row locks on contexts and idempotency records, the two
      advisory locks, and the row of the feed's markers. */
  datatype Locks = Locks(
    rows: map<CtxId, Tid>,
    keys: map<IdemKey, Tid>,
    log: Option<Tid>,
    feed: Option<Tid>,
    marker: Option<Tid>)

  /** Every identifier drawn so far, and the thread that drew it. */
  datatype Ids = Ids(ctx: map<CtxId, Tid>, lineage: map<LineageId, Tid>)

  /** `nextSeq` is the identity sequence of the feed: never rolled back.
      `authors` names, for each committed publish, the thread that made it. */
  datatype System = System(
    reg: Registry,
    locks: Locks,
    ids: Ids,
    nextSeq: nat,
    threads: map<Tid, Thread>,
    authors: seq<Tid>)

  predicate InitialSystem(s: System) {
    && InitialRegistry(s.reg)
    && s.locks == Locks(map[], map[], None, None, None)
    && s.ids == Ids(map[], map[])
    && s.nextSeq == 1
    && s.threads == map[]
    && s.authors == []
  }

  // ------------------------------------------------------------------- locks

  predicate RowFree(locks: Locks, t: Tid, c: CtxId) {
    c in locks.rows ==> locks.rows[c] == t
  }

  predicate KeyFree(locks: Locks, t: Tid, k: IdemKey) {
    k in locks.keys ==> locks.keys[k] == t
  }

  function WithRow(locks: Locks, t: Tid, c: CtxId): Locks {
    locks.(rows := locks.rows[c := t])
  }

  function WithKey(locks: Locks, t: Tid, k: IdemKey): Locks {
    locks.(keys := locks.keys[k := t])
  }

  function Without(held: Option<Tid>, t: Tid): Option<Tid> {
    if held == Some(t) then None else held
  }

  /** Commit and rollback alike release everything the thread holds. */
  function Release(locks: Locks, t: Tid): Locks {
    Locks(map c | c in locks.rows && locks.rows[c] != t :: locks.rows[c],
          map k | k in locks.keys && locks.keys[k] != t :: locks.keys[k],
          Without(locks.log, t), Without(locks.feed, t), Without(locks.marker, t))
  }

  function Put(s: System, t: Tid, th: Thread): System {
    s.(threads := s.threads[t := th])
  }

  function End(s: System, t: Tid, r: Result): System {
    s.(locks := Release(s.locks, t), threads := s.threads[t := Finished(r)])
  }

  function EndPublish(s: System, t: Tid, call: Publish, o: Outcome): System {
    End(s, t, PublishDone(call, o))
  }

  // ----------------------------------------------------------- publish steps

  predicate At(s: System, t: Tid, pc: PublishPc) {
    t in s.threads && s.threads[t].Publisher? && s.threads[t].pc == pc
  }

  predicate EvictKeyStep(s: System, s': System, t: Tid, found: bool)
    requires At(s, t, EvictKey)
  {
    var th := s.threads[t];
    if !found then s' == Put(s, t, th.(pc := FindKey))
    else
      && th.call.key.Some?
      && th.call.Slot() in s.reg.tables.idem
      && s.reg.tables.idem[th.call.Slot()].expiresAt <= th.call.now
      && KeyFree(s.locks, t, th.call.Slot())
      && s' == Put(s.(locks := WithKey(s.locks, t, th.call.Slot())), t, th.(pc := FindKey, deleted := true))
  }

  predicate FindKeyStep(s: System, s': System, t: Tid, found: bool)
    requires At(s, t, FindKey)
  {
    var th := s.threads[t];
    if !found then s' == Put(s, t, th.(pc := LockTarget))
    else
      && th.call.key.Some?
      && th.call.Slot() in s.reg.tables.idem && !th.deleted
      && KeyFree(s.locks, t, th.call.Slot())
      && var row := s.reg.tables.idem[th.call.Slot()];
         if row.expiresAt > th.call.now
         then s' == EndPublish(s, t, th.call, ReplayAnswer(row, th.call))
         else s' == Put(s.(locks := WithKey(s.locks, t, th.call.Slot())), t, th.(pc := LockTarget))
  }

  predicate LockTargetStep(s: System, s': System, t: Tid)
    requires At(s, t, LockTarget)
  {
    var th := s.threads[t];
    if th.call.supersedes.None? then s' == Put(s, t, th.(pc := Assign))
    else
      var p := th.call.supersedes.value;
      if p !in s.reg.tables.contexts then s' == EndPublish(s, t, th.call, Refused(TargetNotFound))
      else
        && RowFree(s.locks, t, p)
        && var check := CheckPredecessor(s.reg.tables.contexts[p], th.call);
           if check.None? then s' == Put(s.(locks := WithRow(s.locks, t, p)), t, th.(pc := Assign))
           else if check.value == TargetAlreadySuperseded && th.call.key.Some?
           then s' == Put(s.(locks := WithRow(s.locks, t, p)), t, th.(pc := RaceReplay))
           else s' == EndPublish(s, t, th.call, Refused(check.value))
  }

  predicate RaceReplayStep(s: System, s': System, t: Tid)
    requires At(s, t, RaceReplay)
  {
    var th := s.threads[t];
    && th.call.key.Some?
    && if th.call.Slot() in s.reg.tables.idem && s.reg.tables.idem[th.call.Slot()].expiresAt > th.call.now
       then s' == EndPublish(s, t, th.call, ReplayAnswer(s.reg.tables.idem[th.call.Slot()], th.call))
       else s' == EndPublish(s, t, th.call, Refused(TargetAlreadySuperseded))
  }

  /** Identifiers are random: never drawn before. A successor takes the lineage of
      its predecessor's first version, which is its predecessor's. */
  predicate AssignStep(s: System, s': System, t: Tid, id: CtxId, lineage: LineageId)
    requires At(s, t, Assign)
  {
    var th := s.threads[t];
    if s.reg.log && !th.call.minted then s' == EndPublish(s, t, th.call, Refused(LogNeedsReceipt))
    else
      && id !in s.ids.ctx
      && (th.call.supersedes.None? ==> lineage !in s.ids.lineage)
      && lineage == LineageFor(s.reg.tables, th.call, lineage)
      && s' == Put(s.(ids := Ids(s.ids.ctx[id := t],
                                 if th.call.supersedes.None? then s.ids.lineage[lineage := t] else s.ids.lineage)),
                   t, th.(pc := if s.reg.log then TakeLogLock else FlipTarget, id := id, lineage := lineage))
  }

  predicate TakeLogLockStep(s: System, s': System, t: Tid)
    requires At(s, t, TakeLogLock)
  {
    && s.locks.log.None?
    && s' == Put(s.(locks := s.locks.(log := Some(t))), t, s.threads[t].(pc := AppendLeaf))
  }

  predicate AppendLeafStep(s: System, s': System, t: Tid)
    requires At(s, t, AppendLeaf)
  {
    s' == Put(s, t, s.threads[t].(pc := FlipTarget, leaf := |s.reg.tables.leaves|))
  }

  predicate FlipTargetStep(s: System, s': System, t: Tid)
    requires At(s, t, FlipTarget)
  {
    s' == Put(s, t, s.threads[t].(pc := if s.threads[t].call.key.Some? then ClaimKey else PublishPc.TakeFeedLock))
  }

  /** The concurrency gate of the idempotency key. Losing it rolls everything back. */
  predicate ClaimKeyStep(s: System, s': System, t: Tid)
    requires At(s, t, ClaimKey)
  {
    var th := s.threads[t];
    && th.call.key.Some?
    && if th.call.Slot() in s.reg.tables.idem && !th.deleted
       then s' == s.(locks := Release(s.locks, t), threads := s.threads[t := th.(pc := ReadBack, drawn := [])])
       else && KeyFree(s.locks, t, th.call.Slot())
            && s' == Put(s.(locks := WithKey(s.locks, t, th.call.Slot())), t, th.(pc := PublishPc.TakeFeedLock))
  }

  predicate ReadBackStep(s: System, s': System, t: Tid)
    requires At(s, t, ReadBack)
  {
    var th := s.threads[t];
    && th.call.key.Some?
    && s' == EndPublish(s, t, th.call,
                        if th.call.Slot() in s.reg.tables.idem
                        then ReplayAnswer(s.reg.tables.idem[th.call.Slot()], th.call)
                        else Refused(Aborted))
  }

  /** The tables once the thread's private writes become visible. */
  function Published(t: Tables, log: bool, th: Thread): Tables
    requires th.Publisher?
  {
    t.(contexts := ContextsAfter(t.contexts, th.call, th.id, th.lineage),
       leaves := if log then t.leaves[th.leaf := th.id] else t.leaves,
       idem := if th.call.key.Some?
               then t.idem[th.call.Slot() := IdemRow(th.call.hash, ResponseFor(th.call, th.id, th.lineage), th.call.now + th.call.ttl)]
               else t.idem,
       changes := Insert(t.changes, th.drawn))
  }

  /** The private writes made visible, and the call answered with `o`. */
  function CommitAnswered(s: System, t: Tid, o: Outcome): System
    requires At(s, t, PublishPc.CommitNow)
  {
    var th := s.threads[t];
    var r := s.reg;
    EndPublish(
      s.(reg := r.(tables := Published(r.tables, r.log, th),
                   commits := r.commits + [Commit(th.call, th.id, th.lineage)],
                   feed := r.feed + th.drawn,
                   chains := r.chains[th.lineage := (if th.lineage in r.chains then r.chains[th.lineage] else []) + [th.id]]),
         authors := s.authors + [t]),
      t, th.call, o)
  }

  /** The acknowledgement of an applied commit may be lost: the call then ends in the
      same error as one whose commit was not applied. */
  predicate PublishCommitStep(s: System, s': System, t: Tid)
    requires At(s, t, PublishPc.CommitNow)
  {
    var th := s.threads[t];
    && t in s'.threads && s'.threads[t].Finished? && s'.threads[t].result.PublishDone?
    && var o := s'.threads[t].result.outcome;
       (o == Inserted(ResponseFor(th.call, th.id, th.lineage)) || o == Refused(CommitUnknown)) && s' == CommitAnswered(s, t, o)
  }

  // --------------------------------------------------------------- feed steps

  /** The changes a thread has to append before it commits. */
  function Pending(t: Tables, th: Thread): seq<Change> {
    match th
    case Publisher(call, _, _, id, lineage, _, _) => PublishChanges(t, call, id, lineage)
    case Marker(e, minting, _, _) => if e.ctx in t.contexts then LifecycleChanges(t, e, minting) else []
    case _ => []
  }

  predicate WantsFeed(th: Thread) {
    (th.Publisher? && th.pc == PublishPc.TakeFeedLock) || (th.Marker? && th.mark == MarkPc.TakeFeedLock)
  }

  predicate Appends(th: Thread) {
    (th.Publisher? && th.pc == PublishPc.AppendFeed) || (th.Marker? && th.mark == MarkPc.AppendFeed)
  }

  function ToAppend(th: Thread): Thread
    requires th.Publisher? || th.Marker?
  {
    if th.Publisher? then th.(pc := PublishPc.AppendFeed) else th.(mark := MarkPc.AppendFeed)
  }

  function ToCommit(th: Thread): Thread
    requires th.Publisher? || th.Marker?
  {
    if th.Publisher? then th.(pc := PublishPc.CommitNow) else th.(mark := MarkPc.CommitNow)
  }

  /** With nothing to append the lock is not taken. */
  predicate TakeFeedLockStep(s: System, s': System, t: Tid)
    requires t in s.threads && WantsFeed(s.threads[t])
  {
    var th := s.threads[t];
    if Pending(s.reg.tables, th) == [] then s' == Put(s, t, ToCommit(th))
    else
      && s.locks.feed.None?
      && s' == Put(s.(locks := s.locks.(feed := Some(t))), t, ToAppend(th))
  }

  predicate AppendFeedStep(s: System, s': System, t: Tid, at: int)
    requires t in s.threads && Appends(s.threads[t])
  {
    var th := s.threads[t];
    var pending := Pending(s.reg.tables, th);
    if |th.drawn| >= |pending| then s' == Put(s, t, ToCommit(th))
    else
      s' == Put(s.(nextSeq := s.nextSeq + 1), t,
                th.(drawn := th.drawn + [Numbered(s.nextSeq, FeedRow(pending[|th.drawn|], at))]))
  }

  // ---------------------------------------------------------- lifecycle steps

  predicate MarkAt(s: System, t: Tid, pc: MarkPc) {
    t in s.threads && s.threads[t].Marker? && s.threads[t].mark == pc
  }

  predicate LockRowStep(s: System, s': System, t: Tid)
    requires MarkAt(s, t, LockRow)
  {
    var th := s.threads[t];
    if th.event.ctx !in s.reg.tables.contexts then s' == End(s, t, MarkDone(th.event, ContextNotFound))
    else
      && RowFree(s.locks, t, th.event.ctx)
      && s' == Put(s.(locks := WithRow(s.locks, t, th.event.ctx)), t, th.(mark := Decide))
  }

  predicate DecideStep(s: System, s': System, t: Tid)
    requires MarkAt(s, t, Decide)
  {
    var th := s.threads[t];
    var decision := DecideLifecycle(EventsOf(s.reg.tables, th.event.ctx), th.event);
    if decision == Applied then s' == Put(s, t, th.(mark := MarkPc.TakeFeedLock))
    else s' == End(s, t, MarkDone(th.event, decision))
  }

  predicate MarkCommitStep(s: System, s': System, t: Tid)
    requires MarkAt(s, t, MarkPc.CommitNow)
  {
    var th := s.threads[t];
    && th.event.ctx in s.reg.tables.contexts
    && t in s'.threads && s'.threads[t].Finished? && s'.threads[t].result.MarkDone?
    && var o := s'.threads[t].result.marked;
       && (o == Applied || o == LifecycleAborted)
       && s' == End(s.(reg := s.reg.(tables := LifecycleEffect(s.reg.tables, th.event, th.drawn), feed := s.reg.feed + th.drawn)),
                    t, MarkDone(th.event, o))
  }

  // --------------------------------------------------- retention and eviction

  predicate PruneAt(s: System, t: Tid, pc: PrunePc) {
    t in s.threads && s.threads[t].Pruner? && s.threads[t].prune == pc
  }

  predicate LockMarkerStep(s: System, s': System, t: Tid)
    requires PruneAt(s, t, LockMarker)
  {
    && s.locks.marker.None?
    && s' == Put(s.(locks := s.locks.(marker := Some(t))), t, s.threads[t].(prune := ScanOldest))
  }

  function UpTo(changes: map<nat, FeedRow>, last: nat): set<nat> {
    set q | q in changes && q <= last
  }

  predicate AllOlder(changes: map<nat, FeedRow>, cutoff: int, last: nat) {
    forall q :: q in changes && q <= last ==> changes[q].appendedAt < cutoff
  }

  /** `q` closes a run of oldest rows, within the batch, that are all older than the cutoff. */
  predicate PruneTarget(changes: map<nat, FeedRow>, cutoff: int, batch: nat, q: nat) {
    q in changes && AllOlder(changes, cutoff, q) && |UpTo(changes, q)| <= if batch == 0 then 1 else batch
  }

  /** The longest such run is taken, or none if there is none. */
  predicate ScanOldestStep(s: System, s': System, t: Tid, last: nat, none: bool)
    requires PruneAt(s, t, ScanOldest)
  {
    var th := s.threads[t];
    if none then
      && (forall q :: q in s.reg.tables.changes ==> !PruneTarget(s.reg.tables.changes, th.cutoff, th.batch, q))
      && s' == End(s, t, PruneDone)
    else
      && PruneTarget(s.reg.tables.changes, th.cutoff, th.batch, last)
      && (forall q :: q in s.reg.tables.changes && q > last ==> !PruneTarget(s.reg.tables.changes, th.cutoff, th.batch, q))
      && s' == Put(s, t, th.(prune := PrunePc.CommitNow, last := last))
  }

  predicate PruneCommitStep(s: System, s': System, t: Tid)
    requires PruneAt(s, t, PrunePc.CommitNow)
  {
    s' == End(s.(reg := s.reg.(tables := PruneEffect(s.reg.tables, s.threads[t].last))), t, PruneDone)
  }

  /** One record removed by the eviction task, whose clock is its own. */
  predicate EvictRecordStep(s: System, s': System, k: IdemKey, clock: int) {
    && k in s.reg.tables.idem
    && s.reg.tables.idem[k].expiresAt <= clock
    && k !in s.locks.keys
    && s' == s.(reg := s.reg.(tables := EvictEffect(s.reg.tables, k),
                              evicted := s.reg.evicted[s.reg.tables.idem[k].response.ctx := clock]))
  }

  // -------------------------------------------------------------- transitions

  /** A thread before its first statement. */
  predicate Starting(th: Thread) {
    match th
    case Publisher(call, pc, deleted, _, _, _, drawn) =>
      pc == (if call.key.Some? then EvictKey else LockTarget) && !deleted && drawn == []
    case Marker(_, _, mark, drawn) => mark == LockRow && drawn == []
    case Pruner(_, _, prune, _) => prune == LockMarker
    case Finished(_) => false
  }

  function AbortResult(th: Thread): Result {
    match th
    case Publisher(call, pc, _, _, _, _, _) => PublishDone(call, Refused(if pc == PublishPc.CommitNow then CommitUnknown else Aborted))
    case Marker(e, _, _, _) => MarkDone(e, LifecycleAborted)
    case _ => PruneDone
  }

  datatype Move =
    | Begin(th: Thread)
    | Abort
    | Evict(found: bool)
    | Find(found: bool)
    | Target
    | Race
    | Draw(id: CtxId, lineage: LineageId)
    | LogLock
    | Leaf
    | Flip
    | Claim
    | Back
    | FeedLock
    | Feed(at: int)
    | CommitPublish
    | MarkLock
    | MarkDecide
    | CommitMark
    | PruneLock
    | PruneScan(last: nat, none: bool)
    | CommitPrune
    | EvictRecord(k: IdemKey, clock: int)

  predicate Next(s: System, s': System, t: Tid, m: Move) {
    match m
    case Begin(th) => t !in s.threads && Starting(th) && s' == Put(s, t, th)
    case Abort => t in s.threads && !s.threads[t].Finished? && s' == End(s, t, AbortResult(s.threads[t]))
    case Evict(found) => At(s, t, EvictKey) && EvictKeyStep(s, s', t, found)
    case Find(found) => At(s, t, FindKey) && FindKeyStep(s, s', t, found)
    case Target => At(s, t, LockTarget) && LockTargetStep(s, s', t)
    case Race => At(s, t, RaceReplay) && RaceReplayStep(s, s', t)
    case Draw(id, lineage) => At(s, t, Assign) && AssignStep(s, s', t, id, lineage)
    case LogLock => At(s, t, TakeLogLock) && TakeLogLockStep(s, s', t)
    case Leaf => At(s, t, AppendLeaf) && AppendLeafStep(s, s', t)
    case Flip => At(s, t, FlipTarget) && FlipTargetStep(s, s', t)
    case Claim => At(s, t, ClaimKey) && ClaimKeyStep(s, s', t)
    case Back => At(s, t, ReadBack) && ReadBackStep(s, s', t)
    case FeedLock => t in s.threads && WantsFeed(s.threads[t]) && TakeFeedLockStep(s, s', t)
    case Feed(at) => t in s.threads && Appends(s.threads[t]) && AppendFeedStep(s, s', t, at)
    case CommitPublish => At(s, t, PublishPc.CommitNow) && PublishCommitStep(s, s', t)
    case MarkLock => MarkAt(s, t, LockRow) && LockRowStep(s, s', t)
    case MarkDecide => MarkAt(s, t, Decide) && DecideStep(s, s', t)
    case CommitMark => MarkAt(s, t, MarkPc.CommitNow) && MarkCommitStep(s, s', t)
    case PruneLock => PruneAt(s, t, LockMarker) && LockMarkerStep(s, s', t)
    case PruneScan(last, none) => PruneAt(s, t, ScanOldest) && ScanOldestStep(s, s', t, last, none)
    case CommitPrune => PruneAt(s, t, PrunePc.CommitNow) && PruneCommitStep(s, s', t)
    case EvictRecord(k, clock) => EvictRecordStep(s, s', k, clock)
  }
}
