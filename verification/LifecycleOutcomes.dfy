/** What a lifecycle event is answered and what it writes, and what retention and
    eviction remove, over every execution: by ids, lengths and rows. */
module LifecycleOutcomes {
  import opened Tables
  import opened SerialRegistry
  import opened Transactions
  import opened Executions
  import opened RegistryTheorems

  // ------------------------------------------------------------- the decision

  predicate KnownId(history: seq<Event>, id: EventId) {
    exists i :: 0 <= i < |history| && history[i].id == id
  }

  /** Where an event stands after its decision: a known id is a replay of the same event
      or a misuse; otherwise a retraction is applied exactly to a history of even length,
      a republication to one of odd length, and no other type at all. */
  ghost predicate DecidedBy(history: seq<Event>, th: Thread, th': Thread)
    requires th.Marker?
  {
    var e := th.event;
    if KnownId(history, e.id) then
      th' == Finished(MarkDone(e, if e in history then IdempotentReplay else EventIdReused))
    else match e.kind
      case Retracted =>
        if |history| % 2 == 0 then th' == th.(mark := MarkPc.TakeFeedLock) else th' == Finished(MarkDone(e, InvalidTransition))
      case Republished =>
        if |history| % 2 == 1 then th' == th.(mark := MarkPc.TakeFeedLock) else th' == Finished(MarkDone(e, InvalidTransition))
      case Unregistered(_) => th' == Finished(MarkDone(e, UnregisteredType))
  }

  lemma DecisionIs(c: CtxId, history: seq<Event>, flag: bool, e: Event)
    requires HistoryOk(c, history, flag)
    ensures var d := DecideLifecycle(history, e);
            if KnownId(history, e.id) then d == (if e in history then IdempotentReplay else EventIdReused)
            else match e.kind
              case Retracted => d == (if |history| % 2 == 0 then Applied else InvalidTransition)
              case Republished => d == (if |history| % 2 == 1 then Applied else InvalidTransition)
              case Unregistered(_) => d == UnregisteredType
  {
    var found := FindEvent(history, e.id);
    if found.Some? {
      assert history[found.value].id == e.id;
      if e in history {
        var k :| 0 <= k < |history| && history[k] == e;
        assert k == found.value;
      }
    }
  }

  lemma EventDecides(run: seq<System>, k: nat, t: Tid)
    requires Execution(run) && k + 1 < |run| && Next(run[k], run[k + 1], t, MarkDecide)
    ensures t in run[k].threads && run[k].threads[t].Marker? && t in run[k + 1].threads
    ensures run[k + 1].reg == run[k].reg
    ensures DecidedBy(EventsOf(run[k].reg.tables, run[k].threads[t].event.ctx), run[k].threads[t], run[k + 1].threads[t])
  {
    var e := run[k].threads[t].event;
    DecidingHolds(run, k, t);
    HistoriesAlternate(run, k, e.ctx);
    DecisionIs(e.ctx, EventsOf(run[k].reg.tables, e.ctx), run[k].reg.tables.contexts[e.ctx].retracted, e);
  }

  lemma DecidingHolds(run: seq<System>, k: nat, t: Tid)
    requires Execution(run) && k < |run| && MarkAt(run[k], t, Decide)
    ensures run[k].threads[t].event.ctx in run[k].reg.tables.contexts
  {
    ReachedMine(run, k, t);
  }

  /** An event for a context that is not there is answered so; any other is decided. */
  lemma RowDecides(s: System, s': System, t: Tid)
    requires Next(s, s', t, MarkLock)
    ensures t in s.threads && s.threads[t].Marker? && t in s'.threads && s'.reg == s.reg
    ensures var th := s.threads[t];
            if th.event.ctx in s.reg.tables.contexts then s'.threads[t] == th.(mark := Decide)
            else s'.threads[t] == Finished(MarkDone(th.event, ContextNotFound))
  {
  }

  // ---------------------------------------------------------------- the commit

  /** One feed row for a receipted event, of its context's lineage and producer. */
  ghost predicate FeedsEvent(rows: seq<Numbered>, e: Event, minting: bool, contexts: map<CtxId, Context>) {
    if !minting then rows == []
    else
      && |rows| == 1 && e.ctx in contexts
      && var c := rows[0].row.change;
      && c.kind == LifecycleChange && c.ctx == e.ctx && c.lineage == contexts[e.ctx].lineage
      && c.agent == contexts[e.ctx].agent && c.supersededBy == None
  }

  /** A commit appends the event to its context's history, sets the flag by its type,
      appends the feed row, and touches nothing else. */
  lemma EventWrites(run: seq<System>, k: nat, t: Tid)
    requires Execution(run) && k + 1 < |run| && Next(run[k], run[k + 1], t, CommitMark)
    ensures t in run[k].threads && run[k].threads[t].Marker?
    ensures var tables, tables', th := run[k].reg.tables, run[k + 1].reg.tables, run[k].threads[t];
            var e := th.event;
            && e.ctx in tables.contexts && tables'.contexts.Keys == tables.contexts.Keys
            && tables'.contexts[e.ctx] == tables.contexts[e.ctx].(retracted := e.kind == Retracted)
            && (forall c :: c in tables.contexts && c != e.ctx ==> tables'.contexts[c] == tables.contexts[c])
            && EventsOf(tables', e.ctx) == EventsOf(tables, e.ctx) + [e]
            && (forall c :: c != e.ctx ==> EventsOf(tables', c) == EventsOf(tables, c))
            && tables'.leaves == tables.leaves && tables'.idem == tables.idem && tables'.prunedThrough == tables.prunedThrough
            && run[k + 1].reg.feed == run[k].reg.feed + th.drawn && FeedsEvent(th.drawn, e, th.minting, tables.contexts)
    ensures t in run[k + 1].threads
    ensures run[k + 1].threads[t] == Finished(MarkDone(run[k].threads[t].event, Applied))
            || run[k + 1].threads[t] == Finished(MarkDone(run[k].threads[t].event, LifecycleAborted))
  {
    var th := run[k].threads[t];
    MarkIsLifecycleStep(run, k, t);
    EventStepWrites(run[k].reg, run[k + 1].reg, th.event, th.minting, th.drawn);
  }

  lemma MarkIsLifecycleStep(run: seq<System>, k: nat, t: Tid)
    requires Execution(run) && k + 1 < |run| && Next(run[k], run[k + 1], t, CommitMark)
    ensures t in run[k].threads && run[k].threads[t].Marker?
    ensures var th := run[k].threads[t]; LifecycleStep(run[k].reg, run[k + 1].reg, th.event, th.minting, th.drawn)
  {
    ExecutionKeeps(run, k);
    MarkCommitIsSerialAt(run[k], run[k + 1], t);
  }

  lemma EventStepWrites(r: Registry, r': Registry, e: Event, minting: bool, drawn: seq<Numbered>)
    requires LifecycleStep(r, r', e, minting, drawn)
    ensures var t, t' := r.tables, r'.tables;
            && t'.contexts.Keys == t.contexts.Keys
            && t'.contexts[e.ctx] == t.contexts[e.ctx].(retracted := e.kind == Retracted)
            && (forall c :: c in t.contexts && c != e.ctx ==> t'.contexts[c] == t.contexts[c])
            && EventsOf(t', e.ctx) == EventsOf(t, e.ctx) + [e]
            && (forall c :: c != e.ctx ==> EventsOf(t', c) == EventsOf(t, c))
            && t'.leaves == t.leaves && t'.idem == t.idem && t'.prunedThrough == t.prunedThrough
            && r'.feed == r.feed + drawn && FeedsEvent(drawn, e, minting, t.contexts)
  {
  }

  // ------------------------------------------------------------ what was told

  /** Told that an event took effect, now or before. */
  predicate ToldStored(th: Thread, e: Event) {
    th == Finished(MarkDone(e, Applied)) || th == Finished(MarkDone(e, IdempotentReplay))
  }

  /** A publish and a pass of retention tell of no event. */
  lemma OthersTellNothing(s: System, s': System, t: Tid, m: Move, e: Event)
    requires Next(s, s', t, m) && Unanswered(s, t) && !s.threads[t].Marker? && t in s'.threads
    ensures !ToldStored(s'.threads[t], e)
  {
  }

  lemma MarkTellsStored(s: System, s': System, t: Tid, m: Move, e: Event)
    requires Next(s, s', t, m) && Unanswered(s, t) && s.threads[t].Marker? && t in s'.threads && ToldStored(s'.threads[t], e)
    ensures s.threads[t].event == e && (m.MarkDecide? || m.CommitMark?)
  {
  }

  /** An event some call was told of as applied or as a replay is in its context's history
      from then on. */
  lemma ToldIsStored(run: seq<System>, n: nat, t: Tid, e: Event)
    requires Execution(run) && n < |run| && t in run[n].threads && ToldStored(run[n].threads[t], e)
    ensures e in EventsOf(run[n].reg.tables, e.ctx)
  {
    var k := AnsweredAt(run, n, t);
    ToldStepStores(run, k, t, e);
    ExecutionExtends(run, k + 1, n);
    assert EventsOf(run[k + 1].reg.tables, e.ctx) <= EventsOf(run[n].reg.tables, e.ctx);
  }

  lemma ToldStepStores(run: seq<System>, k: nat, t: Tid, e: Event)
    requires Execution(run) && k + 1 < |run| && Unanswered(run[k], t) && t in run[k + 1].threads && ToldStored(run[k + 1].threads[t], e)
    ensures e in EventsOf(run[k + 1].reg.tables, e.ctx)
  {
    var m := AnsweringMove(run, k, t);
    if !run[k].threads[t].Marker? { OthersTellNothing(run[k], run[k + 1], t, m, e); }
    MarkTellsStored(run[k], run[k + 1], t, m, e);
    if m.MarkDecide? { EventDecides(run, k, t); } else { EventWrites(run, k, t); }
  }

  lemma AnsweringMove(run: seq<System>, k: nat, t: Tid) returns (m: Move)
    requires Execution(run) && k + 1 < |run| && Unanswered(run[k], t) && t in run[k + 1].threads && run[k + 1].threads[t].Finished?
    ensures Next(run[k], run[k + 1], t, m)
  {
    var i := k + 1;
    assert Moves(run[i - 1], run[i]);
    var u, n :| Next(run[i - 1], run[i], u, n);
    MoverIsAnswered(run[k], run[k + 1], u, n, t);
    m := n;
  }

  // --------------------------------------------------- retention and eviction

  /** The rows a pass may remove: the oldest, at most a batch, all older than its cutoff. */
  ghost predicate Removable(changes: map<nat, FeedRow>, cutoff: int, batch: nat, q: nat) {
    && q in changes
    && (forall p :: p in changes && p <= q ==> changes[p].appendedAt < cutoff)
    && |set p | p in changes && p <= q| <= (if batch == 0 then 1 else batch)
  }

  lemma RemovableIsTarget(changes: map<nat, FeedRow>, cutoff: int, batch: nat, q: nat)
    ensures Removable(changes, cutoff, batch, q) <==>
            q in changes && AllOlder(changes, cutoff, q) && |UpTo(changes, q)| <= (if batch == 0 then 1 else batch)
  {
    assert UpTo(changes, q) == set p | p in changes && p <= q;
  }

  /** The scan of a pass: it picks the last removable row, or ends where there is none. */
  lemma ScanPicks(s: System, s': System, t: Tid, last: nat, none: bool)
    requires Next(s, s', t, PruneScan(last, none))
    ensures t in s.threads && s.threads[t].Pruner? && t in s'.threads && s'.reg == s.reg
    ensures var th, changes := s.threads[t], s.reg.tables.changes;
            && (!none ==>
                  && Removable(changes, th.cutoff, th.batch, last) && s'.threads[t] == th.(prune := PrunePc.CommitNow, last := last)
                  && forall q :: q > last ==> !Removable(changes, th.cutoff, th.batch, q))
            && (none ==> s'.threads[t] == Finished(PruneDone) && forall q :: !Removable(changes, th.cutoff, th.batch, q))
  {
    var changes, th := s.reg.tables.changes, s.threads[t];
    forall q
      ensures Removable(changes, th.cutoff, th.batch, q) <==>
              q in changes && AllOlder(changes, th.cutoff, q) && |UpTo(changes, q)| <= (if th.batch == 0 then 1 else th.batch)
    {
      RemovableIsTarget(changes, th.cutoff, th.batch, q);
    }
  }

  /** A pass removes exactly the rows up to the one it picked, moves the marker there,
      and touches nothing else. */
  lemma PruneRemoves(run: seq<System>, k: nat, t: Tid)
    requires Execution(run) && k + 1 < |run| && Next(run[k], run[k + 1], t, CommitPrune)
    ensures t in run[k].threads && run[k].threads[t].Pruner?
    ensures var tables, tables', last := run[k].reg.tables, run[k + 1].reg.tables, run[k].threads[t].last;
            && last in tables.changes && tables'.prunedThrough == last > tables.prunedThrough
            && (forall q :: q in tables'.changes <==> q in tables.changes && q > last)
            && (forall q :: q in tables'.changes ==> tables'.changes[q] == tables.changes[q])
            && tables' == tables.(changes := tables'.changes, prunedThrough := last)
            && (forall q :: q in tables.changes && q <= last ==> tables.changes[q].appendedAt < run[k].threads[t].cutoff)
    ensures run[k + 1].reg.feed == run[k].reg.feed
  {
    ReachedFeed(run, k);
    ReachedMine(run, k, t);
  }

  /** Eviction removes the one record, which its clock finds expired, and nothing else. */
  lemma EvictionRemoves(s: System, s': System, t: Tid, key: IdemKey, clock: int)
    requires Next(s, s', t, EvictRecord(key, clock))
    ensures key in s.reg.tables.idem && s.reg.tables.idem[key].expiresAt <= clock && key !in s'.reg.tables.idem
    ensures forall k :: k != key ==>
              (k in s'.reg.tables.idem <==> k in s.reg.tables.idem)
              && (k in s.reg.tables.idem ==> s'.reg.tables.idem[k] == s.reg.tables.idem[k])
    ensures s'.reg.tables == s.reg.tables.(idem := s'.reg.tables.idem) && s'.threads == s.threads
  {
  }
}
