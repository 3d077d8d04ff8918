/** What the locks buy: a thread's view of the rows it has checked stays true
    until it commits, whatever the other threads do meanwhile. */
module Isolation {
  import opened Tables
  import opened SerialRegistry
  import opened Transactions

  predicate HoldsRow(locks: Locks, t: Tid, c: CtxId) {
    c in locks.rows && locks.rows[c] == t
  }

  predicate HoldsKey(locks: Locks, t: Tid, k: IdemKey) {
    k in locks.keys && locks.keys[k] == t
  }

  // ---------------------------------------------------- what a thread relies on

  /** Statements after the claim of the idempotency key. */
  predicate Claimed(pc: PublishPc) {
    pc == PublishPc.TakeFeedLock || pc == PublishPc.AppendFeed || pc == PublishPc.CommitNow
  }

  /** Statements after the log leaf was inserted. */
  predicate Logged(pc: PublishPc) {
    pc == FlipTarget || pc == ClaimKey || Claimed(pc)
  }

  /** Statements after the context was inserted. */
  predicate Assigned(pc: PublishPc) {
    pc == TakeLogLock || pc == AppendLeaf || Logged(pc)
  }

  /** Statements after the predecessor passed its checks. */
  predicate Checked(pc: PublishPc) {
    pc == Assign || Assigned(pc)
  }

  predicate KeyOk(idem: map<IdemKey, IdemRow>, locks: Locks, t: Tid, th: Thread)
    requires th.Publisher?
  {
    && (th.deleted ==>
          && th.call.key.Some?
          && HoldsKey(locks, t, th.call.Slot())
          && th.call.Slot() in idem
          && idem[th.call.Slot()].expiresAt <= th.call.now)
    && (th.call.key.Some? && Claimed(th.pc) ==>
          HoldsKey(locks, t, th.call.Slot()) && (th.call.Slot() in idem ==> th.deleted))
  }

  predicate TargetOk(contexts: map<CtxId, Context>, locks: Locks, t: Tid, th: Thread)
    requires th.Publisher?
  {
    th.call.supersedes.Some? && Checked(th.pc) ==>
      && HoldsRow(locks, t, th.call.supersedes.value)
      && th.call.supersedes.value in contexts
      && CheckPredecessor(contexts[th.call.supersedes.value], th.call).None?
      && (Assigned(th.pc) ==> th.lineage == contexts[th.call.supersedes.value].lineage)
  }

  predicate IdsOk(r: Registry, ids: Ids, t: Tid, th: Thread)
    requires th.Publisher?
  {
    Assigned(th.pc) ==>
      && th.id in ids.ctx && ids.ctx[th.id] == t && th.id !in r.tables.contexts
      && (th.call.supersedes.None? ==>
            th.lineage in ids.lineage && ids.lineage[th.lineage] == t && th.lineage !in r.chains)
      && (r.log ==> th.call.minted)
  }

  predicate LeafOk(log: bool, leaves: map<nat, CtxId>, locks: Locks, t: Tid, th: Thread)
    requires th.Publisher?
  {
    && (log && (th.pc == AppendLeaf || Logged(th.pc)) ==> locks.log == Some(t))
    && (log && Logged(th.pc) ==> th.leaf == |leaves|)
  }

  predicate MarkOk(t: Tables, locks: Locks, tid: Tid, th: Thread)
    requires th.Marker?
  {
    && (th.mark != LockRow ==> HoldsRow(locks, tid, th.event.ctx) && th.event.ctx in t.contexts)
    && (th.mark != LockRow && th.mark != Decide ==> DecideLifecycle(EventsOf(t, th.event.ctx), th.event) == Applied)
  }

  predicate Committing(th: Thread) {
    (th.Publisher? && th.pc == PublishPc.CommitNow) || (th.Marker? && th.mark == MarkPc.CommitNow)
  }

  /** Identity values are drawn by the holder of the feed lock only, above every
      committed one. */
  predicate DrawnOk(r: Registry, locks: Locks, nextSeq: nat, t: Tid, th: Thread)
    requires th.Publisher? || th.Marker?
  {
    var pending := Pending(r.tables, th);
    && (!Appends(th) && !Committing(th) ==> th.drawn == [])
    && (Appends(th) || th.drawn != [] ==> locks.feed == Some(t))
    && (th.drawn != [] ==> Ascending(r.feed + th.drawn) && LastSeq(th.drawn) < nextSeq)
    && |th.drawn| <= |pending|
    && Numbers(th.drawn, pending[..|th.drawn|])
    && (Committing(th) ==> |th.drawn| == |pending|)
  }

  predicate PruneOk(changes: map<nat, FeedRow>, locks: Locks, t: Tid, th: Thread)
    requires th.Pruner?
  {
    && (th.prune != LockMarker ==> locks.marker == Some(t))
    && (th.prune == PrunePc.CommitNow ==>
          th.last in changes && forall q :: q in changes && q <= th.last ==> changes[q].appendedAt < th.cutoff)
  }

  /** A commit answers a call: it was made under the same key with the same content. */
  predicate Answers(c: Commit, call: Publish) {
    call.key.Some? && Keyed(c, call.Slot()) && c.call.hash == call.hash
  }

  ghost predicate ResultOk(r: Registry, result: Result) {
    match result
    case PublishDone(call, Replayed(response)) =>
      exists i :: 0 <= i < |r.commits| && Answers(r.commits[i], call) && RecordOf(r.commits[i]).response == response
    case MarkDone(e, marked) =>
      marked == Applied || marked == IdempotentReplay ==> e in EventsOf(r.tables, e.ctx)
    case _ => true
  }

  ghost predicate ThreadOk(r: Registry, locks: Locks, ids: Ids, nextSeq: nat, t: Tid, th: Thread) {
    match th
    case Publisher(_, _, _, _, _, _, _) =>
      && KeyOk(r.tables.idem, locks, t, th)
      && TargetOk(r.tables.contexts, locks, t, th)
      && IdsOk(r, ids, t, th)
      && LeafOk(r.log, r.tables.leaves, locks, t, th)
      && DrawnOk(r, locks, nextSeq, t, th)
    case Marker(_, _, _, _) =>
      && MarkOk(r.tables, locks, t, th)
      && DrawnOk(r, locks, nextSeq, t, th)
    case Pruner(_, _, _, _) => PruneOk(r.tables.changes, locks, t, th)
    case Finished(result) => ResultOk(r, result)
  }

  // ------------------------------------------------ what a thread's step respects

  ghost predicate LocksKept(l: Locks, l': Locks, u: Tid) {
    && (forall c :: c in l.rows && l.rows[c] != u ==> c in l'.rows && l'.rows[c] == l.rows[c])
    && (forall k :: k in l.keys && l.keys[k] != u ==> k in l'.keys && l'.keys[k] == l.keys[k])
    && (l.log.Some? && l.log.value != u ==> l'.log == l.log)
    && (l.feed.Some? && l.feed.value != u ==> l'.feed == l.feed)
    && (l.marker.Some? && l.marker.value != u ==> l'.marker == l.marker)
  }

  ghost predicate RowsKept(t: Tables, t': Tables, l: Locks, u: Tid) {
    forall c :: c in l.rows && l.rows[c] != u && c in t.contexts ==>
      c in t'.contexts && t'.contexts[c] == t.contexts[c] && EventsOf(t', c) == EventsOf(t, c)
  }

  ghost predicate KeysKept(idem: map<IdemKey, IdemRow>, idem': map<IdemKey, IdemRow>, l: Locks, u: Tid) {
    forall k :: k in l.keys && l.keys[k] != u ==>
      (k in idem <==> k in idem') && (k in idem ==> idem'[k] == idem[k])
  }

  ghost predicate LogKept(leaves: map<nat, CtxId>, leaves': map<nat, CtxId>, l: Locks, u: Tid) {
    l.log.Some? && l.log.value != u ==> leaves' == leaves
  }

  ghost predicate FeedKept(feed: seq<Numbered>, feed': seq<Numbered>, l: Locks, u: Tid) {
    l.feed.Some? && l.feed.value != u ==> feed' == feed
  }

  ghost predicate MarkerKept(r: Registry, r': Registry, l: Locks, u: Tid) {
    l.marker.Some? && l.marker.value != u ==>
      && (forall q :: q in r.tables.changes ==> q in r'.tables.changes && r'.tables.changes[q] == r.tables.changes[q])
      && (forall q :: q in r'.tables.changes && q !in r.tables.changes ==> q > LastSeq(r.feed))
  }

  ghost predicate IdsKept(r: Registry, r': Registry, ids: Ids, ids': Ids, u: Tid) {
    && (forall c :: c in ids.ctx ==> c in ids'.ctx && ids'.ctx[c] == ids.ctx[c])
    && (forall l :: l in ids.lineage ==> l in ids'.lineage && ids'.lineage[l] == ids.lineage[l])
    && (forall c :: c in ids.ctx && ids.ctx[c] != u && c !in r.tables.contexts ==> c !in r'.tables.contexts)
    && (forall l :: l in ids.lineage && ids.lineage[l] != u && l !in r.chains ==> l !in r'.chains)
  }

  /** History is only ever added to. */
  ghost predicate HistoryKept(r: Registry, r': Registry) {
    && r'.log == r.log
    && r.commits <= r'.commits
    && (forall c :: EventsOf(r.tables, c) <= EventsOf(r'.tables, c))
    && (forall c :: c in r.tables.contexts ==>
          c in r'.tables.contexts && r'.tables.contexts[c].lineage == r.tables.contexts[c].lineage)
  }

  ghost predicate Respects(s: System, s': System, u: Tid) {
    && LocksKept(s.locks, s'.locks, u)
    && RowsKept(s.reg.tables, s'.reg.tables, s.locks, u)
    && KeysKept(s.reg.tables.idem, s'.reg.tables.idem, s.locks, u)
    && LogKept(s.reg.tables.leaves, s'.reg.tables.leaves, s.locks, u)
    && FeedKept(s.reg.feed, s'.reg.feed, s.locks, u)
    && MarkerKept(s.reg, s'.reg, s.locks, u)
    && IdsKept(s.reg, s'.reg, s.ids, s'.ids, u)
    && HistoryKept(s.reg, s'.reg)
    && s.nextSeq <= s'.nextSeq
  }

  // -------------------------------------------------------- non-interference

  lemma FramePending(t: Tables, t': Tables, l: Locks, u: Tid, tid: Tid, th: Thread)
    requires RowsKept(t, t', l, u) && tid != u
    requires th.Publisher? ==> TargetOk(t.contexts, l, tid, th) && Checked(th.pc)
    requires th.Marker? ==> MarkOk(t, l, tid, th) && th.mark != LockRow
    ensures Pending(t', th) == Pending(t, th)
  {
  }

  lemma FramePublisher(s: System, s': System, u: Tid, t: Tid, th: Thread)
    requires Respects(s, s', u) && t != u && th.Publisher?
    requires ThreadOk(s.reg, s.locks, s.ids, s.nextSeq, t, th)
    ensures ThreadOk(s'.reg, s'.locks, s'.ids, s'.nextSeq, t, th)
  {
    if Checked(th.pc) { FramePending(s.reg.tables, s'.reg.tables, s.locks, u, t, th); }
  }

  lemma FrameMarker(s: System, s': System, u: Tid, t: Tid, th: Thread)
    requires Respects(s, s', u) && t != u && th.Marker?
    requires ThreadOk(s.reg, s.locks, s.ids, s.nextSeq, t, th)
    ensures ThreadOk(s'.reg, s'.locks, s'.ids, s'.nextSeq, t, th)
  {
    if th.mark != LockRow { FramePending(s.reg.tables, s'.reg.tables, s.locks, u, t, th); }
  }

  lemma FrameResult(r: Registry, r': Registry, result: Result)
    requires HistoryKept(r, r') && ResultOk(r, result)
    ensures ResultOk(r', result)
  {
    match result
    case PublishDone(call, Replayed(response)) =>
      var i :| 0 <= i < |r.commits| && Answers(r.commits[i], call) && RecordOf(r.commits[i]).response == response;
      assert r'.commits[i] == r.commits[i];
    case MarkDone(e, _) => assert EventsOf(r.tables, e.ctx) <= EventsOf(r'.tables, e.ctx);
    case _ =>
  }

  /** A step of one thread leaves what every other thread relies on intact. */
  lemma NonInterference(s: System, s': System, u: Tid, t: Tid, th: Thread)
    requires Respects(s, s', u) && t != u
    requires forall q :: q in s.reg.tables.changes ==> q <= LastSeq(s.reg.feed)
    requires ThreadOk(s.reg, s.locks, s.ids, s.nextSeq, t, th)
    ensures ThreadOk(s'.reg, s'.locks, s'.ids, s'.nextSeq, t, th)
  {
    match th
    case Publisher(_, _, _, _, _, _, _) => FramePublisher(s, s', u, t, th);
    case Marker(_, _, _, _) => FrameMarker(s, s', u, t, th);
    case Pruner(_, _, _, _) =>
    case Finished(result) => FrameResult(s.reg, s'.reg, result);
  }
}
