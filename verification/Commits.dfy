/** Commits: each is one serial step, and disturbs no other thread. */
module Commits {
  import opened Tables
  import opened SerialRegistry
  import opened SerialProofs
  import opened Transactions
  import opened Isolation
  import opened Serializability

  /** What the publisher relied on is what the serial step asks for. */
  lemma PublishCommitIsSerial(s: System, s': System, u: Tid)
    requires Inv(s.reg) && Mine(s, u) && At(s, u, PublishPc.CommitNow) && PublishCommitStep(s, s', u)
    ensures var th := s.threads[u]; PublishStep(s.reg, s'.reg, th.call, th.id, th.lineage, th.drawn)
  {
    var th := s.threads[u];
    var pending := Pending(s.reg.tables, th);
    assert pending[..|th.drawn|] == pending;
    assert s.reg.feed + [] == s.reg.feed;
    assert Published(s.reg.tables, s.reg.log, th)
        == PublishEffect(s.reg.tables, s.reg.log, th.call, th.id, th.lineage, th.drawn);
  }

  lemma PublishKeepsRows(s: System, s': System, u: Tid)
    requires Mine(s, u) && At(s, u, PublishPc.CommitNow) && PublishCommitStep(s, s', u)
    ensures RowsKept(s.reg.tables, s'.reg.tables, s.locks, u)
    ensures KeysKept(s.reg.tables.idem, s'.reg.tables.idem, s.locks, u)
    ensures LogKept(s.reg.tables.leaves, s'.reg.tables.leaves, s.locks, u)
    ensures FeedKept(s.reg.feed, s'.reg.feed, s.locks, u)
  {
    assert s.reg.feed + [] == s.reg.feed;
    var t, t' := s.reg.tables, s'.reg.tables;
    forall c | c in s.locks.rows && s.locks.rows[c] != u && c in t.contexts
      ensures c in t'.contexts && t'.contexts[c] == t.contexts[c]
    {
      assert t'.contexts == ContextsAfter(t.contexts, s.threads[u].call, s.threads[u].id, s.threads[u].lineage);
    }
  }

  /** Only rows above the last committed one are ever added. */
  lemma InsertKeepsMarker(r: Registry, r': Registry, l: Locks, u: Tid, drawn: seq<Numbered>)
    requires FeedInv(r.tables.changes, r.tables.prunedThrough, r.feed)
    requires r'.tables.changes == Insert(r.tables.changes, drawn) && Ascending(r.feed + drawn)
    ensures MarkerKept(r, r', l, u)
  {
    AscendingParts(r.feed, drawn);
    InsertKeys(r.tables.changes, drawn);
    forall q | q in r.tables.changes
      ensures q in r'.tables.changes && r'.tables.changes[q] == r.tables.changes[q]
    {
      assert Numbered(q, r.tables.changes[q]) in r.feed;
      assert forall n :: n in drawn ==> n.seqNo != q;
    }
  }

  /** A commit adds the identifiers its own thread drew, and no others. */
  lemma IdsGrow(r: Registry, r': Registry, ids: Ids, u: Tid, id: CtxId, lineage: LineageId)
    requires r'.tables.contexts.Keys == r.tables.contexts.Keys + {id} && r'.chains.Keys == r.chains.Keys + {lineage}
    requires id in ids.ctx && ids.ctx[id] == u
    requires lineage in r.chains || (lineage in ids.lineage && ids.lineage[lineage] == u)
    ensures IdsKept(r, r', ids, ids, u)
  {
  }

  lemma HistoryGrowsOnly(r: Registry, r': Registry, c: Commit)
    requires r'.log == r.log && r'.commits == r.commits + [c] && r'.tables.events == r.tables.events
    requires forall k :: k in r.tables.contexts ==>
               k in r'.tables.contexts && r'.tables.contexts[k].(status := r.tables.contexts[k].status) == r.tables.contexts[k]
    ensures HistoryKept(r, r')
  {
  }

  /** The publisher's lineage is its own draw, or one that exists already. */
  lemma LineageOwned(s: System, u: Tid)
    requires Mine(s, u) && At(s, u, PublishPc.CommitNow)
    requires LineageInv(s.reg.tables.contexts, s.reg.chains)
    ensures var l := s.threads[u].lineage; l in s.reg.chains || (l in s.ids.lineage && s.ids.lineage[l] == u)
  {
  }

  /** What a commit changes besides the rows. */
  lemma CommitShape(s: System, s': System, u: Tid)
    requires At(s, u, PublishPc.CommitNow) && PublishCommitStep(s, s', u)
    ensures var th := s.threads[u];
            && s'.reg.tables.contexts == ContextsAfter(s.reg.tables.contexts, th.call, th.id, th.lineage)
            && s'.reg.tables.events == s.reg.tables.events && s'.reg.tables.changes == Insert(s.reg.tables.changes, th.drawn)
            && s'.reg.tables.prunedThrough == s.reg.tables.prunedThrough && s'.reg.evicted == s.reg.evicted
            && s'.reg.log == s.reg.log && s'.reg.commits == s.reg.commits + [Commit(th.call, th.id, th.lineage)]
            && s'.reg.chains.Keys == s.reg.chains.Keys + {th.lineage} && s'.reg.feed == s.reg.feed + th.drawn
            && s'.ids == s.ids && s'.nextSeq == s.nextSeq && s'.locks == Release(s.locks, u)
  {
  }

  /** What the committing thread drew is its own. */
  lemma CommitDrew(s: System, u: Tid)
    requires Mine(s, u) && At(s, u, PublishPc.CommitNow)
    ensures var th := s.threads[u];
            && th.id in s.ids.ctx && s.ids.ctx[th.id] == u && (th.drawn != [] ==> LastSeq(th.drawn) < s.nextSeq)
  {
  }

  lemma PublishRespects(s: System, s': System, u: Tid)
    requires Inv(s.reg) && Mine(s, u) && At(s, u, PublishPc.CommitNow) && PublishCommitStep(s, s', u)
    ensures Respects(s, s', u)
  {
    var th := s.threads[u];
    ReleasingKeeps(s.locks, u);
    PublishCommitIsSerial(s, s', u);
    PublishKeepsRows(s, s', u);
    LineageOwned(s, u);
    CommitDrew(s, u);
    CommitShape(s, s', u);
    PublishWrites(s.reg.tables.contexts, th.call, th.id, th.lineage);
    IdsGrow(s.reg, s'.reg, s.ids, u, th.id, th.lineage);
    HistoryGrowsOnly(s.reg, s'.reg, Commit(th.call, th.id, th.lineage));
    InsertKeepsMarker(s.reg, s'.reg, s.locks, u, th.drawn);
  }

  lemma AuthorsGrow(commits: seq<Commit>, authors: seq<Tid>, threads: map<Tid, Thread>, u: Tid, c: Commit, th: Thread)
    requires AuthorsOk(commits, authors, threads)
    requires u in threads && !threads[u].Finished? && InsertedBy(th, c)
    ensures AuthorsOk(commits + [c], authors + [u], threads[u := th])
  {
  }

  lemma DrawnGrows(r: Registry, r': Registry, ids: Ids, nextSeq: nat, id: CtxId, lineage: LineageId, drawn: seq<Numbered>)
    requires Drawn(r, ids, nextSeq)
    requires r'.tables.contexts.Keys == r.tables.contexts.Keys + {id} && id in ids.ctx
    requires r'.chains.Keys == r.chains.Keys + {lineage} && (lineage in r.chains || lineage in ids.lineage)
    requires r'.feed == r.feed + drawn && (drawn != [] ==> LastSeq(drawn) < nextSeq)
    ensures Drawn(r', ids, nextSeq)
  {
    if drawn == [] { assert r'.feed == r.feed; }
  }

  lemma PublishCommitDraws(s: System, s': System, u: Tid)
    requires Drawn(s.reg, s.ids, s.nextSeq) && LineageInv(s.reg.tables.contexts, s.reg.chains)
    requires Mine(s, u) && At(s, u, PublishPc.CommitNow) && PublishCommitStep(s, s', u)
    ensures Drawn(s'.reg, s'.ids, s'.nextSeq)
  {
    var th := s.threads[u];
    LineageOwned(s, u);
    CommitDrew(s, u);
    CommitShape(s, s', u);
    PublishWrites(s.reg.tables.contexts, th.call, th.id, th.lineage);
    DrawnGrows(s.reg, s'.reg, s.ids, s.nextSeq, th.id, th.lineage, th.drawn);
  }

  lemma PublishCommitSettles(s: System, s': System, u: Tid)
    requires Inv(s.reg) && ThreadsOk(s) && At(s, u, PublishPc.CommitNow) && PublishCommitStep(s, s', u)
    ensures ThreadsOk(s')
  {
    PublishRespects(s, s', u);
    Settle(s, s', u);
  }

  lemma PublishCommitKeeps(s: System, s': System, u: Tid)
    requires SystemInv(s) && At(s, u, PublishPc.CommitNow) && PublishCommitStep(s, s', u)
    ensures SystemInv(s')
  {
    var th := s.threads[u];
    assert Mine(s, u);
    assert Inv(s'.reg) by {
      PublishCommitIsSerial(s, s', u);
      PublishKeepsInv(s.reg, s'.reg, th.call, th.id, th.lineage, th.drawn);
    }
    PublishCommitDraws(s, s', u);
    PublishCommitSettles(s, s', u);
    AuthorsGrow(s.reg.commits, s.authors, s.threads, u, Commit(th.call, th.id, th.lineage), s'.threads[u]);
  }

  // --------------------------------------------------------------- lifecycle

  lemma MarkCommitIsSerial(s: System, s': System, u: Tid)
    requires Ascending(s.reg.feed) && Mine(s, u) && MarkAt(s, u, MarkPc.CommitNow) && MarkCommitStep(s, s', u)
    ensures var th := s.threads[u]; LifecycleStep(s.reg, s'.reg, th.event, th.minting, th.drawn)
  {
    var th := s.threads[u];
    var pending := Pending(s.reg.tables, th);
    assert pending[..|th.drawn|] == pending;
    assert s.reg.feed + [] == s.reg.feed;
  }

  lemma MarkKeepsRows(s: System, s': System, u: Tid)
    requires Mine(s, u) && MarkAt(s, u, MarkPc.CommitNow) && MarkCommitStep(s, s', u)
    ensures RowsKept(s.reg.tables, s'.reg.tables, s.locks, u) && HistoryKept(s.reg, s'.reg)
  {
  }

  lemma MarkRespects(s: System, s': System, u: Tid)
    requires FeedInv(s.reg.tables.changes, s.reg.tables.prunedThrough, s.reg.feed)
    requires Mine(s, u) && MarkAt(s, u, MarkPc.CommitNow) && MarkCommitStep(s, s', u)
    ensures Respects(s, s', u)
  {
    ReleasingKeeps(s.locks, u);
    MarkCommitIsSerial(s, s', u);
    MarkKeepsRows(s, s', u);
    InsertKeepsMarker(s.reg, s'.reg, s.locks, u, s.threads[u].drawn);
    assert s.reg.feed + [] == s.reg.feed;
  }

  lemma MarkCommitKeeps(s: System, s': System, u: Tid)
    requires SystemInv(s) && MarkAt(s, u, MarkPc.CommitNow) && MarkCommitStep(s, s', u)
    ensures SystemInv(s')
  {
    var th := s.threads[u];
    assert Mine(s, u);
    MarkCommitIsSerial(s, s', u);
    LifecycleKeepsInv(s.reg, s'.reg, th.event, th.minting, th.drawn);
    assert ThreadsOk(s') by {
      MarkRespects(s, s', u);
      Settle(s, s', u);
    }
    AuthorsFrame(s.reg.commits, s.authors, s.threads, u, s'.threads[u]);
    if th.drawn == [] { assert s.reg.feed + [] == s.reg.feed; }
  }

  // --------------------------------------------------- retention and eviction

  lemma PruneRespects(s: System, s': System, u: Tid)
    requires Mine(s, u) && PruneAt(s, u, PrunePc.CommitNow) && PruneCommitStep(s, s', u)
    ensures Respects(s, s', u)
  {
    ReleasingKeeps(s.locks, u);
  }

  lemma PruneCommitKeeps(s: System, s': System, u: Tid)
    requires SystemInv(s) && PruneAt(s, u, PrunePc.CommitNow) && PruneCommitStep(s, s', u)
    ensures SystemInv(s')
    ensures PruneStep(s.reg, s'.reg, s.threads[u].last, s.threads[u].cutoff)
  {
    assert Mine(s, u);
    StepKeepsInv(s.reg, s'.reg, DoPrune(s.threads[u].last, s.threads[u].cutoff));
    assert ThreadsOk(s') by {
      PruneRespects(s, s', u);
      Settle(s, s', u);
    }
    AuthorsFrame(s.reg.commits, s.authors, s.threads, u, s'.threads[u]);
  }

  lemma EvictRespects(s: System, s': System, k: IdemKey, clock: int, u: Tid)
    requires EvictRecordStep(s, s', k, clock)
    ensures Respects(s, s', u)
  {
  }

  /** The eviction task holds no lock, and takes no record another transaction holds. */
  lemma EvictRecordKeeps(s: System, s': System, k: IdemKey, clock: int)
    requires SystemInv(s) && EvictRecordStep(s, s', k, clock)
    ensures SystemInv(s')
  {
    StepKeepsInv(s.reg, s'.reg, DoEvict(k, clock));
    FeedTop(s.reg);
    forall t | t in s'.threads
      ensures ThreadOk(s'.reg, s'.locks, s'.ids, s'.nextSeq, t, s'.threads[t])
    {
      EvictRespects(s, s', k, clock, t + 1);
      NonInterference(s, s', t + 1, t, s.threads[t]);
    }
  }
}
