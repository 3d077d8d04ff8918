/** Every interleaving of the transactions is equivalent to running the committed
    ones one at a time, in commit order. */
module Serializability {
  import opened Tables
  import opened SerialRegistry
  import opened SerialProofs
  import opened Transactions
  import opened Isolation

  // --------------------------------------------------------------- invariant

  /** The thread made this commit: it was answered so, or the answer was lost. */
  predicate InsertedBy(th: Thread, c: Commit) {
    || th == Finished(PublishDone(c.call, Inserted(RecordOf(c).response)))
    || th == Finished(PublishDone(c.call, Refused(CommitUnknown)))
  }

  predicate DidInsert(th: Thread) {
    th.Finished? && th.result.PublishDone? && th.result.outcome.Inserted?
  }

  /** Each committed publish was made by one thread, and each thread that reports
      `Inserted` made one. */
  predicate AuthorsOk(commits: seq<Commit>, authors: seq<Tid>, threads: map<Tid, Thread>) {
    && |authors| == |commits|
    && (forall i :: 0 <= i < |authors| ==> authors[i] in threads && InsertedBy(threads[authors[i]], commits[i]))
    && (forall i, j :: 0 <= i < j < |authors| ==> authors[i] != authors[j])
    && (forall t :: t in threads && DidInsert(threads[t]) ==> t in authors)
  }

  predicate Drawn(r: Registry, ids: Ids, nextSeq: nat) {
    && LastSeq(r.feed) < nextSeq
    && (forall c :: c in r.tables.contexts ==> c in ids.ctx)
    && (forall l :: l in r.chains ==> l in ids.lineage)
  }

  ghost predicate ThreadsOk(s: System) {
    forall t :: t in s.threads ==> ThreadOk(s.reg, s.locks, s.ids, s.nextSeq, t, s.threads[t])
  }

  ghost predicate SystemInv(s: System) {
    && Inv(s.reg)
    && Drawn(s.reg, s.ids, s.nextSeq)
    && ThreadsOk(s)
    && AuthorsOk(s.reg.commits, s.authors, s.threads)
  }

  // ------------------------------------------------------------------- locks

  lemma TakingKeeps(l: Locks, u: Tid, c: CtxId, k: IdemKey)
    ensures RowFree(l, u, c) ==> LocksKept(l, WithRow(l, u, c), u)
    ensures KeyFree(l, u, k) ==> LocksKept(l, WithKey(l, u, k), u)
  {
  }

  lemma ReleasingKeeps(l: Locks, u: Tid)
    ensures LocksKept(l, Release(l, u), u)
  {
  }

  // ------------------------------------------------------------ private steps

  /** A step that only moves its own thread along, taking free locks. */
  predicate Private(s: System, s': System, u: Tid) {
    && u in s'.threads
    && s'.reg == s.reg && s'.authors == s.authors && s'.threads == s.threads[u := s'.threads[u]]
    && (forall c :: c in s.ids.ctx ==> c in s'.ids.ctx && s'.ids.ctx[c] == s.ids.ctx[c])
    && (forall l :: l in s.ids.lineage ==> l in s'.ids.lineage && s'.ids.lineage[l] == s.ids.lineage[l])
    && s.nextSeq <= s'.nextSeq
  }

  lemma PrivateRespects(s: System, s': System, u: Tid)
    requires Private(s, s', u) && LocksKept(s.locks, s'.locks, u)
    ensures Respects(s, s', u)
  {
  }

  lemma FeedTop(r: Registry)
    requires Inv(r)
    ensures forall q :: q in r.tables.changes ==> q <= LastSeq(r.feed)
  {
    assert r.feed + [] == r.feed;
    AscendingParts(r.feed, []);
  }

  /** Once the moving thread is in order, all of them are. */
  lemma Settle(s: System, s': System, u: Tid)
    requires Inv(s.reg) && ThreadsOk(s) && Respects(s, s', u)
    requires u in s'.threads && s'.threads == s.threads[u := s'.threads[u]]
    requires ThreadOk(s'.reg, s'.locks, s'.ids, s'.nextSeq, u, s'.threads[u])
    ensures ThreadsOk(s')
  {
    FeedTop(s.reg);
    forall t | t in s'.threads && t != u
      ensures ThreadOk(s'.reg, s'.locks, s'.ids, s'.nextSeq, t, s'.threads[t])
    {
      NonInterference(s, s', u, t, s.threads[t]);
    }
  }

  lemma AuthorsFrame(commits: seq<Commit>, authors: seq<Tid>, threads: map<Tid, Thread>, u: Tid, th: Thread)
    requires AuthorsOk(commits, authors, threads)
    requires u in threads ==> !threads[u].Finished?
    requires !DidInsert(th)
    ensures AuthorsOk(commits, authors, threads[u := th])
  {
  }

  lemma SettlePrivate(s: System, s': System, u: Tid)
    requires SystemInv(s) && Private(s, s', u) && LocksKept(s.locks, s'.locks, u)
    requires u in s.threads ==> !s.threads[u].Finished?
    requires ThreadOk(s'.reg, s'.locks, s'.ids, s'.nextSeq, u, s'.threads[u]) && !DidInsert(s'.threads[u])
    ensures SystemInv(s')
  {
    AuthorsFrame(s.reg.commits, s.authors, s.threads, u, s'.threads[u]);
    assert ThreadsOk(s') by {
      PrivateRespects(s, s', u);
      Settle(s, s', u);
    }
  }

  // ----------------------------------------------- each private step, by itself

  ghost predicate Mine(s: System, u: Tid) {
    u in s.threads && ThreadOk(s.reg, s.locks, s.ids, s.nextSeq, u, s.threads[u])
  }

  /** The step was private, took only free locks, and left its thread in order. */
  ghost predicate Moved(s: System, s': System, u: Tid) {
    && Private(s, s', u)
    && LocksKept(s.locks, s'.locks, u)
    && ThreadOk(s'.reg, s'.locks, s'.ids, s'.nextSeq, u, s'.threads[u])
    && !DidInsert(s'.threads[u])
  }

  lemma EndMoves(s: System, u: Tid, r: Result)
    requires ResultOk(s.reg, r) && !DidInsert(Finished(r))
    ensures Moved(s, End(s, u, r), u)
  {
    ReleasingKeeps(s.locks, u);
  }

  /** A record only ever answers with the response of the commit it belongs to. */
  lemma ReplayIsOnRecord(r: Registry, call: Publish)
    requires OnRecord(r.tables.idem, r.commits) && call.key.Some? && call.Slot() in r.tables.idem
    ensures ResultOk(r, PublishDone(call, ReplayAnswer(r.tables.idem[call.Slot()], call)))
  {
    var i :| RecordIs(r.tables.idem[call.Slot()], r.commits, call.Slot(), i);
    if r.tables.idem[call.Slot()].hash == call.hash { assert Answers(r.commits[i], call); }
  }

  /** Before its checks, and after its rollback, a publish relies on nothing. */
  lemma IdleOk(r: Registry, locks: Locks, ids: Ids, nextSeq: nat, u: Tid, th: Thread)
    requires th.Publisher? && !Checked(th.pc) && th.drawn == []
    requires KeyOk(r.tables.idem, locks, u, th)
    ensures ThreadOk(r, locks, ids, nextSeq, u, th)
  {
  }

  lemma EvictKeyMoves(s: System, s': System, u: Tid, found: bool)
    requires Mine(s, u) && At(s, u, EvictKey) && EvictKeyStep(s, s', u, found)
    ensures Moved(s, s', u)
  {
  }

  lemma FindKeyMoves(s: System, s': System, u: Tid, found: bool)
    requires Mine(s, u) && At(s, u, FindKey) && FindKeyStep(s, s', u, found)
    requires OnRecord(s.reg.tables.idem, s.reg.commits)
    ensures Moved(s, s', u)
  {
    var call := s.threads[u].call;
    if found && s.reg.tables.idem[call.Slot()].expiresAt > call.now {
      ReplayIsOnRecord(s.reg, call);
      EndMoves(s, u, PublishDone(call, ReplayAnswer(s.reg.tables.idem[call.Slot()], call)));
    } else {
      if found { TakingKeeps(s.locks, u, s.threads[u].id, call.Slot()); }
      IdleOk(s.reg, s'.locks, s.ids, s.nextSeq, u, s'.threads[u]);
    }
  }

  lemma TargetLocked(s: System, s': System, u: Tid, p: CtxId, pc: PublishPc)
    requires Mine(s, u) && At(s, u, LockTarget) && RowFree(s.locks, u, p)
    requires s' == Put(s.(locks := WithRow(s.locks, u, p)), u, s.threads[u].(pc := pc))
    requires pc == RaceReplay
             || (pc == Assign && s.threads[u].call.supersedes == Some(p) && p in s.reg.tables.contexts
                 && CheckPredecessor(s.reg.tables.contexts[p], s.threads[u].call).None?)
    ensures Moved(s, s', u)
  {
    TakingKeeps(s.locks, u, p, IdemKey(s.threads[u].call.agent, ""));
  }

  lemma LockTargetMoves(s: System, s': System, u: Tid)
    requires Mine(s, u) && At(s, u, LockTarget) && LockTargetStep(s, s', u)
    ensures Moved(s, s', u)
  {
    if s'.threads[u].Finished? {
      EndMoves(s, u, s'.threads[u].result);
    } else if s.threads[u].call.supersedes.Some? {
      TargetLocked(s, s', u, s.threads[u].call.supersedes.value, s'.threads[u].pc);
    }
  }

  lemma RaceReplayMoves(s: System, s': System, u: Tid)
    requires Mine(s, u) && At(s, u, RaceReplay) && RaceReplayStep(s, s', u)
    requires OnRecord(s.reg.tables.idem, s.reg.commits)
    ensures Moved(s, s', u)
  {
    if s.threads[u].call.Slot() in s.reg.tables.idem { ReplayIsOnRecord(s.reg, s.threads[u].call); }
    EndMoves(s, u, s'.threads[u].result);
  }

  lemma AssignMoves(s: System, s': System, u: Tid, id: CtxId, lineage: LineageId)
    requires Mine(s, u) && At(s, u, Assign) && AssignStep(s, s', u, id, lineage)
    requires Drawn(s.reg, s.ids, s.nextSeq)
    ensures Moved(s, s', u)
  {
    if s'.threads[u].Finished? { EndMoves(s, u, s'.threads[u].result); } else { AssignedMoves(s, s', u, id, lineage); }
  }

  lemma AssignedIds(s: System, s': System, u: Tid, id: CtxId, lineage: LineageId)
    requires At(s, u, Assign) && AssignStep(s, s', u, id, lineage) && !s'.threads[u].Finished?
    requires Drawn(s.reg, s.ids, s.nextSeq)
    ensures Private(s, s', u) && IdsOk(s'.reg, s'.ids, u, s'.threads[u])
  {
  }

  /** Drawing identifiers changes nothing else the thread relies on. */
  lemma AssignedRest(r: Registry, locks: Locks, nextSeq: nat, u: Tid, th: Thread, th': Thread)
    requires th.Publisher? && th.pc == Assign && (th'.Publisher? && (th'.pc == TakeLogLock || (!r.log && th'.pc == FlipTarget)))
    requires th' == th.(pc := th'.pc, id := th'.id, lineage := th'.lineage)
    requires KeyOk(r.tables.idem, locks, u, th) && TargetOk(r.tables.contexts, locks, u, th) && DrawnOk(r, locks, nextSeq, u, th)
    requires th.call.supersedes.Some? ==> th'.lineage == LineageFor(r.tables, th.call, th'.lineage)
    ensures KeyOk(r.tables.idem, locks, u, th') && TargetOk(r.tables.contexts, locks, u, th')
    ensures LeafOk(r.log, r.tables.leaves, locks, u, th') && DrawnOk(r, locks, nextSeq, u, th')
  {
  }

  lemma AssignedMoves(s: System, s': System, u: Tid, id: CtxId, lineage: LineageId)
    requires Mine(s, u) && At(s, u, Assign) && AssignStep(s, s', u, id, lineage) && !s'.threads[u].Finished?
    requires Drawn(s.reg, s.ids, s.nextSeq)
    ensures Moved(s, s', u)
  {
    AssignedIds(s, s', u, id, lineage);
    AssignedRest(s.reg, s.locks, s.nextSeq, u, s.threads[u], s'.threads[u]);
  }

  lemma TakeLogLockMoves(s: System, s': System, u: Tid)
    requires Mine(s, u) && At(s, u, TakeLogLock) && TakeLogLockStep(s, s', u)
    ensures Moved(s, s', u)
  {
  }

  lemma AppendLeafMoves(s: System, s': System, u: Tid)
    requires Mine(s, u) && At(s, u, AppendLeaf) && AppendLeafStep(s, s', u)
    ensures Moved(s, s', u)
  {
  }

  lemma FlipTargetMoves(s: System, s': System, u: Tid)
    requires Mine(s, u) && At(s, u, FlipTarget) && FlipTargetStep(s, s', u)
    ensures Moved(s, s', u)
  {
  }

  lemma LostKeyMoves(s: System, s': System, u: Tid)
    requires At(s, u, ClaimKey) && !s.threads[u].deleted
    requires s' == s.(locks := Release(s.locks, u), threads := s.threads[u := s.threads[u].(pc := ReadBack, drawn := [])])
    ensures Moved(s, s', u)
  {
    ReleasingKeeps(s.locks, u);
    UnclaimedKey(s.reg.tables.idem, s'.locks, u, s'.threads[u]);
    IdleOk(s.reg, s'.locks, s.ids, s.nextSeq, u, s'.threads[u]);
  }

  lemma UnclaimedKey(idem: map<IdemKey, IdemRow>, locks: Locks, u: Tid, th: Thread)
    requires th.Publisher? && !th.deleted && !Claimed(th.pc)
    ensures KeyOk(idem, locks, u, th)
  {
  }

  lemma WonKeyMoves(s: System, s': System, u: Tid)
    requires Mine(s, u) && At(s, u, ClaimKey) && ClaimKeyStep(s, s', u)
    requires s.threads[u].call.Slot() in s.reg.tables.idem ==> s.threads[u].deleted
    ensures Moved(s, s', u)
  {
    TakingKeeps(s.locks, u, s.threads[u].id, s.threads[u].call.Slot());
  }

  lemma ClaimKeyMoves(s: System, s': System, u: Tid)
    requires Mine(s, u) && At(s, u, ClaimKey) && ClaimKeyStep(s, s', u)
    ensures Moved(s, s', u)
  {
    if s.threads[u].call.Slot() in s.reg.tables.idem && !s.threads[u].deleted {
      LostKeyMoves(s, s', u);
    } else {
      WonKeyMoves(s, s', u);
    }
  }

  lemma ReadBackMoves(s: System, s': System, u: Tid)
    requires Mine(s, u) && At(s, u, ReadBack) && ReadBackStep(s, s', u)
    requires OnRecord(s.reg.tables.idem, s.reg.commits)
    ensures Moved(s, s', u)
  {
    if s.threads[u].call.Slot() in s.reg.tables.idem { ReplayIsOnRecord(s.reg, s.threads[u].call); }
    EndMoves(s, u, s'.threads[u].result);
  }

  /** Past the claim, only the drawn rows still change. */
  lemma FeedPhase(s: System, s': System, u: Tid)
    requires Mine(s, u) && (WantsFeed(s.threads[u]) || Appends(s.threads[u]))
    requires Private(s, s', u) && s'.ids == s.ids && s'.locks == s.locks.(feed := s'.locks.feed)
    requires (s'.threads[u] == ToAppend(s.threads[u]) || s'.threads[u] == ToCommit(s.threads[u])
              || (Appends(s.threads[u]) && Appends(s'.threads[u]) && s'.threads[u] == s.threads[u].(drawn := s'.threads[u].drawn)))
    requires DrawnOk(s.reg, s'.locks, s'.nextSeq, u, s'.threads[u])
    ensures ThreadOk(s'.reg, s'.locks, s'.ids, s'.nextSeq, u, s'.threads[u])
  {
  }

  lemma LastDrawn(r: Registry, locks: Locks, nextSeq: nat, u: Tid, th: Thread)
    requires th.Publisher? || th.Marker?
    requires DrawnOk(r, locks, nextSeq, u, th) && Appends(th) && |th.drawn| >= |Pending(r.tables, th)|
    ensures DrawnOk(r, locks, nextSeq, u, ToCommit(th))
  {
    assert Pending(r.tables, ToCommit(th)) == Pending(r.tables, th);
  }

  lemma TakeFeedLockMoves(s: System, s': System, u: Tid)
    requires Mine(s, u) && WantsFeed(s.threads[u]) && TakeFeedLockStep(s, s', u)
    ensures Moved(s, s', u)
  {
    WaitingDrew(s.reg, s'.locks, s.nextSeq, u, s.threads[u], s'.threads[u]);
    FeedPhase(s, s', u);
  }

  /** Before the feed lock nothing was drawn. */
  lemma WaitingDrew(r: Registry, locks: Locks, nextSeq: nat, u: Tid, th: Thread, th': Thread)
    requires (th.Publisher? || th.Marker?) && WantsFeed(th) && th.drawn == []
    requires (th' == ToCommit(th) && Pending(r.tables, th) == []) || (th' == ToAppend(th) && locks.feed == Some(u))
    ensures DrawnOk(r, locks, nextSeq, u, th')
  {
    assert Pending(r.tables, th') == Pending(r.tables, th);
  }

  lemma DrawGrows(feed: seq<Numbered>, drawn: seq<Numbered>, n: Numbered)
    requires Ascending(feed + drawn) && n.seqNo > LastSeq(feed)
    requires drawn != [] ==> LastSeq(drawn) < n.seqNo
    ensures Ascending(feed + (drawn + [n])) && LastSeq(drawn + [n]) == n.seqNo
  {
    assert feed + (drawn + [n]) == feed + drawn + [n];
    OneMoreAscends(feed + drawn, n);
  }

  lemma OneMoreAscends(rows: seq<Numbered>, n: Numbered)
    requires Ascending(rows) && n.seqNo > LastSeq(rows)
    ensures Ascending(rows + [n])
  {
  }

  lemma NumbersGrow(drawn: seq<Numbered>, pending: seq<Change>, n: Numbered)
    requires |drawn| < |pending| && Numbers(drawn, pending[..|drawn|]) && n.row.change == pending[|drawn|]
    ensures Numbers(drawn + [n], pending[..|drawn + [n]|])
  {
    assert pending[..|drawn + [n]|] == pending[..|drawn|] + [pending[|drawn|]];
  }

  lemma DrawnStaysOk(r: Registry, locks: Locks, nextSeq: nat, u: Tid, th: Thread, at: int)
    requires th.Publisher? || th.Marker?
    requires DrawnOk(r, locks, nextSeq, u, th) && Appends(th)
    requires Ascending(r.feed) && LastSeq(r.feed) < nextSeq && |th.drawn| < |Pending(r.tables, th)|
    ensures DrawnOk(r, locks, nextSeq + 1, u,
                    th.(drawn := th.drawn + [Numbered(nextSeq, FeedRow(Pending(r.tables, th)[|th.drawn|], at))]))
  {
    var pending := Pending(r.tables, th);
    var n := Numbered(nextSeq, FeedRow(pending[|th.drawn|], at));
    var th' := th.(drawn := th.drawn + [n]);
    assert Pending(r.tables, th') == pending;
    assert r.feed + [] == r.feed;
    DrawGrows(r.feed, th.drawn, n);
    NumbersGrow(th.drawn, pending, n);
  }

  lemma DrawMoves(s: System, s': System, u: Tid, th': Thread)
    requires Mine(s, u) && Appends(s.threads[u]) && s' == Put(s.(nextSeq := s'.nextSeq), u, th') && s.nextSeq <= s'.nextSeq
    requires th' == ToCommit(s.threads[u]) || (Appends(th') && th' == s.threads[u].(drawn := th'.drawn))
    requires DrawnOk(s.reg, s.locks, s'.nextSeq, u, th')
    ensures Moved(s, s', u)
  {
    FeedPhase(s, s', u);
  }

  lemma AppendFeedMoves(s: System, s': System, u: Tid, at: int)
    requires Mine(s, u) && Appends(s.threads[u]) && AppendFeedStep(s, s', u, at)
    requires Ascending(s.reg.feed) && LastSeq(s.reg.feed) < s.nextSeq
    ensures Moved(s, s', u)
  {
    var th := s.threads[u];
    if |th.drawn| < |Pending(s.reg.tables, th)| {
      DrawnStaysOk(s.reg, s.locks, s.nextSeq, u, th, at);
    } else {
      LastDrawn(s.reg, s.locks, s.nextSeq, u, th);
    }
    DrawMoves(s, s', u, s'.threads[u]);
  }

  lemma LockRowMoves(s: System, s': System, u: Tid)
    requires Mine(s, u) && MarkAt(s, u, LockRow) && LockRowStep(s, s', u)
    ensures Moved(s, s', u)
  {
    if s'.threads[u].Finished? { EndMoves(s, u, s'.threads[u].result); }
  }

  lemma DecideMoves(s: System, s': System, u: Tid)
    requires Mine(s, u) && MarkAt(s, u, Decide) && DecideStep(s, s', u)
    ensures Moved(s, s', u)
  {
    if s'.threads[u].Finished? { EndMoves(s, u, s'.threads[u].result); }
  }

  lemma LockMarkerMoves(s: System, s': System, u: Tid)
    requires Mine(s, u) && PruneAt(s, u, LockMarker) && LockMarkerStep(s, s', u)
    ensures Moved(s, s', u)
  {
  }

  lemma ScanOldestMoves(s: System, s': System, u: Tid, last: nat, none: bool)
    requires Mine(s, u) && PruneAt(s, u, ScanOldest) && ScanOldestStep(s, s', u, last, none)
    ensures Moved(s, s', u)
  {
    if none { EndMoves(s, u, PruneDone); }
  }

  lemma BeginMoves(s: System, s': System, u: Tid, th: Thread)
    requires u !in s.threads && Starting(th) && s' == Put(s, u, th)
    ensures Moved(s, s', u)
  {
  }
}
