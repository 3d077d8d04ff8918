/** What the registry promises of every execution, however its transactions interleave. */
module RegistryTheorems {
  import opened Tables
  import opened SerialRegistry
  import opened SerialProofs
  import opened LineageReads
  import opened Transactions
  import opened Isolation
  import opened Serializability
  import opened Commits
  import opened Executions

  // ------------------------------------------------------------ what only grows

  /** A context keeps everything but its status and its retraction flag. */
  predicate Kept(c: Context, c': Context) {
    c' == c.(status := c'.status, retracted := c'.retracted)
  }

  ghost predicate Extends(r: Registry, r': Registry) {
    && r.commits <= r'.commits
    && r.feed <= r'.feed
    && r.tables.prunedThrough <= r'.tables.prunedThrough
    && (forall c :: EventsOf(r.tables, c) <= EventsOf(r'.tables, c))
    && (forall c :: c in r.tables.contexts ==> c in r'.tables.contexts && Kept(r.tables.contexts[c], r'.tables.contexts[c]))
  }

  lemma StepExtends(r: Registry, r': Registry, a: Action)
    requires Step(r, r', a)
    ensures Extends(r, r')
  {
    match a
    case DoPublish(call, id, lineage, drawn) => PublishWrites(r.tables.contexts, call, id, lineage);
    case _ =>
  }

  lemma ExtendsTransitive(a: Registry, b: Registry, c: Registry)
    requires Extends(a, b) && Extends(b, c)
    ensures Extends(a, c)
  {
    forall k
      ensures EventsOf(a.tables, k) <= EventsOf(c.tables, k)
    {
      assert EventsOf(a.tables, k) <= EventsOf(b.tables, k) <= EventsOf(c.tables, k);
    }
  }

  lemma ReachedLink(run: seq<System>, i: nat)
    requires Execution(run) && 0 < i < |run|
    ensures Extends(run[i - 1].reg, run[i].reg)
  {
    ExecutionKeeps(run, i);
    var a :| Step(run[i - 1].reg, run[i].reg, a);
    StepExtends(run[i - 1].reg, run[i].reg, a);
  }

  lemma {:induction false} LinksExtend(serial: seq<Registry>, i: nat, j: nat)
    requires i <= j < |serial| && forall k :: 0 < k < |serial| ==> Extends(serial[k - 1], serial[k])
    ensures Extends(serial[i], serial[j])
    decreases j
  {
    if i == j {
      StepExtends(serial[i], serial[i], DoNothing);
    } else {
      LinksExtend(serial, i, j - 1);
      ExtendsTransitive(serial[i], serial[j - 1], serial[j]);
    }
  }

  lemma ExecutionExtends(run: seq<System>, i: nat, j: nat)
    requires Execution(run) && i <= j < |run|
    ensures Extends(run[i].reg, run[j].reg)
  {
    var serial := Serial(run);
    forall k | 0 < k < |serial|
      ensures Extends(serial[k - 1], serial[k])
    {
      ReachedLink(run, k);
    }
    LinksExtend(serial, i, j);
  }

  // ------------------------------------------- the invariant, part by part

  lemma Reached(run: seq<System>, i: nat)
    requires Execution(run) && i < |run|
    ensures Inv(run[i].reg)
  {
    ExecutionKeeps(run, i);
  }

  lemma ReachedFeed(run: seq<System>, i: nat)
    requires Execution(run) && i < |run|
    ensures FeedInv(run[i].reg.tables.changes, run[i].reg.tables.prunedThrough, run[i].reg.feed)
  {
    Reached(run, i);
  }

  lemma ReachedLineages(run: seq<System>, i: nat)
    requires Execution(run) && i < |run|
    ensures LineageInv(run[i].reg.tables.contexts, run[i].reg.chains)
  {
    Reached(run, i);
  }

  lemma ReachedCommits(run: seq<System>, i: nat)
    requires Execution(run) && i < |run|
    ensures CommitInv(run[i].reg.tables.contexts, run[i].reg.commits)
    ensures LogInv(run[i].reg.log, run[i].reg.tables.leaves, run[i].reg.commits)
    ensures TenantInv(run[i].reg.tables.contexts, run[i].reg.commits)
  {
    Reached(run, i);
  }

  lemma ReachedEvents(run: seq<System>, i: nat)
    requires Execution(run) && i < |run|
    ensures EventInv(run[i].reg.tables.contexts, run[i].reg.tables.events)
  {
    Reached(run, i);
  }

  lemma ReachedRecords(run: seq<System>, i: nat)
    requires Execution(run) && i < |run|
    ensures IdemInv(run[i].reg.tables.idem, run[i].reg.commits, run[i].reg.evicted)
  {
    Reached(run, i);
  }

  lemma ReachedThreads(run: seq<System>, i: nat)
    requires Execution(run) && i < |run|
    ensures ThreadsOk(run[i]) && AuthorsOk(run[i].reg.commits, run[i].authors, run[i].threads)
  {
    ExecutionKeeps(run, i);
  }

  lemma ReachedMine(run: seq<System>, i: nat, t: Tid)
    requires Execution(run) && i < |run| && t in run[i].threads
    ensures Mine(run[i], t)
  {
    ReachedThreads(run, i);
  }

  lemma ReachedAuthors(run: seq<System>, i: nat)
    requires Execution(run) && i < |run|
    ensures AuthorsOk(run[i].reg.commits, run[i].authors, run[i].threads)
  {
    ExecutionKeeps(run, i);
  }

  // ------------------------------------------------------------------ the feed

  /** The head a reader computes is the last committed position. */
  lemma HeadIsLast(t: Tables, feed: seq<Numbered>, h: nat)
    requires FeedInv(t.changes, t.prunedThrough, feed) && IsHead(t, h)
    ensures h == LastSeq(feed)
  {
    assert feed + [] == feed;
    AscendingParts(feed, []);
    if feed != [] {
      var last := feed[|feed| - 1];
      assert last in feed;
      if last.seqNo > t.prunedThrough { assert last.seqNo in t.changes; }
    }
    if h in t.changes { assert Numbered(h, t.changes[h]) in feed; }
  }

  lemma NothingBelow(changes: map<nat, FeedRow>, pruned: nat, feed: seq<Numbered>,
                     changes': map<nat, FeedRow>, pruned': nat, feed': seq<Numbered>, q: nat)
    requires FeedInv(changes, pruned, feed) && FeedInv(changes', pruned', feed')
    requires feed <= feed' && pruned <= pruned' && q in changes' && q <= LastSeq(feed)
    ensures q in changes && changes'[q] == changes[q]
  {
    var later := feed'[|feed|..];
    assert feed' == feed + later;
    AscendingParts(feed, later);
    var n := Numbered(q, changes'[q]);
    assert n in feed' && n !in later;
    assert n in feed;
  }

  /** Once any reader has seen head `h`, no row at or below `h` ever appears: what
      is stored there later was already stored then. Heads and the prune marker
      never go back. */
  lemma FeedOrderIsCommitOrder(run: seq<System>, i: nat, j: nat, h: nat)
    requires Execution(run) && i <= j < |run| && IsHead(run[i].reg.tables, h)
    ensures var t, t' := run[i].reg.tables, run[j].reg.tables;
            && (forall q :: q in t'.changes && q <= h ==> q in t.changes && t'.changes[q] == t.changes[q])
            && (forall h' :: IsHead(t', h') ==> h <= h')
            && t.prunedThrough <= t'.prunedThrough
  {
    ReachedFeed(run, i);
    ReachedFeed(run, j);
    ExecutionExtends(run, i, j);
    var r, r' := run[i].reg, run[j].reg;
    HeadIsLast(r.tables, r.feed, h);
    forall q | q in r'.tables.changes && q <= h
      ensures q in r.tables.changes && r'.tables.changes[q] == r.tables.changes[q]
    {
      NothingBelow(r.tables.changes, r.tables.prunedThrough, r.feed, r'.tables.changes, r'.tables.prunedThrough, r'.feed, q);
    }
    forall h' | IsHead(r'.tables, h')
      ensures h <= h'
    {
      HeadIsLast(r'.tables, r'.feed, h');
      assert r'.feed == r.feed + r'.feed[|r.feed|..];
      AscendingParts(r.feed, r'.feed[|r.feed|..]);
    }
  }

  /** Retention takes only a prefix: a row once visible is there still, unchanged,
      or at or below the prune marker. */
  lemma RetainedAboveMarker(run: seq<System>, i: nat, j: nat, q: nat)
    requires Execution(run) && i <= j < |run| && q in run[i].reg.tables.changes
    ensures var t, t' := run[i].reg.tables, run[j].reg.tables;
            if q > t'.prunedThrough then q in t'.changes && t'.changes[q] == t.changes[q] else q !in t'.changes
  {
    ReachedFeed(run, i);
    ReachedFeed(run, j);
    ExecutionExtends(run, i, j);
    var n := Numbered(q, run[i].reg.tables.changes[q]);
    assert n in run[j].reg.feed;
  }

  /** A `superseded` row in the feed stands for a supersession in the tables. */
  lemma SupersessionAnnounced(run: seq<System>, i: nat, n: Numbered)
    requires Execution(run) && i < |run| && n in run[i].reg.feed && n.row.change.kind == SupersededChange
    ensures var contexts := run[i].reg.tables.contexts;
            && n.row.change.ctx in contexts && contexts[n.row.change.ctx].status == Superseded
            && n.row.change.supersededBy.Some? && n.row.change.supersededBy.value in contexts
            && contexts[n.row.change.supersededBy.value].supersedes == Some(n.row.change.ctx)
  {
    Reached(run, i);
    var r := run[i].reg;
    assert HasCommit(r.commits, n);
    var c :| c in r.commits && Announces(n, c);
    assert Records(r.tables.contexts, c);
    var _ := SuccessorOnChain(r.tables.contexts, r.chains, c.id);
  }

  /** A receipted supersession has its row in the feed from the commit on. */
  lemma SupersessionInFeed(run: seq<System>, i: nat, c: Commit)
    requires Execution(run) && i < |run| && c in run[i].reg.commits && c.call.minted && c.call.supersedes.Some?
    ensures exists n :: n in run[i].reg.feed && Announces(n, c)
  {
    Reached(run, i);
    assert HasRow(run[i].reg.feed, c);
  }

  // ------------------------------------------------------------------ lineages

  /** A context with a predecessor stands right after it in its chain. */
  lemma SuccessorOnChain(contexts: map<CtxId, Context>, chains: map<LineageId, seq<CtxId>>, d: CtxId) returns (k: nat)
    requires LineageInv(contexts, chains) && d in contexts && contexts[d].supersedes.Some?
    ensures var chain := chains[contexts[d].lineage];
            && 0 < k < |chain| && chain[k] == d && contexts[d].supersedes == Some(chain[k - 1])
            && chain[k - 1] in contexts && contexts[chain[k - 1]].status == Superseded
            && contexts[chain[k - 1]].lineage == contexts[d].lineage
  {
    var chain := chains[contexts[d].lineage];
    assert ChainOk(contexts, contexts[d].lineage, chain);
    k :| 0 <= k < |chain| && chain[k] == d;
    assert k > 0 ==> Follows(chain[k - 1], contexts[chain[k - 1]], contexts[chain[k]]);
  }

  predicate Succeeds(contexts: map<CtxId, Context>, d: CtxId, p: CtxId) {
    d in contexts && contexts[d].supersedes == Some(p)
  }

  /** The successor of a context is the next of its chain, if there is one. */
  lemma NextOnChain(contexts: map<CtxId, Context>, chains: map<LineageId, seq<CtxId>>, p: CtxId) returns (k: nat)
    requires LineageInv(contexts, chains) && p in contexts
    ensures var chain := chains[contexts[p].lineage];
            && k < |chain| && chain[k] == p
            && (contexts[p].status == Superseded <==> k + 1 < |chain|)
            && (k + 1 < |chain| ==>
                  && Succeeds(contexts, chain[k + 1], p) && Follows(p, contexts[p], contexts[chain[k + 1]])
                  && contexts[chain[k + 1]].lineage == contexts[p].lineage)
            && (forall d :: Succeeds(contexts, d, p) ==> k + 1 < |chain| && d == chain[k + 1])
  {
    var chain := chains[contexts[p].lineage];
    assert ChainOk(contexts, contexts[p].lineage, chain);
    k :| 0 <= k < |chain| && chain[k] == p;
    forall d | Succeeds(contexts, d, p)
      ensures k + 1 < |chain| && d == chain[k + 1]
    {
      var m := SuccessorOnChain(contexts, chains, d);
      assert chain[m - 1] == chain[k];
    }
    if k + 1 < |chain| { assert Follows(chain[k], contexts[chain[k]], contexts[chain[k + 1]]); }
  }

  /** Every context is superseded by at most one other, is marked so exactly when it
      is, and its successor carries the next version, the same lineage, and an agent
      its predecessor named. */
  lemma SuccessionIsLinear(run: seq<System>, i: nat, p: CtxId)
    requires Execution(run) && i < |run| && p in run[i].reg.tables.contexts
    ensures var contexts := run[i].reg.tables.contexts;
            && (contexts[p].status == Superseded <==> exists d :: Succeeds(contexts, d, p))
            && (forall d, e :: Succeeds(contexts, d, p) && Succeeds(contexts, e, p) ==> d == e)
            && (forall d :: Succeeds(contexts, d, p) ==>
                  Follows(p, contexts[p], contexts[d]) && contexts[d].lineage == contexts[p].lineage)
  {
    ReachedLineages(run, i);
    var _ := NextOnChain(run[i].reg.tables.contexts, run[i].reg.chains, p);
  }

  lemma {:induction false} ChainTenant(contexts: map<CtxId, Context>, commits: seq<Commit>, l: LineageId, chain: seq<CtxId>, k: nat)
    requires ChainOk(contexts, l, chain) && k < |chain|
    requires CommitInv(contexts, commits) && TenantInv(contexts, commits)
    requires forall i :: 0 <= i < |commits| ==> commits[i].call.tenant.Some?
    ensures contexts[chain[k]].tenant == contexts[chain[0]].tenant
  {
    if k > 0 {
      ChainTenant(contexts, commits, l, chain, k - 1);
      assert Follows(chain[k - 1], contexts[chain[k - 1]], contexts[chain[k]]);
      var n :| 0 <= n < |commits| && commits[n].id == chain[k];
      assert Records(contexts, commits[n]) && SameTenant(contexts, commits[n].call);
    }
  }

  /** When every publish carries a tenant, a lineage never crosses tenants. */
  lemma OneTenantPerLineage(run: seq<System>, i: nat, c: CtxId, d: CtxId)
    requires Execution(run) && i < |run|
    requires forall k :: 0 <= k < |run[i].reg.commits| ==> run[i].reg.commits[k].call.tenant.Some?
    requires c in run[i].reg.tables.contexts && d in run[i].reg.tables.contexts
    requires run[i].reg.tables.contexts[c].lineage == run[i].reg.tables.contexts[d].lineage
    ensures run[i].reg.tables.contexts[c].tenant == run[i].reg.tables.contexts[d].tenant
  {
    ReachedLineages(run, i);
    ReachedCommits(run, i);
    var r := run[i].reg;
    var l := r.tables.contexts[c].lineage;
    var chain := r.chains[l];
    var m, n :| 0 <= m < |chain| && chain[m] == c && 0 <= n < |chain| && chain[n] == d;
    ChainTenant(r.tables.contexts, r.commits, l, chain, m);
    ChainTenant(r.tables.contexts, r.commits, l, chain, n);
  }

  lemma TipOfListing(contexts: map<CtxId, Context>, chains: map<LineageId, seq<CtxId>>, l: LineageId, ids: seq<CtxId>, later: Tables, now: int)
    requires LineageInv(contexts, chains) && Lists(contexts, l, ids) && ids != []
    ensures contexts[ids[|ids| - 1]].status == Active
    ensures NewestOpen(Entries(contexts, later, ids, now))
         == if contexts[ids[|ids| - 1]].retracted || RetractionState(EventsOf(later, ids[|ids| - 1]))
            then None else Some(ids[|ids| - 1])
  {
    assert ids[0] in contexts;
    assert ChainOk(contexts, l, chains[l]);
    ListingIsChain(contexts, l, chains[l], ids);
    HeadIsTip(Entries(contexts, later, ids, now));
  }

  /** `current` on any lineage is the version nothing supersedes, or nothing when
      that one is retracted, even when the events were read after the rows. */
  lemma CurrentIsTip(run: seq<System>, i: nat, j: nat, l: LineageId, ids: seq<CtxId>, now: int)
    requires Execution(run) && i <= j < |run|
    requires Lists(run[i].reg.tables.contexts, l, ids) && ids != []
    ensures var contexts, later := run[i].reg.tables.contexts, run[j].reg.tables;
            var tip := ids[|ids| - 1];
            && (forall d :: !Succeeds(contexts, d, tip))
            && NewestOpen(Entries(contexts, later, ids, now))
               == if contexts[tip].retracted || RetractionState(EventsOf(later, tip)) then None else Some(tip)
  {
    ReachedLineages(run, i);
    TipOfListing(run[i].reg.tables.contexts, run[i].reg.chains, l, ids, run[j].reg.tables, now);
    SuccessionIsLinear(run, i, ids[|ids| - 1]);
  }

  // ------------------------------------------------------------ all or nothing

  /** The call's commit statement failed: it may have been applied. */
  predicate LostAnswer(th: Thread) {
    th.Finished? && th.result.PublishDone? && th.result.outcome == Refused(CommitUnknown)
  }

  /** A publish writes to the tables only in the move that ends it, as inserted or
      with its answer lost. */
  lemma OnlyCommitsWrite(s: System, s': System, t: Tid, m: Move)
    requires Next(s, s', t, m) && t in s.threads && s.threads[t].Publisher? && !m.EvictRecord?
    ensures s'.reg.tables != s.reg.tables ==> m.CommitPublish? && t in s'.threads && (DidInsert(s'.threads[t]) || LostAnswer(s'.threads[t]))
  {
  }

  predicate Settled(s: System, s': System, t: Tid) {
    t in s'.threads && t in s.threads && s'.threads[t] == s.threads[t]
  }

  predicate Unanswered(s: System, t: Tid) {
    t in s.threads && !s.threads[t].Finished?
  }

  /** Where thread `u` was just told of a replay, the record says so. */
  predicate ReplayedFromRecord(s: System, th: Thread) {
    th.Finished? && th.result.PublishDone? && th.result.outcome.Replayed? ==>
      var call, response := th.result.call, th.result.outcome.response;
      && call.key.Some? && call.Slot() in s.reg.tables.idem
      && s.reg.tables.idem[call.Slot()].hash == call.hash && s.reg.tables.idem[call.Slot()].response == response
  }

  /** A move concerns only its own thread, which was not answered before, and is
      answered with a replay only from the record. */
  predicate OwnThread(s: System, s': System, u: Tid) {
    || s'.threads == s.threads
    || (&& u in s'.threads && s'.threads == s.threads[u := s'.threads[u]]
        && (if u in s.threads then !s.threads[u].Finished? else !s'.threads[u].Finished?)
        && ReplayedFromRecord(s, s'.threads[u]))
  }

  lemma ReadingIsOwn(s: System, s': System, u: Tid, m: Move)
    requires Next(s, s', u, m)
    requires m.Begin? || m.Abort? || m.Evict? || m.Find? || m.Target? || m.Race? || m.Back?
    ensures OwnThread(s, s', u)
  {
  }

  lemma WritingIsOwn(s: System, s': System, u: Tid, m: Move)
    requires Next(s, s', u, m)
    requires m.Draw? || m.LogLock? || m.Leaf? || m.Flip? || m.Claim? || m.FeedLock? || m.Feed? || m.CommitPublish?
    ensures OwnThread(s, s', u)
  {
  }

  lemma OtherIsOwn(s: System, s': System, u: Tid, m: Move)
    requires Next(s, s', u, m)
    requires m.MarkLock? || m.MarkDecide? || m.CommitMark? || m.PruneLock? || m.PruneScan? || m.CommitPrune? || m.EvictRecord?
    ensures OwnThread(s, s', u)
  {
  }

  lemma NextIsOwn(s: System, s': System, u: Tid, m: Move)
    requires Next(s, s', u, m)
    ensures OwnThread(s, s', u)
  {
    if m.Begin? || m.Abort? || m.Evict? || m.Find? || m.Target? || m.Race? || m.Back? {
      ReadingIsOwn(s, s', u, m);
    } else if m.Draw? || m.LogLock? || m.Leaf? || m.Flip? || m.Claim? || m.FeedLock? || m.Feed? || m.CommitPublish? {
      WritingIsOwn(s, s', u, m);
    } else {
      OtherIsOwn(s, s', u, m);
    }
  }

  /** A thread is answered only by its own move. */
  lemma MoverIsAnswered(s: System, s': System, u: Tid, m: Move, t: Tid)
    requires Next(s, s', u, m) && Unanswered(s, t) && t in s'.threads && s'.threads[t].Finished?
    ensures u == t
  {
    NextIsOwn(s, s', u, m);
  }

  /** A thread that was answered takes no further part. */
  lemma FinishedStays(s: System, s': System, u: Tid, t: Tid)
    requires OwnThread(s, s', u) && t in s.threads && s.threads[t].Finished?
    ensures Settled(s, s', t)
  {
  }

  lemma ReachedMove(run: seq<System>, j: nat) returns (u: Tid)
    requires Execution(run) && 0 < j < |run|
    ensures OwnThread(run[j - 1], run[j], u)
  {
    assert Moves(run[j - 1], run[j]);
    var v, m :| Next(run[j - 1], run[j], v, m);
    u := v;
    NextIsOwn(run[j - 1], run[j], u, m);
  }

  lemma {:induction false} FinishedForGood(run: seq<System>, i: nat, j: nat, t: Tid)
    requires Execution(run) && i <= j < |run| && t in run[i].threads && run[i].threads[t].Finished?
    ensures t in run[j].threads && run[j].threads[t] == run[i].threads[t]
    decreases j
  {
    if i < j {
      FinishedForGood(run, i, j - 1, t);
      var u := ReachedMove(run, j);
      FinishedStays(run[j - 1], run[j], u, t);
    }
  }

  /** All or nothing: a publish that ends in any other way than inserted, or with its
      commit statement failing, has in no move of its own changed the tables. */
  lemma LosersWriteNothing(run: seq<System>, k: nat, j: nat, t: Tid, m: Move)
    requires Execution(run) && k < j < |run| && Next(run[k], run[k + 1], t, m) && !m.EvictRecord?
    requires t in run[k].threads && run[k].threads[t].Publisher?
    requires t in run[j].threads && run[j].threads[t].Finished?
    requires !DidInsert(run[j].threads[t]) && !LostAnswer(run[j].threads[t])
    ensures run[k + 1].reg.tables == run[k].reg.tables
  {
    OnlyCommitsWrite(run[k], run[k + 1], t, m);
    if run[k + 1].reg.tables != run[k].reg.tables { FinishedForGood(run, k + 1, j, t); }
  }

  lemma PublishCommitIsSerialAt(s: System, s': System, t: Tid)
    requires SystemInv(s) && Next(s, s', t, CommitPublish)
    ensures t in s.threads && s.threads[t].Publisher?
    ensures var th := s.threads[t]; PublishStep(s.reg, s'.reg, th.call, th.id, th.lineage, th.drawn)
  {
    InvMine(s, t);
    PublishCommitIsSerial(s, s', t);
  }

  lemma MarkCommitIsSerialAt(s: System, s': System, t: Tid)
    requires SystemInv(s) && Next(s, s', t, CommitMark)
    ensures t in s.threads && s.threads[t].Marker?
    ensures var th := s.threads[t]; LifecycleStep(s.reg, s'.reg, th.event, th.minting, th.drawn)
  {
    InvMine(s, t);
    MarkCommitIsSerial(s, s', t);
  }

  /** A move of a publish that changes the tables is its last, and applies the whole
      publish at once, whatever it is answered. */
  lemma WritesAreWhole(run: seq<System>, k: nat, t: Tid, m: Move)
    requires Execution(run) && k + 1 < |run| && Next(run[k], run[k + 1], t, m) && !m.EvictRecord?
    requires t in run[k].threads && run[k].threads[t].Publisher? && run[k + 1].reg.tables != run[k].reg.tables
    ensures var th := run[k].threads[t];
            PublishStep(run[k].reg, run[k + 1].reg, th.call, th.id, th.lineage, th.drawn)
    ensures t in run[k + 1].threads && run[k + 1].threads[t].Finished? && run[k + 1].authors == run[k].authors + [t]
  {
    OnlyCommitsWrite(run[k], run[k + 1], t, m);
    ExecutionKeeps(run, k);
    PublishCommitIsSerial(run[k], run[k + 1], t);
  }

  /** Thread `t` was told it had inserted `c`. */
  predicate ToldInserted(threads: map<Tid, Thread>, t: Tid, c: CtxId) {
    t in threads && DidInsert(threads[t]) && threads[t].result.outcome.response.ctx == c
  }

  /** Thread `t` made the `k`-th commit, of `c`. */
  predicate Wrote(commits: seq<Commit>, authors: seq<Tid>, k: int, t: Tid, c: CtxId) {
    0 <= k < |commits| && k < |authors| && authors[k] == t && commits[k].id == c
  }

  lemma AuthorsMatch(contexts: map<CtxId, Context>, commits: seq<Commit>, authors: seq<Tid>, threads: map<Tid, Thread>, c: CtxId)
    requires CommitInv(contexts, commits) && AuthorsOk(commits, authors, threads)
    ensures c in contexts <==> exists k, t :: Wrote(commits, authors, k, t, c)
  {
    if c in contexts {
      var k :| 0 <= k < |commits| && commits[k].id == c;
      assert Wrote(commits, authors, k, authors[k], c);
    }
    forall k, t | Wrote(commits, authors, k, t, c)
      ensures c in contexts
    {
      assert Records(contexts, commits[k]);
    }
  }

  /** A thread told it had inserted did so. */
  lemma ToldIsWritten(commits: seq<Commit>, authors: seq<Tid>, threads: map<Tid, Thread>, t: Tid, c: CtxId)
    requires AuthorsOk(commits, authors, threads) && ToldInserted(threads, t, c)
    ensures exists k :: Wrote(commits, authors, k, t, c)
  {
    var k :| 0 <= k < |authors| && authors[k] == t;
    assert InsertedBy(threads[t], commits[k]);
    assert Wrote(commits, authors, k, t, c);
  }

  lemma WrittenIsTold(commits: seq<Commit>, authors: seq<Tid>, threads: map<Tid, Thread>, k: int, t: Tid, c: CtxId)
    requires AuthorsOk(commits, authors, threads) && Wrote(commits, authors, k, t, c)
    ensures t in threads && (ToldInserted(threads, t, c) || LostAnswer(threads[t]))
  {
    assert InsertedBy(threads[authors[k]], commits[k]);
  }

  /** The contexts are exactly those some call's commit wrote, each written once and by
      one call, which was told so unless its answer was lost; and what a call is told
      it inserted, it wrote. */
  lemma ContextsAreInserted(run: seq<System>, i: nat, c: CtxId)
    requires Execution(run) && i < |run|
    ensures var commits, authors, threads := run[i].reg.commits, run[i].authors, run[i].threads;
            && (c in run[i].reg.tables.contexts <==> exists k, t :: Wrote(commits, authors, k, t, c))
            && (forall k, t, k', t' :: Wrote(commits, authors, k, t, c) && Wrote(commits, authors, k', t', c) ==> k == k' && t == t')
            && (forall k, t, k', c' :: Wrote(commits, authors, k, t, c) && Wrote(commits, authors, k', t, c') ==> c == c')
            && (forall k, t :: Wrote(commits, authors, k, t, c) ==> t in threads && (ToldInserted(threads, t, c) || LostAnswer(threads[t])))
            && (forall t :: ToldInserted(threads, t, c) ==> exists k :: Wrote(commits, authors, k, t, c))
  {
    var commits, authors, threads := run[i].reg.commits, run[i].authors, run[i].threads;
    ReachedAuthors(run, i);
    ReachedCommits(run, i);
    AuthorsMatch(run[i].reg.tables.contexts, commits, authors, threads, c);
    forall t | ToldInserted(threads, t, c)
      ensures exists k :: Wrote(commits, authors, k, t, c)
    {
      ToldIsWritten(commits, authors, threads, t, c);
    }
    forall k, t | Wrote(commits, authors, k, t, c)
      ensures t in threads && (ToldInserted(threads, t, c) || LostAnswer(threads[t]))
    {
      WrittenIsTold(commits, authors, threads, k, t, c);
    }
  }

  predicate Dense(leaves: map<nat, CtxId>) {
    forall k :: k in leaves ==> k < |leaves|
  }

  lemma LeavesMatchContexts(contexts: map<CtxId, Context>, leaves: map<nat, CtxId>, commits: seq<Commit>)
    requires CommitInv(contexts, commits) && LogInv(true, leaves, commits)
    ensures Dense(leaves) && forall k :: 0 <= k < |leaves| ==> k in leaves
    ensures forall k :: k in leaves ==> leaves[k] in contexts
    ensures forall c :: c in contexts ==> exists k :: k in leaves && leaves[k] == c
    ensures forall k, m :: k in leaves && m in leaves && leaves[k] == leaves[m] ==> k == m
  {
    forall k | k in leaves
      ensures leaves[k] in contexts
    {
      assert Records(contexts, commits[k]);
    }
    forall c | c in contexts
      ensures exists k :: k in leaves && leaves[k] == c
    {
      var k :| 0 <= k < |commits| && commits[k].id == c;
      assert leaves[k] == c;
    }
  }

  /** With the log on, the leaves are numbered 0..n-1 without a gap, each naming a
      context, every context named once. */
  lemma LogIsDense(run: seq<System>, i: nat)
    requires Execution(run) && i < |run| && run[i].reg.log
    ensures var t := run[i].reg.tables;
            && Dense(t.leaves) && (forall k :: 0 <= k < |t.leaves| ==> k in t.leaves)
            && (forall k :: k in t.leaves ==> t.leaves[k] in t.contexts)
            && (forall c :: c in t.contexts ==> exists k :: k in t.leaves && t.leaves[k] == c)
            && (forall k, m :: k in t.leaves && m in t.leaves && t.leaves[k] == t.leaves[m] ==> k == m)
  {
    ReachedCommits(run, i);
    LeavesMatchContexts(run[i].reg.tables.contexts, run[i].reg.tables.leaves, run[i].reg.commits);
  }

  lemma LeavesPersist(leaves: map<nat, CtxId>, leaves': map<nat, CtxId>, commits: seq<Commit>, commits': seq<Commit>)
    requires LogInv(true, leaves, commits) && LogInv(true, leaves', commits') && commits <= commits'
    ensures forall k :: k in leaves ==> k in leaves' && leaves'[k] == leaves[k]
  {
  }

  /** A leaf once in the log never changes. */
  lemma LogIsAppendOnly(run: seq<System>, i: nat, j: nat)
    requires Execution(run) && i <= j < |run| && run[i].reg.log && run[j].reg.log
    ensures var leaves, leaves' := run[i].reg.tables.leaves, run[j].reg.tables.leaves;
            forall k :: k in leaves ==> k in leaves' && leaves'[k] == leaves[k]
  {
    ReachedLog(run, i);
    ReachedLog(run, j);
    assert run[i].reg.commits <= run[j].reg.commits by { ExecutionExtends(run, i, j); }
    LeavesPersist(run[i].reg.tables.leaves, run[j].reg.tables.leaves, run[i].reg.commits, run[j].reg.commits);
  }

  lemma ReachedLog(run: seq<System>, i: nat)
    requires Execution(run) && i < |run|
    ensures LogInv(run[i].reg.log, run[i].reg.tables.leaves, run[i].reg.commits)
  {
    ReachedCommits(run, i);
  }

  // --------------------------------------------------------------- idempotency

  /** Each commit was made at some step, when those before it were all there were. */
  lemma {:induction false} CommittedAt(run: seq<System>, n: nat, j: nat) returns (m: nat)
    requires Execution(run) && n < |run| && j < |run[n].reg.commits|
    ensures m < n && run[m].reg.commits == run[n].reg.commits[..j] && run[m + 1].reg.commits == run[n].reg.commits[..j + 1]
    ensures run[m + 1].reg.evicted == run[m].reg.evicted
  {
    if n > 0 { ReachedStep(run, n); }
    if n > 0 && j < |run[n - 1].reg.commits| {
      m := CommittedAt(run, n - 1, j);
      assert run[n - 1].reg.commits <= run[n].reg.commits;
    } else {
      m := n - 1;
      assert run[n].reg.commits == run[n].reg.commits[..j + 1];
    }
  }

  /** A step commits at most one publish, and then evicts nothing. */
  lemma ReachedStep(run: seq<System>, n: nat)
    requires Execution(run) && 0 < n < |run|
    ensures var r, r' := run[n - 1].reg, run[n].reg;
            r'.commits == r.commits || (|r'.commits| == |r.commits| + 1 && r.commits <= r'.commits && r'.evicted == r.evicted)
  {
    ReachedLinked(run, n);
    CommitsOneByOne(run[n - 1].reg, run[n].reg);
  }

  lemma CommitsOneByOne(r: Registry, r': Registry)
    requires Linked(r, r')
    ensures r'.commits == r.commits || (|r'.commits| == |r.commits| + 1 && r.commits <= r'.commits && r'.evicted == r.evicted)
  {
    var a :| Step(r, r', a);
  }

  /** Of two inserts under one key with none between, the later ran on a clock at or
      past the earlier record's expiry, unless the eviction task, on a clock at or
      past it, had removed that record before the later was committed. */
  lemma SecondInsertNeedsExpiry(run: seq<System>, n: nat, i: nat, j: nat) returns (m: nat)
    requires Execution(run) && n < |run| && i < j < |run[n].reg.commits|
    requires var commits := run[n].reg.commits;
             commits[i].call.key.Some? && Keyed(commits[j], commits[i].call.Slot()) && Unused(commits, i, j)
    ensures var commits := run[n].reg.commits;
            && m < n && run[m].reg.commits == commits[..j] && run[m + 1].reg.commits == commits[..j + 1]
            && (commits[j].call.now >= commits[i].call.now + commits[i].call.ttl || WasEvicted(run[m].reg.evicted, commits[i]))
  {
    m := CommittedAt(run, n, j);
    ReachedRecords(run, m + 1);
    var commits, early := run[n].reg.commits, run[m + 1].reg.commits;
    assert early[i] == commits[i] && early[j] == commits[j];
    assert forall q :: i < q < j ==> early[q] == commits[q];
    assert Unused(early, i, j);
  }

  // The record a replay repeats.

  /** In `r` the call's key has an unreplaced record with its content hash, left by the
      last commit under that key, and `response` is what it holds. */
  ghost predicate AnswersFrom(r: Registry, call: Publish, response: Response, i: int) {
    && call.key.Some? && call.Slot() in r.tables.idem
    && RecordIs(r.tables.idem[call.Slot()], r.commits, call.Slot(), i)
    && r.tables.idem[call.Slot()].hash == call.hash && r.tables.idem[call.Slot()].response == response
  }

  /** Every answered thread was answered at some step, for good; a replay, from the
      record stored then. */
  lemma {:induction false} AnsweredAt(run: seq<System>, n: nat, t: Tid) returns (k: nat)
    requires Execution(run) && n < |run| && t in run[n].threads && run[n].threads[t].Finished?
    ensures k < n && Unanswered(run[k], t) && t in run[k + 1].threads && run[k + 1].threads[t] == run[n].threads[t]
    ensures ReplayedFromRecord(run[k], run[n].threads[t])
  {
    if n > 0 {
      var u := ReachedMove(run, n);
      if t in run[n - 1].threads && run[n - 1].threads[t].Finished? {
        FinishedStays(run[n - 1], run[n], u, t);
        k := AnsweredAt(run, n - 1, t);
      } else {
        k := n - 1;
      }
    }
  }

  /** A replay repeats the record stored under the call's key when the answer was given:
      that of the last insert under it, which had the same content hash. */
  lemma ReplayRepeatsTheRecord(run: seq<System>, n: nat, t: Tid, call: Publish, response: Response) returns (k: nat, i: nat)
    requires Execution(run) && n < |run| && t in run[n].threads
    requires run[n].threads[t] == Finished(PublishDone(call, Replayed(response)))
    ensures k < n && Unanswered(run[k], t) && t in run[k + 1].threads && run[k + 1].threads[t] == run[n].threads[t]
    ensures AnswersFrom(run[k].reg, call, response, i)
  {
    k := AnsweredAt(run, n, t);
    ReachedRecords(run, k);
    var x :| RecordIs(run[k].reg.tables.idem[call.Slot()], run[k].reg.commits, call.Slot(), x);
    i := x;
  }

  // ----------------------------------------------------------------- lifecycle

  /** Each context's history alternates from `retracted`, under distinct ids, and
      the flag on its row is the state the history derives. */
  lemma HistoriesAlternate(run: seq<System>, i: nat, c: CtxId)
    requires Execution(run) && i < |run| && c in run[i].reg.tables.contexts
    ensures HistoryOk(c, EventsOf(run[i].reg.tables, c), run[i].reg.tables.contexts[c].retracted)
  {
    ReachedEvents(run, i);
  }

  lemma StoredIsReplay(history: seq<Event>, e: Event, flag: bool)
    requires HistoryOk(e.ctx, history, flag) && e in history
    ensures DecideLifecycle(history, e) == IdempotentReplay
  {
    var k :| 0 <= k < |history| && history[k] == e;
    var found := FindEvent(history, e.id);
    assert found.Some? && history[found.value].id == history[k].id;
    assert found.value == k;
  }

  lemma StoredStays(run: seq<System>, i: nat, j: nat, e: Event)
    requires Execution(run) && i <= j < |run| && e in EventsOf(run[i].reg.tables, e.ctx)
    ensures e in EventsOf(run[j].reg.tables, e.ctx)
  {
    ExecutionExtends(run, i, j);
    assert EventsOf(run[i].reg.tables, e.ctx) <= EventsOf(run[j].reg.tables, e.ctx);
  }

  /** Once stored, an event is answered as a replay for good: no thread carrying it
      gets past its decision, and the decision is always the replay. */
  lemma RetryIsReplay(run: seq<System>, i: nat, j: nat, e: Event)
    requires Execution(run) && i <= j < |run| && e in EventsOf(run[i].reg.tables, e.ctx)
    ensures DecideLifecycle(EventsOf(run[j].reg.tables, e.ctx), e) == IdempotentReplay
    ensures forall t :: t in run[j].threads && run[j].threads[t].Marker? && run[j].threads[t].event == e ==>
              run[j].threads[t].mark == LockRow || run[j].threads[t].mark == Decide
  {
    StoredStays(run, i, j, e);
    ReachedEvents(run, j);
    assert e.ctx in run[j].reg.tables.contexts;
    HistoriesAlternate(run, j, e.ctx);
    StoredIsReplay(EventsOf(run[j].reg.tables, e.ctx), e, run[j].reg.tables.contexts[e.ctx].retracted);
    ReachedThreads(run, j);
    forall t | t in run[j].threads && run[j].threads[t].Marker? && run[j].threads[t].event == e
      ensures run[j].threads[t].mark == LockRow || run[j].threads[t].mark == Decide
    {
      assert MarkOk(run[j].reg.tables, run[j].locks, t, run[j].threads[t]);
    }
  }
}
