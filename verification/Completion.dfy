/** Nothing stands in the way of an acceptable call: from any point of any execution where
    no other transaction holds what it needs, its own statements take it to its commit. */
module Completion {
  import opened Tables
  import opened SerialRegistry
  import opened Transactions
  import opened Executions

  lemma OneMoreMove(run: seq<System>, s: System, t: Tid, m: Move)
    requires Execution(run) && Next(run[|run| - 1], s, t, m)
    ensures Execution(run + [s])
  {
    var run' := run + [s];
    forall i | 0 < i < |run'|
      ensures Moves(run'[i - 1], run'[i])
    {
      if i < |run| { assert Moves(run[i - 1], run[i]); }
    }
  }

  function Last(run: seq<System>): System
    requires run != []
  {
    run[|run| - 1]
  }

  // -------------------------------------------------------- who holds a lock

  predicate Live(threads: map<Tid, Thread>, t: Tid) {
    t in threads && !threads[t].Finished?
  }

  predicate HolderLives(held: Option<Tid>, threads: map<Tid, Thread>) {
    held.Some? ==> Live(threads, held.value)
  }

  /** Only calls that have not ended hold a lock. */
  ghost predicate HoldersLive(locks: Locks, threads: map<Tid, Thread>) {
    && (forall c :: c in locks.rows ==> Live(threads, locks.rows[c]))
    && (forall k :: k in locks.keys ==> Live(threads, locks.keys[k]))
    && HolderLives(locks.log, threads) && HolderLives(locks.feed, threads) && HolderLives(locks.marker, threads)
  }

  /** Nothing is taken but by `t`. */
  ghost predicate TakenBy(locks: Locks, locks': Locks, t: Tid) {
    && (forall c :: c in locks'.rows && locks'.rows[c] != t ==> c in locks.rows && locks.rows[c] == locks'.rows[c])
    && (forall k :: k in locks'.keys && locks'.keys[k] != t ==> k in locks.keys && locks.keys[k] == locks'.keys[k])
    && (locks'.log == locks.log || locks'.log == Some(t)) && (locks'.feed == locks.feed || locks'.feed == Some(t))
    && (locks'.marker == locks.marker || locks'.marker == Some(t))
  }

  lemma TakingLives(s: System, locks: Locks, t: Tid, th: Thread)
    requires HoldersLive(s.locks, s.threads) && TakenBy(s.locks, locks, t) && !th.Finished?
    ensures HoldersLive(locks, s.threads[t := th])
  {
  }

  lemma ReleasingLives(s: System, t: Tid, th: Thread)
    requires HoldersLive(s.locks, s.threads)
    ensures HoldersLive(Release(s.locks, t), s.threads[t := th])
  {
  }

  /** A move leaves the locks, takes some for its own thread, or releases all it has. */
  ghost predicate LocksMove(s: System, s': System, t: Tid) {
    || (s'.locks == s.locks && s'.threads == s.threads)
    || (&& t in s'.threads && s'.threads == s.threads[t := s'.threads[t]]
        && (|| s'.locks == Release(s.locks, t)
            || (TakenBy(s.locks, s'.locks, t) && !s'.threads[t].Finished?)))
  }

  lemma EdgeLocks(s: System, s': System, t: Tid, m: Move)
    requires Next(s, s', t, m) && (m.Begin? || m.Abort? || m.Race? || m.Back?)
    ensures LocksMove(s, s', t)
  {
  }

  lemma ReadingLocks(s: System, s': System, t: Tid, m: Move)
    requires Next(s, s', t, m) && (m.Evict? || m.Find?)
    ensures LocksMove(s, s', t)
  {
  }

  lemma PutLocks(s: System, locks: Locks, t: Tid, th: Thread)
    requires TakenBy(s.locks, locks, t) && !th.Finished?
    ensures LocksMove(s, Put(s.(locks := locks), t, th), t)
  {
  }

  lemma TargetLocks(s: System, s': System, t: Tid)
    requires Next(s, s', t, Target)
    ensures LocksMove(s, s', t)
  {
    var th, p := s.threads[t], s.threads[t].call.supersedes;
    TakesRow(s.locks, t, p.GetOr(CtxId("")));
    if p.None? {
      PutLocks(s, s.locks, t, th.(pc := Assign));
    } else if p.value in s.reg.tables.contexts {
      var check := CheckPredecessor(s.reg.tables.contexts[p.value], th.call);
      if check.None? {
        PutLocks(s, WithRow(s.locks, t, p.value), t, th.(pc := Assign));
      } else if check.value == TargetAlreadySuperseded && th.call.key.Some? {
        PutLocks(s, WithRow(s.locks, t, p.value), t, th.(pc := RaceReplay));
      }
    }
  }

  lemma TakesRow(locks: Locks, t: Tid, c: CtxId)
    ensures TakenBy(locks, WithRow(locks, t, c), t) && TakenBy(locks, locks, t)
  {
  }

  lemma WritingLocks(s: System, s': System, t: Tid, m: Move)
    requires Next(s, s', t, m)
    requires m.Draw? || m.LogLock? || m.Leaf? || m.Flip? || m.Claim? || m.FeedLock? || m.Feed? || m.CommitPublish?
    ensures LocksMove(s, s', t)
  {
  }

  lemma OtherLocks(s: System, s': System, t: Tid, m: Move)
    requires Next(s, s', t, m)
    requires m.MarkLock? || m.MarkDecide? || m.CommitMark? || m.PruneLock? || m.PruneScan? || m.CommitPrune? || m.EvictRecord?
    ensures LocksMove(s, s', t)
  {
  }

  lemma MoveLives(s: System, s': System, t: Tid, m: Move)
    requires HoldersLive(s.locks, s.threads) && Next(s, s', t, m)
    ensures HoldersLive(s'.locks, s'.threads)
  {
    if m.Begin? || m.Abort? || m.Race? || m.Back? {
      EdgeLocks(s, s', t, m);
    } else if m.Evict? || m.Find? {
      ReadingLocks(s, s', t, m);
    } else if m.Target? {
      TargetLocks(s, s', t);
    } else if m.Draw? || m.LogLock? || m.Leaf? || m.Flip? || m.Claim? || m.FeedLock? || m.Feed? || m.CommitPublish? {
      WritingLocks(s, s', t, m);
    } else {
      OtherLocks(s, s', t, m);
    }
    LocksMoveLives(s, s', t);
  }

  lemma LocksMoveLives(s: System, s': System, t: Tid)
    requires HoldersLive(s.locks, s.threads) && LocksMove(s, s', t)
    ensures HoldersLive(s'.locks, s'.threads)
  {
    if s'.locks != s.locks || s'.threads != s.threads {
      if s'.locks == Release(s.locks, t) {
        ReleasingLives(s, t, s'.threads[t]);
      } else {
        TakingLives(s, s'.locks, t, s'.threads[t]);
      }
    }
  }

  /** At every point of every execution, whoever holds a lock has not ended. */
  lemma {:induction false} OnlyTheLivingHold(run: seq<System>, n: nat)
    requires Execution(run) && n < |run|
    ensures HoldersLive(run[n].locks, run[n].threads)
  {
    if n > 0 {
      OnlyTheLivingHold(run, n - 1);
      assert Moves(run[n - 1], run[n]);
      var t, m :| Next(run[n - 1], run[n], t, m);
      MoveLives(run[n - 1], run[n], t, m);
    }
  }

  predicate Quiet(s: System) {
    forall t :: t in s.threads ==> s.threads[t].Finished?
  }

  // ------------------------------------------------------------------ publish

  /** No other transaction holds the predecessor, the key's record, or the locks still needed. */
  predicate Clear(s: System, t: Tid, call: Publish, log: bool, feed: bool) {
    && (call.supersedes.Some? ==> RowFree(s.locks, t, call.supersedes.value))
    && (call.key.Some? ==> KeyFree(s.locks, t, call.Slot()))
    && (log ==> s.locks.log.None?) && (feed ==> s.locks.feed.None?)
  }

  /** `run'` goes on from `run` without a commit, and the call stands at `th`. */
  ghost predicate Stage(run: seq<System>, run': seq<System>, t: Tid, th: Thread, log: bool, feed: bool) {
    && Execution(run) && Execution(run') && run <= run' && Last(run').reg == Last(run).reg
    && t in Last(run').threads && Last(run').threads[t] == th && th.Publisher?
    && Clear(Last(run'), t, th.call, log, feed)
  }

  lemma Starts(run: seq<System>, t: Tid, call: Publish) returns (run': seq<System>, th: Thread)
    requires Execution(run) && t !in Last(run).threads && Clear(Last(run), t, call, true, true)
    ensures th == Publisher(call, if call.key.Some? then EvictKey else LockTarget, false, CtxId(""), LineageId(""), 0, [])
    ensures Stage(run, run', t, th, true, true) && Last(run').ids == Last(run).ids
  {
    th := Publisher(call, if call.key.Some? then EvictKey else LockTarget, false, CtxId(""), LineageId(""), 0, []);
    var s := Put(Last(run), t, th);
    OneMoreMove(run, s, t, Begin(th));
    run' := run + [s];
  }

  /** The key's record is absent, or expired and deleted. */
  lemma ReadsKey(run: seq<System>, run0: seq<System>, t: Tid, th: Thread) returns (run': seq<System>, th': Thread)
    requires Stage(run, run0, t, th, true, true) && th.pc == EvictKey && th.call.key.Some? && !th.deleted
    requires Accepts(Last(run).reg.tables, Last(run).reg.log, th.call)
    ensures th' == th.(pc := LockTarget, deleted := th.call.Slot() in Last(run).reg.tables.idem)
    ensures Stage(run, run', t, th', true, true) && Last(run').ids == Last(run0).ids
  {
    var s, slot := Last(run0), th.call.Slot();
    var found := slot in s.reg.tables.idem;
    var th1 := th.(pc := FindKey, deleted := found);
    var s1 := Put(if found then s.(locks := WithKey(s.locks, t, slot)) else s, t, th1);
    OneMoreMove(run0, s1, t, Evict(found));
    th' := th1.(pc := LockTarget);
    var s2 := Put(s1, t, th');
    OneMoreMove(run0 + [s1], s2, t, Find(false));
    run' := run0 + [s1] + [s2];
  }

  lemma ChecksTarget(run: seq<System>, run0: seq<System>, t: Tid, th: Thread) returns (run': seq<System>, th': Thread)
    requires Stage(run, run0, t, th, true, true) && th.pc == LockTarget
    requires Accepts(Last(run).reg.tables, Last(run).reg.log, th.call)
    ensures th' == th.(pc := Assign) && Stage(run, run', t, th', true, true) && Last(run').ids == Last(run0).ids
  {
    var s := Last(run0);
    th' := th.(pc := Assign);
    var s1 := Put(if th.call.supersedes.Some? then s.(locks := WithRow(s.locks, t, th.call.supersedes.value)) else s, t, th');
    OneMoreMove(run0, s1, t, Target);
    run' := run0 + [s1];
  }

  /** Identifiers never drawn before; a successor's lineage is its predecessor's. */
  predicate MayDraw(s: System, call: Publish, id: CtxId, lineage: LineageId) {
    && id !in s.ids.ctx && (call.supersedes.None? ==> lineage !in s.ids.lineage)
    && lineage == LineageFor(s.reg.tables, call, lineage)
  }

  lemma Draws(run: seq<System>, run0: seq<System>, t: Tid, th: Thread, id: CtxId, lineage: LineageId)
    returns (run': seq<System>, th': Thread)
    requires Stage(run, run0, t, th, true, true) && th.pc == Assign && MayDraw(Last(run0), th.call, id, lineage)
    requires Accepts(Last(run).reg.tables, Last(run).reg.log, th.call)
    ensures th' == th.(pc := if Last(run).reg.log then TakeLogLock else FlipTarget, id := id, lineage := lineage)
    ensures Stage(run, run', t, th', true, true)
  {
    var s := Last(run0);
    th' := th.(pc := if s.reg.log then TakeLogLock else FlipTarget, id := id, lineage := lineage);
    var s1 := Put(s.(ids := Ids(s.ids.ctx[id := t],
                                if th.call.supersedes.None? then s.ids.lineage[lineage := t] else s.ids.lineage)), t, th');
    OneMoreMove(run0, s1, t, Draw(id, lineage));
    run' := run0 + [s1];
  }

  lemma AppendsLeaf(run: seq<System>, run0: seq<System>, t: Tid, th: Thread) returns (run': seq<System>, th': Thread)
    requires Stage(run, run0, t, th, true, true) && th.pc == TakeLogLock
    ensures th' == th.(pc := FlipTarget, leaf := |Last(run).reg.tables.leaves|) && Stage(run, run', t, th', false, true)
  {
    var s := Last(run0);
    var s1 := Put(s.(locks := s.locks.(log := Some(t))), t, th.(pc := AppendLeaf));
    OneMoreMove(run0, s1, t, LogLock);
    th' := th.(pc := FlipTarget, leaf := |s.reg.tables.leaves|);
    var s2 := Put(s1, t, th');
    OneMoreMove(run0 + [s1], s2, t, Leaf);
    run' := run0 + [s1] + [s2];
  }

  /** Marking the predecessor, and claiming the key if there is one. */
  lemma ClaimsKey(run: seq<System>, run0: seq<System>, t: Tid, th: Thread) returns (run': seq<System>, th': Thread)
    requires Stage(run, run0, t, th, false, true) && th.pc == FlipTarget
    requires th.call.key.Some? && th.call.Slot() in Last(run).reg.tables.idem ==> th.deleted
    ensures th' == th.(pc := PublishPc.TakeFeedLock) && Stage(run, run', t, th', false, true)
  {
    var s := Last(run0);
    th' := th.(pc := PublishPc.TakeFeedLock);
    if th.call.key.None? {
      OneMoreMove(run0, Put(s, t, th'), t, Flip);
      run' := run0 + [Put(s, t, th')];
    } else {
      var s1 := Put(s, t, th.(pc := ClaimKey));
      OneMoreMove(run0, s1, t, Flip);
      var s2 := Put(s1.(locks := WithKey(s1.locks, t, th.call.Slot())), t, th');
      OneMoreMove(run0 + [s1], s2, t, Claim);
      run' := run0 + [s1] + [s2];
    }
  }

  lemma TakesFeed(run: seq<System>, run0: seq<System>, t: Tid, th: Thread, at: int) returns (run': seq<System>, th': Thread)
    requires Stage(run, run0, t, th, false, true) && th.pc == PublishPc.TakeFeedLock && th.drawn == []
    ensures Stage(run, run', t, th', false, false) && th' == th.(pc := PublishPc.CommitNow, drawn := th'.drawn)
  {
    var s := Last(run0);
    if Pending(s.reg.tables, th) == [] {
      th' := th.(pc := PublishPc.CommitNow);
      OneMoreMove(run0, Put(s, t, th'), t, FeedLock);
      run' := run0 + [Put(s, t, th')];
    } else {
      var s1 := Put(s.(locks := s.locks.(feed := Some(t))), t, th.(pc := PublishPc.AppendFeed));
      OneMoreMove(run0, s1, t, FeedLock);
      run', th' := AppendsRows(run, run0 + [s1], t, s1.threads[t], at);
    }
  }

  lemma AppendsRows(run: seq<System>, run0: seq<System>, t: Tid, th: Thread, at: int) returns (run': seq<System>, th': Thread)
    requires Stage(run, run0, t, th, false, false) && th.pc == PublishPc.AppendFeed
    ensures Stage(run, run', t, th', false, false) && th' == th.(pc := PublishPc.CommitNow, drawn := th'.drawn)
    decreases |Pending(Last(run0).reg.tables, th)| - |th.drawn|
  {
    var s, pending := Last(run0), Pending(Last(run0).reg.tables, th);
    if |th.drawn| >= |pending| {
      th' := th.(pc := PublishPc.CommitNow);
      OneMoreMove(run0, Put(s, t, th'), t, Feed(at));
      run' := run0 + [Put(s, t, th')];
    } else {
      var th1 := th.(pc := PublishPc.AppendFeed, drawn := th.drawn + [Numbered(s.nextSeq, FeedRow(pending[|th.drawn|], at))]);
      var s1 := Put(s.(nextSeq := s.nextSeq + 1), t, th1);
      OneMoreMove(run0, s1, t, Feed(at));
      run', th' := AppendsRows(run, run0 + [s1], t, th1, at);
    }
  }

  lemma Commits(run: seq<System>, run0: seq<System>, t: Tid, th: Thread) returns (run': seq<System>)
    requires Stage(run, run0, t, th, false, false) && th.pc == PublishPc.CommitNow
    ensures Execution(run') && run <= run' && t in Last(run').threads
    ensures Last(run').threads[t]
         == Finished(PublishDone(th.call, Inserted(Response(th.id, th.lineage, th.call.version, th.call.now, th.call.minted))))
  {
    var s := Last(run0);
    var s1 := CommitAnswered(s, t, Inserted(ResponseFor(th.call, th.id, th.lineage)));
    OneMoreMove(run0, s1, t, CommitPublish);
    run' := run0 + [s1];
  }

  /** Up to the drawing of its identifiers. */
  lemma IsChecked(run: seq<System>, t: Tid, call: Publish, id: CtxId, lineage: LineageId) returns (run': seq<System>, th: Thread)
    requires Execution(run) && t !in Last(run).threads && Clear(Last(run), t, call, true, true)
    requires Accepts(Last(run).reg.tables, Last(run).reg.log, call) && MayDraw(Last(run), call, id, lineage)
    ensures Stage(run, run', t, th, false, true) && th.pc == FlipTarget && th.call == call && th.id == id && th.lineage == lineage
    ensures th.drawn == [] && (call.key.Some? && call.Slot() in Last(run).reg.tables.idem ==> th.deleted)
  {
    run', th := Starts(run, t, call);
    if call.key.Some? { run', th := ReadsKey(run, run', t, th); }
    run', th := ChecksTarget(run, run', t, th);
    run', th := Draws(run, run', t, th, id, lineage);
    if Last(run).reg.log { run', th := AppendsLeaf(run, run', t, th); }
  }

  /** An acceptable publish can be carried to its insert. */
  lemma AcceptedCanInsert(run: seq<System>, t: Tid, call: Publish, id: CtxId, lineage: LineageId, at: int) returns (run': seq<System>)
    requires Execution(run) && t !in Last(run).threads && Clear(Last(run), t, call, true, true)
    requires Accepts(Last(run).reg.tables, Last(run).reg.log, call) && MayDraw(Last(run), call, id, lineage)
    ensures Execution(run') && run <= run' && t in Last(run').threads
    ensures Last(run').threads[t]
         == Finished(PublishDone(call, Inserted(Response(id, lineage, call.version, call.now, call.minted))))
  {
    var th;
    run', th := IsChecked(run, t, call, id, lineage);
    run', th := ClaimsKey(run, run', t, th);
    run', th := TakesFeed(run, run', t, th, at);
    run' := Commits(run, run', t, th);
  }

  /** So once every call has ended, in whatever way, any acceptable publish can insert. */
  lemma QuietCanInsert(run: seq<System>, t: Tid, call: Publish, id: CtxId, lineage: LineageId, at: int) returns (run': seq<System>)
    requires Execution(run) && Quiet(Last(run)) && t !in Last(run).threads
    requires Accepts(Last(run).reg.tables, Last(run).reg.log, call) && MayDraw(Last(run), call, id, lineage)
    ensures Execution(run') && run <= run' && t in Last(run').threads
    ensures Last(run').threads[t]
         == Finished(PublishDone(call, Inserted(Response(id, lineage, call.version, call.now, call.minted))))
  {
    OnlyTheLivingHold(run, |run| - 1);
    run' := AcceptedCanInsert(run, t, call, id, lineage, at);
  }

  // ---------------------------------------------------------------- lifecycle

  /** `run'` goes on from `run` without a commit, and the event's thread stands at `th`. */
  ghost predicate MarkStage(run: seq<System>, run': seq<System>, t: Tid, th: Thread) {
    && Execution(run) && Execution(run') && run <= run' && Last(run').reg == Last(run).reg
    && t in Last(run').threads && Last(run').threads[t] == th && th.Marker?
    && th.event.ctx in Last(run).reg.tables.contexts
  }

  lemma LocksRow(run: seq<System>, t: Tid, e: Event, minting: bool) returns (run': seq<System>)
    requires Execution(run) && t !in Last(run).threads && e.ctx in Last(run).reg.tables.contexts
    requires RowFree(Last(run).locks, t, e.ctx)
    ensures MarkStage(run, run', t, Marker(e, minting, Decide, [])) && Last(run').locks.feed == Last(run).locks.feed
  {
    var s := Last(run);
    var s1 := Put(s, t, Marker(e, minting, LockRow, []));
    OneMoreMove(run, s1, t, Begin(Marker(e, minting, LockRow, [])));
    var s2 := Put(s1.(locks := WithRow(s1.locks, t, e.ctx)), t, Marker(e, minting, Decide, []));
    OneMoreMove(run + [s1], s2, t, MarkLock);
    run' := run + [s1] + [s2];
  }

  lemma DecidesEvent(run: seq<System>, run0: seq<System>, t: Tid, e: Event, minting: bool) returns (run': seq<System>)
    requires MarkStage(run, run0, t, Marker(e, minting, Decide, [])) && Last(run0).locks.feed == Last(run).locks.feed
    requires DecideLifecycle(EventsOf(Last(run).reg.tables, e.ctx), e) == Applied
    ensures MarkStage(run, run', t, Marker(e, minting, MarkPc.TakeFeedLock, [])) && Last(run').locks.feed == Last(run).locks.feed
  {
    var s1 := Put(Last(run0), t, Marker(e, minting, MarkPc.TakeFeedLock, []));
    OneMoreMove(run0, s1, t, MarkDecide);
    run' := run0 + [s1];
  }

  lemma AppendsEvent(run: seq<System>, run0: seq<System>, t: Tid, e: Event, minting: bool, at: int)
    returns (run': seq<System>, th: Thread)
    requires MarkStage(run, run0, t, Marker(e, minting, MarkPc.TakeFeedLock, [])) && Last(run0).locks.feed.None?
    ensures MarkStage(run, run', t, th) && th.mark == MarkPc.CommitNow && th.event == e
  {
    var s := Last(run0);
    if !minting {
      th := Marker(e, minting, MarkPc.CommitNow, []);
      OneMoreMove(run0, Put(s, t, th), t, FeedLock);
      run' := run0 + [Put(s, t, th)];
    } else {
      var s1 := Put(s.(locks := s.locks.(feed := Some(t))), t, Marker(e, minting, MarkPc.AppendFeed, []));
      OneMoreMove(run0, s1, t, FeedLock);
      run', th := AppendsEventRow(run, run0 + [s1], t, e, at);
    }
  }

  lemma AppendsEventRow(run: seq<System>, run0: seq<System>, t: Tid, e: Event, at: int) returns (run': seq<System>, th: Thread)
    requires MarkStage(run, run0, t, Marker(e, true, MarkPc.AppendFeed, []))
    ensures MarkStage(run, run', t, th) && th.mark == MarkPc.CommitNow && th.event == e
  {
    var s := Last(run0);
    var pending := LifecycleChanges(s.reg.tables, e, true);
    var drawn: seq<Numbered> := [] + [Numbered(s.nextSeq, FeedRow(pending[0], at))];
    var s1 := Put(s.(nextSeq := s.nextSeq + 1), t, Marker(e, true, MarkPc.AppendFeed, drawn));
    OneMoreMove(run0, s1, t, Feed(at));
    th := Marker(e, true, MarkPc.CommitNow, drawn);
    OneMoreMove(run0 + [s1], Put(s1, t, th), t, Feed(at));
    run' := run0 + [s1] + [Put(s1, t, th)];
  }

  /** An event its context's history allows can be carried to its application. */
  lemma AllowedCanApply(run: seq<System>, t: Tid, e: Event, minting: bool, at: int) returns (run': seq<System>)
    requires Execution(run) && t !in Last(run).threads && e.ctx in Last(run).reg.tables.contexts
    requires DecideLifecycle(EventsOf(Last(run).reg.tables, e.ctx), e) == Applied
    requires RowFree(Last(run).locks, t, e.ctx) && Last(run).locks.feed.None?
    ensures Execution(run') && run <= run' && t in Last(run').threads
    ensures Last(run').threads[t] == Finished(MarkDone(e, Applied))
    ensures EventsOf(Last(run').reg.tables, e.ctx) == EventsOf(Last(run).reg.tables, e.ctx) + [e]
  {
    var th;
    run' := LocksRow(run, t, e, minting);
    run' := DecidesEvent(run, run', t, e, minting);
    run', th := AppendsEvent(run, run', t, e, minting, at);
    run' := CommitsEvent(run', t, th);
  }

  lemma CommitsEvent(run: seq<System>, t: Tid, th: Thread) returns (run': seq<System>)
    requires Execution(run) && t in Last(run).threads && Last(run).threads[t] == th
    requires th.Marker? && th.mark == MarkPc.CommitNow && th.event.ctx in Last(run).reg.tables.contexts
    ensures Execution(run') && run <= run' && t in Last(run').threads
    ensures Last(run').threads[t] == Finished(MarkDone(th.event, Applied))
    ensures EventsOf(Last(run').reg.tables, th.event.ctx) == EventsOf(Last(run).reg.tables, th.event.ctx) + [th.event]
  {
    var s := Last(run);
    var s1 := End(s.(reg := s.reg.(tables := LifecycleEffect(s.reg.tables, th.event, th.drawn), feed := s.reg.feed + th.drawn)),
                  t, MarkDone(th.event, Applied));
    OneMoreMove(run, s1, t, CommitMark);
    run' := run + [s1];
  }
}
