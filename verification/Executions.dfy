/** Whole executions of the concurrent registry. */
module Executions {
  import opened SerialRegistry
  import opened Transactions
  import opened Serializability
  import opened Commits

  // --------------------------------------------------------------- every step

  lemma KeyMoves(s: System, s': System, t: Tid, m: Move)
    requires Mine(s, t) && OnRecord(s.reg.tables.idem, s.reg.commits) && Next(s, s', t, m)
    requires m.Evict? || m.Find? || m.Claim?
    ensures Moved(s, s', t) && !s.threads[t].Finished?
  {
    match m
    case Evict(found) => EvictKeyMoves(s, s', t, found);
    case Find(found) => FindKeyMoves(s, s', t, found);
    case Claim => ClaimKeyMoves(s, s', t);
  }

  lemma ReplayMoves(s: System, s': System, t: Tid, m: Move)
    requires Mine(s, t) && OnRecord(s.reg.tables.idem, s.reg.commits) && Next(s, s', t, m)
    requires m.Target? || m.Race? || m.Back?
    ensures Moved(s, s', t) && !s.threads[t].Finished?
  {
    match m
    case Target => LockTargetMoves(s, s', t);
    case Race => RaceReplayMoves(s, s', t);
    case Back => ReadBackMoves(s, s', t);
  }

  lemma WritingMoves(s: System, s': System, t: Tid, m: Move)
    requires SystemInv(s) && Next(s, s', t, m)
    requires m.Draw? || m.LogLock? || m.Leaf? || m.Flip? || m.FeedLock? || m.Feed?
    ensures Moved(s, s', t) && !s.threads[t].Finished?
  {
    match m
    case Draw(id, lineage) => AssignMoves(s, s', t, id, lineage);
    case LogLock => TakeLogLockMoves(s, s', t);
    case Leaf => AppendLeafMoves(s, s', t);
    case Flip => FlipTargetMoves(s, s', t);
    case FeedLock => TakeFeedLockMoves(s, s', t);
    case Feed(at) => AppendFeedMoves(s, s', t, at);
  }

  lemma EdgeMoves(s: System, s': System, t: Tid, m: Move)
    requires SystemInv(s) && Next(s, s', t, m) && (m.Begin? || m.Abort?)
    ensures Moved(s, s', t) && (t in s.threads ==> !s.threads[t].Finished?)
  {
    match m
    case Begin(th) => BeginMoves(s, s', t, th);
    case Abort => EndMoves(s, t, AbortResult(s.threads[t]));
  }

  lemma OtherMoves(s: System, s': System, t: Tid, m: Move)
    requires SystemInv(s) && Next(s, s', t, m)
    requires m.MarkLock? || m.MarkDecide? || m.PruneLock? || m.PruneScan?
    ensures Moved(s, s', t) && (t in s.threads ==> !s.threads[t].Finished?)
  {
    match m
    case MarkLock => LockRowMoves(s, s', t);
    case MarkDecide => DecideMoves(s, s', t);
    case PruneLock => LockMarkerMoves(s, s', t);
    case PruneScan(last, none) => ScanOldestMoves(s, s', t, last, none);
  }

  predicate MakesVisible(m: Move) {
    m.CommitPublish? || m.CommitMark? || m.CommitPrune? || m.EvictRecord?
  }

  lemma InvMine(s: System, t: Tid)
    requires SystemInv(s) && t in s.threads
    ensures Mine(s, t) && OnRecord(s.reg.tables.idem, s.reg.commits)
  {
  }

  lemma PrivateMoved(s: System, s': System, t: Tid, m: Move)
    requires SystemInv(s) && Next(s, s', t, m) && !MakesVisible(m)
    ensures Moved(s, s', t) && (t in s.threads ==> !s.threads[t].Finished?)
  {
    if m.Evict? || m.Find? || m.Claim? {
      InvMine(s, t);
      KeyMoves(s, s', t, m);
    } else if m.Target? || m.Race? || m.Back? {
      InvMine(s, t);
      ReplayMoves(s, s', t, m);
    } else if m.Draw? || m.LogLock? || m.Leaf? || m.Flip? || m.FeedLock? || m.Feed? {
      WritingMoves(s, s', t, m);
    } else if m.Begin? || m.Abort? {
      EdgeMoves(s, s', t, m);
    } else {
      OtherMoves(s, s', t, m);
    }
  }

  lemma PrivateMoves(s: System, s': System, t: Tid, m: Move)
    requires SystemInv(s) && Next(s, s', t, m) && !MakesVisible(m)
    ensures SystemInv(s') && s'.reg == s.reg
  {
    PrivateMoved(s, s', t, m);
    MovedSettles(s, s', t);
  }

  lemma MovedSettles(s: System, s': System, t: Tid)
    requires SystemInv(s) && Moved(s, s', t) && (t in s.threads ==> !s.threads[t].Finished?)
    ensures SystemInv(s') && s'.reg == s.reg
  {
    SettlePrivate(s, s', t);
  }

  lemma VisibleMoves(s: System, s': System, t: Tid, m: Move)
    requires SystemInv(s) && Next(s, s', t, m) && MakesVisible(m)
    ensures SystemInv(s')
  {
    match m
    case CommitPublish => PublishCommitKeeps(s, s', t);
    case CommitMark => MarkCommitKeeps(s, s', t);
    case CommitPrune => PruneCommitKeeps(s, s', t);
    case EvictRecord(k, clock) => EvictRecordKeeps(s, s', k, clock);
  }

  /** The serial step a visible move amounts to. */
  function SerialAction(s: System, t: Tid, m: Move): Action {
    if t !in s.threads && !m.EvictRecord? then DoNothing
    else match m
      case CommitPublish =>
        if s.threads[t].Publisher?
        then DoPublish(s.threads[t].call, s.threads[t].id, s.threads[t].lineage, s.threads[t].drawn) else DoNothing
      case CommitMark =>
        if s.threads[t].Marker? then DoLifecycle(s.threads[t].event, s.threads[t].minting, s.threads[t].drawn) else DoNothing
      case CommitPrune => if s.threads[t].Pruner? then DoPrune(s.threads[t].last, s.threads[t].cutoff) else DoNothing
      case EvictRecord(k, clock) => DoEvict(k, clock)
      case _ => DoNothing
  }

  lemma VisibleIsSerial(s: System, s': System, t: Tid, m: Move)
    requires SystemInv(s) && Next(s, s', t, m) && MakesVisible(m)
    ensures Step(s.reg, s'.reg, SerialAction(s, t, m))
  {
    match m
    case CommitPublish => PublishCommitIsSerial(s, s', t);
    case CommitMark => MarkCommitIsSerial(s, s', t);
    case CommitPrune => PruneCommitKeeps(s, s', t);
    case EvictRecord(k, clock) =>
  }

  /** Every step of every thread keeps the system's invariant, and shows in the
      registry as the serial step it stands for. */
  lemma NextKeeps(s: System, s': System, t: Tid, m: Move)
    requires SystemInv(s) && Next(s, s', t, m)
    ensures SystemInv(s') && Step(s.reg, s'.reg, SerialAction(s, t, m))
  {
    if MakesVisible(m) {
      VisibleMoves(s, s', t, m);
      VisibleIsSerial(s, s', t, m);
    } else {
      PrivateMoves(s, s', t, m);
    }
  }

  // --------------------------------------------------------------- executions

  ghost predicate Moves(s: System, s': System) {
    exists t, m :: Next(s, s', t, m)
  }

  /** An execution: from empty tables, any thread moving at any time. */
  ghost predicate Execution(run: seq<System>) {
    && |run| > 0
    && InitialSystem(run[0])
    && forall i {:trigger Moves(run[i - 1], run[i])} :: 0 < i < |run| ==> Moves(run[i - 1], run[i])
  }

  function Serial(run: seq<System>): seq<Registry> {
    seq(|run|, i requires 0 <= i < |run| => run[i].reg)
  }

  lemma InitialKeeps(s: System)
    requires InitialSystem(s)
    ensures SystemInv(s)
  {
  }

  lemma {:induction false} ExecutionKeeps(run: seq<System>, i: nat)
    requires Execution(run) && i < |run|
    ensures SystemInv(run[i])
    ensures i > 0 ==> Linked(run[i - 1].reg, run[i].reg)
  {
    if i == 0 {
      InitialKeeps(run[0]);
    } else {
      ExecutionKeeps(run, i - 1);
      assert Moves(run[i - 1], run[i]);
      var t, m :| Next(run[i - 1], run[i], t, m);
      NextKeeps(run[i - 1], run[i], t, m);
    }
  }

  lemma ReachedLinked(run: seq<System>, i: nat)
    requires Execution(run) && 0 < i < |run|
    ensures Linked(run[i - 1].reg, run[i].reg)
  {
    ExecutionKeeps(run, i);
  }

  /** Serializability: dropping the threads from an execution leaves a run in which
      the committed transactions happened one at a time. */
  lemma Serializable(run: seq<System>)
    requires Execution(run)
    ensures Run(Serial(run)) && InitialRegistry(Serial(run)[0])
  {
    var serial := Serial(run);
    forall i | 0 < i < |serial|
      ensures Linked(serial[i - 1], serial[i])
    {
      ReachedLinked(run, i);
    }
  }
}
