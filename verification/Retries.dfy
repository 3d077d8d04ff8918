/** Retrying a publish under its idempotency key, in particular one whose commit was
    applied but never acknowledged. */
module Retries {
  import opened Tables
  import opened SerialRegistry
  import opened Transactions
  import opened Isolation
  import opened Serializability
  import opened Executions
  import opened RegistryTheorems

  // ---------------------------------------------------------- what was checked

  /** What a commit's own checks established, beyond the invariant of the tables. */
  predicate Sound(log: bool, c: Commit) {
    && (log ==> c.call.minted)
    && (c.call.supersedes.Some? && c.call.declaredLineage.Some? ==> c.call.declaredLineage.value == c.lineage)
  }

  ghost predicate AllSound(r: Registry) {
    forall i :: 0 <= i < |r.commits| ==> Sound(r.log, r.commits[i])
  }

  lemma SoundGrows(r: Registry, r': Registry)
    requires Linked(r, r') && AllSound(r)
    ensures AllSound(r')
  {
    var a :| Step(r, r', a);
    match a
    case DoPublish(call, id, lineage, _) => assert Sound(r.log, Commit(call, id, lineage));
    case _ =>
  }

  lemma {:induction false} ReachedSound(run: seq<System>, n: nat)
    requires Execution(run) && n < |run|
    ensures AllSound(run[n].reg)
  {
    if n > 0 {
      ReachedSound(run, n - 1);
      ReachedLinked(run, n);
      SoundGrows(run[n - 1].reg, run[n].reg);
    }
  }

  /** The same call again: only its clock may differ. */
  predicate SameCall(call: Publish, first: Publish) {
    call == first.(now := call.now)
  }

  /** To a committed call's retry, its predecessor shows superseded and nothing else. */
  lemma PredecessorShowsSuperseded(r: Registry, c: Commit, call: Publish)
    requires LineageInv(r.tables.contexts, r.chains) && Records(r.tables.contexts, c)
    requires SameTenant(r.tables.contexts, c.call) && Sound(r.log, c)
    requires SameCall(call, c.call) && call.supersedes.Some?
    ensures call.supersedes.value in r.tables.contexts
    ensures CheckPredecessor(r.tables.contexts[call.supersedes.value], call) == Some(TargetAlreadySuperseded)
  {
    var contexts := r.tables.contexts;
    var k := SuccessorOnChain(contexts, r.chains, c.id);
    var chain := r.chains[contexts[c.id].lineage];
    assert ChainOk(contexts, contexts[c.id].lineage, chain);
    assert Follows(chain[k - 1], contexts[chain[k - 1]], contexts[chain[k]]);
  }

  // ----------------------------------------------------------------- one step

  /** The tables a retry meets while the record of the first call stands. */
  predicate OnFile(t: Tables, log: bool, call: Publish, response: Response) {
    && call.key.Some? && call.Slot() in t.idem
    && t.idem[call.Slot()].expiresAt > call.now && t.idem[call.Slot()].hash == call.hash
    && t.idem[call.Slot()].response == response
    && (log ==> call.minted)
    && (call.supersedes.Some? ==>
          call.supersedes.value in t.contexts
          && CheckPredecessor(t.contexts[call.supersedes.value], call) == Some(TargetAlreadySuperseded))
  }

  /** Answered with the response on file, or a statement failed. */
  predicate ReplayedOrAborted(th: Thread, m: Move, call: Publish, response: Response) {
    th == Finished(PublishDone(call, if m.Abort? then Refused(Aborted) else Replayed(response)))
  }

  /** No retry holds the key past its claim, so none commits. */
  lemma NeverPastTheClaim(s: System, t: Tid, response: Response)
    requires Mine(s, t) && s.threads[t].Publisher? && OnFile(s.reg.tables, s.reg.log, s.threads[t].call, response)
    ensures !s.threads[t].deleted && !Claimed(s.threads[t].pc)
  {
  }

  lemma RetryReads(s: System, s': System, t: Tid, m: Move, response: Response)
    requires Mine(s, t) && s.threads[t].Publisher? && OnFile(s.reg.tables, s.reg.log, s.threads[t].call, response)
    requires Next(s, s', t, m) && t in s'.threads && s'.threads[t].Finished?
    requires m.Begin? || m.Abort? || m.Evict? || m.Find? || m.Target? || m.Race? || m.Back?
    ensures ReplayedOrAborted(s'.threads[t], m, s.threads[t].call, response)
  {
    NeverPastTheClaim(s, t, response);
  }

  lemma WritingNeverAnswers(s: System, s': System, t: Tid, m: Move, response: Response)
    requires Mine(s, t) && s.threads[t].Publisher? && OnFile(s.reg.tables, s.reg.log, s.threads[t].call, response)
    requires Next(s, s', t, m) && t in s'.threads
    requires !(m.Begin? || m.Abort? || m.Evict? || m.Find? || m.Target? || m.Race? || m.Back?)
    ensures !s'.threads[t].Finished?
  {
    NeverPastTheClaim(s, t, response);
  }

  lemma RetryStep(s: System, s': System, t: Tid, response: Response) returns (m: Move)
    requires Mine(s, t) && s.threads[t].Publisher? && OnFile(s.reg.tables, s.reg.log, s.threads[t].call, response)
    requires Moves(s, s') && t in s'.threads && s'.threads[t].Finished?
    ensures Next(s, s', t, m) && ReplayedOrAborted(s'.threads[t], m, s.threads[t].call, response)
  {
    var u, n :| Next(s, s', u, n);
    MoverIsAnswered(s, s', u, n, t);
    m := n;
    if m.Begin? || m.Abort? || m.Evict? || m.Find? || m.Target? || m.Race? || m.Back? {
      RetryReads(s, s', t, m, response);
    } else {
      WritingNeverAnswers(s, s', t, m, response);
    }
  }

  // ---------------------------------------------------------------- theorem

  lemma ReachedOnFile(run: seq<System>, k: nat, i: nat, call: Publish)
    requires Execution(run) && k < |run| && i < |run[k].reg.commits|
    requires var r := run[k].reg;
             && r.commits[i].call.key.Some? && Unused(r.commits, i, |r.commits|) && !WasEvicted(r.evicted, r.commits[i])
             && SameCall(call, r.commits[i].call) && call.now < RecordOf(r.commits[i]).expiresAt
    ensures OnFile(run[k].reg.tables, run[k].reg.log, call, RecordOf(run[k].reg.commits[i]).response)
  {
    var r := run[k].reg;
    ReachedRecords(run, k);
    ReachedSound(run, k);
    assert Sound(r.log, r.commits[i]);
    if call.supersedes.Some? {
      ReachedLineages(run, k);
      ReachedCommits(run, k);
      PredecessorShowsSuperseded(r, r.commits[i], call);
    }
  }

  lemma ReachedMoves(run: seq<System>, n: nat)
    requires Execution(run) && 0 < n < |run|
    ensures Moves(run[n - 1], run[n])
  {
    assert Moves(run[n - 1], run[n]);
  }

  /** While the record of a committed call stands, unexpired by the retry's clock and
      not evicted, the same call again is answered with the first response, whichever
      statement answers it and whatever runs between; only a failing statement gives it
      another end. It holds for every committed call, whether its answer was received or
      lost. */
  lemma RetryReplays(run: seq<System>, k: nat, t: Tid, i: nat) returns (m: Move)
    requires Execution(run) && k + 1 < |run| && Unanswered(run[k], t) && run[k].threads[t].Publisher?
    requires t in run[k + 1].threads && run[k + 1].threads[t].Finished? && i < |run[k].reg.commits|
    requires var r, call := run[k].reg, run[k].threads[t].call;
             && r.commits[i].call.key.Some? && Unused(r.commits, i, |r.commits|) && !WasEvicted(r.evicted, r.commits[i])
             && SameCall(call, r.commits[i].call) && call.now < RecordOf(r.commits[i]).expiresAt
    ensures Next(run[k], run[k + 1], t, m)
    ensures ReplayedOrAborted(run[k + 1].threads[t], m, run[k].threads[t].call, RecordOf(run[k].reg.commits[i]).response)
  {
    ReachedOnFile(run, k, i, run[k].threads[t].call);
    ReachedMine(run, k, t);
    ReachedMoves(run, k + 1);
    m := RetryStep(run[k], run[k + 1], t, RecordOf(run[k].reg.commits[i]).response);
  }
}
