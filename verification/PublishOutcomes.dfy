/** What a publish is answered and what it writes, statement by statement, over every
    execution: stated by the declared members of the calls, without the functions the
    steps are made of. */
module PublishOutcomes {
  import opened Tables
  import opened SerialRegistry
  import opened Transactions
  import opened Executions
  import opened LineageReads
  import opened RegistryTheorems

  // -------------------------------------------------------- what is on the row

  /** The row of a committed publish carries what its call declared. */
  ghost predicate AsDeclared(row: Context, c: Commit) {
    && row.lineage == c.lineage
    && row.agent == c.call.agent
    && row.contributors == c.call.contributors
    && row.version == c.call.version
    && row.supersedes == c.call.supersedes
    && row.hash == c.call.hash
    && row.expiresAt == c.call.expiresAt
    && row.tenant == (match c.call.tenant case Some(t) => t case None => TenantId("default"))
  }

  /** At every point of every execution each committed publish has its row, as declared. */
  lemma StoredAsDeclared(run: seq<System>, n: nat, i: nat)
    requires Execution(run) && n < |run| && i < |run[n].reg.commits|
    ensures var c, contexts := run[n].reg.commits[i], run[n].reg.tables.contexts;
            c.id in contexts && AsDeclared(contexts[c.id], c)
  {
    ReachedCommits(run, n);
    assert Records(run[n].reg.tables.contexts, run[n].reg.commits[i]);
  }

  // ------------------------------------------------------- the predecessor check

  /** Some committed publish supersedes `p`. */
  ghost predicate Taken(commits: seq<Commit>, p: CtxId) {
    exists m :: 0 <= m < |commits| && commits[m].call.supersedes == Some(p)
  }

  lemma TakenIsSuperseded(run: seq<System>, n: nat, j: nat)
    requires Execution(run) && n < |run| && j < |run[n].reg.commits|
    ensures var commits, contexts := run[n].reg.commits, run[n].reg.tables.contexts;
            commits[j].id in contexts && (contexts[commits[j].id].status == Superseded <==> Taken(commits, commits[j].id))
  {
    var commits, contexts := run[n].reg.commits, run[n].reg.tables.contexts;
    var p := commits[j].id;
    StoredAsDeclared(run, n, j);
    SuccessionIsLinear(run, n, p);
    if contexts[p].status == Superseded {
      var d :| Succeeds(contexts, d, p);
      var m := CommitOf(run, n, d);
      StoredAsDeclared(run, n, m);
      assert commits[m].call.supersedes == Some(p);
    }
    if Taken(commits, p) {
      var m :| 0 <= m < |commits| && commits[m].call.supersedes == Some(p);
      StoredAsDeclared(run, n, m);
      assert Succeeds(contexts, commits[m].id, p);
    }
  }

  lemma CommitOf(run: seq<System>, n: nat, c: CtxId) returns (m: nat)
    requires Execution(run) && n < |run| && c in run[n].reg.tables.contexts
    ensures m < |run[n].reg.commits| && run[n].reg.commits[m].id == c
  {
    ReachedCommits(run, n);
    var x :| 0 <= x < |run[n].reg.commits| && run[n].reg.commits[x].id == c;
    m := x;
  }

  predicate MayContinue(call: Publish, first: Publish) {
    && (call.agent == first.agent || call.agent in first.contributors)
    && (call.tenant.Some? ==> call.tenant.value == (match first.tenant case Some(t) => t case None => TenantId("default")))
  }

  /** Where a publish stands after the predecessor check, by the predecessor's own call:
      it goes on only as that call's producer or contributor, in its tenant and lineage,
      with the next version, before anyone else; each other case has its own refusal. */
  ghost predicate CheckedAgainst(th: Thread, th': Thread, first: Commit, taken: bool)
    requires th.Publisher?
  {
    var call := th.call;
    if !MayContinue(call, first.call) then th' == Finished(PublishDone(call, Refused(TargetNotFound)))
    else if call.declaredLineage.Some? && call.declaredLineage.value != first.lineage
    then th' == Finished(PublishDone(call, Refused(LineageMismatch)))
    else if call.version != first.call.version + 1 then th' == Finished(PublishDone(call, Refused(VersionMismatch)))
    else if taken then
      if call.key.None? then th' == Finished(PublishDone(call, Refused(TargetAlreadySuperseded)))
      else th' == th.(pc := RaceReplay)
    else th' == th.(pc := Assign)
  }

  lemma TargetStepDecides(s: System, s': System, t: Tid, first: Commit, taken: bool)
    requires Next(s, s', t, Target) && s.threads[t].call.supersedes == Some(first.id)
    requires first.id in s.reg.tables.contexts && AsDeclared(s.reg.tables.contexts[first.id], first)
    requires s.reg.tables.contexts[first.id].status == Superseded <==> taken
    ensures t in s'.threads && CheckedAgainst(s.threads[t], s'.threads[t], first, taken)
  {
  }

  lemma TargetDecides(run: seq<System>, k: nat, t: Tid, j: nat)
    requires Execution(run) && k + 1 < |run| && Next(run[k], run[k + 1], t, Target)
    requires j < |run[k].reg.commits| && run[k].threads[t].call.supersedes == Some(run[k].reg.commits[j].id)
    ensures t in run[k + 1].threads
    ensures var commits := run[k].reg.commits;
            CheckedAgainst(run[k].threads[t], run[k + 1].threads[t], commits[j], Taken(commits, commits[j].id))
  {
    StoredAsDeclared(run, k, j);
    TakenIsSuperseded(run, k, j);
    TargetStepDecides(run[k], run[k + 1], t, run[k].reg.commits[j], Taken(run[k].reg.commits, run[k].reg.commits[j].id));
  }

  /** Without a predecessor the check passes; with one that was never committed it is not found. */
  lemma TargetAbsent(run: seq<System>, k: nat, t: Tid)
    requires Execution(run) && k + 1 < |run| && Next(run[k], run[k + 1], t, Target)
    ensures t in run[k + 1].threads
    ensures var th, th', commits := run[k].threads[t], run[k + 1].threads[t], run[k].reg.commits;
            && (th.call.supersedes.None? ==> th' == th.(pc := Assign))
            && (th.call.supersedes.Some? && (forall j :: 0 <= j < |commits| ==> commits[j].id != th.call.supersedes.value) ==>
                  th' == Finished(PublishDone(th.call, Refused(TargetNotFound))))
  {
    var call := run[k].threads[t].call;
    if call.supersedes.Some? && call.supersedes.value in run[k].reg.tables.contexts {
      var m := CommitOf(run, k, call.supersedes.value);
    }
  }

  // ------------------------------------------------------ what a reader is told

  /** The status served of a committed context, its row and its events read at two points:
      retracted by an odd number of events at either, else superseded if some committed
      publish supersedes it, else expired by its own call, else active. */
  lemma StatusServed(run: seq<System>, i: nat, j: nat, m: nat, now: int)
    requires Execution(run) && i <= j < |run| && m < |run[i].reg.commits|
    ensures var c, t, later := run[i].reg.commits[m], run[i].reg.tables, run[j].reg.tables;
            && c.id in t.contexts
            && Project(t.contexts[c.id], EventsOf(later, c.id), now)
            == if |EventsOf(t, c.id)| % 2 == 1 || |EventsOf(later, c.id)| % 2 == 1 then ServedRetracted
               else if Taken(run[i].reg.commits, c.id) then ServedSuperseded
               else if c.call.expiresAt.Some? && c.call.expiresAt.value <= now then ServedExpired
               else ServedActive
  {
    var c := run[i].reg.commits[m];
    StoredAsDeclared(run, i, m);
    TakenIsSuperseded(run, i, m);
    HistoriesAlternate(run, i, c.id);
    ExecutionExtends(run, i, j);
    StoredAsDeclared(run, j, m);
    HistoriesAlternate(run, j, c.id);
  }

  // --------------------------------------------------------- the record's answer

  /** What a call that meets a record is told: the stored response on equal content,
      otherwise that the key was used for something else. */
  ghost predicate ToldFrom(row: IdemRow, call: Publish, th: Thread) {
    th == Finished(PublishDone(call, if row.hash == call.hash then Replayed(row.response) else Refused(DuplicatePublish)))
  }

  /** The three statements that read the record. Before the insert only one unexpired by
      the call's clock answers; after losing the key any does, and none means failure. */
  lemma RecordDecides(s: System, s': System, t: Tid, m: Move)
    requires Next(s, s', t, m) && (m == Find(true) || m == Find(false) || m == Race || m == Back)
    ensures t in s.threads && s.threads[t].Publisher? && t in s'.threads && s'.reg == s.reg
    ensures var th, th', idem := s.threads[t], s'.threads[t], s.reg.tables.idem;
            && (m == Find(false) ==> th' == th.(pc := LockTarget))
            && (m != Find(false) ==> th.call.key.Some?)
            && (m == Find(true) ==>
                  && th.call.Slot() in idem
                  && if idem[th.call.Slot()].expiresAt > th.call.now then ToldFrom(idem[th.call.Slot()], th.call, th')
                     else th' == th.(pc := LockTarget))
            && (m == Race ==>
                  if th.call.Slot() in idem && idem[th.call.Slot()].expiresAt > th.call.now
                  then ToldFrom(idem[th.call.Slot()], th.call, th')
                  else th' == Finished(PublishDone(th.call, Refused(TargetAlreadySuperseded))))
            && (m == Back ==>
                  if th.call.Slot() in idem then ToldFrom(idem[th.call.Slot()], th.call, th')
                  else th' == Finished(PublishDone(th.call, Refused(Aborted))))
  {
  }

  /** The claim goes to a call whose key has no record, or whose own eviction removes it;
      otherwise everything is rolled back and the winner read. */
  lemma ClaimDecides(s: System, s': System, t: Tid)
    requires Next(s, s', t, Claim)
    ensures t in s.threads && s.threads[t].Publisher? && s.threads[t].call.key.Some? && t in s'.threads && s'.reg == s.reg
    ensures var th, th' := s.threads[t], s'.threads[t];
            if th.call.Slot() in s.reg.tables.idem && !th.deleted
            then th'.Publisher? && th'.pc == ReadBack && th'.call == th.call && forall c :: c in s'.locks.rows ==> s'.locks.rows[c] != t
            else th' == th.(pc := PublishPc.TakeFeedLock) && th.call.Slot() in s'.locks.keys && s'.locks.keys[th.call.Slot()] == t
  {
  }

  /** With the log on an unreceipted publish is refused; any other draws new identifiers. */
  lemma DrawDecides(s: System, s': System, t: Tid, id: CtxId, lineage: LineageId)
    requires Next(s, s', t, Draw(id, lineage))
    ensures t in s.threads && s.threads[t].Publisher? && t in s'.threads && s'.reg == s.reg
    ensures var th, th' := s.threads[t], s'.threads[t];
            if s.reg.log && !th.call.minted then th' == Finished(PublishDone(th.call, Refused(LogNeedsReceipt)))
            else
              && id !in s.ids.ctx && id in s'.ids.ctx
              && th'.Publisher? && th'.call == th.call && th'.id == id && th'.lineage == lineage
              && (th.call.supersedes.Some? && th.call.supersedes.value in s.reg.tables.contexts ==>
                    lineage == s.reg.tables.contexts[th.call.supersedes.value].lineage)
  {
  }

  // ---------------------------------------------------------------- the commit

  /** The answer to an insert names the stored context, its version and creation time. */
  ghost predicate Reports(r: Response, call: Publish, id: CtxId, lineage: LineageId) {
    r.ctx == id && r.lineage == lineage && r.version == call.version && r.createdAt == call.now && r.receipted == call.minted
  }

  /** The feed rows of a publish: the supersession of its predecessor, then the revocation
      it declares, and none without a receipt. */
  ghost predicate FeedsPublish(rows: seq<Numbered>, call: Publish, id: CtxId, lineage: LineageId, contexts: map<CtxId, Context>) {
    if !call.minted then rows == []
    else
      && |rows| == (if call.supersedes.Some? then 1 else 0) + (if call.revokes.Some? then 1 else 0)
      && (call.supersedes.Some? ==>
            && call.supersedes.value in contexts
            && var c := rows[0].row.change;
            && c.kind == SupersededChange && c.ctx == call.supersedes.value && c.lineage == lineage
            && c.agent == contexts[call.supersedes.value].agent && c.supersededBy == Some(id))
      && (call.revokes.Some? ==>
            var c := rows[|rows| - 1].row.change;
            && c.kind == KeyRevocationChange && c.ctx == id && c.lineage == lineage
            && c.agent == call.revokes.value && c.supersededBy == None)
  }

  ghost predicate ContextsWritten(before: map<CtxId, Context>, after: map<CtxId, Context>, c: Commit) {
    && c.id !in before && after.Keys == before.Keys + {c.id}
    && AsDeclared(after[c.id], c) && after[c.id].status == Active && !after[c.id].retracted
    && forall k :: k in before ==>
         after[k] == if c.call.supersedes == Some(k) then before[k].(status := Superseded) else before[k]
  }

  ghost predicate RecordWritten(before: map<IdemKey, IdemRow>, after: map<IdemKey, IdemRow>, call: Publish, id: CtxId, lineage: LineageId) {
    if call.key.None? then after == before
    else
      var slot := IdemKey(call.agent, call.key.value);
      && slot in after && after[slot].hash == call.hash && after[slot].expiresAt == call.now + call.ttl
      && Reports(after[slot].response, call, id, lineage)
      && forall k :: k != slot ==> (k in after <==> k in before) && (k in before ==> after[k] == before[k])
  }

  lemma CommitStepWrites(r: Registry, r': Registry, call: Publish, id: CtxId, lineage: LineageId, drawn: seq<Numbered>)
    requires PublishStep(r, r', call, id, lineage, drawn)
    ensures ContextsWritten(r.tables.contexts, r'.tables.contexts, Commit(call, id, lineage))
    ensures RecordWritten(r.tables.idem, r'.tables.idem, call, id, lineage)
    ensures r'.feed == r.feed + drawn && FeedsPublish(drawn, call, id, lineage, r.tables.contexts)
    ensures r'.tables.events == r.tables.events && r'.tables.prunedThrough == r.tables.prunedThrough
    ensures r'.tables.leaves == if r.log then r.tables.leaves[|r.tables.leaves| := id] else r.tables.leaves
  {
  }

  /** A commit writes the declared context and marks its predecessor, appends the log
      leaf, leaves the key's record until its time to live has passed, and appends its
      feed rows; it touches nothing else, and the call is told so or told nothing. */
  lemma CommitWrites(run: seq<System>, k: nat, t: Tid)
    requires Execution(run) && k + 1 < |run| && Next(run[k], run[k + 1], t, CommitPublish)
    ensures t in run[k].threads && run[k].threads[t].Publisher?
    ensures var r, r', th := run[k].reg, run[k + 1].reg, run[k].threads[t];
            && ContextsWritten(r.tables.contexts, r'.tables.contexts, Commit(th.call, th.id, th.lineage))
            && RecordWritten(r.tables.idem, r'.tables.idem, th.call, th.id, th.lineage)
            && r'.feed == r.feed + th.drawn && FeedsPublish(th.drawn, th.call, th.id, th.lineage, r.tables.contexts)
            && r'.tables.events == r.tables.events && r'.tables.prunedThrough == r.tables.prunedThrough
            && r'.tables.leaves == (if r.log then r.tables.leaves[|r.tables.leaves| := th.id] else r.tables.leaves)
    ensures t in run[k + 1].threads && run[k + 1].threads[t].Finished? && run[k + 1].threads[t].result.PublishDone?
    ensures var th, o := run[k].threads[t], run[k + 1].threads[t].result.outcome;
            o == Refused(CommitUnknown) || (o.Inserted? && Reports(o.response, th.call, th.id, th.lineage))
  {
    var th := run[k].threads[t];
    CommitIsPublishStep(run, k, t);
    CommitStepWrites(run[k].reg, run[k + 1].reg, th.call, th.id, th.lineage, th.drawn);
  }

  lemma CommitIsPublishStep(run: seq<System>, k: nat, t: Tid)
    requires Execution(run) && k + 1 < |run| && Next(run[k], run[k + 1], t, CommitPublish)
    ensures t in run[k].threads && run[k].threads[t].Publisher?
    ensures var th := run[k].threads[t]; PublishStep(run[k].reg, run[k + 1].reg, th.call, th.id, th.lineage, th.drawn)
  {
    ExecutionKeeps(run, k);
    PublishCommitIsSerialAt(run[k], run[k + 1], t);
  }
}
