/** Runs of the registry in which commits happen one after the other: every
    committed publish and lifecycle event, the retention prune and the eviction
    of idempotency records. `Transactions` shows that interleaved transactions
    produce no other tables. */
module SerialRegistry {
  import opened Tables

  /** A committed publish. */
  datatype Commit = Commit(call: Publish, id: CtxId, lineage: LineageId)

  /** The tables, and what the run did to produce them: the committed publishes
      in commit order, every feed row ever committed, the successor chain of each
      lineage, and for each record removed by the eviction task the clock of the
      pass that removed it. */
  datatype Registry = Registry(
    log: bool,
    tables: Tables,
    commits: seq<Commit>,
    feed: seq<Numbered>,
    chains: map<LineageId, seq<CtxId>>,
    evicted: map<CtxId, int>)

  predicate InitialRegistry(r: Registry) {
    r.tables == EMPTY && r.commits == [] && r.feed == [] && r.chains == map[] && r.evicted == map[]
  }

  predicate Ascending(feed: seq<Numbered>) {
    && (forall i :: 0 <= i < |feed| ==> feed[i].seqNo > 0)
    && (forall i, j :: 0 <= i < j < |feed| ==> feed[i].seqNo < feed[j].seqNo)
  }

  function LastSeq(feed: seq<Numbered>): nat {
    if feed == [] then 0 else feed[|feed| - 1].seqNo
  }

  // ------------------------------------------------------------------- steps

  predicate PublishStep(r: Registry, r': Registry, call: Publish, id: CtxId, lineage: LineageId, drawn: seq<Numbered>) {
    && Accepts(r.tables, r.log, call)
    && id !in r.tables.contexts
    && (call.supersedes.None? ==> lineage !in r.chains)
    && (call.supersedes.Some? ==> lineage == r.tables.contexts[call.supersedes.value].lineage)
    && Ascending(r.feed + drawn)
    && Numbers(drawn, PublishChanges(r.tables, call, id, lineage))
    && r' == r.(tables := PublishEffect(r.tables, r.log, call, id, lineage, drawn),
                commits := r.commits + [Commit(call, id, lineage)],
                feed := r.feed + drawn,
                chains := r.chains[lineage := (if lineage in r.chains then r.chains[lineage] else []) + [id]])
  }

  predicate LifecycleStep(r: Registry, r': Registry, e: Event, minting: bool, drawn: seq<Numbered>) {
    && e.ctx in r.tables.contexts
    && DecideLifecycle(EventsOf(r.tables, e.ctx), e) == Applied
    && Ascending(r.feed + drawn)
    && Numbers(drawn, LifecycleChanges(r.tables, e, minting))
    && r' == r.(tables := LifecycleEffect(r.tables, e, drawn), feed := r.feed + drawn)
  }

  /** Retention: `last` is a stored row, and every stored row up to it is older
      than the cutoff. */
  predicate PruneStep(r: Registry, r': Registry, last: nat, cutoff: int) {
    && last in r.tables.changes
    && (forall q :: q in r.tables.changes && q <= last ==> r.tables.changes[q].appendedAt < cutoff)
    && r' == r.(tables := PruneEffect(r.tables, last))
  }

  predicate EvictStep(r: Registry, r': Registry, k: IdemKey, clock: int) {
    && k in r.tables.idem
    && r.tables.idem[k].expiresAt <= clock
    && r' == r.(tables := EvictEffect(r.tables, k),
                evicted := r.evicted[r.tables.idem[k].response.ctx := clock])
  }

  datatype Action =
    | DoPublish(call: Publish, id: CtxId, lineage: LineageId, drawn: seq<Numbered>)
    | DoLifecycle(e: Event, minting: bool, drawn: seq<Numbered>)
    | DoPrune(last: nat, cutoff: int)
    | DoEvict(k: IdemKey, clock: int)
    | DoNothing

  predicate Step(r: Registry, r': Registry, a: Action) {
    match a
    case DoPublish(call, id, lineage, drawn) => PublishStep(r, r', call, id, lineage, drawn)
    case DoLifecycle(e, minting, drawn) => LifecycleStep(r, r', e, minting, drawn)
    case DoPrune(last, cutoff) => PruneStep(r, r', last, cutoff)
    case DoEvict(k, clock) => EvictStep(r, r', k, clock)
    case DoNothing => r' == r
  }

  /** `run` is a sequence of states, each reached from the one before. */
  ghost predicate Run(run: seq<Registry>) {
    |run| > 0 && forall i :: 0 < i < |run| ==> Linked(run[i - 1], run[i])
  }

  ghost predicate Linked(r: Registry, r': Registry) {
    exists a :: Step(r, r', a)
  }

  // -------------------------------------------------------------- invariants

  /** The transparency log holds one leaf per committed publish, at the position
      of that publish in commit order. */
  ghost predicate LogInv(log: bool, leaves: map<nat, CtxId>, commits: seq<Commit>) {
    && (!log ==> leaves == map[])
    && (log ==>
          && |leaves| == |commits|
          && (forall i :: i in leaves <==> 0 <= i < |commits|)
          && (forall i :: 0 <= i < |commits| ==> leaves[i] == commits[i].id))
  }

  /** The contexts are those of the committed publishes, one each. */
  ghost predicate CommitInv(contexts: map<CtxId, Context>, commits: seq<Commit>) {
    && (forall i :: 0 <= i < |commits| ==> Records(contexts, commits[i]))
    && (forall i, j :: 0 <= i < j < |commits| ==> commits[i].id != commits[j].id)
    && (forall c :: c in contexts ==> exists i :: 0 <= i < |commits| && commits[i].id == c)
  }

  predicate Records(contexts: map<CtxId, Context>, c: Commit) {
    && c.id in contexts
    && contexts[c.id] == NewContext(c.call, c.lineage).(status := contexts[c.id].status, retracted := contexts[c.id].retracted)
  }

  /** `c` is the next version after `p`, published by `p`'s producer or one of its contributors. */
  predicate Follows(pid: CtxId, p: Context, c: Context) {
    && c.supersedes == Some(pid)
    && c.version == p.version + 1
    && (c.agent == p.agent || c.agent in p.contributors)
  }

  predicate ChainOk(contexts: map<CtxId, Context>, l: LineageId, chain: seq<CtxId>) {
    && |chain| > 0
    && (forall i :: 0 <= i < |chain| ==> chain[i] in contexts && contexts[chain[i]].lineage == l)
    && (forall i :: 0 <= i < |chain| ==> contexts[chain[i]].status == if i == |chain| - 1 then Active else Superseded)
    && contexts[chain[0]].supersedes.None?
    && (forall i :: 0 < i < |chain| ==> Follows(chain[i - 1], contexts[chain[i - 1]], contexts[chain[i]]))
    && (forall i, j :: 0 <= i < j < |chain| ==> chain[i] != chain[j])
  }

  ghost predicate LineageInv(contexts: map<CtxId, Context>, chains: map<LineageId, seq<CtxId>>) {
    && (forall l :: l in chains ==> ChainOk(contexts, l, chains[l]))
    && (forall c :: c in contexts ==> contexts[c].lineage in chains && c in chains[contexts[c].lineage])
  }

  /** A successor published under a tenant lives in its predecessor's. */
  ghost predicate TenantInv(contexts: map<CtxId, Context>, commits: seq<Commit>) {
    forall i :: 0 <= i < |commits| ==> SameTenant(contexts, commits[i].call)
  }

  predicate SameTenant(contexts: map<CtxId, Context>, call: Publish) {
    call.supersedes.Some? && call.tenant.Some? ==>
      call.supersedes.value in contexts && contexts[call.supersedes.value].tenant == call.tenant.value
  }

  /** The feed row a receipted supersession leaves behind. */
  predicate Announces(n: Numbered, c: Commit) {
    && c.call.minted
    && n.row.change.kind == SupersededChange
    && c.call.supersedes == Some(n.row.change.ctx)
    && n.row.change.supersededBy == Some(c.id)
    && n.row.change.lineage == c.lineage
  }

  ghost predicate HasRow(feed: seq<Numbered>, c: Commit) {
    exists n :: n in feed && Announces(n, c)
  }

  ghost predicate HasCommit(commits: seq<Commit>, n: Numbered) {
    exists c :: c in commits && Announces(n, c)
  }

  /** Receipted supersessions and `superseded` rows of the feed correspond. */
  ghost predicate AnnouncedInv(commits: seq<Commit>, feed: seq<Numbered>) {
    && (forall i :: 0 <= i < |commits| && commits[i].call.minted && commits[i].call.supersedes.Some? ==>
          HasRow(feed, commits[i]))
    && (forall i :: 0 <= i < |feed| && feed[i].row.change.kind == SupersededChange ==> HasCommit(commits, feed[i]))
  }

  /** A context's events alternate, starting with a retraction, under distinct
      ids, and the flag on its row says where they leave it. */
  predicate HistoryOk(c: CtxId, events: seq<Event>, retracted: bool) {
    && (forall i :: 0 <= i < |events| ==> events[i].ctx == c)
    && (forall i :: 0 <= i < |events| ==> events[i].kind == if i % 2 == 0 then Retracted else Republished)
    && (forall i, j :: 0 <= i < j < |events| ==> events[i].id != events[j].id)
    && retracted == RetractionState(events)
  }

  ghost predicate EventInv(contexts: map<CtxId, Context>, events: map<CtxId, seq<Event>>) {
    && (forall c :: c in contexts ==> HistoryOk(c, if c in events then events[c] else [], contexts[c].retracted))
    && (forall c :: c in events ==> c in contexts)
  }

  /** The stored rows are exactly the committed ones above the prune marker. */
  ghost predicate FeedInv(changes: map<nat, FeedRow>, pruned: nat, feed: seq<Numbered>) {
    && Ascending(feed)
    && pruned <= LastSeq(feed)
    && (forall n :: n in feed && n.seqNo > pruned ==> n.seqNo in changes && changes[n.seqNo] == n.row)
    && (forall q :: q in changes ==> q > pruned && Numbered(q, changes[q]) in feed)
  }

  /** The record a keyed publish leaves behind. */
  function RecordOf(c: Commit): IdemRow {
    IdemRow(c.call.hash, ResponseFor(c.call, c.id, c.lineage), c.call.now + c.call.ttl)
  }

  predicate Keyed(c: Commit, k: IdemKey) {
    c.call.key.Some? && c.call.Slot() == k
  }

  /** Commit `i` carried a key, and no commit in `i+1..j` used it. */
  predicate Unused(commits: seq<Commit>, i: int, j: int)
    requires 0 <= i < j <= |commits|
  {
    commits[i].call.key.Some? && forall m :: i < m < j ==> !Keyed(commits[m], commits[i].call.Slot())
  }

  /** An eviction pass whose clock had reached the record's expiry removed it. */
  predicate WasEvicted(evicted: map<CtxId, int>, c: Commit) {
    c.id in evicted && evicted[c.id] >= RecordOf(c).expiresAt
  }

  /** Commit `i` is the last under key `k`, and `row` is the record it left. */
  predicate RecordIs(row: IdemRow, commits: seq<Commit>, k: IdemKey, i: int) {
    0 <= i < |commits| && Keyed(commits[i], k) && Unused(commits, i, |commits|) && row == RecordOf(commits[i])
  }

  /** Every record is that of the last commit under its key. */
  ghost predicate OnRecord(idem: map<IdemKey, IdemRow>, commits: seq<Commit>) {
    forall k :: k in idem ==> exists i :: RecordIs(idem[k], commits, k, i)
  }

  /** The last use of every key is on record, unless evicted. */
  ghost predicate LastOnRecord(idem: map<IdemKey, IdemRow>, commits: seq<Commit>, evicted: map<CtxId, int>) {
    forall i :: 0 <= i < |commits| && Unused(commits, i, |commits|) && !WasEvicted(evicted, commits[i]) ==>
      commits[i].call.Slot() in idem && idem[commits[i].call.Slot()] == RecordOf(commits[i])
  }

  /** Each use of a key came at or after the expiry of the use before it, unless
      that one was evicted. */
  ghost predicate Spaced(commits: seq<Commit>, evicted: map<CtxId, int>) {
    forall i, j :: 0 <= i < j < |commits| && Unused(commits, i, j) && Keyed(commits[j], commits[i].call.Slot()) ==>
      commits[j].call.now >= RecordOf(commits[i]).expiresAt || WasEvicted(evicted, commits[i])
  }

  ghost predicate IdemInv(idem: map<IdemKey, IdemRow>, commits: seq<Commit>, evicted: map<CtxId, int>) {
    OnRecord(idem, commits) && LastOnRecord(idem, commits, evicted) && Spaced(commits, evicted)
  }

  ghost predicate Inv(r: Registry) {
    && LogInv(r.log, r.tables.leaves, r.commits)
    && CommitInv(r.tables.contexts, r.commits)
    && LineageInv(r.tables.contexts, r.chains)
    && EventInv(r.tables.contexts, r.tables.events)
    && FeedInv(r.tables.changes, r.tables.prunedThrough, r.feed)
    && IdemInv(r.tables.idem, r.commits, r.evicted)
    && TenantInv(r.tables.contexts, r.commits)
    && AnnouncedInv(r.commits, r.feed)
  }
}
