/** Every step of the registry keeps its invariants. */
module SerialProofs {
  import opened Tables
  import opened SerialRegistry

  // -------------------------------------------------------------------- feed

  lemma {:induction false} InsertKeys(changes: map<nat, FeedRow>, drawn: seq<Numbered>)
    requires forall i, j :: 0 <= i < j < |drawn| ==> drawn[i].seqNo < drawn[j].seqNo
    ensures forall n :: n in drawn ==> n.seqNo in Insert(changes, drawn) && Insert(changes, drawn)[n.seqNo] == n.row
    ensures forall q :: q in changes && (forall n :: n in drawn ==> n.seqNo != q) ==>
              q in Insert(changes, drawn) && Insert(changes, drawn)[q] == changes[q]
    ensures forall q :: q in Insert(changes, drawn) ==>
              Numbered(q, Insert(changes, drawn)[q]) in drawn || (q in changes && Insert(changes, drawn)[q] == changes[q])
  {
    if drawn != [] {
      var k := |drawn| - 1;
      InsertKeys(changes, drawn[..k]);
      assert drawn == drawn[..k] + [drawn[k]];
    }
  }

  lemma AscendingParts(feed: seq<Numbered>, drawn: seq<Numbered>)
    requires Ascending(feed + drawn)
    ensures Ascending(feed) && Ascending(drawn)
    ensures forall n :: n in feed ==> n.seqNo <= LastSeq(feed)
    ensures forall n :: n in drawn ==> n.seqNo > LastSeq(feed)
    ensures LastSeq(feed) <= LastSeq(feed + drawn)
  {
    var all := feed + drawn;
    assert forall i :: 0 <= i < |feed| ==> feed[i] == all[i];
    assert forall i :: 0 <= i < |drawn| ==> drawn[i] == all[|feed| + i];
  }

  lemma FeedGrows(changes: map<nat, FeedRow>, pruned: nat, feed: seq<Numbered>, drawn: seq<Numbered>)
    requires FeedInv(changes, pruned, feed) && Ascending(feed + drawn)
    ensures FeedInv(Insert(changes, drawn), pruned, feed + drawn)
  {
    AscendingParts(feed, drawn);
    InsertKeys(changes, drawn);
    var changes' := Insert(changes, drawn);
    forall n | n in feed && n.seqNo > pruned
      ensures n.seqNo in changes' && changes'[n.seqNo] == n.row
    {
      assert forall m :: m in drawn ==> m.seqNo != n.seqNo;
    }
  }

  lemma PruneKeepsFeed(t: Tables, feed: seq<Numbered>, last: nat)
    requires FeedInv(t.changes, t.prunedThrough, feed) && last in t.changes
    ensures FeedInv(PruneEffect(t, last).changes, PruneEffect(t, last).prunedThrough, feed)
  {
    assert Numbered(last, t.changes[last]) in feed;
  }

  // ----------------------------------------------------------------- commits

  lemma StillRecords(contexts: map<CtxId, Context>, contexts': map<CtxId, Context>, c: Commit)
    requires Records(contexts, c) && c.id in contexts'
    requires contexts'[c.id].(status := contexts[c.id].status) == contexts[c.id]
    ensures Records(contexts', c)
  {
  }

  lemma CommitsGrow(contexts: map<CtxId, Context>, contexts': map<CtxId, Context>, commits: seq<Commit>, c: Commit)
    requires CommitInv(contexts, commits)
    requires c.id !in contexts && contexts'.Keys == contexts.Keys + {c.id} && Records(contexts', c)
    requires forall k :: k in contexts ==> contexts'[k].(status := contexts[k].status) == contexts[k]
    ensures CommitInv(contexts', commits + [c])
  {
    var all := commits + [c];
    forall i | 0 <= i < |all|
      ensures Records(contexts', all[i])
    {
      if i < |commits| { StillRecords(contexts, contexts', commits[i]); }
    }
    forall k | k in contexts'
      ensures exists i :: 0 <= i < |all| && all[i].id == k
    {
      if k == c.id { assert all[|commits|].id == k; } else { StillCommitted(commits, c, k); }
    }
  }

  lemma StillCommitted(commits: seq<Commit>, c: Commit, k: CtxId)
    requires exists i :: 0 <= i < |commits| && commits[i].id == k
    ensures exists i :: 0 <= i < |commits + [c]| && (commits + [c])[i].id == k
  {
    var i :| 0 <= i < |commits| && commits[i].id == k;
    assert (commits + [c])[i].id == k;
  }

  lemma TenantsGrow(contexts: map<CtxId, Context>, call: Publish, id: CtxId, lineage: LineageId, commits: seq<Commit>)
    requires TenantInv(contexts, commits) && id !in contexts
    requires call.supersedes.Some? ==>
               call.supersedes.value in contexts && CheckPredecessor(contexts[call.supersedes.value], call).None?
    ensures TenantInv(ContextsAfter(contexts, call, id, lineage), commits + [Commit(call, id, lineage)])
  {
    PublishWrites(contexts, call, id, lineage);
    var contexts', all := ContextsAfter(contexts, call, id, lineage), commits + [Commit(call, id, lineage)];
    forall i | 0 <= i < |all|
      ensures SameTenant(contexts', all[i].call)
    {
      if i < |commits| { assert SameTenant(contexts, commits[i].call); } else { assert SameTenant(contexts, call); }
    }
  }

  lemma HasRowGrows(feed: seq<Numbered>, drawn: seq<Numbered>, c: Commit)
    requires HasRow(feed, c) || HasRow(drawn, c)
    ensures HasRow(feed + drawn, c)
  {
    var n :| (n in feed || n in drawn) && Announces(n, c);
    assert n in feed + drawn;
  }

  lemma HasCommitGrows(commits: seq<Commit>, c: Commit, n: Numbered)
    requires HasCommit(commits, n) || Announces(n, c)
    ensures HasCommit(commits + [c], n)
  {
    var c' :| (c' in commits || c' == c) && Announces(n, c');
    assert c' in commits + [c];
  }

  /** The rows a publish draws are announced by it, and announce it. */
  lemma PublishDraws(t: Tables, c: Commit, drawn: seq<Numbered>)
    requires c.call.supersedes.Some? ==> c.call.supersedes.value in t.contexts
    requires Numbers(drawn, PublishChanges(t, c.call, c.id, c.lineage))
    ensures c.call.minted && c.call.supersedes.Some? ==> HasRow(drawn, c)
    ensures forall i :: 0 <= i < |drawn| && drawn[i].row.change.kind == SupersededChange ==> Announces(drawn[i], c)
  {
    var changes := PublishChanges(t, c.call, c.id, c.lineage);
    assert forall i :: 0 <= i < |drawn| ==> drawn[i].row.change == changes[i];
    if c.call.minted && c.call.supersedes.Some? { assert drawn[0] in drawn && Announces(drawn[0], c); }
  }

  lemma PublishAnnounces(t: Tables, commits: seq<Commit>, feed: seq<Numbered>, c: Commit, drawn: seq<Numbered>)
    requires AnnouncedInv(commits, feed)
    requires c.call.supersedes.Some? ==> c.call.supersedes.value in t.contexts
    requires Numbers(drawn, PublishChanges(t, c.call, c.id, c.lineage))
    ensures AnnouncedInv(commits + [c], feed + drawn)
  {
    PublishDraws(t, c, drawn);
    var all, rows := commits + [c], feed + drawn;
    forall i | 0 <= i < |all| && all[i].call.minted && all[i].call.supersedes.Some?
      ensures HasRow(rows, all[i])
    {
      assert i < |commits| ==> all[i] == commits[i];
      HasRowGrows(feed, drawn, all[i]);
    }
    forall i | 0 <= i < |rows| && rows[i].row.change.kind == SupersededChange
      ensures HasCommit(all, rows[i])
    {
      assert if i < |feed| then rows[i] == feed[i] else rows[i] == drawn[i - |feed|];
      HasCommitGrows(commits, c, rows[i]);
    }
  }

  lemma LifecycleAnnounces(commits: seq<Commit>, feed: seq<Numbered>, drawn: seq<Numbered>)
    requires AnnouncedInv(commits, feed)
    requires forall i :: 0 <= i < |drawn| ==> drawn[i].row.change.kind == LifecycleChange
    ensures AnnouncedInv(commits, feed + drawn)
  {
    forall i | 0 <= i < |commits| && commits[i].call.minted && commits[i].call.supersedes.Some?
      ensures HasRow(feed + drawn, commits[i])
    {
      HasRowGrows(feed, drawn, commits[i]);
    }
  }

  // ---------------------------------------------------------------- lineages

  lemma LineageStarts(contexts: map<CtxId, Context>, chains: map<LineageId, seq<CtxId>>, id: CtxId, c: Context)
    requires LineageInv(contexts, chains)
    requires id !in contexts && c.lineage !in chains && c.supersedes.None? && c.status == Active
    ensures LineageInv(contexts[id := c], chains[c.lineage := [id]])
  {
    var contexts', chains' := contexts[id := c], chains[c.lineage := [id]];
    forall l | l in chains'
      ensures ChainOk(contexts', l, chains'[l])
    {
      if l != c.lineage { assert ChainOk(contexts, l, chains[l]); }
    }
  }

  /** The one unsuperseded context of a chain is its last. */
  lemma TipIsActive(contexts: map<CtxId, Context>, l: LineageId, chain: seq<CtxId>, p: CtxId)
    requires ChainOk(contexts, l, chain) && p in chain && contexts[p].status == Active
    ensures p == chain[|chain| - 1]
  {
  }

  function Superseding(contexts: map<CtxId, Context>, p: CtxId, id: CtxId, c: Context): map<CtxId, Context>
    requires p in contexts
  {
    contexts[id := c][p := contexts[p].(status := Superseded)]
  }

  lemma ChainExtends(contexts: map<CtxId, Context>, chain: seq<CtxId>, p: CtxId, id: CtxId, c: Context)
    requires ChainOk(contexts, c.lineage, chain) && p == chain[|chain| - 1]
    requires id !in contexts && Follows(p, contexts[p], c) && c.status == Active
    ensures ChainOk(Superseding(contexts, p, id, c), c.lineage, chain + [id])
  {
    var contexts', chain' := Superseding(contexts, p, id, c), chain + [id];
    forall i | 0 < i < |chain'|
      ensures Follows(chain'[i - 1], contexts'[chain'[i - 1]], contexts'[chain'[i]])
    {
      if i < |chain| { assert Follows(chain[i - 1], contexts[chain[i - 1]], contexts[chain[i]]); }
    }
  }

  /** A chain none of whose statuses changed is still a chain. */
  lemma ChainFrame(contexts: map<CtxId, Context>, contexts': map<CtxId, Context>, l: LineageId, chain: seq<CtxId>)
    requires ChainOk(contexts, l, chain)
    requires forall k :: k in chain ==> k in contexts' && contexts'[k] == contexts[k].(retracted := contexts'[k].retracted)
    ensures ChainOk(contexts', l, chain)
  {
    forall i | 0 <= i < |chain|
      ensures chain[i] in contexts' && contexts'[chain[i]] == contexts[chain[i]].(retracted := contexts'[chain[i]].retracted)
    {
    }
    forall i | 0 < i < |chain|
      ensures Follows(chain[i - 1], contexts'[chain[i - 1]], contexts'[chain[i]])
    {
      assert Follows(chain[i - 1], contexts[chain[i - 1]], contexts[chain[i]]);
    }
  }

  /** The other lineages do not see a supersession. */
  lemma OtherChainsKept(contexts: map<CtxId, Context>, chains: map<LineageId, seq<CtxId>>, p: CtxId, id: CtxId, c: Context, l: LineageId)
    requires LineageInv(contexts, chains) && p in contexts && contexts[p].lineage == c.lineage && id !in contexts
    requires l in chains && l != c.lineage
    ensures ChainOk(Superseding(contexts, p, id, c), l, chains[l])
  {
    assert ChainOk(contexts, l, chains[l]);
    ChainFrame(contexts, Superseding(contexts, p, id, c), l, chains[l]);
  }

  lemma LineageExtends(contexts: map<CtxId, Context>, chains: map<LineageId, seq<CtxId>>, p: CtxId, id: CtxId, c: Context)
    requires LineageInv(contexts, chains)
    requires p in contexts && contexts[p].lineage == c.lineage && contexts[p].status == Active
    requires id !in contexts && Follows(p, contexts[p], c) && c.status == Active
    ensures LineageInv(Superseding(contexts, p, id, c), chains[c.lineage := chains[c.lineage] + [id]])
  {
    var contexts', chain' := Superseding(contexts, p, id, c), chains[c.lineage] + [id];
    var chains' := chains[c.lineage := chain'];
    TipIsActive(contexts, c.lineage, chains[c.lineage], p);
    ChainExtends(contexts, chains[c.lineage], p, id, c);
    forall l | l in chains
      ensures ChainOk(contexts', l, chains'[l])
    {
      if l != c.lineage { OtherChainsKept(contexts, chains, p, id, c, l); }
    }
    forall k | k in contexts'
      ensures contexts'[k].lineage in chains' && k in chains'[contexts'[k].lineage]
    {
      OnSomeChain(contexts, chains, p, id, c, k);
    }
  }

  lemma OnSomeChain(contexts: map<CtxId, Context>, chains: map<LineageId, seq<CtxId>>, p: CtxId, id: CtxId, c: Context, k: CtxId)
    requires LineageInv(contexts, chains) && p in contexts && contexts[p].lineage == c.lineage && id !in contexts
    requires k in Superseding(contexts, p, id, c)
    ensures var contexts', chains' := Superseding(contexts, p, id, c), chains[c.lineage := chains[c.lineage] + [id]];
            contexts'[k].lineage in chains' && k in chains'[contexts'[k].lineage]
  {
    var chain' := chains[c.lineage] + [id];
    assert chain'[|chain'| - 1] == id;
    if k != id { assert k in chains[contexts[k].lineage]; }
  }

  lemma RetractionKeepsLineages(contexts: map<CtxId, Context>, chains: map<LineageId, seq<CtxId>>, k: CtxId, flag: bool)
    requires LineageInv(contexts, chains) && k in contexts
    ensures LineageInv(contexts[k := contexts[k].(retracted := flag)], chains)
  {
    var contexts' := contexts[k := contexts[k].(retracted := flag)];
    forall l | l in chains
      ensures ChainOk(contexts', l, chains[l])
    {
      ChainFrame(contexts, contexts', l, chains[l]);
    }
  }

  // ------------------------------------------------------------------ events

  lemma HistoryGrows(c: CtxId, history: seq<Event>, flag: bool, e: Event)
    requires HistoryOk(c, history, flag) && e.ctx == c && DecideLifecycle(history, e) == Applied
    ensures HistoryOk(c, history + [e], e.kind == Retracted)
  {
    var n := |history|;
    assert n > 0 ==> history[n - 1].kind == if (n - 1) % 2 == 0 then Retracted else Republished;
    assert FindEvent(history, e.id).None?;
    var all := history + [e];
    forall i | 0 <= i < |all|
      ensures all[i].kind == if i % 2 == 0 then Retracted else Republished
    {
      if i < n { assert all[i] == history[i]; }
    }
  }

  // ------------------------------------------------------------- idempotency

  /** Appending a commit changes nothing about the uses before it. */
  lemma UsesGrow(commits: seq<Commit>, c: Commit)
    ensures forall i, j :: 0 <= i < j <= |commits| ==> (Unused(commits + [c], i, j) <==> Unused(commits, i, j))
    ensures forall i :: 0 <= i < |commits| ==>
              (Unused(commits + [c], i, |commits| + 1) <==>
               Unused(commits, i, |commits|) && !Keyed(c, commits[i].call.Slot()))
  {
    var all := commits + [c];
    forall i, j | 0 <= i < j <= |commits|
      ensures Unused(all, i, j) <==> Unused(commits, i, j)
    {
      assert forall m :: i <= m < j ==> all[m] == commits[m];
    }
    forall i | 0 <= i < |commits|
      ensures Unused(all, i, |commits| + 1) <==> Unused(commits, i, |commits|) && !Keyed(c, commits[i].call.Slot())
    {
      assert forall m :: i <= m < |commits| ==> all[m] == commits[m];
      assert all[|commits|] == c;
    }
  }

  lemma RecordsGrow(idem: map<IdemKey, IdemRow>, idem': map<IdemKey, IdemRow>, commits: seq<Commit>, c: Commit)
    requires OnRecord(idem, commits)
    requires forall k :: k in idem' ==> if Keyed(c, k) then idem'[k] == RecordOf(c) else k in idem && idem'[k] == idem[k]
    ensures OnRecord(idem', commits + [c])
  {
    var all := commits + [c];
    UsesGrow(commits, c);
    forall k | k in idem'
      ensures exists i :: RecordIs(idem'[k], all, k, i)
    {
      if Keyed(c, k) {
        assert all[|commits|] == c;
        assert RecordIs(idem'[k], all, k, |commits|);
      } else {
        var i :| RecordIs(idem[k], commits, k, i);
        assert all[i] == commits[i];
        assert RecordIs(idem'[k], all, k, i);
      }
    }
  }

  lemma LastUsesGrow(idem: map<IdemKey, IdemRow>, commits: seq<Commit>, evicted: map<CtxId, int>, c: Commit)
    requires LastOnRecord(idem, commits, evicted)
    ensures LastOnRecord(if c.call.key.Some? then idem[c.call.Slot() := RecordOf(c)] else idem, commits + [c], evicted)
  {
    var all, n := commits + [c], |commits|;
    UsesGrow(commits, c);
    assert all[n] == c;
    assert forall i :: 0 <= i < n ==> all[i] == commits[i];
  }

  lemma SpacingGrows(idem: map<IdemKey, IdemRow>, commits: seq<Commit>, evicted: map<CtxId, int>, c: Commit)
    requires LastOnRecord(idem, commits, evicted) && Spaced(commits, evicted)
    requires c.call.key.Some? && c.call.Slot() in idem ==> idem[c.call.Slot()].expiresAt <= c.call.now
    ensures Spaced(commits + [c], evicted)
  {
    var all, n := commits + [c], |commits|;
    UsesGrow(commits, c);
    forall i, j | 0 <= i < j < |all| && Unused(all, i, j) && Keyed(all[j], all[i].call.Slot())
      ensures all[j].call.now >= RecordOf(all[i]).expiresAt || WasEvicted(evicted, all[i])
    {
      assert all[i] == commits[i] && Unused(commits, i, j);
      if j < n { assert all[j] == commits[j]; } else { assert all[j] == c; }
    }
  }

  lemma EvictKeepsIdem(idem: map<IdemKey, IdemRow>, commits: seq<Commit>, evicted: map<CtxId, int>, k: IdemKey, clock: int)
    requires forall i, j :: 0 <= i < j < |commits| ==> commits[i].id != commits[j].id
    requires IdemInv(idem, commits, evicted) && k in idem && idem[k].expiresAt <= clock
    ensures IdemInv(idem - {k}, commits, evicted[idem[k].response.ctx := clock])
  {
    var evicted' := evicted[idem[k].response.ctx := clock];
    var e :| RecordIs(idem[k], commits, k, e);
    forall i | 0 <= i < |commits|
      ensures WasEvicted(evicted, commits[i]) || i == e ==> WasEvicted(evicted', commits[i])
    {
      if i != e { assert commits[i].id != commits[e].id; }
    }
    assert forall k' :: k' in idem - {k} ==> k' in idem;
    assert LastOnRecord(idem - {k}, commits, evicted');
  }

  // ------------------------------------------------------------------- steps

  lemma PublishKeepsLineages(r: Registry, r': Registry, call: Publish, id: CtxId, lineage: LineageId, drawn: seq<Numbered>)
    requires LineageInv(r.tables.contexts, r.chains) && PublishStep(r, r', call, id, lineage, drawn)
    ensures LineageInv(r'.tables.contexts, r'.chains)
  {
    var made := NewContext(call, lineage);
    if call.supersedes.Some? {
      var p := call.supersedes.value;
      LineageExtends(r.tables.contexts, r.chains, p, id, made);
      assert r'.tables.contexts == Superseding(r.tables.contexts, p, id, made);
    } else {
      LineageStarts(r.tables.contexts, r.chains, id, made);
      assert [] + [id] == [id];
    }
  }

  /** What a publish does to the contexts: one new row, and at most a status flipped. */
  lemma PublishWrites(contexts: map<CtxId, Context>, call: Publish, id: CtxId, lineage: LineageId)
    requires id !in contexts
    ensures var contexts' := ContextsAfter(contexts, call, id, lineage);
            && contexts'.Keys == contexts.Keys + {id}
            && Records(contexts', Commit(call, id, lineage)) && !contexts'[id].retracted
            && forall k :: k in contexts ==> contexts'[k].(status := contexts[k].status) == contexts[k]
  {
  }

  lemma EventsFrame(contexts: map<CtxId, Context>, contexts': map<CtxId, Context>, events: map<CtxId, seq<Event>>, id: CtxId)
    requires EventInv(contexts, events) && id !in contexts
    requires contexts'.Keys == contexts.Keys + {id} && !contexts'[id].retracted
    requires forall k :: k in contexts ==> contexts'[k].retracted == contexts[k].retracted
    ensures EventInv(contexts', events)
  {
  }

  lemma PublishKeepsIdem(r: Registry, r': Registry, call: Publish, id: CtxId, lineage: LineageId, drawn: seq<Numbered>)
    requires IdemInv(r.tables.idem, r.commits, r.evicted) && PublishStep(r, r', call, id, lineage, drawn)
    ensures IdemInv(r'.tables.idem, r'.commits, r'.evicted)
  {
    var c := Commit(call, id, lineage);
    RecordsGrow(r.tables.idem, r'.tables.idem, r.commits, c);
    LastUsesGrow(r.tables.idem, r.commits, r.evicted, c);
    SpacingGrows(r.tables.idem, r.commits, r.evicted, c);
  }

  lemma LogGrows(log: bool, leaves: map<nat, CtxId>, commits: seq<Commit>, c: Commit)
    requires LogInv(log, leaves, commits)
    ensures LogInv(log, if log then leaves[|leaves| := c.id] else leaves, commits + [c])
  {
  }

  lemma PublishKeepsContexts(r: Registry, r': Registry, call: Publish, id: CtxId, lineage: LineageId, drawn: seq<Numbered>)
    requires CommitInv(r.tables.contexts, r.commits) && EventInv(r.tables.contexts, r.tables.events)
    requires PublishStep(r, r', call, id, lineage, drawn)
    ensures CommitInv(r'.tables.contexts, r'.commits) && EventInv(r'.tables.contexts, r'.tables.events)
  {
    PublishWrites(r.tables.contexts, call, id, lineage);
    CommitsGrow(r.tables.contexts, r'.tables.contexts, r.commits, Commit(call, id, lineage));
    EventsFrame(r.tables.contexts, r'.tables.contexts, r.tables.events, id);
  }

  lemma PublishKeepsTags(r: Registry, r': Registry, call: Publish, id: CtxId, lineage: LineageId, drawn: seq<Numbered>)
    requires TenantInv(r.tables.contexts, r.commits) && AnnouncedInv(r.commits, r.feed)
    requires PublishStep(r, r', call, id, lineage, drawn)
    ensures TenantInv(r'.tables.contexts, r'.commits) && AnnouncedInv(r'.commits, r'.feed)
  {
    TenantsGrow(r.tables.contexts, call, id, lineage, r.commits);
    PublishAnnounces(r.tables, r.commits, r.feed, Commit(call, id, lineage), drawn);
  }

  lemma PublishKeepsInv(r: Registry, r': Registry, call: Publish, id: CtxId, lineage: LineageId, drawn: seq<Numbered>)
    requires Inv(r) && PublishStep(r, r', call, id, lineage, drawn)
    ensures Inv(r')
  {
    PublishKeepsContexts(r, r', call, id, lineage, drawn);
    PublishKeepsLineages(r, r', call, id, lineage, drawn);
    PublishKeepsIdem(r, r', call, id, lineage, drawn);
    PublishKeepsTags(r, r', call, id, lineage, drawn);
    LogGrows(r.log, r.tables.leaves, r.commits, Commit(call, id, lineage));
    FeedGrows(r.tables.changes, r.tables.prunedThrough, r.feed, drawn);
  }

  lemma LifecycleKeepsEvents(r: Registry, r': Registry, e: Event, minting: bool, drawn: seq<Numbered>)
    requires EventInv(r.tables.contexts, r.tables.events) && LifecycleStep(r, r', e, minting, drawn)
    ensures EventInv(r'.tables.contexts, r'.tables.events)
  {
    HistoryGrows(e.ctx, EventsOf(r.tables, e.ctx), r.tables.contexts[e.ctx].retracted, e);
  }

  lemma LifecycleKeepsCommits(r: Registry, r': Registry, e: Event, minting: bool, drawn: seq<Numbered>)
    requires CommitInv(r.tables.contexts, r.commits) && LifecycleStep(r, r', e, minting, drawn)
    requires TenantInv(r.tables.contexts, r.commits)
    ensures CommitInv(r'.tables.contexts, r'.commits) && TenantInv(r'.tables.contexts, r'.commits)
  {
    forall i | 0 <= i < |r.commits|
      ensures Records(r'.tables.contexts, r.commits[i]) && SameTenant(r'.tables.contexts, r.commits[i].call)
    {
      assert Records(r.tables.contexts, r.commits[i]) && SameTenant(r.tables.contexts, r.commits[i].call);
    }
  }

  lemma LifecycleKeepsRest(r: Registry, r': Registry, e: Event, minting: bool, drawn: seq<Numbered>)
    requires LineageInv(r.tables.contexts, r.chains) && AnnouncedInv(r.commits, r.feed)
    requires FeedInv(r.tables.changes, r.tables.prunedThrough, r.feed)
    requires LifecycleStep(r, r', e, minting, drawn)
    ensures LineageInv(r'.tables.contexts, r'.chains) && AnnouncedInv(r'.commits, r'.feed)
    ensures FeedInv(r'.tables.changes, r'.tables.prunedThrough, r'.feed)
  {
    LifecycleAnnounces(r.commits, r.feed, drawn);
    RetractionKeepsLineages(r.tables.contexts, r.chains, e.ctx, e.kind == Retracted);
    FeedGrows(r.tables.changes, r.tables.prunedThrough, r.feed, drawn);
  }

  lemma LifecycleKeepsInv(r: Registry, r': Registry, e: Event, minting: bool, drawn: seq<Numbered>)
    requires Inv(r) && LifecycleStep(r, r', e, minting, drawn)
    ensures Inv(r')
  {
    LifecycleKeepsEvents(r, r', e, minting, drawn);
    LifecycleKeepsCommits(r, r', e, minting, drawn);
    LifecycleKeepsRest(r, r', e, minting, drawn);
  }

  /** The invariant is inductive. */
  lemma StepKeepsInv(r: Registry, r': Registry, a: Action)
    requires Inv(r) && Step(r, r', a)
    ensures Inv(r')
  {
    match a
    case DoPublish(call, id, lineage, drawn) => PublishKeepsInv(r, r', call, id, lineage, drawn);
    case DoLifecycle(e, minting, drawn) => LifecycleKeepsInv(r, r', e, minting, drawn);
    case DoPrune(last, cutoff) => PruneKeepsFeed(r.tables, r.feed, last);
    case DoEvict(k, clock) => EvictKeepsIdem(r.tables.idem, r.commits, r.evicted, k, clock);
    case DoNothing =>
  }

  lemma {:induction false} RunKeepsInv(run: seq<Registry>, i: nat)
    requires Run(run) && InitialRegistry(run[0]) && i < |run|
    ensures Inv(run[i])
  {
    if i > 0 {
      RunKeepsInv(run, i - 1);
      assert Linked(run[i - 1], run[i]);
      var a :| Step(run[i - 1], run[i], a);
      StepKeepsInv(run[i - 1], run[i], a);
    }
  }
}
