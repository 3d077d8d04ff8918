/** The Postgres feed read in pages, across any execution of the registry. */
module PostgresFeed {
  import opened Tables
  import opened SerialRegistry
  import opened SerialProofs
  import opened Transactions
  import opened Executions
  import opened RegistryTheorems
  import opened FeedPaging

  function SnapshotOf(s: System): Snapshot {
    Snapshot(s.reg.feed, s.reg.tables.prunedThrough)
  }

  lemma SnapshotsInOrder(run: seq<System>, i: nat, j: nat)
    requires Execution(run) && i <= j < |run|
    ensures ValidSnapshot(SnapshotOf(run[i])) && Later(SnapshotOf(run[i]), SnapshotOf(run[j]))
  {
    ReachedFeed(run, i);
    ExecutionExtends(run, i, j);
  }

  /** The rows of the table, by position, are the stored rows of the snapshot. */
  lemma TableIsStored(run: seq<System>, i: nat, n: Numbered)
    requires Execution(run) && i < |run|
    ensures n in Stored(SnapshotOf(run[i])) <==>
            n.seqNo in run[i].reg.tables.changes && run[i].reg.tables.changes[n.seqNo] == n.row
    ensures Ascending(Stored(SnapshotOf(run[i])))
  {
    ReachedFeed(run, i);
    var feed, pruned := run[i].reg.feed, run[i].reg.tables.prunedThrough;
    WindowMembers(feed, pruned, LastSeq(feed), Every);
    WindowAscends(feed, pruned, LastSeq(feed), Every);
    assert feed + [] == feed;
    AscendingParts(feed, []);
    if n.seqNo in run[i].reg.tables.changes {
      assert Numbered(n.seqNo, run[i].reg.tables.changes[n.seqNo]) in feed;
    }
  }

  /** The snapshots a consumer's pages come from. */
  function SnapshotsAt(run: seq<System>, times: seq<nat>): seq<Snapshot>
    requires forall k :: 0 <= k < |times| ==> times[k] < |run|
  {
    seq(|times|, k requires 0 <= k < |times| => SnapshotOf(run[times[k]]))
  }

  /** The page read last. */
  function LastPage(snaps: seq<Snapshot>, limits: seq<nat>, start: nat, filter: Numbered -> bool): Page
    requires |limits| == |snaps| > 0
  {
    var k := |snaps| - 1;
    ReadPage(snaps[k], PositionAfter(snaps[..k], limits[..k], start, filter), limits[k], filter)
  }

  /** Paging the Postgres feed at any moments of any execution collects every matching
      row up to the position reached, once and in order, unless the cursor expired; a
      page that comes back short has reached the head. */
  lemma PostgresPagingIsExact(run: seq<System>, times: seq<nat>, limits: seq<nat>, start: nat, filter: Numbered -> bool)
    requires Execution(run) && |limits| == |times| > 0
    requires forall k :: 0 <= k < |times| ==> times[k] < |run|
    requires forall k, m :: 0 <= k < m < |times| ==> times[k] <= times[m]
    requires start <= HeadOf(SnapshotOf(run[times[0]]))
    requires Unexpired(SnapshotsAt(run, times), limits, start, filter)
    ensures var snaps := SnapshotsAt(run, times);
            var pos := PositionAfter(snaps, limits, start, filter);
            && start <= pos <= HeadOf(SnapshotOf(run[times[|times| - 1]]))
            && Collected(snaps, limits, start, filter) == Window(run[times[|times| - 1]].reg.feed, start, pos, filter)
            && (LastPage(snaps, limits, start, filter).reachedHead ==> pos == HeadOf(SnapshotOf(run[times[|times| - 1]])))
  {
    var snaps := SnapshotsAt(run, times);
    forall k, m | 0 <= k <= m < |snaps|
      ensures ValidSnapshot(snaps[k]) && Later(snaps[k], snaps[m])
    {
      SnapshotsInOrder(run, times[k], times[m]);
    }
    PagingIsExact(snaps, limits, start, filter);
  }
}
