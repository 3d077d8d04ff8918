/** The change feed of the memory backend: rows in a vector, positions never reused. */
module MemoryFeed {
  import opened Arith
  import opened Tables
  import opened SerialRegistry
  import opened FeedPaging

  type Fingerprint = string

  const FEED_ORIGIN_FP: Fingerprint := ""

  datatype FeedHead = FeedHead(head: nat, headFp: Option<Fingerprint>, prunedThrough: nat, prunedFp: Option<Fingerprint>)

  /** The markers as a backend reads them in one snapshot. */
  function FromSnapshot(top: Option<(nat, Fingerprint)>, pruned: nat, prunedFp: Option<Fingerprint>): FeedHead {
    if top.Some? && top.value.0 > pruned then FeedHead(top.value.0, Some(top.value.1), pruned, prunedFp)
    else if pruned == 0 then FeedHead(0, Some(FEED_ORIGIN_FP), pruned, prunedFp)
    else FeedHead(pruned, prunedFp, pruned, prunedFp)
  }

  /** Positions count up from one. */
  predicate Counted(history: seq<Numbered>) {
    forall i :: 0 <= i < |history| ==> history[i].seqNo == i + 1
  }

  lemma CountedIsAscending(history: seq<Numbered>)
    requires Counted(history)
    ensures Ascending(history) && LastSeq(history) == |history|
  {
  }

  /** The rows past position `k` of a counted feed are its tail. */
  lemma {:induction false} TailIsWindow(history: seq<Numbered>, k: nat)
    requires Counted(history) && k <= |history|
    ensures Window(history, k, |history|, Every) == history[k..]
  {
    TailBelow(history, k, |history|);
  }

  lemma {:induction false} TailBelow(history: seq<Numbered>, k: nat, b: nat)
    requires Counted(history) && k <= b && |history| <= b
    ensures Window(history, k, b, Every) == if k <= |history| then history[k..] else []
  {
    if history != [] {
      var n := |history| - 1;
      TailBelow(history[..n], k, b);
      if k <= n { assert history[..n][k..] + [history[n]] == history[k..]; }
    }
  }

  lemma StoredIsTail(history: seq<Numbered>, pruned: nat)
    requires Counted(history) && pruned <= |history|
    ensures Stored(Snapshot(history, pruned)) == history[pruned..]
    ensures ValidSnapshot(Snapshot(history, pruned))
  {
    CountedIsAscending(history);
    TailIsWindow(history, pruned);
  }

  class Feed {
    var rows: seq<Numbered>
    var lastSeq: nat
    var prunedThrough: nat
    var prunedFp: Option<Fingerprint>
    const fingerprint: Numbered -> Fingerprint
    ghost var history: seq<Numbered>  // every row ever pushed

    ghost predicate Valid()
      reads this
    {
      && Counted(history) && lastSeq == |history|
      && prunedThrough <= lastSeq && rows == history[prunedThrough..]
      && prunedFp == if prunedThrough == 0 then None else Some(fingerprint(history[prunedThrough - 1]))
    }

    ghost function View(): Snapshot
      reads this
    {
      Snapshot(history, prunedThrough)
    }

    constructor (fp: Numbered -> Fingerprint)
      ensures Valid() && View() == Snapshot([], 0) && fingerprint == fp
    {
      rows, lastSeq, prunedThrough, prunedFp, history := [], 0, 0, None, [];
      fingerprint := fp;
    }

    /** Append every change of one commit, under consecutive positions. */
    method Push(appends: seq<Change>, nowMs: int)
      requires Valid()
      modifies this
      ensures Valid() && prunedThrough == old(prunedThrough)
      ensures |history| == |old(history)| + |appends| && old(history) <= history
      ensures forall i :: 0 <= i < |appends| ==>
                history[|old(history)| + i] == Numbered(old(lastSeq) + i + 1, FeedRow(appends[i], nowMs))
    {
      var i := 0;
      while i < |appends|
        invariant 0 <= i <= |appends|
        invariant Valid() && prunedThrough == old(prunedThrough)
        invariant |history| == |old(history)| + i && old(history) <= history
        invariant forall k :: 0 <= k < i ==>
                    history[|old(history)| + k] == Numbered(old(lastSeq) + k + 1, FeedRow(appends[k], nowMs))
      {
        lastSeq := lastSeq + 1;
        var n := Numbered(lastSeq, FeedRow(appends[i], nowMs));
        rows := rows + [n];
        history := history + [n];
        i := i + 1;
      }
    }

    /** The head is the last position ever assigned, with the fingerprint of its row,
        pruned or not. */
    method Head() returns (h: FeedHead)
      requires Valid()
      ensures h.head == HeadOf(View()) == lastSeq && h.prunedThrough == prunedThrough
      ensures h.headFp == Some(if history == [] then FEED_ORIGIN_FP else fingerprint(history[|history| - 1]))
    {
      CountedIsAscending(history);
      var top := if rows == [] then None else Some((rows[|rows| - 1].seqNo, fingerprint(rows[|rows| - 1])));
      assert rows != [] ==> rows[|rows| - 1] == history[|history| - 1];
      h := FromSnapshot(top, prunedThrough, prunedFp);
    }

    /** Binary search: where the rows past `after` begin. */
    method PartitionPoint(after: nat) returns (k: nat)
      requires Valid()
      ensures k <= |rows|
      ensures forall i :: 0 <= i < k ==> rows[i].seqNo <= after
      ensures forall i :: k <= i < |rows| ==> rows[i].seqNo > after
    {
      var lo, hi := 0, |rows|;
      while lo < hi
        invariant 0 <= lo <= hi <= |rows|
        invariant forall i :: 0 <= i < lo ==> rows[i].seqNo <= after
        invariant forall i :: hi <= i < |rows| ==> rows[i].seqNo > after
      {
        var mid := (lo + hi) / 2;
        assert forall i :: 0 <= i < |rows| ==> rows[i] == history[prunedThrough + i];
        if rows[mid].seqNo <= after { lo := mid + 1; } else { hi := mid; }
      }
      k := lo;
    }

    /** `changes_page`: from the partition point, the first matching rows up to the limit. */
    method PageAfter(after: nat, scanLimit: nat, filter: Numbered -> bool) returns (p: Page)
      requires Valid()
      ensures p == ReadPage(View(), after, scanLimit, filter)
    {
      StoredIsTail(history, prunedThrough);
      var k := PartitionPoint(after);
      var out := ScanFrom(rows, k, after, Limit(scanLimit), filter) by {
        assert forall i :: 0 <= i < |rows| ==> rows[i] == history[prunedThrough + i];
      }
      var h := Head();
      var short := |out| < Limit(scanLimit);
      p := Page(out, if short then Max(h.head, after) else out[|out| - 1].seqNo, short);
    }

    /** `prune_changes`: drop the longest front run, within the batch, of rows older than the cutoff. */
    method Prune(olderThanMs: int, batch: nat) returns (n: nat)
      requires Valid()
      modifies this
      ensures Valid() && history == old(history) && lastSeq == old(lastSeq)
      ensures n <= |old(rows)| && n <= Limit(batch) && rows == old(rows)[n..]
      ensures prunedThrough == old(prunedThrough) + n
      ensures forall i :: 0 <= i < n ==> old(rows)[i].row.appendedAt < olderThanMs
      ensures n < |old(rows)| && n < Limit(batch) ==> old(rows)[n].row.appendedAt >= olderThanMs
      ensures Later(old(View()), View())
    {
      n := 0;
      while n < |rows| && n < Limit(batch) && rows[n].row.appendedAt < olderThanMs
        invariant 0 <= n <= |rows| && n <= Limit(batch)
        invariant forall i :: 0 <= i < n ==> rows[i].row.appendedAt < olderThanMs
      {
        n := n + 1;
      }
      if n > 0 {
        assert rows[n - 1] == history[prunedThrough + n - 1];
        if rows[n - 1].seqNo >= prunedThrough {
          prunedThrough, prunedFp := rows[n - 1].seqNo, Some(fingerprint(rows[n - 1]));
        }
      }
      rows := rows[n..];
    }
  }

  /** The first `limit` matching rows from index `k` on. */
  method ScanFrom(rows: seq<Numbered>, k: nat, after: nat, limit: nat, filter: Numbered -> bool) returns (out: seq<Numbered>)
    requires k <= |rows| && limit > 0
    requires forall i :: 0 <= i < k ==> rows[i].seqNo <= after
    requires forall i :: k <= i < |rows| ==> rows[i].seqNo > after
    requires forall i :: 0 <= i < |rows| ==> rows[i].seqNo <= LastSeq(rows)
    ensures var all := Window(rows, after, LastSeq(rows), filter); out == if |all| <= limit then all else all[..limit]
  {
    var top := LastSeq(rows);
    out := [];
    WindowEmpty(rows[..k], after, top, filter);
    var i := k;
    while i < |rows| && |out| < limit
      invariant k <= i <= |rows| && |out| <= limit
      invariant out == Window(rows[..i], after, top, filter)
    {
      WindowStep(rows, i, after, top, filter);
      if filter(rows[i]) { out := out + [rows[i]]; }
      i := i + 1;
    }
    WindowSplits(rows[..i], rows[i..], after, top, filter);
    assert rows[..i] + rows[i..] == rows;
    if i == |rows| { WindowEmpty(rows[i..], after, top, filter); }
  }

  lemma WindowStep(rows: seq<Numbered>, i: nat, after: nat, top: nat, filter: Numbered -> bool)
    requires i < |rows| && after < rows[i].seqNo <= top
    ensures Window(rows[..i + 1], after, top, filter)
         == Window(rows[..i], after, top, filter) + if filter(rows[i]) then [rows[i]] else []
  {
    assert rows[..i + 1][..i] == rows[..i];
  }
}
