/** Pages of the change feed, read from snapshots while rows are appended and pruned. */
module FeedPaging {
  import opened Arith
  import opened Tables
  import opened SerialRegistry
  import opened SerialProofs

  /** What a reader sees in one snapshot, together with the rows pruned before it. */
  datatype Snapshot = Snapshot(feed: seq<Numbered>, pruned: nat)

  predicate ValidSnapshot(s: Snapshot) {
    Ascending(s.feed) && s.pruned <= LastSeq(s.feed)
  }

  /** A later snapshot: more rows at the end, perhaps more pruned at the front. */
  predicate Later(s: Snapshot, s': Snapshot) {
    s.feed <= s'.feed && s.pruned <= s'.pruned
  }

  function HeadOf(s: Snapshot): nat {
    LastSeq(s.feed)
  }

  /** The rows of `rows` in the half-open interval of positions `(a, b]` that match. */
  function Window(rows: seq<Numbered>, a: nat, b: nat, filter: Numbered -> bool): seq<Numbered> {
    if rows == [] then []
    else
      var last := rows[|rows| - 1];
      Window(rows[..|rows| - 1], a, b, filter) + if a < last.seqNo <= b && filter(last) then [last] else []
  }

  predicate Every(n: Numbered) {
    true
  }

  /** The rows still stored. */
  function Stored(s: Snapshot): seq<Numbered> {
    Window(s.feed, s.pruned, LastSeq(s.feed), Every)
  }

  // ------------------------------------------------------------------- windows

  lemma {:induction false} WindowSplits(xs: seq<Numbered>, ys: seq<Numbered>, a: nat, b: nat, filter: Numbered -> bool)
    ensures Window(xs + ys, a, b, filter) == Window(xs, a, b, filter) + Window(ys, a, b, filter)
  {
    if ys == [] {
      assert xs + ys == xs;
    } else {
      var n := |ys| - 1;
      WindowSplits(xs, ys[..n], a, b, filter);
      assert (xs + ys)[..|xs| + n] == xs + ys[..n];
    }
  }

  lemma {:induction false} WindowEmpty(rows: seq<Numbered>, a: nat, b: nat, filter: Numbered -> bool)
    requires forall n :: n in rows ==> !(a < n.seqNo <= b && filter(n))
    ensures Window(rows, a, b, filter) == []
  {
    if rows != [] {
      assert rows[|rows| - 1] in rows;
      WindowEmpty(rows[..|rows| - 1], a, b, filter);
    }
  }

  lemma {:induction false} WindowMembers(rows: seq<Numbered>, a: nat, b: nat, filter: Numbered -> bool)
    ensures forall n :: n in Window(rows, a, b, filter) <==> n in rows && a < n.seqNo <= b && filter(n)
  {
    if rows != [] {
      WindowMembers(rows[..|rows| - 1], a, b, filter);
      assert rows == rows[..|rows| - 1] + [rows[|rows| - 1]];
    }
  }

  lemma {:induction false} WindowAscends(rows: seq<Numbered>, a: nat, b: nat, filter: Numbered -> bool)
    requires Ascending(rows)
    ensures Ascending(Window(rows, a, b, filter))
  {
    if rows != [] {
      var init, last := rows[..|rows| - 1], rows[|rows| - 1];
      assert rows == init + [last];
      AscendingParts(init, [last]);
      WindowAscends(init, a, b, filter);
      WindowMembers(init, a, b, filter);
      var w := Window(init, a, b, filter);
      assert forall i :: 0 <= i < |w| ==> w[i] in w && w[i].seqNo < last.seqNo;
    }
  }

  /** Windows of a window: the narrower bounds and both filters count. */
  lemma {:induction false} WindowOfWindow(rows: seq<Numbered>, a: nat, b: nat, c: nat, d: nat, filter: Numbered -> bool)
    requires a <= c && d <= b
    ensures Window(Window(rows, a, b, Every), c, d, filter) == Window(rows, c, d, filter)
  {
    if rows != [] {
      var init, last := rows[..|rows| - 1], rows[|rows| - 1];
      WindowOfWindow(init, a, b, c, d, filter);
      var outer := Window(init, a, b, Every);
      if a < last.seqNo <= b {
        assert (outer + [last])[..|outer|] == outer;
        assert Window(rows, a, b, Every) == outer + [last];
      } else {
        assert outer + [] == outer;
      }
    }
  }

  /** Consecutive intervals join. */
  lemma {:induction false} WindowsJoin(rows: seq<Numbered>, a: nat, b: nat, c: nat, filter: Numbered -> bool)
    requires Ascending(rows) && a <= b <= c
    ensures Window(rows, a, b, filter) + Window(rows, b, c, filter) == Window(rows, a, c, filter)
  {
    if rows != [] {
      var init, last := rows[..|rows| - 1], rows[|rows| - 1];
      assert rows == init + [last];
      AscendingParts(init, [last]);
      WindowsJoin(init, a, b, c, filter);
      if last.seqNo <= b { WindowEmpty(init, b, c, filter); }
    }
  }

  /** A later snapshot shows the same rows up to the earlier head. */
  lemma WindowStable(s: Snapshot, s': Snapshot, a: nat, b: nat, filter: Numbered -> bool)
    requires ValidSnapshot(s') && Later(s, s') && b <= HeadOf(s)
    ensures Window(s'.feed, a, b, filter) == Window(s.feed, a, b, filter)
  {
    var more := s'.feed[|s.feed|..];
    assert s'.feed == s.feed + more;
    AscendingParts(s.feed, more);
    WindowEmpty(more, a, b, filter);
    WindowSplits(s.feed, more, a, b, filter);
  }

  // --------------------------------------------------------------------- pages

  datatype Page = Page(rows: seq<Numbered>, lastScanned: nat, reachedHead: bool)

  function Limit(scanLimit: nat): (n: nat)
    ensures n > 0
  {
    if scanLimit == 0 then 1 else scanLimit
  }

  /** One page: the first `limit` matching rows past `after`, and how far they reach. */
  function PageOf(stored: seq<Numbered>, head: nat, after: nat, scanLimit: nat, filter: Numbered -> bool): Page {
    var all := Window(stored, after, LastSeq(stored), filter);
    var rows := if |all| <= Limit(scanLimit) then all else all[..Limit(scanLimit)];
    var short := |rows| < Limit(scanLimit);
    Page(rows, if short then Max(head, after) else rows[|rows| - 1].seqNo, short)
  }

  function ReadPage(s: Snapshot, after: nat, scanLimit: nat, filter: Numbered -> bool): Page {
    PageOf(Stored(s), HeadOf(s), after, scanLimit, filter)
  }

  /** In an ascending sequence, what lies at or below the k-th row's position is the first k rows. */
  lemma CutPoint(low: seq<Numbered>, high: seq<Numbered>, k: nat)
    requires Ascending(low + high) && 0 < k <= |low + high|
    requires forall n :: n in low ==> n.seqNo <= (low + high)[k - 1].seqNo
    requires forall n :: n in high ==> n.seqNo > (low + high)[k - 1].seqNo
    ensures (low + high)[..k] == low
  {
    var w := low + high;
    assert forall i :: 0 <= i < |low| ==> w[i] == low[i] && low[i] in low;
    assert forall i :: |low| <= i < |w| ==> w[i] == high[i - |low|] && high[i - |low|] in high;
    assert k < |w| ==> w[k - 1].seqNo < w[k].seqNo;
    assert w[k - 1] !in high;
    assert |low| == k;
  }

  /** Cutting a window after its k-th row is a window to that row's position. */
  lemma WindowCut(rows: seq<Numbered>, a: nat, b: nat, filter: Numbered -> bool, k: nat)
    requires Ascending(rows) && 0 < k <= |Window(rows, a, b, filter)|
    ensures var w := Window(rows, a, b, filter); Window(rows, a, w[k - 1].seqNo, filter) == w[..k]
  {
    var w := Window(rows, a, b, filter);
    var c := w[k - 1].seqNo;
    WindowAscends(rows, a, b, filter);
    assert a < c <= b by {
      WindowMembers(rows, a, b, filter);
      assert w[k - 1] in w;
    }
    WindowsJoin(rows, a, c, b, filter);
    WindowMembers(rows, a, c, filter);
    WindowMembers(rows, c, b, filter);
    CutPoint(Window(rows, a, c, filter), Window(rows, c, b, filter), k);
  }

  lemma {:induction false} LastSeqOfWindow(rows: seq<Numbered>, a: nat)
    requires Ascending(rows) && a <= LastSeq(rows)
    ensures LastSeq(Window(rows, a, LastSeq(rows), Every)) == if a < LastSeq(rows) then LastSeq(rows) else 0
  {
    if rows != [] && a == LastSeq(rows) {
      assert rows + [] == rows;
      AscendingParts(rows, []);
      WindowEmpty(rows, a, LastSeq(rows), Every);
    }
  }

  lemma StoredScan(s: Snapshot, after: nat, filter: Numbered -> bool)
    requires ValidSnapshot(s) && s.pruned <= after
    ensures Window(Stored(s), after, LastSeq(Stored(s)), filter) == Window(s.feed, after, HeadOf(s), filter)
  {
    LastSeqOfWindow(s.feed, s.pruned);
    if s.pruned < HeadOf(s) {
      WindowOfWindow(s.feed, s.pruned, HeadOf(s), after, HeadOf(s), filter);
    } else {
      WindowMembers(s.feed, s.pruned, HeadOf(s), Every);
      WindowEmpty(s.feed, after, HeadOf(s), filter);
      WindowEmpty(Stored(s), after, LastSeq(Stored(s)), filter);
    }
  }

  /** A page read at or above the prune marker is exactly the matching rows of the
      full history between the position asked for and the position reached. */
  lemma PageIsWindow(s: Snapshot, after: nat, scanLimit: nat, filter: Numbered -> bool)
    requires ValidSnapshot(s) && s.pruned <= after <= HeadOf(s)
    ensures var p := ReadPage(s, after, scanLimit, filter);
            && p.rows == Window(s.feed, after, p.lastScanned, filter)
            && after <= p.lastScanned <= HeadOf(s)
            && (p.reachedHead ==> p.lastScanned == HeadOf(s))
            && (!p.reachedHead ==> p.lastScanned > after && |p.rows| == Limit(scanLimit))
  {
    StoredScan(s, after, filter);
    var all := Window(s.feed, after, HeadOf(s), filter);
    if |all| >= Limit(scanLimit) {
      WindowCut(s.feed, after, HeadOf(s), filter, Limit(scanLimit));
      WindowMembers(s.feed, after, HeadOf(s), filter);
      assert all[Limit(scanLimit) - 1] in all;
      if |all| == Limit(scanLimit) { assert all[..Limit(scanLimit)] == all; }
    }
  }

  /** A page holds as many matching rows as there are, up to the limit asked for, zero
      meaning one; it reports the head exactly when it holds fewer. */
  lemma PageSize(s: Snapshot, after: nat, scanLimit: nat, filter: Numbered -> bool)
    requires ValidSnapshot(s) && s.pruned <= after <= HeadOf(s)
    ensures var p, all := ReadPage(s, after, scanLimit, filter), |Window(s.feed, after, HeadOf(s), filter)|;
            var limit := if scanLimit == 0 then 1 else scanLimit;
            && |p.rows| == (if all < limit then all else limit)
            && (p.reachedHead <==> all < limit)
            && (!p.reachedHead ==> p.lastScanned == p.rows[|p.rows| - 1].seqNo)
  {
    StoredScan(s, after, filter);
  }

  // -------------------------------------------------------------- whole readings

  /** A consumer's reading: page after page, each from the snapshot current then. */
  function PositionAfter(snaps: seq<Snapshot>, limits: seq<nat>, start: nat, filter: Numbered -> bool): nat
    requires |limits| == |snaps|
  {
    if snaps == [] then start
    else
      var k := |snaps| - 1;
      ReadPage(snaps[k], PositionAfter(snaps[..k], limits[..k], start, filter), limits[k], filter).lastScanned
  }

  function Collected(snaps: seq<Snapshot>, limits: seq<nat>, start: nat, filter: Numbered -> bool): seq<Numbered>
    requires |limits| == |snaps|
  {
    if snaps == [] then []
    else
      var k := |snaps| - 1;
      Collected(snaps[..k], limits[..k], start, filter)
      + ReadPage(snaps[k], PositionAfter(snaps[..k], limits[..k], start, filter), limits[k], filter).rows
  }

  /** No page finds its position pruned away: otherwise the reader is told the cursor expired. */
  predicate Unexpired(snaps: seq<Snapshot>, limits: seq<nat>, start: nat, filter: Numbered -> bool)
    requires |limits| == |snaps|
  {
    snaps == [] ||
    var k := |snaps| - 1;
    Unexpired(snaps[..k], limits[..k], start, filter) && snaps[k].pruned <= PositionAfter(snaps[..k], limits[..k], start, filter)
  }

  predicate InOrder(snaps: seq<Snapshot>) {
    && (forall k :: 0 <= k < |snaps| ==> ValidSnapshot(snaps[k]))
    && (forall k, m :: 0 <= k < m < |snaps| ==> Later(snaps[k], snaps[m]))
  }

  /** Paging until any point yields every matching row up to the position reached,
      each once and in order, whatever was appended or pruned between the pages. */
  lemma {:induction false} PagingIsExact(snaps: seq<Snapshot>, limits: seq<nat>, start: nat, filter: Numbered -> bool)
    requires |limits| == |snaps| > 0 && InOrder(snaps) && start <= HeadOf(snaps[0])
    requires Unexpired(snaps, limits, start, filter)
    ensures var k := |snaps| - 1;
            var pos := PositionAfter(snaps, limits, start, filter);
            && start <= pos <= HeadOf(snaps[k])
            && Collected(snaps, limits, start, filter) == Window(snaps[k].feed, start, pos, filter)
            && (ReadPage(snaps[k], PositionAfter(snaps[..k], limits[..k], start, filter), limits[k], filter).reachedHead
                ==> pos == HeadOf(snaps[k]))
  {
    var k := |snaps| - 1;
    var before := PositionAfter(snaps[..k], limits[..k], start, filter);
    if k == 0 {
      assert snaps[..0] == [];
      PageIsWindow(snaps[0], start, limits[0], filter);
      assert Collected(snaps, limits, start, filter) == [] + ReadPage(snaps[0], start, limits[0], filter).rows;
    } else {
      PagingIsExact(snaps[..k], limits[..k], start, filter);
      HeadsRise(snaps[k - 1], snaps[k]);
      PageIsWindow(snaps[k], before, limits[k], filter);
      WindowStable(snaps[k - 1], snaps[k], start, before, filter);
      WindowsJoin(snaps[k].feed, start, before, PositionAfter(snaps, limits, start, filter), filter);
    }
  }

  lemma HeadsRise(s: Snapshot, s': Snapshot)
    requires ValidSnapshot(s') && Later(s, s')
    ensures HeadOf(s) <= HeadOf(s')
  {
    if s.feed != [] { assert s'.feed[|s.feed| - 1] == s.feed[|s.feed| - 1]; }
  }
}
