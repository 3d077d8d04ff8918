/** Answering a `/changes` request: several store pages, each from its own snapshot,
    filtered by what the requester may see. */
module ChangesQuery {
  import opened Arith
  import opened Tables
  import opened SerialRegistry
  import opened SerialProofs
  import opened FeedPaging

  const REFILL_MAX_SCANS := 6

  datatype Since = FromHead | FromOldest | FromPosition(pos: nat)

  /** What is asked of a page or an answer: its bounds, the query's filter, who may
      see what, and the encoded length of an entry and of the envelope. */
  datatype Request = Request(scanLimit: nat, target: nat, filter: Numbered -> bool, visible: Numbered -> bool,
                             size: Numbered -> nat, envelope: nat, maxBytes: nat)

  datatype Answer = CursorExpired | Served(changes: seq<Numbered>, pos: nat, hasMore: bool)

  // ----------------------------------------------------------- reading a page

  lemma {:induction false} WindowFrom(rows: seq<Numbered>, a: nat, b: nat, c: nat, filter: Numbered -> bool)
    requires a <= c && forall n :: n in rows ==> c < n.seqNo
    ensures Window(rows, a, b, filter) == Window(rows, c, b, filter)
  {
    if rows != [] {
      assert rows[|rows| - 1] in rows;
      WindowFrom(rows[..|rows| - 1], a, b, c, filter);
    }
  }

  /** Asking below the prune marker reads from the marker. */
  lemma PageSkipsPruned(s: Snapshot, after: nat, scanLimit: nat, filter: Numbered -> bool)
    requires ValidSnapshot(s) && after <= s.pruned
    ensures ReadPage(s, after, scanLimit, filter) == ReadPage(s, s.pruned, scanLimit, filter)
  {
    WindowMembers(s.feed, s.pruned, LastSeq(s.feed), Every);
    WindowFrom(Stored(s), after, LastSeq(Stored(s)), s.pruned, filter);
  }

  /** The rows of a page, by membership. */
  lemma PageMembers(s: Snapshot, after: nat, scanLimit: nat, filter: Numbered -> bool)
    requires ValidSnapshot(s) && after <= HeadOf(s)
    ensures var p := ReadPage(s, after, scanLimit, filter);
            && Ascending(p.rows) && after <= p.lastScanned <= HeadOf(s)
            && (p.reachedHead ==> p.lastScanned == HeadOf(s))
            && (!p.reachedHead ==> |p.rows| > 0 && p.rows[|p.rows| - 1].seqNo == p.lastScanned)
            && forall n :: n in p.rows <==>
                 n in s.feed && after < n.seqNo <= p.lastScanned && s.pruned < n.seqNo && filter(n)
  {
    var from := Max(after, s.pruned);
    if after < s.pruned { PageSkipsPruned(s, after, scanLimit, filter); }
    PageIsWindow(s, from, scanLimit, filter);
    var p := ReadPage(s, after, scanLimit, filter);
    WindowAscends(s.feed, from, p.lastScanned, filter);
    WindowMembers(s.feed, from, p.lastScanned, filter);
  }

  /** A page that does not reach the head gets past where it began. */
  lemma PageAdvances(s: Snapshot, after: nat, scanLimit: nat, filter: Numbered -> bool)
    requires ValidSnapshot(s) && after <= HeadOf(s)
    ensures var p := ReadPage(s, after, scanLimit, filter);
            if p.reachedHead then p.lastScanned == HeadOf(s) else p.lastScanned > after
  {
    var p := ReadPage(s, after, scanLimit, filter);
    PageMembers(s, after, scanLimit, filter);
    if !p.reachedHead { assert p.rows[|p.rows| - 1] in p.rows; }
  }

  /** A row of a later snapshot at or below an earlier head was there then. */
  lemma OldRow(s: Snapshot, s': Snapshot, n: Numbered)
    requires ValidSnapshot(s') && Later(s, s') && n in s'.feed && n.seqNo <= HeadOf(s)
    ensures n in s.feed
  {
    var more := s'.feed[|s.feed|..];
    assert s'.feed == s.feed + more;
    AscendingParts(s.feed, more);
  }

  // --------------------------------------------------------------- the answer

  /** `changes` are the rows in `(base, pos]` that pass both tests, ascending, less
      any at or below `lost`. */
  ghost predicate Covers(changes: seq<Numbered>, feed: seq<Numbered>, base: nat, pos: nat, lost: nat,
                         filter: Numbered -> bool, visible: Numbered -> bool)
  {
    && Ascending(changes)
    && (forall n :: n in changes ==> n in feed && base < n.seqNo <= pos && filter(n) && visible(n))
    && (forall n :: n in feed && base < n.seqNo <= pos && lost < n.seqNo && filter(n) && visible(n) ==> n in changes)
  }

  /** Between one row of a page and the next nothing matches. */
  lemma Adjacent(s: Snapshot, last: Snapshot, after: nat, scanLimit: nat, filter: Numbered -> bool, i: nat, lost: nat, n: Numbered)
    requires ValidSnapshot(s) && ValidSnapshot(last) && Later(s, last) && after <= HeadOf(s)
    requires s.pruned <= Max(after, lost)
    requires var p := ReadPage(s, after, scanLimit, filter);
             && i <= |p.rows| && n in last.feed && filter(n) && lost < n.seqNo
             && (if i == 0 then after else p.rows[i - 1].seqNo) < n.seqNo
             && n.seqNo <= (if i < |p.rows| then p.rows[i].seqNo else p.lastScanned)
    ensures var p := ReadPage(s, after, scanLimit, filter); i < |p.rows| && n == p.rows[i]
  {
    var p := ReadPage(s, after, scanLimit, filter);
    PageMembers(s, after, scanLimit, filter);
    if i < |p.rows| { assert p.rows[i] in p.rows; }
    if i > 0 { assert p.rows[i - 1] in p.rows; }
    OldRow(s, last, n);
    assert n in p.rows;
    var k :| 0 <= k < |p.rows| && p.rows[k] == n;
    assert i > 0 ==> k > i - 1;
  }

  lemma CoverNext(changes: seq<Numbered>, feed: seq<Numbered>, base: nat, pos: nat, lost: nat,
                  filter: Numbered -> bool, visible: Numbered -> bool, row: Numbered)
    requires Covers(changes, feed, base, pos, lost, filter, visible) && base <= pos < row.seqNo
    requires row in feed && filter(row) && OnlyRow(feed, filter, lost, pos, row)
    ensures Covers(if visible(row) then changes + [row] else changes, feed, base, row.seqNo, lost, filter, visible)
  {
    assert forall i :: 0 <= i < |changes| ==> changes[i] in changes;
  }

  /** Where a page's scan stands after its first `i` rows. */
  function Reached(p: Page, after: nat, i: nat): nat
    requires i <= |p.rows|
  {
    if i == 0 then after else p.rows[i - 1].seqNo
  }

  /** `row` is the first to match past `from`, of those above `lost`. */
  ghost predicate OnlyRow(feed: seq<Numbered>, filter: Numbered -> bool, lost: nat, from: nat, row: Numbered) {
    forall n :: n in feed && filter(n) && from < n.seqNo <= row.seqNo && lost < n.seqNo ==> n == row
  }

  ghost predicate RowInTurn(p: Page, feed: seq<Numbered>, after: nat, lost: nat, filter: Numbered -> bool, top: nat, i: nat)
    requires i < |p.rows|
  {
    && p.rows[i] in feed && filter(p.rows[i])
    && Reached(p, after, i) < p.rows[i].seqNo <= top
    && OnlyRow(feed, filter, lost, Reached(p, after, i), p.rows[i])
  }

  /** A page's rows are all that match from `after` to where it reached, in order. */
  ghost predicate Scannable(p: Page, feed: seq<Numbered>, after: nat, lost: nat, filter: Numbered -> bool, top: nat) {
    && (forall i :: 0 <= i < |p.rows| ==> RowInTurn(p, feed, after, lost, filter, top, i))
    && Reached(p, after, |p.rows|) <= p.lastScanned <= top
    && forall n :: n in feed && filter(n) && Reached(p, after, |p.rows|) < n.seqNo <= p.lastScanned ==> n.seqNo <= lost
  }

  lemma RowsInTurn(s: Snapshot, last: Snapshot, after: nat, scanLimit: nat, lost: nat, filter: Numbered -> bool, i: nat)
    requires ValidSnapshot(s) && ValidSnapshot(last) && Later(s, last) && after <= HeadOf(s) && s.pruned <= Max(after, lost)
    requires i < |ReadPage(s, after, scanLimit, filter).rows|
    ensures RowInTurn(ReadPage(s, after, scanLimit, filter), last.feed, after, lost, filter, HeadOf(s), i)
  {
    var p := ReadPage(s, after, scanLimit, filter);
    PageMembers(s, after, scanLimit, filter);
    assert p.rows[i] in p.rows && p.rows[i] in last.feed;
    if i > 0 { assert p.rows[i - 1] in p.rows; }
    forall n | n in last.feed && filter(n) && Reached(p, after, i) < n.seqNo <= p.rows[i].seqNo && lost < n.seqNo
      ensures n == p.rows[i]
    {
      Adjacent(s, last, after, scanLimit, filter, i, lost, n);
    }
  }

  lemma PageIsScannable(s: Snapshot, last: Snapshot, after: nat, scanLimit: nat, lost: nat, filter: Numbered -> bool)
    requires ValidSnapshot(s) && ValidSnapshot(last) && Later(s, last) && after <= HeadOf(s) && s.pruned <= Max(after, lost)
    ensures Scannable(ReadPage(s, after, scanLimit, filter), last.feed, after, lost, filter, HeadOf(s))
  {
    var p := ReadPage(s, after, scanLimit, filter);
    forall i | 0 <= i < |p.rows|
      ensures RowInTurn(p, last.feed, after, lost, filter, HeadOf(s), i)
    {
      RowsInTurn(s, last, after, scanLimit, lost, filter, i);
    }
    PageMembers(s, after, scanLimit, filter);
    if p.rows != [] { assert p.rows[|p.rows| - 1] in p.rows; }
    forall n | n in last.feed && filter(n) && Reached(p, after, |p.rows|) < n.seqNo <= p.lastScanned
      ensures n.seqNo <= lost
    {
      if lost < n.seqNo { Adjacent(s, last, after, scanLimit, filter, |p.rows|, lost, n); }
    }
  }

  /** One more row of the page, taken if visible, keeps the answer exact. */
  lemma CoverRow(p: Page, feed: seq<Numbered>, after: nat, lost: nat, filter: Numbered -> bool, top: nat,
                 changes: seq<Numbered>, base: nat, visible: Numbered -> bool, i: nat)
    requires Scannable(p, feed, after, lost, filter, top) && i < |p.rows| && base <= Reached(p, after, i)
    requires Covers(changes, feed, base, Reached(p, after, i), lost, filter, visible)
    ensures base <= Reached(p, after, i + 1) <= top
    ensures Covers(if visible(p.rows[i]) then changes + [p.rows[i]] else changes,
                   feed, base, Reached(p, after, i + 1), lost, filter, visible)
  {
    assert RowInTurn(p, feed, after, lost, filter, top, i);
    CoverNext(changes, feed, base, Reached(p, after, i), lost, filter, visible, p.rows[i]);
  }

  /** Past its last row a page covers everything to where it reached. */
  lemma CoverEnd(p: Page, feed: seq<Numbered>, after: nat, lost: nat, filter: Numbered -> bool, top: nat,
                 changes: seq<Numbered>, base: nat, visible: Numbered -> bool)
    requires Scannable(p, feed, after, lost, filter, top) && base <= Reached(p, after, |p.rows|)
    requires Covers(changes, feed, base, Reached(p, after, |p.rows|), lost, filter, visible)
    ensures Reached(p, after, |p.rows|) <= p.lastScanned <= top
    ensures Covers(changes, feed, base, p.lastScanned, lost, filter, visible)
  {
  }

  predicate Pruned(s: Snapshot, pages: seq<Snapshot>, pos: nat) {
    pos < s.pruned || exists p :: p in pages && pos < p.pruned
  }

  /** What an answer promises: served rows are exactly the visible matching ones from
      the position asked for to the position returned, and only a position no longer
      retained, or past the head, is refused. */
  ghost predicate AnswerOk(start: Snapshot, pages: seq<Snapshot>, since: Since,
                           filter: Numbered -> bool, visible: Numbered -> bool, r: Answer)
    requires |pages| == REFILL_MAX_SCANS
  {
    var last := pages[REFILL_MAX_SCANS - 1];
    match r
    case CursorExpired => since.FromPosition? && (since.pos > HeadOf(start) || Pruned(start, pages, since.pos))
    case Served(changes, pos, _) =>
      since.FromHead? ||
      var base := if since.FromOldest? then start.pruned else since.pos;
      && base <= pos <= HeadOf(last)
      && Covers(changes, last.feed, base, pos, if since.FromOldest? then last.pruned else 0, filter, visible)
  }

  /** The encoded length of an answer: the envelope, the entries, and a comma between any two. */
  function Encoded(changes: seq<Numbered>, size: Numbered -> nat, envelope: nat): nat {
    if changes == [] then envelope
    else
      var n := |changes| - 1;
      Encoded(changes[..n], size, envelope) + size(changes[n]) + if n == 0 then 0 else 1
  }

  lemma EncodedGrows(changes: seq<Numbered>, row: Numbered, size: Numbered -> nat, envelope: nat)
    ensures Encoded(changes + [row], size, envelope)
         == Encoded(changes, size, envelope) + size(row) + if changes == [] then 0 else 1
  {
    assert (changes + [row])[..|changes|] == changes;
  }

  /** The next entry, past `pos`, would take an answer over the byte bound. */
  ghost predicate Overflows(changes: seq<Numbered>, feed: seq<Numbered>, pos: nat, q: Request) {
    exists n :: n in feed && pos < n.seqNo && q.filter(n) && q.visible(n) && Encoded(changes + [n], q.size, q.envelope) > q.maxBytes
  }

  /** The rows of `k` full pages. */
  function RowsOf(k: nat, scanLimit: nat): nat {
    if k == 0 then 0 else RowsOf(k - 1, scanLimit) + if scanLimit == 0 then 1 else scanLimit
  }

  /** At least `k` full pages of matching rows lie between two positions. */
  ghost predicate Looked(feed: seq<Numbered>, base: nat, pos: nat, q: Request, k: nat) {
    |Window(feed, base, pos, q.filter)| >= RowsOf(k, q.scanLimit)
  }

  /** The answer so far: exact up to `pos`, its encoded length, and within the bound
      once it holds more than one entry. */
  ghost predicate Scanned(changes: seq<Numbered>, body: nat, feed: seq<Numbered>, base: nat, pos: nat, lost: nat, q: Request) {
    && Covers(changes, feed, base, pos, lost, q.filter, q.visible)
    && body == Encoded(changes, q.size, q.envelope)
    && (|changes| > 1 ==> body <= q.maxBytes)
  }

  /** An answer ends at `pos`: it is full, the next entry does not fit, or it is at `head`. */
  ghost predicate Ends(changes: seq<Numbered>, feed: seq<Numbered>, pos: nat, head: nat, q: Request) {
    || |changes| == q.target
    || (changes != [] && Overflows(changes, feed, pos, q))
    || pos == head
  }

  /** Why an answer stopped where it did: it is full, the next entry does not fit, it
      reached the head of one of its pages, or it has looked through as many rows as six
      pages hold. */
  ghost predicate StopsForCause(changes: seq<Numbered>, pages: seq<Snapshot>, base: nat, pos: nat, q: Request)
    requires |pages| == REFILL_MAX_SCANS
  {
    var feed := pages[REFILL_MAX_SCANS - 1].feed;
    || (exists p :: p in pages && Ends(changes, feed, pos, HeadOf(p), q))
    || |Window(feed, base, pos, q.filter)| >= 6 * (if q.scanLimit == 0 then 1 else q.scanLimit)
  }

  /** `GET /changes`, and the evaluation behind every change hint. `start` is the
      snapshot the request begins with, `pages` those its store pages come from. */
  method EvaluateChanges(start: Snapshot, pages: seq<Snapshot>, since: Since, q: Request) returns (r: Answer)
    requires |pages| == REFILL_MAX_SCANS && ValidSnapshot(start) && InOrder(pages) && Later(start, pages[0]) && q.target > 0
    ensures AnswerOk(start, pages, since, q.filter, q.visible, r)
    ensures r.Served? ==> |r.changes| <= q.target && (r.pos < HeadOf(start) ==> r.hasMore)
    ensures r.Served? && r.hasMore ==> r.pos < HeadOf(pages[REFILL_MAX_SCANS - 1])
    ensures r.Served? && |r.changes| > 1 ==> Encoded(r.changes, q.size, q.envelope) <= q.maxBytes
    ensures r.Served? && !since.FromHead? ==>
              StopsForCause(r.changes, pages, if since.FromOldest? then start.pruned else since.pos, r.pos, q)
    ensures r.Served? ==>
              r.pos >= HeadOf(start) || r.pos > (match since case FromPosition(p) => p case _ => start.pruned)
    ensures since.FromHead? ==> r == Served([], HeadOf(start), false)
    ensures since.FromPosition? && (since.pos > HeadOf(start) || since.pos < start.pruned || since.pos < pages[0].pruned) ==>
              r == CursorExpired
  {
    InOrderRises(pages);
    HeadsRise(start, pages[0]);
    match since {
      case FromHead =>
        return Served([], HeadOf(start), false);
      case FromOldest =>
        r := Refill(start, pages, false, start.pruned, q);
      case FromPosition(p) =>
        if p > HeadOf(start) || p < start.pruned {
          return CursorExpired;
        }
        r := Refill(start, pages, true, p, q);
    }
  }

  /** What a refill from `base` promises. */
  ghost predicate Refilled(start: Snapshot, pages: seq<Snapshot>, checkExpiry: bool, base: nat, q: Request, r: Answer)
    requires |pages| == REFILL_MAX_SCANS
  {
    var last := pages[REFILL_MAX_SCANS - 1];
    match r
    case CursorExpired => checkExpiry && Pruned(start, pages, base)
    case Served(changes, pos, hasMore) =>
      && base <= pos <= HeadOf(last) && |changes| <= q.target
      && Covers(changes, last.feed, base, pos, if checkExpiry then 0 else last.pruned, q.filter, q.visible)
      && (pos < HeadOf(start) ==> hasMore) && (hasMore ==> pos < HeadOf(last))
      && (pos > base || pos >= HeadOf(start))
      && (|changes| > 1 ==> Encoded(changes, q.size, q.envelope) <= q.maxBytes)
      && StopsForCause(changes, pages, base, pos, q)
      && !(checkExpiry && base < pages[0].pruned)
  }

  /** A refill after `k` pages, none of which ended it. */
  ghost predicate Refilling(start: Snapshot, pages: seq<Snapshot>, checkExpiry: bool, base: nat, q: Request,
                            k: nat, pos: nat, changes: seq<Numbered>, body: nat, head: nat)
    requires |pages| == REFILL_MAX_SCANS
  {
    var last := pages[REFILL_MAX_SCANS - 1];
    && base <= pos <= HeadOf(last) && (k < REFILL_MAX_SCANS ==> pos <= HeadOf(pages[k]) && HeadOf(start) <= HeadOf(pages[k]))
    && Scanned(changes, body, last.feed, base, pos, if checkExpiry then 0 else last.pruned, q)
    && |changes| < q.target && HeadOf(start) <= head <= HeadOf(last)
    && (if k == 0 then pos == base else pos > base && !(checkExpiry && base < pages[0].pruned))
    && Looked(last.feed, base, pos, q, k)
  }

  /** Page after page until the answer is full, the head is reached or the budget spent. */
  method Refill(start: Snapshot, pages: seq<Snapshot>, checkExpiry: bool, base: nat, q: Request) returns (r: Answer)
    requires |pages| == REFILL_MAX_SCANS && Rising(pages) && HeadOf(start) <= HeadOf(pages[0]) && q.target > 0
    requires start.pruned <= base <= HeadOf(start)
    ensures Refilled(start, pages, checkExpiry, base, q, r)
  {
    var pos, changes, body, head := base, [], q.envelope, HeadOf(start);
    RefillStarts(start, pages, checkExpiry, base, q);
    var k := 0;
    while k < REFILL_MAX_SCANS
      invariant k <= REFILL_MAX_SCANS
      invariant Refilling(start, pages, checkExpiry, base, q, k, pos, changes, body, head)
    {
      if checkExpiry && pages[k].pruned > pos {
        RefillExpires(start, pages, base, q, k, pos, changes, body, head);
        return CursorExpired;
      }
      var stop;
      stop, pos, changes, body, head := RefillOnce(start, pages, checkExpiry, base, q, k, pos, changes, body, head);
      if stop {
        return Served(changes, pos, pos < head);
      }
      k := k + 1;
    }
    RefillSpent(start, pages, checkExpiry, base, q, pos, changes, body, head);
    return Served(changes, pos, pos < head);
  }

  lemma RefillStarts(start: Snapshot, pages: seq<Snapshot>, checkExpiry: bool, base: nat, q: Request)
    requires |pages| == REFILL_MAX_SCANS && Rising(pages) && HeadOf(start) <= HeadOf(pages[0]) && q.target > 0
    requires base <= HeadOf(start)
    ensures Refilling(start, pages, checkExpiry, base, q, 0, base, [], q.envelope, HeadOf(start))
  {
    PageHeads(pages, 0);
  }

  lemma RefillExpires(start: Snapshot, pages: seq<Snapshot>, base: nat, q: Request,
                      k: nat, pos: nat, changes: seq<Numbered>, body: nat, head: nat)
    requires |pages| == REFILL_MAX_SCANS && k < REFILL_MAX_SCANS && pages[k].pruned > pos
    requires Refilling(start, pages, true, base, q, k, pos, changes, body, head)
    ensures Refilled(start, pages, true, base, q, CursorExpired)
  {
    assert pages[k] in pages;
  }

  /** Six pages that each held a full page of rows. */
  lemma RefillSpent(start: Snapshot, pages: seq<Snapshot>, checkExpiry: bool, base: nat, q: Request,
                    pos: nat, changes: seq<Numbered>, body: nat, head: nat)
    requires |pages| == REFILL_MAX_SCANS
    requires Refilling(start, pages, checkExpiry, base, q, REFILL_MAX_SCANS, pos, changes, body, head)
    ensures Refilled(start, pages, checkExpiry, base, q, Served(changes, pos, pos < head))
  {
    SixPages(q.scanLimit);
  }

  lemma SixPages(scanLimit: nat)
    ensures RowsOf(6, scanLimit) == 6 * if scanLimit == 0 then 1 else scanLimit
  {
    assert RowsOf(1, scanLimit) == if scanLimit == 0 then 1 else scanLimit;
    assert RowsOf(3, scanLimit) == RowsOf(2, scanLimit) + RowsOf(1, scanLimit);
    assert RowsOf(5, scanLimit) == RowsOf(4, scanLimit) + RowsOf(1, scanLimit);
  }

  /** One page of a refill; `stop` when the answer ends with it. */
  method RefillOnce(ghost start: Snapshot, pages: seq<Snapshot>, checkExpiry: bool, ghost base: nat, q: Request,
                    k: nat, after: nat, already: seq<Numbered>, bytes: nat, seen: nat)
    returns (stop: bool, pos: nat, changes: seq<Numbered>, body: nat, head: nat)
    requires |pages| == REFILL_MAX_SCANS && Rising(pages) && k < REFILL_MAX_SCANS && q.target > 0
    requires Refilling(start, pages, checkExpiry, base, q, k, after, already, bytes, seen)
    requires checkExpiry ==> pages[k].pruned <= after
    ensures if stop then Refilled(start, pages, checkExpiry, base, q, Served(changes, pos, pos < head))
            else Refilling(start, pages, checkExpiry, base, q, k + 1, pos, changes, body, head)
  {
    var s := pages[k];
    ghost var last := pages[REFILL_MAX_SCANS - 1];
    ghost var lost := if checkExpiry then 0 else last.pruned;
    PageHeads(pages, k);
    head := Max(seen, HeadOf(s));
    var page := ReadPage(s, after, q.scanLimit, q.filter);
    PageAdvances(s, after, q.scanLimit, q.filter);
    PageIsScannable(s, last, after, q.scanLimit, lost, q.filter);
    var done;
    done, pos, changes, body := ScanPage(page, after, already, last.feed, HeadOf(s), base, lost, q, bytes);
    if changes != [] { ServedIsPast(changes, last.feed, base, pos, lost, q.filter, q.visible); }
    stop := done || page.reachedHead || |changes| == q.target;
    if stop {
      assert Ends(changes, last.feed, pos, HeadOf(s), q);
    } else {
      LookedMore(pages, k, base, after, pos, q);
    }
  }

  /** A page that did not reach the head held a full page of rows. */
  lemma FullPage(s: Snapshot, last: Snapshot, after: nat, scanLimit: nat, filter: Numbered -> bool)
    requires ValidSnapshot(s) && ValidSnapshot(last) && Later(s, last) && after <= HeadOf(s)
    requires !ReadPage(s, after, scanLimit, filter).reachedHead
    ensures var p := ReadPage(s, after, scanLimit, filter);
            after <= p.lastScanned && |Window(last.feed, after, p.lastScanned, filter)| >= if scanLimit == 0 then 1 else scanLimit
  {
    var from := Max(after, s.pruned);
    if after < s.pruned { PageSkipsPruned(s, after, scanLimit, filter); }
    var p := ReadPage(s, after, scanLimit, filter);
    PageIsWindow(s, from, scanLimit, filter);
    PageSize(s, from, scanLimit, filter);
    WindowStable(s, last, from, p.lastScanned, filter);
    WindowsJoin(last.feed, after, from, p.lastScanned, filter);
  }

  lemma LookedMore(pages: seq<Snapshot>, k: nat, base: nat, before: nat, pos: nat, q: Request)
    requires Rising(pages) && k < |pages| && base <= before <= HeadOf(pages[k])
    requires var p := ReadPage(pages[k], before, q.scanLimit, q.filter); !p.reachedHead && pos == p.lastScanned
    requires Looked(pages[|pages| - 1].feed, base, before, q, k)
    ensures Looked(pages[|pages| - 1].feed, base, pos, q, k + 1)
  {
    var s, last := pages[k], pages[|pages| - 1];
    PageHeads(pages, k);
    FullPage(s, last, before, q.scanLimit, q.filter);
    WindowsJoin(last.feed, base, before, pos, q.filter);
  }

  /** Each snapshot is no later than the last, and no head falls. */
  predicate Rising(pages: seq<Snapshot>) {
    forall k :: 0 <= k < |pages| ==> Rises(pages, k)
  }

  predicate Rises(pages: seq<Snapshot>, k: nat)
    requires k < |pages|
  {
    && ValidSnapshot(pages[k]) && ValidSnapshot(pages[|pages| - 1])
    && Later(pages[k], pages[|pages| - 1]) && HeadOf(pages[k]) <= HeadOf(pages[|pages| - 1])
    && (k + 1 < |pages| ==> HeadOf(pages[k]) <= HeadOf(pages[k + 1]))
  }

  lemma PageHeads(pages: seq<Snapshot>, k: nat)
    requires Rising(pages) && k < |pages|
    ensures pages[k] in pages && HeadOf(pages[k]) <= HeadOf(pages[|pages| - 1]) && pages[k].pruned <= pages[|pages| - 1].pruned
    ensures ValidSnapshot(pages[k]) && ValidSnapshot(pages[|pages| - 1]) && Later(pages[k], pages[|pages| - 1])
    ensures k + 1 < |pages| ==> HeadOf(pages[k]) <= HeadOf(pages[k + 1])
  {
    assert Rises(pages, k);
  }

  lemma InOrderRises(pages: seq<Snapshot>)
    requires InOrder(pages)
    ensures Rising(pages)
  {
    forall k | 0 <= k < |pages|
      ensures Rises(pages, k)
    {
      if k + 1 < |pages| {
        HeadsRise(pages[k], pages[|pages| - 1]);
        HeadsRise(pages[k], pages[k + 1]);
      }
    }
  }

  lemma ServedIsPast(changes: seq<Numbered>, feed: seq<Numbered>, base: nat, pos: nat, lost: nat,
                     filter: Numbered -> bool, visible: Numbered -> bool)
    requires Covers(changes, feed, base, pos, lost, filter, visible) && changes != []
    ensures pos > base
  {
    assert changes[0] in changes;
  }

  /** One page's rows, up to the target or the byte bound; `done` when either stopped it. */
  method ScanPage(page: Page, after: nat, already: seq<Numbered>, ghost feed: seq<Numbered>, ghost top: nat, ghost base: nat,
                  ghost lost: nat, q: Request, bytes: nat)
    returns (done: bool, pos: nat, changes: seq<Numbered>, body: nat)
    requires Scannable(page, feed, after, lost, q.filter, top) && base <= after <= top
    requires Scanned(already, bytes, feed, base, after, lost, q) && |already| < q.target
    ensures base <= pos <= top && |changes| <= q.target
    ensures Scanned(changes, body, feed, base, pos, lost, q)
    ensures if done then changes != [] && (|changes| == q.target || Overflows(changes, feed, pos, q)) else pos == page.lastScanned
  {
    pos, changes, body, done := after, already, bytes, false;
    var i := 0;
    while i < |page.rows|
      invariant i <= |page.rows| && pos == Reached(page, after, i)
      invariant base <= pos <= top && |changes| <= q.target
      invariant Scanned(changes, body, feed, base, pos, lost, q)
    {
      var row := page.rows[i];
      if |changes| == q.target {
        return true, pos, changes, body;
      }
      if q.visible(row) && changes != [] && body + 1 + q.size(row) > q.maxBytes {
        RowOverflows(page, feed, after, lost, top, changes, body, base, q, i);
        return true, pos, changes, body;
      }
      ScanRow(page, feed, after, lost, top, changes, body, base, q, i);
      if q.visible(row) {
        body := body + q.size(row) + (if changes == [] then 0 else 1);
        changes := changes + [row];
      }
      pos := row.seqNo;
      i := i + 1;
    }
    ScanEnd(page, feed, after, lost, top, changes, body, base, q);
    pos := Max(pos, page.lastScanned);
  }

  lemma RowOverflows(p: Page, feed: seq<Numbered>, after: nat, lost: nat, top: nat,
                     changes: seq<Numbered>, body: nat, base: nat, q: Request, i: nat)
    requires Scannable(p, feed, after, lost, q.filter, top) && i < |p.rows|
    requires Scanned(changes, body, feed, base, Reached(p, after, i), lost, q)
    requires q.visible(p.rows[i]) && changes != [] && body + 1 + q.size(p.rows[i]) > q.maxBytes
    ensures Overflows(changes, feed, Reached(p, after, i), q)
  {
    assert RowInTurn(p, feed, after, lost, q.filter, top, i);
    EncodedGrows(changes, p.rows[i], q.size, q.envelope);
  }

  /** Past its last row a page's answer is exact to where the page reached. */
  lemma ScanEnd(p: Page, feed: seq<Numbered>, after: nat, lost: nat, top: nat,
                changes: seq<Numbered>, body: nat, base: nat, q: Request)
    requires Scannable(p, feed, after, lost, q.filter, top) && base <= Reached(p, after, |p.rows|)
    requires Scanned(changes, body, feed, base, Reached(p, after, |p.rows|), lost, q)
    ensures Reached(p, after, |p.rows|) <= p.lastScanned <= top
    ensures Scanned(changes, body, feed, base, p.lastScanned, lost, q)
  {
    CoverEnd(p, feed, after, lost, q.filter, top, changes, base, q.visible);
  }

  /** One more row of the page, if it fits, keeps the answer exact and within the bound. */
  lemma ScanRow(p: Page, feed: seq<Numbered>, after: nat, lost: nat, top: nat,
                changes: seq<Numbered>, body: nat, base: nat, q: Request, i: nat)
    requires Scannable(p, feed, after, lost, q.filter, top) && i < |p.rows| && base <= Reached(p, after, i)
    requires Scanned(changes, body, feed, base, Reached(p, after, i), lost, q)
    requires !(q.visible(p.rows[i]) && changes != [] && body + 1 + q.size(p.rows[i]) > q.maxBytes)
    ensures base <= Reached(p, after, i + 1) <= top
    ensures if q.visible(p.rows[i])
            then Scanned(changes + [p.rows[i]], body + q.size(p.rows[i]) + (if changes == [] then 0 else 1),
                         feed, base, Reached(p, after, i + 1), lost, q)
            else Scanned(changes, body, feed, base, Reached(p, after, i + 1), lost, q)
  {
    CoverRow(p, feed, after, lost, q.filter, top, changes, base, q.visible, i);
    EncodedGrows(changes, p.rows[i], q.size, q.envelope);
  }
}
