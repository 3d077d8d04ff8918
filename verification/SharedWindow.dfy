/** The fleet-wide limiter: one database row per key, counted and judged by a single
    upsert. Statements reach the row in some serial order; each brings the database
    time fixed when it began, so times may even decrease. */
module SharedWindow {
  import opened Arith
  import opened Tables
  import opened RateWindows

  const WINDOW_SECS := 60
  const MAX_LIMIT := 0x7FFF_FFFF - 1

  datatype WindowRow = WindowRow(windowStart: nat, hits: nat)

  function EffectiveLimit(limit: nat): nat {
    Min(limit, MAX_LIMIT)
  }

  /** The aligned window a time falls in. */
  function WindowAt(now: nat): nat {
    now / WINDOW_SECS * WINDOW_SECS
  }

  /** The statement's effect; `clamp` is one more than the limit. */
  function Upserted(row: Option<WindowRow>, now: nat, clamp: nat): WindowRow {
    match row
    case None => WindowRow(WindowAt(now), 1)
    case Some(b) =>
      WindowRow(Max(b.windowStart, WindowAt(now)), if WindowAt(now) > b.windowStart then 1 else Min(b.hits + 1, clamp))
  }

  function Decide(hits: nat, limit: nat, windowStart: nat, now: nat): Decision {
    if hits <= limit then Allow
    else
      var remaining := windowStart + WINDOW_SECS - now;
      Deny(if remaining < 1 then 1 else if remaining > WINDOW_SECS then WINDOW_SECS else remaining)
  }

  class WindowTable {
    var rows: map<string, WindowRow>

    constructor ()
      ensures rows == map[]
    {
      rows := map[];
    }

    function RowOf(key: string): Option<WindowRow>
      reads this
    {
      if key in rows then Some(rows[key]) else None
    }

    method Check(key: string, configured: nat, now: nat) returns (d: Decision)
      modifies this
      ensures var limit := EffectiveLimit(configured);
              && rows == old(rows)[key := Upserted(old(RowOf(key)), now, limit + 1)]
              && d == Decide(rows[key].hits, limit, rows[key].windowStart, now)
      ensures key !in old(rows) || old(rows)[key].windowStart < now / 60 * 60 ==> rows[key] == WindowRow(now / 60 * 60, 1)
      ensures d == Allow <==> rows[key].hits <= configured && rows[key].hits <= 0x7FFF_FFFE
    {
      var limit := EffectiveLimit(configured);
      var candidate := WindowAt(now);
      if key !in rows {
        rows := rows[key := WindowRow(candidate, 1)];
      } else {
        var b := rows[key];
        var hits := if candidate > b.windowStart then 1 else Min(b.hits + 1, limit + 1);
        rows := rows[key := WindowRow(Max(b.windowStart, candidate), hits)];
      }
      d := Decide(rows[key].hits, limit, rows[key].windowStart, now);
    }
  }

  // --------------------------------------------------------------- whole runs

  /** The row after statements with the given times, in the order they took effect. */
  function RowAfter(nows: seq<nat>, limit: nat): Option<WindowRow> {
    if nows == [] then None
    else Some(Upserted(RowAfter(nows[..|nows| - 1], limit), nows[|nows| - 1], limit + 1))
  }

  /** The answer to the last statement. */
  function LastDecision(nows: seq<nat>, limit: nat): Decision
    requires nows != []
  {
    var row := RowAfter(nows, limit).value;
    Decide(row.hits, limit, row.windowStart, nows[|nows| - 1])
  }

  /** How many statements were counted into the window starting at `start`. */
  function Counted(nows: seq<nat>, limit: nat, start: nat): nat {
    if nows == [] then 0
    else Counted(nows[..|nows| - 1], limit, start) + if RowAfter(nows, limit).value.windowStart == start then 1 else 0
  }

  /** How many of them were allowed. */
  function Allowed(nows: seq<nat>, limit: nat, start: nat): nat {
    if nows == [] then 0
    else
      Allowed(nows[..|nows| - 1], limit, start)
      + if RowAfter(nows, limit).value.windowStart == start && LastDecision(nows, limit).Allow? then 1 else 0
  }

  lemma {:induction false} LaterWindowsEmpty(nows: seq<nat>, limit: nat, start: nat)
    requires nows != [] ==> RowAfter(nows, limit).value.windowStart < start
    ensures Counted(nows, limit, start) == 0
  {
    if nows != [] { LaterWindowsEmpty(nows[..|nows| - 1], limit, start); }
  }

  /** The stored count is the number of statements counted into the stored window,
      cut off just above the limit. */
  lemma {:induction false} HitsCountStatements(nows: seq<nat>, limit: nat)
    requires nows != []
    ensures var row := RowAfter(nows, limit).value; row.hits == Min(Counted(nows, limit, row.windowStart), limit + 1)
  {
    var before := nows[..|nows| - 1];
    var start := RowAfter(nows, limit).value.windowStart;
    if before == [] || RowAfter(before, limit).value.windowStart < start { LaterWindowsEmpty(before, limit, start); }
    if before != [] { HitsCountStatements(before, limit); }
  }

  /** Allowed are exactly the first `limit` statements of each stored window. */
  lemma {:induction false} AllowedAreFirst(nows: seq<nat>, limit: nat, start: nat)
    ensures Allowed(nows, limit, start) == Min(Counted(nows, limit, start), limit)
  {
    if nows != [] {
      AllowedAreFirst(nows[..|nows| - 1], limit, start);
      HitsCountStatements(nows, limit);
    }
  }

  /** For any serial order and any times: hits stays in 1..limit+1, the window never
      goes back nor behind the statement's own, and Retry-After is in 1..60. */
  lemma RowStaysInRange(nows: seq<nat>, limit: nat)
    requires nows != []
    ensures var row := RowAfter(nows, limit).value;
            && 1 <= row.hits <= limit + 1 && row.windowStart % WINDOW_SECS == 0
            && WindowAt(nows[|nows| - 1]) <= row.windowStart
            && (|nows| > 1 ==> RowAfter(nows[..|nows| - 1], limit).value.windowStart <= row.windowStart)
    ensures LastDecision(nows, limit).Deny? ==> 1 <= LastDecision(nows, limit).retryAfter <= WINDOW_SECS
    ensures LastDecision(nows, limit).Allow? <==> Counted(nows, limit, RowAfter(nows, limit).value.windowStart) <= limit
  {
    var row := RowAfter(nows, limit).value;
    HitsCountStatements(nows, limit);
    assert Counted(nows, limit, row.windowStart) >= 1;
    Aligned(nows, limit);
  }

  lemma {:induction false} Aligned(nows: seq<nat>, limit: nat)
    requires nows != []
    ensures RowAfter(nows, limit).value.windowStart % WINDOW_SECS == 0
  {
    if |nows| > 1 { Aligned(nows[..|nows| - 1], limit); }
    assert WindowAt(nows[|nows| - 1]) % WINDOW_SECS == 0;
  }

  /** No stored window allows more than the limit. */
  lemma AtMostLimitPerWindow(nows: seq<nat>, limit: nat, start: nat)
    ensures Allowed(nows, limit, start) <= limit
  {
    AllowedAreFirst(nows, limit, start);
  }

  /** The configured limit is cut so that the stored count fits a 32-bit column. */
  lemma HitsFit(nows: seq<nat>, configured: nat)
    requires nows != []
    ensures RowAfter(nows, EffectiveLimit(configured)).value.hits <= 0x7FFF_FFFF
  {
    RowStaysInRange(nows, EffectiveLimit(configured));
  }

  // ------------------------------------------------------------ clock minutes

  /** The window of a time is the clock minute it falls in. */
  lemma WindowIsMinute(t: nat)
    ensures WindowAt(t) <= t < WindowAt(t) + 60 && WindowAt(t) % 60 == 0
  {
  }

  /** Two times share a window exactly when they fall in the same minute. */
  lemma SameMinute(t: nat, u: nat)
    ensures t / 60 == u / 60 <==> WindowAt(t) == WindowAt(u)
    ensures t / 60 < u / 60 <==> WindowAt(t) < WindowAt(u)
  {
  }

  lemma {:induction false} WindowIsLatest(nows: seq<nat>, limit: nat)
    requires nows != []
    ensures exists i :: 0 <= i < |nows| && RowAfter(nows, limit).value.windowStart == WindowAt(nows[i])
    ensures forall i :: 0 <= i < |nows| ==> WindowAt(nows[i]) <= RowAfter(nows, limit).value.windowStart
  {
    var n := |nows| - 1;
    var before := nows[..n];
    if before != [] {
      WindowIsLatest(before, limit);
      var i :| 0 <= i < |before| && RowAfter(before, limit).value.windowStart == WindowAt(before[i]);
      assert before[i] == nows[i];
      assert forall k :: 0 <= k < n ==> nows[k] == before[k];
    } else {
      assert nows == [nows[n]];
    }
    var stored := if before == [] then 0 else RowAfter(before, limit).value.windowStart;
    assert RowAfter(nows, limit).value.windowStart == Max(stored, WindowAt(nows[n]));
  }

  /** A new minute starts afresh: a statement whose minute is past that of every one
      before it counts one, and is allowed whenever the limit is positive. */
  lemma NewMinuteStartsAfresh(nows: seq<nat>, limit: nat)
    requires nows != [] && forall i :: 0 <= i < |nows| - 1 ==> nows[i] / 60 < nows[|nows| - 1] / 60
    ensures RowAfter(nows, limit).value == WindowRow(nows[|nows| - 1] / 60 * 60, 1)
    ensures limit > 0 ==> LastDecision(nows, limit) == Allow
  {
    var n := |nows| - 1;
    var before := nows[..n];
    if before != [] {
      WindowIsLatest(before, limit);
      var i :| 0 <= i < |before| && RowAfter(before, limit).value.windowStart == WindowAt(before[i]);
      assert before[i] == nows[i];
      SameMinute(nows[i], nows[n]);
    }
  }

  /** How many statements fall in a clock minute, and how many of them were allowed. */
  function InMinute(nows: seq<nat>, minute: nat): nat {
    if nows == [] then 0 else InMinute(nows[..|nows| - 1], minute) + if nows[|nows| - 1] / 60 == minute then 1 else 0
  }

  function AllowedInMinute(nows: seq<nat>, limit: nat, minute: nat): nat {
    if nows == [] then 0
    else
      AllowedInMinute(nows[..|nows| - 1], limit, minute)
      + if nows[|nows| - 1] / 60 == minute && LastDecision(nows, limit) == Allow then 1 else 0
  }

  predicate InTime(nows: seq<nat>) {
    forall i, j :: 0 <= i < j < |nows| ==> nows[i] <= nows[j]
  }

  /** With times in order a statement counts into its own minute. */
  lemma {:induction false} OwnMinute(nows: seq<nat>, limit: nat, minute: nat)
    requires InTime(nows)
    ensures nows != [] ==> RowAfter(nows, limit).value.windowStart == nows[|nows| - 1] / 60 * 60
    ensures Counted(nows, limit, minute * 60) == InMinute(nows, minute)
    ensures Allowed(nows, limit, minute * 60) == AllowedInMinute(nows, limit, minute)
  {
    if nows != [] {
      var n := |nows| - 1;
      OwnMinute(nows[..n], limit, minute);
      if n > 0 {
        assert nows[..n][n - 1] == nows[n - 1];
        SameMinute(nows[n - 1], nows[n]);
      }
      assert nows[n] / 60 * 60 == minute * 60 <==> nows[n] / 60 == minute;
    }
  }

  /** With times in order, each clock minute allows exactly the smaller of its statements
      and the limit. */
  lemma EachMinuteAllowsItsLimit(nows: seq<nat>, limit: nat, minute: nat)
    requires InTime(nows)
    ensures AllowedInMinute(nows, limit, minute) == if InMinute(nows, minute) < limit then InMinute(nows, minute) else limit
  {
    OwnMinute(nows, limit, minute);
    AllowedAreFirst(nows, limit, minute * 60);
  }

  /** A refusal names the rest of the stored window by the statement's clock, at least
      one second and at most a window. */
  lemma RefusalNamesTheRest(nows: seq<nat>, limit: nat)
    requires nows != [] && LastDecision(nows, limit) != Allow
    ensures LastDecision(nows, limit).Deny?
    ensures var left, wait := RowAfter(nows, limit).value.windowStart + 60 - nows[|nows| - 1], LastDecision(nows, limit).retryAfter;
            && (1 <= left <= 60 ==> wait == left) && (left < 1 ==> wait == 1) && (left > 60 ==> wait == 60)
    ensures InTime(nows) ==> LastDecision(nows, limit).retryAfter == 60 - nows[|nows| - 1] % 60
  {
    if InTime(nows) { OwnMinute(nows, limit, 0); }
  }

  /** Up to the bound of the stored column the configured limit is the limit. */
  lemma ConfiguredLimitHolds(configured: nat)
    ensures configured <= 0x7FFF_FFFE ==> EffectiveLimit(configured) == configured
    ensures configured > 0x7FFF_FFFE ==> EffectiveLimit(configured) == 0x7FFF_FFFE
  {
  }
}
