/** Change-hint subscriptions: the row, the retry schedule, and the table's operations. */
module Subscriptions {
  import opened Arith
  import opened Tables

  const LEASE_MS := 60_000
  const HINT_MIN_INTERVAL_MS := 1_000
  const RETRY_BASE_MS := 60_000
  const RETRY_CAP_MS := 3_600_000
  const DISABLE_AFTER_MS := 72 * 3_600_000

  datatype SubscriptionStatus = Enabled | Disabled

  datatype Subscription = Subscription(
    owner: string,
    status: SubscriptionStatus,
    lastHinted: nat,
    nextAttempt: int,
    failingSince: Option<int>,
    attempts: nat,
    lease: Option<int>)

  /** Where an attempt leaves a subscription. */
  datatype Progress = Progress(
    lastHinted: nat,
    status: SubscriptionStatus,
    nextAttempt: int,
    failingSince: Option<int>,
    attempts: nat)

  function Healthy(pos: nat, at: int): Progress {
    Progress(pos, Enabled, at, None, 0)
  }

  function DisabledAt(sub: Subscription, now: int): Progress {
    Progress(sub.lastHinted, Disabled, now, Some(sub.failingSince.GetOr(now)), sub.attempts)
  }

  // ----------------------------------------------------------------- schedule

  /** The delay before retry `attempts`, a 64-bit left shift of at most 16 places. */
  function RetryDelay(attempts: nat): int {
    var shift := Min(if attempts == 0 then 0 else attempts - 1, 16);
    Min(RETRY_BASE_MS * Pow2(shift), RETRY_CAP_MS)
  }

  predicate FailedLongEnough(since: int, now: int) {
    now - since >= DISABLE_AFTER_MS
  }

  function RetryOrDisable(sub: Subscription, now: int): Progress {
    var since := sub.failingSince.GetOr(now);
    var attempts := Min(sub.attempts + 1, U32_MAX);
    if FailedLongEnough(since, now) then DisabledAt(sub, now)
    else Progress(sub.lastHinted, Enabled, now + RetryDelay(attempts), Some(since), attempts)
  }

  // ------------------------------------------------------------ row operations

  /** A row a claim may take: enabled, due, not under a live lease, behind the head. */
  predicate Due(s: Subscription, now: int, head: nat) {
    && s.status == Enabled
    && s.nextAttempt <= now
    && (s.lease.None? || s.lease.value < now)
    && s.lastHinted < head
  }

  function Finished(s: Subscription, p: Progress): Subscription {
    s.(lastHinted := p.lastHinted, status := p.status, nextAttempt := p.nextAttempt,
       failingSince := p.failingSince, attempts := p.attempts, lease := None)
  }

  type SubId = string

  function OwnedBy(rows: map<SubId, Subscription>, owner: string): set<SubId> {
    set id | id in rows && rows[id].owner == owner
  }

  // ------------------------------------------------------- the in-memory table

  class SubscriptionTable {
    var rows: map<SubId, Subscription>

    constructor ()
      ensures rows == map[]
    {
      rows := map[];
    }

    /** No owner ever holds more than the limit in force at the create. */
    method Create(id: SubId, owner: string, head: nat, createdAt: int, maxPerOwner: nat) returns (created: bool)
      requires id !in rows
      modifies this
      ensures created <==> |OwnedBy(old(rows), owner)| < maxPerOwner
      ensures rows == if created then old(rows)[id := Subscription(owner, Enabled, head, createdAt, None, 0, None)] else old(rows)
      ensures created ==> |OwnedBy(rows, owner)| <= maxPerOwner
      ensures forall o :: o != owner ==> OwnedBy(rows, o) == OwnedBy(old(rows), o)
    {
      created := |OwnedBy(rows, owner)| < maxPerOwner;
      if created {
        ghost var before := rows;
        rows := rows[id := Subscription(owner, Enabled, head, createdAt, None, 0, None)];
        assert OwnedBy(rows, owner) == OwnedBy(before, owner) + {id};
      }
    }

    /** Lease up to `limit` due rows, the longest due first. */
    method ClaimDue(now: int, head: nat, leaseUntil: int, limit: nat) returns (claimed: seq<SubId>)
      modifies this
      ensures rows.Keys == old(rows).Keys && |claimed| <= limit
      ensures forall id :: id in rows ==>
                rows[id] == if id in claimed then old(rows)[id].(lease := Some(leaseUntil)) else old(rows)[id]
      ensures forall id :: id in claimed ==> id in old(rows) && Due(old(rows)[id], now, head)
      ensures forall id :: id in claimed ==>
                var row := old(rows)[id];
                row.status == Enabled && row.nextAttempt <= now && row.lastHinted < head && (row.lease.None? || row.lease.value < now)
      ensures forall id :: id in rows && id !in claimed && |claimed| < limit ==>
                var row := rows[id];
                row.status == Disabled || row.nextAttempt > now || row.lastHinted >= head || (row.lease.Some? && row.lease.value >= now)
      ensures forall i, j :: 0 <= i < j < |claimed| ==> claimed[i] != claimed[j]
      ensures |claimed| < limit ==> forall id :: id in rows && Due(old(rows)[id], now, head) ==> id in claimed
      ensures forall id, other :: id in claimed && other in rows && Due(old(rows)[other], now, head) && other !in claimed ==>
                old(rows)[id].nextAttempt <= old(rows)[other].nextAttempt
    {
      ghost var before := rows;
      var due := set id | id in rows && Due(rows[id], now, head);
      var left := due;
      claimed := [];
      while left != {} && |claimed| < limit
        invariant left <= due && |claimed| <= limit
        invariant due == set id | id in before && Due(before[id], now, head)
        invariant forall id :: id in due <==> id in left || id in claimed
        invariant forall id :: id in claimed ==> id !in left
        invariant forall i, j :: 0 <= i < j < |claimed| ==> claimed[i] != claimed[j]
        invariant forall id, other :: id in claimed && other in left ==> before[id].nextAttempt <= before[other].nextAttempt
        invariant rows.Keys == before.Keys
        invariant forall id :: id in rows ==>
                    rows[id] == if id in claimed then before[id].(lease := Some(leaseUntil)) else before[id]
        decreases left
      {
        var id := Earliest(left);
        claimed := claimed + [id];
        rows := rows[id := rows[id].(lease := Some(leaseUntil))];
        left := left - {id};
      }
    }

    /** The longest due of a nonempty set of rows. */
    method Earliest(ids: set<SubId>) returns (first: SubId)
      requires ids != {} && ids <= rows.Keys
      ensures first in ids && forall id :: id in ids ==> rows[first].nextAttempt <= rows[id].nextAttempt
    {
      first :| first in ids;
      var left := ids - {first};
      while left != {}
        invariant first in ids && left <= ids
        invariant forall id :: id in ids && id !in left ==> rows[first].nextAttempt <= rows[id].nextAttempt
        decreases left
      {
        var id :| id in left;
        if rows[id].nextAttempt < rows[first].nextAttempt { first := id; }
        left := left - {id};
      }
    }

    /** Write an attempt's outcome and release the lease, if the lease is still the attempt's. */
    method FinishAttempt(id: SubId, lease: int, p: Progress) returns (kept: bool)
      modifies this
      ensures kept <==> id in old(rows) && old(rows)[id].lease == Some(lease)
      ensures rows == if kept then old(rows)[id := Finished(old(rows)[id], p)] else old(rows)
      ensures kept ==>
                var row := rows[id];
                && row.lastHinted == p.lastHinted && row.status == p.status && row.nextAttempt == p.nextAttempt
                && row.failingSince == p.failingSince && row.attempts == p.attempts && row.lease == None && row.owner == old(rows)[id].owner
    {
      kept := id in rows && rows[id].lease == Some(lease);
      if kept { rows := rows[id := Finished(rows[id], p)]; }
    }
  }
}
