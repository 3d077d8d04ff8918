/** Reading a lineage: the listing in version order and the search for its head. */
module LineageReads {
  import opened Tables
  import opened SerialRegistry

  /** What a served context says of itself; retraction dominates supersession,
      supersession dominates expiry. */
  datatype Served = ServedActive | ServedSuperseded | ServedExpired | ServedRetracted

  /** The status of a row read together with `events`, which may have been read later. */
  function Project(row: Context, events: seq<Event>, now: int): Served {
    if row.retracted || RetractionState(events) then ServedRetracted
    else match row.status
      case Superseded => ServedSuperseded
      case Active => if row.expiresAt.Some? && row.expiresAt.value <= now then ServedExpired else ServedActive
  }

  predicate Open(s: Served) {
    s != ServedSuperseded && s != ServedRetracted
  }

  datatype Entry = Entry(id: CtxId, status: Served)

  /** The newest entry that is neither superseded nor retracted. */
  function NewestOpen(rows: seq<Entry>): Option<CtxId> {
    if rows == [] then None
    else if Open(rows[|rows| - 1].status) then Some(rows[|rows| - 1].id)
    else NewestOpen(rows[..|rows| - 1])
  }

  /** `current`: walk the listing from its end. */
  method Current(rows: seq<Entry>) returns (head: Option<CtxId>)
    ensures head == NewestOpen(rows)
  {
    var n := |rows|;
    assert rows[..n] == rows;
    while n > 0
      invariant 0 <= n <= |rows|
      invariant NewestOpen(rows) == NewestOpen(rows[..n])
    {
      assert rows[..n][..n - 1] == rows[..n - 1];
      if Open(rows[n - 1].status) {
        return Some(rows[n - 1].id);
      }
      n := n - 1;
    }
    return None;
  }

  /** The contexts of a lineage, each once, in ascending version order. */
  ghost predicate Lists(contexts: map<CtxId, Context>, l: LineageId, ids: seq<CtxId>) {
    && (forall c :: c in contexts && contexts[c].lineage == l ==> c in ids)
    && (forall i :: 0 <= i < |ids| ==> ids[i] in contexts && contexts[ids[i]].lineage == l)
    && (forall i, j :: 0 <= i < j < |ids| ==> ids[i] != ids[j])
    && (forall i, j :: 0 <= i < j < |ids| ==> contexts[ids[i]].version <= contexts[ids[j]].version)
  }

  /** The rows of `ids` as read in one state, with events read in another. */
  function Entries(rows: map<CtxId, Context>, later: Tables, ids: seq<CtxId>, now: int): seq<Entry>
    requires forall i :: 0 <= i < |ids| ==> ids[i] in rows
  {
    seq(|ids|, i requires 0 <= i < |ids| => Entry(ids[i], Project(rows[ids[i]], EventsOf(later, ids[i]), now)))
  }

  lemma {:induction false} ChainVersions(contexts: map<CtxId, Context>, l: LineageId, chain: seq<CtxId>, k: nat)
    requires ChainOk(contexts, l, chain) && k < |chain|
    ensures contexts[chain[k]].version == contexts[chain[0]].version + k
  {
    if k > 0 {
      ChainVersions(contexts, l, chain, k - 1);
      assert Follows(chain[k - 1], contexts[chain[k - 1]], contexts[chain[k]]);
    }
  }

  /** Two sequences of one chain's contexts: where the first rises in version, its
      k-th element is no earlier than the k-th of the second. */
  lemma {:induction false} NoEarlier(contexts: map<CtxId, Context>, l: LineageId, chain: seq<CtxId>, ids: seq<CtxId>, k: nat)
    returns (p: nat)
    requires ChainOk(contexts, l, chain) && k < |ids|
    requires forall i :: 0 <= i < |ids| ==> ids[i] in chain
    requires forall i, j :: 0 <= i < j < |ids| ==> ids[i] != ids[j] && contexts[ids[i]].version <= contexts[ids[j]].version
    ensures k <= p < |chain| && chain[p] == ids[k]
  {
    p :| 0 <= p < |chain| && chain[p] == ids[k];
    if k > 0 {
      var q := NoEarlier(contexts, l, chain, ids, k - 1);
      ChainVersions(contexts, l, chain, p);
      ChainVersions(contexts, l, chain, q);
      assert contexts[ids[k - 1]].version <= contexts[ids[k]].version;
    }
  }

  lemma {:induction false} ListedAt(contexts: map<CtxId, Context>, l: LineageId, chain: seq<CtxId>, ids: seq<CtxId>, m: nat)
    returns (q: nat)
    requires ChainOk(contexts, l, chain) && Lists(contexts, l, ids) && m < |chain|
    ensures m <= q < |ids| && ids[q] == chain[m]
  {
    assert chain[m] in ids;
    q :| 0 <= q < |ids| && ids[q] == chain[m];
    if m > 0 {
      var r := ListedAt(contexts, l, chain, ids, m - 1);
      ChainVersions(contexts, l, chain, m);
      ChainVersions(contexts, l, chain, m - 1);
      assert r <= q;
    }
  }

  lemma SameAt(contexts: map<CtxId, Context>, l: LineageId, chain: seq<CtxId>, ids: seq<CtxId>, k: nat)
    requires ChainOk(contexts, l, chain) && Lists(contexts, l, ids) && k < |ids|
    requires forall c :: c in contexts && contexts[c].lineage == l ==> c in chain
    ensures k < |chain| && ids[k] == chain[k]
  {
    var p := NoEarlier(contexts, l, chain, ids, k);
    var q := ListedAt(contexts, l, chain, ids, p);
    assert ids[q] == ids[k];
    assert q == k;
  }

  /** The listing of a lineage is its successor chain. */
  lemma ListingIsChain(contexts: map<CtxId, Context>, l: LineageId, chain: seq<CtxId>, ids: seq<CtxId>)
    requires ChainOk(contexts, l, chain) && Lists(contexts, l, ids)
    requires forall c :: c in contexts && contexts[c].lineage == l ==> c in chain
    ensures ids == chain
  {
    forall k | 0 <= k < |ids|
      ensures k < |chain| && ids[k] == chain[k]
    {
      SameAt(contexts, l, chain, ids, k);
    }
    if |ids| > 0 { SameAt(contexts, l, chain, ids, |ids| - 1); }
    if |ids| < |chain| { var _ := ListedAt(contexts, l, chain, ids, |ids|); }
  }

  /** Everything before the tip is superseded, so the head is the tip or nothing. */
  lemma {:induction false} HeadIsTip(rows: seq<Entry>)
    requires |rows| > 0
    requires forall i :: 0 <= i < |rows| - 1 ==> !Open(rows[i].status)
    ensures NewestOpen(rows) == if Open(rows[|rows| - 1].status) then Some(rows[|rows| - 1].id) else None
  {
    AllClosed(rows[..|rows| - 1]);
  }

  lemma {:induction false} AllClosed(rows: seq<Entry>)
    requires forall i :: 0 <= i < |rows| ==> !Open(rows[i].status)
    ensures NewestOpen(rows) == None
  {
    if rows != [] { AllClosed(rows[..|rows| - 1]); }
  }
}
