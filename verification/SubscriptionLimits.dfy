/** Creating subscriptions in the database: any number of transactions at once, each
    taking its owner's advisory lock, counting the owner's committed rows, inserting and
    committing, or giving up at any point. `slot` maps an owner to the lock it takes;
    owners may share one. */
module SubscriptionLimits {
  import opened Subscriptions

  type Tx = nat

  datatype CreatePc = Opening | Locked | Counted | Answered(created: bool) | GivenUp

  datatype Creation = Creation(owner: string, id: SubId, row: Subscription, pc: CreatePc)

  datatype Board = Board(rows: map<SubId, Subscription>, locks: map<int, Tx>, creations: map<Tx, Creation>)

  datatype BoardStep =
    | Open(tx: Tx, owner: string, id: SubId, row: Subscription)
    | Lock(tx: Tx)
    | Count(tx: Tx)
    | Commit(tx: Tx)
    | GiveUp(tx: Tx)
    | Remove(id: SubId)
    | Update(id: SubId, row: Subscription)

  function Unlocked(locks: map<int, Tx>, tx: Tx): map<int, Tx> {
    map k | k in locks && locks[k] != tx :: locks[k]
  }

  function At(b: Board, tx: Tx, pc: CreatePc): Board
    requires tx in b.creations
  {
    b.(creations := b.creations[tx := b.creations[tx].(pc := pc)])
  }

  /** Ids are random: one drawn for a new creation is neither stored nor under way. A
      refusal and a failure both roll back, releasing the lock. */
  predicate BoardTakes(slot: string -> int, max: nat, b: Board, step: BoardStep, b': Board) {
    match step
    case Open(tx, owner, id, row) =>
      && tx !in b.creations && id !in b.rows && row.owner == owner
      && (forall u :: u in b.creations ==> b.creations[u].id != id)
      && b' == b.(creations := b.creations[tx := Creation(owner, id, row, Opening)])
    case Lock(tx) =>
      && tx in b.creations && b.creations[tx].pc == Opening && slot(b.creations[tx].owner) !in b.locks
      && b' == At(b, tx, Locked).(locks := b.locks[slot(b.creations[tx].owner) := tx])
    case Count(tx) =>
      && tx in b.creations && b.creations[tx].pc == Locked
      && b' == if |OwnedBy(b.rows, b.creations[tx].owner)| >= max
               then At(b, tx, Answered(false)).(locks := Unlocked(b.locks, tx)) else At(b, tx, Counted)
    case Commit(tx) =>
      && tx in b.creations && b.creations[tx].pc == Counted
      && b' == At(b, tx, Answered(true)).(locks := Unlocked(b.locks, tx),
                                          rows := b.rows[b.creations[tx].id := b.creations[tx].row])
    case GiveUp(tx) =>
      && tx in b.creations && !b.creations[tx].pc.Answered?
      && b' == At(b, tx, GivenUp).(locks := Unlocked(b.locks, tx))
    case Remove(id) => b' == b.(rows := b.rows - {id})
    case Update(id, row) =>
      id in b.rows && row.owner == b.rows[id].owner && b' == b.(rows := b.rows[id := row])
  }

  ghost predicate BoardRun(slot: string -> int, max: nat, boards: seq<Board>, steps: seq<BoardStep>) {
    && |boards| == |steps| + 1 && boards[0] == Board(map[], map[], map[])
    && forall i {:trigger steps[i]} :: 0 <= i < |steps| ==> BoardTakes(slot, max, boards[i], steps[i], boards[i + 1])
  }

  // --------------------------------------------------------------- invariants

  predicate InSection(c: Creation) {
    c.pc == Locked || c.pc == Counted
  }

  ghost predicate Within(max: nat, rows: map<SubId, Subscription>) {
    forall o :: |OwnedBy(rows, o)| <= max
  }

  /** One transaction per lock. */
  ghost predicate Guarded(slot: string -> int, locks: map<int, Tx>, creations: map<Tx, Creation>) {
    forall t :: t in creations && InSection(creations[t]) ==>
      slot(creations[t].owner) in locks && locks[slot(creations[t].owner)] == t
  }

  /** One that has counted still finds room. */
  ghost predicate Roomy(max: nat, rows: map<SubId, Subscription>, creations: map<Tx, Creation>) {
    forall t :: t in creations && creations[t].pc == Counted ==> |OwnedBy(rows, creations[t].owner)| < max
  }

  /** What is under way is not yet stored, and goes under distinct ids. */
  ghost predicate Separate(rows: map<SubId, Subscription>, creations: map<Tx, Creation>) {
    && (forall t :: t in creations ==> creations[t].row.owner == creations[t].owner)
    && (forall t :: t in creations && InSection(creations[t]) ==> creations[t].id !in rows)
    && (forall t, u :: t in creations && u in creations && t != u ==> creations[t].id != creations[u].id)
    && (forall t :: t in creations && creations[t].pc == Opening ==> creations[t].id !in rows)
  }

  ghost predicate BoardOk(slot: string -> int, max: nat, b: Board) {
    && Within(max, b.rows) && Guarded(slot, b.locks, b.creations)
    && Roomy(max, b.rows, b.creations) && Separate(b.rows, b.creations)
  }

  lemma OwnedGrows(rows: map<SubId, Subscription>, id: SubId, row: Subscription, o: string)
    requires id !in rows
    ensures |OwnedBy(rows[id := row], o)| == |OwnedBy(rows, o)| + if row.owner == o then 1 else 0
  {
    var rows' := rows[id := row];
    if row.owner == o {
      assert OwnedBy(rows', o) == OwnedBy(rows, o) + {id};
    } else {
      assert OwnedBy(rows', o) == OwnedBy(rows, o);
    }
  }

  lemma OwnedShrinks(rows: map<SubId, Subscription>, id: SubId, o: string)
    ensures |OwnedBy(rows - {id}, o)| <= |OwnedBy(rows, o)|
  {
    var less, all := OwnedBy(rows - {id}, o), OwnedBy(rows, o);
    assert all == less + (all - less);
    assert |all| == |less| + |all - less|;
  }

  lemma OwnedUpdated(rows: map<SubId, Subscription>, id: SubId, row: Subscription, o: string)
    requires id in rows && row.owner == rows[id].owner
    ensures OwnedBy(rows[id := row], o) == OwnedBy(rows, o)
  {
  }

  /** Ending a transaction leaves the others' locks. */
  lemma EndGuards(slot: string -> int, locks: map<int, Tx>, creations: map<Tx, Creation>, tx: Tx, pc: CreatePc)
    requires Guarded(slot, locks, creations) && tx in creations && !InSection(creations[tx].(pc := pc))
    ensures Guarded(slot, Unlocked(locks, tx), creations[tx := creations[tx].(pc := pc)])
  {
  }

  lemma EndSeparates(rows: map<SubId, Subscription>, creations: map<Tx, Creation>, tx: Tx, pc: CreatePc)
    requires Separate(rows, creations) && tx in creations
    requires pc == Opening || InSection(creations[tx].(pc := pc)) ==> creations[tx].id !in rows
    ensures Separate(rows, creations[tx := creations[tx].(pc := pc)])
  {
  }

  /** The lock keeps everyone else of this owner out of the section. */
  lemma CommitRooms(slot: string -> int, max: nat, b: Board, tx: Tx, b': Board)
    requires BoardOk(slot, max, b) && BoardTakes(slot, max, b, Commit(tx), b')
    ensures Within(max, b'.rows) && Roomy(max, b'.rows, b'.creations)
  {
    var c := b.creations[tx];
    forall o
      ensures |OwnedBy(b'.rows, o)| == |OwnedBy(b.rows, o)| + if c.owner == o then 1 else 0
    {
      OwnedGrows(b.rows, c.id, c.row, o);
    }
    forall t | t in b'.creations && b'.creations[t].pc == Counted
      ensures |OwnedBy(b'.rows, b'.creations[t].owner)| < max
    {
      assert t != tx && b'.creations[t] == b.creations[t];
      assert b.creations[t].owner != c.owner;
    }
  }

  lemma CommitKeeps(slot: string -> int, max: nat, b: Board, tx: Tx, b': Board)
    requires BoardOk(slot, max, b) && BoardTakes(slot, max, b, Commit(tx), b')
    ensures BoardOk(slot, max, b')
  {
    CommitRooms(slot, max, b, tx, b');
    EndGuards(slot, b.locks, b.creations, tx, Answered(true));
    EndSeparates(b.rows, b.creations, tx, Answered(true));
  }

  lemma RowsKeep(slot: string -> int, max: nat, b: Board, step: BoardStep, b': Board)
    requires BoardOk(slot, max, b) && BoardTakes(slot, max, b, step, b') && (step.Remove? || step.Update?)
    ensures BoardOk(slot, max, b')
  {
    forall o
      ensures |OwnedBy(b'.rows, o)| <= |OwnedBy(b.rows, o)|
    {
      match step {
        case Remove(id) => OwnedShrinks(b.rows, id, o);
        case Update(id, row) => OwnedUpdated(b.rows, id, row, o);
      }
    }
  }

  lemma OpenKeeps(slot: string -> int, max: nat, b: Board, step: BoardStep, b': Board)
    requires BoardOk(slot, max, b) && BoardTakes(slot, max, b, step, b') && step.Open?
    ensures BoardOk(slot, max, b')
  {
  }

  lemma LockKeeps(slot: string -> int, max: nat, b: Board, tx: Tx, b': Board)
    requires BoardOk(slot, max, b) && BoardTakes(slot, max, b, Lock(tx), b')
    ensures BoardOk(slot, max, b')
  {
    EndSeparates(b.rows, b.creations, tx, Locked);
  }

  lemma CountKeeps(slot: string -> int, max: nat, b: Board, tx: Tx, b': Board)
    requires BoardOk(slot, max, b) && BoardTakes(slot, max, b, Count(tx), b')
    ensures BoardOk(slot, max, b')
  {
    var pc := b'.creations[tx].pc;
    EndSeparates(b.rows, b.creations, tx, pc);
    if pc != Counted { EndGuards(slot, b.locks, b.creations, tx, pc); }
  }

  lemma GiveUpKeeps(slot: string -> int, max: nat, b: Board, tx: Tx, b': Board)
    requires BoardOk(slot, max, b) && BoardTakes(slot, max, b, GiveUp(tx), b')
    ensures BoardOk(slot, max, b')
  {
    EndSeparates(b.rows, b.creations, tx, GivenUp);
    EndGuards(slot, b.locks, b.creations, tx, GivenUp);
  }

  lemma {:induction false} BoardRunOk(slot: string -> int, max: nat, boards: seq<Board>, steps: seq<BoardStep>, k: nat)
    requires BoardRun(slot, max, boards, steps) && k < |boards|
    ensures BoardOk(slot, max, boards[k])
  {
    if k > 0 {
      BoardRunOk(slot, max, boards, steps, k - 1);
      var b, step, b' := boards[k - 1], steps[k - 1], boards[k];
      match step {
        case Commit(tx) => CommitKeeps(slot, max, b, tx, b');
        case Remove(_) => RowsKeep(slot, max, b, step, b');
        case Update(_, _) => RowsKeep(slot, max, b, step, b');
        case Open(_, _, _, _) => OpenKeeps(slot, max, b, step, b');
        case Lock(tx) => LockKeeps(slot, max, b, tx, b');
        case Count(tx) => CountKeeps(slot, max, b, tx, b');
        case GiveUp(tx) => GiveUpKeeps(slot, max, b, tx, b');
      }
    } else {
      assert forall o :: OwnedBy(boards[0].rows, o) == {};
    }
  }

  /** However creations, removals and updates interleave, no owner ever holds more
      subscriptions than the limit, and a creation is refused only when its owner
      holds that many. */
  lemma NeverOverLimit(slot: string -> int, max: nat, boards: seq<Board>, steps: seq<BoardStep>, k: nat, owner: string)
    requires BoardRun(slot, max, boards, steps) && k < |boards|
    ensures |OwnedBy(boards[k].rows, owner)| <= max
    ensures k < |steps| && steps[k].Count? && boards[k + 1].creations[steps[k].tx].pc == Answered(false) ==>
              |OwnedBy(boards[k].rows, boards[k].creations[steps[k].tx].owner)| == max
  {
    BoardRunOk(slot, max, boards, steps, k);
    assert |OwnedBy(boards[k].rows, owner)| <= max;
  }

  // ------------------------------------------------------- what becomes of one

  lemma {:induction false} CreationKept(slot: string -> int, max: nat, boards: seq<Board>, steps: seq<BoardStep>, r: nat, k: nat)
    requires BoardRun(slot, max, boards, steps) && r < k < |boards| && steps[r].Open?
    ensures steps[r].tx in boards[k].creations
    ensures var c := boards[k].creations[steps[r].tx]; c.owner == steps[r].owner && c.id == steps[r].id && c.row == steps[r].row
    decreases k
  {
    assert BoardTakes(slot, max, boards[r], steps[r], boards[r + 1]);
    if r + 1 < k {
      CreationKept(slot, max, boards, steps, r, k - 1);
      assert BoardTakes(slot, max, boards[k - 1], steps[k - 1], boards[k]);
    }
  }

  /** A creation opened at step `r` is refused, when it counts, exactly if its owner then
      holds the limit. */
  lemma CountDecides(slot: string -> int, max: nat, boards: seq<Board>, steps: seq<BoardStep>, r: nat, k: nat)
    requires BoardRun(slot, max, boards, steps) && r < k < |steps| && steps[r].Open? && steps[k] == Count(steps[r].tx)
    ensures steps[r].tx in boards[k + 1].creations && boards[k + 1].rows == boards[k].rows
    ensures boards[k + 1].creations[steps[r].tx].pc
         == if |OwnedBy(boards[k].rows, steps[r].owner)| == max then Answered(false) else Counted
  {
    CreationKept(slot, max, boards, steps, r, k);
    NeverOverLimit(slot, max, boards, steps, k, steps[r].owner);
    assert BoardTakes(slot, max, boards[k], steps[k], boards[k + 1]);
  }

  /** One that commits adds the row it was opened with, under its id, and no other. */
  lemma CommitStores(slot: string -> int, max: nat, boards: seq<Board>, steps: seq<BoardStep>, r: nat, k: nat)
    requires BoardRun(slot, max, boards, steps) && r < k < |steps| && steps[r].Open? && steps[k] == Commit(steps[r].tx)
    ensures steps[r].id !in boards[k].rows && boards[k + 1].rows == boards[k].rows[steps[r].id := steps[r].row]
    ensures steps[r].tx in boards[k + 1].creations && boards[k + 1].creations[steps[r].tx].pc == Answered(true)
  {
    CreationKept(slot, max, boards, steps, r, k);
    BoardRunOk(slot, max, boards, steps, k);
    assert BoardTakes(slot, max, boards[k], steps[k], boards[k + 1]);
  }

  lemma OneMoreStep(slot: string -> int, max: nat, boards: seq<Board>, steps: seq<BoardStep>, step: BoardStep, b: Board)
    requires BoardRun(slot, max, boards, steps) && BoardTakes(slot, max, boards[|steps|], step, b)
    ensures BoardRun(slot, max, boards + [b], steps + [step])
  {
  }

  /** Whenever an owner's lock is free and it holds less than the limit, a creation can
      open, lock, count and commit. */
  lemma RoomCanBeTaken(slot: string -> int, max: nat, boards: seq<Board>, steps: seq<BoardStep>,
                       tx: Tx, owner: string, id: SubId, row: Subscription) returns (boards': seq<Board>)
    requires BoardRun(slot, max, boards, steps) && row.owner == owner
    requires var b := boards[|steps|];
             tx !in b.creations && id !in b.rows && forall u :: u in b.creations ==> b.creations[u].id != id
    requires slot(owner) !in boards[|steps|].locks && |OwnedBy(boards[|steps|].rows, owner)| < max
    ensures BoardRun(slot, max, boards', steps + [Open(tx, owner, id, row)] + [Lock(tx)] + [Count(tx)] + [Commit(tx)])
    ensures boards'[|steps| + 4].rows == boards[|steps|].rows[id := row]
  {
    var b := boards[|steps|];
    var b1 := b.(creations := b.creations[tx := Creation(owner, id, row, Opening)]);
    var b2 := At(b1, tx, Locked).(locks := b1.locks[slot(owner) := tx]);
    var b3 := At(b2, tx, Counted);
    var b4 := At(b3, tx, Answered(true)).(locks := Unlocked(b3.locks, tx), rows := b3.rows[id := row]);
    var s1 := steps + [Open(tx, owner, id, row)];
    OneMoreStep(slot, max, boards, steps, Open(tx, owner, id, row), b1);
    OneMoreStep(slot, max, boards + [b1], s1, Lock(tx), b2);
    OneMoreStep(slot, max, boards + [b1] + [b2], s1 + [Lock(tx)], Count(tx), b3);
    OneMoreStep(slot, max, boards + [b1] + [b2] + [b3], s1 + [Lock(tx)] + [Count(tx)], Commit(tx), b4);
    boards' := boards + [b1] + [b2] + [b3] + [b4];
  }
}
