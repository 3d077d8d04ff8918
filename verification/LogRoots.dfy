/** Roots of the transparency log: the cached head root, the checkpoints served, and the
    witness cosignatures stored, while the log grows. Sizes and leaves are read in
    separate statements. The Merkle root is a function of the leaves, given as a parameter. */
module LogRoots {
  import opened Tables
  import opened Transactions
  import opened Executions
  import opened RegistryTheorems

  type Leaf = CtxId
  type Root = string

  /** A root claimed for the first `size` leaves. */
  datatype Head = Head(size: nat, root: Root)

  // --------------------------------------------------------------- the cache

  function Lookup(cache: Option<Head>, size: nat): Option<Root> {
    if cache.Some? && cache.value.size == size then Some(cache.value.root) else None
  }

  /** The cache after an offer: only a strictly larger size withstands it. */
  function Newest(cache: Option<Head>, offer: Head): Option<Head> {
    if cache.Some? && cache.value.size > offer.size then cache else Some(offer)
  }

  /** The cache after a sequence of offers. */
  function CacheAfter(offers: seq<Head>): Option<Head> {
    if offers == [] then None else Newest(CacheAfter(offers[..|offers| - 1]), offers[|offers| - 1])
  }

  /** The last of the offers of the largest size. */
  predicate LastOfLargest(offers: seq<Head>, k: nat)
    requires k < |offers|
  {
    && (forall i :: 0 <= i < k ==> offers[i].size <= offers[k].size)
    && (forall i :: k < i < |offers| ==> offers[i].size < offers[k].size)
  }

  /** Whatever was offered, in whatever order, the root of a size is served exactly when
      no larger size was offered, and it is the one offered last for that size. */
  lemma {:induction false} CacheServesLargest(offers: seq<Head>, k: nat, size: nat)
    requires k < |offers| && LastOfLargest(offers, k)
    ensures Lookup(CacheAfter(offers), size) == if size == offers[k].size then Some(offers[k].root) else None
    ensures CacheAfter(offers) == Some(offers[k])
  {
    var n := |offers| - 1;
    if k < n {
      CacheServesLargest(offers[..n], k, size);
    } else if n > 0 {
      var j := Largest(offers[..n]);
      CacheServesLargest(offers[..n], j, size);
    }
  }

  lemma {:induction false} Largest(offers: seq<Head>) returns (k: nat)
    requires offers != []
    ensures k < |offers| && LastOfLargest(offers, k)
  {
    var n := |offers| - 1;
    if n == 0 { return 0; }
    k := Largest(offers[..n]);
    if offers[n].size >= offers[k].size { k := n; }
  }

  class LogState {
    var rootCache: Option<Head>

    constructor ()
      ensures rootCache == None
    {
      rootCache := None;
    }

    method CachedRoot(size: nat) returns (root: Option<Root>)
      ensures root == Lookup(rootCache, size)
    {
      match rootCache {
        case Some(head) => return if head.size == size then Some(head.root) else None;
        case None => return None;
      }
    }

    method CacheRoot(size: nat, root: Root)
      modifies this
      ensures rootCache == Newest(old(rootCache), Head(size, root))
      ensures rootCache.Some? && size <= rootCache.value.size
      ensures old(rootCache).Some? ==> old(rootCache).value.size <= rootCache.value.size
    {
      match rootCache {
        case Some(head) => if head.size <= size { rootCache := Some(Head(size, root)); }
        case None => rootCache := Some(Head(size, root));
      }
    }
  }

  // -------------------------------------------------------------- the machine

  /** A request for a root, or a cosignature under verification. */
  datatype Task =
    | Serving(size: nat, current: nat)
    | Loaded(size: nat, current: nat, leaves: seq<Leaf>)
    | Computed(head: Head, current: nat)
    | Answered(head: Head)
    | Checking(claim: Head, cosigner: string)
    | InRange(claim: Head, cosigner: string)
    | Confirmed(claim: Head, cosigner: string)
    | Closed

  datatype Cosignature = Cosignature(head: Head, cosigner: string)

  datatype Log = Log(
    leaves: seq<Leaf>,
    cache: Option<Head>,
    cosignatures: set<Cosignature>,
    tasks: map<nat, Task>)

  datatype LogStep =
    | Grow(leaves: seq<Leaf>)
    | Restart
    | Ask(task: nat, size: nat)
    | Hit(task: nat)
    | LoadLeaves(task: nat)
    | Compute(task: nat)
    | Offer(task: nat)
    | Receive(task: nat, claim: Head, cosigner: string)
    | CompareSize(task: nat)
    | CompareRoot(task: nat)
    | Store(task: nat)
    | Drop(task: nat)

  function Now(l: Log, task: nat, t: Task): Log {
    l.(tasks := l.tasks[task := t])
  }

  predicate Is(l: Log, task: nat) {
    task in l.tasks
  }

  /** Serving a root: the size is read, then the cache tried, then the leaves loaded. */
  predicate ServeStep(root: seq<Leaf> -> Root, l: Log, step: LogStep, l': Log) {
    match step
    case Ask(i, size) => i !in l.tasks && size <= |l.leaves| && l' == Now(l, i, Serving(size, |l.leaves|))
    case Hit(i) =>
      && Is(l, i) && var t := l.tasks[i];
      && (t.Serving? || t.Loaded?) && Lookup(l.cache, t.size).Some?
      && l' == Now(l, i, Answered(Head(t.size, Lookup(l.cache, t.size).value)))
    case LoadLeaves(i) =>
      && Is(l, i) && var t := l.tasks[i];
      && t.Serving? && t.size <= |l.leaves| && l' == Now(l, i, Loaded(t.size, t.current, l.leaves[..t.size]))
    case Compute(i) =>
      && Is(l, i) && var t := l.tasks[i];
      && t.Loaded? && l' == Now(l, i, Computed(Head(t.size, root(t.leaves)), t.current))
    case Offer(i) =>
      && Is(l, i) && var t := l.tasks[i];
      && t.Computed?
      && l' == Now(l, i, Answered(t.head)).(cache := if t.head.size == t.current then Newest(l.cache, t.head) else l.cache)
    case _ => false
  }

  /** Verifying a cosignature against the log, then storing it. */
  predicate WitnessStep(root: seq<Leaf> -> Root, l: Log, step: LogStep, l': Log) {
    match step
    case Receive(i, claim, cosigner) => i !in l.tasks && l' == Now(l, i, Checking(claim, cosigner))
    case CompareSize(i) =>
      && Is(l, i) && var t := l.tasks[i];
      && t.Checking? && l' == Now(l, i, if t.claim.size > |l.leaves| then Closed else InRange(t.claim, t.cosigner))
    case CompareRoot(i) =>
      && Is(l, i) && var t := l.tasks[i];
      && t.InRange? && t.claim.size <= |l.leaves|
      && l' == Now(l, i, if root(l.leaves[..t.claim.size]) != t.claim.root then Closed else Confirmed(t.claim, t.cosigner))
    case Store(i) =>
      && Is(l, i) && var t := l.tasks[i];
      && t.Confirmed? && l' == Now(l, i, Closed).(cosignatures := l.cosignatures + {Cosignature(t.claim, t.cosigner)})
    case _ => false
  }

  /** One step. A verification may also fail for reasons of its own: `Drop`. */
  predicate LogTakes(root: seq<Leaf> -> Root, l: Log, step: LogStep, l': Log) {
    match step
    case Grow(leaves) => l.leaves <= leaves && l' == l.(leaves := leaves)
    case Restart => l' == l.(cache := None, tasks := map[])
    case Drop(i) => Is(l, i) && l' == Now(l, i, Closed)
    case _ => ServeStep(root, l, step, l') || WitnessStep(root, l, step, l')
  }

  ghost predicate LogRun(root: seq<Leaf> -> Root, logs: seq<Log>, steps: seq<LogStep>) {
    && |logs| == |steps| + 1 && logs[0] == Log([], None, {}, map[])
    && forall i {:trigger steps[i]} :: 0 <= i < |steps| ==> LogTakes(root, logs[i], steps[i], logs[i + 1])
  }

  // --------------------------------------------------------------- invariants

  /** The root of the first `size` leaves, which the log already has. */
  predicate TrueHead(root: seq<Leaf> -> Root, leaves: seq<Leaf>, h: Head) {
    h.size <= |leaves| && h.root == root(leaves[..h.size])
  }

  predicate TaskOk(root: seq<Leaf> -> Root, leaves: seq<Leaf>, t: Task) {
    match t
    case Serving(size, current) => size <= |leaves|
    case Loaded(size, current, loaded) => size <= |leaves| && loaded == leaves[..size]
    case Computed(head, current) => TrueHead(root, leaves, head)
    case Answered(head) => TrueHead(root, leaves, head)
    case InRange(claim, _) => claim.size <= |leaves|
    case Confirmed(claim, _) => TrueHead(root, leaves, claim)
    case _ => true
  }

  predicate LogOk(root: seq<Leaf> -> Root, l: Log) {
    && (l.cache.Some? ==> TrueHead(root, l.leaves, l.cache.value))
    && (forall c :: c in l.cosignatures ==> TrueHead(root, l.leaves, c.head))
    && (forall i :: i in l.tasks ==> TaskOk(root, l.leaves, l.tasks[i]))
  }

  lemma HeadStays(root: seq<Leaf> -> Root, leaves: seq<Leaf>, leaves': seq<Leaf>, h: Head)
    requires leaves <= leaves' && TrueHead(root, leaves, h)
    ensures TrueHead(root, leaves', h)
  {
    assert leaves'[..h.size] == leaves[..h.size];
  }

  lemma TaskStays(root: seq<Leaf> -> Root, leaves: seq<Leaf>, leaves': seq<Leaf>, t: Task)
    requires leaves <= leaves' && TaskOk(root, leaves, t)
    ensures TaskOk(root, leaves', t)
  {
    match t {
      case Loaded(size, _, _) => assert leaves'[..size] == leaves[..size];
      case Computed(head, _) => HeadStays(root, leaves, leaves', head);
      case Answered(head) => HeadStays(root, leaves, leaves', head);
      case Confirmed(claim, _) => HeadStays(root, leaves, leaves', claim);
      case _ =>
    }
  }

  lemma GrowKeeps(root: seq<Leaf> -> Root, l: Log, leaves: seq<Leaf>)
    requires LogOk(root, l) && l.leaves <= leaves
    ensures LogOk(root, l.(leaves := leaves))
  {
    if l.cache.Some? { HeadStays(root, l.leaves, leaves, l.cache.value); }
    forall c | c in l.cosignatures
      ensures TrueHead(root, leaves, c.head)
    {
      HeadStays(root, l.leaves, leaves, c.head);
    }
    forall i | i in l.tasks
      ensures TaskOk(root, leaves, l.tasks[i])
    {
      TaskStays(root, l.leaves, leaves, l.tasks[i]);
    }
  }

  lemma ServeKeeps(root: seq<Leaf> -> Root, l: Log, step: LogStep, l': Log)
    requires LogOk(root, l) && ServeStep(root, l, step, l')
    ensures LogOk(root, l')
  {
    if !step.Ask? { assert TaskOk(root, l.leaves, l.tasks[step.task]); }
  }

  lemma WitnessKeeps(root: seq<Leaf> -> Root, l: Log, step: LogStep, l': Log)
    requires LogOk(root, l) && WitnessStep(root, l, step, l')
    ensures LogOk(root, l')
  {
    if !step.Receive? { assert TaskOk(root, l.leaves, l.tasks[step.task]); }
  }

  lemma LogTakesKeeps(root: seq<Leaf> -> Root, l: Log, step: LogStep, l': Log)
    requires LogOk(root, l) && LogTakes(root, l, step, l')
    ensures LogOk(root, l') && l.leaves <= l'.leaves && l.cosignatures <= l'.cosignatures
  {
    match step {
      case Grow(leaves) => GrowKeeps(root, l, leaves);
      case Restart =>
      case Drop(_) =>
      case _ => if ServeStep(root, l, step, l') { ServeKeeps(root, l, step, l'); } else { WitnessKeeps(root, l, step, l'); }
    }
  }

  // ----------------------------------------------------------------- theorems

  lemma {:induction false} LogRunOk(root: seq<Leaf> -> Root, logs: seq<Log>, steps: seq<LogStep>, k: nat)
    requires LogRun(root, logs, steps) && k < |logs|
    ensures LogOk(root, logs[k])
  {
    if k > 0 {
      LogRunOk(root, logs, steps, k - 1);
      LogTakesKeeps(root, logs[k - 1], steps[k - 1], logs[k]);
    }
  }

  lemma {:induction false} LogRunGrows(root: seq<Leaf> -> Root, logs: seq<Log>, steps: seq<LogStep>, k: nat, m: nat)
    requires LogRun(root, logs, steps) && k <= m < |logs|
    ensures logs[k].leaves <= logs[m].leaves && logs[k].cosignatures <= logs[m].cosignatures
    decreases m
  {
    if k < m {
      LogRunGrows(root, logs, steps, k, m - 1);
      LogRunOk(root, logs, steps, m - 1);
      LogTakesKeeps(root, logs[m - 1], steps[m - 1], logs[m]);
    }
  }

  /** Held by the registry at some point: cached, stored as cosigned, or answered. */
  predicate Vouched(l: Log, h: Head) {
    || l.cache == Some(h)
    || (exists c :: c in l.cosignatures && c.head == h)
    || (exists i :: i in l.tasks && l.tasks[i] == Answered(h))
  }

  /** Roots stay true as the log grows: whatever head the registry ever cached, served
      or stored a cosignature for is the root of that many leaves of the log, then and
      at every later point. */
  lemma RootsStayTrue(root: seq<Leaf> -> Root, logs: seq<Log>, steps: seq<LogStep>, k: nat, m: nat, h: Head)
    requires LogRun(root, logs, steps) && k <= m < |logs| && Vouched(logs[k], h)
    ensures h.size <= |logs[k].leaves| <= |logs[m].leaves| && h.root == root(logs[m].leaves[..h.size])
  {
    LogRunOk(root, logs, steps, k);
    LogRunGrows(root, logs, steps, k, m);
    if exists i :: i in logs[k].tasks && logs[k].tasks[i] == Answered(h) {
      var i :| i in logs[k].tasks && logs[k].tasks[i] == Answered(h);
      assert TaskOk(root, logs[k].leaves, logs[k].tasks[i]);
    }
    HeadStays(root, logs[k].leaves, logs[m].leaves, h);
  }

  /** No two heads the registry ever vouched for disagree at one size. */
  lemma NoTwoRootsForOneSize(root: seq<Leaf> -> Root, logs: seq<Log>, steps: seq<LogStep>, k: nat, m: nat, h: Head, h': Head)
    requires LogRun(root, logs, steps) && k < |logs| && m < |logs|
    requires Vouched(logs[k], h) && Vouched(logs[m], h') && h.size == h'.size
    ensures h == h'
  {
    var last := |logs| - 1;
    RootsStayTrue(root, logs, steps, k, last, h);
    RootsStayTrue(root, logs, steps, m, last, h');
  }

  // --------------------------------------------------- what becomes of a task

  predicate Touches(step: LogStep, task: nat) {
    step.Restart? || (!step.Grow? && step.task == task)
  }

  /** No step from `lo` up to `hi` concerns this one. */
  predicate LeftAlone(steps: seq<LogStep>, task: nat, lo: nat, hi: nat)
    requires hi <= |steps|
  {
    forall k :: lo <= k < hi ==> !Touches(steps[k], task)
  }

  lemma {:induction false} TaskWaits(root: seq<Leaf> -> Root, logs: seq<Log>, steps: seq<LogStep>, task: nat, lo: nat, hi: nat)
    requires LogRun(root, logs, steps) && lo <= hi <= |steps| && LeftAlone(steps, task, lo, hi) && task in logs[lo].tasks
    ensures task in logs[hi].tasks && logs[hi].tasks[task] == logs[lo].tasks[task] && logs[lo].leaves <= logs[hi].leaves
    decreases hi
  {
    LogRunGrows(root, logs, steps, lo, hi);
    if lo < hi {
      TaskWaits(root, logs, steps, task, lo, hi - 1);
      assert !Touches(steps[hi - 1], task) && LogTakes(root, logs[hi - 1], steps[hi - 1], logs[hi]);
    }
  }

  /** A cosignature received at step `r` is in range exactly when the log, by the time its
      size is compared, has that many leaves; otherwise it is turned away. */
  lemma SizeDecides(root: seq<Leaf> -> Root, logs: seq<Log>, steps: seq<LogStep>, r: nat, a: nat)
    requires LogRun(root, logs, steps) && r < a < |steps| && steps[r].Receive?
    requires LeftAlone(steps, steps[r].task, r + 1, a) && steps[a] == CompareSize(steps[r].task)
    ensures var i, claim := steps[r].task, steps[r].claim;
            && i in logs[a + 1].tasks
            && logs[a + 1].tasks[i] == if claim.size <= |logs[a].leaves| then InRange(claim, steps[r].cosigner) else Closed
  {
    assert LogTakes(root, logs[r], steps[r], logs[r + 1]);
    TaskWaits(root, logs, steps, steps[r].task, r + 1, a);
    assert LogTakes(root, logs[a], steps[a], logs[a + 1]);
  }

  /** And one in range is confirmed exactly when its root is that of as many leaves. */
  lemma RootDecides(root: seq<Leaf> -> Root, logs: seq<Log>, steps: seq<LogStep>, r: nat, a: nat, b: nat)
    requires LogRun(root, logs, steps) && r < a < b < |steps| && steps[r].Receive?
    requires LeftAlone(steps, steps[r].task, r + 1, a) && steps[a] == CompareSize(steps[r].task)
    requires LeftAlone(steps, steps[r].task, a + 1, b) && steps[b] == CompareRoot(steps[r].task)
    ensures var i, claim := steps[r].task, steps[r].claim;
            && claim.size <= |logs[a].leaves| && i in logs[b + 1].tasks
            && logs[b + 1].tasks[i]
            == if claim.root == root(logs[a].leaves[..claim.size]) then Confirmed(claim, steps[r].cosigner) else Closed
  {
    SizeDecides(root, logs, steps, r, a);
    TaskWaits(root, logs, steps, steps[r].task, a + 1, b);
    LogRunGrows(root, logs, steps, a, b);
    assert LogTakes(root, logs[b], steps[b], logs[b + 1]);
    assert logs[b].leaves[..steps[r].claim.size] == logs[a].leaves[..steps[r].claim.size];
  }

  /** A cosignature of a root the log has is stored with its cosigner once its checks are
      done, and nothing else is stored then. */
  lemma HonestIsStored(root: seq<Leaf> -> Root, logs: seq<Log>, steps: seq<LogStep>, r: nat, a: nat, b: nat, c: nat)
    requires LogRun(root, logs, steps) && r < a < b < c < |steps| && steps[r].Receive?
    requires LeftAlone(steps, steps[r].task, r + 1, a) && steps[a] == CompareSize(steps[r].task)
    requires LeftAlone(steps, steps[r].task, a + 1, b) && steps[b] == CompareRoot(steps[r].task)
    requires LeftAlone(steps, steps[r].task, b + 1, c) && steps[c] == Store(steps[r].task)
    ensures TrueHead(root, logs[a].leaves, steps[r].claim)
    ensures logs[c + 1].cosignatures == logs[c].cosignatures + {Cosignature(steps[r].claim, steps[r].cosigner)}
    ensures logs[c + 1].tasks[steps[r].task] == Closed
  {
    RootDecides(root, logs, steps, r, a, b);
    TaskWaits(root, logs, steps, steps[r].task, b + 1, c);
    assert LogTakes(root, logs[c], steps[c], logs[c + 1]);
  }

  /** Nothing but that step adds a cosignature. */
  lemma OnlyStoreAdds(root: seq<Leaf> -> Root, logs: seq<Log>, steps: seq<LogStep>, k: nat)
    requires LogRun(root, logs, steps) && k < |steps| && !steps[k].Store?
    ensures logs[k + 1].cosignatures == logs[k].cosignatures
  {
    assert LogTakes(root, logs[k], steps[k], logs[k + 1]);
  }

  /** What a task asked for at step `r` is still about, and whether that was the head. */
  ghost predicate About(t: Task, size: nat, current: nat) {
    match t
    case Serving(n, c) => n == size && c == current
    case Loaded(n, c, _) => n == size && c == current
    case Computed(h, c) => h.size == size && c == current
    case Answered(h) => h.size == size
    case Closed => true
    case _ => false
  }

  lemma {:induction false} TaskKeepsSize(root: seq<Leaf> -> Root, logs: seq<Log>, steps: seq<LogStep>, r: nat, k: nat)
    requires LogRun(root, logs, steps) && r < k <= |steps| && steps[r].Ask?
    requires forall m :: r < m < k ==> !steps[m].Restart?
    ensures steps[r].task in logs[k].tasks && About(logs[k].tasks[steps[r].task], steps[r].size, |logs[r].leaves|)
    decreases k
  {
    assert LogTakes(root, logs[r], steps[r], logs[r + 1]);
    if r + 1 < k {
      TaskKeepsSize(root, logs, steps, r, k - 1);
      assert !steps[k - 1].Restart? && LogTakes(root, logs[k - 1], steps[k - 1], logs[k]);
    }
  }

  /** A root asked for is answered, if at all, with the root of that many leaves: by what
      the cache holds for that size, or computed from the leaves. Computed, it is offered
      to the cache exactly when it was asked for the whole log. */
  lemma AskedIsAnswered(root: seq<Leaf> -> Root, logs: seq<Log>, steps: seq<LogStep>, r: nat, k: nat)
    requires LogRun(root, logs, steps) && r < k < |steps| && steps[r].Ask?
    requires forall m :: r < m < k ==> !steps[m].Restart?
    requires steps[k] == Hit(steps[r].task) || steps[k] == Offer(steps[r].task)
    ensures steps[r].size <= |logs[k].leaves| && steps[r].task in logs[k + 1].tasks
    ensures var head := Head(steps[r].size, root(logs[k].leaves[..steps[r].size]));
            && logs[k + 1].tasks[steps[r].task] == Answered(head)
            && (steps[k].Hit? ==> logs[k].cache == Some(head) == logs[k + 1].cache)
            && (steps[k].Offer? ==>
                  logs[k + 1].cache == if steps[r].size < |logs[r].leaves| || (logs[k].cache.Some? && head.size < logs[k].cache.value.size)
                                       then logs[k].cache else Some(head))
  {
    TaskKeepsSize(root, logs, steps, r, k);
    LogRunOk(root, logs, steps, k);
    LogRunOk(root, logs, steps, k + 1);
    assert TaskOk(root, logs[k].leaves, logs[k].tasks[steps[r].task]);
    assert LogTakes(root, logs[r], steps[r], logs[r + 1]);
    assert LogTakes(root, logs[k], steps[k], logs[k + 1]);
    assert TaskOk(root, logs[k + 1].leaves, logs[k + 1].tasks[steps[r].task]);
  }

  lemma OneMoreStep(root: seq<Leaf> -> Root, logs: seq<Log>, steps: seq<LogStep>, step: LogStep, l: Log)
    requires LogRun(root, logs, steps) && LogTakes(root, logs[|steps|], step, l)
    ensures LogRun(root, logs + [l], steps + [step])
  {
  }

  /** Any root within the log can be asked for at any point and be answered. */
  lemma AnyRootCanBeServed(root: seq<Leaf> -> Root, logs: seq<Log>, steps: seq<LogStep>, i: nat, size: nat) returns (logs': seq<Log>)
    requires LogRun(root, logs, steps) && i !in logs[|steps|].tasks && size <= |logs[|steps|].leaves|
    ensures LogRun(root, logs', steps + [Ask(i, size)] + [LoadLeaves(i)] + [Compute(i)] + [Offer(i)])
    ensures logs < logs' && i in logs'[|steps| + 4].tasks
    ensures logs'[|steps| + 4].tasks[i] == Answered(Head(size, root(logs[|steps|].leaves[..size])))
  {
    var l := logs[|steps|];
    var head := Head(size, root(l.leaves[..size]));
    var l1 := Now(l, i, Serving(size, |l.leaves|));
    var l2 := Now(l1, i, Loaded(size, |l.leaves|, l.leaves[..size]));
    var l3 := Now(l2, i, Computed(head, |l.leaves|));
    var l4 := Now(l3, i, Answered(head)).(cache := if size == |l.leaves| then Newest(l.cache, head) else l.cache);
    OneMoreStep(root, logs, steps, Ask(i, size), l1);
    OneMoreStep(root, logs + [l1], steps + [Ask(i, size)], LoadLeaves(i), l2);
    OneMoreStep(root, logs + [l1] + [l2], steps + [Ask(i, size)] + [LoadLeaves(i)], Compute(i), l3);
    OneMoreStep(root, logs + [l1] + [l2] + [l3], steps + [Ask(i, size)] + [LoadLeaves(i)] + [Compute(i)], Offer(i), l4);
    logs' := logs + [l1] + [l2] + [l3] + [l4];
  }

  /** Any cosignature of a root the log has can be received at any point and be stored. */
  lemma HonestCanBeStored(root: seq<Leaf> -> Root, logs: seq<Log>, steps: seq<LogStep>, i: nat, claim: Head, cosigner: string)
    returns (logs': seq<Log>)
    requires LogRun(root, logs, steps) && i !in logs[|steps|].tasks && TrueHead(root, logs[|steps|].leaves, claim)
    ensures LogRun(root, logs', steps + [Receive(i, claim, cosigner)] + [CompareSize(i)] + [CompareRoot(i)] + [Store(i)])
    ensures logs < logs' && Cosignature(claim, cosigner) in logs'[|steps| + 4].cosignatures
  {
    var l := logs[|steps|];
    var l1 := Now(l, i, Checking(claim, cosigner));
    var l2 := Now(l1, i, InRange(claim, cosigner));
    var l3 := Now(l2, i, Confirmed(claim, cosigner));
    var l4 := Now(l3, i, Closed).(cosignatures := l.cosignatures + {Cosignature(claim, cosigner)});
    var s1 := steps + [Receive(i, claim, cosigner)];
    OneMoreStep(root, logs, steps, Receive(i, claim, cosigner), l1);
    OneMoreStep(root, logs + [l1], s1, CompareSize(i), l2);
    OneMoreStep(root, logs + [l1] + [l2], s1 + [CompareSize(i)], CompareRoot(i), l3);
    OneMoreStep(root, logs + [l1] + [l2] + [l3], s1 + [CompareSize(i)] + [CompareRoot(i)], Store(i), l4);
    logs' := logs + [l1] + [l2] + [l3] + [l4];
  }

  // -------------------------------------------------- the log of the registry

  predicate Filled(leaves: map<nat, Leaf>) {
    forall k :: 0 <= k < |leaves| ==> k in leaves
  }

  /** The leaves of a dense log, in order. */
  function InIndexOrder(leaves: map<nat, Leaf>): seq<Leaf>
    requires Filled(leaves)
  {
    seq(|leaves|, k requires 0 <= k < |leaves| => leaves[k])
  }

  lemma OrderedGrows(early: map<nat, Leaf>, late: map<nat, Leaf>)
    requires Filled(early) && Filled(late) && Dense(late)
    requires forall k :: k in early ==> k in late && late[k] == early[k]
    ensures InIndexOrder(early) <= InIndexOrder(late)
  {
    assert |late| in early ==> |late| in late;
  }

  /** Any execution of the registry grows its leaves as the steps above suppose. */
  lemma RegistryLogGrows(run: seq<System>, i: nat, j: nat)
    requires Execution(run) && i <= j < |run| && run[i].reg.log && run[j].reg.log
    ensures Filled(run[i].reg.tables.leaves) && Filled(run[j].reg.tables.leaves)
    ensures InIndexOrder(run[i].reg.tables.leaves) <= InIndexOrder(run[j].reg.tables.leaves)
  {
    LogIsDense(run, i);
    LogIsDense(run, j);
    LogIsAppendOnly(run, i, j);
    OrderedGrows(run[i].reg.tables.leaves, run[j].reg.tables.leaves);
  }
}
