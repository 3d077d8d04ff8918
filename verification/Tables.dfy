/** The rows the registry keeps in Postgres, and what one publish or lifecycle
    commit does to them when nothing else runs at the same time. */
module Tables {

  datatype Option<+T> = None | Some(value: T) {
    function GetOr(default: T): T {
      match this case Some(v) => v case None => default
    }
  }

  datatype CtxId = CtxId(text: string)
  datatype LineageId = LineageId(text: string)
  datatype AgentId = AgentId(did: string)
  datatype TenantId = TenantId(text: string)
  datatype ContentHash = ContentHash(hex: string)
  datatype EventId = EventId(text: string)

  const DEFAULT_TENANT := TenantId("default")

  /** The stored status column tracks supersession only. */
  datatype Status = Active | Superseded

  datatype Context = Context(
    lineage: LineageId,
    version: nat,
    agent: AgentId,
    contributors: seq<AgentId>,
    tenant: TenantId,
    supersedes: Option<CtxId>,
    hash: ContentHash,
    expiresAt: Option<int>,
    status: Status,
    retracted: bool)

  datatype Response = Response(ctx: CtxId, lineage: LineageId, version: nat, createdAt: int, receipted: bool)

  datatype IdemKey = IdemKey(agent: AgentId, key: string)
  datatype IdemRow = IdemRow(hash: ContentHash, response: Response, expiresAt: int)

  datatype ChangeKind = LifecycleChange | SupersededChange | KeyRevocationChange
  datatype Change = Change(
    kind: ChangeKind,
    ctx: CtxId,
    lineage: LineageId,
    agent: AgentId,
    supersededBy: Option<CtxId>)

  /** A stored change and the database clock at its insert. */
  datatype FeedRow = FeedRow(change: Change, appendedAt: int)

  /** A feed row together with the identity value drawn for it. */
  datatype Numbered = Numbered(seqNo: nat, row: FeedRow)

  datatype EventType = Retracted | Republished | Unregistered(name: string)

  /** `detail` stands for the members compared on a retry but never branched on:
      `occurred_at`, `actor`, `reason` and `signature`. */
  datatype Event = Event(id: EventId, ctx: CtxId, kind: EventType, detail: string)

  datatype Tables = Tables(
    contexts: map<CtxId, Context>,
    leaves: map<nat, CtxId>,
    idem: map<IdemKey, IdemRow>,
    changes: map<nat, FeedRow>,
    events: map<CtxId, seq<Event>>,
    prunedThrough: nat)

  const EMPTY := Tables(map[], map[], map[], map[], map[], 0)

  // ---------------------------------------------------------------- publish

  /** One `commit_publish` call. `revokes` is the controller named by a key
      revocation body, `minted` whether a receipt minter was handed over. */
  datatype Publish = Publish(
    agent: AgentId,
    hash: ContentHash,
    version: nat,
    supersedes: Option<CtxId>,
    declaredLineage: Option<LineageId>,
    contributors: seq<AgentId>,
    revokes: Option<AgentId>,
    expiresAt: Option<int>,
    key: Option<string>,
    ttl: int,
    tenant: Option<TenantId>,
    now: int,
    minted: bool)
  {
    function Slot(): IdemKey
      requires key.Some?
    {
      IdemKey(agent, key.value)
    }
  }

  datatype Refusal =
    | DuplicatePublish
    | TargetNotFound
    | LineageMismatch
    | VersionMismatch
    | TargetAlreadySuperseded
    | LogNeedsReceipt
    | Aborted  // mint, admission or database failure; client gone
    | CommitUnknown  // the commit statement itself failed: applied or not

  datatype Outcome = Inserted(response: Response) | Replayed(response: Response) | Refused(why: Refusal)

  /** What the locked predecessor row decides, in the order the checks run. */
  function CheckPredecessor(row: Context, call: Publish): Option<Refusal> {
    if call.tenant.Some? && row.tenant != call.tenant.value then Some(TargetNotFound)
    else if row.agent != call.agent && call.agent !in row.contributors then Some(TargetNotFound)
    else if call.declaredLineage.Some? && call.declaredLineage.value != row.lineage then Some(LineageMismatch)
    else if call.version != row.version + 1 then Some(VersionMismatch)
    else if row.status == Superseded then Some(TargetAlreadySuperseded)
    else None
  }

  /** The answer an idempotency record gives to a call that meets it. */
  function ReplayAnswer(row: IdemRow, call: Publish): Outcome {
    if row.hash == call.hash then Replayed(row.response) else Refused(DuplicatePublish)
  }

  function NewContext(call: Publish, lineage: LineageId): Context {
    Context(lineage, call.version, call.agent, call.contributors, call.tenant.GetOr(DEFAULT_TENANT),
            call.supersedes, call.hash, call.expiresAt, Active, false)
  }

  /** A successor joins its predecessor's lineage; a first version starts a fresh one. */
  function LineageFor(t: Tables, call: Publish, startNew: LineageId): LineageId {
    if call.supersedes.Some? && call.supersedes.value in t.contexts
    then t.contexts[call.supersedes.value].lineage
    else startNew
  }

  function ResponseFor(call: Publish, id: CtxId, lineage: LineageId): Response {
    Response(id, lineage, call.version, call.now, call.minted)
  }

  /** The changes a publish appends: `superseded` for the predecessor, then
      `key_revocation`. Nothing without a receipt. */
  function PublishChanges(t: Tables, call: Publish, id: CtxId, lineage: LineageId): seq<Change>
  {
    if !call.minted then []
    else
      (if call.supersedes.Some? && call.supersedes.value in t.contexts then
         [Change(SupersededChange, call.supersedes.value, lineage,
                 t.contexts[call.supersedes.value].agent, Some(id))]
       else [])
      + (if call.revokes.Some? then [Change(KeyRevocationChange, id, lineage, call.revokes.value, None)] else [])
  }

  function Insert(changes: map<nat, FeedRow>, drawn: seq<Numbered>): map<nat, FeedRow> {
    if drawn == [] then changes
    else Insert(changes, drawn[..|drawn| - 1])[drawn[|drawn| - 1].seqNo := drawn[|drawn| - 1].row]
  }

  /** `drawn` numbers exactly `changes`, in order. */
  predicate Numbers(drawn: seq<Numbered>, changes: seq<Change>) {
    |drawn| == |changes| && forall i :: 0 <= i < |drawn| ==> drawn[i].row.change == changes[i]
  }

  /** Whether a publish may insert, given the tables as they stand. */
  predicate Accepts(t: Tables, log: bool, call: Publish) {
    && (call.key.Some? && call.Slot() in t.idem ==> t.idem[call.Slot()].expiresAt <= call.now)
    && (call.supersedes.Some? ==>
          && call.supersedes.value in t.contexts
          && CheckPredecessor(t.contexts[call.supersedes.value], call).None?)
    && (log ==> call.minted)
  }

  /** The contexts after an insert: the new row, and the predecessor marked superseded. */
  function ContextsAfter(contexts: map<CtxId, Context>, call: Publish, id: CtxId, lineage: LineageId): map<CtxId, Context> {
    var inserted := contexts[id := NewContext(call, lineage)];
    if call.supersedes.Some? && call.supersedes.value in contexts
    then inserted[call.supersedes.value := contexts[call.supersedes.value].(status := Superseded)]
    else inserted
  }

  /** Everything an inserted publish writes. */
  function PublishEffect(t: Tables, log: bool, call: Publish, id: CtxId, lineage: LineageId, drawn: seq<Numbered>): Tables {
    t.(contexts := ContextsAfter(t.contexts, call, id, lineage),
       leaves := if log then t.leaves[|t.leaves| := id] else t.leaves,
       idem := if call.key.Some?
               then t.idem[call.Slot() := IdemRow(call.hash, ResponseFor(call, id, lineage), call.now + call.ttl)]
               else t.idem,
       changes := Insert(t.changes, drawn))
  }

  // -------------------------------------------------------------- lifecycle

  datatype LifecycleOutcome =
    | Applied
    | IdempotentReplay
    | ContextNotFound
    | EventIdReused
    | InvalidTransition
    | UnregisteredType
    | LifecycleAborted

  function EventsOf(t: Tables, c: CtxId): seq<Event> {
    if c in t.events then t.events[c] else []
  }

  /** Whether the last event of a history leaves the context retracted. */
  predicate RetractionState(events: seq<Event>) {
    |events| > 0 && events[|events| - 1].kind == Retracted
  }

  /** The position of the first event carrying `id`, if any. */
  function FindEvent(events: seq<Event>, id: EventId): (r: Option<nat>)
    ensures r.Some? ==> r.value < |events| && events[r.value].id == id
    ensures r.None? ==> forall i :: 0 <= i < |events| ==> events[i].id != id
  {
    if events == [] then None
    else
      var rest := FindEvent(events[..|events| - 1], id);
      if rest.Some? then rest
      else if events[|events| - 1].id == id then Some(|events| - 1)
      else None
  }

  /** The decision taken under the context's row lock. */
  function DecideLifecycle(history: seq<Event>, e: Event): LifecycleOutcome {
    var prior := FindEvent(history, e.id);
    if prior.Some? then (if history[prior.value] == e then IdempotentReplay else EventIdReused)
    else match e.kind
      case Retracted => if RetractionState(history) then InvalidTransition else Applied
      case Republished => if RetractionState(history) then Applied else InvalidTransition
      case Unregistered(_) => UnregisteredType
  }

  function LifecycleChanges(t: Tables, e: Event, minting: bool): seq<Change>
    requires e.ctx in t.contexts
  {
    if minting
    then [Change(LifecycleChange, e.ctx, t.contexts[e.ctx].lineage, t.contexts[e.ctx].agent, None)]
    else []
  }

  function LifecycleEffect(t: Tables, e: Event, drawn: seq<Numbered>): Tables
    requires e.ctx in t.contexts
  {
    t.(contexts := t.contexts[e.ctx := t.contexts[e.ctx].(retracted := e.kind == Retracted)],
       events := t.events[e.ctx := EventsOf(t, e.ctx) + [e]],
       changes := Insert(t.changes, drawn))
  }

  // ------------------------------------------------------- retention, eviction

  /** The highest feed position ever visible: the top row, or the prune marker. */
  predicate IsHead(t: Tables, head: nat) {
    if exists q :: q in t.changes && q > t.prunedThrough
    then head in t.changes && head > t.prunedThrough && forall q :: q in t.changes ==> q <= head
    else head == t.prunedThrough
  }

  function PruneEffect(t: Tables, last: nat): Tables {
    t.(changes := map q | q in t.changes && q > last :: t.changes[q],
       prunedThrough := if last >= t.prunedThrough then last else t.prunedThrough)
  }

  function EvictEffect(t: Tables, k: IdemKey): Tables {
    t.(idem := t.idem - {k})
  }
}
