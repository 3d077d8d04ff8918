# A verified model of the ACDP registry's storage and delivery core

The registry stores immutable, versioned contexts, keeps a transparency log and a change
feed beside them, and tells subscribers about changes. This project models the parts whose
correctness depends on several actors at once, and proves what holds in every run.

* **Publishing, lifecycle and retention** (`Tables`, `SerialRegistry`, `SerialProofs`,
  `Transactions`, `Isolation`, `Serializability`, `Commits`, `Executions`, `LineageReads`,
  `RegistryTheorems`, `PublishOutcomes`, `LifecycleOutcomes`, `Completion`, `Retries`). A serial registry applies whole transactions. Above it, any
  number of threads run the Postgres statements one at a time: row locks, the log lock, the
  unique idempotency key, the feed lock and the prune marker. Each thread is free to abort at
  any statement, and an applied commit may lose its acknowledgement. Every interleaved
  execution is shown to be a serial run, and the guarantees of sections 6.2 of RFC-ACDP-0003,
  5.3 and 7.1 of RFC-ACDP-0012, 6 of RFC-ACDP-0013 and 5.3 of RFC-ACDP-0018 follow for all
  executions. What each call is told and writes is stated by the members it declared.
* **The change feed** (`Buckets`, `FeedPaging`, `ChangesQuery`, `MemoryFeed`, `PostgresFeed`,
  `Bytes`, `Cursor`). Pages are read from separate snapshots while rows are appended and
  pruned. The in-memory feed is a class over a sorted vector with binary search.
* **Hint delivery** (`Subscriptions`, `SubscriptionLimits`, `HintSchedule`, `HintDelivery`,
  `HintStreaks`, `HintOutcomes`, `HintBatch`). Replicas with unrelated clocks claim
  subscriptions under leases, evaluate them against the moving feed, deliver, and write back
  conditionally.
* **Rate limits** (`RateWindows`, `RateLimiter`, `FixedWindows`, `LayeredLimits`,
  `AuthOutcomes`, `SharedWindow`, `ClientAddress`, `Arith`). The pruning in-memory limiter, the
  Postgres window, both layered, and the client address that picks the bucket.
* **Log roots** (`LogRoots`). The cached head root and the stored witness cosignatures while
  the log grows.

Times are integers in the unit the code uses (milliseconds for hints, nanoseconds for the
in-memory limiter, seconds for the database window). The cipher, the keyed hash, the Merkle
root, bucket hashing, entry sizes, visibility and address parsing are parameters, with the
inverse or determinism they are used for as the only assumption.

Where the code and its comments differ, the model follows the code: a global budget equal to
the largest 32-bit value switches the process-wide ceiling off, although it reads as a budget
(`LayeredLimits.UnmeteredReachesAll`). A budget of zero is not charged at all, as documented:
with none per address there is no bound per address (`LayeredLimits.UnboundedAddress`), with
no global one the shared layer is asked without bound (`LayeredLimits.NoCeilingReachesAll`).

`dafny verify dfyconfig.toml` checks the whole project.

## Model

| member | source | states |
|---|---|---|
| `Isolation.NonInterference` | crates/acdp-registry-pg/src/store.rs:1136-1466 | What one thread has read and locked stays true under any step of another that respects the locks: its predecessor row, key, leaf slot, drawn positions and result. |
| `Commits.PublishCommitIsSerial` | crates/acdp-registry-pg/src/store.rs:1313-1466 | The writes a publish gathered statement by statement equal the effect of the whole publish applied at its commit, decided against the tables of that moment. |
| `Commits.MarkCommitIsSerial` | crates/acdp-registry-pg/src/store.rs:750-965 | A retraction or republication decided under its row lock commits as if decided at the commit. |
| `Executions.NextKeeps` | crates/acdp-registry-pg/src/store.rs:1065-1468 | Every statement of every thread, aborts included, keeps the system invariant and shows in the tables as one serial step or as none. |
| `Executions.Serializable` | crates/acdp-registry-pg/src/store.rs:1065-1468 | Every interleaved execution, with its threads dropped, is a run of whole transactions from the empty registry. |
| `SerialProofs.RunKeepsInv` | crates/acdp-registry-pg/src/store.rs:1065-1468 | Over all serial runs: dense log, recorded commits, linear lineages, one tenant, announced supersessions, alternating histories, ascending feed, and idempotency records spaced by expiry. |
| `RegistryTheorems.FeedOrderIsCommitOrder` | crates/acdp-registry-pg/src/changes.rs:92-127 | Once any reader has seen head h, no row at or below h ever becomes visible later, whatever aborts left gaps; head and prune marker never go back. |
| `RegistryTheorems.RetainedAboveMarker` | crates/acdp-registry-pg/src/changes.rs:280-325 | Pruning removes only a prefix: a row once visible is stored unchanged exactly while it lies above the marker. |
| `RegistryTheorems.SupersessionInFeed` | crates/acdp-registry-pg/src/changes.rs:64-127 | Every receipted supersession has its feed row from its commit on. |
| `RegistryTheorems.SupersessionAnnounced` | crates/acdp-registry-store/src/changes.rs:416-451 | Every `superseded` row names a context that is superseded, and its actual successor. |
| `RegistryTheorems.SuccessionIsLinear` | crates/acdp-registry-pg/src/store.rs:1136-1289 | A context has at most one successor, is marked superseded if and only if it has one, and the successor carries the next version, the same lineage and an agent the predecessor allowed. |
| `RegistryTheorems.OneTenantPerLineage` | crates/acdp-registry-pg/src/store.rs:1136-1289 | If every publish carries a tenant, all versions of a lineage share one. |
| `RegistryTheorems.CurrentIsTip` | crates/acdp-registry-pg/src/store.rs:702-748 | `current` is the one version nothing supersedes, or nothing if that version is retracted, even when events are read after the rows in a later state. |
| `LineageReads.Current` | crates/acdp-registry-pg/src/store.rs:733-748 | The backward walk returns the newest listed version that is neither superseded nor retracted. |
| `LineageReads.ListingIsChain` | crates/acdp-registry-pg/src/store.rs:702-731 | The version-ordered listing of a lineage is its successor chain, whatever the creation times. |
| `RegistryTheorems.LosersWriteNothing` | crates/acdp-registry-pg/src/store.rs:1313-1466 | Nothing in every interleaving: a publish that ends in any way but inserted, or with its commit statement failing, has changed no table in any of its steps. |
| `RegistryTheorems.WritesAreWhole` | crates/acdp-registry-pg/src/store.rs:1327-1466 | Or all: the one step in which a publish changes the tables is its last and applies it whole, also when the acknowledgement of the commit is lost. |
| `RegistryTheorems.ContextsAreInserted` | crates/acdp-registry-pg/src/store.rs:1327-1466 | The stored contexts are exactly those some call's commit wrote, each once and by one call, no call writing two; that call was told so unless its commit statement failed, and whatever a call is told it inserted, it wrote. |
| `RegistryTheorems.LogIsDense` | crates/acdp-registry-pg/src/store.rs:1340-1373 | With the log on, leaf indices are 0..n-1, one leaf per context and one context per leaf, although losers may abort after inserting theirs. |
| `RegistryTheorems.LogIsAppendOnly` | crates/acdp-registry-pg/src/store.rs:514-540 | A leaf once committed keeps its index and content for good. |
| `RegistryTheorems.SecondInsertNeedsExpiry` | crates/acdp-registry-pg/src/store.rs:1087-1134 | Of two consecutive inserts under one agent and key, the second's own clock is at or past the first's expiry, unless eviction on such a clock had removed the record before the second was committed. |
| `RegistryTheorems.ReplayRepeatsTheRecord` | crates/acdp-registry-pg/src/store.rs:1400-1454 | A replayed response is the one in the record stored when the answer was given: that of the last insert under the call's key, with the same content hash, also when the replay lost the race for the key. |
| `Retries.RetryReplays` | crates/acdp-registry-pg/src/store.rs:1225-1245 | While the record of a committed call stands, unexpired by the retry's clock and not evicted, the same call again is answered with the first response, at whichever statement and in whatever interleaving, unless a statement of its own fails; so a lost acknowledgement is recovered. |
| `RegistryTheorems.HistoriesAlternate` | crates/acdp-registry-pg/src/store.rs:790-936 | Event ids of a context are distinct, its events alternate starting with a retraction, and the flag on its row is the state the events derive. |
| `RegistryTheorems.RetryIsReplay` | crates/acdp-registry-pg/src/store.rs:790-936 | From the moment an event is stored, every identical retry is decided as a replay and no thread carrying it gets past that decision. |
| `PublishOutcomes.StoredAsDeclared` | crates/acdp-registry-pg/src/store.rs:1855-1901 | At every point of every execution the row of each committed publish has the agent, contributors, version, predecessor, content hash and expiry its call declared, and its tenant or else the default one. |
| `PublishOutcomes.TargetDecides` | crates/acdp-registry-pg/src/store.rs:1136-1252 | A publish goes on past its predecessor, by that one's own committed call, if and only if it comes from the same producer or a declared contributor, agrees in tenant and declared lineage, carries the next version, and no committed publish has superseded it before; each other case gets its own refusal, a late keyed call the chance of a replay. |
| `PublishOutcomes.TargetAbsent` | crates/acdp-registry-pg/src/store.rs:1136-1156 | Without a predecessor the check passes, and one that was never committed is reported as not found. |
| `PublishOutcomes.RecordDecides` | crates/acdp-registry-pg/src/store.rs:1087-1134 | The record of a key answers with the stored response on equal content and with a refusal on other content, before the insert only if unexpired by the call's clock. |
| `PublishOutcomes.ClaimDecides` | crates/acdp-registry-pg/src/store.rs:1393-1454 | The key is lost if and only if a record stands that the call did not itself delete; then everything is rolled back and the winner's record is read. |
| `PublishOutcomes.DrawDecides` | crates/acdp-registry-pg/src/store.rs:1291-1373 | With the log on, a call without a receipt is refused; any other draws an identifier never drawn before, and a successor its predecessor's lineage. |
| `PublishOutcomes.CommitWrites` | crates/acdp-registry-pg/src/store.rs:1313-1466 | A commit writes the declared context as active, marks the predecessor and no other, appends the leaf, records the response under the key until its time to live has passed, and appends the supersession and then the revocation row; the call is told that response or nothing. |
| `PublishOutcomes.StatusServed` | crates/acdp-registry-pg/src/store.rs:1928-1945 | A served context is retracted by an odd number of events, else superseded if a committed publish supersedes it, else expired by its own call, else active, even with events read after the row. |
| `LifecycleOutcomes.EventDecides` | crates/acdp-registry-pg/src/store.rs:807-851 | Of every deciding step: a known event id is a replay of the same event or a misuse; otherwise a retraction is applied if and only if the history has even length, a republication if and only if odd, and each other case is refused for its own reason. |
| `LifecycleOutcomes.RowDecides` | crates/acdp-registry-pg/src/store.rs:763-784 | An event for a context that is not stored is answered so; any other is decided under the row's lock. |
| `LifecycleOutcomes.EventWrites` | crates/acdp-registry-pg/src/store.rs:899-936 | A commit appends the event to its context's history, sets the flag by its type, appends one feed row of that context's lineage and producer if receipted, and touches nothing else. |
| `LifecycleOutcomes.ToldIsStored` | crates/acdp-registry-pg/src/store.rs:807-936 | An event some call was told of as applied or as a replay is in its context's history from then on. |
| `LifecycleOutcomes.ScanPicks` | crates/acdp-registry-pg/src/changes.rs:280-325 | A pass picks the longest run of oldest rows, within the batch, that are all older than the cutoff, and none only if there is none. |
| `LifecycleOutcomes.PruneRemoves` | crates/acdp-registry-pg/src/changes.rs:280-325 | Its commit removes exactly the rows up to that one and moves the marker to it. |
| `LifecycleOutcomes.EvictionRemoves` | crates/acdp-registry-pg/src/store.rs:1805-1812 | Eviction removes one record expired by the evicting clock, and nothing else. |
| `Completion.AcceptedCanInsert` | crates/acdp-registry-pg/src/store.rs:1065-1468 | From any point of any execution, a publish the tables accept is carried to its insert by its own statements, if no other transaction holds the locks it needs. |
| `Completion.OnlyTheLivingHold` | crates/acdp-registry-pg/src/store.rs:1065-1468 | At every point of every execution, whoever holds a row, a key or one of the locks is a call that has not ended. |
| `Completion.QuietCanInsert` | crates/acdp-registry-pg/src/store.rs:1065-1468 | So once every call has ended, in whatever way, any publish the tables accept can insert. |
| `Completion.AllowedCanApply` | crates/acdp-registry-pg/src/store.rs:750-936 | Likewise a lifecycle event its context's history allows. |
| `Buckets.Range` | crates/acdp-registry-store/src/change_bucket.rs:67-83 | The in-place increment yields the prefix's successor as a hexadecimal number of its width, or no bound for all `f`. |
| `Buckets.RangeIsPrefix` | crates/acdp-registry-store/src/change_bucket.rs:54-83 | A hash lies in a bucket's half-open range if and only if it starts with the bucket. |
| `Buckets.ShortHashDiffers` | crates/acdp-registry-store/src/change_bucket.rs:54-83 | On a hash shorter than the bucket the two tests disagree, so the length condition is needed. |
| `Buckets.SqlMatchesMemory` | crates/acdp-registry-store/src/changes.rs:222-255 | The SQL filter and the in-memory filter select the same rows. |
| `Buckets.FilterSelects` | crates/acdp-registry-store/src/changes.rs:222-252 | A query selects exactly the rows of a wanted kind, all kinds if it names none, that one of its lists or buckets names, or every such row if it has no list and no bucket; an agent of a revocation list names key revocations only. |
| `FeedPaging.PageIsWindow` | crates/acdp-registry-store/src/changes.rs:357-373 | A page is exactly the matching rows of the full history between the position asked for and the position it reports, and a short page has reached the head. |
| `FeedPaging.PageSize` | crates/acdp-registry-store/src/changes.rs:357-373 | A page holds as many rows as the limit, zero meaning one, unless it has reached the head. |
| `FeedPaging.PagingIsExact` | crates/acdp-registry-pg/src/changes.rs:180-260 | Paging over any later and later snapshots collects each matching row up to the position reached once and in order, unless a prune overtook the cursor. |
| `PostgresFeed.PostgresPagingIsExact` | crates/acdp-registry-pg/src/changes.rs:180-260 | The same for pages read at any moments of any execution of the registry, a short page standing at the head. |
| `PostgresFeed.TableIsStored` | crates/acdp-registry-pg/src/changes.rs:129-150 | The rows of the table are the rows of the history above the prune marker. |
| `MemoryFeed.Feed.Push` | crates/acdp-registry-server/src/memory_ext.rs:96-115 | Appends extend the history by exactly the given rows, numbered on from the last, and leave what was stored. |
| `MemoryFeed.Feed.Head` | crates/acdp-registry-server/src/memory_ext.rs:117-124 | The head is the last position ever given, also after everything was pruned, with the fingerprint of the row there. |
| `MemoryFeed.Feed.PageAfter` | crates/acdp-registry-server/src/memory_ext.rs:508-519 | Binary search and filtering return the page the snapshot semantics define. |
| `MemoryFeed.Feed.Prune` | crates/acdp-registry-server/src/memory_ext.rs:525-540 | Removes the longest old-enough prefix within the batch and nothing else; the history is unchanged and the marker moves to what was removed. |
| `ChangesQuery.EvaluateChanges` | crates/acdp-registry-core/src/handlers/changes.rs:355-525 | The answer holds every visible matching row from the position asked for to the position returned, and no other, over up to six pages from different snapshots; it is refused only if that position is past the head or pruned away, and always if it is so at the start. It stops only when full, before an entry that does not fit, at a head, or after six full pages; more than one entry never exceeds the byte bound; and more is announced if below the first head, and only if below the last. |
| `ChangesQuery.Refill` | crates/acdp-registry-core/src/handlers/changes.rs:435-511 | Stopping at the target, the byte bound, the head or the page budget never drops a row: the returned position stands right before the first omitted one, and more is announced if it stands below the first head, and only if below the last. |
| `ChangesQuery.ScanPage` | crates/acdp-registry-core/src/handlers/changes.rs:462-499 | Within one page the answer stays exact up to its position and its length is the encoded one; the scan stops early only at the target or before an entry that would exceed the byte bound, which a single entry may. |
| `Bytes.Base64Inverse` | crates/acdp-registry-core/src/changes_key.rs:273-280 | Text decodes to given bytes if and only if it is their unpadded base64url encoding (section 5 of RFC 4648). |
| `Bytes.TestVectors` | crates/acdp-registry-core/src/changes_key.rs:273-280 | Vectors of section 10 of RFC 4648, and the two characters of the URL-safe alphabet. |
| `Bytes.GroupKeepsBits` | crates/acdp-registry-core/src/changes_key.rs:273-280 | Sextets hold the bits of the bytes, most significant first, then zeros. |
| `Cursor.DecodeIsInverse` | crates/acdp-registry-core/src/changes_key.rs:253-330 | Decoding succeeds with a position and anchor if and only if the text is their encoding under this key and epoch. |
| `Cursor.CursorLayout` | crates/acdp-registry-core/src/changes_key.rs:253-275 | A cursor is 83 characters for 62 bytes: version 2, key id, mark of the master key, twelve bytes of the keyed hash of version and text, and the text sealed under that nonce with the six bytes of header as associated data. |
| `Cursor.PlainLayout` | crates/acdp-registry-core/src/changes_key.rs:255-259 | The text is position, anchor position, anchor fingerprint and epoch, integers big-endian in 8, 8 and 4 bytes. |
| `Cursor.FirstVersionLayout` | crates/acdp-registry-core/src/changes_key.rs:29-31 | A version-1 cursor is 51 characters: version 1, key id, nonce of the position, and the sealed position. |
| `Cursor.StaleExactly` | crates/acdp-registry-core/src/changes_key.rs:306-322 | Stale are exactly this key's cursors of another epoch and its version-1 cursors. |
| `Cursor.OtherKeyIsUnknown` | crates/acdp-registry-core/src/changes_key.rs:286-290 | A cursor issued under another key id or master key is reported as of an unknown key, never as invalid. |
| `Cursor.UnknownExactly` | crates/acdp-registry-core/src/changes_key.rs:281-292 | Reported as of an unknown key are exactly the well-formed texts that name another key. |
| `Cursor.UnsealIsInverse` | crates/acdp-registry-core/src/changes_key.rs:225-309 | Raw bytes open under a key if and only if that key sealed them, version, header and derived nonce included. |
| `Subscriptions.SubscriptionTable.Create` | crates/acdp-registry-server/src/memory_ext.rs:618-652 | An owner never comes to hold more than the limit; other owners are unaffected. |
| `SubscriptionLimits.NeverOverLimit` | crates/acdp-registry-pg/src/subscriptions.rs:31-73 | However database creations, removals and updates interleave under the owner locks, no owner holds more than the limit, and a creation is refused only when its owner holds that many. |
| `SubscriptionLimits.CountDecides` | crates/acdp-registry-pg/src/subscriptions.rs:44-52 | A creation is refused, when it counts, if and only if its owner then holds the limit. |
| `SubscriptionLimits.CommitStores` | crates/acdp-registry-pg/src/subscriptions.rs:53-72 | One that commits adds the row it was opened with under its id, and changes no other row. |
| `SubscriptionLimits.RoomCanBeTaken` | crates/acdp-registry-pg/src/subscriptions.rs:31-73 | Whenever an owner's lock is free and it holds less than the limit, a creation can run to its commit. |
| `Subscriptions.SubscriptionTable.ClaimDue` | crates/acdp-registry-server/src/memory_ext.rs:683-710 | Leases distinct due rows, all of them if fewer than the limit, none due longer left behind, and touches only their lease. |
| `Subscriptions.SubscriptionTable.FinishAttempt` | crates/acdp-registry-server/src/memory_ext.rs:712-734 | Writes every field of the outcome and clears the lease if and only if the row still carries the attempt's lease, and otherwise nothing. |
| `HintSchedule.RetryDelayIs` | crates/acdp-registry-core/src/hints.rs:143-146 | Delays are min(60000 * 2^(n-1), 3600000), and the shift fits 64 bits. |
| `HintSchedule.DelaysRise` | crates/acdp-registry-core/src/hints.rs:143-146 | Delays never fall as failures accumulate. |
| `HintSchedule.DisabledExactlyAfter72Hours` | crates/acdp-registry-core/src/hints.rs:450-474 | An unbroken failure streak is disabled by its last failure if and only if 72 hours separate it from the first. |
| `HintSchedule.DisabledBy78th` | crates/acdp-registry-core/src/hints.rs:450-474 | No streak survives its 78th recorded failure, whenever the retries ran. |
| `HintSchedule.PromptStreak` | crates/acdp-registry-core/src/hints.rs:315-317 | 78 is the least such number: retried exactly when due, the 77th failure leaves the subscription enabled. |
| `HintStreaks.WorkerStreak` | crates/acdp-registry-core/src/hints.rs:320-446 | Consecutive failing finishes of one subscription in any run of the delivery system, by whatever replicas, are a streak of its schedule: each was claimed when the failure before it had left it due. |
| `HintStreaks.WorkerDisables` | crates/acdp-registry-core/src/hints.rs:450-474 | In any run the worker disables a failing subscription at the first recorded failure 72 hours past the first of its streak and no sooner, at the latest at the 78th. |
| `HintStreaks.OtherwiseStreakEnds` | crates/acdp-registry-core/src/hints.rs:383-445 | Every finish that takes effect and is no such failure clears the streak or disables. |
| `HintDelivery.TakesKeeps` | crates/acdp-registry-core/src/hints.rs:320-446 | Every step of an attempt, of the feed and of the subscription table keeps the delivery invariant. |
| `HintDelivery.LeaseFencing` | crates/acdp-registry-pg/src/subscriptions.rs:108-161 | With arbitrary skew between replicas, an attempt that lost its row never holds it again: its token stays below every current and future lease and its finish writes nothing. |
| `HintDelivery.OnlyTheHolderWrites` | crates/acdp-registry-pg/src/subscriptions.rs:138-161 | A finish writes if and only if the attempt holds the row as it claimed it; every other unfinished attempt on the row is then fenced. |
| `HintDelivery.PositionNeverDecreases` | crates/acdp-registry-core/src/hints.rs:361-392 | The hinted position never goes back over any run. |
| `HintDelivery.NoVisibleChangeSkipped` | crates/acdp-registry-core/src/hints.rs:361-445 | Every retained row after the starting position and up to the hinted one is at or below the head of a hint that was answered with success, or was passed over by an evaluation that, with the filter and rights it resolved then, did not see it; although head and evaluation are read apart. |
| `HintDelivery.SteadilySeenIsHinted` | crates/acdp-registry-core/src/hints.rs:361-445 | So a retained row that every evaluation sees has been hinted. |
| `HintOutcomes.DeliveredMovesOn` | crates/acdp-registry-core/src/hints.rs:427-435 | In every run, a kept finish after a successful response leaves the row at the head of the snapshot the attempt read its head from, enabled, its failures cleared, due one second after the response's clock. |
| `HintOutcomes.EmptyMovesOn` | crates/acdp-registry-core/src/hints.rs:382-392 | After an empty answer it leaves the row at the answer's position, enabled and cleared, due at the clock read when the attempt began. |
| `HintOutcomes.FoundIsHinted` | crates/acdp-registry-core/src/hints.rs:365-392 | An answer that is not empty leads to a hint for the head read before it. |
| `HintOutcomes.UndeliveredRecordsFailure` | crates/acdp-registry-core/src/hints.rs:436-474 | After a failed response a kept finish counts one failure, keeps the position and the time of the first failure, and backs off from the response's clock or disables after 72 hours. |
| `HintOutcomes.UnknownKeyRecordsFailure` | crates/acdp-registry-core/src/hints.rs:394-408 | A secret sealed under an unknown key counts as such a failure, at the clock read when the attempt began. |
| `HintOutcomes.HopelessIsDisabled` | crates/acdp-registry-core/src/hints.rs:337-360 | A row that can never be evaluated is disabled in place. |
| `HintOutcomes.CorruptIsDisabled` | crates/acdp-registry-core/src/hints.rs:409-418 | So is one whose secret is corrupt under the right key. |
| `HintOutcomes.ClaimLeases` | crates/acdp-registry-pg/src/subscriptions.rs:108-134 | A claim takes an enabled, due, unleased row behind the head, and writes its lease of 60 seconds by the claimer's clock and nothing else. |
| `HintOutcomes.DueCanBeClaimed` | crates/acdp-registry-pg/src/subscriptions.rs:108-134 | Every such row can be claimed. |
| `HintOutcomes.CreatedAtHead` | crates/acdp-registry-pg/src/subscriptions.rs:53-72 | A new subscription starts enabled at the head, due at once, with no failures and no lease. |
| `HintOutcomes.FinishTouchesOne` | crates/acdp-registry-pg/src/subscriptions.rs:138-161 | A finish writes at most its own row, and none if it lost its lease. |
| `HintOutcomes.VisibleCanBeHinted` | crates/acdp-registry-core/src/hints.rs:320-446 | From any point of any run, a due subscription with a change its owner may see past its position can be claimed, evaluated, hinted and moved on to the head. |
| `HintBatch.BatchEndsWithin` | crates/acdp-registry-core/src/hints.rs:127-135 | n attempts sharing k permits, each holding one for at most T, end within ceil(n/k) * T in any work-conserving order. |
| `HintBatch.GateEmptiesInTime` | crates/acdp-registry-core/src/hints.rs:263-306 | Every run of the semaphore is such an order: past that time nothing waits or runs. |
| `HintBatch.BatchFitsLease` | crates/acdp-registry-core/src/hints.rs:67-78 | Every claimed attempt ends within 40 s of its batch being spawned, under the 60 s lease. |
| `RateWindows.RetryAfterInRange` | crates/acdp-registry-core/src/rate_limit.rs:28-30 | A rejection asks for 1 to 60 seconds. |
| `RateWindows.ChargeMetered` | crates/acdp-registry-core/src/rate_limit.rs:83-98 | Charging a fixed window keeps every 60-second span, aligned or not, within twice the limit. |
| `RateLimiter.AgentRateLimiter.CheckAt` | crates/acdp-registry-core/src/rate_limit.rs:203-221 | The locked map after a check and its answer are those of the limiter's step, pruning included. |
| `RateLimiter.AgentRateLimiter.PeekAt` | crates/acdp-registry-core/src/rate_limit.rs:118-135 | Peeking answers as a check would judge and leaves no trace. |
| `RateLimiter.AgentRateLimiter.RecordAt` | crates/acdp-registry-core/src/rate_limit.rs:154-168 | Recording rolls an expired window and charges one, never wrapping the count. |
| `RateLimiter.AgentRateLimiter.PruneIfDue` | crates/acdp-registry-core/src/rate_limit.rs:181-188 | Below the threshold nothing changes; at it exactly the unexpired counters survive and the threshold is at least twice their number. |
| `RateLimiter.AgentRateLimiter.CheckGlobalAt` | crates/acdp-registry-core/src/rate_limit.rs:83-98 | The ceiling charges one window for all keys, or nothing when it is switched off. |
| `RateLimiter.PruningIsInvisible` | crates/acdp-registry-core/src/rate_limit.rs:118-221 | For every call sequence in time order, each answer equals that of a limiter that never prunes. |
| `RateLimiter.PruningIsCheap` | crates/acdp-registry-core/src/rate_limit.rs:181-188 | Over any run at most `threshold` keys are held and at most two entries are scanned per key inserted, none before 4096 have been. |
| `RateLimiter.SpanBound` | crates/acdp-registry-core/src/rate_limit.rs:203-221 | In any half-open 60 s span a key gets at most 2 * limit admissions. |
| `FixedWindows.AnswersByCount` | crates/acdp-registry-core/src/rate_limit.rs:118-221 | For every call sequence in time order, by the calls alone: a check is admitted if and only if its window, opened by the first charge 60 s or more after the last opening, has been charged less than the limit by admitted checks and records; a peek also when no window is open; a refusal names the whole seconds left of the window, at least one. |
| `FixedWindows.GlobalAnswersByCount` | crates/acdp-registry-core/src/rate_limit.rs:83-98 | The same for the process-wide counter, whose first window opens when it is made. |
| `LayeredLimits.LayeredRateLimiter.Check` | crates/acdp-registry-core/src/rate_limit_shared.rs:123-155 | The shared layer is asked if and only if the first admits, its answer stands, and an outage becomes the configured posture, never an outage. |
| `LayeredLimits.AuthRateLimit` | crates/acdp-registry-core/src/lib.rs:546-626 | The middleware charges each nonzero budget in turn, passes the request exactly when both layers of each let it, refuses it for the seconds the refusing layer gives, and leaves the limiter where the two events do. |
| `LayeredLimits.ChargeGlobal` | crates/acdp-registry-core/src/lib.rs:564-575 | A process-wide charge refuses for as long as the first layer says, else the shared one, else five seconds in an outage under the denying posture, and not at all without a budget. |
| `LayeredLimits.ChargeAddress` | crates/acdp-registry-core/src/lib.rs:576-626 | Likewise the charge of the address. |
| `AuthOutcomes.ArrivalDecided` | crates/acdp-registry-core/src/lib.rs:564-575 | In every run with arrivals in order, an arrival is let on if and only if its window has let on less than the budget, and goes on to its address, or through if that has no budget, if and only if the shared layer then allows it. |
| `AuthOutcomes.ChargeDecided` | crates/acdp-registry-core/src/lib.rs:576-587 | A request charged for its address gets through if and only if the address was admitted less often than its budget in the window and the shared layer then allows it. |
| `LayeredLimits.AddressBound` | crates/acdp-registry-core/src/lib.rs:576-587 | With a budget per address, in any half-open 60 s span an address gets through at most 2 * limit times, whatever the shared layer answers and however requests interleave. |
| `LayeredLimits.UnboundedAddress` | crates/acdp-registry-core/src/lib.rs:576-587 | With a budget per address of 0 there is no such bound: one address gets through in one span as often as the global budget admits, and any number of times without one. |
| `LayeredLimits.SharedLayerIsSpared` | crates/acdp-registry-core/src/lib.rs:564-575 | With a global budget, neither 0 nor the largest, what the first layer's global budget admits in one window costs at most 2 * budget questions to the shared layer, in every interleaving. |
| `LayeredLimits.NoCeilingReachesAll` | crates/acdp-registry-core/src/lib.rs:564-587 | With a global budget of 0 the bound fails: for every n some run asks the shared layer n times at once. |
| `LayeredLimits.UnmeteredReachesAll` | crates/acdp-registry-core/src/rate_limit.rs:83-86 | With the budget at its largest value the bound fails: for every n some run asks the shared layer n times in one window. |
| `SharedWindow.WindowTable.Check` | crates/acdp-registry-pg/src/rate_limit.rs:111-130 | One statement counts and judges one row and leaves all others: the first of a new minute stores a count of one, and a statement is allowed if and only if the count it leaves is within the configured limit. |
| `SharedWindow.HitsCountStatements` | crates/acdp-registry-pg/src/rate_limit.rs:61-69 | For any order of times, even falling ones, the stored count is the number of statements counted into the stored window, cut off just above the limit. |
| `SharedWindow.RowStaysInRange` | crates/acdp-registry-pg/src/rate_limit.rs:165-173 | The stored window never goes back, hits stays in 1..limit+1, Retry-After in 1..60, and a statement is allowed if and only if it is among the first `limit` of its window. |
| `SharedWindow.AllowedAreFirst` | crates/acdp-registry-pg/src/rate_limit.rs:61-69 | Each stored window allows exactly the smaller of its statements and the limit. |
| `SharedWindow.WindowIsMinute` | crates/acdp-registry-pg/src/rate_limit.rs:61-69 | A window is the clock minute its time falls in. |
| `SharedWindow.NewMinuteStartsAfresh` | crates/acdp-registry-pg/src/rate_limit.rs:61-69 | A statement of a minute later than all before it counts one, and is allowed whenever the limit is positive. |
| `SharedWindow.EachMinuteAllowsItsLimit` | crates/acdp-registry-pg/src/rate_limit.rs:61-69 | With times in order, each clock minute allows exactly the smaller of its statements and the limit. |
| `SharedWindow.RefusalNamesTheRest` | crates/acdp-registry-pg/src/rate_limit.rs:165-173 | With times in order, a refusal asks for the seconds left of the minute. |
| `SharedWindow.ConfiguredLimitHolds` | crates/acdp-registry-pg/src/rate_limit.rs:111-130 | The limit applied is the configured one, up to what the stored count can hold. |
| `ClientAddress.MaskedEq` | crates/acdp-registry-core/src/rate_limit.rs:383-402 | The byte-masking loop holds if and only if the top prefix_len bits of the two addresses are equal as integers. |
| `ClientAddress.Contains` | crates/acdp-registry-core/src/rate_limit.rs:373-380 | An address is trusted if and only if some block of its family shares its leading bits. |
| `ClientAddress.ResolveClientIp` | crates/acdp-registry-core/src/rate_limit.rs:494-529 | An untrusted peer or absent header names the peer; otherwise the first stopping hop from the right names the client, and an unreadable or missing one the peer. |
| `ClientAddress.EntriesAreHeader` | crates/acdp-registry-core/src/rate_limit.rs:494-529 | The entries walked, put back together with commas, are the header. |
| `ClientAddress.EntriesHoldNoComma` | crates/acdp-registry-core/src/rate_limit.rs:494-529 | And none of them holds a comma. |
| `ClientAddress.ForgedPrefixIsIgnored` | crates/acdp-registry-core/src/rate_limit.rs:494-529 | If the walk stops within the entries the proxies appended, no text in front of them changes the result. |
| `ClientAddress.UnstoppedReadsOn` | crates/acdp-registry-core/src/rate_limit.rs:494-529 | If it does not stop there, the next readable entry that is no proxy becomes the client, so the condition is needed. |
| `LogRoots.LogState.CacheRoot` | crates/acdp-registry-core/src/log.rs:89-95 | The cache keeps the larger size and never goes back. |
| `LogRoots.CacheServesLargest` | crates/acdp-registry-core/src/log.rs:79-95 | After any offers the cache answers for the largest size offered, with the root offered last for it, and for no other size. |
| `LogRoots.AskedIsAnswered` | crates/acdp-registry-core/src/handlers/log.rs:127-138 | A root asked for is answered with the root of that many leaves, from the cache or computed, and enters the cache if and only if it was asked for the whole log and nothing larger is held. |
| `LogRoots.AnyRootCanBeServed` | crates/acdp-registry-core/src/handlers/log.rs:148-165 | Any root within the log can be asked for at any point and be answered. |
| `LogRoots.SizeDecides` | crates/acdp-registry-core/src/witness.rs:72-80 | A cosignature is in range if and only if the log has as many leaves when its size is compared. |
| `LogRoots.RootDecides` | crates/acdp-registry-core/src/witness.rs:81-127 | One in range is confirmed if and only if its root is that of as many leaves. |
| `LogRoots.HonestIsStored` | crates/acdp-registry-core/src/witness.rs:163-216 | A confirmed one is stored as received, with its cosigner, and nothing else with it. |
| `LogRoots.OnlyStoreAdds` | crates/acdp-registry-core/src/witness.rs:163-216 | No other step adds a cosignature. |
| `LogRoots.HonestCanBeStored` | crates/acdp-registry-core/src/witness.rs:71-216 | Any cosignature of a root the log has can be received at any point and be stored. |
| `LogRoots.LogTakesKeeps` | crates/acdp-registry-core/src/handlers/log.rs:128-165 | Every step of serving and witnessing, with size, cache and leaves read apart, keeps all held roots true. |
| `LogRoots.RootsStayTrue` | crates/acdp-registry-core/src/witness.rs:71-127 | Every head ever cached, served or stored as cosigned is the root of that many leaves, within the tree, then and at every later point. |
| `LogRoots.NoTwoRootsForOneSize` | crates/acdp-registry-core/src/witness.rs:163-216 | No two heads the registry ever vouched for disagree at one size. |
| `LogRoots.RegistryLogGrows` | crates/acdp-registry-pg/src/store.rs:1346-1373 | Every execution of the registry grows its leaves by extension only, as the root argument needs. |

## Left out

- The HTTP surface, routing, CORS, metrics, tracing, DNS, outbound clients and configuration loading.
- The cryptography itself (AES-GCM, HMAC, HKDF, signatures, SHA-256, Merkle hashing): parameters with inverse or determinism laws.
- Full-text search, SQL text, JSON encoding and row decoding: rows and predicates only.
- Keyless attestation rules, receipt planning and event receipts, beyond whether a publish was receipted.
- The SQLite backend: the single-writer form of the same transitions.
- Auth stores, bearer and read tokens, pinned keys, playground validation, constant-time comparison.
- Cursor anchors and head fingerprints as a reset check: cursors carry them, and a feed that was reset and restarted is not modelled.
- 64-bit overflow of positions, clocks and the prune threshold's doubling, which no reachable size comes near.
- HintDelivery.LeaseFencing: supposes that a replica's own clock does not run backwards within one attempt.
- HintBatch.GateEmptiesInTime: attempts of a batch are ready from the moment it is spawned; delays of the async runtime itself are not modelled.
- RateLimiter.PruningIsInvisible: call times are in order; readings taken just before the lock may be out of order by the wait for it.
- LayeredLimits.AddressBound: the same order of times is supposed of the charges per address.
- FixedWindows.AnswersByCount: the same order of times is supposed of the calls.
- AuthOutcomes.ArrivalDecided: the same of the arrivals, and in AuthOutcomes.ChargeDecided of the charges per address.
- SharedWindow.EachMinuteAllowsItsLimit: database times in order; SharedWindow.AllowedAreFirst holds for any.
- SharedWindow.RowStaysInRange: the periodic deletion of windows long past is not part of the run.
- ClientAddress.ForgedPrefixIsIgnored: parsing of a single entry is a parameter.
