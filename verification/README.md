# Setuora Master, verified

A Dafny model of the parts of Setuora Master that must not go wrong: the ingestion of franchise events and
the stock, transfer and QR-replacement machine behind it; the queue that posts vouchers to Tally; the voucher
arithmetic that feeds the queue; the live sync of products with the Tally item master; and two self-contained
algorithms, the `.env` writer with its two readers and the fuzzy match of the searchable selects.

`dafny verify dfyconfig.toml` checks the whole project.

## How it is built

**The database and its requests.** `NetworkDb` holds the tables as finite maps on their unique keys.
`NetworkIngest`, `QrAllocation`, `QrReplacementIntent` and `TallyProducts` say, as functions, what one request
does to them, with the source's order of checks and its errors. `IngestService`, `AllocationService` and
`LiveSyncService` run the source's loops on a `Session` (a committed database and a working copy) and are proved
to compute those functions; `IngestService.PostEventsRequest` is the transaction boundary that commits or rolls
back. `MasterSystem` puts all requests and the administrator's actions into one transition system that starts
from an empty database; `Run` is any finite sequence of them.

**Invariants and theorems.** `StockInvariants`, `LedgerInvariants` and `MasterSystem.Inv` state what holds in
every reachable state; `StockSteps`, `EventInvariants` and `SystemSteps` prove that every step keeps it, item by
item; `MasterTheorems`, `ExactlyOnce`, `RequestTimes`, `AllocationTheorems`, `IntentTheorems`,
`LiveSyncTheorems` and `MovementReport` draw the consequences; `Frames` says what each request leaves alone.
`CommandDelivery` lets a Lite poll and acknowledge between Master's actions.

**Outcomes.** For each operation there is a theorem that says when it is accepted and what it leaves, on every input and
without the functions that compute it: `EventOutcomes` (inventory events), `TransferOutcomes`, `SnapshotOutcomes`,
`QrOutcomes`, `RequestOutcomes`, `LiveSyncOutcomes` and `TallyOutcomes`; `Refusals` says why events are refused, and
`IdentityTexts` what it means that an item names a product. `UnitHistory` follows the status of a unit over whole runs,
and `EventVouchers` the batch of an event.

**The Tally queue.** `TallyQueue` has one function for each call, with the process dying at any commit
boundary and Tally answering anything, and a class whose methods follow the source statement by statement and
are proved against those functions. A call works on the object its caller loaded, which may be stale: a commit
writes only the fields that differ from the loaded ones. `TallyQueueTheorems`, `TallyRetryTheorems` and
`TallyFrozenTheorems` are about all runs of calls, reconciliations and crashes, `TallyWorker` and `TallyStarvation`
about the passes of the retry worker over what its query selects. `MasterQueue` joins Master and the queue into one
system, in which ingestion enters each batch that it creates.

**Vouchers, `.env`, search.** `VoucherSummary` and `VoucherPostings` compute in paise and in hundredths of a
percent with exact rational rounding; the XML is the list of its (ledger, signed amount) postings. `VoucherSystem`
joins the two halves: every voucher of a batch of a reachable state balances. `VoucherSides` says which ledgers a voucher
debits and credits, and `VoucherLines` what its lines and its total are. `VoucherCrashes` says which batches
make the build crash and `WorkerBlockage` what that does to the worker. `EnvFile` and `SearchMatching` follow the
code character by character; `EnvFileLayout` says what a line means to the readers and which lines the writer touches.

## What was abstracted

- A franchise node is its permanent code, a serial its serial number, a UUID a number, a command's public id its
  position in the queue. Two payload hashes are equal exactly when the bodies are.
- Reference and reason texts are read as the forms that the code distinguishes (`Reference`, `Reason`).
- A product code is the pair of franchise code and local code; franchise codes hold no colon.
- `Db.enrolled` is a history variable: the serials that an initial snapshot created as IN_STOCK.
- Generated serial numbers, the clock, Tally's answers and the built request are arguments of the calls.
- Prices and rates from the database are real numbers; case folding is that of the ASCII letters.
- A `.env` file is its text after newline translation; the searched texts are lists of characters.

## Properties the code does not have

Each of these fails for some input; the named lemmas have the condition under which it holds.

- *What deploy.py writes to `.env` it reads back.* The writer replaces only the first line of a key, and deploy.py
  reads the last one, so an update of a key that several lines assign is lost (`EnvFileTheorems.DuplicateKeyLost`).
  `FileRoundTrip` has the condition.
- *What deploy.py writes to `.env` the application sees.* The application drops a byte-order mark before a key and
  deploy.py does not. A first line `A=1` behind such a mark is not rewritten, and the application goes on reading it
  (`EnvFileTheorems.MarkedFileKeepsOld`, `MarkHidesUpdate`). `ApplicationSeesUpdates` has the condition: each updated
  variable is read first from the line that was written, or already had the new value.
- *A retry repeats the last request, unless the batch was FAILED in between.* A caller's object is not reloaded when
  the row came back to the object's status. Such a call posts another request (`TallyFrozenTheorems.StaleRetryDiffers`),
  or, while Tally is switched off, posts nothing and replaces the frozen request for the next caller
  (`StaleSilentCallDiffers`). `FrozenExactly` has the condition on the object of each call, and `FrozenRetries` draws
  it over runs. The REMOTEID has its own condition (`NameKeptExactly`, `OneRemoteId`). At-most-once posting and queue
  exclusion do not depend on any of this.
- *A voucher is built or rejected.* When entered CGST and SGST rates add up to more than 100%, each of them being in
  range, the build raises an error that the queue does not catch (`VoucherCrashes.SixtyAndSixtyCrashes`).
  `CrashesReachably` has the condition, for the batches of every reachable state.
- *Every pending batch is tried in the end.* The worker's pass ends at such a batch and saves nothing of the try, so the
  batch keeps its place in the order. `TallyStarvation.StarvesExactly` has the condition for every queue: a pending
  voucher is never posted exactly when a batch is busy, or the voucher's own build always raises, or a batch without a
  frozen request whose build always raises sorts before it, whether or not that one was tried earlier.
  `WorkerBlockage.OverTaxedStarvesExactly` has it for the batches of every reachable state, `SixtyAndSixtyBlocks` a run.
- *CGST and SGST recover a GST-inclusive price within 0.01 per line.* They can miss it at exactly 100% and at every
  rate with an odd number of hundredths (`VoucherTheorems.SplitRecovers`).
- *A second live sync with the same list does nothing.* That holds in every reachable state if and only if no two
  items share a GUID (`LiveSyncTheorems.SecondSyncExactly`); where two do, a run of one import shows it
  (`SharedGuidUnsettles`).

A negative tax total would be left out of a voucher, so that its postings would not sum to zero
(`VoucherTheorems.DoubleEntry`). Ingestion never creates such a batch (`VoucherSystem.EveryVoucherBalances`).

## Model

| member | source | states |
|---|---|---|
| MasterTheorems.StockFlow | app/services/network_ingest.py:784-895 | In every reachable state, for each franchise and product, stock on hand (IN_STOCK, RETURNED, DAMAGED) plus sold, supplier returns, issued and sent out equals enrolled plus purchased, sales returns and transferred in |
| MovementReport.ReportBalances | app/routers/master_console.py:636-773 | The movement report of every reachable state satisfies the stock-flow equation line by line, for any selection of franchises |
| MovementReport.MovementRows | app/routers/master_console.py:636-773 | The loops over grouped counts put into each column exactly the number of matching rows; unselected franchises have no line |
| MasterTheorems.InTransitExactly | app/services/network_ingest.py:943-971 | A serial is IN_TRANSIT exactly while one unreceived manifest unit holds it; the transfer's source is its owner; its two rows agree |
| MasterTheorems.DeadBranches | app/services/network_ingest.py:1044-1071 | In a reachable state no event can meet an untracked or misplaced serial (TRANSFER_STOCK_CONFLICT, STOCK_TRACKING_CONFLICT, STOCK_DATA_CONFLICT), and an old sequence is always a conflict, never stale |
| MasterTheorems.SequencesExact | app/services/network_ingest.py:1198-1219 | Per node the accepted sequences are exactly 1 to last_sequence, each used by one event |
| MasterTheorems.ReceiptsPartition | app/services/network_ingest.py:1088-1112 | The receipts of a transfer partition its received units; the status says none, some or all; one receipt completes it, the last, exactly when all units are received |
| MasterTheorems.ReplacementChains | app/services/network_ingest.py:414-588 | Serials form disjoint acyclic replacement chains of one product and origin; exactly the last serial of a chain is active; active means not replaced means not INVALID |
| MasterTheorems.IntentsExact | app/services/qr_replacement_intent.py:126-164 | A serial is replaced exactly when its intent is completed, and then by the intent's reserved number; no two intents share a number or a command |
| IntentTheorems.ConsumedForGood | app/services/qr_replacement_intent.py:126-164 | A completed intent stays completed in every later state and no event can consume it again |
| SystemSteps.RunKeeps | app/services/network_ingest.py:1121-1153 | The invariant of all tables holds after any actions in any order from an empty database |
| EventInvariants.ApplyEventKeeps | app/services/network_ingest.py:1121-1153 | Every accepted event keeps the stock invariant, whichever items it carries |
| LedgerInvariants.ApplyEventLedger | app/services/network_ingest.py:1121-1153 | Every accepted event keeps receipts and intents exact and only adds commands |
| EventInvariants.NoCorruption | app/services/network_ingest.py:1059-1071 | No event sent to a state that satisfies the invariant fails with an error that means corrupted tables |
| ExactlyOnce.FoldOfAccepted | app/services/network_ingest.py:1168-1253 | After any schedule of requests, repeated, overlapping, split or failed, the database is the fold of the accepted events and the administrator's actions |
| ExactlyOnce.AcceptedOnce | app/services/network_ingest.py:1181-1196 | Each journalled event was accepted exactly once, and every accepted event is journalled |
| ExactlyOnce.ResendChangesNothing | app/services/network_ingest.py:1181-1196 | An accepted request resent at any later time returns the same acknowledgements and changes nothing |
| RequestTimes.SplitRequest | app/services/network_ingest.py:1168-1253 | An accepted request cut in two and sent as two requests at any two times is accepted, with the same database and acknowledgements up to the received-at stamps |
| ExactlyOnce.IngestSplits | app/services/network_ingest.py:1168-1253 | Ingesting a list equals ingesting its two halves in turn, also in the first error |
| IngestService.PostEventsRequest | app/routers/node_api.py:164-208 | A request is committed as a whole with its acknowledgements, or undone as a whole; too many items and an inactive node are refused |
| IngestService.IngestRequest | app/services/network_ingest.py:1168-1253 | The loop over events gives the acknowledgements and the database of the event-by-event function, or its first error |
| IngestService.IngestOneEvent | app/services/network_ingest.py:1177-1251 | Known events return the stored acknowledgement; conflicts, gaps and stale numbers are refused in the source's order; a new event is applied and journalled |
| RequestOutcomes.RequestOutcome | app/routers/node_api.py:164-208 | A request is refused, with nothing changed, exactly when it has too many items in all, its node is inactive, or one of its events is refused in its turn; else it answers with the acknowledgements and the last sequence |
| IngestService.InventoryEvent | app/services/network_ingest.py:784-895 | The loop books every item through the status automaton into both rows and the voucher batch, or ends with the first item's error |
| EventOutcomes.InventoryOutcome | app/services/network_ingest.py:716-895 | An accepted inventory event takes each listed unit, in both rows, from a status to a status of the table of its kind (a sales return to DAMAGED if the reason is DAMAGED or EXPIRED, else to IN_STOCK), keeps its owner, records its prices in the new batch, and changes nothing else |
| EventOutcomes.InventoryAccepted | app/services/network_ingest.py:716-769 | It is accepted if and only if each listed unit is the sender's, under an identity of its product, and in a status that the kind is accepted from |
| Refusals.InventoryRefused | app/services/network_ingest.py:819-870 | Otherwise it is refused for the first unit that is not, with the error of the first check that this unit fails |
| UnitHistory.EffectFollows | app/services/network_ingest.py:716-1118 | In every reachable state, an accepted event of any kind moves each unit that it lists as the automaton says, and neither it nor any administrator action touches another unit's stock row |
| UnitHistory.WithdrawnForGood | app/services/network_ingest.py:716-769 | A damaged, issued or replaced unit keeps its status whatever takes effect later, unless it was damaged and its QR is replaced; later events that list it are audits and snapshots |
| UnitHistory.DamagedForGood | app/services/network_ingest.py:746-750 | In every run, a unit returned as damaged or expired is never again sold, returned, issued, dispatched or received; in the end it is DAMAGED or its QR was replaced |
| EventVouchers.VoucherIsEvent | app/services/network_ingest.py:784-874 | In every reachable state the voucher of a batch has the kind and header of the event that created it, and one unit of each listed serial's product at the event's rate and discount, and nothing else |
| IngestService.SnapshotEvent | app/services/network_ingest.py:591-713 | Known serials are refreshed under the authoritative status; new ones are enrolled only in the initial window; the counts of created and updated items |
| SnapshotOutcomes.SnapshotOutcome | app/services/network_ingest.py:591-713 | An accepted snapshot refreshes known serials in the status that Master has, and enrols the others as the sender's own in the reported status, only from the first event or right after an initial snapshot; known products keep their records, a new one comes from its first new serial |
| Refusals.SnapshotRefused | app/services/network_ingest.py:627-700 | A refused snapshot is refused for the first item that Master can neither refresh nor enrol, with the error of the first check that it fails |
| IngestService.ReplacementSnapshotEvent | app/services/network_ingest.py:414-588 | The old serial becomes INVALID, the new one takes its place, and the intent is completed, or the first failing check is returned |
| SnapshotOutcomes.ReplacementOutcome | app/services/network_ingest.py:414-588 | A replacement is accepted if and only if one of its two items is a replaceable serial and the other its reserved successor; the old one is INVALID, inactive and replaced for good, the new one GENERATED if the old one was, else IN_STOCK, with its product, origin and details; nothing else changes |
| Refusals.ReplacementRefused | app/services/network_ingest.py:424-540 | A refused replacement has no such pair, or fails with the error of the first check that the pair fails |
| IngestService.DispatchTransfer | app/services/network_ingest.py:898-1017 | All items are validated before any row changes; then all go in transit and onto the manifest, and the destination is told |
| TransferOutcomes.DispatchOutcome | app/services/network_ingest.py:943-1017 | An accepted dispatch puts each listed unit in transit, in both rows and still the sender's, on a new manifest of just these units, tells the destination of all of them, and changes nothing else |
| TransferOutcomes.DispatchAccepted | app/services/network_ingest.py:898-941 | It is accepted if and only if its destination is another active node, its reference and id are unused, and each unit is active, the sender's, and IN_STOCK or RETURNED in both rows |
| Refusals.DispatchRefused | app/services/network_ingest.py:898-941 | Otherwise it fails for its destination, reference or id, or for the first unit that cannot leave, in the source's order |
| IngestService.ReceiveTransferEvent | app/services/network_ingest.py:1020-1118 | Listed units change owner and are closed, the transfer takes its status, and the source is sent the receipt |
| TransferOutcomes.ReceiptOutcome | app/services/network_ingest.py:1052-1118 | Each unit of an accepted receipt ends with the receiver, in both rows in the reported status if that is IN_STOCK or RETURNED, else IN_STOCK; no other unit changes; the transfer is RECEIVED exactly when no unit of it is open, and the source is told which units arrived |
| TransferOutcomes.ReceiptAccepted | app/services/network_ingest.py:1020-1071 | It is accepted if and only if the transfer is the sender's to receive and not yet received in full, and each listed unit is open and in transit from its source |
| TransferOutcomes.ReceivedAvailable | app/services/network_ingest.py:1073-1086 | Right after a receipt the receiver may sell, return or dispatch any of the received units: only identities, and the dispatch's destination, reference and id, are still checked |
| Refusals.ReceiptRefused | app/services/network_ingest.py:1020-1071 | A refused receipt names the transfer, or the first unit that is not there to be received, in the source's order |
| IngestService.ValidateProductIdentity | app/services/network_ingest.py:343-400 | The scan accepts exactly the current identity and the replaced ones of the product with that code |
| IdentityTexts.IdentitiesAgree | app/services/network_ingest.py:338-400 | Two identities agree if and only if their names, Tally names, HSN codes and units have the same words, whatever the case and spacing, and their GST rates differ by at most 0.0001 |
| LiveSyncTheorems.OldIdentitiesStayValid | app/services/network_ingest.py:343-400 | After any run an item passes exactly when it names the product's code and an identity the product had at some moment, up to text normalisation and GST tolerance |
| LiveSyncTheorems.RecordedIsEverHad | app/services/tally_products.py:238-251 | The identity history and the current identity are exactly the identities the product ever had |
| LiveSyncTheorems.SecondSyncExactly | app/services/tally_masters.py:521-536 | For every list with distinct casefolded names, which is all the reader returns: in every reachable state a second sync updates, logs and sends nothing, if and only if no two items share a GUID |
| LiveSyncTheorems.SharedGuidUnsettles | app/services/tally_products.py:204-214 | Wherever two items share a GUID, a product imported under the first one's name without GUID is updated by the second of two syncs |
| LiveSyncService.ApplyTallyStockItems | app/services/tally_products.py:200-256 | The dictionaries and the product loop compute the sync and its summary counts |
| LiveSyncService.IndexItems | app/services/tally_products.py:204-205 | A later item replaces an earlier one under the same GUID or casefolded name; items without a GUID are not indexed by it |
| LiveSyncService.SyncOne | app/services/tally_products.py:211-254 | One product is linked and, on a change, logged, renamed and announced |
| LiveSyncOutcomes.SyncOutcome | app/services/tally_products.py:200-256 | In every reachable state a live sync brings each linked product in line with the last item of its GUID, or else of its Tally name: Tally name, HSN and unit where the item has them, GST rate to 0.0001 unless the item is blocked, display name if it was the Tally name; prices stay; each changed product is logged once and announced once with its new record; all else is untouched, and the summary counts them |
| RequestOutcomes.LinkOutcome | app/services/tally_products.py:170-177 | Linking gives a product the item's GUID and the time of the link where it has none |
| RequestOutcomes.ImportOutcome | app/services/tally_products.py:178-195 | An imported product is listed last and announced to its franchise with its record |
| RequestOutcomes.ReviewOutcome | app/routers/receipts.py:82-130 | A receipt that awaits review is approved, or denied with remarks of at most 1000 characters, and its Lite is told; anything else changes nothing |
| RequestOutcomes.DecidedForGood | app/routers/receipts.py:93-95 | No later action changes the decision on a receipt |
| AllocationTheorems.NewAllocation | app/services/qr_allocation.py:171-247 | A new allocation issues ceil(quantity / 500) numbered parts of 1 to 500 serials that join to the returned list, and one GENERATED stock row for each serial |
| AllocationTheorems.ReplayedAllocation | app/services/qr_allocation.py:150-170 | Asked again at any later time: the same body returns the same list in order, another body is refused, nothing changes |
| AllocationTheorems.NeverIncomplete | app/services/qr_allocation.py:168-169 | No reachable state holds an incomplete allocation |
| QrOutcomes.AllocationOutcome | app/services/qr_allocation.py:92-247 | A new allocation is accepted if and only if node, quantity, product and dates are allowed and the numbers are new and distinct; each number then has an active GENERATED row of the product with the requested details, in order |
| AllocationService.AllocateQrSerials | app/services/qr_allocation.py:150-247 | The loop over the parts consumes all generated numbers in exactly ceil(quantity / 500) parts and equals the allocation function |
| AllocationService.ReadAllocation | app/services/qr_allocation.py:154-167 | The serials are read back from the commands of this allocation, in command order |
| AllocationService.RequestQrReplacement | app/services/qr_replacement_intent.py:49-123 | The retry loop reserves the first candidate that is neither issued nor reserved, or fails after five |
| QrReplacementIntent.FirstReservable | app/services/qr_replacement_intent.py:88-97 | The chosen number is reservable; if none is chosen no candidate is |
| QrOutcomes.ReservationOutcome | app/services/qr_replacement_intent.py:49-123 | A request is accepted if and only if the node owns the serial, which is active, replaceable and not yet reserved for, and one of five candidates is free; the first such is reserved in the serial's present status, and the Lite is told |
| CommandQueue.ListUnacknowledged | app/services/network_ingest.py:174-212 | A poll returns the longest prefix of the fetched window that fits 4 MiB, and fails exactly when it reaches a command that is too large by itself |
| CommandQueue.PollUnique | app/services/network_ingest.py:198-212 | The longest fitting prefix is unique, so the drain results hold of what a poll returns |
| CommandQueue.PollProgresses | app/services/network_ingest.py:174-212 | When every command fits, a poll of a non-empty queue succeeds and returns a non-empty prefix of the pending commands |
| CommandQueue.DrainDelivers | app/services/network_ingest.py:174-232 | Polling and acknowledging terminates having delivered every pending command exactly once in id order, whatever limit each poll uses |
| CommandDelivery.DeliveredInOrder | app/services/network_ingest.py:174-232 | In every run of Master in which the Lite polls and acknowledges between any actions, with complete, partial or lost polls: what it acknowledged followed by what is pending is every command that Master ever queued for it, once, in id order |
| CommandDelivery.StepAppends | app/services/network_ingest.py:155-171 | Every request and every action of an administrator, the review of a payment receipt included, only appends unacknowledged commands |
| CommandDelivery.AcknowledgedOneByOne | app/services/network_ingest.py:215-232 | The requests that acknowledge commands one by one mark exactly those commands |
| CommandDelivery.TimelineIsRun | app/routers/node_api.py:289 | Master's side of such a run is one of its own runs, so its invariants hold there |
| CommandQueue.PendingIds | app/services/network_ingest.py:186-196 | The query selects exactly the unacknowledged commands for the node without the withheld types, in id order |
| CommandQueue.WindowOldest | app/services/network_ingest.py:186-196 | A poll fetches the oldest pending commands, as many as were asked for, but at least one and at most a hundred |
| TallyQueueTheorems.AtMostOncePosting | app/services/tally.py:488-664 | Two consecutive posts of a batch are separated by the committed answer to the first, which shows no import, or by an operator's finding of absence |
| TallyQueueTheorems.QueueExclusion | app/services/tally.py:488-544 | In every reachable state at most one batch is SYNCING or REVIEW_REQUIRED |
| TallyQueueTheorems.PostsAlone | app/services/tally.py:488-513 | Every post in the history of any run was begun by one call, for a batch in a postable status, while no batch was SYNCING or REVIEW_REQUIRED |
| TallyQueueTheorems.ImportedOnce | app/services/tally.py:516-702 | If Tally's answers and the operator's findings are true, every batch is imported at most once and a SYNCED batch exactly once |
| TallyQueueTheorems.RunKeeps | app/services/tally.py:488-702 | Exclusion and the knowledge about unresolved posts hold in every run, for stale callers too |
| TallyFrozenTheorems.FrozenRetries | app/services/tally.py:488-664 | In every run whose calls on the batch work on objects with the row's request and REMOTEID, and may be stale in all else, consecutive posts carry the same request and REMOTEID unless the batch was FAILED in between |
| TallyFrozenTheorems.FrozenExactly | app/services/tally.py:488-664 | After a post, while the batch was not FAILED: some answer to a call, followed by harmless calls, makes the next post differ from the last, if and only if the call's object disagrees with the row (or, pending while the row is SYNCING, lacks a field) |
| TallyFrozenTheorems.StaleRetryDiffers | app/services/tally.py:511-513 | A stale caller posts another request although the batch was never FAILED |
| TallyFrozenTheorems.StaleSilentCallDiffers | app/services/tally.py:590-603 | A stale call that posts nothing replaces the frozen request, and the next call, on the row as it is, posts another one |
| TallyFrozenTheorems.NameKeptExactly | app/services/tally.py:179-181 | A call leaves a batch its REMOTEID whatever it meets, if and only if its object holds that REMOTEID, or cannot write one |
| TallyFrozenTheorems.OneRemoteId | app/services/tally.py:570 | If no call on the batch can change its REMOTEID, all its posts carry the same one, also after it was FAILED and built anew |
| TallyRetryTheorems.WorkerBounded | app/services/tally.py:638-647 | From PENDING_SYNC with no retries the worker alone posts a batch at most three times, always with the same request and REMOTEID |
| TallyWorker.RetryPendingBatches | app/services/sync_worker.py:25-57 | A pass calls, in order and on fresh rows, for the first batches of the query's order; only an exception or a crash ends it before the last one, and it is a run of the worker by itself |
| TallyStarvation.Starves | app/services/sync_worker.py:45-57 | Of a pending batch without a frozen request whose every build raises, tried before or not, and a pending batch that sorts after it, neither changes or is posted in any number of passes |
| TallyStarvation.StarvesExactly | app/services/sync_worker.py:25-57 | For every queue, every set of pending batches whose builds always raise and every limit: the worker by itself never posts a pending voucher, if and only if a batch is SYNCING or REVIEW_REQUIRED, or the voucher is in the set, or one of the set sorts before it |
| TallyQueue.Queue.SyncBatch | app/services/tally.py:488-513 | The call does nothing for finished batches and while one awaits review, works on an interrupted batch first, and reloads an outdated object |
| TallyQueue.Queue.SyncBatchLocked | app/services/tally.py:516-603 | Leases, interrupted imports, retries, closing, building and freezing follow the call's function, with the history of posts |
| TallyQueue.Queue.PostClaimed | app/services/tally.py:605-664 | Claim, post and record, with the process dying between any two commits |
| TallyQueue.Queue.Post | app/services/tally.py:383-478 | The answer is classified step by step as the classification function says; a bad address sends nothing |
| TallyQueue.Queue.ReconcileBatch | app/services/tally.py:667-702 | An operator's finding is recorded only for a batch under review; absence keeps the frozen request and resets the retries |
| TallyOutcomes.AnswerOutcome | app/services/tally.py:605-664 | A call that records Tally's answer leaves the batch SYNCED if the answer shows an import, REVIEW_REQUIRED if it shows neither, PENDING_SYNC if the connection was refused, the batch was not FAILED and this was not its third try, and else FAILED |
| TallyOutcomes.AnswerSettles | app/services/tally.py:605-664 | The same holds of every answer recorded in any run of the queue, from the status that the batch had in the table |
| TallyOutcomes.RejectedForGood | app/services/tally.py:638-663 | After a recorded rejection other than a refused connection, after a refusal of a batch that was FAILED, and after the third try, no run of the worker by itself posts the batch again |
| TallyOutcomes.PostOutcome | app/services/tally.py:574-636 | A posting call counts the retry, keeps or computes the REMOTEID, sends the frozen request, or the one built anew after a rejection, and holds the claim if the process dies before the answer is saved |
| TallyOutcomes.QuietOutcome | app/services/tally.py:516-603 | What a call that does not reach Tally leaves, for leases, interrupted imports, batches that are closed without a voucher, failing builds, and Tally switched off |
| TallyOutcomes.CallOutcome | app/services/tally.py:488-513 | A call does nothing for a finished batch or while one awaits review; else it works on an interrupted batch if there is one, or on its own, and touches no other |
| TallyOutcomes.FindingOutcome | app/services/tally.py:667-702 | A finding ends a review, as SYNCED or as pending with no retries, keeps the frozen request and REMOTEID, and does nothing to other batches |
| MasterQueue.ImportedOncePerEvent | app/services/network_ingest.py:784-818 | Master and its queue as one system, with true answers and findings: a voucher that Tally imported belongs to an event that was accepted, exactly once, and it was imported exactly once; a SYNCED batch was imported |
| MasterQueue.VoucherOfEachEvent | app/services/network_ingest.py:805-812 | The vouchers in the queue are those of the accepted events of the kinds that are posted to Tally |
| MasterQueue.QueueIsRun | app/services/network_ingest.py:791-818 | The queue of the joined system is a run of the queue, so its theorems hold there, and it has a row for each batch |
| MasterQueue.DbIsRun | app/services/network_ingest.py:1168-1253 | Master's tables in the joined system are those of a run of Master |
| VoucherTheorems.DoubleEntry | app/services/tally.py:260-378 | The postings of a built voucher sum to zero if and only if no tax total it would post is negative |
| VoucherTheorems.NonNegativeBalances | app/services/tally.py:260-378 | The postings of every voucher built from non-negative quantities, rates and discounts sum to zero, for every batch type |
| VoucherSystem.EveryVoucherBalances | app/services/network_ingest.py:784-874 | In every reachable state of Master, whenever the voucher of a batch is built its postings sum to zero, in whatever order its items are read |
| VoucherCrashes.CrashExactly | app/services/settings.py:59-66 | With GST and entered rates in 0 to 100, the build raises the uncaught error if and only if Tally is configured, the batch has a party and items, is a sale or return inside the state, and its CGST and SGST round to more than 100.00% together |
| VoucherCrashes.CrashesReachably | app/services/tally.py:574-589 | For every batch of every reachable state of Master the queue meets BuildCrashed under exactly that condition |
| VoucherCrashes.SixtyAndSixtyCrashes | app/network_schemas.py:78-80 | A franchise that registers, enrols a serial and sells it at 60% and 60% leaves a batch that crashes the build for every complete setting |
| WorkerBlockage.OverTaxedStarvesExactly | app/services/sync_worker.py:25-57 | In every reachable state of Master and its queue the same holds of the batches whose entered CGST and SGST exceed 100%, with their vouchers built from Master's tables |
| WorkerBlockage.SixtyAndSixtyBlocks | app/network_schemas.py:78-80 | After one sale at 60% and 60% the queue holds such a batch |
| VoucherSystem.RunValid | app/network_schemas.py:36-39 | The ranges that requests and the item master are checked for hold of all stored prices and GST rates in every reachable state |
| VoucherTheorems.ReturnNegatesSale | app/services/tally.py:256-378 | A sales return posts entry by entry the negation of the sale with the same contents, and is built under the same conditions |
| VoucherTheorems.SplitRecovers | app/services/voucher.py:16-19 | CGST and SGST recover every charged amount within 0.01 if and only if the rate is below 100% with an even number of hundredths |
| VoucherTheorems.IgstRecovers | app/services/voucher.py:16-19 | IGST recovers every charged amount within 0.01 for every rate up to 100% |
| VoucherTheorems.GstInclusiveRecovery | app/services/voucher.py:71-144 | The total before round-off is within 0.01 per line of the charged amount, and the round-off within 0.50 |
| VoucherTheorems.GroupingConserves | app/services/batch_items.py:20-42 | Groups conserve the units, and the lines' gross value is the sum of rate times quantity over the items |
| VoucherTheorems.OrderIrrelevant | app/services/voucher.py:59-155 | Permuting the items permutes the lines and leaves every total of the summary unchanged |
| VoucherSummary.GroupedBatchItems | app/services/batch_items.py:20-42 | The dictionary loop yields one group for each product, rate and discount, with all its units, in the order of first occurrence |
| VoucherSummary.CalculateVoucherSummary | app/services/voucher.py:59-155 | The loop's running totals are the sums over the lines; the final value is the total rounded to whole rupees |
| VoucherSummary.CalculateLine | app/services/voucher.py:71-126 | The three tax branches compute the line function: inter-state, entered rates, product rate |
| VoucherPostings.BuildVoucher | app/services/tally.py:186-380 | The voucher fails with the error of the first failing check, or consists of party, line, tax-by-rate and round-off postings |
| VoucherSides.PostingSides | app/services/tally.py:266-378 | A sale debits the party with the final value, credits the sales ledger of each line's rate with its taxable value and each tax of each rate, once, to the CGST, SGST or IGST ledger of that rate; a return posts to the same ledgers on the other sides; purchases and receipts credit the party and debit purchase, CGST and SGST ledgers; the round-off goes with the lines |
| VoucherSides.BuildsExactly | app/services/tally.py:186-265 | A voucher is built if and only if company, party and kind are given, each sales rate is a percentage, and every ledger that it needs is there |
| VoucherLines.LinesRead | app/services/voucher.py:71-126 | One line for each product, rate and discount among the items, with their units: gross, discount on the sales side, value without the GST that a sales price includes, and the taxes at the batch's or the product's rate, each to the nearest paisa with halves away from zero |
| VoucherLines.FinalValue | app/services/voucher.py:137-155 | The final value is the sum of the lines to the nearest rupee, and the round-off is the difference |
| VoucherPostings.PostTaxByRate | app/services/tally.py:326-356 | Tax is posted once for each rate in the order of first occurrence; a rate with IGST but no IGST ledger fails |
| Grouping.Partition | app/services/tally.py:327-336 | The totals by key add up to the total over all lines |
| EnvFileTheorems.FileRoundTrip | deploy.py:146-162 | deploy.py reads back the old values overridden by the updates, if and only if no updated key is assigned by several lines, unless the last already holds the new value |
| EnvFileTheorems.ApplicationSeesUpdates | app/config.py:23-46 | The application loads what it loaded before overridden by the updates its environment does not have, if and only if each of those is read first from the line deploy.py wrote, or already had the new value |
| EnvFileTheorems.MarkHidesUpdate | app/config.py:33 | An update of a key whose first line follows a byte-order mark leaves the application with the old value |
| EnvFileTheorems.MarkedFileKeepsOld | app/config.py:33 | A=1 behind a byte-order mark still reads 1 after A was set to 3 |
| EnvFileTheorems.DuplicateKeyLost | deploy.py:151-157 | Of two lines of one key only the first is rewritten, and deploy.py keeps reading the second |
| EnvFile.DecodersInvert | deploy.py:86-87 | The sequential and the single-pass decoder both undo the writer's escaping on every value |
| EnvFile.WriteEnv | deploy.py:146-162 | The rewriting loop pops each update at its first line, appends the rest, and leaves the joined text without trailing space |
| EnvFile.ReadEnv | deploy.py:74-91 | The reading loop keeps the last value of each key |
| EnvFileLayout.AssignmentReads | deploy.py:78-90 | Both readers take every assignment apart alike: spaces around key, = and value and a leading export do not count, single quotes are dropped, double quotes are dropped and their escapes decoded; without a name the application ignores the line |
| EnvFileLayout.OtherLines | app/config.py:27-30 | Comments, blank lines and lines without = mean nothing to either reader |
| EnvFileLayout.WrittenLayout | deploy.py:146-162 | An update replaces the first line of each updated key, keeps every other line as it is and in its place, and appends a line for each key that none assigned, after a blank line where the last was not blank |
| EnvFile.Environment.LoadEnvFile | app/config.py:23-46 | The loading loop keeps the environment's own value, else the first value of each key |
| SearchMatching.EditSimilarity | app/static/searchable-select.js:44-58 | The two rows overwritten in place compute the recursive edit distance and the similarity drawn from it |
| SearchMatching.DistanceIsLeastCost | app/static/searchable-select.js:49-56 | The recursive distance is the least cost of any script of keeps, substitutions, insertions and deletions |
| SearchMatching.SimilarityBounds | app/static/searchable-select.js:57 | Similarity is symmetric, lies in [0, 1], and is 1 only for equal strings |
| SearchMatching.SimilarityExactly | app/static/searchable-select.js:44-58 | Similarity times the longer length is that length less the cost of any cheapest script |
| SearchMatching.IsSubsequence | app/static/searchable-select.js:34-42 | The greedy scan answers whether an order-preserving embedding exists |

## Left out

- HTTP, authentication, sessions, templates, access filters, backups, SFTP, Windows tasks and Tailscale: plumbing around the modelled requests.
- The hash-truncated form of long product codes (app/services/network_ingest.py:122-127), and hash collisions.
- Audit rows of inventory transactions, service users, last-seen times, and of payment receipts the contents and who reviewed them when: nothing reads them back.
- Product edits on the console other than creating, importing, linking and live sync.
- `import_tally_products` as a loop: each item it creates or links is one `ImportProduct` or `LinkProduct` action; the code suggestion and the reuse of held codes are not modelled.
- The sleep between the worker's passes and the setting that gives its length.
- Tally's XML text, date, narration and party fields of a voucher; the parsing of the ledger-mapping text.
- `gramSimilarity`, the token scores and the DOM code of the searchable selects; surrogate pairs in `isSubsequence`.
- EnvFileTheorems.ApplicationSeesUpdates: the updated keys are names that the application can look up, that is, it reads them as they are written; deploy.py writes only such names.
- MovementReport.MovementRows: the grouping that the database does in SQL is written here as counting loops; the date filters and the row order are left out.
- AllocationService.AllocateQrSerials: leaves out the warehouse level and the length checks of the request's texts.
