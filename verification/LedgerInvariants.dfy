/** What every event keeps true of receipts, replacement intents and the event journal. */
module LedgerInvariants {
  import opened Records
  import opened NetworkDb
  import opened NetworkIngest
  import opened StockInvariants
  import opened StockSteps
  import opened EventInvariants

  // ---------------------------------------------------------------- predicates

  ghost predicate ReceiptFor(db: Db, i: nat, t: Uuid) {
    i < |db.commands| && db.commands[i].payload.TransferReceipt? && db.commands[i].payload.receiptOf == t
  }

  /** Receipt `i` tells the source that unit (t, s) arrived. */
  ghost predicate Carries(db: Db, i: nat, t: Uuid, s: SerialNumber) {
    ReceiptFor(db, i, t) && s in db.commands[i].payload.received
  }

  ghost predicate Completes(db: Db, i: nat, t: Uuid) {
    ReceiptFor(db, i, t) && db.commands[i].payload.complete
  }

  ghost predicate NothingReceived(db: Db, t: Uuid) {
    forall k | k in db.transferItems && k.0 == t :: db.transferItems[k].receipt.None?
  }

  /** The transfer's status says whether none, some or all of its non-empty manifest was received. */
  ghost predicate StatusRight(db: Db, t: Uuid)
    requires t in db.transfers
  {
    && (db.transfers[t].status.FullyReceived? <==> AllReceived(db, t))
    && (db.transfers[t].status.Dispatched? <==> NothingReceived(db, t))
    && exists s :: (t, s) in db.transferItems
  }

  /** The received units of a transfer are partitioned over its receipts. */
  ghost predicate Partitioned(db: Db) {
    && (forall k | k in db.transferItems && db.transferItems[k].receipt.Some? :: exists i :: Carries(db, i, k.0, k.1))
    && (forall i: nat, t: Uuid, s | Carries(db, i, t, s) :: (t, s) in db.transferItems && db.transferItems[(t, s)].receipt.Some?)
    && (forall i: nat, j: nat, t: Uuid, s | Carries(db, i, t, s) && Carries(db, j, t, s) :: i == j)
  }

  /** A full transfer has one completing receipt, its last; no other transfer has one. */
  ghost predicate Completion(db: Db) {
    && (forall i: nat, t: Uuid | ReceiptFor(db, i, t) :: t in db.transfers && db.commands[i].target == db.transfers[t].source)
    && (forall i: nat, t: Uuid | Completes(db, i, t) :: t in db.transfers && db.transfers[t].status.FullyReceived?)
    && (forall t | t in db.transfers && db.transfers[t].status.FullyReceived? :: exists i :: Completes(db, i, t))
    && (forall i: nat, j: nat, t: Uuid | Completes(db, i, t) && ReceiptFor(db, j, t) :: j <= i)
  }

  ghost predicate Receipts(db: Db) {
    && Partitioned(db) && Completion(db)
    && forall t | t in db.transfers :: StatusRight(db, t)
  }

  /** Every intent has its QR_REPLACE command. */
  ghost predicate IntentsQueued(db: Db) {
    forall o | o in db.intents ::
      && o in db.serials
      && db.intents[o].command < |db.commands|
      && db.commands[db.intents[o].command].target == db.intents[o].franchise
      && db.commands[db.intents[o].command].payload == QrReplace(o, db.intents[o].newSerial, db.intents[o].expected)
  }

  /** An intent is completed exactly when it was carried out; nothing is replaced without one. */
  ghost predicate IntentsMatch(db: Db) {
    && (forall o | o in db.intents :: db.intents[o].completed <==> Replaces(db, o, db.intents[o].newSerial))
    && (forall s, r | Replaces(db, s, r) :: s in db.intents && db.intents[s].newSerial == r)
  }

  ghost predicate Intents(db: Db) {
    && IntentsQueued(db)
    && (forall o, p | o in db.intents && p in db.intents && o != p :: db.intents[o].newSerial != db.intents[p].newSerial)
    && IntentsMatch(db)
  }

  /** Per node the accepted sequence numbers are exactly 1 to the last one, each used once. */
  ghost predicate Journal(db: Db) {
    && (forall e | e in db.journal ::
          && db.journal[e].event.id == e
          && db.journal[e].node in db.nodes
          && 1 <= db.journal[e].event.sequence <= db.nodes[db.journal[e].node].lastSequence
          && db.journal[e].acknowledgement.eventId == e
          && db.journal[e].acknowledgement.sequence == db.journal[e].event.sequence)
    && (forall e, f | e in db.journal && f in db.journal
                      && db.journal[e].node == db.journal[f].node
                      && db.journal[e].event.sequence == db.journal[f].event.sequence :: e == f)
    && (forall n, q | n in db.nodes && 1 <= q <= db.nodes[n].lastSequence :: SequenceUsed(db, n, q))
  }

  /** A voucher batch belongs to the journalled event that created it, and its entered rates are in range. */
  ghost predicate Vouchers(db: Db) {
    forall b | b in db.batches ::
      && b in db.journal && db.journal[b].node == db.batches[b].node && db.journal[b].event.kind == db.batches[b].kind
      && ValidHeader(db.batches[b].header)
  }

  // ---------------------------------------------------------------- what item steps leave alone

  /** Item steps do not queue commands, open transfers or batches, or touch intents and allocations. */
  ghost predicate Quiet(db: Db, next: Db) {
    && next.commands == db.commands && next.intents == db.intents && next.allocations == db.allocations
    && next.transfers == db.transfers && next.batches == db.batches
    && db.serials.Keys <= next.serials.Keys && next.identityHistory == db.identityHistory
    && ProductsGrow(db, next)
  }

  /** The product list names every product once. */
  ghost predicate Catalogue(db: Db) {
    && (forall c :: c in db.products <==> c in db.productOrder)
    && (forall i, j :: 0 <= i < j < |db.productOrder| ==> db.productOrder[i] != db.productOrder[j])
  }

  /** Products may be added, listed as they should be; none changes. */
  ghost predicate ProductsGrow(db: Db, next: Db) {
    && (forall c | c in db.products :: c in next.products && next.products[c] == db.products[c])
    && (Catalogue(db) ==> Catalogue(next))
  }

  ghost predicate SameReplacements(db: Db, next: Db) {
    forall s, r :: Replaces(next, s, r) <==> Replaces(db, s, r)
  }

  lemma MovedQuiet(db: Db, s: SerialNumber, status: Status, owner: NodeCode, details: Details, e: Uuid)
    requires Tracked(db, s)
    ensures var next := Moved(db, s, status, owner, details, e);
            Quiet(db, next) && SameReplacements(db, next) && next.transferItems == db.transferItems
  {
  }

  lemma EnsureGrows(db: Db, code: ProductCode, item: Item)
    ensures ProductsGrow(db, EnsureProduct(db, code, item))
  {
    var next := EnsureProduct(db, code, item);
    if code !in db.products && Catalogue(db) {
      assert next.productOrder == db.productOrder + [code];
      forall c ensures c in next.products <==> c in next.productOrder {
      }
      assert code !in db.productOrder;
    }
  }

  lemma EnsureQuiet(db: Db, code: ProductCode, item: Item)
    ensures Quiet(db, EnsureProduct(db, code, item)) && SameStockTables(db, EnsureProduct(db, code, item))
  {
    hide ProductsGrow;
    EnsureGrows(db, code, item);
    EnsureTouchesProducts(db, code, item);
    EnsureTouchesNoLedger(db, code, item);
    hide EnsureProduct;
  }

  lemma EnsureTouchesNoLedger(db: Db, code: ProductCode, item: Item)
    ensures var next := EnsureProduct(db, code, item);
            next.commands == db.commands && next.intents == db.intents && next.allocations == db.allocations
            && next.identityHistory == db.identityHistory
  {
  }

  lemma NewSerialQuiet(db: Db, n: NodeCode, e: Uuid, item: Item, code: ProductCode, status: Status)
    requires n in db.nodes && item.serial !in db.serials
    ensures var next := NewSerial(db, n, e, item, code, status);
            Quiet(db, next) && SameReplacements(db, next) && next.transferItems == db.transferItems
  {
  }

  lemma SnapshotItemQuiet(db: Db, n: NodeCode, e: Event, initial: bool, item: Item)
    requires n in db.nodes && SnapshotItem(db, n, e, initial, item).Ok?
    ensures var next := SnapshotItem(db, n, e, initial, item).value;
            Quiet(db, next) && SameReplacements(db, next) && next.transferItems == db.transferItems
  {
    hide ValidateIdentity, UpdatedDetails, Moved, NewSerial, EnsureProduct;
    if item.serial in db.serials {
      var s := item.serial;
      MovedQuiet(db, s, db.stock[s].status, db.stock[s].owner, UpdatedDetails(db.serials[s].details, db.nodes[n], item), e.id);
    } else {
      var code := ProductCode(n, item.productCode);
      EnsureQuiet(db, code, item);
      NewSerialQuiet(EnsureProduct(db, code, item), n, e.id, item, code, item.status.value);
    }
  }

  lemma {:induction false} SnapshotItemsQuiet(db: Db, n: NodeCode, e: Event, initial: bool, items: seq<Item>)
    requires n in db.nodes && SnapshotItems(db, n, e, initial, items).Ok?
    ensures var next := SnapshotItems(db, n, e, initial, items).value.0;
            Quiet(db, next) && SameReplacements(db, next) && next.transferItems == db.transferItems
    decreases |items|
  {
    hide SnapshotItem;
    if items != [] {
      SnapshotItemQuiet(db, n, e, initial, items[0]);
      SnapshotItemsQuiet(SnapshotItem(db, n, e, initial, items[0]).value, n, e, initial, items[1..]);
    }
  }

  lemma InventoryItemQuiet(db: Db, n: NodeCode, e: Event, item: Item)
    requires n in db.nodes && InventoryItem(db, n, e, item).Ok?
    ensures var next := InventoryItem(db, n, e, item).value;
            Quiet(db, next) && SameReplacements(db, next) && next.transferItems == db.transferItems
  {
    hide Moved, UpdatedDetails, CheckInventoryItem, Quiet;
    var s := item.serial;
    var target := CheckInventoryItem(db, n, e, item).value;
    var details := UpdatedDetails(db.serials[s].details, db.nodes[n], item);
    MovedQuiet(db, s, target, db.stock[s].owner, details, e.id);
    BatchItemQuiet(db, Moved(db, s, target, db.stock[s].owner, details, e.id), (e.id, s), BatchItem(item.rate, item.discountRate));
  }

  lemma BatchItemQuiet(db: Db, moved: Db, k: (Uuid, SerialNumber), row: BatchItem)
    requires Quiet(db, moved) && SameReplacements(db, moved)
    ensures var next := moved.(batchItems := moved.batchItems[k := row]);
            Quiet(db, next) && SameReplacements(db, next) && next.transferItems == moved.transferItems
  {
  }

  lemma {:induction false} InventoryItemsQuiet(db: Db, n: NodeCode, e: Event, items: seq<Item>)
    requires n in db.nodes && InventoryItems(db, n, e, items).Ok?
    ensures var next := InventoryItems(db, n, e, items).value;
            Quiet(db, next) && SameReplacements(db, next) && next.transferItems == db.transferItems
    decreases |items|
  {
    hide InventoryItem;
    if items != [] {
      InventoryItemQuiet(db, n, e, items[0]);
      InventoryItemsQuiet(InventoryItem(db, n, e, items[0]).value, n, e, items[1..]);
    }
  }

  // ---------------------------------------------------------------- manifests filled and received

  ghost predicate Listed(items: seq<Item>, s: SerialNumber) {
    exists k :: 0 <= k < |items| && items[k].serial == s
  }

  lemma ListedSplit(items: seq<Item>, s: SerialNumber)
    requires items != []
    ensures Listed(items, s) <==> s == items[0].serial || Listed(items[1..], s)
  {
    if Listed(items, s) {
      var k :| 0 <= k < |items| && items[k].serial == s;
      if k > 0 {
        assert items[1..][k - 1].serial == s;
      }
    }
    if Listed(items[1..], s) {
      var k :| 0 <= k < |items[1..]| && items[1..][k].serial == s;
      assert items[k + 1].serial == s;
    }
  }

  lemma DispatchItemQuiet(db: Db, t: Uuid, e: Uuid, s: SerialNumber)
    requires Tracked(db, s)
    ensures var next := DispatchItem(db, t, e, s);
            Quiet(db, next) && SameReplacements(db, next) && next.transferItems == db.transferItems[(t, s) := TransferItem(None)]
  {
    MovedQuiet(db, s, InTransit, db.stock[s].owner, db.serials[s].details, e);
    hide Moved;
  }

  type Manifest = map<(Uuid, SerialNumber), TransferItem>

  /** `next` adds exactly the listed units of transfer `t` to the manifest rows, unreceived. */
  ghost predicate Filled(rows: Manifest, next: Manifest, t: Uuid, items: seq<Item>) {
    && (forall k :: k in next <==> k in rows || (k.0 == t && Listed(items, k.1)))
    && (forall k | k in next :: next[k] == if k.0 == t && Listed(items, k.1) then TransferItem(None) else rows[k])
  }

  lemma FilledStep(rows: Manifest, next: Manifest, t: Uuid, items: seq<Item>)
    requires items != [] && Filled(rows[(t, items[0].serial) := TransferItem(None)], next, t, items[1..])
    ensures Filled(rows, next, t, items)
  {
    forall s ensures Listed(items, s) <==> s == items[0].serial || Listed(items[1..], s) {
      ListedSplit(items, s);
    }
    hide Listed;
  }

  lemma {:induction false} DispatchItemsFill(db: Db, t: Uuid, e: Uuid, items: seq<Item>)
    requires forall k :: 0 <= k < |items| ==> Tracked(db, items[k].serial)
    ensures var next := DispatchItems(db, t, e, items);
            Quiet(db, next) && SameReplacements(db, next) && Filled(db.transferItems, next.transferItems, t, items)
    decreases |items|
  {
    hide Tracked, DispatchItem, Replaces;
    if items != [] {
      var next := DispatchItem(db, t, e, items[0].serial);
      assert forall k :: 0 <= k < |items[1..]| ==> Tracked(db, items[1..][k].serial);
      DispatchItemQuiet(db, t, e, items[0].serial);
      DispatchItemsFill(next, t, e, items[1..]);
      hide Filled;
      FilledStep(db.transferItems, DispatchItems(next, t, e, items[1..]).transferItems, t, items);
    }
  }

  lemma ReceiveItemQuiet(db: Db, n: NodeCode, t: Uuid, e: Event, item: Item)
    requires n in db.nodes && t in db.transfers && ReceiveItem(db, n, t, e, item).Ok?
    ensures var next := ReceiveItem(db, n, t, e, item).value;
            Quiet(db, next) && SameReplacements(db, next)
            && next.transferItems == db.transferItems[(t, item.serial) := TransferItem(Some(e.id))]
  {
    hide UpdatedDetails, ReceivedStatus;
    var s := item.serial;
    MovedQuiet(db, s, ReceivedStatus(item.status), n, UpdatedDetails(db.serials[s].details, db.nodes[n], item), e.id);
    hide Moved;
  }

  /** Exactly the listed units are received, and each was open before. */
  lemma {:induction false} ReceiveItemsClose(db: Db, n: NodeCode, t: Uuid, e: Event, items: seq<Item>)
    requires n in db.nodes && t in db.transfers && ReceiveItems(db, n, t, e, items).Ok? && DistinctSerials(items)
    ensures var next := ReceiveItems(db, n, t, e, items).value;
            && Quiet(db, next) && SameReplacements(db, next)
            && next.transferItems.Keys == db.transferItems.Keys
            && (forall s | Listed(items, s) :: Open(db, (t, s)))
            && (forall k | k in db.transferItems ::
                  next.transferItems[k] == if k.0 == t && Listed(items, k.1) then TransferItem(Some(e.id)) else db.transferItems[k])
    decreases |items|
  {
    hide LandItem;
    if items != [] {
      var next := ReceiveItem(db, n, t, e, items[0]).value;
      ReceiveItemQuiet(db, n, t, e, items[0]);
      RestDistinct(items);
      ReceiveItemsClose(next, n, t, e, items[1..]);
      forall s ensures Listed(items, s) <==> s == items[0].serial || Listed(items[1..], s) {
        ListedSplit(items, s);
      }
      assert !Listed(items[1..], items[0].serial);
      hide Listed, ReceiveItem, ReceiveItems;
    }
  }

  // ---------------------------------------------------------------- receipts

  /** Commands are only appended; an acknowledgement changes neither target nor payload. */
  ghost predicate Extends(commands: seq<Command>, next: seq<Command>) {
    && |commands| <= |next|
    && forall i :: 0 <= i < |commands| ==> next[i].target == commands[i].target && next[i].payload == commands[i].payload
  }

  ghost predicate NoNewReceipt(commands: seq<Command>, next: seq<Command>) {
    Extends(commands, next) && forall i :: |commands| <= i < |next| ==> !next[i].payload.TransferReceipt?
  }

  lemma ReceiptsSame(db: Db, next: Db)
    requires NoNewReceipt(db.commands, next.commands)
    ensures forall i: nat, t: Uuid :: ReceiptFor(next, i, t) <==> ReceiptFor(db, i, t)
    ensures forall i: nat, t: Uuid, s :: Carries(next, i, t, s) <==> Carries(db, i, t, s)
    ensures forall i: nat, t: Uuid :: Completes(next, i, t) <==> Completes(db, i, t)
  {
  }

  lemma PartitionedFrame(db: Db, next: Db)
    requires Partitioned(db) && NoNewReceipt(db.commands, next.commands)
    requires forall k | k in db.transferItems :: k in next.transferItems && next.transferItems[k] == db.transferItems[k]
    requires forall k | k in next.transferItems :: k in db.transferItems || next.transferItems[k].receipt.None?
    ensures Partitioned(next)
  {
    ReceiptsSame(db, next);
    hide Carries, NoNewReceipt;
  }

  lemma CompletionFrame(db: Db, next: Db)
    requires Completion(db) && NoNewReceipt(db.commands, next.commands)
    requires forall t | t in db.transfers :: t in next.transfers && next.transfers[t] == db.transfers[t]
    requires forall t | t in next.transfers && t !in db.transfers :: !next.transfers[t].status.FullyReceived?
    ensures Completion(next)
  {
    ReceiptsSame(db, next);
    forall i: nat, t: Uuid | ReceiptFor(next, i, t)
      ensures t in next.transfers && next.commands[i].target == next.transfers[t].source
    {
      assert ReceiptFor(db, i, t);
    }
    hide Completes, NoNewReceipt;
  }

  /** An event that neither opens nor receives a transfer, and sends no receipt, keeps the receipts. */
  lemma ReceiptsFrame(db: Db, next: Db)
    requires Receipts(db) && NoNewReceipt(db.commands, next.commands)
    requires next.transfers == db.transfers && next.transferItems == db.transferItems
    ensures Receipts(next)
  {
    PartitionedFrame(db, next);
    CompletionFrame(db, next);
    hide Partitioned, Completion, NoNewReceipt;
  }

  /** What dispatching the listed units as the new transfer `t` changes. */
  ghost predicate DispatchedEffect(db: Db, next: Db, t: Uuid, transfer: Transfer, items: seq<Item>) {
    && t !in db.transfers && items != [] && transfer.status.Dispatched?
    && (forall s :: (t, s) !in db.transferItems)
    && next.transfers == db.transfers[t := transfer]
    && Filled(db.transferItems, next.transferItems, t, items)
    && next.commands == db.commands + [Command(transfer.destination, TransferAvailable(t, items), false)]
  }

  lemma DispatchHasEffect(db: Db, n: NodeCode, e: Event)
    requires Keys(db) && n in db.nodes && e.items != [] && Dispatch(db, n, e).Ok?
    ensures DispatchedEffect(db, Dispatch(db, n, e).value.0, TransferId(e),
                             Transfer(n, e.destination, e.reference, Dispatched, e.id), e.items)
  {
    var t := TransferId(e);
    assert t !in db.transfers by { CheckedNew(db, n, e, t); }
    assert forall s :: (t, s) !in db.transferItems;
    hide Keys, CheckDispatch, Filled, SameReplacements;
    CheckedNew(db, n, e, t);
    DispatchItemsFill(Booked(db, n, e, t), t, e.id, e.items);
    hide DispatchItems, Tracked;
  }

  lemma DispatchReceipts(db: Db, next: Db, t: Uuid, transfer: Transfer, items: seq<Item>)
    requires Receipts(db) && DispatchedEffect(db, next, t, transfer, items)
    ensures Receipts(next)
  {
    hide Partitioned, Completion, StatusRight, Filled;
    DispatchManifest(db, next, t, items);
    PartitionedFrame(db, next);
    CompletionFrame(db, next);
    forall u | u in next.transfers ensures StatusRight(next, u) {
      if u == t {
        ManifestStatus(db, next, t, items);
      } else {
        OtherStatus(db, next, u);
      }
    }
  }

  lemma CheckedNew(db: Db, n: NodeCode, e: Event, t: Uuid)
    requires CheckDispatch(db, n, e, t).Ok?
    ensures t !in db.transfers && e.destination in db.nodes && e.destination != n
    ensures forall k :: 0 <= k < |e.items| ==> Tracked(db, e.items[k].serial)
  {
    forall k | 0 <= k < |e.items| ensures Tracked(db, e.items[k].serial) {
      assert CheckDispatchItem(db, n, e.items[k].serial).Ok?;
    }
  }

  lemma DispatchManifest(db: Db, next: Db, t: Uuid, items: seq<Item>)
    requires Filled(db.transferItems, next.transferItems, t, items)
    requires forall s :: (t, s) !in db.transferItems
    ensures forall k | k in db.transferItems :: k in next.transferItems && next.transferItems[k] == db.transferItems[k]
    ensures forall k | k in next.transferItems :: k in db.transferItems || next.transferItems[k].receipt.None?
    ensures forall k | k in next.transferItems && k.0 != t :: k in db.transferItems
  {
    forall k | k in db.transferItems ensures k.0 != t {
      assert k == (k.0, k.1);
    }
  }

  lemma ManifestStatus(db: Db, next: Db, t: Uuid, items: seq<Item>)
    requires Filled(db.transferItems, next.transferItems, t, items) && items != []
    requires forall s :: (t, s) !in db.transferItems
    requires t in next.transfers && next.transfers[t].status.Dispatched?
    ensures StatusRight(next, t)
  {
    DispatchManifest(db, next, t, items);
    assert Listed(items, items[0].serial);
    assert (t, items[0].serial) in next.transferItems;
    forall k | k in next.transferItems && k.0 == t ensures next.transferItems[k].receipt.None? {
      assert k == (t, k.1);
    }
  }

  lemma OtherStatus(db: Db, next: Db, u: Uuid)
    requires u in db.transfers && StatusRight(db, u)
    requires u in next.transfers && next.transfers[u].status == db.transfers[u].status
    requires forall k | k in db.transferItems && k.0 == u :: k in next.transferItems && next.transferItems[k] == db.transferItems[k]
    requires forall k | k in next.transferItems && k.0 == u :: k in db.transferItems
    ensures StatusRight(next, u)
  {
    var s :| (u, s) in db.transferItems;
    assert (u, s) in next.transferItems;
    assert AllReceived(next, u) <==> AllReceived(db, u);
  }

  // ---------------------------------------------------------------- a partial or final receipt

  /** What receiving the listed units of transfer `t` changes, receipt command included. */
  ghost predicate ReceivedEffect(db: Db, next: Db, t: Uuid, e: Uuid, items: seq<Item>) {
    && t in db.transfers && !db.transfers[t].status.FullyReceived? && items != []
    && next.transferItems.Keys == db.transferItems.Keys
    && (forall s | Listed(items, s) :: Open(db, (t, s)))
    && (forall k | k in db.transferItems ::
          next.transferItems[k] == if k.0 == t && Listed(items, k.1) then TransferItem(Some(e)) else db.transferItems[k])
    && var status := if AllReceived(next, t) then FullyReceived else PartiallyReceived;
       && next.transfers == db.transfers[t := db.transfers[t].(status := status)]
       && next.commands == db.commands
          + [Command(db.transfers[t].source, TransferReceipt(t, status, AllReceived(next, t), Serials(items)), false)]
  }

  lemma ReceiveHasEffect(db: Db, n: NodeCode, e: Event)
    requires n in db.nodes && WellShaped(e) && e.kind.TransferReceived? && ReceiveTransfer(db, n, e).Ok?
    ensures ReceivedEffect(db, ReceiveTransfer(db, n, e).value.0, e.transferId.value, e.id, e.items)
  {
    var t := e.transferId.value;
    var landed := ReceiveItems(db, n, t, e, e.items).value;
    ReceiveItemsClose(db, n, t, e, e.items);
    hide ReceiveItems, Listed, Open, Quiet, SameReplacements;
    var next := ReceiveTransfer(db, n, e).value.0;
    assert next.transferItems == landed.transferItems;
    assert AllReceived(next, t) <==> AllReceived(landed, t);
  }

  lemma NewReceipt(db: Db, next: Db, t: Uuid, e: Uuid, items: seq<Item>)
    requires ReceivedEffect(db, next, t, e, items)
    ensures forall i: nat, u: Uuid :: ReceiptFor(next, i, u) <==> ReceiptFor(db, i, u) || (i == |db.commands| && u == t)
    ensures forall i: nat, u: Uuid, s :: Carries(next, i, u, s) <==> Carries(db, i, u, s) || (i == |db.commands| && u == t && Listed(items, s))
    ensures forall i: nat, u: Uuid :: Completes(next, i, u) <==> Completes(db, i, u) || (i == |db.commands| && u == t && AllReceived(next, t))
    ensures forall i: nat, u: Uuid | ReceiptFor(db, i, u) :: i < |db.commands|
    ensures ReceiptFor(next, |db.commands|, t)
  {
    hide Open;
    var received := Serials(items);
    forall s ensures s in received <==> Listed(items, s) {
    }
    hide Serials, AllReceived;
  }

  lemma ReceivePartitions(db: Db, next: Db, t: Uuid, e: Uuid, items: seq<Item>)
    requires Partitioned(db) && ReceivedEffect(db, next, t, e, items)
    ensures Partitioned(next)
  {
    NewReceipt(db, next, t, e, items);
    hide Listed, Carries, ReceiptFor, Completes, AllReceived, Serials;
    forall k | k in next.transferItems && next.transferItems[k].receipt.Some? ensures exists i: nat :: Carries(next, i, k.0, k.1) {
      if k.0 == t && Listed(items, k.1) {
        assert Carries(next, |db.commands|, k.0, k.1);
      } else {
        var i: nat :| Carries(db, i, k.0, k.1);
        assert Carries(next, i, k.0, k.1);
      }
    }
    forall i: nat, u: Uuid, s | Carries(next, i, u, s)
      ensures (u, s) in next.transferItems && next.transferItems[(u, s)].receipt.Some?
    {
    }
    forall i: nat, j: nat, u: Uuid, s | Carries(next, i, u, s) && Carries(next, j, u, s) ensures i == j {
      if u == t && Listed(items, s) {
        assert Open(db, (t, s));
      }
    }
  }

  lemma ReceiveCompletes(db: Db, next: Db, t: Uuid, e: Uuid, items: seq<Item>)
    requires Completion(db) && ReceivedEffect(db, next, t, e, items)
    ensures Completion(next)
  {
    NewReceipt(db, next, t, e, items);
    hide Listed, Carries, AllReceived, Serials;
    assert forall i: nat :: !Completes(db, i, t);
    forall u | u in next.transfers && next.transfers[u].status.FullyReceived? ensures exists i: nat :: Completes(next, i, u) {
      if u == t {
        assert Completes(next, |db.commands|, t);
      } else {
        var i: nat :| Completes(db, i, u);
        assert Completes(next, i, u);
      }
    }
    forall i: nat, u: Uuid | ReceiptFor(next, i, u)
      ensures u in next.transfers && next.commands[i].target == next.transfers[u].source
    {
      if i < |db.commands| {
        assert ReceiptFor(db, i, u);
      }
    }
    hide Completes, ReceiptFor;
  }

  lemma ReceiveStatus(db: Db, next: Db, t: Uuid, e: Uuid, items: seq<Item>)
    requires ReceivedEffect(db, next, t, e, items)
    ensures StatusRight(next, t)
  {
    var s := items[0].serial;
    assert Listed(items, s);
    assert Open(db, (t, s));
    assert (t, s) in next.transferItems && next.transferItems[(t, s)].receipt.Some?;
    hide Listed, Serials;
  }

  lemma ReceiveReceipts(db: Db, next: Db, t: Uuid, e: Uuid, items: seq<Item>)
    requires Receipts(db) && ReceivedEffect(db, next, t, e, items)
    ensures Receipts(next)
  {
    ReceivePartitions(db, next, t, e, items);
    ReceiveCompletes(db, next, t, e, items);
    hide Partitioned, Completion, StatusRight;
    forall u | u in next.transfers ensures StatusRight(next, u) {
      if u == t {
        ReceiveStatus(db, next, t, e, items);
      } else {
        OtherStatus(db, next, u);
      }
    }
  }

  // ---------------------------------------------------------------- intents

  lemma IntentsFrame(db: Db, next: Db)
    requires Intents(db) && next.intents == db.intents && Extends(db.commands, next.commands)
    requires db.serials.Keys <= next.serials.Keys && SameReplacements(db, next)
    ensures Intents(next)
  {
    hide Replaces;
  }

  lemma ReplaceCompletes(db: Db, n: NodeCode, e: Event, prior: Item, incoming: SerialNumber)
    requires n in db.nodes && Tracked(db, prior.serial) && prior.serial in db.intents
    ensures Replace(db, n, e, prior, incoming).intents == db.intents[prior.serial := db.intents[prior.serial].(completed := true)]
  {
    hide UpdatedDetails, ReplacementTarget;
  }

  lemma IntentDone(db: Db, next: Db, o: SerialNumber)
    requires Intents(db) && o in db.intents && next.commands == db.commands
    requires next.intents == db.intents[o := db.intents[o].(completed := true)]
    requires db.serials.Keys <= next.serials.Keys
    requires forall x, y :: Replaces(next, x, y) <==> Replaces(db, x, y) || (x == o && y == db.intents[o].newSerial)
    ensures Intents(next)
  {
    DoneQueued(db, next, o);
    DoneMatches(db, next, o);
    hide IntentsMatch, IntentsQueued;
  }

  lemma DoneMatches(db: Db, next: Db, o: SerialNumber)
    requires IntentsMatch(db) && o in db.intents
    requires next.intents == db.intents[o := db.intents[o].(completed := true)]
    requires forall x, y :: Replaces(next, x, y) <==> Replaces(db, x, y) || (x == o && y == db.intents[o].newSerial)
    ensures IntentsMatch(next)
  {
    hide Replaces;
    assert forall p :: p in next.intents <==> p in db.intents;
  }

  lemma DoneQueued(db: Db, next: Db, o: SerialNumber)
    requires IntentsQueued(db) && o in db.intents && next.commands == db.commands
    requires next.intents == db.intents[o := db.intents[o].(completed := true)]
    requires db.serials.Keys <= next.serials.Keys
    ensures IntentsQueued(next)
  {
  }

  /** Carrying out a pending intent completes it, and it alone. */
  lemma ReplaceIntents(db: Db, n: NodeCode, e: Event, prior: Item, incoming: SerialNumber)
    requires Intents(db) && n in db.nodes && Replacing(db, prior.serial, incoming)
    requires prior.serial in db.intents && db.intents[prior.serial].newSerial == incoming
    requires db.stock[prior.serial].owner == n && db.serials[prior.serial].replacedBy.None?
    ensures Intents(Replace(db, n, e, prior, incoming))
  {
    hide Intents, Replace, Replaceable, Replaces;
    var next := Replace(db, n, e, prior, incoming);
    ReplaceSwaps(db, n, e, prior, incoming);
    ReplaceLedger(db, n, e, prior, incoming);
    ReplaceCompletes(db, n, e, prior, incoming);
    SwapReplaces(db, next, prior.serial, incoming);
    IntentDone(db, next, prior.serial);
  }

  lemma ReplaceLedger(db: Db, n: NodeCode, e: Event, prior: Item, incoming: SerialNumber)
    requires n in db.nodes && Tracked(db, prior.serial) && prior.serial in db.intents
    ensures var next := Replace(db, n, e, prior, incoming);
            next.commands == db.commands && next.transfers == db.transfers && next.transferItems == db.transferItems
            && next.allocations == db.allocations && next.batches == db.batches && next.products == db.products
            && next.productOrder == db.productOrder && next.identityHistory == db.identityHistory
  {
    hide UpdatedDetails, ReplacementTarget;
  }

  // ---------------------------------------------------------------- commands and batches of one event

  /** An event queues no allocation, and opens no batch but its own. */
  ghost predicate Ordinary(db: Db, next: Db, n: NodeCode, e: Event) {
    && Extends(db.commands, next.commands)
    && (forall i :: |db.commands| <= i < |next.commands| ==> !next.commands[i].payload.QrAllocated? && !next.commands[i].payload.QrReplace?)
    && next.allocations == db.allocations
    && next.identityHistory == db.identityHistory
    && ProductsGrow(db, next)
    && (next.batches == db.batches || next.batches == db.batches[e.id := NewBatch(n, e)])
  }

  ghost predicate Ledger(db: Db) {
    Receipts(db) && Intents(db)
  }

  lemma SnapshotLedger(db: Db, n: NodeCode, e: Event, initial: bool)
    requires Ledger(db) && n in db.nodes && SnapshotItems(db, n, e, initial, e.items).Ok?
    ensures var next := SnapshotItems(db, n, e, initial, e.items).value.0; Ledger(next) && Ordinary(db, next, n, e)
  {
    hide Receipts, Intents, SnapshotItems, SameReplacements, NewBatch;
    SnapshotItemsQuiet(db, n, e, initial, e.items);
    var next := SnapshotItems(db, n, e, initial, e.items).value.0;
    ReceiptsFrame(db, next);
    IntentsFrame(db, next);
  }

  lemma Unreplaced(db: Db, s: SerialNumber)
    requires StockInv(db) && Tracked(db, s) && db.serials[s].active
    ensures db.serials[s].replacedBy.None?
  {
    hide Keys, Chains, Transit, Balanced;
  }

  lemma ReplaceKeepsLedger(db: Db, n: NodeCode, e: Event, prior: Item, incoming: SerialNumber)
    requires Ledger(db) && n in db.nodes && Replacing(db, prior.serial, incoming)
    requires prior.serial in db.intents && db.intents[prior.serial].newSerial == incoming
    requires db.stock[prior.serial].owner == n && db.serials[prior.serial].replacedBy.None?
    ensures var next := Replace(db, n, e, prior, incoming); Ledger(next) && Ordinary(db, next, n, e)
  {
    hide Receipts, Intents, Replace, Replaceable, NewBatch;
    ReplaceLedger(db, n, e, prior, incoming);
    ReplaceIntents(db, n, e, prior, incoming);
    ReceiptsFrame(db, Replace(db, n, e, prior, incoming));
  }

  lemma ReplacementLedger(db: Db, n: NodeCode, e: Event)
    requires StockInv(db) && Ledger(db) && n in db.nodes && ReplacementSnapshot(db, n, e).Ok?
    ensures var next := ReplacementSnapshot(db, n, e).value.0; Ledger(next) && Ordinary(db, next, n, e)
  {
    hide StockInv, Ledger, Ordinary, CheckReplacement, Replace, Replaceable, ReplacementTarget;
    var first, second := e.items[0], e.items[1];
    var (prior, incoming) := if Tracked(db, first.serial) then (first, second) else (second, first);
    TrackedTogether(db);
    CheckedReplacement(db, n, e, prior, incoming);
    Unreplaced(db, prior.serial);
    ReplaceKeepsLedger(db, n, e, prior, incoming.serial);
  }

  lemma InventoryLedger(db: Db, n: NodeCode, e: Event)
    requires Ledger(db) && n in db.nodes && Inventory(db, n, e).Ok?
    ensures var next := Inventory(db, n, e).value.0; Ledger(next) && Ordinary(db, next, n, e)
  {
    hide Receipts, Intents, InventoryItems, NewBatch;
    var booked := db.(batches := db.batches[e.id := NewBatch(n, e)]);
    InventoryItemsQuiet(booked, n, e, e.items);
    var next := Inventory(db, n, e).value.0;
    ReceiptsFrame(db, next);
    IntentsFrame(db, next);
  }

  lemma SameSerials(db: Db, next: Db)
    requires next.serials == db.serials
    ensures SameReplacements(db, next)
  {
  }

  /** A dispatch writes no intent, allocation, batch or identity, and replaces nothing. */
  ghost predicate DispatchFrame(db: Db, next: Db) {
    SameReplacements(db, next) && next.intents == db.intents && db.serials.Keys <= next.serials.Keys
    && next.allocations == db.allocations && next.batches == db.batches && next.identityHistory == db.identityHistory
    && ProductsGrow(db, next)
  }

  lemma LoadedFrame(db: Db, n: NodeCode, e: Event, t: Uuid, loaded: Db, payload: Payload)
    requires Quiet(Booked(db, n, e, t), loaded) && SameReplacements(Booked(db, n, e, t), loaded)
    ensures DispatchFrame(db, Queued(loaded, e.destination, payload))
  {
    var next := Queued(loaded, e.destination, payload);
    SameSerials(db, Booked(db, n, e, t));
    SameSerials(loaded, next);
    hide Replaces;
    assert SameReplacements(db, next);
    assert ProductsGrow(db, next) by { hide SameReplacements; GrowsSame(db, Booked(db, n, e, t), loaded, next); }
    hide SameReplacements, ProductsGrow;
  }

  lemma GrowsSame(db: Db, booked: Db, loaded: Db, next: Db)
    requires ProductsGrow(booked, loaded) && booked.products == db.products && booked.productOrder == db.productOrder
    requires next.products == loaded.products && next.productOrder == loaded.productOrder
    ensures ProductsGrow(db, next)
  {
  }

  lemma DispatchQuiet(db: Db, n: NodeCode, e: Event)
    requires n in db.nodes && Dispatch(db, n, e).Ok?
    ensures DispatchFrame(db, Dispatch(db, n, e).value.0)
  {
    var t := TransferId(e);
    var booked := Booked(db, n, e, t);
    hide DispatchItems, Filled, Tracked, Catalogue, SameReplacements, Quiet, Booked, Queued, DispatchFrame;
    assert CheckDispatch(db, n, e, t).Ok?;
    CheckedNew(db, n, e, t);
    BookedTracks(db, n, e, t);
    hide CheckDispatch;
    var loaded := DispatchItems(booked, t, e.id, e.items);
    DispatchItemsFill(booked, t, e.id, e.items);
    LoadedFrame(db, n, e, t, loaded, TransferAvailable(t, e.items));
  }

  lemma BookedTracks(db: Db, n: NodeCode, e: Event, t: Uuid)
    requires forall k :: 0 <= k < |e.items| ==> Tracked(db, e.items[k].serial)
    ensures forall k :: 0 <= k < |e.items| ==> Tracked(Booked(db, n, e, t), e.items[k].serial)
  {
  }

  lemma DispatchLedger(db: Db, n: NodeCode, e: Event)
    requires Keys(db) && Ledger(db) && n in db.nodes && e.items != [] && Dispatch(db, n, e).Ok?
    ensures var next := Dispatch(db, n, e).value.0; Ledger(next) && Ordinary(db, next, n, e)
  {
    hide Keys, Receipts, Intents, Dispatch, NewBatch, SameReplacements, Filled;
    var next := Dispatch(db, n, e).value.0;
    var transfer := Transfer(n, e.destination, e.reference, Dispatched, e.id);
    DispatchHasEffect(db, n, e);
    DispatchQuiet(db, n, e);
    DispatchReceipts(db, next, TransferId(e), transfer, e.items);
    IntentsFrame(db, next);
  }

  lemma ReceiveQuiet(db: Db, n: NodeCode, e: Event)
    requires n in db.nodes && e.transferId.Some? && DistinctSerials(e.items) && ReceiveTransfer(db, n, e).Ok?
    ensures var next := ReceiveTransfer(db, n, e).value.0;
            SameReplacements(db, next) && next.intents == db.intents && db.serials.Keys <= next.serials.Keys
            && next.allocations == db.allocations && next.batches == db.batches && next.identityHistory == db.identityHistory
            && ProductsGrow(db, next)
  {
    var t := e.transferId.value;
    ReceiveItemsClose(db, n, t, e, e.items);
    hide ReceiveItems, AllReceived;
  }

  lemma ReceiveLedger(db: Db, n: NodeCode, e: Event)
    requires Ledger(db) && n in db.nodes && WellShaped(e) && e.kind.TransferReceived? && ReceiveTransfer(db, n, e).Ok?
    ensures var next := ReceiveTransfer(db, n, e).value.0; Ledger(next) && Ordinary(db, next, n, e)
  {
    hide Receipts, Intents, ReceiveTransfer, NewBatch, SameReplacements, Open, Listed, AllReceived;
    var next := ReceiveTransfer(db, n, e).value.0;
    ReceiveHasEffect(db, n, e);
    ReceiveQuiet(db, n, e);
    ReceiveReceipts(db, next, e.transferId.value, e.id, e.items);
    IntentsFrame(db, next);
  }

  lemma SubmittedLedger(db: Db, n: NodeCode, e: Event)
    requires Ledger(db)
    ensures var next := db.(receipts := db.receipts[(n, e.receiptId) := AwaitingReview]); Ledger(next) && Ordinary(db, next, n, e)
  {
    hide Receipts, Intents, NewBatch;
    var next := db.(receipts := db.receipts[(n, e.receiptId) := AwaitingReview]);
    ReceiptsFrame(db, next);
    IntentsFrame(db, next);
  }

  lemma SnapshotEventLedger(db: Db, n: NodeCode, e: Event)
    requires StockInv(db) && Ledger(db) && n in db.nodes && Snapshot(db, n, e).Ok?
    ensures var next := Snapshot(db, n, e).value.0; Ledger(next) && Ordinary(db, next, n, e)
  {
    hide StockInv, Ledger, Ordinary, SnapshotItems, ReplacementSnapshot, IsInitialEnrollment;
    if e.reason.QrReplacement? {
      ReplacementLedger(db, n, e);
    } else {
      SnapshotLedger(db, n, e, IsInitialEnrollment(db, n, e));
    }
  }

  lemma SameLedger(db: Db, n: NodeCode, e: Event)
    ensures Ordinary(db, db, n, e)
  {
  }

  /** Whatever event is applied, receipts and intents stay right, and nothing else is queued. */
  lemma ApplyEventLedger(db: Db, n: NodeCode, e: Event)
    requires StockInv(db) && Ledger(db) && n in db.nodes && WellShaped(e)
    requires ApplyEvent(db, n, e).Ok?
    ensures var next := ApplyEvent(db, n, e).value.0; Ledger(next) && Ordinary(db, next, n, e)
  {
    assert Keys(db) by { hide Keys, Rows, Chains, Transit, Balanced; }
    hide StockInv, Ledger, Ordinary, Keys, Snapshot, Inventory, Dispatch, ReceiveTransfer, NewBatch, InRange, ValidHeader;
    match e.kind {
      case StockSnapshot => SnapshotEventLedger(db, n, e);
      case TransferDispatched => DispatchLedger(db, n, e);
      case TransferReceived => ReceiveLedger(db, n, e);
      case ReceiptSubmitted => SubmittedLedger(db, n, e);
      case Heartbeat => SameLedger(db, n, e);
      case _ => InventoryLedger(db, n, e);
    }
  }

  // ---------------------------------------------------------------- the journal

  lemma AcceptJournal(db: Db, n: NodeCode, now: int, e: Event)
    requires Journal(db) && n in db.nodes && WellShaped(e) && e.id !in db.journal && AcceptEvent(db, n, now, e).Ok?
    ensures Journal(AcceptEvent(db, n, now, e).value.0)
  {
    hide ApplyEvent;
    var next := AcceptEvent(db, n, now, e).value.0;
    assert next.journal == db.journal[e.id := next.journal[e.id]];
    assert next.nodes == db.nodes[n := db.nodes[n].(lastSequence := e.sequence)];
    forall m, q | m in next.nodes && 1 <= q <= next.nodes[m].lastSequence ensures SequenceUsed(next, m, q) {
      if m == n && q == e.sequence {
        assert e.id in next.journal;
      } else {
        assert SequenceUsed(db, m, q);
        var p :| p in db.journal && db.journal[p].node == m && db.journal[p].event.sequence == q;
        assert p in next.journal && next.journal[p].node == m && next.journal[p].event.sequence == q;
      }
    }
  }

  /** A number at or below the last one was always used, so it is a conflict and never stale. */
  lemma NeverStale(db: Db, n: NodeCode, now: int, e: Event)
    requires Journal(db) && n in db.nodes && WellShaped(e) && e.sequence <= db.nodes[n].lastSequence
    ensures AcceptEvent(db, n, now, e) == Err(SequenceConflict)
  {
    hide ApplyEvent;
    assert SequenceUsed(db, n, e.sequence);
  }
}
