/** Every franchise event keeps the stock invariants. */
module EventInvariants {
  import opened Records
  import opened NetworkDb
  import opened NetworkIngest
  import opened StockInvariants
  import opened StockSteps

  lemma RestDistinct(items: seq<Item>)
    requires DistinctSerials(items) && items != []
    ensures DistinctSerials(items[1..])
    ensures forall k :: 0 <= k < |items[1..]| ==> items[1..][k].serial != items[0].serial
  {
  }

  // ---------------------------------------------------------------- snapshots

  lemma SnapshotItemKeeps(db: Db, n: NodeCode, e: Event, initial: bool, item: Item)
    requires StockInv(db) && n in db.nodes && SnapshotItem(db, n, e, initial, item).Ok?
    ensures StockInv(SnapshotItem(db, n, e, initial, item).value)
  {
    hide StockInv, ValidateIdentity, Refresh, NewSerial, EnsureProduct, CheckKnown;
    if item.serial in db.serials {
      RefreshKeeps(db, n, e.id, item);
    } else {
      hide EnrolSerial;
      EnrolKeeps(db, n, e, item, item.status.value);
    }
  }

  lemma {:induction false} SnapshotItemsKeep(db: Db, n: NodeCode, e: Event, initial: bool, items: seq<Item>)
    requires StockInv(db) && n in db.nodes && SnapshotItems(db, n, e, initial, items).Ok?
    ensures StockInv(SnapshotItems(db, n, e, initial, items).value.0)
    decreases |items|
  {
    hide StockInv, SnapshotItem;
    if items != [] {
      SnapshotItemKeeps(db, n, e, initial, items[0]);
      SnapshotItemsKeep(SnapshotItem(db, n, e, initial, items[0]).value, n, e, initial, items[1..]);
    }
  }

  lemma ReplacementKeeps(db: Db, n: NodeCode, e: Event)
    requires StockInv(db) && n in db.nodes && ReplacementSnapshot(db, n, e).Ok?
    ensures StockInv(ReplacementSnapshot(db, n, e).value.0)
  {
    hide StockInv, Keys, ValidateIdentity, Replace, MatchesIntent, Replaceable, CheckReplacement;
    var first, second := e.items[0], e.items[1];
    var (prior, incoming) := if Tracked(db, first.serial) then (first, second) else (second, first);
    CheckedReplacement(db, n, e, prior, incoming);
    assert incoming.serial !in db.stock by { TrackedTogether(db); }
    ReplaceKeeps(db, n, e, prior, incoming.serial);
  }

  lemma TrackedTogether(db: Db)
    requires StockInv(db)
    ensures forall s :: s in db.serials <==> s in db.stock
  {
    hide Rows, Chains, Transit, Balanced;
  }

  lemma CheckedReplacement(db: Db, n: NodeCode, e: Event, prior: Item, incoming: Item)
    requires Tracked(db, prior.serial) && CheckReplacement(db, n, e, prior, incoming).Ok?
    ensures db.stock[prior.serial].owner == n && prior.serial in db.intents
    ensures db.serials[prior.serial].active && Replaceable(db.stock[prior.serial].status)
    ensures MatchesIntent(db, n, e, prior.serial, incoming.serial)
  {
    hide ValidateIdentity, Replaceable;
  }

  // ---------------------------------------------------------------- inventory events

  /** The event's batch is open and none of the items is booked in it yet. */
  ghost predicate BatchOpen(db: Db, n: NodeCode, e: Event, items: seq<Item>) {
    && e.id in db.batches && db.batches[e.id].kind == e.kind && db.batches[e.id].node == n
    && DistinctSerials(items)
    && forall k :: 0 <= k < |items| ==> (e.id, items[k].serial) !in db.batchItems
  }

  lemma InventoryItemKeeps(db: Db, n: NodeCode, e: Event, items: seq<Item>)
    requires StockInv(db) && n in db.nodes && items != [] && BatchOpen(db, n, e, items)
    requires InventoryItem(db, n, e, items[0]).Ok?
    ensures var next := InventoryItem(db, n, e, items[0]).value;
            StockInv(next) && BatchOpen(next, n, e, items[1..])
  {
    hide StockInv, ValidateIdentity, Transition, CheckInventoryItem;
    var item := items[0];
    var target := CheckInventoryItem(db, n, e, item).value;
    assert Bookable(db, e, item.serial);
    BookKeeps(db, n, e, item, target);
    RestDistinct(items);
    BookedOnly(db, n, e.id, item, target);
    hide BookItem;
  }

  lemma BookedOnly(db: Db, n: NodeCode, e: Uuid, item: Item, target: Status)
    requires n in db.nodes && Tracked(db, item.serial)
    ensures var next := BookItem(db, n, e, item, target);
            next.batches == db.batches && forall k :: k in next.batchItems <==> k in db.batchItems || k == (e, item.serial)
  {
    hide UpdatedDetails;
  }

  lemma {:induction false} InventoryItemsKeep(db: Db, n: NodeCode, e: Event, items: seq<Item>)
    requires StockInv(db) && n in db.nodes && BatchOpen(db, n, e, items)
    requires InventoryItems(db, n, e, items).Ok?
    ensures StockInv(InventoryItems(db, n, e, items).value)
    decreases |items|
  {
    hide StockInv, BatchOpen, InventoryItem;
    if items != [] {
      InventoryItemKeeps(db, n, e, items);
      InventoryItemsKeep(InventoryItem(db, n, e, items[0]).value, n, e, items[1..]);
    }
  }

  lemma NewBatchKeeps(db: Db, n: NodeCode, e: Event)
    requires StockInv(db) && e.id !in db.batches
    ensures StockInv(db.(batches := db.batches[e.id := NewBatch(n, e)]))
  {
    var next := db.(batches := db.batches[e.id := NewBatch(n, e)]);
    assert OutsideStock(db, next) by { hide Rows, Chains, Transit, Balanced; }
    hide StockInv;
    OutsideKeeps(db, next);
  }

  lemma InventoryKeeps(db: Db, n: NodeCode, e: Event)
    requires StockInv(db) && n in db.nodes && DistinctSerials(e.items) && e.id !in db.batches
    requires Inventory(db, n, e).Ok?
    ensures StockInv(Inventory(db, n, e).value.0)
  {
    var booked := db.(batches := db.batches[e.id := NewBatch(n, e)]);
    assert BatchOpen(booked, n, e, e.items) by { hide Rows, Chains, Transit, Balanced; }
    hide StockInv, InventoryItems, BatchOpen;
    NewBatchKeeps(db, n, e);
    InventoryItemsKeep(booked, n, e, e.items);
  }

  // ---------------------------------------------------------------- transfers

  /** Every listed unit can still be dispatched under this transfer. */
  ghost predicate Loadable(db: Db, t: Uuid, items: seq<Item>) {
    DistinctSerials(items) && forall k :: 0 <= k < |items| ==> Dispatchable(db, t, items[k].serial)
  }

  lemma DispatchItemLoads(db: Db, t: Uuid, e: Uuid, items: seq<Item>)
    requires items != [] && Loadable(db, t, items)
    ensures Loadable(DispatchItem(db, t, e, items[0].serial), t, items[1..])
  {
    RestDistinct(items);
    DispatchMoves(db, t, e, items[0].serial);
    hide DispatchItem, Available;
    var rest := items[1..];
    assert forall k :: 0 <= k < |rest| ==> Dispatchable(db, t, rest[k].serial);
  }

  lemma {:induction false} DispatchItemsKeep(db: Db, t: Uuid, e: Uuid, items: seq<Item>)
    requires StockInv(db) && Loadable(db, t, items)
    ensures (forall k :: 0 <= k < |items| ==> Tracked(db, items[k].serial)) && StockInv(DispatchItems(db, t, e, items))
    decreases |items|
  {
    assert forall k :: 0 <= k < |items| ==> Dispatchable(db, t, items[k].serial);
    if items != [] {
      hide StockInv, DispatchItem;
      DispatchItemLoads(db, t, e, items);
      DispatchKeeps(db, t, e, items[0].serial);
      hide Loadable;
      DispatchItemsKeep(DispatchItem(db, t, e, items[0].serial), t, e, items[1..]);
    }
  }

  lemma BookedKeeps(db: Db, n: NodeCode, e: Event, t: Uuid)
    requires StockInv(db) && n in db.nodes && t !in db.transfers && e.destination in db.nodes && e.destination != n
    ensures StockInv(Booked(db, n, e, t))
  {
    var next := Booked(db, n, e, t);
    assert OutsideStock(db, next) by { hide Rows, Chains, Transit, Balanced; }
    hide StockInv, Booked;
    OutsideKeeps(db, next);
  }

  lemma CheckedLoads(db: Db, n: NodeCode, e: Event, t: Uuid)
    requires Keys(db) && CheckDispatch(db, n, e, t).Ok? && DistinctSerials(e.items)
    ensures Loadable(Booked(db, n, e, t), t, e.items)
  {
    var booked := Booked(db, n, e, t);
    hide Available;
    assert forall s :: (t, s) !in db.transferItems;
    forall k | 0 <= k < |e.items| ensures Dispatchable(booked, t, e.items[k].serial) {
      assert CheckDispatchItem(db, n, e.items[k].serial).Ok?;
    }
  }

  lemma QueuedKeeps(db: Db, target: NodeCode, payload: Payload)
    requires StockInv(db)
    ensures StockInv(Queued(db, target, payload))
  {
    var next := Queued(db, target, payload);
    assert OutsideStock(db, next) by { hide Rows, Chains, Transit, Balanced; }
    hide StockInv, Queued;
    OutsideKeeps(db, next);
  }

  lemma DispatchEventKeeps(db: Db, n: NodeCode, e: Event)
    requires StockInv(db) && n in db.nodes && DistinctSerials(e.items)
    requires Dispatch(db, n, e).Ok?
    ensures StockInv(Dispatch(db, n, e).value.0)
  {
    var t := TransferId(e);
    assert Keys(db) by { hide Rows, Chains, Transit, Balanced; }
    assert t !in db.transfers && e.destination in db.nodes && e.destination != n by { hide StockInv; }
    CheckedLoads(db, n, e, t);
    hide StockInv, Booked, CheckDispatch, DispatchItems, Queued, Loadable;
    BookedKeeps(db, n, e, t);
    DispatchItemsKeep(Booked(db, n, e, t), t, e.id, e.items);
    QueuedKeeps(DispatchItems(Booked(db, n, e, t), t, e.id, e.items), e.destination, TransferAvailable(t, e.items));
  }

  lemma {:induction false} ReceiveItemsKeep(db: Db, n: NodeCode, t: Uuid, e: Event, items: seq<Item>)
    requires StockInv(db) && n in db.nodes && t in db.transfers && db.transfers[t].destination == n
    requires ReceiveItems(db, n, t, e, items).Ok?
    ensures StockInv(ReceiveItems(db, n, t, e, items).value)
    decreases |items|
  {
    hide StockInv;
    if items != [] {
      assert Landable(db, n, t, items[0].serial) by { hide LandItem; }
      LandKeeps(db, n, t, e.id, items[0]);
      hide LandItem, CheckReceiveItem;
      ReceiveItemsKeep(ReceiveItem(db, n, t, e, items[0]).value, n, t, e, items[1..]);
    }
  }

  lemma CloseReceiptKeeps(db: Db, t: Uuid, items: seq<Item>)
    requires StockInv(db) && t in db.transfers
    ensures StockInv(CloseReceipt(db, t, items))
  {
    var next := CloseReceipt(db, t, items);
    assert OutsideStock(db, next) by { hide Rows, Chains, Transit, Balanced, AllReceived; }
    hide StockInv, CloseReceipt;
    OutsideKeeps(db, next);
  }

  lemma ReceiveEventKeeps(db: Db, n: NodeCode, e: Event)
    requires StockInv(db) && n in db.nodes && e.transferId.Some?
    requires ReceiveTransfer(db, n, e).Ok?
    ensures StockInv(ReceiveTransfer(db, n, e).value.0)
  {
    hide StockInv, ReceiveItems, CloseReceipt;
    var t := e.transferId.value;
    ReceiveItemsKeep(db, n, t, e, e.items);
    CloseReceiptKeeps(ReceiveItems(db, n, t, e, e.items).value, t, e.items);
  }

  // ---------------------------------------------------------------- any event

  lemma SubmittedKeeps(db: Db, n: NodeCode, e: Event)
    requires StockInv(db)
    ensures StockInv(db.(receipts := db.receipts[(n, e.receiptId) := AwaitingReview]))
  {
    var next := db.(receipts := db.receipts[(n, e.receiptId) := AwaitingReview]);
    assert OutsideStock(db, next) by { hide Rows, Chains, Transit, Balanced; }
    hide StockInv;
    OutsideKeeps(db, next);
  }

  /** Whatever event is applied, the stock invariants hold afterwards. */
  lemma ApplyEventKeeps(db: Db, n: NodeCode, e: Event)
    requires StockInv(db) && n in db.nodes && WellShaped(e) && e.id !in db.batches
    requires ApplyEvent(db, n, e).Ok?
    ensures StockInv(ApplyEvent(db, n, e).value.0)
  {
    hide StockInv, SnapshotItems, ReplacementSnapshot, Inventory, Dispatch, ReceiveTransfer;
    match e.kind {
      case StockSnapshot =>
        if e.reason.QrReplacement? {
          ReplacementKeeps(db, n, e);
        } else {
          SnapshotItemsKeep(db, n, e, IsInitialEnrollment(db, n, e), e.items);
        }
      case TransferDispatched => DispatchEventKeeps(db, n, e);
      case TransferReceived => ReceiveEventKeeps(db, n, e);
      case ReceiptSubmitted => SubmittedKeeps(db, n, e);
      case Heartbeat =>
      case _ => InventoryKeeps(db, n, e);
    }
  }

  // ---------------------------------------------------------------- branches that cannot be taken

  /** Errors that only a broken database could raise. */
  predicate Corruption(error: Error) {
    error.StockTrackingConflict? || error.StockDataConflict? || error.TransferStockConflict?
  }

  lemma ValidateSound(db: Db, s: SerialNumber, item: Item)
    requires Keys(db) && s in db.serials
    ensures s in db.stock && db.stock[s].origin in db.nodes
    ensures var r := ValidateIdentity(db, db.serials[s].product, db.stock[s].origin, item); r.Err? ==> !Corruption(r.error)
  {
    hide IdentityAccepted;
  }

  lemma SnapshotItemSound(db: Db, n: NodeCode, e: Event, initial: bool, item: Item)
    requires Keys(db) && n in db.nodes
    ensures var r := SnapshotItem(db, n, e, initial, item); r.Err? ==> !Corruption(r.error)
  {
    if item.serial in db.serials {
      ValidateSound(db, item.serial, item);
      hide ValidateIdentity, Refresh, Keys;
    } else {
      hide IdentityAccepted, NewSerial, Keys;
    }
  }

  lemma {:induction false} SnapshotItemsSound(db: Db, n: NodeCode, e: Event, initial: bool, items: seq<Item>)
    requires StockInv(db) && n in db.nodes
    ensures var r := SnapshotItems(db, n, e, initial, items); r.Err? ==> !Corruption(r.error)
    decreases |items|
  {
    if items != [] {
      assert Keys(db) by { hide Keys, Rows, Chains, Transit, Balanced; }
      hide StockInv, Keys, SnapshotItem, Corruption;
      SnapshotItemSound(db, n, e, initial, items[0]);
      if SnapshotItem(db, n, e, initial, items[0]).Ok? {
        SnapshotItemKeeps(db, n, e, initial, items[0]);
        SnapshotItemsSound(SnapshotItem(db, n, e, initial, items[0]).value, n, e, initial, items[1..]);
      }
    }
  }

  lemma ReplacementSound(db: Db, n: NodeCode, e: Event)
    requires Keys(db) && n in db.nodes
    ensures var r := ReplacementSnapshot(db, n, e); r.Err? ==> !Corruption(r.error)
  {
    if |e.items| == 2 {
      var first, second := e.items[0], e.items[1];
      var (prior, incoming) := if Tracked(db, first.serial) then (first, second) else (second, first);
      if Tracked(db, prior.serial) {
        ValidateSound(db, prior.serial, prior);
        ValidateSound(db, prior.serial, incoming);
      }
      hide ValidateIdentity, Replace, MatchesIntent, Replaceable, Keys;
    }
  }

  lemma InventoryItemSound(db: Db, n: NodeCode, e: Event, item: Item)
    requires Keys(db) && n in db.nodes
    ensures var r := CheckInventoryItem(db, n, e, item); r.Err? ==> !Corruption(r.error)
  {
    if item.serial in db.serials {
      ValidateSound(db, item.serial, item);
      hide ValidateIdentity, Keys;
    }
  }

  lemma {:induction false} InventoryItemsSound(db: Db, n: NodeCode, e: Event, items: seq<Item>)
    requires StockInv(db) && n in db.nodes && BatchOpen(db, n, e, items)
    ensures var r := InventoryItems(db, n, e, items); r.Err? ==> !Corruption(r.error)
    decreases |items|
  {
    if items != [] {
      assert Keys(db) by { hide Keys, Rows, Chains, Transit, Balanced; }
      hide StockInv, Keys, CheckInventoryItem, BookItem, Corruption, BatchOpen;
      InventoryItemSound(db, n, e, items[0]);
      if InventoryItem(db, n, e, items[0]).Ok? {
        InventoryItemKeeps(db, n, e, items);
        InventoryItemsSound(InventoryItem(db, n, e, items[0]).value, n, e, items[1..]);
      }
    }
  }

  /** An open unit is in transit and still its source's: the stock conflict cannot be raised. */
  lemma ReceiveItemSound(db: Db, t: Uuid, s: SerialNumber)
    requires Keys(db) && Transit(db) && t in db.transfers
    ensures var r := CheckReceiveItem(db, t, s); r.Err? ==> !Corruption(r.error)
  {
    if (t, s) in db.transferItems && db.transferItems[(t, s)].receipt.None? {
      assert Open(db, (t, s));
    }
  }

  lemma {:induction false} ReceiveItemsSound(db: Db, n: NodeCode, t: Uuid, e: Event, items: seq<Item>)
    requires StockInv(db) && n in db.nodes && t in db.transfers && db.transfers[t].destination == n
    ensures var r := ReceiveItems(db, n, t, e, items); r.Err? ==> !Corruption(r.error)
    decreases |items|
  {
    if items != [] {
      assert Keys(db) && Transit(db) by { hide Keys, Rows, Chains, Transit, Balanced; }
      hide StockInv, Keys, Transit, Corruption;
      ReceiveItemSound(db, t, items[0].serial);
      if ReceiveItem(db, n, t, e, items[0]).Ok? {
        assert Landable(db, n, t, items[0].serial) by { hide LandItem; }
        LandKeeps(db, n, t, e.id, items[0]);
        hide LandItem, CheckReceiveItem;
        ReceiveItemsSound(ReceiveItem(db, n, t, e, items[0]).value, n, t, e, items[1..]);
      }
    }
  }

  lemma DispatchSound(db: Db, n: NodeCode, e: Event)
    ensures var r := CheckDispatch(db, n, e, TransferId(e)); r.Err? ==> !Corruption(r.error)
  {
    DispatchItemsSound(db, n, e.items);
  }

  lemma {:induction false} DispatchItemsSound(db: Db, n: NodeCode, items: seq<Item>)
    ensures var r := CheckDispatchItems(db, n, items); r.Err? ==> !Corruption(r.error)
  {
    if items != [] {
      DispatchItemsSound(db, n, items[1..]);
    }
  }

  lemma InventorySound(db: Db, n: NodeCode, e: Event)
    requires StockInv(db) && n in db.nodes && DistinctSerials(e.items) && e.id !in db.batches
    ensures var r := Inventory(db, n, e); r.Err? ==> !Corruption(r.error)
  {
    var booked := db.(batches := db.batches[e.id := NewBatch(n, e)]);
    assert BatchOpen(booked, n, e, e.items) by { hide Rows, Chains, Transit, Balanced; }
    hide StockInv, InventoryItems, BatchOpen, Corruption;
    NewBatchKeeps(db, n, e);
    InventoryItemsSound(booked, n, e, e.items);
  }

  /** No event, from any state that keeps the invariants, reports untracked, orphaned or misplaced stock. */
  lemma NoCorruption(db: Db, n: NodeCode, e: Event)
    requires StockInv(db) && n in db.nodes && WellShaped(e) && e.id !in db.batches
    ensures var r := ApplyEvent(db, n, e); r.Err? ==> !Corruption(r.error)
  {
    assert Keys(db) by { hide Keys, Rows, Chains, Transit, Balanced; }
    hide StockInv, Keys, SnapshotItems, ReplacementSnapshot, Inventory;
    match e.kind {
      case StockSnapshot =>
        if e.reason.QrReplacement? {
          ReplacementSound(db, n, e);
        } else {
          SnapshotItemsSound(db, n, e, IsInitialEnrollment(db, n, e), e.items);
        }
      case TransferDispatched =>
        hide CheckDispatch, DispatchItems;
        DispatchSound(db, n, e);
      case TransferReceived =>
        var t := e.transferId.value;
        hide ReceiveItems, CloseReceipt;
        if CheckReceive(db, n, t).Ok? {
          ReceiveItemsSound(db, n, t, e, e.items);
        }
      case ReceiptSubmitted =>
      case Heartbeat =>
      case _ => InventorySound(db, n, e);
    }
  }
}
