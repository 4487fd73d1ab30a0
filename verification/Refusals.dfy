/** Why events are refused: the error names the first check that fails (app/services/network_ingest.py). */
module Refusals {
  import opened Records
  import opened NetworkDb
  import opened NetworkIngest
  import opened LedgerInvariants
  import opened EventOutcomes
  import opened TransferOutcomes
  import opened SnapshotOutcomes

  // ---------------------------------------------------------------- inventory events

  /** What is wrong with the unit, for an inventory event. */
  ghost predicate Unbookable(db: Db, n: NodeCode, e: Event, item: Item, error: Error) {
    var s := item.serial;
    if s !in db.serials then error == MasterQrRequired
    else if s !in db.stock then error == StockTrackingConflict
    else if db.stock[s].owner != n then error == StockOwnershipConflict
    else if db.stock[s].origin !in db.nodes || db.serials[s].product !in db.products then error == StockDataConflict
    else if !IdentityAccepted(db, db.serials[s].product, db.stock[s].origin, item) then error == ProductIdentityConflict
    else !TakenFrom(e.kind, db.stock[s].status) && error == InvalidStockTransition
  }

  lemma ItemRefused(db: Db, n: NodeCode, e: Event, item: Item)
    requires n in db.nodes && IsInventory(e.kind) && InventoryItem(db, n, e, item).Err?
    ensures Unbookable(db, n, e, item, InventoryItem(db, n, e, item).error)
  {
    hide IdentityAccepted, BookItem, TakenFrom, Transition;
    if Tracked(db, item.serial) {
      TransitionError(e.kind, e.reason, db.stock[item.serial].status);
    }
  }

  lemma TransitionError(kind: EventType, reason: Reason, from: Status)
    requires IsInventory(kind)
    ensures Transition(kind, reason, from).Err? <==> !TakenFrom(kind, from)
    ensures Transition(kind, reason, from).Err? ==> Transition(kind, reason, from).error == InvalidStockTransition
  {
  }

  lemma SameRefusal(db: Db, mid: Db, n: NodeCode, e: Event, item: Item, error: Error)
    requires SameRows(db, mid, item.serial) && OnlyBooked(db, mid)
    ensures Unbookable(mid, n, e, item, error) <==> Unbookable(db, n, e, item, error)
  {
    hide SameIdentity, TakenFrom;
  }

  /** The item at `k` is the first that cannot be booked, and the error says why. */
  ghost predicate FirstUnbookable(db: Db, n: NodeCode, e: Event, items: seq<Item>, k: nat, error: Error) {
    k < |items| && Unbookable(db, n, e, items[k], error) && forall j | 0 <= j < k :: Bookable(db, n, e, items[j])
  }

  lemma {:induction false} ItemsRefused(db: Db, n: NodeCode, e: Event, items: seq<Item>)
    requires n in db.nodes && IsInventory(e.kind) && DistinctSerials(items) && InventoryItems(db, n, e, items).Err?
    ensures exists k: nat :: FirstUnbookable(db, n, e, items, k, InventoryItems(db, n, e, items).error)
    decreases |items|
  {
    hide InventoryItem, Bookable, Unbookable, DistinctSerials, SameRows, OthersSame, BookedItem, OtherItemsSame;
    var error := InventoryItems(db, n, e, items).error;
    ItemChecked(db, n, e, items[0]);
    if InventoryItem(db, n, e, items[0]).Err? {
      ItemRefused(db, n, e, items[0]);
      assert FirstUnbookable(db, n, e, items, 0, error);
    } else {
      var mid := InventoryItem(db, n, e, items[0]).value;
      ItemBooked(db, n, e, items[0]);
      FirstUnlisted(items);
      ItemsRefused(mid, n, e, items[1..]);
      var k: nat :| FirstUnbookable(mid, n, e, items[1..], k, error);
      forall j | 0 <= j < |items[1..]|
        ensures Bookable(mid, n, e, items[1..][j]) <==> Bookable(db, n, e, items[j + 1])
        ensures Unbookable(mid, n, e, items[1..][j], error) <==> Unbookable(db, n, e, items[j + 1], error)
      {
        UnlistedSame(db, mid, [items[0]], items[j + 1].serial);
        StillBookable(db, mid, n, e, items[1..][j]);
        SameRefusal(db, mid, n, e, items[1..][j], error);
      }
      LaterUnbookable(db, mid, n, e, items, k, error);
    }
  }

  lemma LaterUnbookable(db: Db, mid: Db, n: NodeCode, e: Event, items: seq<Item>, k: nat, error: Error)
    requires items != [] && Bookable(db, n, e, items[0]) && FirstUnbookable(mid, n, e, items[1..], k, error)
    requires forall j | 0 <= j < |items[1..]| ::
               && (Bookable(mid, n, e, items[1..][j]) <==> Bookable(db, n, e, items[j + 1]))
               && (Unbookable(mid, n, e, items[1..][j], error) <==> Unbookable(db, n, e, items[j + 1], error))
    ensures FirstUnbookable(db, n, e, items, k + 1, error)
  {
    hide Bookable, Unbookable;
    assert Unbookable(mid, n, e, items[1..][k], error);
    forall j | 0 <= j < k + 1 ensures Bookable(db, n, e, items[j]) {
      if j > 0 {
        assert Bookable(mid, n, e, items[1..][j - 1]);
      }
    }
  }

  /** A refused inventory event is refused for its first unit that cannot be booked. */
  lemma InventoryRefused(db: Db, n: NodeCode, e: Event)
    requires n in db.nodes && WellShaped(e) && IsInventory(e.kind) && ApplyEvent(db, n, e).Err?
    ensures exists k: nat :: FirstUnbookable(db, n, e, e.items, k, ApplyEvent(db, n, e).error)
  {
    var batched := db.(batches := db.batches[e.id := NewBatch(n, e)]);
    hide InventoryItems, FirstUnbookable, InRange, DistinctSerials;
    assert ApplyEvent(db, n, e) == Inventory(db, n, e);
    ItemsRefused(batched, n, e, e.items);
    var error := ApplyEvent(db, n, e).error;
    var k: nat :| FirstUnbookable(batched, n, e, e.items, k, error);
    hide ApplyEvent, Inventory;
    BatchlessRefusal(db, batched, n, e, k, error);
  }

  lemma BatchlessRefusal(db: Db, batched: Db, n: NodeCode, e: Event, k: nat, error: Error)
    requires batched == db.(batches := batched.batches) && FirstUnbookable(batched, n, e, e.items, k, error)
    ensures FirstUnbookable(db, n, e, e.items, k, error)
  {
    forall item: Item
      ensures Bookable(batched, n, e, item) <==> Bookable(db, n, e, item)
      ensures Unbookable(batched, n, e, item, error) <==> Unbookable(db, n, e, item, error)
    {
      BatchlessItem(db, batched, n, e, item, error);
    }
    hide Bookable, Unbookable;
  }

  lemma BatchlessItem(db: Db, batched: Db, n: NodeCode, e: Event, item: Item, error: Error)
    requires batched == db.(batches := batched.batches)
    ensures Bookable(batched, n, e, item) <==> Bookable(db, n, e, item)
    ensures Unbookable(batched, n, e, item, error) <==> Unbookable(db, n, e, item, error)
  {
    StillBookable(db, batched, n, e, item);
    hide SameIdentity, TakenFrom, Bookable;
  }

  // ---------------------------------------------------------------- dispatches

  ghost predicate Unsendable(db: Db, n: NodeCode, s: SerialNumber, error: Error) {
    if !Tracked(db, s) then error == StockUnknown
    else if db.stock[s].owner != n then error == StockOwnershipConflict
    else !Sendable(db, n, s) && error == StockNotAvailable
  }

  ghost predicate FirstUnsendable(db: Db, n: NodeCode, items: seq<Item>, k: nat, error: Error) {
    && k < |items| && Unsendable(db, n, items[k].serial, error)
    && forall j | 0 <= j < k :: Sendable(db, n, items[j].serial)
  }

  lemma {:induction false} UnitsUnsendable(db: Db, n: NodeCode, items: seq<Item>)
    requires CheckDispatchItems(db, n, items).Err?
    ensures exists k: nat :: FirstUnsendable(db, n, items, k, CheckDispatchItems(db, n, items).error)
  {
    var error := CheckDispatchItems(db, n, items).error;
    SendableExactly(db, n, items[0].serial);
    if CheckDispatchItem(db, n, items[0].serial).Err? {
      assert FirstUnsendable(db, n, items, 0, error);
    } else {
      UnitsUnsendable(db, n, items[1..]);
      hide Sendable, Unsendable, CheckDispatchItem;
      var k: nat :| FirstUnsendable(db, n, items[1..], k, error);
      forall j | 0 <= j < k + 1 ensures Sendable(db, n, items[j].serial) {
        if j > 0 {
          assert Sendable(db, n, items[1..][j - 1].serial);
        }
      }
      assert FirstUnsendable(db, n, items, k + 1, error);
    }
  }

  /** A refused dispatch names its destination, its reference, its id, or the first unit that cannot leave. */
  lemma DispatchRefused(db: Db, n: NodeCode, e: Event)
    requires n in db.nodes && WellShaped(e) && e.kind.TransferDispatched? && ApplyEvent(db, n, e).Err?
    ensures var error := ApplyEvent(db, n, e).error;
            if e.destination !in db.nodes || !db.nodes[e.destination].active then error == DestinationNotFound
            else if e.destination == n then error == InvalidTransfer
            else if exists u :: u in db.transfers && db.transfers[u].source == n && db.transfers[u].reference == e.reference
            then error == TransferReferenceConflict
            else if Transferred(e) in db.transfers then error == TransferIdConflict
            else exists k: nat :: FirstUnsendable(db, n, e.items, k, error)
  {
    hide CheckDispatchItems, CheckDispatchItem, DispatchItems, FirstUnsendable, InRange, DistinctSerials;
    assert ApplyEvent(db, n, e) == Dispatch(db, n, e);
    if CheckDispatchItems(db, n, e.items).Err? {
      UnitsUnsendable(db, n, e.items);
    }
  }

  // ---------------------------------------------------------------- receipts

  ghost predicate Unreceivable(db: Db, t: Uuid, s: SerialNumber, error: Error)
    requires t in db.transfers
  {
    if (t, s) !in db.transferItems then error == TransferItemConflict
    else if db.transferItems[(t, s)] != TransferItem(None) then error == TransferItemAlreadyReceived
    else !Receivable(db, t, s) && error == TransferStockConflict
  }

  ghost predicate FirstUnreceivable(db: Db, t: Uuid, items: seq<Item>, k: nat, error: Error) {
    && t in db.transfers && k < |items| && Unreceivable(db, t, items[k].serial, error)
    && forall j | 0 <= j < k :: Receivable(db, t, items[j].serial)
  }

  lemma SameUnreceivable(db: Db, mid: Db, t: Uuid, items: seq<Item>, s: SerialNumber, error: Error)
    requires OthersSame(db, mid, items) && OtherUnitsSame(db, mid, t, items) && Unlisted(items, s) && mid.transfers == db.transfers
    requires t in db.transfers
    ensures Unreceivable(mid, t, s, error) <==> Unreceivable(db, t, s, error)
  {
    StillReceivable(db, mid, t, items, s);
    UnlistedUnit(db, mid, t, items, s);
    hide OthersSame, OtherUnitsSame, Receivable;
  }

  lemma {:induction false} UnitsUnreceivable(db: Db, n: NodeCode, t: Uuid, e: Event, items: seq<Item>)
    requires n in db.nodes && t in db.transfers && DistinctSerials(items) && ReceiveItems(db, n, t, e, items).Err?
    ensures exists k: nat :: FirstUnreceivable(db, t, items, k, ReceiveItems(db, n, t, e, items).error)
    decreases |items|
  {
    hide Receivable, Landed, OthersSame, OtherUnitsSame, DistinctSerials, Unlisted, LandItem;
    var error := ReceiveItems(db, n, t, e, items).error;
    ItemReceived(db, n, t, e, items[0]);
    if ReceiveItem(db, n, t, e, items[0]).Err? {
      assert FirstUnreceivable(db, t, items, 0, error);
    } else {
      var mid := ReceiveItem(db, n, t, e, items[0]).value;
      hide ReceiveItem;
      FirstUnlisted(items);
      UnitsUnreceivable(mid, n, t, e, items[1..]);
      hide ReceiveItems, Unreceivable;
      var k: nat :| FirstUnreceivable(mid, t, items[1..], k, error);
      forall j | 0 <= j < |items[1..]|
        ensures Receivable(mid, t, items[1..][j].serial) <==> Receivable(db, t, items[j + 1].serial)
        ensures Unreceivable(mid, t, items[1..][j].serial, error) <==> Unreceivable(db, t, items[j + 1].serial, error)
      {
        StillReceivable(db, mid, t, [items[0]], items[1..][j].serial);
        SameUnreceivable(db, mid, t, [items[0]], items[1..][j].serial, error);
      }
      LaterUnreceivable(db, mid, t, items, k, error);
    }
  }

  lemma LaterUnreceivable(db: Db, mid: Db, t: Uuid, items: seq<Item>, k: nat, error: Error)
    requires items != [] && Receivable(db, t, items[0].serial) && t in db.transfers && FirstUnreceivable(mid, t, items[1..], k, error)
    requires forall j | 0 <= j < |items[1..]| ::
               && (Receivable(mid, t, items[1..][j].serial) <==> Receivable(db, t, items[j + 1].serial))
               && (Unreceivable(mid, t, items[1..][j].serial, error) <==> Unreceivable(db, t, items[j + 1].serial, error))
    ensures FirstUnreceivable(db, t, items, k + 1, error)
  {
    hide Receivable, Unreceivable;
    assert Unreceivable(mid, t, items[1..][k].serial, error);
    forall j | 0 <= j < k + 1 ensures Receivable(db, t, items[j].serial) {
      if j > 0 {
        assert Receivable(mid, t, items[1..][j - 1].serial);
      }
    }
  }

  /** A refused receipt names the transfer, or the first unit that is not there to be received. */
  lemma ReceiptRefused(db: Db, n: NodeCode, e: Event)
    requires n in db.nodes && WellShaped(e) && e.kind.TransferReceived? && ApplyEvent(db, n, e).Err?
    ensures var error, t := ApplyEvent(db, n, e).error, e.transferId.value;
            if t !in db.transfers then error == TransferNotFound
            else if db.transfers[t].destination != n then error == TransferForbidden
            else if db.transfers[t].status == FullyReceived then error == TransferAlreadyReceived
            else exists k: nat :: FirstUnreceivable(db, t, e.items, k, error)
  {
    hide ReceiveItems, FirstUnreceivable, InRange, DistinctSerials, CloseReceipt;
    var t := e.transferId.value;
    assert ApplyEvent(db, n, e) == ReceiveTransfer(db, n, e);
    if t in db.transfers && ReceiveItems(db, n, t, e, e.items).Err? {
      UnitsUnreceivable(db, n, t, e, e.items);
    }
  }

  // ---------------------------------------------------------------- replacements

  /** What keeps the reserved successor from taking the old serial's place. */
  ghost predicate Unexchangeable(db: Db, n: NodeCode, prior: Item, incoming: Item, error: Error) {
    var s := prior.serial;
    && Tracked(db, s) && incoming.serial !in db.serials
    && if db.stock[s].owner != n then error == StockOwnershipConflict
       else if !db.serials[s].active || db.stock[s].status !in {Generated, InStock, Returned, Damaged}
               || prior.status != Some(Invalid) || incoming.status != Some(Successor(db.stock[s].status))
       then error == InvalidReplacementTransition
       else if db.stock[s].origin !in db.nodes || db.serials[s].product !in db.products then error == StockDataConflict
       else if !IdentityAccepted(db, db.serials[s].product, db.stock[s].origin, prior)
               || !IdentityAccepted(db, db.serials[s].product, db.stock[s].origin, incoming)
       then error == ProductIdentityConflict
       else error == QrReplacementNotReserved
  }

  lemma ReplacementRefused(db: Db, n: NodeCode, e: Event)
    requires n in db.nodes && WellShaped(e) && e.kind.StockSnapshot? && e.reason == QrReplacement && ApplyEvent(db, n, e).Err?
    ensures var error := ApplyEvent(db, n, e).error;
            || (error == InvalidReplacementShape
                && !(|e.items| == 2
                     && ((Tracked(db, e.items[0].serial) && e.items[1].serial !in db.serials)
                         || (Tracked(db, e.items[1].serial) && e.items[0].serial !in db.serials))))
            || (|e.items| == 2 && Unexchangeable(db, n, e.items[0], e.items[1], error))
            || (|e.items| == 2 && Unexchangeable(db, n, e.items[1], e.items[0], error))
  {
    hide InRange, DistinctSerials, MatchesIntent, IdentityAccepted, SnapshotItems, Replace;
    assert ApplyEvent(db, n, e) == Snapshot(db, n, e) == ReplacementSnapshot(db, n, e);
    hide ApplyEvent, Snapshot;
  }

  // ---------------------------------------------------------------- snapshots

  /** What is wrong with the item, for a snapshot that may enrol new serials (`initial`) or may not. */
  ghost predicate Unsnappable(db: Db, n: NodeCode, initial: bool, item: Item, error: Error) {
    var s := item.serial;
    if item.status == None then error == InvalidStockStatus
    else if s !in db.serials then
      if !initial then error == MasterQrRequired
      else if item.status != Some(Generated) && item.status != Some(InStock) then error == InvalidEnrollmentStatus
      else !Enrollable(db, n, item) && error == ProductIdentityConflict
    else if s !in db.stock then error == StockTrackingConflict
    else if db.stock[s].owner != n then error == StockOwnershipConflict
    else if item.status != Some(db.stock[s].status) then error == StockStatusConflict
    else if db.stock[s].origin !in db.nodes || db.serials[s].product !in db.products then error == StockDataConflict
    else !Refreshable(db, n, item) && error == ProductIdentityConflict
  }

  lemma ItemUnsnappable(db: Db, n: NodeCode, e: Event, initial: bool, item: Item)
    requires n in db.nodes && SnapshotItem(db, n, e, initial, item).Err?
    ensures Unsnappable(db, n, initial, item, SnapshotItem(db, n, e, initial, item).error)
  {
    EnsuredAccepts(db, n, item);
    hide IdentityAccepted, Refresh, NewSerial, EnsureProduct;
    assert ProductCode(n, item.productCode) in EnsureProduct(db, ProductCode(n, item.productCode), item).products;
  }

  /** The items before `k` are accepted, and the one at `k` is wrong for the error's reason in the state that they leave. */
  ghost predicate FirstUnsnappable(db: Db, n: NodeCode, e: Event, initial: bool, items: seq<Item>, k: nat, error: Error)
    requires n in db.nodes
  {
    && k < |items| && SnapshotItems(db, n, e, initial, items[..k]).Ok?
    && Unsnappable(SnapshotItems(db, n, e, initial, items[..k]).value.0, n, initial, items[k], error)
  }

  lemma {:induction false} ItemsUnsnappable(db: Db, n: NodeCode, e: Event, initial: bool, items: seq<Item>)
    requires n in db.nodes && SnapshotItems(db, n, e, initial, items).Err?
    ensures exists k: nat :: FirstUnsnappable(db, n, e, initial, items, k, SnapshotItems(db, n, e, initial, items).error)
    decreases |items|
  {
    hide SnapshotItem, Unsnappable;
    var error := SnapshotItems(db, n, e, initial, items).error;
    if SnapshotItem(db, n, e, initial, items[0]).Err? {
      ItemUnsnappable(db, n, e, initial, items[0]);
      assert items[..0] == [];
      assert FirstUnsnappable(db, n, e, initial, items, 0, error);
    } else {
      var mid := SnapshotItem(db, n, e, initial, items[0]).value;
      ItemsUnsnappable(mid, n, e, initial, items[1..]);
      var k: nat :| FirstUnsnappable(mid, n, e, initial, items[1..], k, error);
      assert items[..k + 1][0] == items[0] && items[..k + 1][1..] == items[1..][..k];
      assert FirstUnsnappable(db, n, e, initial, items, k + 1, error);
    }
  }

  /** A refused snapshot is refused for its first item that Master cannot refresh or enrol. */
  lemma SnapshotRefused(db: Db, n: NodeCode, e: Event)
    requires n in db.nodes && WellShaped(e) && e.kind.StockSnapshot? && e.reason != QrReplacement && ApplyEvent(db, n, e).Err?
    ensures exists k: nat, initial: bool ::
              (initial <==> InWindow(db, n, e)) && FirstUnsnappable(db, n, e, initial, e.items, k, ApplyEvent(db, n, e).error)
  {
    InWindowExactly(db, n, e);
    hide SnapshotItems, ReplacementSnapshot, FirstUnsnappable, InRange, DistinctSerials, InWindow, IsInitialEnrollment;
    assert ApplyEvent(db, n, e) == Snapshot(db, n, e);
    ItemsUnsnappable(db, n, e, IsInitialEnrollment(db, n, e), e.items);
  }

  // ---------------------------------------------------------------- receipts of payment

  /** A receipt is submitted once, and then awaits review. */
  lemma SubmissionOutcome(db: Db, n: NodeCode, e: Event)
    requires n in db.nodes && WellShaped(e) && e.kind.ReceiptSubmitted?
    ensures ApplyEvent(db, n, e)
            == if (n, e.receiptId) in db.receipts then Err(IntegrityConflict)
               else Ok((db.(receipts := db.receipts[(n, e.receiptId) := AwaitingReview]), ReceiptResult(e.receiptId)))
  {
  }
}
