/** What accepted franchise events make of the serials they list, and of all others (app/services/network_ingest.py). */
module EventOutcomes {
  import opened Records
  import opened NetworkDb
  import opened NetworkIngest
  import opened LedgerInvariants

  // ---------------------------------------------------------------- rows

  /** Both rows of the serial are as they were. */
  ghost predicate SameRows(db: Db, next: Db, s: SerialNumber) {
    && (s in next.serials <==> s in db.serials) && (s in next.stock <==> s in db.stock)
    && (s in db.serials ==> next.serials[s] == db.serials[s])
    && (s in db.stock ==> next.stock[s] == db.stock[s])
  }

  ghost predicate OthersSame(db: Db, next: Db, items: seq<Item>) {
    forall s | Unlisted(items, s) :: SameRows(db, next, s)
  }

  predicate Unlisted(items: seq<Item>, s: SerialNumber) {
    forall k :: 0 <= k < |items| ==> items[k].serial != s
  }

  /** A reported batch number, date or warehouse replaces the stored one; a blank warehouse means the node's own. */
  ghost predicate Reported(item: Item, node: Node, was: Details, now: Details) {
    && now.batchNumber == (if item.details.batchNumber.Some? then item.details.batchNumber else was.batchNumber)
    && now.mfgDate == (if item.details.mfgDate.Some? then item.details.mfgDate else was.mfgDate)
    && now.expiryDate == (if item.details.expiryDate.Some? then item.details.expiryDate else was.expiryDate)
    && now.warehouse == (if item.details.warehouse.Some? && item.details.warehouse.value != "" then item.details.warehouse
                         else if item.details.warehouse.Some? || (node.godown.Some? && node.godown.value != "") then node.godown
                         else was.warehouse)
  }

  /** The listed serial has the owner and status in both rows, its reported details, and is otherwise as it was. */
  ghost predicate Written(db: Db, next: Db, n: NodeCode, e: Uuid, item: Item, owner: NodeCode, status: Status) {
    var s := item.serial;
    && n in db.nodes && Tracked(db, s) && Tracked(next, s)
    && next.stock[s] == Stock(owner, db.stock[s].origin, status, Some(e))
    && next.serials[s] == db.serials[s].(status := status, details := next.serials[s].details)
    && Reported(item, db.nodes[n], db.serials[s].details, next.serials[s].details)
  }

  lemma DetailsReported(was: Details, node: Node, item: Item)
    ensures Reported(item, node, was, UpdatedDetails(was, node, item))
  {
  }

  lemma MovedWrites(db: Db, n: NodeCode, e: Uuid, item: Item, owner: NodeCode, status: Status)
    requires n in db.nodes && Tracked(db, item.serial)
    ensures var next := Moved(db, item.serial, status, owner, UpdatedDetails(db.serials[item.serial].details, db.nodes[n], item), e);
            Written(db, next, n, e, item, owner, status) && OthersSame(db, next, [item])
  {
    DetailsReported(db.serials[item.serial].details, db.nodes[n], item);
    hide Reported, UpdatedDetails;
    forall s | Unlisted([item], s) ensures s != item.serial {
      assert [item][0].serial != s;
    }
  }

  /** The rows of later items do not depend on the first, and the first item's rows stay. */
  lemma WrittenThenSame(db: Db, mid: Db, next: Db, n: NodeCode, e: Uuid, item: Item, owner: NodeCode, status: Status)
    requires Written(db, mid, n, e, item, owner, status) && SameRows(mid, next, item.serial)
    ensures Written(db, next, n, e, item, owner, status)
  {
    hide Reported;
  }

  lemma SameThenWritten(db: Db, mid: Db, next: Db, n: NodeCode, e: Uuid, item: Item, owner: NodeCode, status: Status)
    requires SameRows(db, mid, item.serial) && mid.nodes == db.nodes && Written(mid, next, n, e, item, owner, status)
    ensures Written(db, next, n, e, item, owner, status)
  {
    hide Reported;
  }

  lemma OthersTwice(db: Db, mid: Db, next: Db, items: seq<Item>)
    requires items != [] && OthersSame(db, mid, [items[0]]) && OthersSame(mid, next, items[1..])
    ensures OthersSame(db, next, items)
  {
    forall s | Unlisted(items, s) ensures SameRows(db, next, s) {
      assert items[0].serial != s && Unlisted([items[0]], s);
      assert forall k :: 0 <= k < |items[1..]| ==> items[1..][k] == items[k + 1];
      assert Unlisted(items[1..], s);
    }
  }

  lemma UnlistedSame(db: Db, next: Db, items: seq<Item>, s: SerialNumber)
    requires OthersSame(db, next, items) && Unlisted(items, s)
    ensures SameRows(db, next, s)
  {
  }

  lemma FirstUnlisted(items: seq<Item>)
    requires items != [] && DistinctSerials(items)
    ensures Unlisted(items[1..], items[0].serial) && DistinctSerials(items[1..])
    ensures forall k :: 0 <= k < |items[1..]| ==> items[1..][k] == items[k + 1] && Unlisted([items[0]], items[1..][k].serial)
  {
  }

  // ---------------------------------------------------------------- inventory events

  /** The statuses from which an event of this kind takes a unit. */
  ghost predicate TakenFrom(kind: EventType, from: Status) {
    match kind
    case Purchase => from == Generated || from == Status.PurchaseReturn
    case Receive => from == Generated || from == Status.PurchaseReturn
    case Sale => from == InStock || from == Returned
    case SalesReturn => from == Sold
    case SupplierReturn => from == InStock || from == Returned
    case Issue => from == InStock
    case Audit => true
    case _ => false
  }

  /** The status automaton as a relation: from which status, to which status, an event takes a unit. */
  ghost predicate Takes(kind: EventType, reason: Reason, from: Status, to: Status) {
    && TakenFrom(kind, from)
    && match kind
       case Sale => to == Sold
       case SalesReturn => to == (if reason == DamagedGoods || reason == ExpiredGoods then Damaged else InStock)
       case SupplierReturn => to == Status.PurchaseReturn
       case Issue => to == Issued
       case Audit => to == from
       case _ => to == InStock
  }

  lemma TransitionTakes(kind: EventType, reason: Reason, from: Status)
    ensures Transition(kind, reason, from).Ok? <==> TakenFrom(kind, from)
    ensures Transition(kind, reason, from).Ok? ==> Takes(kind, reason, from, Transition(kind, reason, from).value)
  {
  }

  /** What a listed unit must be for the event. */
  ghost predicate Bookable(db: Db, n: NodeCode, e: Event, item: Item) {
    var s := item.serial;
    && Tracked(db, s) && db.stock[s].owner == n && db.stock[s].origin in db.nodes
    && db.serials[s].product in db.products && IdentityAccepted(db, db.serials[s].product, db.stock[s].origin, item)
    && TakenFrom(e.kind, db.stock[s].status)
  }

  ghost predicate BookedItem(db: Db, next: Db, n: NodeCode, e: Event, item: Item) {
    && Tracked(db, item.serial) && item.serial in next.stock
    && Takes(e.kind, e.reason, db.stock[item.serial].status, next.stock[item.serial].status)
    && Written(db, next, n, e.id, item, n, next.stock[item.serial].status)
    && (e.id, item.serial) in next.batchItems && next.batchItems[(e.id, item.serial)] == BatchItem(item.rate, item.discountRate)
  }

  /** Only this event's batch gains items. */
  ghost predicate OtherItemsSame(db: Db, next: Db, e: Uuid, items: seq<Item>) {
    forall k: (Uuid, SerialNumber) | k.0 != e || Unlisted(items, k.1) ::
      (k in next.batchItems <==> k in db.batchItems) && (k in db.batchItems ==> next.batchItems[k] == db.batchItems[k])
  }

  lemma CheckedExactly(db: Db, n: NodeCode, e: Event, item: Item)
    ensures CheckInventoryItem(db, n, e, item).Ok? <==> Bookable(db, n, e, item)
    ensures CheckInventoryItem(db, n, e, item).Ok? ==>
              Tracked(db, item.serial) && db.stock[item.serial].owner == n
              && Takes(e.kind, e.reason, db.stock[item.serial].status, CheckInventoryItem(db, n, e, item).value)
  {
    hide IdentityAccepted, Transition, Takes, TakenFrom;
    if Tracked(db, item.serial) {
      TransitionTakes(e.kind, e.reason, db.stock[item.serial].status);
    }
  }

  ghost predicate OnlyBooked(db: Db, next: Db) {
    next == db.(serials := next.serials, stock := next.stock, batchItems := next.batchItems)
  }

  lemma ItemBooked(db: Db, n: NodeCode, e: Event, item: Item)
    requires n in db.nodes && InventoryItem(db, n, e, item).Ok?
    ensures var next := InventoryItem(db, n, e, item).value;
            && BookedItem(db, next, n, e, item) && OthersSame(db, next, [item]) && OtherItemsSame(db, next, e.id, [item])
            && OnlyBooked(db, next)
  {
    CheckedExactly(db, n, e, item);
    var to := CheckInventoryItem(db, n, e, item).value;
    hide CheckInventoryItem, IdentityAccepted, Takes, UpdatedDetails, Reported;
    MovedWrites(db, n, e.id, item, db.stock[item.serial].owner, to);
    assert [item][0] == item;
  }

  lemma StillBookable(db: Db, mid: Db, n: NodeCode, e: Event, item: Item)
    requires SameRows(db, mid, item.serial)
    requires mid.products == db.products && mid.identityHistory == db.identityHistory && mid.nodes == db.nodes
    ensures Bookable(mid, n, e, item) <==> Bookable(db, n, e, item)
  {
    hide SameIdentity, TakenFrom;
  }

  lemma ItemChecked(db: Db, n: NodeCode, e: Event, item: Item)
    requires n in db.nodes
    ensures InventoryItem(db, n, e, item).Ok? <==> Bookable(db, n, e, item)
  {
    CheckedExactly(db, n, e, item);
    hide CheckInventoryItem, BookItem, Bookable, Takes;
  }

  lemma {:induction false} ItemsAccepted(db: Db, n: NodeCode, e: Event, items: seq<Item>)
    requires n in db.nodes && DistinctSerials(items)
    ensures InventoryItems(db, n, e, items).Ok? <==> forall k :: 0 <= k < |items| ==> Bookable(db, n, e, items[k])
    decreases |items|
  {
    hide InventoryItem, Bookable, SameRows, BookedItem, DistinctSerials, OtherItemsSame, OthersSame;
    if items != [] {
      ItemChecked(db, n, e, items[0]);
      FirstUnlisted(items);
      if InventoryItem(db, n, e, items[0]).Ok? {
        var mid := InventoryItem(db, n, e, items[0]).value;
        ItemBooked(db, n, e, items[0]);
        ItemsAccepted(mid, n, e, items[1..]);
        forall k | 0 <= k < |items[1..]| ensures Bookable(mid, n, e, items[1..][k]) <==> Bookable(db, n, e, items[k + 1]) {
          UnlistedSame(db, mid, [items[0]], items[k + 1].serial);
          StillBookable(db, mid, n, e, items[1..][k]);
        }
        AllFromRest(db, n, e, items, mid);
      }
    }
  }

  lemma AllFromRest(db: Db, n: NodeCode, e: Event, items: seq<Item>, mid: Db)
    requires items != [] && Bookable(db, n, e, items[0])
    requires forall k | 0 <= k < |items[1..]| :: Bookable(mid, n, e, items[1..][k]) <==> Bookable(db, n, e, items[k + 1])
    ensures (forall k :: 0 <= k < |items| ==> Bookable(db, n, e, items[k]))
            <==> forall k :: 0 <= k < |items[1..]| ==> Bookable(mid, n, e, items[1..][k])
  {
    hide Bookable;
    if forall k :: 0 <= k < |items[1..]| ==> Bookable(mid, n, e, items[1..][k]) {
      forall k | 0 <= k < |items| ensures Bookable(db, n, e, items[k]) {
        if k > 0 {
          assert Bookable(mid, n, e, items[1..][k - 1]) && items[k - 1 + 1] == items[k];
        }
      }
    }
  }

  lemma NothingBooked(db: Db, e: Uuid)
    ensures OthersSame(db, db, []) && OtherItemsSame(db, db, e, [])
  {
  }

  lemma {:induction false} ItemsBooked(db: Db, n: NodeCode, e: Event, items: seq<Item>)
    requires n in db.nodes && DistinctSerials(items) && InventoryItems(db, n, e, items).Ok?
    ensures var next := InventoryItems(db, n, e, items).value;
            && (forall k :: 0 <= k < |items| ==> BookedItem(db, next, n, e, items[k]))
            && OthersSame(db, next, items) && OtherItemsSame(db, next, e.id, items) && OnlyBooked(db, next)
    decreases |items|
  {
    hide InventoryItem, BookedItem, OthersSame, OtherItemsSame, SameRows, DistinctSerials;
    if items == [] {
      NothingBooked(db, e.id);
    } else {
      var mid, next := InventoryItem(db, n, e, items[0]).value, InventoryItems(db, n, e, items).value;
      FirstUnlisted(items);
      ItemBooked(db, n, e, items[0]);
      ItemsBooked(mid, n, e, items[1..]);
      OthersTwice(db, mid, next, items);
      OtherItemsTwice(db, mid, next, e.id, items);
      UnlistedSame(mid, next, items[1..], items[0].serial);
      FirstBookedStays(db, mid, next, n, e, items);
      forall k | 0 <= k < |items| ensures BookedItem(db, next, n, e, items[k]) {
        if k > 0 {
          UnlistedSame(db, mid, [items[0]], items[k].serial);
          LaterBooked(db, mid, next, n, e, items[1..][k - 1]);
        }
      }
    }
  }

  lemma FirstBookedStays(db: Db, mid: Db, next: Db, n: NodeCode, e: Event, items: seq<Item>)
    requires items != [] && BookedItem(db, mid, n, e, items[0]) && SameRows(mid, next, items[0].serial)
    requires OtherItemsSame(mid, next, e.id, items[1..]) && Unlisted(items[1..], items[0].serial)
    ensures BookedItem(db, next, n, e, items[0])
  {
    hide Written, Takes;
    WrittenThenSame(db, mid, next, n, e.id, items[0], n, mid.stock[items[0].serial].status);
    assert (e.id, items[0].serial) in next.batchItems;
  }

  lemma LaterBooked(db: Db, mid: Db, next: Db, n: NodeCode, e: Event, item: Item)
    requires SameRows(db, mid, item.serial) && mid.nodes == db.nodes && BookedItem(mid, next, n, e, item)
    ensures BookedItem(db, next, n, e, item)
  {
    hide Written, Takes;
    SameThenWritten(db, mid, next, n, e.id, item, n, next.stock[item.serial].status);
  }

  lemma OtherItemsTwice(db: Db, mid: Db, next: Db, e: Uuid, items: seq<Item>)
    requires items != [] && OtherItemsSame(db, mid, e, [items[0]]) && OtherItemsSame(mid, next, e, items[1..])
    ensures OtherItemsSame(db, next, e, items)
  {
    forall k: (Uuid, SerialNumber) | k.0 != e || Unlisted(items, k.1)
      ensures (k in next.batchItems <==> k in db.batchItems) && (k in db.batchItems ==> next.batchItems[k] == db.batchItems[k])
    {
      if k.0 == e {
        assert items[0].serial != k.1 && Unlisted([items[0]], k.1);
        assert forall j :: 0 <= j < |items[1..]| ==> items[1..][j] == items[j + 1];
        assert Unlisted(items[1..], k.1);
      }
    }
  }

  predicate IsInventory(kind: EventType) {
    || kind.Purchase? || kind.Receive? || kind.Sale? || kind.SalesReturn? || kind.SupplierReturn? || kind.Issue? || kind.Audit?
  }

  /** An inventory event is accepted exactly when every listed unit is the sender's, of its product, and in a status that the event takes. */
  lemma InventoryAccepted(db: Db, n: NodeCode, e: Event)
    requires n in db.nodes && WellShaped(e) && IsInventory(e.kind)
    ensures ApplyEvent(db, n, e).Ok? <==> forall k :: 0 <= k < |e.items| ==> Bookable(db, n, e, e.items[k])
  {
    var batched := db.(batches := db.batches[e.id := NewBatch(n, e)]);
    hide InventoryItems, Bookable, InRange, DistinctSerials;
    assert ApplyEvent(db, n, e) == Inventory(db, n, e);
    ItemsAccepted(batched, n, e, e.items);
    forall k | 0 <= k < |e.items| ensures Bookable(batched, n, e, e.items[k]) <==> Bookable(db, n, e, e.items[k]) {
      StillBookable(db, batched, n, e, e.items[k]);
    }
  }

  /**
   An accepted inventory event takes each listed unit to the status of the table, in both rows, keeps its owner,
   records its price in the event's batch, and touches no other unit and no other batch.
   */
  lemma InventoryOutcome(db: Db, n: NodeCode, e: Event)
    requires n in db.nodes && WellShaped(e) && IsInventory(e.kind) && ApplyEvent(db, n, e).Ok?
    ensures var (next, result) := ApplyEvent(db, n, e).value;
            && (forall k :: 0 <= k < |e.items| ==> BookedItem(db, next, n, e, e.items[k]))
            && OthersSame(db, next, e.items) && OtherItemsSame(db, next, e.id, e.items)
            && next == db.(serials := next.serials, stock := next.stock, batchItems := next.batchItems, batches := next.batches)
            && e.id in next.batches && next.batches == db.batches[e.id := next.batches[e.id]]
            && next.batches[e.id] == Batch(n, e.kind, if e.kind.Purchase? || e.kind.Receive? || e.kind.Sale? || e.kind.SalesReturn?
                                                      then BatchStatus.PendingSync else BatchStatus.Closed, e.header, e.occurredAt)
            && result == BatchResult(e.id, next.batches[e.id].status, |e.items|)
  {
    var batched := db.(batches := db.batches[e.id := NewBatch(n, e)]);
    hide InventoryItems, BookedItem, InRange;
    assert ApplyEvent(db, n, e) == Inventory(db, n, e);
    ItemsBooked(batched, n, e, e.items);
    var next := InventoryItems(batched, n, e, e.items).value;
    forall k | 0 <= k < |e.items| ensures BookedItem(db, next, n, e, e.items[k]) {
      LaterBooked(db, batched, next, n, e, e.items[k]);
    }
  }
}
