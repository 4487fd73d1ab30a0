/** Every voucher that a reachable state of Master can send to Tally balances. */
module VoucherSystem {
  import opened Records
  import opened NetworkDb
  import opened NetworkIngest
  import opened QrAllocation
  import opened QrReplacementIntent
  import opened TallyProducts
  import opened StockInvariants
  import opened LedgerInvariants
  import opened MasterSystem
  import opened SystemSteps
  import opened Frames
  import LiveSyncTheorems
  import V = VoucherSummary
  import P = VoucherPostings
  import T = VoucherTheorems

  // ---------------------------------------------------------------- a batch of the database as a voucher

  /** The serials of a batch, each once, in some order. */
  ghost predicate Enumerates(db: Db, b: Uuid, order: seq<SerialNumber>) {
    && (forall s :: s in order <==> (b, s) in db.batchItems)
    && forall i, j :: 0 <= i < j < |order| ==> order[i] != order[j]
  }

  function ItemOf(db: Db, b: Uuid, s: SerialNumber): V.LineItem
    requires (b, s) in db.batchItems && s in db.serials
  {
    V.LineItem(db.serials[s].product, Some(db.batchItems[(b, s)].rate), Some(db.batchItems[(b, s)].discountRate), 1)
  }

  /** The voucher of batch `b`, with its items in the given order. */
  function VoucherOf(db: Db, b: Uuid, order: seq<SerialNumber>): V.VoucherBatch
    requires b in db.batches && forall i :: 0 <= i < |order| ==> (b, order[i]) in db.batchItems && order[i] in db.serials
  {
    V.VoucherBatch(db.batches[b].kind, db.batches[b].header,
                   seq(|order|, i requires 0 <= i < |order| => ItemOf(db, b, order[i])))
  }

  // ---------------------------------------------------------------- ranges

  ghost predicate ProductsValid(products: map<ProductCode, Product>) {
    forall p | p in products :: ValidGst(products[p].identity)
  }

  ghost predicate PricesValid(items: map<(Uuid, SerialNumber), BatchItem>) {
    forall k | k in items :: ValidPrices(items[k].rate, items[k].discountRate)
  }

  /** The ranges that the request schema and the item master check hold of everything stored. */
  ghost predicate Valid(db: Db) {
    ProductsValid(db.products) && PricesValid(db.batchItems)
  }

  lemma SameValid(db: Db, next: Db)
    requires Valid(db) && next.products == db.products && next.batchItems == db.batchItems
    ensures Valid(next)
  {
  }

  lemma RestInRange(items: seq<Item>)
    requires items != [] && InRange(items)
    ensures ValidGst(items[0].identity) && ValidPrices(items[0].rate, items[0].discountRate) && InRange(items[1..])
  {
  }

  lemma SnapshotItemValid(db: Db, n: NodeCode, e: Event, initial: bool, item: Item)
    requires n in db.nodes && Valid(db) && ValidGst(item.identity) && SnapshotItem(db, n, e, initial, item).Ok?
    ensures Valid(SnapshotItem(db, n, e, initial, item).value)
  {
    hide ValidateIdentity, ValidGst, EnsureProduct, NewSerial, Refresh, Valid, CheckKnown;
    if item.serial in db.serials {
      RefreshSame(db, n, e.id, item);
      SameValid(db, Refresh(db, n, e.id, item));
    } else {
      var code := ProductCode(n, item.productCode);
      var known := EnsureProduct(db, code, item);
      EnsureValid(db, code, item);
      NewSerialSame(known, n, e.id, item, code, item.status.value);
      SameValid(known, NewSerial(known, n, e.id, item, code, item.status.value));
    }
  }

  lemma RefreshSame(db: Db, n: NodeCode, e: Uuid, item: Item)
    requires n in db.nodes && Tracked(db, item.serial)
    ensures Refresh(db, n, e, item).products == db.products && Refresh(db, n, e, item).batchItems == db.batchItems
  {
    hide UpdatedDetails;
  }

  lemma EnsureValid(db: Db, code: ProductCode, item: Item)
    requires Valid(db) && ValidGst(item.identity)
    ensures Valid(EnsureProduct(db, code, item))
  {
    hide ValidGst, ValidPrices;
  }

  lemma NewSerialSame(db: Db, n: NodeCode, e: Uuid, item: Item, code: ProductCode, status: Status)
    requires n in db.nodes
    ensures var next := NewSerial(db, n, e, item, code, status); next.products == db.products && next.batchItems == db.batchItems
  {
  }

  lemma {:induction false} SnapshotItemsValid(db: Db, n: NodeCode, e: Event, initial: bool, items: seq<Item>)
    requires n in db.nodes && Valid(db) && InRange(items) && SnapshotItems(db, n, e, initial, items).Ok?
    ensures Valid(SnapshotItems(db, n, e, initial, items).value.0)
    decreases |items|
  {
    hide SnapshotItem, Valid, InRange, ValidGst, ValidPrices;
    if items != [] {
      RestInRange(items);
      SnapshotItemValid(db, n, e, initial, items[0]);
      SnapshotItemsValid(SnapshotItem(db, n, e, initial, items[0]).value, n, e, initial, items[1..]);
    }
  }

  lemma ReplacementValid(db: Db, n: NodeCode, e: Event)
    requires n in db.nodes && Valid(db) && ReplacementSnapshot(db, n, e).Ok?
    ensures Valid(ReplacementSnapshot(db, n, e).value.0)
  {
    hide CheckReplacement, UpdatedDetails, Valid;
    SameValid(db, ReplacementSnapshot(db, n, e).value.0);
  }

  lemma SnapshotValid(db: Db, n: NodeCode, e: Event)
    requires n in db.nodes && Valid(db) && InRange(e.items) && Snapshot(db, n, e).Ok?
    ensures Valid(Snapshot(db, n, e).value.0)
  {
    hide SnapshotItems, ReplacementSnapshot, IsInitialEnrollment, Valid, InRange;
    if e.reason.QrReplacement? {
      ReplacementValid(db, n, e);
    } else {
      SnapshotItemsValid(db, n, e, IsInitialEnrollment(db, n, e), e.items);
    }
  }

  lemma InventoryItemValid(db: Db, n: NodeCode, e: Event, item: Item)
    requires n in db.nodes && Valid(db) && ValidPrices(item.rate, item.discountRate) && InventoryItem(db, n, e, item).Ok?
    ensures Valid(InventoryItem(db, n, e, item).value)
  {
    hide CheckInventoryItem, UpdatedDetails, ValidGst, ValidPrices;
  }

  lemma {:induction false} InventoryItemsValid(db: Db, n: NodeCode, e: Event, items: seq<Item>)
    requires n in db.nodes && Valid(db) && InRange(items) && InventoryItems(db, n, e, items).Ok?
    ensures Valid(InventoryItems(db, n, e, items).value)
    decreases |items|
  {
    hide InventoryItem, Valid, InRange, ValidGst, ValidPrices;
    if items != [] {
      RestInRange(items);
      InventoryItemValid(db, n, e, items[0]);
      InventoryItemsValid(InventoryItem(db, n, e, items[0]).value, n, e, items[1..]);
    }
  }

  lemma InventoryValid(db: Db, n: NodeCode, e: Event)
    requires n in db.nodes && Valid(db) && InRange(e.items) && Inventory(db, n, e).Ok?
    ensures Valid(Inventory(db, n, e).value.0)
  {
    hide InventoryItems, NewBatch, Valid, InRange;
    var batched := db.(batches := db.batches[e.id := NewBatch(n, e)]);
    SameValid(db, batched);
    InventoryItemsValid(batched, n, e, e.items);
  }

  lemma {:induction false} DispatchItemsSame(db: Db, t: Uuid, e: Uuid, items: seq<Item>)
    requires forall k :: 0 <= k < |items| ==> Tracked(db, items[k].serial)
    ensures var last := DispatchItems(db, t, e, items); last.products == db.products && last.batchItems == db.batchItems
    decreases |items|
  {
    if items != [] {
      assert forall k :: 0 <= k < |items[1..]| ==> Tracked(db, items[1..][k].serial);
      DispatchItemsSame(DispatchItem(db, t, e, items[0].serial), t, e, items[1..]);
    }
  }

  lemma DispatchValid(db: Db, n: NodeCode, e: Event)
    requires n in db.nodes && Valid(db) && Dispatch(db, n, e).Ok?
    ensures Valid(Dispatch(db, n, e).value.0)
  {
    hide Valid, DispatchItems, Tracked;
    var t := TransferId(e);
    CheckedNew(db, n, e, t);
    BookedTracks(db, n, e, t);
    hide CheckDispatch;
    DispatchItemsSame(Booked(db, n, e, t), t, e.id, e.items);
    SameValid(db, Dispatch(db, n, e).value.0);
  }

  lemma {:induction false} ReceiveItemsSame(db: Db, n: NodeCode, t: Uuid, e: Event, items: seq<Item>)
    requires n in db.nodes && t in db.transfers && ReceiveItems(db, n, t, e, items).Ok?
    ensures var last := ReceiveItems(db, n, t, e, items).value; last.products == db.products && last.batchItems == db.batchItems
    decreases |items|
  {
    hide UpdatedDetails;
    if items != [] {
      ReceiveItemsSame(ReceiveItem(db, n, t, e, items[0]).value, n, t, e, items[1..]);
    }
  }

  lemma ReceiveValid(db: Db, n: NodeCode, e: Event)
    requires n in db.nodes && e.transferId.Some? && Valid(db) && ReceiveTransfer(db, n, e).Ok?
    ensures Valid(ReceiveTransfer(db, n, e).value.0)
  {
    hide Valid, ReceiveItems, AllReceived;
    ReceiveItemsSame(db, n, e.transferId.value, e, e.items);
    SameValid(db, ReceiveTransfer(db, n, e).value.0);
  }

  lemma SubmitValid(db: Db, n: NodeCode, id: Uuid)
    requires Valid(db) && SubmitReceipt(db, n, id).Ok?
    ensures Valid(SubmitReceipt(db, n, id).value.0)
  {
  }

  lemma ApplyValid(db: Db, n: NodeCode, e: Event)
    requires n in db.nodes && WellShaped(e) && Valid(db) && ApplyEvent(db, n, e).Ok?
    ensures Valid(ApplyEvent(db, n, e).value.0)
  {
    hide Snapshot, Inventory, Dispatch, ReceiveTransfer, SubmitReceipt, Valid, DistinctSerials, InRange;
    match e.kind {
      case StockSnapshot => SnapshotValid(db, n, e);
      case TransferDispatched => DispatchValid(db, n, e);
      case TransferReceived => ReceiveValid(db, n, e);
      case ReceiptSubmitted => SubmitValid(db, n, e.receiptId);
      case Heartbeat =>
      case _ => InventoryValid(db, n, e);
    }
  }

  lemma {:induction false} IngestValid(db: Db, n: NodeCode, now: int, events: seq<Event>)
    requires n in db.nodes && (forall k :: 0 <= k < |events| ==> WellShaped(events[k])) && IngestEvents(db, n, now, events).Ok?
    requires Valid(db)
    ensures Valid(IngestEvents(db, n, now, events).value.0)
    decreases |events|
  {
    hide ApplyEvent, Valid, SequenceUsed, WellShaped;
    if events != [] {
      var e, next := events[0], IngestEvent(db, n, now, events[0]).value.0;
      if e.id !in db.journal {
        ApplyValid(db, n, e);
        SameValid(ApplyEvent(db, n, e).value.0, next);
      }
      IngestValid(next, n, now, events[1..]);
    }
  }

  lemma SyncedValid(product: Product, item: TallyItem, now: int)
    requires ValidGst(product.identity)
    ensures ValidGst(SyncedProduct(product, item, now).identity)
  {
  }

  lemma SyncProductValid(db: Db, items: seq<TallyItem>, now: int, code: ProductCode)
    requires code in db.products && Valid(db)
    ensures Valid(SyncProduct(db, items, now, code))
  {
    hide MatchedItem, SyncedProduct, SyncProduct, Updates, Frames.Appends;
    var product, next := db.products[code], SyncProduct(db, items, now, code);
    var item := MatchedItem(items, product);
    KnownValid(db, code);
    SyncProductFrame(db, items, now, code);
    LiveSyncTheorems.SyncProductSyncsOne(db, items, now, code);
    hide Valid, ValidGst;
    if item.Some? {
      SyncedValid(product, item.value, now);
      ProductValid(db, next, code, SyncedProduct(product, item.value, now));
    } else {
      SameValid(db, next);
    }
  }

  lemma {:induction false} SyncProductsValid(db: Db, items: seq<TallyItem>, now: int, codes: seq<ProductCode>)
    requires AllProducts(db, codes) && Valid(db)
    ensures Valid(SyncProducts(db, items, now, codes).0)
    decreases |codes|
  {
    hide SyncProduct, Updates, NotInTally, Valid;
    if codes != [] {
      SyncProductValid(db, items, now, codes[0]);
      assert forall k :: 0 <= k < |codes[1..]| ==> codes[1..][k] in db.products.Keys;
      SyncProductsValid(SyncProduct(db, items, now, codes[0]), items, now, codes[1..]);
    }
  }

  lemma ProductValid(db: Db, next: Db, code: ProductCode, product: Product)
    requires Valid(db) && ValidGst(product.identity) && next.products == db.products[code := product] && next.batchItems == db.batchItems
    ensures Valid(next)
  {
  }

  lemma AllocateValid(db: Db, request: AllocationRequest, id: Uuid, codes: seq<SerialNumber>)
    requires Valid(db) && |codes| == request.quantity && Allocate(db, request, id, codes).Ok?
    ensures Valid(Allocate(db, request, id, codes).value.0)
  {
    hide Valid, AllocateParts, CheckAllocation, AllocatedSerials, Unissued;
    AllocatePartsFrame(db.(allocations := db.allocations[id := request]), request, id, 1, codes);
    SameValid(db, Allocate(db, request, id, codes).value.0);
  }

  lemma ReserveValid(db: Db, n: NodeCode, s: SerialNumber, candidates: seq<SerialNumber>)
    requires Valid(db) && |candidates| == SERIAL_ATTEMPTS && RequestReplacement(db, n, s, candidates).Ok?
    ensures Valid(RequestReplacement(db, n, s, candidates).value)
  {
    hide Valid, CheckRequest, FirstReservable;
    SameValid(db, RequestReplacement(db, n, s, candidates).value);
  }

  lemma AddedValid(db: Db, code: ProductCode, product: Product)
    requires Valid(db) && ValidGst(product.identity)
    ensures Valid(WithProduct(db, code, product))
  {
    hide Valid, ValidGst;
    ProductValid(db, WithProduct(db, code, product), code, product);
  }

  lemma QueuedValid(db: Db, n: NodeCode, payload: Payload)
    requires Valid(db)
    ensures Valid(Queued(db, n, payload))
  {
    hide Valid;
    SameValid(db, Queued(db, n, payload));
  }

  lemma LinkedValid(db: Db, code: ProductCode, item: TallyItem, now: int)
    requires Valid(db) && code in db.products
    ensures Valid(db.(products := db.products[code := Linked(db.products[code], item, now)]))
  {
    hide Valid, ValidGst;
    KnownValid(db, code);
    var product := Linked(db.products[code], item, now);
    ProductValid(db, db.(products := db.products[code := product]), code, product);
  }

  lemma AcknowledgedValid(db: Db, n: NodeCode, index: nat)
    requires Valid(db)
    ensures Valid(Acknowledge(db, n, index))
  {
    hide Valid;
    if index < |db.commands| && db.commands[index].target == n {
      SameValid(db, Acknowledge(db, n, index));
    }
  }

  lemma StepValid(db: Db, a: Action)
    requires Valid(db)
    ensures Valid(Step(db, a))
  {
    hide Valid, IngestEvents, Allocate, RequestReplacement, SyncProducts, LinkedCodes, Acknowledge, WithProduct, Linked, Queued, Reviewed;
    if Admissible(db, a) {
      match a {
        case Post(n, now, limit, events) =>
          if IngestEvents(db, n, now, events).Ok? {
            IngestValid(db, n, now, events);
          }
        case AllocateQr(request, id, codes) =>
          if Allocate(db, request, id, codes).Ok? {
            AllocateValid(db, request, id, codes);
          }
        case ReserveQr(n, s, candidates) =>
          if RequestReplacement(db, n, s, candidates).Ok? {
            ReserveValid(db, n, s, candidates);
          }
        case LiveSync(items, now) => SyncProductsValid(db, items, now, LinkedCodes(db, db.productOrder));
        case AddProduct(code, product) => AddedValid(db, code, product);
        case ImportProduct(code, product) =>
          AddedValid(db, code, product);
          QueuedValid(WithProduct(db, code, product), code.franchise, ProductUpsert(code, product));
        case LinkProduct(code, item, now) => LinkedValid(db, code, item, now);
        case AcknowledgeCommand(n, index) => AcknowledgedValid(db, n, index);
        case ReviewReceipt(n, receipt, decision, remarks) =>
          ReviewedFrame(db, n, receipt, decision, remarks);
          SameValid(db, Step(db, a));
        case AddNode(n, godown) => SameValid(db, Step(db, a));
        case SetActive(n, active) => SameValid(db, Step(db, a));
      }
    }
  }

  lemma KnownValid(db: Db, code: ProductCode)
    requires Valid(db) && code in db.products
    ensures ValidGst(db.products[code].identity)
  {
  }

  lemma {:induction false} RunValid(actions: seq<Action>)
    ensures Valid(Run(EMPTY_DB, actions))
  {
    hide Step;
    if actions != [] {
      hide Valid;
      RunValid(actions[..|actions| - 1]);
      StepValid(Run(EMPTY_DB, actions[..|actions| - 1]), actions[|actions| - 1]);
    }
  }

  // ---------------------------------------------------------------- main results

  /** The voucher of a batch of a reachable state is well defined and non-negative. */
  lemma VoucherNonNegative(db: Db, b: Uuid, order: seq<SerialNumber>)
    requires Keys(db) && Valid(db) && b in db.batches && Enumerates(db, b, order)
    ensures forall i :: 0 <= i < |order| ==> (b, order[i]) in db.batchItems && order[i] in db.serials
    ensures var voucher := VoucherOf(db, b, order);
            V.KnownProducts(db.products, voucher.items) && T.NonNegative(voucher, db.products)
  {
    forall i | 0 <= i < |order| ensures (b, order[i]) in db.batchItems && order[i] in db.serials {
      assert order[i] in order;
    }
    var voucher := VoucherOf(db, b, order);
    forall i | 0 <= i < |voucher.items| ensures voucher.items[i].product in db.products {
      assert voucher.items[i] == ItemOf(db, b, order[i]);
    }
    forall i | 0 <= i < |voucher.items|
      ensures voucher.items[i].quantity >= 0
      ensures ValidPrices(V.KeyOf(db.products, voucher.items[i]).rate, V.KeyOf(db.products, voucher.items[i]).discount)
    {
      assert voucher.items[i] == ItemOf(db, b, order[i]);
    }
  }

  /**
   Whatever franchises sent and administrators did, whenever the voucher of a batch is built its postings
   sum to zero, in whatever order its items are read.
   */
  lemma EveryVoucherBalances(actions: seq<Action>, b: Uuid, order: seq<SerialNumber>, settings: P.Settings, summary: V.Summary)
    requires var db := Run(EMPTY_DB, actions);
             && b in db.batches && Enumerates(db, b, order)
             && (forall i :: 0 <= i < |order| ==> (b, order[i]) in db.batchItems && order[i] in db.serials)
             && V.KnownProducts(db.products, VoucherOf(db, b, order).items)
             && var lines := V.Lines(VoucherOf(db, b, order), db.products);
                V.SummaryOf(summary, lines) && P.CheckBuild(VoucherOf(db, b, order), settings, lines).None?
    ensures T.Balance(P.Postings(VoucherOf(Run(EMPTY_DB, actions), b, order), settings, summary)) == 0
  {
    var db := Run(EMPTY_DB, actions);
    RunKeeps(actions);
    RunValid(actions);
    hide Run;
    assert Keys(db) by { hide Rows, Chains, Transit, Balanced, Ledger, Journal, Vouchers, Catalogue, Allocations; }
    hide Inv, Keys, Valid;
    VoucherNonNegative(db, b, order);
    hide VoucherOf, V.Lines, V.SummaryOf, P.CheckBuild, P.Postings, T.Balance, T.NonNegative;
    T.NonNegativeBalances(VoucherOf(db, b, order), db.products, settings, summary);
  }
}
