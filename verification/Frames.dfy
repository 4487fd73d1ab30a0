/** What events, allocations and live syncs leave alone. */
module Frames {
  import opened Records
  import opened NetworkDb
  import opened NetworkIngest
  import opened QrAllocation
  import opened QrReplacementIntent
  import opened TallyProducts
  import opened LedgerInvariants
  import opened MasterSystem

  /** New commands are appended and await acknowledgement; nothing else differs. */
  ghost predicate Appends(commands: seq<Command>, next: seq<Command>) {
    commands <= next && forall i :: |commands| <= i < |next| ==> !next[i].acknowledged
  }

  lemma AppendsTwice(a: seq<Command>, b: seq<Command>, c: seq<Command>)
    requires Appends(a, b) && Appends(b, c)
    ensures Appends(a, c)
  {
  }

  lemma NothingAppended(commands: seq<Command>)
    ensures Appends(commands, commands)
  {
  }

  lemma OneAppended(commands: seq<Command>, target: NodeCode, payload: Payload)
    ensures Appends(commands, commands + [Command(target, payload, false)])
  {
  }

  // ---------------------------------------------------------------- events

  lemma SnapshotFrame(db: Db, n: NodeCode, e: Event)
    requires n in db.nodes && Snapshot(db, n, e).Ok?
    ensures var next := Snapshot(db, n, e).value.0; next.commands == db.commands && next.batches == db.batches
  {
    hide SnapshotItems, CheckReplacement, UpdatedDetails, IsInitialEnrollment;
    if !e.reason.QrReplacement? {
      SnapshotItemsQuiet(db, n, e, IsInitialEnrollment(db, n, e), e.items);
      hide ProductsGrow, SameReplacements;
    }
  }

  lemma InventoryFrame(db: Db, n: NodeCode, e: Event)
    requires n in db.nodes && Inventory(db, n, e).Ok?
    ensures var next := Inventory(db, n, e).value.0;
            next.commands == db.commands && next.batches == db.batches[e.id := NewBatch(n, e)]
  {
    hide InventoryItems, NewBatch, ProductsGrow, SameReplacements;
    InventoryItemsQuiet(db.(batches := db.batches[e.id := NewBatch(n, e)]), n, e, e.items);
  }

  // ---------------------------------------------------------------- reviews

  lemma ReviewedFrame(db: Db, n: NodeCode, receipt: Uuid, decision: ReceiptStatus, remarks: string)
    ensures var next := Reviewed(db, n, receipt, decision, remarks);
            next == db.(receipts := next.receipts, commands := next.commands) && Appends(db.commands, next.commands)
  {
    hide Appends;
    var told := if decision.Denied? then remarks else "";
    OneAppended(db.commands, n, ReceiptReviewed(receipt, decision, told));
    NothingAppended(db.commands);
  }

  // ---------------------------------------------------------------- allocations

  lemma {:induction false} AllocateSerialsFrame(db: Db, request: AllocationRequest, codes: seq<SerialNumber>)
    ensures var next := AllocateSerials(db, request, codes);
            next == db.(serials := next.serials, nextId := next.nextId, stock := next.stock)
    decreases |codes|
  {
    if codes != [] {
      AllocateSerialsFrame(AllocateSerial(db, request, codes[0]), request, codes[1..]);
    }
  }

  /** The parts write the serials, their stock rows and commands, and nothing else. */
  lemma {:induction false} AllocatePartsFrame(db: Db, request: AllocationRequest, id: Uuid, part: nat, codes: seq<SerialNumber>)
    ensures var next := AllocateParts(db, request, id, part, codes);
            && next == db.(serials := next.serials, nextId := next.nextId, stock := next.stock, commands := next.commands)
            && Appends(db.commands, next.commands)
    decreases |codes|
  {
    hide AllocateSerials, Appends;
    if codes != [] {
      var size := PartSize(|codes|);
      AllocateSerialsFrame(db, request, codes[..size]);
      var next := AllocatePart(db, request, id, part, codes[..size]);
      OneAppended(db.commands, request.node, QrAllocated(id, part, PartCount(request.quantity), request.product, codes[..size]));
      AllocatePartsFrame(next, request, id, part + 1, codes[size..]);
      AppendsTwice(db.commands, next.commands, AllocateParts(next, request, id, part + 1, codes[size..]).commands);
    } else {
      NothingAppended(db.commands);
    }
  }

  lemma AllocateFrame(db: Db, request: AllocationRequest, id: Uuid, codes: seq<SerialNumber>)
    requires |codes| == request.quantity && Allocate(db, request, id, codes).Ok?
    ensures var next := Allocate(db, request, id, codes).value.0;
            && next == db.(serials := next.serials, nextId := next.nextId, stock := next.stock, commands := next.commands,
                           allocations := next.allocations)
            && Appends(db.commands, next.commands)
  {
    hide CheckAllocation, AllocateParts, AllocatedSerials, Unissued, Appends;
    NothingAppended(db.commands);
    AllocatePartsFrame(db.(allocations := db.allocations[id := request]), request, id, 1, codes);
  }

  // ---------------------------------------------------------------- live syncs

  lemma AnnounceFrame(db: Db, code: ProductCode, replaced: Identity, synced: Product, now: int)
    ensures var next := Announce(db, code, replaced, synced, now);
            next == db.(identityHistory := next.identityHistory, commands := next.commands) && Appends(db.commands, next.commands)
  {
    hide Appends;
    var next := Announce(db, code, replaced, synced, now);
    var history := db.identityHistory + [ReplacedIdentity(code, replaced, now)];
    if code.franchise in db.nodes {
      var commands := db.commands + [Command(code.franchise, ProductUpsert(code, synced), false)];
      assert next == db.(identityHistory := history, commands := commands);
      OneAppended(db.commands, code.franchise, ProductUpsert(code, synced));
    } else {
      assert next == db.(identityHistory := history);
      NothingAppended(db.commands);
    }
    hide Announce;
  }

  lemma SyncProductFrame(db: Db, items: seq<TallyItem>, now: int, code: ProductCode)
    requires code in db.products
    ensures var next := SyncProduct(db, items, now, code);
            && next == db.(products := next.products, identityHistory := next.identityHistory, commands := next.commands)
            && Appends(db.commands, next.commands)
  {
    hide MatchedItem, Changed, TargetIdentity, SyncedProduct, Announce, Appends;
    NothingAppended(db.commands);
    var product := db.products[code];
    var item := MatchedItem(items, product);
    if item.Some? {
      var synced := SyncedProduct(product, item.value, now);
      AnnounceFrame(db.(products := db.products[code := synced]), code, product.identity, synced, now);
    }
  }

  /** A live sync writes products, their history and commands, and nothing else. */
  lemma {:induction false} SyncProductsFrame(db: Db, items: seq<TallyItem>, now: int, codes: seq<ProductCode>)
    requires AllProducts(db, codes)
    ensures var next := SyncProducts(db, items, now, codes).0;
            && next == db.(products := next.products, identityHistory := next.identityHistory, commands := next.commands)
            && Appends(db.commands, next.commands)
    decreases |codes|
  {
    hide SyncProduct, Updates, NotInTally, Appends;
    if codes != [] {
      var next := SyncProduct(db, items, now, codes[0]);
      SyncProductFrame(db, items, now, codes[0]);
      assert forall k :: 0 <= k < |codes[1..]| ==> codes[1..][k] in db.products.Keys;
      SyncProductsFrame(next, items, now, codes[1..]);
      AppendsTwice(db.commands, next.commands, SyncProducts(next, items, now, codes[1..]).0.commands);
    } else {
      NothingAppended(db.commands);
    }
  }

  // ---------------------------------------------------------------- small writes

  lemma WithProductFrame(db: Db, code: ProductCode, product: Product)
    ensures var next := WithProduct(db, code, product);
            && next == db.(products := next.products, productOrder := next.productOrder)
            && next.products == db.products[code := product]
  {
  }

  lemma QueuedFrame(db: Db, n: NodeCode, payload: Payload)
    ensures var next := Queued(db, n, payload); next == db.(commands := next.commands) && Appends(db.commands, next.commands)
  {
    hide Appends;
    OneAppended(db.commands, n, payload);
  }

  lemma AcknowledgeFrame(db: Db, n: NodeCode, index: nat)
    ensures var next := Acknowledge(db, n, index); next == db.(commands := next.commands)
  {
  }

  lemma ReserveFrame(db: Db, n: NodeCode, s: SerialNumber, candidates: seq<SerialNumber>)
    requires |candidates| == SERIAL_ATTEMPTS && RequestReplacement(db, n, s, candidates).Ok?
    ensures var next := RequestReplacement(db, n, s, candidates).value;
            next == db.(commands := next.commands, intents := next.intents) && Appends(db.commands, next.commands)
  {
    hide CheckRequest, FirstReservable, Appends, Queued;
    var code := FirstReservable(db, candidates).value;
    QueuedFrame(db, n, QrReplace(s, code, db.stock[s].status));
  }

  // ---------------------------------------------------------------- any action but a node's request

  /** Batches, transfers, the journal and the record of enrolments are left alone, and no node disappears. */
  ghost predicate Untouched(db: Db, next: Db) {
    && next.batches == db.batches && next.batchItems == db.batchItems
    && next.transfers == db.transfers && next.transferItems == db.transferItems
    && next.journal == db.journal && next.enrolled == db.enrolled
    && db.nodes.Keys <= next.nodes.Keys
  }

  lemma ImportFrame(db: Db, code: ProductCode, product: Product)
    ensures var next := Queued(WithProduct(db, code, product), code.franchise, ProductUpsert(code, product));
            && next == db.(products := next.products, productOrder := next.productOrder, commands := next.commands)
            && next.products == db.products[code := product] && Appends(db.commands, next.commands)
  {
    hide WithProduct, Queued, Appends;
    WithProductFrame(db, code, product);
    QueuedFrame(WithProduct(db, code, product), code.franchise, ProductUpsert(code, product));
  }

  lemma StepFrame(db: Db, a: Action)
    requires !a.Post?
    ensures Untouched(db, Step(db, a)) && (!a.AcknowledgeCommand? ==> Appends(db.commands, Step(db, a).commands))
  {
    hide Allocate, RequestReplacement, SyncProducts, LinkedCodes, WithProduct, Queued, Acknowledge, Linked, Reviewed, ValidGst, Appends;
    NothingAppended(db.commands);
    if Admissible(db, a) {
      match a {
        case AllocateQr(request, id, codes) =>
          if Allocate(db, request, id, codes).Ok? {
            AllocateFrame(db, request, id, codes);
          }
        case ReserveQr(n, s, candidates) =>
          if RequestReplacement(db, n, s, candidates).Ok? {
            ReserveFrame(db, n, s, candidates);
          }
        case AcknowledgeCommand(n, index) => AcknowledgeFrame(db, n, index);
        case LiveSync(items, now) => SyncProductsFrame(db, items, now, LinkedCodes(db, db.productOrder));
        case AddProduct(code, product) => WithProductFrame(db, code, product);
        case ImportProduct(code, product) => ImportFrame(db, code, product);
        case ReviewReceipt(n, receipt, decision, remarks) => ReviewedFrame(db, n, receipt, decision, remarks);
        case _ =>
      }
    }
  }

  ghost predicate IdentitiesKept(db: Db, next: Db) {
    && next.identityHistory == db.identityHistory
    && forall c | c in db.products :: c in next.products && next.products[c].identity == db.products[c].identity
  }

  lemma SameProducts(db: Db, next: Db)
    requires next.products == db.products && next.identityHistory == db.identityHistory
    ensures IdentitiesKept(db, next)
  {
  }

  lemma OneProduct(db: Db, next: Db, code: ProductCode, product: Product)
    requires next.products == db.products[code := product] && next.identityHistory == db.identityHistory
    requires code in db.products ==> product.identity == db.products[code].identity
    ensures IdentitiesKept(db, next)
  {
  }

  /** Outside live syncs products are added and linked, and keep their identities. */
  lemma StepKeepsIdentities(db: Db, a: Action)
    requires !a.Post? && !a.LiveSync?
    ensures IdentitiesKept(db, Step(db, a))
  {
    hide Allocate, RequestReplacement, WithProduct, Queued, Acknowledge, Reviewed, ValidGst, Appends, IdentitiesKept;
    var next := Step(db, a);
    if !Admissible(db, a) {
      SameProducts(db, next);
    } else {
      match a {
        case AllocateQr(request, id, codes) =>
          if Allocate(db, request, id, codes).Ok? {
            AllocateFrame(db, request, id, codes);
          }
          SameProducts(db, next);
        case ReserveQr(n, s, candidates) =>
          if RequestReplacement(db, n, s, candidates).Ok? {
            ReserveFrame(db, n, s, candidates);
          }
          SameProducts(db, next);
        case AcknowledgeCommand(n, index) =>
          AcknowledgeFrame(db, n, index);
          SameProducts(db, next);
        case AddProduct(code, product) =>
          WithProductFrame(db, code, product);
          OneProduct(db, next, code, product);
        case ImportProduct(code, product) =>
          ImportFrame(db, code, product);
          OneProduct(db, next, code, product);
        case LinkProduct(code, item, now) => OneProduct(db, next, code, Linked(db.products[code], item, now));
        case ReviewReceipt(n, receipt, decision, remarks) =>
          ReviewedFrame(db, n, receipt, decision, remarks);
          SameProducts(db, next);
        case _ => SameProducts(db, next);
      }
    }
  }
}
