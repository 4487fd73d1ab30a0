/**
 What one franchise event does to the database, as functions (app/services/network_ingest.py).

 Each function returns the new database or the error the source raises, in the source's order of
 checks. The loops of the source are the recursive functions over the item list; IngestService runs
 them as loops.
 */
module NetworkIngest {
  import opened Records
  import opened NetworkDb
  import Text

  // ---------------------------------------------------------------- product identity

  predicate SameIdentity(a: Identity, b: Identity) {
    && Text.IdentityText(a.name) == Text.IdentityText(b.name)
    && Text.IdentityText(a.tallyName) == Text.IdentityText(b.tallyName)
    && Text.IdentityText(a.hsn) == Text.IdentityText(b.hsn)
    && Text.IdentityText(a.unit) == Text.IdentityText(b.unit)
    && -0.0001 <= a.gstRate - b.gstRate <= 0.0001
  }

  /** The item names the serial's product, under its current identity or a replaced one. */
  predicate IdentityAccepted(db: Db, code: ProductCode, origin: NodeCode, item: Item)
    requires code in db.products
  {
    && code == ProductCode(origin, item.productCode)
    && (SameIdentity(db.products[code].identity, item.identity)
        || exists k | 0 <= k < |db.identityHistory| ::
             db.identityHistory[k].product == code && SameIdentity(db.identityHistory[k].identity, item.identity))
  }

  function ValidateIdentity(db: Db, code: ProductCode, origin: NodeCode, item: Item): Result<(), Error> {
    if code !in db.products then Err(StockDataConflict)
    else if IdentityAccepted(db, code, origin, item) then Ok(())
    else Err(ProductIdentityConflict)
  }

  // ---------------------------------------------------------------- shared row updates

  function FirstSet<T>(a: Option<T>, b: Option<T>): Option<T> {
    if a.Some? then a else b
  }

  predicate Truthy(s: Option<string>) {
    s.Some? && s.value != ""
  }

  /** The serial's details after an event item reported them. */
  function UpdatedDetails(was: Details, node: Node, item: Item): Details {
    Details(
      FirstSet(item.details.batchNumber, was.batchNumber),
      FirstSet(item.details.mfgDate, was.mfgDate),
      FirstSet(item.details.expiryDate, was.expiryDate),
      if item.details.warehouse.Some? || Truthy(node.godown)
      then (if Truthy(item.details.warehouse) then item.details.warehouse else node.godown)
      else was.warehouse)
  }

  predicate Tracked(db: Db, s: SerialNumber) {
    s in db.serials && s in db.stock
  }

  /** Both rows of a serial take a status; the stock row takes an owner and remembers the event. */
  function Moved(db: Db, s: SerialNumber, status: Status, owner: NodeCode, details: Details, e: Uuid): Db
    requires Tracked(db, s)
  {
    db.(serials := db.serials[s := db.serials[s].(status := status, details := details)],
        stock := db.stock[s := db.stock[s].(owner := owner, status := status, lastEvent := Some(e))])
  }

  function Queued(db: Db, target: NodeCode, payload: Payload): Db {
    db.(commands := db.commands + [Command(target, payload, false)])
  }

  // ---------------------------------------------------------------- STOCK_SNAPSHOT

  /** The one-predecessor test that keeps the initial inventory window open. */
  predicate InitialContinues(db: Db, n: NodeCode, e: Event) {
    e.sequence == 1
    || exists p | p in db.journal ::
         var previous := db.journal[p];
         && previous.node == n
         && previous.event.sequence == e.sequence - 1
         && previous.event.kind.StockSnapshot?
         && previous.event.reference == InitialInventory(n, e.sequence - 1)
         && previous.event.reason.InitialEnrollment?
  }

  predicate IsInitialEnrollment(db: Db, n: NodeCode, e: Event) {
    && e.reason.InitialEnrollment?
    && e.reference == InitialInventory(n, e.sequence)
    && InitialContinues(db, n, e)
  }

  function EnsureProduct(db: Db, code: ProductCode, item: Item): (next: Db)
    ensures code in next.products
    ensures next.nodes == db.nodes && next.journal == db.journal
  {
    if code in db.products then db
    else db.(products := db.products[code := Product(item.identity, item.rate, item.discountRate, "", None, true)],
             productOrder := db.productOrder + [code])
  }

  /** The rows of a serial that an initial snapshot creates under a product already on Master. */
  function NewSerial(db: Db, n: NodeCode, e: Uuid, item: Item, code: ProductCode, status: Status): (next: Db)
    requires n in db.nodes
    ensures next.nodes == db.nodes && next.journal == db.journal
  {
    var details := item.details.(
      warehouse := if Truthy(item.details.warehouse) then item.details.warehouse else db.nodes[n].godown);
    db.(
      serials := db.serials[item.serial := Serial(db.nextId, code, status, true, None, details)],
      nextId := db.nextId + 1,
      stock := db.stock[item.serial := Stock(n, n, status, Some(e))],
      enrolled := if status.InStock? then db.enrolled + {item.serial} else db.enrolled)
  }

  function EnrolSerial(db: Db, n: NodeCode, e: Event, item: Item, status: Status): (r: Result<Db, Error>)
    requires n in db.nodes
    ensures r.Ok? ==> r.value.nodes == db.nodes && r.value.journal == db.journal
  {
    var code := ProductCode(n, item.productCode);
    var known := EnsureProduct(db, code, item);
    var _ :- ValidateIdentity(known, code, n, item);
    Ok(NewSerial(known, n, e.id, item, code, status))
  }

  function CheckKnown(db: Db, n: NodeCode, item: Item, status: Status): (r: Result<(), Error>)
    requires item.serial in db.serials
    ensures r.Ok? ==> item.serial in db.stock && db.stock[item.serial].owner == n && db.stock[item.serial].status == status
  {
    if item.serial !in db.stock then Err(StockTrackingConflict)
    else if db.stock[item.serial].owner != n then Err(StockOwnershipConflict)
    else if status != db.stock[item.serial].status then Err(StockStatusConflict)
    else if db.stock[item.serial].origin !in db.nodes then Err(StockDataConflict)
    else ValidateIdentity(db, db.serials[item.serial].product, db.stock[item.serial].origin, item)
  }

  /** A snapshot of a known serial refreshes its details; the serial row follows the stock row. */
  function Refresh(db: Db, n: NodeCode, e: Uuid, item: Item): (next: Db)
    requires n in db.nodes && Tracked(db, item.serial)
  {
    var s := item.serial;
    Moved(db, s, db.stock[s].status, db.stock[s].owner, UpdatedDetails(db.serials[s].details, db.nodes[n], item), e)
  }

  function SnapshotKnown(db: Db, n: NodeCode, e: Event, item: Item, status: Status): (r: Result<Db, Error>)
    requires n in db.nodes && item.serial in db.serials
    ensures r.Ok? ==> r.value.nodes == db.nodes && r.value.journal == db.journal
  {
    var _ :- CheckKnown(db, n, item, status);
    Ok(Refresh(db, n, e.id, item))
  }

  function SnapshotItem(db: Db, n: NodeCode, e: Event, initial: bool, item: Item): (r: Result<Db, Error>)
    requires n in db.nodes
    ensures r.Ok? ==> r.value.nodes == db.nodes && r.value.journal == db.journal
  {
    if item.status.None? then Err(InvalidStockStatus)
    else if item.serial in db.serials then SnapshotKnown(db, n, e, item, item.status.value)
    else if !initial then Err(MasterQrRequired)
    else if !(item.status.value.Generated? || item.status.value.InStock?) then Err(InvalidEnrollmentStatus)
    else EnrolSerial(db, n, e, item, item.status.value)
  }

  /** The database after the items, and how many of them were new serials. */
  function SnapshotItems(db: Db, n: NodeCode, e: Event, initial: bool, items: seq<Item>): (r: Result<(Db, nat), Error>)
    requires n in db.nodes
    ensures r.Ok? ==> r.value.1 <= |items| && r.value.0.nodes == db.nodes && r.value.0.journal == db.journal
    decreases |items|
  {
    if items == [] then Ok((db, 0))
    else
      var incoming := if items[0].serial in db.serials then 0 else 1;
      var next :- SnapshotItem(db, n, e, initial, items[0]);
      var (last, created) :- SnapshotItems(next, n, e, initial, items[1..]);
      Ok((last, created + incoming))
  }

  // ---------------------------------------------------------------- QR replacement

  /** The pending Master reservation that this event consumes exactly. */
  predicate MatchesIntent(db: Db, n: NodeCode, e: Event, prior: SerialNumber, incoming: SerialNumber)
    requires prior in db.stock
  {
    && e.reference.CommandId?
    && e.reference.index < |db.commands|
    && db.commands[e.reference.index].target == n
    && db.commands[e.reference.index].payload.QrReplace?
    && prior in db.intents
    && db.intents[prior].command == e.reference.index
    && !db.intents[prior].completed
    && db.intents[prior].franchise == n
    && db.intents[prior].newSerial == incoming
    && db.intents[prior].expected == db.stock[prior].status
  }

  function ReplacementTarget(status: Status): Status {
    if status.Generated? then Generated else InStock
  }

  function CheckReplacement(db: Db, n: NodeCode, e: Event, prior: Item, incoming: Item): (r: Result<(), Error>)
    requires Tracked(db, prior.serial)
  {
    var serial, stock := db.serials[prior.serial], db.stock[prior.serial];
    if stock.owner != n then Err(StockOwnershipConflict)
    else if !serial.active || !Replaceable(stock.status) then Err(InvalidReplacementTransition)
    else if prior.status != Some(Invalid) then Err(InvalidReplacementTransition)
    else if incoming.status != Some(ReplacementTarget(stock.status)) then Err(InvalidReplacementTransition)
    else if stock.origin !in db.nodes then Err(StockDataConflict)
    else
      var _ :- ValidateIdentity(db, serial.product, stock.origin, prior);
      var _ :- ValidateIdentity(db, serial.product, stock.origin, incoming);
      if MatchesIntent(db, n, e, prior.serial, incoming.serial) then Ok(()) else Err(QrReplacementNotReserved)
  }

  function Replace(db: Db, n: NodeCode, e: Event, prior: Item, incoming: SerialNumber): (next: Db)
    requires n in db.nodes && Tracked(db, prior.serial) && prior.serial in db.intents
    ensures next.nodes == db.nodes && next.journal == db.journal
  {
    var serial, stock := db.serials[prior.serial], db.stock[prior.serial];
    var target := ReplacementTarget(stock.status);
    var details := UpdatedDetails(serial.details, db.nodes[n], prior);
    db.(
      serials := db.serials[incoming := Serial(db.nextId, serial.product, target, true, None, details)]
                           [prior.serial := serial.(status := Invalid, active := false, replacedBy := Some(incoming),
                                                  details := details)],
      nextId := db.nextId + 1,
      stock := db.stock[incoming := Stock(n, stock.origin, target, Some(e.id))]
                       [prior.serial := stock.(status := Invalid, lastEvent := Some(e.id))],
      intents := db.intents[prior.serial := db.intents[prior.serial].(completed := true)])
  }

  function ReplacementSnapshot(db: Db, n: NodeCode, e: Event): (r: Result<(Db, EventResult), Error>)
    requires n in db.nodes
    ensures r.Ok? ==> r.value.0.nodes == db.nodes && r.value.0.journal == db.journal
  {
    if |e.items| != 2 then Err(InvalidReplacementShape)
    else
      var first, second := e.items[0], e.items[1];
      if !(Tracked(db, first.serial) && second.serial !in db.serials)
         && !(Tracked(db, second.serial) && first.serial !in db.serials) then Err(InvalidReplacementShape)
      else
        var (prior, incoming) := if Tracked(db, first.serial) then (first, second) else (second, first);
        var _ :- CheckReplacement(db, n, e, prior, incoming);
        Ok((Replace(db, n, e, prior, incoming.serial),
            ReplacementResult(prior.serial, incoming.serial, ReplacementTarget(db.stock[prior.serial].status))))
  }

  function Snapshot(db: Db, n: NodeCode, e: Event): (r: Result<(Db, EventResult), Error>)
    requires n in db.nodes
    ensures r.Ok? ==> r.value.0.nodes == db.nodes && r.value.0.journal == db.journal
  {
    if e.reason.QrReplacement? then ReplacementSnapshot(db, n, e)
    else
      var (last, created) :- SnapshotItems(db, n, e, IsInitialEnrollment(db, n, e), e.items);
      Ok((last, SnapshotResult(created, |e.items| - created)))
  }

  // ---------------------------------------------------------------- inventory events

  /** The status automaton: where an event of this kind takes a serial, or why it cannot. */
  function Transition(kind: EventType, reason: Reason, from: Status): Result<Status, Error> {
    match kind
    case Purchase => if from.Generated? || from.PurchaseReturn? then Ok(InStock) else Err(InvalidStockTransition)
    case Receive => if from.Generated? || from.PurchaseReturn? then Ok(InStock) else Err(InvalidStockTransition)
    case Sale => if Available(from) then Ok(Sold) else Err(InvalidStockTransition)
    case SalesReturn =>
      if !from.Sold? then Err(InvalidStockTransition)
      else if reason.DamagedGoods? || reason.ExpiredGoods? then Ok(Damaged) else Ok(InStock)
    case SupplierReturn => if Available(from) then Ok(Status.PurchaseReturn) else Err(InvalidStockTransition)
    case Issue => if from.InStock? then Ok(Issued) else Err(InvalidStockTransition)
    case Audit => Ok(from)
    case _ => Err(UnsupportedEvent)
  }

  predicate PostsToTally(kind: EventType) {
    kind.Purchase? || kind.Receive? || kind.Sale? || kind.SalesReturn?
  }

  /** Where this event takes the item's serial, or why it may not. */
  function CheckInventoryItem(db: Db, n: NodeCode, e: Event, item: Item): (r: Result<Status, Error>)
    ensures r.Ok? ==> Tracked(db, item.serial) && db.stock[item.serial].owner == n
    ensures r.Ok? ==> Transition(e.kind, e.reason, db.stock[item.serial].status) == r
  {
    var s := item.serial;
    if s !in db.serials then Err(MasterQrRequired)
    else if s in db.stock && db.stock[s].owner != n then Err(StockOwnershipConflict)
    else if s !in db.stock then Err(StockTrackingConflict)
    else if db.stock[s].origin !in db.nodes then Err(StockDataConflict)
    else
      var _ :- ValidateIdentity(db, db.serials[s].product, db.stock[s].origin, item);
      Transition(e.kind, e.reason, db.stock[s].status)
  }

  /** The serial takes its new status and the voucher batch gains the item. */
  function BookItem(db: Db, n: NodeCode, e: Uuid, item: Item, target: Status): (next: Db)
    requires n in db.nodes && Tracked(db, item.serial)
  {
    var s := item.serial;
    var moved := Moved(db, s, target, db.stock[s].owner, UpdatedDetails(db.serials[s].details, db.nodes[n], item), e);
    moved.(batchItems := moved.batchItems[(e, s) := BatchItem(item.rate, item.discountRate)])
  }

  function InventoryItem(db: Db, n: NodeCode, e: Event, item: Item): (r: Result<Db, Error>)
    requires n in db.nodes
    ensures r.Ok? ==> r.value.nodes == db.nodes && r.value.journal == db.journal
  {
    var target :- CheckInventoryItem(db, n, e, item);
    Ok(BookItem(db, n, e.id, item, target))
  }

  function InventoryItems(db: Db, n: NodeCode, e: Event, items: seq<Item>): (r: Result<Db, Error>)
    requires n in db.nodes
    ensures r.Ok? ==> r.value.nodes == db.nodes && r.value.journal == db.journal
    decreases |items|
  {
    if items == [] then Ok(db)
    else
      var next :- InventoryItem(db, n, e, items[0]);
      InventoryItems(next, n, e, items[1..])
  }

  function NewBatch(n: NodeCode, e: Event): Batch {
    Batch(n, e.kind, if PostsToTally(e.kind) then PendingSync else Closed, e.header, e.occurredAt)
  }

  function Inventory(db: Db, n: NodeCode, e: Event): (r: Result<(Db, EventResult), Error>)
    requires n in db.nodes
    ensures r.Ok? ==> r.value.0.nodes == db.nodes && r.value.0.journal == db.journal
  {
    var last :- InventoryItems(db.(batches := db.batches[e.id := NewBatch(n, e)]), n, e, e.items);
    Ok((last, BatchResult(e.id, NewBatch(n, e).status, |e.items|)))
  }

  // ---------------------------------------------------------------- transfers

  function CheckDispatchItem(db: Db, n: NodeCode, s: SerialNumber): Result<(), Error> {
    if !Tracked(db, s) then Err(StockUnknown)
    else if db.stock[s].owner != n then Err(StockOwnershipConflict)
    else if !db.serials[s].active || !Available(db.serials[s].status) || !Available(db.stock[s].status) then Err(StockNotAvailable)
    else Ok(())
  }

  function CheckDispatchItems(db: Db, n: NodeCode, items: seq<Item>): (r: Result<(), Error>)
    ensures r.Ok? <==> forall k :: 0 <= k < |items| ==> CheckDispatchItem(db, n, items[k].serial).Ok?
  {
    if items == [] then Ok(())
    else
      var _ :- CheckDispatchItem(db, n, items[0].serial);
      CheckDispatchItems(db, n, items[1..])
  }

  function DispatchItem(db: Db, t: Uuid, e: Uuid, s: SerialNumber): (next: Db)
    requires Tracked(db, s)
    ensures forall x :: Tracked(next, x) <==> Tracked(db, x)
    ensures next.nodes == db.nodes && next.journal == db.journal && next.commands == db.commands
  {
    var moved := Moved(db, s, InTransit, db.stock[s].owner, db.serials[s].details, e);
    moved.(transferItems := moved.transferItems[(t, s) := TransferItem(None)])
  }

  function DispatchItems(db: Db, t: Uuid, e: Uuid, items: seq<Item>): (last: Db)
    requires forall k :: 0 <= k < |items| ==> Tracked(db, items[k].serial)
    ensures last.nodes == db.nodes && last.journal == db.journal && last.commands == db.commands
    decreases |items|
  {
    if items == [] then db
    else
      var next := DispatchItem(db, t, e, items[0].serial);
      assert forall k :: 0 <= k < |items[1..]| ==> Tracked(db, items[1..][k].serial);
      DispatchItems(next, t, e, items[1..])
  }

  function CheckDispatch(db: Db, n: NodeCode, e: Event, t: Uuid): Result<(), Error> {
    if e.destination !in db.nodes || !db.nodes[e.destination].active then Err(DestinationNotFound)
    else if e.destination == n then Err(InvalidTransfer)
    else if exists u | u in db.transfers :: db.transfers[u].source == n && db.transfers[u].reference == e.reference
    then Err(TransferReferenceConflict)
    else if t in db.transfers then Err(TransferIdConflict)
    else CheckDispatchItems(db, n, e.items)
  }

  function TransferId(e: Event): Uuid {
    if e.transferId.Some? then e.transferId.value else e.id
  }

  /** The new transfer, before its manifest is written. */
  function Booked(db: Db, n: NodeCode, e: Event, t: Uuid): Db {
    db.(transfers := db.transfers[t := Transfer(n, e.destination, e.reference, Dispatched, e.id)])
  }

  function Dispatch(db: Db, n: NodeCode, e: Event): (r: Result<(Db, EventResult), Error>)
    requires n in db.nodes
    ensures r.Ok? ==> r.value.0.nodes == db.nodes && r.value.0.journal == db.journal
  {
    var t := TransferId(e);
    var _ :- CheckDispatch(db, n, e, t);
    var loaded := DispatchItems(Booked(db, n, e, t), t, e.id, e.items);
    Ok((Queued(loaded, e.destination, TransferAvailable(t, e.items)),
        DispatchResult(t, e.destination, |loaded.commands|, |e.items|)))
  }

  function ReceivedStatus(status: Option<Status>): Status {
    if status.Some? && Available(status.value) then status.value else InStock
  }

  function CheckReceiveItem(db: Db, t: Uuid, s: SerialNumber): (r: Result<(), Error>)
    requires t in db.transfers
    ensures r.Ok? ==> Tracked(db, s) && (t, s) in db.transferItems && db.transferItems[(t, s)].receipt.None?
  {
    if (t, s) !in db.transferItems then Err(TransferItemConflict)
    else if db.transferItems[(t, s)].receipt.Some? then Err(TransferItemAlreadyReceived)
    else if !Tracked(db, s) || db.stock[s].owner != db.transfers[t].source || !db.stock[s].status.InTransit?
    then Err(TransferStockConflict)
    else Ok(())
  }

  /** The receiving franchise takes ownership and the manifest unit is closed. */
  function LandItem(db: Db, n: NodeCode, t: Uuid, e: Uuid, item: Item): (next: Db)
    requires n in db.nodes && Tracked(db, item.serial)
  {
    var s := item.serial;
    var moved := Moved(db, s, ReceivedStatus(item.status), n, UpdatedDetails(db.serials[s].details, db.nodes[n], item), e);
    moved.(transferItems := moved.transferItems[(t, s) := TransferItem(Some(e))])
  }

  function ReceiveItem(db: Db, n: NodeCode, t: Uuid, e: Event, item: Item): (r: Result<Db, Error>)
    requires n in db.nodes && t in db.transfers
    ensures r.Ok? ==> r.value.transfers == db.transfers && r.value.nodes == db.nodes
                      && r.value.commands == db.commands && r.value.journal == db.journal
  {
    var _ :- CheckReceiveItem(db, t, item.serial);
    Ok(LandItem(db, n, t, e.id, item))
  }

  function ReceiveItems(db: Db, n: NodeCode, t: Uuid, e: Event, items: seq<Item>): (r: Result<Db, Error>)
    requires n in db.nodes && t in db.transfers
    ensures r.Ok? ==> r.value.transfers == db.transfers && r.value.nodes == db.nodes && r.value.commands == db.commands && r.value.journal == db.journal
    decreases |items|
  {
    if items == [] then Ok(db)
    else
      var next :- ReceiveItem(db, n, t, e, items[0]);
      ReceiveItems(next, n, t, e, items[1..])
  }

  predicate AllReceived(db: Db, t: Uuid) {
    forall k | k in db.transferItems && k.0 == t :: db.transferItems[k].receipt.Some?
  }

  function Serials(items: seq<Item>): (r: seq<SerialNumber>)
    ensures |r| == |items|
    ensures forall k :: 0 <= k < |items| ==> r[k] == items[k].serial
  {
    seq(|items|, k requires 0 <= k < |items| => items[k].serial)
  }

  function CheckReceive(db: Db, n: NodeCode, t: Uuid): Result<(), Error> {
    if t !in db.transfers then Err(TransferNotFound)
    else if db.transfers[t].destination != n then Err(TransferForbidden)
    else if db.transfers[t].status.FullyReceived? then Err(TransferAlreadyReceived)
    else Ok(())
  }

  /** The transfer takes its new status and the source is sent the receipt. */
  function CloseReceipt(db: Db, t: Uuid, items: seq<Item>): Db
    requires t in db.transfers
  {
    var status := if AllReceived(db, t) then FullyReceived else PartiallyReceived;
    Queued(db.(transfers := db.transfers[t := db.transfers[t].(status := status)]),
           db.transfers[t].source,
           TransferReceipt(t, status, AllReceived(db, t), Serials(items)))
  }

  function ReceiveTransfer(db: Db, n: NodeCode, e: Event): (r: Result<(Db, EventResult), Error>)
    requires n in db.nodes && e.transferId.Some?
    ensures r.Ok? ==> r.value.0.nodes == db.nodes && r.value.0.journal == db.journal
  {
    var t := e.transferId.value;
    var _ :- CheckReceive(db, n, t);
    var landed :- ReceiveItems(db, n, t, e, e.items);
    var closed := CloseReceipt(landed, t, e.items);
    Ok((closed, ReceiveResult(t, closed.transfers[t].status, |e.items|, |landed.commands|)))
  }

  // ---------------------------------------------------------------- one event, one request

  /** A payment receipt; its contents are not modelled. */
  function SubmitReceipt(db: Db, n: NodeCode, id: Uuid): (r: Result<(Db, EventResult), Error>)
    ensures r.Ok? ==> r.value.0.nodes == db.nodes && r.value.0.journal == db.journal
  {
    if (n, id) in db.receipts then Err(IntegrityConflict)
    else Ok((db.(receipts := db.receipts[(n, id) := AwaitingReview]), ReceiptResult(id)))
  }

  function ApplyEvent(db: Db, n: NodeCode, e: Event): (r: Result<(Db, EventResult), Error>)
    requires n in db.nodes && WellShaped(e)
    ensures r.Ok? ==> r.value.0.nodes == db.nodes && r.value.0.journal == db.journal
  {
    hide Snapshot, Dispatch, ReceiveTransfer, Inventory, SubmitReceipt, DistinctSerials;
    match e.kind
    case Heartbeat => Ok((db, HeartbeatResult))
    case StockSnapshot => Snapshot(db, n, e)
    case TransferDispatched => Dispatch(db, n, e)
    case TransferReceived => ReceiveTransfer(db, n, e)
    case ReceiptSubmitted => SubmitReceipt(db, n, e.receiptId)
    case _ => Inventory(db, n, e)
  }

  predicate SequenceUsed(db: Db, n: NodeCode, sequence: nat) {
    exists p | p in db.journal :: db.journal[p].node == n && db.journal[p].event.sequence == sequence
  }

  /** An event the journal has not seen is applied, journalled and acknowledged. */
  function AcceptEvent(db: Db, n: NodeCode, now: int, e: Event): (r: Result<(Db, Acknowledgement), Error>)
    requires n in db.nodes && WellShaped(e)
    ensures r.Ok? ==> n in r.value.0.nodes
  {
    if SequenceUsed(db, n, e.sequence) then Err(SequenceConflict)
    else if e.sequence > db.nodes[n].lastSequence + 1 then Err(SequenceGap)
    else if e.sequence < db.nodes[n].lastSequence + 1 then Err(SequenceStale)
    else
      var (next, result) :- ApplyEvent(db, n, e);
      var ack := Acknowledgement(e.id, e.sequence, e.kind, now, result);
      Ok((next.(journal := next.journal[e.id := Inbound(n, e, ack)],
                nodes := next.nodes[n := next.nodes[n].(lastSequence := e.sequence)]), ack))
  }

  function IngestEvent(db: Db, n: NodeCode, now: int, e: Event): (r: Result<(Db, Acknowledgement), Error>)
    requires n in db.nodes && WellShaped(e)
    ensures r.Ok? ==> n in r.value.0.nodes
  {
    if e.id in db.journal then
      if db.journal[e.id].node != n then Err(EventForbidden)
      else if db.journal[e.id].event != e then Err(EventIdConflict)
      else Ok((db, db.journal[e.id].acknowledgement))
    else AcceptEvent(db, n, now, e)
  }

  function IngestEvents(db: Db, n: NodeCode, now: int, events: seq<Event>): (r: Result<(Db, seq<Acknowledgement>), Error>)
    requires n in db.nodes
    requires forall k :: 0 <= k < |events| ==> WellShaped(events[k])
    ensures r.Ok? ==> n in r.value.0.nodes && |r.value.1| == |events|
    decreases |events|
  {
    if events == [] then Ok((db, []))
    else
      var (next, ack) :- IngestEvent(db, n, now, events[0]);
      var (last, acks) :- IngestEvents(next, n, now, events[1..]);
      Ok((last, [ack] + acks))
  }

  // ---------------------------------------------------------------- the request boundary

  datatype Response = Accepted(acknowledgements: seq<Acknowledgement>, lastSequence: nat) | Refused(error: Error)

  function ItemCount(events: seq<Event>): nat {
    if events == [] then 0 else |events[0].items| + ItemCount(events[1..])
  }

  /** One node request: it is applied as a whole, or nothing of it is. */
  function PostEvents(db: Db, n: NodeCode, now: int, limit: nat, events: seq<Event>): (r: (Db, Response))
    requires n in db.nodes
    requires forall k :: 0 <= k < |events| ==> WellShaped(events[k])
  {
    if ItemCount(events) > limit then (db, Refused(TooManyItems))
    else if !db.nodes[n].active then (db, Refused(NodeInactive))
    else
      match IngestEvents(db, n, now, events)
      case Err(error) => (db, Refused(error))
      case Ok((next, acknowledgements)) => (next, Accepted(acknowledgements, next.nodes[n].lastSequence))
  }

  function Acknowledge(db: Db, n: NodeCode, index: nat): Db {
    if index < |db.commands| && db.commands[index].target == n
    then db.(commands := db.commands[index := db.commands[index].(acknowledged := true)])
    else db
  }
}
