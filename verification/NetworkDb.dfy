/**
 The tables of Setuora Master that franchise synchronisation reads and writes.

 Every table is a finite map on its unique key. A franchise node is keyed by its permanent code, a
 serial by its serial number, a transfer, an event and a receipt by their UUID. A UUID is an opaque
 number. Commands are a sequence in id order, and a command's public id is its position.
 */
module NetworkDb {
  import opened Records

  type NodeCode = string
  type SerialNumber = string
  type Uuid = nat

  datatype Status =
    | Generated | Purchased | Received | InStock | Sold | Returned | PurchaseReturn | Issued
    | Audited | Damaged | Missing | InTransit | Invalid | Replaced

  datatype EventType =
    | StockSnapshot | Purchase | Receive | Sale | SalesReturn | SupplierReturn | Issue | Audit
    | TransferDispatched | TransferReceived | Heartbeat | ReceiptSubmitted

  /** The statuses from which stock can be sold, returned to the supplier or dispatched. */
  predicate Available(status: Status) {
    status.InStock? || status.Returned?
  }

  /** The statuses whose rows are physically held by the owner. */
  predicate OnHand(status: Status) {
    status.InStock? || status.Returned? || status.Damaged?
  }

  predicate Replaceable(status: Status) {
    status.Generated? || status.InStock? || status.Returned? || status.Damaged?
  }

  // ---------------------------------------------------------------- products

  /** `franchise:local`; franchise codes hold no colon, so the two parts determine the text. */
  datatype ProductCode = ProductCode(franchise: NodeCode, local: string)

  /** What Lite freezes into an event and Master compares with its own product record. */
  datatype Identity = Identity(name: string, tallyName: string, hsn: string, unit: string, gstRate: real)

  datatype Product = Product(
    identity: Identity,
    defaultRate: real,
    discountRate: real,
    tallyGuid: string,
    tallySyncedAt: Option<int>,
    active: bool)

  /** One row of product_identity_history. */
  datatype ReplacedIdentity = ReplacedIdentity(product: ProductCode, identity: Identity, replacedAt: int)

  // ---------------------------------------------------------------- stock

  datatype Details = Details(
    batchNumber: Option<string>,
    mfgDate: Option<int>,
    expiryDate: Option<int>,
    warehouse: Option<string>)

  datatype Serial = Serial(
    id: nat,
    product: ProductCode,
    status: Status,
    active: bool,
    replacedBy: Option<SerialNumber>,
    details: Details)

  /** Ownership of one serial; the authority on its status. */
  datatype Stock = Stock(owner: NodeCode, origin: NodeCode, status: Status, lastEvent: Option<Uuid>)

  // ---------------------------------------------------------------- events

  /** The reference text of an event, read as the forms the ingest code distinguishes. */
  datatype Reference =
    | NoReference
    | InitialInventory(node: NodeCode, part: nat)
    | CommandId(index: nat)
    | FreeText(text: string)

  /** The reason text of an event, read as the forms the ingest code distinguishes. */
  datatype Reason = NoReason | InitialEnrollment | QrReplacement | DamagedGoods | ExpiredGoods | OtherReason(text: string)

  /** `status` is None for a text that is not one of the supported stock statuses. */
  datatype Item = Item(
    serial: SerialNumber,
    productCode: string,
    identity: Identity,
    rate: real,
    discountRate: real,
    status: Option<Status>,
    details: Details)

  /** The financial metadata copied from an event to its voucher batch. */
  datatype PartyHeader = PartyHeader(
    partyName: Option<string>,
    interState: bool,
    cgstRate: Option<real>,
    sgstRate: Option<real>,
    igstRate: Option<real>)

  datatype Event = Event(
    id: Uuid,
    sequence: nat,
    kind: EventType,
    occurredAt: int,
    reference: Reference,
    reason: Reason,
    items: seq<Item>,
    header: PartyHeader,
    destination: NodeCode,
    transferId: Option<Uuid>,
    receiptId: Uuid)

  predicate DistinctSerials(items: seq<Item>) {
    forall i, j :: 0 <= i < j < |items| ==> items[i].serial != items[j].serial
  }

  predicate ValidGst(identity: Identity) {
    0.0 <= identity.gstRate <= 100.0
  }

  predicate ValidPrices(rate: real, discountRate: real) {
    rate >= 0.0 && 0.0 <= discountRate <= 100.0
  }

  predicate ValidRateField(rate: Option<real>) {
    rate.Some? ==> 0.0 <= rate.value <= 100.0
  }

  predicate ValidHeader(header: PartyHeader) {
    ValidRateField(header.cgstRate) && ValidRateField(header.sgstRate) && ValidRateField(header.igstRate)
  }

  /** The numeric ranges of the request schema. */
  predicate InRange(items: seq<Item>) {
    forall i :: 0 <= i < |items| ==> ValidGst(items[i].identity) && ValidPrices(items[i].rate, items[i].discountRate)
  }

  /** The checks the request schema makes before an event reaches the ingest code. */
  predicate WellShaped(e: Event) {
    && e.sequence >= 1
    && DistinctSerials(e.items)
    && InRange(e.items)
    && ValidHeader(e.header)
    && (if e.kind.Heartbeat? || e.kind.ReceiptSubmitted? then e.items == [] else e.items != [])
    && (e.kind.TransferDispatched? ==> !e.reference.NoReference?)
    && (e.kind.TransferReceived? ==> e.transferId.Some?)
  }

  datatype EventResult =
    | HeartbeatResult
    | SnapshotResult(created: nat, updated: nat)
    | ReplacementResult(oldSerial: SerialNumber, newSerial: SerialNumber, status: Status)
    | BatchResult(batch: Uuid, batchStatus: BatchStatus, itemCount: nat)
    | DispatchResult(transfer: Uuid, destination: NodeCode, command: nat, itemCount: nat)
    | ReceiveResult(transfer: Uuid, transferStatus: TransferStatus, receivedCount: nat, command: nat)
    | ReceiptResult(receipt: Uuid)

  datatype Acknowledgement = Acknowledgement(
    eventId: Uuid,
    sequence: nat,
    kind: EventType,
    receivedAt: int,
    result: EventResult)

  /** One row of inbound_events. */
  datatype Inbound = Inbound(node: NodeCode, event: Event, acknowledgement: Acknowledgement)

  // ---------------------------------------------------------------- vouchers, transfers, commands

  datatype BatchStatus = PendingSync | Closed

  /** A voucher batch, joined with the inbound event that created it; keyed by that event's id. */
  datatype Batch = Batch(node: NodeCode, kind: EventType, status: BatchStatus, header: PartyHeader, submittedAt: int)

  datatype BatchItem = BatchItem(rate: real, discountRate: real)

  datatype TransferStatus = Dispatched | PartiallyReceived | FullyReceived

  datatype Transfer = Transfer(
    source: NodeCode,
    destination: NodeCode,
    reference: Reference,
    status: TransferStatus,
    dispatchEvent: Uuid)

  /** One unit of a transfer manifest; `receipt` is the event that received it. */
  datatype TransferItem = TransferItem(receipt: Option<Uuid>)

  datatype ReceiptStatus = AwaitingReview | Approved | Denied

  datatype Payload =
    | TransferAvailable(transfer: Uuid, manifest: seq<Item>)
    | TransferReceipt(receiptOf: Uuid, status: TransferStatus, complete: bool, received: seq<SerialNumber>)
    | QrReplace(oldSerial: SerialNumber, newSerial: SerialNumber, expected: Status)
    | QrAllocated(allocation: Uuid, part: nat, partCount: nat, product: ProductCode, serials: seq<SerialNumber>)
    | ProductUpsert(product: ProductCode, details: Product)
    | ReceiptReviewed(receipt: Uuid, decision: ReceiptStatus, remarks: string)

  datatype Command = Command(target: NodeCode, payload: Payload, acknowledged: bool)

  datatype Intent = Intent(
    franchise: NodeCode,
    newSerial: SerialNumber,
    expected: Status,
    command: nat,
    completed: bool)

  /** The body of an allocation request; two requests with equal hashes have equal bodies. */
  datatype AllocationRequest = AllocationRequest(
    node: NodeCode,
    product: ProductCode,
    quantity: nat,
    details: Details)

  datatype Node = Node(active: bool, godown: Option<string>, lastSequence: nat)

  /**
   `enrolled` is a history variable: the serials whose initial-inventory snapshot created them as
   IN_STOCK. `nextId` is the next serial row id.
   */
  datatype Db = Db(
    nodes: map<NodeCode, Node>,
    products: map<ProductCode, Product>,
    productOrder: seq<ProductCode>,
    identityHistory: seq<ReplacedIdentity>,
    serials: map<SerialNumber, Serial>,
    nextId: nat,
    stock: map<SerialNumber, Stock>,
    batches: map<Uuid, Batch>,
    batchItems: map<(Uuid, SerialNumber), BatchItem>,
    transfers: map<Uuid, Transfer>,
    transferItems: map<(Uuid, SerialNumber), TransferItem>,
    commands: seq<Command>,
    intents: map<SerialNumber, Intent>,
    allocations: map<Uuid, AllocationRequest>,
    receipts: map<(NodeCode, Uuid), ReceiptStatus>,
    journal: map<Uuid, Inbound>,
    enrolled: set<SerialNumber>)

  const EMPTY_DB := Db(
    map[], map[], [], [], map[], 0, map[], map[], map[], map[], map[], [], map[], map[], map[], map[], {})

  datatype Error =
    | NodeInactive | EventForbidden | EventIdConflict | SequenceConflict | SequenceGap | SequenceStale
    | InvalidStockStatus | MasterQrRequired | InvalidEnrollmentStatus | StockTrackingConflict
    | StockOwnershipConflict | StockStatusConflict | StockDataConflict | ProductIdentityConflict
    | InvalidReplacementShape | InvalidReplacementTransition | QrReplacementNotReserved
    | InvalidStockTransition | UnsupportedEvent
    | DestinationNotFound | InvalidTransfer | TransferReferenceConflict | TransferIdConflict
    | StockUnknown | StockNotAvailable
    | TransferNotFound | TransferForbidden | TransferAlreadyReceived | TransferItemConflict
    | TransferItemAlreadyReceived | TransferStockConflict
    | IntegrityConflict | TooManyItems
}
