/**
 Setuora Master as one transition system: node requests and the administrator's actions, in any order
 and any number, from an empty database.
 */
module MasterSystem {
  import opened Records
  import opened NetworkDb
  import opened NetworkIngest
  import opened QrAllocation
  import opened QrReplacementIntent
  import opened TallyProducts
  import opened StockInvariants
  import opened StockSteps
  import opened EventInvariants
  import opened LedgerInvariants

  datatype Action =
    | Post(node: NodeCode, now: int, limit: nat, events: seq<Event>)
    | AllocateQr(request: AllocationRequest, id: Uuid, codes: seq<SerialNumber>)
    | ReserveQr(node: NodeCode, serial: SerialNumber, candidates: seq<SerialNumber>)
    | AcknowledgeCommand(node: NodeCode, index: nat)
    | LiveSync(items: seq<TallyItem>, now: int)
    | AddNode(node: NodeCode, godown: Option<string>)
    | SetActive(node: NodeCode, active: bool)
    | AddProduct(code: ProductCode, product: Product)
    | ImportProduct(code: ProductCode, product: Product)
    | LinkProduct(code: ProductCode, item: TallyItem, now: int)
    | ReviewReceipt(node: NodeCode, receipt: Uuid, decision: ReceiptStatus, remarks: string)

  /** Requests come from registered nodes and passed the schema checks. */
  predicate Admissible(db: Db, a: Action) {
    match a
    case Post(n, _, _, events) => n in db.nodes && forall k :: 0 <= k < |events| ==> WellShaped(events[k])
    case AllocateQr(request, _, codes) => |codes| == request.quantity
    case ReserveQr(_, _, candidates) => |candidates| == SERIAL_ATTEMPTS
    case AddNode(n, _) => n !in db.nodes
    case SetActive(n, _) => n in db.nodes
    case AddProduct(code, product) => code !in db.products && ValidGst(product.identity)
    case ImportProduct(code, product) => code !in db.products && code.franchise in db.nodes && ValidGst(product.identity)
    case LinkProduct(code, _, _) => code in db.products
    case _ => true
  }

  function WithProduct(db: Db, code: ProductCode, product: Product): Db {
    db.(products := db.products[code := product], productOrder := db.productOrder + [code])
  }

  /** An import of an item that Master already has links the product to it. */
  function Linked(product: Product, item: TallyItem, now: int): Product {
    product.(tallyGuid := OrElse(product.tallyGuid, item.guid), tallySyncedAt := FirstSet(product.tallySyncedAt, Some(now)))
  }

  /** An administrator decides once on a receipt, and its Lite is told (app/routers/receipts.py). `remarks` is stripped. */
  function Reviewed(db: Db, n: NodeCode, receipt: Uuid, decision: ReceiptStatus, remarks: string): Db {
    if (n, receipt) !in db.receipts || !db.receipts[(n, receipt)].AwaitingReview? || decision.AwaitingReview? then db
    else if (decision.Denied? && remarks == "") || |remarks| > 1000 then db
    else
      Queued(db.(receipts := db.receipts[(n, receipt) := decision]), n,
             ReceiptReviewed(receipt, decision, if decision.Denied? then remarks else ""))
  }

  function Step(db: Db, a: Action): Db {
    if !Admissible(db, a) then db
    else
      match a
      case Post(n, now, limit, events) => PostEvents(db, n, now, limit, events).0
      case AllocateQr(request, id, codes) =>
        (match Allocate(db, request, id, codes) case Ok((next, _)) => next case Err(_) => db)
      case ReserveQr(n, s, candidates) =>
        (match RequestReplacement(db, n, s, candidates) case Ok(next) => next case Err(_) => db)
      case AcknowledgeCommand(n, index) => Acknowledge(db, n, index)
      case LiveSync(items, now) => ApplyTallyItems(db, items, now).0
      case AddNode(n, godown) => db.(nodes := db.nodes[n := Node(true, godown, 0)])
      case SetActive(n, active) => db.(nodes := db.nodes[n := db.nodes[n].(active := active)])
      case AddProduct(code, product) => WithProduct(db, code, product)
      case ImportProduct(code, product) =>
        Queued(WithProduct(db, code, product), code.franchise, ProductUpsert(code, product))
      case LinkProduct(code, item, now) =>
        db.(products := db.products[code := Linked(db.products[code], item, now)])
      case ReviewReceipt(n, receipt, decision, remarks) => Reviewed(db, n, receipt, decision, remarks)
  }

  function Run(db: Db, actions: seq<Action>): Db {
    if actions == [] then db else Step(Run(db, actions[..|actions| - 1]), actions[|actions| - 1])
  }

  // ---------------------------------------------------------------- the system invariant

  /** The commands of every recorded allocation carry as many serials as were asked for. */
  ghost predicate Allocations(db: Db) {
    && (forall a | a in db.allocations ::
          |AllocatedSerials(db.commands, db.allocations[a].node, a)| == db.allocations[a].quantity)
    && (forall i | 0 <= i < |db.commands| && db.commands[i].payload.QrAllocated? ::
          db.commands[i].payload.allocation in db.allocations)
  }

  ghost predicate Inv(db: Db) {
    StockInv(db) && Ledger(db) && Journal(db) && Vouchers(db) && Catalogue(db) && Allocations(db)
  }
}
