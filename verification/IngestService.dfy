/**
 Event ingestion as the source runs it: loops that update the session's rows, and the request boundary that
 commits or rolls back (app/services/network_ingest.py, app/routers/node_api.py).

 After an error the working copy is whatever the loop had reached; only the request boundary undoes it.
 */
module IngestService {
  import opened Records
  import opened NetworkDb
  import opened NetworkIngest
  import opened Sessions

  /** The method ended as the function says: with its result and database, or with its error. */
  ghost predicate Ended<T>(want: Result<(Db, T), Error>, got: Result<T, Error>, work: Db) {
    if want.Ok? then got == Ok(want.value.1) && work == want.value.0 else got == Err(want.error)
  }

  /** The identity check scans the replaced identities only when the current one differs. */
  method ValidateProductIdentity(db: Db, code: ProductCode, origin: NodeCode, item: Item) returns (r: Result<(), Error>)
    ensures r == ValidateIdentity(db, code, origin, item)
  {
    if code !in db.products {
      return Err(StockDataConflict);
    }
    if code != ProductCode(origin, item.productCode) {
      return Err(ProductIdentityConflict);
    }
    hide SameIdentity;
    if SameIdentity(db.products[code].identity, item.identity) {
      return Ok(());
    }
    for k := 0 to |db.identityHistory|
      invariant forall j :: 0 <= j < k ==>
                  !(db.identityHistory[j].product == code && SameIdentity(db.identityHistory[j].identity, item.identity))
    {
      if db.identityHistory[k].product == code && SameIdentity(db.identityHistory[k].identity, item.identity) {
        return Ok(());
      }
    }
    return Err(ProductIdentityConflict);
  }

  // ---------------------------------------------------------------- inventory events

  method InventoryItemStep(db: Session, n: NodeCode, e: Event, item: Item) returns (r: Result<(), Error>)
    requires n in db.work.nodes
    modifies db`work
    ensures var want := InventoryItem(old(db.work), n, e, item);
            if want.Ok? then r == Ok(()) && db.work == want.value else r == Err(want.error)
  {
    hide ValidateIdentity, UpdatedDetails, Transition;
    var s := item.serial;
    if s !in db.work.serials {
      return Err(MasterQrRequired);
    }
    if s in db.work.stock && db.work.stock[s].owner != n {
      return Err(StockOwnershipConflict);
    }
    if s !in db.work.stock {
      return Err(StockTrackingConflict);
    }
    var serial, stock := db.work.serials[s], db.work.stock[s];
    if stock.origin !in db.work.nodes {
      return Err(StockDataConflict);
    }
    var valid := ValidateProductIdentity(db.work, serial.product, stock.origin, item);
    if valid.Err? {
      return valid;
    }
    var target := Transition(e.kind, e.reason, stock.status);
    if target.Err? {
      return Err(target.error);
    }
    serial := serial.(status := target.value);
    stock := stock.(status := target.value, lastEvent := Some(e.id));
    serial := serial.(details := UpdatedDetails(serial.details, db.work.nodes[n], item));
    ghost var before := db.work;
    db.work := db.work.(serials := db.work.serials[s := serial], stock := db.work.stock[s := stock]);
    db.work := db.work.(batchItems := db.work.batchItems[(e.id, s) := BatchItem(item.rate, item.discountRate)]);
    assert db.work == BookItem(before, n, e.id, item, target.value);
    return Ok(());
  }

  method InventoryEvent(db: Session, n: NodeCode, e: Event) returns (r: Result<EventResult, Error>)
    requires n in db.work.nodes
    modifies db`work
    ensures Ended(Inventory(old(db.work), n, e), r, db.work)
  {
    hide InventoryItem;
    var batch := Batch(n, e.kind, if PostsToTally(e.kind) then PendingSync else Closed, e.header, e.occurredAt);
    db.work := db.work.(batches := db.work.batches[e.id := batch]);
    ghost var start := db.work;
    for i := 0 to |e.items|
      invariant n in db.work.nodes
      invariant InventoryItems(start, n, e, e.items) == InventoryItems(db.work, n, e, e.items[i..])
    {
      assert e.items[i..][1..] == e.items[i + 1..];
      var step := InventoryItemStep(db, n, e, e.items[i]);
      if step.Err? {
        return Err(step.error);
      }
    }
    return Ok(BatchResult(e.id, batch.status, |e.items|));
  }

  // ---------------------------------------------------------------- snapshots

  /** The serial row follows the stock row; both rows note the snapshot. */
  method RefreshRows(db: Session, n: NodeCode, e: Uuid, item: Item)
    requires n in db.work.nodes && Tracked(db.work, item.serial)
    modifies db`work
    ensures db.work == Refresh(old(db.work), n, e, item)
  {
    hide UpdatedDetails;
    var s := item.serial;
    var serial, stock := db.work.serials[s], db.work.stock[s];
    serial := serial.(status := stock.status);
    stock := stock.(lastEvent := Some(e));
    serial := serial.(details := UpdatedDetails(serial.details, db.work.nodes[n], item));
    db.work := db.work.(serials := db.work.serials[s := serial], stock := db.work.stock[s := stock]);
  }

  method KnownItemStep(db: Session, n: NodeCode, e: Event, item: Item, status: Status) returns (r: Result<(), Error>)
    requires n in db.work.nodes && item.serial in db.work.serials
    modifies db`work
    ensures var want := SnapshotKnown(old(db.work), n, e, item, status);
            if want.Ok? then r == Ok(()) && db.work == want.value else r == Err(want.error)
  {
    hide ValidateIdentity, Refresh;
    var s := item.serial;
    if s !in db.work.stock {
      return Err(StockTrackingConflict);
    }
    var serial, stock := db.work.serials[s], db.work.stock[s];
    if stock.owner != n {
      return Err(StockOwnershipConflict);
    }
    if status != stock.status {
      return Err(StockStatusConflict);
    }
    if stock.origin !in db.work.nodes {
      return Err(StockDataConflict);
    }
    var valid := ValidateProductIdentity(db.work, serial.product, stock.origin, item);
    if valid.Err? {
      return valid;
    }
    RefreshRows(db, n, e.id, item);
    return Ok(());
  }

  method SnapshotItemStep(db: Session, n: NodeCode, e: Event, initial: bool, item: Item) returns (r: Result<bool, Error>)
    requires n in db.work.nodes
    modifies db`work
    ensures var want := SnapshotItem(old(db.work), n, e, initial, item);
            if want.Ok? then r == Ok(item.serial !in old(db.work).serials) && db.work == want.value else r == Err(want.error)
  {
    hide ValidateIdentity, SnapshotKnown;
    if item.status.None? {
      return Err(InvalidStockStatus);
    }
    if item.serial in db.work.serials {
      var known := KnownItemStep(db, n, e, item, item.status.value);
      return if known.Err? then Err(known.error) else Ok(false);
    }
    if !initial {
      return Err(MasterQrRequired);
    }
    if !(item.status.value.Generated? || item.status.value.InStock?) {
      return Err(InvalidEnrollmentStatus);
    }
    var code := ProductCode(n, item.productCode);
    db.work := EnsureProduct(db.work, code, item);
    var valid := ValidateProductIdentity(db.work, code, n, item);
    if valid.Err? {
      return Err(valid.error);
    }
    db.work := NewSerial(db.work, n, e.id, item, code, item.status.value);
    return Ok(true);
  }

  /** The items counted so far, added to what the rest creates. */
  ghost function Counted(rest: Result<(Db, nat), Error>, created: nat): Result<(Db, nat), Error> {
    if rest.Ok? then Ok((rest.value.0, rest.value.1 + created)) else rest
  }

  lemma SnapshotItemsHead(db: Db, n: NodeCode, e: Event, initial: bool, items: seq<Item>)
    requires n in db.nodes && items != []
    ensures var step := SnapshotItem(db, n, e, initial, items[0]);
            && (step.Err? ==> SnapshotItems(db, n, e, initial, items) == Err(step.error))
            && (step.Ok? ==> SnapshotItems(db, n, e, initial, items)
                             == Counted(SnapshotItems(step.value, n, e, initial, items[1..]), if items[0].serial in db.serials then 0 else 1))
  {
    hide SnapshotItem;
  }

  lemma CountedTwice(r: Result<(Db, nat), Error>, a: nat, b: nat)
    ensures Counted(Counted(r, a), b) == Counted(r, b + a)
    ensures r.Err? ==> Counted(r, a) == Err(r.error)
  {
  }

  lemma CountedStep(db: Db, n: NodeCode, e: Event, initial: bool, items: seq<Item>, created: nat)
    requires n in db.nodes && items != []
    ensures var step := SnapshotItem(db, n, e, initial, items[0]);
            && (step.Err? ==> Counted(SnapshotItems(db, n, e, initial, items), created) == Err(step.error))
            && (step.Ok? ==>
                  Counted(SnapshotItems(db, n, e, initial, items), created)
                  == Counted(SnapshotItems(step.value, n, e, initial, items[1..]), created + (if items[0].serial in db.serials then 0 else 1)))
  {
    SnapshotItemsHead(db, n, e, initial, items);
    hide SnapshotItem, SnapshotItems, Counted;
    var step := SnapshotItem(db, n, e, initial, items[0]);
    if step.Err? {
      CountedTwice(SnapshotItems(db, n, e, initial, items), created, 0);
    } else {
      CountedTwice(SnapshotItems(step.value, n, e, initial, items[1..]), if items[0].serial in db.serials then 0 else 1, created);
    }
  }

  lemma CountedEnds(db: Db, n: NodeCode, e: Event, initial: bool, items: seq<Item>, created: nat)
    requires n in db.nodes
    ensures Counted(SnapshotItems(db, n, e, initial, items), 0) == SnapshotItems(db, n, e, initial, items)
    ensures Counted(SnapshotItems(db, n, e, initial, []), created) == Ok((db, created))
  {
  }

  /** The loop over the items of a snapshot. */
  method SnapshotLoop(db: Session, n: NodeCode, e: Event, initial: bool) returns (r: Result<nat, Error>)
    requires n in db.work.nodes
    modifies db`work
    ensures Ended(SnapshotItems(old(db.work), n, e, initial, e.items), r, db.work)
    ensures r.Ok? ==> r.value <= |e.items|
  {
    hide SnapshotItem, SnapshotItems, Counted;
    var created, updated := 0, 0;
    ghost var start := db.work;
    CountedEnds(start, n, e, initial, e.items, 0);
    assert e.items[0..] == e.items;
    for i := 0 to |e.items|
      invariant n in db.work.nodes
      invariant created + updated == i
      invariant SnapshotItems(start, n, e, initial, e.items) == Counted(SnapshotItems(db.work, n, e, initial, e.items[i..]), created)
    {
      assert e.items[i..][1..] == e.items[i + 1..] && e.items[i..][0] == e.items[i];
      CountedStep(db.work, n, e, initial, e.items[i..], created);
      var step := SnapshotItemStep(db, n, e, initial, e.items[i]);
      if step.Err? {
        return Err(step.error);
      }
      if step.value {
        created := created + 1;
      } else {
        updated := updated + 1;
      }
    }
    assert e.items[|e.items|..] == [];
    CountedEnds(db.work, n, e, initial, e.items, created);
    return Ok(created);
  }

  method SnapshotEvent(db: Session, n: NodeCode, e: Event) returns (r: Result<EventResult, Error>)
    requires n in db.work.nodes
    modifies db`work
    ensures Ended(Snapshot(old(db.work), n, e), r, db.work)
  {
    hide SnapshotItems, ReplacementSnapshot;
    if e.reason.QrReplacement? {
      r := ReplacementSnapshotEvent(db, n, e);
      return;
    }
    var initial := IsInitialEnrollment(db.work, n, e);
    hide IsInitialEnrollment;
    var created := SnapshotLoop(db, n, e, initial);
    if created.Err? {
      return Err(created.error);
    }
    return Ok(SnapshotResult(created.value, |e.items| - created.value));
  }

  method ReplacementSnapshotEvent(db: Session, n: NodeCode, e: Event) returns (r: Result<EventResult, Error>)
    requires n in db.work.nodes
    modifies db`work
    ensures Ended(ReplacementSnapshot(old(db.work), n, e), r, db.work)
  {
    hide CheckReplacement, Replace;
    if |e.items| != 2 {
      return Err(InvalidReplacementShape);
    }
    var first, second := e.items[0], e.items[1];
    if !(Tracked(db.work, first.serial) && second.serial !in db.work.serials)
       && !(Tracked(db.work, second.serial) && first.serial !in db.work.serials) {
      return Err(InvalidReplacementShape);
    }
    var prior, incoming := second, first;
    if Tracked(db.work, first.serial) {
      prior, incoming := first, second;
    }
    var check := ValidateReplacement(db.work, n, e, prior, incoming);
    if check.Err? {
      return Err(check.error);
    }
    CheckedIntent(db.work, n, e, prior, incoming);
    var target := if db.work.stock[prior.serial].status.Generated? then Generated else InStock;
    WriteReplacement(db, n, e, prior, incoming.serial);
    return Ok(ReplacementResult(prior.serial, incoming.serial, target));
  }

  method ValidateReplacement(db: Db, n: NodeCode, e: Event, prior: Item, incoming: Item) returns (r: Result<(), Error>)
    requires Tracked(db, prior.serial)
    ensures r == CheckReplacement(db, n, e, prior, incoming)
  {
    hide ValidateIdentity, MatchesIntent, Replaceable;
    var serial, stock := db.serials[prior.serial], db.stock[prior.serial];
    if stock.owner != n {
      return Err(StockOwnershipConflict);
    }
    if !serial.active || !Replaceable(stock.status) {
      return Err(InvalidReplacementTransition);
    }
    var target := if stock.status.Generated? then Generated else InStock;
    if prior.status != Some(Invalid) || incoming.status != Some(target) {
      return Err(InvalidReplacementTransition);
    }
    if stock.origin !in db.nodes {
      return Err(StockDataConflict);
    }
    var valid := ValidateProductIdentity(db, serial.product, stock.origin, prior);
    if valid.Err? {
      return valid;
    }
    valid := ValidateProductIdentity(db, serial.product, stock.origin, incoming);
    if valid.Err? {
      return valid;
    }
    if !MatchesIntent(db, n, e, prior.serial, incoming.serial) {
      return Err(QrReplacementNotReserved);
    }
    return Ok(());
  }

  /** The old rows become INVALID, the new rows are created, the intent is completed. */
  method WriteReplacement(db: Session, n: NodeCode, e: Event, prior: Item, incoming: SerialNumber)
    requires n in db.work.nodes && Tracked(db.work, prior.serial) && prior.serial in db.work.intents
    requires incoming != prior.serial
    modifies db`work
    ensures db.work == Replace(old(db.work), n, e, prior, incoming)
  {
    hide UpdatedDetails;
    var serial, stock := db.work.serials[prior.serial], db.work.stock[prior.serial];
    var target := if stock.status.Generated? then Generated else InStock;
    var details := UpdatedDetails(serial.details, db.work.nodes[n], prior);
    var replacement := Serial(db.work.nextId, serial.product, target, true, None, details);
    var serials, stocks := db.work.serials[incoming := replacement], db.work.stock;
    serial := serial.(status := Invalid, active := false, replacedBy := Some(incoming), details := details);
    serials := serials[prior.serial := serial];
    stocks := stocks[incoming := Stock(n, stock.origin, target, Some(e.id))];
    stock := stock.(status := Invalid, lastEvent := Some(e.id));
    stocks := stocks[prior.serial := stock];
    var intent := db.work.intents[prior.serial].(completed := true);
    db.work := db.work.(serials := serials, nextId := db.work.nextId + 1, stock := stocks,
                        intents := db.work.intents[prior.serial := intent]);
  }

  lemma CheckedIntent(db: Db, n: NodeCode, e: Event, prior: Item, incoming: Item)
    requires Tracked(db, prior.serial) && CheckReplacement(db, n, e, prior, incoming).Ok?
    ensures prior.serial in db.intents
  {
    hide ValidateIdentity;
  }

  // ---------------------------------------------------------------- transfers

  method ValidateDispatch(db: Db, n: NodeCode, items: seq<Item>) returns (r: Result<(), Error>)
    ensures r == CheckDispatchItems(db, n, items)
  {
    hide CheckDispatchItem;
    for i := 0 to |items|
      invariant CheckDispatchItems(db, n, items) == CheckDispatchItems(db, n, items[i..])
    {
      assert items[i..][1..] == items[i + 1..];
      var check := CheckDispatchItem(db, n, items[i].serial);
      if check.Err? {
        return check;
      }
    }
    return Ok(());
  }

  method DispatchTransfer(db: Session, n: NodeCode, e: Event) returns (r: Result<EventResult, Error>)
    requires n in db.work.nodes
    modifies db`work
    ensures Ended(Dispatch(old(db.work), n, e), r, db.work)
  {
    hide CheckDispatchItems;
    var t := TransferId(e);
    if e.destination !in db.work.nodes || !db.work.nodes[e.destination].active {
      return Err(DestinationNotFound);
    }
    if e.destination == n {
      return Err(InvalidTransfer);
    }
    if exists u | u in db.work.transfers :: db.work.transfers[u].source == n && db.work.transfers[u].reference == e.reference {
      return Err(TransferReferenceConflict);
    }
    if t in db.work.transfers {
      return Err(TransferIdConflict);
    }
    var valid := ValidateDispatch(db.work, n, e.items);
    if valid.Err? {
      return Err(valid.error);
    }
    assert CheckDispatch(db.work, n, e, t).Ok?;
    hide CheckDispatch;
    forall k | 0 <= k < |e.items| ensures Tracked(db.work, e.items[k].serial) {
      CheckedTracked(db.work, n, e.items[k].serial);
    }
    db.work := db.work.(transfers := db.work.transfers[t := Transfer(n, e.destination, e.reference, Dispatched, e.id)]);
    LoadManifest(db, t, e);
    var command := |db.work.commands|;
    db.work := db.work.(commands := db.work.commands + [Command(e.destination, TransferAvailable(t, e.items), false)]);
    return Ok(DispatchResult(t, e.destination, command, |e.items|));
  }

  lemma CheckedTracked(db: Db, n: NodeCode, s: SerialNumber)
    requires CheckDispatchItem(db, n, s).Ok?
    ensures Tracked(db, s)
  {
  }

  /** The second loop of a dispatch: the rows go into transit and onto the manifest. */
  method LoadManifest(db: Session, t: Uuid, e: Event)
    requires forall k :: 0 <= k < |e.items| ==> Tracked(db.work, e.items[k].serial)
    modifies db`work
    ensures db.work == DispatchItems(old(db.work), t, e.id, e.items)
  {
    hide DispatchItem;
    ghost var start := db.work;
    for i := 0 to |e.items|
      invariant forall k :: 0 <= k < |e.items| ==> Tracked(db.work, e.items[k].serial)
      invariant forall k :: 0 <= k < |e.items[i..]| ==> Tracked(db.work, e.items[i..][k].serial)
      invariant DispatchItems(start, t, e.id, e.items) == DispatchItems(db.work, t, e.id, e.items[i..])
    {
      assert e.items[i..][1..] == e.items[i + 1..] && e.items[i..][0] == e.items[i];
      LoadItem(db, t, e.id, e.items[i].serial);
    }
  }

  method LoadItem(db: Session, t: Uuid, e: Uuid, s: SerialNumber)
    requires Tracked(db.work, s)
    modifies db`work
    ensures db.work == DispatchItem(old(db.work), t, e, s)
  {
    var serial, stock := db.work.serials[s], db.work.stock[s];
    serial := serial.(status := InTransit);
    stock := stock.(status := InTransit, lastEvent := Some(e));
    db.work := db.work.(serials := db.work.serials[s := serial], stock := db.work.stock[s := stock]);
    db.work := db.work.(transferItems := db.work.transferItems[(t, s) := TransferItem(None)]);
  }

  method ReceiveItemStep(db: Session, n: NodeCode, t: Uuid, e: Event, item: Item) returns (r: Result<(), Error>)
    requires n in db.work.nodes && t in db.work.transfers
    modifies db`work
    ensures var want := ReceiveItem(old(db.work), n, t, e, item);
            if want.Ok? then r == Ok(()) && db.work == want.value else r == Err(want.error)
  {
    hide UpdatedDetails;
    var s := item.serial;
    if (t, s) !in db.work.transferItems {
      return Err(TransferItemConflict);
    }
    if db.work.transferItems[(t, s)].receipt.Some? {
      return Err(TransferItemAlreadyReceived);
    }
    if !Tracked(db.work, s) || db.work.stock[s].owner != db.work.transfers[t].source || !db.work.stock[s].status.InTransit? {
      return Err(TransferStockConflict);
    }
    ghost var before := db.work;
    var serial, stock := db.work.serials[s], db.work.stock[s];
    var status := if item.status.Some? && Available(item.status.value) then item.status.value else InStock;
    stock := stock.(owner := n, status := status, lastEvent := Some(e.id));
    serial := serial.(status := status);
    serial := serial.(details := UpdatedDetails(serial.details, db.work.nodes[n], item));
    db.work := db.work.(serials := db.work.serials[s := serial], stock := db.work.stock[s := stock]);
    db.work := db.work.(transferItems := db.work.transferItems[(t, s) := TransferItem(Some(e.id))]);
    assert db.work == LandItem(before, n, t, e.id, item);
    return Ok(());
  }

  method ReceiveTransferEvent(db: Session, n: NodeCode, e: Event) returns (r: Result<EventResult, Error>)
    requires n in db.work.nodes && e.transferId.Some?
    modifies db`work
    ensures Ended(ReceiveTransfer(old(db.work), n, e), r, db.work)
  {
    hide ReceiveItem, AllReceived;
    var t := e.transferId.value;
    if t !in db.work.transfers {
      return Err(TransferNotFound);
    }
    if db.work.transfers[t].destination != n {
      return Err(TransferForbidden);
    }
    if db.work.transfers[t].status.FullyReceived? {
      return Err(TransferAlreadyReceived);
    }
    var received: seq<SerialNumber> := [];
    ghost var start := db.work;
    for i := 0 to |e.items|
      invariant n in db.work.nodes && t in db.work.transfers
      invariant received == Serials(e.items)[..i]
      invariant ReceiveItems(start, n, t, e, e.items) == ReceiveItems(db.work, n, t, e, e.items[i..])
    {
      assert e.items[i..][1..] == e.items[i + 1..];
      var step := ReceiveItemStep(db, n, t, e, e.items[i]);
      if step.Err? {
        return Err(step.error);
      }
      received := received + [e.items[i].serial];
    }
    assert Serials(e.items)[..|e.items|] == Serials(e.items);
    var all := AllReceived(db.work, t);
    var status := if all then FullyReceived else PartiallyReceived;
    var command := |db.work.commands|;
    ghost var landed := db.work;
    db.work := db.work.(transfers := db.work.transfers[t := db.work.transfers[t].(status := status)]);
    db.work := db.work.(commands :=
      db.work.commands + [Command(db.work.transfers[t].source, TransferReceipt(t, status, all, received), false)]);
    assert db.work == CloseReceipt(landed, t, e.items);
    return Ok(ReceiveResult(t, status, |e.items|, command));
  }

  // ---------------------------------------------------------------- one event, one request

  method ApplyOneEvent(db: Session, n: NodeCode, e: Event) returns (r: Result<EventResult, Error>)
    requires n in db.work.nodes && WellShaped(e)
    modifies db`work
    ensures Ended(ApplyEvent(old(db.work), n, e), r, db.work)
  {
    hide Snapshot, Inventory, Dispatch, ReceiveTransfer;
    match e.kind {
      case Heartbeat => return Ok(HeartbeatResult);
      case StockSnapshot => r := SnapshotEvent(db, n, e);
      case TransferDispatched => r := DispatchTransfer(db, n, e);
      case TransferReceived => r := ReceiveTransferEvent(db, n, e);
      case ReceiptSubmitted =>
        if (n, e.receiptId) in db.work.receipts {
          return Err(IntegrityConflict);
        }
        db.work := db.work.(receipts := db.work.receipts[(n, e.receiptId) := AwaitingReview]);
        return Ok(ReceiptResult(e.receiptId));
      case _ => r := InventoryEvent(db, n, e);
    }
  }

  method IngestOneEvent(db: Session, n: NodeCode, now: int, e: Event) returns (r: Result<Acknowledgement, Error>)
    requires n in db.work.nodes && WellShaped(e)
    modifies db`work
    ensures Ended(IngestEvent(old(db.work), n, now, e), r, db.work)
  {
    hide ApplyEvent;
    if e.id in db.work.journal {
      var existing := db.work.journal[e.id];
      if existing.node != n {
        return Err(EventForbidden);
      }
      if existing.event != e {
        return Err(EventIdConflict);
      }
      return Ok(existing.acknowledgement);
    }
    if SequenceUsed(db.work, n, e.sequence) {
      return Err(SequenceConflict);
    }
    var expected := db.work.nodes[n].lastSequence + 1;
    if e.sequence != expected {
      return if e.sequence > expected then Err(SequenceGap) else Err(SequenceStale);
    }
    var result := ApplyOneEvent(db, n, e);
    if result.Err? {
      return Err(result.error);
    }
    var acknowledgement := Acknowledgement(e.id, e.sequence, e.kind, now, result.value);
    db.work := db.work.(journal := db.work.journal[e.id := Inbound(n, e, acknowledgement)]);
    db.work := db.work.(nodes := db.work.nodes[n := db.work.nodes[n].(lastSequence := e.sequence)]);
    return Ok(acknowledgement);
  }

  /** The acknowledgements so far, before those of the rest. */
  ghost function Following(rest: Result<(Db, seq<Acknowledgement>), Error>, acks: seq<Acknowledgement>)
    : Result<(Db, seq<Acknowledgement>), Error>
  {
    if rest.Ok? then Ok((rest.value.0, acks + rest.value.1)) else rest
  }

  lemma FollowingStep(db: Db, n: NodeCode, now: int, events: seq<Event>, acks: seq<Acknowledgement>)
    requires n in db.nodes && events != [] && forall k :: 0 <= k < |events| ==> WellShaped(events[k])
    ensures var step := IngestEvent(db, n, now, events[0]);
            Following(IngestEvents(db, n, now, events), acks)
            == if step.Ok? then Following(IngestEvents(step.value.0, n, now, events[1..]), acks + [step.value.1])
               else Err(step.error)
  {
    hide IngestEvent;
    var step := IngestEvent(db, n, now, events[0]);
    if step.Ok? {
      var rest := IngestEvents(step.value.0, n, now, events[1..]);
      if rest.Ok? {
        assert acks + ([step.value.1] + rest.value.1) == (acks + [step.value.1]) + rest.value.1;
      }
    }
  }

  method IngestRequest(db: Session, n: NodeCode, now: int, events: seq<Event>) returns (r: Result<seq<Acknowledgement>, Error>)
    requires n in db.work.nodes && forall k :: 0 <= k < |events| ==> WellShaped(events[k])
    modifies db`work
    ensures Ended(IngestEvents(old(db.work), n, now, events), r, db.work)
  {
    hide IngestEvent;
    var acknowledgements: seq<Acknowledgement> := [];
    ghost var start := db.work;
    assert Following(IngestEvents(start, n, now, events), []) == IngestEvents(start, n, now, events) by { NothingBefore(start, n, now, events); }
    assert events[0..] == events;
    for i := 0 to |events|
      invariant n in db.work.nodes
      invariant Following(IngestEvents(start, n, now, events), []) == Following(IngestEvents(db.work, n, now, events[i..]), acknowledgements)
    {
      assert events[i..][1..] == events[i + 1..] && events[i..][0] == events[i];
      FollowingStep(db.work, n, now, events[i..], acknowledgements);
      var step := IngestOneEvent(db, n, now, events[i]);
      if step.Err? {
        return Err(step.error);
      }
      acknowledgements := acknowledgements + [step.value];
    }
    assert events[|events|..] == [] && acknowledgements + [] == acknowledgements;
    return Ok(acknowledgements);
  }

  lemma NothingBefore(db: Db, n: NodeCode, now: int, events: seq<Event>)
    requires n in db.nodes && forall k :: 0 <= k < |events| ==> WellShaped(events[k])
    ensures Following(IngestEvents(db, n, now, events), []) == IngestEvents(db, n, now, events)
  {
    hide IngestEvents;
    var r := IngestEvents(db, n, now, events);
    if r.Ok? {
      assert [] + r.value.1 == r.value.1;
    }
  }

  /** One node request, applied and committed as a whole, or undone as a whole. */
  method PostEventsRequest(db: Session, n: NodeCode, now: int, limit: nat, events: seq<Event>) returns (response: Response)
    requires db.work == db.committed && n in db.work.nodes && forall k :: 0 <= k < |events| ==> WellShaped(events[k])
    modifies db
    ensures (db.committed, response) == PostEvents(old(db.committed), n, now, limit, events)
    ensures db.work == db.committed
    ensures response.Refused? ==> db.committed == old(db.committed)
  {
    hide IngestEvents, ItemCount;
    var count := CountItems(events);
    if count > limit {
      db.Rollback();
      return Refused(TooManyItems);
    }
    if !db.work.nodes[n].active {
      db.Rollback();
      return Refused(NodeInactive);
    }
    var result := IngestRequest(db, n, now, events);
    if result.Err? {
      db.Rollback();
      return Refused(result.error);
    }
    var last := db.work.nodes[n].lastSequence;
    db.Commit();
    return Accepted(result.value, last);
  }

  method CountItems(events: seq<Event>) returns (count: nat)
    ensures count == ItemCount(events)
  {
    count := 0;
    for i := 0 to |events|
      invariant ItemCount(events) == count + ItemCount(events[i..])
    {
      assert events[i..][1..] == events[i + 1..];
      count := count + |events[i].items|;
    }
  }
}
