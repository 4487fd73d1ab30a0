/** Each row update of the ingest code keeps the stock invariants. */
module StockSteps {
  import opened Records
  import opened NetworkDb
  import opened NetworkIngest
  import opened StockInvariants

  // ---------------------------------------------------------------- booking an inventory item

  lemma ColumnBook(db: Db, next: Db, k: (Uuid, SerialNumber), kinds: set<EventType>, n: NodeCode, p: ProductCode)
    requires Keys(db) && SameProducts(db, next) && k.0 in db.batches && k.1 in db.serials
    requires k !in db.batchItems && next.batchItems.Keys == db.batchItems.Keys + {k}
    requires next.batches == db.batches
    ensures |Column(next, kinds, n, p)|
         == |Column(db, kinds, n, p)| + Bit(db.batches[k.0].node == n && db.batches[k.0].kind in kinds && IsProduct(db, k.1, p))
  {
    forall x | x != k ensures x in Column(next, kinds, n, p) <==> x in Column(db, kinds, n, p) {
    }
    OneChanged(Column(db, kinds, n, p), Column(next, kinds, n, p), k);
  }

  /** Exactly the events of the report's columns change how much stock is on hand, each by its own amount. */
  lemma TransitionBalance(kind: EventType, reason: Reason, from: Status)
    requires Transition(kind, reason, from).Ok?
    ensures var to := Transition(kind, reason, from).value;
            Bit(OnHand(to)) + Bit(kind in {Sale}) + Bit(kind in {SupplierReturn}) + Bit(kind in {Issue})
            == Bit(OnHand(from)) + Bit(kind in {Purchase, Receive}) + Bit(kind in {SalesReturn})
    ensures var to := Transition(kind, reason, from).value;
            (to.Invalid? <==> from.Invalid?) && (to.InTransit? <==> from.InTransit?)
  {
  }

  /** The batch exists for this event and franchise, and the item is not booked in it yet. */
  ghost predicate Bookable(db: Db, e: Event, s: SerialNumber) {
    && e.id in db.batches
    && db.batches[e.id].kind == e.kind
    && Tracked(db, s)
    && db.batches[e.id].node == db.stock[s].owner
    && (e.id, s) !in db.batchItems
  }

  lemma BookMoves(db: Db, n: NodeCode, e: Uuid, item: Item, target: Status)
    requires n in db.nodes && Tracked(db, item.serial)
    ensures RowMove(db, BookItem(db, n, e, item, target), item.serial, target, db.stock[item.serial].owner)
  {
    var s := item.serial;
    var next := BookItem(db, n, e, item, target);
    assert next.serials.Keys == db.serials.Keys && next.stock.Keys == db.stock.Keys;
  }

  /** What booking one item changes in the tables that the report reads. */
  ghost predicate BookEffect(db: Db, next: Db, k: (Uuid, SerialNumber), target: Status) {
    && Tracked(db, k.1)
    && RowMove(db, next, k.1, target, db.stock[k.1].owner)
    && k !in db.batchItems && next.batchItems.Keys == db.batchItems.Keys + {k}
    && next.batches == db.batches
    && next.transfers == db.transfers && next.transferItems == db.transferItems
    && next.enrolled == db.enrolled
  }

  lemma BookHasEffect(db: Db, n: NodeCode, e: Uuid, item: Item, target: Status)
    requires n in db.nodes && Tracked(db, item.serial) && (e, item.serial) !in db.batchItems
    ensures BookEffect(db, BookItem(db, n, e, item, target), (e, item.serial), target)
  {
    BookMoves(db, n, e, item, target);
  }

  lemma BookKeepsKeys(db: Db, n: NodeCode, e: Uuid, item: Item, target: Status)
    requires Keys(db) && n in db.nodes && Tracked(db, item.serial) && e in db.batches
    ensures Keys(BookItem(db, n, e, item, target))
  {
    var next := BookItem(db, n, e, item, target);
    assert next.serials.Keys == db.serials.Keys && next.stock.Keys == db.stock.Keys;
    assert next.batchItems.Keys == db.batchItems.Keys + {(e, item.serial)};
  }

  lemma BookBalance(db: Db, next: Db, e: Event, k: (Uuid, SerialNumber), target: Status, n: NodeCode, p: ProductCode)
    requires Keys(db) && BalancedFor(db, n, p) && BookEffect(db, next, k, target)
    requires k.0 in db.batches && db.batches[k.0].kind == e.kind && db.batches[k.0].node == db.stock[k.1].owner
    requires Transition(e.kind, e.reason, db.stock[k.1].status) == Ok(target)
    ensures BalancedFor(next, n, p)
  {
    hide Column, OnHandRows, TransferredIn, TransferredOut, EnrolledRows, Transition, OnHand, Keys;
    hide RowMove, SameProducts, SameOrigins;
    MoveFrames(db, next, k.1, target, db.stock[k.1].owner);
    OnHandMove(db, next, k.1, target, db.stock[k.1].owner, n, p);
    ColumnBook(db, next, k, {Sale}, n, p);
    ColumnBook(db, next, k, {SupplierReturn}, n, p);
    ColumnBook(db, next, k, {Issue}, n, p);
    ColumnBook(db, next, k, {Purchase, Receive}, n, p);
    ColumnBook(db, next, k, {SalesReturn}, n, p);
    TransfersFrame(db, next, n, p);
    EnrolledFrame(db, next, n, p);
    TransitionBalance(e.kind, e.reason, db.stock[k.1].status);
  }

  lemma BookKeepsBalance(db: Db, n: NodeCode, e: Event, item: Item, target: Status)
    requires Keys(db) && Balanced(db) && n in db.nodes && Bookable(db, e, item.serial)
    requires Transition(e.kind, e.reason, db.stock[item.serial].status) == Ok(target)
    ensures Balanced(BookItem(db, n, e.id, item, target))
  {
    hide BalancedFor, BookItem, Transition, BookEffect, Keys;
    var next := BookItem(db, n, e.id, item, target);
    BookHasEffect(db, n, e.id, item, target);
    forall m, p ensures BalancedFor(next, m, p) {
      BookBalance(db, next, e, (e.id, item.serial), target, m, p);
    }
  }

  lemma BookKeeps(db: Db, n: NodeCode, e: Event, item: Item, target: Status)
    requires StockInv(db) && n in db.nodes && Bookable(db, e, item.serial)
    requires Transition(e.kind, e.reason, db.stock[item.serial].status) == Ok(target)
    ensures StockInv(BookItem(db, n, e.id, item, target))
  {
    hide Keys, Rows, Chains, Transit, Balanced, Transition, BookItem, RowMove, BookEffect;
    var s, next := item.serial, BookItem(db, n, e.id, item, target);
    BookHasEffect(db, n, e.id, item, target);
    BookMoves(db, n, e.id, item, target);
    TransitionBalance(e.kind, e.reason, db.stock[s].status);
    BookKeepsKeys(db, n, e.id, item, target);
    MoveKeepsRows(db, next, s, target, db.stock[s].owner);
    MoveKeepsChains(db, next, s, target, db.stock[s].owner);
    MoveKeepsTransit(db, next, s, target);
    BookKeepsBalance(db, n, e, item, target);
  }

  // ---------------------------------------------------------------- refreshing a known serial

  /** The tables that the report joins are untouched. */
  ghost predicate SameReport(db: Db, next: Db) {
    && next.batches == db.batches && next.batchItems == db.batchItems
    && next.transfers == db.transfers && next.transferItems == db.transferItems
    && next.enrolled == db.enrolled
  }

  lemma QuietBalance(db: Db, next: Db, s: SerialNumber, status: Status, n: NodeCode, p: ProductCode)
    requires Keys(db) && BalancedFor(db, n, p) && SameReport(db, next)
    requires Tracked(db, s) && RowMove(db, next, s, status, db.stock[s].owner)
    requires OnHand(status) <==> OnHand(db.stock[s].status)
    ensures BalancedFor(next, n, p)
  {
    hide Column, OnHandRows, TransferredIn, TransferredOut, EnrolledRows, OnHand, Keys;
    hide RowMove, SameProducts, SameOrigins;
    MoveFrames(db, next, s, status, db.stock[s].owner);
    OnHandMove(db, next, s, status, db.stock[s].owner, n, p);
    ColumnFrame(db, next, {Sale}, n, p);
    ColumnFrame(db, next, {SupplierReturn}, n, p);
    ColumnFrame(db, next, {Issue}, n, p);
    ColumnFrame(db, next, {Purchase, Receive}, n, p);
    ColumnFrame(db, next, {SalesReturn}, n, p);
    TransfersFrame(db, next, n, p);
    EnrolledFrame(db, next, n, p);
  }

  lemma RefreshMoves(db: Db, n: NodeCode, e: Uuid, item: Item)
    requires n in db.nodes && Tracked(db, item.serial)
    ensures var next, s := Refresh(db, n, e, item), item.serial;
            RowMove(db, next, s, db.stock[s].status, db.stock[s].owner) && SameReport(db, next)
            && next.nodes == db.nodes && next.products == db.products
  {
    var s, next := item.serial, Refresh(db, n, e, item);
    assert next.serials.Keys == db.serials.Keys && next.stock.Keys == db.stock.Keys;
  }

  lemma RefreshKeepsKeys(db: Db, n: NodeCode, e: Uuid, item: Item)
    requires Keys(db) && n in db.nodes && Tracked(db, item.serial)
    ensures Keys(Refresh(db, n, e, item))
  {
    hide Refresh;
    RefreshMoves(db, n, e, item);
  }

  lemma RefreshKeeps(db: Db, n: NodeCode, e: Uuid, item: Item)
    requires StockInv(db) && n in db.nodes && Tracked(db, item.serial)
    ensures StockInv(Refresh(db, n, e, item))
  {
    hide Keys, Rows, Chains, Transit, BalancedFor, Refresh, RowMove, SameReport;
    var s, next := item.serial, Refresh(db, n, e, item);
    RefreshMoves(db, n, e, item);
    RefreshKeepsKeys(db, n, e, item);
    MoveKeepsRows(db, next, s, db.stock[s].status, db.stock[s].owner);
    MoveKeepsChains(db, next, s, db.stock[s].status, db.stock[s].owner);
    RefreshKeepsTransit(db, n, e, item);
    forall m, p ensures BalancedFor(next, m, p) {
      QuietBalance(db, next, s, db.stock[s].status, m, p);
    }
  }

  lemma RefreshKeepsTransit(db: Db, n: NodeCode, e: Uuid, item: Item)
    requires Transit(db) && n in db.nodes && Tracked(db, item.serial)
    ensures Transit(Refresh(db, n, e, item))
  {
    hide Transit, Refresh, RowMove;
    RefreshMoves(db, n, e, item);
    MoveKeepsTransit(db, Refresh(db, n, e, item), item.serial, db.stock[item.serial].status);
  }

  // ---------------------------------------------------------------- dispatching a unit

  ghost predicate Dispatchable(db: Db, t: Uuid, s: SerialNumber) {
    && Tracked(db, s)
    && t in db.transfers && db.transfers[t].source == db.stock[s].owner
    && (t, s) !in db.transferItems
    && Available(db.stock[s].status)
  }

  lemma DispatchMoves(db: Db, t: Uuid, e: Uuid, s: SerialNumber)
    requires Dispatchable(db, t, s)
    ensures var next := DispatchItem(db, t, e, s);
            && RowMove(db, next, s, InTransit, db.stock[s].owner)
            && next.transferItems == db.transferItems[(t, s) := TransferItem(None)]
            && next.transfers == db.transfers && next.batches == db.batches && next.batchItems == db.batchItems
            && next.enrolled == db.enrolled && next.nodes == db.nodes && next.products == db.products
  {
    var next := DispatchItem(db, t, e, s);
    assert next.serials.Keys == db.serials.Keys && next.stock.Keys == db.stock.Keys;
  }

  lemma DispatchKeepsKeys(db: Db, t: Uuid, e: Uuid, s: SerialNumber)
    requires Keys(db) && Dispatchable(db, t, s)
    ensures Keys(DispatchItem(db, t, e, s))
  {
    hide DispatchItem;
    DispatchMoves(db, t, e, s);
  }

  lemma DispatchKeepsTransit(db: Db, t: Uuid, e: Uuid, s: SerialNumber)
    requires Transit(db) && Dispatchable(db, t, s)
    ensures Transit(DispatchItem(db, t, e, s))
  {
    hide DispatchItem, Available;
    DispatchMoves(db, t, e, s);
    var next := DispatchItem(db, t, e, s);
    assert !db.stock[s].status.InTransit? by { Unavailable(db.stock[s].status); }
    assert forall k :: Open(next, k) <==> Open(db, k) || k == (t, s);
  }

  lemma Unavailable(status: Status)
    ensures Available(status) ==> OnHand(status) && !status.InTransit? && !status.Invalid?
  {
  }

  /** A new unreceived manifest unit, or one that is received: where it shows in the report. */
  ghost predicate UnitChanged(db: Db, next: Db, k: (Uuid, SerialNumber), unit: TransferItem) {
    && SameProducts(db, next) && k.0 in db.transfers && k.1 in db.serials
    && next.transferItems == db.transferItems[k := unit] && next.transfers == db.transfers
  }

  lemma UnitProduct(db: Db, next: Db, s: SerialNumber, p: ProductCode)
    requires SameProducts(db, next) && s in db.serials
    ensures IsProduct(next, s, p) <==> IsProduct(db, s, p)
  {
  }

  lemma InColumns(db: Db, k: (Uuid, SerialNumber), n: NodeCode, p: ProductCode)
    ensures k in TransferredOut(db, n, p)
            <==> k in db.transferItems && k.0 in db.transfers && db.transfers[k.0].source == n && IsProduct(db, k.1, p)
    ensures k in TransferredIn(db, n, p)
            <==> k in db.transferItems && db.transferItems[k].receipt.Some? && k.0 in db.transfers
                 && db.transfers[k.0].destination == n && IsProduct(db, k.1, p)
  {
    hide IsProduct;
  }

  lemma OutOther(db: Db, next: Db, k: (Uuid, SerialNumber), unit: TransferItem, n: NodeCode, p: ProductCode, x: (Uuid, SerialNumber))
    requires Keys(db) && UnitChanged(db, next, k, unit) && x != k
    ensures x in TransferredOut(next, n, p) <==> x in TransferredOut(db, n, p)
    ensures x in TransferredIn(next, n, p) <==> x in TransferredIn(db, n, p)
  {
    hide TransferredOut, TransferredIn, SameProducts, IsProduct;
    InColumns(db, x, n, p);
    InColumns(next, x, n, p);
    assert x in db.transferItems ==> x.1 in db.serials;
    hide Keys;
    if x in db.transferItems {
      UnitProduct(db, next, x.1, p);
    }
  }

  lemma OutOthers(db: Db, next: Db, k: (Uuid, SerialNumber), unit: TransferItem, n: NodeCode, p: ProductCode)
    requires Keys(db) && UnitChanged(db, next, k, unit)
    ensures TransferredOut(next, n, p) - {k} == TransferredOut(db, n, p) - {k}
    ensures TransferredIn(next, n, p) - {k} == TransferredIn(db, n, p) - {k}
    ensures k in TransferredOut(next, n, p) <==> db.transfers[k.0].source == n && IsProduct(db, k.1, p)
    ensures k in TransferredIn(next, n, p) <==> unit.receipt.Some? && db.transfers[k.0].destination == n && IsProduct(db, k.1, p)
  {
    hide TransferredOut, TransferredIn, SameProducts, IsProduct, Keys;
    UnitProduct(db, next, k.1, p);
    InColumns(next, k, n, p);
    forall x | x != k
      ensures x in TransferredOut(next, n, p) <==> x in TransferredOut(db, n, p)
      ensures x in TransferredIn(next, n, p) <==> x in TransferredIn(db, n, p)
    {
      OutOther(db, next, k, unit, n, p, x);
    }
  }

  lemma SentBook(db: Db, next: Db, k: (Uuid, SerialNumber), n: NodeCode, p: ProductCode)
    requires Keys(db) && SameProducts(db, next) && k.0 in db.transfers && k.1 in db.serials
    requires k !in db.transferItems && next.transferItems == db.transferItems[k := TransferItem(None)]
    requires next.transfers == db.transfers
    ensures |TransferredOut(next, n, p)| == |TransferredOut(db, n, p)| + Bit(db.transfers[k.0].source == n && IsProduct(db, k.1, p))
    ensures TransferredIn(next, n, p) == TransferredIn(db, n, p)
  {
    OutOthers(db, next, k, TransferItem(None), n, p);
    InColumns(db, k, n, p);
    hide Keys, SameProducts, TransferredIn, TransferredOut, IsProduct;
    OneChanged(TransferredOut(db, n, p), TransferredOut(next, n, p), k);
    SameBut(TransferredIn(db, n, p), TransferredIn(next, n, p), k);
  }

  lemma SameBut<T>(a: set<T>, b: set<T>, x: T)
    requires a - {x} == b - {x} && (x in a <==> x in b)
    ensures a == b
  {
    forall y ensures y in a <==> y in b {
      assert y in a - {x} <==> y in b - {x};
    }
  }

  lemma DispatchBalance(db: Db, t: Uuid, e: Uuid, s: SerialNumber, n: NodeCode, p: ProductCode)
    requires Keys(db) && BalancedFor(db, n, p) && Dispatchable(db, t, s)
    ensures BalancedFor(DispatchItem(db, t, e, s), n, p)
  {
    hide Column, OnHandRows, TransferredIn, TransferredOut, EnrolledRows, OnHand, Available, Keys, DispatchItem;
    hide RowMove, SameProducts, SameOrigins;
    var next := DispatchItem(db, t, e, s);
    DispatchMoves(db, t, e, s);
    MoveFrames(db, next, s, InTransit, db.stock[s].owner);
    OnHandMove(db, next, s, InTransit, db.stock[s].owner, n, p);
    Unavailable(db.stock[s].status);
    NotOnHand();
    ColumnFrame(db, next, {Sale}, n, p);
    ColumnFrame(db, next, {SupplierReturn}, n, p);
    ColumnFrame(db, next, {Issue}, n, p);
    ColumnFrame(db, next, {Purchase, Receive}, n, p);
    ColumnFrame(db, next, {SalesReturn}, n, p);
    SentBook(db, next, (t, s), n, p);
    EnrolledFrame(db, next, n, p);
  }

  lemma NotOnHand()
    ensures !OnHand(InTransit) && !OnHand(Invalid) && !OnHand(Generated)
  {
  }

  lemma DispatchKeeps(db: Db, t: Uuid, e: Uuid, s: SerialNumber)
    requires StockInv(db) && Dispatchable(db, t, s)
    ensures StockInv(DispatchItem(db, t, e, s))
  {
    hide Keys, Rows, Chains, Transit, BalancedFor, DispatchItem, RowMove, Available;
    var next := DispatchItem(db, t, e, s);
    DispatchMoves(db, t, e, s);
    Unavailable(db.stock[s].status);
    DispatchKeepsKeys(db, t, e, s);
    MoveKeepsRows(db, next, s, InTransit, db.stock[s].owner);
    MoveKeepsChains(db, next, s, InTransit, db.stock[s].owner);
    DispatchKeepsTransit(db, t, e, s);
    forall m, p ensures BalancedFor(next, m, p) {
      DispatchBalance(db, t, e, s, m, p);
    }
  }

  // ---------------------------------------------------------------- receiving a unit

  ghost predicate Landable(db: Db, n: NodeCode, t: Uuid, s: SerialNumber) {
    && Tracked(db, s)
    && t in db.transfers && db.transfers[t].destination == n && n in db.nodes
    && Open(db, (t, s))
    && db.stock[s].status.InTransit?
  }

  lemma ReceivedStatusOnHand(status: Option<Status>)
    ensures var r := ReceivedStatus(status); OnHand(r) && !r.InTransit? && !r.Invalid?
  {
  }

  lemma LandMoves(db: Db, n: NodeCode, t: Uuid, e: Uuid, item: Item)
    requires Landable(db, n, t, item.serial)
    ensures var next, s := LandItem(db, n, t, e, item), item.serial;
            && RowMove(db, next, s, ReceivedStatus(item.status), n)
            && next.transferItems == db.transferItems[(t, s) := TransferItem(Some(e))]
            && next.transfers == db.transfers && next.batches == db.batches && next.batchItems == db.batchItems
            && next.enrolled == db.enrolled && next.nodes == db.nodes && next.products == db.products
  {
    hide ReceivedStatus, UpdatedDetails;
    var next := LandItem(db, n, t, e, item);
    assert next.serials.Keys == db.serials.Keys && next.stock.Keys == db.stock.Keys;
  }

  lemma LandKeepsKeys(db: Db, n: NodeCode, t: Uuid, e: Uuid, item: Item)
    requires Keys(db) && Landable(db, n, t, item.serial)
    ensures Keys(LandItem(db, n, t, e, item))
  {
    hide LandItem, ReceivedStatus;
    LandMoves(db, n, t, e, item);
  }

  lemma LandKeepsTransit(db: Db, n: NodeCode, t: Uuid, e: Uuid, item: Item)
    requires Transit(db) && Landable(db, n, t, item.serial)
    ensures Transit(LandItem(db, n, t, e, item))
  {
    hide LandItem, ReceivedStatus;
    LandMoves(db, n, t, e, item);
    ReceivedStatusOnHand(item.status);
    var next := LandItem(db, n, t, e, item);
    assert forall k :: Open(next, k) <==> Open(db, k) && k != (t, item.serial);
  }

  lemma ReceivedBook(db: Db, next: Db, k: (Uuid, SerialNumber), e: Uuid, n: NodeCode, p: ProductCode)
    requires Keys(db) && SameProducts(db, next) && Open(db, k)
    requires next.transferItems == db.transferItems[k := TransferItem(Some(e))]
    requires next.transfers == db.transfers
    ensures |TransferredIn(next, n, p)| == |TransferredIn(db, n, p)| + Bit(db.transfers[k.0].destination == n && IsProduct(db, k.1, p))
    ensures TransferredOut(next, n, p) == TransferredOut(db, n, p)
  {
    assert k.0 in db.transfers && k.1 in db.serials;
    OutOthers(db, next, k, TransferItem(Some(e)), n, p);
    InColumns(db, k, n, p);
    hide Keys, SameProducts, TransferredIn, TransferredOut, IsProduct;
    OneChanged(TransferredIn(db, n, p), TransferredIn(next, n, p), k);
    SameBut(TransferredOut(db, n, p), TransferredOut(next, n, p), k);
  }

  lemma LandBalance(db: Db, n: NodeCode, t: Uuid, e: Uuid, item: Item, m: NodeCode, p: ProductCode)
    requires Keys(db) && BalancedFor(db, m, p) && Landable(db, n, t, item.serial)
    ensures BalancedFor(LandItem(db, n, t, e, item), m, p)
  {
    hide Column, OnHandRows, TransferredIn, TransferredOut, EnrolledRows, OnHand, ReceivedStatus, Keys, LandItem;
    hide RowMove, SameProducts, SameOrigins;
    var s, next := item.serial, LandItem(db, n, t, e, item);
    LandMoves(db, n, t, e, item);
    MoveFrames(db, next, s, ReceivedStatus(item.status), n);
    OnHandMove(db, next, s, ReceivedStatus(item.status), n, m, p);
    ReceivedStatusOnHand(item.status);
    NotOnHand();
    ColumnFrame(db, next, {Sale}, m, p);
    ColumnFrame(db, next, {SupplierReturn}, m, p);
    ColumnFrame(db, next, {Issue}, m, p);
    ColumnFrame(db, next, {Purchase, Receive}, m, p);
    ColumnFrame(db, next, {SalesReturn}, m, p);
    ReceivedBook(db, next, (t, s), e, m, p);
    EnrolledFrame(db, next, m, p);
  }

  lemma LandKeeps(db: Db, n: NodeCode, t: Uuid, e: Uuid, item: Item)
    requires StockInv(db) && Landable(db, n, t, item.serial)
    ensures StockInv(LandItem(db, n, t, e, item))
  {
    hide Keys, Rows, Chains, Transit, BalancedFor, LandItem, RowMove, ReceivedStatus;
    var s, next := item.serial, LandItem(db, n, t, e, item);
    LandMoves(db, n, t, e, item);
    ReceivedStatusOnHand(item.status);
    LandKeepsKeys(db, n, t, e, item);
    MoveKeepsRows(db, next, s, ReceivedStatus(item.status), n);
    MoveKeepsChains(db, next, s, ReceivedStatus(item.status), n);
    LandKeepsTransit(db, n, t, e, item);
    forall m, p ensures BalancedFor(next, m, p) {
      LandBalance(db, n, t, e, item, m, p);
    }
  }

  // ---------------------------------------------------------------- a serial that was not there before

  /** `next` has one more serial, active and unreplaced; every other serial and stock row is as it was. */
  ghost predicate RowAdded(db: Db, next: Db, s: SerialNumber, n: NodeCode, status: Status, code: ProductCode) {
    && s !in db.serials && s !in db.stock
    && next.serials.Keys == db.serials.Keys + {s} && next.stock.Keys == db.stock.Keys + {s}
    && (forall x | x in db.serials :: next.serials[x] == db.serials[x])
    && (forall x | x in db.stock :: next.stock[x] == db.stock[x])
    && next.serials[s].id == db.nextId && next.nextId == db.nextId + 1
    && next.serials[s].status == status && next.serials[s].active && next.serials[s].replacedBy.None?
    && next.serials[s].product == code
    && next.stock[s].status == status && next.stock[s].owner == n
  }

  lemma AddKeepsRows(db: Db, next: Db, s: SerialNumber, n: NodeCode, status: Status, code: ProductCode)
    requires Rows(db) && RowAdded(db, next, s, n, status, code) && !status.Invalid?
    ensures Rows(next)
  {
  }

  lemma AddKeepsChains(db: Db, next: Db, s: SerialNumber, n: NodeCode, status: Status, code: ProductCode)
    requires Chains(db) && RowAdded(db, next, s, n, status, code)
    ensures Chains(next)
  {
    assert forall x, r :: Replaces(next, x, r) <==> Replaces(db, x, r);
  }

  lemma AddKeepsTransit(db: Db, next: Db, s: SerialNumber, n: NodeCode, status: Status, code: ProductCode)
    requires Transit(db) && RowAdded(db, next, s, n, status, code) && !status.InTransit?
    requires next.transferItems == db.transferItems && next.transfers == db.transfers
    ensures Transit(next)
  {
    assert forall k :: Open(next, k) <==> Open(db, k);
  }

  lemma AddFrames(db: Db, next: Db, s: SerialNumber, n: NodeCode, status: Status, code: ProductCode)
    requires RowAdded(db, next, s, n, status, code)
    ensures SameProducts(db, next) && SameOrigins(db, next)
  {
  }

  lemma OnHandAdd(db: Db, next: Db, s: SerialNumber, owner: NodeCode, status: Status, code: ProductCode, n: NodeCode, p: ProductCode)
    requires Keys(db) && RowAdded(db, next, s, owner, status, code)
    ensures |OnHandRows(next, n, p)| == |OnHandRows(db, n, p)| + Bit(owner == n && OnHand(status) && code == p)
  {
    forall x | x != s ensures x in OnHandRows(next, n, p) <==> x in OnHandRows(db, n, p) {
    }
    OneChanged(OnHandRows(db, n, p), OnHandRows(next, n, p), s);
  }

  lemma EnrolledAdd(db: Db, next: Db, s: SerialNumber, owner: NodeCode, status: Status, code: ProductCode, n: NodeCode, p: ProductCode)
    requires Keys(db) && RowAdded(db, next, s, owner, status, code) && next.stock[s].origin == owner
    requires next.enrolled == if status.InStock? then db.enrolled + {s} else db.enrolled
    ensures |EnrolledRows(next, n, p)| == |EnrolledRows(db, n, p)| + Bit(owner == n && status.InStock? && code == p)
  {
    forall x | x != s ensures x in EnrolledRows(next, n, p) <==> x in EnrolledRows(db, n, p) {
    }
    OneChanged(EnrolledRows(db, n, p), EnrolledRows(next, n, p), s);
  }

  /** Enrolment as IN_STOCK counts as enrolled; a GENERATED serial counts nowhere. */
  lemma AddBalance(db: Db, next: Db, s: SerialNumber, owner: NodeCode, status: Status, code: ProductCode, n: NodeCode, p: ProductCode)
    requires Keys(db) && BalancedFor(db, n, p) && RowAdded(db, next, s, owner, status, code)
    requires next.stock[s].origin == owner && (status.InStock? || status.Generated?)
    requires next.enrolled == if status.InStock? then db.enrolled + {s} else db.enrolled
    requires next.batches == db.batches && next.batchItems == db.batchItems
    requires next.transfers == db.transfers && next.transferItems == db.transferItems
    ensures BalancedFor(next, n, p)
  {
    hide Column, OnHandRows, TransferredIn, TransferredOut, EnrolledRows, Keys;
    OnHandAdd(db, next, s, owner, status, code, n, p);
    EnrolledAdd(db, next, s, owner, status, code, n, p);
    AddFrames(db, next, s, owner, status, code);
    hide RowAdded, SameProducts;
    ColumnFrame(db, next, {Sale}, n, p);
    ColumnFrame(db, next, {SupplierReturn}, n, p);
    ColumnFrame(db, next, {Issue}, n, p);
    ColumnFrame(db, next, {Purchase, Receive}, n, p);
    ColumnFrame(db, next, {SalesReturn}, n, p);
    TransfersFrame(db, next, n, p);
  }

  /** A new serial of its first owner, under a product on Master. */
  lemma AddKeeps(db: Db, next: Db, s: SerialNumber, owner: NodeCode, status: Status, code: ProductCode)
    requires StockInv(db) && RowAdded(db, next, s, owner, status, code)
    requires owner in db.nodes && code in db.products
    requires next.nodes == db.nodes && next.products == db.products
    requires next.stock[s].origin == owner && (status.InStock? || status.Generated?)
    requires next.enrolled == if status.InStock? then db.enrolled + {s} else db.enrolled
    requires next.batches == db.batches && next.batchItems == db.batchItems
    requires next.transfers == db.transfers && next.transferItems == db.transferItems
    ensures StockInv(next)
  {
    assert Keys(next) by { hide Rows, Chains, Transit, BalancedFor; }
    hide Keys, Rows, Chains, Transit, BalancedFor, RowAdded;
    AddKeepsRows(db, next, s, owner, status, code);
    AddKeepsChains(db, next, s, owner, status, code);
    AddKeepsTransit(db, next, s, owner, status, code);
    forall m, p ensures BalancedFor(next, m, p) {
      AddBalance(db, next, s, owner, status, code, m, p);
    }
  }

  lemma NewSerialAdds(db: Db, n: NodeCode, e: Uuid, item: Item, code: ProductCode, status: Status)
    requires n in db.nodes && item.serial !in db.serials && item.serial !in db.stock
    ensures RowAdded(db, NewSerial(db, n, e, item, code, status), item.serial, n, status, code)
  {
    var s, next := item.serial, NewSerial(db, n, e, item, code, status);
    assert next.serials.Keys == db.serials.Keys + {s} && next.stock.Keys == db.stock.Keys + {s};
  }

  // ---------------------------------------------------------------- changes outside the stock tables

  /** Products and nodes may only be added; batches may only be added; the other stock tables are the same. */
  ghost predicate OutsideStock(db: Db, next: Db) {
    && next.serials == db.serials && next.stock == db.stock && next.nextId == db.nextId
    && next.batchItems == db.batchItems && next.transferItems == db.transferItems && next.enrolled == db.enrolled
    && db.products.Keys <= next.products.Keys && db.nodes.Keys <= next.nodes.Keys
    && (forall b | b in db.batches :: b in next.batches && next.batches[b] == db.batches[b])
    && (forall t | t in db.transfers ::
          t in next.transfers && next.transfers[t].source == db.transfers[t].source
          && next.transfers[t].destination == db.transfers[t].destination)
    && (forall t | t in next.transfers ::
          next.transfers[t].source in next.nodes && next.transfers[t].destination in next.nodes
          && next.transfers[t].source != next.transfers[t].destination)
  }

  lemma OutsideKeepsKeys(db: Db, next: Db)
    requires Keys(db) && OutsideStock(db, next)
    ensures Keys(next)
  {
  }

  lemma OutsideKeepsRows(db: Db, next: Db)
    requires Rows(db) && Chains(db) && Transit(db) && OutsideStock(db, next)
    ensures Rows(next) && Chains(next) && Transit(next)
  {
    assert forall x, r :: Replaces(next, x, r) <==> Replaces(db, x, r);
    assert forall k :: Open(next, k) <==> Open(db, k);
  }

  lemma OnHandFrame(db: Db, next: Db, n: NodeCode, p: ProductCode)
    requires next.serials == db.serials && next.stock == db.stock
    ensures OnHandRows(next, n, p) == OnHandRows(db, n, p)
  {
  }

  lemma OutsideFrames(db: Db, next: Db)
    requires OutsideStock(db, next)
    ensures SameProducts(db, next) && SameOrigins(db, next)
  {
  }

  lemma OutsideBalance(db: Db, next: Db, n: NodeCode, p: ProductCode)
    requires Keys(db) && BalancedFor(db, n, p) && OutsideStock(db, next)
    ensures BalancedFor(next, n, p)
  {
    hide Column, OnHandRows, TransferredIn, TransferredOut, EnrolledRows, Keys, SameProducts, SameOrigins;
    OutsideFrames(db, next);
    OnHandFrame(db, next, n, p);
    ColumnFrame(db, next, {Sale}, n, p);
    ColumnFrame(db, next, {SupplierReturn}, n, p);
    ColumnFrame(db, next, {Issue}, n, p);
    ColumnFrame(db, next, {Purchase, Receive}, n, p);
    ColumnFrame(db, next, {SalesReturn}, n, p);
    TransfersFrame(db, next, n, p);
    EnrolledFrame(db, next, n, p);
  }

  lemma OutsideKeeps(db: Db, next: Db)
    requires StockInv(db) && OutsideStock(db, next)
    ensures StockInv(next)
  {
    hide Keys, Rows, Chains, Transit, BalancedFor, OutsideStock;
    OutsideKeepsKeys(db, next);
    OutsideKeepsRows(db, next);
    forall n, p ensures BalancedFor(next, n, p) {
      OutsideBalance(db, next, n, p);
    }
  }

  ghost predicate SameStockTables(db: Db, next: Db) {
    && next.serials == db.serials && next.stock == db.stock && next.nextId == db.nextId
    && next.enrolled == db.enrolled && next.nodes == db.nodes && SameReport(db, next)
  }

  lemma EnsureAddsProduct(db: Db, code: ProductCode, item: Item)
    ensures db.products.Keys <= EnsureProduct(db, code, item).products.Keys
  {
  }

  lemma EnsureTouchesProducts(db: Db, code: ProductCode, item: Item)
    ensures SameStockTables(db, EnsureProduct(db, code, item))
  {
  }

  lemma EnsureOutside(db: Db, code: ProductCode, item: Item)
    requires Keys(db)
    ensures OutsideStock(db, EnsureProduct(db, code, item))
  {
    hide EnsureProduct;
    EnsureAddsProduct(db, code, item);
    EnsureTouchesProducts(db, code, item);
  }

  lemma EnsureKeeps(db: Db, code: ProductCode, item: Item)
    requires StockInv(db)
    ensures StockInv(EnsureProduct(db, code, item))
  {
    hide Keys, Rows, Chains, Transit, Balanced, EnsureProduct, OutsideStock;
    EnsureOutside(db, code, item);
    OutsideKeeps(db, EnsureProduct(db, code, item));
  }

  lemma EnrolKeeps(db: Db, n: NodeCode, e: Event, item: Item, status: Status)
    requires StockInv(db) && n in db.nodes && item.serial !in db.serials
    requires status.InStock? || status.Generated?
    requires EnrolSerial(db, n, e, item, status).Ok?
    ensures StockInv(EnrolSerial(db, n, e, item, status).value)
  {
    var code := ProductCode(n, item.productCode);
    EnsureKeeps(db, code, item);
    EnrolAfterProduct(EnsureProduct(db, code, item), n, e.id, item, code, status);
    hide StockInv, NewSerial, ValidateIdentity;
  }

  lemma EnrolAfterProduct(db: Db, n: NodeCode, e: Uuid, item: Item, code: ProductCode, status: Status)
    requires StockInv(db) && n in db.nodes && item.serial !in db.serials && code in db.products
    requires status.InStock? || status.Generated?
    ensures StockInv(NewSerial(db, n, e, item, code, status))
  {
    hide RowAdded, Rows, Chains, Transit, BalancedFor;
    assert item.serial !in db.stock;
    NewSerialAdds(db, n, e, item, code, status);
    AddKeeps(db, NewSerial(db, n, e, item, code, status), item.serial, n, status, code);
  }

  // ---------------------------------------------------------------- replacing a QR

  ghost predicate Replacing(db: Db, s: SerialNumber, r: SerialNumber) {
    && Tracked(db, s) && r !in db.serials && r !in db.stock
    && db.serials[s].active && Replaceable(db.stock[s].status)
  }

  /** The old serial is retired in favour of a new one with its product, origin and owner. */
  ghost predicate Swapped(db: Db, next: Db, s: SerialNumber, r: SerialNumber) {
    && Tracked(db, s) && r !in db.serials && r !in db.stock
    && next.serials.Keys == db.serials.Keys + {r} && next.stock.Keys == db.stock.Keys + {r}
    && (forall x | x in db.serials && x != s :: next.serials[x] == db.serials[x])
    && (forall x | x in db.stock && x != s :: next.stock[x] == db.stock[x])
    && next.serials[s] == db.serials[s].(status := Invalid, active := false, replacedBy := Some(r), details := next.serials[s].details)
    && next.stock[s] == db.stock[s].(status := Invalid, lastEvent := next.stock[s].lastEvent)
    && next.serials[r] == Serial(db.nextId, db.serials[s].product, ReplacementTarget(db.stock[s].status), true, None, next.serials[r].details)
    && next.stock[r] == Stock(db.stock[s].owner, db.stock[s].origin, ReplacementTarget(db.stock[s].status), next.stock[r].lastEvent)
    && next.nextId == db.nextId + 1
  }

  lemma ReplaceSwaps(db: Db, n: NodeCode, e: Event, prior: Item, incoming: SerialNumber)
    requires n in db.nodes && Replacing(db, prior.serial, incoming) && prior.serial in db.intents
    requires db.stock[prior.serial].owner == n
    ensures var next := Replace(db, n, e, prior, incoming);
            && Swapped(db, next, prior.serial, incoming) && SameReport(db, next)
            && next.nodes == db.nodes && next.products == db.products
  {
    hide UpdatedDetails, Replaceable, ReplacementTarget;
    var next := Replace(db, n, e, prior, incoming);
    assert next.serials.Keys == db.serials.Keys + {incoming} && next.stock.Keys == db.stock.Keys + {incoming};
  }

  lemma TargetStatus(status: Status)
    requires Replaceable(status)
    ensures var target := ReplacementTarget(status);
            (OnHand(target) <==> OnHand(status)) && !target.Invalid? && !target.InTransit? && !status.InTransit? && !status.Invalid?
  {
  }

  lemma SwapKeepsKeys(db: Db, next: Db, s: SerialNumber, r: SerialNumber)
    requires Keys(db) && Swapped(db, next, s, r) && SameReport(db, next)
    requires next.nodes == db.nodes && next.products == db.products
    ensures Keys(next)
  {
    SwapFields(db, next, s, r);
    hide Swapped;
  }

  /** What a swap leaves alone, field by field, and what it copies to the new serial. */
  lemma SwapFields(db: Db, next: Db, s: SerialNumber, r: SerialNumber)
    requires Swapped(db, next, s, r)
    ensures s in db.serials && s in db.stock && r !in db.serials && r !in db.stock
    ensures next.serials.Keys == db.serials.Keys + {r} && next.stock.Keys == db.stock.Keys + {r}
    ensures next.nextId == db.nextId + 1 && next.serials[r].id == db.nextId
    ensures forall x | x in db.serials :: next.serials[x].id == db.serials[x].id && next.serials[x].product == db.serials[x].product
    ensures forall x | x in db.stock :: next.stock[x].owner == db.stock[x].owner && next.stock[x].origin == db.stock[x].origin
    ensures next.serials[r].product == db.serials[s].product
    ensures next.stock[r].owner == db.stock[s].owner && next.stock[r].origin == db.stock[s].origin
  {
    hide ReplacementTarget;
  }

  lemma SwapKeepsRows(db: Db, next: Db, s: SerialNumber, r: SerialNumber)
    requires Rows(db) && Swapped(db, next, s, r) && Replaceable(db.stock[s].status)
    ensures Rows(next)
  {
    TargetStatus(db.stock[s].status);
    hide ReplacementTarget, Replaceable, OnHand;
  }

  lemma SwapReplaces(db: Db, next: Db, s: SerialNumber, r: SerialNumber)
    requires Swapped(db, next, s, r) && db.serials[s].replacedBy.None?
    ensures forall x, y :: Replaces(next, x, y) <==> Replaces(db, x, y) || (x == s && y == r)
  {
    hide ReplacementTarget;
  }

  lemma SwapKeepsChains(db: Db, next: Db, s: SerialNumber, r: SerialNumber)
    requires Keys(db) && Chains(db) && Swapped(db, next, s, r) && db.serials[s].replacedBy.None?
    ensures Chains(next)
  {
    SwapReplaces(db, next, s, r);
    SwapFields(db, next, s, r);
    assert s in db.serials.Keys && r in next.serials.Keys && r in next.stock.Keys;
    hide Swapped, Keys;
    forall x, y | Replaces(next, x, y)
      ensures y in next.serials && next.serials[x].id < next.serials[y].id && next.serials[y].product == next.serials[x].product
              && x in next.stock && y in next.stock && next.stock[y].origin == next.stock[x].origin
    {
      assert (x == s && y == r) || Replaces(db, x, y);
    }
    hide Replaces;
  }

  lemma SwapKeepsTransit(db: Db, next: Db, s: SerialNumber, r: SerialNumber)
    requires Transit(db) && Swapped(db, next, s, r) && Replaceable(db.stock[s].status)
    requires next.transferItems == db.transferItems && next.transfers == db.transfers
    ensures Transit(next)
  {
    TargetStatus(db.stock[s].status);
    hide ReplacementTarget, Replaceable, OnHand;
    assert forall k :: Open(next, k) <==> Open(db, k);
  }

  lemma SwapFrames(db: Db, next: Db, s: SerialNumber, r: SerialNumber)
    requires Swapped(db, next, s, r)
    ensures SameProducts(db, next) && SameOrigins(db, next)
  {
    hide ReplacementTarget;
  }

  /** The replacement stands on hand exactly where the replaced serial stood. */
  lemma OnHandSwap(db: Db, next: Db, s: SerialNumber, r: SerialNumber, n: NodeCode, p: ProductCode)
    requires Keys(db) && Swapped(db, next, s, r) && Replaceable(db.stock[s].status)
    ensures |OnHandRows(next, n, p)| == |OnHandRows(db, n, p)|
  {
    TargetStatus(db.stock[s].status);
    NotOnHand();
    hide ReplacementTarget, Replaceable, OnHand, Keys;
    var rest := OnHandRows(db, n, p) - {s};
    forall x | x != s && x != r ensures x in OnHandRows(next, n, p) <==> x in OnHandRows(db, n, p) {
    }
    assert s !in OnHandRows(next, n, p) && r !in OnHandRows(db, n, p);
    assert r in OnHandRows(next, n, p) <==> s in OnHandRows(db, n, p);
    SwappedSize(OnHandRows(db, n, p), OnHandRows(next, n, p), s, r);
  }

  lemma SwappedSize<T>(a: set<T>, b: set<T>, x: T, y: T)
    requires a - {x} == b - {y} && y !in a && x !in b && (x in a <==> y in b)
    ensures |a| == |b|
  {
    OneChanged(a, a - {x}, x);
    OneChanged(b, b - {y}, y);
  }

  lemma SwapBalance(db: Db, next: Db, s: SerialNumber, r: SerialNumber, n: NodeCode, p: ProductCode)
    requires Keys(db) && BalancedFor(db, n, p) && Swapped(db, next, s, r) && SameReport(db, next)
    requires Replaceable(db.stock[s].status)
    ensures BalancedFor(next, n, p)
  {
    hide Column, OnHandRows, TransferredIn, TransferredOut, EnrolledRows, Keys, SameProducts, SameOrigins, Swapped, Replaceable;
    SwapFrames(db, next, s, r);
    OnHandSwap(db, next, s, r, n, p);
    ColumnFrame(db, next, {Sale}, n, p);
    ColumnFrame(db, next, {SupplierReturn}, n, p);
    ColumnFrame(db, next, {Issue}, n, p);
    ColumnFrame(db, next, {Purchase, Receive}, n, p);
    ColumnFrame(db, next, {SalesReturn}, n, p);
    TransfersFrame(db, next, n, p);
    EnrolledFrame(db, next, n, p);
  }

  lemma ReplaceKeeps(db: Db, n: NodeCode, e: Event, prior: Item, incoming: SerialNumber)
    requires StockInv(db) && n in db.nodes && Replacing(db, prior.serial, incoming) && prior.serial in db.intents
    requires db.stock[prior.serial].owner == n
    ensures StockInv(Replace(db, n, e, prior, incoming))
  {
    var s, next := prior.serial, Replace(db, n, e, prior, incoming);
    assert db.serials[s].replacedBy.None? by { hide Keys, Chains, Transit, Balanced; }
    hide Keys, Rows, Chains, Transit, BalancedFor, Replace, Swapped, SameReport, Replaceable;
    ReplaceSwaps(db, n, e, prior, incoming);
    SwapKeepsKeys(db, next, s, incoming);
    SwapKeepsRows(db, next, s, incoming);
    SwapKeepsChains(db, next, s, incoming);
    SwapTransit(db, next, s, incoming);
    forall m, p ensures BalancedFor(next, m, p) {
      SwapBalance(db, next, s, incoming, m, p);
    }
  }

  lemma SwapTransit(db: Db, next: Db, s: SerialNumber, r: SerialNumber)
    requires Transit(db) && Swapped(db, next, s, r) && Replaceable(db.stock[s].status) && SameReport(db, next)
    ensures Transit(next)
  {
    SwapKeepsTransit(db, next, s, r);
  }
}
