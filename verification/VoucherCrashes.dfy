/** When the build of a voucher raises an error that the Tally queue does not catch (app/services/tally.py). */
module VoucherCrashes {
  import opened Records
  import opened NetworkDb
  import opened NetworkIngest
  import opened MasterSystem
  import opened SystemSteps
  import opened StockInvariants
  import opened LedgerInvariants
  import opened VoucherSystem
  import G = Grouping
  import V = VoucherSummary
  import P = VoucherPostings
  import T = VoucherTheorems
  import Q = TallyQueue

  // ---------------------------------------------------------------- one batch

  function Rate(entered: Option<real>): real {
    if entered.Some? then entered.value else 0.0
  }

  /** A sale or return inside the state whose entered CGST and SGST rates add up to more than 100%. */
  predicate OverTaxed(batch: V.VoucherBatch) {
    && V.SalesSide(batch.kind) && !batch.header.interState
    && V.Money(Rate(batch.header.cgstRate) + Rate(batch.header.sgstRate)) > 10000
  }

  /** What the build needs before it looks at the rates. */
  predicate Buildable(batch: V.VoucherBatch, settings: P.Settings) {
    P.SettingsComplete(settings) && P.PartyName(batch) != "" && batch.items != []
  }

  lemma NoRate()
    ensures V.Money(0.0) == 0
  {
  }

  /** The rate of a line is out of range exactly when the batch is over-taxed. */
  lemma LineRate(batch: V.VoucherBatch, product: Product)
    requires ValidHeader(batch.header) && ValidGst(product.identity) && V.SalesSide(batch.kind)
    ensures P.ValidRate(V.GstRate(batch, product)) <==> !OverTaxed(batch)
  {
    NoRate();
    T.MoneyBounds(product.identity.gstRate);
    T.MoneyBounds(Rate(batch.header.igstRate));
    T.MoneyBounds(Rate(batch.header.cgstRate) + Rate(batch.header.sgstRate));
    hide V.Money;
  }

  lemma LinesRate(batch: V.VoucherBatch, products: V.Products, i: nat)
    requires V.KnownProducts(products, batch.items) && i < |V.Lines(batch, products)|
    ensures V.Groups(products, batch.items)[i].key.product in products
    ensures V.Lines(batch, products)[i].gstRate == V.GstRate(batch, products[V.Groups(products, batch.items)[i].key.product])
  {
    hide V.GstRate, V.Charged, V.TaxableValue, V.Tax, V.RoundDiv, V.Groups;
    V.GroupsKnown(products, batch.items);
  }

  lemma SomeLine(batch: V.VoucherBatch, products: V.Products)
    requires V.KnownProducts(products, batch.items)
    ensures V.Lines(batch, products) != [] <==> batch.items != []
  {
    var keys := V.Keys(products, batch.items);
    G.FirstOccurrencesOnce(keys);
    hide V.LineOf;
    if batch.items != [] {
      assert keys[0] in G.FirstOccurrences(keys);
    } else {
      assert keys == [];
    }
  }

  /** The build raises the uncaught error if and only if the batch can be built so far and is over-taxed. */
  lemma CrashExactly(batch: V.VoucherBatch, products: V.Products, settings: P.Settings)
    requires V.KnownProducts(products, batch.items) && ValidHeader(batch.header) && ProductsValid(products)
    ensures P.CheckBuild(batch, settings, V.Lines(batch, products)) == Some(P.Crashed)
            <==> Buildable(batch, settings) && OverTaxed(batch)
  {
    var lines := V.Lines(batch, products);
    SomeLine(batch, products);
    if V.SalesSide(batch.kind) {
      forall i | 0 <= i < |lines| ensures P.ValidRate(lines[i].gstRate) <==> !OverTaxed(batch) {
        LinesRate(batch, products, i);
        LineRate(batch, products[V.Groups(products, batch.items)[i].key.product]);
      }
      hide V.Lines, OverTaxed, P.ValidRate, P.SettingsComplete, P.PartyName, P.AllMapped, P.IgstMapped, V.KnownProducts, ProductsValid, ValidHeader;
      if lines != [] {
        assert P.AllValid(lines) <==> P.ValidRate(lines[0].gstRate);
      }
    }
  }

  // ---------------------------------------------------------------- every reachable batch

  lemma ReachableRanges(actions: seq<Action>, b: Uuid)
    requires b in Run(EMPTY_DB, actions).batches
    ensures var db := Run(EMPTY_DB, actions);
            Keys(db) && Valid(db) && ProductsValid(db.products) && ValidHeader(db.batches[b].header)
  {
    RunKeeps(actions);
    RunValid(actions);
    hide Run, Step, Rows, Chains, Transit, Balanced, Ledger, Journal, Catalogue, Allocations, Keys, ValidHeader, ProductsValid;
  }

  /** What the queue meets when it builds: the request, a TallySyncError, or another exception. */
  function BuildOutcome(error: Option<P.BuildError>, request: Q.Request): Q.Build {
    match error
    case None => Q.Built(request)
    case Some(Rejected) => Q.BuildRejected
    case Some(Crashed) => Q.BuildCrashed
  }

  /**
   Whatever franchises sent and administrators did, the build of a batch crashes the queue's caller if and only
   if Tally is configured, the batch has a party and items, and its rates are over 100%.
   */
  lemma CrashesReachably(actions: seq<Action>, b: Uuid, order: seq<SerialNumber>, settings: P.Settings, request: Q.Request)
    requires b in Run(EMPTY_DB, actions).batches && Enumerates(Run(EMPTY_DB, actions), b, order)
    ensures var db := Run(EMPTY_DB, actions);
            && (forall i :: 0 <= i < |order| ==> (b, order[i]) in db.batchItems && order[i] in db.serials)
            && var voucher := VoucherOf(db, b, order);
               && V.KnownProducts(db.products, voucher.items)
               && (BuildOutcome(P.CheckBuild(voucher, settings, V.Lines(voucher, db.products)), request).BuildCrashed?
                   <==> Buildable(voucher, settings) && OverTaxed(voucher))
  {
    var db := Run(EMPTY_DB, actions);
    hide Run, Keys, ProductsValid, ValidHeader;
    ReachableRanges(actions, b);
    VoucherNonNegative(db, b, order);
    var voucher := VoucherOf(db, b, order);
    assert voucher.header == db.batches[b].header;
    hide VoucherOf, V.Lines, P.CheckBuild, T.NonNegative, Enumerates;
    CrashExactly(voucher, db.products, settings);
  }

  // ---------------------------------------------------------------- such a batch

  /** A request with one event that its node has not sent before. */
  lemma OnePost(db: Db, n: NodeCode, e: Event)
    requires n in db.nodes && db.nodes[n].active && WellShaped(e) && |e.items| <= 10
    requires e.id !in db.journal && !SequenceUsed(db, n, e.sequence) && e.sequence == db.nodes[n].lastSequence + 1
    requires ApplyEvent(db, n, e).Ok?
    ensures var next, done := Step(db, Post(n, 0, 10, [e])), ApplyEvent(db, n, e).value.0;
            && next.products == done.products && next.serials == done.serials && next.stock == done.stock
            && next.batches == done.batches && next.batchItems == done.batchItems
            && next.nodes == done.nodes[n := done.nodes[n].(lastSequence := e.sequence)]
            && next.journal.Keys == done.journal.Keys + {e.id}
            && (forall p | p in done.journal && p != e.id :: next.journal[p] == done.journal[p])
            && next.journal[e.id].event == e
  {
    hide ApplyEvent, WellShaped, SequenceUsed;
    assert [e][1..] == [];
    assert ItemCount([e]) == |e.items| + ItemCount([]);
    assert IngestEvents(db, n, 0, [e]).Ok?;
  }

  function Enrolment(n: NodeCode, item: Item, header: PartyHeader): Event {
    Event(1, 1, StockSnapshot, 0, InitialInventory(n, 1), InitialEnrollment, [item], header, n, None, 0)
  }

  function SaleOf(n: NodeCode, item: Item, header: PartyHeader): Event {
    Event(2, 2, Sale, 0, NoReference, NoReason, [item], header, n, None, 0)
  }

  /** The run: a franchise registers, enrols one serial, and sells it. */
  function SaleRun(n: NodeCode, item: Item, header: PartyHeader): seq<Action> {
    [AddNode(n, None), Post(n, 0, 10, [Enrolment(n, item, header)]), Post(n, 0, 10, [SaleOf(n, item, header)])]
  }

  ghost predicate Sellable(item: Item, header: PartyHeader) {
    item.status == Some(InStock) && ValidGst(item.identity) && ValidPrices(item.rate, item.discountRate) && ValidHeader(header)
  }

  /** The franchise has one serial of the item in stock, and one event was accepted. */
  ghost predicate Stocked(db: Db, n: NodeCode, item: Item) {
    var code := ProductCode(n, item.productCode);
    && db.nodes == map[n := Node(true, None, 1)] && db.journal.Keys == {1} && db.journal[1].event.sequence == 1
    && Tracked(db, item.serial) && db.serials[item.serial].product == code
    && db.stock[item.serial].owner == n == db.stock[item.serial].origin && db.stock[item.serial].status == InStock
    && code in db.products && db.products[code].identity == item.identity
    && db.batchItems == map[]
  }

  lemma EnrolStep(db: Db, n: NodeCode, item: Item, header: PartyHeader)
    requires db == EMPTY_DB.(nodes := map[n := Node(true, None, 0)]) && Sellable(item, header)
    ensures Stocked(Step(db, Post(n, 0, 10, [Enrolment(n, item, header)])), n, item)
  {
    hide Step;
    var e, code := Enrolment(n, item, header), ProductCode(n, item.productCode);
    assert WellShaped(e);
    assert IsInitialEnrollment(db, n, e);
    var known := EnsureProduct(db, code, item);
    assert ValidateIdentity(known, code, n, item).Ok? by { hide SameIdentity; SameAsItself(item.identity); }
    assert SnapshotItem(db, n, e, true, item) == Ok(NewSerial(known, n, e.id, item, code, InStock)) by { hide ValidateIdentity; }
    hide SnapshotItem, IsInitialEnrollment, ValidateIdentity, WellShaped;
    assert e.items[1..] == [];
    assert SnapshotItems(db, n, e, true, e.items) == Ok((NewSerial(known, n, e.id, item, code, InStock), 1));
    OnePost(db, n, e);
  }

  lemma SameAsItself(identity: Identity)
    ensures SameIdentity(identity, identity)
  {
  }

  lemma SaleBooks(db: Db, n: NodeCode, item: Item, header: PartyHeader)
    requires Stocked(db, n, item)
    ensures var booked := Inventory(db, n, SaleOf(n, item, header));
            && booked.Ok?
            && booked.value.0.batches == db.batches[2 := Batch(n, Sale, PendingSync, header, 0)]
            && booked.value.0.batchItems.Keys == {(2, item.serial)}
  {
    var e := SaleOf(n, item, header);
    var batched := db.(batches := db.batches[2 := NewBatch(n, e)]);
    SameAsItself(item.identity);
    hide SameIdentity, UpdatedDetails;
    assert CheckInventoryItem(batched, n, e, item) == Ok(Sold);
    hide CheckInventoryItem;
    assert InventoryItem(batched, n, e, item) == Ok(BookItem(batched, n, 2, item, Sold));
    assert BookItem(batched, n, 2, item, Sold).batchItems.Keys == {(2, item.serial)};
    hide InventoryItem;
    assert e.items[1..] == [];
    assert InventoryItems(batched, n, e, e.items) == Ok(BookItem(batched, n, 2, item, Sold));
  }

  lemma SaleShaped(n: NodeCode, item: Item, header: PartyHeader)
    requires Sellable(item, header)
    ensures WellShaped(SaleOf(n, item, header))
  {
  }

  lemma SaleStep(db: Db, n: NodeCode, item: Item, header: PartyHeader)
    requires Sellable(item, header) && Stocked(db, n, item)
    ensures var next := Step(db, Post(n, 0, 10, [SaleOf(n, item, header)]));
            && 2 in next.batches && next.batches[2].kind == Sale && next.batches[2].header == header
            && next.batchItems.Keys == {(2, item.serial)}
  {
    hide Step, Inventory, WellShaped, Sellable;
    var e := SaleOf(n, item, header);
    SaleShaped(n, item, header);
    SaleBooks(db, n, item, header);
    assert ApplyEvent(db, n, e) == Inventory(db, n, e);
    hide ApplyEvent;
    assert !SequenceUsed(db, n, 2);
    OnePost(db, n, e);
  }

  lemma SaleRunEnds(n: NodeCode, item: Item, header: PartyHeader)
    requires Sellable(item, header)
    ensures var db := Run(EMPTY_DB, SaleRun(n, item, header));
            && 2 in db.batches && db.batches[2].kind == Sale && db.batches[2].header == header
            && Enumerates(db, 2, [item.serial])
  {
    var run := SaleRun(n, item, header);
    var db := Step(EMPTY_DB, run[0]);
    assert db == EMPTY_DB.(nodes := map[n := Node(true, None, 0)]);
    RunThree(run[0], run[1], run[2]);
    hide Step, Run, Stocked;
    EnrolStep(db, n, item, header);
    SaleStep(Step(db, run[1]), n, item, header);
  }

  lemma RunThree(x: Action, y: Action, z: Action)
    ensures Run(EMPTY_DB, [x, y, z]) == Step(Step(Step(EMPTY_DB, x), y), z)
  {
    hide Step;
    assert [x][..0] == [] && [x, y][..1] == [x] && [x, y, z][..2] == [x, y];
    assert Run(EMPTY_DB, [x]) == Step(EMPTY_DB, x);
    assert Run(EMPTY_DB, [x, y]) == Step(Step(EMPTY_DB, x), y);
  }

  /** A sale with 60% CGST and 60% SGST, both accepted, is a batch whose build raises the error for every complete setting. */
  lemma SixtyAndSixtyCrashes(n: NodeCode, item: Item, party: string, settings: P.Settings, request: Q.Request)
    requires item.status == Some(InStock) && ValidGst(item.identity) && ValidPrices(item.rate, item.discountRate)
    requires party != "" && P.SettingsComplete(settings)
    ensures var db := Run(EMPTY_DB, SaleRun(n, item, PartyHeader(Some(party), false, Some(60.0), Some(60.0), None)));
            && 2 in db.batches && Enumerates(db, 2, [item.serial])
            && (2, item.serial) in db.batchItems && item.serial in db.serials
            && var voucher := VoucherOf(db, 2, [item.serial]);
               && V.KnownProducts(db.products, voucher.items)
               && BuildOutcome(P.CheckBuild(voucher, settings, V.Lines(voucher, db.products)), request).BuildCrashed?
  {
    var header := PartyHeader(Some(party), false, Some(60.0), Some(60.0), None);
    var run, order := SaleRun(n, item, header), [item.serial];
    SaleRunEnds(n, item, header);
    var db := Run(EMPTY_DB, run);
    hide Run, SaleRun, P.SettingsComplete, P.CheckBuild, V.Lines, V.KnownProducts;
    CrashesReachably(run, 2, order, settings, request);
    assert order[0] == item.serial;
    var voucher := VoucherOf(db, 2, order);
    assert voucher.header == header && voucher.kind == Sale && |voucher.items| == 1;
    assert V.Money(60.0 + 60.0) == 12000;
  }
}
