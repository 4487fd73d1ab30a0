/** The stock movement report over all time (app/routers/master_console.py, _movement_rows). */
module MovementReport {
  import opened Records
  import opened NetworkDb
  import opened NetworkIngest
  import opened StockInvariants
  import opened MasterSystem
  import opened MasterTheorems

  /** One line of the report is about one franchise and one product. */
  type Cell = (NodeCode, ProductCode)

  datatype Field = CurrentStock | PurchasedUnits | SoldUnits | SalesReturns | PurchaseReturns | IssuedUnits | TransfersOut | TransfersIn

  datatype Line = Line(
    currentStock: nat,
    purchased: nat,
    sold: nat,
    salesReturns: nat,
    purchaseReturns: nat,
    issued: nat,
    transferredOut: nat,
    transferredIn: nat)

  const NO_MOVEMENT := Line(0, 0, 0, 0, 0, 0, 0, 0)

  function Get(line: Line, field: Field): nat {
    match field
    case CurrentStock => line.currentStock
    case PurchasedUnits => line.purchased
    case SoldUnits => line.sold
    case SalesReturns => line.salesReturns
    case PurchaseReturns => line.purchaseReturns
    case IssuedUnits => line.issued
    case TransfersOut => line.transferredOut
    case TransfersIn => line.transferredIn
  }

  function Plus(line: Line, field: Field, quantity: nat): Line {
    match field
    case CurrentStock => line.(currentStock := line.currentStock + quantity)
    case PurchasedUnits => line.(purchased := line.purchased + quantity)
    case SoldUnits => line.(sold := line.sold + quantity)
    case SalesReturns => line.(salesReturns := line.salesReturns + quantity)
    case PurchaseReturns => line.(purchaseReturns := line.purchaseReturns + quantity)
    case IssuedUnits => line.(issued := line.issued + quantity)
    case TransfersOut => line.(transferredOut := line.transferredOut + quantity)
    case TransfersIn => line.(transferredIn := line.transferredIn + quantity)
  }

  type Totals = map<Cell, Line>

  /** A missing line is a line of zeros. */
  function LineFor(totals: Totals, cell: Cell): Line {
    if cell in totals then totals[cell] else NO_MOVEMENT
  }

  function CountFor(counts: map<Cell, nat>, cell: Cell): nat {
    if cell in counts then counts[cell] else 0
  }

  /** The rows that fall into a cell. */
  ghost function RowsIn<K>(cells: map<K, Cell>, cell: Cell): set<K> {
    set k | k in cells && cells[k] == cell
  }

  /** `counts` says how many of the rows seen so far fall into each cell. */
  ghost predicate Counted<K(!new)>(counts: map<Cell, nat>, cells: map<K, Cell>, seen: set<K>) {
    forall cell :: CountFor(counts, cell) == |RowsIn(cells, cell) * seen|
  }

  lemma CountedNext<K(!new)>(counts: map<Cell, nat>, cells: map<K, Cell>, seen: set<K>, k: K)
    requires Counted(counts, cells, seen) && k in cells && k !in seen
    ensures Counted(counts[cells[k] := CountFor(counts, cells[k]) + 1], cells, seen + {k})
  {
    var next := counts[cells[k] := CountFor(counts, cells[k]) + 1];
    forall c ensures CountFor(next, c) == |RowsIn(cells, c) * (seen + {k})| {
      assert CountFor(counts, c) == |RowsIn(cells, c) * seen|;
      OneMoreSeen(cells, seen, k, c);
      hide RowsIn;
    }
  }

  lemma OneMoreSeen<K(!new)>(cells: map<K, Cell>, seen: set<K>, k: K, c: Cell)
    requires k in cells && k !in seen
    ensures |RowsIn(cells, c) * (seen + {k})| == |RowsIn(cells, c) * seen| + (if c == cells[k] then 1 else 0)
  {
    if c == cells[k] {
      assert RowsIn(cells, c) * (seen + {k}) == RowsIn(cells, c) * seen + {k};
    } else {
      assert RowsIn(cells, c) * (seen + {k}) == RowsIn(cells, c) * seen;
    }
  }

  lemma CountedAll<K(!new)>(counts: map<Cell, nat>, cells: map<K, Cell>)
    requires Counted(counts, cells, cells.Keys)
    ensures forall cell :: CountFor(counts, cell) == |RowsIn(cells, cell)|
  {
    forall cell ensures CountFor(counts, cell) == |RowsIn(cells, cell)| {
      assert RowsIn(cells, cell) * cells.Keys == RowsIn(cells, cell);
    }
  }

  lemma NothingCounted<K(!new)>(cells: map<K, Cell>)
    ensures Counted(map[], cells, {})
  {
  }

  /** A grouped count: how many rows fall into each cell. */
  method GroupCount<K(!new)>(cells: map<K, Cell>) returns (counts: map<Cell, nat>)
    ensures forall cell :: CountFor(counts, cell) == |RowsIn(cells, cell)|
  {
    hide Counted, CountFor, RowsIn;
    counts := map[];
    var rest := cells.Keys;
    ghost var seen: set<K> := {};
    NothingCounted(cells);
    while rest != {}
      invariant rest !! seen && rest + seen == cells.Keys
      invariant Counted(counts, cells, seen)
      decreases |rest|
    {
      var k :| k in rest;
      CountedNext(counts, cells, seen, k);
      counts := counts[cells[k] := CountFor(counts, cells[k]) + 1];
      rest, seen := rest - {k}, seen + {k};
    }
    assert seen == cells.Keys;
    CountedAll(counts, cells);
  }

  /** One column of the report gained these rows; the other columns are as before. */
  ghost predicate Added<K(!new)>(before: Totals, totals: Totals, field: Field, cells: map<K, Cell>) {
    forall cell, f ::
      Get(LineFor(totals, cell), f) == Get(LineFor(before, cell), f) + (if f == field then |RowsIn(cells, cell)| else 0)
  }

  /** The counts of the cells outside `rest` were added to one column. */
  ghost predicate AddedOutside(before: Totals, totals: Totals, field: Field, counts: map<Cell, nat>, rest: set<Cell>) {
    forall cell, f ::
      Get(LineFor(totals, cell), f)
      == Get(LineFor(before, cell), f) + (if f == field && cell !in rest then CountFor(counts, cell) else 0)
  }

  lemma PlusGet(line: Line, field: Field, quantity: nat, f: Field)
    ensures Get(Plus(line, field, quantity), f) == Get(line, f) + (if f == field then quantity else 0)
  {
  }

  lemma AddedNext(before: Totals, totals: Totals, field: Field, counts: map<Cell, nat>, rest: set<Cell>, cell: Cell)
    requires AddedOutside(before, totals, field, counts, rest) && cell in rest && cell in counts
    ensures AddedOutside(before, totals[cell := Plus(LineFor(totals, cell), field, counts[cell])], field, counts, rest - {cell})
  {
    var next := totals[cell := Plus(LineFor(totals, cell), field, counts[cell])];
    forall c, f
      ensures Get(LineFor(next, c), f) == Get(LineFor(before, c), f) + (if f == field && c !in rest - {cell} then CountFor(counts, c) else 0)
    {
      PlusGet(LineFor(totals, cell), field, counts[cell], f);
      assert Get(LineFor(totals, c), f) == Get(LineFor(before, c), f) + (if f == field && c !in rest then CountFor(counts, c) else 0);
      hide Get, Plus;
      if c != cell {
        assert LineFor(next, c) == LineFor(totals, c);
      }
    }
  }

  lemma NothingAdded(before: Totals, field: Field, counts: map<Cell, nat>)
    ensures AddedOutside(before, before, field, counts, counts.Keys)
  {
    forall cell ensures cell !in counts.Keys ==> CountFor(counts, cell) == 0 {
    }
    hide Get, LineFor, CountFor;
  }

  lemma AddedAll<K(!new)>(before: Totals, totals: Totals, field: Field, cells: map<K, Cell>, counts: map<Cell, nat>)
    requires AddedOutside(before, totals, field, counts, {})
    requires forall cell :: CountFor(counts, cell) == |RowsIn(cells, cell)|
    ensures Added(before, totals, field, cells)
  {
    hide Get, LineFor, RowsIn;
    forall cell, f
      ensures Get(LineFor(totals, cell), f) == Get(LineFor(before, cell), f) + (if f == field then |RowsIn(cells, cell)| else 0)
    {
      assert CountFor(counts, cell) == |RowsIn(cells, cell)|;
    }
  }

  /** One statement of the report: its grouped counts are added to one column, creating lines as needed. */
  method AddColumn<K(!new)>(before: Totals, cells: map<K, Cell>, field: Field) returns (totals: Totals)
    ensures Added(before, totals, field, cells)
  {
    hide AddedOutside, Added, CountFor, LineFor, RowsIn;
    var counts := GroupCount(cells);
    totals := before;
    var rest := counts.Keys;
    NothingAdded(before, field, counts);
    while rest != {}
      invariant rest <= counts.Keys
      invariant AddedOutside(before, totals, field, counts, rest)
      decreases |rest|
    {
      var cell :| cell in rest;
      AddedNext(before, totals, field, counts, rest, cell);
      totals := totals[cell := Plus(LineFor(totals, cell), field, counts[cell])];
      rest := rest - {cell};
    }
    AddedAll(before, totals, field, cells, counts);
  }

  // ---------------------------------------------------------------- the statements

  /** Rows of network_stock that are IN_STOCK. */
  function StockCells(db: Db, selected: set<NodeCode>): map<SerialNumber, Cell> {
    map s | s in db.stock && s in db.serials && db.stock[s].status.InStock? && db.stock[s].owner in selected ::
      (db.stock[s].owner, db.serials[s].product)
  }

  /** Batch items of the events of one kind. */
  function MovementCells(db: Db, selected: set<NodeCode>, kind: EventType): map<(Uuid, SerialNumber), Cell> {
    map k | k in db.batchItems && k.0 in db.batches && k.1 in db.serials
            && db.batches[k.0].kind == kind && db.batches[k.0].node in selected ::
      (db.batches[k.0].node, db.serials[k.1].product)
  }

  function OutCells(db: Db, selected: set<NodeCode>): map<(Uuid, SerialNumber), Cell> {
    map k | k in db.transferItems && k.0 in db.transfers && k.1 in db.serials && db.transfers[k.0].source in selected ::
      (db.transfers[k.0].source, db.serials[k.1].product)
  }

  function InCells(db: Db, selected: set<NodeCode>): map<(Uuid, SerialNumber), Cell> {
    map k | k in db.transferItems && k.0 in db.transfers && k.1 in db.serials
            && db.transferItems[k].receipt.Some? && db.transfers[k.0].destination in selected ::
      (db.transfers[k.0].destination, db.serials[k.1].product)
  }

  ghost function InStockRows(db: Db, n: NodeCode, p: ProductCode): set<SerialNumber> {
    set s | s in db.stock && db.stock[s].owner == n && db.stock[s].status.InStock? && IsProduct(db, s, p)
  }

  lemma StockCellsCount(db: Db, selected: set<NodeCode>, n: NodeCode, p: ProductCode)
    requires n in selected
    ensures RowsIn(StockCells(db, selected), (n, p)) == InStockRows(db, n, p)
  {
  }

  lemma MovementCellsCount(db: Db, selected: set<NodeCode>, kind: EventType, n: NodeCode, p: ProductCode)
    requires n in selected
    ensures RowsIn(MovementCells(db, selected, kind), (n, p)) == Column(db, {kind}, n, p)
  {
  }

  lemma OutCellsCount(db: Db, selected: set<NodeCode>, n: NodeCode, p: ProductCode)
    requires n in selected
    ensures RowsIn(OutCells(db, selected), (n, p)) == TransferredOut(db, n, p)
  {
  }

  lemma InCellsCount(db: Db, selected: set<NodeCode>, n: NodeCode, p: ProductCode)
    requires n in selected
    ensures RowsIn(InCells(db, selected), (n, p)) == TransferredIn(db, n, p)
  {
  }

  lemma CellsAreColumns(db: Db, selected: set<NodeCode>, n: NodeCode, p: ProductCode)
    requires n in selected
    ensures RowsIn(StockCells(db, selected), (n, p)) == InStockRows(db, n, p)
    ensures forall kind :: RowsIn(MovementCells(db, selected, kind), (n, p)) == Column(db, {kind}, n, p)
    ensures RowsIn(OutCells(db, selected), (n, p)) == TransferredOut(db, n, p)
    ensures RowsIn(InCells(db, selected), (n, p)) == TransferredIn(db, n, p)
  {
    hide RowsIn, StockCells, MovementCells, OutCells, InCells, InStockRows, Column, TransferredOut, TransferredIn;
    StockCellsCount(db, selected, n, p);
    forall kind ensures RowsIn(MovementCells(db, selected, kind), (n, p)) == Column(db, {kind}, n, p) {
      MovementCellsCount(db, selected, kind, n, p);
    }
    OutCellsCount(db, selected, n, p);
    InCellsCount(db, selected, n, p);
  }

  lemma OthersEmpty(db: Db, selected: set<NodeCode>, n: NodeCode, p: ProductCode)
    requires n !in selected
    ensures RowsIn(StockCells(db, selected), (n, p)) == {}
    ensures forall kind :: RowsIn(MovementCells(db, selected, kind), (n, p)) == {}
    ensures RowsIn(OutCells(db, selected), (n, p)) == {} && RowsIn(InCells(db, selected), (n, p)) == {}
  {
  }

  /** The line counts what it says, for a selected franchise; nothing is reported of others. */
  ghost predicate Reports(db: Db, selected: set<NodeCode>, totals: Totals, n: NodeCode, p: ProductCode) {
    LineFor(totals, (n, p)) ==
    if n !in selected then NO_MOVEMENT
    else Line(|InStockRows(db, n, p)|,
              |Column(db, {Purchase}, n, p)| + |Column(db, {Receive}, n, p)|,
              |Column(db, {Sale}, n, p)|,
              |Column(db, {SalesReturn}, n, p)|,
              |Column(db, {SupplierReturn}, n, p)|,
              |Column(db, {Issue}, n, p)|,
              |TransferredOut(db, n, p)|,
              |TransferredIn(db, n, p)|)
  }

  method MovementRows(db: Db, selected: set<NodeCode>) returns (totals: Totals)
    ensures forall n, p :: Reports(db, selected, totals, n, p)
  {
    hide Added, Reports, StockCells, MovementCells, OutCells, InCells;
    totals := map[];
    var stocked := AddColumn(totals, StockCells(db, selected), CurrentStock);
    var purchases := AddColumn(stocked, MovementCells(db, selected, Purchase), PurchasedUnits);
    var receipts := AddColumn(purchases, MovementCells(db, selected, Receive), PurchasedUnits);
    var sales := AddColumn(receipts, MovementCells(db, selected, Sale), SoldUnits);
    var salesBack := AddColumn(sales, MovementCells(db, selected, SalesReturn), SalesReturns);
    var purchasesBack := AddColumn(salesBack, MovementCells(db, selected, SupplierReturn), PurchaseReturns);
    var issues := AddColumn(purchasesBack, MovementCells(db, selected, Issue), IssuedUnits);
    var outs := AddColumn(issues, OutCells(db, selected), TransfersOut);
    var ins := AddColumn(outs, InCells(db, selected), TransfersIn);
    forall n, p ensures Reports(db, selected, ins, n, p) {
      ghost var cell := (n, p);
      ghost var zero := LineFor(totals, cell);
      AddedLine(totals, stocked, CurrentStock, StockCells(db, selected), cell);
      AddedLine(stocked, purchases, PurchasedUnits, MovementCells(db, selected, Purchase), cell);
      AddedLine(purchases, receipts, PurchasedUnits, MovementCells(db, selected, Receive), cell);
      AddedLine(receipts, sales, SoldUnits, MovementCells(db, selected, Sale), cell);
      AddedLine(sales, salesBack, SalesReturns, MovementCells(db, selected, SalesReturn), cell);
      AddedLine(salesBack, purchasesBack, PurchaseReturns, MovementCells(db, selected, SupplierReturn), cell);
      AddedLine(purchasesBack, issues, IssuedUnits, MovementCells(db, selected, Issue), cell);
      AddedLine(issues, outs, TransfersOut, OutCells(db, selected), cell);
      AddedLine(outs, ins, TransfersIn, InCells(db, selected), cell);
      Reported(db, selected, ins, n, p);
    }
    totals := ins;
  }

  lemma AddedLine<K(!new)>(before: Totals, totals: Totals, field: Field, cells: map<K, Cell>, cell: Cell)
    requires Added(before, totals, field, cells)
    ensures LineFor(totals, cell) == Plus(LineFor(before, cell), field, |RowsIn(cells, cell)|)
  {
    hide RowsIn, LineFor;
    Same(LineFor(totals, cell));
    Same(LineFor(before, cell));
    assert forall f :: Get(LineFor(totals, cell), f) == Get(LineFor(before, cell), f) + (if f == field then |RowsIn(cells, cell)| else 0);
  }

  lemma Reported(db: Db, selected: set<NodeCode>, totals: Totals, n: NodeCode, p: ProductCode)
    requires LineFor(totals, (n, p))
             == Line(|RowsIn(StockCells(db, selected), (n, p))|,
                     |RowsIn(MovementCells(db, selected, Purchase), (n, p))| + |RowsIn(MovementCells(db, selected, Receive), (n, p))|,
                     |RowsIn(MovementCells(db, selected, Sale), (n, p))|,
                     |RowsIn(MovementCells(db, selected, SalesReturn), (n, p))|,
                     |RowsIn(MovementCells(db, selected, SupplierReturn), (n, p))|,
                     |RowsIn(MovementCells(db, selected, Issue), (n, p))|,
                     |RowsIn(OutCells(db, selected), (n, p))|,
                     |RowsIn(InCells(db, selected), (n, p))|)
    ensures Reports(db, selected, totals, n, p)
  {
    hide RowsIn, StockCells, MovementCells, OutCells, InCells, LineFor, InStockRows, Column, TransferredOut, TransferredIn;
    if n in selected {
      CellsAreColumns(db, selected, n, p);
    } else {
      OthersEmpty(db, selected, n, p);
    }
  }

  lemma Same(line: Line)
    ensures line == Line(Get(line, CurrentStock), Get(line, PurchasedUnits), Get(line, SoldUnits), Get(line, SalesReturns),
                         Get(line, PurchaseReturns), Get(line, IssuedUnits), Get(line, TransfersOut), Get(line, TransfersIn))
  {
  }

  // ---------------------------------------------------------------- the stock-flow equation

  lemma PurchasedTogether(db: Db, n: NodeCode, p: ProductCode)
    ensures |Column(db, {Purchase, Receive}, n, p)| == |Column(db, {Purchase}, n, p)| + |Column(db, {Receive}, n, p)|
  {
    assert Column(db, {Purchase, Receive}, n, p) == Column(db, {Purchase}, n, p) + Column(db, {Receive}, n, p);
    assert Column(db, {Purchase}, n, p) !! Column(db, {Receive}, n, p);
  }

  /**
   In every reachable state the report of any selection of franchises satisfies, line by line: stock on hand
   and all that went out equals what was enrolled as IN_STOCK and all that came in.
   */
  lemma ReportBalances(actions: seq<Action>, selected: set<NodeCode>, totals: Totals, n: NodeCode, p: ProductCode)
    requires n in selected && Reports(Run(EMPTY_DB, actions), selected, totals, n, p)
    ensures var db, line := Run(EMPTY_DB, actions), LineFor(totals, (n, p));
            && |OnHandRows(db, n, p)| + line.sold + line.purchaseReturns + line.issued + line.transferredOut
               == |EnrolledRows(db, n, p)| + line.purchased + line.salesReturns + line.transferredIn
            && line.currentStock <= |OnHandRows(db, n, p)|
  {
    var db := Run(EMPTY_DB, actions);
    StockFlow(actions, n, p);
    hide Run;
    PurchasedTogether(db, n, p);
    Subset(InStockRows(db, n, p), OnHandRows(db, n, p));
    hide InStockRows, OnHandRows, Column, TransferredOut, TransferredIn, EnrolledRows;
  }

  lemma Subset<T>(a: set<T>, b: set<T>)
    requires a <= b
    ensures |a| <= |b|
  {
    assert b == a + (b - a);
  }
}
