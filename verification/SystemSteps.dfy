/** Every action keeps the system invariant. */
module SystemSteps {
  import opened Records
  import opened NetworkDb
  import opened NetworkIngest
  import opened QrAllocation
  import opened QrReplacementIntent
  import opened TallyProducts
  import opened StockInvariants
  import opened StockSteps
  import opened EventInvariants
  import opened LedgerInvariants
  import opened MasterSystem

  lemma EmptyBalanced()
    ensures Balanced(EMPTY_DB)
  {
    var db := EMPTY_DB;
    forall n, p ensures BalancedFor(db, n, p) {
      assert OnHandRows(db, n, p) == {};
      assert EnrolledRows(db, n, p) == {};
      assert TransferredOut(db, n, p) == {} && TransferredIn(db, n, p) == {};
      assert forall kinds :: Column(db, kinds, n, p) == {};
    }
  }

  lemma EmptyInv()
    ensures Inv(EMPTY_DB)
  {
    EmptyBalanced();
    hide Balanced;
  }

  // ---------------------------------------------------------------- reading allocations back

  lemma {:induction false} AllocatedConcat(a: seq<Command>, b: seq<Command>, n: NodeCode, id: Uuid)
    ensures AllocatedSerials(a + b, n, id) == AllocatedSerials(a, n, id) + AllocatedSerials(b, n, id)
  {
    if a == [] {
      assert a + b == b;
    } else {
      assert (a + b)[1..] == a[1..] + b;
      AllocatedConcat(a[1..], b, n, id);
    }
  }

  /** Acknowledging commands does not change what was allocated. */
  lemma {:induction false} AllocatedSame(a: seq<Command>, b: seq<Command>, n: NodeCode, id: Uuid)
    requires |a| == |b| && Extends(a, b)
    ensures AllocatedSerials(a, n, id) == AllocatedSerials(b, n, id)
  {
    if a != [] {
      AllocatedSame(a[1..], b[1..], n, id);
    }
  }

  lemma {:induction false} AllocatedNone(a: seq<Command>, n: NodeCode, id: Uuid)
    requires forall i | 0 <= i < |a| && a[i].payload.QrAllocated? :: a[i].payload.allocation != id
    ensures AllocatedSerials(a, n, id) == []
  {
    if a != [] {
      AllocatedNone(a[1..], n, id);
    }
  }

  /** Commands that carry no allocation leave every allocation as it was. */
  lemma AllocatedFrame(commands: seq<Command>, next: seq<Command>, n: NodeCode, id: Uuid)
    requires Extends(commands, next)
    requires forall i :: |commands| <= i < |next| ==> !next[i].payload.QrAllocated?
    ensures AllocatedSerials(next, n, id) == AllocatedSerials(commands, n, id)
  {
    var m := |commands|;
    assert next == next[..m] + next[m..];
    AllocatedConcat(next[..m], next[m..], n, id);
    AllocatedSame(commands, next[..m], n, id);
    AllocatedNone(next[m..], n, id);
  }

  lemma AllocationsFrame(db: Db, next: Db)
    requires Allocations(db) && next.allocations == db.allocations && Extends(db.commands, next.commands)
    requires forall i :: |db.commands| <= i < |next.commands| ==> !next.commands[i].payload.QrAllocated?
    ensures Allocations(next)
  {
    forall a | a in next.allocations
      ensures |AllocatedSerials(next.commands, next.allocations[a].node, a)| == next.allocations[a].quantity
    {
      AllocatedFrame(db.commands, next.commands, next.allocations[a].node, a);
    }
  }

  // ---------------------------------------------------------------- one accepted event

  lemma FreshBatch(db: Db, e: Uuid)
    requires Vouchers(db) && e !in db.journal
    ensures e !in db.batches
  {
  }

  lemma AcceptVouchers(db: Db, n: NodeCode, now: int, e: Event)
    requires Vouchers(db) && n in db.nodes && WellShaped(e) && e.id !in db.journal && AcceptEvent(db, n, now, e).Ok?
    requires var next := ApplyEvent(db, n, e).value.0;
             next.batches == db.batches || next.batches == db.batches[e.id := NewBatch(n, e)]
    ensures Vouchers(AcceptEvent(db, n, now, e).value.0)
  {
    hide ApplyEvent;
    var next := AcceptEvent(db, n, now, e).value.0;
    assert next.journal == db.journal[e.id := next.journal[e.id]];
    assert next.journal[e.id].node == n && next.journal[e.id].event == e;
  }

  /** The journal entry and the node's sequence are outside the stock and ledger tables. */
  lemma JournalledKeeps(db: Db, n: NodeCode, q: nat, e: Uuid, entry: Inbound)
    requires StockInv(db) && Ledger(db) && Catalogue(db) && Allocations(db) && n in db.nodes
    ensures var next := db.(journal := db.journal[e := entry], nodes := db.nodes[n := db.nodes[n].(lastSequence := q)]);
            StockInv(next) && Ledger(next) && Catalogue(next) && Allocations(next)
  {
    hide StockInv, Ledger, Catalogue, Allocations;
    NodesKeep(db, db.(journal := db.journal[e := entry], nodes := db.nodes[n := db.nodes[n].(lastSequence := q)]));
  }

  /** Nothing but the nodes, the journal and the acknowledged marks of commands differs. */
  ghost predicate OnlyNodes(db: Db, next: Db) {
    && db.nodes.Keys <= next.nodes.Keys
    && next.products == db.products && next.productOrder == db.productOrder
    && next.serials == db.serials && next.nextId == db.nextId && next.stock == db.stock
    && next.batches == db.batches && next.batchItems == db.batchItems
    && next.transfers == db.transfers && next.transferItems == db.transferItems
    && |next.commands| == |db.commands| && Extends(db.commands, next.commands)
    && next.intents == db.intents && next.allocations == db.allocations && next.enrolled == db.enrolled
  }

  lemma NodesOutside(db: Db, next: Db)
    requires StockInv(db) && OnlyNodes(db, next)
    ensures OutsideStock(db, next)
  {
    hide Rows, Chains, Transit, Balanced;
  }

  lemma NodesKeep(db: Db, next: Db)
    requires StockInv(db) && Ledger(db) && Catalogue(db) && Allocations(db) && OnlyNodes(db, next)
    ensures StockInv(next) && Ledger(next) && Catalogue(next) && Allocations(next)
  {
    hide StockInv, Receipts, Intents, Catalogue, OutsideStock, Allocations, SameReplacements;
    SameSerials(db, next);
    NodesOutside(db, next);
    OutsideKeeps(db, next);
    ReceiptsFrame(db, next);
    IntentsFrame(db, next);
    AllocationsFrame(db, next);
    CatalogueFrame(db, next);
  }

  lemma CatalogueFrame(db: Db, next: Db)
    requires Catalogue(db) && next.products.Keys == db.products.Keys && next.productOrder == db.productOrder
    ensures Catalogue(next)
  {
    assert forall c :: c in next.products <==> c in next.products.Keys;
    assert forall c :: c in db.products <==> c in db.products.Keys;
  }

  lemma AcceptKeeps(db: Db, n: NodeCode, now: int, e: Event)
    requires Inv(db) && n in db.nodes && WellShaped(e) && e.id !in db.journal && AcceptEvent(db, n, now, e).Ok?
    ensures Inv(AcceptEvent(db, n, now, e).value.0)
  {
    hide StockInv, Ledger, Journal, Vouchers, Catalogue, Allocations, ApplyEvent, NewBatch, Extends;
    var applied := ApplyEvent(db, n, e).value.0;
    var next := AcceptEvent(db, n, now, e).value.0;
    FreshBatch(db, e.id);
    ApplyEventKeeps(db, n, e);
    ApplyEventLedger(db, n, e);
    AllocationsFrame(db, applied);
    JournalledKeeps(applied, n, e.sequence, e.id, next.journal[e.id]);
    AcceptJournal(db, n, now, e);
    AcceptVouchers(db, n, now, e);
  }

  lemma {:induction false} IngestKeeps(db: Db, n: NodeCode, now: int, events: seq<Event>)
    requires Inv(db) && n in db.nodes && (forall k :: 0 <= k < |events| ==> WellShaped(events[k]))
    requires IngestEvents(db, n, now, events).Ok?
    ensures Inv(IngestEvents(db, n, now, events).value.0)
    decreases |events|
  {
    hide Inv, AcceptEvent;
    if events != [] {
      if events[0].id !in db.journal {
        AcceptKeeps(db, n, now, events[0]);
      }
      IngestKeeps(IngestEvent(db, n, now, events[0]).value.0, n, now, events[1..]);
    }
  }

  // ---------------------------------------------------------------- one request

  lemma PostKeeps(db: Db, n: NodeCode, now: int, limit: nat, events: seq<Event>)
    requires Inv(db) && n in db.nodes && (forall k :: 0 <= k < |events| ==> WellShaped(events[k]))
    ensures Inv(PostEvents(db, n, now, limit, events).0)
  {
    hide Inv, IngestEvents;
    if IngestEvents(db, n, now, events).Ok? {
      IngestKeeps(db, n, now, events);
    }
  }

  // ---------------------------------------------------------------- allocating serials

  lemma AllocateSerialKeeps(db: Db, request: AllocationRequest, s: SerialNumber)
    requires StockInv(db) && request.node in db.nodes && request.product in db.products && s !in db.serials
    ensures StockInv(AllocateSerial(db, request, s))
  {
    var next := AllocateSerial(db, request, s);
    TrackedTogether(db);
    AllocateSerialAdds(db, request, s);
    hide StockInv, RowAdded;
    AddKeeps(db, next, s, request.node, Generated, request.product);
  }

  lemma AllocateSerialAdds(db: Db, request: AllocationRequest, s: SerialNumber)
    requires s !in db.serials && s !in db.stock
    ensures var next := AllocateSerial(db, request, s);
            RowAdded(db, next, s, request.node, Generated, request.product) && SameReplacements(db, next)
  {
    var next := AllocateSerial(db, request, s);
    assert next.serials.Keys == db.serials.Keys + {s} && next.stock.Keys == db.stock.Keys + {s};
  }

  /** Allocating rows touches nothing but the serial and stock tables, and gives each code its stock row. */
  ghost predicate RowsAllocated(db: Db, next: Db, codes: seq<SerialNumber>, request: AllocationRequest) {
    && next.intents == db.intents && next.allocations == db.allocations
    && next.transfers == db.transfers && next.transferItems == db.transferItems
    && next.batches == db.batches && next.batchItems == db.batchItems
    && next.nodes == db.nodes && next.products == db.products && next.productOrder == db.productOrder
    && next.journal == db.journal && next.identityHistory == db.identityHistory
    && next.serials.Keys == db.serials.Keys + (set s | s in codes)
    && (forall s | s in db.serials :: next.serials[s] == db.serials[s])
    && (forall s | s in db.stock && s !in codes :: s in next.stock && next.stock[s] == db.stock[s])
    && (forall s | s in codes :: s in next.stock && next.stock[s] == Stock(request.node, request.node, Generated, None))
    && SameReplacements(db, next)
  }

  lemma RowsTogether(db: Db, mid: Db, last: Db, head: seq<SerialNumber>, rest: seq<SerialNumber>, codes: seq<SerialNumber>,
                     request: AllocationRequest)
    requires codes == head + rest
    requires RowsAllocated(db, mid, head, request) && RowsAllocated(mid, last, rest, request)
    ensures RowsAllocated(db, last, codes, request)
  {
    assert forall s :: s in codes <==> s in head || s in rest;
    assert (set s | s in codes) == (set s | s in head) + (set s | s in rest);
    assert SameReplacements(db, last) by { hide Replaces; }
    hide SameReplacements;
    forall s | s in codes ensures s in last.stock && last.stock[s] == Stock(request.node, request.node, Generated, None) {
      if s !in rest {
        assert s in mid.stock && mid.stock[s] == Stock(request.node, request.node, Generated, None);
      }
    }
  }

  lemma OneRow(db: Db, request: AllocationRequest, s: SerialNumber)
    requires s !in db.serials && s !in db.stock
    ensures RowsAllocated(db, AllocateSerial(db, request, s), [s], request)
  {
    var next := AllocateSerial(db, request, s);
    AllocateSerialAdds(db, request, s);
    hide SameReplacements, RowAdded;
    assert (set x | x in [s]) == {s};
    assert next.serials.Keys == db.serials.Keys + {s};
  }

  lemma UnissuedRest(db: Db, request: AllocationRequest, codes: seq<SerialNumber>)
    requires codes != [] && Unissued(db, codes)
    ensures codes[0] !in db.serials && Unissued(AllocateSerial(db, request, codes[0]), codes[1..])
    ensures AllocateSerial(db, request, codes[0]).commands == db.commands
    ensures AllocateSerial(db, request, codes[0]).nodes == db.nodes && AllocateSerial(db, request, codes[0]).products == db.products
  {
    var next := AllocateSerial(db, request, codes[0]);
    assert forall s :: s in next.serials <==> s in db.serials || s == codes[0];
  }

  lemma NoRows(db: Db, request: AllocationRequest)
    ensures RowsAllocated(db, db, [], request)
  {
    hide Replaces;
  }

  lemma {:induction false} AllocateSerialsKeep(db: Db, request: AllocationRequest, codes: seq<SerialNumber>)
    requires StockInv(db) && request.node in db.nodes && request.product in db.products && Unissued(db, codes)
    ensures var next := AllocateSerials(db, request, codes);
            StockInv(next) && RowsAllocated(db, next, codes, request) && next.commands == db.commands
    decreases |codes|
  {
    hide StockInv, AllocateSerial, Unissued, RowsAllocated, Tracked;
    if codes == [] {
      NoRows(db, request);
    } else {
      var next := AllocateSerial(db, request, codes[0]);
      UnissuedRest(db, request, codes);
      UntrackedStock(db, codes[0]);
      AllocateSerialKeeps(db, request, codes[0]);
      AllocateSerialsKeep(next, request, codes[1..]);
      OneRow(db, request, codes[0]);
      RowsTogether(db, next, AllocateSerials(next, request, codes[1..]), [codes[0]], codes[1..], codes, request);
    }
  }

  lemma UntrackedStock(db: Db, s: SerialNumber)
    requires StockInv(db) && s !in db.serials
    ensures s !in db.stock
  {
    hide Rows, Chains, Transit, Balanced;
    assert s !in db.serials.Keys;
  }

  /** The delivery commands of the parts from `part` on. */
  function PartCommands(request: AllocationRequest, id: Uuid, part: nat, codes: seq<SerialNumber>): (r: seq<Command>)
    decreases |codes|
  {
    if codes == [] then []
    else
      var size := PartSize(|codes|);
      [Command(request.node, QrAllocated(id, part, PartCount(request.quantity), request.product, codes[..size]), false)]
      + PartCommands(request, id, part + 1, codes[size..])
  }

  lemma UnissuedSplit(db: Db, next: Db, codes: seq<SerialNumber>, size: nat)
    requires Unissued(db, codes) && size <= |codes|
    requires next.serials.Keys == db.serials.Keys + (set s | s in codes[..size])
    ensures Unissued(next, codes[size..])
  {
    forall k | 0 <= k < |codes[size..]| ensures codes[size..][k] !in next.serials {
      assert codes[size..][k] == codes[size + k];
      assert codes[size + k] !in db.serials;
    }
  }

  lemma AllocatePartKeeps(db: Db, request: AllocationRequest, id: Uuid, part: nat, codes: seq<SerialNumber>)
    requires StockInv(db) && request.node in db.nodes && request.product in db.products && Unissued(db, codes)
    ensures var next := AllocatePart(db, request, id, part, codes);
            && StockInv(next) && RowsAllocated(db, next, codes, request)
            && next.commands == db.commands
               + [Command(request.node, QrAllocated(id, part, PartCount(request.quantity), request.product, codes), false)]
  {
    hide StockInv, AllocateSerials, Unissued;
    AllocateSerialsKeep(db, request, codes);
    var rows := AllocateSerials(db, request, codes);
    QueuedKeeps(rows, request.node, QrAllocated(id, part, PartCount(request.quantity), request.product, codes));
    SameSerials(rows, AllocatePart(db, request, id, part, codes));
    hide Replaces;
  }

  lemma {:induction false} AllocatePartsKeep(db: Db, request: AllocationRequest, id: Uuid, part: nat, codes: seq<SerialNumber>)
    requires StockInv(db) && request.node in db.nodes && request.product in db.products && Unissued(db, codes)
    ensures var next := AllocateParts(db, request, id, part, codes);
            && StockInv(next) && RowsAllocated(db, next, codes, request)
            && next.commands == db.commands + PartCommands(request, id, part, codes)
    decreases |codes|
  {
    hide StockInv, AllocatePart, Replaces;
    if codes != [] {
      var size := PartSize(|codes|);
      var next := AllocatePart(db, request, id, part, codes[..size]);
      assert Unissued(db, codes[..size]);
      AllocatePartKeeps(db, request, id, part, codes[..size]);
      UnissuedSplit(db, next, codes, size);
      AllocatePartsKeep(next, request, id, part + 1, codes[size..]);
      hide RowsAllocated;
      RowsTogether(db, next, AllocateParts(next, request, id, part + 1, codes[size..]), codes[..size], codes[size..], codes, request);
    }
  }

  /** The parts carry exactly the allocated serials, in order. */
  lemma {:induction false} PartsCarry(request: AllocationRequest, id: Uuid, part: nat, codes: seq<SerialNumber>)
    ensures AllocatedSerials(PartCommands(request, id, part, codes), request.node, id) == codes
    decreases |codes|
  {
    if codes != [] {
      var size := PartSize(|codes|);
      PartsCarry(request, id, part + 1, codes[size..]);
      assert codes == codes[..size] + codes[size..];
    }
  }

  lemma {:induction false} PartsAreOf(request: AllocationRequest, id: Uuid, part: nat, codes: seq<SerialNumber>)
    ensures forall i | 0 <= i < |PartCommands(request, id, part, codes)| ::
              var payload := PartCommands(request, id, part, codes)[i].payload; payload.QrAllocated? && payload.allocation == id
    decreases |codes|
  {
    if codes != [] {
      PartsAreOf(request, id, part + 1, codes[PartSize(|codes|)..]);
    }
  }

  lemma AllocateAllocations(db: Db, next: Db, request: AllocationRequest, id: Uuid, codes: seq<SerialNumber>)
    requires Allocations(db) && id !in db.allocations && |codes| == request.quantity
    requires next.allocations == db.allocations[id := request]
    requires next.commands == db.commands + PartCommands(request, id, 1, codes)
    ensures Allocations(next)
    ensures AllocatedSerials(next.commands, request.node, id) == codes
  {
    var parts := PartCommands(request, id, 1, codes);
    PartsCarry(request, id, 1, codes);
    PartsAreOf(request, id, 1, codes);
    AllocatedConcat(db.commands, parts, request.node, id);
    AllocatedNone(db.commands, request.node, id);
    forall a | a in next.allocations
      ensures |AllocatedSerials(next.commands, next.allocations[a].node, a)| == next.allocations[a].quantity
    {
      if a != id {
        var n := next.allocations[a].node;
        AllocatedConcat(db.commands, parts, n, a);
        AllocatedNone(parts, n, a);
      }
    }
  }

  lemma PartsExtend(db: Db, next: Db, request: AllocationRequest, id: Uuid, codes: seq<SerialNumber>)
    requires next.commands == db.commands + PartCommands(request, id, 1, codes)
    ensures NoNewReceipt(db.commands, next.commands)
  {
    PartsAreOf(request, id, 1, codes);
  }

  lemma RowsLedger(db: Db, next: Db, request: AllocationRequest, codes: seq<SerialNumber>)
    requires Ledger(db) && RowsAllocated(db, next, codes, request) && NoNewReceipt(db.commands, next.commands)
    ensures Ledger(next)
  {
    hide Receipts, Intents, SameReplacements;
    ReceiptsFrame(db, next);
    IntentsFrame(db, next);
  }

  lemma JournalFrame(db: Db, next: Db)
    requires Journal(db) && next.journal == db.journal && db.nodes.Keys <= next.nodes.Keys
    requires forall n | n in db.nodes :: next.nodes[n].lastSequence == db.nodes[n].lastSequence
    requires forall n | n in next.nodes && n !in db.nodes :: next.nodes[n].lastSequence == 0
    ensures Journal(next)
  {
    forall n, q | n in next.nodes && 1 <= q <= next.nodes[n].lastSequence ensures SequenceUsed(next, n, q) {
      assert SequenceUsed(db, n, q);
    }
  }

  /** Products, product order, history, allocations, intents and commands may differ; the stock tables do not. */
  ghost predicate SameStock(db: Db, next: Db) {
    && next.serials == db.serials && next.nextId == db.nextId && next.stock == db.stock
    && next.batches == db.batches && next.batchItems == db.batchItems
    && next.transfers == db.transfers && next.transferItems == db.transferItems
    && next.nodes == db.nodes && next.enrolled == db.enrolled && next.journal == db.journal
    && db.products.Keys <= next.products.Keys
  }

  lemma SameStockOutside(db: Db, next: Db)
    requires StockInv(db) && SameStock(db, next)
    ensures OutsideStock(db, next)
  {
    hide Rows, Chains, Transit, Balanced;
  }

  lemma SameStockKeeps(db: Db, next: Db)
    requires StockInv(db) && SameStock(db, next)
    ensures StockInv(next)
  {
    hide StockInv, OutsideStock, SameStock;
    SameStockOutside(db, next);
    OutsideKeeps(db, next);
  }

  lemma SameStockLedger(db: Db, next: Db)
    requires Receipts(db) && SameStock(db, next) && NoNewReceipt(db.commands, next.commands)
    ensures Receipts(next)
    ensures Intents(db) && next.intents == db.intents ==> Intents(next)
  {
    hide Receipts, Intents, SameReplacements, NoNewReceipt;
    ReceiptsFrame(db, next);
    SameSerials(db, next);
    if Intents(db) && next.intents == db.intents {
      assert Extends(db.commands, next.commands) by { hide *; NoNewExtends(db.commands, next.commands); }
      IntentsFrame(db, next);
    }
  }

  lemma NoNewExtends(commands: seq<Command>, next: seq<Command>)
    requires NoNewReceipt(commands, next)
    ensures Extends(commands, next)
  {
  }

  lemma RecordAllocation(db: Db, request: AllocationRequest, id: Uuid)
    requires StockInv(db) && Ledger(db)
    ensures var next := db.(allocations := db.allocations[id := request]); StockInv(next) && Ledger(next)
  {
    hide StockInv, Receipts, Intents;
    var next := db.(allocations := db.allocations[id := request]);
    assert SameStock(db, next);
    assert NoNewReceipt(db.commands, next.commands);
    assert next.intents == db.intents;
    hide SameStock, NoNewReceipt;
    SameStockKeeps(db, next);
    SameStockLedger(db, next);
  }

  /** A new allocation keeps the invariant, and its commands carry exactly its serials. */
  lemma NewAllocationKeeps(db: Db, request: AllocationRequest, id: Uuid, codes: seq<SerialNumber>)
    requires Inv(db) && |codes| == request.quantity && CheckAllocation(db, request).None?
    requires id !in db.allocations && Unissued(db, codes)
    ensures var next := Allocate(db, request, id, codes).value.0;
            && Inv(next) && AllocatedSerials(next.commands, request.node, id) == codes
            && next.commands == db.commands + PartCommands(request, id, 1, codes)
            && RowsAllocated(db.(allocations := db.allocations[id := request]), next, codes, request)
  {
    hide StockInv, Ledger, Journal, Vouchers, Catalogue, Allocations, AllocateParts, RowsAllocated;
    var recorded := db.(allocations := db.allocations[id := request]);
    var next := Allocate(db, request, id, codes).value.0;
    RecordAllocation(db, request, id);
    AllocatePartsKeep(recorded, request, id, 1, codes);
    RowsSame(recorded, next, codes, request);
    AllocateAllocations(db, next, request, id, codes);
    PartsExtend(recorded, next, request, id, codes);
    RowsLedger(recorded, next, request, codes);
    JournalFrame(db, next);
    VouchersFrame(db, next);
    CatalogueFrame(db, next);
  }

  lemma RowsSame(db: Db, next: Db, codes: seq<SerialNumber>, request: AllocationRequest)
    requires RowsAllocated(db, next, codes, request)
    ensures next.allocations == db.allocations && next.nodes == db.nodes && next.products == db.products
    ensures next.productOrder == db.productOrder && next.journal == db.journal && next.batches == db.batches
  {
    hide SameReplacements;
  }

  lemma VouchersFrame(db: Db, next: Db)
    requires Vouchers(db) && next.batches == db.batches && next.journal == db.journal
    ensures Vouchers(next)
  {
  }

  // ---------------------------------------------------------------- reserving a replacement

  lemma ReserveQueued(db: Db, n: NodeCode, s: SerialNumber, code: SerialNumber)
    requires IntentsQueued(db) && s in db.serials && s in db.stock
    ensures IntentsQueued(Reserve(db, n, s, code))
  {
    var next := Reserve(db, n, s, code);
    assert |next.commands| == |db.commands| + 1;
    assert forall i :: 0 <= i < |db.commands| ==> next.commands[i] == db.commands[i];
  }

  lemma ReserveMatches(db: Db, n: NodeCode, s: SerialNumber, code: SerialNumber)
    requires IntentsMatch(db) && Tracked(db, s) && s !in db.intents
    ensures IntentsMatch(Reserve(db, n, s, code))
  {
    SameSerials(db, Reserve(db, n, s, code));
    assert !Replaces(db, s, code);
    hide Replaces;
  }

  lemma ReserveIntents(db: Db, n: NodeCode, s: SerialNumber, code: SerialNumber)
    requires Intents(db) && Tracked(db, s) && s !in db.intents && Reservable(db, code)
    ensures Intents(Reserve(db, n, s, code))
  {
    ReserveQueued(db, n, s, code);
    ReserveMatches(db, n, s, code);
    hide IntentsQueued, IntentsMatch;
  }

  lemma ReserveOnly(db: Db, n: NodeCode, s: SerialNumber, code: SerialNumber)
    requires s in db.stock
    ensures var next := Reserve(db, n, s, code);
            && SameStock(db, next) && NoNewReceipt(db.commands, next.commands)
            && next.allocations == db.allocations && next.productOrder == db.productOrder && next.products == db.products
            && forall i :: |db.commands| <= i < |next.commands| ==> !next.commands[i].payload.QrAllocated?
  {
  }

  lemma RowsOf(db: Db)
    requires Inv(db)
    ensures Rows(db)
  {
    hide Keys, Rows, Chains, Transit, Balanced, Ledger, Journal, Vouchers, Catalogue, Allocations;
  }

  lemma ReserveKeeps(db: Db, n: NodeCode, s: SerialNumber, code: SerialNumber)
    requires Inv(db) && Tracked(db, s) && s !in db.intents && Reservable(db, code)
    ensures Inv(Reserve(db, n, s, code))
  {
    var next := Reserve(db, n, s, code);
    hide StockInv, Rows, Receipts, Intents, Journal, Vouchers, Catalogue, Allocations, Reservable, Reserve, NoNewReceipt, Extends;
    RowsOf(db);
    ReserveIntents(db, n, s, code);
    ReserveOnly(db, n, s, code);
    NoNewExtends(db.commands, next.commands);
    SameStockKeeps(db, next);
    SameStockLedger(db, next);
    JournalFrame(db, next);
    VouchersFrame(db, next);
    CatalogueFrame(db, next);
    AllocationsFrame(db, next);
  }

  lemma RequestKeeps(db: Db, n: NodeCode, s: SerialNumber, candidates: seq<SerialNumber>)
    requires Inv(db) && |candidates| == SERIAL_ATTEMPTS && RequestReplacement(db, n, s, candidates).Ok?
    ensures Inv(RequestReplacement(db, n, s, candidates).value)
  {
    hide Inv, Reserve, Reservable, CheckRequest, FirstReservable;
    ReserveKeeps(db, n, s, FirstReservable(db, candidates).value);
  }

  // ---------------------------------------------------------------- nodes and acknowledgements

  lemma OnlyNodesKeeps(db: Db, next: Db)
    requires Inv(db) && OnlyNodes(db, next) && next.journal == db.journal
    requires forall n | n in db.nodes :: next.nodes[n].lastSequence == db.nodes[n].lastSequence
    requires forall n | n in next.nodes && n !in db.nodes :: next.nodes[n].lastSequence == 0
    ensures Inv(next)
  {
    hide StockInv, Ledger, Journal, Vouchers, Catalogue, Allocations, Extends;
    NodesKeep(db, next);
    JournalFrame(db, next);
    VouchersFrame(db, next);
  }

  lemma MarkExtends(commands: seq<Command>, index: nat)
    requires index < |commands|
    ensures Extends(commands, commands[index := commands[index].(acknowledged := true)])
  {
  }

  lemma AcknowledgeKeeps(db: Db, n: NodeCode, index: nat)
    requires Inv(db)
    ensures Inv(Acknowledge(db, n, index))
  {
    hide Inv, Extends;
    if index < |db.commands| && db.commands[index].target == n {
      MarkExtends(db.commands, index);
      OnlyNodesKeeps(db, Acknowledge(db, n, index));
    }
  }

  lemma AddNodeKeeps(db: Db, n: NodeCode, godown: Option<string>)
    requires Inv(db) && n !in db.nodes
    ensures Inv(db.(nodes := db.nodes[n := Node(true, godown, 0)]))
  {
    hide Inv;
    OnlyNodesKeeps(db, db.(nodes := db.nodes[n := Node(true, godown, 0)]));
  }

  lemma SetActiveKeeps(db: Db, n: NodeCode, active: bool)
    requires Inv(db) && n in db.nodes
    ensures Inv(db.(nodes := db.nodes[n := db.nodes[n].(active := active)]))
  {
    hide Inv;
    OnlyNodesKeeps(db, db.(nodes := db.nodes[n := db.nodes[n].(active := active)]));
  }

  // ---------------------------------------------------------------- products

  /** Only products, their order and history, and commands that carry no receipt or allocation, differ. */
  ghost predicate OnlyProducts(db: Db, next: Db) {
    && SameStock(db, next) && next.intents == db.intents && next.allocations == db.allocations
    && NoNewReceipt(db.commands, next.commands)
    && forall i :: |db.commands| <= i < |next.commands| ==> !next.commands[i].payload.QrAllocated?
  }

  lemma OnlyProductsKeeps(db: Db, next: Db)
    requires Inv(db) && OnlyProducts(db, next) && Catalogue(next)
    ensures Inv(next)
  {
    hide StockInv, Receipts, Intents, Journal, Vouchers, Catalogue, Allocations, NoNewReceipt, Extends;
    NoNewExtends(db.commands, next.commands);
    SameStockKeeps(db, next);
    SameStockLedger(db, next);
    JournalFrame(db, next);
    VouchersFrame(db, next);
    AllocationsFrame(db, next);
  }

  lemma WithProductCatalogue(db: Db, code: ProductCode, product: Product)
    requires Catalogue(db) && code !in db.products
    ensures Catalogue(WithProduct(db, code, product))
  {
    assert code !in db.productOrder;
  }

  lemma AddProductKeeps(db: Db, code: ProductCode, product: Product)
    requires Inv(db) && code !in db.products
    ensures Inv(WithProduct(db, code, product))
  {
    hide StockInv, Ledger, Journal, Vouchers, Catalogue, Allocations;
    WithProductCatalogue(db, code, product);
    var next := WithProduct(db, code, product);
    assert OnlyProducts(db, next);
    hide Inv, OnlyProducts, WithProduct;
    OnlyProductsKeeps(db, next);
  }

  lemma ImportProductKeeps(db: Db, code: ProductCode, product: Product)
    requires Inv(db) && code !in db.products
    ensures Inv(Queued(WithProduct(db, code, product), code.franchise, ProductUpsert(code, product)))
  {
    hide StockInv, Ledger, Journal, Vouchers, Catalogue, Allocations;
    var added := WithProduct(db, code, product);
    WithProductCatalogue(db, code, product);
    AddProductKeeps(db, code, product);
    NothingOnly(added);
    UpsertOnly(added, added, code.franchise, code, product);
    var next := Queued(added, code.franchise, ProductUpsert(code, product));
    CatalogueFrame(added, next);
    hide Inv, OnlyProducts, WithProduct;
    OnlyProductsKeeps(added, next);
  }

  lemma LinkProductKeeps(db: Db, code: ProductCode, product: Product)
    requires Inv(db) && code in db.products
    ensures Inv(db.(products := db.products[code := product]))
  {
    hide StockInv, Ledger, Journal, Vouchers, Catalogue, Allocations, OnlyProducts;
    var next := db.(products := db.products[code := product]);
    assert next.products.Keys == db.products.Keys;
    ProductRowOnly(db, code, product);
    CatalogueFrame(db, next);
    OnlyProductsKeeps(db, next);
  }

  lemma ReviewKeeps(db: Db, n: NodeCode, receipt: Uuid, decision: ReceiptStatus, remarks: string)
    requires Inv(db)
    ensures Inv(Reviewed(db, n, receipt, decision, remarks))
  {
    var next := Reviewed(db, n, receipt, decision, remarks);
    hide StockInv, Ledger, Journal, Vouchers, Catalogue, Allocations;
    ReviewOnly(db, n, receipt, decision, remarks);
    CatalogueFrame(db, next);
    hide Inv, OnlyProducts, Reviewed;
    OnlyProductsKeeps(db, next);
  }

  lemma ReviewOnly(db: Db, n: NodeCode, receipt: Uuid, decision: ReceiptStatus, remarks: string)
    ensures var next := Reviewed(db, n, receipt, decision, remarks);
            OnlyProducts(db, next) && next.products == db.products && next.productOrder == db.productOrder
  {
    var next := Reviewed(db, n, receipt, decision, remarks);
    NothingOnly(db);
    var told := if decision.Denied? then remarks else "";
    var receipts := db.receipts[(n, receipt) := decision];
    ReviewedOnly(db, receipts, n, ReceiptReviewed(receipt, decision, told));
    assert next == db || next == Queued(db.(receipts := receipts), n, ReceiptReviewed(receipt, decision, told));
    hide Reviewed, OnlyProducts;
  }

  lemma ReviewedOnly(db: Db, receipts: map<(NodeCode, Uuid), ReceiptStatus>, n: NodeCode, payload: Payload)
    requires payload.ReceiptReviewed?
    ensures var next := Queued(db.(receipts := receipts), n, payload);
            OnlyProducts(db, next) && next.products == db.products && next.productOrder == db.productOrder
  {
  }

  lemma NothingOnly(db: Db)
    ensures OnlyProducts(db, db)
  {
  }

  lemma ProductRowOnly(db: Db, code: ProductCode, product: Product)
    requires code in db.products
    ensures OnlyProducts(db, db.(products := db.products[code := product]))
  {
  }

  lemma HistoryRowOnly(db: Db, next: Db, row: ReplacedIdentity)
    requires OnlyProducts(db, next)
    ensures OnlyProducts(db, next.(identityHistory := next.identityHistory + [row]))
  {
    hide NoNewReceipt;
  }

  lemma UpsertOnly(db: Db, next: Db, n: NodeCode, code: ProductCode, product: Product)
    requires OnlyProducts(db, next) && next.commands == db.commands
    ensures OnlyProducts(db, Queued(next, n, ProductUpsert(code, product)))
  {
  }

  lemma SyncProductOnly(db: Db, items: seq<TallyItem>, now: int, code: ProductCode)
    requires code in db.products
    ensures var next := SyncProduct(db, items, now, code); OnlyProducts(db, next) && next.productOrder == db.productOrder
  {
    var product := db.products[code];
    var item := MatchedItem(items, product);
    hide MatchedItem, Changed, TargetIdentity, SyncedProduct, OnlyProducts;
    if item.None? {
      NothingOnly(db);
    } else {
      var synced := SyncedProduct(product, item.value, now);
      var next := db.(products := db.products[code := synced]);
      var row := ReplacedIdentity(code, product.identity, now);
      ProductRowOnly(db, code, synced);
      HistoryRowOnly(db, next, row);
      UpsertOnly(db, next.(identityHistory := next.identityHistory + [row]), code.franchise, code, synced);
    }
  }

  lemma SyncProductKeeps(db: Db, items: seq<TallyItem>, now: int, code: ProductCode)
    requires Inv(db) && code in db.products
    ensures Inv(SyncProduct(db, items, now, code))
  {
    hide StockInv, Ledger, Journal, Vouchers, Catalogue, Allocations, SyncProduct, OnlyProducts;
    SyncProductOnly(db, items, now, code);
    CatalogueFrame(db, SyncProduct(db, items, now, code));
    OnlyProductsKeeps(db, SyncProduct(db, items, now, code));
  }

  lemma {:induction false} SyncProductsKeep(db: Db, items: seq<TallyItem>, now: int, codes: seq<ProductCode>)
    requires Inv(db) && AllProducts(db, codes)
    ensures Inv(SyncProducts(db, items, now, codes).0)
    decreases |codes|
  {
    hide Inv, SyncProduct, Updates, NotInTally;
    if codes != [] {
      SyncProductKeeps(db, items, now, codes[0]);
      var next := SyncProduct(db, items, now, codes[0]);
      assert forall k :: 0 <= k < |codes[1..]| ==> codes[1..][k] in db.products.Keys;
      SyncProductsKeep(next, items, now, codes[1..]);
    }
  }

  // ---------------------------------------------------------------- any action, any run

  lemma AllocateKeeps(db: Db, request: AllocationRequest, id: Uuid, codes: seq<SerialNumber>)
    requires Inv(db) && |codes| == request.quantity && Allocate(db, request, id, codes).Ok?
    ensures Inv(Allocate(db, request, id, codes).value.0)
  {
    hide Inv, CheckAllocation, Unissued, AllocateParts, AllocatedSerials;
    if id !in db.allocations {
      NewAllocationKeeps(db, request, id, codes);
    }
  }

  lemma StepKeeps(db: Db, a: Action)
    requires Inv(db)
    ensures Inv(Step(db, a))
  {
    hide Inv, PostEvents, Allocate, RequestReplacement, Acknowledge, SyncProducts, LinkedCodes, Reviewed, WithProduct, Queued, Linked,
      ValidGst, WellShaped;
    if Admissible(db, a) {
      match a {
        case Post(n, now, limit, events) => PostKeeps(db, n, now, limit, events);
        case AllocateQr(request, id, codes) =>
          if Allocate(db, request, id, codes).Ok? {
            AllocateKeeps(db, request, id, codes);
          }
        case ReserveQr(n, s, candidates) =>
          if RequestReplacement(db, n, s, candidates).Ok? {
            RequestKeeps(db, n, s, candidates);
          }
        case AcknowledgeCommand(n, index) => AcknowledgeKeeps(db, n, index);
        case LiveSync(items, now) => SyncProductsKeep(db, items, now, LinkedCodes(db, db.productOrder));
        case AddNode(n, godown) => AddNodeKeeps(db, n, godown);
        case SetActive(n, active) => SetActiveKeeps(db, n, active);
        case AddProduct(code, product) => AddProductKeeps(db, code, product);
        case ImportProduct(code, product) => ImportProductKeeps(db, code, product);
        case LinkProduct(code, item, now) => LinkProductKeeps(db, code, Linked(db.products[code], item, now));
        case ReviewReceipt(n, receipt, decision, remarks) => ReviewKeeps(db, n, receipt, decision, remarks);
      }
    }
  }

  /** The invariant holds after any actions, in any order, from an empty database. */
  lemma {:induction false} RunKeeps(actions: seq<Action>)
    ensures Inv(Run(EMPTY_DB, actions))
  {
    hide Inv, Step;
    if actions == [] {
      EmptyInv();
    } else {
      RunKeeps(actions[..|actions| - 1]);
      StepKeeps(Run(EMPTY_DB, actions[..|actions| - 1]), actions[|actions| - 1]);
    }
  }
}
