/** What one QR allocation issues, and that asking again under the same request id changes nothing. */
module AllocationTheorems {
  import opened Records
  import opened NetworkDb
  import opened NetworkIngest
  import opened QrAllocation
  import opened QrReplacementIntent
  import opened TallyProducts
  import opened StockInvariants
  import opened LedgerInvariants
  import opened MasterSystem
  import opened SystemSteps

  // ---------------------------------------------------------------- the parts

  /** Part `i` of an allocation: numbered from `part`, 1 to 500 serials, and only the last may be short. */
  ghost predicate IsPart(command: Command, request: AllocationRequest, id: Uuid, number: nat, last: bool) {
    && command.target == request.node
    && command.payload.QrAllocated?
    && command.payload.allocation == id
    && command.payload.part == number
    && command.payload.partCount == PartCount(request.quantity)
    && command.payload.product == request.product
    && 1 <= |command.payload.serials| <= COMMAND_ITEMS
    && (!last ==> |command.payload.serials| == COMMAND_ITEMS)
  }

  lemma {:induction false} PartsShape(request: AllocationRequest, id: Uuid, part: nat, codes: seq<SerialNumber>)
    ensures var parts := PartCommands(request, id, part, codes);
            && |parts| == PartCount(|codes|)
            && forall i :: 0 <= i < |parts| ==> IsPart(parts[i], request, id, part + i, i == |parts| - 1)
    decreases |codes|
  {
    if codes != [] {
      var size := PartSize(|codes|);
      PartsShape(request, id, part + 1, codes[size..]);
      var parts, rest := PartCommands(request, id, part, codes), PartCommands(request, id, part + 1, codes[size..]);
      assert parts[1..] == rest;
      forall i | 0 <= i < |parts| ensures IsPart(parts[i], request, id, part + i, i == |parts| - 1) {
        if i > 0 {
          assert parts[i] == rest[i - 1];
        }
      }
    }
  }

  /**
   A new allocation of 1 to 5000 serials issues ceil(quantity / 500) numbered parts whose serials, joined,
   are the returned list, and one GENERATED stock row of the franchise for each serial, and no other row.
   */
  lemma NewAllocation(actions: seq<Action>, request: AllocationRequest, id: Uuid, codes: seq<SerialNumber>)
    requires var db := Run(EMPTY_DB, actions);
             |codes| == request.quantity && CheckAllocation(db, request).None? && id !in db.allocations && Unissued(db, codes)
    ensures var db := Run(EMPTY_DB, actions);
            && Allocate(db, request, id, codes).Ok?
            && var (next, returned) := Allocate(db, request, id, codes).value;
               && returned == codes
               && (exists parts: seq<Command> ::
                    && next.commands == db.commands + parts
                    && |parts| == (request.quantity + 499) / 500
                    && (forall i :: 0 <= i < |parts| ==> IsPart(parts[i], request, id, i + 1, i == |parts| - 1))
                    && AllocatedSerials(parts, request.node, id) == codes)
               && RowsAllocated(db.(allocations := db.allocations[id := request]), next, codes, request)
  {
    var db := Run(EMPTY_DB, actions);
    RunKeeps(actions);
    hide Inv, Run, CheckAllocation, Unissued, AllocateParts, RowsAllocated, IsPart;
    NewAllocationKeeps(db, request, id, codes);
    PartsShape(request, id, 1, codes);
    PartsCarry(request, id, 1, codes);
    var parts := PartCommands(request, id, 1, codes);
    assert forall i :: 0 <= i < |parts| ==> IsPart(parts[i], request, id, i + 1, i == |parts| - 1);
  }

  // ---------------------------------------------------------------- recorded allocations never change

  /** Every recorded allocation is still recorded, and its commands carry the same serials. */
  ghost predicate AllocationsKept(db: Db, next: Db) {
    forall a | a in db.allocations ::
      && a in next.allocations && next.allocations[a] == db.allocations[a]
      && AllocatedSerials(next.commands, db.allocations[a].node, a) == AllocatedSerials(db.commands, db.allocations[a].node, a)
  }

  lemma NoAllocationKept(db: Db, next: Db)
    requires next.allocations == db.allocations && Extends(db.commands, next.commands)
    requires forall i :: |db.commands| <= i < |next.commands| ==> !next.commands[i].payload.QrAllocated?
    ensures AllocationsKept(db, next)
  {
    forall a | a in db.allocations
      ensures AllocatedSerials(next.commands, db.allocations[a].node, a) == AllocatedSerials(db.commands, db.allocations[a].node, a)
    {
      AllocatedFrame(db.commands, next.commands, db.allocations[a].node, a);
    }
  }

  lemma SameKept(db: Db)
    ensures AllocationsKept(db, db)
  {
  }

  lemma KeptTwice(db: Db, mid: Db, last: Db)
    requires AllocationsKept(db, mid) && AllocationsKept(mid, last)
    ensures AllocationsKept(db, last)
  {
  }

  lemma AcceptKeepsAllocations(db: Db, n: NodeCode, now: int, e: Event)
    requires Inv(db) && n in db.nodes && WellShaped(e) && AcceptEvent(db, n, now, e).Ok?
    ensures AllocationsKept(db, AcceptEvent(db, n, now, e).value.0)
  {
    hide StockInv, Ledger, Journal, Vouchers, Catalogue, Allocations, ApplyEvent, NewBatch, Extends, AllocatedSerials, SequenceUsed;
    ApplyEventLedger(db, n, e);
    NoAllocationKept(db, AcceptEvent(db, n, now, e).value.0);
  }

  lemma {:induction false} IngestKeepsAllocations(db: Db, n: NodeCode, now: int, events: seq<Event>)
    requires Inv(db) && n in db.nodes && (forall k :: 0 <= k < |events| ==> WellShaped(events[k]))
    requires IngestEvents(db, n, now, events).Ok?
    ensures AllocationsKept(db, IngestEvents(db, n, now, events).value.0)
    decreases |events|
  {
    hide Inv, AcceptEvent, AllocatedSerials;
    if events != [] {
      var next := IngestEvent(db, n, now, events[0]).value.0;
      if events[0].id !in db.journal {
        AcceptKeeps(db, n, now, events[0]);
        AcceptKeepsAllocations(db, n, now, events[0]);
      }
      IngestKeepsAllocations(next, n, now, events[1..]);
      hide AllocationsKept;
      KeptTwice(db, next, IngestEvents(next, n, now, events[1..]).value.0);
    }
  }

  lemma AllocateKeepsAllocations(db: Db, request: AllocationRequest, id: Uuid, codes: seq<SerialNumber>)
    requires Inv(db) && |codes| == request.quantity && CheckAllocation(db, request).None?
    requires id !in db.allocations && Unissued(db, codes)
    ensures AllocationsKept(db, Allocate(db, request, id, codes).value.0)
  {
    hide Inv, CheckAllocation, Unissued, AllocateParts, RowsAllocated;
    NewAllocationKeeps(db, request, id, codes);
    var next := Allocate(db, request, id, codes).value.0;
    var parts := PartCommands(request, id, 1, codes);
    PartsAreOf(request, id, 1, codes);
    RowsSame(db.(allocations := db.allocations[id := request]), next, codes, request);
    forall a | a in db.allocations
      ensures AllocatedSerials(next.commands, db.allocations[a].node, a) == AllocatedSerials(db.commands, db.allocations[a].node, a)
    {
      AllocatedConcat(db.commands, parts, db.allocations[a].node, a);
      AllocatedNone(parts, db.allocations[a].node, a);
    }
  }

  lemma {:induction false} SyncKeepsAllocations(db: Db, items: seq<TallyItem>, now: int, codes: seq<ProductCode>)
    requires AllProducts(db, codes)
    ensures AllocationsKept(db, SyncProducts(db, items, now, codes).0)
    decreases |codes|
  {
    hide SyncProduct, Updates, NotInTally, AllocatedSerials;
    if codes != [] {
      var next := SyncProduct(db, items, now, codes[0]);
      SyncProductOnly(db, items, now, codes[0]);
      assert NoNewReceipt(db.commands, next.commands);
      NoAllocationKept(db, next);
      assert forall k :: 0 <= k < |codes[1..]| ==> codes[1..][k] in db.products.Keys;
      SyncKeepsAllocations(next, items, now, codes[1..]);
      hide AllocationsKept;
      KeptTwice(db, next, SyncProducts(next, items, now, codes[1..]).0);
    }
  }

  lemma ReserveKeepsAllocations(db: Db, n: NodeCode, s: SerialNumber, candidates: seq<SerialNumber>)
    requires |candidates| == SERIAL_ATTEMPTS && RequestReplacement(db, n, s, candidates).Ok?
    ensures AllocationsKept(db, RequestReplacement(db, n, s, candidates).value)
  {
    hide CheckRequest, FirstReservable, AllocatedSerials;
    NoAllocationKept(db, RequestReplacement(db, n, s, candidates).value);
  }

  lemma ReviewKeepsAllocations(db: Db, n: NodeCode, receipt: Uuid, decision: ReceiptStatus, remarks: string)
    ensures AllocationsKept(db, Reviewed(db, n, receipt, decision, remarks))
  {
    ReviewOnly(db, n, receipt, decision, remarks);
    hide Reviewed, AllocatedSerials;
    NoAllocationKept(db, Reviewed(db, n, receipt, decision, remarks));
  }

  lemma AcknowledgeKeepsAllocations(db: Db, n: NodeCode, index: nat)
    ensures AllocationsKept(db, Acknowledge(db, n, index))
  {
    hide AllocatedSerials, AllocationsKept, Extends;
    if index < |db.commands| && db.commands[index].target == n {
      MarkExtends(db.commands, index);
      NoAllocationKept(db, Acknowledge(db, n, index));
    } else {
      SameKept(db);
    }
  }

  lemma StepKeepsAllocations(db: Db, a: Action)
    requires Inv(db)
    ensures AllocationsKept(db, Step(db, a))
  {
    hide Inv, IngestEvents, AllocateParts, CheckAllocation, Unissued, RequestReplacement, Acknowledge, SyncProducts, LinkedCodes, AllocatedSerials, Reviewed;
    if Admissible(db, a) {
      match a {
        case Post(n, now, limit, events) =>
          if IngestEvents(db, n, now, events).Ok? {
            IngestKeepsAllocations(db, n, now, events);
          }
        case AllocateQr(request, id, codes) =>
          if Allocate(db, request, id, codes).Ok? && id !in db.allocations {
            AllocateKeepsAllocations(db, request, id, codes);
          }
        case ReserveQr(n, s, candidates) =>
          if RequestReplacement(db, n, s, candidates).Ok? {
            ReserveKeepsAllocations(db, n, s, candidates);
          }
        case AcknowledgeCommand(n, index) => AcknowledgeKeepsAllocations(db, n, index);
        case ImportProduct(code, product) => NoAllocationKept(db, Step(db, a));
        case ReviewReceipt(n, receipt, decision, remarks) => ReviewKeepsAllocations(db, n, receipt, decision, remarks);
        case LiveSync(items, now) => SyncKeepsAllocations(db, items, now, LinkedCodes(db, db.productOrder));
        case _ =>
      }
    }
  }

  lemma {:induction false} RunKeepsAllocations(db: Db, actions: seq<Action>)
    requires Inv(db)
    ensures AllocationsKept(db, Run(db, actions)) && Inv(Run(db, actions))
    decreases |actions|
  {
    hide Inv, Step, AllocatedSerials;
    if actions != [] {
      var before := actions[..|actions| - 1];
      RunKeepsAllocations(db, before);
      StepKeeps(Run(db, before), actions[|actions| - 1]);
      StepKeepsAllocations(Run(db, before), actions[|actions| - 1]);
      hide AllocationsKept;
      KeptTwice(db, Run(db, before), Run(db, actions));
    }
  }

  // ---------------------------------------------------------------- main results

  /**
   An allocation asked for again under its request id, at any later time: the same body returns the same
   serials in the same order, another body is refused, and in neither case is anything changed.
   */
  lemma ReplayedAllocation(actions: seq<Action>, request: AllocationRequest, id: Uuid, codes: seq<SerialNumber>,
                           later: seq<Action>, again: AllocationRequest, unused: seq<SerialNumber>)
    requires var db := Run(EMPTY_DB, actions);
             |codes| == request.quantity && CheckAllocation(db, request).None? && id !in db.allocations && Unissued(db, codes)
    requires var after := Run(Allocate(Run(EMPTY_DB, actions), request, id, codes).value.0, later);
             |unused| == again.quantity && CheckAllocation(after, again).None?
    ensures var after := Run(Allocate(Run(EMPTY_DB, actions), request, id, codes).value.0, later);
            && Allocate(after, again, id, unused) == (if again == request then Ok((after, codes)) else Err(RequestIdReused))
            && Step(after, AllocateQr(again, id, unused)) == after
  {
    var db := Run(EMPTY_DB, actions);
    RunKeeps(actions);
    hide Inv, CheckAllocation, Unissued, AllocateParts, Run, AllocatedSerials;
    NewAllocationKeeps(db, request, id, codes);
    var next := Allocate(db, request, id, codes).value.0;
    RowsSame(db.(allocations := db.allocations[id := request]), next, codes, request);
    RunKeepsAllocations(next, later);
  }

  /** No reachable state holds an incomplete allocation. */
  lemma NeverIncomplete(actions: seq<Action>, request: AllocationRequest, id: Uuid, codes: seq<SerialNumber>)
    requires |codes| == request.quantity
    ensures Allocate(Run(EMPTY_DB, actions), request, id, codes) != Err(IncompleteAllocation)
  {
    RunKeeps(actions);
    hide StockInv, Ledger, Journal, Vouchers, Catalogue, Run, Unissued, AllocateParts;
  }
}
