/** A QR replacement intent is consumed at most once, and for good. */
module IntentTheorems {
  import opened Records
  import opened NetworkDb
  import opened NetworkIngest
  import opened QrAllocation
  import opened QrReplacementIntent
  import opened TallyProducts
  import opened StockInvariants
  import opened StockSteps
  import opened EventInvariants
  import opened LedgerInvariants
  import opened MasterSystem
  import opened SystemSteps
  import opened Frames
  import opened AllocationTheorems

  /** Every intent is still there, with at most its completion added. */
  ghost predicate IntentsKept(db: Db, next: Db) {
    forall o | o in db.intents ::
      && o in next.intents
      && (next.intents[o] == db.intents[o] || next.intents[o] == db.intents[o].(completed := true))
  }

  lemma SameIntents(db: Db, next: Db)
    requires next.intents == db.intents
    ensures IntentsKept(db, next)
  {
  }

  lemma KeptBoth(db: Db, mid: Db, last: Db)
    requires IntentsKept(db, mid) && IntentsKept(mid, last)
    ensures IntentsKept(db, last)
  {
  }

  lemma ReplacementIntents(db: Db, n: NodeCode, e: Event)
    requires n in db.nodes && ReplacementSnapshot(db, n, e).Ok?
    ensures IntentsKept(db, ReplacementSnapshot(db, n, e).value.0)
  {
    hide CheckReplacement, Replace;
    var first, second := e.items[0], e.items[1];
    var (prior, incoming) := if Tracked(db, first.serial) then (first, second) else (second, first);
    assert CheckReplacement(db, n, e, prior, incoming).Ok?;
    PriorHasIntent(db, n, e, prior, incoming);
    ReplaceCompletes(db, n, e, prior, incoming.serial);
  }

  lemma PriorHasIntent(db: Db, n: NodeCode, e: Event, prior: Item, incoming: Item)
    requires Tracked(db, prior.serial) && CheckReplacement(db, n, e, prior, incoming).Ok?
    ensures prior.serial in db.intents && !db.intents[prior.serial].completed
  {
    hide ValidateIdentity;
  }

  lemma SnapshotIntents(db: Db, n: NodeCode, e: Event)
    requires n in db.nodes && Snapshot(db, n, e).Ok?
    ensures IntentsKept(db, Snapshot(db, n, e).value.0)
  {
    hide SnapshotItems, ReplacementSnapshot, IntentsKept, Quiet, SameReplacements, IsInitialEnrollment;
    if e.reason.QrReplacement? {
      ReplacementIntents(db, n, e);
    } else {
      SnapshotItemsQuiet(db, n, e, IsInitialEnrollment(db, n, e), e.items);
      QuietIntents(db, Snapshot(db, n, e).value.0);
    }
  }

  lemma InventoryIntents(db: Db, n: NodeCode, e: Event)
    requires n in db.nodes && Inventory(db, n, e).Ok?
    ensures IntentsKept(db, Inventory(db, n, e).value.0)
  {
    hide InventoryItems, NewBatch, IntentsKept, Quiet, SameReplacements;
    var batched, next := db.(batches := db.batches[e.id := NewBatch(n, e)]), Inventory(db, n, e).value.0;
    InventoryItemsQuiet(batched, n, e, e.items);
    QuietIntents(batched, next);
    BatchedIntents(db, n, e);
    KeptBoth(db, batched, next);
  }

  lemma DispatchIntents(db: Db, n: NodeCode, e: Event)
    requires n in db.nodes && Dispatch(db, n, e).Ok?
    ensures IntentsKept(db, Dispatch(db, n, e).value.0)
  {
    hide Dispatch, IntentsKept, DispatchFrame;
    DispatchQuiet(db, n, e);
    FrameIntents(db, Dispatch(db, n, e).value.0);
    SameIntents(db, Dispatch(db, n, e).value.0);
  }

  lemma ReceiveIntents(db: Db, n: NodeCode, e: Event)
    requires n in db.nodes && WellShaped(e) && e.transferId.Some? && ReceiveTransfer(db, n, e).Ok?
    ensures IntentsKept(db, ReceiveTransfer(db, n, e).value.0)
  {
    hide ReceiveItems, IntentsKept, Quiet, SameReplacements, CloseReceipt, Listed, Open;
    var t := e.transferId.value;
    var landed := ReceiveItems(db, n, t, e, e.items).value;
    ReceiveItemsClose(db, n, t, e, e.items);
    QuietIntents(db, landed);
    CloseIntents(landed, t, e.items);
    KeptBoth(db, landed, CloseReceipt(landed, t, e.items));
  }

  lemma SubmitIntents(db: Db, n: NodeCode, id: Uuid)
    requires SubmitReceipt(db, n, id).Ok?
    ensures IntentsKept(db, SubmitReceipt(db, n, id).value.0)
  {
  }

  lemma ApplyIntents(db: Db, n: NodeCode, e: Event)
    requires n in db.nodes && WellShaped(e) && ApplyEvent(db, n, e).Ok?
    ensures IntentsKept(db, ApplyEvent(db, n, e).value.0)
  {
    hide Snapshot, Inventory, Dispatch, ReceiveTransfer, SubmitReceipt, IntentsKept, DistinctSerials;
    match e.kind {
      case StockSnapshot => SnapshotIntents(db, n, e);
      case TransferDispatched => DispatchIntents(db, n, e);
      case TransferReceived => ReceiveIntents(db, n, e);
      case ReceiptSubmitted => SubmitIntents(db, n, e.receiptId);
      case Heartbeat => SameIntents(db, db);
      case _ => InventoryIntents(db, n, e);
    }
  }

  lemma BatchedIntents(db: Db, n: NodeCode, e: Event)
    ensures IntentsKept(db, db.(batches := db.batches[e.id := NewBatch(n, e)]))
  {
  }

  lemma QuietIntents(db: Db, next: Db)
    requires Quiet(db, next)
    ensures IntentsKept(db, next)
  {
  }

  lemma FrameIntents(db: Db, next: Db)
    requires DispatchFrame(db, next)
    ensures next.intents == db.intents
  {
  }

  lemma CloseIntents(db: Db, t: Uuid, items: seq<Item>)
    requires t in db.transfers
    ensures IntentsKept(db, CloseReceipt(db, t, items))
  {
  }

  lemma {:induction false} IngestIntents(db: Db, n: NodeCode, now: int, events: seq<Event>)
    requires n in db.nodes && (forall k :: 0 <= k < |events| ==> WellShaped(events[k])) && IngestEvents(db, n, now, events).Ok?
    ensures IntentsKept(db, IngestEvents(db, n, now, events).value.0)
    decreases |events|
  {
    hide ApplyEvent, IntentsKept, SequenceUsed;
    if events == [] {
      SameIntents(db, db);
    } else {
      var e, next := events[0], IngestEvent(db, n, now, events[0]).value.0;
      if e.id in db.journal {
        SameIntents(db, next);
      } else {
        ApplyIntents(db, n, e);
        SameIntents(ApplyEvent(db, n, e).value.0, next);
        KeptBoth(db, ApplyEvent(db, n, e).value.0, next);
      }
      IngestIntents(next, n, now, events[1..]);
      KeptBoth(db, next, IngestEvents(next, n, now, events[1..]).value.0);
    }
  }

  lemma ReserveIntentsKept(db: Db, n: NodeCode, s: SerialNumber, candidates: seq<SerialNumber>)
    requires |candidates| == SERIAL_ATTEMPTS && RequestReplacement(db, n, s, candidates).Ok?
    ensures IntentsKept(db, RequestReplacement(db, n, s, candidates).value)
  {
    hide FirstReservable;
  }

  lemma StepIntents(db: Db, a: Action)
    ensures IntentsKept(db, Step(db, a))
  {
    hide IntentsKept, IngestEvents, AllocateParts, CheckAllocation, AllocatedSerials, Unissued, RequestReplacement, SyncProducts, LinkedCodes;
    var next := Step(db, a);
    if !Admissible(db, a) {
      SameIntents(db, next);
    } else {
      match a {
        case Post(n, now, limit, events) =>
          if IngestEvents(db, n, now, events).Ok? {
            IngestIntents(db, n, now, events);
          }
          SameIntents(db, db);
        case AllocateQr(request, id, codes) =>
          AllocatePartsFrame(db.(allocations := db.allocations[id := request]), request, id, 1, codes);
          SameIntents(db, next);
        case ReserveQr(n, s, candidates) =>
          if RequestReplacement(db, n, s, candidates).Ok? {
            ReserveIntentsKept(db, n, s, candidates);
          } else {
            SameIntents(db, next);
          }
        case LiveSync(items, now) =>
          SyncProductsFrame(db, items, now, LinkedCodes(db, db.productOrder));
          SameIntents(db, next);
        case ReviewReceipt(n, receipt, decision, remarks) =>
          ReviewedFrame(db, n, receipt, decision, remarks);
          SameIntents(db, next);
        case _ => SameIntents(db, next);
      }
    }
  }

  lemma {:induction false} RunIntents(db: Db, actions: seq<Action>)
    requires Inv(db)
    ensures IntentsKept(db, Run(db, actions)) && Inv(Run(db, actions))
    decreases |actions|
  {
    hide Inv, Step, IntentsKept;
    if actions == [] {
      SameIntents(db, db);
    } else {
      var before := actions[..|actions| - 1];
      RunIntents(db, before);
      StepIntents(Run(db, before), actions[|actions| - 1]);
      StepKeeps(Run(db, before), actions[|actions| - 1]);
      KeptBoth(db, Run(db, before), Run(db, actions));
    }
  }

  /**
   Once an intent is completed it stays so, whatever happens later: its old serial stays replaced by the
   reserved number, and no event of any node replaces that serial again.
   */
  lemma ConsumedForGood(actions: seq<Action>, later: seq<Action>, o: SerialNumber)
    requires var db := Run(EMPTY_DB, actions); o in db.intents && db.intents[o].completed
    ensures var db, after := Run(EMPTY_DB, actions), Run(Run(EMPTY_DB, actions), later);
            && o in after.intents && after.intents[o] == db.intents[o]
            && Replaces(after, o, db.intents[o].newSerial)
            && (forall n, e, incoming, prior: Item | Tracked(after, prior.serial) && prior.serial == o ::
                  CheckReplacement(after, n, e, prior, incoming).Err?)
  {
    var db := Run(EMPTY_DB, actions);
    RunKeeps(actions);
    hide Run;
    RunIntents(db, later);
    var after := Run(db, later);
    assert IntentsMatch(after) by { hide StockInv, Receipts, Journal, Vouchers, Catalogue, Allocations, IntentsQueued, IntentsMatch; }
    hide Inv, Replaces, CheckReplacement;
    forall n, e, incoming, prior: Item | Tracked(after, prior.serial) && prior.serial == o
      ensures CheckReplacement(after, n, e, prior, incoming).Err?
    {
      if CheckReplacement(after, n, e, prior, incoming).Ok? {
        PriorHasIntent(after, n, e, prior, incoming);
      }
    }
  }
}
