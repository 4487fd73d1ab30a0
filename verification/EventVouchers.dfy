/** The voucher batch of every accepted event holds what the event says, in every later state. */
module EventVouchers {
  import opened Records
  import opened NetworkDb
  import opened NetworkIngest
  import opened StockInvariants
  import opened LedgerInvariants
  import opened MasterSystem
  import opened SystemSteps
  import opened Frames
  import opened EventOutcomes
  import TransferOutcomes
  import SnapshotOutcomes
  import opened VoucherSystem
  import V = VoucherSummary

  /** The batch of an event has its kind and header, and one item with the event's prices for each listed serial. */
  ghost predicate Matches(db: Db, id: Uuid, node: NodeCode, e: Event) {
    if IsInventory(e.kind) then
      && id in db.batches
      && db.batches[id] == Batch(node, e.kind, if e.kind.Purchase? || e.kind.Receive? || e.kind.Sale? || e.kind.SalesReturn?
                                               then BatchStatus.PendingSync else BatchStatus.Closed, e.header, e.occurredAt)
      && (forall s :: (id, s) in db.batchItems <==> Listed(e.items, s))
      && forall k :: 0 <= k < |e.items| ==>
           (id, e.items[k].serial) in db.batchItems
           && db.batchItems[(id, e.items[k].serial)] == BatchItem(e.items[k].rate, e.items[k].discountRate)
    else id !in db.batches && forall s :: (id, s) !in db.batchItems
  }

  ghost predicate AllMatch(db: Db) {
    forall id | id in db.journal :: Matches(db, id, db.journal[id].node, db.journal[id].event)
  }

  /** Other events' batches stay as they are. */
  ghost predicate OnlyBatch(db: Db, next: Db, id: Uuid) {
    && (forall b | b != id :: (b in next.batches <==> b in db.batches) && (b in db.batches ==> next.batches[b] == db.batches[b]))
    && forall k: (Uuid, SerialNumber) | k.0 != id ::
         (k in next.batchItems <==> k in db.batchItems) && (k in db.batchItems ==> next.batchItems[k] == db.batchItems[k])
  }

  lemma OthersMatch(db: Db, next: Db, id: Uuid, b: Uuid, node: NodeCode, e: Event)
    requires OnlyBatch(db, next, id) && b != id && Matches(db, b, node, e)
    ensures Matches(next, b, node, e)
  {
    forall s ensures (b, s) in next.batchItems <==> (b, s) in db.batchItems {
      assert (b, s).0 != id;
    }
    forall k | 0 <= k < |e.items| && (b, e.items[k].serial) in db.batchItems
      ensures next.batchItems[(b, e.items[k].serial)] == db.batchItems[(b, e.items[k].serial)]
    {
      assert (b, e.items[k].serial).0 != id;
    }
    hide Listed;
  }

  lemma InventoryMatches(db: Db, n: NodeCode, e: Event)
    requires n in db.nodes && WellShaped(e) && IsInventory(e.kind) && ApplyEvent(db, n, e).Ok?
    requires forall s :: (e.id, s) !in db.batchItems
    ensures var next := ApplyEvent(db, n, e).value.0; Matches(next, e.id, n, e) && OnlyBatch(db, next, e.id)
  {
    hide ApplyEvent, InRange, DistinctSerials, OthersSame, BookedItem, OtherItemsSame, Listed;
    InventoryOutcome(db, n, e);
    ItemsMatch(db, ApplyEvent(db, n, e).value.0, n, e);
  }

  lemma ItemsMatch(db: Db, next: Db, n: NodeCode, e: Event)
    requires forall k :: 0 <= k < |e.items| ==> BookedItem(db, next, n, e, e.items[k])
    requires OtherItemsSame(db, next, e.id, e.items) && forall s :: (e.id, s) !in db.batchItems
    ensures forall s :: (e.id, s) in next.batchItems <==> Listed(e.items, s)
    ensures forall k :: 0 <= k < |e.items| ==>
              (e.id, e.items[k].serial) in next.batchItems
              && next.batchItems[(e.id, e.items[k].serial)] == BatchItem(e.items[k].rate, e.items[k].discountRate)
    ensures forall k: (Uuid, SerialNumber) | k.0 != e.id ::
              (k in next.batchItems <==> k in db.batchItems) && (k in db.batchItems ==> next.batchItems[k] == db.batchItems[k])
  {
    hide Written, Takes;
    forall k | 0 <= k < |e.items|
      ensures (e.id, e.items[k].serial) in next.batchItems
              && next.batchItems[(e.id, e.items[k].serial)] == BatchItem(e.items[k].rate, e.items[k].discountRate)
    {
      assert BookedItem(db, next, n, e, e.items[k]);
    }
    hide BookedItem;
    forall s ensures (e.id, s) in next.batchItems <==> Listed(e.items, s) {
      if Listed(e.items, s) {
        var k :| 0 <= k < |e.items| && e.items[k].serial == s;
      } else {
        assert Unlisted(e.items, s);
      }
    }
  }

  lemma OtherEvents(db: Db, n: NodeCode, e: Event)
    requires n in db.nodes && WellShaped(e) && !IsInventory(e.kind) && ApplyEvent(db, n, e).Ok?
    ensures var next := ApplyEvent(db, n, e).value.0; next.batches == db.batches && next.batchItems == db.batchItems
  {
    hide ApplyEvent, WellShaped;
    match e.kind {
      case TransferDispatched => DispatchLeaves(db, n, e);
      case TransferReceived => ReceiptLeaves(db, n, e);
      case StockSnapshot => SnapshotLeaves(db, n, e);
      case _ => QuietEvents(db, n, e);
    }
  }

  lemma DispatchLeaves(db: Db, n: NodeCode, e: Event)
    requires n in db.nodes && WellShaped(e) && e.kind.TransferDispatched? && ApplyEvent(db, n, e).Ok?
    ensures var next := ApplyEvent(db, n, e).value.0; next.batches == db.batches && next.batchItems == db.batchItems
  {
    hide ApplyEvent, WellShaped;
    TransferOutcomes.DispatchOutcome(db, n, e);
  }

  lemma ReceiptLeaves(db: Db, n: NodeCode, e: Event)
    requires n in db.nodes && WellShaped(e) && e.kind.TransferReceived? && ApplyEvent(db, n, e).Ok?
    ensures var next := ApplyEvent(db, n, e).value.0; next.batches == db.batches && next.batchItems == db.batchItems
  {
    TransferOutcomes.ReceiptOutcome(db, n, e);
    hide ApplyEvent, WellShaped;
  }

  lemma SnapshotLeaves(db: Db, n: NodeCode, e: Event)
    requires n in db.nodes && WellShaped(e) && e.kind.StockSnapshot? && ApplyEvent(db, n, e).Ok?
    ensures var next := ApplyEvent(db, n, e).value.0; next.batches == db.batches && next.batchItems == db.batchItems
  {
    hide ApplyEvent, WellShaped;
    if e.reason == QrReplacement {
      SnapshotOutcomes.ReplacementOutcome(db, n, e);
    } else {
      SnapshotOutcomes.SnapshotOutcome(db, n, e);
    }
  }

  lemma QuietEvents(db: Db, n: NodeCode, e: Event)
    requires n in db.nodes && WellShaped(e) && (e.kind.Heartbeat? || e.kind.ReceiptSubmitted?) && ApplyEvent(db, n, e).Ok?
    ensures var next := ApplyEvent(db, n, e).value.0; next.batches == db.batches && next.batchItems == db.batchItems
  {
    hide InRange, DistinctSerials;
  }

  lemma AcceptMatches(db: Db, n: NodeCode, now: int, e: Event)
    requires Keys(db) && Vouchers(db) && AllMatch(db)
    requires n in db.nodes && WellShaped(e) && e.id !in db.journal && AcceptEvent(db, n, now, e).Ok?
    ensures AllMatch(AcceptEvent(db, n, now, e).value.0)
  {
    var applied, next := ApplyEvent(db, n, e).value.0, AcceptEvent(db, n, now, e).value.0;
    AcceptWrites(db, n, now, e);
    NoBatchYet(db, e.id);
    hide ApplyEvent, InRange, DistinctSerials, AcceptEvent, Keys, Vouchers, AllMatch, Matches, OnlyBatch;
    if IsInventory(e.kind) {
      InventoryMatches(db, n, e);
    } else {
      OtherEvents(db, n, e);
      NoBatchMatches(db, applied, n, e);
    }
    SameMatch(db, applied, next, e.id, n, e);
    OneMoreMatches(db, next, e.id);
  }

  lemma AcceptWrites(db: Db, n: NodeCode, now: int, e: Event)
    requires n in db.nodes && WellShaped(e) && AcceptEvent(db, n, now, e).Ok?
    ensures ApplyEvent(db, n, e).Ok?
    ensures var applied, next := ApplyEvent(db, n, e).value.0, AcceptEvent(db, n, now, e).value.0;
            && next.batches == applied.batches && next.batchItems == applied.batchItems
            && e.id in next.journal && next.journal == db.journal[e.id := next.journal[e.id]]
            && next.journal[e.id].node == n && next.journal[e.id].event == e
  {
    hide ApplyEvent, InRange, DistinctSerials, SequenceUsed;
  }

  lemma NoBatchMatches(db: Db, next: Db, n: NodeCode, e: Event)
    requires !IsInventory(e.kind) && next.batches == db.batches && next.batchItems == db.batchItems
    requires e.id !in db.batches && forall s :: (e.id, s) !in db.batchItems
    ensures Matches(next, e.id, n, e) && OnlyBatch(db, next, e.id)
  {
  }

  lemma SameMatch(db: Db, applied: Db, next: Db, id: Uuid, n: NodeCode, e: Event)
    requires next.batches == applied.batches && next.batchItems == applied.batchItems
    requires Matches(applied, id, n, e) && OnlyBatch(db, applied, id)
    ensures Matches(next, id, n, e) && OnlyBatch(db, next, id)
  {
    hide Listed;
  }

  lemma OneMoreMatches(db: Db, next: Db, id: Uuid)
    requires AllMatch(db) && OnlyBatch(db, next, id) && id in next.journal && next.journal == db.journal[id := next.journal[id]]
    requires Matches(next, id, next.journal[id].node, next.journal[id].event)
    ensures AllMatch(next)
  {
    hide Matches, OnlyBatch;
    forall b | b in next.journal ensures Matches(next, b, next.journal[b].node, next.journal[b].event) {
      if b != id {
        OthersMatch(db, next, id, b, db.journal[b].node, db.journal[b].event);
      }
    }
  }

  lemma NoBatchYet(db: Db, id: Uuid)
    requires Keys(db) && Vouchers(db) && id !in db.journal
    ensures id !in db.batches && forall s :: (id, s) !in db.batchItems
  {
    forall s ensures (id, s) !in db.batchItems {
      assert (id, s) in db.batchItems ==> (id, s).0 in db.batches;
    }
  }

  lemma SameBatches(db: Db, next: Db)
    requires AllMatch(db) && next.journal == db.journal && next.batches == db.batches && next.batchItems == db.batchItems
    ensures AllMatch(next)
  {
    hide Listed;
  }

  lemma {:induction false} IngestMatches(db: Db, n: NodeCode, now: int, events: seq<Event>)
    requires Inv(db) && AllMatch(db) && n in db.nodes && (forall k :: 0 <= k < |events| ==> WellShaped(events[k]))
    requires IngestEvents(db, n, now, events).Ok?
    ensures AllMatch(IngestEvents(db, n, now, events).value.0)
    decreases |events|
  {
    hide AcceptEvent, AllMatch, StockInv, Ledger, Journal, Vouchers, Catalogue, Allocations;
    if events != [] {
      if events[0].id !in db.journal {
        AcceptKeeps(db, n, now, events[0]);
        assert Keys(db) by { InvParts(db); }
        AcceptMatches(db, n, now, events[0]);
      }
      IngestMatches(IngestEvent(db, n, now, events[0]).value.0, n, now, events[1..]);
    }
  }

  lemma InvParts(db: Db)
    requires Inv(db)
    ensures Keys(db) && Vouchers(db)
  {
  }

  lemma StepMatches(db: Db, a: Action)
    requires Inv(db) && AllMatch(db)
    ensures AllMatch(Step(db, a))
  {
    hide Inv, AllMatch;
    if !a.Post? {
      StepFrame(db, a);
      hide Step;
      SameBatches(db, Step(db, a));
    } else if Admissible(db, a) {
      hide IngestEvents;
      if IngestEvents(db, a.node, a.now, a.events).Ok? {
        IngestMatches(db, a.node, a.now, a.events);
      }
    }
  }

  lemma {:induction false} RunMatches(actions: seq<Action>)
    ensures AllMatch(Run(EMPTY_DB, actions))
  {
    hide Step, AllMatch;
    if actions == [] {
      assert AllMatch(EMPTY_DB) by { NothingJournalled(); }
    } else {
      RunMatches(actions[..|actions| - 1]);
      RunKeeps(actions[..|actions| - 1]);
      StepMatches(Run(EMPTY_DB, actions[..|actions| - 1]), actions[|actions| - 1]);
    }
  }

  lemma NothingJournalled()
    ensures AllMatch(EMPTY_DB)
  {
  }

  /** The event lists this serial at these prices. */
  ghost predicate Prices(e: Event, s: SerialNumber, rate: real, discount: real) {
    exists k :: 0 <= k < |e.items| && e.items[k].serial == s && e.items[k].rate == rate && e.items[k].discountRate == discount
  }

  /**
   In every reachable state, whenever the voucher of a batch is built, it is of the kind and has the header of the
   accepted event that created the batch, and its items are one unit of each listed serial's product at the event's
   own rate and discount, and nothing else.
   */
  lemma VoucherIsEvent(actions: seq<Action>, b: Uuid, order: seq<SerialNumber>)
    requires var db := Run(EMPTY_DB, actions); b in db.batches && Enumerates(db, b, order)
    ensures var db := Run(EMPTY_DB, actions);
            && b in db.journal
            && var e := db.journal[b].event;
               && (forall i :: 0 <= i < |order| ==> order[i] in db.serials && (b, order[i]) in db.batchItems)
               && (forall s :: s in order <==> Listed(e.items, s))
               && var voucher := VoucherOf(db, b, order);
                  && voucher.kind == e.kind && voucher.header == e.header && |voucher.items| == |order|
                  && forall i :: 0 <= i < |order| ==>
                       && voucher.items[i].product == db.serials[order[i]].product && voucher.items[i].quantity == 1
                       && voucher.items[i].rate.Some? && voucher.items[i].discount.Some?
                       && Prices(e, order[i], voucher.items[i].rate.value, voucher.items[i].discount.value)
  {
    RunKeeps(actions);
    RunMatches(actions);
    var db := Run(EMPTY_DB, actions);
    hide Run;
    InvParts(db);
    hide Inv;
    var e := db.journal[b].event;
    assert Matches(db, b, db.journal[b].node, e);
    forall i | 0 <= i < |order|
      ensures order[i] in db.serials && (b, order[i]) in db.batchItems
      ensures Prices(e, order[i], db.batchItems[(b, order[i])].rate, db.batchItems[(b, order[i])].discountRate)
    {
      assert order[i] in order;
      assert Listed(e.items, order[i]);
      var k :| 0 <= k < |e.items| && e.items[k].serial == order[i];
    }
    hide Keys, Vouchers, Matches, Prices;
  }
}
