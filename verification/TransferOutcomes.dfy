/** What accepted dispatches and receipts make of the units they list (app/services/network_ingest.py). */
module TransferOutcomes {
  import opened Records
  import opened NetworkDb
  import opened NetworkIngest
  import opened EventOutcomes
  import opened StockInvariants
  import opened LedgerInvariants

  /** Of the manifests, only this transfer's entries for the listed units may differ. */
  ghost predicate OtherUnitsSame(db: Db, next: Db, t: Uuid, items: seq<Item>) {
    forall k: (Uuid, SerialNumber) | k.0 != t || Unlisted(items, k.1) ::
      (k in next.transferItems <==> k in db.transferItems)
      && (k in db.transferItems ==> next.transferItems[k] == db.transferItems[k])
  }

  lemma OtherUnitsTwice(db: Db, mid: Db, next: Db, t: Uuid, items: seq<Item>)
    requires items != [] && OtherUnitsSame(db, mid, t, [items[0]]) && OtherUnitsSame(mid, next, t, items[1..])
    ensures OtherUnitsSame(db, next, t, items)
  {
    forall k: (Uuid, SerialNumber) | k.0 != t || Unlisted(items, k.1)
      ensures (k in next.transferItems <==> k in db.transferItems)
              && (k in db.transferItems ==> next.transferItems[k] == db.transferItems[k])
    {
      if k.0 == t {
        assert items[0].serial != k.1 && Unlisted([items[0]], k.1);
        assert forall j :: 0 <= j < |items[1..]| ==> items[1..][j] == items[j + 1];
        assert Unlisted(items[1..], k.1);
      }
    }
  }

  lemma UnlistedUnit(db: Db, next: Db, t: Uuid, items: seq<Item>, s: SerialNumber)
    requires OtherUnitsSame(db, next, t, items) && Unlisted(items, s)
    ensures (t, s) in next.transferItems <==> (t, s) in db.transferItems
    ensures (t, s) in db.transferItems ==> next.transferItems[(t, s)] == db.transferItems[(t, s)]
  {
  }

  lemma NothingMoved(db: Db, t: Uuid)
    ensures OthersSame(db, db, []) && OtherUnitsSame(db, db, t, [])
  {
  }

  /** Tables that a transfer event's items leave alone. */
  ghost predicate OnlyUnits(db: Db, next: Db) {
    next == db.(serials := next.serials, stock := next.stock, transferItems := next.transferItems)
  }

  // ---------------------------------------------------------------- receipts

  /** An open unit of the manifest that is still in transit from the transfer's source. */
  ghost predicate Receivable(db: Db, t: Uuid, s: SerialNumber) {
    && t in db.transfers && (t, s) in db.transferItems && db.transferItems[(t, s)] == TransferItem(None)
    && Tracked(db, s) && db.stock[s].owner == db.transfers[t].source && db.stock[s].status == InTransit
  }

  /** The status in which a unit arrives: the one reported, if it can be sold from it, else IN_STOCK. */
  ghost predicate ArrivesAs(reported: Option<Status>, status: Status) {
    && (reported == Some(InStock) || reported == Some(Returned) ==> Some(status) == reported)
    && (reported != Some(InStock) && reported != Some(Returned) ==> status == InStock)
  }

  ghost predicate Landed(db: Db, next: Db, n: NodeCode, t: Uuid, e: Uuid, item: Item) {
    && item.serial in next.stock && ArrivesAs(item.status, next.stock[item.serial].status)
    && Written(db, next, n, e, item, n, next.stock[item.serial].status)
    && (t, item.serial) in next.transferItems && next.transferItems[(t, item.serial)] == TransferItem(Some(e))
  }

  lemma ItemReceived(db: Db, n: NodeCode, t: Uuid, e: Event, item: Item)
    requires n in db.nodes && t in db.transfers
    ensures ReceiveItem(db, n, t, e, item).Ok? <==> Receivable(db, t, item.serial)
    ensures ReceiveItem(db, n, t, e, item).Ok? ==>
              var next := ReceiveItem(db, n, t, e, item).value;
              Landed(db, next, n, t, e.id, item) && OthersSame(db, next, [item]) && OtherUnitsSame(db, next, t, [item])
              && OnlyUnits(db, next)
  {
    hide UpdatedDetails, Reported;
    if Receivable(db, t, item.serial) {
      MovedWrites(db, n, e.id, item, n, ReceivedStatus(item.status));
      assert [item][0] == item;
    }
  }

  lemma StillReceivable(db: Db, mid: Db, t: Uuid, items: seq<Item>, s: SerialNumber)
    requires OthersSame(db, mid, items) && OtherUnitsSame(db, mid, t, items) && Unlisted(items, s) && mid.transfers == db.transfers
    ensures Receivable(mid, t, s) <==> Receivable(db, t, s)
  {
    UnlistedSame(db, mid, items, s);
    UnlistedUnit(db, mid, t, items, s);
    hide OthersSame, OtherUnitsSame;
  }

  lemma {:induction false} ItemsReceivable(db: Db, n: NodeCode, t: Uuid, e: Event, items: seq<Item>)
    requires n in db.nodes && t in db.transfers && DistinctSerials(items)
    ensures ReceiveItems(db, n, t, e, items).Ok? <==> forall k :: 0 <= k < |items| ==> Receivable(db, t, items[k].serial)
    decreases |items|
  {
    hide ReceiveItem, Receivable, Landed, OthersSame, OtherUnitsSame, DistinctSerials, Unlisted;
    if items != [] {
      ItemReceived(db, n, t, e, items[0]);
      FirstUnlisted(items);
      if ReceiveItem(db, n, t, e, items[0]).Ok? {
        var mid := ReceiveItem(db, n, t, e, items[0]).value;
        ItemsReceivable(mid, n, t, e, items[1..]);
        forall k | 0 <= k < |items[1..]|
          ensures Receivable(mid, t, items[1..][k].serial) <==> Receivable(db, t, items[k + 1].serial)
        {
          StillReceivable(db, mid, t, [items[0]], items[1..][k].serial);
        }
        RestReceivable(db, mid, t, items);
      }
    }
  }

  lemma RestReceivable(db: Db, mid: Db, t: Uuid, items: seq<Item>)
    requires items != [] && Receivable(db, t, items[0].serial)
    requires forall k | 0 <= k < |items[1..]| :: Receivable(mid, t, items[1..][k].serial) <==> Receivable(db, t, items[k + 1].serial)
    ensures (forall k :: 0 <= k < |items| ==> Receivable(db, t, items[k].serial))
            <==> forall k :: 0 <= k < |items[1..]| ==> Receivable(mid, t, items[1..][k].serial)
  {
    hide Receivable;
    if forall k :: 0 <= k < |items[1..]| ==> Receivable(mid, t, items[1..][k].serial) {
      forall k | 0 <= k < |items| ensures Receivable(db, t, items[k].serial) {
        if k > 0 {
          assert Receivable(mid, t, items[1..][k - 1].serial) && items[k - 1 + 1] == items[k];
        }
      }
    }
  }

  lemma FirstLands(db: Db, mid: Db, next: Db, n: NodeCode, t: Uuid, e: Uuid, items: seq<Item>)
    requires items != [] && Landed(db, mid, n, t, e, items[0]) && Unlisted(items[1..], items[0].serial)
    requires OthersSame(mid, next, items[1..]) && OtherUnitsSame(mid, next, t, items[1..])
    ensures Landed(db, next, n, t, e, items[0])
  {
    var s := items[0].serial;
    UnlistedSame(mid, next, items[1..], s);
    UnlistedUnit(mid, next, t, items[1..], s);
    hide Written, ArrivesAs, OthersSame, OtherUnitsSame;
    WrittenThenSame(db, mid, next, n, e, items[0], n, mid.stock[s].status);
  }

  lemma LaterLands(db: Db, mid: Db, next: Db, n: NodeCode, t: Uuid, e: Uuid, items: seq<Item>, item: Item)
    requires OthersSame(db, mid, items) && Unlisted(items, item.serial) && mid.nodes == db.nodes && Landed(mid, next, n, t, e, item)
    ensures Landed(db, next, n, t, e, item)
  {
    UnlistedSame(db, mid, items, item.serial);
    hide Written, ArrivesAs, OthersSame;
    SameThenWritten(db, mid, next, n, e, item, n, next.stock[item.serial].status);
  }

  lemma {:induction false} ItemsLand(db: Db, n: NodeCode, t: Uuid, e: Event, items: seq<Item>)
    requires n in db.nodes && t in db.transfers && DistinctSerials(items) && ReceiveItems(db, n, t, e, items).Ok?
    ensures var next := ReceiveItems(db, n, t, e, items).value;
            && (forall k :: 0 <= k < |items| ==> Landed(db, next, n, t, e.id, items[k]))
            && OthersSame(db, next, items) && OtherUnitsSame(db, next, t, items) && OnlyUnits(db, next)
    decreases |items|
  {
    hide ReceiveItem, Receivable, Landed, OthersSame, OtherUnitsSame, DistinctSerials, Unlisted;
    if items == [] {
      NothingMoved(db, t);
    } else {
      var mid, next := ReceiveItem(db, n, t, e, items[0]).value, ReceiveItems(db, n, t, e, items).value;
      FirstUnlisted(items);
      ItemReceived(db, n, t, e, items[0]);
      ItemsLand(mid, n, t, e, items[1..]);
      OthersTwice(db, mid, next, items);
      OtherUnitsTwice(db, mid, next, t, items);
      FirstLands(db, mid, next, n, t, e.id, items);
      forall k | 0 <= k < |items| ensures Landed(db, next, n, t, e.id, items[k]) {
        if k > 0 {
          LaterLands(db, mid, next, n, t, e.id, [items[0]], items[1..][k - 1]);
        }
      }
    }
  }

  ghost predicate AllIn(db: Db, t: Uuid) {
    forall s | (t, s) in db.transferItems :: db.transferItems[(t, s)] != TransferItem(None)
  }

  lemma AllInExactly(db: Db, t: Uuid)
    ensures AllReceived(db, t) <==> AllIn(db, t)
  {
    if AllIn(db, t) {
      forall k | k in db.transferItems && k.0 == t ensures db.transferItems[k].receipt.Some? {
        assert k == (t, k.1);
      }
    }
  }

  /** A receipt is accepted exactly when the transfer is the sender's to receive and each listed unit is still open. */
  lemma ReceiptAccepted(db: Db, n: NodeCode, e: Event)
    requires n in db.nodes && WellShaped(e) && e.kind.TransferReceived?
    ensures var t := e.transferId.value;
            ApplyEvent(db, n, e).Ok? <==>
              && t in db.transfers && db.transfers[t].destination == n && db.transfers[t].status != FullyReceived
              && forall k :: 0 <= k < |e.items| ==> Receivable(db, t, e.items[k].serial)
  {
    hide ReceiveItems, Receivable, InRange, DistinctSerials, CloseReceipt;
    var t := e.transferId.value;
    assert ApplyEvent(db, n, e) == ReceiveTransfer(db, n, e);
    if t in db.transfers {
      ItemsReceivable(db, n, t, e, e.items);
    }
  }

  /**
   Each unit of an accepted receipt ends with the receiver, in both rows in the status in which it was reported
   if that is IN_STOCK or RETURNED and else IN_STOCK; no other unit changes. The transfer is RECEIVED exactly when
   no unit of it is left open, and its source is told which units arrived.
   */
  lemma ReceiptOutcome(db: Db, n: NodeCode, e: Event)
    requires n in db.nodes && WellShaped(e) && e.kind.TransferReceived? && ApplyEvent(db, n, e).Ok?
    ensures var (next, result) := ApplyEvent(db, n, e).value;
            var t := e.transferId.value;
            && (forall k :: 0 <= k < |e.items| ==> Landed(db, next, n, t, e.id, e.items[k]))
            && OthersSame(db, next, e.items) && OtherUnitsSame(db, next, t, e.items)
            && t in db.transfers
            && var status := if AllIn(next, t) then FullyReceived else PartiallyReceived;
               && next.transfers == db.transfers[t := db.transfers[t].(status := status)]
               && next.commands == db.commands
                                   + [Command(db.transfers[t].source, TransferReceipt(t, status, AllIn(next, t), Serials(e.items)), false)]
               && result == ReceiveResult(t, status, |e.items|, |db.commands|)
               && next == db.(serials := next.serials, stock := next.stock, transferItems := next.transferItems,
                              transfers := next.transfers, commands := next.commands)
  {
    hide ReceiveItems, Receivable, InRange, DistinctSerials, Landed, OthersSame, OtherUnitsSame, AllIn, AllReceived;
    var t := e.transferId.value;
    assert ApplyEvent(db, n, e) == ReceiveTransfer(db, n, e);
    var landed := ReceiveItems(db, n, t, e, e.items).value;
    ItemsLand(db, n, t, e, e.items);
    var next := ApplyEvent(db, n, e).value.0;
    AllInExactly(landed, t);
    SameUnits(db, landed, next, n, t, e);
  }

  /** Closing a receipt touches no unit. */
  lemma SameUnits(db: Db, landed: Db, next: Db, n: NodeCode, t: Uuid, e: Event)
    requires next == landed.(transfers := next.transfers, commands := next.commands)
    requires (forall k :: 0 <= k < |e.items| ==> Landed(db, landed, n, t, e.id, e.items[k]))
    requires OthersSame(db, landed, e.items) && OtherUnitsSame(db, landed, t, e.items)
    ensures (forall k :: 0 <= k < |e.items| ==> Landed(db, next, n, t, e.id, e.items[k]))
    ensures OthersSame(db, next, e.items) && OtherUnitsSame(db, next, t, e.items) && (AllIn(next, t) <==> AllIn(landed, t))
  {
    hide Written, ArrivesAs;
    forall k | 0 <= k < |e.items| ensures Landed(db, next, n, t, e.id, e.items[k]) {
      SameWritten(db, landed, next, n, e.id, e.items[k], n, landed.stock[e.items[k].serial].status);
    }
  }

  lemma SameWritten(db: Db, landed: Db, next: Db, n: NodeCode, e: Uuid, item: Item, owner: NodeCode, status: Status)
    requires next.serials == landed.serials && next.stock == landed.stock && Written(db, landed, n, e, item, owner, status)
    ensures Written(db, next, n, e, item, owner, status)
  {
    hide Reported;
  }

  // ---------------------------------------------------------------- dispatches

  /** A unit that its owner can send away. */
  ghost predicate Sendable(db: Db, n: NodeCode, s: SerialNumber) {
    && Tracked(db, s) && db.stock[s].owner == n && db.serials[s].active
    && (db.serials[s].status == InStock || db.serials[s].status == Returned)
    && (db.stock[s].status == InStock || db.stock[s].status == Returned)
  }

  /** The unit is in transit, still its owner's, and an open unit of the manifest. */
  ghost predicate Loaded(db: Db, next: Db, t: Uuid, e: Uuid, s: SerialNumber) {
    && Tracked(db, s) && Tracked(next, s)
    && next.stock[s] == db.stock[s].(status := InTransit, lastEvent := Some(e))
    && next.serials[s] == db.serials[s].(status := InTransit)
    && (t, s) in next.transferItems && next.transferItems[(t, s)] == TransferItem(None)
  }

  lemma SendableExactly(db: Db, n: NodeCode, s: SerialNumber)
    ensures CheckDispatchItem(db, n, s).Ok? <==> Sendable(db, n, s)
  {
  }

  lemma ItemLoads(db: Db, t: Uuid, e: Uuid, item: Item)
    requires Tracked(db, item.serial)
    ensures var next := DispatchItem(db, t, e, item.serial);
            Loaded(db, next, t, e, item.serial) && OthersSame(db, next, [item]) && OtherUnitsSame(db, next, t, [item])
            && OnlyUnits(db, next)
  {
    assert [item][0] == item;
  }

  lemma FirstLoads(db: Db, mid: Db, next: Db, t: Uuid, e: Uuid, items: seq<Item>)
    requires items != [] && Loaded(db, mid, t, e, items[0].serial) && Unlisted(items[1..], items[0].serial)
    requires OthersSame(mid, next, items[1..]) && OtherUnitsSame(mid, next, t, items[1..])
    ensures Loaded(db, next, t, e, items[0].serial)
  {
    UnlistedSame(mid, next, items[1..], items[0].serial);
    UnlistedUnit(mid, next, t, items[1..], items[0].serial);
    hide OthersSame, OtherUnitsSame;
  }

  lemma LaterLoads(db: Db, mid: Db, next: Db, t: Uuid, e: Uuid, items: seq<Item>, s: SerialNumber)
    requires OthersSame(db, mid, items) && Unlisted(items, s) && Loaded(mid, next, t, e, s)
    ensures Loaded(db, next, t, e, s)
  {
    UnlistedSame(db, mid, items, s);
    hide OthersSame;
  }

  lemma {:induction false} ItemsLoad(db: Db, t: Uuid, e: Uuid, items: seq<Item>)
    requires DistinctSerials(items) && forall k :: 0 <= k < |items| ==> Tracked(db, items[k].serial)
    ensures var next := DispatchItems(db, t, e, items);
            && (forall k :: 0 <= k < |items| ==> Loaded(db, next, t, e, items[k].serial))
            && OthersSame(db, next, items) && OtherUnitsSame(db, next, t, items) && OnlyUnits(db, next)
    decreases |items|
  {
    hide DispatchItem, Tracked, Loaded, OthersSame, OtherUnitsSame, DistinctSerials, Unlisted;
    if items == [] {
      NothingMoved(db, t);
    } else {
      var mid, next := DispatchItem(db, t, e, items[0].serial), DispatchItems(db, t, e, items);
      FirstUnlisted(items);
      ItemLoads(db, t, e, items[0]);
      ItemsLoad(mid, t, e, items[1..]);
      OthersTwice(db, mid, next, items);
      OtherUnitsTwice(db, mid, next, t, items);
      FirstLoads(db, mid, next, t, e, items);
      forall k | 0 <= k < |items| ensures Loaded(db, next, t, e, items[k].serial) {
        if k > 0 {
          LaterLoads(db, mid, next, t, e, [items[0]], items[1..][k - 1].serial);
        }
      }
    }
  }

  /** The id that a dispatch gives, or the event's own. */
  function Transferred(e: Event): Uuid {
    match e.transferId
    case Some(id) => id
    case None => e.id
  }

  /** The destination is another active node, and neither the transfer's id nor the sender's reference is in use. */
  ghost predicate Opens(db: Db, n: NodeCode, e: Event) {
    && e.destination in db.nodes && db.nodes[e.destination].active && e.destination != n
    && (forall u | u in db.transfers :: db.transfers[u].source != n || db.transfers[u].reference != e.reference)
    && Transferred(e) !in db.transfers
  }

  lemma CheckedOpens(db: Db, n: NodeCode, e: Event)
    ensures CheckDispatch(db, n, e, TransferId(e)).Ok? <==>
              Opens(db, n, e) && forall k :: 0 <= k < |e.items| ==> Sendable(db, n, e.items[k].serial)
  {
    hide CheckDispatchItem, Sendable;
    forall k | 0 <= k < |e.items| ensures CheckDispatchItem(db, n, e.items[k].serial).Ok? <==> Sendable(db, n, e.items[k].serial) {
      SendableExactly(db, n, e.items[k].serial);
    }
  }

  /** A dispatch is accepted exactly when it opens a new transfer and every listed unit can leave. */
  lemma DispatchAccepted(db: Db, n: NodeCode, e: Event)
    requires n in db.nodes && WellShaped(e) && e.kind.TransferDispatched?
    ensures ApplyEvent(db, n, e).Ok? <==> Opens(db, n, e) && forall k :: 0 <= k < |e.items| ==> Sendable(db, n, e.items[k].serial)
  {
    CheckedOpens(db, n, e);
    hide CheckDispatch, Opens, Sendable, InRange, DistinctSerials;
    assert ApplyEvent(db, n, e) == Dispatch(db, n, e);
  }

  /**
   An accepted dispatch puts each listed unit in transit, in both rows and still the sender's, on a new manifest of
   just these units; no other unit changes, and the destination is told of all of them.
   */
  lemma DispatchOutcome(db: Db, n: NodeCode, e: Event)
    requires n in db.nodes && WellShaped(e) && e.kind.TransferDispatched? && ApplyEvent(db, n, e).Ok?
    ensures var (next, result) := ApplyEvent(db, n, e).value;
            var t := Transferred(e);
            && (forall k :: 0 <= k < |e.items| ==> Loaded(db, next, t, e.id, e.items[k].serial))
            && OthersSame(db, next, e.items) && OtherUnitsSame(db, next, t, e.items)
            && next.transfers == db.transfers[t := Transfer(n, e.destination, e.reference, Dispatched, e.id)]
            && next.commands == db.commands + [Command(e.destination, TransferAvailable(t, e.items), false)]
            && result == DispatchResult(t, e.destination, |db.commands|, |e.items|)
            && next == db.(serials := next.serials, stock := next.stock, transferItems := next.transferItems,
                           transfers := next.transfers, commands := next.commands)
  {
    hide CheckDispatch, CheckDispatchItem, DispatchItems, InRange, DistinctSerials, Opens, Loaded, OthersSame, OtherUnitsSame;
    CheckedOpens(db, n, e);
    assert ApplyEvent(db, n, e) == Dispatch(db, n, e);
    var t := Transferred(e);
    var booked := Booked(db, n, e, t);
    ItemsLoad(booked, t, e.id, e.items);
    SameLoaded(db, booked, DispatchItems(booked, t, e.id, e.items), ApplyEvent(db, n, e).value.0, t, e);
  }

  /** Opening a transfer and telling the destination touch no unit. */
  lemma SameLoaded(db: Db, booked: Db, loaded: Db, next: Db, t: Uuid, e: Event)
    requires booked == db.(transfers := booked.transfers) && next == loaded.(commands := next.commands)
    requires forall k :: 0 <= k < |e.items| ==> Loaded(booked, loaded, t, e.id, e.items[k].serial)
    requires OthersSame(booked, loaded, e.items) && OtherUnitsSame(booked, loaded, t, e.items)
    ensures forall k :: 0 <= k < |e.items| ==> Loaded(db, next, t, e.id, e.items[k].serial)
    ensures OthersSame(db, next, e.items) && OtherUnitsSame(db, next, t, e.items)
  {
  }

  // ---------------------------------------------------------------- received units are available

  lemma ReceivedSendable(db: Db, n: NodeCode, e: Event, s: SerialNumber)
    requires StockInv(db) && n in db.nodes && WellShaped(e) && e.kind.TransferReceived? && ApplyEvent(db, n, e).Ok?
    requires Listed(e.items, s)
    ensures var next := ApplyEvent(db, n, e).value.0;
            Sendable(next, n, s) && next.stock[s].origin in next.nodes
  {
    var next, t := ApplyEvent(db, n, e).value.0, e.transferId.value;
    hide ApplyEvent, Reported, WellShaped, Receivable, Landed, Sendable, OthersSame, OtherUnitsSame, Balanced, Transit, Chains, AllIn;
    ReceiptAccepted(db, n, e);
    ReceiptOutcome(db, n, e);
    var k :| 0 <= k < |e.items| && e.items[k].serial == s;
    LandedSendable(db, next, n, t, e.id, e.items[k]);
  }

  lemma LandedSendable(db: Db, next: Db, n: NodeCode, t: Uuid, e: Uuid, item: Item)
    requires Keys(db) && Rows(db) && Receivable(db, t, item.serial) && Landed(db, next, n, t, e, item)
    ensures Sendable(next, n, item.serial) && next.stock[item.serial].origin in db.nodes
  {
    hide Reported;
  }

  /**
   Received units are available to their receiver: right after the receipt it may sell any of them, return them to
   the supplier, or dispatch them to any other active node, under identities that Master knows.
   */
  lemma ReceivedAvailable(db: Db, n: NodeCode, e: Event, later: Event)
    requires StockInv(db) && n in db.nodes && WellShaped(e) && e.kind.TransferReceived? && ApplyEvent(db, n, e).Ok?
    requires WellShaped(later) && (later.kind.Sale? || later.kind.SupplierReturn? || later.kind.TransferDispatched?)
    requires forall k :: 0 <= k < |later.items| ==> Listed(e.items, later.items[k].serial)
    ensures var next := ApplyEvent(db, n, e).value.0;
            if later.kind.TransferDispatched? then ApplyEvent(next, n, later).Ok? <==> Opens(next, n, later)
            else ApplyEvent(next, n, later).Ok? <==>
                   forall k :: 0 <= k < |later.items| ==>
                     var s := later.items[k].serial;
                     && Tracked(next, s) && next.serials[s].product in next.products
                     && IdentityAccepted(next, next.serials[s].product, next.stock[s].origin, later.items[k])
  {
    var next := ApplyEvent(db, n, e).value.0;
    forall k | 0 <= k < |later.items|
      ensures Sendable(next, n, later.items[k].serial) && next.stock[later.items[k].serial].origin in next.nodes
              && (later.kind.Sale? || later.kind.SupplierReturn? ==> TakenFrom(later.kind, next.stock[later.items[k].serial].status))
    {
      ReceivedSendable(db, n, e, later.items[k].serial);
    }
    hide ApplyEvent, IdentityAccepted, Opens, StockInv, InRange, Listed, TakenFrom;
    if later.kind.TransferDispatched? {
      DispatchAccepted(next, n, later);
    } else {
      InventoryAccepted(next, n, later);
    }
  }
}
