/** Requests that arrive at different times differ in the received-at stamps of acknowledgements only. */
module RequestTimes {
  import opened Records
  import opened NetworkDb
  import opened NetworkIngest
  import opened LedgerInvariants
  import opened ExactlyOnce

  type Journal = map<Uuid, Inbound>

  predicate SameAck(a: Acknowledgement, b: Acknowledgement) {
    b == a.(receivedAt := b.receivedAt)
  }

  predicate SameAcks(a: seq<Acknowledgement>, b: seq<Acknowledgement>) {
    |a| == |b| && forall k :: 0 <= k < |a| ==> SameAck(a[k], b[k])
  }

  /** The same events of the same nodes, acknowledged alike but for the time. */
  ghost predicate SameJournal(a: Journal, b: Journal) {
    && a.Keys == b.Keys
    && forall e | e in a :: a[e].node == b[e].node && a[e].event == b[e].event && SameAck(a[e].acknowledgement, b[e].acknowledgement)
  }

  /** The databases are equal up to the stamps. */
  ghost predicate Restamped(a: Db, b: Db) {
    b == a.(journal := b.journal) && SameJournal(a.journal, b.journal)
  }

  // ---------------------------------------------------------------- events do not read the stamps

  function With(r: Result<Db, Error>, j: Journal): Result<Db, Error> {
    match r
    case Ok(db) => Ok(db.(journal := j))
    case Err(error) => Err(error)
  }

  function WithBoth<T>(r: Result<(Db, T), Error>, j: Journal): Result<(Db, T), Error> {
    match r
    case Ok((db, t)) => Ok((db.(journal := j), t))
    case Err(error) => Err(error)
  }

  lemma IdentityTimeless(db: Db, j: Journal, code: ProductCode, origin: NodeCode, item: Item)
    ensures ValidateIdentity(db.(journal := j), code, origin, item) == ValidateIdentity(db, code, origin, item)
  {
    hide SameIdentity;
  }

  lemma KnownTimeless(db: Db, j: Journal, n: NodeCode, e: Event, item: Item, status: Status)
    requires n in db.nodes && item.serial in db.serials
    ensures SnapshotKnown(db.(journal := j), n, e, item, status) == With(SnapshotKnown(db, n, e, item, status), j)
  {
    if item.serial in db.stock {
      IdentityTimeless(db, j, db.serials[item.serial].product, db.stock[item.serial].origin, item);
    }
    hide ValidateIdentity, UpdatedDetails;
    assert CheckKnown(db.(journal := j), n, item, status) == CheckKnown(db, n, item, status);
    if CheckKnown(db, n, item, status).Ok? {
      hide CheckKnown;
      assert Refresh(db.(journal := j), n, e.id, item) == Refresh(db, n, e.id, item).(journal := j);
    }
  }

  lemma EnsureTimeless(db: Db, j: Journal, code: ProductCode, item: Item)
    ensures EnsureProduct(db.(journal := j), code, item) == EnsureProduct(db, code, item).(journal := j)
  {
    if code !in db.products {
      var product := Product(item.identity, item.rate, item.discountRate, "", None, true);
      assert EnsureProduct(db, code, item)
             == db.(products := db.products[code := product], productOrder := db.productOrder + [code]);
    }
  }

  lemma NewSerialTimeless(db: Db, j: Journal, n: NodeCode, e: Uuid, item: Item, code: ProductCode, status: Status)
    requires n in db.nodes
    ensures NewSerial(db.(journal := j), n, e, item, code, status) == NewSerial(db, n, e, item, code, status).(journal := j)
  {
  }

  lemma EnrolTimeless(db: Db, j: Journal, n: NodeCode, e: Event, item: Item, status: Status)
    requires n in db.nodes
    ensures EnrolSerial(db.(journal := j), n, e, item, status) == With(EnrolSerial(db, n, e, item, status), j)
  {
    var code := ProductCode(n, item.productCode);
    var known := EnsureProduct(db, code, item);
    EnsureTimeless(db, j, code, item);
    hide EnsureProduct, ValidateIdentity, NewSerial;
    IdentityTimeless(known, j, code, n, item);
    NewSerialTimeless(known, j, n, e.id, item, code, status);
  }

  lemma SnapshotItemTimeless(db: Db, j: Journal, n: NodeCode, e: Event, initial: bool, item: Item)
    requires n in db.nodes
    ensures SnapshotItem(db.(journal := j), n, e, initial, item) == With(SnapshotItem(db, n, e, initial, item), j)
  {
    hide SnapshotKnown, EnrolSerial;
    var moved := db.(journal := j);
    var r, s := SnapshotItem(db, n, e, initial, item), SnapshotItem(moved, n, e, initial, item);
    if item.status.None? {
      assert r == s == Err(InvalidStockStatus);
    } else {
      var status := item.status.value;
      if item.serial in db.serials {
        assert r == SnapshotKnown(db, n, e, item, status) && s == SnapshotKnown(moved, n, e, item, status);
        hide SnapshotItem;
        KnownTimeless(db, j, n, e, item, status);
      } else if !initial {
        assert r == s == Err(MasterQrRequired);
      } else if !(status.Generated? || status.InStock?) {
        assert r == s == Err(InvalidEnrollmentStatus);
      } else {
        assert r == EnrolSerial(db, n, e, item, status) && s == EnrolSerial(moved, n, e, item, status);
        hide SnapshotItem;
        EnrolTimeless(db, j, n, e, item, status);
      }
    }
  }

  lemma {:induction false} SnapshotItemsTimeless(db: Db, j: Journal, n: NodeCode, e: Event, initial: bool, items: seq<Item>)
    requires n in db.nodes
    ensures SnapshotItems(db.(journal := j), n, e, initial, items) == WithBoth(SnapshotItems(db, n, e, initial, items), j)
    decreases |items|
  {
    hide SnapshotItem;
    if items != [] {
      SnapshotItemTimeless(db, j, n, e, initial, items[0]);
      var next := SnapshotItem(db, n, e, initial, items[0]);
      if next.Ok? {
        SnapshotItemsTimeless(next.value, j, n, e, initial, items[1..]);
      }
    }
  }

  lemma ReplacementTimeless(db: Db, j: Journal, n: NodeCode, e: Event)
    requires n in db.nodes
    ensures ReplacementSnapshot(db.(journal := j), n, e) == WithBoth(ReplacementSnapshot(db, n, e), j)
  {
    hide CheckReplacement, Replace, ReplacementTarget;
    if |e.items| == 2 {
      var first, second := e.items[0], e.items[1];
      assert forall s :: Tracked(db.(journal := j), s) <==> Tracked(db, s);
      hide Tracked;
      if Tracked(db, first.serial) {
        ReplaceTimeless(db, j, n, e, first, second);
      } else if Tracked(db, second.serial) {
        ReplaceTimeless(db, j, n, e, second, first);
      }
    }
  }

  lemma ReplaceTimeless(db: Db, j: Journal, n: NodeCode, e: Event, prior: Item, incoming: Item)
    requires n in db.nodes && Tracked(db, prior.serial)
    ensures CheckReplacement(db.(journal := j), n, e, prior, incoming) == CheckReplacement(db, n, e, prior, incoming)
    ensures prior.serial in db.intents ==>
              Replace(db.(journal := j), n, e, prior, incoming.serial) == Replace(db, n, e, prior, incoming.serial).(journal := j)
    ensures CheckReplacement(db, n, e, prior, incoming).Ok? ==> prior.serial in db.intents
  {
    CheckReplacementTimeless(db, j, n, e, prior, incoming);
    hide ValidateIdentity, UpdatedDetails;
  }

  lemma CheckReplacementTimeless(db: Db, j: Journal, n: NodeCode, e: Event, prior: Item, incoming: Item)
    requires Tracked(db, prior.serial)
    ensures CheckReplacement(db.(journal := j), n, e, prior, incoming) == CheckReplacement(db, n, e, prior, incoming)
  {
    IdentityTimeless(db, j, db.serials[prior.serial].product, db.stock[prior.serial].origin, prior);
    IdentityTimeless(db, j, db.serials[prior.serial].product, db.stock[prior.serial].origin, incoming);
    hide ValidateIdentity;
  }

  /** The initial window depends on the events of the journal, not on their stamps. */
  lemma EnrollmentTimeless(db: Db, j: Journal, n: NodeCode, e: Event)
    requires SameJournal(db.journal, j)
    ensures IsInitialEnrollment(db.(journal := j), n, e) == IsInitialEnrollment(db, n, e)
  {
    assert forall p :: p in db.journal <==> p in j;
  }

  lemma SnapshotTimeless(db: Db, j: Journal, n: NodeCode, e: Event)
    requires n in db.nodes && SameJournal(db.journal, j)
    ensures Snapshot(db.(journal := j), n, e) == WithBoth(Snapshot(db, n, e), j)
  {
    hide SnapshotItems, ReplacementSnapshot, IsInitialEnrollment, SameJournal;
    EnrollmentTimeless(db, j, n, e);
    ReplacementTimeless(db, j, n, e);
    SnapshotItemsTimeless(db, j, n, e, IsInitialEnrollment(db, n, e), e.items);
  }

  lemma InventoryItemTimeless(db: Db, j: Journal, n: NodeCode, e: Event, item: Item)
    requires n in db.nodes
    ensures InventoryItem(db.(journal := j), n, e, item) == With(InventoryItem(db, n, e, item), j)
  {
    if item.serial in db.serials && item.serial in db.stock {
      IdentityTimeless(db, j, db.serials[item.serial].product, db.stock[item.serial].origin, item);
    }
    hide ValidateIdentity, UpdatedDetails, Transition;
  }

  lemma {:induction false} InventoryItemsTimeless(db: Db, j: Journal, n: NodeCode, e: Event, items: seq<Item>)
    requires n in db.nodes
    ensures InventoryItems(db.(journal := j), n, e, items) == With(InventoryItems(db, n, e, items), j)
    decreases |items|
  {
    hide InventoryItem;
    if items != [] {
      InventoryItemTimeless(db, j, n, e, items[0]);
      var next := InventoryItem(db, n, e, items[0]);
      if next.Ok? {
        InventoryItemsTimeless(next.value, j, n, e, items[1..]);
      }
    }
  }

  lemma InventoryTimeless(db: Db, j: Journal, n: NodeCode, e: Event)
    requires n in db.nodes
    ensures Inventory(db.(journal := j), n, e) == WithBoth(Inventory(db, n, e), j)
  {
    hide InventoryItems, NewBatch;
    var booked := db.(batches := db.batches[e.id := NewBatch(n, e)]);
    InventoryItemsTimeless(booked, j, n, e, e.items);
    assert db.(journal := j).(batches := db.batches[e.id := NewBatch(n, e)]) == booked.(journal := j);
  }

  lemma {:induction false} DispatchItemsTimeless(db: Db, j: Journal, t: Uuid, e: Uuid, items: seq<Item>)
    requires forall k :: 0 <= k < |items| ==> Tracked(db, items[k].serial)
    ensures forall k :: 0 <= k < |items| ==> Tracked(db.(journal := j), items[k].serial)
    ensures DispatchItems(db.(journal := j), t, e, items) == DispatchItems(db, t, e, items).(journal := j)
    decreases |items|
  {
    if items != [] {
      var next := DispatchItem(db, t, e, items[0].serial);
      assert DispatchItem(db.(journal := j), t, e, items[0].serial) == next.(journal := j);
      hide DispatchItem, Tracked;
      assert forall k :: 0 <= k < |items[1..]| ==> Tracked(db, items[1..][k].serial);
      DispatchItemsTimeless(next, j, t, e, items[1..]);
    }
  }

  lemma {:induction false} CheckDispatchItemsTimeless(db: Db, j: Journal, n: NodeCode, items: seq<Item>)
    ensures CheckDispatchItems(db.(journal := j), n, items) == CheckDispatchItems(db, n, items)
  {
    if items != [] {
      CheckDispatchItemsTimeless(db, j, n, items[1..]);
    }
  }

  lemma CheckDispatchTimeless(db: Db, j: Journal, n: NodeCode, e: Event, t: Uuid)
    ensures CheckDispatch(db.(journal := j), n, e, t) == CheckDispatch(db, n, e, t)
  {
    CheckDispatchItemsTimeless(db, j, n, e.items);
    hide CheckDispatchItems;
  }

  lemma DispatchTimeless(db: Db, j: Journal, n: NodeCode, e: Event)
    requires n in db.nodes
    ensures Dispatch(db.(journal := j), n, e) == WithBoth(Dispatch(db, n, e), j)
  {
    var t := TransferId(e);
    CheckDispatchTimeless(db, j, n, e, t);
    hide DispatchItems, Booked, TransferId, Tracked;
    if CheckDispatch(db, n, e, t).Ok? {
      CheckedNew(db, n, e, t);
      BookedTracks(db, n, e, t);
      hide CheckDispatch;
      DispatchItemsTimeless(Booked(db, n, e, t), j, t, e.id, e.items);
      assert Booked(db.(journal := j), n, e, t) == Booked(db, n, e, t).(journal := j) by { BookedTimeless(db, j, n, e, t); }
    }
  }

  lemma BookedTimeless(db: Db, j: Journal, n: NodeCode, e: Event, t: Uuid)
    ensures Booked(db.(journal := j), n, e, t) == Booked(db, n, e, t).(journal := j)
  {
  }

  lemma ReceiveItemTimeless(db: Db, j: Journal, n: NodeCode, t: Uuid, e: Event, item: Item)
    requires n in db.nodes && t in db.transfers
    ensures ReceiveItem(db.(journal := j), n, t, e, item) == With(ReceiveItem(db, n, t, e, item), j)
  {
    assert CheckReceiveItem(db.(journal := j), t, item.serial) == CheckReceiveItem(db, t, item.serial);
    if CheckReceiveItem(db, t, item.serial).Ok? {
      hide CheckReceiveItem, UpdatedDetails;
      assert LandItem(db.(journal := j), n, t, e.id, item) == LandItem(db, n, t, e.id, item).(journal := j);
      hide LandItem;
    }
  }

  lemma {:induction false} ReceiveItemsTimeless(db: Db, j: Journal, n: NodeCode, t: Uuid, e: Event, items: seq<Item>)
    requires n in db.nodes && t in db.transfers
    ensures ReceiveItems(db.(journal := j), n, t, e, items) == With(ReceiveItems(db, n, t, e, items), j)
    decreases |items|
  {
    hide ReceiveItem;
    if items != [] {
      ReceiveItemTimeless(db, j, n, t, e, items[0]);
      var next := ReceiveItem(db, n, t, e, items[0]);
      if next.Ok? {
        ReceiveItemsTimeless(next.value, j, n, t, e, items[1..]);
      }
    }
  }

  lemma CloseTimeless(db: Db, j: Journal, t: Uuid, items: seq<Item>)
    requires t in db.transfers
    ensures CloseReceipt(db.(journal := j), t, items) == CloseReceipt(db, t, items).(journal := j)
  {
    assert AllReceived(db.(journal := j), t) == AllReceived(db, t);
    hide AllReceived;
  }

  lemma ReceiveTimeless(db: Db, j: Journal, n: NodeCode, e: Event)
    requires n in db.nodes && e.transferId.Some?
    ensures ReceiveTransfer(db.(journal := j), n, e) == WithBoth(ReceiveTransfer(db, n, e), j)
  {
    var t := e.transferId.value;
    hide ReceiveItems, CloseReceipt;
    assert CheckReceive(db.(journal := j), n, t) == CheckReceive(db, n, t);
    if CheckReceive(db, n, t).Ok? {
      ReceiveItemsTimeless(db, j, n, t, e, e.items);
      var landed := ReceiveItems(db, n, t, e, e.items);
      if landed.Ok? {
        CloseTimeless(landed.value, j, t, e.items);
        CloseKeeps(landed.value, t, e.items);
      }
    }
  }

  lemma CloseKeeps(db: Db, t: Uuid, items: seq<Item>)
    requires t in db.transfers
    ensures t in CloseReceipt(db, t, items).transfers
  {
    hide AllReceived;
  }

  lemma ApplyTimeless(db: Db, j: Journal, n: NodeCode, e: Event)
    requires n in db.nodes && WellShaped(e) && SameJournal(db.journal, j)
    ensures ApplyEvent(db.(journal := j), n, e) == WithBoth(ApplyEvent(db, n, e), j)
  {
    hide Snapshot, Inventory, Dispatch, ReceiveTransfer, SameJournal, DistinctSerials, InRange;
    match e.kind {
      case StockSnapshot => SnapshotTimeless(db, j, n, e);
      case TransferDispatched => DispatchTimeless(db, j, n, e);
      case TransferReceived => ReceiveTimeless(db, j, n, e);
      case ReceiptSubmitted =>
      case Heartbeat =>
      case _ => InventoryTimeless(db, j, n, e);
    }
  }

  // ---------------------------------------------------------------- requests at other times

  /** The same outcome up to the stamps. */
  ghost predicate SameOutcome<T(!new)>(a: Result<(Db, T), Error>, b: Result<(Db, T), Error>, same: (T, T) -> bool) {
    match (a, b)
    case (Ok((x, s)), Ok((y, t))) => Restamped(x, y) && same(s, t)
    case (Err(x), Err(y)) => x == y
    case _ => false
  }

  lemma AcceptRestamped(a: Db, b: Db, n: NodeCode, now: int, later: int, e: Event)
    requires n in a.nodes && WellShaped(e) && Restamped(a, b) && e.id !in a.journal
    ensures n in b.nodes && SameOutcome(AcceptEvent(a, n, now, e), AcceptEvent(b, n, later, e), SameAck)
  {
    ApplyTimeless(a, b.journal, n, e);
    assert SequenceUsed(b, n, e.sequence) == SequenceUsed(a, n, e.sequence) by {
      assert forall p :: p in a.journal <==> p in b.journal;
    }
    hide ApplyEvent, SequenceUsed, WellShaped, SameJournal;
    var r := ApplyEvent(a, n, e);
    if r.Ok? {
      assert r.value.0.journal == a.journal;
      var x, y := AcceptEvent(a, n, now, e), AcceptEvent(b, n, later, e);
      if x.Ok? {
        JournalledBoth(a.journal, b.journal, n, e, x.value.1, y.value.1);
      }
    }
  }

  lemma JournalledBoth(a: Journal, b: Journal, n: NodeCode, e: Event, ack: Acknowledgement, other: Acknowledgement)
    requires SameJournal(a, b) && SameAck(ack, other)
    ensures SameJournal(a[e.id := Inbound(n, e, ack)], b[e.id := Inbound(n, e, other)])
  {
  }

  lemma EventRestamped(a: Db, b: Db, n: NodeCode, now: int, later: int, e: Event)
    requires n in a.nodes && WellShaped(e) && Restamped(a, b)
    ensures n in b.nodes && SameOutcome(IngestEvent(a, n, now, e), IngestEvent(b, n, later, e), SameAck)
  {
    assert e.id in a.journal.Keys <==> e.id in b.journal.Keys;
    if e.id !in a.journal {
      hide AcceptEvent;
      AcceptRestamped(a, b, n, now, later, e);
    } else {
      hide AcceptEvent;
    }
  }

  lemma {:induction false} EventsRestamped(a: Db, b: Db, n: NodeCode, now: int, later: int, events: seq<Event>)
    requires n in a.nodes && AllShaped(events) && Restamped(a, b)
    ensures n in b.nodes && SameOutcome(IngestEvents(a, n, now, events), IngestEvents(b, n, later, events), SameAcks)
    decreases |events|
  {
    hide IngestEvent, Restamped, SameAck;
    assert n in b.nodes by { SameNodes(a, b); }
    if events != [] {
      EventRestamped(a, b, n, now, later, events[0]);
      var r, s := IngestEvent(a, n, now, events[0]), IngestEvent(b, n, later, events[0]);
      if r.Ok? {
        EventsRestamped(r.value.0, s.value.0, n, now, later, events[1..]);
      }
    }
  }

  lemma SameNodes(a: Db, b: Db)
    requires Restamped(a, b)
    ensures b.nodes == a.nodes
  {
  }

  lemma SameDb(db: Db)
    ensures Restamped(db, db)
  {
  }

  /**
   An accepted request, cut in two and sent as two requests at any two times, is accepted. Database and
   acknowledgements are those of the whole request up to the received-at stamps.
   */
  lemma SplitRequest(db: Db, n: NodeCode, now: int, first: int, second: int, limit: nat, a: seq<Event>, b: seq<Event>)
    requires n in db.nodes && AllShaped(a) && AllShaped(b)
    requires PostEvents(db, n, now, limit, a + b).1.Accepted?
    ensures var (whole, r) := PostEvents(db, n, now, limit, a + b);
            var (mid, r1) := PostEvents(db, n, first, limit, a);
            && r1.Accepted? && n in mid.nodes
            && var (last, r2) := PostEvents(mid, n, second, limit, b);
               && r2.Accepted? && r2.lastSequence == r.lastSequence
               && Restamped(whole, last) && SameAcks(r.acknowledgements, r1.acknowledgements + r2.acknowledgements)
  {
    hide IngestEvents, Restamped, SameAck;
    ItemCountConcat(a, b);
    IngestSplits(db, n, now, a, b);
    SameDb(db);
    EventsRestamped(db, db, n, now, first, a);
    var mid, other := IngestEvents(db, n, now, a).value.0, IngestEvents(db, n, first, a).value.0;
    SameNodes(mid, other);
    IngestKeepsActive(db, n, now, a);
    EventsRestamped(mid, other, n, now, second, b);
    SameNodes(IngestEvents(mid, n, now, b).value.0, IngestEvents(other, n, second, b).value.0);
  }
}
