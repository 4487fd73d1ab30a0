/** What accepted stock snapshots and QR replacements make of the serials they list (app/services/network_ingest.py). */
module SnapshotOutcomes {
  import opened Records
  import opened NetworkDb
  import opened NetworkIngest
  import opened EventOutcomes

  // ---------------------------------------------------------------- one listed serial

  ghost predicate HasEnrolmentForm(n: NodeCode, e: Event) {
    e.kind == StockSnapshot && e.reason == InitialEnrollment && e.reference == InitialInventory(n, e.sequence)
  }

  /** The node's first event, or one that directly follows an initial snapshot of the node. */
  ghost predicate InWindow(db: Db, n: NodeCode, e: Event) {
    && HasEnrolmentForm(n, e)
    && (e.sequence == 1
        || exists id | id in db.journal ::
             db.journal[id].node == n && db.journal[id].event.sequence == e.sequence - 1 && HasEnrolmentForm(n, db.journal[id].event))
  }

  lemma InWindowExactly(db: Db, n: NodeCode, e: Event)
    requires e.kind.StockSnapshot?
    ensures IsInitialEnrollment(db, n, e) <==> InWindow(db, n, e)
  {
    if InitialContinues(db, n, e) && e.sequence != 1 {
      var p :| p in db.journal && db.journal[p].node == n && db.journal[p].event.sequence == e.sequence - 1
               && db.journal[p].event.kind.StockSnapshot?
               && db.journal[p].event.reference == InitialInventory(n, e.sequence - 1) && db.journal[p].event.reason.InitialEnrollment?;
      assert HasEnrolmentForm(n, db.journal[p].event);
    }
  }

  /** A known serial must be the sender's, in the status that Master has, and of its product. */
  ghost predicate Refreshable(db: Db, n: NodeCode, item: Item) {
    var s := item.serial;
    && Tracked(db, s) && db.stock[s].owner == n && item.status == Some(db.stock[s].status) && db.stock[s].origin in db.nodes
    && db.serials[s].product in db.products && IdentityAccepted(db, db.serials[s].product, db.stock[s].origin, item)
  }

  /** A new serial must be GENERATED or IN_STOCK, and of its product if Master has it. */
  ghost predicate Enrollable(db: Db, n: NodeCode, item: Item) {
    && item.serial !in db.serials && (item.status == Some(Generated) || item.status == Some(InStock))
    && (ProductCode(n, item.productCode) in db.products ==> IdentityAccepted(db, ProductCode(n, item.productCode), n, item))
  }

  /** The new serial is the sender's own, active and in the reported status, in both rows. */
  ghost predicate Enrolled(db: Db, next: Db, n: NodeCode, e: Uuid, item: Item) {
    var s := item.serial;
    && n in db.nodes && item.status.Some? && s !in db.serials && Tracked(next, s)
    && next.stock[s] == Stock(n, n, item.status.value, Some(e))
    && next.serials[s] == Serial(next.serials[s].id, ProductCode(n, item.productCode), item.status.value, true, None,
                                 item.details.(warehouse := if item.details.warehouse.Some? && item.details.warehouse.value != ""
                                                            then item.details.warehouse else db.nodes[n].godown))
    && db.nextId <= next.serials[s].id < next.nextId
    && (s in next.enrolled <==> s in db.enrolled || item.status.value == InStock)
  }

  ghost predicate Snapped(db: Db, next: Db, n: NodeCode, e: Uuid, item: Item) {
    if item.serial in db.serials
    then item.serial in db.stock && db.stock[item.serial].owner == n && item.status == Some(db.stock[item.serial].status)
         && Written(db, next, n, e, item, n, db.stock[item.serial].status)
    else Enrolled(db, next, n, e, item)
  }

  /** Products stay as they are, but for one that the item creates. */
  ghost predicate ProductOf(db: Db, next: Db, n: NodeCode, item: Item) {
    var code := ProductCode(n, item.productCode);
    && next.products == (if item.serial in db.serials || code in db.products then db.products
                         else db.products[code := Product(item.identity, item.rate, item.discountRate, "", None, true)])
  }

  /** Serials, their stock rows and products are all that a snapshot writes. */
  ghost predicate OnlySerials(db: Db, next: Db) {
    next == db.(serials := next.serials, nextId := next.nextId, stock := next.stock, enrolled := next.enrolled,
                products := next.products, productOrder := next.productOrder)
  }

  /** The serials are those from before and the listed one. */
  ghost predicate Gains(db: Db, next: Db, s: SerialNumber) {
    && next.serials.Keys == db.serials.Keys + {s} && db.nextId <= next.nextId && db.enrolled <= next.enrolled <= db.enrolled + {s}
    && OnlySerials(db, next)
  }

  lemma ItemSnapped(db: Db, n: NodeCode, e: Event, initial: bool, item: Item)
    requires n in db.nodes
    ensures SnapshotItem(db, n, e, initial, item).Ok?
            <==> if item.serial in db.serials then Refreshable(db, n, item) else initial && Enrollable(db, n, item)
    ensures SnapshotItem(db, n, e, initial, item).Ok? ==>
              var next := SnapshotItem(db, n, e, initial, item).value;
              Snapped(db, next, n, e.id, item) && OthersSame(db, next, [item]) && ProductOf(db, next, n, item)
              && Gains(db, next, item.serial)
  {
    hide EnrolSerial, SnapshotKnown, Enrolled, Written, OthersSame, ProductOf, Gains, IdentityAccepted;
    if item.serial in db.serials {
      if item.status.Some? {
        KnownSnapped(db, n, e, item);
      }
    } else if item.status == Some(Generated) || item.status == Some(InStock) {
      NewSnapped(db, n, e, item);
    }
  }

  lemma KnownSnapped(db: Db, n: NodeCode, e: Event, item: Item)
    requires n in db.nodes && item.serial in db.serials && item.status.Some?
    ensures SnapshotKnown(db, n, e, item, item.status.value).Ok? <==> Refreshable(db, n, item)
    ensures SnapshotKnown(db, n, e, item, item.status.value).Ok? ==>
              var next := SnapshotKnown(db, n, e, item, item.status.value).value;
              Snapped(db, next, n, e.id, item) && OthersSame(db, next, [item]) && ProductOf(db, next, n, item)
              && Gains(db, next, item.serial)
  {
    hide IdentityAccepted, UpdatedDetails, Reported;
    if Refreshable(db, n, item) {
      MovedWrites(db, n, e.id, item, n, db.stock[item.serial].status);
    }
  }

  lemma NewSnapped(db: Db, n: NodeCode, e: Event, item: Item)
    requires n in db.nodes && item.serial !in db.serials && (item.status == Some(Generated) || item.status == Some(InStock))
    ensures EnrolSerial(db, n, e, item, item.status.value).Ok? <==> Enrollable(db, n, item)
    ensures EnrolSerial(db, n, e, item, item.status.value).Ok? ==>
              var next := EnrolSerial(db, n, e, item, item.status.value).value;
              Snapped(db, next, n, e.id, item) && OthersSame(db, next, [item]) && ProductOf(db, next, n, item)
              && Gains(db, next, item.serial)
  {
    var code := ProductCode(n, item.productCode);
    var known := EnsureProduct(db, code, item);
    EnsuredAccepts(db, n, item);
    hide EnsureProduct, IdentityAccepted, Snapped, OthersSame, ProductOf, Gains, NewSerial;
    if EnrolSerial(db, n, e, item, item.status.value).Ok? {
      NewRows(db, n, e.id, item, item.status.value);
    }
  }

  lemma EnsuredAccepts(db: Db, n: NodeCode, item: Item)
    ensures var code := ProductCode(n, item.productCode);
            var known := EnsureProduct(db, code, item);
            IdentityAccepted(known, code, n, item) <==> code !in db.products || IdentityAccepted(db, code, n, item)
  {
    SameAsItself(item.identity);
    hide SameIdentity;
  }

  lemma NewRows(db: Db, n: NodeCode, e: Uuid, item: Item, status: Status)
    requires n in db.nodes && item.serial !in db.serials && item.status == Some(status)
    ensures var code := ProductCode(n, item.productCode);
            var next := NewSerial(EnsureProduct(db, code, item), n, e, item, code, status);
            Snapped(db, next, n, e, item) && OthersSame(db, next, [item]) && ProductOf(db, next, n, item) && Gains(db, next, item.serial)
  {
    var code := ProductCode(n, item.productCode);
    var known := EnsureProduct(db, code, item);
    var next := NewSerial(known, n, e, item, code, status);
    EnsuredProduct(db, n, item);
    hide EnsureProduct, Snapped, ProductOf, OthersSame, Gains;
    EnrolledRow(db, known, n, e, item, status);
    hide NewSerial;
    SerialAdded(db, known, next, item);
    ProductStays(db, known, next, n, item);
  }

  lemma EnsuredProduct(db: Db, n: NodeCode, item: Item)
    requires item.serial !in db.serials
    ensures var known := EnsureProduct(db, ProductCode(n, item.productCode), item);
            known == db.(products := known.products, productOrder := known.productOrder) && ProductOf(db, known, n, item)
  {
  }

  lemma ProductStays(db: Db, known: Db, next: Db, n: NodeCode, item: Item)
    requires ProductOf(db, known, n, item)
    requires next.products == known.products
    ensures ProductOf(db, next, n, item)
  {
  }

  lemma EnrolledRow(db: Db, known: Db, n: NodeCode, e: Uuid, item: Item, status: Status)
    requires n in db.nodes && item.serial !in db.serials && item.status == Some(status)
    requires known == db.(products := known.products, productOrder := known.productOrder)
    ensures var next := NewSerial(known, n, e, item, ProductCode(n, item.productCode), status);
            && item.serial in next.serials && item.serial in next.stock && Snapped(db, next, n, e, item)
            && next == known.(serials := known.serials[item.serial := next.serials[item.serial]], nextId := known.nextId + 1,
                              stock := known.stock[item.serial := next.stock[item.serial]], enrolled := next.enrolled)
            && known.enrolled <= next.enrolled <= known.enrolled + {item.serial}
  {
    hide Written;
  }

  lemma SerialAdded(db: Db, known: Db, next: Db, item: Item)
    requires known == db.(products := known.products, productOrder := known.productOrder)
    requires item.serial in next.serials && item.serial in next.stock
    requires next == known.(serials := known.serials[item.serial := next.serials[item.serial]], nextId := known.nextId + 1,
                            stock := known.stock[item.serial := next.stock[item.serial]], enrolled := next.enrolled)
    requires known.enrolled <= next.enrolled <= known.enrolled + {item.serial}
    ensures OthersSame(db, next, [item]) && Gains(db, next, item.serial)
  {
    forall s | Unlisted([item], s) ensures s != item.serial {
      assert [item][0].serial != s;
    }
  }

  lemma SameAsItself(identity: Identity)
    ensures SameIdentity(identity, identity)
  {
  }

  // ---------------------------------------------------------------- all listed serials

  ghost predicate Grows(db: Db, next: Db, items: seq<Item>) {
    && db.nextId <= next.nextId && OnlySerials(db, next)
    && forall s | Unlisted(items, s) :: s in next.enrolled <==> s in db.enrolled
  }

  /** The item at k is the first new serial of the product. */
  ghost predicate Introduces(db: Db, items: seq<Item>, k: nat, local: string) {
    && k < |items| && items[k].serial !in db.serials && items[k].productCode == local
    && forall j | 0 <= j < k :: items[j].serial in db.serials || items[j].productCode != local
  }

  ghost predicate Introduced(db: Db, items: seq<Item>, local: string, product: Product) {
    exists k: nat ::
      && Introduces(db, items, k, local)
      && product == Product(items[k].identity, items[k].rate, items[k].discountRate, "", None, true)
  }

  /** Every product stays as it is, and each product that is added comes from the first new serial that names it. */
  ghost predicate ProductsFrom(db: Db, next: Db, n: NodeCode, items: seq<Item>) {
    && (forall c | c in db.products :: c in next.products && next.products[c] == db.products[c])
    && (forall c | c in next.products && c !in db.products :: c.franchise == n && Introduced(db, items, c.local, next.products[c]))
    && (forall k | 0 <= k < |items| && items[k].serial !in db.serials :: ProductCode(n, items[k].productCode) in next.products)
  }

  /** How many of the items Master did not know. */
  function NewCount(db: Db, items: seq<Item>): nat {
    if items == [] then 0 else NewCount(db, items[1..]) + if items[0].serial in db.serials then 0 else 1
  }

  lemma {:induction false} NewCountFrame(db: Db, mid: Db, items: seq<Item>)
    requires forall k :: 0 <= k < |items| ==> (items[k].serial in mid.serials <==> items[k].serial in db.serials)
    ensures NewCount(mid, items) == NewCount(db, items)
  {
    if items != [] {
      NewCountFrame(db, mid, items[1..]);
    }
  }

  lemma ItemGrows(db: Db, mid: Db, n: NodeCode, item: Item)
    requires Gains(db, mid, item.serial) && ProductOf(db, mid, n, item)
    ensures Grows(db, mid, [item])
  {
    forall s | Unlisted([item], s) ensures s != item.serial {
      assert [item][0].serial != s;
    }
  }

  lemma GrowsTwice(db: Db, mid: Db, next: Db, items: seq<Item>)
    requires items != [] && Grows(db, mid, [items[0]]) && Grows(mid, next, items[1..])
    ensures Grows(db, next, items)
  {
    forall s | Unlisted(items, s) ensures s in next.enrolled <==> s in db.enrolled {
      assert items[0].serial != s && Unlisted([items[0]], s);
      assert forall k :: 0 <= k < |items[1..]| ==> items[1..][k] == items[k + 1];
      assert Unlisted(items[1..], s);
    }
  }

  lemma FirstSnapped(db: Db, mid: Db, next: Db, n: NodeCode, e: Uuid, items: seq<Item>)
    requires items != [] && Snapped(db, mid, n, e, items[0]) && Unlisted(items[1..], items[0].serial)
    requires OthersSame(mid, next, items[1..]) && Grows(mid, next, items[1..])
    ensures Snapped(db, next, n, e, items[0])
  {
    var item := items[0];
    UnlistedSame(mid, next, items[1..], item.serial);
    if item.serial in db.serials {
      hide Written, OthersSame, Grows;
      WrittenThenSame(db, mid, next, n, e, item, n, db.stock[item.serial].status);
    } else {
      hide Written, OthersSame;
    }
  }

  lemma LaterSnapped(db: Db, mid: Db, next: Db, n: NodeCode, e: Uuid, items: seq<Item>, item: Item)
    requires OthersSame(db, mid, items) && Grows(db, mid, items) && Unlisted(items, item.serial) && Snapped(mid, next, n, e, item)
    ensures Snapped(db, next, n, e, item)
  {
    UnlistedSame(db, mid, items, item.serial);
    hide OthersSame;
    if item.serial in db.serials {
      assert mid.nodes == db.nodes;
      hide Written, Grows;
      SameThenWritten(db, mid, next, n, e, item, n, db.stock[item.serial].status);
    } else {
      hide Written;
    }
  }

  lemma NothingSnapped(db: Db, n: NodeCode)
    ensures OthersSame(db, db, []) && Grows(db, db, []) && ProductsFrom(db, db, n, [])
  {
  }

  lemma ProductsTwice(db: Db, mid: Db, next: Db, n: NodeCode, items: seq<Item>)
    requires items != [] && DistinctSerials(items) && Gains(db, mid, items[0].serial)
    requires ProductOf(db, mid, n, items[0]) && ProductsFrom(mid, next, n, items[1..])
    ensures ProductsFrom(db, next, n, items)
  {
    hide Introduced, Introduces, DistinctSerials;
    forall c | c in next.products && c !in db.products
      ensures c.franchise == n && Introduced(db, items, c.local, next.products[c])
    {
      if c in mid.products {
        FirstIntroduces(db, mid, n, items);
      } else {
        LaterIntroduced(db, mid, n, items, c.local, next.products[c]);
      }
    }
    ProductsPresent(db, mid, next, n, items);
  }

  lemma FirstIntroduces(db: Db, mid: Db, n: NodeCode, items: seq<Item>)
    requires items != [] && ProductOf(db, mid, n, items[0])
    ensures forall c | c in mid.products && c !in db.products :: c.franchise == n && Introduced(db, items, c.local, mid.products[c])
  {
    forall c | c in mid.products && c !in db.products ensures c.franchise == n && Introduced(db, items, c.local, mid.products[c]) {
      assert Introduces(db, items, 0, c.local);
    }
  }

  lemma LaterIntroduced(db: Db, mid: Db, n: NodeCode, items: seq<Item>, local: string, product: Product)
    requires items != [] && DistinctSerials(items) && Gains(db, mid, items[0].serial) && ProductOf(db, mid, n, items[0])
    requires Introduced(mid, items[1..], local, product) && ProductCode(n, local) !in mid.products
    ensures Introduced(db, items, local, product)
  {
    hide Gains, ProductOf, DistinctSerials;
    var k: nat :| Introduces(mid, items[1..], k, local) && k < |items[1..]|
                  && product == Product(items[1..][k].identity, items[1..][k].rate, items[1..][k].discountRate, "", None, true);
    LaterIntroduces(db, mid, n, items, k, local);
    assert items[1..][k] == items[k + 1];
  }

  lemma ProductsPresent(db: Db, mid: Db, next: Db, n: NodeCode, items: seq<Item>)
    requires items != [] && DistinctSerials(items) && Gains(db, mid, items[0].serial)
    requires ProductOf(db, mid, n, items[0]) && ProductsFrom(mid, next, n, items[1..])
    ensures forall k | 0 <= k < |items| && items[k].serial !in db.serials :: ProductCode(n, items[k].productCode) in next.products
  {
    hide Introduced;
    forall k | 0 <= k < |items| && items[k].serial !in db.serials ensures ProductCode(n, items[k].productCode) in next.products {
      if k > 0 {
        assert items[1..][k - 1].serial !in mid.serials;
      }
    }
  }

  lemma LaterIntroduces(db: Db, mid: Db, n: NodeCode, items: seq<Item>, k: nat, local: string)
    requires items != [] && DistinctSerials(items) && Gains(db, mid, items[0].serial) && ProductOf(db, mid, n, items[0])
    requires Introduces(mid, items[1..], k, local) && ProductCode(n, local) !in mid.products
    ensures Introduces(db, items, k + 1, local)
  {
    forall j | 0 <= j < k + 1 ensures items[j].serial in db.serials || items[j].productCode != local {
      if j > 0 {
        assert items[1..][j - 1] == items[j];
      }
    }
  }

  lemma {:induction false} ItemsSnapped(db: Db, n: NodeCode, e: Event, initial: bool, items: seq<Item>)
    requires n in db.nodes && DistinctSerials(items) && SnapshotItems(db, n, e, initial, items).Ok?
    ensures var (next, created) := SnapshotItems(db, n, e, initial, items).value;
            && (forall k :: 0 <= k < |items| ==> Snapped(db, next, n, e.id, items[k]) && (items[k].serial in db.serials || initial))
            && OthersSame(db, next, items) && Grows(db, next, items) && ProductsFrom(db, next, n, items)
            && created == NewCount(db, items)
    decreases |items|
  {
    hide SnapshotItem, Snapped, OthersSame, Grows, ProductsFrom, ProductOf, DistinctSerials, Unlisted, Refreshable, Enrollable;
    if items == [] {
      NothingSnapped(db, n);
    } else {
      var mid, next := SnapshotItem(db, n, e, initial, items[0]).value, SnapshotItems(db, n, e, initial, items).value.0;
      FirstUnlisted(items);
      ItemSnapped(db, n, e, initial, items[0]);
      ItemsSnapped(mid, n, e, initial, items[1..]);
      ItemGrows(db, mid, n, items[0]);
      OthersTwice(db, mid, next, items);
      GrowsTwice(db, mid, next, items);
      ProductsTwice(db, mid, next, n, items);
      FirstSnapped(db, mid, next, n, e.id, items);
      forall k | 0 <= k < |items[1..]| ensures items[1..][k].serial in mid.serials <==> items[1..][k].serial in db.serials {
        KnownBefore(db, mid, [items[0]], items[1..][k].serial);
      }
      NewCountFrame(db, mid, items[1..]);
      forall k | 0 <= k < |items|
        ensures Snapped(db, next, n, e.id, items[k]) && (items[k].serial in db.serials || initial)
      {
        if k > 0 {
          LaterSnapped(db, mid, next, n, e.id, [items[0]], items[1..][k - 1]);
        }
      }
    }
  }

  lemma KnownBefore(db: Db, mid: Db, items: seq<Item>, s: SerialNumber)
    requires OthersSame(db, mid, items) && Unlisted(items, s)
    ensures s in mid.serials <==> s in db.serials
  {
    UnlistedSame(db, mid, items, s);
  }

  lemma EnrolmentOutcome(db: Db, n: NodeCode, e: Event)
    requires n in db.nodes && DistinctSerials(e.items) && e.kind.StockSnapshot? && e.reason != QrReplacement && Snapshot(db, n, e).Ok?
    ensures var (next, result) := Snapshot(db, n, e).value;
            && (forall k :: 0 <= k < |e.items| ==> Snapped(db, next, n, e.id, e.items[k]))
            && (forall k :: 0 <= k < |e.items| && e.items[k].serial !in db.serials ==> InWindow(db, n, e))
            && OthersSame(db, next, e.items) && Grows(db, next, e.items) && ProductsFrom(db, next, n, e.items)
            && NewCount(db, e.items) <= |e.items|
            && result == SnapshotResult(NewCount(db, e.items), |e.items| - NewCount(db, e.items))
  {
    InWindowExactly(db, n, e);
    hide SnapshotItems, ReplacementSnapshot, Snapped, OthersSame, Grows, ProductsFrom, DistinctSerials, InWindow, IsInitialEnrollment, NewCount;
    hide Snapshot;
    SnapshotIsItems(db, n, e);
    ItemsSnapped(db, n, e, IsInitialEnrollment(db, n, e), e.items);
  }

  lemma SnapshotIsItems(db: Db, n: NodeCode, e: Event)
    requires n in db.nodes && e.reason != QrReplacement && Snapshot(db, n, e).Ok?
    ensures SnapshotItems(db, n, e, IsInitialEnrollment(db, n, e), e.items).Ok?
    ensures var (last, created) := SnapshotItems(db, n, e, IsInitialEnrollment(db, n, e), e.items).value;
            var (next, result) := Snapshot(db, n, e).value;
            next == last && result == SnapshotResult(created, |e.items| - created)
  {
    hide SnapshotItems, ReplacementSnapshot, IsInitialEnrollment;
  }

  /**
   An accepted snapshot refreshes every serial that Master knows, in the status that Master has, and enrols every
   other one as the sender's own, which happens only in the initial window. Unlisted serials do not change, known
   products keep their records, and the counts of the answer are those of new and known serials.
   */
  lemma SnapshotOutcome(db: Db, n: NodeCode, e: Event)
    requires n in db.nodes && WellShaped(e) && e.kind.StockSnapshot? && e.reason != QrReplacement && ApplyEvent(db, n, e).Ok?
    ensures var (next, result) := ApplyEvent(db, n, e).value;
            && (forall k :: 0 <= k < |e.items| ==> Snapped(db, next, n, e.id, e.items[k]))
            && (forall k :: 0 <= k < |e.items| && e.items[k].serial !in db.serials ==> InWindow(db, n, e))
            && OthersSame(db, next, e.items) && Grows(db, next, e.items) && ProductsFrom(db, next, n, e.items)
            && NewCount(db, e.items) <= |e.items|
            && result == SnapshotResult(NewCount(db, e.items), |e.items| - NewCount(db, e.items))
  {
    hide Snapshot, Snapped, OthersSame, Grows, ProductsFrom, InRange, DistinctSerials, InWindow, NewCount;
    assert ApplyEvent(db, n, e) == Snapshot(db, n, e);
    EnrolmentOutcome(db, n, e);
  }

  // ---------------------------------------------------------------- QR replacements

  /** Master's open reservation of the new number for the old serial, which the event names by its command. */
  ghost predicate Reserved(db: Db, n: NodeCode, e: Event, prior: SerialNumber, incoming: SerialNumber) {
    && prior in db.stock && prior in db.intents
    && e.reference == CommandId(db.intents[prior].command)
    && db.intents[prior] == Intent(n, incoming, db.stock[prior].status, db.intents[prior].command, false)
    && db.intents[prior].command < |db.commands|
    && db.commands[db.intents[prior].command].target == n && db.commands[db.intents[prior].command].payload.QrReplace?
  }

  function Successor(status: Status): Status {
    match status
    case Generated => Generated
    case _ => InStock
  }

  /** The event reports an active serial of the sender as INVALID, and its reserved successor in the right status. */
  ghost predicate Exchangeable(db: Db, n: NodeCode, e: Event, prior: Item, incoming: Item) {
    var s := prior.serial;
    && Tracked(db, s) && incoming.serial !in db.serials
    && db.stock[s].owner == n && db.serials[s].active
    && db.stock[s].status in {Generated, InStock, Returned, Damaged}
    && prior.status == Some(Invalid) && incoming.status == Some(Successor(db.stock[s].status))
    && db.stock[s].origin in db.nodes && db.serials[s].product in db.products
    && IdentityAccepted(db, db.serials[s].product, db.stock[s].origin, prior)
    && IdentityAccepted(db, db.serials[s].product, db.stock[s].origin, incoming)
    && Reserved(db, n, e, s, incoming.serial)
  }

  /** The old serial is out for good; the new one has its product, origin and details, and the reservation is used up. */
  ghost predicate Exchanged(db: Db, next: Db, n: NodeCode, e: Uuid, prior: Item, incoming: SerialNumber) {
    var s := prior.serial;
    && n in db.nodes && Tracked(db, s) && s in db.intents && Tracked(next, s) && Tracked(next, incoming)
    && Reported(prior, db.nodes[n], db.serials[s].details, next.serials[s].details)
    && next.stock == db.stock[incoming := Stock(n, db.stock[s].origin, Successor(db.stock[s].status), Some(e))]
                             [s := Stock(db.stock[s].owner, db.stock[s].origin, Invalid, Some(e))]
    && next.serials == db.serials[incoming := Serial(db.nextId, db.serials[s].product, Successor(db.stock[s].status), true, None,
                                                     next.serials[s].details)]
                                 [s := Serial(db.serials[s].id, db.serials[s].product, Invalid, false, Some(incoming),
                                              next.serials[s].details)]
    && next.intents == db.intents[s := db.intents[s].(completed := true)]
    && next == db.(serials := next.serials, stock := next.stock, intents := next.intents, nextId := db.nextId + 1)
  }

  lemma CheckedExchange(db: Db, n: NodeCode, e: Event, prior: Item, incoming: Item)
    requires Tracked(db, prior.serial)
    ensures incoming.serial !in db.serials ==> (CheckReplacement(db, n, e, prior, incoming).Ok? <==> Exchangeable(db, n, e, prior, incoming))
  {
    hide IdentityAccepted;
  }

  lemma ReplaceExchanges(db: Db, n: NodeCode, e: Event, prior: Item, incoming: SerialNumber)
    requires n in db.nodes && Tracked(db, prior.serial) && prior.serial in db.intents && incoming !in db.serials
    ensures Exchanged(db, Replace(db, n, e, prior, incoming), n, e.id, prior, incoming)
  {
    DetailsReported(db.serials[prior.serial].details, db.nodes[n], prior);
    hide UpdatedDetails, Reported;
  }

  /**
   A replacement is accepted exactly when one of its two items is a replaceable serial and the other its reserved
   successor; it then exchanges the two and does nothing else.
   */
  lemma ReplacementOutcome(db: Db, n: NodeCode, e: Event)
    requires n in db.nodes && WellShaped(e) && e.kind.StockSnapshot? && e.reason == QrReplacement
    ensures ApplyEvent(db, n, e).Ok? <==>
              |e.items| == 2 && (Exchangeable(db, n, e, e.items[0], e.items[1]) || Exchangeable(db, n, e, e.items[1], e.items[0]))
    ensures ApplyEvent(db, n, e).Ok? ==>
              var (next, result) := ApplyEvent(db, n, e).value;
              exists prior, incoming ::
                && (e.items == [prior, incoming] || e.items == [incoming, prior])
                && Exchangeable(db, n, e, prior, incoming) && Exchanged(db, next, n, e.id, prior, incoming.serial)
                && result == ReplacementResult(prior.serial, incoming.serial, Successor(db.stock[prior.serial].status))
  {
    hide ReplacementSnapshot, InRange, DistinctSerials, Exchangeable, Exchanged;
    assert ApplyEvent(db, n, e) == Snapshot(db, n, e) == ReplacementSnapshot(db, n, e);
    ExchangeOutcome(db, n, e);
  }

  lemma ExchangeOutcome(db: Db, n: NodeCode, e: Event)
    requires n in db.nodes
    ensures ReplacementSnapshot(db, n, e).Ok? <==>
              |e.items| == 2 && (Exchangeable(db, n, e, e.items[0], e.items[1]) || Exchangeable(db, n, e, e.items[1], e.items[0]))
    ensures ReplacementSnapshot(db, n, e).Ok? ==>
              var (next, result) := ReplacementSnapshot(db, n, e).value;
              exists prior, incoming ::
                && (e.items == [prior, incoming] || e.items == [incoming, prior])
                && Exchangeable(db, n, e, prior, incoming) && Exchanged(db, next, n, e.id, prior, incoming.serial)
                && result == ReplacementResult(prior.serial, incoming.serial, Successor(db.stock[prior.serial].status))
  {
    hide CheckReplacement, Exchanged, IdentityAccepted, Replace;
    if |e.items| == 2 {
      var first, second := e.items[0], e.items[1];
      if Tracked(db, first.serial) {
        CheckedExchange(db, n, e, first, second);
      }
      if Tracked(db, second.serial) {
        CheckedExchange(db, n, e, second, first);
      }
      if ReplacementSnapshot(db, n, e).Ok? {
        var (prior, incoming) := if Tracked(db, first.serial) then (first, second) else (second, first);
        assert Exchangeable(db, n, e, prior, incoming);
        ReplaceExchanges(db, n, e, prior, incoming.serial);
        assert e.items == [first, second];
      }
    }
  }
}
