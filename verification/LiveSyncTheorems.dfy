/** Live sync keeps events that were frozen under an earlier product identity valid, and settles. */
module LiveSyncTheorems {
  import opened Records
  import opened NetworkDb
  import opened NetworkIngest
  import opened QrAllocation
  import opened QrReplacementIntent
  import opened TallyProducts
  import opened StockInvariants
  import opened LedgerInvariants
  import opened MasterSystem
  import opened SystemSteps
  import opened Frames
  import Text

  // ---------------------------------------------------------------- the identities a product has had

  /** The identity is the product's current one or a replaced one. */
  ghost predicate Recorded(db: Db, code: ProductCode, identity: Identity) {
    code in db.products
    && (db.products[code].identity == identity || InHistory(db.identityHistory, code, identity))
  }

  ghost predicate InHistory(history: seq<ReplacedIdentity>, code: ProductCode, identity: Identity) {
    exists k :: 0 <= k < |history| && history[k].product == code && history[k].identity == identity
  }

  /** Replaced identities belong to known products. */
  ghost predicate HistoryResolves(db: Db) {
    forall k :: 0 <= k < |db.identityHistory| ==> db.identityHistory[k].product in db.products
  }

  /** In `next` each product's record is what it was, with the current identity added. */
  ghost predicate RecordGrows(db: Db, next: Db) {
    && db.products.Keys <= next.products.Keys
    && (forall code, identity | code in next.products ::
          Recorded(next, code, identity) <==> Recorded(db, code, identity) || next.products[code].identity == identity)
  }

  lemma SameHistoryGrows(db: Db, next: Db)
    requires HistoryResolves(db) && next.identityHistory == db.identityHistory
    requires forall c | c in db.products :: c in next.products && next.products[c].identity == db.products[c].identity
    ensures HistoryResolves(next) && RecordGrows(db, next)
  {
    forall code, identity | code in next.products
      ensures Recorded(next, code, identity) <==> Recorded(db, code, identity) || next.products[code].identity == identity
    {
      if InHistory(next.identityHistory, code, identity) {
        assert code in db.products;
      }
    }
  }

  lemma GrowsTwice(db: Db, mid: Db, last: Db)
    requires RecordGrows(db, mid) && RecordGrows(mid, last)
    requires forall c | c in mid.products ::
               && c in last.products
               && ((c in db.products && mid.products[c].identity == db.products[c].identity)
                   || last.products[c].identity == mid.products[c].identity)
    ensures RecordGrows(db, last)
  {
    forall code, identity | code in last.products
      ensures Recorded(last, code, identity) <==> Recorded(db, code, identity) || last.products[code].identity == identity
    {
      if code in mid.products && mid.products[code].identity == identity {
        assert Recorded(mid, code, identity);
        assert Recorded(db, code, identity) || last.products[code].identity == identity;
      }
    }
  }

  // ---------------------------------------------------------------- events leave products alone

  lemma {:induction false} IngestLeavesProducts(db: Db, n: NodeCode, now: int, events: seq<Event>)
    requires Inv(db) && n in db.nodes && (forall k :: 0 <= k < |events| ==> WellShaped(events[k]))
    requires IngestEvents(db, n, now, events).Ok?
    ensures var next := IngestEvents(db, n, now, events).value.0;
            && next.identityHistory == db.identityHistory
            && forall c | c in db.products :: c in next.products && next.products[c] == db.products[c]
    decreases |events|
  {
    hide Inv, AcceptEvent;
    if events != [] {
      var next := IngestEvent(db, n, now, events[0]).value.0;
      if events[0].id !in db.journal {
        AcceptKeeps(db, n, now, events[0]);
        AcceptLeavesProducts(db, n, now, events[0]);
      }
      IngestLeavesProducts(next, n, now, events[1..]);
    }
  }

  lemma AcceptLeavesProducts(db: Db, n: NodeCode, now: int, e: Event)
    requires Inv(db) && n in db.nodes && WellShaped(e) && AcceptEvent(db, n, now, e).Ok?
    ensures var next := AcceptEvent(db, n, now, e).value.0;
            && next.identityHistory == db.identityHistory
            && forall c | c in db.products :: c in next.products && next.products[c] == db.products[c]
  {
    hide StockInv, Ledger, Journal, Vouchers, Catalogue, Allocations, ApplyEvent, NewBatch, Extends, SequenceUsed;
    ApplyEventLedger(db, n, e);
  }

  // ---------------------------------------------------------------- one sync

  /** A sync of one product changes that product only, and logs its identity exactly when it replaces it. */
  ghost predicate SyncsOne(db: Db, next: Db, items: seq<TallyItem>, now: int, code: ProductCode)
    requires code in db.products
  {
    var product := db.products[code];
    var item := MatchedItem(items, product);
    && next.products == (if item.None? then db.products else db.products[code := SyncedProduct(product, item.value, now)])
    && next.identityHistory == (if Updates(db, items, code)
                                then db.identityHistory + [ReplacedIdentity(code, product.identity, now)]
                                else db.identityHistory)
    && (!Updates(db, items, code) ==> next.commands == db.commands)
  }

  lemma SyncProductSyncsOne(db: Db, items: seq<TallyItem>, now: int, code: ProductCode)
    requires code in db.products
    ensures SyncsOne(db, SyncProduct(db, items, now, code), items, now, code)
  {
    hide MatchedItem, Changed, TargetIdentity, SyncedProduct, Announce;
    if Updates(db, items, code) {
      hide SyncsOne;
      UpdatingSync(db, items, now, code);
    }
  }

  lemma UpdatingSync(db: Db, items: seq<TallyItem>, now: int, code: ProductCode)
    requires code in db.products && Updates(db, items, code)
    ensures SyncsOne(db, SyncProduct(db, items, now, code), items, now, code)
  {
    hide MatchedItem, Changed, TargetIdentity, SyncedProduct, Announce;
  }

  /** A product that a sync does not update keeps its identity; otherwise the old one is logged. */
  lemma SyncedIdentity(product: Product, item: TallyItem, now: int)
    ensures var synced := SyncedProduct(product, item, now);
            synced.identity == if Changed(product.identity, TargetIdentity(product, item)) then TargetIdentity(product, item) else product.identity
    ensures SyncedProduct(product, item, now).tallySyncedAt.Some?
  {
  }

  lemma SyncOneGrows(db: Db, next: Db, items: seq<TallyItem>, now: int, code: ProductCode)
    requires HistoryResolves(db) && code in db.products && SyncsOne(db, next, items, now, code)
    ensures HistoryResolves(next) && RecordGrows(db, next)
    ensures forall c | c in db.products && c != code :: next.products[c] == db.products[c]
  {
    hide MatchedItem, Changed, TargetIdentity, SyncedProduct;
    if MatchedItem(items, db.products[code]).Some? {
      SyncedIdentity(db.products[code], MatchedItem(items, db.products[code]).value, now);
    }
    if Updates(db, items, code) {
      var row := ReplacedIdentity(code, db.products[code].identity, now);
      assert next.products.Keys == db.products.Keys;
      LogGrows(db, next, row);
    } else {
      SameHistoryGrows(db, next);
    }
  }

  lemma LogGrows(db: Db, next: Db, row: ReplacedIdentity)
    requires HistoryResolves(db) && row.product in db.products && next.products.Keys == db.products.Keys
    requires row.identity == db.products[row.product].identity
    requires forall c | c in db.products && c != row.product :: next.products[c] == db.products[c]
    requires next.identityHistory == db.identityHistory + [row]
    ensures HistoryResolves(next) && RecordGrows(db, next)
  {
    assert forall c :: c in next.products <==> c in next.products.Keys;
    forall code, identity
      ensures InHistory(next.identityHistory, code, identity)
              <==> InHistory(db.identityHistory, code, identity) || (code == row.product && identity == row.identity)
    {
      HistoryRow(db.identityHistory, row, code, identity);
    }
    hide InHistory;
  }

  lemma HistoryRow(history: seq<ReplacedIdentity>, row: ReplacedIdentity, code: ProductCode, identity: Identity)
    ensures InHistory(history + [row], code, identity)
            <==> InHistory(history, code, identity) || (code == row.product && identity == row.identity)
  {
    var next := history + [row];
    if InHistory(history, code, identity) {
      var k :| 0 <= k < |history| && history[k].product == code && history[k].identity == identity;
      assert next[k] == history[k];
    }
    assert next[|history|] == row;
  }

  predicate Distinct<T(==)>(s: seq<T>) {
    forall i, j :: 0 <= i < j < |s| ==> s[i] != s[j]
  }

  lemma {:induction false} SyncProductsGrow(db: Db, items: seq<TallyItem>, now: int, codes: seq<ProductCode>)
    requires HistoryResolves(db) && AllProducts(db, codes) && Distinct(codes)
    ensures var next := SyncProducts(db, items, now, codes).0;
            && HistoryResolves(next) && RecordGrows(db, next)
            && forall c | c in db.products && c !in codes :: c in next.products && next.products[c] == db.products[c]
    decreases |codes|
  {
    hide SyncProduct, Updates, NotInTally, HistoryResolves, Recorded, SyncsOne;
    if codes == [] {
      assert HistoryResolves(db) && RecordGrows(db, db) by { SameHistoryGrows(db, db); }
    } else {
      var next := SyncProduct(db, items, now, codes[0]);
      SyncProductSyncsOne(db, items, now, codes[0]);
      SyncOneGrows(db, next, items, now, codes[0]);
      assert AllProducts(next, codes[1..]) by {
        assert forall k :: 0 <= k < |codes[1..]| ==> codes[1..][k] in db.products.Keys;
      }
      SyncProductsGrow(next, items, now, codes[1..]);
      var last := SyncProducts(next, items, now, codes[1..]).0;
      assert codes[0] !in codes[1..];
      assert last.products.Keys == next.products.Keys == db.products.Keys;
      forall c | c in next.products
        ensures c in last.products && ((c in db.products && next.products[c].identity == db.products[c].identity)
                                       || last.products[c].identity == next.products[c].identity)
      {
        assert c in db.products.Keys;
      }
      assert forall c :: c in codes <==> c == codes[0] || c in codes[1..];
      assert forall c | c in db.products && c !in codes :: c in next.products.Keys;
      hide RecordGrows;
      GrowsTwice(db, next, last);
    }
  }

  lemma {:induction false} LinkedDistinct(db: Db, codes: seq<ProductCode>)
    requires Distinct(codes)
    ensures Distinct(LinkedCodes(db, codes))
  {
    if codes != [] {
      LinkedDistinct(db, codes[1..]);
    }
  }

  // ---------------------------------------------------------------- every step, every run

  lemma StepGrows(db: Db, a: Action)
    requires Inv(db) && HistoryResolves(db)
    ensures HistoryResolves(Step(db, a)) && RecordGrows(db, Step(db, a))
  {
    hide HistoryResolves, RecordGrows;
    if a.Post? && Admissible(db, a) {
      hide IngestEvents, Step;
      PostGrows(db, a.node, a.now, a.limit, a.events);
      assert Step(db, a) == PostEvents(db, a.node, a.now, a.limit, a.events).0 by { PostStep(db, a); }
    } else if a.LiveSync? {
      hide Step;
      LiveSyncGrows(db, a.items, a.now);
      LiveSyncStep(db, a);
    } else {
      OtherStep(db, a);
      hide Step;
      SameHistoryGrows(db, Step(db, a));
    }
  }

  lemma PostStep(db: Db, a: Action)
    requires a.Post? && Admissible(db, a)
    ensures Step(db, a) == PostEvents(db, a.node, a.now, a.limit, a.events).0
  {
    hide PostEvents;
  }

  lemma LiveSyncStep(db: Db, a: Action)
    requires a.LiveSync?
    ensures Step(db, a) == ApplyTallyItems(db, a.items, a.now).0
  {
    hide ApplyTallyItems;
  }

  lemma PostGrows(db: Db, n: NodeCode, now: int, limit: nat, events: seq<Event>)
    requires Inv(db) && HistoryResolves(db) && n in db.nodes && (forall k :: 0 <= k < |events| ==> WellShaped(events[k]))
    ensures var next := PostEvents(db, n, now, limit, events).0; HistoryResolves(next) && RecordGrows(db, next)
  {
    hide IngestEvents, Inv;
    if IngestEvents(db, n, now, events).Ok? {
      IngestLeavesProducts(db, n, now, events);
    }
    SameHistoryGrows(db, PostEvents(db, n, now, limit, events).0);
  }

  lemma LiveSyncGrows(db: Db, items: seq<TallyItem>, now: int)
    requires Catalogue(db) && HistoryResolves(db)
    ensures var next := ApplyTallyItems(db, items, now).0; HistoryResolves(next) && RecordGrows(db, next)
  {
    hide SyncProducts;
    var codes := LinkedCodes(db, db.productOrder);
    LinkedDistinct(db, db.productOrder);
    SyncProductsGrow(db, items, now, codes);
  }

  lemma OtherStep(db: Db, a: Action)
    requires !a.LiveSync? && (a.Post? ==> !Admissible(db, a))
    ensures Step(db, a).identityHistory == db.identityHistory
    ensures forall c | c in db.products :: c in Step(db, a).products && Step(db, a).products[c].identity == db.products[c].identity
  {
    if !a.Post? {
      hide Step;
      StepKeepsIdentities(db, a);
    }
  }

  // ---------------------------------------------------------------- over whole runs

  /** The product had this identity at some moment of the run. */
  ghost predicate EverHad(actions: seq<Action>, code: ProductCode, identity: Identity) {
    exists k: nat :: k <= |actions| && HadAfter(actions, k, code, identity)
  }

  ghost predicate HadAfter(actions: seq<Action>, k: nat, code: ProductCode, identity: Identity)
    requires k <= |actions|
  {
    HasNow(Run(EMPTY_DB, actions[..k]), code, identity)
  }

  ghost predicate HasNow(db: Db, code: ProductCode, identity: Identity) {
    code in db.products && db.products[code].identity == identity
  }

  lemma HadEarlier(actions: seq<Action>, k: nat, code: ProductCode, identity: Identity)
    requires k < |actions|
    ensures HadAfter(actions, k, code, identity) <==> HadAfter(actions[..|actions| - 1], k, code, identity)
  {
    hide Run, HasNow;
    assert actions[..|actions| - 1][..k] == actions[..k];
  }

  lemma HadLast(actions: seq<Action>, code: ProductCode, identity: Identity)
    ensures HadAfter(actions, |actions|, code, identity) <==> HasNow(Run(EMPTY_DB, actions), code, identity)
  {
    hide Run, HasNow;
    assert actions[..|actions|] == actions;
  }

  lemma HadThen(actions: seq<Action>, k: nat, code: ProductCode, identity: Identity)
    requires k <= |actions| && HadAfter(actions, k, code, identity)
    ensures EverHad(actions, code, identity)
  {
    hide HadAfter;
  }

  /** One more action adds the identity that the product has after it. */
  lemma EverHadStep(actions: seq<Action>, code: ProductCode, identity: Identity)
    requires actions != []
    ensures EverHad(actions, code, identity)
            <==> EverHad(actions[..|actions| - 1], code, identity) || HasNow(Run(EMPTY_DB, actions), code, identity)
  {
    var before := actions[..|actions| - 1];
    hide Run, HasNow, HadAfter;
    HadLast(actions, code, identity);
    if HasNow(Run(EMPTY_DB, actions), code, identity) {
      HadThen(actions, |actions|, code, identity);
    }
    if EverHad(before, code, identity) {
      var k: nat :| k <= |before| && HadAfter(before, k, code, identity);
      HadEarlier(actions, k, code, identity);
      HadThen(actions, k, code, identity);
    }
    if EverHad(actions, code, identity) {
      var k: nat :| k <= |actions| && HadAfter(actions, k, code, identity);
      hide EverHad;
      if k < |actions| {
        HadEarlier(actions, k, code, identity);
        HadThen(before, k, code, identity);
      }
    }
  }

  lemma NothingEverHad(code: ProductCode, identity: Identity)
    ensures !EverHad([], code, identity) && !Recorded(EMPTY_DB, code, identity) && HistoryResolves(EMPTY_DB)
  {
  }

  /** What is recorded of an unknown product is nothing, and of a known one grows as `RecordGrows` says. */
  lemma RecordedStep(db: Db, next: Db, code: ProductCode, identity: Identity)
    requires RecordGrows(db, next)
    ensures Recorded(next, code, identity) <==> Recorded(db, code, identity) || HasNow(next, code, identity)
  {
    if code in next.products {
      assert Recorded(next, code, identity) <==> Recorded(db, code, identity) || next.products[code].identity == identity;
    }
  }

  /** History and current identity of a product are exactly the identities it ever had. */
  lemma {:induction false} RecordedIsEverHad(actions: seq<Action>, code: ProductCode, identity: Identity)
    ensures Recorded(Run(EMPTY_DB, actions), code, identity) <==> EverHad(actions, code, identity)
    ensures HistoryResolves(Run(EMPTY_DB, actions))
    decreases |actions|
  {
    hide Inv, Step, EverHad, HistoryResolves, RecordGrows, Recorded, HasNow;
    if actions == [] {
      NothingEverHad(code, identity);
    } else {
      var before := actions[..|actions| - 1];
      var db := Run(EMPTY_DB, before);
      RecordedIsEverHad(before, code, identity);
      RunKeeps(before);
      StepGrows(db, actions[|actions| - 1]);
      RecordedStep(db, Run(EMPTY_DB, actions), code, identity);
      EverHadStep(actions, code, identity);
    }
  }

  /**
   After any run, an item passes the identity check of a product exactly when it names the product's code
   and an identity that the product had at some moment of the run, up to text normalisation and the GST
   tolerance.
   */
  lemma OldIdentitiesStayValid(actions: seq<Action>, code: ProductCode, origin: NodeCode, item: Item)
    requires code in Run(EMPTY_DB, actions).products
    ensures ValidateIdentity(Run(EMPTY_DB, actions), code, origin, item).Ok?
            <==> code == ProductCode(origin, item.productCode)
                 && exists identity :: EverHad(actions, code, identity) && SameIdentity(identity, item.identity)
  {
    var db := Run(EMPTY_DB, actions);
    hide Run, SameIdentity, EverHad, HistoryResolves;
    forall identity ensures Recorded(db, code, identity) <==> EverHad(actions, code, identity) {
      RecordedIsEverHad(actions, code, identity);
    }
    AcceptedIsRecorded(db, code, origin, item);
    hide Recorded, IdentityAccepted;
  }

  lemma AcceptedIsRecorded(db: Db, code: ProductCode, origin: NodeCode, item: Item)
    requires code in db.products
    ensures IdentityAccepted(db, code, origin, item)
            <==> code == ProductCode(origin, item.productCode)
                 && exists identity :: Recorded(db, code, identity) && SameIdentity(identity, item.identity)
  {
    hide SameIdentity;
    if code == ProductCode(origin, item.productCode) {
      assert Recorded(db, code, db.products[code].identity);
      forall k | 0 <= k < |db.identityHistory| && db.identityHistory[k].product == code
        ensures Recorded(db, code, db.identityHistory[k].identity)
      {
      }
    }
  }

  // ---------------------------------------------------------------- the same item list again

  /** No two items have the same casefolded name: the reader of the item master skips repeated names. */
  predicate DistinctNames(items: seq<TallyItem>) {
    forall i, j :: 0 <= i < j < |items| ==> Text.FoldAll(items[i].name) != Text.FoldAll(items[j].name)
  }

  predicate SharesGuid(items: seq<TallyItem>) {
    exists i, j :: 0 <= i < j < |items| && items[i].guid == items[j].guid && items[i].guid != ""
  }

  predicate Unambiguous(items: seq<TallyItem>) {
    DistinctNames(items) && !SharesGuid(items)
  }

  /** The sync finds nothing to change in the product. */
  predicate Settled(items: seq<TallyItem>, product: Product) {
    var item := MatchedItem(items, product);
    item.Some? ==> !Changed(product.identity, TargetIdentity(product, item.value))
  }

  lemma MatchAgain(items: seq<TallyItem>, product: Product, item: TallyItem, now: int)
    requires Unambiguous(items) && MatchedItem(items, product) == Some(item)
    ensures MatchedItem(items, SyncedProduct(product, item, now)) == Some(item)
  {
    var synced := SyncedProduct(product, item, now);
    assert synced.identity.tallyName == item.name;
    assert item in items;
    var linked := ByGuid(items, synced.tallyGuid);
    var named := ByName(items, Text.FoldAll(item.name));
    assert named == Some(item);
    if ByGuid(items, product.tallyGuid).None? && product.tallyGuid == "" && item.guid != "" {
      assert linked == Some(item);
    }
  }

  lemma SettlesIdentity(product: Product, item: TallyItem, now: int)
    ensures var synced := SyncedProduct(product, item, now); !Changed(synced.identity, TargetIdentity(synced, item))
  {
  }

  lemma SyncSettles(items: seq<TallyItem>, product: Product, item: TallyItem, now: int)
    requires Unambiguous(items) && MatchedItem(items, product) == Some(item)
    ensures Settled(items, SyncedProduct(product, item, now))
  {
    MatchAgain(items, product, item, now);
    SettlesIdentity(product, item, now);
    hide MatchedItem, SyncedProduct, Changed, TargetIdentity;
  }

  lemma {:induction false} SyncProductsSettle(db: Db, items: seq<TallyItem>, now: int, codes: seq<ProductCode>)
    requires Unambiguous(items) && AllProducts(db, codes) && Distinct(codes)
    ensures var next := SyncProducts(db, items, now, codes).0;
            && (forall c | c in codes :: c in next.products && Settled(items, next.products[c]))
            && (forall c | c in db.products && c !in codes :: c in next.products && next.products[c] == db.products[c])
            && (forall c | c in db.products ::
                  next.products[c].tallySyncedAt.Some? <==> db.products[c].tallySyncedAt.Some? || (c in codes && MatchedItem(items, db.products[c]).Some?))
    decreases |codes|
  {
    hide Unambiguous, MatchedItem, SyncProduct, Updates, NotInTally, Settled, SyncedProduct;
    if codes != [] {
      var product := db.products[codes[0]];
      var next := SyncProduct(db, items, now, codes[0]);
      SyncProductSyncsOne(db, items, now, codes[0]);
      assert Settled(items, next.products[codes[0]]) && (forall c | c in db.products && c != codes[0] :: next.products[c] == db.products[c])
             && (next.products[codes[0]].tallySyncedAt.Some? <==> product.tallySyncedAt.Some? || MatchedItem(items, product).Some?)
      by {
        if MatchedItem(items, product).Some? {
          SyncSettles(items, product, MatchedItem(items, product).value, now);
          SyncedIdentity(product, MatchedItem(items, product).value, now);
        } else {
          SettledUnmatched(items, product);
        }
      }
      hide SyncsOne;
      assert AllProducts(next, codes[1..]) by {
        assert forall k :: 0 <= k < |codes[1..]| ==> codes[1..][k] in db.products.Keys;
      }
      SyncProductsSettle(next, items, now, codes[1..]);
      assert codes[0] !in codes[1..];
      assert forall c :: c in codes <==> c == codes[0] || c in codes[1..];
      assert forall c :: c in db.products <==> c in next.products.Keys;
    }
  }

  lemma SettledUnmatched(items: seq<TallyItem>, product: Product)
    requires MatchedItem(items, product).None?
    ensures Settled(items, product)
  {
    hide MatchedItem;
  }

  lemma {:induction false} SettledSync(db: Db, items: seq<TallyItem>, now: int, codes: seq<ProductCode>)
    requires AllProducts(db, codes) && Distinct(codes)
    requires forall c | c in codes :: Settled(items, db.products[c])
    ensures var (next, updated, missing) := SyncProducts(db, items, now, codes);
            && updated == 0
            && next.identityHistory == db.identityHistory && next.commands == db.commands
            && (forall c | c in db.products :: c in next.products && next.products[c].identity == db.products[c].identity)
    decreases |codes|
  {
    hide MatchedItem, SyncProduct, NotInTally, SyncedProduct, Changed, TargetIdentity;
    if codes != [] {
      var next := SyncProduct(db, items, now, codes[0]);
      SyncProductSyncsOne(db, items, now, codes[0]);
      if MatchedItem(items, db.products[codes[0]]).Some? {
        SyncedIdentity(db.products[codes[0]], MatchedItem(items, db.products[codes[0]]).value, now);
      }
      assert !Updates(db, items, codes[0]);
      assert forall c :: c in db.products <==> c in next.products.Keys;
      hide SyncsOne, Settled, Updates;
      assert AllProducts(next, codes[1..]);
      SettledSync(next, items, now, codes[1..]);
    }
  }

  lemma {:induction false} SameLinked(db: Db, next: Db, codes: seq<ProductCode>)
    requires next.products.Keys == db.products.Keys
    requires forall c | c in db.products :: next.products[c].tallySyncedAt.Some? <==> db.products[c].tallySyncedAt.Some?
    ensures LinkedCodes(next, codes) == LinkedCodes(db, codes)
  {
    if codes != [] {
      assert codes[0] in next.products.Keys <==> codes[0] in db.products.Keys;
      SameLinked(db, next, codes[1..]);
    }
  }

  lemma {:induction false} LinkedAreSynced(db: Db, codes: seq<ProductCode>)
    ensures forall c | c in LinkedCodes(db, codes) :: c in db.products && db.products[c].tallySyncedAt.Some?
  {
    if codes != [] {
      LinkedAreSynced(db, codes[1..]);
    }
  }

  /** The second of two syncs with the same list updates nothing, logs nothing and sends nothing. */
  ghost predicate SecondSyncIdle(db: Db, items: seq<TallyItem>, now: int, again: int) {
    var (next, first) := ApplyTallyItems(db, items, now);
    var (last, second) := ApplyTallyItems(next, items, again);
    && second.updated == 0 && second.checked == first.checked
    && last.identityHistory == next.identityHistory && last.commands == next.commands
    && (forall c | c in next.products :: c in last.products && last.products[c].identity == next.products[c].identity)
  }

  /** Applying an unambiguous item list a second time updates nothing, logs nothing and sends nothing. */
  lemma SecondSyncDoesNothing(actions: seq<Action>, items: seq<TallyItem>, now: int, again: int)
    requires Unambiguous(items)
    ensures SecondSyncIdle(Run(EMPTY_DB, actions), items, now, again)
  {
    var db := Run(EMPTY_DB, actions);
    RunKeeps(actions);
    hide StockInv, Ledger, Journal, Vouchers, Allocations, Run, SyncProducts, Unambiguous, Settled, MatchedItem;
    var codes := LinkedCodes(db, db.productOrder);
    LinkedDistinct(db, db.productOrder);
    LinkedAreSynced(db, db.productOrder);
    var next := SyncProducts(db, items, now, codes).0;
    SyncProductsSettle(db, items, now, codes);
    SyncProductsFrame(db, items, now, codes);
    SameLinked(db, next, db.productOrder);
    assert AllProducts(next, codes);
    SettledSync(next, items, again, codes);
  }

  /** How many products the second of two syncs with the same list updates. */
  function SecondUpdates(actions: seq<Action>, items: seq<TallyItem>, now: int, again: int): nat {
    ApplyTallyItems(ApplyTallyItems(Run(EMPTY_DB, actions), items, now).0, items, again).1.updated
  }

  lemma {:induction false} OnlyNamed(items: seq<TallyItem>, i: nat)
    requires DistinctNames(items) && i < |items|
    ensures ByName(items, Text.FoldAll(items[i].name)) == Some(items[i])
  {
    if i < |items| - 1 {
      var init := items[..|items| - 1];
      assert forall k :: 0 <= k < |init| ==> init[k] == items[k];
      OnlyNamed(init, i);
    }
  }

  /** The item that a shared GUID leads to is not the first one that has it. */
  lemma {:induction false} LaterItem(items: seq<TallyItem>, i: nat, j: nat)
    requires DistinctNames(items) && i < j < |items| && items[i].guid == items[j].guid && items[i].guid != ""
    ensures ByGuid(items, items[i].guid).Some? && ByGuid(items, items[i].guid).value.name != items[i].name
  {
    var last := items[|items| - 1];
    if last.guid == items[i].guid {
      assert Text.FoldAll(items[i].name) != Text.FoldAll(last.name);
    } else {
      var init := items[..|items| - 1];
      assert forall k :: 0 <= k < |init| ==> init[k] == items[k];
      LaterItem(init, i, j);
    }
  }

  /** A product of a linked item, imported while Tally gave the item no GUID. */
  function NamedProduct(item: TallyItem): Product {
    Product(Identity(item.name, item.name, item.hsn, item.unit, 18.0), 0.0, 0.0, "", Some(0), true)
  }

  /** The product has the name of item `i` and its shared GUID after one sync, and the name of a later item after two. */
  lemma SharedGuidMoves(items: seq<TallyItem>, i: nat, j: nat, now: int)
    requires DistinctNames(items) && i < j < |items| && items[i].guid == items[j].guid && items[i].guid != ""
    ensures MatchedItem(items, NamedProduct(items[i])) == Some(items[i])
    ensures !Settled(items, SyncedProduct(NamedProduct(items[i]), items[i], now))
  {
    OnlyNamed(items, i);
    LaterItem(items, i, j);
    hide ByName, DistinctNames;
    var synced := SyncedProduct(NamedProduct(items[i]), items[i], now);
    assert synced.tallyGuid == items[i].guid && synced.identity.tallyName == items[i].name;
    hide ByGuid;
    assert MatchedItem(items, synced) == ByGuid(items, items[i].guid);
  }

  function ImportRun(n: NodeCode, code: ProductCode, item: TallyItem): seq<Action> {
    [AddNode(n, None), ImportProduct(code, NamedProduct(item))]
  }

  lemma ImportRunEnds(n: NodeCode, local: string, item: TallyItem)
    ensures var db := Run(EMPTY_DB, ImportRun(n, ProductCode(n, local), item));
            && db.products == map[ProductCode(n, local) := NamedProduct(item)]
            && db.productOrder == [ProductCode(n, local)]
  {
    hide NamedProduct;
    var x, y := AddNode(n, None), ImportProduct(ProductCode(n, local), NamedProduct(item));
    assert NamedProduct(item).identity.gstRate == 18.0 by { ImportedGst(item); }
    assert [x][..0] == [] && [x, y][..1] == [x];
    assert Run(EMPTY_DB, [x]) == Step(EMPTY_DB, x);
    assert Run(EMPTY_DB, [x, y]) == Step(Step(EMPTY_DB, x), y);
  }

  lemma ImportedGst(item: TallyItem)
    ensures NamedProduct(item).identity.gstRate == 18.0 && NamedProduct(item).tallySyncedAt.Some?
  {
  }

  /** One linked product: what a sync does to it and how many it counts. */
  lemma OneProductSync(db: Db, items: seq<TallyItem>, now: int, code: ProductCode)
    requires db.productOrder == [code] && db.products.Keys == {code} && db.products[code].tallySyncedAt.Some?
    ensures var (next, summary) := ApplyTallyItems(db, items, now);
            && next.products == SyncProduct(db, items, now, code).products
            && next.productOrder == [code]
            && summary.updated == if Updates(db, items, code) then 1 else 0
  {
    hide SyncProduct, Updates, NotInTally;
    assert [code][1..] == [];
    assert LinkedCodes(db, [code]) == [code] + LinkedCodes(db, []);
    assert LinkedCodes(db, [code]) == [code];
    SyncProductFrame(db, items, now, code);
    var next := SyncProduct(db, items, now, code);
    assert AllProducts(next, []) && AllProducts(db, [code]);
    assert SyncProducts(next, items, now, []) == (next, 0, 0);
    assert SyncProducts(db, items, now, [code]).0 == next;
    assert SyncProducts(db, items, now, [code]).1 == if Updates(db, items, code) then 1 else 0;
  }

  /** Wherever two items share a GUID, a run of one import makes the second sync update a product. */
  lemma SharedGuidUnsettles(items: seq<TallyItem>, i: nat, j: nat) returns (actions: seq<Action>)
    requires DistinctNames(items) && i < j < |items| && items[i].guid == items[j].guid && items[i].guid != ""
    ensures actions == ImportRun([], ProductCode([], []), items[i]) && SecondUpdates(actions, items, 1, 2) > 0
  {
    var code := ProductCode([], []);
    actions := ImportRun([], code, items[i]);
    ImportRunEnds([], [], items[i]);
    ImportedGst(items[i]);
    SharedGuidMoves(items, i, j, 1);
    hide Run, ImportRun, NamedProduct, MatchedItem, SyncedProduct, Changed, TargetIdentity, LinkedCodes, SyncProducts, Step;
    var db := Run(EMPTY_DB, actions);
    OneProductSync(db, items, 1, code);
    SyncProductSyncsOne(db, items, 1, code);
    var next := ApplyTallyItems(db, items, 1).0;
    SyncedIdentity(NamedProduct(items[i]), items[i], 1);
    OneProductSync(next, items, 2, code);
  }

  /**
   For every list that the reader of the item master can return: in every reachable state a second sync with
   the same list does nothing, if and only if no two items share a GUID.
   */
  lemma SecondSyncExactly(items: seq<TallyItem>)
    requires DistinctNames(items)
    ensures (forall actions, now, again :: SecondSyncIdle(Run(EMPTY_DB, actions), items, now, again)) <==> !SharesGuid(items)
  {
    hide ApplyTallyItems, DistinctNames, Run;
    if SharesGuid(items) {
      var i, j :| 0 <= i < j < |items| && items[i].guid == items[j].guid && items[i].guid != "";
      var actions := SharedGuidUnsettles(items, i, j);
      assert !SecondSyncIdle(Run(EMPTY_DB, actions), items, 1, 2);
    } else {
      forall actions, now, again ensures SecondSyncIdle(Run(EMPTY_DB, actions), items, now, again) {
        SecondSyncDoesNothing(actions, items, now, again);
      }
    }
  }
}
