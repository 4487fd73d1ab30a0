/** Live sync of linked products, as the source runs it (app/services/tally_products.py, apply_tally_stock_items). */
module LiveSyncService {
  import opened Records
  import opened NetworkDb
  import opened NetworkIngest
  import opened TallyProducts
  import opened Sessions
  import Text

  type Index = map<string, TallyItem>

  function Found(index: Index, key: string): Option<TallyItem> {
    if key in index then Some(index[key]) else None
  }

  /** The two dictionaries: a later item replaces an earlier one under the same key. */
  method IndexItems(items: seq<TallyItem>) returns (byGuid: Index, byName: Index)
    ensures forall guid | guid != "" :: Found(byGuid, guid) == ByGuid(items, guid)
    ensures "" !in byGuid
    ensures forall name :: Found(byName, name) == ByName(items, name)
  {
    byGuid, byName := map[], map[];
    for i := 0 to |items|
      invariant forall guid | guid != "" :: Found(byGuid, guid) == ByGuid(items[..i], guid)
      invariant "" !in byGuid
      invariant forall name :: Found(byName, name) == ByName(items[..i], name)
    {
      assert items[..i + 1][..i] == items[..i];
      if items[i].guid != "" {
        byGuid := byGuid[items[i].guid := items[i]];
      }
      byName := byName[Text.FoldAll(items[i].name) := items[i]];
    }
    assert items[..|items|] == items;
  }

  /** The loop body: links the product, and on a change logs the old identity and queues the product. */
  method SyncOne(db: Session, items: seq<TallyItem>, byGuid: Index, byName: Index, now: int, code: ProductCode)
    returns (updated: bool, missing: bool)
    requires code in db.work.products
    requires forall guid | guid != "" :: Found(byGuid, guid) == ByGuid(items, guid)
    requires "" !in byGuid
    requires forall name :: Found(byName, name) == ByName(items, name)
    modifies db`work
    ensures db.work == SyncProduct(old(db.work), items, now, code)
    ensures updated == Updates(old(db.work), items, code) && missing == NotInTally(old(db.work), items, code)
  {
    var product := db.work.products[code];
    var item := if product.tallyGuid in byGuid then Some(byGuid[product.tallyGuid])
                else Found(byName, Text.FoldAll(product.identity.tallyName));
    assert item == MatchedItem(items, product) by { assert Found(byGuid, product.tallyGuid) == ByGuid(items, product.tallyGuid); }
    hide MatchedItem, Blocked;
    if item.None? {
      return false, true;
    }
    var current := product.identity;
    var target := Identity(
      if current.name == current.tallyName then item.value.name else current.name,
      item.value.name,
      if item.value.hsn != "" then item.value.hsn else current.hsn,
      if item.value.unit != "" then item.value.unit else current.unit,
      if Blocked(item.value) then current.gstRate else item.value.gstRate.value);
    assert target == TargetIdentity(product, item.value);
    hide TargetIdentity;
    var changed := Changed(current, target);
    hide Changed;
    product := product.(tallyGuid := if product.tallyGuid != "" then product.tallyGuid else item.value.guid, tallySyncedAt := Some(now));
    if !changed {
      db.work := db.work.(products := db.work.products[code := product]);
      return false, false;
    }
    product := product.(identity := target);
    var row := ReplacedIdentity(code, current, now);
    var commands := db.work.commands;
    if code.franchise in db.work.nodes {
      commands := commands + [Command(code.franchise, ProductUpsert(code, product), false)];
    }
    db.work := db.work.(products := db.work.products[code := product],
                        identityHistory := db.work.identityHistory + [row], commands := commands);
    return true, false;
  }

  method ApplyTallyStockItems(db: Session, items: seq<TallyItem>, now: int) returns (summary: SyncSummary)
    modifies db`work
    ensures (db.work, summary) == ApplyTallyItems(old(db.work), items, now)
  {
    hide SyncProduct, Updates, NotInTally, AllProducts;
    var byGuid, byName := IndexItems(items);
    var linked := LinkedCodes(db.work, db.work.productOrder);
    hide LinkedCodes;
    var updated, missing := 0, 0;
    ghost var start := db.work;
    assert linked[0..] == linked;
    for i := 0 to |linked|
      invariant AllProducts(db.work, linked[i..]) && AllProducts(start, linked)
      invariant Remaining(db.work, items, now, linked[i..], updated, missing) == SyncProducts(start, items, now, linked)
    {
      assert linked[i..][1..] == linked[i + 1..] && linked[i..][0] == linked[i];
      RestKnown(db.work, linked[i..], items, now);
      RemainingStep(db.work, items, now, linked[i..], updated, missing);
      var changed, absent := SyncOne(db, items, byGuid, byName, now, linked[i]);
      updated := updated + if changed then 1 else 0;
      missing := missing + if absent then 1 else 0;
    }
    LastRemaining(db.work, items, now, updated, missing);
    assert linked[|linked|..] == [];
    return SyncSummary(|linked|, updated, missing);
  }

  /** What the rest of the loop does, with the counts so far. */
  ghost function Remaining(db: Db, items: seq<TallyItem>, now: int, codes: seq<ProductCode>, updated: nat, missing: nat): (Db, nat, nat)
    requires AllProducts(db, codes)
  {
    var rest := SyncProducts(db, items, now, codes);
    (rest.0, updated + rest.1, missing + rest.2)
  }

  lemma RestKnown(db: Db, codes: seq<ProductCode>, items: seq<TallyItem>, now: int)
    requires AllProducts(db, codes) && codes != []
    ensures codes[0] in db.products && AllProducts(SyncProduct(db, items, now, codes[0]), codes[1..])
  {
    hide SyncProduct;
    forall k | 0 <= k < |codes[1..]| ensures codes[1..][k] in db.products.Keys {
      assert codes[1..][k] == codes[k + 1];
    }
  }

  lemma RemainingStep(db: Db, items: seq<TallyItem>, now: int, codes: seq<ProductCode>, updated: nat, missing: nat)
    requires AllProducts(db, codes) && codes != [] && codes[0] in db.products
    requires AllProducts(SyncProduct(db, items, now, codes[0]), codes[1..])
    ensures Remaining(db, items, now, codes, updated, missing)
            == Remaining(SyncProduct(db, items, now, codes[0]), items, now, codes[1..],
                         updated + (if Updates(db, items, codes[0]) then 1 else 0),
                         missing + (if NotInTally(db, items, codes[0]) then 1 else 0))
  {
    hide SyncProduct, Updates, NotInTally, AllProducts;
  }

  lemma LastRemaining(db: Db, items: seq<TallyItem>, now: int, updated: nat, missing: nat)
    ensures AllProducts(db, []) && Remaining(db, items, now, [], updated, missing) == (db, updated, missing)
  {
  }
}
