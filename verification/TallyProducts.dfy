/** Live sync of products with the Tally item master (app/services/tally_products.py). */
module TallyProducts {
  import opened Records
  import opened NetworkDb
  import opened NetworkIngest
  import Text

  datatype TallyItem = TallyItem(
    name: string,
    alias: string,
    guid: string,
    hsn: string,
    unit: string,
    gstRate: Option<real>)

  predicate Codeable(text: string) {
    exists i :: 0 <= i < |text| && ('A' <= text[i] <= 'Z' || 'a' <= text[i] <= 'z' || '0' <= text[i] <= '9')
  }

  /** Tally data that cannot become a product; live sync then keeps the old GST rate. */
  predicate Blocked(item: TallyItem) {
    || item.gstRate.None?
    || !(0.0 <= item.gstRate.value <= 100.0)
    || |item.name| > 180 || |item.hsn| > 40 || |item.unit| > 40
    || !(Codeable(item.name) || (Codeable(item.alias) && forall i :: 0 <= i < |item.alias| ==> !Text.IsSpace(item.alias[i])))
  }

  /** The last item with this GUID, as a later dictionary entry replaces an earlier one. */
  function ByGuid(items: seq<TallyItem>, guid: string): (r: Option<TallyItem>)
    ensures r.Some? ==> r.value in items && r.value.guid == guid && guid != ""
    ensures r.None? ==> guid == "" || forall item | item in items :: item.guid != guid
  {
    if items == [] || guid == "" then None
    else if items[|items| - 1].guid == guid then Some(items[|items| - 1])
    else ByGuid(items[..|items| - 1], guid)
  }

  /** The last item whose casefolded name is `folded`. */
  function ByName(items: seq<TallyItem>, folded: string): (r: Option<TallyItem>)
    ensures r.Some? ==> r.value in items && Text.FoldAll(r.value.name) == folded
    ensures r.None? ==> forall item | item in items :: Text.FoldAll(item.name) != folded
  {
    if items == [] then None
    else if Text.FoldAll(items[|items| - 1].name) == folded then Some(items[|items| - 1])
    else ByName(items[..|items| - 1], folded)
  }

  function MatchedItem(items: seq<TallyItem>, product: Product): Option<TallyItem> {
    var linked := ByGuid(items, product.tallyGuid);
    if linked.Some? then linked else ByName(items, Text.FoldAll(product.identity.tallyName))
  }

  function OrElse(a: string, b: string): string {
    if a != "" then a else b
  }

  /** The identity that the item master asks for. */
  function TargetIdentity(product: Product, item: TallyItem): Identity {
    var current := product.identity;
    Identity(
      if current.name == current.tallyName then item.name else current.name,
      item.name,
      OrElse(item.hsn, current.hsn),
      OrElse(item.unit, current.unit),
      if Blocked(item) then current.gstRate else item.gstRate.value)
  }

  predicate Changed(current: Identity, target: Identity) {
    || current.name != target.name || current.tallyName != target.tallyName
    || current.hsn != target.hsn || current.unit != target.unit
    || !(-0.0001 <= current.gstRate - target.gstRate <= 0.0001)
  }

  /** The product after one sync: linked, and under the new identity when that changed. */
  function SyncedProduct(product: Product, item: TallyItem, now: int): Product {
    var target := TargetIdentity(product, item);
    product.(
      tallyGuid := OrElse(product.tallyGuid, item.guid),
      tallySyncedAt := Some(now),
      identity := if Changed(product.identity, target) then target else product.identity)
  }

  /** The replaced identity is kept and the franchise is sent the product. */
  function Announce(db: Db, code: ProductCode, replaced: Identity, synced: Product, now: int): (next: Db)
    ensures next.products == db.products
    ensures next.identityHistory == db.identityHistory + [ReplacedIdentity(code, replaced, now)]
  {
    var logged := db.(identityHistory := db.identityHistory + [ReplacedIdentity(code, replaced, now)]);
    if code.franchise in db.nodes then Queued(logged, code.franchise, ProductUpsert(code, synced)) else logged
  }

  function SyncProduct(db: Db, items: seq<TallyItem>, now: int, code: ProductCode): (next: Db)
    requires code in db.products
    ensures next.products.Keys == db.products.Keys
  {
    var product := db.products[code];
    var item := MatchedItem(items, product);
    if item.None? then db
    else
      var synced := SyncedProduct(product, item.value, now);
      var next := db.(products := db.products[code := synced]);
      if !Changed(product.identity, TargetIdentity(product, item.value)) then next
      else Announce(next, code, product.identity, synced, now)
  }

  /** Whether this sync updates the product, and whether Tally no longer has its item. */
  predicate Updates(db: Db, items: seq<TallyItem>, code: ProductCode)
    requires code in db.products
  {
    var item := MatchedItem(items, db.products[code]);
    item.Some? && Changed(db.products[code].identity, TargetIdentity(db.products[code], item.value))
  }

  predicate NotInTally(db: Db, items: seq<TallyItem>, code: ProductCode)
    requires code in db.products
  {
    MatchedItem(items, db.products[code]).None?
  }

  datatype SyncSummary = SyncSummary(checked: nat, updated: nat, missing: nat)

  predicate AllProducts(db: Db, codes: seq<ProductCode>) {
    forall k :: 0 <= k < |codes| ==> codes[k] in db.products
  }

  function SyncProducts(db: Db, items: seq<TallyItem>, now: int, codes: seq<ProductCode>): (r: (Db, nat, nat))
    requires AllProducts(db, codes)
    ensures r.0.products.Keys == db.products.Keys
    decreases |codes|
  {
    if codes == [] then (db, 0, 0)
    else
      var next := SyncProduct(db, items, now, codes[0]);
      assert AllProducts(next, codes[1..]) by {
        assert forall k :: 0 <= k < |codes[1..]| ==> codes[1..][k] in db.products.Keys;
      }
      var (last, updated, missing) := SyncProducts(next, items, now, codes[1..]);
      (last,
       updated + (if Updates(db, items, codes[0]) then 1 else 0),
       missing + (if NotInTally(db, items, codes[0]) then 1 else 0))
  }

  /** The codes of Tally-linked products, in product order. */
  function LinkedCodes(db: Db, codes: seq<ProductCode>): (r: seq<ProductCode>)
    ensures AllProducts(db, r)
    ensures forall k :: 0 <= k < |r| ==> r[k] in codes
  {
    if codes == [] then []
    else if codes[0] in db.products && db.products[codes[0]].tallySyncedAt.Some?
    then [codes[0]] + LinkedCodes(db, codes[1..])
    else LinkedCodes(db, codes[1..])
  }

  function ApplyTallyItems(db: Db, items: seq<TallyItem>, now: int): (Db, SyncSummary) {
    var codes := LinkedCodes(db, db.productOrder);
    var (last, updated, missing) := SyncProducts(db, items, now, codes);
    (last, SyncSummary(|codes|, updated, missing))
  }
}
