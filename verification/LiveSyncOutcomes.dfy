/** What a live sync makes of the products, their history and the commands (app/services/tally_products.py). */
module LiveSyncOutcomes {
  import opened Records
  import opened NetworkDb
  import opened NetworkIngest
  import opened TallyProducts
  import opened LedgerInvariants
  import opened MasterSystem
  import opened SystemSteps
  import Frames
  import LiveSyncTheorems
  import Text

  // ---------------------------------------------------------------- the matching item

  ghost predicate GuidListed(items: seq<TallyItem>, guid: string) {
    guid != "" && exists k :: 0 <= k < |items| && items[k].guid == guid
  }

  ghost predicate LastOfGuid(items: seq<TallyItem>, guid: string, k: nat) {
    k < |items| && items[k].guid == guid && forall j | k < j < |items| :: items[j].guid != guid
  }

  ghost predicate LastOfName(items: seq<TallyItem>, name: string, k: nat) {
    && k < |items| && Text.FoldAll(items[k].name) == Text.FoldAll(name)
    && forall j | k < j < |items| :: Text.FoldAll(items[j].name) != Text.FoldAll(name)
  }

  /** The last item with the product's GUID; if there is none, the last one with its Tally name, whatever the case. */
  ghost predicate Matches(items: seq<TallyItem>, product: Product, k: nat) {
    if GuidListed(items, product.tallyGuid) then LastOfGuid(items, product.tallyGuid, k)
    else LastOfName(items, product.identity.tallyName, k)
  }

  lemma EarlierGuid(items: seq<TallyItem>, guid: string)
    requires items != [] && items[|items| - 1].guid != guid
    ensures forall k: nat :: LastOfGuid(items, guid, k) <==> LastOfGuid(items[..|items| - 1], guid, k)
    ensures GuidListed(items, guid) <==> GuidListed(items[..|items| - 1], guid)
  {
    if GuidListed(items, guid) {
      var k :| 0 <= k < |items| && items[k].guid == guid;
      assert items[..|items| - 1][k].guid == guid;
    }
  }

  lemma {:induction false} ByGuidLast(items: seq<TallyItem>, guid: string)
    requires guid != ""
    ensures ByGuid(items, guid).Some? <==> GuidListed(items, guid)
    ensures forall k: nat :: LastOfGuid(items, guid, k) ==> k < |items| && ByGuid(items, guid) == Some(items[k])
    ensures GuidListed(items, guid) ==> exists k: nat :: LastOfGuid(items, guid, k)
  {
    if items != [] {
      var last := |items| - 1;
      if items[last].guid == guid {
        assert LastOfGuid(items, guid, last);
      } else {
        EarlierGuid(items, guid);
        ByGuidLast(items[..last], guid);
        hide GuidListed;
        if GuidListed(items, guid) {
          var k: nat :| LastOfGuid(items[..last], guid, k);
          assert LastOfGuid(items, guid, k);
        }
      }
    }
  }

  lemma {:induction false} ByNameLast(items: seq<TallyItem>, name: string)
    ensures forall k: nat :: LastOfName(items, name, k) ==> ByName(items, Text.FoldAll(name)) == Some(items[k])
    ensures ByName(items, Text.FoldAll(name)).Some? ==> exists k: nat :: LastOfName(items, name, k)
  {
    if items != [] {
      var last := |items| - 1;
      if Text.FoldAll(items[last].name) == Text.FoldAll(name) {
        assert LastOfName(items, name, last);
      } else {
        ByNameLast(items[..last], name);
        forall k: nat | LastOfName(items, name, k) ensures LastOfName(items[..last], name, k) {
        }
        if k: nat :| LastOfName(items[..last], name, k) {
          assert LastOfName(items, name, k);
        }
      }
    }
  }

  lemma MatchedExactly(items: seq<TallyItem>, product: Product)
    ensures forall k: nat :: Matches(items, product, k) ==> k < |items| && MatchedItem(items, product) == Some(items[k])
    ensures MatchedItem(items, product).Some? ==> exists k: nat :: Matches(items, product, k)
  {
    if product.tallyGuid != "" {
      ByGuidLast(items, product.tallyGuid);
    }
    ByNameLast(items, product.identity.tallyName);
    forall k: nat ensures LastOfName(items, product.identity.tallyName, k) ==> k < |items| {
    }
    assert GuidListed(items, product.tallyGuid) ==> product.tallyGuid != "";
    hide ByName, LastOfGuid, LastOfName, GuidListed;
    if GuidListed(items, product.tallyGuid) {
      var k: nat :| LastOfGuid(items, product.tallyGuid, k);
      assert Matches(items, product, k);
    } else if MatchedItem(items, product).Some? {
      var k: nat :| LastOfName(items, product.identity.tallyName, k);
      assert Matches(items, product, k);
    }
  }

  // ---------------------------------------------------------------- one product

  predicate Alphanumeric(c: char) {
    'A' <= c <= 'Z' || 'a' <= c <= 'z' || '0' <= c <= '9'
  }

  /** The item could become a product: it has a GST rate, its texts fit, and its name or alias yields a product code. */
  ghost predicate Importable(item: TallyItem) {
    && item.gstRate.Some? && 0.0 <= item.gstRate.value <= 100.0
    && |item.name| <= 180 && |item.hsn| <= 40 && |item.unit| <= 40
    && ((exists i :: 0 <= i < |item.name| && Alphanumeric(item.name[i]))
        || ((exists i :: 0 <= i < |item.alias| && Alphanumeric(item.alias[i]))
            && forall i :: 0 <= i < |item.alias| ==> !Text.IsSpace(item.alias[i])))
  }

  lemma ImportableExactly(item: TallyItem)
    ensures Importable(item) <==> !Blocked(item)
  {
    assert forall text: string :: Codeable(text) <==> exists i :: 0 <= i < |text| && Alphanumeric(text[i]);
    hide Codeable;
  }

  /**
   The product is in line with the item: its Tally name, and its HSN, unit and GST rate as far as the item has them;
   its display name follows only where it was the Tally name. Prices stay.
   */
  ghost predicate InLine(was: Product, now: Product, item: TallyItem, at: int) {
    && now.defaultRate == was.defaultRate && now.discountRate == was.discountRate && now.active == was.active
    && now.tallyGuid == (if was.tallyGuid != "" then was.tallyGuid else item.guid) && now.tallySyncedAt == Some(at)
    && now.identity.tallyName == item.name
    && now.identity.name == (if was.identity.name == was.identity.tallyName then item.name else was.identity.name)
    && now.identity.hsn == (if item.hsn != "" then item.hsn else was.identity.hsn)
    && now.identity.unit == (if item.unit != "" then item.unit else was.identity.unit)
    && (!Importable(item) ==> now.identity.gstRate == was.identity.gstRate)
    && (Importable(item) ==> -0.0001 <= now.identity.gstRate - item.gstRate.value <= 0.0001)
    && (Importable(item) && now.identity != was.identity ==> now.identity.gstRate == item.gstRate.value)
  }

  ghost predicate Brought(was: Product, now: Product, items: seq<TallyItem>, at: int) {
    && (forall k: nat :: Matches(items, was, k) ==> k < |items| && InLine(was, now, items[k], at))
    && ((forall k: nat :: !Matches(items, was, k)) ==> now == was)
  }

  lemma SyncedInLine(was: Product, item: TallyItem, at: int)
    ensures InLine(was, SyncedProduct(was, item, at), item, at)
    ensures SyncedProduct(was, item, at).identity != was.identity <==> Changed(was.identity, TargetIdentity(was, item))
  {
    ImportableExactly(item);
    hide Importable, Blocked;
  }

  // ---------------------------------------------------------------- all products

  type Products = map<ProductCode, Product>

  ghost predicate Differs(was: Products, now: Products, code: ProductCode) {
    code in was && code in now && now[code].identity != was[code].identity
  }

  /** The codes whose identity differs, in the given order. */
  ghost function Differing(was: Products, now: Products, codes: seq<ProductCode>): (r: seq<ProductCode>)
    ensures forall k :: 0 <= k < |r| ==> Differs(was, now, r[k])
  {
    if codes == [] then []
    else (if Differs(was, now, codes[0]) then [codes[0]] else []) + Differing(was, now, codes[1..])
  }

  /** One row for each code, with the identity that was replaced. */
  ghost function ReplacedRows(was: Products, codes: seq<ProductCode>, at: int): seq<ReplacedIdentity>
    requires forall k :: 0 <= k < |codes| ==> codes[k] in was
  {
    if codes == [] then [] else [ReplacedIdentity(codes[0], was[codes[0]].identity, at)] + ReplacedRows(was, codes[1..], at)
  }

  /** One command for each code whose franchise has a node, with the new record. */
  ghost function Upserts(nodes: map<NodeCode, Node>, now: Products, codes: seq<ProductCode>): seq<Command>
    requires forall k :: 0 <= k < |codes| ==> codes[k] in now
  {
    if codes == [] then []
    else
      (if codes[0].franchise in nodes then [Command(codes[0].franchise, ProductUpsert(codes[0], now[codes[0]]), false)] else [])
      + Upserts(nodes, now, codes[1..])
  }

  /** One product is brought in line; the history and the commands gain what is due if its identity changed. */
  ghost predicate OneBrought(db: Db, next: Db, items: seq<TallyItem>, at: int, code: ProductCode)
    requires code in db.products
  {
    && code in next.products && next.products == db.products[code := next.products[code]] && next.nodes == db.nodes
    && Brought(db.products[code], next.products[code], items, at)
    && var codes := if Differs(db.products, next.products, code) then [code] else [];
       && next.identityHistory == db.identityHistory + ReplacedRows(db.products, codes, at)
       && next.commands == db.commands + Upserts(db.nodes, next.products, codes)
  }

  lemma SyncBringsOne(db: Db, items: seq<TallyItem>, at: int, code: ProductCode)
    requires code in db.products
    ensures var next := SyncProduct(db, items, at, code);
            && OneBrought(db, next, items, at, code)
            && (Updates(db, items, code) <==> Differs(db.products, next.products, code))
            && (NotInTally(db, items, code) <==> forall k: nat :: !Matches(items, db.products[code], k))
  {
    var was, next := db.products[code], SyncProduct(db, items, at, code);
    MatchedBrought(items, was, at);
    SyncCases(db, items, at, code);
    hide MatchedItem, Matches, Changed, TargetIdentity, SyncedProduct, SyncProduct, OneBrought, Brought;
    var item := MatchedItem(items, was);
    if item.None? {
      Stayed(db, next, items, at, code, was);
    } else {
      var now := SyncedProduct(was, item.value, at);
      if Changed(was.identity, TargetIdentity(was, item.value)) {
        Replaced(db, next, items, at, code, now);
      } else {
        Stayed(db, next, items, at, code, now);
      }
    }
  }

  lemma MatchedBrought(items: seq<TallyItem>, was: Product, at: int)
    ensures var item := MatchedItem(items, was);
            && (item.None? <==> forall k: nat :: !Matches(items, was, k))
            && (item.None? ==> Brought(was, was, items, at))
            && (item.Some? ==>
                  var now := SyncedProduct(was, item.value, at);
                  Brought(was, now, items, at) && (now.identity != was.identity <==> Changed(was.identity, TargetIdentity(was, item.value))))
  {
    MatchedExactly(items, was);
    hide MatchedItem, Matches, InLine, Changed, TargetIdentity, SyncedProduct;
    if MatchedItem(items, was).Some? {
      SyncedInLine(was, MatchedItem(items, was).value, at);
    }
  }

  lemma Stayed(db: Db, next: Db, items: seq<TallyItem>, at: int, code: ProductCode, now: Product)
    requires code in db.products && Brought(db.products[code], now, items, at) && now.identity == db.products[code].identity
    requires next.products == db.products[code := now]
    requires next.nodes == db.nodes && next.identityHistory == db.identityHistory && next.commands == db.commands
    ensures OneBrought(db, next, items, at, code) && !Differs(db.products, next.products, code)
  {
    hide Brought;
    assert next.products[code] == now;
  }

  lemma Replaced(db: Db, next: Db, items: seq<TallyItem>, at: int, code: ProductCode, now: Product)
    requires code in db.products && Brought(db.products[code], now, items, at) && now.identity != db.products[code].identity
    requires next.products == db.products[code := now] && next.nodes == db.nodes
    requires next.identityHistory == db.identityHistory + [ReplacedIdentity(code, db.products[code].identity, at)]
    requires next.commands == db.commands + if code.franchise in db.nodes
                                            then [Command(code.franchise, ProductUpsert(code, now), false)] else []
    ensures OneBrought(db, next, items, at, code) && Differs(db.products, next.products, code)
  {
    hide Brought;
    assert next.products[code] == now;
    OneCode(db.products, next.products, db.nodes, code, at);
  }

  lemma OneCode(was: Products, now: Products, nodes: map<NodeCode, Node>, code: ProductCode, at: int)
    requires code in was && code in now
    ensures ReplacedRows(was, [code], at) == [ReplacedIdentity(code, was[code].identity, at)]
    ensures ReplacedRows(was, [], at) == [] && Upserts(nodes, now, []) == []
    ensures Upserts(nodes, now, [code])
            == if code.franchise in nodes then [Command(code.franchise, ProductUpsert(code, now[code]), false)] else []
  {
    assert [code][1..] == [];
  }

  lemma SyncCases(db: Db, items: seq<TallyItem>, at: int, code: ProductCode)
    requires code in db.products
    ensures var was := db.products[code];
            var item, next := MatchedItem(items, was), SyncProduct(db, items, at, code);
            if item.None? then next == db
            else
              var now := SyncedProduct(was, item.value, at);
              if Changed(was.identity, TargetIdentity(was, item.value))
              then next == db.(products := db.products[code := now],
                               identityHistory := db.identityHistory + [ReplacedIdentity(code, was.identity, at)],
                               commands := db.commands + if code.franchise in db.nodes
                                                         then [Command(code.franchise, ProductUpsert(code, now), false)] else [])
              else next == db.(products := db.products[code := now])
  {
    hide MatchedItem, Changed, TargetIdentity, SyncedProduct;
    assert db.commands + [] == db.commands;
  }

  // ---------------------------------------------------------------- the whole sync

  lemma {:induction false} DifferingFrame(was: Products, now: Products, was1: Products, now1: Products, codes: seq<ProductCode>)
    requires forall k :: 0 <= k < |codes| ==> (Differs(was, now, codes[k]) <==> Differs(was1, now1, codes[k]))
    ensures Differing(was, now, codes) == Differing(was1, now1, codes)
  {
    hide Differs;
    if codes != [] {
      DifferingFrame(was, now, was1, now1, codes[1..]);
    }
  }

  lemma {:induction false} RowsFrame(was: Products, was1: Products, codes: seq<ProductCode>, at: int)
    requires forall k :: 0 <= k < |codes| ==> codes[k] in was && codes[k] in was1 && was[codes[k]] == was1[codes[k]]
    ensures ReplacedRows(was, codes, at) == ReplacedRows(was1, codes, at)
  {
    if codes != [] {
      assert forall k :: 0 <= k < |codes[1..]| ==> codes[1..][k] == codes[k + 1];
      RowsFrame(was, was1, codes[1..], at);
    }
  }

  lemma {:induction false} UpsertsFrame(nodes: map<NodeCode, Node>, now: Products, now1: Products, codes: seq<ProductCode>)
    requires forall k :: 0 <= k < |codes| ==> codes[k] in now && codes[k] in now1 && now[codes[k]] == now1[codes[k]]
    ensures Upserts(nodes, now, codes) == Upserts(nodes, now1, codes)
  {
    if codes != [] {
      assert forall k :: 0 <= k < |codes[1..]| ==> codes[1..][k] == codes[k + 1];
      UpsertsFrame(nodes, now, now1, codes[1..]);
    }
  }

  ghost predicate DistinctCodes(codes: seq<ProductCode>) {
    forall i, j :: 0 <= i < j < |codes| ==> codes[i] != codes[j]
  }

  /** The listed products are brought in line, the others are as they were; history and commands gain what is due. */
  ghost predicate AllBrought(db: Db, next: Db, items: seq<TallyItem>, at: int, codes: seq<ProductCode>) {
    && next.products.Keys == db.products.Keys && next.nodes == db.nodes
    && (forall c | c in db.products ::
          if c in codes then Brought(db.products[c], next.products[c], items, at) else next.products[c] == db.products[c])
    && var changed := Differing(db.products, next.products, codes);
       && next.identityHistory == db.identityHistory + ReplacedRows(db.products, changed, at)
       && next.commands == db.commands + Upserts(db.nodes, next.products, changed)
  }

  lemma ProductsAgree(db: Db, mid: Db, next: Db, items: seq<TallyItem>, at: int, codes: seq<ProductCode>)
    requires codes != [] && DistinctCodes(codes) && codes[0] in db.products
    requires OneBrought(db, mid, items, at, codes[0]) && AllBrought(mid, next, items, at, codes[1..])
    ensures next.products.Keys == db.products.Keys && mid.products.Keys == db.products.Keys && next.nodes == db.nodes == mid.nodes
    ensures next.products[codes[0]] == mid.products[codes[0]]
    ensures forall c | c in db.products && c != codes[0] :: mid.products[c] == db.products[c]
    ensures forall c | c in db.products ::
              if c in codes then Brought(db.products[c], next.products[c], items, at) else next.products[c] == db.products[c]
  {
    hide Brought, Differing, Upserts, ReplacedRows, Differs;
    assert codes[0] !in codes[1..];
    assert codes[0] in mid.products.Keys;
    assert forall c :: c in codes <==> c == codes[0] || c in codes[1..];
    forall c | c in db.products
      ensures c in next.products.Keys
      ensures if c in codes then Brought(db.products[c], next.products[c], items, at) else next.products[c] == db.products[c]
    {
      assert c in mid.products.Keys;
    }
  }

  lemma LogsAgree(db: Db, mid: Db, next: Db, items: seq<TallyItem>, at: int, codes: seq<ProductCode>)
    requires codes != [] && DistinctCodes(codes) && codes[0] in db.products
    requires OneBrought(db, mid, items, at, codes[0]) && AllBrought(mid, next, items, at, codes[1..])
    requires next.products.Keys == db.products.Keys && mid.products.Keys == db.products.Keys && next.nodes == db.nodes == mid.nodes
    requires next.products[codes[0]] == mid.products[codes[0]]
    requires forall c | c in db.products && c != codes[0] :: mid.products[c] == db.products[c]
    ensures var changed := Differing(db.products, next.products, codes);
            && next.identityHistory == db.identityHistory + ReplacedRows(db.products, changed, at)
            && next.commands == db.commands + Upserts(db.nodes, next.products, changed)
  {
    hide Brought, Differs, Differing, ReplacedRows, Upserts;
    var code := codes[0];
    var head := if Differs(db.products, mid.products, code) then [code] else [];
    var rest := Differing(mid.products, next.products, codes[1..]);
    SplitDiffering(db.products, mid.products, next.products, codes);
    RowsFrame(mid.products, db.products, rest, at);
    UpsertsFrame(db.nodes, mid.products, next.products, head);
    HeadFirst(db.products, next.products, db.nodes, head, rest, at);
  }

  lemma SplitDiffering(was: Products, mid: Products, now: Products, codes: seq<ProductCode>)
    requires codes != [] && DistinctCodes(codes) && codes[0] in was && now.Keys == was.Keys == mid.Keys
    requires now[codes[0]] == mid[codes[0]] && forall c | c in was && c != codes[0] :: mid[c] == was[c]
    ensures var head, rest := if Differs(was, mid, codes[0]) then [codes[0]] else [], Differing(mid, now, codes[1..]);
            && Differing(was, now, codes) == head + rest
            && (forall k :: 0 <= k < |rest| ==> rest[k] in was && rest[k] in mid && was[rest[k]] == mid[rest[k]])
            && (forall k :: 0 <= k < |head| ==> head[k] in now && head[k] in mid && now[head[k]] == mid[head[k]])
  {
    forall k | 0 <= k < |codes[1..]|
      ensures Differs(mid, now, codes[1..][k]) <==> Differs(was, now, codes[1..][k])
    {
      assert codes[1..][k] == codes[k + 1];
    }
    DifferingFrame(mid, now, was, now, codes[1..]);
    assert Differs(was, mid, codes[0]) <==> Differs(was, now, codes[0]);
    DifferingIn(mid, now, codes[1..]);
    var rest := Differing(mid, now, codes[1..]);
    assert codes[0] !in codes[1..];
    forall k | 0 <= k < |rest| ensures rest[k] in was && rest[k] in mid && was[rest[k]] == mid[rest[k]] {
      assert rest[k] in rest;
      assert rest[k] in was.Keys;
    }
  }

  lemma {:induction false} DifferingIn(was: Products, now: Products, codes: seq<ProductCode>)
    ensures forall c :: c in Differing(was, now, codes) <==> c in codes && Differs(was, now, c)
  {
    hide Differs;
    if codes != [] {
      DifferingIn(was, now, codes[1..]);
      assert forall c :: c in codes <==> c == codes[0] || c in codes[1..];
    }
  }

  lemma HeadFirst(was: Products, now: Products, nodes: map<NodeCode, Node>, head: seq<ProductCode>, rest: seq<ProductCode>, at: int)
    requires |head| <= 1 && forall k :: 0 <= k < |head + rest| ==> (head + rest)[k] in was && (head + rest)[k] in now
    ensures forall k :: 0 <= k < |head| ==> head[k] in was && head[k] in now
    ensures forall k :: 0 <= k < |rest| ==> rest[k] in was && rest[k] in now
    ensures ReplacedRows(was, head + rest, at) == ReplacedRows(was, head, at) + ReplacedRows(was, rest, at)
    ensures Upserts(nodes, now, head + rest) == Upserts(nodes, now, head) + Upserts(nodes, now, rest)
  {
    forall k | 0 <= k < |head| ensures head[k] in was && head[k] in now {
      assert (head + rest)[k] == head[k];
    }
    forall k | 0 <= k < |rest| ensures rest[k] in was && rest[k] in now {
      assert (head + rest)[|head| + k] == rest[k];
    }
    if head == [] {
      assert head + rest == rest;
    } else {
      assert (head + rest)[1..] == rest && head[1..] == [];
    }
  }

  lemma {:induction false} SyncBringsAll(db: Db, items: seq<TallyItem>, at: int, codes: seq<ProductCode>)
    requires AllProducts(db, codes) && DistinctCodes(codes)
    ensures var (next, updated, missing) := SyncProducts(db, items, at, codes);
            && AllBrought(db, next, items, at, codes)
            && updated == |Differing(db.products, next.products, codes)|
            && missing == Unmatched(db.products, items, codes)
    decreases |codes|
  {
    hide SyncProduct, Updates, NotInTally, AllBrought, OneBrought, Differs, Matches;
    var (next, updated, missing) := SyncProducts(db, items, at, codes);
    if codes == [] {
      NothingBrought(db, items, at);
    } else {
      var mid := SyncProduct(db, items, at, codes[0]);
      SyncBringsOne(db, items, at, codes[0]);
      assert AllProducts(mid, codes[1..]) by {
        assert forall k :: 0 <= k < |codes[1..]| ==> codes[1..][k] in db.products.Keys;
      }
      SyncBringsAll(mid, items, at, codes[1..]);
      ProductsAgree(db, mid, next, items, at, codes);
      LogsAgree(db, mid, next, items, at, codes);
      assert AllBrought(db, next, items, at, codes) by { Bring(db, next, items, at, codes); }
      CountsAgree(db.products, mid.products, next.products, items, codes);
    }
  }

  /** How many of the products no item matches. */
  ghost function Unmatched(was: Products, items: seq<TallyItem>, codes: seq<ProductCode>): nat {
    if codes == [] then 0
    else
      Unmatched(was, items, codes[1..])
      + if codes[0] in was && forall k: nat :: !Matches(items, was[codes[0]], k) then 1 else 0
  }

  lemma {:induction false} UnmatchedFrame(was: Products, was1: Products, items: seq<TallyItem>, codes: seq<ProductCode>)
    requires forall k :: 0 <= k < |codes| ==> codes[k] in was && codes[k] in was1 && was[codes[k]] == was1[codes[k]]
    ensures Unmatched(was, items, codes) == Unmatched(was1, items, codes)
  {
    hide Matches;
    if codes != [] {
      assert forall k :: 0 <= k < |codes[1..]| ==> codes[1..][k] == codes[k + 1];
      UnmatchedFrame(was, was1, items, codes[1..]);
    }
  }

  lemma Bring(db: Db, next: Db, items: seq<TallyItem>, at: int, codes: seq<ProductCode>)
    requires next.products.Keys == db.products.Keys && next.nodes == db.nodes
    requires forall c | c in db.products ::
               if c in codes then Brought(db.products[c], next.products[c], items, at) else next.products[c] == db.products[c]
    requires var changed := Differing(db.products, next.products, codes);
             && next.identityHistory == db.identityHistory + ReplacedRows(db.products, changed, at)
             && next.commands == db.commands + Upserts(db.nodes, next.products, changed)
    ensures AllBrought(db, next, items, at, codes)
  {
    hide Brought, Differing, Upserts, ReplacedRows;
  }

  lemma NothingBrought(db: Db, items: seq<TallyItem>, at: int)
    ensures AllBrought(db, db, items, at, [])
  {
  }

  lemma CountsAgree(was: Products, mid: Products, now: Products, items: seq<TallyItem>, codes: seq<ProductCode>)
    requires codes != [] && DistinctCodes(codes) && codes[0] in was && now.Keys == was.Keys == mid.Keys
    requires now[codes[0]] == mid[codes[0]] && forall c | c in was && c != codes[0] :: mid[c] == was[c]
    requires forall k :: 0 <= k < |codes| ==> codes[k] in was
    ensures |Differing(was, now, codes)| == |Differing(mid, now, codes[1..])| + if Differs(was, mid, codes[0]) then 1 else 0
    ensures Unmatched(was, items, codes)
            == Unmatched(mid, items, codes[1..]) + if forall k: nat :: !Matches(items, was[codes[0]], k) then 1 else 0
  {
    hide Matches;
    forall k | 0 <= k < |codes[1..]|
      ensures codes[1..][k] in was && codes[1..][k] in mid && mid[codes[1..][k]] == was[codes[1..][k]]
      ensures Differs(mid, now, codes[1..][k]) <==> Differs(was, now, codes[1..][k])
    {
      assert codes[1..][k] == codes[k + 1] && codes[k + 1] in was.Keys;
    }
    DifferingFrame(mid, now, was, now, codes[1..]);
    UnmatchedFrame(mid, was, items, codes[1..]);
    assert codes[0] in now.Keys;
  }

  predicate IsLinked(product: Product) {
    product.tallySyncedAt.Some?
  }

  ghost function LinkedCount(was: Products, codes: seq<ProductCode>): nat {
    if codes == [] then 0 else LinkedCount(was, codes[1..]) + if codes[0] in was && IsLinked(was[codes[0]]) then 1 else 0
  }

  /** How many of the linked products no item matches. */
  ghost function MissingCount(was: Products, items: seq<TallyItem>, codes: seq<ProductCode>): nat {
    if codes == [] then 0
    else
      MissingCount(was, items, codes[1..])
      + if codes[0] in was && IsLinked(was[codes[0]]) && forall k: nat :: !Matches(items, was[codes[0]], k) then 1 else 0
  }

  /** The linked codes are those of the product order, and only they count. */
  lemma {:induction false} LinkedOnly(db: Db, now: Products, items: seq<TallyItem>, codes: seq<ProductCode>)
    requires forall c | c in db.products && c in now && !IsLinked(db.products[c]) :: now[c] == db.products[c]
    ensures var linked := LinkedCodes(db, codes);
            && (forall c :: c in linked <==> c in codes && c in db.products && IsLinked(db.products[c]))
            && |linked| == LinkedCount(db.products, codes)
            && Differing(db.products, now, linked) == Differing(db.products, now, codes)
            && Unmatched(db.products, items, linked) == MissingCount(db.products, items, codes)
  {
    hide Matches;
    if codes != [] {
      LinkedOnly(db, now, items, codes[1..]);
      assert forall c :: c in codes <==> c == codes[0] || c in codes[1..];
      var linked, rest := LinkedCodes(db, codes), LinkedCodes(db, codes[1..]);
      if codes[0] in db.products && IsLinked(db.products[codes[0]]) {
        assert linked == [codes[0]] + rest && linked[1..] == rest;
      } else {
        assert linked == rest && !Differs(db.products, now, codes[0]);
      }
    }
  }

  /**
   In every reachable state a live sync brings each linked product in line with the last item that has its GUID, or
   else its Tally name; all other products stay as they are. Each product whose identity that changed is logged once
   with the replaced identity and announced once to its franchise with the new record, in the products' order, and
   the summary counts the linked, the changed and the unmatched products.
   */
  lemma SyncOutcome(actions: seq<Action>, items: seq<TallyItem>, at: int)
    ensures var db := Run(EMPTY_DB, actions);
            var (next, summary) := ApplyTallyItems(db, items, at);
            && next.products.Keys == db.products.Keys
            && (forall c | c in db.products ::
                  if IsLinked(db.products[c]) then Brought(db.products[c], next.products[c], items, at)
                  else next.products[c] == db.products[c])
            && var changed := Differing(db.products, next.products, db.productOrder);
               && DistinctCodes(changed) && (forall c :: c in changed <==> Differs(db.products, next.products, c))
               && next.identityHistory == db.identityHistory + ReplacedRows(db.products, changed, at)
               && next.commands == db.commands + Upserts(db.nodes, next.products, changed)
               && summary == SyncSummary(LinkedCount(db.products, db.productOrder), |changed|,
                                         MissingCount(db.products, items, db.productOrder))
               && next == db.(products := next.products, identityHistory := next.identityHistory, commands := next.commands)
  {
    RunKeeps(actions);
    var db := Run(EMPTY_DB, actions);
    hide Run, ApplyTallyItems;
    assert Catalogue(db);
    CatalogueSync(db, items, at);
  }

  lemma CatalogueSync(db: Db, items: seq<TallyItem>, at: int)
    requires Catalogue(db)
    ensures var (next, summary) := ApplyTallyItems(db, items, at);
            && next.products.Keys == db.products.Keys
            && (forall c | c in db.products ::
                  if IsLinked(db.products[c]) then Brought(db.products[c], next.products[c], items, at)
                  else next.products[c] == db.products[c])
            && var changed := Differing(db.products, next.products, db.productOrder);
               && DistinctCodes(changed) && (forall c :: c in changed <==> Differs(db.products, next.products, c))
               && next.identityHistory == db.identityHistory + ReplacedRows(db.products, changed, at)
               && next.commands == db.commands + Upserts(db.nodes, next.products, changed)
               && summary == SyncSummary(LinkedCount(db.products, db.productOrder), |changed|,
                                         MissingCount(db.products, items, db.productOrder))
               && next == db.(products := next.products, identityHistory := next.identityHistory, commands := next.commands)
  {
    var order, linked := db.productOrder, LinkedCodes(db, db.productOrder);
    var next := ApplyTallyItems(db, items, at).0;
    LiveSyncTheorems.LinkedDistinct(db, order);
    hide LinkedCodes, SyncProducts, Brought, Differs, Differing, ReplacedRows, Upserts;
    SyncBringsAll(db, items, at, linked);
    Frames.SyncProductsFrame(db, items, at, linked);
    LinkedOnly(db, db.products, items, order);
    LinkedOnly(db, next.products, items, order);
    DifferingIn(db.products, next.products, order);
    DifferingDistinct(db.products, next.products, order);
    KnownDiffer(db, next);
  }

  lemma KnownDiffer(db: Db, next: Db)
    requires Catalogue(db)
    ensures forall c | Differs(db.products, next.products, c) :: c in db.productOrder
  {
  }

  lemma {:induction false} DifferingDistinct(was: Products, now: Products, codes: seq<ProductCode>)
    requires DistinctCodes(codes)
    ensures DistinctCodes(Differing(was, now, codes))
  {
    hide Differs;
    if codes != [] {
      DifferingDistinct(was, now, codes[1..]);
      DifferingIn(was, now, codes[1..]);
      assert codes[0] !in codes[1..];
    }
  }
}
