/**
 Voucher arithmetic (app/services/voucher.py, app/services/batch_items.py).

 Money is a number of paise and a rate a number of hundredths of a percent; both are what money() leaves
 of an exact decimal value. Decimal's 28 digits are enough for every quotient that is rounded here.
 */
module VoucherSummary {
  import opened Records
  import opened NetworkDb
  import opened Grouping

  // ---------------------------------------------------------------- rounding

  /** n / d to the nearest integer, halves away from zero. */
  function RoundDiv(n: int, d: int): int
    requires d > 0
  {
    if n >= 0 then (2 * n + d) / (2 * d) else -((-2 * n + d) / (2 * d))
  }

  /** money(): the value in hundredths, halves away from zero. */
  function Money(value: real): int {
    if value >= 0.0 then (value * 100.0 + 0.5).Floor else -((-value * 100.0 + 0.5).Floor)
  }

  function TaxableValue(total: int, gst: int): int {
    if gst <= 0 then total else RoundDiv(total * 10000, 10000 + gst)
  }

  function Tax(taxable: int, rate: int): int {
    RoundDiv(taxable * rate, 10000)
  }

  // ---------------------------------------------------------------- a batch

  datatype LineItem = LineItem(product: ProductCode, rate: Option<real>, discount: Option<real>, quantity: int)

  datatype VoucherBatch = VoucherBatch(kind: EventType, header: PartyHeader, items: seq<LineItem>)

  type Products = map<ProductCode, Product>

  /** What grouped_batch_items groups by. */
  datatype Key = Key(product: ProductCode, rate: real, discount: real)

  datatype Group = Group(key: Key, quantity: int)

  ghost predicate KnownProducts(products: Products, items: seq<LineItem>) {
    forall i :: 0 <= i < |items| ==> items[i].product in products
  }

  /** A missing rate or discount is the product's. */
  function KeyOf(products: Products, item: LineItem): Key
    requires item.product in products
  {
    Key(item.product,
        if item.rate.Some? then item.rate.value else products[item.product].defaultRate,
        if item.discount.Some? then item.discount.value else products[item.product].discountRate)
  }

  function Keys(products: Products, items: seq<LineItem>): (keys: seq<Key>)
    requires KnownProducts(products, items)
    ensures |keys| == |items|
  {
    seq(|items|, i requires 0 <= i < |items| => KeyOf(products, items[i]))
  }

  function Quantities(items: seq<LineItem>): (quantities: seq<int>)
    ensures |quantities| == |items|
  {
    seq(|items|, i requires 0 <= i < |items| => items[i].quantity)
  }

  /** One group for each key, with all its units, in the order of first occurrence. */
  function Groups(products: Products, items: seq<LineItem>): (groups: seq<Group>)
    requires KnownProducts(products, items)
  {
    var keys := FirstOccurrences(Keys(products, items));
    seq(|keys|, i requires 0 <= i < |keys| => Group(keys[i], SumAt(Keys(products, items), Quantities(items), keys[i])))
  }

  lemma KeysSnoc(products: Products, items: seq<LineItem>, i: nat)
    requires KnownProducts(products, items) && i < |items|
    ensures Keys(products, items[..i + 1]) == Keys(products, items[..i]) + [KeyOf(products, items[i])]
    ensures Quantities(items[..i + 1]) == Quantities(items[..i]) + [items[i].quantity]
  {
  }

  /** `rows`, with its keys in the order `order`, holds the sums by key of what was collected so far. */
  ghost predicate Collected<K(!new)>(order: seq<K>, rows: map<K, int>, keys: seq<K>, w: seq<int>) {
    && |keys| == |w|
    && order == FirstOccurrences(keys)
    && (forall k :: k in rows <==> k in keys)
    && (forall k | k in rows :: rows[k] == SumAt(keys, w, k))
  }

  lemma CollectedSnoc<K(!new)>(order: seq<K>, rows: map<K, int>, keys: seq<K>, w: seq<int>, k: K, x: int)
    requires Collected(order, rows, keys, w)
    ensures Collected(if k in rows then order else order + [k],
                      rows[k := (if k in rows then rows[k] else 0) + x], keys + [k], w + [x])
  {
    hide SumAt, FirstOccurrences;
    FirstOccurrencesSnoc(keys, k);
    FirstOccurrencesOnce(keys);
    assert k in FirstOccurrences(keys) <==> k in rows;
    forall key | key in keys || key == k ensures key in keys + [k] {
    }
    forall key | key in keys + [k]
      ensures SumAt(keys + [k], w + [x], key) == (if key in rows then rows[key] else 0) + (if key == k then x else 0)
    {
      SumSoFar(rows, keys, w, k, x, key);
    }
  }

  /** One more weight, seen from one key. */
  lemma SumSoFar<K(!new)>(rows: map<K, int>, keys: seq<K>, w: seq<int>, k: K, x: int, key: K)
    requires |keys| == |w| && (key in rows <==> key in keys) && (key in rows ==> rows[key] == SumAt(keys, w, key))
    ensures SumAt(keys + [k], w + [x], key) == (if key in rows then rows[key] else 0) + (if key == k then x else 0)
  {
    SumAtSnoc(keys, w, k, x, key);
    if key !in keys {
      SumAtAbsent(keys, w, key);
    }
  }

  /** The source's dictionary of rows, with its keys in insertion order. */
  method GroupedBatchItems(products: Products, items: seq<LineItem>) returns (groups: seq<Group>)
    requires KnownProducts(products, items)
    ensures groups == Groups(products, items)
  {
    hide Collected;
    var order: seq<Key> := [];
    var rows: map<Key, int> := map[];
    assert Collected(order, rows, Keys(products, items[..0]), Quantities(items[..0])) by { NothingCollected<Key>(); }
    for i := 0 to |items|
      invariant Collected(order, rows, Keys(products, items[..i]), Quantities(items[..i]))
    {
      var key := KeyOf(products, items[i]);
      KeysSnoc(products, items, i);
      CollectedSnoc(order, rows, Keys(products, items[..i]), Quantities(items[..i]), key, items[i].quantity);
      ghost var was := rows;
      if key !in rows {
        order := order + [key];
        rows := rows[key := 0];
      }
      rows := rows[key := rows[key] + items[i].quantity];
      assert rows == was[key := (if key in was then was[key] else 0) + items[i].quantity];
    }
    assert items[..|items|] == items;
    groups := Values(order, rows, Keys(products, items), Quantities(items));
  }

  lemma NothingCollected<K(!new)>()
    ensures Collected<K>([], map[], [], [])
  {
  }

  method Values(order: seq<Key>, rows: map<Key, int>, ghost keys: seq<Key>, ghost w: seq<int>) returns (groups: seq<Group>)
    requires Collected(order, rows, keys, w)
    ensures order == FirstOccurrences(keys) && |keys| == |w|
    ensures |groups| == |order| && forall i :: 0 <= i < |order| ==> groups[i] == Group(order[i], SumAt(keys, w, order[i]))
  {
    FirstOccurrencesOnce(keys);
    groups := [];
    for i := 0 to |order|
      invariant |groups| == i
      invariant forall j :: 0 <= j < i ==> groups[j] == Group(order[j], SumAt(keys, w, order[j]))
    {
      groups := groups + [Group(order[i], rows[order[i]])];
    }
  }

  // ---------------------------------------------------------------- one voucher line

  datatype Line = Line(
    product: ProductCode,
    quantity: int,
    rate: int,
    discountRate: int,
    gross: int,
    discount: int,
    gstRate: int,
    taxable: int,
    cgstRate: int,
    sgstRate: int,
    igstRate: int,
    cgst: int,
    sgst: int,
    igst: int,
    total: int)

  predicate SalesSide(kind: EventType) {
    kind.Sale? || kind.SalesReturn?
  }

  predicate InterState(batch: VoucherBatch) {
    SalesSide(batch.kind) && batch.header.interState
  }

  /** The rate that this line is taxed at: the batch's own rate where it has one, else the product's. */
  function GstRate(batch: VoucherBatch, product: Product): int {
    if InterState(batch) then Money(if batch.header.igstRate.Some? then batch.header.igstRate.value else product.identity.gstRate)
    else if SalesSide(batch.kind) && (batch.header.cgstRate.Some? || batch.header.sgstRate.Some?)
    then Money((if batch.header.cgstRate.Some? then batch.header.cgstRate.value else 0.0)
               + (if batch.header.sgstRate.Some? then batch.header.sgstRate.value else 0.0))
    else Money(product.identity.gstRate)
  }

  function Gross(group: Group): int {
    Money(group.key.rate) * group.quantity
  }

  function DiscountRate(batch: VoucherBatch, group: Group): int {
    if SalesSide(batch.kind) then Money(group.key.discount) else 0
  }

  /** The amount charged for the line: on the sales side it includes GST. */
  function Charged(batch: VoucherBatch, group: Group): int {
    Gross(group) - RoundDiv(Gross(group) * DiscountRate(batch, group), 10000)
  }

  function LineOf(batch: VoucherBatch, products: Products, group: Group): Line
    requires group.key.product in products
  {
    var gst := GstRate(batch, products[group.key.product]);
    var amount := Charged(batch, group);
    var taxable := if SalesSide(batch.kind) then TaxableValue(amount, gst) else amount;
    var half := if InterState(batch) then 0 else RoundDiv(gst, 2);
    var igstRate := if InterState(batch) then gst else 0;
    Line(group.key.product, group.quantity, Money(group.key.rate), DiscountRate(batch, group), Gross(group),
         Gross(group) - amount, gst, taxable, half, half, igstRate,
         Tax(taxable, half), Tax(taxable, half), Tax(taxable, igstRate),
         taxable + Tax(taxable, half) + Tax(taxable, half) + Tax(taxable, igstRate))
  }

  lemma GroupsKnown(products: Products, items: seq<LineItem>)
    requires KnownProducts(products, items)
    ensures forall i :: 0 <= i < |Groups(products, items)| ==> Groups(products, items)[i].key.product in products
  {
    var keys := Keys(products, items);
    FirstOccurrencesOnce(keys);
    var first := FirstOccurrences(keys);
    forall i | 0 <= i < |first| ensures first[i].product in products {
      assert first[i] in keys;
    }
  }

  function Lines(batch: VoucherBatch, products: Products): (lines: seq<Line>)
    requires KnownProducts(products, batch.items)
  {
    var groups := Groups(products, batch.items);
    GroupsKnown(products, batch.items);
    seq(|groups|, i requires 0 <= i < |groups| => LineOf(batch, products, groups[i]))
  }

  // ---------------------------------------------------------------- the summary

  datatype Summary = Summary(
    lines: seq<Line>,
    taxable: int,
    cgst: int,
    sgst: int,
    igst: int,
    gst: int,
    beforeRoundOff: int,
    roundOff: int,
    final: int)

  datatype Part = TaxablePart | CgstPart | SgstPart | IgstPart | TotalPart | GrossPart

  function PartOf(line: Line, part: Part): int {
    match part
    case TaxablePart => line.taxable
    case CgstPart => line.cgst
    case SgstPart => line.sgst
    case IgstPart => line.igst
    case TotalPart => line.total
    case GrossPart => line.gross
  }

  function Parts(lines: seq<Line>, part: Part): (parts: seq<int>)
    ensures |parts| == |lines|
  {
    seq(|lines|, i requires 0 <= i < |lines| => PartOf(lines[i], part))
  }

  function Total(lines: seq<Line>, part: Part): int {
    Sum(Parts(lines, part))
  }

  /** The summary is determined by the lines: totals, and the rounding of their sum to whole rupees. */
  predicate SummaryOf(summary: Summary, lines: seq<Line>) {
    && summary.lines == lines
    && summary.taxable == Total(lines, TaxablePart)
    && summary.cgst == Total(lines, CgstPart)
    && summary.sgst == Total(lines, SgstPart)
    && summary.igst == Total(lines, IgstPart)
    && summary.gst == summary.cgst + summary.sgst + summary.igst
    && summary.beforeRoundOff == summary.taxable + summary.gst
    && summary.final == RoundDiv(summary.beforeRoundOff, 100) * 100
    && summary.roundOff == summary.final - summary.beforeRoundOff
  }

  lemma TotalSnoc(lines: seq<Line>, line: Line, part: Part)
    ensures Total(lines + [line], part) == Total(lines, part) + PartOf(line, part)
  {
    assert Parts(lines + [line], part) == Parts(lines, part) + [PartOf(line, part)];
    SumSnoc(Parts(lines, part), PartOf(line, part));
  }

  method CalculateVoucherSummary(batch: VoucherBatch, products: Products) returns (summary: Summary)
    requires KnownProducts(products, batch.items)
    ensures SummaryOf(summary, Lines(batch, products))
  {
    hide Groups, LineOf, Total;
    var groups := GroupedBatchItems(products, batch.items);
    GroupsKnown(products, batch.items);
    ghost var all := Lines(batch, products);
    var lines: seq<Line> := [];
    var taxable, cgst, sgst, igst := 0, 0, 0, 0;
    assert forall part :: Total(lines, part) == 0 by { NoLines(); }
    for i := 0 to |groups|
      invariant |lines| == i && lines == all[..i]
      invariant taxable == Total(lines, TaxablePart) && cgst == Total(lines, CgstPart)
      invariant sgst == Total(lines, SgstPart) && igst == Total(lines, IgstPart)
    {
      var line := CalculateLine(batch, products, groups[i]);
      TotalSnoc(lines, line, TaxablePart);
      TotalSnoc(lines, line, CgstPart);
      TotalSnoc(lines, line, SgstPart);
      TotalSnoc(lines, line, IgstPart);
      lines := lines + [line];
      taxable, cgst, sgst, igst := taxable + line.taxable, cgst + line.cgst, sgst + line.sgst, igst + line.igst;
    }
    assert lines == all;
    var gst := cgst + sgst + igst;
    var before := taxable + gst;
    var final := RoundDiv(before, 100) * 100;
    summary := Summary(lines, taxable, cgst, sgst, igst, gst, before, final - before, final);
  }

  lemma NoLines()
    ensures forall part :: Total([], part) == 0
  {
    forall part ensures Total([], part) == 0 {
      assert Parts([], part) == [];
    }
  }

  /** The loop body, with the source's three branches. */
  method CalculateLine(batch: VoucherBatch, products: Products, group: Group) returns (line: Line)
    requires group.key.product in products
    ensures line == LineOf(batch, products, group)
  {
    hide Money, RoundDiv;
    var salesSide := batch.kind.Sale? || batch.kind.SalesReturn?;
    var interstate := salesSide && batch.header.interState;
    var rate := Money(group.key.rate);
    var gross := rate * group.quantity;
    var discountRate := if salesSide then Money(group.key.discount) else 0;
    var discount := RoundDiv(gross * discountRate, 10000);
    var amount := gross - discount;
    var gst := Money(products[group.key.product].identity.gstRate);
    var taxable, cgstRate, sgstRate, igstRate, cgst, sgst, igst := 0, 0, 0, 0, 0, 0, 0;
    if interstate {
      igstRate := if batch.header.igstRate.Some? then Money(batch.header.igstRate.value) else gst;
      gst := igstRate;
      taxable := TaxableValue(amount, gst);
      igst := RoundDiv(taxable * igstRate, 10000);
    } else if salesSide && (batch.header.cgstRate.Some? || batch.header.sgstRate.Some?) {
      var entered := Money((if batch.header.cgstRate.Some? then batch.header.cgstRate.value else 0.0)
                           + (if batch.header.sgstRate.Some? then batch.header.sgstRate.value else 0.0));
      gst := entered;
      taxable := TaxableValue(amount, gst);
      cgstRate := RoundDiv(entered, 2);
      sgstRate := cgstRate;
      cgst := RoundDiv(taxable * cgstRate, 10000);
      sgst := cgst;
    } else {
      taxable := if salesSide then TaxableValue(amount, gst) else amount;
      cgstRate := RoundDiv(gst, 2);
      sgstRate := cgstRate;
      cgst := RoundDiv(taxable * cgstRate, 10000);
      sgst := cgst;
    }
    line := Line(group.key.product, group.quantity, rate, discountRate, gross, discount, gst, taxable,
                 cgstRate, sgstRate, igstRate, cgst, sgst, igst, taxable + cgst + sgst + igst);
    NoTax(taxable);
  }

  lemma NoTax(taxable: int)
    ensures Tax(taxable, 0) == 0
  {
  }
}
