/** What the lines and the total of a voucher say of its items (app/services/voucher.py, app/services/batch_items.py). */
module VoucherLines {
  import opened Records
  import opened NetworkDb
  import opened Grouping
  import opened VoucherSummary

  // ---------------------------------------------------------------- rounding

  /** `r` is n / d to the nearest integer, and of two nearest ones the one further from zero. */
  predicate Nearest(r: int, n: int, d: int) {
    if n >= 0 then 2 * n - d < 2 * d * r <= 2 * n + d else 2 * n - d <= 2 * d * r < 2 * n + d
  }

  /** `paise` is the amount to the nearest paisa, and of two nearest ones the one further from zero. */
  predicate NearestPaisa(paise: int, amount: real) {
    if amount >= 0.0 then amount * 100.0 - 0.5 < paise as real <= amount * 100.0 + 0.5
    else amount * 100.0 - 0.5 <= paise as real < amount * 100.0 + 0.5
  }

  lemma RoundDivNearest(n: int, d: int)
    requires d > 0
    ensures Nearest(RoundDiv(n, d), n, d)
  {
    var m := if n >= 0 then n else -n;
    var q := (2 * m + d) / (2 * d);
    assert 2 * m + d == (2 * d) * q + (2 * m + d) % (2 * d);
    if n < 0 {
      assert RoundDiv(n, d) == -q;
      assert 2 * d * (-q) == -(2 * d * q);
    }
  }

  lemma MoneyNearest(amount: real)
    ensures NearestPaisa(Money(amount), amount)
  {
  }

  // ---------------------------------------------------------------- one line

  /** The GST rate in force: the batch's IGST, or its CGST and SGST together, or else the product's. */
  predicate TaxedAt(batch: VoucherBatch, product: Product, gst: int) {
    var header := batch.header;
    if batch.kind != Sale && batch.kind != SalesReturn then NearestPaisa(gst, product.identity.gstRate)
    else if header.interState then
      NearestPaisa(gst, match header.igstRate case Some(rate) => rate case None => product.identity.gstRate)
    else
      match (header.cgstRate, header.sgstRate)
      case (None, None) => NearestPaisa(gst, product.identity.gstRate)
      case (Some(cgst), None) => NearestPaisa(gst, cgst)
      case (None, Some(sgst)) => NearestPaisa(gst, sgst)
      case (Some(cgst), Some(sgst)) => NearestPaisa(gst, cgst + sgst)
  }

  /**
   The line of so many units of a product at a rate and a discount: gross, discount (on the sales side), the value
   without the GST that a sales price includes, and the tax on it, each rounded by itself.
   */
  predicate Reads(batch: VoucherBatch, products: Products, key: Key, quantity: int, line: Line)
    requires key.product in products
  {
    var sales := batch.kind == Sale || batch.kind == SalesReturn;
    && line.product == key.product && line.quantity == quantity
    && NearestPaisa(line.rate, key.rate) && line.gross == line.rate * quantity
    && (if sales then NearestPaisa(line.discountRate, key.discount) else line.discountRate == 0)
    && Nearest(line.discount, line.gross * line.discountRate, 10000)
    && TaxedAt(batch, products[key.product], line.gstRate)
    && (if sales && line.gstRate > 0 then Nearest(line.taxable, (line.gross - line.discount) * 10000, 10000 + line.gstRate)
        else line.taxable == line.gross - line.discount)
    && (if sales && batch.header.interState
        then line.igstRate == line.gstRate && line.cgstRate == line.sgstRate == 0
        else line.igstRate == 0 && line.sgstRate == line.cgstRate && Nearest(line.cgstRate, line.gstRate, 2))
    && Nearest(line.cgst, line.taxable * line.cgstRate, 10000)
    && Nearest(line.sgst, line.taxable * line.sgstRate, 10000)
    && Nearest(line.igst, line.taxable * line.igstRate, 10000)
    && line.total == line.taxable + line.cgst + line.sgst + line.igst
  }

  lemma RateTaxed(batch: VoucherBatch, product: Product)
    ensures TaxedAt(batch, product, GstRate(batch, product))
  {
    forall amount: real ensures NearestPaisa(Money(amount), amount) {
      MoneyNearest(amount);
    }
    hide Money, NearestPaisa;
    if batch.header.cgstRate.Some? && batch.header.sgstRate.None? {
      assert batch.header.cgstRate.value + 0.0 == batch.header.cgstRate.value;
    }
  }

  lemma NothingOf(d: int)
    requires d > 0
    ensures Nearest(0, 0, d)
  {
  }

  lemma LineReads(batch: VoucherBatch, products: Products, group: Group)
    requires group.key.product in products
    ensures Reads(batch, products, group.key, group.quantity, LineOf(batch, products, group))
  {
    var line := LineOf(batch, products, group);
    RateTaxed(batch, products[group.key.product]);
    MoneyNearest(group.key.rate);
    MoneyNearest(group.key.discount);
    RoundDivNearest(line.gross * line.discountRate, 10000);
    if line.gstRate > 0 {
      RoundDivNearest((line.gross - line.discount) * 10000, 10000 + line.gstRate);
    }
    RoundDivNearest(line.gstRate, 2);
    RoundDivNearest(line.taxable * line.cgstRate, 10000);
    RoundDivNearest(line.taxable * line.sgstRate, 10000);
    RoundDivNearest(line.taxable * line.igstRate, 10000);
    hide Nearest, NearestPaisa, RoundDiv, Money, TaxedAt, GstRate;
  }

  // ---------------------------------------------------------------- all lines

  /** What an item is charged at: its own rate and discount, or where it has none the product's. */
  predicate ChargedAt(products: Products, item: LineItem, key: Key) {
    && item.product in products && key.product == item.product
    && key.rate == (match item.rate case Some(rate) => rate case None => products[item.product].defaultRate)
    && key.discount == (match item.discount case Some(discount) => discount case None => products[item.product].discountRate)
  }

  /** The units of all items that are charged alike. */
  function UnitsAt(products: Products, items: seq<LineItem>, key: Key): int {
    if items == [] then 0
    else
      UnitsAt(products, items[..|items| - 1], key)
      + if ChargedAt(products, items[|items| - 1], key) then items[|items| - 1].quantity else 0
  }

  lemma {:induction false} UnitsSummed(products: Products, items: seq<LineItem>, key: Key)
    requires KnownProducts(products, items)
    ensures SumAt(Keys(products, items), Quantities(items), key) == UnitsAt(products, items, key)
  {
    if items != [] {
      var i := |items| - 1;
      UnitsSummed(products, items[..i], key);
      KeysSnoc(products, items, i);
      assert items[..i + 1] == items;
      SumAtSnoc(Keys(products, items[..i]), Quantities(items[..i]), KeyOf(products, items[i]), items[i].quantity, key);
      assert ChargedAt(products, items[i], key) <==> KeyOf(products, items[i]) == key;
      hide SumAt, Keys, Quantities, KeyOf, ChargedAt;
    }
  }

  ghost predicate Occurs(products: Products, items: seq<LineItem>, key: Key) {
    exists i :: 0 <= i < |items| && ChargedAt(products, items[i], key)
  }

  /**
   A voucher has one line for each product, rate and discount that occurs among its items, with the units of all
   items that are charged so.
   */
  lemma LinesRead(batch: VoucherBatch, products: Products)
    requires KnownProducts(products, batch.items)
    ensures var lines := Lines(batch, products);
            exists keys: seq<Key> ::
              && |keys| == |lines|
              && (forall i, j :: 0 <= i < j < |keys| ==> keys[i] != keys[j])
              && (forall key :: key in keys <==> Occurs(products, batch.items, key))
              && forall i :: 0 <= i < |keys| ==>
                   keys[i].product in products
                   && Reads(batch, products, keys[i], UnitsAt(products, batch.items, keys[i]), lines[i])
  {
    var keys := FirstOccurrences(Keys(products, batch.items));
    var lines := Lines(batch, products);
    FirstOccurrencesOnce(Keys(products, batch.items));
    GroupsKnown(products, batch.items);
    forall key: Key ensures key in keys <==> Occurs(products, batch.items, key) {
      KeyCharged(products, batch.items, key);
    }
    hide Reads, Occurs, LineOf, FirstOccurrences;
    forall i | 0 <= i < |keys|
      ensures keys[i].product in products
              && Reads(batch, products, keys[i], UnitsAt(products, batch.items, keys[i]), lines[i])
    {
      UnitsSummed(products, batch.items, keys[i]);
      LineReads(batch, products, Groups(products, batch.items)[i]);
    }
  }

  lemma KeyCharged(products: Products, items: seq<LineItem>, key: Key)
    requires KnownProducts(products, items)
    ensures key in Keys(products, items) <==> Occurs(products, items, key)
  {
    if key in Keys(products, items) {
      var i :| 0 <= i < |items| && Keys(products, items)[i] == key;
      assert ChargedAt(products, items[i], key);
    }
    if i :| 0 <= i < |items| && ChargedAt(products, items[i], key) {
      assert Keys(products, items)[i] == key;
    }
  }

  // ---------------------------------------------------------------- the total

  function SumOfTotals(lines: seq<Line>): int {
    if lines == [] then 0 else SumOfTotals(lines[..|lines| - 1]) + lines[|lines| - 1].total
  }

  /** The final value is the sum of the lines to the nearest rupee, and the round-off is what that adds. */
  lemma FinalValue(batch: VoucherBatch, products: Products, summary: Summary)
    requires KnownProducts(products, batch.items) && SummaryOf(summary, Lines(batch, products))
    ensures summary.beforeRoundOff == SumOfTotals(summary.lines)
    ensures summary.final % 100 == 0 && Nearest(summary.final / 100, SumOfTotals(summary.lines), 100)
    ensures summary.roundOff == summary.final - SumOfTotals(summary.lines)
  {
    GroupsKnown(products, batch.items);
    SumsOfParts(summary.lines);
    RoundDivNearest(summary.beforeRoundOff, 100);
    hide RoundDiv, Nearest, Total;
  }

  lemma {:induction false} SumsOfParts(lines: seq<Line>)
    requires forall i :: 0 <= i < |lines| ==> lines[i].total == lines[i].taxable + lines[i].cgst + lines[i].sgst + lines[i].igst
    ensures SumOfTotals(lines) == Total(lines, TaxablePart) + Total(lines, CgstPart) + Total(lines, SgstPart) + Total(lines, IgstPart)
  {
    if lines == [] {
      NoLines();
    } else {
      var init, line := lines[..|lines| - 1], lines[|lines| - 1];
      SumsOfParts(init);
      assert init + [line] == lines;
      TotalSnoc(init, line, TaxablePart);
      TotalSnoc(init, line, CgstPart);
      TotalSnoc(init, line, SgstPart);
      TotalSnoc(init, line, IgstPart);
      hide Total;
    }
  }
}
