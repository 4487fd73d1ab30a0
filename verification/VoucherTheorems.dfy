/** Double entry, GST-inclusive recovery and grouping of vouchers. */
module VoucherTheorems {
  import opened Records
  import opened NetworkDb
  import opened NetworkIngest
  import opened Grouping
  import opened VoucherSummary
  import opened VoucherPostings

  // ---------------------------------------------------------------- rounding

  /** Rounding is off by at most half a unit, on either side of zero. */
  lemma RoundDivNear(n: int, d: int)
    requires d > 0
    ensures -d <= 2 * (RoundDiv(n, d) * d) - 2 * n <= d
  {
    var m := if n >= 0 then n else -n;
    var q := (2 * m + d) / (2 * d);
    assert 2 * m + d == (2 * d) * q + (2 * m + d) % (2 * d);
    assert 2 * d * q == 2 * (q * d);
    if n < 0 {
      assert RoundDiv(n, d) == -q;
      assert (-q) * d == -(q * d);
    }
  }

  lemma RoundDivSign(n: int, d: int)
    requires d > 0 && n >= 0
    ensures RoundDiv(n, d) >= 0
  {
  }

  lemma AtLeastOne(e: int, d: int)
    requires d > 0
    ensures e >= 1 ==> e * d >= d
    ensures e <= -1 ==> e * d <= -d
  {
  }

  lemma RoundDivMultiple(k: int, d: int)
    requires d > 0
    ensures RoundDiv(k * d, d) == k
  {
    RoundDivNear(k * d, d);
    var r := RoundDiv(k * d, d);
    hide RoundDiv;
    AtLeastOne(r - k, d);
    assert (r - k) * d == r * d - k * d;
  }

  // ---------------------------------------------------------------- GST-inclusive recovery

  /** What the line totals when it is taxed as IGST at the rate, or as twice half the rate. */
  function IgstTotal(amount: int, gst: int): int {
    var taxable := TaxableValue(amount, gst);
    taxable + Tax(taxable, gst)
  }

  function SplitTotal(amount: int, gst: int): int {
    var taxable := TaxableValue(amount, gst);
    taxable + Tax(taxable, RoundDiv(gst, 2)) + Tax(taxable, RoundDiv(gst, 2))
  }

  lemma Narrow(x: int, y: int, bound: int)
    requires -bound <= 10000 * (x - y) <= bound && bound < 20000
    ensures -1 <= x - y <= 1
  {
  }

  /** Taxable value times (1 + rate) is within half a unit, times (1 + rate), of the amount. */
  lemma TaxableNear(amount: int, gst: int)
    requires 0 <= gst
    ensures var t := TaxableValue(amount, gst); -(10000 + gst) <= 2 * (10000 * t + t * gst) - 2 * (10000 * amount) <= 10000 + gst
  {
    var t := TaxableValue(amount, gst);
    if gst > 0 {
      RoundDivNear(amount * 10000, 10000 + gst);
      assert t * (10000 + gst) == 10000 * t + t * gst;
    }
  }

  /** With one tax the line total is within 0.01 of the charged amount, for every rate up to 100%. */
  lemma IgstRecovers(amount: int, gst: int)
    requires 0 <= gst <= 10000
    ensures -1 <= IgstTotal(amount, gst) - amount <= 1
  {
    var t := TaxableValue(amount, gst);
    TaxableNear(amount, gst);
    RoundDivNear(t * gst, 10000);
    Narrow(IgstTotal(amount, gst), amount, 15000);
  }

  lemma HalfRate(gst: int)
    requires gst >= 0
    ensures 2 * RoundDiv(gst, 2) == gst + gst % 2
  {
  }

  lemma EvenSplitRecovers(amount: int, gst: int)
    requires 0 <= gst < 10000 && gst % 2 == 0
    ensures -1 <= SplitTotal(amount, gst) - amount <= 1
  {
    var t := TaxableValue(amount, gst);
    var half := RoundDiv(gst, 2);
    TaxableNear(amount, gst);
    HalfRate(gst);
    RoundDivNear(t * half, 10000);
    Twice(t, half, gst);
    hide RoundDiv, TaxableValue;
    Narrow(SplitTotal(amount, gst), amount, 19999);
  }

  lemma Twice(t: int, half: int, gst: int)
    requires 2 * half == gst
    ensures 2 * (t * half) == t * gst
  {
  }

  /** For an odd rate the two halves are rounded up; 10 * (100% + rate) gains 0.10. */
  lemma OddSplitGains(gst: int)
    requires 0 < gst <= 10000 && gst % 2 == 1
    ensures var amount := 10 * (10000 + gst); SplitTotal(amount, gst) - amount == 10
  {
    var amount := 10 * (10000 + gst);
    var half := RoundDiv(gst, 2);
    HalfRate(gst);
    assert amount * 10000 == 100000 * (10000 + gst);
    RoundDivMultiple(100000, 10000 + gst);
    assert TaxableValue(amount, gst) == 100000;
    assert 100000 * half == (10 * half) * 10000;
    RoundDivMultiple(10 * half, 10000);
  }

  /** At 100% one paisa becomes three. */
  lemma FullRateGains()
    ensures SplitTotal(1, 10000) == 3
  {
  }

  /**
   Split into CGST and SGST, the line total is within 0.01 of the charged amount for every amount, if and
   only if the rate is below 100% and has an even number of hundredths.
   */
  lemma SplitRecovers(gst: int)
    requires 0 <= gst <= 10000
    ensures (forall amount :: -1 <= SplitTotal(amount, gst) - amount <= 1) <==> gst < 10000 && gst % 2 == 0
  {
    if gst % 2 == 1 {
      OddSplitGains(gst);
      var amount := 10 * (10000 + gst);
      assert !(-1 <= SplitTotal(amount, gst) - amount <= 1);
    } else if gst == 10000 {
      FullRateGains();
      assert !(-1 <= SplitTotal(1, gst) - 1 <= 1);
    } else {
      forall amount ensures -1 <= SplitTotal(amount, gst) - amount <= 1 {
        EvenSplitRecovers(amount, gst);
      }
    }
  }

  /** The rate is one at which every line total recovers the charged amount. */
  predicate Recovers(batch: VoucherBatch, gst: int) {
    0 <= gst <= 10000 && (InterState(batch) || (gst < 10000 && gst % 2 == 0))
  }

  lemma LineRecovers(batch: VoucherBatch, products: Products, group: Group)
    requires group.key.product in products && SalesSide(batch.kind)
    requires Recovers(batch, GstRate(batch, products[group.key.product]))
    ensures -1 <= LineOf(batch, products, group).total - Charged(batch, group) <= 1
  {
    var gst, amount := GstRate(batch, products[group.key.product]), Charged(batch, group);
    hide GstRate, Charged;
    if InterState(batch) {
      IgstRecovers(amount, gst);
      NoTax(TaxableValue(amount, gst));
      hide TaxableValue, Tax;
      assert LineOf(batch, products, group).total == IgstTotal(amount, gst);
    } else {
      EvenSplitRecovers(amount, gst);
      NoTax(TaxableValue(amount, gst));
      hide TaxableValue, Tax, RoundDiv;
      assert LineOf(batch, products, group).total == SplitTotal(amount, gst);
    }
  }

  /** What the customer was charged, over all lines. */
  function ChargedTotal(batch: VoucherBatch, groups: seq<Group>): int {
    if groups == [] then 0 else ChargedTotal(batch, groups[..|groups| - 1]) + Charged(batch, groups[|groups| - 1])
  }

  function LinesOf(batch: VoucherBatch, products: Products, groups: seq<Group>): (lines: seq<Line>)
    requires forall i :: 0 <= i < |groups| ==> groups[i].key.product in products
  {
    seq(|groups|, i requires 0 <= i < |groups| => LineOf(batch, products, groups[i]))
  }

  lemma {:induction false} TotalsRecover(batch: VoucherBatch, products: Products, groups: seq<Group>)
    requires forall i :: 0 <= i < |groups| ==> groups[i].key.product in products
    requires SalesSide(batch.kind)
    requires forall i :: 0 <= i < |groups| ==> Recovers(batch, GstRate(batch, products[groups[i].key.product]))
    ensures var lines := LinesOf(batch, products, groups);
            -|groups| <= Total(lines, TotalPart) - ChargedTotal(batch, groups) <= |groups|
  {
    hide LineOf, GstRate, Charged, Recovers, Total;
    if groups == [] {
      NoLines();
    } else {
      var init, last := groups[..|groups| - 1], groups[|groups| - 1];
      TotalsRecover(batch, products, init);
      LineRecovers(batch, products, last);
      assert LinesOf(batch, products, groups) == LinesOf(batch, products, init) + [LineOf(batch, products, last)];
      TotalSnoc(LinesOf(batch, products, init), LineOf(batch, products, last), TotalPart);
    }
  }

  /** The total before round-off is the sum of the line totals. */
  lemma {:induction false} TotalsAdd(lines: seq<Line>)
    requires forall i :: 0 <= i < |lines| ==> lines[i].total == lines[i].taxable + lines[i].cgst + lines[i].sgst + lines[i].igst
    ensures Total(lines, TotalPart)
            == Total(lines, TaxablePart) + Total(lines, CgstPart) + Total(lines, SgstPart) + Total(lines, IgstPart)
  {
    hide Total;
    if lines == [] {
      NoLines();
    } else {
      var init, last := lines[..|lines| - 1], lines[|lines| - 1];
      TotalsAdd(init);
      assert lines == init + [last];
      TotalSnoc(init, last, TotalPart);
      TotalSnoc(init, last, TaxablePart);
      TotalSnoc(init, last, CgstPart);
      TotalSnoc(init, last, SgstPart);
      TotalSnoc(init, last, IgstPart);
    }
  }

  /**
   On the sales side the total before round-off is within 0.01 per line of the charged amount, and the
   round-off is within 0.50.
   */
  lemma GstInclusiveRecovery(batch: VoucherBatch, products: Products, summary: Summary)
    requires KnownProducts(products, batch.items) && SalesSide(batch.kind)
    requires SummaryOf(summary, Lines(batch, products))
    requires forall i :: 0 <= i < |Lines(batch, products)| ==> Recovers(batch, Lines(batch, products)[i].gstRate)
    ensures var charged := ChargedTotal(batch, Groups(products, batch.items));
            && -|summary.lines| <= summary.beforeRoundOff - charged <= |summary.lines|
            && -50 <= summary.roundOff <= 50
  {
    hide Recovers, Groups, Total, Charged, GstRate;
    var groups, lines := Groups(products, batch.items), Lines(batch, products);
    GroupsKnown(products, batch.items);
    assert lines == LinesOf(batch, products, groups);
    forall i | 0 <= i < |groups| ensures Recovers(batch, GstRate(batch, products[groups[i].key.product])) {
      assert lines[i].gstRate == GstRate(batch, products[groups[i].key.product]);
    }
    TotalsAdd(lines);
    hide LineOf;
    TotalsRecover(batch, products, groups);
    RoundDivNear(summary.beforeRoundOff, 100);
  }

  // ---------------------------------------------------------------- double entry

  function Amounts(entries: seq<Posting>): (amounts: seq<int>)
    ensures |amounts| == |entries|
  {
    seq(|entries|, i requires 0 <= i < |entries| => entries[i].amount)
  }

  function Balance(entries: seq<Posting>): int {
    Sum(Amounts(entries))
  }

  lemma {:induction false} SumConcat(a: seq<int>, b: seq<int>)
    ensures Sum(a + b) == Sum(a) + Sum(b)
  {
    if b == [] {
      assert a + b == a;
    } else {
      assert (a + b)[..|a + b| - 1] == a + b[..|b| - 1];
      SumConcat(a, b[..|b| - 1]);
    }
  }

  lemma BalanceConcat(a: seq<Posting>, b: seq<Posting>)
    ensures Balance(a + b) == Balance(a) + Balance(b)
  {
    assert Amounts(a + b) == Amounts(a) + Amounts(b);
    SumConcat(Amounts(a), Amounts(b));
  }

  function Positive(x: int): int {
    if x > 0 then x else 0
  }

  lemma BalanceIf(b: bool, posting: Posting)
    ensures Balance(If(b, posting)) == if b then posting.amount else 0
  {
    if b {
      assert Amounts([posting]) == [] + [posting.amount];
      SumSnoc([], posting.amount);
    } else {
      assert Amounts([]) == [];
    }
  }

  lemma RateBalance(lines: seq<Line>, ledgers: Ledgers, rate: int, sign: int)
    ensures Balance(RatePostings(lines, ledgers, rate, sign))
            == sign * Positive(TaxAt(lines, CgstPart, rate)) + sign * Positive(TaxAt(lines, SgstPart, rate))
               + sign * Positive(TaxAt(lines, IgstPart, rate))
  {
    hide TaxAt, Balance;
    var c, s, g := TaxAt(lines, CgstPart, rate), TaxAt(lines, SgstPart, rate), TaxAt(lines, IgstPart, rate);
    var a, b, d := If(c > 0, Posting(ledgers.cgst, sign * c)), If(s > 0, Posting(ledgers.sgst, sign * s)), If(g > 0, Posting(ledgers.igst, sign * g));
    BalanceIf(c > 0, Posting(ledgers.cgst, sign * c));
    BalanceIf(s > 0, Posting(ledgers.sgst, sign * s));
    BalanceIf(g > 0, Posting(ledgers.igst, sign * g));
    BalanceConcat(a, b);
    BalanceConcat(a + b, d);
  }

  /** The tax of these rates that is posted: negative totals are not. */
  function PostedTax(lines: seq<Line>, part: Part, rates: seq<int>): int {
    if rates == [] then 0
    else PostedTax(lines, part, rates[..|rates| - 1]) + Positive(TaxAt(lines, part, rates[|rates| - 1]))
  }

  lemma {:induction false} TaxBalance(lines: seq<Line>, mappings: map<int, Ledgers>, rates: seq<int>, sign: int)
    requires forall i :: 0 <= i < |rates| ==> rates[i] in mappings
    ensures Balance(TaxPostings(lines, mappings, rates, sign))
            == sign * (PostedTax(lines, CgstPart, rates) + PostedTax(lines, SgstPart, rates) + PostedTax(lines, IgstPart, rates))
  {
    hide TaxAt, RatePostings, Balance, Positive;
    if rates == [] {
      BalanceIf(false, Posting("", 0));
    } else {
      var init, rate := rates[..|rates| - 1], rates[|rates| - 1];
      TaxBalance(lines, mappings, init, sign);
      RateBalance(lines, mappings[rate], rate, sign);
      BalanceConcat(TaxPostings(lines, mappings, init, sign), RatePostings(lines, mappings[rate], rate, sign));
      Distribute(sign, PostedTax(lines, CgstPart, init) + PostedTax(lines, SgstPart, init) + PostedTax(lines, IgstPart, init),
                 Positive(TaxAt(lines, CgstPart, rate)), Positive(TaxAt(lines, SgstPart, rate)), Positive(TaxAt(lines, IgstPart, rate)));
    }
  }

  lemma Distribute(s: int, x: int, a: int, b: int, c: int)
    ensures s * x + (s * a + s * b + s * c) == s * (x + a + b + c)
  {
  }

  /** Some tax total that the voucher would post is negative. */
  ghost predicate NegativeTax(batch: VoucherBatch, lines: seq<Line>) {
    if SalesSide(batch.kind)
    then exists rate, part: Part :: rate in Rates(lines) && IsTax(part) && TaxAt(lines, part, rate) < 0
    else Total(lines, CgstPart) < 0 || Total(lines, SgstPart) < 0
  }

  predicate IsTax(part: Part) {
    part.CgstPart? || part.SgstPart? || part.IgstPart?
  }

  lemma {:induction false} PostedAtLeast(lines: seq<Line>, part: Part, rates: seq<int>)
    ensures PostedTax(lines, part, rates) >= Sum(SumsAt(Rates(lines), Parts(lines, part), rates))
    ensures PostedTax(lines, part, rates) == Sum(SumsAt(Rates(lines), Parts(lines, part), rates))
            <==> forall rate | rate in rates :: TaxAt(lines, part, rate) >= 0
  {
    if rates == [] {
    } else {
      var init, rate := rates[..|rates| - 1], rates[|rates| - 1];
      PostedAtLeast(lines, part, init);
      assert SumsAt(Rates(lines), Parts(lines, part), rates)[..|init|] == SumsAt(Rates(lines), Parts(lines, part), init);
      assert forall r :: r in rates <==> r in init || r == rate;
    }
  }

  /** Posted tax is the total tax, if and only if no rate has a negative total. */
  lemma PostedAll(lines: seq<Line>, part: Part)
    ensures var posted := PostedTax(lines, part, FirstOccurrences(Rates(lines)));
            posted >= Total(lines, part)
            && (posted == Total(lines, part) <==> forall rate | rate in Rates(lines) :: TaxAt(lines, part, rate) >= 0)
  {
    FirstOccurrencesOnce(Rates(lines));
    PostedAtLeast(lines, part, FirstOccurrences(Rates(lines)));
    Partition(Rates(lines), Parts(lines, part));
  }

  lemma {:induction false} LinesBalance(batch: VoucherBatch, settings: Settings, lines: seq<Line>)
    requires SettingsComplete(settings) && (SalesSide(batch.kind) ==> AllMapped(lines, settings.mappings.value))
    ensures Balance(LinePostings(batch, settings, lines)) == Sign(batch.kind) * Total(lines, TaxablePart)
  {
    if lines == [] {
      assert LinePostings(batch, settings, lines) == [];
      BalanceIf(false, Posting("", 0));
      NoLines();
    } else {
      hide Balance, Total;
      var init, last := lines[..|lines| - 1], lines[|lines| - 1];
      LinesBalance(batch, settings, init);
      var posting := LinePostings(batch, settings, lines)[|lines| - 1];
      assert LinePostings(batch, settings, lines) == LinePostings(batch, settings, init) + If(true, posting);
      BalanceConcat(LinePostings(batch, settings, init), If(true, posting));
      BalanceIf(true, posting);
      assert lines == init + [last];
      TotalSnoc(init, last, TaxablePart);
    }
  }

  lemma PurchaseTaxBalance(settings: Settings, lines: seq<Line>)
    ensures Balance(PurchaseTaxPostings(settings, lines)) == -Positive(Total(lines, CgstPart)) - Positive(Total(lines, SgstPart))
  {
    hide Total, Balance;
    var c, s := Total(lines, CgstPart), Total(lines, SgstPart);
    BalanceIf(c > 0, Posting(settings.cgstLedger, -c));
    BalanceIf(s > 0, Posting(settings.sgstLedger, -s));
    BalanceConcat(If(c > 0, Posting(settings.cgstLedger, -c)), If(s > 0, Posting(settings.sgstLedger, -s)));
  }

  /** The tax postings of the voucher. */
  function TaxEntries(batch: VoucherBatch, settings: Settings, lines: seq<Line>): seq<Posting>
    requires CheckBuild(batch, settings, lines).None?
  {
    if SalesSide(batch.kind) then
      RatesMapped(lines, settings.mappings.value);
      TaxPostings(lines, settings.mappings.value, FirstOccurrences(Rates(lines)), Sign(batch.kind))
    else PurchaseTaxPostings(settings, lines)
  }

  /** Purchases carry no IGST. */
  ghost predicate NoPurchaseIgst(batch: VoucherBatch, lines: seq<Line>) {
    SalesSide(batch.kind) || Total(lines, IgstPart) == 0
  }

  lemma TaxEntriesBalance(batch: VoucherBatch, settings: Settings, lines: seq<Line>)
    requires CheckBuild(batch, settings, lines).None? && NoPurchaseIgst(batch, lines)
    ensures Balance(TaxEntries(batch, settings, lines))
            == Sign(batch.kind) * (Total(lines, CgstPart) + Total(lines, SgstPart) + Total(lines, IgstPart))
            <==> !NegativeTax(batch, lines)
  {
    hide Balance, Total, TaxPostings, PurchaseTaxPostings, CheckBuild;
    if SalesSide(batch.kind) {
      assert AllMapped(lines, settings.mappings.value) && settings.mappings.Some? by { BuildMapped(batch, settings, lines); }
      RatesMapped(lines, settings.mappings.value);
      TaxBalance(lines, settings.mappings.value, FirstOccurrences(Rates(lines)), Sign(batch.kind));
      PostedAll(lines, CgstPart);
      PostedAll(lines, SgstPart);
      PostedAll(lines, IgstPart);
      hide PostedTax, TaxAt;
    } else {
      PurchaseTaxBalance(settings, lines);
    }
  }

  lemma BuildMapped(batch: VoucherBatch, settings: Settings, lines: seq<Line>)
    requires CheckBuild(batch, settings, lines).None?
    ensures SettingsComplete(settings) && (SalesSide(batch.kind) ==> AllMapped(lines, settings.mappings.value))
  {
    hide IgstMapped, AllValid, PurchaseLedgersComplete;
  }

  /**
   Whenever a voucher is built, its postings sum to zero, if and only if no tax total that it would post is
   negative; a negative total is silently left out.
   */
  lemma DoubleEntry(batch: VoucherBatch, settings: Settings, summary: Summary, lines: seq<Line>)
    requires SummaryOf(summary, lines) && CheckBuild(batch, settings, lines).None? && NoPurchaseIgst(batch, lines)
    ensures Balance(Postings(batch, settings, summary)) == 0 <==> !NegativeTax(batch, lines)
  {
    hide Balance, Total, NegativeTax, TaxPostings, LinePostings, PurchaseTaxPostings, NoPurchaseIgst, CheckBuild, RoundDiv;
    var sign := Sign(batch.kind);
    var party := Posting(PartyName(batch), -sign * summary.final);
    var rounding := Posting(settings.roundOffLedger, sign * summary.roundOff);
    BuildMapped(batch, settings, lines);
    var goods, taxes, rest := LinePostings(batch, settings, lines), TaxEntries(batch, settings, lines), If(summary.roundOff != 0, rounding);
    assert Postings(batch, settings, summary) == If(true, party) + goods + taxes + rest;
    BalanceConcat(If(true, party), goods);
    BalanceConcat(If(true, party) + goods, taxes);
    BalanceConcat(If(true, party) + goods + taxes, rest);
    BalanceIf(true, party);
    BalanceIf(summary.roundOff != 0, rounding);
    LinesBalance(batch, settings, lines);
    TaxEntriesBalance(batch, settings, lines);
  }

  // ---------------------------------------------------------------- non-negative batches

  /** What the request schema guarantees of items and products. */
  ghost predicate NonNegative(batch: VoucherBatch, products: Products)
    requires KnownProducts(products, batch.items)
  {
    && (forall i :: 0 <= i < |batch.items| ==>
          && batch.items[i].quantity >= 0
          && KeyOf(products, batch.items[i]).rate >= 0.0
          && 0.0 <= KeyOf(products, batch.items[i]).discount <= 100.0)
    && (forall p | p in products :: products[p].identity.gstRate >= 0.0)
  }

  lemma MoneyBounds(value: real)
    requires value >= 0.0
    ensures Money(value) >= 0
    ensures value <= 100.0 ==> Money(value) <= 10000
  {
    if value <= 100.0 {
      assert value * 100.0 + 0.5 <= 10000.5;
    }
  }

  lemma DiscountAtMost(gross: int, rate: int)
    requires gross >= 0 && 0 <= rate <= 10000
    ensures RoundDiv(gross * rate, 10000) <= gross
  {
    assert gross * rate <= gross * 10000;
    RoundDivNear(gross * rate, 10000);
  }

  lemma {:induction false} SumAtNonNegative<K>(keys: seq<K>, w: seq<int>, key: K)
    requires |keys| == |w| && forall i :: 0 <= i < |w| ==> w[i] >= 0
    ensures SumAt(keys, w, key) >= 0
  {
    if w != [] {
      SumAtNonNegative(keys[..|w| - 1], w[..|w| - 1], key);
    }
  }

  lemma {:induction false} SumNonNegative(w: seq<int>)
    requires forall i :: 0 <= i < |w| ==> w[i] >= 0
    ensures Sum(w) >= 0
  {
    if w != [] {
      SumNonNegative(w[..|w| - 1]);
    }
  }

  /** A group of a non-negative batch charges a non-negative amount. */
  lemma GroupNonNegative(batch: VoucherBatch, products: Products, i: nat)
    requires KnownProducts(products, batch.items) && NonNegative(batch, products) && i < |Groups(products, batch.items)|
    ensures Charged(batch, Groups(products, batch.items)[i]) >= 0
  {
    var keys, group := Keys(products, batch.items), Groups(products, batch.items)[i];
    FirstOccurrencesOnce(keys);
    assert group.key in FirstOccurrences(keys);
    var k :| 0 <= k < |keys| && keys[k] == group.key;
    assert KeyOf(products, batch.items[k]) == group.key;
    SumAtNonNegative(keys, Quantities(batch.items), group.key);
    assert group.quantity >= 0;
    MoneyBounds(group.key.rate);
    MoneyBounds(group.key.discount);
    hide Groups, Money;
    GrossNonNegative(Money(group.key.rate), group.quantity);
    DiscountAtMost(Gross(group), DiscountRate(batch, group));
  }

  lemma GrossNonNegative(rate: int, quantity: int)
    requires rate >= 0 && quantity >= 0
    ensures rate * quantity >= 0
  {
  }

  lemma TaxNonNegative(taxable: int, rate: int)
    requires taxable >= 0 && rate >= 0
    ensures Tax(taxable, rate) >= 0
  {
    GrossNonNegative(taxable, rate);
  }

  lemma LineNonNegative(batch: VoucherBatch, products: Products, group: Group)
    requires group.key.product in products && Charged(batch, group) >= 0
    requires GstRate(batch, products[group.key.product]) >= 0
    ensures var line := LineOf(batch, products, group);
            line.taxable >= 0 && line.cgst >= 0 && line.sgst >= 0 && line.igst >= 0
  {
    var gst, amount := GstRate(batch, products[group.key.product]), Charged(batch, group);
    var line := LineOf(batch, products, group);
    TaxableNonNegative(amount, gst);
    RoundDivSign(gst, 2);
    hide GstRate, Charged, RoundDiv, TaxableValue, Tax;
    TaxNonNegative(line.taxable, line.cgstRate);
    TaxNonNegative(line.taxable, line.igstRate);
  }

  lemma TaxableNonNegative(amount: int, gst: int)
    requires amount >= 0 && gst >= 0
    ensures TaxableValue(amount, gst) >= 0
  {
  }

  /** No tax of a non-negative batch that can be built is negative. */
  lemma NonNegativeLines(batch: VoucherBatch, products: Products)
    requires KnownProducts(products, batch.items) && NonNegative(batch, products)
    requires SalesSide(batch.kind) ==> AllValid(Lines(batch, products))
    ensures var lines := Lines(batch, products);
            forall i :: 0 <= i < |lines| ==> lines[i].cgst >= 0 && lines[i].sgst >= 0 && lines[i].igst >= 0
  {
    var groups, lines := Groups(products, batch.items), Lines(batch, products);
    GroupsKnown(products, batch.items);
    forall i | 0 <= i < |lines| ensures lines[i].cgst >= 0 && lines[i].sgst >= 0 && lines[i].igst >= 0 {
      var gst := GstRate(batch, products[groups[i].key.product]);
      assert lines[i].gstRate == gst;
      if !SalesSide(batch.kind) {
        MoneyBounds(products[groups[i].key.product].identity.gstRate);
      }
      GroupNonNegative(batch, products, i);
      LineNonNegative(batch, products, groups[i]);
    }
  }

  lemma PurchasesWithoutIgst(batch: VoucherBatch, products: Products)
    requires KnownProducts(products, batch.items)
    ensures NoPurchaseIgst(batch, Lines(batch, products))
  {
    if !SalesSide(batch.kind) {
      var lines := Lines(batch, products);
      var parts := Parts(lines, IgstPart);
      forall i | 0 <= i < |parts| ensures parts[i] == 0 {
        NoTax(lines[i].taxable);
      }
      ZeroSum(parts);
    }
  }

  lemma {:induction false} ZeroSum(w: seq<int>)
    requires forall i :: 0 <= i < |w| ==> w[i] == 0
    ensures Sum(w) == 0
  {
    if w != [] {
      ZeroSum(w[..|w| - 1]);
    }
  }

  lemma NoNegativeTax(batch: VoucherBatch, lines: seq<Line>)
    requires forall i :: 0 <= i < |lines| ==> lines[i].cgst >= 0 && lines[i].sgst >= 0 && lines[i].igst >= 0
    ensures !NegativeTax(batch, lines)
  {
    forall rate, part | IsTax(part) ensures TaxAt(lines, part, rate) >= 0 {
      assert forall i :: 0 <= i < |lines| ==> Parts(lines, part)[i] >= 0;
      SumAtNonNegative(Rates(lines), Parts(lines, part), rate);
    }
    SumNonNegative(Parts(lines, CgstPart));
    SumNonNegative(Parts(lines, SgstPart));
  }

  /** The postings of every voucher that is built from non-negative quantities, rates and discounts sum to zero. */
  lemma NonNegativeBalances(batch: VoucherBatch, products: Products, settings: Settings, summary: Summary)
    requires KnownProducts(products, batch.items) && NonNegative(batch, products)
    requires SummaryOf(summary, Lines(batch, products)) && CheckBuild(batch, settings, Lines(batch, products)).None?
    ensures Balance(Postings(batch, settings, summary)) == 0
  {
    hide Lines, SummaryOf, Balance, Postings, NonNegative, NegativeTax, NoPurchaseIgst, AllMapped, IgstMapped, PurchaseLedgersComplete, AllValid;
    var lines := Lines(batch, products);
    PurchasesWithoutIgst(batch, products);
    NonNegativeLines(batch, products);
    NoNegativeTax(batch, lines);
    DoubleEntry(batch, settings, summary, lines);
  }

  // ---------------------------------------------------------------- returns

  function Negated(entries: seq<Posting>): (r: seq<Posting>)
    ensures |r| == |entries|
  {
    seq(|entries|, i requires 0 <= i < |entries| => Posting(entries[i].ledger, -entries[i].amount))
  }

  lemma NegatedConcat(a: seq<Posting>, b: seq<Posting>)
    ensures Negated(a + b) == Negated(a) + Negated(b)
  {
  }

  lemma NegatedRate(lines: seq<Line>, ledgers: Ledgers, rate: int)
    ensures RatePostings(lines, ledgers, rate, -1) == Negated(RatePostings(lines, ledgers, rate, 1))
  {
    hide TaxAt;
  }

  lemma {:induction false} NegatedTaxes(lines: seq<Line>, mappings: map<int, Ledgers>, rates: seq<int>)
    requires forall i :: 0 <= i < |rates| ==> rates[i] in mappings
    ensures TaxPostings(lines, mappings, rates, -1) == Negated(TaxPostings(lines, mappings, rates, 1))
  {
    hide RatePostings;
    if rates != [] {
      var init, rate := rates[..|rates| - 1], rates[|rates| - 1];
      NegatedTaxes(lines, mappings, init);
      NegatedRate(lines, mappings[rate], rate);
      NegatedConcat(TaxPostings(lines, mappings, init, 1), RatePostings(lines, mappings[rate], rate, 1));
    }
  }

  lemma SameLines(batch: VoucherBatch, products: Products)
    requires KnownProducts(products, batch.items)
    ensures Lines(batch.(kind := SalesReturn), products) == Lines(batch.(kind := Sale), products)
  {
    var a, b := Lines(batch.(kind := SalesReturn), products), Lines(batch.(kind := Sale), products);
    hide Groups, Money, RoundDiv;
    assert forall i :: 0 <= i < |a| ==> a[i] == b[i];
  }

  /** A sales return posts, entry by entry, the negation of the sale with the same contents. */
  lemma ReturnNegatesSale(batch: VoucherBatch, products: Products, settings: Settings, summary: Summary)
    requires KnownProducts(products, batch.items) && SummaryOf(summary, Lines(batch.(kind := Sale), products))
    ensures var sale, back := batch.(kind := Sale), batch.(kind := SalesReturn);
            && Lines(back, products) == Lines(sale, products)
            && CheckBuild(back, settings, summary.lines) == CheckBuild(sale, settings, summary.lines)
            && (CheckBuild(sale, settings, summary.lines).None? ==>
                  Postings(back, settings, summary) == Negated(Postings(sale, settings, summary)))
  {
    var sale, back := batch.(kind := Sale), batch.(kind := SalesReturn);
    SameLines(batch, products);
    hide Lines, SummaryOf;
    if CheckBuild(sale, settings, summary.lines).None? {
      ReturnPostings(sale, back, settings, summary);
    }
  }

  lemma ReturnPostings(sale: VoucherBatch, back: VoucherBatch, settings: Settings, summary: Summary)
    requires sale.kind == Sale && back == sale.(kind := SalesReturn)
    requires CheckBuild(sale, settings, summary.lines).None? && CheckBuild(back, settings, summary.lines).None?
    ensures Postings(back, settings, summary) == Negated(Postings(sale, settings, summary))
  {
    hide Postings, TaxEntries, LinePostings, If, CheckBuild, AllMapped, Negated;
    var lines := summary.lines;
    PostingsParts(sale, settings, summary);
    PostingsParts(back, settings, summary);
    ReturnLines(sale, back, settings, lines);
    ReturnRounding(settings, summary.roundOff);
    ReturnTaxes(sale, back, settings, lines);
    NegatedOne(Posting(PartyName(sale), -summary.final));
    NegatedFour([Posting(PartyName(sale), -summary.final)], LinePostings(sale, settings, lines), TaxEntries(sale, settings, lines),
                If(summary.roundOff != 0, Posting(settings.roundOffLedger, summary.roundOff)));
    assert Sign(sale.kind) == 1 && Sign(back.kind) == -1;
  }

  lemma NegatedOne(posting: Posting)
    ensures Negated([posting]) == [Posting(posting.ledger, -posting.amount)]
  {
  }

  lemma ReturnTaxes(sale: VoucherBatch, back: VoucherBatch, settings: Settings, lines: seq<Line>)
    requires sale.kind == Sale && back == sale.(kind := SalesReturn)
    requires CheckBuild(sale, settings, lines).None? && CheckBuild(back, settings, lines).None?
    ensures TaxEntries(back, settings, lines) == Negated(TaxEntries(sale, settings, lines))
  {
    BuildMapped(sale, settings, lines);
    RatesMapped(lines, settings.mappings.value);
    NegatedTaxes(lines, settings.mappings.value, FirstOccurrences(Rates(lines)));
    hide TaxPostings, IgstMapped, AllValid, AllMapped;
  }

  lemma PostingsParts(batch: VoucherBatch, settings: Settings, summary: Summary)
    requires CheckBuild(batch, settings, summary.lines).None?
    ensures SettingsComplete(settings) && (SalesSide(batch.kind) ==> AllMapped(summary.lines, settings.mappings.value))
    ensures Postings(batch, settings, summary)
            == [Posting(PartyName(batch), -Sign(batch.kind) * summary.final)]
               + LinePostings(batch, settings, summary.lines)
               + TaxEntries(batch, settings, summary.lines)
               + If(summary.roundOff != 0, Posting(settings.roundOffLedger, Sign(batch.kind) * summary.roundOff))
  {
    BuildMapped(batch, settings, summary.lines);
    hide TaxPostings, LinePostings, If, PurchaseTaxPostings;
  }

  lemma NegatedFour(a: seq<Posting>, b: seq<Posting>, c: seq<Posting>, d: seq<Posting>)
    ensures Negated(a + b + c + d) == Negated(a) + Negated(b) + Negated(c) + Negated(d)
  {
    NegatedConcat(a, b);
    NegatedConcat(a + b, c);
    NegatedConcat(a + b + c, d);
  }

  lemma ReturnLines(sale: VoucherBatch, back: VoucherBatch, settings: Settings, lines: seq<Line>)
    requires sale.kind == Sale && back == sale.(kind := SalesReturn)
    requires SettingsComplete(settings) && AllMapped(lines, settings.mappings.value)
    ensures LinePostings(back, settings, lines) == Negated(LinePostings(sale, settings, lines))
  {
  }

  lemma ReturnRounding(settings: Settings, roundOff: int)
    ensures If(roundOff != 0, Posting(settings.roundOffLedger, -roundOff))
            == Negated(If(roundOff != 0, Posting(settings.roundOffLedger, roundOff)))
  {
  }

  // ---------------------------------------------------------------- grouping

  /** The gross value of each item by itself. */
  function ItemGross(products: Products, items: seq<LineItem>): (w: seq<int>)
    requires KnownProducts(products, items)
    ensures |w| == |items|
  {
    seq(|items|, i requires 0 <= i < |items| => Money(KeyOf(products, items[i]).rate) * items[i].quantity)
  }

  function GroupQuantities(groups: seq<Group>): (w: seq<int>)
    ensures |w| == |groups|
  {
    seq(|groups|, i requires 0 <= i < |groups| => groups[i].quantity)
  }

  /** Units under one key have one rate, so the gross value of a group is that of its items. */
  lemma {:induction false} GrossAtKey(keys: seq<Key>, quantities: seq<int>, gross: seq<int>, key: Key)
    requires |keys| == |quantities| == |gross|
    requires forall i :: 0 <= i < |keys| ==> gross[i] == Money(keys[i].rate) * quantities[i]
    ensures SumAt(keys, gross, key) == Money(key.rate) * SumAt(keys, quantities, key)
  {
    hide Money;
    if keys != [] {
      var n := |keys| - 1;
      GrossAtKey(keys[..n], quantities[..n], gross[..n], key);
      if keys[n] == key {
        assert Money(key.rate) * (SumAt(keys[..n], quantities[..n], key) + quantities[n])
               == Money(key.rate) * SumAt(keys[..n], quantities[..n], key) + Money(key.rate) * quantities[n];
      }
    }
  }

  /** Grouping conserves the units, and the lines' gross value is the sum over the items. */
  lemma GroupingConserves(batch: VoucherBatch, products: Products)
    requires KnownProducts(products, batch.items)
    ensures Sum(GroupQuantities(Groups(products, batch.items))) == Sum(Quantities(batch.items))
    ensures Total(Lines(batch, products), GrossPart) == Sum(ItemGross(products, batch.items))
  {
    var keys, groups, lines := Keys(products, batch.items), Groups(products, batch.items), Lines(batch, products);
    var quantities, gross := Quantities(batch.items), ItemGross(products, batch.items);
    hide Money, GstRate, Charged;
    var first := FirstOccurrences(keys);
    assert GroupQuantities(groups) == SumsAt(keys, quantities, first);
    Partition(keys, quantities);
    forall key ensures SumAt(keys, gross, key) == Money(key.rate) * SumAt(keys, quantities, key) {
      GrossAtKey(keys, quantities, gross, key);
    }
    assert Parts(lines, GrossPart) == SumsAt(keys, gross, first);
    Partition(keys, gross);
  }

  /** The items of both batches are the same, in some order. */
  ghost predicate SameItems(a: VoucherBatch, b: VoucherBatch) {
    b == a.(items := b.items) && Reordered(a.items, b.items)
  }

  lemma ReorderedElements<A>(a: seq<A>, b: seq<A>, x: A)
    requires Reordered(a, b) && x in a
    ensures x in b
  {
    assert x in multiset(a);
  }

  /** Reordering the items reorders the keys with their quantities. */
  lemma PairsReordered(products: Products, a: seq<LineItem>, b: seq<LineItem>)
    requires KnownProducts(products, a) && KnownProducts(products, b) && Reordered(a, b)
    ensures Reordered(Zip(Keys(products, a), Quantities(a)), Zip(Keys(products, b), Quantities(b)))
  {
    var f := (item: LineItem) =>
      (if item.product in products then KeyOf(products, item) else Key(item.product, 0.0, 0.0), item.quantity);
    MappedReordered(f, a, b);
    hide KeyOf;
    assert Zip(Keys(products, a), Quantities(a)) == Mapped(f, a);
    assert Zip(Keys(products, b), Quantities(b)) == Mapped(f, b);
  }

  lemma GroupsDistinct(products: Products, items: seq<LineItem>)
    requires KnownProducts(products, items)
    ensures Distinct(Groups(products, items))
    ensures forall g :: g in Groups(products, items)
              <==> g.key in Keys(products, items) && g.quantity == SumAt(Keys(products, items), Quantities(items), g.key)
  {
    var keys, groups := Keys(products, items), Groups(products, items);
    FirstOccurrencesOnce(keys);
    var first := FirstOccurrences(keys);
    forall g ensures g in groups <==> g.key in keys && g.quantity == SumAt(keys, Quantities(items), g.key) {
      if g in groups {
        var i :| 0 <= i < |groups| && groups[i] == g;
        assert g.key == first[i] && first[i] in first;
      }
      if g.key in keys && g.quantity == SumAt(keys, Quantities(items), g.key) {
        assert g.key in first;
        var i :| 0 <= i < |first| && first[i] == g.key;
        assert groups[i] == g;
      }
    }
  }

  lemma GroupsReordered(products: Products, a: seq<LineItem>, b: seq<LineItem>)
    requires KnownProducts(products, a) && KnownProducts(products, b) && Reordered(a, b)
    ensures Reordered(Groups(products, a), Groups(products, b))
  {
    hide Groups, KeyOf;
    PairsReordered(products, a, b);
    KeysReordered(products, a, b);
    KeysReordered(products, b, a);
    GroupsDistinct(products, a);
    GroupsDistinct(products, b);
    forall key ensures SumAt(Keys(products, a), Quantities(a), key) == SumAt(Keys(products, b), Quantities(b), key) {
      SumAtReordered(Keys(products, a), Quantities(a), Keys(products, b), Quantities(b), key);
    }
    SameElements(Groups(products, a), Groups(products, b));
  }

  lemma KeysReordered(products: Products, a: seq<LineItem>, b: seq<LineItem>)
    requires KnownProducts(products, a) && KnownProducts(products, b) && Reordered(a, b)
    ensures forall key | key in Keys(products, a) :: key in Keys(products, b)
  {
    forall key | key in Keys(products, a) ensures key in Keys(products, b) {
      var i :| 0 <= i < |a| && Keys(products, a)[i] == key;
      ReorderedElements(a, b, a[i]);
      var j :| 0 <= j < |b| && b[j] == a[i];
      assert Keys(products, b)[j] == key;
    }
  }

  /** Permuting the items permutes the lines and leaves every total of the summary unchanged. */
  lemma OrderIrrelevant(a: VoucherBatch, b: VoucherBatch, products: Products, first: Summary, second: Summary)
    requires KnownProducts(products, a.items) && KnownProducts(products, b.items) && SameItems(a, b)
    requires SummaryOf(first, Lines(a, products)) && SummaryOf(second, Lines(b, products))
    ensures Reordered(first.lines, second.lines)
    ensures second == first.(lines := second.lines)
  {
    hide Groups, LineOf, Total;
    GroupsReordered(products, a.items, b.items);
    GroupsKnown(products, a.items);
    GroupsKnown(products, b.items);
    LinesReordered(a, b, products);
    forall part ensures Total(first.lines, part) == Total(second.lines, part) {
      TotalReordered(first.lines, second.lines, part);
    }
  }

  lemma TotalReordered(a: seq<Line>, b: seq<Line>, part: Part)
    requires Reordered(a, b)
    ensures Total(a, part) == Total(b, part)
  {
    var f := (line: Line) => PartOf(line, part);
    MappedReordered(f, a, b);
    assert Parts(a, part) == Mapped(f, a) && Parts(b, part) == Mapped(f, b);
    SumReordered(Parts(a, part), Parts(b, part));
  }

  lemma SameBatchLine(a: VoucherBatch, b: VoucherBatch, products: Products, group: Group)
    requires b == a.(items := b.items) && group.key.product in products
    ensures LineOf(a, products, group) == LineOf(b, products, group)
  {
    hide Money, RoundDiv, TaxableValue;
  }

  lemma LinesReordered(a: VoucherBatch, b: VoucherBatch, products: Products)
    requires KnownProducts(products, a.items) && KnownProducts(products, b.items)
    requires b == a.(items := b.items) && Reordered(Groups(products, a.items), Groups(products, b.items))
    ensures Reordered(Lines(a, products), Lines(b, products))
  {
    var ga, gb := Groups(products, a.items), Groups(products, b.items);
    GroupsKnown(products, a.items);
    GroupsKnown(products, b.items);
    var none := Line(ProductCode("", ""), 0, 0, 0, 0, 0, 0, 0, 0, 0, 0, 0, 0, 0, 0);
    var f := (g: Group) => if g.key.product in products then LineOf(a, products, g) else none;
    MappedReordered(f, ga, gb);
    hide Groups, LineOf;
    forall i | 0 <= i < |gb| ensures Lines(b, products)[i] == f(gb[i]) {
      SameBatchLine(a, b, products, gb[i]);
    }
    assert Lines(a, products) == Mapped(f, ga);
    assert Lines(b, products) == Mapped(f, gb);
  }
}
