/** Which ledgers a built voucher posts to, on which side, and with which amounts (app/services/tally.py, app/services/voucher.py). */
module VoucherSides {
  import opened Records
  import opened NetworkDb
  import opened Grouping
  import opened VoucherSummary
  import opened VoucherPostings
  import opened VoucherTheorems

  // ---------------------------------------------------------------- totals, read off the lines

  function Amount(line: Line, part: Part): int {
    match part
    case CgstPart => line.cgst
    case SgstPart => line.sgst
    case IgstPart => line.igst
    case TotalPart => line.taxable + line.cgst + line.sgst + line.igst
    case TaxablePart => line.taxable
    case GrossPart => line.gross
  }

  function AmountOfAll(lines: seq<Line>, part: Part): int {
    if lines == [] then 0 else AmountOfAll(lines[..|lines| - 1], part) + Amount(lines[|lines| - 1], part)
  }

  function AmountAtRate(lines: seq<Line>, part: Part, rate: int): int {
    if lines == [] then 0
    else
      AmountAtRate(lines[..|lines| - 1], part, rate)
      + if lines[|lines| - 1].gstRate == rate then Amount(lines[|lines| - 1], part) else 0
  }

  lemma PartsInit(lines: seq<Line>, part: Part)
    requires lines != []
    ensures Parts(lines, part)[..|lines| - 1] == Parts(lines[..|lines| - 1], part)
    ensures Rates(lines)[..|lines| - 1] == Rates(lines[..|lines| - 1])
  {
  }

  lemma {:induction false} TaxAtAmount(lines: seq<Line>, part: Part, rate: int)
    requires IsTax(part)
    ensures TaxAt(lines, part, rate) == AmountAtRate(lines, part, rate)
  {
    if lines != [] {
      PartsInit(lines, part);
      TaxAtAmount(lines[..|lines| - 1], part, rate);
    }
  }

  lemma {:induction false} TotalAmount(lines: seq<Line>, part: Part)
    requires IsTax(part)
    ensures Total(lines, part) == AmountOfAll(lines, part)
  {
    if lines != [] {
      PartsInit(lines, part);
      TotalAmount(lines[..|lines| - 1], part);
    }
  }

  // ---------------------------------------------------------------- tax postings

  /** A tax that is posted: a part of one rate on the sales side, of all lines else. */
  datatype TaxKey = TaxKey(rate: int, part: Part)

  function LedgerFor(ledgers: Ledgers, part: Part): string {
    match part
    case SgstPart => ledgers.sgst
    case IgstPart => ledgers.igst
    case _ => ledgers.cgst
  }

  /** `taxes` posts each of the keys once, to the ledger of its rate and part; `sale` is the side. */
  ghost predicate TaxesPosted(taxes: seq<Posting>, keys: seq<TaxKey>, lines: seq<Line>, mappings: map<int, Ledgers>, sale: bool) {
    && |keys| == |taxes|
    && forall i | 0 <= i < |taxes| ::
         && keys[i].rate in mappings
         && var amount := AmountAtRate(lines, keys[i].part, keys[i].rate);
            amount > 0 && taxes[i] == Posting(LedgerFor(mappings[keys[i].rate], keys[i].part), if sale then amount else -amount)
  }

  /** The keys are, each once, the taxes of these rates that have an amount. */
  ghost predicate TaxKeys(keys: seq<TaxKey>, lines: seq<Line>, rates: seq<int>) {
    && (forall i, j :: 0 <= i < j < |keys| ==> keys[i] != keys[j])
    && (forall key :: key in keys <==> key.rate in rates && IsTax(key.part) && AmountAtRate(lines, key.part, key.rate) > 0)
  }

  function KeyIf(lines: seq<Line>, part: Part, rate: int): seq<TaxKey> {
    if AmountAtRate(lines, part, rate) > 0 then [TaxKey(rate, part)] else []
  }

  function KeysAt(lines: seq<Line>, rate: int): seq<TaxKey> {
    KeyIf(lines, CgstPart, rate) + KeyIf(lines, SgstPart, rate) + KeyIf(lines, IgstPart, rate)
  }

  function KeysOf(lines: seq<Line>, rates: seq<int>): seq<TaxKey> {
    if rates == [] then [] else KeysOf(lines, rates[..|rates| - 1]) + KeysAt(lines, rates[|rates| - 1])
  }

  lemma RateKeys(lines: seq<Line>, rate: int)
    ensures TaxKeys(KeysAt(lines, rate), lines, [rate])
  {
    hide AmountAtRate;
  }

  lemma PartPosted(lines: seq<Line>, mappings: map<int, Ledgers>, part: Part, rate: int, sale: bool)
    requires rate in mappings && IsTax(part)
    ensures var amount := TaxAt(lines, part, rate);
            TaxesPosted(If(amount > 0, Posting(LedgerFor(mappings[rate], part), (if sale then 1 else -1) * amount)),
                        KeyIf(lines, part, rate), lines, mappings, sale)
  {
    TaxAtAmount(lines, part, rate);
    hide AmountAtRate, TaxAt;
  }

  lemma PostedConcat(a: seq<Posting>, ka: seq<TaxKey>, b: seq<Posting>, kb: seq<TaxKey>, lines: seq<Line>,
                     mappings: map<int, Ledgers>, sale: bool)
    requires TaxesPosted(a, ka, lines, mappings, sale) && TaxesPosted(b, kb, lines, mappings, sale)
    ensures TaxesPosted(a + b, ka + kb, lines, mappings, sale)
  {
    hide AmountAtRate;
  }

  lemma RatePosted(lines: seq<Line>, mappings: map<int, Ledgers>, rate: int, sale: bool)
    requires rate in mappings
    ensures TaxesPosted(RatePostings(lines, mappings[rate], rate, if sale then 1 else -1), KeysAt(lines, rate), lines, mappings, sale)
  {
    var sign := if sale then 1 else -1;
    var cgst := If(TaxAt(lines, CgstPart, rate) > 0, Posting(mappings[rate].cgst, sign * TaxAt(lines, CgstPart, rate)));
    var sgst := If(TaxAt(lines, SgstPart, rate) > 0, Posting(mappings[rate].sgst, sign * TaxAt(lines, SgstPart, rate)));
    var igst := If(TaxAt(lines, IgstPart, rate) > 0, Posting(mappings[rate].igst, sign * TaxAt(lines, IgstPart, rate)));
    PartPosted(lines, mappings, CgstPart, rate, sale);
    PartPosted(lines, mappings, SgstPart, rate, sale);
    PartPosted(lines, mappings, IgstPart, rate, sale);
    hide If, KeyIf, TaxAt, TaxesPosted;
    PostedConcat(cgst, KeyIf(lines, CgstPart, rate), sgst, KeyIf(lines, SgstPart, rate), lines, mappings, sale);
    PostedConcat(cgst + sgst, KeyIf(lines, CgstPart, rate) + KeyIf(lines, SgstPart, rate), igst, KeyIf(lines, IgstPart, rate),
                 lines, mappings, sale);
  }

  lemma KeysConcat(a: seq<TaxKey>, b: seq<TaxKey>, lines: seq<Line>, rates: seq<int>, rate: int)
    requires TaxKeys(a, lines, rates) && TaxKeys(b, lines, [rate]) && rate !in rates
    ensures TaxKeys(a + b, lines, rates + [rate])
  {
    hide AmountAtRate, IsTax;
    forall i, j | 0 <= i < j < |a + b| ensures (a + b)[i] != (a + b)[j] {
      if i < |a| <= j {
        assert a[i] in a && b[j - |a|] in b;
        assert a[i].rate in rates && b[j - |a|].rate in [rate];
      }
    }
  }

  lemma {:induction false} TaxesOf(lines: seq<Line>, mappings: map<int, Ledgers>, rates: seq<int>, sale: bool)
    requires Distinct(rates) && forall i :: 0 <= i < |rates| ==> rates[i] in mappings
    ensures TaxKeys(KeysOf(lines, rates), lines, rates)
    ensures TaxesPosted(TaxPostings(lines, mappings, rates, if sale then 1 else -1), KeysOf(lines, rates), lines, mappings, sale)
    decreases |rates|
  {
    hide AmountAtRate, RatePostings, KeysAt, TaxKeys, TaxesPosted;
    if rates == [] {
      NoKeys(lines, mappings, sale);
    } else {
      var init, rate := rates[..|rates| - 1], rates[|rates| - 1];
      TaxesOf(lines, mappings, init, sale);
      RateKeys(lines, rate);
      RatePosted(lines, mappings, rate, sale);
      assert rates == init + [rate];
      KeysConcat(KeysOf(lines, init), KeysAt(lines, rate), lines, init, rate);
      PostedConcat(TaxPostings(lines, mappings, init, if sale then 1 else -1), KeysOf(lines, init),
                   RatePostings(lines, mappings[rate], rate, if sale then 1 else -1), KeysAt(lines, rate), lines, mappings, sale);
    }
  }

  lemma NoKeys(lines: seq<Line>, mappings: map<int, Ledgers>, sale: bool)
    ensures TaxKeys([], lines, []) && TaxesPosted([], [], lines, mappings, sale)
  {
  }

  // ---------------------------------------------------------------- the whole voucher

  /** What a purchase or receipt posts as tax: CGST and SGST of all lines, where there is any, as debits. */
  function PurchaseTaxes(settings: Settings, lines: seq<Line>): seq<Posting> {
    var cgst, sgst := AmountOfAll(lines, CgstPart), AmountOfAll(lines, SgstPart);
    (if cgst > 0 then [Posting(settings.cgstLedger, -cgst)] else []) + (if sgst > 0 then [Posting(settings.sgstLedger, -sgst)] else [])
  }

  /** The ledger that the value of a line goes to. */
  ghost predicate GoesTo(batch: VoucherBatch, settings: Settings, line: Line, ledger: string) {
    if batch.kind == Sale || batch.kind == SalesReturn
    then settings.mappings.Some? && line.gstRate in settings.mappings.value && ledger == settings.mappings.value[line.gstRate].sales
    else ledger == settings.purchaseLedger
  }

  ghost predicate TaxSide(batch: VoucherBatch, settings: Settings, lines: seq<Line>, taxes: seq<Posting>) {
    if batch.kind == Sale || batch.kind == SalesReturn
    then settings.mappings.Some?
         && exists keys :: TaxesPosted(taxes, keys, lines, settings.mappings.value, batch.kind == Sale)
                           && (forall i, j :: 0 <= i < j < |keys| ==> keys[i] != keys[j])
                           && forall key :: key in keys <==> HasTax(lines, key)
    else taxes == PurchaseTaxes(settings, lines)
  }

  ghost predicate HasTax(lines: seq<Line>, key: TaxKey) {
    IsTax(key.part) && AmountAtRate(lines, key.part, key.rate) > 0 && exists i :: 0 <= i < |lines| && lines[i].gstRate == key.rate
  }

  lemma AllTaxKeys(lines: seq<Line>, mappings: map<int, Ledgers>, keys: seq<TaxKey>)
    requires TaxKeys(keys, lines, FirstOccurrences(Rates(lines)))
    ensures forall key :: key in keys <==> HasTax(lines, key)
  {
    hide AmountAtRate, IsTax;
    var first := FirstOccurrences(Rates(lines));
    FirstOccurrencesOnce(Rates(lines));
    forall key: TaxKey ensures key.rate in first <==> exists i :: 0 <= i < |lines| && lines[i].gstRate == key.rate {
      if key.rate in first {
        var i :| 0 <= i < |lines| && Rates(lines)[i] == key.rate;
      }
      if i :| 0 <= i < |lines| && lines[i].gstRate == key.rate {
        assert Rates(lines)[i] in Rates(lines);
      }
    }
  }

  lemma SalesTaxes(batch: VoucherBatch, settings: Settings, lines: seq<Line>)
    requires CheckBuild(batch, settings, lines).None? && SalesSide(batch.kind)
    requires forall i :: 0 <= i < |FirstOccurrences(Rates(lines))| ==> FirstOccurrences(Rates(lines))[i] in settings.mappings.value
    ensures TaxSide(batch, settings, lines,
                    TaxPostings(lines, settings.mappings.value, FirstOccurrences(Rates(lines)), if batch.kind.Sale? then 1 else -1))
  {
    hide TaxPostings, TaxesPosted, AllMapped, AllValid, IgstMapped, HasTax, KeysOf;
    var first := FirstOccurrences(Rates(lines));
    FirstOccurrencesOnce(Rates(lines));
    TaxesOf(lines, settings.mappings.value, first, batch.kind.Sale?);
    AllTaxKeys(lines, settings.mappings.value, KeysOf(lines, first));
  }

  lemma PurchaseSide(batch: VoucherBatch, settings: Settings, lines: seq<Line>)
    requires !SalesSide(batch.kind)
    ensures TaxSide(batch, settings, lines, PurchaseTaxPostings(settings, lines))
  {
    TotalAmount(lines, CgstPart);
    TotalAmount(lines, SgstPart);
    hide Total, AmountOfAll;
  }

  /**
   A sale debits the party with the final value and credits the sales ledger of each line's rate with its taxable
   value; it credits each tax of each rate once to the ledger of that rate and tax. A sales return posts to the same
   ledgers on the other sides; purchases and receipts credit the party and debit the purchase and tax ledgers. What
   rounding adds goes to the round-off ledger, on the side of the lines.
   */
  lemma PostingSides(batch: VoucherBatch, settings: Settings, summary: Summary)
    requires CheckBuild(batch, settings, summary.lines).None?
    ensures var entries, lines := Postings(batch, settings, summary), summary.lines;
            var sale, rounding := batch.kind == Sale, if summary.roundOff != 0 then 1 else 0;
            && |entries| >= 1 + |lines| + rounding
            && Some(entries[0].ledger) == batch.header.partyName
            && entries[0].amount == (if sale then -summary.final else summary.final)
            && (forall i | 0 <= i < |lines| ::
                  GoesTo(batch, settings, lines[i], entries[1 + i].ledger)
                  && entries[1 + i].amount == (if sale then lines[i].taxable else -lines[i].taxable))
            && TaxSide(batch, settings, lines, entries[1 + |lines|..|entries| - rounding])
            && (summary.roundOff != 0 ==>
                  entries[|entries| - 1] == Posting(settings.roundOffLedger, if sale then summary.roundOff else -summary.roundOff))
  {
    var lines := summary.lines;
    hide TaxPostings, PurchaseTaxPostings, TaxSide, IgstMapped;
    if SalesSide(batch.kind) {
      RatesMapped(lines, settings.mappings.value);
      SalesTaxes(batch, settings, lines);
      var taxes := TaxPostings(lines, settings.mappings.value, FirstOccurrences(Rates(lines)), if batch.kind.Sale? then 1 else -1);
      Slices(batch, settings, summary, taxes);
    } else {
      PurchaseSide(batch, settings, lines);
      Slices(batch, settings, summary, PurchaseTaxPostings(settings, lines));
    }
  }

  lemma Slices(batch: VoucherBatch, settings: Settings, summary: Summary, taxes: seq<Posting>)
    requires CheckBuild(batch, settings, summary.lines).None?
    requires taxes == if SalesSide(batch.kind)
                      then (RatesMapped(summary.lines, settings.mappings.value);
                            TaxPostings(summary.lines, settings.mappings.value, FirstOccurrences(Rates(summary.lines)), Sign(batch.kind)))
                      else PurchaseTaxPostings(settings, summary.lines)
    ensures var entries := Postings(batch, settings, summary);
            var rounding := if summary.roundOff != 0 then 1 else 0;
            && |entries| == 1 + |summary.lines| + |taxes| + rounding
            && entries[0] == Posting(PartyName(batch), -Sign(batch.kind) * summary.final)
            && (forall i | 0 <= i < |summary.lines| :: entries[1 + i] == LinePostings(batch, settings, summary.lines)[i])
            && entries[1 + |summary.lines|..|entries| - rounding] == taxes
            && (summary.roundOff != 0 ==> entries[|entries| - 1] == Posting(settings.roundOffLedger, Sign(batch.kind) * summary.roundOff))
  {
    hide TaxPostings, PurchaseTaxPostings, LinePostings, IgstMapped, AllMapped, AllValid, Sign;
  }

  // ---------------------------------------------------------------- when a voucher is built

  /** Settings, party and every ledger that the voucher would post to are there, and each sales rate is a percentage. */
  ghost predicate Complete(batch: VoucherBatch, settings: Settings, lines: seq<Line>) {
    && settings.companyName != "" && settings.roundOffLedger != "" && settings.mappings.Some?
    && batch.kind in {Purchase, Receive, Sale, SalesReturn}
    && batch.header.partyName.Some? && batch.header.partyName.value != ""
    && if batch.kind == Sale || batch.kind == SalesReturn
       then forall i | 0 <= i < |lines| ::
              && 0 <= lines[i].gstRate <= 10000 && lines[i].gstRate in settings.mappings.value
              && (AmountAtRate(lines, IgstPart, lines[i].gstRate) > 0 ==> settings.mappings.value[lines[i].gstRate].igst != "")
       else settings.purchaseLedger != ""
            && (AmountOfAll(lines, CgstPart) > 0 ==> settings.cgstLedger != "")
            && (AmountOfAll(lines, SgstPart) > 0 ==> settings.sgstLedger != "")
  }

  lemma BuildsExactly(batch: VoucherBatch, settings: Settings, lines: seq<Line>)
    ensures CheckBuild(batch, settings, lines).None? <==> Complete(batch, settings, lines)
  {
    forall rate: int ensures TaxAt(lines, IgstPart, rate) == AmountAtRate(lines, IgstPart, rate) {
      TaxAtAmount(lines, IgstPart, rate);
    }
    TotalAmount(lines, CgstPart);
    TotalAmount(lines, SgstPart);
    hide TaxAt, AmountAtRate, Total, AmountOfAll;
  }
}
