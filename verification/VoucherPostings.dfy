/**
 The ledger postings of a Tally voucher (app/services/tally.py, build_voucher_xml).

 A debit is negative and a credit positive, as Tally's import expects. Each inventory line counts once, by
 its accounting allocation.
 */
module VoucherPostings {
  import opened Records
  import opened NetworkDb
  import opened NetworkIngest
  import opened Grouping
  import opened VoucherSummary

  datatype Ledgers = Ledgers(sales: string, cgst: string, sgst: string, igst: string)

  /** Stripped Tally settings; `mappings` is None when their text does not parse. */
  datatype Settings = Settings(
    companyName: string,
    roundOffLedger: string,
    purchaseLedger: string,
    cgstLedger: string,
    sgstLedger: string,
    mappings: Option<map<int, Ledgers>>)

  datatype Posting = Posting(ledger: string, amount: int)

  /** A TallySyncError, or a ValueError that the caller does not catch. */
  datatype BuildError = Rejected | Crashed

  function Sign(kind: EventType): int {
    if kind.Sale? then 1 else -1
  }

  function Rates(lines: seq<Line>): (rates: seq<int>)
    ensures |rates| == |lines|
  {
    seq(|lines|, i requires 0 <= i < |lines| => lines[i].gstRate)
  }

  /** gst_rate_key() accepts the rate. */
  predicate ValidRate(rate: int) {
    0 <= rate <= 10000
  }

  /** The tax of the lines at one rate. */
  function TaxAt(lines: seq<Line>, part: Part, rate: int): int {
    SumAt(Rates(lines), Parts(lines, part), rate)
  }

  // ---------------------------------------------------------------- checks

  predicate SettingsComplete(settings: Settings) {
    settings.companyName != "" && settings.roundOffLedger != "" && settings.mappings.Some?
  }

  function PartyName(batch: VoucherBatch): string {
    if batch.header.partyName.Some? then batch.header.partyName.value else ""
  }

  predicate AllValid(lines: seq<Line>) {
    forall i :: 0 <= i < |lines| ==> ValidRate(lines[i].gstRate)
  }

  predicate AllMapped(lines: seq<Line>, mappings: map<int, Ledgers>) {
    forall i :: 0 <= i < |lines| ==> lines[i].gstRate in mappings
  }

  /** Every rate that carries IGST has an IGST ledger. */
  predicate IgstMapped(lines: seq<Line>, mappings: map<int, Ledgers>) {
    forall i :: 0 <= i < |lines| && lines[i].gstRate in mappings && TaxAt(lines, IgstPart, lines[i].gstRate) > 0 ==>
      mappings[lines[i].gstRate].igst != ""
  }

  predicate PurchaseLedgersComplete(settings: Settings, lines: seq<Line>) {
    && settings.purchaseLedger != ""
    && (Total(lines, CgstPart) > 0 ==> settings.cgstLedger != "")
    && (Total(lines, SgstPart) > 0 ==> settings.sgstLedger != "")
  }

  function CheckBuild(batch: VoucherBatch, settings: Settings, lines: seq<Line>): Option<BuildError> {
    if !SettingsComplete(settings) || !PostsToTally(batch.kind) || PartyName(batch) == "" then Some(Rejected)
    else if SalesSide(batch.kind) then
      if !AllValid(lines) then Some(Crashed)
      else if !AllMapped(lines, settings.mappings.value) || !IgstMapped(lines, settings.mappings.value) then Some(Rejected)
      else None
    else if !PurchaseLedgersComplete(settings, lines) then Some(Rejected)
    else None
  }

  // ---------------------------------------------------------------- postings

  function If(b: bool, posting: Posting): seq<Posting> {
    if b then [posting] else []
  }

  function LinePostings(batch: VoucherBatch, settings: Settings, lines: seq<Line>): (r: seq<Posting>)
    requires SettingsComplete(settings) && (SalesSide(batch.kind) ==> AllMapped(lines, settings.mappings.value))
    ensures |r| == |lines|
  {
    seq(|lines|, i requires 0 <= i < |lines| =>
      Posting(if SalesSide(batch.kind) then settings.mappings.value[lines[i].gstRate].sales else settings.purchaseLedger,
              Sign(batch.kind) * lines[i].taxable))
  }

  function RatePostings(lines: seq<Line>, ledgers: Ledgers, rate: int, sign: int): seq<Posting> {
    If(TaxAt(lines, CgstPart, rate) > 0, Posting(ledgers.cgst, sign * TaxAt(lines, CgstPart, rate)))
    + If(TaxAt(lines, SgstPart, rate) > 0, Posting(ledgers.sgst, sign * TaxAt(lines, SgstPart, rate)))
    + If(TaxAt(lines, IgstPart, rate) > 0, Posting(ledgers.igst, sign * TaxAt(lines, IgstPart, rate)))
  }

  /** The tax postings of the given rates, in their order. */
  function TaxPostings(lines: seq<Line>, mappings: map<int, Ledgers>, rates: seq<int>, sign: int): seq<Posting>
    requires forall i :: 0 <= i < |rates| ==> rates[i] in mappings
  {
    if rates == [] then []
    else
      TaxPostings(lines, mappings, rates[..|rates| - 1], sign)
      + RatePostings(lines, mappings[rates[|rates| - 1]], rates[|rates| - 1], sign)
  }

  function PurchaseTaxPostings(settings: Settings, lines: seq<Line>): seq<Posting> {
    If(Total(lines, CgstPart) > 0, Posting(settings.cgstLedger, -Total(lines, CgstPart)))
    + If(Total(lines, SgstPart) > 0, Posting(settings.sgstLedger, -Total(lines, SgstPart)))
  }

  lemma RatesMapped(lines: seq<Line>, mappings: map<int, Ledgers>)
    requires AllMapped(lines, mappings)
    ensures forall i :: 0 <= i < |FirstOccurrences(Rates(lines))| ==> FirstOccurrences(Rates(lines))[i] in mappings
    ensures forall i :: 0 <= i < |FirstOccurrences(Rates(lines))| ==>
              exists k :: 0 <= k < |lines| && lines[k].gstRate == FirstOccurrences(Rates(lines))[i]
  {
    FirstOccurrencesOnce(Rates(lines));
    var first := FirstOccurrences(Rates(lines));
    forall i | 0 <= i < |first| ensures first[i] in mappings && exists k :: 0 <= k < |lines| && lines[k].gstRate == first[i] {
      assert first[i] in Rates(lines);
      var k :| 0 <= k < |lines| && Rates(lines)[k] == first[i];
    }
  }

  /** Party, inventory lines, tax by rate, round-off. */
  function Postings(batch: VoucherBatch, settings: Settings, summary: Summary): seq<Posting>
    requires CheckBuild(batch, settings, summary.lines).None?
  {
    var sign, lines := Sign(batch.kind), summary.lines;
    var taxes :=
      if SalesSide(batch.kind) then
        RatesMapped(lines, settings.mappings.value);
        TaxPostings(lines, settings.mappings.value, FirstOccurrences(Rates(lines)), sign)
      else PurchaseTaxPostings(settings, lines);
    [Posting(PartyName(batch), -sign * summary.final)]
    + LinePostings(batch, settings, lines)
    + taxes
    + If(summary.roundOff != 0, Posting(settings.roundOffLedger, sign * summary.roundOff))
  }

  // ---------------------------------------------------------------- building the voucher

  /** What the tax dictionary collected for each rate. */
  ghost predicate TaxCollected(order: seq<int>, cgst: map<int, int>, sgst: map<int, int>, igst: map<int, int>, lines: seq<Line>) {
    && Collected(order, cgst, Rates(lines), Parts(lines, CgstPart))
    && Collected(order, sgst, Rates(lines), Parts(lines, SgstPart))
    && Collected(order, igst, Rates(lines), Parts(lines, IgstPart))
  }

  lemma TaxCollectedSnoc(order: seq<int>, cgst: map<int, int>, sgst: map<int, int>, igst: map<int, int>, lines: seq<Line>, i: nat)
    requires i < |lines| && TaxCollected(order, cgst, sgst, igst, lines[..i])
    ensures var line := lines[i];
            var rate := line.gstRate;
            TaxCollected(if rate in cgst then order else order + [rate],
                         cgst[rate := (if rate in cgst then cgst[rate] else 0) + line.cgst],
                         sgst[rate := (if rate in cgst then sgst[rate] else 0) + line.sgst],
                         igst[rate := (if rate in cgst then igst[rate] else 0) + line.igst], lines[..i + 1])
  {
    var before, line := lines[..i], lines[i];
    RatesSnoc(lines, i);
    PartsSnoc(lines, i, CgstPart);
    PartsSnoc(lines, i, SgstPart);
    PartsSnoc(lines, i, IgstPart);
    assert line.gstRate in cgst <==> line.gstRate in Rates(before);
    assert line.gstRate in sgst <==> line.gstRate in Rates(before);
    assert line.gstRate in igst <==> line.gstRate in Rates(before);
    hide Collected, Rates, Parts;
    CollectedSnoc(order, cgst, Rates(before), Parts(before, CgstPart), line.gstRate, line.cgst);
    CollectedSnoc(order, sgst, Rates(before), Parts(before, SgstPart), line.gstRate, line.sgst);
    CollectedSnoc(order, igst, Rates(before), Parts(before, IgstPart), line.gstRate, line.igst);
  }

  lemma RatesSnoc(lines: seq<Line>, i: nat)
    requires i < |lines|
    ensures Rates(lines[..i + 1]) == Rates(lines[..i]) + [lines[i].gstRate]
  {
  }

  lemma PartsSnoc(lines: seq<Line>, i: nat, part: Part)
    requires i < |lines|
    ensures Parts(lines[..i + 1], part) == Parts(lines[..i], part) + [PartOf(lines[i], part)]
  {
  }

  lemma NoTaxCollected()
    ensures TaxCollected([], map[], map[], map[], [])
  {
    assert Rates([]) == [] && Parts([], CgstPart) == [] && Parts([], SgstPart) == [] && Parts([], IgstPart) == [];
  }

  lemma TaxCollectedAt(order: seq<int>, cgst: map<int, int>, sgst: map<int, int>, igst: map<int, int>, lines: seq<Line>)
    requires TaxCollected(order, cgst, sgst, igst, lines)
    ensures order == FirstOccurrences(Rates(lines))
    ensures forall i | 0 <= i < |order| ::
              && order[i] in cgst && order[i] in sgst && order[i] in igst
              && cgst[order[i]] == TaxAt(lines, CgstPart, order[i])
              && sgst[order[i]] == TaxAt(lines, SgstPart, order[i])
              && igst[order[i]] == TaxAt(lines, IgstPart, order[i])
  {
    FirstOccurrencesOnce(Rates(lines));
    forall i | 0 <= i < |order| ensures order[i] in Rates(lines) {
      assert order[i] in FirstOccurrences(Rates(lines));
    }
  }

  /** The tax dictionary: totals by rate, with the rates in insertion order. */
  method CollectTax(lines: seq<Line>) returns (order: seq<int>, cgst: map<int, int>, sgst: map<int, int>, igst: map<int, int>)
    ensures TaxCollected(order, cgst, sgst, igst, lines)
  {
    hide TaxCollected;
    order := [];
    cgst, sgst, igst := map[], map[], map[];
    NoTaxCollected();
    for i := 0 to |lines|
      invariant TaxCollected(order, cgst, sgst, igst, lines[..i])
      invariant cgst.Keys == sgst.Keys == igst.Keys
    {
      var rate := lines[i].gstRate;
      TaxCollectedSnoc(order, cgst, sgst, igst, lines, i);
      ghost var c, s, g := cgst, sgst, igst;
      if rate !in cgst {
        order := order + [rate];
        cgst, sgst, igst := cgst[rate := 0], sgst[rate := 0], igst[rate := 0];
      }
      cgst := cgst[rate := cgst[rate] + lines[i].cgst];
      sgst := sgst[rate := sgst[rate] + lines[i].sgst];
      igst := igst[rate := igst[rate] + lines[i].igst];
      assert cgst == c[rate := (if rate in c then c[rate] else 0) + lines[i].cgst];
      assert sgst == s[rate := (if rate in c then s[rate] else 0) + lines[i].sgst];
      assert igst == g[rate := (if rate in c then g[rate] else 0) + lines[i].igst];
    }
    assert lines[..|lines|] == lines;
  }

  /** The postings of one rate. */
  method PostRate(lines: seq<Line>, ledgers: Ledgers, rate: int, cgst: int, sgst: int, igst: int, sign: int)
    returns (r: Result<seq<Posting>, BuildError>)
    requires cgst == TaxAt(lines, CgstPart, rate) && sgst == TaxAt(lines, SgstPart, rate) && igst == TaxAt(lines, IgstPart, rate)
    ensures r == if igst > 0 && ledgers.igst == "" then Err(Rejected) else Ok(RatePostings(lines, ledgers, rate, sign))
  {
    hide TaxAt;
    var entries: seq<Posting> := [];
    if cgst > 0 {
      entries := entries + [Posting(ledgers.cgst, sign * cgst)];
    }
    if sgst > 0 {
      entries := entries + [Posting(ledgers.sgst, sign * sgst)];
    }
    if igst > 0 {
      if ledgers.igst == "" {
        return Err(Rejected);
      }
      entries := entries + [Posting(ledgers.igst, sign * igst)];
    }
    assert entries == RatePostings(lines, ledgers, rate, sign);
    return Ok(entries);
  }

  predicate MappedAtAll(lines: seq<Line>, mappings: map<int, Ledgers>, rates: seq<int>) {
    forall k :: 0 <= k < |rates| && rates[k] in mappings && TaxAt(lines, IgstPart, rates[k]) > 0 ==> mappings[rates[k]].igst != ""
  }

  lemma MappedIsIgstMapped(lines: seq<Line>, mappings: map<int, Ledgers>)
    ensures MappedAtAll(lines, mappings, FirstOccurrences(Rates(lines))) <==> IgstMapped(lines, mappings)
  {
    hide TaxAt;
    var first := FirstOccurrences(Rates(lines));
    FirstOccurrencesOnce(Rates(lines));
    forall i | 0 <= i < |lines| ensures lines[i].gstRate in first {
      assert Rates(lines)[i] in first;
    }
    forall k | 0 <= k < |first| ensures exists i :: 0 <= i < |lines| && lines[i].gstRate == first[k] {
      assert first[k] in Rates(lines);
      var i :| 0 <= i < |lines| && Rates(lines)[i] == first[k];
    }
  }

  /** Collects the tax of the lines by rate and posts it; fails for a rate with IGST but no IGST ledger. */
  method PostTaxByRate(lines: seq<Line>, mappings: map<int, Ledgers>, sign: int) returns (r: Result<seq<Posting>, BuildError>)
    requires AllMapped(lines, mappings)
    requires forall i :: 0 <= i < |FirstOccurrences(Rates(lines))| ==> FirstOccurrences(Rates(lines))[i] in mappings
    ensures r == if IgstMapped(lines, mappings) then Ok(TaxPostings(lines, mappings, FirstOccurrences(Rates(lines)), sign))
                 else Err(Rejected)
  {
    hide TaxCollected, TaxAt, IgstMapped, RatePostings;
    var order, cgst, sgst, igst := CollectTax(lines);
    TaxCollectedAt(order, cgst, sgst, igst, lines);
    MappedIsIgstMapped(lines, mappings);
    var entries: seq<Posting> := [];
    for i := 0 to |order|
      invariant entries == TaxPostings(lines, mappings, order[..i], sign)
      invariant MappedAtAll(lines, mappings, order[..i])
    {
      var rate := order[i];
      assert order[..i + 1][..i] == order[..i];
      var posted := PostRate(lines, mappings[rate], rate, cgst[rate], sgst[rate], igst[rate], sign);
      if posted.Err? {
        return posted;
      }
      entries := entries + posted.value;
    }
    assert order[..|order|] == order;
    return Ok(entries);
  }

  method PostLines(batch: VoucherBatch, settings: Settings, lines: seq<Line>) returns (entries: seq<Posting>)
    requires SettingsComplete(settings) && (SalesSide(batch.kind) ==> AllMapped(lines, settings.mappings.value))
    ensures entries == LinePostings(batch, settings, lines)
  {
    var credit := batch.kind.Sale?;
    entries := [];
    for i := 0 to |lines|
      invariant entries == LinePostings(batch, settings, lines)[..i]
    {
      var ledger := if SalesSide(batch.kind) then settings.mappings.value[lines[i].gstRate].sales else settings.purchaseLedger;
      entries := entries + [Posting(ledger, if credit then lines[i].taxable else -lines[i].taxable)];
    }
  }

  method PostPurchaseTax(settings: Settings, lines: seq<Line>, cgst: int, sgst: int) returns (entries: seq<Posting>)
    requires cgst == Total(lines, CgstPart) && sgst == Total(lines, SgstPart)
    ensures entries == PurchaseTaxPostings(settings, lines)
  {
    hide Total;
    entries := [];
    if cgst > 0 {
      entries := entries + [Posting(settings.cgstLedger, -cgst)];
    }
    if sgst > 0 {
      entries := entries + [Posting(settings.sgstLedger, -sgst)];
    }
  }

  method BuildVoucher(batch: VoucherBatch, products: Products, settings: Settings) returns (r: Result<seq<Posting>, BuildError>)
    requires KnownProducts(products, batch.items)
    ensures var lines := Lines(batch, products);
            var problem := CheckBuild(batch, settings, lines);
            && (problem.Some? ==> r == Err(problem.value))
            && (problem.None? ==> exists summary :: SummaryOf(summary, lines) && r == Ok(Postings(batch, settings, summary)))
  {
    hide Lines, Total, IgstMapped, TaxPostings, LinePostings, PurchaseTaxPostings, SummaryOf;
    if settings.companyName == "" || settings.roundOffLedger == "" || settings.mappings.None? {
      return Err(Rejected);
    }
    var mappings := settings.mappings.value;
    if !PostsToTally(batch.kind) || PartyName(batch) == "" {
      return Err(Rejected);
    }
    var summary := CalculateVoucherSummary(batch, products);
    var lines := summary.lines;
    SummaryFacts(summary, Lines(batch, products));
    if SalesSide(batch.kind) {
      if !AllValid(lines) {
        return Err(Crashed);
      }
      if !AllMapped(lines, mappings) {
        return Err(Rejected);
      }
    } else if settings.purchaseLedger == "" || (summary.cgst > 0 && settings.cgstLedger == "")
              || (summary.sgst > 0 && settings.sgstLedger == "") {
      return Err(Rejected);
    }
    var credit := batch.kind.Sale?;
    var entries := [Posting(PartyName(batch), if credit then -summary.final else summary.final)];
    var posted := PostLines(batch, settings, lines);
    entries := entries + posted;
    if SalesSide(batch.kind) {
      RatesMapped(lines, mappings);
      var taxes := PostTaxByRate(lines, mappings, if credit then 1 else -1);
      if taxes.Err? {
        return taxes;
      }
      entries := entries + taxes.value;
    } else {
      var taxes := PostPurchaseTax(settings, lines, summary.cgst, summary.sgst);
      entries := entries + taxes;
    }
    if summary.roundOff != 0 {
      entries := entries + [Posting(settings.roundOffLedger, if credit then summary.roundOff else -summary.roundOff)];
    }
    assert entries == Postings(batch, settings, summary);
    return Ok(entries);
  }

  lemma SummaryFacts(summary: Summary, lines: seq<Line>)
    requires SummaryOf(summary, lines)
    ensures summary.lines == lines && summary.cgst == Total(lines, CgstPart) && summary.sgst == Total(lines, SgstPart)
  {
  }
}
