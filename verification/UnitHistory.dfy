/** The status of a unit over whole runs: which events move it, and the statuses from which none ever does. */
module UnitHistory {
  import opened Records
  import opened NetworkDb
  import opened NetworkIngest
  import opened QrAllocation
  import opened QrReplacementIntent
  import opened TallyProducts
  import opened StockInvariants
  import opened LedgerInvariants
  import opened MasterSystem
  import opened SystemSteps
  import opened Frames
  import opened ExactlyOnce
  import opened EventOutcomes
  import opened TransferOutcomes
  import opened SnapshotOutcomes

  // ---------------------------------------------------------------- one effect

  ghost predicate SameStockRow(db: Db, next: Db, s: SerialNumber) {
    s in db.stock && s in next.stock && next.stock[s] == db.stock[s]
  }

  /** What an event that lists a known unit may make of its status. */
  ghost predicate Moves(e: Event, from: Status, to: Status) {
    match e.kind
    case TransferDispatched => (from == InStock || from == Returned) && to == InTransit
    case TransferReceived => from == InTransit && (to == InStock || to == Returned)
    case StockSnapshot =>
      if e.reason == QrReplacement then from in {Generated, InStock, Returned, Damaged} && to == Invalid else to == from
    case Heartbeat => false
    case ReceiptSubmitted => false
    case _ => Takes(e.kind, e.reason, from, to)
  }

  /** An event that lists the unit moves it as the automaton says; any other event leaves its stock row alone. */
  ghost predicate Followed(db: Db, next: Db, e: Event, s: SerialNumber) {
    && s in db.stock && s in next.stock
    && (if Listed(e.items, s) then Moves(e, db.stock[s].status, next.stock[s].status) else next.stock[s] == db.stock[s])
  }

  lemma ListedOrNot(items: seq<Item>, s: SerialNumber)
    ensures Listed(items, s) <==> !Unlisted(items, s)
  {
  }

  lemma InventoryFollows(db: Db, n: NodeCode, e: Event, s: SerialNumber)
    requires n in db.nodes && WellShaped(e) && IsInventory(e.kind) && ApplyEvent(db, n, e).Ok? && s in db.stock
    ensures Followed(db, ApplyEvent(db, n, e).value.0, e, s)
  {
    InventoryOutcome(db, n, e);
    ListedOrNot(e.items, s);
    var next := ApplyEvent(db, n, e).value.0;
    hide ApplyEvent, WellShaped, Listed, Takes, Reported, OtherItemsSame;
    if Unlisted(e.items, s) {
      UnlistedSame(db, next, e.items, s);
    } else {
      var k :| 0 <= k < |e.items| && e.items[k].serial == s;
      assert BookedItem(db, next, n, e, e.items[k]);
    }
  }

  lemma DispatchFollows(db: Db, n: NodeCode, e: Event, s: SerialNumber)
    requires n in db.nodes && WellShaped(e) && e.kind.TransferDispatched? && ApplyEvent(db, n, e).Ok? && s in db.stock
    ensures Followed(db, ApplyEvent(db, n, e).value.0, e, s)
  {
    DispatchOutcome(db, n, e);
    DispatchAccepted(db, n, e);
    ListedOrNot(e.items, s);
    var next := ApplyEvent(db, n, e).value.0;
    hide ApplyEvent, WellShaped, Listed, OtherUnitsSame, Opens;
    if Unlisted(e.items, s) {
      UnlistedSame(db, next, e.items, s);
    } else {
      var k :| 0 <= k < |e.items| && e.items[k].serial == s;
      assert Sendable(db, n, e.items[k].serial) && Loaded(db, next, Transferred(e), e.id, e.items[k].serial);
    }
  }

  lemma ReceiptFollows(db: Db, n: NodeCode, e: Event, s: SerialNumber)
    requires n in db.nodes && WellShaped(e) && e.kind.TransferReceived? && ApplyEvent(db, n, e).Ok? && s in db.stock
    ensures Followed(db, ApplyEvent(db, n, e).value.0, e, s)
  {
    ReceiptOutcome(db, n, e);
    ReceiptAccepted(db, n, e);
    ListedOrNot(e.items, s);
    var next, t := ApplyEvent(db, n, e).value.0, e.transferId.value;
    hide ApplyEvent, WellShaped, Listed, OtherUnitsSame, Reported, AllIn;
    if Unlisted(e.items, s) {
      UnlistedSame(db, next, e.items, s);
    } else {
      var k :| 0 <= k < |e.items| && e.items[k].serial == s;
      assert Receivable(db, t, e.items[k].serial) && Landed(db, next, n, t, e.id, e.items[k]);
    }
  }

  lemma SnapshotFollows(db: Db, n: NodeCode, e: Event, s: SerialNumber)
    requires n in db.nodes && WellShaped(e) && e.kind.StockSnapshot? && e.reason != QrReplacement && ApplyEvent(db, n, e).Ok?
    requires Tracked(db, s)
    ensures Followed(db, ApplyEvent(db, n, e).value.0, e, s)
  {
    SnapshotOutcome(db, n, e);
    ListedOrNot(e.items, s);
    var next := ApplyEvent(db, n, e).value.0;
    hide ApplyEvent, WellShaped, Listed, Enrolled, Reported, Grows, ProductsFrom, InWindow;
    if Unlisted(e.items, s) {
      UnlistedSame(db, next, e.items, s);
    } else {
      var k :| 0 <= k < |e.items| && e.items[k].serial == s;
      assert Snapped(db, next, n, e.id, e.items[k]);
    }
  }

  lemma ReplacementFollows(db: Db, n: NodeCode, e: Event, s: SerialNumber)
    requires n in db.nodes && WellShaped(e) && e.kind.StockSnapshot? && e.reason == QrReplacement && ApplyEvent(db, n, e).Ok?
    requires Keys(db) && s in db.stock
    ensures Followed(db, ApplyEvent(db, n, e).value.0, e, s)
  {
    ReplacementOutcome(db, n, e);
    var (next, result) := ApplyEvent(db, n, e).value;
    hide ApplyEvent, WellShaped;
    var prior, incoming :|
      && (e.items == [prior, incoming] || e.items == [incoming, prior])
      && Exchangeable(db, n, e, prior, incoming) && Exchanged(db, next, n, e.id, prior, incoming.serial)
      && result == ReplacementResult(prior.serial, incoming.serial, Successor(db.stock[prior.serial].status));
    ExchangeFollows(db, next, n, e, prior, incoming, s);
  }

  lemma ExchangeFollows(db: Db, next: Db, n: NodeCode, e: Event, prior: Item, incoming: Item, s: SerialNumber)
    requires e.kind.StockSnapshot? && e.reason == QrReplacement && Keys(db) && s in db.stock
    requires e.items == [prior, incoming] || e.items == [incoming, prior]
    requires Exchangeable(db, n, e, prior, incoming) && Exchanged(db, next, n, e.id, prior, incoming.serial)
    ensures Followed(db, next, e, s)
  {
    hide IdentityAccepted, Reported, Reserved;
    assert s in db.serials && s != incoming.serial;
    if s == prior.serial {
      assert e.items[0].serial == s || e.items[1].serial == s;
    } else {
      assert forall k :: 0 <= k < |e.items| ==> e.items[k] == prior || e.items[k] == incoming;
    }
  }

  /** Every accepted event follows the automaton, for every unit that Master has. */
  lemma EventFollows(db: Db, n: NodeCode, e: Event, s: SerialNumber)
    requires Keys(db) && n in db.nodes && WellShaped(e) && ApplyEvent(db, n, e).Ok? && s in db.stock
    ensures Followed(db, ApplyEvent(db, n, e).value.0, e, s)
  {
    hide ApplyEvent, Followed, InRange, DistinctSerials, Keys;
    match e.kind {
      case Heartbeat => QuietFollows(db, n, e, s);
      case ReceiptSubmitted => QuietFollows(db, n, e, s);
      case TransferDispatched => DispatchFollows(db, n, e, s);
      case TransferReceived => ReceiptFollows(db, n, e, s);
      case StockSnapshot =>
        if e.reason == QrReplacement {
          ReplacementFollows(db, n, e, s);
        } else {
          assert Tracked(db, s) by { KeysTrack(db, s); }
          SnapshotFollows(db, n, e, s);
        }
      case _ => InventoryFollows(db, n, e, s);
    }
  }

  lemma KeysTrack(db: Db, s: SerialNumber)
    requires Keys(db) && s in db.stock
    ensures Tracked(db, s)
  {
  }

  lemma QuietFollows(db: Db, n: NodeCode, e: Event, s: SerialNumber)
    requires n in db.nodes && WellShaped(e) && (e.kind.Heartbeat? || e.kind.ReceiptSubmitted?) && ApplyEvent(db, n, e).Ok?
    requires s in db.stock
    ensures Followed(db, ApplyEvent(db, n, e).value.0, e, s)
  {
  }

  lemma AllocateKeepsRow(db: Db, request: AllocationRequest, id: Uuid, codes: seq<SerialNumber>, s: SerialNumber)
    requires Inv(db) && |codes| == request.quantity && Allocate(db, request, id, codes).Ok? && s in db.stock
    ensures SameStockRow(db, Allocate(db, request, id, codes).value.0, s)
  {
    hide Inv, CheckAllocation, AllocateParts, AllocatedSerials;
    if id !in db.allocations {
      NewAllocationKeeps(db, request, id, codes);
      KeysOf(db);
    }
  }

  /** No administrator action touches the stock row of a unit that Master has. */
  lemma PerformKeepsRow(db: Db, a: Action, s: SerialNumber)
    requires Inv(db) && !a.Post? && s in db.stock
    ensures SameStockRow(db, Step(db, a), s)
  {
    hide Inv, Allocate, RequestReplacement, SyncProducts, LinkedCodes, WithProduct, Queued, Acknowledge, Linked, Reviewed, ValidGst, Appends;
    if Admissible(db, a) {
      match a {
        case AllocateQr(request, id, codes) =>
          if Allocate(db, request, id, codes).Ok? {
            AllocateKeepsRow(db, request, id, codes, s);
          }
        case ReserveQr(n, serial, candidates) =>
          if RequestReplacement(db, n, serial, candidates).Ok? {
            ReserveFrame(db, n, serial, candidates);
          }
        case AcknowledgeCommand(n, index) => AcknowledgeFrame(db, n, index);
        case LiveSync(items, now) => SyncProductsFrame(db, items, now, LinkedCodes(db, db.productOrder));
        case AddProduct(code, product) => WithProductFrame(db, code, product);
        case ImportProduct(code, product) => ImportFrame(db, code, product);
        case ReviewReceipt(n, receipt, decision, remarks) => ReviewedFrame(db, n, receipt, decision, remarks);
        case _ =>
      }
    }
  }

  /** What takes effect on a unit in one accepted event or one administrator action. */
  lemma EffectFollows(db: Db, f: Effect, s: SerialNumber)
    requires Inv(db) && Enabled(db, f) && s in db.stock
    ensures var next := Take(db, f);
            && Inv(next)
            && (f.Accept? ==> Followed(db, next, f.event, s))
            && (f.Perform? ==> SameStockRow(db, next, s))
  {
    match f {
      case Accept(n, now, e) =>
        hide Inv, ApplyEvent, Moves, InRange, DistinctSerials;
        AcceptKeeps(db, n, now, e);
        assert Keys(db) by { KeysOf(db); }
        hide Keys;
        EventFollows(db, n, e, s);
      case Perform(a) =>
        hide Inv, Step;
        StepKeeps(db, a);
        PerformKeepsRow(db, a, s);
    }
  }

  lemma KeysOf(db: Db)
    requires Inv(db)
    ensures Keys(db)
  {
  }

  // ---------------------------------------------------------------- whole runs

  /** Damaged, issued and replaced units are withdrawn from trade. */
  predicate Withdrawn(status: Status) {
    status.Damaged? || status.Issued? || status.Invalid?
  }

  ghost predicate OnlyLooks(f: Effect, s: SerialNumber) {
    f.Accept? && Listed(f.event.items, s) ==> f.event.kind.Audit? || f.event.kind.StockSnapshot?
  }

  lemma WithdrawnStep(db: Db, f: Effect, s: SerialNumber)
    requires Inv(db) && Enabled(db, f) && s in db.stock && Withdrawn(db.stock[s].status)
    ensures var next := Take(db, f);
            && Inv(next) && OnlyLooks(f, s) && s in next.stock
            && (next.stock[s].status == db.stock[s].status || (db.stock[s].status == Damaged && next.stock[s].status == Invalid))
  {
    EffectFollows(db, f, s);
    hide Inv, Enabled, Take, Listed, Moves;
    if f.Accept? && Listed(f.event.items, s) {
      MovesWithdrawn(f.event, db.stock[s].status, Take(db, f).stock[s].status);
    }
  }

  lemma MovesWithdrawn(e: Event, from: Status, to: Status)
    requires Moves(e, from, to) && Withdrawn(from)
    ensures (e.kind.Audit? || e.kind.StockSnapshot?) && (to == from || (from == Damaged && to == Invalid))
  {
  }

  /**
   Once withdrawn, always withdrawn: whatever takes effect later, the unit keeps its status, or is damaged and its
   QR is replaced, and every later event that lists it is an audit or a snapshot.
   */
  lemma {:induction false} WithdrawnForGood(db: Db, effects: seq<Effect>, last: Db, s: SerialNumber)
    requires Inv(db) && Leads(db, effects, last) && s in db.stock && Withdrawn(db.stock[s].status)
    ensures forall i :: 0 <= i < |effects| ==> OnlyLooks(effects[i], s)
    ensures s in last.stock
    ensures last.stock[s].status == db.stock[s].status || (db.stock[s].status == Damaged && last.stock[s].status == Invalid)
    decreases |effects|
  {
    hide Inv, Enabled, Take, OnlyLooks;
    if effects != [] {
      assert Enabled(db, effects[0]);
      WithdrawnStep(db, effects[0], s);
      WithdrawnForGood(Take(db, effects[0]), effects[1..], last, s);
      forall i | 0 <= i < |effects| ensures OnlyLooks(effects[i], s) {
        if i > 0 {
          assert effects[1..][i - 1] == effects[i];
        }
      }
    }
  }

  /** A customer's return of damaged or expired goods. */
  ghost predicate ReturnsDamaged(f: Effect, s: SerialNumber) {
    && f.Accept? && f.event.kind.SalesReturn? && Listed(f.event.items, s)
    && (f.event.reason.DamagedGoods? || f.event.reason.ExpiredGoods?)
  }

  /** Such a return leaves the unit DAMAGED. */
  lemma ReturnDamages(db: Db, f: Effect, s: SerialNumber)
    requires Inv(db) && Enabled(db, f) && ReturnsDamaged(f, s)
    ensures Inv(Take(db, f)) && s in Take(db, f).stock && Take(db, f).stock[s].status == Damaged
  {
    hide Inv, Moves, Listed;
    AcceptedKnown(db, f.node, f.event, s);
    EffectFollows(db, f, s);
    hide Enabled, Take;
    MovesDamaged(f.event, db.stock[s].status, Take(db, f).stock[s].status);
  }

  lemma MovesDamaged(e: Event, from: Status, to: Status)
    requires Moves(e, from, to) && e.kind.SalesReturn? && (e.reason.DamagedGoods? || e.reason.ExpiredGoods?)
    ensures to == Damaged
  {
  }

  /** An accepted inventory event lists only units that Master has. */
  lemma AcceptedKnown(db: Db, n: NodeCode, e: Event, s: SerialNumber)
    requires n in db.nodes && WellShaped(e) && IsInventory(e.kind) && ApplyEvent(db, n, e).Ok? && Listed(e.items, s)
    ensures s in db.stock
  {
    InventoryAccepted(db, n, e);
    hide ApplyEvent, WellShaped, IdentityAccepted, TakenFrom;
    var k :| 0 <= k < |e.items| && e.items[k].serial == s;
    assert Bookable(db, n, e, e.items[k]);
  }

  lemma {:induction false} DamagedFrom(db: Db, effects: seq<Effect>, last: Db, i: nat, s: SerialNumber)
    requires Inv(db) && Leads(db, effects, last) && i < |effects| && ReturnsDamaged(effects[i], s)
    ensures forall j :: i < j < |effects| ==> OnlyLooks(effects[j], s)
    ensures s in last.stock && (last.stock[s].status == Damaged || last.stock[s].status == Invalid)
    decreases i
  {
    hide Inv, Enabled, Take, OnlyLooks, ReturnsDamaged;
    var next := Take(db, effects[0]);
    assert Leads(next, effects[1..], last);
    if i == 0 {
      ReturnDamages(db, effects[0], s);
      WithdrawnForGood(next, effects[1..], last, s);
    } else {
      EffectKeeps(db, effects[0]);
      assert effects[1..][i - 1] == effects[i];
      DamagedFrom(next, effects[1..], last, i - 1, s);
    }
    forall j | i < j < |effects| ensures OnlyLooks(effects[j], s) {
      assert effects[1..][j - 1] == effects[j];
    }
  }

  lemma EffectKeeps(db: Db, f: Effect)
    requires Inv(db) && Enabled(db, f)
    ensures Inv(Take(db, f))
  {
    hide Inv, ApplyEvent, Step;
    match f {
      case Accept(n, now, e) => AcceptKeeps(db, n, now, e);
      case Perform(a) => StepKeeps(db, a);
    }
  }

  /**
   In every run of Master, a unit that was returned as damaged or expired is never again sold, returned, issued,
   dispatched or received: every later event that lists it is an audit or a snapshot, and in the end it is DAMAGED
   or its QR was replaced.
   */
  lemma DamagedForGood(actions: seq<Action>, i: nat, s: SerialNumber)
    requires i < |AllEffects(EMPTY_DB, actions)| && ReturnsDamaged(AllEffects(EMPTY_DB, actions)[i], s)
    ensures var effects, db := AllEffects(EMPTY_DB, actions), Run(EMPTY_DB, actions);
            && (forall j :: i < j < |effects| ==> OnlyLooks(effects[j], s))
            && s in db.stock
            && (db.stock[s].status == Damaged
                || (db.stock[s].status == Invalid && s in db.serials && db.serials[s].replacedBy.Some?))
  {
    hide Inv, AllEffects, Run, OnlyLooks, ReturnsDamaged, Leads;
    EmptyInv();
    FoldOfAccepted(EMPTY_DB, actions);
    DamagedFrom(EMPTY_DB, AllEffects(EMPTY_DB, actions), Run(EMPTY_DB, actions), i, s);
    RunKeeps(actions);
    InvalidReplaced(Run(EMPTY_DB, actions), s);
  }

  lemma InvalidReplaced(db: Db, s: SerialNumber)
    requires Inv(db) && s in db.stock
    ensures db.stock[s].status == Invalid ==> s in db.serials && db.serials[s].replacedBy.Some?
  {
    assert Keys(db) && Rows(db);
  }
}
