/** What node requests and the administrator's decisions do as a whole (app/routers/node_api.py, app/routers/receipts.py). */
module RequestOutcomes {
  import opened Records
  import opened NetworkDb
  import opened NetworkIngest
  import opened TallyProducts
  import opened QrAllocation
  import opened QrReplacementIntent
  import opened MasterSystem
  import opened Frames
  import EventOutcomes
  import TransferOutcomes
  import SnapshotOutcomes
  import Refusals

  // ---------------------------------------------------------------- one request of a node

  function AllItems(events: seq<Event>): seq<Item> {
    if events == [] then [] else events[0].items + AllItems(events[1..])
  }

  lemma {:induction false} ItemsCounted(events: seq<Event>)
    ensures ItemCount(events) == |AllItems(events)|
  {
    if events != [] {
      ItemsCounted(events[1..]);
    }
  }

  /** The events go through one after the other, each from the state that the one before left. */
  ghost predicate AllIngested(db: Db, n: NodeCode, now: int, events: seq<Event>, acks: seq<Acknowledgement>, last: Db)
    requires n in db.nodes && forall k :: 0 <= k < |events| ==> WellShaped(events[k])
    decreases |events|
  {
    if events == [] then acks == [] && last == db
    else
      && acks != [] && IngestEvent(db, n, now, events[0]).Ok? && IngestEvent(db, n, now, events[0]).value.1 == acks[0]
      && AllIngested(IngestEvent(db, n, now, events[0]).value.0, n, now, events[1..], acks[1..], last)
  }

  lemma {:induction false} IngestedExactly(db: Db, n: NodeCode, now: int, events: seq<Event>)
    requires n in db.nodes && forall k :: 0 <= k < |events| ==> WellShaped(events[k])
    ensures forall acks, last :: AllIngested(db, n, now, events, acks, last) <==> IngestEvents(db, n, now, events) == Ok((last, acks))
    decreases |events|
  {
    hide IngestEvent;
    if events != [] && IngestEvent(db, n, now, events[0]).Ok? {
      var (next, ack) := IngestEvent(db, n, now, events[0]).value;
      IngestedExactly(next, n, now, events[1..]);
      forall acks, last ensures AllIngested(db, n, now, events, acks, last) <==> IngestEvents(db, n, now, events) == Ok((last, acks)) {
        if acks != [] {
          assert [acks[0]] + acks[1..] == acks;
        }
      }
    }
  }

  /**
   A request with too many items in all, or of an inactive node, changes nothing; any other is accepted exactly when
   each of its events is, in turn, and then answers with their acknowledgements and the node's last sequence.
   */
  lemma RequestOutcome(db: Db, n: NodeCode, now: int, limit: nat, events: seq<Event>)
    requires n in db.nodes && forall k :: 0 <= k < |events| ==> WellShaped(events[k])
    ensures var (next, response) := PostEvents(db, n, now, limit, events);
            && (|AllItems(events)| > limit ==> response == Refused(TooManyItems))
            && (|AllItems(events)| <= limit && !db.nodes[n].active ==> response == Refused(NodeInactive))
            && (response.Refused? ==> next == db)
            && (response.Accepted? <==> |AllItems(events)| <= limit && db.nodes[n].active
                                        && exists acks, last :: AllIngested(db, n, now, events, acks, last))
            && (response.Accepted? ==>
                  && n in next.nodes && response.lastSequence == next.nodes[n].lastSequence
                  && AllIngested(db, n, now, events, response.acknowledgements, next))
  {
    ItemsCounted(events);
    IngestedExactly(db, n, now, events);
    hide IngestEvents, AllIngested, ItemCount, AllItems;
    var outcome := IngestEvents(db, n, now, events);
    if outcome.Ok? {
      assert AllIngested(db, n, now, events, outcome.value.1, outcome.value.0);
    } else {
      assert forall acks, last :: !AllIngested(db, n, now, events, acks, last);
    }
  }

  // ---------------------------------------------------------------- decisions of an administrator

  /**
   A receipt that awaits review is decided once, with remarks when it is denied, and its Lite is told the decision and
   the remarks of a denial; anything else changes nothing.
   */
  lemma ReviewOutcome(db: Db, n: NodeCode, receipt: Uuid, decision: ReceiptStatus, remarks: string)
    ensures var next := Step(db, ReviewReceipt(n, receipt, decision, remarks));
            if (n, receipt) in db.receipts && db.receipts[(n, receipt)] == AwaitingReview && |remarks| <= 1000
               && (decision == Approved || (decision == Denied && remarks != ""))
            then next == db.(receipts := db.receipts[(n, receipt) := decision],
                             commands := db.commands
                                         + [Command(n, ReceiptReviewed(receipt, decision, if decision == Denied then remarks else ""),
                                                    false)])
            else next == db
  {
  }

  /** A decision is final: no later action changes it. */
  lemma {:induction false} DecidedForGood(db: Db, actions: seq<Action>, k: (NodeCode, Uuid))
    requires k in db.receipts && db.receipts[k] != AwaitingReview
    ensures k in Run(db, actions).receipts && Run(db, actions).receipts[k] == db.receipts[k]
    decreases |actions|
  {
    hide Step;
    if actions != [] {
      DecidedForGood(db, actions[..|actions| - 1], k);
      DecisionKept(Run(db, actions[..|actions| - 1]), actions[|actions| - 1], k);
    }
  }

  ghost predicate DecisionsKept(db: Db, next: Db) {
    forall k | k in db.receipts && db.receipts[k] != AwaitingReview :: k in next.receipts && next.receipts[k] == db.receipts[k]
  }

  lemma EventKeepsDecisions(db: Db, n: NodeCode, e: Event)
    requires n in db.nodes && WellShaped(e) && ApplyEvent(db, n, e).Ok?
    ensures DecisionsKept(db, ApplyEvent(db, n, e).value.0)
  {
    if e.kind.ReceiptSubmitted? {
      Refusals.SubmissionOutcome(db, n, e);
      hide ApplyEvent;
    } else {
      hide ApplyEvent;
      ReceiptsLeft(db, n, e);
    }
  }

  lemma ReceiptsLeft(db: Db, n: NodeCode, e: Event)
    requires n in db.nodes && WellShaped(e) && !e.kind.ReceiptSubmitted? && ApplyEvent(db, n, e).Ok?
    ensures ApplyEvent(db, n, e).value.0.receipts == db.receipts
  {
    hide ApplyEvent, InRange, DistinctSerials;
    match e.kind {
      case Heartbeat => HeartbeatKeeps(db, n, e);
      case TransferDispatched => TransferOutcomes.DispatchOutcome(db, n, e);
      case TransferReceived => TransferOutcomes.ReceiptOutcome(db, n, e);
      case StockSnapshot =>
        if e.reason == QrReplacement {
          SnapshotOutcomes.ReplacementOutcome(db, n, e);
        } else {
          SnapshotOutcomes.SnapshotOutcome(db, n, e);
        }
      case _ => EventOutcomes.InventoryOutcome(db, n, e);
    }
  }

  lemma HeartbeatKeeps(db: Db, n: NodeCode, e: Event)
    requires n in db.nodes && WellShaped(e) && e.kind.Heartbeat?
    ensures ApplyEvent(db, n, e) == Ok((db, HeartbeatResult))
  {
  }

  lemma {:induction false} IngestKeepsDecisions(db: Db, n: NodeCode, now: int, events: seq<Event>)
    requires n in db.nodes && (forall k :: 0 <= k < |events| ==> WellShaped(events[k])) && IngestEvents(db, n, now, events).Ok?
    ensures DecisionsKept(db, IngestEvents(db, n, now, events).value.0)
    decreases |events|
  {
    hide ApplyEvent, WellShaped, SequenceUsed;
    if events != [] {
      var next := IngestEvent(db, n, now, events[0]).value.0;
      if events[0].id !in db.journal {
        EventKeepsDecisions(db, n, events[0]);
      }
      IngestKeepsDecisions(next, n, now, events[1..]);
    }
  }

  lemma DecisionKept(db: Db, a: Action, k: (NodeCode, Uuid))
    requires k in db.receipts && db.receipts[k] != AwaitingReview
    ensures k in Step(db, a).receipts && Step(db, a).receipts[k] == db.receipts[k]
  {
    if a.Post? {
      if Admissible(db, a) {
        PostKeepsDecisions(db, a.node, a.now, a.limit, a.events);
      }
      hide PostEvents, Appends;
    } else {
      hide Step;
      if a.ReviewReceipt? {
        ReviewOutcome(db, a.node, a.receipt, a.decision, a.remarks);
      } else {
        PerformKeepsReceipts(db, a);
      }
    }
  }

  lemma PostKeepsDecisions(db: Db, n: NodeCode, now: int, limit: nat, events: seq<Event>)
    requires n in db.nodes && forall k :: 0 <= k < |events| ==> WellShaped(events[k])
    ensures DecisionsKept(db, PostEvents(db, n, now, limit, events).0)
  {
    hide IngestEvents, WellShaped;
    if IngestEvents(db, n, now, events).Ok? {
      IngestKeepsDecisions(db, n, now, events);
    }
  }

  lemma PerformKeepsReceipts(db: Db, a: Action)
    requires !a.Post? && !a.ReviewReceipt?
    ensures Step(db, a).receipts == db.receipts
  {
    hide PostEvents, Allocate, RequestReplacement, SyncProducts, LinkedCodes, WithProduct, Queued, Acknowledge, Linked, Reviewed,
      ValidGst, Appends;
    if Admissible(db, a) {
      match a {
        case AllocateQr(request, id, codes) =>
          if Allocate(db, request, id, codes).Ok? {
            AllocateFrame(db, request, id, codes);
          }
        case ReserveQr(n, serial, candidates) =>
          if RequestReplacement(db, n, serial, candidates).Ok? {
            ReserveFrame(db, n, serial, candidates);
          }
        case AcknowledgeCommand(n, index) => AcknowledgeFrame(db, n, index);
        case LiveSync(items, now) => SyncProductsFrame(db, items, now, LinkedCodes(db, db.productOrder));
        case AddProduct(code, product) => WithProductFrame(db, code, product);
        case ImportProduct(code, product) => ImportFrame(db, code, product);
        case _ =>
      }
    }
  }

  /** A product imported from Tally is listed last, and its franchise is sent the record. */
  lemma ImportOutcome(db: Db, code: ProductCode, product: Product)
    requires Admissible(db, ImportProduct(code, product))
    ensures Step(db, ImportProduct(code, product))
            == db.(products := db.products[code := product], productOrder := db.productOrder + [code],
                   commands := db.commands + [Command(code.franchise, ProductUpsert(code, product), false)])
  {
  }

  /** Linking a product gives it the item's GUID and the time of the link, where it has none, and changes nothing else. */
  lemma LinkOutcome(db: Db, code: ProductCode, item: TallyItem, now: int)
    requires code in db.products
    ensures var was, next := db.products[code], Step(db, LinkProduct(code, item, now));
            && next == db.(products := next.products) && code in next.products
            && next.products == db.products[code := next.products[code]]
            && next.products[code] == Product(was.identity, was.defaultRate, was.discountRate,
                                              if was.tallyGuid == "" then item.guid else was.tallyGuid,
                                              Some(match was.tallySyncedAt case Some(t) => t case None => now), was.active)
  {
  }
}
