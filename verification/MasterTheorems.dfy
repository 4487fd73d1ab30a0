/** The main results about every state that Setuora Master can reach. */
module MasterTheorems {
  import opened Records
  import opened NetworkDb
  import opened NetworkIngest
  import opened QrAllocation
  import opened StockInvariants
  import opened StockSteps
  import opened EventInvariants
  import opened LedgerInvariants
  import opened MasterSystem
  import opened SystemSteps

  // ---------------------------------------------------------------- stock

  /** Stock on hand equals enrolled + purchased + sales returns + in - sold - supplier returns - issued - out. */
  lemma StockFlow(actions: seq<Action>, n: NodeCode, p: ProductCode)
    ensures BalancedFor(Run(EMPTY_DB, actions), n, p)
  {
    RunKeeps(actions);
    hide Keys, Rows, Chains, Transit, BalancedFor, Run;
  }

  /** In transit means: on exactly one open manifest unit, of a transfer from the current owner; both rows agree. */
  lemma InTransitExactly(actions: seq<Action>, s: SerialNumber)
    requires s in Run(EMPTY_DB, actions).stock
    ensures var db := Run(EMPTY_DB, actions);
            && s in db.serials && db.serials[s].status == db.stock[s].status
            && (db.stock[s].status.InTransit? <==> exists t :: Open(db, (t, s)))
            && (forall t, u | Open(db, (t, s)) && Open(db, (u, s)) :: t == u)
            && (forall t | Open(db, (t, s)) :: t in db.transfers && db.transfers[t].source == db.stock[s].owner)
  {
    RunKeeps(actions);
    var db := Run(EMPTY_DB, actions);
    hide Chains, Balanced, Run, Ledger, Journal, Vouchers, Catalogue, Allocations;
    assert s in db.serials;
    hide Keys;
    forall t, u | Open(db, (t, s)) && Open(db, (u, s)) ensures t == u {
      assert (t, s).1 == (u, s).1;
    }
  }

  /** No event sent to a reachable state meets untracked, orphaned or misplaced stock, nor a stale sequence. */
  lemma DeadBranches(actions: seq<Action>, n: NodeCode, now: int, e: Event)
    requires n in Run(EMPTY_DB, actions).nodes && WellShaped(e) && e.id !in Run(EMPTY_DB, actions).journal
    ensures var db := Run(EMPTY_DB, actions);
            var r := ApplyEvent(db, n, e);
            && (r.Err? ==> !Corruption(r.error))
            && (e.sequence <= db.nodes[n].lastSequence ==> AcceptEvent(db, n, now, e) == Err(SequenceConflict))
  {
    RunKeeps(actions);
    var db := Run(EMPTY_DB, actions);
    hide StockInv, Ledger, Journal, Vouchers, Catalogue, Allocations, Run, ApplyEvent, Corruption;
    FreshBatch(db, e.id);
    NoCorruption(db, n, e);
    if e.sequence <= db.nodes[n].lastSequence {
      NeverStale(db, n, now, e);
    }
  }

  // ---------------------------------------------------------------- sequences

  /** The accepted sequence numbers of a node are exactly 1 to its last one, each used by one event. */
  lemma SequencesExact(actions: seq<Action>, n: NodeCode, q: nat)
    requires n in Run(EMPTY_DB, actions).nodes
    ensures var db := Run(EMPTY_DB, actions);
            && (SequenceUsed(db, n, q) <==> 1 <= q <= db.nodes[n].lastSequence)
            && (forall e, f | e in db.journal && f in db.journal && db.journal[e].node == db.journal[f].node == n
                              && db.journal[e].event.sequence == db.journal[f].event.sequence :: e == f)
  {
    RunKeeps(actions);
    hide StockInv, Ledger, Vouchers, Catalogue, Allocations, Run;
  }

  // ---------------------------------------------------------------- transfers

  /** The serials that receipt `i` reports for transfer `t`. */
  ghost function ReceiptSet(db: Db, i: nat, t: Uuid): set<SerialNumber> {
    if ReceiptFor(db, i, t) then set s | s in db.commands[i].payload.received else {}
  }

  ghost predicate Received(db: Db, t: Uuid, s: SerialNumber) {
    (t, s) in db.transferItems && db.transferItems[(t, s)].receipt.Some?
  }

  /**
   The receipts of a transfer partition its received units; its status says whether none, some or all
   were received; one receipt completes it, exactly when all were, and it is the last.
   */
  lemma ReceiptsPartition(actions: seq<Action>, t: Uuid)
    requires t in Run(EMPTY_DB, actions).transfers
    ensures var db := Run(EMPTY_DB, actions);
            && (forall s :: Received(db, t, s) <==> exists i: nat :: s in ReceiptSet(db, i, t))
            && (forall i: nat, j: nat | i != j :: ReceiptSet(db, i, t) !! ReceiptSet(db, j, t))
            && (db.transfers[t].status.FullyReceived? <==> forall k | k in db.transferItems && k.0 == t :: Received(db, t, k.1))
            && (db.transfers[t].status.Dispatched? <==> forall k | k in db.transferItems && k.0 == t :: !Received(db, t, k.1))
            && (db.transfers[t].status.FullyReceived? <==> exists i: nat :: Completes(db, i, t))
            && (forall i: nat, j: nat | Completes(db, i, t) && ReceiptFor(db, j, t) :: j <= i)
  {
    RunKeeps(actions);
    var db := Run(EMPTY_DB, actions);
    hide StockInv, Intents, Journal, Vouchers, Catalogue, Allocations, Run;
    assert forall i: nat, s :: s in ReceiptSet(db, i, t) <==> Carries(db, i, t, s);
    assert Receipts(db);
    PartitionOf(db, t);
    StatusOf(db, t);
    hide Carries, Receipts, Partitioned, Completion, Completes, StatusRight, Received;
    forall i: nat, j: nat | i != j ensures ReceiptSet(db, i, t) !! ReceiptSet(db, j, t) {
    }
  }

  lemma PartitionOf(db: Db, t: Uuid)
    requires Receipts(db)
    ensures forall s :: Received(db, t, s) <==> exists i: nat :: Carries(db, i, t, s)
    ensures forall i: nat, j: nat, s | Carries(db, i, t, s) && Carries(db, j, t, s) :: i == j
  {
    hide Completion, StatusRight, Carries;
    forall s ensures Received(db, t, s) <==> exists i: nat :: Carries(db, i, t, s) {
      if Received(db, t, s) {
        assert (t, s) in db.transferItems;
      }
    }
  }

  lemma StatusOf(db: Db, t: Uuid)
    requires Receipts(db) && t in db.transfers
    ensures db.transfers[t].status.FullyReceived? <==> forall k | k in db.transferItems && k.0 == t :: Received(db, t, k.1)
    ensures db.transfers[t].status.Dispatched? <==> forall k | k in db.transferItems && k.0 == t :: !Received(db, t, k.1)
    ensures db.transfers[t].status.FullyReceived? <==> exists i: nat :: Completes(db, i, t)
    ensures forall i: nat, j: nat | Completes(db, i, t) && ReceiptFor(db, j, t) :: j <= i
  {
    hide Partitioned;
    assert StatusRight(db, t);
    assert forall k | k in db.transferItems && k.0 == t :: k == (t, k.1);
    hide Completes, ReceiptFor;
  }

  // ---------------------------------------------------------------- replacement chains

  /** The serial, its replacement, that one's replacement, and so on. */
  ghost function ChainFrom(db: Db, s: SerialNumber): seq<SerialNumber>
    requires Chains(db) && s in db.serials
    decreases db.nextId - db.serials[s].id
  {
    if db.serials[s].replacedBy.None? then [s]
    else
      var r := db.serials[s].replacedBy.value;
      assert Replaces(db, s, r);
      [s] + ChainFrom(db, r)
  }

  ghost predicate IsHead(db: Db, s: SerialNumber) {
    s in db.serials && forall x :: !Replaces(db, x, s)
  }

  /** The first serial of the chain that `s` belongs to. */
  ghost function HeadOf(db: Db, s: SerialNumber): (h: SerialNumber)
    requires Chains(db) && s in db.serials
    ensures IsHead(db, h)
    decreases db.serials[s].id
  {
    if IsHead(db, s) then s
    else
      var x :| Replaces(db, x, s);
      HeadOf(db, x)
  }

  /** A serial of the chain from `s`: product and origin are those of `s`; only the last one is active and not INVALID. */
  ghost predicate Link(db: Db, s: SerialNumber, x: SerialNumber, last: bool) {
    && x in db.serials && x in db.stock && s in db.serials && s in db.stock
    && db.serials[x].product == db.serials[s].product
    && db.stock[x].origin == db.stock[s].origin
    && (db.serials[x].active <==> last)
    && (db.serials[x].status.Invalid? <==> !last)
  }

  lemma FirstLink(db: Db, s: SerialNumber)
    requires Keys(db) && Rows(db) && s in db.serials
    ensures Link(db, s, s, db.serials[s].replacedBy.None?)
  {
    assert s in db.serials.Keys;
  }

  lemma NextLink(db: Db, s: SerialNumber, r: SerialNumber, x: SerialNumber, last: bool)
    requires Chains(db) && Replaces(db, s, r) && Link(db, r, x, last)
    ensures Link(db, s, x, last)
  {
  }

  lemma {:induction false} ChainShape(db: Db, s: SerialNumber)
    requires Keys(db) && Chains(db) && Rows(db) && s in db.serials
    ensures var chain := ChainFrom(db, s);
            |chain| > 0 && forall i :: 0 <= i < |chain| ==> Link(db, s, chain[i], i == |chain| - 1)
    decreases db.nextId - db.serials[s].id
  {
    FirstLink(db, s);
    if db.serials[s].replacedBy.Some? {
      var r := db.serials[s].replacedBy.value;
      assert Replaces(db, s, r);
      ChainShape(db, r);
      var rest := ChainFrom(db, r);
      var chain := ChainFrom(db, s);
      assert chain == [s] + rest;
      hide Link;
      forall i | 0 <= i < |chain| ensures Link(db, s, chain[i], i == |chain| - 1) {
        if i > 0 {
          assert chain[i] == rest[i - 1];
          NextLink(db, s, r, chain[i], i == |chain| - 1);
        }
      }
    }
  }

  lemma {:induction false} ChainContinues(db: Db, x: SerialNumber, s: SerialNumber, h: SerialNumber)
    requires Chains(db) && h in db.serials && Replaces(db, x, s) && x in ChainFrom(db, h)
    ensures s in db.serials && s in ChainFrom(db, h)
    decreases db.nextId - db.serials[h].id
  {
    if h == x {
      assert ChainFrom(db, x) == [x] + ChainFrom(db, s);
      assert s in ChainFrom(db, s);
    } else {
      var r := db.serials[h].replacedBy.value;
      assert Replaces(db, h, r);
      ChainContinues(db, x, s, r);
    }
  }

  /** Every serial lies on the chain of its head. */
  lemma {:induction false} OnOwnChain(db: Db, s: SerialNumber)
    requires Chains(db) && s in db.serials
    ensures IsHead(db, HeadOf(db, s)) && s in ChainFrom(db, HeadOf(db, s))
    decreases db.serials[s].id
  {
    if !IsHead(db, s) {
      var x :| Replaces(db, x, s) && HeadOf(db, s) == HeadOf(db, x);
      OnOwnChain(db, x);
      ChainContinues(db, x, s, HeadOf(db, x));
    }
  }

  /** A serial on the chain of `h`, other than `h`, replaces another serial of that chain. */
  lemma {:induction false} HasPredecessor(db: Db, h: SerialNumber, s: SerialNumber) returns (x: SerialNumber)
    requires Chains(db) && h in db.serials && s in ChainFrom(db, h) && s != h
    ensures Replaces(db, x, s) && x in ChainFrom(db, h)
    decreases db.nextId - db.serials[h].id
  {
    var r := db.serials[h].replacedBy.value;
    assert Replaces(db, h, r);
    if s == r {
      x := h;
    } else {
      x := HasPredecessor(db, r, s);
    }
  }

  /** No serial lies on two chains. */
  lemma {:induction false} ChainsDisjoint(db: Db, h1: SerialNumber, h2: SerialNumber, s: SerialNumber)
    requires Chains(db) && IsHead(db, h1) && IsHead(db, h2) && s in db.serials
    requires s in ChainFrom(db, h1) && s in ChainFrom(db, h2)
    ensures h1 == h2
    decreases db.serials[s].id
  {
    if s != h1 && s != h2 {
      var x1 := HasPredecessor(db, h1, s);
      var x2 := HasPredecessor(db, h2, s);
      ChainsDisjoint(db, h1, h2, x1);
    } else if s == h1 && s != h2 {
      var x := HasPredecessor(db, h2, s);
    } else if s == h2 && s != h1 {
      var x := HasPredecessor(db, h1, s);
    }
  }

  /**
   In every reachable state the serials fall into disjoint replacement chains: each serial is on the
   chain of exactly one head; product and origin are constant along it; exactly its last serial is active.
   */
  lemma ReplacementChains(actions: seq<Action>, s: SerialNumber)
    requires s in Run(EMPTY_DB, actions).serials
    ensures var db := Run(EMPTY_DB, actions);
            && Chains(db)
            && s in ChainFrom(db, HeadOf(db, s))
            && (forall h | IsHead(db, h) && s in ChainFrom(db, h) :: h == HeadOf(db, s))
            && (db.serials[s].active <==> db.serials[s].replacedBy.None?)
            && (db.serials[s].active <==> !db.serials[s].status.Invalid?)
            && var chain := ChainFrom(db, HeadOf(db, s));
               forall i :: 0 <= i < |chain| ==>
                 && chain[i] in db.serials && chain[i] in db.stock && s in db.stock
                 && db.serials[chain[i]].product == db.serials[s].product
                 && db.stock[chain[i]].origin == db.stock[s].origin
                 && (db.serials[chain[i]].active <==> i == |chain| - 1)
  {
    RunKeeps(actions);
    var db := Run(EMPTY_DB, actions);
    hide Transit, Balanced, Run, Ledger, Journal, Vouchers, Catalogue, Allocations;
    ChainOf(db, s);
  }

  lemma ChainOf(db: Db, s: SerialNumber)
    requires Keys(db) && Chains(db) && Rows(db) && s in db.serials
    ensures s in ChainFrom(db, HeadOf(db, s))
    ensures forall h | IsHead(db, h) && s in ChainFrom(db, h) :: h == HeadOf(db, s)
    ensures var chain := ChainFrom(db, HeadOf(db, s));
            forall i :: 0 <= i < |chain| ==>
              && chain[i] in db.serials && chain[i] in db.stock && s in db.stock
              && db.serials[chain[i]].product == db.serials[s].product
              && db.stock[chain[i]].origin == db.stock[s].origin
              && (db.serials[chain[i]].active <==> i == |chain| - 1)
  {
    OnOwnChain(db, s);
    ChainShape(db, HeadOf(db, s));
    forall h | IsHead(db, h) && s in ChainFrom(db, h) ensures h == HeadOf(db, s) {
      ChainsDisjoint(db, h, HeadOf(db, s), s);
    }
    var chain := ChainFrom(db, HeadOf(db, s));
    var i :| 0 <= i < |chain| && chain[i] == s;
  }

  /** A replacement was carried out exactly when its intent is completed, under the intent's reserved number. */
  lemma IntentsExact(actions: seq<Action>, o: SerialNumber)
    requires o in Run(EMPTY_DB, actions).serials
    ensures var db := Run(EMPTY_DB, actions);
            && (db.serials[o].replacedBy.Some? <==> o in db.intents && db.intents[o].completed)
            && (o in db.intents && db.intents[o].completed ==> db.serials[o].replacedBy == Some(db.intents[o].newSerial))
            && (forall p | o in db.intents && p in db.intents && p != o ::
                  db.intents[p].newSerial != db.intents[o].newSerial && db.intents[p].command != db.intents[o].command)
  {
    RunKeeps(actions);
    var db := Run(EMPTY_DB, actions);
    hide StockInv, Receipts, Journal, Vouchers, Catalogue, Allocations, Run;
    if db.serials[o].replacedBy.Some? {
      assert Replaces(db, o, db.serials[o].replacedBy.value);
    }
    if o in db.intents && db.intents[o].completed {
      assert Replaces(db, o, db.intents[o].newSerial);
    }
  }
}
