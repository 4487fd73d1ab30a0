/**
 What every step keeps true of serials, stock, transfers and the movement report.

 The predicates here hold between any two item steps of an event, not only between events.
 */
module StockInvariants {
  import opened Records
  import opened NetworkDb
  import opened NetworkIngest

  // ---------------------------------------------------------------- predicates

  /** Every reference between tables resolves. */
  ghost predicate Keys(db: Db) {
    && db.serials.Keys == db.stock.Keys
    && (forall s | s in db.serials :: db.serials[s].product in db.products)
    && (forall s | s in db.stock :: db.stock[s].owner in db.nodes && db.stock[s].origin in db.nodes)
    && (forall t | t in db.transfers ::
          db.transfers[t].source in db.nodes && db.transfers[t].destination in db.nodes
          && db.transfers[t].source != db.transfers[t].destination)
    && (forall k | k in db.transferItems :: k.0 in db.transfers && k.1 in db.serials)
    && (forall k | k in db.batchItems :: k.0 in db.batches && k.1 in db.serials)
    && db.enrolled <= db.serials.Keys
  }

  /** The two rows of a serial agree; a serial is active, unreplaced and not INVALID, or none of these. */
  ghost predicate Rows(db: Db) {
    forall s | s in db.serials && s in db.stock ::
      && db.serials[s].status == db.stock[s].status
      && (db.serials[s].active <==> !db.serials[s].status.Invalid?)
      && (db.serials[s].active <==> db.serials[s].replacedBy.None?)
  }

  ghost predicate Replaces(db: Db, s: SerialNumber, r: SerialNumber) {
    s in db.serials && db.serials[s].replacedBy == Some(r)
  }

  /** Replacement goes to a younger row of the same product and origin, and never merges two chains. */
  ghost predicate Chains(db: Db) {
    && (forall s | s in db.serials :: db.serials[s].id < db.nextId)
    && (forall s, r | Replaces(db, s, r) ::
          && r in db.serials
          && db.serials[s].id < db.serials[r].id
          && db.serials[r].product == db.serials[s].product
          && s in db.stock && r in db.stock
          && db.stock[r].origin == db.stock[s].origin)
    && (forall s1, s2, r | Replaces(db, s1, r) && Replaces(db, s2, r) :: s1 == s2)
  }

  /** A manifest unit that has not been received. */
  ghost predicate Open(db: Db, k: (Uuid, SerialNumber)) {
    k in db.transferItems && db.transferItems[k].receipt.None?
  }

  /** Stock is IN_TRANSIT exactly while one open manifest unit of its owner holds it. */
  ghost predicate Transit(db: Db) {
    && (forall k | Open(db, k) ::
          && k.0 in db.transfers && k.1 in db.stock
          && db.stock[k.1].status.InTransit?
          && db.stock[k.1].owner == db.transfers[k.0].source)
    && (forall k, l | Open(db, k) && Open(db, l) && k.1 == l.1 :: k == l)
    && (forall s | s in db.stock && db.stock[s].status.InTransit? :: exists t :: Open(db, (t, s)))
  }

  // ---------------------------------------------------------------- the movement report

  ghost predicate IsProduct(db: Db, s: SerialNumber, p: ProductCode) {
    s in db.serials && db.serials[s].product == p
  }

  ghost function OnHandRows(db: Db, n: NodeCode, p: ProductCode): set<SerialNumber> {
    set s | s in db.stock && db.stock[s].owner == n && OnHand(db.stock[s].status) && IsProduct(db, s, p)
  }

  /** The batch items that one column of the report sums, for one franchise and product. */
  ghost function Column(db: Db, kinds: set<EventType>, n: NodeCode, p: ProductCode): set<(Uuid, SerialNumber)> {
    set k | k in db.batchItems && k.0 in db.batches && db.batches[k.0].node == n && db.batches[k.0].kind in kinds
            && IsProduct(db, k.1, p)
  }

  ghost function TransferredOut(db: Db, n: NodeCode, p: ProductCode): set<(Uuid, SerialNumber)> {
    set k | k in db.transferItems && k.0 in db.transfers && db.transfers[k.0].source == n && IsProduct(db, k.1, p)
  }

  ghost function TransferredIn(db: Db, n: NodeCode, p: ProductCode): set<(Uuid, SerialNumber)> {
    set k | k in db.transferItems && db.transferItems[k].receipt.Some? && k.0 in db.transfers
            && db.transfers[k.0].destination == n && IsProduct(db, k.1, p)
  }

  ghost function EnrolledRows(db: Db, n: NodeCode, p: ProductCode): set<SerialNumber> {
    set s | s in db.enrolled && s in db.stock && db.stock[s].origin == n && IsProduct(db, s, p)
  }

  ghost predicate BalancedFor(db: Db, n: NodeCode, p: ProductCode) {
    |OnHandRows(db, n, p)|
    + |Column(db, {Sale}, n, p)| + |Column(db, {SupplierReturn}, n, p)| + |Column(db, {Issue}, n, p)|
    + |TransferredOut(db, n, p)|
    == |EnrolledRows(db, n, p)| + |Column(db, {Purchase, Receive}, n, p)| + |Column(db, {SalesReturn}, n, p)|
       + |TransferredIn(db, n, p)|
  }

  /** Stock on hand is what the report's columns say came in, less what they say went out. */
  ghost predicate Balanced(db: Db) {
    forall n, p :: BalancedFor(db, n, p)
  }

  ghost predicate StockInv(db: Db) {
    Keys(db) && Rows(db) && Chains(db) && Transit(db) && Balanced(db)
  }

  // ---------------------------------------------------------------- one serial moves

  /** `next` differs from `db`, in the serial and stock rows, by a status and owner change of `s`. */
  ghost predicate RowMove(db: Db, next: Db, s: SerialNumber, status: Status, owner: NodeCode) {
    && Tracked(db, s)
    && next.serials.Keys == db.serials.Keys && next.stock.Keys == db.stock.Keys
    && (forall x | x in db.serials && x != s :: next.serials[x] == db.serials[x])
    && (forall x | x in db.stock && x != s :: next.stock[x] == db.stock[x])
    && next.serials[s] == db.serials[s].(status := status, details := next.serials[s].details)
    && next.stock[s] == db.stock[s].(owner := owner, status := status, lastEvent := next.stock[s].lastEvent)
    && next.nextId == db.nextId
  }

  lemma MoveKeepsRows(db: Db, next: Db, s: SerialNumber, status: Status, owner: NodeCode)
    requires Rows(db) && RowMove(db, next, s, status, owner)
    requires status.Invalid? <==> db.stock[s].status.Invalid?
    ensures Rows(next)
  {
  }

  lemma MoveKeepsChains(db: Db, next: Db, s: SerialNumber, status: Status, owner: NodeCode)
    requires Chains(db) && RowMove(db, next, s, status, owner)
    ensures Chains(next)
  {
    assert forall x, r :: Replaces(next, x, r) <==> Replaces(db, x, r);
  }

  /** A move within one owner that neither starts nor ends transit keeps the transit invariant. */
  lemma MoveKeepsTransit(db: Db, next: Db, s: SerialNumber, status: Status)
    requires Transit(db) && Tracked(db, s) && RowMove(db, next, s, status, db.stock[s].owner)
    requires next.transferItems == db.transferItems && next.transfers == db.transfers
    requires status.InTransit? <==> db.stock[s].status.InTransit?
    ensures Transit(next)
  {
    assert forall k :: Open(next, k) <==> Open(db, k);
  }

  // ---------------------------------------------------------------- how a step changes the report

  ghost predicate SameProducts(db: Db, next: Db) {
    forall s | s in db.serials :: s in next.serials && next.serials[s].product == db.serials[s].product
  }

  ghost predicate SameOrigins(db: Db, next: Db) {
    forall s | s in db.stock :: s in next.stock && next.stock[s].origin == db.stock[s].origin
  }

  lemma MoveFrames(db: Db, next: Db, s: SerialNumber, status: Status, owner: NodeCode)
    requires RowMove(db, next, s, status, owner)
    ensures SameProducts(db, next) && SameOrigins(db, next)
  {
  }

  lemma ColumnFrame(db: Db, next: Db, kinds: set<EventType>, n: NodeCode, p: ProductCode)
    requires Keys(db) && SameProducts(db, next)
    requires next.batchItems == db.batchItems
    requires forall b | b in db.batches :: b in next.batches && next.batches[b] == db.batches[b]
    ensures Column(next, kinds, n, p) == Column(db, kinds, n, p)
  {
  }

  lemma TransfersFrame(db: Db, next: Db, n: NodeCode, p: ProductCode)
    requires Keys(db) && SameProducts(db, next)
    requires next.transferItems == db.transferItems
    requires forall t | t in db.transfers ::
               t in next.transfers && next.transfers[t].source == db.transfers[t].source
               && next.transfers[t].destination == db.transfers[t].destination
    ensures TransferredOut(next, n, p) == TransferredOut(db, n, p)
    ensures TransferredIn(next, n, p) == TransferredIn(db, n, p)
  {
  }

  lemma EnrolledFrame(db: Db, next: Db, n: NodeCode, p: ProductCode)
    requires Keys(db) && SameProducts(db, next)
    requires next.enrolled == db.enrolled
    requires SameOrigins(db, next)
    ensures EnrolledRows(next, n, p) == EnrolledRows(db, n, p)
  {
  }

  function Bit(b: bool): nat {
    if b then 1 else 0
  }

  /** Two sets that agree off one element differ in size by that element. */
  lemma OneChanged<T>(a: set<T>, b: set<T>, x: T)
    requires a - {x} == b - {x}
    ensures |b| + Bit(x in a) == |a| + Bit(x in b)
  {
    assert a == if x in a then (a - {x}) + {x} else a - {x};
    assert b == if x in b then (a - {x}) + {x} else a - {x};
  }

  lemma OnHandMove(db: Db, next: Db, s: SerialNumber, status: Status, owner: NodeCode, n: NodeCode, p: ProductCode)
    requires Keys(db) && RowMove(db, next, s, status, owner)
    ensures |OnHandRows(next, n, p)| + Bit(db.stock[s].owner == n && OnHand(db.stock[s].status) && IsProduct(db, s, p))
         == |OnHandRows(db, n, p)| + Bit(owner == n && OnHand(status) && IsProduct(db, s, p))
  {
    forall x | x != s ensures x in OnHandRows(next, n, p) <==> x in OnHandRows(db, n, p) {
    }
    OneChanged(OnHandRows(db, n, p), OnHandRows(next, n, p), s);
  }
}
