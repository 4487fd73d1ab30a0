/** What accepted QR allocations and replacement requests write (app/services/qr_allocation.py, app/services/qr_replacement_intent.py). */
module QrOutcomes {
  import opened Records
  import opened NetworkDb
  import opened NetworkIngest
  import opened QrAllocation
  import opened QrReplacementIntent
  import Text

  // ---------------------------------------------------------------- allocations

  ghost predicate DistinctNumbers(codes: seq<SerialNumber>) {
    forall i, j :: 0 <= i < j < |codes| ==> codes[i] != codes[j]
  }

  /** Each number has a new active GENERATED row of the product with the requested details, in the order of the numbers. */
  ghost predicate Issued(db: Db, next: Db, request: AllocationRequest, codes: seq<SerialNumber>) {
    && next.nextId == db.nextId + |codes|
    && (forall i | 0 <= i < |codes| ::
          && codes[i] in next.serials && codes[i] in next.stock
          && next.serials[codes[i]] == Serial(db.nextId + i, request.product, Generated, true, None, request.details)
          && next.stock[codes[i]] == Stock(request.node, request.node, Generated, None))
    && (forall s | s !in codes ::
          && (s in next.serials <==> s in db.serials) && (s in next.stock <==> s in db.stock)
          && (s in db.serials ==> next.serials[s] == db.serials[s]) && (s in db.stock ==> next.stock[s] == db.stock[s]))
  }

  lemma NotAgain(head: seq<SerialNumber>, rest: seq<SerialNumber>, i: nat)
    requires i < |head| && DistinctNumbers(head + rest)
    ensures head[i] !in rest
  {
    var codes := head + rest;
    forall j | 0 <= j < |rest| ensures rest[j] != head[i] {
      assert codes[i] == head[i] && codes[|head| + j] == rest[j];
    }
  }

  lemma IssuedConcat(db: Db, mid: Db, next: Db, request: AllocationRequest, head: seq<SerialNumber>, rest: seq<SerialNumber>)
    requires Issued(db, mid, request, head) && Issued(mid, next, request, rest) && DistinctNumbers(head + rest)
    ensures Issued(db, next, request, head + rest)
  {
    var codes := head + rest;
    assert forall s :: s in codes <==> s in head || s in rest;
    forall i | 0 <= i < |codes|
      ensures codes[i] in next.serials && codes[i] in next.stock
              && next.serials[codes[i]] == Serial(db.nextId + i, request.product, Generated, true, None, request.details)
              && next.stock[codes[i]] == Stock(request.node, request.node, Generated, None)
    {
      if i < |head| {
        assert head[i] !in rest by { NotAgain(head, rest, i); }
      } else {
        assert rest[i - |head|] == codes[i];
      }
    }
  }

  lemma OneIssued(db: Db, request: AllocationRequest, s: SerialNumber)
    ensures Issued(db, AllocateSerial(db, request, s), request, [s])
  {
  }

  lemma {:induction false} SerialsIssued(db: Db, request: AllocationRequest, codes: seq<SerialNumber>)
    requires DistinctNumbers(codes)
    ensures Issued(db, AllocateSerials(db, request, codes), request, codes)
    decreases |codes|
  {
    hide AllocateSerial, Issued;
    if codes == [] {
      NothingIssued(db, request);
    } else {
      var mid := AllocateSerial(db, request, codes[0]);
      OneIssued(db, request, codes[0]);
      SerialsIssued(mid, request, codes[1..]);
      assert [codes[0]] + codes[1..] == codes;
      IssuedConcat(db, mid, AllocateSerials(mid, request, codes[1..]), request, [codes[0]], codes[1..]);
    }
  }

  lemma NothingIssued(db: Db, request: AllocationRequest)
    ensures Issued(db, db, request, [])
  {
  }

  lemma {:induction false} PartsIssued(db: Db, request: AllocationRequest, id: Uuid, part: nat, codes: seq<SerialNumber>)
    requires DistinctNumbers(codes)
    ensures Issued(db, AllocateParts(db, request, id, part, codes), request, codes)
    decreases |codes|
  {
    hide AllocateSerials, Issued;
    if codes == [] {
      NothingIssued(db, request);
    } else {
      var size := PartSize(|codes|);
      var head, rest := codes[..size], codes[size..];
      var mid := AllocatePart(db, request, id, part, head);
      SerialsIssued(db, request, head);
      SameRowsIssued(db, AllocateSerials(db, request, head), mid, request, head);
      PartsIssued(mid, request, id, part + 1, rest);
      assert head + rest == codes;
      IssuedConcat(db, mid, AllocateParts(mid, request, id, part + 1, rest), request, head, rest);
    }
  }

  lemma SameRowsIssued(db: Db, a: Db, b: Db, request: AllocationRequest, codes: seq<SerialNumber>)
    requires Issued(db, a, request, codes) && b.serials == a.serials && b.stock == a.stock && b.nextId == a.nextId
    ensures Issued(db, b, request, codes)
  {
  }

  /** The node, the quantity, the product and the dates are as an allocation needs them. */
  ghost predicate Allocatable(db: Db, request: AllocationRequest) {
    && request.node in db.nodes && db.nodes[request.node].active && 1 <= request.quantity <= 5000
    && request.product in db.products && db.products[request.product].active && request.product.franchise == request.node
    && Text.IdentityText(db.products[request.product].identity.tallyName) != ""
    && match (request.details.mfgDate, request.details.expiryDate)
       case (Some(made), Some(expires)) => made < expires
       case _ => true
  }

  /**
   A new allocation is accepted exactly when the request is allowed and the numbers are new and distinct; each of
   them then has its own row.
   */
  lemma AllocationOutcome(db: Db, request: AllocationRequest, id: Uuid, codes: seq<SerialNumber>)
    requires |codes| == request.quantity && id !in db.allocations
    ensures Allocate(db, request, id, codes).Ok? <==>
              Allocatable(db, request) && DistinctNumbers(codes) && forall i :: 0 <= i < |codes| ==> codes[i] !in db.serials
    ensures Allocate(db, request, id, codes).Ok? ==>
              var (next, returned) := Allocate(db, request, id, codes).value;
              returned == codes && Issued(db, next, request, codes)
  {
    hide AllocateParts, Issued;
    if Unissued(db, codes) {
      var recorded := db.(allocations := db.allocations[id := request]);
      PartsIssued(recorded, request, id, 1, codes);
      RecordedIssued(db, recorded, AllocateParts(recorded, request, id, 1, codes), request, codes);
    }
  }

  lemma RecordedIssued(db: Db, recorded: Db, next: Db, request: AllocationRequest, codes: seq<SerialNumber>)
    requires recorded == db.(allocations := recorded.allocations) && Issued(recorded, next, request, codes)
    ensures Issued(db, next, request, codes)
  {
  }

  // ---------------------------------------------------------------- reserving a replacement

  /** The node is active and owns the serial, which is active, in one replaceable status, and not yet reserved for. */
  ghost predicate Requestable(db: Db, n: NodeCode, s: SerialNumber) {
    && n in db.nodes && db.nodes[n].active
    && Tracked(db, s) && db.stock[s].owner == n && s !in db.intents
    && db.serials[s].active && db.serials[s].replacedBy == None
    && db.stock[s].status in {Generated, InStock, Returned, Damaged} && db.serials[s].status == db.stock[s].status
  }

  ghost predicate Free(db: Db, code: SerialNumber) {
    code !in db.serials && forall s | s in db.intents :: db.intents[s].newSerial != code
  }

  lemma {:induction false} FirstFree(db: Db, candidates: seq<SerialNumber>)
    ensures var code := FirstReservable(db, candidates);
            if forall i :: 0 <= i < |candidates| ==> !Free(db, candidates[i]) then code == None
            else exists i :: 0 <= i < |candidates| && code == Some(candidates[i]) && Free(db, candidates[i])
                             && forall j :: 0 <= j < i ==> !Free(db, candidates[j])
  {
    hide Free;
    assert forall code :: Reservable(db, code) <==> Free(db, code) by { FreeExactly(db); }
    hide Reservable;
    if candidates != [] && !Free(db, candidates[0]) {
      var rest := candidates[1..];
      FirstFree(db, rest);
      assert forall i :: 0 <= i < |rest| ==> rest[i] == candidates[i + 1];
      if i :| 0 <= i < |rest| && FirstReservable(db, rest) == Some(rest[i]) && Free(db, rest[i])
              && forall j :: 0 <= j < i ==> !Free(db, rest[j]) {
        forall j | 0 <= j < i + 1 ensures !Free(db, candidates[j]) {
          if j > 0 {
            assert !Free(db, rest[j - 1]);
          }
        }
        assert candidates[i + 1] == rest[i];
      } else {
        forall i | 0 <= i < |candidates| ensures !Free(db, candidates[i]) {
          if i > 0 {
            assert candidates[i] == rest[i - 1];
          }
        }
      }
    }
  }

  lemma FreeExactly(db: Db)
    ensures forall code :: Reservable(db, code) <==> Free(db, code)
  {
  }

  /** The first free candidate is reserved, in the serial's present status and under the new command. */
  ghost predicate Reserves(db: Db, next: Db, n: NodeCode, s: SerialNumber, candidates: seq<SerialNumber>, i: nat) {
    && i < |candidates| && Free(db, candidates[i]) && (forall j :: 0 <= j < i ==> !Free(db, candidates[j]))
    && s in db.stock
    && next == db.(intents := db.intents[s := Intent(n, candidates[i], db.stock[s].status, |db.commands|, false)],
                   commands := db.commands + [Command(n, QrReplace(s, candidates[i], db.stock[s].status), false)])
  }

  /** Of five candidates the first free one is reserved for the serial in its present status, and the Lite is told. */
  lemma ReservationOutcome(db: Db, n: NodeCode, s: SerialNumber, candidates: seq<SerialNumber>)
    requires |candidates| == SERIAL_ATTEMPTS
    ensures RequestReplacement(db, n, s, candidates).Ok? <==>
              Requestable(db, n, s) && exists i :: 0 <= i < 5 && Free(db, candidates[i])
    ensures RequestReplacement(db, n, s, candidates).Ok? ==>
              var next := RequestReplacement(db, n, s, candidates).value;
              exists i :: 0 <= i < 5 && Reserves(db, next, n, s, candidates, i)
  {
    FirstFree(db, candidates);
    hide Free, FirstReservable;
    if RequestReplacement(db, n, s, candidates).Ok? {
      var i: nat :| i < |candidates| && FirstReservable(db, candidates) == Some(candidates[i]) && Free(db, candidates[i])
                    && forall j :: 0 <= j < i ==> !Free(db, candidates[j]);
      assert Reserves(db, RequestReplacement(db, n, s, candidates).value, n, s, candidates, i);
    }
  }
}
