/** QR allocation and QR reservation as the source runs them, on the session's rows. */
module AllocationService {
  import opened Records
  import opened NetworkDb
  import opened NetworkIngest
  import opened QrAllocation
  import opened QrReplacementIntent
  import opened Sessions

  // ---------------------------------------------------------------- allocation

  /** One part: its serial and stock rows, and its command. */
  method AddPart(db: Session, request: AllocationRequest, id: Uuid, part: nat, codes: seq<SerialNumber>)
    modifies db`work
    ensures db.work == AllocatePart(old(db.work), request, id, part, codes)
  {
    hide AllocateSerial;
    ghost var start := db.work;
    for i := 0 to |codes|
      invariant AllocateSerials(start, request, codes) == AllocateSerials(db.work, request, codes[i..])
    {
      assert codes[i..][1..] == codes[i + 1..];
      AddSerial(db, request, codes[i]);
    }
    var command := Command(request.node, QrAllocated(id, part, PartCount(request.quantity), request.product, codes), false);
    db.work := db.work.(commands := db.work.commands + [command]);
  }

  method AddSerial(db: Session, request: AllocationRequest, s: SerialNumber)
    modifies db`work
    ensures db.work == AllocateSerial(old(db.work), request, s)
  {
    var serial := Serial(db.work.nextId, request.product, Generated, true, None, request.details);
    var stock := Stock(request.node, request.node, Generated, None);
    db.work := db.work.(serials := db.work.serials[s := serial], nextId := db.work.nextId + 1, stock := db.work.stock[s := stock]);
  }

  /** Reads the serials of an allocation back from its commands. */
  method ReadAllocation(commands: seq<Command>, n: NodeCode, id: Uuid) returns (serials: seq<SerialNumber>)
    ensures serials == AllocatedSerials(commands, n, id)
  {
    hide AllocatedSerials;
    serials := [];
    assert commands[0..] == commands;
    for i := 0 to |commands|
      invariant AllocatedSerials(commands, n, id) == serials + AllocatedSerials(commands[i..], n, id)
    {
      var command := commands[i];
      ReadHead(commands, n, id, i);
      ghost var rest := AllocatedSerials(commands[i + 1..], n, id);
      assert serials + (AllocatedBy(command, n, id) + rest) == (serials + AllocatedBy(command, n, id)) + rest;
      if command.target == n && command.payload.QrAllocated? && command.payload.allocation == id {
        serials := serials + command.payload.serials;
      } else {
        assert serials + [] == serials;
      }
    }
    ReadNothing(n, id);
    assert commands[|commands|..] == [];
  }

  lemma ReadHead(commands: seq<Command>, n: NodeCode, id: Uuid, i: nat)
    requires i < |commands|
    ensures AllocatedSerials(commands[i..], n, id) == AllocatedBy(commands[i], n, id) + AllocatedSerials(commands[i + 1..], n, id)
  {
    hide AllocatedBy;
    assert commands[i..][1..] == commands[i + 1..];
  }

  lemma ReadNothing(n: NodeCode, id: Uuid)
    ensures AllocatedSerials([], n, id) == []
  {
  }

  /**
   The loop over the parts grows the list of all serials; `codes` are the serial numbers as they are
   generated. It takes exactly ceil(quantity / 500) parts.
   */
  method AllocateQrSerials(db: Session, request: AllocationRequest, id: Uuid, codes: seq<SerialNumber>)
    returns (r: Result<seq<SerialNumber>, AllocationError>)
    requires |codes| == request.quantity
    modifies db`work
    ensures var want := Allocate(old(db.work), request, id, codes);
            if want.Ok? then r == Ok(want.value.1) && db.work == want.value.0 else r == Err(want.error) && db.work == old(db.work)
  {
    hide CheckAllocation, AllocatedSerials, AllocatePart;
    var problem := CheckAllocation(db.work, request);
    if problem.Some? {
      return Err(problem.value);
    }
    if id in db.work.allocations {
      if db.work.allocations[id] != request {
        return Err(RequestIdReused);
      }
      var serials := ReadAllocation(db.work.commands, request.node, id);
      return if |serials| != request.quantity then Err(IncompleteAllocation) else Ok(serials);
    }
    if !Unissued(db.work, codes) {
      return Err(SerialCollision);
    }
    hide Unissued;
    db.work := db.work.(allocations := db.work.allocations[id := request]);
    ghost var start := db.work;
    var all: seq<SerialNumber> := [];
    for part := 0 to PartCount(request.quantity)
      invariant |all| == (if part * COMMAND_ITEMS < request.quantity then part * COMMAND_ITEMS else request.quantity)
      invariant all == codes[..|all|]
      invariant AllocateParts(start, request, id, 1, codes) == AllocateParts(db.work, request, id, part + 1, codes[|all|..])
    {
      var count := if COMMAND_ITEMS <= request.quantity - |all| then COMMAND_ITEMS else request.quantity - |all|;
      var serials := codes[|all|..][..count];
      assert codes[|all|..][count..] == codes[|all| + count..];
      assert codes[..|all|] + serials == codes[..|all| + count];
      AddPart(db, request, id, part + 1, serials);
      all := all + serials;
    }
    assert codes[|codes|..] == [] && codes[..|codes|] == codes;
    return Ok(all);
  }

  // ---------------------------------------------------------------- reserving a replacement

  /** Up to five candidates are tried; the first reservable one is queued and recorded. */
  method RequestQrReplacement(db: Session, n: NodeCode, s: SerialNumber, candidates: seq<SerialNumber>)
    returns (r: Result<SerialNumber, IntentError>)
    requires |candidates| == SERIAL_ATTEMPTS
    modifies db`work
    ensures var want := RequestReplacement(old(db.work), n, s, candidates);
            && (want.Ok? ==> db.work == want.value && r.Ok? && FirstReservable(old(db.work), candidates) == Some(r.value))
            && (want.Err? ==> r == Err(want.error) && db.work == old(db.work))
  {
    hide Reservable, Replaceable;
    var problem := CheckRequest(db.work, n, s);
    if problem.Some? {
      return Err(problem.value);
    }
    hide CheckRequest;
    for attempt := 0 to SERIAL_ATTEMPTS
      invariant db.work == old(db.work)
      invariant FirstReservable(db.work, candidates) == FirstReservable(db.work, candidates[attempt..])
    {
      assert candidates[attempt..][1..] == candidates[attempt + 1..];
      var code := candidates[attempt];
      if Reservable(db.work, code) {
        var expected := db.work.stock[s].status;
        var command := |db.work.commands|;
        db.work := db.work.(commands := db.work.commands + [Command(n, QrReplace(s, code, expected), false)]);
        db.work := db.work.(intents := db.work.intents[s := Intent(n, code, expected, command, false)]);
        return Ok(code);
      }
    }
    return Err(NoUniqueSerial);
  }
}
