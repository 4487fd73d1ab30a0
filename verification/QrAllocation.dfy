/** Master-issued QR serials and their numbered delivery commands (app/services/qr_allocation.py). */
module QrAllocation {
  import opened Records
  import opened NetworkDb
  import opened NetworkIngest
  import Text

  const MAX_ALLOCATION: nat := 5000
  const COMMAND_ITEMS: nat := 500

  datatype AllocationError =
    | NodeDisabled | QuantityOutOfRange | ForeignProduct | MissingTallyName | BadDates
    | RequestIdReused | IncompleteAllocation | SerialCollision

  function CheckAllocation(db: Db, request: AllocationRequest): Option<AllocationError> {
    if request.node !in db.nodes || !db.nodes[request.node].active then Some(NodeDisabled)
    else if !(1 <= request.quantity <= MAX_ALLOCATION) then Some(QuantityOutOfRange)
    else if request.product !in db.products || !db.products[request.product].active
            || request.product.franchise != request.node then Some(ForeignProduct)
    else if Text.IdentityText(db.products[request.product].identity.tallyName) == "" then Some(MissingTallyName)
    else if request.details.mfgDate.Some? && request.details.expiryDate.Some?
            && request.details.expiryDate.value <= request.details.mfgDate.value then Some(BadDates)
    else None
  }

  // ---------------------------------------------------------------- reading an allocation back

  /** The serials of one allocation's commands, in command order. */
  function AllocatedSerials(commands: seq<Command>, n: NodeCode, id: Uuid): seq<SerialNumber> {
    if commands == [] then [] else AllocatedBy(commands[0], n, id) + AllocatedSerials(commands[1..], n, id)
  }

  function AllocatedBy(command: Command, n: NodeCode, id: Uuid): seq<SerialNumber> {
    if command.target == n && command.payload.QrAllocated? && command.payload.allocation == id
    then command.payload.serials else []
  }

  // ---------------------------------------------------------------- writing one

  function AllocateSerial(db: Db, request: AllocationRequest, s: SerialNumber): (next: Db) {
    db.(serials := db.serials[s := Serial(db.nextId, request.product, Generated, true, None, request.details)],
        nextId := db.nextId + 1,
        stock := db.stock[s := Stock(request.node, request.node, Generated, None)])
  }

  function AllocateSerials(db: Db, request: AllocationRequest, codes: seq<SerialNumber>): (next: Db)
    decreases |codes|
  {
    if codes == [] then db else AllocateSerials(AllocateSerial(db, request, codes[0]), request, codes[1..])
  }

  function PartCount(quantity: nat): nat {
    (quantity + COMMAND_ITEMS - 1) / COMMAND_ITEMS
  }

  /** How many serials the next part takes when `rest` are still to be sent. */
  function PartSize(rest: nat): (r: nat)
    ensures r <= rest && (rest > 0 ==> r > 0)
  {
    if rest < COMMAND_ITEMS then rest else COMMAND_ITEMS
  }

  function AllocatePart(db: Db, request: AllocationRequest, id: Uuid, part: nat, codes: seq<SerialNumber>): Db {
    Queued(AllocateSerials(db, request, codes), request.node,
           QrAllocated(id, part, PartCount(request.quantity), request.product, codes))
  }

  /** The parts from `part` on, for the codes not yet sent. */
  function AllocateParts(db: Db, request: AllocationRequest, id: Uuid, part: nat, codes: seq<SerialNumber>): Db
    decreases |codes|
  {
    if codes == [] then db
    else
      var size := PartSize(|codes|);
      AllocateParts(AllocatePart(db, request, id, part, codes[..size]), request, id, part + 1, codes[size..])
  }

  /** The generated serial numbers are distinct and new, as the unique index demands. */
  predicate Unissued(db: Db, codes: seq<SerialNumber>) {
    && (forall i, j :: 0 <= i < j < |codes| ==> codes[i] != codes[j])
    && (forall i :: 0 <= i < |codes| ==> codes[i] !in db.serials)
  }

  /**
   One allocation request. `codes` are the serial numbers that would be generated. A replayed request
   id returns the serials read back from the commands.
   */
  function Allocate(db: Db, request: AllocationRequest, id: Uuid, codes: seq<SerialNumber>)
    : (r: Result<(Db, seq<SerialNumber>), AllocationError>)
    requires |codes| == request.quantity
  {
    var problem := CheckAllocation(db, request);
    if problem.Some? then Err(problem.value)
    else if id in db.allocations then
      if db.allocations[id] != request then Err(RequestIdReused)
      else
        var serials := AllocatedSerials(db.commands, request.node, id);
        if |serials| != request.quantity then Err(IncompleteAllocation) else Ok((db, serials))
    else if !Unissued(db, codes) then Err(SerialCollision)
    else Ok((AllocateParts(db.(allocations := db.allocations[id := request]), request, id, 1, codes), codes))
  }
}
