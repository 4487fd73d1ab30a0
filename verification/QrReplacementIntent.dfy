/** Reserving a new QR for an old one (app/services/qr_replacement_intent.py). */
module QrReplacementIntent {
  import opened Records
  import opened NetworkDb
  import opened NetworkIngest

  datatype IntentError = FranchiseDisabled | SerialNotFound | NotOwned | NotReplaceable | AlreadyRequested | NoUniqueSerial

  const SERIAL_ATTEMPTS: nat := 5

  /** Neither an issued serial nor one reserved by another intent. */
  predicate Reservable(db: Db, code: SerialNumber) {
    code !in db.serials && forall o | o in db.intents :: db.intents[o].newSerial != code
  }

  /** The first reservable candidate. */
  function FirstReservable(db: Db, candidates: seq<SerialNumber>): (r: Option<SerialNumber>)
    ensures r.Some? ==> r.value in candidates && Reservable(db, r.value)
    ensures r.None? ==> forall c | c in candidates :: !Reservable(db, c)
  {
    if candidates == [] then None
    else if Reservable(db, candidates[0]) then Some(candidates[0])
    else FirstReservable(db, candidates[1..])
  }

  function CheckRequest(db: Db, n: NodeCode, s: SerialNumber): (r: Option<IntentError>)
    ensures r.None? ==> Tracked(db, s) && s !in db.intents && db.stock[s].owner == n
  {
    if n !in db.nodes || !db.nodes[n].active then Some(FranchiseDisabled)
    else if s !in db.serials then Some(SerialNotFound)
    else if s !in db.stock || db.stock[s].owner != n then Some(NotOwned)
    else if !db.serials[s].active || db.serials[s].replacedBy.Some? || !Replaceable(db.stock[s].status)
            || db.serials[s].status != db.stock[s].status then Some(NotReplaceable)
    else if s in db.intents then Some(AlreadyRequested)
    else None
  }

  function Reserve(db: Db, n: NodeCode, s: SerialNumber, code: SerialNumber): Db
    requires s in db.stock
  {
    Queued(db, n, QrReplace(s, code, db.stock[s].status)).(
      intents := db.intents[s := Intent(n, code, db.stock[s].status, |db.commands|, false)])
  }

  /** `candidates` are the serial numbers that would be generated, one per attempt. */
  function RequestReplacement(db: Db, n: NodeCode, s: SerialNumber, candidates: seq<SerialNumber>): (r: Result<Db, IntentError>)
    requires |candidates| == SERIAL_ATTEMPTS
  {
    var problem := CheckRequest(db, n, s);
    if problem.Some? then Err(problem.value)
    else
      var code := FirstReservable(db, candidates);
      if code.None? then Err(NoUniqueSerial) else Ok(Reserve(db, n, s, code.value))
  }
}
