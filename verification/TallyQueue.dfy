/**
 The Tally voucher queue (app/services/tally.py, app/services/sync_worker.py).

 A call claims a batch and commits, posts its voucher, and commits the outcome. The process can die between
 any two of these. Tally's answer is arbitrary, and the loaded object that a call works on can be stale. A
 request is an opaque value, and so is a REMOTEID.
 */
module TallyQueue {
  import opened Records

  type BatchId = nat
  type Request = nat
  type RemoteId = nat

  const SYNC_LEASE_SECONDS: int := 600
  const MAX_AUTOMATIC_TALLY_RETRIES: nat := 3

  datatype QueueStatus = Draft | Submitted | Syncing | Synced | PendingSync | Failed | ReviewRequired | Closed

  /** A type posted to Tally, a type that is closed without posting, and a type with no voucher. */
  datatype Kind = Voucher | SelfClosing | WithoutVoucher

  /** One batch. `createdAt` and `lastRetryAt` order the worker's selection. */
  datatype Row = Row(
    kind: Kind,
    createdAt: int,
    status: QueueStatus,
    retryCount: nat,
    lastRetryAt: Option<int>,
    remoteId: Option<RemoteId>,
    request: Option<Request>,
    startedAt: Option<int>)

  type Rows = map<BatchId, Row>

  // ---------------------------------------------------------------- Tally's answer

  /**
   How a post ends. `BadUrl` fails before anything is sent. `Refused`: no connection was made. `Lost`: a
   timeout or a disconnect. A count is None when its element is missing, and 0 when it is not a number.
   */
  datatype Reply =
    | BadUrl | Refused | Lost | TooLong | Unreadable
    | Parsed(lineErrors: bool, created: Option<int>, altered: Option<int>, exceptions: Option<int>, errors: Option<int>)

  datatype Verdict = Imported | Rejected(retryable: bool) | Unknown

  function CountOf(n: Option<int>): int {
    if n.Some? then n.value else 0
  }

  /** The outcome classification of post_to_tally. */
  function Classify(reply: Reply): Verdict {
    match reply
    case BadUrl => Rejected(false)
    case Refused => Rejected(true)
    case Lost => Unknown
    case TooLong => Unknown
    case Unreadable => Unknown
    case Parsed(lineErrors, created, altered, exceptions, errors) =>
      var changed := CountOf(created) + CountOf(altered);
      if lineErrors then (if changed > 0 then Unknown else Rejected(false))
      else if changed > 0 && (CountOf(exceptions) > 0 || CountOf(errors) > 0) then Unknown
      else if changed < 1 then (if created.None? && altered.None? then Unknown else Rejected(false))
      else Imported
  }

  // ---------------------------------------------------------------- one call

  /** What build_voucher_xml does; `BuildCrashed` is an exception that the queue does not catch. */
  datatype Build = Built(request: Request) | BuildRejected | BuildCrashed

  /** Where the process dies. */
  datatype Death = Survives | BeforeCommit | AfterClaim | AfterPost

  /** What one call meets. `imported`: Tally really imported the voucher, whatever it answered. */
  datatype Attempt = Attempt(
    now: int,
    newRemoteId: RemoteId,
    build: Build,
    enabled: bool,
    reply: Reply,
    imported: bool,
    death: Death)

  /** The history of the queue. */
  datatype Entry =
    | Sent(batch: BatchId, remoteId: RemoteId, request: Request, reply: Reply, imported: bool)
    | Recorded(batch: BatchId, reply: Reply)
    | FoundPresent(batch: BatchId)
    | FoundAbsent(batch: BatchId)

  datatype Effect = Effect(rows: Rows, log: seq<Entry>)

  /** A commit writes the fields that were assigned another value than the one loaded. */
  function Merged(row: Row, loaded: Row, changed: Row): Row {
    Row(row.kind,
        row.createdAt,
        if changed.status != loaded.status then changed.status else row.status,
        if changed.retryCount != loaded.retryCount then changed.retryCount else row.retryCount,
        if changed.lastRetryAt != loaded.lastRetryAt then changed.lastRetryAt else row.lastRetryAt,
        if changed.remoteId != loaded.remoteId then changed.remoteId else row.remoteId,
        if changed.request != loaded.request then changed.request else row.request,
        if changed.startedAt != loaded.startedAt then changed.startedAt else row.startedAt)
  }

  /** The only commit of a call that does not post. */
  function Saved(rows: Rows, id: BatchId, loaded: Row, changed: Row, a: Attempt): Effect
    requires id in rows
  {
    if a.death.BeforeCommit? then Effect(rows, []) else Effect(rows[id := Merged(rows[id], loaded, changed)], [])
  }

  predicate LeaseHeld(row: Row, now: int) {
    row.startedAt.Some? && row.startedAt.value > now - SYNC_LEASE_SECONDS
  }

  function Retried(copy: Row, a: Attempt): Row {
    if copy.status.PendingSync? || copy.status.Failed?
    then copy.(retryCount := copy.retryCount + 1, lastRetryAt := Some(a.now)) else copy
  }

  /** The REMOTEID is computed once and then kept. */
  function Named(copy: Row, a: Attempt): Row {
    Retried(copy, a).(remoteId := if copy.remoteId.Some? then copy.remoteId else Some(a.newRemoteId))
  }

  /** A rejected batch is built anew; any other keeps the request it has. */
  function RequestFor(copy: Row, a: Attempt): Build {
    if copy.status.Failed? || copy.request.None? then a.build else Built(copy.request.value)
  }

  function Claimed(row: Row, copy: Row, request: Request, a: Attempt): Row {
    var named := Named(copy, a);
    row.(status := Syncing, retryCount := named.retryCount, lastRetryAt := named.lastRetryAt, remoteId := named.remoteId,
         request := Some(request), startedAt := Some(a.now))
  }

  /** The status that a recorded answer leaves. */
  function Settled(verdict: Verdict, claimed: QueueStatus, retryCount: nat): QueueStatus {
    match verdict
    case Imported => Synced
    case Unknown => ReviewRequired
    case Rejected(retryable) =>
      if retryable && !claimed.Failed? && retryCount < MAX_AUTOMATIC_TALLY_RETRIES then PendingSync else Failed
  }

  /** The claim is committed, the voucher is posted, and the outcome is committed. */
  function ClaimAndPost(rows: Rows, id: BatchId, copy: Row, request: Request, a: Attempt): Effect
    requires id in rows
  {
    if a.death.BeforeCommit? || rows[id].status != copy.status then Effect(rows, [])
    else
      var row := Claimed(rows[id], copy, request, a);
      var sent := if a.reply.BadUrl? then [] else [Sent(id, row.remoteId.value, request, a.reply, a.imported)];
      if a.death.AfterClaim? then Effect(rows[id := row], [])
      else if a.death.AfterPost? then Effect(rows[id := row], sent)
      else
        var settled := row.(status := Settled(Classify(a.reply), copy.status, row.retryCount), startedAt := None);
        Effect(rows[id := settled], sent + [Recorded(id, a.reply)])
  }

  /** _sync_batch_locked, on the loaded object `copy`. */
  function SyncLocked(rows: Rows, id: BatchId, copy: Row, a: Attempt): Effect
    requires id in rows
  {
    if copy.status.Syncing? then
      if LeaseHeld(copy, a.now) then Effect(rows, [])
      else Saved(rows, id, copy, copy.(status := ReviewRequired, startedAt := None), a)
    else if copy.kind.SelfClosing? then Saved(rows, id, copy, Retried(copy, a).(status := Closed), a)
    else if copy.kind.WithoutVoucher? then Saved(rows, id, copy, Retried(copy, a).(status := PendingSync), a)
    else
      match RequestFor(copy, a)
      case BuildCrashed => Effect(rows, [])
      case BuildRejected => Saved(rows, id, copy, Named(copy, a).(status := PendingSync), a)
      case Built(request) =>
        if !a.enabled then Saved(rows, id, copy, Named(copy, a).(status := PendingSync, request := Some(request)), a)
        else ClaimAndPost(rows, id, copy, request, a)
  }

  /** The build raises an exception that the call does not catch. */
  predicate LockedRaises(copy: Row, a: Attempt) {
    !copy.status.Syncing? && copy.kind.Voucher? && RequestFor(copy, a).BuildCrashed?
  }

  predicate Finished(status: QueueStatus) {
    status.Synced? || status.Closed? || status.ReviewRequired?
  }

  predicate Reviewing(rows: Rows) {
    exists b | b in rows :: rows[b].status.ReviewRequired?
  }

  /** A batch other than `id` whose import was interrupted. */
  predicate Interrupted(rows: Rows, id: BatchId, other: BatchId) {
    other in rows && other != id && rows[other].status.Syncing?
  }

  /** What the query for an interrupted batch can return. */
  ghost predicate Found(rows: Rows, id: BatchId, other: Option<BatchId>) {
    if other.Some? then Interrupted(rows, id, other.value) else forall b | b in rows :: !Interrupted(rows, id, b)
  }

  /**
   sync_batch. `copy` is the caller's object for `id`; it is reloaded when its status is out of date. The
   interrupted batch that the query returns is worked on as the session's object `cached`, if it has one.
   */
  function SyncEffect(rows: Rows, id: BatchId, copy: Row, other: Option<BatchId>, cached: Option<Row>, a: Attempt): Effect
    requires id in rows && (other.Some? ==> other.value in rows)
  {
    if Finished(rows[id].status) || Reviewing(rows) then Effect(rows, [])
    else if other.Some? then SyncLocked(rows, other.value, if cached.Some? then cached.value else rows[other.value], a)
    else SyncLocked(rows, id, if copy.status != rows[id].status then rows[id] else copy, a)
  }

  predicate SyncRaises(rows: Rows, id: BatchId, copy: Row, other: Option<BatchId>, cached: Option<Row>, a: Attempt)
    requires id in rows && (other.Some? ==> other.value in rows)
  {
    && !Finished(rows[id].status) && !Reviewing(rows)
    && LockedRaises(if other.Some? then (if cached.Some? then cached.value else rows[other.value])
                    else if copy.status != rows[id].status then rows[id] else copy, a)
  }

  /** reconcile_batch: an operator looked in Tally. `referenced`: a usable voucher reference was entered. */
  function ReconcileEffect(rows: Rows, id: BatchId, imported: bool, referenced: bool): Effect
    requires id in rows
  {
    if (imported && !referenced) || !rows[id].status.ReviewRequired? then Effect(rows, [])
    else if imported then Effect(rows[id := rows[id].(status := Synced, startedAt := None)], [FoundPresent(id)])
    else Effect(rows[id := rows[id].(status := PendingSync, startedAt := None, retryCount := 0)], [FoundAbsent(id)])
  }

  // ---------------------------------------------------------------- the queue as objects

  /** The batches table and the history of what was sent. */
  class Queue {
    var rows: Rows
    ghost var log: seq<Entry>

    constructor ()
      ensures rows == map[] && log == []
    {
      rows := map[];
      log := [];
    }

    /** Commits the changed fields of one loaded batch; false when the process died first. */
    method Commit(id: BatchId, loaded: Row, changed: Row, a: Attempt)
      requires id in rows
      modifies this
      ensures rows == Saved(old(rows), id, loaded, changed, a).rows && log == old(log)
    {
      if !a.death.BeforeCommit? {
        rows := rows[id := Merged(rows[id], loaded, changed)];
      }
    }

    /** What post_to_tally makes of Tally's answer. */
    method Post(id: BatchId, row: Row, request: Request, a: Attempt) returns (verdict: Verdict)
      requires row.remoteId.Some?
      modifies this`log
      ensures verdict == Classify(a.reply)
      ensures log == old(log) + (if a.reply.BadUrl? then [] else [Sent(id, row.remoteId.value, request, a.reply, a.imported)])
    {
      if a.reply.BadUrl? {
        return Rejected(false);
      }
      log := log + [Sent(id, row.remoteId.value, request, a.reply, a.imported)];
      if a.reply.Refused? {
        return Rejected(true);
      }
      if !a.reply.Parsed? {
        return Unknown;
      }
      var changed := CountOf(a.reply.created) + CountOf(a.reply.altered);
      if a.reply.lineErrors {
        return if changed > 0 then Unknown else Rejected(false);
      }
      if changed > 0 && (CountOf(a.reply.exceptions) > 0 || CountOf(a.reply.errors) > 0) {
        return Unknown;
      }
      if changed < 1 {
        return if a.reply.created.None? && a.reply.altered.None? then Unknown else Rejected(false);
      }
      return Imported;
    }

    /** `raised`: an exception went past the queue. */
    method SyncBatchLocked(id: BatchId, copy: Row, a: Attempt) returns (raised: bool)
      requires id in rows
      modifies this
      ensures raised <==> LockedRaises(copy, a)
      ensures var effect := SyncLocked(old(rows), id, copy, a); rows == effect.rows && log == old(log) + effect.log
    {
      var batch := copy;
      if batch.status.Syncing? && batch.startedAt.Some? && batch.startedAt.value > a.now - SYNC_LEASE_SECONDS {
        return false;
      }
      if batch.status.Syncing? {
        batch := batch.(status := ReviewRequired, startedAt := None);
        Commit(id, copy, batch, a);
        return false;
      }
      if batch.status.PendingSync? || batch.status.Failed? {
        batch := batch.(retryCount := batch.retryCount + 1, lastRetryAt := Some(a.now));
      }
      if batch.kind.SelfClosing? {
        batch := batch.(status := Closed);
        Commit(id, copy, batch, a);
        return false;
      }
      if batch.kind.WithoutVoucher? {
        batch := batch.(status := PendingSync);
        Commit(id, copy, batch, a);
        return false;
      }
      if batch.remoteId.None? {
        batch := batch.(remoteId := Some(a.newRemoteId));
      }
      var xml: Request;
      if batch.status.Failed? || batch.request.None? {
        if a.build.BuildCrashed? {
          return true;
        }
        if a.build.BuildRejected? {
          batch := batch.(status := PendingSync);
          Commit(id, copy, batch, a);
          return false;
        }
        xml := a.build.request;
      } else {
        xml := batch.request.value;
      }
      if !a.enabled {
        batch := batch.(status := PendingSync, request := Some(xml));
        Commit(id, copy, batch, a);
        return false;
      }
      assert batch == Named(copy, a) && RequestFor(copy, a) == Built(xml);
      PostClaimed(id, copy, batch, xml, a);
      return false;
    }

    /** The second half of the source's function: claim, post, record. */
    method PostClaimed(id: BatchId, copy: Row, named: Row, xml: Request, a: Attempt)
      requires id in rows && named == Named(copy, a)
      modifies this
      ensures var effect := ClaimAndPost(old(rows), id, copy, xml, a); rows == effect.rows && log == old(log) + effect.log
    {
      if a.death.BeforeCommit? || rows[id].status != copy.status {
        return;
      }
      var batch := rows[id].(status := Syncing, remoteId := named.remoteId, request := Some(xml),
                             startedAt := Some(a.now), retryCount := named.retryCount,
                             lastRetryAt := named.lastRetryAt);
      rows := rows[id := batch];
      if a.death.AfterClaim? {
        return;
      }
      var verdict := Post(id, batch, xml, a);
      if a.death.AfterPost? {
        return;
      }
      if verdict.Imported? {
        batch := batch.(status := Synced);
      } else if verdict.Unknown? {
        batch := batch.(status := ReviewRequired);
      } else if verdict.retryable && !copy.status.Failed? && batch.retryCount < MAX_AUTOMATIC_TALLY_RETRIES {
        batch := batch.(status := PendingSync);
      } else {
        batch := batch.(status := Failed);
      }
      batch := batch.(startedAt := None);
      rows := rows[id := batch];
      log := log + [Recorded(id, a.reply)];
    }

    method SyncBatch(id: BatchId, copy: Row, cached: map<BatchId, Row>, a: Attempt) returns (ghost other: Option<BatchId>, raised: bool)
      requires id in rows
      modifies this
      ensures Found(old(rows), id, other)
      ensures var held := if other.Some? && other.value in cached then Some(cached[other.value]) else None;
              var effect := SyncEffect(old(rows), id, copy, other, held, a);
              && rows == effect.rows && log == old(log) + effect.log
              && (raised <==> SyncRaises(old(rows), id, copy, other, held, a))
      ensures raised ==> rows == old(rows) && log == old(log)
    {
      var current := rows[id].status;
      var interrupted: Option<BatchId> := None;
      if exists b | b in rows :: Interrupted(rows, id, b) {
        var b :| b in rows && Interrupted(rows, id, b);
        interrupted := Some(b);
      }
      other, raised := interrupted, false;
      if current.Synced? || current.Closed? || current.ReviewRequired? {
        return;
      }
      if Reviewing(rows) {
        return;
      }
      if interrupted.Some? {
        raised := SyncBatchLocked(interrupted.value, if interrupted.value in cached then cached[interrupted.value] else rows[interrupted.value], a);
        return;
      }
      var batch := copy;
      if current != batch.status {
        batch := rows[id];
      }
      raised := SyncBatchLocked(id, batch, a);
    }

    method ReconcileBatch(id: BatchId, imported: bool, referenced: bool) returns (accepted: bool)
      requires id in rows
      modifies this
      ensures var effect := ReconcileEffect(old(rows), id, imported, referenced); rows == effect.rows && log == old(log) + effect.log
      ensures accepted <==> old(rows)[id].status.ReviewRequired? && (imported ==> referenced)
    {
      if imported && !referenced {
        return false;
      }
      if !rows[id].status.ReviewRequired? {
        return false;
      }
      var batch := rows[id].(status := if imported then Synced else PendingSync, startedAt := None);
      if !imported {
        batch := batch.(retryCount := 0);
      }
      rows := rows[id := batch];
      log := log + [if imported then FoundPresent(id) else FoundAbsent(id)];
      return true;
    }
  }
}
