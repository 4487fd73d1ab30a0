/**
 Master and its Tally queue as one system: ingestion enters a batch into the queue when it creates it
 (app/services/network_ingest.py, app/services/tally.py).
 */
module MasterQueue {
  import opened Records
  import opened NetworkDb
  import opened NetworkIngest
  import opened QrAllocation
  import opened QrReplacementIntent
  import opened TallyProducts
  import opened LedgerInvariants
  import opened Frames
  import M = MasterSystem
  import E = ExactlyOnce
  import Q = TallyQueue
  import QT = TallyQueueTheorems
  import QR = TallyRetryTheorems
  import QF = TallyFrozenTheorems

  // ---------------------------------------------------------------- which events have a batch

  /** The event kinds that are mirrored as a batch. */
  predicate Books(kind: EventType) {
    || kind.Purchase? || kind.Receive? || kind.Sale? || kind.SalesReturn? || kind.SupplierReturn? || kind.Issue? || kind.Audit?
  }

  /** The batches are those of the journalled events of these kinds. */
  ghost predicate Mirrored(db: Db) {
    && db.batches.Keys <= db.journal.Keys
    && forall e | e in db.journal ::
         && (e in db.batches <==> Books(db.journal[e].event.kind))
         && (e in db.batches ==> db.batches[e] == NewBatch(db.journal[e].node, db.journal[e].event))
  }

  lemma ApplyBatches(db: Db, n: NodeCode, e: Event)
    requires n in db.nodes && WellShaped(e) && ApplyEvent(db, n, e).Ok?
    ensures ApplyEvent(db, n, e).value.0.batches == if Books(e.kind) then db.batches[e.id := NewBatch(n, e)] else db.batches
  {
    hide Snapshot, Inventory, Dispatch, ReceiveTransfer, InRange, ValidHeader, NewBatch, ProductsGrow, SameReplacements;
    match e.kind {
      case StockSnapshot => SnapshotFrame(db, n, e);
      case TransferDispatched => DispatchQuiet(db, n, e);
      case TransferReceived => ReceiveQuiet(db, n, e);
      case ReceiptSubmitted =>
      case Heartbeat =>
      case _ => InventoryFrame(db, n, e);
    }
  }

  lemma OneBooked(db: Db, next: Db, e: Uuid, entry: Inbound)
    requires Mirrored(db) && e !in db.journal && next.journal == db.journal[e := entry]
    requires next.batches == if Books(entry.event.kind) then db.batches[e := NewBatch(entry.node, entry.event)] else db.batches
    ensures Mirrored(next)
  {
    hide NewBatch, Books;
    assert e !in db.journal.Keys && e !in db.batches.Keys;
  }

  lemma AcceptBooks(db: Db, n: NodeCode, now: int, e: Event)
    requires Mirrored(db) && n in db.nodes && WellShaped(e) && e.id !in db.journal && AcceptEvent(db, n, now, e).Ok?
    ensures Mirrored(AcceptEvent(db, n, now, e).value.0)
  {
    ApplyBatches(db, n, e);
    hide ApplyEvent, NewBatch, SequenceUsed, WellShaped, Mirrored, Books;
    var (next, ack) := AcceptEvent(db, n, now, e).value;
    OneBooked(db, next, e.id, Inbound(n, e, ack));
  }

  lemma {:induction false} IngestBooks(db: Db, n: NodeCode, now: int, events: seq<Event>)
    requires Mirrored(db) && n in db.nodes && E.AllShaped(events) && IngestEvents(db, n, now, events).Ok?
    ensures Mirrored(IngestEvents(db, n, now, events).value.0)
    decreases |events|
  {
    hide Mirrored, AcceptEvent, WellShaped;
    if events != [] {
      if events[0].id !in db.journal {
        AcceptBooks(db, n, now, events[0]);
      }
      IngestBooks(IngestEvent(db, n, now, events[0]).value.0, n, now, events[1..]);
    }
  }

  lemma StepBooks(db: Db, a: M.Action)
    requires Mirrored(db)
    ensures Mirrored(M.Step(db, a)) && E.JournalKept(db, M.Step(db, a))
  {
    E.StepKeepsJournal(db, a);
    if a.Post? {
      hide IngestEvents, Mirrored;
      if M.Admissible(db, a) && IngestEvents(db, a.node, a.now, a.events).Ok? {
        IngestBooks(db, a.node, a.now, a.events);
      }
    } else {
      E.StepJournalSame(db, a);
      StepFrame(db, a);
      hide M.Step;
    }
  }

  /** A batch stays as ingestion created it. */
  lemma BatchesStay(db: Db, next: Db, b: Uuid)
    requires Mirrored(db) && Mirrored(next) && E.JournalKept(db, next) && b in db.batches
    ensures b in next.batches && next.batches[b] == db.batches[b]
  {
    assert b in db.journal.Keys;
    hide NewBatch;
  }

  // ---------------------------------------------------------------- the joined system

  datatype World = World(db: Db, queue: Q.Effect)

  /** An action of Master, or a call or finding of the queue. */
  datatype Move = Master(request: M.Action) | Queue(call: QT.Action)

  function KindOf(kind: EventType): Q.Kind {
    if PostsToTally(kind) then Q.Voucher else if kind.Audit? then Q.SelfClosing else Q.WithoutVoucher
  }

  /** The queue's columns of a new batch. Its REMOTEID is the event's id. */
  function RowOf(e: Uuid, inbound: Inbound): Q.Row {
    Q.Row(KindOf(inbound.event.kind), inbound.acknowledgement.receivedAt,
          if PostsToTally(inbound.event.kind) then Q.PendingSync else Q.Closed, 0, None, Some(e), None, None)
  }

  /** The rows of the batches that were created between the two states. */
  function NewRows(db: Db, next: Db): Q.Rows {
    map b | b in next.batches && b !in db.batches && b in next.journal :: RowOf(b, next.journal[b])
  }

  ghost function Step(w: World, m: Move): World {
    match m
    case Master(a) =>
      var next := M.Step(w.db, a);
      World(next, w.queue.(rows := w.queue.rows + NewRows(w.db, next)))
    case Queue(a) => if a.Enqueue? then w else w.(queue := QT.Step(w.queue, a))
  }

  ghost function Run(moves: seq<Move>): World {
    if moves == [] then World(EMPTY_DB, QT.EMPTY) else Step(Run(moves[..|moves| - 1]), moves[|moves| - 1])
  }

  /** Master's part of a run. */
  function Requests(moves: seq<Move>): seq<M.Action> {
    if moves == [] then []
    else
      var before := Requests(moves[..|moves| - 1]);
      if moves[|moves| - 1].Master? then before + [moves[|moves| - 1].request] else before
  }

  /** Master does not notice the queue. */
  lemma {:induction false} DbIsRun(moves: seq<Move>)
    ensures Run(moves).db == M.Run(EMPTY_DB, Requests(moves))
  {
    hide M.Step, QT.Step, NewRows;
    if moves != [] {
      DbIsRun(moves[..|moves| - 1]);
      var before := Requests(moves[..|moves| - 1]);
      assert moves[|moves| - 1].Master? ==> (before + [moves[|moves| - 1].request])[..|before|] == before;
    }
  }

  // ---------------------------------------------------------------- the queue's part is a run of the queue

  lemma EnqueueOne(state: Q.Effect, b: Q.BatchId, row: Q.Row)
    requires b !in state.rows && QT.NewRow(row)
    ensures QT.Step(state, QT.Enqueue(b, row)) == state.(rows := state.rows[b := row])
  {
  }

  lemma WithoutOne(news: Q.Rows, b: Q.BatchId)
    requires b in news
    ensures var rest := news - {b};
            && news == rest[b := news[b]] && b !in rest && rest.Keys == news.Keys - {b}
            && forall x | x in rest :: x in news && rest[x] == news[x]
  {
  }

  lemma AddOne(rows: Q.Rows, rest: Q.Rows, b: Q.BatchId, row: Q.Row)
    ensures (rows + rest)[b := row] == rows + rest[b := row]
  {
  }

  lemma QueueSnoc(state: Q.Effect, before: seq<QT.Action>, action: QT.Action)
    ensures QT.Run(state, before + [action]) == QT.Step(QT.Run(state, before), action)
  {
    hide QT.Step;
    assert (before + [action])[..|before|] == before;
  }

  /** Entering rows one by one. */
  lemma {:induction false} EnqueueAll(state: Q.Effect, news: Q.Rows) returns (actions: seq<QT.Action>)
    requires news.Keys !! state.rows.Keys && forall b | b in news :: QT.NewRow(news[b])
    ensures QT.Run(state, actions) == state.(rows := state.rows + news)
    decreases |news.Keys|
  {
    hide QT.Step, QT.NewRow;
    if news == map[] {
      actions := [];
      assert state.rows + news == state.rows;
    } else {
      hide QT.Run;
      var b :| b in news.Keys;
      var row, rest := news[b], news - {b};
      WithoutOne(news, b);
      var before := EnqueueAll(state, rest);
      actions := before + [QT.Enqueue(b, row)];
      var mid := QT.Run(state, before);
      QueueSnoc(state, before, QT.Enqueue(b, row));
      assert b !in mid.rows by { assert b !in state.rows.Keys; }
      EnqueueOne(mid, b, row);
      AddOne(state.rows, rest, b, row);
    }
  }

  lemma {:induction false} QueueJoins(state: Q.Effect, a: seq<QT.Action>, b: seq<QT.Action>)
    ensures QT.Run(state, a + b) == QT.Run(QT.Run(state, a), b)
  {
    hide QT.Step;
    if b == [] {
      assert a + b == a;
    } else {
      assert (a + b)[..|a + b| - 1] == a + b[..|b| - 1];
      QueueJoins(state, a, b[..|b| - 1]);
    }
  }

  /** The queue has a row for each batch, of the batch's kind. */
  ghost predicate Joined(w: World) {
    && Mirrored(w.db)
    && w.queue.rows.Keys == w.db.batches.Keys
    && forall b | b in w.queue.rows && b in w.db.batches :: w.queue.rows[b].kind == KindOf(w.db.batches[b].kind)
  }

  /** What a call or finding does to the rows' keys and kinds. */
  lemma StepRows(state: Q.Effect, a: QT.Action, b: Q.BatchId)
    requires QT.Inv(state) && !a.Enqueue?
    ensures QT.Step(state, a).rows.Keys == state.rows.Keys
    ensures b in state.rows ==> QT.Step(state, a).rows[b].kind == state.rows[b].kind
  {
    hide QT.Uncertain, Q.SyncLocked;
    if QT.Admissible(state.rows, a) && a.Sync? {
      if Q.Finished(state.rows[a.id].status) || Q.Reviewing(state.rows) {
        QF.IdleStep(state, a);
      } else {
        var target := QR.Target(a);
        QF.WorkStep(state, a, target);
        QF.AnyWork(state.rows, target, QF.Held(state.rows, a), a.attempt);
      }
    }
  }

  lemma MasterJoined(w: World, a: M.Action)
    requires Joined(w)
    ensures Joined(Step(w, Master(a))) && NewRows(w.db, M.Step(w.db, a)).Keys !! w.queue.rows.Keys
  {
    StepBooks(w.db, a);
    var next := M.Step(w.db, a);
    hide M.Step, QT.Step, Mirrored, E.JournalKept;
    RowsJoined(w, next);
  }

  lemma RowsJoined(w: World, next: Db)
    requires Joined(w) && Mirrored(next) && E.JournalKept(w.db, next)
    ensures Joined(World(next, w.queue.(rows := w.queue.rows + NewRows(w.db, next))))
    ensures NewRows(w.db, next).Keys !! w.queue.rows.Keys
  {
    var news := NewRows(w.db, next);
    forall b ensures b in next.batches <==> b in w.db.batches || b in news {
      if b in w.db.batches {
        BatchesStay(w.db, next, b);
      } else if b in next.batches {
        assert b in next.journal.Keys;
      }
    }
    forall b | b in next.batches ensures (w.queue.rows + news)[b].kind == KindOf(next.batches[b].kind) {
      if b in w.db.batches {
        BatchesStay(w.db, next, b);
      }
    }
  }

  /** The joined invariant, and the queue's part as a run of the queue. */
  lemma {:induction false} QueueIsRun(moves: seq<Move>) returns (actions: seq<QT.Action>)
    ensures Run(moves).queue == QT.Run(QT.EMPTY, actions) && Joined(Run(moves))
  {
    hide M.Step, QT.Step, Joined, NewRows;
    if moves == [] {
      actions := [];
      assert Joined(World(EMPTY_DB, QT.EMPTY)) by { EmptyJoined(); }
    } else {
      var before := QueueIsRun(moves[..|moves| - 1]);
      var w, m := Run(moves[..|moves| - 1]), moves[|moves| - 1];
      match m {
        case Master(a) =>
          MasterJoined(w, a);
          var news := NewRows(w.db, M.Step(w.db, a));
          NewRowsNew(w.db, M.Step(w.db, a));
          var more := EnqueueAll(w.queue, news);
          QueueJoins(QT.EMPTY, before, more);
          actions := before + more;
        case Queue(a) =>
          if a.Enqueue? {
            actions := before;
          } else {
            QT.RunKeeps(before);
            QueueJoined(w, a);
            actions := before + [a];
            assert actions[..|before|] == before;
          }
      }
    }
  }

  lemma NewRowsNew(db: Db, next: Db)
    ensures forall b | b in NewRows(db, next) :: QT.NewRow(NewRows(db, next)[b])
  {
  }

  lemma EmptyJoined()
    ensures Joined(World(EMPTY_DB, QT.EMPTY))
  {
  }

  lemma QueueJoined(w: World, a: QT.Action)
    requires Joined(w) && QT.Inv(w.queue) && !a.Enqueue?
    ensures Joined(w.(queue := QT.Step(w.queue, a)))
  {
    forall b ensures QT.Step(w.queue, a).rows.Keys == w.queue.rows.Keys
             ensures b in w.queue.rows ==> QT.Step(w.queue, a).rows[b].kind == w.queue.rows[b].kind
    {
      StepRows(w.queue, a, b);
    }
    hide QT.Step, Mirrored;
  }

  function AsMoves(requests: seq<M.Action>): (moves: seq<Move>)
    ensures |moves| == |requests|
  {
    seq(|requests|, i requires 0 <= i < |requests| => Master(requests[i]))
  }

  /** While the queue was not worked on, every row is as it was entered. */
  lemma {:induction false} Unworked(requests: seq<M.Action>)
    ensures var w := Run(AsMoves(requests));
            && w.db == M.Run(EMPTY_DB, requests) && Joined(w)
            && forall b | b in w.queue.rows :: b in w.db.journal && w.queue.rows[b] == RowOf(b, w.db.journal[b])
  {
    var moves := AsMoves(requests);
    hide M.Step, Joined;
    if requests == [] {
      EmptyJoined();
    } else {
      var init := requests[..|requests| - 1];
      Unworked(init);
      assert moves[..|moves| - 1] == AsMoves(init);
      var w, a := Run(AsMoves(init)), requests[|requests| - 1];
      MasterJoined(w, a);
      E.StepKeepsJournal(w.db, a);
      hide RowOf;
    }
  }

  // ---------------------------------------------------------------- what is posted

  /** Only vouchers that are in the queue were ever posted. */
  ghost predicate SentKnown(state: Q.Effect) {
    forall i | 0 <= i < |state.log| && state.log[i].Sent? ::
      state.log[i].batch in state.rows && state.rows[state.log[i].batch].kind.Voucher?
  }

  lemma StepSentKnown(state: Q.Effect, a: QT.Action)
    requires QT.Inv(state) && SentKnown(state)
    ensures SentKnown(QT.Step(state, a))
  {
    hide QT.Uncertain, Q.SyncLocked, QT.Known;
    if QT.Admissible(state.rows, a) && a.Sync? {
      if Q.Finished(state.rows[a.id].status) || Q.Reviewing(state.rows) {
        QF.IdleStep(state, a);
      } else {
        var target := QR.Target(a);
        QF.WorkStep(state, a, target);
        var effect := Q.SyncLocked(state.rows, target, QF.Held(state.rows, a), a.attempt);
        QF.AnyWork(state.rows, target, QF.Held(state.rows, a), a.attempt);
        hide QT.Step, QF.Held, QF.Works;
        assert forall i :: 0 <= i < |effect.log| && effect.log[i].Sent? ==> i == 0;
      }
    }
  }

  lemma {:induction false} RunSentKnown(actions: seq<QT.Action>)
    ensures SentKnown(QT.Run(QT.EMPTY, actions))
  {
    hide QT.Step;
    if actions != [] {
      var init := actions[..|actions| - 1];
      RunSentKnown(init);
      QT.RunKeeps(init);
      hide SentKnown, QT.Inv;
      StepSentKnown(QT.Run(QT.EMPTY, init), actions[|actions| - 1]);
    }
  }

  lemma {:induction false} ImportIsSent(log: seq<Q.Entry>, b: Q.BatchId)
    requires QT.Imports(log, b) > 0
    ensures exists i :: 0 <= i < |log| && log[i].Sent? && log[i].batch == b
  {
    var n := |log| - 1;
    if !(log[n].Sent? && log[n].batch == b) {
      ImportIsSent(log[..n], b);
      var i :| 0 <= i < n && log[..n][i].Sent? && log[..n][i].batch == b;
      assert log[i].Sent?;
    }
  }

  // ---------------------------------------------------------------- main results

  /** One place in the list has the id. */
  ghost predicate OnceIn(ids: seq<Uuid>, e: Uuid) {
    exists i :: 0 <= i < |ids| && ids[i] == e && forall j :: 0 <= j < |ids| && ids[j] == e ==> j == i
  }

  lemma OnceOfDistinct(ids: seq<Uuid>, e: Uuid)
    requires e in ids && forall i, j :: 0 <= i < j < |ids| ==> ids[i] != ids[j]
    ensures OnceIn(ids, e)
  {
    var i :| 0 <= i < |ids| && ids[i] == e;
  }

  lemma AcceptedExactlyOnce(actions: seq<M.Action>, e: Uuid)
    requires e in M.Run(EMPTY_DB, actions).journal
    ensures OnceIn(E.AcceptedIds(E.AllEffects(EMPTY_DB, actions)), e)
  {
    hide E.Leads, M.Run, E.AllEffects, E.AcceptedIds, OnceIn;
    var effects, last := E.AllEffects(EMPTY_DB, actions), M.Run(EMPTY_DB, actions);
    E.FoldOfAccepted(EMPTY_DB, actions);
    E.AcceptedOnce(EMPTY_DB, effects, last);
    var ids := E.AcceptedIds(effects);
    assert e in last.journal.Keys;
    assert e in ids;
    OnceOfDistinct(ids, e);
  }

  /** The vouchers in the queue are those of the accepted events that are posted to Tally. */
  lemma VoucherOfEachEvent(moves: seq<Move>, e: Uuid)
    ensures var w := Run(moves);
            (e in w.queue.rows && w.queue.rows[e].kind.Voucher?)
            <==> (e in w.db.journal && PostsToTally(w.db.journal[e].event.kind))
  {
    var actions := QueueIsRun(moves);
    var w := Run(moves);
    hide Run;
    assert e in w.queue.rows.Keys <==> e in w.db.batches.Keys;
    if e in w.db.batches {
      assert e in w.db.journal.Keys;
    }
  }

  /**
   End to end, with true answers and findings: a voucher that Tally imported is that of an event that was
   accepted, once, and it was imported once. A voucher shown as SYNCED was imported.
   */
  lemma ImportedOncePerEvent(moves: seq<Move>, e: Uuid)
    requires QT.Honest(Run(moves).queue.log)
    ensures var w := Run(moves);
            && QT.Imports(w.queue.log, e) <= 1
            && (QT.Imports(w.queue.log, e) == 1 ==>
                  && e in w.db.journal && PostsToTally(w.db.journal[e].event.kind)
                  && OnceIn(E.AcceptedIds(E.AllEffects(EMPTY_DB, Requests(moves))), e))
            && (e in w.queue.rows && w.queue.rows[e].status.Synced? ==> QT.Imports(w.queue.log, e) == 1)
  {
    var actions := QueueIsRun(moves);
    var w := Run(moves);
    QT.ImportedOnce(actions, e);
    RunSentKnown(actions);
    VoucherOfEachEvent(moves, e);
    DbIsRun(moves);
    hide Run, QT.Run, QT.Honest, Joined, M.Run, OnceIn, E.AllEffects;
    if QT.Imports(w.queue.log, e) > 0 {
      ImportIsSent(w.queue.log, e);
      var i :| 0 <= i < |w.queue.log| && w.queue.log[i].Sent? && w.queue.log[i].batch == e;
      AcceptedExactlyOnce(Requests(moves), e);
    }
  }
}
