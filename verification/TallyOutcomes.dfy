/** What a call makes of a batch and of Tally's answer (app/services/tally.py, _sync_batch_locked). */
module TallyOutcomes {
  import opened Records
  import opened TallyQueue
  import opened TallyQueueTheorems
  import opened TallyRetryTheorems
  import QF = TallyFrozenTheorems

  // ---------------------------------------------------------------- the recorded answer

  /**
   The status that an answer leaves, from what the answer shows: imported, not imported, or neither. `claimed`
   is the status in which the batch was claimed, `tries` its retry count after the call.
   */
  ghost predicate Leaves(reply: Reply, claimed: QueueStatus, tries: nat, status: QueueStatus) {
    && (status.Synced? <==> ShowsImported(reply))
    && (status.ReviewRequired? <==> !ShowsImported(reply) && !ShowsNotImported(reply))
    && (status.PendingSync? <==> reply.Refused? && !claimed.Failed? && tries < 3)
    && (status.Failed? <==> ShowsNotImported(reply) && !(reply.Refused? && !claimed.Failed? && tries < 3))
  }

  /** A call on a pending or failed batch counts as a retry. */
  function Counted(row: Row): nat {
    row.retryCount + if row.status.PendingSync? || row.status.Failed? then 1 else 0
  }

  ghost predicate Answered(effect: Effect, id: BatchId) {
    effect.log != [] && effect.log[|effect.log| - 1].Recorded? && effect.log[|effect.log| - 1].batch == id
  }

  lemma AnswerOutcome(rows: Rows, id: BatchId, copy: Row, a: Attempt)
    requires id in rows && Answered(SyncLocked(rows, id, copy, a), id)
    ensures var effect := SyncLocked(rows, id, copy, a);
            var next, answer := effect.rows[id], effect.log[|effect.log| - 1];
            && rows[id].status == copy.status && answer.reply == a.reply
            && next == rows[id].(status := next.status, retryCount := Counted(copy), lastRetryAt := next.lastRetryAt,
                                 remoteId := next.remoteId, request := next.request, startedAt := None)
            && Leaves(answer.reply, copy.status, next.retryCount, next.status)
  {
    ClassifyExact(a.reply);
    hide Classify, LeaseHeld;
  }

  lemma OnlyOwnAnswers(rows: Rows, id: BatchId, copy: Row, a: Attempt)
    requires id in rows
    ensures var log := SyncLocked(rows, id, copy, a).log; forall i :: 0 <= i < |log| && log[i].Recorded? ==> log[i].batch == id
  {
    hide Classify, LeaseHeld, Settled;
  }

  /** The last entry of the history is an answer that this action recorded. */
  ghost predicate JustAnswered(before: Effect, after: Effect) {
    |before.log| < |after.log| && after.log[|after.log| - 1].Recorded?
  }

  /**
   Whenever an action of a run records an answer, the batch ends in the status that the answer shows, from
   the status that it had before, with the retry count that it has then.
   */
  lemma AnswerSettles(actions: seq<Action>, action: Action)
    requires JustAnswered(Run(EMPTY, actions), Step(Run(EMPTY, actions), action))
    ensures var before, after := Run(EMPTY, actions), Step(Run(EMPTY, actions), action);
            var answer := after.log[|after.log| - 1];
            && answer.batch in before.rows && answer.batch in after.rows
            && Leaves(answer.reply, before.rows[answer.batch].status, after.rows[answer.batch].retryCount, after.rows[answer.batch].status)
  {
    RunKeeps(actions);
    var before := Run(EMPTY, actions);
    hide Run, SyncLocked, Leaves, Inv;
    if Admissible(before.rows, action) && action.Sync? {
      if Finished(before.rows[action.id].status) || Reviewing(before.rows) {
        QF.IdleStep(before, action);
      } else {
        var target := Target(action);
        QF.WorkStep(before, action, target);
        var held := QF.Held(before.rows, action);
        var effect := SyncLocked(before.rows, target, held, action.attempt);
        hide Step;
        assert effect.log != [];
        OnlyOwnAnswers(before.rows, target, held, action.attempt);
        var after, answer := Step(before, action), effect.log[|effect.log| - 1];
        assert after.log[|after.log| - 1] == answer;
        assert Answered(effect, target);
        QF.AnyWork(before.rows, target, held, action.attempt);
        AnswerOutcome(before.rows, target, held, action.attempt);
      }
    }
  }

  // ---------------------------------------------------------------- a rejection is final for the worker

  /** The worker by itself leaves a FAILED batch alone. */
  lemma {:induction false} FailedStays(start: Effect, actions: seq<Action>, b: BatchId)
    requires WorkerRun(start, actions) && b in start.rows && start.rows[b].status.Failed?
    ensures var end := Run(start, actions);
            b in end.rows && end.rows[b] == start.rows[b] && PostCount(end.log, b) == PostCount(start.log, b)
  {
    hide Step, WorkerAction, PostCount;
    if actions != [] {
      var init := actions[..|actions| - 1];
      FailedStays(start, init, b);
      FailedLeft(Run(start, init), actions[|actions| - 1], b);
    }
  }

  lemma FailedLeft(state: Effect, action: Action, b: BatchId)
    requires WorkerAction(state.rows, action) && b in state.rows && state.rows[b].status.Failed?
    ensures var next := Step(state, action);
            b in next.rows && next.rows[b] == state.rows[b] && PostCount(next.log, b) == PostCount(state.log, b)
  {
    hide SyncLocked, PostCount;
    FreshStep(state, action);
    hide Step;
    if !(Finished(state.rows[action.id].status) || Reviewing(state.rows)) {
      TargetStatus(state, action);
      var target := Target(action);
      FreshFields(state.rows, target, action.attempt);
      LastSentMore(state.log, SyncLocked(state.rows, target, state.rows[target], action.attempt).log, b);
    }
  }

  /**
   After Tally rejected a voucher, other than by refusing the connection, the worker by itself never posts it
   again; nor after the third refused connection, nor after a refusal of a batch that was FAILED before.
   */
  lemma RejectedForGood(actions: seq<Action>, action: Action, worker: seq<Action>)
    requires JustAnswered(Run(EMPTY, actions), Step(Run(EMPTY, actions), action))
    requires var before, after := Run(EMPTY, actions), Step(Run(EMPTY, actions), action);
             var answer := after.log[|after.log| - 1];
             && ShowsNotImported(answer.reply)
             && (answer.reply.Refused? ==>
                   answer.batch in before.rows && answer.batch in after.rows
                   && (before.rows[answer.batch].status.Failed? || after.rows[answer.batch].retryCount >= 3))
    requires WorkerRun(Step(Run(EMPTY, actions), action), worker)
    ensures var after := Step(Run(EMPTY, actions), action);
            var b, end := after.log[|after.log| - 1].batch, Run(after, worker);
            && b in end.rows && end.rows[b].status.Failed? && PostCount(end.log, b) == PostCount(after.log, b)
  {
    AnswerSettles(actions, action);
    var after := Step(Run(EMPTY, actions), action);
    hide Step, PostCount, WorkerRun, Run;
    FailedStays(after, worker, after.log[|after.log| - 1].batch);
  }

  // ---------------------------------------------------------------- calls that do not post

  /** What a call on a row as it is leaves of it, when it does not reach Tally and the process survives. */
  lemma QuietOutcome(rows: Rows, id: BatchId, a: Attempt)
    requires id in rows && !Finished(rows[id].status) && a.death.Survives?
    requires a.enabled ==> rows[id].status.Syncing? || !rows[id].kind.Voucher?
                           || ((rows[id].status.Failed? || rows[id].request.None?) && !a.build.Built?)
    ensures var row, effect := rows[id], SyncLocked(rows, id, rows[id], a);
            var counted := row.(retryCount := Counted(row),
                                lastRetryAt := if Counted(row) > row.retryCount then Some(a.now) else row.lastRetryAt);
            var named := counted.(remoteId := if row.remoteId.Some? then row.remoteId else Some(a.newRemoteId));
            && effect.log == [] && effect.rows == rows[id := effect.rows[id]]
            && effect.rows[id] ==
                 if row.status.Syncing? then
                   (if row.startedAt.Some? && a.now - row.startedAt.value < 600 then row else row.(status := ReviewRequired, startedAt := None))
                 else
                   match row.kind
                   case SelfClosing => counted.(status := Closed)
                   case WithoutVoucher => counted.(status := PendingSync)
                   case Voucher =>
                     if row.request.Some? && !row.status.Failed? then named.(status := PendingSync)
                     else
                       match a.build
                       case BuildCrashed => row
                       case BuildRejected => named.(status := PendingSync)
                       case Built(request) => named.(status := PendingSync, request := Some(request))
  {
  }

  /** What a posting call claims and sends: its frozen request, or after a rejection one built anew. */
  lemma PostOutcome(rows: Rows, id: BatchId, a: Attempt)
    requires id in rows && rows[id].kind.Voucher? && Postable(rows[id].status) && a.enabled && !a.death.BeforeCommit?
    requires a.build.Built?
    ensures var row, effect := rows[id], SyncLocked(rows, id, rows[id], a);
            var next := effect.rows[id];
            && next.retryCount == Counted(row) && next.lastRetryAt == (if Counted(row) > row.retryCount then Some(a.now) else row.lastRetryAt)
            && next.remoteId == (if row.remoteId.Some? then row.remoteId else Some(a.newRemoteId))
            && next.request == (if row.status.Failed? || row.request.None? then Some(a.build.request) else row.request)
            && (a.death.AfterClaim? || a.death.AfterPost? ==> next.status.Syncing? && next.startedAt == Some(a.now))
            && (a.death.AfterClaim? ==> effect.log == [])
            && (!a.death.AfterClaim? && !a.reply.BadUrl? ==>
                  |effect.log| > 0 && effect.log[0] == Sent(id, next.remoteId.value, next.request.value, a.reply, a.imported))
            && (a.death.Survives? ==> Answered(effect, id))
  {
    hide Classify, Settled;
  }

  // ---------------------------------------------------------------- which batch a call works on

  /** Only the batch's own row may differ, and only it is mentioned in what the call adds to the history. */
  ghost predicate OnlyTouches(rows: Rows, effect: Effect, id: BatchId) {
    && effect.rows.Keys == rows.Keys && (forall b | b in rows && b != id :: effect.rows[b] == rows[b])
    && forall i :: 0 <= i < |effect.log| ==> effect.log[i].batch == id
  }

  lemma LockedTouches(rows: Rows, id: BatchId, copy: Row, a: Attempt)
    requires id in rows
    ensures OnlyTouches(rows, SyncLocked(rows, id, copy, a), id)
  {
    hide Classify, Settled, LeaseHeld;
  }

  /**
   A call for a finished batch, or while any batch awaits review, does nothing. Otherwise it works on the interrupted
   batch that the query returned, if there is one, and else on its own, and touches no other.
   */
  lemma CallOutcome(rows: Rows, id: BatchId, copy: Row, other: Option<BatchId>, cached: Option<Row>, a: Attempt)
    requires id in rows && Found(rows, id, other)
    ensures var effect := SyncEffect(rows, id, copy, other, cached, a);
            var idle := rows[id].status in {Synced, QueueStatus.Closed, ReviewRequired}
                        || exists b :: b in rows && rows[b].status == ReviewRequired;
            && (idle ==> effect == Effect(rows, []))
            && (!idle && other == None ==>
                  OnlyTouches(rows, effect, id) && forall b | b in rows && b != id :: rows[b].status != Syncing)
            && (!idle && other != None ==>
                  OnlyTouches(rows, effect, other.value) && other.value != id && rows[other.value].status == Syncing)
            && (!idle && other == None && (copy.status != rows[id].status || copy == rows[id]) ==>
                  effect == SyncLocked(rows, id, rows[id], a))
  {
    hide SyncLocked, OnlyTouches;
    if other.Some? {
      LockedTouches(rows, other.value, if cached.Some? then cached.value else rows[other.value], a);
    } else {
      assert forall b | b in rows && b != id :: !Interrupted(rows, id, b);
      LockedTouches(rows, id, if copy.status != rows[id].status then rows[id] else copy, a);
    }
  }

  /** An operator's finding ends a review and nothing else: present means SYNCED, absent means pending with no retries. */
  lemma FindingOutcome(rows: Rows, id: BatchId, imported: bool, referenced: bool)
    requires id in rows
    ensures var effect := ReconcileEffect(rows, id, imported, referenced);
            if rows[id].status == ReviewRequired && (imported ==> referenced) then
              && OnlyTouches(rows, effect, id)
              && effect.log == [if imported then FoundPresent(id) else FoundAbsent(id)]
              && effect.rows[id] == Row(rows[id].kind, rows[id].createdAt, if imported then Synced else PendingSync,
                                        if imported then rows[id].retryCount else 0, rows[id].lastRetryAt, rows[id].remoteId,
                                        rows[id].request, None)
            else effect == Effect(rows, [])
  {
  }
}
