/** How often the worker by itself posts a voucher (app/services/sync_worker.py). */
module TallyRetryTheorems {
  import opened Records
  import opened TallyQueue
  import opened TallyQueueTheorems

  // ---------------------------------------------------------------- calls on objects that are up to date

  /** Every call works on the rows as they are. */
  ghost predicate Fresh(rows: Rows, action: Action) {
    action.Sync? && action.id in rows && (action.other.Some? ==> action.other.value in rows) ==>
      && action.copy == rows[action.id]
      && (action.other.Some? && action.cached.Some? ==> action.cached.value == rows[action.other.value])
  }

  /** The batch that a call works on: the interrupted one, if there is one. */
  function Target(action: Action): BatchId
    requires action.Sync?
  {
    if action.other.Some? then action.other.value else action.id
  }

  /** A call changes only the batch that it works on, and works on it as a fresh row. */
  lemma FreshStep(state: Effect, action: Action)
    requires action.Sync? && Admissible(state.rows, action) && Fresh(state.rows, action)
    ensures var next := Step(state, action);
            next == (if Finished(state.rows[action.id].status) || Reviewing(state.rows) then state
                     else var effect := SyncLocked(state.rows, Target(action), state.rows[Target(action)], action.attempt);
                          Effect(effect.rows, state.log + effect.log))
  {
    hide SyncLocked;
    assert state.log + [] == state.log;
  }

  // ---------------------------------------------------------------- the last post

  function LastSent(log: seq<Entry>, id: BatchId): Option<Entry> {
    if log == [] then None
    else if log[|log| - 1].Sent? && log[|log| - 1].batch == id then Some(log[|log| - 1])
    else LastSent(log[..|log| - 1], id)
  }

  function PostCount(log: seq<Entry>, id: BatchId): nat {
    if log == [] then 0
    else PostCount(log[..|log| - 1], id) + (if log[|log| - 1].Sent? && log[|log| - 1].batch == id then 1 else 0)
  }

  lemma LastSentOne(log: seq<Entry>, e: Entry, id: BatchId)
    ensures LastSent(log + [e], id) == if e.Sent? && e.batch == id then Some(e) else LastSent(log, id)
    ensures PostCount(log + [e], id) == PostCount(log, id) + (if e.Sent? && e.batch == id then 1 else 0)
  {
    assert (log + [e])[..|log|] == log;
  }

  /** The one post among a call's entries, if there is one. */
  function SentIn(more: seq<Entry>): Option<Entry> {
    if more != [] && more[0].Sent? then Some(more[0]) else None
  }

  lemma LastSentMore(log: seq<Entry>, more: seq<Entry>, id: BatchId)
    requires |more| <= 2 && (|more| == 2 ==> !more[1].Sent?)
    ensures var sent := SentIn(more);
            && LastSent(log + more, id) == (if sent.Some? && sent.value.batch == id then sent else LastSent(log, id))
            && PostCount(log + more, id) == PostCount(log, id) + (if sent.Some? && sent.value.batch == id then 1 else 0)
  {
    if more == [] {
      assert log + more == log;
    } else if |more| == 1 {
      LastSentOne(log, more[0], id);
      assert log + more == log + [more[0]];
    } else {
      LastSentOne(log, more[0], id);
      LastSentOne(log + [more[0]], more[1], id);
      assert log + more == log + [more[0]] + [more[1]];
    }
  }

  /** What a call on a fresh row does to the REMOTEID, the request and the retry count. */
  ghost predicate FieldsKept(rows: Rows, id: BatchId, effect: Effect, a: Attempt)
    requires id in rows
  {
    effect.rows.Keys == rows.Keys
    && (forall b | b in rows && b != id :: effect.rows[b] == rows[b])
    && var row, next, sent := rows[id], effect.rows[id], SentIn(effect.log);
       && |effect.log| <= 2 && (|effect.log| == 2 ==> !effect.log[1].Sent?)
       && (row.remoteId.Some? ==> next.remoteId == row.remoteId)
       && (row.request.Some? && !row.status.Failed? ==> next.request == row.request)
       && (sent.Some? ==> sent.value.batch == id && next.remoteId == Some(sent.value.remoteId) && next.request == Some(sent.value.request))
       && (sent.Some? ==> next.retryCount == Retried(row, a).retryCount && Postable(row.status))
       && next.retryCount >= row.retryCount
       && (sent.Some? && next.status.PendingSync? ==> next.retryCount < MAX_AUTOMATIC_TALLY_RETRIES)
       && (row.status.Syncing? ==> next == row || next.status.ReviewRequired?)
  }

  lemma SavedFields(rows: Rows, id: BatchId, changed: Row, a: Attempt)
    requires id in rows
    requires rows[id].remoteId.Some? ==> changed.remoteId == rows[id].remoteId
    requires rows[id].request.Some? && !rows[id].status.Failed? ==> changed.request == rows[id].request
    requires changed.retryCount >= rows[id].retryCount
    requires rows[id].status.Syncing? ==> changed.status.ReviewRequired?
    ensures FieldsKept(rows, id, Saved(rows, id, rows[id], changed, a), a)
  {
  }

  lemma ClaimFields(rows: Rows, id: BatchId, request: Request, a: Attempt)
    requires id in rows && Postable(rows[id].status)
    requires rows[id].request.Some? && !rows[id].status.Failed? ==> request == rows[id].request.value
    ensures FieldsKept(rows, id, ClaimAndPost(rows, id, rows[id], request, a), a)
  {
    hide Classify;
  }

  lemma FreshFields(rows: Rows, id: BatchId, a: Attempt)
    requires id in rows && !Finished(rows[id].status)
    ensures FieldsKept(rows, id, SyncLocked(rows, id, rows[id], a), a)
  {
    hide Saved, ClaimAndPost, LeaseHeld, FieldsKept;
    var row := rows[id];
    if row.status.Syncing? {
      SavedFields(rows, id, row.(status := ReviewRequired, startedAt := None), a);
      assert FieldsKept(rows, id, Effect(rows, []), a) by { NothingKept(rows, id, a); }
    } else {
      NothingKept(rows, id, a);
      SavedFields(rows, id, Retried(row, a).(status := Closed), a);
      SavedFields(rows, id, Retried(row, a).(status := PendingSync), a);
      SavedFields(rows, id, Named(row, a).(status := PendingSync), a);
      match RequestFor(row, a) {
        case Built(request) =>
          SavedFields(rows, id, Named(row, a).(status := PendingSync, request := Some(request)), a);
          ClaimFields(rows, id, request, a);
        case _ =>
      }
    }
  }

  lemma NothingKept(rows: Rows, id: BatchId, a: Attempt)
    requires id in rows
    ensures FieldsKept(rows, id, Effect(rows, []), a)
  {
  }

  // ---------------------------------------------------------------- the worker by itself

  /** The worker calls with fresh rows, and never for a batch that is FAILED or was never queued. */
  ghost predicate WorkerAction(rows: Rows, action: Action) {
    && action.Sync? && Admissible(rows, action) && Fresh(rows, action)
    && (rows[action.id].status.PendingSync? || rows[action.id].status.Syncing? || Finished(rows[action.id].status))
  }

  ghost predicate WorkerRun(state: Effect, actions: seq<Action>) {
    actions == []
    || (WorkerRun(state, actions[..|actions| - 1])
        && WorkerAction(Run(state, actions[..|actions| - 1]).rows, actions[|actions| - 1]))
  }

  /** All posts of the batch from entry `from` on carry this request and REMOTEID. */
  ghost predicate AllAlike(log: seq<Entry>, from: nat, id: BatchId, request: Request, remoteId: RemoteId) {
    forall k | from <= k < |log| && log[k].Sent? && log[k].batch == id :: log[k].request == request && log[k].remoteId == remoteId
  }

  /** After `n` posts by the worker. */
  ghost predicate Retrying(start: Effect, state: Effect, id: BatchId) {
    var n := PostCount(state.log, id) - PostCount(start.log, id);
    && start.log <= state.log
    && id in state.rows && 0 <= n <= MAX_AUTOMATIC_TALLY_RETRIES
    && (state.rows[id].status.PendingSync? || state.rows[id].status.Syncing? || state.rows[id].status.Failed? || Finished(state.rows[id].status))
    && (state.rows[id].status.PendingSync? ==> n <= state.rows[id].retryCount && n < MAX_AUTOMATIC_TALLY_RETRIES)
    && (n == 0 ==> AllAlike(state.log, |start.log|, id, 0, 0) && AllAlike(state.log, |start.log|, id, 1, 1))
    && (n > 0 ==> state.rows[id].request.Some? && state.rows[id].remoteId.Some?
                  && AllAlike(state.log, |start.log|, id, state.rows[id].request.value, state.rows[id].remoteId.value))
  }

  lemma AllAlikeMore(log: seq<Entry>, more: seq<Entry>, from: nat, id: BatchId, request: Request, remoteId: RemoteId)
    requires from <= |log| && AllAlike(log, from, id, request, remoteId) && |more| <= 2 && (|more| == 2 ==> !more[1].Sent?)
    requires SentIn(more).Some? && SentIn(more).value.batch == id ==> SentIn(more).value.request == request && SentIn(more).value.remoteId == remoteId
    ensures AllAlike(log + more, from, id, request, remoteId)
  {
  }

  /** Without a post so far, any request may be the one that all posts carry. */
  lemma NoneSent(log: seq<Entry>, from: nat, id: BatchId, request: Request, remoteId: RemoteId)
    requires AllAlike(log, from, id, 0, 0) && AllAlike(log, from, id, 1, 1)
    ensures AllAlike(log, from, id, request, remoteId)
  {
  }

  lemma WorkerStep(start: Effect, state: Effect, action: Action, id: BatchId)
    requires Inv(state) && Retrying(start, state, id) && WorkerAction(state.rows, action)
    ensures Retrying(start, Step(state, action), id)
  {
    hide Inv, SyncLocked, PostCount, AllAlike;
    FreshStep(state, action);
    hide Step;
    if !(Finished(state.rows[action.id].status) || Reviewing(state.rows)) {
      var target := Target(action);
      FreshFields(state.rows, target, action.attempt);
      var effect := SyncLocked(state.rows, target, state.rows[target], action.attempt);
      LastSentMore(state.log, effect.log, id);
      TargetStatus(state, action);
      LockedChanges(state.rows, target, state.rows[target], action.attempt);
      var n := PostCount(state.log, id) - PostCount(start.log, id);
      var next := effect.rows[id];
      if SentIn(effect.log).Some? && target == id {
        var sent := SentIn(effect.log).value;
        if n == 0 {
          NoneSent(state.log, |start.log|, id, sent.request, sent.remoteId);
        }
        AllAlikeMore(state.log, effect.log, |start.log|, id, sent.request, sent.remoteId);
      } else if n == 0 {
        AllAlikeMore(state.log, effect.log, |start.log|, id, 0, 0);
        AllAlikeMore(state.log, effect.log, |start.log|, id, 1, 1);
      } else {
        AllAlikeMore(state.log, effect.log, |start.log|, id, state.rows[id].request.value, state.rows[id].remoteId.value);
      }
    }
  }

  lemma TargetStatus(state: Effect, action: Action)
    requires WorkerAction(state.rows, action) && !Finished(state.rows[action.id].status)
    ensures var status := state.rows[Target(action)].status; status.PendingSync? || status.Syncing?
  {
  }

  lemma {:induction false} WorkerRetries(before: seq<Action>, actions: seq<Action>, id: BatchId)
    requires var start := Run(EMPTY, before);
             && WorkerRun(start, actions)
             && id in start.rows && start.rows[id].status.PendingSync? && start.rows[id].retryCount == 0
    ensures var start := Run(EMPTY, before);
            && Retrying(start, Run(start, actions), id)
            && Inv(Run(start, actions))
    decreases |actions|
  {
    var start := Run(EMPTY, before);
    RunKeeps(before);
    hide Step, Inv;
    if actions != [] {
      var init := actions[..|actions| - 1];
      WorkerRetries(before, init, id);
      hide Retrying, WorkerAction;
      WorkerStep(start, Run(start, init), actions[|actions| - 1], id);
      StepKeeps(Run(start, init), actions[|actions| - 1]);
    }
  }

  /**
   From PENDING_SYNC with no retries the worker alone posts a batch at most three times, always with the
   same request under the same REMOTEID.
   */
  lemma WorkerBounded(before: seq<Action>, actions: seq<Action>, id: BatchId, i: nat, j: nat)
    requires var start := Run(EMPTY, before);
             && WorkerRun(start, actions)
             && id in start.rows && start.rows[id].status.PendingSync? && start.rows[id].retryCount == 0
    ensures var start, end := Run(EMPTY, before), Run(Run(EMPTY, before), actions);
            && start.log <= end.log
            && PostCount(end.log, id) <= PostCount(start.log, id) + 3
            && (|start.log| <= i < |end.log| && |start.log| <= j < |end.log|
                && end.log[i].Sent? && end.log[i].batch == id && end.log[j].Sent? && end.log[j].batch == id ==>
                  end.log[i].request == end.log[j].request && end.log[i].remoteId == end.log[j].remoteId)
  {
    WorkerRetries(before, actions, id);
    hide Run, PostCount, Inv, WorkerRun;
    var start, end := Run(EMPTY, before), Run(Run(EMPTY, before), actions);
    assert Retrying(start, end, id);
  }
}
