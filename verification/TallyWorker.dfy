/** The automatic retry worker (app/services/sync_worker.py, retry_pending_batches). */
module TallyWorker {
  import opened Records
  import opened TallyQueue
  import opened TallyQueueTheorems
  import opened TallyRetryTheorems

  // ---------------------------------------------------------------- the selection

  /** What the worker's query looks for: a pending voucher, or one whose import was interrupted long ago. */
  predicate Selected(row: Row, now: int) {
    && row.kind.Voucher?
    && (row.status.PendingSync?
        || (row.status.Syncing? && (row.startedAt.None? || row.startedAt.value < now - SYNC_LEASE_SECONDS)))
  }

  /** Never tried batches first, then by the time of the last try, then by age. */
  predicate SortsBefore(a: Row, b: Row) {
    if a.lastRetryAt.Some? != b.lastRetryAt.Some? then a.lastRetryAt.None?
    else if a.lastRetryAt != b.lastRetryAt then a.lastRetryAt.value < b.lastRetryAt.value
    else a.createdAt < b.createdAt
  }

  /** What the query can return: the first `limit` batches in its order. */
  ghost predicate IsSelection(rows: Rows, batches: seq<BatchId>, now: int, limit: nat) {
    && |batches| <= limit
    && (forall i :: 0 <= i < |batches| ==> batches[i] in rows && Selected(rows[batches[i]], now))
    && (forall i, j :: 0 <= i < j < |batches| ==> batches[i] != batches[j] && !SortsBefore(rows[batches[j]], rows[batches[i]]))
    && (forall b | b in rows && Selected(rows[b], now) && b !in batches ::
          |batches| == limit && forall i :: 0 <= i < |batches| ==> !SortsBefore(rows[b], rows[batches[i]]))
  }

  // ---------------------------------------------------------------- one pass

  ghost predicate Raises(rows: Rows, action: Action) {
    && action.Sync? && action.id in rows && (action.other.Some? ==> action.other.value in rows)
    && SyncRaises(rows, action.id, action.copy, action.other, action.cached, action.attempt)
  }

  /** The call raises an exception, or the process dies in it. */
  ghost predicate Ends(rows: Rows, action: Action) {
    Raises(rows, action) || (action.Sync? && !action.attempt.death.Survives?)
  }

  /** The calls go through the selected batches in order, and only the last one can end the pass. */
  ghost predicate Pass(start: Effect, batches: seq<BatchId>, actions: seq<Action>) {
    && |actions| <= |batches| && WorkerRun(start, actions)
    && forall k :: 0 <= k < |actions| ==> PassCall(start, batches, actions, k)
  }

  ghost predicate PassCall(start: Effect, batches: seq<BatchId>, actions: seq<Action>, k: nat)
    requires k < |actions| <= |batches|
  {
    var rows := Run(start, actions[..k]).rows;
    && WorkerAction(rows, actions[k]) && actions[k].id == batches[k]
    && (k < |actions| - 1 ==> !Ends(rows, actions[k]))
  }

  /** The pass went through all its batches, a call ended it, or it made none as Tally is switched off. */
  ghost predicate Complete(start: Effect, batches: seq<BatchId>, actions: seq<Action>) {
    || actions == [] || |actions| == |batches|
    || Ends(Run(start, actions[..|actions| - 1]).rows, actions[|actions| - 1])
  }

  /** The worker may call for the batch. */
  predicate Callable(rows: Rows, id: BatchId) {
    id in rows && (rows[id].status.PendingSync? || rows[id].status.Syncing? || Finished(rows[id].status))
  }

  lemma RunOne(start: Effect, actions: seq<Action>, action: Action)
    requires WorkerRun(start, actions) && WorkerAction(Run(start, actions).rows, action)
    ensures WorkerRun(start, actions + [action]) && Run(start, actions + [action]) == Step(Run(start, actions), action)
  {
    hide Step, WorkerAction;
    assert (actions + [action])[..|actions|] == actions;
  }

  lemma PassOne(start: Effect, batches: seq<BatchId>, actions: seq<Action>, action: Action)
    requires Pass(start, batches, actions) && |actions| < |batches|
    requires var rows := Run(start, actions).rows; WorkerAction(rows, action) && action.id == batches[|actions|]
    requires forall k :: 0 <= k < |actions| ==> !Ends(Run(start, actions[..k]).rows, actions[k])
    ensures Pass(start, batches, actions + [action])
    ensures forall k :: 0 <= k < |actions| ==> !Ends(Run(start, (actions + [action])[..k]).rows, (actions + [action])[k])
  {
    var longer := actions + [action];
    RunOne(start, actions, action);
    hide Run, WorkerRun, Step, Ends;
    assert longer[..|actions|] == actions;
    forall k | 0 <= k < |longer|
      ensures PassCall(start, batches, longer, k)
      ensures k < |actions| ==> !Ends(Run(start, longer[..k]).rows, longer[k])
    {
      if k < |actions| {
        assert longer[..k] == actions[..k];
        assert PassCall(start, batches, actions, k);
      }
    }
  }

  /** A call leaves the batches that are still to come callable. */
  lemma StillCallable(state: Effect, action: Action, id: BatchId)
    requires Inv(state) && WorkerAction(state.rows, action) && Callable(state.rows, id) && id != action.id
    ensures Callable(Step(state, action).rows, id)
  {
    hide SyncLocked, Inv;
    FreshStep(state, action);
    hide Step;
    if !(Finished(state.rows[action.id].status) || Reviewing(state.rows)) {
      TargetStatus(state, action);
      FreshFields(state.rows, Target(action), action.attempt);
    }
  }

  /**
   One pass of the worker over what its query returned; `attempts[i]` is what call `i` meets. An exception or
   the death of the process ends the pass. Its calls form a run of the worker by itself.
   */
  method RetryPendingBatches(queue: Queue, now: int, limit: nat, enabled: bool, batches: seq<BatchId>, attempts: seq<Attempt>)
    returns (count: nat, raised: bool, ghost actions: seq<Action>)
    requires Inv(Effect(queue.rows, queue.log)) && |attempts| == |batches|
    requires IsSelection(queue.rows, batches, now, limit)
    modifies queue
    ensures count == if enabled then |batches| else 0
    ensures Pass(Effect(old(queue.rows), old(queue.log)), batches, actions)
    ensures Complete(Effect(old(queue.rows), old(queue.log)), batches, actions)
    ensures forall k :: 0 <= k < |actions| ==> actions[k].Sync? && actions[k].attempt == attempts[k]
    ensures !enabled ==> actions == []
    ensures enabled && batches != [] ==> actions != []
    ensures raised <==> actions != []
                        && Raises(Run(Effect(old(queue.rows), old(queue.log)), actions[..|actions| - 1]).rows, actions[|actions| - 1])
    ensures Run(Effect(old(queue.rows), old(queue.log)), actions) == Effect(queue.rows, queue.log)
    ensures Inv(Effect(queue.rows, queue.log))
  {
    hide Inv, Step, SyncEffect, SyncRaises;
    actions, raised := [], false;
    ghost var start := Effect(queue.rows, queue.log);
    assert Pass(start, batches, []);
    if !enabled {
      return 0, false, actions;
    }
    count := |batches|;
    for i := 0 to |batches|
      invariant |actions| == i && !raised
      invariant Pass(start, batches, actions) && Run(start, actions) == Effect(queue.rows, queue.log)
      invariant forall k :: 0 <= k < i ==> actions[k].Sync? && actions[k].attempt == attempts[k]
      invariant forall k :: 0 <= k < i ==> !Ends(Run(start, actions[..k]).rows, actions[k])
      invariant Inv(Effect(queue.rows, queue.log))
      invariant forall k :: i <= k < |batches| ==> Callable(queue.rows, batches[k])
    {
      var id, a := batches[i], attempts[i];
      ghost var before := Effect(queue.rows, queue.log);
      var copy := queue.rows[id];
      ghost var other;
      other, raised := queue.SyncBatch(id, copy, map[], a);
      ghost var action := Sync(id, copy, other, None, a);
      assert WorkerAction(before.rows, action);
      assert Step(before, action) == Effect(queue.rows, queue.log) by { SyncStep(before, action); }
      PassOne(start, batches, actions, action);
      RunOne(start, actions, action);
      StepKeeps(before, action);
      forall k | i < k < |batches| ensures Callable(queue.rows, batches[k]) {
        StillCallable(before, action, batches[k]);
      }
      assert (actions + [action])[..i] == actions;
      actions := actions + [action];
      if raised || !a.death.Survives? {
        assert actions[..|actions| - 1] == actions[..i];
        break;
      }
    }
  }

  lemma SyncStep(before: Effect, action: Action)
    requires action.Sync? && Admissible(before.rows, action)
    ensures var effect := SyncEffect(before.rows, action.id, action.copy, action.other, action.cached, action.attempt);
            Step(before, action) == Effect(effect.rows, before.log + effect.log)
  {
  }
}
